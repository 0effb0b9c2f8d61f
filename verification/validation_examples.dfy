/**
 * Concrete submissions and what the validator reports for them. Matching is exact: a
 * suffix, a different case or a dropped disambiguation is not a registry city.
 */
module ValidationExamples {
  import opened Wrappers
  import opened PhpArrays
  import opened CityRegistry
  import opened CityValidation

  lemma IsRegistryCity(c: string)
    requires c in FairfaxCounty || c in LoudounCounty
    ensures c in AllCities(GetCitiesList())
  {
  }

  lemma NotARegistryCity(c: string)
    requires c !in IndependentCities && c !in ArlingtonCounty && c !in FairfaxCounty
    requires c !in LoudounCounty && c !in PrinceWilliamCounty
    ensures c !in AllCities(GetCitiesList())
  {
  }

  lemma RestonIsCity()
    ensures "Reston" in AllCities(GetCitiesList())
  {
    assert FairfaxCounty[18] == "Reston";
    IsRegistryCity("Reston");
  }

  lemma AshburnIsCity()
    ensures "Ashburn" in AllCities(GetCitiesList())
  {
    assert LoudounCounty[1] == "Ashburn";
    IsRegistryCity("Ashburn");
  }

  lemma SuffixedRestonIsNoCity()
    ensures "Reston, VA" !in AllCities(GetCitiesList())
  {
    NotARegistryCity("Reston, VA");
  }

  lemma LowerCaseRestonIsNoCity()
    ensures "reston" !in AllCities(GetCitiesList())
  {
    NotARegistryCity("reston");
  }

  lemma AtlantisIsNoCity()
    ensures "Atlantis" !in AllCities(GetCitiesList())
  {
    NotARegistryCity("Atlantis");
  }

  /** An exact registry name passes. */
  lemma RestonPasses(data: Arr<string>)
    requires Get(data, "billing_city") == Some("Reston") && Get(data, "shipping_city") == None
    ensures ValidateCityField(data) == []
  {
    RestonIsCity();
  }

  /** No trimming: a registry name with extra text is rejected on the billing field. */
  lemma SuffixedRestonFails(data: Arr<string>)
    requires Get(data, "billing_city") == Some("Reston, VA") && Get(data, "shipping_city") == None
    ensures ValidateCityField(data) == [FieldError("billing_city", BillingMessage)]
  {
    SuffixedRestonIsNoCity();
  }

  /** No case folding: a registry name in another case is rejected. */
  lemma LowerCaseRestonFails(data: Arr<string>)
    requires Get(data, "billing_city") == Some("reston") && Get(data, "shipping_city") == None
    ensures ValidateCityField(data) == [FieldError("billing_city", BillingMessage)]
  {
    LowerCaseRestonIsNoCity();
  }

  /** An empty billing city is skipped, and a valid shipping city passes. */
  lemma EmptyBillingValidShippingPasses(data: Arr<string>)
    requires Get(data, "billing_city") == Some("") && Get(data, "shipping_city") == Some("Ashburn")
    ensures ValidateCityField(data) == []
  {
    AshburnIsCity();
  }

  /** An unknown shipping city is reported on the shipping field only. */
  lemma UnknownShippingFails(data: Arr<string>)
    requires Get(data, "billing_city") == None && Get(data, "shipping_city") == Some("Atlantis")
    ensures ValidateCityField(data) == [FieldError("shipping_city", ShippingMessage)]
  {
    AtlantisIsNoCity();
  }

  /** Both fields wrong: two errors, billing first. */
  lemma BothUnknownFail(data: Arr<string>)
    requires Get(data, "billing_city") == Some("Atlantis") && Get(data, "shipping_city") == Some("Reston, VA")
    ensures ValidateCityField(data) == [FieldError("billing_city", BillingMessage),
                                        FieldError("shipping_city", ShippingMessage)]
  {
    AtlantisIsNoCity();
    SuffixedRestonIsNoCity();
  }

  /** PHP's `empty("0")` holds, so "0" is skipped although it is no city. */
  lemma ZeroIsSkipped(data: Arr<string>)
    requires Get(data, "billing_city") == Some("0") && Get(data, "shipping_city") == Some("0")
    ensures ValidateCityField(data) == []
  {
  }
}
