/**
 * The checkout validation hook: a submitted billing or shipping city must be one of the
 * registry cities, compared as exact strings (no trimming, no case folding). An absent or
 * PHP-empty value is left to the host's required-field check.
 */
module CityValidation {
  import opened Wrappers
  import opened Sequences
  import opened PhpArrays
  import opened CityRegistry
  import opened CityOptions

  /** One error reported to the host's error collector: the field key and the message. */
  datatype FieldError = FieldError(field: string, message: string)

  const BillingMessage: string := "Please select a valid city from the dropdown."
  const ShippingMessage: string := "Please select a valid shipping city from the dropdown."

  /**
   * PHP `empty()` on a submitted value; a missing key reads as null, which is empty too. Among
   * strings only `""` and `"0"` are empty: any string of two or more characters, whitespace
   * included, is not.
   */
  function IsEmpty(v: Option<string>): (empty: bool)
    ensures v.None? ==> empty
    ensures v.Some? && |v.value| == 0 ==> empty
    ensures v.Some? && |v.value| == 1 ==> (empty <==> v.value[0] == '0')
    ensures v.Some? && |v.value| >= 2 ==> !empty
  {
    assert v.Some? && |v.value| == 1 ==> v.value == [v.value[0]];
    v == None || v == Some("") || v == Some("0")
  }

  /**
   * `$allowed_cities`: the dropdown list with its placeholder key unset. Its keys are exactly
   * the registry cities, in order; the empty string is not one of them.
   */
  function AllowedCities(): (allowed: Arr<string>)
    ensures Keys(allowed) == AllCities(GetCitiesList())
    ensures forall c :: HasKey(allowed, c) <==> c in AllCities(GetCitiesList())
    ensures !HasKey(allowed, "")
  {
    AllowedFromRegions(GetCitiesList());
    Unset(FormatCitiesForSelect(), "")
  }

  lemma AllowedFromRegions(regions: Arr<seq<string>>)
    requires Distinct([""] + AllCities(regions))
    ensures Keys(Unset(InsertRegions([("", Placeholder)], regions), "")) == AllCities(regions)
    ensures forall c :: HasKey(Unset(InsertRegions([("", Placeholder)], regions), ""), c)
                        <==> c in AllCities(regions)
  {
    var cities := AllCities(regions);
    FormatRegions(regions);
    DistinctUncons([""] + cities);
    assert ([""] + cities)[1..] == cities;
    var options := Identity(cities);
    assert !HasKey(options, "");
    var all: Arr<string> := [("", Placeholder)] + options;
    assert all[1..] == options;
    assert Unset(all, "") == Unset(options, "");
  }

  /** One of the two checks: an error on `key` when its value is non-empty and not allowed. */
  function CheckCity(data: Arr<string>, allowed: Arr<string>, key: string, message: string)
    : (errs: seq<FieldError>)
    ensures |errs| <= 1
    ensures errs != [] <==> (Get(data, key).Some? && Get(data, key).value != ""
                             && Get(data, key).value != "0" && !HasKey(allowed, Get(data, key).value))
    ensures forall e :: e in errs ==> e == FieldError(key, message)
  {
    var v := Get(data, key);
    if !IsEmpty(v) && !HasKey(allowed, v.value) then [FieldError(key, message)] else []
  }

  /** A submitted value outside `cities` that the validator must reject. */
  ghost predicate RejectedBy(v: Option<string>, cities: seq<string>)
  {
    v.Some? && v.value != "" && v.value != "0" && v.value !in cities
  }

  /** Both checks against an allowed-key array whose keys are the members of `cities`. */
  function ValidateAgainst(data: Arr<string>, allowed: Arr<string>, ghost cities: seq<string>)
    : (errs: seq<FieldError>)
    requires forall c :: HasKey(allowed, c) <==> c in cities
    ensures |errs| <= 2
    ensures FieldError("billing_city", BillingMessage) in errs <==> RejectedBy(Get(data, "billing_city"), cities)
    ensures FieldError("shipping_city", ShippingMessage) in errs <==> RejectedBy(Get(data, "shipping_city"), cities)
    ensures forall e :: e in errs ==> (e == FieldError("billing_city", BillingMessage)
                                       || e == FieldError("shipping_city", ShippingMessage))
    ensures |errs| == 2 ==> errs == [FieldError("billing_city", BillingMessage),
                                     FieldError("shipping_city", ShippingMessage)]
    ensures errs == (if RejectedBy(Get(data, "billing_city"), cities)
                     then [FieldError("billing_city", BillingMessage)] else [])
                  + (if RejectedBy(Get(data, "shipping_city"), cities)
                     then [FieldError("shipping_city", ShippingMessage)] else [])
  {
    CheckCity(data, allowed, "billing_city", BillingMessage)
      + CheckCity(data, allowed, "shipping_city", ShippingMessage)
  }

  /**
   * `validate_city_field`: at most two errors, billing before shipping. The billing error is
   * reported exactly when the submitted billing city is present, not PHP-empty and not a
   * registry city; likewise, independently, for shipping.
   */
  function ValidateCityField(data: Arr<string>): (errs: seq<FieldError>)
    ensures |errs| <= 2
    ensures FieldError("billing_city", BillingMessage) in errs
            <==> RejectedBy(Get(data, "billing_city"), AllCities(GetCitiesList()))
    ensures FieldError("shipping_city", ShippingMessage) in errs
            <==> RejectedBy(Get(data, "shipping_city"), AllCities(GetCitiesList()))
    ensures forall e :: e in errs ==> (e == FieldError("billing_city", BillingMessage)
                                       || e == FieldError("shipping_city", ShippingMessage))
    ensures |errs| == 2 ==> errs == [FieldError("billing_city", BillingMessage),
                                     FieldError("shipping_city", ShippingMessage)]
    ensures errs == (if RejectedBy(Get(data, "billing_city"), AllCities(GetCitiesList()))
                     then [FieldError("billing_city", BillingMessage)] else [])
                  + (if RejectedBy(Get(data, "shipping_city"), AllCities(GetCitiesList()))
                     then [FieldError("shipping_city", ShippingMessage)] else [])
  {
    ValidateAgainst(data, AllowedCities(), AllCities(GetCitiesList()))
  }
}
