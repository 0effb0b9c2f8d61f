/**
 * The two field-schema filters. Each turns a free-text city field into a select whose options
 * are the city dropdown list, and leaves the rest of the schema as it was. A schema is a PHP
 * array from field key to field descriptor; a descriptor is a PHP array of attributes.
 */
module FieldSchema {
  import opened Wrappers
  import opened Sequences
  import opened PhpArrays
  import opened CityOptions

  /** The attribute values a field descriptor holds. */
  datatype Attr =
    | Text(text: string)
    | Flag(flag: bool)
    | Number(number: int)
    | List(items: seq<string>)
    | Dict(entries: Arr<string>)

  type Descriptor = Arr<Attr>

  /** Field key to descriptor, as in the default address fields. */
  type Fields = Arr<Descriptor>

  /** Group key ("billing", "shipping", ...) to that group's fields, as in the checkout fields. */
  type CheckoutFields = Arr<Fields>

  const CheckoutClasses: seq<string> := ["form-row-wide", "address-field", "update_totals_on_change"]
  const DefaultClasses: seq<string> := ["form-row-wide", "address-field"]
  const CheckoutAttributes: Arr<string> := [("data-placeholder", "Select a city")]

  /**
   * `after` is the descriptor `before` turned into a city select: the control type is
   * "select", the options are the dropdown list `cities`, the class list is `classes`, the
   * custom attributes are `attrs` when given and untouched otherwise, and every other
   * attribute keeps its value.
   */
  ghost predicate SetsCityAttributes(before: Descriptor, after: Descriptor, cities: Arr<string>,
                                     classes: seq<string>, attrs: Option<Arr<string>>)
  {
    && Get(after, "type") == Some(Text("select"))
    && Get(after, "options") == Some(Dict(cities))
    && Get(after, "class") == Some(List(classes))
    && Get(after, "custom_attributes")
       == (if attrs.Some? then Some(Dict(attrs.value)) else Get(before, "custom_attributes"))
    && (forall a :: a != "type" && a != "options" && a != "class" && a != "custom_attributes"
                    ==> Get(after, a) == Get(before, a))
  }

  /**
   * The attribute order of `after` is that of `before`, followed by the assigned attributes
   * `before` lacked, in assignment order; no attribute is duplicated.
   */
  ghost predicate KeepsAttributeOrder(before: Descriptor, after: Descriptor, attrs: Option<Arr<string>>)
  {
    && Keys(after) == Keys(before) + Fresh(CitySelectKeys(attrs), Keys(before))
    && (UniqueKeys(before) ==> UniqueKeys(after))
  }

  ghost predicate IsCitySelect(before: Descriptor, after: Descriptor, cities: Arr<string>,
                               classes: seq<string>, attrs: Option<Arr<string>>)
  {
    SetsCityAttributes(before, after, cities, classes, attrs) && KeepsAttributeOrder(before, after, attrs)
  }

  /** The attributes the filters assign, in source order; custom_attributes only when given. */
  function CitySelectKeys(attrs: Option<Arr<string>>): seq<string>
  {
    ["type", "options", "class"] + (if attrs.Some? then ["custom_attributes"] else [])
  }

  /**
   * `after` is `before` with the field `key` turned into a city select, or `before` itself
   * when there is no such field; no other field changes and the field order is kept.
   */
  ghost predicate AdaptedField(before: Fields, after: Fields, key: string, cities: Arr<string>,
                               classes: seq<string>, attrs: Option<Arr<string>>)
  {
    match Get(before, key)
    case None => after == before
    case Some(d) =>
      && Keys(after) == Keys(before)
      && (forall k :: k != key ==> Get(after, k) == Get(before, k))
      && Get(after, key).Some?
      && IsCitySelect(d, Get(after, key).value, cities, classes, attrs)
  }

  /**
   * The attribute assignments the filters make on one city descriptor, in source order:
   * type, options, class, and, on the checkout form only, custom_attributes.
   */
  function CitySelectWrites(cities: Arr<string>, classes: seq<string>, attrs: Option<Arr<string>>)
    : (writes: Arr<Attr>)
    ensures UniqueKeys(writes)
    ensures Keys(writes) == CitySelectKeys(attrs)
    ensures Get(writes, "type") == Some(Text("select"))
    ensures Get(writes, "options") == Some(Dict(cities))
    ensures Get(writes, "class") == Some(List(classes))
    ensures attrs.Some? ==> Get(writes, "custom_attributes") == Some(Dict(attrs.value))
  {
    var tail: Arr<Attr> := if attrs.Some? then [("custom_attributes", Dict(attrs.value))] else [];
    var writes := [("type", Text("select")), ("options", Dict(cities)), ("class", List(classes))] + tail;
    assert writes[1..] == [("options", Dict(cities)), ("class", List(classes))] + tail;
    assert writes[2..] == [("class", List(classes))] + tail;
    assert writes[3..] == tail;
    var tailKeys: seq<string> := if attrs.Some? then ["custom_attributes"] else [];
    assert Keys(tail) == tailKeys;
    assert Keys(writes[2..]) == ["class"] + tailKeys;
    assert Keys(writes[1..]) == ["options", "class"] + tailKeys;
    assert Keys(writes) == ["type", "options", "class"] + tailKeys;
    writes
  }

  function ToCitySelect(d: Descriptor, cities: Arr<string>, classes: seq<string>,
                        attrs: Option<Arr<string>>): (r: Descriptor)
    ensures IsCitySelect(d, r, cities, classes, attrs)
  {
    CitySelectAttributes(d, cities, classes, attrs);
    CitySelectOrder(d, cities, classes, attrs);
    PutAll(d, CitySelectWrites(cities, classes, attrs))
  }

  lemma CitySelectAttributes(d: Descriptor, cities: Arr<string>, classes: seq<string>,
                             attrs: Option<Arr<string>>)
    ensures SetsCityAttributes(d, PutAll(d, CitySelectWrites(cities, classes, attrs)), cities, classes, attrs)
  {
    var writes := CitySelectWrites(cities, classes, attrs);
    var keys := CitySelectKeys(attrs);
    assert Keys(writes) == keys;
    assert "type" in keys && "options" in keys && "class" in keys;
    assert "custom_attributes" in keys <==> attrs.Some?;
    forall a | a != "type" && a != "options" && a != "class" && a != "custom_attributes"
      ensures !HasKey(writes, a)
    {
      assert a !in keys;
    }
  }

  lemma CitySelectOrder(d: Descriptor, cities: Arr<string>, classes: seq<string>,
                        attrs: Option<Arr<string>>)
    ensures KeepsAttributeOrder(d, PutAll(d, CitySelectWrites(cities, classes, attrs)), attrs)
  {
    PutAllOrder(d, CitySelectWrites(cities, classes, attrs));
  }

  /** `if (isset($fields[key])) { ...rewrite $fields[key]... }`. */
  function AdaptField(fields: Fields, key: string, cities: Arr<string>, classes: seq<string>,
                      attrs: Option<Arr<string>>): (r: Fields)
    ensures AdaptedField(fields, r, key, cities, classes, attrs)
  {
    match Get(fields, key)
    case None => fields
    case Some(d) => Put(fields, key, ToCitySelect(d, cities, classes, attrs))
  }

  /**
   * `customize_default_city_field`: the `city` field, when present, becomes a select over the
   * city list with the classes "form-row-wide" and "address-field"; its custom attributes are
   * left alone. A schema without `city` is returned unchanged.
   */
  function CustomizeDefaultCityField(fields: Fields): (r: Fields)
    ensures !HasKey(fields, "city") ==> r == fields
    ensures AdaptedField(fields, r, "city", FormatCitiesForSelect(), DefaultClasses, None)
  {
    AdaptField(fields, "city", FormatCitiesForSelect(), DefaultClasses, None)
  }

  /**
   * `after` is `before` with the checkout city field `key` of group `group` turned into a
   * select; when the group or the field is missing, the group is as it was.
   */
  ghost predicate AdaptedGroup(before: CheckoutFields, after: CheckoutFields, group: string, key: string,
                               cities: Arr<string>)
  {
    match Get(before, group)
    case None => Get(after, group) == None
    case Some(g) =>
      && Get(after, group).Some?
      && AdaptedField(g, Get(after, group).value, key, cities, CheckoutClasses, Some(CheckoutAttributes))
  }

  /** One of the two `isset($fields[group][key])` blocks of the checkout filter. */
  function AdaptGroup(fields: CheckoutFields, group: string, key: string, cities: Arr<string>): (r: CheckoutFields)
    ensures Keys(r) == Keys(fields)
    ensures forall g :: g != group ==> Get(r, g) == Get(fields, g)
    ensures AdaptedGroup(fields, r, group, key, cities)
  {
    match Get(fields, group)
    case None => fields
    case Some(g) =>
      if HasKey(g, key) then Put(fields, group, AdaptField(g, key, cities, CheckoutClasses, Some(CheckoutAttributes)))
      else fields
  }

  /** Both blocks of the checkout filter, with the dropdown list `cities` computed up front. */
  function AdaptCheckout(fields: CheckoutFields, cities: Arr<string>): (r: CheckoutFields)
    ensures Keys(r) == Keys(fields)
    ensures forall g :: g != "billing" && g != "shipping" ==> Get(r, g) == Get(fields, g)
    ensures AdaptedGroup(fields, r, "billing", "billing_city", cities)
    ensures AdaptedGroup(fields, r, "shipping", "shipping_city", cities)
  {
    var f := AdaptGroup(fields, "billing", "billing_city", cities);
    AdaptGroup(f, "shipping", "shipping_city", cities)
  }

  /**
   * `customize_city_field`: `billing.billing_city` and `shipping.shipping_city`, each when
   * present and independently of the other, become selects over the city list with the
   * checkout classes and the data-placeholder attribute. Every other group, every other
   * field and every other attribute is kept.
   */
  function CustomizeCityField(fields: CheckoutFields): (r: CheckoutFields)
    ensures Keys(r) == Keys(fields)
    ensures forall g :: g != "billing" && g != "shipping" ==> Get(r, g) == Get(fields, g)
    ensures AdaptedGroup(fields, r, "billing", "billing_city", FormatCitiesForSelect())
    ensures AdaptedGroup(fields, r, "shipping", "shipping_city", FormatCitiesForSelect())
  {
    AdaptCheckout(fields, FormatCitiesForSelect())
  }

  /** Rewriting a descriptor that is already a city select changes nothing. */
  lemma ToCitySelectIdempotent(d: Descriptor, cities: Arr<string>, classes: seq<string>,
                               attrs: Option<Arr<string>>)
    ensures ToCitySelect(ToCitySelect(d, cities, classes, attrs), cities, classes, attrs)
         == ToCitySelect(d, cities, classes, attrs)
  {
    PutAllExisting(ToCitySelect(d, cities, classes, attrs), CitySelectWrites(cities, classes, attrs));
  }

  lemma AdaptFieldIdempotent(fields: Fields, key: string, cities: Arr<string>, classes: seq<string>,
                             attrs: Option<Arr<string>>)
    ensures AdaptField(AdaptField(fields, key, cities, classes, attrs), key, cities, classes, attrs)
         == AdaptField(fields, key, cities, classes, attrs)
  {
    var f := AdaptField(fields, key, cities, classes, attrs);
    if Get(fields, key).Some? {
      var d := Get(fields, key).value;
      ToCitySelectIdempotent(d, cities, classes, attrs);
      PutExisting(f, key, ToCitySelect(d, cities, classes, attrs));
    }
  }

  /** Running the default-address filter a second time changes nothing. */
  lemma CustomizeDefaultCityFieldIdempotent(fields: Fields)
    ensures CustomizeDefaultCityField(CustomizeDefaultCityField(fields)) == CustomizeDefaultCityField(fields)
  {
    AdaptFieldIdempotent(fields, "city", FormatCitiesForSelect(), DefaultClasses, None);
  }

  lemma AdaptGroupIdempotent(fields: CheckoutFields, group: string, key: string, cities: Arr<string>)
    ensures AdaptGroup(AdaptGroup(fields, group, key, cities), group, key, cities)
         == AdaptGroup(fields, group, key, cities)
  {
    var f := AdaptGroup(fields, group, key, cities);
    if Get(fields, group).Some? && HasKey(Get(fields, group).value, key) {
      var g := Get(fields, group).value;
      var attrs := Some(CheckoutAttributes);
      AdaptFieldIdempotent(g, key, cities, CheckoutClasses, attrs);
      PutExisting(f, group, AdaptField(g, key, cities, CheckoutClasses, attrs));
    }
  }

  /** Running the checkout filter a second time changes nothing. */
  lemma CustomizeCityFieldIdempotent(fields: CheckoutFields)
    ensures CustomizeCityField(CustomizeCityField(fields)) == CustomizeCityField(fields)
  {
    var cities := FormatCitiesForSelect();
    var b := AdaptGroup(fields, "billing", "billing_city", cities);
    var r := AdaptGroup(b, "shipping", "shipping_city", cities);
    assert r == AdaptCheckout(fields, cities);
    var b' := AdaptGroup(r, "billing", "billing_city", cities);
    assert b' == r by {
      assert Get(r, "billing") == Get(b, "billing");
      AdaptGroupIdempotent(fields, "billing", "billing_city", cities);
      if Get(r, "billing").Some? && HasKey(Get(r, "billing").value, "billing_city") {
        PutExisting(r, "billing", Get(b, "billing").value);
      }
    }
    AdaptGroupIdempotent(b, "shipping", "shipping_city", cities);
  }

  /** Both filters give a city field the same options: the one dropdown list. */
  lemma FiltersShareOptions(checkout: CheckoutFields, address: Fields)
    requires Get(checkout, "billing").Some? && HasKey(Get(checkout, "billing").value, "billing_city")
    requires HasKey(address, "city")
    ensures var c := Get(CustomizeCityField(checkout), "billing").value;
            var a := CustomizeDefaultCityField(address);
            Get(Get(c, "billing_city").value, "options") == Get(Get(a, "city").value, "options")
                                                       == Some(Dict(FormatCitiesForSelect()))
  {
    SharedOptions(checkout, address, FormatCitiesForSelect());
  }

  lemma SharedOptions(checkout: CheckoutFields, address: Fields, cities: Arr<string>)
    requires Get(checkout, "billing").Some? && HasKey(Get(checkout, "billing").value, "billing_city")
    requires HasKey(address, "city")
    ensures var c := Get(AdaptCheckout(checkout, cities), "billing").value;
            var a := AdaptField(address, "city", cities, DefaultClasses, None);
            Get(Get(c, "billing_city").value, "options") == Get(Get(a, "city").value, "options")
                                                       == Some(Dict(cities))
  {
  }
}
