/**
 * The dropdown option list: a placeholder entry followed by every registry city, each city
 * being both the option's key and its label.
 */
module CityOptions {
  import opened Wrappers
  import opened Sequences
  import opened PhpArrays
  import opened CityRegistry

  /** Label of the unselected option, whose key is the empty string. */
  const Placeholder: string := "Select a city *"

  /** Options whose key equals their label, one per city, in the given order. */
  function Identity(cities: seq<string>): (options: Arr<string>)
    ensures |options| == |cities|
    ensures Keys(options) == cities
    ensures forall i :: 0 <= i < |options| ==> options[i] == (cities[i], cities[i])
  {
    if |cities| == 0 then [] else [(cities[0], cities[0])] + Identity(cities[1..])
  }

  /** The inner loop: `$formatted[$city] = $city` for each city of one region. */
  function InsertCities(acc: Arr<string>, cities: seq<string>): (r: Arr<string>)
    ensures forall c :: c in cities ==> Get(r, c) == Some(c)
    ensures forall k :: k !in cities ==> Get(r, k) == Get(acc, k)
    decreases |cities|
  {
    if |cities| == 0 then acc else InsertCities(Put(acc, cities[0], cities[0]), cities[1..])
  }

  /** The outer loop over the regions, in order. */
  function InsertRegions(acc: Arr<string>, regions: Arr<seq<string>>): (r: Arr<string>)
    ensures forall c :: c in AllCities(regions) ==> Get(r, c) == Some(c)
    ensures forall k :: k !in AllCities(regions) ==> Get(r, k) == Get(acc, k)
    decreases |regions|
  {
    if |regions| == 0 then acc else InsertRegions(InsertCities(acc, regions[0].1), regions[1..])
  }

  /**
   * When no city repeats and none is already a key, every assignment appends: the loop
   * extends the array by the cities in order and never overwrites an earlier entry.
   */
  lemma {:induction false} InsertCitiesAppends(acc: Arr<string>, cities: seq<string>)
    requires Distinct(Keys(acc) + cities)
    ensures InsertCities(acc, cities) == acc + Identity(cities)
    decreases |cities|
  {
    if |cities| == 0 {
      assert acc + Identity(cities) == acc;
    } else {
      var c := cities[0];
      DistinctShift(Keys(acc), cities);
      var acc' := Put(acc, c, c);
      assert acc' == acc + [(c, c)];
      KeysConcat(acc, [(c, c)]);
      assert Keys(acc') == Keys(acc) + [c];
      InsertCitiesAppends(acc', cities[1..]);
      assert InsertCities(acc, cities) == InsertCities(acc', cities[1..]);
      AppendAssoc(acc, [(c, c)], Identity(cities[1..]));
    }
  }

  lemma {:induction false} InsertRegionsAppends(acc: Arr<string>, regions: Arr<seq<string>>)
    requires Distinct(Keys(acc) + AllCities(regions))
    ensures InsertRegions(acc, regions) == acc + Identity(AllCities(regions))
    decreases |regions|
  {
    if |regions| == 0 {
      assert acc + Identity(AllCities(regions)) == acc;
    } else {
      var first := regions[0].1;
      var rest := AllCities(regions[1..]);
      AppendAssoc(Keys(acc), first, rest);
      DistinctPrefix(Keys(acc) + first, rest);
      InsertCitiesAppends(acc, first);
      var acc' := acc + Identity(first);
      KeysConcat(acc, Identity(first));
      InsertRegionsAppends(acc', regions[1..]);
      assert InsertRegions(acc, regions) == InsertRegions(acc', regions[1..]);
      IdentityConcat(first, rest);
      AppendAssoc(acc, Identity(first), Identity(rest));
    }
  }

  lemma {:induction false} IdentityConcat(a: seq<string>, b: seq<string>)
    ensures Identity(a + b) == Identity(a) + Identity(b)
  {
    if |a| == 0 {
      assert a + b == b;
    } else {
      assert (a + b)[1..] == a[1..] + b;
      IdentityConcat(a[1..], b);
      AppendAssoc([(a[0], a[0])], Identity(a[1..]), Identity(b));
    }
  }

  /**
   * `format_cities_for_select`: the placeholder option `"" => "Select a city *"`, then the two
   * nested loops. Since the city names are unique and none is empty, no assignment overwrites
   * another: the result is the placeholder followed by every registry city in region order and
   * city order, each keyed by its own name, 55 distinct keys in all.
   */
  function FormatCitiesForSelect(): (options: Arr<string>)
    ensures options == [("", Placeholder)] + Identity(AllCities(GetCitiesList()))
    ensures Keys(options) == [""] + AllCities(GetCitiesList())
    ensures |options| == 55
    ensures UniqueKeys(options)
  {
    FormatRegions(GetCitiesList());
    InsertRegions([("", Placeholder)], GetCitiesList())
  }

  /** The nested loops over any registry whose city names are unique and non-empty. */
  lemma FormatRegions(regions: Arr<seq<string>>)
    requires Distinct([""] + AllCities(regions))
    ensures InsertRegions([("", Placeholder)], regions) == [("", Placeholder)] + Identity(AllCities(regions))
    ensures Keys(InsertRegions([("", Placeholder)], regions)) == [""] + AllCities(regions)
  {
    var start: Arr<string> := [("", Placeholder)];
    assert Keys(start) == [""];
    InsertRegionsAppends(start, regions);
    KeysConcat(start, Identity(AllCities(regions)));
  }
}
