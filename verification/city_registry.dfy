/**
 * The fixed registry of allowed Northern Virginia cities, grouped by region. Region and city
 * order is the declaration order, which is also the order the dropdown shows them in. Cities
 * that share a name across regions carry a parenthesised suffix ("Fairfax (Independent City)",
 * "Fairfax (Fairfax County)"), so that every city name is unique in the whole registry.
 */
module CityRegistry {
  import opened PhpArrays
  import opened Sequences

  const IndependentCities: seq<string> := [
    "Alexandria (Independent City)",
    "Fairfax (Independent City)",
    "Falls Church (Independent City)",
    "Manassas (Independent City)",
    "Manassas Park"
  ]

  const ArlingtonCounty: seq<string> := [
    "Arlington"
  ]

  const FairfaxCounty: seq<string> := [
    "Alexandria (Fairfax County)",
    "Annandale",
    "Burke",
    "Centreville",
    "Chantilly",
    "Clifton",
    "Dunn Loring",
    "Fairfax (Fairfax County)",
    "Fairfax Station",
    "Falls Church (Fairfax County)",
    "Fort Belvoir",
    "Great Falls",
    "Herndon",
    "Lorton",
    "McLean",
    "Merrifield",
    "Mount Vernon",
    "Oakton",
    "Reston",
    "Springfield",
    "Tysons",
    "Vienna"
  ]

  const LoudounCounty: seq<string> := [
    "Aldie",
    "Ashburn",
    "Bluemont",
    "Brambleton",
    "Hamilton",
    "Leesburg",
    "Lovettsville",
    "Middleburg",
    "Purcellville",
    "Round Hill",
    "South Riding",
    "Sterling"
  ]

  const PrinceWilliamCounty: seq<string> := [
    "Bristow",
    "Catharpin",
    "Dale City",
    "Dumfries",
    "Gainesville",
    "Haymarket",
    "Lake Ridge",
    "Manassas (Prince William County)",
    "Montclair",
    "Nokesville",
    "Occoquan",
    "Quantico",
    "Triangle",
    "Woodbridge"
  ]

  /** The region-name to city-list array, in declaration order. */
  const CitiesByRegion: Arr<seq<string>> := [
    ("Independent Cities", IndependentCities),
    ("Arlington County", ArlingtonCounty),
    ("Fairfax County", FairfaxCounty),
    ("Loudoun County", LoudounCounty),
    ("Prince William County", PrinceWilliamCounty)
  ]

  /** Every city of every region, in region order and then city order. */
  function AllCities(regions: Arr<seq<string>>): (cities: seq<string>)
  {
    if |regions| == 0 then [] else regions[0].1 + AllCities(regions[1..])
  }

  /**
   * The registry: five uniquely named regions whose 54 cities are pairwise distinct and
   * never the empty string, which the dropdown reserves for its placeholder.
   *
   * The result is built as an element-wise copy of `CitiesByRegion`. It is the same array,
   * but callers then reason about it through this contract instead of evaluating the
   * literal table.
   */
  function GetCitiesList(): (regions: Arr<seq<string>>)
    ensures Keys(regions) == ["Independent Cities", "Arlington County", "Fairfax County",
                              "Loudoun County", "Prince William County"]
    ensures UniqueKeys(regions)
    ensures AllCities(regions)
         == IndependentCities + ArlingtonCounty + FairfaxCounty + LoudounCounty + PrinceWilliamCounty
    ensures |AllCities(regions)| == 54
    ensures Distinct([""] + AllCities(regions))
  {
    RegionNames();
    RegistryFlattens();
    CityNamesUnique();
    var regions := seq(|CitiesByRegion|, i requires 0 <= i < |CitiesByRegion| => CitiesByRegion[i]);
    assert regions == CitiesByRegion;
    regions
  }

  lemma RegionNames()
    ensures Keys(CitiesByRegion) == ["Independent Cities", "Arlington County", "Fairfax County",
                                     "Loudoun County", "Prince William County"]
  {
    var r := CitiesByRegion;
    assert Keys(r[4..]) == ["Prince William County"];
    assert Keys(r[3..]) == ["Loudoun County", "Prince William County"];
    assert Keys(r[2..]) == ["Fairfax County", "Loudoun County", "Prince William County"];
    assert Keys(r[1..]) == ["Arlington County", "Fairfax County", "Loudoun County", "Prince William County"];
  }

  lemma RegistryFlattens()
    ensures AllCities(CitiesByRegion)
         == IndependentCities + ArlingtonCounty + FairfaxCounty + LoudounCounty + PrinceWilliamCounty
  {
    var r := CitiesByRegion;
    assert AllCities(r[4..]) == PrinceWilliamCounty;
    assert AllCities(r[3..]) == LoudounCounty + PrinceWilliamCounty;
    assert AllCities(r[2..]) == FairfaxCounty + (LoudounCounty + PrinceWilliamCounty);
    assert AllCities(r[1..]) == ArlingtonCounty + (FairfaxCounty + (LoudounCounty + PrinceWilliamCounty));
  }

  lemma RegionsDistinct()
    ensures Distinct([""]) && Distinct(IndependentCities) && Distinct(ArlingtonCounty)
    ensures Distinct(FairfaxCounty) && Distinct(LoudounCounty) && Distinct(PrinceWilliamCounty)
  {
    FairfaxDistinct();
  }

  lemma FairfaxHalvesDistinct()
    ensures Distinct(FairfaxCounty[..11]) && Distinct(FairfaxCounty[11..])
  {
  }

  lemma FairfaxHalvesDisjoint()
    ensures Disjoint(FairfaxCounty[..11], FairfaxCounty[11..])
  {
  }

  lemma FairfaxDistinct()
    ensures Distinct(FairfaxCounty)
  {
    FairfaxHalvesDistinct();
    FairfaxHalvesDisjoint();
    DistinctConcat(FairfaxCounty[..11], FairfaxCounty[11..]);
    assert FairfaxCounty[..11] + FairfaxCounty[11..] == FairfaxCounty;
  }

  lemma PlaceholderIsNoCity()
    ensures Disjoint([""], IndependentCities) && Disjoint([""], ArlingtonCounty)
    ensures Disjoint([""], FairfaxCounty) && Disjoint([""], LoudounCounty)
    ensures Disjoint([""], PrinceWilliamCounty)
  {
  }

  lemma RegionsDisjointA()
    ensures Disjoint(IndependentCities, ArlingtonCounty) && Disjoint(IndependentCities, FairfaxCounty)
    ensures Disjoint(IndependentCities, LoudounCounty) && Disjoint(IndependentCities, PrinceWilliamCounty)
    ensures Disjoint(ArlingtonCounty, FairfaxCounty) && Disjoint(ArlingtonCounty, LoudounCounty)
    ensures Disjoint(ArlingtonCounty, PrinceWilliamCounty)
  {
  }

  lemma RegionsDisjointB()
    ensures Disjoint(FairfaxCounty, LoudounCounty)
  {
  }

  lemma RegionsDisjointC()
    ensures Disjoint(FairfaxCounty, PrinceWilliamCounty)
  {
  }

  lemma RegionsDisjointD()
    ensures Disjoint(LoudounCounty, PrinceWilliamCounty)
  {
  }

  /** No two registry entries, across all regions, share a name, and none is the placeholder key. */
  lemma CityNamesUnique()
    ensures Distinct([""] + AllCities(CitiesByRegion))
  {
    RegistryFlattens();
    RegionsDistinct();
    PlaceholderIsNoCity();
    RegionsDisjointA();
    RegionsDisjointB();
    RegionsDisjointC();
    RegionsDisjointD();
    var s0: seq<string> := [""];
    DistinctConcat(s0, IndependentCities);
    var s1 := s0 + IndependentCities;
    DisjointConcat(s0, IndependentCities, ArlingtonCounty);
    DistinctConcat(s1, ArlingtonCounty);
    var s2 := s1 + ArlingtonCounty;
    DisjointConcat(s0, IndependentCities, FairfaxCounty);
    DisjointConcat(s1, ArlingtonCounty, FairfaxCounty);
    DistinctConcat(s2, FairfaxCounty);
    var s3 := s2 + FairfaxCounty;
    DisjointConcat(s0, IndependentCities, LoudounCounty);
    DisjointConcat(s1, ArlingtonCounty, LoudounCounty);
    DisjointConcat(s2, FairfaxCounty, LoudounCounty);
    DistinctConcat(s3, LoudounCounty);
    var s4 := s3 + LoudounCounty;
    DisjointConcat(s0, IndependentCities, PrinceWilliamCounty);
    DisjointConcat(s1, ArlingtonCounty, PrinceWilliamCounty);
    DisjointConcat(s2, FairfaxCounty, PrinceWilliamCounty);
    DisjointConcat(s3, LoudounCounty, PrinceWilliamCounty);
    DistinctConcat(s4, PrinceWilliamCounty);
    assert s4 + PrinceWilliamCounty == [""] + AllCities(CitiesByRegion);
  }
}
