/** The 42 territories of risk/country.py: the module-level `Country`
    constants and the `COUNTRIES` list, as static data.  A country is its index
    in the source's `COUNTRIES` list as written (before any shuffle). */
module Countries {
  import opened Util

  const NumCountries: nat := 42

  type CountryId = c: int | 0 <= c < NumCountries

  const Alaska: CountryId := 0
  const Alberta: CountryId := 1
  const CentralAmerica: CountryId := 2
  const EasternUS: CountryId := 3
  const Greenland: CountryId := 4
  const NorthwestTerritory: CountryId := 5
  const Ontario: CountryId := 6
  const Quebec: CountryId := 7
  const WesternUS: CountryId := 8
  const Venezuela: CountryId := 9
  const Brazil: CountryId := 10
  const Peru: CountryId := 11
  const Argentina: CountryId := 12
  const Iceland: CountryId := 13
  const GreatBritain: CountryId := 14
  const NorthernEurope: CountryId := 15
  const Scandinavia: CountryId := 16
  const Ukraine: CountryId := 17
  const SouthernEurope: CountryId := 18
  const WesternEurope: CountryId := 19
  const NorthAfrica: CountryId := 20
  const Egypt: CountryId := 21
  const EastAfrica: CountryId := 22
  const Congo: CountryId := 23
  const SouthAfrica: CountryId := 24
  const Madagascar: CountryId := 25
  const Afghanistan: CountryId := 26
  const China: CountryId := 27
  const India: CountryId := 28
  const Irkutsk: CountryId := 29
  const Japan: CountryId := 30
  const Kamchatka: CountryId := 31
  const MiddleEast: CountryId := 32
  const Mongolia: CountryId := 33
  const Siam: CountryId := 34
  const Siberia: CountryId := 35
  const Ural: CountryId := 36
  const Yakutsk: CountryId := 37
  const Indonesia: CountryId := 38
  const NewGuinea: CountryId := 39
  const WesternAustralia: CountryId := 40
  const EasternAustralia: CountryId := 41

  /** The `name` given to each `Country(...)` constructor call. */
  const Names: seq<string> := [
    "Alaska", "Alberta", "Central America", "Eastern US", "Greenland", "Northwest Territory",
    "Ontario", "Quebec", "Western US", "Venezuela", "Brazil", "Peru",
    "Argentina", "Iceland", "Great Britain", "Northern Europe", "Scandinavia", "Ukraine",
    "Southern Europe", "Western Europe", "North Africa", "Egypt", "East Africa", "Congo",
    "South Africa", "Madagascar", "Afghanistan", "China", "India", "Irkutsk",
    "Japan", "Kamchatka", "Middle East", "Mongolia", "Siam", "Siberia",
    "Ural", "Yakutsk", "Indonesia", "New Guinea", "Western Australia", "Eastern Australia"
  ]

  /** The `continent` label given to each `Country(...)` constructor call. */
  const ContinentLabels: seq<string> := [
    "North America", "North America", "North America", "North America", "North America", "North America",
    "North America", "North America", "North America", "South America", "South America", "South America",
    "South America", "Europe", "Europe", "Europe", "Europe", "Europe",
    "Europe", "Europe", "Africa", "Africa", "Africa", "Africa",
    "Africa", "Africa", "Asia", "Asia", "Asia", "Asia",
    "Asia", "Asia", "Asia", "Asia", "Asia", "Asia",
    "Asia", "Asia", "Australia", "Australia", "Australia", "Australia"
  ]

  /** `COUNTRIES`: the constants in the order they are declared, which is
      the order of their ids: ids are numbered along the source's list. */
  const AllCountries: seq<CountryId> := IdsFrom(0)

  /** The ids from `i` up to the last one, in increasing order. */
  function IdsFrom(i: nat): (r: seq<CountryId>)
    requires i <= NumCountries
    ensures |r| == NumCountries - i
    ensures forall k | 0 <= k < |r| :: r[k] == i + k
    decreases NumCountries - i
  {
    if i == NumCountries then [] else [i as CountryId] + IdsFrom(i + 1)
  }

  function Name(c: CountryId): string
  {
    Names[c]
  }

  function ContinentLabel(c: CountryId): string
  {
    ContinentLabels[c]
  }

  /** `COUNTRIES` lists every country exactly once, in the order of the
      constants. */
  lemma AllCountriesEnumerates()
    ensures |AllCountries| == NumCountries
    ensures forall i | 0 <= i < NumCountries :: AllCountries[i] == i
    ensures NoDup(AllCountries)
    ensures forall c: CountryId :: c in AllCountries
  {
    forall c: CountryId ensures c in AllCountries {
      assert AllCountries[c] == c;
    }
  }


  lemma NamesDistinctFrom0()
    ensures forall i, j | 0 <= i < 2 && i < j < NumCountries :: Names[i] != Names[j]
  {}

  lemma NamesDistinctFrom2()
    ensures forall i, j | 2 <= i < 3 && i < j < NumCountries :: Names[i] != Names[j]
  {}

  lemma NamesDistinctFrom3()
    ensures forall i, j | 3 <= i < 7 && i < j < NumCountries :: Names[i] != Names[j]
  {}

  lemma NamesDistinctFrom7()
    ensures forall i, j | 7 <= i < 11 && i < j < NumCountries :: Names[i] != Names[j]
  {}

  lemma NamesDistinctFrom11()
    ensures forall i, j | 11 <= i < 16 && i < j < NumCountries :: Names[i] != Names[j]
  {}

  lemma NamesDistinctFrom16()
    ensures forall i, j | 16 <= i < 22 && i < j < NumCountries :: Names[i] != Names[j]
  {}

  lemma NamesDistinctFrom22()
    ensures forall i, j | 22 <= i < 30 && i < j < NumCountries :: Names[i] != Names[j]
  {}

  lemma NamesDistinctFrom30()
    ensures forall i, j | 30 <= i < 42 && i < j < NumCountries :: Names[i] != Names[j]
  {}

  /** No two countries share a name. */
  lemma NamesDistinct()
    ensures |Names| == NumCountries
    ensures forall i, j | 0 <= i < NumCountries && 0 <= j < NumCountries && i != j :: Name(i) != Name(j)
  {
    NamesDistinctFrom0();
    NamesDistinctFrom2();
    NamesDistinctFrom3();
    NamesDistinctFrom7();
    NamesDistinctFrom11();
    NamesDistinctFrom16();
    NamesDistinctFrom22();
    NamesDistinctFrom30();
    forall i, j | 0 <= i < NumCountries && 0 <= j < NumCountries && i != j
      ensures Name(i) != Name(j)
    {
      if i < j { assert Names[i] != Names[j]; } else { assert Names[j] != Names[i]; }
    }
  }

  /** Each continent label is carried by one contiguous run of the constants,
      which splits the countries 9 / 4 / 7 / 6 / 12 / 4. */
  lemma LabelRunsWest()
    ensures |ContinentLabels| == NumCountries
    ensures OccupiesRun(ContinentLabels, "North America", 0, 9)
    ensures OccupiesRun(ContinentLabels, "South America", 9, 13)
    ensures OccupiesRun(ContinentLabels, "Europe", 13, 20)
  {}

  lemma LabelRunsEast()
    ensures |ContinentLabels| == NumCountries
    ensures OccupiesRun(ContinentLabels, "Africa", 20, 26)
    ensures OccupiesRun(ContinentLabels, "Asia", 26, 38)
    ensures OccupiesRun(ContinentLabels, "Australia", 38, 42)
  {}

  lemma LabelRuns()
    ensures |ContinentLabels| == NumCountries
    ensures OccupiesRun(ContinentLabels, "North America", 0, 9)
    ensures OccupiesRun(ContinentLabels, "South America", 9, 13)
    ensures OccupiesRun(ContinentLabels, "Europe", 13, 20)
    ensures OccupiesRun(ContinentLabels, "Africa", 20, 26)
    ensures OccupiesRun(ContinentLabels, "Asia", 26, 38)
    ensures OccupiesRun(ContinentLabels, "Australia", 38, 42)
  {
    LabelRunsWest();
    LabelRunsEast();
  }

  /** `x` occurs at exactly the positions `a..b` of `s`. */
  predicate OccupiesRun<T(==)>(s: seq<T>, x: T, a: nat, b: nat)
  {
    forall i | 0 <= i < |s| :: (s[i] == x) <==> a <= i < b
  }
}
