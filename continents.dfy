/** The five `Continent` records of risk/continent.py and the `CONTINENTS`
    list that `reinforce` walks.  Australia has a continent label on its
    countries but no record, so it never pays a bonus. */
module Continents {
  import opened Util
  import opened Countries

  /** `Continent(name, countries, extra_points)`. */
  datatype Continent = Continent(name: string, countries: seq<CountryId>, extraPoints: int)

  const NorthAmericaContinent: Continent := Continent("North America",
    [Alaska, Alberta, CentralAmerica, EasternUS, Greenland, NorthwestTerritory, Ontario, Quebec, WesternUS], 5)
  const SouthAmericaContinent: Continent := Continent("South America",
    [Venezuela, Brazil, Peru, Argentina], 2)
  const EuropeContinent: Continent := Continent("Europe",
    [Iceland, GreatBritain, NorthernEurope, Scandinavia, Ukraine, SouthernEurope, WesternEurope], 5)
  const AfricaContinent: Continent := Continent("Africa",
    [NorthAfrica, Egypt, EastAfrica, Congo, SouthAfrica, Madagascar], 3)
  const AsiaContinent: Continent := Continent("Asia",
    [Afghanistan, China, India, Irkutsk, Japan, Kamchatka, MiddleEast, Mongolia, Siam, Siberia, Ural, Yakutsk], 7)

  /** `CONTINENTS`. */
  const AllContinents: seq<Continent> :=
    [NorthAmericaContinent, SouthAmericaContinent, EuropeContinent, AfricaContinent, AsiaContinent]

  /** `str(continent)`. */
  function Str(k: Continent): (r: string)
    ensures r == k.name
  {
    k.name
  }

  /** `str` tells the five continents apart. */
  lemma StrDistinct()
    ensures forall i, j | 0 <= i < |AllContinents| && 0 <= j < |AllContinents| ::
      Str(AllContinents[i]) == Str(AllContinents[j]) <==> i == j
  {}

  /** The table of continents: five records with these bonuses and sizes. */
  lemma ContinentTable()
    ensures |AllContinents| == 5
    ensures AllContinents[0].extraPoints == 5 && |AllContinents[0].countries| == 9
    ensures AllContinents[1].extraPoints == 2 && |AllContinents[1].countries| == 4
    ensures AllContinents[2].extraPoints == 5 && |AllContinents[2].countries| == 7
    ensures AllContinents[3].extraPoints == 3 && |AllContinents[3].countries| == 6
    ensures AllContinents[4].extraPoints == 7 && |AllContinents[4].countries| == 12
    ensures forall k | k in AllContinents :: k.extraPoints > 0
  {}

  /** The first country of each record's list; record `i` lists exactly the
      countries `RunStart(i) <= c < RunStart(i + 1)`. */
  function RunStart(i: nat): CountryId
    requires i <= 5
  {
    [Alaska, Venezuela, Iceland, NorthAfrica, Afghanistan, Indonesia][i]
  }

  lemma RunsWest()
    ensures |AllContinents| == 5
    ensures forall c: CountryId :: c in AllContinents[0].countries <==> c < 9
    ensures forall c: CountryId :: c in AllContinents[1].countries <==> 9 <= c < 13
    ensures forall c: CountryId :: c in AllContinents[2].countries <==> 13 <= c < 20
  {}

  lemma RunsEast()
    ensures |AllContinents| == 5
    ensures forall c: CountryId :: c in AllContinents[3].countries <==> 20 <= c < 26
    ensures forall c: CountryId :: c in AllContinents[4].countries <==> 26 <= c < 38
  {}

  lemma MembersAreRuns()
    ensures forall i, c: CountryId | 0 <= i < |AllContinents| ::
      c in AllContinents[i].countries <==> RunStart(i) <= c < RunStart(i + 1)
  {
    RunsWest();
    RunsEast();
  }

  /** `c` belongs to some record of `CONTINENTS`. */
  predicate InSomeContinent(c: CountryId)
  {
    exists i | 0 <= i < |AllContinents| :: c in AllContinents[i].countries
  }

  /** Each member's `continent` label is its continent's name. */
  lemma MembersCarryLabel()
    ensures forall i, c: CountryId | 0 <= i < |AllContinents| && c in AllContinents[i].countries ::
      ContinentLabel(c) == AllContinents[i].name
  {
    LabelRuns();
    MembersAreRuns();
  }

  /** The member lists are pairwise disjoint. */
  lemma MembersDisjoint()
    ensures forall i, j, c: CountryId | 0 <= i < j < |AllContinents| && c in AllContinents[i].countries ::
      c !in AllContinents[j].countries
  {
    MembersAreRuns();
  }

  /** Within a continent no country is listed twice. */
  lemma MembersNoDup()
    ensures forall k | k in AllContinents :: NoDup(k.countries)
  {}

  /** The lists cover exactly the 38 countries outside Australia: the four
      Australian countries are in no continent record. */
  lemma CoverageOmitsAustralia()
    ensures forall c: CountryId :: InSomeContinent(c) <==> c < Indonesia
    ensures forall c: CountryId :: InSomeContinent(c) <==> ContinentLabel(c) != "Australia"
  {
    MembersAreRuns();
    LabelRuns();
    forall c: CountryId ensures InSomeContinent(c) <==> c < Indonesia {
      if c < 9 { assert c in AllContinents[0].countries; }
      else if c < 13 { assert c in AllContinents[1].countries; }
      else if c < 20 { assert c in AllContinents[2].countries; }
      else if c < 26 { assert c in AllContinents[3].countries; }
      else if c < 38 { assert c in AllContinents[4].countries; }
    }
  }
}
