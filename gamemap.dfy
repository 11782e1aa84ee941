/** The static board graph built by `GameMap.initialize_game_map`
    (risk/game_map.py:47-139): a sequence of undirected `add_edge` calls on a
    networkx graph.  The calls are kept as data, grouped by the source lines
    they come from, and the adjacency lists are kept as a table in the order
    networkx reports neighbours (the order in which each neighbour first
    appears in an `add_edge` call naming the country).  The lemmas below
    prove that the table and the calls agree on which countries border each
    other; the order within a row is transcribed, not derived from the calls. */
module GameMap {
  import opened Util
  import opened Countries

  /** The `add_edge` calls of risk/game_map.py:48-62, in order. */
  const Calls48: seq<(CountryId, CountryId)> := [
    (Alaska, NorthwestTerritory),
    (Alaska, Alberta),
    (NorthwestTerritory, Alberta),
    (NorthwestTerritory, Ontario),
    (NorthwestTerritory, Greenland),
    (Alberta, Ontario),
    (Alberta, WesternUS),
    (Ontario, Quebec),
    (Ontario, EasternUS),
    (Ontario, WesternUS),
    (Quebec, EasternUS),
    (Quebec, Greenland),
    (WesternUS, EasternUS),
    (WesternUS, CentralAmerica),
    (EasternUS, CentralAmerica)
  ]

  /** The `add_edge` calls of risk/game_map.py:63-69, in order. */
  const Calls63: seq<(CountryId, CountryId)> := [
    (Venezuela, CentralAmerica),
    (Venezuela, Brazil),
    (Venezuela, Peru),
    (Brazil, Peru),
    (Brazil, Argentina),
    (Brazil, NorthAfrica),
    (Peru, Argentina)
  ]

  /** The `add_edge` calls of risk/game_map.py:70-85, in order. */
  const Calls70: seq<(CountryId, CountryId)> := [
    (Iceland, Greenland),
    (Iceland, GreatBritain),
    (Iceland, Scandinavia),
    (GreatBritain, Scandinavia),
    (GreatBritain, NorthernEurope),
    (GreatBritain, WesternEurope),
    (Scandinavia, NorthernEurope),
    (NorthernEurope, Ukraine),
    (NorthernEurope, SouthernEurope),
    (NorthernEurope, WesternEurope),
    (Ukraine, Scandinavia),
    (Ukraine, SouthernEurope),
    (Ukraine, Ural),
    (Ukraine, Afghanistan),
    (Ukraine, MiddleEast),
    (WesternEurope, SouthernEurope)
  ]

  /** The `add_edge` calls of risk/game_map.py:86-99, in order. */
  const Calls86: seq<(CountryId, CountryId)> := [
    (SouthernEurope, Egypt),
    (SouthernEurope, MiddleEast),
    (NorthAfrica, Brazil),
    (NorthAfrica, WesternEurope),
    (NorthAfrica, Egypt),
    (NorthAfrica, EastAfrica),
    (NorthAfrica, Congo),
    (Egypt, EastAfrica),
    (Egypt, MiddleEast),
    (EastAfrica, Congo),
    (EastAfrica, SouthAfrica),
    (EastAfrica, Madagascar),
    (Congo, SouthAfrica),
    (SouthAfrica, Madagascar)
  ]

  /** The `add_edge` calls of risk/game_map.py:100-122, in order. */
  const Calls100: seq<(CountryId, CountryId)> := [
    (Ural, Siberia),
    (Ural, China),
    (Ural, Afghanistan),
    (Siberia, Yakutsk),
    (Siberia, Irkutsk),
    (Siberia, Mongolia),
    (Siberia, China),
    (Yakutsk, Irkutsk),
    (Irkutsk, Mongolia),
    (Irkutsk, Kamchatka),
    (Kamchatka, Yakutsk),
    (Kamchatka, Japan),
    (Kamchatka, Mongolia),
    (Mongolia, China),
    (Mongolia, Japan),
    (China, Mongolia),
    (China, India),
    (China, Siam),
    (India, Siam),
    (India, MiddleEast),
    (Afghanistan, China),
    (Afghanistan, India),
    (Afghanistan, MiddleEast)
  ]

  /** The `add_edge` calls of risk/game_map.py:123-128, in order. */
  const Calls123: seq<(CountryId, CountryId)> := [
    (Indonesia, Siam),
    (Indonesia, NewGuinea),
    (Indonesia, WesternAustralia),
    (NewGuinea, EasternAustralia),
    (NewGuinea, WesternAustralia),
    (EasternAustralia, WesternAustralia)
  ]

  /** The `add_edge` calls of risk/game_map.py:129-139, in order. */
  const Calls129: seq<(CountryId, CountryId)> := [
    (Alaska, Kamchatka),
    (Greenland, Iceland),
    (Brazil, NorthAfrica),
    (SouthernEurope, Egypt),
    (WesternEurope, NorthAfrica),
    (SouthernEurope, NorthAfrica),
    (EastAfrica, MiddleEast),
    (Ukraine, Ural),
    (Ukraine, Afghanistan),
    (Ukraine, MiddleEast),
    (Siam, Indonesia)
  ]

  /** Row `c` lists the neighbours of country `c` (by id), in the order in
      which networkx reports them. */
  const BorderTable: seq<seq<CountryId>> := [
    /*  0 Alaska */ [5, 1, 31],
    /*  1 Alberta */ [0, 5, 6, 8],
    /*  2 CentralAmerica */ [8, 3, 9],
    /*  3 EasternUS */ [6, 7, 8, 2],
    /*  4 Greenland */ [5, 7, 13],
    /*  5 NorthwestTerritory */ [0, 1, 6, 4],
    /*  6 Ontario */ [5, 1, 7, 3, 8],
    /*  7 Quebec */ [6, 3, 4],
    /*  8 WesternUS */ [1, 6, 3, 2],
    /*  9 Venezuela */ [2, 10, 11],
    /* 10 Brazil */ [9, 11, 12, 20],
    /* 11 Peru */ [9, 10, 12],
    /* 12 Argentina */ [10, 11],
    /* 13 Iceland */ [4, 14, 16],
    /* 14 GreatBritain */ [13, 16, 15, 19],
    /* 15 NorthernEurope */ [14, 16, 17, 18, 19],
    /* 16 Scandinavia */ [13, 14, 15, 17],
    /* 17 Ukraine */ [15, 16, 18, 36, 26, 32],
    /* 18 SouthernEurope */ [15, 17, 19, 21, 32, 20],
    /* 19 WesternEurope */ [14, 15, 18, 20],
    /* 20 NorthAfrica */ [10, 19, 21, 22, 23, 18],
    /* 21 Egypt */ [18, 20, 22, 32],
    /* 22 EastAfrica */ [20, 21, 23, 24, 25, 32],
    /* 23 Congo */ [20, 22, 24],
    /* 24 SouthAfrica */ [22, 23, 25],
    /* 25 Madagascar */ [22, 24],
    /* 26 Afghanistan */ [17, 36, 27, 28, 32],
    /* 27 China */ [36, 35, 33, 28, 34, 26],
    /* 28 India */ [27, 34, 32, 26],
    /* 29 Irkutsk */ [35, 37, 33, 31],
    /* 30 Japan */ [31, 33],
    /* 31 Kamchatka */ [29, 37, 30, 33, 0],
    /* 32 MiddleEast */ [17, 18, 21, 28, 26, 22],
    /* 33 Mongolia */ [35, 29, 31, 27, 30],
    /* 34 Siam */ [27, 28, 38],
    /* 35 Siberia */ [36, 37, 29, 33, 27],
    /* 36 Ural */ [17, 35, 27, 26],
    /* 37 Yakutsk */ [35, 29, 31],
    /* 38 Indonesia */ [34, 39, 40],
    /* 39 NewGuinea */ [38, 41, 40],
    /* 40 WesternAustralia */ [38, 39, 41],
    /* 41 EasternAustralia */ [39, 40]
  ]

  /** Every `add_edge` call of `initialize_game_map`, in program order. */
  const AddEdgeCalls: seq<(CountryId, CountryId)> :=
    Calls48 + Calls63 + Calls70 + Calls86 + Calls100 + Calls123 + Calls129

  /** `game_map.neighbors(c)`, in networkx's reporting order. */
  function Neighbors(c: CountryId): seq<CountryId>
  {
    BorderTable[c]
  }

  /** A map given by its neighbour lists.  The read-only queries of the
      engine are stated over any such map and applied to `Neighbors`. */
  type Graph = CountryId -> seq<CountryId>

  /** `game_map.has_edge(a, b)`. */
  predicate Adjacent(a: CountryId, b: CountryId)
  {
    b in Neighbors(a)
  }

  /** Some call names the pair `{a, b}`, in either order. */
  predicate Called(a: CountryId, b: CountryId)
  {
    (a, b) in AddEdgeCalls || (b, a) in AddEdgeCalls
  }

  /** The table records the call `e` in both directions. */
  predicate Reflected(e: (CountryId, CountryId))
  {
    e.1 in BorderTable[e.0] && e.0 in BorderTable[e.1]
  }

  lemma Calls48Reflected()
    ensures forall k | 0 <= k < |Calls48| :: Reflected(Calls48[k])
  {}

  lemma Calls63Reflected()
    ensures forall k | 0 <= k < |Calls63| :: Reflected(Calls63[k])
  {}

  lemma Calls70ReflectedLow()
    ensures forall k | 0 <= k < 8 :: Reflected(Calls70[k])
  {}

  lemma Calls70ReflectedHigh()
    ensures forall k | 8 <= k < |Calls70| :: Reflected(Calls70[k])
  {}

  lemma Calls70Reflected()
    ensures forall k | 0 <= k < |Calls70| :: Reflected(Calls70[k])
  {
    Calls70ReflectedLow();
    Calls70ReflectedHigh();
  }

  lemma Calls86Reflected()
    ensures forall k | 0 <= k < |Calls86| :: Reflected(Calls86[k])
  {}

  lemma Calls100Reflected()
    ensures forall k | 0 <= k < |Calls100| :: Reflected(Calls100[k])
  {}

  lemma Calls123Reflected()
    ensures forall k | 0 <= k < |Calls123| :: Reflected(Calls123[k])
  {}

  lemma Calls129Reflected()
    ensures forall k | 0 <= k < |Calls129| :: Reflected(Calls129[k])
  {}

  lemma CallsReflected()
    ensures forall e | e in AddEdgeCalls :: Reflected(e)
  {
    Calls48Reflected();
    Calls63Reflected();
    Calls70Reflected();
    Calls86Reflected();
    Calls100Reflected();
    Calls123Reflected();
    Calls129Reflected();
    forall e | e in AddEdgeCalls ensures Reflected(e) {
      if e in Calls48 { var k :| 0 <= k < |Calls48| && Calls48[k] == e; }
      else if e in Calls63 { var k :| 0 <= k < |Calls63| && Calls63[k] == e; }
      else if e in Calls70 { var k :| 0 <= k < |Calls70| && Calls70[k] == e; }
      else if e in Calls86 { var k :| 0 <= k < |Calls86| && Calls86[k] == e; }
      else if e in Calls100 { var k :| 0 <= k < |Calls100| && Calls100[k] == e; }
      else if e in Calls123 { var k :| 0 <= k < |Calls123| && Calls123[k] == e; }
      else { var k :| 0 <= k < |Calls129| && Calls129[k] == e; }
    }
  }

  lemma RowsWitnessed0()
    ensures forall c: CountryId, i | 0 <= c < 7 && 0 <= i < |BorderTable[c]| :: Called(c, BorderTable[c][i])
  {}

  lemma RowsWitnessed7()
    ensures forall c: CountryId, i | 7 <= c < 14 && 0 <= i < |BorderTable[c]| :: Called(c, BorderTable[c][i])
  {}

  lemma RowsWitnessed14()
    ensures forall c: CountryId, i | 14 <= c < 21 && 0 <= i < |BorderTable[c]| :: Called(c, BorderTable[c][i])
  {}

  lemma RowsWitnessed21()
    ensures forall c: CountryId, i | 21 <= c < 28 && 0 <= i < |BorderTable[c]| :: Called(c, BorderTable[c][i])
  {}

  lemma RowsWitnessed28()
    ensures forall c: CountryId, i | 28 <= c < 35 && 0 <= i < |BorderTable[c]| :: Called(c, BorderTable[c][i])
  {}

  lemma RowsWitnessed35()
    ensures forall c: CountryId, i | 35 <= c < 42 && 0 <= i < |BorderTable[c]| :: Called(c, BorderTable[c][i])
  {}

  /** The table holds exactly the undirected closure of the `add_edge` calls:
      `has_edge(a, b)` holds iff some call names `{a, b}`. */
  lemma AdjacentIffCalled()
    ensures forall a: CountryId, b: CountryId :: Adjacent(a, b) <==> Called(a, b)
  {
    RowsWitnessed0();
    RowsWitnessed7();
    RowsWitnessed14();
    RowsWitnessed21();
    RowsWitnessed28();
    RowsWitnessed35();
    CallsReflected();
    forall a: CountryId, b: CountryId ensures Adjacent(a, b) <==> Called(a, b) {
      if Adjacent(a, b) {
        var i :| 0 <= i < |BorderTable[a]| && BorderTable[a][i] == b;
      }
      if (a, b) in AddEdgeCalls {
        assert Reflected((a, b));
      } else if (b, a) in AddEdgeCalls {
        assert Reflected((b, a));
      }
    }
  }

  /** `add_edge` builds an undirected graph: adjacency is symmetric. */
  lemma Symmetric()
    ensures forall a: CountryId, b: CountryId :: Adjacent(a, b) <==> Adjacent(b, a)
  {
    AdjacentIffCalled();
  }

  lemma NoSelfLoopRows()
    ensures forall c | 0 <= c < 21 :: c !in BorderTable[c]
    ensures forall c | 21 <= c < NumCountries :: c !in BorderTable[c]
  {}

  /** No country borders itself, and so no call joins a country to itself. */
  lemma NoSelfLoops()
    ensures forall c: CountryId :: !Adjacent(c, c)
    ensures forall e | e in AddEdgeCalls :: e.0 != e.1
  {
    NoSelfLoopRows();
    CallsReflected();
    forall e | e in AddEdgeCalls ensures e.0 != e.1 {
      assert Reflected(e);
    }
  }

  lemma RowsNoDup0()
    ensures forall c | 0 <= c < 21 :: NoDup(BorderTable[c])
  {}

  lemma RowsNoDup21()
    ensures forall c | 21 <= c < NumCountries :: NoDup(BorderTable[c])
  {}

  /** A repeated `add_edge` call adds nothing: each neighbour is listed once. */
  lemma NeighborsNoDup()
    ensures forall c: CountryId :: NoDup(Neighbors(c))
  {
    RowsNoDup0();
    RowsNoDup21();
  }

  /** Four of the calls repeat an earlier border (source lines 68 and 88, 113
      and 115, 70 and 130, 82 and 136). */
  lemma RepeatedCalls()
    ensures |AddEdgeCalls| == 92
    ensures Calls63[5] == (Brazil, NorthAfrica) && Calls86[2] == (NorthAfrica, Brazil)
    ensures Calls100[13] == (Mongolia, China) && Calls100[15] == (China, Mongolia)
    ensures Calls70[0] == (Iceland, Greenland) && Calls129[1] == (Greenland, Iceland)
    ensures Calls70[12] == (Ukraine, Ural) && Calls129[7] == (Ukraine, Ural)
  {}

  /** Alaska's neighbours, in the order its `add_edge` calls first name them. */
  lemma AlaskaBorders()
    ensures Neighbors(Alaska) == [NorthwestTerritory, Alberta, Kamchatka]
  {
    assert BorderTable[0] == [5, 1, 31];
  }

  lemma NorthwestBorders()
    ensures Neighbors(NorthwestTerritory) == [Alaska, Alberta, Ontario, Greenland]
  {}

  lemma IndonesiaBorders()
    ensures Neighbors(Indonesia) == [Siam, NewGuinea, WesternAustralia]
  {}

  lemma DegreeBounds()
    ensures forall c: CountryId :: 2 <= |Neighbors(c)| <= 6
  {
    assert forall c | 0 <= c < NumCountries :: 2 <= |BorderTable[c]| <= 6;
  }

  function Degree(c: CountryId): int
  {
    |Neighbors(c)|
  }

  /** The sum of the degrees of the countries in `cs`. */
  function DegreeSum(cs: seq<CountryId>): int
  {
    SumOf(cs, Degree)
  }

  lemma DegreeSumStep(cs: seq<CountryId>, c: CountryId)
    ensures DegreeSum(cs + [c]) == DegreeSum(cs) + |BorderTable[c]|
  {
    assert (cs + [c])[..|cs + [c]| - 1] == cs;
  }

  /** The degrees of the countries from id `i` on. */
  function DegreesFrom(i: nat): int
    requires i <= NumCountries
    decreases NumCountries - i
  {
    if i == NumCountries then 0 else Degree(i as CountryId) + DegreesFrom(i + 1)
  }

  lemma {:induction false} DegreesFromIsSum(i: nat)
    requires i <= NumCountries
    ensures DegreeSum(IdsFrom(i)) == DegreesFrom(i)
    decreases NumCountries - i
  {
    if i < NumCountries {
      DegreesFromIsSum(i + 1);
      assert IdsFrom(i) == [i as CountryId] + IdsFrom(i + 1);
      SumOfAppend([i as CountryId], IdsFrom(i + 1), Degree);
      assert [i as CountryId][..0] == [];
    }
  }

  /** The degree of every country, id by id, seven ids to a row. */
  const DegreeRows: seq<seq<int>> := [
    [3, 4, 3, 4, 3, 4, 5],
    [3, 4, 3, 4, 3, 2, 3],
    [4, 5, 4, 6, 6, 4, 6],
    [4, 6, 3, 3, 2, 5, 6],
    [4, 4, 2, 5, 6, 5, 3],
    [5, 4, 3, 3, 3, 3, 2]
  ]

  const DegreeTable: seq<int> :=
    DegreeRows[0] + DegreeRows[1] + DegreeRows[2] + DegreeRows[3] + DegreeRows[4] + DegreeRows[5]

  lemma DegreeTableMatches()
    ensures forall c: CountryId :: Degree(c) == DegreeTable[c]
  {
    assert forall c | 0 <= c < NumCountries :: |BorderTable[c]| == DegreeTable[c];
  }

  lemma {:induction false} DegreesFromTable(i: nat, d: seq<int>)
    requires i <= NumCountries && |d| == NumCountries
    requires forall c: CountryId :: Degree(c) == d[c]
    ensures DegreesFrom(i) == Sum(d[i..])
    decreases NumCountries - i
  {
    if i < NumCountries {
      DegreesFromTable(i + 1, d);
      assert d[i..][1..] == d[i + 1..];
    }
  }

  lemma DegreeTableSum()
    ensures Sum(DegreeTable[0..]) == 164
  {
    assert DegreeTable[0..] == DegreeTable;
    assert Sum(DegreeRows[0]) == 26 && Sum(DegreeRows[1]) == 22 && Sum(DegreeRows[2]) == 35 && Sum(DegreeRows[3]) == 29 && Sum(DegreeRows[4]) == 29 && Sum(DegreeRows[5]) == 23;
    SumAppend(DegreeRows[0], DegreeRows[1]);
    SumAppend(DegreeRows[0] + DegreeRows[1], DegreeRows[2]);
    SumAppend(DegreeRows[0] + DegreeRows[1] + DegreeRows[2], DegreeRows[3]);
    SumAppend(DegreeRows[0] + DegreeRows[1] + DegreeRows[2] + DegreeRows[3], DegreeRows[4]);
    SumAppend(DegreeRows[0] + DegreeRows[1] + DegreeRows[2] + DegreeRows[3] + DegreeRows[4], DegreeRows[5]);
  }

  /** The 82 distinct borders give a degree sum of 164. */
  lemma TotalDegree()
    ensures DegreeSum(AllCountries) == 164
  {
    DegreesFromIsSum(0);
    DegreeTableMatches();
    DegreesFromTable(0, DegreeTable);
    DegreeTableSum();
  }
}
