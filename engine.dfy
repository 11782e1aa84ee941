/** The `Game` class of risk/game.py: the players, the board (who owns each
    country and how many soldiers stand on it), the card deck and used pile,
    the turn and phase, and the attack action tables, with the operations
    that change them.  Randomness is passed in: the shuffled order of
    `COUNTRIES`, the `randint` picks of the initial distribution, the dice,
    and the arrangements the shuffles produce. */
module Engine {
  import opened Util
  import opened Countries
  import opened GameMap
  import opened Continents
  import opened Cards
  import opened Players
  import opened Combat
  import opened ActionSpace
  import opened Fortification
  import opened AttackOptions

  /** `GamePlayState`. */
  datatype Phase = CardsPhase | DraftPhase | AttackPhase | FortifyPhase

  /** `GamePlayState.value`. */
  function PhaseValue(ph: Phase): (v: int)
    ensures 0 <= v < 4
  {
    match ph
    case CardsPhase => 0
    case DraftPhase => 1
    case AttackPhase => 2
    case FortifyPhase => 3
  }

  /** `GamePlayState(v)` for a value in range. */
  function PhaseOf(v: int): (ph: Phase)
    requires 0 <= v < 4
    ensures PhaseValue(ph) == v
  {
    if v == 0 then CardsPhase else if v == 1 then DraftPhase else if v == 2 then AttackPhase else FortifyPhase
  }

  /** The phase `next_phase` moves to. */
  function NextPhaseOf(ph: Phase): Phase
  {
    PhaseOf((PhaseValue(ph) + 1) % 4)
  }

  /** The phases cycle cards, draft, attack, fortify and back, and exactly one
      step of every four leaves the fortify phase. */
  lemma PhaseCycle(ph: Phase)
    ensures NextPhaseOf(CardsPhase) == DraftPhase && NextPhaseOf(DraftPhase) == AttackPhase
    ensures NextPhaseOf(AttackPhase) == FortifyPhase && NextPhaseOf(FortifyPhase) == CardsPhase
    ensures NextPhaseOf(NextPhaseOf(NextPhaseOf(NextPhaseOf(ph)))) == ph
    ensures PhaseValue(NextPhaseOf(ph)) == (PhaseValue(ph) + 1) % 4
  {
    assert PhaseValue(CardsPhase) == 0 && PhaseOf(1) == DraftPhase;
    assert PhaseValue(DraftPhase) == 1 && PhaseOf(2) == AttackPhase;
    assert PhaseValue(AttackPhase) == 2 && PhaseOf(3) == FortifyPhase;
    assert PhaseValue(FortifyPhase) == 3 && PhaseOf(0) == CardsPhase;
    match ph
    case CardsPhase =>
    case DraftPhase =>
    case AttackPhase =>
    case FortifyPhase =>
  }

  /** What a call ends with: normally, or with the exception the source
      raises (a failed `assert`, or `pop` from an empty list). */
  datatype Status = Ok | AssertionError | IndexError

  /** `initial_armies_per_player_dict[num_players]`; `None` is the
      `KeyError`. */
  function InitialArmies(numPlayers: int): (r: Option<int>)
    ensures r.Some? <==> 2 <= numPlayers <= 6
    ensures r.Some? ==> r.value == 50 - 5 * numPlayers
  {
    if numPlayers == 2 then Some(40)
    else if numPlayers == 3 then Some(35)
    else if numPlayers == 4 then Some(30)
    else if numPlayers == 5 then Some(25)
    else if numPlayers == 6 then Some(20)
    else None
  }

  // ----- reinforcement -----

  /** The player holds every country of the continent. */
  predicate HoldsContinent(owned: seq<CountryId>, k: Continent)
  {
    forall c | c in k.countries :: c in owned
  }

  /** The bonuses of the continents of `ks` that the player holds. */
  function ContinentBonus(owned: seq<CountryId>, ks: seq<Continent>): int
  {
    if ks == [] then 0
    else ContinentBonus(owned, ks[..|ks| - 1]) + (if HoldsContinent(owned, ks[|ks| - 1]) then ks[|ks| - 1].extraPoints else 0)
  }

  /** `max(len(player.countries) // 3, 3)`. */
  function BaseReinforcements(n: nat): (r: int)
    ensures r >= 3 && r >= n / 3 && (r == 3 || r == n / 3)
  {
    if n / 3 > 3 then n / 3 else 3
  }

  /** The soldiers `reinforce` grants a player who owns `owned`. */
  function Reinforcements(owned: seq<CountryId>): int
  {
    BaseReinforcements(|owned|) + ContinentBonus(owned, AllContinents)
  }

  lemma {:induction false} BonusBounds(owned: seq<CountryId>, ks: seq<Continent>)
    requires forall k | k in ks :: k.extraPoints > 0
    ensures 0 <= ContinentBonus(owned, ks)
    ensures ContinentBonus(owned, ks) == 0 <==> forall k | k in ks :: !HoldsContinent(owned, k)
  {
    if ks != [] {
      assert forall k | k in ks[..|ks| - 1] :: k in ks;
      BonusBounds(owned, ks[..|ks| - 1]);
      assert forall k | k in ks :: k in ks[..|ks| - 1] || k == ks[|ks| - 1];
    }
  }

  /** Without a whole continent, 9 countries give 3 soldiers and 30 give
      10; the grant is never below 3. */
  lemma ReinforcementExamples(owned: seq<CountryId>)
    requires forall k | k in AllContinents :: !HoldsContinent(owned, k)
    ensures |owned| == 9 ==> Reinforcements(owned) == 3
    ensures |owned| == 30 ==> Reinforcements(owned) == 10
    ensures Reinforcements(owned) >= 3
  {
    ContinentTable();
    BonusBounds(owned, AllContinents);
  }

  /** Holding the whole map pays the five bonuses 5 + 2 + 5 + 3 + 7 = 22 on
      top of the 14 for 42 countries: Australia has no record and pays
      nothing. */
  lemma WholeMapReinforcements()
    ensures Reinforcements(AllCountries) == 14 + 22
  {
    AllCountriesEnumerates();
    ContinentTable();
    var ks := AllContinents;
    assert forall i | 0 <= i < 5 :: HoldsContinent(AllCountries, ks[i]);
    assert ks[..5] == ks && ks[..5][..4] == ks[..4] && ks[..4][..3] == ks[..3];
    assert ks[..3][..2] == ks[..2] && ks[..2][..1] == ks[..1] && ks[..1][..0] == [];
    assert ContinentBonus(AllCountries, ks[..1]) == 5;
    assert ContinentBonus(AllCountries, ks[..2]) == 7;
    assert ContinentBonus(AllCountries, ks[..3]) == 12;
    assert ContinentBonus(AllCountries, ks[..4]) == 15;
    assert ContinentBonus(AllCountries, ks[..5]) == 22;
  }

  /** Whether the player holds Australian countries never changes the bonus. */
  lemma {:induction false} AustraliaPaysNothing(a: seq<CountryId>, b: seq<CountryId>, ks: seq<Continent>)
    requires forall c: CountryId | c < Indonesia :: (c in a <==> c in b)
    requires forall i | 0 <= i < |ks| :: ks[i] in AllContinents
    ensures ContinentBonus(a, ks) == ContinentBonus(b, ks)
  {
    if ks != [] {
      AustraliaPaysNothing(a, b, ks[..|ks| - 1]);
      CoverageOmitsAustralia();
      var k := ks[|ks| - 1];
      assert forall c | c in k.countries :: c < Indonesia by {
        var i :| 0 <= i < |AllContinents| && AllContinents[i] == k;
        forall c | c in k.countries ensures c < Indonesia {
          assert InSomeContinent(c);
        }
      }
    }
  }

  // ----- setup -----

  /** The seat of position `k` in a round-robin over `n` players. */
  function Seat(k: int, n: int): (r: int)
    requires n > 0
    ensures 0 <= r < n
  {
    k % n
  }

  /** The countries the round-robin deal of `s` gives to player `j` of `n`:
      those at the positions `i` with `Seat(i, n) == j`, in deal order. */
  function Dealt(s: seq<CountryId>, j: int, n: int): seq<CountryId>
    requires n > 0
  {
    if s == [] then []
    else Dealt(s[..|s| - 1], j, n) + (if Seat(|s| - 1, n) == j then [s[|s| - 1]] else [])
  }

  /** One more position of the deal extends the list of its seat only. */
  lemma DealtStep(s: seq<CountryId>, i: int, n: int)
    requires 0 <= i < |s| && n > 0
    ensures forall j :: Dealt(s[..i + 1], j, n) == Dealt(s[..i], j, n) + (if Seat(i, n) == j then [s[i]] else [])
  {
    assert s[..i + 1][..i] == s[..i];
  }

  /** The lists of all `n` players after the deal. */
  function DealtLists(s: seq<CountryId>, n: nat): (ls: seq<seq<CountryId>>)
    ensures |ls| == n && forall j | 0 <= j < n :: ls[j] == Dealt(s, j, n)
  {
    seq(n, j requires 0 <= j < n => Dealt(s, j, n))
  }

  /** A player is dealt exactly the countries at its positions, once each. */
  lemma {:induction false} DealtSpec(s: seq<CountryId>, j: int, n: int)
    requires n > 0 && NoDup(s)
    ensures NoDup(Dealt(s, j, n))
    ensures forall k | 0 <= k < |s| :: s[k] in Dealt(s, j, n) <==> Seat(k, n) == j
    ensures forall x | x in Dealt(s, j, n) :: x in s
  {
    if s != [] {
      var t := s[..|s| - 1];
      var x := s[|s| - 1];
      assert NoDup(t);
      DealtSpec(t, j, n);
      assert x !in t;
      forall k | 0 <= k < |s| ensures s[k] in Dealt(s, j, n) <==> Seat(k, n) == j {
        if k < |s| - 1 {
          assert s[k] == t[k] && s[k] != x;
        }
      }
    }
  }

  /** The `randint(0, num_territories - 1)` picks of one player: one per
      soldier beyond the one already on each country, none when there are
      none to place. */
  predicate PicksFor(picks: seq<int>, count: int, initial: int)
  {
    && |picks| == (if initial - count > 0 then initial - count else 0)
    && forall i | 0 <= i < |picks| :: 0 <= picks[i] < count
  }

  function Max(a: int, b: int): int
  {
    if a > b then a else b
  }

  /** The soldiers standing on the countries `cs`. */
  function ArmyOf(cs: seq<CountryId>, soldiers: seq<int>): int
    requires |soldiers| == NumCountries
  {
    if cs == [] then 0 else ArmyOf(cs[..|cs| - 1], soldiers) + soldiers[cs[|cs| - 1]]
  }

  /** Changing one count changes the total of a list that holds it once. */
  lemma {:induction false} ArmyOfUpdate(cs: seq<CountryId>, s: seq<int>, c: CountryId, v: int)
    requires |s| == NumCountries && NoDup(cs)
    ensures ArmyOf(cs, s[c := v]) == ArmyOf(cs, s) + (if c in cs then v - s[c] else 0)
  {
    if cs != [] {
      var t := cs[..|cs| - 1];
      assert NoDup(t);
      ArmyOfUpdate(t, s, c, v);
      assert c in cs <==> c in t || c == cs[|cs| - 1];
      assert c == cs[|cs| - 1] ==> c !in t;
    }
  }

  /** The total depends only on the counts of the listed countries. */
  lemma {:induction false} ArmyOfAgree(cs: seq<CountryId>, s: seq<int>, t: seq<int>)
    requires |s| == NumCountries && |t| == NumCountries
    requires forall c | c in cs :: s[c] == t[c]
    ensures ArmyOf(cs, s) == ArmyOf(cs, t)
  {
    if cs != [] {
      assert forall c | c in cs[..|cs| - 1] :: c in cs;
      ArmyOfAgree(cs[..|cs| - 1], s, t);
    }
  }

  /** One soldier on each country totals the number of countries. */
  lemma {:induction false} ArmyOfOnes(cs: seq<CountryId>, s: seq<int>)
    requires |s| == NumCountries
    requires forall c | c in cs :: s[c] == 1
    ensures ArmyOf(cs, s) == |cs|
  {
    if cs != [] {
      assert forall c | c in cs[..|cs| - 1] :: c in cs;
      ArmyOfOnes(cs[..|cs| - 1], s);
    }
  }

  lemma {:induction false} SumZeros(n: nat)
    ensures Sum(seq(n, _ => 0)) == 0
  {
    if n > 0 {
      assert seq(n, _ => 0)[1..] == seq(n - 1, _ => 0);
      SumZeros(n - 1);
    }
  }

  /** The first loop of the spread: slot `m` of `armies_distribution`
      counts the picks of `m`, and the slots add up to the number of picks. */
  method Distribution(picks: seq<int>, size: nat) returns (distribution: seq<int>)
    requires forall i | 0 <= i < |picks| :: 0 <= picks[i] < size
    ensures |distribution| == size
    ensures forall m | 0 <= m < size :: distribution[m] == Count(picks, m)
    ensures Sum(distribution) == |picks|
  {
    distribution := seq(size, _ => 0);
    SumZeros(size);
    var i := 0;
    while i < |picks|
      invariant 0 <= i <= |picks|
      invariant |distribution| == size
      invariant forall m | 0 <= m < size :: distribution[m] == Count(picks[..i], m)
      invariant Sum(distribution) == i
    {
      var idx := picks[i];
      assert picks[..i + 1] == picks[..i] + [idx];
      forall m | 0 <= m < size
        ensures Count(picks[..i + 1], m) == Count(picks[..i], m) + (if m == idx then 1 else 0)
      {
        CountAppend(picks[..i], [idx], m);
      }
      SumUpdate(distribution, idx, distribution[idx] + 1);
      distribution := distribution[idx := distribution[idx] + 1];
      i := i + 1;
    }
    assert picks[..|picks|] == picks;
  }

  /** `s` after the first `k` slots of `d` went to the first `k` countries
      of `cs`. */
  function Applied(cs: seq<CountryId>, d: seq<int>, s: seq<int>, k: nat): (r: seq<int>)
    requires |s| == NumCountries && k <= |cs| && k <= |d|
    ensures |r| == NumCountries
  {
    if k == 0 then s
    else Applied(cs, d, s, k - 1)[cs[k - 1] := Applied(cs, d, s, k - 1)[cs[k - 1]] + d[k - 1]]
  }

  /** The slots land on their countries and nothing else changes. */
  lemma {:induction false} AppliedSpec(cs: seq<CountryId>, d: seq<int>, s: seq<int>, k: nat)
    requires |s| == NumCountries && NoDup(cs) && k <= |cs| && k <= |d|
    ensures forall c: CountryId | c !in cs[..k] :: Applied(cs, d, s, k)[c] == s[c]
    ensures forall m | 0 <= m < k :: Applied(cs, d, s, k)[cs[m]] == s[cs[m]] + d[m]
  {
    if k > 0 {
      AppliedSpec(cs, d, s, k - 1);
      var c := cs[k - 1];
      assert forall m | 0 <= m < k - 1 :: cs[m] != c;
      assert cs[..k] == cs[..k - 1] + [c];
    }
  }

  /** The total of the list grows by the slots applied. */
  lemma {:induction false} AppliedArmy(cs: seq<CountryId>, d: seq<int>, s: seq<int>, k: nat)
    requires |s| == NumCountries && NoDup(cs) && k <= |cs| && k <= |d|
    ensures ArmyOf(cs, Applied(cs, d, s, k)) == ArmyOf(cs, s) + Sum(d[..k])
  {
    if k > 0 {
      AppliedArmy(cs, d, s, k - 1);
      var t := Applied(cs, d, s, k - 1);
      var c := cs[k - 1];
      ArmyOfUpdate(cs, t, c, t[c] + d[k - 1]);
      SumAppend(d[..k - 1], [d[k - 1]]);
      assert d[..k] == d[..k - 1] + [d[k - 1]];
    }
  }

  /** The second loop of the spread: slot `k` of `d` goes to the `k`-th
      country of `cs`. */
  method ApplySlots(cs: seq<CountryId>, d: seq<int>, soldiers: seq<int>) returns (s: seq<int>)
    requires |soldiers| == NumCountries && |d| == |cs|
    ensures s == Applied(cs, d, soldiers, |cs|)
  {
    s := soldiers;
    var k := 0;
    while k < |cs|
      invariant 0 <= k <= |cs|
      invariant s == Applied(cs, d, soldiers, k)
    {
      s := s[cs[k] := s[cs[k]] + d[k]];
      k := k + 1;
    }
  }

  /** The spread of one player's remaining soldiers in
      `assign_countries_and_initialize_armies`: each pick adds one to a slot
      of `armies_distribution`, and slot `k` then goes to the player's `k`-th
      country. */
  method SpreadArmies(cs: seq<CountryId>, soldiers: seq<int>, picks: seq<int>) returns (s: seq<int>)
    requires |soldiers| == NumCountries && NoDup(cs)
    requires forall i | 0 <= i < |picks| :: 0 <= picks[i] < |cs|
    ensures |s| == NumCountries
    ensures forall c: CountryId | c !in cs :: s[c] == soldiers[c]
    ensures forall k | 0 <= k < |cs| :: s[cs[k]] == soldiers[cs[k]] + Count(picks, k)
    ensures ArmyOf(cs, s) == ArmyOf(cs, soldiers) + |picks|
  {
    var distribution := Distribution(picks, |cs|);
    s := ApplySlots(cs, distribution, soldiers);
    AppliedSpec(cs, distribution, soldiers, |cs|);
    AppliedArmy(cs, distribution, soldiers, |cs|);
    assert distribution[..|cs|] == distribution;
    assert cs[..|cs|] == cs;
  }

  /** The lists hold distinct countries and no country is on two lists. */
  predicate Disjoint(ls: seq<seq<CountryId>>)
  {
    && (forall j | 0 <= j < |ls| :: NoDup(ls[j]))
    && (forall i, j, c | 0 <= i < |ls| && 0 <= j < |ls| && i != j && c in ls[i] :: c !in ls[j])
  }

  /** The outer loop of the spread, over every player's list: each country
      gains the picks of its slot, and each list's total grows by its
      number of picks. */
  method SpreadAll(ls: seq<seq<CountryId>>, soldiers: seq<int>, picks: seq<seq<int>>) returns (s: seq<int>)
    requires |soldiers| == NumCountries && |picks| == |ls| && Disjoint(ls)
    requires forall j, i | 0 <= j < |ls| && 0 <= i < |picks[j]| :: 0 <= picks[j][i] < |ls[j]|
    ensures |s| == NumCountries
    ensures forall j, k | 0 <= j < |ls| && 0 <= k < |ls[j]| :: s[ls[j][k]] == soldiers[ls[j][k]] + Count(picks[j], k)
    ensures forall j | 0 <= j < |ls| :: ArmyOf(ls[j], s) == ArmyOf(ls[j], soldiers) + |picks[j]|
  {
    s := soldiers;
    var j := 0;
    while j < |ls|
      invariant 0 <= j <= |ls| && |s| == NumCountries
      invariant forall j', k | 0 <= j' < j && 0 <= k < |ls[j']| :: s[ls[j'][k]] == soldiers[ls[j'][k]] + Count(picks[j'], k)
      invariant forall j' | 0 <= j' < j :: ArmyOf(ls[j'], s) == ArmyOf(ls[j'], soldiers) + |picks[j']|
      invariant forall j', c | j <= j' < |ls| && c in ls[j'] :: s[c] == soldiers[c]
    {
      var before := s;
      ArmyOfAgree(ls[j], s, soldiers);
      s := SpreadArmies(ls[j], s, picks[j]);
      forall j' | 0 <= j' < j ensures ArmyOf(ls[j'], s) == ArmyOf(ls[j'], soldiers) + |picks[j']| {
        ArmyOfAgree(ls[j'], s, before);
      }
      j := j + 1;
    }
  }

  /** Under a shuffled order, player `j` of `n` is dealt exactly the
      countries whose position leaves remainder `j`, each once. */
  lemma DealOwnership(order: seq<CountryId>, n: int)
    requires IsOrder(order) && n > 0
    ensures forall j | 0 <= j < n :: NoDup(Dealt(order, j, n))
    ensures forall j, c: CountryId :: c in Dealt(order, j, n) <==> Seat(IndexOf(order, c), n) == j
  {
    forall j ensures NoDup(Dealt(order, j, n)) && forall c: CountryId :: c in Dealt(order, j, n) <==> Seat(IndexOf(order, c), n) == j {
      DealtSpec(order, j, n);
    }
  }

  /** After the deal, the board and the dealt lists agree and every country
      holds one soldier. */
  lemma DealResult(order: seq<CountryId>, owner: seq<Player>, soldiers: seq<int>, ps: seq<Player>, ls: seq<seq<CountryId>>)
    requires IsOrder(order) && |ps| > 0 && NoDup(ps)
    requires |owner| == NumCountries && |soldiers| == NumCountries && |ls| == |ps|
    requires forall k | 0 <= k < |order| :: owner[order[k]] == ps[Seat(k, |ps|)] && soldiers[order[k]] == 1
    requires forall j | 0 <= j < |ps| :: ls[j] == Dealt(order, j, |ps|)
    ensures Consistent(owner, ps, ls)
    ensures forall c: CountryId :: soldiers[c] == 1
  {
    var n := |ps|;
    DealOwnership(order, n);
    forall c: CountryId ensures owner[c] == ps[Seat(IndexOf(order, c), n)] && soldiers[c] == 1 {
      var k := IndexOf(order, c);
    }
    forall j, c: CountryId | 0 <= j < n ensures OnList(ls, j, c) <==> owner[c] == ps[j] {
      assert c in ls[j] <==> Seat(IndexOf(order, c), n) == j;
    }
  }

  /** One more position of the deal: its country goes to its seat with one
      soldier, and the countries dealt before keep theirs. */
  lemma DealBoardStep(order: seq<CountryId>, ps: seq<Player>, i: int, owner: seq<Player>, soldiers: seq<int>)
    requires NoDup(order) && 0 <= i < |order| && |ps| > 0
    requires |owner| == NumCountries && |soldiers| == NumCountries
    requires forall k | 0 <= k < i :: owner[order[k]] == ps[Seat(k, |ps|)] && soldiers[order[k]] == 1
    ensures forall k | 0 <= k < i + 1 ::
      owner[order[i] := ps[Seat(i, |ps|)]][order[k]] == ps[Seat(k, |ps|)] && soldiers[order[i] := 1][order[k]] == 1
  {
    assert forall k | 0 <= k < i :: order[k] != order[i];
  }

  /** One more position of the deal appends its country to its seat's list. */
  lemma DealListsStep(order: seq<CountryId>, i: int, n: int, ls: seq<seq<CountryId>>)
    requires 0 <= i < |order| && n > 0 && |ls| == n
    requires forall j | 0 <= j < n :: ls[j] == Dealt(order[..i], j, n)
    ensures forall j | 0 <= j < n ::
      Dealt(order[..i + 1], j, n) == ls[j] + (if j == Seat(i, n) then [order[i]] else [])
  {
    DealtStep(order, i, n);
  }

  /** `player.add_country(country)` for the player at `seat`, whose list
      alone grows. */
  method GiveCountry(ps: seq<Player>, seat: int, c: CountryId, ghost ls: seq<seq<CountryId>>)
    returns (ghost ls': seq<seq<CountryId>>)
    requires 0 <= seat < |ps| && NoDup(ps) && |ls| == |ps|
    requires forall j | 0 <= j < |ps| :: ps[j].countries == ls[j]
    modifies {ps[seat]}`countries
    ensures ls' == ls[seat := ls[seat] + [c]]
    ensures forall j | 0 <= j < |ps| :: ps[j].countries == ls'[j]
  {
    ps[seat].AddCountry(c);
    ls' := ls[seat := ls[seat] + [c]];
  }

  /** The deal of `assign_countries_and_initialize_armies`: the country at
      position `i` of the shuffled order goes to player `i % num_players`
      with one soldier.  The owners and counts come back; the players' lists
      grow in place. */
  method Deal(order: seq<CountryId>, ps: seq<Player>) returns (owner: seq<Player>, soldiers: seq<int>)
    requires NoDup(order) && |ps| > 0 && NoDup(ps)
    requires forall j | 0 <= j < |ps| :: ps[j].countries == []
    modifies set j | 0 <= j < |ps| :: ps[j]`countries
    ensures |owner| == NumCountries && |soldiers| == NumCountries
    ensures forall k | 0 <= k < |order| :: owner[order[k]] == ps[Seat(k, |ps|)] && soldiers[order[k]] == 1
    ensures forall j | 0 <= j < |ps| :: ps[j].countries == DealtLists(order, |ps|)[j]
  {
    var n := |ps|;
    owner := seq(NumCountries, _ => ps[0]);
    soldiers := seq(NumCountries, _ => 0);
    ghost var ls: seq<seq<CountryId>> := seq(n, _ => []);
    var i := 0;
    while i < |order|
      invariant 0 <= i <= |order|
      invariant |owner| == NumCountries && |soldiers| == NumCountries
      invariant forall k | 0 <= k < i :: owner[order[k]] == ps[Seat(k, n)] && soldiers[order[k]] == 1
      invariant |ls| == n
      invariant forall j | 0 <= j < n :: ls[j] == Dealt(order[..i], j, n)
      invariant forall j | 0 <= j < n :: ps[j].countries == ls[j]
    {
      var seat := Seat(i, n);
      var p := ps[seat];
      var c := order[i];
      DealBoardStep(order, ps, i, owner, soldiers);
      DealListsStep(order, i, n, ls);
      owner := owner[c := p];
      soldiers := soldiers[c := 1];
      ls := GiveCountry(ps, seat, c, ls);
      i := i + 1;
    }
    assert order[..|order|] == order;
    assert forall j | 0 <= j < n :: ls[j] == DealtLists(order, n)[j];
  }

  /** Under an agreement of board and lists, no country is on two lists. */
  lemma ConsistentDisjoint(owner: seq<Player>, ps: seq<Player>, ls: seq<seq<CountryId>>)
    requires Consistent(owner, ps, ls)
    ensures Disjoint(ls)
  {
    forall i, j, c | 0 <= i < |ls| && 0 <= j < |ls| && i != j && c in ls[i] ensures c !in ls[j] {
      assert OnList(ls, i, c) && ps[i] != ps[j];
      assert OnList(ls, j, c) <==> owner[c] == ps[j];
    }
  }

  /** After the spread, each player's army is the initial army, or one
      soldier per country when the player was dealt more countries than
      that. */
  lemma SetupArmies(ls: seq<seq<CountryId>>, ones: seq<int>, picks: seq<seq<int>>, soldiers: seq<int>, initial: int)
    requires |picks| == |ls| && |ones| == NumCountries && |soldiers| == NumCountries
    requires forall c: CountryId :: ones[c] == 1
    requires forall j | 0 <= j < |ls| :: PicksFor(picks[j], |ls[j]|, initial)
    requires forall j | 0 <= j < |ls| :: ArmyOf(ls[j], soldiers) == ArmyOf(ls[j], ones) + |picks[j]|
    ensures forall j | 0 <= j < |ls| :: ArmyOf(ls[j], soldiers) == Max(initial, |ls[j]|)
  {
    forall j | 0 <= j < |ls| ensures ArmyOf(ls[j], soldiers) == Max(initial, |ls[j]|) {
      ArmyOfOnes(ls[j], ones);
    }
  }

  /** After the spread every country, being on some player's list, holds at
      least its one soldier. */
  lemma SetupCovered(owner: seq<Player>, ps: seq<Player>, ls: seq<seq<CountryId>>, ones: seq<int>,
                     picks: seq<seq<int>>, soldiers: seq<int>)
    requires Consistent(owner, ps, ls) && |picks| == |ls|
    requires |ones| == NumCountries && |soldiers| == NumCountries
    requires forall c: CountryId :: ones[c] == 1
    requires forall j, k | 0 <= j < |ls| && 0 <= k < |ls[j]| :: soldiers[ls[j][k]] == ones[ls[j][k]] + Count(picks[j], k)
    ensures forall c: CountryId :: soldiers[c] >= 1
  {
    forall c: CountryId ensures soldiers[c] >= 1 {
      var j := IndexOf(ps, owner[c]);
      assert OnList(ls, j, c);
      var k := IndexOf(ls[j], c);
      assert soldiers[ls[j][k]] == ones[ls[j][k]] + Count(picks[j], k);
    }
  }

  /** The setup after the deal, on values: the board and the dealt lists
      agree, and the spread leaves each player the initial army (or one
      soldier per country) with at least one soldier everywhere. */
  method SetupBoard(order: seq<CountryId>, owner: seq<Player>, ones: seq<int>, ps: seq<Player>,
                    ls: seq<seq<CountryId>>, picks: seq<seq<int>>, initial: int) returns (s: seq<int>)
    requires IsOrder(order) && |ps| > 0 && NoDup(ps)
    requires |owner| == NumCountries && |ones| == NumCountries
    requires forall k | 0 <= k < |order| :: owner[order[k]] == ps[Seat(k, |ps|)] && ones[order[k]] == 1
    requires |ls| == |ps| && forall j | 0 <= j < |ps| :: ls[j] == Dealt(order, j, |ps|)
    requires |picks| == |ps| && forall j | 0 <= j < |ps| :: PicksFor(picks[j], |ls[j]|, initial)
    ensures Consistent(owner, ps, ls) && |s| == NumCountries
    ensures forall j, k | 0 <= j < |ls| && 0 <= k < |ls[j]| :: s[ls[j][k]] == 1 + Count(picks[j], k)
    ensures forall j | 0 <= j < |ls| :: ArmyOf(ls[j], s) == Max(initial, |ls[j]|)
    ensures forall c: CountryId :: s[c] >= 1
  {
    DealResult(order, owner, ones, ps, ls);
    ConsistentDisjoint(owner, ps, ls);
    s := SpreadAll(ls, ones, picks);
    SetupArmies(ls, ones, picks, s, initial);
    SetupCovered(owner, ps, ls, ones, picks, s);
  }

  /** `assign_countries_and_initialize_armies` after the shuffle, on the
      board's values: the deal grows the players' lists in place, then the
      spread places the rest of each initial army. */
  method Setup(order: seq<CountryId>, ps: seq<Player>, picks: seq<seq<int>>, initial: int)
    returns (owner: seq<Player>, soldiers: seq<int>, ghost ls: seq<seq<CountryId>>)
    requires IsOrder(order) && |ps| > 0 && NoDup(ps)
    requires forall j | 0 <= j < |ps| :: ps[j].countries == []
    requires |picks| == |ps| && forall j | 0 <= j < |ps| :: PicksFor(picks[j], |Dealt(order, j, |ps|)|, initial)
    modifies set j | 0 <= j < |ps| :: ps[j]`countries
    ensures ls == DealtLists(order, |ps|) && forall j | 0 <= j < |ps| :: ps[j].countries == ls[j]
    ensures Consistent(owner, ps, ls) && |soldiers| == NumCountries
    ensures forall j, k | 0 <= j < |ps| && 0 <= k < |ls[j]| :: soldiers[ls[j][k]] == 1 + Count(picks[j], k)
    ensures forall j | 0 <= j < |ps| :: ArmyOf(ls[j], soldiers) == Max(initial, |ls[j]|)
    ensures forall c: CountryId :: soldiers[c] >= 1
  {
    var ones;
    owner, ones := Deal(order, ps);
    var dealt := DealtLists(order, |ps|);
    soldiers := SetupBoard(order, owner, ones, ps, dealt, picks, initial);
    ls := dealt;
  }

  // ----- the game -----

  /** `s` after `s.pop(i)`. */
  function Without<T>(s: seq<T>, i: int): (r: seq<T>)
    requires 0 <= i < |s|
    ensures |r| == |s| - 1
    ensures forall j | 0 <= j < |r| :: r[j] == if j < i then s[j] else s[j + 1]
  {
    s[..i] + s[i + 1..]
  }

  /** Country `c` is on list `i`. */
  predicate OnList(ls: seq<seq<CountryId>>, i: int, c: CountryId)
  {
    0 <= i < |ls| && c in ls[i]
  }

  /** The owners on the board and the players' lists describe the same
      ownership: every country has an owner among the distinct players, a
      player's list holds exactly the countries it owns, each once. */
  ghost predicate Consistent(owner: seq<Player>, ps: seq<Player>, ls: seq<seq<CountryId>>)
  {
    && |owner| == NumCountries && |ls| == |ps| && NoDup(ps)
    && (forall c: CountryId :: owner[c] in ps)
    && (forall i, c: CountryId {:trigger OnList(ls, i, c)} :: 0 <= i < |ps| ==> (OnList(ls, i, c) <==> owner[c] == ps[i]))
    && (forall i | 0 <= i < |ps| :: NoDup(ls[i]))
  }

  /** A country's owner lists it, and no other player does. */
  lemma OwnerLists(owner: seq<Player>, ps: seq<Player>, ls: seq<seq<CountryId>>, i: int, c: CountryId)
    requires Consistent(owner, ps, ls) && 0 <= i < |ps|
    ensures owner[c] == ps[i] <==> c in ls[i]
  {
    assert OnList(ls, i, c) <==> owner[c] == ps[i];
  }

  /** The lists after a conquest of `d`: taken from player `qi`, appended to
      player `ai`. */
  function Transferred(ls: seq<seq<CountryId>>, qi: int, ai: int, d: CountryId): seq<seq<CountryId>>
    requires 0 <= qi < |ls| && 0 <= ai < |ls| && d in ls[qi]
  {
    ls[qi := RemoveFirst(ls[qi], d)][ai := ls[ai] + [d]]
  }

  /** A conquest keeps the board and the lists in agreement. */
  lemma TransferConsistent(owner: seq<Player>, ps: seq<Player>, ls: seq<seq<CountryId>>, qi: int, ai: int, d: CountryId)
    requires Consistent(owner, ps, ls)
    requires 0 <= qi < |ps| && 0 <= ai < |ps| && qi != ai && owner[d] == ps[qi]
    ensures d in ls[qi] && d !in ls[ai]
    ensures Consistent(owner[d := ps[ai]], ps, Transferred(ls, qi, ai, d))
  {
    assert ps[qi] != ps[ai];
    OwnerLists(owner, ps, ls, qi, d);
    OwnerLists(owner, ps, ls, ai, d);
    RemoveFirstMembers(ls[qi], d);
    var ls' := Transferred(ls, qi, ai, d);
    var owner' := owner[d := ps[ai]];
    forall c: CountryId ensures owner'[c] in ps {
      if c != d {
        assert owner'[c] == owner[c];
      }
    }
    forall i, c: CountryId | 0 <= i < |ps| ensures OnList(ls', i, c) <==> owner'[c] == ps[i] {
      assert OnList(ls, i, c) <==> owner[c] == ps[i];
      if i != qi && i != ai {
        assert ls'[i] == ls[i];
      }
    }
    forall i | 0 <= i < |ps| ensures NoDup(ls'[i]) {
      if i == ai {
        var l := ls[ai] + [d];
        forall x, y | 0 <= x < y < |l| ensures l[x] != l[y] {
          if y == |l| - 1 {
            assert l[x] in ls[ai];
          }
        }
      }
    }
  }

  /** Dropping a player who holds nothing keeps the agreement. */
  lemma EliminateConsistent(owner: seq<Player>, ps: seq<Player>, ls: seq<seq<CountryId>>, qi: int)
    requires Consistent(owner, ps, ls)
    requires 0 <= qi < |ps| && ls[qi] == []
    ensures Consistent(owner, Without(ps, qi), Without(ls, qi))
  {
    var ps' := Without(ps, qi);
    var ls' := Without(ls, qi);
    forall c: CountryId ensures owner[c] in ps' {
      var i := IndexOf(ps, owner[c]);
      assert OnList(ls, i, c);
      if i < qi {
        assert ps'[i] == ps[i];
      } else {
        assert ps'[i - 1] == ps[i];
      }
    }
    forall x, y | 0 <= x < y < |ps'| ensures ps'[x] != ps'[y] {
      var x0 := if x < qi then x else x + 1;
      var y0 := if y < qi then y else y + 1;
      assert ps'[x] == ps[x0] && ps'[y] == ps[y0];
    }
    forall i, c: CountryId | 0 <= i < |ps'| ensures OnList(ls', i, c) <==> owner[c] == ps'[i] {
      var i0 := if i < qi then i else i + 1;
      assert ps'[i] == ps[i0] && ls'[i] == ls[i0];
      assert OnList(ls, i0, c) <==> owner[c] == ps[i0];
    }
    forall i | 0 <= i < |ps'| ensures NoDup(ls'[i]) {
      var i0 := if i < qi then i else i + 1;
      assert ls'[i] == ls[i0];
    }
  }

  /** The players and their lists once `d` has left the list of player
      `qi`: a player whose list is left empty is dropped. */
  function AfterLoss(ps: seq<Player>, ls: seq<seq<CountryId>>, qi: int, d: CountryId): (r: (seq<Player>, seq<seq<CountryId>>))
    requires 0 <= qi < |ls| && |ps| == |ls| && d in ls[qi]
  {
    var ls1 := ls[qi := RemoveFirst(ls[qi], d)];
    if ls1[qi] == [] then (Without(ps, qi), Without(ls1, qi)) else (ps, ls1)
  }

  /** A conquest of `d`, taken from player `qi` by player `ai`, keeps the
      board and the lists in agreement, and the conqueror stays in the game. */
  lemma ConquestConsistent(owner: seq<Player>, ps: seq<Player>, ls: seq<seq<CountryId>>, qi: int, ai: int, d: CountryId)
    requires Consistent(owner, ps, ls)
    requires 0 <= qi < |ps| && 0 <= ai < |ps| && qi != ai && owner[d] == ps[qi]
    ensures d in ls[qi] && ps[ai] in AfterLoss(ps, ls, qi, d).0
    ensures Consistent(owner[d := ps[ai]], AfterLoss(ps, ls, qi, d).0,
                       AfterLoss(ps, ls, qi, d).1[IndexOf(AfterLoss(ps, ls, qi, d).0, ps[ai]) :=
                         AfterLoss(ps, ls, qi, d).1[IndexOf(AfterLoss(ps, ls, qi, d).0, ps[ai])] + [d]])
  {
    TransferConsistent(owner, ps, ls, qi, ai, d);
    var t := Transferred(ls, qi, ai, d);
    var r := AfterLoss(ps, ls, qi, d);
    var ls1 := ls[qi := RemoveFirst(ls[qi], d)];
    assert t == ls1[ai := ls1[ai] + [d]];
    if ls1[qi] == [] {
      assert t[qi] == [];
      EliminateConsistent(owner[d := ps[ai]], ps, t, qi);
      var a := if ai < qi then ai else ai - 1;
      assert r.0[a] == ps[ai];
      assert IndexOf(r.0, ps[ai]) == a by {
        assert NoDup(r.0);
      }
      assert Without(t, qi) == r.1[a := r.1[a] + [d]];
    } else {
      assert IndexOf(ps, ps[ai]) == ai;
    }
  }

  /** `player.remove_country(country)` for the player at `seat`, whose list
      alone shrinks. */
  method TakeCountry(ps: seq<Player>, seat: int, c: CountryId, ghost ls: seq<seq<CountryId>>)
    returns (ghost ls': seq<seq<CountryId>>)
    requires 0 <= seat < |ps| && NoDup(ps) && |ls| == |ps| && c in ls[seat]
    requires forall j | 0 <= j < |ps| :: ps[j].countries == ls[j]
    modifies {ps[seat]}`countries
    ensures ls' == ls[seat := RemoveFirst(ls[seat], c)]
    ensures forall j | 0 <= j < |ps| :: ps[j].countries == ls'[j]
  {
    ps[seat].RemoveCountry(c);
    ls' := ls[seat := RemoveFirst(ls[seat], c)];
  }

  /** Dropping a player from `players` drops its list with it. */
  lemma DropPlayer(ps: seq<Player>, ls: seq<seq<CountryId>>, qi: int)
    requires 0 <= qi < |ps| && |ls| == |ps| && NoDup(ps)
    requires forall j | 0 <= j < |ps| :: ps[j].countries == ls[j]
    ensures NoDup(Without(ps, qi))
    ensures forall j | 0 <= j < |ps| - 1 :: Without(ps, qi)[j].countries == Without(ls, qi)[j]
  {
    var ps' := Without(ps, qi);
    forall x, y | 0 <= x < y < |ps'| ensures ps'[x] != ps'[y] {
      var x0 := if x < qi then x else x + 1;
      var y0 := if y < qi then y else y + 1;
      assert ps'[x] == ps[x0] && ps'[y] == ps[y0];
    }
  }

  /** The list changes of a conquest of `d`, taken from the player at `qi`
      by the player at `ai`, in the order `battle` makes them: the loser's
      list shrinks, the loser is popped from the players when that list is
      empty, and the conqueror's list grows. */
  method MoveCountry(ps: seq<Player>, qi: int, ai: int, d: CountryId, ghost ls: seq<seq<CountryId>>)
    returns (ps': seq<Player>, ghost ls': seq<seq<CountryId>>)
    requires 0 <= qi < |ps| && 0 <= ai < |ps| && qi != ai && NoDup(ps) && |ls| == |ps| && d in ls[qi]
    requires forall j | 0 <= j < |ps| :: ps[j].countries == ls[j]
    modifies {ps[qi], ps[ai]}`countries
    ensures ps' == AfterLoss(ps, ls, qi, d).0 && ps[ai] in ps'
    ensures ls' == AfterLoss(ps, ls, qi, d).1[IndexOf(ps', ps[ai]) := AfterLoss(ps, ls, qi, d).1[IndexOf(ps', ps[ai])] + [d]]
    ensures forall j | 0 <= j < |ps'| :: ps'[j].countries == ls'[j]
    ensures ps[qi].countries == RemoveFirst(ls[qi], d) && ps[ai].countries == ls[ai] + [d]
  {
    ls' := TakeCountry(ps, qi, d, ls);
    ps' := ps;
    if |ps[qi].countries| == 0 {
      DropPlayer(ps, ls', qi);
      ps' := Without(ps, qi);
      ls' := Without(ls', qi);
      assert ps'[if ai < qi then ai else ai - 1] == ps[ai];
    }
    ls' := GiveCountry(ps', IndexOf(ps', ps[ai]), d, ls');
  }

  /** The armies after a battle from `origin` on `target` in which the
      attacker lost `attackerLoss` soldiers and the defender `defenderLoss`. */
  function AfterLosses(s: seq<int>, origin: CountryId, target: CountryId, attackerLoss: int, defenderLoss: int): seq<int>
    requires |s| == NumCountries
  {
    s[origin := s[origin] - attackerLoss][target := s[target] - defenderLoss]
  }

  /** The armies after `move` soldiers leave `origin` for `target`, whose
      old army is gone. */
  function AfterMove(s: seq<int>, origin: CountryId, target: CountryId, move: int): seq<int>
    requires |s| == NumCountries
  {
    s[origin := s[origin] - move][target := move]
  }

  /** The loss count of `battle` for the rolls `roll_dice` returned: the
      defender loses a soldier for every pair the attacker wins, the attacker
      one for every other pair. */
  method Skirmish(s: seq<int>, origin: CountryId, target: CountryId, n: int, attackRolls: seq<int>, defendRolls: seq<int>)
    returns (s': seq<int>)
    requires |s| == NumCountries && origin != target && |attackRolls| == n
    ensures s' == AfterLosses(s, origin, target, Min(n, |defendRolls|) - Wins(attackRolls, defendRolls), Wins(attackRolls, defendRolls))
  {
    var attackerLoss, defenderLoss := CountLosses(attackRolls, defendRolls);
    s' := s[origin := s[origin] - attackerLoss];
    s' := s'[target := s'[target] - defenderLoss];
  }

  /** The soldiers lost in a battle are the losses of both sides. */
  lemma LossesSum(s: seq<int>, origin: CountryId, target: CountryId, attackerLoss: int, defenderLoss: int)
    requires |s| == NumCountries && origin != target
    ensures Sum(AfterLosses(s, origin, target, attackerLoss, defenderLoss)) == Sum(s) - attackerLoss - defenderLoss
  {
    SumTakeTwice(s, origin, target, attackerLoss, defenderLoss);
  }

  /** The move into a conquered country drops the old army of the target
      and no other soldier. */
  lemma MoveSoldiers(s: seq<int>, origin: CountryId, target: CountryId, move: int)
    requires |s| == NumCountries && origin != target
    ensures Sum(AfterMove(s, origin, target, move)) == Sum(s) - s[target]
  {
    SumMoveOver(s, origin, target, move);
  }

  /** On a conquest that `attack`'s checks allowed, the origin has lost
      nothing, all `n` attacking soldiers move into the target and the origin
      keeps at least one. */
  lemma ConquestMovesAll(s: seq<int>, origin: CountryId, target: CountryId, n: int, a: seq<int>, d: seq<int>)
    requires |s| == NumCountries && origin != target
    requires |a| == n && 1 <= n <= s[origin] - 1 && |d| == DefenderDice(s[target])
    requires AfterLosses(s, origin, target, Min(n, |d|) - Wins(a, d), Wins(a, d))[target] <= 0
    ensures var armies := AfterLosses(s, origin, target, Min(n, |d|) - Wins(a, d), Wins(a, d));
      && armies[origin] == s[origin]
      && SoldiersToMove(n, armies[origin]) == n
      && AfterMove(armies, origin, target, n)[origin] == s[origin] - n >= 1
      && AfterMove(armies, origin, target, n)[target] == n
  {
    ConquestWinsEveryPair(a, d, s[target]);
  }

  /** The card the deck loses is the card the hand gains, and the hand
      stays well formed. */
  lemma DrawConserves(deck: seq<Card>, h: Hand)
    requires deck != [] && WellFormedHand(h)
    ensures WellFormedHand(WithCard(h, deck[|deck| - 1]))
    ensures multiset(deck[..|deck| - 1]) + HandCards(WithCard(h, deck[|deck| - 1]))
         == multiset(deck) + HandCards(h)
  {
    LastOff(deck);
    WithCardSpec(h, deck[|deck| - 1]);
  }

  /** A draw from the reshuffled used cards: the hand gains the card the
      reshuffled deck loses, and the used cards are the reshuffled deck. */
  lemma ReshuffleConserves(reshuffle: seq<Card>, used: seq<Card>, h: Hand)
    requires reshuffle != [] && WellFormedHand(h) && IsShuffleOf(reshuffle, used)
    ensures multiset(reshuffle[..|reshuffle| - 1]) + multiset([]) + HandCards(WithCard(h, reshuffle[|reshuffle| - 1]))
         == multiset([]) + multiset(used) + HandCards(h)
  {
    DrawConserves(reshuffle, h);
    assert multiset(reshuffle) == multiset(used);
    UnionBeside(multiset(reshuffle[..|reshuffle| - 1]), HandCards(WithCard(h, reshuffle[|reshuffle| - 1])),
                multiset(used), HandCards(h), multiset{});
  }

  /** The deck, the used cards and the hand after `draw_card`, and whether
      its `pop` found a card. */
  datatype DrawOutcome = DrawOutcome(found: bool, deck: seq<Card>, used: seq<Card>, hand: Hand)

  /** The body of `draw_card` on values: an empty deck is replaced by the
      reshuffled used cards, then the last card of the deck joins the hand. */
  function Draw(deck: seq<Card>, used: seq<Card>, h: Hand, reshuffle: seq<Card>): DrawOutcome
    requires WellFormedHand(h)
  {
    if deck != [] then DrawOutcome(true, deck[..|deck| - 1], used, WithCard(h, deck[|deck| - 1]))
    else if reshuffle != [] then DrawOutcome(true, reshuffle[..|reshuffle| - 1], [], WithCard(h, reshuffle[|reshuffle| - 1]))
    else DrawOutcome(false, [], [], h)
  }

  /** A draw fails only when the deck and the used cards are both empty; it
      takes the last card of the deck (of the reshuffled used cards when the
      deck had run out) into the hand, and no card is made or lost. */
  lemma DrawSpec(deck: seq<Card>, used: seq<Card>, h: Hand, reshuffle: seq<Card>)
    requires WellFormedHand(h) && IsShuffleOf(reshuffle, used)
    ensures WellFormedHand(Draw(deck, used, h, reshuffle).hand)
    ensures !Draw(deck, used, h, reshuffle).found <==> deck == [] && used == []
    ensures !Draw(deck, used, h, reshuffle).found ==> Draw(deck, used, h, reshuffle).hand == h
    ensures Draw(deck, used, h, reshuffle).found ==>
      HandSize(Draw(deck, used, h, reshuffle).hand) == HandSize(h) + 1
    ensures deck != [] ==>
      && Draw(deck, used, h, reshuffle).deck == deck[..|deck| - 1]
      && Draw(deck, used, h, reshuffle).used == used
      && HandCards(Draw(deck, used, h, reshuffle).hand) == HandCards(h) + multiset{deck[|deck| - 1]}
    ensures deck == [] ==> Draw(deck, used, h, reshuffle).used == []
    ensures multiset(Draw(deck, used, h, reshuffle).deck) + multiset(Draw(deck, used, h, reshuffle).used)
            + HandCards(Draw(deck, used, h, reshuffle).hand)
         == multiset(deck) + multiset(used) + HandCards(h)
  {
    if deck != [] {
      DrawConserves(deck, h);
      WithCardSpec(h, deck[|deck| - 1]);
      UnionBeside(multiset(deck[..|deck| - 1]), HandCards(WithCard(h, deck[|deck| - 1])),
                  multiset(deck), HandCards(h), multiset(used));
    } else if reshuffle != [] {
      DrawConserves(reshuffle, h);
      WithCardSpec(h, reshuffle[|reshuffle| - 1]);
      ReshuffleConserves(reshuffle, used, h);
    } else {
      assert |used| == |multiset(used)| == |multiset(reshuffle)| == 0;
    }
  }

  /** A trade-in moves the cards of the combination from the hand to the
      used cards: no card is made or lost, and the hand stays well formed. */
  lemma TradeConserves(deck: seq<Card>, used: seq<Card>, h: Hand, combination: seq<Card>)
    requires WellFormedHand(h) && Holds(h, combination)
    ensures WellFormedHand(TradedHand(h, combination))
    ensures multiset(deck) + multiset(used + combination) + HandCards(TradedHand(h, combination))
         == multiset(deck) + multiset(used) + HandCards(h)
    ensures |deck| + |used + combination| + HandSize(TradedHand(h, combination))
         == |deck| + |used| + HandSize(h)
  {
    TradeSpec(h, combination);
    assert multiset(used + combination) == multiset(used) + multiset(combination);
    UnionBeside(HandCards(TradedHand(h, combination)), multiset(combination),
                HandCards(h), multiset{}, multiset(deck) + multiset(used));
  }

  /** The check of `fortify` on the options: the two separate lookups of
      the source, or the lookup of the pair (see `AsWrittenAllowsDisconnected`
      and `CorrectedAllowsConnected`). */
  predicate FortifyAllowed(layout: Layout, opts: seq<FortifyOption>, origin: CountryId, dest: CountryId)
  {
    if layout == AsWritten then AllowedAsWritten(opts, origin, dest) else AllowedCorrected(opts, origin, dest)
  }

  /** The board after `dest += n` and then `origin -= n`. */
  function Fortified(s: seq<int>, origin: CountryId, dest: CountryId, n: int): seq<int>
    requires |s| == NumCountries
  {
    s[dest := s[dest] + n][origin := s[dest := s[dest] + n][origin] - n]
  }

  /** A fortification moves exactly `n` soldiers from the origin to the
      destination (none at all when the two are one country), touches no
      other country and keeps the number of soldiers on the board. */
  lemma FortifiedSpec(s: seq<int>, origin: CountryId, dest: CountryId, n: int)
    requires |s| == NumCountries
    ensures |Fortified(s, origin, dest, n)| == NumCountries
    ensures origin != dest ==>
      Fortified(s, origin, dest, n)[origin] == s[origin] - n && Fortified(s, origin, dest, n)[dest] == s[dest] + n
    ensures origin == dest ==> Fortified(s, origin, dest, n) == s
    ensures forall c: CountryId | c != origin && c != dest :: Fortified(s, origin, dest, n)[c] == s[c]
    ensures Sum(Fortified(s, origin, dest, n)) == Sum(s)
  {
    if origin != dest {
      assert s[dest := s[dest] + n][origin] == s[origin];
      SumUpdateTwice(s, dest, origin, s[dest] + n, s[origin] - n);
    } else {
      assert Fortified(s, origin, dest, n) == s;
    }
  }

  class Game {
    var players: seq<Player>
    var numPlayers: int
    const numPlayersStart: int
    var usedCards: seq<Card>
    var countryConqueredInRound: bool
    var currentPhase: Phase
    var currentPlayer: Player
    var cardDeck: seq<Card>
    /** `country.owner` (and the owner of its army, which is set with it). */
    var owner: seq<Player>
    /** `country.army.n_soldiers`. */
    var soldiers: seq<int>
    /** `COUNTRIES` after the shuffle of the setup, the order of the action
        tables. */
    const order: seq<CountryId>
    /** The players' country lists, in the order of `players`. */
    ghost var lists: seq<seq<CountryId>>

    /** The board and the players' lists agree, the players are distinct and
        there is at least one, and the current player is among them. */
    ghost predicate Valid()
      reads this`soldiers, this`numPlayers, this`players, this`currentPlayer, this`lists, this`owner
      reads set i | 0 <= i < |players| :: players[i]`countries
    {
      && |soldiers| == NumCountries
      && numPlayers == |players| && 1 <= |players| && currentPlayer in players
      && |lists| == |players| && (forall i | 0 <= i < |players| :: players[i].countries == lists[i])
      && Consistent(owner, players, lists)
    }

    /** A player owns a country exactly when it is on the player's list. */
    lemma OwnershipAgrees(p: Player, c: CountryId)
      requires Valid() && p in players
      ensures owner[c] == p <==> c in p.countries
      ensures owner[c] in players
    {
      var i := IndexOf(players, p);
      assert OnList(lists, i, c) <==> owner[c] == players[i];
    }

    /** `Game(players)`: the setup deals the shuffled countries round-robin
        and spreads each player's initial army over them; the deck is the
        shuffled `init_deck()` and the action tables follow the shuffled
        order. */
    constructor(ps: seq<Player>, shuffled: seq<CountryId>, picks: seq<seq<int>>, deck: seq<Card>)
      requires InitialArmies(|ps|).Some? && NoDup(ps)
      requires forall j | 0 <= j < |ps| :: ps[j].countries == []
      requires IsOrder(shuffled)
      requires |picks| == |ps|
      requires forall j | 0 <= j < |ps| ::
        PicksFor(picks[j], |Dealt(shuffled, j, |ps|)|, InitialArmies(|ps|).value)
      requires FullDeck(deck)
      modifies set j | 0 <= j < |ps| :: ps[j]`countries
      ensures Valid()
      ensures players == ps && numPlayers == |ps| && numPlayersStart == |ps| && order == shuffled
      ensures usedCards == [] && !countryConqueredInRound && currentPhase == CardsPhase
      ensures currentPlayer == ps[0] && cardDeck == deck
      ensures lists == DealtLists(shuffled, |ps|)
      ensures forall j, k | 0 <= j < |ps| && 0 <= k < |lists[j]| :: soldiers[lists[j][k]] == 1 + Count(picks[j], k)
      ensures forall j | 0 <= j < |ps| :: ArmyOf(lists[j], soldiers) == Max(InitialArmies(|ps|).value, |lists[j]|)
      ensures forall c: CountryId :: soldiers[c] >= 1
    {
      players := ps;
      numPlayers := |ps|;
      numPlayersStart := |ps|;
      usedCards := [];
      countryConqueredInRound := false;
      currentPhase := CardsPhase;
      currentPlayer := ps[0];
      order := shuffled;
      owner := seq(NumCountries, _ => ps[0]);
      soldiers := seq(NumCountries, _ => 0);
      cardDeck := deck;
      lists := [];
      new;
      AssignCountriesAndInitializeArmies(picks);
    }

    /** `assign_countries_and_initialize_armies`, after the shuffle: the deal,
        one soldier per country, then the random spread of the rest. */
    method AssignCountriesAndInitializeArmies(picks: seq<seq<int>>)
      requires |players| == numPlayers && InitialArmies(numPlayers).Some? && NoDup(players)
      requires IsOrder(order) && currentPlayer in players
      requires forall j | 0 <= j < |players| :: players[j].countries == []
      requires |picks| == |players|
      requires forall j | 0 <= j < |players| ::
        PicksFor(picks[j], |Dealt(order, j, numPlayers)|, InitialArmies(numPlayers).value)
      modifies this`owner, this`soldiers, this`lists, set j | 0 <= j < |players| :: players[j]`countries
      ensures Valid()
      ensures lists == DealtLists(order, numPlayers)
      ensures forall j, k | 0 <= j < numPlayers && 0 <= k < |lists[j]| :: soldiers[lists[j][k]] == 1 + Count(picks[j], k)
      ensures forall j | 0 <= j < numPlayers :: ArmyOf(lists[j], soldiers) == Max(InitialArmies(numPlayers).value, |lists[j]|)
      ensures forall c: CountryId :: soldiers[c] >= 1
    {
      var o, s, ls := Setup(order, players, picks, InitialArmies(numPlayers).value);
      owner := o;
      soldiers := s;
      lists := ls;
    }

    /** `num_players == 1`, the end of `gameplay_loop`. */
    predicate IsGameOver()
      reads this
    {
      numPlayers == 1
    }

    /** `next_player`. */
    method NextPlayer()
      requires Valid()
      modifies this`currentPlayer, this`countryConqueredInRound
      ensures Valid()
      ensures currentPlayer == players[(IndexOf(players, old(currentPlayer)) + 1) % numPlayers]
      ensures !countryConqueredInRound
    {
      currentPlayer := players[(IndexOf(players, currentPlayer) + 1) % numPlayers];
      countryConqueredInRound := false;
    }

    /** `next_phase`: the player moves on only when the fortify phase ends. */
    method NextPhase()
      requires Valid()
      modifies this`currentPhase, this`currentPlayer, this`countryConqueredInRound
      ensures Valid()
      ensures currentPhase == NextPhaseOf(old(currentPhase))
      ensures old(currentPhase) == FortifyPhase ==>
        currentPlayer == players[(IndexOf(players, old(currentPlayer)) + 1) % numPlayers]
        && !countryConqueredInRound
      ensures old(currentPhase) != FortifyPhase ==>
        currentPlayer == old(currentPlayer) && countryConqueredInRound == old(countryConqueredInRound)
    {
      if PhaseValue(currentPhase) == 3 {
        NextPlayer();
      }
      currentPhase := PhaseOf((PhaseValue(currentPhase) + 1) % 4);
    }

    /** `reinforce(player)`. */
    method Reinforce(p: Player)
      requires Valid() && p in players
      modifies p`unassignedSoldiers
      ensures p.unassignedSoldiers == old(p.unassignedSoldiers) + Reinforcements(p.countries)
    {
      forall c: CountryId ensures owner[c] == p <==> c in p.countries {
        OwnershipAgrees(p, c);
      }
      var reinforcements := BaseReinforcements(|p.countries|);
      var i := 0;
      while i < |AllContinents|
        invariant 0 <= i <= |AllContinents|
        invariant reinforcements == BaseReinforcements(|p.countries|) + ContinentBonus(p.countries, AllContinents[..i])
      {
        var k := AllContinents[i];
        assert AllContinents[..i + 1] == AllContinents[..i] + [k];
        if forall c | c in k.countries :: owner[c] == p {
          reinforcements := reinforcements + k.extraPoints;
        }
        i := i + 1;
      }
      assert AllContinents[..|AllContinents|] == AllContinents;
      p.unassignedSoldiers := p.unassignedSoldiers + reinforcements;
    }

    /** The conquest of `d` by `a` in `battle`: `d` leaves its owner's list,
        that owner is dropped from `players` when its list is left empty,
        then `d` changes hands and joins the end of `a`'s list; the armies
        become `armies`, the counts after the move into `d`. */
    method Conquer(d: CountryId, a: Player, armies: seq<int>)
      requires Valid() && a == currentPlayer && owner[d] != a
      requires d in owner[d].countries && |armies| == NumCountries
      modifies this`owner, this`players, this`numPlayers, this`lists, this`soldiers, {owner[d], a}`countries
      ensures Valid()
      ensures soldiers == armies
      ensures owner == old(owner)[d := a]
      ensures a.countries == old(a.countries) + [d]
      ensures old(owner[d]).countries == RemoveFirst(old(owner[d].countries), d)
      ensures players == if old(owner[d].countries) == [d]
                         then Without(old(players), IndexOf(old(players), old(owner[d])))
                         else old(players)
    {
      var qi := IndexOf(players, owner[d]);
      var ai := IndexOf(players, a);
      ConquestConsistent(owner, players, lists, qi, ai, d);
      var ps, ls := MoveCountry(players, qi, ai, d, lists);
      players := ps;
      numPlayers := |ps|;
      owner := owner[d := a];
      lists := ls;
      soldiers := armies;
    }

    /** `battle(attacker_country, defender_country, attacking_soldiers)`,
        where `attackRolls` and `defendRolls` are what `roll_dice` returned:
        the losses of the dice, and when the defender is left with no
        soldier, the conquest and the move into the conquered country.  On a
        conquest the attacker has lost nothing (`ConquestWinsEveryPair`). */
    method Battle(origin: CountryId, target: CountryId, n: int, attackRolls: seq<int>, defendRolls: seq<int>)
      returns (conquered: bool)
      requires Valid() && owner[origin] == currentPlayer && owner[target] != currentPlayer
      requires |attackRolls| == n && |defendRolls| == DefenderDice(soldiers[target])
      modifies this`soldiers, this`owner, this`players, this`numPlayers, this`lists, {owner[target], currentPlayer}`countries
      ensures Valid()
      ensures var armies := AfterLosses(old(soldiers), origin, target,
                                        Min(n, |defendRolls|) - Wins(attackRolls, defendRolls), Wins(attackRolls, defendRolls));
        && (conquered <==> armies[target] <= 0)
        && (!conquered ==>
              && soldiers == armies && owner == old(owner) && players == old(players) && lists == old(lists)
              && currentPlayer.countries == old(currentPlayer.countries)
              && old(owner[target]).countries == old(owner[target].countries))
        && (conquered ==>
              && soldiers == AfterMove(armies, origin, target, SoldiersToMove(n, armies[origin]))
              && owner == old(owner)[target := old(currentPlayer)]
              && currentPlayer.countries == old(currentPlayer.countries) + [target]
              && target in old(owner[target].countries)
              && old(owner[target]).countries == RemoveFirst(old(owner[target].countries), target)
              && players == (if old(owner[target].countries) == [target]
                             then Without(old(players), IndexOf(old(players), old(owner[target])))
                             else old(players)))
    {
      var armies := Skirmish(soldiers, origin, target, n, attackRolls, defendRolls);
      if armies[target] <= 0 {
        OwnershipAgrees(owner[target], target);
        Conquer(target, currentPlayer, AfterMove(armies, origin, target, SoldiersToMove(n, armies[origin])));
        conquered := true;
      } else {
        soldiers := armies;
        conquered := false;
      }
    }

    /** The end of `attack`: after a conquest, and only the first of the
        round, the attacker draws a card and the round's flag is set once the
        draw has found one. */
    method Reward(p: Player, conquered: bool, reshuffle: seq<Card>) returns (status: Status)
      requires Valid() && p.HandOk() && p == currentPlayer && IsShuffleOf(reshuffle, usedCards)
      modifies this`cardDeck, this`usedCards, this`countryConqueredInRound, p`cards
      ensures Valid() && status != AssertionError
      ensures !conquered || old(countryConqueredInRound) ==>
        && status == Ok && countryConqueredInRound == old(countryConqueredInRound)
        && cardDeck == old(cardDeck) && usedCards == old(usedCards) && p.cards == old(p.cards)
      ensures conquered && !old(countryConqueredInRound) ==>
        && (status == Ok <==> Draw(old(cardDeck), old(usedCards), old(p.cards), reshuffle).found)
        && countryConqueredInRound == (status == Ok)
        && cardDeck == Draw(old(cardDeck), old(usedCards), old(p.cards), reshuffle).deck
        && usedCards == Draw(old(cardDeck), old(usedCards), old(p.cards), reshuffle).used
        && p.cards == Draw(old(cardDeck), old(usedCards), old(p.cards), reshuffle).hand
    {
      status := Ok;
      if conquered && !countryConqueredInRound {
        status := DrawCard(p, reshuffle);
        if status == Ok {
          countryConqueredInRound := true;
        }
      }
    }

    /** What `attack` does once its checks have passed: the battle for the
        sorted rolls, then on the first conquest of the round a card for the
        attacker. */
    method Engage(origin: CountryId, target: CountryId, n: int,
                  attackRolls: seq<int>, defendRolls: seq<int>, reshuffle: seq<Card>)
      returns (status: Status)
      requires Valid() && currentPlayer.HandOk() && IsShuffleOf(reshuffle, usedCards)
      requires owner[origin] == currentPlayer && owner[target] != currentPlayer
      requires |attackRolls| == n && |defendRolls| == DefenderDice(soldiers[target])
      modifies this`soldiers, this`owner, this`players, this`numPlayers, this`lists,
               {owner[target], currentPlayer}`countries
      modifies this`cardDeck, this`usedCards, this`countryConqueredInRound, currentPlayer`cards
      ensures Valid() && status != AssertionError
      ensures var armies := AfterLosses(old(soldiers), origin, target,
                                        Min(n, |defendRolls|) - Wins(attackRolls, defendRolls), Wins(attackRolls, defendRolls));
        && (armies[target] > 0 ==>
              && soldiers == armies && owner == old(owner) && players == old(players) && lists == old(lists)
              && currentPlayer.countries == old(currentPlayer.countries)
              && old(owner[target]).countries == old(owner[target].countries))
        && (armies[target] <= 0 ==>
              && soldiers == AfterMove(armies, origin, target, SoldiersToMove(n, armies[origin]))
              && owner == old(owner)[target := currentPlayer]
              && currentPlayer.countries == old(currentPlayer.countries) + [target]
              && target in old(owner[target].countries)
              && old(owner[target]).countries == RemoveFirst(old(owner[target].countries), target)
              && players == (if old(owner[target].countries) == [target]
                             then Without(old(players), IndexOf(old(players), old(owner[target])))
                             else old(players)))
        && (armies[target] > 0 || old(countryConqueredInRound) ==>
              && status == Ok && countryConqueredInRound == old(countryConqueredInRound)
              && cardDeck == old(cardDeck) && usedCards == old(usedCards) && currentPlayer.cards == old(currentPlayer.cards))
        && (armies[target] <= 0 && !old(countryConqueredInRound) ==>
              && (status == Ok <==> Draw(old(cardDeck), old(usedCards), old(currentPlayer.cards), reshuffle).found)
              && countryConqueredInRound == (status == Ok)
              && cardDeck == Draw(old(cardDeck), old(usedCards), old(currentPlayer.cards), reshuffle).deck
              && usedCards == Draw(old(cardDeck), old(usedCards), old(currentPlayer.cards), reshuffle).used
              && currentPlayer.cards == Draw(old(cardDeck), old(usedCards), old(currentPlayer.cards), reshuffle).hand)
    {
      ghost var wins := Wins(attackRolls, defendRolls);
      ghost var armies := AfterLosses(soldiers, origin, target, Min(n, |defendRolls|) - wins, wins);
      var conquered := Battle(origin, target, n, attackRolls, defendRolls);
      assert conquered <==> armies[target] <= 0;
      status := Reward(currentPlayer, conquered, reshuffle);
    }

    /** `attack(attacker, attacker_country, defender_country,
        attacking_soldiers)`, where `attackRaw` and `defendRaw` are the dice
        thrown: the checks of the source in its order, then `roll_dice` for
        both sides and `Engage`.  When the draw finds no card its
        `IndexError` leaves the round's flag unset. */
    method Attack(attacker: Player, origin: CountryId, target: CountryId, n: int,
                  attackRaw: seq<int>, defendRaw: seq<int>, reshuffle: seq<Card>)
      returns (status: Status)
      requires Valid() && attacker.HandOk() && IsShuffleOf(reshuffle, usedCards)
      requires 1 <= n <= 3 ==> |attackRaw| == n
      requires |defendRaw| == DefenderDice(soldiers[target])
      modifies this`soldiers, this`owner, this`players, this`numPlayers, this`lists,
               {owner[target], attacker}`countries
      modifies this`cardDeck, this`usedCards, this`countryConqueredInRound, attacker`cards
      ensures Valid()
      ensures status == AssertionError <==>
        !(&& attacker == currentPlayer && origin in old(attacker.countries) && target !in old(attacker.countries)
          && 1 <= n <= 3 && n <= Min(3, old(soldiers[origin]) - 1) && Adjacent(origin, target))
      ensures status == AssertionError ==>
        && soldiers == old(soldiers) && owner == old(owner) && players == old(players) && lists == old(lists)
        && attacker.countries == old(attacker.countries) && old(owner[target]).countries == old(owner[target].countries)
        && cardDeck == old(cardDeck) && usedCards == old(usedCards) && attacker.cards == old(attacker.cards)
        && countryConqueredInRound == old(countryConqueredInRound)
      ensures status != AssertionError ==>
        var wins := Wins(RollDice(attackRaw), RollDice(defendRaw));
        var armies := AfterLosses(old(soldiers), origin, target, Min(n, |defendRaw|) - wins, wins);
        && (armies[target] > 0 ==>
              && soldiers == armies && owner == old(owner) && players == old(players) && lists == old(lists)
              && attacker.countries == old(attacker.countries)
              && old(owner[target]).countries == old(owner[target].countries))
        && (armies[target] <= 0 ==>
              && soldiers == AfterMove(armies, origin, target, SoldiersToMove(n, armies[origin]))
              && owner == old(owner)[target := attacker]
              && attacker.countries == old(attacker.countries) + [target]
              && target in old(owner[target].countries)
              && old(owner[target]).countries == RemoveFirst(old(owner[target].countries), target)
              && players == (if old(owner[target].countries) == [target]
                             then Without(old(players), IndexOf(old(players), old(owner[target])))
                             else old(players)))
        && (armies[target] > 0 || old(countryConqueredInRound) ==>
              && status == Ok && countryConqueredInRound == old(countryConqueredInRound)
              && cardDeck == old(cardDeck) && usedCards == old(usedCards) && attacker.cards == old(attacker.cards))
        && (armies[target] <= 0 && !old(countryConqueredInRound) ==>
              && (status == Ok <==> Draw(old(cardDeck), old(usedCards), old(attacker.cards), reshuffle).found)
              && countryConqueredInRound == (status == Ok)
              && cardDeck == Draw(old(cardDeck), old(usedCards), old(attacker.cards), reshuffle).deck
              && usedCards == Draw(old(cardDeck), old(usedCards), old(attacker.cards), reshuffle).used
              && attacker.cards == Draw(old(cardDeck), old(usedCards), old(attacker.cards), reshuffle).hand)
    {
      if attacker != currentPlayer || origin !in attacker.countries || target in attacker.countries {
        return AssertionError;
      }
      if !(1 <= n <= 3) || !(1 <= n <= Min(3, soldiers[origin] - 1)) || !Adjacent(origin, target) {
        return AssertionError;
      }
      OwnershipAgrees(attacker, origin);
      OwnershipAgrees(attacker, target);
      var attackRolls := RollDice(attackRaw);
      var defendRolls := RollDice(defendRaw);
      ghost var wins := Wins(attackRolls, defendRolls);
      ghost var armies := AfterLosses(soldiers, origin, target, Min(n, |defendRolls|) - wins, wins);
      assert |defendRolls| == |defendRaw|;
      assert armies == AfterLosses(soldiers, origin, target, Min(n, |defendRaw|) - wins, wins);
      status := Engage(origin, target, n, attackRolls, defendRolls, reshuffle);
    }

    /** `draw_card(player)`: when the deck has run out, the used cards,
        in the order `reshuffle` the shuffle gives them, become the deck;
        then the last card of the deck goes to the player's list for its
        type, and drawing from a deck that is still empty is an
        `IndexError`.  No card is made or lost. */
    method DrawCard(p: Player, reshuffle: seq<Card>) returns (status: Status)
      requires Valid() && p.HandOk()
      requires IsShuffleOf(reshuffle, usedCards)
      modifies this`cardDeck, this`usedCards, p`cards
      ensures Valid()
      ensures status == AssertionError <==> p != currentPlayer
      ensures status == AssertionError ==>
        cardDeck == old(cardDeck) && usedCards == old(usedCards) && p.cards == old(p.cards)
      ensures status != AssertionError ==>
        && (status == Ok <==> Draw(old(cardDeck), old(usedCards), old(p.cards), reshuffle).found)
        && cardDeck == Draw(old(cardDeck), old(usedCards), old(p.cards), reshuffle).deck
        && usedCards == Draw(old(cardDeck), old(usedCards), old(p.cards), reshuffle).used
        && p.cards == Draw(old(cardDeck), old(usedCards), old(p.cards), reshuffle).hand
    {
      if p != currentPlayer {
        return AssertionError;
      }
      var r := Draw(cardDeck, usedCards, p.cards, reshuffle);
      cardDeck, usedCards := r.deck, r.used;
      p.cards := r.hand;
      status := if r.found then Ok else Status.IndexError;
    }

    /** `trade_in_cards(player, card_combination)`: the counter goes up,
        the reward for the new count joins the pool, and the loop pops one
        card of each card's type into the used cards.  Whether the
        combination is among `get_trade_in_options()` is modelled by the
        requirement that the hand hold its cards (`Holds`). */
    method TradeInCards(p: Player, combination: seq<Card>) returns (status: Status)
      requires Valid() && p.HandOk() && Holds(p.cards, combination)
      modifies this`usedCards, p`cards, p`nCardTradeIns, p`unassignedSoldiers
      ensures Valid()
      ensures status == Ok <==> p == currentPlayer
      ensures status != Ok ==>
        && usedCards == old(usedCards) && p.cards == old(p.cards)
        && p.nCardTradeIns == old(p.nCardTradeIns) && p.unassignedSoldiers == old(p.unassignedSoldiers)
      ensures status == Ok ==>
        && p.nCardTradeIns == old(p.nCardTradeIns) + 1
        && p.unassignedSoldiers == old(p.unassignedSoldiers) + TradeInRewards(old(p.nCardTradeIns) + 1)
        && p.cards == TradedHand(old(p.cards), combination)
        && usedCards == old(usedCards) + combination
    {
      if p != currentPlayer {
        return AssertionError;
      }
      p.nCardTradeIns := p.nCardTradeIns + 1;
      p.unassignedSoldiers := p.unassignedSoldiers + TradeInRewards(p.nCardTradeIns);
      var hand, played := PlayCards(p.cards, combination);
      p.cards := hand;
      usedCards := usedCards + played;
      status := Ok;
    }

    /** `fortify(player, origin_country, dest_country, n_soldiers_move)`:
        after its checks, `n` soldiers go from the origin to the
        destination.  `layout` chooses between the source's separate
        lookups of the origin and the destination among the options and the
        lookup of the pair.  There is no lower bound on `n`. */
    method Fortify(layout: Layout, p: Player, origin: CountryId, dest: CountryId, n: int) returns (status: Status)
      requires Valid() && p in players
      modifies this`soldiers
      ensures Valid()
      ensures status == Ok <==>
        && p == currentPlayer && origin in p.countries && dest in p.countries
        && n <= old(soldiers[origin])
        && FortifyAllowed(layout, FortifyOptions(Neighbors, p.countries, old(soldiers)), origin, dest)
      ensures status == Ok ==> soldiers == Fortified(old(soldiers), origin, dest, n)
      ensures status != Ok ==> soldiers == old(soldiers)
    {
      if p != currentPlayer || origin !in p.countries || dest !in p.countries || n > soldiers[origin] {
        return AssertionError;
      }
      var options := FortifyOptions(Neighbors, p.countries, soldiers);
      if !FortifyAllowed(layout, options, origin, dest) {
        return AssertionError;
      }
      soldiers := Fortified(soldiers, origin, dest, n);
      status := Ok;
    }

    /** `get_attack_options_encoded(player)` over the tables `t` that
        `__init__` built for the game's order: one slot per attack the
        player may try, and the trailing skip slot. */
    method AttackOptionsEncoded(layout: Layout, t: ActionTables, p: Player) returns (mask: array<int>)
      requires Valid() && p in players && IsOrder(order) && TablesFor(t, order)
      ensures fresh(mask) && mask.Length == t.total
      ensures forall i | 0 <= i < mask.Length ::
        mask[i] == if i == t.total - 1 || Marked(layout, t, old(p.countries), old(soldiers), i) then 1 else 0
    {
      MaskTablesFacts(t, order);
      assert forall c | c in p.countries :: c in order;
      mask := FillMask(layout, t, order, p.countries, soldiers);
    }

    /** `assign_soldiers(player, country, n)`: the soldiers leave the pool for
        the country, and the pool plus that country's count is unchanged. */
    method AssignSoldiers(p: Player, c: CountryId, n: int) returns (status: Status)
      requires Valid() && p in players
      modifies this`soldiers, p`unassignedSoldiers
      ensures Valid()
      ensures status == Ok <==> p == currentPlayer && n <= old(p.unassignedSoldiers) && c in p.countries
      ensures status == Ok ==>
        soldiers == old(soldiers)[c := old(soldiers[c]) + n] && p.unassignedSoldiers == old(p.unassignedSoldiers) - n
      ensures status != Ok ==> soldiers == old(soldiers) && p.unassignedSoldiers == old(p.unassignedSoldiers)
      ensures p.unassignedSoldiers + Sum(soldiers) == old(p.unassignedSoldiers + Sum(soldiers))
    {
      if p != currentPlayer || n > p.unassignedSoldiers || c !in p.countries {
        return AssertionError;
      }
      SumUpdate(soldiers, c, soldiers[c] + n);
      soldiers := soldiers[c := soldiers[c] + n];
      p.unassignedSoldiers := p.unassignedSoldiers - n;
      status := Ok;
    }
  }
}
