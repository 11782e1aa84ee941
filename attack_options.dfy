/** `get_attack_options` (risk/game.py:213-233): every attack the player's
    countries could make across a border, ranked so that attacks that would
    complete a continent with a troop advantage come first, then by troop
    difference.  In this revision a country's `continent` is only its label,
    so the continent an attack would complete is the set of countries that
    carry the defender's label. */
module AttackOptions {
  import opened Util
  import opened Countries
  import opened GameMap
  import opened Sorting

  /** `((country, n), (neighbor, m), will_secure_continent, troop_difference)`. */
  datatype AttackOption = AttackOption(origin: CountryId, originN: int, target: CountryId, targetN: int,
                                       secure: bool, diff: int)

  /** `((country, n), (neighbor, m))`, the entries the source returns. */
  datatype Matchup = Matchup(origin: CountryId, originN: int, target: CountryId, targetN: int)

  /** `remaining_enemy_countries`: the other countries of the target's
      continent that the player does not hold. */
  function RemainingEnemies(owned: seq<CountryId>, target: CountryId, among: seq<CountryId>): (r: seq<CountryId>)
    ensures forall x :: x in r <==>
      x in among && ContinentLabel(x) == ContinentLabel(target) && x !in owned && x != target
  {
    if among == [] then []
    else
      var x := among[0];
      (if ContinentLabel(x) == ContinentLabel(target) && x !in owned && x != target then [x] else [])
        + RemainingEnemies(owned, target, among[1..])
  }

  /** The entry for an attack from `origin` on `target`. */
  function OptionFor(owned: seq<CountryId>, soldiers: seq<int>, origin: CountryId, target: CountryId): AttackOption
    requires |soldiers| == NumCountries
  {
    var diff := soldiers[origin] - soldiers[target];
    AttackOption(origin, soldiers[origin], target, soldiers[target],
                 RemainingEnemies(owned, target, AllCountries) == [] && diff > 0, diff)
  }

  /** The inner loop over the neighbours of `origin`. */
  function OptionsOver(owned: seq<CountryId>, soldiers: seq<int>, origin: CountryId, nbrs: seq<CountryId>)
      : (r: seq<AttackOption>)
    requires |soldiers| == NumCountries
    ensures forall x :: x in r <==> exists t | t in nbrs :: t !in owned && x == OptionFor(owned, soldiers, origin, t)
  {
    if nbrs == [] then []
    else
      var t := nbrs[0];
      assert forall e | e in nbrs :: e == t || e in nbrs[1..];
      (if t !in owned then [OptionFor(owned, soldiers, origin, t)] else [])
        + OptionsOver(owned, soldiers, origin, nbrs[1..])
  }

  /** The outer loop over the player's countries, skipping those with exactly
      one soldier. */
  function OptionsFrom(g: Graph, owned: seq<CountryId>, soldiers: seq<int>, origins: seq<CountryId>)
      : (r: seq<AttackOption>)
    requires |soldiers| == NumCountries
    ensures forall x :: x in r <==> exists o | o in origins ::
      soldiers[o] != 1 && x in OptionsOver(owned, soldiers, o, g(o))
  {
    if origins == [] then []
    else
      var o := origins[0];
      assert forall e | e in origins :: e == o || e in origins[1..];
      (if soldiers[o] != 1 then OptionsOver(owned, soldiers, o, g(o)) else [])
        + OptionsFrom(g, owned, soldiers, origins[1..])
  }

  /** `options.sort(key=lambda x: (x[2], x[3]), reverse=True)`: `x` may
      stand before `y` when its key is not smaller (`False < True`). */
  predicate ThreatFirst(x: AttackOption, y: AttackOption)
  {
    (x.secure && !y.secure) || (x.secure == y.secure && x.diff >= y.diff)
  }

  function ByThreat(): (AttackOption, AttackOption) -> bool
  {
    (x: AttackOption, y: AttackOption) => ThreatFirst(x, y)
  }

  /** The ranked options, before the flags and differences are dropped. */
  function RankedAttackOptions(g: Graph, owned: seq<CountryId>, soldiers: seq<int>): seq<AttackOption>
    requires |soldiers| == NumCountries
  {
    SortBy(OptionsFrom(g, owned, soldiers, owned), ByThreat())
  }

  /** The final comprehension, which keeps the order. */
  function Strip(opts: seq<AttackOption>): (r: seq<Matchup>)
    ensures |r| == |opts|
    ensures forall i | 0 <= i < |r| ::
      r[i] == Matchup(opts[i].origin, opts[i].originN, opts[i].target, opts[i].targetN)
  {
    if opts == [] then []
    else [Matchup(opts[0].origin, opts[0].originN, opts[0].target, opts[0].targetN)] + Strip(opts[1..])
  }

  /** `get_attack_options(player)` for a player who owns `owned`. */
  function GetAttackOptions(g: Graph, owned: seq<CountryId>, soldiers: seq<int>): seq<Matchup>
    requires |soldiers| == NumCountries
  {
    Strip(RankedAttackOptions(g, owned, soldiers))
  }

  /** The player holds every country of the target's continent but the
      target. */
  ghost predicate HoldsRestOf(owned: seq<CountryId>, target: CountryId)
  {
    forall x: CountryId | ContinentLabel(x) == ContinentLabel(target) && x != target :: x in owned
  }

  /** The remaining enemies are none exactly when the player holds every
      other country of the target's continent. */
  lemma NoRemainingEnemies(owned: seq<CountryId>, target: CountryId)
    ensures RemainingEnemies(owned, target, AllCountries) == [] <==>
      HoldsRestOf(owned, target)
  {
    AllCountriesEnumerates();
    var r := RemainingEnemies(owned, target, AllCountries);
    if r != [] {
      assert r[0] in r;
    }
  }

  /** An attack is listed exactly from an owned country that does not hold
      exactly one soldier onto a neighbour the player does not hold; it
      secures a continent exactly when the player holds the rest of the
      target's continent and has more soldiers; and the list is ranked. */
  lemma RankedAttackOptionsSpec(g: Graph, owned: seq<CountryId>, soldiers: seq<int>)
    requires |soldiers| == NumCountries
    ensures forall x :: x in RankedAttackOptions(g, owned, soldiers) <==>
      && x.origin in owned && soldiers[x.origin] != 1
      && x.target in g(x.origin) && x.target !in owned
      && x == OptionFor(owned, soldiers, x.origin, x.target)
    ensures forall x | x in RankedAttackOptions(g, owned, soldiers) ::
      && x.diff == soldiers[x.origin] - soldiers[x.target]
      && (x.secure <==> x.diff > 0 && HoldsRestOf(owned, x.target))
    ensures SortedBy(RankedAttackOptions(g, owned, soldiers), ByThreat())
  {
    var cands := OptionsFrom(g, owned, soldiers, owned);
    SortByMembers(cands, ByThreat());
    assert TotalPreorder(ByThreat());
    SortBySorted(cands, ByThreat());
    forall x | x in RankedAttackOptions(g, owned, soldiers)
      ensures x.secure <==> x.diff > 0 && HoldsRestOf(owned, x.target)
    {
      NoRemainingEnemies(owned, x.target);
    }
  }
}
