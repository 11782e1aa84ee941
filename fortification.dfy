/** `get_fortify_options` and the checks of `fortify` (risk/game.py:315-372).
    A player's countries form the subgraph networkx splits into connected
    components; the model states connectivity directly as paths through the
    player's own countries and computes a component as the closure of one
    country under "add every owned neighbour". */
module Fortification {
  import opened Util
  import opened Countries
  import opened GameMap
  import opened Sorting

  // ----- connectivity through owned countries -----

  /** A walk along borders that never leaves the owned countries. */
  ghost predicate OwnedPath(g: Graph, owned: set<CountryId>, path: seq<CountryId>)
  {
    && |path| >= 1
    && (forall i | 0 <= i < |path| :: path[i] in owned)
    && (forall i | 0 <= i < |path| - 1 :: path[i + 1] in g(path[i]))
  }

  /** `a` and `b` lie in the same connected component of the subgraph
      induced by `owned`. */
  ghost predicate Linked(g: Graph, owned: set<CountryId>, a: CountryId, b: CountryId)
  {
    exists path :: OwnedPath(g, owned, path) && path[0] == a && path[|path| - 1] == b
  }

  /** `s` together with every owned country that borders a member of `s`. */
  function Grow(g: Graph, owned: set<CountryId>, s: set<CountryId>): (r: set<CountryId>)
    ensures s <= r
    ensures s <= owned ==> r <= owned
  {
    s + set n | n in owned && exists c | c in s :: n in g(c)
  }

  lemma Smaller<T>(a: set<T>, b: set<T>)
    requires a < b
    ensures |a| < |b|
  {
    assert !(b <= a);
    var x :| x in b && x !in a;
    assert a + (b - a) == b;
    assert a * (b - a) == {};
  }

  /** Grows `s` until nothing more is added. */
  function Closure(g: Graph, owned: set<CountryId>, s: set<CountryId>): (r: set<CountryId>)
    requires s <= owned
    ensures s <= r <= owned
    ensures Grow(g, owned, r) == r
    decreases |owned - s|
  {
    var s' := Grow(g, owned, s);
    if s' == s then s
    else
      Smaller(owned - s', owned - s);
      Closure(g, owned, s')
  }

  /** The countries of a list, as the node set of a subgraph. */
  function Members(s: seq<CountryId>): set<CountryId>
  {
    set x | x in s
  }

  /** The connected component of `c` in the subgraph induced by `owned`. */
  function Component(g: Graph, owned: seq<CountryId>, c: CountryId): set<CountryId>
    requires c in owned
  {
    Closure(g, Members(owned), {c})
  }

  /** One step of growth keeps every country linked to `a`. */
  lemma GrowSound(g: Graph, owned: set<CountryId>, a: CountryId, s: set<CountryId>, n: CountryId)
    requires forall x | x in s :: Linked(g, owned, a, x)
    requires n in Grow(g, owned, s)
    ensures Linked(g, owned, a, n)
  {
    if n !in s {
      var c :| c in s && n in g(c);
      var path :| OwnedPath(g, owned, path) && path[0] == a && path[|path| - 1] == c;
      var longer := path + [n];
      assert OwnedPath(g, owned, longer);
    }
  }

  lemma {:induction false} ClosureSound(g: Graph, owned: set<CountryId>, a: CountryId, s: set<CountryId>)
    requires s <= owned && forall x | x in s :: Linked(g, owned, a, x)
    ensures forall x | x in Closure(g, owned, s) :: Linked(g, owned, a, x)
    decreases |owned - s|
  {
    var s' := Grow(g, owned, s);
    if s' != s {
      forall n | n in s' ensures Linked(g, owned, a, n) {
        GrowSound(g, owned, a, s, n);
      }
      Smaller(owned - s', owned - s);
      ClosureSound(g, owned, a, s');
    }
  }

  /** A set closed under `Grow` holds the end of every owned walk that
      starts in it. */
  lemma {:induction false} ClosedHoldsPath(g: Graph, owned: set<CountryId>, r: set<CountryId>,
                                           path: seq<CountryId>, i: nat)
    requires Grow(g, owned, r) == r && OwnedPath(g, owned, path) && path[0] in r && i < |path|
    ensures path[i] in r
  {
    if i > 0 {
      ClosedHoldsPath(g, owned, r, path, i - 1);
      assert path[i] in g(path[i - 1]);
      assert path[i] in Grow(g, owned, r);
    }
  }

  /** The component of `a` is exactly the set of countries linked to it. */
  lemma ComponentIsLinked(g: Graph, owned: seq<CountryId>, a: CountryId, b: CountryId)
    requires a in owned
    ensures b in Component(g, owned, a) <==> Linked(g, Members(owned), a, b)
  {
    var o := Members(owned);
    assert OwnedPath(g, o, [a]);
    ClosureSound(g, o, a, {a});
    if Linked(g, o, a, b) {
      var path :| OwnedPath(g, o, path) && path[0] == a && path[|path| - 1] == b;
      ClosedHoldsPath(g, o, Component(g, owned, a), path, |path| - 1);
    }
  }

  // ----- troop differences -----

  /** `float('inf')` beside the integers. */
  datatype Ext = Fin(value: int) | Inf

  predicate ExtLe(a: Ext, b: Ext)
  {
    b.Inf? || (a.Fin? && a.value <= b.value)
  }

  predicate ExtLt(a: Ext, b: Ext)
  {
    ExtLe(a, b) && a != b
  }

  /** `[n for n in neighbors if n.owner != player]`. */
  function EnemiesAmong(s: seq<CountryId>, owned: seq<CountryId>): (r: seq<CountryId>)
    ensures forall n :: n in r <==> n in s && n !in owned
  {
    if s == [] then []
    else (if s[0] in owned then [] else [s[0]]) + EnemiesAmong(s[1..], owned)
  }

  /** `min(n - e.army.n_soldiers for e in enemies)`. */
  function MinDiff(n: int, enemies: seq<CountryId>, soldiers: seq<int>): (r: int)
    requires |enemies| > 0 && |soldiers| == NumCountries
    ensures forall e | e in enemies :: r <= n - soldiers[e]
    ensures exists e | e in enemies :: r == n - soldiers[e]
  {
    if |enemies| == 1 then n - soldiers[enemies[0]]
    else
      var rest := MinDiff(n, enemies[1..], soldiers);
      var here := n - soldiers[enemies[0]];
      assert forall e | e in enemies :: e == enemies[0] || e in enemies[1..];
      if here <= rest then here else rest
  }

  /** The smallest lead `c` holds over a hostile neighbour, or infinity
      when every neighbour is the player's own. */
  function TroopDiff(g: Graph, owned: seq<CountryId>, soldiers: seq<int>, c: CountryId): (r: Ext)
    requires |soldiers| == NumCountries
    ensures r.Inf? <==> forall n | n in g(c) :: n in owned
    ensures r.Fin? ==> forall e | e in g(c) && e !in owned :: r.value <= soldiers[c] - soldiers[e]
    ensures r.Fin? ==> exists e | e in g(c) && e !in owned :: r.value == soldiers[c] - soldiers[e]
  {
    var enemies := EnemiesAmong(g(c), owned);
    if enemies == [] then Inf
    else
      assert enemies[0] in enemies;
      Fin(MinDiff(soldiers[c], enemies, soldiers))
  }

  // ----- the ranked options -----

  /** `(origin, dest, origin_troop_diff, dest_troop_diff, origin_n, dest_n)`. */
  datatype FortifyOption = FortifyOption(origin: CountryId, dest: CountryId, originDiff: Ext,
                                         destDiff: Ext, originN: int, destN: int)

  /** `ranked_options.sort(key=lambda x: (x[3], -x[5], -x[2], -x[4]))`:
      `x` may stand before `y` when its key is not greater. */
  predicate KeyLe(x: FortifyOption, y: FortifyOption)
  {
    || ExtLt(x.destDiff, y.destDiff)
    || (x.destDiff == y.destDiff
        && (x.destN > y.destN
            || (x.destN == y.destN
                && (ExtLt(y.originDiff, x.originDiff)
                    || (x.originDiff == y.originDiff && x.originN >= y.originN)))))
  }

  function ByKey(): (FortifyOption, FortifyOption) -> bool
  {
    (x: FortifyOption, y: FortifyOption) => KeyLe(x, y)
  }

  lemma ByKeyTotal()
    ensures TotalPreorder(ByKey())
  {}

  /** The option for `origin` and `dest` as the source builds its tuple. */
  function OptionFor(g: Graph, owned: seq<CountryId>, soldiers: seq<int>, origin: CountryId, dest: CountryId): FortifyOption
    requires |soldiers| == NumCountries
  {
    FortifyOption(origin, dest, TroopDiff(g, owned, soldiers, origin), TroopDiff(g, owned, soldiers, dest),
                  soldiers[origin], soldiers[dest])
  }

  /** The inner loop: one option for each country of `dests` in the
      component of `origin`, other than `origin` itself. */
  function OptionsTo(g: Graph, owned: seq<CountryId>, soldiers: seq<int>, origin: CountryId, dests: seq<CountryId>)
      : (r: seq<FortifyOption>)
    requires |soldiers| == NumCountries && origin in owned
    ensures forall x :: x in r <==> exists d | d in dests ::
      d != origin && d in Component(g, owned, origin) && x == OptionFor(g, owned, soldiers, origin, d)
  {
    if dests == [] then []
    else
      var d := dests[0];
      var rest := OptionsTo(g, owned, soldiers, origin, dests[1..]);
      assert forall e | e in dests :: e == d || e in dests[1..];
      (if d != origin && d in Component(g, owned, origin) then [OptionFor(g, owned, soldiers, origin, d)] else [])
        + rest
  }

  /** The outer loop over the origins, skipping those with fewer than two
      soldiers. */
  function OptionsFrom(g: Graph, owned: seq<CountryId>, soldiers: seq<int>, origins: seq<CountryId>)
      : (r: seq<FortifyOption>)
    requires |soldiers| == NumCountries && forall o | o in origins :: o in owned
    ensures forall x :: x in r <==> exists o | o in origins ::
      soldiers[o] >= 2 && x in OptionsTo(g, owned, soldiers, o, owned)
  {
    if origins == [] then []
    else
      var o := origins[0];
      var rest := OptionsFrom(g, owned, soldiers, origins[1..]);
      assert forall e | e in origins :: e == o || e in origins[1..];
      (if soldiers[o] >= 2 then OptionsTo(g, owned, soldiers, o, owned) else []) + rest
  }

  /** `get_fortify_options(player)` for a player who owns `owned`. */
  function FortifyOptions(g: Graph, owned: seq<CountryId>, soldiers: seq<int>): seq<FortifyOption>
    requires |soldiers| == NumCountries
  {
    SortBy(OptionsFrom(g, owned, soldiers, owned), ByKey())
  }

  /** An option is listed exactly for two different countries of the same
      component whose origin holds at least two soldiers, with the troop
      differences and counts of those two countries; and the list is ranked
      by the key. */
  lemma FortifyOptionsSpec(g: Graph, owned: seq<CountryId>, soldiers: seq<int>)
    requires |soldiers| == NumCountries
    ensures forall x :: x in FortifyOptions(g, owned, soldiers) <==>
      && x.origin in owned && x.dest in owned && x.origin != x.dest
      && soldiers[x.origin] >= 2
      && Linked(g, Members(owned), x.origin, x.dest)
      && x == OptionFor(g, owned, soldiers, x.origin, x.dest)
    ensures SortedBy(FortifyOptions(g, owned, soldiers), ByKey())
  {
    var cands := OptionsFrom(g, owned, soldiers, owned);
    SortByMembers(cands, ByKey());
    ByKeyTotal();
    SortBySorted(cands, ByKey());
    forall x ensures x in cands <==>
      && x.origin in owned && x.dest in owned && x.origin != x.dest
      && soldiers[x.origin] >= 2
      && Linked(g, Members(owned), x.origin, x.dest)
      && x == OptionFor(g, owned, soldiers, x.origin, x.dest)
    {
      if x.origin in owned {
        ComponentIsLinked(g, owned, x.origin, x.dest);
      }
    }
  }

  // ----- the checks of `fortify` -----

  /** `origin in [x[0] for x in opts] and dest in [x[1] for x in opts]`: the
      two countries are looked up separately. */
  predicate AllowedAsWritten(opts: seq<FortifyOption>, origin: CountryId, dest: CountryId)
  {
    (exists x | x in opts :: x.origin == origin) && (exists x | x in opts :: x.dest == dest)
  }

  /** The pair itself is one of the options. */
  predicate AllowedCorrected(opts: seq<FortifyOption>, origin: CountryId, dest: CountryId)
  {
    exists x | x in opts :: x.origin == origin && x.dest == dest
  }

  /** The pair check accepts a move exactly between two different countries
      of one component whose origin holds at least two soldiers. */
  lemma CorrectedAllowsConnected(g: Graph, owned: seq<CountryId>, soldiers: seq<int>, origin: CountryId, dest: CountryId)
    requires |soldiers| == NumCountries
    ensures AllowedCorrected(FortifyOptions(g, owned, soldiers), origin, dest) <==>
      && origin in owned && dest in owned && origin != dest && soldiers[origin] >= 2
      && Linked(g, Members(owned), origin, dest)
  {
    FortifyOptionsSpec(g, owned, soldiers);
    if origin in owned && dest in owned && origin != dest && soldiers[origin] >= 2
       && Linked(g, Members(owned), origin, dest) {
      OptionListed(g, owned, soldiers, origin, dest);
    }
  }

  /** A player holding Alaska and the Northwest Territory in one corner of
      the map and Indonesia and New Guinea in another, with two soldiers or
      more in Alaska and Indonesia: the separate lookups accept moving
      soldiers from Alaska to New Guinea, which no owned path joins. */
  lemma AsWrittenAllowsDisconnected(soldiers: seq<int>)
    requires |soldiers| == NumCountries && soldiers[Alaska] >= 2 && soldiers[Indonesia] >= 2
    ensures var owned := [Alaska, NorthwestTerritory, Indonesia, NewGuinea];
      && AllowedAsWritten(FortifyOptions(Neighbors, owned, soldiers), Alaska, NewGuinea)
      && !Linked(Neighbors, Members(owned), Alaska, NewGuinea)
  {
    AlaskaBorders();
    NorthwestBorders();
    IndonesiaBorders();
    DisconnectedIn(Neighbors, soldiers);
  }

  lemma DisconnectedIn(g: Graph, soldiers: seq<int>)
    requires |soldiers| == NumCountries && soldiers[Alaska] >= 2 && soldiers[Indonesia] >= 2
    requires g(Alaska) == [NorthwestTerritory, Alberta, Kamchatka]
    requires g(NorthwestTerritory) == [Alaska, Alberta, Ontario, Greenland]
    requires g(Indonesia) == [Siam, NewGuinea, WesternAustralia]
    ensures var owned := [Alaska, NorthwestTerritory, Indonesia, NewGuinea];
      && AllowedAsWritten(FortifyOptions(g, owned, soldiers), Alaska, NewGuinea)
      && !Linked(g, Members(owned), Alaska, NewGuinea)
  {
    var owned := [Alaska, NorthwestTerritory, Indonesia, NewGuinea];
    var o := Members(owned);
    assert OwnedPath(g, o, [Alaska, NorthwestTerritory]);
    OptionListed(g, owned, soldiers, Alaska, NorthwestTerritory);
    assert OwnedPath(g, o, [Indonesia, NewGuinea]);
    OptionListed(g, owned, soldiers, Indonesia, NewGuinea);
    var north := {Alaska, NorthwestTerritory};
    NorthCornerClosed(g, o, north);
    if Linked(g, o, Alaska, NewGuinea) {
      var path :| OwnedPath(g, o, path) && path[0] == Alaska && path[|path| - 1] == NewGuinea;
      ClosedHoldsPath(g, o, north, path, |path| - 1);
    }
  }

  /** Two linked countries of which the origin holds two soldiers or more
      appear as an option. */
  lemma OptionListed(g: Graph, owned: seq<CountryId>, soldiers: seq<int>, origin: CountryId, dest: CountryId)
    requires |soldiers| == NumCountries
    requires origin in owned && dest in owned && origin != dest && soldiers[origin] >= 2
    requires Linked(g, Members(owned), origin, dest)
    ensures exists x | x in FortifyOptions(g, owned, soldiers) :: x.origin == origin && x.dest == dest
  {
    FortifyOptionsSpec(g, owned, soldiers);
    assert OptionFor(g, owned, soldiers, origin, dest) in FortifyOptions(g, owned, soldiers);
  }

  lemma NorthCornerClosed(g: Graph, o: set<CountryId>, north: set<CountryId>)
    requires g(Alaska) == [NorthwestTerritory, Alberta, Kamchatka]
    requires g(NorthwestTerritory) == [Alaska, Alberta, Ontario, Greenland]
    requires o == {Alaska, NorthwestTerritory, Indonesia, NewGuinea} && north == {Alaska, NorthwestTerritory}
    ensures Grow(g, o, north) == north
  {
    forall n | n in o && exists c | c in north :: n in g(c) ensures n in north {
      var c :| c in north && n in g(c);
    }
  }
}
