/** The flat attack action space of risk/game.py: every country owns three
    consecutive slots per neighbour (attack that neighbour with 1, 2 or 3
    soldiers), the blocks follow the order of `COUNTRIES` after its shuffle,
    and one trailing slot means "skip".  `Game.__init__` builds the tables
    (lines 58-68), `decode_attack_option` reads an index back (lines
    104-117) and `get_attack_options_encoded` marks the legal slots (lines
    83-102). */
module ActionSpace {
  import opened Util
  import opened Countries
  import opened GameMap

  /** `COUNTRIES` after `random.shuffle`: every country once. */
  predicate IsOrder(order: seq<CountryId>)
  {
    |order| == NumCountries && NoDup(order) && forall c: CountryId :: c in order
  }

  /** A shuffled order is a rearrangement of `COUNTRIES`, and every
      rearrangement is a shuffled order. */
  lemma OrderFacts(order: seq<CountryId>)
    ensures IsOrder(order) <==> multiset(order) == multiset(AllCountries)
  {
    AllCountriesEnumerates();
    if IsOrder(order) {
      NoDupSameMembers(order, AllCountries);
    }
    if multiset(order) == multiset(AllCountries) {
      PermutationKeepsNoDup(AllCountries, order);
    }
  }

  /** `border_map`: the neighbour list of each country. */
  type BorderMap = map<CountryId, seq<CountryId>>

  /** `{c: list(game_map.neighbors(c)) for c in COUNTRIES}`. */
  function BorderMapOf(order: seq<CountryId>): (bm: BorderMap)
    ensures forall c :: c in bm <==> c in order
    ensures forall c | c in bm :: bm[c] == Neighbors(c)
  {
    map c | c in order :: Neighbors(c)
  }

  /** Every country of `order` has a list in `bm`. */
  predicate Keyed(bm: BorderMap, order: seq<CountryId>)
  {
    forall c | c in order :: c in bm
  }

  /** ... and no list is empty. */
  predicate Listed(bm: BorderMap, order: seq<CountryId>)
  {
    forall c | c in order :: c in bm && |bm[c]| > 0
  }

  /** Where the block of `order[i]` starts: three slots for each neighbour of
      the countries before it. */
  function Offset(bm: BorderMap, order: seq<CountryId>, i: nat): int
    requires i <= |order| && Keyed(bm, order)
  {
    if i == 0 then 0 else Offset(bm, order, i - 1) + 3 * |bm[order[i - 1]]|
  }

  /** The tables `__init__` builds: `border_map`, `attack_options_offset_vals`,
      `attack_options_offset_map`, its inverse `attack_options_offset_map_rev`
      and `total_attack_options_cnt`. */
  datatype ActionTables = ActionTables(
    borderMap: BorderMap,
    offsetVals: seq<int>,
    offsetMap: map<CountryId, int>,
    offsetMapRev: map<int, CountryId>,
    total: int)

  /** `attack_options_offset_vals` lists the offsets of `order` over the
      border map, and the total counts their blocks and the skip slot. */
  ghost predicate ValsFor(t: ActionTables, order: seq<CountryId>)
  {
    && Keyed(t.borderMap, order)
    && |t.offsetVals| == |order|
    && (forall i {:trigger t.offsetVals[i]} | 0 <= i < |order| :: t.offsetVals[i] == Offset(t.borderMap, order, i))
    && t.total == Offset(t.borderMap, order, |order|) + 1
  }

  /** The keys of `attack_options_offset_map` are the countries and those of
      `attack_options_offset_map_rev` the offsets. */
  ghost predicate KeysFor(t: ActionTables, order: seq<CountryId>)
  {
    && (forall c :: c in t.offsetMap <==> c in order)
    && (forall v :: v in t.offsetMapRev <==> v in t.offsetVals)
  }

  /** `attack_options_offset_map` sends each country to its offset, and
      `attack_options_offset_map_rev` sends the offsets back. */
  ghost predicate MapsFor(t: ActionTables, order: seq<CountryId>)
    requires |t.offsetVals| == |order|
  {
    && (forall i {:trigger t.offsetMap[order[i]]} {:trigger order[i] in t.offsetMap} | 0 <= i < |order| ::
          order[i] in t.offsetMap && t.offsetMap[order[i]] == t.offsetVals[i])
    && (forall i {:trigger t.offsetMapRev[t.offsetVals[i]]} {:trigger t.offsetVals[i] in t.offsetMapRev} | 0 <= i < |order| ::
          t.offsetVals[i] in t.offsetMapRev && t.offsetMapRev[t.offsetVals[i]] == order[i])
  }

  /** The offset tables of `t` hold the offsets of `order` over its border
      map. */
  ghost predicate OffsetTables(t: ActionTables, order: seq<CountryId>)
  {
    ValsFor(t, order) && KeysFor(t, order) && MapsFor(t, order)
  }

  /** The tables `__init__` builds for the shuffled `order`. */
  ghost predicate TablesFor(t: ActionTables, order: seq<CountryId>)
  {
    t.borderMap == BorderMapOf(order) && OffsetTables(t, order)
  }

  /** Every block is at least three slots wide, so the offsets strictly
      increase along the order. */
  lemma {:induction false} OffsetsIncrease(bm: BorderMap, order: seq<CountryId>, i: nat, j: nat)
    requires Listed(bm, order) && i < j <= |order|
    ensures Offset(bm, order, i) + 3 * |bm[order[i]]| <= Offset(bm, order, j)
    decreases j
  {
    if i + 1 < j {
      OffsetsIncrease(bm, order, i, j - 1);
    }
  }

  lemma OffsetBounds(bm: BorderMap, order: seq<CountryId>, i: nat)
    requires Listed(bm, order) && i <= |order|
    ensures 0 <= Offset(bm, order, i) <= Offset(bm, order, |order|)
  {
    if i < |order| {
      OffsetsIncrease(bm, order, i, |order|);
    }
    if 0 < i {
      OffsetsIncrease(bm, order, 0, i);
    }
  }

  /** `__init__`'s table setup on the shuffled order. */
  method BuildTables(order: seq<CountryId>) returns (t: ActionTables)
    requires IsOrder(order)
    ensures TablesFor(t, order)
  {
    OrderFacts(order);
    var bm := BorderMapOf(order);
    DegreeBounds();
    t := BuildOffsets(bm, order);
  }

  /** The loop of `__init__` that assigns each country its offset, then the
      dict comprehension that inverts the offset map. */
  method BuildOffsets(bm: BorderMap, order: seq<CountryId>) returns (t: ActionTables)
    requires NoDup(order) && Listed(bm, order)
    ensures t.borderMap == bm && OffsetTables(t, order)
  {
    var offset := 0;
    var vals: seq<int> := [];
    var offsetMap: map<CountryId, int> := map[];
    var i := 0;
    while i < |order|
      invariant 0 <= i <= |order|
      invariant offset == Offset(bm, order, i)
      invariant |vals| == i
      invariant forall j {:trigger vals[j]} | 0 <= j < i :: vals[j] == Offset(bm, order, j)
      invariant offsetMap == OffsetMapOf(bm, order, i)
    {
      var c := order[i];
      offsetMap := offsetMap[c := offset];
      vals := vals + [offset];
      offset := offset + 3 * |bm[c]|;
      i := i + 1;
    }
    FinishedTables(bm, order, vals, offset);
    t := ActionTables(bm, vals, offsetMap, Invert(offsetMap), offset + 1);
  }

  /** What the loop leaves behind, with the inverted map and the final
      count, makes up the offset tables of `order`. */
  lemma FinishedTables(bm: BorderMap, order: seq<CountryId>, vals: seq<int>, offset: int)
    requires NoDup(order) && Listed(bm, order)
    requires |vals| == |order| && forall j | 0 <= j < |order| :: vals[j] == Offset(bm, order, j)
    requires offset == Offset(bm, order, |order|)
    ensures Injective(OffsetMapOf(bm, order, |order|))
    ensures var m := OffsetMapOf(bm, order, |order|);
      OffsetTables(ActionTables(bm, vals, m, Invert(m), offset + 1), order)
  {
    var m := OffsetMapOf(bm, order, |order|);
    OffsetMapOfKeys(bm, order, |order|);
    forall j | 0 <= j < |order| ensures order[j] in m && m[order[j]] == Offset(bm, order, j) {
      OffsetMapOfAt(bm, order, |order|, j);
    }
    forall c | c in order ensures c in m {
      var j :| 0 <= j < |order| && order[j] == c;
    }
    OffsetMapInjective(bm, order, m);
    InvertedTables(order, ActionTables(bm, vals, m, Invert(m), offset + 1));
  }

  /** `attack_options_offset_map` after the first `i` turns of the loop. */
  function OffsetMapOf(bm: BorderMap, order: seq<CountryId>, i: nat): map<CountryId, int>
    requires i <= |order| && Keyed(bm, order)
  {
    if i == 0 then map[] else OffsetMapOf(bm, order, i - 1)[order[i - 1] := Offset(bm, order, i - 1)]
  }

  /** After `i` turns the map holds only countries of the order. */
  lemma {:induction false} OffsetMapOfKeys(bm: BorderMap, order: seq<CountryId>, i: nat)
    requires i <= |order| && Keyed(bm, order)
    ensures forall c | c in OffsetMapOf(bm, order, i) :: c in order
  {
    if i > 0 {
      OffsetMapOfKeys(bm, order, i - 1);
    }
  }

  /** After `i` turns each of the first `i` countries of the order is in the
      map, at the start of its block. */
  lemma {:induction false} OffsetMapOfAt(bm: BorderMap, order: seq<CountryId>, i: nat, j: nat)
    requires j < i <= |order| && NoDup(order) && Keyed(bm, order)
    ensures order[j] in OffsetMapOf(bm, order, i)
    ensures OffsetMapOf(bm, order, i)[order[j]] == Offset(bm, order, j)
  {
    if j < i - 1 {
      OffsetMapOfAt(bm, order, i - 1, j);
      assert order[j] != order[i - 1];
    }
  }

  /** Distinct countries get distinct offsets. */
  lemma OffsetMapInjective(bm: BorderMap, order: seq<CountryId>, m: map<CountryId, int>)
    requires NoDup(order) && Listed(bm, order)
    requires forall c :: c in m <==> c in order
    requires forall j | 0 <= j < |order| :: m[order[j]] == Offset(bm, order, j)
    ensures Injective(m)
  {
    forall c, d | c in m && d in m && c != d ensures m[c] != m[d] {
      var i, j := IndexOf(order, c), IndexOf(order, d);
      if i < j {
        OffsetsIncrease(bm, order, i, j);
      } else {
        OffsetsIncrease(bm, order, j, i);
      }
    }
  }

  /** What the loop leaves behind, together with the inverted map, makes up
      the offset tables of `order`. */
  lemma InvertedTables(order: seq<CountryId>, t: ActionTables)
    requires NoDup(order) && Keyed(t.borderMap, order)
    requires |t.offsetVals| == |order|
    requires forall j | 0 <= j < |order| :: t.offsetVals[j] == Offset(t.borderMap, order, j)
    requires forall c :: c in t.offsetMap <==> c in order
    requires forall j | 0 <= j < |order| :: t.offsetMap[order[j]] == Offset(t.borderMap, order, j)
    requires Injective(t.offsetMap) && t.offsetMapRev == Invert(t.offsetMap)
    requires t.total == Offset(t.borderMap, order, |order|) + 1
    ensures OffsetTables(t, order)
  {
    RevKeys(order, t.offsetVals, t.offsetMap);
    forall i | 0 <= i < |order|
      ensures t.offsetMapRev[Offset(t.borderMap, order, i)] == order[i]
    {
      assert t.offsetMap[order[i]] == Offset(t.borderMap, order, i);
    }
  }

  /** The keys of the inverted map are the offsets. */
  lemma RevKeys(order: seq<CountryId>, vals: seq<int>, m: map<CountryId, int>)
    requires NoDup(order) && |vals| == |order|
    requires forall c :: c in m <==> c in order
    requires forall j | 0 <= j < |order| :: m[order[j]] == vals[j]
    requires Injective(m)
    ensures forall v :: v in Invert(m) <==> v in vals
  {
    forall v ensures v in m.Values <==> v in vals {
      if v in vals {
        var j :| 0 <= j < |vals| && vals[j] == v;
        assert m[order[j]] == v;
      }
      if v in m.Values {
        var c :| c in m && m[c] == v;
        assert vals[IndexOf(order, c)] == v;
      }
    }
  }

  /** Over the real border map an offset is three times the degree sum of
      the countries before it. */
  lemma {:induction false} OffsetIsDegreeSum(order: seq<CountryId>, i: nat)
    requires i <= |order|
    ensures Offset(BorderMapOf(order), order, i) == 3 * DegreeSum(order[..i])
  {
    if i > 0 {
      OffsetIsDegreeSum(order, i - 1);
      assert order[..i][..i - 1] == order[..i - 1];
    }
  }

  lemma DegreeSumPermutation(order: seq<CountryId>)
    requires IsOrder(order)
    ensures DegreeSum(order) == 164
  {
    OrderFacts(order);
    SumOfPermutation(order, AllCountries, Degree);
    TotalDegree();
  }

  /** The total does not depend on the shuffle: 3 * 164 + 1 = 493 actions. */
  lemma TotalActions(t: ActionTables, order: seq<CountryId>)
    requires IsOrder(order) && TablesFor(t, order)
    ensures t.total == 493
  {
    OffsetIsDegreeSum(order, |order|);
    assert order[..|order|] == order;
    DegreeSumPermutation(order);
  }

  // ----- decode_attack_option -----

  predicate Sorted(a: seq<int>)
  {
    forall i, j | 0 <= i <= j < |a| :: a[i] <= a[j]
  }

  /** `bisect.bisect_right(a, x, lo, hi)`: Python's binary search for the
      first position whose element exceeds `x`. */
  function BisectRight(a: seq<int>, x: int, lo: int, hi: int): (r: int)
    requires 0 <= lo <= hi <= |a|
    ensures lo <= r <= hi
    ensures Sorted(a) ==> (forall j | lo <= j < r :: a[j] <= x) && (forall j | r <= j < hi :: x < a[j])
    decreases hi - lo
  {
    if lo < hi then
      var mid := (lo + hi) / 2;
      if x < a[mid] then BisectRight(a, x, lo, mid) else BisectRight(a, x, mid + 1, hi)
    else
      lo
  }

  /** `s[i]` under Python's indexing, where a negative index counts from the
      end; `None` stands for the `IndexError`. */
  function PyIndex<T>(s: seq<T>, i: int): (r: Option<T>)
    ensures r.Some? <==> -|s| <= i < |s|
  {
    if 0 <= i < |s| then Some(s[i])
    else if -|s| <= i < 0 then Some(s[|s| + i])
    else None
  }

  /** What `decode_attack_option` returns: `(None, None, -1)` for the skip
      slot, an attack, or the exception it raises. */
  datatype Decoded =
    | Skip
    | Attack(origin: CountryId, defender: CountryId, nSoldiers: int)
    | IndexError
    | KeyError

  /** `decode_attack_option(idx)`. Python's `//` and `%` by 3 floor, as
      Dafny's `/` and `%` do for a positive divisor. */
  function Decode(t: ActionTables, idx: int): (r: Decoded)
    ensures r.Attack? ==> 1 <= r.nSoldiers <= 3
  {
    if idx == t.total - 1 then Skip
    else
      var pos := BisectRight(t.offsetVals, idx, 0, |t.offsetVals|);
      match PyIndex(t.offsetVals, pos - 1)
      case None => IndexError
      case Some(countryOffset) =>
        var diff := idx - countryOffset;
        if countryOffset !in t.offsetMapRev then KeyError
        else
          var attacker := t.offsetMapRev[countryOffset];
          if attacker !in t.borderMap then KeyError
          else
            match PyIndex(t.borderMap[attacker], diff / 3)
            case None => IndexError
            case Some(defender) => Attack(attacker, defender, diff % 3 + 1)
  }

  /** The slot that stands for "attack the `k`-th neighbour of `c` with `n`
      soldiers": the layout `decode_attack_option` reads. */
  function SlotOf(t: ActionTables, c: CountryId, k: int, n: int): int
    requires c in t.offsetMap
  {
    t.offsetMap[c] + 3 * k + (n - 1)
  }

  lemma ValsSorted(t: ActionTables, order: seq<CountryId>)
    requires Listed(t.borderMap, order) && ValsFor(t, order)
    ensures Sorted(t.offsetVals)
  {
    forall i, j | 0 <= i <= j < |t.offsetVals| ensures t.offsetVals[i] <= t.offsetVals[j] {
      if i < j {
        OffsetsIncrease(t.borderMap, order, i, j);
      }
    }
  }

  /** `bisect_right` finds the block an index in range falls in. */
  lemma BlockOf(t: ActionTables, order: seq<CountryId>, idx: int)
    requires Listed(t.borderMap, order) && ValsFor(t, order)
    requires 0 <= idx < t.total - 1
    ensures var pos := BisectRight(t.offsetVals, idx, 0, |t.offsetVals|);
      && 1 <= pos <= |order|
      && Offset(t.borderMap, order, pos - 1) <= idx
      && idx < Offset(t.borderMap, order, pos - 1) + 3 * |t.borderMap[order[pos - 1]]|
  {
    ValsSorted(t, order);
    var pos := BisectRight(t.offsetVals, idx, 0, |t.offsetVals|);
    assert 0 < |order|;
    assert t.offsetVals[0] == 0;
    assert t.offsetVals[pos - 1] == Offset(t.borderMap, order, pos - 1);
    assert idx < Offset(t.borderMap, order, pos) by {
      if pos < |order| {
        assert idx < t.offsetVals[pos];
      }
    }
  }

  /** Every index below the skip slot decodes to an attack on a listed
      neighbour, and it is the slot of that attack. */
  lemma DecodeInBlock(t: ActionTables, order: seq<CountryId>, idx: int)
    requires Listed(t.borderMap, order) && ValsFor(t, order) && MapsFor(t, order)
    requires 0 <= idx < t.total - 1
    ensures var r := Decode(t, idx);
      && r.Attack? && r.origin in order && r.origin in t.offsetMap
      && var k := (idx - t.offsetMap[r.origin]) / 3;
      && 0 <= k < |t.borderMap[r.origin]| && r.defender == t.borderMap[r.origin][k]
      && SlotOf(t, r.origin, k, r.nSoldiers) == idx
  {
    BlockOf(t, order, idx);
    var pos := BisectRight(t.offsetVals, idx, 0, |t.offsetVals|);
    var c := order[pos - 1];
    assert t.offsetMapRev[t.offsetVals[pos - 1]] == c;
    assert t.offsetMap[order[pos - 1]] == t.offsetVals[pos - 1];
  }

  /** The slot of every attack on a listed neighbour decodes back to it. */
  lemma EncodeDecodeGeneric(t: ActionTables, order: seq<CountryId>, i: nat, k: int, n: int)
    requires NoDup(order) && Listed(t.borderMap, order) && ValsFor(t, order) && MapsFor(t, order)
    requires i < |order| && 0 <= k < |t.borderMap[order[i]]| && 1 <= n <= 3
    ensures order[i] in t.offsetMap && t.offsetMap[order[i]] == t.offsetVals[i]
    ensures 0 <= SlotOf(t, order[i], k, n) < t.total - 1
    ensures Decode(t, SlotOf(t, order[i], k, n)) == Attack(order[i], t.borderMap[order[i]][k], n)
  {
    var c := order[i];
    var idx := SlotOf(t, c, k, n);
    assert t.offsetMap[order[i]] == t.offsetVals[i];
    OffsetBounds(t.borderMap, order, i);
    OffsetsIncrease(t.borderMap, order, i, |order|);
    DecodeInBlock(t, order, idx);
    BlockOf(t, order, idx);
    var j := BisectRight(t.offsetVals, idx, 0, |t.offsetVals|) - 1;
    if j < i {
      OffsetsIncrease(t.borderMap, order, j, i);
    } else if i < j {
      OffsetsIncrease(t.borderMap, order, i, j);
    }
    assert j == i;
  }

  /** An index past the skip slot runs off the end of the last block's
      neighbour list. */
  lemma DecodeAbove(t: ActionTables, order: seq<CountryId>, idx: int)
    requires Listed(t.borderMap, order) && ValsFor(t, order) && MapsFor(t, order)
    requires 0 < |order| && idx >= t.total
    ensures Decode(t, idx) == IndexError
  {
    var n := |order|;
    ValsSorted(t, order);
    OffsetBounds(t.borderMap, order, n - 1);
    assert t.offsetVals[n - 1] == Offset(t.borderMap, order, n - 1);
    assert t.offsetMapRev[t.offsetVals[n - 1]] == order[n - 1];
  }

  lemma {:induction false} OffsetAtLeast(bm: BorderMap, order: seq<CountryId>, i: nat)
    requires Listed(bm, order) && i <= |order|
    ensures Offset(bm, order, i) >= 3 * i
  {
    if i > 0 {
      OffsetAtLeast(bm, order, i - 1);
    }
  }

  /** A negative index makes `bisect_right` return 0, so the source reads the
      last offset through Python's index -1 and then a neighbour index far
      below the start of the list. */
  lemma DecodeBelow(t: ActionTables, order: seq<CountryId>, idx: int)
    requires Listed(t.borderMap, order) && ValsFor(t, order) && MapsFor(t, order)
    requires 0 < |order| && idx < 0
    requires Offset(t.borderMap, order, |order| - 1) >= 3 * |t.borderMap[order[|order| - 1]]|
    ensures Decode(t, idx) == IndexError
  {
    var n := |order|;
    ValsSorted(t, order);
    OffsetBounds(t.borderMap, order, n - 1);
    assert t.offsetVals[0] == 0;
    assert t.offsetVals[n - 1] == Offset(t.borderMap, order, n - 1);
    assert t.offsetMapRev[t.offsetVals[n - 1]] == order[n - 1];
  }

  // ----- the tables `__init__` builds -----

  /** The facts the decode lemmas draw on. */
  lemma TablesFacts(t: ActionTables, order: seq<CountryId>)
    requires IsOrder(order) && TablesFor(t, order)
    ensures |order| == NumCountries && NoDup(order) && forall c: CountryId :: c in order
    ensures forall c: CountryId :: c in t.borderMap && t.borderMap[c] == Neighbors(c)
    ensures Listed(t.borderMap, order) && ValsFor(t, order) && MapsFor(t, order)
    ensures t.total >= 1
  {
    OrderFacts(order);
    BorderMapFacts(order);
    OffsetBounds(t.borderMap, order, |order|);
  }

  /** Over a shuffled order the border map has every country, with its
      neighbours, and no empty list. */
  lemma BorderMapFacts(order: seq<CountryId>)
    requires forall c: CountryId :: c in order
    ensures forall c: CountryId :: c in BorderMapOf(order) && BorderMapOf(order)[c] == Neighbors(c)
    ensures Listed(BorderMapOf(order), order)
  {
    DegreeBounds();
  }

  /** `decode_attack_option(total - 1)` is the skip action, and an index
      outside `0 .. total - 1` raises `IndexError` (a negative one too,
      although Python would accept it as an index into the numpy mask). */
  lemma DecodeEnds(t: ActionTables, order: seq<CountryId>, idx: int)
    requires IsOrder(order) && TablesFor(t, order)
    ensures Decode(t, t.total - 1) == Skip
    ensures idx < 0 || idx >= t.total ==> Decode(t, idx) == IndexError
  {
    TablesFacts(t, order);
    if idx >= t.total {
      DecodeAbove(t, order, idx);
    } else if idx < 0 {
      var last := order[|order| - 1];
      OffsetAtLeast(t.borderMap, order, |order| - 1);
      DegreeBounds();
      assert |t.borderMap[last]| <= 6;
      DecodeBelow(t, order, idx);
    }
  }

  /** The slot of "attack the `k`-th neighbour of `c` with `n` soldiers" lies
      below the skip slot and decodes to exactly that attack. */
  lemma EncodeDecode(t: ActionTables, order: seq<CountryId>, c: CountryId, k: int, n: int)
    requires IsOrder(order) && TablesFor(t, order)
    requires 0 <= k < |Neighbors(c)| && 1 <= n <= 3
    ensures c in t.offsetMap
    ensures 0 <= SlotOf(t, c, k, n) < t.total - 1
    ensures Decode(t, SlotOf(t, c, k, n)) == Attack(c, Neighbors(c)[k], n)
  {
    TablesFacts(t, order);
    EncodeDecodeGeneric(t, order, IndexOf(order, c), k, n);
  }

  /** Every index below the skip slot decodes to an attack across a border of
      the map, with 1 to 3 soldiers, whose slot is that index. */
  lemma DecodeEncode(t: ActionTables, order: seq<CountryId>, idx: int)
    requires IsOrder(order) && TablesFor(t, order)
    requires 0 <= idx < t.total - 1
    ensures var r := Decode(t, idx);
      && r.Attack? && Adjacent(r.origin, r.defender) && 1 <= r.nSoldiers <= 3
      && r.origin in t.offsetMap
      && SlotOf(t, r.origin, IndexOf(Neighbors(r.origin), r.defender), r.nSoldiers) == idx
  {
    TablesFacts(t, order);
    NeighborsNoDup();
    DecodeEncodeGeneric(t, order, idx);
  }

  lemma DecodeEncodeGeneric(t: ActionTables, order: seq<CountryId>, idx: int)
    requires Listed(t.borderMap, order) && ValsFor(t, order) && MapsFor(t, order)
    requires forall c | c in order :: NoDup(t.borderMap[c])
    requires 0 <= idx < t.total - 1
    ensures var r := Decode(t, idx);
      && r.Attack? && r.origin in order && r.origin in t.offsetMap
      && r.defender in t.borderMap[r.origin]
      && SlotOf(t, r.origin, IndexOf(t.borderMap[r.origin], r.defender), r.nSoldiers) == idx
  {
    DecodeInBlock(t, order, idx);
    var r := Decode(t, idx);
    var k := (idx - t.offsetMap[r.origin]) / 3;
    assert t.borderMap[r.origin][k] == r.defender;
    assert IndexOf(t.borderMap[r.origin], r.defender) == k;
  }

  /** Decoding is one-to-one on the attack slots. */
  lemma DecodeInjective(t: ActionTables, order: seq<CountryId>, i: int, j: int)
    requires IsOrder(order) && TablesFor(t, order)
    requires 0 <= i < t.total - 1 && 0 <= j < t.total - 1
    ensures Decode(t, i) == Decode(t, j) <==> i == j
  {
    DecodeEncode(t, order, i);
    DecodeEncode(t, order, j);
  }

  // ----- get_attack_options_encoded -----

  /** The mask as written, or with its two defects repaired (see
      `AsWrittenMarksFriendlyTarget` and `AsWrittenMarksEmptyOrigin`). */
  datatype Layout = AsWritten | Corrected

  /** The distance between the slots of two consecutive neighbours: the
      source steps by one, `decode_attack_option` by three. */
  function Stride(layout: Layout): int
  {
    if layout == AsWritten then 1 else 3
  }

  /** The source skips a country with exactly one soldier; the corrected mask
      skips every country that cannot attack, one with fewer than two. */
  predicate Skips(layout: Layout, n: int)
  {
    if layout == AsWritten then n == 1 else n < 2
  }

  /** The pass over `c` and its `k`-th neighbour writes slot `i` as its
      `j`-th slot: `c` is owned and not skipped, the neighbour is not owned,
      and the second and third slots need more than two and three
      soldiers. */
  ghost predicate Marks(layout: Layout, t: ActionTables, owned: seq<CountryId>, soldiers: seq<int>,
                        c: CountryId, k: int, j: int, i: int)
    requires |soldiers| == NumCountries
  {
    && c in t.offsetMap && c in t.borderMap
    && !Skips(layout, soldiers[c])
    && 0 <= k < |t.borderMap[c]| && t.borderMap[c][k] !in owned
    && (j == 0 || (j == 1 && soldiers[c] > 2) || (j == 2 && soldiers[c] > 3))
    && i == t.offsetMap[c] + Stride(layout) * IndexOf(t.borderMap[c], t.borderMap[c][k]) + j
  }

  /** Slot `i` is written while visiting the countries `owned[..q]`, and the
      first `k` neighbours of `owned[q]`. */
  ghost predicate MarkedBefore(layout: Layout, t: ActionTables, owned: seq<CountryId>, soldiers: seq<int>,
                               q: int, k: int, i: int)
    requires |soldiers| == NumCountries
  {
    exists q', k', j :: 0 <= q' < |owned| && (q' < q || (q' == q && k' < k))
      && Marks(layout, t, owned, soldiers, owned[q'], k', j, i)
  }

  /** Slot `i` is written by the pass over some owned country. */
  ghost predicate Marked(layout: Layout, t: ActionTables, owned: seq<CountryId>, soldiers: seq<int>, i: int)
    requires |soldiers| == NumCountries
  {
    MarkedBefore(layout, t, owned, soldiers, |owned|, 0, i)
  }

  /** `get_attack_options_encoded(player)` for a player who owns `owned`,
      where `soldiers[c]` is the army size on `c`.  The neighbours are
      visited in the order of `border_map[c]`, which is the order
      `game_map.neighbors(c)` yields them. */
  method FillMask(layout: Layout, t: ActionTables, order: seq<CountryId>, owned: seq<CountryId>, soldiers: seq<int>)
      returns (a: array<int>)
    requires Listed(t.borderMap, order) && ValsFor(t, order) && MapsFor(t, order)
    requires forall c | c in owned :: c in order
    requires |soldiers| == NumCountries
    ensures fresh(a) && a.Length == t.total
    ensures forall i | 0 <= i < a.Length ::
      a[i] == if i == t.total - 1 || Marked(layout, t, owned, soldiers, i) then 1 else 0
  {
    OffsetBounds(t.borderMap, order, |order|);
    a := new int[t.total](i => 0);
    var q := 0;
    while q < |owned|
      invariant 0 <= q <= |owned|
      invariant forall i | 0 <= i < a.Length ::
        a[i] == if MarkedBefore(layout, t, owned, soldiers, q, 0, i) then 1 else 0
    {
      var country := owned[q];
      var n := soldiers[country];
      if !Skips(layout, n) {
        SlotInRange(layout, t, order, country, 0);
        var countryOffset := t.offsetMap[country];
        var neighbors := t.borderMap[country];
        var k := 0;
        while k < |neighbors|
          invariant 0 <= k <= |neighbors|
          invariant forall i | 0 <= i < a.Length ::
            a[i] == if MarkedBefore(layout, t, owned, soldiers, q, k, i) then 1 else 0
        {
          ghost var before := a[..];
          var border := neighbors[k];
          var base := countryOffset + Stride(layout) * IndexOf(neighbors, border);
          if border !in owned {
            SlotInRange(layout, t, order, country, IndexOf(neighbors, border));
            a[base] := 1;
            if n > 2 {
              a[base + 1] := 1;
            }
            if n > 3 {
              a[base + 2] := 1;
            }
          }
          forall i | 0 <= i < a.Length
            ensures a[i] == if MarkedBefore(layout, t, owned, soldiers, q, k + 1, i) then 1 else 0
          {
            assert a[i] == if border !in owned && (i == base || (i == base + 1 && n > 2) || (i == base + 2 && n > 3))
                           then 1 else before[i];
            MarkStep(layout, t, owned, soldiers, q, k, i);
          }
          k := k + 1;
        }
        MarkNext(layout, t, owned, soldiers, q);
      } else {
        MarkSkip(layout, t, owned, soldiers, q);
      }
      q := q + 1;
    }
    a[t.total - 1] := 1;
  }

  /** The slots the pass over `c` writes for its `k`-th neighbour lie
      inside the block of `c`, below the skip slot. */
  lemma SlotInRange(layout: Layout, t: ActionTables, order: seq<CountryId>, c: CountryId, k: int)
    requires Listed(t.borderMap, order) && ValsFor(t, order) && MapsFor(t, order)
    requires c in order && 0 <= k < |t.borderMap[c]|
    ensures c in t.offsetMap
    ensures 0 <= t.offsetMap[c] + Stride(layout) * k
    ensures t.offsetMap[c] + Stride(layout) * k + 2 < t.offsetMap[c] + 3 * |t.borderMap[c]| <= t.total - 1
  {
    var i := IndexOf(order, c);
    assert order[i] in t.offsetMap && t.offsetMap[order[i]] == t.offsetVals[i];
    OffsetBounds(t.borderMap, order, i);
    OffsetsIncrease(t.borderMap, order, i, |order|);
  }

  /** Visiting the `k`-th neighbour of `owned[q]` adds exactly the slots the
      loop body writes. */
  lemma MarkStep(layout: Layout, t: ActionTables, owned: seq<CountryId>, soldiers: seq<int>, q: int, k: int, i: int)
    requires |soldiers| == NumCountries && 0 <= q < |owned|
    requires owned[q] in t.offsetMap && owned[q] in t.borderMap
    requires !Skips(layout, soldiers[owned[q]]) && 0 <= k < |t.borderMap[owned[q]]|
    ensures var c := owned[q];
      var nbrs := t.borderMap[c];
      var base := t.offsetMap[c] + Stride(layout) * IndexOf(nbrs, nbrs[k]);
      MarkedBefore(layout, t, owned, soldiers, q, k + 1, i) <==>
        MarkedBefore(layout, t, owned, soldiers, q, k, i)
        || (nbrs[k] !in owned
            && (i == base || (i == base + 1 && soldiers[c] > 2) || (i == base + 2 && soldiers[c] > 3)))
  {
    var c := owned[q];
    var nbrs := t.borderMap[c];
    var base := t.offsetMap[c] + Stride(layout) * IndexOf(nbrs, nbrs[k]);
    if nbrs[k] !in owned && (i == base || (i == base + 1 && soldiers[c] > 2) || (i == base + 2 && soldiers[c] > 3)) {
      assert Marks(layout, t, owned, soldiers, owned[q], k, i - base, i);
    }
    if MarkedBefore(layout, t, owned, soldiers, q, k + 1, i) {
      var q', k', j :| 0 <= q' < |owned| && (q' < q || (q' == q && k' < k + 1))
        && Marks(layout, t, owned, soldiers, owned[q'], k', j, i);
      if q' < q || k' < k {
        assert MarkedBefore(layout, t, owned, soldiers, q, k, i);
      }
    }
  }

  /** Once all neighbours of `owned[q]` are visited the pass moves on. */
  lemma MarkNext(layout: Layout, t: ActionTables, owned: seq<CountryId>, soldiers: seq<int>, q: int)
    requires |soldiers| == NumCountries && 0 <= q < |owned| && owned[q] in t.borderMap
    ensures forall i :: MarkedBefore(layout, t, owned, soldiers, q, |t.borderMap[owned[q]]|, i) <==>
      MarkedBefore(layout, t, owned, soldiers, q + 1, 0, i)
  {
    forall i
      ensures MarkedBefore(layout, t, owned, soldiers, q, |t.borderMap[owned[q]]|, i) <==>
        MarkedBefore(layout, t, owned, soldiers, q + 1, 0, i)
    {
      if MarkedBefore(layout, t, owned, soldiers, q + 1, 0, i) {
        var q', k', j :| 0 <= q' < |owned| && (q' < q + 1 || (q' == q + 1 && k' < 0))
          && Marks(layout, t, owned, soldiers, owned[q'], k', j, i);
        assert MarkedBefore(layout, t, owned, soldiers, q, |t.borderMap[owned[q]]|, i);
      }
    }
  }

  /** A skipped country writes nothing. */
  lemma MarkSkip(layout: Layout, t: ActionTables, owned: seq<CountryId>, soldiers: seq<int>, q: int)
    requires |soldiers| == NumCountries && 0 <= q < |owned| && Skips(layout, soldiers[owned[q]])
    ensures forall i :: MarkedBefore(layout, t, owned, soldiers, q, 0, i) <==>
      MarkedBefore(layout, t, owned, soldiers, q + 1, 0, i)
  {
    forall i
      ensures MarkedBefore(layout, t, owned, soldiers, q, 0, i) <==>
        MarkedBefore(layout, t, owned, soldiers, q + 1, 0, i)
    {
      if MarkedBefore(layout, t, owned, soldiers, q + 1, 0, i) {
        var q', k', j :| 0 <= q' < |owned| && (q' < q + 1 || (q' == q + 1 && k' < 0))
          && Marks(layout, t, owned, soldiers, owned[q'], k', j, i);
        assert q' != q;
      }
    }
  }

  // ----- what the mask means -----

  /** The checks `attack` makes on ownership and soldier counts: the origin
      is the attacker's, the defender is not, and the attacker commits 1 to
      3 soldiers while keeping one behind. */
  predicate AttackAllowed(owned: seq<CountryId>, soldiers: seq<int>, origin: CountryId, defender: CountryId, n: int)
    requires |soldiers| == NumCountries
  {
    && origin in owned && defender !in owned
    && 1 <= n <= 3 && n <= soldiers[origin] - 1
  }

  /** Every check `attack` makes: those above, and a border between the two
      countries. */
  predicate LegalAttack(owned: seq<CountryId>, soldiers: seq<int>, origin: CountryId, defender: CountryId, n: int)
    requires |soldiers| == NumCountries
  {
    AttackAllowed(owned, soldiers, origin, defender, n) && Adjacent(origin, defender)
  }

  /** The facts about the tables the mask lemmas draw on. */
  ghost predicate MaskTables(t: ActionTables, order: seq<CountryId>)
  {
    && NoDup(order) && Listed(t.borderMap, order) && ValsFor(t, order) && MapsFor(t, order)
    && (forall c | c in order :: NoDup(t.borderMap[c]))
  }

  lemma MaskTablesFacts(t: ActionTables, order: seq<CountryId>)
    requires IsOrder(order) && TablesFor(t, order)
    ensures MaskTables(t, order) && forall c: CountryId :: c in order
    ensures forall c: CountryId :: c in t.borderMap && t.borderMap[c] == Neighbors(c)
  {
    TablesFacts(t, order);
    NeighborsNoDup();
  }

  /** A slot the pass over `c` writes, in either layout, is the slot of an
      attack from `c` on one of its listed neighbours. */
  lemma MarkDecodes(layout: Layout, t: ActionTables, order: seq<CountryId>, owned: seq<CountryId>, soldiers: seq<int>,
                    c: CountryId, k: int, j: int, i: int)
    requires MaskTables(t, order) && c in order && |soldiers| == NumCountries
    requires Marks(layout, t, owned, soldiers, c, k, j, i)
    ensures 0 <= i < t.total - 1
    ensures var m := Stride(layout) * k + j;
      0 <= m / 3 < |t.borderMap[c]| && Decode(t, i) == Attack(c, t.borderMap[c][m / 3], m % 3 + 1)
  {
    var p := IndexOf(order, c);
    assert IndexOf(t.borderMap[c], t.borderMap[c][k]) == k;
    var m := Stride(layout) * k + j;
    assert 0 <= m / 3 < |t.borderMap[c]|;
    EncodeDecodeGeneric(t, order, p, m / 3, m % 3 + 1);
    assert i == SlotOf(t, c, m / 3, m % 3 + 1);
  }

  lemma CorrectedMarkedAllowed(t: ActionTables, order: seq<CountryId>, owned: seq<CountryId>, soldiers: seq<int>, i: int)
    requires MaskTables(t, order) && (forall c | c in owned :: c in order) && |soldiers| == NumCountries
    requires Marked(Corrected, t, owned, soldiers, i)
    ensures 0 <= i < t.total - 1 && Decode(t, i).Attack?
    ensures AttackAllowed(owned, soldiers, Decode(t, i).origin, Decode(t, i).defender, Decode(t, i).nSoldiers)
  {
    var q, k, j :| 0 <= q < |owned| && (q < |owned| || (q == |owned| && k < 0))
      && Marks(Corrected, t, owned, soldiers, owned[q], k, j, i);
    MarkDecodes(Corrected, t, order, owned, soldiers, owned[q], k, j, i);
  }

  lemma AllowedCorrectedMarked(t: ActionTables, order: seq<CountryId>, owned: seq<CountryId>, soldiers: seq<int>, i: int)
    requires MaskTables(t, order) && |soldiers| == NumCountries
    requires 0 <= i < t.total - 1 && Decode(t, i).Attack?
    requires AttackAllowed(owned, soldiers, Decode(t, i).origin, Decode(t, i).defender, Decode(t, i).nSoldiers)
    ensures Marked(Corrected, t, owned, soldiers, i)
  {
    DecodeEncodeGeneric(t, order, i);
    var r := Decode(t, i);
    var k := IndexOf(t.borderMap[r.origin], r.defender);
    var q := IndexOf(owned, r.origin);
    assert Marks(Corrected, t, owned, soldiers, owned[q], k, r.nSoldiers - 1, i);
  }

  /** With the defects repaired, the mask marks a slot exactly when the slot
      decodes to a legal attack. */
  lemma CorrectedMaskIsLegal(t: ActionTables, order: seq<CountryId>, owned: seq<CountryId>, soldiers: seq<int>, i: int)
    requires IsOrder(order) && TablesFor(t, order) && |soldiers| == NumCountries
    ensures Marked(Corrected, t, owned, soldiers, i) <==>
      && 0 <= i < t.total - 1 && Decode(t, i).Attack?
      && LegalAttack(owned, soldiers, Decode(t, i).origin, Decode(t, i).defender, Decode(t, i).nSoldiers)
  {
    MaskTablesFacts(t, order);
    CorrectedMaskGeneric(t, order, owned, soldiers, i);
  }

  lemma CorrectedMaskGeneric(t: ActionTables, order: seq<CountryId>, owned: seq<CountryId>, soldiers: seq<int>, i: int)
    requires MaskTables(t, order) && (forall c: CountryId :: c in order) && |soldiers| == NumCountries
    requires forall c: CountryId :: c in t.borderMap && t.borderMap[c] == Neighbors(c)
    ensures Marked(Corrected, t, owned, soldiers, i) <==>
      && 0 <= i < t.total - 1 && Decode(t, i).Attack?
      && LegalAttack(owned, soldiers, Decode(t, i).origin, Decode(t, i).defender, Decode(t, i).nSoldiers)
  {
    if Marked(Corrected, t, owned, soldiers, i) {
      CorrectedMarkedAllowed(t, order, owned, soldiers, i);
    }
    if 0 <= i < t.total - 1 {
      DecodeEncodeGeneric(t, order, i);
      if Decode(t, i).Attack?
         && AttackAllowed(owned, soldiers, Decode(t, i).origin, Decode(t, i).defender, Decode(t, i).nSoldiers) {
        AllowedCorrectedMarked(t, order, owned, soldiers, i);
      }
    }
  }

  /** The mask as written stays inside the blocks of the owned countries it
      visits: every marked slot decodes to an attack from an owned country
      that does not hold exactly one soldier. */
  lemma AsWrittenMaskOrigins(t: ActionTables, order: seq<CountryId>, owned: seq<CountryId>, soldiers: seq<int>, i: int)
    requires IsOrder(order) && TablesFor(t, order) && |soldiers| == NumCountries
    requires Marked(AsWritten, t, owned, soldiers, i)
    ensures 0 <= i < t.total - 1 && Decode(t, i).Attack?
    ensures Decode(t, i).origin in owned && soldiers[Decode(t, i).origin] != 1
  {
    MaskTablesFacts(t, order);
    AsWrittenOriginsGeneric(t, order, owned, soldiers, i);
  }

  lemma AsWrittenOriginsGeneric(t: ActionTables, order: seq<CountryId>, owned: seq<CountryId>, soldiers: seq<int>, i: int)
    requires MaskTables(t, order) && (forall c: CountryId :: c in order) && |soldiers| == NumCountries
    requires Marked(AsWritten, t, owned, soldiers, i)
    ensures 0 <= i < t.total - 1 && Decode(t, i).Attack?
    ensures Decode(t, i).origin in owned && soldiers[Decode(t, i).origin] != 1
  {
    var q, k, j :| 0 <= q < |owned| && (q < |owned| || (q == |owned| && k < 0))
      && Marks(AsWritten, t, owned, soldiers, owned[q], k, j, i);
    MarkDecodes(AsWritten, t, order, owned, soldiers, owned[q], k, j, i);
  }

  /** The as-written mask, run for a player who holds Alaska (with at least
      two soldiers) and the Northwest Territory but not Alberta, marks the
      slot one past Alaska's offset for "attack Alberta": that slot decodes
      to an attack on the Northwest Territory, the player's own country. */
  lemma AsWrittenMarksFriendlyTarget(t: ActionTables, order: seq<CountryId>, soldiers: seq<int>)
    requires IsOrder(order) && TablesFor(t, order) && |soldiers| == NumCountries
    requires soldiers[Alaska] >= 2
    ensures Alaska in t.offsetMap
    ensures var owned := [Alaska, NorthwestTerritory];
      var i := t.offsetMap[Alaska] + 1;
      && Marked(AsWritten, t, owned, soldiers, i)
      && Decode(t, i) == Attack(Alaska, NorthwestTerritory, 2)
      && !LegalAttack(owned, soldiers, Alaska, NorthwestTerritory, 2)
  {
    MaskTablesFacts(t, order);
    AlaskaBorders();
    FriendlyTargetGeneric(t, order, soldiers);
  }

  lemma FriendlyTargetGeneric(t: ActionTables, order: seq<CountryId>, soldiers: seq<int>)
    requires MaskTables(t, order) && Alaska in order && |soldiers| == NumCountries
    requires Alaska in t.borderMap && t.borderMap[Alaska] == [NorthwestTerritory, Alberta, Kamchatka]
    requires soldiers[Alaska] >= 2
    ensures Alaska in t.offsetMap
    ensures var owned := [Alaska, NorthwestTerritory];
      var i := t.offsetMap[Alaska] + 1;
      && Marked(AsWritten, t, owned, soldiers, i)
      && Decode(t, i) == Attack(Alaska, NorthwestTerritory, 2)
  {
    var owned := [Alaska, NorthwestTerritory];
    var p := IndexOf(order, Alaska);
    EncodeDecodeGeneric(t, order, p, 0, 2);
    var i := t.offsetMap[Alaska] + 1;
    assert IndexOf(t.borderMap[Alaska], Alberta) == 1;
    assert Marks(AsWritten, t, owned, soldiers, owned[0], 1, 0, i);
  }

  /** The as-written mask skips only a country with exactly one soldier, so
      for a player whose Alaska holds no soldiers at all (which a `fortify`
      of every soldier leaves behind) it still marks "attack the Northwest
      Territory with one soldier". */
  lemma AsWrittenMarksEmptyOrigin(t: ActionTables, order: seq<CountryId>, soldiers: seq<int>)
    requires IsOrder(order) && TablesFor(t, order) && |soldiers| == NumCountries
    requires soldiers[Alaska] == 0
    ensures Alaska in t.offsetMap
    ensures var owned := [Alaska];
      var i := t.offsetMap[Alaska];
      && Marked(AsWritten, t, owned, soldiers, i)
      && Decode(t, i) == Attack(Alaska, NorthwestTerritory, 1)
      && !LegalAttack(owned, soldiers, Alaska, NorthwestTerritory, 1)
  {
    MaskTablesFacts(t, order);
    AlaskaBorders();
    EmptyOriginGeneric(t, order, soldiers);
  }

  lemma EmptyOriginGeneric(t: ActionTables, order: seq<CountryId>, soldiers: seq<int>)
    requires MaskTables(t, order) && Alaska in order && |soldiers| == NumCountries
    requires Alaska in t.borderMap && t.borderMap[Alaska] == [NorthwestTerritory, Alberta, Kamchatka]
    requires soldiers[Alaska] == 0
    ensures Alaska in t.offsetMap
    ensures var owned := [Alaska];
      var i := t.offsetMap[Alaska];
      && Marked(AsWritten, t, owned, soldiers, i)
      && Decode(t, i) == Attack(Alaska, NorthwestTerritory, 1)
  {
    var owned := [Alaska];
    var p := IndexOf(order, Alaska);
    EncodeDecodeGeneric(t, order, p, 0, 1);
    var i := t.offsetMap[Alaska];
    assert IndexOf(t.borderMap[Alaska], NorthwestTerritory) == 0;
    assert Marks(AsWritten, t, owned, soldiers, owned[0], 0, 0, i);
  }
}
