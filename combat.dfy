/** The dice arithmetic of `roll_dice` and `battle` (risk/game.py:254-308):
    the rolls sorted highest first, the pairwise comparison that decides the
    losses, and the number of soldiers that move into a conquered country.
    The dice themselves are inputs: each roll is a value from 1 to 6. */
module Combat {
  import opened Sorting

  /** Every value is a face of a die. */
  predicate DiceFaces(raw: seq<int>)
  {
    forall i | 0 <= i < |raw| :: 1 <= raw[i] <= 6
  }

  /** `sorted(rolls, reverse=True)` as a stable sort: `x` may stand before
      `y` when it is at least as high. */
  function HighFirst(): (int, int) -> bool
  {
    (x: int, y: int) => x >= y
  }

  /** `roll_dice(n)` for the `n` values `raw` the die showed. */
  function RollDice(raw: seq<int>): seq<int>
  {
    SortBy(raw, HighFirst())
  }

  /** The rolls come back highest first, and they are the values thrown. */
  lemma RollDiceSpec(raw: seq<int>)
    ensures |RollDice(raw)| == |raw| && multiset(RollDice(raw)) == multiset(raw)
    ensures forall i, j | 0 <= i < j < |RollDice(raw)| :: RollDice(raw)[i] >= RollDice(raw)[j]
    ensures DiceFaces(raw) ==> DiceFaces(RollDice(raw))
  {
    var r := RollDice(raw);
    assert TotalPreorder(HighFirst());
    SortBySorted(raw, HighFirst());
    SortByMembers(raw, HighFirst());
    forall i | 0 <= i < |r| && DiceFaces(raw) ensures 1 <= r[i] <= 6 {
      assert r[i] in raw;
    }
  }

  /** The number of dice the defender rolls: `min(2, n)`, and none for a
      count of zero or less, since the list comprehension then ranges over
      nothing. */
  function DefenderDice(n: int): (r: nat)
    ensures r <= 2 && (n > 0 ==> r <= n)
    ensures n >= 2 ==> r == 2
    ensures n >= 1 ==> r >= 1
    ensures n <= 0 ==> r == 0
  {
    if n <= 0 then 0 else if n < 2 then n else 2
  }

  function Min(a: int, b: int): int
  {
    if a < b then a else b
  }

  /** The number of the first `n` pairs the attacker wins: its die must be
      strictly higher, so a tie goes to the defender. */
  function AttackerWins(a: seq<int>, d: seq<int>, n: nat): nat
    requires n <= |a| && n <= |d|
  {
    if n == 0 then 0 else AttackerWins(a, d, n - 1) + (if a[n - 1] > d[n - 1] then 1 else 0)
  }

  /** The loop over `zip(attack_rolls, defend_rolls)`: each pair costs the
      defender a soldier when the attacker's die is higher and the attacker
      one otherwise. */
  method CountLosses(a: seq<int>, d: seq<int>) returns (attackerLoss: nat, defenderLoss: nat)
    ensures defenderLoss == AttackerWins(a, d, Min(|a|, |d|))
    ensures attackerLoss + defenderLoss == Min(|a|, |d|)
  {
    var n := Min(|a|, |d|);
    attackerLoss, defenderLoss := 0, 0;
    var i := 0;
    while i < n
      invariant 0 <= i <= n
      invariant defenderLoss == AttackerWins(a, d, i)
      invariant attackerLoss + defenderLoss == i
    {
      if a[i] > d[i] {
        defenderLoss := defenderLoss + 1;
      } else {
        attackerLoss := attackerLoss + 1;
      }
      i := i + 1;
    }
  }

  /** The attacker wins at most every pair. */
  lemma {:induction false} WinsAtMost(a: seq<int>, d: seq<int>, n: nat)
    requires n <= |a| && n <= |d|
    ensures AttackerWins(a, d, n) <= n
    ensures AttackerWins(a, d, n) == n <==> forall i | 0 <= i < n :: a[i] > d[i]
  {
    if n > 0 {
      WinsAtMost(a, d, n - 1);
    }
  }

  /** The pairs of sorted dice the attacker wins. */
  function Wins(a: seq<int>, d: seq<int>): nat
  {
    AttackerWins(a, d, Min(|a|, |d|))
  }

  /** The defender never loses more soldiers than it had, when it had any. */
  lemma DefenderNeverNegative(a: seq<int>, d: seq<int>, defenders: int)
    requires |d| == DefenderDice(defenders) && defenders >= 0
    ensures defenders - Wins(a, d) >= 0
  {
    WinsAtMost(a, d, Min(|a|, |d|));
  }

  /** A conquest costs the attacker nothing: to take the country the attacker
      must win as many pairs as the defender has soldiers, and the defender
      rolls no more dice than it has soldiers, so every pair goes to the
      attacker. */
  lemma ConquestWinsEveryPair(a: seq<int>, d: seq<int>, defenders: int)
    requires |d| == DefenderDice(defenders)
    requires defenders - Wins(a, d) <= 0
    ensures Wins(a, d) == Min(|a|, |d|)
  {
    WinsAtMost(a, d, Min(|a|, |d|));
  }

  /** The soldiers that move into a conquered country: the attacking
      soldiers, or fewer so that the origin keeps one. */
  function SoldiersToMove(attacking: int, remaining: int): (r: int)
    ensures r <= attacking && remaining - r >= 1
    ensures r == attacking <==> remaining - attacking >= 1
    ensures remaining - attacking < 1 ==> r == remaining - 1
  {
    if remaining - attacking < 1 then remaining - 1 else attacking
  }
}
