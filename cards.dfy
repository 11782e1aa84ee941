/** Cards and the trade-in schedule of risk/card.py. */
module Cards {
  import opened Util

  /** `CardType`: the three kinds of card, each with its string value. */
  datatype CardType = Infantry | Cavalry | Artillery

  /** `CardType.value`, which `__str__` and `__repr__` both return. */
  function Value(t: CardType): (s: string)
    ensures |s| > 0
  {
    match t
    case Infantry => "infantry"
    case Cavalry => "cavalry"
    case Artillery => "artillery"
  }

  const AllCardTypes: seq<CardType> := [Infantry, Cavalry, Artillery]

  /** A card carries nothing but its type, so two cards compare equal exactly
      when their types do (`Card.__eq__`), and `__hash__` hashes the type. */
  datatype Card = Card(cardType: CardType)

  /** `[x] * n`. */
  function Repeat<T>(x: T, n: nat): (r: seq<T>)
    ensures |r| == n
    ensures forall i | 0 <= i < n :: r[i] == x
  {
    if n == 0 then [] else [x] + Repeat(x, n - 1)
  }

  /** `init_deck` before its shuffle: 14 cards of each type. */
  function InitDeck(): (r: seq<Card>)
    ensures |r| == 42
  {
    Repeat(Card(Infantry), 14) + Repeat(Card(Cavalry), 14) + Repeat(Card(Artillery), 14)
  }

  /** `deck` is an arrangement that `random.shuffle` can produce from `source`. */
  predicate IsShuffleOf<T(==)>(deck: seq<T>, source: seq<T>)
  {
    multiset(deck) == multiset(source)
  }

  /** `trade_in_map`. */
  const TradeInMap: seq<int> := [4, 6, 8, 10, 12, 15]

  /** `trade_in_rewards(n)`: the soldiers paid for the `n`-th trade-in.  The
      counter is incremented before the call, so `n` is at least 1; a value
      below 1 would read the table from its end. */
  function TradeInRewards(n: int): (r: int)
    requires n >= 1
    ensures r >= 4
  {
    if n <= 6 then TradeInMap[n - 1] else 15 + 5 * (n - 6)
  }

  // ----- properties -----

  /** The type values are pairwise distinct. */
  lemma ValuesDistinct()
    ensures forall s, t :: Value(s) == Value(t) <==> s == t
  {}

  /** Card equality is type equality. */
  lemma CardEquality()
    ensures forall a: Card, b: Card :: a == b <==> a.cardType == b.cardType
  {}

  lemma {:induction false} CountRepeat<T>(x: T, y: T, n: nat)
    ensures Count(Repeat(x, n), y) == if x == y then n else 0
  {
    if n > 0 {
      assert Repeat(x, n)[1..] == Repeat(x, n - 1);
      CountRepeat(x, y, n - 1);
    }
  }

  lemma CountOfBlocks(n: nat, t: CardType)
    ensures Count(Repeat(Card(Infantry), n) + Repeat(Card(Cavalry), n) + Repeat(Card(Artillery), n), Card(t)) == n
  {
    var a, b, c := Repeat(Card(Infantry), n), Repeat(Card(Cavalry), n), Repeat(Card(Artillery), n);
    CountAppend(a + b, c, Card(t));
    CountAppend(a, b, Card(t));
    CountRepeat(Card(Infantry), Card(t), n);
    CountRepeat(Card(Cavalry), Card(t), n);
    CountRepeat(Card(Artillery), Card(t), n);
  }

  /** The deck holds 42 cards, 14 of each type. */
  lemma DeckComposition()
    ensures |InitDeck()| == 42
    ensures forall t :: Count(InitDeck(), Card(t)) == 14
    ensures forall t :: multiset(InitDeck())[Card(t)] == 14
  {
    forall t ensures Count(InitDeck(), Card(t)) == 14 && multiset(InitDeck())[Card(t)] == 14 {
      CountOfBlocks(14, t);
      CountMultiset(InitDeck(), Card(t));
    }
  }

  /** A shuffled deck still holds 14 cards of each type. */
  lemma ShuffledDeckComposition(deck: seq<Card>)
    requires IsShuffleOf(deck, InitDeck())
    ensures |deck| == 42
    ensures forall t :: Count(deck, Card(t)) == 14
  {
    DeckComposition();
    assert |deck| == |multiset(deck)| == |multiset(InitDeck())| == 42;
    forall t ensures Count(deck, Card(t)) == 14 {
      CountMultiset(deck, Card(t));
    }
  }

  /** 42 cards, 14 of each type. */
  predicate FullDeck(deck: seq<Card>)
  {
    |deck| == 42 && forall t :: Count(deck, Card(t)) == 14
  }

  /** The arrangements of the deck that a shuffle can produce are exactly
      the decks of 42 cards with 14 of each type. */
  lemma ShuffleIsFullDeck(deck: seq<Card>)
    ensures IsShuffleOf(deck, InitDeck()) <==> FullDeck(deck)
  {
    if IsShuffleOf(deck, InitDeck()) {
      ShuffledDeckComposition(deck);
    }
    if FullDeck(deck) {
      DeckComposition();
      forall x: Card ensures multiset(deck)[x] == multiset(InitDeck())[x] {
        CountMultiset(deck, x);
        assert x == Card(x.cardType);
      }
      assert multiset(deck) == multiset(InitDeck());
    }
  }

  /** The reward schedule: 4, 6, 8, 10, 12, 15, then five more each time. */
  lemma RewardSchedule()
    ensures TradeInRewards(1) == 4 && TradeInRewards(2) == 6 && TradeInRewards(3) == 8
    ensures TradeInRewards(4) == 10 && TradeInRewards(5) == 12 && TradeInRewards(6) == 15
    ensures TradeInRewards(7) == 20
    ensures forall n | n > 6 :: TradeInRewards(n) == TradeInRewards(n - 1) + 5
  {}

  /** Each trade-in pays strictly more than the one before. */
  lemma {:induction false} RewardsIncreasing(m: int, n: int)
    requires 1 <= m < n
    ensures TradeInRewards(m) < TradeInRewards(n)
    decreases n - m
  {
    if m + 1 < n {
      RewardsIncreasing(m + 1, n);
    }
    RewardStep(m);
  }

  lemma RewardStep(m: int)
    requires m >= 1
    ensures TradeInRewards(m) < TradeInRewards(m + 1)
  {
    if m <= 6 { assert TradeInMap[m - 1] < (if m + 1 <= 6 then TradeInMap[m] else 20); }
  }
}
