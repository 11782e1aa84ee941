/** `Player` (risk/player.py) together with the per-player state that
    risk/game.py reads and writes on it: the card hand keyed by card type,
    the pool of soldiers not yet placed and the trade-in counter. */
module Players {
  import opened Util
  import opened Countries
  import opened Cards

  /** A hand: one list of cards per card type. */
  type Hand = map<CardType, seq<Card>>

  /** Every type has a list, and each list holds only cards of its type. */
  ghost predicate WellFormedHand(h: Hand)
  {
    && Infantry in h && Cavalry in h && Artillery in h
    && (forall t: CardType :: t in h)
    && (forall t, i | t in h && 0 <= i < |h[t]| :: h[t][i] == Card(t))
  }

  const EmptyHand: Hand := map[Infantry := [], Cavalry := [], Artillery := []]

  /** The number of cards in a hand. */
  function HandSize(h: Hand): nat
    requires Infantry in h && Cavalry in h && Artillery in h
  {
    |h[Infantry]| + |h[Cavalry]| + |h[Artillery]|
  }

  /** The cards of a hand, as a bag; a missing list holds nothing. */
  function HandCards(h: Hand): multiset<Card>
  {
    (if Infantry in h then multiset(h[Infantry]) else multiset{})
    + (if Cavalry in h then multiset(h[Cavalry]) else multiset{})
    + (if Artillery in h then multiset(h[Artillery]) else multiset{})
  }

  /** The hand holds at least as many cards of each type as `combination`
      asks for, so every `pop` of a trade-in finds a card. */
  ghost predicate Holds(h: Hand, combination: seq<Card>)
  {
    forall t: CardType :: t in h && Count(combination, Card(t)) <= |h[t]|
  }

  /** The hand after `trade_in_cards` has popped a card of each card's type
      in `combination`: every list loses from its end as many cards as the
      combination holds of its type. */
  function TradedHand(h: Hand, combination: seq<Card>): Hand
    requires Holds(h, combination)
  {
    map t | t in h :: h[t][..|h[t]| - Count(combination, Card(t))]
  }

  /** What a hand holds for a combination it also holds for every prefix. */
  lemma HoldsPrefix(h: Hand, combination: seq<Card>, i: nat)
    requires Holds(h, combination) && i <= |combination|
    ensures Holds(h, combination[..i])
  {
    forall t: CardType ensures Count(combination[..i], Card(t)) <= |h[t]| {
      CountPrefix(combination, i, Card(t));
    }
  }

  /** Trading in one card more is one `pop` more, from a list that still has
      a card. */
  lemma TradedStep(h: Hand, combination: seq<Card>, i: nat)
    requires Holds(h, combination) && i < |combination|
    ensures Holds(h, combination[..i]) && Holds(h, combination[..i + 1])
    ensures |TradedHand(h, combination[..i])[combination[i].cardType]| > 0
    ensures TradedHand(h, combination[..i + 1])
         == WithoutLast(TradedHand(h, combination[..i]), combination[i].cardType)
  {
    HoldsPrefix(h, combination, i);
    HoldsPrefix(h, combination, i + 1);
    var t0 := combination[i].cardType;
    assert combination[i] == Card(t0);
    var a := TradedHand(h, combination[..i]);
    var b := TradedHand(h, combination[..i + 1]);
    forall t: CardType ensures Count(combination[..i + 1], Card(t)) == Count(combination[..i], Card(t)) + (if t == t0 then 1 else 0) {
      CountStep(combination, i, Card(t));
    }
    assert |a[t0]| > 0;
    var w := WithoutLast(a, t0);
    forall t | t in b ensures b[t] == w[t] {
      if t == t0 {
        assert b[t] == a[t][..|a[t]| - 1];
      }
    }
    assert b.Keys == w.Keys;
  }

  /** Trading in nothing leaves the hand as it is. */
  lemma TradedNothing(h: Hand, combination: seq<Card>)
    requires combination == [] && Holds(h, combination)
    ensures TradedHand(h, combination) == h
  {
    forall t | t in h ensures TradedHand(h, combination)[t] == h[t] {
      assert h[t][..|h[t]|] == h[t];
    }
  }

  /** One `pop` more keeps the accounting of a trade-in: the hand is still
      well formed and has given up one card more, the card played. */
  lemma PlayedOneMore(before: Hand, after: Hand, h: Hand, played: seq<Card>, t: CardType)
    requires WellFormedHand(before) && WellFormedHand(h) && |before[t]| > 0 && after == WithoutLast(before, t)
    requires HandCards(before) + multiset(played) == HandCards(h)
    requires HandSize(before) + |played| == HandSize(h)
    ensures WellFormedHand(after)
    ensures HandCards(after) + multiset(played + [Card(t)]) == HandCards(h)
    ensures HandSize(after) + |played + [Card(t)]| == HandSize(h)
  {
    WithoutLastSpec(before, t);
    assert multiset(played + [Card(t)]) == multiset(played) + multiset{Card(t)};
    UnionBeside(HandCards(after), multiset{Card(t)}, HandCards(before), multiset{}, multiset(played));
  }

  /** A trade-in leaves the hand well formed, and the cards it takes out of
      the hand are exactly the cards of the combination. */
  lemma {:induction false} TradeSpec(h: Hand, combination: seq<Card>)
    requires WellFormedHand(h) && Holds(h, combination)
    ensures WellFormedHand(TradedHand(h, combination))
    ensures HandCards(TradedHand(h, combination)) + multiset(combination) == HandCards(h)
    ensures HandSize(TradedHand(h, combination)) + |combination| == HandSize(h)
    decreases |combination|
  {
    if combination == [] {
      TradedNothing(h, combination);
    } else {
      var n := |combination| - 1;
      var t := combination[n].cardType;
      TradedStep(h, combination, n);
      TradeSpec(h, combination[..n]);
      assert combination[n] == Card(t);
      TakeLast(combination);
      TakeAll(combination);
      PlayedOneMore(TradedHand(h, combination[..n]), TradedHand(h, combination[..n + 1]), h, combination[..n], t);
    }
  }

  /** The loop of `trade_in_cards`: for each card of the combination, the
      last card of the list of its type is popped and played. */
  method PlayCards(h: Hand, combination: seq<Card>) returns (h': Hand, played: seq<Card>)
    requires WellFormedHand(h) && Holds(h, combination)
    ensures h' == TradedHand(h, combination)
    ensures played == combination
  {
    h', played := h, [];
    var i := 0;
    assert combination[..0] == [];
    TradedNothing(h, combination[..0]);
    while i < |combination|
      invariant 0 <= i <= |combination|
      invariant Holds(h, combination[..i])
      invariant h' == TradedHand(h, combination[..i])
      invariant played == combination[..i]
    {
      var t := combination[i].cardType;
      TradedStep(h, combination, i);
      TradeSpec(h, combination[..i]);
      WithoutLastSpec(h', t);
      var card := h'[t][|h'[t]| - 1];
      h' := WithoutLast(h', t);
      played := played + [card];
      TakeStep(combination, i);
      i := i + 1;
    }
    TakeAll(combination);
  }


  /** `h[c.card_type].append(c)`. */
  function WithCard(h: Hand, c: Card): Hand
    requires c.cardType in h
  {
    h[c.cardType := h[c.cardType] + [c]]
  }

  /** `h[t].pop()`, which the caller makes only on a non-empty list. */
  function WithoutLast(h: Hand, t: CardType): Hand
    requires t in h && |h[t]| > 0
  {
    h[t := h[t][..|h[t]| - 1]]
  }

  /** The cards of a hand outside the list of type `t`. */
  function OtherCards(h: Hand, t: CardType): multiset<Card>
    requires Infantry in h && Cavalry in h && Artillery in h
  {
    match t
    case Infantry => multiset(h[Cavalry]) + multiset(h[Artillery])
    case Cavalry => multiset(h[Infantry]) + multiset(h[Artillery])
    case Artillery => multiset(h[Infantry]) + multiset(h[Cavalry])
  }

  /** Replacing the list of one type changes the hand by exactly that list. */
  lemma ReplaceList(h: Hand, t: CardType, l: seq<Card>)
    requires Infantry in h && Cavalry in h && Artillery in h
    ensures HandCards(h) == OtherCards(h, t) + multiset(h[t])
    ensures HandCards(h[t := l]) == OtherCards(h, t) + multiset(l)
    ensures HandSize(h[t := l]) + |h[t]| == HandSize(h) + |l|
  {
    var h' := h[t := l];
    match t
    case Infantry =>
      assert h'[Cavalry] == h[Cavalry] && h'[Artillery] == h[Artillery];
    case Cavalry =>
      assert h'[Infantry] == h[Infantry] && h'[Artillery] == h[Artillery];
    case Artillery =>
      assert h'[Infantry] == h[Infantry] && h'[Cavalry] == h[Cavalry];
  }

  /** A card appended to the list of its type leaves the hand well formed,
      with that one card more. */
  lemma WithCardSpec(h: Hand, c: Card)
    requires WellFormedHand(h)
    ensures WellFormedHand(WithCard(h, c))
    ensures HandCards(WithCard(h, c)) == HandCards(h) + multiset{c}
    ensures HandSize(WithCard(h, c)) == HandSize(h) + 1
  {
    var h' := WithCard(h, c);
    var t0 := c.cardType;
    forall t, i | t in h' && 0 <= i < |h'[t]| ensures h'[t][i] == Card(t) {
      if t == t0 && i == |h[t0]| {
        assert h'[t][i] == c;
      } else {
        assert h'[t][i] == h[t][i];
      }
    }
    assert multiset(h'[t0]) == multiset(h[t0]) + multiset{c};
    ReplaceList(h, t0, h'[t0]);
  }

  /** Dropping the last card of a list keeps every list to its own type. */
  lemma WithoutLastWellFormed(h: Hand, t: CardType)
    requires WellFormedHand(h) && |h[t]| > 0
    ensures WellFormedHand(WithoutLast(h, t))
  {
    var h' := WithoutLast(h, t);
    forall u, i | u in h' && 0 <= i < |h'[u]| ensures h'[u][i] == Card(u) {
      assert h'[u][i] == h[u][i];
    }
  }

  /** Popping a card `c` from the list of type `t` takes exactly `c` out of
      the hand. */
  lemma PopCards(h: Hand, t: CardType, c: Card)
    requires Infantry in h && Cavalry in h && Artillery in h
    requires t in h && |h[t]| > 0 && h[t][|h[t]| - 1] == c
    ensures HandCards(WithoutLast(h, t)) + multiset{c} == HandCards(h)
    ensures HandSize(WithoutLast(h, t)) == HandSize(h) - 1
  {
    var l := h[t][..|h[t]| - 1];
    LastOff(h[t]);
    ReplaceList(h, t, l);
  }

  /** A list is its prefix and its last element. */
  lemma LastOff(s: seq<Card>)
    requires |s| > 0
    ensures multiset(s) == multiset(s[..|s| - 1]) + multiset{s[|s| - 1]}
  {
    assert s == s[..|s| - 1] + [s[|s| - 1]];
  }

  /** The card a `pop` returns is a card of that type, and the hand keeps
      every other card. */
  lemma WithoutLastSpec(h: Hand, t: CardType)
    requires WellFormedHand(h) && |h[t]| > 0
    ensures h[t][|h[t]| - 1] == Card(t)
    ensures WellFormedHand(WithoutLast(h, t))
    ensures HandCards(WithoutLast(h, t)) + multiset{Card(t)} == HandCards(h)
    ensures HandSize(WithoutLast(h, t)) == HandSize(h) - 1
  {
    WithoutLastWellFormed(h, t);
    PopCards(h, t, Card(t));
  }

  class Player {
    const name: string
    var countries: seq<CountryId>
    var soldiers: int
    var unassignedSoldiers: int
    var cards: Hand
    var nCardTradeIns: int

    /** `Player.__init__`; the hand, pool and counter start empty. */
    constructor(name: string)
      ensures this.name == name
      ensures countries == [] && soldiers == 0
      ensures unassignedSoldiers == 0 && cards == EmptyHand && nCardTradeIns == 0
    {
      this.name := name;
      countries := [];
      soldiers := 0;
      unassignedSoldiers := 0;
      cards := EmptyHand;
      nCardTradeIns := 0;
    }

    /** The hand is well formed and the trade-in counter is not negative. */
    ghost predicate HandOk()
      reads this`cards, this`nCardTradeIns
    {
      WellFormedHand(cards) && nCardTradeIns >= 0
    }

    /** `add_country`: appends at the end. */
    method AddCountry(c: CountryId)
      modifies this`countries
      ensures countries == old(countries) + [c]
    {
      countries := countries + [c];
    }

    /** `remove_country`: `list.remove` drops the first occurrence and raises
        when the country is absent. */
    method RemoveCountry(c: CountryId)
      requires c in countries
      modifies this`countries
      ensures countries == RemoveFirst(old(countries), c)
    {
      countries := RemoveFirst(countries, c);
    }
  }

  /** The empty hand is well formed and holds no cards. */
  lemma EmptyHandWellFormed()
    ensures WellFormedHand(EmptyHand) && HandSize(EmptyHand) == 0 && HandCards(EmptyHand) == multiset{}
  {
    forall t: CardType ensures t in EmptyHand {
      match t
      case Infantry =>
      case Cavalry =>
      case Artillery =>
    }
  }
}
