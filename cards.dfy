/** The blackjack helpers of the game server: scoring a hand, and building and shuffling
    a fresh 52-card deck with draws from the entropy oracle. */
module Cards {
  import opened Wrappers
  import opened Schema
  import opened Entropy
  import opened Arith
  import opened Seqs

  // ---------------------------------------------------------------------------
  // Hand value

  /** What a card adds before any ace is downgraded: an ace 11, a face card 10,
      a number card its face value. */
  function SoftPoints(r: Rank): (p: nat)
  {
    match r
    case Two => 2 case Three => 3 case Four => 4 case Five => 5 case Six => 6
    case Seven => 7 case Eight => 8 case Nine => 9 case Ten => 10
    case Jack => 10 case Queen => 10 case King => 10 case Ace => 11
  }

  /** What a card adds when every ace counts 1. */
  function HardPoints(r: Rank): (p: nat)
    ensures 1 <= p <= 10
  {
    if r == Ace then 1 else SoftPoints(r)
  }

  function AceCount(hand: seq<Card>): (aces: nat)
  {
    if hand == [] then 0
    else AceCount(hand[..|hand| - 1]) + (if hand[|hand| - 1].value == Ace then 1 else 0)
  }

  /** The first loop's running total: every ace counted 11. */
  function SoftTotal(hand: seq<Card>): (total: nat)
  {
    if hand == [] then 0 else SoftTotal(hand[..|hand| - 1]) + SoftPoints(hand[|hand| - 1].value)
  }

  /** The total with every ace counted 1. */
  function HardTotal(hand: seq<Card>): (total: nat)
  {
    if hand == [] then 0 else HardTotal(hand[..|hand| - 1]) + HardPoints(hand[|hand| - 1].value)
  }

  /** The downgrade loop: while over 21 with an ace still at 11, count that ace as 1. */
  function Downgrade(value: int, aces: nat): (v: int)
    decreases aces
  {
    if value > 21 && aces > 0 then Downgrade(value - 10, aces - 1) else value
  }

  /** calculateHandValue, as a function of the hand. */
  function HandValue(hand: seq<Card>): (v: int)
  {
    Downgrade(SoftTotal(hand), AceCount(hand))
  }

  /** The usual blackjack score, as a reference: the hard total, plus 10 when the hand holds
      an ace and that ace can count 11 without passing 21. */
  function BestValue(hand: seq<Card>): (v: nat)
    ensures v == HardTotal(hand) || (AceCount(hand) > 0 && v == HardTotal(hand) + 10 <= 21)
  {
    if AceCount(hand) > 0 && HardTotal(hand) + 10 <= 21 then HardTotal(hand) + 10 else HardTotal(hand)
  }

  lemma {:induction false} SoftIsHardPlusAces(hand: seq<Card>)
    ensures SoftTotal(hand) == HardTotal(hand) + 10 * AceCount(hand)
    ensures AceCount(hand) <= HardTotal(hand)
  {
    if hand != [] {
      SoftIsHardPlusAces(hand[..|hand| - 1]);
    }
  }

  lemma {:induction false} DowngradeFromSoft(hard: int, aces: nat)
    requires hard >= aces
    ensures Downgrade(hard + 10 * aces, aces) == if aces > 0 && hard + 10 <= 21 then hard + 10 else hard
  {
    if aces > 0 && hard + 10 * aces > 21 {
      DowngradeFromSoft(hard, aces - 1);
    }
  }

  /** The downgrade loop always lands on the usual blackjack score: at most one ace can
      still count 11, and it does exactly when that keeps the hand at 21 or less. */
  lemma HandValueIsBestValue(hand: seq<Card>)
    ensures HandValue(hand) == BestValue(hand)
  {
    SoftIsHardPlusAces(hand);
    DowngradeFromSoft(HardTotal(hand), AceCount(hand));
  }

  /** The value is the hard total plus 10 for each ace still at 11; it only passes 21 when
      no ace is left at 11, and it never falls below the hard total. */
  lemma HandValueShape(hand: seq<Card>)
    ensures HardTotal(hand) <= HandValue(hand) <= HardTotal(hand) + 10 * AceCount(hand)
    ensures (HandValue(hand) - HardTotal(hand)) % 10 == 0
    ensures HandValue(hand) > 21 ==> HandValue(hand) == HardTotal(hand)
  {
    HandValueIsBestValue(hand);
  }

  /** Two aces and a nine make 21 (one ace at 11, one at 1); a king and a queen 20; an ace and
      a king 21. */
  lemma HandValueExamples()
    ensures HandValue([Card(Spades, Ace), Card(Hearts, Ace), Card(Clubs, Nine)]) == 21
    ensures HandValue([Card(Spades, King), Card(Hearts, Queen)]) == 20
    ensures HandValue([Card(Spades, Ace), Card(Hearts, King)]) == 21
  {
    var aa9 := [Card(Spades, Ace), Card(Hearts, Ace), Card(Clubs, Nine)];
    var a := [Card(Spades, Ace)];
    var aa := a + [Card(Hearts, Ace)];
    assert a[..0] == [] && aa[..1] == a && aa9[..2] == aa;
    assert SoftTotal(a) == 11 && AceCount(a) == 1;
    assert SoftTotal(aa) == 22 && AceCount(aa) == 2;
    assert SoftTotal(aa9) == 31 && AceCount(aa9) == 2;
    var kq := [Card(Spades, King), Card(Hearts, Queen)];
    assert kq[..1] == [Card(Spades, King)];
    var ak := [Card(Spades, Ace), Card(Hearts, King)];
    assert ak[..1] == [Card(Spades, Ace)];
  }

  /** Aces only ever add to the hard total. */
  lemma HandValueAtLeastHard(hand: seq<Card>)
    ensures HardTotal(hand) <= HandValue(hand)
  {
    HandValueIsBestValue(hand);
  }

  /** calculateHandValue: a first loop sums the cards with aces at 11 and counts the aces,
      a second loop downgrades aces while the total is over 21. */
  method CalculateHandValue(hand: seq<Card>) returns (value: int)
    ensures value == HandValue(hand)
  {
    value := 0;
    var aces := 0;
    for i := 0 to |hand|
      invariant value == SoftTotal(hand[..i]) && aces == AceCount(hand[..i])
    {
      assert hand[..i + 1][..i] == hand[..i];
      if hand[i].value == Ace {
        aces := aces + 1;
        value := value + 11;
      } else if hand[i].value in {King, Queen, Jack} {
        value := value + 10;
      } else {
        value := value + SoftPoints(hand[i].value);
      }
    }
    assert hand[..|hand|] == hand;
    while value > 21 && aces > 0
      invariant Downgrade(value, aces) == HandValue(hand)
    {
      value := value - 10;
      aces := aces - 1;
    }
  }

  // ---------------------------------------------------------------------------
  // The deck

  const Suits: seq<Suit> := [Hearts, Diamonds, Clubs, Spades]
  const Ranks: seq<Rank> := [Two, Three, Four, Five, Six, Seven, Eight, Nine, Ten, Jack, Queen, King, Ace]

  /** The deck in the order the nested loops push it: by suit, then by value. */
  function OrderedDeck(): (deck: seq<Card>)
  {
    seq(52, i requires 0 <= i < 52 => Card(Suits[i / 13], Ranks[i % 13]))
  }

  function SuitIndex(s: Suit): (i: nat)
  {
    match s case Hearts => 0 case Diamonds => 1 case Clubs => 2 case Spades => 3
  }

  function RankIndex(r: Rank): (i: nat)
  {
    match r
    case Two => 0 case Three => 1 case Four => 2 case Five => 3 case Six => 4
    case Seven => 5 case Eight => 6 case Nine => 7 case Ten => 8
    case Jack => 9 case Queen => 10 case King => 11 case Ace => 12
  }

  /** Where a card sits in the ordered deck. */
  function Position(c: Card): (p: nat)
    ensures p < 52
  {
    13 * SuitIndex(c.suit) + RankIndex(c.value)
  }

  lemma PositionInOrderedDeck(i: nat)
    requires i < 52
    ensures Position(OrderedDeck()[i]) == i
  {
    var s, r := i / 13, i % 13;
    assert SuitIndex(Suits[s]) == s by {
      assert s == 0 || s == 1 || s == 2 || s == 3;
    }
    assert RankIndex(Ranks[r]) == r by {
      assert 0 <= r < 13;
      if r < 7 {
        assert r == 0 || r == 1 || r == 2 || r == 3 || r == 4 || r == 5 || r == 6;
      } else {
        assert r == 7 || r == 8 || r == 9 || r == 10 || r == 11 || r == 12;
      }
    }
  }

  lemma OrderedDeckAtPosition(c: Card)
    ensures OrderedDeck()[Position(c)] == c
  {
    var p := Position(c);
    assert p / 13 == SuitIndex(c.suit) && p % 13 == RankIndex(c.value);
    match c.suit
    case Hearts =>
    case Diamonds =>
    case Clubs =>
    case Spades =>
  }

  /** The ordered deck holds all 52 cards, each once. */
  lemma OrderedDeckHoldsEachCardOnce(c: Card)
    ensures |OrderedDeck()| == 52
    ensures multiset(OrderedDeck())[c] == 1
  {
    var d := OrderedDeck();
    forall i, j | 0 <= i < j < |d| ensures d[i] != d[j] {
      PositionInOrderedDeck(i);
      PositionInOrderedDeck(j);
    }
    OrderedDeckAtPosition(c);
    DistinctCount(d, c);
  }

  /** The array swap `[deck[i], deck[j]] = [deck[j], deck[i]]` on a sequence. */
  function Swap(s: seq<Card>, i: nat, j: nat): (r: seq<Card>)
    requires i < |s| && j < |s|
    ensures |r| == |s|
  {
    s[i := s[j]][j := s[i]]
  }

  lemma SwapPermutes(s: seq<Card>, i: nat, j: nat)
    requires i < |s| && j < |s|
    ensures multiset(Swap(s, i, j)) == multiset(s)
  {
    assert multiset(s[i := s[j]]) == multiset(s) - multiset{s[i]} + multiset{s[j]};
  }

  /** A shuffled deck and the bytes the oracle still holds. */
  datatype Shuffled = Shuffled(deck: seq<Card>, rest: seq<Byte>)

  /** The positions the Fisher-Yates pass from position i down to 1 draws, round i first:
      the draw for round k lies in [0, k].  `None` when the oracle runs dry, otherwise the
      bytes left over as well.  The draws never depend on the deck. */
  function Draws(i: nat, entropy: seq<Byte>): (r: Option<(seq<nat>, seq<Byte>)>)
    ensures r.Some? ==> |r.value.0| == i
    ensures r.Some? ==> forall k :: 0 <= k < i ==> r.value.0[k] <= i - k
    decreases i
  {
    if i == 0 then Some(([], entropy))
    else
      match Sample(0, i, entropy)
      case None => None
      case Some(d) =>
        match Draws(i - 1, d.rest)
        case None => None
        case Some(more) => Some(([d.value as nat] + more.0, more.1))
  }

  /** The swaps of the pass: position i with js[0], then position i - 1 with js[1], and so on. */
  function SwapDown(s: seq<Card>, i: nat, js: seq<nat>): (r: seq<Card>)
    requires |js| <= i < |s|
    requires forall k :: 0 <= k < |js| ==> js[k] <= i - k
    ensures |r| == |s|
    decreases js
  {
    if js == [] then s else SwapDown(Swap(s, i, js[0]), i - 1, js[1..])
  }

  /** The Fisher-Yates pass from position i down to 1: swap position i with a position
      drawn from [0, i].  `None` when the oracle runs dry. */
  function FisherYates(s: seq<Card>, i: nat, entropy: seq<Byte>): (r: Option<Shuffled>)
    requires i < |s|
  {
    match Draws(i, entropy)
    case None => None
    case Some(drawn) => Some(Shuffled(SwapDown(s, i, drawn.0), drawn.1))
  }

  /** Swapping only reorders: the result holds the same cards as many times as the input. */
  lemma {:induction false} SwapDownPermutes(s: seq<Card>, i: nat, js: seq<nat>)
    requires |js| <= i < |s|
    requires forall k :: 0 <= k < |js| ==> js[k] <= i - k
    ensures multiset(SwapDown(s, i, js)) == multiset(s)
    decreases js
  {
    if js != [] {
      SwapPermutes(s, i, js[0]);
      SwapDownPermutes(Swap(s, i, js[0]), i - 1, js[1..]);
    }
  }

  /** Shuffling only reorders: the result holds the same cards as many times as the input. */
  lemma FisherYatesPermutes(s: seq<Card>, i: nat, entropy: seq<Byte>)
    requires i < |s|
    requires FisherYates(s, i, entropy).Some?
    ensures |FisherYates(s, i, entropy).value.deck| == |s|
    ensures multiset(FisherYates(s, i, entropy).value.deck) == multiset(s)
  {
    var drawn := Draws(i, entropy).value;
    SwapDownPermutes(s, i, drawn.0);
  }

  /** One round of the pass: it swaps position i with the drawn position and goes on from
      i - 1 with the bytes left over. */
  lemma FisherYatesStep(s: seq<Card>, i: nat, entropy: seq<Byte>)
    requires 0 < i < |s|
    ensures Sample(0, i, entropy).None? ==> FisherYates(s, i, entropy) == None
    ensures Sample(0, i, entropy).Some? ==>
              var d := Sample(0, i, entropy).value;
              FisherYates(s, i, entropy) == FisherYates(Swap(s, i, d.value), i - 1, d.rest)
  {
    match Sample(0, i, entropy)
    case None =>
    case Some(d) =>
      match Draws(i - 1, d.rest)
      case None =>
      case Some(more) =>
        var js := [d.value as nat] + more.0;
        assert js[1..] == more.0;
  }

  /** One round of the shuffle loop: draw j from [0, i] and swap `deck[i]` with `deck[j]`.
      `None` when the oracle runs dry, otherwise the bytes left over. */
  method ShuffleStep(deck: array<Card>, i: nat, entropy: seq<Byte>) returns (rest: Option<seq<Byte>>)
    requires 0 < i < deck.Length
    modifies deck
    ensures rest.None? ==> FisherYates(old(deck[..]), i, entropy) == None
    ensures rest.Some? ==> FisherYates(old(deck[..]), i, entropy) == FisherYates(deck[..], i - 1, rest.value)
  {
    ghost var before := deck[..];
    FisherYatesStep(before, i, entropy);
    var d := SecureRandom(0, i, entropy);
    if d.None? {
      return None;
    }
    var j := d.value.value;
    deck[i], deck[j] := deck[j], deck[i];
    assert deck[..] == Swap(before, i, j);
    rest := Some(d.value.rest);
  }

  /** The shuffle loop of createDeck, in place. */
  method Shuffle(deck: array<Card>, entropy: seq<Byte>) returns (shuffled: Option<Shuffled>)
    requires deck.Length > 0
    modifies deck
    ensures shuffled == FisherYates(old(deck[..]), deck.Length - 1, entropy)
    ensures shuffled.Some? ==> deck[..] == shuffled.value.deck
  {
    var pending := entropy;
    ghost var goal := FisherYates(deck[..], deck.Length - 1, pending);
    for i := deck.Length downto 1
      invariant FisherYates(deck[..], i - 1, pending) == goal
    {
      var rest := ShuffleStep(deck, i, pending);
      if rest.None? {
        return None;
      }
      pending := rest.value;
    }
    shuffled := Some(Shuffled(deck[..], pending));
  }

  /** The deck createDeck builds before shuffling: suits in order, ranks in order within each. */
  method NewOrderedDeck() returns (deck: array<Card>)
    ensures fresh(deck)
    ensures deck[..] == OrderedDeck()
  {
    deck := new Card[52];
    var n := 0;
    for s := 0 to 4
      invariant n == 13 * s
      invariant forall k :: 0 <= k < n ==> deck[k] == OrderedDeck()[k]
    {
      for r := 0 to 13
        invariant n == 13 * s + r
        invariant forall k :: 0 <= k < n ==> deck[k] == OrderedDeck()[k]
      {
        DivModOfBlock(s, 13, r, n);
        deck[n] := Card(Suits[s], Ranks[r]);
        n := n + 1;
      }
    }
  }

  /** createDeck: push the 52 cards suit by suit, then shuffle them in place.  A completed
      deck holds every card exactly once. */
  method CreateDeck(entropy: seq<Byte>) returns (shuffled: Option<Shuffled>)
    ensures shuffled == FisherYates(OrderedDeck(), 51, entropy)
    ensures shuffled.Some? ==> |shuffled.value.deck| == 52
    ensures shuffled.Some? ==> forall c :: multiset(shuffled.value.deck)[c] == 1
  {
    var deck := NewOrderedDeck();
    shuffled := Shuffle(deck, entropy);
    if shuffled.Some? {
      ShuffledDeckHoldsEachCardOnce(entropy);
    }
  }

  /** Every deck the shuffle completes holds all 52 cards, each once. */
  lemma ShuffledDeckHoldsEachCardOnce(entropy: seq<Byte>)
    requires FisherYates(OrderedDeck(), 51, entropy).Some?
    ensures var deck := FisherYates(OrderedDeck(), 51, entropy).value.deck;
              |deck| == 52 && forall c :: multiset(deck)[c] == 1
  {
    FisherYatesPermutes(OrderedDeck(), 51, entropy);
    var deck := FisherYates(OrderedDeck(), 51, entropy).value.deck;
    forall c ensures multiset(deck)[c] == 1 {
      OrderedDeckHoldsEachCardOnce(c);
    }
  }
}
