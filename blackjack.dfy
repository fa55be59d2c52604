/** The blackjack route: each request plays one step of a hand (deal, hit or stand) with a
    freshly shuffled deck; between requests the hands travel with the client. */
module Blackjack {
  import opened Wrappers
  import opened Schema
  import opened Entropy
  import opened Cards
  import opened Storage
  import opened Settlement
  import opened Arith
  import opened Seqs

  /** The body fields the route reads; a missing number is 0 and a missing string "". */
  datatype BlackjackRequest = BlackjackRequest(betAmount: int, action: string,
                                               playerCards: seq<Card>, dealerCards: seq<Card>)

  /** `result` is `None` while the hand goes on (the source's `null`). */
  datatype BlackjackResponse = BlackjackResponse(playerCards: seq<Card>, dealerCards: seq<Card>,
                                                 playerScore: int, dealerScore: int,
                                                 result: Option<GameResult>, profit: int,
                                                 newBalance: int, gameOver: bool)

  /** The hands after one step, and the result when the step ends the hand. */
  datatype Round = Round(player: seq<Card>, dealer: seq<Card>, result: Option<GameResult>)

  /** The input guard, with JavaScript falsiness written out.  Any non-empty action passes. */
  predicate ValidBlackjack(req: BlackjackRequest)
  {
    !(req.betAmount == 0 || req.action == "" || req.betAmount <= 0)
  }

  /** The guard lets exactly the positive stakes with some action through. */
  lemma ValidBlackjackMeans(req: BlackjackRequest)
    ensures ValidBlackjack(req) <==> req.betAmount > 0 && |req.action| > 0
  {
  }

  // ---------------------------------------------------------------------------
  // The dealer's turn

  /** The dealer's turn on stand: while the dealer's hand is worth less than 17, pop the last
      card of the deck onto it.  Every card adds at least 1 to the hard total, which the hand
      value never falls below, so a deck of 17 - HardTotal(dealer) cards is always enough. */
  function DealerPlays(dealer: seq<Card>, deck: seq<Card>): (r: (seq<Card>, seq<Card>))
    requires HardTotal(dealer) + |deck| >= 17
    ensures HandValue(r.0) >= 17
    ensures |dealer| <= |r.0| && r.0[..|dealer|] == dealer
    ensures |r.1| + |r.0| == |deck| + |dealer| && r.1 == deck[..|r.1|]
    decreases |deck|
  {
    HandValueAtLeastHard(dealer);
    if HandValue(dealer) >= 17 then (dealer, deck)
    else
      var hand := dealer + [deck[|deck| - 1]];
      AddCard(dealer, deck[|deck| - 1]);
      var r := DealerPlays(hand, deck[..|deck| - 1]);
      assert r.0[..|dealer|] == r.0[..|hand|][..|dealer|];
      r
  }

  /** Adding a card adds its hard points to the hard total. */
  lemma AddCard(hand: seq<Card>, c: Card)
    ensures HardTotal(hand + [c]) == HardTotal(hand) + HardPoints(c.value)
  {
    assert (hand + [c])[..|hand|] == hand;
  }

  /** The dealer stops at the first hand worth 17 or more: every hand on the way was under 17. */
  lemma {:induction false} DealerStopsAtFirst17(dealer: seq<Card>, deck: seq<Card>)
    requires HardTotal(dealer) + |deck| >= 17
    ensures var hand := DealerPlays(dealer, deck).0;
              forall n :: |dealer| <= n < |hand| ==> HandValue(hand[..n]) < 17
    decreases |deck|
  {
    HandValueAtLeastHard(dealer);
    if HandValue(dealer) < 17 {
      var next := dealer + [deck[|deck| - 1]];
      AddCard(dealer, deck[|deck| - 1]);
      DealerStopsAtFirst17(next, deck[..|deck| - 1]);
      var hand := DealerPlays(dealer, deck).0;
      assert hand == DealerPlays(next, deck[..|deck| - 1]).0;
      forall n | |dealer| <= n < |hand|
        ensures HandValue(hand[..n]) < 17
      {
        if n == |dealer| {
          assert hand[..n] == dealer;
        }
      }
    } else {
      assert DealerPlays(dealer, deck).0 == dealer;
    }
  }

  /** A run of cards in the order `pop` takes them off the end of a list. */
  function Popped(s: seq<Card>): (r: seq<Card>)
  {
    seq(|s|, k requires 0 <= k < |s| => s[|s| - 1 - k])
  }

  /** The dealer's new cards are the cards taken off the end of the deck, in the order they
      were taken, and the deck keeps the rest. */
  lemma {:induction false} DealerDrawsFromTop(dealer: seq<Card>, deck: seq<Card>)
    requires HardTotal(dealer) + |deck| >= 17
    ensures var r := DealerPlays(dealer, deck);
              r.0 == dealer + Popped(deck[|r.1|..])
    decreases |deck|
  {
    HandValueAtLeastHard(dealer);
    var r := DealerPlays(dealer, deck);
    if HandValue(dealer) < 17 {
      var top := deck[|deck| - 1];
      var below := deck[..|deck| - 1];
      AddCard(dealer, top);
      DealerDrawsFromTop(dealer + [top], below);
      assert r == DealerPlays(dealer + [top], below);
      PopTop(deck, |r.1|);
      assert dealer + ([top] + Popped(below[|r.1|..])) == (dealer + [top]) + Popped(below[|r.1|..]);
    } else {
      assert deck[|r.1|..] == [];
    }
  }

  /** Taking the cards from position m on off the end starts with the last card. */
  lemma PopTop(deck: seq<Card>, m: nat)
    requires m < |deck|
    ensures Popped(deck[m..]) == [deck[|deck| - 1]] + Popped(deck[..|deck| - 1][m..])
  {
    var taken := deck[m..];
    assert taken[..|taken| - 1] == deck[..|deck| - 1][m..];
  }

  /** The dealer takes at most 17 - HardTotal(dealer) cards, so a fresh 52-card deck never
      runs out. */
  lemma {:induction false} DealerDrawBound(dealer: seq<Card>, deck: seq<Card>)
    requires HardTotal(dealer) + |deck| >= 17
    ensures |DealerPlays(dealer, deck).0| - |dealer| <= if HardTotal(dealer) < 17 then 17 - HardTotal(dealer) else 0
    decreases |deck|
  {
    HandValueAtLeastHard(dealer);
    if HandValue(dealer) < 17 {
      var next := dealer + [deck[|deck| - 1]];
      AddCard(dealer, deck[|deck| - 1]);
      DealerDrawBound(next, deck[..|deck| - 1]);
    }
  }

  /** The stand loop of the route, popping from a deck held in a local list. */
  method DealerTurn(dealer: seq<Card>, deck: seq<Card>) returns (hand: seq<Card>, rest: seq<Card>)
    requires HardTotal(dealer) + |deck| >= 17
    ensures (hand, rest) == DealerPlays(dealer, deck)
  {
    hand, rest := dealer, deck;
    var value := CalculateHandValue(hand);
    while value < 17
      invariant HardTotal(hand) + |rest| >= 17
      invariant DealerPlays(hand, rest) == DealerPlays(dealer, deck)
      invariant value == HandValue(hand)
      decreases |rest|
    {
      HandValueAtLeastHard(hand);
      var card := rest[|rest| - 1];
      rest := rest[..|rest| - 1];
      var before := hand;
      hand := hand + [card];
      assert hand[..|before|] == before;
      value := CalculateHandValue(hand);
    }
  }

  // ---------------------------------------------------------------------------
  // One step of a hand

  /** How a stand is judged as written: a dealer bust wins for the player before the player's
      own total is looked at. */
  function Judge(playerValue: int, dealerValue: int): (g: GameResult)
  {
    if dealerValue > 21 then Win
    else if playerValue > dealerValue then Win
    else if playerValue < dealerValue then Lose
    else Push
  }

  /** The usual rule as a reference: a player over 21 has lost whatever the dealer holds. */
  function UsualJudge(playerValue: int, dealerValue: int): (g: GameResult)
  {
    if playerValue > 21 then Lose
    else if dealerValue > 21 || playerValue > dealerValue then Win
    else if playerValue < dealerValue then Lose
    else Push
  }

  /** The stand judgement agrees with the usual rule on every hand the player has not bust;
      a player over 21 who stands wins, where the usual rule has them lose. */
  lemma JudgeAgainstUsual(playerValue: int, dealerValue: int)
    ensures playerValue <= 21 ==> Judge(playerValue, dealerValue) == UsualJudge(playerValue, dealerValue)
    ensures playerValue > 21 ==> Judge(playerValue, dealerValue) == Win != UsualJudge(playerValue, dealerValue)
  {
  }

  /** The route's `action` branches on a 52-card deck, popping from its end. */
  function Play(action: string, playerCards: seq<Card>, dealerCards: seq<Card>, deck: seq<Card>): (r: Round)
    requires |deck| == 52
    ensures action == "deal" ==> r.player == [deck[51], deck[50]] && r.dealer == [deck[49], deck[48]]
    ensures action == "deal" ==> (r.result.Some? <==> HandValue(r.player) == 21)
    ensures action == "deal" ==> (r.result == Some(Push) <==> HandValue(r.player) == 21 == HandValue(r.dealer))
    ensures action == "hit" ==> r.player == playerCards + [deck[51]] && r.dealer == dealerCards
    ensures action == "hit" ==> (r.result.Some? <==> HandValue(r.player) > 21)
    ensures action == "hit" ==> r.result != Some(Win) && r.result != Some(Push)
    ensures action == "stand" ==> r.player == playerCards && r.result.Some?
    ensures action == "stand" ==> |dealerCards| <= |r.dealer| && r.dealer[..|dealerCards|] == dealerCards
    ensures action == "stand" ==> HandValue(r.dealer) >= 17
    ensures action !in {"deal", "hit", "stand"} ==> r == Round(playerCards, dealerCards, None)
  {
    if action == "deal" then
      var player := [deck[51], deck[50]];
      var dealer := [deck[49], deck[48]];
      var result := if HandValue(player) == 21 then Some(if HandValue(dealer) == 21 then Push else Win)
                    else None;
      Round(player, dealer, result)
    else if action == "hit" then
      var player := playerCards + [deck[51]];
      Round(player, dealerCards, if HandValue(player) > 21 then Some(Lose) else None)
    else if action == "stand" then
      var dealer := DealerPlays(dealerCards, deck).0;
      Round(playerCards, dealer, Some(Judge(HandValue(playerCards), HandValue(dealer))))
    else
      Round(playerCards, dealerCards, None)
  }

  /** The route's branches in place, with the deck a local list that `pop` shortens. */
  method PlayRound(action: string, playerCards: seq<Card>, dealerCards: seq<Card>, deck: seq<Card>)
      returns (round: Round)
    requires |deck| == 52
    ensures round == Play(action, playerCards, dealerCards, deck)
  {
    var pile := deck;
    var player: seq<Card> := [];
    var dealer: seq<Card> := [];
    var result: Option<GameResult> := None;
    if action == "deal" {
      player := [pile[51], pile[50]];
      dealer := [pile[49], pile[48]];
      pile := pile[..48];
      var playerValue := CalculateHandValue(player);
      var dealerValue := CalculateHandValue(dealer);
      if playerValue == 21 {
        if dealerValue == 21 {
          result := Some(Push);
        } else {
          result := Some(Win);
        }
      }
    } else {
      player, dealer := playerCards, dealerCards;
      if action == "hit" {
        player := player + [pile[51]];
        pile := pile[..51];
        var playerValue := CalculateHandValue(player);
        if playerValue > 21 {
          result := Some(Lose);
        }
      } else if action == "stand" {
        dealer, pile := DealerTurn(dealer, pile);
        var playerValue := CalculateHandValue(player);
        var dealerValue := CalculateHandValue(dealer);
        if dealerValue > 21 {
          result := Some(Win);
        } else if playerValue > dealerValue {
          result := Some(Win);
        } else if playerValue < dealerValue {
          result := Some(Lose);
        } else {
          result := Some(Push);
        }
      }
    }
    round := Round(player, dealer, result);
  }

  // ---------------------------------------------------------------------------
  // Settling

  /** Whether a win is paid 3:2: the action is a deal and the player holds 21 in two cards. */
  predicate Natural(action: string, player: seq<Card>)
  {
    action == "deal" && HandValue(player) == 21 && |player| == 2
  }

  /** The profit of a finished hand: a natural pays `Math.floor(betAmount * 1.5)`, any other
      win the stake, a loss costs the stake, a push (or an unfinished hand) nothing. */
  function Payout(action: string, player: seq<Card>, result: Option<GameResult>, bet: int): (profit: int)
    ensures result == Some(Win) && Natural(action, player) ==>
              profit as real <= bet as real * 1.5 < profit as real + 1.0
    ensures result == Some(Win) && !Natural(action, player) ==> profit == bet
    ensures result == Some(Lose) ==> profit == -bet
    ensures result == Some(Push) || result == None ==> profit == 0
  {
    if result == Some(Win) then
      if Natural(action, player) then
        FloorOfQuotient(3 * bet, 2);
        (3 * bet) / 2
      else bet
    else if result == Some(Lose) then -bet
    else 0
  }

  /** One step played on a shuffled 52-card deck by a user whose balance is `balance`: the
      hands, their scores, the result and the money. */
  function Settle(balance: int, req: BlackjackRequest, deck: seq<Card>): (r: BlackjackResponse)
    requires |deck| == 52
    ensures r.gameOver <==> r.result.Some?
    ensures r.playerScore == HandValue(r.playerCards) && r.dealerScore == HandValue(r.dealerCards)
    ensures r.newBalance == balance + r.profit
    ensures r.result.None? ==> r.profit == 0
  {
    var round := Play(req.action, req.playerCards, req.dealerCards, deck);
    var profit := Payout(req.action, round.player, round.result, req.betAmount);
    BlackjackResponse(round.player, round.dealer, HandValue(round.player), HandValue(round.dealer),
                      round.result, profit, balance + profit, round.result.Some?)
  }

  /** The whole request as the route plays it, for the user the session names.  The balance
      is checked on a deal only, and a deck is shuffled whatever the action. */
  function BlackjackOutcome(user: Option<User>, req: BlackjackRequest, entropy: seq<Byte>)
      : (out: Outcome<BlackjackResponse>)
    ensures out == Reject(InvalidParameters) <==> !ValidBlackjack(req)
    ensures out == Reject(InsufficientBalance) <==>
              ValidBlackjack(req)
              && (user.None? || (req.action == "deal" && user.value.balance < req.betAmount))
    ensures out == Exhausted <==>
              ValidBlackjack(req) && user.Some?
              && !(req.action == "deal" && user.value.balance < req.betAmount)
              && FisherYates(OrderedDeck(), 51, entropy).None?
    ensures out.Ok? ==> out.value == Settle(user.value.balance, req, FisherYates(OrderedDeck(), 51, entropy).value.deck)
  {
    if !ValidBlackjack(req) then Reject(InvalidParameters)
    else if user.None? || (req.action == "deal" && user.value.balance < req.betAmount) then
      Reject(InsufficientBalance)
    else
      match FisherYates(OrderedDeck(), 51, entropy)
      case None => Exhausted
      case Some(shuffled) => Ok(Settle(user.value.balance, req, shuffled.deck))
  }

  // ---------------------------------------------------------------------------
  // What one step does, whatever the shuffle

  /** A deal only ends the hand on a player 21 in two cards, and a deal that is won is always a
      natural, paid one and a half times the stake, rounded down. */
  lemma DealWinIsNatural(balance: int, req: BlackjackRequest, deck: seq<Card>)
    requires |deck| == 52 && req.action == "deal"
    ensures var r := Settle(balance, req, deck);
              |r.playerCards| == 2 && |r.dealerCards| == 2
              && (r.gameOver <==> r.playerScore == 21)
              && r.result != Some(Lose)
              && (r.result == Some(Win) ==>
                    r.profit as real <= req.betAmount as real * 1.5 < r.profit as real + 1.0)
  {
  }

  /** A hit adds one card to the hand the client sent and ends the hand only by a bust. */
  lemma HitBustsOrGoesOn(balance: int, req: BlackjackRequest, deck: seq<Card>)
    requires |deck| == 52 && req.action == "hit"
    ensures var r := Settle(balance, req, deck);
              |r.playerCards| == |req.playerCards| + 1
              && r.playerCards[..|req.playerCards|] == req.playerCards
              && r.dealerCards == req.dealerCards
              && (r.gameOver <==> r.playerScore > 21)
              && (r.gameOver ==> r.result == Some(Lose) && r.profit == -req.betAmount)
  {
    var r := Settle(balance, req, deck);
    assert r.playerCards[..|req.playerCards|] == req.playerCards;
  }

  /** A stand always ends the hand; the dealer keeps the cards the client sent and draws to at
      least 17.  A dealer bust pays the stake, and so does any player hand over 21: whatever the
      dealer ends on, a player who stands over 21 always wins.  Otherwise the higher score wins
      the stake and equal scores push. */
  lemma StandSettles(balance: int, req: BlackjackRequest, deck: seq<Card>)
    requires |deck| == 52 && req.action == "stand"
    ensures var r := Settle(balance, req, deck);
              r.gameOver && r.playerCards == req.playerCards
              && |req.dealerCards| <= |r.dealerCards|
              && r.dealerCards[..|req.dealerCards|] == req.dealerCards
              && r.dealerScore >= 17
              && (r.dealerScore > 21 ==> r.result == Some(Win) && r.profit == req.betAmount)
              && (r.playerScore > 21 ==> r.result == Some(Win) && r.profit == req.betAmount)
              && (r.dealerScore <= 21 && r.playerScore > r.dealerScore ==>
                    r.result == Some(Win) && r.profit == req.betAmount)
              && (r.dealerScore <= 21 && r.playerScore < r.dealerScore ==>
                    r.result == Some(Lose) && r.profit == -req.betAmount)
              && (r.dealerScore <= 21 && r.playerScore == r.dealerScore ==>
                    r.result == Some(Push) && r.profit == 0)
  {
    JudgeAgainstUsual(HandValue(req.playerCards), HandValue(DealerPlays(req.dealerCards, deck).0));
  }

  /** Any other action leaves the hands as sent and moves no money. */
  lemma UnknownActionChangesNothing(balance: int, req: BlackjackRequest, deck: seq<Card>)
    requires |deck| == 52 && req.action !in {"deal", "hit", "stand"}
    ensures var r := Settle(balance, req, deck);
              r.playerCards == req.playerCards && r.dealerCards == req.dealerCards
              && !r.gameOver && r.profit == 0 && r.newBalance == balance
  {
  }

  /** The hands come from the client: a stand with an ace and a king against a dealer's king
      and queen wins the stake on any deck. */
  lemma StandTrustsClientHands(balance: int, bet: int, deck: seq<Card>)
    requires |deck| == 52
    ensures var req := BlackjackRequest(bet, "stand", [Card(Spades, Ace), Card(Spades, King)],
                                        [Card(Hearts, King), Card(Hearts, Queen)]);
              Settle(balance, req, deck)
                == BlackjackResponse(req.playerCards, req.dealerCards, 21, 20, Some(Win), bet,
                                     balance + bet, true)
  {
    var player := [Card(Spades, Ace), Card(Spades, King)];
    var dealer := [Card(Hearts, King), Card(Hearts, Queen)];
    TwoCardValue(Card(Spades, Ace), Card(Spades, King));
    TwoCardValue(Card(Hearts, King), Card(Hearts, Queen));
  }

  /** Since only a deal checks the balance, a losing stand takes a stake the balance never
      covered: a two and a three against a king and a queen leave a balance below the stake
      negative. */
  lemma StandCanOverdraw(balance: int, bet: int, deck: seq<Card>)
    requires |deck| == 52 && bet > balance
    ensures var req := BlackjackRequest(bet, "stand", [Card(Spades, Two), Card(Spades, Three)],
                                        [Card(Hearts, King), Card(Hearts, Queen)]);
              var r := Settle(balance, req, deck);
              r.result == Some(Lose) && r.newBalance < 0
  {
    TwoCardValue(Card(Spades, Two), Card(Spades, Three));
    TwoCardValue(Card(Hearts, King), Card(Hearts, Queen));
  }

  /** The value of a two-card hand without aces, or of an ace with a ten-point card. */
  lemma TwoCardValue(a: Card, b: Card)
    ensures a.value != Ace && b.value != Ace ==> HandValue([a, b]) == SoftPoints(a.value) + SoftPoints(b.value)
    ensures a.value == Ace && SoftPoints(b.value) == 10 ==> HandValue([a, b]) == 21
  {
    var hand := [a, b];
    assert hand[..1] == [a] && [a][..0] == [];
    assert SoftTotal([a]) == SoftPoints(a.value);
    assert AceCount([a]) == AceCount([]) + (if a.value == Ace then 1 else 0);
    assert SoftTotal(hand) == SoftPoints(a.value) + SoftPoints(b.value);
    assert AceCount(hand) == (if a.value == Ace then 1 else 0) + (if b.value == Ace then 1 else 0);
  }

  /** On a deck that holds each card at most once, the four cards a deal hands out are four
      different cards. */
  lemma DealtCardsDistinct(balance: int, req: BlackjackRequest, deck: seq<Card>)
    requires |deck| == 52 && req.action == "deal"
    requires forall c :: multiset(deck)[c] <= 1
    ensures var r := Settle(balance, req, deck);
              Distinct(r.playerCards + r.dealerCards)
  {
    SingleCopiesDistinct(deck);
    var r := Settle(balance, req, deck);
    assert r.playerCards + r.dealerCards == [deck[51], deck[50], deck[49], deck[48]];
  }

  // ---------------------------------------------------------------------------
  // The route

  /** The step and its money, computed as the route does before it writes anything. */
  method Respond(balance: int, req: BlackjackRequest, deck: seq<Card>) returns (response: BlackjackResponse)
    requires |deck| == 52
    ensures response == Settle(balance, req, deck)
  {
    var round := PlayRound(req.action, req.playerCards, req.dealerCards, deck);
    var profit := 0;
    var newBalance := balance;
    if round.result.Some? {
      profit := Payout(req.action, round.player, round.result, req.betAmount);
      newBalance := balance + profit;
    }
    var playerScore := CalculateHandValue(round.player);
    var dealerScore := CalculateHandValue(round.dealer);
    response := BlackjackResponse(round.player, round.dealer, playerScore, dealerScore, round.result,
                                  profit, newBalance, round.result.Some?);
  }

  /** POST /api/game/blackjack for the session's user `userId`, with the oracle `entropy` and
      the clock reading `now`.  Only a finished hand moves money or records a bet. */
  method PlayBlackjack(store: MemStorage, userId: int, req: BlackjackRequest, entropy: seq<Byte>, now: int)
      returns (out: Outcome<BlackjackResponse>)
    requires store.Valid()
    modifies store
    ensures store.Valid()
    ensures out == BlackjackOutcome(old(store.GetUser(userId)), req, entropy)
    ensures !(out.Ok? && out.value.gameOver) ==>
              store.users == old(store.users) && store.bets == old(store.bets)
              && store.currentBetId == old(store.currentBetId)
    ensures out.Ok? && out.value.gameOver ==>
              store.users == old(store.users)[userId := old(store.users)[userId].(balance := out.value.newBalance)]
    ensures out.Ok? && out.value.gameOver ==>
              store.bets == old(store.bets)[old(store.currentBetId) :=
                Bet(old(store.currentBetId), userId, BlackjackGame, req.betAmount, out.value.profit,
                    BlackjackData(out.value.playerCards, out.value.dealerCards, out.value.playerScore,
                                  out.value.dealerScore, out.value.result.value), now)]
    ensures out.Ok? && out.value.gameOver ==> store.currentBetId == old(store.currentBetId) + 1
    ensures store.currentUserId == old(store.currentUserId)
  {
    if req.betAmount == 0 || req.action == "" || req.betAmount <= 0 {
      return Reject(InvalidParameters);
    }
    var user := store.GetUser(userId);
    if user.None? || (req.action == "deal" && user.value.balance < req.betAmount) {
      return Reject(InsufficientBalance);
    }
    var shuffled := CreateDeck(entropy);
    if shuffled.None? {
      return Exhausted;
    }
    var response := Respond(user.value.balance, req, shuffled.value.deck);
    if response.gameOver {
      var bet := Record(store, user.value, response.newBalance, BlackjackGame, req.betAmount, response.profit,
                        BlackjackData(response.playerCards, response.dealerCards, response.playerScore,
                                      response.dealerScore, response.result.value),
                        now);
    }
    out := Ok(response);
  }
}
