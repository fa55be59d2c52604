/** The dice route: one roll of a fair die against an over/under prediction. */
module Dice {
  import opened Wrappers
  import opened Schema
  import opened Entropy
  import opened Storage
  import opened Settlement
  import opened Arith

  /** The body fields the route reads; a missing number is 0 and a missing string is "". */
  datatype DiceRequest = DiceRequest(betAmount: int, prediction: string, targetValue: int)

  datatype DiceResponse = DiceResponse(result: int, profit: int, newBalance: int, win: bool)

  /** The input guard, with JavaScript falsiness written out: `Some(prediction)` when the
      request may be played. */
  function ValidateDice(req: DiceRequest): (r: Option<Prediction>)
    ensures r.Some? <==> req.betAmount > 0 && 1 <= req.targetValue <= 6
                         && (req.prediction == "over" || req.prediction == "under")
    ensures r == Some(Over) <==> r.Some? && req.prediction == "over"
  {
    if req.betAmount == 0 || req.prediction == "" || req.targetValue == 0
       || (req.prediction != "over" && req.prediction != "under")
       || req.betAmount <= 0 || req.targetValue < 1 || req.targetValue > 6
    then None
    else if req.prediction == "over" then Some(Over)
    else Some(Under)
  }

  /** The win test as written: the "under" branch sets the flag to false, so only "over" wins. */
  function IsWin(prediction: Prediction, roll: int, target: int): (win: bool)
    ensures win <==> prediction == Over && roll > target
    ensures prediction == Under ==> !win
  {
    if prediction == Over && roll > target then true
    else if prediction == Under && roll < target then false
    else false
  }

  /** The payout multiplier: the fair odds 6 / (winning faces) less a 5% house edge. */
  function Multiplier(prediction: Prediction, target: int): (m: real)
    requires prediction == Over ==> target < 6
    requires prediction == Under ==> target > 1
  {
    (if prediction == Over then 6.0 / (6 - target) as real else 6.0 / (target - 1) as real) * 0.95
  }

  /** `Math.floor(betAmount * (multiplier - 1))` in exact arithmetic: over t pays
      bet * (10t - 3) / (10 (6 - t)), under t would pay bet * (67 - 10t) / (10 (t - 1)). */
  function WinProfit(prediction: Prediction, target: int, bet: int): (profit: int)
    requires 1 <= target <= 6
    requires prediction == Over ==> target < 6
    requires prediction == Under ==> target > 1
    ensures profit as real <= bet as real * (Multiplier(prediction, target) - 1.0) < profit as real + 1.0
    ensures bet >= 0 ==> profit >= 0
  {
    var n := if prediction == Over then bet * (10 * target - 3) else bet * (67 - 10 * target);
    var d := if prediction == Over then 10 * (6 - target) else 10 * (target - 1);
    assert bet >= 0 ==> n >= 0 by {
      if bet >= 0 {
        var f := if prediction == Over then 10 * target - 3 else 67 - 10 * target;
        assert f >= 0 && n == bet * f;
        MulMonotone(0, bet, f);
      }
    }
    ExactMultiplier(prediction, target, bet);
    FloorOfQuotient(n, d);
    n / d
  }

  /** bet * (multiplier - 1) as one fraction, face by face. */
  lemma ExactMultiplier(prediction: Prediction, target: int, bet: int)
    requires 1 <= target <= 6
    requires prediction == Over ==> target < 6
    requires prediction == Under ==> target > 1
    ensures prediction == Over ==>
      bet as real * (Multiplier(prediction, target) - 1.0)
        == (bet * (10 * target - 3)) as real / (10 * (6 - target)) as real
    ensures prediction == Under ==>
      bet as real * (Multiplier(prediction, target) - 1.0)
        == (bet * (67 - 10 * target)) as real / (10 * (target - 1)) as real
  {
    var b := bet as real;
    if prediction == Over {
      if target == 1 { assert Multiplier(Over, 1) == 1.14; assert b * 0.14 == (bet * 7) as real / 50.0; }
      else if target == 2 { assert Multiplier(Over, 2) == 1.425; assert b * 0.425 == (bet * 17) as real / 40.0; }
      else if target == 3 { assert Multiplier(Over, 3) == 1.9; assert b * 0.9 == (bet * 27) as real / 30.0; }
      else if target == 4 { assert Multiplier(Over, 4) == 2.85; assert b * 1.85 == (bet * 37) as real / 20.0; }
      else { assert Multiplier(Over, 5) == 5.7; assert b * 4.7 == (bet * 47) as real / 10.0; }
    } else {
      if target == 2 { assert Multiplier(Under, 2) == 5.7; assert b * 4.7 == (bet * 47) as real / 10.0; }
      else if target == 3 { assert Multiplier(Under, 3) == 2.85; assert b * 1.85 == (bet * 37) as real / 20.0; }
      else if target == 4 { assert Multiplier(Under, 4) == 1.9; assert b * 0.9 == (bet * 27) as real / 30.0; }
      else if target == 5 { assert Multiplier(Under, 5) == 1.425; assert b * 0.425 == (bet * 17) as real / 40.0; }
      else { assert Multiplier(Under, 6) == 1.14; assert b * 0.14 == (bet * 7) as real / 50.0; }
    }
  }

  /** The whole round as the route plays it, for the user the session names (`None` when the
      store has no such user). */
  function DiceOutcome(user: Option<User>, req: DiceRequest, entropy: seq<Byte>): (out: Outcome<DiceResponse>)
    ensures out == Reject(InvalidParameters) <==> ValidateDice(req).None?
    ensures out == Reject(InsufficientBalance) <==>
              ValidateDice(req).Some? && (user.None? || user.value.balance < req.betAmount)
    ensures out == Exhausted <==>
              ValidateDice(req).Some? && user.Some? && user.value.balance >= req.betAmount
              && Sample(1, 6, entropy).None?
    ensures out.Ok? ==> 1 <= out.value.result <= 6
    ensures out.Ok? ==> (out.value.win <==> req.prediction == "over" && out.value.result > req.targetValue)
    ensures out.Ok? && !out.value.win ==> out.value.profit == -req.betAmount
    ensures out.Ok? && out.value.win ==> 0 <= out.value.profit
    ensures out.Ok? && out.value.win ==>
              1 <= req.targetValue < 6 && out.value.profit == WinProfit(Over, req.targetValue, req.betAmount)
    ensures out.Ok? ==> out.value.newBalance == user.value.balance + out.value.profit >= 0
  {
    match ValidateDice(req)
    case None => Reject(InvalidParameters)
    case Some(prediction) =>
      if user.None? || user.value.balance < req.betAmount then Reject(InsufficientBalance)
      else
        match Sample(1, 6, entropy)
        case None => Exhausted
        case Some(draw) =>
          var win := IsWin(prediction, draw.value, req.targetValue);
          var profit := if win then WinProfit(prediction, req.targetValue, req.betAmount) else -req.betAmount;
          Ok(DiceResponse(draw.value, profit, user.value.balance + profit, win))
  }

  /** "under" is a losing bet whatever the roll: every played round with it loses the stake. */
  lemma UnderAlwaysLoses(user: Option<User>, req: DiceRequest, entropy: seq<Byte>)
    requires req.prediction == "under"
    requires DiceOutcome(user, req, entropy).Ok?
    ensures !DiceOutcome(user, req, entropy).value.win
    ensures DiceOutcome(user, req, entropy).value.profit == -req.betAmount
  {
  }

  /** The faces on which a prediction wins. */
  ghost function WinningFaces(prediction: Prediction, target: int): (faces: set<int>)
  {
    set roll | 1 <= roll <= 6 && IsWin(prediction, roll, target)
  }

  /** The house edge the multiplier is built for: on a fair die an "over" bet returns 95% of
      the stake on average (exactly, before flooring); an "under" bet has no winning face. */
  lemma ExpectedReturn(prediction: Prediction, target: int)
    requires 1 <= target <= 6
    requires prediction == Over ==> target < 6
    requires prediction == Under ==> target > 1
    ensures prediction == Over ==> |WinningFaces(prediction, target)| as real / 6.0 * Multiplier(prediction, target) == 0.95
    ensures prediction == Under ==> |WinningFaces(prediction, target)| == 0
  {
    var faces := WinningFaces(prediction, target);
    if prediction == Under {
      assert faces == {};
    } else if target == 1 {
      assert faces == {2, 3, 4, 5, 6};
    } else if target == 2 {
      assert faces == {3, 4, 5, 6};
    } else if target == 3 {
      assert faces == {4, 5, 6};
    } else if target == 4 {
      assert faces == {5, 6};
    } else {
      assert faces == {6};
    }
  }

  /** POST /api/game/dice for the session's user `userId`, with the oracle `entropy` and the
      clock reading `now`.  Nothing is written unless the round is played to the end. */
  method PlayDice(store: MemStorage, userId: int, req: DiceRequest, entropy: seq<Byte>, now: int)
      returns (out: Outcome<DiceResponse>)
    requires store.Valid()
    modifies store
    ensures store.Valid()
    ensures out == DiceOutcome(old(store.GetUser(userId)), req, entropy)
    ensures !out.Ok? ==> store.users == old(store.users) && store.bets == old(store.bets)
                         && store.currentBetId == old(store.currentBetId)
    ensures out.Ok? ==> store.users == old(store.users)[userId := old(store.users)[userId].(balance := out.value.newBalance)]
    ensures out.Ok? ==> store.bets == old(store.bets)[old(store.currentBetId) :=
              Bet(old(store.currentBetId), userId, DiceGame, req.betAmount, out.value.profit,
                  DiceData(ValidateDice(req).value, req.targetValue, out.value.result), now)]
    ensures out.Ok? ==> store.currentBetId == old(store.currentBetId) + 1
    ensures store.currentUserId == old(store.currentUserId)
  {
    var prediction := ValidateDice(req);
    if prediction.None? {
      return Reject(InvalidParameters);
    }
    var user := store.GetUser(userId);
    if user.None? || user.value.balance < req.betAmount {
      return Reject(InsufficientBalance);
    }
    var roll := SecureRandom(1, 6, entropy);
    if roll.None? {
      return Exhausted;
    }
    var diceResult := roll.value.value;
    var isWin := IsWin(prediction.value, diceResult, req.targetValue);
    var profit := -req.betAmount;
    if isWin {
      profit := WinProfit(prediction.value, req.targetValue, req.betAmount);
    }
    var newBalance := user.value.balance + profit;
    var bet := Record(store, user.value, newBalance, DiceGame, req.betAmount, profit,
                      DiceData(prediction.value, req.targetValue, diceResult), now);
    out := Ok(DiceResponse(diceResult, profit, newBalance, isWin));
  }
}
