/** The mines route: mines are laid on a 5 x 5 board around the cells the player says they
    revealed, and the round is settled in a single request. */
module Mines {
  import opened Wrappers
  import opened Schema
  import opened Entropy
  import opened Storage
  import opened Settlement
  import opened Arith
  import opened Seqs

  const TotalCells: int := 25
  const MaxMultiplier: int := 10

  /** The body fields the route reads; `revealedPositions` is `None` when it is not an array. */
  datatype MinesRequest = MinesRequest(betAmount: int, mineCount: int, revealedPositions: Option<seq<int>>)

  /** `minePositions` is sent only when a mine was hit. */
  datatype MinesResponse = MinesResponse(hitMine: bool, minePositions: seq<int>, profit: int,
                                         newBalance: int, win: bool)

  /** The input guard, with JavaScript falsiness written out: the revealed list when the
      request may be played. */
  function ValidateMines(req: MinesRequest): (r: Option<seq<int>>)
    ensures r.Some? <==> req.betAmount > 0 && 1 <= req.mineCount <= 24 && req.revealedPositions.Some?
    ensures r.Some? ==> r == req.revealedPositions
  {
    if req.betAmount == 0 || req.mineCount == 0 || req.revealedPositions.None?
       || req.betAmount <= 0 || req.mineCount < 1 || req.mineCount > 24
    then None
    else req.revealedPositions
  }

  /** The board cells the player did not claim to have revealed. */
  ghost function FreeCells(revealed: seq<int>): (cells: set<int>)
  {
    set c | 0 <= c < TotalCells && c !in revealed
  }

  /** Mines on distinct board cells, none of them on a revealed cell. */
  ghost predicate MineLayout(mines: seq<int>, revealed: seq<int>)
  {
    Distinct(mines)
    && (forall i :: 0 <= i < |mines| ==> 0 <= mines[i] < TotalCells && mines[i] !in revealed)
  }

  /** The placement loop as a recursion: draw a cell, keep it if it is neither a mine yet nor
      revealed, until `count` mines are down; `None` when the oracle runs dry first. */
  function Placement(count: int, revealed: seq<int>, placed: seq<int>, entropy: seq<Byte>): (r: Option<seq<int>>)
    requires MineLayout(placed, revealed) && |placed| <= count
    ensures r.Some? ==> MineLayout(r.value, revealed) && |r.value| == count
    ensures r.Some? ==> placed <= r.value
    decreases |entropy|
  {
    if |placed| >= count then Some(placed)
    else
      match Sample(0, TotalCells - 1, entropy)
      case None => None
      case Some(draw) =>
        if draw.value !in placed && draw.value !in revealed
        then Placement(count, revealed, placed + [draw.value], draw.rest)
        else Placement(count, revealed, placed, draw.rest)
  }

  /** The loop that lays the mines. */
  method PlaceMines(mineCount: int, revealed: seq<int>, entropy: seq<Byte>) returns (mines: Option<seq<int>>)
    requires mineCount >= 0
    ensures mines == Placement(mineCount, revealed, [], entropy)
    ensures mines.Some? ==> MineLayout(mines.value, revealed) && |mines.value| == mineCount
  {
    var minePositions: seq<int> := [];
    var pending := entropy;
    while |minePositions| < mineCount
      invariant MineLayout(minePositions, revealed) && |minePositions| <= mineCount
      invariant Placement(mineCount, revealed, minePositions, pending) == Placement(mineCount, revealed, [], entropy)
      decreases |pending|
    {
      var position := SecureRandom(0, TotalCells - 1, pending);
      if position.None? {
        return None;
      }
      if position.value.value !in minePositions && position.value.value !in revealed {
        minePositions := minePositions + [position.value.value];
      }
      pending := position.value.rest;
    }
    mines := Some(minePositions);
  }

  /** A layout fits in the free cells, so a placement only completes when there are at least
      `mineCount` free cells; with fewer, the loop draws forever. */
  lemma LayoutFitsFreeCells(mines: seq<int>, revealed: seq<int>)
    requires MineLayout(mines, revealed)
    ensures |mines| <= |FreeCells(revealed)|
  {
    var cells := set m | m in mines;
    DistinctElements(mines);
    SubsetSize(cells, FreeCells(revealed));
  }

  lemma SubsetSize(a: set<int>, b: set<int>)
    requires a <= b
    ensures |a| <= |b|
  {
    assert b == a + (b - a);
    assert a * (b - a) == {};
  }

  /** `revealedPositions.some(pos => minePositions.includes(pos))`. */
  function HitMine(revealed: seq<int>, mines: seq<int>): (hit: bool)
    ensures hit <==> exists i :: 0 <= i < |revealed| && revealed[i] in mines
  {
    if revealed == [] then false
    else revealed[0] in mines || HitMine(revealed[1..], mines)
  }

  /** Mines are laid around the revealed cells, so a revealed cell never holds one. */
  lemma NeverHitsMine(revealed: seq<int>, mines: seq<int>)
    requires MineLayout(mines, revealed)
    ensures !HitMine(revealed, mines)
  {
    forall i | 0 <= i < |revealed|
      ensures revealed[i] !in mines
    {
    }
  }

  /** The multiplier for `revealed` safe reveals out of `safeCells`:
      1 + (revealed / safeCells)^2 * 10. */
  function Multiplier(revealed: nat, safeCells: int): (m: real)
    requires safeCells > 0
  {
    var ratio := revealed as real / safeCells as real;
    1.0 + ratio * ratio * MaxMultiplier as real
  }

  /** `Math.floor(betAmount * (multiplier - 1))` in exact arithmetic. */
  function WinProfit(bet: int, revealed: nat, safeCells: int): (profit: int)
    requires safeCells > 0
    ensures profit as real <= bet as real * (Multiplier(revealed, safeCells) - 1.0) < profit as real + 1.0
    ensures bet >= 0 ==> profit >= 0
  {
    assert bet >= 0 ==> bet * MaxMultiplier * revealed * revealed >= 0 by {
      if bet >= 0 {
        assert bet * MaxMultiplier >= 0;
        assert bet * MaxMultiplier * revealed >= 0;
      }
    }
    ExactProfit(bet, revealed, safeCells);
    FloorOfQuotient(bet * MaxMultiplier * revealed * revealed, safeCells * safeCells);
    (bet * MaxMultiplier * revealed * revealed) / (safeCells * safeCells)
  }

  lemma ExactProfit(bet: int, revealed: nat, safeCells: int)
    requires safeCells > 0
    ensures bet as real * (Multiplier(revealed, safeCells) - 1.0)
              == (bet * MaxMultiplier * revealed * revealed) as real / (safeCells * safeCells) as real
  {
    var n, s, b := revealed as real, safeCells as real, bet as real;
    assert (n / s) * (n / s) == (n * n) / (s * s);
    assert (bet * MaxMultiplier * revealed * revealed) as real == b * 10.0 * (n * n);
    assert (safeCells * safeCells) as real == s * s;
  }

  /** Revealing more never pays less. */
  lemma ProfitMonotone(bet: nat, fewer: nat, more: nat, safeCells: int)
    requires safeCells > 0 && fewer <= more
    ensures WinProfit(bet, fewer, safeCells) <= WinProfit(bet, more, safeCells)
  {
    var c := bet * MaxMultiplier;
    MulMonotone(fewer, more, fewer);
    MulMonotone(fewer, more, more);
    MulMonotone(fewer * fewer, more * more, c);
    assert bet * MaxMultiplier * fewer * fewer == (fewer * fewer) * c;
    assert bet * MaxMultiplier * more * more == (more * more) * c;
    DivMonotone((fewer * fewer) * c, (more * more) * c, safeCells * safeCells);
  }

  /** Clearing every safe cell pays ten times the stake. */
  lemma FullClearPaysTenfold(bet: int, mineCount: int)
    requires 1 <= mineCount <= 24
    ensures WinProfit(bet, TotalCells - mineCount, TotalCells - mineCount) == MaxMultiplier * bet
  {
    var s := TotalCells - mineCount;
    assert bet * MaxMultiplier * s * s == (MaxMultiplier * bet) * (s * s);
    DivModOfBlock(MaxMultiplier * bet, s * s, 0, (MaxMultiplier * bet) * (s * s));
  }

  /** The reveal count is the length of the list the client sends, repeats included, so the
      payout has no ceiling: for any amount some list of reveals wins more than it. */
  lemma PayoutUnbounded(bet: int, safeCells: int, amount: int)
    requires bet > 0 && safeCells > 0 && amount >= 0
    ensures WinProfit(bet, (amount + 1) * safeCells, safeCells) > amount
  {
    var k := amount + 1;
    var n := k * safeCells;
    var d := safeCells * safeCells;
    var m := (bet * MaxMultiplier) * (k * k);
    assert bet * MaxMultiplier * n * n == m * d;
    DivModOfBlock(m, d, 0, m * d);
    MulAtLeast(k, k);
    MulAtLeast(bet * MaxMultiplier, k * k);
  }

  /** The whole round as the route plays it, for the user the session names. */
  function MinesOutcome(user: Option<User>, req: MinesRequest, entropy: seq<Byte>): (out: Outcome<MinesResponse>)
    ensures out == Reject(InvalidParameters) <==> ValidateMines(req).None?
    ensures out == Reject(InsufficientBalance) <==>
              ValidateMines(req).Some? && (user.None? || user.value.balance < req.betAmount)
    ensures out.Ok? ==> |FreeCells(req.revealedPositions.value)| >= req.mineCount
    ensures out.Ok? ==> !out.value.hitMine && out.value.win && out.value.minePositions == []
    ensures out.Ok? ==> out.value.profit >= 0
    ensures out.Ok? ==> out.value.profit == WinProfit(req.betAmount, |req.revealedPositions.value|, TotalCells - req.mineCount)
    ensures out.Ok? ==> out.value.newBalance == user.value.balance + out.value.profit >= req.betAmount
  {
    match ValidateMines(req)
    case None => Reject(InvalidParameters)
    case Some(revealed) =>
      if user.None? || user.value.balance < req.betAmount then Reject(InsufficientBalance)
      else
        match Placement(req.mineCount, revealed, [], entropy)
        case None => Exhausted
        case Some(mines) =>
          LayoutFitsFreeCells(mines, revealed);
          NeverHitsMine(revealed, mines);
          var hitMine := HitMine(revealed, mines);
          var profit := if hitMine then -req.betAmount
                        else WinProfit(req.betAmount, |revealed|, TotalCells - req.mineCount);
          Ok(MinesResponse(hitMine, if hitMine then mines else [], profit, user.value.balance + profit, !hitMine))
  }

  /** The unbounded payout as a request: a stake of `bet` on `mineCount` mines with cell 0
      listed (amount + 1) * (25 - mineCount) times as revealed wins more than `amount`
      whenever the round is played. */
  lemma RepeatedRevealsPayAnyAmount(user: Option<User>, bet: int, mineCount: int, amount: int,
                                    entropy: seq<Byte>)
    requires bet > 0 && 1 <= mineCount <= 24 && amount >= 0
    ensures var req := MinesRequest(bet, mineCount,
                                    Some(seq((amount + 1) * (TotalCells - mineCount), _ => 0)));
              MinesOutcome(user, req, entropy).Ok? ==> MinesOutcome(user, req, entropy).value.profit > amount
  {
    var revealed := seq((amount + 1) * (TotalCells - mineCount), _ => 0);
    var req := MinesRequest(bet, mineCount, Some(revealed));
    PayoutUnbounded(bet, TotalCells - mineCount, amount);
    assert MinesOutcome(user, req, entropy).Ok? ==>
             MinesOutcome(user, req, entropy).value.profit == WinProfit(bet, |revealed|, TotalCells - mineCount);
  }

  /** The mine layout the route records with a played round. */
  function MinesLaid(req: MinesRequest, entropy: seq<Byte>): (mines: Option<seq<int>>)
    requires ValidateMines(req).Some?
  {
    Placement(req.mineCount, req.revealedPositions.value, [], entropy)
  }

  /** POST /api/game/mines for the session's user `userId`, with the oracle `entropy` and the
      clock reading `now`.  Nothing is written unless the round is played to the end. */
  method PlayMines(store: MemStorage, userId: int, req: MinesRequest, entropy: seq<Byte>, now: int)
      returns (out: Outcome<MinesResponse>)
    requires store.Valid()
    modifies store
    ensures store.Valid()
    ensures out == MinesOutcome(old(store.GetUser(userId)), req, entropy)
    ensures !out.Ok? ==> store.users == old(store.users) && store.bets == old(store.bets)
                         && store.currentBetId == old(store.currentBetId)
    ensures out.Ok? ==> store.users == old(store.users)[userId := old(store.users)[userId].(balance := out.value.newBalance)]
    ensures out.Ok? ==> MinesLaid(req, entropy).Some?
    ensures out.Ok? ==> store.bets == old(store.bets)[old(store.currentBetId) :=
              Bet(old(store.currentBetId), userId, MinesGame, req.betAmount, out.value.profit,
                  MinesData(req.mineCount, |req.revealedPositions.value|, MinesLaid(req, entropy).value,
                            req.revealedPositions.value), now)]
    ensures out.Ok? ==> store.currentBetId == old(store.currentBetId) + 1
    ensures store.currentUserId == old(store.currentUserId)
  {
    var revealed := ValidateMines(req);
    if revealed.None? {
      return Reject(InvalidParameters);
    }
    var revealedPositions := revealed.value;
    var user := store.GetUser(userId);
    if user.None? || user.value.balance < req.betAmount {
      return Reject(InsufficientBalance);
    }
    var minePositions := PlaceMines(req.mineCount, revealedPositions, entropy);
    if minePositions.None? {
      return Exhausted;
    }
    var hitMine := HitMine(revealedPositions, minePositions.value);
    var profit := -req.betAmount;
    if !hitMine {
      profit := WinProfit(req.betAmount, |revealedPositions|, TotalCells - req.mineCount);
    }
    var newBalance := user.value.balance + profit;
    var bet := Record(store, user.value, newBalance, MinesGame, req.betAmount, profit,
                      MinesData(req.mineCount, |revealedPositions|, minePositions.value, revealedPositions), now);
    out := Ok(MinesResponse(hitMine, if hitMine then minePositions.value else [], profit, newBalance, !hitMine));
  }
}
