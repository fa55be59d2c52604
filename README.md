# Casino wagering core in Dafny

This project models the server side of a small online casino: three games and the store behind them. Each game settles one bet per request.

- **Dice.** Bet that a die lands over or under a target.
- **Mines.** The player names the cells of a 5 x 5 board they revealed; mines are laid around them and the round is paid.
- **Blackjack.** Each request plays one step of a hand (`deal`, `hit` or `stand`) on a freshly shuffled deck.

Every game reads the user's balance, writes the new balance and records the bet in an in-memory store. The store keeps users and bets in maps keyed by id and hands out ids from two counters.

The modules follow the program:

| module | models |
|---|---|
| `Wrappers` | `Option`, and the `Outcome` of a game request: `Reject` (invalid parameters, insufficient balance), `Exhausted`, or `Ok` |
| `Schema` | users, bets, cards and the per-game bet data of `shared/schema.ts` |
| `Entropy` | `secureRandom`: rejection sampling over bytes from an entropy oracle |
| `Cards` | `calculateHandValue` and `createDeck` with its in-place Fisher-Yates shuffle |
| `Storage` | class `MemStorage` and the newest-first bet listing |
| `Settlement` | the write-balance-then-record-bet tail that every game runs |
| `Dice`, `Mines`, `Blackjack` | the three game routes |
| `Arith` | integer division facts the payout proofs share |
| `Seqs` | sequences that hold no value twice, shared by the deck, the mine layout and the deal |

**Randomness.** The cryptographic byte source is an oracle: a finite `seq<bv8>` handed in by the caller. Every draw takes bytes from its front and hands the rest back. When the oracle runs dry before a draw is accepted, the request ends `Exhausted` and nothing is written. The source would keep drawing instead. Every handler draws before it writes anything.

**Each route has two forms.**

- A function gives the whole request's answer from the user record, the request and the oracle: `DiceOutcome`, `MinesOutcome`, `BlackjackOutcome`.
- A method runs the route's steps against a `MemStorage`: `PlayDice`, `PlayMines`, `PlayBlackjack`. It is proved to answer what the function says, and to change the store exactly as the route does.

**Modelled as written.** The model keeps the routes' actual behaviour, and lemmas state where it departs from what a player might expect:

- a dice "under" bet never wins (`Dice.UnderAlwaysLoses`);
- a mines round never hits a mine, because mines are laid around the cells the client says it revealed (`Mines.NeverHitsMine`);
- the mines payout has no ceiling, since a revealed cell listed twice counts twice (`Mines.RepeatedRevealsPayAnyAmount`);
- blackjack trusts the hands the client sends back (`Blackjack.StandTrustsClientHands`);
- blackjack checks the balance only on a deal, so a losing stand can leave a negative balance (`Blackjack.StandCanOverdraw`);
- a player over 21 who stands always wins the stake, whatever the dealer ends on (`Blackjack.JudgeAgainstUsual`, `Blackjack.StandSettles`).

## Model

| member | source | states |
|---|---|---|
| Entropy.BytesNeeded | server/routes.ts:11 | the byte count is the fewest whose value space 256^b holds `range` values |
| Entropy.CutoffIsLargestMultiple | server/routes.ts:12-13 | the cutoff is a positive multiple of the range, at most 256^bytesNeeded, and the largest such multiple |
| Entropy.Sample | server/routes.ts:9-21 | an accepted draw lies in [min, max] and consumes bytes from the oracle |
| Entropy.SecureRandom | server/routes.ts:9-21 | the do-while rejection loop returns exactly the draw `Sample` describes, a value in [min, max], or runs the oracle dry |
| Entropy.EachOutcomeEquallyLikely | server/routes.ts:13-20 | no modulo bias: every value of [min, max] comes from exactly cutoff / range accepted byte values |
| Cards.HandValueIsBestValue | server/routes.ts:44-66 | the ace-downgrading loop always gives the usual blackjack score: the hard total, plus 10 when an ace can count 11 without passing 21 |
| Cards.HandValueShape | server/routes.ts:44-66 | the value is the hard total plus 10 per ace still at 11, never less than the hard total, and over 21 only when every ace counts 1 |
| Cards.HandValueExamples | server/routes.ts:44-66 | two aces and a nine are worth 21, king and queen 20, ace and king 21 |
| Cards.CalculateHandValue | server/routes.ts:44-66 | the summing loop and the downgrade loop compute the hand value |
| Cards.OrderedDeckHoldsEachCardOnce | server/routes.ts:25-33 | the suit-by-value deck holds 52 cards, each card exactly once |
| Cards.NewOrderedDeck | server/routes.ts:25-33 | the nested push loops fill a fresh 52-card array with the ordered deck |
| Cards.SwapPermutes | server/routes.ts:38 | exchanging two positions keeps the same cards |
| Cards.Draws | server/routes.ts:36-37 | the pass makes one draw per round, and the swap index drawn in round i lies in [0, i] |
| Cards.SwapDownPermutes | server/routes.ts:36-38 | the swaps of the pass only reorder the deck |
| Cards.FisherYatesPermutes | server/routes.ts:35-39 | a completed shuffle keeps the deck's length and is a permutation of it |
| Cards.FisherYatesStep | server/routes.ts:36-39 | one round swaps position i with a draw from [0, i] and continues from i - 1 with the bytes left over |
| Cards.ShuffleStep | server/routes.ts:37-38 | one in-place round leaves the array where the remaining rounds of the shuffle pick up |
| Cards.Shuffle | server/routes.ts:35-39 | the in-place loop leaves in the array exactly the shuffle of its old contents |
| Cards.CreateDeck | server/routes.ts:24-42 | the deck is the shuffle of the ordered deck and holds all 52 cards, each once |
| Cards.ShuffledDeckHoldsEachCardOnce | server/routes.ts:24-42 | every deck the shuffle completes holds each of the 52 cards exactly once |
| Storage.MemStorage.constructor | server/storage.ts:24-32 | the store starts with no users and no bets, and both counters at 1 |
| Storage.MemStorage.GetUser | server/storage.ts:34-36 | a user exists exactly for the ids handed out so far, and it carries that id |
| Storage.MemStorage.GetUserByUsername | server/storage.ts:38-42 | a user is found iff one has that name, and it is the one with the lowest id |
| Storage.MemStorage.CreateUser | server/storage.ts:44-55 | the new user takes the next id, starts at balance 10000, has an id above every existing one, and no bet changes |
| Storage.MemStorage.UpdateUserBalance | server/storage.ts:57-64 | an unknown id changes nothing; otherwise only that user's balance changes |
| Storage.MemStorage.GetUserBets | server/storage.ts:66-73 | the listing holds exactly that user's bets, newest first |
| Storage.MemStorage.CreateBet | server/storage.ts:75-85 | the bet takes the next id, and every existing bet is kept unchanged |
| Storage.OfUser | server/storage.ts:67-68 | the filter keeps exactly the bets of that user, and keeps id order |
| Storage.InsertByRecency | server/storage.ts:69-72 | one insertion step of the sort adds its bet and loses none |
| Storage.SortNewestFirst | server/storage.ts:69-72 | sorting by timestamp is a permutation of its input |
| Storage.LedgerHolds | server/storage.ts:67 | iterating the bet map yields exactly the stored bets with ids below the counter, in id order |
| Storage.LedgerMembers | server/storage.ts:67 | in a well-formed store, iterating the bet map yields every stored bet, in id order |
| Storage.LedgerAppend | server/storage.ts:75-85 | storing a bet under the next id appends it to the map's iteration order |
| Storage.InsertKeepsNewestFirst | server/storage.ts:69-72 | inserting a later-stored bet keeps a listing newest first |
| Storage.SortedNewestFirst | server/storage.ts:69-72 | sorting bets that are in id order gives newest first, with ties in the order the bets were stored |
| Storage.UserBetsListing | server/storage.ts:66-73 | the listing holds exactly the user's stored bets and is newest first |
| Storage.ListingDetermined | server/storage.ts:69-72 | two newest-first listings of the same bets are equal, so the order leaves nothing to chance |
| Storage.OtherUsersUnaffected | server/storage.ts:66-85 | recording a bet never changes another user's history |
| Storage.NewestBetListedFirst | server/storage.ts:66-85 | a bet stamped later than all stored bets heads its owner's history |
| Settlement.Record | server/routes.ts:149-166 | only the user's balance changes, and one bet with the next id is added |
| Dice.ValidateDice | server/routes.ts:109-115 | a request is played iff the stake is positive, the target is in 1..6 and the prediction is "over" or "under" |
| Dice.IsWin | server/routes.ts:127-132 | a roll wins iff the prediction is "over" and the roll is above the target; "under" never wins |
| Dice.WinProfit | server/routes.ts:134-147 | the profit is the floor of stake x (multiplier - 1), and it is not negative for a non-negative stake |
| Dice.ExactMultiplier | server/routes.ts:137-146 | stake x (multiplier - 1) is the fraction (10t - 3) / (10 (6 - t)) of the stake over t, and (67 - 10t) / (10 (t - 1)) under t |
| Dice.DiceOutcome | server/routes.ts:104-177 | invalid or unaffordable bets are rejected; a played roll is in 1..6; a loss costs the stake, a win (only ever "over") pays the floored multiplier profit, and the new balance stays non-negative |
| Dice.UnderAlwaysLoses | server/routes.ts:127-135 | every played "under" round is lost and costs the stake |
| Dice.ExpectedReturn | server/routes.ts:137-145 | on a fair die an "over" bet returns 95% of the stake on average; "under" has no winning face |
| Dice.PlayDice | server/routes.ts:104-177 | the route answers `DiceOutcome`, and writes the balance and a dice bet only for a played round |
| Mines.ValidateMines | server/routes.ts:185-190 | a request is played iff the stake is positive, 1 to 24 mines are asked for, and the revealed positions are a list |
| Mines.Placement | server/routes.ts:199-207 | a completed placement lays exactly `mineCount` mines on distinct board cells, none of them revealed |
| Mines.PlaceMines | server/routes.ts:199-207 | the placement loop computes `Placement` |
| Mines.LayoutFitsFreeCells | server/routes.ts:202-207 | a layout never has more mines than there are unrevealed cells, so with too few the loop cannot finish |
| Mines.HitMine | server/routes.ts:210 | a mine is hit iff some revealed position holds one |
| Mines.NeverHitsMine | server/routes.ts:204-210 | no revealed position ever holds a mine |
| Mines.WinProfit | server/routes.ts:213-226 | the profit is the floor of stake x (revealed / safe cells)^2 x 10, and it is not negative for a non-negative stake |
| Mines.ExactProfit | server/routes.ts:216-225 | stake x (multiplier - 1) equals stake x 10 x revealed^2 / safeCells^2 |
| Mines.ProfitMonotone | server/routes.ts:216-225 | revealing more never pays less |
| Mines.FullClearPaysTenfold | server/routes.ts:216-225 | revealing as many cells as there are safe cells pays ten times the stake |
| Mines.PayoutUnbounded | server/routes.ts:216-225 | for any amount, some reveal count makes the profit exceed it |
| Mines.RepeatedRevealsPayAnyAmount | server/routes.ts:185-225 | a request that lists one cell as revealed often enough wins more than any given amount whenever it is played, because repeats are counted |
| Mines.MinesOutcome | server/routes.ts:180-258 | invalid or unaffordable bets are rejected; a played round never hits a mine, has enough free cells, wins the floored multiplier profit for the number of listed reveals, and keeps the balance at least the stake |
| Mines.PlayMines | server/routes.ts:180-258 | the route answers `MinesOutcome`, and writes the balance and a mines bet with the laid mines only for a played round |
| Blackjack.ValidBlackjackMeans | server/routes.ts:266-268 | a request passes the guard iff the stake is positive and some action is given |
| Blackjack.DealerPlays | server/routes.ts:315-317 | the dealer ends at 17 or more, keeps the hand it had, and takes its cards from the deck |
| Blackjack.DealerStopsAtFirst17 | server/routes.ts:315-317 | the dealer stops at the first hand worth 17 or more |
| Blackjack.DealerDrawsFromTop | server/routes.ts:315-317 | the dealer's new cards are the deck's last cards, in the order `pop` takes them |
| Blackjack.DealerDrawBound | server/routes.ts:315-317 | the dealer draws at most 17 minus its hard total, so a 52-card deck never runs out |
| Blackjack.DealerTurn | server/routes.ts:315-317 | the stand loop computes `DealerPlays` |
| Blackjack.JudgeAgainstUsual | server/routes.ts:322-331 | the stand judgement is the usual rule unless the player is over 21, and then it is a win where the usual rule says loss |
| Blackjack.Play | server/routes.ts:283-333 | a deal takes four cards from the end and ends iff the player has 21 (a push if the dealer also has 21); a hit adds one card and ends iff the player busts; a stand always ends with the dealer at 17 or more; other actions change nothing |
| Blackjack.PlayRound | server/routes.ts:279-333 | the branches, popping from a local deck, compute `Play` |
| Blackjack.Payout | server/routes.ts:335-350 | a natural pays the floor of 1.5 x stake, another win the stake, a loss costs the stake, a push or an unfinished hand nothing |
| Blackjack.Settle | server/routes.ts:279-383 | a hand is over iff it has a result; the scores are the hand values, the new balance is the balance plus the profit, and an unfinished hand moves no money |
| Blackjack.BlackjackOutcome | server/routes.ts:261-387 | invalid requests are rejected; the balance is checked only on a deal; otherwise the step is settled on the shuffled deck |
| Blackjack.DealWinIsNatural | server/routes.ts:283-346 | a deal hands out two cards each, ends iff the player has 21, is never lost, and a win pays the floor of 1.5 x stake |
| Blackjack.HitBustsOrGoesOn | server/routes.ts:304-312 | a hit adds one card to the sent hand, keeps the dealer's hand, and ends only by a bust that costs the stake |
| Blackjack.StandSettles | server/routes.ts:313-331 | a stand always ends, keeps the sent hands, the dealer reaches 17 or more, both a dealer bust and a player hand over 21 win the stake; otherwise a player above the dealer wins the stake, below loses it, and equal scores push with no money moved |
| Blackjack.UnknownActionChangesNothing | server/routes.ts:299-333 | any other action returns the sent hands and moves no money |
| Blackjack.StandTrustsClientHands | server/routes.ts:299-331 | a stand with a client-sent ace and king against king and queen wins the stake on any deck |
| Blackjack.StandCanOverdraw | server/routes.ts:271-354 | a losing stand with a stake above the balance leaves the balance negative |
| Blackjack.DealtCardsDistinct | server/routes.ts:283-286 | on a deck holding each card once, a deal hands out four different cards |
| Blackjack.Respond | server/routes.ts:279-383 | the step and its money, computed as the route does, equal `Settle` |
| Blackjack.PlayBlackjack | server/routes.ts:261-387 | the route answers `BlackjackOutcome`; balance and a blackjack bet are written only when the hand is over |

## Left out

- Dice.WinProfit: the multiplier is exact rational arithmetic, not IEEE doubles. The source computes in floating point and can floor one lower: "over 3" with stake 100 gives 89 there and 90 here.
- Mines.WinProfit: the same; the quadratic multiplier is exact here and an IEEE double in the source.
- Blackjack.Payout: `Math.floor(betAmount * 1.5)` is taken exactly. This agrees with the doubles for every integer stake below 2^51, where three times the stake is still exact.
- Entropy.EachOutcomeEquallyLikely: the lemma counts accepted byte values; it assumes nothing about how uniform the platform's `randomBytes` is, which cannot be proved.
- The byte source itself is an oracle parameter. A request whose draws never get accepted does not terminate in the source; here it ends `Exhausted`. This also covers a mines request with fewer free cells than mines, where the source spins forever.
- Request fields are typed here: integers, strings, card lists and an optional list for the mines reveals. JavaScript's handling of non-integer or non-numeric stakes (`0.5`, `"5"`), unknown card strings (scored with `parseInt` as NaN) and a missing card list on `hit` or `stand` (a 500 error) is not modelled.
- Amounts are unbounded integers; the source's doubles lose precision above 2^53.
- HTTP plumbing is not modelled: authentication, status codes, the try/catch 500 paths and async scheduling. Only the accept or reject outcome is kept. The `/api/balance` and `/api/bets` routes are thin wrappers over `GetUser` and `GetUserBets`. The module that sets up authentication is not part of this model.
- The session store of `MemStorage` is an external library.
- Timestamps are integer readings of an abstract clock passed in as `now`, not `Date` objects.
- Concurrency is left out: each request runs as one sequential step, so races on the balance are not modelled.
- `updateUserBalance` mutates the user object the caller already holds. Here users are values, so that aliasing is not visible.
- The client application and its formatting helpers are not part of this model.
