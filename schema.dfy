/** The records of the shared schema: users, bets, cards and the per-game bet data. */
module Schema {

  /** Balance every new account starts with. */
  const DefaultBalance: int := 10000

  datatype Suit = Hearts | Diamonds | Clubs | Spades

  /** The thirteen card values '2' .. '10', 'J', 'Q', 'K', 'A'. */
  datatype Rank = Two | Three | Four | Five | Six | Seven | Eight | Nine | Ten
                | Jack | Queen | King | Ace

  datatype Card = Card(suit: Suit, value: Rank)

  datatype Prediction = Over | Under

  datatype GameResult = Win | Lose | Push

  /** The `game` column of a bet. */
  datatype GameKind = DiceGame | MinesGame | BlackjackGame

  /** The game-specific `gameData` of a bet, one variant per game (the blackjack `result`
      field is called `handResult` here, since Dafny shares destructor names across variants). */
  datatype GameData =
    | DiceData(prediction: Prediction, targetValue: int, result: int)
    | MinesData(mineCount: int, tilesRevealed: int, minePositions: seq<int>, revealedPositions: seq<int>)
    | BlackjackData(playerCards: seq<Card>, dealerCards: seq<Card>,
                    playerScore: int, dealerScore: int, handResult: GameResult)

  /** Timestamps are readings of an abstract clock. */
  datatype User = User(id: int, username: string, password: string, balance: int, createdAt: int)

  datatype InsertUser = InsertUser(username: string, password: string)

  datatype InsertBet = InsertBet(userId: int, game: GameKind, betAmount: int, profit: int, gameData: GameData)

  datatype Bet = Bet(id: int, userId: int, game: GameKind, betAmount: int, profit: int,
                     gameData: GameData, timestamp: int)
}
