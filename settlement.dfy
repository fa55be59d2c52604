/** The tail every game route runs once a round is decided: write the new balance, then
    record the bet. */
module Settlement {
  import opened Schema
  import opened Storage

  method Record(store: MemStorage, user: User, newBalance: int, game: GameKind, betAmount: int,
                profit: int, data: GameData, now: int) returns (bet: Bet)
    requires store.Valid() && user.id in store.users
    modifies store
    ensures store.Valid()
    ensures store.users == old(store.users)[user.id := old(store.users)[user.id].(balance := newBalance)]
    ensures bet == Bet(old(store.currentBetId), user.id, game, betAmount, profit, data, now)
    ensures store.bets == old(store.bets)[bet.id := bet]
    ensures store.currentUserId == old(store.currentUserId)
    ensures store.currentBetId == old(store.currentBetId) + 1
  {
    var found := store.UpdateUserBalance(user.id, newBalance);
    bet := store.CreateBet(InsertBet(user.id, game, betAmount, profit, data), now);
  }
}
