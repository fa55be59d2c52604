/** The in-memory store behind every route: users and bets kept in maps keyed by id, and two
    counters that hand out the next user id and the next bet id. */
module Storage {
  import opened Wrappers
  import opened Schema

  /** A bet map as the store keeps it: ids 1 .. next - 1 are taken, each by the bet with that id. */
  ghost predicate LedgerShape(bets: map<int, Bet>, next: int)
  {
    1 <= next
    && (forall id :: id in bets <==> 1 <= id < next)
    && (forall id :: id in bets ==> bets[id].id == id)
  }

  /** The bets in the order the map yields them, which is insertion order, that is, by id. */
  function Ledger(bets: map<int, Bet>, next: int): (ledger: seq<Bet>)
    decreases next
  {
    if next <= 1 then []
    else Ledger(bets, next - 1) + (if next - 1 in bets then [bets[next - 1]] else [])
  }

  predicate IdsAscending(s: seq<Bet>)
  {
    forall i, j :: 0 <= i < j < |s| ==> s[i].id < s[j].id
  }

  /** `a` is listed before `b`: it is newer, or as new and stored earlier. */
  predicate Before(a: Bet, b: Bet)
  {
    a.timestamp > b.timestamp || (a.timestamp == b.timestamp && a.id < b.id)
  }

  /** Newest first, bets with the same timestamp in the order they were stored. */
  predicate NewestFirst(s: seq<Bet>)
  {
    forall i, j :: 0 <= i < j < |s| ==> Before(s[i], s[j])
  }

  /** The bets of one user, in the order given. */
  function OfUser(s: seq<Bet>, userId: int): (r: seq<Bet>)
    ensures forall b :: b in r <==> b in s && b.userId == userId
    ensures IdsAscending(s) ==> IdsAscending(r)
  {
    if s == [] then []
    else
      var init := s[..|s| - 1];
      var last := s[|s| - 1];
      assert forall b :: b in s <==> b in init || b == last;
      var r0 := OfUser(init, userId);
      assert IdsAscending(s) ==> forall b :: b in r0 ==> b.id < last.id;
      r0 + (if last.userId == userId then [last] else [])
  }

  /** One step of a stable sort by timestamp descending: `x` comes from later in the input
      than every element of `s`, so it goes after all of them that are at least as new. */
  function InsertByRecency(x: Bet, s: seq<Bet>): (r: seq<Bet>)
    ensures multiset(r) == multiset(s) + multiset{x}
  {
    if s == [] then [x]
    else if x.timestamp > s[0].timestamp then [x] + s
    else
      assert s == [s[0]] + s[1..];
      [s[0]] + InsertByRecency(x, s[1..])
  }

  /** `Array.prototype.sort` with the comparator `b.timestamp - a.timestamp`, which is stable. */
  function SortNewestFirst(s: seq<Bet>): (r: seq<Bet>)
    ensures multiset(r) == multiset(s)
  {
    if s == [] then []
    else
      assert s == s[..|s| - 1] + [s[|s| - 1]];
      InsertByRecency(s[|s| - 1], SortNewestFirst(s[..|s| - 1]))
  }

  /** What getUserBets answers for `userId` on a store whose next bet id is `next`. */
  function UserBets(bets: map<int, Bet>, next: int, userId: int): (list: seq<Bet>)
  {
    SortNewestFirst(OfUser(Ledger(bets, next), userId))
  }

  /** The ledger below `next` holds the bets stored under keys 1 .. next - 1, in id order. */
  lemma {:induction false} LedgerHolds(bets: map<int, Bet>, next: int)
    requires forall id :: id in bets ==> bets[id].id == id
    ensures forall b :: b in Ledger(bets, next) <==> b in bets.Values && 1 <= b.id < next
    ensures IdsAscending(Ledger(bets, next))
    decreases next
  {
    if next > 1 {
      LedgerHolds(bets, next - 1);
      forall b | b in bets.Values && 1 <= b.id < next
        ensures b in Ledger(bets, next)
      {
        var id :| id in bets && bets[id] == b;
      }
    }
  }

  lemma LedgerMembers(bets: map<int, Bet>, next: int)
    requires LedgerShape(bets, next)
    ensures forall b :: b in Ledger(bets, next) <==> b in bets.Values
    ensures IdsAscending(Ledger(bets, next))
  {
    LedgerHolds(bets, next);
    forall b | b in bets.Values
      ensures 1 <= b.id < next
    {
      var id :| id in bets && bets[id] == b;
    }
  }

  /** Two maps that agree below `next` have the same ledger below `next`. */
  lemma {:induction false} LedgerAgrees(m: map<int, Bet>, n: map<int, Bet>, next: int)
    requires forall id :: id < next ==> (id in m <==> id in n)
    requires forall id :: id < next && id in m ==> m[id] == n[id]
    ensures Ledger(m, next) == Ledger(n, next)
    decreases next
  {
    if next > 1 {
      LedgerAgrees(m, n, next - 1);
    }
  }

  /** Inserting a bet newer-id than the rest keeps the listing newest first. */
  lemma {:induction false} InsertKeepsNewestFirst(x: Bet, s: seq<Bet>)
    requires NewestFirst(s)
    requires forall b :: b in s ==> b.id < x.id
    ensures NewestFirst(InsertByRecency(x, s))
  {
    if s != [] && x.timestamp <= s[0].timestamp {
      InsertKeepsNewestFirst(x, s[1..]);
      var t := InsertByRecency(x, s[1..]);
      forall y | y in t
        ensures Before(s[0], y)
      {
        assert y in multiset(t);
        if y != x {
          assert y in s[1..];
        }
      }
    }
  }

  /** Sorting a list stored in id order gives a listing that is newest first, ties oldest id first. */
  lemma {:induction false} SortedNewestFirst(s: seq<Bet>)
    requires IdsAscending(s)
    ensures NewestFirst(SortNewestFirst(s))
  {
    if s != [] {
      var init := s[..|s| - 1];
      SortedNewestFirst(init);
      var sorted := SortNewestFirst(init);
      forall b | b in sorted
        ensures b.id < s[|s| - 1].id
      {
        assert b in multiset(sorted);
        assert b in init;
      }
      InsertKeepsNewestFirst(s[|s| - 1], sorted);
    }
  }

  /** getUserBets lists exactly the bets of that user, newest first, each once. */
  lemma UserBetsListing(bets: map<int, Bet>, next: int, userId: int)
    requires LedgerShape(bets, next)
    ensures forall b :: b in UserBets(bets, next, userId) <==> b in bets.Values && b.userId == userId
    ensures NewestFirst(UserBets(bets, next, userId))
  {
    LedgerMembers(bets, next);
    var mine := OfUser(Ledger(bets, next), userId);
    SortedNewestFirst(mine);
    forall b ensures b in UserBets(bets, next, userId) <==> b in mine {
      assert b in UserBets(bets, next, userId) <==> b in multiset(mine);
    }
  }

  /** The order leaves nothing to chance: two newest-first listings of the same bets are equal. */
  lemma {:induction false} ListingDetermined(a: seq<Bet>, b: seq<Bet>)
    requires NewestFirst(a) && NewestFirst(b)
    requires forall x :: x in a <==> x in b
    ensures a == b
  {
    assert b == [] || b[0] in b;
    if a != [] {
      assert a[0] in b;
      assert b[0] in b;
      forall x
        ensures x in a[1..] <==> x in b[1..]
      {
        if x in a[1..] {
          var i :| 1 <= i < |a| && a[i] == x;
          assert Before(a[0], a[i]);
          assert x in b;
        }
        if x in b[1..] {
          var j :| 1 <= j < |b| && b[j] == x;
          assert Before(b[0], b[j]);
          assert x in a;
        }
      }
      ListingDetermined(a[1..], b[1..]);
      assert a == [a[0]] + a[1..];
      assert b == [b[0]] + b[1..];
    }
  }

  /** A new bet never changes what another user's history lists. */
  lemma OtherUsersUnaffected(bets: map<int, Bet>, next: int, bet: Bet, userId: int)
    requires LedgerShape(bets, next)
    requires bet.id == next && bet.userId != userId
    ensures UserBets(bets[next := bet], next + 1, userId) == UserBets(bets, next, userId)
  {
    var after := bets[next := bet];
    LedgerAppend(bets, next, bet);
    OfUserAppend(Ledger(bets, next), bet, userId);
    assert OfUser(Ledger(after, next + 1), userId) == OfUser(Ledger(bets, next), userId);
  }

  /** A bet stamped later than every stored bet heads its owner's history. */
  lemma NewestBetListedFirst(bets: map<int, Bet>, next: int, bet: Bet)
    requires LedgerShape(bets, next)
    requires bet.id == next
    requires forall b :: b in bets.Values ==> b.timestamp < bet.timestamp
    ensures UserBets(bets[next := bet], next + 1, bet.userId) != []
    ensures UserBets(bets[next := bet], next + 1, bet.userId)[0] == bet
  {
    var after := bets[next := bet];
    LedgerAppend(bets, next, bet);
    var mine := OfUser(Ledger(bets, next), bet.userId);
    OfUserAppend(Ledger(bets, next), bet, bet.userId);
    assert OfUser(Ledger(after, next + 1), bet.userId) == mine + [bet];
    SortAppend(mine, bet);
    var sorted := SortNewestFirst(mine);
    LedgerMembers(bets, next);
    forall b | b in sorted
      ensures b.timestamp < bet.timestamp
    {
      assert b in multiset(mine);
    }
    InsertNewest(bet, sorted);
  }

  lemma SortAppend(s: seq<Bet>, x: Bet)
    ensures SortNewestFirst(s + [x]) == InsertByRecency(x, SortNewestFirst(s))
  {
    assert (s + [x])[..|s|] == s;
  }

  lemma InsertNewest(x: Bet, s: seq<Bet>)
    requires forall b :: b in s ==> b.timestamp < x.timestamp
    ensures InsertByRecency(x, s) == [x] + s
  {
    if s != [] {
      assert s[0] in s;
    }
  }

  /** Storing under the next id appends to the ledger. */
  lemma LedgerAppend(bets: map<int, Bet>, next: int, bet: Bet)
    requires 1 <= next
    requires forall id :: id in bets ==> id < next
    ensures Ledger(bets[next := bet], next + 1) == Ledger(bets, next) + [bet]
  {
    LedgerAgrees(bets[next := bet], bets, next);
  }

  lemma OfUserAppend(s: seq<Bet>, x: Bet, userId: int)
    ensures OfUser(s + [x], userId) == OfUser(s, userId) + (if x.userId == userId then [x] else [])
  {
    assert (s + [x])[..|s|] == s;
  }

  class MemStorage {
    var users: map<int, User>
    var bets: map<int, Bet>
    var currentUserId: int
    var currentBetId: int

    /** Ids are handed out from 1 upward, every handed-out id is taken, and each record
        carries its own key as its id. */
    ghost predicate Valid()
      reads this
    {
      1 <= currentUserId && 1 <= currentBetId
      && (forall id :: id in users <==> 1 <= id < currentUserId)
      && (forall id :: id in users ==> users[id].id == id)
      && LedgerShape(bets, currentBetId)
    }

    constructor ()
      ensures Valid()
      ensures users == map[] && bets == map[]
      ensures currentUserId == 1 && currentBetId == 1
    {
      users := map[];
      bets := map[];
      currentUserId := 1;
      currentBetId := 1;
    }

    /** getUser: a user exactly for the ids handed out so far, carrying that id. */
    function GetUser(id: int): (r: Option<User>)
      reads this
      ensures Valid() ==> (r.Some? <==> 1 <= id < currentUserId)
      ensures Valid() && r.Some? ==> r.value.id == id && r.value in users.Values
    {
      if id in users then Some(users[id]) else None
    }

    /** getUserByUsername: the first user in insertion order with that name, if any. */
    method GetUserByUsername(username: string) returns (r: Option<User>)
      requires Valid()
      ensures r.None? <==> forall id :: id in users ==> users[id].username != username
      ensures r.Some? ==> r.value.id in users && users[r.value.id] == r.value
      ensures r.Some? ==> r.value.username == username
      ensures r.Some? ==> forall id :: 1 <= id < r.value.id ==> users[id].username != username
    {
      var id := 1;
      while id < currentUserId
        invariant 1 <= id <= currentUserId
        invariant forall k :: 1 <= k < id ==> users[k].username != username
      {
        if users[id].username == username {
          return Some(users[id]);
        }
        id := id + 1;
      }
      return None;
    }

    /** createUser: the next id, the starting balance, stamped with the clock reading `now`. */
    method CreateUser(insertUser: InsertUser, now: int) returns (user: User)
      requires Valid()
      modifies this
      ensures Valid()
      ensures user == User(old(currentUserId), insertUser.username, insertUser.password, DefaultBalance, now)
      ensures users == old(users)[user.id := user] && currentUserId == old(currentUserId) + 1
      ensures user.id !in old(users) && forall id :: id in old(users) ==> id < user.id
      ensures bets == old(bets) && currentBetId == old(currentBetId)
    {
      var id := currentUserId;
      currentUserId := currentUserId + 1;
      user := User(id, insertUser.username, insertUser.password, DefaultBalance, now);
      users := users[id := user];
    }

    /** updateUserBalance: `found` is false where the source throws "User not found", and then
        nothing changes. */
    method UpdateUserBalance(userId: int, newBalance: int) returns (found: bool)
      requires Valid()
      modifies this
      ensures Valid()
      ensures found <==> userId in old(users)
      ensures found ==> users == old(users)[userId := old(users)[userId].(balance := newBalance)]
      ensures !found ==> users == old(users)
      ensures bets == old(bets) && currentUserId == old(currentUserId) && currentBetId == old(currentBetId)
    {
      var user := GetUser(userId);
      if user.None? {
        return false;
      }
      users := users[userId := user.value.(balance := newBalance)];
      found := true;
    }

    /** getUserBets: that user's bets, newest first, ties in the order they were stored. */
    method GetUserBets(userId: int) returns (list: seq<Bet>)
      requires Valid()
      ensures list == UserBets(bets, currentBetId, userId)
      ensures forall b :: b in list <==> b in bets.Values && b.userId == userId
      ensures NewestFirst(list)
    {
      list := SortNewestFirst(OfUser(Ledger(bets, currentBetId), userId));
      UserBetsListing(bets, currentBetId, userId);
    }

    /** createBet: the next id, stamped with the clock reading `now`. */
    method CreateBet(insertBet: InsertBet, now: int) returns (bet: Bet)
      requires Valid()
      modifies this
      ensures Valid()
      ensures bet == Bet(old(currentBetId), insertBet.userId, insertBet.game, insertBet.betAmount,
                         insertBet.profit, insertBet.gameData, now)
      ensures bets == old(bets)[bet.id := bet] && currentBetId == old(currentBetId) + 1
      ensures bet.id !in old(bets) && forall id :: id in old(bets) ==> id in bets && bets[id] == old(bets)[id]
      ensures users == old(users) && currentUserId == old(currentUserId)
    {
      var id := currentBetId;
      currentBetId := currentBetId + 1;
      bet := Bet(id, insertBet.userId, insertBet.game, insertBet.betAmount,
                 insertBet.profit, insertBet.gameData, now);
      bets := bets[id := bet];
    }
  }
}
