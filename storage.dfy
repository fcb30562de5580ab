/** The in-memory ledger `MemStorage` (server/storage.ts): users and
    transactions kept in two maps keyed by id, and two id counters that only
    grow. The read-only queries are functions over the maps. */
module Storage {
  import opened Builtins
  import opened Schema

  /** The balances every new user starts with, whatever the caller asked for. */
  const StartingFtn := 1000
  const StartingLbr := 500

  /** The account seeded when the ledger is built. */
  const DemoUsername := "demo_user"
  const DemoPassword := "password123"

  // ---------------------------------------------------------------------
  // Iteration order of a map whose keys are the ids lo, lo+1, ..., hi-1
  // ---------------------------------------------------------------------

  /** `Array.from(m.values())`. A JavaScript Map iterates in insertion order;
      ids are handed out in increasing order, re-setting an existing key keeps
      its place, and nothing is deleted, so insertion order is id order. */
  function ValuesInOrder<T>(m: map<int, T>, lo: int, hi: int): (r: seq<T>)
    requires forall k :: lo <= k < hi ==> k in m
    ensures |r| == if lo <= hi then hi - lo else 0
    decreases hi - lo
  {
    if lo >= hi then [] else [m[lo]] + ValuesInOrder(m, lo + 1, hi)
  }

  /** Value i of the listing is the one stored under key lo+i. */
  lemma {:induction false} ValuesAt<T>(m: map<int, T>, lo: int, hi: int)
    requires forall k :: lo <= k < hi ==> k in m
    ensures forall i :: 0 <= i < |ValuesInOrder(m, lo, hi)| ==> ValuesInOrder(m, lo, hi)[i] == m[lo + i]
    decreases hi - lo
  {
    if lo < hi {
      ValuesAt(m, lo + 1, hi);
    }
  }

  // ---------------------------------------------------------------------
  // getUserByUsername: Array.find over the users
  // ---------------------------------------------------------------------

  /** The position of the first user called `name`, or |s| when there is none. */
  function FirstWithUsername(s: seq<User>, name: string): (k: nat)
    ensures k <= |s|
    ensures k < |s| ==> s[k].username == name
    ensures forall i :: 0 <= i < k ==> s[i].username != name
  {
    if s == [] then 0
    else if s[0].username == name then 0
    else 1 + FirstWithUsername(s[1..], name)
  }

  // ---------------------------------------------------------------------
  // getUserTransactions: filter, stable sort newest first, slice
  // ---------------------------------------------------------------------

  ghost predicate IdsIncreasing(s: seq<Transaction>)
  {
    forall i, j :: 0 <= i < j < |s| ==> s[i].id < s[j].id
  }

  /** `.filter(tx => tx.userId === userId)` */
  function FilterByUser(s: seq<Transaction>, userId: int): seq<Transaction>
  {
    if s == [] then []
    else (if s[0].userId == userId then [s[0]] else []) + FilterByUser(s[1..], userId)
  }

  /** The filter keeps exactly the user's records, in their original order. */
  lemma {:induction false} FilterKeeps(s: seq<Transaction>, userId: int)
    ensures forall t :: t in FilterByUser(s, userId) <==> t in s && t.userId == userId
    ensures IdsIncreasing(s) ==> IdsIncreasing(FilterByUser(s, userId))
  {
    if s != [] {
      var rest := FilterByUser(s[1..], userId);
      FilterKeeps(s[1..], userId);
      assert s == [s[0]] + s[1..];
      if IdsIncreasing(s) {
        forall t | t in rest ensures s[0].id < t.id {
          var j :| 0 <= j < |s[1..]| && s[1..][j] == t;
          assert s[1 + j] == t;
        }
      }
    }
  }

  /** a is listed before b: a is strictly newer, or equally new and stored
      earlier (the sort is stable and its input is in id order). */
  predicate Precedes(a: Transaction, b: Transaction)
  {
    a.timestamp > b.timestamp || (a.timestamp == b.timestamp && a.id < b.id)
  }

  predicate NewestFirst(s: seq<Transaction>)
  {
    forall i, j :: 0 <= i < j < |s| ==> Precedes(s[i], s[j])
  }

  /** Places t, older in id than everything in s, before the first entry
      that is not strictly newer than t. */
  function Insert(t: Transaction, s: seq<Transaction>): seq<Transaction>
  {
    if s == [] || s[0].timestamp <= t.timestamp then [t] + s
    else [s[0]] + Insert(t, s[1..])
  }

  /** `.sort((a, b) => time(b) - time(a))`, a stable sort, as an insertion sort. */
  function SortNewestFirst(s: seq<Transaction>): seq<Transaction>
  {
    if s == [] then [] else Insert(s[0], SortNewestFirst(s[1..]))
  }

  /** Insert adds t and keeps every element of s. */
  lemma {:induction false} InsertElements(t: Transaction, s: seq<Transaction>)
    ensures multiset(Insert(t, s)) == multiset(s) + multiset{t}
    ensures forall x :: x in Insert(t, s) ==> x == t || x in s
  {
    if s == [] || s[0].timestamp <= t.timestamp {
    } else {
      InsertElements(t, s[1..]);
      assert s == [s[0]] + s[1..];
      forall x | x in Insert(t, s) ensures x == t || x in s {
        if x != s[0] {
          assert x in Insert(t, s[1..]);
        }
      }
    }
  }

  lemma {:induction false} InsertSorted(t: Transaction, s: seq<Transaction>)
    requires NewestFirst(s)
    requires forall x :: x in s ==> t.id < x.id
    ensures NewestFirst(Insert(t, s))
  {
    if s == [] || s[0].timestamp <= t.timestamp {
    } else {
      var rest := Insert(t, s[1..]);
      InsertSorted(t, s[1..]);
      InsertElements(t, s[1..]);
      forall x | x in rest ensures Precedes(s[0], x) {
        if x != t {
          var j :| 0 <= j < |s[1..]| && s[1..][j] == x;
          assert s[1 + j] == x;
        }
      }
      var r := [s[0]] + rest;
      forall i, j | 0 <= i < j < |r| ensures Precedes(r[i], r[j]) {
        assert r[j] == rest[j - 1];
        if i == 0 {
          assert r[j] in rest;
        } else {
          assert r[i] == rest[i - 1];
        }
      }
    }
  }

  /** In an id-ordered list the head has the smallest id. */
  lemma HeadIdSmallest(s: seq<Transaction>)
    requires s != [] && IdsIncreasing(s)
    ensures IdsIncreasing(s[1..])
    ensures forall x :: x in s[1..] ==> s[0].id < x.id
  {
    forall x | x in s[1..] ensures s[0].id < x.id {
      var j :| 0 <= j < |s[1..]| && s[1..][j] == x;
      assert s[1 + j] == x;
    }
  }

  /** Lists with the same elements share every bound on their ids. */
  lemma SameElementsSameBound(a: seq<Transaction>, b: seq<Transaction>, id: int)
    requires multiset(a) == multiset(b)
    requires forall x :: x in b ==> id < x.id
    ensures forall x :: x in a ==> id < x.id
  {
    forall x | x in a ensures id < x.id {
      assert x in multiset(a);
    }
  }

  lemma {:induction false} SortSorted(s: seq<Transaction>)
    requires IdsIncreasing(s)
    ensures NewestFirst(SortNewestFirst(s))
    ensures multiset(SortNewestFirst(s)) == multiset(s)
  {
    if s != [] {
      var rest := SortNewestFirst(s[1..]);
      HeadIdSmallest(s);
      SortSorted(s[1..]);
      SameElementsSameBound(rest, s[1..], s[0].id);
      InsertSorted(s[0], rest);
      InsertElements(s[0], rest);
      assert s == [s[0]] + s[1..];
    }
  }

  /** Sorting keeps the length and the elements. */
  lemma SortKeepsElements(s: seq<Transaction>)
    requires IdsIncreasing(s)
    ensures |SortNewestFirst(s)| == |s|
    ensures forall x :: x in SortNewestFirst(s) <==> x in s
  {
    SortSorted(s);
    var sorted := SortNewestFirst(s);
    assert |multiset(sorted)| == |multiset(s)|;
    forall x ensures x in sorted <==> x in s {
      assert x in sorted <==> x in multiset(sorted);
      assert x in s <==> x in multiset(s);
    }
  }

  /** `getUserTransactions` over the transactions in storage order. */
  function RecentForUser(all: seq<Transaction>, userId: int, limit: int): seq<Transaction>
  {
    Slice(SortNewestFirst(FilterByUser(all, userId)), 0, limit)
  }

  /** The cut is a prefix of the sorted, filtered list. */
  lemma RecentIsPrefix(all: seq<Transaction>, userId: int, limit: int)
    requires IdsIncreasing(all)
    ensures var sorted := SortNewestFirst(FilterByUser(all, userId));
      && |sorted| == |FilterByUser(all, userId)|
      && NewestFirst(sorted)
      && (forall x :: x in sorted <==> x in all && x.userId == userId)
      && RecentForUser(all, userId, limit) == sorted[..RelativeIndex(limit, |sorted|)]
  {
    var f := FilterByUser(all, userId);
    FilterKeeps(all, userId);
    SortSorted(f);
    SortKeepsElements(f);
    SlicePrefix(SortNewestFirst(f), limit);
  }

  lemma RecentMembers(all: seq<Transaction>, userId: int, limit: int)
    requires IdsIncreasing(all)
    ensures forall x :: x in RecentForUser(all, userId, limit) ==> x in all && x.userId == userId
    ensures NewestFirst(RecentForUser(all, userId, limit))
  {
    var sorted := SortNewestFirst(FilterByUser(all, userId));
    RecentIsPrefix(all, userId, limit);
    var r := RecentForUser(all, userId, limit);
    forall x | x in r ensures x in sorted {
      var i :| 0 <= i < |r| && r[i] == x;
      assert r[i] == sorted[i];
    }
  }

  lemma RecentComplete(all: seq<Transaction>, userId: int, limit: int)
    requires IdsIncreasing(all)
    ensures forall x :: x in all && x.userId == userId && x !in RecentForUser(all, userId, limit) ==>
              forall i :: 0 <= i < |RecentForUser(all, userId, limit)| ==> Precedes(RecentForUser(all, userId, limit)[i], x)
  {
    var sorted := SortNewestFirst(FilterByUser(all, userId));
    RecentIsPrefix(all, userId, limit);
    var r := RecentForUser(all, userId, limit);
    forall x | x in all && x.userId == userId && x !in r
      ensures forall i :: 0 <= i < |r| ==> Precedes(r[i], x)
    {
      var j :| 0 <= j < |sorted| && sorted[j] == x;
      assert j >= |r|;
      forall i | 0 <= i < |r| ensures Precedes(r[i], x) {
        assert r[i] == sorted[i];
      }
    }
  }

  /** What `getUserTransactions` promises: only that user's records, newest
      first, at most `limit` of them, and none left out that is newer than
      one returned. */
  lemma RecentForUserSpec(all: seq<Transaction>, userId: int, limit: int)
    requires IdsIncreasing(all)
    ensures forall x :: x in RecentForUser(all, userId, limit) ==> x in all && x.userId == userId
    ensures NewestFirst(RecentForUser(all, userId, limit))
    ensures limit >= 0 ==> |RecentForUser(all, userId, limit)| == Min(limit, |FilterByUser(all, userId)|)
    ensures limit < 0 ==> |RecentForUser(all, userId, limit)| == Max(0, |FilterByUser(all, userId)| + limit)
    ensures forall x :: x in all && x.userId == userId && x !in RecentForUser(all, userId, limit) ==>
              forall i :: 0 <= i < |RecentForUser(all, userId, limit)| ==> Precedes(RecentForUser(all, userId, limit)[i], x)
  {
    RecentIsPrefix(all, userId, limit);
    RecentMembers(all, userId, limit);
    RecentComplete(all, userId, limit);
  }

  function Min(a: int, b: int): int { if a < b then a else b }
  function Max(a: int, b: int): int { if a < b then b else a }

  /** The ids k in lo..hi-1 whose record belongs to the user. */
  ghost function OwnedBetween(m: map<int, Transaction>, lo: int, hi: int, userId: int): set<int>
    requires forall k :: lo <= k < hi ==> k in m
    decreases hi - lo
  {
    if lo >= hi then {}
    else (if m[lo].userId == userId then {lo} else {}) + OwnedBetween(m, lo + 1, hi, userId)
  }

  lemma {:induction false} OwnedBetweenMembers(m: map<int, Transaction>, lo: int, hi: int, userId: int)
    requires forall k :: lo <= k < hi ==> k in m
    ensures forall k :: k in OwnedBetween(m, lo, hi, userId) <==> lo <= k < hi && m[k].userId == userId
    decreases hi - lo
  {
    if lo < hi {
      OwnedBetweenMembers(m, lo + 1, hi, userId);
    }
  }

  lemma FilterStep(m: map<int, Transaction>, lo: int, hi: int, userId: int)
    requires lo < hi
    requires forall k :: lo <= k < hi ==> k in m
    ensures FilterByUser(ValuesInOrder(m, lo, hi), userId)
         == (if m[lo].userId == userId then [m[lo]] else []) + FilterByUser(ValuesInOrder(m, lo + 1, hi), userId)
  {
    var s := ValuesInOrder(m, lo, hi);
    assert s[0] == m[lo];
    assert s[1..] == ValuesInOrder(m, lo + 1, hi);
  }

  /** The records of a user among the ids lo..hi-1 number as many as the
      filtered list is long. */
  lemma {:induction false} FilterCount(m: map<int, Transaction>, lo: int, hi: int, userId: int)
    requires lo <= hi
    requires forall k :: lo <= k < hi ==> k in m
    ensures |FilterByUser(ValuesInOrder(m, lo, hi), userId)| == |OwnedBetween(m, lo, hi, userId)|
    decreases hi - lo
  {
    if lo < hi {
      var f := FilterByUser(ValuesInOrder(m, lo + 1, hi), userId);
      var o := OwnedBetween(m, lo + 1, hi, userId);
      FilterStep(m, lo, hi, userId);
      OwnedBetweenMembers(m, lo + 1, hi, userId);
      FilterCount(m, lo + 1, hi, userId);
      if m[lo].userId == userId {
        assert |[m[lo]] + f| == |f| + 1;
        assert |{lo} + o| == |o| + 1;
      } else {
        assert [] + f == f && {} + o == o;
      }
    }
  }

  /** A map keyed 1..n-1 by its records' own ids, listed in id order. */
  lemma InOrderMembers(m: map<int, Transaction>, n: int)
    requires 1 <= n
    requires forall k :: k in m <==> 1 <= k < n
    requires forall k :: k in m ==> m[k].id == k
    ensures IdsIncreasing(ValuesInOrder(m, 1, n))
    ensures forall k :: k in m ==> m[k] in ValuesInOrder(m, 1, n)
    ensures forall x :: x in ValuesInOrder(m, 1, n) ==> x.id in m && m[x.id] == x
  {
    var all := ValuesInOrder(m, 1, n);
    ValuesAt(m, 1, n);
    forall k | k in m ensures m[k] in all {
      assert all[k - 1] == m[k];
    }
    forall x | x in all ensures x.id in m && m[x.id] == x {
      var j :| 0 <= j < |all| && all[j] == x;
    }
  }

  /** A user's transactions in such a map are as many as the filtered list is long. */
  lemma OwnedCount(m: map<int, Transaction>, n: int, userId: int)
    requires 1 <= n
    requires forall k :: k in m <==> 1 <= k < n
    ensures |FilterByUser(ValuesInOrder(m, 1, n), userId)| == |set k | k in m && m[k].userId == userId|
  {
    FilterCount(m, 1, n, userId);
    OwnedBetweenMembers(m, 1, n, userId);
    var owned := set k | k in m && m[k].userId == userId;
    forall k ensures k in OwnedBetween(m, 1, n, userId) <==> k in owned {
      assert k in owned <==> k in m && m[k].userId == userId;
    }
    assert OwnedBetween(m, 1, n, userId) == owned;
  }

  /** RecentForUserSpec restated over a ledger map whose keys are 1..n-1. */
  lemma HistorySpec(m: map<int, Transaction>, n: int, userId: int, limit: int)
    requires 1 <= n
    requires forall k :: k in m <==> 1 <= k < n
    requires forall k :: k in m ==> m[k].id == k
    ensures var r := RecentForUser(ValuesInOrder(m, 1, n), userId, limit);
      && (forall i :: 0 <= i < |r| ==> r[i].userId == userId && r[i].id in m && m[r[i].id] == r[i])
      && NewestFirst(r)
      && (limit >= 0 ==> |r| == Min(limit, |set k | k in m && m[k].userId == userId|))
      && (limit < 0 ==> |r| == Max(0, |set k | k in m && m[k].userId == userId| + limit))
      && (forall k :: k in m && m[k].userId == userId && m[k] !in r ==>
            forall i :: 0 <= i < |r| ==> Precedes(r[i], m[k]))
  {
    InOrderMembers(m, n);
    RecentForUserSpec(ValuesInOrder(m, 1, n), userId, limit);
    OwnedCount(m, n, userId);
  }

  // ---------------------------------------------------------------------
  // The ledger
  // ---------------------------------------------------------------------

  class MemStorage {
    var users: map<int, User>
    var transactions: map<int, Transaction>
    var currentUserId: int
    var currentTransactionId: int

    /** Ids are exactly 1 up to (not including) each counter, and every
        record is stored under its own id. */
    ghost predicate Valid()
      reads this
    {
      && 1 <= currentUserId
      && 1 <= currentTransactionId
      && (forall k :: k in users <==> 1 <= k < currentUserId)
      && (forall k :: k in users ==> users[k].id == k)
      && (forall k :: k in transactions <==> 1 <= k < currentTransactionId)
      && (forall k :: k in transactions ==> transactions[k].id == k)
    }

    /** The users in insertion order. */
    function AllUsers(): (s: seq<User>)
      reads this
      requires Valid()
      ensures |s| == currentUserId - 1
      ensures forall i :: 0 <= i < |s| ==> s[i] == users[i + 1] && s[i].id == i + 1
    {
      ValuesAt(users, 1, currentUserId);
      ValuesInOrder(users, 1, currentUserId)
    }

    /** The transactions in insertion order. */
    function AllTransactions(): (s: seq<Transaction>)
      reads this
      requires Valid()
      ensures |s| == currentTransactionId - 1
      ensures forall i :: 0 <= i < |s| ==> s[i] == transactions[i + 1] && s[i].id == i + 1
      ensures IdsIncreasing(s)
    {
      ValuesAt(transactions, 1, currentTransactionId);
      ValuesInOrder(transactions, 1, currentTransactionId)
    }

    ghost function OwnedIds(userId: int): set<int>
      reads this
    {
      set k | k in transactions && transactions[k].userId == userId
    }

    constructor ()
      ensures Valid()
      ensures currentUserId == 2 && currentTransactionId == 1
      ensures users == map[1 := User(1, DemoUsername, None, Some(DemoPassword), StartingFtn, StartingLbr, None)]
      ensures transactions == map[]
    {
      users := map[];
      transactions := map[];
      currentUserId := 1;
      currentTransactionId := 1;
      new;
      var demo := CreateUser(NewUser(DemoUsername, None, Some(DemoPassword), None, None, None));
    }

    function GetUser(id: int): (r: Option<User>)
      reads this
      requires Valid()
      ensures r.Some? <==> 1 <= id < currentUserId
      ensures r.Some? ==> r.value.id == id && r.value == users[id]
    {
      if id in users then Some(users[id]) else None
    }

    /** The first user, in insertion order, with the given username. */
    function GetUserByUsername(username: string): (r: Option<User>)
      reads this
      requires Valid()
      ensures r.None? <==> forall k :: k in users ==> users[k].username != username
      ensures r.Some? ==> r.value.id in users && users[r.value.id] == r.value
                          && r.value.username == username
      ensures r.Some? ==> forall k :: k in users && users[k].username == username ==> r.value.id <= k
    {
      var all := AllUsers();
      var k := FirstWithUsername(all, username);
      assert forall j :: j in users ==> all[j - 1] == users[j];
      if k < |all| then Some(all[k]) else None
    }

    /** The user's transactions, newest first, cut with `slice(0, limit)`. */
    function GetUserTransactions(userId: int, limit: int): (r: seq<Transaction>)
      reads this
      requires Valid()
      ensures forall i :: 0 <= i < |r| ==>
                r[i].userId == userId && r[i].id in transactions && transactions[r[i].id] == r[i]
      ensures NewestFirst(r)
      ensures limit >= 0 ==> |r| == Min(limit, |OwnedIds(userId)|)
      ensures limit < 0 ==> |r| == Max(0, |OwnedIds(userId)| + limit)
      ensures forall k :: k in transactions && transactions[k].userId == userId && transactions[k] !in r ==>
                forall i :: 0 <= i < |r| ==> Precedes(r[i], transactions[k])
    {
      HistorySpec(transactions, currentTransactionId, userId, limit);
      RecentForUser(AllTransactions(), userId, limit)
    }

    method CreateUser(insertUser: NewUser) returns (user: User)
      requires Valid()
      modifies this
      ensures Valid()
      ensures user.id == old(currentUserId) && currentUserId == old(currentUserId) + 1
      ensures user.id !in old(users)
      ensures user == User(user.id, insertUser.username, insertUser.walletAddress, insertUser.password,
                           StartingFtn, StartingLbr, insertUser.createdAt)
      ensures users == old(users)[user.id := user]
      ensures GetUser(user.id) == Some(user)
      ensures transactions == old(transactions) && currentTransactionId == old(currentTransactionId)
    {
      var id := currentUserId;
      currentUserId := currentUserId + 1;
      user := User(id, insertUser.username, insertUser.walletAddress, insertUser.password,
                   StartingFtn, StartingLbr, insertUser.createdAt);
      users := users[id := user];
    }

    method UpdateUserBalance(userId: int, ftnDelta: int, lbrDelta: int) returns (updated: Option<User>)
      requires Valid()
      modifies this
      ensures Valid()
      ensures userId !in old(users) ==> updated == None && users == old(users)
      ensures userId in old(users) ==>
                var u := old(users)[userId];
                && updated == Some(u.(ftnBalance := u.ftnBalance + ftnDelta, lbrBalance := u.lbrBalance + lbrDelta))
                && users == old(users)[userId := updated.value]
      ensures transactions == old(transactions)
      ensures currentUserId == old(currentUserId) && currentTransactionId == old(currentTransactionId)
    {
      var user := GetUser(userId);
      if user.None? {
        return None;
      }
      var u := user.value;
      var updatedUser := u.(ftnBalance := u.ftnBalance + ftnDelta, lbrBalance := u.lbrBalance + lbrDelta);
      users := users[userId := updatedUser];
      return Some(updatedUser);
    }

    method CreateTransaction(insertTransaction: NewTransaction) returns (transaction: Transaction)
      requires Valid()
      modifies this
      ensures Valid()
      ensures transaction == WithId(insertTransaction, old(currentTransactionId))
      ensures transaction.id !in old(transactions)
      ensures currentTransactionId == old(currentTransactionId) + 1
      ensures transactions == old(transactions)[transaction.id := transaction]
      ensures users == old(users) && currentUserId == old(currentUserId)
    {
      var id := currentTransactionId;
      currentTransactionId := currentTransactionId + 1;
      transaction := WithId(insertTransaction, id);
      transactions := transactions[id := transaction];
    }
  }
}
