/** The request handlers of server/routes.ts, over an injected ledger. The
    random draw and the current time are parameters; the HTTP layer is
    reduced to a response datatype. */
module Routes {
  import opened Builtins
  import opened Schema
  import opened Storage

  /** `limit` of the history query when the request gives none. */
  const DefaultLimit := 10

  /** The wheel: 33 slots, 0..15 violet, 16..31 black, 32 blue. */
  const SlotCount := 33

  datatype Color = Violet | Black | Blue

  function ColorName(c: Color): string
  {
    match c
    case Violet => "violet"
    case Black => "black"
    case Blue => "blue"
  }

  /** The colour of the slot `draw` lands on. */
  function ColorOf(draw: int): (c: Color)
    ensures c == Violet <==> draw < 16
    ensures c == Black <==> 16 <= draw < 32
    ensures c == Blue <==> 32 <= draw
  {
    if draw < 16 then Violet
    else if draw < 32 then Black
    else Blue
  }

  ghost function SlotsOf(c: Color): set<int>
  {
    set r | 0 <= r < SlotCount && ColorOf(r) == c
  }

  /** The slots lo, lo+1, ..., hi-1. */
  function Slots(lo: int, hi: int): set<int>
    decreases hi - lo
  {
    if lo >= hi then {} else {lo} + Slots(lo + 1, hi)
  }

  lemma {:induction false} SlotsSize(lo: int, hi: int)
    requires lo <= hi
    ensures forall r :: r in Slots(lo, hi) <==> lo <= r < hi
    ensures |Slots(lo, hi)| == hi - lo
    decreases hi - lo
  {
    if lo < hi {
      SlotsSize(lo + 1, hi);
    }
  }

  lemma ColorSlots(c: Color, lo: int, hi: int)
    requires 0 <= lo <= hi <= SlotCount
    requires forall r :: 0 <= r < SlotCount ==> (ColorOf(r) == c <==> lo <= r < hi)
    ensures |SlotsOf(c)| == hi - lo
  {
    SlotsSize(lo, hi);
    forall r ensures r in SlotsOf(c) <==> r in Slots(lo, hi) {
    }
    assert SlotsOf(c) == Slots(lo, hi);
  }

  /** Of the 33 equally likely draws, 16 are violet, 16 black and 1 blue. */
  lemma SlotCounts()
    ensures |SlotsOf(Violet)| == 16 && |SlotsOf(Black)| == 16 && |SlotsOf(Blue)| == 1
  {
    ColorSlots(Violet, 0, 16);
    ColorSlots(Black, 16, 32);
    ColorSlots(Blue, 32, 33);
  }

  /** `resultColor === betColor`: the bet colour is free text, compared with
      the drawn colour's name. */
  predicate IsWin(drawn: Color, betColor: string)
  {
    ColorName(drawn) == betColor
  }

  /** The client's bet type offers "red" and "black"; no draw is ever red. */
  lemma RedNeverWins(draw: int)
    ensures !IsWin(ColorOf(draw), "red")
  {
    var c := ColorOf(draw);
    assert ColorName(c)[0] != 'r';
  }

  function ResultLabel(isWin: bool): string
  {
    if isWin then "win" else "loss"
  }

  /** The balance change (ftnDelta, lbrDelta) of a settled bet: a win pays
      the stake in FTN whichever token was staked; an FTN loss swaps the stake
      from FTN into LBR; an LBR loss forfeits it; any other token moves nothing. */
  function Payout(betToken: string, isWin: bool, betAmount: int): (d: (int, int))
    ensures betToken == "FTN" && isWin ==> d == (betAmount, 0)
    ensures betToken == "FTN" && !isWin ==> d == (-betAmount, betAmount)
    ensures betToken == "LBR" && isWin ==> d == (betAmount, 0)
    ensures betToken == "LBR" && !isWin ==> d == (0, -betAmount)
    ensures betToken != "FTN" && betToken != "LBR" ==> d == (0, 0)
  {
    if betToken == "FTN" then
      (if isWin then (betAmount, 0) else (-betAmount, betAmount))
    else if betToken == "LBR" then
      (if isWin then (betAmount, 0) else (0, -betAmount))
    else (0, 0)
  }

  /** The two balance checks made before the draw. */
  predicate Affordable(u: User, betToken: string, betAmount: int)
  {
    && !(betToken == "FTN" && u.ftnBalance < betAmount)
    && !(betToken == "LBR" && u.lbrBalance < betAmount)
  }

  /** With a non-negative stake on FTN or LBR, a bet that passed the balance
      check cannot leave either balance negative. */
  lemma NoOverdraw(u: User, betToken: string, betAmount: int, isWin: bool)
    requires u.ftnBalance >= 0 && u.lbrBalance >= 0
    requires betAmount >= 0
    requires Affordable(u, betToken, betAmount)
    ensures u.ftnBalance + Payout(betToken, isWin, betAmount).0 >= 0
    ensures u.lbrBalance + Payout(betToken, isWin, betAmount).1 >= 0
  {
  }

  /** The stake is never checked to be positive: a negative FTN stake passes
      the check and a win then drains the FTN balance below zero. */
  lemma NegativeStakeOverdraws()
    ensures var u := User(2, "0xabc", Some("0xabc"), None, 0, 0, None);
      && Affordable(u, "FTN", -5)
      && u.ftnBalance + Payout("FTN", true, -5).0 == -5
  {
  }

  /** A token other than FTN and LBR passes both checks and moves nothing. */
  lemma UnknownTokenIsFree(u: User, betToken: string, betAmount: int, isWin: bool)
    requires betToken != "FTN" && betToken != "LBR"
    ensures Affordable(u, betToken, betAmount)
    ensures Payout(betToken, isWin, betAmount) == (0, 0)
  {
  }

  // ---------------------------------------------------------------------
  // Handlers
  // ---------------------------------------------------------------------

  datatype Failure = Invalid | NotFound | InsufficientFtn | InsufficientLbr

  datatype Response<T> = Ok(value: T) | Fail(failure: Failure)

  datatype WalletUser = WalletUser(userId: int, ftnBalance: int, lbrBalance: int)

  datatype Balances = Balances(ftnBalance: int, lbrBalance: int)

  datatype SpinResult = SpinResult(
    result: string,
    resultColor: Color,
    ftnDelta: int,
    lbrDelta: int,
    updatedBalances: Balances,
    transaction: Transaction)

  /** POST /api/users/wallet/:address — find the user named by the address,
      or create one; `now` is the creation time. */
  method FindOrCreateByWallet(storage: MemStorage, address: string, now: int) returns (r: Response<WalletUser>)
    requires storage.Valid()
    modifies storage
    ensures storage.Valid()
    ensures address == "" ==> r == Fail(Invalid) && unchanged(storage)
    ensures address != "" && old(storage.GetUserByUsername(address)).Some? ==>
              var u := old(storage.GetUserByUsername(address)).value;
              r == Ok(WalletUser(u.id, u.ftnBalance, u.lbrBalance)) && unchanged(storage)
    ensures address != "" && old(storage.GetUserByUsername(address)).None? ==>
              var id := old(storage.currentUserId);
              && r == Ok(WalletUser(id, StartingFtn, StartingLbr))
              && storage.users == old(storage.users)[id := User(id, address, Some(address), None, StartingFtn, StartingLbr, Some(now))]
              && storage.currentUserId == id + 1
              && storage.transactions == old(storage.transactions)
              && storage.currentTransactionId == old(storage.currentTransactionId)
    ensures r.Ok? ==> storage.GetUserByUsername(address).Some?
                      && storage.GetUserByUsername(address).value.id == r.value.userId
  {
    if address == "" {
      return Fail(Invalid);
    }
    var user := storage.GetUserByUsername(address);
    if user.None? {
      // The caller's 100 FTN / 50 LBR are overridden by createUser.
      var created := storage.CreateUser(NewUser(address, Some(address), None, Some(100), Some(50), Some(now)));
      user := Some(created);
      assert storage.users[created.id] == created;
      assert forall k :: k in old(storage.users) ==> storage.users[k] == old(storage.users)[k];
    }
    r := Ok(WalletUser(user.value.id, user.value.ftnBalance, user.value.lbrBalance));
  }

  /** The same address twice gives the same user, and the second call
      creates nobody. */
  method WalletLookupIsStable(storage: MemStorage, address: string, now1: int, now2: int)
    returns (first: Response<WalletUser>, second: Response<WalletUser>)
    requires storage.Valid()
    requires address != ""
    modifies storage
    ensures first.Ok? && second.Ok? && first.value.userId == second.value.userId
    ensures storage.Valid()
    ensures storage.currentUserId <= old(storage.currentUserId) + 1
    ensures forall k :: k in storage.users ==> k in old(storage.users) || k == first.value.userId
  {
    first := FindOrCreateByWallet(storage, address, now1);
    ghost var between := storage.currentUserId;
    second := FindOrCreateByWallet(storage, address, now2);
    assert storage.currentUserId == between;
  }

  /** GET /api/user/:id/balance */
  method GetBalance(storage: MemStorage, userId: int) returns (r: Response<Balances>)
    requires storage.Valid()
    ensures r.Fail? <==> userId !in storage.users
    ensures r.Fail? ==> r.failure == NotFound
    ensures r.Ok? ==> r.value == Balances(storage.users[userId].ftnBalance, storage.users[userId].lbrBalance)
  {
    var user := storage.GetUser(userId);
    if user.None? {
      return Fail(NotFound);
    }
    r := Ok(Balances(user.value.ftnBalance, user.value.lbrBalance));
  }

  /** GET /api/user/:id/transactions?limit=N */
  method GetTransactions(storage: MemStorage, userId: int, limit: Option<int>) returns (r: seq<Transaction>)
    requires storage.Valid()
    ensures r == storage.GetUserTransactions(userId, if limit.Some? then limit.value else DefaultLimit)
    ensures limit.None? ==> |r| == Min(DefaultLimit, |storage.OwnedIds(userId)|)
    ensures NewestFirst(r) && forall i :: 0 <= i < |r| ==> r[i].userId == userId
  {
    var n := if limit.Some? then limit.value else DefaultLimit;
    r := storage.GetUserTransactions(userId, n);
  }

  /** POST /api/spin — settle one bet. `draw` is the slot the wheel stops
      on and `now` the time recorded on the transaction. */
  method Spin(storage: MemStorage, userId: int, betAmount: int, betToken: string, betColor: string,
              draw: int, now: int)
    returns (r: Response<SpinResult>)
    requires storage.Valid()
    requires 0 <= draw < SlotCount
    modifies storage
    ensures storage.Valid()
    ensures userId !in old(storage.users) ==> r == Fail(NotFound) && unchanged(storage)
    ensures userId in old(storage.users) && !Affordable(old(storage.users)[userId], betToken, betAmount) ==>
              r == Fail(if betToken == "FTN" then InsufficientFtn else InsufficientLbr) && unchanged(storage)
    ensures userId in old(storage.users) && Affordable(old(storage.users)[userId], betToken, betAmount) ==>
              var u := old(storage.users)[userId];
              var color := ColorOf(draw);
              var isWin := IsWin(color, betColor);
              var d := Payout(betToken, isWin, betAmount);
              var tx := Transaction(old(storage.currentTransactionId), userId, betAmount, betToken, betColor,
                                    ResultLabel(isWin), now);
              && r == Ok(SpinResult(ResultLabel(isWin), color, d.0, d.1,
                                    Balances(u.ftnBalance + d.0, u.lbrBalance + d.1), tx))
              && storage.users == old(storage.users)[userId := u.(ftnBalance := u.ftnBalance + d.0,
                                                                  lbrBalance := u.lbrBalance + d.1)]
              && storage.transactions == old(storage.transactions)[tx.id := tx]
              && storage.currentTransactionId == old(storage.currentTransactionId) + 1
              && storage.currentUserId == old(storage.currentUserId)
    ensures r.Ok? ==> r.value.transaction.result == r.value.result
                      && (r.value.result == "win" <==> ColorName(r.value.resultColor) == betColor)
  {
    var user := storage.GetUser(userId);
    if user.None? {
      return Fail(NotFound);
    }
    var u := user.value;
    if betToken == "FTN" && u.ftnBalance < betAmount {
      return Fail(InsufficientFtn);
    }
    if betToken == "LBR" && u.lbrBalance < betAmount {
      return Fail(InsufficientLbr);
    }
    var resultColor := ColorOf(draw);
    var isWin := IsWin(resultColor, betColor);
    var delta := Payout(betToken, isWin, betAmount);
    var updatedUser := storage.UpdateUserBalance(userId, delta.0, delta.1);
    var transaction := storage.CreateTransaction(
      NewTransaction(userId, betAmount, betToken, betColor, ResultLabel(isWin), now));
    r := Ok(SpinResult(ResultLabel(isWin), resultColor, delta.0, delta.1,
                       Balances(updatedUser.value.ftnBalance, updatedUser.value.lbrBalance), transaction));
  }
}
