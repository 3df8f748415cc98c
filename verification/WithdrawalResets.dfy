/** Exactly when resetting a withdrawal is safe, and a run in which chain state alone would wrongly
    allow it. */
module WithdrawalResets {
  import opened Common
  import opened Withdrawals
  import opened Payouts
  import Totals

  /* ---- exactly when a reset is safe ---- */

  /** Some continuation without resets ends with an earning paid twice. */
  ghost predicate Unsafe(db: Db) {
    exists ops :: NoResets(ops) && !PaidAtMostOnce(Run(db, ops))
  }

  lemma UnsafeStep(db: Db, op: Op)
    requires Unsafe(Apply(db, op)) && !op.ResetOp?
    ensures Unsafe(db)
  {
    var ops :| NoResets(ops) && !PaidAtMostOnce(Run(Apply(db, op), ops));
    assert ([op] + ops)[1..] == ops;
    assert Run(db, [op] + ops) == Run(Apply(db, op), ops);
    assert NoResets([op] + ops);
  }

  lemma {:induction false} NoResetsIsGuarded(db: Db, ops: seq<Op>)
    requires NoResets(ops)
    ensures Guarded(db, ops)
    decreases |ops|
  {
    if ops != [] {
      assert ops[0] in ops;
      NoResetsIsGuarded(Apply(db, ops[0]), ops[1..]);
    }
  }

  lemma {:induction false} FreshId(used: set<Id>) returns (id: Id)
    ensures forall k :: k in used ==> k < id
    decreases |used|
  {
    if used == {} {
      id := 0;
    } else {
      var k :| k in used;
      var above := FreshId(used - {k});
      id := Max(above, k + 1);
      assert forall j :: j in used ==> j == k || j in used - {k};
    }
  }

  lemma {:induction false} SelectTakesSomething(earnings: map<Id, Earning>, rows: seq<Id>, remaining: int, e: Id)
    requires forall id :: id in rows ==> id in earnings && earnings[id].share >= 0
    requires e in rows && 0 < earnings[e].share <= remaining
    ensures ShareSum(earnings, Select(earnings, rows, remaining)) > 0
    decreases |rows|
  {
    SelectNonNegative(earnings, rows[1..], remaining - earnings[rows[0]].share);
    if rows[0] != e && (earnings[rows[0]].share == 0 || earnings[rows[0]].share > remaining) {
      SelectTakesSomething(earnings, rows[1..], remaining, e);
    }
  }

  lemma {:induction false} SomePositiveShare(rows: map<Id, Earning>) returns (e: Id)
    requires forall k :: k in rows ==> rows[k].share >= 0
    requires Totals.Total(rows, ShareOf()) > 0
    ensures e in rows && 0 < rows[e].share <= Totals.Total(rows, ShareOf())
    decreases |rows|
  {
    e :| e in rows;
    Totals.TotalSplit(rows, ShareOf(), e);
    Totals.TotalMonotone(rows - {e}, (r: Earning) => 0, ShareOf());
    ZeroTotal(rows - {e});
    if rows[e].share == 0 {
      e := SomePositiveShare(rows - {e});
    }
  }

  lemma {:induction false} ZeroTotal(rows: map<Id, Earning>)
    ensures Totals.Total(rows, (r: Earning) => 0) == 0
    decreases |rows|
  {
    if rows != map[] {
      var k :| k in rows;
      Totals.TotalSplit(rows, (r: Earning) => 0, k);
      ZeroTotal(rows - {k});
    }
  }

  /** A whole payment: claim, send, and the transfer takes effect. */
  ghost function Paid(db: Db, p: Id, w: Id, h: Id, rows: seq<Id>): Db {
    Decide(Send(Claim(db, p, w, rows, ByAdmin), p, Returned(h)), h, true)
  }

  lemma PaidIsARun(db: Db, p: Id, w: Id, h: Id, rows: seq<Id>)
    requires Unsafe(Paid(db, p, w, h, rows))
    ensures Unsafe(db)
  {
    var claimed := Claim(db, p, w, rows, ByAdmin);
    UnsafeStep(Send(claimed, p, Returned(h)), DecideOp(h, true));
    UnsafeStep(claimed, SendOp(p, Returned(h)));
    UnsafeStep(db, ClaimOp(p, w, rows, ByAdmin));
  }

  /** What a pending withdrawal can be paid from, with fresh identifiers for the call and the hash. */
  ghost predicate Payable(db: Db, p: Id, w: Id, h: Id, rows: seq<Id>) {
    && w in db.withdrawals && db.withdrawals[w].status == Pending
    && p !in db.calls && h !in db.chain && Held(db.earnings, w) == {}
    && Lists(db.earnings, db.withdrawals[w].org, rows)
    && ShareSum(db.earnings, Select(db.earnings, rows, db.withdrawals[w].amount)) > 0
  }

  /** The set of earnings such a payment covers. */
  ghost function Covers(db: Db, w: Id, rows: seq<Id>): set<Id>
    requires w in db.withdrawals && Lists(db.earnings, db.withdrawals[w].org, rows)
  {
    Elements(Select(db.earnings, rows, db.withdrawals[w].amount))
  }

  /** The state once a set of earnings is claimed and their transfer has taken effect. */
  function AfterPayment(db: Db, p: Id, w: Id, h: Id, ids: set<Id>, total: int): Db
    requires w in db.withdrawals
  {
    db.(earnings := ClaimRows(db.earnings, ids, w),
        withdrawals := db.withdrawals[w := db.withdrawals[w].(status := InFlight, hash := None)],
        chain := db.chain[h := Transfer(w, ids, total, db.withdrawals[w].wallet, Effective)],
        calls := db.calls[p := Call(w, ids, total, Sent(h))])
  }

  lemma SendState(db: Db, p: Id, w: Id, h: Id, ids: set<Id>, total: int)
    requires w in db.withdrawals && p !in db.calls && h !in db.chain && Held(ClaimRows(db.earnings, ids, w), w) == ids
    ensures var claimed := db.(earnings := ClaimRows(db.earnings, ids, w),
                               withdrawals := db.withdrawals[w := db.withdrawals[w].(status := InFlight, hash := None)],
                               calls := db.calls[p := Call(w, ids, total, BeforeSend)]);
            Decide(Send(claimed, p, Returned(h)), h, true) == AfterPayment(db, p, w, h, ids, total)
  {
  }

  lemma PaidState(db: Db, p: Id, w: Id, h: Id, rows: seq<Id>)
    requires Payable(db, p, w, h, rows)
    ensures Covers(db, w, rows) != {}
    ensures Paid(db, p, w, h, rows)
            == AfterPayment(db, p, w, h, Covers(db, w, rows),
                            ShareSum(db.earnings, Select(db.earnings, rows, db.withdrawals[w].amount)))
  {
    var ids := Select(db.earnings, rows, db.withdrawals[w].amount);
    assert ids[0] in Covers(db, w, rows);
    ClaimRowsHeld(db.earnings, Covers(db, w, rows), w, w);
    SendState(db, p, w, h, Covers(db, w, rows), ShareSum(db.earnings, ids));
  }

  /** The late writes of a stale call whose own transfer was reverted. */
  ghost function StaleWrites(db: Db, p: Id): Db {
    if p !in db.calls then db
    else
      match db.calls[p].stage
      case Sent(h) => Finish(Verify(db, p, Reverted), p, ByAdmin)
      case ReleaseDue => Finish(db, p, ByAdmin)
      case RecordDue(Some(h)) => Reconcile(Finish(db, p, ByAdmin), db.calls[p].withdrawal, h, Reverted, 0, 1, 0)
      case BeforeSend | SettleDue(_) | RecordDue(None) => db
  }

  lemma StaleWritesAreARun(db: Db, p: Id)
    requires Unsafe(StaleWrites(db, p))
    ensures Unsafe(db)
  {
    if p in db.calls {
      match db.calls[p].stage
      case Sent(h) =>
        UnsafeStep(Verify(db, p, Reverted), FinishOp(p, ByAdmin));
        UnsafeStep(db, VerifyOp(p, Reverted));
      case ReleaseDue => UnsafeStep(db, FinishOp(p, ByAdmin));
      case RecordDue(Some(h)) =>
        UnsafeStep(Finish(db, p, ByAdmin), ReconcileOp(db.calls[p].withdrawal, h, Reverted, 0, 1, 0));
        UnsafeStep(db, FinishOp(p, ByAdmin));
      case BeforeSend | SettleDue(_) | RecordDue(None) =>
    }
  }

  /** A call with a write ahead of it, whose own transfer is dead or was never sent. */
  predicate WriterOfDead(db: Db, p: Id)
    requires p in db.calls
  {
    match db.calls[p].stage
    case BeforeSend | SettleDue(_) | RecordDue(None) => false
    case ReleaseDue => true
    case Sent(h) => h in db.chain && db.chain[h].fate == Dead
    case RecordDue(Some(h)) => h in db.chain && db.chain[h].fate == Dead
  }

  /** Such a call releases whatever its withdrawal holds, also what a later call claimed. */
  lemma StaleWritesRelease(db: Db, p: Id, w: Id)
    requires p in db.calls && db.calls[p].withdrawal == w && WriterOfDead(db, p)
    requires w in db.withdrawals && db.withdrawals[w].status == InFlight && db.withdrawals[w].hash == None
    ensures var after := StaleWrites(db, p);
            && after.earnings == ReleaseRows(db.earnings, w) && after.chain == db.chain
            && after.calls.Keys <= db.calls.Keys && after.withdrawals.Keys == db.withdrawals.Keys
  {
  }

  /** After the reset the withdrawal can be paid from what it held before. */
  lemma FirstPaymentPossible(db: Db, w: Id, p: Id, h: Id, rows: seq<Id>)
    requires Inv(db) && w in db.withdrawals && db.withdrawals[w].status == InFlight
    requires p !in db.calls && h !in db.chain && Lists(Reset(db, w).earnings, db.withdrawals[w].org, rows)
    ensures Payable(Reset(db, w), p, w, h, rows)
  {
    var clean := Reset(db, w);
    assert RowsOk(db, w);
    forall e | e in db.earnings ensures clean.earnings[e].withdrawal != Some(w) && clean.earnings[e].share >= 0 {
      assert RowsOk(db, e);
    }
    var held := Held(db.earnings, w);
    var e := SomePositiveShare(Restrict(db.earnings, held));
    assert RowsOk(db, e) && Available(clean.earnings[e], db.withdrawals[w].org);
    SelectTakesSomething(clean.earnings, rows, db.withdrawals[w].amount, e);
  }

  lemma {:induction false} ShareSumNonNegative(earnings: map<Id, Earning>, ids: seq<Id>)
    requires forall k :: k in ids ==> k in earnings && earnings[k].share >= 0
    ensures ShareSum(earnings, ids) >= 0
    decreases |ids|
  {
    if ids != [] {
      ShareSumNonNegative(earnings, ids[1..]);
    }
  }

  lemma {:induction false} PositiveMember(earnings: map<Id, Earning>, ids: seq<Id>) returns (e: Id)
    requires forall k :: k in ids ==> k in earnings
    requires ShareSum(earnings, ids) > 0
    ensures e in ids && earnings[e].share > 0
    decreases |ids|
  {
    e := ids[0];
    if earnings[e].share <= 0 {
      e := PositiveMember(earnings, ids[1..]);
    }
  }

  /** A request for everything takes every row of value. */
  lemma {:induction false} SelectTakesAll(earnings: map<Id, Earning>, rows: seq<Id>, remaining: int, e: Id)
    requires forall k :: k in rows ==> k in earnings && earnings[k].share >= 0
    requires ShareSum(earnings, rows) <= remaining && e in rows && earnings[e].share > 0
    ensures e in Select(earnings, rows, remaining) && earnings[e].share <= remaining
    decreases |rows|
  {
    ShareSumNonNegative(earnings, rows[1..]);
    if rows[0] != e {
      SelectTakesAll(earnings, rows[1..], remaining - earnings[rows[0]].share, e);
    }
  }

  /** Shares are not negative, and only withdrawals of the table hold earnings. */
  predicate SoundEarnings(db: Db) {
    forall k :: k in db.earnings ==>
      && db.earnings[k].share >= 0
      && (db.earnings[k].withdrawal.Some? ==> db.earnings[k].withdrawal.value in db.withdrawals)
  }

  /** The earning was paid for and can be claimed again. */
  predicate PaidYetAvailable(db: Db, h: Id, e: Id) {
    && h in db.chain && db.chain[h].fate == Effective && e in db.chain[h].covers
    && e in db.earnings && db.earnings[e].share > 0 && Available(db.earnings[e], db.earnings[e].org)
  }

  /** A new withdrawal of everything available then pays for it a second time. */
  lemma PaidAgain(db: Db, h: Id, e: Id)
    requires SoundEarnings(db) && PaidYetAvailable(db, h, e)
    ensures Unsafe(db)
  {
    var org := db.earnings[e].org;
    var rows := AvailableListing(db.earnings, org);
    var p := FreshId(db.calls.Keys);
    var hash := FreshId(db.chain.Keys);
    var v := FreshId(db.withdrawals.Keys);
    var amount := ShareSum(db.earnings, rows);
    SelectTakesAll(db.earnings, rows, amount, e);
    SelectTakesSomething(db.earnings, rows, amount, e);
    var again := Request(db, v, org, amount, 0);
    assert Held(again.earnings, v) == {};
    assert Payable(again, p, v, hash, rows);
    PaidState(again, p, v, hash, rows);
    var paid := Paid(again, p, v, hash, rows);
    assert BothEffective(paid.chain, h, hash) && e in paid.chain[h].covers && e in paid.chain[hash].covers;
    assert NoResets([]) && Run(paid, []) == paid && !PaidAtMostOnce(paid);
    PaidIsARun(again, p, v, hash, rows);
    UnsafeStep(db, RequestOp(v, org, amount, 0));
  }

  /* ---- the three ways a reset goes wrong ---- */

  /** A withdrawal in flight holds an earning of value; a reset makes it available. */
  lemma ResetFreesValue(db: Db, w: Id) returns (e: Id)
    requires Inv(db) && w in db.withdrawals && db.withdrawals[w].status == InFlight
    ensures SoundEarnings(Reset(db, w))
    ensures e in Held(db.earnings, w) && db.earnings[e].share > 0
    ensures Available(Reset(db, w).earnings[e], Reset(db, w).earnings[e].org) && Reset(db, w).earnings[e].share > 0
  {
    assert RowsOk(db, w);
    forall k | k in db.earnings
      ensures db.earnings[k].share >= 0
      ensures db.earnings[k].withdrawal.Some? ==> db.earnings[k].withdrawal.value in db.withdrawals
    {
      assert RowsOk(db, k);
    }
    e := SomePositiveShare(Restrict(db.earnings, Held(db.earnings, w)));
    assert RowsOk(db, e);
  }

  /** A transfer that took or can take effect has paid for earnings that are available again. */
  lemma TransferPaysTwice(db: Db, w: Id, h: Id)
    requires Inv(db) && w in db.withdrawals && db.withdrawals[w].status == InFlight
    requires SentFor(db, h, w) && db.chain[h].fate != Dead
    ensures Unsafe(Reset(db, w))
  {
    var e := ResetFreesValue(db, w);
    assert RowsOk(db, h);
    var clean := Reset(db, w);
    if clean.chain[h].fate == Possible {
      PaidAgain(Decide(clean, h, true), h, e);
      UnsafeStep(clean, DecideOp(h, true));
    } else {
      PaidAgain(clean, h, e);
    }
  }

  /** A call that has not sent yet still pays for what it claimed. */
  lemma UnsentCallPaysTwice(db: Db, w: Id, p: Id)
    requires Inv(db) && w in db.withdrawals && db.withdrawals[w].status == InFlight
    requires p in db.calls && db.calls[p].withdrawal == w && db.calls[p].stage == BeforeSend
    ensures Unsafe(Reset(db, w))
  {
    hide EarningOk, WithdrawalOk, TransferOk, Shares, Unsafe;
    var e := ResetFreesValue(db, w);
    assert RowsOk(db, p);
    var clean := Reset(db, w);
    var h := FreshId(db.chain.Keys);
    var sent := Send(clean, p, Returned(h));
    PaidAgain(Decide(sent, h, true), h, e);
    UnsafeStep(sent, DecideOp(h, true));
    UnsafeStep(clean, SendOp(p, Returned(h)));
  }

  /** One payment of a pending withdrawal, undone by the stale writes of another call. */
  lemma PaidThenReleased(clean: Db, w: Id, p: Id, call: Id, hash: Id, rows: seq<Id>)
    requires SoundEarnings(clean) && Payable(clean, call, w, hash, rows)
    requires p in clean.calls && clean.calls[p].withdrawal == w && WriterOfDead(clean, p)
    ensures Unsafe(clean)
  {
    hide ShareSum, Select, Unsafe;
    PaidState(clean, call, w, hash, rows);
    var paid := Paid(clean, call, w, hash, rows);
    StaleWritesRelease(paid, p, w);
    var freed := StaleWrites(paid, p);
    var e := PositiveMember(clean.earnings, Select(clean.earnings, rows, clean.withdrawals[w].amount));
    PaidAgain(freed, hash, e);
    StaleWritesAreARun(paid, p);
    PaidIsARun(clean, call, w, hash, rows);
  }

  /** A stale call whose own transfer is dead releases what a later call claimed and paid for. */
  lemma StaleWriterPaysTwice(db: Db, w: Id, p: Id)
    requires Inv(db) && w in db.withdrawals && db.withdrawals[w].status == InFlight && NoTransferPossible(db, w)
    requires p in db.calls && db.calls[p].withdrawal == w && Writer(db.calls[p].stage)
    ensures Unsafe(Reset(db, w))
  {
    var _ := ResetFreesValue(db, w);
    assert RowsOk(db, p) && RowsOk(db, w);
    var rows := AvailableListing(Reset(db, w).earnings, db.withdrawals[w].org);
    var call := FreshId(db.calls.Keys);
    var hash := FreshId(db.chain.Keys);
    FirstPaymentPossible(db, w, call, hash, rows);
    PaidThenReleased(Reset(db, w), w, p, call, hash, rows);
  }

  /** In every continuation whose resets are allowed, no earning is paid twice. */
  ghost predicate StaysSafe(db: Db) {
    forall ops :: Guarded(db, ops) ==> PaidAtMostOnce(Run(db, ops))
  }

  /** In every state a run can reach, a reset is safe in every continuation if and only if no
      transfer for the withdrawal took or can take effect and no call for it still has a release or
      a hash to write. */
  lemma ResetIsSafeIff(db: Db, w: Id)
    requires Inv(db) && w in db.withdrawals && db.withdrawals[w].status in {InFlight, Failed, Exhausted}
    ensures StaysSafe(Reset(db, w)) <==> ResetAllowed(db, w)
  {
    if ResetAllowed(db, w) {
      ResetKeepsInv(db, w);
      forall ops | Guarded(Reset(db, w), ops) ensures PaidAtMostOnce(Run(Reset(db, w), ops)) {
        NoEarningPaidTwice(Reset(db, w), ops);
      }
    } else {
      ForbiddenResetIsUnsafe(db, w);
      var ops :| NoResets(ops) && !PaidAtMostOnce(Run(Reset(db, w), ops));
      NoResetsIsGuarded(Reset(db, w), ops);
    }
  }

  lemma ForbiddenResetIsUnsafe(db: Db, w: Id)
    requires Inv(db) && w in db.withdrawals && db.withdrawals[w].status in {InFlight, Failed, Exhausted}
    requires !ResetAllowed(db, w)
    ensures Unsafe(Reset(db, w))
  {
    if db.withdrawals[w].status != InFlight {
      NothingHeldBeforeClaim(db, w);
    }
    if h :| SentFor(db, h, w) && db.chain[h].fate != Dead {
      TransferPaysTwice(db, w, h);
    } else if p :| p in db.calls && db.calls[p].withdrawal == w && db.calls[p].stage == BeforeSend {
      UnsentCallPaysTwice(db, w, p);
    } else {
      var p :| p in db.calls && db.calls[p].withdrawal == w && Writer(db.calls[p].stage);
      StaleWriterPaysTwice(db, w, p);
    }
  }

  /** A run after which the chain alone seems to justify a reset: the only transfer was reverted,
      but the call that sent it has not yet written its release. */
  const REVERTED_RUN: seq<Op> :=
    [EarnOp(1, 7, 5, 0), RequestOp(1, 7, 5, 9), ClaimOp(1, 1, [1], ByAdmin), SendOp(1, Returned(1)), DecideOp(1, false)]

  const REVERTED :=
    Db(map[1 := Earning(7, 5, Claimed, Some(1), 0)], map[1 := Withdrawal(7, 5, 9, InFlight, None, 0, None)],
       map[1 := Transfer(1, {1}, 5, 9, Dead)], map[1 := Call(1, {1}, 5, Sent(1))])

  const REQUESTED :=
    Db(map[1 := Earning(7, 5, Unclaimed, None, 0)], map[1 := Withdrawal(7, 5, 9, Pending, None, 0, None)], map[], map[])

  lemma RequestedIsClaimed()
    ensures Claim(REQUESTED, 1, 1, [1], ByAdmin)
        == REVERTED.(chain := map[], calls := map[1 := Call(1, {1}, 5, BeforeSend)])
  {
    assert [1][1..] == [];
    assert Select(REQUESTED.earnings, [1], 5) == [1] && Elements([1]) == {1};
    assert ShareSum(REQUESTED.earnings, [1]) == 5;
    assert 1 in [1] && Lists(REQUESTED.earnings, 7, [1]);
  }

  lemma RevertedRunBegins()
    ensures Run(EMPTY, [EarnOp(1, 7, 5, 0), RequestOp(1, 7, 5, 9), ClaimOp(1, 1, [1], ByAdmin)])
            == REVERTED.(chain := map[], calls := map[1 := Call(1, {1}, 5, BeforeSend)])
  {
    assert Request(Earn(EMPTY, 1, 7, 5, 0), 1, 7, 5, 9) == REQUESTED;
    RequestedIsClaimed();
    var ops := [EarnOp(1, 7, 5, 0), RequestOp(1, 7, 5, 9), ClaimOp(1, 1, [1], ByAdmin)];
    assert ops[1..] == [RequestOp(1, 7, 5, 9), ClaimOp(1, 1, [1], ByAdmin)]
        && ops[1..][1..] == [ClaimOp(1, 1, [1], ByAdmin)];
  }

  lemma RevertedRunEnds()
    ensures Run(EMPTY, REVERTED_RUN) == REVERTED
  {
    hide Claim, Earn, Request;
    RevertedRunBegins();
    var begins := [EarnOp(1, 7, 5, 0), RequestOp(1, 7, 5, 9), ClaimOp(1, 1, [1], ByAdmin)];
    var ends := [SendOp(1, Returned(1)), DecideOp(1, false)];
    assert REVERTED_RUN == begins + ends;
    RunSplit(EMPTY, begins, ends);
    var claimed := REVERTED.(chain := map[], calls := map[1 := Call(1, {1}, 5, BeforeSend)]);
    assert Held(claimed.earnings, 1) == {1};
    assert ends[1..] == [DecideOp(1, false)];
    assert Apply(claimed, ends[0]) == REVERTED.(chain := map[1 := Transfer(1, {1}, 5, 9, Possible)]);
  }

  /** Chain state alone does not justify a reset: a concrete run, all of whose resets so far were
      allowed, to a state where no transfer can take effect and a reset still leads to a double payment. */
  lemma ChainStateAloneDoesNotJustifyReset()
    ensures Guarded(EMPTY, REVERTED_RUN) && Run(EMPTY, REVERTED_RUN) == REVERTED
    ensures REVERTED.withdrawals[1].status == InFlight && NoTransferPossible(REVERTED, 1)
    ensures !StaysSafe(Reset(REVERTED, 1))
  {
    hide EarningOk, WithdrawalOk, TransferOk, CallOk, Guarded, StaysSafe;
    NoResetsIsGuarded(EMPTY, REVERTED_RUN);
    RevertedRunEnds();
    EmptyInv();
    NoEarningPaidTwice(EMPTY, REVERTED_RUN);
    assert 1 in REVERTED.calls && Writer(REVERTED.calls[1].stage);
    ResetIsSafeIff(REVERTED, 1);
  }
}
