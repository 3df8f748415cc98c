/** What every run of withdrawals keeps: no earning is paid by two effective transfers, as long as
    resets are made only when allowed. */
module Payouts {
  import opened Common
  import opened Withdrawals

  /* ---- the invariant ---- */

  /** All transfers of a withdrawal are dead but for the excepted one. */
  ghost predicate DeadExcept(chain: map<Id, Transfer>, w: Id, h: Option<Id>) {
    forall k :: k in chain && chain[k].withdrawal == w && Some(k) != h ==> chain[k].fate == Dead
  }

  predicate Holding(withdrawals: map<Id, Withdrawal>, w: Id) {
    w in withdrawals && (withdrawals[w].status == InFlight || withdrawals[w].status == Settled)
  }

  /** The transfer was sent for this withdrawal. */
  predicate SentFor(db: Db, h: Id, w: Id) {
    h in db.chain && db.chain[h].withdrawal == w
  }

  /** No other call for the withdrawal has a write ahead of it. */
  ghost predicate OnlyWriter(calls: map<Id, Call>, p: Id)
    requires p in calls
  {
    forall q :: q in calls && calls[q].withdrawal == calls[p].withdrawal && Writer(calls[q].stage) ==> q == p
  }

  /** An earning is settled exactly when an in-flight or settled withdrawal of its org holds it. */
  ghost predicate EarningOk(db: Db, e: Id)
    requires e in db.earnings
  {
    var row := db.earnings[e];
    && row.share >= 0
    && (row.status == Claimed <==> row.withdrawal.Some?)
    && (row.withdrawal.Some? ==>
          && Holding(db.withdrawals, row.withdrawal.value)
          && db.withdrawals[row.withdrawal.value].org == row.org)
  }

  ghost predicate WithdrawalOk(db: Db, w: Id)
    requires w in db.withdrawals
  {
    var row := db.withdrawals[w];
    && row.amount > 0
    && (row.status == Settled ==> row.hash.Some?)
    && (Holding(db.withdrawals, w) ==>
          0 < Shares(db.earnings, Held(db.earnings, w)) <= row.amount)
    && (row.status == InFlight && row.hash.Some? ==>
          && SentFor(db, row.hash.value, w)
          && DeadExcept(db.chain, w, row.hash)
          && !StaleWriter(db.calls, w))
  }

  /** A transfer pays its claimed shares, at most the requested amount; while it can matter, its
      withdrawal still holds exactly those earnings. */
  ghost predicate TransferOk(db: Db, h: Id)
    requires h in db.chain
  {
    var t := db.chain[h];
    && t.withdrawal in db.withdrawals
    && t.covers <= db.earnings.Keys
    && t.amount == Shares(db.earnings, t.covers)
    && 0 < t.amount <= db.withdrawals[t.withdrawal].amount
    && t.wallet == db.withdrawals[t.withdrawal].wallet
    && (t.fate != Dead ==>
          && Holding(db.withdrawals, t.withdrawal)
          && t.covers == Held(db.earnings, t.withdrawal)
          && DeadExcept(db.chain, t.withdrawal, Some(h)))
  }

  ghost predicate CallOk(db: Db, p: Id)
    requires p in db.calls
  {
    var call := db.calls[p];
    var w := call.withdrawal;
    && w in db.withdrawals
    && (Writer(call.stage) ==>
          && Holding(db.withdrawals, w)
          && OnlyWriter(db.calls, p))
    && (match call.stage
        case BeforeSend =>
          && DeadExcept(db.chain, w, None)
          && call.claimed == Held(db.earnings, w)
          && call.total == Shares(db.earnings, call.claimed)
        case ReleaseDue => DeadExcept(db.chain, w, None)
        case Sent(h) =>
          && SentFor(db, h, w)
          && DeadExcept(db.chain, w, Some(h))
        case SettleDue(h) =>
          && SentFor(db, h, w)
          && db.chain[h].fate == Effective
        case RecordDue(found) => found.Some? ==>
          && SentFor(db, found.value, w)
          && DeadExcept(db.chain, w, found))
  }

  /** The rows with this id, of whichever tables have one. */
  ghost predicate RowsOk(db: Db, k: Id) {
    && (k in db.earnings ==> EarningOk(db, k))
    && (k in db.withdrawals ==> WithdrawalOk(db, k))
    && (k in db.chain ==> TransferOk(db, k))
    && (k in db.calls ==> CallOk(db, k))
  }

  ghost predicate Inv(db: Db) {
    forall k {:trigger RowsOk(db, k)} :: RowsOk(db, k)
  }

  predicate BothEffective(chain: map<Id, Transfer>, h1: Id, h2: Id) {
    h1 in chain && h2 in chain && h1 != h2 && chain[h1].fate == Effective && chain[h2].fate == Effective
  }

  /** No earning is covered by two transfers that took effect. */
  ghost predicate PaidAtMostOnce(db: Db) {
    forall h1, h2 :: BothEffective(db.chain, h1, h2) ==> db.chain[h1].covers !! db.chain[h2].covers
  }

  /* ---- every transaction keeps the invariant ---- */

  lemma EarnKeepsHeld(db: Db, e: Id, org: Id, share: int, createdAt: int, w: Id)
    requires e !in db.earnings && share >= 0
    ensures var earnings' := Earn(db, e, org, share, createdAt).earnings;
            Held(earnings', w) == Held(db.earnings, w) &&
            Shares(earnings', Held(db.earnings, w)) == Shares(db.earnings, Held(db.earnings, w))
  {
    SharesFrame(db.earnings, Earn(db, e, org, share, createdAt).earnings, Held(db.earnings, w));
  }

  lemma EarnKeepsInv(db: Db, e: Id, org: Id, share: int, createdAt: int)
    requires Inv(db)
    ensures Inv(Earn(db, e, org, share, createdAt))
  {
    hide Shares, Held;
    var db' := Earn(db, e, org, share, createdAt);
    if db' != db {
      forall k | k in db'.earnings ensures EarningOk(db', k) {
        assert RowsOk(db, k);
      }
      forall w | w in db'.withdrawals ensures WithdrawalOk(db', w) {
        assert RowsOk(db, w);
        EarnKeepsHeld(db, e, org, share, createdAt, w);
      }
      forall h | h in db'.chain ensures TransferOk(db', h) {
        assert RowsOk(db, h);
        SharesFrame(db.earnings, db'.earnings, db.chain[h].covers);
        EarnKeepsHeld(db, e, org, share, createdAt, db.chain[h].withdrawal);
      }
      forall p | p in db'.calls ensures CallOk(db', p) {
        assert RowsOk(db, p);
        EarnKeepsHeld(db, e, org, share, createdAt, db.calls[p].withdrawal);
      }
    }
  }

  /** What an author asked for is never rewritten. */
  predicate SameRequest(a: Withdrawal, b: Withdrawal) {
    a.org == b.org && a.amount == b.amount && a.wallet == b.wallet
  }

  /** Writing one withdrawal row that holds, or does not hold, earnings as before. */
  lemma RowKeepsInv(db: Db, w: Id, row: Withdrawal)
    requires Inv(db) && row.amount > 0
    requires w in db.withdrawals ==> SameRequest(row, db.withdrawals[w])
    requires row.status == Settled ==> row.hash.Some?
    requires Holding(db.withdrawals, w) ==> row.status == InFlight || row.status == Settled
    requires row.status == InFlight || row.status == Settled ==> Holding(db.withdrawals, w)
    requires row.status == InFlight && row.hash.Some? ==>
               row.hash.value in db.chain && db.chain[row.hash.value].withdrawal == w
                   && DeadExcept(db.chain, w, row.hash) && !StaleWriter(db.calls, w)
    ensures Inv(db.(withdrawals := db.withdrawals[w := row]))
  {
    hide Shares, Held;
    var db' := db.(withdrawals := db.withdrawals[w := row]);
    forall e | e in db'.earnings ensures EarningOk(db', e) {
      assert RowsOk(db, e);
    }
    forall v | v in db'.withdrawals ensures WithdrawalOk(db', v) {
      assert RowsOk(db, v);
    }
    forall h | h in db'.chain ensures TransferOk(db', h) {
      assert RowsOk(db, h);
    }
    forall p | p in db'.calls ensures CallOk(db', p) {
      assert RowsOk(db, p);
    }
  }

  lemma ReleaseKeepsOthersHeld(earnings: map<Id, Earning>, w: Id, v: Id)
    requires v != w
    ensures Held(ReleaseRows(earnings, w), v) == Held(earnings, v)
    ensures Shares(ReleaseRows(earnings, w), Held(earnings, v)) == Shares(earnings, Held(earnings, v))
  {
    SharesFrame(earnings, ReleaseRows(earnings, w), Held(earnings, v));
  }

  /** Giving up all earnings of a withdrawal none of whose transfers can matter and which no call
      is about to write. */
  lemma ReleaseKeepsInv(db: Db, w: Id, row: Withdrawal)
    requires Inv(db) && w in db.withdrawals && DeadExcept(db.chain, w, None) && !StaleWriter(db.calls, w)
    requires SameRequest(row, db.withdrawals[w])
    requires row.status != InFlight && row.status != Settled
    ensures Inv(db.(earnings := ReleaseRows(db.earnings, w), withdrawals := db.withdrawals[w := row]))
  {
    hide Shares, Held;
    var db' := db.(earnings := ReleaseRows(db.earnings, w), withdrawals := db.withdrawals[w := row]);
    forall e | e in db'.earnings ensures EarningOk(db', e) {
      assert RowsOk(db, e);
    }
    forall v | v in db'.withdrawals ensures WithdrawalOk(db', v) {
      assert RowsOk(db, v);
      if v != w {
        ReleaseKeepsOthersHeld(db.earnings, w, v);
      }
    }
    forall h | h in db'.chain ensures TransferOk(db', h) {
      assert RowsOk(db, h);
      SharesFrame(db.earnings, db'.earnings, db.chain[h].covers);
      if db.chain[h].withdrawal != w {
        ReleaseKeepsOthersHeld(db.earnings, w, db.chain[h].withdrawal);
      }
    }
    forall p | p in db'.calls ensures CallOk(db', p) {
      assert RowsOk(db, p);
      if db.calls[p].withdrawal != w {
        ReleaseKeepsOthersHeld(db.earnings, w, db.calls[p].withdrawal);
      }
    }
  }

  lemma DropCallKeepsInv(db: Db, p: Id)
    requires Inv(db)
    ensures Inv(db.(calls := db.calls - {p}))
  {
    hide Shares, Held;
    var db' := db.(calls := db.calls - {p});
    forall e | e in db'.earnings ensures EarningOk(db', e) {
      assert RowsOk(db, e);
    }
    forall w | w in db'.withdrawals ensures WithdrawalOk(db', w) {
      assert RowsOk(db, w);
    }
    forall h | h in db'.chain ensures TransferOk(db', h) {
      assert RowsOk(db, h);
    }
    forall q | q in db'.calls ensures CallOk(db', q) {
      assert RowsOk(db, q);
    }
  }

  lemma FinishKeepsInv(db: Db, p: Id, sweep: Sweep)
    requires Inv(db)
    ensures Inv(Finish(db, p, sweep))
  {
    DropCallKeepsInv(db, p);
    if p in db.calls {
      assert RowsOk(db, p) && RowsOk(db, db.calls[p].withdrawal);
      var w, done := db.calls[p].withdrawal, db.(calls := db.calls - {p});
      var row := db.withdrawals[w];
      if row.status == InFlight && Writer(db.calls[p].stage) {
        assert !StaleWriter(done.calls, w);
        match db.calls[p].stage
        case SettleDue(h) => RowKeepsInv(done, w, row.(status := Settled, hash := Some(h)));
        case ReleaseDue => ReleaseKeepsInv(done, w, FailedRow(row, sweep));
        case RecordDue(found) => RowKeepsInv(done, w, row.(hash := found));
        case _ =>
      } else if row.status == InFlight {
        RowKeepsInv(done, w, row.(hash := None));
      }
    }
  }

  lemma ReconcileKeepsInv(db: Db, w: Id, h: Id, verdict: Verdict, attempts: nat, maxRetries: int, now: int)
    requires Inv(db)
    ensures Inv(Reconcile(db, w, h, verdict, attempts, maxRetries, now))
  {
    if w in db.withdrawals && db.withdrawals[w].status == InFlight && db.withdrawals[w].hash == Some(h)
        && Truthful(db, h, verdict) {
      assert RowsOk(db, w);
      var row := db.withdrawals[w];
      match verdict
      case Confirmed => RowKeepsInv(db, w, row.(status := Settled));
      case Reverted => ReleaseKeepsInv(db, w, FailedRow(row.(attempts := attempts), BySweep(maxRetries, now)));
      case Unknown =>
    }
  }

  lemma ResetKeepsInv(db: Db, w: Id)
    requires Inv(db) && ResetAllowed(db, w)
    ensures Inv(Reset(db, w))
  {
    if w in db.withdrawals {
      assert RowsOk(db, w);
      var row := db.withdrawals[w].(status := Pending, hash := None, attempts := 0, nextSweepAt := None);
      if db.withdrawals[w].status == InFlight {
        ReleaseKeepsInv(db, w, row);
      } else if db.withdrawals[w].status != Settled {
        RowKeepsInv(db, w, row);
      }
    }
  }

  lemma VerifyKeepsInv(db: Db, p: Id, verdict: Verdict)
    requires Inv(db)
    ensures Inv(Verify(db, p, verdict))
  {
    hide Shares, Held;
    var db' := Verify(db, p, verdict);
    if db' != db {
      assert RowsOk(db, p) && RowsOk(db, db.calls[p].stage.hash);
      forall e | e in db'.earnings ensures EarningOk(db', e) {
        assert RowsOk(db, e);
      }
      forall w | w in db'.withdrawals ensures WithdrawalOk(db', w) {
        assert RowsOk(db, w);
        WritersShrink(db.calls, p, db'.calls[p].stage, w);
      }
      forall h | h in db'.chain ensures TransferOk(db', h) {
        assert RowsOk(db, h);
      }
      forall q | q in db'.calls ensures CallOk(db', q) {
        assert RowsOk(db, q);
      }
    }
  }

  lemma DecideKeepsInv(db: Db, h: Id, effective: bool)
    requires Inv(db)
    ensures Inv(Decide(db, h, effective))
  {
    hide Shares, Held, StaleWriter, OnlyWriter;
    var db' := Decide(db, h, effective);
    if db' != db {
      assert RowsOk(db, h);
      forall e | e in db'.earnings ensures EarningOk(db', e) {
        assert RowsOk(db, e);
      }
      forall w | w in db'.withdrawals ensures WithdrawalOk(db', w) {
        assert RowsOk(db, w);
      }
      forall k | k in db'.chain ensures TransferOk(db', k) {
        assert RowsOk(db, k);
      }
      forall q | q in db'.calls ensures CallOk(db', q) {
        assert RowsOk(db, q);
      }
    }
  }

  /** Once the call has sent, it is a writer no more, or stands for the new transfer alone. */
  lemma StageKeepsInv(db: Db, p: Id, stage: Stage)
    requires Inv(db) && p in db.calls && db.calls[p].stage == BeforeSend
    requires stage == ReleaseDue || stage == RecordDue(None)
    ensures Inv(db.(calls := db.calls[p := db.calls[p].(stage := stage)]))
  {
    hide Shares, Held;
    var db' := db.(calls := db.calls[p := db.calls[p].(stage := stage)]);
    assert RowsOk(db, p);
    forall e | e in db'.earnings ensures EarningOk(db', e) {
      assert RowsOk(db, e);
    }
    forall v | v in db'.withdrawals ensures WithdrawalOk(db', v) {
      assert RowsOk(db, v);
      WritersShrink(db.calls, p, stage, v);
    }
    forall h | h in db'.chain ensures TransferOk(db', h) {
      assert RowsOk(db, h);
    }
    forall q | q in db'.calls ensures CallOk(db', q) {
      assert RowsOk(db, q);
    }
  }

  lemma WritersShrink(calls: map<Id, Call>, p: Id, stage: Stage, w: Id)
    requires p in calls && Writer(calls[p].stage)
    ensures StaleWriter(calls[p := calls[p].(stage := stage)], w) ==> StaleWriter(calls, w)
  {
    if StaleWriter(calls[p := calls[p].(stage := stage)], w) {
      var q :| q in calls && calls[p := calls[p].(stage := stage)][q].withdrawal == w
          && Writer(calls[p := calls[p].(stage := stage)][q].stage);
      assert calls[q].withdrawal == w && Writer(calls[q].stage);
    }
  }

  ghost predicate MayBroadcast(db: Db, p: Id, h: Id, stage: Stage) {
    && Inv(db) && p in db.calls && db.calls[p].stage == BeforeSend && h !in db.chain
    && (stage == RecordDue(None) || stage == Sent(h)) && db.calls[p].withdrawal in db.withdrawals
  }

  lemma BroadcastKeepsInv(db: Db, p: Id, h: Id, stage: Stage)
    requires MayBroadcast(db, p, h, stage)
    ensures Inv(AfterBroadcast(db, p, h, stage))
  {
    hide Shares, Held;
    var db' := AfterBroadcast(db, p, h, stage);
    assert RowsOk(db, p) && RowsOk(db, db.calls[p].withdrawal) && StaleWriter(db.calls, db.calls[p].withdrawal);
    forall e | e in db'.earnings ensures EarningOk(db', e) {
      assert RowsOk(db, e);
    }
    forall v | v in db'.withdrawals ensures WithdrawalOk(db', v) {
      assert RowsOk(db, v);
      WritersShrink(db.calls, p, stage, v);
    }
    forall k | k in db'.chain ensures TransferOk(db', k) {
      assert RowsOk(db, k);
    }
    forall q | q in db'.calls ensures CallOk(db', q) {
      assert RowsOk(db, q);
    }
  }

  lemma SendKeepsInv(db: Db, p: Id, outcome: SendOutcome)
    requires Inv(db)
    ensures Inv(Send(db, p, outcome))
  {
    if p in db.calls && db.calls[p].stage == BeforeSend && db.calls[p].withdrawal in db.withdrawals {
      match outcome
      case NotSent => StageKeepsInv(db, p, ReleaseDue);
      case Raised(None) => StageKeepsInv(db, p, RecordDue(None));
      case Raised(Some(h)) =>
        if h !in db.chain {
          BroadcastKeepsInv(db, p, h, RecordDue(None));
        }
      case Returned(h) =>
        if h !in db.chain {
          BroadcastKeepsInv(db, p, h, Sent(h));
        }
    }
  }

  lemma ClaimedAreHeld(earnings: map<Id, Earning>, ids: set<Id>, w: Id, v: Id)
    requires forall e :: e in ids ==> e in earnings && earnings[e].status == Unclaimed && earnings[e].withdrawal == None
    requires Held(earnings, w) == {}
    ensures Held(ClaimRows(earnings, ids, w), v) == if v == w then ids else Held(earnings, v)
  {
    var claimed := ClaimRows(earnings, ids, w);
    assert forall e :: e in earnings ==> e !in Held(earnings, w);
    assert forall e :: e in claimed ==> e in ids || claimed[e] == earnings[e];
  }

  /** Claiming a set of available earnings for a withdrawal that holds none. */
  lemma ClaimRowsHeld(earnings: map<Id, Earning>, ids: set<Id>, w: Id, v: Id)
    requires forall e :: e in ids ==> e in earnings && earnings[e].status == Unclaimed && earnings[e].withdrawal == None
    requires Held(earnings, w) == {}
    ensures Held(ClaimRows(earnings, ids, w), v) == if v == w then ids else Held(earnings, v)
    ensures Shares(ClaimRows(earnings, ids, w), Held(earnings, v)) == Shares(earnings, Held(earnings, v))
    ensures Shares(ClaimRows(earnings, ids, w), ids) == Shares(earnings, ids)
  {
    var claimed := ClaimRows(earnings, ids, w);
    SharesFrame(earnings, claimed, Held(earnings, v));
    SharesFrame(earnings, claimed, ids);
    ClaimedAreHeld(earnings, ids, w, v);
  }

  lemma NothingHeldBeforeClaim(db: Db, w: Id)
    requires Inv(db) && !Holding(db.withdrawals, w)
    ensures Held(db.earnings, w) == {}
    ensures !StaleWriter(db.calls, w)
    ensures DeadExcept(db.chain, w, None)
  {
    forall e | e in db.earnings ensures db.earnings[e].withdrawal != Some(w) {
      assert RowsOk(db, e);
    }
    forall p | p in db.calls && db.calls[p].withdrawal == w ensures !Writer(db.calls[p].stage) {
      assert RowsOk(db, p);
    }
    forall h | h in db.chain && db.chain[h].withdrawal == w ensures db.chain[h].fate == Dead {
      assert RowsOk(db, h);
    }
  }

  /** The state once a pending withdrawal has claimed a set of earnings for a new call. */
  ghost function AfterClaim(db: Db, p: Id, w: Id, ids: set<Id>): Db
    requires w in db.withdrawals
  {
    db.(earnings := ClaimRows(db.earnings, ids, w),
        withdrawals := db.withdrawals[w := db.withdrawals[w].(status := InFlight, hash := None)],
        calls := db.calls[p := Call(w, ids, Shares(db.earnings, ids), BeforeSend)])
  }

  ghost predicate Claimable(db: Db, p: Id, w: Id, ids: set<Id>) {
    && Inv(db) && w in db.withdrawals && db.withdrawals[w].status == Pending && p !in db.calls
    && (forall e :: e in ids ==> e in db.earnings && Available(db.earnings[e], db.withdrawals[w].org))
    && 0 < Shares(db.earnings, ids) <= db.withdrawals[w].amount
  }

  lemma ClaimSetKeepsInv(db: Db, p: Id, w: Id, ids: set<Id>)
    requires Claimable(db, p, w, ids)
    ensures Inv(AfterClaim(db, p, w, ids))
  {
    hide Shares, Held;
    var db' := AfterClaim(db, p, w, ids);
    NothingHeldBeforeClaim(db, w);
    forall e | e in db'.earnings ensures EarningOk(db', e) {
      assert RowsOk(db, e);
    }
    forall v | v in db'.withdrawals ensures WithdrawalOk(db', v) {
      assert RowsOk(db, v);
      ClaimRowsHeld(db.earnings, ids, w, v);
    }
    forall h | h in db'.chain ensures TransferOk(db', h) {
      assert RowsOk(db, h);
      ClaimRowsHeld(db.earnings, ids, w, db.chain[h].withdrawal);
      SharesFrame(db.earnings, db'.earnings, db.chain[h].covers);
    }
    forall q | q in db'.calls ensures CallOk(db', q) {
      ClaimRowsHeld(db.earnings, ids, w, db'.calls[q].withdrawal);
      if q != p {
        assert RowsOk(db, q);
      }
    }
  }

  lemma ClaimKeepsInv(db: Db, p: Id, w: Id, rows: seq<Id>, sweep: Sweep)
    requires Inv(db)
    ensures Inv(Claim(db, p, w, rows, sweep))
  {
    if w in db.withdrawals && db.withdrawals[w].status == Pending && p !in db.calls
        && Lists(db.earnings, db.withdrawals[w].org, rows) {
      assert RowsOk(db, w);
      var row := db.withdrawals[w];
      forall e | e in rows ensures db.earnings[e].share >= 0 {
        assert RowsOk(db, e);
      }
      SelectFits(db.earnings, rows, row.amount);
      var ids := Select(db.earnings, rows, row.amount);
      SumIsShares(db.earnings, ids);
      if ShareSum(db.earnings, ids) <= 0 {
        RowKeepsInv(db, w, FailedRow(row, sweep));
      } else {
        ClaimSetKeepsInv(db, p, w, Elements(ids));
      }
    }
  }

  lemma PaperworkKeepsInv(db: Db, op: Op)
    requires Inv(db) && (op.RequestOp? || op.RequeueOp? || op.CompleteOp?)
    ensures Inv(Apply(db, op))
  {
    assert RowsOk(db, op.w);
    var after := Apply(db, op).withdrawals;
    if op.w in after {
      RowKeepsInv(db, op.w, after[op.w]);
      assert after == db.withdrawals[op.w := after[op.w]];
    }
  }

  lemma ApplyKeepsInv(db: Db, op: Op)
    requires Inv(db) && (op.ResetOp? ==> ResetAllowed(db, op.w))
    ensures Inv(Apply(db, op))
  {
    match op
    case EarnOp(e, org, share, createdAt) => EarnKeepsInv(db, e, org, share, createdAt);
    case RequestOp(_, _, _, _) => PaperworkKeepsInv(db, op);
    case RequeueOp(_, _) => PaperworkKeepsInv(db, op);
    case CompleteOp(_, _) => PaperworkKeepsInv(db, op);
    case ClaimOp(p, w, rows, sweep) => ClaimKeepsInv(db, p, w, rows, sweep);
    case SendOp(p, outcome) => SendKeepsInv(db, p, outcome);
    case DecideOp(h, effective) => DecideKeepsInv(db, h, effective);
    case VerifyOp(p, verdict) => VerifyKeepsInv(db, p, verdict);
    case FinishOp(p, sweep) => FinishKeepsInv(db, p, sweep);
    case CrashOp(p) => DropCallKeepsInv(db, p);
    case ReconcileOp(w, h, verdict, attempts, maxRetries, now) =>
        ReconcileKeepsInv(db, w, h, verdict, attempts, maxRetries, now);
    case ResetOp(w) => ResetKeepsInv(db, w);
  }

  /** Over every interleaving of claims, transfers, final writes, crashes, sweeps, reconciliations
      and allowed resets, the invariant holds, and so no earning is paid by two effective transfers. */
  lemma {:induction false} NoEarningPaidTwice(db: Db, ops: seq<Op>)
    requires Inv(db) && Guarded(db, ops)
    ensures Inv(Run(db, ops)) && PaidAtMostOnce(Run(db, ops))
    decreases |ops|
  {
    if ops == [] {
      forall h1, h2 | BothEffective(db.chain, h1, h2) ensures db.chain[h1].covers !! db.chain[h2].covers {
        assert RowsOk(db, h1) && RowsOk(db, h2);
      }
    } else {
      ApplyKeepsInv(db, ops[0]);
      NoEarningPaidTwice(Apply(db, ops[0]), ops[1..]);
    }
  }

  lemma EmptyInv()
    ensures Inv(EMPTY)
  {
  }

  /** From the empty tables, over every run whose resets are allowed: an earning is settled exactly
      when an in-flight or settled withdrawal holds it, what an effective transfer has paid is not
      available again, a transfer pays its shares to the author's wallet and at most what was
      requested, and a settled withdrawal has a hash. */
  lemma EveryRunPaysWhatItClaims(ops: seq<Op>)
    requires Guarded(EMPTY, ops)
    ensures var db := Run(EMPTY, ops);
            && PaidAtMostOnce(db)
            && (forall e :: e in db.earnings ==>
                  (db.earnings[e].status == Claimed <==>
                   db.earnings[e].withdrawal.Some? && Holding(db.withdrawals, db.earnings[e].withdrawal.value)))
            && (forall h, e :: h in db.chain && db.chain[h].fate == Effective && e in db.chain[h].covers ==>
                  e in db.earnings && db.earnings[e].withdrawal == Some(db.chain[h].withdrawal))
            && (forall h :: h in db.chain ==>
                  && db.chain[h].withdrawal in db.withdrawals
                  && 0 < db.chain[h].amount
                      == Shares(db.earnings, db.chain[h].covers) <= db.withdrawals[db.chain[h].withdrawal].amount
                  && db.chain[h].wallet == db.withdrawals[db.chain[h].withdrawal].wallet)
            && (forall w :: w in db.withdrawals && db.withdrawals[w].status == Settled ==>
                  db.withdrawals[w].hash.Some?)
  {
    var db := Run(EMPTY, ops);
    EmptyInv();
    NoEarningPaidTwice(EMPTY, ops);
    forall e | e in db.earnings
      ensures db.earnings[e].status == Claimed <==>
          db.earnings[e].withdrawal.Some? && Holding(db.withdrawals, db.earnings[e].withdrawal.value)
    {
      assert RowsOk(db, e);
    }
    forall h | h in db.chain
      ensures db.chain[h].withdrawal in db.withdrawals && TransferOk(db, h)
    {
      assert RowsOk(db, h);
    }
    forall w | w in db.withdrawals ensures WithdrawalOk(db, w) {
      assert RowsOk(db, w);
    }
  }

  /* ---- what settled means ---- */

  /** If the withdrawal is settled, the hash it records is that of an effective transfer sent for it. */
  ghost predicate SettledByTransfer(db: Db, w: Id) {
    w in db.withdrawals && db.withdrawals[w].status == Settled ==>
      exists h :: db.withdrawals[w].hash == Some(h) && SentFor(db, h, w) && db.chain[h].fate == Effective
  }

  lemma StepSettlesByTransfer(db: Db, op: Op, w: Id)
    requires Inv(db) && SettledByTransfer(db, w) && !(op.CompleteOp? && op.w == w)
    ensures SettledByTransfer(Apply(db, op), w)
  {
    hide Shares, Held, ReleaseRows, ClaimRows;
    match op
    case FinishOp(p, _) => assert RowsOk(db, p);
    case ReconcileOp(v, _, _, _, _, _) => assert RowsOk(db, v);
    case _ =>
  }

  lemma {:induction false} RunSettlesByTransfer(db: Db, ops: seq<Op>, w: Id)
    requires Inv(db) && Guarded(db, ops) && SettledByTransfer(db, w)
    requires forall op :: op in ops ==> !(op.CompleteOp? && op.w == w)
    ensures SettledByTransfer(Run(db, ops), w)
    decreases |ops|
  {
    if ops != [] {
      StepSettlesByTransfer(db, ops[0], w);
      ApplyKeepsInv(db, ops[0]);
      RunSettlesByTransfer(Apply(db, ops[0]), ops[1..], w);
    }
  }

  /** From the empty tables, over every run whose resets are allowed: a settled withdrawal that no
      operator completed by hand was paid. The hash it records is of an effective transfer of
      exactly the earnings it holds, to the wallet it named. */
  lemma SettledMeansPaid(ops: seq<Op>, w: Id)
    requires Guarded(EMPTY, ops) && forall op :: op in ops ==> !(op.CompleteOp? && op.w == w)
    requires w in Run(EMPTY, ops).withdrawals && Run(EMPTY, ops).withdrawals[w].status == Settled
    ensures var db := Run(EMPTY, ops);
            var row := db.withdrawals[w];
            && row.hash.Some? && row.hash.value in db.chain
            && db.chain[row.hash.value] ==
               Transfer(w, Held(db.earnings, w), Shares(db.earnings, Held(db.earnings, w)), row.wallet, Effective)
  {
    EmptyInv();
    RunSettlesByTransfer(EMPTY, ops, w);
    NoEarningPaidTwice(EMPTY, ops);
    assert RowsOk(Run(EMPTY, ops), Run(EMPTY, ops).withdrawals[w].hash.value);
  }
}
