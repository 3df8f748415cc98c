/** The withdrawal service and its workers as they change the tables: each method is one committed
    transaction or one external call; Process and the reconciler put them together. */
module WithdrawalStore {
  import opened Common
  import opened Withdrawals
  import Arithmetic
  import Totals

  datatype Completion = NotFound | Conflict | Recorded

  /** A row of the reconciler's snapshot with the verdict the chain gave for its hash. */
  datatype Check = Check(withdrawal: Id, hash: Id, verdict: Verdict, attempts: nat)

  function ReconcileAll(db: Db, checks: seq<Check>, maxRetries: int, now: int): Db
    decreases |checks|
  {
    if checks == [] then db
    else
      var c := checks[0];
      ReconcileAll(Reconcile(db, c.withdrawal, c.hash, c.verdict, c.attempts, maxRetries, now), checks[1..], maxRetries,
                   now)
  }

  function InFlightMark(): Withdrawal -> int {
    (row: Withdrawal) => if row.status == InFlight then 1 else 0
  }

  /** How many withdrawals are in flight. */
  ghost function InFlightCount(db: Db): int {
    Totals.Total(db.withdrawals, InFlightMark())
  }

  /** What a request must meet. */
  datatype Terms = Terms(enabled: bool, minimum: int, cooldown: int)

  datatype Answer = Disabled | NoWallet | BelowMinimum | Insufficient | TooSoon | NotInserted | Created

  /** The earnings that make up an org's balance. */
  function Owed(earnings: map<Id, Earning>, org: Id): set<Id> {
    set e | e in earnings && earnings[e].org == org && earnings[e].status == Unclaimed
  }

  /** The earnings a withdrawal has claimed are available again, and no others have changed. */
  ghost predicate Freed(before: map<Id, Earning>, after: map<Id, Earning>, w: Id) {
    && after.Keys == before.Keys
    && forall e :: e in before ==>
         after[e] == if before[e].withdrawal == Some(w) && before[e].status == Claimed
                     then before[e].(status := Unclaimed, withdrawal := None) else before[e]
  }

  /** These earnings were available and are the withdrawal's now, and no others have changed. */
  ghost predicate Taken(before: map<Id, Earning>, after: map<Id, Earning>, w: Id, org: Id, ids: seq<Id>) {
    && after.Keys == before.Keys
    && (forall e :: e in ids ==> e in before && Available(before[e], org))
    && forall e :: e in before ==>
         after[e] == if e in ids then before[e].(status := Claimed, withdrawal := Some(w)) else before[e]
  }

  /** A failed row has no hash. After a sweep's call it has one attempt more, and either no retry
      left or a retry time. */
  ghost predicate FailedAfter(before: Withdrawal, after: Withdrawal, sweep: Sweep) {
    && after.org == before.org && after.amount == before.amount && after.wallet == before.wallet
    && after.hash == None
    && match sweep
       case ByAdmin =>
         after.status == Failed && after.attempts == before.attempts && after.nextSweepAt == before.nextSweepAt
       case BySweep(maxRetries, now) =>
         && after.attempts == before.attempts + 1
         && (after.attempts >= maxRetries ==> after.status == Exhausted && after.nextSweepAt == None)
         && (after.attempts < maxRetries ==>
               after.status == Failed
               && after.nextSweepAt == Some(now + Min(Arithmetic.Pow2(after.attempts) * 60, 86_400) * SECOND))
  }

  /** The sweep takes this candidate up: a new one with a wallet, a pending one, or a failed one whose
      retry time has come. */
  predicate Ready(withdrawals: map<Id, Withdrawal>, w: Id, total: int, wallet: Option<Id>, now: int) {
    if w !in withdrawals then wallet.Some? && total > 0
    else
      || withdrawals[w].status == Pending
      || (withdrawals[w].status == Failed && withdrawals[w].nextSweepAt.Some?
          && withdrawals[w].nextSweepAt.value <= now)
  }

  class Service {
    var earnings: map<Id, Earning>
    var withdrawals: map<Id, Withdrawal>
    ghost var chain: map<Id, Transfer>
    ghost var calls: map<Id, Call>

    ghost function Model(): Db
      reads this
    {
      Db(earnings, withdrawals, chain, calls)
    }

    constructor ()
      ensures Model() == EMPTY
    {
      earnings, withdrawals, chain, calls := map[], map[], map[], map[];
    }

    /* ---- marketplace/withdrawals.py ---- */

    /** The insert; a taken id and an amount that is not positive raise. */
    method InsertPending(w: Id, org: Id, amount: int, wallet: Id) returns (ok: bool)
      modifies this
      ensures Model() == Withdrawals.Apply(old(Model()), RequestOp(w, org, amount, wallet))
      ensures ok == (w !in old(withdrawals) && amount > 0)
      ensures ok ==> withdrawals == old(withdrawals)[w := Withdrawal(org, amount, wallet, Pending, None, 0, None)]
    {
      ok := w !in withdrawals && amount > 0;
      if ok {
        withdrawals := withdrawals[w := Withdrawal(org, amount, wallet, Pending, None, 0, None)];
      }
    }

    /** A request of an author; sinceLast is the time since the org's latest withdrawal. */
    method RequestWithdrawal(w: Id, org: Id, amount: int, wallet: Option<Id>, terms: Terms, sinceLast: Option<int>)
      returns (answer: Answer)
      modifies this
      ensures answer == Disabled <==> !terms.enabled
      ensures answer == NoWallet <==> terms.enabled && wallet == None
      ensures answer == BelowMinimum <==> terms.enabled && wallet.Some? && amount < terms.minimum
      ensures answer == Insufficient <==>
              && terms.enabled && wallet.Some? && amount >= terms.minimum
              && amount > Shares(old(earnings), Owed(old(earnings), org))
      ensures answer == TooSoon <==>
              && terms.enabled && wallet.Some?
              && terms.minimum <= amount <= Shares(old(earnings), Owed(old(earnings), org))
              && sinceLast.Some? && sinceLast.value < terms.cooldown
      ensures answer.Created? ==>
              && w !in old(withdrawals) && amount > 0 && wallet.Some?
              && Model() == Withdrawals.Apply(old(Model()), RequestOp(w, org, amount, wallet.value))
              && withdrawals == old(withdrawals)[w := Withdrawal(org, amount, wallet.value, Pending, None, 0, None)]
      ensures answer == NotInserted ==> w in old(withdrawals) || amount <= 0
      ensures !answer.Created? ==> Model() == old(Model())
    {
      if !terms.enabled {
        return Disabled;
      }
      if wallet.None? {
        return NoWallet;
      }
      if amount < terms.minimum {
        return BelowMinimum;
      }
      var balance := Totals.Sum(Restrict(earnings, Owed(earnings, org)), ShareOf());
      if amount > balance {
        return Insufficient;
      }
      if sinceLast.Some? && sinceLast.value < terms.cooldown {
        return TooSoon;
      }
      var ok := InsertPending(w, org, amount, wallet.value);
      answer := if ok then Created else NotInserted;
    }

    /** The selecting query: the org's available earnings, oldest first. */
    method QueryAvailable(org: Id) returns (rows: seq<Id>)
      ensures Lists(earnings, org, rows)
    {
      hide Available;
      var rest := set e | e in earnings && Available(earnings[e], org);
      rows := [];
      while rest != {}
        invariant rest <= earnings.Keys
        invariant forall e :: e in earnings && Available(earnings[e], org) <==> e in rest || e in rows
        invariant forall i :: 0 <= i < |rows| ==> rows[i] !in rest && rows[i] in earnings
        invariant forall i, j ::
            0 <= i < j < |rows| ==> rows[i] != rows[j] && earnings[rows[i]].createdAt <= earnings[rows[j]].createdAt
        invariant forall i, e :: 0 <= i < |rows| && e in rest ==> earnings[rows[i]].createdAt <= earnings[e].createdAt
        decreases |rest|
      {
        ghost var oldest := OldestExists(earnings, rest);
        var next :| next in rest && forall e :: e in rest ==> earnings[next].createdAt <= earnings[e].createdAt;
        rows := rows + [next];
        rest := rest - {next};
      }
    }

    /** The greedy loop: rows too large for what remains are skipped, the rest are taken. */
    method SelectEarnings(rows: seq<Id>, amount: int) returns (ids: seq<Id>, total: int)
      requires forall id :: id in rows ==> id in earnings
      ensures ids == Select(earnings, rows, amount) && total == ShareSum(earnings, ids)
    {
      var remaining := amount;
      ids, total := [], 0;
      for i := 0 to |rows|
        invariant ids + Select(earnings, rows[i..], remaining) == Select(earnings, rows, amount)
        invariant (forall id :: id in ids ==> id in earnings) && total == ShareSum(earnings, ids)
      {
        if remaining <= 0 {
          break;
        }
        var share := earnings[rows[i]].share;
        assert rows[i..][0] == rows[i] && rows[i..][1..] == rows[i + 1..];
        if share > remaining {
          continue;
        }
        ShareSumAppend(earnings, ids, rows[i]);
        assert ids + ([rows[i]] + Select(earnings, rows[i + 1..], remaining - share))
            == ids + [rows[i]] + Select(earnings, rows[i + 1..], remaining - share);
        ids := ids + [rows[i]];
        total := total + share;
        remaining := remaining - share;
      }
    }

    /** None is the raised error; otherwise the claimed total, zero after a failed claim. */
    method ClaimWithdrawal(p: Id, w: Id, sweep: Sweep) returns (total: Option<int>, rows: seq<Id>)
      requires p !in calls
      modifies this
      ensures Model() == Withdrawals.Apply(old(Model()), ClaimOp(p, w, rows, sweep))
      ensures total.Some? <==> w in old(withdrawals) && old(withdrawals)[w].status == Pending
      ensures total.Some? ==> Lists(old(earnings), old(withdrawals)[w].org, rows)
      ensures total.Some? && total.value != 0 <==> p in calls
      ensures total == Some(0) ==>
                && w in withdrawals && FailedAfter(old(withdrawals)[w], withdrawals[w], sweep)
                && earnings == old(earnings)
                && ShareSum(old(earnings), Select(old(earnings), rows, old(withdrawals)[w].amount)) <= 0
      ensures p in calls ==>
                && w in withdrawals && withdrawals[w] == old(withdrawals)[w].(status := InFlight, hash := None)
                && (forall e :: e in rows ==> e in old(earnings))
                && var ids := Select(old(earnings), rows, old(withdrawals)[w].amount);
                   Taken(old(earnings), earnings, w, old(withdrawals)[w].org, ids)
                   && total.value == ShareSum(old(earnings), ids) > 0
      ensures p in calls ==>
                && w in old(withdrawals) && (forall e :: e in rows ==> e in old(earnings))
                && calls[p] == Call(w, Elements(Select(old(earnings), rows, old(withdrawals)[w].amount)), total.value,
                                    BeforeSend)
                && calls[p].claimed <= Held(earnings, w)
                && w in withdrawals && withdrawals[w].status == InFlight
    {
      total, rows := None, [];
      if w !in withdrawals || withdrawals[w].status != Pending {
        return;
      }
      var row := withdrawals[w];
      rows := QueryAvailable(row.org);
      var ids, sum := SelectEarnings(rows, row.amount);
      if ids == [] || sum <= 0 {
        withdrawals := withdrawals[w := FailedRow(row, sweep)];
        return Some(0), rows;
      }
      earnings := ClaimRows(earnings, Elements(ids), w);
      withdrawals := withdrawals[w := row.(status := InFlight, hash := None)];
      calls := calls[p := Call(w, Elements(ids), sum, BeforeSend)];
      total := Some(sum);
    }

    /** The external transfer changes no table, only the chain and what the call will do next. */
    ghost method Transfer(p: Id, outcome: SendOutcome)
      modifies this`chain, this`calls
      ensures Model() == Withdrawals.Apply(old(Model()), SendOp(p, outcome))
    {
      var after := Send(Model(), p, outcome);
      chain, calls := after.chain, after.calls;
    }

    ghost method AwaitVerdict(p: Id, verdict: Verdict)
      modifies this`calls
      ensures Model() == Withdrawals.Apply(old(Model()), VerifyOp(p, verdict))
    {
      calls := Verify(Model(), p, verdict).calls;
    }

    /** False stands for the error raised when the withdrawal is no longer in flight. */
    method SettleWithdrawal(ghost p: Id, w: Id, hash: Id) returns (ok: bool)
      requires p in calls && calls[p].withdrawal == w && calls[p].stage == SettleDue(hash)
      modifies this
      ensures Model() == Withdrawals.Apply(old(Model()), FinishOp(p, ByAdmin))
      ensures ok == (w in old(withdrawals) && old(withdrawals)[w].status == InFlight)
      ensures withdrawals == if ok
                then old(withdrawals)[w := old(withdrawals)[w].(status := Settled, hash := Some(hash))]
                else old(withdrawals)
    {
      calls := calls - {p};
      ok := w in withdrawals && withdrawals[w].status == InFlight;
      if ok {
        withdrawals := withdrawals[w := withdrawals[w].(status := Settled, hash := Some(hash))];
      }
    }

    method ReleaseWithdrawal(ghost p: Id, w: Id, sweep: Sweep) returns (ok: bool)
      requires p in calls && calls[p].withdrawal == w && calls[p].stage == ReleaseDue
      modifies this
      ensures Model() == Withdrawals.Apply(old(Model()), FinishOp(p, sweep))
      ensures ok == (w in old(withdrawals) && old(withdrawals)[w].status == InFlight)
      ensures ok ==> w in withdrawals && FailedAfter(old(withdrawals)[w], withdrawals[w], sweep)
      ensures ok ==> Freed(old(earnings), earnings, w)
    {
      calls := calls - {p};
      ok := w in withdrawals && withdrawals[w].status == InFlight;
      if ok {
        earnings := ReleaseRows(earnings, w);
        withdrawals := withdrawals[w := FailedRow(withdrawals[w], sweep)];
      }
    }

    method RecordInFlight(ghost p: Id, w: Id, found: Option<Id>)
      requires p in calls && calls[p].withdrawal == w && calls[p].stage == RecordDue(found)
      modifies this
      ensures Model() == Withdrawals.Apply(old(Model()), FinishOp(p, ByAdmin))
      ensures withdrawals == if w in old(withdrawals) && old(withdrawals)[w].status == InFlight
                then old(withdrawals)[w := old(withdrawals)[w].(hash := found)] else old(withdrawals)
    {
      calls := calls - {p};
      if w in withdrawals && withdrawals[w].status == InFlight {
        withdrawals := withdrawals[w := withdrawals[w].(hash := found)];
      }
    }

    method CompleteWithdrawal(w: Id, hash: Id) returns (done: Completion)
      modifies this
      ensures Model() == Withdrawals.Apply(old(Model()), CompleteOp(w, hash))
      ensures done == NotFound <==> w !in old(withdrawals)
      ensures done == Conflict <==>
          w in old(withdrawals) && old(withdrawals)[w].hash.Some? && old(withdrawals)[w].hash.value != hash
      ensures done == Recorded ==>
                && w in withdrawals && withdrawals[w].hash == Some(hash)
                && withdrawals[w].status ==
                   if old(withdrawals)[w].status == InFlight then Settled else old(withdrawals)[w].status
    {
      if w !in withdrawals {
        return NotFound;
      }
      var row := withdrawals[w];
      if row.hash.Some? && row.hash.value != hash {
        return Conflict;
      }
      if row.status == InFlight {
        withdrawals := withdrawals[w := row.(status := Settled, hash := Some(hash))];
      } else {
        withdrawals := withdrawals[w := row.(hash := Some(hash))];
      }
      done := Recorded;
    }

    method ResetWithdrawal(w: Id) returns (ok: bool)
      modifies this
      ensures Model() == Withdrawals.Apply(old(Model()), ResetOp(w))
      ensures ok == (w in old(withdrawals) && old(withdrawals)[w].status in {Failed, Exhausted, InFlight})
      ensures ok ==>
                withdrawals == old(withdrawals)[w := old(withdrawals)[w].(status := Pending, hash := None,
                                                                          attempts := 0, nextSweepAt := None)]
      ensures ok && old(withdrawals)[w].status == InFlight ==> Freed(old(earnings), earnings, w)
      ensures ok && old(withdrawals)[w].status != InFlight ==> earnings == old(earnings)
    {
      if w !in withdrawals || withdrawals[w].status !in {Failed, Exhausted, InFlight} {
        return false;
      }
      if withdrawals[w].status == InFlight {
        earnings := ReleaseRows(earnings, w);
      }
      withdrawals := withdrawals[w := withdrawals[w].(status := Pending, hash := None, attempts := 0,
                                                      nextSweepAt := None)];
      ok := true;
    }

    /* ---- marketplace/worker.py ---- */

    method RequeueWithdrawal(w: Id, now: int) returns (ready: bool)
      modifies this
      ensures Model() == Withdrawals.Apply(old(Model()), RequeueOp(w, now))
      ensures ready <==>
                && w in old(withdrawals) && old(withdrawals)[w].status == Failed
                && old(withdrawals)[w].nextSweepAt.Some? && old(withdrawals)[w].nextSweepAt.value <= now
      ensures ready ==>
                withdrawals == old(withdrawals)[w := old(withdrawals)[w].(status := Pending, nextSweepAt := None)]
      ensures !ready ==> Model() == old(Model())
    {
      ready := w in withdrawals && withdrawals[w].status == Failed && withdrawals[w].nextSweepAt.Some?
          && withdrawals[w].nextSweepAt.value <= now;
      if ready {
        withdrawals := withdrawals[w := withdrawals[w].(status := Pending, nextSweepAt := None)];
      }
    }

    method ReleaseReverted(w: Id, hash: Id, attempts: nat, maxRetries: int, now: int) returns (released: bool)
      requires Truthful(Model(), hash, Reverted)
      modifies this
      ensures Model() == Withdrawals.Apply(old(Model()), ReconcileOp(w, hash, Reverted, attempts, maxRetries, now))
      ensures released == (w in old(withdrawals) && old(withdrawals)[w].status == InFlight
                           && old(withdrawals)[w].hash == Some(hash))
      ensures released ==>
                && w in withdrawals
                && FailedAfter(old(withdrawals)[w].(attempts := attempts), withdrawals[w], BySweep(maxRetries, now))
                && Freed(old(earnings), earnings, w)
    {
      released := w in withdrawals && withdrawals[w].status == InFlight && withdrawals[w].hash == Some(hash);
      if released {
        var row := withdrawals[w].(status := Failed, hash := None, attempts := attempts + 1);
        withdrawals := withdrawals[w :=
                                   if attempts + 1 >= maxRetries then row.(status := Exhausted, nextSweepAt := None)
                                        else row.(nextSweepAt := Some(now + SweepBackoff(attempts + 1)))];
        earnings := ReleaseRows(earnings, w);
      }
    }

    /** One row of the snapshot; the verdict mismatch or pending changes nothing here. */
    method ReconcileRow(c: Check, maxRetries: int, now: int) returns (done: bool)
      requires Truthful(Model(), c.hash, c.verdict)
      modifies this
      ensures Model() == Withdrawals.Apply(old(Model()),
                                           ReconcileOp(c.withdrawal, c.hash, c.verdict, c.attempts, maxRetries, now))
      ensures done == Resolves(old(Model()), c)
      ensures done && c.verdict == Confirmed ==>
                withdrawals == old(withdrawals)[c.withdrawal := old(withdrawals)[c.withdrawal].(status := Settled)]
    {
      done := false;
      match c.verdict
      case Confirmed =>
        done := c.withdrawal in withdrawals && withdrawals[c.withdrawal].status == InFlight
            && withdrawals[c.withdrawal].hash == Some(c.hash);
        if done {
          withdrawals := withdrawals[c.withdrawal := withdrawals[c.withdrawal].(status := Settled)];
        }
      case Reverted => done := ReleaseReverted(c.withdrawal, c.hash, c.attempts, maxRetries, now);
      case Unknown =>
    }

    /** One pass over a snapshot of recorded hashes; it counts exactly the withdrawals it takes out of flight. */
    method ReconcileInFlight(checks: seq<Check>, maxRetries: int, now: int) returns (resolved: nat)
      requires forall c :: c in checks ==> Truthful(Model(), c.hash, c.verdict)
      modifies this
      ensures Model() == ReconcileAll(old(Model()), checks, maxRetries, now)
      ensures resolved == InFlightCount(old(Model())) - InFlightCount(Model())
    {
      resolved := 0;
      for i := 0 to |checks|
        invariant ReconcileAll(Model(), checks[i..], maxRetries, now)
            == ReconcileAll(old(Model()), checks, maxRetries, now)
        invariant resolved == InFlightCount(old(Model())) - InFlightCount(Model())
        invariant chain == old(chain)
      {
        var c := checks[i];
        assert checks[i..][0] == c && checks[i..][1..] == checks[i + 1..];
        assert Truthful(old(Model()), c.hash, c.verdict);
        ReconcileCounts(Model(), c, maxRetries, now);
        var done := ReconcileRow(c, maxRetries, now);
        if done {
          resolved := resolved + 1;
        }
      }
      assert checks[|checks|..] == [];
    }

    /** The chain, which is not ours, may decide a transfer while a call waits for its verdict. */
    ghost method ChainDecides(outcome: SendOutcome, fate: Option<bool>)
      modifies this`chain
      ensures Model() == if outcome.Returned? && fate.Some?
          then Withdrawals.Apply(old(Model()), DecideOp(outcome.hash, fate.value)) else old(Model())
    {
      if outcome.Returned? && fate.Some? {
        chain := Decide(Model(), outcome.hash, fate.value).chain;
      }
    }

    /** The transfer of a claimed withdrawal, and the verdict on its hash when there is one. */
    ghost method AttemptTransfer(p: Id, outcome: SendOutcome, fate: Option<bool>, verdict: Verdict)
      requires p in calls && calls[p].stage == BeforeSend && calls[p].withdrawal in withdrawals
      requires Plausible(chain, outcome, fate, verdict)
      modifies this`chain, this`calls
      ensures Model() == Attempted(old(Model()), p, outcome, fate, verdict)
      ensures p in calls && calls[p].withdrawal == old(calls)[p].withdrawal && calls[p].stage == Due(outcome, verdict)
      ensures outcome.Returned? ==>
                && outcome.hash in chain
                && var call := old(calls)[p];
                   chain[outcome.hash] == Withdrawals.Transfer(call.withdrawal, call.claimed, call.total,
                                                               withdrawals[call.withdrawal].wallet,
                                                               match fate
                                                               case None => Possible
                                                               case Some(true) => Effective
                                                               case Some(false) => Dead)
    {
      Transfer(p, outcome);
      ChainDecides(outcome, fate);
      AwaitVerdict(p, verdict);
    }

    /** A whole process call when nothing but the chain moves in between: claim, transfer, verdict,
        final write. None is the error for a withdrawal that is not pending. */
    method Process(p: Id, w: Id, outcome: SendOutcome, fate: Option<bool>, verdict: Verdict, sweep: Sweep)
      returns (status: Option<Status>, rows: seq<Id>)
      requires p !in calls
      requires Plausible(chain, outcome, fate, verdict)
      modifies this
      ensures Model() == Run(old(Model()), ProcessOps(p, w, rows, outcome, fate, verdict, sweep))
      ensures status.Some? <==> w in old(withdrawals) && old(withdrawals)[w].status == Pending
      ensures status.Some? ==>
                && Lists(old(earnings), old(withdrawals)[w].org, rows)
                && status.value ==
                   if ShareSum(old(earnings), Select(old(earnings), rows, old(withdrawals)[w].amount)) <= 0
                      || outcome.NotSent? || (outcome.Returned? && verdict == Reverted) then Failed
                   else if outcome.Returned? && verdict == Confirmed then Settled
                   else InFlight
      ensures status.Some? && status != Some(Failed) ==> w in withdrawals && withdrawals[w].status == status.value
      ensures status == Some(Failed) ==> w in withdrawals && withdrawals[w].status in {Failed, Exhausted}
      ensures status == None ==> Model() == old(Model())
      ensures status == Some(Settled) ==>
                && outcome.Returned? && outcome.hash in chain && chain[outcome.hash].fate == Effective
                && (forall e :: e in rows ==> e in old(earnings))
                && chain[outcome.hash].covers == Elements(Select(old(earnings), rows, old(withdrawals)[w].amount))
                && chain[outcome.hash].covers <= Held(earnings, w)
                && withdrawals[w].hash == Some(outcome.hash)
      ensures status == Some(InFlight) ==> withdrawals[w].hash == if outcome.Returned? then Some(outcome.hash) else None
    {
      hide Select, ShareSum, Lists, Run, ProcessOps, ClaimRows, ReleaseRows, Elements, Attempted, Send, Verify;
      var total;
      total, rows := ClaimWithdrawal(p, w, sweep);
      ProcessOpsRun(old(Model()), p, w, rows, outcome, fate, verdict, sweep);
      if total.None? || total.value == 0 {
        NothingAttempted(Model(), p, outcome, fate, verdict, sweep);
      }
      if total.None? {
        return None, rows;
      }
      if total.value == 0 {
        return Some(Failed), rows;
      }
      AttemptTransfer(p, outcome, fate, verdict);
      status := Write(p, w, outcome, verdict, sweep);
    }

    /** Make or re-queue the withdrawal of a sweep candidate; settled ones and those not yet due are skipped. */
    method Prepare(w: Id, org: Id, total: int, wallet: Option<Id>, now: int) returns (go: bool, ghost ops: seq<Op>)
      modifies this
      ensures Model() == Run(old(Model()), ops) && NoResets(ops) && chain == old(chain) && calls == old(calls)
      ensures go ==> w !in old(withdrawals) || old(withdrawals)[w].status != Settled
      ensures go ==> w in withdrawals ==> withdrawals[w].status != Settled
      ensures Ready(old(withdrawals), w, total, wallet, now) ==>
                go && w in withdrawals && withdrawals[w].status == Pending
    {
      go, ops := true, [];
      if w !in withdrawals {
        if wallet.None? {
          return false, [];
        }
        var inserted := InsertPending(w, org, total, wallet.value);
        RunOfOne(old(Model()), RequestOp(w, org, total, wallet.value));
        ops := [RequestOp(w, org, total, wallet.value)];
      } else if withdrawals[w].status == Settled {
        go := false;
      } else if withdrawals[w].status == Failed {
        go := RequeueWithdrawal(w, now);
        RunOfOne(old(Model()), RequeueOp(w, now));
        ops := [RequeueOp(w, now)];
      }
    }

    /** One candidate of a sweep. A sweep is a run without resets, and what it reports as processed
        is settled. */
    method SweepRow(p: Id, w: Id, org: Id, total: int, wallet: Option<Id>, outcome: SendOutcome, fate: Option<bool>,
                    verdict: Verdict,
                    maxRetries: int, now: int) returns (processed: bool, ghost ops: seq<Op>)
      requires p !in calls && Plausible(chain, outcome, fate, verdict)
      modifies this
      ensures Model() == Run(old(Model()), ops) && NoResets(ops)
      ensures processed <==> w in withdrawals && withdrawals[w].status == Settled
      ensures Ready(old(withdrawals), w, total, wallet, now) ==> w in withdrawals && withdrawals[w].status != Pending
    {
      var go;
      go, ops := Prepare(w, org, total, wallet, now);
      if !go {
        processed := w in withdrawals && withdrawals[w].status == Settled;
        return;
      }
      var status, rows := Process(p, w, outcome, fate, verdict, BySweep(maxRetries, now));
      RunSplit(old(Model()), ops, ProcessOps(p, w, rows, outcome, fate, verdict, BySweep(maxRetries, now)));
      ops := ops + ProcessOps(p, w, rows, outcome, fate, verdict, BySweep(maxRetries, now));
      processed := status == Some(Settled);
    }

    /** The final write, chosen by the transfer's result. */
    method Write(ghost p: Id, w: Id, outcome: SendOutcome, verdict: Verdict, sweep: Sweep)
      returns (status: Option<Status>)
      requires p in calls && calls[p].withdrawal == w && calls[p].stage == Due(outcome, verdict)
      requires w in withdrawals && withdrawals[w].status == InFlight
      modifies this
      ensures Model() == Withdrawals.Apply(old(Model()), FinishOp(p, sweep))
      ensures status == Some(match Due(outcome,
                                       verdict) case SettleDue(_) => Settled case ReleaseDue => Failed case _ =>
                                           InFlight)
      ensures status == Some(Settled) ==> w in withdrawals && withdrawals[w].hash == Some(outcome.hash)
    {
      if outcome.Returned? && verdict == Confirmed {
        var ok := SettleWithdrawal(p, w, outcome.hash);
        status := Some(Settled);
      } else if outcome.NotSent? || (outcome.Returned? && verdict == Reverted) {
        var ok := ReleaseWithdrawal(p, w, sweep);
        status := Some(Failed);
      } else {
        RecordInFlight(p, w, if outcome.Returned? then Some(outcome.hash) else None);
        status := Some(InFlight);
      }
    }
  }

  /** Hashes are new, and a verdict says no more than the chain has decided. */
  predicate Plausible(chain: map<Id, Transfer>, outcome: SendOutcome, fate: Option<bool>, verdict: Verdict) {
    match outcome
    case NotSent => true
    case Raised(broadcast) => broadcast.Some? ==> broadcast.value !in chain
    case Returned(h) =>
      && h !in chain
      && (verdict == Confirmed ==> fate == Some(true))
      && (verdict == Reverted ==> fate == Some(false))
  }

  ghost function Attempted(db: Db, p: Id, outcome: SendOutcome, fate: Option<bool>, verdict: Verdict): Db {
    var sent := Withdrawals.Apply(db, SendOp(p, outcome));
    var decided := if outcome.Returned? && fate.Some?
        then Withdrawals.Apply(sent, DecideOp(outcome.hash, fate.value)) else sent;
    Withdrawals.Apply(decided, VerifyOp(p, verdict))
  }

  /** The write that follows from the transfer's outcome and the verdict on its hash. */
  function Due(outcome: SendOutcome, verdict: Verdict): Stage {
    match outcome
    case NotSent => ReleaseDue
    case Raised(_) => RecordDue(None)
    case Returned(h) => if verdict == Confirmed then SettleDue(h) else if verdict == Reverted
        then ReleaseDue else RecordDue(Some(h))
  }

  function ProcessOps(p: Id, w: Id, rows: seq<Id>, outcome: SendOutcome, fate: Option<bool>, verdict: Verdict,
                      sweep: Sweep): seq<Op> {
    [ClaimOp(p, w, rows, sweep), SendOp(p, outcome)]
    + (if outcome.Returned? && fate.Some? then [DecideOp(outcome.hash, fate.value)] else [])
    + [VerifyOp(p, verdict), FinishOp(p, sweep)]
  }

  /** Without a claim the rest of a call does nothing. */
  lemma NothingAttempted(db: Db, p: Id, outcome: SendOutcome, fate: Option<bool>, verdict: Verdict, sweep: Sweep)
    requires p !in db.calls && Plausible(db.chain, outcome, fate, verdict)
    ensures Withdrawals.Apply(Attempted(db, p, outcome, fate, verdict), FinishOp(p, sweep)) == db
  {
  }

  lemma ProcessOpsRun(db: Db, p: Id, w: Id, rows: seq<Id>, outcome: SendOutcome, fate: Option<bool>, verdict: Verdict,
                      sweep: Sweep)
    ensures Run(db, ProcessOps(p, w, rows, outcome, fate, verdict, sweep))
            == Withdrawals.Apply(Attempted(Withdrawals.Apply(db, ClaimOp(p, w, rows, sweep)), p, outcome, fate,
                                           verdict), FinishOp(p, sweep))
  {
    var first := [ClaimOp(p, w, rows, sweep), SendOp(p, outcome)];
    var middle := if outcome.Returned? && fate.Some? then [DecideOp(outcome.hash, fate.value)] else [];
    var last := [VerifyOp(p, verdict), FinishOp(p, sweep)];
    RunSplit(db, first + middle, last);
    RunSplit(db, first, middle);
    RunOfTwo(db, first[0], first[1]);
    var sent := Run(db, first);
    assert middle != [] ==> middle[1..] == [] && Run(sent, middle) == Run(Withdrawals.Apply(sent, middle[0]), []);
    RunOfTwo(Run(sent, middle), last[0], last[1]);
  }

  lemma RunOfOne(db: Db, a: Op)
    ensures Run(db, [a]) == Withdrawals.Apply(db, a)
  {
    assert [a][1..] == [];
    assert Run(db, [a]) == Run(Withdrawals.Apply(db, a), []);
  }

  lemma RunOfTwo(db: Db, a: Op, b: Op)
    ensures Run(db, [a, b]) == Withdrawals.Apply(Withdrawals.Apply(db, a), b)
  {
    assert [a, b][1..] == [b] && [b][1..] == [];
    assert Run(db, [a, b]) == Run(Withdrawals.Apply(db, a), [b]);
    assert Run(Withdrawals.Apply(db, a), [b]) == Run(Withdrawals.Apply(Withdrawals.Apply(db, a), b), []);
  }

  /** The guarded write of a checked row finds its row. */
  predicate Resolves(db: Db, c: Check) {
    && c.verdict != Unknown && c.withdrawal in db.withdrawals && db.withdrawals[c.withdrawal].status == InFlight
    && db.withdrawals[c.withdrawal].hash == Some(c.hash)
  }

  lemma {:induction false} ShareSumAppend(earnings: map<Id, Earning>, ids: seq<Id>, id: Id)
    requires id in earnings && forall k :: k in ids ==> k in earnings
    ensures forall k :: k in ids + [id] ==> k in earnings
    ensures ShareSum(earnings, ids + [id]) == ShareSum(earnings, ids) + earnings[id].share
    decreases |ids|
  {
    if ids == [] {
      assert ids + [id] == [id];
    } else {
      ShareSumAppend(earnings, ids[1..], id);
      assert (ids + [id])[1..] == ids[1..] + [id];
    }
  }

  /** A reconciled row leaves flight exactly when its guarded write finds it. */
  lemma ReconcileCounts(db: Db, c: Check, maxRetries: int, now: int)
    requires Truthful(db, c.hash, c.verdict)
    ensures var after := Reconcile(db, c.withdrawal, c.hash, c.verdict, c.attempts, maxRetries, now);
            InFlightCount(after) == InFlightCount(db) - (if Resolves(db, c) then 1 else 0)
  {
    var after := Reconcile(db, c.withdrawal, c.hash, c.verdict, c.attempts, maxRetries, now);
    if after != db {
      Totals.TotalUpdate(db.withdrawals, InFlightMark(), c.withdrawal, after.withdrawals[c.withdrawal]);
    }
  }
}
