/** Withdrawals of author earnings (marketplace/withdrawals.py, marketplace/worker.py): earnings are
    claimed, an external transfer with an uncertain outcome is tried, and the claim is settled,
    released, recorded or reconciled later. The chain and the running calls are part of the state. */
module Withdrawals {
  import opened Common
  import Arithmetic
  import Totals

  datatype EarningStatus = Unclaimed | Claimed

  /** The source's statuses are pending and settled; settled means claimed by a withdrawal. */
  datatype Earning = Earning(org: Id, share: int, status: EarningStatus, withdrawal: Option<Id>, createdAt: int)

  datatype Status = Pending | InFlight | Settled | Failed | Exhausted

  datatype Withdrawal = Withdrawal(org: Id, amount: int, wallet: Id, status: Status, hash: Option<Id>,
                                   attempts: nat, nextSweepAt: Option<int>)

  /** What became of a broadcast transfer: still possible, taken effect, or ruled out. */
  datatype Fate = Possible | Effective | Dead

  datatype Transfer = Transfer(withdrawal: Id, covers: set<Id>, amount: int, wallet: Id, fate: Fate)

  /** How far a running process call has come, with its next write. */
  datatype Stage =
    | BeforeSend
    | Sent(hash: Id)
    | SettleDue(hash: Id)
    | ReleaseDue
    | RecordDue(found: Option<Id>)

  /** A running call with the earnings it claimed and their total. */
  datatype Call = Call(withdrawal: Id, claimed: set<Id>, total: int, stage: Stage)

  datatype Db = Db(earnings: map<Id, Earning>, withdrawals: map<Id, Withdrawal>, chain: map<Id, Transfer>,
                   calls: map<Id, Call>)

  const EMPTY := Db(map[], map[], map[], map[])

  /** A sweep adds its retry bookkeeping to a failed call; an administrator's call does not. */
  datatype Sweep = ByAdmin | BySweep(maxRetries: int, now: int)

  datatype SendOutcome = NotSent | Raised(broadcast: Option<Id>) | Returned(hash: Id)

  datatype Verdict = Confirmed | Reverted | Unknown

  /* ---- selecting earnings ---- */

  function SweepBackoff(attempt: nat): int {
    Min(Arithmetic.Pow2(attempt) * 60, 86_400) * SECOND
  }

  predicate Available(e: Earning, org: Id) {
    e.org == org && e.status == Unclaimed && e.withdrawal == None
  }

  /** The rows the selecting query may return: every available earning of the org, oldest first. */
  ghost predicate Lists(earnings: map<Id, Earning>, org: Id, rows: seq<Id>) {
    && (forall i, j :: 0 <= i < j < |rows| ==> rows[i] != rows[j])
    && (forall id :: id in rows <==> id in earnings && Available(earnings[id], org))
    && (forall i, j :: 0 <= i < j < |rows| ==> earnings[rows[i]].createdAt <= earnings[rows[j]].createdAt)
  }

  /** Greedy selection: take each row that still fits, until nothing remains. */
  function Select(earnings: map<Id, Earning>, rows: seq<Id>, remaining: int): (ids: seq<Id>)
    requires forall id :: id in rows ==> id in earnings
    ensures forall id :: id in ids ==> id in rows
    decreases |rows|
  {
    if rows == [] || remaining <= 0 then []
    else if earnings[rows[0]].share > remaining then Select(earnings, rows[1..], remaining)
    else [rows[0]] + Select(earnings, rows[1..], remaining - earnings[rows[0]].share)
  }

  function ShareSum(earnings: map<Id, Earning>, ids: seq<Id>): int
    requires forall id :: id in ids ==> id in earnings
    decreases |ids|
  {
    if ids == [] then 0 else earnings[ids[0]].share + ShareSum(earnings, ids[1..])
  }

  function Elements(ids: seq<Id>): set<Id> {
    set id | id in ids
  }

  function ShareOf(): Earning -> int {
    (e: Earning) => e.share
  }

  function Restrict(earnings: map<Id, Earning>, ids: set<Id>): map<Id, Earning> {
    Totals.Keep(earnings, ids)
  }

  /** The total of the shares of a set of earnings. */
  ghost function Shares(earnings: map<Id, Earning>, ids: set<Id>): int {
    Totals.Total(Restrict(earnings, ids), ShareOf())
  }

  /* ---- the transactions ---- */

  function ClaimRows(earnings: map<Id, Earning>, ids: set<Id>, w: Id): map<Id, Earning> {
    map e | e in earnings ::
        if e in earnings && e in ids && earnings[e].status == Unclaimed && earnings[e].withdrawal == None
                             then earnings[e].(status := Claimed, withdrawal := Some(w)) else earnings[e]
  }

  function ReleaseRows(earnings: map<Id, Earning>, w: Id): map<Id, Earning> {
    map e | e in earnings :: if e in earnings && earnings[e].withdrawal == Some(w) && earnings[e].status == Claimed
                             then earnings[e].(status := Unclaimed, withdrawal := None) else earnings[e]
  }

  /** The sweep's unguarded writes after a failed call. */
  function Bookkeep(row: Withdrawal, sweep: Sweep): Withdrawal {
    if sweep.ByAdmin? then row
    else if row.attempts + 1 >= sweep.maxRetries
        then row.(status := Exhausted, attempts := row.attempts + 1, nextSweepAt := None)
    else row.(attempts := row.attempts + 1, nextSweepAt := Some(sweep.now + SweepBackoff(row.attempts + 1)))
  }

  function FailedRow(row: Withdrawal, sweep: Sweep): Withdrawal {
    Bookkeep(row.(status := Failed, hash := None), sweep)
  }

  /** Claim earnings for a pending withdrawal, or fail it when nothing of value can be claimed. */
  ghost function Claim(db: Db, p: Id, w: Id, rows: seq<Id>, sweep: Sweep): Db {
    if w !in db.withdrawals || db.withdrawals[w].status != Pending || p in db.calls
       || !Lists(db.earnings, db.withdrawals[w].org, rows) then db
    else
      var row := db.withdrawals[w];
      var ids := Select(db.earnings, rows, row.amount);
      if ids == [] || ShareSum(db.earnings, ids) <= 0 then
        db.(withdrawals := db.withdrawals[w := FailedRow(row, sweep)])
      else
        db.(earnings := ClaimRows(db.earnings, Elements(ids), w),
            withdrawals := db.withdrawals[w := row.(status := InFlight, hash := None)],
            calls := db.calls[p := Call(w, Elements(ids), ShareSum(db.earnings, ids), BeforeSend)])
  }

  function Held(earnings: map<Id, Earning>, w: Id): (held: set<Id>)
    ensures held <= earnings.Keys
  {
    set e | e in earnings && earnings[e].withdrawal == Some(w)
  }

  /** The state once a call has broadcast a transfer for what it claimed. */
  function AfterBroadcast(db: Db, p: Id, h: Id, stage: Stage): Db
    requires p in db.calls && db.calls[p].withdrawal in db.withdrawals
  {
    var w := db.calls[p].withdrawal;
    var transfer := Transfer(w, db.calls[p].claimed, db.calls[p].total, db.withdrawals[w].wallet, Possible);
    db.(chain := db.chain[h := transfer], calls := db.calls[p := db.calls[p].(stage := stage)])
  }

  /** The external transfer: not tried, raised with or without a broadcast, or a hash. */
  function Send(db: Db, p: Id, outcome: SendOutcome): Db {
    if p !in db.calls || db.calls[p].stage != BeforeSend || db.calls[p].withdrawal !in db.withdrawals then db
    else
      match outcome
      case NotSent => db.(calls := db.calls[p := db.calls[p].(stage := ReleaseDue)])
      case Raised(None) => db.(calls := db.calls[p := db.calls[p].(stage := RecordDue(None))])
      case Raised(Some(h)) => if h in db.chain then db else AfterBroadcast(db, p, h, RecordDue(None))
      case Returned(h) => if h in db.chain then db else AfterBroadcast(db, p, h, Sent(h))
  }

  /** The chain decides a transfer, once. */
  function Decide(db: Db, h: Id, effective: bool): Db {
    if h in db.chain && db.chain[h].fate == Possible
    then db.(chain := db.chain[h := db.chain[h].(fate := if effective then Effective else Dead)])
    else db
  }

  /** A verdict the chain can give about a hash. */
  predicate Truthful(db: Db, h: Id, verdict: Verdict) {
    match verdict
    case Confirmed => h in db.chain && db.chain[h].fate == Effective
    case Reverted => h in db.chain && db.chain[h].fate == Dead
    case Unknown => true
  }

  function Verify(db: Db, p: Id, verdict: Verdict): Db {
    if p !in db.calls || !db.calls[p].stage.Sent? || !Truthful(db, db.calls[p].stage.hash, verdict) then db
    else
      var h := db.calls[p].stage.hash;
      var next := match verdict
                  case Confirmed => SettleDue(h)
                  case Reverted => ReleaseDue
                  case Unknown => RecordDue(Some(h));
      db.(calls := db.calls[p := db.calls[p].(stage := next)])
  }

  /** The last write of a call, guarded by the in-flight status, and the end of the call. */
  function Finish(db: Db, p: Id, sweep: Sweep): Db {
    if p !in db.calls then db
    else
      var w, done := db.calls[p].withdrawal, db.(calls := db.calls - {p});
      if w !in db.withdrawals || db.withdrawals[w].status != InFlight then done
      else
        var row := db.withdrawals[w];
        match db.calls[p].stage
        case SettleDue(h) => done.(withdrawals := db.withdrawals[w := row.(status := Settled, hash := Some(h))])
        case ReleaseDue =>
          done.(earnings := ReleaseRows(db.earnings, w), withdrawals := db.withdrawals[w := FailedRow(row, sweep)])
        case RecordDue(found) => done.(withdrawals := db.withdrawals[w := row.(hash := found)])
        case _ => done
  }

  /** An operator's completion with a transaction hash. */
  function Complete(db: Db, w: Id, h: Id): Db {
    if w !in db.withdrawals then db
    else
      var row := db.withdrawals[w];
      if row.hash.Some? && row.hash != Some(h) then db
      else db.(withdrawals := db.withdrawals[w := row.(hash := Some(h),
                                                       status := if row.status == InFlight
                                                           then Settled else row.status)])
  }

  /** The reconciler's write for a recorded hash; attempts is from its snapshot. */
  function Reconcile(db: Db, w: Id, h: Id, verdict: Verdict, attempts: nat, maxRetries: int, now: int): Db {
    if w !in db.withdrawals || db.withdrawals[w].status != InFlight || db.withdrawals[w].hash != Some(h)
       || !Truthful(db, h, verdict) then db
    else
      var row := db.withdrawals[w];
      match verdict
      case Confirmed => db.(withdrawals := db.withdrawals[w := row.(status := Settled)])
      case Reverted =>
        db.(earnings := ReleaseRows(db.earnings, w),
            withdrawals := db.withdrawals[w := FailedRow(row.(attempts := attempts), BySweep(maxRetries, now))])
      case Unknown => db
  }

  /** An operator's reset of a failed, exhausted or in-flight withdrawal. */
  function Reset(db: Db, w: Id): Db {
    if w !in db.withdrawals
        || !(db.withdrawals[w].status == Failed || db.withdrawals[w].status == Exhausted
             || db.withdrawals[w].status == InFlight)
    then db
    else
      db.(earnings := if db.withdrawals[w].status == InFlight then ReleaseRows(db.earnings, w) else db.earnings,
          withdrawals := db.withdrawals[w := db.withdrawals[w].(status := Pending, hash := None, attempts := 0,
                                                                nextSweepAt := None)])
  }

  function Requeue(db: Db, w: Id, now: int): Db {
    if w in db.withdrawals && db.withdrawals[w].status == Failed && db.withdrawals[w].nextSweepAt.Some?
       && db.withdrawals[w].nextSweepAt.value <= now
    then db.(withdrawals := db.withdrawals[w := db.withdrawals[w].(status := Pending, nextSweepAt := None)])
    else db
  }

  function Request(db: Db, w: Id, org: Id, amount: int, wallet: Id): Db {
    if w in db.withdrawals || amount <= 0 then db
    else db.(withdrawals := db.withdrawals[w := Withdrawal(org, amount, wallet, Pending, None, 0, None)])
  }

  function Earn(db: Db, e: Id, org: Id, share: int, createdAt: int): Db {
    if e in db.earnings || share < 0 then db
    else db.(earnings := db.earnings[e := Earning(org, share, Unclaimed, None, createdAt)])
  }

  datatype Op =
    | EarnOp(e: Id, org: Id, share: int, createdAt: int)
    | RequestOp(w: Id, org: Id, amount: int, wallet: Id)
    | RequeueOp(w: Id, now: int)
    | ClaimOp(p: Id, w: Id, rows: seq<Id>, sweep: Sweep)
    | SendOp(p: Id, outcome: SendOutcome)
    | DecideOp(h: Id, effective: bool)
    | VerifyOp(p: Id, verdict: Verdict)
    | FinishOp(p: Id, sweep: Sweep)
    | CrashOp(p: Id)
    | CompleteOp(w: Id, h: Id)
    | ReconcileOp(w: Id, h: Id, verdict: Verdict, attempts: nat, maxRetries: int, now: int)
    | ResetOp(w: Id)

  ghost function Apply(db: Db, op: Op): Db {
    match op
    case EarnOp(e, org, share, createdAt) => Earn(db, e, org, share, createdAt)
    case RequestOp(w, org, amount, wallet) => Request(db, w, org, amount, wallet)
    case RequeueOp(w, now) => Requeue(db, w, now)
    case ClaimOp(p, w, rows, sweep) => Claim(db, p, w, rows, sweep)
    case SendOp(p, outcome) => Send(db, p, outcome)
    case DecideOp(h, effective) => Decide(db, h, effective)
    case VerifyOp(p, verdict) => Verify(db, p, verdict)
    case FinishOp(p, sweep) => Finish(db, p, sweep)
    case CrashOp(p) => db.(calls := db.calls - {p})
    case CompleteOp(w, h) => Complete(db, w, h)
    case ReconcileOp(w, h, verdict, attempts, maxRetries, now) =>
        Reconcile(db, w, h, verdict, attempts, maxRetries, now)
    case ResetOp(w) => Reset(db, w)
  }

  ghost function Run(db: Db, ops: seq<Op>): Db
    decreases |ops|
  {
    if ops == [] then db else Run(Apply(db, ops[0]), ops[1..])
  }

  /* ---- when a reset may be made ---- */

  /** No transfer for the withdrawal took or can take effect. */
  ghost predicate NoTransferPossible(db: Db, w: Id) {
    && (forall h :: h in db.chain && db.chain[h].withdrawal == w ==> db.chain[h].fate == Dead)
    && (forall p :: p in db.calls && db.calls[p].withdrawal == w ==> db.calls[p].stage != BeforeSend)
  }

  /** The call still has a release, a settle or the record of a hash to write. */
  predicate Writer(stage: Stage) {
    !(stage.RecordDue? && stage.found == None)
  }

  /** A call for the withdrawal is still running and has such a write ahead of it. */
  ghost predicate StaleWriter(calls: map<Id, Call>, w: Id) {
    exists p :: p in calls && calls[p].withdrawal == w && Writer(calls[p].stage)
  }

  ghost predicate ResetAllowed(db: Db, w: Id) {
    NoTransferPossible(db, w) && !StaleWriter(db.calls, w)
  }

  /** Every reset of the run was allowed when it was made. */
  ghost predicate Guarded(db: Db, ops: seq<Op>)
    decreases |ops|
  {
    ops != [] ==> (ops[0].ResetOp? ==> ResetAllowed(db, ops[0].w)) && Guarded(Apply(db, ops[0]), ops[1..])
  }

  /* ---- runs ---- */

  predicate NoResets(ops: seq<Op>) {
    forall op :: op in ops ==> !op.ResetOp?
  }

  lemma {:induction false} RunSplit(db: Db, first: seq<Op>, rest: seq<Op>)
    ensures Run(db, first + rest) == Run(Run(db, first), rest)
    decreases |first|
  {
    if first == [] {
      assert first + rest == rest;
    } else {
      assert (first + rest)[1..] == first[1..] + rest;
      RunSplit(Apply(db, first[0]), first[1..], rest);
    }
  }

  /* ---- selection ---- */

  lemma {:induction false} SelectFits(earnings: map<Id, Earning>, rows: seq<Id>, remaining: int)
    requires forall id :: id in rows ==> id in earnings && earnings[id].share >= 0
    requires forall i, j :: 0 <= i < j < |rows| ==> rows[i] != rows[j]
    ensures var ids := Select(earnings, rows, remaining);
            && (forall i, j :: 0 <= i < j < |ids| ==> ids[i] != ids[j])
            && 0 <= ShareSum(earnings, ids) <= Max(0, remaining)
    decreases |rows|
  {
    if rows != [] && remaining > 0 {
      assert rows[0] !in rows[1..];
      SelectFits(earnings, rows[1..], remaining);
      SelectFits(earnings, rows[1..], remaining - earnings[rows[0]].share);
    }
  }

  /** Nothing that was left out still fits into what remains. */
  lemma {:induction false} SelectIsMaximal(earnings: map<Id, Earning>, rows: seq<Id>, remaining: int, id: Id)
    requires forall k :: k in rows ==> k in earnings && earnings[k].share >= 0
    requires id in rows && id !in Select(earnings, rows, remaining)
    ensures var left := remaining - ShareSum(earnings, Select(earnings, rows, remaining));
            left <= 0 || earnings[id].share > left
    decreases |rows|
  {
    if remaining > 0 {
      if id == rows[0] {
        SelectNonNegative(earnings, rows[1..], remaining);
      } else if earnings[rows[0]].share > remaining {
        SelectIsMaximal(earnings, rows[1..], remaining, id);
      } else {
        SelectIsMaximal(earnings, rows[1..], remaining - earnings[rows[0]].share, id);
      }
    }
  }

  lemma {:induction false} SelectNonNegative(earnings: map<Id, Earning>, rows: seq<Id>, remaining: int)
    requires forall k :: k in rows ==> k in earnings && earnings[k].share >= 0
    ensures ShareSum(earnings, Select(earnings, rows, remaining)) >= 0
    decreases |rows|
  {
    if rows != [] && remaining > 0 {
      SelectNonNegative(earnings, rows[1..], remaining);
      SelectNonNegative(earnings, rows[1..], remaining - earnings[rows[0]].share);
    }
  }

  lemma WithoutFirst(earnings: map<Id, Earning>, ids: seq<Id>)
    requires ids != [] && ids[0] !in ids[1..]
    ensures Restrict(earnings, Elements(ids)) - {ids[0]} == Restrict(earnings, Elements(ids[1..]))
  {
    assert ids == [ids[0]] + ids[1..];
    assert Elements(ids) - {ids[0]} == Elements(ids[1..]);
  }

  lemma {:induction false} SumIsShares(earnings: map<Id, Earning>, ids: seq<Id>)
    requires forall id :: id in ids ==> id in earnings
    requires forall i, j :: 0 <= i < j < |ids| ==> ids[i] != ids[j]
    ensures ShareSum(earnings, ids) == Shares(earnings, Elements(ids))
    decreases |ids|
  {
    if ids == [] {
      assert Restrict(earnings, Elements(ids)) == map[];
    } else {
      SumIsShares(earnings, ids[1..]);
      Totals.TotalSplit(Restrict(earnings, Elements(ids)), ShareOf(), ids[0]);
      WithoutFirst(earnings, ids);
    }
  }

  lemma SharesFrame(a: map<Id, Earning>, b: map<Id, Earning>, ids: set<Id>)
    requires ids <= a.Keys && ids <= b.Keys && forall id :: id in ids ==> a[id].share == b[id].share
    ensures Shares(a, ids) == Shares(b, ids)
  {
    Totals.TotalCongruent(Restrict(a, ids), Restrict(b, ids), ShareOf());
  }

  lemma {:induction false} OldestExists(earnings: map<Id, Earning>, ids: set<Id>) returns (id: Id)
    requires ids != {} && ids <= earnings.Keys
    ensures id in ids && forall k :: k in ids ==> earnings[id].createdAt <= earnings[k].createdAt
    decreases |ids|
  {
    id :| id in ids;
    if ids != {id} {
      var other := OldestExists(earnings, ids - {id});
      if earnings[other].createdAt < earnings[id].createdAt {
        id := other;
      }
    }
  }

  lemma {:induction false} ListingExists(earnings: map<Id, Earning>, ids: set<Id>) returns (rows: seq<Id>)
    requires ids <= earnings.Keys
    ensures forall i, j :: 0 <= i < j < |rows| ==> rows[i] != rows[j]
    ensures forall id :: id in rows <==> id in ids
    ensures forall i, j :: 0 <= i < j < |rows| ==> earnings[rows[i]].createdAt <= earnings[rows[j]].createdAt
    decreases |ids|
  {
    if ids == {} {
      rows := [];
    } else {
      var first := OldestExists(earnings, ids);
      var rest := ListingExists(earnings, ids - {first});
      rows := [first] + rest;
      assert forall i :: 0 < i < |rows| ==> rows[i] in rest;
    }
  }

  lemma AvailableListing(earnings: map<Id, Earning>, org: Id) returns (rows: seq<Id>)
    ensures Lists(earnings, org, rows)
  {
    var ids := set id | id in earnings && Available(earnings[id], org);
    rows := ListingExists(earnings, ids);
  }
}
