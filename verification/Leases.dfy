/** When a stale settlement claim can be written again (billing/settlement.py): the lease of a claim
    is the retry time its row carried, so a row that returns to an older retry time returns to the
    claim that held it. */
module Leases {
  import opened Common
  import Arithmetic
  import Ledger
  import opened Settlement

  /* ---- continuations ---- */

  ghost function Continue(cfg: Ledger.Settings, s: State, ops: seq<Op>): State
    decreases |ops|
  {
    if ops == [] then s else Continue(cfg, Apply(cfg, s, ops[0]), ops[1..])
  }

  /** Every clock of the continuation is causal. */
  ghost predicate CausalRun(cfg: Ledger.Settings, s: State, ops: seq<Op>)
    decreases |ops|
  {
    ops != [] ==> Causal(s, ops[0]) && CausalRun(cfg, Apply(cfg, s, ops[0]), ops[1..])
  }

  /** One of these claims is still held and its row carries its lease. */
  ghost predicate OneIsLive(s: State, claims: set<Claim>) {
    exists d :: d in claims && d in s.claims && LeaseMatches(s, d)
  }

  /** Some causal continuation lets one of these claims write. */
  ghost predicate Revivable(cfg: Ledger.Settings, s: State, claims: set<Claim>) {
    exists ops :: CausalRun(cfg, s, ops) && OneIsLive(Continue(cfg, s, ops), claims)
  }

  /** The copies of a row that workers still hold. */
  function HeldFor(s: State, id: Id): set<Claim> {
    set c | c in s.claims && c.id == id
  }

  predicate IsOpen(c: Charge) {
    c.status == Waiting || c.status == Retrying
  }

  /** The shortest time from a row's retry time to a later retry time it can be brought to: by a
      claim and its failure; by a last failure, a reset, a claim and its failure; or by a claim. */
  function Gap(c: Charge): int {
    if c.rail == Credit && c.retries + 1 < c.maxRetries then Backoff(c.retries + 1)
    else if c.rail == Credit && 1 < c.maxRetries then 2 * SECOND + 1
    else LEASE
  }

  /** The lease is the row's retry time, or late enough for a causal continuation to reach it. */
  predicate WithinReach(c: Charge, lease: int) {
    (c.status == Retrying && lease == c.nextRetryAt) || lease >= c.nextRetryAt + Gap(c)
  }

  lemma BackoffRange(retries: nat)
    ensures SECOND <= Backoff(retries) <= LEASE
    ensures retries == 1 ==> Backoff(retries) == 2 * SECOND
    ensures retries >= 1 ==> Backoff(retries) >= 2 * SECOND
  {
    if retries == 1 {
      assert Arithmetic.Pow2(1) == 2 * Arithmetic.Pow2(0);
    }
    if retries >= 1 {
      assert Arithmetic.Pow2(retries) == 2 * Arithmetic.Pow2(retries - 1);
    }
  }

  /* ---- within reach: the steps that get there ---- */

  lemma Prepend(cfg: Ledger.Settings, s: State, op: Op, claims: set<Claim>)
    requires Causal(s, op) && Revivable(cfg, Apply(cfg, s, op), claims)
    ensures Revivable(cfg, s, claims)
  {
    var s' := Apply(cfg, s, op);
    var ops :| CausalRun(cfg, s', ops) && OneIsLive(Continue(cfg, s', ops), claims);
    assert ([op] + ops)[1..] == ops;
    assert CausalRun(cfg, s, [op] + ops);
  }

  lemma LiveNow(cfg: Ledger.Settings, s: State, d: Claim, claims: set<Claim>)
    requires d in claims && d in s.claims && LeaseMatches(s, d)
    ensures Revivable(cfg, s, claims)
  {
    assert CausalRun(cfg, s, []) && Continue(cfg, s, []) == s;
  }

  /** Claiming one due row. */
  lemma ClaimRow(s: State, id: Id, now: int)
    requires id in s.queue && id in s.leases && Due(s.queue[id], now)
    ensures ClaimDue(s, {id}, now) ==
            s.(queue := s.queue[id := Leased(s.queue[id], now)],
               claims := s.claims + {Claim(id, Leased(s.queue[id], now))},
               leases := s.leases[id := s.leases[id] + [now + LEASE]])
  {
    assert DueIn(s.queue, {id}, now) == {id};
    assert LeaseRows(s.queue, {id}, now) == s.queue[id := Leased(s.queue[id], now)];
    assert NewClaims(s.queue, {id}, now) == {Claim(id, Leased(s.queue[id], now))};
    assert NoteLeases(s.leases, {id}, now) == s.leases[id := s.leases[id] + [now + LEASE]];
  }

  /** By a claim at the retry time and a failure that retries at the old lease. */
  lemma ByFailure(cfg: Ledger.Settings, s: State, d: Claim, claims: set<Claim>)
    requires d in claims && d in s.claims && d.id in s.queue && d.id in s.leases && IsOpen(s.queue[d.id])
    requires s.queue[d.id].rail == Credit && s.queue[d.id].retries + 1 < s.queue[d.id].maxRetries
    requires var at := s.queue[d.id].nextRetryAt;
             at + Backoff(s.queue[d.id].retries + 1) <= d.row.nextRetryAt < at + LEASE
    ensures Revivable(cfg, s, claims)
  {
    var row := s.queue[d.id];
    var c := Claim(d.id, Leased(row, row.nextRetryAt));
    var failAt := d.row.nextRetryAt - Backoff(row.retries + 1);
    ClaimRow(s, d.id, row.nextRetryAt);
    var once := ClaimDue(s, {d.id}, row.nextRetryAt);
    var twice := RecordFailure(once, c, failAt);
    LiveNow(cfg, twice, d, claims);
    Prepend(cfg, once, RecordFailureOp(c, failAt), claims);
    Prepend(cfg, s, ClaimOp({d.id}, row.nextRetryAt), claims);
  }

  /** By a last failure, a reset, and a claim whose first failure retries at the old lease. */
  lemma ByReset(cfg: Ledger.Settings, s: State, d: Claim, claims: set<Claim>)
    requires d in claims && d in s.claims && d.id in s.queue && d.id in s.leases && IsOpen(s.queue[d.id])
    requires s.queue[d.id].rail == Credit && s.queue[d.id].retries + 1 >= s.queue[d.id].maxRetries > 1
    requires var at := s.queue[d.id].nextRetryAt;
             at + 2 * SECOND + 1 <= d.row.nextRetryAt < at + LEASE
    ensures Revivable(cfg, s, claims)
  {
    var row := s.queue[d.id];
    var at := row.nextRetryAt;
    var c := Claim(d.id, Leased(row, at));
    ClaimRow(s, d.id, at);
    var claimed := ClaimDue(s, {d.id}, at);
    var exhausted := RecordFailure(claimed, c, at);
    var again := d.row.nextRetryAt - 2 * SECOND;
    var waiting := Reset(exhausted, d.id, again);
    BackoffRange(1);
    ByFailure(cfg, waiting, d, claims);
    Prepend(cfg, exhausted, ResetOp(d.id, again), claims);
    Prepend(cfg, claimed, RecordFailureOp(c, at), claims);
    Prepend(cfg, s, ClaimOp({d.id}, at), claims);
  }

  lemma ByClaim(cfg: Ledger.Settings, s: State, d: Claim, claims: set<Claim>)
    requires d in claims && d in s.claims && d.id in s.queue && d.id in s.leases && IsOpen(s.queue[d.id])
    requires d.row.nextRetryAt >= s.queue[d.id].nextRetryAt + LEASE
    ensures Revivable(cfg, s, claims)
  {
    var at := d.row.nextRetryAt - LEASE;
    ClaimRow(s, d.id, at);
    LiveNow(cfg, ClaimDue(s, {d.id}, at), d, claims);
    Prepend(cfg, s, ClaimOp({d.id}, at), claims);
  }

  lemma ReachedLater(cfg: Ledger.Settings, s: State, d: Claim, claims: set<Claim>)
    requires d in claims && d in s.claims && d.id in s.queue && d.id in s.leases && IsOpen(s.queue[d.id])
    requires WithinReach(s.queue[d.id], d.row.nextRetryAt)
    ensures Revivable(cfg, s, claims)
  {
    var row, lease := s.queue[d.id], d.row.nextRetryAt;
    if row.status == Retrying && lease == row.nextRetryAt {
      LiveNow(cfg, s, d, claims);
    } else if lease >= row.nextRetryAt + LEASE {
      ByClaim(cfg, s, d, claims);
    } else if row.rail == Credit && row.retries + 1 < row.maxRetries {
      ByFailure(cfg, s, d, claims);
    } else {
      ByReset(cfg, s, d, claims);
    }
  }

  /* ---- out of reach: what every causal continuation keeps ---- */

  /** The earliest retry time that a claim on a row can lead to. */
  function Horizon(c: Charge): int {
    c.nextRetryAt + Gap(c)
  }

  function FreshGap(c: Charge): int {
    Gap(c.(retries := 0))
  }

  /** The row was not claimed yet, and its workers are among those it had. */
  ghost predicate Untouched(s0: State, s: State, id: Id)
    requires id in s0.queue && id in s.queue
  {
    s.queue[id] == s0.queue[id] && HeldFor(s, id) <= HeldFor(s0, id)
  }

  /** The row has been claimed again and cannot come back to a retry time before the horizon. */
  predicate RowAhead(c: Charge, leases: seq<int>, horizon: int) {
    && leases != []
    && (IsOpen(c) ==> c.nextRetryAt > LastClaim(leases))
    && (c.status == Retrying ==> c.nextRetryAt >= horizon)
    && (c.status == Waiting ==> Horizon(c) >= horizon)
    && (c.status == Exhausted ==> LastClaim(leases) + 1 + FreshGap(c) >= horizon)
  }

  /** A claim on such a row is an old one, a superseded one, or the copy of the row as it stands. */
  ghost predicate ClaimAhead(s0: State, s: State, c: Claim, horizon: int)
    requires c.id in s.queue && c.id in s.leases && s.leases[c.id] != []
  {
    var row, leases := s.queue[c.id], s.leases[c.id];
    || c in s0.claims
    || c.row.nextRetryAt <= LastClaim(leases)
    || (&& c.row == row && row.status == Retrying && row.nextRetryAt == leases[|leases| - 1]
        && (if NextRetries(c) < row.maxRetries then LastClaim(leases) + Backoff(NextRetries(c)) >= horizon
            else LastClaim(leases) + 1 + FreshGap(row) >= horizon))
  }

  ghost predicate Ahead(s0: State, s: State, id: Id, horizon: int)
    requires id in s.queue && id in s.leases
  {
    && RowAhead(s.queue[id], s.leases[id], horizon)
    && forall c :: c in HeldFor(s, id) ==> ClaimAhead(s0, s, c, horizon)
  }

  ghost predicate OutOfReach(s0: State, s: State, id: Id)
    requires id in s0.queue
  {
    && id in s.queue && id in s.leases
    && (Untouched(s0, s, id) || Ahead(s0, s, id, Horizon(s0.queue[id])))
  }

  /** An open row none of whose held claims is within reach. */
  ghost predicate NoneWithinReach(s: State, id: Id) {
    && id in s.queue && id in s.leases && IsOpen(s.queue[id])
    && forall d :: d in HeldFor(s, id) ==> !WithinReach(s.queue[id], d.row.nextRetryAt)
  }

  lemma ClaimStaysOut(s0: State, s: State, id: Id, picked: set<Id>, now: int)
    requires NoneWithinReach(s0, id) && OutOfReach(s0, s, id)
    ensures OutOfReach(s0, ClaimDue(s, picked, now), id)
  {
    hide Backoff;
    var s' := ClaimDue(s, picked, now);
    if s' != s && id in picked && Due(s.queue[id], now) {
      var c := Claim(id, Leased(s.queue[id], now));
      BackoffRange(s.queue[id].retries + 1);
      BackoffRange(1);
      assert s'.leases[id] == s.leases[id] + [now + LEASE] && s'.queue[id] == c.row;
      forall d | d in HeldFor(s', id) ensures ClaimAhead(s0, s', d, Horizon(s0.queue[id])) {
        assert d == c || d in HeldFor(s, id);
      }
    } else {
      assert HeldFor(s', id) == HeldFor(s, id);
      assert s'.queue[id] == s.queue[id] && s'.leases[id] == s.leases[id];
    }
  }

  lemma FailureStaysOut(s0: State, s: State, id: Id, c: Claim, now: int)
    requires NoneWithinReach(s0, id) && OutOfReach(s0, s, id) && AfterOwnClaim(c, now)
    ensures OutOfReach(s0, RecordFailure(s, c, now), id)
  {
    var s' := RecordFailure(s, c, now);
    assert HeldFor(s', id) <= HeldFor(s, id);
    if c.id == id && c in s.claims {
      assert c in HeldFor(s, id);
      BackoffRange(NextRetries(c));
    }
  }

  lemma RequeueStaysOut(s0: State, s: State, s': State, id: Id, now: int)
    requires NoneWithinReach(s0, id) && OutOfReach(s0, s, id) && AfterLastClaim(s, id, now)
    requires s.queue[id].status == Exhausted && id in s'.queue
    requires s'.queue[id] == s.queue[id].(status := Waiting, retries := 0, nextRetryAt := now)
    requires s'.claims == s.claims && s'.leases == s.leases
    ensures OutOfReach(s0, s', id)
  {
    assert HeldFor(s', id) == HeldFor(s, id);
  }

  lemma SettleStaysOut(cfg: Ledger.Settings, s0: State, s: State, id: Id, c: Claim, now: int)
    requires NoneWithinReach(s0, id) && OutOfReach(s0, s, id)
    ensures OutOfReach(s0, Settle(cfg, s, c, now), id)
  {
    var s' := Settle(cfg, s, c, now);
    assert HeldFor(s', id) <= HeldFor(s, id);
    if c.id == id && c in s.claims {
      assert c in HeldFor(s, id);
    }
  }

  lemma StepStaysOut(cfg: Ledger.Settings, s0: State, s: State, id: Id, op: Op)
    requires NoneWithinReach(s0, id) && OutOfReach(s0, s, id) && Causal(s, op)
    ensures OutOfReach(s0, Apply(cfg, s, op), id)
  {
    var s' := Apply(cfg, s, op);
    match op
    case EnqueueOp(_, _, _) => assert HeldFor(s', id) == HeldFor(s, id);
    case ClaimOp(picked, now) => ClaimStaysOut(s0, s, id, picked, now);
    case SettleOp(c, now) => SettleStaysOut(cfg, s0, s, id, c, now);
    case RecordFailureOp(c, now) => FailureStaysOut(s0, s, id, c, now);
    case AbandonOp(c) => assert HeldFor(s', id) <= HeldFor(s, id);
    case ResetOp(k, now) =>
      if s'.queue[id] != s.queue[id] {
        RequeueStaysOut(s0, s, s', id, now);
      } else {
        assert HeldFor(s', id) == HeldFor(s, id);
      }
    case RearmOp(org, cap, now) =>
      if s'.queue[id] != s.queue[id] {
        RequeueStaysOut(s0, s, s', id, now);
      } else {
        assert HeldFor(s', id) == HeldFor(s, id);
      }
  }

  lemma {:induction false} RunStaysOut(cfg: Ledger.Settings, s0: State, s: State, id: Id, ops: seq<Op>)
    requires NoneWithinReach(s0, id) && OutOfReach(s0, s, id) && CausalRun(cfg, s, ops)
    ensures OutOfReach(s0, Continue(cfg, s, ops), id)
    decreases |ops|
  {
    if ops != [] {
      StepStaysOut(cfg, s0, s, id, ops[0]);
      RunStaysOut(cfg, s0, Apply(cfg, s, ops[0]), id, ops[1..]);
    }
  }

  /* ---- exactly when a held claim can write again ---- */

  /** For an open row in any state: some causal continuation lets one of the workers that hold it
      now write, if and only if one of their leases is within reach of the row's retry time. */
  lemma RevivableIff(cfg: Ledger.Settings, s: State, id: Id)
    requires id in s.queue && id in s.leases && IsOpen(s.queue[id])
    ensures Revivable(cfg, s, HeldFor(s, id)) <==>
            exists d :: d in HeldFor(s, id) && WithinReach(s.queue[id], d.row.nextRetryAt)
  {
    if d :| d in HeldFor(s, id) && WithinReach(s.queue[id], d.row.nextRetryAt) {
      ReachedLater(cfg, s, d, HeldFor(s, id));
    } else {
      forall ops | CausalRun(cfg, s, ops) ensures !OneIsLive(Continue(cfg, s, ops), HeldFor(s, id)) {
        RunStaysOut(cfg, s, s, id, ops);
        forall d | d in HeldFor(s, id) && d in Continue(cfg, s, ops).claims
          ensures !LeaseMatches(Continue(cfg, s, ops), d)
        {
          assert d in HeldFor(Continue(cfg, s, ops), id);
        }
      }
    }
  }

  /** The older claims of a row that are still held. */
  ghost function StaleClaims(s: State, id: Id): set<Claim>
    requires id in s.leases
  {
    set c | c in s.claims && c.id == id && Superseded(s, c)
  }

  /** After a failure write that re-queues its row, whatever its clock: a stale worker can come to
      write again if and only if the row's retry time is its lease or reaches it. */
  lemma FailureRevivesIff(cfg: Ledger.Settings, s: State, c: Claim, now: int)
    requires Fenced(s) && Requeues(s, c)
    ensures var row := s.queue[c.id].(retries := NextRetries(c), nextRetryAt := now + Backoff(NextRetries(c)));
            Revivable(cfg, RecordFailure(s, c, now), StaleClaims(s, c.id)) <==>
            exists d :: d in StaleClaims(s, c.id) && WithinReach(row, d.row.nextRetryAt)
  {
    var s' := RecordFailure(s, c, now);
    assert forall d :: d in HeldFor(s, c.id) ==> ClaimFenced(s, d);
    assert ClaimFenced(s, c) && RowFenced(s.queue[c.id], s.leases[c.id]);
    assert HeldFor(s', c.id) == StaleClaims(s, c.id);
    RevivableIff(cfg, s', c.id);
  }

  /** The same after a reset. */
  lemma ResetRevivesIff(cfg: Ledger.Settings, s: State, id: Id, now: int)
    requires Fenced(s) && Resettable(s, id)
    ensures Revivable(cfg, Reset(s, id, now), StaleClaims(s, id)) <==>
            exists d :: d in StaleClaims(s, id) && d.row.nextRetryAt >= now + FreshGap(s.queue[id])
  {
    RequeueRevivesIff(cfg, s, Reset(s, id, now), id, now);
  }

  /** And for each row that a re-arming re-queues. */
  lemma RearmRevivesIff(cfg: Ledger.Settings, s: State, org: Id, cap: int, now: int, id: Id)
    requires Fenced(s) && cap > 0 && id in Rearmed(s, org, cap, now)
    ensures Revivable(cfg, Rearm(s, org, cap, now), StaleClaims(s, id)) <==>
            exists d :: d in StaleClaims(s, id) && d.row.nextRetryAt >= now + FreshGap(s.queue[id])
  {
    RequeueRevivesIff(cfg, s, Rearm(s, org, cap, now), id, now);
  }

  lemma RequeueRevivesIff(cfg: Ledger.Settings, s: State, s': State, id: Id, now: int)
    requires Fenced(s) && id in s.queue && id in s'.queue && id in s.leases
    requires s.queue[id].status == Exhausted && s'.claims == s.claims && s'.leases == s.leases
    requires s'.queue[id] == s.queue[id].(status := Waiting, retries := 0, nextRetryAt := now)
    ensures Revivable(cfg, s', StaleClaims(s, id)) <==>
            exists d :: d in StaleClaims(s, id) && d.row.nextRetryAt >= now + FreshGap(s.queue[id])
  {
    assert forall d :: d in HeldFor(s, id) ==> ClaimFenced(s, d);
    assert HeldFor(s', id) == StaleClaims(s, id);
    RevivableIff(cfg, s', id);
  }

  /* ---- while the fence holds ---- */

  /** The rows of these claims have all been claimed again since. */
  ghost predicate AllPast(s: State, claims: set<Claim>) {
    forall d :: d in claims ==>
      && d.id in s.queue && d.id in s.leases && s.leases[d.id] != []
      && d.row.nextRetryAt <= LastClaim(s.leases[d.id])
  }

  lemma StepKeepsPast(cfg: Ledger.Settings, s: State, op: Op, claims: set<Claim>)
    requires Fenced(s) && AllPast(s, claims)
    ensures AllPast(Apply(cfg, s, op), claims)
  {
    forall d | d in claims
      ensures var s' := Apply(cfg, s, op);
              && d.id in s'.queue && d.id in s'.leases && s'.leases[d.id] != []
              && d.row.nextRetryAt <= LastClaim(s'.leases[d.id])
    {
      assert RowFenced(s.queue[d.id], s.leases[d.id]);
    }
  }

  lemma {:induction false} PastStaysPast(cfg: Ledger.Settings, s: State, ops: seq<Op>, claims: set<Claim>)
    requires Inv(s) && Fenced(s) && AllPast(s, claims) && CausalRun(cfg, s, ops)
    ensures Fenced(Continue(cfg, s, ops)) && AllPast(Continue(cfg, s, ops), claims)
    ensures s.queue.Keys <= Continue(cfg, s, ops).queue.Keys
    decreases |ops|
  {
    if ops != [] {
      CausalIsTimely(s, ops[0]);
      ApplyKeepsFenceIff(cfg, s, ops[0]);
      ApplyKeepsInv(cfg, s, ops[0]);
      StepKeepsPast(cfg, s, ops[0], claims);
      PastStaysPast(cfg, Apply(cfg, s, ops[0]), ops[1..], claims);
    }
  }

  /** From a fenced state no causal continuation lets a superseded claim write again. */
  lemma FencedNeverRevives(cfg: Ledger.Settings, s: State, id: Id)
    requires Inv(s) && Fenced(s) && id in s.queue
    ensures !Revivable(cfg, s, StaleClaims(s, id))
  {
    var stale := StaleClaims(s, id);
    assert forall d :: d in stale ==> ClaimFenced(s, d);
    forall ops | CausalRun(cfg, s, ops) ensures !OneIsLive(Continue(cfg, s, ops), stale) {
      PastStaysPast(cfg, s, ops, stale);
      var end := Continue(cfg, s, ops);
      forall d | d in stale && d in end.claims ensures !LeaseMatches(end, d) {
        assert RowFenced(end.queue[d.id], end.leases[d.id]);
      }
    }
  }

  /* ---- exactly when leases stay in order ---- */

  /** The leases handed out for a row so far strictly increase. */
  ghost predicate Ordered(s: State, id: Id) {
    id in s.leases && Increasing(s.leases[id])
  }

  /** They do in every causal continuation. */
  ghost predicate StaysOrdered(cfg: Ledger.Settings, s: State, id: Id) {
    forall ops :: CausalRun(cfg, s, ops) ==> Ordered(Continue(cfg, s, ops), id)
  }

  /** And for every row of the queue. */
  ghost predicate AllStayOrdered(cfg: Ledger.Settings, s: State) {
    forall id :: id in s.queue ==> StaysOrdered(cfg, s, id)
  }

  lemma FencedStaysOrdered(cfg: Ledger.Settings, s: State)
    requires Inv(s) && Fenced(s)
    ensures AllStayOrdered(cfg, s)
  {
    forall id, ops | id in s.queue && CausalRun(cfg, s, ops) ensures Ordered(Continue(cfg, s, ops), id) {
      PastStaysPast(cfg, s, ops, {});
      var end := Continue(cfg, s, ops);
      assert RowFenced(end.queue[id], end.leases[id]);
    }
  }

  /** An open row that can be claimed at or before its latest claim. */
  predicate BehindLastClaim(s: State, id: Id) {
    && id in s.queue && id in s.leases && s.leases[id] != []
    && IsOpen(s.queue[id]) && s.queue[id].nextRetryAt <= LastClaim(s.leases[id])
  }

  lemma BehindLosesOrder(cfg: Ledger.Settings, s: State, id: Id)
    requires BehindLastClaim(s, id)
    ensures !StaysOrdered(cfg, s, id)
  {
    var op := ClaimOp({id}, s.queue[id].nextRetryAt);
    UnfencedRowLosesOrder(s, id);
    assert [op][1..] == [];
    assert Continue(cfg, s, [op]) == Apply(cfg, s, op) && CausalRun(cfg, s, [op]);
  }

  /** After a failure write at any clock, the row's leases increase in every causal continuation if
      and only if the retry time lies past the row's latest claim. */
  lemma FailureStaysOrderedIff(cfg: Ledger.Settings, s: State, c: Claim, now: int)
    requires Inv(s) && Fenced(s) && Requeues(s, c)
    ensures StaysOrdered(cfg, RecordFailure(s, c, now), c.id) <==> RetriesAfterLastClaim(s, c, now)
  {
    if RetriesAfterLastClaim(s, c, now) {
      FailureKeepsFenceIff(s, c, now);
      FailureKeepsInv(s, c, now);
      FencedStaysOrdered(cfg, RecordFailure(s, c, now));
    } else {
      BehindLosesOrder(cfg, RecordFailure(s, c, now), c.id);
    }
  }

  /** The same after a reset: exactly when its clock is past the latest claim. */
  lemma ResetStaysOrderedIff(cfg: Ledger.Settings, s: State, id: Id, now: int)
    requires Inv(s) && Fenced(s) && Resettable(s, id)
    ensures StaysOrdered(cfg, Reset(s, id, now), id) <==> AfterLastClaim(s, id, now)
  {
    if AfterLastClaim(s, id, now) {
      ResetKeepsFenceIff(s, id, now);
      ResetKeepsInv(s, id, now);
      FencedStaysOrdered(cfg, Reset(s, id, now));
    } else {
      BehindLosesOrder(cfg, Reset(s, id, now), id);
    }
  }

  /** And after a re-arming, for all rows it re-queues. */
  lemma RearmStaysOrderedIff(cfg: Ledger.Settings, s: State, org: Id, cap: int, now: int)
    requires Inv(s) && Fenced(s) && cap > 0
    ensures (forall id :: id in Rearmed(s, org, cap, now) ==> StaysOrdered(cfg, Rearm(s, org, cap, now), id)) <==>
            (forall id :: id in Rearmed(s, org, cap, now) ==> AfterLastClaim(s, id, now))
  {
    if id :| id in Rearmed(s, org, cap, now) && !AfterLastClaim(s, id, now) {
      BehindLosesOrder(cfg, Rearm(s, org, cap, now), id);
    } else {
      RearmKeepsFenceIff(s, org, cap, now);
      RearmKeepsInv(s, org, cap, now);
      FencedStaysOrdered(cfg, Rearm(s, org, cap, now));
    }
  }

  /** A step from a fenced state leaves all leases in order for good if and only if it is timely. */
  lemma StepStaysOrderedIff(cfg: Ledger.Settings, s: State, op: Op)
    requires Inv(s) && Fenced(s)
    ensures AllStayOrdered(cfg, Apply(cfg, s, op)) <==> Timely(s, op)
  {
    if Timely(s, op) {
      ApplyKeepsFenceIff(cfg, s, op);
      ApplyKeepsInv(cfg, s, op);
      FencedStaysOrdered(cfg, Apply(cfg, s, op));
    } else {
      match op
      case RecordFailureOp(c, now) => FailureStaysOrderedIff(cfg, s, c, now);
      case ResetOp(id, now) => ResetStaysOrderedIff(cfg, s, id, now);
      case RearmOp(org, cap, now) => RearmStaysOrderedIff(cfg, s, org, cap, now);
      case _ =>
    }
  }

  /** The queue of SkewedClockRevivesStaleClaim with the failure written at clock zero: the write
      itself lands on no lease, and a later claim still hands the first worker's lease out again. */
  lemma SkewedClockRevivesLater(cfg: Ledger.Settings)
    ensures !LeaseMatches(RecordFailure(ClaimedTwice(), CURRENT, 0), STALE)
    ensures Fenced(ClaimedTwice()) && STALE in StaleClaims(ClaimedTwice(), 0)
    ensures Revivable(cfg, RecordFailure(ClaimedTwice(), CURRENT, 0), StaleClaims(ClaimedTwice(), 0))
  {
    hide ClaimDue;
    ClaimedTwiceIsFenced();
    RetryAfterTwoSeconds(ClaimedTwice(), CURRENT, 0);
    BackoffRange(2);
    FailureRevivesIff(cfg, ClaimedTwice(), CURRENT, 0);
    assert WithinReach(RecordFailure(ClaimedTwice(), CURRENT, 0).queue[0], STALE.row.nextRetryAt);
  }
}
