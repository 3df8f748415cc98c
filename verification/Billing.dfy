/** The billing database as a whole: one ledger shared by direct debits, top-ups, delegations and
    settlement retries, and what every run of their transactions keeps. */
module Billing {
  import opened Common
  import opened Ledger
  import D = Delegation
  import L = Leases
  import S = Settlement

  datatype Db = Db(book: Book, holds: map<Id, D.Hold>, queue: map<Id, S.Charge>, earnings: seq<S.Earning>,
                   claims: set<S.Claim>, leases: map<Id, seq<int>>)
  {
    function Delegations(): D.State {
      D.State(book, holds)
    }

    function Settlements(): S.State {
      S.State(book, queue, earnings, claims, leases)
    }

    function WithDelegations(d: D.State): Db {
      this.(book := d.book, holds := d.holds)
    }

    function WithSettlements(s: S.State): Db {
      Db(s.book, holds, s.queue, s.earnings, s.claims, s.leases)
    }
  }

  const EMPTY := Db(Book(map[], map[], []), map[], map[], [], {}, map[])

  /** One committed transaction of one of the protocols; every clock value is the caller's. */
  datatype Step = Keep(op: Ledger.Op) | Delegate(dop: D.Op) | Recover(sop: S.Op)

  ghost function Apply(cfg: Settings, db: Db, step: Step): Db {
    match step
    case Keep(op) => db.(book := Ledger.Apply(cfg, db.book, op))
    case Delegate(op) => db.WithDelegations(D.Apply(cfg, db.Delegations(), op))
    case Recover(op) => db.WithSettlements(S.Apply(cfg, db.Settlements(), op))
  }

  /** The state after some more steps. */
  ghost function RunFrom(cfg: Settings, db: Db, steps: seq<Step>): Db
    decreases |steps|
  {
    if steps == [] then db
    else Apply(cfg, RunFrom(cfg, db, steps[..|steps| - 1]), steps[|steps| - 1])
  }

  /** A run starts from empty tables. */
  ghost function Run(cfg: Settings, steps: seq<Step>): Db {
    RunFrom(cfg, EMPTY, steps)
  }

  lemma {:induction false} RunsCompose(cfg: Settings, db: Db, steps: seq<Step>, k: nat)
    requires k <= |steps|
    ensures RunFrom(cfg, db, steps) == RunFrom(cfg, RunFrom(cfg, db, steps[..k]), steps[k..])
    decreases |steps|
  {
    if k == |steps| {
      assert steps[..k] == steps;
    } else {
      var rest := steps[..|steps| - 1];
      RunsCompose(cfg, db, rest, k);
      var tail := steps[k..];
      assert rest[..k] == steps[..k];
      assert rest[k..] == tail[..|tail| - 1];
    }
  }

  lemma EmptyRun(cfg: Settings, db: Db, steps: seq<Step>)
    ensures steps[..0] == [] && RunFrom(cfg, db, []) == db
  {
  }

  lemma RunStep(cfg: Settings, db: Db, steps: seq<Step>, k: nat)
    requires k < |steps|
    ensures RunFrom(cfg, db, steps[..k + 1]) == Apply(cfg, RunFrom(cfg, db, steps[..k]), steps[k])
  {
    assert steps[..k + 1][..k] == steps[..k];
  }

  ghost predicate Inv(db: Db) {
    D.Inv(db.Delegations()) && S.Inv(db.Settlements())
  }

  lemma StepKeepsInv(cfg: Settings, db: Db, step: Step)
    requires Inv(db)
    ensures Inv(Apply(cfg, db, step))
  {
    var d, s, book' := db.Delegations(), db.Settlements(), Apply(cfg, db, step).book;
    match step {
      case Keep(op) =>
        Ledger.ApplyExtends(cfg, db.book, op);
        Ledger.ApplyKeepsBook(cfg, db.book, op);
        D.OutsideKeepsInv(d, book');
        S.OutsideKeepsInv(s, book');
      case Delegate(op) =>
        D.ApplyExtends(cfg, d, op);
        D.ApplyKeepsInv(cfg, d, op);
        S.OutsideKeepsInv(s, book');
      case Recover(op) =>
        S.ApplyExtends(cfg, s, op);
        S.ApplyKeepsInv(cfg, s, op);
        S.ApplyKeepsBook(cfg, s, op);
        D.OutsideKeepsInv(d, book');
    }
  }

  lemma {:induction false} RunFromKeepsInv(cfg: Settings, db: Db, steps: seq<Step>)
    requires Inv(db)
    ensures Inv(RunFrom(cfg, db, steps))
    decreases |steps|
  {
    if steps != [] {
      RunFromKeepsInv(cfg, db, steps[..|steps| - 1]);
      StepKeepsInv(cfg, RunFrom(cfg, db, steps[..|steps| - 1]), steps[|steps| - 1]);
    }
  }

  lemma RunKeepsInv(cfg: Settings, steps: seq<Step>)
    ensures Inv(Run(cfg, steps))
  {
    RunFromKeepsInv(cfg, EMPTY, steps);
  }

  /* ---- conservation and exactly-once over every run ---- */

  /** In every reachable state a balance is top-ups minus debits and never negative, every row's
      running balance is right, no debit is reversed twice and no external payment credited twice. */
  lemma LedgerIsConserved(cfg: Settings, steps: seq<Step>)
    ensures BookInv(Run(cfg, steps).book)
  {
    RunKeepsInv(cfg, steps);
  }

  /** In every reachable state a delegation's one debit minus its credits is what it still holds, or
      nothing once refunded; confirmed means cancelled, and refunded means the debit is reversed. */
  lemma DelegationIsConserved(cfg: Settings, steps: seq<Step>, id: Id)
    requires id in Run(cfg, steps).holds
    ensures var entries, h := Run(cfg, steps).book.entries, Run(cfg, steps).holds[id];
            && h.debit < |entries| && entries[h.debit].kind == Outgoing && entries[h.debit].purpose == Funding(id)
            && entries[h.debit].amount - D.Credits(entries, id) == (if h.status == D.Refunded then 0 else h.amount)
            && (h.delivery == D.Confirmed <==> h.status == D.Cancelled)
            && (h.status == D.Refunded <==> Reversed(entries, h.debit))
            && forall i :: 0 <= i < |entries| && entries[i].purpose == Funding(id) ==> i == h.debit
  {
    RunKeepsInv(cfg, steps);
    var db := Run(cfg, steps);
    assert D.HoldInv(db.Delegations(), id);
    forall i | 0 <= i < |db.book.entries| && db.book.entries[i].purpose == Funding(id) ensures i == db.holds[id].debit {
      assert D.RowAttributed(db.holds, i, db.book.entries[i]);
    }
  }

  /** In every reachable state a queued charge has exactly one ledger debit, of its amount, and its
      author earnings if it is settled, and none of either otherwise. */
  lemma SettlementIsExactlyOnce(cfg: Settings, steps: seq<Step>, id: Id)
    requires id in Run(cfg, steps).queue
    ensures var db := Run(cfg, steps);
            var c, debits := db.queue[id], S.DebitsOf(db.book.entries, id);
            if c.status == S.Settled
            then |debits| == 1 && S.DebitFor(debits[0], id, c)
                && exists paid :: S.PaysFor(S.EarningsOf(db.earnings, id), id, c.allocations, paid)
            else debits == [] && S.EarningsOf(db.earnings, id) == []
  {
    RunKeepsInv(cfg, steps);
    assert S.ChargeInv(Run(cfg, steps).Settlements(), id);
    var paid := S.PayoutsPayFor(id, Run(cfg, steps).queue[id].allocations);
  }

  /** In every reachable state an author has been paid from a charge what its allocations owe that
      author if it is settled, and nothing if it is not. */
  lemma AuthorsArePaidWhatIsOwed(cfg: Settings, steps: seq<Step>, id: Id, author: Id)
    requires id in Run(cfg, steps).queue
    ensures var db := Run(cfg, steps);
            S.PaidTo(db.earnings, id, author) ==
                if db.queue[id].status == S.Settled then S.OwedTo(db.queue[id].allocations, author) else 0
  {
    RunKeepsInv(cfg, steps);
    var db := Run(cfg, steps);
    assert S.ChargeInv(db.Settlements(), id);
    S.PaidOnlyByOwnRows(db.earnings, id, author);
    S.PayoutsOwe(id, db.queue[id].allocations, author);
  }

  /* ---- rolling limits over every run ---- */

  lemma StepKeepsWindows(cfg: Settings, db: Db, step: Step, org: Id, who: Option<Id>, cap: int)
    requires Inv(db) && Limited(cfg, db.book, org, who, cap)
    ensures NoneRisesAbove(db.book.entries, Apply(cfg, db, step).book.entries, org, who, cap)
  {
    match step
    case Keep(op) => Ledger.ApplyKeepsWindows(cfg, db.book, op, org, who, cap);
    case Delegate(op) => D.ApplyKeepsWindows(cfg, db.Delegations(), op, org, who, cap);
    case Recover(op) => S.ApplyKeepsWindows(cfg, db.Settlements(), op, org, who, cap);
  }

  /** A limit of at most cap was in force before each of these steps. */
  ghost predicate LimitedThroughout(cfg: Settings, db: Db, steps: seq<Step>, org: Id, who: Option<Id>, cap: int) {
    forall k :: 0 <= k < |steps| ==> Limited(cfg, RunFrom(cfg, db, steps[..k]).book, org, who, cap)
  }

  /** From any sound state on, while a limit of at most cap is in force, no 24-hour window of
      unreversed debits of the org, or of the limited principal, rises above cap or above what it
      held already: across direct debits, delegation funding, settlement retries and reversals, and
      whatever the clocks say. */
  lemma {:induction false} SpendNeverExceedsLimit(cfg: Settings, db: Db, steps: seq<Step>,
                                                  org: Id, who: Option<Id>, cap: int)
    requires Inv(db) && LimitedThroughout(cfg, db, steps, org, who, cap)
    ensures NoneRisesAbove(db.book.entries, RunFrom(cfg, db, steps).book.entries, org, who, cap)
    decreases |steps|
  {
    if steps != [] {
      var rest := steps[..|steps| - 1];
      assert forall k :: 0 <= k < |rest| ==> rest[..k] == steps[..k];
      SpendNeverExceedsLimit(cfg, db, rest, org, who, cap);
      RunFromKeepsInv(cfg, db, rest);
      StepKeepsWindows(cfg, RunFrom(cfg, db, rest), steps[|steps| - 1], org, who, cap);
      var before, between, after := db.book, RunFrom(cfg, db, rest).book, RunFrom(cfg, db, steps).book;
      forall start
        ensures WindowSpend(after.entries, org, who, start) <= Max(cap, WindowSpend(before.entries, org, who, start))
      {
        assert WindowSpend(after.entries, org, who, start) <= Max(cap, WindowSpend(between.entries, org, who, start));
      }
    }
  }

  /** No step of a run reconfigures the org, or the principal, beyond the cap. */
  predicate KeepLimit(cfg: Settings, steps: seq<Step>, org: Id, who: Option<Id>, cap: int) {
    forall i :: 0 <= i < |steps| && steps[i].Keep? ==> Ledger.KeepsLimit(cfg, steps[i].op, org, who, cap)
  }

  lemma StepKeepsLimit(cfg: Settings, db: Db, step: Step, org: Id, who: Option<Id>, cap: int)
    requires Limited(cfg, db.book, org, who, cap) && KeepLimit(cfg, [step], org, who, cap)
    ensures Limited(cfg, Apply(cfg, db, step).book, org, who, cap)
  {
    match step
    case Keep(op) =>
      assert [step][0] == step;
      Ledger.ApplyKeepsLimit(cfg, db.book, op, org, who, cap);
    case Delegate(op) => D.ApplyKeepsLimits(cfg, db.Delegations(), op);
    case Recover(op) =>
  }

  /** A limit once set stays in force as long as nobody reconfigures it. */
  lemma {:induction false} LimitStaysInForce(cfg: Settings, db: Db, steps: seq<Step>, org: Id, who: Option<Id>,
                                             cap: int, n: nat)
    requires Limited(cfg, db.book, org, who, cap) && KeepLimit(cfg, steps, org, who, cap) && n <= |steps|
    ensures forall k :: 0 <= k <= n ==> Limited(cfg, RunFrom(cfg, db, steps[..k]).book, org, who, cap)
  {
    hide Limited, RunFrom, Apply;
    if n == 0 {
      EmptyRun(cfg, db, steps);
    } else {
      LimitStaysInForce(cfg, db, steps, org, who, cap, n - 1);
      RunStep(cfg, db, steps, n - 1);
      StepKeepsLimit(cfg, RunFrom(cfg, db, steps[..n - 1]), steps[n - 1], org, who, cap);
    }
  }

  /** From the point k of a run at which a limit is in force, and while nobody reconfigures it, its
      windows stay within the cap, or below what they held at k. */
  lemma SpendIsCappedFrom(cfg: Settings, steps: seq<Step>, k: nat, org: Id, who: Option<Id>, cap: int)
    requires k <= |steps| && Limited(cfg, Run(cfg, steps[..k]).book, org, who, cap)
    requires KeepLimit(cfg, steps[k..], org, who, cap)
    ensures NoneRisesAbove(Run(cfg, steps[..k]).book.entries, Run(cfg, steps).book.entries, org, who, cap)
    ensures Within(Run(cfg, steps[..k]).book.entries, org, who, cap) ==>
              Within(Run(cfg, steps).book.entries, org, who, cap)
  {
    var at := Run(cfg, steps[..k]);
    RunKeepsInv(cfg, steps[..k]);
    RunsCompose(cfg, EMPTY, steps, k);
    LimitStaysInForce(cfg, at, steps[k..], org, who, cap, |steps| - k);
    SpendNeverExceedsLimit(cfg, at, steps[k..], org, who, cap);
    if Within(at.book.entries, org, who, cap) {
      forall start ensures WindowSpend(Run(cfg, steps).book.entries, org, who, start) <= cap {
        assert WindowSpend(at.book.entries, org, who, start) <= cap;
      }
    }
  }

  lemma {:induction false} UnspentIsZero(entries: seq<Entry>, n: nat, q: Query)
    requires n <= |entries| && forall i :: 0 <= i < n ==> !Matches(entries[i], q)
    ensures SpendTo(entries, n, q) == 0
  {
    if n > 0 {
      UnspentIsZero(entries, n - 1, q);
    }
  }

  predicate NoDebitYet(entries: seq<Entry>, org: Id, who: Option<Id>) {
    forall i :: 0 <= i < |entries| && entries[i].org == org && (who.Some? ==> entries[i].principal == who) ==>
      entries[i].kind == Incoming
  }

  lemma NothingSpentYet(entries: seq<Entry>, org: Id, who: Option<Id>, cap: int)
    requires NoDebitYet(entries, org, who) && cap >= 0
    ensures Within(entries, org, who, cap)
  {
    forall start ensures WindowSpend(entries, org, who, start) <= cap {
      UnspentIsZero(entries, |entries|, Query(org, who, start, Some(start + DAY)));
    }
  }

  /** An org given a limit before its first debit never spends more than that limit in any window,
      whatever happens from then on. */
  lemma OrgIsCapped(cfg: Settings, steps: seq<Step>, k: nat, org: Id, limit: int, paused: Option<bool>)
    requires k < |steps| && steps[k] == Keep(ConfigureOp(org, Some(limit), paused)) && limit > 0
    requires org in Run(cfg, steps[..k]).book.accounts
    requires NoDebitYet(Run(cfg, steps[..k]).book.entries, org, None)
    requires KeepLimit(cfg, steps[k + 1..], org, None, limit)
    ensures Within(Run(cfg, steps).book.entries, org, None, limit)
  {
    RunStep(cfg, EMPTY, steps, k);
    NothingSpentYet(Run(cfg, steps[..k + 1]).book.entries, org, None, limit);
    SpendIsCappedFrom(cfg, steps, k + 1, org, None, limit);
  }

  /** For instance an org that signed up by hand, topped up and then given its limit. */
  lemma OrdinaryOrgIsCapped(cfg: Settings, org: Id, amount: int, ref: Option<Id>, now: int, limit: int,
                            paused: Option<bool>, later: seq<Step>)
    requires org !in cfg.machineOrgs && amount > 0 && limit > 0 && KeepLimit(cfg, later, org, None, limit)
    ensures var steps := [Keep(TopUpOp(org, amount, ref, now)), Keep(ConfigureOp(org, Some(limit), paused))] + later;
            Within(Run(cfg, steps).book.entries, org, None, limit)
  {
    var steps := [Keep(TopUpOp(org, amount, ref, now)), Keep(ConfigureOp(org, Some(limit), paused))] + later;
    RunStep(cfg, EMPTY, steps, 0);
    assert steps[2..] == later;
    OrgIsCapped(cfg, steps, 1, org, limit, paused);
  }

  /** A principal given a limit row before its first debit never spends more than that limit in any
      window, whatever happens from then on. */
  lemma PrincipalIsCapped(cfg: Settings, steps: seq<Step>, k: nat, org: Id, who: Id, row: PrincipalLimit)
    requires k < |steps| && steps[k] == Keep(ConfigurePrincipalOp(org, who, row)) && row.limit >= 0
    requires NoDebitYet(Run(cfg, steps[..k]).book.entries, org, Some(who))
    requires KeepLimit(cfg, steps[k + 1..], org, Some(who), row.limit)
    ensures Within(Run(cfg, steps).book.entries, org, Some(who), row.limit)
  {
    RunStep(cfg, EMPTY, steps, k);
    NothingSpentYet(Run(cfg, steps[..k + 1]).book.entries, org, Some(who), row.limit);
    SpendIsCappedFrom(cfg, steps, k + 1, org, Some(who), row.limit);
  }

  /** An org that signed up by machine never spends more than the machine cap in any window, from the
      top-up that opened its account on. */
  lemma MachineOrgIsCapped(cfg: Settings, steps: seq<Step>, k: nat, org: Id, amount: int, ref: Option<Id>, now: int)
    requires k < |steps| && steps[k] == Keep(TopUpOp(org, amount, ref, now))
    requires org in cfg.machineOrgs && cfg.machineCap > 0
    requires org in Run(cfg, steps[..k + 1]).book.accounts && org !in Run(cfg, steps[..k]).book.accounts
    requires KeepLimit(cfg, steps[k + 1..], org, None, cfg.machineCap)
    ensures Within(Run(cfg, steps).book.entries, org, None, cfg.machineCap)
  {
    RunStep(cfg, EMPTY, steps, k);
    RunKeepsInv(cfg, steps[..k]);
    NothingSpentYet(Run(cfg, steps[..k + 1]).book.entries, org, None, cfg.machineCap);
    SpendIsCappedFrom(cfg, steps, k + 1, org, None, cfg.machineCap);
  }

  /* ---- pauses over every run ---- */

  /** No step of a run resumes the org, or the principal. */
  predicate KeepPaused(steps: seq<Step>, org: Id, who: Option<Id>) {
    forall i :: 0 <= i < |steps| && steps[i].Keep? ==> Ledger.KeepsPause(steps[i].op, org, who)
  }

  lemma PausedStep(cfg: Settings, db: Db, step: Step, org: Id, who: Option<Id>)
    requires Inv(db) && Paused(db.book, org, who) && (step.Keep? ==> Ledger.KeepsPause(step.op, org, who))
    ensures var b, b' := db.book, Apply(cfg, db, step).book;
            Paused(b', org, who) && Extends(b, b') && NoDebitsFrom(b'.entries, |b.entries|, org, who)
  {
    hide Paused, NoDebitsFrom, MayDebit, Ledger.Apply, D.Apply, S.Apply, Ledger.KeepsPause, Inv;
    match step
    case Keep(op) =>
      Ledger.ApplyExtends(cfg, db.book, op);
      Ledger.ApplyKeepsPause(cfg, db.book, op, org, who);
    case Delegate(op) =>
      D.ApplyExtends(cfg, db.Delegations(), op);
      D.ApplyKeepsPause(cfg, db.Delegations(), op, org, who);
    case Recover(op) =>
      S.ApplyExtends(cfg, db.Settlements(), op);
      S.ApplyKeepsPause(cfg, db.Settlements(), op, org, who);
  }

  lemma NoDebitsCompose(a: seq<Entry>, b: seq<Entry>, c: seq<Entry>, org: Id, who: Option<Id>)
    requires a <= b && |b| <= |c| && c[..|b|] == b
    requires NoDebitsFrom(b, |a|, org, who) && NoDebitsFrom(c, |b|, org, who)
    ensures a <= c && NoDebitsFrom(c, |a|, org, who)
  {
    forall i | |a| <= i < |b| ensures c[i] == b[i] {
      assert c[..|b|][i] == c[i];
    }
  }

  /** From any sound state on, while an org is paused no debit of it is written, by whichever protocol,
      and while a principal is paused none of that principal. */
  lemma {:induction false} PausedIsNotDebited(cfg: Settings, db: Db, steps: seq<Step>, org: Id, who: Option<Id>)
    requires Inv(db) && Paused(db.book, org, who) && KeepPaused(steps, org, who)
    ensures var entries, after := db.book.entries, RunFrom(cfg, db, steps).book;
            Paused(after, org, who) && entries <= after.entries && NoDebitsFrom(after.entries, |entries|, org, who)
    decreases |steps|
  {
    if steps != [] {
      var rest, last := steps[..|steps| - 1], steps[|steps| - 1];
      hide Inv, Paused, MayDebit, Apply, Ledger.KeepsPause, NoDebitsFrom;
      PausedIsNotDebited(cfg, db, rest, org, who);
      RunFromKeepsInv(cfg, db, rest);
      var before := RunFrom(cfg, db, rest);
      PausedStep(cfg, before, last, org, who);
      NoDebitsCompose(db.book.entries, before.book.entries, Apply(cfg, before, last).book.entries, org, who);
    }
  }

  /** The treasury signs at most its cap in any 24-hour window of delivery starts. */
  lemma {:induction false} OutflowNeverExceedsCap(cfg: Settings, steps: seq<Step>)
    requires cfg.outflowCap >= 0
    ensures D.OutflowWithin(Run(cfg, steps).holds, cfg.outflowCap)
    decreases |steps|
  {
    if steps != [] {
      OutflowNeverExceedsCap(cfg, steps[..|steps| - 1]);
      RunKeepsInv(cfg, steps[..|steps| - 1]);
      if steps[|steps| - 1].Delegate? {
        D.ApplyKeepsOutflow(cfg, Run(cfg, steps[..|steps| - 1]).Delegations(), steps[|steps| - 1].dop);
      }
    }
  }

  /* ---- the life of a delegation over a run ---- */

  /** From any point of a run on, a hold keeps its funding; once delivery has started its amount is
      frozen; a refund or a confirmation is final, so no run does both. */
  lemma {:induction false} HoldHistory(cfg: Settings, steps: seq<Step>, k: nat, id: Id)
    requires k <= |steps| && id in Run(cfg, steps[..k]).holds
    ensures id in Run(cfg, steps).holds
    ensures D.Advances(
              Run(cfg, steps[..k]).holds[id],
              Run(cfg, steps).holds[id])
    decreases |steps|
  {
    if k == |steps| {
      assert steps[..k] == steps;
    } else {
      var rest := steps[..|steps| - 1];
      assert rest[..k] == steps[..k];
      HoldHistory(cfg, rest, k, id);
      RunKeepsInv(cfg, rest);
      if steps[|steps| - 1].Delegate? {
        D.ApplyAdvances(cfg, Run(cfg, rest).Delegations(), steps[|steps| - 1].dop, id);
      }
    }
  }

  /* ---- the lease fence over a run ---- */

  ghost predicate TimelyThroughout(cfg: Settings, steps: seq<Step>) {
    forall k :: 0 <= k < |steps| && steps[k].Recover? ==> S.Timely(Run(cfg, steps[..k]).Settlements(), steps[k].sop)
  }

  ghost predicate CausalThroughout(cfg: Settings, steps: seq<Step>) {
    forall k :: 0 <= k < |steps| && steps[k].Recover? ==> S.Causal(Run(cfg, steps[..k]).Settlements(), steps[k].sop)
  }

  /** The fence held after each of the first n steps, and before them. */
  ghost predicate FencedUpTo(cfg: Settings, steps: seq<Step>, n: nat)
    requires n <= |steps|
  {
    forall k :: 0 <= k <= n ==> S.Fenced(Run(cfg, steps[..k]).Settlements())
  }

  lemma StepKeepsFenceIff(cfg: Settings, steps: seq<Step>, k: nat)
    requires k < |steps| && S.Fenced(Run(cfg, steps[..k]).Settlements())
    ensures S.Fenced(Run(cfg, steps[..k + 1]).Settlements()) <==>
            (steps[k].Recover? ==> S.Timely(Run(cfg, steps[..k]).Settlements(), steps[k].sop))
  {
    var before, step := Run(cfg, steps[..k]), steps[k];
    RunStep(cfg, EMPTY, steps, k);
    RunKeepsInv(cfg, steps[..k]);
    if step.Recover? {
      S.ApplyKeepsFenceIff(cfg, before.Settlements(), step.sop);
    } else {
      S.FenceIsLocal(before.Settlements(), Apply(cfg, before, step).Settlements());
    }
  }

  lemma NoClaimsAreFenced(cfg: Settings, steps: seq<Step>)
    ensures S.Fenced(Run(cfg, steps[..0]).Settlements())
  {
    EmptyRun(cfg, EMPTY, steps);
  }

  lemma {:induction false} TimelyKeepsFence(cfg: Settings, steps: seq<Step>, n: nat)
    requires TimelyThroughout(cfg, steps) && n <= |steps|
    ensures FencedUpTo(cfg, steps, n)
  {
    hide S.Fenced, S.Timely, RunFrom, Apply;
    if n == 0 {
      NoClaimsAreFenced(cfg, steps);
    } else {
      TimelyKeepsFence(cfg, steps, n - 1);
      StepKeepsFenceIff(cfg, steps, n - 1);
    }
  }

  /** The fence holds at every point of a run if and only if each step of the retry queue is timely. */
  lemma LeasesFenceIff(cfg: Settings, steps: seq<Step>)
    ensures FencedUpTo(cfg, steps, |steps|) <==> TimelyThroughout(cfg, steps)
  {
    if TimelyThroughout(cfg, steps) {
      TimelyKeepsFence(cfg, steps, |steps|);
    }
    if FencedUpTo(cfg, steps, |steps|) {
      forall k | 0 <= k < |steps| && steps[k].Recover?
        ensures S.Timely(Run(cfg, steps[..k]).Settlements(), steps[k].sop)
      {
        assert S.Fenced(Run(cfg, steps[..k + 1]).Settlements());
        StepKeepsFenceIff(cfg, steps, k);
      }
    }
  }

  /** From each of the first n points of a run on, the leases of every charge then queued strictly
      increase, however the retry queue goes on under causal clocks. */
  ghost predicate OrderedUpTo(cfg: Settings, steps: seq<Step>, n: nat)
    requires n <= |steps|
  {
    forall k :: 0 <= k <= n ==> L.AllStayOrdered(cfg, Run(cfg, steps[..k]).Settlements())
  }

  /** Where leases stay in order, every step was timely: the first that is not lets them lose it. */
  lemma {:induction false} OrderedIsFenced(cfg: Settings, steps: seq<Step>, n: nat)
    requires n <= |steps| && OrderedUpTo(cfg, steps, n)
    ensures FencedUpTo(cfg, steps, n)
  {
    hide S.Fenced, S.Timely, L.AllStayOrdered, RunFrom, Apply;
    if n == 0 {
      NoClaimsAreFenced(cfg, steps);
    } else {
      OrderedIsFenced(cfg, steps, n - 1);
      RunKeepsInv(cfg, steps[..n - 1]);
      RunStep(cfg, EMPTY, steps, n - 1);
      StepKeepsFenceIff(cfg, steps, n - 1);
      if steps[n - 1].Recover? {
        RecoverStep(cfg, Run(cfg, steps[..n - 1]), steps[n - 1]);
        L.StepStaysOrderedIff(cfg, Run(cfg, steps[..n - 1]).Settlements(), steps[n - 1].sop);
      }
    }
  }

  lemma RecoverStep(cfg: Settings, db: Db, step: Step)
    requires step.Recover?
    ensures Apply(cfg, db, step).Settlements() == S.Apply(cfg, db.Settlements(), step.sop)
  {
  }

  /** At every point of a run the leases of every queued charge will go on increasing, whatever the
      retry queue does under causal clocks, if and only if each failure write, reset and re-arming of
      the run was timely. */
  lemma LeasesStayOrderedIff(cfg: Settings, steps: seq<Step>)
    ensures OrderedUpTo(cfg, steps, |steps|) <==> TimelyThroughout(cfg, steps)
  {
    LeasesFenceIff(cfg, steps);
    if OrderedUpTo(cfg, steps, |steps|) {
      OrderedIsFenced(cfg, steps, |steps|);
    }
    if FencedUpTo(cfg, steps, |steps|) {
      forall k | 0 <= k <= |steps| ensures L.AllStayOrdered(cfg, Run(cfg, steps[..k]).Settlements()) {
        RunKeepsInv(cfg, steps[..k]);
        L.FencedStaysOrdered(cfg, Run(cfg, steps[..k]).Settlements());
      }
    }
  }

  /** With causal clocks leases strictly increase in every run and stale claims stay fenced off. */
  lemma {:induction false} LeasesAlwaysFence(cfg: Settings, steps: seq<Step>, n: nat)
    requires CausalThroughout(cfg, steps) && n <= |steps|
    ensures FencedUpTo(cfg, steps, n)
  {
    hide S.Fenced, S.Causal, S.Timely, RunFrom, Apply;
    if n == 0 {
      NoClaimsAreFenced(cfg, steps);
    } else {
      LeasesAlwaysFence(cfg, steps, n - 1);
      if steps[n - 1].Recover? {
        S.CausalIsTimely(Run(cfg, steps[..n - 1]).Settlements(), steps[n - 1].sop);
      }
      StepKeepsFenceIff(cfg, steps, n - 1);
    }
  }
}
