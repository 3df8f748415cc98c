/** What every run does to a balance, read off its steps rather than off the ledger. */
module Balances {
  import opened Common
  import opened Ledger
  import opened Billing

  /* ---- a payment reference counts once ---- */

  /** No earlier step tried to credit a positive amount under this reference. */
  predicate FirstUse(steps: seq<Step>, ref: Option<Id>) {
    forall s :: s in steps && s.Keep? && s.op.TopUpOp? && s.op.amount > 0 ==> ref.None? || s.op.ref != ref
  }

  /** The rows of other protocols carry no payment reference. */
  lemma NewRowHasNoReference(cfg: Settings, db: Db, step: Step)
    requires !(step.Keep? && step.op.TopUpOp?)
    ensures var entries, after := db.book.entries, Billing.Apply(cfg, db, step).book.entries;
            Extends(db.book, Billing.Apply(cfg, db, step).book)
            && (|after| > |entries| ==> after[|entries|].externalRef == None)
  {
    match step
    case Keep(op) => Ledger.ApplyExtends(cfg, db.book, op);
    case Delegate(op) => D.ApplyExtends(cfg, db.Delegations(), op);
    case Recover(op) => S.ApplyExtends(cfg, db.Settlements(), op);
  }

  lemma RefUsedSnoc(entries: seq<Entry>, e: Entry, ref: Option<Id>)
    ensures RefUsed(entries + [e], ref) <==> RefUsed(entries, ref) || (ref.Some? && e.externalRef == ref)
  {
    assert (entries + [e])[|entries|] == e;
    if RefUsed(entries, ref) {
      var i :| 0 <= i < |entries| && entries[i].externalRef == ref;
      assert (entries + [e])[i].externalRef == ref;
    }
  }

  /** A reference has been credited if and only if some step credited a positive amount under it. */
  lemma {:induction false} UsedReferences(cfg: Settings, steps: seq<Step>, ref: Option<Id>)
    ensures RefUsed(Run(cfg, steps).book.entries, ref) <==> !FirstUse(steps, ref)
    decreases |steps|
  {
    if steps != [] {
      var before, last := steps[..|steps| - 1], steps[|steps| - 1];
      UsedReferences(cfg, before, ref);
      assert steps == before + [last];
      ReferencesAfter(cfg, Run(cfg, before), last, ref);
    }
  }

  lemma ReferencesAfter(cfg: Settings, db: Db, step: Step, ref: Option<Id>)
    ensures RefUsed(Billing.Apply(cfg, db, step).book.entries, ref) <==>
            RefUsed(db.book.entries, ref) || !FirstUse([step], ref)
  {
    var entries, after := db.book.entries, Billing.Apply(cfg, db, step).book.entries;
    if step.Keep? && step.op.TopUpOp? {
      if step.op.amount > 0 && !RefUsed(entries, step.op.ref) {
        RefUsedSnoc(entries, after[|entries|], ref);
      }
    } else {
      NewRowHasNoReference(cfg, db, step);
      assert after == entries + after[|entries|..];
      if |after| > |entries| {
        RefUsedSnoc(entries, after[|entries|], ref);
      }
    }
  }

  /* ---- balances ---- */

  /** The hold has become refunded. */
  predicate Refunds(before: D.State, after: D.State, id: Id) {
    && id in before.holds && before.holds[id].status != D.Refunded
    && id in after.holds && after.holds[id].status == D.Refunded
  }

  /** What a delegation's step pays into the org's balance: less the hold when it is funded, and back
      what the signed charge leaves of the hold, or all that is held when it is refunded. */
  ghost function Returned(cfg: Settings, s: D.State, op: D.Op, org: Id): int {
    var after := D.Apply(cfg, s, op);
    if op.org != org then 0
    else
      match op
      case FundOp(id, _, amount, _, _) => if id in after.holds.Keys - s.holds.Keys then -amount else 0
      case MarkOp(id, _, charge, _) =>
        if charge.Some? && id in s.holds && id in after.holds && after.holds[id].delivery != s.holds[id].delivery
        then s.holds[id].amount - charge.value else 0
      case CompleteOp(id, _, _) => if Refunds(s, after, id) then s.holds[id].amount else 0
      case FailOp(id, _, _) => if Refunds(s, after, id) then s.holds[id].amount else 0
      case _ => 0
  }

  /** What a step of the retry queue pays in: less the amount of a charge that it settles. */
  ghost function Recovered(cfg: Settings, s: S.State, op: S.Op, org: Id): int {
    var after := S.Apply(cfg, s, op);
    if op.SettleOp? && op.claim.id in s.queue && s.queue[op.claim.id].org == org && op.claim.id in after.queue
       && after.queue[op.claim.id].status == S.Settled != s.queue[op.claim.id].status
    then -s.queue[op.claim.id].amount else 0
  }

  /** What a step pays into the org's balance when it comes after these ones. */
  ghost function Moved(cfg: Settings, before: seq<Step>, step: Step, org: Id): int {
    var db := Run(cfg, before);
    match step
    case Keep(TopUpOp(o, amount, ref, _)) => if o == org && amount > 0 && FirstUse(before, ref) then amount else 0
    case Keep(DebitOp(o, amount, who, now)) =>
      if o == org && amount > 0 && MayDebit(cfg, db.book, o, amount, who, now) then -amount else 0
    case Keep(_) => 0
    case Delegate(op) => Returned(cfg, db.Delegations(), op, org)
    case Recover(op) => Recovered(cfg, db.Settlements(), op, org)
  }

  ghost function PaidIn(cfg: Settings, steps: seq<Step>, org: Id): int
    decreases |steps|
  {
    if steps == [] then 0
    else PaidIn(cfg, steps[..|steps| - 1], org) + Moved(cfg, steps[..|steps| - 1], steps[|steps| - 1], org)
  }

  lemma DelegationMoves(cfg: Settings, s: D.State, op: D.Op, org: Id)
    requires D.Inv(s)
    ensures BalanceOf(D.Apply(cfg, s, op).book.accounts, org)
            == BalanceOf(s.book.accounts, org) + Returned(cfg, s, op, org)
  {
    hide D.SignedSince, D.Attributed, BookInv;
    if op.id in s.holds {
      assert D.HoldInv(s, op.id);
    }
  }

  lemma SettlementMoves(cfg: Settings, s: S.State, op: S.Op, org: Id)
    requires S.Inv(s)
    ensures BalanceOf(S.Apply(cfg, s, op).book.accounts, org)
            == BalanceOf(s.book.accounts, org) + Recovered(cfg, s, op, org)
  {
    hide S.ChargeInv, S.Payouts;
  }

  lemma StepMoves(cfg: Settings, before: seq<Step>, step: Step, org: Id)
    ensures BalanceOf(Billing.Apply(cfg, Run(cfg, before), step).book.accounts, org)
            == BalanceOf(Run(cfg, before).book.accounts, org) + Moved(cfg, before, step, org)
  {
    hide Returned, Recovered, D.Apply, S.Apply, D.Inv, S.Inv;
    var db := Run(cfg, before);
    RunKeepsInv(cfg, before);
    match step
    case Keep(op) =>
      if op.TopUpOp? {
        UsedReferences(cfg, before, op.ref);
      }
    case Delegate(op) => DelegationMoves(cfg, db.Delegations(), op, org);
    case Recover(op) => SettlementMoves(cfg, db.Settlements(), op, org);
  }

  /** In every reachable state an org's balance is the sum of what the steps of the run paid in and out:
      accepted top-ups, each reference once, less accepted debits, plus what delegations gave back. */
  lemma {:induction false} BalanceIsWhatWasPaid(cfg: Settings, steps: seq<Step>, org: Id)
    ensures BalanceOf(Run(cfg, steps).book.accounts, org) == PaidIn(cfg, steps, org)
    decreases |steps|
  {
    if steps != [] {
      BalanceIsWhatWasPaid(cfg, steps[..|steps| - 1], org);
      StepMoves(cfg, steps[..|steps| - 1], steps[|steps| - 1], org);
    }
  }
}
