/** The billing tables as the services change them: each method is one committed transaction (or a
    worker pass made of several), updating rows in place and appending to the ledger. */
module BillingStore {
  import opened Common
  import opened Ledger
  import opened Billing
  import Arithmetic
  import Totals

  /** What a change of the spending configuration answers. */
  datatype Answer = NegativeLimit | NoAccount | Config(row: Account)

  /** The reference was used before, for the same org and amount. */
  predicate Replayed(entries: seq<Entry>, ref: Option<Id>, org: Id, amount: int) {
    exists e :: e in entries && e.externalRef == ref && e.org == org && e.amount == amount
  }

  /** The earliest of these rows by retry time, as many as one claim takes. */
  ghost predicate Earliest(queue: map<Id, S.Charge>, due: set<Id>, picked: set<Id>) {
    && picked <= due <= queue.Keys
    && |picked| == Min(S.CLAIM_LIMIT, |due|)
    && forall p, q :: p in picked && q in due - picked ==> queue[p].nextRetryAt <= queue[q].nextRetryAt
  }

  lemma {:induction false} EarliestExists(queue: map<Id, S.Charge>, ids: set<Id>) returns (id: Id)
    requires ids != {} && ids <= queue.Keys
    ensures id in ids && forall q :: q in ids ==> queue[id].nextRetryAt <= queue[q].nextRetryAt
    decreases |ids|
  {
    id :| id in ids;
    if ids != {id} {
      var other := EarliestExists(queue, ids - {id});
      if queue[other].nextRetryAt < queue[id].nextRetryAt {
        id := other;
      }
    }
  }

  predicate DueAt(c: S.Charge, now: int) {
    (c.status == S.Waiting || c.status == S.Retrying) && c.nextRetryAt <= now
  }

  /** A claim leases the picked rows for 300 seconds, and the claims are copies of them. */
  ghost predicate LeasedFrom(before: map<Id, S.Charge>, picked: set<Id>, now: int, after: map<Id, S.Charge>,
                             rows: set<S.Claim>) {
    && after.Keys == before.Keys
    && (forall id :: id in after ==>
          after[id] == if id in picked then before[id].(status := S.Retrying, nextRetryAt := now + 300_000_000)
                       else before[id])
    && forall c :: c in rows <==> c.id in picked && c.id in after && c.row == after[c.id]
  }

  lemma DueRows(queue: map<Id, S.Charge>, ids: set<Id>, now: int)
    requires ids <= queue.Keys
    ensures forall id :: id in S.DueIn(queue, ids, now) <==> id in ids && DueAt(queue[id], now)
  {
  }

  lemma LeasedRows(queue: map<Id, S.Charge>, picked: set<Id>, now: int)
    requires picked <= queue.Keys
    ensures LeasedFrom(queue, picked, now, S.LeaseRows(queue, picked, now), S.NewClaims(queue, picked, now))
  {
  }

  class Store {
    const cfg: Settings

    var accounts: map<Id, Account>
    var principals: map<(Id, Id), PrincipalLimit>
    var entries: seq<Entry>
    var holds: map<Id, D.Hold>
    var queue: map<Id, S.Charge>
    var earnings: seq<S.Earning>
    var claims: set<S.Claim>
    ghost var leases: map<Id, seq<int>>

    ghost function Model(): Db
      reads this
    {
      Db(Book(accounts, principals, entries), holds, queue, earnings, claims, leases)
    }

    /** The ledger and the accounts are as they were. */
    twostate predicate Untouched()
      reads this
    {
      accounts == old(accounts) && entries == old(entries)
    }

    /** The org's balance is less by the amount, one row says so, and nothing else in the ledger or the
        accounts has changed. */
    twostate predicate Debited(org: Id, amount: int, purpose: Purpose, who: Option<Id>, now: int)
      reads this
    {
      && org in old(accounts)
      && accounts == old(accounts)[org := old(accounts)[org].(balance := old(accounts)[org].balance - amount)]
      && entries == old(entries) + [Entry(org, Outgoing, amount, accounts[org].balance, purpose, who, None, None, now)]
    }

    /** The org's balance is more by the amount, and one row says so; it carries the principal of the
        debit it reverses. */
    twostate predicate Credited(org: Id, amount: int, purpose: Purpose, reverses: Option<nat>, now: int)
      reads this
    {
      && org in old(accounts)
      && accounts == old(accounts)[org := old(accounts)[org].(balance := old(accounts)[org].balance + amount)]
      && |entries| == |old(entries)| + 1 && old(entries) <= entries
      && var row := entries[|old(entries)|];
         row == Entry(org, Incoming, amount, accounts[org].balance, purpose, row.principal, reverses, None, now)
    }

    constructor (cfg: Settings)
      ensures Model() == EMPTY && this.cfg == cfg
    {
      this.cfg := cfg;
      accounts, principals, entries := map[], map[], [];
      holds, queue, earnings, claims, leases := map[], map[], [], {}, map[];
    }

    /* ---- billing/credit.py ---- */

    method DebitCreditLocked(org: Id, amount: int, purpose: Purpose, who: Option<Id>, now: int)
      returns (ok: bool, ledgerId: nat)
      modifies this
      ensures Model() == old(Model()).(book := DebitLocked(cfg, old(Model()).book, org, amount, purpose, who, now))
      ensures ok == MayDebit(cfg, old(Model()).book, org, amount, who, now)
      ensures ledgerId == |old(entries)|
      ensures ok <==>
                && org in old(accounts) && !old(accounts)[org].paused && amount <= old(accounts)[org].balance
                && (var limit := old(accounts)[org].limit;
                    var inForce := if limit <= 0 && org in cfg.machineOrgs then cfg.machineCap else limit;
                    inForce > 0 ==> Spend(old(entries), Query(org, None, now - DAY, None)) + amount <= inForce)
                && (who.Some? && (org, who.value) in principals ==>
                      var row := principals[(org, who.value)];
                      && !row.paused
                      && Spend(old(entries), Query(org, who, now - DAY, None)) + amount <= row.limit)
      ensures ok ==> Debited(org, amount, purpose, who, now)
      ensures !ok ==> Untouched()
    {
      ledgerId := |entries|;
      if org !in accounts {
        return false, ledgerId;
      }
      var row := accounts[org];
      var limit := row.limit;
      if org in cfg.machineOrgs && limit <= 0 {
        limit := cfg.machineCap;
      }
      if row.paused {
        return false, ledgerId;
      }
      if limit > 0 {
        var spent := DailySpend(entries, org, None, now);
        if spent + amount > limit {
          return false, ledgerId;
        }
      }
      if who.Some? && (org, who.value) in principals {
        var principal := principals[(org, who.value)];
        if principal.paused {
          return false, ledgerId;
        }
        var spent := DailySpend(entries, org, who, now);
        if spent + amount > principal.limit {
          return false, ledgerId;
        }
      }
      if row.balance < amount {
        return false, ledgerId;
      }
      accounts := accounts[org := row.(balance := row.balance - amount)];
      entries := entries + [Entry(org, Outgoing, amount, row.balance - amount, purpose, who, None, None, now)];
      ok := true;
    }

    method DebitCredit(org: Id, amount: int, who: Option<Id>, now: int) returns (ok: bool, deducted: int)
      modifies this
      ensures Model() == Billing.Apply(cfg, old(Model()), Keep(DebitOp(org, amount, who, now)))
      ensures ok == (amount <= 0 || MayDebit(cfg, old(Model()).book, org, amount, who, now))
      ensures deducted == if ok && amount > 0 then amount else 0
      ensures ok && amount > 0 ==> Debited(org, amount, Direct, who, now)
      ensures !ok || amount <= 0 ==> Untouched()
    {
      if amount <= 0 {
        return true, 0;
      }
      var id;
      ok, id := DebitCreditLocked(org, amount, Direct, who, now);
      deducted := if ok then amount else 0;
    }

    /** Looks for a row with the reference, for the same org and amount. */
    method IsReplay(ref: Option<Id>, org: Id, amount: int) returns (replayed: bool)
      ensures replayed == Replayed(entries, ref, org, amount)
    {
      replayed := false;
      for i := 0 to |entries|
        invariant replayed == Replayed(entries[..i], ref, org, amount)
      {
        assert entries[..i + 1][..i] == entries[..i] && entries[..i + 1][i] == entries[i];
        if entries[i].externalRef == ref && entries[i].org == org && entries[i].amount == amount {
          replayed := true;
        }
      }
      assert entries[..|entries|] == entries;
    }

    /** The balance upsert comes first and is rolled back when the ledger row is refused. A replayed
        payment reference answers with the current balance; None stands for a raised error. */
    method AdminTopUp(org: Id, amount: int, ref: Option<Id>, now: int) returns (balance: Option<int>)
      modifies this
      ensures Model() == Billing.Apply(cfg, old(Model()), Keep(TopUpOp(org, amount, ref, now)))
      ensures amount > 0 && !RefUsed(old(entries), ref) ==> org in accounts && balance == Some(accounts[org].balance)
      ensures amount > 0 && RefUsed(old(entries), ref) ==>
                balance == if Replayed(entries, ref, org, amount) then Some(BalanceOf(accounts, org)) else None
      ensures amount <= 0 ==> balance == None
      ensures amount > 0 && !RefUsed(old(entries), ref) ==>
                && org in accounts
                && accounts[org].balance == BalanceOf(old(accounts), org) + amount
                && (org in old(accounts) ==>
                      accounts[org] == old(accounts)[org].(balance := accounts[org].balance))
                && (org !in old(accounts) ==> accounts[org] == Ledger.Account(amount, 0, false))
                && accounts - {org} == old(accounts) - {org}
                && entries == old(entries) + [Entry(org, Incoming, amount, accounts[org].balance, Direct, None, None,
                                                    ref, now)]
      ensures amount <= 0 || RefUsed(old(entries), ref) ==> Untouched()
    {
      var before := accounts;
      var current := if org in accounts then accounts[org] else Ledger.Account(0, 0, false);
      accounts := accounts[org := current.(balance := current.balance + amount)];
      if amount <= 0 || RefUsed(entries, ref) {
        accounts := before;
        if amount <= 0 {
          return None;
        }
        var replayed := IsReplay(ref, org, amount);
        return if replayed then Some(BalanceOf(accounts, org)) else None;
      }
      entries := entries + [Entry(org, Incoming, amount, accounts[org].balance, Direct, None, None, ref, now)];
      balance := Some(accounts[org].balance);
    }

    /** A change of limit, pause flag or both; with neither it only reads, and a missing account reads as
        zero. The answer shows the limit in force. */
    method UpdateSpendingConfig(org: Id, limit: Option<int>, paused: Option<bool>) returns (answer: Answer)
      modifies this
      ensures Model() == Billing.Apply(cfg, old(Model()), Keep(ConfigureOp(org, limit, paused)))
      ensures answer == NegativeLimit <==> limit.Some? && limit.value < 0
      ensures answer == NoAccount <==> org !in accounts && (limit.Some? || paused.Some?) && answer != NegativeLimit
      ensures answer.Config? ==>
                answer.row == if org in accounts
                              then accounts[org].(limit := if accounts[org].limit <= 0 && org in cfg.machineOrgs
                                                           then cfg.machineCap else accounts[org].limit)
                              else Ledger.Account(0, 0, false)
      ensures answer.Config? && org in old(accounts) ==>
                && org in accounts
                && accounts[org].balance == old(accounts)[org].balance
                && accounts[org].limit == (if limit.Some? then limit.value else old(accounts)[org].limit)
                && accounts[org].paused == (if paused.Some? then paused.value else old(accounts)[org].paused)
                && accounts - {org} == old(accounts) - {org} && entries == old(entries)
      ensures !answer.Config? || org !in old(accounts) ==> Untouched()
    {
      if limit.Some? && limit.value < 0 {
        return NegativeLimit;
      }
      if limit.Some? || paused.Some? {
        if org !in accounts {
          return NoAccount;
        }
        var row := accounts[org];
        if limit.Some? {
          row := row.(limit := limit.value);
        }
        if paused.Some? {
          row := row.(paused := paused.value);
        }
        accounts := accounts[org := row];
      }
      var shown := if org in accounts then accounts[org] else Ledger.Account(0, 0, false);
      if org in accounts && org in cfg.machineOrgs && shown.limit <= 0 {
        shown := shown.(limit := cfg.machineCap);
      }
      answer := Config(shown);
    }

    /** Funding a delegation: a repeated id answers from its row instead of debiting again. */
    method FundDelegation(id: Id, org: Id, amount: int, who: Option<Id>, now: int) returns (ok: bool, deducted: int)
      modifies this
      ensures Model() == Billing.Apply(cfg, old(Model()), Delegate(D.FundOp(id, org, amount, who, now)))
      ensures ok && amount > 0 ==>
          id in holds && holds[id].org == org && holds[id].amount == deducted == amount && holds[id].status == D.Pending
      ensures !ok ==> Model() == old(Model())
      ensures id !in old(holds) ==> ok == (amount <= 0 || MayDebit(cfg, old(Model()).book, org, amount, who, now))
      ensures id in old(holds) && old(holds)[id].org == org && amount > 0 ==>
                ok == (old(holds)[id].amount == amount && old(holds)[id].status == D.Pending)
      ensures id in old(holds) && old(holds)[id].org != org ==> ok == (amount <= 0)
      ensures if ok && amount > 0 && id !in old(holds)
              then Debited(org, amount, Funding(id), who, now)
                   && holds == old(holds)[id := D.Hold(org, amount, |old(entries)|, D.Pending, D.NotAttempted, None)]
              else Untouched() && holds == old(holds)
    {
      if amount <= 0 {
        return true, 0;
      }
      if id in holds && holds[id].org == org {
        if holds[id].amount != amount {
          return false, 0;
        }
        return holds[id].status == D.Pending, amount;
      }
      var accounts0, entries0 := accounts, entries;
      var debit;
      ok, debit := DebitCreditLocked(org, amount, Funding(id), who, now);
      if !ok {
        return false, 0;
      }
      if id in holds {
        accounts, entries := accounts0, entries0;
        return false, 0;
      }
      holds := holds[id := D.Hold(org, amount, debit, D.Pending, D.NotAttempted, None)];
      deducted := amount;
    }

    /* ---- billing/delegation.py ---- */

    /** Credits an existing account and appends the row. */
    method CreditLocked(org: Id, amount: int, purpose: Purpose, who: Option<Id>, reverses: Option<nat>, now: int)
      requires org in accounts
      modifies this
      ensures Model() == old(Model()).(book := Post(old(Model()).book, org, Incoming, amount, purpose, who, reverses,
                                                    None, now))
    {
      accounts := accounts[org := accounts[org].(balance := accounts[org].balance + amount)];
      entries := entries + [Entry(org, Incoming, amount, accounts[org].balance, purpose, who, reverses, None, now)];
    }

    /** What a first delivery may charge; None when it is refused. */
    method DeliveryCharge(id: Id, org: Id, charge: Option<int>, now: int) returns (final: Option<int>)
      requires id in holds && holds[id].org == org && holds[id].delivery == D.NotAttempted
      ensures final == if D.MayMark(cfg, Model().Delegations(), id, org, charge, now)
                       then D.FinalCharge(holds[id], charge) else None
      ensures final.Some? <==>
                && (holds[id].status == D.Pending || holds[id].status == D.RefundRequested)
                && (charge.Some? ==> 0 < charge.value <= holds[id].amount)
                && (var kept := if charge.Some? then charge.value else holds[id].amount;
                    && D.SignedSince(holds, now - DAY) + kept <= cfg.outflowCap
                    && (kept < holds[id].amount ==> org in accounts))
      ensures final.Some? ==> final.value == if charge.Some? then charge.value else holds[id].amount
    {
      var row := holds[id];
      if !(row.status == D.Pending || row.status == D.RefundRequested) {
        return None;
      }
      if charge.Some? && (charge.value <= 0 || charge.value > row.amount) {
        return None;
      }
      var kept := if charge.Some? then charge.value else row.amount;
      var signed := Totals.Sum(holds, D.StartedWithin(now - DAY, None));
      if signed + kept > cfg.outflowCap || (kept < row.amount && org !in accounts) {
        return None;
      }
      final := Some(kept);
    }

    method MarkPossiblyDelivered(id: Id, org: Id, charge: Option<int>, now: int) returns (ok: bool)
      modifies this
      ensures Model() == Billing.Apply(cfg, old(Model()), Delegate(D.MarkOp(id, org, charge, now)))
      ensures ok == (id in holds && holds[id].org == org
                     && (holds[id].delivery == D.PossiblyDelivered || holds[id].delivery == D.Confirmed))
      ensures holds != old(holds) <==>
                && id in old(holds) && old(holds)[id].org == org && old(holds)[id].delivery == D.NotAttempted
                && (old(holds)[id].status == D.Pending || old(holds)[id].status == D.RefundRequested)
                && (charge.Some? ==> 0 < charge.value <= old(holds)[id].amount)
                && (var kept := if charge.Some? then charge.value else old(holds)[id].amount;
                    && D.SignedSince(old(holds), now - DAY) + kept <= cfg.outflowCap
                    && (kept < old(holds)[id].amount ==> org in old(accounts)))
      ensures holds != old(holds) ==>
                && id in old(holds) && id in holds
                && holds[id].amount == (if charge.Some? then charge.value else old(holds)[id].amount)
                && holds == old(holds)[id := old(holds)[id].(amount := holds[id].amount,
                                                             delivery := D.PossiblyDelivered, startedAt := Some(now))]
                && BalanceOf(accounts, org) ==
                   BalanceOf(old(accounts), org) + old(holds)[id].amount - holds[id].amount
                && accounts - {org} == old(accounts) - {org}
      ensures holds == old(holds) ==> Untouched()
    {
      if id !in holds || holds[id].org != org {
        return false;
      }
      var row := holds[id];
      if row.delivery == D.PossiblyDelivered || row.delivery == D.Confirmed {
        return true;
      }
      if row.delivery != D.NotAttempted {
        return false;
      }
      var final := DeliveryCharge(id, org, charge, now);
      if final.None? {
        return false;
      }
      if final.value < row.amount {
        CreditLocked(org, row.amount - final.value, Adjust(id),
                     if row.debit < |entries| then entries[row.debit].principal else None, None, now);
      }
      holds := holds[id := row.(amount := final.value, delivery := D.PossiblyDelivered, startedAt := Some(now))];
      ok := true;
    }

    method ConfirmDelivery(id: Id, org: Id) returns (ok: bool)
      modifies this
      ensures Model() == Billing.Apply(cfg, old(Model()), Delegate(D.ConfirmOp(id, org)))
      ensures ok == (id in holds && holds[id].org == org && holds[id].delivery == D.Confirmed
                     && holds[id].status != D.Refunded)
      ensures Untouched()
      ensures holds != old(holds) <==>
                && id in old(holds) && old(holds)[id].org == org && old(holds)[id].status != D.Refunded
                && (old(holds)[id].delivery == D.NotAttempted || old(holds)[id].delivery == D.PossiblyDelivered)
      ensures holds != old(holds) ==>
                && ok && holds == old(holds)[id := old(holds)[id].(delivery := D.Confirmed, status := holds[id].status)]
                && (old(holds)[id].status == D.Pending || old(holds)[id].status == D.RefundRequested ==>
                      holds[id].status == D.Cancelled)
    {
      if id !in holds || holds[id].org != org {
        return false;
      }
      var row := holds[id];
      if row.delivery == D.Confirmed {
        return row.status != D.Refunded;
      }
      if row.delivery == D.Failed || row.status == D.Refunded {
        return false;
      }
      holds := holds[id := row.(delivery := D.Confirmed)];
      if row.status == D.Pending || row.status == D.RefundRequested {
        holds := holds[id := holds[id].(status := D.Cancelled)];
      }
      ok := true;
    }

    /** Applies a refund to a row the caller has locked; false stands for a raised error. */
    method CompleteRefundLocked(id: Id, now: int) returns (ok: bool)
      requires id in holds
      modifies this
      ensures Model() == old(Model()).WithDelegations(D.CompleteLocked(old(Model()).Delegations(), id, now))
      ensures ok == (Reversed(old(entries), old(holds[id].debit)) || old(holds[id].org in accounts))
      ensures if ok && !Reversed(old(entries), old(holds)[id].debit)
              then Credited(old(holds)[id].org, old(holds)[id].amount, Refund(id), Some(old(holds)[id].debit), now)
              else Untouched()
    {
      var row := holds[id];
      if !Reversed(entries, row.debit) {
        if row.org !in accounts {
          return false;
        }
        CreditLocked(row.org, row.amount, Refund(id),
                     if row.debit < |entries| then entries[row.debit].principal else None, Some(row.debit), now);
      }
      if row.status == D.RefundRequested && (row.delivery == D.NotAttempted || row.delivery == D.Failed) {
        holds := holds[id := row.(status := D.Refunded)];
      }
      ok := true;
    }

    method FailDelivery(id: Id, org: Id, now: int) returns (ok: bool)
      modifies this
      ensures Model() == Billing.Apply(cfg, old(Model()), Delegate(D.FailOp(id, org, now)))
      ensures ok == (id in holds && holds[id].org == org && holds[id].delivery == D.Failed
                     && holds[id].status == D.Refunded)
      ensures if ok && old(holds)[id].status != D.Refunded && !Reversed(old(entries), old(holds)[id].debit)
              then Credited(org, old(holds)[id].amount, Refund(id), Some(old(holds)[id].debit), now)
              else Untouched()
      ensures ok <==>
                && id in old(holds) && old(holds)[id].org == org && old(holds)[id].status != D.Cancelled
                && (old(holds)[id].delivery == D.Failed || (old(holds)[id].delivery == D.PossiblyDelivered
                                                            && old(holds)[id].status != D.Refunded))
                && (old(holds)[id].status == D.Refunded
                    || Reversed(old(entries), old(holds)[id].debit) || org in old(accounts))
    {
      if id !in holds || holds[id].org != org {
        return false;
      }
      var row := holds[id];
      if row.delivery == D.Confirmed || row.status == D.Cancelled {
        return false;
      }
      if row.delivery == D.Failed && row.status == D.Refunded {
        return true;
      }
      if row.status == D.Refunded || !(row.delivery == D.PossiblyDelivered || row.delivery == D.Failed) {
        return false;
      }
      var status := if row.status == D.Pending then D.RefundRequested else row.status;
      holds := holds[id := row.(delivery := D.Failed, status := status)];
      ok := CompleteRefundLocked(id, now);
      if !ok {
        holds := holds[id := row];
      }
    }

    method RequestRefund(id: Id, org: Id) returns (ok: bool)
      modifies this
      ensures Model() == Billing.Apply(cfg, old(Model()), Delegate(D.RequestOp(id, org)))
      ensures ok == (id in holds && holds[id].org == org
                     && (holds[id].status == D.RefundRequested || holds[id].status == D.Refunded))
      ensures Untouched()
      ensures holds == if id in old(holds) && old(holds)[id].org == org && old(holds)[id].status == D.Pending
                          && (old(holds)[id].delivery == D.NotAttempted || old(holds)[id].delivery == D.Failed)
                       then old(holds)[id := old(holds)[id].(status := D.RefundRequested)] else old(holds)
    {
      if id in holds && holds[id].org == org && holds[id].status == D.Pending
         && (holds[id].delivery == D.NotAttempted || holds[id].delivery == D.Failed) {
        holds := holds[id := holds[id].(status := D.RefundRequested)];
        return true;
      }
      ok := id in holds && holds[id].org == org
          && (holds[id].status == D.RefundRequested || holds[id].status == D.Refunded);
    }

    method CancelRefund(id: Id, org: Id) returns (ok: bool)
      modifies this
      ensures Model() == Billing.Apply(cfg, old(Model()), Delegate(D.CancelOp(id, org)))
      ensures ok == (id in holds && holds[id].org == org && holds[id].status == D.Cancelled)
      ensures Untouched()
      ensures holds == if id in old(holds) && old(holds)[id].org == org && old(holds)[id].delivery != D.Failed
                          && (old(holds)[id].status == D.Pending || old(holds)[id].status == D.RefundRequested)
                       then old(holds)[id := old(holds)[id].(status := D.Cancelled, delivery := D.Confirmed)]
                       else old(holds)
    {
      if id in holds && holds[id].org == org && (holds[id].status == D.Pending || holds[id].status == D.RefundRequested)
         && holds[id].delivery != D.Failed {
        var delivery := if holds[id].delivery == D.NotAttempted || holds[id].delivery == D.PossiblyDelivered
            then D.Confirmed else holds[id].delivery;
        holds := holds[id := holds[id].(status := D.Cancelled, delivery := delivery)];
        return true;
      }
      ok := id in holds && holds[id].org == org && holds[id].status == D.Cancelled;
    }

    method CompleteRefund(id: Id, org: Id, now: int) returns (ok: bool)
      modifies this
      ensures Model() == Billing.Apply(cfg, old(Model()), Delegate(D.CompleteOp(id, org, now)))
      ensures ok <==>
                && id in old(holds) && old(holds)[id].org == org
                && (old(holds)[id].status == D.Refunded
                    || (old(holds)[id].status == D.RefundRequested
                        && (old(holds)[id].delivery == D.NotAttempted || old(holds)[id].delivery == D.Failed)
                        && (Reversed(old(entries), old(holds)[id].debit) || org in old(accounts))))
      ensures ok && id in old(holds) && old(holds)[id].status != D.Refunded ==>
                if Reversed(old(entries), old(holds)[id].debit) then Untouched()
                else Credited(org, old(holds)[id].amount, Refund(id), Some(old(holds)[id].debit), now)
      ensures ok == (id in holds && holds[id].org == org && holds[id].status == D.Refunded)
    {
      if id in holds && holds[id].org == org && holds[id].status == D.RefundRequested
         && (holds[id].delivery == D.NotAttempted || holds[id].delivery == D.Failed) {
        ok := CompleteRefundLocked(id, now);
      } else {
        ok := id in holds && holds[id].org == org && holds[id].status == D.Refunded;
      }
    }

    /** One pass of the refund worker over a snapshot taken at some earlier time. */
    method ProcessRefundOutbox(rows: seq<D.OutboxRow>) returns (processed: nat)
      modifies this
      ensures Model() == old(Model()).WithDelegations(D.OutboxSweep(old(Model()).Delegations(), rows))
      ensures processed == D.OutboxResolved(old(Model()).Delegations(), rows)
    {
      processed := 0;
      for i := 0 to |rows|
        invariant D.OutboxSweep(Model().Delegations(), rows[i..]) == D.OutboxSweep(old(Model()).Delegations(), rows)
        invariant processed + D.OutboxResolved(Model().Delegations(), rows[i..])
                  == D.OutboxResolved(old(Model()).Delegations(), rows)
        invariant Model() == old(Model()).WithDelegations(Model().Delegations())
      {
        var row := rows[i];
        assert rows[i..][0] == row && rows[i..][1..] == rows[i + 1..];
        if !row.possiblyDelivered {
          var resolved;
          if row.completed && row.cost != Some(0) {
            resolved := CancelRefund(row.id, row.org);
          } else {
            resolved := RequestRefund(row.id, row.org);
            resolved := CompleteRefund(row.id, row.org, row.now);
          }
          if resolved {
            processed := processed + 1;
          }
        }
      }
      assert rows[|rows|..] == [];
    }

    /* ---- billing/settlement.py ---- */

    method EnqueueFailedSettlement(id: Id, entry: S.Charge, now: int)
      modifies this
      ensures Model() == Billing.Apply(cfg, old(Model()), Recover(S.EnqueueOp(id, entry, now)))
      ensures queue == if entry.amount > 0 && id !in old(queue)
                       then old(queue)[id := S.Charge(entry.org, entry.amount, entry.who, entry.rail, entry.allocations,
                                                      entry.maxRetries, now, S.Waiting, 0, now + 2_000_000)]
                       else old(queue)
    {
      if entry.amount <= 0 || id in queue {
        return;
      }
      queue := queue[id := entry.(status := S.Waiting, retries := 0, createdAt := now,
                                  nextRetryAt := now + 2 * SECOND)];
      leases := leases[id := []];
    }

    /** The earliest of some rows, one after another. */
    method ChooseDue(due: set<Id>) returns (picked: set<Id>)
      requires due <= queue.Keys
      ensures Earliest(queue, due, picked) && (|picked| < S.CLAIM_LIMIT ==> picked == due)
    {
      var rest := due;
      picked := {};
      while rest != {} && |picked| < S.CLAIM_LIMIT
        invariant rest + picked == due && rest !! picked && |picked| <= S.CLAIM_LIMIT
        invariant forall p, q :: p in picked && q in rest ==> queue[p].nextRetryAt <= queue[q].nextRetryAt
        decreases |rest|
      {
        ghost var earliest := EarliestExists(queue, rest);
        var next :| next in rest && forall q :: q in rest ==> queue[next].nextRetryAt <= queue[q].nextRetryAt;
        picked := picked + {next};
        rest := rest - {next};
      }
      assert due - picked == rest && |due| == |rest| + |picked|;
    }

    /** Leases the earliest due rows that no other worker has locked, at most twenty. */
    method ClaimDue(locked: set<Id>, now: int) returns (rows: set<S.Claim>, picked: set<Id>)
      modifies this
      ensures Earliest(old(queue), S.DueIn(old(queue), old(queue).Keys - locked, now), picked)
      ensures Model() == Billing.Apply(cfg, old(Model()), Recover(S.ClaimOp(picked, now)))
      ensures rows == S.NewClaims(old(queue), picked, now)
      ensures forall id :: id in picked ==>
                id in old(queue) && id !in locked && DueAt(old(queue)[id], now)
      ensures |picked| <= 20
      ensures |picked| < 20 ==>
                forall id :: id in old(queue) && id !in locked && DueAt(old(queue)[id], now) ==> id in picked
      ensures LeasedFrom(old(queue), picked, now, queue, rows)
    {
      hide S.LeaseRows, S.NoteLeases, S.NewClaims, S.Due, LeasedFrom, DueAt;
      DueRows(queue, queue.Keys - locked, now);
      picked := ChooseDue(S.DueIn(queue, queue.Keys - locked, now));
      assert S.DueIn(queue, picked, now) == picked;
      LeasedRows(queue, picked, now);
      rows := S.NewClaims(queue, picked, now);
      queue := S.LeaseRows(queue, picked, now);
      claims := claims + rows;
      leases := S.NoteLeases(leases, picked, now);
    }

    /** One earnings row for each allocation that is well formed, not rejected and not to oneself. */
    method PayEarnings(id: Id, allocations: seq<S.Allocation>)
      modifies this`earnings
      ensures earnings == old(earnings) + S.Payouts(id, allocations)
      ensures exists paid :: S.PaysFor(earnings[|old(earnings)|..], id, allocations, paid)
    {
      for i := 0 to |allocations|
        invariant earnings + S.Payouts(id, allocations[i..]) == old(earnings) + S.Payouts(id, allocations)
      {
        var a := allocations[i];
        assert allocations[i..][0] == a && allocations[i..][1..] == allocations[i + 1..];
        if a.wellFormed && a.author != a.caller && a.cost > 0 && !a.rejected {
          earnings := earnings + [S.Earning(id, a.author, a.tool, a.caller, a.cost)];
        }
      }
      assert allocations[|allocations|..] == [];
      ghost var paid := S.PayoutsPayFor(id, allocations);
      assert earnings == old(earnings) + S.Payouts(id, allocations);
      assert earnings[|old(earnings)|..] == S.Payouts(id, allocations);
    }

    /** Debit, earnings and settled mark together; lost tells a vanished lease from a refused debit. */
    method SettleClaimedCredit(c: S.Claim, now: int) returns (ok: bool, lost: bool)
      requires c.row.rail == S.Credit
      modifies this
      ensures Model() == Billing.Apply(cfg, old(Model()), Recover(S.SettleOp(c, now)))
      ensures ok == S.MaySettle(cfg, old(Model()).Settlements(), c, now)
      ensures lost <==>
                !(c in old(claims) && c.id in old(queue) && old(queue)[c.id].status == S.Retrying
                  && now < old(queue)[c.id].nextRetryAt == c.row.nextRetryAt)
      ensures ok ==>
                && !lost && Debited(c.row.org, c.row.amount, Retry(c.id), c.row.who, now)
                && queue == old(queue)[c.id := old(queue)[c.id].(status := S.Settled, retries := c.row.retries + 1)]
                && old(earnings) <= earnings
                && exists paid :: S.PaysFor(earnings[|old(earnings)|..], c.id, c.row.allocations, paid)
      ensures !ok ==> Untouched() && queue == old(queue) && earnings == old(earnings) && claims == old(claims)
    {
      if c !in claims || c.id !in queue || queue[c.id].status != S.Retrying
         || queue[c.id].nextRetryAt != c.row.nextRetryAt || queue[c.id].nextRetryAt <= now {
        return false, true;
      }
      var debit;
      ok, debit := DebitCreditLocked(c.row.org, c.row.amount, Retry(c.id), c.row.who, now);
      if !ok {
        return false, false;
      }
      PayEarnings(c.id, c.row.allocations);
      queue := queue[c.id := queue[c.id].(status := S.Settled, retries := c.row.retries + 1)];
      claims := claims - {c};
      lost := false;
    }

    method RecordFailure(c: S.Claim, now: int)
      modifies this
      ensures Model() == Billing.Apply(cfg, old(Model()), Recover(S.RecordFailureOp(c, now)))
      ensures queue.Keys == old(queue).Keys && forall id :: id in queue && id != c.id ==> queue[id] == old(queue)[id]
      ensures c.id in queue ==>
                var row, retries := old(queue)[c.id], if c.row.rail == S.Credit then c.row.retries + 1
                                                      else c.row.maxRetries;
                queue[c.id] ==
                  if c !in old(claims) || row.status != S.Retrying || row.nextRetryAt != c.row.nextRetryAt then row
                  else if retries >= c.row.maxRetries then row.(status := S.Exhausted, retries := retries)
                  else row.(retries := retries,
                            nextRetryAt := now + Min(Arithmetic.Pow2(retries), 300) * 1_000_000)
    {
      if c !in claims {
        return;
      }
      claims := claims - {c};
      var retries := if c.row.rail == S.Credit then c.row.retries + 1 else c.row.maxRetries;
      if c.id in queue && queue[c.id].status == S.Retrying && queue[c.id].nextRetryAt == c.row.nextRetryAt {
        if retries >= c.row.maxRetries {
          queue := queue[c.id := queue[c.id].(status := S.Exhausted, retries := retries)];
        } else {
          queue := queue[c.id := queue[c.id].(retries := retries, nextRetryAt := now + S.Backoff(retries))];
        }
      }
    }

    /** The worker's loop over the rows it claimed. */
    method ProcessPendingSettlements(jobs: seq<S.Job>) returns (processed: nat)
      modifies this
      ensures Model() == old(Model()).WithSettlements(S.ProcessAll(cfg, old(Model()).Settlements(), jobs))
      ensures processed == S.Processed(cfg, old(Model()).Settlements(), jobs)
    {
      processed := 0;
      for i := 0 to |jobs|
        invariant S.ProcessAll(cfg, Model().Settlements(), jobs[i..])
            == S.ProcessAll(cfg, old(Model()).Settlements(), jobs)
        invariant processed + S.Processed(cfg, Model().Settlements(), jobs[i..])
            == S.Processed(cfg, old(Model()).Settlements(), jobs)
        invariant holds == old(holds)
      {
        var job := jobs[i];
        assert jobs[i..][0] == job && jobs[i..][1..] == jobs[i + 1..];
        var ok, lost := false, false;
        if job.claim.row.rail == S.Credit && !job.fault {
          ok, lost := SettleClaimedCredit(job.claim, job.attemptAt);
        }
        if lost {
          claims := claims - {job.claim};
        } else if ok {
          processed := processed + 1;
        } else {
          RecordFailure(job.claim, job.failureAt);
        }
      }
      assert jobs[|jobs|..] == [];
    }

    /** None stands for the refusal of an x402 charge. */
    method ResetExhausted(id: Id, now: int) returns (done: Option<bool>)
      modifies this
      ensures Model() == Billing.Apply(cfg, old(Model()), Recover(S.ResetOp(id, now)))
      ensures done == Some(true) <==>
          id in old(queue) && old(queue)[id].status == S.Exhausted && old(queue)[id].rail != S.X402
      ensures done == None <==>
          id in old(queue) && old(queue)[id].status == S.Exhausted && old(queue)[id].rail == S.X402
      ensures queue == if done == Some(true)
                       then old(queue)[id := old(queue)[id].(status := S.Waiting, retries := 0, nextRetryAt := now)]
                       else old(queue)
    {
      if id !in queue || queue[id].status != S.Exhausted {
        return Some(false);
      }
      if queue[id].rail == S.X402 {
        return None;
      }
      queue := queue[id := queue[id].(status := S.Waiting, retries := 0, nextRetryAt := now)];
      done := Some(true);
    }

    method MayRearm(id: Id, org: Id, cap: int, now: int) returns (ok: bool)
      requires id in queue
      ensures ok == S.FitsCap(Model().Settlements(), org, cap, now, id)
    {
      ok := false;
      if S.Rearmable(queue[id], org, now) {
        var table := S.State(Book(accounts, principals, entries), queue, earnings, claims, map[]);
        var total := Totals.Sum(S.UpTo(table, org, now, id), S.AmountOf());
        assert S.UpTo(table, org, now, id) == S.UpTo(Model().Settlements(), org, now, id);
        ok := total <= cap;
      }
    }

    method ChooseRearmed(org: Id, cap: int, now: int) returns (chosen: set<Id>)
      ensures chosen == S.Rearmed(Model().Settlements(), org, cap, now)
    {
      chosen := {};
      var rest := queue.Keys;
      while rest != {}
        invariant rest <= queue.Keys
        invariant forall id ::
            id in chosen <==> id in queue && id !in rest && S.FitsCap(Model().Settlements(), org, cap, now, id)
        decreases |rest|
      {
        var id :| id in rest;
        var ok := MayRearm(id, org, cap, now);
        rest := rest - {id};
        if ok {
          chosen := chosen + {id};
        }
      }
    }

    /** Re-queues an org's recent exhausted charges, oldest first, up to the cap. */
    method RearmExhausted(org: Id, cap: int, now: int) returns (count: nat)
      modifies this
      ensures Model() == Billing.Apply(cfg, old(Model()), Recover(S.RearmOp(org, cap, now)))
      ensures count == if cap <= 0 then 0 else |S.Rearmed(old(Model()).Settlements(), org, cap, now)|
      ensures queue.Keys == old(queue).Keys && forall id :: id in queue ==>
                queue[id] == if cap > 0 && id in S.Rearmed(old(Model()).Settlements(), org, cap, now)
                             then old(queue)[id].(status := S.Waiting, retries := 0, nextRetryAt := now)
                             else old(queue)[id]
      ensures forall id :: id in queue && queue[id] != old(queue)[id] ==>
                && old(queue)[id].org == org && old(queue)[id].status == S.Exhausted && old(queue)[id].rail == S.Credit
                && old(queue)[id].createdAt >= now - 7 * 86_400_000_000
    {
      if cap <= 0 {
        return 0;
      }
      var chosen := ChooseRearmed(org, cap, now);
      count := |chosen|;
      queue := S.Requeued(queue, chosen, now);
    }
  }
}
