/** Funded agent-to-agent delegations (billing/delegation.py): a refund status and a delivery
    status per delegation, partial hold release, and the treasury's rolling outflow cap. */
module Delegation {
  import opened Common
  import opened Ledger
  import Totals

  datatype RefundStatus = Pending | RefundRequested | Refunded | Cancelled

  datatype Delivery = NotAttempted | PossiblyDelivered | Confirmed | Failed

  /** A refund outbox row. amount is what is still held; debit is the id of the funding debit. */
  datatype Hold = Hold(org: Id, amount: int, debit: nat, status: RefundStatus, delivery: Delivery,
                       startedAt: Option<int>)

  datatype State = State(book: Book, holds: map<Id, Hold>)

  /* ---- the transactions ---- */

  /** Debit and create the hold together. A known id is answered from its row; an id taken by
      another org fails on the primary key and rolls the debit back. */
  function Fund(cfg: Settings, s: State, id: Id, org: Id, amount: int, who: Option<Id>, now: int): State {
    if amount <= 0 || id in s.holds || !MayDebit(cfg, s.book, org, amount, who, now) then s
    else
      State(DebitLocked(cfg, s.book, org, amount, Funding(id), who, now),
            s.holds[id := Hold(org, amount, |s.book.entries|, Pending, NotAttempted, None)])
  }

  function Owned(s: State, id: Id, org: Id): bool {
    id in s.holds && s.holds[id].org == org
  }

  /** The charge in force: an explicit one must be positive and at most the hold. */
  function FinalCharge(h: Hold, charge: Option<int>): Option<int> {
    if charge.None? then Some(h.amount)
    else if 0 < charge.value <= h.amount then charge
    else None
  }

  function StartedWithin(from: int, upTo: Option<int>): Hold -> int {
    (h: Hold) => if h.startedAt.Some? && from <= h.startedAt.value && (upTo.Some? ==> h.startedAt.value <= upTo.value)
        then h.amount else 0
  }

  /** The sum the treasury cap is checked against. */
  ghost function SignedSince(holds: map<Id, Hold>, from: int): int {
    Totals.Total(holds, StartedWithin(from, None))
  }

  /** What was signed in one closed 24-hour window. */
  ghost function SignedInWindow(holds: map<Id, Hold>, start: int): int {
    Totals.Total(holds, StartedWithin(start, Some(start + DAY)))
  }

  ghost predicate MayMark(cfg: Settings, s: State, id: Id, org: Id, charge: Option<int>, now: int) {
    && Owned(s, id, org)
    && s.holds[id].delivery == NotAttempted
    && (s.holds[id].status == Pending || s.holds[id].status == RefundRequested)
    && FinalCharge(s.holds[id], charge).Some?
    && SignedSince(s.holds, now - DAY) + FinalCharge(s.holds[id], charge).value <= cfg.outflowCap
    && (FinalCharge(s.holds[id], charge).value < s.holds[id].amount ==> org in s.book.accounts)
  }

  /** The principal a refund row is attributed to: that of the funding debit. */
  function DebitPrincipal(s: State, h: Hold): Option<Id> {
    if h.debit < |s.book.entries| then s.book.entries[h.debit].principal else None
  }

  /** Before a payment is signed: release the unsigned part of the hold, then start delivery. */
  ghost function Mark(cfg: Settings, s: State, id: Id, org: Id, charge: Option<int>, now: int): State {
    if !MayMark(cfg, s, id, org, charge, now) then s
    else
      var h := s.holds[id];
      var final := FinalCharge(h, charge).value;
      var book := if final < h.amount
                  then Post(s.book, org, Incoming, h.amount - final, Adjust(id), DebitPrincipal(s, h), None, None, now)
                  else s.book;
      State(book, s.holds[id := h.(amount := final, delivery := PossiblyDelivered, startedAt := Some(now))])
  }

  function Confirm(s: State, id: Id, org: Id): State {
    if !Owned(s, id, org) then s
    else
      var h := s.holds[id];
      if h.status == Refunded || !(h.delivery == NotAttempted || h.delivery == PossiblyDelivered) then s
      else
        var status := if h.status == Pending || h.status == RefundRequested then Cancelled else h.status;
        s.(holds := s.holds[id := h.(delivery := Confirmed, status := status)])
  }

  /** Credits the held amount back against the funding debit unless a reversal already exists. */
  function CompleteLocked(s: State, id: Id, now: int): State
    requires id in s.holds
  {
    var h := s.holds[id];
    var closed := if h.status == RefundRequested && (h.delivery == NotAttempted || h.delivery == Failed)
                  then s.holds[id := h.(status := Refunded)] else s.holds;
    if Reversed(s.book.entries, h.debit) then s.(holds := closed)
    else if h.org !in s.book.accounts then s
    else State(Post(s.book, h.org, Incoming, h.amount, Refund(id), DebitPrincipal(s, h), Some(h.debit), None, now),
               closed)
  }

  /** Definite non-delivery: fail the delivery and refund in the same transaction. */
  function Fail(s: State, id: Id, org: Id, now: int): State {
    if !Owned(s, id, org) then s
    else
      var h := s.holds[id];
      if h.delivery == Confirmed || h.status == Cancelled || h.status == Refunded
         || !(h.delivery == PossiblyDelivered || h.delivery == Failed)
         || (!Reversed(s.book.entries, h.debit) && org !in s.book.accounts) then s
      else
        var status := if h.status == Pending then RefundRequested else h.status;
        CompleteLocked(s.(holds := s.holds[id := h.(delivery := Failed, status := status)]), id, now)
  }

  function Request(s: State, id: Id, org: Id): State {
    if Owned(s, id, org) && s.holds[id].status == Pending
       && (s.holds[id].delivery == NotAttempted || s.holds[id].delivery == Failed)
    then s.(holds := s.holds[id := s.holds[id].(status := RefundRequested)])
    else s
  }

  function Cancel(s: State, id: Id, org: Id): State {
    if Owned(s, id, org) && (s.holds[id].status == Pending || s.holds[id].status == RefundRequested)
       && s.holds[id].delivery != Failed
    then s.(holds := s.holds[id := s.holds[id].(status := Cancelled, delivery := Confirmed)])
    else s
  }

  function Complete(s: State, id: Id, org: Id, now: int): State {
    if Owned(s, id, org) && s.holds[id].status == RefundRequested
       && (s.holds[id].delivery == NotAttempted || s.holds[id].delivery == Failed)
    then CompleteLocked(s, id, now)
    else s
  }

  /* ---- what every transaction keeps ---- */

  /** The seven (status, delivery) pairs a hold can be in. */
  predicate LegalPair(status: RefundStatus, delivery: Delivery) {
    match status
    case Pending | RefundRequested => delivery == NotAttempted || delivery == PossiblyDelivered
    case Cancelled => delivery == Confirmed
    case Refunded => delivery == NotAttempted || delivery == Failed
  }

  /** Everything credited back to a delegation: partial releases and the refund. */
  function Credits(entries: seq<Entry>, id: Id): int
    decreases |entries|
  {
    if entries == [] then 0
    else
      var last := entries[|entries| - 1];
      Credits(entries[..|entries| - 1], id)
          + (if last.purpose == Adjust(id) || last.purpose == Refund(id) then last.amount else 0)
  }

  ghost predicate HoldInv(s: State, id: Id)
    requires id in s.holds
  {
    var h, entries := s.holds[id], s.book.entries;
    && LegalPair(h.status, h.delivery)
    && h.amount > 0
    && h.org in s.book.accounts
    && h.debit < |entries|
    && entries[h.debit].kind == Outgoing && entries[h.debit].org == h.org && entries[h.debit].purpose == Funding(id)
    && (Reversed(entries, h.debit) <==> h.status == Refunded)
    && entries[h.debit].amount - Credits(entries, id) == (if h.status == Refunded then 0 else h.amount)
    && (h.startedAt.Some? ==> h.delivery != NotAttempted)
    && (h.delivery == PossiblyDelivered || h.delivery == Failed ==> h.startedAt.Some?)
  }

  /** Each ledger row written for a delegation belongs to a hold; its funding debit is unique. */
  ghost predicate Attributed(s: State) {
    forall i :: 0 <= i < |s.book.entries| ==> RowAttributed(s.holds, i, s.book.entries[i])
  }

  ghost predicate RowAttributed(holds: map<Id, Hold>, i: nat, e: Entry) {
    match e.purpose
    case Funding(id) => id in holds && holds[id].debit == i && e.reverses == None
    case Adjust(id) => id in holds && e.kind == Incoming && e.reverses == None
    case Refund(id) => id in holds && e.kind == Incoming && e.reverses == Some(holds[id].debit)
    case _ => e.reverses == None
  }

  ghost predicate Inv(s: State) {
    && BookInv(s.book)
    && Attributed(s)
    && forall id {:trigger HoldInv(s, id)} :: id in s.holds ==> HoldInv(s, id)
  }

  lemma CreditsSnoc(entries: seq<Entry>, e: Entry, id: Id)
    ensures Credits(entries + [e], id) ==
            Credits(entries, id) + (if e.purpose == Adjust(id) || e.purpose == Refund(id) then e.amount else 0)
  {
    assert (entries + [e])[..|entries|] == entries;
  }

  /** A row that reverses nothing and credits no delegation leaves a hold's books alone. */
  lemma UnrelatedRowKeepsHold(s: State, s': State, id: Id)
    requires id in s.holds && HoldInv(s, id)
    requires id in s'.holds && s'.holds[id] == s.holds[id] && s.book.accounts.Keys <= s'.book.accounts.Keys
    requires |s'.book.entries| == |s.book.entries| + 1 && s'.book.entries[..|s.book.entries|] == s.book.entries
    requires var e := s'.book.entries[|s.book.entries|];
             e.reverses != Some(s.holds[id].debit) && e.purpose != Adjust(id) && e.purpose != Refund(id)
    ensures HoldInv(s', id)
  {
    var e := s'.book.entries[|s.book.entries|];
    assert s'.book.entries == s.book.entries + [e];
    CreditsSnoc(s.book.entries, e, id);
    ReversedSnoc(s.book.entries, e, s.holds[id].debit);
  }

  /** A ledger row that is not about delegations keeps the invariant. */
  lemma ForeignRowKeepsInv(s: State, book: Book, e: Entry)
    requires Inv(s) && BookInv(book) && s.book.accounts.Keys <= book.accounts.Keys
    requires book.entries == s.book.entries + [e] && e.reverses == None && (e.purpose.Direct? || e.purpose.Retry?)
    ensures Inv(s.(book := book))
  {
    var s' := s.(book := book);
    forall id | id in s'.holds ensures HoldInv(s', id) {
      UnrelatedRowKeepsHold(s, s', id);
    }
  }

  lemma FundKeepsInv(cfg: Settings, s: State, id: Id, org: Id, amount: int, who: Option<Id>, now: int)
    requires Inv(s)
    ensures Inv(Fund(cfg, s, id, org, amount, who, now))
  {
    var s' := Fund(cfg, s, id, org, amount, who, now);
    if s' != s {
      DebitKeepsBook(cfg, s.book, org, amount, Funding(id), who, now);
      var e := s'.book.entries[|s.book.entries|];
      NoCreditsWithoutRows(s.book.entries, id);
      CreditsSnoc(s.book.entries, e, id);
      ReversedSnoc(s.book.entries, e, |s.book.entries|);
      assert s'.book.entries == s.book.entries + [e];
      assert HoldInv(s', id);
      forall other | other in s'.holds ensures HoldInv(s', other) {
        if other != id {
          UnrelatedRowKeepsHold(s, s', other);
        }
      }
      forall i | 0 <= i < |s'.book.entries| ensures RowAttributed(s'.holds, i, s'.book.entries[i]) {
        if i < |s.book.entries| {
          assert RowAttributed(s.holds, i, s.book.entries[i]);
        }
      }
    }
  }

  lemma {:induction false} NoCreditsWithoutRows(entries: seq<Entry>, id: Id)
    requires forall i :: 0 <= i < |entries| ==> entries[i].purpose != Adjust(id) && entries[i].purpose != Refund(id)
    ensures Credits(entries, id) == 0
    decreases |entries|
  {
    if entries != [] {
      NoCreditsWithoutRows(entries[..|entries| - 1], id);
    }
  }

  lemma DistinctDebits(s: State, id: Id, other: Id)
    requires Inv(s) && id in s.holds && other in s.holds && id != other
    ensures s.holds[id].debit != s.holds[other].debit
  {
    assert HoldInv(s, id) && HoldInv(s, other);
  }

  /** A row that may replace another: same funding, and its own fields consistent. */
  ghost predicate SoundRow(h: Hold, h': Hold) {
    && h'.org == h.org && h'.debit == h.debit && h'.amount > 0
    && LegalPair(h'.status, h'.delivery)
    && (h'.startedAt.Some? ==> h'.delivery != NotAttempted)
    && (h'.delivery == PossiblyDelivered || h'.delivery == Failed ==> h'.startedAt.Some?)
  }

  /** s' is s after row e has credited a part of a hold, or all of it as a refund. */
  ghost predicate CreditedBy(s: State, s': State, id: Id, e: Entry) {
    && id in s.holds && s.holds[id].status != Refunded
    && s'.holds.Keys == s.holds.Keys && (forall k :: k in s.holds && k != id ==> s'.holds[k] == s.holds[k])
    && SoundRow(s.holds[id], s'.holds[id])
    && s.book.accounts.Keys <= s'.book.accounts.Keys
    && s'.book.entries == s.book.entries + [e]
    && e.kind == Incoming
    && (if s'.holds[id].status == Refunded
        then e.purpose == Refund(id) && e.reverses == Some(s.holds[id].debit) && e.amount == s.holds[id].amount
        else e.purpose == Adjust(id) && e.reverses == None && s'.holds[id].amount == s.holds[id].amount - e.amount)
  }

  lemma CreditedHold(s: State, s': State, id: Id, e: Entry)
    requires CreditedBy(s, s', id, e) && HoldInv(s, id)
    ensures HoldInv(s', id)
  {
    CreditsSnoc(s.book.entries, e, id);
    ReversedSnoc(s.book.entries, e, s.holds[id].debit);
  }

  lemma OtherHolds(s: State, s': State, id: Id, e: Entry)
    requires CreditedBy(s, s', id, e) && Inv(s)
    ensures forall other {:trigger HoldInv(s', other)} :: other in s'.holds && other != id ==> HoldInv(s', other)
  {
    hide BookInv, Attributed, SoundRow;
    forall other | other in s'.holds && other != id ensures HoldInv(s', other) {
      assert HoldInv(s, other);
      DistinctDebits(s, id, other);
      UnrelatedRowKeepsHold(s, s', other);
    }
  }

  lemma CreditIsAttributed(s: State, s': State, id: Id, e: Entry)
    requires CreditedBy(s, s', id, e) && Attributed(s)
    ensures Attributed(s')
  {
    forall i | 0 <= i < |s'.book.entries| ensures RowAttributed(s'.holds, i, s'.book.entries[i]) {
      if i < |s.book.entries| {
        assert RowAttributed(s.holds, i, s.book.entries[i]);
      }
    }
  }

  /** Crediting one delegation: a partial release, or the one reversal of its debit. */
  lemma CreditKeepsInv(s: State, id: Id, amount: int, purpose: Purpose, who: Option<Id>, reverses: Option<nat>,
                       h': Hold, now: int)
    requires Inv(s) && id in s.holds && HoldInv(s, id) && s.holds[id].status != Refunded
    requires SoundRow(s.holds[id], h') && amount > 0
    requires if h'.status == Refunded
        then purpose == Refund(id) && reverses == Some(s.holds[id].debit) && amount == s.holds[id].amount
             else purpose == Adjust(id) && reverses == None && h'.amount == s.holds[id].amount - amount
    ensures Inv(State(Post(s.book, s.holds[id].org, Incoming, amount, purpose, who, reverses, None, now),
                      s.holds[id := h']))
  {
    hide BookInv, Attributed, SoundRow, LegalPair;
    var h := s.holds[id];
    var s' := State(Post(s.book, h.org, Incoming, amount, purpose, who, reverses, None, now), s.holds[id := h']);
    PostKeepsBook(s.book, h.org, Incoming, amount, purpose, who, reverses, None, now);
    var e := s'.book.entries[|s.book.entries|];
    CreditedHold(s, s', id, e);
    OtherHolds(s, s', id, e);
    CreditIsAttributed(s, s', id, e);
  }

  /** A change of status or delivery that neither refunds nor moves money. */
  lemma RelabelKeepsInv(s: State, id: Id, h': Hold)
    requires Inv(s) && id in s.holds && s.holds[id].status != Refunded && h'.status != Refunded
    requires h'.amount == s.holds[id].amount && SoundRow(s.holds[id], h')
    ensures Inv(s.(holds := s.holds[id := h']))
  {
    var s' := s.(holds := s.holds[id := h']);
    assert HoldInv(s, id);
    forall other | other in s'.holds ensures HoldInv(s', other) {
      assert other != id ==> HoldInv(s, other);
    }
    forall i | 0 <= i < |s.book.entries| ensures RowAttributed(s'.holds, i, s.book.entries[i]) {
      assert RowAttributed(s.holds, i, s.book.entries[i]);
    }
  }

  lemma MarkKeepsInv(cfg: Settings, s: State, id: Id, org: Id, charge: Option<int>, now: int)
    requires Inv(s)
    ensures Inv(Mark(cfg, s, id, org, charge, now))
  {
    hide BookInv, Attributed, SignedSince;
    if MayMark(cfg, s, id, org, charge, now) {
      var h := s.holds[id];
      assert HoldInv(s, id);
      var final := FinalCharge(h, charge).value;
      var h' := h.(amount := final, delivery := PossiblyDelivered, startedAt := Some(now));
      if final < h.amount {
        CreditKeepsInv(s, id, h.amount - final, Adjust(id), DebitPrincipal(s, h), None, h', now);
      } else {
        RelabelKeepsInv(s, id, h');
      }
    }
  }

  lemma ConfirmKeepsInv(s: State, id: Id, org: Id)
    requires Inv(s)
    ensures Inv(Confirm(s, id, org)) && Inv(Request(s, id, org)) && Inv(Cancel(s, id, org))
  {
    if Owned(s, id, org) {
      var h := s.holds[id];
      assert HoldInv(s, id);
      if h.status == Pending || h.status == RefundRequested {
        RelabelKeepsInv(s, id, h.(delivery := Confirmed, status := Cancelled));
        RelabelKeepsInv(s, id, h.(status := RefundRequested));
      }
    }
  }

  /** The refund of a still-open hold: one reversal of its debit, worth what is held. */
  function RefundedState(s: State, id: Id, now: int): State
    requires id in s.holds && s.holds[id].org in s.book.accounts
  {
    var h := s.holds[id];
    State(Post(s.book, h.org, Incoming, h.amount, Refund(id), DebitPrincipal(s, h), Some(h.debit), None, now),
          s.holds[id := h.(status := Refunded,
                           delivery := if h.delivery == NotAttempted then NotAttempted else Failed)])
  }

  lemma RefundShape(s: State, id: Id, org: Id, now: int)
    requires id in s.holds && HoldInv(s, id) && s.holds[id].status != Refunded
    ensures Complete(s, id, org, now) == s ||
            (s.holds[id].status == RefundRequested && s.holds[id].delivery == NotAttempted
             && Complete(s, id, org, now) == RefundedState(s, id, now))
    ensures Fail(s, id, org, now) == s ||
            (s.holds[id].delivery == PossiblyDelivered && Fail(s, id, org, now) == RefundedState(s, id, now))
  {
    var h := s.holds[id];
    var mid := s.holds[id := h.(delivery := Failed, status := RefundRequested)];
    assert mid[id := h.(delivery := Failed, status := Refunded)]
        == s.holds[id := h.(delivery := Failed, status := Refunded)];
  }

  lemma RefundKeepsInv(s: State, id: Id, org: Id, now: int)
    requires Inv(s)
    ensures Inv(Complete(s, id, org, now)) && Inv(Fail(s, id, org, now))
  {
    if Owned(s, id, org) {
      var h := s.holds[id];
      assert HoldInv(s, id);
      if h.status == Pending || h.status == RefundRequested {
        RefundShape(s, id, org, now);
        CreditKeepsInv(s, id, h.amount, Refund(id), DebitPrincipal(s, h), Some(h.debit),
                       RefundedState(s, id, now).holds[id], now);
      }
    }
  }

  lemma CompleteTouchesOneHold(s: State, at: Id, org: Id, now: int, id: Id)
    requires id in s.holds
    ensures id in Complete(s, at, org, now).holds
    ensures id != at || (s.holds[id].delivery != NotAttempted && s.holds[id].delivery != Failed)
            ==> Complete(s, at, org, now).holds[id] == s.holds[id]
  {
  }

  /* ---- the treasury cap ---- */

  ghost predicate OutflowWithin(holds: map<Id, Hold>, cap: int) {
    forall start :: SignedInWindow(holds, start) <= cap
  }

  /** Rewriting a row without touching its amount once delivery has started moves no window. */
  lemma SameOutflow(holds: map<Id, Hold>, id: Id, h': Hold, cap: int)
    requires OutflowWithin(holds, cap)
    requires if id in holds
        then h'.startedAt == holds[id].startedAt && (h'.startedAt.Some? ==> h'.amount == holds[id].amount)
             else h'.startedAt == None
    ensures OutflowWithin(holds[id := h'], cap)
  {
    var holds' := holds[id := h'];
    forall start ensures SignedInWindow(holds', start) <= cap {
      Totals.TotalUpdate(holds, StartedWithin(start, Some(start + DAY)), id, h');
      assert SignedInWindow(holds, start) <= cap;
    }
  }

  /** Marking keeps every 24-hour window within the treasury cap, whatever the clock says. */
  lemma MarkKeepsOutflow(cfg: Settings, s: State, id: Id, org: Id, charge: Option<int>, now: int)
    requires Inv(s) && OutflowWithin(s.holds, cfg.outflowCap)
    ensures OutflowWithin(Mark(cfg, s, id, org, charge, now).holds, cfg.outflowCap)
  {
    if MayMark(cfg, s, id, org, charge, now) {
      var h := s.holds[id];
      assert HoldInv(s, id);
      var final := FinalCharge(h, charge).value;
      var h' := h.(amount := final, delivery := PossiblyDelivered, startedAt := Some(now));
      var holds' := s.holds[id := h'];
      forall start ensures SignedInWindow(holds', start) <= cfg.outflowCap {
        var inWindow := StartedWithin(start, Some(start + DAY));
        Totals.TotalUpdate(s.holds, inWindow, id, h');
        assert SignedInWindow(s.holds, start) <= cfg.outflowCap;
        if start <= now <= start + DAY {
          forall k | k in s.holds ensures inWindow(s.holds[k]) <= StartedWithin(now - DAY, None)(s.holds[k]) {
            assert HoldInv(s, k);
          }
          Totals.TotalMonotone(s.holds, inWindow, StartedWithin(now - DAY, None));
        }
      }
    }
  }

  lemma SameRow(s: State, id: Id, org: Id, now: int)
    requires id in s.holds
    ensures Confirm(s, id, org).holds == s.holds[id := Confirm(s, id, org).holds[id]]
    ensures Request(s, id, org).holds == s.holds[id := Request(s, id, org).holds[id]]
    ensures Cancel(s, id, org).holds == s.holds[id := Cancel(s, id, org).holds[id]]
    ensures Complete(s, id, org, now).holds == s.holds[id := Complete(s, id, org, now).holds[id]]
    ensures Fail(s, id, org, now).holds == s.holds[id := Fail(s, id, org, now).holds[id]]
  {
  }

  /* ---- the life of one hold ---- */

  /** What any transaction may do to a hold: its funding never changes, its amount and start are
      frozen once delivery has started, and a refunded or cancelled hold is final. */
  ghost predicate Advances(h: Hold, h': Hold) {
    && h'.org == h.org && h'.debit == h.debit
    && (h.startedAt.Some? ==> h'.startedAt == h.startedAt && h'.amount == h.amount)
    && (h.status == Refunded || h.status == Cancelled ==> h' == h)
    && (h.delivery != NotAttempted ==> h'.delivery != NotAttempted && h'.amount == h.amount)
  }

  /** A possibly-delivered hold is out of reach of the refund transactions and of marking again. */
  lemma PossiblyDeliveredIsHeld(cfg: Settings, s: State, id: Id, org: Id, charge: Option<int>, now: int)
    requires Inv(s) && id in s.holds && s.holds[id].delivery == PossiblyDelivered
    ensures Request(s, id, org) == s && Complete(s, id, org, now) == s && Mark(cfg, s, id, org, charge, now) == s
  {
  }

  /* ---- the transactions as steps ---- */

  datatype Op =
    | FundOp(id: Id, org: Id, amount: int, who: Option<Id>, now: int)
    | MarkOp(id: Id, org: Id, charge: Option<int>, now: int)
    | ConfirmOp(id: Id, org: Id)
    | FailOp(id: Id, org: Id, now: int)
    | RequestOp(id: Id, org: Id)
    | CancelOp(id: Id, org: Id)
    | CompleteOp(id: Id, org: Id, now: int)

  ghost function Apply(cfg: Settings, s: State, op: Op): State {
    match op
    case FundOp(id, org, amount, who, now) => Fund(cfg, s, id, org, amount, who, now)
    case MarkOp(id, org, charge, now) => Mark(cfg, s, id, org, charge, now)
    case ConfirmOp(id, org) => Confirm(s, id, org)
    case FailOp(id, org, now) => Fail(s, id, org, now)
    case RequestOp(id, org) => Request(s, id, org)
    case CancelOp(id, org) => Cancel(s, id, org)
    case CompleteOp(id, org, now) => Complete(s, id, org, now)
  }

  lemma ApplyExtends(cfg: Settings, s: State, op: Op)
    ensures Extends(s.book, Apply(cfg, s, op).book)
    ensures var b, b' := s.book, Apply(cfg, s, op).book;
            |b'.entries| > |b.entries| ==>
                !b'.entries[|b.entries|].purpose.Retry? && (op.FundOp? || b'.entries[|b.entries|].kind == Incoming)
  {
  }

  lemma ApplyKeepsInv(cfg: Settings, s: State, op: Op)
    requires Inv(s)
    ensures Inv(Apply(cfg, s, op))
  {
    match op
    case FundOp(id, org, amount, who, now) => FundKeepsInv(cfg, s, id, org, amount, who, now);
    case MarkOp(id, org, charge, now) => MarkKeepsInv(cfg, s, id, org, charge, now);
    case ConfirmOp(id, org) => ConfirmKeepsInv(s, id, org);
    case RequestOp(id, org) => ConfirmKeepsInv(s, id, org);
    case CancelOp(id, org) => ConfirmKeepsInv(s, id, org);
    case CompleteOp(id, org, now) => RefundKeepsInv(s, id, org, now);
    case FailOp(id, org, now) => RefundKeepsInv(s, id, org, now);
  }

  lemma ApplyKeepsOutflow(cfg: Settings, s: State, op: Op)
    requires Inv(s) && OutflowWithin(s.holds, cfg.outflowCap)
    ensures OutflowWithin(Apply(cfg, s, op).holds, cfg.outflowCap)
  {
    var id, cap := op.id, cfg.outflowCap;
    if op.MarkOp? {
      MarkKeepsOutflow(cfg, s, id, op.org, op.charge, op.now);
    } else if op.FundOp? && id !in s.holds {
      SameOutflow(s.holds, id, Hold(op.org, op.amount, |s.book.entries|, Pending, NotAttempted, None), cap);
    } else if !op.FundOp? && id in s.holds {
      assert HoldInv(s, id);
      SameOutflow(s.holds, id, Apply(cfg, s, op).holds[id], cap);
      SameRow(s, id, op.org, if op.CompleteOp? || op.FailOp? then op.now else 0);
    }
  }

  lemma ApplyAdvances(cfg: Settings, s: State, op: Op, id: Id)
    requires Inv(s) && id in s.holds
    ensures id in Apply(cfg, s, op).holds && Advances(s.holds[id], Apply(cfg, s, op).holds[id])
  {
    assert HoldInv(s, id);
    if (op.CompleteOp? || op.FailOp?) && op.id in s.holds && s.holds[op.id].status != Refunded {
      assert HoldInv(s, op.id);
      RefundShape(s, op.id, op.org, op.now);
    }
  }

  /** No transaction of a delegation changes a limit. */
  lemma ApplyKeepsLimits(cfg: Settings, s: State, op: Op)
    ensures var b, b' := s.book, Apply(cfg, s, op).book;
            && b'.principals == b.principals && b.accounts.Keys <= b'.accounts.Keys
            && forall org :: org in b.accounts ==> b'.accounts[org].limit == b.accounts[org].limit
  {
  }

  lemma ApplyKeepsPause(cfg: Settings, s: State, op: Op, org: Id, who: Option<Id>)
    requires Paused(s.book, org, who)
    ensures var b := Apply(cfg, s, op).book;
            Paused(b, org, who) && NoDebitsFrom(b.entries, |s.book.entries|, org, who)
  {
    ApplyExtends(cfg, s, op);
  }

  lemma ApplyKeepsWindows(cfg: Settings, s: State, op: Op, org: Id, who: Option<Id>, cap: int)
    requires Inv(s) && Limited(cfg, s.book, org, who, cap)
    ensures NoneRisesAbove(s.book.entries, Apply(cfg, s, op).book.entries, org, who, cap)
  {
    hide HoldInv, Attributed, Limited;
    ApplyExtends(cfg, s, op);
    ApplyKeepsInv(cfg, s, op);
    var entries, entries' := s.book.entries, Apply(cfg, s, op).book.entries;
    if op.FundOp? {
      if op.amount > 0 {
        DebitKeepsWindows(cfg, s.book, op.org, op.amount, Funding(op.id), op.who, op.now, org, who, cap);
      }
    } else if |entries'| > |entries| {
      assert entries' == entries + [entries'[|entries|]];
      TopupKeepsWindows(entries, entries'[|entries|], org, who, cap);
    } else {
      assert entries' == entries;
    }
  }

  /** A possibly-delivered hold leaves that state only by its own confirm, cancel or fail. */
  lemma PossiblyDeliveredLeavesOnlyByResolution(cfg: Settings, s: State, op: Op, id: Id)
    requires Inv(s) && id in s.holds && s.holds[id].delivery == PossiblyDelivered
    ensures id in Apply(cfg, s, op).holds
    ensures Apply(cfg, s, op).holds[id] != s.holds[id] ==>
              (op.ConfirmOp? || op.CancelOp? || op.FailOp?) && op.id == id && op.org == s.holds[id].org
  {
    assert HoldInv(s, id);
    if op.CompleteOp? {
      CompleteTouchesOneHold(s, op.id, op.org, op.now, id);
    }
  }

  /** Changes to accounts, and rows that are not about delegations, keep the invariant. */
  lemma OutsideKeepsInv(s: State, book: Book)
    requires Inv(s) && BookInv(book) && Extends(s.book, book)
    requires |book.entries| > |s.book.entries| ==>
               var e := book.entries[|s.book.entries|]; e.reverses == None && (e.purpose.Direct? || e.purpose.Retry?)
    ensures Inv(s.(book := book))
  {
    if |book.entries| > |s.book.entries| {
      var e := book.entries[|s.book.entries|];
      assert book.entries == s.book.entries + [e];
      ForeignRowKeepsInv(s, book, e);
    } else {
      var s' := s.(book := book);
      assert book.entries == s.book.entries;
      forall id | id in s'.holds ensures HoldInv(s', id) {
        assert HoldInv(s, id);
      }
    }
  }

  /* ---- the refund outbox worker ---- */

  /** A row of the worker's snapshot, possibly stale, with the terminal event of the delegation. */
  datatype OutboxRow = OutboxRow(id: Id, org: Id, completed: bool, possiblyDelivered: bool, cost: Option<int>, now: int)

  function OutboxStep(s: State, row: OutboxRow): State {
    if row.possiblyDelivered then s
    else if row.completed && row.cost != Some(0) then Cancel(s, row.id, row.org)
    else Complete(Request(s, row.id, row.org), row.id, row.org, row.now)
  }

  function OutboxSweep(s: State, rows: seq<OutboxRow>): State
    decreases |rows|
  {
    if rows == [] then s else OutboxSweep(OutboxStep(s, rows[0]), rows[1..])
  }

  /** After its step the row's hold is cancelled, or refunded, as the row asked for. */
  predicate Resolved(s: State, row: OutboxRow) {
    && !row.possiblyDelivered && Owned(s, row.id, row.org)
    && s.holds[row.id].status == if row.completed && row.cost != Some(0) then Cancelled else Refunded
  }

  /** How many rows of the sweep are resolved right after their own step. */
  function OutboxResolved(s: State, rows: seq<OutboxRow>): nat
    decreases |rows|
  {
    if rows == [] then 0
    else
      var after := OutboxStep(s, rows[0]);
      (if Resolved(after, rows[0]) then 1 else 0) + OutboxResolved(after, rows[1..])
  }

  /** The worker's decision about a hold whose delivery was never started: a delegation that completed at
      a cost is confirmed, every other one is refunded. */
  lemma OutboxDecides(s: State, row: OutboxRow)
    requires Inv(s) && Owned(s, row.id, row.org) && !row.possiblyDelivered
    requires s.holds[row.id].delivery == NotAttempted && s.holds[row.id].status != Refunded
    ensures var h, after := s.holds[row.id], OutboxStep(s, row);
            if row.completed && row.cost != Some(0)
            then after == s.(holds := s.holds[row.id := h.(status := Cancelled, delivery := Confirmed)])
            else && after.holds == s.holds[row.id := h.(status := Refunded)]
                 && BalanceOf(after.book.accounts, row.org) == BalanceOf(s.book.accounts, row.org) + h.amount
  {
    assert HoldInv(s, row.id);
  }

  /** Stays as it is, or is confirmed and cancelled. */
  predicate HeldOrConfirmed(h: Hold, h': Hold) {
    h' == h || h' == h.(status := Cancelled, delivery := Confirmed)
  }

  lemma OutboxStepKeepsInv(s: State, row: OutboxRow)
    requires Inv(s)
    ensures Inv(OutboxStep(s, row))
  {
    ConfirmKeepsInv(s, row.id, row.org);
    RefundKeepsInv(Request(s, row.id, row.org), row.id, row.org, row.now);
  }

  lemma StepNeverRefundsDelivered(s: State, row: OutboxRow, id: Id)
    requires id in s.holds
    requires s.holds[id].delivery == PossiblyDelivered || s.holds[id].delivery == Confirmed
    ensures id in OutboxStep(s, row).holds && HeldOrConfirmed(s.holds[id], OutboxStep(s, row).holds[id])
  {
    CompleteTouchesOneHold(Request(s, row.id, row.org), row.id, row.org, row.now, id);
  }

  /** However stale its snapshot, the worker never refunds a hold whose payment may have been
      delivered. */
  lemma {:induction false} StaleSweepNeverRefundsDelivered(s: State, rows: seq<OutboxRow>, id: Id)
    requires Inv(s) && id in s.holds
    requires s.holds[id].delivery == PossiblyDelivered || s.holds[id].delivery == Confirmed
    ensures var s' := OutboxSweep(s, rows);
            Inv(s') && id in s'.holds && HeldOrConfirmed(s.holds[id], s'.holds[id])
    decreases |rows|
  {
    if rows != [] {
      StepNeverRefundsDelivered(s, rows[0], id);
      OutboxStepKeepsInv(s, rows[0]);
      assert HoldInv(s, id) && HoldInv(OutboxStep(s, rows[0]), id);
      StaleSweepNeverRefundsDelivered(OutboxStep(s, rows[0]), rows[1..], id);
    }
  }
}
