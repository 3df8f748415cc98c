/** The retry queue for failed settlements (billing/settlement.py): leased claims, one debit per
    settled charge with its author earnings, and re-arming of exhausted charges. */
module Settlement {
  import opened Common
  import Arithmetic
  import opened Ledger
  import Totals

  datatype Rail = Credit | X402 | Mpp

  datatype Status = Waiting | Retrying | Settled | Exhausted

  /** A stored earnings allocation; a malformed or rejected one is skipped, never fatal. */
  datatype Allocation = Allocation(author: Id, tool: Id, caller: Id, cost: int, wellFormed: bool, rejected: bool)

  datatype Earning = Earning(settlement: Id, author: Id, tool: Id, caller: Id, amount: int)

  datatype Charge = Charge(org: Id, amount: int, who: Option<Id>, rail: Rail, allocations: seq<Allocation>,
                           maxRetries: nat,
                           createdAt: int, status: Status, retries: nat, nextRetryAt: int)

  /** A worker's copy of a row, as it was returned by the claiming update; its nextRetryAt is the lease. */
  datatype Claim = Claim(id: Id, row: Charge)

  /** leases records, per row, every lease handed out so far. */
  datatype State = State(book: Book, queue: map<Id, Charge>, earnings: seq<Earning>, claims: set<Claim>,
                         leases: map<Id, seq<int>>)

  const LEASE := 300 * SECOND
  const REARM_WINDOW := 7 * DAY
  const CLAIM_LIMIT := 20

  /* ---- the transactions ---- */

  function Enqueue(s: State, id: Id, c: Charge, now: int): State {
    if c.amount <= 0 || id in s.queue then s
    else
      s.(queue := s.queue[id := c.(status := Waiting, retries := 0, createdAt := now, nextRetryAt := now + 2 * SECOND)],
         leases := s.leases[id := []])
  }

  predicate Due(c: Charge, now: int) {
    (c.status == Waiting || c.status == Retrying) && c.nextRetryAt <= now
  }

  function Leased(c: Charge, now: int): Charge {
    c.(status := Retrying, nextRetryAt := now + LEASE)
  }

  function DueIn(queue: map<Id, Charge>, picked: set<Id>, now: int): set<Id> {
    set id | id in picked && id in queue && Due(queue[id], now)
  }

  function LeaseRows(queue: map<Id, Charge>, ids: set<Id>, now: int): map<Id, Charge>
    requires ids <= queue.Keys
  {
    map id | id in queue :: if id in queue && id in ids then Leased(queue[id], now) else queue[id]
  }

  function NewClaims(queue: map<Id, Charge>, ids: set<Id>, now: int): set<Claim>
    requires ids <= queue.Keys
  {
    set id | id in ids :: Claim(id, Leased(queue[id], now))
  }

  function NoteLeases(leases: map<Id, seq<int>>, ids: set<Id>, now: int): map<Id, seq<int>> {
    map id | id in leases.Keys + ids ::
      if id in ids then (if id in leases then leases[id] else []) + [now + LEASE] else leases[id]
  }

  /** Claims the picked rows that are due; which rows are picked is up to lock skipping. */
  function ClaimDue(s: State, picked: set<Id>, now: int): State {
    if |picked| > CLAIM_LIMIT then s
    else
      var due := DueIn(s.queue, picked, now);
      s.(queue := LeaseRows(s.queue, due, now), claims := s.claims + NewClaims(s.queue, due, now),
         leases := NoteLeases(s.leases, due, now))
  }

  predicate LeaseMatches(s: State, c: Claim) {
    c.id in s.queue && s.queue[c.id].status == Retrying && s.queue[c.id].nextRetryAt == c.row.nextRetryAt
  }

  function Payout(id: Id, a: Allocation): seq<Earning> {
    if a.wellFormed && !a.rejected && a.author != a.caller && a.cost > 0
        then [Earning(id, a.author, a.tool, a.caller, a.cost)] else []
  }

  function Payouts(id: Id, allocations: seq<Allocation>): seq<Earning> {
    if allocations == [] then [] else Payout(id, allocations[0]) + Payouts(id, allocations[1..])
  }

  predicate MaySettle(cfg: Settings, s: State, c: Claim, now: int) {
    && c in s.claims && c.row.rail == Credit
    && LeaseMatches(s, c) && s.queue[c.id].nextRetryAt > now
    && MayDebit(cfg, s.book, c.row.org, c.row.amount, c.row.who, now)
  }

  /** Debit, author earnings and the settled mark in one transaction, or nothing. */
  function Settle(cfg: Settings, s: State, c: Claim, now: int): State {
    if !MaySettle(cfg, s, c, now) then s
    else
      s.(book := DebitLocked(cfg, s.book, c.row.org, c.row.amount, Retry(c.id), c.row.who, now),
         queue := s.queue[c.id := s.queue[c.id].(status := Settled, retries := c.row.retries + 1)],
         earnings := s.earnings + Payouts(c.id, c.row.allocations),
         claims := s.claims - {c})
  }

  function Backoff(retries: nat): int {
    Min(Arithmetic.Pow2(retries), 300) * SECOND
  }

  function NextRetries(c: Claim): nat {
    if c.row.rail == Credit then c.row.retries + 1 else c.row.maxRetries
  }

  /** The guarded write after a failed attempt; it ends the worker's claim either way. */
  function RecordFailure(s: State, c: Claim, now: int): State {
    if c !in s.claims then s
    else if !LeaseMatches(s, c) then s.(claims := s.claims - {c})
    else
      var row := s.queue[c.id];
      var failed := if NextRetries(c) >= c.row.maxRetries
                    then row.(status := Exhausted, retries := NextRetries(c))
                    else row.(retries := NextRetries(c), nextRetryAt := now + Backoff(NextRetries(c)));
      s.(queue := s.queue[c.id := failed], claims := s.claims - {c})
  }

  /** A lost claim is abandoned, and a crashed worker forgets its copy. */
  function Abandon(s: State, c: Claim): State {
    s.(claims := s.claims - {c})
  }

  /** An operator's reset; an x402 charge is refused. */
  function Reset(s: State, id: Id, now: int): State {
    if id in s.queue && s.queue[id].status == Exhausted && s.queue[id].rail != X402
    then s.(queue := s.queue[id := s.queue[id].(status := Waiting, retries := 0, nextRetryAt := now)])
    else s
  }

  predicate Rearmable(c: Charge, org: Id, now: int) {
    c.org == org && c.status == Exhausted && c.rail == Credit && c.createdAt >= now - REARM_WINDOW
  }

  predicate NotYounger(s: State, a: Id, b: Id)
    requires a in s.queue && b in s.queue
  {
    s.queue[a].createdAt < s.queue[b].createdAt || (s.queue[a].createdAt == s.queue[b].createdAt && a <= b)
  }

  function AmountOf(): Charge -> int {
    (c: Charge) => c.amount
  }

  /** The candidates up to and including id, oldest first. */
  function UpTo(s: State, org: Id, now: int, id: Id): map<Id, Charge>
    requires id in s.queue
  {
    Totals.Keep(s.queue, set k | k in s.queue && Rearmable(s.queue[k], org, now) && NotYounger(s, k, id))
  }

  /** The amounts of the candidates up to and including id, oldest first. */
  ghost function RunningTotal(s: State, org: Id, now: int, id: Id): int
    requires id in s.queue
  {
    Totals.Total(UpTo(s, org, now, id), AmountOf())
  }

  ghost predicate FitsCap(s: State, org: Id, cap: int, now: int, id: Id)
    requires id in s.queue
  {
    Rearmable(s.queue[id], org, now) && RunningTotal(s, org, now, id) <= cap
  }

  ghost function Rearmed(s: State, org: Id, cap: int, now: int): set<Id> {
    set id | id in s.queue && FitsCap(s, org, cap, now, id)
  }

  function Requeued(queue: map<Id, Charge>, ids: set<Id>, now: int): map<Id, Charge>
    requires ids <= queue.Keys
  {
    map id | id in queue ::
      if id in queue && id in ids then queue[id].(status := Waiting, retries := 0, nextRetryAt := now) else queue[id]
  }

  ghost function Rearm(s: State, org: Id, cap: int, now: int): State {
    if cap <= 0 then s
    else s.(queue := Requeued(s.queue, Rearmed(s, org, cap, now), now))
  }

  /* ---- exactly once ---- */

  /** The earnings rows written for one charge. */
  function EarningsOf(earnings: seq<Earning>, id: Id): seq<Earning>
    decreases |earnings|
  {
    if earnings == [] then []
    else
      var last := earnings[|earnings| - 1];
      EarningsOf(earnings[..|earnings| - 1], id) + (if last.settlement == id then [last] else [])
  }

  /** The ledger debits written for one charge. */
  function DebitsOf(entries: seq<Entry>, id: Id): seq<Entry>
    decreases |entries|
  {
    if entries == [] then []
    else
      var last := entries[|entries| - 1];
      DebitsOf(entries[..|entries| - 1], id) + (if last.purpose == Retry(id) then [last] else [])
  }

  predicate DebitFor(e: Entry, id: Id, c: Charge) {
    e.kind == Outgoing && e.purpose == Retry(id) && e.org == c.org && e.amount == c.amount && e.principal == c.who
  }

  ghost predicate ChargeInv(s: State, id: Id)
    requires id in s.queue
  {
    var c, debits := s.queue[id], DebitsOf(s.book.entries, id);
    && c.amount > 0
    && id in s.leases
    && (if c.status == Settled then |debits| == 1 && DebitFor(debits[0], id, c) else debits == [])
    && EarningsOf(s.earnings, id) == if c.status == Settled then Payouts(id, c.allocations) else []
  }

  predicate SameCharge(a: Charge, b: Charge) {
    a.org == b.org && a.amount == b.amount && a.who == b.who && a.rail == b.rail && a.allocations == b.allocations
    && a.maxRetries == b.maxRetries && a.createdAt == b.createdAt
  }

  /** Each charge has one debit and one set of earnings exactly when it is settled; no debit or
      earning is written for an unknown charge; a worker's copy agrees with its row. */
  ghost predicate Inv(s: State) {
    && (forall id {:trigger ChargeInv(s, id)} :: id in s.queue ==> ChargeInv(s, id))
    && (forall i :: 0 <= i < |s.book.entries| && s.book.entries[i].purpose.Retry? ==>
        s.book.entries[i].purpose.settlement in s.queue)
    && (forall i :: 0 <= i < |s.earnings| ==> s.earnings[i].settlement in s.queue)
    && (forall c :: c in s.claims ==> c.id in s.queue && SameCharge(c.row, s.queue[c.id]))
  }

  lemma {:induction false} EarningsAppend(a: seq<Earning>, b: seq<Earning>, id: Id)
    ensures EarningsOf(a + b, id) == EarningsOf(a, id) + EarningsOf(b, id)
    decreases |b|
  {
    if b == [] {
      assert a + b == a;
    } else {
      EarningsAppend(a, b[..|b| - 1], id);
      assert (a + b)[..|a + b| - 1] == a + b[..|b| - 1];
    }
  }

  lemma {:induction false} PayoutsBelong(id: Id, allocations: seq<Allocation>, other: Id)
    ensures EarningsOf(Payouts(id, allocations), other) == if other == id then Payouts(id, allocations) else []
    ensures forall i :: 0 <= i < |Payouts(id, allocations)| ==> Payouts(id, allocations)[i].settlement == id
    decreases |allocations|
  {
    if allocations != [] {
      PayoutsBelong(id, allocations[1..], other);
      var first := Payout(id, allocations[0]);
      EarningsAppend(first, Payouts(id, allocations[1..]), other);
      assert |first| == 1 ==> first[..0] == [];
    }
  }

  lemma {:induction false} NothingForUnknown(entries: seq<Entry>, earnings: seq<Earning>, id: Id)
    requires forall i :: 0 <= i < |entries| ==> entries[i].purpose != Retry(id)
    requires forall i :: 0 <= i < |earnings| ==> earnings[i].settlement != id
    ensures DebitsOf(entries, id) == [] && EarningsOf(earnings, id) == []
    decreases |entries| + |earnings|
  {
    if entries != [] {
      NothingForUnknown(entries[..|entries| - 1], earnings, id);
    } else if earnings != [] {
      NothingForUnknown(entries, earnings[..|earnings| - 1], id);
    }
  }

  lemma DebitsSnoc(entries: seq<Entry>, e: Entry, id: Id)
    ensures DebitsOf(entries + [e], id) == DebitsOf(entries, id) + if e.purpose == Retry(id) then [e] else []
  {
    assert (entries + [e])[..|entries|] == entries;
  }

  /** Ledger rows of other protocols leave every charge alone. */
  lemma ForeignRowKeepsInv(s: State, book: Book, e: Entry)
    requires Inv(s) && book.entries == s.book.entries + [e] && !e.purpose.Retry?
    ensures Inv(s.(book := book))
  {
    var s' := s.(book := book);
    forall id | id in s'.queue ensures ChargeInv(s', id) {
      assert ChargeInv(s, id);
      DebitsSnoc(s.book.entries, e, id);
    }
  }

  lemma EnqueueKeepsInv(s: State, id: Id, c: Charge, now: int)
    requires Inv(s)
    ensures Inv(Enqueue(s, id, c, now))
  {
    if c.amount > 0 && id !in s.queue {
      var s' := Enqueue(s, id, c, now);
      NothingForUnknown(s.book.entries, s.earnings, id);
      forall k | k in s'.queue ensures ChargeInv(s', k) {
        assert k != id ==> ChargeInv(s, k);
      }
    }
  }

  /** Moving rows between statuses other than settled keeps the invariant. */
  lemma RequeueKeepsInv(s: State, s': State)
    requires Inv(s)
    requires s'.book == s.book && s'.earnings == s.earnings && s'.queue.Keys == s.queue.Keys
    requires s.leases.Keys <= s'.leases.Keys
    requires forall id :: id in s.queue ==>
               SameCharge(s.queue[id], s'.queue[id])
                   && (s.queue[id].status == Settled <==> s'.queue[id].status == Settled)
    requires forall c :: c in s'.claims ==> c in s.claims || (c.id in s'.queue && c.row == s'.queue[c.id])
    ensures Inv(s')
  {
    forall id | id in s'.queue ensures ChargeInv(s', id) {
      assert ChargeInv(s, id);
    }
  }

  /** s' is s after claim c was settled by ledger row e. */
  ghost predicate SettledBy(s: State, s': State, c: Claim, e: Entry) {
    && c.id in s.queue && s.queue[c.id].status == Retrying
    && DebitFor(e, c.id, c.row)
    && s'.book.entries == s.book.entries + [e]
    && s'.queue == s.queue[c.id := s.queue[c.id].(status := Settled, retries := c.row.retries + 1)]
    && s'.earnings == s.earnings + Payouts(c.id, c.row.allocations)
    && s'.claims == s.claims - {c}
    && s'.leases == s.leases
  }

  lemma SettledChargesInv(s: State, s': State, c: Claim, e: Entry)
    requires Inv(s) && c in s.claims && SettledBy(s, s', c, e)
    ensures forall id {:trigger ChargeInv(s', id)} :: id in s.queue ==> ChargeInv(s', id)
  {
    forall id | id in s.queue ensures ChargeInv(s', id) {
      assert ChargeInv(s, id);
      DebitsSnoc(s.book.entries, e, id);
      EarningsAppend(s.earnings, Payouts(c.id, c.row.allocations), id);
      PayoutsBelong(c.id, c.row.allocations, id);
    }
  }

  lemma SettledByKeepsInv(s: State, s': State, c: Claim, e: Entry)
    requires Inv(s) && c in s.claims && SettledBy(s, s', c, e)
    ensures Inv(s')
  {
    SettledChargesInv(s, s', c, e);
    PayoutsBelong(c.id, c.row.allocations, c.id);
  }

  lemma SettleKeepsInv(cfg: Settings, s: State, c: Claim, now: int)
    requires Inv(s)
    ensures Inv(Settle(cfg, s, c, now))
  {
    if MaySettle(cfg, s, c, now) {
      var s' := Settle(cfg, s, c, now);
      SettledByKeepsInv(s, s', c, s'.book.entries[|s.book.entries|]);
    }
  }

  /* ---- who is paid ---- */

  /** An allocation that earns its author something: readable, accepted by the database, of positive
      cost, and for a tool of another org than the caller's. */
  predicate Earns(a: Allocation) {
    a.wellFormed && !a.rejected && a.cost > 0 && a.author != a.caller
  }

  /** The rows pay for exactly these allocations, each once and in order, and every row carries its own
      allocation's author, tool, caller and cost. */
  ghost predicate PaysFor(rows: seq<Earning>, id: Id, allocations: seq<Allocation>, paid: seq<nat>) {
    && |rows| == |paid|
    && (forall i, j :: 0 <= i < j < |paid| ==> paid[i] < paid[j])
    && (forall k :: k in paid <==> 0 <= k < |allocations| && Earns(allocations[k]))
    && forall i :: 0 <= i < |rows| ==>
         && rows[i].settlement == id && paid[i] < |allocations|
         && rows[i].author == allocations[paid[i]].author
         && rows[i].tool == allocations[paid[i]].tool
         && rows[i].caller == allocations[paid[i]].caller
         && rows[i].amount == allocations[paid[i]].cost
  }

  lemma {:induction false} PayoutsSnoc(id: Id, allocations: seq<Allocation>, a: Allocation)
    ensures Payouts(id, allocations + [a]) == Payouts(id, allocations) + Payout(id, a)
    decreases |allocations|
  {
    if allocations == [] {
      assert allocations + [a] == [a] && [a][1..] == [];
    } else {
      assert (allocations + [a])[1..] == allocations[1..] + [a];
      PayoutsSnoc(id, allocations[1..], a);
    }
  }

  lemma PaysForOneMore(rows: seq<Earning>, id: Id, allocations: seq<Allocation>, paid: seq<nat>, a: Allocation)
    requires PaysFor(rows, id, allocations, paid)
    ensures PaysFor(rows + Payout(id, a), id, allocations + [a], paid + if Earns(a) then [|allocations|] else [])
  {
    assert forall k :: 0 <= k < |allocations| ==> (allocations + [a])[k] == allocations[k];
    assert forall i :: 0 <= i < |paid| ==> paid[i] in paid;
  }

  /** The rows a settlement writes pay for the allocations that earn something, and for no other. */
  lemma {:induction false} PayoutsPayFor(id: Id, allocations: seq<Allocation>) returns (paid: seq<nat>)
    ensures PaysFor(Payouts(id, allocations), id, allocations, paid)
    decreases |allocations|
  {
    if allocations == [] {
      paid := [];
    } else {
      var n := |allocations| - 1;
      var before := PayoutsPayFor(id, allocations[..n]);
      assert allocations[..n] + [allocations[n]] == allocations;
      PayoutsSnoc(id, allocations[..n], allocations[n]);
      PaysForOneMore(Payouts(id, allocations[..n]), id, allocations[..n], before, allocations[n]);
      paid := before + if Earns(allocations[n]) then [n] else [];
    }
  }

  /** What the earnings table holds for one author from one charge. */
  function PaidTo(earnings: seq<Earning>, id: Id, author: Id): int
    decreases |earnings|
  {
    if earnings == [] then 0
    else
      var last := earnings[|earnings| - 1];
      PaidTo(earnings[..|earnings| - 1], id, author)
          + (if last.settlement == id && last.author == author then last.amount else 0)
  }

  /** What a charge's allocations owe one author. */
  function OwedTo(allocations: seq<Allocation>, author: Id): int
    decreases |allocations|
  {
    if allocations == [] then 0
    else
      var a := allocations[|allocations| - 1];
      OwedTo(allocations[..|allocations| - 1], author) + (if Earns(a) && a.author == author then a.cost else 0)
  }

  lemma {:induction false} PaidAppend(a: seq<Earning>, b: seq<Earning>, id: Id, author: Id)
    ensures PaidTo(a + b, id, author) == PaidTo(a, id, author) + PaidTo(b, id, author)
    decreases |b|
  {
    if b == [] {
      assert a + b == a;
    } else {
      PaidAppend(a, b[..|b| - 1], id, author);
      assert (a + b)[..|a + b| - 1] == a + b[..|b| - 1];
    }
  }

  lemma {:induction false} PaidOnlyByOwnRows(earnings: seq<Earning>, id: Id, author: Id)
    ensures PaidTo(earnings, id, author) == PaidTo(EarningsOf(earnings, id), id, author)
    decreases |earnings|
  {
    if earnings != [] {
      var rest, last := earnings[..|earnings| - 1], earnings[|earnings| - 1];
      PaidOnlyByOwnRows(rest, id, author);
      if last.settlement == id {
        PaidAppend(EarningsOf(rest, id), [last], id, author);
        assert [last][..0] == [] && PaidTo([], id, author) == 0;
      } else {
        assert EarningsOf(earnings, id) == EarningsOf(rest, id);
      }
    }
  }

  lemma {:induction false} PayoutsOwe(id: Id, allocations: seq<Allocation>, author: Id)
    ensures PaidTo(Payouts(id, allocations), id, author) == OwedTo(allocations, author)
    decreases |allocations|
  {
    if allocations != [] {
      var n := |allocations| - 1;
      PayoutsOwe(id, allocations[..n], author);
      PayoutsSnoc(id, allocations[..n], allocations[n]);
      assert allocations[..n] + [allocations[n]] == allocations;
      PaidAppend(Payouts(id, allocations[..n]), Payout(id, allocations[n]), id, author);
      assert |Payout(id, allocations[n])| == 1 ==> Payout(id, allocations[n])[..0] == [];
    }
  }

  /* ---- the lease fence ---- */

  ghost predicate Increasing(s: seq<int>) {
    forall i, j :: 0 <= i < j < |s| ==> s[i] < s[j]
  }

  /** When the row's latest lease was handed out. */
  function LastClaim(leases: seq<int>): int
    requires leases != []
  {
    leases[|leases| - 1] - LEASE
  }

  /** The row was claimed again after this claim. */
  predicate Superseded(s: State, c: Claim)
    requires c.id in s.leases
  {
    s.leases[c.id] == [] || c.row.nextRetryAt != s.leases[c.id][|s.leases[c.id]| - 1]
  }

  ghost predicate RowFenced(c: Charge, leases: seq<int>) {
    && Increasing(leases)
    && (leases != [] && (c.status == Waiting || c.status == Retrying) ==> c.nextRetryAt > LastClaim(leases))
  }

  ghost predicate ClaimFenced(s: State, c: Claim)
    requires c.id in s.queue && c.id in s.leases
  {
    var leases := s.leases[c.id];
    && leases != []
    && (Superseded(s, c) ==> c.row.nextRetryAt <= LastClaim(leases))
    && (!Superseded(s, c) ==> LeaseMatches(s, c))
  }

  /** Leases of a row strictly increase, and a superseded claim lies before the latest one. */
  ghost predicate Fenced(s: State) {
    && s.queue.Keys <= s.leases.Keys
    && (forall id :: id in s.queue ==> RowFenced(s.queue[id], s.leases[id]))
    && (forall c :: c in s.claims ==> c.id in s.queue && ClaimFenced(s, c))
    && (forall c, d :: c in s.claims && d in s.claims && c.id == d.id && c.row.nextRetryAt == d.row.nextRetryAt ==>
        c == d)
  }

  /** A stale worker's writes change nothing but its own bookkeeping. */
  lemma SupersededWritesAreIgnored(cfg: Settings, s: State, c: Claim, now: int)
    requires Fenced(s) && c in s.claims && Superseded(s, c)
    ensures Settle(cfg, s, c, now) == s
    ensures RecordFailure(s, c, now) == Abandon(s, c)
  {
    assert RowFenced(s.queue[c.id], s.leases[c.id]) && ClaimFenced(s, c);
  }

  lemma ClaimedRowFenced(s: State, picked: set<Id>, now: int, id: Id)
    requires Fenced(s) && id in s.queue
    ensures var s' := ClaimDue(s, picked, now);
            id in s'.queue && id in s'.leases && RowFenced(s'.queue[id], s'.leases[id])
  {
    assert RowFenced(s.queue[id], s.leases[id]);
  }

  lemma OldClaimFenced(s: State, picked: set<Id>, now: int, c: Claim)
    requires Fenced(s) && c in s.claims
    ensures var s' := ClaimDue(s, picked, now);
            c.id in s'.queue && c.id in s'.leases && ClaimFenced(s', c)
    ensures var s' := ClaimDue(s, picked, now);
            s' != s && c.id in picked && Due(s.queue[c.id], now) ==> c.row.nextRetryAt < now + LEASE
  {
    assert RowFenced(s.queue[c.id], s.leases[c.id]) && ClaimFenced(s, c);
  }

  lemma ClaimKeepsFence(s: State, picked: set<Id>, now: int)
    requires Fenced(s)
    ensures Fenced(ClaimDue(s, picked, now))
  {
    var s' := ClaimDue(s, picked, now);
    if s' != s {
      forall id | id in s'.queue ensures RowFenced(s'.queue[id], s'.leases[id]) {
        ClaimedRowFenced(s, picked, now, id);
      }
      forall c | c in s'.claims ensures c.id in s'.queue && ClaimFenced(s', c) {
        if c in s.claims {
          OldClaimFenced(s, picked, now, c);
        } else {
          assert c.row == s'.queue[c.id];
        }
      }
      forall c, d | c in s'.claims && d in s'.claims && c.id == d.id && c.row.nextRetryAt == d.row.nextRetryAt
          ensures c == d {
        if c in s.claims {
          OldClaimFenced(s, picked, now, c);
        }
        if d in s.claims {
          OldClaimFenced(s, picked, now, d);
        }
      }
    }
  }

  /** The clock a failing worker reads is not behind its own claim. */
  predicate AfterOwnClaim(c: Claim, now: int) {
    now >= c.row.nextRetryAt - LEASE
  }

  /** The clock a reset reads is past the row's latest claim. */
  predicate AfterLastClaim(s: State, id: Id, now: int) {
    id in s.leases && s.leases[id] != [] ==> now > LastClaim(s.leases[id])
  }

  /** The retry time a failure write would set lies past the row's latest claim. */
  predicate RetriesAfterLastClaim(s: State, c: Claim, now: int)
    requires c.id in s.leases
  {
    s.leases[c.id] != [] ==> now + Backoff(NextRetries(c)) > LastClaim(s.leases[c.id])
  }

  /** The write re-queues the row: the claim is live and the attempt was not the last one. */
  predicate Requeues(s: State, c: Claim) {
    c in s.claims && LeaseMatches(s, c) && NextRetries(c) < c.row.maxRetries
  }

  /** A failure write keeps the fence exactly when it does not re-queue, or its retry time lies past
      the row's latest claim. */
  lemma FailureKeepsFenceIff(s: State, c: Claim, now: int)
    requires Fenced(s)
    ensures Fenced(RecordFailure(s, c, now)) <==> (Requeues(s, c) ==> RetriesAfterLastClaim(s, c, now))
  {
    var s' := RecordFailure(s, c, now);
    if c in s.claims {
      assert ClaimFenced(s, c) && RowFenced(s.queue[c.id], s.leases[c.id]);
      if Requeues(s, c) ==> RetriesAfterLastClaim(s, c, now) {
        forall id | id in s'.queue ensures RowFenced(s'.queue[id], s'.leases[id]) {
          assert RowFenced(s.queue[id], s.leases[id]);
        }
        forall d | d in s'.claims ensures d.id in s'.queue && ClaimFenced(s', d) {
          assert ClaimFenced(s, d);
        }
      } else {
        assert !RowFenced(s'.queue[c.id], s'.leases[c.id]);
      }
    }
  }

  /** A clock that is not behind the worker's own claim is enough. */
  lemma OwnClaimSuffices(s: State, c: Claim, now: int)
    requires Fenced(s) && c in s.claims && AfterOwnClaim(c, now)
    ensures Requeues(s, c) ==> RetriesAfterLastClaim(s, c, now)
  {
    assert ClaimFenced(s, c) && RowFenced(s.queue[c.id], s.leases[c.id]);
  }

  /** Re-queueing exhausted rows keeps the fence exactly when the clock is past each row's latest claim. */
  lemma RequeueKeepsFenceIff(s: State, ids: set<Id>, now: int)
    requires Fenced(s)
    requires forall id :: id in ids ==> id in s.queue && s.queue[id].status == Exhausted
    ensures Fenced(s.(queue := Requeued(s.queue, ids, now))) <==> forall id :: id in ids ==> AfterLastClaim(s, id, now)
  {
    var s' := s.(queue := Requeued(s.queue, ids, now));
    if forall id :: id in ids ==> AfterLastClaim(s, id, now) {
      forall id | id in s'.queue ensures RowFenced(s'.queue[id], s'.leases[id]) {
        assert RowFenced(s.queue[id], s.leases[id]);
      }
      forall c | c in s'.claims ensures c.id in s'.queue && ClaimFenced(s', c) {
        assert ClaimFenced(s, c);
      }
    } else {
      var id :| id in ids && !AfterLastClaim(s, id, now);
      assert !RowFenced(s'.queue[id], s'.leases[id]);
    }
  }

  predicate Resettable(s: State, id: Id) {
    id in s.queue && s.queue[id].status == Exhausted && s.queue[id].rail != X402
  }

  lemma ResetKeepsFenceIff(s: State, id: Id, now: int)
    requires Fenced(s)
    ensures Fenced(Reset(s, id, now)) <==> (Resettable(s, id) ==> AfterLastClaim(s, id, now))
  {
    if Resettable(s, id) {
      RequeueKeepsFenceIff(s, {id}, now);
      assert Requeued(s.queue, {id}, now) == Reset(s, id, now).queue;
    }
  }

  lemma RearmKeepsFenceIff(s: State, org: Id, cap: int, now: int)
    requires Fenced(s)
    ensures Fenced(Rearm(s, org, cap, now)) <==>
            (cap > 0 ==> forall id :: id in Rearmed(s, org, cap, now) ==> AfterLastClaim(s, id, now))
  {
    if cap > 0 {
      RequeueKeepsFenceIff(s, Rearmed(s, org, cap, now), now);
    }
  }

  /** An open row that may be claimed at or before its latest claim loses the order of its leases
      with the very next claim. */
  lemma UnfencedRowLosesOrder(s: State, id: Id)
    requires id in s.queue && id in s.leases && s.leases[id] != []
    requires s.queue[id].status == Waiting || s.queue[id].status == Retrying
    requires s.queue[id].nextRetryAt <= LastClaim(s.leases[id])
    ensures !Increasing(ClaimDue(s, {id}, s.queue[id].nextRetryAt).leases[id])
  {
    var before, after := s.leases[id], ClaimDue(s, {id}, s.queue[id].nextRetryAt).leases[id];
    assert after == before + [s.queue[id].nextRetryAt + LEASE];
    assert after[|before| - 1] >= after[|before|];
  }

  /** Other tables, and claims that are dropped, do not matter to the fence. */
  lemma FenceIsLocal(s: State, s': State)
    requires Fenced(s) && s'.queue == s.queue && s'.leases == s.leases && s'.claims <= s.claims
    ensures Fenced(s')
  {
    forall d | d in s'.claims ensures d.id in s'.queue && ClaimFenced(s', d) {
      assert ClaimFenced(s, d);
    }
  }

  lemma SettleKeepsFence(cfg: Settings, s: State, c: Claim, now: int)
    requires Fenced(s)
    ensures Fenced(Settle(cfg, s, c, now))
  {
    var s' := Settle(cfg, s, c, now);
    if s' != s {
      forall id | id in s'.queue ensures RowFenced(s'.queue[id], s'.leases[id]) {
        assert RowFenced(s.queue[id], s.leases[id]);
      }
      forall d | d in s'.claims ensures d.id in s'.queue && ClaimFenced(s', d) {
        assert ClaimFenced(s, d) && ClaimFenced(s, c);
      }
    }
  }

  /** Exactly when the failure write itself lands on the lease of an older claim. */
  lemma BackoffRevivesStaleClaimIff(s: State, current: Claim, stale: Claim, now: int)
    requires Fenced(s) && current in s.claims && stale in s.claims && current.id == stale.id
    requires !Superseded(s, current) && Superseded(s, stale)
    requires NextRetries(current) < current.row.maxRetries
    ensures LeaseMatches(RecordFailure(s, current, now), stale) <==>
            now + Backoff(NextRetries(current)) == stale.row.nextRetryAt
    ensures AfterOwnClaim(current, now) ==> !LeaseMatches(RecordFailure(s, current, now), stale)
  {
    assert ClaimFenced(s, current) && ClaimFenced(s, stale);
  }

  /** One waiting charge and no claims. */
  function OneCharge(row: Charge): State {
    State(Book(map[], map[], []), map[0 := row], [], {}, map[0 := []])
  }

  lemma OneChargeIsSound(row: Charge)
    requires row.amount > 0 && row.status == Waiting
    ensures Inv(OneCharge(row)) && Fenced(OneCharge(row))
  {
    assert ChargeInv(OneCharge(row), 0);
  }

  /** A charge claimed at two seconds and, when that lease has run out, by a second worker. */
  const CLAIMED_TWICE := Charge(0, 10, None, Credit, [], 5, 0, Waiting, 0, 2 * SECOND)
  const STALE := Claim(0, Leased(CLAIMED_TWICE, 2 * SECOND))
  const CURRENT := Claim(0, Leased(CLAIMED_TWICE, 302 * SECOND))

  function Claimed(): State {
    ClaimDue(OneCharge(CLAIMED_TWICE), {0}, 2 * SECOND)
  }

  function ClaimedTwice(): State {
    ClaimDue(Claimed(), {0}, 302 * SECOND)
  }

  lemma ClaimedTwiceIsFenced()
    ensures var s := ClaimedTwice();
            && Fenced(s) && STALE in s.claims && CURRENT in s.claims
            && s.queue == map[0 := CURRENT.row] && s.leases == map[0 := [302 * SECOND, 602 * SECOND]]
  {
    hide ClaimDue, Fenced;
    OneChargeIsSound(CLAIMED_TWICE);
    ClaimKeepsFence(OneCharge(CLAIMED_TWICE), {0}, 2 * SECOND);
    ClaimKeepsFence(Claimed(), {0}, 302 * SECOND);
    ClaimOne(OneCharge(CLAIMED_TWICE), CLAIMED_TWICE, 2 * SECOND);
    assert OneCharge(CLAIMED_TWICE).leases[0] + [2 * SECOND + LEASE] == [302 * SECOND];
    assert Claimed().leases == map[0 := [302 * SECOND]];
    ClaimOne(Claimed(), STALE.row, 302 * SECOND);
    assert Claimed().leases[0] + [302 * SECOND + LEASE] == [302 * SECOND, 602 * SECOND];
    assert Leased(STALE.row, 302 * SECOND) == CURRENT.row;
  }

  /** Without causal clocks the fence fails: a second worker whose failure write reads a clock two
      seconds behind its claim puts the row back under the first worker's lease. */
  lemma SkewedClockRevivesStaleClaim()
    ensures Fenced(ClaimedTwice()) && STALE in ClaimedTwice().claims && Superseded(ClaimedTwice(), STALE)
    ensures CURRENT in ClaimedTwice().claims && !AfterOwnClaim(CURRENT, 300 * SECOND)
    ensures LeaseMatches(RecordFailure(ClaimedTwice(), CURRENT, 300 * SECOND), STALE)
  {
    hide ClaimDue;
    ClaimedTwiceIsFenced();
    RetryAfterTwoSeconds(ClaimedTwice(), CURRENT, 300 * SECOND);
  }

  lemma RetryAfterTwoSeconds(s: State, c: Claim, now: int)
    requires c in s.claims && LeaseMatches(s, c) && c.row.rail == Credit && c.row.retries == 0 && c.row.maxRetries > 1
    ensures c.id in RecordFailure(s, c, now).queue
    ensures RecordFailure(s, c, now).queue[c.id] == s.queue[c.id].(retries := 1, nextRetryAt := now + 2 * SECOND)
  {
    assert Arithmetic.Pow2(1) == 2;
  }

  /** Claiming the only row of a queue. */
  lemma ClaimOne(s: State, row: Charge, now: int)
    requires s.queue == map[0 := row] && 0 in s.leases && Due(row, now)
    ensures var s' := ClaimDue(s, {0}, now);
            && s'.queue == map[0 := Leased(row, now)] && Claim(0, Leased(row, now)) in s'.claims
                && s.claims <= s'.claims
            && s'.leases == s.leases[0 := s.leases[0] + [now + LEASE]]
  {
    assert DueIn(s.queue, {0}, now) == {0};
  }

  lemma EnqueueKeepsFence(s: State, id: Id, c: Charge, now: int)
    requires Inv(s) && Fenced(s)
    ensures Fenced(Enqueue(s, id, c, now))
  {
    var s' := Enqueue(s, id, c, now);
    if s' != s {
      forall k | k in s'.queue ensures RowFenced(s'.queue[k], s'.leases[k]) {
        assert k != id ==> RowFenced(s.queue[k], s.leases[k]);
      }
      forall d | d in s'.claims ensures d.id in s'.queue && ClaimFenced(s', d) {
        assert ClaimFenced(s, d);
      }
    }
  }

  /* ---- the transactions as steps ---- */

  datatype Op =
    | EnqueueOp(id: Id, entry: Charge, now: int)
    | ClaimOp(picked: set<Id>, now: int)
    | SettleOp(claim: Claim, now: int)
    | RecordFailureOp(claim: Claim, now: int)
    | AbandonOp(claim: Claim)
    | ResetOp(id: Id, now: int)
    | RearmOp(org: Id, cap: int, now: int)

  ghost function Apply(cfg: Settings, s: State, op: Op): State {
    match op
    case EnqueueOp(id, entry, now) => Enqueue(s, id, entry, now)
    case ClaimOp(picked, now) => ClaimDue(s, picked, now)
    case SettleOp(claim, now) => Settle(cfg, s, claim, now)
    case RecordFailureOp(claim, now) => RecordFailure(s, claim, now)
    case AbandonOp(claim) => Abandon(s, claim)
    case ResetOp(id, now) => Reset(s, id, now)
    case RearmOp(org, cap, now) => Rearm(s, org, cap, now)
  }

  lemma ApplyExtends(cfg: Settings, s: State, op: Op)
    ensures Extends(s.book, Apply(cfg, s, op).book)
    ensures var b, b' := s.book, Apply(cfg, s, op).book;
            |b'.entries| > |b.entries| ==>
                b'.entries[|b.entries|].purpose.Retry? && b'.entries[|b.entries|].reverses == None
  {
  }

  lemma ClaimKeepsInv(s: State, picked: set<Id>, now: int)
    requires Inv(s)
    ensures Inv(ClaimDue(s, picked, now))
  {
    RequeueKeepsInv(s, ClaimDue(s, picked, now));
  }

  lemma FailureKeepsInv(s: State, c: Claim, now: int)
    requires Inv(s)
    ensures Inv(RecordFailure(s, c, now)) && Inv(Abandon(s, c))
  {
    RequeueKeepsInv(s, RecordFailure(s, c, now));
    RequeueKeepsInv(s, Abandon(s, c));
  }

  lemma ResetKeepsInv(s: State, id: Id, now: int)
    requires Inv(s)
    ensures Inv(Reset(s, id, now))
  {
    RequeueKeepsInv(s, Reset(s, id, now));
  }

  lemma RearmKeepsInv(s: State, org: Id, cap: int, now: int)
    requires Inv(s)
    ensures Inv(Rearm(s, org, cap, now))
  {
    hide ChargeInv;
    RequeueKeepsInv(s, Rearm(s, org, cap, now));
  }

  lemma ApplyKeepsInv(cfg: Settings, s: State, op: Op)
    requires Inv(s)
    ensures Inv(Apply(cfg, s, op))
  {
    match op
    case EnqueueOp(id, entry, now) => EnqueueKeepsInv(s, id, entry, now);
    case SettleOp(c, now) => SettleKeepsInv(cfg, s, c, now);
    case ClaimOp(picked, now) => ClaimKeepsInv(s, picked, now);
    case RecordFailureOp(c, now) => FailureKeepsInv(s, c, now);
    case AbandonOp(c) => FailureKeepsInv(s, c, 0);
    case ResetOp(id, now) => ResetKeepsInv(s, id, now);
    case RearmOp(org, cap, now) => RearmKeepsInv(s, org, cap, now);
  }

  /** A settled charge is never claimed, retried, exhausted, reset or re-armed again. */
  lemma SettledIsFinal(cfg: Settings, s: State, op: Op, id: Id)
    requires id in s.queue && s.queue[id].status == Settled
    ensures id in Apply(cfg, s, op).queue && Apply(cfg, s, op).queue[id] == s.queue[id]
  {
  }

  lemma ApplyKeepsBook(cfg: Settings, s: State, op: Op)
    requires Inv(s) && BookInv(s.book)
    ensures BookInv(Apply(cfg, s, op).book)
  {
    if op.SettleOp? && MaySettle(cfg, s, op.claim, op.now) {
      var c := op.claim;
      assert ChargeInv(s, c.id);
      DebitKeepsBook(cfg, s.book, c.row.org, c.row.amount, Retry(c.id), c.row.who, op.now);
    }
  }

  lemma ApplyKeepsPause(cfg: Settings, s: State, op: Op, org: Id, who: Option<Id>)
    requires Paused(s.book, org, who)
    ensures var b := Apply(cfg, s, op).book;
            Paused(b, org, who) && NoDebitsFrom(b.entries, |s.book.entries|, org, who)
  {
  }

  lemma ApplyKeepsWindows(cfg: Settings, s: State, op: Op, org: Id, who: Option<Id>, cap: int)
    requires Inv(s) && BookInv(s.book) && Limited(cfg, s.book, org, who, cap)
    ensures NoneRisesAbove(s.book.entries, Apply(cfg, s, op).book.entries, org, who, cap)
  {
    if op.SettleOp? && MaySettle(cfg, s, op.claim, op.now) {
      var c := op.claim;
      assert ChargeInv(s, c.id);
      DebitKeepsWindows(cfg, s.book, c.row.org, c.row.amount, Retry(c.id), c.row.who, op.now, org, who, cap);
    }
  }

  /** What a step's clock must meet for the fence to hold after it. */
  ghost predicate Timely(s: State, op: Op) {
    match op
    case RecordFailureOp(c, now) => c.id in s.leases && Requeues(s, c) ==> RetriesAfterLastClaim(s, c, now)
    case ResetOp(id, now) => Resettable(s, id) ==> AfterLastClaim(s, id, now)
    case RearmOp(org, cap, now) =>
      cap > 0 ==> forall id :: id in Rearmed(s, org, cap, now) ==> AfterLastClaim(s, id, now)
    case _ => true
  }

  /** A step keeps the fence if and only if its clock is timely. */
  lemma ApplyKeepsFenceIff(cfg: Settings, s: State, op: Op)
    requires Inv(s) && Fenced(s)
    ensures Fenced(Apply(cfg, s, op)) <==> Timely(s, op)
  {
    match op
    case EnqueueOp(id, entry, now) => EnqueueKeepsFence(s, id, entry, now);
    case ClaimOp(picked, now) => ClaimKeepsFence(s, picked, now);
    case SettleOp(c, now) => SettleKeepsFence(cfg, s, c, now);
    case RecordFailureOp(c, now) => FailureKeepsFenceIff(s, c, now);
    case AbandonOp(c) => FenceIsLocal(s, Abandon(s, c));
    case ResetOp(id, now) => ResetKeepsFenceIff(s, id, now);
    case RearmOp(org, cap, now) => RearmKeepsFenceIff(s, org, cap, now);
  }

  /** A plain clock assumption that is enough: a worker's failure write is not behind its own claim,
      and a reset or re-arm comes after the row's latest claim. */
  ghost predicate Causal(s: State, op: Op) {
    match op
    case RecordFailureOp(c, now) => AfterOwnClaim(c, now)
    case ResetOp(id, now) => AfterLastClaim(s, id, now)
    case RearmOp(org, cap, now) => forall id :: id in Rearmed(s, org, cap, now) ==> AfterLastClaim(s, id, now)
    case _ => true
  }

  lemma CausalIsTimely(s: State, op: Op)
    requires Fenced(s) && Causal(s, op)
    ensures Timely(s, op)
  {
    if op.RecordFailureOp? && op.claim in s.claims {
      OwnClaimSuffices(s, op.claim, op.now);
    }
  }

  /** Changes to accounts, and ledger rows of other protocols, leave every charge alone. */
  lemma OutsideKeepsInv(s: State, book: Book)
    requires Inv(s) && Extends(s.book, book)
    requires |book.entries| > |s.book.entries| ==> !book.entries[|s.book.entries|].purpose.Retry?
    ensures Inv(s.(book := book))
  {
    if |book.entries| > |s.book.entries| {
      var e := book.entries[|s.book.entries|];
      assert book.entries == s.book.entries + [e];
      ForeignRowKeepsInv(s, book, e);
    } else {
      var s' := s.(book := book);
      assert book.entries == s.book.entries;
      forall id | id in s'.queue ensures ChargeInv(s', id) {
        assert ChargeInv(s, id);
      }
    }
  }

  /* ---- the retry worker ---- */

  /** One claimed row with the clocks of its two transactions and whether the first one crashed. */
  datatype Job = Job(claim: Claim, attemptAt: int, fault: bool, failureAt: int)

  predicate LeaseHeld(s: State, c: Claim, now: int) {
    c in s.claims && LeaseMatches(s, c) && s.queue[c.id].nextRetryAt > now
  }

  function Process(cfg: Settings, s: State, job: Job): State {
    var c := job.claim;
    if c.row.rail != Credit || job.fault then RecordFailure(s, c, job.failureAt)
    else if !LeaseHeld(s, c, job.attemptAt) then Abandon(s, c)
    else if MaySettle(cfg, s, c, job.attemptAt) then Settle(cfg, s, c, job.attemptAt)
    else RecordFailure(s, c, job.failureAt)
  }

  function ProcessAll(cfg: Settings, s: State, jobs: seq<Job>): State
    decreases |jobs|
  {
    if jobs == [] then s else ProcessAll(cfg, Process(cfg, s, jobs[0]), jobs[1..])
  }

  /** Each row the worker counts as processed is one more ledger debit, and no other row is. */
  lemma {:induction false} WorkerDebitsWhatItReports(cfg: Settings, s: State, jobs: seq<Job>)
    requires Inv(s)
    ensures Inv(ProcessAll(cfg, s, jobs))
    ensures |ProcessAll(cfg, s, jobs).book.entries| == |s.book.entries| + Processed(cfg, s, jobs)
    decreases |jobs|
  {
    if jobs != [] {
      SettleKeepsInv(cfg, s, jobs[0].claim, jobs[0].attemptAt);
      FailureKeepsInv(s, jobs[0].claim, jobs[0].failureAt);
      WorkerDebitsWhatItReports(cfg, Process(cfg, s, jobs[0]), jobs[1..]);
    }
  }

  /** The worker's count of successful retries. */
  function Processed(cfg: Settings, s: State, jobs: seq<Job>): nat
    decreases |jobs|
  {
    if jobs == [] then 0
    else
      var done := !jobs[0].fault && MaySettle(cfg, s, jobs[0].claim, jobs[0].attemptAt);
      (if done then 1 else 0) + Processed(cfg, Process(cfg, s, jobs[0]), jobs[1..])
  }

  /** What the worker does with a row it still holds: it settles it, leaves it to its next claim when the
      lease has run out, or records the failure. */
  lemma JobOutcome(cfg: Settings, s: State, job: Job)
    requires job.claim in s.claims && LeaseMatches(s, job.claim)
    ensures var c, after := job.claim, Process(cfg, s, job);
            var row := s.queue[c.id];
            var retries := if c.row.rail == Credit then c.row.retries + 1 else c.row.maxRetries;
            && c.id in after.queue
            && after.queue[c.id] ==
               (if c.row.rail == Credit && !job.fault && row.nextRetryAt <= job.attemptAt then row
                else if c.row.rail == Credit && !job.fault
                        && MayDebit(cfg, s.book, c.row.org, c.row.amount, c.row.who, job.attemptAt)
                then row.(status := Settled, retries := retries)
                else if retries >= c.row.maxRetries then row.(status := Exhausted, retries := retries)
                else row.(retries := retries, nextRetryAt := job.failureAt + Backoff(retries)))
            && c !in after.claims
  {
  }

  /* ---- re-arming ---- */

  lemma {:induction false} YoungestExists(s: State, ids: set<Id>) returns (id: Id)
    requires ids != {} && ids <= s.queue.Keys
    ensures id in ids && forall k :: k in ids ==> NotYounger(s, k, id)
    decreases |ids|
  {
    var first :| first in ids;
    if ids == {first} {
      id := first;
    } else {
      var best := YoungestExists(s, ids - {first});
      id := if NotYounger(s, first, best) then best else first;
      forall k | k in ids ensures NotYounger(s, k, id) {
        assert k == first || NotYounger(s, k, best);
      }
    }
  }

  lemma {:induction false} SubtotalMonotone(small: map<Id, Charge>, big: map<Id, Charge>)
    requires forall k :: k in small ==> k in big && big[k] == small[k]
    requires forall k :: k in big ==> big[k].amount > 0
    ensures Totals.Total(small, AmountOf()) <= Totals.Total(big, AmountOf())
    decreases |big|
  {
    if big == map[] {
      assert small == map[];
    } else {
      var k :| k in big;
      Totals.TotalSplit(big, AmountOf(), k);
      if k in small {
        Totals.TotalSplit(small, AmountOf(), k);
      } else {
        assert small - {k} == small;
      }
      SubtotalMonotone(small - {k}, big - {k});
    }
  }

  /** Re-arming takes the oldest candidates first. */
  lemma ElderRearmedToo(s: State, org: Id, cap: int, now: int, young: Id, elder: Id)
    requires Inv(s) && young in Rearmed(s, org, cap, now)
    requires elder in s.queue && Rearmable(s.queue[elder], org, now) && NotYounger(s, elder, young)
    ensures elder in Rearmed(s, org, cap, now)
  {
    forall k | k in s.queue ensures s.queue[k].amount > 0 {
      assert ChargeInv(s, k);
    }
    SubtotalMonotone(UpTo(s, org, now, elder), UpTo(s, org, now, young));
  }

  function Rows(s: State, ids: set<Id>): map<Id, Charge>
    requires ids <= s.queue.Keys
  {
    Totals.Keep(s.queue, ids)
  }

  lemma YoungestRunningTotal(s: State, org: Id, cap: int, now: int, ids: set<Id>) returns (id: Id)
    requires Inv(s) && ids == Rearmed(s, org, cap, now) && ids != {}
    ensures id in ids && RunningTotal(s, org, now, id) <= cap
    ensures forall k :: k in s.queue ==> (k in ids <==> Rearmable(s.queue[k], org, now) && NotYounger(s, k, id))
  {
    id := YoungestExists(s, ids);
    forall k | k in s.queue ensures k in ids <==> Rearmable(s.queue[k], org, now) && NotYounger(s, k, id) {
      if Rearmable(s.queue[k], org, now) && NotYounger(s, k, id) {
        ElderRearmedToo(s, org, cap, now, id, k);
      }
    }
  }

  /** And it takes all it can: with the oldest candidate left out it would exceed the cap. */
  lemma RearmIsMaximal(s: State, org: Id, cap: int, now: int, ids: set<Id>, next: Id)
    requires Inv(s) && ids == Rearmed(s, org, cap, now)
    requires next in s.queue && Rearmable(s.queue[next], org, now) && next !in ids
    requires forall k :: k in s.queue && k !in ids && Rearmable(s.queue[k], org, now) ==> NotYounger(s, next, k)
    ensures Totals.Total(Rows(s, ids + {next}), AmountOf()) > cap
  {
    forall k | k in ids ensures NotYounger(s, k, next) {
      if !NotYounger(s, k, next) {
        ElderRearmedToo(s, org, cap, now, k, next);
      }
    }
    hide RunningTotal, Inv;
    assert ids + {next} == set k | k in s.queue && Rearmable(s.queue[k], org, now) && NotYounger(s, k, next);
    assert RunningTotal(s, org, now, next) > cap;
    assert Rows(s, ids + {next}) == UpTo(s, org, now, next);
  }

  /** Re-arming never takes more than the cap in total. */
  lemma RearmStaysWithinCap(s: State, org: Id, cap: int, now: int, ids: set<Id>)
    requires Inv(s) && cap > 0 && ids == Rearmed(s, org, cap, now)
    ensures ids <= s.queue.Keys && Totals.Total(Rows(s, ids), AmountOf()) <= cap
  {
    if ids != {} {
      var id := YoungestRunningTotal(s, org, cap, now, ids);
      assert Rows(s, ids) == UpTo(s, org, now, id);
    }
  }
}
