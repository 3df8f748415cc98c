/** The prepaid credit ledger (billing/credit.py, billing/context.py): one balance per org, an
    append-only list of debits and top-ups, and debits bounded by rolling 24-hour limits. */
module Ledger {
  import opened Common

  datatype Kind = Outgoing | Incoming

  /** Why a row was written; the source keeps this in the reason text. */
  datatype Purpose =
    | Direct
    | Funding(delegation: Id)
    | Adjust(delegation: Id)
    | Refund(delegation: Id)
    | Retry(settlement: Id)

  /** A ledger row; its id is its position in the ledger. */
  datatype Entry = Entry(org: Id, kind: Kind, amount: int, balanceAfter: int, purpose: Purpose,
                         principal: Option<Id>, reverses: Option<nat>, externalRef: Option<Id>, createdAt: int)

  datatype Account = Account(balance: int, limit: int, paused: bool)

  datatype PrincipalLimit = PrincipalLimit(limit: int, paused: bool)

  /** Fixed settings: orgs that signed up by machine, their default cap, the treasury cap. */
  datatype Settings = Settings(machineOrgs: set<Id>, machineCap: int, outflowCap: int)

  datatype Book = Book(accounts: map<Id, Account>, principals: map<(Id, Id), PrincipalLimit>, entries: seq<Entry>)

  /* ---- rolling spend ---- */

  /** Which debits to add up: an org, perhaps one principal, from a time, perhaps up to a time. */
  datatype Query = Query(org: Id, who: Option<Id>, from: int, upTo: Option<int>)

  predicate Reversed(entries: seq<Entry>, i: nat) {
    exists j :: 0 <= j < |entries| && entries[j].reverses == Some(i)
  }

  predicate Matches(e: Entry, q: Query) {
    && e.kind == Outgoing
    && e.org == q.org
    && (q.who.Some? ==> e.principal == q.who)
    && q.from <= e.createdAt
    && (q.upTo.Some? ==> e.createdAt <= q.upTo.value)
  }

  function Counted(entries: seq<Entry>, i: nat, q: Query): int
    requires i < |entries|
  {
    if Matches(entries[i], q) && !Reversed(entries, i) then entries[i].amount else 0
  }

  function SpendTo(entries: seq<Entry>, n: nat, q: Query): int
    requires n <= |entries|
  {
    if n == 0 then 0 else SpendTo(entries, n - 1, q) + Counted(entries, n - 1, q)
  }

  /** The unreversed debits that match a query. */
  function Spend(entries: seq<Entry>, q: Query): int {
    SpendTo(entries, |entries|, q)
  }

  /** The sum the limits are checked against: everything since 24 hours before now. */
  function DailySpend(entries: seq<Entry>, org: Id, who: Option<Id>, now: int): int {
    Spend(entries, Query(org, who, now - DAY, None))
  }

  /** The unreversed debits of one closed 24-hour window. */
  function WindowSpend(entries: seq<Entry>, org: Id, who: Option<Id>, start: int): int {
    Spend(entries, Query(org, who, start, Some(start + DAY)))
  }

  /* ---- the transactions ---- */

  function EffectiveLimit(cfg: Settings, b: Book, org: Id): int
    requires org in b.accounts
  {
    var limit := b.accounts[org].limit;
    if org in cfg.machineOrgs && limit <= 0 then cfg.machineCap else limit
  }

  /** Every reason a locked debit is refused, in the order they are checked. */
  predicate MayDebit(cfg: Settings, b: Book, org: Id, amount: int, who: Option<Id>, now: int) {
    && org in b.accounts
    && !b.accounts[org].paused
    && (EffectiveLimit(cfg, b, org) > 0 ==>
          DailySpend(b.entries, org, None, now) + amount <= EffectiveLimit(cfg, b, org))
    && (who.Some? && (org, who.value) in b.principals ==>
          && !b.principals[(org, who.value)].paused
          && DailySpend(b.entries, org, who, now) + amount <= b.principals[(org, who.value)].limit)
    && b.accounts[org].balance >= amount
  }

  /** Moves an existing account's balance and appends the row that says so. */
  function Post(b: Book, org: Id, kind: Kind, amount: int, purpose: Purpose, who: Option<Id>,
                reverses: Option<nat>, externalRef: Option<Id>, now: int): Book
    requires org in b.accounts
  {
    var balance := b.accounts[org].balance + (if kind == Outgoing then -amount else amount);
    b.(accounts := b.accounts[org := b.accounts[org].(balance := balance)],
       entries := b.entries + [Entry(org, kind, amount, balance, purpose, who, reverses, externalRef, now)])
  }

  /** A locked debit: all or nothing. */
  function DebitLocked(cfg: Settings, b: Book, org: Id, amount: int, purpose: Purpose, who: Option<Id>,
                       now: int): Book {
    if MayDebit(cfg, b, org, amount, who, now) then Post(b, org, Outgoing, amount, purpose, who, None, None, now) else b
  }

  /** A direct debit; a non-positive amount is skipped. */
  function Debit(cfg: Settings, b: Book, org: Id, amount: int, who: Option<Id>, now: int): Book {
    if amount <= 0 then b else DebitLocked(cfg, b, org, amount, Direct, who, now)
  }

  predicate RefUsed(entries: seq<Entry>, ref: Option<Id>) {
    ref.Some? && exists i :: 0 <= i < |entries| && entries[i].externalRef == ref
  }

  function BalanceOf(accounts: map<Id, Account>, org: Id): int {
    if org in accounts then accounts[org].balance else 0
  }

  /** The book with an account row for the org. */
  function WithAccount(b: Book, org: Id): Book {
    if org in b.accounts then b else b.(accounts := b.accounts[org := Account(0, 0, false)])
  }

  /** A top-up; it opens the account when there is none. A used external reference and a
      non-positive amount both roll back. */
  function TopUp(b: Book, org: Id, amount: int, ref: Option<Id>, now: int): Book {
    if amount <= 0 || RefUsed(b.entries, ref) then b
    else Post(WithAccount(b, org), org, Incoming, amount, Direct, None, None, ref, now)
  }

  /** An administrator's change of limit, pause flag or both; a negative limit is an error. */
  function Configure(b: Book, org: Id, limit: Option<int>, paused: Option<bool>): Book {
    if org !in b.accounts || (limit.Some? && limit.value < 0) then b
    else
      var row := b.accounts[org];
      b.(accounts := b.accounts[org := row.(limit := if limit.Some? then limit.value else row.limit,
                                            paused := if paused.Some? then paused.value else row.paused)])
  }

  function ConfigurePrincipal(b: Book, org: Id, who: Id, row: PrincipalLimit): Book {
    b.(principals := b.principals[(org, who) := row])
  }

  /** From then on only the org's own limit binds the principal. */
  function DeletePrincipal(b: Book, org: Id, who: Id): Book {
    b.(principals := b.principals - {(org, who)})
  }

  /* ---- conservation ---- */

  /** Top-ups minus debits of an org. */
  function Net(entries: seq<Entry>, org: Id): int
    decreases |entries|
  {
    if entries == [] then 0
    else
      var rest, last := entries[..|entries| - 1], entries[|entries| - 1];
      Net(rest, org) + (if last.org != org then 0 else if last.kind == Outgoing then -last.amount else last.amount)
  }

  ghost predicate Balanced(b: Book) {
    && (forall org :: org in b.accounts ==>
        b.accounts[org].balance == Net(b.entries, org) && b.accounts[org].balance >= 0)
    && (forall org :: org !in b.accounts ==> Net(b.entries, org) == 0)
    && (forall i :: 0 <= i < |b.entries| ==> b.entries[i].balanceAfter == Net(b.entries[..i + 1], b.entries[i].org))
  }

  /** Rows are positive and belong to accounts; a reversal points back at an older debit of its
      org, and no debit is reversed twice; no external reference is credited twice. */
  ghost predicate WellLinked(b: Book) {
    && (forall i :: 0 <= i < |b.entries| ==> b.entries[i].amount > 0 && b.entries[i].org in b.accounts)
    && (forall i :: 0 <= i < |b.entries| && b.entries[i].reverses.Some? ==>
          var d := b.entries[i].reverses.value;
          d < i && b.entries[i].kind == Incoming && b.entries[d].kind == Outgoing
              && b.entries[d].org == b.entries[i].org)
    && (forall i, j :: 0 <= i < j < |b.entries| && b.entries[i].reverses.Some? ==>
        b.entries[i].reverses != b.entries[j].reverses)
    && (forall i, j :: 0 <= i < j < |b.entries| && b.entries[i].externalRef.Some? ==>
        b.entries[i].externalRef != b.entries[j].externalRef)
  }

  ghost predicate BookInv(b: Book) {
    Balanced(b) && WellLinked(b)
  }

  lemma NetSnoc(entries: seq<Entry>, e: Entry, org: Id)
    ensures Net(entries + [e], org) ==
            Net(entries, org) + (if e.org != org then 0 else if e.kind == Outgoing then -e.amount else e.amount)
  {
    assert (entries + [e])[..|entries|] == entries;
  }

  /** Posting keeps the books balanced as long as a debit is covered. */
  lemma PostKeepsBalanced(b: Book, org: Id, kind: Kind, amount: int, purpose: Purpose, who: Option<Id>,
                          reverses: Option<nat>, ref: Option<Id>, now: int)
    requires Balanced(b) && org in b.accounts && amount > 0
    requires kind == Outgoing ==> amount <= b.accounts[org].balance
    ensures Balanced(Post(b, org, kind, amount, purpose, who, reverses, ref, now))
  {
    var b' := Post(b, org, kind, amount, purpose, who, reverses, ref, now);
    var e := b'.entries[|b.entries|];
    forall o ensures Net(b'.entries, o)
        == Net(b.entries, o) + (if o != org then 0 else if kind == Outgoing then -amount else amount) {
      NetSnoc(b.entries, e, o);
    }
    forall i | 0 <= i < |b'.entries| ensures b'.entries[i].balanceAfter == Net(b'.entries[..i + 1], b'.entries[i].org) {
      if i < |b.entries| {
        assert b'.entries[..i + 1] == b.entries[..i + 1];
      } else {
        assert b'.entries[..i + 1] == b'.entries;
      }
    }
  }

  lemma PostKeepsBook(b: Book, org: Id, kind: Kind, amount: int, purpose: Purpose, who: Option<Id>,
                      reverses: Option<nat>, ref: Option<Id>, now: int)
    requires BookInv(b) && org in b.accounts && amount > 0
    requires kind == Outgoing ==> amount <= b.accounts[org].balance && reverses == None
    requires reverses.Some? ==> reverses.value < |b.entries| && b.entries[reverses.value].kind == Outgoing &&
                                b.entries[reverses.value].org == org && !Reversed(b.entries, reverses.value)
    requires !RefUsed(b.entries, ref)
    ensures BookInv(Post(b, org, kind, amount, purpose, who, reverses, ref, now))
  {
    hide Balanced;
    PostKeepsBalanced(b, org, kind, amount, purpose, who, reverses, ref, now);
  }

  lemma WithAccountKeepsBook(b: Book, org: Id)
    requires BookInv(b)
    ensures BookInv(WithAccount(b, org))
  {
  }

  lemma DebitKeepsBook(cfg: Settings, b: Book, org: Id, amount: int, purpose: Purpose, who: Option<Id>, now: int)
    requires BookInv(b) && amount > 0
    ensures BookInv(DebitLocked(cfg, b, org, amount, purpose, who, now))
  {
    if MayDebit(cfg, b, org, amount, who, now) {
      PostKeepsBook(b, org, Outgoing, amount, purpose, who, None, None, now);
    }
  }

  /* ---- rolling windows ---- */

  lemma {:induction false} NarrowerSpendsLess(entries: seq<Entry>, n: nat, narrow: Query, wide: Query)
    requires n <= |entries|
    requires forall i :: 0 <= i < |entries| ==> entries[i].amount > 0
    requires forall i :: 0 <= i < |entries| && Matches(entries[i], narrow) ==> Matches(entries[i], wide)
    ensures SpendTo(entries, n, narrow) <= SpendTo(entries, n, wide)
  {
    if n > 0 {
      NarrowerSpendsLess(entries, n - 1, narrow, wide);
    }
  }

  /** What a row takes out of a spend: the matching debit it reverses, if that still counted. */
  function Undone(entries: seq<Entry>, e: Entry, n: nat, q: Query): int
    requires n <= |entries|
  {
    if e.reverses.Some? && e.reverses.value < n then Counted(entries, e.reverses.value, q) else 0
  }

  lemma {:induction false} SpendPrefix(entries: seq<Entry>, e: Entry, n: nat, q: Query)
    requires n <= |entries|
    ensures SpendTo(entries + [e], n, q) == SpendTo(entries, n, q) - Undone(entries, e, n, q)
  {
    if n > 0 {
      SpendPrefix(entries, e, n - 1, q);
      ReversedSnoc(entries, e, n - 1);
    }
  }

  lemma ReversedSnoc(entries: seq<Entry>, e: Entry, i: nat)
    ensures Reversed(entries + [e], i) <==> Reversed(entries, i) || e.reverses == Some(i)
  {
    if Reversed(entries, i) {
      var j :| 0 <= j < |entries| && entries[j].reverses == Some(i);
      assert (entries + [e])[j].reverses == Some(i);
    }
    if e.reverses == Some(i) {
      assert (entries + [e])[|entries|].reverses == Some(i);
    }
  }

  /** Exactly what a new row does to a spend: it adds its own amount if it is a matching debit, and
      takes out the debit it reverses if that one was still counted. */
  lemma SpendSnoc(entries: seq<Entry>, e: Entry, q: Query)
    requires e.kind == Outgoing ==> !Reversed(entries, |entries|) && e.reverses != Some(|entries|)
    ensures Spend(entries + [e], q) ==
            Spend(entries, q) + (if Matches(e, q) then e.amount else 0) - Undone(entries, e, |entries|, q)
  {
    SpendPrefix(entries, e, |entries|, q);
    ReversedSnoc(entries, e, |entries|);
  }

  /** No 24-hour window of an org (or of one of its principals) spends more than the cap. */
  ghost predicate Within(entries: seq<Entry>, org: Id, who: Option<Id>, cap: int) {
    forall start :: WindowSpend(entries, org, who, start) <= cap
  }

  /** The amounts of the rows at these positions. */
  function AmountsAt(entries: seq<Entry>, at: seq<nat>): int
    requires forall i :: 0 <= i < |at| ==> at[i] < |entries|
    decreases |at|
  {
    if at == [] then 0 else AmountsAt(entries, at[..|at| - 1]) + entries[at[|at| - 1]].amount
  }

  lemma {:induction false} SpendCovers(entries: seq<Entry>, n: nat, q: Query, at: seq<nat>)
    requires n <= |entries| && forall i :: 0 <= i < |entries| ==> entries[i].amount > 0
    requires forall i, j :: 0 <= i < j < |at| ==> at[i] < at[j]
    requires forall i :: 0 <= i < |at| ==> at[i] < n && Matches(entries[at[i]], q) && !Reversed(entries, at[i])
    ensures AmountsAt(entries, at) <= SpendTo(entries, n, q)
    decreases n
  {
    if n > 0 {
      if at != [] && at[|at| - 1] == n - 1 {
        SpendCovers(entries, n - 1, q, at[..|at| - 1]);
      } else {
        assert at != [] ==> forall i :: 0 <= i < |at| ==> at[i] <= at[|at| - 1];
        SpendCovers(entries, n - 1, q, at);
      }
    }
  }

  /** Windows within the cap mean what they say: no choice of debits that the org made within 24 hours of
      each other, and that were not reversed, adds up to more than the cap. */
  lemma ChosenDebitsFit(entries: seq<Entry>, at: seq<nat>, org: Id, who: Option<Id>, start: int, cap: int)
    requires Within(entries, org, who, cap) && forall i :: 0 <= i < |entries| ==> entries[i].amount > 0
    requires forall i, j :: 0 <= i < j < |at| ==> at[i] < at[j]
    requires forall i :: 0 <= i < |at| ==>
               && at[i] < |entries| && entries[at[i]].kind == Outgoing && entries[at[i]].org == org
               && (who.Some? ==> entries[at[i]].principal == who)
               && start <= entries[at[i]].createdAt <= start + 86_400_000_000
               && forall j :: 0 <= j < |entries| ==> entries[j].reverses != Some(at[i])
    ensures AmountsAt(entries, at) <= cap
  {
    SpendCovers(entries, |entries|, Query(org, who, start, Some(start + DAY)), at);
    assert WindowSpend(entries, org, who, start) <= cap;
  }

  /** No window rose above the cap, nor above what it held already. */
  ghost predicate NoneRisesAbove(entries: seq<Entry>, entries': seq<Entry>, org: Id, who: Option<Id>, cap: int) {
    forall start ::
      WindowSpend(entries', org, who, start) <= Max(cap, WindowSpend(entries, org, who, start))
  }

  /** The limit an org's debits, or a principal's, are checked against, if there is one. */
  function LimitInForce(cfg: Settings, b: Book, org: Id, who: Option<Id>): Option<int> {
    if who.None? then
      if org in b.accounts && EffectiveLimit(cfg, b, org) > 0 then Some(EffectiveLimit(cfg, b, org)) else None
    else if (org, who.value) in b.principals then Some(b.principals[(org, who.value)].limit)
    else None
  }

  /** A limit of at most cap is in force for an org, or for a principal. */
  predicate Limited(cfg: Settings, b: Book, org: Id, who: Option<Id>, cap: int) {
    var limit := LimitInForce(cfg, b, org, who);
    limit.Some? && limit.value <= cap
  }

  lemma TopupKeepsWindows(entries: seq<Entry>, e: Entry, org: Id, who: Option<Id>, cap: int)
    requires e.kind == Incoming && e.amount > 0 && forall i :: 0 <= i < |entries| ==> entries[i].amount > 0
    ensures NoneRisesAbove(entries, entries + [e], org, who, cap)
  {
    forall start
      ensures WindowSpend(entries + [e], org, who, start) <= Max(cap, WindowSpend(entries, org, who, start))
    {
      SpendSnoc(entries, e, Query(org, who, start, Some(start + DAY)));
    }
  }

  /** While a limit is in force a locked debit raises no window above the cap, whatever its clock
      says: the check counts every row since 24 hours before now, so it covers each window the new
      row can fall into. */
  lemma DebitKeepsWindows(cfg: Settings, b: Book, o: Id, amount: int, purpose: Purpose, p: Option<Id>, now: int,
                          org: Id, who: Option<Id>, cap: int)
    requires BookInv(b) && amount > 0 && Limited(cfg, b, org, who, cap)
    ensures NoneRisesAbove(b.entries, DebitLocked(cfg, b, o, amount, purpose, p, now).entries, org, who, cap)
  {
    var b' := DebitLocked(cfg, b, o, amount, purpose, p, now);
    if MayDebit(cfg, b, o, amount, p, now) {
      var e := b'.entries[|b.entries|];
      forall start
        ensures WindowSpend(b'.entries, org, who, start) <= Max(cap, WindowSpend(b.entries, org, who, start))
      {
        var window := Query(org, who, start, Some(start + DAY));
        SpendSnoc(b.entries, e, window);
        if Matches(e, window) {
          NarrowerSpendsLess(b.entries, |b.entries|, window, Query(org, who, now - DAY, None));
        }
      }
    }
  }

  /* ---- the transactions as steps ---- */

  datatype Op =
    | TopUpOp(org: Id, amount: int, ref: Option<Id>, now: int)
    | ConfigureOp(org: Id, limit: Option<int>, paused: Option<bool>)
    | ConfigurePrincipalOp(org: Id, principal: Id, row: PrincipalLimit)
    | DeletePrincipalOp(org: Id, principal: Id)
    | DebitOp(org: Id, amount: int, who: Option<Id>, now: int)

  function Apply(cfg: Settings, b: Book, op: Op): Book {
    match op
    case TopUpOp(org, amount, ref, now) => TopUp(b, org, amount, ref, now)
    case ConfigureOp(org, limit, paused) => Configure(b, org, limit, paused)
    case ConfigurePrincipalOp(org, who, row) => ConfigurePrincipal(b, org, who, row)
    case DeletePrincipalOp(org, who) => DeletePrincipal(b, org, who)
    case DebitOp(org, amount, who, now) => Debit(cfg, b, org, amount, who, now)
  }

  /** b' has the rows of b, or one more. */
  ghost predicate Extends(b: Book, b': Book) {
    && b.accounts.Keys <= b'.accounts.Keys
    && |b.entries| <= |b'.entries| <= |b.entries| + 1
    && b'.entries[..|b.entries|] == b.entries
  }

  lemma ApplyExtends(cfg: Settings, b: Book, op: Op)
    ensures Extends(b, Apply(cfg, b, op))
    ensures |Apply(cfg, b, op).entries| > |b.entries| ==>
              Apply(cfg, b, op).entries[|b.entries|].purpose == Direct
                  && Apply(cfg, b, op).entries[|b.entries|].reverses == None
  {
  }

  lemma ApplyKeepsBook(cfg: Settings, b: Book, op: Op)
    requires BookInv(b)
    ensures BookInv(Apply(cfg, b, op))
  {
    match op
    case TopUpOp(org, amount, ref, now) =>
      if amount > 0 && !RefUsed(b.entries, ref) {
        WithAccountKeepsBook(b, org);
        PostKeepsBook(WithAccount(b, org), org, Incoming, amount, Direct, None, None, ref, now);
      }
    case DebitOp(org, amount, who, now) =>
      if amount > 0 {
        DebitKeepsBook(cfg, b, org, amount, Direct, who, now);
      }
    case ConfigureOp(_, _, _) =>
    case ConfigurePrincipalOp(_, _, _) =>
    case DeletePrincipalOp(_, _) =>
  }

  lemma ApplyKeepsWindows(cfg: Settings, b: Book, op: Op, org: Id, who: Option<Id>, cap: int)
    requires BookInv(b) && Limited(cfg, b, org, who, cap)
    ensures NoneRisesAbove(b.entries, Apply(cfg, b, op).entries, org, who, cap)
  {
    match op
    case TopUpOp(o, amount, ref, now) =>
      if amount > 0 && !RefUsed(b.entries, ref) {
        TopupKeepsWindows(b.entries, Apply(cfg, b, op).entries[|b.entries|], org, who, cap);
      }
    case DebitOp(o, amount, p, now) =>
      if amount > 0 {
        DebitKeepsWindows(cfg, b, o, amount, Direct, p, now, org, who, cap);
      }
    case ConfigureOp(_, _, _) =>
    case ConfigurePrincipalOp(_, _, _) =>
    case DeletePrincipalOp(_, _) =>
  }

  /* ---- what lifts a limit ---- */

  /** The step does not set this org's, or this principal's, limit aside or above cap. */
  predicate KeepsLimit(cfg: Settings, op: Op, org: Id, who: Option<Id>, cap: int) {
    match op
    case ConfigureOp(o, limit, _) =>
      who.None? && o == org && limit.Some? && limit.value >= 0 ==>
        0 < (if org in cfg.machineOrgs && limit.value == 0 then cfg.machineCap else limit.value) <= cap
    case ConfigurePrincipalOp(o, p, row) =>
      who == Some(p) && o == org ==> row.limit <= cap
    case DeletePrincipalOp(o, p) => !(who == Some(p) && o == org)
    case _ => true
  }

  /** Only a change of configuration lifts a limit. */
  lemma ApplyKeepsLimit(cfg: Settings, b: Book, op: Op, org: Id, who: Option<Id>, cap: int)
    requires Limited(cfg, b, org, who, cap) && KeepsLimit(cfg, op, org, who, cap)
    ensures Limited(cfg, Apply(cfg, b, op), org, who, cap)
  {
  }

  /** A limit is in force as it was set. */
  lemma ConfiguredIsInForce(cfg: Settings, b: Book, org: Id, limit: int, paused: Option<bool>, who: Id,
                            row: PrincipalLimit)
    ensures org in b.accounts && limit > 0 ==>
              LimitInForce(cfg, Apply(cfg, b, ConfigureOp(org, Some(limit), paused)), org, None) == Some(limit)
    ensures LimitInForce(cfg, Apply(cfg, b, ConfigurePrincipalOp(org, who, row)), org, Some(who)) == Some(row.limit)
    ensures row.paused ==> Paused(Apply(cfg, b, ConfigurePrincipalOp(org, who, row)), org, Some(who))
    ensures LimitInForce(cfg, Apply(cfg, b, DeletePrincipalOp(org, who)), org, Some(who)) == None
  {
  }

  /* ---- pauses ---- */

  /** The org, or one of its principals, is paused. */
  predicate Paused(b: Book, org: Id, who: Option<Id>) {
    if who.None? then org in b.accounts && b.accounts[org].paused
    else (org, who.value) in b.principals && b.principals[(org, who.value)].paused
  }

  /** The step does not resume the org, or the principal. */
  predicate KeepsPause(op: Op, org: Id, who: Option<Id>) {
    match op
    case ConfigureOp(o, _, paused) => who.None? && o == org ==> paused != Some(false)
    case ConfigurePrincipalOp(o, p, row) => who == Some(p) && o == org ==> row.paused
    case DeletePrincipalOp(o, p) => !(who == Some(p) && o == org)
    case _ => true
  }

  /** Every row from the n-th on is no debit of the org, or of the principal. */
  predicate NoDebitsFrom(entries: seq<Entry>, n: nat, org: Id, who: Option<Id>) {
    forall i :: n <= i < |entries| && entries[i].org == org && (who.Some? ==> entries[i].principal == who) ==>
      entries[i].kind == Incoming
  }

  lemma ApplyKeepsPause(cfg: Settings, b: Book, op: Op, org: Id, who: Option<Id>)
    requires Paused(b, org, who) && KeepsPause(op, org, who)
    ensures Paused(Apply(cfg, b, op), org, who) && NoDebitsFrom(Apply(cfg, b, op).entries, |b.entries|, org, who)
  {
  }
}
