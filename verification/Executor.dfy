/** One run's tool executor: which calls it accepts, and what it accounts for them
    (agent/node_executor.py). */
module Executor {
  import opened Common
  import Totals

  /** Tool names; the executor knows four of them. */
  datatype Tool = GetLiquidationRisk | GetTokenPrice | GetDefiPositions | DelegateToAgent | Other(name: string)

  function ToolNamed(name: string): Tool {
    match name
    case "get_liquidation_risk" => GetLiquidationRisk
    case "get_token_price" => GetTokenPrice
    case "get_defi_positions" => GetDefiPositions
    case "delegate_to_agent" => DelegateToAgent
    case _ => Other(name)
  }

  /** A tool with a hash of its arguments. */
  datatype Signature = Signature(name: Tool, args: Id)

  /** A requested call; targets and addressOnly are what the semantic checks read from its arguments. */
  datatype Call = Call(id: string, sig: Signature, targets: set<Id>, addressOnly: bool)

  datatype Config = Config(tools: set<Tool>, platform: set<Tool>, caps: map<Tool, int>, metaCaps: map<Tool, int>,
                           customCap: int)

  datatype Entry = Entry(sig: Signature, billable: bool)

  datatype Usage = Usage(toolCalls: nat, billable: nat, failed: nat, custom: nat, iterations: nat,
                         counts: map<Tool, nat>, completed: seq<Signature>, covered: set<Id>, log: seq<Entry>,
                         names: seq<Tool>, failedNames: seq<Tool>, delegations: nat, spend: int)

  const FRESH := Usage(0, 0, 0, 0, 0, map[], [], {}, [], [], [], 0, 0)

  /** What one execution brought back; a timed-out one is not billable. */
  datatype Outcome = Outcome(billable: bool, covered: set<Id>, cost: int)

  const TIMED_OUT := Outcome(false, {}, 0)

  datatype Reason = Unavailable | CustomCap | ToolCap | Redundant | AddressOnly | Duplicate

  function CapOf(cfg: Config, name: Tool): Option<int> {
    if name in cfg.metaCaps && cfg.metaCaps[name] > 0 then Some(cfg.metaCaps[name])
    else if name in cfg.caps then Some(cfg.caps[name])
    else None
  }

  function CountName(sigs: seq<Signature>, name: Tool): nat
    decreases |sigs|
  {
    if sigs == [] then 0 else CountName(sigs[..|sigs| - 1], name) + if sigs[|sigs| - 1].name == name then 1 else 0
  }

  function CountCustom(sigs: seq<Signature>, platform: set<Tool>): nat
    decreases |sigs|
  {
    if sigs == [] then 0
    else CountCustom(sigs[..|sigs| - 1], platform) + (if sigs[|sigs| - 1].name in platform then 0 else 1)
  }

  function PlatformOnly(sigs: seq<Signature>, platform: set<Tool>): seq<Signature>
    decreases |sigs|
  {
    if sigs == [] then []
    else
      PlatformOnly(sigs[..|sigs| - 1], platform)
      + (if sigs[|sigs| - 1].name in platform then [sigs[|sigs| - 1]] else [])
  }

  function SigsOf(calls: seq<Call>): (sigs: seq<Signature>)
    ensures |sigs| == |calls| && forall i :: 0 <= i < |calls| ==> sigs[i] == calls[i].sig
  {
    seq(|calls|, i requires 0 <= i < |calls| => calls[i].sig)
  }

  function Logged(log: seq<Entry>): (sigs: seq<Signature>)
    ensures |sigs| == |log| && forall i :: 0 <= i < |log| ==> sigs[i] == log[i].sig
  {
    seq(|log|, i requires 0 <= i < |log| => log[i].sig)
  }

  function CountOf(counts: map<Tool, nat>, name: Tool): nat {
    if name in counts then counts[name] else 0
  }

  /** Why a call is suppressed, if it is, after some calls of its batch were accepted. */
  function Judge(cfg: Config, u: Usage, accepted: seq<Call>, c: Call): Option<Reason> {
    var name, sigs := c.sig.name, SigsOf(accepted);
    if name !in cfg.tools then Some(Unavailable)
    else if name !in cfg.platform then
      if u.custom + CountCustom(sigs, cfg.platform) >= cfg.customCap then Some(CustomCap) else None
    else if CapOf(cfg, name).Some? && CountOf(u.counts, name) + CountName(sigs, name) >= CapOf(cfg, name).value
        then Some(ToolCap)
    else if name == GetLiquidationRisk && c.targets != {} && c.targets <= u.covered then Some(Redundant)
    else if name == GetTokenPrice && c.addressOnly then Some(AddressOnly)
    else if c.sig in u.completed || c.sig in PlatformOnly(sigs, cfg.platform) then Some(Duplicate)
    else None
  }

  function Accept(cfg: Config, u: Usage, calls: seq<Call>): seq<Call>
    decreases |calls|
  {
    if calls == [] then []
    else
      var before, c := Accept(cfg, u, calls[..|calls| - 1]), calls[|calls| - 1];
      if Judge(cfg, u, before, c) == None then before + [c] else before
  }

  /** The suppressed calls, with the reason for each. */
  function Suppressed(cfg: Config, u: Usage, calls: seq<Call>): seq<(string, Reason)>
    decreases |calls|
  {
    if calls == [] then []
    else
      var c := calls[|calls| - 1];
      var reason := Judge(cfg, u, Accept(cfg, u, calls[..|calls| - 1]), c);
      Suppressed(cfg, u, calls[..|calls| - 1]) + if reason == None then [] else [(c.id, reason.value)]
  }

  /** Accounting for one executed call. */
  function Record(cfg: Config, u: Usage, c: Call, o: Outcome): Usage {
    var name := c.sig.name;
    Usage(u.toolCalls + 1,
          u.billable + (if o.billable then 1 else 0),
          u.failed + (if o.billable then 0 else 1),
          u.custom + (if name in cfg.platform then 0 else 1),
          u.iterations,
          u.counts[name := CountOf(u.counts, name) + 1],
          if name in cfg.platform then u.completed + [c.sig] else u.completed,
          if name == GetDefiPositions then u.covered + o.covered else u.covered,
          u.log + [Entry(c.sig, o.billable)],
          if o.billable then u.names + [name] else u.names,
          if o.billable then u.failedNames else u.failedNames + [name],
          u.delegations + (if name == DelegateToAgent then 1 else 0),
          u.spend + (if name == DelegateToAgent then o.cost else 0))
  }

  datatype Result = Result(call: Call, outcome: Outcome)

  /** The accepted calls with their outcomes; a missing one is the batch timeout's. */
  function Zip(accepted: seq<Call>, outcomes: seq<Outcome>): (results: seq<Result>)
    ensures |results| == |accepted| && forall i :: 0 <= i < |accepted| ==> results[i].call == accepted[i]
  {
    seq(|accepted|, i requires 0 <= i < |accepted| => Result(accepted[i],
                                                             if i < |outcomes| then outcomes[i] else TIMED_OUT))
  }

  function RecordAll(cfg: Config, u: Usage, results: seq<Result>): Usage
    decreases |results|
  {
    if results == [] then u else RecordAll(cfg, Record(cfg, u, results[0].call, results[0].outcome), results[1..])
  }

  /** The usage after one executor step. */
  function Execute(cfg: Config, u: Usage, calls: seq<Call>, outcomes: seq<Outcome>): Usage {
    RecordAll(cfg, u, Zip(Accept(cfg, u, calls), outcomes)).(iterations := u.iterations + 1)
  }

  /* ---- what every step keeps ---- */

  function Whole(): nat -> int {
    (n: nat) => n
  }

  ghost predicate CountsMatch(counts: map<Tool, nat>, sigs: seq<Signature>) {
    forall name :: CountOf(counts, name) == CountName(sigs, name)
  }

  /** The counters, lists and sums all describe the one log. */
  ghost predicate Accounted(cfg: Config, u: Usage) {
    && u.toolCalls == |u.log| == u.billable + u.failed == Totals.Total(u.counts, Whole())
    && |u.names| == u.billable && |u.failedNames| == u.failed
    && CountsMatch(u.counts, Logged(u.log))
    && u.custom == CountCustom(Logged(u.log), cfg.platform)
    && u.completed == PlatformOnly(Logged(u.log), cfg.platform)
    && u.delegations == CountName(Logged(u.log), DelegateToAgent)
  }

  /** No platform signature twice, no cap exceeded. */
  ghost predicate WithinLimits(cfg: Config, sigs: seq<Signature>) {
    && (forall i, j :: 0 <= i < j < |sigs| && sigs[i].name in cfg.platform ==> sigs[i] != sigs[j])
    && (forall name :: name in cfg.platform && CapOf(cfg, name).Some? ==>
          CountName(sigs, name) <= Max(0, CapOf(cfg, name).value))
    && CountCustom(sigs, cfg.platform) <= Max(0, cfg.customCap)
    && (forall i :: 0 <= i < |sigs| ==> sigs[i].name in cfg.tools)
  }

  lemma {:induction false} CountsAppend(a: seq<Signature>, b: seq<Signature>, name: Tool, platform: set<Tool>)
    ensures CountName(a + b, name) == CountName(a, name) + CountName(b, name)
    ensures CountCustom(a + b, platform) == CountCustom(a, platform) + CountCustom(b, platform)
    ensures PlatformOnly(a + b, platform) == PlatformOnly(a, platform) + PlatformOnly(b, platform)
    decreases |b|
  {
    if b == [] {
      assert a + b == a;
    } else {
      assert (a + b)[..|a + b| - 1] == a + b[..|b| - 1];
      CountsAppend(a, b[..|b| - 1], name, platform);
    }
  }

  lemma {:induction false} PlatformOnlyHas(sigs: seq<Signature>, platform: set<Tool>, s: Signature)
    ensures s in PlatformOnly(sigs, platform) <==> s in sigs && s.name in platform
    decreases |sigs|
  {
    if sigs != [] {
      PlatformOnlyHas(sigs[..|sigs| - 1], platform, s);
      assert sigs == sigs[..|sigs| - 1] + [sigs[|sigs| - 1]];
    }
  }

  lemma LoggedAppend(log: seq<Entry>, e: Entry)
    ensures Logged(log + [e]) == Logged(log) + [e.sig]
  {
  }

  lemma CountsMatchStep(counts: map<Tool, nat>, sigs: seq<Signature>, s: Signature)
    requires CountsMatch(counts, sigs)
    ensures CountsMatch(counts[s.name := CountOf(counts, s.name) + 1], sigs + [s])
  {
    assert (sigs + [s])[..|sigs|] == sigs;
    forall name ensures CountOf(counts[s.name := CountOf(counts, s.name) + 1], name) == CountName(sigs + [s], name) {
      assert CountOf(counts, name) == CountName(sigs, name);
    }
  }

  lemma OneMore(sigs: seq<Signature>, s: Signature, name: Tool, platform: set<Tool>)
    ensures CountName(sigs + [s], name) == CountName(sigs, name) + if s.name == name then 1 else 0
    ensures CountCustom(sigs + [s], platform) == CountCustom(sigs, platform) + if s.name in platform then 0 else 1
    ensures PlatformOnly(sigs + [s], platform) == PlatformOnly(sigs, platform) + if s.name in platform then [s] else []
  {
    assert (sigs + [s])[..|sigs|] == sigs;
  }

  lemma TotalStep(counts: map<Tool, nat>, name: Tool)
    ensures Totals.Total(counts[name := CountOf(counts, name) + 1], Whole()) == Totals.Total(counts, Whole()) + 1
  {
    var n: nat := CountOf(counts, name) + 1;
    Totals.TotalUpdate(counts, Whole(), name, n);
    assert Whole()(n) == n && (name in counts ==> Whole()(counts[name]) == counts[name]);
  }

  lemma RecordKeepsAccounts(cfg: Config, u: Usage, c: Call, o: Outcome)
    requires Accounted(cfg, u)
    ensures Accounted(cfg, Record(cfg, u, c, o)) && Logged(Record(cfg, u, c, o).log) == Logged(u.log) + [c.sig]
  {
    hide CountName, CountCustom, PlatformOnly, NamesOf;
    LoggedAppend(u.log, Entry(c.sig, o.billable));
    TotalStep(u.counts, c.sig.name);
    CountsMatchStep(u.counts, Logged(u.log), c.sig);
    OneMore(Logged(u.log), c.sig, DelegateToAgent, cfg.platform);
  }

  /** The log entries of executed calls. */
  function EntriesOf(results: seq<Result>): (entries: seq<Entry>)
    ensures |entries| == |results|
    ensures forall i :: 0 <= i < |results| ==>
              entries[i].sig == results[i].call.sig && entries[i].billable == results[i].outcome.billable
    decreases |results|
  {
    if results == [] then [] else [Entry(results[0].call.sig, results[0].outcome.billable)] + EntriesOf(results[1..])
  }

  lemma {:induction false} RecordAllKeepsAccounts(cfg: Config, u: Usage, results: seq<Result>)
    requires Accounted(cfg, u)
    ensures Accounted(cfg, RecordAll(cfg, u, results))
    decreases |results|
  {
    if results != [] {
      RecordKeepsAccounts(cfg, u, results[0].call, results[0].outcome);
      RecordAllKeepsAccounts(cfg, Record(cfg, u, results[0].call, results[0].outcome), results[1..]);
    }
  }

  lemma {:induction false} RecordAllLogs(cfg: Config, u: Usage, results: seq<Result>)
    ensures RecordAll(cfg, u, results).log == u.log + EntriesOf(results)
    decreases |results|
  {
    if results != [] {
      RecordAllLogs(cfg, Record(cfg, u, results[0].call, results[0].outcome), results[1..]);
    }
  }

  /** A batch logs its accepted calls in order, each billable as its result says; one whose result is
      missing timed out and is not billable. */
  lemma ExecuteLogs(cfg: Config, u: Usage, calls: seq<Call>, outcomes: seq<Outcome>)
    ensures var accepted, after := Accept(cfg, u, calls), Execute(cfg, u, calls, outcomes);
            && |after.log| == |u.log| + |accepted| && u.log <= after.log
            && (forall i :: 0 <= i < |accepted| ==>
                  after.log[|u.log| + i] ==
                  Entry(accepted[i].sig, i < |outcomes| && outcomes[i].billable))
            && after.iterations == u.iterations + 1
  {
    RecordAllLogs(cfg, u, Zip(Accept(cfg, u, calls), outcomes));
  }

  /** The wallets a batch's results cover, and what its delegations cost. */
  function CoveredBy(results: seq<Result>): set<Id> {
    set r, id | r in results && r.call.sig.name == GetDefiPositions && id in r.outcome.covered :: id
  }

  function DelegationCost(results: seq<Result>): int
    decreases |results|
  {
    if results == [] then 0
    else
      (if results[0].call.sig.name == DelegateToAgent then results[0].outcome.cost else 0)
      + DelegationCost(results[1..])
  }

  /** The names of the billable rows of a log, or of the others. */
  function NamesOf(log: seq<Entry>, billable: bool): seq<Tool>
    decreases |log|
  {
    if log == [] then []
    else
      var last := log[|log| - 1];
      NamesOf(log[..|log| - 1], billable) + if last.billable == billable then [last.sig.name] else []
  }

  /** What a batch adds to the rest of the usage: the wallets of its position reads, the cost of its
      delegations, and the lists of names stay those of the log. */
  lemma {:induction false} RecordAllAdds(cfg: Config, u: Usage, results: seq<Result>)
    requires u.names == NamesOf(u.log, true) && u.failedNames == NamesOf(u.log, false)
    ensures var after := RecordAll(cfg, u, results);
            && after.covered == u.covered + CoveredBy(results)
            && after.spend == u.spend + DelegationCost(results)
            && after.names == NamesOf(after.log, true) && after.failedNames == NamesOf(after.log, false)
    decreases |results|
  {
    if results != [] {
      hide CountOf;
      var first := results[0];
      var next := Record(cfg, u, first.call, first.outcome);
      assert next.log[..|u.log|] == u.log;
      RecordAllAdds(cfg, next, results[1..]);
      assert results == [first] + results[1..];
      assert CoveredBy(results) == CoveredBy([first]) + CoveredBy(results[1..]);
    }
  }

  lemma CapKept(cfg: Config, all: seq<Signature>, s: Signature, name: Tool)
    requires WithinLimits(cfg, all) && name in cfg.platform && CapOf(cfg, name).Some?
    requires s.name == name ==> CountName(all, name) < CapOf(cfg, name).value
    ensures CountName(all + [s], name) <= Max(0, CapOf(cfg, name).value)
  {
    OneMore(all, s, name, cfg.platform);
  }

  lemma OneMoreWithinLimits(cfg: Config, all: seq<Signature>, s: Signature)
    requires WithinLimits(cfg, all) && s.name in cfg.tools
    requires s.name !in cfg.platform ==> CountCustom(all, cfg.platform) < cfg.customCap
    requires s.name in cfg.platform ==>
        s !in all && (CapOf(cfg, s.name).Some? ==> CountName(all, s.name) < CapOf(cfg, s.name).value)
    ensures WithinLimits(cfg, all + [s])
  {
    forall name | name in cfg.platform && CapOf(cfg, name).Some?
      ensures CountName(all + [s], name) <= Max(0, CapOf(cfg, name).value)
    {
      CapKept(cfg, all, s, name);
    }
    OneMore(all, s, s.name, cfg.platform);
  }

  lemma {:induction false} AcceptedFit(cfg: Config, u: Usage, calls: seq<Call>)
    requires Accounted(cfg, u) && WithinLimits(cfg, Logged(u.log))
    ensures WithinLimits(cfg, Logged(u.log) + SigsOf(Accept(cfg, u, calls)))
    decreases |calls|
  {
    if calls == [] {
      assert Logged(u.log) + SigsOf([]) == Logged(u.log);
    } else {
      AcceptedFit(cfg, u, calls[..|calls| - 1]);
      var before, c := Accept(cfg, u, calls[..|calls| - 1]), calls[|calls| - 1];
      if Judge(cfg, u, before, c) == None {
        var log, sigs := Logged(u.log), SigsOf(before);
        assert log + SigsOf(before + [c]) == log + sigs + [c.sig];
        PlatformOnlyHas(log, cfg.platform, c.sig);
        PlatformOnlyHas(sigs, cfg.platform, c.sig);
        CountsAppend(log, sigs, c.sig.name, cfg.platform);
        assert CountOf(u.counts, c.sig.name) == CountName(log, c.sig.name);
        OneMoreWithinLimits(cfg, log + sigs, c.sig);
      }
    }
  }

  /* ---- exactly which calls run ---- */

  /** A platform tool has used up its cap: a positive override counts, else the tool's own. */
  predicate AtCap(cfg: Config, name: Tool, used: nat) {
    if name in cfg.metaCaps && cfg.metaCaps[name] > 0 then used >= cfg.metaCaps[name]
    else name in cfg.caps && used >= cfg.caps[name]
  }

  /** A liquidation check all of whose named wallets are covered already. */
  predicate ChecksCovered(covered: set<Id>, c: Call) {
    c.sig.name == GetLiquidationRisk && c.targets != {} && c.targets <= covered
  }

  predicate PricesAddresses(c: Call) {
    c.sig.name == GetTokenPrice && c.addressOnly
  }

  /** What a call must meet after these signatures have run or been accepted. */
  predicate MayRun(cfg: Config, covered: set<Id>, ran: seq<Signature>, c: Call) {
    && c.sig.name in cfg.tools
    && (c.sig.name !in cfg.platform ==> CountCustom(ran, cfg.platform) < cfg.customCap)
    && (c.sig.name in cfg.platform ==>
          && !AtCap(cfg, c.sig.name, CountName(ran, c.sig.name)) && c.sig !in ran
          && !ChecksCovered(covered, c) && !PricesAddresses(c))
  }

  /** The reason a call is suppressed for: the first, in this order, that applies. */
  predicate Because(cfg: Config, covered: set<Id>, ran: seq<Signature>, c: Call, reason: Reason) {
    var known, platform := c.sig.name in cfg.tools, c.sig.name in cfg.platform;
    var capped := AtCap(cfg, c.sig.name, CountName(ran, c.sig.name));
    match reason
    case Unavailable => !known
    case CustomCap => known && !platform && CountCustom(ran, cfg.platform) >= cfg.customCap
    case ToolCap => known && platform && capped
    case Redundant => known && platform && !capped && ChecksCovered(covered, c)
    case AddressOnly => known && platform && !capped && PricesAddresses(c)
    case Duplicate =>
      known && platform && !capped && !ChecksCovered(covered, c) && !PricesAddresses(c) && c.sig in ran
  }

  /** No verdict against a call means that it may run, and a reason that it may not, and why. */
  predicate Judged(cfg: Config, covered: set<Id>, ran: seq<Signature>, c: Call, verdict: Option<Reason>) {
    match verdict
    case None => MayRun(cfg, covered, ran, c)
    case Some(reason) => !MayRun(cfg, covered, ran, c) && Because(cfg, covered, ran, c, reason)
  }

  /** The calls without a reason against them. */
  function Kept(calls: seq<Call>, verdicts: seq<Option<Reason>>): seq<Call>
    requires |verdicts| == |calls|
    decreases |calls|
  {
    if calls == [] then []
    else
      var n := |calls| - 1;
      Kept(calls[..n], verdicts[..n]) + if verdicts[n] == None then [calls[n]] else []
  }

  /** The others, with their reasons. */
  function Dropped(calls: seq<Call>, verdicts: seq<Option<Reason>>): seq<(string, Reason)>
    requires |verdicts| == |calls|
    decreases |calls|
  {
    if calls == [] then []
    else
      var n := |calls| - 1;
      Dropped(calls[..n], verdicts[..n]) + if verdicts[n] == None then [] else [(calls[n].id, verdicts[n].value)]
  }

  /** The signatures that have run, or stand accepted, when it is the n-th call's turn. */
  function RanBefore(u: Usage, calls: seq<Call>, verdicts: seq<Option<Reason>>, n: nat): seq<Signature>
    requires |verdicts| == |calls| && n <= |calls|
  {
    Logged(u.log) + SigsOf(Kept(calls[..n], verdicts[..n]))
  }

  /** Each call in its turn is kept exactly if it may run, and dropped for its reason otherwise. */
  ghost predicate JudgedInTurn(cfg: Config, u: Usage, calls: seq<Call>, verdicts: seq<Option<Reason>>) {
    && |verdicts| == |calls|
    && forall n :: 0 <= n < |calls| ==>
         Judged(cfg, u.covered, RanBefore(u, calls, verdicts, n), calls[n], verdicts[n])
  }

  lemma JudgeIsExact(cfg: Config, u: Usage, before: seq<Call>, c: Call)
    requires Accounted(cfg, u)
    ensures Judged(cfg, u.covered, Logged(u.log) + SigsOf(before), c, Judge(cfg, u, before, c))
  {
    var log, sigs := Logged(u.log), SigsOf(before);
    PlatformOnlyHas(log, cfg.platform, c.sig);
    PlatformOnlyHas(sigs, cfg.platform, c.sig);
    CountsAppend(log, sigs, c.sig.name, cfg.platform);
    assert CountOf(u.counts, c.sig.name) == CountName(log, c.sig.name);
  }

  lemma JudgedOneMore(cfg: Config, u: Usage, calls: seq<Call>, verdicts: seq<Option<Reason>>, c: Call,
                      verdict: Option<Reason>)
    requires JudgedInTurn(cfg, u, calls, verdicts)
    requires Judged(cfg, u.covered, Logged(u.log) + SigsOf(Kept(calls, verdicts)), c, verdict)
    ensures JudgedInTurn(cfg, u, calls + [c], verdicts + [verdict])
  {
    hide Judged, Kept, Logged, SigsOf;
    var calls', verdicts' := calls + [c], verdicts + [verdict];
    forall n | 0 <= n <= |calls| ensures RanBefore(u, calls', verdicts', n) == RanBefore(u, calls, verdicts, n) {
      assert calls'[..n] == calls[..n] && verdicts'[..n] == verdicts[..n];
    }
    assert calls[..|calls|] == calls && verdicts[..|calls|] == verdicts;
  }

  /** Which calls of a batch are accepted, and why the others are not, read from the log alone. */
  lemma {:induction false} AcceptedExactly(cfg: Config, u: Usage, calls: seq<Call>)
    returns (verdicts: seq<Option<Reason>>)
    requires Accounted(cfg, u)
    ensures JudgedInTurn(cfg, u, calls, verdicts)
    ensures Accept(cfg, u, calls) == Kept(calls, verdicts) && Suppressed(cfg, u, calls) == Dropped(calls, verdicts)
    decreases |calls|
  {
    if calls == [] {
      verdicts := [];
    } else {
      hide Accounted, JudgedInTurn, Judged, Judge;
      var n := |calls| - 1;
      var before := AcceptedExactly(cfg, u, calls[..n]);
      var verdict := Judge(cfg, u, Accept(cfg, u, calls[..n]), calls[n]);
      verdicts := before + [verdict];
      JudgeIsExact(cfg, u, Accept(cfg, u, calls[..n]), calls[n]);
      JudgedOneMore(cfg, u, calls[..n], before, calls[n], verdict);
      assert calls[..n] + [calls[n]] == calls && verdicts[..n] == before;
    }
  }

  ghost predicate Inv(cfg: Config, u: Usage) {
    Accounted(cfg, u) && WithinLimits(cfg, Logged(u.log))
  }

  lemma LoggedZip(log: seq<Entry>, accepted: seq<Call>, outcomes: seq<Outcome>)
    ensures Logged(log + EntriesOf(Zip(accepted, outcomes))) == Logged(log) + SigsOf(accepted)
  {
  }

  datatype Batch = Batch(calls: seq<Call>, outcomes: seq<Outcome>)

  function ExecuteAll(cfg: Config, u: Usage, batches: seq<Batch>): Usage
    decreases |batches|
  {
    if batches == [] then u else ExecuteAll(cfg, Execute(cfg, u, batches[0].calls, batches[0].outcomes), batches[1..])
  }

  lemma IterationIsNotCounted(cfg: Config, u: Usage, n: nat)
    ensures Accounted(cfg, u.(iterations := n)) <==> Accounted(cfg, u)
  {
  }

  lemma {:induction false} ExecuteAllKeepsInv(cfg: Config, u: Usage, batches: seq<Batch>)
    requires Inv(cfg, u)
    ensures Inv(cfg, ExecuteAll(cfg, u, batches))
    decreases |batches|
  {
    if batches != [] {
      hide Accounted, WithinLimits;
      var calls, outcomes := batches[0].calls, batches[0].outcomes;
      AcceptedFit(cfg, u, calls);
      RecordAllKeepsAccounts(cfg, u, Zip(Accept(cfg, u, calls), outcomes));
      RecordAllLogs(cfg, u, Zip(Accept(cfg, u, calls), outcomes));
      LoggedZip(u.log, Accept(cfg, u, calls), outcomes);
      IterationIsNotCounted(cfg, RecordAll(cfg, u, Zip(Accept(cfg, u, calls), outcomes)), u.iterations + 1);
      ExecuteAllKeepsInv(cfg, Execute(cfg, u, batches[0].calls, batches[0].outcomes), batches[1..]);
    }
  }

  /** Whatever is requested over a run: no platform call runs twice, no cap is exceeded, and the
      counters agree with the log. */
  lemma RunsStayWithinLimits(cfg: Config, batches: seq<Batch>)
    ensures var u := ExecuteAll(cfg, FRESH, batches);
            && (forall i, j :: 0 <= i < j < |u.log| && u.log[i].sig.name in cfg.platform ==>
                u.log[i].sig != u.log[j].sig)
            && (forall name :: name in cfg.platform && CapOf(cfg, name).Some? ==>
                CountOf(u.counts, name) <= Max(0, CapOf(cfg, name).value))
            && u.custom <= Max(0, cfg.customCap)
            && u.toolCalls == |u.log| == u.billable + u.failed == Totals.Total(u.counts, Whole())
  {
    assert Logged(FRESH.log) == [];
    ExecuteAllKeepsInv(cfg, FRESH, batches);
    var u := ExecuteAll(cfg, FRESH, batches);
    assert forall i :: 0 <= i < |u.log| ==> Logged(u.log)[i] == u.log[i].sig;
  }

  /* ---- the executor's loops ---- */

  /** The checks for one call, in their order; seen holds the platform calls accepted in this batch. */
  method JudgeCall(cfg: Config, u: Usage, dedup: seq<Call>, seen: set<Signature>, c: Call)
    returns (reason: Option<Reason>)
    requires forall s :: s in seen <==> s in PlatformOnly(SigsOf(dedup), cfg.platform)
    ensures reason == Judge(cfg, u, dedup, c)
  {
    var name := c.sig.name;
    if name !in cfg.tools {
      return Some(Unavailable);
    }
    if name !in cfg.platform {
      var inBatch := CountCustom(SigsOf(dedup), cfg.platform);
      if u.custom + inBatch >= cfg.customCap {
        return Some(CustomCap);
      }
      return None;
    }
    var cap := CapOf(cfg, name);
    var inBatch := CountName(SigsOf(dedup), name);
    if cap.Some? && CountOf(u.counts, name) + inBatch >= cap.value {
      return Some(ToolCap);
    }
    if name == GetLiquidationRisk && c.targets != {} && c.targets <= u.covered {
      return Some(Redundant);
    }
    if name == GetTokenPrice && c.addressOnly {
      return Some(AddressOnly);
    }
    reason := if c.sig in u.completed || c.sig in seen then Some(Duplicate) else None;
  }

  lemma SeenOneMore(cfg: Config, dedup: seq<Call>, seen: set<Signature>, c: Call)
    requires forall s :: s in seen <==> s in PlatformOnly(SigsOf(dedup), cfg.platform)
    ensures forall s :: s in (if c.sig.name in cfg.platform then seen + {c.sig} else seen)
                        <==> s in PlatformOnly(SigsOf(dedup + [c]), cfg.platform)
  {
    assert SigsOf(dedup + [c]) == SigsOf(dedup) + [c.sig];
    OneMore(SigsOf(dedup), c.sig, c.sig.name, cfg.platform);
  }

  /** The acceptance loop, with the reason for each suppressed call; AcceptedExactly says which ones. */
  method SelectCalls(cfg: Config, u: Usage, calls: seq<Call>) returns (dedup: seq<Call>, skipped: seq<(string, Reason)>)
    ensures dedup == Accept(cfg, u, calls)
    ensures skipped == Suppressed(cfg, u, calls) && |dedup| + |skipped| == |calls|
  {
    dedup, skipped := [], [];
    var seen: set<Signature> := {};
    for n := 0 to |calls|
      invariant dedup == Accept(cfg, u, calls[..n])
      invariant skipped == Suppressed(cfg, u, calls[..n]) && |dedup| + |skipped| == n
      invariant forall s :: s in seen <==> s in PlatformOnly(SigsOf(dedup), cfg.platform)
    {
      var c := calls[n];
      assert calls[..n + 1][..n] == calls[..n];
      var reason := JudgeCall(cfg, u, dedup, seen, c);
      if reason.Some? {
        skipped := skipped + [(c.id, reason.value)];
      } else {
        SeenOneMore(cfg, dedup, seen, c);
        dedup := dedup + [c];
        if c.sig.name in cfg.platform {
          seen := seen + {c.sig};
        }
      }
    }
    assert calls[..|calls|] == calls;
  }

  /** One executor step: select, execute, account. */
  method ExecuteTools(cfg: Config, u: Usage, calls: seq<Call>, outcomes: seq<Outcome>)
    returns (after: Usage, skipped: seq<(string, Reason)>)
    ensures after == Execute(cfg, u, calls, outcomes) && skipped == Suppressed(cfg, u, calls)
  {
    var dedup;
    dedup, skipped := SelectCalls(cfg, u, calls);
    var results := Zip(dedup, outcomes);
    after := Account(cfg, u, results);
    after := after.(iterations := u.iterations + 1);
  }

  /** The accumulators for one result. */
  method AccountOne(cfg: Config, u: Usage, c: Call, o: Outcome) returns (after: Usage)
    ensures after == Record(cfg, u, c, o)
  {
    var name := c.sig.name;
    after := u.(toolCalls := u.toolCalls + 1, counts := u.counts[name := CountOf(u.counts, name) + 1],
                log := u.log + [Entry(c.sig, o.billable)]);
    if o.billable {
      after := after.(billable := u.billable + 1, names := u.names + [name]);
    } else {
      after := after.(failed := u.failed + 1, failedNames := u.failedNames + [name]);
    }
    if name in cfg.platform {
      after := after.(completed := u.completed + [c.sig]);
    } else {
      after := after.(custom := u.custom + 1);
    }
    if name == GetDefiPositions {
      after := after.(covered := u.covered + o.covered);
    }
    if name == DelegateToAgent {
      after := after.(delegations := u.delegations + 1, spend := u.spend + o.cost);
    }
  }

  /** The accumulators over the results of a batch. */
  method Account(cfg: Config, u: Usage, results: seq<Result>) returns (after: Usage)
    ensures after == RecordAll(cfg, u, results)
  {
    after := u;
    for n := 0 to |results|
      invariant RecordAll(cfg, after, results[n..]) == RecordAll(cfg, u, results)
    {
      assert results[n..][0] == results[n] && results[n..][1..] == results[n + 1..];
      after := AccountOne(cfg, after, results[n].call, results[n].outcome);
    }
    assert results[|results|..] == [];
  }
}
