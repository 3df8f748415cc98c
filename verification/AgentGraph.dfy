/** The agent graph: planner and executor nodes with their routing (agent/graph.py, agent/nodes.py,
    agent/node_executor.py). What the model answers and what tools return is arbitrary input. */
module AgentGraph {
  import opened Common
  import P = PlanDag
  import E = Executor

  datatype Status = Planning | Executing | GeneratingUi | Failed

  /** The state between nodes: requested are the tool calls of the last message; ran pairs each
      plan call that was executed with the ids marked completed when it started. */
  datatype State = State(status: Status, plan: Option<P.Plan>, usage: E.Usage, requested: seq<E.Call>,
                         ran: seq<(string, set<string>)>)

  /** The planner's answer: a provider error, or a message with tool calls and perhaps a new plan
      that was parsed, validated and found to use known tools. */
  datatype Answer = ProviderError | Message(toolCalls: seq<E.Call>, newPlan: Option<P.Plan>)

  /** The arguments of a plan call once its references are resolved. */
  datatype Resolved = Resolved(args: Id, targets: set<Id>, addressOnly: bool)

  /** One turn of the loop: the planner's answer, then, if the executor runs, how references
      resolve, what the tools return, and whether the batch times out. */
  datatype Turn = Turn(answer: Answer, resolved: map<string, Resolved>, outcomes: seq<E.Outcome>, timedOut: bool)

  datatype Node = ToPlanner | ToExecutor | ToUi

  datatype Settings = Settings(tools: E.Config, iterationCap: int, compilerMode: bool)

  /** The plan an answer brings; outside compiler mode no answer is read for one. */
  function Offered(cfg: Settings, answer: Answer): Option<P.Plan> {
    if cfg.compilerMode && answer.Message? then answer.newPlan else None
  }

  function Planner(cfg: Settings, s: State, answer: Answer): State {
    match answer
    case ProviderError => s.(status := Failed)
    case Message(toolCalls, _) =>
      var plan := if Offered(cfg, answer).Some? then Offered(cfg, answer) else s.plan;
      var busy := toolCalls != [] || (plan.Some? && !plan.value.Done());
      s.(status := if busy then Executing else GeneratingUi, plan := plan, requested := toolCalls)
  }

  function AfterPlanner(s: State): Node {
    if s.status == Executing then ToExecutor else ToUi
  }

  /** The calls of a stage whose dependencies are all marked completed. */
  function Eligible(calls: seq<P.PlanCall>, completed: set<string>): seq<P.PlanCall>
    decreases |calls|
  {
    if calls == [] then []
    else
      var c := calls[|calls| - 1];
      Eligible(calls[..|calls| - 1], completed)
      + if forall d :: d in c.dependsOn ==> d in completed then [c] else []
  }

  function Incoming(c: P.PlanCall, resolved: map<string, Resolved>): E.Call {
    var r := if c.id in resolved then resolved[c.id] else Resolved(0, {}, false);
    E.Call(c.id, E.Signature(E.ToolNamed(c.tool), r.args), r.targets, r.addressOnly)
  }

  function IncomingAll(calls: seq<P.PlanCall>, resolved: map<string, Resolved>): (incoming: seq<E.Call>)
    ensures |incoming| == |calls| && forall i :: 0 <= i < |calls| ==> incoming[i].id == calls[i].id
  {
    seq(|calls|, i requires 0 <= i < |calls| => Incoming(calls[i], resolved))
  }

  function Completed(plan: P.Plan): set<string> {
    set id | id in plan.completed
  }

  /** Marks the calls of a stage that were taken up, whatever became of them, and moves on. */
  function Advance(plan: P.Plan, taken: seq<P.PlanCall>): P.Plan {
    plan.(current := plan.current + 1, completed := MarkAll(plan.completed, taken))
  }

  function MarkAll(completed: seq<string>, taken: seq<P.PlanCall>): seq<string>
    decreases |taken|
  {
    if taken == [] then completed
    else
      var id := taken[0].id;
      MarkAll(if id != "" && id !in completed then completed + [id] else completed, taken[1..])
  }

  function RanWith(accepted: seq<E.Call>, completed: set<string>): (ran: seq<(string, set<string>)>)
    ensures |ran| == |accepted| && forall i :: 0 <= i < |accepted| ==> ran[i] == (accepted[i].id, completed)
  {
    seq(|accepted|, i requires 0 <= i < |accepted| => (accepted[i].id, completed))
  }

  /** A stage of the active plan, or the calls of the last message. */
  function Execute(cfg: Settings, s: State, turn: Turn): State {
    if s.plan.Some? && !s.plan.value.Done() then
      var plan := s.plan.value;
      var taken := Eligible(plan.stages[plan.current].calls, Completed(plan));
      var accepted := E.Accept(cfg.tools, s.usage, IncomingAll(taken, turn.resolved));
      var after := s.(usage := E.Execute(cfg.tools, s.usage, IncomingAll(taken, turn.resolved), turn.outcomes),
                      ran := s.ran + RanWith(accepted, Completed(plan)));
      if accepted != [] && turn.timedOut then after.(status := Failed)
      else after.(status := Planning, plan := Some(Advance(plan, taken)))
    else if s.requested == [] then s.(status := GeneratingUi)
    else
      var accepted := E.Accept(cfg.tools, s.usage, s.requested);
      var after := s.(usage := E.Execute(cfg.tools, s.usage, s.requested, turn.outcomes));
      after.(status := if accepted != [] && turn.timedOut then Failed else Planning)
  }

  function AfterTools(cfg: Settings, s: State): Node {
    if s.status == Planning then
      if s.plan.Some? then (if s.plan.value.Done() then ToUi else ToPlanner)
      else if s.usage.iterations >= cfg.iterationCap then ToUi else ToPlanner
    else ToUi
  }

  /** One turn: the planner, and the executor if it is routed to. */
  function Step(cfg: Settings, s: State, turn: Turn): (r: (State, Node, nat)) {
    var planned := Planner(cfg, s, turn.answer);
    if AfterPlanner(planned) == ToExecutor then
      var executed := Execute(cfg, planned, turn);
      (executed, AfterTools(cfg, executed), 1)
    else (planned, ToUi, 0)
  }

  /** A run takes turns until it is routed to the user interface: its last state, whether it got
      there, and how often the executor was visited. */
  function Drive(cfg: Settings, s: State, turns: seq<Turn>): (State, bool, nat)
    decreases |turns|
  {
    if turns == [] then (s, false, 0)
    else
      var (next, node, visits) := Step(cfg, s, turns[0]);
      if node == ToUi then (next, true, visits)
      else
        var (last, ended, more) := Drive(cfg, next, turns[1..]);
        (last, ended, visits + more)
  }

  /* ---- how long a run can be ---- */

  /** The executor visits left without another plan: what the cap allows, or the plan's stages. */
  function Budget(cfg: Settings, s: State): nat {
    if s.plan.None? then Max(1, cfg.iterationCap - s.usage.iterations)
    else Max(1, |s.plan.value.stages| - s.plan.value.current)
  }

  /** One visit for each stage of each plan that is brought, at least one a plan. */
  function OfferedVisits(cfg: Settings, turns: seq<Turn>): nat
    decreases |turns|
  {
    if turns == [] then 0
    else
      var plan := Offered(cfg, turns[0].answer);
      (if plan.Some? then Max(1, |plan.value.stages| - plan.value.current) else 0) + OfferedVisits(cfg, turns[1..])
  }

  /** A turn that goes on has used up one visit. */
  lemma TurnUsesBudget(cfg: Settings, s: State, turn: Turn)
    ensures var (next, node, visits) := Step(cfg, s, turn);
            && visits <= 1
            && (node != ToUi ==>
                  visits == 1 && Budget(cfg, next) + 1 <= Budget(cfg, s) + OfferedVisits(cfg, [turn]))
  {
    assert OfferedVisits(cfg, [turn][1..]) == 0;
  }

  /** Whatever the model answers, the executor is visited at most as often as the cap, or the plan
      at hand, still allows, and once for each stage of each plan brought on the way; as many turns
      end the run. */
  lemma {:induction false} RunIsBounded(cfg: Settings, s: State, turns: seq<Turn>)
    ensures var bound := Budget(cfg, s) + OfferedVisits(cfg, turns);
            var (last, ended, visits) := Drive(cfg, s, turns);
            visits <= bound && (|turns| >= bound ==> ended)
    decreases |turns|
  {
    if turns != [] {
      TurnUsesBudget(cfg, s, turns[0]);
      assert [turns[0]][1..] == [];
      RunIsBounded(cfg, Step(cfg, s, turns[0]).0, turns[1..]);
    }
  }

  predicate NoNewPlan(cfg: Settings, turns: seq<Turn>) {
    forall t :: t in turns ==> Offered(cfg, t.answer) == None
  }

  lemma {:induction false} NothingOffered(cfg: Settings, turns: seq<Turn>)
    requires NoNewPlan(cfg, turns)
    ensures OfferedVisits(cfg, turns) == 0
    decreases |turns|
  {
    if turns != [] {
      assert turns[0] in turns;
      NothingOffered(cfg, turns[1..]);
    }
  }

  /** Without a plan the executor is visited at most as often as the cap still allows, once if it
      allows none, and as many turns end the run. */
  lemma PlanlessRunIsCapped(cfg: Settings, s: State, turns: seq<Turn>)
    requires s.plan == None && NoNewPlan(cfg, turns)
    ensures var bound := Max(1, cfg.iterationCap - s.usage.iterations);
            var (last, ended, visits) := Drive(cfg, s, turns);
            visits <= bound && (|turns| >= bound ==> ended)
  {
    NothingOffered(cfg, turns);
    RunIsBounded(cfg, s, turns);
  }

  predicate Active(plan: Option<P.Plan>) {
    plan.Some? && !plan.value.Done()
  }

  /** The planner answers, the batch does not time out, and there is something to execute. */
  predicate Busy(s: State, turn: Turn) {
    turn.answer.Message? && !turn.timedOut && (turn.answer.toolCalls != [] || Active(s.plan))
  }

  /** Exactly when a turn executes tools: the message brings tool calls, or a plan is active. */
  lemma ExecutesIff(cfg: Settings, s: State, turn: Turn)
    ensures var plan := if turn.answer.Message? && cfg.compilerMode && turn.answer.newPlan.Some?
                        then turn.answer.newPlan else s.plan;
            Step(cfg, s, turn).2 == 1 <==> turn.answer.Message? && (turn.answer.toolCalls != [] || Active(plan))
    ensures Step(cfg, s, turn).2 == 0 ==>
              Step(cfg, s, turn).1 == ToUi
              && Step(cfg, s, turn).0.status == (if turn.answer.Message? then GeneratingUi else Failed)
  {
  }

  /** Without an active plan a turn executes the calls of its message, and no others. */
  lemma MessageIsExecuted(cfg: Settings, s: State, turn: Turn)
    requires turn.answer.Message? && turn.answer.toolCalls != [] && Offered(cfg, turn.answer) == None && !Active(s.plan)
    ensures Step(cfg, s, turn).0.usage == E.Execute(cfg.tools, s.usage, turn.answer.toolCalls, turn.outcomes)
    ensures Step(cfg, s, turn).0.ran == s.ran && Step(cfg, s, turn).0.plan == s.plan
  {
  }

  lemma BusyTurnUsesOne(cfg: Settings, s: State, turn: Turn)
    requires Busy(s, turn) && Offered(cfg, turn.answer) == None
    ensures var (next, node, visits) := Step(cfg, s, turn);
            && visits == 1
            && (node != ToUi <==> Budget(cfg, s) > 1)
            && (node != ToUi ==> Budget(cfg, next) == Budget(cfg, s) - 1 && (Active(s.plan) ==> Active(next.plan)))
  {
  }

  /** While every turn has something to execute, a run goes on for exactly as many visits as the cap,
      or the plan at hand, allows. */
  lemma {:induction false} BusyRunUsesItsBudget(cfg: Settings, s: State, turns: seq<Turn>)
    requires NoNewPlan(cfg, turns)
    requires forall t :: t in turns ==>
        t.answer.Message? && !t.timedOut && (t.answer.toolCalls != [] || Active(s.plan))
    ensures var (last, ended, visits) := Drive(cfg, s, turns);
            visits == Min(|turns|, Budget(cfg, s)) && (ended <==> |turns| >= Budget(cfg, s))
    decreases |turns|
  {
    if turns != [] {
      assert turns[0] in turns;
      BusyTurnUsesOne(cfg, s, turns[0]);
      var (next, node, _) := Step(cfg, s, turns[0]);
      if node != ToUi {
        BusyRunUsesItsBudget(cfg, next, turns[1..]);
      }
    }
  }

  /** Whatever plans and messages come, over a whole run no platform call runs twice, no cap is
      exceeded and the counters agree with the log. */
  lemma {:induction false} GraphStaysWithinLimits(cfg: Settings, s: State, turns: seq<Turn>)
    requires E.Inv(cfg.tools, s.usage)
    ensures E.Inv(cfg.tools, Drive(cfg, s, turns).0.usage)
    decreases |turns|
  {
    hide E.Inv, E.Execute;
    if turns != [] {
      var planned := Planner(cfg, s, turns[0].answer);
      var incoming := planned.requested;
      if planned.plan.Some? && !planned.plan.value.Done() {
        var plan := planned.plan.value;
        incoming := IncomingAll(Eligible(plan.stages[plan.current].calls, Completed(plan)), turns[0].resolved);
      }
      var batch := E.Batch(incoming, turns[0].outcomes);
      assert [batch][1..] == [];
      E.ExecuteAllKeepsInv(cfg.tools, s.usage, [batch]);
      var (next, node, _) := Step(cfg, s, turns[0]);
      if node != ToUi {
        GraphStaysWithinLimits(cfg, next, turns[1..]);
      }
    }
  }

  /* ---- runs of one plan ---- */

  /** The ids marked once the stages before i have been taken up. */
  function Marked(stages: seq<P.Stage>, i: nat): set<string>
    requires i <= |stages|
    decreases i
  {
    if i == 0 then {}
    else Marked(stages, i - 1) + P.Ids(Eligible(stages[i - 1].calls, Marked(stages, i - 1)))
  }

  predicate IsCall(stages: seq<P.Stage>, i: int, c: int) {
    0 <= i < |stages| && 0 <= c < |stages[i].calls|
  }

  /** Every call has an id of its own. */
  ghost predicate UniqueIds(stages: seq<P.Stage>) {
    && (forall i, c :: IsCall(stages, i, c) ==> stages[i].calls[c].id != "")
    && (forall i, c, j, d :: IsCall(stages, i, c) && IsCall(stages, j, d) ==>
          stages[i].calls[c].id == stages[j].calls[d].id ==> i == j && c == d)
  }

  /** The call with this id stands in stage k, and all it depends on was marked when it ran. */
  ghost predicate RanAt(stages: seq<P.Stage>, k: nat, id: string, marked: set<string>)
    requires k < |stages|
  {
    exists c :: IsCall(stages, k, c) && stages[k].calls[c].id == id
                && forall d :: d in stages[k].calls[c].dependsOn ==> d in marked
  }

  /** The call with this id stands in a stage before upTo, and exactly what earlier stages had taken up
      was marked when it ran. */
  ghost predicate RanInOrder(stages: seq<P.Stage>, upTo: nat, id: string, marked: set<string>) {
    exists i :: 0 <= i < upTo && i < |stages| && marked == Marked(stages, i) && RanAt(stages, i, id, marked)
  }

  /** Each call ran at most once, and in order. */
  ghost predicate RanFine(stages: seq<P.Stage>, upTo: nat, ran: seq<(string, set<string>)>) {
    && (forall r :: 0 <= r < |ran| ==> RanInOrder(stages, upTo, ran[r].0, ran[r].1))
    && (forall q, r :: 0 <= q < r < |ran| ==> ran[q].0 != ran[r].0)
  }

  /** What holds between the turns of a run of one plan. */
  ghost predicate PlanInv(stages: seq<P.Stage>, s: State) {
    && s.plan.Some? && s.plan.value.stages == stages && s.plan.value.current <= |stages|
    && Completed(s.plan.value) == Marked(stages, s.plan.value.current)
    && RanFine(stages, s.plan.value.current, s.ran)
  }

  lemma {:induction false} MarkAllMarks(completed: seq<string>, taken: seq<P.PlanCall>)
    requires forall c :: c in taken ==> c.id != ""
    ensures forall id :: id in MarkAll(completed, taken) <==> id in completed || id in P.Ids(taken)
    decreases |taken|
  {
    if taken != [] {
      var id := taken[0].id;
      assert taken[0] in taken && taken == [taken[0]] + taken[1..];
      MarkAllMarks(if id != "" && id !in completed then completed + [id] else completed, taken[1..]);
    }
  }

  lemma {:induction false} EligibleAreCalls(calls: seq<P.PlanCall>, completed: set<string>)
    requires forall i, j :: 0 <= i < j < |calls| ==> calls[i].id != calls[j].id
    ensures var e := Eligible(calls, completed);
            && (forall c :: c in e ==> c in calls && forall d :: d in c.dependsOn ==> d in completed)
            && (forall i, j :: 0 <= i < j < |e| ==> e[i].id != e[j].id)
    decreases |calls|
  {
    if calls != [] {
      EligibleAreCalls(calls[..|calls| - 1], completed);
      assert calls == calls[..|calls| - 1] + [calls[|calls| - 1]];
    }
  }

  lemma {:induction false} AcceptedAreCalls(cfg: E.Config, u: E.Usage, calls: seq<E.Call>)
    requires forall i, j :: 0 <= i < j < |calls| ==> calls[i].id != calls[j].id
    ensures var a := E.Accept(cfg, u, calls);
            && (forall c :: c in a ==> c in calls)
            && (forall i, j :: 0 <= i < j < |a| ==> a[i].id != a[j].id)
    decreases |calls|
  {
    if calls != [] {
      AcceptedAreCalls(cfg, u, calls[..|calls| - 1]);
      assert forall c :: c in calls[..|calls| - 1] ==> c.id != calls[|calls| - 1].id;
      assert calls == calls[..|calls| - 1] + [calls[|calls| - 1]];
    }
  }

  lemma StageIdsDiffer(stages: seq<P.Stage>, k: nat)
    requires UniqueIds(stages) && k < |stages|
    ensures forall i, j :: 0 <= i < j < |stages[k].calls| ==> stages[k].calls[i].id != stages[k].calls[j].id
  {
    assert forall i :: 0 <= i < |stages[k].calls| ==> IsCall(stages, k, i);
  }

  lemma NewRunsAreOfStage(cfg: E.Config, u: E.Usage, stages: seq<P.Stage>, k: nat, resolved: map<string, Resolved>)
    requires UniqueIds(stages) && k < |stages|
    ensures var incoming := IncomingAll(Eligible(stages[k].calls, Marked(stages, k)), resolved);
            forall a :: a in E.Accept(cfg, u, incoming) ==> RanAt(stages, k, a.id, Marked(stages, k))
  {
    var calls, marked := stages[k].calls, Marked(stages, k);
    StageIdsDiffer(stages, k);
    var taken := Eligible(calls, marked);
    EligibleAreCalls(calls, marked);
    var incoming := IncomingAll(taken, resolved);
    AcceptedAreCalls(cfg, u, incoming);
    forall a | a in E.Accept(cfg, u, incoming) ensures RanAt(stages, k, a.id, marked) {
      assert a in incoming;
      var i :| 0 <= i < |incoming| && incoming[i] == a;
      assert taken[i] in taken;
      var c :| 0 <= c < |calls| && calls[c] == taken[i];
      assert IsCall(stages, k, c);
    }
  }

  /** A stage marks those of its calls, and only those, that wait for nothing that is not marked yet. */
  lemma MarkedByStage(stages: seq<P.Stage>, k: nat, id: string)
    requires UniqueIds(stages) && k < |stages|
    ensures id in Marked(stages, k + 1) <==>
            id in Marked(stages, k) || RanAt(stages, k, id, Marked(stages, k))
  {
    var calls, marked := stages[k].calls, Marked(stages, k);
    if id in P.Ids(Eligible(calls, marked)) {
      var call :| call in Eligible(calls, marked) && call.id == id;
      EligibleExactly(calls, marked, call);
      var c :| 0 <= c < |calls| && calls[c] == call;
      assert IsCall(stages, k, c);
    }
    if RanAt(stages, k, id, marked) {
      var c :| IsCall(stages, k, c) && calls[c].id == id && forall d :: d in calls[c].dependsOn ==> d in marked;
      EligibleExactly(calls, marked, calls[c]);
    }
  }

  lemma {:induction false} EligibleExactly(calls: seq<P.PlanCall>, completed: set<string>, c: P.PlanCall)
    ensures c in Eligible(calls, completed) <==> c in calls && forall d :: d in c.dependsOn ==> d in completed
    decreases |calls|
  {
    if calls != [] {
      EligibleExactly(calls[..|calls| - 1], completed, c);
      assert calls == calls[..|calls| - 1] + [calls[|calls| - 1]];
    }
  }

  /** An accepted call of a stage is that plan call's tool with the arguments resolved for it. */
  lemma AcceptedRunPlannedTools(cfg: E.Config, u: E.Usage, stages: seq<P.Stage>, k: nat,
                                resolved: map<string, Resolved>, a: E.Call)
    requires UniqueIds(stages) && k < |stages|
    requires a in E.Accept(cfg, u, IncomingAll(Eligible(stages[k].calls, Marked(stages, k)), resolved))
    ensures exists c :: IsCall(stages, k, c) && stages[k].calls[c].id == a.id
                && a.sig.name == E.ToolNamed(stages[k].calls[c].tool)
                && (a.id in resolved ==> a.sig.args == resolved[a.id].args && a.targets == resolved[a.id].targets)
  {
    var calls, marked := stages[k].calls, Marked(stages, k);
    StageIdsDiffer(stages, k);
    var taken := Eligible(calls, marked);
    EligibleAreCalls(calls, marked);
    AcceptedAreCalls(cfg, u, IncomingAll(taken, resolved));
    var i :| 0 <= i < |taken| && IncomingAll(taken, resolved)[i] == a;
    assert taken[i] in taken;
    var c :| 0 <= c < |calls| && calls[c] == taken[i];
    assert IsCall(stages, k, c);
  }

  /** The calls a stage adds to those that ran are of that stage and new. */
  lemma StageRuns(cfg: E.Config, u: E.Usage, stages: seq<P.Stage>, k: nat, ran: seq<(string, set<string>)>,
                  resolved: map<string, Resolved>)
    requires UniqueIds(stages) && k < |stages| && RanFine(stages, k, ran)
    ensures var taken := Eligible(stages[k].calls, Marked(stages, k));
            RanFine(stages, k + 1, ran + RanWith(E.Accept(cfg, u, IncomingAll(taken, resolved)), Marked(stages, k)))
  {
    var calls := stages[k].calls;
    StageIdsDiffer(stages, k);
    var taken := Eligible(calls, Marked(stages, k));
    EligibleAreCalls(calls, Marked(stages, k));
    var accepted := E.Accept(cfg, u, IncomingAll(taken, resolved));
    AcceptedAreCalls(cfg, u, IncomingAll(taken, resolved));
    NewRunsAreOfStage(cfg, u, stages, k, resolved);
    forall a | 0 <= a < |accepted| ensures RanInOrder(stages, k + 1, accepted[a].id, Marked(stages, k)) {
      assert accepted[a] in accepted;
    }
    forall r, a | 0 <= r < |ran| && 0 <= a < |accepted| ensures ran[r].0 != accepted[a].id {
      assert RanInOrder(stages, k, ran[r].0, ran[r].1) && accepted[a] in accepted;
    }
    forall r | 0 <= r < |ran| ensures RanInOrder(stages, k + 1, ran[r].0, ran[r].1) {
      assert RanInOrder(stages, k, ran[r].0, ran[r].1);
    }
  }

  lemma TakenIsMarked(stages: seq<P.Stage>, k: nat, completed: seq<string>)
    requires UniqueIds(stages) && k < |stages| && forall id :: id in completed <==> id in Marked(stages, k)
    ensures var taken := Eligible(stages[k].calls, Marked(stages, k));
            forall id :: id in MarkAll(completed, taken) <==> id in Marked(stages, k + 1)
  {
    var calls := stages[k].calls;
    StageIdsDiffer(stages, k);
    var taken := Eligible(calls, Marked(stages, k));
    EligibleAreCalls(calls, Marked(stages, k));
    forall c | c in taken ensures c.id != "" {
      var i :| 0 <= i < |calls| && calls[i] == c;
      assert IsCall(stages, k, i);
    }
    MarkAllMarks(completed, taken);
  }

  /** One visit of the executor takes up one stage: it runs calls of that stage only, all they depend
      on being marked; it fails exactly when something ran and the batch timed out, and otherwise
      moves on to the next stage. */
  lemma ExecuteTakesStage(cfg: Settings, s: State, turn: Turn, stages: seq<P.Stage>)
    requires PlanInv(stages, s) && UniqueIds(stages) && !s.plan.value.Done()
    ensures var after, k := Execute(cfg, s, turn), s.plan.value.current;
            && s.ran <= after.ran && RanFine(stages, k + 1, after.ran)
            && (forall r :: |s.ran| <= r < |after.ran| ==>
                  after.ran[r].1 == Marked(stages, k) && RanAt(stages, k, after.ran[r].0, Marked(stages, k)))
            && after.status == (if turn.timedOut && after.ran != s.ran then Failed else Planning)
            && (after.status == Failed ==> after.plan == s.plan)
            && (after.status == Planning ==> PlanInv(stages, after) && after.plan.value.current == k + 1)
  {
    hide UniqueIds, RanAt, RanFine;
    var plan := s.plan.value;
    var k := plan.current;
    StageRuns(cfg.tools, s.usage, stages, k, s.ran, turn.resolved);
    NewRunsAreOfStage(cfg.tools, s.usage, stages, k, turn.resolved);
    TakenIsMarked(stages, k, plan.completed);
    assert Completed(Advance(plan, Eligible(stages[k].calls, Marked(stages, k)))) == Marked(stages, k + 1);
  }

  /** The log entry is for the tool that the stage plans under this id. */
  ghost predicate LogsTool(stages: seq<P.Stage>, k: nat, id: string, e: E.Entry) {
    exists c :: IsCall(stages, k, c) && stages[k].calls[c].id == id
                && e.sig.name == E.ToolNamed(stages[k].calls[c].tool)
  }

  lemma AcceptedLogsTool(cfg: E.Config, u: E.Usage, stages: seq<P.Stage>, k: nat, resolved: map<string, Resolved>,
                         a: E.Call, billable: bool)
    requires UniqueIds(stages) && k < |stages|
    requires a in E.Accept(cfg, u, IncomingAll(Eligible(stages[k].calls, Marked(stages, k)), resolved))
    ensures LogsTool(stages, k, a.id, E.Entry(a.sig, billable))
  {
    AcceptedRunPlannedTools(cfg, u, stages, k, resolved, a);
  }

  /** Each call that a stage runs is one more row of the log, in the same order, for the planned tool. */
  lemma StageLogsItsTools(cfg: Settings, s: State, turn: Turn, stages: seq<P.Stage>)
    requires PlanInv(stages, s) && UniqueIds(stages) && !s.plan.value.Done()
    ensures var after, k := Execute(cfg, s, turn), s.plan.value.current;
            var log, log' := s.usage.log, after.usage.log;
            && log <= log' && |log'| - |log| == |after.ran| - |s.ran|
            && forall r :: |s.ran| <= r < |after.ran| ==>
                 LogsTool(stages, k, after.ran[r].0, log'[|log| + r - |s.ran|])
  {
    hide UniqueIds, RanFine, E.Execute, E.Accept, LogsTool, Eligible, Advance, MarkAll;
    var k := s.plan.value.current;
    var incoming := IncomingAll(Eligible(stages[k].calls, Marked(stages, k)), turn.resolved);
    E.ExecuteLogs(cfg.tools, s.usage, incoming, turn.outcomes);
    var accepted := E.Accept(cfg.tools, s.usage, incoming);
    forall i | 0 <= i < |accepted|
      ensures var billable := i < |turn.outcomes| && turn.outcomes[i].billable;
              LogsTool(stages, k, accepted[i].id, E.Entry(accepted[i].sig, billable))
    {
      AcceptedLogsTool(cfg.tools, s.usage, stages, k, turn.resolved, accepted[i],
                       i < |turn.outcomes| && turn.outcomes[i].billable);
    }
  }

  lemma RanFineGrows(stages: seq<P.Stage>, a: nat, b: nat, ran: seq<(string, set<string>)>)
    requires RanFine(stages, a, ran) && a <= b
    ensures RanFine(stages, b, ran)
  {
    forall r | 0 <= r < |ran| ensures RanInOrder(stages, b, ran[r].0, ran[r].1) {
      assert RanInOrder(stages, a, ran[r].0, ran[r].1);
    }
  }

  /** What a turn of a plan run leads to: the next stage, or the end of the run. */
  ghost predicate PlanTurnFine(stages: seq<P.Stage>, current: nat, next: State, node: Node, visits: nat) {
    && visits <= 1
    && (if node == ToUi then RanFine(stages, |stages|, next.ran) && (next.status == Planning ==> AllTaken(stages, next))
        else PlanInv(stages, next) && next.plan.value.current == current + 1 < |stages|)
  }

  ghost predicate AllTaken(stages: seq<P.Stage>, s: State) {
    s.plan.Some? && s.plan.value.Done() && Completed(s.plan.value) == Marked(stages, |stages|)
  }

  lemma ActivePlanTurn(cfg: Settings, s: State, turn: Turn, stages: seq<P.Stage>)
    requires PlanInv(stages, s) && UniqueIds(stages) && !s.plan.value.Done() && s.status == Executing
    ensures var after := Execute(cfg, s, turn);
            PlanTurnFine(stages, s.plan.value.current, after, AfterTools(cfg, after), 1)
  {
    hide RanAt, UniqueIds, Marked, Eligible, Execute, RanFine;
    ExecuteTakesStage(cfg, s, turn, stages);
    RanFineGrows(stages, s.plan.value.current + 1, |stages|, Execute(cfg, s, turn).ran);
  }

  lemma DonePlanTurn(cfg: Settings, s: State, turn: Turn, stages: seq<P.Stage>)
    requires PlanInv(stages, s) && s.plan.value.Done() && s.status == Executing
    ensures var after := Execute(cfg, s, turn);
            PlanTurnFine(stages, s.plan.value.current, after, AfterTools(cfg, after), 1)
  {
    hide RanAt, UniqueIds, RanFine, E.Execute, E.Accept;
    RanFineGrows(stages, s.plan.value.current, |stages|, s.ran);
  }

  lemma PlanTurn(cfg: Settings, s: State, turn: Turn, stages: seq<P.Stage>)
    requires PlanInv(stages, s) && UniqueIds(stages) && Offered(cfg, turn.answer) == None
    ensures var (next, node, visits) := Step(cfg, s, turn);
            PlanTurnFine(stages, s.plan.value.current, next, node, visits)
  {
    var planned := Planner(cfg, s, turn.answer);
    assert planned.plan == s.plan && planned.ran == s.ran;
    RanFineGrows(stages, s.plan.value.current, |stages|, s.ran);
    if planned.status == Executing {
      if planned.plan.value.Done() {
        DonePlanTurn(cfg, planned, turn, stages);
      } else {
        ActivePlanTurn(cfg, planned, turn, stages);
      }
    }
  }

  /** Whatever the model answers short of a new plan, a run of a plan ends within its remaining
      stages; no call runs twice, and none before what it depends on is marked. */
  lemma {:induction false} PlanRunEnds(cfg: Settings, s: State, turns: seq<Turn>, stages: seq<P.Stage>)
    requires PlanInv(stages, s) && UniqueIds(stages) && NoNewPlan(cfg, turns)
    ensures var bound := Max(1, |stages| - s.plan.value.current);
            var (last, ended, visits) := Drive(cfg, s, turns);
            && visits <= bound && (|turns| >= bound ==> ended)
            && RanFine(stages, |stages|, last.ran)
            && (ended && last.status == Planning ==> AllTaken(stages, last))
    decreases |turns|
  {
    if turns == [] {
      RanFineGrows(stages, s.plan.value.current, |stages|, s.ran);
    } else {
      assert turns[0] in turns;
      PlanTurn(cfg, s, turns[0], stages);
      var (next, node, visits) := Step(cfg, s, turns[0]);
      if node != ToUi {
        PlanRunEnds(cfg, next, turns[1..], stages);
      }
    }
  }

  /** Position of a call in the whole plan. */
  lemma CallAt(stages: seq<P.Stage>, i: nat, c: nat)
    requires IsCall(stages, i, c)
    ensures var before := |P.AllCalls(stages[..i])|;
            && before + c < |P.AllCalls(stages[..i + 1])| <= |P.AllCalls(stages)|
            && P.AllCalls(stages)[before + c] == stages[i].calls[c]
  {
    assert stages[..i + 1][..i] == stages[..i];
    P.AllCallsPrefix(stages, i + 1);
  }

  lemma CallsBefore(stages: seq<P.Stage>, i: nat, j: nat)
    requires i < j <= |stages|
    ensures |P.AllCalls(stages[..i + 1])| <= |P.AllCalls(stages[..j])|
  {
    assert stages[..j][..i + 1] == stages[..i + 1];
    P.AllCallsPrefix(stages[..j], i + 1);
  }

  lemma NamesTellApart(calls: seq<P.PlanCall>, p: nat, q: nat)
    requires P.NamesFine(calls) && p < q < |calls|
    ensures calls[p].id != calls[q].id
  {
    assert P.NameFault(calls, q) == None;
    assert calls[p] in calls[..q];
  }

  lemma CallsTellApart(stages: seq<P.Stage>, i: nat, c: nat, j: nat, d: nat)
    requires P.NamesFine(P.AllCalls(stages)) && IsCall(stages, i, c) && IsCall(stages, j, d)
    requires i < j || (i == j && c < d)
    ensures stages[i].calls[c].id != stages[j].calls[d].id
  {
    hide P.AllCalls, P.NamesFine;
    CallAt(stages, i, c);
    CallAt(stages, j, d);
    if i < j {
      CallsBefore(stages, i, j);
    }
    NamesTellApart(P.AllCalls(stages), |P.AllCalls(stages[..i])| + c, |P.AllCalls(stages[..j])| + d);
  }

  /** An accepted plan has an id for each call. */
  lemma AcceptedPlanHasUniqueIds(stages: seq<P.Stage>)
    requires P.NamesFine(P.AllCalls(stages))
    ensures UniqueIds(stages)
  {
    var all := P.AllCalls(stages);
    forall i, c | IsCall(stages, i, c) ensures stages[i].calls[c].id != "" {
      CallAt(stages, i, c);
      assert P.NameFault(all, |P.AllCalls(stages[..i])| + c) == None;
    }
    forall i, c, j, d | IsCall(stages, i, c) && IsCall(stages, j, d) && (i < j || (i == j && c < d))
      ensures stages[i].calls[c].id != stages[j].calls[d].id
    {
      CallsTellApart(stages, i, c, j, d);
    }
  }

  /** A run whose first answer brings an accepted plan, and later answers bring no other: at most
      one executor visit for each stage, each call at most once, and only once all it depends on was
      marked completed by earlier stages. */
  lemma AcceptedPlanRuns(cfg: Settings, plan: P.Plan, usage: E.Usage, first: Turn, rest: seq<Turn>)
    requires P.NamesFine(P.AllCalls(plan.stages)) && plan.current == 0 && plan.completed == []
    requires Offered(cfg, first.answer) == Some(plan) && NoNewPlan(cfg, rest)
    ensures var (last, ended, visits) := Drive(cfg, State(Planning, None, usage, [], []), [first] + rest);
            && visits <= Max(1, |plan.stages|) && (1 + |rest| >= Max(1, |plan.stages|) ==> ended)
            && RanFine(plan.stages, |plan.stages|, last.ran)
  {
    AcceptedPlanHasUniqueIds(plan.stages);
    var s := State(Planning, None, usage, [], []);
    var planned := s.(plan := Some(plan));
    var again := first.(answer := first.answer.(newPlan := None));
    assert Planner(cfg, planned, again.answer) == Planner(cfg, s, first.answer);
    assert Execute(cfg, Planner(cfg, planned, again.answer), again)
        == Execute(cfg, Planner(cfg, s, first.answer), first);
    assert Step(cfg, planned, again) == Step(cfg, s, first);
    assert ([first] + rest)[1..] == rest && ([again] + rest)[1..] == rest;
    assert Drive(cfg, s, [first] + rest) == Drive(cfg, planned, [again] + rest);
    PlanRunEnds(cfg, planned, [again] + rest, plan.stages);
  }

  /** Being marked takes an earlier stage. */
  lemma {:induction false} MarkedAreEarlier(stages: seq<P.Stage>, k: nat, id: string)
    requires UniqueIds(stages) && k <= |stages| && id in Marked(stages, k)
    ensures exists i, c :: IsCall(stages, i, c) && i < k && stages[i].calls[c].id == id
    decreases k
  {
    if id in Marked(stages, k - 1) {
      MarkedAreEarlier(stages, k - 1, id);
    } else {
      var calls := stages[k - 1].calls;
      StageIdsDiffer(stages, k - 1);
      EligibleAreCalls(calls, Marked(stages, k - 1));
      var call :| call in Eligible(calls, Marked(stages, k - 1)) && call.id == id;
      var c :| 0 <= c < |calls| && calls[c] == call;
      assert IsCall(stages, k - 1, c);
    }
  }

  /** So a call that depends on its own or a later stage never runs. */
  lemma DependenciesOfRanAreEarlier(stages: seq<P.Stage>, ran: seq<(string, set<string>)>, i: nat, c: nat, r: nat,
                                    dep: string, j: nat, d: nat)
    requires UniqueIds(stages) && RanFine(stages, |stages|, ran) && IsCall(stages, i, c) && IsCall(stages, j, d)
    requires r < |ran| && ran[r].0 == stages[i].calls[c].id
    requires dep in stages[i].calls[c].dependsOn && stages[j].calls[d].id == dep
    ensures j < i
  {
    assert RanInOrder(stages, |stages|, ran[r].0, ran[r].1);
    var k, e :| IsCall(stages, k, e) && stages[k].calls[e].id == ran[r].0 && ran[r].1 == Marked(stages, k)
                && forall x :: x in stages[k].calls[e].dependsOn ==> x in ran[r].1;
    MarkedAreEarlier(stages, k, dep);
  }

  /* ---- runs with new plans ---- */

  /** A plan of two empty stages. */
  const EMPTY_STAGES := P.Plan([P.Stage([]), P.Stage([])], 0, [])

  function Replans(n: nat): (turns: seq<Turn>)
    ensures |turns| == n
    decreases n
  {
    if n == 0 then [] else [Turn(Message([], Some(EMPTY_STAGES)), map[], [], false)] + Replans(n - 1)
  }

  /** Plans that are accepted and not yet begun. */
  ghost predicate FreshPlans(turns: seq<Turn>) {
    forall t :: t in turns && t.answer.Message? && t.answer.newPlan.Some? ==>
      var plan := t.answer.newPlan.value;
      P.ValidPlan(plan) && plan.current == 0 && plan.completed == []
  }

  lemma {:induction false} ReplansAreFresh(n: nat)
    ensures FreshPlans(Replans(n))
    decreases n
  {
    var plan := EMPTY_STAGES;
    assert plan.stages[..1] == [P.Stage([])] && P.AllCalls(plan.stages) == [];
    P.TopologicalIsAcyclic(P.GraphOf([]), []);
    if n > 0 {
      ReplansAreFresh(n - 1);
    }
  }

  /** The iteration cap is not consulted while there is a plan: in compiler mode a model that brings
      a new accepted plan every time keeps the run going for any number of executor visits. */
  lemma {:induction false} ReplanningIsUnbounded(cfg: Settings, s: State, n: nat)
    requires cfg.compilerMode
    ensures Drive(cfg, s, Replans(n)).1 == false && Drive(cfg, s, Replans(n)).2 == n
    decreases n
  {
    if n > 0 {
      var turn := Turn(Message([], Some(EMPTY_STAGES)), map[], [], false);
      assert Replans(n)[0] == turn && Replans(n)[1..] == Replans(n - 1);
      var planned := Planner(cfg, s, turn.answer);
      assert Eligible(EMPTY_STAGES.stages[0].calls, {}) == [] && E.Accept(cfg.tools, s.usage, []) == [];
      var next := Execute(cfg, planned, turn);
      assert next.plan == Some(EMPTY_STAGES.(current := 1)) && AfterTools(cfg, next) == ToPlanner;
      ReplanningIsUnbounded(cfg, next, n - 1);
    }
  }

  /** The iteration cap bounds every run that starts without a plan, if and only if compiler mode is
      off. */
  lemma CapHoldsIff(cfg: Settings, s: State)
    requires s.plan == None
    ensures (forall turns :: FreshPlans(turns) ==>
               Drive(cfg, s, turns).2 <= Max(1, cfg.iterationCap - s.usage.iterations)) <==> !cfg.compilerMode
  {
    hide Drive, Replans;
    var bound: nat := Max(1, cfg.iterationCap - s.usage.iterations);
    if cfg.compilerMode {
      ReplansAreFresh(bound + 1);
      ReplanningIsUnbounded(cfg, s, bound + 1);
    } else {
      forall turns ensures Drive(cfg, s, turns).2 <= bound {
        PlanlessRunIsCapped(cfg, s, turns);
      }
    }
  }

  /* ---- the nodes ---- */

  /** The planner node reassigns the plan and the status step by step. */
  method PlannerNode(cfg: Settings, s: State, answer: Answer) returns (next: State)
    ensures next == Planner(cfg, s, answer)
  {
    match answer
    case ProviderError =>
      next := s.(status := Failed);
    case Message(toolCalls, newPlan) =>
      var plan := s.plan;
      if cfg.compilerMode && newPlan.Some? {
        plan := newPlan;
      }
      var status := GeneratingUi;
      if toolCalls != [] || (plan.Some? && !plan.value.Done()) {
        status := Executing;
      }
      next := s.(status := status, plan := plan, requested := toolCalls);
  }

  /** The calls of the current stage that may run. */
  method TakeStage(plan: P.Plan) returns (taken: seq<P.PlanCall>)
    requires !plan.Done()
    ensures taken == Eligible(plan.stages[plan.current].calls, Completed(plan))
  {
    var calls := plan.stages[plan.current].calls;
    var completed := Completed(plan);
    taken := [];
    for i := 0 to |calls|
      invariant taken == Eligible(calls[..i], completed)
    {
      assert calls[..i + 1][..i] == calls[..i];
      var ready := true;
      for d := 0 to |calls[i].dependsOn|
        invariant ready <==> forall e :: 0 <= e < d ==> calls[i].dependsOn[e] in completed
      {
        ready := ready && calls[i].dependsOn[d] in completed;
      }
      if ready {
        taken := taken + [calls[i]];
      }
    }
    assert calls[..|calls|] == calls;
  }

  /** Appending the taken ids to the plan's completed ones and moving its index. */
  method AdvanceStage(plan: P.Plan, taken: seq<P.PlanCall>) returns (next: P.Plan)
    ensures next == Advance(plan, taken)
  {
    var completed := plan.completed;
    for i := 0 to |taken|
      invariant MarkAll(completed, taken[i..]) == MarkAll(plan.completed, taken)
    {
      assert taken[i..][0] == taken[i] && taken[i..][1..] == taken[i + 1..];
      if taken[i].id != "" && taken[i].id !in completed {
        completed := completed + [taken[i].id];
      }
    }
    assert taken[|taken|..] == [];
    next := plan.(current := plan.current + 1, completed := completed);
  }

  /** The executor node: a plan stage or the requested calls, accounted for, and the plan advanced
      unless the batch timed out. */
  method ToolExecutorNode(cfg: Settings, s: State, turn: Turn) returns (next: State)
    ensures next == Execute(cfg, s, turn)
  {
    var usingPlan := s.plan.Some? && !s.plan.value.Done();
    var taken, incoming, marked := [], s.requested, {};
    if usingPlan {
      taken := TakeStage(s.plan.value);
      incoming := IncomingAll(taken, turn.resolved);
      marked := Completed(s.plan.value);
    } else if s.requested == [] {
      return s.(status := GeneratingUi);
    }
    var accepted, skipped := E.SelectCalls(cfg.tools, s.usage, incoming);
    var usage, _ := E.ExecuteTools(cfg.tools, s.usage, incoming, turn.outcomes);
    next := s.(usage := usage, status := if accepted != [] && turn.timedOut then Failed else Planning);
    if usingPlan {
      next := next.(ran := s.ran + RanWith(accepted, marked));
      if next.status == Planning {
        var plan := AdvanceStage(s.plan.value, taken);
        next := next.(plan := Some(plan));
      }
    }
  }

  /** The graph with its two routings: planner, executor if routed to, and back, until the user
      interface is reached or the answers end. */
  method RunGraph(cfg: Settings, s: State, turns: seq<Turn>) returns (last: State, ended: bool, visits: nat)
    ensures (last, ended, visits) == Drive(cfg, s, turns)
  {
    hide Execute, Planner, AfterTools;
    last, ended, visits := s, false, 0;
    var i := 0;
    while i < |turns| && !ended
      invariant i <= |turns|
      invariant Drive(cfg, s, turns) ==
                if ended then (last, true, visits)
                else var (l, e, more) := Drive(cfg, last, turns[i..]); (l, e, visits + more)
    {
      assert turns[i..][0] == turns[i] && turns[i..][1..] == turns[i + 1..];
      last := PlannerNode(cfg, last, turns[i].answer);
      if AfterPlanner(last) == ToExecutor {
        last := ToolExecutorNode(cfg, last, turns[i]);
        visits := visits + 1;
        ended := AfterTools(cfg, last) == ToUi;
      } else {
        ended := true;
      }
      i := i + 1;
    }
    assert !ended ==> turns[i..] == [];
  }
}
