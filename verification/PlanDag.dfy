/** Staged plans and the validation of their dependency graph (agent/planner_ir.py). */
module PlanDag {
  import opened Common

  datatype PlanCall = PlanCall(id: string, tool: string, dependsOn: seq<string>)

  datatype Stage = Stage(calls: seq<PlanCall>)

  datatype Plan = Plan(stages: seq<Stage>, current: nat, completed: seq<string>) {
    predicate Done() {
      current >= |stages|
    }
  }

  datatype Verdict = Accepted | EmptyId | MissingTool(id: string) | Duplicate(id: string)
                   | UnknownDependency(id: string, dep: string) | Cyclic

  type Graph = map<string, seq<string>>

  function AllCalls(stages: seq<Stage>): seq<PlanCall>
    decreases |stages|
  {
    if stages == [] then [] else AllCalls(stages[..|stages| - 1]) + stages[|stages| - 1].calls
  }

  function Ids(calls: seq<PlanCall>): set<string> {
    set c | c in calls :: c.id
  }

  /** What is wrong with a call's names, given the calls before it. */
  function NameFault(calls: seq<PlanCall>, i: nat): Option<Verdict>
    requires i < |calls|
  {
    if calls[i].id == "" then Some(EmptyId)
    else if calls[i].tool == "" then Some(MissingTool(calls[i].id))
    else if calls[i].id in Ids(calls[..i]) then Some(Duplicate(calls[i].id))
    else None
  }

  predicate NamesFine(calls: seq<PlanCall>) {
    forall i :: 0 <= i < |calls| ==> NameFault(calls, i) == None
  }

  /** Every call has an id and a tool, and no id is used twice. */
  lemma NamesFineIff(calls: seq<PlanCall>)
    ensures NamesFine(calls) <==>
            && (forall i :: 0 <= i < |calls| ==> calls[i].id != "" && calls[i].tool != "")
            && (forall i, j :: 0 <= i < j < |calls| ==> calls[i].id != calls[j].id)
  {
    if NamesFine(calls) {
      forall i, j | 0 <= i < j < |calls| ensures calls[i].id != calls[j].id {
        assert NameFault(calls, j) == None && calls[..j][i] == calls[i];
      }
      forall i | 0 <= i < |calls| ensures calls[i].id != "" && calls[i].tool != "" {
        assert NameFault(calls, i) == None;
      }
    } else {
      var j :| 0 <= j < |calls| && NameFault(calls, j) != None;
      if calls[j].id != "" && calls[j].tool != "" {
        var c :| c in calls[..j] && c.id == calls[j].id;
        var i :| 0 <= i < j && calls[i] == c;
      }
    }
  }

  predicate KnownDependencies(calls: seq<PlanCall>, known: set<string>) {
    forall i :: 0 <= i < |calls| ==> forall dep :: dep in calls[i].dependsOn ==> dep in known
  }

  /** The dependencies of each call, by id. */
  function GraphOf(calls: seq<PlanCall>): Graph
    decreases |calls|
  {
    if calls == [] then map[]
    else
      var last := calls[|calls| - 1];
      GraphOf(calls[..|calls| - 1])[last.id := last.dependsOn]
  }

  predicate Closed(graph: Graph) {
    forall n :: n in graph ==> forall dep :: dep in graph[n] ==> dep in graph
  }

  /** A path along dependencies. */
  predicate IsPath(graph: Graph, path: seq<string>) {
    && (forall i :: 0 <= i < |path| ==> path[i] in graph)
    && (forall i :: 0 < i < |path| ==> path[i] in graph[path[i - 1]])
  }

  predicate IsCycle(graph: Graph, cycle: seq<string>) {
    cycle != [] && IsPath(graph, cycle) && cycle[0] in graph[cycle[|cycle| - 1]]
  }

  /** Every node once, after all nodes it depends on. */
  ghost predicate Topological(graph: Graph, order: seq<string>) {
    && (forall i, j :: 0 <= i < j < |order| ==> order[i] != order[j])
    && (forall n :: n in order <==> n in graph)
    && AfterDependencies(graph, order)
  }

  predicate AfterDependencies(graph: Graph, order: seq<string>)
    requires forall n :: n in order ==> n in graph
  {
    forall i :: 0 <= i < |order| ==> forall dep :: dep in graph[order[i]] ==> dep in order[..i]
  }

  lemma FinishNode(graph: Graph, order: seq<string>, node: string)
    requires (forall n :: n in order ==> n in graph) && AfterDependencies(graph, order)
    requires node in graph && forall dep :: dep in graph[node] ==> dep in order
    ensures (forall n :: n in order + [node] ==> n in graph) && AfterDependencies(graph, order + [node])
  {
    forall i | 0 <= i < |order + [node]|
        ensures forall dep :: dep in graph[(order + [node])[i]] ==> dep in (order + [node])[..i] {
      if i < |order| {
        assert (order + [node])[..i] == order[..i];
      } else {
        assert (order + [node])[..i] == order;
      }
    }
  }

  ghost predicate Acyclic(graph: Graph) {
    !exists cycle :: IsCycle(graph, cycle)
  }

  /** Along a path each node stands before its predecessor in a topological order. */
  lemma {:induction false} PathDescends(graph: Graph, order: seq<string>, path: seq<string>, at: nat)
    returns (last: nat)
    requires Topological(graph, order) && IsPath(graph, path) && path != [] && at < |order| && order[at] == path[0]
    ensures last <= at && order[last] == path[|path| - 1]
    decreases |path|
  {
    if |path| == 1 {
      last := at;
    } else {
      assert path[1] in order[..at];
      var next :| 0 <= next < at && order[next] == path[1];
      assert forall i :: 0 < i < |path[1..]| ==> path[1..][i] == path[i + 1] && path[1..][i - 1] == path[i];
      last := PathDescends(graph, order, path[1..], next);
    }
  }

  lemma TopologicalIsAcyclic(graph: Graph, order: seq<string>)
    requires Topological(graph, order)
    ensures Acyclic(graph)
  {
    forall cycle | cycle != [] && IsPath(graph, cycle) ensures !IsCycle(graph, cycle) {
      var at :| 0 <= at < |order| && order[at] == cycle[0];
      var last := PathDescends(graph, order, cycle, at);
      assert order[at] !in order[..last];
    }
  }

  /** The depth-first search with its two sets of nodes. */
  class Search {
    const graph: Graph
    var visiting: set<string>
    var visited: set<string>
    ghost var order: seq<string>

    constructor (graph: Graph)
      ensures this.graph == graph && Valid() && visiting == {} && visited == {}
    {
      this.graph := graph;
      visiting, visited, order := {}, {}, [];
    }

    /** The finished nodes, in the order they were finished, stand after their dependencies. */
    ghost predicate Valid()
      reads this
    {
      && (forall n :: n in order <==> n in visited)
      && (forall i, j :: 0 <= i < j < |order| ==> order[i] != order[j])
      && visited <= graph.Keys && visiting <= graph.Keys && visited !! visiting
      && AfterDependencies(graph, order)
    }

    /** False is the raised cycle error; stack is the path of calls that led here. */
    method Dfs(node: string, ghost stack: seq<string>) returns (ok: bool, ghost cycle: seq<string>)
      requires Valid() && Closed(graph) && node in graph
      requires IsPath(graph, stack + [node]) && forall n :: n in stack <==> n in visiting
      modifies this
      ensures ok ==> Valid() && visiting == old(visiting) && old(visited) + {node} <= visited
      ensures !ok ==> IsCycle(graph, cycle)
      decreases graph.Keys - visiting
    {
      ok, cycle := true, [];
      if node in visited {
        return;
      }
      if node in visiting {
        cycle := CycleOnStack(graph, stack, node);
        return false, cycle;
      }
      visiting := visiting + {node};
      ghost var deeper := stack + [node];
      for i := 0 to |graph[node]|
        invariant Valid() && visiting == old(visiting) + {node} && old(visited) <= visited
        invariant forall j :: 0 <= j < i ==> graph[node][j] in visited
      {
        var dep := graph[node][i];
        assert dep in graph[node];
        assert IsPath(graph, deeper + [dep]);
        ok, cycle := Dfs(dep, deeper);
        if !ok {
          return;
        }
      }
      visiting := visiting - {node};
      visited := visited + {node};
      FinishNode(graph, order, node);
      order := order + [node];
    }
  }

  lemma CycleOnStack(graph: Graph, stack: seq<string>, node: string) returns (cycle: seq<string>)
    requires IsPath(graph, stack + [node]) && node in stack
    ensures IsCycle(graph, cycle)
  {
    var i :| 0 <= i < |stack| && stack[i] == node;
    cycle := stack[i..];
    forall j | 0 <= j < |cycle| ensures cycle[j] in graph {
      assert (stack + [node])[i + j] in graph;
    }
    forall j | 0 < j < |cycle| ensures cycle[j] in graph[cycle[j - 1]] {
      assert (stack + [node])[i + j] in graph[(stack + [node])[i + j - 1]];
    }
    assert (stack + [node])[|stack|] in graph[(stack + [node])[|stack| - 1]];
  }

  /** The first name fault of the calls. */
  predicate FirstFault(calls: seq<PlanCall>, fault: Verdict) {
    exists i :: 0 <= i < |calls| && NameFault(calls, i) == Some(fault) && NamesFine(calls[..i])
  }

  /** The first pass: names, in the order of the plan. */
  method CollectCalls(plan: Plan) returns (fault: Option<Verdict>, callIds: set<string>, calls: seq<PlanCall>)
    ensures fault == None ==> calls == AllCalls(plan.stages) && callIds == Ids(calls) && NamesFine(calls)
    ensures fault.Some? ==> FirstFault(AllCalls(plan.stages), fault.value)
  {
    hide NameFault, FirstFault;
    callIds, calls, fault := {}, [], None;
    for s := 0 to |plan.stages|
      invariant fault == None && calls == AllCalls(plan.stages[..s]) && callIds == Ids(calls) && NamesFine(calls)
    {
      var stage := plan.stages[s];
      assert plan.stages[..s + 1][..s] == plan.stages[..s];
      for c := 0 to |stage.calls|
        invariant
          && fault == None && calls == AllCalls(plan.stages[..s]) + stage.calls[..c]
          && callIds == Ids(calls) && NamesFine(calls)
      {
        var call := stage.calls[c];
        fault := if call.id == "" then Some(EmptyId)
                 else if call.tool == "" then Some(MissingTool(call.id))
                 else if call.id in callIds then Some(Duplicate(call.id)) else None;
        NextFault(calls, call);
        if fault.Some? {
          NextCall(plan.stages, s, c);
          FaultStays(calls, call, AllCalls(plan.stages));
          return;
        }
        assert stage.calls[..c + 1] == stage.calls[..c] + [call];
        callIds := callIds + {call.id};
        calls := calls + [call];
      }
      assert stage.calls[..|stage.calls|] == stage.calls;
    }
    assert plan.stages[..|plan.stages|] == plan.stages;
  }

  lemma NextFault(calls: seq<PlanCall>, call: PlanCall)
    requires NamesFine(calls)
    ensures NameFault(calls + [call], |calls|) == if call.id == "" then Some(EmptyId)
                                                  else if call.tool == "" then Some(MissingTool(call.id))
                                                  else if call.id in Ids(calls) then Some(Duplicate(call.id)) else None
    ensures NamesFine(calls + [call]) <==> NameFault(calls + [call], |calls|) == None
    ensures Ids(calls + [call]) == Ids(calls) + {call.id}
  {
    assert (calls + [call])[..|calls|] == calls;
    NameFaultsOfPrefix(calls + [call], calls);
  }

  lemma FaultStays(calls: seq<PlanCall>, call: PlanCall, all: seq<PlanCall>)
    requires NamesFine(calls) && calls + [call] <= all && NameFault(calls + [call], |calls|).Some?
    ensures FirstFault(all, NameFault(calls + [call], |calls|).value)
  {
    NameFaultsOfPrefix(all, calls + [call]);
    assert all[..|calls|] == calls;
    assert NameFault(all, |calls|) == NameFault(calls + [call], |calls|);
  }

  lemma NameFaultsOfPrefix(calls: seq<PlanCall>, prefix: seq<PlanCall>)
    requires prefix <= calls
    ensures forall i :: 0 <= i < |prefix| ==> NameFault(prefix, i) == NameFault(calls, i)
  {
    forall i | 0 <= i < |prefix| ensures NameFault(prefix, i) == NameFault(calls, i) {
      assert prefix[..i] == calls[..i];
    }
  }

  lemma {:induction false} AllCallsPrefix(stages: seq<Stage>, n: nat)
    requires n <= |stages|
    ensures AllCalls(stages[..n]) <= AllCalls(stages)
    decreases |stages|
  {
    if n == |stages| {
      assert stages[..n] == stages;
    } else {
      AllCallsPrefix(stages[..|stages| - 1], n);
      assert stages[..|stages| - 1][..n] == stages[..n];
    }
  }

  lemma NextCall(stages: seq<Stage>, s: nat, c: nat)
    requires s < |stages| && c < |stages[s].calls|
    ensures AllCalls(stages[..s]) + stages[s].calls[..c] + [stages[s].calls[c]] <= AllCalls(stages)
  {
    assert stages[..s + 1][..s] == stages[..s];
    AllCallsPrefix(stages, s + 1);
    assert stages[s].calls[..c] + [stages[s].calls[c]] <= stages[s].calls;
  }

  method BuildGraph(calls: seq<PlanCall>) returns (graph: Graph)
    ensures graph == GraphOf(calls)
  {
    graph := map[];
    for i := 0 to |calls|
      invariant graph == GraphOf(calls[..i])
    {
      assert calls[..i + 1][..i] == calls[..i];
      graph := graph[calls[i].id := calls[i].dependsOn];
    }
    assert calls[..|calls|] == calls;
  }

  /** Dependency d of call i is unknown, and none before it is. */
  predicate FirstUnknown(calls: seq<PlanCall>, known: set<string>, i: nat, d: nat) {
    && i < |calls| && d < |calls[i].dependsOn| && calls[i].dependsOn[d] !in known
    && KnownDependencies(calls[..i], known)
    && forall e :: 0 <= e < d ==> calls[i].dependsOn[e] in known
  }

  /** The second pass: every dependency is a call of the plan; the first that is not is reported. */
  method CheckDependencies(calls: seq<PlanCall>, callIds: set<string>) returns (fault: Option<Verdict>)
    ensures fault == None <==> KnownDependencies(calls, callIds)
    ensures fault.Some? ==> exists i: nat, d: nat ::
        FirstUnknown(calls, callIds, i, d) && fault == Some(UnknownDependency(calls[i].id, calls[i].dependsOn[d]))
  {
    for i := 0 to |calls|
      invariant KnownDependencies(calls[..i], callIds)
    {
      for d := 0 to |calls[i].dependsOn|
        invariant forall e :: 0 <= e < d ==> calls[i].dependsOn[e] in callIds
      {
        if calls[i].dependsOn[d] !in callIds {
          assert calls[i].dependsOn[d] in calls[i].dependsOn;
          assert FirstUnknown(calls, callIds, i, d);
          return Some(UnknownDependency(calls[i].id, calls[i].dependsOn[d]));
        }
      }
    }
    assert calls[..|calls|] == calls;
    fault := None;
  }

  /** The third pass: a topological order, or a cycle. */
  method CheckAcyclic(graph: Graph) returns (ok: bool, ghost order: seq<string>, ghost cycle: seq<string>)
    requires Closed(graph)
    ensures ok ==> Topological(graph, order)
    ensures !ok ==> IsCycle(graph, cycle)
    ensures ok <==> Acyclic(graph)
  {
    var search := new Search(graph);
    ok, order, cycle := true, [], [];
    var rest := graph.Keys;
    while rest != {}
      invariant rest <= graph.Keys && search.graph == graph && search.Valid() && search.visiting == {}
      invariant graph.Keys - rest <= search.visited
      decreases |rest|
    {
      var node :| node in rest;
      assert IsPath(graph, [] + [node]);
      ok, cycle := search.Dfs(node, []);
      if !ok {
        return;
      }
      rest := rest - {node};
    }
    order := search.order;
    TopologicalIsAcyclic(graph, order);
  }

  /** What an accepted plan is. */
  ghost predicate ValidPlan(plan: Plan) {
    var calls := AllCalls(plan.stages);
    NamesFine(calls) && KnownDependencies(calls, Ids(calls)) && Acyclic(GraphOf(calls))
  }

  /** A plan is accepted exactly when its ids are non-empty and unique, its tools named, its
      dependencies known and its dependency graph acyclic; otherwise the first fault is reported,
      names before dependencies before cycles. */
  method ValidatePlanDag(plan: Plan) returns (verdict: Verdict)
    ensures var calls := AllCalls(plan.stages);
            && (verdict == Accepted <==> ValidPlan(plan))
            && (verdict == Cyclic <==>
                NamesFine(calls) && KnownDependencies(calls, Ids(calls)) && !Acyclic(GraphOf(calls)))
            && (verdict.UnknownDependency? <==> NamesFine(calls) && !KnownDependencies(calls, Ids(calls)))
            && (!NamesFine(calls) ==> FirstFault(calls, verdict))
    ensures verdict == Accepted ==>
              var calls := AllCalls(plan.stages);
              && (forall i :: 0 <= i < |calls| ==> calls[i].id != "" && calls[i].tool != "")
              && (forall i, j :: 0 <= i < j < |calls| ==> calls[i].id != calls[j].id)
    ensures match verdict
            case EmptyId => exists c :: c in AllCalls(plan.stages) && c.id == ""
            case MissingTool(id) => exists c :: c in AllCalls(plan.stages) && c.id == id && c.tool == ""
            case Duplicate(id) =>
              exists i, j :: 0 <= i < j < |AllCalls(plan.stages)|
                && AllCalls(plan.stages)[i].id == AllCalls(plan.stages)[j].id == id
            case _ => true
    ensures verdict.UnknownDependency? ==>
              var calls := AllCalls(plan.stages);
              exists i: nat, d: nat ::
                  FirstUnknown(calls, Ids(calls), i, d)
                      && verdict == UnknownDependency(calls[i].id, calls[i].dependsOn[d])
  {
    NamesFineIff(AllCalls(plan.stages));
    var fault, callIds, calls := CollectCalls(plan);
    if fault.Some? {
      FirstFaultIsNamed(AllCalls(plan.stages), fault.value);
      return fault.value;
    }
    var graph := BuildGraph(calls);
    fault := CheckDependencies(calls, callIds);
    if fault.Some? {
      return fault.value;
    }
    GraphIsClosed(calls);
    var ok, order, cycle := CheckAcyclic(graph);
    verdict := if ok then Accepted else Cyclic;
  }

  lemma FirstFaultIsNamed(calls: seq<PlanCall>, fault: Verdict)
    requires FirstFault(calls, fault)
    ensures !NamesFine(calls) && fault != Accepted && fault != Cyclic && !fault.UnknownDependency?
    ensures match fault
            case EmptyId => exists c :: c in calls && c.id == ""
            case MissingTool(id) => exists c :: c in calls && c.id == id && c.tool == ""
            case Duplicate(id) => exists i, j :: 0 <= i < j < |calls| && calls[i].id == calls[j].id == id
            case _ => true
  {
  }

  lemma {:induction false} GraphHasCalls(calls: seq<PlanCall>)
    ensures GraphOf(calls).Keys == Ids(calls)
    ensures forall n :: n in GraphOf(calls) ==> exists c :: c in calls && c.id == n && GraphOf(calls)[n] == c.dependsOn
    decreases |calls|
  {
    if calls != [] {
      GraphHasCalls(calls[..|calls| - 1]);
      assert calls == calls[..|calls| - 1] + [calls[|calls| - 1]];
    }
  }

  lemma GraphIsClosed(calls: seq<PlanCall>)
    requires KnownDependencies(calls, Ids(calls))
    ensures Closed(GraphOf(calls))
  {
    GraphHasCalls(calls);
    forall n | n in GraphOf(calls) ensures forall dep :: dep in GraphOf(calls)[n] ==> dep in Ids(calls) {
      var c :| c in calls && c.id == n && GraphOf(calls)[n] == c.dependsOn;
      var i :| 0 <= i < |calls| && calls[i] == c;
    }
  }
}
