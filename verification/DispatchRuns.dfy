/** Whole runs of the serial dispatcher: completing the selected task again and again finishes the Big Task in order. */
module DispatchRuns {
  import opened Options
  import opened CodeUnits
  import opened Sorting
  import opened BlockingGraph
  import opened Dependencies
  import opened DependencyValidation
  import opened Readiness
  import opened Graph
  import opened Dispatch

  type Snapshot = map<SubtaskId, SubtaskState>

  predicate MayExecuteOrIsDone(s: SubtaskState) {
    || (s.stage == EXECUTE && s.maturity == NotStarted)
    || (s.stage == COMPLETE && s.maturity != NotStarted)
  }

  predicate AllTrue(f: ExecutionFacts) {
    f.repositoryPreflightPassed && f.contextPreflightPassed && f.budgetAvailable
    && f.worktreeOwnershipAvailable && f.humanApprovalSatisfied
  }

  /** Completed tasks meet the gates on their outgoing blocking edges. */
  ghost predicate GatesHold(ds: seq<SubtaskDependency>, m: Snapshot) {
    forall d :: d in ds && d.Blocking? && d.upstreamSubtaskId in m && m[d.upstreamSubtaskId].stage == COMPLETE
      ==> GateMet(d.gate, m[d.upstreamSubtaskId].maturity, true)
  }

  ghost predicate SnapshotRunnable(graph: MaterializedGraph, m: Snapshot) {
    && m.Keys == IdSet(graph)
    && (forall n :: n in m ==> MayExecuteOrIsDone(m[n]))
    && GatesHold(graph.dependencies, m)
  }

  ghost predicate Runnable(g: MaterializedGraph, graph: MaterializedGraph, facts: seq<ExecutionFacts>, states: seq<SubtaskState>) {
    && ParseMaterializedGraph(g) == Some(graph)
    && (forall s :: s in graph.subtasks ==> s.writeEnabled)
    && DistinctFacts(facts) && FactsMap(facts).Keys == IdSet(graph)
    && (forall f :: f in facts ==> AllTrue(f))
    && DistinctStates(states)
    && SnapshotRunnable(graph, StateMap(states))
  }

  function InputOf(g: MaterializedGraph, graph: MaterializedGraph, facts: seq<ExecutionFacts>, states: seq<SubtaskState>): DispatchInput {
    DispatchInput(g, graph.candidateBinding, states, graph.candidateBinding, facts, graph.projectId, [])
  }

  function Unfinished(m: Snapshot): set<SubtaskId> {
    set n | n in m && m[n].stage != COMPLETE
  }

  /** Every blocking upstream of n is complete. */
  ghost predicate Unblocked(graph: MaterializedGraph, m: Snapshot, n: SubtaskId) {
    forall d :: d in graph.dependencies && d.Blocking? && d.downstreamSubtaskId == n
      ==> d.upstreamSubtaskId in m && m[d.upstreamSubtaskId].stage == COMPLETE
  }

  // ---------------------------------------------------------------- one dispatch

  lemma RunnableCoherent(g: MaterializedGraph, graph: MaterializedGraph, facts: seq<ExecutionFacts>, states: seq<SubtaskState>)
    requires Runnable(g, graph, facts, states)
    ensures Coherent(InputOf(g, graph, facts, states), graph)
  {
    hide ParseMaterializedGraph, ValidGraph, FactsMap, StateMap, GatesHold, AllTrue;
    ParsedGraphFacts(g, graph);
    DistinctCount(IdsOf(graph.subtasks), IdSet(graph));
    var m := StateMap(states);
    assert |m.Keys| == |m| && |FactsMap(facts).Keys| == |FactsMap(facts)|;
    forall s | s in graph.subtasks ensures StageAdmissible(s, m) {
      SubtaskIdListed(graph, s);
    }
  }

  lemma SubtaskIdListed(graph: MaterializedGraph, s: ProposedSubtask)
    requires s in graph.subtasks
    ensures s.id in IdsOf(graph.subtasks) && s.id in IdSet(graph)
  {
    var i :| 0 <= i < |graph.subtasks| && graph.subtasks[i] == s;
    assert IdsOf(graph.subtasks)[i] == s.id;
  }

  lemma ListedIdHasSubtask(graph: MaterializedGraph, n: SubtaskId) returns (s: ProposedSubtask)
    requires n in IdSet(graph)
    ensures s in graph.subtasks && s.id == n
  {
    var i :| 0 <= i < |IdsOf(graph.subtasks)| && IdsOf(graph.subtasks)[i] == n;
    s := graph.subtasks[i];
  }

  lemma EndpointsListed(graph: MaterializedGraph, d: SubtaskDependency)
    requires ValidGraph(Endpoints(graph.subtasks), graph.dependencies) && d in graph.dependencies
    ensures d.upstreamSubtaskId in IdSet(graph) && d.downstreamSubtaskId in IdSet(graph)
  {
    var k :| 0 <= k < |graph.dependencies| && graph.dependencies[k] == d;
    var ends := Endpoints(graph.subtasks);
    assert SameBigTask(ById(ends), graph.dependencies[k]);
    forall n | n in DistinctIds(ends) ensures n in IdSet(graph) {
      var i :| 0 <= i < |ends| && ends[i].id == n;
      assert IdsOf(graph.subtasks)[i] == n;
    }
  }

  /** On a runnable snapshot a gate is met exactly when its upstream is complete. */
  lemma GatesMetExactly(graph: MaterializedGraph, m: Snapshot, n: SubtaskId)
    requires SnapshotRunnable(graph, m) && ValidGraph(Endpoints(graph.subtasks), graph.dependencies)
    requires Distinct(IdsOf(graph.subtasks)) && forall s :: s in graph.subtasks ==> s.id in m
    ensures AllGatesMet(ReadinessView(graph.subtasks, m), graph.dependencies, n) <==> Unblocked(graph, m, n)
  {
    hide ValidGraph, Endpoints;
    var view := ReadinessView(graph.subtasks, m);
    forall d | d in graph.dependencies && d.Blocking? && d.downstreamSubtaskId == n
      ensures d.upstreamSubtaskId in m
      ensures exists i :: 0 <= i < |view| && view[i].id == d.upstreamSubtaskId
    {
      EndpointsListed(graph, d);
      var i :| 0 <= i < |graph.subtasks| && IdsOf(graph.subtasks)[i] == d.upstreamSubtaskId;
      assert view[i].id == d.upstreamSubtaskId;
    }
  }

  lemma EligibleExactly(
    g: MaterializedGraph, graph: MaterializedGraph, facts: seq<ExecutionFacts>, states: seq<SubtaskState>, s: ProposedSubtask)
    requires Runnable(g, graph, facts, states) && s in graph.subtasks
    requires Coherent(InputOf(g, graph, facts, states), graph)
    ensures s.id in FactsMap(facts) && s.id in StateMap(states)
    ensures Eligible(SearchOf(InputOf(g, graph, facts, states), graph), s) <==>
      s.id in Unfinished(StateMap(states)) && Unblocked(graph, StateMap(states), s.id)
  {
    hide ParseMaterializedGraph, ValidGraph, Coherent, AllGatesMet, Unblocked, EvaluateReadiness;
    var input, m := InputOf(g, graph, facts, states), StateMap(states);
    ParsedGraphFacts(g, graph);
    SubtaskIdListed(graph, s);
    ReadinessAlwaysValid(input, graph, s);
    ReadinessExact(ReadinessView(graph.subtasks, m), graph.dependencies, s.id);
    GatesMetExactly(graph, m, s.id);
    assert FactsMap(facts)[s.id] in facts;
  }

  lemma {:induction false} EligibleIdsMembers(x: Search, ss: seq<ProposedSubtask>)
    requires Covers(x, ss)
    ensures forall n :: n in EligibleIds(x, ss) <==> exists s :: s in ss && Eligible(x, s) && s.id == n
  {
    if ss != [] {
      EligibleIdsMembers(x, ss[..|ss| - 1]);
      assert ss == ss[..|ss| - 1] + [ss[|ss| - 1]];
    }
  }

  /** An unfinished acyclic remainder has a task with no unfinished blocking upstream. */
  lemma SomethingUnblocked(graph: MaterializedGraph, m: Snapshot) returns (n: SubtaskId)
    requires m.Keys == IdSet(graph) && ValidGraph(Endpoints(graph.subtasks), graph.dependencies)
    requires Unfinished(m) != {}
    ensures n in Unfinished(m) && Unblocked(graph, m, n)
  {
    var rest := Unfinished(m);
    var es := BlockingEdges(graph.dependencies);
    var v :| v in rest;
    if SourceFree(es, rest) {
      SourceFreeIsFromCycle(es, rest, v);
      FromCycleNeedsCycle(es, v);
      assert false;
    }
    n :| n in rest && !PredecessorIn(es, rest, n);
    forall d | d in graph.dependencies && d.Blocking? && d.downstreamSubtaskId == n
      ensures d.upstreamSubtaskId in m && m[d.upstreamSubtaskId].stage == COMPLETE
    {
      EndpointsListed(graph, d);
      var i :| 0 <= i < |BlockingOnly(graph.dependencies)| && BlockingOnly(graph.dependencies)[i] == d;
      assert es[i] == Edge(d.upstreamSubtaskId, n);
    }
  }

  lemma EligibleListExactly(g: MaterializedGraph, graph: MaterializedGraph, facts: seq<ExecutionFacts>, states: seq<SubtaskState>)
    requires Runnable(g, graph, facts, states) && Coherent(InputOf(g, graph, facts, states), graph)
    requires Covers(SearchOf(InputOf(g, graph, facts, states), graph), graph.subtasks)
    ensures forall n :: n in EligibleIds(SearchOf(InputOf(g, graph, facts, states), graph), graph.subtasks) <==>
      n in Unfinished(StateMap(states)) && Unblocked(graph, StateMap(states), n)
  {
    hide ParseMaterializedGraph, ValidGraph, Coherent, Unblocked, Eligible;
    var m := StateMap(states);
    var x := SearchOf(InputOf(g, graph, facts, states), graph);
    EligibleIdsMembers(x, graph.subtasks);
    forall s | s in graph.subtasks ensures Eligible(x, s) <==> s.id in Unfinished(m) && Unblocked(graph, m, s.id) {
      EligibleExactly(g, graph, facts, states, s);
    }
    forall n | n in Unfinished(m) ensures exists s :: s in graph.subtasks && s.id == n {
      var s := ListedIdHasSubtask(graph, n);
    }
  }

  /** No deadlock: the next unblocked unfinished task is selected, and nothing is selected once all tasks are complete. */
  lemma NoDeadlock(g: MaterializedGraph, graph: MaterializedGraph, facts: seq<ExecutionFacts>, states: seq<SubtaskState>)
    requires Runnable(g, graph, facts, states)
    ensures var r, m := SelectDispatch(InputOf(g, graph, facts, states)), StateMap(states);
      && (Unfinished(m) != {} ==>
           r.Selected? && r.id in Unfinished(m) && Unblocked(graph, m, r.id)
           && forall n :: n in r.eligible <==> n in Unfinished(m) && Unblocked(graph, m, n))
      && (Unfinished(m) == {} ==> r == Blocked(NO_ELIGIBLE_SUBTASK, []))
  {
    hide ParseMaterializedGraph, ValidGraph, Coherent, Unblocked, Eligible;
    hide FactsMap, StateMap, ReadinessView, EligibleIds, CandidateBlockers, GatesHold, IdsOf;
    var input, m := InputOf(g, graph, facts, states), StateMap(states);
    RunnableCoherent(g, graph, facts, states);
    FactsCoverGraph(input, graph);
    ParsedGraphFacts(g, graph);
    var x := SearchOf(input, graph);
    EligibleListExactly(g, graph, facts, states);
    var eligible := EligibleIds(x, graph.subtasks);
    NonEmptyHasMember(eligible);
    if Unfinished(m) != {} {
      var n := SomethingUnblocked(graph, m);
      assert eligible[0] in eligible;
    } else {
      forall s | s in graph.subtasks ensures x.states[s.id].stage != EXECUTE {
        SubtaskIdListed(graph, s);
        assert s.id !in Unfinished(m);
      }
      NothingBlocked(x, graph.subtasks);
    }
  }

  lemma {:induction false} NothingBlocked(x: Search, ss: seq<ProposedSubtask>)
    requires Covers(x, ss) && forall s :: s in ss ==> x.states[s.id].stage != EXECUTE
    ensures CandidateBlockers(x, ss) == []
  {
    if ss != [] {
      NothingBlocked(x, ss[..|ss| - 1]);
    }
  }

  lemma CompletionCoherentSnapshot(
    g: MaterializedGraph, graph: MaterializedGraph, facts: seq<ExecutionFacts>, states: seq<SubtaskState>)
    requires Runnable(g, graph, facts, states)
    ensures CompletionCoherent(graph, graph.candidateBinding, states)
  {
    hide ParseMaterializedGraph, ValidGraph, GatesHold;
    RunnableCoherent(g, graph, facts, states);
    forall i | 0 <= i < |states| ensures !(states[i].stage == COMPLETE && states[i].maturity == NotStarted) {
      DistinctStatesLookup(states, i);
    }
  }

  lemma IncompleteExactly(graph: MaterializedGraph, m: Snapshot)
    requires m.Keys == IdSet(graph)
    ensures IncompleteIds(graph.subtasks, m) == [] <==> Unfinished(m) == {}
  {
    var incomplete := IncompleteIds(graph.subtasks, m);
    NonEmptyHasMember(incomplete);
    forall n | n in incomplete ensures n in Unfinished(m) {
      var i :| 0 <= i < |graph.subtasks| && graph.subtasks[i].id == n && !(n in m && m[n].stage == COMPLETE);
      SubtaskIdListed(graph, graph.subtasks[i]);
    }
    forall n | n in Unfinished(m) ensures n in incomplete {
      var s := ListedIdHasSubtask(graph, n);
    }
  }

  lemma CompletionExactly(g: MaterializedGraph, graph: MaterializedGraph, facts: seq<ExecutionFacts>, states: seq<SubtaskState>)
    requires Runnable(g, graph, facts, states)
    ensures var r := EvaluateCompletion(g, graph.candidateBinding, states);
      if Unfinished(StateMap(states)) == {} then r == CompletionEligible(graph.bigTaskId) else r.CompletionBlocked?
  {
    hide ParseMaterializedGraph, ValidGraph, CompletionCoherent, GatesHold;
    CompletionCoherentSnapshot(g, graph, facts, states);
    IncompleteExactly(graph, StateMap(states));
  }

  lemma {:induction false} DistinctStatesLookup(states: seq<SubtaskState>, i: nat)
    requires DistinctStates(states) && i < |states|
    ensures states[i].subtaskId in StateMap(states) && StateMap(states)[states[i].subtaskId] == states[i]
  {
    if i < |states| - 1 {
      var front := states[..|states| - 1];
      assert DistinctStates(front);
      DistinctStatesLookup(front, i);
      assert states[i].subtaskId != states[|states| - 1].subtaskId;
    }
  }

  // ---------------------------------------------------------------- completing a task

  datatype Step = Step(id: SubtaskId, maturity: SubtaskMaturity)

  function Complete(states: seq<SubtaskState>, step: Step): (r: seq<SubtaskState>)
    ensures |r| == |states|
    ensures forall i :: 0 <= i < |states| ==> r[i].subtaskId == states[i].subtaskId
  {
    if states == [] then []
    else
      var last := states[|states| - 1];
      Complete(states[..|states| - 1], step)
      + [if last.subtaskId == step.id then SubtaskState(step.id, COMPLETE, step.maturity) else last]
  }

  lemma {:induction false} CompleteUpdates(states: seq<SubtaskState>, step: Step)
    ensures StateMap(Complete(states, step)).Keys == StateMap(states).Keys
    ensures forall n :: n in StateMap(states) ==>
      StateMap(Complete(states, step))[n] ==
        if n == step.id then SubtaskState(n, COMPLETE, step.maturity) else StateMap(states)[n]
  {
    if states != [] {
      var front, last := states[..|states| - 1], states[|states| - 1];
      CompleteUpdates(front, step);
      var after := Complete(states, step);
      assert after[..|after| - 1] == Complete(front, step);
    }
  }

  /** A completion outcome that meets the gates on the task's outgoing blocking edges. */
  ghost predicate MeetsGates(graph: MaterializedGraph, step: Step) {
    && step.maturity != NotStarted
    && forall d :: d in graph.dependencies && d.Blocking? && d.upstreamSubtaskId == step.id
         ==> GateMet(d.gate, step.maturity, true)
  }

  lemma StepKeepsSnapshotRunnable(graph: MaterializedGraph, m: Snapshot, step: Step, m': Snapshot)
    requires SnapshotRunnable(graph, m) && step.id in m && MeetsGates(graph, step)
    requires m'.Keys == m.Keys
    requires forall n :: n in m ==> m'[n] == if n == step.id then SubtaskState(n, COMPLETE, step.maturity) else m[n]
    ensures SnapshotRunnable(graph, m')
    ensures Unfinished(m') == Unfinished(m) - {step.id}
  {
    hide GateMet;
  }

  lemma {:induction false} CompleteKeepsDistinct(states: seq<SubtaskState>, step: Step)
    requires DistinctStates(states)
    ensures DistinctStates(Complete(states, step))
  {}

  lemma StepKeepsRunnable(
    g: MaterializedGraph, graph: MaterializedGraph, facts: seq<ExecutionFacts>, states: seq<SubtaskState>, step: Step)
    requires Runnable(g, graph, facts, states) && step.id in StateMap(states) && MeetsGates(graph, step)
    ensures Runnable(g, graph, facts, Complete(states, step))
    ensures Unfinished(StateMap(Complete(states, step))) == Unfinished(StateMap(states)) - {step.id}
  {
    hide ParseMaterializedGraph, SnapshotRunnable, MeetsGates, Complete, StateMap;
    CompleteUpdates(states, step);
    CompleteKeepsDistinct(states, step);
    StepKeepsSnapshotRunnable(graph, StateMap(states), step, StateMap(Complete(states, step)));
  }

  // ---------------------------------------------------------------- runs

  /** Each step completes the task the dispatcher selects, with an outcome that meets its gates. */
  ghost predicate IsRun(
    g: MaterializedGraph, graph: MaterializedGraph, facts: seq<ExecutionFacts>, states: seq<SubtaskState>, steps: seq<Step>)
    decreases |steps|
  {
    steps == [] ||
    (var r := SelectDispatch(InputOf(g, graph, facts, states));
     && r.Selected? && r.id == steps[0].id && MeetsGates(graph, steps[0])
     && IsRun(g, graph, facts, Complete(states, steps[0]), steps[1..]))
  }

  function After(states: seq<SubtaskState>, steps: seq<Step>): seq<SubtaskState>
    decreases |steps|
  {
    if steps == [] then states else After(Complete(states, steps[0]), steps[1..])
  }

  ghost predicate Dispatched(steps: seq<Step>, n: SubtaskId, before: nat) {
    exists i :: 0 <= i < before && i < |steps| && steps[i].id == n
  }

  function StepIds(steps: seq<Step>): (s: set<SubtaskId>)
    ensures forall n :: n in s <==> exists i :: 0 <= i < |steps| && steps[i].id == n
  {
    set i | 0 <= i < |steps| :: steps[i].id
  }

  /** A run only dispatches unfinished tasks, each once, and stays runnable. */
  lemma {:induction false} RunInvariant(
    g: MaterializedGraph, graph: MaterializedGraph, facts: seq<ExecutionFacts>, states: seq<SubtaskState>, steps: seq<Step>)
    requires Runnable(g, graph, facts, states) && IsRun(g, graph, facts, states, steps)
    ensures Runnable(g, graph, facts, After(states, steps))
    ensures StepIds(steps) <= Unfinished(StateMap(states))
    ensures Unfinished(StateMap(After(states, steps))) == Unfinished(StateMap(states)) - StepIds(steps)
    ensures forall i, j :: 0 <= i < j < |steps| ==> steps[i].id != steps[j].id
    decreases |steps|
  {
    hide Runnable, SelectDispatch, EvaluateCompletion;
    if steps != [] {
      var next, rest := Complete(states, steps[0]), steps[1..];
      NoDeadlock(g, graph, facts, states);
      StepKeepsRunnable(g, graph, facts, states, steps[0]);
      RunInvariant(g, graph, facts, next, rest);
      StepIdsCons(steps);
      forall i, j | 0 <= i < j < |steps| ensures steps[i].id != steps[j].id {
        assert steps[j] == rest[j - 1];
        assert rest[j - 1].id in StepIds(rest);
        if i > 0 { assert steps[i] == rest[i - 1]; }
      }
    }
  }

  lemma StepIdsCons(steps: seq<Step>)
    requires steps != []
    ensures StepIds(steps) == {steps[0].id} + StepIds(steps[1..])
  {
    var rest := steps[1..];
    forall n | n in StepIds(steps) ensures n in {steps[0].id} + StepIds(rest) {
      var i :| 0 <= i < |steps| && steps[i].id == n;
      if i > 0 { assert rest[i - 1].id == n; }
    }
    forall n | n in {steps[0].id} + StepIds(rest) ensures n in StepIds(steps) {
      if n in StepIds(rest) {
        var i :| 0 <= i < |rest| && rest[i].id == n;
        assert steps[i + 1].id == n;
      } else {
        assert steps[0].id == n;
      }
    }
  }

  /** Every blocking edge is respected: the upstream was finished at the start or dispatched earlier. */
  lemma {:induction false} RunRespectsEdges(
    g: MaterializedGraph, graph: MaterializedGraph, facts: seq<ExecutionFacts>, states: seq<SubtaskState>, steps: seq<Step>,
    d: SubtaskDependency, j: nat)
    requires Runnable(g, graph, facts, states) && IsRun(g, graph, facts, states, steps)
    requires d in graph.dependencies && d.Blocking? && j < |steps| && steps[j].id == d.downstreamSubtaskId
    ensures d.upstreamSubtaskId !in Unfinished(StateMap(states)) || Dispatched(steps, d.upstreamSubtaskId, j)
    decreases j
  {
    hide Runnable, SelectDispatch, EvaluateCompletion;
    NoDeadlock(g, graph, facts, states);
    if j > 0 {
      var next, rest := Complete(states, steps[0]), steps[1..];
      StepKeepsRunnable(g, graph, facts, states, steps[0]);
      RunRespectsEdges(g, graph, facts, next, rest, d, j - 1);
      if d.upstreamSubtaskId in Unfinished(StateMap(states)) {
        if d.upstreamSubtaskId in Unfinished(StateMap(next)) {
          var i :| 0 <= i < j - 1 && i < |rest| && rest[i].id == d.upstreamSubtaskId;
          assert steps[i + 1].id == d.upstreamSubtaskId;
        } else {
          assert steps[0].id == d.upstreamSubtaskId;
        }
      }
    }
  }

  lemma StepIdsCount(steps: seq<Step>)
    requires forall i, j :: 0 <= i < j < |steps| ==> steps[i].id != steps[j].id
    ensures |StepIds(steps)| == |steps|
  {
    var ids := seq(|steps|, i requires 0 <= i < |steps| => steps[i].id);
    assert Distinct(ids);
    forall n ensures n in StepIds(steps) <==> n in ids {
      if n in StepIds(steps) {
        var i :| 0 <= i < |steps| && steps[i].id == n;
        assert ids[i] == n;
      }
    }
    DistinctCount(ids, StepIds(steps));
  }

  /**
   * The whole-run theorem. Every run dispatches unfinished tasks without repetition and in an order that respects the
   * blocking edges of the given graph; it never gets stuck early, and once it has dispatched as many tasks as were
   * unfinished it has dispatched exactly those, and the Big Task is eligible for completion.
   */
  lemma RunIsLinearExtension(
    g: MaterializedGraph, graph: MaterializedGraph, facts: seq<ExecutionFacts>, states: seq<SubtaskState>, steps: seq<Step>)
    requires Runnable(g, graph, facts, states) && IsRun(g, graph, facts, states, steps)
    ensures forall i, j :: 0 <= i < j < |steps| ==> steps[i].id != steps[j].id
    ensures StepIds(steps) <= Unfinished(StateMap(states)) && |steps| <= |Unfinished(StateMap(states))|
    ensures forall d, j ::
      d in g.dependencies && d.Blocking? && 0 <= j < |steps| && steps[j].id == d.downstreamSubtaskId ==>
      d.upstreamSubtaskId !in Unfinished(StateMap(states)) || Dispatched(steps, d.upstreamSubtaskId, j)
    ensures |steps| < |Unfinished(StateMap(states))| ==>
      SelectDispatch(InputOf(g, graph, facts, After(states, steps))).Selected?
    ensures |steps| == |Unfinished(StateMap(states))| ==>
      && StepIds(steps) == Unfinished(StateMap(states))
      && EvaluateCompletion(g, graph.candidateBinding, After(states, steps)) == CompletionEligible(graph.bigTaskId)
  {
    hide Runnable, SelectDispatch, EvaluateCompletion;
    var todo, done := Unfinished(StateMap(states)), StepIds(steps);
    var last := After(states, steps);
    RunInvariant(g, graph, facts, states, steps);
    StepIdsCount(steps);
    assert todo == done + (todo - done);
    assert |todo| == |done| + |todo - done|;
    RunnableSameDependencies(g, graph, facts, states);
    forall d, j | d in g.dependencies && d.Blocking? && 0 <= j < |steps| && steps[j].id == d.downstreamSubtaskId
      ensures d.upstreamSubtaskId !in todo || Dispatched(steps, d.upstreamSubtaskId, j)
    {
      RunRespectsEdges(g, graph, facts, states, steps, d, j);
    }
    NoDeadlock(g, graph, facts, last);
    CompletionExactly(g, graph, facts, last);
  }

  lemma SameDependencies(g: MaterializedGraph, graph: MaterializedGraph)
    requires ParseMaterializedGraph(g) == Some(graph)
    ensures forall d :: d in g.dependencies <==> d in graph.dependencies
  {
    ParseExact(g);
    forall d ensures d in g.dependencies <==> d in graph.dependencies {
      InMultiset(g.dependencies, d);
      InMultiset(graph.dependencies, d);
    }
  }

  lemma RunnableSameDependencies(
    g: MaterializedGraph, graph: MaterializedGraph, facts: seq<ExecutionFacts>, states: seq<SubtaskState>)
    requires Runnable(g, graph, facts, states)
    ensures forall d :: d in g.dependencies <==> d in graph.dependencies
  {
    hide ParseMaterializedGraph;
    SameDependencies(g, graph);
  }

  /** A complete run exists from every runnable snapshot: accepting each selected task meets every gate. */
  lemma {:induction false} CompleteRunExists(
    g: MaterializedGraph, graph: MaterializedGraph, facts: seq<ExecutionFacts>, states: seq<SubtaskState>)
    returns (steps: seq<Step>)
    requires Runnable(g, graph, facts, states)
    ensures IsRun(g, graph, facts, states, steps) && |steps| == |Unfinished(StateMap(states))|
    decreases |Unfinished(StateMap(states))|
  {
    hide Runnable, SelectDispatch, EvaluateCompletion;
    var todo := Unfinished(StateMap(states));
    if todo == {} {
      return [];
    }
    NoDeadlock(g, graph, facts, states);
    var step := Step(SelectDispatch(InputOf(g, graph, facts, states)).id, MaturityAccepted);
    StepKeepsRunnable(g, graph, facts, states, step);
    var rest := CompleteRunExists(g, graph, facts, Complete(states, step));
    steps := [step] + rest;
    assert steps[1..] == rest;
  }
}
