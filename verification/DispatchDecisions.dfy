/** packages/orchestration/src/dispatch.ts: what a dispatch decision says about the tasks, for every coherent request. */
module DispatchDecisions {
  import opened Options
  import opened CodeUnits
  import opened Dependencies
  import opened Readiness
  import opened Graph
  import opened Dispatch
  import opened DependencyValidation
  import opened BlockingGraph
  import opened Lists
  import opened Sorting
  import DispatchRuns

  // ---------------------------------------------------------------- coherent requests

  function StateIds(states: seq<SubtaskState>): (r: seq<SubtaskId>)
    ensures |r| == |states| && forall i :: 0 <= i < |r| ==> r[i] == states[i].subtaskId
  {
    seq(|states|, i requires 0 <= i < |states| => states[i].subtaskId)
  }

  function FactIds(facts: seq<ExecutionFacts>): (r: seq<SubtaskId>)
    ensures |r| == |facts| && forall i :: 0 <= i < |r| ==> r[i] == facts[i].subtaskId
  {
    seq(|facts|, i requires 0 <= i < |facts| => facts[i].subtaskId)
  }

  /** A list without repetitions over known ids, as long as there are ids, is a permutation of them. */
  lemma CoverExact(list: seq<SubtaskId>, keys: set<SubtaskId>, ids: seq<SubtaskId>, known: set<SubtaskId>)
    requires (forall n :: n in keys <==> n in list) && (forall n :: n in known <==> n in ids) && Distinct(ids)
    ensures Distinct(list) && |keys| == |ids| && keys <= known <==> multiset(list) == multiset(ids)
  {
    DistinctCount(ids, known);
    if Distinct(list) && |keys| == |ids| && keys <= known {
      SubsetOfFullSize(keys, known);
      forall n ensures multiset(list)[n] == multiset(ids)[n] {
        DistinctMultiplicity(list, n);
        DistinctMultiplicity(ids, n);
      }
    }
    if multiset(list) == multiset(ids) {
      PermutationKeepsDistinct(ids, list);
      forall n ensures n in keys <==> n in known {
        InMultiset(list, n);
        InMultiset(ids, n);
      }
      assert keys == known;
    }
  }

  lemma StatesCover(states: seq<SubtaskState>, graph: MaterializedGraph)
    requires Distinct(IdsOf(graph.subtasks))
    ensures DistinctStates(states) && |StateMap(states)| == |graph.subtasks| && StateMap(states).Keys <= IdSet(graph) <==>
      multiset(StateIds(states)) == multiset(IdsOf(graph.subtasks))
  {
    var list := StateIds(states);
    forall n ensures n in StateMap(states).Keys <==> n in list {
      StateMapKeys(states, n);
      if n in list { var i :| 0 <= i < |list| && list[i] == n; assert states[i].subtaskId == n; }
      if i :| 0 <= i < |states| && states[i].subtaskId == n { assert list[i] == n; }
    }
    CoverExact(list, StateMap(states).Keys, IdsOf(graph.subtasks), IdSet(graph));
    assert |StateMap(states).Keys| == |StateMap(states)|;
    assert DistinctStates(states) <==> Distinct(list);
  }

  lemma FactsCover(facts: seq<ExecutionFacts>, graph: MaterializedGraph)
    requires Distinct(IdsOf(graph.subtasks))
    ensures DistinctFacts(facts) && |FactsMap(facts)| == |graph.subtasks| && FactsMap(facts).Keys <= IdSet(graph) <==>
      multiset(FactIds(facts)) == multiset(IdsOf(graph.subtasks))
  {
    var list := FactIds(facts);
    forall n ensures n in FactsMap(facts).Keys <==> n in list {
      FactsMapKeys(facts, n);
      if n in list { var i :| 0 <= i < |list| && list[i] == n; assert facts[i].subtaskId == n; }
      if i :| 0 <= i < |facts| && facts[i].subtaskId == n { assert list[i] == n; }
    }
    CoverExact(list, FactsMap(facts).Keys, IdsOf(graph.subtasks), IdSet(graph));
    assert |FactsMap(facts).Keys| == |FactsMap(facts)|;
    assert DistinctFacts(facts) <==> Distinct(list);
  }

  /** A task may be before execution in any maturity; at execution it is not started; later it is. */
  ghost predicate StageAndMaturityFit(s: ProposedSubtask, state: SubtaskState) {
    && IsStageAllowedForProfile(s.profile, state.stage)
    && (state.stage == EXECUTE ==> Rank(state.maturity) == 0)
    && (state.stage !in {PLAN, REVIEW, MATERIALIZE, EXECUTE} ==> Rank(state.maturity) > 0)
  }

  /**
   * A request is coherent exactly when both snapshots carry the graph's binding, the project is the graph's, states and
   * facts are given once for each Subtask and for nothing else, every state fits its task, and one writer at most is active.
   */
  lemma CoherentExact(input: DispatchInput, graph: MaterializedGraph)
    requires ParseMaterializedGraph(input.graph) == Some(graph)
    ensures Coherent(input, graph) <==>
      && input.stateBinding == graph.candidateBinding && input.factsBinding == graph.candidateBinding
      && input.projectId == graph.projectId
      && multiset(StateIds(input.states)) == multiset(IdsOf(graph.subtasks))
      && multiset(FactIds(input.facts)) == multiset(IdsOf(graph.subtasks))
      && (forall s, state :: s in graph.subtasks && state in input.states && state.subtaskId == s.id ==> StageAndMaturityFit(s, state))
      && (input.activeWriteSubtaskIds == [] || exists n :: input.activeWriteSubtaskIds == [n])
  {
    hide ParseMaterializedGraph, ValidGraph, StateMap, FactsMap, IdSet;
    ParsedGraphFacts(input.graph, graph);
    StatesCover(input.states, graph);
    FactsCover(input.facts, graph);
    var active := input.activeWriteSubtaskIds;
    assert |active| == 1 ==> active == [active[0]];
    if multiset(StateIds(input.states)) == multiset(IdsOf(graph.subtasks)) {
      StatesFit(input.states, graph);
    }
  }

  lemma StatesFit(states: seq<SubtaskState>, graph: MaterializedGraph)
    requires DistinctStates(states) && multiset(StateIds(states)) == multiset(IdsOf(graph.subtasks))
    ensures (forall s :: s in graph.subtasks ==> StageAdmissible(s, StateMap(states))) <==>
      (forall s, state :: s in graph.subtasks && state in states && state.subtaskId == s.id ==> StageAndMaturityFit(s, state))
  {
    hide StateMap;
    forall state | state in states ensures state.subtaskId in StateMap(states) && StateMap(states)[state.subtaskId] == state {
      var i :| 0 <= i < |states| && states[i] == state;
      DispatchRuns.DistinctStatesLookup(states, i);
    }
    forall s | s in graph.subtasks ensures exists state :: state in states && state.subtaskId == s.id {
      DispatchRuns.SubtaskIdListed(graph, s);
      InMultiset(IdsOf(graph.subtasks), s.id);
      InMultiset(StateIds(states), s.id);
      var i :| 0 <= i < |states| && StateIds(states)[i] == s.id;
      assert states[i] in states;
    }
  }

  // ---------------------------------------------------------------- what a task lacks

  /** A blocking edge into the task whose upstream has not come as far as the gate asks. */
  ghost predicate WaitsOn(x: Search, s: ProposedSubtask, d: SubtaskDependency) {
    && d in x.dependencies && d.Blocking? && d.downstreamSubtaskId == s.id && d.upstreamSubtaskId in x.states
    && !GateMet(d.gate, x.states[d.upstreamSubtaskId].maturity, x.states[d.upstreamSubtaskId].stage == COMPLETE)
  }

  /** The condition behind a block reason fails for the task. */
  ghost predicate Lacks(x: Search, s: ProposedSubtask, reason: BlockReason)
    requires s.id in x.facts
  {
    var f := x.facts[s.id];
    match reason
    case DEPENDENCY_BLOCKED => exists d :: WaitsOn(x, s, d)
    case PREFLIGHT_BLOCKED => !f.repositoryPreflightPassed || !f.contextPreflightPassed || !f.worktreeOwnershipAvailable
    case BUDGET_BLOCKED => !f.budgetAvailable
    case AUTHORITY_BLOCKED => !f.humanApprovalSatisfied
    case _ => false
  }

  /** A writer at execution that is not active already. */
  ghost predicate AtStart(x: Search, s: ProposedSubtask)
    requires s.id in x.states
  {
    s.writeEnabled && x.states[s.id].stage == EXECUTE && !(exists i :: 0 <= i < |x.active| && x.active[i] == s.id)
  }

  /** A candidate that lacks nothing. */
  ghost predicate MayStart(x: Search, s: ProposedSubtask) {
    s.id in x.states && s.id in x.facts && AtStart(x, s) && forall reason :: !Lacks(x, s, reason)
  }

  ghost predicate CandidateLacks(x: Search, s: ProposedSubtask, reason: BlockReason)
    requires s.id in x.states && s.id in x.facts
  {
    AtStart(x, s) && Lacks(x, s, reason)
  }

  function Priority(reason: BlockReason): nat {
    match reason
    case DEPENDENCY_BLOCKED => 0
    case PREFLIGHT_BLOCKED => 1
    case BUDGET_BLOCKED => 2
    case AUTHORITY_BLOCKED => 3
    case _ => 4
  }

  ghost predicate ReadinessKnown(x: Search, ss: seq<ProposedSubtask>) {
    forall s :: s in ss ==>
      (EvaluateReadiness(x.view, x.dependencies, s.id).ready <==> !exists d :: WaitsOn(x, s, d))
  }

  lemma BlockersAreLacks(x: Search, s: ProposedSubtask, reason: BlockReason)
    requires s.id in x.facts && ReadinessKnown(x, [s])
    ensures reason in SubtaskBlockers(x, s) <==> Lacks(x, s, reason)
  {
    hide EvaluateReadiness, WaitsOn;
    assert s in [s];
  }

  lemma EligibleMayStart(x: Search, s: ProposedSubtask)
    requires s.id in x.states && s.id in x.facts && ReadinessKnown(x, [s])
    ensures Eligible(x, s) <==> MayStart(x, s)
  {
    hide EvaluateReadiness, WaitsOn, Lacks;
    forall reason ensures reason in SubtaskBlockers(x, s) <==> Lacks(x, s, reason) {
      BlockersAreLacks(x, s, reason);
    }
    if SubtaskBlockers(x, s) != [] {
      assert SubtaskBlockers(x, s)[0] in SubtaskBlockers(x, s);
    }
  }

  lemma {:induction false} CollectedBlockers(x: Search, ss: seq<ProposedSubtask>, reason: BlockReason)
    requires Covers(x, ss) && ReadinessKnown(x, ss)
    ensures reason in CandidateBlockers(x, ss) <==> exists s :: s in ss && CandidateLacks(x, s, reason)
  {
    hide EvaluateReadiness, WaitsOn, SubtaskBlockers, Lacks;
    if ss != [] {
      var front, last := ss[..|ss| - 1], ss[|ss| - 1];
      assert ss == front + [last];
      CollectedBlockers(x, front, reason);
      BlockersAreLacks(x, last, reason);
      assert reason in CandidateBlockers(x, ss) <==> reason in CandidateBlockers(x, front) || CandidateLacks(x, last, reason);
      assert forall s :: s in ss <==> s in front || s == last;
    }
  }

  /** The eligible list is the ids of the tasks that may start, in graph order. */
  lemma {:induction false} EligibleAreStartable(x: Search, ss: seq<ProposedSubtask>)
    requires Covers(x, ss) && ReadinessKnown(x, ss)
    ensures EligibleIds(x, ss) == IdsOf(Keep(ss, s => MayStart(x, s)))
  {
    hide EvaluateReadiness, WaitsOn, MayStart, Eligible;
    if ss != [] {
      var front, last := ss[..|ss| - 1], ss[|ss| - 1];
      assert ss == front + [last];
      EligibleAreStartable(x, front);
      EligibleMayStart(x, last);
    }
  }

  lemma UpstreamsInView(graph: MaterializedGraph, view: seq<ReadinessSubtask>, d: SubtaskDependency)
    requires ValidGraph(Endpoints(graph.subtasks), graph.dependencies) && d in graph.dependencies
    requires |view| == |graph.subtasks| && forall i :: 0 <= i < |view| ==> view[i].id == graph.subtasks[i].id
    ensures exists i :: 0 <= i < |view| && view[i].id == d.upstreamSubtaskId
  {
    hide ValidGraph;
    DispatchRuns.EndpointsListed(graph, d);
    var i :| 0 <= i < |graph.subtasks| && IdsOf(graph.subtasks)[i] == d.upstreamSubtaskId;
    assert view[i].id == d.upstreamSubtaskId;
  }

  lemma GatesInView(x: Search, s: ProposedSubtask)
    requires forall i :: 0 <= i < |x.view| ==>
      x.view[i].id in x.states && x.view[i].maturity == x.states[x.view[i].id].maturity &&
      x.view[i].verificationComplete == (x.states[x.view[i].id].stage == COMPLETE)
    requires forall d :: d in x.dependencies ==> exists i :: 0 <= i < |x.view| && x.view[i].id == d.upstreamSubtaskId
    ensures AllGatesMet(x.view, x.dependencies, s.id) <==> !exists d :: WaitsOn(x, s, d)
  {
    hide GateMet;
    if d :| WaitsOn(x, s, d) {
      var i :| 0 <= i < |x.view| && x.view[i].id == d.upstreamSubtaskId;
      assert !GateMet(d.gate, x.view[i].maturity, x.view[i].verificationComplete);
    }
    if !AllGatesMet(x.view, x.dependencies, s.id) {
      var d, i :| d in x.dependencies && d.Blocking? && d.downstreamSubtaskId == s.id && 0 <= i < |x.view| &&
        x.view[i].id == d.upstreamSubtaskId && !GateMet(d.gate, x.view[i].maturity, x.view[i].verificationComplete);
      assert WaitsOn(x, s, d);
    }
  }

  lemma ViewTellsStates(input: DispatchInput, graph: MaterializedGraph, s: ProposedSubtask)
    requires ParseMaterializedGraph(input.graph) == Some(graph) && Coherent(input, graph) && s in graph.subtasks
    ensures var x := SearchOf(input, graph);
      AllGatesMet(x.view, x.dependencies, s.id) <==> !exists d :: WaitsOn(x, s, d)
  {
    hide ParseMaterializedGraph, ValidGraph, StateMap, FactsMap, GateMet, AllGatesMet, WaitsOn;
    var x := SearchOf(input, graph);
    ParsedGraphFacts(input.graph, graph);
    forall d | d in graph.dependencies ensures exists i :: 0 <= i < |x.view| && x.view[i].id == d.upstreamSubtaskId {
      UpstreamsInView(graph, x.view, d);
    }
    GatesInView(x, s);
  }

  lemma ReadinessIsKnown(input: DispatchInput, graph: MaterializedGraph)
    requires ParseMaterializedGraph(input.graph) == Some(graph) && Coherent(input, graph)
    ensures ReadinessKnown(SearchOf(input, graph), graph.subtasks)
  {
    hide ParseMaterializedGraph, EvaluateReadiness, AllGatesMet, WaitsOn;
    var x := SearchOf(input, graph);
    forall s | s in graph.subtasks
      ensures EvaluateReadiness(x.view, x.dependencies, s.id).ready <==> !exists d :: WaitsOn(x, s, d)
    {
      ReadinessAlwaysValid(input, graph, s);
      ReadinessExact(x.view, x.dependencies, s.id);
      ViewTellsStates(input, graph, s);
    }
  }

  /**
   * With no active writer the tasks that may start are eligible in graph order, and the first of them is selected; if
   * there is none, the result names what some candidate lacks, of the highest priority among all that candidates lack,
   * and asks for a human exactly when that is the approval. An active writer blocks everything.
   */
  ghost predicate Justified(r: DispatchResult, x: Search, ss: seq<ProposedSubtask>)
    requires Covers(x, ss)
  {
    var startable := IdsOf(Keep(ss, s => MayStart(x, s)));
    if x.active != [] then r == Blocked(CONCURRENCY_BLOCKED, startable)
    else if startable != [] then r == Selected(startable[0], startable, startable[1..])
    else
      && r.eligible == []
      && ((r.Blocked? && r.reason != AUTHORITY_BLOCKED && Foremost(r.reason, x, ss)) ||
          (r.HumanRequired? && Foremost(AUTHORITY_BLOCKED, x, ss)))
  }

  /** Some candidate lacks it, unless nothing is lacked at all, and none lacks anything of higher priority. */
  ghost predicate Foremost(reason: BlockReason, x: Search, ss: seq<ProposedSubtask>)
    requires Covers(x, ss)
  {
    && (reason == NO_ELIGIBLE_SUBTASK || exists s :: s in ss && CandidateLacks(x, s, reason))
    && forall s, other :: s in ss && CandidateLacks(x, s, other) ==> Priority(reason) <= Priority(other)
  }

  lemma FirstReasonIsForemost(x: Search, ss: seq<ProposedSubtask>)
    requires Covers(x, ss) && ReadinessKnown(x, ss)
    ensures Foremost(FirstBlockReason(CandidateBlockers(x, ss)), x, ss)
  {
    hide CandidateBlockers, CandidateLacks, ReadinessKnown;
    forall reason ensures reason in CandidateBlockers(x, ss) <==> exists s :: s in ss && CandidateLacks(x, s, reason) {
      CollectedBlockers(x, ss, reason);
    }
    LackedReasons(x, ss);
  }

  /** Only the four prioritised reasons are ever lacked. */
  lemma LackedReasons(x: Search, ss: seq<ProposedSubtask>)
    requires Covers(x, ss)
    ensures forall s, reason :: s in ss && CandidateLacks(x, s, reason) ==> Priority(reason) < 4
  {}

  lemma DecisionIsJustified(x: Search, ss: seq<ProposedSubtask>)
    requires Covers(x, ss) && ReadinessKnown(x, ss)
    ensures Justified(Dispatch.Decide(x.active, EligibleIds(x, ss), CandidateBlockers(x, ss)), x, ss)
  {
    hide CandidateBlockers, EligibleIds, MayStart, Foremost, FirstBlockReason, ReadinessKnown, IdsOf, Keep;
    EligibleAreStartable(x, ss);
    FirstReasonIsForemost(x, ss);
  }

  /** Every coherent request is decided as its tasks justify, and every other one is invalid input. */
  lemma DecisionExact(input: DispatchInput)
    ensures match ParseMaterializedGraph(input.graph)
      case None => SelectDispatch(input) == Blocked(INVALID_INPUT, [])
      case Some(graph) =>
        if Coherent(input, graph) then
          Covers(SearchOf(input, graph), graph.subtasks) &&
          Justified(SelectDispatch(input), SearchOf(input, graph), graph.subtasks)
        else SelectDispatch(input) == Blocked(INVALID_INPUT, [])
  {
    hide ParseMaterializedGraph, EvaluateReadiness, Justified, CandidateBlockers, EligibleIds, Coherent;
    var parsed := ParseMaterializedGraph(input.graph);
    if parsed.Some? && Coherent(input, parsed.value) {
      FactsCoverGraph(input, parsed.value);
      ReadinessIsKnown(input, parsed.value);
      DecisionIsJustified(SearchOf(input, parsed.value), parsed.value.subtasks);
    }
  }

  // ---------------------------------------------------------------- completion

  lemma {:induction false} IncompleteAreKept(ss: seq<ProposedSubtask>, states: map<SubtaskId, SubtaskState>)
    ensures IncompleteIds(ss, states) == Keep(IdsOf(ss), n => !(n in states && states[n].stage == COMPLETE))
  {
    if ss != [] {
      var front := ss[..|ss| - 1];
      IncompleteAreKept(front, states);
      assert IdsOf(ss)[..|ss| - 1] == IdsOf(front);
    }
  }

  /** The states of a completion request cover the graph, and nothing is complete that was never started. */
  ghost predicate CompletionRequestOk(graph: MaterializedGraph, binding: Text, states: seq<SubtaskState>) {
    && binding == graph.candidateBinding && multiset(StateIds(states)) == multiset(IdsOf(graph.subtasks))
    && forall state :: state in states && state.stage == COMPLETE ==> Rank(state.maturity) > 0
  }

  /** Of every request: invalid, blocked by the unfinished tasks in graph order, or eligible when there are none. */
  lemma CompletionExact(g: MaterializedGraph, binding: Text, states: seq<SubtaskState>)
    ensures match ParseMaterializedGraph(g)
      case None => EvaluateCompletion(g, binding, states) == CompletionInvalid
      case Some(graph) =>
        if !CompletionRequestOk(graph, binding, states) then EvaluateCompletion(g, binding, states) == CompletionInvalid
        else
          var unfinished := Keep(IdsOf(graph.subtasks), n => exists state :: state in states && state.subtaskId == n && state.stage != COMPLETE);
          EvaluateCompletion(g, binding, states) ==
            if unfinished == [] then CompletionEligible(graph.bigTaskId) else CompletionBlocked(unfinished)
  {
    hide ParseMaterializedGraph, ValidGraph, StateMap, IdSet;
    var parsed := ParseMaterializedGraph(g);
    if parsed.Some? {
      var graph := parsed.value;
      ParsedGraphFacts(g, graph);
      StatesCover(states, graph);
      CompletionOk(graph, binding, states);
      if CompletionRequestOk(graph, binding, states) {
        IncompleteAreKept(graph.subtasks, StateMap(states));
        SameUnfinished(graph, states);
      }
    }
  }

  lemma CompletionOk(graph: MaterializedGraph, binding: Text, states: seq<SubtaskState>)
    requires Distinct(IdsOf(graph.subtasks))
    ensures CompletionCoherent(graph, binding, states) <==> CompletionRequestOk(graph, binding, states)
  {
    hide StateMap, IdSet;
    StatesCover(states, graph);
    assert forall i :: 0 <= i < |states| ==> states[i] in states;
    forall state | state in states ensures exists i :: 0 <= i < |states| && states[i] == state {}
  }

  lemma SameUnfinished(graph: MaterializedGraph, states: seq<SubtaskState>)
    requires DistinctStates(states) && multiset(StateIds(states)) == multiset(IdsOf(graph.subtasks))
    ensures Keep(IdsOf(graph.subtasks), n => !(n in StateMap(states) && StateMap(states)[n].stage == COMPLETE)) ==
            Keep(IdsOf(graph.subtasks), n => exists state :: state in states && state.subtaskId == n && state.stage != COMPLETE)
  {
    hide StateMap;
    forall state | state in states ensures state.subtaskId in StateMap(states) && StateMap(states)[state.subtaskId] == state {
      var i :| 0 <= i < |states| && states[i] == state;
      DispatchRuns.DistinctStatesLookup(states, i);
    }
    var ids := IdsOf(graph.subtasks);
    forall n | n in ids ensures n in StateMap(states) && StateMap(states)[n] in states && StateMap(states)[n].subtaskId == n {
      InMultiset(ids, n);
      InMultiset(StateIds(states), n);
      var i :| 0 <= i < |states| && StateIds(states)[i] == n;
      assert states[i] in states;
    }
    SameKept(ids, n => !(n in StateMap(states) && StateMap(states)[n].stage == COMPLETE),
             n => exists state :: state in states && state.subtaskId == n && state.stage != COMPLETE);
  }

  lemma {:induction false} SameKept<T(!new)>(s: seq<T>, p: T -> bool, q: T -> bool)
    requires forall x :: x in s ==> p(x) == q(x)
    ensures Keep(s, p) == Keep(s, q)
  {
    if s != [] {
      assert s == s[..|s| - 1] + [s[|s| - 1]];
      SameKept(s[..|s| - 1], p, q);
    }
  }
}
