/** packages/orchestration/src/dispatch.ts and completion.ts: the serial dispatcher and the completion check. */
module Dispatch {
  import opened Options
  import opened CodeUnits
  import opened Sorting
  import opened BlockingGraph
  import opened Dependencies
  import opened DependencyValidation
  import opened Readiness
  import opened Graph

  datatype WorkflowStage =
    | PLAN | REVIEW | MATERIALIZE | EXECUTE | VERIFY | HARDEN | FRESH_QA | REPAIR | FOCUSED_RE_QA | COMPLETE

  datatype SubtaskState = SubtaskState(subtaskId: SubtaskId, stage: WorkflowStage, maturity: SubtaskMaturity)

  datatype ExecutionFacts = ExecutionFacts(
    subtaskId: SubtaskId, repositoryPreflightPassed: bool, contextPreflightPassed: bool, budgetAvailable: bool,
    worktreeOwnershipAvailable: bool, humanApprovalSatisfied: bool)

  datatype DispatchInput = DispatchInput(
    graph: MaterializedGraph,
    stateBinding: Text, states: seq<SubtaskState>,
    factsBinding: Text, facts: seq<ExecutionFacts>,
    projectId: Text, activeWriteSubtaskIds: seq<SubtaskId>)

  datatype BlockReason =
    | INVALID_INPUT | DEPENDENCY_BLOCKED | PREFLIGHT_BLOCKED | BUDGET_BLOCKED | AUTHORITY_BLOCKED
    | CONCURRENCY_BLOCKED | NO_ELIGIBLE_SUBTASK

  datatype DispatchResult =
    | Blocked(reason: BlockReason, eligible: seq<SubtaskId>)
    | HumanRequired(eligible: seq<SubtaskId>)
    | Selected(id: SubtaskId, eligible: seq<SubtaskId>, notSelected: seq<SubtaskId>)

  // ---------------------------------------------------------------- input checks

  function IsStageAllowedForProfile(profile: WorkflowProfile, stage: WorkflowStage): bool {
    match profile
    case Low => stage == EXECUTE || stage == VERIFY || stage == COMPLETE
    case Standard =>
      stage == PLAN || stage == REVIEW || stage == MATERIALIZE || stage == EXECUTE || stage == VERIFY || stage == COMPLETE
    case HighRiskFoundation => stage != VERIFY
  }

  function IsMaturityCompatibleWithStage(stage: WorkflowStage, maturity: SubtaskMaturity): bool {
    if stage == PLAN || stage == REVIEW || stage == MATERIALIZE then true
    else if stage == EXECUTE then maturity == NotStarted
    else maturity != NotStarted
  }

  function StateMap(states: seq<SubtaskState>): (m: map<SubtaskId, SubtaskState>)
    ensures forall n :: n in m ==> m[n].subtaskId == n
  {
    if states == [] then map[]
    else
      var front, last := states[..|states| - 1], states[|states| - 1];
      StateMap(front)[last.subtaskId := last]
  }

  function FactsMap(facts: seq<ExecutionFacts>): (m: map<SubtaskId, ExecutionFacts>)
    ensures forall n :: n in m ==> m[n].subtaskId == n && m[n] in facts
  {
    if facts == [] then map[]
    else
      var front, last := facts[..|facts| - 1], facts[|facts| - 1];
      assert facts == front + [last];
      FactsMap(front)[last.subtaskId := last]
  }

  ghost predicate DistinctStates(states: seq<SubtaskState>) {
    forall i, j :: 0 <= i < j < |states| ==> states[i].subtaskId != states[j].subtaskId
  }

  ghost predicate DistinctFacts(facts: seq<ExecutionFacts>) {
    forall i, j :: 0 <= i < j < |facts| ==> facts[i].subtaskId != facts[j].subtaskId
  }

  predicate StageAdmissible(s: ProposedSubtask, states: map<SubtaskId, SubtaskState>) {
    && s.id in states
    && IsStageAllowedForProfile(s.profile, states[s.id].stage)
    && IsMaturityCompatibleWithStage(states[s.id].stage, states[s.id].maturity)
  }

  /** Every check that precedes the search for a candidate. */
  ghost predicate Coherent(input: DispatchInput, graph: MaterializedGraph) {
    && input.stateBinding == graph.candidateBinding && input.factsBinding == graph.candidateBinding
    && input.projectId == graph.projectId
    && DistinctStates(input.states) && DistinctFacts(input.facts)
    && |StateMap(input.states)| == |graph.subtasks| && |FactsMap(input.facts)| == |graph.subtasks|
    && StateMap(input.states).Keys <= IdSet(graph) && FactsMap(input.facts).Keys <= IdSet(graph)
    && (forall s :: s in graph.subtasks ==> StageAdmissible(s, StateMap(input.states)))
    && Distinct(input.activeWriteSubtaskIds) && |input.activeWriteSubtaskIds| <= 1
  }

  function IdSet(graph: MaterializedGraph): set<SubtaskId> {
    set id | id in IdsOf(graph.subtasks)
  }

  // ---------------------------------------------------------------- the search

  function ReadinessView(ss: seq<ProposedSubtask>, states: map<SubtaskId, SubtaskState>): (r: seq<ReadinessSubtask>)
    requires forall s :: s in ss ==> s.id in states
    ensures |r| == |ss|
    ensures forall i :: 0 <= i < |ss| ==>
      r[i] == ReadinessSubtask(ss[i].id, ss[i].bigTaskId, states[ss[i].id].maturity, states[ss[i].id].stage == COMPLETE)
  {
    seq(|ss|, i requires 0 <= i < |ss| =>
      ReadinessSubtask(ss[i].id, ss[i].bigTaskId, states[ss[i].id].maturity, states[ss[i].id].stage == COMPLETE))
  }

  predicate IsCandidate(s: ProposedSubtask, state: SubtaskState, active: seq<SubtaskId>) {
    s.writeEnabled && state.stage == EXECUTE && s.id !in active
  }

  function BlockersOf(ready: bool, f: ExecutionFacts): seq<BlockReason> {
    (if ready then [] else [DEPENDENCY_BLOCKED])
    + (if f.repositoryPreflightPassed && f.contextPreflightPassed then [] else [PREFLIGHT_BLOCKED])
    + (if f.budgetAvailable then [] else [BUDGET_BLOCKED])
    + (if f.worktreeOwnershipAvailable then [] else [PREFLIGHT_BLOCKED])
    + (if f.humanApprovalSatisfied then [] else [AUTHORITY_BLOCKED])
  }

  datatype Search = Search(
    view: seq<ReadinessSubtask>, dependencies: seq<SubtaskDependency>,
    states: map<SubtaskId, SubtaskState>, facts: map<SubtaskId, ExecutionFacts>, active: seq<SubtaskId>)

  ghost function SubtaskBlockers(x: Search, s: ProposedSubtask): seq<BlockReason>
    requires s.id in x.facts
  {
    BlockersOf(EvaluateReadiness(x.view, x.dependencies, s.id).ready, x.facts[s.id])
  }

  ghost predicate Covers(x: Search, ss: seq<ProposedSubtask>) {
    forall s :: s in ss ==> s.id in x.states && s.id in x.facts
  }

  ghost predicate Eligible(x: Search, s: ProposedSubtask)
    requires s.id in x.states && s.id in x.facts
  {
    IsCandidate(s, x.states[s.id], x.active) && SubtaskBlockers(x, s) == []
  }

  ghost function EligibleIds(x: Search, ss: seq<ProposedSubtask>): (r: seq<SubtaskId>)
    requires Covers(x, ss)
  {
    if ss == [] then []
    else
      var front, s := ss[..|ss| - 1], ss[|ss| - 1];
      EligibleIds(x, front) + (if Eligible(x, s) then [s.id] else [])
  }

  ghost function CandidateBlockers(x: Search, ss: seq<ProposedSubtask>): seq<BlockReason>
    requires Covers(x, ss)
  {
    if ss == [] then []
    else
      var front, s := ss[..|ss| - 1], ss[|ss| - 1];
      CandidateBlockers(x, front)
      + (if IsCandidate(s, x.states[s.id], x.active) then SubtaskBlockers(x, s) else [])
  }

  function FirstBlockReason(blockers: seq<BlockReason>): BlockReason {
    if DEPENDENCY_BLOCKED in blockers then DEPENDENCY_BLOCKED
    else if PREFLIGHT_BLOCKED in blockers then PREFLIGHT_BLOCKED
    else if BUDGET_BLOCKED in blockers then BUDGET_BLOCKED
    else if AUTHORITY_BLOCKED in blockers then AUTHORITY_BLOCKED
    else NO_ELIGIBLE_SUBTASK
  }

  function Decide(active: seq<SubtaskId>, eligible: seq<SubtaskId>, blockers: seq<BlockReason>): DispatchResult {
    if |active| >= 1 then Blocked(CONCURRENCY_BLOCKED, eligible)
    else if eligible == [] then
      var reason := FirstBlockReason(blockers);
      if reason == AUTHORITY_BLOCKED then HumanRequired([]) else Blocked(reason, [])
    else Selected(eligible[0], eligible, eligible[1..])
  }

  function SearchOf(input: DispatchInput, graph: MaterializedGraph): Search
    requires forall s :: s in graph.subtasks ==> s.id in StateMap(input.states)
  {
    Search(ReadinessView(graph.subtasks, StateMap(input.states)), graph.dependencies,
           StateMap(input.states), FactsMap(input.facts), input.activeWriteSubtaskIds)
  }

  ghost function SelectDispatch(input: DispatchInput): DispatchResult {
    match ParseMaterializedGraph(input.graph)
    case None => Blocked(INVALID_INPUT, [])
    case Some(graph) =>
      if !Coherent(input, graph) then Blocked(INVALID_INPUT, [])
      else
        FactsCoverGraph(input, graph);
        var x := SearchOf(input, graph);
        Decide(x.active, EligibleIds(x, graph.subtasks), CandidateBlockers(x, graph.subtasks))
  }

  lemma FactsCoverGraph(input: DispatchInput, graph: MaterializedGraph)
    requires ParseMaterializedGraph(input.graph) == Some(graph) && Coherent(input, graph)
    ensures Covers(SearchOf(input, graph), graph.subtasks)
  {
    ParsedGraphFacts(input.graph, graph);
    var keys := FactsMap(input.facts).Keys;
    var ids := IdsOf(graph.subtasks);
    DistinctCount(ids, IdSet(graph));
    assert |keys| == |FactsMap(input.facts)|;
    SubsetOfFullSize(keys, IdSet(graph));
    forall s | s in graph.subtasks ensures s.id in FactsMap(input.facts) {
      var i :| 0 <= i < |graph.subtasks| && graph.subtasks[i] == s;
      assert ids[i] in ids;
    }
  }

  /** What parsing guarantees about a graph, whatever order its dependencies came in. */
  lemma ParsedGraphFacts(g: MaterializedGraph, graph: MaterializedGraph)
    requires ParseMaterializedGraph(g) == Some(graph)
    ensures graph.subtasks == g.subtasks && graph.subtasks != []
    ensures Distinct(IdsOf(graph.subtasks))
    ensures ValidGraph(Endpoints(graph.subtasks), graph.dependencies)
  {
    hide ParseMaterializedGraph, CreatePlanCandidateBinding, SortDependencies, ValidGraph;
    ParseExact(g);
    SortingKeepsValid(Endpoints(g.subtasks), g.dependencies);
  }

  /** The re-validation inside the search cannot fail on a parsed graph. */
  lemma ReadinessAlwaysValid(input: DispatchInput, graph: MaterializedGraph, s: ProposedSubtask)
    requires ParseMaterializedGraph(input.graph) == Some(graph) && Coherent(input, graph)
    requires s in graph.subtasks
    ensures EvaluateReadiness(SearchOf(input, graph).view, graph.dependencies, s.id).valid
  {
    ParsedGraphFacts(input.graph, graph);
    ViewIsPlain(graph.subtasks, StateMap(input.states));
    ViewValid(graph.subtasks, StateMap(input.states), graph.dependencies, s);
  }

  lemma ViewIsPlain(ss: seq<ProposedSubtask>, states: map<SubtaskId, SubtaskState>)
    requires forall s :: s in ss ==> s.id in states
    requires Distinct(IdsOf(ss))
    ensures Plain(ReadinessView(ss, states)) == Endpoints(ss)
    ensures DistinctSubtasks(ReadinessView(ss, states))
  {
    var ids, view := IdsOf(ss), ReadinessView(ss, states);
    forall i, j | 0 <= i < j < |view| ensures view[i].id != view[j].id {
      assert ids[i] != ids[j];
    }
  }

  lemma ViewValid(
    ss: seq<ProposedSubtask>, states: map<SubtaskId, SubtaskState>, ds: seq<SubtaskDependency>, s: ProposedSubtask)
    requires forall s :: s in ss ==> s.id in states
    requires Distinct(IdsOf(ss)) && ValidGraph(Endpoints(ss), ds) && s in ss
    ensures EvaluateReadiness(ReadinessView(ss, states), ds, s.id).valid
  {
    ViewIsPlain(ss, states);
    var view := ReadinessView(ss, states);
    var k :| 0 <= k < |ss| && ss[k] == s;
    assert view[k].id == s.id;
    ReadinessExact(view, ds, s.id);
  }

  // ---------------------------------------------------------------- the imperative dispatcher

  lemma {:induction false} StateMapKeys(states: seq<SubtaskState>, n: SubtaskId)
    ensures n in StateMap(states) <==> exists i :: 0 <= i < |states| && states[i].subtaskId == n
  {
    if states != [] {
      var front, last := states[..|states| - 1], states[|states| - 1];
      StateMapKeys(front, n);
      if n in StateMap(front) {
        var i :| 0 <= i < |front| && front[i].subtaskId == n;
        assert states[i].subtaskId == n;
      } else if last.subtaskId == n {
        assert states[|states| - 1].subtaskId == n;
      } else if exists i :: 0 <= i < |states| && states[i].subtaskId == n {
        var i :| 0 <= i < |states| && states[i].subtaskId == n;
        assert front[i].subtaskId == n;
      }
    }
  }

  lemma {:induction false} FactsMapKeys(facts: seq<ExecutionFacts>, n: SubtaskId)
    ensures n in FactsMap(facts) <==> exists i :: 0 <= i < |facts| && facts[i].subtaskId == n
  {
    if facts != [] {
      var front, last := facts[..|facts| - 1], facts[|facts| - 1];
      FactsMapKeys(front, n);
      if n in FactsMap(front) {
        var i :| 0 <= i < |front| && front[i].subtaskId == n;
        assert facts[i].subtaskId == n;
      } else if last.subtaskId == n {
        assert facts[|facts| - 1].subtaskId == n;
      } else if exists i :: 0 <= i < |facts| && facts[i].subtaskId == n {
        var i :| 0 <= i < |facts| && facts[i].subtaskId == n;
        assert front[i].subtaskId == n;
      }
    }
  }

  method FillStates(states: seq<SubtaskState>) returns (ok: bool, byId: map<SubtaskId, SubtaskState>)
    ensures ok <==> DistinctStates(states)
    ensures ok ==> byId == StateMap(states)
  {
    byId := map[];
    for i := 0 to |states|
      invariant byId == StateMap(states[..i])
      invariant forall j, k :: 0 <= j < k < i ==> states[j].subtaskId != states[k].subtaskId
    {
      assert states[..i + 1][..i] == states[..i];
      StateMapKeys(states[..i], states[i].subtaskId);
      if states[i].subtaskId in byId {
        var j :| 0 <= j < i && states[..i][j].subtaskId == states[i].subtaskId;
        assert states[j].subtaskId == states[i].subtaskId;
        return false, byId;
      }
      assert forall j :: 0 <= j < i ==> states[..i][j] == states[j];
      byId := byId[states[i].subtaskId := states[i]];
    }
    assert states[..|states|] == states;
    return true, byId;
  }

  method FillFacts(facts: seq<ExecutionFacts>) returns (ok: bool, byId: map<SubtaskId, ExecutionFacts>)
    ensures ok <==> DistinctFacts(facts)
    ensures ok ==> byId == FactsMap(facts)
  {
    byId := map[];
    for i := 0 to |facts|
      invariant byId == FactsMap(facts[..i])
      invariant forall j, k :: 0 <= j < k < i ==> facts[j].subtaskId != facts[k].subtaskId
    {
      assert facts[..i + 1][..i] == facts[..i];
      FactsMapKeys(facts[..i], facts[i].subtaskId);
      if facts[i].subtaskId in byId {
        var j :| 0 <= j < i && facts[..i][j].subtaskId == facts[i].subtaskId;
        assert facts[j].subtaskId == facts[i].subtaskId;
        return false, byId;
      }
      assert forall j :: 0 <= j < i ==> facts[..i][j] == facts[j];
      byId := byId[facts[i].subtaskId := facts[i]];
    }
    assert facts[..|facts|] == facts;
    return true, byId;
  }

  method StagesAdmissible(ss: seq<ProposedSubtask>, states: map<SubtaskId, SubtaskState>) returns (ok: bool)
    ensures ok <==> forall s :: s in ss ==> StageAdmissible(s, states)
  {
    for i := 0 to |ss|
      invariant forall k :: 0 <= k < i ==> StageAdmissible(ss[k], states)
    {
      if !StageAdmissible(ss[i], states) {
        assert ss[i] in ss;
        return false;
      }
    }
    return true;
  }

  method DistinctActive(active: seq<SubtaskId>) returns (ok: bool)
    ensures ok <==> Distinct(active) && |active| <= 1
  {
    var ids: set<SubtaskId> := {};
    for i := 0 to |active|
      invariant forall n :: n in ids <==> n in active[..i]
      invariant Distinct(active[..i]) && |ids| == i
    {
      if active[i] in ids {
        return false;
      }
      ids := ids + {active[i]};
    }
    return |ids| <= 1;
  }

  method CheckCoherent(input: DispatchInput, graph: MaterializedGraph) returns (ok: bool)
    ensures ok <==> Coherent(input, graph)
  {
    if input.stateBinding != graph.candidateBinding || input.factsBinding != graph.candidateBinding
       || input.projectId != graph.projectId {
      return false;
    }
    var statesOk, states := FillStates(input.states);
    if !statesOk { return false; }
    var factsOk, facts := FillFacts(input.facts);
    if !factsOk { return false; }
    if |states| != |graph.subtasks| || |facts| != |graph.subtasks|
       || !(states.Keys <= IdSet(graph)) || !(facts.Keys <= IdSet(graph)) {
      return false;
    }
    var stagesOk := StagesAdmissible(graph.subtasks, states);
    if !stagesOk { return false; }
    ok := DistinctActive(input.activeWriteSubtaskIds);
  }

  method SearchCandidates(ss: seq<ProposedSubtask>, x: Search)
    returns (eligible: seq<SubtaskId>, blockers: seq<BlockReason>)
    requires Covers(x, ss)
    ensures eligible == EligibleIds(x, ss) && blockers == CandidateBlockers(x, ss)
  {
    eligible, blockers := [], [];
    for i := 0 to |ss|
      invariant eligible == EligibleIds(x, ss[..i])
      invariant blockers == CandidateBlockers(x, ss[..i])
    {
      assert ss[..i + 1][..i] == ss[..i];
      var s := ss[i];
      if IsCandidate(s, x.states[s.id], x.active) {
        var readiness := EvaluateSubtaskDependencyReadiness(x.view, x.dependencies, s.id);
        var own := BlockersOf(readiness.ready, x.facts[s.id]);
        if |own| == 0 {
          eligible := eligible + [s.id];
        } else {
          blockers := blockers + own;
        }
      }
    }
    assert ss[..|ss|] == ss;
  }

  method SelectSerialWriteDispatch(input: DispatchInput) returns (result: DispatchResult)
    ensures result == SelectDispatch(input)
  {
    var parsed := ParseGraph(input.graph);
    if parsed.None? {
      return Blocked(INVALID_INPUT, []);
    }
    var graph := parsed.value;
    var ok := CheckCoherent(input, graph);
    if !ok {
      return Blocked(INVALID_INPUT, []);
    }
    FactsCoverGraph(input, graph);
    var x := SearchOf(input, graph);
    var eligible, blockers := SearchCandidates(graph.subtasks, x);
    result := Decide(x.active, eligible, blockers);
  }

  // ---------------------------------------------------------------- completion

  datatype CompletionResult =
    | CompletionBlocked(incomplete: seq<SubtaskId>)
    | CompletionInvalid
    | CompletionEligible(bigTaskId: BigTaskId)

  function IncompleteIds(ss: seq<ProposedSubtask>, states: map<SubtaskId, SubtaskState>): (r: seq<SubtaskId>)
    ensures forall n :: n in r <==>
      exists i :: 0 <= i < |ss| && ss[i].id == n && !(n in states && states[n].stage == COMPLETE)
  {
    if ss == [] then []
    else
      var front, s := ss[..|ss| - 1], ss[|ss| - 1];
      assert ss == front + [s];
      IncompleteIds(front, states) + (if s.id in states && states[s.id].stage == COMPLETE then [] else [s.id])
  }

  ghost predicate CompletionCoherent(graph: MaterializedGraph, binding: Text, states: seq<SubtaskState>) {
    && binding == graph.candidateBinding && DistinctStates(states)
    && |StateMap(states)| == |graph.subtasks| && StateMap(states).Keys <= IdSet(graph)
    && forall i :: 0 <= i < |states| ==> !(states[i].stage == COMPLETE && states[i].maturity == NotStarted)
  }

  ghost function EvaluateCompletion(g: MaterializedGraph, binding: Text, states: seq<SubtaskState>): CompletionResult {
    match ParseMaterializedGraph(g)
    case None => CompletionInvalid
    case Some(graph) =>
      if !CompletionCoherent(graph, binding, states) then CompletionInvalid
      else
        var incomplete := IncompleteIds(graph.subtasks, StateMap(states));
        if incomplete != [] then CompletionBlocked(incomplete) else CompletionEligible(graph.bigTaskId)
  }

  method CheckCompletionCoherent(graph: MaterializedGraph, binding: Text, states: seq<SubtaskState>)
    returns (ok: bool, byId: map<SubtaskId, SubtaskState>)
    ensures ok <==> CompletionCoherent(graph, binding, states)
    ensures ok ==> byId == StateMap(states)
  {
    var filled;
    filled, byId := FillStates(states);
    if !filled || binding != graph.candidateBinding { return false, byId; }
    if |byId| != |graph.subtasks| || !(byId.Keys <= IdSet(graph)) { return false, byId; }
    ok := forall i :: 0 <= i < |states| ==> !(states[i].stage == COMPLETE && states[i].maturity == NotStarted);
  }

  method EvaluateBigTaskCompletion(g: MaterializedGraph, binding: Text, states: seq<SubtaskState>)
    returns (result: CompletionResult)
    ensures result == EvaluateCompletion(g, binding, states)
  {
    var parsed := ParseGraph(g);
    if parsed.None? { return CompletionInvalid; }
    var graph := parsed.value;
    var ok, byId := CheckCompletionCoherent(graph, binding, states);
    if !ok { return CompletionInvalid; }
    var incomplete := IncompleteIds(graph.subtasks, byId);
    result := if |incomplete| > 0 then CompletionBlocked(incomplete) else CompletionEligible(graph.bigTaskId);
  }
}
