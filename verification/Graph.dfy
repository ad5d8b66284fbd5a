/** packages/orchestration/src/graph.ts and materialization.ts: candidate validation, binding and materialization. */
module Graph {
  import opened Options
  import opened CodeUnits
  import opened Sorting
  import opened BlockingGraph
  import opened Dependencies
  import opened DependencyValidation
  import opened JsonStringify

  datatype WorkflowProfile = Low | Standard | HighRiskFoundation

  datatype ProposedSubtask = ProposedSubtask(
    id: SubtaskId, bigTaskId: BigTaskId, profile: WorkflowProfile, taskContractRef: Text, writeEnabled: bool)

  datatype PlanCandidate = PlanCandidate(
    projectId: Text, bigTaskId: BigTaskId, revision: nat,
    subtasks: seq<ProposedSubtask>, dependencies: seq<SubtaskDependency>)

  datatype MaterializedGraph = MaterializedGraph(
    projectId: Text, bigTaskId: BigTaskId, planRevision: nat, candidateBinding: Text,
    subtasks: seq<ProposedSubtask>, dependencies: seq<SubtaskDependency>)

  const MAX_SAFE_INTEGER: nat := 0x1F_FFFF_FFFF_FFFF

  // ---------------------------------------------------------------- dependency order

  function TypeName(d: SubtaskDependency): Text {
    if d.Blocking? then Ascii("BLOCKING") else Ascii("INFORMATIONAL")
  }

  function GateName(g: RequiredGate): Text {
    match g
    case NoGate => Ascii("NONE")
    case Verified => Ascii("VERIFIED")
    case Hardened => Ascii("HARDENED")
    case Accepted => Ascii("ACCEPTED")
  }

  function ProfileName(p: WorkflowProfile): Text {
    match p
    case Low => Ascii("LOW")
    case Standard => Ascii("STANDARD")
    case HighRiskFoundation => Ascii("HIGH_RISK_FOUNDATION")
  }

  function Fields(d: SubtaskDependency): (f: seq<Text>)
    ensures |f| == 5
  {
    [d.upstreamSubtaskId, d.downstreamSubtaskId, TypeName(d), GateName(d.RequiredGate()), d.reason]
  }

  function CompareDependencies(left: SubtaskDependency, right: SubtaskDependency): int {
    FirstDifference(Fields(left), Fields(right))
  }

  predicate DependencyAtMost(left: SubtaskDependency, right: SubtaskDependency) {
    CompareDependencies(left, right) <= 0
  }

  function SortDependencies(ds: seq<SubtaskDependency>): (r: seq<SubtaskDependency>)
    ensures multiset(r) == multiset(ds)
  {
    Sort(ds, DependencyAtMost)
  }

  lemma GateNamesDiffer(g: RequiredGate, h: RequiredGate)
    ensures GateName(g) == GateName(h) <==> g == h
  {
    assert GateName(NoGate)[0] == 'N' as int && GateName(Verified)[0] == 'V' as int;
    assert GateName(Hardened)[0] == 'H' as int && GateName(Accepted)[0] == 'A' as int;
  }

  lemma FieldsDetermine(a: SubtaskDependency, b: SubtaskDependency)
    ensures Fields(a) == Fields(b) <==> a == b
  {
    if Fields(a) == Fields(b) {
      assert Fields(a)[0] == Fields(b)[0] && Fields(a)[1] == Fields(b)[1] && Fields(a)[4] == Fields(b)[4];
      assert Fields(a)[2] == Fields(b)[2] && Fields(a)[3] == Fields(b)[3];
      assert |TypeName(a)| == |TypeName(b)|;
      GateNamesDiffer(a.RequiredGate(), b.RequiredGate());
    }
  }

  lemma DependencyOrderTotal()
    ensures TotalOrder(DependencyAtMost)
  {
    forall x, y ensures DependencyAtMost(x, y) || DependencyAtMost(y, x) {
      FirstDifferenceOrder(Fields(x), Fields(y));
    }
    forall x, y | DependencyAtMost(x, y) && DependencyAtMost(y, x) ensures x == y {
      FirstDifferenceOrder(Fields(x), Fields(y));
      FieldsDetermine(x, y);
    }
    forall x, y, z | DependencyAtMost(x, y) && DependencyAtMost(y, z) ensures DependencyAtMost(x, z) {
      FirstDifferenceTransitive(Fields(x), Fields(y), Fields(z));
    }
  }

  // ---------------------------------------------------------------- the binding

  function PlainSubtask(s: ProposedSubtask): Plain {
    Arr([Str(s.id), Str(s.bigTaskId), Str(ProfileName(s.profile)), Str(s.taskContractRef), Bool(s.writeEnabled)])
  }

  function PlainDependency(d: SubtaskDependency): Plain {
    Arr([Str(d.upstreamSubtaskId), Str(d.downstreamSubtaskId), Str(TypeName(d)),
         Str(GateName(d.RequiredGate())), Str(d.reason)])
  }

  function PlainSubtasks(ss: seq<ProposedSubtask>): Plain {
    Arr(seq(|ss|, i requires 0 <= i < |ss| => PlainSubtask(ss[i])))
  }

  function PlainDependencies(ds: seq<SubtaskDependency>): Plain {
    Arr(seq(|ds|, i requires 0 <= i < |ds| => PlainDependency(ds[i])))
  }

  function BindingValue(c: PlanCandidate): Plain {
    Arr([Str(Ascii("PLAN_CANDIDATE_BINDING_V1")), Str(c.projectId), Str(c.bigTaskId), Int(c.revision),
         PlainSubtasks(c.subtasks), PlainDependencies(SortDependencies(c.dependencies))])
  }

  function CreatePlanCandidateBinding(c: PlanCandidate): Text {
    Stringify(BindingValue(c))
  }

  lemma PlainSubtaskInjective(a: ProposedSubtask, b: ProposedSubtask)
    ensures PlainSubtask(a) == PlainSubtask(b) <==> a == b
  {
    if PlainSubtask(a) == PlainSubtask(b) {
      var x, y := PlainSubtask(a).items, PlainSubtask(b).items;
      assert x[0] == y[0] && x[1] == y[1] && x[2] == y[2] && x[3] == y[3] && x[4] == y[4];
      assert |ProfileName(a.profile)| == |ProfileName(b.profile)|;
    }
  }

  lemma PlainDependencyInjective(a: SubtaskDependency, b: SubtaskDependency)
    ensures PlainDependency(a) == PlainDependency(b) <==> a == b
  {
    if PlainDependency(a) == PlainDependency(b) {
      var x, y := PlainDependency(a).items, PlainDependency(b).items;
      assert x[0] == y[0] && x[1] == y[1] && x[2] == y[2] && x[3] == y[3] && x[4] == y[4];
      FieldsDetermine(a, b);
    }
  }

  lemma PlainSubtasksInjective(a: seq<ProposedSubtask>, b: seq<ProposedSubtask>)
    ensures PlainSubtasks(a) == PlainSubtasks(b) <==> a == b
  {
    if PlainSubtasks(a) == PlainSubtasks(b) {
      var x, y := PlainSubtasks(a).items, PlainSubtasks(b).items;
      assert |x| == |a| && |y| == |b|;
      forall i | 0 <= i < |a| ensures a[i] == b[i] {
        assert x[i] == y[i];
        PlainSubtaskInjective(a[i], b[i]);
      }
    }
  }

  lemma PlainDependenciesInjective(a: seq<SubtaskDependency>, b: seq<SubtaskDependency>)
    ensures PlainDependencies(a) == PlainDependencies(b) <==> a == b
  {
    if PlainDependencies(a) == PlainDependencies(b) {
      var x, y := PlainDependencies(a).items, PlainDependencies(b).items;
      assert |x| == |a| && |y| == |b|;
      forall i | 0 <= i < |a| ensures a[i] == b[i] {
        assert x[i] == y[i];
        PlainDependencyInjective(a[i], b[i]);
      }
    }
  }

  /** Same plan up to the order in which its dependencies are listed. */
  predicate SamePlan(a: PlanCandidate, b: PlanCandidate) {
    && a.projectId == b.projectId && a.bigTaskId == b.bigTaskId && a.revision == b.revision
    && a.subtasks == b.subtasks && multiset(a.dependencies) == multiset(b.dependencies)
  }

  lemma BindingValueInjective(a: PlanCandidate, b: PlanCandidate)
    ensures BindingValue(a) == BindingValue(b) <==>
      && a.projectId == b.projectId && a.bigTaskId == b.bigTaskId && a.revision == b.revision
      && a.subtasks == b.subtasks && SortDependencies(a.dependencies) == SortDependencies(b.dependencies)
  {
    hide SortDependencies, PlainSubtasks, PlainDependencies, Ascii;
    PlainSubtasksInjective(a.subtasks, b.subtasks);
    PlainDependenciesInjective(SortDependencies(a.dependencies), SortDependencies(b.dependencies));
    var x, y := BindingValue(a).items, BindingValue(b).items;
    if BindingValue(a) == BindingValue(b) {
      assert x[1] == y[1] && x[2] == y[2] && x[3] == y[3] && x[4] == y[4] && x[5] == y[5];
    }
  }

  /** The binding text is a canonical form. */
  lemma BindingCanonical(a: PlanCandidate, b: PlanCandidate)
    ensures CreatePlanCandidateBinding(a) == CreatePlanCandidateBinding(b) <==> SamePlan(a, b)
  {
    hide BindingValue, Stringify, TotalOrder;
    StringifyInjective(BindingValue(a), BindingValue(b));
    BindingValueInjective(a, b);
    DependencyOrderTotal();
    SortCanonical(a.dependencies, b.dependencies, DependencyAtMost);
  }

  // ---------------------------------------------------------------- validation

  datatype GraphError =
    | InvalidPlanCandidate
    | DuplicateSubtaskId(id: SubtaskId)
    | BigTaskOwnershipMismatch(id: SubtaskId)
    | DependencyError(code: ErrorCode, subtaskIds: seq<SubtaskId>)

  datatype GraphValidation =
    | InvalidGraph(errors: seq<GraphError>)
    | ValidatedGraph(candidate: PlanCandidate, orderedSubtaskIds: seq<SubtaskId>, dependencies: seq<SubtaskDependency>)

  /** The typed part of candidate parsing: the revision range, a non-empty plan, sorted dependencies. */
  function ParsePlanCandidate(c: PlanCandidate): Option<PlanCandidate> {
    if c.revision < 1 || c.revision > MAX_SAFE_INTEGER || c.subtasks == [] then None
    else Some(c.(dependencies := SortDependencies(c.dependencies)))
  }

  function IdsOf(ss: seq<ProposedSubtask>): (ids: seq<SubtaskId>)
    ensures |ids| == |ss| && forall i :: 0 <= i < |ss| ==> ids[i] == ss[i].id
  {
    seq(|ss|, i requires 0 <= i < |ss| => ss[i].id)
  }

  function Endpoints(ss: seq<ProposedSubtask>): (r: seq<DependencySubtask>)
    ensures |r| == |ss| && forall i :: 0 <= i < |ss| ==> r[i] == DependencySubtask(ss[i].id, ss[i].bigTaskId)
  {
    seq(|ss|, i requires 0 <= i < |ss| => DependencySubtask(ss[i].id, ss[i].bigTaskId))
  }

  function SubtaskErrors(bigTaskId: BigTaskId, ss: seq<ProposedSubtask>): seq<GraphError> {
    if ss == [] then []
    else
      var front, last := ss[..|ss| - 1], ss[|ss| - 1];
      SubtaskErrors(bigTaskId, front)
      + (if last.id in IdsOf(front) then [DuplicateSubtaskId(last.id)] else [])
      + (if last.bigTaskId != bigTaskId then [BigTaskOwnershipMismatch(last.id)] else [])
  }

  function Relabel(errors: seq<ValidationError>): seq<GraphError> {
    seq(|errors|, i requires 0 <= i < |errors| => DependencyError(errors[i].code, errors[i].subtaskIds))
  }

  ghost function GraphErrors(c: PlanCandidate): seq<GraphError> {
    SubtaskErrors(c.bigTaskId, c.subtasks)
    + Relabel(ValidationErrors(Endpoints(c.subtasks), SortDependencies(c.dependencies)))
  }

  ghost function ValidatePlanCandidateGraph(input: PlanCandidate): GraphValidation {
    match ParsePlanCandidate(input)
    case None => InvalidGraph([InvalidPlanCandidate])
    case Some(c) =>
      if GraphErrors(c) != [] then InvalidGraph(GraphErrors(c))
      else
        var dependencies := SortDependencies(c.dependencies);
        ValidatedGraph(c.(dependencies := dependencies), IdsOf(c.subtasks), dependencies)
  }

  method CheckSubtasks(c: PlanCandidate) returns (errors: seq<GraphError>)
    ensures errors == SubtaskErrors(c.bigTaskId, c.subtasks)
  {
    errors := [];
    var seen: set<SubtaskId> := {};
    var ss := c.subtasks;
    for i := 0 to |ss|
      invariant errors == SubtaskErrors(c.bigTaskId, ss[..i])
      invariant forall n :: n in seen <==> n in IdsOf(ss[..i])
    {
      assert ss[..i + 1][..i] == ss[..i];
      assert IdsOf(ss[..i + 1]) == IdsOf(ss[..i]) + [ss[i].id];
      if ss[i].id in seen {
        errors := errors + [DuplicateSubtaskId(ss[i].id)];
      }
      seen := seen + {ss[i].id};
      if ss[i].bigTaskId != c.bigTaskId {
        errors := errors + [BigTaskOwnershipMismatch(ss[i].id)];
      }
    }
    assert ss[..|ss|] == ss;
  }

  method ValidatePlan(input: PlanCandidate) returns (result: GraphValidation)
    ensures result == ValidatePlanCandidateGraph(input)
  {
    var parsed := ParsePlanCandidate(input);
    if parsed.None? {
      return InvalidGraph([InvalidPlanCandidate]);
    }
    var c := parsed.value;
    var errors := CheckSubtasks(c);
    var dependencies := SortDependencies(c.dependencies);
    var domainErrors := ValidateSubtaskDependencies(Endpoints(c.subtasks), dependencies);
    errors := errors + Relabel(domainErrors);
    if |errors| > 0 {
      return InvalidGraph(errors);
    }
    result := ValidatedGraph(c.(dependencies := dependencies), IdsOf(c.subtasks), dependencies);
  }

  function CandidateOf(g: MaterializedGraph): PlanCandidate {
    PlanCandidate(g.projectId, g.bigTaskId, g.planRevision, g.subtasks, g.dependencies)
  }

  ghost function ParseMaterializedGraph(g: MaterializedGraph): Option<MaterializedGraph> {
    var v := ValidatePlanCandidateGraph(CandidateOf(g));
    if v.InvalidGraph? then None
    else if g.candidateBinding != CreatePlanCandidateBinding(v.candidate) then None
    else
      var c := v.candidate;
      Some(MaterializedGraph(c.projectId, c.bigTaskId, c.revision, g.candidateBinding, c.subtasks, v.dependencies))
  }

  method ParseGraph(g: MaterializedGraph) returns (r: Option<MaterializedGraph>)
    ensures r == ParseMaterializedGraph(g)
  {
    var v := ValidatePlan(CandidateOf(g));
    if v.InvalidGraph? || g.candidateBinding != CreatePlanCandidateBinding(v.candidate) {
      return None;
    }
    var c := v.candidate;
    r := Some(MaterializedGraph(c.projectId, c.bigTaskId, c.revision, g.candidateBinding, c.subtasks, v.dependencies));
  }

  // ---------------------------------------------------------------- what acceptance means

  ghost predicate SoundPlan(c: PlanCandidate) {
    && 1 <= c.revision <= 9_007_199_254_740_991 && c.subtasks != []
    && Distinct(IdsOf(c.subtasks))
    && (forall i :: 0 <= i < |c.subtasks| ==> c.subtasks[i].bigTaskId == c.bigTaskId)
    && ValidGraph(Endpoints(c.subtasks), c.dependencies)
  }

  lemma SortingKeepsValid(subtasks: seq<DependencySubtask>, ds: seq<SubtaskDependency>)
    ensures ValidGraph(subtasks, SortDependencies(ds)) <==> ValidGraph(subtasks, ds)
  {
    hide ValidGraph;
    if ValidGraph(subtasks, ds) { ValidGraphPermutes(subtasks, ds, SortDependencies(ds)); }
    if ValidGraph(subtasks, SortDependencies(ds)) { ValidGraphPermutes(subtasks, SortDependencies(ds), ds); }
  }

  lemma {:induction false} NoSubtaskErrors(bigTaskId: BigTaskId, ss: seq<ProposedSubtask>)
    ensures SubtaskErrors(bigTaskId, ss) == [] <==>
      Distinct(IdsOf(ss)) && forall i :: 0 <= i < |ss| ==> ss[i].bigTaskId == bigTaskId
  {
    if ss != [] {
      var front, last := ss[..|ss| - 1], ss[|ss| - 1];
      NoSubtaskErrors(bigTaskId, front);
      var ids := IdsOf(front);
      assert IdsOf(ss) == ids + [last.id];
      assert Distinct(ids + [last.id]) <==> Distinct(ids) && last.id !in ids;
      assert forall i :: 0 <= i < |front| ==> front[i] == ss[i];
      assert last == ss[|ss| - 1];
    }
  }

  /** Validation accepts exactly the sound plans. */
  lemma PlanValidationExact(c: PlanCandidate)
    ensures ValidatePlanCandidateGraph(c).ValidatedGraph? <==> SoundPlan(c)
  {
    DependencyOrderTotal();
    SortIdempotent(c.dependencies, DependencyAtMost);
    NoSubtaskErrors(c.bigTaskId, c.subtasks);
    ValidationExact(Endpoints(c.subtasks), SortDependencies(c.dependencies));
    SortingKeepsValid(Endpoints(c.subtasks), c.dependencies);
  }

  /** Two Subtasks of the list have the id. */
  ghost predicate Repeated(ss: seq<ProposedSubtask>, n: SubtaskId) { exists i, j :: 0 <= i < j < |ss| && ss[i].id == n && ss[j].id == n }

  ghost predicate Foreign(bigTaskId: BigTaskId, ss: seq<ProposedSubtask>, n: SubtaskId) {
    exists i :: 0 <= i < |ss| && ss[i].id == n && ss[i].bigTaskId != bigTaskId
  }

  /** What an error says about the plan. */
  ghost predicate Says(c: PlanCandidate, e: GraphError) {
    match e
    case InvalidPlanCandidate => false
    case DuplicateSubtaskId(n) => Repeated(c.subtasks, n)
    case BigTaskOwnershipMismatch(n) => Foreign(c.bigTaskId, c.subtasks, n)
    case DependencyError(code, ids) =>
      exists v :: v in ValidationErrors(Endpoints(c.subtasks), SortDependencies(c.dependencies)) && v.code == code && v.subtaskIds == ids
  }

  lemma {:induction false} SubtaskErrorsExact(bigTaskId: BigTaskId, ss: seq<ProposedSubtask>, e: GraphError)
    ensures e in SubtaskErrors(bigTaskId, ss) <==>
      (e.DuplicateSubtaskId? && Repeated(ss, e.id)) || (e.BigTaskOwnershipMismatch? && Foreign(bigTaskId, ss, e.id))
  {
    if ss != [] {
      var front, last := ss[..|ss| - 1], ss[|ss| - 1];
      SubtaskErrorsExact(bigTaskId, front, e);
      OneMoreSubtask(bigTaskId, ss);
    }
  }

  lemma OneMoreSubtask(bigTaskId: BigTaskId, ss: seq<ProposedSubtask>)
    requires ss != []
    ensures var front, last := ss[..|ss| - 1], ss[|ss| - 1];
      forall n :: (Repeated(ss, n) <==> Repeated(front, n) || (last.id == n && n in IdsOf(front))) &&
                  (Foreign(bigTaskId, ss, n) <==> Foreign(bigTaskId, front, n) || (last.id == n && last.bigTaskId != bigTaskId))
  {
    var k := |ss| - 1;
    var front := ss[..k];
    assert forall i :: 0 <= i < k ==> front[i] == ss[i];
    forall n | n in IdsOf(front) && ss[k].id == n ensures Repeated(ss, n) {
      var i :| 0 <= i < k && IdsOf(front)[i] == n;
      assert ss[i].id == n;
    }
    forall n ensures Repeated(ss, n) ==> Repeated(front, n) || (ss[k].id == n && n in IdsOf(front)) {
      if i, j :| 0 <= i < j < |ss| && ss[i].id == n && ss[j].id == n {
        assert IdsOf(front)[i] == n;
      }
    }
  }

  lemma RelabelExact(errors: seq<ValidationError>, e: GraphError)
    ensures e in Relabel(errors) <==>
      e.DependencyError? && exists v :: v in errors && v.code == e.code && v.subtaskIds == e.subtaskIds
  {
    var r := Relabel(errors);
    if e in r {
      var i :| 0 <= i < |r| && r[i] == e;
      assert errors[i] in errors;
    }
    if e.DependencyError? {
      if v :| v in errors && v.code == e.code && v.subtaskIds == e.subtaskIds {
        var i :| 0 <= i < |errors| && errors[i] == v;
        assert r[i] == e;
      }
    }
  }

  /** A plan that is not sound is refused as a whole when it cannot be parsed, and otherwise with the errors that it has. */
  lemma PlanErrorsExact(c: PlanCandidate)
    requires !SoundPlan(c)
    ensures ValidatePlanCandidateGraph(c).InvalidGraph?
    ensures !(1 <= c.revision <= 9_007_199_254_740_991 && c.subtasks != []) ==>
      ValidatePlanCandidateGraph(c).errors == [InvalidPlanCandidate]
    ensures 1 <= c.revision <= 9_007_199_254_740_991 && c.subtasks != [] ==>
      ValidatePlanCandidateGraph(c).errors != [] && forall e :: e in ValidatePlanCandidateGraph(c).errors <==> Says(c, e)
  {
    hide SubtaskErrors, Relabel, ValidationErrors, SortDependencies;
    PlanValidationExact(c);
    SortedTwice(c.dependencies);
    if 1 <= c.revision <= 9_007_199_254_740_991 && c.subtasks != [] {
      forall e ensures e in GraphErrors(Normalized(c)) <==> Says(c, e) {
        SubtaskErrorsExact(c.bigTaskId, c.subtasks, e);
        RelabelExact(ValidationErrors(Endpoints(c.subtasks), SortDependencies(c.dependencies)), e);
      }
    }
  }

  /** The dependencies of a normal form: strictly ascending, by upstream and then by downstream. */
  ghost predicate Ascending(ds: seq<SubtaskDependency>) {
    forall i, j :: 0 <= i < j < |ds| ==>
      || Below(ds[i].upstreamSubtaskId, ds[j].upstreamSubtaskId)
      || (ds[i].upstreamSubtaskId == ds[j].upstreamSubtaskId && Below(ds[i].downstreamSubtaskId, ds[j].downstreamSubtaskId))
  }

  lemma NormalFormAscends(c: PlanCandidate)
    requires SoundPlan(c)
    ensures Ascending(SortDependencies(c.dependencies))
  {
    hide DependencyAtMost, Sort;
    var ds := SortDependencies(c.dependencies);
    DependencyOrderTotal();
    SortSorted(c.dependencies, DependencyAtMost);
    SortingKeepsValid(Endpoints(c.subtasks), c.dependencies);
    forall i, j | 0 <= i < j < |ds|
      ensures Below(ds[i].upstreamSubtaskId, ds[j].upstreamSubtaskId) ||
        (ds[i].upstreamSubtaskId == ds[j].upstreamSubtaskId && Below(ds[i].downstreamSubtaskId, ds[j].downstreamSubtaskId))
    {
      assert DependencyAtMost(ds[i], ds[j]) && ds[i].Key() != ds[j].Key();
      FirstTwoFields(ds[i], ds[j]);
    }
  }

  lemma FirstTwoFields(a: SubtaskDependency, b: SubtaskDependency)
    requires DependencyAtMost(a, b) && a.Edge() != b.Edge()
    ensures Below(a.upstreamSubtaskId, b.upstreamSubtaskId) ||
      (a.upstreamSubtaskId == b.upstreamSubtaskId && Below(a.downstreamSubtaskId, b.downstreamSubtaskId))
  {
    BelowTrichotomy(a.upstreamSubtaskId, b.upstreamSubtaskId);
    BelowTrichotomy(a.downstreamSubtaskId, b.downstreamSubtaskId);
    var x, y := Fields(a), Fields(b);
    assert x[1..][0] == a.downstreamSubtaskId && y[1..][0] == b.downstreamSubtaskId;
    assert FirstDifference(x, y) == if CompareCodeUnits(x[0], y[0]) != 0 then CompareCodeUnits(x[0], y[0])
      else FirstDifference(x[1..], y[1..]);
  }

  function Normalized(c: PlanCandidate): PlanCandidate {
    c.(dependencies := SortDependencies(c.dependencies))
  }

  lemma SortedTwice(ds: seq<SubtaskDependency>)
    ensures SortDependencies(SortDependencies(ds)) == SortDependencies(ds)
  {
    DependencyOrderTotal();
    SortIdempotent(ds, DependencyAtMost);
  }

  lemma NormalizedIsSound(c: PlanCandidate)
    ensures SoundPlan(Normalized(c)) <==> SoundPlan(c)
    ensures Normalized(Normalized(c)) == Normalized(c)
    ensures CreatePlanCandidateBinding(Normalized(c)) == CreatePlanCandidateBinding(c)
  {
    SortedTwice(c.dependencies);
    SortingKeepsValid(Endpoints(c.subtasks), c.dependencies);
  }

  /** A validated plan is its own normal form. */
  lemma ValidationNormalizes(c: PlanCandidate)
    requires SoundPlan(c)
    ensures ValidatePlanCandidateGraph(c) ==
      ValidatedGraph(Normalized(c), IdsOf(c.subtasks), SortDependencies(c.dependencies))
  {
    PlanValidationExact(c);
    SortedTwice(c.dependencies);
  }

  /** A graph parses exactly when its plan is sound and it carries that plan's binding. */
  lemma ParseExact(g: MaterializedGraph)
    ensures ParseMaterializedGraph(g) ==
      if SoundPlan(CandidateOf(g)) && g.candidateBinding == CreatePlanCandidateBinding(CandidateOf(g))
      then Some(g.(dependencies := SortDependencies(g.dependencies)))
      else None
  {
    var c := CandidateOf(g);
    PlanValidationExact(c);
    NormalizedIsSound(c);
    if SoundPlan(c) {
      ValidationNormalizes(c);
    }
  }

  /** Accepting a graph yields a normal form that is accepted unchanged. */
  lemma ParseIdempotent(g: MaterializedGraph)
    requires ParseMaterializedGraph(g).Some?
    ensures ParseMaterializedGraph(ParseMaterializedGraph(g).value) == ParseMaterializedGraph(g)
  {
    ParseExact(g);
    var h := g.(dependencies := SortDependencies(g.dependencies));
    assert CandidateOf(h) == Normalized(CandidateOf(g));
    NormalizedIsSound(CandidateOf(g));
    ParseExact(h);
    SortedTwice(g.dependencies);
  }

  // ---------------------------------------------------------------- materialization

  datatype Materialization =
    | AuthorityBlocked
    | GraphInvalid(errors: seq<GraphError>)
    | Materialized(graph: MaterializedGraph)

  function GraphOf(c: PlanCandidate, dependencies: seq<SubtaskDependency>): MaterializedGraph {
    MaterializedGraph(c.projectId, c.bigTaskId, c.revision, CreatePlanCandidateBinding(c), c.subtasks, dependencies)
  }

  /** `approved` is the candidate of a review state in phase APPROVED, if there is one. */
  ghost function MaterializeApprovedPlan(approved: Option<PlanCandidate>): Materialization {
    match approved
    case None => AuthorityBlocked
    case Some(candidate) => MaterializeValidated(ValidatePlanCandidateGraph(candidate))
  }

  ghost function MaterializeValidated(v: GraphValidation): Materialization {
    match v
    case InvalidGraph(errors) => GraphInvalid(errors)
    case ValidatedGraph(candidate, _, dependencies) =>
      match ParseMaterializedGraph(GraphOf(candidate, dependencies))
      case None => GraphInvalid([InvalidPlanCandidate])
      case Some(graph) => Materialized(graph)
  }

  /** The re-parse of a validated plan never fails. */
  lemma SoundPlanReparses(c: PlanCandidate, g: MaterializedGraph)
    requires SoundPlan(c) && g == GraphOf(Normalized(c), SortDependencies(c.dependencies))
    ensures ParseMaterializedGraph(g) == Some(g)
    ensures SamePlan(CandidateOf(g), c)
    ensures g.candidateBinding == CreatePlanCandidateBinding(c)
  {
    NormalizedIsSound(c);
    assert CandidateOf(g) == Normalized(c);
    ParseExact(g);
    SortedTwice(c.dependencies);
    assert g.(dependencies := SortDependencies(g.dependencies)) == g;
  }

  lemma MaterializedForm(c: PlanCandidate, g: MaterializedGraph)
    requires SoundPlan(c) && g == GraphOf(Normalized(c), SortDependencies(c.dependencies))
    ensures MaterializeApprovedPlan(Some(c)) == Materialized(g)
  {
    ValidationNormalizes(c);
    SoundPlanReparses(c, g);
  }

  /** Without an approved plan the authority is missing, and a plan that is not sound is refused with its errors. */
  lemma MaterializationRefusals(c: PlanCandidate)
    requires !SoundPlan(c)
    ensures MaterializeApprovedPlan(None) == AuthorityBlocked
    ensures ValidatePlanCandidateGraph(c).InvalidGraph?
    ensures MaterializeApprovedPlan(Some(c)) == GraphInvalid(ValidatePlanCandidateGraph(c).errors)
  {
    hide ValidatePlanCandidateGraph, SoundPlan;
    PlanValidationExact(c);
  }

  /** A plan is materialized exactly when it is sound, into an accepted graph that carries its own binding. */
  lemma MaterializationExact(c: PlanCandidate)
    ensures MaterializeApprovedPlan(Some(c)).Materialized? <==> SoundPlan(c)
    ensures SoundPlan(c) ==>
      var g := MaterializeApprovedPlan(Some(c)).graph;
      && ParseMaterializedGraph(g) == Some(g)
      && SamePlan(CandidateOf(g), c)
      && g.candidateBinding == CreatePlanCandidateBinding(c)
  {
    PlanValidationExact(c);
    if ValidatePlanCandidateGraph(c).ValidatedGraph? {
      var g := GraphOf(Normalized(c), SortDependencies(c.dependencies));
      MaterializedForm(c, g);
      SoundPlanReparses(c, g);
    }
  }
}
