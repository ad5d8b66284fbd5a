/** packages/domain/src/dependencies.ts: which defect of which edge each validation error names. */
module DependencyErrors {
  import opened Options
  import opened CodeUnits
  import opened Sorting
  import opened BlockingGraph
  import opened Dependencies
  import opened DependencyValidation

  /** What an error of the edge loop says about the edge with its index. */
  ghost predicate NamesDefect(byId: map<SubtaskId, DependencySubtask>, ds: seq<SubtaskDependency>, e: ValidationError) {
    && e.edgeIndex.Some? && e.edgeIndex.value < |ds|
    && var k := e.edgeIndex.value; var up, down := ds[k].upstreamSubtaskId, ds[k].downstreamSubtaskId;
       match e.code
       case SelfDependency => up == down && e.subtaskIds == [up]
       case DuplicateDependency => (exists j :: 0 <= j < k && ds[j].Key() == ds[k].Key()) && e.subtaskIds == [up, down]
       case MissingUpstreamSubtask => up !in byId && e.subtaskIds == [up]
       case MissingDownstreamSubtask => down !in byId && e.subtaskIds == [down]
       case CrossBigTaskDependency =>
         up in byId && down in byId && byId[up].bigTaskId != byId[down].bigTaskId && e.subtaskIds == [up, down]
       case DependencyCycle => false
  }

  function CodeRank(code: ErrorCode): nat {
    match code
    case SelfDependency => 0
    case DuplicateDependency => 1
    case MissingUpstreamSubtask => 2
    case MissingDownstreamSubtask => 3
    case CrossBigTaskDependency => 4
    case DependencyCycle => 5
  }

  /** By edge, and for one edge in the order of the checks, each at most once. */
  ghost predicate Reported(errors: seq<ValidationError>) {
    && (forall i :: 0 <= i < |errors| ==> errors[i].edgeIndex.Some?)
    && (forall i, j :: 0 <= i < j < |errors| ==>
          || errors[i].edgeIndex.value < errors[j].edgeIndex.value
          || (errors[i].edgeIndex == errors[j].edgeIndex && CodeRank(errors[i].code) < CodeRank(errors[j].code)))
  }

  /** The errors of one edge, check by check. */
  function EdgeChecks(byId: map<SubtaskId, DependencySubtask>, seen: set<Text>, d: SubtaskDependency, k: nat)
    : (r: seq<seq<ValidationError>>)
    ensures |r| == 5
  {
    var up, down := d.upstreamSubtaskId, d.downstreamSubtaskId;
    [if up == down then [ValidationError(SelfDependency, Some(k), [up])] else [],
     if d.Key() in seen then [ValidationError(DuplicateDependency, Some(k), [up, down])] else [],
     if up !in byId then [ValidationError(MissingUpstreamSubtask, Some(k), [up])] else [],
     if down !in byId then [ValidationError(MissingDownstreamSubtask, Some(k), [down])] else [],
     if up in byId && down in byId && byId[up].bigTaskId != byId[down].bigTaskId
     then [ValidationError(CrossBigTaskDependency, Some(k), [up, down])] else []]
  }

  lemma EdgeErrorsByCheck(byId: map<SubtaskId, DependencySubtask>, seen: set<Text>, d: SubtaskDependency, k: nat)
    ensures var c := EdgeChecks(byId, seen, d, k); EdgeErrors(byId, seen, d, k) == c[0] + c[1] + c[2] + c[3] + c[4]
  {}

  lemma InFive(a: seq<ValidationError>, b: seq<ValidationError>, c: seq<ValidationError>, d: seq<ValidationError>,
               f: seq<ValidationError>, e: ValidationError)
    ensures e in a + b + c + d + f <==> e in a || e in b || e in c || e in d || e in f
  {}

  lemma ErrorsOfOneEdge(byId: map<SubtaskId, DependencySubtask>, ds: seq<SubtaskDependency>, e: ValidationError)
    requires ds != []
    ensures var k := |ds| - 1;
      e in EdgeErrors(byId, KeysOf(ds[..k]), ds[k], k) <==> NamesDefect(byId, ds, e) && e.edgeIndex == Some(k)
  {
    hide KeysOf, EdgeErrors;
    var k := |ds| - 1;
    assert ds[k].Key() in KeysOf(ds[..k]) <==> exists j :: 0 <= j < k && ds[j].Key() == ds[k].Key();
    var c := EdgeChecks(byId, KeysOf(ds[..k]), ds[k], k);
    EdgeErrorsByCheck(byId, KeysOf(ds[..k]), ds[k], k);
    InFive(c[0], c[1], c[2], c[3], c[4], e);
  }

  /** Errors of one edge with ranks below r, and then one of rank r or none. */
  lemma ReportedOneMore(errors: seq<ValidationError>, more: seq<ValidationError>, k: nat, r: nat)
    requires Reported(errors) && forall e :: e in errors ==> e.edgeIndex == Some(k) && CodeRank(e.code) < r
    requires |more| <= 1 && forall e :: e in more ==> e.edgeIndex == Some(k) && CodeRank(e.code) == r
    ensures Reported(errors + more) && forall e :: e in errors + more ==> e.edgeIndex == Some(k) && CodeRank(e.code) < r + 1
  {
    hide CodeRank;
    var all := errors + more;
    forall i | 0 <= i < |all|
      ensures i < |errors| ==> all[i] == errors[i] && all[i] in errors
      ensures i >= |errors| ==> all[i] == more[i - |errors|] && all[i] in more
    {}
  }

  lemma OneEdgeReported(byId: map<SubtaskId, DependencySubtask>, seen: set<Text>, d: SubtaskDependency, k: nat)
    ensures Reported(EdgeErrors(byId, seen, d, k)) && forall e :: e in EdgeErrors(byId, seen, d, k) ==> e.edgeIndex == Some(k)
  {
    hide EdgeErrors, Reported;
    var c := EdgeChecks(byId, seen, d, k);
    EdgeErrorsByCheck(byId, seen, d, k);
    NothingReported();
    ReportedOneMore([], c[0], k, 0);
    assert [] + c[0] == c[0];
    ReportedOneMore(c[0], c[1], k, 1);
    ReportedOneMore(c[0] + c[1], c[2], k, 2);
    ReportedOneMore(c[0] + c[1] + c[2], c[3], k, 3);
    ReportedOneMore(c[0] + c[1] + c[2] + c[3], c[4], k, 4);
  }

  lemma NothingReported()
    ensures Reported([])
  {}

  lemma NamesDefectOfPrefix(byId: map<SubtaskId, DependencySubtask>, ds: seq<SubtaskDependency>, e: ValidationError)
    requires ds != []
    ensures NamesDefect(byId, ds[..|ds| - 1], e) <==> NamesDefect(byId, ds, e) && e.edgeIndex != Some(|ds| - 1)
  {
    var front := ds[..|ds| - 1];
    assert forall j :: 0 <= j < |front| ==> front[j] == ds[j];
  }

  /** The edge loop names every defect of every edge, once each, edge by edge. */
  lemma {:induction false} EdgeErrorsExact(byId: map<SubtaskId, DependencySubtask>, ds: seq<SubtaskDependency>)
    ensures Reported(AllEdgeErrors(byId, ds))
    ensures forall e :: e in AllEdgeErrors(byId, ds) <==> NamesDefect(byId, ds, e)
  {
    if ds != [] {
      hide EdgeErrors, NamesDefect, KeysOf, Reported;
      var k := |ds| - 1;
      EdgeErrorsExact(byId, ds[..k]);
      var before, last := AllEdgeErrors(byId, ds[..k]), EdgeErrors(byId, KeysOf(ds[..k]), ds[k], k);
      OneEdgeReported(byId, KeysOf(ds[..k]), ds[k], k);
      forall e ensures e in AllEdgeErrors(byId, ds) <==> NamesDefect(byId, ds, e) {
        ErrorsOfOneEdge(byId, ds, e);
        NamesDefectOfPrefix(byId, ds, e);
      }
      forall e | e in before ensures e.edgeIndex.Some? && e.edgeIndex.value < k {
        InPrefix(byId, ds[..k], e);
      }
      ReportedConcat(before, last, k);
    }
  }

  lemma ReportedConcat(before: seq<ValidationError>, last: seq<ValidationError>, k: nat)
    requires Reported(before) && Reported(last)
    requires forall e :: e in before ==> e.edgeIndex.Some? && e.edgeIndex.value < k
    requires forall e :: e in last ==> e.edgeIndex == Some(k)
    ensures Reported(before + last)
  {
    hide CodeRank;
    var all := before + last;
    forall i | 0 <= i < |all|
      ensures i < |before| ==> all[i] == before[i] && all[i] in before
      ensures i >= |before| ==> all[i] == last[i - |before|] && all[i] in last
    {}
  }

  lemma InPrefix(byId: map<SubtaskId, DependencySubtask>, ds: seq<SubtaskDependency>, e: ValidationError)
    requires NamesDefect(byId, ds, e)
    ensures e.edgeIndex.Some? && e.edgeIndex.value < |ds|
  {}

  /** Of Subtasks with the same id the last one counts. */
  lemma {:induction false} ByIdExact(subtasks: seq<DependencySubtask>, i: nat)
    requires i < |subtasks| && forall j :: i < j < |subtasks| ==> subtasks[j].id != subtasks[i].id
    ensures subtasks[i].id in ById(subtasks) && ById(subtasks)[subtasks[i].id] == subtasks[i]
  {
    if i < |subtasks| - 1 {
      ByIdExact(subtasks[..|subtasks| - 1], i);
      assert subtasks[|subtasks| - 1].id != subtasks[i].id;
    }
  }

  /** The whole error list: every defect of every edge, and last the nodes downstream of a cycle, if there are any. */
  lemma ErrorsExact(subtasks: seq<DependencySubtask>, ds: seq<SubtaskDependency>)
    ensures var errors := ValidationErrors(subtasks, ds);
      var edges := AllEdgeErrors(ById(subtasks), ds);
      var es := EdgesOf(CycleCheckEdges(ById(subtasks), ds));
      && Reported(edges) && (forall e :: e in edges <==> NamesDefect(ById(subtasks), ds, e))
      && (Acyclic(es) ==> errors == edges)
      && (!Acyclic(es) ==>
            && errors != [] && errors[..|errors| - 1] == edges && errors[|errors| - 1].code == DependencyCycle && errors[|errors| - 1].edgeIndex.None?
            && var members := errors[|errors| - 1].subtaskIds;
               Distinct(members) && Sorted(members, AtMost) &&
               forall n :: n in members <==> n in DistinctIds(subtasks) && FromCycle(es, n))
  {
    hide NamesDefect, EdgeErrors, FromCycle, Acyclic, CycleMembers;
    var byId := ById(subtasks);
    EdgeErrorsExact(byId, ds);
    var es := EdgesOf(CycleCheckEdges(byId, ds));
    forall e | e in es ensures e.up in DistinctIds(subtasks) && e.down in DistinctIds(subtasks) {
      var i :| 0 <= i < |es| && es[i] == e;
      assert CycleCheckEdges(byId, ds)[i] in CycleCheckEdges(byId, ds);
    }
    CycleMembersExact(subtasks, es);
  }
}
