/** packages/domain/src/dependencies.ts: what a dependency list must satisfy, and what its error list means. */
module DependencyValidation {
  import opened Options
  import opened CodeUnits
  import opened Sorting
  import opened BlockingGraph
  import opened Dependencies

  function KeysOf(ds: seq<SubtaskDependency>): (keys: set<Text>)
    ensures forall k :: k in keys <==> exists i :: 0 <= i < |ds| && ds[i].Key() == k
  {
    if ds == [] then {}
    else
      var front := ds[..|ds| - 1];
      assert forall i :: 0 <= i < |front| ==> front[i] == ds[i];
      assert forall i :: 0 <= i < |ds| - 1 ==> ds[i] == front[i];
      KeysOf(front) + {ds[|ds| - 1].Key()}
  }

  predicate SameBigTask(byId: map<SubtaskId, DependencySubtask>, d: SubtaskDependency) {
    && d.upstreamSubtaskId in byId && d.downstreamSubtaskId in byId
    && byId[d.upstreamSubtaskId].bigTaskId == byId[d.downstreamSubtaskId].bigTaskId
  }

  /** The errors of one edge, in report order; `seen` holds the keys of the earlier edges. */
  function EdgeErrors(
    byId: map<SubtaskId, DependencySubtask>, seen: set<Text>, d: SubtaskDependency, k: nat): seq<ValidationError>
  {
    var up, down := d.upstreamSubtaskId, d.downstreamSubtaskId;
    (if up == down then [ValidationError(SelfDependency, Some(k), [up])] else [])
    + (if d.Key() in seen then [ValidationError(DuplicateDependency, Some(k), [up, down])] else [])
    + (if up !in byId then [ValidationError(MissingUpstreamSubtask, Some(k), [up])] else [])
    + (if down !in byId then [ValidationError(MissingDownstreamSubtask, Some(k), [down])] else [])
    + (if up in byId && down in byId && byId[up].bigTaskId != byId[down].bigTaskId
       then [ValidationError(CrossBigTaskDependency, Some(k), [up, down])] else [])
  }

  function AllEdgeErrors(byId: map<SubtaskId, DependencySubtask>, ds: seq<SubtaskDependency>): seq<ValidationError> {
    if ds == [] then []
    else
      var front := ds[..|ds| - 1];
      AllEdgeErrors(byId, front) + EdgeErrors(byId, KeysOf(front), ds[|ds| - 1], |ds| - 1)
  }

  predicate EntersCycleCheck(byId: map<SubtaskId, DependencySubtask>, d: SubtaskDependency) {
    d.Blocking? && SameBigTask(byId, d) && d.upstreamSubtaskId != d.downstreamSubtaskId
  }

  /** The edges the cycle check sees. */
  function CycleCheckEdges(byId: map<SubtaskId, DependencySubtask>, ds: seq<SubtaskDependency>): (r: seq<SubtaskDependency>)
    ensures forall d :: d in r <==> d in ds && EntersCycleCheck(byId, d)
  {
    if ds == [] then []
    else
      var front, last := ds[..|ds| - 1], ds[|ds| - 1];
      assert ds == front + [last];
      CycleCheckEdges(byId, front) + (if EntersCycleCheck(byId, last) then [last] else [])
  }

  ghost function ValidationErrors(subtasks: seq<DependencySubtask>, ds: seq<SubtaskDependency>): seq<ValidationError> {
    var byId := ById(subtasks);
    var members := CycleMembers(subtasks, EdgesOf(CycleCheckEdges(byId, ds)));
    AllEdgeErrors(byId, ds)
    + (if members == [] then [] else [ValidationError(DependencyCycle, None, members)])
  }

  method CheckEdge(
    byId: map<SubtaskId, DependencySubtask>, seen: set<Text>, d: SubtaskDependency, k: nat,
    errorsIn: seq<ValidationError>)
    returns (errors: seq<ValidationError>)
    ensures errors == errorsIn + EdgeErrors(byId, seen, d, k)
  {
    errors := errorsIn;
    var up, down := d.upstreamSubtaskId, d.downstreamSubtaskId;
    if up == down {
      errors := errors + [ValidationError(SelfDependency, Some(k), [up])];
    }
    if d.Key() in seen {
      errors := errors + [ValidationError(DuplicateDependency, Some(k), [up, down])];
    }
    if up !in byId {
      errors := errors + [ValidationError(MissingUpstreamSubtask, Some(k), [up])];
    }
    if down !in byId {
      errors := errors + [ValidationError(MissingDownstreamSubtask, Some(k), [down])];
    }
    if up in byId && down in byId && byId[up].bigTaskId != byId[down].bigTaskId {
      errors := errors + [ValidationError(CrossBigTaskDependency, Some(k), [up, down])];
    }
  }

  method IndexById(subtasks: seq<DependencySubtask>) returns (subtasksById: map<SubtaskId, DependencySubtask>)
    ensures subtasksById == ById(subtasks)
  {
    subtasksById := map[];
    for i := 0 to |subtasks|
      invariant subtasksById == ById(subtasks[..i])
    {
      assert subtasks[..i + 1][..i] == subtasks[..i];
      subtasksById := subtasksById[subtasks[i].id := subtasks[i]];
    }
    assert subtasks[..|subtasks|] == subtasks;
  }

  method CheckEdges(byId: map<SubtaskId, DependencySubtask>, ds: seq<SubtaskDependency>)
    returns (errors: seq<ValidationError>, blockingGraphEdges: seq<SubtaskDependency>)
    ensures errors == AllEdgeErrors(byId, ds)
    ensures blockingGraphEdges == CycleCheckEdges(byId, ds)
  {
    hide EdgeErrors, SameBigTask;
    errors, blockingGraphEdges := [], [];
    var seenEdges: set<Text> := {};
    for k := 0 to |ds|
      invariant errors == AllEdgeErrors(byId, ds[..k])
      invariant seenEdges == KeysOf(ds[..k])
      invariant blockingGraphEdges == CycleCheckEdges(byId, ds[..k])
    {
      assert ds[..k + 1][..k] == ds[..k];
      errors := CheckEdge(byId, seenEdges, ds[k], k, errors);
      seenEdges := seenEdges + {ds[k].Key()};
      if EntersCycleCheck(byId, ds[k]) {
        blockingGraphEdges := blockingGraphEdges + [ds[k]];
      }
    }
    assert ds[..|ds|] == ds;
  }

  method ValidateSubtaskDependencies(subtasks: seq<DependencySubtask>, ds: seq<SubtaskDependency>)
    returns (errors: seq<ValidationError>)
    ensures errors == ValidationErrors(subtasks, ds)
  {
    var subtasksById := IndexById(subtasks);
    var blockingGraphEdges;
    errors, blockingGraphEdges := CheckEdges(subtasksById, ds);
    var cycleIds := FindCycleMembers(subtasks, blockingGraphEdges);
    if |cycleIds| > 0 {
      errors := errors + [ValidationError(DependencyCycle, None, cycleIds)];
    }
  }

  // ---------------------------------------------------------------- what an empty error list means

  function BlockingOnly(ds: seq<SubtaskDependency>): (r: seq<SubtaskDependency>)
    ensures forall d :: d in r <==> d in ds && d.Blocking?
  {
    if ds == [] then []
    else
      var front, last := ds[..|ds| - 1], ds[|ds| - 1];
      assert ds == front + [last];
      BlockingOnly(front) + (if last.Blocking? then [last] else [])
  }

  ghost function BlockingEdges(ds: seq<SubtaskDependency>): seq<Edge> { EdgesOf(BlockingOnly(ds)) }

  /** Known endpoints of one Big Task, no self edge. */
  ghost predicate SoundEndpoints(subtasks: seq<DependencySubtask>, ds: seq<SubtaskDependency>) {
    forall i :: 0 <= i < |ds| ==>
      SameBigTask(ById(subtasks), ds[i]) && ds[i].upstreamSubtaskId != ds[i].downstreamSubtaskId
  }

  ghost predicate DistinctKeys(ds: seq<SubtaskDependency>) {
    forall i, j :: 0 <= i < j < |ds| ==> ds[i].Key() != ds[j].Key()
  }

  ghost predicate ValidGraph(subtasks: seq<DependencySubtask>, ds: seq<SubtaskDependency>) {
    SoundEndpoints(subtasks, ds) && DistinctKeys(ds) && Acyclic(BlockingEdges(ds))
  }

  lemma DistinctKeysByEdge(ds: seq<SubtaskDependency>)
    ensures DistinctKeys(ds) <==> Distinct(ds) && forall x, y :: x in ds && y in ds && x != y ==> x.Key() != y.Key()
  {
    if Distinct(ds) && forall x, y :: x in ds && y in ds && x != y ==> x.Key() != y.Key() {
      assert forall i, j :: 0 <= i < j < |ds| ==> ds[i] in ds && ds[j] in ds && ds[i] != ds[j];
    }
  }

  lemma SameEdgesSameCycles(es: seq<Edge>, fs: seq<Edge>)
    requires Acyclic(es) && forall f :: f in fs ==> f in es
    ensures Acyclic(fs)
  {
    forall v | OnCycle(fs, v) ensures OnCycle(es, v) {
      var p :| WalkBetween(fs, p, v, v) && |p| >= 2;
      assert WalkBetween(es, p, v, v);
    }
  }

  /** The order of the dependencies does not matter. */
  lemma ValidGraphPermutes(subtasks: seq<DependencySubtask>, ds: seq<SubtaskDependency>, other: seq<SubtaskDependency>)
    requires multiset(ds) == multiset(other) && ValidGraph(subtasks, ds)
    ensures ValidGraph(subtasks, other)
  {
    hide SameBigTask, KeysOf, Acyclic, DistinctKeys;
    forall d ensures d in other <==> d in ds {
      InMultiset(ds, d);
      InMultiset(other, d);
    }
    assert forall i :: 0 <= i < |other| ==> other[i] in ds;
    DistinctKeysByEdge(ds);
    PermutationKeepsDistinct(ds, other);
    DistinctKeysByEdge(other);
    PermutedBlockingEdges(ds, other);
    SameEdgesSameCycles(BlockingEdges(ds), BlockingEdges(other));
  }

  lemma PermutedBlockingEdges(ds: seq<SubtaskDependency>, other: seq<SubtaskDependency>)
    requires forall d :: d in other ==> d in ds
    ensures forall e :: e in BlockingEdges(other) ==> e in BlockingEdges(ds)
  {
    forall e | e in BlockingEdges(other) ensures e in BlockingEdges(ds) {
      var i :| 0 <= i < |BlockingOnly(other)| && BlockingEdges(other)[i] == e;
      var d := BlockingOnly(other)[i];
      assert d in BlockingOnly(ds);
      var j :| 0 <= j < |BlockingOnly(ds)| && BlockingOnly(ds)[j] == d;
      assert BlockingEdges(ds)[j] == e;
    }
  }

  lemma NoErrorsOfEdge(byId: map<SubtaskId, DependencySubtask>, seen: set<Text>, d: SubtaskDependency, k: nat)
    ensures EdgeErrors(byId, seen, d, k) == [] <==>
      SameBigTask(byId, d) && d.upstreamSubtaskId != d.downstreamSubtaskId && d.Key() !in seen
  {
    var up, down := d.upstreamSubtaskId, d.downstreamSubtaskId;
    var e1 := if up == down then [ValidationError(SelfDependency, Some(k), [up])] else [];
    var e2 := if d.Key() in seen then [ValidationError(DuplicateDependency, Some(k), [up, down])] else [];
    assert |EdgeErrors(byId, seen, d, k)| >= |e1| + |e2|;
  }

  lemma SoundEndpointsSnoc(subtasks: seq<DependencySubtask>, front: seq<SubtaskDependency>, last: SubtaskDependency)
    ensures SoundEndpoints(subtasks, front + [last]) <==>
      SoundEndpoints(subtasks, front)
      && SameBigTask(ById(subtasks), last) && last.upstreamSubtaskId != last.downstreamSubtaskId
  {
    var ds := front + [last];
    assert forall i :: 0 <= i < |front| ==> ds[i] == front[i];
    assert ds[|front|] == last;
  }

  lemma DistinctKeysSnoc(front: seq<SubtaskDependency>, last: SubtaskDependency)
    ensures DistinctKeys(front + [last]) <==> DistinctKeys(front) && last.Key() !in KeysOf(front)
  {
    var ds := front + [last];
    assert forall i :: 0 <= i < |front| ==> ds[i] == front[i];
    assert ds[|front|] == last;
  }

  lemma NoDependencies(subtasks: seq<DependencySubtask>)
    ensures SoundEndpoints(subtasks, []) && DistinctKeys([])
  {}

  lemma {:induction false} NoEdgeErrors(subtasks: seq<DependencySubtask>, ds: seq<SubtaskDependency>)
    ensures AllEdgeErrors(ById(subtasks), ds) == [] <==> SoundEndpoints(subtasks, ds) && DistinctKeys(ds)
  {
    hide EdgeErrors, SoundEndpoints, DistinctKeys, KeysOf, SameBigTask;
    if ds == [] {
      assert SoundEndpoints(subtasks, ds) && DistinctKeys(ds) by { NoDependencies(subtasks); }
    } else {
      var front, last := ds[..|ds| - 1], ds[|ds| - 1];
      NoEdgeErrors(subtasks, front);
      NoErrorsOfEdge(ById(subtasks), KeysOf(front), last, |ds| - 1);
      SoundEndpointsSnoc(subtasks, front, last);
      DistinctKeysSnoc(front, last);
      assert ds == front + [last];
    }
  }

  lemma {:induction false} SoundEdgesAllEnter(subtasks: seq<DependencySubtask>, ds: seq<SubtaskDependency>)
    requires SoundEndpoints(subtasks, ds)
    ensures CycleCheckEdges(ById(subtasks), ds) == BlockingOnly(ds)
  {
    if ds != [] {
      SoundEdgesAllEnter(subtasks, ds[..|ds| - 1]);
    }
  }

  /** Cycle detection reports nothing exactly on acyclic graphs, and otherwise exactly the nodes downstream of a cycle. */
  lemma CycleMembersExact(subtasks: seq<DependencySubtask>, es: seq<Edge>)
    requires forall e :: e in es ==> e.up in DistinctIds(subtasks) && e.down in DistinctIds(subtasks)
    ensures CycleMembers(subtasks, es) == [] <==> Acyclic(es)
    ensures forall n :: n in CycleMembers(subtasks, es) <==> n in DistinctIds(subtasks) && FromCycle(es, n)
    ensures Distinct(CycleMembers(subtasks, es)) && Sorted(CycleMembers(subtasks, es), AtMost)
  {
    var ids := DistinctIds(subtasks);
    var raw := FromCycleOnly(ids, es);
    var members := CycleMembers(subtasks, es);
    AtMostTotal();
    SortSorted(raw, AtMost);
    forall n ensures n in members <==> n in raw {
      InMultiset(members, n);
      InMultiset(raw, n);
    }
    PermutationKeepsDistinct(raw, members);
    NonEmptyHasMember(members);
    forall v | OnCycle(es, v) ensures v in raw {
      CycleIsFromCycle(es, v);
      var u := FromCyclePredecessor(es, v);
      assert Edge(u, v).down == v;
    }
  }

  lemma PermutationKeepsDistinct<T(!new)>(a: seq<T>, b: seq<T>)
    requires Distinct(a) && multiset(a) == multiset(b)
    ensures Distinct(b)
  {
    forall i, j | 0 <= i < j < |b| ensures b[i] != b[j] {
      DistinctMultiplicity(a, b[i]);
      var rest := b[..j] + b[j + 1..];
      assert b == b[..j] + [b[j]] + b[j + 1..];
      assert rest[i] == b[i];
      assert multiset(b) == multiset(rest) + multiset{b[j]};
      assert b[i] in multiset(rest);
    }
  }

  /** The error list is empty exactly for valid graphs. */
  lemma ValidationExact(subtasks: seq<DependencySubtask>, ds: seq<SubtaskDependency>)
    ensures ValidationErrors(subtasks, ds) == [] <==> ValidGraph(subtasks, ds)
  {
    var byId := ById(subtasks);
    var es := EdgesOf(CycleCheckEdges(byId, ds));
    NoEdgeErrors(subtasks, ds);
    if SoundEndpoints(subtasks, ds) {
      SoundEdgesAllEnter(subtasks, ds);
      forall e | e in es ensures e.up in DistinctIds(subtasks) && e.down in DistinctIds(subtasks) {
        var i :| 0 <= i < |es| && es[i] == e;
        assert CycleCheckEdges(byId, ds)[i] in CycleCheckEdges(byId, ds);
      }
      CycleMembersExact(subtasks, es);
    }
  }
}
