/** packages/domain/src/dependencies.ts: dependency validation, cycle detection and readiness. */
module Dependencies {
  import opened Options
  import opened CodeUnits
  import opened Sorting
  import opened BlockingGraph

  type SubtaskId = Text
  type BigTaskId = Text

  datatype SubtaskMaturity = NotStarted | Implemented | MaturityHardened | MaturityAccepted

  datatype RequiredGate = NoGate | Verified | Hardened | Accepted
  type BlockingGate = g: RequiredGate | g != NoGate witness Verified

  datatype SubtaskDependency =
    | Blocking(upstreamSubtaskId: SubtaskId, downstreamSubtaskId: SubtaskId, gate: BlockingGate, reason: Text)
    | Informational(upstreamSubtaskId: SubtaskId, downstreamSubtaskId: SubtaskId, reason: Text)
  {
    function RequiredGate(): RequiredGate { if Blocking? then gate else NoGate }
    function Edge(): Edge { BlockingGraph.Edge(upstreamSubtaskId, downstreamSubtaskId) }
    function Key(): Text { upstreamSubtaskId + Arrow() + downstreamSubtaskId }
  }

  function Arrow(): (arrow: Text) ensures |arrow| == 2 { [0x2D, 0x3E] }

  datatype DependencySubtask = DependencySubtask(id: SubtaskId, bigTaskId: BigTaskId)

  datatype ErrorCode =
    | SelfDependency | DuplicateDependency | MissingUpstreamSubtask | MissingDownstreamSubtask
    | CrossBigTaskDependency | DependencyCycle

  datatype ValidationError =
    ValidationError(code: ErrorCode, edgeIndex: Option<nat>, subtaskIds: seq<SubtaskId>)

  // ---------------------------------------------------------------- ids and edges

  /** The key order of a Map filled with the ids: first occurrences. */
  function DistinctIds(subtasks: seq<DependencySubtask>): (ids: seq<SubtaskId>)
    ensures Distinct(ids)
    ensures forall n :: n in ids <==> exists i :: 0 <= i < |subtasks| && subtasks[i].id == n
  {
    if subtasks == [] then []
    else
      var front := subtasks[..|subtasks| - 1];
      var last := subtasks[|subtasks| - 1];
      var ids := DistinctIds(front);
      assert forall i :: 0 <= i < |front| ==> front[i] == subtasks[i];
      assert forall i :: 0 <= i < |subtasks| - 1 ==> subtasks[i] == front[i];
      if last.id in ids then ids else ids + [last.id]
  }

  /** Map from id to Subtask; a later Subtask with the same id wins. */
  function ById(subtasks: seq<DependencySubtask>): (m: map<SubtaskId, DependencySubtask>)
    ensures forall n :: n in m <==> n in DistinctIds(subtasks)
  {
    if subtasks == [] then map[]
    else
      var last := subtasks[|subtasks| - 1];
      ById(subtasks[..|subtasks| - 1])[last.id := last]
  }

  function EdgesOf(dependencies: seq<SubtaskDependency>): (es: seq<Edge>)
    ensures |es| == |dependencies|
    ensures forall i :: 0 <= i < |es| ==> es[i] == dependencies[i].Edge()
  {
    seq(|dependencies|, i requires 0 <= i < |dependencies| => dependencies[i].Edge())
  }

  lemma EdgesOfPrefix(dependencies: seq<SubtaskDependency>, k: nat)
    requires k < |dependencies|
    ensures EdgesOf(dependencies[..k]) == EdgesOf(dependencies)[..k]
    ensures EdgesOf(dependencies)[..k + 1] == EdgesOf(dependencies)[..k] + [dependencies[k].Edge()]
    ensures EdgesOf(dependencies)[..k + 1][..k] == EdgesOf(dependencies)[..k]
  {}

  // ---------------------------------------------------------------- Kahn's algorithm

  ghost function FromCycleOnly(ids: seq<SubtaskId>, es: seq<Edge>): (r: seq<SubtaskId>)
    ensures forall n :: n in r <==> n in ids && FromCycle(es, n)
    ensures Distinct(ids) ==> Distinct(r)
  {
    hide FromCycle;
    if ids == [] then []
    else
      var last := ids[|ids| - 1];
      FromCycleOnly(ids[..|ids| - 1], es) + (if FromCycle(es, last) then [last] else [])
  }

  /** What cycle detection must report: the nodes reachable from some cycle, sorted. */
  ghost function CycleMembers(subtasks: seq<DependencySubtask>, es: seq<Edge>): seq<SubtaskId> {
    Sort(FromCycleOnly(DistinctIds(subtasks), es), AtMost)
  }

  function IdsOfDegree(ids: seq<SubtaskId>, indegree: map<SubtaskId, int>, positive: bool): (r: seq<SubtaskId>)
    requires forall n :: n in ids ==> n in indegree
    ensures forall n :: n in r <==> n in ids && (if positive then indegree[n] > 0 else indegree[n] == 0)
    ensures Distinct(ids) ==> Distinct(r)
  {
    if ids == [] then []
    else
      var last := ids[|ids| - 1];
      var front := IdsOfDegree(ids[..|ids| - 1], indegree, positive);
      if (if positive then indegree[last] > 0 else indegree[last] == 0) then front + [last] else front
  }

  /**
   * Kahn's invariant. `pending` holds the targets of the node being visited whose degrees are not lowered yet.
   */
  ghost predicate Progress(
    ids: set<SubtaskId>, es: seq<Edge>, visited: set<SubtaskId>,
    indegree: map<SubtaskId, int>, ready: seq<SubtaskId>, pending: multiset<SubtaskId>)
  {
    && visited <= ids
    && indegree.Keys == ids
    && (forall n :: n in ids ==> indegree[n] == InDegree(es, visited, n) + pending[n])
    && (forall n :: n in multiset(ready) ==> n in ids && n !in visited && multiset(ready)[n] == 1)
    && (forall n :: n in ids && n !in visited ==> (n in multiset(ready) <==> indegree[n] == 0))
    && (forall n :: n in visited ==> indegree[n] == 0 && !FromCycle(es, n))
  }

  /** Taking a ready node: it has no unvisited predecessor, so it is not downstream of a cycle. */
  lemma VisitReady(
    ids: set<SubtaskId>, es: seq<Edge>, visited: set<SubtaskId>,
    indegree: map<SubtaskId, int>, ready: seq<SubtaskId>)
    requires Progress(ids, es, visited, indegree, ready, multiset{}) && ready != []
    ensures ready[0] in ids && ready[0] !in visited
    ensures Progress(ids, es, visited + {ready[0]}, indegree, ready[1..], multiset(Outgoing(es, ready[0])))
  {
    var u := ready[0];
    assert u in multiset(ready);
    assert indegree[u] == 0;
    forall n | n in ids
      ensures indegree[n] == InDegree(es, visited + {u}, n) + multiset(Outgoing(es, u))[n]
    {
      VisitLowersDegrees(es, visited, u, n);
    }
    InDegreeZero(es, visited, u);
    if FromCycle(es, u) {
      var w := FromCyclePredecessor(es, u);
      assert false;
    }
    TailMultiset(ready);
  }

  /** Lowering one pending target, which becomes ready exactly when its degree reaches zero. */
  lemma LowerOne(
    ids: set<SubtaskId>, es: seq<Edge>, visited: set<SubtaskId>, indegree: map<SubtaskId, int>,
    ready: seq<SubtaskId>, pending: multiset<SubtaskId>, next: SubtaskId, ready': seq<SubtaskId>)
    requires Progress(ids, es, visited, indegree, ready, pending) && next in pending && next in ids
    requires multiset(ready') == if indegree[next] == 1 then multiset(ready) + multiset{next} else multiset(ready)
    ensures Progress(ids, es, visited, indegree[next := indegree[next] - 1], ready', pending - multiset{next})
  {
    assert indegree[next] >= 1;
    assert next !in visited && next !in multiset(ready);
  }

  /** At the fixpoint the unvisited nodes are exactly those downstream of a cycle. */
  lemma UnvisitedAreFromCycle(
    ids: set<SubtaskId>, es: seq<Edge>, visited: set<SubtaskId>, indegree: map<SubtaskId, int>)
    requires Progress(ids, es, visited, indegree, [], multiset{})
    requires forall e :: e in es ==> e.up in ids
    ensures forall n :: n in ids ==> (n !in visited <==> FromCycle(es, n))
    ensures forall n :: n in ids ==> (n !in visited <==> indegree[n] > 0)
  {
    var rest := ids - visited;
    forall n | n in rest ensures PredecessorIn(es, rest, n) {
      assert indegree[n] != 0;
      InDegreeZero(es, visited, n);
      var e :| e in es && e.down == n && e.up !in visited;
      assert Edge(e.up, n) == e && e.up in rest;
    }
    forall n | n in rest ensures FromCycle(es, n) {
      SourceFreeIsFromCycle(es, rest, n);
    }
  }

  lemma SameMembersSameSort(a: seq<SubtaskId>, b: seq<SubtaskId>)
    requires Distinct(a) && Distinct(b) && forall n :: n in a <==> n in b
    ensures Sort(a, AtMost) == Sort(b, AtMost)
  {
    AtMostTotal();
    forall n ensures multiset(a)[n] == multiset(b)[n] {
      DistinctMultiplicity(a, n);
      DistinctMultiplicity(b, n);
    }
    SortCanonical(a, b, AtMost);
  }

  lemma {:induction false} DistinctMultiplicity<T>(s: seq<T>, x: T)
    requires Distinct(s)
    ensures multiset(s)[x] == if x in s then 1 else 0
  {
    if s != [] {
      DistinctMultiplicity(s[..|s| - 1], x);
      assert s == s[..|s| - 1] + [s[|s| - 1]];
    }
  }

  lemma {:induction false} DistinctCount<T>(s: seq<T>, members: set<T>)
    requires Distinct(s) && forall x :: x in members <==> x in s
    ensures |s| == |members|
  {
    if s == [] {
      assert members == {};
    } else {
      DistinctCount(s[1..], members - {s[0]});
    }
  }

  lemma AtMostTotal()
    ensures TotalOrder(AtMost)
  {
    forall x, y ensures AtMost(x, y) || AtMost(y, x) { BelowTrichotomy(x, y); }
    forall x, y | AtMost(x, y) && AtMost(y, x) ensures x == y { BelowTrichotomy(x, y); }
    forall x, y, z | AtMost(x, y) && AtMost(y, z) ensures AtMost(x, z) { AtMostTransitive(x, y, z); }
  }

  lemma OneMoreId(subtasks: seq<DependencySubtask>, i: nat)
    requires i < |subtasks|
    ensures var ids := DistinctIds(subtasks[..i]);
      DistinctIds(subtasks[..i + 1]) == if subtasks[i].id in ids then ids else ids + [subtasks[i].id]
  {
    assert subtasks[..i + 1][..i] == subtasks[..i];
  }

  ghost predicate Zeroed(keys: seq<SubtaskId>, indegree: map<SubtaskId, int>, outgoing: map<SubtaskId, seq<SubtaskId>>) {
    && indegree.Keys == outgoing.Keys == (set n | n in keys)
    && forall n :: n in keys ==> indegree[n] == 0 && outgoing[n] == []
  }

  lemma ZeroOne(keys: seq<SubtaskId>, id: SubtaskId, indegree: map<SubtaskId, int>, outgoing: map<SubtaskId, seq<SubtaskId>>)
    requires Zeroed(keys, indegree, outgoing)
    ensures id in indegree <==> id in keys
    ensures Zeroed(if id in keys then keys else keys + [id], indegree[id := 0], outgoing[id := []])
  {}

  /** Every id starts with in-degree zero and no targets. */
  method RegisterIds(subtasks: seq<DependencySubtask>)
    returns (keys: seq<SubtaskId>, indegree: map<SubtaskId, int>, outgoing: map<SubtaskId, seq<SubtaskId>>)
    ensures keys == DistinctIds(subtasks)
    ensures Zeroed(keys, indegree, outgoing)
  {
    keys, indegree, outgoing := [], map[], map[];
    for i := 0 to |subtasks|
      invariant keys == DistinctIds(subtasks[..i])
      invariant Zeroed(keys, indegree, outgoing)
    {
      OneMoreId(subtasks, i);
      var id := subtasks[i].id;
      ZeroOne(keys, id, indegree, outgoing);
      hide DistinctIds, Zeroed;
      keys := if id in indegree then keys else keys + [id];
      indegree := indegree[id := 0];
      outgoing := outgoing[id := []];
    }
    assert subtasks[..|subtasks|] == subtasks;
  }

  ghost predicate Tallies(
    keys: seq<SubtaskId>, es: seq<Edge>, indegree: map<SubtaskId, int>, outgoing: map<SubtaskId, seq<SubtaskId>>)
  {
    && indegree.Keys == outgoing.Keys == (set n | n in keys)
    && (forall n :: n in keys ==> indegree[n] == InDegree(es, {}, n) && outgoing[n] == Outgoing(es, n))
  }

  lemma ZeroTallies(keys: seq<SubtaskId>, indegree: map<SubtaskId, int>, outgoing: map<SubtaskId, seq<SubtaskId>>)
    requires Zeroed(keys, indegree, outgoing)
    ensures Tallies(keys, [], indegree, outgoing)
  {}

  lemma TallyOne(
    keys: seq<SubtaskId>, es: seq<Edge>, e: Edge,
    indegree: map<SubtaskId, int>, outgoing: map<SubtaskId, seq<SubtaskId>>)
    requires Tallies(keys, es, indegree, outgoing) && e.up in keys && e.down in keys
    ensures e.down in indegree && e.up in outgoing
    ensures Tallies(keys, es + [e], indegree[e.down := indegree[e.down] + 1],
                    outgoing[e.up := outgoing[e.up] + [e.down]])
  {
    assert (es + [e])[..|es|] == es;
  }

  /** The in-degree and adjacency maps of the whole graph, filled edge by edge. */
  method CountDegrees(subtasks: seq<DependencySubtask>, dependencies: seq<SubtaskDependency>)
    returns (keys: seq<SubtaskId>, indegree: map<SubtaskId, int>, outgoing: map<SubtaskId, seq<SubtaskId>>)
    requires forall d :: d in dependencies ==>
      d.upstreamSubtaskId in DistinctIds(subtasks) && d.downstreamSubtaskId in DistinctIds(subtasks)
    ensures keys == DistinctIds(subtasks)
    ensures Tallies(keys, EdgesOf(dependencies), indegree, outgoing)
  {
    keys, indegree, outgoing := RegisterIds(subtasks);
    ZeroTallies(keys, indegree, outgoing);
    ghost var es := EdgesOf(dependencies);
    assert es[..0] == [];
    hide Tallies, Zeroed, DistinctIds, EdgesOf;
    for k := 0 to |dependencies|
      invariant Tallies(keys, es[..k], indegree, outgoing)
    {
      EdgesOfPrefix(dependencies, k);
      var d := dependencies[k];
      assert d in dependencies && d.Edge().down in keys && d.Edge().up in keys;
      TallyOne(keys, es[..k], d.Edge(), indegree, outgoing);
      outgoing := outgoing[d.upstreamSubtaskId := outgoing[d.upstreamSubtaskId] + [d.downstreamSubtaskId]];
      indegree := indegree[d.downstreamSubtaskId := indegree[d.downstreamSubtaskId] + 1];
    }
    assert es[..|dependencies|] == es;
  }

  /** Lowers the degree of every target of the visited node and queues those that reach zero. */
  method LowerTargets(
    nextIds: seq<SubtaskId>, indegreeIn: map<SubtaskId, int>, readyIn: seq<SubtaskId>,
    ghost ids: set<SubtaskId>, ghost es: seq<Edge>, ghost visited: set<SubtaskId>)
    returns (indegree: map<SubtaskId, int>, ready: seq<SubtaskId>)
    requires Progress(ids, es, visited, indegreeIn, readyIn, multiset(nextIds))
    requires forall n :: n in nextIds ==> n in ids
    ensures Progress(ids, es, visited, indegree, ready, multiset{}) && indegree.Keys == ids
  {
    indegree, ready := indegreeIn, readyIn;
    assert nextIds[0..] == nextIds;
    for k := 0 to |nextIds|
      invariant Progress(ids, es, visited, indegree, ready, multiset(nextIds[k..]))
    {
      var nextId := nextIds[k];
      assert nextIds[k..][0] == nextId;
      TailMultiset(nextIds[k..]);
      assert nextIds[k..][1..] == nextIds[k + 1..];
      var nextDegree := indegree[nextId] - 1;
      var ready' := if nextDegree == 0 then Sort(ready + [nextId], AtMost) else ready;
      LowerOne(ids, es, visited, indegree, ready, multiset(nextIds[k..]), nextId, ready');
      indegree, ready := indegree[nextId := nextDegree], ready';
    }
  }

  lemma StartingProgress(
    keys: seq<SubtaskId>, es: seq<Edge>, indegree: map<SubtaskId, int>, outgoing: map<SubtaskId, seq<SubtaskId>>)
    requires Distinct(keys) && Tallies(keys, es, indegree, outgoing)
    ensures Progress(indegree.Keys, es, {}, indegree, Sort(IdsOfDegree(keys, indegree, false), AtMost), multiset{})
  {
    var ready := IdsOfDegree(keys, indegree, false);
    forall n ensures multiset(ready)[n] == if n in keys && indegree[n] == 0 then 1 else 0 {
      DistinctMultiplicity(ready, n);
    }
  }

  lemma NextVisit(
    ids: set<SubtaskId>, es: seq<Edge>, visited: set<SubtaskId>, indegree: map<SubtaskId, int>, ready: seq<SubtaskId>)
    requires Progress(ids, es, visited, indegree, ready, multiset{}) && ready != []
    requires forall e :: e in es ==> e.up in ids && e.down in ids
    ensures ready[0] in ids && |visited| + 1 == |visited + {ready[0]}| <= |ids|
    ensures forall n :: n in Outgoing(es, ready[0]) ==> n in ids
    ensures Progress(ids, es, visited + {ready[0]}, indegree, ready[1..], multiset(Outgoing(es, ready[0])))
  {
    VisitReady(ids, es, visited, indegree, ready);
    OutgoingAreTargets(es, ready[0]);
    SubsetBound(visited, ids, ready[0]);
  }

  method FindCycleMembers(subtasks: seq<DependencySubtask>, dependencies: seq<SubtaskDependency>)
    returns (members: seq<SubtaskId>)
    requires forall d :: d in dependencies ==>
      d.upstreamSubtaskId in DistinctIds(subtasks) && d.downstreamSubtaskId in DistinctIds(subtasks)
    ensures members == CycleMembers(subtasks, EdgesOf(dependencies))
  {
    hide Progress, CycleMembers, Sort, Outgoing, InDegree, FromCycleOnly;
    var keys, indegree, outgoing := CountDegrees(subtasks, dependencies);
    ghost var es := EdgesOf(dependencies);
    ghost var ids := indegree.Keys;
    assert forall e :: e in es ==> e.up in ids && e.down in ids;
    assert forall n :: n in ids ==> n in outgoing && outgoing[n] == Outgoing(es, n);
    var ready := Sort(IdsOfDegree(keys, indegree, false), AtMost);
    var visitedCount := 0;
    ghost var visited: set<SubtaskId> := {};
    StartingProgress(keys, es, indegree, outgoing);
    while ready != []
      invariant Progress(ids, es, visited, indegree, ready, multiset{}) && indegree.Keys == ids
      invariant visitedCount == |visited|
      decreases |ids| - |visited|
    {
      var current := ready[0];
      NextVisit(ids, es, visited, indegree, ready);
      visited := visited + {current};
      visitedCount := visitedCount + 1;
      indegree, ready := LowerTargets(outgoing[current], indegree, ready[1..], ids, es, visited);
    }
    members := Unvisited(keys, indegree, visitedCount, subtasks, es, visited);
  }

  /** The report once no node is ready: nothing when every node was visited, else the nodes left with a positive degree. */
  method Unvisited(
    keys: seq<SubtaskId>, indegree: map<SubtaskId, int>, visitedCount: nat,
    ghost subtasks: seq<DependencySubtask>, ghost es: seq<Edge>, ghost visited: set<SubtaskId>)
    returns (members: seq<SubtaskId>)
    requires keys == DistinctIds(subtasks) && visitedCount == |visited|
    requires indegree.Keys == set n | n in keys
    requires Progress(indegree.Keys, es, visited, indegree, [], multiset{})
    requires forall e :: e in es ==> e.up in indegree.Keys
    ensures members == CycleMembers(subtasks, es)
  {
    UnvisitedAreFromCycle(indegree.Keys, es, visited, indegree);
    DistinctCount(keys, indegree.Keys);
    if visitedCount == |keys| {
      SubsetOfFullSize(visited, indegree.Keys);
      assert forall n :: n !in FromCycleOnly(keys, es);
      NonEmptyHasMember(FromCycleOnly(keys, es));
      return [];
    }
    members := Sort(IdsOfDegree(keys, indegree, true), AtMost);
    SameMembersSameSort(IdsOfDegree(keys, indegree, true), FromCycleOnly(keys, es));
  }

  lemma NonEmptyHasMember<T(!new)>(s: seq<T>)
    ensures s != [] ==> exists x :: x in s
  {
    if s != [] { assert s[0] in s; }
  }

  lemma SubsetBound<T>(a: set<T>, b: set<T>, x: T)
    requires a <= b && x in b && x !in a
    ensures |a + {x}| == |a| + 1 <= |b|
  {
    var rest := b - (a + {x});
    assert b == (a + {x}) + rest;
    assert |b| == |a + {x}| + |rest|;
  }

  lemma SubsetOfFullSize<T>(a: set<T>, b: set<T>)
    requires a <= b && |a| == |b|
    ensures a == b
  {
    assert b == a + (b - a);
    assert |b| == |a| + |b - a|;
  }
}
