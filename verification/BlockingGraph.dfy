/** Directed multigraphs over Subtask ids: walks, cycles, and the in-degree counts Kahn's algorithm maintains. */
module BlockingGraph {
  import opened CodeUnits

  datatype Edge = Edge(up: Text, down: Text)

  ghost predicate Walk(es: seq<Edge>, p: seq<Text>) {
    |p| >= 1 && forall i :: 0 <= i < |p| - 1 ==> Edge(p[i], p[i + 1]) in es
  }

  ghost predicate WalkBetween(es: seq<Edge>, p: seq<Text>, from: Text, to: Text) {
    Walk(es, p) && p[0] == from && p[|p| - 1] == to
  }

  ghost predicate OnCycle(es: seq<Edge>, v: Text) {
    exists p :: WalkBetween(es, p, v, v) && |p| >= 2
  }

  /** v lies on a cycle or downstream of one. */
  ghost predicate FromCycle(es: seq<Edge>, v: Text) {
    exists p :: Walk(es, p) && OnCycle(es, p[0]) && p[|p| - 1] == v
  }

  ghost predicate Acyclic(es: seq<Edge>) {
    forall v :: !OnCycle(es, v)
  }

  lemma CycleIsFromCycle(es: seq<Edge>, v: Text)
    requires OnCycle(es, v)
    ensures FromCycle(es, v)
  {
    var p := [v];
    assert Walk(es, p) && p[0] == v && p[|p| - 1] == v;
  }

  /** Being downstream of a cycle is inherited from some predecessor. */
  lemma FromCyclePredecessor(es: seq<Edge>, v: Text) returns (u: Text)
    requires FromCycle(es, v)
    ensures Edge(u, v) in es && FromCycle(es, u)
  {
    var p :| Walk(es, p) && OnCycle(es, p[0]) && p[|p| - 1] == v;
    if |p| >= 2 {
      u := p[|p| - 2];
      var q := p[..|p| - 1];
      assert Walk(es, q) && OnCycle(es, q[0]) && q[|q| - 1] == u;
    } else {
      var c :| WalkBetween(es, c, v, v) && |c| >= 2;
      u := c[|c| - 2];
      var q := c[..|c| - 1];
      assert Walk(es, q) && OnCycle(es, q[0]) && q[|q| - 1] == u;
    }
  }

  ghost predicate Distinct<T>(s: seq<T>) {
    forall i, j :: 0 <= i < j < |s| ==> s[i] != s[j]
  }

  lemma {:induction false} DistinctWithin<T>(p: seq<T>, s: set<T>)
    requires Distinct(p) && forall i :: 0 <= i < |p| ==> p[i] in s
    ensures |p| <= |s|
  {
    if p != [] {
      DistinctWithin(p[1..], s - {p[0]});
    }
  }

  lemma PrependToWalk(es: seq<Edge>, u: Text, p: seq<Text>)
    requires Walk(es, p) && Edge(u, p[0]) in es
    ensures Walk(es, [u] + p)
  {
    var q := [u] + p;
    forall i | 0 <= i < |q| - 1 ensures Edge(q[i], q[i + 1]) in es {
      if i > 0 { assert q[i] == p[i - 1] && q[i + 1] == p[i]; }
    }
  }

  /** Reaching back to a node of the walk closes a cycle that the walk leaves. */
  lemma CloseCycle(es: seq<Edge>, u: Text, p: seq<Text>)
    requires Walk(es, p) && Edge(u, p[0]) in es && u in p
    ensures FromCycle(es, p[|p| - 1])
  {
    PrependToWalk(es, u, p);
    var q := [u] + p;
    var k :| 0 <= k < |p| && p[k] == u;
    var c := q[..k + 2];
    assert c[0] == u && c[|c| - 1] == q[k + 1] == p[k];
    assert Walk(es, c);
    assert WalkBetween(es, c, u, u) && |c| >= 2;
    assert q[0] == u && q[|q| - 1] == p[|p| - 1];
  }

  ghost predicate PredecessorIn(es: seq<Edge>, s: set<Text>, n: Text) {
    exists u :: u in s && Edge(u, n) in es
  }

  /** Every node of the finite set s has a predecessor in s. */
  ghost predicate SourceFree(es: seq<Edge>, s: set<Text>) {
    forall n {:trigger PredecessorIn(es, s, n)} :: n in s ==> PredecessorIn(es, s, n)
  }

  /** Walking backwards inside a finite source-free set must close a cycle. */
  lemma {:induction false} BackwardWalkClosesCycle(es: seq<Edge>, s: set<Text>, p: seq<Text>)
    requires SourceFree(es, s)
    requires Walk(es, p) && Distinct(p) && forall i :: 0 <= i < |p| ==> p[i] in s
    ensures FromCycle(es, p[|p| - 1])
    decreases |s| - |p|
  {
    assert PredecessorIn(es, s, p[0]);
    var u :| u in s && Edge(u, p[0]) in es;
    if u in p {
      CloseCycle(es, u, p);
    } else {
      var q := [u] + p;
      PrependToWalk(es, u, p);
      assert Distinct(q);
      DistinctWithin(q, s);
      BackwardWalkClosesCycle(es, s, q);
      assert q[|q| - 1] == p[|p| - 1];
    }
  }

  lemma SourceFreeIsFromCycle(es: seq<Edge>, s: set<Text>, n: Text)
    requires SourceFree(es, s) && n in s
    ensures FromCycle(es, n)
  {
    var p := [n];
    assert Walk(es, p) && Distinct(p);
    BackwardWalkClosesCycle(es, s, p);
  }

  lemma FromCycleNeedsCycle(es: seq<Edge>, n: Text)
    requires Acyclic(es)
    ensures !FromCycle(es, n)
  {}

  /** The number of edges into n whose source has not been visited. */
  function InDegree(es: seq<Edge>, visited: set<Text>, n: Text): nat {
    if es == [] then 0
    else
      var e := es[|es| - 1];
      InDegree(es[..|es| - 1], visited, n) + (if e.down == n && e.up !in visited then 1 else 0)
  }

  /** The targets of u, in edge order and with multiplicity. */
  function Outgoing(es: seq<Edge>, u: Text): seq<Text> {
    if es == [] then []
    else
      var e := es[|es| - 1];
      Outgoing(es[..|es| - 1], u) + (if e.up == u then [e.down] else [])
  }

  lemma {:induction false} VisitLowersDegrees(es: seq<Edge>, visited: set<Text>, u: Text, n: Text)
    requires u !in visited
    ensures InDegree(es, visited, n) == InDegree(es, visited + {u}, n) + multiset(Outgoing(es, u))[n]
  {
    if es != [] {
      VisitLowersDegrees(es[..|es| - 1], visited, u, n);
    }
  }

  lemma {:induction false} InDegreeZero(es: seq<Edge>, visited: set<Text>, n: Text)
    ensures InDegree(es, visited, n) == 0 <==> (forall e :: e in es && e.down == n ==> e.up in visited)
  {
    if es != [] {
      InDegreeZero(es[..|es| - 1], visited, n);
      assert es == es[..|es| - 1] + [es[|es| - 1]];
    }
  }

  lemma {:induction false} OutgoingAreTargets(es: seq<Edge>, u: Text)
    ensures forall n :: n in Outgoing(es, u) ==> Edge(u, n) in es
  {
    if es != [] {
      OutgoingAreTargets(es[..|es| - 1], u);
      assert es == es[..|es| - 1] + [es[|es| - 1]];
    }
  }
}
