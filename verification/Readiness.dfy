/** packages/domain/src/dependencies.ts: gate readiness of one downstream Subtask. */
module Readiness {
  import opened Options
  import opened CodeUnits
  import opened Sorting
  import opened BlockingGraph
  import opened Dependencies
  import opened DependencyValidation
  import Graph

  /** An absent verificationComplete counts as false. */
  datatype ReadinessSubtask = ReadinessSubtask(
    id: SubtaskId, bigTaskId: BigTaskId, maturity: SubtaskMaturity, verificationComplete: bool)

  datatype Blocker = Blocker(
    upstreamSubtaskId: SubtaskId, requiredGate: RequiredGate, actualMaturity: SubtaskMaturity, reason: Text)

  datatype ReadinessResult = ReadinessResult(
    valid: bool, ready: bool, blockers: seq<Blocker>, errors: seq<ValidationError>)

  function SatisfiesRequiredGate(maturity: SubtaskMaturity, gate: RequiredGate, verificationComplete: bool): bool {
    match gate
    case NoGate => true
    case Verified => verificationComplete
    case Hardened => maturity == MaturityHardened || maturity == MaturityAccepted
    case Accepted => maturity == MaturityAccepted
  }

  /** How far a Subtask has come. */
  function Rank(maturity: SubtaskMaturity): nat {
    match maturity
    case NotStarted => 0
    case Implemented => 1
    case MaturityHardened => 2
    case MaturityAccepted => 3
  }

  /** How far an upstream must have come for a gate that asks for a maturity. */
  function RankAsked(gate: RequiredGate): nat { if gate == Hardened then 2 else if gate == Accepted then 3 else 0 }

  /** A VERIFIED gate asks for verification, whatever the maturity; the others ask for a maturity, verified or not. */
  ghost predicate GateMet(gate: RequiredGate, maturity: SubtaskMaturity, verificationComplete: bool) {
    if gate == Verified then verificationComplete else Rank(maturity) >= RankAsked(gate)
  }

  lemma GateExact(maturity: SubtaskMaturity, gate: RequiredGate, verificationComplete: bool)
    ensures SatisfiesRequiredGate(maturity, gate, verificationComplete) <==> GateMet(gate, maturity, verificationComplete)
  {}

  function Plain(ss: seq<ReadinessSubtask>): (r: seq<DependencySubtask>)
    ensures |r| == |ss| && forall i :: 0 <= i < |ss| ==> r[i] == DependencySubtask(ss[i].id, ss[i].bigTaskId)
  {
    seq(|ss|, i requires 0 <= i < |ss| => DependencySubtask(ss[i].id, ss[i].bigTaskId))
  }

  ghost predicate DistinctSubtasks(ss: seq<ReadinessSubtask>) {
    forall i, j :: 0 <= i < j < |ss| ==> ss[i].id != ss[j].id
  }

  function IndexOf(ss: seq<ReadinessSubtask>): (m: map<SubtaskId, ReadinessSubtask>)
    ensures forall n :: n in m <==> exists i :: 0 <= i < |ss| && ss[i].id == n
  {
    if ss == [] then map[]
    else
      var front := ss[..|ss| - 1];
      assert forall i :: 0 <= i < |front| ==> front[i] == ss[i];
      assert forall i :: 0 <= i < |ss| - 1 ==> ss[i] == front[i];
      IndexOf(front)[ss[|ss| - 1].id := ss[|ss| - 1]]
  }

  lemma {:induction false} IndexOfDistinct(ss: seq<ReadinessSubtask>, i: nat)
    requires DistinctSubtasks(ss) && i < |ss|
    ensures ss[i].id in IndexOf(ss) && IndexOf(ss)[ss[i].id] == ss[i]
  {
    if i < |ss| - 1 {
      assert DistinctSubtasks(ss[..|ss| - 1]);
      IndexOfDistinct(ss[..|ss| - 1], i);
      assert ss[i].id != ss[|ss| - 1].id;
    }
  }

  /** A blocking edge on `down` whose known upstream misses its gate. */
  predicate Unmet(byId: map<SubtaskId, ReadinessSubtask>, d: SubtaskDependency, down: SubtaskId) {
    && d.Blocking? && d.downstreamSubtaskId == down && d.upstreamSubtaskId in byId
    && var up := byId[d.upstreamSubtaskId];
       !SatisfiesRequiredGate(up.maturity, d.gate, up.verificationComplete)
  }

  function Blockers(byId: map<SubtaskId, ReadinessSubtask>, ds: seq<SubtaskDependency>, down: SubtaskId): (r: seq<Blocker>)
    ensures r == [] <==> forall d :: d in ds ==> !Unmet(byId, d, down)
  {
    if ds == [] then []
    else
      var front, d := ds[..|ds| - 1], ds[|ds| - 1];
      assert ds == front + [d];
      Blockers(byId, front, down)
      + (if Unmet(byId, d, down)
         then [Blocker(d.upstreamSubtaskId, d.gate, byId[d.upstreamSubtaskId].maturity, d.reason)] else [])
  }

  predicate BlockerAtMost(a: Blocker, b: Blocker) {
    FirstDifference([a.upstreamSubtaskId, Graph.GateName(a.requiredGate), a.reason],
                    [b.upstreamSubtaskId, Graph.GateName(b.requiredGate), b.reason]) <= 0
  }

  ghost predicate ReportsMissing(errors: seq<ValidationError>, down: SubtaskId) {
    exists e :: e in errors && e.code == MissingDownstreamSubtask && down in e.subtaskIds
  }

  /** The validation errors, plus one for an unknown downstream unless an edge error already names it. */
  ghost function ReadinessErrors(
    ss: seq<ReadinessSubtask>, ds: seq<SubtaskDependency>, down: SubtaskId): seq<ValidationError>
  {
    var errors := ValidationErrors(Plain(ss), ds);
    if down !in IndexOf(ss) && !ReportsMissing(errors, down)
    then errors + [ValidationError(MissingDownstreamSubtask, None, [down])]
    else errors
  }

  ghost function EvaluateReadiness(
    ss: seq<ReadinessSubtask>, ds: seq<SubtaskDependency>, down: SubtaskId): ReadinessResult
  {
    if !DistinctSubtasks(ss) then ReadinessResult(false, false, [], [])
    else
      var errors := ReadinessErrors(ss, ds, down);
      if errors != [] then ReadinessResult(false, false, [], errors)
      else
        var blockers := Sort(Blockers(IndexOf(ss), ds, down), BlockerAtMost);
        ReadinessResult(true, |blockers| == 0, blockers, [])
  }

  method HasDuplicateIds(ss: seq<ReadinessSubtask>) returns (duplicate: bool)
    ensures duplicate <==> !DistinctSubtasks(ss)
  {
    var seen: set<SubtaskId> := {};
    for i := 0 to |ss|
      invariant forall n :: n in seen <==> exists k :: 0 <= k < i && ss[k].id == n
      invariant forall j, k :: 0 <= j < k < i ==> ss[j].id != ss[k].id
    {
      if ss[i].id in seen {
        return true;
      }
      seen := seen + {ss[i].id};
    }
    return false;
  }

  method MissingAlreadyReported(errors: seq<ValidationError>, down: SubtaskId) returns (found: bool)
    ensures found <==> ReportsMissing(errors, down)
  {
    for i := 0 to |errors|
      invariant forall k :: 0 <= k < i ==> !(errors[k].code == MissingDownstreamSubtask && down in errors[k].subtaskIds)
    {
      if errors[i].code == MissingDownstreamSubtask && down in errors[i].subtaskIds {
        return true;
      }
    }
    return false;
  }

  method EvaluateSubtaskDependencyReadiness(
    ss: seq<ReadinessSubtask>, ds: seq<SubtaskDependency>, down: SubtaskId) returns (r: ReadinessResult)
    ensures r == EvaluateReadiness(ss, ds, down)
  {
    var duplicate := HasDuplicateIds(ss);
    if duplicate {
      return ReadinessResult(false, false, [], []);
    }
    var errors := ValidateSubtaskDependencies(Plain(ss), ds);
    var byId := IndexOf(ss);
    var reported := MissingAlreadyReported(errors, down);
    if down !in byId && !reported {
      errors := errors + [ValidationError(MissingDownstreamSubtask, None, [down])];
    }
    if |errors| > 0 {
      return ReadinessResult(false, false, [], errors);
    }
    var blockers := Sort(Blockers(byId, ds, down), BlockerAtMost);
    r := ReadinessResult(true, |blockers| == 0, blockers, []);
  }

  ghost predicate AllGatesMet(ss: seq<ReadinessSubtask>, ds: seq<SubtaskDependency>, down: SubtaskId) {
    forall d, i :: d in ds && d.Blocking? && d.downstreamSubtaskId == down && 0 <= i < |ss| && ss[i].id == d.upstreamSubtaskId
      ==> GateMet(d.gate, ss[i].maturity, ss[i].verificationComplete)
  }

  lemma NoUnmetMeansAllGatesMet(ss: seq<ReadinessSubtask>, ds: seq<SubtaskDependency>, down: SubtaskId)
    requires DistinctSubtasks(ss)
    ensures (forall d :: d in ds ==> !Unmet(IndexOf(ss), d, down)) <==> AllGatesMet(ss, ds, down)
  {
    forall i | 0 <= i < |ss| ensures ss[i].id in IndexOf(ss) && IndexOf(ss)[ss[i].id] == ss[i] {
      IndexOfDistinct(ss, i);
    }
    forall d: SubtaskDependency, i | d in ds && d.Blocking? && 0 <= i < |ss|
      ensures SatisfiesRequiredGate(ss[i].maturity, d.gate, ss[i].verificationComplete) <==>
        GateMet(d.gate, ss[i].maturity, ss[i].verificationComplete)
    {
      GateExact(ss[i].maturity, d.gate, ss[i].verificationComplete);
    }
  }

  /** What a blocker says: a blocking edge into the Subtask and the upstream that misses its gate. */
  ghost predicate Reports(b: Blocker, d: SubtaskDependency, ss: seq<ReadinessSubtask>, i: nat, down: SubtaskId) {
    && d.Blocking? && d.downstreamSubtaskId == down && i < |ss| && ss[i].id == d.upstreamSubtaskId
    && !GateMet(d.gate, ss[i].maturity, ss[i].verificationComplete)
    && b == Blocker(d.upstreamSubtaskId, d.gate, ss[i].maturity, d.reason)
  }

  lemma {:induction false} BlockersReport(ss: seq<ReadinessSubtask>, ds: seq<SubtaskDependency>, down: SubtaskId, b: Blocker)
    requires DistinctSubtasks(ss)
    ensures b in Blockers(IndexOf(ss), ds, down) <==> exists d, i: nat :: d in ds && Reports(b, d, ss, i, down)
  {
    hide IndexOf, GateMet, DistinctSubtasks, SatisfiesRequiredGate;
    if ds != [] {
      var front, last := ds[..|ds| - 1], ds[|ds| - 1];
      assert forall d :: d in ds <==> d in front || d == last;
      BlockersReport(ss, front, down, b);
      forall i: nat | i < |ss| ensures ss[i].id in IndexOf(ss) && IndexOf(ss)[ss[i].id] == ss[i] {
        IndexOfDistinct(ss, i);
      }
      forall i: nat | i < |ss| && last.Blocking?
        ensures SatisfiesRequiredGate(ss[i].maturity, last.gate, ss[i].verificationComplete) <==>
          GateMet(last.gate, ss[i].maturity, ss[i].verificationComplete)
      {
        GateExact(ss[i].maturity, last.gate, ss[i].verificationComplete);
      }
      if Unmet(IndexOf(ss), last, down) {
        var i: nat :| i < |ss| && ss[i].id == last.upstreamSubtaskId;
        assert Reports(Blocker(last.upstreamSubtaskId, last.gate, ss[i].maturity, last.reason), last, ss, i, down);
      }
      assert b in Blockers(IndexOf(ss), ds, down) <==>
        b in Blockers(IndexOf(ss), front, down) || exists i: nat :: Reports(b, last, ss, i, down);
    }
  }

  /** Without repeated edges there is one blocker for an upstream at most. */
  lemma {:induction false} BlockersOnce(ss: seq<ReadinessSubtask>, ds: seq<SubtaskDependency>, down: SubtaskId)
    requires DistinctSubtasks(ss) && DistinctKeys(ds)
    ensures var r := Blockers(IndexOf(ss), ds, down);
      Distinct(r) && forall x, y :: x in r && y in r && x.upstreamSubtaskId == y.upstreamSubtaskId ==> x == y
  {
    hide IndexOf, GateMet, DistinctSubtasks, SatisfiesRequiredGate;
    if ds != [] {
      var front, last := ds[..|ds| - 1], ds[|ds| - 1];
      assert DistinctKeys(front);
      BlockersOnce(ss, front, down);
      var known := Blockers(IndexOf(ss), front, down);
      forall x | x in known && last.Blocking? && last.downstreamSubtaskId == down
        ensures x.upstreamSubtaskId != last.upstreamSubtaskId
      {
        BlockersReport(ss, front, down, x);
        var d, i: nat :| d in front && Reports(x, d, ss, i, down);
        var k :| 0 <= k < |front| && front[k] == d;
        assert ds[k] == d && ds[k].Key() != last.Key();
      }
    }
  }

  /** Strictly ascending upstream ids: one entry each, in the order of code units. */
  ghost predicate Ascending(blockers: seq<Blocker>) {
    forall i, j :: 0 <= i < j < |blockers| ==> Below(blockers[i].upstreamSubtaskId, blockers[j].upstreamSubtaskId)
  }

  lemma BlockerOrder()
    ensures TotalPreorder(BlockerAtMost)
  {
    forall x: Blocker, y: Blocker ensures BlockerAtMost(x, y) || BlockerAtMost(y, x) {
      FirstDifferenceOrder([x.upstreamSubtaskId, Graph.GateName(x.requiredGate), x.reason],
                           [y.upstreamSubtaskId, Graph.GateName(y.requiredGate), y.reason]);
    }
    forall x: Blocker, y: Blocker, z: Blocker | BlockerAtMost(x, y) && BlockerAtMost(y, z) ensures BlockerAtMost(x, z) {
      FirstDifferenceTransitive([x.upstreamSubtaskId, Graph.GateName(x.requiredGate), x.reason],
                                [y.upstreamSubtaskId, Graph.GateName(y.requiredGate), y.reason],
                                [z.upstreamSubtaskId, Graph.GateName(z.requiredGate), z.reason]);
    }
  }

  lemma SortedBlockers(ss: seq<ReadinessSubtask>, ds: seq<SubtaskDependency>, down: SubtaskId)
    requires DistinctSubtasks(ss) && DistinctKeys(ds)
    ensures var r := Sort(Blockers(IndexOf(ss), ds, down), BlockerAtMost);
      Ascending(r) && forall b :: b in r <==> exists d, i: nat :: d in ds && Reports(b, d, ss, i, down)
  {
    hide IndexOf, DistinctSubtasks, DistinctKeys, Reports, Blockers, Sort;
    var raw := Blockers(IndexOf(ss), ds, down);
    var r := Sort(raw, BlockerAtMost);
    BlockerOrder();
    SortSorted(raw, BlockerAtMost);
    BlockersOnce(ss, ds, down);
    PermutationKeepsDistinct(raw, r);
    forall b ensures b in r <==> exists d, i: nat :: d in ds && Reports(b, d, ss, i, down) {
      InMultiset(raw, b);
      InMultiset(r, b);
      BlockersReport(ss, ds, down, b);
    }
    forall b ensures b in r <==> b in raw {
      InMultiset(raw, b);
      InMultiset(r, b);
    }
    forall i, j | 0 <= i < j < |r| ensures Below(r[i].upstreamSubtaskId, r[j].upstreamSubtaskId) {
      assert BlockerAtMost(r[i], r[j]) && r[i] != r[j] && r[i] in raw && r[j] in raw;
      BelowTrichotomy(r[i].upstreamSubtaskId, r[j].upstreamSubtaskId);
    }
  }

  lemma NoReadinessErrors(ss: seq<ReadinessSubtask>, ds: seq<SubtaskDependency>, down: SubtaskId)
    ensures ReadinessErrors(ss, ds, down) == [] <==> ValidGraph(Plain(ss), ds) && down in IndexOf(ss)
  {
    hide ValidGraph, ValidationErrors, IndexOf;
    ValidationExact(Plain(ss), ds);
  }

  /**
   * Readiness is defined exactly on valid graphs with a known downstream. Its blockers are then the blocking edges into the
   * downstream whose upstream misses the gate, one for each such upstream in ascending order, and it says ready
   * exactly when every gate is met.
   */
  lemma ReadinessExact(ss: seq<ReadinessSubtask>, ds: seq<SubtaskDependency>, down: SubtaskId)
    ensures var r := EvaluateReadiness(ss, ds, down);
      && (r.valid <==> DistinctSubtasks(ss) && ValidGraph(Plain(ss), ds) && exists i :: 0 <= i < |ss| && ss[i].id == down)
      && (r.valid ==> (r.ready <==> AllGatesMet(ss, ds, down)) && r.errors == [])
      && (r.valid ==>
            Ascending(r.blockers) && forall b :: b in r.blockers <==> exists d, i: nat :: d in ds && Reports(b, d, ss, i, down))
      && (!r.valid ==> !r.ready && r.blockers == [])
      && (!r.valid && DistinctSubtasks(ss) ==> r.errors != [])
  {
    hide ValidGraph, ReadinessErrors, AllGatesMet, DistinctSubtasks, Unmet, Blockers, Reports, Ascending;
    NoReadinessErrors(ss, ds, down);
    if DistinctSubtasks(ss) {
      NoUnmetMeansAllGatesMet(ss, ds, down);
      var blockers := Blockers(IndexOf(ss), ds, down);
      assert |Sort(blockers, BlockerAtMost)| == |blockers|;
      assert blockers == [] <==> AllGatesMet(ss, ds, down) by { NoBlockers(ss, ds, down); }
      if ValidGraph(Plain(ss), ds) {
        ValidHasDistinctKeys(ss, ds);
        SortedBlockers(ss, ds, down);
      }
    }
  }

  lemma NoBlockers(ss: seq<ReadinessSubtask>, ds: seq<SubtaskDependency>, down: SubtaskId)
    requires DistinctSubtasks(ss)
    ensures Blockers(IndexOf(ss), ds, down) == [] <==> AllGatesMet(ss, ds, down)
  {
    hide IndexOf, AllGatesMet, Unmet;
    NoUnmetMeansAllGatesMet(ss, ds, down);
  }

  lemma ValidHasDistinctKeys(ss: seq<ReadinessSubtask>, ds: seq<SubtaskDependency>)
    requires ValidGraph(Plain(ss), ds)
    ensures DistinctKeys(ds)
  {}
}
