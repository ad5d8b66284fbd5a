/** packages/codex-adapter/src/live-execution.ts: whether a response settles the request that it answers. */
module RequestReplies {
  import opened Options
  import opened RequestCorrelation

  ghost predicate Replied(outcome: Outcome) { outcome == Resolved || outcome == ErrorReply }

  /** A server answers only requests that were sent to it, with the id of the request. */
  ghost predicate Honest(s: Requests, e: Event) {
    e.Respond? ==> e.answers < s.Issued() && s.asked[e.answers].id == e.id && s.asked[e.answers].fate != Unsent
  }

  ghost predicate HonestRun(s: Requests, events: seq<Event>, max: nat)
    decreases |events|
  {
    events == [] || (Honest(s, events[0]) && HonestRun(Step(s, events[0], max), events[1..], max))
  }

  /** A settlement by a response goes to the request that the response answers. */
  ghost predicate Straight(x: Settled) { Replied(x.outcome) ==> x.answered == Some(x.ticket) }

  /** An honest response that settles another request than the one it answers. */
  ghost predicate Strays(s: Requests, e: Event, max: nat) {
    Honest(s, e) && exists x :: x in Step(s, e, max).log && x !in s.log && !Straight(x)
  }

  /** At some point of the run an honest response would settle another request than the one it answers. */
  ghost predicate Exposed(s: Requests, events: seq<Event>, max: nat)
    decreases |events|
  {
    || (exists e :: Strays(s, e, max))
    || (events != [] && Exposed(Step(s, events[0], max), events[1..], max))
  }

  /** Request t waited for a reply under an id with which an earlier request was sent. */
  ghost predicate ReusedBy(asked: seq<Asked>, a: nat, t: nat) {
    a < t < |asked| && asked[a].id == asked[t].id && asked[a].fate != Unsent && asked[t].fate == Waited
  }

  ghost predicate Reused(asked: seq<Asked>) { exists a: nat, t: nat :: ReusedBy(asked, a, t) }

  // ---------------------------------------------------------------- what every step keeps

  /** A pending request was sent under its id, and nothing was sent under that id since. */
  ghost predicate EntryTraced(asked: seq<Asked>, e: Entry) {
    && e.ticket < |asked|
    && asked[e.ticket] == Asked(e.id, Waited)
    && forall a :: e.ticket < a < |asked| && asked[a].id == e.id ==> asked[a].fate == Unsent
  }

  /** Only a reply carries a response, and it marks the id as seen; a refused request was not sent. */
  ghost predicate SettlementTraced(s: Requests, x: Settled) {
    && x.ticket < s.Issued()
    && (x.answered.Some? <==> Replied(x.outcome))
    && (Replied(x.outcome) ==> s.asked[x.ticket].id in s.seen)
    && (x.outcome == Refused ==> s.asked[x.ticket].fate == Unsent)
    && (x.outcome == ConnectionFailed ==> s.failed)
  }

  ghost predicate Traced(s: Requests, max: nat) {
    && Correlated(s, max)
    && (forall e :: e in s.pending ==> EntryTraced(s.asked, e))
    && (forall x :: x in s.log ==> SettlementTraced(s, x))
  }

  lemma {:induction false} SettleAllMeans(pending: seq<Entry>, outcome: Outcome, x: Settled)
    ensures x in SettleAll(pending, outcome) <==>
      (x.outcome == outcome && x.answered.None? && exists e :: e in pending && e.ticket == x.ticket)
  {
    if pending != [] {
      SettleAllMeans(pending[1..], outcome, x);
      assert forall e :: e in pending <==> e == pending[0] || e in pending[1..];
    }
  }

  lemma ClearKeepsTraced(s: Requests, outcome: Outcome, failed: bool, max: nat)
    requires Traced(s, max) && outcome == (if failed then ConnectionFailed else Interrupted) && (s.failed ==> failed)
    ensures Traced(s.(pending := [], failed := failed, log := s.log + SettleAll(s.pending, outcome)), max)
  {
    ClearKeepsValid(s, outcome, failed, max);
    hide Correlated, SettleAll;
    var next := s.(pending := [], failed := failed, log := s.log + SettleAll(s.pending, outcome));
    forall x | x in next.log ensures SettlementTraced(next, x) {
      SettleAllMeans(s.pending, outcome, x);
      if x in s.log {
        assert SettlementTraced(s, x);
      }
    }
  }

  lemma SettleKeepsTraced(s: Requests, id: Id, outcome: Outcome, answered: Option<nat>, max: nat)
    requires Traced(s, max) && Find(s.pending, id).Some?
    requires outcome == TimedOut || Replied(outcome)
    requires answered.Some? <==> Replied(outcome)
    ensures var seen := if Replied(outcome) then s.seen + {id} else s.seen;
      Traced(Settle(s, id, outcome, answered).(seen := seen), max)
  {
    var seen := if Replied(outcome) then s.seen + {id} else s.seen;
    SettleKeepsValid(s, id, outcome, answered, seen, max);
    WithoutMeans(s.pending, id);
    FindMeans(s.pending, id);
    hide Correlated, Find, Without;
    var next := Settle(s, id, outcome, answered).(seen := seen);
    assert EntryTraced(s.asked, Entry(id, Find(s.pending, id).value));
    forall x | x in next.log ensures SettlementTraced(next, x) {
      if x in s.log {
        assert SettlementTraced(s, x);
      }
    }
  }

  lemma RequestKeepsTraced(s: Requests, id: Id, delivery: Delivery, max: nat)
    requires Traced(s, max)
    ensures Traced(Step(s, Request(id, delivery), max), max)
  {
    RequestKeepsValid(s, id, delivery, max);
    FindMeans(s.pending, id);
    hide Correlated, Find;
    var next := Step(s, Request(id, delivery), max);
    forall x | x in next.log ensures SettlementTraced(next, x) {
      if x in s.log {
        assert SettlementTraced(s, x);
      }
    }
    forall e | e in next.pending ensures EntryTraced(next.asked, e) {
      if e in s.pending {
        assert EntryTraced(s.asked, e);
      }
    }
  }

  lemma StepKeepsTraced(s: Requests, e: Event, max: nat)
    requires Traced(s, max)
    ensures Traced(Step(s, e, max), max)
  {
    hide Traced, Correlated;
    match e
    case Request(id, delivery) => RequestKeepsTraced(s, id, delivery, max);
    case Respond(id, reply, answers) =>
      ClearKeepsTraced(s, ConnectionFailed, true, max);
      if Find(s.pending, id).Some? {
        SettleKeepsTraced(s, id, ErrorReply, Some(answers), max);
        SettleKeepsTraced(s, id, Resolved, Some(answers), max);
      }
    case Timeout(id) =>
      if Find(s.pending, id).Some? {
        SettleKeepsTraced(s, id, TimedOut, None, max);
      }
    case CancelPending =>
      if s.failed {
        FailedHasNoPending(s, max);
      } else {
        ClearKeepsTraced(s, Interrupted, false, max);
      }
    case _ => ClearKeepsTraced(s, ConnectionFailed, true, max);
  }

  lemma FailedHasNoPending(s: Requests, max: nat)
    requires Traced(s, max) && s.failed
    ensures Step(s, CancelPending, max) == s
  {}

  // ---------------------------------------------------------------- when a response can go astray

  lemma OnlyResponsesStray(s: Requests, e: Event, max: nat)
    requires Strays(s, e, max)
    ensures e.Respond? && !s.failed && Find(s.pending, e.id).Some? && e.id !in s.seen
    ensures Find(s.pending, e.id).value != e.answers
  {
    hide Find, Without;
    var x :| x in Step(s, e, max).log && x !in s.log && !Straight(x);
    SettleAllMeans(s.pending, ConnectionFailed, x);
    SettleAllMeans(s.pending, Interrupted, x);
  }

  lemma StrayingIsReuse(s: Requests, e: Event, max: nat)
    requires Traced(s, max) && Strays(s, e, max)
    ensures Reused(s.asked)
  {
    OnlyResponsesStray(s, e, max);
    FindMeans(s.pending, e.id);
    hide Correlated, Find;
    var t := Find(s.pending, e.id).value;
    assert EntryTraced(s.asked, Entry(e.id, t));
    assert ReusedBy(s.asked, e.answers, t);
  }

  lemma {:induction false} ExposedIsReuse(s: Requests, events: seq<Event>, max: nat)
    requires Traced(s, max) && Exposed(s, events, max)
    ensures Reused(Run(s, events, max).asked)
    decreases |events|
  {
    hide Traced, Step, Strays;
    if e :| Strays(s, e, max) {
      StrayingIsReuse(s, e, max);
      RunOnlyAddsToTheLog(s, events, max);
      ReuseStays(s.asked, Run(s, events, max).asked);
    } else {
      StepKeepsTraced(s, events[0], max);
      ExposedIsReuse(Step(s, events[0], max), events[1..], max);
    }
  }

  lemma ReuseStays(asked: seq<Asked>, more: seq<Asked>)
    requires asked <= more && Reused(asked)
    ensures Reused(more)
  {
    var a: nat, t: nat :| ReusedBy(asked, a, t);
    assert ReusedBy(more, a, t);
  }

  /** The request that reuses an id of a sent request is pending, and a response to the first one would settle it. */
  lemma ReuseStrays(s: Requests, e: Event, max: nat) returns (late: Event)
    requires Traced(s, max) && !Reused(s.asked) && Reused(Step(s, e, max).asked)
    ensures Strays(Step(s, e, max), late, max)
  {
    var next := Step(s, e, max);
    var a: nat, t: nat :| ReusedBy(next.asked, a, t);
    assert t == s.Issued() by {
      if t < s.Issued() {
        assert ReusedBy(s.asked, a, t);
      }
    }
    StepKeepsTraced(s, e, max);
    FindMeans(s.pending, e.id);
    FindMeans(next.pending, e.id);
    assert Entry(e.id, t) in next.pending && e.id !in next.seen && !next.failed;
    PendingIsUnique(next, Entry(e.id, t), max);
    late := Respond(e.id, Result(true), a);
    var x := Settled(t, Resolved, Some(a));
    assert Step(next, late, max).log == next.log + [x];
    forall y | y in next.log ensures y != x {
      assert SettlementTraced(next, y);
    }
    assert x in Step(next, late, max).log && x !in next.log && !Straight(x);
  }

  lemma PendingIsUnique(s: Requests, e: Entry, max: nat)
    requires Correlated(s, max) && e in s.pending
    ensures Find(s.pending, e.id) == Some(e.ticket)
  {
    FindMeans(s.pending, e.id);
  }

  lemma {:induction false} ReuseIsExposed(s: Requests, events: seq<Event>, max: nat)
    requires Traced(s, max) && !Reused(s.asked) && Reused(Run(s, events, max).asked)
    ensures Exposed(s, events, max)
    decreases |events|
  {
    hide Traced, Step, Strays, Reused;
    var next := Step(s, events[0], max);
    StepKeepsTraced(s, events[0], max);
    if Reused(next.asked) {
      var late := ReuseStrays(s, events[0], max);
      assert Strays(next, late, max);
      assert Exposed(next, events[1..], max);
    } else {
      ReuseIsExposed(next, events[1..], max);
    }
  }

  /**
   * Of every run: an honest response can settle another request than the one it answers exactly when some request waited
   * under an id with which an earlier request was sent.
   */
  lemma ExposedExactly(events: seq<Event>, max: nat)
    ensures Exposed(Initial, events, max) <==> Reused(Run(Initial, events, max).asked)
  {
    InitialTraced(max);
    if Exposed(Initial, events, max) {
      ExposedIsReuse(Initial, events, max);
    }
    if Reused(Run(Initial, events, max).asked) {
      ReuseIsExposed(Initial, events, max);
    }
  }

  lemma InitialTraced(max: nat)
    ensures Traced(Initial, max)
  {}

  // ---------------------------------------------------------------- what became of the earlier request

  ghost predicate GivenUp(log: seq<Settled>, a: nat) {
    exists x :: x in log && x.ticket == a && x.outcome in {TimedOut, Interrupted, SendFailed}
  }

  ghost predicate ReuseGivesUp(s: Requests) {
    forall a: nat, t: nat :: ReusedBy(s.asked, a, t) ==> GivenUp(s.log, a)
  }

  lemma NotPendingIsSettled(s: Requests, a: nat, max: nat) returns (x: Settled)
    requires Correlated(s, max) && a < s.Issued() && forall e :: e in s.pending ==> e.ticket != a
    ensures x in s.log && x.ticket == a
  {
    assert Count(s, a) == 1;
    assert a !in Tickets(s.pending);
    assert a in SettledTickets(s.log);
    var i :| 0 <= i < |s.log| && SettledTickets(s.log)[i] == a;
    x := s.log[i];
  }

  lemma SentIsGivenUp(s: Requests, a: nat, max: nat)
    requires Traced(s, max) && !s.failed && a < s.Issued() && s.asked[a].fate != Unsent
    requires s.asked[a].id !in s.seen && Find(s.pending, s.asked[a].id).None?
    ensures GivenUp(s.log, a)
  {
    FindMeans(s.pending, s.asked[a].id);
    forall e | e in s.pending ensures e.ticket != a {
      assert EntryTraced(s.asked, e);
    }
    var x := NotPendingIsSettled(s, a, max);
    hide Correlated;
    assert SettlementTraced(s, x);
  }

  lemma StepGivesUp(s: Requests, e: Event, max: nat)
    requires Traced(s, max) && ReuseGivesUp(s)
    ensures ReuseGivesUp(Step(s, e, max))
  {
    var next := Step(s, e, max);
    assert s.asked <= next.asked && s.log <= next.log;
    forall a: nat, t: nat | ReusedBy(next.asked, a, t) ensures GivenUp(next.log, a) {
      if t < s.Issued() {
        assert ReusedBy(s.asked, a, t);
      } else {
        SentIsGivenUp(s, a, max);
      }
    }
  }

  lemma {:induction false} RunGivesUp(s: Requests, events: seq<Event>, max: nat)
    requires Traced(s, max) && ReuseGivesUp(s)
    ensures ReuseGivesUp(Run(s, events, max)) && Traced(Run(s, events, max), max)
    decreases |events|
  {
    hide Traced, Step, ReuseGivesUp;
    if events != [] {
      StepKeepsTraced(s, events[0], max);
      StepGivesUp(s, events[0], max);
      RunGivesUp(Step(s, events[0], max), events[1..], max);
    }
  }

  /** The earlier request under a reused id timed out, was cancelled, or failed in its hook; it got no reply. */
  lemma ReusedIdsWereGivenUp(events: seq<Event>, a: nat, t: nat, max: nat)
    requires ReusedBy(Run(Initial, events, max).asked, a, t)
    ensures GivenUp(Run(Initial, events, max).log, a)
  {
    InitialTraced(max);
    RunGivesUp(Initial, events, max);
  }

  // ---------------------------------------------------------------- runs that use an id once

  lemma {:induction false} UnexposedIsStraight(s: Requests, events: seq<Event>, max: nat)
    requires HonestRun(s, events, max) && !Exposed(s, events, max) && forall x :: x in s.log ==> Straight(x)
    ensures forall x :: x in Run(s, events, max).log ==> Straight(x)
    decreases |events|
  {
    hide Honest, Straight, Step;
    if events != [] {
      var next := Step(s, events[0], max);
      assert !Strays(s, events[0], max);
      assert forall x :: x in next.log ==> Straight(x);
      UnexposedIsStraight(next, events[1..], max);
    }
  }

  /** The ids of the calls of request(), in order. */
  function RequestIds(events: seq<Event>): (r: seq<Id>) {
    if events == [] then []
    else (if events[0].Request? then [events[0].id] else []) + RequestIds(events[1..])
  }

  ghost predicate Distinct(ids: seq<Id>) { forall i, j :: 0 <= i < j < |ids| ==> ids[i] != ids[j] }

  function Ids(asked: seq<Asked>): (r: seq<Id>)
    ensures |r| == |asked| && forall i :: 0 <= i < |r| ==> r[i] == asked[i].id
  {
    seq(|asked|, i requires 0 <= i < |asked| => asked[i].id)
  }

  lemma {:induction false} AskedIds(s: Requests, events: seq<Event>, max: nat)
    ensures Ids(Run(s, events, max).asked) == Ids(s.asked) + RequestIds(events)
    decreases |events|
  {
    if events != [] {
      var next := Step(s, events[0], max);
      AskedIds(next, events[1..], max);
      assert Ids(next.asked) == Ids(s.asked) + (if events[0].Request? then [events[0].id] else []);
    }
  }

  /** In an honest run in which no request waits under an id that was sent before, every reply settles its own request. */
  lemma RepliesSettleTheirRequests(events: seq<Event>, max: nat)
    requires HonestRun(Initial, events, max) && !Reused(Run(Initial, events, max).asked)
    ensures forall x :: x in Run(Initial, events, max).log && Replied(x.outcome) ==> x.answered == Some(x.ticket)
  {
    ExposedExactly(events, max);
    UnexposedIsStraight(Initial, events, max);
    assert forall x :: x in Run(Initial, events, max).log ==> Straight(x);
  }

  /** The callers of the client use each id once: every reply settles its own request. */
  lemma DistinctIdsSettleTheirRequests(events: seq<Event>, max: nat)
    requires HonestRun(Initial, events, max) && Distinct(RequestIds(events))
    ensures forall x :: x in Run(Initial, events, max).log && Replied(x.outcome) ==> x.answered == Some(x.ticket)
  {
    var asked := Run(Initial, events, max).asked;
    AskedIds(Initial, events, max);
    assert Ids(asked) == RequestIds(events);
    forall a: nat, t: nat | a < t < |asked| ensures asked[a].id != asked[t].id {
      assert Ids(asked)[a] != Ids(asked)[t];
    }
    RepliesSettleTheirRequests(events, max);
  }

  /** The first request is given up in one of three ways, its id is requested again, and its response settles the second. */
  lemma LateResponseSettlesTheReusedId(id: Id, giveUp: Event, max: nat)
    requires max > 0 && giveUp in {Timeout(id), CancelPending, Request(id, HookThrew)}
    ensures var first := if giveUp.Request? then [giveUp] else [Request(id, Delivered), giveUp];
      var run := first + [Request(id, Delivered), Respond(id, Result(true), 0)];
      && HonestRun(Initial, run, max)
      && Settled(1, Resolved, Some(0)) in Run(Initial, run, max).log
  {
    var second, late := Request(id, Delivered), Respond(id, Result(true), 0);
    if giveUp.Request? {
      var s1 := Step(Initial, giveUp, max);
      FirstSteps(Initial, giveUp, [second, late], max);
      LastSteps(s1, id, max);
    } else {
      var s1 := Step(Initial, second, max);
      assert s1.pending == [Entry(id, 0)];
      assert Find(s1.pending, id) == Some(0) && Without([], id) == Without(s1.pending, id) == [];
      assert [second, giveUp] + [second, late] == [second] + [giveUp, second, late];
      FirstSteps(Initial, second, [giveUp, second, late], max);
      assert [giveUp, second, late] == [giveUp] + [second, late];
      FirstSteps(s1, giveUp, [second, late], max);
      LastSteps(Step(s1, giveUp, max), id, max);
    }
  }

  lemma FirstSteps(s: Requests, e: Event, rest: seq<Event>, max: nat)
    ensures Run(s, [e] + rest, max) == Run(Step(s, e, max), rest, max)
    ensures HonestRun(s, [e] + rest, max) <==> Honest(s, e) && HonestRun(Step(s, e, max), rest, max)
  {
    assert ([e] + rest)[1..] == rest;
  }

  lemma LastSteps(s: Requests, id: Id, max: nat)
    requires !s.failed && s.pending == [] && s.seen == {} && |s.asked| == 1 && max > 0
    requires s.asked[0].id == id && s.asked[0].fate != Unsent
    ensures var last := [Request(id, Delivered), Respond(id, Result(true), 0)];
      HonestRun(s, last, max) && Settled(1, Resolved, Some(0)) in Run(s, last, max).log
  {
    var second, late := Request(id, Delivered), Respond(id, Result(true), 0);
    var next := Step(s, second, max);
    FirstSteps(s, second, [late], max);
    FirstSteps(next, late, [], max);
    assert [late] + [] == [late] && [second] + [late] == [second, late];
    assert Step(next, late, max).log == next.log + [Settled(1, Resolved, Some(0))];
  }
}
