/** packages/codex-adapter/src/live-execution.ts: requests, responses and how each request settles. */
module RequestCorrelation {
  import opened Options

  datatype Id = Numeric(n: int) | Textual(s: string)

  datatype Outcome = Resolved | ErrorReply | Refused | SendFailed | TimedOut | Interrupted | ConnectionFailed

  /**
   * A settled promise; tickets number the calls of request(). `answered` is the ticket that a settling response
   * answers: the message itself carries only the id.
   */
  datatype Settled = Settled(ticket: nat, outcome: Outcome, answered: Option<nat>)

  datatype Entry = Entry(id: Id, ticket: nat)

  /** How far a request came: refused or never sent; sent, but its onSent hook threw; or sent and waiting. */
  datatype Fate = Unsent | Sent | Waited

  datatype Asked = Asked(id: Id, fate: Fate)

  /** The client's #pending map in insertion order, #seenResponseIds and #failure; `asked` and `log` are history. */
  datatype Requests = Requests(pending: seq<Entry>, seen: set<Id>, failed: bool, asked: seq<Asked>, log: seq<Settled>) {
    function Issued(): nat { |asked| }
  }

  /** What a message with an id carries; onResult may reject a result, and result and error must not both or neither appear. */
  datatype Reply = Result(accepted: bool) | Error | ResultAndError | Neither

  datatype Delivery = Delivered | NotSent | HookThrew

  /** A response names the ticket of the request it answers. */
  datatype Event =
    | Request(id: Id, delivery: Delivery)
    | Respond(id: Id, reply: Reply, answers: nat)
    | OtherMessage(ok: bool)
    | Timeout(id: Id)
    | CancelPending
    | Fail

  const Initial := Requests([], {}, false, [], [])

  function Find(pending: seq<Entry>, id: Id): Option<nat> {
    if pending == [] then None else if pending[0].id == id then Some(pending[0].ticket) else Find(pending[1..], id)
  }

  function Without(pending: seq<Entry>, id: Id): seq<Entry> {
    if pending == [] then []
    else if pending[0].id == id then Without(pending[1..], id)
    else [pending[0]] + Without(pending[1..], id)
  }

  function SettleAll(pending: seq<Entry>, outcome: Outcome): seq<Settled> {
    if pending == [] then [] else [Settled(pending[0].ticket, outcome, None)] + SettleAll(pending[1..], outcome)
  }

  function Failing(s: Requests): Requests {
    if s.failed then s else s.(failed := true, pending := [], log := s.log + SettleAll(s.pending, ConnectionFailed))
  }

  /** A request that leaves the pending map with its promise settled. */
  function Settle(s: Requests, id: Id, outcome: Outcome, answered: Option<nat>): Requests
    requires Find(s.pending, id).Some?
  {
    s.(pending := Without(s.pending, id), log := s.log + [Settled(Find(s.pending, id).value, outcome, answered)])
  }

  function Step(s: Requests, e: Event, max: nat): Requests {
    match e
    case Request(id, delivery) =>
      var t := s.Issued();
      var unsent := s.(asked := s.asked + [Asked(id, Unsent)]);
      if s.failed then unsent.(log := s.log + [Settled(t, ConnectionFailed, None)])
      else if Find(s.pending, id).Some? || id in s.seen || |s.pending| >= max then
        unsent.(log := s.log + [Settled(t, Refused, None)])
      else if delivery.NotSent? then unsent.(log := s.log + [Settled(t, SendFailed, None)])
      else if delivery.HookThrew? then
        s.(asked := s.asked + [Asked(id, Sent)], log := s.log + [Settled(t, SendFailed, None)])
      else s.(asked := s.asked + [Asked(id, Waited)], pending := s.pending + [Entry(id, t)])
    case Respond(id, reply, answers) =>
      if s.failed then s
      else if Find(s.pending, id).None? || id in s.seen then Failing(s)
      else if reply == Error then Settle(s, id, ErrorReply, Some(answers)).(seen := s.seen + {id})
      else if reply == Result(true) then Settle(s, id, Resolved, Some(answers)).(seen := s.seen + {id})
      else Failing(s)
    case OtherMessage(ok) => if ok then s else Failing(s)
    case Timeout(id) => if Find(s.pending, id).None? then s else Settle(s, id, TimedOut, None)
    case CancelPending => s.(pending := [], log := s.log + SettleAll(s.pending, Interrupted))
    case Fail => Failing(s)
  }

  // ---------------------------------------------------------------- what every step keeps

  function Tickets(pending: seq<Entry>): (r: seq<nat>)
    ensures |r| == |pending| && forall i :: 0 <= i < |r| ==> r[i] == pending[i].ticket
  {
    seq(|pending|, i requires 0 <= i < |pending| => pending[i].ticket)
  }

  function SettledTickets(log: seq<Settled>): (r: seq<nat>)
    ensures |r| == |log| && forall i :: 0 <= i < |r| ==> r[i] == log[i].ticket
  {
    seq(|log|, i requires 0 <= i < |log| => log[i].ticket)
  }

  ghost predicate DistinctIds(pending: seq<Entry>) {
    forall i, j :: 0 <= i < j < |pending| ==> pending[i].id != pending[j].id
  }

  /** How often a ticket stands among the pending requests and the settlements together. */
  ghost function Count(s: Requests, t: nat): nat {
    multiset(Tickets(s.pending))[t] + multiset(SettledTickets(s.log))[t]
  }

  ghost predicate Correlated(s: Requests, max: nat) {
    && DistinctIds(s.pending)
    && (forall e :: e in s.pending ==> e.id !in s.seen)
    && |s.pending| <= max
    && (s.failed ==> s.pending == [])
    && (forall t: nat :: Count(s, t) == if t < s.Issued() then 1 else 0)
  }

  lemma {:induction false} FindMeans(pending: seq<Entry>, id: Id)
    ensures Find(pending, id).None? <==> forall e :: e in pending ==> e.id != id
    ensures Find(pending, id).Some? ==> Entry(id, Find(pending, id).value) in pending
  {
    if pending != [] {
      FindMeans(pending[1..], id);
      assert forall e :: e in pending <==> e == pending[0] || e in pending[1..];
    }
  }

  lemma {:induction false} WithoutMissing(pending: seq<Entry>, id: Id)
    requires Find(pending, id).None?
    ensures Without(pending, id) == pending
  {
    if pending != [] {
      WithoutMissing(pending[1..], id);
    }
  }

  lemma TailHasNoHeadId(pending: seq<Entry>)
    requires DistinctIds(pending) && pending != []
    ensures DistinctIds(pending[1..]) && Find(pending[1..], pending[0].id).None?
  {
    var tail := pending[1..];
    forall e | e in tail ensures e.id != pending[0].id {
      var j :| 0 <= j < |tail| && tail[j] == e;
      assert pending[j + 1] == e;
    }
    FindMeans(tail, pending[0].id);
  }

  lemma {:induction false} WithoutIsRemoval(pending: seq<Entry>, id: Id) returns (i: nat)
    requires DistinctIds(pending) && Find(pending, id).Some?
    ensures i < |pending| && pending[i] == Entry(id, Find(pending, id).value)
    ensures Without(pending, id) == pending[..i] + pending[i + 1..]
  {
    hide DistinctIds;
    TailHasNoHeadId(pending);
    var tail := pending[1..];
    if pending[0].id == id {
      i := 0;
      WithoutMissing(tail, id);
      assert pending[..0] + tail == tail;
    } else {
      var j := WithoutIsRemoval(tail, id);
      i := j + 1;
      assert pending[..i] == [pending[0]] + tail[..j] && pending[i + 1..] == tail[j + 1..];
    }
  }

  lemma RemovalKeepsRest(pending: seq<Entry>, i: nat)
    requires DistinctIds(pending) && i < |pending|
    ensures var rest := pending[..i] + pending[i + 1..];
      DistinctIds(rest) && forall e :: e in rest <==> e in pending && e.id != pending[i].id
  {
    var rest := pending[..i] + pending[i + 1..];
    assert forall k :: 0 <= k < |rest| ==> rest[k] == pending[if k < i then k else k + 1];
    forall e | e in pending && e.id != pending[i].id ensures e in rest {
      var k :| 0 <= k < |pending| && pending[k] == e;
      assert rest[if k < i then k else k - 1] == e;
    }
  }

  lemma RemovalTickets(pending: seq<Entry>, i: nat)
    requires i < |pending|
    ensures multiset(Tickets(pending)) ==
      multiset(Tickets(pending[..i] + pending[i + 1..])) + multiset{pending[i].ticket}
  {
    var rest := pending[..i] + pending[i + 1..];
    assert Tickets(pending) == Tickets(pending)[..i] + [pending[i].ticket] + Tickets(pending)[i + 1..];
    assert Tickets(rest) == Tickets(pending)[..i] + Tickets(pending)[i + 1..];
  }

  lemma WithoutMeans(pending: seq<Entry>, id: Id)
    requires DistinctIds(pending)
    ensures DistinctIds(Without(pending, id)) && |Without(pending, id)| <= |pending|
    ensures forall e :: e in Without(pending, id) <==> e in pending && e.id != id
    ensures multiset(Tickets(pending)) == multiset(Tickets(Without(pending, id))) +
      (if Find(pending, id).Some? then multiset{Find(pending, id).value} else multiset{})
  {
    hide Find, Without, Tickets, DistinctIds;
    FindMeans(pending, id);
    if Find(pending, id).None? {
      WithoutMissing(pending, id);
    } else {
      var i := WithoutIsRemoval(pending, id);
      RemovalKeepsRest(pending, i);
      RemovalTickets(pending, i);
    }
  }

  lemma {:induction false} SettleAllTickets(pending: seq<Entry>, outcome: Outcome)
    ensures SettledTickets(SettleAll(pending, outcome)) == Tickets(pending)
    ensures forall e :: e in SettleAll(pending, outcome) ==> e.outcome == outcome
  {
    if pending != [] {
      SettleAllTickets(pending[1..], outcome);
    }
  }

  lemma LogGrows(log: seq<Settled>, more: seq<Settled>)
    ensures multiset(SettledTickets(log + more)) == multiset(SettledTickets(log)) + multiset(SettledTickets(more))
  {
    assert SettledTickets(log + more) == SettledTickets(log) + SettledTickets(more);
  }

  lemma ClearKeepsValid(s: Requests, outcome: Outcome, failed: bool, max: nat)
    requires Correlated(s, max)
    ensures Correlated(s.(pending := [], failed := failed, log := s.log + SettleAll(s.pending, outcome)), max)
  {
    SettleAllTickets(s.pending, outcome);
    LogGrows(s.log, SettleAll(s.pending, outcome));
    var next := s.(pending := [], failed := failed, log := s.log + SettleAll(s.pending, outcome));
    forall t: nat ensures Count(next, t) == Count(s, t) {}
  }

  lemma SettleKeepsValid(s: Requests, id: Id, outcome: Outcome, answered: Option<nat>, seen: set<Id>, max: nat)
    requires Correlated(s, max) && Find(s.pending, id).Some? && s.seen <= seen <= s.seen + {id}
    ensures Correlated(Settle(s, id, outcome, answered).(seen := seen), max)
  {
    var done := [Settled(Find(s.pending, id).value, outcome, answered)];
    WithoutMeans(s.pending, id);
    LogGrows(s.log, done);
    assert SettledTickets(done) == [Find(s.pending, id).value];
    var next := Settle(s, id, outcome, answered).(seen := seen);
    forall t: nat ensures Count(next, t) == Count(s, t) {}
  }

  lemma RequestKeepsValid(s: Requests, id: Id, delivery: Delivery, max: nat)
    requires Correlated(s, max)
    ensures Correlated(Step(s, Request(id, delivery), max), max)
  {
    var next := Step(s, Request(id, delivery), max);
    FindMeans(s.pending, id);
    if next.pending == s.pending {
      var done := [next.log[|s.log|]];
      LogGrows(s.log, done);
      assert SettledTickets(done) == [s.Issued()];
    } else {
      assert Tickets(next.pending) == Tickets(s.pending) + [s.Issued()];
    }
    forall t: nat ensures Count(next, t) == if t < next.Issued() then 1 else 0 {
      assert Count(s, t) == if t < s.Issued() then 1 else 0;
    }
  }

  lemma StepKeepsValid(s: Requests, e: Event, max: nat)
    requires Correlated(s, max)
    ensures Correlated(Step(s, e, max), max)
  {
    hide Correlated;
    match e
    case Request(id, delivery) => RequestKeepsValid(s, id, delivery, max);
    case Respond(id, reply, answers) =>
      ClearKeepsValid(s, ConnectionFailed, true, max);
      if Find(s.pending, id).Some? {
        SettleKeepsValid(s, id, ErrorReply, Some(answers), s.seen + {id}, max);
        SettleKeepsValid(s, id, Resolved, Some(answers), s.seen + {id}, max);
      }
    case Timeout(id) =>
      if Find(s.pending, id).Some? {
        SettleKeepsValid(s, id, TimedOut, None, s.seen, max);
      }
    case CancelPending => ClearKeepsValid(s, Interrupted, s.failed, max);
    case _ => ClearKeepsValid(s, ConnectionFailed, true, max);
  }

  // ---------------------------------------------------------------- whole runs

  function Run(s: Requests, events: seq<Event>, max: nat): Requests
    decreases |events|
  {
    if events == [] then s else Run(Step(s, events[0], max), events[1..], max)
  }

  lemma {:induction false} RunKeepsValid(s: Requests, events: seq<Event>, max: nat)
    requires Correlated(s, max)
    ensures Correlated(Run(s, events, max), max)
    decreases |events|
  {
    hide Correlated, Step;
    if events != [] {
      StepKeepsValid(s, events[0], max);
      RunKeepsValid(Step(s, events[0], max), events[1..], max);
    }
  }

  /** Settlements are final: a run only adds to the log. */
  lemma {:induction false} RunOnlyAddsToTheLog(s: Requests, events: seq<Event>, max: nat)
    ensures s.log <= Run(s, events, max).log && s.seen <= Run(s, events, max).seen && s.asked <= Run(s, events, max).asked
    decreases |events|
  {
    if events != [] {
      var next := Step(s, events[0], max);
      RunOnlyAddsToTheLog(next, events[1..], max);
      assert s.log <= next.log;
      var last := Run(s, events, max);
      assert next.log == last.log[..|next.log|] && s.log == last.log[..|s.log|] by {
        assert last.log[..|next.log|][..|s.log|] == last.log[..|s.log|];
      }
    }
  }

  lemma {:induction false} FailureIsForever(s: Requests, events: seq<Event>, max: nat)
    requires s.failed && s.pending == []
    ensures Run(s, events, max).failed && Run(s, events, max).pending == []
    decreases |events|
  {
    if events != [] {
      FailureIsForever(Step(s, events[0], max), events[1..], max);
    }
  }

  /**
   * In every run from the start: pending ids are distinct, unseen and within the cap, a failed client has none, and
   * each request is either pending or settled, exactly once.
   */
  lemma EveryRequestSettlesOnce(events: seq<Event>, max: nat)
    ensures Correlated(Run(Initial, events, max), max)
  {
    RunKeepsValid(Initial, events, max);
  }

  /** Nothing is left unsettled once the connection fails or the pending requests are cancelled. */
  lemma AllSettledAfterFailure(events: seq<Event>, last: Event, max: nat)
    requires last == Fail || last == CancelPending
    ensures var s := Step(Run(Initial, events, max), last, max);
      forall t: nat :: multiset(SettledTickets(s.log))[t] == if t < s.Issued() then 1 else 0
  {
    var before := Run(Initial, events, max);
    RunKeepsValid(Initial, events, max);
    StepKeepsValid(before, last, max);
    var s := Step(before, last, max);
    assert s.pending == [];
    forall t: nat ensures multiset(SettledTickets(s.log))[t] == if t < s.Issued() then 1 else 0 {
      assert Count(s, t) == multiset(SettledTickets(s.log))[t];
    }
  }

  // ---------------------------------------------------------------- how each event settles

  lemma {:induction false} SettleAllExact(pending: seq<Entry>, outcome: Outcome)
    ensures var r := SettleAll(pending, outcome);
      |r| == |pending| && forall i :: 0 <= i < |r| ==> r[i] == Settled(pending[i].ticket, outcome, None)
  {
    if pending != [] {
      SettleAllExact(pending[1..], outcome);
    }
  }

  /** Every request still pending is settled with the outcome, in the order of the requests. */
  ghost predicate AllSettled(s: Requests, next: Requests, outcome: Outcome) {
    && next.pending == [] && |next.log| == |s.log| + |s.pending| && s.log <= next.log
    && forall i :: 0 <= i < |s.pending| ==> next.log[|s.log| + i] == Settled(s.pending[i].ticket, outcome, None)
  }

  lemma ClearExact(s: Requests, outcome: Outcome, failed: bool)
    ensures AllSettled(s, s.(pending := [], failed := failed, log := s.log + SettleAll(s.pending, outcome)), outcome)
  {
    SettleAllExact(s.pending, outcome);
  }

  /** One pending request is settled and leaves; the others stay. */
  ghost predicate OneSettled(s: Requests, next: Requests, e: Entry, outcome: Outcome, answered: Option<nat>) {
    && next.log == s.log + [Settled(e.ticket, outcome, answered)]
    && (forall o :: o in next.pending <==> o in s.pending && o != e)
    && !next.failed
  }

  /**
   * A request waits exactly when the connection stands, its id is neither pending nor seen, there is room and it was
   * delivered; otherwise it is settled at once, by the first of these that fails.
   */
  lemma RequestExactly(s: Requests, id: Id, delivery: Delivery, max: nat)
    requires Correlated(s, max)
    ensures var next := Step(s, Request(id, delivery), max); var free := forall e :: e in s.pending ==> e.id != id;
      var admitted := !s.failed && free && id !in s.seen && |s.pending| < max;
      && next.seen == s.seen && next.failed == s.failed
      && (admitted && delivery.Delivered? ==> next.pending == s.pending + [Entry(id, s.Issued())] && next.log == s.log)
      && (!(admitted && delivery.Delivered?) ==>
            next.pending == s.pending &&
            next.log == s.log + [Settled(s.Issued(), if s.failed then ConnectionFailed else if !admitted then Refused else SendFailed, None)])
  {
    FindMeans(s.pending, id);
  }

  /**
   * A response settles the pending request with its id, as resolved where the result is accepted and as an error reply where
   * it is an error; every other response fails the connection and with it all pending requests.
   */
  lemma ResponseExactly(s: Requests, id: Id, reply: Reply, answers: nat, max: nat)
    requires Correlated(s, max) && !s.failed
    ensures var next := Step(s, Respond(id, reply, answers), max);
      && (forall e :: e in s.pending && e.id == id && reply == Result(true) ==>
            OneSettled(s, next, e, Resolved, Some(answers)) && next.seen == s.seen + {id})
      && (forall e :: e in s.pending && e.id == id && reply == Error ==>
            OneSettled(s, next, e, ErrorReply, Some(answers)) && next.seen == s.seen + {id})
      && ((forall e :: e in s.pending ==> e.id != id) || (reply != Result(true) && reply != Error) ==>
            next.failed && next.seen == s.seen && AllSettled(s, next, ConnectionFailed))
  {
    FindMeans(s.pending, id);
    WithoutMeans(s.pending, id);
    ClearExact(s, ConnectionFailed, true);
    forall e | e in s.pending && e.id == id ensures e == Entry(id, Find(s.pending, id).value) {
      var i, j :| 0 <= i < |s.pending| && 0 <= j < |s.pending| && s.pending[i] == e && s.pending[j] == Entry(id, Find(s.pending, id).value);
      assert i == j;
    }
  }

  /** A response to an id that was answered before fails the connection. */
  lemma SecondResponseFails(s: Requests, id: Id, reply: Reply, answers: nat, again: Reply, max: nat)
    requires Correlated(s, max) && !s.failed && Find(s.pending, id).Some? && (reply == Result(true) || reply == Error)
    ensures Step(Step(s, Respond(id, reply, answers), max), Respond(id, again, answers), max).failed
  {
    FindMeans(s.pending, id);
    WithoutMeans(s.pending, id);
    FindMeans(Without(s.pending, id), id);
  }

  /** A timer settles its request as timed out if it is still pending; cancelling interrupts all; a failure fails all, once. */
  lemma OtherEventsExactly(s: Requests, id: Id, max: nat)
    requires Correlated(s, max)
    ensures (forall e :: e in s.pending ==> e.id != id) ==> Step(s, Timeout(id), max) == s
    ensures forall e :: e in s.pending && e.id == id ==> OneSettled(s, Step(s, Timeout(id), max), e, TimedOut, None)
    ensures Step(s, Timeout(id), max).seen == s.seen
    ensures AllSettled(s, Step(s, CancelPending, max), Interrupted) && Step(s, CancelPending, max).failed == s.failed
    ensures !s.failed ==> AllSettled(s, Step(s, Fail, max), ConnectionFailed) && Step(s, Fail, max).failed
    ensures s.failed ==> Step(s, Fail, max) == s
    ensures Step(s, OtherMessage(true), max) == s && Step(s, OtherMessage(false), max) == Step(s, Fail, max)
  {
    FindMeans(s.pending, id);
    WithoutMeans(s.pending, id);
    ClearExact(s, ConnectionFailed, true);
    ClearExact(s, Interrupted, s.failed);
    forall e | e in s.pending && e.id == id ensures e == Entry(id, Find(s.pending, id).value) {
      var i, j :| 0 <= i < |s.pending| && 0 <= j < |s.pending| && s.pending[i] == e && s.pending[j] == Entry(id, Find(s.pending, id).value);
      assert i == j;
    }
  }

  // ---------------------------------------------------------------- the client

  lemma {:induction false} WithoutAbsent(pending: seq<Entry>, e: Entry)
    requires Find(pending, e.id).None?
    ensures Without(pending + [e], e.id) == pending
  {
    if pending != [] {
      assert (pending + [e])[0] == pending[0] && (pending + [e])[1..] == pending[1..] + [e];
      WithoutAbsent(pending[1..], e);
    }
  }

  class JsonlAppServerClient {
    const maxPendingRequests: nat
    var pending: seq<Entry>
    var seenResponseIds: set<Id>
    var failure: bool
    var issued: nat
    ghost var asked: seq<Asked>
    ghost var log: seq<Settled>

    ghost function Current(): Requests reads this { Requests(pending, seenResponseIds, failure, asked, log) }

    ghost predicate Valid() reads this { Correlated(Current(), maxPendingRequests) && issued == |asked| }

    constructor (maxPendingRequests: nat)
      ensures Current() == Initial && this.maxPendingRequests == maxPendingRequests && Valid()
    {
      this.maxPendingRequests := maxPendingRequests;
      pending, seenResponseIds, failure, issued, asked, log := [], {}, false, 0, [], [];
    }

    /** request(): `delivery` says whether sending and the onSent hook went through. */
    method MakeRequest(id: Id, delivery: Delivery) returns (waiting: bool)
      requires Valid()
      modifies this
      ensures Valid() && Current() == Step(old(Current()), Request(id, delivery), maxPendingRequests)
      ensures pending == if waiting then old(pending) + [Entry(id, old(issued))] else old(pending)
    {
      RequestKeepsValid(Current(), id, delivery, maxPendingRequests);
      hide Correlated;
      var ticket := issued;
      issued := issued + 1;
      if failure {
        asked, log := asked + [Asked(id, Unsent)], log + [Settled(ticket, ConnectionFailed, None)];
        return false;
      }
      if Find(pending, id).Some? || id in seenResponseIds || |pending| >= maxPendingRequests {
        asked, log := asked + [Asked(id, Unsent)], log + [Settled(ticket, Refused, None)];
        return false;
      }
      WithoutAbsent(pending, Entry(id, ticket));
      pending := pending + [Entry(id, ticket)];
      if !delivery.Delivered? {
        pending := Without(pending, id);
        asked := asked + [Asked(id, if delivery.HookThrew? then Sent else Unsent)];
        log := log + [Settled(ticket, SendFailed, None)];
        return false;
      }
      asked := asked + [Asked(id, Waited)];
      return true;
    }

    /** A message with an id and no method. */
    method HandleResponse(id: Id, reply: Reply, ghost answers: nat)
      requires Valid()
      modifies this
      ensures Valid() && Current() == Step(old(Current()), Respond(id, reply, answers), maxPendingRequests)
    {
      StepKeepsValid(Current(), Respond(id, reply, answers), maxPendingRequests);
      hide Correlated;
      if failure {
        return;
      }
      var ticket := Find(pending, id);
      if ticket.None? || id in seenResponseIds || reply.ResultAndError? || reply.Neither? {
        FailWith();
      } else if reply.Error? || reply.accepted {
        pending := Without(pending, id);
        seenResponseIds := seenResponseIds + {id};
        log := log + [Settled(ticket.value, if reply.Error? then ErrorReply else Resolved, Some(answers))];
      } else {
        FailWith();
      }
    }

    /** The timer of a pending request fires. */
    method TimeOut(id: Id)
      requires Valid()
      modifies this
      ensures Valid() && Current() == Step(old(Current()), Timeout(id), maxPendingRequests)
    {
      StepKeepsValid(Current(), Timeout(id), maxPendingRequests);
      hide Correlated;
      var ticket := Find(pending, id);
      if ticket.Some? {
        pending := Without(pending, id);
        log := log + [Settled(ticket.value, TimedOut, None)];
      }
    }

    method CancelAll()
      requires Valid()
      modifies this
      ensures Valid() && Current() == Step(old(Current()), CancelPending, maxPendingRequests)
    {
      StepKeepsValid(Current(), CancelPending, maxPendingRequests);
      hide Correlated;
      RejectAll(Interrupted);
    }

    /** #fail: only the first failure counts. */
    method FailWith()
      modifies this
      ensures Current() == Failing(old(Current())) && issued == old(issued)
    {
      if failure {
        return;
      }
      failure := true;
      RejectAll(ConnectionFailed);
    }

    method RejectAll(ghost outcome: Outcome)
      modifies this
      ensures Current() == old(Current()).(pending := [], log := old(log) + SettleAll(old(pending), outcome))
      ensures issued == old(issued)
    {
      var i := 0;
      while i < |pending|
        invariant i <= |pending| && pending == old(pending) && issued == old(issued) && asked == old(asked)
        invariant seenResponseIds == old(seenResponseIds) && failure == old(failure)
        invariant log + SettleAll(pending[i..], outcome) == old(log) + SettleAll(old(pending), outcome)
      {
        assert pending[i..][1..] == pending[i + 1..];
        log := log + [Settled(pending[i].ticket, outcome, None)];
        i := i + 1;
      }
      assert pending[i..] == [];
      pending := [];
    }
  }
}
