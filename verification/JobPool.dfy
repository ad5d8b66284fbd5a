/** packages/local-control/src/console-application.ts: at most four jobs at a time, started in the order they were accepted. */
module JobPool {
  type Id = string

  const SLOTS := 4

  /** A queued job; tickets number the acceptances. */
  datatype Waiting = Waiting(id: Id, ticket: nat)

  /** #jobs with their tickets, #queued in insertion order and #stopping; the rest is history. */
  datatype Pool = Pool(jobs: map<Id, nat>, queued: seq<Waiting>, stopping: bool, accepted: nat,
                       started: seq<nat>, finished: set<nat>, dropped: set<nat>)

  const Empty := Pool(map[], [], false, 0, [], {}, {})

  datatype Event = Schedule(id: Id) | Complete(id: Id) | Cancel(id: Id) | Stop

  predicate IsQueued(queued: seq<Waiting>, id: Id) { exists w :: w in queued && w.id == id }

  /** The loop body of #drain. */
  function StartHead(p: Pool): Pool
    requires p.queued != []
  {
    p.(jobs := p.jobs[p.queued[0].id := p.queued[0].ticket], queued := p.queued[1..],
       started := p.started + [p.queued[0].ticket])
  }

  /** #drain. */
  function Drain(p: Pool): Pool
    decreases |p.queued|
  {
    if p.stopping || |p.jobs| >= SLOTS || p.queued == [] then p
    else Drain(StartHead(p))
  }

  function Without(queued: seq<Waiting>, id: Id): seq<Waiting> {
    if queued == [] then []
    else if queued[0].id == id then Without(queued[1..], id)
    else [queued[0]] + Without(queued[1..], id)
  }

  function Tickets(queued: seq<Waiting>): set<nat> { set w | w in queued :: w.ticket }

  function Appended(p: Pool, id: Id): Pool {
    p.(queued := p.queued + [Waiting(id, p.accepted)], accepted := p.accepted + 1)
  }

  /** A running job comes to its end and frees its slot. */
  function Ended(p: Pool, id: Id): Pool
    requires id in p.jobs
  {
    p.(jobs := p.jobs - {id}, finished := p.finished + {p.jobs[id]})
  }

  /** A schedule call throws once the console is stopping; a completion is the end of a running job. */
  function Step(p: Pool, e: Event): Pool {
    match e
    case Schedule(id) =>
      if id in p.jobs || IsQueued(p.queued, id) || p.stopping then p
      else Drain(Appended(p, id))
    case Complete(id) => if id in p.jobs then Drain(Ended(p, id)) else p
    case Cancel(id) =>
      var rest := Without(p.queued, id);
      p.(queued := rest, dropped := p.dropped + (Tickets(p.queued) - Tickets(rest)))
    case Stop => p.(stopping := true, queued := [], dropped := p.dropped + Tickets(p.queued))
  }

  function Run(p: Pool, events: seq<Event>): Pool
    decreases |events|
  {
    if events == [] then p else Run(Step(p, events[0]), events[1..])
  }

  // ---------------------------------------------------------------- what every step keeps

  ghost predicate Increasing(queued: seq<Waiting>) {
    forall i, j :: 0 <= i < j < |queued| ==> queued[i].ticket < queued[j].ticket
  }

  ghost predicate DistinctIds(queued: seq<Waiting>) {
    forall i, j :: 0 <= i < j < |queued| ==> queued[i].id != queued[j].id
  }

  ghost predicate Ordered(p: Pool) {
    && Increasing(p.queued) && DistinctIds(p.queued)
    && (forall i, j :: 0 <= i < j < |p.started| ==> p.started[i] < p.started[j])
    && (forall t, w :: t in p.started && w in p.queued ==> t < w.ticket)
    && (forall w :: w in p.queued ==> w.ticket < p.accepted)
    && (forall t :: t in p.started ==> t < p.accepted)
  }

  /** Every acceptance is in exactly one place: waiting, started or dropped. */
  ghost predicate Accounted(p: Pool) {
    && (forall t: nat :: t < p.accepted ==> t in Tickets(p.queued) || t in p.started || t in p.dropped)
    && (forall t :: t in p.dropped ==> t < p.accepted && t !in p.started && t !in Tickets(p.queued))
  }

  /** The running jobs are exactly the started ones that have not ended. */
  ghost predicate Running(p: Pool) {
    && (forall id :: id in p.jobs ==> p.jobs[id] in p.started && p.jobs[id] !in p.finished)
    && (forall t :: t in p.started ==> t in p.finished || exists id :: id in p.jobs && p.jobs[id] == t)
    && (forall a, b :: a in p.jobs && b in p.jobs && p.jobs[a] == p.jobs[b] ==> a == b)
    && (forall t :: t in p.finished ==> t in p.started)
  }

  ghost predicate Bounded(p: Pool) {
    && |p.jobs| <= SLOTS
    && (forall w :: w in p.queued ==> w.id !in p.jobs)
    && (p.stopping ==> p.queued == [])
  }

  /** No job waits while a slot is free. */
  ghost predicate Busy(p: Pool) { p.stopping || p.queued == [] || |p.jobs| == SLOTS }

  ghost predicate Inv(p: Pool) { Ordered(p) && Accounted(p) && Running(p) && Bounded(p) && Busy(p) }

  lemma QueueHeadAndTail(queued: seq<Waiting>)
    requires queued != []
    ensures forall w :: w in queued <==> w == queued[0] || w in queued[1..]
    ensures Tickets(queued) == {queued[0].ticket} + Tickets(queued[1..])
    ensures Increasing(queued) ==> Increasing(queued[1..]) && forall w :: w in queued[1..] ==> queued[0].ticket < w.ticket
    ensures DistinctIds(queued) ==> DistinctIds(queued[1..]) && forall w :: w in queued[1..] ==> queued[0].id != w.id
  {
    assert forall w :: w in queued[1..] ==> exists j :: 0 < j < |queued| && queued[j] == w;
    forall w ensures w in queued <==> w == queued[0] || w in queued[1..] {}
  }

  lemma HeadKeepsOrdered(p: Pool)
    requires Ordered(p) && p.queued != []
    ensures Ordered(StartHead(p))
  {
    hide Increasing, DistinctIds, Tickets;
    QueueHeadAndTail(p.queued);
    assert p.queued[0] in p.queued;
    var s := StartHead(p).started;
    forall t ensures t in s <==> t in p.started || t == p.queued[0].ticket {}
    forall i, j | 0 <= i < j < |s| ensures s[i] < s[j] {
      assert s[i] in p.started;
    }
  }

  lemma HeadKeepsAccounted(p: Pool)
    requires Ordered(p) && Accounted(p) && p.queued != []
    ensures Accounted(StartHead(p))
  {
    hide Increasing, DistinctIds, Tickets;
    QueueHeadAndTail(p.queued);
    forall t ensures t in StartHead(p).started <==> t in p.started || t == p.queued[0].ticket {}
  }

  lemma HeadKeepsRunning(p: Pool)
    requires Ordered(p) && Running(p) && Bounded(p) && p.queued != []
    ensures Running(StartHead(p))
  {
    hide Increasing, DistinctIds, Tickets;
    var q, head := StartHead(p), p.queued[0];
    assert head in p.queued && head.id !in p.jobs && head.ticket !in p.started;
    forall t ensures t in q.started <==> t in p.started || t == head.ticket {}
    forall t | t in q.started ensures t in q.finished || exists id :: id in q.jobs && q.jobs[id] == t {
      if t == head.ticket {
        assert q.jobs[head.id] == t;
      } else if t !in p.finished {
        var id :| id in p.jobs && p.jobs[id] == t;
        assert q.jobs[id] == t;
      }
    }
  }

  lemma EndKeepsRunning(p: Pool, id: Id)
    requires Running(p) && id in p.jobs
    ensures Running(Ended(p, id))
  {
    var q := Ended(p, id);
    forall t | t in q.started ensures t in q.finished || exists other :: other in q.jobs && q.jobs[other] == t {
      if t !in p.finished && t != p.jobs[id] {
        var other :| other in p.jobs && p.jobs[other] == t;
        assert other in q.jobs;
      }
    }
  }

  lemma HeadKeepsBounded(p: Pool)
    requires Ordered(p) && Bounded(p) && !p.stopping && |p.jobs| < SLOTS && p.queued != []
    ensures Bounded(StartHead(p))
  {
    hide Increasing, DistinctIds, Tickets;
    QueueHeadAndTail(p.queued);
  }

  lemma {:induction false} DrainKeeps(p: Pool)
    requires Ordered(p) && Accounted(p) && Running(p) && Bounded(p)
    ensures Inv(Drain(p))
    decreases |p.queued|
  {
    hide Ordered, Accounted, Running;
    if !(p.stopping || |p.jobs| >= SLOTS || p.queued == []) {
      HeadKeepsOrdered(p);
      HeadKeepsAccounted(p);
      HeadKeepsRunning(p);
      HeadKeepsBounded(p);
      DrainKeeps(StartHead(p));
    }
  }

  lemma {:induction false} WithoutMembers(queued: seq<Waiting>, id: Id)
    ensures forall w :: w in Without(queued, id) <==> w in queued && w.id != id
    ensures |Without(queued, id)| <= |queued|
  {
    if queued != [] {
      WithoutMembers(queued[1..], id);
      forall w ensures w in queued <==> w == queued[0] || w in queued[1..] {}
    }
  }

  lemma ConsInOrder(head: Waiting, rest: seq<Waiting>)
    requires Increasing(rest) && DistinctIds(rest)
    requires forall w :: w in rest ==> head.ticket < w.ticket && head.id != w.id
    ensures Increasing([head] + rest) && DistinctIds([head] + rest)
  {
    var all := [head] + rest;
    forall i, j | 0 <= i < j < |all| ensures all[i].ticket < all[j].ticket && all[i].id != all[j].id {
      assert all[j] == rest[j - 1];
      if i > 0 { assert all[i] == rest[i - 1]; }
    }
  }

  lemma {:induction false} WithoutInOrder(queued: seq<Waiting>, id: Id)
    requires Increasing(queued) && DistinctIds(queued)
    ensures Increasing(Without(queued, id)) && DistinctIds(Without(queued, id))
  {
    if queued != [] {
      hide Increasing, DistinctIds, Tickets;
      QueueHeadAndTail(queued);
      WithoutInOrder(queued[1..], id);
      WithoutMembers(queued[1..], id);
      if queued[0].id != id {
        ConsInOrder(queued[0], Without(queued[1..], id));
      }
    } else {
      assert Without(queued, id) == queued;
    }
  }

  lemma QueueAndLast(queued: seq<Waiting>, last: Waiting)
    ensures forall w :: w in queued + [last] <==> w in queued || w == last
    ensures Tickets(queued + [last]) == Tickets(queued) + {last.ticket}
  {
    forall w ensures w in queued + [last] <==> w in queued || w == last {}
  }

  lemma AppendKeepsOrdered(p: Pool, id: Id)
    requires Ordered(p) && !IsQueued(p.queued, id)
    ensures Ordered(Appended(p, id))
  {
    QueueAndLast(p.queued, Waiting(id, p.accepted));
    assert forall i :: 0 <= i < |p.queued| ==> p.queued[i] in p.queued;
  }

  lemma AppendKeepsAccounted(p: Pool, id: Id)
    requires Accounted(p) && Ordered(p)
    ensures Accounted(Appended(p, id))
  {
    hide Tickets, Increasing, DistinctIds;
    QueueAndLast(p.queued, Waiting(id, p.accepted));
  }

  lemma AppendKeepsBounded(p: Pool, id: Id)
    requires Bounded(p) && id !in p.jobs && !p.stopping
    ensures Bounded(Appended(p, id))
  {
    QueueAndLast(p.queued, Waiting(id, p.accepted));
  }

  lemma ScheduleKeeps(p: Pool, id: Id)
    requires Inv(p)
    ensures Inv(Step(p, Schedule(id)))
  {
    if !(id in p.jobs || IsQueued(p.queued, id) || p.stopping) {
      assert Running(Appended(p, id));
      hide Drain, Ordered, Accounted, Running, Bounded, Tickets;
      AppendKeepsOrdered(p, id);
      AppendKeepsAccounted(p, id);
      AppendKeepsBounded(p, id);
      DrainKeeps(Appended(p, id));
    }
  }

  lemma EndFreesASlot(p: Pool, id: Id)
    requires id in p.jobs
    ensures |Ended(p, id).jobs| == |p.jobs| - 1
  {
    var rest := p.jobs - {id};
    assert rest.Keys == p.jobs.Keys - {id};
    assert |rest| == |rest.Keys| && |p.jobs| == |p.jobs.Keys|;
  }

  lemma EndKeepsQueue(p: Pool, id: Id)
    requires Ordered(p) && Accounted(p) && Bounded(p) && id in p.jobs
    ensures Ordered(Ended(p, id)) && Accounted(Ended(p, id)) && Bounded(Ended(p, id))
  {
    hide Increasing, DistinctIds, Tickets;
    EndFreesASlot(p, id);
  }

  lemma CompleteKeeps(p: Pool, id: Id)
    requires Inv(p)
    ensures Inv(Step(p, Complete(id)))
  {
    if id in p.jobs {
      EndKeepsRunning(p, id);
      EndKeepsQueue(p, id);
      hide Running, Ordered, Accounted, Bounded, Drain;
      DrainKeeps(Ended(p, id));
    }
  }

  lemma CancelKeeps(p: Pool, id: Id)
    requires Inv(p)
    ensures Inv(Step(p, Cancel(id)))
  {
    WithoutMembers(p.queued, id);
    WithoutInOrder(p.queued, id);
    hide Without, Increasing, DistinctIds;
    var q := Step(p, Cancel(id));
    forall t | t in q.dropped && t !in p.dropped ensures t < p.accepted && t !in p.started {
      var w :| w in p.queued && w.ticket == t;
    }
  }

  lemma StepKeeps(p: Pool, e: Event)
    requires Inv(p)
    ensures Inv(Step(p, e))
  {
    match e
    case Schedule(id) => ScheduleKeeps(p, id);
    case Complete(id) => CompleteKeeps(p, id);
    case Cancel(id) => CancelKeeps(p, id);
    case Stop =>
      forall t | t in Tickets(p.queued) ensures t < p.accepted && t !in p.started {
        var w :| w in p.queued && w.ticket == t;
      }
  }

  /**
   * In every run at most four jobs run, they are the started ones that have not ended, no id is both queued and
   * running, jobs start in the order of acceptance and at most once each, and before a stop the queue is empty or all
   * slots are busy.
   */
  lemma {:induction false} RunKeeps(p: Pool, events: seq<Event>)
    requires Inv(p)
    ensures Inv(Run(p, events))
    decreases |events|
  {
    hide Inv, Step;
    if events != [] {
      StepKeeps(p, events[0]);
      RunKeeps(Step(p, events[0]), events[1..]);
    }
  }

  // ---------------------------------------------------------------- what each event does

  predicate Known(p: Pool, id: Id) { id in p.jobs || IsQueued(p.queued, id) }

  /**
   * A new job starts at once where fewer than four run, and otherwise waits behind the others; a known one, or any while the
   * console is stopping, changes nothing.
   */
  lemma ScheduleExactly(p: Pool, id: Id)
    requires Inv(p)
    ensures var q := Step(p, Schedule(id));
      if Known(p, id) || p.stopping then q == p
      else if |p.jobs| < 4 then
        p.queued == [] && q == p.(jobs := p.jobs[id := p.accepted], accepted := p.accepted + 1, started := p.started + [p.accepted])
      else q == p.(queued := p.queued + [Waiting(id, p.accepted)], accepted := p.accepted + 1)
  {
    if !(Known(p, id) || p.stopping) {
      if |p.jobs| < SLOTS {
        var q := StartHead(Appended(p, id));
        assert [Waiting(id, p.accepted)][1..] == [];
        assert q.queued == [];
        assert Drain(q) == q;
      }
    }
  }

  /** When a job ends, the first that waits takes its slot; an id that is not running changes nothing. */
  lemma CompletionExactly(p: Pool, id: Id)
    requires Inv(p)
    ensures var q := Step(p, Complete(id));
      if id !in p.jobs then q == p
      else
        var freed := p.(jobs := p.jobs - {id}, finished := p.finished + {p.jobs[id]});
        if p.stopping || p.queued == [] then q == freed
        else
          q == freed.(jobs := freed.jobs[p.queued[0].id := p.queued[0].ticket], queued := p.queued[1..],
                      started := p.started + [p.queued[0].ticket])
  {
    if id in p.jobs {
      var freed := Ended(p, id);
      EndFreesASlot(p, id);
      if !(p.stopping || p.queued == []) {
        var q := StartHead(freed);
        assert p.queued[0] in p.queued && p.queued[0].id !in freed.jobs;
        assert q.jobs.Keys == freed.jobs.Keys + {p.queued[0].id};
        assert |q.jobs| == |q.jobs.Keys| == |freed.jobs.Keys| + 1 == |freed.jobs| + 1;
        assert Drain(q) == q;
      }
    }
  }

  /** Cancelling takes the job with that id out of the queue and drops it; stopping drops all that wait. */
  lemma RemovalExactly(p: Pool, id: Id)
    requires Inv(p)
    ensures var q := Step(p, Cancel(id));
      && q == p.(queued := q.queued, dropped := q.dropped)
      && (forall w :: w in q.queued <==> w in p.queued && w.id != id) && Increasing(q.queued)
      && (forall t :: t in q.dropped <==> t in p.dropped || exists w :: w in p.queued && w.id == id && w.ticket == t)
    ensures var q := Step(p, Stop);
      && q == p.(stopping := true, queued := [], dropped := q.dropped)
      && (forall t :: t in q.dropped <==> t in p.dropped || exists w :: w in p.queued && w.ticket == t)
  {
    WithoutMembers(p.queued, id);
    WithoutInOrder(p.queued, id);
    var rest := Without(p.queued, id);
    forall t ensures t in Tickets(p.queued) - Tickets(rest) <==> exists w :: w in p.queued && w.id == id && w.ticket == t {
      if w :| w in p.queued && w.id == id && w.ticket == t {
        forall v | v in rest ensures v.ticket != t {
          var i, j :| 0 <= i < |p.queued| && 0 <= j < |p.queued| && p.queued[i] == w && p.queued[j] == v;
          assert p.queued[i].ticket < p.queued[j].ticket || p.queued[j].ticket < p.queued[i].ticket;
        }
      }
    }
  }

  lemma EmptyIsFine()
    ensures Inv(Empty)
  {}

  lemma {:induction false} StoppedStartsNothing(p: Pool, events: seq<Event>)
    requires p.stopping && p.queued == []
    ensures Run(p, events).started == p.started && Run(p, events).stopping && Run(p, events).jobs.Keys <= p.jobs.Keys
    decreases |events|
  {
    if events != [] {
      StoppedStartsNothing(Step(p, events[0]), events[1..]);
    }
  }

  // ---------------------------------------------------------------- waiting time

  /** The place of a ticket in the queue, its length where it is not there. */
  function Place(queued: seq<Waiting>, ticket: nat): nat {
    if queued == [] || queued[0].ticket == ticket then 0 else 1 + Place(queued[1..], ticket)
  }

  /** The completions of jobs that were running. */
  function Completions(p: Pool, events: seq<Event>): nat
    decreases |events|
  {
    if events == [] then 0
    else (if events[0].Complete? && events[0].id in p.jobs then 1 else 0) + Completions(Step(p, events[0]), events[1..])
  }

  lemma {:induction false} PlaceAppend(queued: seq<Waiting>, w: Waiting, ticket: nat)
    requires ticket in Tickets(queued)
    ensures Place(queued + [w], ticket) == Place(queued, ticket) < |queued|
  {
    var v :| v in queued && v.ticket == ticket;
    if queued[0].ticket != ticket {
      assert v in queued[1..];
      assert (queued + [w])[1..] == queued[1..] + [w];
      PlaceAppend(queued[1..], w, ticket);
    }
  }

  lemma {:induction false} PlaceWithout(queued: seq<Waiting>, id: Id, ticket: nat)
    requires Increasing(queued) && DistinctIds(queued) && ticket in Tickets(Without(queued, id))
    ensures Place(Without(queued, id), ticket) <= Place(queued, ticket)
  {
    WithoutMembers(queued, id);
    var v :| v in Without(queued, id) && v.ticket == ticket;
    QueueHeadAndTail(queued);
    if queued[0].ticket == ticket {
      assert v == queued[0];
    } else {
      WithoutMembers(queued[1..], id);
      assert v in Without(queued[1..], id);
      PlaceWithout(queued[1..], id, ticket);
    }
  }

  /** What draining leaves of a ticket's place: it starts, or moves up by the jobs started before it. */
  lemma {:induction false} PlaceDrain(p: Pool, ticket: nat)
    requires Increasing(p.queued) && DistinctIds(p.queued) && ticket in Tickets(p.queued)
    requires |p.jobs| <= SLOTS && (forall w :: w in p.queued ==> w.id !in p.jobs) && !p.stopping
    ensures ticket in Tickets(Drain(p).queued) ==> Place(Drain(p).queued, ticket) + (SLOTS - |p.jobs|) <= Place(p.queued, ticket)
    decreases |p.queued|
  {
    if |p.jobs| < SLOTS {
      QueueHeadAndTail(p.queued);
      var q := StartHead(p);
      assert |q.jobs| == |p.jobs| + 1;
      if ticket in Tickets(q.queued) {
        PlaceDrain(q, ticket);
      } else {
        DrainedStaysOut(q, ticket);
      }
    }
  }

  lemma {:induction false} DrainedStaysOut(p: Pool, ticket: nat)
    requires ticket !in Tickets(p.queued)
    ensures ticket !in Tickets(Drain(p).queued)
    decreases |p.queued|
  {
    if !(p.stopping || |p.jobs| >= SLOTS || p.queued == []) {
      QueueHeadAndTail(p.queued);
      DrainedStaysOut(StartHead(p), ticket);
    }
  }

  /** One event against a waiting job: it leaves the queue, or moves up at least by the completions. */
  lemma PlaceStep(p: Pool, e: Event, ticket: nat)
    requires Inv(p) && ticket in Tickets(p.queued)
    ensures var q := Step(p, e);
      ticket in Tickets(q.queued) ==>
        Place(q.queued, ticket) + (if e.Complete? && e.id in p.jobs then 1 else 0) <= Place(p.queued, ticket)
  {
    hide Drain, Increasing, DistinctIds, Accounted;
    match e
    case Schedule(id) =>
      if !(id in p.jobs || IsQueued(p.queued, id) || p.stopping) {
        // All four slots are busy, because a job is waiting.
        PlaceAppend(p.queued, Waiting(id, p.accepted), ticket);
        BusyDrain(Appended(p, id));
      }
    case Complete(id) =>
      if id in p.jobs {
        EndFreesASlot(p, id);
        PlaceDrain(Ended(p, id), ticket);
      }
    case Cancel(id) =>
      if ticket in Tickets(Without(p.queued, id)) {
        PlaceWithout(p.queued, id, ticket);
      }
    case Stop =>
  }

  lemma BusyDrain(p: Pool)
    requires |p.jobs| >= SLOTS
    ensures Drain(p) == p
  {}

  lemma TicketStaysOut(p: Pool, e: Event, ticket: nat)
    requires Inv(p) && ticket < p.accepted && ticket !in Tickets(p.queued)
    ensures ticket !in Tickets(Step(p, e).queued) && ticket < Step(p, e).accepted
  {
    hide Drain, Increasing, DistinctIds, Inv;
    match e
    case Schedule(id) =>
      if !(id in p.jobs || IsQueued(p.queued, id) || p.stopping) {
        var q := Appended(p, id);
        QueueAndLast(p.queued, Waiting(id, p.accepted));
        assert ticket !in Tickets(q.queued);
        DrainedStaysOut(q, ticket);
        DrainKeepsAccepted(q);
      }
    case Complete(id) =>
      if id in p.jobs {
        DrainedStaysOut(Ended(p, id), ticket);
        DrainKeepsAccepted(Ended(p, id));
      }
    case Cancel(id) => WithoutMembers(p.queued, id);
    case Stop =>
  }

  lemma {:induction false} DrainKeepsAccepted(p: Pool)
    ensures Drain(p).accepted == p.accepted && Drain(p).dropped == p.dropped && Drain(p).stopping == p.stopping
    decreases |p.queued|
  {
    if !(p.stopping || |p.jobs| >= SLOTS || p.queued == []) {
      DrainKeepsAccepted(StartHead(p));
    }
  }

  lemma {:induction false} PlaceRun(p: Pool, events: seq<Event>, ticket: nat)
    requires Inv(p) && ticket < p.accepted
    ensures ticket in Tickets(Run(p, events).queued) ==>
      ticket in Tickets(p.queued) && Place(Run(p, events).queued, ticket) + Completions(p, events) <= Place(p.queued, ticket)
    ensures ticket < Run(p, events).accepted
    decreases |events|
  {
    hide Inv, Step, Tickets, Place;
    if events != [] {
      var q := Step(p, events[0]);
      StepKeeps(p, events[0]);
      if ticket in Tickets(p.queued) {
        PlaceStep(p, events[0], ticket);
        AcceptedGrows(p, events[0]);
      } else {
        TicketStaysOut(p, events[0], ticket);
      }
      PlaceRun(q, events[1..], ticket);
    }
  }

  lemma AcceptedGrows(p: Pool, e: Event)
    ensures p.accepted <= Step(p, e).accepted
  {
    hide Drain;
    if e.Schedule? {
      DrainKeepsAccepted(Appended(p, e.id));
    }
    if e.Complete? && e.id in p.jobs {
      DrainKeepsAccepted(Ended(p, e.id));
    }
  }

  /** A job with k queued ahead has started, or was cancelled, after at most k + 1 completions. */
  lemma WaitIsBounded(p: Pool, events: seq<Event>, ticket: nat)
    requires Inv(p) && ticket in Tickets(p.queued) && Completions(p, events) > Place(p.queued, ticket)
    ensures ticket in Run(p, events).started || ticket in Run(p, events).dropped
  {
    hide Place, Completions, Run;
    assert ticket < p.accepted by {
      var w :| w in p.queued && w.ticket == ticket;
    }
    RunKeeps(p, events);
    PlaceRun(p, events, ticket);
  }

  // ---------------------------------------------------------------- the pool

  class ConsoleJobs {
    var jobs: map<Id, nat>
    var queued: seq<Waiting>
    var stopping: bool
    var accepted: nat
    ghost var started: seq<nat>
    ghost var finished: set<nat>
    ghost var dropped: set<nat>

    ghost function Current(): Pool reads this { Pool(jobs, queued, stopping, accepted, started, finished, dropped) }

    ghost predicate Valid() reads this { Inv(Current()) }

    constructor ()
      ensures Current() == Empty && Valid()
    {
      jobs, queued, stopping, accepted, started, finished, dropped := map[], [], false, 0, [], {}, {};
      new;
      EmptyIsFine();
    }

    method DrainQueue()
      modifies this
      ensures Current() == Drain(old(Current()))
    {
      while !stopping && |jobs| < SLOTS && queued != []
        invariant Drain(Current()) == Drain(old(Current()))
        decreases |queued|
      {
        var next := queued[0];
        queued := queued[1..];
        jobs := jobs[next.id := next.ticket];
        started := started + [next.ticket];
      }
    }

    /** False where the console is stopping and the call throws. */
    method ScheduleJob(id: Id) returns (ok: bool)
      requires Valid()
      modifies this
      ensures Valid() && Current() == Step(old(Current()), Schedule(id))
      ensures ok <==> id in old(jobs) || IsQueued(old(queued), id) || !old(stopping)
    {
      hide Inv, Drain;
      StepKeeps(Current(), Schedule(id));
      if id in jobs || IsQueued(queued, id) {
        return true;
      }
      if stopping {
        return false;
      }
      queued := queued + [Waiting(id, accepted)];
      accepted := accepted + 1;
      DrainQueue();
      return true;
    }

    /** The end of a running job. */
    method JobEnded(id: Id)
      requires Valid()
      modifies this
      ensures Valid() && Current() == Step(old(Current()), Complete(id))
    {
      hide Inv, Drain;
      StepKeeps(Current(), Complete(id));
      if id in jobs {
        finished := finished + {jobs[id]};
        jobs := jobs - {id};
        DrainQueue();
      }
    }

    method CancelQueued(id: Id)
      requires Valid()
      modifies this
      ensures Valid() && Current() == Step(old(Current()), Cancel(id))
    {
      hide Inv;
      StepKeeps(Current(), Cancel(id));
      var rest := Without(queued, id);
      dropped := dropped + (Tickets(queued) - Tickets(rest));
      queued := rest;
    }

    method StopAll()
      requires Valid()
      modifies this
      ensures Valid() && Current() == Step(old(Current()), Stop)
    {
      hide Inv;
      StepKeeps(Current(), Stop);
      stopping := true;
      dropped := dropped + Tickets(queued);
      queued := [];
    }
  }
}
