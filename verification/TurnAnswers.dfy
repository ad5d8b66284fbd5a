/** packages/codex-adapter/src/live-execution.ts: the answer of a turn, and under whose authority the turn was sent. */
module TurnAnswers {
  import opened Options
  import opened TurnEvents
  import opened TurnRuns
  import opened TurnAcceptance

  // ---------------------------------------------------------------- the answer

  /** The responseText getter. */
  function ResponseText(m: Messages): Utf8 {
    if m.finalAnswerText.Some? then m.finalAnswerText.value
    else if m.lastCompletedAgentText.Some? then m.lastCompletedAgentText.value
    else m.responseText
  }

  predicate IsMessage(n: Notification) { n.ItemCompleted? && n.item.itemType.AgentMessage? }

  predicate IsFinal(n: Notification) { IsMessage(n) && n.item.phase.FinalAnswer? }

  predicate Streams(n: Notification, id: Id) { n.AgentDelta? && n.itemId == Some(id) }

  ghost predicate Streamed(h: seq<Notification>, id: Id) { exists n :: n in h && Streams(n, id) }

  /** The text of the last completed message. */
  function LastMessage(h: seq<Notification>): Option<Utf8> {
    if h == [] then None else if IsMessage(h[|h| - 1]) then h[|h| - 1].item.text else LastMessage(h[..|h| - 1])
  }

  /** What was said, in order: the streamed pieces, and whole messages of which nothing was streamed before. */
  ghost function Spoken(h: seq<Notification>): Utf8 {
    if h == [] then []
    else
      var front, n := h[..|h| - 1], h[|h| - 1];
      Spoken(front) +
      (if n.AgentDelta? && n.delta.Some? then n.delta.value
       else if IsMessage(n) && n.item.id.Some? && n.item.text.Some? && !Streamed(front, n.item.id.value) then n.item.text.value
       else [])
  }

  /** The messages are what the accepted notifications said. */
  ghost predicate Told(m: Messages, h: seq<Notification>) {
    && (forall id :: id in m.completedAgentIds <==> exists n :: n in h && CompletesMessage(n, id))
    && (forall id :: id in m.deltaItemIds <==> Streamed(h, id))
    && (m.sawMessagePhase <==> exists n :: n in h && IsMessage(n) && !n.item.phase.NoPhase?)
    && (forall n :: n in h && IsFinal(n) ==> n.item.text.Some? && n.item.text == m.finalAnswerText)
    && (m.finalAnswerText.Some? ==> exists n :: n in h && IsFinal(n))
    && m.lastCompletedAgentText == LastMessage(h)
    && m.responseText == Spoken(h)
  }

  lemma InLonger(h: seq<Notification>, n: Notification)
    ensures forall o :: o in h + [n] <==> o in h || o == n
    ensures (h + [n])[..|h|] == h && (h + [n])[|h|] == n
  {
    forall o ensures o in h + [n] <==> o in h || o == n {}
  }

  lemma SaysTold(m: Messages, u: Messages, h: seq<Notification>, n: Notification)
    requires Told(m, h) && Says(m, u, n) && (IsFinal(n) ==> m.finalAnswerText.None?)
    ensures Told(u, h + [n])
  {
    hide Spoken, LastMessage;
    InLonger(h, n);
    SpokenGrows(h, n);
    forall id ensures Streamed(h + [n], id) <==> Streamed(h, id) || Streams(n, id) {}
    forall id ensures (exists o :: o in h + [n] && CompletesMessage(o, id)) <==>
      (exists o :: o in h && CompletesMessage(o, id)) || CompletesMessage(n, id)
    {}
    assert n in h + [n];
    assert u.sawMessagePhase <==> exists o :: o in h + [n] && IsMessage(o) && !o.item.phase.NoPhase?;
    assert forall o :: o in h + [n] && IsFinal(o) ==> o.item.text.Some? && o.item.text == u.finalAnswerText;
    assert u.finalAnswerText.Some? ==> exists o :: o in h + [n] && IsFinal(o);
    assert u.lastCompletedAgentText == LastMessage(h + [n]);
    assert u.responseText == Spoken(h + [n]);
    assert forall id :: id in u.completedAgentIds <==> exists o :: o in h + [n] && CompletesMessage(o, id);
  }

  lemma SpokenGrows(h: seq<Notification>, n: Notification)
    ensures LastMessage(h + [n]) == if IsMessage(n) then n.item.text else LastMessage(h)
    ensures Spoken(h + [n]) == Spoken(h) +
      (if n.AgentDelta? && n.delta.Some? then n.delta.value
       else if IsMessage(n) && n.item.id.Some? && n.item.text.Some? && !Streamed(h, n.item.id.value) then n.item.text.value
       else [])
  {
    InLonger(h, n);
  }

  /** No notification was refused; the client closes the connection when one is. */
  ghost predicate Undisturbed(t: Tracker, policy: Policy, max: nat, events: seq<Event>)
    decreases |events|
  {
    events == [] ||
    ((events[0].Notify? ==> Step(t, policy, max, events[0]).ok) && Undisturbed(Step(t, policy, max, events[0]).t, policy, max, events[1..]))
  }

  lemma StepTold(t: Tracker, policy: Policy, max: nat, e: Event)
    requires Inv(t) && Told(t.messages, t.history) && (e.Notify? ==> Step(t, policy, max, e).ok)
    ensures Told(Step(t, policy, max, e).t.messages, Step(t, policy, max, e).t.history)
  {
    hide Told, Inv, HandleNotification, Says;
    if e.Notify? {
      AcceptedExactly(t, policy, max, e.n);
      AcceptanceChanges(t, policy, max, e.n);
      hide ToolEffect, ToolFits, InOrder, Starts, Completions;
      SaysTold(t.messages, Step(t, policy, max, e).t.messages, t.history, e.n);
    }
  }

  lemma {:induction false} RunTold(t: Tracker, policy: Policy, max: nat, events: seq<Event>)
    requires Inv(t) && Told(t.messages, t.history) && Undisturbed(t, policy, max, events)
    ensures Told(Run(t, policy, max, events).messages, Run(t, policy, max, events).history)
    decreases |events|
  {
    hide Told, Inv, Step;
    if events != [] {
      StepTold(t, policy, max, events[0]);
      StepKeepsInv(t, policy, max, events[0]);
      RunTold(Step(t, policy, max, events[0]).t, policy, max, events[1..]);
    }
  }

  lemma StepKeepsInv(t: Tracker, policy: Policy, max: nat, e: Event)
    requires Inv(t)
    ensures Inv(Step(t, policy, max, e).t)
  {
    hide Identities, Tools, Gate, Step;
    StepKeepsIdentities(t, policy, max, e);
    StepKeepsTools(t, policy, max, e);
    StepKeepsGate(t, policy, max, e);
  }

  /**
   * The answer of a finished turn in which nothing was refused: the final answer, if any message said what it is; otherwise
   * the last completed message; and without one, what was streamed.
   */
  lemma AnswerExact(policy: Policy, max: nat, events: seq<Event>)
    requires Undisturbed(Fresh, policy, max, events) && Run(Fresh, policy, max, events).terminal.Some?
    ensures var t := Run(Fresh, policy, max, events); var h := t.history;
      && ((exists n :: n in h && IsMessage(n) && !n.item.phase.NoPhase?) ==>
            (exists n :: n in h && IsFinal(n)) && forall n :: n in h && IsFinal(n) ==> n.item.text == Some(ResponseText(t.messages)))
      && ((forall n :: n in h && IsMessage(n) ==> n.item.phase.NoPhase?) && (exists n :: n in h && IsMessage(n)) ==>
            LastMessage(h) == Some(ResponseText(t.messages)))
      && ((forall n :: n in h ==> !IsMessage(n)) ==> ResponseText(t.messages) == Spoken(h))
  {
    assert Told(Fresh.messages, Fresh.history);
    hide Run, Spoken, Identities, Tools, Ends;
    FreshInv();
    RunKeepsInv(Fresh, policy, max, events);
    RunTold(Fresh, policy, max, events);
    var t := Run(Fresh, policy, max, events);
    MessagesHaveTexts(policy, max, events);
    LastMessageExact(t.history);
  }

  lemma {:induction false} LastMessageExact(h: seq<Notification>)
    requires forall n :: n in h && IsMessage(n) ==> n.item.text.Some?
    ensures LastMessage(h).Some? <==> exists n :: n in h && IsMessage(n)
  {
    if h != [] {
      InLonger(h[..|h| - 1], h[|h| - 1]);
      assert h == h[..|h| - 1] + [h[|h| - 1]];
      if !IsMessage(h[|h| - 1]) { LastMessageExact(h[..|h| - 1]); }
    }
  }

  ghost predicate Texts(t: Tracker) { forall n :: n in t.history && IsMessage(n) ==> n.item.text.Some? }

  lemma StepKeepsTexts(t: Tracker, policy: Policy, max: nat, e: Event)
    requires Texts(t)
    ensures Texts(Step(t, policy, max, e).t)
  {
    hide HandleNotification, ToolEffect;
    if e.Notify? {
      if HandleNotification(t, policy, max, e.n).ok {
        AcceptanceChanges(t, policy, max, e.n);
      } else {
        RefusedKeepsHistory(t, policy, max, e.n);
      }
    }
  }

  lemma RefusedKeepsHistory(t: Tracker, policy: Policy, max: nat, n: Notification)
    requires !HandleNotification(t, policy, max, n).ok
    ensures HandleNotification(t, policy, max, n).t.history == t.history
  {
    hide Process, ToolEffect, Identified;
    ProcessEffect(t, policy, max, n);
  }

  lemma {:induction false} RunKeepsTexts(t: Tracker, policy: Policy, max: nat, events: seq<Event>)
    requires Texts(t)
    ensures Texts(Run(t, policy, max, events))
    decreases |events|
  {
    hide Texts, Step;
    if events != [] {
      StepKeepsTexts(t, policy, max, events[0]);
      RunKeepsTexts(Step(t, policy, max, events[0]).t, policy, max, events[1..]);
    }
  }

  lemma MessagesHaveTexts(policy: Policy, max: nat, events: seq<Event>)
    ensures Texts(Run(Fresh, policy, max, events))
  {
    RunKeepsTexts(Fresh, policy, max, events);
  }

  // ---------------------------------------------------------------- the executor's calls

  /** Whether the last event about the account established it. */
  function SignedIn(events: seq<Event>): bool {
    if events == [] then false
    else
      var e := events[|events| - 1];
      if e.EstablishChatGptAuth? then true
      else if e == Notify(AccountUpdated(false)) then false
      else SignedIn(events[..|events| - 1])
  }

  predicate Breaks(e: Event) { e == Fail || e == Notify(AccountUpdated(false)) }

  ghost predicate Broken(events: seq<Event>) { exists e :: e in events && Breaks(e) }

  lemma BrokenGrows(events: seq<Event>, e: Event)
    ensures Broken(events + [e]) <==> Broken(events) || Breaks(e)
  {
    forall x ensures x in events + [e] <==> x in events || x == e {}
  }

  lemma {:induction false} RunSnoc(t: Tracker, policy: Policy, max: nat, events: seq<Event>, e: Event)
    ensures Run(t, policy, max, events + [e]) == Step(Run(t, policy, max, events), policy, max, e).t
    decreases |events|
  {
    hide Step;
    if events == [] {
      assert ([] + [e])[0] == e && ([] + [e])[1..] == [];
    } else {
      assert (events + [e])[0] == events[0] && (events + [e])[1..] == events[1..] + [e];
      RunSnoc(Step(t, policy, max, events[0]).t, policy, max, events[1..], e);
    }
  }

  lemma StepSignsIn(t: Tracker, policy: Policy, max: nat, e: Event)
    ensures var u := Step(t, policy, max, e).t;
      && (u.chatGptAuthenticated <==> e.EstablishChatGptAuth? || (t.chatGptAuthenticated && e != Notify(AccountUpdated(false))))
      && (u.failed <==> t.failed || e == Fail || e == Notify(AccountUpdated(false)))
  {
    if e.Notify? && !e.n.AccountUpdated? {
      hide Process, ToolEffect, Keeps;
      ProcessEffect(t, policy, max, e.n);
    }
  }

  /** The tracker knows the account as the events leave it, and is failed exactly once one of them broke the connection. */
  lemma {:induction false} SignedInExactly(policy: Policy, max: nat, events: seq<Event>)
    ensures Run(Fresh, policy, max, events).chatGptAuthenticated <==> SignedIn(events)
    ensures Run(Fresh, policy, max, events).failed <==> Broken(events)
    decreases |events|
  {
    hide Run, Step;
    if events != [] {
      var front, e := events[..|events| - 1], events[|events| - 1];
      assert events == front + [e];
      SignedInExactly(policy, max, front);
      RunSnoc(Fresh, policy, max, front, e);
      StepSignsIn(Run(Fresh, policy, max, front), policy, max, e);
      BrokenGrows(front, e);
    } else {
      NothingRun(policy, max);
    }
  }

  lemma NothingRun(policy: Policy, max: nat)
    ensures Run(Fresh, policy, max, []) == Fresh
  {}

  /**
   * The turn is sent exactly for the authorised thread, once, while the account is signed in and the connection stands; the
   * responses name the thread and the turn once, as observed so far, and the turn after it was sent and before it ended.
   */
  lemma CallsExactly(policy: Policy, max: nat, events: seq<Event>, id: Id)
    ensures var t := Run(Fresh, policy, max, events);
      var sent, thread, turn := Step(t, policy, max, TurnStartSent(id)), Step(t, policy, max, ThreadResponse(id)), Step(t, policy, max, TurnResponse(id));
      && (sent.ok <==> SignedIn(events) && !Broken(events) && t.threadId == Some(id) && !t.turnStartSent)
      && sent.t == (if sent.ok then t.(turnStartSent := true) else t)
      && (thread.ok <==> t.threadId.None? && Known(t.observedThreadId, Some(id)))
      && thread.t == (if thread.ok then t.(threadId := Some(id)) else t)
      && (turn.ok <==> t.turnStartSent && t.turnId.None? && Known(t.observedTurnId, Some(id)) && t.terminal.None?)
      && turn.t == (if turn.ok then t.(turnId := Some(id)) else t)
  {
    hide Run, SignedIn, Broken;
    SignedInExactly(policy, max, events);
  }
}
