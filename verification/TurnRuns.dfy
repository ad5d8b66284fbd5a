/** Whole runs of the turn event tracker: identities, the lifecycle of tool items and the terminal gate. */
module TurnRuns {
  import opened Options
  import opened TurnEvents

  // ---------------------------------------------------------------- what one notification may change

  /** What a notification leaves alone, thrown or not. */
  ghost predicate Keeps(t: Tracker, u: Tracker) {
    && u.threadId == t.threadId && u.turnId == t.turnId && u.turnStartSent == t.turnStartSent && u.history == t.history
    && (t.observedThreadId.Some? ==> u.observedThreadId == t.observedThreadId)
    && (t.observedTurnId.Some? ==> u.observedTurnId == t.observedTurnId)
    && (u.observedThreadId.Some? ==> t.threadId.None? || u.observedThreadId == t.threadId || u.observedThreadId == t.observedThreadId)
    && (u.observedTurnId.Some? ==> t.turnId.None? || u.observedTurnId == t.turnId || u.observedTurnId == t.observedTurnId)
  }

  predicate SameAccount(t: Tracker, u: Tracker) { u.chatGptAuthenticated == t.chatGptAuthenticated && u.failed == t.failed }

  predicate TurnEvent(n: Notification) { TurnScoped(n) && !n.TurnCompleted? }

  /** The identity checks passed and left their mark. */
  ghost predicate Identified(t: Tracker, u: Tracker, thread: Option<Id>, turn: Option<Id>) {
    t.turnStartSent && thread.Some? && turn.Some? && u.observedThreadId == thread && u.observedTurnId == turn
  }

  predicate ToolEvent(n: Notification) { (n.ItemStarted? || n.ItemCompleted?) && ToolType(n.item.itemType) }

  /** The effect of a notification on the tool items. */
  ghost predicate ToolEffect(t: Tracker, u: Tracker, policy: Policy, n: Notification) {
    if ToolEvent(n) then
      && ToolAllowed(policy, n.item.itemType) && n.item.id.Some?
      && (n.ItemStarted? ==>
            n.item.id.value !in t.writeToolItems && |t.writeToolItems| < MAX_WRITE_TOOL_ITEMS &&
            u.writeToolItems == t.writeToolItems[n.item.id.value := WriteToolItem(n.item.itemType, Started)])
      && (n.ItemCompleted? ==>
            n.item.id.value in t.writeToolItems &&
            t.writeToolItems[n.item.id.value] == WriteToolItem(n.item.itemType, Started) &&
            u.writeToolItems == t.writeToolItems[n.item.id.value := WriteToolItem(n.item.itemType, Completed)])
    else
      && u.writeToolItems == t.writeToolItems
      && (n.OutputDelta? ==>
            n.itemId.Some? && ToolAllowed(policy, ExpectedType(n.kind)) && n.itemId.value in t.writeToolItems &&
            t.writeToolItems[n.itemId.value] == WriteToolItem(ExpectedType(n.kind), Started))
  }

  lemma IdentityEffect(t: Tracker, thread: Option<Id>, turn: Option<Id>)
    ensures var h := ObserveIdentity(t, thread, turn);
      Keeps(t, h.t) && SameAccount(t, h.t) &&
      h.t.terminal == t.terminal && h.t.writeToolItems == t.writeToolItems && h.t.messages == t.messages &&
      (h.ok ==> Identified(t, h.t, thread, turn))
  {}

  lemma ToolItemEffect(t: Tracker, policy: Policy, n: Notification)
    requires n.ItemStarted? || n.ItemCompleted?
    ensures var h := ObserveItem(t, policy, n.item, n.ItemCompleted?);
      (!h.ok ==> h.t == t) && (h.ok ==> ToolEffect(t, h.t, policy, n) && h.t == t.(writeToolItems := h.t.writeToolItems)) &&
      (h.ok && ToolEvent(n) ==> if n.ItemStarted? then n.item.status.InProgress? else !n.item.status.InProgress?)
  {}

  lemma ItemEffect(t: Tracker, policy: Policy, max: nat, n: Notification)
    requires n.ItemStarted? || n.ItemCompleted?
    ensures var h := HandleItem(t, policy, max, n.thread, n.turn, n.item, n.ItemCompleted?);
      Keeps(t, h.t) && SameAccount(t, h.t) && h.t.terminal == t.terminal &&
      (h.ok ==> Identified(t, h.t, n.thread, n.turn) && ToolEffect(t, h.t, policy, n)) &&
      (!h.ok ==> h.t.writeToolItems == t.writeToolItems)
  {
    hide CompleteAgentMessage, ObserveIdentity, ObserveItem, ToolAllowed, OtherTypeAllowed;
    IdentityEffect(t, n.thread, n.turn);
    var identity := ObserveIdentity(t, n.thread, n.turn);
    if identity.ok {
      ToolItemEffect(identity.t, policy, n);
    }
  }

  lemma OutputEffect(t: Tracker, policy: Policy, n: Notification)
    requires n.OutputDelta?
    ensures var h := HandleOutput(t, policy, n.kind, n.thread, n.turn, n.itemId, n.wellFormed);
      Keeps(t, h.t) && SameAccount(t, h.t) && h.t.terminal == t.terminal && h.t.writeToolItems == t.writeToolItems &&
      (h.ok ==> Identified(t, h.t, n.thread, n.turn) && ToolEffect(t, h.t, policy, n))
  {
    hide ObserveIdentity, ToolAllowed;
    IdentityEffect(t, n.thread, n.turn);
  }

  /** All that a notification can do, thrown or not. */
  ghost predicate Effect(t: Tracker, policy: Policy, n: Notification, h: Handled) {
    && Keeps(t, h.t) && (!n.AccountUpdated? ==> SameAccount(t, h.t))
    && (h.ok && TurnEvent(n) ==> Identified(t, h.t, n.thread, n.turn))
    && (h.ok ==> ToolEffect(t, h.t, policy, n))
    && (!h.ok ==> h.t.writeToolItems == t.writeToolItems)
    && (!h.ok || !n.TurnCompleted? ==> h.t.terminal == t.terminal)
  }

  /** Notifications that check the identity and then something of their own. */
  lemma IdentifiedEffect(t: Tracker, policy: Policy, max: nat, n: Notification)
    requires n.TurnStarted? || n.AgentDelta? || n.TokenUsage?
    ensures Effect(t, policy, n, Process(t, policy, max, n))
  {
    hide ObserveIdentity, AppendAgentText, ToolAllowed;
    IdentityEffect(t, n.thread, n.turn);
  }

  lemma UnidentifiedEffect(t: Tracker, policy: Policy, max: nat, n: Notification)
    requires !TurnEvent(n)
    ensures Effect(t, policy, n, Process(t, policy, max, n))
  {
    hide ToolAllowed;
  }

  lemma ProcessEffect(t: Tracker, policy: Policy, max: nat, n: Notification)
    ensures Effect(t, policy, n, Process(t, policy, max, n))
  {
    hide HandleItem, HandleOutput, HandleAgentDelta, HandleTurnCompleted, ToolAllowed, ObserveIdentity, ToolEffect, Keeps, Identified;
    if n.ItemStarted? || n.ItemCompleted? {
      ItemEffect(t, policy, max, n);
    } else if n.OutputDelta? {
      OutputEffect(t, policy, n);
    } else if TurnEvent(n) {
      IdentifiedEffect(t, policy, max, n);
    } else {
      UnidentifiedEffect(t, policy, max, n);
    }
  }

  // ---------------------------------------------------------------- identities

  ghost predicate Identities(t: Tracker) {
    && (t.threadId.Some? && t.observedThreadId.Some? ==> t.threadId == t.observedThreadId)
    && (t.turnId.Some? && t.observedTurnId.Some? ==> t.turnId == t.observedTurnId)
    && (t.turnStartSent ==> t.threadId.Some?)
    && (t.turnId.Some? ==> t.turnStartSent)
    && (forall n :: n in t.history && TurnEvent(n) ==>
          t.turnStartSent && n.thread.Some? && n.turn.Some? && n.thread == t.observedThreadId && n.turn == t.observedTurnId)
    && (forall n :: n in t.history && n.TurnCompleted? ==> n.thread == t.threadId && n.turn == t.turnId && t.turnId.Some?)
  }

  lemma NotifyKeepsIdentities(t: Tracker, policy: Policy, max: nat, n: Notification)
    requires Identities(t)
    ensures Identities(HandleNotification(t, policy, max, n).t)
  {
    ProcessEffect(t, policy, max, n);
    hide ToolEffect;
    if !n.TurnCompleted? {
      hide Process;
    }
  }

  lemma StepKeepsIdentities(t: Tracker, policy: Policy, max: nat, e: Event)
    requires Identities(t)
    ensures Identities(Step(t, policy, max, e).t)
  {
    if e.Notify? {
      hide Identities;
      NotifyKeepsIdentities(t, policy, max, e.n);
    }
  }

  // ---------------------------------------------------------------- tool items

  predicate StartsTool(n: Notification, id: Id) { n.ItemStarted? && ToolType(n.item.itemType) && n.item.id == Some(id) }

  predicate CompletesTool(n: Notification, id: Id) { n.ItemCompleted? && ToolType(n.item.itemType) && n.item.id == Some(id) }

  function Starts(h: seq<Notification>, id: Id): nat {
    if h == [] then 0 else Starts(h[..|h| - 1], id) + if StartsTool(h[|h| - 1], id) then 1 else 0
  }

  function Completions(h: seq<Notification>, id: Id): nat {
    if h == [] then 0 else Completions(h[..|h| - 1], id) + if CompletesTool(h[|h| - 1], id) then 1 else 0
  }

  ghost predicate StartedAs(h: seq<Notification>, id: Id, itemType: ItemType) {
    exists n :: n in h && StartsTool(n, id) && n.item.itemType == itemType
  }

  /** The tool with this id runs: it was started once, as this type, and has not completed. */
  ghost predicate Running(h: seq<Notification>, id: Id, itemType: ItemType) {
    Starts(h, id) == 1 && Completions(h, id) == 0 && StartedAs(h, id, itemType)
  }

  /** A tool starts once, completes while it runs, and puts out only while it runs. */
  ghost predicate InOrder(before: seq<Notification>, n: Notification) {
    && (forall id :: StartsTool(n, id) ==> Starts(before, id) == 0)
    && (forall id :: CompletesTool(n, id) ==> Running(before, id, n.item.itemType))
    && (n.OutputDelta? ==> n.itemId.Some? && Running(before, n.itemId.value, ExpectedType(n.kind)))
  }

  ghost predicate ToolOrder(h: seq<Notification>) { forall k :: 0 <= k < |h| ==> InOrder(h[..k], h[k]) }

  ghost predicate Mirrors(items: map<Id, WriteToolItem>, h: seq<Notification>, id: Id) {
    && Starts(h, id) == (if id in items then 1 else 0)
    && Completions(h, id) == (if id in items && items[id].state.Completed? then 1 else 0)
    && (id in items ==> StartedAs(h, id, items[id].itemType))
  }

  ghost predicate Tools(t: Tracker) {
    && (forall id :: Mirrors(t.writeToolItems, t.history, id))
    && ToolOrder(t.history)
    && |t.writeToolItems| <= MAX_WRITE_TOOL_ITEMS
  }

  lemma OneMore(h: seq<Notification>, n: Notification, id: Id)
    ensures Starts(h + [n], id) == Starts(h, id) + if StartsTool(n, id) then 1 else 0
    ensures Completions(h + [n], id) == Completions(h, id) + if CompletesTool(n, id) then 1 else 0
    ensures forall itemType :: StartedAs(h + [n], id, itemType) <==>
      StartedAs(h, id, itemType) || (StartsTool(n, id) && n.item.itemType == itemType)
  {
    assert (h + [n])[..|h|] == h;
    forall m ensures m in h + [n] <==> m in h || m == n {}
  }

  lemma OrderGrows(h: seq<Notification>, n: Notification)
    requires ToolOrder(h) && InOrder(h, n)
    ensures ToolOrder(h + [n])
  {
    hide InOrder;
    var longer := h + [n];
    forall k | 0 <= k < |longer| ensures InOrder(longer[..k], longer[k]) {
      if k < |h| {
        assert longer[..k] == h[..k];
      } else {
        assert longer[..k] == h;
      }
    }
  }

  lemma AcceptedInOrder(t: Tracker, u: Tracker, policy: Policy, n: Notification)
    requires Tools(t) && ToolEffect(t, u, policy, n)
    ensures InOrder(t.history, n)
  {
    hide Starts, Completions, StartedAs, ToolOrder, ToolAllowed;
    forall id: Id | StartsTool(n, id) || CompletesTool(n, id) || (n.OutputDelta? && n.itemId == Some(id))
      ensures Mirrors(t.writeToolItems, t.history, id)
    {}
    if n.OutputDelta? {
      assert Mirrors(t.writeToolItems, t.history, n.itemId.value);
    }
  }

  lemma MirrorsGrow(t: Tracker, u: Tracker, policy: Policy, n: Notification, id: Id)
    requires Mirrors(t.writeToolItems, t.history, id) && ToolEffect(t, u, policy, n)
    ensures Mirrors(u.writeToolItems, t.history + [n], id)
  {
    hide Starts, Completions, StartedAs, ToolAllowed;
    OneMore(t.history, n, id);
  }

  lemma ToolCount(t: Tracker, u: Tracker, policy: Policy, n: Notification)
    requires |t.writeToolItems| <= MAX_WRITE_TOOL_ITEMS && ToolEffect(t, u, policy, n)
    ensures |u.writeToolItems| <= MAX_WRITE_TOOL_ITEMS
  {
    hide ToolAllowed;
    if ToolEvent(n) && n.ItemCompleted? {
      assert u.writeToolItems.Keys == t.writeToolItems.Keys;
      assert |u.writeToolItems| == |u.writeToolItems.Keys| == |t.writeToolItems.Keys| == |t.writeToolItems|;
    }
  }

  lemma AcceptedKeepsTools(t: Tracker, u: Tracker, policy: Policy, n: Notification)
    requires Tools(t) && ToolEffect(t, u, policy, n) && u.history == t.history
    ensures Tools(u.(history := t.history + [n]))
  {
    AcceptedInOrder(t, u, policy, n);
    hide Mirrors, ToolOrder, ToolEffect, InOrder;
    OrderGrows(t.history, n);
    ToolCount(t, u, policy, n);
    forall id ensures Mirrors(u.writeToolItems, t.history + [n], id) {
      MirrorsGrow(t, u, policy, n, id);
    }
  }

  lemma StepKeepsTools(t: Tracker, policy: Policy, max: nat, e: Event)
    requires Tools(t)
    ensures Tools(Step(t, policy, max, e).t)
  {
    hide Process, ToolOrder, Mirrors, ToolEffect;
    if e.Notify? && !(t.terminal.Some? && TurnScoped(e.n)) {
      ProcessEffect(t, policy, max, e.n);
      var h := Process(t, policy, max, e.n);
      if h.ok {
        AcceptedKeepsTools(t, h.t, policy, e.n);
      }
    }
  }

  // ---------------------------------------------------------------- the terminal gate

  function Ends(h: seq<Notification>): nat {
    if h == [] then 0 else Ends(h[..|h| - 1]) + if h[|h| - 1].TurnCompleted? then 1 else 0
  }

  lemma {:induction false} SomeEnd(h: seq<Notification>)
    ensures Ends(h) > 0 ==> exists n :: n in h && n.TurnCompleted?
  {
    if h != [] {
      SomeEnd(h[..|h| - 1]);
      assert h[|h| - 1] in h;
    }
  }

  lemma OneMoreEnd(h: seq<Notification>, n: Notification)
    ensures Ends(h + [n]) == Ends(h) + if n.TurnCompleted? then 1 else 0
  {
    assert (h + [n])[..|h|] == h;
  }

  /** The terminal event stands exactly when one turn/completed was accepted, and only over a finished turn. */
  ghost predicate Gate(t: Tracker) {
    && Ends(t.history) == (if t.terminal.Some? then 1 else 0)
    && (t.terminal.Some? ==> t.turnStartSent && t.threadId.Some? && t.turnId.Some? && ToolsDone(t))
    && (t.terminal.Some? && t.messages.sawMessagePhase ==> t.messages.finalAnswerText.Some?)
    && (forall n :: n in t.history && n.TurnCompleted? ==> n.status.Some? && n.status == t.terminal)
  }

  lemma OutsideTheTurn(t: Tracker, policy: Policy, max: nat, n: Notification)
    requires !TurnScoped(n)
    ensures var u := Process(t, policy, max, n).t;
      u.messages == t.messages && u.writeToolItems == t.writeToolItems && u.terminal == t.terminal &&
      u.threadId == t.threadId && u.turnId == t.turnId && u.turnStartSent == t.turnStartSent && u.history == t.history
  {}

  lemma TurnCompletedKeepsGate(t: Tracker, policy: Policy, max: nat, n: Notification)
    requires Gate(t) && n.TurnCompleted?
    ensures Gate(HandleNotification(t, policy, max, n).t)
  {
    hide Ends;
    OneMoreEnd(t.history, n);
  }

  lemma NotifyKeepsGate(t: Tracker, policy: Policy, max: nat, n: Notification)
    requires Gate(t) && !n.TurnCompleted?
    ensures Gate(HandleNotification(t, policy, max, n).t)
  {
    hide Process, Ends, ToolEffect, Identified;
    OneMoreEnd(t.history, n);
    ProcessEffect(t, policy, max, n);
    if !TurnScoped(n) {
      OutsideTheTurn(t, policy, max, n);
    }
  }

  lemma StepKeepsGate(t: Tracker, policy: Policy, max: nat, e: Event)
    requires Gate(t)
    ensures Gate(Step(t, policy, max, e).t)
  {
    hide HandleNotification, Ends;
    if e.Notify? {
      if e.n.TurnCompleted? {
        TurnCompletedKeepsGate(t, policy, max, e.n);
      } else {
        NotifyKeepsGate(t, policy, max, e.n);
      }
    }
  }

  /** A terminal event never changes. */
  lemma TerminalStands(t: Tracker, policy: Policy, max: nat, e: Event)
    requires t.terminal.Some?
    ensures Step(t, policy, max, e).t.terminal == t.terminal
  {
    hide Process;
    if e.Notify? && !TurnScoped(e.n) {
      OutsideTheTurn(t, policy, max, e.n);
    }
  }

  // ---------------------------------------------------------------- whole runs

  ghost predicate Inv(t: Tracker) { Identities(t) && Tools(t) && Gate(t) }

  lemma FreshInv()
    ensures Inv(Fresh)
  {}

  lemma {:induction false} RunKeepsInv(t: Tracker, policy: Policy, max: nat, events: seq<Event>)
    requires Inv(t)
    ensures Inv(Run(t, policy, max, events))
    decreases |events|
  {
    hide Identities, Tools, Gate, Step;
    if events != [] {
      StepKeepsIdentities(t, policy, max, events[0]);
      StepKeepsTools(t, policy, max, events[0]);
      StepKeepsGate(t, policy, max, events[0]);
      RunKeepsInv(Step(t, policy, max, events[0]).t, policy, max, events[1..]);
    }
  }

  lemma {:induction false} TerminalIsFinal(t: Tracker, policy: Policy, max: nat, events: seq<Event>)
    requires t.terminal.Some?
    ensures Run(t, policy, max, events).terminal == t.terminal
    decreases |events|
  {
    hide Step;
    if events != [] {
      TerminalStands(t, policy, max, events[0]);
      TerminalIsFinal(Step(t, policy, max, events[0]).t, policy, max, events[1..]);
    }
  }

  /**
   * When a run has its terminal event, the turn was sent, one turn/completed was accepted and its status is the terminal
   * one, every accepted turn-scoped notification carried the authorised thread and turn, and every tool that started
   * completed, once each.
   */
  lemma TerminalMeansFinished(policy: Policy, max: nat, events: seq<Event>)
    requires Run(Fresh, policy, max, events).terminal.Some?
    ensures var t := Run(Fresh, policy, max, events);
      && t.turnStartSent && t.threadId.Some? && t.turnId.Some? && Ends(t.history) == 1
      && (t.messages.sawMessagePhase ==> t.messages.finalAnswerText.Some?)
      && (exists n :: n in t.history && n.TurnCompleted?)
      && (forall n :: n in t.history && n.TurnCompleted? ==> n.status == t.terminal)
      && (forall n :: n in t.history && TurnScoped(n) ==> n.thread == t.threadId && n.turn == t.turnId)
      && (forall id :: Starts(t.history, id) == Completions(t.history, id) <= 1)
  {
    hide Run, Ends, Starts, Completions, ToolOrder, StartedAs;
    FreshInv();
    RunKeepsInv(Fresh, policy, max, events);
    var t := Run(Fresh, policy, max, events);
    SomeEnd(t.history);
    forall id ensures Starts(t.history, id) == Completions(t.history, id) <= 1 {
      assert Mirrors(t.writeToolItems, t.history, id);
    }
  }

  /** In every run tools start once, complete once while running, and put out only in between, at most 512 of them. */
  lemma ToolsAreOrdered(policy: Policy, max: nat, events: seq<Event>)
    ensures var t := Run(Fresh, policy, max, events);
      && ToolOrder(t.history) && |t.writeToolItems| <= 512
      && forall id :: id in t.writeToolItems <==> Starts(t.history, id) == 1
  {
    hide Run, Starts, Completions, ToolOrder, StartedAs;
    FreshInv();
    RunKeepsInv(Fresh, policy, max, events);
    var t := Run(Fresh, policy, max, events);
    forall id ensures id in t.writeToolItems <==> Starts(t.history, id) == 1 {
      assert Mirrors(t.writeToolItems, t.history, id);
    }
  }

  // ---------------------------------------------------------------- policies

  ghost predicate WithinPolicy(policy: Policy, n: Notification) {
    && (ToolEvent(n) ==> ToolAllowed(policy, n.item.itemType))
    && (n.OutputDelta? ==> ToolAllowed(policy, ExpectedType(n.kind)))
  }

  lemma StepKeepsPolicy(t: Tracker, policy: Policy, max: nat, e: Event)
    requires forall n :: n in t.history ==> WithinPolicy(policy, n)
    ensures forall n :: n in Step(t, policy, max, e).t.history ==> WithinPolicy(policy, n)
  {
    hide Process, ToolAllowed;
    if e.Notify? && !(t.terminal.Some? && TurnScoped(e.n)) {
      ProcessEffect(t, policy, max, e.n);
    }
  }

  /** Nothing outside the policy is ever accepted: no tool at all when read-only, no file change in a read-only worktree. */
  lemma {:induction false} RunKeepsPolicy(t: Tracker, policy: Policy, max: nat, events: seq<Event>)
    requires forall n :: n in t.history ==> WithinPolicy(policy, n)
    ensures forall n :: n in Run(t, policy, max, events).history ==> WithinPolicy(policy, n)
    decreases |events|
  {
    hide Step, WithinPolicy;
    if events != [] {
      StepKeepsPolicy(t, policy, max, events[0]);
      RunKeepsPolicy(Step(t, policy, max, events[0]).t, policy, max, events[1..]);
    }
  }

  // ---------------------------------------------------------------- agent messages

  ghost predicate Measured(m: Messages, max: nat) {
    && |m.responseText| <= max
    && (m.finalAnswerText.Some? ==> |m.finalAnswerText.value| <= max && m.sawMessagePhase)
    && (m.lastCompletedAgentText.Some? ==> |m.lastCompletedAgentText.value| <= max)
  }

  /** The messages after a step: bounded, with the same final answer once there is one, and only more ids. */
  ghost predicate MessagesGrow(m: Messages, u: Messages, max: nat) {
    && (Measured(m, max) ==> Measured(u, max))
    && (m.finalAnswerText.Some? ==> u.finalAnswerText == m.finalAnswerText)
    && m.completedAgentIds <= u.completedAgentIds && m.deltaItemIds <= u.deltaItemIds
  }

  lemma SaidGrows(m: Messages, max: nat, item: Item, text: Utf8)
    ensures MessagesGrow(m, CompleteAgentMessage(m, max, item).0, max)
    ensures MessagesGrow(m, AppendAgentText(m, max, text).0, max)
    ensures CompleteAgentMessage(m, max, item).1 ==>
      item.id.Some? && item.id.value !in m.completedAgentIds && item.id.value in CompleteAgentMessage(m, max, item).0.completedAgentIds
  {}

  lemma ItemGrowsMessages(t: Tracker, policy: Policy, max: nat, n: Notification)
    requires n.ItemStarted? || n.ItemCompleted?
    ensures MessagesGrow(t.messages, HandleItem(t, policy, max, n.thread, n.turn, n.item, n.ItemCompleted?).t.messages, max)
  {
    hide CompleteAgentMessage, ObserveIdentity, ObserveItem;
    IdentityEffect(t, n.thread, n.turn);
    var identity := ObserveIdentity(t, n.thread, n.turn);
    if identity.ok {
      ToolItemEffect(identity.t, policy, n);
      SaidGrows(t.messages, max, n.item, []);
    }
  }

  lemma DeltaGrowsMessages(t: Tracker, max: nat, n: Notification)
    requires n.AgentDelta?
    ensures MessagesGrow(t.messages, HandleAgentDelta(t, max, n.thread, n.turn, n.itemId, n.delta).t.messages, max)
  {
    hide ObserveIdentity, AppendAgentText;
    IdentityEffect(t, n.thread, n.turn);
    if n.itemId.Some? && n.delta.Some? {
      var item := Item(AgentMessage, None, NoStatus, true, None, NoPhase);
      SaidGrows(t.messages.(deltaItemIds := t.messages.deltaItemIds + {n.itemId.value}), max, item, n.delta.value);
    }
  }

  lemma OthersSayNothing(t: Tracker, policy: Policy, max: nat, n: Notification)
    requires !n.ItemStarted? && !n.ItemCompleted? && !n.AgentDelta?
    ensures Process(t, policy, max, n).t.messages == t.messages
  {
    hide ObserveIdentity, ToolAllowed;
    if TurnEvent(n) {
      IdentityEffect(t, n.thread, n.turn);
    }
  }

  lemma StepGrowsMessages(t: Tracker, policy: Policy, max: nat, e: Event)
    ensures MessagesGrow(t.messages, Step(t, policy, max, e).t.messages, max)
  {
    hide HandleItem, HandleAgentDelta, HandleOutput, HandleTurnCompleted, ObserveIdentity, ObserveThread;
    if e.Notify? {
      if e.n.ItemStarted? || e.n.ItemCompleted? {
        ItemGrowsMessages(t, policy, max, e.n);
      } else if e.n.AgentDelta? {
        DeltaGrowsMessages(t, max, e.n);
      } else {
        OthersSayNothing(t, policy, max, e.n);
      }
    }
  }

  /** In every run the agent's texts stay within their limit, and a final answer, once given, is never replaced. */
  lemma {:induction false} RunGrowsMessages(t: Tracker, policy: Policy, max: nat, events: seq<Event>)
    ensures MessagesGrow(t.messages, Run(t, policy, max, events).messages, max)
    decreases |events|
  {
    hide Step;
    if events != [] {
      StepGrowsMessages(t, policy, max, events[0]);
      RunGrowsMessages(Step(t, policy, max, events[0]).t, policy, max, events[1..]);
    }
  }

  predicate CompletesMessage(n: Notification, id: Id) {
    n.ItemCompleted? && n.item.itemType.AgentMessage? && n.item.id == Some(id)
  }

  ghost predicate MessagesOnce(t: Tracker) {
    && (forall i, j, id :: 0 <= i < j < |t.history| && CompletesMessage(t.history[i], id) ==> !CompletesMessage(t.history[j], id))
    && (forall n, id :: n in t.history && CompletesMessage(n, id) ==> id in t.messages.completedAgentIds)
  }

  lemma CompletedMessageIsNew(t: Tracker, policy: Policy, max: nat, n: Notification, id: Id)
    requires CompletesMessage(n, id) && Process(t, policy, max, n).ok
    ensures id !in t.messages.completedAgentIds && id in Process(t, policy, max, n).t.messages.completedAgentIds
  {
    hide CompleteAgentMessage, OtherTypeAllowed;
    SaidGrows(t.messages, max, n.item, []);
  }

  /** Each agent message is accepted as completed at most once. */
  lemma StepKeepsMessagesOnce(t: Tracker, policy: Policy, max: nat, e: Event)
    requires MessagesOnce(t)
    ensures MessagesOnce(Step(t, policy, max, e).t)
  {
    StepGrowsMessages(t, policy, max, e);
    hide Process;
    if e.Notify? && !(t.terminal.Some? && TurnScoped(e.n)) {
      var h := Process(t, policy, max, e.n);
      ProcessEffect(t, policy, max, e.n);
      hide ToolEffect, Identified;
      if h.ok && e.n.ItemCompleted? && e.n.item.itemType.AgentMessage? && e.n.item.id.Some? {
        CompletedMessageIsNew(t, policy, max, e.n, e.n.item.id.value);
      }
    }
  }

  lemma {:induction false} RunKeepsMessagesOnce(t: Tracker, policy: Policy, max: nat, events: seq<Event>)
    requires MessagesOnce(t)
    ensures MessagesOnce(Run(t, policy, max, events))
    decreases |events|
  {
    hide Step, MessagesOnce;
    if events != [] {
      StepKeepsMessagesOnce(t, policy, max, events[0]);
      RunKeepsMessagesOnce(Step(t, policy, max, events[0]).t, policy, max, events[1..]);
    }
  }
}
