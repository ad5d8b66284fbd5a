/** packages/codex-adapter/src/live-execution.ts: exactly which notifications the turn event tracker accepts. */
module TurnAcceptance {
  import opened Options
  import opened TurnEvents
  import opened TurnRuns

  // ---------------------------------------------------------------- policies

  /** The types every policy lets through. */
  const TALK: set<ItemType> := {UserMessage, AgentMessage, Plan, Reasoning, ContextCompaction}

  /** What a turn may do: only talk, look and run commands, or write files too. */
  function AllowedTypes(policy: Policy): set<ItemType> {
    match policy
    case ReadOnly => TALK
    case ReadOnlyWorktree => TALK + {CommandExecution, WebSearch, ImageView}
    case ConsoleResearch => TALK + {CommandExecution, WebSearch, ImageView, DynamicToolCall}
    case WorkspaceWrite => TALK + {CommandExecution, WebSearch, ImageView, FileChange}
  }

  lemma PolicyExact(policy: Policy, itemType: ItemType)
    ensures (if ToolType(itemType) then ToolAllowed(policy, itemType) else OtherTypeAllowed(policy, itemType)) <==>
      itemType in AllowedTypes(policy)
  {}

  /** No item event of a type outside the policy is accepted in any run, and no output of a tool outside it. */
  lemma {:induction false} RunStaysWithinTypes(t: Tracker, policy: Policy, max: nat, events: seq<Event>)
    requires forall n :: n in t.history ==> TypesFit(policy, n)
    ensures forall n :: n in Run(t, policy, max, events).history ==> TypesFit(policy, n)
    decreases |events|
  {
    hide Step, TypesFit;
    if events != [] {
      StepStaysWithinTypes(t, policy, max, events[0]);
      RunStaysWithinTypes(Step(t, policy, max, events[0]).t, policy, max, events[1..]);
    }
  }

  predicate TypesFit(policy: Policy, n: Notification) {
    && (n.ItemStarted? || n.ItemCompleted? ==> n.item.itemType in AllowedTypes(policy))
    && (n.OutputDelta? ==> (if n.kind.CommandOutput? then CommandExecution else FileChange) in AllowedTypes(policy))
  }

  lemma StepStaysWithinTypes(t: Tracker, policy: Policy, max: nat, e: Event)
    requires forall n :: n in t.history ==> TypesFit(policy, n)
    ensures forall n :: n in Step(t, policy, max, e).t.history ==> TypesFit(policy, n)
  {
    hide ToolAllowed, OtherTypeAllowed, AllowedTypes, Process;
    if e.Notify? && !(t.terminal.Some? && TurnScoped(e.n)) {
      ProcessEffect(t, policy, max, e.n);
      hide ToolEffect, Identified;
      if Process(t, policy, max, e.n).ok { AcceptedTypesFit(t, policy, max, e.n); }
    }
  }

  lemma AcceptedTypesFit(t: Tracker, policy: Policy, max: nat, n: Notification)
    requires Process(t, policy, max, n).ok
    ensures TypesFit(policy, n)
  {
    hide AllowedTypes, ToolAllowed, OtherTypeAllowed, ObserveIdentity, CompleteAgentMessage, StartTool, CompleteTool;
    if n.ItemStarted? || n.ItemCompleted? { PolicyExact(policy, n.item.itemType); }
    if n.OutputDelta? { PolicyExact(policy, ExpectedType(n.kind)); }
  }

  // ---------------------------------------------------------------- what is accepted

  predicate Known(known: Option<Id>, id: Option<Id>) { known.None? || known == id }

  /** The thread is named, and is the authorised and the observed one as far as these are known. */
  predicate ThreadFits(t: Tracker, thread: Option<Id>) { thread.Some? && Known(t.threadId, thread) && Known(t.observedThreadId, thread) }

  predicate TurnFits(t: Tracker, turn: Option<Id>) { turn.Some? && Known(t.turnId, turn) && Known(t.observedTurnId, turn) }

  predicate InTurn(t: Tracker, thread: Option<Id>, turn: Option<Id>) {
    t.terminal.None? && t.turnStartSent && ThreadFits(t, thread) && TurnFits(t, turn)
  }

  function StartedIds(h: seq<Notification>): set<Id> {
    set n | n in h && n.ItemStarted? && ToolType(n.item.itemType) && n.item.id.Some? :: n.item.id.value
  }

  /** The tool completed as often as it started. */
  ghost predicate Through(h: seq<Notification>, id: Id) { Starts(h, id) == Completions(h, id) }

  /** A tool item in its order, with its status, and room for it. */
  ghost predicate ToolFits(h: seq<Notification>, n: Notification)
    requires n.ItemStarted? || n.ItemCompleted?
  {
    && n.item.id.Some? && n.item.wellFormed && InOrder(h, n)
    && (n.ItemStarted? <==> n.item.status.InProgress?) && (n.ItemStarted? ==> |StartedIds(h)| < 512)
  }

  /** A completed message is new and fits, and there is one final answer at most. */
  predicate MessageFits(m: Messages, max: nat, item: Item) {
    && item.id.Some? && item.id.value !in m.completedAgentIds && item.text.Some? && |item.text.value| <= max
    && !item.phase.OtherPhase? && (item.phase.FinalAnswer? ==> m.finalAnswerText.None?)
    && (item.id.value in m.deltaItemIds || |m.responseText| + |item.text.value| <= max)
  }

  ghost predicate ItemFits(t: Tracker, policy: Policy, max: nat, n: Notification)
    requires n.ItemStarted? || n.ItemCompleted?
  {
    && n.item.itemType in AllowedTypes(policy)
    && if ToolType(n.item.itemType) then ToolFits(t.history, n)
       else
         && (if n.ItemStarted? then !n.item.status.OtherStatus? else !n.item.status.InProgress?)
         && (n.item.itemType.ContextCompaction? ==> n.item.id.Some?)
         && (n.ItemCompleted? && n.item.itemType.AgentMessage? ==> MessageFits(t.messages, max, n.item))
  }

  /** What the tracker accepts. */
  ghost predicate Admissible(t: Tracker, policy: Policy, max: nat, n: Notification) {
    match n
    case Unrecognised => true
    case AccountUpdated(_) => true
    case ThreadStarted(thread, ephemeral) => ephemeral && ThreadFits(t, thread)
    case RequestResolved(thread, wellFormed) => ThreadFits(t, thread) && wellFormed
    case TurnStarted(thread, turn, inProgress) => InTurn(t, thread, turn) && inProgress
    case TokenUsage(thread, turn, wellFormed) => InTurn(t, thread, turn) && wellFormed
    case ItemStarted(thread, turn, _) => InTurn(t, thread, turn) && ItemFits(t, policy, max, n)
    case ItemCompleted(thread, turn, _) => InTurn(t, thread, turn) && ItemFits(t, policy, max, n)
    case OutputDelta(kind, thread, turn, itemId, wellFormed) =>
      InTurn(t, thread, turn) && TypesFit(policy, n) && InOrder(t.history, n) && wellFormed
    case AgentDelta(thread, turn, itemId, delta) =>
      InTurn(t, thread, turn) && itemId.Some? && delta.Some? && |t.messages.responseText| + |delta.value| <= max
    case TurnCompleted(thread, turn, status) =>
      && t.terminal.None? && t.turnStartSent && thread.Some? && thread == t.threadId && turn.Some? && turn == t.turnId
      && status.Some? && (t.messages.sawMessagePhase ==> t.messages.finalAnswerText.Some?)
      && forall id :: Through(t.history, id)
  }

  lemma StartedAreTools(t: Tracker)
    requires Tools(t)
    ensures StartedIds(t.history) == t.writeToolItems.Keys && |StartedIds(t.history)| == |t.writeToolItems|
  {
    hide Completions, ToolOrder, StartedAs;
    forall id ensures id in StartedIds(t.history) <==> id in t.writeToolItems {
      assert Mirrors(t.writeToolItems, t.history, id);
      StartCounted(t.history, id);
    }
    assert |t.writeToolItems.Keys| == |t.writeToolItems|;
  }

  lemma {:induction false} StartCounted(h: seq<Notification>, id: Id)
    ensures Starts(h, id) > 0 <==> exists n :: n in h && StartsTool(n, id)
  {
    if h != [] {
      StartCounted(h[..|h| - 1], id);
      assert h == h[..|h| - 1] + [h[|h| - 1]];
    }
  }

  lemma {:induction false} OneStart(h: seq<Notification>, id: Id, a: Notification, b: Notification)
    requires Starts(h, id) <= 1 && a in h && b in h && StartsTool(a, id) && StartsTool(b, id)
    ensures a == b
  {
    var front, last := h[..|h| - 1], h[|h| - 1];
    assert h == front + [last];
    StartCounted(front, id);
    if a != last && b != last { OneStart(front, id, a, b); }
  }

  /** The tool table says in which state the history has a tool. */
  lemma RunningExactly(t: Tracker, id: Id, itemType: ItemType)
    requires Tools(t)
    ensures Running(t.history, id, itemType) <==> id in t.writeToolItems && t.writeToolItems[id] == WriteToolItem(itemType, Started)
    ensures Starts(t.history, id) == 0 <==> id !in t.writeToolItems
  {
    hide ToolOrder, Starts, Completions;
    assert Mirrors(t.writeToolItems, t.history, id);
    if Running(t.history, id, itemType) {
      var a :| a in t.history && StartsTool(a, id) && a.item.itemType == itemType;
      var b :| b in t.history && StartsTool(b, id) && b.item.itemType == t.writeToolItems[id].itemType;
      OneStart(t.history, id, a, b);
    }
  }

  lemma DoneExactly(t: Tracker)
    requires Tools(t)
    ensures ToolsDone(t) <==> forall id :: Through(t.history, id)
  {
    hide ToolOrder, Starts, Completions, StartedAs;
    forall id ensures Through(t.history, id) <==> (id in t.writeToolItems ==> t.writeToolItems[id].state.Completed?) {
      assert Mirrors(t.writeToolItems, t.history, id);
    }
  }

  lemma IdentityExactly(t: Tracker, thread: Option<Id>, turn: Option<Id>)
    ensures var h := ObserveIdentity(t, thread, turn);
      && (h.ok <==> t.turnStartSent && ThreadFits(t, thread) && TurnFits(t, turn))
      && (h.ok ==> h.t == t.(observedThreadId := thread, observedTurnId := turn))
  {}

  lemma ToolExactly(t: Tracker, n: Notification)
    requires Tools(t) && (n.ItemStarted? || n.ItemCompleted?) && ToolType(n.item.itemType)
    ensures (if n.ItemCompleted? then CompleteTool(t, n.item) else StartTool(t, n.item)).ok <==> ToolFits(t.history, n)
  {
    hide Tools, Running, Starts, Completions, StartedIds;
    StartedAreTools(t);
    if n.item.id.Some? {
      var id := n.item.id.value;
      RunningExactly(t, id, n.item.itemType);
      assert forall other :: StartsTool(n, other) || CompletesTool(n, other) ==> other == id;
      assert n.ItemStarted? ==> StartsTool(n, id);
      assert n.ItemCompleted? ==> CompletesTool(n, id);
    }
  }

  lemma MessageExactly(m: Messages, max: nat, item: Item)
    ensures CompleteAgentMessage(m, max, item).1 <==> MessageFits(m, max, item)
  {}

  lemma ItemExactly(t: Tracker, policy: Policy, max: nat, n: Notification)
    requires Tools(t) && t.terminal.None? && (n.ItemStarted? || n.ItemCompleted?)
    ensures HandleItem(t, policy, max, n.thread, n.turn, n.item, n.ItemCompleted?).ok <==>
      InTurn(t, n.thread, n.turn) && ItemFits(t, policy, max, n)
  {
    hide ObserveIdentity, Tools, AllowedTypes, ToolAllowed, OtherTypeAllowed, ToolFits, StartTool, CompleteTool, MessageFits;
    hide CompleteAgentMessage, ThreadFits, TurnFits;
    IdentityExactly(t, n.thread, n.turn);
    PolicyExact(policy, n.item.itemType);
    MessageExactly(t.messages, max, n.item);
    var h := ObserveIdentity(t, n.thread, n.turn);
    if h.ok {
      if ToolType(n.item.itemType) {
        assert Tools(h.t) by { SameTools(t, h.t); }
        ToolExactly(h.t, n);
        if ToolFits(h.t.history, n) { ToolStatus(h.t, n); }
      }
    }
  }

  lemma SameTools(t: Tracker, u: Tracker)
    requires Tools(t) && u.writeToolItems == t.writeToolItems && u.history == t.history
    ensures Tools(u)
  {}

  lemma ToolStatus(t: Tracker, n: Notification)
    requires (n.ItemStarted? || n.ItemCompleted?) && ToolFits(t.history, n)
    ensures n.ItemStarted? <==> n.item.status.InProgress?
  {}

  lemma OutputExactly(t: Tracker, policy: Policy, n: Notification)
    requires Tools(t) && t.terminal.None? && n.OutputDelta?
    ensures HandleOutput(t, policy, n.kind, n.thread, n.turn, n.itemId, n.wellFormed).ok <==>
      InTurn(t, n.thread, n.turn) && TypesFit(policy, n) && InOrder(t.history, n) && n.wellFormed
  {
    hide ObserveIdentity, Tools, AllowedTypes, ToolAllowed, Running, ThreadFits, TurnFits;
    IdentityExactly(t, n.thread, n.turn);
    PolicyExact(policy, ExpectedType(n.kind));
    if n.itemId.Some? { RunningExactly(t, n.itemId.value, ExpectedType(n.kind)); }
  }

  /** A notification is accepted exactly where it is admissible. */
  lemma AcceptedExactly(t: Tracker, policy: Policy, max: nat, n: Notification)
    requires Inv(t)
    ensures HandleNotification(t, policy, max, n).ok <==> Admissible(t, policy, max, n)
  {
    hide Identities, Tools, HandleItem, HandleOutput, ObserveIdentity, ItemFits, ToolsDone, InOrder, TypesFit, Ends;
    if t.terminal.None? {
      if n.ItemStarted? || n.ItemCompleted? {
        ItemExactly(t, policy, max, n);
      } else if n.OutputDelta? {
        OutputExactly(t, policy, n);
      } else if n.TurnCompleted? {
        DoneExactly(t);
      } else if n.TurnStarted? || n.AgentDelta? || n.TokenUsage? {
        IdentityExactly(t, n.thread, n.turn);
      }
    }
  }

  // ---------------------------------------------------------------- what acceptance changes

  /** The messages after a notification that said something. */
  ghost predicate Says(m: Messages, u: Messages, n: Notification) {
    if n.AgentDelta? then
      n.itemId.Some? && n.delta.Some? &&
      u == m.(deltaItemIds := m.deltaItemIds + {n.itemId.value}, responseText := m.responseText + n.delta.value)
    else if n.ItemCompleted? && n.item.itemType.AgentMessage? then
      && n.item.id.Some? && n.item.text.Some?
      && u.completedAgentIds == m.completedAgentIds + {n.item.id.value} && u.deltaItemIds == m.deltaItemIds
      && u.lastCompletedAgentText == n.item.text
      && (u.sawMessagePhase <==> m.sawMessagePhase || !n.item.phase.NoPhase?)
      && u.finalAnswerText == (if n.item.phase.FinalAnswer? then n.item.text else m.finalAnswerText)
      && u.responseText == m.responseText + (if n.item.id.value in m.deltaItemIds then [] else n.item.text.value)
    else u == m
  }

  predicate NamesThread(n: Notification) { TurnEvent(n) || n.ThreadStarted? || n.RequestResolved? }

  /** What an accepted notification changes, field by field. */
  ghost predicate Accepted(t: Tracker, u: Tracker, policy: Policy, n: Notification) {
    && u.threadId == t.threadId && u.turnId == t.turnId && u.turnStartSent == t.turnStartSent
    && u.observedThreadId == (if NamesThread(n) then n.thread else t.observedThreadId)
    && u.observedTurnId == (if TurnEvent(n) then n.turn else t.observedTurnId)
    && u.terminal == (if n.TurnCompleted? then n.status else t.terminal)
    && ToolEffect(t, u, policy, n) && Says(t.messages, u.messages, n)
    && (u.chatGptAuthenticated <==> t.chatGptAuthenticated && n != AccountUpdated(false))
    && (u.failed <==> t.failed || n == AccountUpdated(false))
    && u.history == t.history + [n]
  }

  lemma MessageSays(m: Messages, max: nat, n: Notification)
    requires n.ItemCompleted? && n.item.itemType.AgentMessage? && CompleteAgentMessage(m, max, n.item).1
    ensures Says(m, CompleteAgentMessage(m, max, n.item).0, n)
  {}

  lemma ItemChanges(t: Tracker, policy: Policy, max: nat, n: Notification)
    requires n.ItemStarted? || n.ItemCompleted?
    requires HandleItem(t, policy, max, n.thread, n.turn, n.item, n.ItemCompleted?).ok
    ensures var u := HandleItem(t, policy, max, n.thread, n.turn, n.item, n.ItemCompleted?).t;
      Says(t.messages, u.messages, n) && ToolEffect(t, u, policy, n) &&
      u == t.(observedThreadId := n.thread, observedTurnId := n.turn, writeToolItems := u.writeToolItems, messages := u.messages)
  {
    hide ObserveIdentity, ObserveItem, CompleteAgentMessage;
    IdentityExactly(t, n.thread, n.turn);
    var t1 := ObserveIdentity(t, n.thread, n.turn).t;
    ToolItemEffect(t1, policy, n);
    if n.ItemCompleted? && n.item.itemType.AgentMessage? { MessageSays(t.messages, max, n); }
  }

  lemma OthersChange(t: Tracker, policy: Policy, max: nat, n: Notification)
    requires !n.ItemStarted? && !n.ItemCompleted? && Process(t, policy, max, n).ok
    ensures var u := Process(t, policy, max, n).t;
      Says(t.messages, u.messages, n) && u.writeToolItems == t.writeToolItems
  {
    hide ObserveIdentity, ToolAllowed;
    if TurnEvent(n) { IdentityExactly(t, n.thread, n.turn); }
  }

  /** An accepted notification changes exactly this; a turn/completed leaves its own status. */
  lemma AcceptanceChanges(t: Tracker, policy: Policy, max: nat, n: Notification)
    requires HandleNotification(t, policy, max, n).ok
    ensures Accepted(t, HandleNotification(t, policy, max, n).t, policy, n)
  {
    hide HandleItem, ObserveIdentity, ToolAllowed, Says, ToolEffect, Effect;
    assert ToolEffect(t, Process(t, policy, max, n).t, policy, n) by { EffectOnTools(t, policy, max, n); }
    SameToolEffect(t, Process(t, policy, max, n).t, policy, n);
    if n.ItemStarted? || n.ItemCompleted? {
      ItemChanges(t, policy, max, n);
    } else {
      OthersChange(t, policy, max, n);
      if TurnEvent(n) { IdentityExactly(t, n.thread, n.turn); }
    }
  }

  lemma EffectOnTools(t: Tracker, policy: Policy, max: nat, n: Notification)
    requires Process(t, policy, max, n).ok
    ensures ToolEffect(t, Process(t, policy, max, n).t, policy, n)
  {
    hide Process, ToolEffect;
    ProcessEffect(t, policy, max, n);
  }

  lemma SameToolEffect(t: Tracker, u: Tracker, policy: Policy, n: Notification)
    requires ToolEffect(t, u, policy, n)
    ensures ToolEffect(t, u.(history := t.history + [n]), policy, n)
  {}
}
