/** packages/codex-adapter/src/live-execution.ts: TurnEventTracker as the object it is. */
module TurnTracker {
  import opened Options
  import opened TurnEvents
  import TurnRuns

  class TurnEventTracker {
    const eventPolicy: Policy
    const maxAgentResponseBytes: nat
    var threadId: Option<Id>
    var turnId: Option<Id>
    var terminal: Option<TerminalStatus>
    var observedThreadId: Option<Id>
    var observedTurnId: Option<Id>
    var turnStartSent: bool
    var writeToolItems: map<Id, WriteToolItem>
    var messages: Messages
    var chatGptAuthenticated: bool
    var failure: bool
    ghost var history: seq<Notification>

    ghost function Current(): Tracker reads this {
      Tracker(threadId, turnId, terminal, observedThreadId, observedTurnId, turnStartSent, writeToolItems, messages,
              chatGptAuthenticated, failure, history)
    }

    ghost predicate Valid() reads this { TurnRuns.Inv(Current()) }

    constructor (eventPolicy: Policy, maxAgentResponseBytes: nat)
      ensures this.eventPolicy == eventPolicy && this.maxAgentResponseBytes == maxAgentResponseBytes
      ensures Current() == Fresh && Valid()
    {
      this.eventPolicy := eventPolicy;
      this.maxAgentResponseBytes := maxAgentResponseBytes;
      threadId, turnId, terminal, observedThreadId, observedTurnId := None, None, None, None, None;
      turnStartSent, writeToolItems, messages := false, map[], Silence;
      chatGptAuthenticated, failure, history := false, false, [];
      new;
      TurnRuns.FreshInv();
    }

    // -------------------------------------------------------------- identities

    method ObserveNotificationThreadId(thread: Option<Id>) returns (ok: bool)
      modifies this`observedThreadId
      ensures Handled(Current(), ok) == ObserveThread(old(Current()), thread)
    {
      if thread.None? || (threadId.Some? && threadId != thread) || (observedThreadId.Some? && observedThreadId != thread) {
        return false;
      }
      observedThreadId := thread;
      return true;
    }

    method ObserveNotificationTurnId(turn: Option<Id>) returns (ok: bool)
      modifies this`observedTurnId
      ensures Handled(Current(), ok) == ObserveTurn(old(Current()), turn)
    {
      if turn.None? || (turnId.Some? && turnId != turn) || (observedTurnId.Some? && observedTurnId != turn) {
        return false;
      }
      observedTurnId := turn;
      return true;
    }

    method ObserveTurnIdentity(thread: Option<Id>, turn: Option<Id>) returns (ok: bool)
      modifies this`observedThreadId, this`observedTurnId
      ensures Handled(Current(), ok) == ObserveIdentity(old(Current()), thread, turn)
    {
      if !turnStartSent {
        return false;
      }
      ok := ObserveNotificationThreadId(thread);
      if ok {
        ok := ObserveNotificationTurnId(turn);
      }
    }

    // -------------------------------------------------------------- items

    method ObserveWriteToolItem(item: Item, completed: bool) returns (ok: bool)
      modifies this`writeToolItems
      ensures Handled(Current(), ok) ==
        if completed then CompleteTool(old(Current()), item) else StartTool(old(Current()), item)
    {
      if item.id.None? {
        return false;
      }
      var id := item.id.value;
      if !completed {
        if id in writeToolItems || |writeToolItems| >= MAX_WRITE_TOOL_ITEMS || !item.status.InProgress? || !item.wellFormed {
          return false;
        }
        writeToolItems := writeToolItems[id := WriteToolItem(item.itemType, Started)];
        return true;
      }
      if id !in writeToolItems || writeToolItems[id].itemType != item.itemType || !writeToolItems[id].state.Started? ||
         item.status.InProgress? || !item.wellFormed
      {
        return false;
      }
      writeToolItems := writeToolItems[id := writeToolItems[id].(state := Completed)];
      return true;
    }

    method HandleItemEvent(thread: Option<Id>, turn: Option<Id>, item: Item, completed: bool) returns (ok: bool)
      modifies this`observedThreadId, this`observedTurnId, this`writeToolItems, this`messages
      ensures Handled(Current(), ok) ==
        HandleItem(old(Current()), eventPolicy, maxAgentResponseBytes, thread, turn, item, completed)
    {
      hide ObserveIdentity, StartTool, CompleteTool, CompleteAgentMessage, ToolAllowed, OtherTypeAllowed;
      ok := ObserveTurnIdentity(thread, turn);
      if !ok {
        return;
      }
      if ToolType(item.itemType) {
        if !ToolAllowed(eventPolicy, item.itemType) {
          return false;
        }
        ok := ObserveWriteToolItem(item, completed);
        if !ok {
          return;
        }
      } else if !OtherTypeAllowed(eventPolicy, item.itemType) {
        return false;
      }
      if item.itemType.ContextCompaction? && item.id.None? {
        return false;
      }
      if (!completed && item.status.OtherStatus?) || (completed && item.status.InProgress?) {
        return false;
      }
      if completed && item.itemType.AgentMessage? {
        var said := CompleteAgentMessage(messages, maxAgentResponseBytes, item);
        messages, ok := said.0, said.1;
      }
    }

    method HandleOutputEvent(kind: Output, thread: Option<Id>, turn: Option<Id>, itemId: Option<Id>, wellFormed: bool)
      returns (ok: bool)
      modifies this`observedThreadId, this`observedTurnId
      ensures Handled(Current(), ok) == HandleOutput(old(Current()), eventPolicy, kind, thread, turn, itemId, wellFormed)
    {
      hide ObserveIdentity, ToolAllowed;
      ok := ObserveTurnIdentity(thread, turn);
      if !ok {
        return;
      }
      if itemId.None? || !ToolAllowed(eventPolicy, ExpectedType(kind)) || itemId.value !in writeToolItems {
        return false;
      }
      var item := writeToolItems[itemId.value];
      return item.itemType == ExpectedType(kind) && item.state.Started? && wellFormed;
    }

    method HandleDeltaEvent(thread: Option<Id>, turn: Option<Id>, itemId: Option<Id>, delta: Option<Utf8>) returns (ok: bool)
      modifies this`observedThreadId, this`observedTurnId, this`messages
      ensures Handled(Current(), ok) == HandleAgentDelta(old(Current()), maxAgentResponseBytes, thread, turn, itemId, delta)
    {
      hide ObserveIdentity;
      ok := ObserveTurnIdentity(thread, turn);
      if !ok {
        return;
      }
      if itemId.None? {
        return false;
      }
      messages := messages.(deltaItemIds := messages.deltaItemIds + {itemId.value});
      if delta.None? {
        return false;
      }
      var said := AppendAgentText(messages, maxAgentResponseBytes, delta.value);
      messages, ok := said.0, said.1;
    }

    method HandleTurnCompletedEvent(thread: Option<Id>, turn: Option<Id>, status: Option<TerminalStatus>) returns (ok: bool)
      modifies this`terminal
      ensures Handled(Current(), ok) == HandleTurnCompleted(old(Current()), thread, turn, status)
    {
      if !turnStartSent || threadId.None? || turnId.None? || terminal.Some? ||
         (messages.sawMessagePhase && messages.finalAnswerText.None?) ||
         (exists id :: id in writeToolItems && !writeToolItems[id].state.Completed?)
      {
        return false;
      }
      if thread != threadId || turn != turnId || status.None? {
        return false;
      }
      terminal := status;
      return true;
    }

    // -------------------------------------------------------------- notifications and calls

    method Dispatch(n: Notification) returns (ok: bool)
      modifies this
      ensures Handled(Current(), ok) == Process(old(Current()), eventPolicy, maxAgentResponseBytes, n)
    {
      hide HandleItem, HandleOutput, HandleAgentDelta, HandleTurnCompleted, ObserveIdentity;
      match n {
        case Unrecognised => ok := true;
        case AccountUpdated(chatGpt) =>
          if !chatGpt {
            chatGptAuthenticated, failure := false, true;
          }
          ok := true;
        case ThreadStarted(thread, ephemeral) =>
          ok := ephemeral;
          if ok {
            ok := ObserveNotificationThreadId(thread);
          }
        case TurnStarted(thread, turn, inProgress) =>
          ok := ObserveTurnIdentity(thread, turn);
          ok := ok && inProgress;
        case ItemStarted(thread, turn, item) => ok := HandleItemEvent(thread, turn, item, false);
        case ItemCompleted(thread, turn, item) => ok := HandleItemEvent(thread, turn, item, true);
        case OutputDelta(kind, thread, turn, itemId, wellFormed) =>
          ok := HandleOutputEvent(kind, thread, turn, itemId, wellFormed);
        case AgentDelta(thread, turn, itemId, delta) => ok := HandleDeltaEvent(thread, turn, itemId, delta);
        case TokenUsage(thread, turn, wellFormed) =>
          ok := ObserveTurnIdentity(thread, turn);
          ok := ok && wellFormed;
        case TurnCompleted(thread, turn, status) => ok := HandleTurnCompletedEvent(thread, turn, status);
        case RequestResolved(thread, wellFormed) =>
          ok := ObserveNotificationThreadId(thread);
          ok := ok && wellFormed;
      }
    }

    method Receive(n: Notification) returns (ok: bool)
      requires Valid()
      modifies this
      ensures Valid()
      ensures Handled(Current(), ok) == Step(old(Current()), eventPolicy, maxAgentResponseBytes, Notify(n))
      ensures old(terminal).Some? ==> terminal == old(terminal)
    {
      InvKept(Notify(n));
      hide TurnRuns.Inv, Process;
      if terminal.Some? && TurnScoped(n) {
        return false;
      }
      ok := Dispatch(n);
      if ok {
        history := old(history) + [n];
      }
    }

    lemma InvKept(e: Event)
      requires Valid()
      ensures TurnRuns.Inv(Step(Current(), eventPolicy, maxAgentResponseBytes, e).t)
      ensures terminal.Some? ==> Step(Current(), eventPolicy, maxAgentResponseBytes, e).t.terminal == terminal
    {
      hide Step, TurnRuns.Identities, TurnRuns.Tools, TurnRuns.Gate;
      TurnRuns.StepKeepsIdentities(Current(), eventPolicy, maxAgentResponseBytes, e);
      TurnRuns.StepKeepsTools(Current(), eventPolicy, maxAgentResponseBytes, e);
      TurnRuns.StepKeepsGate(Current(), eventPolicy, maxAgentResponseBytes, e);
      if terminal.Some? {
        TurnRuns.TerminalStands(Current(), eventPolicy, maxAgentResponseBytes, e);
      }
    }

    method ObserveThreadResponse(thread: Id) returns (ok: bool)
      requires Valid()
      modifies this`threadId
      ensures Valid()
      ensures Handled(Current(), ok) == Step(old(Current()), eventPolicy, maxAgentResponseBytes, ThreadResponse(thread))
    {
      InvKept(ThreadResponse(thread));
      hide TurnRuns.Inv;
      if threadId.Some? || (observedThreadId.Some? && observedThreadId.value != thread) {
        return false;
      }
      threadId := Some(thread);
      return true;
    }

    method ObserveTurnStartSent(thread: Id) returns (ok: bool)
      requires Valid()
      modifies this`turnStartSent
      ensures Valid()
      ensures Handled(Current(), ok) == Step(old(Current()), eventPolicy, maxAgentResponseBytes, TurnStartSent(thread))
    {
      InvKept(TurnStartSent(thread));
      hide TurnRuns.Inv;
      if failure || !chatGptAuthenticated || threadId != Some(thread) || turnStartSent {
        return false;
      }
      turnStartSent := true;
      return true;
    }

    method ObserveTurnResponse(turn: Id) returns (ok: bool)
      requires Valid()
      modifies this`turnId
      ensures Valid()
      ensures Handled(Current(), ok) == Step(old(Current()), eventPolicy, maxAgentResponseBytes, TurnResponse(turn))
    {
      InvKept(TurnResponse(turn));
      hide TurnRuns.Inv;
      if !turnStartSent || turnId.Some? || (observedTurnId.Some? && observedTurnId.value != turn) || terminal.Some? {
        return false;
      }
      turnId := Some(turn);
      return true;
    }

    method EstablishAuth()
      requires Valid()
      modifies this`chatGptAuthenticated
      ensures Valid()
      ensures Current() == Step(old(Current()), eventPolicy, maxAgentResponseBytes, EstablishChatGptAuth).t
    {
      InvKept(EstablishChatGptAuth);
      hide TurnRuns.Inv;
      chatGptAuthenticated := true;
    }

    method FailWith()
      requires Valid()
      modifies this`failure
      ensures Valid()
      ensures Current() == Step(old(Current()), eventPolicy, maxAgentResponseBytes, Fail).t
    {
      InvKept(Fail);
      hide TurnRuns.Inv;
      failure := true;
    }
  }
}
