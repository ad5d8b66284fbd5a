/** packages/codex-adapter/src/live-execution.ts: the turn event tracker, one notification at a time. */
module TurnEvents {
  import opened Options

  type Id = string
  type Utf8 = seq<nat>

  const MAX_WRITE_TOOL_ITEMS := 512

  datatype Policy = ReadOnly | ConsoleResearch | ReadOnlyWorktree | WorkspaceWrite

  datatype ItemType =
    | CommandExecution | FileChange | DynamicToolCall | WebSearch | ImageView
    | UserMessage | AgentMessage | Plan | Reasoning | ContextCompaction | OtherItem

  datatype Status = NoStatus | InProgress | OtherStatus

  datatype Phase = NoPhase | Commentary | FinalAnswer | OtherPhase

  /** `wellFormed` stands for validateWriteThreadItem; a None field is absent, of the wrong type or over its bound. */
  datatype Item = Item(itemType: ItemType, id: Option<Id>, status: Status, wellFormed: bool, text: Option<Utf8>, phase: Phase)

  datatype Output = CommandOutput | FileOutput | FilePatch

  datatype TerminalStatus = TurnDone | TurnFailed | TurnInterrupted

  datatype Notification =
    | ThreadStarted(thread: Option<Id>, ephemeral: bool)
    | TurnStarted(thread: Option<Id>, turn: Option<Id>, inProgress: bool)
    | ItemStarted(thread: Option<Id>, turn: Option<Id>, item: Item)
    | ItemCompleted(thread: Option<Id>, turn: Option<Id>, item: Item)
    | OutputDelta(kind: Output, thread: Option<Id>, turn: Option<Id>, itemId: Option<Id>, wellFormed: bool)
    | AgentDelta(thread: Option<Id>, turn: Option<Id>, itemId: Option<Id>, delta: Option<Utf8>)
    | TokenUsage(thread: Option<Id>, turn: Option<Id>, wellFormed: bool)
    | TurnCompleted(thread: Option<Id>, turn: Option<Id>, status: Option<TerminalStatus>)
    | RequestResolved(thread: Option<Id>, wellFormed: bool)
    | AccountUpdated(chatGpt: bool)
    | Unrecognised

  predicate TurnScoped(n: Notification) {
    n.TurnStarted? || n.ItemStarted? || n.ItemCompleted? || n.OutputDelta? || n.AgentDelta? || n.TokenUsage? || n.TurnCompleted?
  }

  datatype ItemState = Started | Completed

  datatype WriteToolItem = WriteToolItem(itemType: ItemType, state: ItemState)

  /** What the agent has said. */
  datatype Messages = Messages(
    completedAgentIds: set<Id>, deltaItemIds: set<Id>, sawMessagePhase: bool,
    finalAnswerText: Option<Utf8>, lastCompletedAgentText: Option<Utf8>, responseText: Utf8)

  /** The tracker's fields, with the notifications accepted so far. */
  datatype Tracker = Tracker(
    threadId: Option<Id>, turnId: Option<Id>, terminal: Option<TerminalStatus>,
    observedThreadId: Option<Id>, observedTurnId: Option<Id>, turnStartSent: bool,
    writeToolItems: map<Id, WriteToolItem>,
    messages: Messages,
    chatGptAuthenticated: bool, failed: bool,
    history: seq<Notification>)

  const Fresh := Tracker(None, None, None, None, None, false, map[], Silence, false, false, [])

  const Silence := Messages({}, {}, false, None, None, [])

  /** A step that may throw: the state it leaves, and false where it throws. */
  datatype Handled = Handled(t: Tracker, ok: bool) {
    predicate IsFailure() { !ok }
    function PropagateFailure(): Handled requires IsFailure() { this }
    function Extract(): Tracker requires !IsFailure() { t }
  }

  function Accept(t: Tracker): Handled { Handled(t, true) }

  function Throw(t: Tracker): Handled { Handled(t, false) }

  function Require(t: Tracker, condition: bool): Handled { Handled(t, condition) }

  // ---------------------------------------------------------------- identities

  predicate Consistent(known: Option<Id>, id: Id) { known.Some? ==> known.value == id }

  function ObserveThread(t: Tracker, thread: Option<Id>): Handled {
    if thread.None? || !Consistent(t.threadId, thread.value) || !Consistent(t.observedThreadId, thread.value) then Throw(t)
    else Accept(t.(observedThreadId := thread))
  }

  function ObserveTurn(t: Tracker, turn: Option<Id>): Handled {
    if turn.None? || !Consistent(t.turnId, turn.value) || !Consistent(t.observedTurnId, turn.value) then Throw(t)
    else Accept(t.(observedTurnId := turn))
  }

  /** The identity checks in front of every turn-scoped notification but the last. */
  function ObserveIdentity(t: Tracker, thread: Option<Id>, turn: Option<Id>): Handled {
    if !t.turnStartSent then Throw(t)
    else
      var t1 :- ObserveThread(t, thread);
      ObserveTurn(t1, turn)
  }

  // ---------------------------------------------------------------- tool items

  predicate ToolType(itemType: ItemType) { itemType.CommandExecution? || itemType.FileChange? }

  predicate ToolAllowed(policy: Policy, itemType: ItemType) {
    match policy
    case ReadOnly => false
    case WorkspaceWrite => true
    case _ => itemType.CommandExecution?
  }

  predicate OtherTypeAllowed(policy: Policy, itemType: ItemType) {
    || (policy.ConsoleResearch? && itemType.DynamicToolCall?)
    || (!policy.ReadOnly? && (itemType.WebSearch? || itemType.ImageView?))
    || itemType.UserMessage? || itemType.AgentMessage? || itemType.Plan? || itemType.Reasoning? || itemType.ContextCompaction?
  }

  function StartTool(t: Tracker, item: Item): Handled {
    if item.id.None? || item.id.value in t.writeToolItems || |t.writeToolItems| >= MAX_WRITE_TOOL_ITEMS ||
       !item.status.InProgress? || !item.wellFormed
    then Throw(t)
    else Accept(t.(writeToolItems := t.writeToolItems[item.id.value := WriteToolItem(item.itemType, Started)]))
  }

  function CompleteTool(t: Tracker, item: Item): Handled {
    if item.id.None? || item.id.value !in t.writeToolItems ||
       t.writeToolItems[item.id.value] != WriteToolItem(item.itemType, Started) || item.status.InProgress? || !item.wellFormed
    then Throw(t)
    else Accept(t.(writeToolItems := t.writeToolItems[item.id.value := WriteToolItem(item.itemType, Completed)]))
  }

  /** The checks on an item's type, and the tool lifecycle. */
  function ObserveItem(t: Tracker, policy: Policy, item: Item, completed: bool): Handled {
    if ToolType(item.itemType) then
      if !ToolAllowed(policy, item.itemType) then Throw(t)
      else if completed then CompleteTool(t, item)
      else StartTool(t, item)
    else Require(t, OtherTypeAllowed(policy, item.itemType))
  }

  // ---------------------------------------------------------------- agent messages

  function AppendAgentText(m: Messages, max: nat, text: Utf8): (Messages, bool) {
    if |m.responseText + text| > max then (m, false) else (m.(responseText := m.responseText + text), true)
  }

  /** The phase of a completed message; a second final answer throws. */
  function ObservePhase(m: Messages, phase: Phase, text: Utf8): (Messages, bool) {
    match phase
    case NoPhase => (m, true)
    case OtherPhase => (m, false)
    case Commentary => (m.(sawMessagePhase := true), true)
    case FinalAnswer =>
      if m.finalAnswerText.Some? then (m.(sawMessagePhase := true), false)
      else (m.(sawMessagePhase := true, finalAnswerText := Some(text)), true)
  }

  function CompleteAgentMessage(m: Messages, max: nat, item: Item): (Messages, bool) {
    if item.id.None? || item.id.value in m.completedAgentIds then (m, false)
    else
      var m1 := m.(completedAgentIds := m.completedAgentIds + {item.id.value});
      if item.text.None? || |item.text.value| > max then (m1, false)
      else
        var (m2, ok) := ObservePhase(m1.(lastCompletedAgentText := item.text), item.phase, item.text.value);
        if !ok then (m2, false)
        else if item.id.value in m2.deltaItemIds then (m2, true)
        else AppendAgentText(m2, max, item.text.value)
  }

  function Say(t: Tracker, said: (Messages, bool)): Handled { Handled(t.(messages := said.0), said.1) }

  // ---------------------------------------------------------------- notifications

  function HandleItem(t: Tracker, policy: Policy, max: nat, thread: Option<Id>, turn: Option<Id>, item: Item,
                      completed: bool): Handled {
    var t1 :- ObserveIdentity(t, thread, turn);
    var t2 :- ObserveItem(t1, policy, item, completed);
    if item.itemType.ContextCompaction? && item.id.None? then Throw(t2)
    else if !completed && item.status.OtherStatus? then Throw(t2)
    else if completed && item.status.InProgress? then Throw(t2)
    else if completed && item.itemType.AgentMessage? then Say(t2, CompleteAgentMessage(t2.messages, max, item))
    else Accept(t2)
  }

  function ExpectedType(kind: Output): ItemType { if kind.CommandOutput? then CommandExecution else FileChange }

  function HandleOutput(t: Tracker, policy: Policy, kind: Output, thread: Option<Id>, turn: Option<Id>, itemId: Option<Id>,
                        wellFormed: bool): Handled {
    var t1 :- ObserveIdentity(t, thread, turn);
    Require(t1, itemId.Some? && ToolAllowed(policy, ExpectedType(kind)) &&
                itemId.value in t1.writeToolItems &&
                t1.writeToolItems[itemId.value] == WriteToolItem(ExpectedType(kind), Started) && wellFormed)
  }

  function HandleAgentDelta(t: Tracker, max: nat, thread: Option<Id>, turn: Option<Id>, itemId: Option<Id>,
                            delta: Option<Utf8>): Handled {
    var t1 :- ObserveIdentity(t, thread, turn);
    if itemId.None? then Throw(t1)
    else
      var m := t1.messages.(deltaItemIds := t1.messages.deltaItemIds + {itemId.value});
      Say(t1, if delta.None? then (m, false) else AppendAgentText(m, max, delta.value))
  }

  predicate ToolsDone(t: Tracker) {
    forall id :: id in t.writeToolItems ==> t.writeToolItems[id].state.Completed?
  }

  function HandleTurnCompleted(t: Tracker, thread: Option<Id>, turn: Option<Id>, status: Option<TerminalStatus>): Handled {
    if !t.turnStartSent || t.threadId.None? || t.turnId.None? || t.terminal.Some? ||
       (t.messages.sawMessagePhase && t.messages.finalAnswerText.None?) || !ToolsDone(t)
    then Throw(t)
    else if thread != t.threadId || turn != t.turnId || status.None? then Throw(t)
    else Accept(t.(terminal := status))
  }

  function Process(t: Tracker, policy: Policy, max: nat, n: Notification): Handled {
    match n
    case Unrecognised => Accept(t)
    case AccountUpdated(chatGpt) => Accept(if chatGpt then t else t.(chatGptAuthenticated := false, failed := true))
    case ThreadStarted(thread, ephemeral) => if ephemeral then ObserveThread(t, thread) else Throw(t)
    case TurnStarted(thread, turn, inProgress) =>
      var t1 :- ObserveIdentity(t, thread, turn);
      Require(t1, inProgress)
    case ItemStarted(thread, turn, item) => HandleItem(t, policy, max, thread, turn, item, false)
    case ItemCompleted(thread, turn, item) => HandleItem(t, policy, max, thread, turn, item, true)
    case OutputDelta(kind, thread, turn, itemId, wellFormed) => HandleOutput(t, policy, kind, thread, turn, itemId, wellFormed)
    case AgentDelta(thread, turn, itemId, delta) => HandleAgentDelta(t, max, thread, turn, itemId, delta)
    case TokenUsage(thread, turn, wellFormed) =>
      var t1 :- ObserveIdentity(t, thread, turn);
      Require(t1, wellFormed)
    case TurnCompleted(thread, turn, status) => HandleTurnCompleted(t, thread, turn, status)
    case RequestResolved(thread, wellFormed) =>
      var t1 :- ObserveThread(t, thread);
      Require(t1, wellFormed)
  }

  /** handleNotification: nothing about the turn is accepted after the terminal event. */
  function HandleNotification(t: Tracker, policy: Policy, max: nat, n: Notification): Handled {
    if t.terminal.Some? && TurnScoped(n) then Throw(t)
    else
      var next :- Process(t, policy, max, n);
      Accept(next.(history := t.history + [n]))
  }

  // ---------------------------------------------------------------- the executor's calls

  datatype Event =
    | Notify(n: Notification)
    | EstablishChatGptAuth
    | ThreadResponse(thread: Id)
    | TurnStartSent(thread: Id)
    | TurnResponse(turn: Id)
    | Fail

  function Step(t: Tracker, policy: Policy, max: nat, e: Event): Handled {
    match e
    case Notify(n) => HandleNotification(t, policy, max, n)
    case EstablishChatGptAuth => Accept(t.(chatGptAuthenticated := true))
    case ThreadResponse(thread) =>
      if t.threadId.Some? || !Consistent(t.observedThreadId, thread) then Throw(t) else Accept(t.(threadId := Some(thread)))
    case TurnStartSent(thread) =>
      if t.failed || !t.chatGptAuthenticated || t.threadId != Some(thread) || t.turnStartSent then Throw(t)
      else Accept(t.(turnStartSent := true))
    case TurnResponse(turn) =>
      if !t.turnStartSent || t.turnId.Some? || !Consistent(t.observedTurnId, turn) || t.terminal.Some? then Throw(t)
      else Accept(t.(turnId := Some(turn)))
    case Fail => Accept(t.(failed := true))
  }

  /** A run may go on after a step that throws; the tracker itself does not stop. */
  function Run(t: Tracker, policy: Policy, max: nat, events: seq<Event>): Tracker
    decreases |events|
  {
    if events == [] then t else Run(Step(t, policy, max, events[0]).t, policy, max, events[1..])
  }
}
