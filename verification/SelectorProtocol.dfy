/** packages/codex-adapter/src/runtime-ownership.ts: processes that activate and roll back through a lock file and an atomic rename. */
module SelectorProtocol {
  import opened Options

  type Pid = nat

  datatype Selection = Selection(target: string, version: string)

  datatype Selector = Selector(active: Option<Selection>, previous: Option<Selection>)

  /** What a missing file reads as. */
  const Empty := Selector(None, None)

  datatype Op = Activate(selection: Selection) | Rollback

  /** What readOwnedCodexRuntimeSelector lets through: a selector with a previous selection and none active, too. */
  predicate ReaderAccepts(s: Selector) { s.active.None? || s.active != s.previous }

  /** The selector an operation writes, or None: the selection is active already, or there is nothing to roll back to. */
  function Apply(op: Op, s: Selector): Option<Selector> {
    match op
    case Activate(selection) =>
      if s.active == Some(selection) then None else Some(Selector(Some(selection), s.active))
    case Rollback => if s.previous.None? then None else Some(Selector(s.previous, s.active))
  }

  // ---------------------------------------------------------------- the shared directory and the processes

  datatype TempFile = Partial | Complete(content: Selector)

  /** Where a process is inside withSelectorMutationLock, or in a read. Finishing: the operation ended or threw. */
  datatype Phase =
    | Idle
    | Locked(op: Op)
    | Loaded(op: Op, current: Selector)
    | TempOpen(op: Op, next: Selector, name: nat)
    | TempWritten(op: Op, next: Selector, name: nat)
    | Finishing
    | Reading(content: Selector, version: nat)
    | Crashed

  /** `version` identifies the inode behind active.json; `log` and `observed` are history. */
  datatype State = State(
    origin: Option<Selector>, file: Option<Selector>, version: nat, lock: bool, temps: map<nat, TempFile>,
    procs: map<Pid, Phase>, log: seq<Op>, observed: seq<(Selector, nat)>)

  function Stored(file: Option<Selector>): Selector { if file.None? then Empty else file.value }

  datatype Action =
    | CreateLock(pid: Pid, op: Op)
    | Load(pid: Pid)
    | OpenTemp(pid: Pid, name: nat)
    | NothingToWrite(pid: Pid)
    | WriteTemp(pid: Pid)
    | Rename(pid: Pid)
    | Throw(pid: Pid, unlinked: bool)
    | Release(pid: Pid, removed: bool)
    | Crash(pid: Pid)
    | OpenSelector(pid: Pid)
    | ReturnRead(pid: Pid)

  predicate InsideLock(phase: Phase) {
    phase.Locked? || phase.Loaded? || phase.TempOpen? || phase.TempWritten? || phase.Finishing?
  }

  function Move(s: State, pid: Pid, phase: Phase): State { s.(procs := s.procs[pid := phase]) }

  /** One step; None where the action is not possible. An exclusive create that finds the lock leaves everything as it is. */
  function Step(s: State, a: Action): Option<State> {
    if a.pid !in s.procs then None
    else
      var phase := s.procs[a.pid];
      match a
      case CreateLock(pid, op) =>
        if !phase.Idle? then None else if s.lock then Some(s) else Some(Move(s.(lock := true), pid, Locked(op)))
      case Load(pid) =>
        if phase.Locked? && ReaderAccepts(Stored(s.file)) then Some(Move(s, pid, Loaded(phase.op, Stored(s.file)))) else None
      case OpenTemp(pid, name) =>
        if phase.Loaded? && Apply(phase.op, phase.current).Some? && name !in s.temps
        then Some(Move(s.(temps := s.temps[name := Partial]), pid,
                       TempOpen(phase.op, Apply(phase.op, phase.current).value, name)))
        else None
      case NothingToWrite(pid) =>
        if phase.Loaded? && Apply(phase.op, phase.current).None? then Some(Move(s, pid, Finishing)) else None
      case WriteTemp(pid) =>
        if phase.TempOpen?
        then Some(Move(s.(temps := s.temps[phase.name := Complete(phase.next)]), pid, TempWritten(phase.op, phase.next, phase.name)))
        else None
      case Rename(pid) =>
        if phase.TempWritten? && phase.name in s.temps && s.temps[phase.name].Complete?
        then Some(Move(s.(file := Some(s.temps[phase.name].content), version := s.version + 1,
                          temps := s.temps - {phase.name}, log := s.log + [phase.op]), pid, Finishing))
        else None
      case Throw(pid, unlinked) =>
        if InsideLock(phase)
        then Some(Move(if unlinked && (phase.TempOpen? || phase.TempWritten?) then s.(temps := s.temps - {phase.name}) else s,
                       pid, Finishing))
        else None
      case Release(pid, removed) =>
        if phase.Finishing? then Some(Move(if removed then s.(lock := false) else s, pid, Idle)) else None
      case Crash(pid) => Some(Move(s, pid, Crashed))
      case OpenSelector(pid) =>
        if !phase.Idle? then None
        else if s.file.None? then Some(s.(observed := s.observed + [(Empty, |s.log|)]))
        else Some(Move(s, pid, Reading(s.file.value, s.version)))
      case ReturnRead(pid) =>
        if !phase.Reading? then None
        else if phase.version != s.version || !ReaderAccepts(phase.content) then Some(Move(s, pid, Idle))
        else Some(Move(s.(observed := s.observed + [(phase.content, |s.log|)]), pid, Idle))
  }

  function Start(origin: Option<Selector>, pids: set<Pid>): State {
    State(origin, origin, 0, false, map[], map p | p in pids :: Idle, [], [])
  }

  /** The states a run passes through; None where an action is not possible. */
  function Run(s: State, actions: seq<Action>): Option<State>
    decreases |actions|
  {
    if actions == [] then Some(s)
    else
      match Step(s, actions[0])
      case None => None
      case Some(next) => Run(next, actions[1..])
  }

  // ---------------------------------------------------------------- what every step keeps

  /** The selector after the operations of a log, one after the other; None where one of them writes nothing. */
  function Fold(origin: Selector, log: seq<Op>): Option<Selector> {
    if log == [] then Some(origin)
    else
      match Fold(origin, log[..|log| - 1])
      case None => None
      case Some(before) => Apply(log[|log| - 1], before)
  }

  predicate SelectorOk(s: Selector) {
    (s.previous.Some? ==> s.active.Some?) && ReaderAccepts(s)
  }

  ghost predicate Exclusive(s: State) {
    && (forall p, q :: p in s.procs && q in s.procs && InsideLock(s.procs[p]) && InsideLock(s.procs[q]) ==> p == q)
    && (forall p :: p in s.procs && InsideLock(s.procs[p]) ==> s.lock)
  }

  ghost predicate PhaseOk(s: State, phase: Phase) {
    && (phase.Loaded? || phase.TempOpen? || phase.TempWritten? ==> ReaderAccepts(Stored(s.file)))
    && (phase.Loaded? ==> phase.current == Stored(s.file))
    && (phase.TempOpen? ==> Apply(phase.op, Stored(s.file)) == Some(phase.next))
    && (phase.TempWritten? ==> Apply(phase.op, Stored(s.file)) == Some(phase.next) && phase.name in s.temps &&
                               s.temps[phase.name] == Complete(phase.next))
    && (phase.Reading? ==> phase.version <= s.version && (phase.version == s.version ==> s.file == Some(phase.content)))
  }

  ghost predicate StoredIsFold(s: State) { Fold(Stored(s.origin), s.log) == Some(Stored(s.file)) }

  /** Nothing is written over a selector that the reader refuses. */
  ghost predicate OriginOk(s: State) { s.log != [] ==> ReaderAccepts(Stored(s.origin)) }

  /** A read returned the selector of its moment, and the reader accepted it. */
  ghost predicate ReadOk(s: State, read: (Selector, nat)) {
    read.1 <= |s.log| && Fold(Stored(s.origin), s.log[..read.1]) == Some(read.0) && ReaderAccepts(read.0)
  }

  ghost predicate ReadsOk(s: State) { forall i :: 0 <= i < |s.observed| ==> ReadOk(s, s.observed[i]) }

  ghost predicate Inv(s: State) {
    && Exclusive(s) && (forall p :: p in s.procs ==> PhaseOk(s, s.procs[p])) && StoredIsFold(s) && OriginOk(s) && ReadsOk(s)
  }

  lemma ApplyMakesOk(op: Op, s: Selector)
    requires ReaderAccepts(s) && Apply(op, s).Some?
    ensures SelectorOk(Apply(op, s).value)
  {}

  lemma {:induction false} FoldMakesOk(origin: Selector, log: seq<Op>)
    requires ReaderAccepts(origin) && log != [] && Fold(origin, log).Some?
    ensures SelectorOk(Fold(origin, log).value)
  {
    var before := log[..|log| - 1];
    if before != [] {
      FoldMakesOk(origin, before);
    }
    ApplyMakesOk(log[|log| - 1], Fold(origin, before).value);
  }

  lemma StepExclusive(s: State, a: Action)
    requires Exclusive(s) && Step(s, a).Some?
    ensures Exclusive(Step(s, a).value)
  {}

  lemma StepPhases(s: State, a: Action)
    requires Exclusive(s) && (forall p :: p in s.procs ==> PhaseOk(s, s.procs[p])) && Step(s, a).Some?
    ensures var n := Step(s, a).value; forall p :: p in n.procs ==> PhaseOk(n, n.procs[p])
  {
    hide Apply, ReaderAccepts;
    var n := Step(s, a).value;
    forall p | p in n.procs ensures PhaseOk(n, n.procs[p]) {
      assert PhaseOk(s, s.procs[p]) && PhaseOk(s, s.procs[a.pid]);
    }
  }

  lemma FoldOneMore(origin: Selector, log: seq<Op>, op: Op)
    requires Fold(origin, log).Some?
    ensures Fold(origin, log + [op]) == Apply(op, Fold(origin, log).value)
  {
    assert (log + [op])[..|log|] == log;
  }

  lemma StepStored(s: State, a: Action)
    requires StoredIsFold(s) && (forall p :: p in s.procs ==> PhaseOk(s, s.procs[p])) && Step(s, a).Some?
    ensures StoredIsFold(Step(s, a).value)
  {
    hide Apply, Fold, ReaderAccepts;
    if a.Rename? {
      assert PhaseOk(s, s.procs[a.pid]);
      FoldOneMore(Stored(s.origin), s.log, s.procs[a.pid].op);
    }
  }

  lemma StepOrigin(s: State, a: Action)
    requires OriginOk(s) && StoredIsFold(s) && (forall p :: p in s.procs ==> PhaseOk(s, s.procs[p])) && Step(s, a).Some?
    ensures OriginOk(Step(s, a).value)
  {
    hide Apply, ReaderAccepts;
    if a.Rename? {
      assert PhaseOk(s, s.procs[a.pid]);
    }
  }

  lemma StepReads(s: State, a: Action)
    requires ReadsOk(s) && StoredIsFold(s) && (forall p :: p in s.procs ==> PhaseOk(s, s.procs[p])) && Step(s, a).Some?
    ensures ReadsOk(Step(s, a).value)
  {
    assert ReaderAccepts(Empty);
    hide Apply, Fold, ReaderAccepts;
    var n := Step(s, a).value;
    assert PhaseOk(s, s.procs[a.pid]);
    forall i | 0 <= i < |n.observed| ensures ReadOk(n, n.observed[i]) {
      if i < |s.observed| {
        assert ReadOk(s, s.observed[i]);
        assert n.log[..s.observed[i].1] == s.log[..s.observed[i].1];
      } else {
        assert n.log[..|s.log|] == s.log;
      }
    }
  }

  lemma {:induction false} RunKeepsInv(s: State, actions: seq<Action>)
    requires Inv(s) && Run(s, actions).Some?
    ensures Inv(Run(s, actions).value) && Run(s, actions).value.origin == s.origin
    decreases |actions|
  {
    hide Exclusive, PhaseOk, StoredIsFold, OriginOk, ReadsOk;
    if actions != [] {
      StepExclusive(s, actions[0]);
      StepPhases(s, actions[0]);
      StepStored(s, actions[0]);
      StepOrigin(s, actions[0]);
      StepReads(s, actions[0]);
      RunKeepsInv(Step(s, actions[0]).value, actions[1..]);
    }
  }

  lemma StartInv(origin: Option<Selector>, pids: set<Pid>)
    ensures Inv(Start(origin, pids))
  {}

  // ---------------------------------------------------------------- the protocol's promises

  /** An operation writes something: the selection is not active yet, or there is a previous one. */
  predicate Writes(op: Op, s: Selector) { if op.Activate? then s.active != Some(op.selection) else s.previous.Some? }

  /** What an operation makes of a selector: what was active becomes the previous selection. */
  predicate Installs(op: Op, before: Selector, after: Selector) {
    && after.previous == before.active
    && (op.Activate? ==> before.active != Some(op.selection) && after.active == Some(op.selection))
    && (op.Rollback? ==> before.previous.Some? && after.active == before.previous)
  }

  /** An operation writes exactly where it should, and then installs its selection over the one that was active. */
  lemma ApplyExact(op: Op, s: Selector)
    ensures Apply(op, s).Some? <==> Writes(op, s)
    ensures forall after :: Apply(op, s) == Some(after) <==> Installs(op, s, after)
  {}

  /** The selectors an installation went through, one for each committed operation and the first. */
  ghost predicate Succeeds(h: seq<Selector>, log: seq<Op>) {
    |h| == |log| + 1 && forall i :: 0 <= i < |log| ==> Installs(log[i], h[i], h[i + 1])
  }

  lemma {:induction false} FoldSucceeds(origin: Selector, log: seq<Op>) returns (h: seq<Selector>)
    requires Fold(origin, log).Some?
    ensures Succeeds(h, log) && h[0] == origin && forall k :: 0 <= k <= |log| ==> Fold(origin, log[..k]) == Some(h[k])
  {
    hide Apply, Installs;
    if log == [] {
      h := [origin];
      assert log[..0] == log;
    } else {
      var front := log[..|log| - 1];
      var before := FoldSucceeds(origin, front);
      var after := Fold(origin, log).value;
      h := before + [after];
      assert front[..|front|] == front && log[..|log|] == log;
      ApplyExact(log[|log| - 1], before[|front|]);
      forall k | 0 <= k < |log| ensures log[..k] == front[..k] {}
    }
  }

  /**
   * From every file, over every interleaving and every crash: at most one process is inside the lock; the stored
   * selector is the last of a history that starts with the file and in which each committed operation, in the order of
   * the renames, installs its selection over the one that was active; and every read that returned gave the selector
   * that was stored when it returned. A selector of the history is well-formed exactly when an operation came
   * before it or the first one was, and a file that the reader refuses is neither read nor replaced.
   */
  lemma SelectorIsSafe(origin: Option<Selector>, pids: set<Pid>, actions: seq<Action>) returns (h: seq<Selector>)
    requires Run(Start(origin, pids), actions).Some?
    ensures var s := Run(Start(origin, pids), actions).value;
      && (forall p, q :: p in s.procs && q in s.procs && InsideLock(s.procs[p]) && InsideLock(s.procs[q]) ==> p == q)
      && Succeeds(h, s.log) && h[0] == Stored(origin) && h[|s.log|] == Stored(s.file)
      && (forall k :: 0 <= k <= |s.log| ==> (SelectorOk(h[k]) <==> k > 0 || SelectorOk(Stored(origin))))
      && (forall i :: 0 <= i < |s.observed| ==>
            s.observed[i].1 <= |s.log| && s.observed[i].0 == h[s.observed[i].1] && ReaderAccepts(s.observed[i].0))
      && (!ReaderAccepts(Stored(origin)) ==> s.log == [] && s.observed == [])
  {
    hide Run, SelectorOk, ReaderAccepts, Apply, Installs;
    StartInv(origin, pids);
    RunKeepsInv(Start(origin, pids), actions);
    var s := Run(Start(origin, pids), actions).value;
    h := FoldSucceeds(Stored(origin), s.log);
    assert s.log[..|s.log|] == s.log;
    forall k | 0 <= k <= |s.log| ensures SelectorOk(h[k]) <==> k > 0 || SelectorOk(Stored(origin)) {
      if k > 0 {
        FoldMakesOk(Stored(origin), s.log[..k]);
      }
    }
    forall i | 0 <= i < |s.observed| ensures ReadOk(s, s.observed[i]) {}
    if s.observed != [] {
      assert ReadOk(s, s.observed[0]);
    }
  }

  /** A lock that no live process holds. */
  ghost predicate Retained(s: State) { s.lock && forall p :: p in s.procs ==> !InsideLock(s.procs[p]) }

  /** A lock left by a crash or a failed release closes the directory: no run from there writes anything or frees it. */
  lemma {:induction false} RetainedLockFailsClosed(s: State, actions: seq<Action>)
    requires Retained(s) && Run(s, actions).Some?
    ensures var n := Run(s, actions).value; Retained(n) && n.file == s.file && n.log == s.log
    decreases |actions|
  {
    if actions != [] {
      RetainedLockFailsClosed(Step(s, actions[0]).value, actions[1..]);
    }
  }

  /**
   * A crash inside the lock, or a release that fails, leaves the lock to nobody. Neither they nor an operation that throws
   * change what is stored, and a temporary file stays unless it was unlinked.
   */
  lemma FailuresLeave(s: State, pid: Pid, unlinked: bool)
    requires Exclusive(s) && pid in s.procs && InsideLock(s.procs[pid])
    ensures var crashed := Step(s, Crash(pid)).value;
      Retained(crashed) && crashed == s.(procs := crashed.procs)
    ensures s.procs[pid].Finishing? ==>
      var failed := Step(s, Release(pid, false)).value; Retained(failed) && failed == s.(procs := failed.procs)
    ensures var thrown := Step(s, Throw(pid, unlinked)).value;
      && thrown == s.(procs := s.procs[pid := Finishing], temps := thrown.temps)
      && (forall name :: name in thrown.temps <==>
            (name in s.temps && !(unlinked && (s.procs[pid].TempOpen? || s.procs[pid].TempWritten?) && s.procs[pid].name == name)))
  {}

  /** Rolling back twice restores a selector exactly when it has an active selection; rolling back an activation swaps. */
  lemma RollbackUndoes(s: Selector, selection: Selection)
    ensures Apply(Rollback, s).Some? ==> (Apply(Rollback, Apply(Rollback, s).value) == Some(s) <==> s.active.Some?)
    ensures Apply(Activate(selection), s).Some? && s.active.Some? ==>
      Apply(Rollback, Apply(Activate(selection), s).value) == Some(Selector(s.active, Some(selection)))
    ensures Apply(Activate(selection), s).Some? && s.active.None? ==>
      Apply(Rollback, Apply(Activate(selection), s).value).None?
  {}

  /** What a process does once it has the lock, when nothing fails. */
  function Body(pid: Pid, writes: bool, name: nat): seq<Action> {
    if writes then [OpenTemp(pid, name), WriteTemp(pid), Rename(pid)] else [NothingToWrite(pid)]
  }

  lemma EnterLock(s: State, pid: Pid, op: Op, rest: seq<Action>)
    requires pid in s.procs && s.procs[pid].Idle? && !s.lock && ReaderAccepts(Stored(s.file))
    ensures Run(s, [CreateLock(pid, op)] + ([Load(pid)] + rest)) ==
      Run(s.(lock := true, procs := s.procs[pid := Loaded(op, Stored(s.file))]), rest)
  {
    var s1 := s.(lock := true, procs := s.procs[pid := Locked(op)]);
    RunThen(s, CreateLock(pid, op), [Load(pid)] + rest);
    RunThen(s1, Load(pid), rest);
    assert s1.procs[pid := Loaded(op, Stored(s.file))] == s.procs[pid := Loaded(op, Stored(s.file))];
  }

  lemma OpenStep(s: State, pid: Pid, op: Op, next: Selector, name: nat)
    requires pid in s.procs && s.procs[pid] == Loaded(op, Stored(s.file)) && Apply(op, Stored(s.file)) == Some(next)
    requires name !in s.temps
    ensures Step(s, OpenTemp(pid, name)) ==
      Some(s.(temps := s.temps[name := Partial], procs := s.procs[pid := TempOpen(op, next, name)]))
  {
    hide Apply;
  }

  lemma WriteStep(s: State, pid: Pid, op: Op, next: Selector, name: nat)
    requires pid in s.procs && s.procs[pid] == TempOpen(op, next, name)
    ensures Step(s, WriteTemp(pid)) ==
      Some(s.(temps := s.temps[name := Complete(next)], procs := s.procs[pid := TempWritten(op, next, name)]))
  {
    hide Apply;
  }

  lemma RenameStep(s: State, pid: Pid, op: Op, next: Selector, name: nat)
    requires pid in s.procs && s.procs[pid] == TempWritten(op, next, name) && name in s.temps && s.temps[name] == Complete(next)
    ensures Step(s, Rename(pid)) ==
      Some(s.(file := Some(next), version := s.version + 1, temps := s.temps - {name}, log := s.log + [op],
              procs := s.procs[pid := Finishing]))
  {
    hide Apply;
  }

  lemma WriteOut(s: State, pid: Pid, op: Op, next: Selector, name: nat, rest: seq<Action>)
    requires pid in s.procs && s.procs[pid] == Loaded(op, Stored(s.file)) && Apply(op, Stored(s.file)) == Some(next)
    requires name !in s.temps
    ensures Run(s, [OpenTemp(pid, name)] + ([WriteTemp(pid)] + ([Rename(pid)] + rest))) ==
      Run(s.(file := Some(next), version := s.version + 1, log := s.log + [op], procs := s.procs[pid := Finishing]), rest)
  {
    hide Apply, Step, Run;
    OpenStep(s, pid, op, next, name);
    var s1 := Step(s, OpenTemp(pid, name)).value;
    WriteStep(s1, pid, op, next, name);
    var s2 := Step(s1, WriteTemp(pid)).value;
    RenameStep(s2, pid, op, next, name);
    RunThen(s, OpenTemp(pid, name), [WriteTemp(pid)] + ([Rename(pid)] + rest));
    RunThen(s1, WriteTemp(pid), [Rename(pid)] + rest);
    RunThen(s2, Rename(pid), rest);
    assert s2.temps - {name} == s.temps && s2.procs[pid := Finishing] == s.procs[pid := Finishing];
  }

  lemma Leave(s: State, pid: Pid)
    requires pid in s.procs && s.procs[pid].Finishing?
    ensures Run(s, [Release(pid, true)]) == Some(s.(lock := false, procs := s.procs[pid := Idle]))
  {
    assert [Release(pid, true)] == [Release(pid, true)] + [];
    RunThen(s, Release(pid, true), []);
  }

  /**
   * A process that finds the lock free and is left alone frees it again; over a readable selector it installs its selection,
   * if there is something to write, and otherwise it changes nothing.
   */
  lemma UndisturbedOperation(s: State, pid: Pid, op: Op, name: nat)
    requires pid in s.procs && s.procs[pid].Idle? && !s.lock && name !in s.temps
    ensures var writes := Writes(op, Stored(s.file));
      var body := if ReaderAccepts(Stored(s.file)) then [Load(pid)] + Body(pid, writes, name) else [Throw(pid, false)];
      var n := Run(s, [CreateLock(pid, op)] + (body + [Release(pid, true)]));
      if writes && ReaderAccepts(Stored(s.file)) then
        n.Some? && n.value.file.Some? && Installs(op, Stored(s.file), n.value.file.value) &&
        n.value == s.(file := n.value.file, version := s.version + 1, log := s.log + [op])
      else n == Some(s)
  {
    ApplyExact(op, Stored(s.file));
    hide Apply, Installs, Writes;
    UndisturbedSteps(s, pid, op, name);
  }

  lemma UndisturbedSteps(s: State, pid: Pid, op: Op, name: nat)
    requires pid in s.procs && s.procs[pid].Idle? && !s.lock && name !in s.temps
    ensures var written := Apply(op, Stored(s.file));
      var body := if ReaderAccepts(Stored(s.file)) then [Load(pid)] + Body(pid, written.Some?, name) else [Throw(pid, false)];
      Run(s, [CreateLock(pid, op)] + (body + [Release(pid, true)])) ==
      Some(if written.None? || !ReaderAccepts(Stored(s.file)) then s
           else s.(file := written, version := s.version + 1, log := s.log + [op]))
  {
    hide Apply, Run, Step, ReaderAccepts;
    var written := Apply(op, Stored(s.file));
    var last := [Release(pid, true)];
    if !ReaderAccepts(Stored(s.file)) {
      RefusedOperation(s, pid, op);
    } else {
      var body := Body(pid, written.Some?, name);
      assert [Load(pid)] + body + last == [Load(pid)] + (body + last);
      EnterLock(s, pid, op, body + last);
      var inside := s.(lock := true, procs := s.procs[pid := Loaded(op, Stored(s.file))]);
      if written.Some? {
        assert body + last == [OpenTemp(pid, name)] + ([WriteTemp(pid)] + ([Rename(pid)] + last));
        WriteOut(inside, pid, op, written.value, name, last);
        Leave(inside.(file := written, version := s.version + 1, log := s.log + [op], procs := inside.procs[pid := Finishing]),
              pid);
      } else {
        NothingWritten(inside, pid, op, last);
        Leave(inside.(procs := inside.procs[pid := Finishing]), pid);
      }
      assert inside.procs[pid := Finishing][pid := Idle] == s.procs;
    }
  }

  lemma RefusedOperation(s: State, pid: Pid, op: Op)
    requires pid in s.procs && s.procs[pid].Idle? && !s.lock
    ensures Run(s, [CreateLock(pid, op)] + ([Throw(pid, false)] + [Release(pid, true)])) == Some(s)
  {
    var s1 := s.(lock := true, procs := s.procs[pid := Locked(op)]);
    RunThen(s, CreateLock(pid, op), [Throw(pid, false)] + [Release(pid, true)]);
    RunThen(s1, Throw(pid, false), [Release(pid, true)]);
    Leave(s1.(procs := s1.procs[pid := Finishing]), pid);
    assert s1.procs[pid := Finishing][pid := Idle] == s.procs;
  }

  /** A read left alone returns the stored selector if the reader accepts it. */
  lemma UndisturbedRead(s: State, pid: Pid)
    requires pid in s.procs && s.procs[pid].Idle?
    ensures Run(s, if s.file.None? then [OpenSelector(pid)] else [OpenSelector(pid)] + [ReturnRead(pid)]) ==
      Some(if ReaderAccepts(Stored(s.file)) then s.(observed := s.observed + [(Stored(s.file), |s.log|)]) else s)
  {
    if s.file.None? {
      assert [OpenSelector(pid)] == [OpenSelector(pid)] + [];
      RunThen(s, OpenSelector(pid), []);
    } else {
      var s1 := s.(procs := s.procs[pid := Reading(s.file.value, s.version)]);
      RunThen(s, OpenSelector(pid), [ReturnRead(pid)]);
      assert [ReturnRead(pid)] == [ReturnRead(pid)] + [];
      RunThen(s1, ReturnRead(pid), []);
      assert s1.procs[pid := Idle] == s.procs;
    }
  }

  lemma NothingWritten(s: State, pid: Pid, op: Op, rest: seq<Action>)
    requires pid in s.procs && s.procs[pid] == Loaded(op, Stored(s.file)) && Apply(op, Stored(s.file)).None?
    ensures Run(s, [NothingToWrite(pid)] + rest) == Run(s.(procs := s.procs[pid := Finishing]), rest)
  {
    hide Apply;
    RunThen(s, NothingToWrite(pid), rest);
  }

  lemma RunThen(s: State, a: Action, rest: seq<Action>)
    requires Step(s, a).Some?
    ensures Run(s, [a] + rest) == Run(Step(s, a).value, rest)
  {
    assert ([a] + rest)[1..] == rest;
  }
}
