/** packages/codex-adapter/src/live-execution.ts: lines out of a chunked byte stream. */
module JsonlFraming {
  type Byte = b: int | 0 <= b < 256
  type Bytes = seq<Byte>

  const LF: Byte := 0x0A
  const CR: Byte := 0x0D

  /** Handles one line: the handler's next state, and false where it throws. */
  type Handler<!S> = (S, Bytes) -> (S, bool)

  // ---------------------------------------------------------------- the stream as a whole

  function FirstLf(b: Bytes): (i: nat)
    ensures i <= |b| && (i < |b| ==> b[i] == LF) && forall k :: 0 <= k < i ==> b[k] != LF
  {
    if b == [] || b[0] == LF then 0 else 1 + FirstLf(b[1..])
  }

  /** The lines a byte stream has ended so far, without their line feeds. */
  function CompleteLines(b: Bytes): seq<Bytes>
    decreases |b|
  {
    var i := FirstLf(b);
    if i == |b| then [] else [b[..i]] + CompleteLines(b[i + 1..])
  }

  /** The bytes of the line it has not ended. */
  function Tail(b: Bytes): (r: Bytes)
    ensures FirstLf(r) == |r|
    decreases |b|
  {
    var i := FirstLf(b);
    if i == |b| then b else Tail(b[i + 1..])
  }

  function StripCr(line: Bytes): Bytes {
    if line != [] && line[|line| - 1] == CR then line[..|line| - 1] else line
  }

  /** What the handler has been given: its state, the lines in order, and whether the connection failed. */
  datatype Handed<S> = Handed(state: S, lines: seq<Bytes>, failed: bool)

  /** One line: over-long and empty lines fail unseen, a line the handler rejects fails too. */
  function HandOver<S>(handle: Handler<S>, max: nat, h: Handed<S>, line: Bytes): Handed<S> {
    var text := StripCr(line);
    if |line| > max || text == [] then h.(failed := true)
    else
      var (next, ok) := handle(h.state, text);
      Handed(next, h.lines + [text], !ok)
  }

  /** The lines of a stream, up to the first failure. */
  function HandAll<S>(handle: Handler<S>, max: nat, h: Handed<S>, lines: seq<Bytes>): Handed<S>
    decreases |lines|
  {
    if h.failed || lines == [] then h else HandAll(handle, max, HandOver(handle, max, h, lines[0]), lines[1..])
  }

  // ---------------------------------------------------------------- the reader

  /** The client's stdout side: the handler so far and the bytes it has not consumed. */
  datatype Reader<S> = Reader(handed: Handed<S>, buffer: Bytes)

  /** #receiveStdout. */
  function Receive<S>(handle: Handler<S>, max: nat, r: Reader<S>, chunk: Bytes): Reader<S> {
    if r.handed.failed then r
    else
      var buffer := r.buffer + chunk;
      if |buffer| > max && (FirstLf(buffer) == |buffer| || FirstLf(buffer) > max)
      then Reader(r.handed.(failed := true), buffer)
      else Drain(handle, max, r.handed, buffer)
  }

  /** The loop of #receiveStdout over the complete lines of the buffer. */
  function Drain<S>(handle: Handler<S>, max: nat, h: Handed<S>, buffer: Bytes): Reader<S>
    decreases |buffer|
  {
    var i := FirstLf(buffer);
    if h.failed || i == |buffer| then Reader(h, buffer)
    else Drain(handle, max, HandOver(handle, max, h, buffer[..i]), buffer[i + 1..])
  }

  function ReceiveAll<S>(handle: Handler<S>, max: nat, r: Reader<S>, chunks: seq<Bytes>): Reader<S>
    decreases |chunks|
  {
    if chunks == [] then r else ReceiveAll(handle, max, Receive(handle, max, r, chunks[0]), chunks[1..])
  }

  /** After #finalizeStdout at a clean end of stream. */
  function FailedAtEnd<S>(r: Reader<S>): bool { r.handed.failed || r.buffer != [] }

  class StdoutReader<S(!new)> {
    const handle: Handler<S>
    const maxJsonlLineBytes: nat
    var stdoutBuffer: Bytes
    var failed: bool
    var finalized: bool
    var state: S
    ghost var lines: seq<Bytes>

    ghost function Current(): Reader<S> reads this { Reader(Handed(state, lines, failed), stdoutBuffer) }

    constructor (handle: Handler<S>, maxJsonlLineBytes: nat, state: S)
      ensures this.handle == handle && this.maxJsonlLineBytes == maxJsonlLineBytes && !finalized
      ensures Current() == Reader(Handed(state, [], false), [])
    {
      this.handle := handle;
      this.maxJsonlLineBytes := maxJsonlLineBytes;
      this.state := state;
      stdoutBuffer, failed, finalized, lines := [], false, false, [];
    }

    method ReceiveStdout(chunk: Bytes)
      modifies this
      ensures Current() == Receive(handle, maxJsonlLineBytes, old(Current()), chunk) && finalized == old(finalized)
    {
      hide FirstLf, StripCr;
      if failed {
        return;
      }
      stdoutBuffer := stdoutBuffer + chunk;
      if |stdoutBuffer| > maxJsonlLineBytes {
        var first := FirstLf(stdoutBuffer);
        if first == |stdoutBuffer| || first > maxJsonlLineBytes {
          failed := true;
          return;
        }
      }
      ghost var start := Drain(handle, maxJsonlLineBytes, Handed(state, lines, failed), stdoutBuffer);
      while true
        invariant Drain(handle, maxJsonlLineBytes, Handed(state, lines, failed), stdoutBuffer) == start
        invariant !failed && finalized == old(finalized)
        decreases |stdoutBuffer|
      {
        var newlineIndex := FirstLf(stdoutBuffer);
        if newlineIndex == |stdoutBuffer| {
          return;
        }
        var line := stdoutBuffer[..newlineIndex];
        stdoutBuffer := stdoutBuffer[newlineIndex + 1..];
        if |line| > maxJsonlLineBytes {
          failed := true;
          return;
        }
        line := StripCr(line);
        if line == [] {
          failed := true;
          return;
        }
        var (next, ok) := handle(state, line);
        state := next;
        lines := lines + [line];
        if !ok {
          failed := true;
          return;
        }
      }
    }

    method FinalizeStdout(cleanEof: bool)
      modifies this
      ensures finalized && stdoutBuffer == old(stdoutBuffer) && state == old(state) && lines == old(lines)
      ensures failed == (old(failed) || (!old(finalized) && (!cleanEof || old(stdoutBuffer) != [])))
    {
      if finalized {
        return;
      }
      finalized := true;
      if !cleanEof || stdoutBuffer != [] {
        failed := true;
      }
    }
  }

  // ---------------------------------------------------------------- a stream and its pieces

  lemma {:induction false} FirstLfConcat(a: Bytes, b: Bytes)
    ensures FirstLf(a + b) == if FirstLf(a) < |a| then FirstLf(a) else |a| + FirstLf(b)
    decreases |a|
  {
    if a == [] {
      assert a + b == b;
    } else {
      assert (a + b)[1..] == a[1..] + b;
      FirstLfConcat(a[1..], b);
    }
  }

  lemma LineStep(b: Bytes)
    ensures FirstLf(b) == |b| ==> CompleteLines(b) == [] && Tail(b) == b
    ensures FirstLf(b) < |b| ==>
      CompleteLines(b) == [b[..FirstLf(b)]] + CompleteLines(b[FirstLf(b) + 1..]) && Tail(b) == Tail(b[FirstLf(b) + 1..])
  {
    hide FirstLf;
  }

  lemma {:induction false} LinesConcat(a: Bytes, b: Bytes)
    ensures CompleteLines(a + b) == CompleteLines(a) + CompleteLines(Tail(a) + b)
    ensures Tail(a + b) == Tail(Tail(a) + b)
    decreases |a|
  {
    hide CompleteLines, Tail, FirstLf;
    var i := FirstLf(a);
    LineStep(a);
    if i < |a| {
      FirstLfConcat(a, b);
      LineStep(a + b);
      assert (a + b)[..i] == a[..i] && (a + b)[i + 1..] == a[i + 1..] + b;
      LinesConcat(a[i + 1..], b);
    }
  }

  function Joined(lines: seq<Bytes>): Bytes { if lines == [] then [] else lines[0] + [LF] + Joined(lines[1..]) }

  /** The complete lines, each with its line feed, and the unfinished rest are the stream, and hold no other line feed. */
  lemma {:induction false} LinesExact(b: Bytes)
    ensures Joined(CompleteLines(b)) + Tail(b) == b
    ensures LF !in Tail(b) && forall line :: line in CompleteLines(b) ==> LF !in line
    decreases |b|
  {
    hide CompleteLines, Tail;
    var i := FirstLf(b);
    LineStep(b);
    if i < |b| {
      var rest := b[i + 1..];
      LinesExact(rest);
      assert b == b[..i] + [LF] + rest;
      assert CompleteLines(b)[1..] == CompleteLines(rest);
      assert LF !in b[..i];
    } else {
      hide FirstLf;
      assert Joined([]) + b == b;
    }
  }

  /** One carriage return at the end of a line is dropped, and nothing else. */
  lemma StripCrExact(line: Bytes)
    ensures StripCr(line + [CR]) == line
    ensures (line == [] || line[|line| - 1] != CR) ==> StripCr(line) == line
  {}

  // ---------------------------------------------------------------- what the handler is given

  function Stripped(lines: seq<Bytes>): (r: seq<Bytes>)
    ensures |r| == |lines| && forall i :: 0 <= i < |r| ==> r[i] == StripCr(lines[i])
  {
    seq(|lines|, i requires 0 <= i < |lines| => StripCr(lines[i]))
  }

  /** The handler's state after it was given some lines. */
  function StateAfter<S>(handle: Handler<S>, state: S, texts: seq<Bytes>): S {
    if texts == [] then state else StateAfter(handle, handle(state, texts[0]).0, texts[1..])
  }

  /** A line that the handler does not see: over the limit with its carriage return, or empty without it. */
  predicate Unseen(max: nat, line: Bytes) { |line| > max || StripCr(line) == [] }

  predicate Fails<S>(handle: Handler<S>, max: nat, state: S, line: Bytes) {
    Unseen(max, line) || !handle(state, StripCr(line)).1
  }

  /** How many lines come before the first that fails. */
  function Good<S>(handle: Handler<S>, max: nat, state: S, lines: seq<Bytes>): (k: nat)
    ensures k <= |lines|
  {
    if lines == [] || Fails(handle, max, state, lines[0]) then 0
    else 1 + Good(handle, max, handle(state, StripCr(lines[0])).0, lines[1..])
  }

  /** The lines up to the first that fails, and that one too unless it is over-long or empty. */
  function Given<S>(handle: Handler<S>, max: nat, state: S, lines: seq<Bytes>): seq<Bytes> {
    var k := Good(handle, max, state, lines);
    if k < |lines| && !Unseen(max, lines[k]) then lines[..k + 1] else lines[..k]
  }

  lemma GivenStep<S>(handle: Handler<S>, max: nat, state: S, lines: seq<Bytes>)
    requires lines != []
    ensures Fails(handle, max, state, lines[0]) ==>
      Given(handle, max, state, lines) == (if Unseen(max, lines[0]) then [] else [lines[0]]) && Good(handle, max, state, lines) == 0
    ensures !Fails(handle, max, state, lines[0]) ==>
      var next := handle(state, StripCr(lines[0])).0;
      Given(handle, max, state, lines) == [lines[0]] + Given(handle, max, next, lines[1..]) &&
      Good(handle, max, state, lines) == 1 + Good(handle, max, next, lines[1..])
  {
    hide StripCr, Unseen;
  }

  /** The handler is given exactly those lines without their carriage returns, and the connection fails exactly at a bad line. */
  lemma {:induction false} HandedExactly<S>(handle: Handler<S>, max: nat, h: Handed<S>, lines: seq<Bytes>)
    requires !h.failed
    ensures var texts := Stripped(Given(handle, max, h.state, lines));
      HandAll(handle, max, h, lines) ==
      Handed(StateAfter(handle, h.state, texts), h.lines + texts, Good(handle, max, h.state, lines) < |lines|)
    decreases |lines|
  {
    hide StripCr, Given, Good, StateAfter, HandAll, HandOver, Fails, Unseen;
    if lines == [] {
      NothingHanded(handle, max, h);
    } else if Fails(handle, max, h.state, lines[0]) {
      HandedFailing(handle, max, h, lines);
    } else {
      var text, rest := StripCr(lines[0]), lines[1..];
      var next := Handed(handle(h.state, text).0, h.lines + [text], false);
      HandedStep(handle, max, h, lines);
      HandedExactly(handle, max, next, rest);
      var texts := Stripped(Given(handle, max, next.state, rest));
      ConsState(handle, h.state, text, texts);
      assert h.lines + [text] + texts == h.lines + ([text] + texts);
    }
  }

  lemma NothingHanded<S>(handle: Handler<S>, max: nat, h: Handed<S>)
    ensures HandAll(handle, max, h, []) == h && Good(handle, max, h.state, []) == 0
    ensures var texts := Stripped(Given(handle, max, h.state, [])); StateAfter(handle, h.state, texts) == h.state && h.lines + texts == h.lines
  {}

  lemma HandedFailing<S>(handle: Handler<S>, max: nat, h: Handed<S>, lines: seq<Bytes>)
    requires !h.failed && lines != [] && Fails(handle, max, h.state, lines[0])
    ensures var texts := Stripped(Given(handle, max, h.state, lines));
      HandAll(handle, max, h, lines) == Handed(StateAfter(handle, h.state, texts), h.lines + texts, true)
    ensures Good(handle, max, h.state, lines) == 0
  {
    GivenStep(handle, max, h.state, lines);
    hide StripCr, Given, Good, StateAfter;
    OneText(handle, h.state, StripCr(lines[0]));
    FailedStays(handle, max, HandOver(handle, max, h, lines[0]), lines[1..]);
    FailingLine(handle, max, h, lines[0]);
    assert Stripped([]) == [] && h.lines + [] == h.lines;
    assert Stripped([lines[0]]) == [StripCr(lines[0])];
  }

  lemma HandedStep<S>(handle: Handler<S>, max: nat, h: Handed<S>, lines: seq<Bytes>)
    requires !h.failed && lines != [] && !Fails(handle, max, h.state, lines[0])
    ensures var text, rest := StripCr(lines[0]), lines[1..]; var next := Handed(handle(h.state, text).0, h.lines + [text], false);
      && HandAll(handle, max, h, lines) == HandAll(handle, max, next, rest)
      && Stripped(Given(handle, max, h.state, lines)) == [text] + Stripped(Given(handle, max, next.state, rest))
      && Good(handle, max, h.state, lines) == 1 + Good(handle, max, next.state, rest)
  {
    GivenStep(handle, max, h.state, lines);
    hide StripCr, Given, Good;
    var next := handle(h.state, StripCr(lines[0])).0;
    ConsStripped([lines[0]] + Given(handle, max, next, lines[1..]));
  }

  lemma ConsState<S>(handle: Handler<S>, state: S, text: Bytes, texts: seq<Bytes>)
    ensures StateAfter(handle, state, [text] + texts) == StateAfter(handle, handle(state, text).0, texts)
  {
    assert ([text] + texts)[1..] == texts;
  }

  lemma FailingLine<S>(handle: Handler<S>, max: nat, h: Handed<S>, line: Bytes)
    requires Fails(handle, max, h.state, line) && !h.failed
    ensures HandOver(handle, max, h, line) ==
      if Unseen(max, line) then h.(failed := true)
      else Handed(handle(h.state, StripCr(line)).0, h.lines + [StripCr(line)], true)
  {}

  lemma OneText<S>(handle: Handler<S>, state: S, text: Bytes)
    ensures StateAfter(handle, state, [text]) == handle(state, text).0 && StateAfter(handle, state, []) == state
  {
    assert StateAfter(handle, handle(state, text).0, [text][1..]) == handle(state, text).0;
  }

  lemma ConsStripped(lines: seq<Bytes>)
    requires lines != []
    ensures Stripped(lines) == [StripCr(lines[0])] + Stripped(lines[1..])
  {
    hide StripCr;
  }

  lemma {:induction false} DrainIsHandAll<S>(handle: Handler<S>, max: nat, h: Handed<S>, buffer: Bytes)
    requires !h.failed
    ensures Drain(handle, max, h, buffer).handed == HandAll(handle, max, h, CompleteLines(buffer))
    ensures !Drain(handle, max, h, buffer).handed.failed ==> Drain(handle, max, h, buffer).buffer == Tail(buffer)
    decreases |buffer|
  {
    var i := FirstLf(buffer);
    if i < |buffer| {
      var next := HandOver(handle, max, h, buffer[..i]);
      if !next.failed {
        DrainIsHandAll(handle, max, next, buffer[i + 1..]);
      }
    }
  }

  lemma {:induction false} HandConcat<S>(handle: Handler<S>, max: nat, h: Handed<S>, a: seq<Bytes>, b: seq<Bytes>)
    ensures HandAll(handle, max, h, a + b) == HandAll(handle, max, HandAll(handle, max, h, a), b)
    decreases |a|
  {
    if a == [] {
      assert a + b == b;
    } else if !h.failed {
      assert (a + b)[0] == a[0] && (a + b)[1..] == a[1..] + b;
      HandConcat(handle, max, HandOver(handle, max, h, a[0]), a[1..], b);
    }
  }

  /**
   * The reader has handed over exactly what the stream so far gives; it may have failed early, but only where the
   * stream fails or its unfinished line is already too long.
   */
  ghost predicate Follows<S>(handle: Handler<S>, max: nat, start: S, r: Reader<S>, stream: Bytes) {
    var whole := HandAll(handle, max, Handed(start, [], false), CompleteLines(stream));
    && r.handed.state == whole.state && r.handed.lines == whole.lines
    && (!r.handed.failed ==> !whole.failed && r.buffer == Tail(stream))
    && (r.handed.failed ==> whole.failed || |Tail(stream)| > max)
  }

  /** One more chunk as seen by the whole stream. */
  lemma MoreOfTheStream<S>(handle: Handler<S>, max: nat, start: S, stream: Bytes, more: Bytes)
    ensures var h := Handed(start, [], false);
      HandAll(handle, max, h, CompleteLines(stream + more)) ==
      HandAll(handle, max, HandAll(handle, max, h, CompleteLines(stream)), CompleteLines(Tail(stream) + more))
    ensures Tail(stream + more) == Tail(Tail(stream) + more)
  {
    LinesConcat(stream, more);
    HandConcat(handle, max, Handed(start, [], false), CompleteLines(stream), CompleteLines(Tail(stream) + more));
  }

  /** Bytes that begin with an over-long line, ended or not, hand over nothing and fail or stay over-long. */
  lemma OverlongFirst<S>(handle: Handler<S>, max: nat, h: Handed<S>, buffer: Bytes)
    requires FirstLf(buffer) > max && !h.failed
    ensures var after := HandAll(handle, max, h, CompleteLines(buffer));
      after.state == h.state && after.lines == h.lines && (after.failed || |Tail(buffer)| > max)
  {
    LineStep(buffer);
  }

  lemma {:induction false} ReceiveFollows<S>(handle: Handler<S>, max: nat, start: S, r: Reader<S>, stream: Bytes, chunk: Bytes)
    requires Follows(handle, max, start, r, stream)
    ensures Follows(handle, max, start, Receive(handle, max, r, chunk), stream + chunk)
  {
    hide HandAll, CompleteLines, Tail, Drain, FirstLf;
    var whole := HandAll(handle, max, Handed(start, [], false), CompleteLines(stream));
    var buffer := Tail(stream) + chunk;
    MoreOfTheStream(handle, max, start, stream, chunk);
    FailedStays(handle, max, whole, CompleteLines(buffer));
    if !whole.failed {
      FirstLfConcat(Tail(stream), chunk);
      if FirstLf(buffer) > max {
        OverlongFirst(handle, max, whole, buffer);
      }
      if !r.handed.failed {
        DrainIsHandAll(handle, max, r.handed, buffer);
      }
    }
  }

  lemma FailedStays<S>(handle: Handler<S>, max: nat, h: Handed<S>, lines: seq<Bytes>)
    ensures h.failed ==> HandAll(handle, max, h, lines) == h
  {}

  function Flatten(chunks: seq<Bytes>): Bytes { if chunks == [] then [] else chunks[0] + Flatten(chunks[1..]) }

  lemma {:induction false} ReceiveAllFollows<S>(handle: Handler<S>, max: nat, start: S, r: Reader<S>, stream: Bytes,
                                               chunks: seq<Bytes>)
    requires Follows(handle, max, start, r, stream)
    ensures Follows(handle, max, start, ReceiveAll(handle, max, r, chunks), stream + Flatten(chunks))
    decreases |chunks|
  {
    hide Follows, Receive;
    if chunks == [] {
      assert stream + Flatten(chunks) == stream;
    } else {
      ReceiveFollows(handle, max, start, r, stream, chunks[0]);
      ReceiveAllFollows(handle, max, start, Receive(handle, max, r, chunks[0]), stream + chunks[0], chunks[1..]);
      assert stream + Flatten(chunks) == stream + chunks[0] + Flatten(chunks[1..]);
    }
  }

  function Started<S>(start: S): Reader<S> { Reader(Handed(start, [], false), []) }

  /** However the stream arrives, the handler sees the lines of the whole stream, and the end fails exactly on its account. */
  lemma FramingExact<S>(handle: Handler<S>, max: nat, start: S, chunks: seq<Bytes>)
    ensures var r := ReceiveAll(handle, max, Started(start), chunks);
      var whole := HandAll(handle, max, Handed(start, [], false), CompleteLines(Flatten(chunks)));
      && r.handed.state == whole.state && r.handed.lines == whole.lines
      && (FailedAtEnd(r) <==> whole.failed || Tail(Flatten(chunks)) != [])
  {
    ReceiveAllFollows(handle, max, start, Started(start), [], chunks);
    assert [] + Flatten(chunks) == Flatten(chunks);
  }

  /** Framing does not depend on how the stream is cut into chunks. */
  lemma ChunkingDoesNotMatter<S>(handle: Handler<S>, max: nat, start: S, chunks: seq<Bytes>, others: seq<Bytes>)
    requires Flatten(chunks) == Flatten(others)
    ensures var r := ReceiveAll(handle, max, Started(start), chunks);
      var q := ReceiveAll(handle, max, Started(start), others);
      r.handed.lines == q.handed.lines && r.handed.state == q.handed.state && FailedAtEnd(r) == FailedAtEnd(q)
  {
    FramingExact(handle, max, start, chunks);
    FramingExact(handle, max, start, others);
  }
}
