/** packages/local-control/src/http-server.ts: the key scanner that skips values with a bracket stack. */
module TopLevelKeys {
  import opened Options
  import opened CodeUnits
  import opened Decimals
  import opened JsonGrammar
  import opened JsonTokens
  import JsonBoundary

  /** The white space of the pattern \s: more than JSON allows. */
  predicate IsPatternSpace(c: CodeUnit) {
    || 0x09 <= c <= 0x0D || c == 0x20 || c == 0xA0 || c == 0x1680 || 0x2000 <= c <= 0x200A
    || c == 0x2028 || c == 0x2029 || c == 0x202F || c == 0x205F || c == 0x3000 || c == 0xFEFF
  }

  function SkipSpace(text: Text, i: nat): (j: nat)
    requires i <= |text|
    ensures i <= j <= |text|
    decreases |text| - i
  {
    if i < |text| && IsPatternSpace(text[i]) then SkipSpace(text, i + 1) else i
  }

  /** scanJsonString: the cursor after the closing quote, or -1. */
  function ScanQuoted(text: Text, start: nat): (end: int)
    ensures end == -1 || start < end <= |text|
  {
    if Is(text, start, 0x22) then CloseQuote(text, start + 1) else -1
  }

  /** The bracket-stack loop: openings are kept with the innermost last. */
  function SkipBrackets(text: Text, cursor: nat, openings: seq<CodeUnit>): (end: int)
    requires cursor <= |text|
    ensures end == -1 || cursor <= end <= |text|
    decreases |text| - cursor
  {
    if cursor >= |text| || openings == [] then (if openings == [] then cursor else -1)
    else if text[cursor] == 0x22 then
      var e := ScanQuoted(text, cursor);
      if e < 0 then -1 else SkipBrackets(text, e, openings)
    else if text[cursor] == 0x7B || text[cursor] == 0x5B then
      SkipBrackets(text, cursor + 1, openings + [text[cursor]])
    else if text[cursor] == 0x7D || text[cursor] == 0x5D then
      var top := openings[|openings| - 1];
      if (top == 0x7B && text[cursor] != 0x7D) || (top == 0x5B && text[cursor] != 0x5D) then -1
      else SkipBrackets(text, cursor + 1, openings[..|openings| - 1])
    else SkipBrackets(text, cursor + 1, openings)
  }

  function SkipScalar(text: Text, cursor: nat): (end: nat)
    requires cursor <= |text|
    ensures cursor <= end <= |text|
    decreases |text| - cursor
  {
    if cursor < |text| && text[cursor] != 0x2C && text[cursor] != 0x7D then SkipScalar(text, cursor + 1) else cursor
  }

  /** scanJsonValue: past a string, past a bracketed value, or up to the next comma or closing brace. */
  function SkipValue(text: Text, start: nat): (end: int)
    requires start <= |text|
    ensures end == -1 || start <= end <= |text|
  {
    if Is(text, start, 0x22) then ScanQuoted(text, start)
    else if Is(text, start, 0x7B) || Is(text, start, 0x5B) then SkipBrackets(text, start + 1, [text[start]])
    else SkipScalar(text, start)
  }

  /** The key loop of topLevelObjectKeys. */
  function KeyLoop(text: Text, cursor: nat): (r: Option<seq<Text>>)
    requires cursor <= |text|
    decreases |text| - cursor
  {
    if cursor >= |text| then None
    else
      var keyEnd := ScanQuoted(text, cursor);
      if keyEnd < 0 then None
      else
        var key := JsonParseString(text[cursor..keyEnd]);
        if key.None? then None
        else
          var colon := SkipSpace(text, keyEnd);
          if !Is(text, colon, 0x3A) then None
          else
            var e := SkipValue(text, SkipSpace(text, colon + 1));
            if e < 0 then None
            else
              var c2 := SkipSpace(text, e);
              if Is(text, c2, 0x7D) then
                if SkipSpace(text, c2 + 1) == |text| then Some([key.value]) else None
              else if !Is(text, c2, 0x2C) then None
              else
                var rest := KeyLoop(text, SkipSpace(text, c2 + 1));
                if rest.None? then None else Some([key.value] + rest.value)
  }

  function TopLevelObjectKeys(text: Text): Option<seq<Text>> {
    var c := SkipSpace(text, 0);
    if !Is(text, c, 0x7B) then None
    else
      var c1 := SkipSpace(text, c + 1);
      if Is(text, c1, 0x7D) then (if SkipSpace(text, c1 + 1) == |text| then Some([]) else None)
      else KeyLoop(text, c1)
  }

  // ---------------------------------------------------------------- white space

  lemma {:induction false} SkipSpaceOverWs(text: Text, i: nat, w: Text)
    requires At(text, i, w) && AllWs(w)
    requires i + |w| < |text| ==> !IsPatternSpace(text[i + |w|])
    ensures SkipSpace(text, i) == i + |w|
    decreases |w|
  {
    if w != [] {
      AtHead(text, i, w);
      assert w == [w[0]] + w[1..];
      AtSplit(text, i, [w[0]], w[1..]);
      SkipSpaceOverWs(text, i + 1, w[1..]);
    }
  }

  lemma SpaceThen(text: Text, i: nat, w: Text, c: CodeUnit)
    requires At(text, i, w) && AllWs(w) && At(text, i + |w|, [c]) && !IsPatternSpace(c)
    ensures i <= |text| && SkipSpace(text, i) == i + |w| && Is(text, i + |w|, c)
  {
    AtOne(text, i + |w|, c);
    SkipSpaceOverWs(text, i, w);
  }

  lemma ValueStartsPlainly(v: Value)
    requires Derives(v)
    ensures ValueText(v) != [] && !IsPatternSpace(ValueText(v)[0])
  {
    JsonBoundary.ValueHead(v);
    if v.LiteralV? {}
  }

  // ---------------------------------------------------------------- the bracket stack

  /** A unit the bracket loop steps over. */
  predicate Inert(c: CodeUnit) { c != 0x22 && c != 0x7B && c != 0x5B && c != 0x7D && c != 0x5D }

  predicate AllInert(t: Text) { forall i :: 0 <= i < |t| ==> Inert(t[i]) }

  lemma {:induction false} InertSkipped(text: Text, i: nat, t: Text, openings: seq<CodeUnit>)
    requires At(text, i, t) && AllInert(t) && openings != []
    ensures i <= |text| && SkipBrackets(text, i, openings) == SkipBrackets(text, i + |t|, openings)
    decreases |t|
  {
    if t != [] {
      AtHead(text, i, t);
      assert t == [t[0]] + t[1..];
      AtSplit(text, i, [t[0]], t[1..]);
      InertSkipped(text, i + 1, t[1..], openings);
    }
  }

  lemma WsInert(w: Text)
    requires AllWs(w)
    ensures AllInert(w)
  {}

  lemma NumberInert(n: NumberToken)
    requires NumberOk(n)
    ensures AllInert(NumberText(n))
  {
    forall i | 0 <= i < |NumberText(n)| ensures Inert(NumberText(n)[i]) {
      NumberUnit(n, i);
    }
  }

  lemma NumberUnit(n: NumberToken, i: nat)
    requires NumberOk(n) && i < |NumberText(n)|
    ensures var c := NumberText(n)[i]; IsDigit(c) || c == 0x2D || c == 0x2B || c == 0x2E || c == 0x65 || c == 0x45
  {
    assert forall k :: 0 <= k < |n.whole| ==> IsDigit(n.whole[k]);
    ExponentUnits(n.exponent);
  }

  lemma ExponentUnits(x: Exponent)
    requires ExponentOk(x)
    ensures forall i :: 0 <= i < |ExponentText(x)| ==>
      var c := ExponentText(x)[i]; IsDigit(c) || c == 0x2D || c == 0x2B || c == 0x65 || c == 0x45
  {}

  lemma StringSkipped(text: Text, i: nat, items: seq<StringItem>, openings: seq<CodeUnit>)
    requires ItemsOk(items) && At(text, i, StringText(items)) && openings != []
    ensures i <= |text| && i + |StringText(items)| <= |text|
    ensures SkipBrackets(text, i, openings) == SkipBrackets(text, i + |StringText(items)|, openings)
  {
    ScanStringComplete(text, i, items);
    AtHead(text, i, StringText(items));
  }

  lemma PushOpening(text: Text, i: nat, open: CodeUnit, openings: seq<CodeUnit>)
    requires At(text, i, [open]) && openings != [] && (open == 0x7B || open == 0x5B)
    ensures i + 1 <= |text| && SkipBrackets(text, i, openings) == SkipBrackets(text, i + 1, openings + [open])
  {
    AtOne(text, i, open);
  }

  lemma PopOpening(text: Text, i: nat, open: CodeUnit, openings: seq<CodeUnit>)
    requires (open == 0x7B || open == 0x5B) && At(text, i, [if open == 0x7B then 0x7D else 0x5D])
    ensures i + 1 <= |text| && SkipBrackets(text, i, openings + [open]) == SkipBrackets(text, i + 1, openings)
  {
    AtOne(text, i, if open == 0x7B then 0x7D else 0x5D);
    assert (openings + [open])[..|openings|] == openings;
  }

  /** Inside a container, one derived value leaves the stack as it found it. */
  lemma {:induction false} ValueBalanced(text: Text, i: nat, v: Value, openings: seq<CodeUnit>)
    requires Derives(v) && At(text, i, ValueText(v)) && openings != []
    ensures i + |ValueText(v)| <= |text|
    ensures SkipBrackets(text, i, openings) == SkipBrackets(text, i + |ValueText(v)|, openings)
    decreases v, 1
  {
    hide At, StringText, NumberText, MembersText, ElementsText, SkipBrackets;
    AtBound(text, i, ValueText(v));
    match v
    case StringV(items) => StringSkipped(text, i, items, openings);
    case NumberV(n) =>
      NumberInert(n);
      InertSkipped(text, i, NumberText(n), openings);
    case LiteralV(l) => InertSkipped(text, i, LiteralText(l), openings);
    case EmptyObject(ws) =>
      AtSplit(text, i, [0x7B], ws + [0x7D]);
      PushOpening(text, i, 0x7B, openings);
      InsideBalanced(text, i + 1, v, openings);
    case ObjectV(ws, ms) =>
      AtSplit(text, i, [0x7B], ws + MembersText(ms));
      PushOpening(text, i, 0x7B, openings);
      InsideBalanced(text, i + 1, v, openings);
    case EmptyArray(ws) =>
      AtSplit(text, i, [0x5B], ws + [0x5D]);
      PushOpening(text, i, 0x5B, openings);
      InsideBalanced(text, i + 1, v, openings);
    case ArrayV(ws, es) =>
      AtSplit(text, i, [0x5B], ws + ElementsText(es));
      PushOpening(text, i, 0x5B, openings);
      InsideBalanced(text, i + 1, v, openings);
  }

  lemma AtBound(text: Text, i: nat, t: Text)
    requires At(text, i, t)
    ensures i + |t| <= |text|
  {}

  predicate IsContainer(v: Value) { v.EmptyObject? || v.ObjectV? || v.EmptyArray? || v.ArrayV? }

  function Opening(v: Value): CodeUnit
    requires IsContainer(v)
  {
    if v.EmptyObject? || v.ObjectV? then 0x7B else 0x5B
  }

  /** The text of a container after its opening bracket. */
  function Inside(v: Value): Text
    requires IsContainer(v)
  {
    match v
    case EmptyObject(ws) => ws + [0x7D]
    case ObjectV(ws, ms) => ws + MembersText(ms)
    case EmptyArray(ws) => ws + [0x5D]
    case ArrayV(ws, es) => ws + ElementsText(es)
  }

  /** From just after its opening bracket, a container's text pops exactly that bracket. */
  lemma {:induction false} InsideBalanced(text: Text, i: nat, v: Value, openings: seq<CodeUnit>)
    requires Derives(v) && IsContainer(v) && At(text, i, Inside(v))
    ensures i + |Inside(v)| <= |text|
    ensures SkipBrackets(text, i, openings + [Opening(v)]) == SkipBrackets(text, i + |Inside(v)|, openings)
    decreases v, 0
  {
    hide At, StringText, NumberText, MembersText, ElementsText, SkipBrackets;
    AtBound(text, i, Inside(v));
    WsInert(v.ws);
    var inner := openings + [Opening(v)];
    match v
    case EmptyObject(ws) =>
      AtSplit(text, i, ws, [0x7D]);
      InertSkipped(text, i, ws, inner);
      PopOpening(text, i + |ws|, 0x7B, openings);
    case ObjectV(ws, ms) =>
      AtSplit(text, i, ws, MembersText(ms));
      InertSkipped(text, i, ws, inner);
      MembersBalanced(text, i + |ws|, ms, openings);
    case EmptyArray(ws) =>
      AtSplit(text, i, ws, [0x5D]);
      InertSkipped(text, i, ws, inner);
      PopOpening(text, i + |ws|, 0x5B, openings);
    case ArrayV(ws, es) =>
      AtSplit(text, i, ws, ElementsText(es));
      InertSkipped(text, i, ws, inner);
      ElementsBalanced(text, i + |ws|, es, openings);
  }

  lemma InertSplit(a: Text, b: Text)
    requires AllInert(a) && AllInert(b)
    ensures AllInert(a + b)
  {}

  lemma {:induction false} MembersBalanced(text: Text, i: nat, ms: Members, openings: seq<CodeUnit>)
    requires DerivesMembers(ms) && At(text, i, MembersText(ms))
    ensures i + |MembersText(ms)| <= |text|
    ensures SkipBrackets(text, i, openings + [0x7B]) == SkipBrackets(text, i + |MembersText(ms)|, openings)
    decreases ms, 0
  {
    hide At, StringText, ValueText, SkipBrackets, MembersText;
    AtBound(text, i, MembersText(ms));
    var inner := openings + [0x7B];
    var m := ms.m;
    var rest := if ms.LastMember? then [0x7D] else [0x2C] + (ms.ws + MembersText(ms.rest));
    if ms.LastMember? { JsonBoundary.LastMemberFacts(m); } else { JsonBoundary.MoreMembersFacts(m, ms.ws, ms.rest); }
    JsonBoundary.Split3(text, i, MemberHead(m), ValueText(m.value), m.after, rest);
    var j := i + |MemberHead(m)|;
    HeadSkipped(text, i, m, inner);
    ValueBalanced(text, j, m.value, inner);
    var e := j + |ValueText(m.value)|;
    WsInert(m.after);
    InertSkipped(text, e, m.after, inner);
    var c2 := e + |m.after|;
    if ms.LastMember? {
      PopOpening(text, c2, 0x7B, openings);
    } else {
      AtSplit(text, c2, [0x2C], ms.ws + MembersText(ms.rest));
      AtSplit(text, c2 + 1, ms.ws, MembersText(ms.rest));
      WsInert(ms.ws);
      InertSkipped(text, c2, [0x2C], inner);
      InertSkipped(text, c2 + 1, ms.ws, inner);
      MembersBalanced(text, c2 + 1 + |ms.ws|, ms.rest, openings);
    }
  }

  lemma HeadSkipped(text: Text, i: nat, m: Member, openings: seq<CodeUnit>)
    requires HeadOk(m) && At(text, i, MemberHead(m)) && openings != []
    ensures i + |MemberHead(m)| <= |text|
    ensures SkipBrackets(text, i, openings) == SkipBrackets(text, i + |MemberHead(m)|, openings)
  {
    hide At, StringText, SkipBrackets;
    AtBound(text, i, MemberHead(m));
    var sep := m.beforeColon + ([0x3A] + m.afterColon);
    AtSplit(text, i, StringText(m.key), sep);
    StringSkipped(text, i, m.key, openings);
    WsInert(m.beforeColon);
    WsInert(m.afterColon);
    InertSplit([0x3A], m.afterColon);
    InertSplit(m.beforeColon, [0x3A] + m.afterColon);
    InertSkipped(text, i + |StringText(m.key)|, sep, openings);
  }

  lemma {:induction false} ElementsBalanced(text: Text, i: nat, es: Elements, openings: seq<CodeUnit>)
    requires DerivesElements(es) && At(text, i, ElementsText(es))
    ensures i + |ElementsText(es)| <= |text|
    ensures SkipBrackets(text, i, openings + [0x5B]) == SkipBrackets(text, i + |ElementsText(es)|, openings)
    decreases es, 0
  {
    hide At, ValueText, SkipBrackets, ElementsText;
    AtBound(text, i, ElementsText(es));
    var inner := openings + [0x5B];
    var v := es.v;
    var rest := if es.LastElement? then [0x5D] else [0x2C] + (es.ws + ElementsText(es.rest));
    if es.LastElement? { JsonBoundary.LastElementFacts(v, es.after); }
    else { JsonBoundary.MoreElementsFacts(v, es.after, es.ws, es.rest); }
    AtSplit(text, i, ValueText(v), es.after + rest);
    ValueBalanced(text, i, v, inner);
    var e := i + |ValueText(v)|;
    AtSplit(text, e, es.after, rest);
    WsInert(es.after);
    InertSkipped(text, e, es.after, inner);
    var c2 := e + |es.after|;
    if es.LastElement? {
      PopOpening(text, c2, 0x5B, openings);
    } else {
      AtSplit(text, c2, [0x2C], es.ws + ElementsText(es.rest));
      AtSplit(text, c2 + 1, es.ws, ElementsText(es.rest));
      WsInert(es.ws);
      InertSkipped(text, c2, [0x2C], inner);
      InertSkipped(text, c2 + 1, es.ws, inner);
      ElementsBalanced(text, c2 + 1 + |es.ws|, es.rest, openings);
    }
  }

  // ---------------------------------------------------------------- one value, then the whole object

  predicate Scalar(c: CodeUnit) { c != 0x2C && c != 0x7D }

  lemma {:induction false} ScalarSkipped(text: Text, i: nat, t: Text)
    requires At(text, i, t) && forall k :: 0 <= k < |t| ==> Scalar(t[k])
    ensures i <= |text| && i + |t| <= |text| && SkipScalar(text, i) == SkipScalar(text, i + |t|)
    decreases |t|
  {
    if t != [] {
      AtHead(text, i, t);
      assert t == [t[0]] + t[1..];
      AtSplit(text, i, [t[0]], t[1..]);
      ScalarSkipped(text, i + 1, t[1..]);
    }
  }

  /** A derived value and the space after it are skipped up to the comma or closing brace that follows. */
  lemma ValueSkipped(text: Text, i: nat, v: Value, after: Text, close: CodeUnit)
    requires Derives(v) && AllWs(after) && (close == 0x2C || close == 0x7D)
    requires At(text, i, ValueText(v)) && At(text, i + |ValueText(v)|, after)
    requires At(text, i + |ValueText(v)| + |after|, [close])
    ensures i <= |text| && SkipValue(text, i) >= 0
    ensures SkipSpace(text, SkipValue(text, i)) == i + |ValueText(v)| + |after|
  {
    hide At, StringText, NumberText, MembersText, ElementsText, SkipBrackets, SkipScalar, SkipSpace, CloseQuote;
    JsonBoundary.ValueHead(v);
    AtHead(text, i, ValueText(v));
    var e := i + |ValueText(v)|;
    SpaceThen(text, e, after, close);
    if v.StringV? {
      ScanStringComplete(text, i, v.items);
    } else if IsContainer(v) {
      AtSplit(text, i, [Opening(v)], Inside(v));
      InsideBalanced(text, i + 1, v, []);
      assert [] + [Opening(v)] == [Opening(v)];
      EmptyStackStops(text, e);
    } else {
      ScalarValueSkipped(text, i, v, after, close);
    }
  }

  lemma EmptyStackStops(text: Text, i: nat)
    requires i <= |text|
    ensures SkipBrackets(text, i, []) == i
  {}

  lemma ScalarValueSkipped(text: Text, i: nat, v: Value, after: Text, close: CodeUnit)
    requires Derives(v) && (v.NumberV? || v.LiteralV?) && AllWs(after) && (close == 0x2C || close == 0x7D)
    requires At(text, i, ValueText(v)) && At(text, i + |ValueText(v)|, after)
    requires At(text, i + |ValueText(v)| + |after|, [close])
    ensures i <= |text| && SkipScalar(text, i) == i + |ValueText(v)| + |after|
    ensures SkipSpace(text, SkipScalar(text, i)) == SkipScalar(text, i)
  {
    hide At, NumberText;
    var t := ValueText(v);
    forall k | 0 <= k < |t| ensures Scalar(t[k]) {
      if v.NumberV? { NumberUnit(v.number, k); }
    }
    ScalarSkipped(text, i, t);
    ScalarSkipped(text, i + |t|, after);
    AtOne(text, i + |t| + |after|, close);
  }

  lemma MemberScanned(text: Text, cursor: nat, m: Member, close: CodeUnit, tail: Text) returns (keyEnd: nat)
    requires HeadOk(m) && Derives(m.value) && (close == 0x2C || close == 0x7D)
    requires At(text, cursor, MemberHead(m) + (ValueText(m.value) + (m.after + ([close] + tail))))
    ensures cursor < |text| && ScanQuoted(text, cursor) == keyEnd <= |text|
    ensures cursor <= keyEnd && JsonParseString(text[cursor..keyEnd]) == Some(Decoded(m.key))
    ensures var colon := keyEnd + |m.beforeColon|;
      var c2 := cursor + |MemberHead(m)| + |ValueText(m.value)| + |m.after|;
      && SkipSpace(text, keyEnd) == colon && Is(text, colon, 0x3A)
      && SkipValue(text, SkipSpace(text, colon + 1)) >= 0
      && SkipSpace(text, SkipValue(text, SkipSpace(text, colon + 1))) == c2
      && Is(text, c2, close) && At(text, c2 + 1, tail)
  {
    hide At, StringText, ValueText, CloseQuote, JsonParseString, SkipSpace, SkipValue, Derives, Decoded;
    JsonBoundary.Split3(text, cursor, MemberHead(m), ValueText(m.value), m.after, [close] + tail);
    keyEnd := JsonBoundary.MemberStart(text, cursor, m);
    QuotedKey(text, cursor, m);
    var colon := keyEnd + |m.beforeColon|;
    var vStart := colon + 1 + |m.afterColon|;
    AtSplit(text, vStart + |ValueText(m.value)| + |m.after|, [close], tail);
    AtOne(text, vStart + |ValueText(m.value)| + |m.after|, close);
    ValueStartsPlainly(m.value);
    AtHead(text, vStart, ValueText(m.value));
    SkipSpaceOverWs(text, colon + 1, m.afterColon);
    ValueSkipped(text, vStart, m.value, m.after, close);
  }

  lemma QuotedKey(text: Text, cursor: nat, m: Member)
    requires HeadOk(m) && At(text, cursor, MemberHead(m))
    ensures var keyEnd := cursor + |StringText(m.key)|;
      && cursor < |text| && ScanQuoted(text, cursor) == keyEnd <= |text|
      && JsonParseString(text[cursor..keyEnd]) == Some(Decoded(m.key))
      && SkipSpace(text, keyEnd) == keyEnd + |m.beforeColon|
  {
    hide At, StringText, SkipSpace, JsonParseString, CloseQuote;
    var keyEnd := cursor + |StringText(m.key)|;
    var tail := [0x3A] + m.afterColon;
    AtSplit(text, cursor, StringText(m.key), m.beforeColon + tail);
    AtSplit(text, keyEnd, m.beforeColon, tail);
    AtSplit(text, keyEnd + |m.beforeColon|, [0x3A], m.afterColon);
    ScanStringComplete(text, cursor, m.key);
    SpaceThen(text, keyEnd, m.beforeColon, 0x3A);
  }

  function Continue(keys: seq<Text>, rest: Option<seq<Text>>): Option<seq<Text>> {
    if rest.None? then None else Some(keys + rest.value)
  }

  /** One turn of the key loop over a member that scans well. */
  lemma KeyTurn(text: Text, cursor: nat, keyEnd: nat, name: Text, colon: nat, c2: nat)
    requires cursor < |text| && cursor <= keyEnd <= |text|
    requires ScanQuoted(text, cursor) == keyEnd && JsonParseString(text[cursor..keyEnd]) == Some(name)
    requires SkipSpace(text, keyEnd) == colon && Is(text, colon, 0x3A)
    requires SkipValue(text, SkipSpace(text, colon + 1)) >= 0
    requires SkipSpace(text, SkipValue(text, SkipSpace(text, colon + 1))) == c2
    ensures Is(text, c2, 0x7D) ==>
      KeyLoop(text, cursor) == if SkipSpace(text, c2 + 1) == |text| then Some([name]) else None
    ensures Is(text, c2, 0x2C) ==> KeyLoop(text, cursor) == Continue([name], KeyLoop(text, SkipSpace(text, c2 + 1)))
  {
    hide ScanQuoted, JsonParseString, SkipSpace, SkipValue;
  }

  lemma {:induction false} KeyLoopComplete(text: Text, cursor: nat, ms: Members, after: Text)
    requires DerivesMembers(ms) && At(text, cursor, MembersText(ms)) && AllWs(after)
    requires At(text, cursor + |MembersText(ms)|, after) && |text| == cursor + |MembersText(ms)| + |after|
    ensures cursor <= |text| && KeyLoop(text, cursor) == Some(KeysOf(ms))
    decreases ms
  {
    hide At, ValueText, MemberHead, MembersText, KeysOf, ScanQuoted, JsonParseString, SkipSpace, SkipValue, Decoded, KeyLoop;
    var m := ms.m;
    var c2 := cursor + |MemberHead(m)| + |ValueText(m.value)| + |m.after|;
    match ms
    case LastMember(_) =>
      JsonBoundary.LastMemberFacts(m);
      assert [0x7D] + [] == [0x7D];
      var keyEnd := MemberScanned(text, cursor, m, 0x7D, []);
      KeyTurn(text, cursor, keyEnd, Decoded(m.key), keyEnd + |m.beforeColon|, c2);
      SkipSpaceOverWs(text, cursor + |MembersText(ms)|, after);
    case MoreMembers(_, ws, rest) =>
      JsonBoundary.MoreMembersFacts(m, ws, rest);
      var keyEnd := MemberScanned(text, cursor, m, 0x2C, ws + MembersText(rest));
      KeyTurn(text, cursor, keyEnd, Decoded(m.key), keyEnd + |m.beforeColon|, c2);
      AtSplit(text, c2 + 1, ws, MembersText(rest));
      JsonBoundary.MembersHead(rest);
      AtHead(text, c2 + 1 + |ws|, MembersText(rest));
      SkipSpaceOverWs(text, c2 + 1, ws);
      KeyLoopComplete(text, c2 + 1 + |ws|, rest, after);
  }

  lemma TextParts(text: Text, before: Text, v: Value, after: Text)
    requires JsonText(text, before, v, after)
    ensures At(text, |before|, ValueText(v)) && At(text, |before| + |ValueText(v)|, after)
    ensures |text| == |before| + |ValueText(v)| + |after|
    ensures SkipSpace(text, 0) == |before| && Is(text, |before|, ValueText(v)[0]) && ValueText(v) != []
  {
    hide At, ValueText, SkipSpace;
    AtSlice(text, 0, |text|);
    assert text[0..|text|] == text;
    AtSplit(text, 0, before, ValueText(v) + after);
    AtSplit(text, |before|, ValueText(v), after);
    ValueStartsPlainly(v);
    AtHead(text, |before|, ValueText(v));
    SkipSpaceOverWs(text, 0, before);
  }

  lemma AfterBrace(text: Text, i: nat, ws: Text, inner: Text)
    requires At(text, i, [0x7B] + (ws + inner)) && AllWs(ws) && inner != [] && !IsPatternSpace(inner[0])
    ensures i < |text| && SkipSpace(text, i + 1) == i + 1 + |ws| && Is(text, i + 1 + |ws|, inner[0])
    ensures At(text, i + 1 + |ws|, inner)
  {
    hide At, SkipSpace;
    AtSplit(text, i, [0x7B], ws + inner);
    AtSplit(text, i + 1, ws, inner);
    AtHead(text, i, [0x7B] + (ws + inner));
    AtHead(text, i + 1 + |ws|, inner);
    SkipSpaceOverWs(text, i + 1, ws);
  }

  /** On every JSON text that is an object the fast scanner returns exactly the decoded top-level names, in order. */
  lemma KeysAgreeWithGrammar(text: Text, before: Text, v: Value, after: Text)
    requires JsonText(text, before, v, after)
    ensures v.ObjectV? ==> TopLevelObjectKeys(text) == Some(KeysOf(v.members))
    ensures v.EmptyObject? ==> TopLevelObjectKeys(text) == Some([])
    ensures !v.ObjectV? && !v.EmptyObject? ==> TopLevelObjectKeys(text) == None
  {
    hide At, MembersText, ElementsText, StringText, NumberText, KeyLoop, SkipSpace, KeysOf, DerivesMembers, DerivesElements;
    TextParts(text, before, v, after);
    JsonBoundary.ValueHead(v);
    var i := |before|;
    match v
    case ObjectV(ws, ms) =>
      JsonBoundary.MembersHead(ms);
      AfterBrace(text, i, ws, MembersText(ms));
      KeyLoopComplete(text, i + 1 + |ws|, ms, after);
    case EmptyObject(ws) =>
      AfterBrace(text, i, ws, [0x7D]);
      SkipSpaceOverWs(text, i + |ValueText(v)|, after);
    case _ =>
  }

  // ---------------------------------------------------------------- the imperative scanner

  method SkipPatternSpace(text: Text, start: nat) returns (cursor: nat)
    requires start <= |text|
    ensures cursor == SkipSpace(text, start)
  {
    cursor := start;
    while cursor < |text| && IsPatternSpace(text[cursor])
      invariant start <= cursor <= |text| && SkipSpace(text, start) == SkipSpace(text, cursor)
    {
      cursor := cursor + 1;
    }
  }

  method ScanJsonString(text: Text, start: nat) returns (end: int)
    ensures end == ScanQuoted(text, start)
  {
    if !Is(text, start, 0x22) {
      return -1;
    }
    var cursor := start + 1;
    while cursor < |text|
      invariant start < cursor && CloseQuote(text, start + 1) == CloseQuote(text, cursor)
    {
      if text[cursor] == 0x5C {
        cursor := cursor + 2;
        continue;
      }
      if text[cursor] == 0x22 {
        return cursor + 1;
      }
      cursor := cursor + 1;
    }
    return -1;
  }

  method ScanBracketed(text: Text, start: nat) returns (end: int)
    requires start < |text| && (text[start] == 0x7B || text[start] == 0x5B)
    ensures end == SkipBrackets(text, start + 1, [text[start]])
  {
    var openings := [text[start]];
    var cursor := start + 1;
    while cursor < |text| && |openings| > 0
      invariant start < cursor <= |text|
      invariant SkipBrackets(text, start + 1, [text[start]]) == SkipBrackets(text, cursor, openings)
      decreases |text| - cursor
    {
      if text[cursor] == 0x22 {
        var e := ScanJsonString(text, cursor);
        if e < 0 {
          return -1;
        }
        cursor := e;
        continue;
      }
      var character := text[cursor];
      if character == 0x7B || character == 0x5B {
        openings := openings + [character];
      } else if character == 0x7D || character == 0x5D {
        var opening := openings[|openings| - 1];
        if (opening == 0x7B && character != 0x7D) || (opening == 0x5B && character != 0x5D) {
          return -1;
        }
        openings := openings[..|openings| - 1];
      }
      cursor := cursor + 1;
    }
    return if |openings| == 0 then cursor else -1;
  }

  method ScanJsonValue(text: Text, start: nat) returns (end: int)
    requires start <= |text|
    ensures end == SkipValue(text, start)
  {
    if Is(text, start, 0x22) {
      end := ScanJsonString(text, start);
      return;
    }
    if Is(text, start, 0x7B) || Is(text, start, 0x5B) {
      end := ScanBracketed(text, start);
      return;
    }
    var cursor := start;
    while cursor < |text| && text[cursor] != 0x2C && text[cursor] != 0x7D
      invariant start <= cursor <= |text| && SkipScalar(text, start) == SkipScalar(text, cursor)
    {
      cursor := cursor + 1;
    }
    return cursor;
  }

  lemma ContinueOne(keys: seq<Text>, key: Text, rest: Option<seq<Text>>)
    ensures Continue(keys, Continue([key], rest)) == Continue(keys + [key], rest)
  {
    if rest.Some? { assert keys + ([key] + rest.value) == (keys + [key]) + rest.value; }
  }

  lemma ContinueNone(rest: Option<seq<Text>>)
    ensures Continue([], rest) == rest
  {
    if rest.Some? { assert [] + rest.value == rest.value; }
  }

  method CollectKeys(text: Text, first: nat) returns (result: Option<seq<Text>>)
    requires first <= |text|
    ensures result == KeyLoop(text, first)
  {
    hide ScanQuoted, JsonParseString, SkipSpace, SkipValue;
    var keys: seq<Text> := [];
    var cursor := first;
    ContinueNone(KeyLoop(text, first));
    while cursor < |text|
      invariant first <= cursor <= |text|
      invariant KeyLoop(text, first) == Continue(keys, KeyLoop(text, cursor))
      decreases |text| - cursor
    {
      var keyEnd := ScanJsonString(text, cursor);
      if keyEnd < 0 { return None; }
      var key := JsonParseString(text[cursor..keyEnd]);
      if key.None? { return None; }
      var colon := SkipPatternSpace(text, keyEnd);
      if !Is(text, colon, 0x3A) { return None; }
      var valueStart := SkipPatternSpace(text, colon + 1);
      var e := ScanJsonValue(text, valueStart);
      if e < 0 { return None; }
      var c2 := SkipPatternSpace(text, e);
      if Is(text, c2, 0x7D) {
        var end := SkipPatternSpace(text, c2 + 1);
        return if end == |text| then Some(keys + [key.value]) else None;
      }
      if !Is(text, c2, 0x2C) { return None; }
      var next := SkipPatternSpace(text, c2 + 1);
      ContinueOne(keys, key.value, KeyLoop(text, next));
      keys := keys + [key.value];
      cursor := next;
    }
    return None;
  }

  method FindTopLevelObjectKeys(text: Text) returns (result: Option<seq<Text>>)
    ensures result == TopLevelObjectKeys(text)
  {
    var cursor := SkipPatternSpace(text, 0);
    if !Is(text, cursor, 0x7B) {
      return None;
    }
    cursor := SkipPatternSpace(text, cursor + 1);
    if Is(text, cursor, 0x7D) {
      var end := SkipPatternSpace(text, cursor + 1);
      return if end == |text| then Some([]) else None;
    }
    result := CollectKeys(text, cursor);
  }
}
