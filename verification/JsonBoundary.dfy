/** packages/domain/src/json-boundary.ts: hasUnambiguousJsonStructure. */
module JsonBoundary {
  import opened Options
  import opened CodeUnits
  import opened Decimals
  import opened JsonGrammar
  import opened JsonTokens

  const JSON_MAX_NESTING_DEPTH: nat := 64

  // ---------------------------------------------------------------- the scan as a function

  /** scanValue: the cursor after one value, or -1. */
  function ScanValue(text: Text, start: nat, depth: nat): (end: int)
    requires start <= |text|
    ensures end == -1 || start < end <= |text|
    decreases |text| - start, 1
  {
    if depth > JSON_MAX_NESTING_DEPTH then -1
    else
      var c := SkipWs(text, start);
      if Is(text, c, 0x22) then
        var s := ScanString(text, c);
        if s.NoString? then -1 else s.end
      else if Is(text, c, 0x7B) then
        var c1 := SkipWs(text, c + 1);
        if Is(text, c1, 0x7D) then c1 + 1 else ScanMembers(text, c1, {}, depth)
      else if Is(text, c, 0x5B) then
        var c1 := SkipWs(text, c + 1);
        if Is(text, c1, 0x5D) then c1 + 1 else ScanElements(text, c1, depth)
      else if MatchLiteral(text, c) >= 0 then MatchLiteral(text, c)
      else MatchNumber(text, c)
  }

  /** The object loop from one key on; `keys` holds the names seen so far. */
  function ScanMembers(text: Text, cursor: nat, keys: set<Text>, depth: nat): (end: int)
    requires cursor <= |text|
    ensures end == -1 || cursor < end <= |text|
    decreases |text| - cursor, 0
  {
    var key := ScanString(text, cursor);
    if key.NoString? || key.value in keys then -1
    else
      var c := SkipWs(text, key.end);
      if !Is(text, c, 0x3A) then -1
      else
        var e := ScanValue(text, c + 1, depth + 1);
        if e < 0 then -1
        else
          var c2 := SkipWs(text, e);
          if Is(text, c2, 0x7D) then c2 + 1
          else if !Is(text, c2, 0x2C) then -1
          else ScanMembers(text, SkipWs(text, c2 + 1), keys + {key.value}, depth)
  }

  /** The array loop from one element on. */
  function ScanElements(text: Text, cursor: nat, depth: nat): (end: int)
    requires cursor <= |text|
    ensures end == -1 || cursor < end <= |text|
    decreases |text| - cursor, 2
  {
    var e := ScanValue(text, cursor, depth + 1);
    if e < 0 then -1
    else
      var c2 := SkipWs(text, e);
      if Is(text, c2, 0x5D) then c2 + 1
      else if !Is(text, c2, 0x2C) then -1
      else ScanElements(text, SkipWs(text, c2 + 1), depth)
  }

  // ---------------------------------------------------------------- soundness

  lemma {:induction false} ValueSound(text: Text, start: nat, depth: nat) returns (v: Value)
    requires start <= |text| && ScanValue(text, start, depth) >= 0
    ensures Derives(v) && UniqueKeys(v) && depth + Depth(v) <= JSON_MAX_NESTING_DEPTH
    ensures At(text, SkipWs(text, start), ValueText(v))
    ensures ScanValue(text, start, depth) == SkipWs(text, start) + |ValueText(v)|
    decreases |text| - start, 1
  {
    hide At;
    var c := SkipWs(text, start);
    if Is(text, c, 0x22) {
      var items := ScanStringSound(text, c);
      v := StringV(items);
    } else if Is(text, c, 0x7B) || Is(text, c, 0x5B) {
      v := ContainerSound(text, start, depth);
    } else if MatchLiteral(text, c) >= 0 {
      v := LiteralSound(text, c);
    } else {
      var n := NumberSound(text, c);
      v := NumberV(n);
    }
  }

  lemma LiteralSound(text: Text, c: nat) returns (v: Value)
    requires MatchLiteral(text, c) >= 0
    ensures v.LiteralV? && At(text, c, ValueText(v)) && MatchLiteral(text, c) == c + |ValueText(v)|
  {
    v := LiteralV(if StartsWith(text, c, LiteralText(True)) then True
                  else if StartsWith(text, c, LiteralText(False)) then False else Null);
  }

  /** A bracket, the white space after it and what follows make up one text. */
  lemma WrapAt(text: Text, c: nat, c1: nat, inner: Text)
    requires c < c1 <= |text| && At(text, c1, inner)
    ensures At(text, c, [text[c]] + (text[c + 1..c1] + inner))
  {
    hide At;
    AtSlice(text, c + 1, c1);
    AtSplit(text, c + 1, text[c + 1..c1], inner);
    AtOne(text, c, text[c]);
    AtSplit(text, c, [text[c]], text[c + 1..c1] + inner);
  }

  lemma {:induction false} ContainerSound(text: Text, start: nat, depth: nat) returns (v: Value)
    requires start <= |text| && ScanValue(text, start, depth) >= 0
    requires Is(text, SkipWs(text, start), 0x7B) || Is(text, SkipWs(text, start), 0x5B)
    ensures Derives(v) && UniqueKeys(v) && depth + Depth(v) <= JSON_MAX_NESTING_DEPTH
    ensures At(text, SkipWs(text, start), ValueText(v))
    ensures ScanValue(text, start, depth) == SkipWs(text, start) + |ValueText(v)|
    decreases |text| - start, 0
  {
    hide At, MembersText, ElementsText, DerivesMembers, DerivesElements, UniqueInMembers, UniqueInElements,
         MembersDepth, ElementsDepth, KeysOf, NoRepeats, ScanMembers, ScanElements;
    var c := SkipWs(text, start);
    var open := text[c];
    var close: CodeUnit := if open == 0x7B then 0x7D else 0x5D;
    var c1 := SkipWs(text, c + 1);
    var ws := text[c + 1..c1];
    SkipWsSound(text, c + 1);
    if Is(text, c1, close) {
      v := if open == 0x7B then EmptyObject(ws) else EmptyArray(ws);
      AtOne(text, c1, close);
      WrapAt(text, c, c1, [close]);
    } else if open == 0x7B {
      var ms := MembersSound(text, c1, {}, depth);
      v := ObjectV(ws, ms);
      WrapAt(text, c, c1, MembersText(ms));
    } else {
      var es := ElementsSound(text, c1, depth);
      v := ArrayV(ws, es);
      WrapAt(text, c, c1, ElementsText(es));
    }
  }

  lemma LastMemberFacts(m: Member)
    requires HeadOk(m) && Derives(m.value)
    ensures var ms := LastMember(m);
      && DerivesMembers(ms)
      && MembersText(ms) == MemberHead(m) + (ValueText(m.value) + (m.after + [0x7D]))
      && MembersDepth(ms) == Depth(m.value)
      && KeysOf(ms) == [Decoded(m.key)]
      && (UniqueInMembers(ms) <==> UniqueKeys(m.value))
  {}

  lemma MoreMembersFacts(m: Member, ws: Text, rest: Members)
    requires HeadOk(m) && Derives(m.value) && AllWs(ws) && DerivesMembers(rest)
    ensures var ms := MoreMembers(m, ws, rest);
      && DerivesMembers(ms)
      && MembersText(ms) == MemberHead(m) + (ValueText(m.value) + (m.after + ([0x2C] + (ws + MembersText(rest)))))
      && MembersDepth(ms) == Max(Depth(m.value), MembersDepth(rest))
      && KeysOf(ms) == [Decoded(m.key)] + KeysOf(rest)
      && (UniqueInMembers(ms) <==> UniqueKeys(m.value) && UniqueInMembers(rest))
  {}

  /** A comma, the white space after it and the remaining items make up one text. */
  lemma CommaAt(text: Text, c2: nat, c3: nat, rest: Text)
    requires c2 < c3 <= |text| && text[c2] == 0x2C && At(text, c3, rest)
    ensures At(text, c2, [0x2C] + (text[c2 + 1..c3] + rest))
  {
    WrapAt(text, c2, c3, rest);
  }

  lemma Join3(text: Text, i: nat, a: Text, b: Text, c: Text, d: Text)
    requires At(text, i, a) && At(text, i + |a|, b) && At(text, i + |a| + |b|, c) && At(text, i + |a| + |b| + |c|, d)
    ensures At(text, i, a + (b + (c + d)))
  {
    hide At;
    AtSplit(text, i + |a| + |b|, c, d);
    AtSplit(text, i + |a|, b, c + d);
    AtSplit(text, i, a, b + (c + d));
  }

  lemma {:induction false} MemberSound(text: Text, cursor: nat, depth: nat) returns (m: Member)
    requires cursor <= |text| && ScanString(text, cursor).StringToken?
    requires Is(text, SkipWs(text, ScanString(text, cursor).end), 0x3A)
    requires ScanValue(text, SkipWs(text, ScanString(text, cursor).end) + 1, depth + 1) >= 0
    ensures HeadOk(m) && Derives(m.value) && UniqueKeys(m.value) && depth + 1 + Depth(m.value) <= JSON_MAX_NESTING_DEPTH
    ensures Decoded(m.key) == ScanString(text, cursor).value
    ensures At(text, cursor, MemberHead(m)) && At(text, cursor + |MemberHead(m)|, ValueText(m.value))
    ensures var e := ScanValue(text, SkipWs(text, ScanString(text, cursor).end) + 1, depth + 1);
      e == cursor + |MemberHead(m)| + |ValueText(m.value)| && At(text, e, m.after) && SkipWs(text, e) == e + |m.after|
    decreases |text| - cursor, 0
  {
    hide At, ValueText, MemberHead, Derives, UniqueKeys, Depth, ScanValue, ScanString, StringText, Decoded;
    var key := ScanString(text, cursor);
    var items := ScanStringSound(text, cursor);
    var c := SkipWs(text, key.end);
    var v := ValueSound(text, c + 1, depth + 1);
    var e := ScanValue(text, c + 1, depth + 1);
    SkipWsSound(text, key.end);
    SkipWsSound(text, c + 1);
    SkipWsSound(text, e);
    m := Member(items, text[key.end..c], text[c + 1..SkipWs(text, c + 1)], v, text[e..SkipWs(text, e)]);
    HeadAt(text, cursor, m, key.end, c);
    AtSlice(text, e, SkipWs(text, e));
  }

  /** What a successful object loop has seen on its first turn. */
  lemma TurnSucceeded(text: Text, cursor: nat, keys: set<Text>, depth: nat)
    requires cursor <= |text| && ScanMembers(text, cursor, keys, depth) >= 0
    ensures ScanString(text, cursor).StringToken? && ScanString(text, cursor).value !in keys
    ensures var c := SkipWs(text, ScanString(text, cursor).end);
      && Is(text, c, 0x3A) && ScanValue(text, c + 1, depth + 1) >= 0
      && var c2 := SkipWs(text, ScanValue(text, c + 1, depth + 1));
         if Is(text, c2, 0x7D) then ScanMembers(text, cursor, keys, depth) == c2 + 1
         else
           && Is(text, c2, 0x2C)
           && ScanMembers(text, cursor, keys, depth) ==
                ScanMembers(text, SkipWs(text, c2 + 1), keys + {ScanString(text, cursor).value}, depth)
  {
    hide SkipWs, ScanString, ScanValue;
  }

  lemma {:induction false} MembersSound(text: Text, cursor: nat, keys: set<Text>, depth: nat) returns (ms: Members)
    requires cursor <= |text| && ScanMembers(text, cursor, keys, depth) >= 0
    ensures DerivesMembers(ms) && UniqueInMembers(ms) && NoRepeats(KeysOf(ms))
    ensures forall k :: k in KeysOf(ms) ==> k !in keys
    ensures depth + 1 + MembersDepth(ms) <= JSON_MAX_NESTING_DEPTH
    ensures At(text, cursor, MembersText(ms)) && ScanMembers(text, cursor, keys, depth) == cursor + |MembersText(ms)|
    decreases |text| - cursor, 1
  {
    hide At, MembersText, ValueText, MemberHead, DerivesMembers, Derives, UniqueInMembers, UniqueKeys, MembersDepth,
         Depth, KeysOf, NoRepeats, ScanValue, ScanString, StringText, Decoded, HeadOk, ScanMembers;
    TurnSucceeded(text, cursor, keys, depth);
    var key := ScanString(text, cursor);
    var c := SkipWs(text, key.end);
    var m := MemberSound(text, cursor, depth);
    var e := ScanValue(text, c + 1, depth + 1);
    var c2 := SkipWs(text, e);
    if Is(text, c2, 0x7D) {
      ms := LastMember(m);
      LastMemberFacts(m);
      AtOne(text, c2, 0x7D);
      Join3(text, cursor, MemberHead(m), ValueText(m.value), m.after, [0x7D]);
      NoRepeatsOne(key.value);
    } else {
      var c3 := SkipWs(text, c2 + 1);
      SkipWsSound(text, c2 + 1);
      var rest := MembersSound(text, c3, keys + {key.value}, depth);
      var ws := text[c2 + 1..c3];
      ms := MoreMembers(m, ws, rest);
      MoreMembersFacts(m, ws, rest);
      CommaAt(text, c2, c3, MembersText(rest));
      Join3(text, cursor, MemberHead(m), ValueText(m.value), m.after, [0x2C] + (ws + MembersText(rest)));
      NoRepeatsCons(key.value, KeysOf(rest));
    }
  }

  lemma NoRepeatsOne(key: Text)
    ensures NoRepeats([key])
  {}

  lemma HeadAt(text: Text, cursor: nat, m: Member, keyEnd: nat, colon: nat)
    requires At(text, cursor, StringText(m.key)) && keyEnd == cursor + |StringText(m.key)|
    requires keyEnd <= colon < |text| && text[keyEnd..colon] == m.beforeColon && text[colon] == 0x3A
    requires colon + 1 + |m.afterColon| <= |text| && text[colon + 1..colon + 1 + |m.afterColon|] == m.afterColon
    ensures At(text, cursor, MemberHead(m))
    ensures cursor + |MemberHead(m)| == colon + 1 + |m.afterColon|
  {
    hide StringText;
    AtOne(text, colon, 0x3A);
    AtSplit(text, colon, [0x3A], m.afterColon);
    AtSplit(text, keyEnd, m.beforeColon, [0x3A] + m.afterColon);
    AtSplit(text, cursor, StringText(m.key), m.beforeColon + ([0x3A] + m.afterColon));
  }

  lemma NoRepeatsCons(key: Text, rest: seq<Text>)
    requires NoRepeats(rest) && key !in rest
    ensures NoRepeats([key] + rest)
  {}

  lemma LastElementFacts(v: Value, after: Text)
    requires Derives(v) && AllWs(after)
    ensures var es := LastElement(v, after);
      && DerivesElements(es)
      && ElementsText(es) == ValueText(v) + (after + [0x5D])
      && ElementsDepth(es) == Depth(v)
      && (UniqueInElements(es) <==> UniqueKeys(v))
  {}

  lemma MoreElementsFacts(v: Value, after: Text, ws: Text, rest: Elements)
    requires Derives(v) && AllWs(after) && AllWs(ws) && DerivesElements(rest)
    ensures var es := MoreElements(v, after, ws, rest);
      && DerivesElements(es)
      && ElementsText(es) == ValueText(v) + (after + ([0x2C] + (ws + ElementsText(rest))))
      && ElementsDepth(es) == Max(Depth(v), ElementsDepth(rest))
      && (UniqueInElements(es) <==> UniqueKeys(v) && UniqueInElements(rest))
  {}

  lemma Join2(text: Text, i: nat, a: Text, b: Text, c: Text)
    requires At(text, i, a) && At(text, i + |a|, b) && At(text, i + |a| + |b|, c)
    ensures At(text, i, a + (b + c))
  {
    hide At;
    AtSplit(text, i + |a|, b, c);
    AtSplit(text, i, a, b + c);
  }

  lemma {:induction false} ElementsSound(text: Text, cursor: nat, depth: nat) returns (es: Elements)
    requires cursor <= |text| && ScanElements(text, cursor, depth) >= 0 && SkipWs(text, cursor) == cursor
    ensures DerivesElements(es) && UniqueInElements(es)
    ensures depth + 1 + ElementsDepth(es) <= JSON_MAX_NESTING_DEPTH
    ensures At(text, cursor, ElementsText(es)) && ScanElements(text, cursor, depth) == cursor + |ElementsText(es)|
    decreases |text| - cursor, 2
  {
    hide At, ElementsText, ValueText, DerivesElements, Derives, UniqueInElements, UniqueKeys, ElementsDepth, Depth, ScanValue;
    hide SkipWs, AllWs;
    var v := ValueSound(text, cursor, depth + 1);
    var e := ScanValue(text, cursor, depth + 1);
    var c2 := SkipWs(text, e);
    SkipWsSound(text, e);
    AtSlice(text, e, c2);
    var space := text[e..c2];
    if Is(text, c2, 0x5D) {
      es := LastElement(v, space);
      LastElementFacts(v, space);
      AtOne(text, c2, 0x5D);
      Join2(text, cursor, ValueText(v), space, [0x5D]);
    } else {
      var c3 := SkipWs(text, c2 + 1);
      SkipWsSound(text, c2 + 1);
      var rest := ElementsSound(text, c3, depth);
      var ws := text[c2 + 1..c3];
      es := MoreElements(v, space, ws, rest);
      MoreElementsFacts(v, space, ws, rest);
      CommaAt(text, c2, c3, ElementsText(rest));
      Join2(text, cursor, ValueText(v), space, [0x2C] + (ws + ElementsText(rest)));
    }
  }

  // ---------------------------------------------------------------- completeness

  /** The first unit of a value decides which branch of the scan it takes. */
  lemma ValueHead(v: Value)
    requires Derives(v)
    ensures ValueText(v) != []
    ensures var c := ValueText(v)[0];
      && !IsWs(c)
      && (v.StringV? <==> c == 0x22)
      && (v.EmptyObject? || v.ObjectV? <==> c == 0x7B)
      && (v.EmptyArray? || v.ArrayV? <==> c == 0x5B)
      && (v.NumberV? ==> c == 0x2D || IsDigit(c))
  {
    if v.LiteralV? {
    } else if v.NumberV? {
      assert ValueText(v)[0] == if v.number.minus then 0x2D else v.number.whole[0];
    }
  }

  lemma NumberIsNoLiteral(text: Text, c: nat, n: NumberToken)
    requires c < |text| && (text[c] == 0x2D || IsDigit(text[c]))
    ensures MatchLiteral(text, c) == -1
  {
    if StartsWith(text, c, LiteralText(True)) { AtHead(text, c, LiteralText(True)); }
    if StartsWith(text, c, LiteralText(False)) { AtHead(text, c, LiteralText(False)); }
    if StartsWith(text, c, LiteralText(Null)) { AtHead(text, c, LiteralText(Null)); }
  }

  lemma {:induction false} ValueComplete(text: Text, start: nat, w: Text, v: Value, depth: nat)
    requires AllWs(w) && Derives(v) && UniqueKeys(v) && depth + Depth(v) <= JSON_MAX_NESTING_DEPTH
    requires At(text, start, w) && At(text, start + |w|, ValueText(v)) && Follows(text, start + |w| + |ValueText(v)|)
    ensures start <= |text| && ScanValue(text, start, depth) == start + |w| + |ValueText(v)|
    decreases v, 1
  {
    hide At, MatchNumber, NumberText, MatchLiteral, LiteralText, StringText, ScanString;
    var c := start + |w|;
    ValueHead(v);
    AtHead(text, c, ValueText(v));
    SkipWsComplete(text, start, w);
    match v
    case StringV(items) => ScanStringComplete(text, c, items);
    case NumberV(n) =>
      NumberIsNoLiteral(text, c, n);
      NumberComplete(text, c, n);
    case LiteralV(l) => LiteralComplete(text, c, l);
    case _ => ContainerComplete(text, start, w, v, depth);
  }

  lemma UnwrapAt(text: Text, c: nat, open: CodeUnit, ws: Text, inner: Text)
    requires At(text, c, [open] + (ws + inner)) && AllWs(ws) && inner != [] && !IsWs(inner[0])
    ensures c < |text| && text[c] == open && SkipWs(text, c + 1) == c + 1 + |ws|
    ensures At(text, c + 1 + |ws|, inner) && Is(text, c + 1 + |ws|, inner[0])
  {
    hide At;
    AtSplit(text, c, [open], ws + inner);
    AtSplit(text, c + 1, ws, inner);
    AtOne(text, c, open);
    AtHead(text, c + 1 + |ws|, inner);
    SkipWsComplete(text, c + 1, ws);
  }

  lemma {:induction false} ContainerComplete(text: Text, start: nat, w: Text, v: Value, depth: nat)
    requires Derives(v) && UniqueKeys(v) && depth + Depth(v) <= JSON_MAX_NESTING_DEPTH
    requires v.EmptyObject? || v.ObjectV? || v.EmptyArray? || v.ArrayV?
    requires start <= |text| && SkipWs(text, start) == start + |w| && At(text, start + |w|, ValueText(v))
    ensures ScanValue(text, start, depth) == start + |w| + |ValueText(v)|
    decreases v, 0
  {
    hide At, MembersText, ElementsText, DerivesMembers, DerivesElements, UniqueInMembers, UniqueInElements,
         MembersDepth, ElementsDepth, KeysOf, NoRepeats, ScanMembers, ScanElements;
    var c := start + |w|;
    match v
    case ObjectV(ws, ms) =>
      MembersHead(ms);
      UnwrapAt(text, c, 0x7B, ws, MembersText(ms));
      MembersComplete(text, c + 1 + |ws|, {}, ms, depth);
    case ArrayV(ws, es) =>
      ElementsHead(es);
      UnwrapAt(text, c, 0x5B, ws, ElementsText(es));
      ElementsComplete(text, c + 1 + |ws|, es, depth);
    case EmptyObject(ws) =>
      UnwrapAt(text, c, 0x7B, ws, [0x7D]);
    case EmptyArray(ws) =>
      UnwrapAt(text, c, 0x5B, ws, [0x5D]);
  }

  lemma MembersHead(ms: Members)
    ensures MembersText(ms) != [] && MembersText(ms)[0] == 0x22
  {}

  lemma ElementsHead(es: Elements)
    requires DerivesElements(es)
    ensures ElementsText(es) != [] && !IsWs(ElementsText(es)[0]) && ElementsText(es)[0] != 0x5D
  {
    ValueHead(es.v);
    assert ElementsText(es)[0] == ValueText(es.v)[0];
    if es.v.LiteralV? {}
  }

  lemma WsThen(text: Text, i: nat, w: Text, c: CodeUnit)
    requires At(text, i, w) && AllWs(w) && At(text, i + |w|, [c]) && !IsWs(c)
    ensures i <= |text| && SkipWs(text, i) == i + |w| && Is(text, i + |w|, c)
  {
    AtOne(text, i + |w|, c);
    SkipWsComplete(text, i, w);
  }

  /** A value followed by white space and a structural unit may be scanned to its end. */
  lemma FollowedBy(text: Text, i: nat, w: Text, c: CodeUnit)
    requires At(text, i, w) && AllWs(w) && At(text, i + |w|, [c]) && (c == 0x2C || c == 0x5D || c == 0x7D)
    ensures Follows(text, i)
  {
    if w != [] { AtHead(text, i, w); } else { AtOne(text, i, c); }
  }

  lemma Split3(text: Text, i: nat, a: Text, b: Text, c: Text, d: Text)
    requires At(text, i, a + (b + (c + d)))
    ensures At(text, i, a) && At(text, i + |a|, b) && At(text, i + |a| + |b|, c) && At(text, i + |a| + |b| + |c|, d)
  {
    hide At;
    AtSplit(text, i, a, b + (c + d));
    AtSplit(text, i + |a|, b, c + d);
    AtSplit(text, i + |a| + |b|, c, d);
  }

  /** White space and a structural unit after a value. */
  lemma AfterValue(text: Text, e: nat, after: Text, close: CodeUnit, tail: Text)
    requires At(text, e, after + ([close] + tail)) && AllWs(after) && (close == 0x2C || close == 0x5D || close == 0x7D)
    ensures e <= |text| && Follows(text, e)
    ensures SkipWs(text, e) == e + |after| && Is(text, e + |after|, close) && At(text, e + |after| + 1, tail)
  {
    hide At, AllWs;
    AtSplit(text, e, after, [close] + tail);
    AtSplit(text, e + |after|, [close], tail);
    FollowedBy(text, e, after, close);
    WsThen(text, e, after, close);
  }

  /** One member followed by its separator or the closing brace. */
  lemma {:induction false} MemberComplete(text: Text, cursor: nat, m: Member, close: CodeUnit, tail: Text, depth: nat)
    returns (keyEnd: nat, e: nat)
    requires HeadOk(m) && Derives(m.value) && UniqueKeys(m.value) && depth + 1 + Depth(m.value) <= JSON_MAX_NESTING_DEPTH
    requires close == 0x2C || close == 0x7D
    requires At(text, cursor, MemberHead(m) + (ValueText(m.value) + (m.after + ([close] + tail))))
    ensures ScanString(text, cursor) == StringToken(keyEnd, Decoded(m.key)) && keyEnd <= |text|
    ensures SkipWs(text, keyEnd) == keyEnd + |m.beforeColon| && Is(text, keyEnd + |m.beforeColon|, 0x3A)
    ensures ScanValue(text, keyEnd + |m.beforeColon| + 1, depth + 1) == e <= |text|
    ensures SkipWs(text, e) == e + |m.after| && Is(text, e + |m.after|, close) && At(text, e + |m.after| + 1, tail)
    ensures e == cursor + |MemberHead(m)| + |ValueText(m.value)|
    decreases m, 2
  {
    hide At, StringText, ScanString, ValueText, MemberHead, Decoded, Derives, UniqueKeys, Depth, ScanValue, SkipWs, AllWs;
    var v := m.value;
    var rest := m.after + ([close] + tail);
    AtSplit(text, cursor, MemberHead(m), ValueText(v) + rest);
    AtSplit(text, cursor + |MemberHead(m)|, ValueText(v), rest);
    e := cursor + |MemberHead(m)| + |ValueText(v)|;
    AfterValue(text, e, m.after, close, tail);
    keyEnd := MemberStart(text, cursor, m);
    ValueComplete(text, keyEnd + |m.beforeColon| + 1, m.afterColon, v, depth + 1);
  }

  /** One turn of the object loop over a member that scans well. */
  lemma MemberTurn(text: Text, cursor: nat, keys: set<Text>, depth: nat, keyEnd: nat, name: Text, colon: nat, e: nat, c2: nat)
    requires cursor <= |text| && ScanString(text, cursor) == StringToken(keyEnd, name) && name !in keys
    requires keyEnd <= |text| && SkipWs(text, keyEnd) == colon && Is(text, colon, 0x3A)
    requires ScanValue(text, colon + 1, depth + 1) == e <= |text| && SkipWs(text, e) == c2
    ensures Is(text, c2, 0x7D) ==> ScanMembers(text, cursor, keys, depth) == c2 + 1
    ensures Is(text, c2, 0x2C) ==>
      ScanMembers(text, cursor, keys, depth) == ScanMembers(text, SkipWs(text, c2 + 1), keys + {name}, depth)
  {
    hide SkipWs, ScanString, ScanValue;
  }

  lemma {:induction false} MembersComplete(text: Text, cursor: nat, keys: set<Text>, ms: Members, depth: nat)
    requires DerivesMembers(ms) && UniqueInMembers(ms) && NoRepeats(KeysOf(ms))
    requires forall k :: k in KeysOf(ms) ==> k !in keys
    requires depth + 1 + MembersDepth(ms) <= JSON_MAX_NESTING_DEPTH
    requires At(text, cursor, MembersText(ms))
    ensures cursor <= |text| && ScanMembers(text, cursor, keys, depth) == cursor + |MembersText(ms)|
    decreases ms, 0
  {
    hide At, StringText, ScanString, ValueText, MemberHead, Decoded, UniqueKeys, Depth, ScanValue, NoRepeats, MembersText,
         KeysOf, MembersDepth, UniqueInMembers, ScanMembers, SkipWs;
    var m := ms.m;
    assert KeysOf(ms)[0] == Decoded(m.key) by { KeysHead(ms); }
    match ms
    case LastMember(_) =>
      LastMemberFacts(m);
      assert [0x7D] + [] == [0x7D];
      var keyEnd, e := MemberComplete(text, cursor, m, 0x7D, [], depth);
      MemberTurn(text, cursor, keys, depth, keyEnd, Decoded(m.key), keyEnd + |m.beforeColon|, e, e + |m.after|);
    case MoreMembers(_, ws, rest) =>
      MoreMembersFacts(m, ws, rest);
      var keyEnd, e := MemberComplete(text, cursor, m, 0x2C, ws + MembersText(rest), depth);
      var c2 := e + |m.after|;
      MemberTurn(text, cursor, keys, depth, keyEnd, Decoded(m.key), keyEnd + |m.beforeColon|, e, c2);
      AtSplit(text, c2 + 1, ws, MembersText(rest));
      MembersHead(rest);
      AtHead(text, c2 + 1 + |ws|, MembersText(rest));
      SkipWsComplete(text, c2 + 1, ws);
      KeysTail(ms, keys);
      MembersComplete(text, c2 + 1 + |ws|, keys + {Decoded(m.key)}, rest, depth);
  }

  lemma KeysHead(ms: Members)
    requires DerivesMembers(ms)
    ensures KeysOf(ms) != [] && KeysOf(ms)[0] == Decoded(ms.m.key)
  {}

  lemma KeysTail(ms: Members, keys: set<Text>)
    requires ms.MoreMembers? && DerivesMembers(ms) && NoRepeats(KeysOf(ms))
    requires forall k :: k in KeysOf(ms) ==> k !in keys
    ensures NoRepeats(KeysOf(ms.rest))
    ensures forall k :: k in KeysOf(ms.rest) ==> k !in keys + {Decoded(ms.m.key)}
  {
    var all, rest := KeysOf(ms), KeysOf(ms.rest);
    assert all == [Decoded(ms.m.key)] + rest;
    forall i, j | 0 <= i < j < |rest| ensures rest[i] != rest[j] {
      assert all[i + 1] == rest[i] && all[j + 1] == rest[j];
    }
    forall k | k in rest ensures k !in keys + {Decoded(ms.m.key)} {
      var i :| 0 <= i < |rest| && rest[i] == k;
      assert all[i + 1] == k && all[0] == Decoded(ms.m.key);
    }
  }

  /** The name and colon of a member are scanned exactly. */
  lemma MemberStart(text: Text, cursor: nat, m: Member) returns (keyEnd: nat)
    requires HeadOk(m) && At(text, cursor, MemberHead(m))
    ensures ScanString(text, cursor) == StringToken(keyEnd, Decoded(m.key)) && keyEnd == cursor + |StringText(m.key)|
    ensures keyEnd <= |text| && SkipWs(text, keyEnd) == keyEnd + |m.beforeColon|
    ensures Is(text, keyEnd + |m.beforeColon|, 0x3A)
    ensures At(text, keyEnd + |m.beforeColon| + 1, m.afterColon)
    ensures keyEnd + |m.beforeColon| + 1 + |m.afterColon| == cursor + |MemberHead(m)|
  {
    hide At, StringText, ScanString;
    keyEnd := cursor + |StringText(m.key)|;
    AtSplit(text, cursor, StringText(m.key), m.beforeColon + ([0x3A] + m.afterColon));
    ScanStringComplete(text, cursor, m.key);
    AtSplit(text, keyEnd, m.beforeColon, [0x3A] + m.afterColon);
    AtSplit(text, keyEnd + |m.beforeColon|, [0x3A], m.afterColon);
    WsThen(text, keyEnd, m.beforeColon, 0x3A);
  }

  lemma {:induction false} ElementComplete(text: Text, cursor: nat, v: Value, after: Text, close: CodeUnit, tail: Text, depth: nat)
    requires Derives(v) && UniqueKeys(v) && AllWs(after) && depth + 1 + Depth(v) <= JSON_MAX_NESTING_DEPTH
    requires close == 0x2C || close == 0x5D
    requires At(text, cursor, ValueText(v) + (after + ([close] + tail)))
    ensures cursor <= |text|
    ensures var e := cursor + |ValueText(v)|;
      && ScanValue(text, cursor, depth + 1) == e <= |text|
      && SkipWs(text, e) == e + |after| && Is(text, e + |after|, close)
      && At(text, e + |after| + 1, tail)
    decreases v, 2
  {
    hide At, ValueText, Derives, UniqueKeys, Depth, ScanValue;
    AtSplit(text, cursor, ValueText(v), after + ([close] + tail));
    AfterValue(text, cursor + |ValueText(v)|, after, close, tail);
    ValueHead(v);
    AtHead(text, cursor, ValueText(v));
    AtEmpty(text, cursor);
    ValueComplete(text, cursor, [], v, depth + 1);
  }

  lemma AfterComma(text: Text, cursor: nat, ws: Text, rest: Elements)
    requires AllWs(ws) && DerivesElements(rest) && At(text, cursor, ws + ElementsText(rest))
    ensures SkipWs(text, cursor) == cursor + |ws| && At(text, cursor + |ws|, ElementsText(rest))
  {
    hide At, ElementsText;
    AtSplit(text, cursor, ws, ElementsText(rest));
    ElementsHead(rest);
    AtHead(text, cursor + |ws|, ElementsText(rest));
    SkipWsComplete(text, cursor, ws);
  }

  lemma {:induction false} ElementsComplete(text: Text, cursor: nat, es: Elements, depth: nat)
    requires DerivesElements(es) && UniqueInElements(es)
    requires depth + 1 + ElementsDepth(es) <= JSON_MAX_NESTING_DEPTH
    requires At(text, cursor, ElementsText(es))
    ensures cursor <= |text| && ScanElements(text, cursor, depth) == cursor + |ElementsText(es)|
    decreases es, 0
  {
    hide At, ValueText, UniqueKeys, Depth, ScanValue, ElementsText, ElementsDepth, UniqueInElements;
    match es
    case LastElement(v, after) =>
      LastElementFacts(v, after);
      assert [0x5D] + [] == [0x5D];
      ElementComplete(text, cursor, v, after, 0x5D, [], depth);
    case MoreElements(v, after, ws, rest) =>
      MoreElementsFacts(v, after, ws, rest);
      ElementComplete(text, cursor, v, after, 0x2C, ws + ElementsText(rest), depth);
      var c2 := cursor + |ValueText(v)| + |after|;
      AfterComma(text, c2 + 1, ws, rest);
      ElementsComplete(text, c2 + 1 + |ws|, rest, depth);
  }

  // ---------------------------------------------------------------- whole texts

  function Unambiguous(text: Text): bool {
    var end := ScanValue(text, SkipWs(text, 0), 0);
    end >= 0 && SkipWs(text, end) == |text|
  }

  /** An RFC 8259 text with distinct names in every object and no value deeper than 64. */
  ghost predicate UnambiguousText(text: Text) {
    exists before, v, after :: JsonText(text, before, v, after) && UniqueKeys(v) && Depth(v) <= 64
  }

  /** The scanner accepts exactly the RFC 8259 texts with distinct names and bounded depth. */
  lemma UnambiguousExact(text: Text)
    ensures Unambiguous(text) <==> UnambiguousText(text)
  {
    if Unambiguous(text) {
      UnambiguousSound(text);
    }
    forall before, v, after |
      JsonText(text, before, v, after) && UniqueKeys(v) && Depth(v) <= JSON_MAX_NESTING_DEPTH
      ensures Unambiguous(text)
    {
      UnambiguousComplete(text, before, v, after);
    }
  }

  lemma UnambiguousSound(text: Text)
    requires Unambiguous(text)
    ensures UnambiguousText(text)
  {
    hide ScanValue, ValueText, Derives, UniqueKeys, Depth, SkipWs, AllWs, At;
    var start := SkipWs(text, 0);
    var end := ScanValue(text, start, 0);
    SkipWsSound(text, 0);
    var v := ValueSound(text, start, 0);
    SkipWsSound(text, end);
    var before, after := text[0..start], text[end..|text|];
    CutInThree(text, start, end, ValueText(v));
    assert JsonText(text, before, v, after);
  }

  lemma CutInThree(text: Text, i: nat, j: nat, t: Text)
    requires At(text, i, t) && j == i + |t|
    ensures text == text[0..i] + (t + text[j..|text|])
  {}

  lemma UnambiguousComplete(text: Text, before: Text, v: Value, after: Text)
    requires JsonText(text, before, v, after) && UniqueKeys(v) && Depth(v) <= JSON_MAX_NESTING_DEPTH
    ensures Unambiguous(text)
  {
    hide At, ScanValue, ValueText, UniqueKeys, Depth, SkipWs;
    AtSlice(text, 0, |text|);
    assert text[0..|text|] == text;
    AtSplit(text, 0, before, ValueText(v) + after);
    AtSplit(text, |before|, ValueText(v), after);
    ValueHead(v);
    AtHead(text, |before|, ValueText(v));
    SkipWsComplete(text, 0, before);
    AtEmpty(text, |before|);
    var end := |before| + |ValueText(v)|;
    if after != [] { AtHead(text, end, after); }
    ValueComplete(text, |before|, [], v, 0);
    SkipWsComplete(text, end, after);
  }

  // ---------------------------------------------------------------- the imperative scanner

  method SkipWhitespace(text: Text, start: nat) returns (cursor: nat)
    requires start <= |text|
    ensures cursor == SkipWs(text, start)
  {
    cursor := start;
    while cursor < |text| && IsWs(text[cursor])
      invariant start <= cursor <= |text| && SkipWs(text, start) == SkipWs(text, cursor)
    {
      cursor := cursor + 1;
    }
  }

  method ScanStringToken(text: Text, start: nat) returns (result: Scanned)
    ensures result == ScanString(text, start)
  {
    if !Is(text, start, 0x22) {
      return NoString;
    }
    var cursor := start + 1;
    while cursor < |text|
      invariant start < cursor && CloseQuote(text, start + 1) == CloseQuote(text, cursor)
    {
      if text[cursor] == 0x5C {
        cursor := cursor + 2;
        continue;
      }
      if text[cursor] == 0x22 {
        var parsed := JsonParseString(text[start..cursor + 1]);
        return if parsed.None? then NoString else StringToken(cursor + 1, parsed.value);
      }
      cursor := cursor + 1;
    }
    return NoString;
  }

  method ScanObject(text: Text, first: nat, depth: nat) returns (end: int)
    requires first <= |text|
    ensures end == ScanMembers(text, first, {}, depth)
    decreases |text| - first, 0
  {
    hide ScanString, ScanValue, SkipWs;
    var cursor := first;
    var keys: set<Text> := {};
    while cursor < |text|
      invariant first <= cursor <= |text|
      invariant ScanMembers(text, first, {}, depth) == ScanMembers(text, cursor, keys, depth)
    {
      var key := ScanStringToken(text, cursor);
      if key.NoString? || key.value in keys {
        return -1;
      }
      keys := keys + {key.value};
      var c := SkipWhitespace(text, key.end);
      if !Is(text, c, 0x3A) {
        return -1;
      }
      var e := ScanJsonValue(text, c + 1, depth + 1);
      if e < 0 {
        return -1;
      }
      var c2 := SkipWhitespace(text, e);
      if Is(text, c2, 0x7D) {
        return c2 + 1;
      }
      if !Is(text, c2, 0x2C) {
        return -1;
      }
      cursor := SkipWhitespace(text, c2 + 1);
    }
    return -1;
  }

  method ScanArray(text: Text, first: nat, depth: nat) returns (end: int)
    requires first <= |text|
    ensures end == ScanElements(text, first, depth)
    decreases |text| - first, 2
  {
    hide ScanValue, SkipWs;
    var cursor := first;
    while cursor < |text|
      invariant first <= cursor <= |text|
      invariant ScanElements(text, first, depth) == ScanElements(text, cursor, depth)
    {
      var e := ScanJsonValue(text, cursor, depth + 1);
      if e < 0 {
        return -1;
      }
      var c2 := SkipWhitespace(text, e);
      if Is(text, c2, 0x5D) {
        return c2 + 1;
      }
      if !Is(text, c2, 0x2C) {
        return -1;
      }
      cursor := SkipWhitespace(text, c2 + 1);
    }
    return -1;
  }

  method ScanJsonValue(text: Text, start: nat, depth: nat) returns (end: int)
    requires start <= |text|
    ensures end == ScanValue(text, start, depth)
    decreases |text| - start, 1
  {
    if depth > JSON_MAX_NESTING_DEPTH {
      return -1;
    }
    var cursor := SkipWhitespace(text, start);
    if Is(text, cursor, 0x22) {
      var s := ScanStringToken(text, cursor);
      return if s.NoString? then -1 else s.end;
    }
    if Is(text, cursor, 0x7B) {
      cursor := SkipWhitespace(text, cursor + 1);
      if Is(text, cursor, 0x7D) {
        return cursor + 1;
      }
      end := ScanObject(text, cursor, depth);
      return;
    }
    if Is(text, cursor, 0x5B) {
      cursor := SkipWhitespace(text, cursor + 1);
      if Is(text, cursor, 0x5D) {
        return cursor + 1;
      }
      end := ScanArray(text, cursor, depth);
      return;
    }
    var literal := MatchLiteral(text, cursor);
    return if literal >= 0 then literal else MatchNumber(text, cursor);
  }

  method HasUnambiguousJsonStructure(text: Text) returns (accepted: bool)
    ensures accepted <==> UnambiguousText(text)
  {
    UnambiguousExact(text);
    var start := SkipWhitespace(text, 0);
    var end := ScanJsonValue(text, start, 0);
    if end < 0 {
      return false;
    }
    var rest := SkipWhitespace(text, end);
    return rest == |text|;
  }
}
