/** Cursor scanners for JSON tokens, and their agreement with the token grammar. */
module JsonTokens {
  import opened Options
  import opened CodeUnits
  import opened Decimals
  import opened JsonGrammar

  predicate Is(text: Text, i: nat, c: CodeUnit) { i < |text| && text[i] == c }

  // ---------------------------------------------------------------- white space

  function SkipWs(text: Text, i: nat): (j: nat)
    requires i <= |text|
    ensures i <= j <= |text|
    decreases |text| - i
  {
    if i < |text| && IsWs(text[i]) then SkipWs(text, i + 1) else i
  }

  lemma {:induction false} SkipWsSound(text: Text, i: nat)
    requires i <= |text|
    ensures AllWs(text[i..SkipWs(text, i)])
    ensures SkipWs(text, SkipWs(text, i)) == SkipWs(text, i)
    decreases |text| - i
  {
    if i < |text| && IsWs(text[i]) {
      SkipWsSound(text, i + 1);
      assert text[i..SkipWs(text, i)] == [text[i]] + text[i + 1..SkipWs(text, i + 1)];
    }
  }

  lemma {:induction false} SkipWsComplete(text: Text, i: nat, w: Text)
    requires At(text, i, w) && AllWs(w)
    requires i + |w| < |text| ==> !IsWs(text[i + |w|])
    ensures SkipWs(text, i) == i + |w|
    decreases |w|
  {
    if w != [] {
      AtHead(text, i, w);
      assert w == [w[0]] + w[1..];
      AtSplit(text, i, [w[0]], w[1..]);
      SkipWsComplete(text, i + 1, w[1..]);
    }
  }

  // ---------------------------------------------------------------- strings

  /** The cursor just after the closing quote, or -1: a backslash always skips two units. */
  function CloseQuote(text: Text, cursor: nat): (end: int)
    ensures end == -1 || cursor < end <= |text|
    decreases |text| - cursor
  {
    if cursor >= |text| then -1
    else if text[cursor] == 0x5C then CloseQuote(text, cursor + 2)
    else if text[cursor] == 0x22 then cursor + 1
    else CloseQuote(text, cursor + 1)
  }

  /** JSON.parse on the inside of a string token: the rest of the token from i on must be a string body and a quote. */
  function ParseBody(tok: Text, i: nat): Option<Text>
    decreases |tok| - i
  {
    if i >= |tok| then None
    else if tok[i] == 0x22 then (if i + 1 == |tok| then Some([]) else None)
    else if tok[i] == 0x5C then
      if i + 1 >= |tok| then None
      else if tok[i + 1] == 0x75 then
        if i + 6 <= |tok| && IsHex(tok[i + 2]) && IsHex(tok[i + 3]) && IsHex(tok[i + 4]) && IsHex(tok[i + 5]) then
          Prepend(ItemValue(Unicode(tok[i + 2], tok[i + 3], tok[i + 4], tok[i + 5])), ParseBody(tok, i + 6))
        else None
      else if EscapeValue(tok[i + 1]) >= 0 then Prepend(EscapeValue(tok[i + 1]), ParseBody(tok, i + 2))
      else None
    else if tok[i] < 0x20 then None
    else Prepend(tok[i], ParseBody(tok, i + 1))
  }

  function Prepend(c: CodeUnit, rest: Option<Text>): Option<Text> {
    if rest.None? then None else Some([c] + rest.value)
  }

  /** JSON.parse on a text that starts with a quote. */
  function JsonParseString(tok: Text): Option<Text> {
    if tok != [] && tok[0] == 0x22 then ParseBody(tok, 1) else None
  }

  lemma {:induction false} ParseBodySound(tok: Text, i: nat) returns (items: seq<StringItem>)
    requires ParseBody(tok, i).Some?
    ensures i <= |tok| && ItemsOk(items) && tok[i..] == BodyText(items) + [0x22]
    ensures ParseBody(tok, i) == Some(Decoded(items))
    decreases |tok| - i
  {
    if tok[i] == 0x22 {
      items := [];
    } else {
      var it := if tok[i] != 0x5C then Unescaped(tok[i])
                else if tok[i + 1] == 0x75 then Unicode(tok[i + 2], tok[i + 3], tok[i + 4], tok[i + 5])
                else Escape(tok[i + 1]);
      var n := |ItemText(it)|;
      var rest := ParseBodySound(tok, i + n);
      items := [it] + rest;
      assert items[1..] == rest;
      assert tok[i..i + n] == ItemText(it);
      assert tok[i..] == tok[i..i + n] + tok[i + n..];
    }
  }

  lemma ItemParsed(tok: Text, i: nat, it: StringItem)
    requires ItemOk(it) && At(tok, i, ItemText(it))
    ensures ParseBody(tok, i) == Prepend(ItemValue(it), ParseBody(tok, i + |ItemText(it)|))
  {
    var t := tok[i..i + |ItemText(it)|];
    assert t[0] == tok[i];
    match it
    case Unescaped(c) =>
    case Escape(e) =>
      assert t[1] == tok[i + 1];
    case Unicode(a, b, c, d) =>
      assert t[1] == tok[i + 1] && t[2] == tok[i + 2] && t[3] == tok[i + 3] && t[4] == tok[i + 4] && t[5] == tok[i + 5];
  }

  lemma {:induction false} ParseBodyComplete(tok: Text, i: nat, items: seq<StringItem>)
    requires ItemsOk(items) && At(tok, i, BodyText(items) + [0x22]) && |tok| == i + |BodyText(items)| + 1
    ensures ParseBody(tok, i) == Some(Decoded(items))
    decreases |items|
  {
    if items != [] {
      var it := items[0];
      var tail := BodyText(items[1..]) + [0x22];
      assert BodyText(items) + [0x22] == ItemText(it) + tail;
      AtSplit(tok, i, ItemText(it), tail);
      ItemParsed(tok, i, it);
      ParseBodyComplete(tok, i + |ItemText(it)|, items[1..]);
    } else {
      assert BodyText(items) + [0x22] == [0x22];
      AtOne(tok, i, 0x22);
    }
  }

  /** JSON.parse accepts exactly the string tokens of the grammar and decodes them as section 7 says. */
  lemma JsonParseStringExact(tok: Text, value: Text)
    ensures JsonParseString(tok) == Some(value) <==>
      exists items :: ItemsOk(items) && tok == StringText(items) && value == Decoded(items)
  {
    if JsonParseString(tok) == Some(value) {
      var items := ParseBodySound(tok, 1);
      assert tok == [tok[0]] + tok[1..];
      assert tok == StringText(items);
    }
    forall items | ItemsOk(items) && tok == StringText(items) ensures JsonParseString(tok) == Some(Decoded(items)) {
      AtSplit(tok, 0, [0x22], BodyText(items) + [0x22]);
      AtSlice(tok, 0, |tok|);
      assert tok[0..|tok|] == tok;
      ParseBodyComplete(tok, 1, items);
    }
  }

  lemma {:induction false} CloseQuoteComplete(text: Text, i: nat, items: seq<StringItem>)
    requires ItemsOk(items) && At(text, i, BodyText(items) + [0x22])
    ensures CloseQuote(text, i) == i + |BodyText(items)| + 1
    decreases |items|
  {
    if items == [] {
      assert BodyText(items) + [0x22] == [0x22];
      AtOne(text, i, 0x22);
    } else {
      var it := items[0];
      var tail := BodyText(items[1..]) + [0x22];
      assert BodyText(items) + [0x22] == ItemText(it) + tail;
      AtSplit(text, i, ItemText(it), tail);
      AtHead(text, i, ItemText(it));
      CloseQuoteComplete(text, i + |ItemText(it)|, items[1..]);
      if it.Unicode? { SkipHex(text, i, it); }
    }
  }

  /** The four hex digits after \u are ordinary units to the quote scanner. */
  lemma SkipHex(text: Text, i: nat, it: StringItem)
    requires it.Unicode? && ItemOk(it) && At(text, i, ItemText(it))
    ensures CloseQuote(text, i) == CloseQuote(text, i + 6)
  {
    var t := text[i..i + 6];
    assert t[2] == text[i + 2] && t[3] == text[i + 3] && t[4] == text[i + 4] && t[5] == text[i + 5];
    assert CloseQuote(text, i) == CloseQuote(text, i + 2);
    assert CloseQuote(text, i + 2) == CloseQuote(text, i + 3);
    assert CloseQuote(text, i + 3) == CloseQuote(text, i + 4);
    assert CloseQuote(text, i + 4) == CloseQuote(text, i + 5);
    assert CloseQuote(text, i + 5) == CloseQuote(text, i + 6);
  }

  datatype Scanned = NoString | StringToken(end: nat, value: Text)

  /** scanString: find the closing quote, then let JSON.parse judge the slice. */
  function ScanString(text: Text, start: nat): (r: Scanned)
    ensures r.StringToken? ==> start < r.end <= |text|
  {
    if !Is(text, start, 0x22) then NoString
    else
      var end := CloseQuote(text, start + 1);
      if end < 0 then NoString
      else
        match JsonParseString(text[start..end])
        case None => NoString
        case Some(value) => StringToken(end, value)
  }

  lemma ScanStringSound(text: Text, start: nat) returns (items: seq<StringItem>)
    requires ScanString(text, start).StringToken?
    ensures ItemsOk(items) && ScanString(text, start).value == Decoded(items)
    ensures At(text, start, StringText(items)) && ScanString(text, start).end == start + |StringText(items)|
  {
    var end := CloseQuote(text, start + 1);
    var tok := text[start..end];
    JsonParseStringExact(tok, ScanString(text, start).value);
    items :| ItemsOk(items) && tok == StringText(items) && ScanString(text, start).value == Decoded(items);
  }

  lemma ScanStringComplete(text: Text, start: nat, items: seq<StringItem>)
    requires ItemsOk(items) && At(text, start, StringText(items))
    ensures CloseQuote(text, start + 1) == start + |StringText(items)|
    ensures ScanString(text, start) == StringToken(start + |StringText(items)|, Decoded(items))
  {
    hide BodyText, Decoded, CloseQuote, JsonParseString;
    AtSplit(text, start, [0x22], BodyText(items) + [0x22]);
    AtOne(text, start, 0x22);
    CloseQuoteComplete(text, start + 1, items);
    JsonParseStringExact(StringText(items), Decoded(items));
  }

  // ---------------------------------------------------------------- literals

  predicate StartsWith(text: Text, cursor: nat, t: Text) {
    cursor + |t| <= |text| && text[cursor..cursor + |t|] == t
  }

  function MatchLiteral(text: Text, cursor: nat): (end: int)
    ensures end == -1 || cursor < end <= |text|
  {
    if StartsWith(text, cursor, LiteralText(True)) then cursor + 4
    else if StartsWith(text, cursor, LiteralText(False)) then cursor + 5
    else if StartsWith(text, cursor, LiteralText(Null)) then cursor + 4
    else -1
  }

  lemma LiteralComplete(text: Text, cursor: nat, l: Literal)
    requires At(text, cursor, LiteralText(l))
    ensures MatchLiteral(text, cursor) == cursor + |LiteralText(l)|
  {
    AtHead(text, cursor, LiteralText(l));
    if StartsWith(text, cursor, LiteralText(True)) { AtHead(text, cursor, LiteralText(True)); }
    if StartsWith(text, cursor, LiteralText(False)) { AtHead(text, cursor, LiteralText(False)); }
  }

  // ---------------------------------------------------------------- numbers

  function DigitsEnd(text: Text, i: nat): (j: nat)
    requires i <= |text|
    ensures i <= j <= |text|
    decreases |text| - i
  {
    if i < |text| && IsDigit(text[i]) then DigitsEnd(text, i + 1) else i
  }

  predicate DigitAt(text: Text, i: nat) { i < |text| && IsDigit(text[i]) }

  function MatchWhole(text: Text, i: nat): (end: int)
    ensures end == -1 || i < end <= |text|
  {
    if !DigitAt(text, i) then -1
    else if text[i] == 0x30 then i + 1
    else DigitsEnd(text, i + 1)
  }

  function MatchFraction(text: Text, i: nat): (end: nat)
    requires i <= |text|
    ensures i <= end <= |text|
  {
    if Is(text, i, 0x2E) && DigitAt(text, i + 1) then DigitsEnd(text, i + 1) else i
  }

  function MatchExponent(text: Text, i: nat): (end: nat)
    requires i <= |text|
    ensures i <= end <= |text|
  {
    if Is(text, i, 0x65) || Is(text, i, 0x45) then
      var s := if Is(text, i + 1, 0x2B) || Is(text, i + 1, 0x2D) then i + 2 else i + 1;
      if DigitAt(text, s) then DigitsEnd(text, s) else i
    else i
  }

  /** The sticky match of -?(?:0|[1-9][0-9]*)(?:\.[0-9]+)?(?:[eE][+-]?[0-9]+)? : greedy, optional parts dropped when they do not fit. */
  function MatchNumber(text: Text, cursor: nat): (end: int)
    ensures end == -1 || cursor < end <= |text|
  {
    var i := if Is(text, cursor, 0x2D) then cursor + 1 else cursor;
    var whole := MatchWhole(text, i);
    if whole < 0 then -1 else MatchExponent(text, MatchFraction(text, whole))
  }

  lemma {:induction false} DigitsEndSound(text: Text, i: nat)
    requires i <= |text|
    ensures AllDigits(text[i..DigitsEnd(text, i)])
    ensures !DigitAt(text, DigitsEnd(text, i))
    decreases |text| - i
  {
    if i < |text| && IsDigit(text[i]) {
      DigitsEndSound(text, i + 1);
      assert text[i..DigitsEnd(text, i)] == [text[i]] + text[i + 1..DigitsEnd(text, i + 1)];
    }
  }

  lemma {:induction false} DigitsEndComplete(text: Text, i: nat, t: Text)
    requires At(text, i, t) && AllDigits(t) && !DigitAt(text, i + |t|)
    ensures DigitsEnd(text, i) == i + |t|
    decreases |t|
  {
    if t != [] {
      AtHead(text, i, t);
      assert t == [t[0]] + t[1..];
      AtSplit(text, i, [t[0]], t[1..]);
      DigitsEndComplete(text, i + 1, t[1..]);
    }
  }

  lemma WholeSound(text: Text, i: nat)
    requires MatchWhole(text, i) >= 0
    ensures Canonical(text[i..MatchWhole(text, i)])
  {
    if text[i] != 0x30 {
      DigitsEndSound(text, i + 1);
      assert text[i..MatchWhole(text, i)] == [text[i]] + text[i + 1..DigitsEnd(text, i + 1)];
    }
  }

  lemma WholeComplete(text: Text, i: nat, whole: Text)
    requires At(text, i, whole) && Canonical(whole) && !DigitAt(text, i + |whole|)
    ensures MatchWhole(text, i) == i + |whole|
  {
    AtHead(text, i, whole);
    assert whole == [whole[0]] + whole[1..];
    AtSplit(text, i, [whole[0]], whole[1..]);
    if whole[0] != 0x30 {
      DigitsEndComplete(text, i + 1, whole[1..]);
    }
  }

  lemma FractionSound(text: Text, i: nat) returns (fraction: Text)
    requires i <= |text|
    ensures AllDigits(fraction) && At(text, i, FractionText(fraction))
    ensures MatchFraction(text, i) == i + |FractionText(fraction)|
  {
    fraction := [];
    if Is(text, i, 0x2E) && DigitAt(text, i + 1) {
      fraction := text[i + 1..DigitsEnd(text, i + 1)];
      DigitsEndSound(text, i + 1);
      assert text[i..DigitsEnd(text, i + 1)] == [0x2E] + fraction;
    }
  }

  lemma FractionComplete(text: Text, i: nat, fraction: Text)
    requires AllDigits(fraction) && At(text, i, FractionText(fraction))
    requires !DigitAt(text, i + |FractionText(fraction)|)
    requires !Is(text, i + |FractionText(fraction)|, 0x2E)
    ensures MatchFraction(text, i) == i + |FractionText(fraction)|
  {
    if fraction != [] {
      AtSplit(text, i, [0x2E], fraction);
      AtOne(text, i, 0x2E);
      AtHead(text, i + 1, fraction);
      DigitsEndComplete(text, i + 1, fraction);
    }
  }

  /** An exponent letter, an optional sign and digits make up one exponent. */
  lemma ExponentParts(text: Text, i: nat, sign: Text, digits: Text) returns (x: Exponent)
    requires Is(text, i, 0x65) || Is(text, i, 0x45)
    requires sign == [] || sign == [0x2B] || sign == [0x2D]
    requires digits != [] && AllDigits(digits) && At(text, i + 1, sign) && At(text, i + 1 + |sign|, digits)
    ensures ExponentOk(x) && At(text, i, ExponentText(x)) && |ExponentText(x)| == 1 + |sign| + |digits|
  {
    hide At, AllDigits;
    x := Exponent(text[i], sign, digits);
    AtOne(text, i, text[i]);
    AtSplit(text, i + 1, sign, digits);
    AtSplit(text, i, [text[i]], sign + digits);
  }

  lemma ExponentSound(text: Text, i: nat) returns (x: Exponent)
    requires i <= |text|
    ensures ExponentOk(x) && At(text, i, ExponentText(x))
    ensures MatchExponent(text, i) == i + |ExponentText(x)|
  {
    hide AllDigits;
    x := NoExponent;
    if Is(text, i, 0x65) || Is(text, i, 0x45) {
      var signed := Is(text, i + 1, 0x2B) || Is(text, i + 1, 0x2D);
      var s := if signed then i + 2 else i + 1;
      if DigitAt(text, s) {
        DigitsEndSound(text, s);
        AtSlice(text, s, DigitsEnd(text, s));
        if signed { AtOne(text, i + 1, text[i + 1]); }
        x := ExponentParts(text, i, if signed then [text[i + 1]] else [], text[s..DigitsEnd(text, s)]);
      }
    }
  }

  lemma ExponentComplete(text: Text, i: nat, x: Exponent)
    requires ExponentOk(x) && At(text, i, ExponentText(x))
    requires !DigitAt(text, i + |ExponentText(x)|)
    requires x.NoExponent? ==> !Is(text, i, 0x65) && !Is(text, i, 0x45)
    ensures MatchExponent(text, i) == i + |ExponentText(x)|
  {
    if x.Exponent? {
      AtSplit(text, i, [x.e], x.sign + x.digits);
      AtOne(text, i, x.e);
      AtSplit(text, i + 1, x.sign, x.digits);
      var s := i + 1 + |x.sign|;
      AtHead(text, s, x.digits);
      if x.sign != [] { AtOne(text, i + 1, x.sign[0]); }
      DigitsEndComplete(text, s, x.digits);
    }
  }

  lemma NumberSound(text: Text, cursor: nat) returns (n: NumberToken)
    requires MatchNumber(text, cursor) >= 0
    ensures NumberOk(n) && At(text, cursor, NumberText(n))
    ensures MatchNumber(text, cursor) == cursor + |NumberText(n)|
  {
    hide At, MatchWhole, MatchFraction, MatchExponent, FractionText, ExponentText, ExponentOk, Canonical;
    var minus := Is(text, cursor, 0x2D);
    var i := if minus then cursor + 1 else cursor;
    var j := MatchWhole(text, i);
    WholeSound(text, i);
    var fraction := FractionSound(text, j);
    var exponent := ExponentSound(text, MatchFraction(text, j));
    n := NumberToken(minus, text[i..j], fraction, exponent);
    AtSlice(text, i, j);
    AtOne(text, cursor, 0x2D);
    AtEmpty(text, cursor);
    AtSplit(text, j, FractionText(fraction), ExponentText(exponent));
    AtSplit(text, i, n.whole, FractionText(fraction) + ExponentText(exponent));
    AtSplit(text, cursor, MinusText(minus), n.whole + (FractionText(fraction) + ExponentText(exponent)));
  }

  /** What follows a value in a JSON text: its end, white space, or a structural character. */
  predicate Follows(text: Text, j: nat) {
    j < |text| ==> IsWs(text[j]) || text[j] == 0x2C || text[j] == 0x5D || text[j] == 0x7D
  }

  lemma TailHeads(n: NumberToken)
    requires NumberOk(n)
    ensures IsDigit(n.whole[0])
    ensures FractionText(n.fraction) != [] ==> FractionText(n.fraction)[0] == 0x2E
    ensures ExponentText(n.exponent) == [] <==> n.exponent.NoExponent?
    ensures n.exponent.Exponent? ==> ExponentText(n.exponent)[0] == 0x65 || ExponentText(n.exponent)[0] == 0x45
  {}

  lemma NumberComplete(text: Text, cursor: nat, n: NumberToken)
    requires NumberOk(n) && At(text, cursor, NumberText(n)) && Follows(text, cursor + |NumberText(n)|)
    ensures MatchNumber(text, cursor) == cursor + |NumberText(n)|
  {
    hide At, MatchWhole, MatchFraction, MatchExponent, FractionText, ExponentText, ExponentOk;
    var minus, fraction, exponent := MinusText(n.minus), FractionText(n.fraction), ExponentText(n.exponent);
    AtSplit(text, cursor, minus, n.whole + (fraction + exponent));
    var i := cursor + |minus|;
    AtSplit(text, i, n.whole, fraction + exponent);
    var j := i + |n.whole|;
    AtSplit(text, j, fraction, exponent);
    var k := j + |fraction|;
    TailHeads(n);
    AtHead(text, i, n.whole);
    if n.minus { AtOne(text, cursor, 0x2D); }
    if fraction != [] { AtHead(text, j, fraction); }
    if exponent != [] { AtHead(text, k, exponent); }
    WholeComplete(text, i, n.whole);
    FractionComplete(text, j, n.fraction);
    ExponentComplete(text, k, n.exponent);
  }
}
