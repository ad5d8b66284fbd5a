/** The grammar of RFC 8259, sections 2 to 7, as derivation trees and the texts they derive. */
module JsonGrammar {
  import opened CodeUnits
  import opened Decimals

  // ---------------------------------------------------------------- tokens

  predicate IsWs(c: CodeUnit) { c == 0x20 || c == 0x09 || c == 0x0A || c == 0x0D }

  predicate AllWs(t: Text) { forall i :: 0 <= i < |t| ==> IsWs(t[i]) }

  predicate IsHex(c: CodeUnit) { IsDigit(c) || 0x41 <= c <= 0x46 || 0x61 <= c <= 0x66 }

  function HexValue(c: CodeUnit): (v: nat)
    requires IsHex(c)
    ensures v < 16
  {
    if IsDigit(c) then c - 0x30 else if c <= 0x46 then c - 0x41 + 10 else c - 0x61 + 10
  }

  /** The eight two-character escapes of section 7; None for any other letter. */
  function EscapeValue(e: CodeUnit): int {
    if e == 0x22 || e == 0x5C || e == 0x2F then e
    else if e == 0x62 then 8
    else if e == 0x66 then 12
    else if e == 0x6E then 10
    else if e == 0x72 then 13
    else if e == 0x74 then 9
    else -1
  }

  datatype StringItem =
    | Unescaped(c: CodeUnit)
    | Escape(e: CodeUnit)
    | Unicode(a: CodeUnit, b: CodeUnit, c4: CodeUnit, d: CodeUnit)

  predicate ItemOk(it: StringItem) {
    match it
    case Unescaped(c) => c >= 0x20 && c != 0x22 && c != 0x5C
    case Escape(e) => EscapeValue(e) >= 0
    case Unicode(a, b, c, d) => IsHex(a) && IsHex(b) && IsHex(c) && IsHex(d)
  }

  function ItemText(it: StringItem): Text {
    match it
    case Unescaped(c) => [c]
    case Escape(e) => [0x5C, e]
    case Unicode(a, b, c, d) => [0x5C, 0x75, a, b, c, d]
  }

  function ItemValue(it: StringItem): CodeUnit
    requires ItemOk(it)
  {
    match it
    case Unescaped(c) => c
    case Escape(e) => EscapeValue(e)
    case Unicode(a, b, c, d) => HexValue(a) * 0x1000 + HexValue(b) * 0x100 + HexValue(c) * 0x10 + HexValue(d)
  }

  predicate ItemsOk(items: seq<StringItem>) { forall i :: 0 <= i < |items| ==> ItemOk(items[i]) }

  function BodyText(items: seq<StringItem>): Text {
    if items == [] then [] else ItemText(items[0]) + BodyText(items[1..])
  }

  function Decoded(items: seq<StringItem>): Text
    requires ItemsOk(items)
  {
    if items == [] then [] else [ItemValue(items[0])] + Decoded(items[1..])
  }

  function StringText(items: seq<StringItem>): (t: Text)
    ensures |t| == |BodyText(items)| + 2
  {
    [0x22] + (BodyText(items) + [0x22])
  }

  datatype Exponent = NoExponent | Exponent(e: CodeUnit, sign: Text, digits: Text)

  /** An empty fraction means that there is none. */
  datatype NumberToken = NumberToken(minus: bool, whole: Text, fraction: Text, exponent: Exponent)

  predicate ExponentOk(x: Exponent) {
    x.NoExponent? ||
    ((x.e == 0x65 || x.e == 0x45) && (x.sign == [] || x.sign == [0x2B] || x.sign == [0x2D])
     && x.digits != [] && AllDigits(x.digits))
  }

  predicate NumberOk(n: NumberToken) {
    Canonical(n.whole) && AllDigits(n.fraction) && ExponentOk(n.exponent)
  }

  function MinusText(minus: bool): Text { if minus then [0x2D] else [] }

  function FractionText(fraction: Text): Text { if fraction == [] then [] else [0x2E] + fraction }

  function ExponentText(x: Exponent): Text {
    if x.NoExponent? then [] else [x.e] + (x.sign + x.digits)
  }

  function NumberText(n: NumberToken): Text {
    MinusText(n.minus) + (n.whole + (FractionText(n.fraction) + ExponentText(n.exponent)))
  }

  datatype Literal = True | False | Null

  function LiteralText(l: Literal): Text {
    match l
    case True => [0x74, 0x72, 0x75, 0x65]
    case False => [0x66, 0x61, 0x6C, 0x73, 0x65]
    case Null => [0x6E, 0x75, 0x6C, 0x6C]
  }

  // ---------------------------------------------------------------- derivation trees

  datatype Value =
    | StringV(items: seq<StringItem>)
    | NumberV(number: NumberToken)
    | LiteralV(literal: Literal)
    | EmptyObject(ws: Text)
    | ObjectV(ws: Text, members: Members)
    | EmptyArray(ws: Text)
    | ArrayV(ws: Text, elements: Elements)

  datatype Member = Member(key: seq<StringItem>, beforeColon: Text, afterColon: Text, value: Value, after: Text)
  datatype Members = LastMember(m: Member) | MoreMembers(m: Member, ws: Text, rest: Members)
  datatype Elements = LastElement(v: Value, after: Text) | MoreElements(v: Value, after: Text, ws: Text, rest: Elements)

  function ValueText(v: Value): Text {
    match v
    case StringV(items) => StringText(items)
    case NumberV(n) => NumberText(n)
    case LiteralV(l) => LiteralText(l)
    case EmptyObject(ws) => [0x7B] + (ws + [0x7D])
    case ObjectV(ws, ms) => [0x7B] + (ws + MembersText(ms))
    case EmptyArray(ws) => [0x5B] + (ws + [0x5D])
    case ArrayV(ws, es) => [0x5B] + (ws + ElementsText(es))
  }

  /** A member up to its value: the name, the colon and the white space around it. */
  function MemberHead(m: Member): Text {
    StringText(m.key) + (m.beforeColon + ([0x3A] + m.afterColon))
  }

  /** The members up to and including the closing brace. */
  function MembersText(ms: Members): Text {
    match ms
    case LastMember(m) => MemberHead(m) + (ValueText(m.value) + (m.after + [0x7D]))
    case MoreMembers(m, ws, rest) =>
      MemberHead(m) + (ValueText(m.value) + (m.after + ([0x2C] + (ws + MembersText(rest)))))
  }

  /** The elements up to and including the closing bracket. */
  function ElementsText(es: Elements): Text {
    match es
    case LastElement(v, after) => ValueText(v) + (after + [0x5D])
    case MoreElements(v, after, ws, rest) => ValueText(v) + (after + ([0x2C] + (ws + ElementsText(rest))))
  }

  predicate Derives(v: Value) {
    match v
    case StringV(items) => ItemsOk(items)
    case NumberV(n) => NumberOk(n)
    case LiteralV(_) => true
    case EmptyObject(ws) => AllWs(ws)
    case ObjectV(ws, ms) => AllWs(ws) && DerivesMembers(ms)
    case EmptyArray(ws) => AllWs(ws)
    case ArrayV(ws, es) => AllWs(ws) && DerivesElements(es)
  }

  predicate HeadOk(m: Member) {
    ItemsOk(m.key) && AllWs(m.beforeColon) && AllWs(m.afterColon) && AllWs(m.after)
  }

  predicate DerivesMembers(ms: Members) {
    HeadOk(ms.m) && Derives(ms.m.value) && (ms.MoreMembers? ==> AllWs(ms.ws) && DerivesMembers(ms.rest))
  }

  predicate DerivesElements(es: Elements) {
    Derives(es.v) && AllWs(es.after) && (es.MoreElements? ==> AllWs(es.ws) && DerivesElements(es.rest))
  }

  // ---------------------------------------------------------------- depth and keys

  function Max(a: nat, b: nat): nat { if a >= b then a else b }

  /** How far below a value its deepest component sits. */
  function Depth(v: Value): nat {
    match v
    case ObjectV(_, ms) => 1 + MembersDepth(ms)
    case ArrayV(_, es) => 1 + ElementsDepth(es)
    case _ => 0
  }

  function MembersDepth(ms: Members): nat {
    if ms.LastMember? then Depth(ms.m.value) else Max(Depth(ms.m.value), MembersDepth(ms.rest))
  }

  function ElementsDepth(es: Elements): nat {
    if es.LastElement? then Depth(es.v) else Max(Depth(es.v), ElementsDepth(es.rest))
  }

  /** The decoded member names, in order and with repetitions. */
  function KeysOf(ms: Members): (keys: seq<Text>)
    requires DerivesMembers(ms)
  {
    [Decoded(ms.m.key)] + (if ms.LastMember? then [] else KeysOf(ms.rest))
  }

  predicate NoRepeats(keys: seq<Text>) { forall i, j :: 0 <= i < j < |keys| ==> keys[i] != keys[j] }

  /** In every object of the value the decoded names are pairwise distinct. */
  predicate UniqueKeys(v: Value)
    requires Derives(v)
  {
    match v
    case ObjectV(_, ms) => NoRepeats(KeysOf(ms)) && UniqueInMembers(ms)
    case ArrayV(_, es) => UniqueInElements(es)
    case _ => true
  }

  predicate UniqueInMembers(ms: Members)
    requires DerivesMembers(ms)
  {
    UniqueKeys(ms.m.value) && (ms.MoreMembers? ==> UniqueInMembers(ms.rest))
  }

  predicate UniqueInElements(es: Elements)
    requires DerivesElements(es)
  {
    UniqueKeys(es.v) && (es.MoreElements? ==> UniqueInElements(es.rest))
  }

  /** JSON-text = ws value ws. */
  ghost predicate JsonText(text: Text, before: Text, v: Value, after: Text) {
    AllWs(before) && Derives(v) && AllWs(after) && text == before + (ValueText(v) + after)
  }

  // ---------------------------------------------------------------- texts inside texts

  ghost predicate At(text: Text, i: nat, t: Text) {
    i + |t| <= |text| && text[i..i + |t|] == t
  }

  lemma AtSplit(text: Text, i: nat, a: Text, b: Text)
    ensures At(text, i, a + b) <==> At(text, i, a) && At(text, i + |a|, b)
  {
    var n, m := |a|, |b|;
    if i + n + m <= |text| {
      var t := text[i..i + n + m];
      assert t[..n] == text[i..i + n] && t[n..] == text[i + n..i + n + m];
      assert (a + b)[..n] == a && (a + b)[n..] == b;
      assert t == t[..n] + t[n..];
    }
  }

  lemma AtHead(text: Text, i: nat, t: Text)
    requires At(text, i, t) && t != []
    ensures i < |text| && text[i] == t[0]
  {
    assert text[i..i + |t|][0] == t[0];
  }

  lemma AtOne(text: Text, i: nat, c: CodeUnit)
    ensures At(text, i, [c]) <==> i < |text| && text[i] == c
  {
    if i < |text| { assert text[i..i + 1] == [text[i]]; }
  }

  lemma AtEmpty(text: Text, i: nat)
    ensures At(text, i, []) <==> i <= |text|
  {}

  lemma AtSlice(text: Text, i: nat, j: nat)
    requires i <= j <= |text|
    ensures At(text, i, text[i..j])
  {}
}
