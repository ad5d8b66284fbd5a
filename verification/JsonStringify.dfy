/** JSON.stringify on the nested arrays of strings, integers and booleans that serve as canonical keys. */
module JsonStringify {
  import opened CodeUnits
  import opened Decimals

  datatype Plain = Str(text: Text) | Int(n: nat) | Bool(b: bool) | Arr(items: seq<Plain>)

  const QUOTE: CodeUnit := 0x22
  const BACKSLASH: CodeUnit := 0x5C

  predicate IsHigh(c: CodeUnit) { 0xD800 <= c <= 0xDBFF }
  predicate IsLow(c: CodeUnit) { 0xDC00 <= c <= 0xDFFF }

  /** A surrogate without its partner is escaped; a pair is copied. */
  predicate LoneSurrogate(s: Text, i: nat)
    requires i < |s|
  {
    || (IsHigh(s[i]) && !(i + 1 < |s| && IsLow(s[i + 1])))
    || (IsLow(s[i]) && !(i > 0 && IsHigh(s[i - 1])))
  }

  function HexDigit(d: nat): CodeUnit
    requires d < 16
  {
    if d < 10 then 0x30 + d else 0x61 + (d - 10)
  }

  function Hex4(c: CodeUnit): Text {
    [HexDigit(c / 16 / 16 / 16), HexDigit(c / 16 / 16 % 16), HexDigit(c / 16 % 16), HexDigit(c % 16)]
  }

  function ShortEscape(c: CodeUnit): (e: CodeUnit)
  {
    if c == QUOTE then QUOTE
    else if c == BACKSLASH then BACKSLASH
    else if c == 8 then 0x62
    else if c == 9 then 0x74
    else if c == 10 then 0x6E
    else if c == 12 then 0x66
    else if c == 13 then 0x72
    else 0
  }

  function UnitText(c: CodeUnit, lone: bool): (t: Text)
    ensures |t| > 0 && t[0] != QUOTE
  {
    if ShortEscape(c) != 0 then [BACKSLASH, ShortEscape(c)]
    else if c < 0x20 || lone then [BACKSLASH, 0x75] + Hex4(c)
    else [c]
  }

  function Escaped(s: Text, i: nat): Text
    requires i <= |s|
    decreases |s| - i
  {
    if i == |s| then [] else UnitText(s[i], LoneSurrogate(s, i)) + Escaped(s, i + 1)
  }

  function Quoted(s: Text): Text { [QUOTE] + Escaped(s, 0) + [QUOTE] }

  function Stringify(v: Plain): (t: Text)
    decreases v, 1
  {
    match v
    case Str(s) => Quoted(s)
    case Int(n) => Decimal(n)
    case Bool(b) => if b then [0x74, 0x72, 0x75, 0x65] else [0x66, 0x61, 0x6C, 0x73, 0x65]
    case Arr(items) => [0x5B] + Items(items) + [0x5D]
  }

  function Items(vs: seq<Plain>): Text
    decreases vs, 0
  {
    if vs == [] then []
    else if |vs| == 1 then Stringify(vs[0])
    else Stringify(vs[0]) + [0x2C] + Items(vs[1..])
  }

  // ---------------------------------------------------------------- injectivity

  lemma HexInjective(c: CodeUnit, d: CodeUnit)
    requires Hex4(c) == Hex4(d)
    ensures c == d
  {
    assert Hex4(c)[0] == Hex4(d)[0] && Hex4(c)[1] == Hex4(d)[1];
    assert Hex4(c)[2] == Hex4(d)[2] && Hex4(c)[3] == Hex4(d)[3];
    assert c / 16 / 16 == d / 16 / 16;
    assert c / 16 == d / 16;
  }

  /** One printed code unit can be read off the front of any text. */
  lemma UnitPrefix(c: CodeUnit, lone: bool, x: Text, d: CodeUnit, lone': bool, y: Text)
    requires UnitText(c, lone) + x == UnitText(d, lone') + y
    ensures c == d && x == y
  {
    var p, q := UnitText(c, lone), UnitText(d, lone');
    var s := p + x;
    assert s[0] == p[0] == q[0];
    if p[0] == BACKSLASH {
      assert s[1] == p[1] == q[1];
      if p[1] == 0x75 {
        assert s[2] == p[2] == q[2] && s[3] == p[3] == q[3] && s[4] == p[4] == q[4] && s[5] == p[5] == q[5];
        assert p[2..] == Hex4(c) && q[2..] == Hex4(d);
        assert p[2..] == q[2..];
        HexInjective(c, d);
      }
    }
    assert |p| == |q|;
    assert s[|p|..] == x && s[|q|..] == y;
  }

  predicate Quoting(x: Text) { x != [] && x[0] == QUOTE }

  lemma EscapedSplit(s: Text, i: nat, x: Text)
    requires i <= |s| && Quoting(x)
    ensures i == |s| ==> Escaped(s, i) + x == x
    ensures i < |s| ==> Escaped(s, i) + x == UnitText(s[i], LoneSurrogate(s, i)) + (Escaped(s, i + 1) + x)
    ensures (Escaped(s, i) + x)[0] == QUOTE <==> i == |s|
  {}

  lemma {:induction false} EscapedPrefix(s: Text, i: nat, x: Text, t: Text, j: nat, y: Text)
    requires i <= |s| && j <= |t| && Quoting(x) && Quoting(y)
    requires Escaped(s, i) + x == Escaped(t, j) + y
    ensures s[i..] == t[j..] && x == y
    decreases |s| - i
  {
    EscapedSplit(s, i, x);
    EscapedSplit(t, j, y);
    if i < |s| {
      UnitPrefix(s[i], LoneSurrogate(s, i), Escaped(s, i + 1) + x, t[j], LoneSurrogate(t, j), Escaped(t, j + 1) + y);
      EscapedPrefix(s, i + 1, x, t, j + 1, y);
      assert s[i..] == [s[i]] + s[i + 1..] && t[j..] == [t[j]] + t[j + 1..];
    }
  }

  lemma QuotedPrefix(s: Text, x: Text, t: Text, y: Text)
    requires Quoted(s) + x == Quoted(t) + y
    ensures s == t && x == y
  {
    var whole := Quoted(s) + x;
    var close, close' := [QUOTE] + x, [QUOTE] + y;
    assert whole[1..] == Escaped(s, 0) + close;
    assert whole[1..] == Escaped(t, 0) + close';
    EscapedPrefix(s, 0, close, t, 0, close');
    assert s[0..] == s && t[0..] == t;
    assert close[1..] == x && close'[1..] == y;
  }

  /** What may follow a value inside an array, or at the end. */
  predicate Delimited(x: Text) { x == [] || x[0] == 0x2C || x[0] == 0x5D }

  /** The first code unit tells the kind of a value, and is never a delimiter. */
  function FirstUnit(v: Plain): (c: CodeUnit)
    ensures c == Stringify(v)[0] && |Stringify(v)| > 0
    ensures c != 0x2C && c != 0x5D
    ensures v.Str? <==> c == QUOTE
    ensures v.Int? <==> IsDigit(c)
    ensures v.Arr? <==> c == 0x5B
    ensures v.Bool? <==> c == 0x74 || c == 0x66
  {
    Stringify(v)[0]
  }

  lemma {:induction false} StringifyPrefix(a: Plain, x: Text, b: Plain, y: Text)
    requires Stringify(a) + x == Stringify(b) + y && Delimited(x) && Delimited(y)
    ensures a == b && x == y
    decreases a, 1
  {
    hide Quoted, Decimal, Items;
    SameKind(a, x, b, y);
    match a
    case Str(s) =>
      QuotedPrefix(s, x, b.text, y);
    case Int(n) =>
      DecimalPrefix(n, x, b.n, y);
    case Bool(v) =>
      BoolPrefix(v, x, b.b, y);
    case Arr(items) =>
      ArrSplit(items, x);
      ArrSplit(b.items, y);
      ItemsPrefix(items, [0x5D] + x, b.items, [0x5D] + y);
  }

  lemma SameKind(a: Plain, x: Text, b: Plain, y: Text)
    requires Stringify(a) + x == Stringify(b) + y
    ensures a.Str? <==> b.Str?
    ensures a.Int? <==> b.Int?
    ensures a.Bool? <==> b.Bool?
    ensures a.Arr? <==> b.Arr?
  {
    hide Stringify;
    var first, first' := FirstUnit(a), FirstUnit(b);
    assert (Stringify(a) + x)[0] == first == first';
  }

  lemma BoolPrefix(v: bool, x: Text, w: bool, y: Text)
    requires Stringify(Bool(v)) + x == Stringify(Bool(w)) + y
    ensures v == w && x == y
  {
    var whole := Stringify(Bool(v)) + x;
    assert whole[0] == Stringify(Bool(v))[0] == Stringify(Bool(w))[0];
    assert whole[|Stringify(Bool(v))|..] == x && whole[|Stringify(Bool(w))|..] == y;
  }

  lemma ArrSplit(items: seq<Plain>, x: Text)
    ensures (Stringify(Arr(items)) + x)[1..] == Items(items) + ([0x5D] + x)
    ensures ([0x5D] + x)[1..] == x
  {}

  /** What follows the first item, up to the closing bracket. */
  function ItemsTail(vs: seq<Plain>): Text
    requires vs != []
  {
    if |vs| == 1 then [] else [0x2C] + Items(vs[1..])
  }

  predicate Closing(x: Text) { x != [] && x[0] == 0x5D }

  lemma ItemsSplit(vs: seq<Plain>, x: Text)
    requires vs != []
    ensures Items(vs) + x == Stringify(vs[0]) + (ItemsTail(vs) + x)
  {}

  /** A closing bracket comes first exactly when there is no item left. */
  lemma ItemsHead(vs: seq<Plain>, x: Text)
    requires Closing(x)
    ensures (Items(vs) + x)[0] == 0x5D <==> vs == []
  {
    if vs != [] {
      ItemsSplit(vs, x);
      var c := FirstUnit(vs[0]);
      assert (Stringify(vs[0]) + (ItemsTail(vs) + x))[0] == c;
    }
  }

  lemma TailStep(vs: seq<Plain>, x: Text)
    requires vs != [] && Closing(x)
    ensures Delimited(ItemsTail(vs) + x)
    ensures (ItemsTail(vs) + x)[0] == (if |vs| == 1 then 0x5D else 0x2C)
    ensures if |vs| == 1 then ItemsTail(vs) + x == x else (ItemsTail(vs) + x)[1..] == Items(vs[1..]) + x
  {
    hide Items;
  }

  lemma {:induction false} ItemsPrefix(vs: seq<Plain>, x: Text, ws: seq<Plain>, y: Text)
    requires Items(vs) + x == Items(ws) + y && Closing(x) && Closing(y)
    ensures vs == ws && x == y
    decreases vs, 0
  {
    ItemsHead(vs, x);
    ItemsHead(ws, y);
    if vs == [] {
      assert Items(vs) + x == x && Items(ws) + y == y;
    } else {
      ItemsSplit(vs, x);
      ItemsSplit(ws, y);
      TailStep(vs, x);
      TailStep(ws, y);
      StringifyPrefix(vs[0], ItemsTail(vs) + x, ws[0], ItemsTail(ws) + y);
      if |vs| > 1 {
        ItemsPrefix(vs[1..], x, ws[1..], y);
      }
      assert vs == [vs[0]] + vs[1..] && ws == [ws[0]] + ws[1..];
    }
  }

  /** Equal texts come from equal values. */
  lemma StringifyInjective(a: Plain, b: Plain)
    ensures Stringify(a) == Stringify(b) <==> a == b
  {
    if Stringify(a) == Stringify(b) {
      assert Stringify(a) + [] == Stringify(b) + [];
      StringifyPrefix(a, [], b, []);
    }
  }
}
