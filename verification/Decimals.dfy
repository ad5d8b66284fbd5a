/** Canonical decimal numerals, as `String(n)` prints them and `Number(text)` reads them. */
module Decimals {
  import opened CodeUnits

  predicate IsDigit(c: CodeUnit) { 0x30 <= c <= 0x39 }

  predicate AllDigits(t: Text) { forall i :: 0 <= i < |t| ==> IsDigit(t[i]) }

  function Decimal(n: nat): (t: Text)
    ensures |t| > 0 && AllDigits(t)
    ensures t[0] == 0x30 ==> n == 0 && |t| == 1
  {
    if n < 10 then [0x30 + n] else Decimal(n / 10) + [0x30 + n % 10]
  }

  function ReadDecimal(t: Text): (n: nat)
    requires AllDigits(t)
  {
    if t == [] then 0 else ReadDecimal(t[..|t| - 1]) * 10 + (t[|t| - 1] - 0x30)
  }

  lemma {:induction false} ReadBack(n: nat)
    ensures ReadDecimal(Decimal(n)) == n
  {
    var t := Decimal(n);
    if n < 10 {
      assert t[..0] == [];
    } else {
      ReadBack(n / 10);
      assert t[..|t| - 1] == Decimal(n / 10);
    }
  }

  /** The numerals the pointer syntax admits: "0", or digits without a leading zero. */
  predicate Canonical(t: Text) {
    |t| > 0 && AllDigits(t) && (t[0] == 0x30 ==> |t| == 1)
  }

  lemma {:induction false} ReadPositive(t: Text)
    requires Canonical(t) && t[0] != 0x30
    ensures ReadDecimal(t) >= 1
  {
    if |t| == 1 {
      assert t[..0] == [];
    } else {
      ReadPositive(t[..|t| - 1]);
    }
  }

  lemma {:induction false} CanonicalIsPrinted(t: Text)
    requires Canonical(t)
    ensures Decimal(ReadDecimal(t)) == t
  {
    if |t| == 1 {
      assert t[..0] == [] && t == [t[0]];
    } else {
      var front := t[..|t| - 1];
      CanonicalIsPrinted(front);
      ReadPositive(front);
      var n := ReadDecimal(t);
      assert n / 10 == ReadDecimal(front) && n % 10 == t[|t| - 1] - 0x30;
      assert t == front + [t[|t| - 1]];
    }
  }

  function DigitRun(t: Text): nat {
    if t != [] && IsDigit(t[0]) then 1 + DigitRun(t[1..]) else 0
  }

  lemma {:induction false} DigitRunLength(p: Text, x: Text)
    requires AllDigits(p) && (x != [] ==> !IsDigit(x[0]))
    ensures DigitRun(p + x) == |p|
  {
    if p == [] {
      assert p + x == x;
    } else {
      DigitRunLength(p[1..], x);
      assert (p + x)[1..] == p[1..] + x;
    }
  }

  lemma DigitRunIsUnique(p: Text, x: Text, q: Text, y: Text)
    requires AllDigits(p) && AllDigits(q) && p + x == q + y
    requires x != [] ==> !IsDigit(x[0])
    requires y != [] ==> !IsDigit(y[0])
    ensures p == q && x == y
  {
    DigitRunLength(p, x);
    DigitRunLength(q, y);
    var s := p + x;
    assert s[..|p|] == p && s[..|q|] == q;
    assert s[|p|..] == x && s[|q|..] == y;
  }

  /** A numeral is recovered from any text it starts, provided no further digit follows. */
  lemma DecimalPrefix(a: nat, x: Text, b: nat, y: Text)
    requires Decimal(a) + x == Decimal(b) + y
    requires x != [] ==> !IsDigit(x[0])
    requires y != [] ==> !IsDigit(y[0])
    ensures a == b && x == y
  {
    DigitRunIsUnique(Decimal(a), x, Decimal(b), y);
    ReadBack(a);
    ReadBack(b);
  }
}
