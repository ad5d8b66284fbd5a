/** JavaScript strings: finite sequences of UTF-16 code units, ordered code unit by code unit. */
module CodeUnits {
  type CodeUnit = c: int | 0 <= c < 0x1_0000
  type Text = seq<CodeUnit>

  /** The code units of an ASCII literal. */
  function Ascii(s: string): (t: Text)
    requires forall i :: 0 <= i < |s| ==> s[i] < 128 as char
    ensures |t| == |s|
  {
    seq(|s|, i requires 0 <= i < |s| => s[i] as int)
  }

  /** The strict order of `<` on strings. */
  predicate Below(a: Text, b: Text) {
    if b == [] then false
    else if a == [] then true
    else if a[0] != b[0] then a[0] < b[0]
    else Below(a[1..], b[1..])
  }

  /** The texts agree up to k, where a ends or has the smaller unit. */
  ghost predicate DiffersAt(a: Text, b: Text, k: nat) {
    k <= |a| && k < |b| && (forall i :: 0 <= i < k ==> a[i] == b[i]) && (k == |a| || a[k] < b[k])
  }

  /** The order is lexicographic: a smaller unit at the first difference, or a shorter text. */
  lemma {:induction false} BelowExact(a: Text, b: Text)
    ensures Below(a, b) <==> exists k: nat :: DiffersAt(a, b, k)
  {
    if a != [] && b != [] && a[0] == b[0] {
      var x, y := a[1..], b[1..];
      BelowExact(x, y);
      if Below(a, b) {
        var k: nat :| DiffersAt(x, y, k);
        assert forall i :: 0 < i <= k ==> a[i] == x[i - 1] && b[i] == y[i - 1];
        assert DiffersAt(a, b, k + 1);
      }
      if k: nat :| DiffersAt(a, b, k) {
        assert DiffersAt(x, y, k - 1);
      }
    } else if b != [] {
      assert Below(a, b) ==> DiffersAt(a, b, 0);
    }
  }

  function CompareCodeUnits(left: Text, right: Text): int {
    if Below(left, right) then -1 else if Below(right, left) then 1 else 0
  }

  predicate AtMost(a: Text, b: Text) { !Below(b, a) }

  lemma {:induction false} BelowTrichotomy(a: Text, b: Text)
    ensures !(Below(a, b) && Below(b, a))
    ensures Below(a, b) || Below(b, a) || a == b
    ensures !Below(a, a)
  {
    if a != [] {
      BelowTrichotomy(a[1..], a[1..]);
      if b != [] && a[0] == b[0] {
        BelowTrichotomy(a[1..], b[1..]);
        if a[1..] == b[1..] {
          assert a == [a[0]] + a[1..] && b == [b[0]] + b[1..];
        }
      }
    }
  }

  lemma {:induction false} BelowTransitive(a: Text, b: Text, c: Text)
    requires Below(a, b) && Below(b, c)
    ensures Below(a, c)
  {
    if a != [] && a[0] == b[0] == c[0] {
      BelowTransitive(a[1..], b[1..], c[1..]);
    }
  }

  lemma AtMostTransitive(a: Text, b: Text, c: Text)
    requires AtMost(a, b) && AtMost(b, c)
    ensures AtMost(a, c)
  {
    BelowTrichotomy(a, b);
    BelowTrichotomy(b, c);
    if Below(a, b) && Below(b, c) {
      BelowTransitive(a, b, c);
    }
    BelowTrichotomy(a, c);
  }

  // ---------------------------------------------------------------- comparator chains

  /** compare(a0, b0) || compare(a1, b1) || ... over the fields of two records. */
  function FirstDifference(a: seq<Text>, b: seq<Text>): int
    requires |a| == |b|
  {
    if a == [] then 0
    else
      var c := CompareCodeUnits(a[0], b[0]);
      if c != 0 then c else FirstDifference(a[1..], b[1..])
  }

  lemma {:induction false} FirstDifferenceOrder(a: seq<Text>, b: seq<Text>)
    requires |a| == |b|
    ensures FirstDifference(a, b) == -FirstDifference(b, a)
    ensures FirstDifference(a, b) == 0 <==> a == b
  {
    if a != [] {
      BelowTrichotomy(a[0], b[0]);
      FirstDifferenceOrder(a[1..], b[1..]);
      assert a == [a[0]] + a[1..] && b == [b[0]] + b[1..];
    }
  }

  lemma {:induction false} FirstDifferenceTransitive(a: seq<Text>, b: seq<Text>, c: seq<Text>)
    requires |a| == |b| == |c|
    requires FirstDifference(a, b) <= 0 && FirstDifference(b, c) <= 0
    ensures FirstDifference(a, c) <= 0
  {
    if a != [] {
      BelowTrichotomy(a[0], b[0]);
      BelowTrichotomy(b[0], c[0]);
      BelowTrichotomy(a[0], c[0]);
      AtMostTransitive(a[0], b[0], c[0]);
      if a[0] == b[0] == c[0] {
        FirstDifferenceTransitive(a[1..], b[1..], c[1..]);
      }
    }
  }
}
