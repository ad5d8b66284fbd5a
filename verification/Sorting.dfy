/** Array.prototype.sort with a comparator: a stable, sorted permutation. */
module Sorting {
  ghost predicate TotalOrder<T(!new)>(le: (T, T) -> bool) {
    && (forall x, y :: le(x, y) || le(y, x))
    && (forall x, y, z :: le(x, y) && le(y, z) ==> le(x, z))
    && (forall x, y :: le(x, y) && le(y, x) ==> x == y)
  }

  ghost predicate TotalPreorder<T(!new)>(le: (T, T) -> bool) {
    && (forall x, y :: le(x, y) || le(y, x))
    && (forall x, y, z :: le(x, y) && le(y, z) ==> le(x, z))
  }

  ghost predicate Sorted<T>(s: seq<T>, le: (T, T) -> bool) {
    forall i, j :: 0 <= i < j < |s| ==> le(s[i], s[j])
  }

  function Insert<T>(s: seq<T>, x: T, le: (T, T) -> bool): (r: seq<T>)
    ensures multiset(r) == multiset(s) + multiset{x}
    ensures |r| == |s| + 1
  {
    if s == [] then [x]
    else
      var last := s[|s| - 1];
      assert s == s[..|s| - 1] + [last];
      if le(last, x) then s + [x] else Insert(s[..|s| - 1], x, le) + [last]
  }

  function Sort<T>(s: seq<T>, le: (T, T) -> bool): (r: seq<T>)
    ensures multiset(r) == multiset(s)
    ensures |r| == |s|
  {
    if s == [] then []
    else
      assert s == s[..|s| - 1] + [s[|s| - 1]];
      Insert(Sort(s[..|s| - 1], le), s[|s| - 1], le)
  }

  lemma InMultiset<T>(s: seq<T>, x: T)
    ensures x in s <==> x in multiset(s)
  {}

  lemma {:induction false} InsertSorted<T(!new)>(s: seq<T>, x: T, le: (T, T) -> bool)
    requires TotalPreorder(le) && Sorted(s, le)
    ensures Sorted(Insert(s, x, le), le)
  {
    if s != [] {
      var last := s[|s| - 1];
      var front := s[..|s| - 1];
      if le(last, x) {
        forall i | 0 <= i < |s| ensures le(s[i], x) {
          if i < |s| - 1 { assert le(s[i], last); }
        }
      } else {
        InsertSorted(front, x, le);
        var r := Insert(front, x, le);
        forall i | 0 <= i < |r| ensures le(r[i], last) {
          assert r[i] in multiset(r);
          if r[i] != x {
            assert r[i] in multiset(front);
            var k :| 0 <= k < |front| && front[k] == r[i];
            assert le(s[k], s[|s| - 1]);
          }
        }
      }
    }
  }

  lemma {:induction false} SortSorted<T(!new)>(s: seq<T>, le: (T, T) -> bool)
    requires TotalPreorder(le)
    ensures Sorted(Sort(s, le), le)
  {
    if s != [] {
      SortSorted(s[..|s| - 1], le);
      InsertSorted(Sort(s[..|s| - 1], le), s[|s| - 1], le);
    }
  }

  /** The elements that come neither before nor after k, in their order. */
  ghost function Tied<T(!new)>(s: seq<T>, le: (T, T) -> bool, k: T): seq<T> {
    if s == [] then []
    else
      var last := s[|s| - 1];
      Tied(s[..|s| - 1], le, k) + if le(last, k) && le(k, last) then [last] else []
  }

  lemma TiedSnoc<T(!new)>(s: seq<T>, x: T, le: (T, T) -> bool, k: T)
    ensures Tied(s + [x], le, k) == Tied(s, le, k) + if le(x, k) && le(k, x) then [x] else []
  {
    assert (s + [x])[..|s|] == s;
  }

  lemma {:induction false} InsertStable<T(!new)>(s: seq<T>, x: T, le: (T, T) -> bool, k: T)
    requires TotalPreorder(le)
    ensures Tied(Insert(s, x, le), le, k) == Tied(s, le, k) + if le(x, k) && le(k, x) then [x] else []
  {
    hide Tied;
    TiedSnoc(s, x, le, k);
    if s != [] {
      var front, last := s[..|s| - 1], s[|s| - 1];
      assert front + [last] == s;
      TiedSnoc(front, last, le, k);
      if !le(last, x) {
        InsertStable(front, x, le, k);
        TiedSnoc(Insert(front, x, le), last, le, k);
        assert le(last, k) && le(k, x) ==> le(last, x);
      }
    } else {
      assert [] + [x] == [x];
    }
  }

  /** The sort is stable: elements that tie keep their order. */
  lemma {:induction false} SortStable<T(!new)>(s: seq<T>, le: (T, T) -> bool, k: T)
    requires TotalPreorder(le)
    ensures Tied(Sort(s, le), le, k) == Tied(s, le, k)
  {
    if s != [] {
      SortStable(s[..|s| - 1], le, k);
      InsertStable(Sort(s[..|s| - 1], le), s[|s| - 1], le, k);
    }
  }

  lemma HeadIsLeast<T(!new)>(a: seq<T>, x: T, le: (T, T) -> bool)
    requires TotalPreorder(le) && Sorted(a, le) && x in a
    ensures le(a[0], x)
  {
    var i :| 0 <= i < |a| && a[i] == x;
    assert le(x, x);
    if i > 0 { assert le(a[0], a[i]); }
  }

  lemma TailMultiset<T>(a: seq<T>)
    requires a != []
    ensures multiset(a[1..]) == multiset(a) - multiset{a[0]}
  {
    assert a == [a[0]] + a[1..];
  }

  /** A sorted permutation under a total order is unique. */
  lemma {:induction false} SortedUnique<T(!new)>(a: seq<T>, b: seq<T>, le: (T, T) -> bool)
    requires TotalOrder(le) && Sorted(a, le) && Sorted(b, le) && multiset(a) == multiset(b)
    ensures a == b
  {
    if a == [] {
      assert |multiset(b)| == 0;
    } else {
      assert |multiset(b)| == |a|;
      InMultiset(a, b[0]);
      InMultiset(b, a[0]);
      HeadIsLeast(a, b[0], le);
      HeadIsLeast(b, a[0], le);
      TailMultiset(a);
      TailMultiset(b);
      SortedUnique(a[1..], b[1..], le);
      assert a == [a[0]] + a[1..] && b == [b[0]] + b[1..];
    }
  }

  lemma SortIdempotent<T(!new)>(s: seq<T>, le: (T, T) -> bool)
    requires TotalOrder(le)
    ensures Sort(Sort(s, le), le) == Sort(s, le)
  {
    SortSorted(s, le);
    SortSorted(Sort(s, le), le);
    SortedUnique(Sort(Sort(s, le), le), Sort(s, le), le);
  }

  /** Sorting is a canonical form of the multiset. */
  lemma SortCanonical<T(!new)>(a: seq<T>, b: seq<T>, le: (T, T) -> bool)
    requires TotalOrder(le)
    ensures Sort(a, le) == Sort(b, le) <==> multiset(a) == multiset(b)
  {
    if multiset(a) == multiset(b) {
      SortSorted(a, le);
      SortSorted(b, le);
      SortedUnique(Sort(a, le), Sort(b, le), le);
    }
  }
}
