/** Array.prototype.filter. */
module Lists {
  /** The elements with the property, in their order. */
  ghost function Keep<T(!new)>(s: seq<T>, p: T -> bool): seq<T> {
    if s == [] then [] else Keep(s[..|s| - 1], p) + if p(s[|s| - 1]) then [s[|s| - 1]] else []
  }

  lemma {:induction false} KeepMembers<T(!new)>(s: seq<T>, p: T -> bool)
    ensures forall x :: x in Keep(s, p) <==> x in s && p(x)
  {
    if s != [] {
      KeepMembers(s[..|s| - 1], p);
      assert s == s[..|s| - 1] + [s[|s| - 1]];
    }
  }
}
