/** packages/domain/src/dependencies.ts: when the text keys of two edges coincide. */
module EdgeKeys {
  import opened Options
  import opened CodeUnits
  import opened BlockingGraph
  import opened Dependencies

  /** One edge shadows another when the arrow text occurs inside an id. */
  ghost predicate Shadows(a: SubtaskDependency, b: SubtaskDependency) {
    exists w: Text ::
      && b.upstreamSubtaskId == a.upstreamSubtaskId + Arrow() + w
      && a.downstreamSubtaskId == w + Arrow() + b.downstreamSubtaskId
  }

  lemma SamePrefixSameKey(a: SubtaskDependency, b: SubtaskDependency)
    requires a.Key() == b.Key() && |a.upstreamSubtaskId| == |b.upstreamSubtaskId|
    ensures a.Edge() == b.Edge()
  {
    var n := |a.upstreamSubtaskId|;
    assert a.Key()[..n] == a.upstreamSubtaskId && b.Key()[..n] == b.upstreamSubtaskId;
    assert a.Key()[n + 2..] == a.downstreamSubtaskId && b.Key()[n + 2..] == b.downstreamSubtaskId;
  }

  lemma KeySlices(a: SubtaskDependency)
    ensures var n := |a.upstreamSubtaskId|;
      && |a.Key()| == n + 2 + |a.downstreamSubtaskId|
      && a.Key()[..n] == a.upstreamSubtaskId
      && a.Key()[n..n + 2] == Arrow() && a.Key()[n] == 0x2D && a.Key()[n + 1] == 0x3E
      && a.Key()[n + 2..] == a.downstreamSubtaskId
  {}

  lemma Slices(key: Text, i: nat, j: nat, k: nat)
    requires i <= j <= k <= |key|
    ensures key[i..j] + key[j..k] == key[i..k]
    ensures key[i..j] + key[j..] == key[i..]
  {}

  lemma ShorterUpstreamShadows(a: SubtaskDependency, b: SubtaskDependency)
    requires a.Key() == b.Key() && |a.upstreamSubtaskId| < |b.upstreamSubtaskId|
    ensures Shadows(a, b)
  {
    hide *;
    var n, m, key := |a.upstreamSubtaskId|, |b.upstreamSubtaskId|, a.Key();
    KeySlices(a);
    KeySlices(b);
    assert m != n + 1;
    var w := key[n + 2..m];
    Slices(key, 0, n, n + 2);
    Slices(key, 0, n + 2, m);
    Slices(key, n + 2, m, m + 2);
    Slices(key, n + 2, m + 2, |key|);
    ShadowsBy(a, b, w);
  }

  lemma ShadowsBy(a: SubtaskDependency, b: SubtaskDependency, w: Text)
    requires b.upstreamSubtaskId == a.upstreamSubtaskId + Arrow() + w
    requires a.downstreamSubtaskId == w + Arrow() + b.downstreamSubtaskId
    ensures Shadows(a, b)
  {}

  lemma ShadowsSameKey(a: SubtaskDependency, b: SubtaskDependency)
    requires Shadows(a, b)
    ensures a.Key() == b.Key()
  {
    var w: Text :| b.upstreamSubtaskId == a.upstreamSubtaskId + Arrow() + w
                   && a.downstreamSubtaskId == w + Arrow() + b.downstreamSubtaskId;
    assert a.Key() == a.upstreamSubtaskId + Arrow() + w + Arrow() + b.downstreamSubtaskId;
    assert b.Key() == a.upstreamSubtaskId + Arrow() + w + Arrow() + b.downstreamSubtaskId;
  }

  /** Duplicate detection compares keys: two edges collide exactly when they are equal or one shadows the other. */
  lemma KeyCollisionExact(a: SubtaskDependency, b: SubtaskDependency)
    ensures a.Key() == b.Key() <==> a.Edge() == b.Edge() || Shadows(a, b) || Shadows(b, a)
  {
    if a.Key() == b.Key() {
      if |a.upstreamSubtaskId| == |b.upstreamSubtaskId| { SamePrefixSameKey(a, b); }
      else if |a.upstreamSubtaskId| < |b.upstreamSubtaskId| { ShorterUpstreamShadows(a, b); }
      else { ShorterUpstreamShadows(b, a); }
    } else {
      if Shadows(a, b) { ShadowsSameKey(a, b); }
      if Shadows(b, a) { ShadowsSameKey(b, a); }
    }
  }

  ghost predicate MentionsArrow(id: SubtaskId) {
    exists i :: 0 <= i < |id| - 1 && id[i] == 0x2D && id[i + 1] == 0x3E
  }

  lemma ShadowedMentionsArrow(a: SubtaskDependency, b: SubtaskDependency)
    requires Shadows(a, b)
    ensures MentionsArrow(b.upstreamSubtaskId)
  {
    var n := |a.upstreamSubtaskId|;
    assert b.upstreamSubtaskId[n] == 0x2D && b.upstreamSubtaskId[n + 1] == 0x3E;
  }

  /** Without "->" in the upstream ids, only a repeated edge is a duplicate. */
  lemma ArrowFreeKeysAreInjective(a: SubtaskDependency, b: SubtaskDependency)
    requires !MentionsArrow(a.upstreamSubtaskId) && !MentionsArrow(b.upstreamSubtaskId)
    ensures a.Key() == b.Key() <==> a.Edge() == b.Edge()
  {
    KeyCollisionExact(a, b);
    if Shadows(a, b) { ShadowedMentionsArrow(a, b); }
    if Shadows(b, a) { ShadowedMentionsArrow(b, a); }
  }

  /** What String.prototype.trim removes. */
  predicate IsSpace(unit: nat) {
    || 0x9 <= unit <= 0xD || unit == 0x20 || unit == 0xA0 || unit == 0x1680 || 0x2000 <= unit <= 0x200A
    || unit in {0x2028, 0x2029, 0x202F, 0x205F, 0x3000, 0xFEFF}
  }

  /** isWellFormedUnicode: surrogates come in pairs. */
  predicate WellFormedUnicode(id: Text) {
    if id == [] then true
    else if 0xD800 <= id[0] <= 0xDBFF then |id| >= 2 && 0xDC00 <= id[1] <= 0xDFFF && WellFormedUnicode(id[2..])
    else !(0xDC00 <= id[0] <= 0xDFFF) && WellFormedUnicode(id[1..])
  }

  /** SubtaskIdSchema, of a text that trimming leaves as it is. */
  predicate IsSubtaskId(id: Text) {
    && 3 < |id| <= 128 && id[..3] == Ascii("st_")
    && !IsSpace(id[0]) && !IsSpace(id[|id| - 1]) && WellFormedUnicode(id)
  }

  predicate LegalEnds(d: SubtaskDependency) { IsSubtaskId(d.upstreamSubtaskId) && IsSubtaskId(d.downstreamSubtaskId) }

  lemma {:induction false} BelowSurrogatesIsWellFormed(id: Text)
    requires forall i :: 0 <= i < |id| ==> id[i] < 0xD800
    ensures WellFormedUnicode(id)
  {
    if id != [] {
      BelowSurrogatesIsWellFormed(id[1..]);
    }
  }

  lemma AsciiSubtaskId(rest: string)
    requires 0 < |rest| <= 125 && forall i :: 0 <= i < |rest| ==> '!' <= rest[i] <= '~'
    ensures IsSubtaskId(Ascii("st_" + rest))
  {
    var id := Ascii("st_" + rest);
    BelowSurrogatesIsWellFormed(id);
    assert id[..3] == Ascii("st_");
  }

  function Between(up: string, down: string): SubtaskDependency
    requires forall i :: 0 <= i < |up| ==> up[i] < 128 as char
    requires forall i :: 0 <= i < |down| ==> down[i] < 128 as char
  {
    Informational(Ascii(up), Ascii(down), Ascii("why"))
  }

  lemma LegalPair()
    ensures LegalEnds(Between("st_a", "st_b->st_c")) && LegalEnds(Between("st_a->st_b", "st_c"))
  {
    hide IsSubtaskId;
    AsciiSubtaskId("a");
    AsciiSubtaskId("c");
    AsciiSubtaskId("b->st_c");
    AsciiSubtaskId("a->st_b");
    assert "st_a" == "st_" + "a" && "st_c" == "st_" + "c";
    assert "st_b->st_c" == "st_" + "b->st_c" && "st_a->st_b" == "st_" + "a->st_b";
  }

  lemma CollidingPair()
    ensures var a, b := Between("st_a", "st_b->st_c"), Between("st_a->st_b", "st_c");
      a.Edge() != b.Edge() && a.Key() == b.Key()
  {
    assert |Ascii("st_a")| != |Ascii("st_a->st_b")|;
    assert Ascii("st_a") + Arrow() + Ascii("st_b->st_c") == Ascii("st_a->st_b") + Arrow() + Ascii("st_c");
  }

  /** Two different edges between legal ids that duplicate detection confuses. */
  lemma DistinctEdgesCanCollide()
    ensures exists a: SubtaskDependency, b: SubtaskDependency ::
      a.Edge() != b.Edge() && a.Key() == b.Key() && LegalEnds(a) && LegalEnds(b)
  {
    hide LegalEnds, Between;
    CollidingPair();
    LegalPair();
    var a, b := Between("st_a", "st_b->st_c"), Between("st_a->st_b", "st_c");
    assert a.Edge() != b.Edge() && a.Key() == b.Key() && LegalEnds(a) && LegalEnds(b);
  }
}
