/** packages/codex-adapter/src/c-lite-compatibility.ts: JSON Pointer segments and local references (RFC 6901). */
module JsonPointer {
  import opened Options
  import opened CodeUnits
  import opened Decimals
  import opened JsonValue

  const TILDE: CodeUnit := 0x7E
  const SLASH: CodeUnit := 0x2F
  const HASH: CodeUnit := 0x23

  // ---------------------------------------------------------------- segments

  /** The pattern ~(?:[^01]|$): a tilde that starts no escape. */
  predicate HasBadTilde(s: Text) {
    exists i :: 0 <= i < |s| && s[i] == TILDE && (i + 1 == |s| || (s[i + 1] != 0x30 && s[i + 1] != 0x31))
  }

  /** replaceAll of a two-unit pattern by one unit. */
  function ReplaceAll(s: Text, a: CodeUnit, b: CodeUnit, r: CodeUnit): Text {
    if |s| < 2 then s
    else if s[0] == a && s[1] == b then [r] + ReplaceAll(s[2..], a, b, r)
    else [s[0]] + ReplaceAll(s[1..], a, b, r)
  }

  /** decodePointerSegment: reject stray tildes, then two passes. */
  function DecodePointerSegment(s: Text): Option<Text> {
    if HasBadTilde(s) then None else Some(ReplaceAll(ReplaceAll(s, TILDE, 0x31, SLASH), TILDE, 0x30, TILDE))
  }

  /** Section 4 of RFC 6901, read left to right: ~1 stands for a slash, ~0 for a tilde, and nothing else may follow a tilde. */
  function Unescape(s: Text): Option<Text> {
    if s == [] then Some([])
    else if s[0] == TILDE then
      if |s| >= 2 && s[1] == 0x31 then Prefix(SLASH, Unescape(s[2..]))
      else if |s| >= 2 && s[1] == 0x30 then Prefix(TILDE, Unescape(s[2..]))
      else None
    else Prefix(s[0], Unescape(s[1..]))
  }

  function Prefix(c: CodeUnit, rest: Option<Text>): Option<Text> {
    if rest.None? then None else Some([c] + rest.value)
  }

  function EscapeUnit(c: CodeUnit): Text {
    if c == TILDE then [TILDE, 0x30] else if c == SLASH then [TILDE, 0x31] else [c]
  }

  function EscapeSegment(name: Text): Text {
    if name == [] then [] else EscapeUnit(name[0]) + EscapeSegment(name[1..])
  }

  lemma BadTildeTail(s: Text)
    requires s != []
    ensures HasBadTilde(s[1..]) ==> HasBadTilde(s)
    ensures HasBadTilde(s) ==>
      HasBadTilde(s[1..]) || (s[0] == TILDE && (|s| == 1 || (s[1] != 0x30 && s[1] != 0x31)))
  {
    var t := s[1..];
    if HasBadTilde(t) {
      var i :| 0 <= i < |t| && t[i] == TILDE && (i + 1 == |t| || (t[i + 1] != 0x30 && t[i + 1] != 0x31));
      assert s[i + 1] == TILDE;
    }
    if HasBadTilde(s) {
      var i :| 0 <= i < |s| && s[i] == TILDE && (i + 1 == |s| || (s[i + 1] != 0x30 && s[i + 1] != 0x31));
      if i > 0 { assert t[i - 1] == TILDE; }
    }
  }

  lemma DigitKept(d: CodeUnit, rest: Text)
    requires d != TILDE
    ensures ReplaceAll([d] + rest, TILDE, 0x31, SLASH) == [d] + ReplaceAll(rest, TILDE, 0x31, SLASH)
    ensures ReplaceAll([d] + rest, TILDE, 0x30, TILDE) == [d] + ReplaceAll(rest, TILDE, 0x30, TILDE)
  {
    assert ([d] + rest)[1..] == rest;
    if rest == [] { assert [d] + rest == [d]; }
  }

  lemma SecondPassTilde(rest: Text)
    ensures ReplaceAll([TILDE, 0x30] + rest, TILDE, 0x30, TILDE) == [TILDE] + ReplaceAll(rest, TILDE, 0x30, TILDE)
  {
    assert ([TILDE, 0x30] + rest)[2..] == rest;
  }

  lemma FirstPassTilde(rest: Text)
    ensures ReplaceAll([TILDE, 0x30] + rest, TILDE, 0x31, SLASH) == [TILDE, 0x30] + ReplaceAll(rest, TILDE, 0x31, SLASH)
    ensures ReplaceAll([TILDE, 0x31] + rest, TILDE, 0x31, SLASH) == [SLASH] + ReplaceAll(rest, TILDE, 0x31, SLASH)
  {
    assert ([TILDE, 0x30] + rest)[1..] == [0x30] + rest;
    assert ([TILDE, 0x31] + rest)[2..] == rest;
    DigitKept(0x30, rest);
  }

  /** The two passes compute the left-to-right reading, and fail on exactly the same segments. */
  lemma {:induction false} TwoPassesAreOne(s: Text)
    ensures DecodePointerSegment(s) == Unescape(s)
    decreases |s|
  {
    hide HasBadTilde;
    if s == [] {
      assert !HasBadTilde(s) by { EmptyHasNoTilde(); }
    } else if s[0] == TILDE && |s| >= 2 && (s[1] == 0x30 || s[1] == 0x31) {
      var rest := s[2..];
      TwoPassesAreOne(rest);
      BadTildeTail(s);
      BadTildeTail(s[1..]);
      assert s[1..][1..] == rest && s[1..][0] == s[1];
      assert s == [TILDE, s[1]] + rest;
      FirstPassTilde(rest);
      SecondPassTilde(ReplaceAll(rest, TILDE, 0x31, SLASH));
      DigitKept(SLASH, ReplaceAll(rest, TILDE, 0x31, SLASH));
    } else if s[0] == TILDE {
      StrayTilde(s);
    } else {
      TwoPassesAreOne(s[1..]);
      BadTildeTail(s);
      assert s == [s[0]] + s[1..];
      DigitKept(s[0], s[1..]);
      DigitKept(s[0], ReplaceAll(s[1..], TILDE, 0x31, SLASH));
    }
  }

  lemma EmptyHasNoTilde()
    ensures !HasBadTilde([])
  {}

  lemma StrayTilde(s: Text)
    requires s != [] && s[0] == TILDE && (|s| == 1 || (s[1] != 0x30 && s[1] != 0x31))
    ensures HasBadTilde(s)
  {}

  /** Decoding inverts escaping, for every name. */
  lemma {:induction false} EscapeRoundTrip(name: Text)
    ensures DecodePointerSegment(EscapeSegment(name)) == Some(name)
  {
    TwoPassesAreOne(EscapeSegment(name));
    UnescapeEscape(name);
  }

  lemma {:induction false} UnescapeEscape(name: Text)
    ensures Unescape(EscapeSegment(name)) == Some(name)
  {
    if name != [] {
      UnescapeEscape(name[1..]);
      var e, rest := EscapeUnit(name[0]), EscapeSegment(name[1..]);
      assert EscapeSegment(name) == e + rest;
      hide EscapeSegment;
      assert (e + rest)[|e|..] == rest && (e + rest)[0] == e[0] && (|e| == 2 ==> (e + rest)[1] == e[1]);
      assert name == [name[0]] + name[1..];
    }
  }

  // ---------------------------------------------------------------- splitting

  function Split(t: Text): (r: seq<Text>)
    ensures |r| > 0
  {
    if t == [] then [[]]
    else if t[0] == SLASH then [[]] + Split(t[1..])
    else var r := Split(t[1..]); [[t[0]] + r[0]] + r[1..]
  }

  function Join(segments: seq<Text>): Text
    requires |segments| > 0
  {
    if |segments| == 1 then segments[0] else segments[0] + [SLASH] + Join(segments[1..])
  }

  predicate SlashFree(t: Text) { forall i :: 0 <= i < |t| ==> t[i] != SLASH }

  lemma {:induction false} SplitSlashFree(t: Text, rest: Text)
    requires SlashFree(t)
    ensures Split(t) == [t]
    ensures Split(t + [SLASH] + rest) == [t] + Split(rest)
  {
    var whole := t + [SLASH] + rest;
    if t == [] {
      assert whole[0] == SLASH && whole[1..] == rest;
    } else {
      SplitSlashFree(t[1..], rest);
      assert whole[0] == t[0] && whole[1..] == t[1..] + [SLASH] + rest;
      assert t == [t[0]] + t[1..];
    }
  }

  lemma {:induction false} SplitJoin(segments: seq<Text>)
    requires |segments| > 0 && forall i :: 0 <= i < |segments| ==> SlashFree(segments[i])
    ensures Split(Join(segments)) == segments
  {
    if |segments| == 1 {
      SplitSlashFree(segments[0], []);
    } else {
      SplitJoin(segments[1..]);
      SplitSlashFree(segments[0], Join(segments[1..]));
    }
  }

  lemma {:induction false} EscapedIsSlashFree(name: Text)
    ensures SlashFree(EscapeSegment(name))
  {
    if name != [] {
      EscapedIsSlashFree(name[1..]);
    }
  }

  // ---------------------------------------------------------------- references

  /** The document and the percent-decoder; `decodeUri` returns None where decodeURIComponent throws. */
  datatype Document = Document(root: Json, decodeUri: Text -> Option<Text>)

  datatype Location = Location(node: Json, path: seq<Text>)

  function DecodeSegments(segments: seq<Text>): Option<seq<Text>> {
    if segments == [] then Some([])
    else
      match (DecodePointerSegment(segments[0]), DecodeSegments(segments[1..]))
      case (Some(name), Some(rest)) => Some([name] + rest)
      case _ => None
  }

  /** resolveLocalReference: the schema object a local reference names, and its decoded path. */
  function ResolveLocalReference(doc: Document, reference: Text): Option<Location> {
    if reference == [] || reference[0] != HASH then None
    else
      match doc.decodeUri(reference[1..])
      case None => None
      case Some(pointer) =>
        if pointer == [] then ObjectAt(doc.root, [])
        else if pointer[0] != SLASH then None
        else
          match DecodeSegments(Split(pointer[1..]))
          case None => None
          case Some(path) => ObjectAt(doc.root, path)
  }

  function ObjectAt(root: Json, path: seq<Text>): Option<Location> {
    var node := Walk(root, path);
    if node.Some? && node.value.Obj? then Some(Location(node.value, path)) else None
  }

  lemma ResolvedPathIsInPaths(doc: Document, reference: Text)
    requires ResolveLocalReference(doc, reference).Some?
    ensures ResolveLocalReference(doc, reference).value.path in Paths(doc.root)
    ensures ResolveLocalReference(doc, reference).value.node.Obj?
  {
    WalkStaysInPaths(doc.root, ResolveLocalReference(doc, reference).value.path);
  }

  method WalkPath(root: Json, path: seq<Text>) returns (location: Option<Location>)
    ensures location == ObjectAt(root, path)
  {
    var current := root;
    for i := 0 to |path|
      invariant Walk(root, path) == Walk(current, path[i..])
    {
      assert path[i..][0] == path[i] && path[i..][1..] == path[i + 1..];
      var next := Child(current, path[i]);
      if next.None? {
        return None;
      }
      current := next.value;
    }
    return if current.Obj? then Some(Location(current, path)) else None;
  }

  method DecodeAll(segments: seq<Text>) returns (path: Option<seq<Text>>)
    ensures path == DecodeSegments(segments)
  {
    var names: seq<Text> := [];
    for i := 0 to |segments|
      invariant |names| == i && forall k :: 0 <= k < i ==> DecodePointerSegment(segments[k]) == Some(names[k])
    {
      var name := DecodePointerSegment(segments[i]);
      if name.None? {
        OneBadSegment(segments, i);
        return None;
      }
      names := names + [name.value];
    }
    AllGoodSegments(segments, names);
    return Some(names);
  }

  lemma {:induction false} OneBadSegment(segments: seq<Text>, i: nat)
    requires i < |segments| && DecodePointerSegment(segments[i]).None?
    ensures DecodeSegments(segments).None?
  {
    if i > 0 {
      OneBadSegment(segments[1..], i - 1);
    }
  }

  lemma {:induction false} AllGoodSegments(segments: seq<Text>, names: seq<Text>)
    requires |names| == |segments|
    requires forall k :: 0 <= k < |segments| ==> DecodePointerSegment(segments[k]) == Some(names[k])
    ensures DecodeSegments(segments) == Some(names)
  {
    if segments != [] {
      var tail := segments[1..];
      assert forall k :: 0 <= k < |tail| ==> tail[k] == segments[k + 1];
      AllGoodSegments(tail, names[1..]);
      assert names == [names[0]] + names[1..];
    }
  }

  method ResolveReference(doc: Document, reference: Text) returns (location: Option<Location>)
    ensures location == ResolveLocalReference(doc, reference)
  {
    if reference == [] || reference[0] != HASH {
      return None;
    }
    var decoded := doc.decodeUri(reference[1..]);
    if decoded.None? {
      return None;
    }
    var pointer := decoded.value;
    if pointer == [] {
      location := WalkPath(doc.root, []);
      return;
    }
    if pointer[0] != SLASH {
      return None;
    }
    var path := DecodeAll(Split(pointer[1..]));
    if path.None? {
      return None;
    }
    location := WalkPath(doc.root, path.value);
  }

  // ---------------------------------------------------------------- round trip

  /** requireLocation: descend through object keys only. */
  function RequireLocation(root: Json, path: seq<Text>): Option<Location> {
    var node := Descend(root, path);
    if node.Some? && node.value.Obj? then Some(Location(node.value, path)) else None
  }

  function Descend(v: Json, path: seq<Text>): Option<Json>
    decreases |path|
  {
    if path == [] then Some(v)
    else if v.Obj? && path[0] in v.fields then Descend(v.fields[path[0]], path[1..])
    else None
  }

  function EscapeAll(path: seq<Text>): (r: seq<Text>)
    ensures |r| == |path| && forall i :: 0 <= i < |path| ==> r[i] == EscapeSegment(path[i])
  {
    seq(|path|, i requires 0 <= i < |path| => EscapeSegment(path[i]))
  }

  /** The pointer text of a path. */
  function PointerOf(path: seq<Text>): Text {
    if path == [] then [] else [SLASH] + Join(EscapeAll(path))
  }

  lemma {:induction false} DescendIsWalk(v: Json, path: seq<Text>)
    requires Descend(v, path).Some?
    ensures Walk(v, path) == Descend(v, path)
    decreases |path|
  {
    if path != [] {
      DescendIsWalk(v.fields[path[0]], path[1..]);
    }
  }

  /** The escaped pointer of any path resolves to the object the path leads to. */
  lemma PointerResolves(doc: Document, path: seq<Text>)
    requires doc.decodeUri(PointerOf(path)) == Some(PointerOf(path))
    ensures ResolveLocalReference(doc, [HASH] + PointerOf(path)) == ObjectAt(doc.root, path)
  {
    var pointer := PointerOf(path);
    assert ([HASH] + pointer)[1..] == pointer;
    if path != [] {
      var segments := EscapeAll(path);
      forall i | 0 <= i < |segments| ensures SlashFree(segments[i]) && DecodePointerSegment(segments[i]) == Some(path[i]) {
        EscapedIsSlashFree(path[i]);
        EscapeRoundTrip(path[i]);
      }
      assert pointer[1..] == Join(segments);
      SplitJoin(segments);
      AllGoodSegments(segments, path);
    }
  }

  /** For an object-key path the reference and the direct descent agree on node and path. */
  lemma PointerRoundTrip(doc: Document, path: seq<Text>)
    requires doc.decodeUri(PointerOf(path)) == Some(PointerOf(path))
    requires RequireLocation(doc.root, path).Some?
    ensures ResolveLocalReference(doc, [HASH] + PointerOf(path)) == RequireLocation(doc.root, path)
  {
    PointerResolves(doc, path);
    DescendIsWalk(doc.root, path);
  }

  // ---------------------------------------------------------------- which references resolve

  /** Of the segments without a slash only the escaped form of a name decodes to it. */
  lemma {:induction false} UnescapeExact(s: Text, name: Text)
    ensures Unescape(s) == Some(name) && SlashFree(s) <==> s == EscapeSegment(name)
    decreases |s|
  {
    UnescapeEscape(name);
    EscapedIsSlashFree(name);
    if Unescape(s) == Some(name) && SlashFree(s) && s != [] {
      var n := if s[0] == TILDE then 2 else 1;
      UnescapeExact(s[n..], name[1..]);
      assert name == [name[0]] + name[1..] && s == s[..n] + s[n..];
      assert EscapeUnit(name[0]) == s[..n];
    }
  }

  lemma {:induction false} SplitIsSlashFree(t: Text)
    ensures forall i :: 0 <= i < |Split(t)| ==> SlashFree(Split(t)[i])
  {
    if t != [] {
      SplitIsSlashFree(t[1..]);
      var r := Split(t[1..]);
      assert t[0] != SLASH ==> SlashFree([t[0]] + r[0]);
    }
  }

  lemma {:induction false} JoinSplit(t: Text)
    ensures Join(Split(t)) == t
  {
    if t != [] {
      JoinSplit(t[1..]);
      var r := Split(t[1..]);
      if t[0] == SLASH {
        assert ([[]] + r)[1..] == r;
        assert t == [SLASH] + t[1..];
      } else {
        var joined := [[t[0]] + r[0]] + r[1..];
        assert joined[1..] == r[1..];
        assert t == [t[0]] + t[1..];
      }
    }
  }

  lemma {:induction false} DecodedEach(segments: seq<Text>)
    requires DecodeSegments(segments).Some?
    ensures var path := DecodeSegments(segments).value;
      |path| == |segments| && forall i :: 0 <= i < |path| ==> DecodePointerSegment(segments[i]) == Some(path[i])
  {
    hide DecodePointerSegment;
    if segments != [] {
      DecodedEach(segments[1..]);
    }
  }

  lemma SegmentsExact(segments: seq<Text>, path: seq<Text>)
    requires forall i :: 0 <= i < |segments| ==> SlashFree(segments[i])
    ensures DecodeSegments(segments) == Some(path) <==> segments == EscapeAll(path)
  {
    hide DecodePointerSegment, SlashFree, Unescape, DecodeSegments;
    if DecodeSegments(segments).Some? { DecodedEach(segments); }
    if |segments| == |path| {
      forall i | 0 <= i < |path|
        ensures DecodePointerSegment(segments[i]) == Some(path[i]) <==> segments[i] == EscapeSegment(path[i])
      {
        TwoPassesAreOne(segments[i]);
        UnescapeExact(segments[i], path[i]);
      }
      if segments == EscapeAll(path) { AllGoodSegments(segments, path); }
    }
  }

  lemma PointerExact(pointer: Text, path: seq<Text>)
    requires path != []
    ensures pointer == PointerOf(path) <==>
      pointer != [] && pointer[0] == SLASH && DecodeSegments(Split(pointer[1..])) == Some(path)
  {
    var segments := EscapeAll(path);
    forall i | 0 <= i < |segments| ensures SlashFree(segments[i]) { EscapedIsSlashFree(path[i]); }
    SplitJoin(segments);
    if pointer != [] && pointer[0] == SLASH {
      SplitIsSlashFree(pointer[1..]);
      SegmentsExact(Split(pointer[1..]), path);
      JoinSplit(pointer[1..]);
      assert pointer == [SLASH] + pointer[1..];
    }
  }

  /** A reference resolves to an object exactly when it is a number sign and the encoded pointer of the path to that object. */
  lemma ReferenceExact(doc: Document, reference: Text, l: Location)
    ensures ResolveLocalReference(doc, reference) == Some(l) <==>
      && reference != [] && reference[0] == HASH && doc.decodeUri(reference[1..]) == Some(PointerOf(l.path))
      && Walk(doc.root, l.path) == Some(l.node) && l.node.Obj?
  {
    if reference != [] && reference[0] == HASH && doc.decodeUri(reference[1..]).Some? {
      var pointer := doc.decodeUri(reference[1..]).value;
      if l.path != [] {
        PointerExact(pointer, l.path);
      }
      if pointer != [] && pointer[0] == SLASH && DecodeSegments(Split(pointer[1..])).Some? {
        var path := DecodeSegments(Split(pointer[1..])).value;
        SplitIsSlashFree(pointer[1..]);
        SegmentsExact(Split(pointer[1..]), path);
        PointerExact(pointer, path);
      }
    }
  }
}
