/** Parsed JSON values. */
module JsonValue {
  import opened Options
  import opened CodeUnits
  import opened Decimals

  datatype Json =
    | Null
    | Bool(b: bool)
    | Number(n: real)
    | Str(text: Text)
    | Arr(items: seq<Json>)
    | Obj(fields: map<Text, Json>)

  /** Every path through object keys and array indices; finite because the value is. */
  ghost function Paths(v: Json): set<seq<Text>> {
    match v
    case Obj(f) => {[]} + set k: Text, p: seq<Text> | k in f.Keys && p in Paths(f[k]) :: [k] + p
    case Arr(items) => {[]} + set i, p: seq<Text> | 0 <= i < |items| && p in Paths(items[i]) :: [Decimal(i)] + p
    case _ => {[]}
  }

  /** One pointer step: an array takes a canonical index in range, an object one of its own keys. */
  function Child(v: Json, segment: Text): Option<Json> {
    match v
    case Arr(items) =>
      if Canonical(segment) && ReadDecimal(segment) < |items| then Some(items[ReadDecimal(segment)]) else None
    case Obj(f) => if segment in f then Some(f[segment]) else None
    case _ => None
  }

  /** A step leads to the item whose printed index it is, or to the member with that name. */
  lemma ChildExact(v: Json, segment: Text, child: Json)
    ensures Child(v, segment) == Some(child) <==>
      || (v.Arr? && exists i :: 0 <= i < |v.items| && segment == Decimal(i) && v.items[i] == child)
      || (v.Obj? && segment in v.fields && v.fields[segment] == child)
  {
    if v.Arr? {
      if Canonical(segment) { CanonicalIsPrinted(segment); }
      forall i: nat | segment == Decimal(i) ensures Canonical(segment) && ReadDecimal(segment) == i { ReadBack(i); }
    }
  }

  function Walk(v: Json, path: seq<Text>): Option<Json>
    decreases |path|
  {
    if path == [] then Some(v)
    else
      match Child(v, path[0])
      case None => None
      case Some(next) => Walk(next, path[1..])
  }

  lemma {:induction false} WalkStaysInPaths(v: Json, path: seq<Text>)
    requires Walk(v, path).Some?
    ensures path in Paths(v)
    decreases |path|
  {
    if path != [] {
      var next := Child(v, path[0]).value;
      WalkStaysInPaths(next, path[1..]);
      assert path == [path[0]] + path[1..];
      if v.Arr? {
        CanonicalIsPrinted(path[0]);
      }
    }
  }

  lemma {:induction false} WalkConcat(v: Json, p: seq<Text>, q: seq<Text>)
    ensures Walk(v, p + q) == if Walk(v, p).None? then None else Walk(Walk(v, p).value, q)
    decreases |p|
  {
    if p == [] {
      assert p + q == q;
    } else {
      assert (p + q)[0] == p[0] && (p + q)[1..] == p[1..] + q;
      if Child(v, p[0]).Some? {
        WalkConcat(Child(v, p[0]).value, p[1..], q);
      }
    }
  }
}
