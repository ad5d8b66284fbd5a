/** packages/codex-adapter/src/c-lite-compatibility.ts: the disjunctive list of object signatures of a schema. */
module SchemaSignatures {
  import opened Options
  import opened CodeUnits
  import opened JsonValue
  import opened JsonPointer
  import opened SchemaNodes

  datatype Signature = Signature(properties: set<Text>, required: set<Text>)

  datatype Signatures = Malformed | Signatures(list: seq<Signature>) {
    predicate IsFailure() { Malformed? }
    function PropagateFailure(): Signatures requires IsFailure() { this }
    function Extract(): seq<Signature> requires !IsFailure() { list }
  }

  /** strictSchemaRecord(node.properties) keys; None where it throws. */
  function PropertyNames(f: Fields): Option<set<Text>> {
    if PROPERTIES !in f then Some({}) else if f[PROPERTIES].Obj? then Some(f[PROPERTIES].fields.Keys) else None
  }

  /** strictStringArray(node.required) as a set; None where it throws. */
  function RequiredNames(f: Fields): Option<set<Text>> {
    if REQUIRED !in f then Some({})
    else if f[REQUIRED].Arr? && forall v :: v in f[REQUIRED].items ==> v.Str?
    then Some(set v | v in f[REQUIRED].items :: v.text)
    else None
  }

  /** The required names are the strings of an array of strings, and the property names those of an object. */
  lemma NamesExact(f: Fields, names: set<Text>)
    ensures RequiredNames(f) == Some(names) <==>
      if REQUIRED in f then
        f[REQUIRED].Arr? && (forall v :: v in f[REQUIRED].items ==> v.Str?) && forall t :: t in names <==> Str(t) in f[REQUIRED].items
      else names == {}
    ensures PropertyNames(f) == Some(names) <==>
      if PROPERTIES in f then f[PROPERTIES].Obj? && forall t :: t in names <==> t in f[PROPERTIES].fields else names == {}
  {
    if REQUIRED in f && f[REQUIRED].Arr? && forall v :: v in f[REQUIRED].items ==> v.Str? {
      var listed := set v | v in f[REQUIRED].items :: v.text;
      forall t ensures t in listed <==> Str(t) in f[REQUIRED].items {}
      assert (forall t :: t in names <==> Str(t) in f[REQUIRED].items) ==> names == listed;
    }
    if PROPERTIES in f && f[PROPERTIES].Obj? {
      assert (forall t :: t in names <==> t in f[PROPERTIES].fields) ==> names == f[PROPERTIES].fields.Keys;
    }
  }

  function OwnSignatures(f: Fields): Signatures {
    match (PropertyNames(f), RequiredNames(f), SchemaTypeAllows(f, OBJECT))
    case (Some(p), Some(r), Some(allowed)) => Signatures(if allowed then [Signature(p, r)] else [])
    case _ => Malformed
  }

  function Join(left: Signature, right: Signature): Signature {
    Signature(left.properties + right.properties, left.required + right.required)
  }

  function JoinEach(left: Signature, right: seq<Signature>): (r: seq<Signature>)
    ensures |r| == |right| && forall i :: 0 <= i < |r| ==> r[i] == Join(left, right[i])
  {
    seq(|right|, i requires 0 <= i < |right| => Join(left, right[i]))
  }

  function Product(left: seq<Signature>, right: seq<Signature>): seq<Signature> {
    if left == [] then [] else JoinEach(left[0], right) + Product(left[1..], right)
  }

  function MergeSignatureLists(left: seq<Signature>, right: seq<Signature>, max: nat): Signatures {
    if left == [] || right == [] then Signatures([])
    else if |left| * |right| > max then Malformed
    else Signatures(Product(left, right))
  }

  // ---------------------------------------------------------------- the recursion

  function ObjectSignatures(doc: Document, max: nat, node: Json, active: set<seq<Text>>): Signatures
    requires node.Obj?
    decreases Paths(doc.root) - active, node, 3
  {
    var own :- OwnSignatures(node.fields);
    var referenced :- ReferenceSignatures(doc, max, node, active, own);
    var conjuncts := Subschemas(node, ALL_OF);
    if conjuncts.None? then Malformed
    else
      var all :- AllOfSignatures(doc, max, node, conjuncts.value, active, referenced);
      var one :- AlternativeSignatures(doc, max, node, ONE_OF, active, all);
      AlternativeSignatures(doc, max, node, ANY_OF, active, one)
  }

  function ReferenceSignatures(doc: Document, max: nat, node: Json, active: set<seq<Text>>, start: seq<Signature>): Signatures
    requires node.Obj?
    decreases Paths(doc.root) - active, node, 2
  {
    match ReferencedLocation(doc, node.fields, active)
    case NoReference => Signatures(start)
    case BadReference(_) => Malformed
    case Target(l) =>
      TargetShrinksTheRest(doc, node.fields, active);
      var target :- ObjectSignatures(doc, max, l.node, active + {l.path});
      MergeSignatureLists(start, target, max)
  }

  function AllOfSignatures(doc: Document, max: nat, node: Json, items: seq<Json>, active: set<seq<Text>>,
                           start: seq<Signature>): Signatures
    requires forall c :: c in items ==> c.Obj? && c < node
    decreases Paths(doc.root) - active, node, 1, |items|
  {
    if items == [] then Signatures(start)
    else
      var last := items[|items| - 1];
      assert last in items;
      var sofar :- AllOfSignatures(doc, max, node, items[..|items| - 1], active, start);
      var conjunct :- ObjectSignatures(doc, max, last, active);
      MergeSignatureLists(sofar, conjunct, max)
  }

  /** flatMap over the alternatives. */
  function EachSignatures(doc: Document, max: nat, node: Json, items: seq<Json>, active: set<seq<Text>>): Signatures
    requires forall c :: c in items ==> c.Obj? && c < node
    decreases Paths(doc.root) - active, node, 1, |items|
  {
    if items == [] then Signatures([])
    else
      var last := items[|items| - 1];
      assert last in items;
      var sofar :- EachSignatures(doc, max, node, items[..|items| - 1], active);
      var alternative :- ObjectSignatures(doc, max, last, active);
      Signatures(sofar + alternative)
  }

  function AlternativeSignatures(doc: Document, max: nat, node: Json, keyword: Text, active: set<seq<Text>>,
                                 start: seq<Signature>): Signatures
    requires node.Obj?
    decreases Paths(doc.root) - active, node, 2
  {
    if keyword !in node.fields then Signatures(start)
    else
      var alternatives := Subschemas(node, keyword);
      if alternatives.None? then Malformed
      else if alternatives.value == [] then Signatures([])
      else if |alternatives.value| > max then Malformed
      else
        var list :- EachSignatures(doc, max, node, alternatives.value, active);
        MergeSignatureLists(start, list, max)
  }

  function SchemaHasObjectContract(doc: Document, max: nat, node: Json, required: set<Text>, properties: set<Text>): Option<bool>
    requires node.Obj?
  {
    match ObjectSignatures(doc, max, node, {})
    case Malformed => None
    case Signatures(list) =>
      Some(list != [] && forall s :: s in list ==> required <= s.required && properties <= s.properties)
  }

  lemma {:induction false} AllOfStops(doc: Document, max: nat, node: Json, items: seq<Json>, active: set<seq<Text>>,
                                      start: seq<Signature>, i: nat)
    requires forall c :: c in items ==> c.Obj? && c < node
    requires i <= |items| && AllOfSignatures(doc, max, node, items[..i], active, start).Malformed?
    ensures AllOfSignatures(doc, max, node, items, active, start).Malformed?
    decreases |items|
  {
    if i < |items| {
      var front := items[..|items| - 1];
      assert front[..i] == items[..i];
      AllOfStops(doc, max, node, front, active, start, i);
    } else {
      assert items[..i] == items;
    }
  }

  lemma {:induction false} EachStops(doc: Document, max: nat, node: Json, items: seq<Json>, active: set<seq<Text>>, i: nat)
    requires forall c :: c in items ==> c.Obj? && c < node
    requires i <= |items| && EachSignatures(doc, max, node, items[..i], active).Malformed?
    ensures EachSignatures(doc, max, node, items, active).Malformed?
    decreases |items|
  {
    if i < |items| {
      var front := items[..|items| - 1];
      assert front[..i] == items[..i];
      EachStops(doc, max, node, front, active, i);
    } else {
      assert items[..i] == items;
    }
  }

  // ---------------------------------------------------------------- what a list of signatures stands for

  ghost predicate Covered(list: seq<Signature>, keys: set<Text>, declared: set<Text>) {
    exists s :: s in list && s.required <= keys && s.properties <= declared
  }

  lemma CoveredConcat(a: seq<Signature>, b: seq<Signature>, keys: set<Text>, declared: set<Text>)
    ensures Covered(a + b, keys, declared) <==> Covered(a, keys, declared) || Covered(b, keys, declared)
  {
    forall s ensures s in a + b <==> s in a || s in b {}
  }

  lemma CoveredJoinEach(left: Signature, right: seq<Signature>, keys: set<Text>, declared: set<Text>)
    ensures Covered(JoinEach(left, right), keys, declared) <==>
      left.required <= keys && left.properties <= declared && Covered(right, keys, declared)
  {
    var r := JoinEach(left, right);
    if Covered(r, keys, declared) {
      var s :| s in r && s.required <= keys && s.properties <= declared;
      var i :| 0 <= i < |r| && r[i] == s;
      assert right[i] in right && right[i].required <= s.required && right[i].properties <= s.properties;
      assert left.required <= s.required && left.properties <= s.properties;
    }
    if left.required <= keys && left.properties <= declared && Covered(right, keys, declared) {
      var s :| s in right && s.required <= keys && s.properties <= declared;
      var i :| 0 <= i < |right| && right[i] == s;
      assert r[i] in r && r[i].required <= keys && r[i].properties <= declared;
    }
  }

  lemma {:induction false} CoveredProduct(left: seq<Signature>, right: seq<Signature>, keys: set<Text>, declared: set<Text>)
    ensures Covered(Product(left, right), keys, declared) <==>
      Covered(left, keys, declared) && Covered(right, keys, declared)
  {
    if left != [] {
      CoveredProduct(left[1..], right, keys, declared);
      CoveredConcat(JoinEach(left[0], right), Product(left[1..], right), keys, declared);
      CoveredJoinEach(left[0], right, keys, declared);
      assert left == [left[0]] + left[1..];
      CoveredConcat([left[0]], left[1..], keys, declared);
      assert Covered([left[0]], keys, declared) <==> left[0].required <= keys && left[0].properties <= declared by {
        assert left[0] in [left[0]];
      }
    }
  }

  lemma MergeMeans(left: seq<Signature>, right: seq<Signature>, max: nat, keys: set<Text>, declared: set<Text>)
    requires MergeSignatureLists(left, right, max).Signatures?
    ensures Covered(MergeSignatureLists(left, right, max).list, keys, declared) <==>
      Covered(left, keys, declared) && Covered(right, keys, declared)
  {
    hide Covered, Product;
    CoveredProduct(left, right, keys, declared);
    NothingCovers(left, keys, declared);
    NothingCovers(right, keys, declared);
    NothingCovers([], keys, declared);
  }

  lemma NothingCovers(list: seq<Signature>, keys: set<Text>, declared: set<Text>)
    ensures list == [] ==> !Covered(list, keys, declared)
  {}
}
