/** The schemas that a document and a schema node contain. */
module SchemaParts {
  import opened Options
  import opened CodeUnits
  import opened JsonValue
  import opened JsonPointer
  import opened SchemaNodes

  /** The values inside a value, itself included. */
  ghost function Parts(v: Json): set<Json> {
    {v} +
    match v
    case Obj(f) => set k, x | k in f.Keys && x in Parts(f[k]) :: x
    case Arr(items) => set i, x | 0 <= i < |items| && x in Parts(items[i]) :: x
    case _ => {}
  }

  ghost function Schemas(doc: Document, node: Json): set<Json> { Parts(doc.root) + Parts(node) }

  // ---------------------------------------------------------------- schemas lead to schemas

  lemma {:induction false} PartsOfParts(v: Json, x: Json, c: Json)
    requires x in Parts(v) && c in Parts(x)
    ensures c in Parts(v)
  {
    if x != v {
      match v
      case Obj(f) =>
        var k :| k in f.Keys && x in Parts(f[k]);
        PartsOfParts(f[k], x, c);
      case Arr(items) =>
        var i :| 0 <= i < |items| && x in Parts(items[i]);
        PartsOfParts(items[i], x, c);
      case _ =>
    }
  }

  lemma {:induction false} WalkedIsPart(v: Json, path: seq<Text>)
    requires Walk(v, path).Some?
    ensures Walk(v, path).value in Parts(v)
    decreases |path|
  {
    if path != [] {
      WalkedIsPart(Child(v, path[0]).value, path[1..]);
    }
  }

  lemma TargetIsSchema(doc: Document, node: Json, reference: Text)
    requires ResolveLocalReference(doc, reference).Some?
    ensures var target := ResolveLocalReference(doc, reference).value.node; target.Obj? && target in Schemas(doc, node)
  {
    ResolvedPathIsInPaths(doc, reference);
    WalkedIsPart(doc.root, ResolveLocalReference(doc, reference).value.path);
  }

  lemma MemberIsSchema(doc: Document, node: Json, x: Json, keyword: Text)
    requires x in Schemas(doc, node) && x.Obj? && Subschemas(x, keyword).Some?
    ensures forall c :: c in Subschemas(x, keyword).value ==> c.Obj? && c in Schemas(doc, node)
  {
    if keyword in x.fields {
      var list := x.fields[keyword];
      forall c | c in list.items ensures c in Schemas(doc, node) {
        var i :| 0 <= i < |list.items| && list.items[i] == c;
        assert c in Parts(list.items[i]);
        assert c in Parts(list);
        assert c in Parts(x);
        if x in Parts(doc.root) { PartsOfParts(doc.root, x, c); } else { PartsOfParts(node, x, c); }
      }
    }
  }

  lemma PropertyIsSchema(doc: Document, node: Json, x: Json, name: Text)
    requires x in Schemas(doc, node) && x.Obj? && PropertySchema(x, name).Some? && PropertySchema(x, name).value.Some?
    ensures PropertySchema(x, name).value.value in Schemas(doc, node)
  {
    var properties := x.fields[PROPERTIES];
    var c := properties.fields[name];
    assert c in Parts(c);
    assert c in Parts(properties);
    assert c in Parts(x);
    if x in Parts(doc.root) { PartsOfParts(doc.root, x, c); } else { PartsOfParts(node, x, c); }
  }

  lemma ItselfIsSchema(doc: Document, node: Json)
    ensures node in Schemas(doc, node)
  {}
}
