/** packages/codex-adapter/src/c-lite-compatibility.ts: reading the keywords of one schema node. */
module SchemaNodes {
  import opened Options
  import opened CodeUnits
  import opened JsonValue
  import opened JsonPointer

  type Fields = map<Text, Json>

  const REF := Ascii("$ref")
  const ALL_OF := Ascii("allOf")
  const ONE_OF := Ascii("oneOf")
  const ANY_OF := Ascii("anyOf")
  const TYPE := Ascii("type")
  const CONST := Ascii("const")
  const ENUM := Ascii("enum")
  const PROPERTIES := Ascii("properties")
  const REQUIRED := Ascii("required")
  const STRING := Ascii("string")
  const OBJECT := Ascii("object")

  /** The type names of section 6.1.1 of JSON Schema Validation. */
  const KNOWN_TYPES: set<Text> := {Ascii("array"), Ascii("boolean"), Ascii("integer"), Ascii("null"),
                                   Ascii("number"), OBJECT, STRING}

  /** Keywords that may constrain a string in a way the evaluator does not follow. */
  const UNSUPPORTED: set<Text> := {Ascii("$dynamicRef"), Ascii("$recursiveRef"), Ascii("contentEncoding"),
                                   Ascii("contentMediaType"), Ascii("contentSchema"), Ascii("else"), Ascii("format"),
                                   Ascii("if"), Ascii("maxLength"), Ascii("minLength"), Ascii("not"),
                                   Ascii("pattern"), Ascii("then")}

  predicate HasUnsupportedStringConstraint(f: Fields) { UNSUPPORTED * f.Keys != {} }

  predicate DistinctItems(items: seq<Json>) { forall i, j :: 0 <= i < j < |items| ==> items[i] != items[j] }

  /** schemaTypeAllows; None where it throws. */
  function SchemaTypeAllows(f: Fields, expected: Text): Option<bool> {
    if TYPE !in f then Some(true)
    else
      var types := if f[TYPE].Str? then Some([f[TYPE]]) else if f[TYPE].Arr? then Some(f[TYPE].items) else None;
      if types.None? || types.value == [] || !DistinctItems(types.value) ||
         (exists v :: v in types.value && !(v.Str? && v.text in KNOWN_TYPES))
      then None
      else Some(Str(expected) in types.value)
  }

  /** Section 6.1.1 of JSON Schema Validation: a type keyword names one type or lists several. */
  predicate TypeAdmits(f: Fields, name: Text) {
    TYPE in f ==> f[TYPE] == Str(name) || (f[TYPE].Arr? && Str(name) in f[TYPE].items)
  }

  /** The six primitive types, or integer. */
  predicate IsTypeName(t: Text) {
    || t == Ascii("null") || t == Ascii("boolean") || t == Ascii("object") || t == Ascii("array") || t == Ascii("number")
    || t == Ascii("string") || t == Ascii("integer")
  }

  /** What section 6.1.1 requires of the keyword's value. */
  predicate TypeNamesOk(v: Json) {
    || (v.Str? && IsTypeName(v.text))
    || (v.Arr? && v.items != [] && DistinctItems(v.items) && forall t :: t in v.items ==> t.Str? && IsTypeName(t.text))
  }

  lemma KnownTypesExact(t: Text)
    ensures t in KNOWN_TYPES <==> IsTypeName(t)
  {}

  lemma SchemaTypeAllowsDefined(f: Fields, name: Text)
    ensures SchemaTypeAllows(f, name).Some? <==> TYPE !in f || TypeNamesOk(f[TYPE])
  {
    forall t ensures t in KNOWN_TYPES <==> IsTypeName(t) { KnownTypesExact(t); }
    hide IsTypeName;
    if TYPE in f && f[TYPE].Str? {
      assert f[TYPE] in [f[TYPE]];
    }
  }

  lemma SchemaTypeAllowsMeans(f: Fields, name: Text)
    requires SchemaTypeAllows(f, name).Some?
    ensures SchemaTypeAllows(f, name).value <==> TypeAdmits(f, name)
  {}

  /** strictSchemaObjectArray of a keyword; None where it throws. */
  function Subschemas(node: Json, keyword: Text): (r: Option<seq<Json>>)
    requires node.Obj?
    ensures r.Some? ==> forall c :: c in r.value ==> c.Obj? && c < node
  {
    if keyword !in node.fields then Some([])
    else
      var v := node.fields[keyword];
      if v.Arr? && forall c :: c in v.items ==> c.Obj? then
        assert v < node;
        Some(v.items)
      else None
  }

  /** strictSchemaRecord(node.properties) and its member: absent, a schema object, or a throw. */
  function PropertySchema(node: Json, name: Text): (r: Option<Option<Json>>)
    requires node.Obj?
    ensures r.Some? && r.value.Some? ==> r.value.value.Obj? && r.value.value < node
  {
    if PROPERTIES !in node.fields then Some(None)
    else
      var p := node.fields[PROPERTIES];
      if !p.Obj? then None
      else if name !in p.fields then Some(None)
      else if p.fields[name].Obj? then
        assert p < node;
        Some(Some(p.fields[name]))
      else None
  }

  /** A keyword's subschemas are none where it is absent, and otherwise the items of an array of objects. */
  lemma SubschemasExact(node: Json, keyword: Text, items: seq<Json>)
    requires node.Obj?
    ensures Subschemas(node, keyword) == Some(items) <==>
      || (keyword !in node.fields && items == [])
      || (keyword in node.fields && node.fields[keyword] == Arr(items) && forall c :: c in items ==> c.Obj?)
  {}

  /** The schema of a property is absent without properties or without the name, and otherwise an object under the name. */
  lemma PropertySchemaExact(node: Json, name: Text, schema: Option<Json>)
    requires node.Obj?
    ensures PropertySchema(node, name) == Some(schema) <==>
      if PROPERTIES in node.fields then
        node.fields[PROPERTIES].Obj? &&
        schema == (if name in node.fields[PROPERTIES].fields then Some(node.fields[PROPERTIES].fields[name]) else None) &&
        (schema.Some? ==> schema.value.Obj?)
      else schema.None?
  {}

  /** referencedLocation: no reference, a throw (for an active path or for another reason), or the target. */
  datatype Reference = NoReference | BadReference(active: bool) | Target(location: Location)

  function ReferencedLocation(doc: Document, f: Fields, active: set<seq<Text>>): Reference {
    if REF !in f then NoReference
    else if !f[REF].Str? then BadReference(false)
    else
      match ResolveLocalReference(doc, f[REF].text)
      case None => BadReference(false)
      case Some(location) => if location.path in active then BadReference(true) else Target(location)
  }

  lemma TargetShrinksTheRest(doc: Document, f: Fields, active: set<seq<Text>>)
    requires ReferencedLocation(doc, f, active).Target?
    ensures var l := ReferencedLocation(doc, f, active).location;
      l.node.Obj? && Paths(doc.root) - (active + {l.path}) < Paths(doc.root) - active
  {
    ResolvedPathIsInPaths(doc, f[REF].text);
    var l := ReferencedLocation(doc, f, active).location;
    assert l.path in Paths(doc.root) - active;
  }

  /** Both verdicts, where both are defined. */
  function And(a: Option<bool>, b: Option<bool>): Option<bool> {
    if a.None? || b.None? then None else Some(a.value && b.value)
  }
}
