/** What an object contract means for a JSON Schema validator, whatever further keywords the validator enforces. */
module ObjectContracts {
  import opened Options
  import opened CodeUnits
  import opened JsonValue
  import opened JsonPointer
  import opened SchemaNodes
  import opened SchemaSignatures

  type Validator = (Json, Json) -> bool

  /** The keyword rules an object accepted at a schema node cannot escape; oneOf is used only as "some branch". */
  ghost predicate Enforced(doc: Document, accepts: Validator, node: Json, o: Json)
    requires node.Obj? && o.Obj?
  {
    && TypeAdmits(node.fields, OBJECT)
    && (RequiredNames(node.fields).Some? ==> RequiredNames(node.fields).value <= o.fields.Keys)
    && (REF in node.fields && node.fields[REF].Str? && ResolveLocalReference(doc, node.fields[REF].text).Some? ==>
          accepts(ResolveLocalReference(doc, node.fields[REF].text).value.node, o))
    && (Subschemas(node, ALL_OF).Some? ==> forall c :: c in Subschemas(node, ALL_OF).value ==> accepts(c, o))
    && (forall k :: k in [ONE_OF, ANY_OF] && k in node.fields && Subschemas(node, k).Some? ==>
          exists c :: c in Subschemas(node, k).value && accepts(c, o))
  }

  ghost predicate Enforces(doc: Document, accepts: Validator) {
    forall node: Json, o: Json :: node.Obj? && o.Obj? && accepts(node, o) ==> Enforced(doc, accepts, node, o)
  }

  lemma CoveredGrows(list: seq<Signature>, keys: set<Text>, declared: set<Text>, more: set<Text>)
    requires Covered(list, keys, declared) && declared <= more
    ensures Covered(list, keys, more)
  {}

  lemma {:induction false} AcceptedIsCovered(doc: Document, max: nat, accepts: Validator, node: Json, active: set<seq<Text>>,
                                             o: Json) returns (declared: set<Text>)
    requires Enforces(doc, accepts) && node.Obj? && o.Obj? && accepts(node, o)
    requires ObjectSignatures(doc, max, node, active).Signatures?
    ensures Covered(ObjectSignatures(doc, max, node, active).list, o.fields.Keys, declared)
    decreases Paths(doc.root) - active, node, 3
  {
    hide AllOfSignatures, AlternativeSignatures, ResolveLocalReference, Enforces, MergeSignatureLists;
    assert Enforced(doc, accepts, node, o) by { EnforcedAt(doc, accepts, node, o); }
    var own := OwnSignatures(node.fields).list;
    declared := PropertyNames(node.fields).value;
    assert Covered(own, o.fields.Keys, declared) by {
      SchemaTypeAllowsMeans(node.fields, OBJECT);
      assert own[0] in own;
    }
    hide Covered, Enforced, OwnSignatures;
    var referenced := ReferenceSignatures(doc, max, node, active, own).list;
    declared := AcceptedReference(doc, max, accepts, node, active, o, own, declared);
    var conjuncts := Subschemas(node, ALL_OF).value;
    var all := AllOfSignatures(doc, max, node, conjuncts, active, referenced).list;
    declared := AcceptedAllOf(doc, max, accepts, node, conjuncts, active, o, referenced, declared);
    var one := AlternativeSignatures(doc, max, node, ONE_OF, active, all).list;
    declared := AcceptedSome(doc, max, accepts, node, ONE_OF, active, o, all, declared);
    declared := AcceptedSome(doc, max, accepts, node, ANY_OF, active, o, one, declared);
  }

  lemma EnforcedAt(doc: Document, accepts: Validator, node: Json, o: Json)
    requires Enforces(doc, accepts) && node.Obj? && o.Obj? && accepts(node, o)
    ensures Enforced(doc, accepts, node, o)
  {}

  lemma {:induction false} AcceptedReference(doc: Document, max: nat, accepts: Validator, node: Json, active: set<seq<Text>>,
                                             o: Json, start: seq<Signature>, known: set<Text>) returns (declared: set<Text>)
    requires Enforces(doc, accepts) && node.Obj? && o.Obj? && accepts(node, o)
    requires ReferenceSignatures(doc, max, node, active, start).Signatures? && Covered(start, o.fields.Keys, known)
    ensures Covered(ReferenceSignatures(doc, max, node, active, start).list, o.fields.Keys, declared)
    decreases Paths(doc.root) - active, node, 2
  {
    hide Covered, ObjectSignatures, Enforces, MergeSignatureLists;
    declared := known;
    var reference := ReferencedLocation(doc, node.fields, active);
    if reference.Target? {
      TargetShrinksTheRest(doc, node.fields, active);
      var l := reference.location;
      EnforcedAt(doc, accepts, node, o);
      var more := AcceptedIsCovered(doc, max, accepts, l.node, active + {l.path}, o);
      var target := ObjectSignatures(doc, max, l.node, active + {l.path}).list;
      declared := known + more;
      CoveredGrows(start, o.fields.Keys, known, declared);
      CoveredGrows(target, o.fields.Keys, more, declared);
      MergeMeans(start, target, max, o.fields.Keys, declared);
    }
  }

  lemma {:induction false} AcceptedAllOf(doc: Document, max: nat, accepts: Validator, node: Json, items: seq<Json>,
                                         active: set<seq<Text>>, o: Json, start: seq<Signature>, known: set<Text>)
    returns (declared: set<Text>)
    requires Enforces(doc, accepts) && o.Obj?
    requires forall c :: c in items ==> c.Obj? && c < node && accepts(c, o)
    requires AllOfSignatures(doc, max, node, items, active, start).Signatures? && Covered(start, o.fields.Keys, known)
    ensures Covered(AllOfSignatures(doc, max, node, items, active, start).list, o.fields.Keys, declared)
    decreases Paths(doc.root) - active, node, 1, |items|
  {
    hide Covered, ObjectSignatures, Enforces, MergeSignatureLists;
    declared := known;
    if items != [] {
      var front, last := items[..|items| - 1], items[|items| - 1];
      assert last in items;
      var sofar := AcceptedAllOf(doc, max, accepts, node, front, active, o, start, known);
      var more := AcceptedIsCovered(doc, max, accepts, last, active, o);
      declared := sofar + more;
      var left := AllOfSignatures(doc, max, node, front, active, start).list;
      var right := ObjectSignatures(doc, max, last, active).list;
      CoveredGrows(left, o.fields.Keys, sofar, declared);
      CoveredGrows(right, o.fields.Keys, more, declared);
      MergeMeans(left, right, max, o.fields.Keys, declared);
    }
  }

  lemma {:induction false} AcceptedEach(doc: Document, max: nat, accepts: Validator, node: Json, items: seq<Json>,
                                        active: set<seq<Text>>, o: Json, branch: Json) returns (declared: set<Text>)
    requires Enforces(doc, accepts) && o.Obj? && accepts(branch, o) && branch in items
    requires forall c :: c in items ==> c.Obj? && c < node
    requires EachSignatures(doc, max, node, items, active).Signatures?
    ensures Covered(EachSignatures(doc, max, node, items, active).list, o.fields.Keys, declared)
    decreases Paths(doc.root) - active, node, 1, |items|
  {
    hide Covered, ObjectSignatures, Enforces;
    var front, last := items[..|items| - 1], items[|items| - 1];
    assert last in items;
    if branch == last {
      declared := AcceptedIsCovered(doc, max, accepts, last, active, o);
    } else {
      declared := AcceptedEach(doc, max, accepts, node, front, active, o, branch);
    }
    CoveredConcat(EachSignatures(doc, max, node, front, active).list, ObjectSignatures(doc, max, last, active).list,
                  o.fields.Keys, declared);
  }

  lemma {:induction false} AcceptedSome(doc: Document, max: nat, accepts: Validator, node: Json, keyword: Text,
                                        active: set<seq<Text>>, o: Json, start: seq<Signature>, known: set<Text>)
    returns (declared: set<Text>)
    requires Enforces(doc, accepts) && node.Obj? && o.Obj? && accepts(node, o) && keyword in [ONE_OF, ANY_OF]
    requires AlternativeSignatures(doc, max, node, keyword, active, start).Signatures?
    requires Covered(start, o.fields.Keys, known)
    ensures Covered(AlternativeSignatures(doc, max, node, keyword, active, start).list, o.fields.Keys, declared)
    decreases Paths(doc.root) - active, node, 2
  {
    hide Covered, EachSignatures, Enforces, MergeSignatureLists;
    declared := known;
    if keyword in node.fields {
      var items := Subschemas(node, keyword).value;
      EnforcedAt(doc, accepts, node, o);
      var branch :| branch in items && accepts(branch, o);
      var more := AcceptedEach(doc, max, accepts, node, items, active, o, branch);
      var list := EachSignatures(doc, max, node, items, active).list;
      declared := known + more;
      CoveredGrows(start, o.fields.Keys, known, declared);
      CoveredGrows(list, o.fields.Keys, more, declared);
      MergeMeans(start, list, max, o.fields.Keys, declared);
    }
  }

  /** Every object that a validator enforcing these rules accepts at a contracted schema has all the required fields. */
  lemma ContractedObjectsHaveTheFields(doc: Document, max: nat, accepts: Validator, node: Json, o: Json,
                                       required: set<Text>, properties: set<Text>)
    requires Enforces(doc, accepts) && node.Obj? && o.Obj? && accepts(node, o)
    requires SchemaHasObjectContract(doc, max, node, required, properties) == Some(true)
    ensures required <= o.fields.Keys
  {
    hide Enforces, ObjectSignatures;
    var declared := AcceptedIsCovered(doc, max, accepts, node, {}, o);
  }
}
