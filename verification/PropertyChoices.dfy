/** packages/codex-adapter/src/c-lite-compatibility.ts: exactly when the set for one property is right about accepted objects. */
module PropertyChoices {
  import opened Options
  import opened CodeUnits
  import opened JsonValue
  import opened JsonPointer
  import opened StringSets
  import opened SchemaNodes
  import opened SchemaStrings
  import opened SchemaMeaning
  import opened SchemaSignatures
  import opened SchemaParts

  // ---------------------------------------------------------------- validators

  type Validator = (Json, Json) -> bool

  ghost predicate ExactlyBranch(accepts: Validator, branches: seq<Json>, o: Json, i: nat) {
    i < |branches| && forall j :: 0 <= j < |branches| ==> (accepts(branches[j], o) <==> j == i)
  }

  /** The keyword rules of an object. */
  ghost predicate ObjectRules(doc: Document, accepts: Validator, node: Json, o: Json)
    requires node.Obj? && o.Obj?
  {
    && TypeAdmits(node.fields, OBJECT)
    && (RequiredNames(node.fields).Some? ==> RequiredNames(node.fields).value <= o.fields.Keys)
    && (forall name :: name in o.fields && PropertySchema(node, name).Some? && PropertySchema(node, name).value.Some? ==>
          accepts(PropertySchema(node, name).value.value, o.fields[name]))
    && (REF in node.fields && node.fields[REF].Str? && ResolveLocalReference(doc, node.fields[REF].text).Some? ==>
          accepts(ResolveLocalReference(doc, node.fields[REF].text).value.node, o))
    && (Subschemas(node, ALL_OF).Some? ==> forall c :: c in Subschemas(node, ALL_OF).value ==> accepts(c, o))
    && (ANY_OF in node.fields && Subschemas(node, ANY_OF).Some? ==>
          exists c :: c in Subschemas(node, ANY_OF).value && accepts(c, o))
    && (ONE_OF in node.fields && Subschemas(node, ONE_OF).Some? ==>
          exists i :: ExactlyBranch(accepts, Subschemas(node, ONE_OF).value, o, i))
  }

  /** No depth of unfolding rejects the string. */
  ghost predicate NotRejected(doc: Document, focus: Focus, node: Json, s: Text) {
    forall n :: Decide(doc, n, focus, node, s) != Some(false)
  }

  /** The validator enforces the rules, and possibly more: it accepts no string that the schema's meaning rejects. */
  ghost predicate Enforces(doc: Document, accepts: Validator) {
    && (forall node: Json, o: Json :: node.Obj? && o.Obj? && accepts(node, o) ==> ObjectRules(doc, accepts, node, o))
    && (forall node: Json, s: Text :: accepts(node, Str(s)) ==> NotRejected(doc, Itself, node, s))
  }

  ghost predicate Accepted(doc: Document, accepts: Validator, node: Json, o: Json, name: Text, s: Text) {
    && Enforces(doc, accepts) && node.Obj?
    && o.Obj? && name in o.fields && o.fields[name] == Str(s) && accepts(node, o)
  }

  /** Some validator accepts an object in which the property is s. */
  ghost predicate Occurs(doc: Document, name: Text, node: Json, s: Text) {
    exists accepts: Validator, o :: Accepted(doc, accepts, node, o, name, s)
  }

  // ---------------------------------------------------------------- choices of schemas

  ghost predicate OneChosen(chosen: set<Json>, branches: seq<Json>, i: nat) {
    i < |branches| && forall j :: 0 <= j < |branches| ==> (branches[j] in chosen <==> j == i)
  }

  /** What choosing a schema brings with it when the property is s. */
  ghost predicate ClosedAt(doc: Document, name: Text, s: Text, chosen: set<Json>, node: Json)
    requires node.Obj?
  {
    && TypeAdmits(node.fields, OBJECT)
    && (PropertySchema(node, name).Some? && PropertySchema(node, name).value.Some? ==>
          NotRejected(doc, Itself, PropertySchema(node, name).value.value, s))
    && (REF in node.fields && node.fields[REF].Str? && ResolveLocalReference(doc, node.fields[REF].text).Some? ==>
          ResolveLocalReference(doc, node.fields[REF].text).value.node in chosen)
    && (Subschemas(node, ALL_OF).Some? ==> forall c :: c in Subschemas(node, ALL_OF).value ==> c in chosen)
    && (ANY_OF in node.fields && Subschemas(node, ANY_OF).Some? ==>
          exists c :: c in Subschemas(node, ANY_OF).value && c in chosen)
    && (ONE_OF in node.fields && Subschemas(node, ONE_OF).Some? ==>
          exists i :: OneChosen(chosen, Subschemas(node, ONE_OF).value, i))
  }

  /** A choice, among the finitely many schemas of the document and the node, of those that hold when the property is s. */
  ghost predicate Choice(doc: Document, name: Text, node: Json, s: Text, chosen: set<Json>) {
    && chosen <= Schemas(doc, node) && node in chosen
    && forall x :: x in chosen ==> x.Obj? && ClosedAt(doc, name, s, chosen, x)
  }

  ghost predicate Choosable(doc: Document, name: Text, node: Json, s: Text) {
    exists chosen :: Choice(doc, name, node, s, chosen)
  }

  // ---------------------------------------------------------------- an accepted object chooses its schemas

  lemma AcceptedChooses(doc: Document, accepts: Validator, node: Json, o: Json, name: Text, s: Text)
    returns (chosen: set<Json>)
    requires Accepted(doc, accepts, node, o, name, s)
    ensures Choice(doc, name, node, s, chosen)
  {
    hide Schemas;
    chosen := set x | x in Schemas(doc, node) && x.Obj? && accepts(x, o);
    ItselfIsSchema(doc, node);
    forall x | x in chosen ensures ClosedAt(doc, name, s, chosen, x) {
      AcceptedIsClosed(doc, accepts, node, o, name, s, chosen, x);
    }
  }

  lemma AcceptedIsClosed(doc: Document, accepts: Validator, node: Json, o: Json, name: Text, s: Text, chosen: set<Json>, x: Json)
    requires Accepted(doc, accepts, node, o, name, s)
    requires forall y :: y in chosen <==> y in Schemas(doc, node) && y.Obj? && accepts(y, o)
    requires x in chosen
    ensures ClosedAt(doc, name, s, chosen, x)
  {
    hide Schemas, Subschemas, PropertySchema, ResolveLocalReference, NotRejected;
    assert ObjectRules(doc, accepts, x, o);
    if REF in x.fields && x.fields[REF].Str? && ResolveLocalReference(doc, x.fields[REF].text).Some? {
      TargetIsSchema(doc, node, x.fields[REF].text);
    }
    if Subschemas(x, ALL_OF).Some? { MemberIsSchema(doc, node, x, ALL_OF); }
    if Subschemas(x, ANY_OF).Some? { MemberIsSchema(doc, node, x, ANY_OF); }
    if ONE_OF in x.fields && Subschemas(x, ONE_OF).Some? {
      MemberIsSchema(doc, node, x, ONE_OF);
      var branches := Subschemas(x, ONE_OF).value;
      var i :| ExactlyBranch(accepts, branches, o, i);
      assert forall j :: 0 <= j < |branches| ==> branches[j] in branches;
      assert OneChosen(chosen, branches, i);
    }
  }

  // ---------------------------------------------------------------- a choice is an accepted object

  ghost function RequiredBy(chosen: set<Json>): set<Text> {
    set x, k | x in chosen && x.Obj? && RequiredNames(x.fields).Some? && k in RequiredNames(x.fields).value :: k
  }

  /** The property, and null for whatever else the chosen schemas require. */
  ghost function Witness(name: Text, s: Text, chosen: set<Json>): Json {
    Obj(map k | k in {name} + RequiredBy(chosen) :: if k == name then Str(s) else Null)
  }

  /** The validator that accepts that object by the chosen schemas. */
  ghost predicate ByChoice(doc: Document, chosen: set<Json>, o: Json, node: Json, v: Json) {
    if v.Str? then NotRejected(doc, Itself, node, v.text) else v.Obj? ==> v == o && node in chosen
  }

  lemma ChoiceIsAccepted(doc: Document, name: Text, node: Json, s: Text, chosen: set<Json>)
    requires Choice(doc, name, node, s, chosen)
    ensures var o := Witness(name, s, chosen);
      Accepted(doc, (x, v) => ByChoice(doc, chosen, o, x, v), node, o, name, s)
  {
    hide Schemas, ClosedAt, NotRejected;
    var o := Witness(name, s, chosen);
    var accepts: Validator := (x, v) => ByChoice(doc, chosen, o, x, v);
    forall x: Json, v: Json | x.Obj? && v.Obj? && accepts(x, v) ensures ObjectRules(doc, accepts, x, v) {
      ChosenFollowsRules(doc, name, s, chosen, x);
    }
  }

  lemma ChosenFollowsRules(doc: Document, name: Text, s: Text, chosen: set<Json>, x: Json)
    requires x in chosen && x.Obj? && ClosedAt(doc, name, s, chosen, x)
    ensures var o := Witness(name, s, chosen); ObjectRules(doc, (y, v) => ByChoice(doc, chosen, o, y, v), x, o)
  {
    hide Subschemas, PropertySchema, ResolveLocalReference, NotRejected;
    var o := Witness(name, s, chosen);
    var accepts: Validator := (y, v) => ByChoice(doc, chosen, o, y, v);
    assert RequiredNames(x.fields).Some? ==> RequiredNames(x.fields).value <= RequiredBy(chosen);
    hide RequiredNames, RequiredBy, TypeAdmits;
    if ONE_OF in x.fields && Subschemas(x, ONE_OF).Some? {
      var branches := Subschemas(x, ONE_OF).value;
      var i :| OneChosen(chosen, branches, i);
      assert ExactlyBranch(accepts, branches, o, i);
    }
  }

  /** A property is s in some object that some validator accepts if and only if some choice of schemas is closed for s. */
  lemma OccursExactly(doc: Document, name: Text, node: Json, s: Text)
    ensures Occurs(doc, name, node, s) <==> Choosable(doc, name, node, s)
  {
    hide Accepted, Choice;
    if accepts: Validator, o :| Accepted(doc, accepts, node, o, name, s) {
      var chosen := AcceptedChooses(doc, accepts, node, o, name, s);
    }
    if chosen :| Choice(doc, name, node, s, chosen) {
      ChoiceIsAccepted(doc, name, node, s, chosen);
      var o := Witness(name, s, chosen);
      var accepts: Validator := (x, v) => ByChoice(doc, chosen, o, x, v);
      assert Accepted(doc, accepts, node, o, name, s);
    }
  }

  // ---------------------------------------------------------------- the exact conditions

  lemma KnownNotRejected(doc: Document, max: nat, focus: Focus, node: Json, s: Text)
    requires node.Obj? && EvalNode(doc, max, focus, node, {}).Known?
    ensures NotRejected(doc, focus, node, s) <==> Has(EvalNode(doc, max, focus, node, {}).allowed, s)
  {
    hide EvalNode, Decide, Has;
    StringSetsAreExact(doc, max, focus, node);
    var n :| Exact(doc, n, focus, node, EvalNode(doc, max, focus, node, {}).allowed);
    assert Decide(doc, n, focus, node, s) == Some(Has(EvalNode(doc, max, focus, node, {}).allowed, s));
  }

  /** Every string of the property in an object that a validator accepts lies in the set. */
  ghost predicate HoldsAllAccepted(doc: Document, name: Text, node: Json, allowed: StringSet) {
    forall s :: Occurs(doc, name, node, s) ==> Has(allowed, s)
  }

  /** What some choice of schemas allows, the schemas of the property taken alone do not reject. */
  ghost predicate ChoicesAllowed(doc: Document, name: Text, node: Json) {
    forall s :: Choosable(doc, name, node, s) ==> NotRejected(doc, Property(name), node, s)
  }

  /**
   * The set computed for a property holds every string the property has in an accepted object, for every validator, if
   * and only if the property's schemas taken alone reject no string that some choice of schemas allows.
   */
  lemma PropertySetExact(doc: Document, max: nat, name: Text, node: Json)
    requires node.Obj? && EvalNode(doc, max, Property(name), node, {}).Known?
    ensures HoldsAllAccepted(doc, name, node, EvalNode(doc, max, Property(name), node, {}).allowed) <==>
      ChoicesAllowed(doc, name, node)
  {
    hide EvalNode, Occurs, Choosable, NotRejected;
    var allowed := EvalNode(doc, max, Property(name), node, {}).allowed;
    forall s
      ensures Occurs(doc, name, node, s) <==> Choosable(doc, name, node, s)
      ensures NotRejected(doc, Property(name), node, s) <==> Has(allowed, s)
    {
      OccursExactly(doc, name, node, s);
      KnownNotRejected(doc, max, Property(name), node, s);
    }
  }

  /** schemaAllowsExactlyObjectPropertyLiteral. */
  predicate AllowsExactlyLiteral(doc: Document, max: nat, node: Json, name: Text, expected: Text)
    requires node.Obj?
  {
    EvalNode(doc, max, Property(name), node, {}) == Known(Finite({expected}))
  }

  /** An accepted object's property, if it is a string, is that literal. */
  ghost predicate ForcesLiteral(doc: Document, name: Text, node: Json, expected: Text) {
    forall s :: Occurs(doc, name, node, s) ==> s == expected
  }

  /** Accepted objects carry a literal if and only if no choice of schemas allows another. */
  lemma LiteralForcedExactly(doc: Document, name: Text, node: Json, expected: Text)
    ensures ForcesLiteral(doc, name, node, expected) <==> forall s :: Choosable(doc, name, node, s) ==> s == expected
  {
    hide Occurs, Choosable;
    forall s ensures Occurs(doc, name, node, s) <==> Choosable(doc, name, node, s) {
      OccursExactly(doc, name, node, s);
    }
  }
}
