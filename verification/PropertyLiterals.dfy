/** packages/codex-adapter/src/c-lite-compatibility.ts: schemas on which the literal check misleads, or only seems to. */
module PropertyLiterals {
  import opened Options
  import opened CodeUnits
  import opened JsonValue
  import opened JsonPointer
  import opened StringSets
  import opened SchemaNodes
  import opened SchemaStrings
  import opened SchemaMeaning
  import opened SchemaSignatures
  import opened SchemaParts
  import opened PropertyChoices
  import opened PropertyReadings

  /** A validator that follows the rules in both directions. */
  ghost predicate Validates(doc: Document, accepts: Validator) {
    && (forall node: Json, o: Json :: node.Obj? && o.Obj? ==> (accepts(node, o) <==> ObjectRules(doc, accepts, node, o)))
    && (forall node: Json, s: Text, n: nat :: Decide(doc, n, Itself, node, s).Some? ==>
          (accepts(node, Str(s)) <==> Decide(doc, n, Itself, node, s).value))
  }

  function Only(text: Text): Json { Obj(map[CONST := Str(text)]) }

  function Variant(text: Text, field: Text): Json {
    Obj(map[PROPERTIES := Obj(map[Ascii("m") := Only(text)]), REQUIRED := Arr([Str(field)])])
  }

  const A := Ascii("a")
  const B := Ascii("b")
  const X := Ascii("x")
  const Y := Ascii("y")
  const M := Ascii("m")

  /** Two branches for "a", of which the second requires the given field, and one for "b". */
  function Branches(second: Text): seq<Json> { [Variant(A, X), Variant(A, second), Variant(B, X)] }

  function Overlapping(second: Text): Json { Obj(map[ONE_OF := Arr(Branches(second))]) }

  lemma KeywordsDiffer()
    ensures REF != ONE_OF && REF != CONST && REF != PROPERTIES && REF != REQUIRED
    ensures ALL_OF != ONE_OF && ALL_OF != CONST && ALL_OF != PROPERTIES && ALL_OF != REQUIRED
    ensures ANY_OF != ONE_OF && ANY_OF != CONST && ANY_OF != PROPERTIES && ANY_OF != REQUIRED
    ensures ONE_OF != CONST && ONE_OF != PROPERTIES && ONE_OF != REQUIRED
    ensures TYPE != ONE_OF && TYPE != CONST && TYPE != PROPERTIES && TYPE != REQUIRED
    ensures ENUM != CONST && PROPERTIES != REQUIRED && PROPERTIES != ONE_OF && REQUIRED != ONE_OF
    ensures CONST !in UNSUPPORTED
  {
    assert ALL_OF[0] == 'a' as int && ANY_OF[1] == 'n' as int && ONE_OF[0] == 'o' as int && CONST[0] == 'c' as int;
    assert ANY_OF[0] == 'a' as int;
    assert forall k :: k in UNSUPPORTED ==> |k| != 5;
  }

  lemma NoOneOf(doc: Document, max: nat, focus: Focus, node: Json, active: set<seq<Text>>, start: StringSet)
    requires node.Obj? && ONE_OF !in node.fields
    ensures EvalAlternatives(doc, max, focus, node, ONE_OF, active, start) == Known(start)
  {}

  /** A node without references and combinators is what its own keywords say. */
  lemma PlainNode(doc: Document, max: nat, focus: Focus, node: Json)
    requires node.Obj? && REF !in node.fields && ALL_OF !in node.fields && ONE_OF !in node.fields && ANY_OF !in node.fields
    ensures EvalNode(doc, max, focus, node, {}) == EvalOwn(doc, max, focus, node, {})
  {
    hide EvalOwn;
    NoOneOf(doc, max, focus, node, {}, AllStrings);
  }

  lemma PlainDecides(doc: Document, n: nat, focus: Focus, node: Json, s: Text, loose: bool)
    requires node.Obj? && REF !in node.fields && ALL_OF !in node.fields && ONE_OF !in node.fields && ANY_OF !in node.fields
    ensures Decide(doc, n + 1, focus, node, s, loose) == DecideOwn(doc, n, focus, node, s)
  {
    hide DecideOwn;
    assert DecideAll(doc, n, focus, node, s, loose) == Some(true);
  }

  lemma OnlyKeywords(text: Text, s: Text)
    ensures Only(text).Obj?
    ensures var f := Only(text).fields;
      && !HasUnsupportedStringConstraint(f) && !Uninterpreted(f) && KeywordsOk(f) && (KeywordsAccept(f, s) <==> s == text)
      && REF !in f && ALL_OF !in f && ONE_OF !in f && ANY_OF !in f && TYPE !in f && ENUM !in f
  {
    KeywordsDiffer();
    var f := Only(text).fields;
    UnsupportedExact(f);
    hide Uninterpreted;
    assert f.Keys == {CONST};
  }

  lemma OnlyEval(doc: Document, max: nat, text: Text)
    requires max >= 1
    ensures EvalNode(doc, max, Itself, Only(text), {}) == Known(Finite({text}))
  {
    OnlyKeywords(text, text);
    hide EvalNode, HasUnsupportedStringConstraint, KeywordsOk, KeywordsAccept;
    PlainNode(doc, max, Itself, Only(text));
  }

  lemma OnlyDecides(doc: Document, text: Text, s: Text)
    ensures Decide(doc, 1, Itself, Only(text), s) == Some(s == text)
  {
    OnlyKeywords(text, s);
    hide Decide, Only, HasUnsupportedStringConstraint, Uninterpreted, KeywordsOk, KeywordsAccept;
    PlainDecides(doc, 0, Itself, Only(text), s, false);
  }

  lemma VariantEval(doc: Document, max: nat, text: Text, field: Text)
    requires max >= 1
    ensures EvalNode(doc, max, Property(M), Variant(text, field), {}) == Known(Finite({text}))
  {
    hide EvalNode;
    KeywordsDiffer();
    OnlyEval(doc, max, text);
    PlainNode(doc, max, Property(M), Variant(text, field));
    assert PropertySchema(Variant(text, field), M) == Some(Some(Only(text)));
  }

  lemma BranchesBelow(second: Text)
    ensures Subschemas(Overlapping(second), ONE_OF) == Some(Branches(second))
    ensures forall c :: c in Branches(second) ==> c.Obj? && c < Overlapping(second)
  {}

  lemma BranchesEval(doc: Document, max: nat, second: Text)
    requires max >= 3
    ensures Subschemas(Overlapping(second), ONE_OF) == Some(Branches(second))
    ensures EvalEach(doc, max, Property(M), Overlapping(second), Branches(second), {}) ==
      Each([Finite({A}), Finite({A}), Finite({B})])
  {
    BranchesBelow(second);
    NoBranches(doc, max, Overlapping(second));
    hide *;
    VariantEval(doc, max, A, X);
    VariantEval(doc, max, A, second);
    VariantEval(doc, max, B, X);
    var first, next, last := Variant(A, X), Variant(A, second), Variant(B, X);
    assert first in Branches(second) && next in Branches(second) && last in Branches(second) by { BranchesAre(second); }
    OneEval(doc, max, second, [], first, A, []);
    OneEval(doc, max, second, [] + [first], next, A, [] + [Finite({A})]);
    OneEval(doc, max, second, [] + [first] + [next], last, B, [] + [Finite({A})] + [Finite({A})]);
    BranchesAre(second);
    assert [] + [Finite({A})] + [Finite({A})] + [Finite({B})] == [Finite({A}), Finite({A}), Finite({B})];
  }

  lemma NoBranches(doc: Document, max: nat, node: Json)
    ensures EvalEach(doc, max, Property(M), node, [], {}) == Each([])
  {}

  lemma BranchesAre(second: Text)
    ensures Branches(second) == [] + [Variant(A, X)] + [Variant(A, second)] + [Variant(B, X)]
    ensures Variant(A, X) in Branches(second) && Variant(A, second) in Branches(second) && Variant(B, X) in Branches(second)
  {
    hide Variant;
    assert Branches(second)[0] == Variant(A, X) && Branches(second)[1] == Variant(A, second) && Branches(second)[2] == Variant(B, X);
  }

  /** The evaluation of one more branch. */
  lemma OneEval(doc: Document, max: nat, second: Text, front: seq<Json>, last: Json, text: Text, sets: seq<StringSet>)
    requires (forall c :: c in front ==> c.Obj? && c < Overlapping(second)) && last.Obj? && last < Overlapping(second)
    requires EvalEach(doc, max, Property(M), Overlapping(second), front, {}) == Each(sets)
    requires EvalNode(doc, max, Property(M), last, {}) == Known(Finite({text}))
    ensures forall c :: c in front + [last] ==> c.Obj? && c < Overlapping(second)
    ensures EvalEach(doc, max, Property(M), Overlapping(second), front + [last], {}) == Each(sets + [Finite({text})])
  {
    hide EvalNode, Overlapping;
    assert (front + [last])[..|front|] == front;
  }

  lemma ThreeSets(a: StringSet, b: StringSet, c: StringSet, t: Text)
    requires a.Finite? && b.Finite? && c.Finite?
    ensures Unbounded([a, b, c]) == 0 && Boundary([a, b, c]) == a.values + b.values + c.values
    ensures Holding([a, b, c], t) == (if Has(a, t) then 1 else 0) + (if Has(b, t) then 1 else 0) + (if Has(c, t) then 1 else 0)
  {
    assert [a, b, c][..2] == [a, b] && [a, b][..1] == [a] && [a][..0] == [];
    assert Boundary([a]) == a.values && Boundary([a, b]) == a.values + b.values;
    assert Unbounded([a]) == 0 && Unbounded([a, b]) == 0;
    assert Holding([a], t) == if Has(a, t) then 1 else 0;
    assert Holding([a, b], t) == Holding([a], t) + if Has(b, t) then 1 else 0;
  }

  lemma OverlapCombines(max: nat)
    requires max >= 3
    ensures ExactlyOneBounded([Finite({A}), Finite({A}), Finite({B})], max) == Known(Finite({B}))
  {
    hide Unbounded, Boundary, Holding;
    var sets := [Finite({A}), Finite({A}), Finite({B})];
    assert A[0] == 'a' as int && B[0] == 'b' as int;
    forall t ensures t in HeldOnce(sets) <==> t in {B} {
      ThreeSets(sets[0], sets[1], sets[2], t);
    }
    assert HeldOnce(sets) == {B};
    ThreeSets(sets[0], sets[1], sets[2], A);
    assert |{A, B}| == 2 && {A} + {A} + {B} == {A, B};
  }

  lemma OverlappingEval(doc: Document, max: nat, second: Text)
    requires max >= 3
    ensures AllowsExactlyLiteral(doc, max, Overlapping(second), M, B)
  {
    hide EvalEach, ExactlyOneBounded, UnionBounded;
    KeywordsDiffer();
    BranchesEval(doc, max, second);
    OverlapCombines(max);
    var node := Overlapping(second);
    assert PropertySchema(node, M) == Some(None) && Subschemas(node, ALL_OF) == Some([]);
    assert EvalOwn(doc, max, Property(M), node, {}) == Known(AllStrings);
    assert EvalReference(doc, max, Property(M), node, {}, AllStrings) == Known(AllStrings);
    assert EvalAllOf(doc, max, Property(M), node, [], {}, AllStrings) == Known(AllStrings);
    assert EvalAlternatives(doc, max, Property(M), node, ONE_OF, {}, AllStrings) == Known(Finite({B})) by {
      assert Combine(ONE_OF, [Finite({A}), Finite({A}), Finite({B})], max) == Known(Finite({B}));
    }
    assert EvalAlternatives(doc, max, Property(M), node, ANY_OF, {}, Finite({B})) == Known(Finite({B}));
  }

  function Instance(): Json { Obj(map[M := Str(A), X := Null]) }

  lemma OnlyJudged(doc: Document, accepts: Validator, text: Text, s: Text)
    requires Validates(doc, accepts)
    ensures accepts(Only(text), Str(s)) <==> s == text
  {
    hide Decide;
    OnlyDecides(doc, text, s);
    assert Decide(doc, 1, Itself, Only(text), s).Some?;
  }

  lemma VariantRules(text: Text, field: Text)
    ensures var node := Variant(text, field);
      && PropertySchema(node, M) == Some(Some(Only(text)))
      && RequiredNames(node.fields) == Some({field})
      && TypeAdmits(node.fields, OBJECT)
      && REF !in node.fields && ONE_OF !in node.fields && ANY_OF !in node.fields && Subschemas(node, ALL_OF) == Some([])
      && forall name :: name != M ==> PropertySchema(node, name) == Some(None)
  {
    KeywordsDiffer();
    var items := [Str(field)];
    assert (set v | v in items :: v.text) == {field} by {
      assert items[0] in items;
    }
  }

  lemma VariantJudged(doc: Document, accepts: Validator, text: Text, field: Text)
    requires Validates(doc, accepts)
    ensures accepts(Variant(text, field), Instance()) <==> text == A && field in Instance().fields
  {
    hide Decide, PropertySchema, Subschemas, RequiredNames, TypeAdmits, ResolveLocalReference;
    VariantRules(text, field);
    OnlyJudged(doc, accepts, text, A);
    hide Variant;
    var node, o := Variant(text, field), Instance();
    assert M != X by { assert M[0] == 'm' as int && X[0] == 'x' as int; }
    assert o.fields[M] == Str(A);
    assert accepts(node, o) <==> ObjectRules(doc, accepts, node, o);
  }

  /**
   * With overlapping oneOf branches the literal check can hold although an accepted object carries another literal: the
   * branches for "a" cancel each other in the combination, while required fields tell them apart in the object.
   */
  lemma LiteralCheckCanMislead(doc: Document, max: nat, accepts: Validator)
    requires max >= 3 && Validates(doc, accepts)
    ensures AllowsExactlyLiteral(doc, max, Overlapping(Y), M, B)
    ensures accepts(Overlapping(Y), Instance()) && Instance().fields[M] == Str(A) && A != B
  {
    OverlappingEval(doc, max, Y);
    OverlapAccepted(doc, accepts);
    assert A[0] == 'a' as int && B[0] == 'b' as int && M[0] == 'm' as int && X[0] == 'x' as int;
  }

  lemma OneBranchAccepts(doc: Document, accepts: Validator)
    requires Validates(doc, accepts)
    ensures ExactlyBranch(accepts, Branches(Y), Instance(), 0)
  {
    hide Validates, Variant;
    VariantJudged(doc, accepts, A, X);
    VariantJudged(doc, accepts, A, Y);
    VariantJudged(doc, accepts, B, X);
    assert A[0] == 'a' as int && B[0] == 'b' as int && M[0] == 'm' as int && X[0] == 'x' as int && Y[0] == 'y' as int;
  }

  lemma OverlapAccepted(doc: Document, accepts: Validator)
    requires Validates(doc, accepts)
    ensures accepts(Overlapping(Y), Instance())
  {
    OverlapRules(Y);
    OneBranchAccepts(doc, accepts);
    assert Branches(Y)[0] in Branches(Y) && accepts(Branches(Y)[0], Instance());
    hide Decide, PropertySchema, Subschemas, RequiredNames, TypeAdmits, ResolveLocalReference, Variant, Overlapping, ExactlyBranch;
    assert accepts(Overlapping(Y), Instance()) <==> ObjectRules(doc, accepts, Overlapping(Y), Instance());
  }

  lemma OverlapRules(second: Text)
    ensures var node := Overlapping(second);
      && node.Obj? && (forall name :: PropertySchema(node, name) == Some(None))
      && RequiredNames(node.fields) == Some({}) && TypeAdmits(node.fields, OBJECT)
      && REF !in node.fields && ANY_OF !in node.fields && Subschemas(node, ALL_OF) == Some([])
      && ONE_OF in node.fields && Subschemas(node, ONE_OF) == Some(Branches(second))
  {
    KeywordsDiffer();
    BranchesBelow(second);
  }

  // ---------------------------------------------------------------- a validator that follows the rules exists

  /** The validator of a document without resolvable references, by recursion on the schema. */
  ghost predicate Judge(doc: Document, node: Json, v: Json)
    decreases node
  {
    if v.Str? then exists n :: Decide(doc, n, Itself, node, v.text) == Some(true)
    else
      && node.Obj? && v.Obj?
      && TypeAdmits(node.fields, OBJECT)
      && (RequiredNames(node.fields).Some? ==> RequiredNames(node.fields).value <= v.fields.Keys)
      && (forall name :: name in v.fields && PropertySchema(node, name).Some? && PropertySchema(node, name).value.Some? ==>
            Judge(doc, PropertySchema(node, name).value.value, v.fields[name]))
      && (Subschemas(node, ALL_OF).Some? ==> forall c :: c in Subschemas(node, ALL_OF).value ==> Judge(doc, c, v))
      && (ANY_OF in node.fields && Subschemas(node, ANY_OF).Some? ==>
            exists c :: c in Subschemas(node, ANY_OF).value && Judge(doc, c, v))
      && (ONE_OF in node.fields && Subschemas(node, ONE_OF).Some? ==> exists i: nat :: JudgesOnly(doc, node, Subschemas(node, ONE_OF).value, v, i))
  }

  ghost predicate JudgesOnly(doc: Document, node: Json, branches: seq<Json>, v: Json, i: nat)
    requires forall c :: c in branches ==> c < node
    decreases node, 0
  {
    i < |branches| &&
    forall j :: 0 <= j < |branches| ==> (assert branches[j] in branches; Judge(doc, branches[j], v) <==> j == i)
  }

  ghost predicate IsJudge(doc: Document, accepts: Validator) { forall node, v :: accepts(node, v) <==> Judge(doc, node, v) }

  lemma OneBranch(doc: Document, accepts: Validator, node: Json, branches: seq<Json>, v: Json)
    requires (forall c :: c in branches ==> c < node) && IsJudge(doc, accepts)
    ensures forall i: nat :: JudgesOnly(doc, node, branches, v, i) <==> ExactlyBranch(accepts, branches, v, i)
  {
    hide Judge;
  }

  lemma JudgeFollowsRules(doc: Document, accepts: Validator, node: Json, o: Json)
    requires (forall t :: doc.decodeUri(t) == None) && node.Obj? && o.Obj? && IsJudge(doc, accepts)
    ensures accepts(node, o) <==> ObjectRules(doc, accepts, node, o)
  {
    hide Decide, PropertySchema, Subschemas, RequiredNames, TypeAdmits, JudgesOnly, ExactlyBranch, ResolveLocalReference;
    forall reference ensures ResolveLocalReference(doc, reference) == None {
      NothingResolves(doc, reference);
    }
    if ONE_OF in node.fields && Subschemas(node, ONE_OF).Some? {
      OneBranch(doc, accepts, node, Subschemas(node, ONE_OF).value, o);
    }
    assert accepts(node, o) <==> Judge(doc, node, o);
    if ObjectRules(doc, accepts, node, o) {
      assert Judge(doc, node, o);
    }
  }

  lemma NothingResolves(doc: Document, reference: Text)
    requires forall t :: doc.decodeUri(t) == None
    ensures ResolveLocalReference(doc, reference) == None
  {}

  lemma JudgeValidates(doc: Document, accepts: Validator)
    requires (forall t :: doc.decodeUri(t) == None) && IsJudge(doc, accepts)
    ensures Validates(doc, accepts)
  {
    hide Decide, ObjectRules, IsJudge;
    forall node: Json, o: Json | node.Obj? && o.Obj? ensures accepts(node, o) <==> ObjectRules(doc, accepts, node, o) {
      JudgeFollowsRules(doc, accepts, node, o);
    }
    forall node: Json, s: Text, n: nat | Decide(doc, n, Itself, node, s).Some?
      ensures accepts(node, Str(s)) <==> Decide(doc, n, Itself, node, s).value
    {
      JudgeFollowsMeaning(doc, accepts, node, s, n);
    }
  }

  lemma JudgeFollowsMeaning(doc: Document, accepts: Validator, node: Json, s: Text, n: nat)
    requires IsJudge(doc, accepts) && Decide(doc, n, Itself, node, s).Some?
    ensures accepts(node, Str(s)) <==> Decide(doc, n, Itself, node, s).value
  {
    hide Decide;
    if m :| Decide(doc, m, Itself, node, s) == Some(true) {
      if n <= m { DecisionStands(doc, n, m, Itself, node, s); } else { DecisionStands(doc, m, n, Itself, node, s); }
    }
  }

  lemma ValidatesEnforces(doc: Document, accepts: Validator)
    requires Validates(doc, accepts)
    ensures Enforces(doc, accepts)
  {
    hide Decide, ObjectRules;
  }

  /** The misleading check, with its document and its validator in hand. */
  lemma MisleadingCheckExists(max: nat) returns (doc: Document, accepts: Validator)
    requires max >= 3
    ensures Validates(doc, accepts) && doc.root == Overlapping(Y)
    ensures AllowsExactlyLiteral(doc, max, doc.root, M, B)
    ensures Accepted(doc, accepts, doc.root, Instance(), M, A) && A != B
  {
    hide Judge, Validates, AllowsExactlyLiteral, Enforces;
    doc := Document(Overlapping(Y), _ => None);
    accepts := (node, v) => Judge(doc, node, v);
    JudgeValidates(doc, accepts);
    ValidatesEnforces(doc, accepts);
    LiteralCheckCanMislead(doc, max, accepts);
  }

  // ---------------------------------------------------------------- permitting more does not always mislead

  /** Two branches that are the same schema can only hold together. */
  lemma TwinForces(doc: Document)
    ensures ForcesLiteral(doc, M, Overlapping(X), B)
  {
    hide Choosable, Occurs;
    forall s | Choosable(doc, M, Overlapping(X), s) ensures s == B {
      TwinChoice(doc, s);
    }
    LiteralForcedExactly(doc, M, Overlapping(X), B);
  }

  lemma TwinChoice(doc: Document, s: Text)
    requires Choosable(doc, M, Overlapping(X), s)
    ensures s == B
  {
    hide Schemas, Decide, Variant, TypeAdmits, NotRejected;
    OverlapRules(X);
    var chosen :| Choice(doc, M, Overlapping(X), s, chosen);
    assert ClosedAt(doc, M, s, chosen, Overlapping(X));
    var branches := Branches(X);
    var i: nat :| OneChosen(chosen, branches, i);
    assert branches[0] == branches[1];
    assert i == 2 && branches[2] in chosen && branches[2] == Variant(B, X);
    assert ClosedAt(doc, M, s, chosen, Variant(B, X));
    VariantRules(B, X);
    assert NotRejected(doc, Itself, Only(B), s);
    OnlyNotRejected(doc, s);
  }

  lemma OnlyNotRejected(doc: Document, s: Text)
    requires NotRejected(doc, Itself, Only(B), s)
    ensures s == B
  {
    hide Decide;
    OnlyDecides(doc, B, s);
    assert Decide(doc, 1, Itself, Only(B), s) != Some(false);
  }

  lemma VariantPermits(doc: Document, text: Text, field: Text, s: Text)
    ensures Decide(doc, 2, Property(M), Variant(text, field), s, true) == Some(s == text)
  {
    VariantRules(text, field);
    VariantIsPlain(text, field);
    hide Decide, Variant, PropertySchema, Subschemas, RequiredNames, TypeAdmits;
    PlainDecides(doc, 1, Property(M), Variant(text, field), s, true);
    OnlyDecides(doc, text, s);
  }

  lemma VariantIsPlain(text: Text, field: Text)
    ensures Variant(text, field).Obj? && ALL_OF !in Variant(text, field).fields
  {
    KeywordsDiffer();
  }

  lemma TwinPermits(doc: Document)
    ensures Permits(doc, 3, M, Overlapping(X), A)
  {
    hide Variant;
    OverlapRules(X);
    hide Overlapping, Subschemas, PropertySchema;
    VariantPermits(doc, A, X, A);
    VariantPermits(doc, B, X, A);
    var b := Branches(X);
    hide Decide;
    assert b[..2] == [b[0], b[1]] && b[..2][..1] == [b[0]] && [b[0]][..0] == [];
    assert Accepting(doc, 2, Property(M), [b[0]], A, true) == Some(1);
    assert Accepting(doc, 2, Property(M), b[..2], A, true) == Some(2);
    assert Accepting(doc, 2, Property(M), b, A, true).Some?;
    assert DecideSome(doc, 2, Property(M), Overlapping(X), ONE_OF, A, true) == Some(true);
    TwinUnfolds(doc);
  }

  lemma TwinUnfolds(doc: Document)
    requires DecideSome(doc, 2, Property(M), Overlapping(X), ONE_OF, A, true) == Some(true)
    ensures Permits(doc, 3, M, Overlapping(X), A)
  {
    OverlapRules(X);
    hide DecideSome, Overlapping, Subschemas, PropertySchema;
    var node := Overlapping(X);
    assert DecideOwn(doc, 2, Property(M), node, A) == Some(true) && DecideReference(doc, 2, Property(M), node, A, true) == Some(true);
    assert Accepting(doc, 2, Property(M), [], A, true) == Some(0);
    assert DecideAll(doc, 2, Property(M), node, A, true) == Some(true);
    assert DecideSome(doc, 2, Property(M), node, ANY_OF, A, true) == Some(true) by { NoAnyOf(doc, node); }
  }

  lemma NoAnyOf(doc: Document, node: Json)
    requires node.Obj? && ANY_OF !in node.fields
    ensures DecideSome(doc, 2, Property(M), node, ANY_OF, A, true) == Some(true)
  {}

  /** With the branch for "a" given twice the check and the set are right, although the loose reading permits "a". */
  lemma PermittingIsNotNecessary(doc: Document, max: nat)
    requires max >= 3
    ensures var node := Overlapping(X);
      && AllowsExactlyLiteral(doc, max, node, M, B)
      && ForcesLiteral(doc, M, node, B) && HoldsAllAccepted(doc, M, node, Finite({B}))
      && !PermitsOnly(doc, M, node, B) && !ReadingsAgree(doc, M, node)
  {
    hide Occurs, Permits, EvalNode, NotRejected;
    OverlappingEval(doc, max, X);
    TwinForces(doc);
    TwinPermits(doc);
    KnownNotRejected(doc, max, Property(M), Overlapping(X), A);
    assert A[0] == 'a' as int && B[0] == 'b' as int;
  }
}
