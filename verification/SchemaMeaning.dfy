/** What a schema says about a string, in the terms of JSON Schema 2020-12, and that the evaluator computes it. */
module SchemaMeaning {
  import opened Options
  import opened CodeUnits
  import opened JsonValue
  import opened JsonPointer
  import opened StringSets
  import opened SchemaNodes
  import opened SchemaStrings

  // Combinators: section 10.2.1 of JSON Schema Core 2020-12. References: section 8.2.3.1 there. Type, enum and const:
  // sections 6.1.1-6.1.3 of JSON Schema Validation 2020-12.

  /** The shapes sections 6.1.1 and 6.1.2 require; a schema without them has no meaning. */
  predicate KeywordsOk(f: Fields) {
    (TYPE in f ==> TypeNamesOk(f[TYPE])) && (ENUM in f ==> f[ENUM].Arr?)
  }

  // Outside this meaning: the string assertions of section 6.3, format of section 7 and the content keywords of section 8 of
  // JSON Schema Validation; not and if of sections 10.2.1.4 and 10.2.2 of JSON Schema Core, and dynamic references, section
  // 8.2.3.2 there, with their predecessor of 2019-09.

  const STRING_ASSERTIONS: set<Text> := {Ascii("maxLength"), Ascii("minLength"), Ascii("pattern")}
  const CONTENT: set<Text> := {Ascii("contentEncoding"), Ascii("contentMediaType"), Ascii("contentSchema")}
  const CONDITIONS: set<Text> := {Ascii("not"), Ascii("if"), Ascii("then"), Ascii("else")}
  const DYNAMIC_REFERENCES: set<Text> := {Ascii("$dynamicRef"), Ascii("$recursiveRef")}

  predicate Uninterpreted(f: Fields) {
    exists k :: k in f && (k in STRING_ASSERTIONS || k == Ascii("format") || k in CONTENT || k in CONDITIONS || k in DYNAMIC_REFERENCES)
  }

  /** The evaluator gives up on exactly the keywords that are outside this meaning. */
  lemma UnsupportedExact(f: Fields)
    ensures HasUnsupportedStringConstraint(f) <==> Uninterpreted(f)
  {
    hide Ascii;
    assert UNSUPPORTED == STRING_ASSERTIONS + {Ascii("format")} + CONTENT + CONDITIONS + DYNAMIC_REFERENCES;
    if HasUnsupportedStringConstraint(f) {
      var k :| k in UNSUPPORTED * f.Keys;
    }
    if k :| k in f && k in UNSUPPORTED {
      assert k in UNSUPPORTED * f.Keys;
    }
  }

  /** The keywords that assert something about a string by themselves. */
  predicate KeywordsAccept(f: Fields, s: Text) {
    && TypeAdmits(f, STRING)
    && (CONST in f ==> f[CONST] == Str(s))
    && (ENUM in f ==> f[ENUM].Arr? && Str(s) in f[ENUM].items)
  }

  /**
   * Whether the schema accepts s, unfolding at most n levels of subschemas and references. None: the unfolding is
   * deeper, or it meets a keyword that is outside the vocabulary or malformed. With a property in focus, only that
   * property's own schemas count, and s is the property's value. Read loosely, a oneOf on the way asks for at least one
   * of its branches.
   */
  ghost function Decide(doc: Document, n: nat, focus: Focus, node: Json, s: Text, loose: bool := false): Option<bool>
    decreases n, 1
  {
    if n == 0 || !node.Obj? then None
    else
      And(DecideOwn(doc, n - 1, focus, node, s),
          And(DecideReference(doc, n - 1, focus, node, s, loose),
              And(DecideAll(doc, n - 1, focus, node, s, loose),
                  And(DecideSome(doc, n - 1, focus, node, ONE_OF, s, loose), DecideSome(doc, n - 1, focus, node, ANY_OF, s, loose)))))
  }

  ghost function DecideOwn(doc: Document, n: nat, focus: Focus, node: Json, s: Text): Option<bool>
    requires node.Obj?
    decreases n, 2
  {
    if focus.Itself? then
      if Uninterpreted(node.fields) || !KeywordsOk(node.fields) then None
      else Some(KeywordsAccept(node.fields, s))
    else
      match PropertySchema(node, focus.name)
      case None => None
      case Some(None) => Some(true)
      case Some(Some(child)) => Decide(doc, n, Itself, child, s)
  }

  ghost function DecideReference(doc: Document, n: nat, focus: Focus, node: Json, s: Text, loose: bool := false): Option<bool>
    requires node.Obj?
    decreases n, 2
  {
    if REF !in node.fields then Some(true)
    else if !node.fields[REF].Str? then None
    else
      match ResolveLocalReference(doc, node.fields[REF].text)
      case None => None
      case Some(target) => Decide(doc, n, focus, target.node, s, loose)
  }

  /** How many of the schemas accept s. */
  ghost function Accepting(doc: Document, n: nat, focus: Focus, items: seq<Json>, s: Text, loose: bool := false): (r: Option<nat>)
    ensures r.Some? ==> r.value <= |items|
    decreases n, 2, |items|
  {
    if items == [] then Some(0)
    else
      match (Accepting(doc, n, focus, items[..|items| - 1], s, loose), Decide(doc, n, focus, items[|items| - 1], s, loose))
      case (Some(k), Some(b)) => Some(if b then k + 1 else k)
      case _ => None
  }

  ghost function DecideAll(doc: Document, n: nat, focus: Focus, node: Json, s: Text, loose: bool := false): Option<bool>
    requires node.Obj?
    decreases n, 3
  {
    match Subschemas(node, ALL_OF)
    case None => None
    case Some(items) =>
      match Accepting(doc, n, focus, items, s, loose)
      case None => None
      case Some(k) => Some(k == |items|)
  }

  /** oneOf: exactly one schema accepts; anyOf: at least one does. */
  ghost function DecideSome(doc: Document, n: nat, focus: Focus, node: Json, keyword: Text, s: Text, loose: bool := false)
    : Option<bool>
    requires node.Obj?
    decreases n, 3
  {
    if keyword !in node.fields then Some(true)
    else
      match Subschemas(node, keyword)
      case None => None
      case Some(items) =>
        match Accepting(doc, n, focus, items, s, loose)
        case None => None
        case Some(k) => Some(if keyword == ANY_OF || loose then k > 0 else k == 1)
  }

  // ---------------------------------------------------------------- a decision never changes

  lemma {:induction false} DecisionStands(doc: Document, n: nat, m: nat, focus: Focus, node: Json, s: Text, loose: bool := false)
    requires n <= m && Decide(doc, n, focus, node, s, loose).Some?
    ensures Decide(doc, m, focus, node, s, loose) == Decide(doc, n, focus, node, s, loose)
    decreases n, 1
  {
    hide DecideOwn, DecideReference, DecideAll, DecideSome;
    OwnStands(doc, n - 1, m - 1, focus, node, s);
    ReferenceStands(doc, n - 1, m - 1, focus, node, s, loose);
    AllStands(doc, n - 1, m - 1, focus, node, s, loose);
    SomeStands(doc, n - 1, m - 1, focus, node, ONE_OF, s, loose);
    SomeStands(doc, n - 1, m - 1, focus, node, ANY_OF, s, loose);
  }

  lemma {:induction false} OwnStands(doc: Document, n: nat, m: nat, focus: Focus, node: Json, s: Text)
    requires n <= m && node.Obj? && DecideOwn(doc, n, focus, node, s).Some?
    ensures DecideOwn(doc, m, focus, node, s) == DecideOwn(doc, n, focus, node, s)
    decreases n, 2
  {
    hide PropertySchema, Decide;
    if focus.Property? {
      match PropertySchema(node, focus.name)
      case Some(Some(child)) => DecisionStands(doc, n, m, Itself, child, s);
      case _ =>
    }
  }

  lemma {:induction false} ReferenceStands(doc: Document, n: nat, m: nat, focus: Focus, node: Json, s: Text, loose: bool := false)
    requires n <= m && node.Obj? && DecideReference(doc, n, focus, node, s, loose).Some?
    ensures DecideReference(doc, m, focus, node, s, loose) == DecideReference(doc, n, focus, node, s, loose)
    decreases n, 2
  {
    hide ResolveLocalReference, Decide;
    if REF in node.fields {
      DecisionStands(doc, n, m, focus, ResolveLocalReference(doc, node.fields[REF].text).value.node, s, loose);
    }
  }

  lemma {:induction false} AllStands(doc: Document, n: nat, m: nat, focus: Focus, node: Json, s: Text, loose: bool := false)
    requires n <= m && node.Obj? && DecideAll(doc, n, focus, node, s, loose).Some?
    ensures DecideAll(doc, m, focus, node, s, loose) == DecideAll(doc, n, focus, node, s, loose)
    decreases n, 3
  {
    hide Subschemas, Accepting;
    CountStands(doc, n, m, focus, Subschemas(node, ALL_OF).value, s, loose);
  }

  lemma {:induction false} SomeStands(doc: Document, n: nat, m: nat, focus: Focus, node: Json, keyword: Text, s: Text,
                                      loose: bool := false)
    requires n <= m && node.Obj? && DecideSome(doc, n, focus, node, keyword, s, loose).Some?
    ensures DecideSome(doc, m, focus, node, keyword, s, loose) == DecideSome(doc, n, focus, node, keyword, s, loose)
    decreases n, 3
  {
    hide Subschemas, Accepting;
    if keyword in node.fields {
      CountStands(doc, n, m, focus, Subschemas(node, keyword).value, s, loose);
    }
  }

  lemma {:induction false} CountStands(doc: Document, n: nat, m: nat, focus: Focus, items: seq<Json>, s: Text, loose: bool := false)
    requires n <= m && Accepting(doc, n, focus, items, s, loose).Some?
    ensures Accepting(doc, m, focus, items, s, loose) == Accepting(doc, n, focus, items, s, loose)
    decreases n, 2, |items|
  {
    if items != [] {
      CountStands(doc, n, m, focus, items[..|items| - 1], s, loose);
      DecisionStands(doc, n, m, focus, items[|items| - 1], s, loose);
    }
  }

  // ---------------------------------------------------------------- the evaluator is exact

  ghost predicate Exact(doc: Document, n: nat, focus: Focus, node: Json, allowed: StringSet) {
    forall s :: Decide(doc, n, focus, node, s) == Some(Has(allowed, s))
  }

  ghost predicate ExactCounts(doc: Document, n: nat, focus: Focus, items: seq<Json>, sets: seq<StringSet>) {
    forall s :: Accepting(doc, n, focus, items, s) == Some(Holding(sets, s))
  }

  lemma ExactStands(doc: Document, n: nat, m: nat, focus: Focus, node: Json, allowed: StringSet)
    requires n <= m && Exact(doc, n, focus, node, allowed)
    ensures Exact(doc, m, focus, node, allowed)
  {
    forall s ensures Decide(doc, m, focus, node, s) == Some(Has(allowed, s)) {
      DecisionStands(doc, n, m, focus, node, s);
    }
  }

  lemma ExactCountsStand(doc: Document, n: nat, m: nat, focus: Focus, items: seq<Json>, sets: seq<StringSet>)
    requires n <= m && ExactCounts(doc, n, focus, items, sets)
    ensures ExactCounts(doc, m, focus, items, sets)
  {
    forall s ensures Accepting(doc, m, focus, items, s) == Some(Holding(sets, s)) {
      CountStands(doc, n, m, focus, items, s);
    }
  }

  lemma KeywordsExact(f: Fields, max: nat, s: Text)
    requires EvalKeywords(f, max).Known?
    ensures !HasUnsupportedStringConstraint(f) && !Uninterpreted(f) && KeywordsOk(f)
    ensures Has(EvalKeywords(f, max).allowed, s) <==> KeywordsAccept(f, s)
  {
    UnsupportedExact(f);
    hide HasUnsupportedStringConstraint, Uninterpreted, SchemaTypeAllows, TypeAdmits, TypeNamesOk;
    SchemaTypeAllowsDefined(f, STRING);
    SchemaTypeAllowsMeans(f, STRING);
    if ENUM in f && f[ENUM].Arr? {
      assert s in EnumTexts(f[ENUM].items) <==> Str(s) in f[ENUM].items;
    }
  }

  lemma {:induction false} NodeExact(doc: Document, max: nat, focus: Focus, node: Json, active: set<seq<Text>>) returns (n: nat)
    requires node.Obj? && EvalNode(doc, max, focus, node, active).Known?
    ensures Exact(doc, n, focus, node, EvalNode(doc, max, focus, node, active).allowed)
    decreases Paths(doc.root) - active, node, 3
  {
    hide EvalOwn, EvalReference, EvalAllOf, EvalAlternatives, DecideOwn, DecideReference, DecideAll, DecideSome;
    var own := EvalOwn(doc, max, focus, node, active).allowed;
    var referenced := EvalReference(doc, max, focus, node, active, own).allowed;
    var conjuncts := Subschemas(node, ALL_OF).value;
    var all := EvalAllOf(doc, max, focus, node, conjuncts, active, referenced).allowed;
    var one := EvalAlternatives(doc, max, focus, node, ONE_OF, active, all).allowed;
    var any := EvalAlternatives(doc, max, focus, node, ANY_OF, active, one).allowed;
    var n0 := OwnExact(doc, max, focus, node, active);
    var n1 := ReferenceExact(doc, max, focus, node, active, own);
    var n2 := AllOfExact(doc, max, focus, node, conjuncts, active, referenced);
    var n3 := AlternativesExact(doc, max, focus, node, ONE_OF, active, all);
    var n4 := AlternativesExact(doc, max, focus, node, ANY_OF, active, one);
    var m := n0 + n1 + n2 + n3 + n4;
    n := m + 1;
    forall s ensures Decide(doc, n, focus, node, s) == Some(Has(any, s)) {
      OwnStands(doc, n0, m, focus, node, s);
      ReferenceStands(doc, n1, m, focus, node, s);
      AllFromCount(doc, n2, focus, node, s);
      AllStands(doc, n2, m, focus, node, s);
      SomeStands(doc, n3, m, focus, node, ONE_OF, s);
      SomeStands(doc, n4, m, focus, node, ANY_OF, s);
    }
  }

  lemma AllFromCount(doc: Document, n: nat, focus: Focus, node: Json, s: Text)
    requires node.Obj? && Subschemas(node, ALL_OF).Some?
    requires Accepting(doc, n, focus, Subschemas(node, ALL_OF).value, s).Some?
    ensures DecideAll(doc, n, focus, node, s) ==
      Some(Accepting(doc, n, focus, Subschemas(node, ALL_OF).value, s).value == |Subschemas(node, ALL_OF).value|)
  {}

  lemma {:induction false} OwnExact(doc: Document, max: nat, focus: Focus, node: Json, active: set<seq<Text>>) returns (n: nat)
    requires node.Obj? && EvalOwn(doc, max, focus, node, active).Known?
    ensures forall s :: DecideOwn(doc, n, focus, node, s) == Some(Has(EvalOwn(doc, max, focus, node, active).allowed, s))
    decreases Paths(doc.root) - active, node, 2
  {
    hide EvalKeywords, KeywordsAccept, KeywordsOk, EvalNode, Decide;
    n := 0;
    if focus.Itself? {
      forall s ensures DecideOwn(doc, n, focus, node, s) == Some(Has(EvalOwn(doc, max, focus, node, active).allowed, s)) {
        KeywordsExact(node.fields, max, s);
      }
    } else if PropertySchema(node, focus.name).value.Some? {
      n := NodeExact(doc, max, Itself, PropertySchema(node, focus.name).value.value, active);
    }
  }

  lemma {:induction false} ReferenceExact(doc: Document, max: nat, focus: Focus, node: Json, active: set<seq<Text>>,
                                          start: StringSet) returns (n: nat)
    requires node.Obj? && EvalReference(doc, max, focus, node, active, start).Known?
    ensures forall s :: (DecideReference(doc, n, focus, node, s).Some? &&
      (Has(EvalReference(doc, max, focus, node, active, start).allowed, s) <==>
        Has(start, s) && DecideReference(doc, n, focus, node, s).value))
    decreases Paths(doc.root) - active, node, 2
  {
    hide EvalNode, Decide;
    n := 0;
    var reference := ReferencedLocation(doc, node.fields, active);
    if reference.Target? {
      TargetShrinksTheRest(doc, node.fields, active);
      n := NodeExact(doc, max, focus, reference.location.node, active + {reference.location.path});
    }
  }

  lemma {:induction false} AllOfExact(doc: Document, max: nat, focus: Focus, node: Json, items: seq<Json>,
                                      active: set<seq<Text>>, start: StringSet) returns (n: nat)
    requires forall c :: c in items ==> c.Obj? && c < node
    requires EvalAllOf(doc, max, focus, node, items, active, start).Known?
    ensures forall s :: (Accepting(doc, n, focus, items, s).Some? &&
      (Has(EvalAllOf(doc, max, focus, node, items, active, start).allowed, s) <==>
        Has(start, s) && Accepting(doc, n, focus, items, s).value == |items|))
    decreases Paths(doc.root) - active, node, 1, |items|
  {
    hide EvalNode, Decide;
    n := 0;
    if items != [] {
      var front, last := items[..|items| - 1], items[|items| - 1];
      assert last in items;
      var n0 := AllOfExact(doc, max, focus, node, front, active, start);
      var n1 := NodeExact(doc, max, focus, last, active);
      n := n0 + n1;
      forall s ensures Accepting(doc, n, focus, items, s).Some? &&
        (Has(EvalAllOf(doc, max, focus, node, items, active, start).allowed, s) <==>
          Has(start, s) && Accepting(doc, n, focus, items, s).value == |items|)
      {
        CountStands(doc, n0, n, focus, front, s);
        DecisionStands(doc, n1, n, focus, last, s);
      }
    }
  }

  lemma {:induction false} EachExact(doc: Document, max: nat, focus: Focus, node: Json, items: seq<Json>,
                                     active: set<seq<Text>>) returns (n: nat)
    requires forall c :: c in items ==> c.Obj? && c < node
    requires EvalEach(doc, max, focus, node, items, active).Each?
    ensures ExactCounts(doc, n, focus, items, EvalEach(doc, max, focus, node, items, active).sets)
    decreases Paths(doc.root) - active, node, 1, |items|
  {
    hide EvalNode, Decide, Has;
    n := 0;
    if items != [] {
      var front, last := items[..|items| - 1], items[|items| - 1];
      assert last in items;
      var n0 := EachExact(doc, max, focus, node, front, active);
      var n1 := NodeExact(doc, max, focus, last, active);
      n := n0 + n1;
      var before := EvalEach(doc, max, focus, node, front, active).sets;
      var allowed := EvalNode(doc, max, focus, last, active).allowed;
      assert EvalEach(doc, max, focus, node, items, active).sets == before + [allowed];
      ExactCountsStand(doc, n0, n, focus, front, before);
      ExactStands(doc, n1, n, focus, last, allowed);
      OneMoreCount(doc, n, focus, front, before, last, allowed);
      assert front + [last] == items;
    }
  }

  lemma OneMoreCount(doc: Document, n: nat, focus: Focus, items: seq<Json>, sets: seq<StringSet>, last: Json, allowed: StringSet)
    requires ExactCounts(doc, n, focus, items, sets) && Exact(doc, n, focus, last, allowed)
    ensures ExactCounts(doc, n, focus, items + [last], sets + [allowed])
  {
    hide Decide, Has;
    var more, grown := items + [last], sets + [allowed];
    assert more[..|more| - 1] == items && grown[..|grown| - 1] == sets;
    forall s ensures Accepting(doc, n, focus, more, s) == Some(Holding(grown, s)) {
      assert Decide(doc, n, focus, last, s) == Some(Has(allowed, s));
      assert Accepting(doc, n, focus, items, s) == Some(Holding(sets, s));
    }
  }

  lemma {:induction false} AlternativesExact(doc: Document, max: nat, focus: Focus, node: Json, keyword: Text,
                                             active: set<seq<Text>>, start: StringSet) returns (n: nat)
    requires node.Obj? && EvalAlternatives(doc, max, focus, node, keyword, active, start).Known?
    ensures forall s :: (DecideSome(doc, n, focus, node, keyword, s).Some? &&
      (Has(EvalAlternatives(doc, max, focus, node, keyword, active, start).allowed, s) <==>
        Has(start, s) && DecideSome(doc, n, focus, node, keyword, s).value))
    decreases Paths(doc.root) - active, node, 2
  {
    hide EvalEach, Accepting, UnionBounded, ExactlyOneBounded, Holding;
    n := 0;
    if keyword in node.fields {
      var items := Subschemas(node, keyword).value;
      n := EachExact(doc, max, focus, node, items, active);
      var sets := EvalEach(doc, max, focus, node, items, active).sets;
      forall s ensures DecideSome(doc, n, focus, node, keyword, s).Some? &&
        (Has(EvalAlternatives(doc, max, focus, node, keyword, active, start).allowed, s) <==>
          Has(start, s) && DecideSome(doc, n, focus, node, keyword, s).value)
      {
        if keyword == ANY_OF { UnionMeans(sets, max, s); } else { ExactlyOneMeans(sets, max, s); }
      }
    }
  }

  /**
   * A set the evaluator returns is exact: at some depth the meaning of the schema is defined on every string and is
   * that set, and no depth gives another meaning.
   */
  lemma StringSetsAreExact(doc: Document, max: nat, focus: Focus, node: Json)
    requires node.Obj? && EvalNode(doc, max, focus, node, {}).Known?
    ensures exists n :: Exact(doc, n, focus, node, EvalNode(doc, max, focus, node, {}).allowed)
    ensures forall n, s :: Decide(doc, n, focus, node, s).Some? ==>
      Decide(doc, n, focus, node, s).value == Has(EvalNode(doc, max, focus, node, {}).allowed, s)
  {
    hide Decide, EvalNode;
    var n := NodeExact(doc, max, focus, node, {});
    forall m, s | Decide(doc, m, focus, node, s).Some?
      ensures Decide(doc, m, focus, node, s).value == Has(EvalNode(doc, max, focus, node, {}).allowed, s)
    {
      if m <= n { DecisionStands(doc, m, n, focus, node, s); } else { DecisionStands(doc, n, m, focus, node, s); }
    }
  }
}
