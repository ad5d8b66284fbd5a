/** packages/codex-adapter/src/c-lite-compatibility.ts: when the evaluators refuse a schema, and whether it had a meaning. */
module SchemaRefusals {
  import opened Options
  import opened CodeUnits
  import opened JsonValue
  import opened JsonPointer
  import opened StringSets
  import opened SchemaNodes
  import opened SchemaStrings
  import opened SchemaMeaning
  import opened SchemaDefinedness

  /** No set for the sake of the size limit, or of branches that no bounded set combines. */
  predicate StoppedByLimits(e: Eval) { e == Thrown(OverLimit) || e == Unknown(NotBounded) }

  predicate UpToLimits(e: Eval) { e.Known? || StoppedByLimits(e) }

  predicate UpToActivePaths(e: Eval) { UpToLimits(e) || e == Thrown(ActivePath) }

  // ---------------------------------------------------------------- sound schemas are evaluated

  lemma KeywordOutcomes(f: Fields, max: nat)
    requires !HasUnsupportedStringConstraint(f) && KeywordsOk(f)
    ensures UpToLimits(EvalKeywords(f, max))
  {
    hide HasUnsupportedStringConstraint, SchemaTypeAllows, TypeNamesOk;
    SchemaTypeAllowsDefined(f, STRING);
  }

  lemma CombineOutcomes(keyword: Text, sets: seq<StringSet>, max: nat)
    ensures UpToLimits(Combine(keyword, sets, max))
  {
    UnionOutcomes(sets, max);
  }

  lemma {:induction false} UnionOutcomes(sets: seq<StringSet>, max: nat)
    ensures UpToLimits(UnionBounded(sets, max))
  {
    if sets != [] {
      UnionOutcomes(sets[..|sets| - 1], max);
    }
  }

  /**
   * Evaluating a sound schema with further active paths: at worst one of those is met. Without further paths nothing
   * but the limits can stop it, if the walk went into the property's own schema with the same paths.
   */
  lemma {:induction false} SoundIsEvaluated(doc: Document, max: nat, focus: Focus, node: Json, fewer: set<seq<Text>>,
                                            active: set<seq<Text>>, carry: bool := false)
    requires node.Obj? && fewer <= active && Sound(doc, focus, node, fewer, carry)
    ensures UpToActivePaths(EvalNode(doc, max, focus, node, active))
    ensures (focus.Itself? || carry) && fewer == active ==> UpToLimits(EvalNode(doc, max, focus, node, active))
    decreases if focus.Itself? then 0 else 1, Paths(doc.root) - active, node, 3
  {
    hide EvalOwn, EvalReference, EvalAllOf, EvalAlternatives, OwnSound, ReferenceSound, Subschemas;
    assert ALL_OF in [ALL_OF, ONE_OF, ANY_OF] && ONE_OF in [ALL_OF, ONE_OF, ANY_OF] && ANY_OF in [ALL_OF, ONE_OF, ANY_OF];
    OwnIsEvaluated(doc, max, focus, node, fewer, active, carry);
    var own := EvalOwn(doc, max, focus, node, active);
    if own.Known? {
      ReferenceIsEvaluated(doc, max, focus, node, fewer, active, own.allowed, carry);
      var referenced := EvalReference(doc, max, focus, node, active, own.allowed);
      if referenced.Known? {
        var conjuncts := Subschemas(node, ALL_OF).value;
        AllOfIsEvaluated(doc, max, focus, node, conjuncts, fewer, active, referenced.allowed, carry);
        var all := EvalAllOf(doc, max, focus, node, conjuncts, active, referenced.allowed);
        if all.Known? {
          AlternativesAreEvaluated(doc, max, focus, node, ONE_OF, fewer, active, all.allowed, carry);
          var one := EvalAlternatives(doc, max, focus, node, ONE_OF, active, all.allowed);
          if one.Known? {
            AlternativesAreEvaluated(doc, max, focus, node, ANY_OF, fewer, active, one.allowed, carry);
          }
        }
      }
    }
  }

  lemma {:induction false} OwnIsEvaluated(doc: Document, max: nat, focus: Focus, node: Json, fewer: set<seq<Text>>,
                                          active: set<seq<Text>>, carry: bool)
    requires node.Obj? && fewer <= active && OwnSound(doc, focus, node, fewer, carry)
    ensures UpToActivePaths(EvalOwn(doc, max, focus, node, active))
    ensures focus.Itself? || (carry && fewer == active) ==> UpToLimits(EvalOwn(doc, max, focus, node, active))
    decreases if focus.Itself? then 0 else 1, Paths(doc.root) - active, node, 2
  {
    hide EvalKeywords, KeywordsOk, HasUnsupportedStringConstraint, Sound, EvalNode;
    if focus.Itself? {
      KeywordOutcomes(node.fields, max);
    } else if PropertySchema(node, focus.name).value.Some? {
      SoundIsEvaluated(doc, max, Itself, PropertySchema(node, focus.name).value.value, if carry then fewer else {}, active);
    }
  }

  lemma {:induction false} ReferenceIsEvaluated(doc: Document, max: nat, focus: Focus, node: Json, fewer: set<seq<Text>>,
                                                active: set<seq<Text>>, start: StringSet, carry: bool)
    requires node.Obj? && fewer <= active && ReferenceSound(doc, focus, node, fewer, carry)
    ensures UpToActivePaths(EvalReference(doc, max, focus, node, active, start))
    ensures (focus.Itself? || carry) && fewer == active ==> UpToLimits(EvalReference(doc, max, focus, node, active, start))
    decreases if focus.Itself? then 0 else 1, Paths(doc.root) - active, node, 2
  {
    hide Sound, EvalNode, ResolveLocalReference;
    var reference := ReferencedLocation(doc, node.fields, active);
    if reference.Target? {
      var l := reference.location;
      TargetShrinksTheRest(doc, node.fields, active);
      SoundIsEvaluated(doc, max, focus, l.node, fewer + {l.path}, active + {l.path}, carry);
    }
  }

  lemma {:induction false} AllOfIsEvaluated(doc: Document, max: nat, focus: Focus, node: Json, items: seq<Json>,
                                            fewer: set<seq<Text>>, active: set<seq<Text>>, start: StringSet, carry: bool)
    requires fewer <= active && forall c :: c in items ==> c.Obj? && c < node && Sound(doc, focus, c, fewer, carry)
    ensures UpToActivePaths(EvalAllOf(doc, max, focus, node, items, active, start))
    ensures (focus.Itself? || carry) && fewer == active ==> UpToLimits(EvalAllOf(doc, max, focus, node, items, active, start))
    decreases if focus.Itself? then 0 else 1, Paths(doc.root) - active, node, 1, |items|
  {
    hide Sound, EvalNode;
    if items != [] {
      var last := items[|items| - 1];
      assert last in items;
      var front := items[..|items| - 1];
      assert forall c :: c in front ==> c in items;
      AllOfIsEvaluated(doc, max, focus, node, front, fewer, active, start, carry);
      SoundIsEvaluated(doc, max, focus, last, fewer, active, carry);
    }
  }

  predicate EachUpToLimits(e: Evals) { e.Each? || e == EachThrown(OverLimit) || e == EachUnknown(NotBounded) }

  lemma {:induction false} EachIsEvaluated(doc: Document, max: nat, focus: Focus, node: Json, items: seq<Json>,
                                           fewer: set<seq<Text>>, active: set<seq<Text>>, carry: bool)
    requires fewer <= active && forall c :: c in items ==> c.Obj? && c < node && Sound(doc, focus, c, fewer, carry)
    ensures var e := EvalEach(doc, max, focus, node, items, active);
      (EachUpToLimits(e) || e == EachThrown(ActivePath)) && ((focus.Itself? || carry) && fewer == active ==> EachUpToLimits(e))
    decreases if focus.Itself? then 0 else 1, Paths(doc.root) - active, node, 1, |items|
  {
    hide Sound, EvalNode;
    if items != [] {
      var last := items[|items| - 1];
      assert last in items;
      var front := items[..|items| - 1];
      assert forall c :: c in front ==> c in items;
      EachIsEvaluated(doc, max, focus, node, front, fewer, active, carry);
      SoundIsEvaluated(doc, max, focus, last, fewer, active, carry);
    }
  }

  lemma {:induction false} AlternativesAreEvaluated(doc: Document, max: nat, focus: Focus, node: Json, keyword: Text,
                                                    fewer: set<seq<Text>>, active: set<seq<Text>>, start: StringSet, carry: bool)
    requires node.Obj? && fewer <= active && Subschemas(node, keyword).Some?
    requires forall c :: c in Subschemas(node, keyword).value ==> Sound(doc, focus, c, fewer, carry)
    ensures UpToActivePaths(EvalAlternatives(doc, max, focus, node, keyword, active, start))
    ensures (focus.Itself? || carry) && fewer == active ==> UpToLimits(EvalAlternatives(doc, max, focus, node, keyword, active, start))
    decreases if focus.Itself? then 0 else 1, Paths(doc.root) - active, node, 2
  {
    hide Sound, EvalEach, Combine;
    if keyword in node.fields {
      var items := Subschemas(node, keyword).value;
      EachIsEvaluated(doc, max, focus, node, items, fewer, active, carry);
      var each := EvalEach(doc, max, focus, node, items, active);
      if each.Each? {
        CombineOutcomes(keyword, each.sets, max);
      }
    }
  }

  // ---------------------------------------------------------------- evaluated schemas are sound

  /** A set is computed only where the walk with the same active paths and the limit for room succeeds. */
  lemma {:induction false} KnownIsSound(doc: Document, max: nat, focus: Focus, node: Json, active: set<seq<Text>>, carry: bool)
    requires node.Obj? && (focus.Itself? || carry) && EvalNode(doc, max, focus, node, active).Known?
    ensures Sound(doc, focus, node, active, carry, Some(max))
    decreases Paths(doc.root) - active, node
  {
    hide EvalOwn, EvalReference, EvalAllOf, EvalAlternatives, OwnSound, ReferenceSound, Subschemas;
    var own := EvalOwn(doc, max, focus, node, active).allowed;
    OwnKnownIsSound(doc, max, focus, node, active, carry);
    var referenced := EvalReference(doc, max, focus, node, active, own).allowed;
    ReferenceKnownIsSound(doc, max, focus, node, active, own, carry);
    var conjuncts := Subschemas(node, ALL_OF).value;
    var all := EvalAllOf(doc, max, focus, node, conjuncts, active, referenced).allowed;
    var one := EvalAlternatives(doc, max, focus, node, ONE_OF, active, all).allowed;
    AlternativesKnown(doc, max, focus, node, ONE_OF, active, all);
    AlternativesKnown(doc, max, focus, node, ANY_OF, active, one);
    forall k, c | k in [ALL_OF, ONE_OF, ANY_OF] && c in Subschemas(node, k).value ensures Sound(doc, focus, c, active, carry, Some(max)) {
      if k == ALL_OF {
        ConjunctKnown(doc, max, focus, node, conjuncts, active, referenced, c);
      }
      KnownIsSound(doc, max, focus, c, active, carry);
    }
  }

  lemma {:induction false} OwnKnownIsSound(doc: Document, max: nat, focus: Focus, node: Json, active: set<seq<Text>>, carry: bool)
    requires node.Obj? && (focus.Itself? || carry) && EvalOwn(doc, max, focus, node, active).Known?
    ensures OwnSound(doc, focus, node, active, carry, Some(max))
    decreases Paths(doc.root) - active, node, 0
  {
    hide EvalNode, EvalKeywords, Sound, KeywordsOk, HasUnsupportedStringConstraint;
    if focus.Itself? {
      KeywordsExact(node.fields, max, []);
      ListsWithin(node.fields, max);
    } else if PropertySchema(node, focus.name).value.Some? {
      KnownIsSound(doc, max, Itself, PropertySchema(node, focus.name).value.value, active, false);
    }
  }

  lemma {:induction false} ReferenceKnownIsSound(doc: Document, max: nat, focus: Focus, node: Json, active: set<seq<Text>>,
                                                 start: StringSet, carry: bool)
    requires node.Obj? && (focus.Itself? || carry) && EvalReference(doc, max, focus, node, active, start).Known?
    ensures ReferenceSound(doc, focus, node, active, carry, Some(max))
    decreases Paths(doc.root) - active, node, 0
  {
    hide EvalNode, Sound, ResolveLocalReference;
    var reference := ReferencedLocation(doc, node.fields, active);
    if reference.Target? {
      TargetShrinksTheRest(doc, node.fields, active);
      KnownIsSound(doc, max, focus, reference.location.node, active + {reference.location.path}, carry);
    }
  }

  lemma ListsWithin(f: Fields, max: nat)
    requires EvalKeywords(f, max).Known?
    ensures forall texts :: texts in ListedTexts(f) ==> |texts| <= max
  {
    hide HasUnsupportedStringConstraint, SchemaTypeAllows;
  }

  lemma {:induction false} ConjunctKnown(doc: Document, max: nat, focus: Focus, node: Json, items: seq<Json>,
                                         active: set<seq<Text>>, start: StringSet, c: Json)
    requires forall c :: c in items ==> c.Obj? && c < node
    requires c in items && EvalAllOf(doc, max, focus, node, items, active, start).Known?
    ensures EvalNode(doc, max, focus, c, active).Known?
  {
    hide EvalNode;
    if c != items[|items| - 1] {
      ConjunctKnown(doc, max, focus, node, items[..|items| - 1], active, start, c);
    }
  }

  lemma {:induction false} BranchKnown(doc: Document, max: nat, focus: Focus, node: Json, items: seq<Json>,
                                       active: set<seq<Text>>, c: Json)
    requires forall c :: c in items ==> c.Obj? && c < node
    requires c in items && EvalEach(doc, max, focus, node, items, active).Each?
    ensures EvalNode(doc, max, focus, c, active).Known?
  {
    hide EvalNode;
    if c != items[|items| - 1] {
      BranchKnown(doc, max, focus, node, items[..|items| - 1], active, c);
    }
  }

  lemma AlternativesKnown(doc: Document, max: nat, focus: Focus, node: Json, keyword: Text, active: set<seq<Text>>,
                          start: StringSet)
    requires node.Obj? && EvalAlternatives(doc, max, focus, node, keyword, active, start).Known?
    ensures Subschemas(node, keyword).Some? && |Subschemas(node, keyword).value| <= max
    ensures forall c :: c in Subschemas(node, keyword).value ==> EvalNode(doc, max, focus, c, active).Known?
  {
    hide EvalNode, EvalEach, Combine;
    if keyword !in node.fields {
      AbsentKeyword(node, keyword);
    } else {
      var items := Subschemas(node, keyword).value;
      forall c | c in items ensures EvalNode(doc, max, focus, c, active).Known? {
        BranchKnown(doc, max, focus, node, items, active, c);
      }
    }
  }

  // ---------------------------------------------------------------- the string evaluator refuses only what means nothing

  /**
   * The string evaluator fails on a schema that has a meaning only by its size limit or by branches no bounded set
   * combines; when it throws for an active path or a bad shape, or returns null for a keyword, no depth of unfolding
   * decides anything.
   */
  lemma RefusedSchemasMeanNothing(doc: Document, max: nat, node: Json)
    requires node.Obj?
    ensures var e := EvalNode(doc, max, Itself, node, {});
      && (e == Thrown(ActivePath) || e == Thrown(BadShape) || e == Unknown(RefusedKeyword) ==> NeverDecided(doc, Itself, node))
      && ((exists n :: DecidedAt(doc, n, Itself, node)) ==> UpToLimits(e))
  {
    hide EvalNode, Sound, DecidedAt, NeverDecided;
    MeaningExactlyWhenSound(doc, Itself, node);
    if Sound(doc, Itself, node, {}) {
      SoundIsEvaluated(doc, max, Itself, node, {}, {});
    }
  }

  // ---------------------------------------------------------------- with a property in focus

  /** The failing schema: {"$ref": "#"} in a document whose root gives the property that same schema. */
  function RootReference(): Json { Obj(map[REF := Str([HASH])]) }

  function SelfProperty(name: Text): Json { Obj(map[PROPERTIES := Obj(map[name := RootReference()])]) }

  lemma SelfPropertyKeywords()
    ensures REF != ALL_OF && REF != ONE_OF && REF != ANY_OF && REF != PROPERTIES && REF != TYPE && REF != CONST && REF != ENUM
    ensures PROPERTIES != ALL_OF && PROPERTIES != ONE_OF && PROPERTIES != ANY_OF && PROPERTIES != TYPE && PROPERTIES != CONST
    ensures PROPERTIES != ENUM
    ensures REF !in UNSUPPORTED && PROPERTIES !in UNSUPPORTED
  {
    assert REF[0] == '$' as int && TYPE[0] == 't' as int && ENUM[0] == 'e' as int && |PROPERTIES| == 10;
    forall k | k in UNSUPPORTED ensures k != REF && k != PROPERTIES {
      assert k[0] != '$' as int || |k| != 4;
      assert |k| != 10;
    }
  }

  predicate NoCombinators(node: Json) { node.Obj? && ALL_OF !in node.fields && ONE_OF !in node.fields && ANY_OF !in node.fields }

  /** Without combinators a node is its own keywords and its reference. */
  lemma WithoutCombinators(doc: Document, max: nat, focus: Focus, node: Json, active: set<seq<Text>>)
    requires NoCombinators(node)
    ensures EvalOwn(doc, max, focus, node, active) == Known(AllStrings) ==>
      EvalNode(doc, max, focus, node, active) == EvalReference(doc, max, focus, node, active, AllStrings)
    ensures !EvalOwn(doc, max, focus, node, active).Known? ==>
      EvalNode(doc, max, focus, node, active) == EvalOwn(doc, max, focus, node, active)
  {
    hide EvalOwn, EvalReference;
  }

  lemma DecidedWithoutCombinators(doc: Document, n: nat, focus: Focus, node: Json, s: Text)
    requires NoCombinators(node)
    ensures Decide(doc, n + 1, focus, node, s) == And(DecideOwn(doc, n, focus, node, s), DecideReference(doc, n, focus, node, s))
  {
    hide DecideOwn, DecideReference;
    assert DecideAll(doc, n, focus, node, s) == Some(true);
  }

  lemma RootResolves(doc: Document)
    requires doc.decodeUri([]) == Some([]) && doc.root.Obj?
    ensures ResolveLocalReference(doc, [HASH]) == Some(Location(doc.root, []))
  {
    assert [HASH][1..] == [];
  }

  lemma PlainKeywords(node: Json, max: nat, s: Text)
    requires node.Obj? && UNSUPPORTED * node.fields.Keys == {}
    requires TYPE !in node.fields && CONST !in node.fields && ENUM !in node.fields
    ensures EvalKeywords(node.fields, max) == Known(AllStrings)
    ensures !HasUnsupportedStringConstraint(node.fields) && KeywordsOk(node.fields) && KeywordsAccept(node.fields, s)
    ensures !Uninterpreted(node.fields)
  {
    UnsupportedExact(node.fields);
    hide Uninterpreted;
  }

  lemma SelfPropertyEval(doc: Document, max: nat, name: Text)
    requires doc.root == SelfProperty(name) && doc.decodeUri([]) == Some([])
    ensures EvalNode(doc, max, Property(name), RootReference(), {}) == Thrown(ActivePath)
  {
    hide EvalNode, EvalKeywords, ResolveLocalReference;
    SelfPropertyKeywords();
    RootResolves(doc);
    var node, root := RootReference(), doc.root;
    PlainKeywords(node, max, []);
    WithoutCombinators(doc, max, Itself, node, {[]});
    WithoutCombinators(doc, max, Property(name), root, {[]});
    WithoutCombinators(doc, max, Property(name), node, {});
    assert ReferencedLocation(doc, node.fields, {[]}) == BadReference(true);
    assert EvalNode(doc, max, Itself, node, {[]}) == Thrown(ActivePath);
    assert PropertySchema(root, name) == Some(Some(node)) && PropertySchema(node, name) == Some(None);
    assert EvalNode(doc, max, Property(name), root, {[]}) == Thrown(ActivePath);
    var none: set<seq<Text>> := {};
    assert none + {[]} == {[]};
    assert ReferencedLocation(doc, node.fields, {}) == Target(Location(root, []));
  }

  lemma SelfPropertyDecide(doc: Document, name: Text, s: Text)
    requires doc.root == SelfProperty(name) && doc.decodeUri([]) == Some([])
    ensures Decide(doc, 4, Property(name), RootReference(), s) == Some(true)
  {
    hide Decide, ResolveLocalReference, KeywordsAccept, KeywordsOk, HasUnsupportedStringConstraint, Uninterpreted;
    SelfPropertyKeywords();
    RootResolves(doc);
    var node, root := RootReference(), doc.root;
    PlainKeywords(node, 0, s);
    PlainKeywords(root, 0, s);
    assert PropertySchema(root, name) == Some(Some(node)) && PropertySchema(node, name) == Some(None);
    DecidedWithoutCombinators(doc, 0, Itself, root, s);
    DecidedWithoutCombinators(doc, 1, Itself, node, s);
    DecidedWithoutCombinators(doc, 2, Property(name), root, s);
    DecidedWithoutCombinators(doc, 3, Property(name), node, s);
  }

  /**
   * The active paths of the walk to a property also forbid references inside the property's schema: here a schema that
   * accepts every string is refused, whatever the limits.
   */
  lemma PropertyRefusalCanBeUnfounded(doc: Document, max: nat, name: Text)
    requires doc.root == SelfProperty(name) && doc.decodeUri([]) == Some([])
    ensures EvalNode(doc, max, Property(name), RootReference(), {}) == Thrown(ActivePath)
    ensures forall n: nat, s :: n >= 4 ==> Decide(doc, n, Property(name), RootReference(), s) == Some(true)
  {
    hide Decide, EvalNode;
    SelfPropertyEval(doc, max, name);
    forall n: nat, s | n >= 4 ensures Decide(doc, n, Property(name), RootReference(), s) == Some(true) {
      SelfPropertyDecide(doc, name, s);
      DecisionStands(doc, 4, n, Property(name), RootReference(), s);
    }
  }

  // ---------------------------------------------------------------- where a refusal comes from

  lemma ReferenceIsConsulted(doc: Document, node: Json)
    requires node.Obj? && REF in node.fields && node.fields[REF].Str?
    requires ResolveLocalReference(doc, node.fields[REF].text).Some?
    ensures var target := ResolveLocalReference(doc, node.fields[REF].text).value;
      Consults(doc, node, target.node) && AtPath(doc, target.path, target.node)
  {}

  /**
   * A loop through one property: schemas consulted one after the other, the property's schema of the last of them, and
   * schemas consulted from there back to one of the first ones, or to an active path.
   */
  ghost predicate Crosses(doc: Document, name: Text, node: Json, active: set<seq<Text>>, there: seq<Json>, back: seq<Json>) {
    && there != [] && there[0] == node && ConsultChain(doc, there)
    && |back| > 1 && ConsultChain(doc, back)
    && there[|there| - 1].Obj? && PropertySchema(there[|there| - 1], name) == Some(Some(back[0]))
    && (back[|back| - 1] in there[1..] || exists p :: p in active && AtPath(doc, p, back[|back| - 1]))
  }

  lemma CrossesFrom(doc: Document, name: Text, node: Json, other: Json, active: set<seq<Text>>, more: set<seq<Text>>,
                    there: seq<Json>, back: seq<Json>)
    requires Consults(doc, node, other) && Crosses(doc, name, other, active + more, there, back)
    requires forall p :: p in more ==> AtPath(doc, p, other)
    ensures Crosses(doc, name, node, active, [node] + there, back)
  {
    hide Consults, ConsultChain, PropertySchema;
    ChainStep(doc, node, there);
    var longer := [node] + there;
    assert longer[1..] == there && longer[|longer| - 1] == there[|there| - 1];
    if back[|back| - 1] in there[1..] {
      assert back[|back| - 1] in there;
    } else {
      var p :| p in active + more && AtPath(doc, p, back[|back| - 1]);
      if p in more {
        assert AtPath(doc, p, other) && there[0] == other;
      }
    }
  }

  /** Where only the walk that carries the active paths into the property's schema fails, a loop crosses the property. */
  lemma {:induction false} UncarriedCrosses(doc: Document, name: Text, node: Json, active: set<seq<Text>>)
    returns (there: seq<Json>, back: seq<Json>)
    requires node.Obj? && Sound(doc, Property(name), node, active) && !Sound(doc, Property(name), node, active, true)
    ensures Crosses(doc, name, node, active, there, back)
    decreases Paths(doc.root) - active, node
  {
    hide Crosses, Consults, ResolveLocalReference, Subschemas;
    if !OwnSound(doc, Property(name), node, active, true) {
      hide Sound;
      there := [node];
      back := OwnLeadsBack(doc, name, node, active);
      CrossesHere(doc, name, node, active, back);
    } else if !ReferenceSound(doc, Property(name), node, active, true) {
      var target := ResolveLocalReference(doc, node.fields[REF].text).value;
      TargetShrinksTheRest(doc, node.fields, active);
      there, back := UncarriedCrosses(doc, name, target.node, active + {target.path});
      ReferenceIsConsulted(doc, node);
      CrossesFrom(doc, name, node, target.node, active, {target.path}, there, back);
      there := [node] + there;
    } else {
      var k, c :| k in [ALL_OF, ONE_OF, ANY_OF] && c in Subschemas(node, k).value && !Sound(doc, Property(name), c, active, true);
      there, back := UncarriedCrosses(doc, name, c, active);
      MemberIsConsulted(doc, node, k, c);
      assert active + {} == active;
      CrossesFrom(doc, name, node, c, active, {}, there, back);
      there := [node] + there;
    }
  }

  lemma OwnLeadsBack(doc: Document, name: Text, node: Json, active: set<seq<Text>>) returns (back: seq<Json>)
    requires node.Obj? && OwnSound(doc, Property(name), node, active) && !OwnSound(doc, Property(name), node, active, true)
    ensures PropertySchema(node, name).Some? && PropertySchema(node, name).value.Some?
    ensures LeadsBack(doc, PropertySchema(node, name).value.value, active, back)
  {
    hide Sound, NeverDecided, LeadsBack, DecidedAt;
    var child := PropertySchema(node, name).value.value;
    back := UnsoundIsUndecided(doc, Itself, child, active);
    MeaningExactlyWhenSound(doc, Itself, child);
  }

  lemma CrossesHere(doc: Document, name: Text, node: Json, active: set<seq<Text>>, back: seq<Json>)
    requires node.Obj? && back != [] && PropertySchema(node, name) == Some(Some(back[0]))
    requires LeadsBack(doc, back[0], active, back)
    ensures Crosses(doc, name, node, active, [node], back)
  {}

  /** The walk that carries the active paths into the property's own schema. */
  predicate Carried(doc: Document, name: Text, node: Json)
    requires node.Obj?
  {
    Sound(doc, Property(name), node, {}, true)
  }

  /**
   * With a property in focus: a carried schema has a meaning and nothing but the limits can stop its evaluation; no set
   * is computed for any other schema. So a schema with a meaning that no limit stops is evaluated if and only if it is
   * carried, and refused for an active path if and only if it is not; then a loop of references crosses the property.
   */
  lemma PropertyRefusals(doc: Document, max: nat, name: Text, node: Json)
    requires node.Obj?
    ensures var e := EvalNode(doc, max, Property(name), node, {}); var meaningful := !NeverDecided(doc, Property(name), node);
      && (Carried(doc, name, node) ==> meaningful && UpToLimits(e))
      && (e.Known? ==> Carried(doc, name, node))
      && (meaningful && !StoppedByLimits(e) ==>
            && (e.Known? <==> Carried(doc, name, node))
            && (e == Thrown(ActivePath) <==> !Carried(doc, name, node)))
      && (meaningful && !Carried(doc, name, node) ==> exists there, back :: Crosses(doc, name, node, {}, there, back))
  {
    hide EvalNode, Sound, DecidedAt, NeverDecided, Crosses;
    MeaningExactlyWhenSound(doc, Property(name), node);
    if Carried(doc, name, node) {
      SoundWithFewer(doc, Property(name), node, {}, {}, false, true);
      SoundIsEvaluated(doc, max, Property(name), node, {}, {}, true);
    }
    if EvalNode(doc, max, Property(name), node, {}).Known? {
      KnownIsSound(doc, max, Property(name), node, {}, true);
      SoundWithFewer(doc, Property(name), node, {}, {}, true, true, Some(max));
    }
    if Sound(doc, Property(name), node, {}) {
      SoundIsEvaluated(doc, max, Property(name), node, {}, {});
      if !Carried(doc, name, node) {
        var there, back := UncarriedCrosses(doc, name, node, {});
      }
    }
  }
}
