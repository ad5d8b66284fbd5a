/** packages/codex-adapter/src/c-lite-compatibility.ts: when the size limit of the string evaluators is to blame. */
module SchemaLimits {
  import opened Options
  import opened CodeUnits
  import opened JsonValue
  import opened JsonPointer
  import opened StringSets
  import opened SchemaNodes
  import opened SchemaStrings
  import opened SchemaMeaning
  import opened SchemaDefinedness
  import opened SchemaParts

  // ---------------------------------------------------------------- the combinations over the limit

  /** The first unbounded operand, or the number of operands. */
  function FirstUnbounded(sets: seq<StringSet>): (k: nat)
    ensures k <= |sets| && (k < |sets| ==> sets[k].AllStrings?) && forall i :: 0 <= i < k ==> sets[i].Finite?
  {
    if sets == [] then 0
    else
      var k := FirstUnbounded(sets[..|sets| - 1]);
      if k < |sets| - 1 || sets[|sets| - 1].AllStrings? then k else |sets|
  }

  /** The union throws exactly when the finite operands before the first unbounded one hold too many strings together. */
  lemma {:induction false} UnionExact(sets: seq<StringSet>, max: nat)
    ensures var k := FirstUnbounded(sets);
      UnionBounded(sets, max) ==
      if |Boundary(sets[..k])| > max then Thrown(OverLimit)
      else if k < |sets| then Known(AllStrings)
      else Known(Finite(Boundary(sets)))
  {
    if sets != [] {
      var front := sets[..|sets| - 1];
      UnionExact(front, max);
      var k := FirstUnbounded(front);
      assert front[..k] == sets[..k];
      if k == |front| {
        assert front[..k] == front && sets[..|sets|] == sets;
        BoundaryGrows(sets);
      }
    }
  }

  lemma BoundaryGrows(sets: seq<StringSet>)
    requires sets != []
    ensures |Boundary(sets[..|sets| - 1])| <= |Boundary(sets)|
  {
    SubsetCount(Boundary(sets[..|sets| - 1]), Boundary(sets));
  }

  lemma SubsetCount<T>(a: set<T>, b: set<T>)
    requires a <= b
    ensures |a| <= |b|
  {
    assert b == a + (b - a);
  }

  /** The exactly-one combination throws exactly when no operand is unbounded and together they hold too many strings. */
  lemma ExactlyOneThrows(sets: seq<StringSet>, max: nat, held: set<Text>)
    requires Unbounded(sets) == 0 ==> forall t :: t in held <==> Holding(sets, t) > 0
    ensures ExactlyOneBounded(sets, max) == Thrown(OverLimit) <==> Unbounded(sets) == 0 && |held| > max
  {
    forall t ensures Unbounded(sets) == 0 ==> (Holding(sets, t) > 0 <==> t in Boundary(sets)) {
      HoldingBounds(sets, t);
    }
    if Unbounded(sets) == 0 {
      assert held == Boundary(sets);
      SubsetCount(HeldOnce(sets), Boundary(sets));
    }
  }

  // ---------------------------------------------------------------- enough room

  /** The strings in the const and enum keywords of the document and the node. */
  ghost function Listed(doc: Document, node: Json): set<Text> {
    set x, t | x in Schemas(doc, node) && x.Obj? && t in OwnTexts(x.fields) :: t
  }

  function OwnTexts(f: Fields): set<Text> { set texts, t | texts in ListedTexts(f) && t in texts :: t }

  ghost predicate FewBranches(doc: Document, node: Json, max: nat) {
    forall x, k :: x in Schemas(doc, node) && x.Obj? && k in [ONE_OF, ANY_OF] && Subschemas(x, k).Some? ==>
      |Subschemas(x, k).value| <= max
  }

  /** No more listed strings, and no more branches to a oneOf or anyOf, than the limit. */
  ghost predicate Roomy(doc: Document, node: Json, max: nat) { |Listed(doc, node)| <= max && FewBranches(doc, node, max) }

  /** Not stopped by the size limit, and a finite set within the listed strings. */
  predicate Fits(e: Eval, listed: set<Text>) {
    e != Thrown(OverLimit) && (e.Known? && e.allowed.Finite? ==> e.allowed.values <= listed)
  }

  predicate Within(s: StringSet, listed: set<Text>) { s.Finite? ==> s.values <= listed }

  lemma FiniteFits(values: set<Text>, listed: set<Text>, max: nat)
    requires values <= listed && |listed| <= max
    ensures FiniteBounded(values, max) == Known(Finite(values))
  {
    SubsetCount(values, listed);
  }

  lemma IntersectFits(left: StringSet, right: StringSet, listed: set<Text>, max: nat)
    requires Within(left, listed) && Within(right, listed) && |listed| <= max
    ensures Fits(IntersectBounded(left, right, max), listed) && IntersectBounded(left, right, max).Known?
  {
    if left.Finite? && right.Finite? {
      FiniteFits(left.values * right.values, listed, max);
    }
  }

  lemma {:induction false} BoundaryWithin(sets: seq<StringSet>, listed: set<Text>)
    requires forall s :: s in sets ==> Within(s, listed)
    ensures Boundary(sets) <= listed
  {
    if sets != [] {
      assert sets[|sets| - 1] in sets;
      BoundaryWithin(sets[..|sets| - 1], listed);
    }
  }

  lemma CombineFits(keyword: Text, sets: seq<StringSet>, listed: set<Text>, max: nat)
    requires (forall s :: s in sets ==> Within(s, listed)) && |listed| <= max
    ensures Fits(Combine(keyword, sets, max), listed)
  {
    BoundaryWithin(sets, listed);
    var k := FirstUnbounded(sets);
    assert forall s :: s in sets[..k] ==> s in sets;
    BoundaryWithin(sets[..k], listed);
    SubsetCount(Boundary(sets[..k]), listed);
    SubsetCount(Boundary(sets), listed);
    UnionExact(sets, max);
    FiniteFits({}, listed, max);
    FiniteFits(HeldOnce(sets), listed, max);
  }

  lemma KeywordsFit(f: Fields, listed: set<Text>, max: nat)
    requires OwnTexts(f) <= listed && |listed| <= max
    ensures Fits(EvalKeywords(f, max), listed)
  {
    assert forall texts :: texts in ListedTexts(f) ==> forall t :: t in texts ==> t in OwnTexts(f);
    hide HasUnsupportedStringConstraint, SchemaTypeAllows, OwnTexts;
    FiniteFits({}, listed, max);
    var constant := if CONST in f && f[CONST].Str? then {f[CONST].text} else {};
    FiniteFits(constant, listed, max);
    FiniteFits({} * constant, listed, max);
    if ENUM in f && f[ENUM].Arr? {
      var texts := EnumTexts(f[ENUM].items);
      FiniteFits(texts, listed, max);
      IntersectFits(AllStrings, Finite(texts), listed, max);
      IntersectFits(Finite({}), Finite(texts), listed, max);
      IntersectFits(Finite(constant), Finite(texts), listed, max);
      IntersectFits(Finite({} * constant), Finite(texts), listed, max);
    }
  }

  lemma ListedHere(doc: Document, top: Json, node: Json)
    requires node in Schemas(doc, top) && node.Obj?
    ensures OwnTexts(node.fields) <= Listed(doc, top)
  {
    hide Schemas, OwnTexts;
  }

  lemma {:induction false} NodeFits(doc: Document, max: nat, top: Json, focus: Focus, node: Json, active: set<seq<Text>>)
    requires Roomy(doc, top, max) && node.Obj? && node in Schemas(doc, top)
    ensures Fits(EvalNode(doc, max, focus, node, active), Listed(doc, top))
    decreases Paths(doc.root) - active, node, 3
  {
    hide EvalOwn, EvalReference, EvalAllOf, EvalAlternatives, Listed, FewBranches, Schemas, Subschemas;
    OwnFits(doc, max, top, focus, node, active);
    var own := EvalOwn(doc, max, focus, node, active);
    if own.Known? && Subschemas(node, ALL_OF).Some? {
      ReferenceFits(doc, max, top, focus, node, active, own.allowed);
      var referenced := EvalReference(doc, max, focus, node, active, own.allowed);
      if referenced.Known? {
        var conjuncts := Subschemas(node, ALL_OF).value;
        MemberIsSchema(doc, top, node, ALL_OF);
        AllOfFits(doc, max, top, focus, node, conjuncts, active, referenced.allowed);
        var all := EvalAllOf(doc, max, focus, node, conjuncts, active, referenced.allowed);
        if all.Known? {
          AlternativesFit(doc, max, top, focus, node, ONE_OF, active, all.allowed);
          var one := EvalAlternatives(doc, max, focus, node, ONE_OF, active, all.allowed);
          if one.Known? {
            AlternativesFit(doc, max, top, focus, node, ANY_OF, active, one.allowed);
          }
        }
      }
    } else if own.Known? {
      ReferenceFits(doc, max, top, focus, node, active, own.allowed);
    }
  }

  lemma {:induction false} OwnFits(doc: Document, max: nat, top: Json, focus: Focus, node: Json, active: set<seq<Text>>)
    requires Roomy(doc, top, max) && node.Obj? && node in Schemas(doc, top)
    ensures Fits(EvalOwn(doc, max, focus, node, active), Listed(doc, top))
    decreases Paths(doc.root) - active, node, 2
  {
    hide EvalNode, EvalKeywords, Listed, FewBranches, Schemas, PropertySchema;
    if focus.Itself? {
      ListedHere(doc, top, node);
      KeywordsFit(node.fields, Listed(doc, top), max);
    } else if PropertySchema(node, focus.name).Some? && PropertySchema(node, focus.name).value.Some? {
      PropertyIsSchema(doc, top, node, focus.name);
      NodeFits(doc, max, top, Itself, PropertySchema(node, focus.name).value.value, active);
    }
  }

  lemma {:induction false} ReferenceFits(doc: Document, max: nat, top: Json, focus: Focus, node: Json, active: set<seq<Text>>,
                                         start: StringSet)
    requires Roomy(doc, top, max) && node.Obj? && node in Schemas(doc, top) && Within(start, Listed(doc, top))
    ensures Fits(EvalReference(doc, max, focus, node, active, start), Listed(doc, top))
    decreases Paths(doc.root) - active, node, 2
  {
    hide EvalNode, Listed, FewBranches, Schemas, ResolveLocalReference;
    var reference := ReferencedLocation(doc, node.fields, active);
    if reference.Target? {
      var l := reference.location;
      TargetShrinksTheRest(doc, node.fields, active);
      TargetIsSchema(doc, top, node.fields[REF].text);
      NodeFits(doc, max, top, focus, l.node, active + {l.path});
      var values := EvalNode(doc, max, focus, l.node, active + {l.path});
      if values.Known? { IntersectFits(start, values.allowed, Listed(doc, top), max); }
    }
  }

  lemma {:induction false} AllOfFits(doc: Document, max: nat, top: Json, focus: Focus, node: Json, items: seq<Json>,
                                     active: set<seq<Text>>, start: StringSet)
    requires Roomy(doc, top, max) && Within(start, Listed(doc, top))
    requires forall c :: c in items ==> c.Obj? && c < node && c in Schemas(doc, top)
    ensures Fits(EvalAllOf(doc, max, focus, node, items, active, start), Listed(doc, top))
    decreases Paths(doc.root) - active, node, 1, |items|
  {
    hide EvalNode, Listed, FewBranches, Schemas;
    if items != [] {
      var front, last := items[..|items| - 1], items[|items| - 1];
      assert last in items && forall c :: c in front ==> c in items;
      AllOfFits(doc, max, top, focus, node, front, active, start);
      NodeFits(doc, max, top, focus, last, active);
      var sofar, values := EvalAllOf(doc, max, focus, node, front, active, start), EvalNode(doc, max, focus, last, active);
      if sofar.Known? && values.Known? { IntersectFits(sofar.allowed, values.allowed, Listed(doc, top), max); }
    }
  }

  lemma {:induction false} EachFits(doc: Document, max: nat, top: Json, focus: Focus, node: Json, items: seq<Json>,
                                    active: set<seq<Text>>)
    requires Roomy(doc, top, max) && forall c :: c in items ==> c.Obj? && c < node && c in Schemas(doc, top)
    ensures var e := EvalEach(doc, max, focus, node, items, active);
      e != EachThrown(OverLimit) && (e.Each? ==> forall s :: s in e.sets ==> Within(s, Listed(doc, top)))
    decreases Paths(doc.root) - active, node, 1, |items|
  {
    hide EvalNode, Listed, FewBranches, Schemas;
    if items != [] {
      var front, last := items[..|items| - 1], items[|items| - 1];
      assert last in items && forall c :: c in front ==> c in items;
      EachFits(doc, max, top, focus, node, front, active);
      NodeFits(doc, max, top, focus, last, active);
    }
  }

  lemma {:induction false} AlternativesFit(doc: Document, max: nat, top: Json, focus: Focus, node: Json, keyword: Text,
                                           active: set<seq<Text>>, start: StringSet)
    requires Roomy(doc, top, max) && node.Obj? && node in Schemas(doc, top) && Within(start, Listed(doc, top))
    requires keyword in [ONE_OF, ANY_OF]
    ensures Fits(EvalAlternatives(doc, max, focus, node, keyword, active, start), Listed(doc, top))
    decreases Paths(doc.root) - active, node, 2
  {
    hide EvalEach, Combine, Listed, Schemas, Subschemas;
    if keyword in node.fields && Subschemas(node, keyword).Some? {
      var items := Subschemas(node, keyword).value;
      MemberIsSchema(doc, top, node, keyword);
      EachFits(doc, max, top, focus, node, items, active);
      var each := EvalEach(doc, max, focus, node, items, active);
      if each.Each? {
        CombineFits(keyword, each.sets, Listed(doc, top), max);
        var combined := Combine(keyword, each.sets, max);
        if combined.Known? { IntersectFits(start, combined.allowed, Listed(doc, top), max); }
      }
    }
  }

  /**
   * With room for the strings listed in const and enum and for the branches of each oneOf and anyOf, over the node and
   * the document, the size limit never stops the evaluation.
   */
  lemma EnoughRoom(doc: Document, max: nat, focus: Focus, node: Json)
    requires node.Obj? && Roomy(doc, node, max)
    ensures EvalNode(doc, max, focus, node, {}) != Thrown(OverLimit)
  {
    hide EvalNode;
    ItselfIsSchema(doc, node);
    NodeFits(doc, max, node, focus, node, {});
  }

  // ---------------------------------------------------------------- more room changes nothing else

  /** The same result, unless the smaller limit was in the way. */
  predicate Stands(small: Eval, large: Eval) { small != Thrown(OverLimit) ==> large == small }

  lemma {:induction false} UnionStands(sets: seq<StringSet>, max: nat, more: nat)
    requires max <= more
    ensures Stands(UnionBounded(sets, max), UnionBounded(sets, more))
  {
    UnionExact(sets, max);
    UnionExact(sets, more);
  }

  lemma KeywordsStand(f: Fields, max: nat, more: nat)
    requires max <= more
    ensures Stands(EvalKeywords(f, max), EvalKeywords(f, more))
  {
    hide HasUnsupportedStringConstraint, SchemaTypeAllows, EnumTexts;
  }

  lemma {:induction false} NodeStands(doc: Document, max: nat, more: nat, focus: Focus, node: Json, active: set<seq<Text>>)
    requires node.Obj? && max <= more
    ensures Stands(EvalNode(doc, max, focus, node, active), EvalNode(doc, more, focus, node, active))
    decreases Paths(doc.root) - active, node, 3
  {
    hide EvalOwn, EvalReference, EvalAllOf, EvalAlternatives;
    OwnStandsUnder(doc, max, more, focus, node, active);
    var own := EvalOwn(doc, max, focus, node, active);
    if own.Known? {
      ReferenceStandsUnder(doc, max, more, focus, node, active, own.allowed);
      var referenced := EvalReference(doc, max, focus, node, active, own.allowed);
      if referenced.Known? && Subschemas(node, ALL_OF).Some? {
        var conjuncts := Subschemas(node, ALL_OF).value;
        AllOfStands(doc, max, more, focus, node, conjuncts, active, referenced.allowed);
        var all := EvalAllOf(doc, max, focus, node, conjuncts, active, referenced.allowed);
        if all.Known? {
          AlternativesStand(doc, max, more, focus, node, ONE_OF, active, all.allowed);
          var one := EvalAlternatives(doc, max, focus, node, ONE_OF, active, all.allowed);
          if one.Known? {
            AlternativesStand(doc, max, more, focus, node, ANY_OF, active, one.allowed);
          }
        }
      }
    }
  }

  lemma {:induction false} OwnStandsUnder(doc: Document, max: nat, more: nat, focus: Focus, node: Json, active: set<seq<Text>>)
    requires node.Obj? && max <= more
    ensures Stands(EvalOwn(doc, max, focus, node, active), EvalOwn(doc, more, focus, node, active))
    decreases Paths(doc.root) - active, node, 2
  {
    hide EvalNode, EvalKeywords, PropertySchema;
    if focus.Itself? {
      KeywordsStand(node.fields, max, more);
    } else if PropertySchema(node, focus.name).Some? && PropertySchema(node, focus.name).value.Some? {
      NodeStands(doc, max, more, Itself, PropertySchema(node, focus.name).value.value, active);
    }
  }

  lemma {:induction false} ReferenceStandsUnder(doc: Document, max: nat, more: nat, focus: Focus, node: Json,
                                                active: set<seq<Text>>, start: StringSet)
    requires node.Obj? && max <= more
    ensures Stands(EvalReference(doc, max, focus, node, active, start), EvalReference(doc, more, focus, node, active, start))
    decreases Paths(doc.root) - active, node, 2
  {
    hide EvalNode, ResolveLocalReference;
    var reference := ReferencedLocation(doc, node.fields, active);
    if reference.Target? {
      TargetShrinksTheRest(doc, node.fields, active);
      NodeStands(doc, max, more, focus, reference.location.node, active + {reference.location.path});
    }
  }

  lemma {:induction false} AllOfStands(doc: Document, max: nat, more: nat, focus: Focus, node: Json, items: seq<Json>,
                                       active: set<seq<Text>>, start: StringSet)
    requires max <= more && forall c :: c in items ==> c.Obj? && c < node
    ensures Stands(EvalAllOf(doc, max, focus, node, items, active, start), EvalAllOf(doc, more, focus, node, items, active, start))
    decreases Paths(doc.root) - active, node, 1, |items|
  {
    hide EvalNode;
    if items != [] {
      assert items[|items| - 1] in items;
      AllOfStands(doc, max, more, focus, node, items[..|items| - 1], active, start);
      NodeStands(doc, max, more, focus, items[|items| - 1], active);
    }
  }

  lemma {:induction false} EachStands(doc: Document, max: nat, more: nat, focus: Focus, node: Json, items: seq<Json>,
                                      active: set<seq<Text>>)
    requires max <= more && forall c :: c in items ==> c.Obj? && c < node
    ensures var e := EvalEach(doc, max, focus, node, items, active);
      e != EachThrown(OverLimit) ==> EvalEach(doc, more, focus, node, items, active) == e
    decreases Paths(doc.root) - active, node, 1, |items|
  {
    hide EvalNode;
    if items != [] {
      assert items[|items| - 1] in items;
      EachStands(doc, max, more, focus, node, items[..|items| - 1], active);
      NodeStands(doc, max, more, focus, items[|items| - 1], active);
    }
  }

  lemma {:induction false} AlternativesStand(doc: Document, max: nat, more: nat, focus: Focus, node: Json, keyword: Text,
                                             active: set<seq<Text>>, start: StringSet)
    requires node.Obj? && max <= more
    ensures Stands(EvalAlternatives(doc, max, focus, node, keyword, active, start),
                   EvalAlternatives(doc, more, focus, node, keyword, active, start))
    decreases Paths(doc.root) - active, node, 2
  {
    hide EvalEach, UnionBounded, Boundary, Unbounded, HeldOnce;
    if keyword in node.fields && Subschemas(node, keyword).Some? {
      var items := Subschemas(node, keyword).value;
      EachStands(doc, max, more, focus, node, items, active);
      var each := EvalEach(doc, max, focus, node, items, active);
      if each.Each? {
        UnionStands(each.sets, max, more);
      }
    }
  }

  /** A larger limit gives the same result, a set or not, wherever the smaller one was not exceeded. */
  lemma LargerLimitSameResult(doc: Document, max: nat, more: nat, focus: Focus, node: Json)
    requires node.Obj? && max <= more && EvalNode(doc, max, focus, node, {}) != Thrown(OverLimit)
    ensures EvalNode(doc, more, focus, node, {}) == EvalNode(doc, max, focus, node, {})
  {
    NodeStands(doc, max, more, focus, node, {});
  }
}
