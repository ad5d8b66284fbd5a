/** packages/codex-adapter/src/c-lite-compatibility.ts: conditions under which the set for one property is right. */
module PropertyReadings {
  import opened Options
  import opened CodeUnits
  import opened JsonValue
  import opened JsonPointer
  import opened StringSets
  import opened SchemaNodes
  import opened SchemaStrings
  import opened SchemaMeaning
  import opened SchemaDefinedness
  import opened SchemaRefusals
  import opened SchemaParts
  import opened PropertyChoices

  /** The loose reading of the property's schemas accepts the string at depth n. */
  ghost predicate Permits(doc: Document, n: nat, name: Text, node: Json, s: Text) {
    Decide(doc, n, Property(name), node, s, true) == Some(true)
  }

  /** What the loose reading accepts, the exact one does not reject. */
  ghost predicate ReadingsAgree(doc: Document, name: Text, node: Json) {
    forall n, s :: Permits(doc, n, name, node, s) ==> NotRejected(doc, Property(name), node, s)
  }

  ghost predicate PermitsOnly(doc: Document, name: Text, node: Json, expected: Text) {
    forall n, s :: Permits(doc, n, name, node, s) ==> s == expected
  }

  // ---------------------------------------------------------------- what a choice allows is permitted

  lemma {:induction false} ChosenIsPermitted(doc: Document, n: nat, name: Text, node: Json, s: Text, chosen: set<Json>, x: Json)
    requires Choice(doc, name, node, s, chosen) && x in chosen && Decide(doc, n, Property(name), x, s, true).Some?
    ensures Permits(doc, n, name, x, s)
    decreases n, 1
  {
    hide ResolveLocalReference, Accepting, PropertySchema, Subschemas, Schemas, DecideOwn;
    assert ClosedAt(doc, name, s, chosen, x);
    OwnPermitted(doc, n - 1, name, s, chosen, x);
    if REF in x.fields {
      ChosenIsPermitted(doc, n - 1, name, node, s, chosen, ResolveLocalReference(doc, x.fields[REF].text).value.node);
    }
    AllPermitted(doc, n - 1, name, node, s, chosen, Subschemas(x, ALL_OF).value);
    SomePermitted(doc, n - 1, name, node, s, chosen, x, ONE_OF);
    SomePermitted(doc, n - 1, name, node, s, chosen, x, ANY_OF);
  }

  lemma OwnPermitted(doc: Document, n: nat, name: Text, s: Text, chosen: set<Json>, x: Json)
    requires x.Obj? && ClosedAt(doc, name, s, chosen, x) && DecideOwn(doc, n, Property(name), x, s).Some?
    ensures DecideOwn(doc, n, Property(name), x, s) == Some(true)
  {
    hide Decide, PropertySchema;
    if PropertySchema(x, name).value.Some? {
      var verdict := Decide(doc, n, Itself, PropertySchema(x, name).value.value, s);
      assert verdict.Some? && verdict != Some(false);
      assert verdict.value;
    }
  }

  lemma {:induction false} AllPermitted(doc: Document, n: nat, name: Text, node: Json, s: Text, chosen: set<Json>, items: seq<Json>)
    requires Choice(doc, name, node, s, chosen) && forall c :: c in items ==> c in chosen
    requires Accepting(doc, n, Property(name), items, s, true).Some?
    ensures Accepting(doc, n, Property(name), items, s, true) == Some(|items|)
    decreases n, 2, |items|
  {
    hide Decide, Choice;
    if items != [] {
      var front, last := items[..|items| - 1], items[|items| - 1];
      assert last in items && forall c :: c in front ==> c in items;
      AllPermitted(doc, n, name, node, s, chosen, front);
      ChosenIsPermitted(doc, n, name, node, s, chosen, last);
    }
  }

  lemma {:induction false} OnePermitted(doc: Document, n: nat, name: Text, node: Json, s: Text, chosen: set<Json>,
                                        items: seq<Json>, branch: Json)
    requires Choice(doc, name, node, s, chosen) && branch in items && branch in chosen
    requires Accepting(doc, n, Property(name), items, s, true).Some?
    ensures Accepting(doc, n, Property(name), items, s, true).value > 0
    decreases n, 2, |items|
  {
    hide Decide, Choice;
    var front, last := items[..|items| - 1], items[|items| - 1];
    if branch == last {
      ChosenIsPermitted(doc, n, name, node, s, chosen, last);
    } else {
      OnePermitted(doc, n, name, node, s, chosen, front, branch);
    }
  }

  lemma {:induction false} SomePermitted(doc: Document, n: nat, name: Text, node: Json, s: Text, chosen: set<Json>, x: Json,
                                         keyword: Text)
    requires Choice(doc, name, node, s, chosen) && x in chosen && x.Obj? && keyword in [ONE_OF, ANY_OF]
    requires DecideSome(doc, n, Property(name), x, keyword, s, true).Some?
    ensures DecideSome(doc, n, Property(name), x, keyword, s, true) == Some(true)
    decreases n, 3
  {
    hide Accepting, PropertySchema, ResolveLocalReference, Schemas, NotRejected;
    if keyword in x.fields {
      assert ClosedAt(doc, name, s, chosen, x);
      var items := Subschemas(x, keyword).value;
      var branch := ChosenBranch(doc, name, s, chosen, x, keyword);
      OnePermitted(doc, n, name, node, s, chosen, items, branch);
    }
  }

  lemma ChosenBranch(doc: Document, name: Text, s: Text, chosen: set<Json>, x: Json, keyword: Text) returns (branch: Json)
    requires x.Obj? && ClosedAt(doc, name, s, chosen, x) && keyword in [ONE_OF, ANY_OF] && keyword in x.fields
    requires Subschemas(x, keyword).Some?
    ensures branch in Subschemas(x, keyword).value && branch in chosen
  {
    hide Subschemas, PropertySchema, ResolveLocalReference, NotRejected;
    var items := Subschemas(x, keyword).value;
    if keyword == ONE_OF {
      var i: nat :| OneChosen(chosen, items, i);
      branch := items[i];
    } else {
      branch :| branch in items && branch in chosen;
    }
  }

  /** Where a set is known, the loose reading permits whatever some choice of schemas allows. */
  lemma ChoosableIsPermitted(doc: Document, max: nat, name: Text, node: Json, s: Text) returns (n: nat)
    requires node.Obj? && EvalNode(doc, max, Property(name), node, {}).Known? && Choosable(doc, name, node, s)
    ensures Permits(doc, n, name, node, s)
  {
    hide EvalNode, Decide, Choice, Sound;
    KnownIsSound(doc, max, Property(name), node, {}, true);
    SoundWithFewer(doc, Property(name), node, {}, {}, false, true, Some(max));
    n := SoundIsDecided(doc, Property(name), node, {}, true);
    var chosen :| Choice(doc, name, node, s, chosen);
    assert node in chosen by { NodeIsChosen(doc, name, node, s, chosen); }
    assert Decide(doc, n, Property(name), node, s, true).Some?;
    ChosenIsPermitted(doc, n, name, node, s, chosen, node);
  }

  lemma NodeIsChosen(doc: Document, name: Text, node: Json, s: Text, chosen: set<Json>)
    requires Choice(doc, name, node, s, chosen)
    ensures node in chosen
  {}

  /** Reading each oneOf as "at least one" without permitting more is enough for the set to hold all accepted strings. */
  lemma AgreeingReadingsSuffice(doc: Document, max: nat, name: Text, node: Json)
    requires node.Obj? && EvalNode(doc, max, Property(name), node, {}).Known? && ReadingsAgree(doc, name, node)
    ensures HoldsAllAccepted(doc, name, node, EvalNode(doc, max, Property(name), node, {}).allowed)
  {
    hide EvalNode, Choosable, NotRejected, Permits;
    forall s | Choosable(doc, name, node, s) ensures NotRejected(doc, Property(name), node, s) {
      var n := ChoosableIsPermitted(doc, max, name, node, s);
    }
    PropertySetExact(doc, max, name, node);
  }

  /** Permitting one string only is enough for the literal to be forced. */
  lemma OnlyPermittedIsForced(doc: Document, max: nat, name: Text, node: Json, expected: Text)
    requires node.Obj? && AllowsExactlyLiteral(doc, max, node, name, expected) && PermitsOnly(doc, name, node, expected)
    ensures ForcesLiteral(doc, name, node, expected)
  {
    hide EvalNode, Choosable, Permits;
    forall s | Choosable(doc, name, node, s) ensures s == expected {
      var n := ChoosableIsPermitted(doc, max, name, node, s);
    }
    LiteralForcedExactly(doc, name, node, expected);
  }

  // ---------------------------------------------------------------- separate branches

  /** On the way to the property no string is allowed by two branches of one oneOf. */
  ghost predicate Separated(doc: Document, max: nat, name: Text, node: Json, active: set<seq<Text>>)
    requires node.Obj?
    decreases Paths(doc.root) - active, node
  {
    && (ReferencedLocation(doc, node.fields, active).Target? ==>
          var l := ReferencedLocation(doc, node.fields, active).location;
          TargetShrinksTheRest(doc, node.fields, active);
          Separated(doc, max, name, l.node, active + {l.path}))
    && (forall k :: k in [ALL_OF, ONE_OF, ANY_OF] && Subschemas(node, k).Some? ==>
          forall c :: c in Subschemas(node, k).value ==> Separated(doc, max, name, c, active))
    && (Subschemas(node, ONE_OF).Some? ==>
          var each := EvalEach(doc, max, Property(name), node, Subschemas(node, ONE_OF).value, active);
          each.Each? ==> forall s :: Holding(each.sets, s) <= 1)
  }

  lemma {:induction false} PermittedCount(doc: Document, n: nat, name: Text, items: seq<Json>, s: Text)
    requires Accepting(doc, n, Property(name), items, s, true).Some?
    ensures var k := Accepting(doc, n, Property(name), items, s, true).value;
      && (k == |items| ==> forall c :: c in items ==> Permits(doc, n, name, c, s))
      && (k > 0 ==> exists c :: c in items && Permits(doc, n, name, c, s))
    decreases |items|
  {
    hide Decide;
    if items != [] {
      var front, last := items[..|items| - 1], items[|items| - 1];
      assert items == front + [last];
      PermittedCount(doc, n, name, front, s);
      assert Permits(doc, n, name, last, s) <==> Decide(doc, n, Property(name), last, s, true) == Some(true);
    }
  }

  /** With separate branches the set holds what the loose reading permits. */
  lemma {:induction false} PermittedIsHeld(doc: Document, max: nat, n: nat, name: Text, node: Json, active: set<seq<Text>>, s: Text)
    requires node.Obj? && Permits(doc, n, name, node, s) && Separated(doc, max, name, node, active)
    requires EvalNode(doc, max, Property(name), node, active).Known?
    ensures Has(EvalNode(doc, max, Property(name), node, active).allowed, s)
    decreases Paths(doc.root) - active, node, 3
  {
    hide EvalOwn, EvalReference, EvalAllOf, EvalAlternatives, DecideOwn, DecideReference, DecideAll, DecideSome, Separated;
    var own := EvalOwn(doc, max, Property(name), node, active).allowed;
    OwnHeld(doc, max, n - 1, name, node, active, s);
    var referenced := EvalReference(doc, max, Property(name), node, active, own).allowed;
    ReferenceHeld(doc, max, n - 1, name, node, active, s, own);
    var conjuncts := Subschemas(node, ALL_OF).value;
    ConjunctsPermitted(doc, max, n - 1, name, node, active, s);
    AllOfHeld(doc, max, n - 1, name, node, conjuncts, active, s, referenced);
    var all := EvalAllOf(doc, max, Property(name), node, conjuncts, active, referenced).allowed;
    SomeHeld(doc, max, n - 1, name, node, ONE_OF, active, s, all);
    var one := EvalAlternatives(doc, max, Property(name), node, ONE_OF, active, all).allowed;
    SomeHeld(doc, max, n - 1, name, node, ANY_OF, active, s, one);
  }

  lemma ConjunctsPermitted(doc: Document, max: nat, n: nat, name: Text, node: Json, active: set<seq<Text>>, s: Text)
    requires node.Obj? && Subschemas(node, ALL_OF).Some? && DecideAll(doc, n, Property(name), node, s, true) == Some(true)
    requires Separated(doc, max, name, node, active)
    ensures forall c :: c in Subschemas(node, ALL_OF).value ==>
      c.Obj? && c < node && Permits(doc, n, name, c, s) && Separated(doc, max, name, c, active)
  {
    hide Permits, Subschemas, Accepting, EvalEach, Holding;
    PermittedCount(doc, n, name, Subschemas(node, ALL_OF).value, s);
    assert ALL_OF in [ALL_OF, ONE_OF, ANY_OF];
  }

  lemma OwnHeld(doc: Document, max: nat, n: nat, name: Text, node: Json, active: set<seq<Text>>, s: Text)
    requires node.Obj? && DecideOwn(doc, n, Property(name), node, s) == Some(true)
    requires EvalOwn(doc, max, Property(name), node, active).Known?
    ensures Has(EvalOwn(doc, max, Property(name), node, active).allowed, s)
  {
    hide DecideOwn, EvalOwn;
    var m := OwnExact(doc, max, Property(name), node, active);
    assert DecideOwn(doc, m, Property(name), node, s).Some?;
    if n <= m { OwnStands(doc, n, m, Property(name), node, s); } else { OwnStands(doc, m, n, Property(name), node, s); }
  }

  lemma {:induction false} ReferenceHeld(doc: Document, max: nat, n: nat, name: Text, node: Json, active: set<seq<Text>>, s: Text,
                                         start: StringSet)
    requires node.Obj? && DecideReference(doc, n, Property(name), node, s, true) == Some(true)
    requires Separated(doc, max, name, node, active) && Has(start, s)
    requires EvalReference(doc, max, Property(name), node, active, start).Known?
    ensures Has(EvalReference(doc, max, Property(name), node, active, start).allowed, s)
    decreases Paths(doc.root) - active, node, 2
  {
    hide EvalNode, Decide, ResolveLocalReference, EvalEach, Subschemas;
    var reference := ReferencedLocation(doc, node.fields, active);
    if reference.Target? {
      var l := reference.location;
      TargetShrinksTheRest(doc, node.fields, active);
      assert Permits(doc, n, name, l.node, s);
      PermittedIsHeld(doc, max, n, name, l.node, active + {l.path}, s);
    }
  }

  lemma {:induction false} AllOfHeld(doc: Document, max: nat, n: nat, name: Text, node: Json, items: seq<Json>,
                                     active: set<seq<Text>>, s: Text, start: StringSet)
    requires forall c :: c in items ==>
      c.Obj? && c < node && Permits(doc, n, name, c, s) && Separated(doc, max, name, c, active)
    requires Has(start, s) && EvalAllOf(doc, max, Property(name), node, items, active, start).Known?
    ensures Has(EvalAllOf(doc, max, Property(name), node, items, active, start).allowed, s)
    decreases Paths(doc.root) - active, node, 1, |items|
  {
    hide EvalNode, Permits, Separated;
    if items != [] {
      var front, last := items[..|items| - 1], items[|items| - 1];
      assert last in items && forall c :: c in front ==> c in items;
      AllOfHeld(doc, max, n, name, node, front, active, s, start);
      PermittedIsHeld(doc, max, n, name, last, active, s);
    }
  }

  lemma {:induction false} EachHeld(doc: Document, max: nat, n: nat, name: Text, node: Json, items: seq<Json>,
                                    active: set<seq<Text>>, s: Text, branch: Json)
    requires forall c :: c in items ==> c.Obj? && c < node
    requires branch in items && Permits(doc, n, name, branch, s) && Separated(doc, max, name, branch, active)
    requires EvalEach(doc, max, Property(name), node, items, active).Each?
    ensures Holding(EvalEach(doc, max, Property(name), node, items, active).sets, s) > 0
    decreases Paths(doc.root) - active, node, 1, |items|
  {
    hide EvalNode, Permits, Separated;
    var front, last := items[..|items| - 1], items[|items| - 1];
    assert last in items;
    var sets := EvalEach(doc, max, Property(name), node, items, active).sets;
    assert sets[..|sets| - 1] == EvalEach(doc, max, Property(name), node, front, active).sets;
    if branch == last {
      PermittedIsHeld(doc, max, n, name, last, active, s);
    } else {
      EachHeld(doc, max, n, name, node, front, active, s, branch);
    }
  }

  lemma {:induction false} SomeHeld(doc: Document, max: nat, n: nat, name: Text, node: Json, keyword: Text,
                                    active: set<seq<Text>>, s: Text, start: StringSet)
    requires node.Obj? && DecideSome(doc, n, Property(name), node, keyword, s, true) == Some(true)
    requires Separated(doc, max, name, node, active) && Has(start, s) && keyword in [ONE_OF, ANY_OF]
    requires EvalAlternatives(doc, max, Property(name), node, keyword, active, start).Known?
    ensures Has(EvalAlternatives(doc, max, Property(name), node, keyword, active, start).allowed, s)
    decreases Paths(doc.root) - active, node, 2
  {
    hide EvalEach, Accepting, ResolveLocalReference, UnionBounded, ExactlyOneBounded, Holding, Permits;
    if keyword in node.fields {
      var items := Subschemas(node, keyword).value;
      PermittedCount(doc, n, name, items, s);
      var branch :| branch in items && Permits(doc, n, name, branch, s);
      assert keyword in [ALL_OF, ONE_OF, ANY_OF];
      EachHeld(doc, max, n, name, node, items, active, s, branch);
      var sets := EvalEach(doc, max, Property(name), node, items, active).sets;
      if keyword == ANY_OF {
        UnionMeans(sets, max, s);
      } else {
        ExactlyOneMeans(sets, max, s);
      }
    }
  }

  /** Branches that allow no string in common are enough for the readings to agree. */
  lemma SeparatedReadingsAgree(doc: Document, max: nat, name: Text, node: Json)
    requires node.Obj? && EvalNode(doc, max, Property(name), node, {}).Known? && Separated(doc, max, name, node, {})
    ensures ReadingsAgree(doc, name, node)
  {
    hide EvalNode, Permits, Separated, NotRejected;
    forall n, s | Permits(doc, n, name, node, s) ensures NotRejected(doc, Property(name), node, s) {
      PermittedIsHeld(doc, max, n, name, node, {}, s);
      KnownNotRejected(doc, max, Property(name), node, s);
    }
  }
}
