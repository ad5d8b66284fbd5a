/** packages/codex-adapter/src/c-lite-compatibility.ts: what stands behind each refusal of the string evaluators. */
module SchemaFaults {
  import opened Options
  import opened CodeUnits
  import opened JsonValue
  import opened JsonPointer
  import opened StringSets
  import opened SchemaNodes
  import opened SchemaStrings
  import opened SchemaMeaning
  import opened SchemaDefinedness
  import opened SchemaParts
  import opened SchemaLimits
  import opened SchemaRefusals

  /** A schema read for itself or for one of its properties. */
  datatype View = View(focus: Focus, node: Json)

  ghost predicate Reads(doc: Document, v: View, w: View) {
    || (w.focus == v.focus && Consults(doc, v.node, w.node))
    || (v.focus.Property? && w.focus.Itself? && v.node.Obj? && PropertySchema(v.node, v.focus.name) == Some(Some(w.node)))
  }

  /** The views read one after the other, from the first to the last. */
  ghost predicate Reading(doc: Document, chain: seq<View>) {
    chain != [] && forall i :: 0 <= i < |chain| - 1 ==> Reads(doc, chain[i], chain[i + 1])
  }

  function Last(chain: seq<View>): View
    requires chain != []
  {
    chain[|chain| - 1]
  }

  // ---------------------------------------------------------------- what can be wrong with one view

  ghost predicate Refused(v: View) { v.focus.Itself? && v.node.Obj? && Uninterpreted(v.node.fields) }

  ghost predicate Malformed(doc: Document, v: View) {
    && v.node.Obj?
    && var f := v.node.fields;
      || (v.focus.Itself? && !KeywordsOk(f))
      || (v.focus.Property? && PropertySchema(v.node, v.focus.name).None?)
      || (REF in f && !(f[REF].Str? && ResolveLocalReference(doc, f[REF].text).Some?))
      || exists k :: k in [ALL_OF, ONE_OF, ANY_OF] && Subschemas(v.node, k).None?
  }

  ghost predicate AcceptedOnce(doc: Document, focus: Focus, items: seq<Json>, s: Text) {
    exists n :: Accepting(doc, n, focus, items, s) == Some(1)
  }

  ghost predicate HoldsOnce(doc: Document, focus: Focus, items: seq<Json>, allowed: StringSet) {
    forall s :: Has(allowed, s) <==> AcceptedOnce(doc, focus, items, s)
  }

  /** No bounded set holds exactly the strings that one branch of the oneOf accepts. */
  ghost predicate Unbounding(doc: Document, v: View) {
    && v.node.Obj? && Subschemas(v.node, ONE_OF).Some?
    && !exists allowed :: HoldsOnce(doc, v.focus, Subschemas(v.node, ONE_OF).value, allowed)
  }

  ghost predicate RefersTo(doc: Document, v: View, target: Location) {
    && v.node.Obj? && REF in v.node.fields && v.node.fields[REF].Str?
    && ResolveLocalReference(doc, v.node.fields[REF].text) == Some(target)
  }

  /** The second view is the first one's reference, at that path. */
  ghost predicate Follows(doc: Document, v: View, w: View, path: seq<Text>) {
    w.focus == v.focus && RefersTo(doc, v, Location(w.node, path))
  }

  ghost predicate Followed(doc: Document, chain: seq<View>, path: seq<Text>) {
    exists i :: 0 < i < |chain| && Follows(doc, chain[i - 1], chain[i], path)
  }

  /** The reference leads to an active path, or to one that was followed on the way. */
  ghost predicate LeadsAround(doc: Document, active: set<seq<Text>>, chain: seq<View>) {
    chain != [] && exists target :: RefersTo(doc, Last(chain), target) && (target.path in active || Followed(doc, chain, target.path))
  }

  /** The last view explains the result, if it is none of the limits'. */
  ghost predicate Explains(doc: Document, active: set<seq<Text>>, chain: seq<View>, e: Eval) {
    && Reading(doc, chain) && e != Thrown(OverBudget)
    && (e == Unknown(RefusedKeyword) ==> Refused(Last(chain)))
    && (e == Unknown(NotBounded) ==> Unbounding(doc, Last(chain)))
    && (e == Thrown(BadShape) ==> Malformed(doc, Last(chain)))
    && (e == Thrown(ActivePath) ==> LeadsAround(doc, active, chain))
  }

  // ---------------------------------------------------------------- every refusal has its reason

  lemma ReadingStep(doc: Document, v: View, chain: seq<View>)
    requires Reading(doc, chain) && Reads(doc, v, chain[0])
    ensures Reading(doc, [v] + chain)
  {
    hide Reads;
    var longer := [v] + chain;
    forall i | 0 <= i < |longer| - 1 ensures Reads(doc, longer[i], longer[i + 1]) {
      if i > 0 { assert longer[i] == chain[i - 1] && longer[i + 1] == chain[i]; }
    }
  }

  lemma LeadsAroundStep(doc: Document, v: View, active: set<seq<Text>>, more: set<seq<Text>>, chain: seq<View>)
    requires LeadsAround(doc, active + more, chain) && forall p :: p in more ==> Follows(doc, v, chain[0], p)
    ensures LeadsAround(doc, active, [v] + chain)
  {
    hide RefersTo, Follows;
    var longer := [v] + chain;
    assert Last(longer) == Last(chain);
    var target :| RefersTo(doc, Last(chain), target) && (target.path in active + more || Followed(doc, chain, target.path));
    assert RefersTo(doc, Last(longer), target);
    if i :| 0 < i < |chain| && Follows(doc, chain[i - 1], chain[i], target.path) {
      assert longer[i] == chain[i - 1] && longer[i + 1] == chain[i];
      assert Follows(doc, longer[i + 1 - 1], longer[i + 1], target.path);
    } else if target.path in more {
      assert Follows(doc, longer[1 - 1], longer[1], target.path);
    }
  }

  lemma ExplainsStep(doc: Document, v: View, active: set<seq<Text>>, more: set<seq<Text>>, chain: seq<View>, e: Eval)
    requires Explains(doc, active + more, chain, e) && Reads(doc, v, chain[0])
    requires forall p :: p in more ==> Follows(doc, v, chain[0], p)
    ensures Explains(doc, active, [v] + chain, e)
  {
    hide Reads, Refused, Unbounding, Malformed, LeadsAround, Follows;
    ReadingStep(doc, v, chain);
    assert Last([v] + chain) == Last(chain);
    if e == Thrown(ActivePath) { LeadsAroundStep(doc, v, active, more, chain); }
  }

  lemma KeywordRefusals(f: Fields, max: nat)
    ensures var e := EvalKeywords(f, max);
      && (e == Unknown(RefusedKeyword) <==> Uninterpreted(f))
      && (e == Thrown(BadShape) ==> !KeywordsOk(f))
      && e != Unknown(NotBounded) && e != Thrown(ActivePath) && e != Thrown(OverBudget)
  {
    UnsupportedExact(f);
    SchemaTypeAllowsDefined(f, STRING);
    hide HasUnsupportedStringConstraint, Uninterpreted, SchemaTypeAllows, TypeNamesOk;
  }

  predicate Stopped(e: Eval) { !e.Known? && e != Thrown(OverLimit) }

  lemma {:induction false} NodeExplained(doc: Document, max: nat, focus: Focus, node: Json, active: set<seq<Text>>)
    returns (chain: seq<View>)
    requires node.Obj? && Stopped(EvalNode(doc, max, focus, node, active))
    ensures chain != [] && chain[0] == View(focus, node)
    ensures Explains(doc, active, chain, EvalNode(doc, max, focus, node, active))
    decreases Paths(doc.root) - active, node, 3
  {
    hide EvalOwn, EvalReference, EvalAllOf, EvalAlternatives, Explains, Subschemas;
    var own := EvalOwn(doc, max, focus, node, active);
    if !own.Known? {
      chain := OwnExplained(doc, max, focus, node, active);
      return;
    }
    var referenced := EvalReference(doc, max, focus, node, active, own.allowed);
    if !referenced.Known? {
      chain := ReferenceExplained(doc, max, focus, node, active, own.allowed);
      return;
    }
    var conjuncts := Subschemas(node, ALL_OF);
    if conjuncts.None? {
      chain := [View(focus, node)];
      MalformedKeyword(doc, focus, node, ALL_OF, active);
      return;
    }
    var all := EvalAllOf(doc, max, focus, node, conjuncts.value, active, referenced.allowed);
    if !all.Known? {
      var c;
      c, chain := AllOfExplained(doc, max, focus, node, conjuncts.value, active, referenced.allowed);
      MemberExplains(doc, focus, node, ALL_OF, c, active, chain, all);
      chain := [View(focus, node)] + chain;
      return;
    }
    var one := EvalAlternatives(doc, max, focus, node, ONE_OF, active, all.allowed);
    if !one.Known? {
      chain := AlternativesExplained(doc, max, focus, node, ONE_OF, active, all.allowed);
      return;
    }
    chain := AlternativesExplained(doc, max, focus, node, ANY_OF, active, one.allowed);
  }

  lemma MalformedKeyword(doc: Document, focus: Focus, node: Json, keyword: Text, active: set<seq<Text>>)
    requires node.Obj? && keyword in [ALL_OF, ONE_OF, ANY_OF] && Subschemas(node, keyword).None?
    ensures Explains(doc, active, [View(focus, node)], Thrown(BadShape))
  {}

  lemma MemberExplains(doc: Document, focus: Focus, node: Json, keyword: Text, c: Json, active: set<seq<Text>>, chain: seq<View>,
                       e: Eval)
    requires node.Obj? && keyword in [ALL_OF, ONE_OF, ANY_OF] && Subschemas(node, keyword).Some?
    requires c in Subschemas(node, keyword).value
    requires chain != [] && chain[0] == View(focus, c) && Explains(doc, active, chain, e)
    ensures Explains(doc, active, [View(focus, node)] + chain, e)
  {
    hide Explains, Consults;
    MemberIsConsulted(doc, node, keyword, c);
    assert active + {} == active;
    ExplainsStep(doc, View(focus, node), active, {}, chain, e);
  }

  lemma {:induction false} OwnExplained(doc: Document, max: nat, focus: Focus, node: Json, active: set<seq<Text>>)
    returns (chain: seq<View>)
    requires node.Obj? && Stopped(EvalOwn(doc, max, focus, node, active))
    ensures chain != [] && chain[0] == View(focus, node)
    ensures Explains(doc, active, chain, EvalOwn(doc, max, focus, node, active))
    decreases Paths(doc.root) - active, node, 2
  {
    hide EvalKeywords, EvalNode, Unbounding, LeadsAround, Uninterpreted, KeywordsOk, Consults;
    chain := [View(focus, node)];
    if focus.Itself? {
      KeywordRefusals(node.fields, max);
    } else if PropertySchema(node, focus.name).Some? {
      var child := PropertySchema(node, focus.name).value.value;
      var rest := NodeExplained(doc, max, Itself, child, active);
      assert active + {} == active;
      hide Explains, PropertySchema;
      ExplainsStep(doc, View(focus, node), active, {}, rest, EvalNode(doc, max, Itself, child, active));
      chain := chain + rest;
    }
  }

  lemma {:induction false} ReferenceExplained(doc: Document, max: nat, focus: Focus, node: Json, active: set<seq<Text>>,
                                              start: StringSet) returns (chain: seq<View>)
    requires node.Obj? && Stopped(EvalReference(doc, max, focus, node, active, start))
    ensures chain != [] && chain[0] == View(focus, node)
    ensures Explains(doc, active, chain, EvalReference(doc, max, focus, node, active, start))
    decreases Paths(doc.root) - active, node, 2
  {
    hide EvalNode, ResolveLocalReference, PropertySchema, Subschemas, KeywordsOk, Unbounding, Refused;
    chain := [View(focus, node)];
    var reference := ReferencedLocation(doc, node.fields, active);
    if reference.Target? {
      var l := reference.location;
      TargetShrinksTheRest(doc, node.fields, active);
      var rest := NodeExplained(doc, max, focus, l.node, active + {l.path});
      ReferenceIsConsulted(doc, node);
      hide Explains;
      ExplainsStep(doc, chain[0], active, {l.path}, rest, EvalNode(doc, max, focus, l.node, active + {l.path}));
      chain := chain + rest;
    }
  }

  lemma {:induction false} AllOfExplained(doc: Document, max: nat, focus: Focus, node: Json, items: seq<Json>,
                                          active: set<seq<Text>>, start: StringSet) returns (c: Json, chain: seq<View>)
    requires forall c :: c in items ==> c.Obj? && c < node
    requires Stopped(EvalAllOf(doc, max, focus, node, items, active, start))
    ensures c in items && chain != [] && chain[0] == View(focus, c)
    ensures Explains(doc, active, chain, EvalAllOf(doc, max, focus, node, items, active, start))
    decreases Paths(doc.root) - active, node, 1, |items|
  {
    hide EvalNode, Explains;
    var front := items[..|items| - 1];
    c := items[|items| - 1];
    assert c in items && forall x :: x in front ==> x in items;
    if !EvalAllOf(doc, max, focus, node, front, active, start).Known? {
      c, chain := AllOfExplained(doc, max, focus, node, front, active, start);
    } else {
      chain := NodeExplained(doc, max, focus, c, active);
    }
  }

  predicate EachStopped(r: Evals) { !r.Each? && r != EachThrown(OverLimit) }

  lemma {:induction false} EachExplained(doc: Document, max: nat, focus: Focus, node: Json, items: seq<Json>,
                                         active: set<seq<Text>>) returns (c: Json, chain: seq<View>)
    requires forall c :: c in items ==> c.Obj? && c < node
    requires EachStopped(EvalEach(doc, max, focus, node, items, active))
    ensures c in items && chain != [] && chain[0] == View(focus, c)
    ensures Explains(doc, active, chain, EvalEach(doc, max, focus, node, items, active).PropagateFailure())
    decreases Paths(doc.root) - active, node, 1, |items|
  {
    hide EvalNode, Explains;
    var front := items[..|items| - 1];
    c := items[|items| - 1];
    assert c in items && forall x :: x in front ==> x in items;
    if !EvalEach(doc, max, focus, node, front, active).Each? {
      c, chain := EachExplained(doc, max, focus, node, front, active);
    } else {
      chain := NodeExplained(doc, max, focus, c, active);
    }
  }

  lemma {:induction false} AlternativesExplained(doc: Document, max: nat, focus: Focus, node: Json, keyword: Text,
                                                 active: set<seq<Text>>, start: StringSet) returns (chain: seq<View>)
    requires node.Obj? && keyword in [ONE_OF, ANY_OF]
    requires Stopped(EvalAlternatives(doc, max, focus, node, keyword, active, start))
    ensures chain != [] && chain[0] == View(focus, node)
    ensures Explains(doc, active, chain, EvalAlternatives(doc, max, focus, node, keyword, active, start))
    decreases Paths(doc.root) - active, node, 2
  {
    hide EvalEach, Combine, Explains, Subschemas;
    chain := [View(focus, node)];
    if Subschemas(node, keyword).None? {
      MalformedKeyword(doc, focus, node, keyword, active);
    } else {
      var items := Subschemas(node, keyword).value;
      var each := EvalEach(doc, max, focus, node, items, active);
      if each.Each? {
        CombineOutcomes(keyword, each.sets, max);
        CombinedExplained(doc, max, focus, node, keyword, active);
      } else {
        var c, rest := EachExplained(doc, max, focus, node, items, active);
        MemberExplains(doc, focus, node, keyword, c, active, rest, each.PropagateFailure());
        chain := chain + rest;
      }
    }
  }

  /** The meaning of the branches is counted by their sets. */
  lemma OnceExactly(doc: Document, n: nat, focus: Focus, items: seq<Json>, sets: seq<StringSet>, s: Text)
    requires ExactCounts(doc, n, focus, items, sets)
    ensures AcceptedOnce(doc, focus, items, s) <==> Holding(sets, s) == 1
  {
    hide Accepting;
    assert Accepting(doc, n, focus, items, s) == Some(Holding(sets, s));
    if m: nat :| Accepting(doc, m, focus, items, s) == Some(1) {
      if m <= n { CountStands(doc, m, n, focus, items, s); } else { CountStands(doc, n, m, focus, items, s); }
    }
  }

  lemma HoldsOnceExactly(doc: Document, n: nat, focus: Focus, items: seq<Json>, sets: seq<StringSet>, allowed: StringSet)
    requires ExactCounts(doc, n, focus, items, sets)
    ensures HoldsOnce(doc, focus, items, allowed) <==> IsExactlyOne(allowed, sets)
  {
    hide ExactCounts, AcceptedOnce, Has;
    forall s ensures AcceptedOnce(doc, focus, items, s) <==> Holding(sets, s) == 1 {
      OnceExactly(doc, n, focus, items, sets, s);
    }
  }

  lemma CombinedExplained(doc: Document, max: nat, focus: Focus, node: Json, keyword: Text, active: set<seq<Text>>)
    requires node.Obj? && keyword in [ONE_OF, ANY_OF] && Subschemas(node, keyword).Some?
    requires EvalEach(doc, max, focus, node, Subschemas(node, keyword).value, active).Each?
    requires Unknown(NotBounded) ==
      Combine(keyword, EvalEach(doc, max, focus, node, Subschemas(node, keyword).value, active).sets, max)
    ensures Explains(doc, active, [View(focus, node)], Unknown(NotBounded))
  {
    hide EvalEach, Subschemas, HoldsOnce, IsExactlyOne;
    var items := Subschemas(node, keyword).value;
    var sets := EvalEach(doc, max, focus, node, items, active).sets;
    UnionGivesUpNever(sets, max);
    ExactlyOneGivesUpWhenItMust(sets, max);
    var n := EachExact(doc, max, focus, node, items, active);
    forall allowed ensures !HoldsOnce(doc, focus, items, allowed) {
      HoldsOnceExactly(doc, n, focus, items, sets, allowed);
    }
  }

  lemma {:induction false} UnionGivesUpNever(sets: seq<StringSet>, max: nat)
    ensures !UnionBounded(sets, max).Unknown?
  {
    if sets != [] { UnionGivesUpNever(sets[..|sets| - 1], max); }
  }

  // ---------------------------------------------------------------- no set in spite of a reason

  ghost predicate Flawless(doc: Document, v: View) { v.node.Obj? && !Refused(v) && !Malformed(doc, v) && !Unbounding(doc, v) }

  lemma KnownIsFlawless(doc: Document, max: nat, focus: Focus, node: Json, active: set<seq<Text>>)
    requires node.Obj? && EvalNode(doc, max, focus, node, active).Known?
    ensures Flawless(doc, View(focus, node))
  {
    hide EvalAllOf, EvalEach, Combine, Uninterpreted, KeywordsOk, ResolveLocalReference, Subschemas, Unbounding, EvalKeywords;
    if focus.Itself? { KeywordsExact(node.fields, max, []); }
    var own := EvalOwn(doc, max, focus, node, active).allowed;
    var referenced := EvalReference(doc, max, focus, node, active, own).allowed;
    var all := EvalAllOf(doc, max, focus, node, Subschemas(node, ALL_OF).value, active, referenced).allowed;
    var one := EvalAlternatives(doc, max, focus, node, ONE_OF, active, all).allowed;
    hide EvalNode, EvalOwn, EvalReference;
    AlternativesKnown(doc, max, focus, node, ONE_OF, active, all);
    AlternativesKnown(doc, max, focus, node, ANY_OF, active, one);
    KnownIsBounding(doc, max, focus, node, active, all);
  }

  lemma NoBranchesBounded(doc: Document, v: View)
    requires v.node.Obj? && ONE_OF !in v.node.fields
    ensures !Unbounding(doc, v)
  {
    AbsentKeyword(v.node, ONE_OF);
    assert HoldsOnce(doc, v.focus, [], Finite({}));
  }

  lemma CombinedOnce(sets: seq<StringSet>, max: nat)
    requires ExactlyOneBounded(sets, max).Known?
    ensures IsExactlyOne(ExactlyOneBounded(sets, max).allowed, sets)
  {
    forall s ensures Has(ExactlyOneBounded(sets, max).allowed, s) <==> Holding(sets, s) == 1 { ExactlyOneMeans(sets, max, s); }
  }

  lemma KnownIsBounding(doc: Document, max: nat, focus: Focus, node: Json, active: set<seq<Text>>, start: StringSet)
    requires node.Obj? && EvalAlternatives(doc, max, focus, node, ONE_OF, active, start).Known?
    ensures !Unbounding(doc, View(focus, node))
  {
    hide EvalEach, HoldsOnce, IsExactlyOne, ExactlyOneBounded;
    if ONE_OF !in node.fields {
      NoBranchesBounded(doc, View(focus, node));
    } else {
      assert ONE_OF[0] == 'o' as int && ANY_OF[0] == 'a' as int;
      var items := Subschemas(node, ONE_OF).value;
      var sets := EvalEach(doc, max, focus, node, items, active).sets;
      var n := EachExact(doc, max, focus, node, items, active);
      CombinedOnce(sets, max);
      HoldsOnceExactly(doc, n, focus, items, sets, ExactlyOneBounded(sets, max).allowed);
    }
  }

  /** What a view with a set reads has a set too, with the paths on the way active. */
  lemma ReadIsKnown(doc: Document, max: nat, v: View, w: View, active: set<seq<Text>>) returns (more: set<seq<Text>>)
    requires v.node.Obj? && EvalNode(doc, max, v.focus, v.node, active).Known? && Reads(doc, v, w)
    ensures w.node.Obj? && EvalNode(doc, max, w.focus, w.node, more).Known? && active <= more
    ensures forall p :: Follows(doc, v, w, p) ==> p in more
  {
    hide EvalKeywords, EvalEach, Combine, ResolveLocalReference, Subschemas, PropertySchema;
    var own := EvalOwn(doc, max, v.focus, v.node, active).allowed;
    var referenced := EvalReference(doc, max, v.focus, v.node, active, own).allowed;
    var conjuncts := Subschemas(v.node, ALL_OF).value;
    var all := EvalAllOf(doc, max, v.focus, v.node, conjuncts, active, referenced).allowed;
    var one := EvalAlternatives(doc, max, v.focus, v.node, ONE_OF, active, all).allowed;
    more := active;
    if p :| Follows(doc, v, w, p) {
      TargetShrinksTheRest(doc, v.node.fields, active);
      more := active + {p};
    } else if w.focus == v.focus && Consults(doc, v.node, w.node) {
      assert REF in v.node.fields && v.node.fields[REF].Str? ==>
        forall target :: ResolveLocalReference(doc, v.node.fields[REF].text) == Some(target) && target.node == w.node ==>
          Follows(doc, v, w, target.path);
      var k :| k in [ALL_OF, ONE_OF, ANY_OF] && Subschemas(v.node, k).Some? && w.node in Subschemas(v.node, k).value;
      AlternativesKnown(doc, max, v.focus, v.node, ONE_OF, active, all);
      AlternativesKnown(doc, max, v.focus, v.node, ANY_OF, active, one);
      if k == ALL_OF { ConjunctKnown(doc, max, v.focus, v.node, conjuncts, active, referenced, w.node); }
    }
  }

  lemma FollowedAfter(doc: Document, chain: seq<View>, path: seq<Text>)
    requires |chain| > 1 && Followed(doc, chain, path)
    ensures Follows(doc, chain[0], chain[1], path) || Followed(doc, chain[1..], path)
  {
    hide Follows;
    var i :| 0 < i < |chain| && Follows(doc, chain[i - 1], chain[i], path);
    if i > 1 { assert Follows(doc, chain[1..][i - 2], chain[1..][i - 1], path); }
  }

  lemma {:induction false} KnownThroughout(doc: Document, max: nat, chain: seq<View>, active: set<seq<Text>>)
    requires Reading(doc, chain) && chain[0].node.Obj?
    requires EvalNode(doc, max, chain[0].focus, chain[0].node, active).Known?
    ensures Flawless(doc, Last(chain)) && !LeadsAround(doc, active, chain)
    decreases |chain|
  {
    hide EvalNode, Reads, Flawless, RefersTo, Follows;
    if |chain| == 1 {
      KnownIsFlawless(doc, max, chain[0].focus, chain[0].node, active);
      KnownRefersAnew(doc, max, chain[0], active);
    } else {
      var more := ReadIsKnown(doc, max, chain[0], chain[1], active);
      var rest := chain[1..];
      assert forall i :: 0 <= i < |rest| ==> rest[i] == chain[i + 1];
      KnownThroughout(doc, max, rest, more);
      forall target | RefersTo(doc, Last(chain), target) ensures target.path !in active && !Followed(doc, chain, target.path) {
        assert RefersTo(doc, Last(rest), target);
        if Followed(doc, chain, target.path) { FollowedAfter(doc, chain, target.path); }
      }
    }
  }

  lemma KnownRefersAnew(doc: Document, max: nat, v: View, active: set<seq<Text>>)
    requires v.node.Obj? && EvalNode(doc, max, v.focus, v.node, active).Known?
    ensures forall target :: RefersTo(doc, v, target) ==> target.path !in active
  {
    hide EvalOwn, EvalAllOf, EvalAlternatives, ResolveLocalReference, Subschemas;
  }

  ghost predicate Leads(doc: Document, v: View, chain: seq<View>) { Reading(doc, chain) && chain[0] == v }

  /** A schema, or one of its properties, leads to a view at fault in the way the result says. */
  ghost predicate AtFault(doc: Document, v: View, e: Eval) { exists chain :: Leads(doc, v, chain) && Explains(doc, {}, chain, e) }

  /** Nothing it leads to is at fault, nor leads around. */
  ghost predicate Faultless(doc: Document, v: View) {
    forall chain :: Leads(doc, v, chain) ==> Flawless(doc, Last(chain)) && !LeadsAround(doc, {}, chain)
  }

  /**
   * Every refusal but the size limit's names its reason: a keyword that is not followed and a oneOf that no bounded set
   * describes give null, a malformed keyword and a reference back to a path that is being evaluated throw. A set is
   * returned only where nothing that is read is at fault, and with room for the listed strings and the branches exactly
   * there.
   */
  lemma RefusalsExplained(doc: Document, max: nat, focus: Focus, node: Json)
    requires node.Obj?
    ensures var e := EvalNode(doc, max, focus, node, {}); var v := View(focus, node);
      && (e.Known? || e == Thrown(OverLimit) || AtFault(doc, v, e))
      && (e.Known? ==> Faultless(doc, v))
      && (Roomy(doc, node, max) ==> (e.Known? <==> Faultless(doc, v)))
  {
    hide EvalNode, Refused, Malformed, Unbounding, LeadsAround, Reads, Roomy;
    var e := EvalNode(doc, max, focus, node, {});
    var v := View(focus, node);
    if Stopped(e) {
      var chain := NodeExplained(doc, max, focus, node, {});
      assert Leads(doc, v, chain);
      match e
      case Unknown(doubt) => assert doubt == RefusedKeyword || doubt == NotBounded;
      case Thrown(cause) => assert cause == BadShape || cause == ActivePath;
    } else if e.Known? {
      forall chain | Leads(doc, v, chain) ensures Flawless(doc, Last(chain)) && !LeadsAround(doc, {}, chain) {
        KnownThroughout(doc, max, chain, {});
      }
    }
    if Roomy(doc, node, max) { EnoughRoom(doc, max, focus, node); }
  }
}
