/** packages/codex-adapter/src/c-lite-compatibility.ts: the evaluators as they run, counting their operations. */
module SchemaContext {
  import opened Options
  import opened CodeUnits
  import opened JsonValue
  import opened JsonPointer
  import opened StringSets
  import opened SchemaNodes
  import opened SchemaStrings
  import S = SchemaSignatures

  // ---------------------------------------------------------------- operations

  /** One operation for each schema met, counted as often as it is met, and one for each reference. */
  function Cost(doc: Document, focus: Focus, node: Json, active: set<seq<Text>>): nat
    requires node.Obj?
    decreases Paths(doc.root) - active, node, 3
  {
    1 + OwnCost(doc, focus, node, active) + ReferenceCost(doc, focus, node, active)
    + KeywordCost(doc, focus, node, ALL_OF, active) + KeywordCost(doc, focus, node, ONE_OF, active)
    + KeywordCost(doc, focus, node, ANY_OF, active)
  }

  function OwnCost(doc: Document, focus: Focus, node: Json, active: set<seq<Text>>): nat
    requires node.Obj?
    decreases Paths(doc.root) - active, node, 2
  {
    if focus.Itself? then 0
    else
      match PropertySchema(node, focus.name)
      case Some(Some(child)) => Cost(doc, Itself, child, active)
      case _ => 0
  }

  function ReferenceCost(doc: Document, focus: Focus, node: Json, active: set<seq<Text>>): nat
    requires node.Obj?
    decreases Paths(doc.root) - active, node, 2
  {
    if REF !in node.fields || !node.fields[REF].Str? then 0
    else
      match ReferencedLocation(doc, node.fields, active)
      case Target(l) =>
        TargetShrinksTheRest(doc, node.fields, active);
        1 + Cost(doc, focus, l.node, active + {l.path})
      case _ => 1
  }

  function KeywordCost(doc: Document, focus: Focus, node: Json, keyword: Text, active: set<seq<Text>>): nat
    requires node.Obj?
    decreases Paths(doc.root) - active, node, 2
  {
    if Subschemas(node, keyword).None? then 0 else MembersCost(doc, focus, node, Subschemas(node, keyword).value, active)
  }

  function MembersCost(doc: Document, focus: Focus, node: Json, items: seq<Json>, active: set<seq<Text>>): nat
    requires forall c :: c in items ==> c.Obj? && c < node
    decreases Paths(doc.root) - active, node, 1, |items|
  {
    if items == [] then 0
    else
      var last := items[|items| - 1];
      assert last in items;
      MembersCost(doc, focus, node, items[..|items| - 1], active) + Cost(doc, focus, last, active)
  }

  lemma CostParts(doc: Document, focus: Focus, node: Json, active: set<seq<Text>>)
    requires node.Obj?
    ensures Cost(doc, focus, node, active) ==
      1 + OwnCost(doc, focus, node, active) + ReferenceCost(doc, focus, node, active)
      + KeywordCost(doc, focus, node, ALL_OF, active) + KeywordCost(doc, focus, node, ONE_OF, active)
      + KeywordCost(doc, focus, node, ANY_OF, active)
    ensures Subschemas(node, ALL_OF).Some? ==>
      KeywordCost(doc, focus, node, ALL_OF, active) == MembersCost(doc, focus, node, Subschemas(node, ALL_OF).value, active)
    ensures focus.Itself? ==> OwnCost(doc, focus, node, active) == 0
  {}

  /** The members of a prefix cost no more than all of them. */
  lemma {:induction false} PrefixCost(doc: Document, focus: Focus, node: Json, items: seq<Json>, active: set<seq<Text>>, i: nat)
    requires (forall c :: c in items ==> c.Obj? && c < node) && i <= |items|
    ensures forall c :: c in items[..i] ==> c.Obj? && c < node
    ensures MembersCost(doc, focus, node, items[..i], active) <= MembersCost(doc, focus, node, items, active)
    decreases |items|
  {
    hide Cost;
    assert forall c :: c in items[..i] ==> c in items;
    if i < |items| {
      var front := items[..|items| - 1];
      assert front[..i] == items[..i];
      PrefixCost(doc, focus, node, front, active, i);
    } else {
      assert items[..i] == items;
    }
  }

  function OneMore(sofar: Evals, values: Eval): Evals
    requires sofar.Each?
  {
    match values
    case Thrown(cause) => EachThrown(cause)
    case Unknown(doubt) => EachUnknown(doubt)
    case Known(allowed) => Each(sofar.sets + [allowed])
  }

  /**
   * One validation. Every evaluator throws once more than maxSchemaOperations operations have been counted; within
   * the budget it computes its specification, and the budget is not needed for termination.
   */
  class SchemaValidationContext {
    const doc: Document
    const maxSchemaOperations: nat
    const maxSchemaSignatures: nat
    var operations: nat

    constructor (doc: Document, maxSchemaOperations: nat, maxSchemaSignatures: nat)
      ensures this.doc == doc && operations == 0
      ensures this.maxSchemaOperations == maxSchemaOperations && this.maxSchemaSignatures == maxSchemaSignatures
    {
      this.doc := doc;
      this.maxSchemaOperations := maxSchemaOperations;
      this.maxSchemaSignatures := maxSchemaSignatures;
      operations := 0;
    }

    method ConsumeSchemaOperation() returns (ok: bool)
      modifies this
      ensures operations == old(operations) + 1 && ok == (operations <= maxSchemaOperations)
    {
      operations := operations + 1;
      ok := operations <= maxSchemaOperations;
    }

    method FollowReference(node: Json, active: set<seq<Text>>) returns (r: Reference)
      requires node.Obj?
      modifies this
      ensures operations == old(operations) + if REF in node.fields && node.fields[REF].Str? then 1 else 0
      ensures r == if operations <= maxSchemaOperations then ReferencedLocation(doc, node.fields, active) else BadReference(false)
      ensures r.Target? ==> r == ReferencedLocation(doc, node.fields, active)
      ensures old(operations) <= maxSchemaOperations && r.NoReference? ==> operations <= maxSchemaOperations
    {
      if REF !in node.fields {
        return if operations <= maxSchemaOperations then NoReference else BadReference(false);
      }
      if !node.fields[REF].Str? {
        return BadReference(false);
      }
      var ok := ConsumeSchemaOperation();
      if !ok {
        return BadReference(false);
      }
      var location := ResolveReference(doc, node.fields[REF].text);
      if location.None? || location.value.path in active {
        return BadReference(location.Some?);
      }
      return Target(location.value);
    }

    method EvaluateBoundedStringSet(focus: Focus, node: Json, active: set<seq<Text>>) returns (r: Eval)
      requires node.Obj?
      modifies this
      ensures old(operations) <= operations <= old(operations) + Cost(doc, focus, node, active)
      ensures r.Known? ==> operations == old(operations) + Cost(doc, focus, node, active)
      ensures r == if operations <= maxSchemaOperations then EvalNode(doc, maxSchemaSignatures, focus, node, active) else Thrown(OverBudget)
      decreases Paths(doc.root) - active, node, 3
    {
      hide EvalKeywords, EvalAllOf, EvalEach, EvalAlternatives, EvalReference, EvalOwn, Paths, OwnCost, ReferenceCost, MembersCost;
      CostParts(doc, focus, node, active);
      hide Cost, KeywordCost;
      var ok := ConsumeSchemaOperation();
      if !ok {
        return Thrown(OverBudget);
      }
      r := EvaluateOwn(focus, node, active);
      if !r.Known? {
        return;
      }
      r := EvaluateReference(focus, node, active, r.allowed);
      if !r.Known? {
        return;
      }
      var conjuncts := Subschemas(node, ALL_OF);
      if conjuncts.None? {
        return Thrown(BadShape);
      }
      r := EvaluateAllOf(focus, node, conjuncts.value, active, r.allowed);
      if !r.Known? {
        return;
      }
      r := EvaluateAlternatives(focus, node, ONE_OF, active, r.allowed);
      if !r.Known? {
        return;
      }
      r := EvaluateAlternatives(focus, node, ANY_OF, active, r.allowed);
    }

    /** The loop over the conjuncts. */
    method EvaluateAllOf(focus: Focus, node: Json, items: seq<Json>, active: set<seq<Text>>, start: StringSet) returns (r: Eval)
      requires operations <= maxSchemaOperations && forall c :: c in items ==> c.Obj? && c < node
      modifies this
      ensures old(operations) <= operations <= old(operations) + MembersCost(doc, focus, node, items, active)
      ensures r.Known? ==> operations == old(operations) + MembersCost(doc, focus, node, items, active)
      ensures r == if operations <= maxSchemaOperations then EvalAllOf(doc, maxSchemaSignatures, focus, node, items, active, start)
                   else Thrown(OverBudget)
      decreases Paths(doc.root) - active, node, 2
    {
      hide EvalNode, Paths, Cost, IntersectBounded;
      r := Known(start);
      for i := 0 to |items|
        invariant old(operations) <= operations <= maxSchemaOperations
        invariant operations == old(operations) + MembersCost(doc, focus, node, items[..i], active)
        invariant r == EvalAllOf(doc, maxSchemaSignatures, focus, node, items[..i], active, start) && r.Known?
      {
        assert items[i] in items && items[..i + 1][..i] == items[..i];
        PrefixCost(doc, focus, node, items, active, i + 1);
        var values := EvaluateBoundedStringSet(focus, items[i], active);
        r := if values.Known? then IntersectBounded(r.allowed, values.allowed, maxSchemaSignatures) else values;
        if !r.Known? {
          if operations <= maxSchemaOperations {
            AllOfStops(doc, maxSchemaSignatures, focus, node, items, active, start, i + 1);
          }
          return;
        }
      }
      assert items[..|items|] == items;
    }

    method EvaluateOwn(focus: Focus, node: Json, active: set<seq<Text>>) returns (r: Eval)
      requires node.Obj? && operations <= maxSchemaOperations
      modifies this
      ensures old(operations) <= operations <= old(operations) + OwnCost(doc, focus, node, active)
      ensures r.Known? ==> operations == old(operations) + OwnCost(doc, focus, node, active)
      ensures r == if operations <= maxSchemaOperations then EvalOwn(doc, maxSchemaSignatures, focus, node, active) else Thrown(OverBudget)
      decreases Paths(doc.root) - active, node, 2
    {
      hide EvalKeywords, EvalNode, Paths;
      if focus.Itself? {
        return EvalKeywords(node.fields, maxSchemaSignatures);
      }
      var direct := PropertySchema(node, focus.name);
      if direct.None? {
        return Thrown(BadShape);
      }
      if direct.value.None? {
        return Known(AllStrings);
      }
      r := EvaluateBoundedStringSet(Itself, direct.value.value, active);
    }

    method EvaluateReference(focus: Focus, node: Json, active: set<seq<Text>>, start: StringSet) returns (r: Eval)
      requires node.Obj? && operations <= maxSchemaOperations
      modifies this
      ensures old(operations) <= operations <= old(operations) + ReferenceCost(doc, focus, node, active)
      ensures r.Known? ==> operations == old(operations) + ReferenceCost(doc, focus, node, active)
      ensures r == if operations <= maxSchemaOperations then EvalReference(doc, maxSchemaSignatures, focus, node, active, start)
                   else Thrown(OverBudget)
      decreases Paths(doc.root) - active, node, 2
    {
      hide EvalNode, Paths, ResolveLocalReference;
      var reference := FollowReference(node, active);
      match reference {
        case NoReference => return Known(start);
        case BadReference(isActive) =>
          return Thrown(if operations > maxSchemaOperations then OverBudget else if isActive then ActivePath else BadShape);
        case Target(l) =>
          TargetShrinksTheRest(doc, node.fields, active);
          r := EvaluateBoundedStringSet(focus, l.node, active + {l.path});
          if r.Known? {
            r := IntersectBounded(start, r.allowed, maxSchemaSignatures);
          }
      }
    }

    method EvaluateAlternatives(focus: Focus, node: Json, keyword: Text, active: set<seq<Text>>, start: StringSet)
      returns (r: Eval)
      requires node.Obj? && operations <= maxSchemaOperations
      modifies this
      ensures old(operations) <= operations <= old(operations) + KeywordCost(doc, focus, node, keyword, active)
      ensures r.Known? ==> operations == old(operations) + KeywordCost(doc, focus, node, keyword, active)
      ensures r == if operations <= maxSchemaOperations
                   then EvalAlternatives(doc, maxSchemaSignatures, focus, node, keyword, active, start) else Thrown(OverBudget)
      decreases Paths(doc.root) - active, node, 2
    {
      assert keyword !in node.fields ==> KeywordCost(doc, focus, node, keyword, active) == 0;
      hide EvalNode, EvalEach, Paths, UnionBounded, ExactlyOneBounded, Cost, MembersCost;
      if keyword !in node.fields {
        return Known(start);
      }
      var alternatives := Subschemas(node, keyword);
      if alternatives.None? {
        return Thrown(BadShape);
      }
      if |alternatives.value| > maxSchemaSignatures {
        return Thrown(OverLimit);
      }
      var each := EvaluateEach(focus, node, alternatives.value, active);
      if !each.Each? {
        return each.PropagateFailure();
      }
      if keyword == ANY_OF {
        r := UnionBoundedStringSets(each.sets, maxSchemaSignatures);
      } else {
        r := ExactlyOneBoundedStringSet(each.sets, maxSchemaSignatures);
      }
      if r.Known? {
        r := IntersectBounded(start, r.allowed, maxSchemaSignatures);
      }
    }

    /** The loop over the alternatives. */
    method EvaluateEach(focus: Focus, node: Json, items: seq<Json>, active: set<seq<Text>>) returns (r: Evals)
      requires operations <= maxSchemaOperations && forall c :: c in items ==> c.Obj? && c < node
      modifies this
      ensures old(operations) <= operations <= old(operations) + MembersCost(doc, focus, node, items, active)
      ensures r.Each? ==> operations == old(operations) + MembersCost(doc, focus, node, items, active)
      ensures r == if operations <= maxSchemaOperations then EvalEach(doc, maxSchemaSignatures, focus, node, items, active)
                   else EachThrown(OverBudget)
      decreases Paths(doc.root) - active, node, 1
    {
      hide EvalNode, Paths, Cost;
      r := Each([]);
      for i := 0 to |items|
        invariant old(operations) <= operations <= maxSchemaOperations
        invariant operations == old(operations) + MembersCost(doc, focus, node, items[..i], active)
        invariant r == EvalEach(doc, maxSchemaSignatures, focus, node, items[..i], active) && r.Each?
      {
        assert items[i] in items && items[..i + 1][..i] == items[..i];
        PrefixCost(doc, focus, node, items, active, i + 1);
        var values := EvaluateBoundedStringSet(focus, items[i], active);
        r := OneMore(r, values);
        if !r.Each? {
          if operations <= maxSchemaOperations {
            EachStops(doc, maxSchemaSignatures, focus, node, items, active, i + 1);
          }
          return;
        }
      }
      assert items[..|items|] == items;
    }

    method ObjectSignatures(node: Json, active: set<seq<Text>>) returns (r: S.Signatures)
      requires node.Obj?
      modifies this
      ensures old(operations) <= operations <= old(operations) + Cost(doc, Itself, node, active)
      ensures r.Signatures? ==> operations == old(operations) + Cost(doc, Itself, node, active)
      ensures r == if operations <= maxSchemaOperations then S.ObjectSignatures(doc, maxSchemaSignatures, node, active)
                   else S.Malformed
      decreases Paths(doc.root) - active, node, 3
    {
      hide S.OwnSignatures, S.EachSignatures, S.AlternativeSignatures, S.AllOfSignatures, S.MergeSignatureLists, Paths, KeywordCost;
      CostParts(doc, Itself, node, active);
      hide Cost, MembersCost;
      var ok := ConsumeSchemaOperation();
      if !ok {
        return S.Malformed;
      }
      r := S.OwnSignatures(node.fields);
      if r.Malformed? {
        return;
      }
      var reference := FollowReference(node, active);
      if reference.BadReference? {
        return S.Malformed;
      }
      if reference.Target? {
        var l := reference.location;
        TargetShrinksTheRest(doc, node.fields, active);
        var target := ObjectSignatures(l.node, active + {l.path});
        r := if target.Malformed? then S.Malformed else S.MergeSignatureLists(r.list, target.list, maxSchemaSignatures);
        if r.Malformed? {
          return;
        }
      }
      var conjuncts := Subschemas(node, ALL_OF);
      if conjuncts.None? {
        return S.Malformed;
      }
      r := ConjunctSignatures(node, conjuncts.value, active, r.list);
      if r.Malformed? {
        return;
      }
      r := AlternativeSignatures(node, ONE_OF, active, r.list);
      if r.Malformed? {
        return;
      }
      r := AlternativeSignatures(node, ANY_OF, active, r.list);
    }

    /** The loop over the conjuncts. */
    method ConjunctSignatures(node: Json, items: seq<Json>, active: set<seq<Text>>, start: seq<S.Signature>)
      returns (r: S.Signatures)
      requires operations <= maxSchemaOperations && forall c :: c in items ==> c.Obj? && c < node
      modifies this
      ensures old(operations) <= operations <= old(operations) + MembersCost(doc, Itself, node, items, active)
      ensures r.Signatures? ==> operations == old(operations) + MembersCost(doc, Itself, node, items, active)
      ensures r == if operations <= maxSchemaOperations
                   then S.AllOfSignatures(doc, maxSchemaSignatures, node, items, active, start) else S.Malformed
      decreases Paths(doc.root) - active, node, 2
    {
      hide S.ObjectSignatures, S.MergeSignatureLists, Paths, Cost;
      r := S.Signatures(start);
      for i := 0 to |items|
        invariant old(operations) <= operations <= maxSchemaOperations
        invariant operations == old(operations) + MembersCost(doc, Itself, node, items[..i], active)
        invariant r.Signatures? && r == S.AllOfSignatures(doc, maxSchemaSignatures, node, items[..i], active, start)
      {
        assert items[i] in items && items[..i + 1][..i] == items[..i];
        PrefixCost(doc, Itself, node, items, active, i + 1);
        var conjunct := ObjectSignatures(items[i], active);
        r := if conjunct.Malformed? then S.Malformed else S.MergeSignatureLists(r.list, conjunct.list, maxSchemaSignatures);
        if r.Malformed? {
          if operations <= maxSchemaOperations {
            S.AllOfStops(doc, maxSchemaSignatures, node, items, active, start, i + 1);
          }
          return;
        }
      }
      assert items[..|items|] == items;
    }

    method AlternativeSignatures(node: Json, keyword: Text, active: set<seq<Text>>, start: seq<S.Signature>)
      returns (r: S.Signatures)
      requires node.Obj? && operations <= maxSchemaOperations
      modifies this
      ensures old(operations) <= operations <= old(operations) + KeywordCost(doc, Itself, node, keyword, active)
      ensures r.Signatures? ==> operations == old(operations) + KeywordCost(doc, Itself, node, keyword, active)
      ensures r == if operations <= maxSchemaOperations
                   then S.AlternativeSignatures(doc, maxSchemaSignatures, node, keyword, active, start) else S.Malformed
      decreases Paths(doc.root) - active, node, 2
    {
      hide S.ObjectSignatures, S.MergeSignatureLists, Paths;
      if keyword !in node.fields {
        return S.Signatures(start);
      }
      var alternatives := Subschemas(node, keyword);
      if alternatives.None? {
        return S.Malformed;
      }
      var items := alternatives.value;
      if items == [] {
        return S.Signatures([]);
      }
      if |items| > maxSchemaSignatures {
        return S.Malformed;
      }
      var list: seq<S.Signature> := [];
      for i := 0 to |items|
        invariant old(operations) <= operations <= maxSchemaOperations
        invariant operations == old(operations) + MembersCost(doc, Itself, node, items[..i], active)
        invariant S.EachSignatures(doc, maxSchemaSignatures, node, items[..i], active) == S.Signatures(list)
      {
        assert items[i] in items && items[..i + 1][..i] == items[..i];
        PrefixCost(doc, Itself, node, items, active, i + 1);
        r := ObjectSignatures(items[i], active);
        if r.Malformed? {
          if operations <= maxSchemaOperations {
            S.EachStops(doc, maxSchemaSignatures, node, items, active, i + 1);
          }
          return;
        }
        list := list + r.list;
      }
      assert items[..|items|] == items;
      r := S.MergeSignatureLists(start, list, maxSchemaSignatures);
    }

    method SchemaHasObjectContract(node: Json, required: set<Text>, properties: set<Text>) returns (r: Option<bool>)
      requires node.Obj?
      modifies this
      ensures old(operations) <= operations <= old(operations) + Cost(doc, Itself, node, {})
      ensures r.Some? ==> operations == old(operations) + Cost(doc, Itself, node, {})
      ensures r == if operations <= maxSchemaOperations
                   then S.SchemaHasObjectContract(doc, maxSchemaSignatures, node, required, properties) else None
    {
      var signatures := ObjectSignatures(node, {});
      if signatures.Malformed? {
        return None;
      }
      var list := signatures.list;
      return Some(list != [] && forall s :: s in list ==> required <= s.required && properties <= s.properties);
    }
  }
}
