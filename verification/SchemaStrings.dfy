/** packages/codex-adapter/src/c-lite-compatibility.ts: the set of strings a schema node, or one of its properties, allows. */
module SchemaStrings {
  import opened Options
  import opened CodeUnits
  import opened JsonValue
  import opened JsonPointer
  import opened StringSets
  import opened SchemaNodes

  /** evaluateBoundedStringSet looks at the node itself, evaluateObjectPropertyBoundedStringSet at one property. */
  datatype Focus = Itself | Property(name: Text)

  /** The results for the alternatives of one keyword, in order. */
  datatype Evals = EachThrown(cause: Cause) | EachUnknown(doubt: Doubt) | Each(sets: seq<StringSet>) {
    predicate IsFailure() { !Each? }
    function PropagateFailure(): Eval requires IsFailure() { if EachThrown? then Thrown(cause) else Unknown(doubt) }
    function Extract(): seq<StringSet> requires !IsFailure() { sets }
  }

  function EnumTexts(items: seq<Json>): set<Text> { set v | v in items && v.Str? :: v.text }

  /** The type, const and enum keywords. */
  function EvalKeywords(f: Fields, max: nat): Eval {
    if HasUnsupportedStringConstraint(f) then Unknown(RefusedKeyword)
    else
      var typed := SchemaTypeAllows(f, STRING);
      if typed.None? then Thrown(BadShape)
      else
        var base :- if typed.value then Known(AllStrings) else FiniteBounded({}, max);
        var constant :-
          if CONST in f then
            var only :- FiniteBounded(if f[CONST].Str? then {f[CONST].text} else {}, max);
            IntersectBounded(base, only, max)
          else Known(base);
        if ENUM !in f then Known(constant)
        else if !f[ENUM].Arr? then Thrown(BadShape)
        else
          var listed :- FiniteBounded(EnumTexts(f[ENUM].items), max);
          IntersectBounded(constant, listed, max)
  }

  // ---------------------------------------------------------------- the recursion

  function EvalNode(doc: Document, max: nat, focus: Focus, node: Json, active: set<seq<Text>>): Eval
    requires node.Obj?
    decreases Paths(doc.root) - active, node, 3
  {
    var own :- EvalOwn(doc, max, focus, node, active);
    var referenced :- EvalReference(doc, max, focus, node, active, own);
    var conjuncts := Subschemas(node, ALL_OF);
    if conjuncts.None? then Thrown(BadShape)
    else
      var all :- EvalAllOf(doc, max, focus, node, conjuncts.value, active, referenced);
      var one :- EvalAlternatives(doc, max, focus, node, ONE_OF, active, all);
      EvalAlternatives(doc, max, focus, node, ANY_OF, active, one)
  }

  /** What the node says without its combinators. */
  function EvalOwn(doc: Document, max: nat, focus: Focus, node: Json, active: set<seq<Text>>): Eval
    requires node.Obj?
    decreases Paths(doc.root) - active, node, 2
  {
    if focus.Itself? then EvalKeywords(node.fields, max)
    else
      var direct := PropertySchema(node, focus.name);
      if direct.None? then Thrown(BadShape)
      else if direct.value.None? then Known(AllStrings)
      else EvalNode(doc, max, Itself, direct.value.value, active)
  }

  function EvalReference(doc: Document, max: nat, focus: Focus, node: Json, active: set<seq<Text>>, start: StringSet): Eval
    requires node.Obj?
    decreases Paths(doc.root) - active, node, 2
  {
    match ReferencedLocation(doc, node.fields, active)
    case NoReference => Known(start)
    case BadReference(isActive) => Thrown(if isActive then ActivePath else BadShape)
    case Target(l) =>
      TargetShrinksTheRest(doc, node.fields, active);
      var values :- EvalNode(doc, max, focus, l.node, active + {l.path});
      IntersectBounded(start, values, max)
  }

  /** The conjuncts of a prefix, intersected one by one. */
  function EvalAllOf(doc: Document, max: nat, focus: Focus, node: Json, items: seq<Json>, active: set<seq<Text>>,
                     start: StringSet): Eval
    requires forall c :: c in items ==> c.Obj? && c < node
    decreases Paths(doc.root) - active, node, 1, |items|
  {
    if items == [] then Known(start)
    else
      var last := items[|items| - 1];
      assert last in items;
      var sofar :- EvalAllOf(doc, max, focus, node, items[..|items| - 1], active, start);
      var values :- EvalNode(doc, max, focus, last, active);
      IntersectBounded(sofar, values, max)
  }

  /** The alternatives of a prefix, one set each. */
  function EvalEach(doc: Document, max: nat, focus: Focus, node: Json, items: seq<Json>, active: set<seq<Text>>): (r: Evals)
    requires forall c :: c in items ==> c.Obj? && c < node
    ensures r.Each? ==> |r.sets| == |items|
    decreases Paths(doc.root) - active, node, 1, |items|
  {
    if items == [] then Each([])
    else
      var last := items[|items| - 1];
      assert last in items;
      match EvalEach(doc, max, focus, node, items[..|items| - 1], active)
      case Each(sofar) =>
        (match EvalNode(doc, max, focus, last, active)
         case Thrown(cause) => EachThrown(cause)
         case Unknown(doubt) => EachUnknown(doubt)
         case Known(values) => Each(sofar + [values]))
      case failed => failed
  }

  function Combine(keyword: Text, sets: seq<StringSet>, max: nat): Eval {
    if keyword == ANY_OF then UnionBounded(sets, max) else ExactlyOneBounded(sets, max)
  }

  function EvalAlternatives(doc: Document, max: nat, focus: Focus, node: Json, keyword: Text, active: set<seq<Text>>,
                            start: StringSet): Eval
    requires node.Obj?
    decreases Paths(doc.root) - active, node, 2
  {
    if keyword !in node.fields then Known(start)
    else
      var alternatives := Subschemas(node, keyword);
      if alternatives.None? then Thrown(BadShape)
      else if |alternatives.value| > max then Thrown(OverLimit)
      else
        var sets :- EvalEach(doc, max, focus, node, alternatives.value, active);
        var combined :- Combine(keyword, sets, max);
        IntersectBounded(start, combined, max)
  }

  // ---------------------------------------------------------------- failures of a prefix are failures of the whole

  lemma {:induction false} AllOfStops(doc: Document, max: nat, focus: Focus, node: Json, items: seq<Json>,
                                      active: set<seq<Text>>, start: StringSet, i: nat)
    requires forall c :: c in items ==> c.Obj? && c < node
    requires i <= |items| && !EvalAllOf(doc, max, focus, node, items[..i], active, start).Known?
    ensures EvalAllOf(doc, max, focus, node, items, active, start) ==
            EvalAllOf(doc, max, focus, node, items[..i], active, start)
    decreases |items|
  {
    if i < |items| {
      var front := items[..|items| - 1];
      assert front[..i] == items[..i];
      AllOfStops(doc, max, focus, node, front, active, start, i);
    } else {
      assert items[..i] == items;
    }
  }

  lemma {:induction false} EachStops(doc: Document, max: nat, focus: Focus, node: Json, items: seq<Json>,
                                     active: set<seq<Text>>, i: nat)
    requires forall c :: c in items ==> c.Obj? && c < node
    requires i <= |items| && !EvalEach(doc, max, focus, node, items[..i], active).Each?
    ensures EvalEach(doc, max, focus, node, items, active) == EvalEach(doc, max, focus, node, items[..i], active)
    decreases |items|
  {
    if i < |items| {
      var front := items[..|items| - 1];
      assert front[..i] == items[..i];
      EachStops(doc, max, focus, node, front, active, i);
    } else {
      assert items[..i] == items;
    }
  }
}
