/** packages/codex-adapter/src/c-lite-compatibility.ts: bounded sets of strings and their operations. */
module StringSets {
  import opened CodeUnits

  datatype StringSet = AllStrings | Finite(values: set<Text>)

  predicate Has(s: StringSet, t: Text) { s.AllStrings? || t in s.values }

  /** Why an evaluator throws; the original throws one code for all of these. */
  datatype Cause = BadShape | ActivePath | OverLimit | OverBudget

  /** Why it returns null: a keyword it does not follow, or branches that no bounded set combines. */
  datatype Doubt = RefusedKeyword | NotBounded

  /** A result of the evaluator: an exception, null, or a set. */
  datatype Eval = Thrown(cause: Cause) | Unknown(doubt: Doubt) | Known(allowed: StringSet) {
    predicate IsFailure() { !Known? }
    function PropagateFailure(): Eval requires IsFailure() { this }
    function Extract(): StringSet requires !IsFailure() { allowed }
  }

  /** finiteBoundedStrings: a finite set over the size limit throws. */
  function FiniteBounded(values: set<Text>, max: nat): Eval {
    if |values| > max then Thrown(OverLimit) else Known(Finite(values))
  }

  function IntersectBounded(left: StringSet, right: StringSet, max: nat): Eval {
    if left.AllStrings? then Known(right)
    else if right.AllStrings? then Known(left)
    else FiniteBounded(left.values * right.values, max)
  }

  /** unionBoundedStringSets over a prefix: the sets are added in order, and an unbounded one ends the loop. */
  function UnionBounded(sets: seq<StringSet>, max: nat): Eval {
    if sets == [] then FiniteBounded({}, max)
    else
      var union :- UnionBounded(sets[..|sets| - 1], max);
      var last := sets[|sets| - 1];
      if union.AllStrings? || last.AllStrings? then Known(AllStrings)
      else FiniteBounded(union.values + last.values, max)
  }

  function Unbounded(sets: seq<StringSet>): nat {
    if sets == [] then 0 else Unbounded(sets[..|sets| - 1]) + if sets[|sets| - 1].AllStrings? then 1 else 0
  }

  /** The values of all the finite sets. */
  function Boundary(sets: seq<StringSet>): set<Text> {
    if sets == [] then {}
    else Boundary(sets[..|sets| - 1]) + if sets[|sets| - 1].Finite? then sets[|sets| - 1].values else {}
  }

  /** How many of the sets hold t. */
  function Holding(sets: seq<StringSet>, t: Text): nat {
    if sets == [] then 0 else Holding(sets[..|sets| - 1], t) + if Has(sets[|sets| - 1], t) then 1 else 0
  }

  function HeldOnce(sets: seq<StringSet>): set<Text> { set t | t in Boundary(sets) && Holding(sets, t) == 1 }

  /** exactlyOneBoundedStringSet. */
  function ExactlyOneBounded(sets: seq<StringSet>, max: nat): Eval {
    if Unbounded(sets) > 1 then FiniteBounded({}, max)
    else if Unbounded(sets) == 1 then if Boundary(sets) == {} then Known(AllStrings) else Unknown(NotBounded)
    else if |Boundary(sets)| > max then Thrown(OverLimit)
    else FiniteBounded(HeldOnce(sets), max)
  }

  // ---------------------------------------------------------------- what the operations mean

  /** The union, when it is returned, holds exactly the strings that some operand holds. */
  lemma {:induction false} UnionMeans(sets: seq<StringSet>, max: nat, t: Text)
    requires UnionBounded(sets, max).Known?
    ensures Has(UnionBounded(sets, max).allowed, t) <==> Holding(sets, t) > 0
  {
    if sets != [] {
      UnionMeans(sets[..|sets| - 1], max, t);
    }
  }

  lemma {:induction false} HoldingBounds(sets: seq<StringSet>, t: Text)
    ensures Unbounded(sets) <= Holding(sets, t)
    ensures Holding(sets, t) == Unbounded(sets) <==> t !in Boundary(sets)
  {
    if sets != [] {
      HoldingBounds(sets[..|sets| - 1], t);
    }
  }

  /** The exactly-one combination, when it is returned, holds exactly the strings that one operand holds. */
  lemma ExactlyOneMeans(sets: seq<StringSet>, max: nat, t: Text)
    requires ExactlyOneBounded(sets, max).Known?
    ensures Has(ExactlyOneBounded(sets, max).allowed, t) <==> Holding(sets, t) == 1
  {
    HoldingBounds(sets, t);
  }

  ghost function Longest(values: set<Text>): (t: Text)
    ensures forall v :: v in values ==> |v| <= |t|
  {
    if values == {} then []
    else
      LongestExists(values);
      var t :| t in values && forall v :: v in values ==> |v| <= |t|;
      t
  }

  lemma {:induction false} LongestExists(values: set<Text>)
    requires values != {}
    ensures exists t :: t in values && forall v :: v in values ==> |v| <= |t|
  {
    var x :| x in values;
    var rest := values - {x};
    if rest == {} {
      assert values == {x};
    } else {
      LongestExists(rest);
      var y :| y in rest && forall v :: v in rest ==> |v| <= |y|;
      var t := if |x| <= |y| then y else x;
      assert t in values && forall v :: v in values ==> v == x || v in rest;
    }
  }

  /** s holds exactly the strings that one operand holds. */
  ghost predicate IsExactlyOne(s: StringSet, sets: seq<StringSet>) { forall t :: Has(s, t) <==> Holding(sets, t) == 1 }

  /**
   * The exactly-one combination gives up only when it must: it returns null exactly when no bounded set holds
   * the strings that one operand holds.
   */
  lemma ExactlyOneGivesUpWhenItMust(sets: seq<StringSet>, max: nat)
    ensures ExactlyOneBounded(sets, max) == Unknown(NotBounded) <==>
      !exists s :: IsExactlyOne(s, sets)
  {
    forall t ensures Unbounded(sets) <= Holding(sets, t) && (Holding(sets, t) == Unbounded(sets) <==> t !in Boundary(sets)) {
      HoldingBounds(sets, t);
    }
    if ExactlyOneBounded(sets, max) == Unknown(NotBounded) {
      var b :| b in Boundary(sets);
      assert Holding(sets, b) != 1;
      forall s ensures !IsExactlyOne(s, sets) {
        if s.AllStrings? {
          assert Has(s, b);
        } else {
          var longer := Longest(s.values + Boundary(sets)) + [0];
          assert !Has(s, longer) && Holding(sets, longer) == 1;
        }
      }
    } else {
      var s := if Unbounded(sets) == 1 then AllStrings
        else Finite(HeldOnce(sets));
      assert IsExactlyOne(s, sets);
    }
  }

  // ---------------------------------------------------------------- the loops

  method UnionBoundedStringSets(sets: seq<StringSet>, max: nat) returns (r: Eval)
    ensures r == UnionBounded(sets, max)
  {
    r := FiniteBounded({}, max);
    for i := 0 to |sets|
      invariant r == UnionBounded(sets[..i], max)
      invariant r.Known? && r.allowed.Finite?
    {
      assert sets[..i + 1][..i] == sets[..i];
      if sets[i].AllStrings? {
        UnionAbsorbs(sets, i, max);
        return Known(AllStrings);
      }
      r := FiniteBounded(r.allowed.values + sets[i].values, max);
      if r.Thrown? {
        UnionThrows(sets, i + 1, max);
        return;
      }
    }
    assert sets[..|sets|] == sets;
    return;
  }

  lemma {:induction false} UnionAbsorbs(sets: seq<StringSet>, i: nat, max: nat)
    requires i < |sets| && sets[i].AllStrings? && UnionBounded(sets[..i], max).Known?
    ensures UnionBounded(sets, max) == Known(AllStrings)
    decreases |sets|
  {
    var front := sets[..|sets| - 1];
    if i < |front| {
      assert front[..i] == sets[..i];
      UnionAbsorbs(front, i, max);
    }
  }

  lemma {:induction false} UnionThrows(sets: seq<StringSet>, i: nat, max: nat)
    requires i <= |sets| && UnionBounded(sets[..i], max).Thrown?
    ensures UnionBounded(sets, max) == UnionBounded(sets[..i], max)
    decreases |sets|
  {
    if i < |sets| {
      var front := sets[..|sets| - 1];
      assert front[..i] == sets[..i];
      UnionThrows(front, i, max);
    } else {
      assert sets[..i] == sets;
    }
  }

  method CountHolding(sets: seq<StringSet>, t: Text) returns (count: nat)
    ensures count == Holding(sets, t)
  {
    count := 0;
    for i := 0 to |sets|
      invariant count == Holding(sets[..i], t)
    {
      assert sets[..i + 1][..i] == sets[..i];
      if Has(sets[i], t) {
        count := count + 1;
      }
    }
    assert sets[..|sets|] == sets;
  }

  method ExactlyOneBoundedStringSet(sets: seq<StringSet>, max: nat) returns (r: Eval)
    ensures r == ExactlyOneBounded(sets, max)
  {
    var unboundedCount := 0;
    var boundary := {};
    for i := 0 to |sets|
      invariant unboundedCount == Unbounded(sets[..i])
      invariant boundary == Boundary(sets[..i])
    {
      assert sets[..i + 1][..i] == sets[..i];
      if sets[i].AllStrings? {
        unboundedCount := unboundedCount + 1;
      } else {
        boundary := boundary + sets[i].values;
      }
    }
    assert sets[..|sets|] == sets;
    if unboundedCount > 1 {
      return FiniteBounded({}, max);
    }
    if unboundedCount == 1 {
      return if boundary == {} then Known(AllStrings) else Unknown(NotBounded);
    }
    if |boundary| > max {
      return Thrown(OverLimit);
    }
    var allowed := {};
    var todo := boundary;
    while todo != {}
      invariant todo <= boundary
      invariant allowed == set t | t in boundary - todo && Holding(sets, t) == 1
      decreases |todo|
    {
      var value :| value in todo;
      var count := CountHolding(sets, value);
      if count == 1 {
        allowed := allowed + {value};
      }
      todo := todo - {value};
    }
    assert boundary - todo == boundary;
    assert allowed == HeldOnce(sets);
    return FiniteBounded(allowed, max);
  }
}
