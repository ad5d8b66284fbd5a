/** packages/codex-adapter/src/c-lite-compatibility.ts: exactly when a list of object signatures is computed, and how long it is. */
module SignatureCounts {
  import opened Options
  import opened CodeUnits
  import opened JsonValue
  import opened JsonPointer
  import opened SchemaNodes
  import opened SchemaSignatures

  function Prod(factors: seq<nat>): nat { if factors == [] then 1 else Prod(factors[..|factors| - 1]) * factors[|factors| - 1] }

  function Sum(terms: seq<nat>): nat { if terms == [] then 0 else Sum(terms[..|terms| - 1]) + terms[|terms| - 1] }

  // ---------------------------------------------------------------- a walk over the schemas

  /** Whether every schema met on the way is well formed and no reference leads back to an active path. */
  predicate KeysSound(doc: Document, node: Json, active: set<seq<Text>>)
    requires node.Obj?
    decreases Paths(doc.root) - active, node, 1
  {
    && PropertyNames(node.fields).Some? && RequiredNames(node.fields).Some?
    && (TYPE in node.fields ==> TypeNamesOk(node.fields[TYPE]))
    && !ReferencedLocation(doc, node.fields, active).BadReference?
    && (ReferencedLocation(doc, node.fields, active).Target? ==>
          var l := ReferencedLocation(doc, node.fields, active).location;
          TargetShrinksTheRest(doc, node.fields, active);
          KeysSound(doc, l.node, active + {l.path}))
    && (forall k :: k in [ALL_OF, ONE_OF, ANY_OF] ==> Subschemas(node, k).Some?)
    && (forall k, c :: k in [ALL_OF, ONE_OF, ANY_OF] && c in Subschemas(node, k).value ==> KeysSound(doc, c, active))
  }

  // ---------------------------------------------------------------- numbers of alternatives

  /** The ways to pick a branch of each oneOf and anyOf; none where the type keyword shuts objects out. */
  function Alternatives(doc: Document, node: Json, active: set<seq<Text>>): nat
    requires node.Obj?
    decreases Paths(doc.root) - active, node, 4
  {
    OwnCount(node.fields) * Prod(Factors(doc, node, active))
  }

  function OwnCount(f: Fields): nat { if TypeAdmits(f, OBJECT) then 1 else 0 }

  /** The number for the reference, the numbers for the conjuncts, and the sums over the branches, as far as there are any. */
  function Factors(doc: Document, node: Json, active: set<seq<Text>>): seq<nat>
    requires node.Obj?
    decreases Paths(doc.root) - active, node, 3
  {
    ReferenceFactors(doc, node, active)
    + (if Subschemas(node, ALL_OF).Some? then Counts(doc, node, Subschemas(node, ALL_OF).value, active) else [])
    + BranchFactors(doc, node, ONE_OF, active) + BranchFactors(doc, node, ANY_OF, active)
  }

  function ReferenceFactors(doc: Document, node: Json, active: set<seq<Text>>): seq<nat>
    requires node.Obj?
    decreases Paths(doc.root) - active, node, 2
  {
    match ReferencedLocation(doc, node.fields, active)
    case Target(l) =>
      TargetShrinksTheRest(doc, node.fields, active);
      [Alternatives(doc, l.node, active + {l.path})]
    case _ => []
  }

  function BranchFactors(doc: Document, node: Json, keyword: Text, active: set<seq<Text>>): seq<nat>
    requires node.Obj?
    decreases Paths(doc.root) - active, node, 2
  {
    if keyword !in node.fields || Subschemas(node, keyword).None? then []
    else [Sum(Counts(doc, node, Subschemas(node, keyword).value, active))]
  }

  function Counts(doc: Document, node: Json, items: seq<Json>, active: set<seq<Text>>): (r: seq<nat>)
    requires forall c :: c in items ==> c.Obj? && c < node
    ensures |r| == |items|
    decreases Paths(doc.root) - active, node, 1, |items|
  {
    if items == [] then []
    else
      var last := items[|items| - 1];
      assert last in items;
      Counts(doc, node, items[..|items| - 1], active) + [Alternatives(doc, last, active)]
  }

  /** Every product on the way from `start` through the factors is within the limit. */
  ghost predicate ProductsWithin(start: nat, factors: seq<nat>, max: nat) {
    forall i :: 0 < i <= |factors| ==> start * Prod(factors[..i]) <= max
  }

  /** At every schema met on the way the branches and the products of the numbers are within the limit. */
  ghost predicate WithinMax(doc: Document, max: nat, node: Json, active: set<seq<Text>>)
    requires node.Obj?
    decreases Paths(doc.root) - active, node, 1
  {
    && ProductsWithin(OwnCount(node.fields), Factors(doc, node, active), max)
    && (forall k :: k in [ONE_OF, ANY_OF] && Subschemas(node, k).Some? ==> |Subschemas(node, k).value| <= max)
    && (ReferencedLocation(doc, node.fields, active).Target? ==>
          var l := ReferencedLocation(doc, node.fields, active).location;
          TargetShrinksTheRest(doc, node.fields, active);
          WithinMax(doc, max, l.node, active + {l.path}))
    && (forall k, c :: k in [ALL_OF, ONE_OF, ANY_OF] && Subschemas(node, k).Some? && c in Subschemas(node, k).value ==>
          WithinMax(doc, max, c, active))
  }

  /** The schema and everything it leads to computes. */
  ghost predicate Computes(doc: Document, max: nat, node: Json, active: set<seq<Text>>)
    requires node.Obj?
  {
    KeysSound(doc, node, active) && WithinMax(doc, max, node, active)
  }

  // ---------------------------------------------------------------- products

  lemma {:induction false} ProdConcat(a: seq<nat>, b: seq<nat>)
    ensures Prod(a + b) == Prod(a) * Prod(b)
  {
    if b == [] {
      assert a + b == a;
    } else {
      var front, last := b[..|b| - 1], b[|b| - 1];
      assert (a + b)[..|a + b| - 1] == a + front && (a + b)[|a + b| - 1] == last;
      ProdConcat(a, front);
      Associative(Prod(a), Prod(front), last);
    }
  }

  lemma Associative(a: nat, b: nat, c: nat)
    ensures a * b * c == a * (b * c)
  {}

  lemma ProductsConcat(start: nat, a: seq<nat>, b: seq<nat>, max: nat)
    ensures ProductsWithin(start, a + b, max) <==> ProductsWithin(start, a, max) && ProductsWithin(start * Prod(a), b, max)
  {
    hide Prod;
    var all := a + b;
    forall i | 0 < i <= |a| ensures all[..i] == a[..i] {}
    forall i | 0 < i <= |b| ensures start * Prod(all[..|a| + i]) == start * Prod(a) * Prod(b[..i]) {
      assert all[..|a| + i] == a + b[..i];
      ProdConcat(a, b[..i]);
      Associative(start, Prod(a), Prod(b[..i]));
    }
    if ProductsWithin(start, all, max) {
      forall i | 0 < i <= |a| ensures start * Prod(a[..i]) <= max { assert all[..i] == a[..i]; }
      forall i | 0 < i <= |b| ensures start * Prod(a) * Prod(b[..i]) <= max { assert start * Prod(all[..|a| + i]) <= max; }
    }
    if ProductsWithin(start, a, max) && ProductsWithin(start * Prod(a), b, max) {
      forall i | 0 < i <= |all| ensures start * Prod(all[..i]) <= max {
        if i > |a| {
          assert start * Prod(a) * Prod(b[..i - |a|]) <= max;
          assert |a| + (i - |a|) == i;
        }
      }
    }
  }

  lemma OneFactor(start: nat, c: nat, max: nat)
    ensures ProductsWithin(start, [c], max) <==> start * c <= max
    ensures Prod([c]) == c
  {
    assert [c][..1] == [c] && [c][..0] == [];
    assert Prod([c]) == Prod([]) * c;
  }

  lemma NoFactors(start: nat, max: nat)
    ensures ProductsWithin(start, [], max) && Prod([]) == 1
  {}

  lemma {:induction false} ProductLength(left: seq<Signature>, right: seq<Signature>)
    ensures |Product(left, right)| == |left| * |right|
  {
    if left != [] {
      ProductLength(left[1..], right);
      Distribute(|left| - 1, |right|);
    }
  }

  lemma Distribute(a: nat, b: nat)
    ensures b + a * b == (a + 1) * b
  {}

  lemma MergeCounted(left: seq<Signature>, right: seq<Signature>, max: nat)
    ensures MergeSignatureLists(left, right, max).Signatures? <==> |left| * |right| <= max
    ensures MergeSignatureLists(left, right, max).Signatures? ==> |MergeSignatureLists(left, right, max).list| == |left| * |right|
  {
    ProductLength(left, right);
  }

  // ---------------------------------------------------------------- the lists are counted

  ghost predicate Counted(s: Signatures, defined: bool, count: nat) { (s.Signatures? <==> defined) && (defined ==> |s.list| == count) }

  lemma OwnCounted(f: Fields)
    ensures Counted(OwnSignatures(f), PropertyNames(f).Some? && RequiredNames(f).Some? && (TYPE in f ==> TypeNamesOk(f[TYPE])), OwnCount(f))
  {
    hide SchemaTypeAllows, TypeAdmits, TypeNamesOk;
    SchemaTypeAllowsDefined(f, OBJECT);
    if SchemaTypeAllows(f, OBJECT).Some? { SchemaTypeAllowsMeans(f, OBJECT); }
  }

  ghost predicate ReferenceComputes(doc: Document, max: nat, node: Json, active: set<seq<Text>>)
    requires node.Obj?
  {
    match ReferencedLocation(doc, node.fields, active)
    case NoReference => true
    case BadReference(_) => false
    case Target(l) =>
      TargetShrinksTheRest(doc, node.fields, active);
      Computes(doc, max, l.node, active + {l.path})
  }

  ghost predicate MembersCompute(doc: Document, max: nat, items: seq<Json>, active: set<seq<Text>>)
    requires forall c :: c in items ==> c.Obj?
  {
    forall c :: c in items ==> Computes(doc, max, c, active)
  }

  ghost predicate BranchesCompute(doc: Document, max: nat, node: Json, keyword: Text, active: set<seq<Text>>)
    requires node.Obj? && Subschemas(node, keyword).Some?
  {
    |Subschemas(node, keyword).value| <= max && MembersCompute(doc, max, Subschemas(node, keyword).value, active)
  }

  lemma {:induction false} NodeCounted(doc: Document, max: nat, node: Json, active: set<seq<Text>>)
    requires node.Obj?
    ensures Counted(ObjectSignatures(doc, max, node, active), Computes(doc, max, node, active), Alternatives(doc, node, active))
    decreases Paths(doc.root) - active, node, 3
  {
    hide OwnSignatures, OwnCount, KeysSound, WithinMax, ObjectSignatures, Alternatives;
    OwnCounted(node.fields);
    var own := OwnSignatures(node.fields);
    if forall k :: k in [ALL_OF, ONE_OF, ANY_OF] ==> Subschemas(node, k).Some? {
      ComputesByParts(doc, max, node, active);
      if own.Signatures? {
        PartsCounted(doc, max, node, active, own.list);
      } else {
        NothingOwn(doc, max, node, active);
      }
    } else {
      MalformedParts(doc, max, node, active);
    }
  }

  lemma NothingOwn(doc: Document, max: nat, node: Json, active: set<seq<Text>>)
    requires node.Obj? && OwnSignatures(node.fields).Malformed?
    ensures ObjectSignatures(doc, max, node, active).Malformed?
  {
    hide OwnSignatures;
  }

  lemma MalformedParts(doc: Document, max: nat, node: Json, active: set<seq<Text>>)
    requires node.Obj? && exists k :: k in [ALL_OF, ONE_OF, ANY_OF] && Subschemas(node, k).None?
    ensures ObjectSignatures(doc, max, node, active).Malformed? && !Computes(doc, max, node, active)
  {
    hide OwnSignatures, ReferenceSignatures, AllOfSignatures, EachSignatures, MergeSignatureLists, WithinMax;
    hide PropertyNames, RequiredNames, TypeNamesOk, ResolveLocalReference;
    var k :| k in [ALL_OF, ONE_OF, ANY_OF] && Subschemas(node, k).None?;
  }

  /** What computing means at one node, part by part. */
  lemma ComputesByParts(doc: Document, max: nat, node: Json, active: set<seq<Text>>)
    requires node.Obj? && forall k :: k in [ALL_OF, ONE_OF, ANY_OF] ==> Subschemas(node, k).Some?
    ensures Computes(doc, max, node, active) <==>
      && PropertyNames(node.fields).Some? && RequiredNames(node.fields).Some? && (TYPE in node.fields ==> TypeNamesOk(node.fields[TYPE]))
      && ProductsWithin(OwnCount(node.fields), Factors(doc, node, active), max)
      && ReferenceComputes(doc, max, node, active)
      && MembersCompute(doc, max, Subschemas(node, ALL_OF).value, active)
      && BranchesCompute(doc, max, node, ONE_OF, active) && BranchesCompute(doc, max, node, ANY_OF, active)
  {
    hide PropertyNames, RequiredNames, TypeNamesOk, ResolveLocalReference, Subschemas, ProductsWithin, Factors, OwnCount;
    assert ALL_OF in [ALL_OF, ONE_OF, ANY_OF] && ONE_OF in [ALL_OF, ONE_OF, ANY_OF] && ANY_OF in [ALL_OF, ONE_OF, ANY_OF];
    assert ONE_OF in [ONE_OF, ANY_OF] && ANY_OF in [ONE_OF, ANY_OF];
  }

  lemma {:induction false} PartsCounted(doc: Document, max: nat, node: Json, active: set<seq<Text>>, own: seq<Signature>)
    requires node.Obj? && (forall k :: k in [ALL_OF, ONE_OF, ANY_OF] ==> Subschemas(node, k).Some?)
    requires OwnSignatures(node.fields) == Signatures(own) && |own| == OwnCount(node.fields)
    ensures Counted(ObjectSignatures(doc, max, node, active),
                    ProductsWithin(|own|, Factors(doc, node, active), max) && ReferenceComputes(doc, max, node, active) &&
                    MembersCompute(doc, max, Subschemas(node, ALL_OF).value, active) &&
                    BranchesCompute(doc, max, node, ONE_OF, active) && BranchesCompute(doc, max, node, ANY_OF, active),
                    Alternatives(doc, node, active))
    decreases Paths(doc.root) - active, node, 2
  {
    hide OwnSignatures, ReferenceSignatures, AllOfSignatures, AlternativeSignatures, OwnCount, Prod, ReferenceComputes;
    hide ReferenceFactors, BranchFactors, Counts, ProductsWithin, Subschemas, MembersCompute, BranchesCompute;
    var items := Subschemas(node, ALL_OF).value;
    var a, b := ReferenceFactors(doc, node, active), Counts(doc, node, items, active);
    var c, d := BranchFactors(doc, node, ONE_OF, active), BranchFactors(doc, node, ANY_OF, active);
    ProductsConcat(|own|, a + b + c, d, max);
    ProductsConcat(|own|, a + b, c, max);
    ProductsConcat(|own|, a, b, max);
    ProdConcat(a + b + c, d);
    ProdConcat(a + b, c);
    ProdConcat(a, b);
    FourFactors(|own|, Prod(a), Prod(b), Prod(c), Prod(d));
    ReferenceCounted(doc, max, node, active, own);
    var referenced := ReferenceSignatures(doc, max, node, active, own);
    if referenced.Signatures? {
      AllOfCounted(doc, max, node, items, active, referenced.list);
      var all := AllOfSignatures(doc, max, node, items, active, referenced.list);
      if all.Signatures? {
        BranchesCounted(doc, max, node, ONE_OF, active, all.list);
        var one := AlternativeSignatures(doc, max, node, ONE_OF, active, all.list);
        if one.Signatures? {
          BranchesCounted(doc, max, node, ANY_OF, active, one.list);
        }
      }
    }
  }

  lemma FourFactors(s: nat, a: nat, b: nat, c: nat, d: nat)
    ensures s * (a * b) == s * a * b && s * (a * b * c) == s * a * b * c && s * (a * b * c * d) == s * a * b * c * d
  {}

  lemma {:induction false} ReferenceCounted(doc: Document, max: nat, node: Json, active: set<seq<Text>>, start: seq<Signature>)
    requires node.Obj?
    ensures var factors := ReferenceFactors(doc, node, active);
      Counted(ReferenceSignatures(doc, max, node, active, start),
              ReferenceComputes(doc, max, node, active) && ProductsWithin(|start|, factors, max), |start| * Prod(factors))
    decreases Paths(doc.root) - active, node, 1
  {
    hide ObjectSignatures, MergeSignatureLists, Alternatives, Computes, ProductsWithin, ResolveLocalReference;
    NoFactors(|start|, max);
    var reference := ReferencedLocation(doc, node.fields, active);
    if reference.Target? {
      var l := reference.location;
      TargetShrinksTheRest(doc, node.fields, active);
      NodeCounted(doc, max, l.node, active + {l.path});
      OneFactor(|start|, Alternatives(doc, l.node, active + {l.path}), max);
      var target := ObjectSignatures(doc, max, l.node, active + {l.path});
      if target.Signatures? { MergeCounted(start, target.list, max); }
    }
  }

  lemma {:induction false} AllOfCounted(doc: Document, max: nat, node: Json, items: seq<Json>, active: set<seq<Text>>,
                                        start: seq<Signature>)
    requires forall c :: c in items ==> c.Obj? && c < node
    ensures var counts := Counts(doc, node, items, active);
      Counted(AllOfSignatures(doc, max, node, items, active, start),
              MembersCompute(doc, max, items, active) && ProductsWithin(|start|, counts, max), |start| * Prod(counts))
    decreases Paths(doc.root) - active, node, 1, |items|
  {
    hide ObjectSignatures, MergeSignatureLists, Alternatives, Computes, ProductsWithin, Prod;
    NoFactors(|start|, max);
    if items != [] {
      var front, last := items[..|items| - 1], items[|items| - 1];
      assert last in items && forall c :: c in items <==> c in front || c == last;
      AllOfCounted(doc, max, node, front, active, start);
      NodeCounted(doc, max, last, active);
      var counts, count := Counts(doc, node, front, active), Alternatives(doc, last, active);
      ProductsConcat(|start|, counts, [count], max);
      ProdConcat(counts, [count]);
      OneFactor(|start| * Prod(counts), count, max);
      Associative(|start|, Prod(counts), count);
      var sofar, conjunct := AllOfSignatures(doc, max, node, front, active, start), ObjectSignatures(doc, max, last, active);
      if sofar.Signatures? && conjunct.Signatures? { MergeCounted(sofar.list, conjunct.list, max); }
    }
  }

  lemma {:induction false} EachCounted(doc: Document, max: nat, node: Json, items: seq<Json>, active: set<seq<Text>>)
    requires forall c :: c in items ==> c.Obj? && c < node
    ensures Counted(EachSignatures(doc, max, node, items, active), MembersCompute(doc, max, items, active),
                    Sum(Counts(doc, node, items, active)))
    decreases Paths(doc.root) - active, node, 1, |items|
  {
    hide ObjectSignatures, Alternatives, Computes;
    if items != [] {
      var front, last := items[..|items| - 1], items[|items| - 1];
      assert last in items && forall c :: c in items <==> c in front || c == last;
      EachCounted(doc, max, node, front, active);
      NodeCounted(doc, max, last, active);
      var counts := Counts(doc, node, items, active);
      assert counts[..|counts| - 1] == Counts(doc, node, front, active);
    }
  }

  lemma {:induction false} BranchesCounted(doc: Document, max: nat, node: Json, keyword: Text, active: set<seq<Text>>,
                                           start: seq<Signature>)
    requires node.Obj? && Subschemas(node, keyword).Some?
    ensures var factors := BranchFactors(doc, node, keyword, active);
      Counted(AlternativeSignatures(doc, max, node, keyword, active, start),
              BranchesCompute(doc, max, node, keyword, active) && ProductsWithin(|start|, factors, max), |start| * Prod(factors))
    decreases Paths(doc.root) - active, node, 1
  {
    hide EachSignatures, MergeSignatureLists, ProductsWithin, Counts, Computes;
    NoFactors(|start|, max);
    var items := Subschemas(node, keyword).value;
    if keyword in node.fields {
      EachCounted(doc, max, node, items, active);
      OneFactor(|start|, Sum(Counts(doc, node, items, active)), max);
      var list := EachSignatures(doc, max, node, items, active);
      if list.Signatures? { MergeCounted(start, list.list, max); }
      if items == [] { NoBranches(doc, node, active, start); }
    }
  }

  lemma NoBranches(doc: Document, node: Json, active: set<seq<Text>>, start: seq<Signature>)
    ensures Sum(Counts(doc, node, [], active)) == 0 && |start| * 0 == 0
  {}

  // ---------------------------------------------------------------- the results

  /**
   * The list of signatures is computed if and only if the walk succeeds and the numbers of branches and the products of
   * the numbers of alternatives stay within the limit; it then has as many entries as there are alternatives.
   */
  lemma SignaturesExactly(doc: Document, max: nat, node: Json)
    requires node.Obj?
    ensures var r := ObjectSignatures(doc, max, node, {});
      && (r.Signatures? <==> KeysSound(doc, node, {}) && WithinMax(doc, max, node, {}))
      && (r.Signatures? ==> |r.list| == Alternatives(doc, node, {}))
  {
    NodeCounted(doc, max, node, {});
  }

  /** The contract check answers under the same condition. */
  lemma ContractAnsweredExactly(doc: Document, max: nat, node: Json, required: set<Text>, properties: set<Text>)
    requires node.Obj?
    ensures SchemaHasObjectContract(doc, max, node, required, properties).Some? <==>
      KeysSound(doc, node, {}) && WithinMax(doc, max, node, {})
  {
    SignaturesExactly(doc, max, node);
  }
}
