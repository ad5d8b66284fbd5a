/** What a schema says about the keys of an object, in the terms of JSON Schema 2020-12, and that signatures say it. */
module SignatureMeaning {
  import opened Options
  import opened CodeUnits
  import opened JsonValue
  import opened JsonPointer
  import opened SchemaNodes
  import opened SchemaSignatures

  // The combinators are those of section 10.2.1 of JSON Schema Core 2020-12; type and required are sections 6.1.1 and
  // 6.5.3 of JSON Schema Validation 2020-12.

  // ---------------------------------------------------------------- the constraints on a key set

  /**
   * Whether an object with these keys meets the type and required keywords through references, every conjunct and
   * some branch of each oneOf and anyOf, with every property named on the way declared; None below depth n.
   */
  ghost function Meets(doc: Document, n: nat, node: Json, keys: set<Text>, declared: set<Text>): Option<bool>
    decreases n, 1
  {
    if n == 0 || !node.Obj? then None
    else
      And(MeetsOwn(node.fields, keys, declared),
          And(MeetsReference(doc, n - 1, node, keys, declared),
              And(MeetsAll(doc, n - 1, node, keys, declared),
                  And(MeetsSome(doc, n - 1, node, ONE_OF, keys, declared),
                      MeetsSome(doc, n - 1, node, ANY_OF, keys, declared)))))
  }

  ghost function MeetsOwn(f: Fields, keys: set<Text>, declared: set<Text>): Option<bool> {
    match (RequiredNames(f), PropertyNames(f))
    case (Some(required), Some(named)) => Some(TypeAdmits(f, OBJECT) && required <= keys && named <= declared)
    case _ => None
  }

  ghost function MeetsReference(doc: Document, n: nat, node: Json, keys: set<Text>, declared: set<Text>): Option<bool>
    requires node.Obj?
    decreases n, 2
  {
    if REF !in node.fields then Some(true)
    else if !node.fields[REF].Str? then None
    else
      match ResolveLocalReference(doc, node.fields[REF].text)
      case None => None
      case Some(target) => Meets(doc, n, target.node, keys, declared)
  }

  /** How many of the schemas are met. */
  ghost function Meeting(doc: Document, n: nat, items: seq<Json>, keys: set<Text>, declared: set<Text>): (r: Option<nat>)
    ensures r.Some? ==> r.value <= |items|
    decreases n, 2, |items|
  {
    if items == [] then Some(0)
    else
      match (Meeting(doc, n, items[..|items| - 1], keys, declared), Meets(doc, n, items[|items| - 1], keys, declared))
      case (Some(k), Some(b)) => Some(if b then k + 1 else k)
      case _ => None
  }

  ghost function MeetsAll(doc: Document, n: nat, node: Json, keys: set<Text>, declared: set<Text>): Option<bool>
    requires node.Obj?
    decreases n, 3
  {
    match Subschemas(node, ALL_OF)
    case None => None
    case Some(items) =>
      match Meeting(doc, n, items, keys, declared)
      case None => None
      case Some(k) => Some(k == |items|)
  }

  ghost function MeetsSome(doc: Document, n: nat, node: Json, keyword: Text, keys: set<Text>, declared: set<Text>): Option<bool>
    requires node.Obj?
    decreases n, 3
  {
    if keyword !in node.fields then Some(true)
    else
      match Subschemas(node, keyword)
      case None => None
      case Some(items) =>
        match Meeting(doc, n, items, keys, declared)
        case None => None
        case Some(k) => Some(k > 0)
  }

  // ---------------------------------------------------------------- a verdict never changes

  lemma {:induction false} VerdictStands(doc: Document, n: nat, m: nat, node: Json, keys: set<Text>, declared: set<Text>)
    requires n <= m && Meets(doc, n, node, keys, declared).Some?
    ensures Meets(doc, m, node, keys, declared) == Meets(doc, n, node, keys, declared)
    decreases n, 1
  {
    hide MeetsOwn, MeetsReference, MeetsAll, MeetsSome;
    ReferenceStands(doc, n - 1, m - 1, node, keys, declared);
    AllStands(doc, n - 1, m - 1, node, keys, declared);
    SomeStands(doc, n - 1, m - 1, node, ONE_OF, keys, declared);
    SomeStands(doc, n - 1, m - 1, node, ANY_OF, keys, declared);
  }

  lemma {:induction false} ReferenceStands(doc: Document, n: nat, m: nat, node: Json, keys: set<Text>, declared: set<Text>)
    requires n <= m && node.Obj? && MeetsReference(doc, n, node, keys, declared).Some?
    ensures MeetsReference(doc, m, node, keys, declared) == MeetsReference(doc, n, node, keys, declared)
    decreases n, 2
  {
    hide ResolveLocalReference, Meets;
    if REF in node.fields {
      VerdictStands(doc, n, m, ResolveLocalReference(doc, node.fields[REF].text).value.node, keys, declared);
    }
  }

  lemma {:induction false} CountStands(doc: Document, n: nat, m: nat, items: seq<Json>, keys: set<Text>, declared: set<Text>)
    requires n <= m && Meeting(doc, n, items, keys, declared).Some?
    ensures Meeting(doc, m, items, keys, declared) == Meeting(doc, n, items, keys, declared)
    decreases n, 2, |items|
  {
    hide Meets;
    if items != [] {
      CountStands(doc, n, m, items[..|items| - 1], keys, declared);
      VerdictStands(doc, n, m, items[|items| - 1], keys, declared);
    }
  }

  lemma {:induction false} AllStands(doc: Document, n: nat, m: nat, node: Json, keys: set<Text>, declared: set<Text>)
    requires n <= m && node.Obj? && MeetsAll(doc, n, node, keys, declared).Some?
    ensures MeetsAll(doc, m, node, keys, declared) == MeetsAll(doc, n, node, keys, declared)
    decreases n, 3
  {
    hide Subschemas, Meeting;
    CountStands(doc, n, m, Subschemas(node, ALL_OF).value, keys, declared);
  }

  lemma {:induction false} SomeStands(doc: Document, n: nat, m: nat, node: Json, keyword: Text, keys: set<Text>,
                                      declared: set<Text>)
    requires n <= m && node.Obj? && MeetsSome(doc, n, node, keyword, keys, declared).Some?
    ensures MeetsSome(doc, m, node, keyword, keys, declared) == MeetsSome(doc, n, node, keyword, keys, declared)
    decreases n, 3
  {
    hide Subschemas, Meeting;
    if keyword in node.fields {
      CountStands(doc, n, m, Subschemas(node, keyword).value, keys, declared);
    }
  }

  // ---------------------------------------------------------------- the signatures are faithful

  ghost predicate Faithful(doc: Document, n: nat, node: Json, list: seq<Signature>) {
    forall keys, declared :: Meets(doc, n, node, keys, declared) == Some(Covered(list, keys, declared))
  }

  lemma OwnFaithful(f: Fields, keys: set<Text>, declared: set<Text>)
    requires OwnSignatures(f).Signatures?
    ensures MeetsOwn(f, keys, declared) == Some(Covered(OwnSignatures(f).list, keys, declared))
  {
    SchemaTypeAllowsMeans(f, OBJECT);
    var own := Signature(PropertyNames(f).value, RequiredNames(f).value);
    assert own in [own];
  }

  lemma {:induction false} NodeFaithful(doc: Document, max: nat, node: Json, active: set<seq<Text>>) returns (n: nat)
    requires node.Obj? && ObjectSignatures(doc, max, node, active).Signatures?
    ensures Faithful(doc, n, node, ObjectSignatures(doc, max, node, active).list)
    decreases Paths(doc.root) - active, node, 3
  {
    hide OwnSignatures, ReferenceSignatures, AllOfSignatures, AlternativeSignatures, Covered;
    hide MeetsOwn, MeetsReference, MeetsAll, MeetsSome;
    var own := OwnSignatures(node.fields).list;
    var referenced := ReferenceSignatures(doc, max, node, active, own).list;
    var conjuncts := Subschemas(node, ALL_OF).value;
    var all := AllOfSignatures(doc, max, node, conjuncts, active, referenced).list;
    var one := AlternativeSignatures(doc, max, node, ONE_OF, active, all).list;
    var any := AlternativeSignatures(doc, max, node, ANY_OF, active, one).list;
    var n1 := ReferenceFaithful(doc, max, node, active, own);
    var n2 := AllOfFaithful(doc, max, node, conjuncts, active, referenced);
    var n3 := AlternativesFaithful(doc, max, node, ONE_OF, active, all);
    var n4 := AlternativesFaithful(doc, max, node, ANY_OF, active, one);
    var m := n1 + n2 + n3 + n4;
    n := m + 1;
    forall keys, declared ensures Meets(doc, n, node, keys, declared) == Some(Covered(any, keys, declared)) {
      OwnFaithful(node.fields, keys, declared);
      ReferenceStands(doc, n1, m, node, keys, declared);
      AllFromCount(doc, n2, node, keys, declared);
      AllStands(doc, n2, m, node, keys, declared);
      SomeStands(doc, n3, m, node, ONE_OF, keys, declared);
      SomeStands(doc, n4, m, node, ANY_OF, keys, declared);
    }
  }

  lemma AllFromCount(doc: Document, n: nat, node: Json, keys: set<Text>, declared: set<Text>)
    requires node.Obj? && Subschemas(node, ALL_OF).Some?
    requires Meeting(doc, n, Subschemas(node, ALL_OF).value, keys, declared).Some?
    ensures MeetsAll(doc, n, node, keys, declared) ==
      Some(Meeting(doc, n, Subschemas(node, ALL_OF).value, keys, declared).value == |Subschemas(node, ALL_OF).value|)
  {}

  lemma {:induction false} ReferenceFaithful(doc: Document, max: nat, node: Json, active: set<seq<Text>>,
                                             start: seq<Signature>) returns (n: nat)
    requires node.Obj? && ReferenceSignatures(doc, max, node, active, start).Signatures?
    ensures forall keys, declared :: (MeetsReference(doc, n, node, keys, declared).Some? &&
      (Covered(ReferenceSignatures(doc, max, node, active, start).list, keys, declared) <==>
        Covered(start, keys, declared) && MeetsReference(doc, n, node, keys, declared).value))
    decreases Paths(doc.root) - active, node, 2
  {
    hide ObjectSignatures, Meets, Covered, MergeSignatureLists;
    n := 0;
    var reference := ReferencedLocation(doc, node.fields, active);
    if reference.Target? {
      TargetShrinksTheRest(doc, node.fields, active);
      var l := reference.location;
      n := NodeFaithful(doc, max, l.node, active + {l.path});
      forall keys, declared ensures MeetsReference(doc, n, node, keys, declared).Some? &&
        (Covered(ReferenceSignatures(doc, max, node, active, start).list, keys, declared) <==>
          Covered(start, keys, declared) && MeetsReference(doc, n, node, keys, declared).value)
      {
        MergeMeans(start, ObjectSignatures(doc, max, l.node, active + {l.path}).list, max, keys, declared);
      }
    }
  }

  lemma {:induction false} AllOfFaithful(doc: Document, max: nat, node: Json, items: seq<Json>, active: set<seq<Text>>,
                                         start: seq<Signature>) returns (n: nat)
    requires forall c :: c in items ==> c.Obj? && c < node
    requires AllOfSignatures(doc, max, node, items, active, start).Signatures?
    ensures forall keys, declared :: (Meeting(doc, n, items, keys, declared).Some? &&
      (Covered(AllOfSignatures(doc, max, node, items, active, start).list, keys, declared) <==>
        Covered(start, keys, declared) && Meeting(doc, n, items, keys, declared).value == |items|))
    decreases Paths(doc.root) - active, node, 1, |items|
  {
    hide ObjectSignatures, Meets, Covered, MergeSignatureLists;
    n := 0;
    if items != [] {
      var front, last := items[..|items| - 1], items[|items| - 1];
      assert last in items;
      var n0 := AllOfFaithful(doc, max, node, front, active, start);
      var n1 := NodeFaithful(doc, max, last, active);
      n := n0 + n1;
      forall keys, declared ensures Meeting(doc, n, items, keys, declared).Some? &&
        (Covered(AllOfSignatures(doc, max, node, items, active, start).list, keys, declared) <==>
          Covered(start, keys, declared) && Meeting(doc, n, items, keys, declared).value == |items|)
      {
        CountStands(doc, n0, n, front, keys, declared);
        VerdictStands(doc, n1, n, last, keys, declared);
        MergeMeans(AllOfSignatures(doc, max, node, front, active, start).list,
                   ObjectSignatures(doc, max, last, active).list, max, keys, declared);
      }
    }
  }

  lemma {:induction false} EachFaithful(doc: Document, max: nat, node: Json, items: seq<Json>, active: set<seq<Text>>)
    returns (n: nat)
    requires forall c :: c in items ==> c.Obj? && c < node
    requires EachSignatures(doc, max, node, items, active).Signatures?
    ensures forall keys, declared :: (Meeting(doc, n, items, keys, declared).Some? &&
      (Covered(EachSignatures(doc, max, node, items, active).list, keys, declared) <==>
        Meeting(doc, n, items, keys, declared).value > 0))
    decreases Paths(doc.root) - active, node, 1, |items|
  {
    hide ObjectSignatures, Meets, Covered;
    n := 0;
    if items == [] {
      forall keys, declared ensures !Covered([], keys, declared) { NothingCovers([], keys, declared); }
    } else {
      var front, last := items[..|items| - 1], items[|items| - 1];
      assert last in items;
      var n0 := EachFaithful(doc, max, node, front, active);
      var n1 := NodeFaithful(doc, max, last, active);
      n := n0 + n1;
      forall keys, declared ensures Meeting(doc, n, items, keys, declared).Some? &&
        (Covered(EachSignatures(doc, max, node, items, active).list, keys, declared) <==>
          Meeting(doc, n, items, keys, declared).value > 0)
      {
        CountStands(doc, n0, n, front, keys, declared);
        VerdictStands(doc, n1, n, last, keys, declared);
        CoveredConcat(EachSignatures(doc, max, node, front, active).list,
                      ObjectSignatures(doc, max, last, active).list, keys, declared);
      }
    }
  }

  lemma {:induction false} AlternativesFaithful(doc: Document, max: nat, node: Json, keyword: Text, active: set<seq<Text>>,
                                                start: seq<Signature>) returns (n: nat)
    requires node.Obj? && AlternativeSignatures(doc, max, node, keyword, active, start).Signatures?
    ensures forall keys, declared :: (MeetsSome(doc, n, node, keyword, keys, declared).Some? &&
      (Covered(AlternativeSignatures(doc, max, node, keyword, active, start).list, keys, declared) <==>
        Covered(start, keys, declared) && MeetsSome(doc, n, node, keyword, keys, declared).value))
    decreases Paths(doc.root) - active, node, 2
  {
    hide EachSignatures, Meets, Covered, MergeSignatureLists;
    n := 0;
    if keyword in node.fields {
      var items := Subschemas(node, keyword).value;
      if items == [] {
        forall keys, declared ensures !Covered([], keys, declared) { NothingCovers([], keys, declared); }
      } else {
        n := EachFaithful(doc, max, node, items, active);
        forall keys, declared ensures MeetsSome(doc, n, node, keyword, keys, declared).Some? &&
          (Covered(AlternativeSignatures(doc, max, node, keyword, active, start).list, keys, declared) <==>
            Covered(start, keys, declared) && MeetsSome(doc, n, node, keyword, keys, declared).value)
        {
          MergeMeans(start, EachSignatures(doc, max, node, items, active).list, max, keys, declared);
        }
      }
    }
  }

  /** The list of signatures is a faithful disjunctive form of the key constraints, and no depth gives another answer. */
  lemma SignaturesAreFaithful(doc: Document, max: nat, node: Json)
    requires node.Obj? && ObjectSignatures(doc, max, node, {}).Signatures?
    ensures exists n :: Faithful(doc, n, node, ObjectSignatures(doc, max, node, {}).list)
    ensures forall n, keys, declared :: Meets(doc, n, node, keys, declared).Some? ==>
      Meets(doc, n, node, keys, declared).value == Covered(ObjectSignatures(doc, max, node, {}).list, keys, declared)
  {
    hide Meets, ObjectSignatures, Covered;
    var n := NodeFaithful(doc, max, node, {});
    forall m, keys, declared | Meets(doc, m, node, keys, declared).Some?
      ensures Meets(doc, m, node, keys, declared).value ==
        Covered(ObjectSignatures(doc, max, node, {}).list, keys, declared)
    {
      if m <= n {
        VerdictStands(doc, m, n, node, keys, declared);
      } else {
        VerdictStands(doc, n, m, node, keys, declared);
      }
    }
  }

  ghost predicate Met(doc: Document, node: Json, keys: set<Text>, declared: set<Text>) {
    exists n :: Meets(doc, n, node, keys, declared) == Some(true)
  }

  /** The contract check holds exactly when the schema can be met, and only with the required fields and properties. */
  lemma ObjectContractExact(doc: Document, max: nat, node: Json, required: set<Text>, properties: set<Text>)
    requires node.Obj? && SchemaHasObjectContract(doc, max, node, required, properties).Some?
    ensures SchemaHasObjectContract(doc, max, node, required, properties).value <==>
      (exists keys, declared :: Met(doc, node, keys, declared)) &&
      (forall keys, declared :: Met(doc, node, keys, declared) ==> required <= keys && properties <= declared)
  {
    hide Meets, ObjectSignatures;
    var list := ObjectSignatures(doc, max, node, {}).list;
    var n := NodeFaithful(doc, max, node, {});
    forall keys, declared ensures Met(doc, node, keys, declared) <==> Covered(list, keys, declared) {
      hide Covered;
      assert Meets(doc, n, node, keys, declared) == Some(Covered(list, keys, declared));
      SignaturesAreFaithful(doc, max, node);
    }
    forall s | s in list ensures Covered(list, s.required, s.properties) {}
    if list != [] {
      assert Covered(list, list[0].required, list[0].properties);
      assert Met(doc, node, list[0].required, list[0].properties);
    }
  }
}
