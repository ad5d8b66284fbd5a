/** When a schema has a meaning on strings at all, and how the evaluator's refusals relate to that. */
module SchemaDefinedness {
  import opened Options
  import opened CodeUnits
  import opened JsonValue
  import opened JsonPointer
  import opened StringSets
  import opened SchemaNodes
  import opened SchemaStrings
  import opened SchemaMeaning

  // ---------------------------------------------------------------- reference cycles

  /** The schemas that must be decided on the same string before the node is. */
  ghost predicate Consults(doc: Document, node: Json, other: Json) {
    node.Obj? &&
    ((REF in node.fields && node.fields[REF].Str? && ResolveLocalReference(doc, node.fields[REF].text).Some? &&
      other == ResolveLocalReference(doc, node.fields[REF].text).value.node) ||
     (exists k :: k in [ALL_OF, ONE_OF, ANY_OF] && Subschemas(node, k).Some? && other in Subschemas(node, k).value))
  }

  lemma {:induction false} CountedAreDecided(doc: Document, n: nat, focus: Focus, items: seq<Json>, other: Json, s: Text)
    requires other in items && Accepting(doc, n, focus, items, s).Some?
    ensures Decide(doc, n, focus, other, s).Some?
  {
    var last := items[|items| - 1];
    if other != last {
      CountedAreDecided(doc, n, focus, items[..|items| - 1], other, s);
    }
  }

  lemma ConsultedIsDecided(doc: Document, n: nat, focus: Focus, node: Json, other: Json, s: Text)
    requires Consults(doc, node, other) && Decide(doc, n, focus, node, s).Some?
    ensures n > 0 && Decide(doc, n - 1, focus, other, s).Some?
  {
    hide ResolveLocalReference, Subschemas, Accepting, DecideOwn;
    if !(REF in node.fields && node.fields[REF].Str? && ResolveLocalReference(doc, node.fields[REF].text).Some? &&
         other == ResolveLocalReference(doc, node.fields[REF].text).value.node)
    {
      var k :| k in [ALL_OF, ONE_OF, ANY_OF] && Subschemas(node, k).Some? && other in Subschemas(node, k).value;
      if k != ALL_OF && k !in node.fields {
        assert Subschemas(node, k) == Some([]) by { AbsentKeyword(node, k); }
      } else {
        CountedAreDecided(doc, n - 1, focus, Subschemas(node, k).value, other, s);
      }
    }
  }

  lemma AbsentKeyword(node: Json, keyword: Text)
    requires node.Obj? && keyword !in node.fields
    ensures Subschemas(node, keyword) == Some([])
  {}

  ghost predicate ConsultChain(doc: Document, chain: seq<Json>) {
    forall i :: 0 <= i < |chain| - 1 ==> Consults(doc, chain[i], chain[i + 1])
  }

  lemma {:induction false} ChainIsDecided(doc: Document, n: nat, focus: Focus, chain: seq<Json>, s: Text)
    requires chain != [] && ConsultChain(doc, chain) && Decide(doc, n, focus, chain[0], s).Some?
    ensures n >= |chain| && Decide(doc, n + 1 - |chain|, focus, chain[|chain| - 1], s).Some?
    decreases |chain|
  {
    hide Decide, Consults;
    if |chain| == 1 {
      assert n > 0 by { NothingAtZero(doc, n, focus, chain[0], s); }
    } else {
      ConsultedIsDecided(doc, n, focus, chain[0], chain[1], s);
      var rest := chain[1..];
      assert forall i :: 0 <= i < |rest| ==> rest[i] == chain[i + 1];
      ChainIsDecided(doc, n - 1, focus, rest, s);
    }
  }

  lemma NothingAtZero(doc: Document, n: nat, focus: Focus, node: Json, s: Text)
    requires Decide(doc, n, focus, node, s).Some?
    ensures n > 0
  {}

  /** A schema that consults itself, directly or through others, means nothing on any string. */
  lemma {:induction false} CyclesMeanNothing(doc: Document, n: nat, focus: Focus, chain: seq<Json>, s: Text)
    requires |chain| > 1 && ConsultChain(doc, chain) && chain[0] == chain[|chain| - 1]
    ensures Decide(doc, n, focus, chain[0], s).None?
    decreases n
  {
    hide Decide, Consults;
    if Decide(doc, n, focus, chain[0], s).Some? {
      ChainIsDecided(doc, n, focus, chain, s);
      CyclesMeanNothing(doc, n + 1 - |chain|, focus, chain, s);
      assert false;
    }
  }

  ghost predicate NeverDecided(doc: Document, focus: Focus, node: Json) {
    forall n, s :: Decide(doc, n, focus, node, s).None?
  }

  ghost predicate DecidedAt(doc: Document, n: nat, focus: Focus, node: Json, loose: bool := false) {
    forall s :: Decide(doc, n, focus, node, s, loose).Some?
  }

  // ---------------------------------------------------------------- a walk that decides definedness

  /**
   * Whether every schema met on the way is well formed and no reference leads back to an active path. The walk into a
   * property's own schema starts with no active path, or carries the active ones along, as the evaluator does. Given
   * room, every list of strings and every number of branches must be within it.
   */
  predicate Sound(doc: Document, focus: Focus, node: Json, active: set<seq<Text>>, carry: bool := false,
                  room: Option<nat> := None)
    requires node.Obj?
    decreases if focus.Itself? then 0 else 1, Paths(doc.root) - active, node, 1
  {
    && OwnSound(doc, focus, node, active, carry, room)
    && ReferenceSound(doc, focus, node, active, carry, room)
    && (forall k :: k in [ALL_OF, ONE_OF, ANY_OF] ==> Subschemas(node, k).Some?)
    && (room.Some? ==> forall k :: k in [ONE_OF, ANY_OF] ==> |Subschemas(node, k).value| <= room.value)
    && (forall k, c :: k in [ALL_OF, ONE_OF, ANY_OF] && c in Subschemas(node, k).value ==>
          Sound(doc, focus, c, active, carry, room))
  }

  /** The strings of the const and of the enum keyword. */
  function ListedTexts(f: Fields): seq<set<Text>> {
    (if CONST in f && f[CONST].Str? then [{f[CONST].text}] else [])
    + (if ENUM in f && f[ENUM].Arr? then [set v | v in f[ENUM].items && v.Str? :: v.text] else [])
  }

  predicate OwnSound(doc: Document, focus: Focus, node: Json, active: set<seq<Text>>, carry: bool := false,
                     room: Option<nat> := None)
    requires node.Obj?
    decreases if focus.Itself? then 0 else 1, Paths(doc.root) - active, node, 0
  {
    match focus
    case Itself =>
      && !HasUnsupportedStringConstraint(node.fields) && KeywordsOk(node.fields)
      && (room.Some? ==> forall texts :: texts in ListedTexts(node.fields) ==> |texts| <= room.value)
    case Property(name) =>
      match PropertySchema(node, name)
      case None => false
      case Some(None) => true
      case Some(Some(child)) => Sound(doc, Itself, child, if carry then active else {}, false, room)
  }

  predicate ReferenceSound(doc: Document, focus: Focus, node: Json, active: set<seq<Text>>, carry: bool := false,
                           room: Option<nat> := None)
    requires node.Obj?
    decreases if focus.Itself? then 0 else 1, Paths(doc.root) - active, node, 0
  {
    match ReferencedLocation(doc, node.fields, active)
    case NoReference => true
    case BadReference(_) => false
    case Target(l) =>
      TargetShrinksTheRest(doc, node.fields, active);
      Sound(doc, focus, l.node, active + {l.path}, carry, room)
  }

  /** Fewer active paths, none inside the property's schema, and no limits are no harder. */
  lemma {:induction false} SoundWithFewer(doc: Document, focus: Focus, node: Json, fewer: set<seq<Text>>, active: set<seq<Text>>,
                                          keep: bool, carry: bool, room: Option<nat> := None)
    requires node.Obj? && fewer <= active && (keep ==> carry) && Sound(doc, focus, node, active, carry, room)
    ensures Sound(doc, focus, node, fewer, keep)
    decreases if focus.Itself? then 0 else 1, Paths(doc.root) - active, node
  {
    hide ResolveLocalReference, Subschemas, KeywordsOk, HasUnsupportedStringConstraint, ListedTexts;
    if focus.Property? && PropertySchema(node, focus.name).value.Some? {
      var child := PropertySchema(node, focus.name).value.value;
      SoundWithFewer(doc, Itself, child, if keep then fewer else {}, if carry then active else {}, false, false, room);
    }
    var reference := ReferencedLocation(doc, node.fields, active);
    if reference.Target? {
      var l := reference.location;
      TargetShrinksTheRest(doc, node.fields, active);
      SoundWithFewer(doc, focus, l.node, fewer + {l.path}, active + {l.path}, keep, carry, room);
    }
    forall k, c | k in [ALL_OF, ONE_OF, ANY_OF] && c in Subschemas(node, k).value ensures Sound(doc, focus, c, fewer, keep) {
      SoundWithFewer(doc, focus, c, fewer, active, keep, carry, room);
    }
  }

  // ---------------------------------------------------------------- sound schemas have a meaning

  lemma AbsentOrPresent(doc: Document, n: nat, focus: Focus, node: Json, keyword: Text, s: Text, loose: bool)
    requires node.Obj? && Subschemas(node, keyword).Some?
    requires Accepting(doc, n, focus, Subschemas(node, keyword).value, s, loose).Some?
    ensures DecideSome(doc, n, focus, node, keyword, s, loose).Some?
    ensures keyword == ALL_OF ==> DecideAll(doc, n, focus, node, s, loose).Some?
  {}

  lemma {:induction false} SoundIsDecided(doc: Document, focus: Focus, node: Json, active: set<seq<Text>>, loose: bool := false)
    returns (n: nat)
    requires node.Obj? && Sound(doc, focus, node, active)
    ensures DecidedAt(doc, n, focus, node, loose)
    decreases if focus.Itself? then 0 else 1, Paths(doc.root) - active, node, 3
  {
    hide DecideOwn, DecideReference, DecideAll, DecideSome, OwnSound, ReferenceSound, Subschemas;
    var n0 := OwnIsDecided(doc, focus, node, active);
    var n1 := ReferenceIsDecided(doc, focus, node, active, loose);
    var all, one, any := Subschemas(node, ALL_OF).value, Subschemas(node, ONE_OF).value, Subschemas(node, ANY_OF).value;
    assert ALL_OF in [ALL_OF, ONE_OF, ANY_OF] && ONE_OF in [ALL_OF, ONE_OF, ANY_OF] && ANY_OF in [ALL_OF, ONE_OF, ANY_OF];
    hide Sound;
    var n2 := EachIsDecided(doc, focus, node, all, active, loose);
    var n3 := EachIsDecided(doc, focus, node, one, active, loose);
    var n4 := EachIsDecided(doc, focus, node, any, active, loose);
    var m := n0 + n1 + n2 + n3 + n4;
    n := m + 1;
    forall s ensures Decide(doc, n, focus, node, s, loose).Some? {
      OwnStands(doc, n0, m, focus, node, s);
      ReferenceStands(doc, n1, m, focus, node, s, loose);
      CountStands(doc, n2, m, focus, all, s, loose);
      CountStands(doc, n3, m, focus, one, s, loose);
      CountStands(doc, n4, m, focus, any, s, loose);
      AbsentOrPresent(doc, m, focus, node, ALL_OF, s, loose);
      AbsentOrPresent(doc, m, focus, node, ONE_OF, s, loose);
      AbsentOrPresent(doc, m, focus, node, ANY_OF, s, loose);
    }
  }

  lemma {:induction false} OwnIsDecided(doc: Document, focus: Focus, node: Json, active: set<seq<Text>>) returns (n: nat)
    requires node.Obj? && OwnSound(doc, focus, node, active)
    ensures forall s :: DecideOwn(doc, n, focus, node, s).Some?
    decreases if focus.Itself? then 0 else 1, Paths(doc.root) - active, node, 2
  {
    UnsupportedExact(node.fields);
    hide Decide, Sound, KeywordsAccept, KeywordsOk, Uninterpreted, HasUnsupportedStringConstraint;
    n := 0;
    if focus.Property? && PropertySchema(node, focus.name).value.Some? {
      n := SoundIsDecided(doc, Itself, PropertySchema(node, focus.name).value.value, {});
    }
  }

  lemma {:induction false} ReferenceIsDecided(doc: Document, focus: Focus, node: Json, active: set<seq<Text>>, loose: bool)
    returns (n: nat)
    requires node.Obj? && ReferenceSound(doc, focus, node, active)
    ensures forall s :: DecideReference(doc, n, focus, node, s, loose).Some?
    decreases if focus.Itself? then 0 else 1, Paths(doc.root) - active, node, 2
  {
    hide Decide, Sound;
    n := 0;
    var reference := ReferencedLocation(doc, node.fields, active);
    if reference.Target? {
      TargetShrinksTheRest(doc, node.fields, active);
      n := SoundIsDecided(doc, focus, reference.location.node, active + {reference.location.path}, loose);
    }
  }

  lemma {:induction false} EachIsDecided(doc: Document, focus: Focus, node: Json, items: seq<Json>, active: set<seq<Text>>,
                                         loose: bool) returns (n: nat)
    requires forall c :: c in items ==> c.Obj? && c < node && Sound(doc, focus, c, active)
    ensures forall s :: Accepting(doc, n, focus, items, s, loose).Some?
    decreases if focus.Itself? then 0 else 1, Paths(doc.root) - active, node, 2, |items|
  {
    hide Decide, Sound;
    n := 0;
    if items != [] {
      var front, last := items[..|items| - 1], items[|items| - 1];
      assert last in items;
      var n0 := EachIsDecided(doc, focus, node, front, active, loose);
      var n1 := SoundIsDecided(doc, focus, last, active, loose);
      n := n0 + n1;
      forall s ensures Accepting(doc, n, focus, items, s, loose).Some? {
        CountStands(doc, n0, n, focus, front, s, loose);
        DecisionStands(doc, n1, n, focus, last, s, loose);
      }
    }
  }

  // ---------------------------------------------------------------- unsound schemas have none

  /** The chain leads, in one step or more, to a schema whose path is active. */
  ghost predicate LeadsBack(doc: Document, node: Json, active: set<seq<Text>>, chain: seq<Json>) {
    && |chain| > 1 && chain[0] == node && ConsultChain(doc, chain)
    && exists p :: p in active && AtPath(doc, p, chain[|chain| - 1])
  }

  ghost predicate AtPath(doc: Document, p: seq<Text>, node: Json) { ObjectAt(doc.root, p) == Some(Location(node, p)) }

  lemma UndecidedThrough(doc: Document, focus: Focus, node: Json, other: Json)
    requires Consults(doc, node, other) && NeverDecided(doc, focus, other)
    ensures NeverDecided(doc, focus, node)
  {
    hide Decide, Consults;
    forall n: nat, s ensures Decide(doc, n, focus, node, s).None? {
      if Decide(doc, n, focus, node, s).Some? {
        ConsultedIsDecided(doc, n, focus, node, other, s);
      }
    }
  }

  lemma ChainStep(doc: Document, node: Json, chain: seq<Json>)
    requires chain != [] && ConsultChain(doc, chain) && Consults(doc, node, chain[0])
    ensures ConsultChain(doc, [node] + chain)
  {
    hide Consults;
    var longer := [node] + chain;
    forall i | 0 <= i < |longer| - 1 ensures Consults(doc, longer[i], longer[i + 1]) {
      if i > 0 { assert longer[i] == chain[i - 1] && longer[i + 1] == chain[i]; }
    }
  }

  lemma Prepend(doc: Document, node: Json, other: Json, active: set<seq<Text>>, chain: seq<Json>)
    requires Consults(doc, node, other) && LeadsBack(doc, other, active, chain)
    ensures LeadsBack(doc, node, active, [node] + chain)
  {
    hide Consults, ConsultChain;
    ChainStep(doc, node, chain);
  }

  /** A schema that is not sound is never decided, unless it leads back to a path that was active before. */
  lemma {:induction false} UnsoundIsUndecided(doc: Document, focus: Focus, node: Json, active: set<seq<Text>>)
    returns (chain: seq<Json>)
    requires node.Obj? && !Sound(doc, focus, node, active)
    ensures NeverDecided(doc, focus, node) || LeadsBack(doc, node, active, chain)
    decreases if focus.Itself? then 0 else 1, Paths(doc.root) - active, node, 3
  {
    hide Decide, Consults, NeverDecided, LeadsBack, Subschemas, OwnSound, ReferenceSound;
    chain := [];
    if !OwnSound(doc, focus, node, active) {
      OwnIsUndecided(doc, focus, node, active);
    } else if !ReferenceSound(doc, focus, node, active) {
      chain := ReferenceIsUndecided(doc, focus, node, active);
    } else {
      if k :| k in [ALL_OF, ONE_OF, ANY_OF] && Subschemas(node, k).None? {
        MalformedIsUndecided(doc, focus, node, k);
      } else {
        var k, c :| k in [ALL_OF, ONE_OF, ANY_OF] && c in Subschemas(node, k).value && !Sound(doc, focus, c, active);
        chain := UnsoundIsUndecided(doc, focus, c, active);
        assert Consults(doc, node, c) by { MemberIsConsulted(doc, node, k, c); }
        if NeverDecided(doc, focus, c) {
          UndecidedThrough(doc, focus, node, c);
        } else {
          Prepend(doc, node, c, active, chain);
          chain := [node] + chain;
        }
      }
    }
  }

  lemma MemberIsConsulted(doc: Document, node: Json, keyword: Text, c: Json)
    requires node.Obj? && keyword in [ALL_OF, ONE_OF, ANY_OF]
    requires Subschemas(node, keyword).Some? && c in Subschemas(node, keyword).value
    ensures Consults(doc, node, c)
  {}

  lemma MalformedIsUndecided(doc: Document, focus: Focus, node: Json, keyword: Text)
    requires node.Obj? && keyword in [ALL_OF, ONE_OF, ANY_OF] && Subschemas(node, keyword).None?
    ensures NeverDecided(doc, focus, node)
  {
    hide DecideOwn, DecideReference, Accepting;
    forall n: nat, s ensures Decide(doc, n, focus, node, s).None? {
      if n > 0 {
        assert keyword == ALL_OF ==> DecideAll(doc, n - 1, focus, node, s).None?;
        assert keyword != ALL_OF ==> DecideSome(doc, n - 1, focus, node, keyword, s).None?;
      }
    }
  }

  lemma {:induction false} OwnIsUndecided(doc: Document, focus: Focus, node: Json, active: set<seq<Text>>)
    requires node.Obj? && !OwnSound(doc, focus, node, active)
    ensures NeverDecided(doc, focus, node)
    decreases if focus.Itself? then 0 else 1, Paths(doc.root) - active, node, 2
  {
    UnsupportedExact(node.fields);
    hide Sound, DecideReference, DecideAll, DecideSome, LeadsBack, KeywordsOk, KeywordsAccept;
    hide Uninterpreted, HasUnsupportedStringConstraint;
    if focus.Property? && PropertySchema(node, focus.name).Some? {
      var child := PropertySchema(node, focus.name).value.value;
      var chain := UnsoundIsUndecided(doc, Itself, child, {});
      NothingIsActive(doc, child, chain);
      assert NeverDecided(doc, Itself, child);
    }
    forall n: nat, s ensures Decide(doc, n, focus, node, s).None? {
      if n > 0 {
        assert DecideOwn(doc, n - 1, focus, node, s).None?;
      }
    }
  }

  lemma NothingIsActive(doc: Document, node: Json, chain: seq<Json>)
    ensures !LeadsBack(doc, node, {}, chain)
  {}

  lemma {:induction false} ReferenceIsUndecided(doc: Document, focus: Focus, node: Json, active: set<seq<Text>>)
    returns (chain: seq<Json>)
    requires node.Obj? && !ReferenceSound(doc, focus, node, active)
    ensures NeverDecided(doc, focus, node) || LeadsBack(doc, node, active, chain)
    decreases if focus.Itself? then 0 else 1, Paths(doc.root) - active, node, 2
  {
    hide Sound, LeadsBack, Decide, NeverDecided;
    chain := [];
    var resolved := if node.fields[REF].Str? then ResolveLocalReference(doc, node.fields[REF].text) else None;
    if resolved.None? {
      UnresolvedIsUndecided(doc, focus, node);
    } else {
      var target := resolved.value;
      assert Consults(doc, node, target.node) && AtPath(doc, target.path, target.node);
      if target.path in active {
        chain := [node, target.node];
        assert LeadsBack(doc, node, active, chain) by { DirectlyBack(doc, node, target, active); }
      } else {
        chain := TargetIsUndecided(doc, focus, node, active, target);
      }
    }
  }

  lemma DirectlyBack(doc: Document, node: Json, target: Location, active: set<seq<Text>>)
    requires Consults(doc, node, target.node) && AtPath(doc, target.path, target.node) && target.path in active
    ensures LeadsBack(doc, node, active, [node, target.node])
  {}

  lemma UnresolvedIsUndecided(doc: Document, focus: Focus, node: Json)
    requires node.Obj? && REF in node.fields
    requires !node.fields[REF].Str? || ResolveLocalReference(doc, node.fields[REF].text).None?
    ensures NeverDecided(doc, focus, node)
  {
    hide DecideOwn, DecideAll, DecideSome;
    forall n: nat, s ensures Decide(doc, n, focus, node, s).None? {
      if n > 0 {
        assert DecideReference(doc, n - 1, focus, node, s).None?;
      }
    }
  }

  lemma {:induction false} TargetIsUndecided(doc: Document, focus: Focus, node: Json, active: set<seq<Text>>, target: Location)
    returns (chain: seq<Json>)
    requires node.Obj? && ReferencedLocation(doc, node.fields, active) == Target(target)
    requires target.node.Obj? && !Sound(doc, focus, target.node, active + {target.path})
    requires Consults(doc, node, target.node) && AtPath(doc, target.path, target.node)
    ensures NeverDecided(doc, focus, node) || LeadsBack(doc, node, active, chain)
    decreases if focus.Itself? then 0 else 1, Paths(doc.root) - active, node, 1
  {
    hide Sound, Decide, Consults, ConsultChain, NeverDecided, ResolveLocalReference;
    TargetShrinksTheRest(doc, node.fields, active);
    chain := UnsoundIsUndecided(doc, focus, target.node, active + {target.path});
    if !NeverDecided(doc, focus, target.node) {
      var p :| p in active + {target.path} && AtPath(doc, p, chain[|chain| - 1]);
      if p in active {
        Prepend(doc, node, target.node, active, chain);
        chain := [node] + chain;
      } else {
        LoopIsUndecided(doc, focus, chain);
        assert false;
      }
    } else {
      UndecidedThrough(doc, focus, node, target.node);
    }
  }

  lemma LoopIsUndecided(doc: Document, focus: Focus, chain: seq<Json>)
    requires |chain| > 1 && ConsultChain(doc, chain) && chain[0] == chain[|chain| - 1]
    ensures NeverDecided(doc, focus, chain[0])
  {
    hide Decide, ConsultChain;
    forall n: nat, s ensures Decide(doc, n, focus, chain[0], s).None? {
      CyclesMeanNothing(doc, n, focus, chain, s);
    }
  }

  lemma NeverIsNotDecided(doc: Document, focus: Focus, node: Json)
    ensures NeverDecided(doc, focus, node) ==> !exists n :: DecidedAt(doc, n, focus, node)
  {
    hide Decide;
    if n :| DecidedAt(doc, n, focus, node) {
      assert Decide(doc, n, focus, node, []).Some?;
    }
  }

  /** The walk decides exactly whether a schema has a meaning: on every string at some depth, or on none at any. */
  lemma MeaningExactlyWhenSound(doc: Document, focus: Focus, node: Json)
    requires node.Obj?
    ensures Sound(doc, focus, node, {}) <==> exists n :: DecidedAt(doc, n, focus, node)
    ensures Sound(doc, focus, node, {}) <==> !NeverDecided(doc, focus, node)
  {
    hide Sound, Decide, DecidedAt, NeverDecided, LeadsBack;
    NeverIsNotDecided(doc, focus, node);
    if Sound(doc, focus, node, {}) {
      var n := SoundIsDecided(doc, focus, node, {});
    } else {
      var chain := UnsoundIsUndecided(doc, focus, node, {});
      NothingIsActive(doc, node, chain);
    }
  }
}
