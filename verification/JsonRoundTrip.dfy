/** JSON.stringify writes texts of RFC 8259 that read back as the value written. */
module JsonRoundTrip {
  import opened Options
  import opened CodeUnits
  import opened Decimals
  import G = JsonGrammar
  import T = JsonTokens
  import opened JsonStringify
  import opened Dependencies
  import opened Graph

  // ---------------------------------------------------------------- strings

  function ItemOf(c: CodeUnit, lone: bool): G.StringItem {
    if ShortEscape(c) != 0 then G.Escape(ShortEscape(c))
    else if c < 0x20 || lone then var h := Hex4(c); G.Unicode(h[0], h[1], h[2], h[3])
    else G.Unescaped(c)
  }

  lemma ItemReads(c: CodeUnit, lone: bool)
    ensures G.ItemOk(ItemOf(c, lone)) && G.ItemText(ItemOf(c, lone)) == UnitText(c, lone) && G.ItemValue(ItemOf(c, lone)) == c
  {
    HexReads(c);
  }

  lemma HexReads(c: CodeUnit)
    ensures var h := Hex4(c);
      && G.IsHex(h[0]) && G.IsHex(h[1]) && G.IsHex(h[2]) && G.IsHex(h[3])
      && G.HexValue(h[0]) * 0x1000 + G.HexValue(h[1]) * 0x100 + G.HexValue(h[2]) * 0x10 + G.HexValue(h[3]) == c
  {
    var a, b := c / 16 / 16, c / 16;
    assert c == b * 16 + c % 16 && b == a * 16 + b % 16 && a == a / 16 * 16 + a % 16;
    DigitReads(a / 16);
    DigitReads(a % 16);
    DigitReads(b % 16);
    DigitReads(c % 16);
  }

  lemma DigitReads(d: nat)
    requires d < 16
    ensures G.IsHex(HexDigit(d)) && G.HexValue(HexDigit(d)) == d
  {}

  /** A digit, or one of the letters a to f. */
  predicate IsLowerHex(c: CodeUnit) { 0x30 <= c <= 0x39 || 0x61 <= c <= 0x66 }

  /** A unit is written as itself, as a two-letter escape, or as its four hexadecimal digits in lower case. */
  lemma UnitTextExact(c: CodeUnit, lone: bool)
    ensures UnitText(c, lone) == [c] <==> c >= 0x20 && c != 0x22 && c != 0x5C && !lone
    ensures |UnitText(c, lone)| == 2 <==> c in {0x08, 0x09, 0x0A, 0x0C, 0x0D, 0x22, 0x5C}
    ensures |UnitText(c, lone)| in {1, 2, 6}
    ensures |UnitText(c, lone)| == 6 ==> forall i :: 2 <= i < 6 ==> IsLowerHex(UnitText(c, lone)[i])
  {}

  function ItemsOf(s: Text, i: nat): seq<G.StringItem>
    requires i <= |s|
    decreases |s| - i
  {
    if i == |s| then [] else [ItemOf(s[i], LoneSurrogate(s, i))] + ItemsOf(s, i + 1)
  }

  lemma {:induction false} EscapedReads(s: Text, i: nat)
    requires i <= |s|
    ensures G.ItemsOk(ItemsOf(s, i)) && G.BodyText(ItemsOf(s, i)) == Escaped(s, i) && G.Decoded(ItemsOf(s, i)) == s[i..]
    decreases |s| - i
  {
    if i < |s| {
      EscapedReads(s, i + 1);
      ItemReads(s[i], LoneSurrogate(s, i));
      var items := ItemsOf(s, i);
      assert items[1..] == ItemsOf(s, i + 1);
      assert s[i..] == [s[i]] + s[i + 1..];
    }
  }

  /** JSON.parse inverts JSON.stringify on every string, lone surrogates included. */
  lemma QuotedReads(s: Text)
    ensures T.JsonParseString(Quoted(s)) == Some(s)
  {
    hide G.BodyText, G.Decoded, Escaped, T.JsonParseString;
    var items := ItemsOf(s, 0);
    EscapedReads(s, 0);
    assert s[0..] == s;
    assert Quoted(s) == G.StringText(items);
    T.JsonParseStringExact(Quoted(s), s);
  }

  // ---------------------------------------------------------------- values

  /** The derivation reads as the value. */
  ghost predicate Reads(t: G.Value, v: Plain)
    decreases v, 1
  {
    match (t, v)
    case (StringV(items), Str(s)) => G.ItemsOk(items) && G.Decoded(items) == s
    case (NumberV(m), Int(n)) =>
      !m.minus && m.fraction == [] && m.exponent.NoExponent? && Canonical(m.whole) && ReadDecimal(m.whole) == n
    case (LiteralV(l), Bool(b)) => l == if b then G.True else G.False
    case (EmptyArray(_), Arr(items)) => items == []
    case (ArrayV(_, es), Arr(items)) => ReadsItems(es, items)
    case _ => false
  }

  ghost predicate ReadsItems(es: G.Elements, items: seq<Plain>)
    decreases items, 0
  {
    && items != [] && Reads(es.v, items[0])
    && if es.LastElement? then |items| == 1 else ReadsItems(es.rest, items[1..])
  }

  function TreeOf(v: Plain): G.Value
    decreases v, 1
  {
    match v
    case Str(s) => G.StringV(ItemsOf(s, 0))
    case Int(n) => G.NumberV(G.NumberToken(false, Decimal(n), [], G.NoExponent))
    case Bool(b) => G.LiteralV(if b then G.True else G.False)
    case Arr(items) => if items == [] then G.EmptyArray([]) else G.ArrayV([], ElementsOf(items))
  }

  function ElementsOf(items: seq<Plain>): G.Elements
    requires items != []
    decreases items, 0
  {
    if |items| == 1 then G.LastElement(TreeOf(items[0]), [])
    else G.MoreElements(TreeOf(items[0]), [], [], ElementsOf(items[1..]))
  }

  lemma {:induction false} TreeReads(v: Plain)
    ensures G.Derives(TreeOf(v)) && Reads(TreeOf(v), v) && G.ValueText(TreeOf(v)) == Stringify(v)
    decreases v, 1
  {
    hide G.BodyText, G.Decoded, Escaped, Decimal, ReadDecimal, Canonical;
    match v
    case Str(s) =>
      EscapedReads(s, 0);
      assert s[0..] == s;
      assert Quoted(s) == G.StringText(ItemsOf(s, 0));
    case Int(n) =>
      DecimalReads(n);
      assert G.NumberText(G.NumberToken(false, Decimal(n), [], G.NoExponent)) == Decimal(n);
    case Bool(b) =>
    case Arr(items) =>
      if items != [] {
        ElementsRead(items);
        assert [0x5B] + ([] + G.ElementsText(ElementsOf(items))) == [0x5B] + Items(items) + [0x5D];
      } else {
        assert Items(items) == [];
      }
  }

  lemma DecimalReads(n: nat)
    ensures Canonical(Decimal(n)) && ReadDecimal(Decimal(n)) == n
  {
    ReadBack(n);
  }

  lemma {:induction false} ElementsRead(items: seq<Plain>)
    requires items != []
    ensures G.DerivesElements(ElementsOf(items)) && ReadsItems(ElementsOf(items), items)
    ensures G.ElementsText(ElementsOf(items)) == Items(items) + [0x5D]
    decreases items, 0
  {
    hide G.ValueText, Stringify, TreeOf, Reads, G.Derives;
    TreeReads(items[0]);
    if |items| > 1 {
      ElementsRead(items[1..]);
      var text, rest := Stringify(items[0]), Items(items[1..]);
      assert text + ([] + ([0x2C] + ([] + (rest + [0x5D])))) == text + [0x2C] + rest + [0x5D];
    }
  }

  /** The text of every value is a JSON text that reads as the value. */
  lemma StringifyReads(v: Plain)
    ensures exists t :: G.JsonText(Stringify(v), [], t, []) && Reads(t, v)
  {
    TreeReads(v);
    var t := TreeOf(v);
    assert Stringify(v) == [] + (G.ValueText(t) + []);
    assert G.JsonText(Stringify(v), [], t, []);
  }

  // ---------------------------------------------------------------- the binding

  /** The value lists a Subtask: its id, Big Task, profile, contract and whether it writes. */
  predicate ListsSubtask(v: Plain, s: ProposedSubtask) {
    && v.Arr? && |v.items| == 5 && v.items[0] == Str(s.id) && v.items[1] == Str(s.bigTaskId)
    && v.items[2] == Str(match s.profile
                         case Low => Ascii("LOW")
                         case Standard => Ascii("STANDARD")
                         case HighRiskFoundation => Ascii("HIGH_RISK_FOUNDATION"))
    && v.items[3] == Str(s.taskContractRef) && v.items[4] == Bool(s.writeEnabled)
  }

  /** The value lists a dependency: its ends, type, gate and reason. */
  predicate ListsDependency(v: Plain, d: SubtaskDependency) {
    && v.Arr? && |v.items| == 5 && v.items[0] == Str(d.upstreamSubtaskId) && v.items[1] == Str(d.downstreamSubtaskId)
    && v.items[2] == Str(if d.Blocking? then Ascii("BLOCKING") else Ascii("INFORMATIONAL"))
    && v.items[3] == Str(if d.Informational? then Ascii("NONE") else if d.gate == Verified then Ascii("VERIFIED")
                         else if d.gate == Hardened then Ascii("HARDENED") else Ascii("ACCEPTED"))
    && v.items[4] == Str(d.reason)
  }

  /** The value lists a plan: the version, project, Big Task and revision, its Subtasks, and the given dependencies. */
  predicate ListsPlan(v: Plain, c: PlanCandidate, ds: seq<SubtaskDependency>) {
    && v.Arr? && |v.items| == 6 && v.items[0] == Str(Ascii("PLAN_CANDIDATE_BINDING_V1"))
    && v.items[1] == Str(c.projectId) && v.items[2] == Str(c.bigTaskId) && v.items[3] == Int(c.revision)
    && v.items[4].Arr? && |v.items[4].items| == |c.subtasks|
    && (forall i :: 0 <= i < |c.subtasks| ==> ListsSubtask(v.items[4].items[i], c.subtasks[i]))
    && v.items[5].Arr? && |v.items[5].items| == |ds|
    && (forall i :: 0 <= i < |ds| ==> ListsDependency(v.items[5].items[i], ds[i]))
  }

  /** The binding is a JSON text that reads as the list of the plan, with its dependencies in sorted order. */
  lemma BindingReads(c: PlanCandidate)
    ensures exists v, t ::
      G.JsonText(CreatePlanCandidateBinding(c), [], t, []) && Reads(t, v) && ListsPlan(v, c, SortDependencies(c.dependencies))
  {
    hide G.JsonText, Reads, Stringify, SortDependencies;
    var v := BindingValue(c);
    StringifyReads(v);
    PlanIsListed(c, SortDependencies(c.dependencies));
  }

  lemma PlanIsListed(c: PlanCandidate, ds: seq<SubtaskDependency>)
    ensures ListsPlan(Arr([Str(Ascii("PLAN_CANDIDATE_BINDING_V1")), Str(c.projectId), Str(c.bigTaskId), Int(c.revision),
                           PlainSubtasks(c.subtasks), PlainDependencies(ds)]), c, ds)
  {
    hide Ascii;
  }
}
