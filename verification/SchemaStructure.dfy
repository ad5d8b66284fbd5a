/** packages/codex-adapter/src/c-lite-compatibility.ts: the depth and size limits of a schema document. */
module SchemaStructure {
  import opened Options
  import opened CodeUnits
  import opened Decimals
  import opened JsonValue

  predicate IsContainer(v: Json) { v.Arr? || v.Obj? }

  /** The paths to the arrays and objects of a value, itself included. */
  ghost function ContainerPaths(root: Json): set<seq<Text>> {
    set p | p in Paths(root) && Walk(root, p).Some? && IsContainer(Walk(root, p).value)
  }

  ghost predicate WithinLimits(root: Json, maxDepth: nat, maxContainers: nat) {
    |ContainerPaths(root)| <= maxContainers && forall p :: p in ContainerPaths(root) ==> |p| <= maxDepth
  }

  lemma ContainerPathMeans(root: Json, p: seq<Text>)
    ensures p in ContainerPaths(root) <==> Walk(root, p).Some? && IsContainer(Walk(root, p).value)
  {
    if Walk(root, p).Some? {
      WalkStaysInPaths(root, p);
    }
  }

  lemma WalkStep(root: Json, p: seq<Text>, s: Text)
    requires Walk(root, p).Some?
    ensures Walk(root, p + [s]) == Child(Walk(root, p).value, s)
  {
    WalkConcat(root, p, [s]);
    var v := Walk(root, p).value;
    if Child(v, s).Some? {
      assert [s][1..] == [];
    }
  }

  /** The members of the container at a path, each reached by one more segment. */
  ghost predicate Opens(value: Json, members: seq<Json>, segments: seq<Text>) {
    && |segments| == |members|
    && (forall i :: 0 <= i < |members| ==> Child(value, segments[i]) == Some(members[i]) && IsContainer(members[i]))
    && (forall i, j :: 0 <= i < j < |segments| ==> segments[i] != segments[j])
    && (forall s :: Child(value, s).Some? && IsContainer(Child(value, s).value) ==> s in segments)
  }

  lemma IndexIsAChild(value: Json, i: nat)
    requires value.Arr? && i < |value.items|
    ensures Child(value, Decimal(i)) == Some(value.items[i])
  {
    ReadBack(i);
  }

  /** Where the container items of an array stand. */
  ghost predicate ItemsAt(items: seq<Json>, n: nat, members: seq<Json>, at: seq<nat>) {
    && n <= |items| && |at| == |members|
    && (forall k :: 0 <= k < |at| ==> at[k] < n && members[k] == items[at[k]] && IsContainer(members[k]))
    && (forall k, l :: 0 <= k < l < |at| ==> at[k] < at[l])
    && (forall j :: 0 <= j < n && IsContainer(items[j]) ==> j in at)
  }

  method ContainerItems(items: seq<Json>) returns (members: seq<Json>, ghost at: seq<nat>)
    ensures ItemsAt(items, |items|, members, at)
  {
    members, at := [], [];
    for i := 0 to |items|
      invariant ItemsAt(items, i, members, at)
    {
      if IsContainer(items[i]) {
        members := members + [items[i]];
        at := at + [i];
      }
    }
  }

  ghost function Segments(at: seq<nat>): (r: seq<Text>)
    ensures |r| == |at| && forall k :: 0 <= k < |r| ==> r[k] == Decimal(at[k])
  {
    seq(|at|, k requires 0 <= k < |at| => Decimal(at[k]))
  }

  lemma ItemsOpen(value: Json, members: seq<Json>, at: seq<nat>)
    requires value.Arr? && ItemsAt(value.items, |value.items|, members, at)
    ensures Opens(value, members, Segments(at))
  {
    hide Decimal, ReadDecimal;
    var segments := Segments(at);
    forall i | 0 <= i < |members| ensures Child(value, segments[i]) == Some(members[i]) {
      IndexIsAChild(value, at[i]);
    }
    forall i, j | 0 <= i < j < |segments| ensures segments[i] != segments[j] {
      ReadBack(at[i]);
      ReadBack(at[j]);
    }
    forall s | Child(value, s).Some? && IsContainer(Child(value, s).value) ensures s in segments {
      CanonicalIsPrinted(s);
      var k :| 0 <= k < |at| && at[k] == ReadDecimal(s);
      assert segments[k] == s;
    }
  }

  method ContainerValues(fields: map<Text, Json>) returns (members: seq<Json>, ghost keys: seq<Text>)
    ensures Opens(Obj(fields), members, keys)
  {
    members, keys := [], [];
    var todo := fields.Keys;
    while todo != {}
      invariant todo <= fields.Keys && |keys| == |members|
      invariant forall k :: 0 <= k < |keys| ==> keys[k] in fields.Keys - todo && fields[keys[k]] == members[k]
      invariant forall k :: 0 <= k < |keys| ==> IsContainer(members[k])
      invariant forall k, l :: 0 <= k < l < |keys| ==> keys[k] != keys[l]
      invariant forall s :: s in fields.Keys - todo && IsContainer(fields[s]) ==> s in keys
      decreases |todo|
    {
      var key :| key in todo;
      todo := todo - {key};
      if IsContainer(fields[key]) {
        members := members + [fields[key]];
        keys := keys + [key];
      }
    }
  }

  /** The containers among the members of a container, with the path segments that lead to them. */
  method ContainerMembers(value: Json) returns (members: seq<Json>, ghost segments: seq<Text>)
    requires IsContainer(value)
    ensures Opens(value, members, segments)
  {
    hide Opens;
    if value.Arr? {
      ghost var at;
      members, at := ContainerItems(value.items);
      segments := Segments(at);
      ItemsOpen(value, members, at);
    } else {
      members, segments := ContainerValues(value.fields);
    }
  }

  datatype Pending = Pending(depth: nat, value: Json)

  function Deeper(depth: nat, members: seq<Json>): (r: seq<Pending>)
    ensures |r| == |members| && forall i :: 0 <= i < |r| ==> r[i] == Pending(depth + 1, members[i])
  {
    seq(|members|, i requires 0 <= i < |members| => Pending(depth + 1, members[i]))
  }

  ghost function Extend(path: seq<Text>, segments: seq<Text>): (r: seq<seq<Text>>)
    ensures |r| == |segments| && forall i :: 0 <= i < |r| ==> r[i] == path + [segments[i]]
  {
    seq(|segments|, i requires 0 <= i < |segments| => path + [segments[i]])
  }

  ghost predicate Located(root: Json, pending: seq<Pending>, paths: seq<seq<Text>>) {
    |paths| == |pending| &&
    forall i :: 0 <= i < |pending| ==>
      Walk(root, paths[i]) == Some(pending[i].value) && IsContainer(pending[i].value) && pending[i].depth == |paths[i]|
  }

  ghost predicate Antichain(paths: seq<seq<Text>>) {
    forall i, j :: 0 <= i < |paths| && 0 <= j < |paths| && i != j ==> !(paths[i] <= paths[j])
  }

  ghost predicate Unvisited(paths: seq<seq<Text>>, visited: set<seq<Text>>) {
    forall i, v :: 0 <= i < |paths| && v in visited ==> !(paths[i] <= v)
  }

  ghost predicate Covering(root: Json, paths: seq<seq<Text>>, visited: set<seq<Text>>) {
    forall p :: p in ContainerPaths(root) && p !in visited ==> exists i :: 0 <= i < |paths| && paths[i] <= p
  }

  ghost predicate Frontier(root: Json, pending: seq<Pending>, paths: seq<seq<Text>>, visited: set<seq<Text>>) {
    Located(root, pending, paths) && visited <= ContainerPaths(root) &&
    Antichain(paths) && Unvisited(paths, visited) && Covering(root, paths, visited)
  }

  lemma ExtendedPrefix(path: seq<Text>, s: Text, other: seq<Text>)
    ensures path + [s] <= other <==> path < other && other[|path|] == s
    ensures other <= path + [s] <==> other <= path || other == path + [s]
  {
    if other <= path + [s] && other != path + [s] {
      assert other == (path + [s])[..|other|] == path[..|other|];
    }
    if path < other && other[|path|] == s {
      assert other[..|path| + 1] == path + [s];
    }
  }

  lemma LocatedMoves(root: Json, pending: seq<Pending>, paths: seq<seq<Text>>, members: seq<Json>, segments: seq<Text>)
    requires Located(root, pending, paths) && pending != [] && Opens(pending[|pending| - 1].value, members, segments)
    ensures var path := paths[|paths| - 1];
      Located(root, pending[..|pending| - 1] + Deeper(pending[|pending| - 1].depth, members),
              paths[..|paths| - 1] + Extend(path, segments))
  {
    var path := paths[|paths| - 1];
    forall i | 0 <= i < |members| ensures Walk(root, path + [segments[i]]) == Some(members[i]) {
      WalkStep(root, path, segments[i]);
    }
  }

  lemma AntichainMoves(paths: seq<seq<Text>>, segments: seq<Text>)
    requires Antichain(paths) && paths != []
    requires forall i, j :: 0 <= i < j < |segments| ==> segments[i] != segments[j]
    ensures Antichain(paths[..|paths| - 1] + Extend(paths[|paths| - 1], segments))
  {
    var n := |paths| - 1;
    var path := paths[n];
    var moved := paths[..n] + Extend(path, segments);
    forall i, j | 0 <= i < |moved| && 0 <= j < |moved| && i != j ensures !(moved[i] <= moved[j]) {
      if i >= n { ExtendedPrefix(path, segments[i - n], moved[j]); }
      if j >= n { ExtendedPrefix(path, segments[j - n], moved[i]); }
      if i < n { assert !(paths[i] <= path) && !(path <= paths[i]); }
      if j < n { assert !(paths[j] <= path) && !(path <= paths[j]); }
    }
  }

  lemma UnvisitedMoves(paths: seq<seq<Text>>, visited: set<seq<Text>>, segments: seq<Text>)
    requires Antichain(paths) && Unvisited(paths, visited) && paths != []
    ensures Unvisited(paths[..|paths| - 1] + Extend(paths[|paths| - 1], segments), visited + {paths[|paths| - 1]})
  {
    var n := |paths| - 1;
    var path := paths[n];
    var moved := paths[..n] + Extend(path, segments);
    forall i, v | 0 <= i < |moved| && v in visited + {path} ensures !(moved[i] <= v) {
      if i >= n { ExtendedPrefix(path, segments[i - n], v); } else { assert !(paths[i] <= path); }
    }
  }

  /** A container strictly below another is at or below one of its container members. */
  lemma BelowAMember(root: Json, path: seq<Text>, p: seq<Text>)
    requires p in ContainerPaths(root) && path < p
    ensures Walk(root, path).Some?
    ensures var v := Walk(root, path).value; Child(v, p[|path|]).Some? && IsContainer(Child(v, p[|path|]).value)
  {
    var step, rest := p[..|path| + 1], p[|path| + 1..];
    assert p == step + rest && step == path + [p[|path|]];
    WalkConcat(root, step, rest);
    WalkConcat(root, path, [p[|path|]]);
    WalkStep(root, path, p[|path|]);
    if rest != [] {
      assert Child(Walk(root, step).value, rest[0]).Some?;
    }
  }

  lemma CoveringMoves(root: Json, pending: seq<Pending>, paths: seq<seq<Text>>, visited: set<seq<Text>>,
                      members: seq<Json>, segments: seq<Text>)
    requires Located(root, pending, paths) && Covering(root, paths, visited)
    requires pending != [] && Opens(pending[|pending| - 1].value, members, segments)
    ensures Covering(root, paths[..|paths| - 1] + Extend(paths[|paths| - 1], segments), visited + {paths[|paths| - 1]})
  {
    hide ContainerPaths;
    var n := |paths| - 1;
    var path := paths[n];
    var moved := paths[..n] + Extend(path, segments);
    forall p | p in ContainerPaths(root) && p !in visited + {path} ensures exists i :: 0 <= i < |moved| && moved[i] <= p {
      var i :| 0 <= i < |paths| && paths[i] <= p;
      if i < n {
        assert moved[i] <= p;
      } else {
        assert p == path + p[|path|..] && (p[|path|..] == [] ==> p == path);
        BelowAMember(root, path, p);
        var k :| 0 <= k < |segments| && segments[k] == p[|path|];
        ExtendedPrefix(path, segments[k], p);
        assert moved[n + k] <= p;
      }
    }
  }

  /** Replacing the top of the stack by its container members keeps the frontier. */
  lemma FrontierMoves(root: Json, pending: seq<Pending>, paths: seq<seq<Text>>, visited: set<seq<Text>>,
                      members: seq<Json>, segments: seq<Text>)
    requires Frontier(root, pending, paths, visited) && pending != [] && Opens(pending[|pending| - 1].value, members, segments)
    ensures var path := paths[|paths| - 1];
      Frontier(root, pending[..|pending| - 1] + Deeper(pending[|pending| - 1].depth, members),
               paths[..|paths| - 1] + Extend(path, segments), visited + {path})
  {
    LocatedMoves(root, pending, paths, members, segments);
    AntichainMoves(paths, segments);
    UnvisitedMoves(paths, visited, segments);
    CoveringMoves(root, pending, paths, visited, members, segments);
    ContainerPathMeans(root, paths[|paths| - 1]);
  }

  lemma TopOfFrontier(root: Json, pending: seq<Pending>, paths: seq<seq<Text>>, visited: set<seq<Text>>)
    requires Frontier(root, pending, paths, visited) && pending != []
    ensures |paths| == |pending| && |paths[|paths| - 1]| == pending[|pending| - 1].depth
    ensures paths[|paths| - 1] in ContainerPaths(root) - visited && visited <= ContainerPaths(root)
    ensures IsContainer(pending[|pending| - 1].value)
  {
    ContainerPathMeans(root, paths[|paths| - 1]);
  }

  lemma EmptyFrontier(root: Json, paths: seq<seq<Text>>, visited: set<seq<Text>>)
    requires Frontier(root, [], paths, visited)
    ensures visited == ContainerPaths(root)
  {}

  lemma FirstFrontier(root: Json)
    requires IsContainer(root)
    ensures Frontier(root, [Pending(0, root)], [[]], {})
  {
    var paths: seq<seq<Text>> := [[]];
    forall p | p in ContainerPaths(root) ensures paths[0] <= p {}
  }

  lemma SubsetIsSmaller<T>(a: set<T>, b: set<T>)
    requires a <= b
    ensures |a| <= |b|
  {
    assert b == a + (b - a);
  }

  /** assertBoundedSchemaStructure: false where it throws. */
  method AssertBoundedSchemaStructure(root: Json, maxSchemaDepth: nat, maxSchemaContainers: nat) returns (ok: bool)
    requires root.Obj?
    ensures ok <==> WithinLimits(root, maxSchemaDepth, maxSchemaContainers)
  {
    hide Frontier, ContainerPaths;
    var pending := [Pending(0, root)];
    ghost var paths: seq<seq<Text>> := [[]];
    ghost var visited: set<seq<Text>> := {};
    FirstFrontier(root);
    var containers := 0;
    while pending != []
      invariant Frontier(root, pending, paths, visited)
      invariant containers == |visited| <= maxSchemaContainers
      invariant forall v :: v in visited ==> |v| <= maxSchemaDepth
      decreases ContainerPaths(root) - visited
    {
      TopOfFrontier(root, pending, paths, visited);
      var current := pending[|pending| - 1];
      ghost var path := paths[|paths| - 1];
      if current.depth > maxSchemaDepth {
        return false;
      }
      containers := containers + 1;
      if containers > maxSchemaContainers {
        SubsetIsSmaller(visited + {path}, ContainerPaths(root));
        return false;
      }
      var members, segments := ContainerMembers(current.value);
      FrontierMoves(root, pending, paths, visited, members, segments);
      visited := visited + {path};
      paths := paths[..|paths| - 1] + Extend(path, segments);
      pending := pending[..|pending| - 1] + Deeper(current.depth, members);
    }
    EmptyFrontier(root, paths, visited);
    return true;
  }
}
