/** Import cycles: the colouring depth-first search of internal/knowledge/discover.go. */
module Cycles {
  import opened Bytes

  datatype Edge = Edge(fromPath: Text, toPath: Text, broken: bool)
  datatype Color = White | Gray | Black

  type Graph = map<Text, seq<Text>>

  predicate Succ(graph: Graph, u: Text, v: Text) {
    u in graph && v in graph[u]
  }

  /** An import that counts: an edge that is not broken. */
  ghost predicate Linked(edges: seq<Edge>, u: Text, v: Text) {
    exists e :: e in edges && !e.broken && e.fromPath == u && e.toPath == v
  }

  ghost predicate IsGraphOf(graph: Graph, edges: seq<Edge>) {
    forall u, v :: Succ(graph, u, v) <==> Linked(edges, u, v)
  }

  /** Consecutive nodes are joined by an edge. */
  ghost predicate IsWalk(graph: Graph, p: seq<Text>) {
    forall i :: 0 <= i < |p| - 1 ==> Succ(graph, p[i], p[i + 1])
  }

  ghost predicate IsClosedWalk(graph: Graph, p: seq<Text>) {
    |p| >= 2 && p[0] == p[|p| - 1] && IsWalk(graph, p)
  }

  /** Imports that lead from a file back to itself. */
  ghost predicate ImportCycle(edges: seq<Edge>, p: seq<Text>) {
    |p| >= 2 && p[0] == p[|p| - 1] && forall i :: 0 <= i < |p| - 1 ==> Linked(edges, p[i], p[i + 1])
  }

  ghost predicate ShareAnEdge(p: seq<Text>, c: seq<Text>) {
    exists i, j :: 0 <= i < |p| - 1 && 0 <= j < |c| - 1 && p[i] == c[j] && p[i + 1] == c[j + 1]
  }

  ghost predicate Distinct(s: seq<Text>) {
    forall i, j :: 0 <= i < j < |s| ==> s[i] != s[j]
  }

  /** A cycle without the repetition of its first node at the end. */
  function Core(p: seq<Text>): (core: seq<Text>)
    requires |p| >= 2
  {
    p[..|p| - 1]
  }

  ghost predicate IsSimpleCycle(graph: Graph, p: seq<Text>) {
    IsClosedWalk(graph, p) && Distinct(Core(p))
  }

  ghost predicate SimpleImportCycle(edges: seq<Edge>, p: seq<Text>) {
    ImportCycle(edges, p) && Distinct(Core(p))
  }

  function Rotate(s: seq<Text>, k: nat): (r: seq<Text>)
    requires k <= |s|
  {
    s[k..] + s[..k]
  }

  ghost predicate AreRotations(a: seq<Text>, b: seq<Text>) {
    exists k :: 0 <= k <= |a| && b == Rotate(a, k)
  }

  // ---------------------------------------------------------------- keys

  const SEPARATOR: byte := 62

  function Join(parts: seq<Text>): (t: Text) {
    if parts == [] then []
    else if |parts| == 1 then parts[0]
    else parts[0] + [SEPARATOR] + Join(parts[1..])
  }

  /** `m` is the first place of the least element. */
  ghost predicate IsFirstLeast(s: seq<Text>, m: nat) {
    && m < |s|
    && (forall i :: 0 <= i < |s| ==> !Less(s[i], s[m]))
    && (forall i :: 0 <= i < m ==> s[i] != s[m])
  }

  lemma FirstLeastUnique(s: seq<Text>, m: nat, n: nat)
    requires IsFirstLeast(s, m) && IsFirstLeast(s, n)
    ensures m == n
  {
    LessTotal(s[m], s[n]);
  }

  /** `key` names the cycle `p` by the rotation of its core that starts at the least node. */
  ghost predicate IsKey(p: seq<Text>, key: Text) {
    |p| >= 2 && exists m :: IsFirstLeast(Core(p), m) && key == Join(Rotate(Core(p), m))
  }

  method CycleKey(paths: seq<Text>) returns (key: Text)
    ensures |paths| < 2 ==> key == Join(paths)
    ensures |paths| >= 2 ==> IsKey(paths, key)
  {
    if |paths| < 2 { return Join(paths); }
    var core := paths[..|paths| - 1];
    var minI := 0;
    LessIrreflexive(core[0]);
    for i := 1 to |core|
      invariant 0 <= minI < i
      invariant forall j :: 0 <= j < i ==> !Less(core[j], core[minI])
      invariant forall j :: 0 <= j < minI ==> core[j] != core[minI]
    {
      if Less(core[i], core[minI]) {
        LessIrreflexive(core[i]);
        forall j | 0 <= j < i ensures !Less(core[j], core[i]) && core[j] != core[i] {
          if Less(core[j], core[i]) { LessTransitive(core[j], core[i], core[minI]); }
        }
        minI := i;
      }
    }
    assert core == Core(paths) && IsFirstLeast(core, minI);
    key := Join(Rotate(core, minI));
  }

  /** Rotating a rotation is one rotation. */
  lemma RotateTwice(s: seq<Text>, k: nat, n: nat) returns (m: nat)
    requires k <= |s| && n <= |s|
    ensures m <= |s| && (n < |s| ==> m < |s|) && Rotate(Rotate(s, k), n) == Rotate(s, m)
    ensures n < |s| ==> Rotate(s, k)[n] == s[m]
    ensures n == |s| - k ==> Rotate(s, m) == s
  {
    var r := Rotate(s, k);
    if k + n < |s| {
      m := k + n;
      assert r[n..] == s[m..] + s[..k] && r[..n] == s[k..m];
      assert s[..m] == s[..k] + s[k..m];
    } else {
      m := k + n - |s|;
      assert r[n..] == s[m..k] && r[..n] == s[k..] + s[..m];
      assert s[m..] == s[m..k] + s[k..];
    }
  }

  lemma RotationHasTheElements(s: seq<Text>, k: nat)
    requires k <= |s|
    ensures |Rotate(s, k)| == |s| && forall x :: x in s ==> x in Rotate(s, k)
  {
    assert s == s[..k] + s[k..];
  }

  lemma RotationsOfOne(a: seq<Text>, b: seq<Text>, c: seq<Text>)
    requires AreRotations(a, c) && AreRotations(b, c)
    ensures AreRotations(a, b)
  {
    var k: nat :| 0 <= k <= |a| && c == Rotate(a, k);
    var n: nat :| 0 <= n <= |b| && c == Rotate(b, n);
    RotationHasTheElements(a, k);
    RotationHasTheElements(b, n);
    var back := RotateTwice(b, n, |b| - n);
    var m := RotateTwice(a, k, |b| - n);
    assert b == Rotate(a, m);
  }

  /** The least element of a rotation starts the same rotation as that of the original. */
  lemma RotationStartsAtTheSameLeast(a: seq<Text>, k: nat, m: nat, n: nat)
    requires Distinct(a) && k <= |a| && IsFirstLeast(a, m) && IsFirstLeast(Rotate(a, k), n)
    ensures Rotate(Rotate(a, k), n) == Rotate(a, m)
  {
    RotationHasTheElements(a, k);
    var j := RotateTwice(a, k, n);
    forall i | 0 <= i < |a| ensures !Less(a[i], a[j]) {
      assert a[i] in Rotate(a, k);
    }
    FirstLeastUnique(a, m, j);
  }

  /** Rotations of one simple cycle are named by the same key. */
  lemma RotationsShareTheKey(p: seq<Text>, q: seq<Text>, keyP: Text, keyQ: Text)
    requires IsKey(p, keyP) && IsKey(q, keyQ) && Distinct(Core(p))
    requires AreRotations(Core(p), Core(q))
    ensures keyP == keyQ
  {
    var a, b := Core(p), Core(q);
    var k :| 0 <= k <= |a| && b == Rotate(a, k);
    var m: nat :| IsFirstLeast(a, m) && keyP == Join(Rotate(a, m));
    var n: nat :| IsFirstLeast(b, n) && keyQ == Join(Rotate(b, n));
    RotationStartsAtTheSameLeast(a, k, m, n);
  }

  ghost predicate Plain(s: seq<Text>) {
    forall t :: t in s ==> SEPARATOR !in t
  }

  /** Without the separator inside a name, a joined list can be taken apart again. */
  lemma {:induction false} JoinInjective(a: seq<Text>, b: seq<Text>)
    requires Plain(a) && Plain(b) && a != [] && b != []
    requires Join(a) == Join(b)
    ensures a == b
  {
    var x, y := a[0], b[0];
    assert Join(a)[..|x|] == x && Join(b)[..|y|] == y;
    assert |a| > 1 ==> Join(a)[|x|] == SEPARATOR;
    assert |b| > 1 ==> Join(b)[|y|] == SEPARATOR;
    assert x in a && y in b;
    assert forall i :: 0 <= i < |x| ==> Join(a)[i] != SEPARATOR;
    assert forall i :: 0 <= i < |y| ==> Join(b)[i] != SEPARATOR;
    assert |Join(a)| == |x| <==> |a| == 1;
    assert |Join(b)| == |y| <==> |b| == 1;
    if |x| == |y| {
      assert x == y;
      if |a| > 1 && |b| > 1 {
        assert Join(a)[|x| + 1..] == Join(a[1..]);
        assert Join(b)[|y| + 1..] == Join(b[1..]);
        JoinInjective(a[1..], b[1..]);
      }
      assert a == [x] + a[1..] && b == [y] + b[1..];
    }
  }

  /** Equal keys mean equal cycles up to rotation, as long as no path holds the separator. */
  lemma SameKeyIsRotation(p: seq<Text>, q: seq<Text>, key: Text)
    requires IsKey(p, key) && IsKey(q, key) && Plain(p) && Plain(q)
    ensures AreRotations(Core(p), Core(q))
  {
    var a, b := Core(p), Core(q);
    var m: nat :| IsFirstLeast(a, m) && key == Join(Rotate(a, m));
    var n: nat :| IsFirstLeast(b, n) && key == Join(Rotate(b, n));
    var r, t := Rotate(a, m), Rotate(b, n);
    assert Plain(r) && Plain(t);
    JoinInjective(r, t);
    assert AreRotations(a, r) && AreRotations(b, r);
    RotationsOfOne(a, b, r);
  }

  /** Two cycles that are not the same cycle started elsewhere, but have the same key. */
  ghost predicate Collide(p: seq<Text>, q: seq<Text>) {
    |p| >= 2 && |q| >= 2 && !AreRotations(Core(p), Core(q)) && exists key :: IsKey(p, key) && IsKey(q, key)
  }

  // -------------------------------------------------------------- search

  /** The graph of the edges that are not broken. */
  method BuildGraph(edges: seq<Edge>) returns (graph: Graph)
    ensures IsGraphOf(graph, edges)
    ensures forall u :: u in graph ==> graph[u] != []
  {
    graph := map[];
    for i := 0 to |edges|
      invariant IsGraphOf(graph, edges[..i])
      invariant forall u :: u in graph ==> graph[u] != []
    {
      var e := edges[i];
      assert edges[..i + 1] == edges[..i] + [e];
      ghost var before := graph;
      if !e.broken {
        graph := graph[e.fromPath := (if e.fromPath in graph then graph[e.fromPath] else []) + [e.toPath]];
        forall u, v ensures Succ(graph, u, v) <==> Linked(edges[..i + 1], u, v) {
          assert Succ(graph, u, v) <==> Succ(before, u, v) || (u == e.fromPath && v == e.toPath);
          if u == e.fromPath && v == e.toPath { assert e in edges[..i + 1]; }
          if Succ(before, u, v) {
            var d :| d in edges[..i] && !d.broken && d.fromPath == u && d.toPath == v;
            assert d in edges[..i + 1];
          }
        }
      } else {
        forall u, v ensures Succ(graph, u, v) <==> Linked(edges[..i + 1], u, v) {
          if Succ(before, u, v) {
            var d :| d in edges[..i] && !d.broken && d.fromPath == u && d.toPath == v;
            assert d in edges[..i + 1];
          }
        }
      }
    }
    assert edges[..|edges|] == edges;
  }

  ghost predicate IsClosedTail(stack: seq<Text>, to: Text, paths: seq<Text>) {
    exists i :: 0 <= i < |stack| && stack[i] == to && to !in stack[..i] && paths == stack[i..] + [to]
  }

  /** The part of the stack from `to` on, closed up with `to` again. */
  method CycleFromStack(stack: seq<Text>, to: Text) returns (paths: seq<Text>)
    ensures to !in stack ==> paths == stack + [to]
    ensures to in stack ==> IsClosedTail(stack, to, paths)
  {
    paths := [];
    for i := 0 to |stack|
      invariant paths == [] && to !in stack[..i]
    {
      if stack[i] == to {
        paths := stack[i..];
        assert paths + [to] == stack[i..] + [to];
        break;
      }
      assert stack[..i + 1] == stack[..i] + [stack[i]];
    }
    assert stack[..|stack|] == stack;
    if |paths| == 0 {
      paths := stack;
    }
    paths := paths + [to];
  }

  /** No two of the reported cycles are the same cycle started elsewhere. */
  ghost predicate NoRotations(cycles: seq<seq<Text>>) {
    forall i, j :: 0 <= i < j < |cycles| && |cycles[i]| >= 2 && |cycles[j]| >= 2 ==>
      !AreRotations(Core(cycles[i]), Core(cycles[j]))
  }

  /** No key is reported twice. */
  ghost predicate KeysApart(cycles: seq<seq<Text>>) {
    forall i, j, key :: 0 <= i < j < |cycles| && IsKey(cycles[i], key) ==> !IsKey(cycles[j], key)
  }

  /** The edge from `u` to `v` closes one of the cycles found. */
  ghost predicate Closes(found: seq<seq<Text>>, u: Text, v: Text) {
    exists f :: f in found && |f| >= 2 && f[|f| - 2] == u && f[|f| - 1] == v
  }

  /** A node is listed after everything it links to, but for the edges that close a cycle. */
  ghost predicate Ordered(graph: Graph, finish: seq<Text>, found: seq<seq<Text>>) {
    forall i, v :: 0 <= i < |finish| && Succ(graph, finish[i], v) ==>
      v in finish[..i] || Closes(found, finish[i], v)
  }

  /** Every cycle of the graph goes through an edge that closes a cycle found. */
  lemma EveryCycleIsMet(graph: Graph, finish: seq<Text>, found: seq<seq<Text>>, p: seq<Text>)
    requires Ordered(graph, finish, found) && forall u :: u in graph ==> u in finish
    requires IsClosedWalk(graph, p)
    ensures exists i :: 0 <= i < |p| - 1 && Closes(found, p[i], p[i + 1])
  {
    if forall i :: 0 <= i < |p| - 1 ==> !Closes(found, p[i], p[i + 1]) {
      assert Succ(graph, p[0], p[1]);
      FirstPlace(finish, p[0]);
      var first :| 0 <= first < |finish| && finish[first] == p[0] && p[0] !in finish[..first];
      WalkGoesDown(graph, finish, found, p, first, |p| - 1);
    }
  }

  lemma {:induction false} FirstPlace(s: seq<Text>, x: Text)
    requires x in s
    ensures exists i :: 0 <= i < |s| && s[i] == x && x !in s[..i]
  {
    if s[0] == x {
      assert x !in s[..0];
    } else {
      FirstPlace(s[1..], x);
      var i :| 0 <= i < |s| - 1 && s[1..][i] == x && x !in s[1..][..i];
      assert s[..i + 1] == [s[0]] + s[1..][..i];
      assert s[i + 1] == x;
    }
  }

  lemma {:induction false} WalkGoesDown(graph: Graph, finish: seq<Text>, found: seq<seq<Text>>, p: seq<Text>, first: nat, k: nat)
    requires Ordered(graph, finish, found) && IsWalk(graph, p)
    requires forall i :: 0 <= i < |p| - 1 ==> !Closes(found, p[i], p[i + 1])
    requires 0 < k < |p| && first < |finish| && finish[first] == p[0]
    ensures p[k] in finish[..first]
  {
    if k == 1 {
      assert Succ(graph, p[0], p[1]);
    } else {
      WalkGoesDown(graph, finish, found, p, first, k - 1);
      assert Succ(graph, p[k - 1], p[k]);
      var j :| 0 <= j < first && finish[j] == p[k - 1];
      assert p[k] in finish[..j];
      assert finish[..j] <= finish[..first];
    }
  }

  function ColorOf(color: map<Text, Color>, n: Text): Color {
    if n in color then color[n] else White
  }

  ghost function Whites(universe: set<Text>, color: map<Text, Color>): set<Text> {
    set n | n in universe && ColorOf(color, n) == White
  }

  /** The gray nodes are the stack, which is a walk, and the black ones have finished. */
  ghost predicate Colored(graph: Graph, universe: set<Text>, color: map<Text, Color>, stack: seq<Text>, finish: seq<Text>) {
    && (forall u, v :: Succ(graph, u, v) ==> u in universe && v in universe)
    && (forall n :: ColorOf(color, n) == Gray <==> n in stack)
    && (forall n :: ColorOf(color, n) == Black <==> n in finish)
    && Distinct(stack) && IsWalk(graph, stack)
  }

  lemma EnterKeepsColored(graph: Graph, universe: set<Text>, color: map<Text, Color>, stack: seq<Text>, finish: seq<Text>, n: Text)
    requires Colored(graph, universe, color, stack, finish) && n in universe && ColorOf(color, n) == White
    requires stack != [] ==> Succ(graph, stack[|stack| - 1], n)
    ensures Colored(graph, universe, color[n := Gray], stack + [n], finish)
    ensures Whites(universe, color[n := Gray]) == Whites(universe, color) - {n}
  {
    var s := stack + [n];
    forall i | 0 <= i < |s| - 1 ensures Succ(graph, s[i], s[i + 1]) {
      if i < |stack| - 1 { assert Succ(graph, stack[i], stack[i + 1]); }
    }
  }

  lemma LeaveKeepsColored(graph: Graph, universe: set<Text>, color: map<Text, Color>, rest: seq<Text>, finish: seq<Text>, n: Text)
    requires Colored(graph, universe, color, rest + [n], finish)
    ensures Colored(graph, universe, color[n := Black], rest, finish + [n])
    ensures Whites(universe, color[n := Black]) == Whites(universe, color)
  {
    var s := rest + [n];
    assert s[|rest|] == n;
    forall i | 0 <= i < |rest| ensures rest[i] != n && (i < |rest| - 1 ==> Succ(graph, rest[i], rest[i + 1])) {
      assert s[i] == rest[i];
      if i < |rest| - 1 { assert Succ(graph, s[i], s[i + 1]); }
    }
    forall i, j | 0 <= i < j < |rest| ensures rest[i] != rest[j] {
      assert s[i] != s[j];
    }
    forall x ensures ColorOf(color[n := Black], x) == Gray <==> x in rest {
      assert x in s <==> x in rest || x == n;
    }
  }

  /** The reported cycles are simple, no rotations of each other, and each cycle found has its key
      among theirs. */
  ghost predicate Recorded(graph: Graph, cycles: seq<seq<Text>>, seen: set<Text>, found: seq<seq<Text>>) {
    && (forall c :: c in cycles ==> IsSimpleCycle(graph, c))
    && (forall c :: c in found ==> IsSimpleCycle(graph, c))
    && (forall c, key :: c in cycles && IsKey(c, key) ==> key in seen)
    && (forall key :: key in seen ==> exists c :: c in cycles && IsKey(c, key))
    && NoRotations(cycles) && KeysApart(cycles)
    && (forall c :: c in cycles ==> c in found)
    && (forall f, key :: f in found && IsKey(f, key) ==> key in seen)
    && (found != [] ==> cycles != [])
  }

  lemma RecordKnown(graph: Graph, cycles: seq<seq<Text>>, seen: set<Text>, found: seq<seq<Text>>, cyc: seq<Text>, key: Text)
    requires Recorded(graph, cycles, seen, found) && IsSimpleCycle(graph, cyc) && IsKey(cyc, key) && key in seen
    ensures Recorded(graph, cycles, seen, found + [cyc])
  {
    KeyIsUnique(cyc, key);
    assert cycles != [] by {
      var c :| c in cycles && IsKey(c, key);
    }
  }

  /** A cycle with a key not seen before is no rotation of a reported one. */
  lemma RecordNew(graph: Graph, cycles: seq<seq<Text>>, seen: set<Text>, found: seq<seq<Text>>, cyc: seq<Text>, key: Text)
    requires Recorded(graph, cycles, seen, found) && IsSimpleCycle(graph, cyc) && IsKey(cyc, key) && key !in seen
    ensures Recorded(graph, cycles + [cyc], seen + {key}, found + [cyc])
  {
    KeyIsUnique(cyc, key);
    forall i | 0 <= i < |cycles| && |cycles[i]| >= 2 ensures !AreRotations(Core(cycles[i]), Core(cyc)) {
      assert cycles[i] in cycles;
      if AreRotations(Core(cycles[i]), Core(cyc)) {
        var other := KeyOf(cycles[i]);
        RotationsShareTheKey(cycles[i], cyc, other, key);
      }
    }
    var more := cycles + [cyc];
    forall i, j, k | 0 <= i < j < |more| && IsKey(more[i], k) ensures !IsKey(more[j], k) {
      assert more[i] == cycles[i] && cycles[i] in cycles;
    }
    forall k | k in seen + {key} ensures exists c :: c in more && IsKey(c, k) {
      if k in seen {
        var c :| c in cycles && IsKey(c, k);
        assert c in more;
      } else {
        assert cyc in more;
      }
    }
  }

  /** The part of a stack that an edge back into it closes. */
  lemma ClosesACycle(graph: Graph, stack: seq<Text>, cyc: seq<Text>, to: Text)
    requires Distinct(stack) && IsWalk(graph, stack) && stack != [] && Succ(graph, stack[|stack| - 1], to)
    requires IsClosedTail(stack, to, cyc)
    ensures IsSimpleCycle(graph, cyc) && cyc[|cyc| - 2] == stack[|stack| - 1] && cyc[|cyc| - 1] == to
  {
    var i :| 0 <= i < |stack| && stack[i] == to && to !in stack[..i] && cyc == stack[i..] + [to];
    assert Core(cyc) == stack[i..];
    forall j | 0 <= j < |cyc| - 1 ensures Succ(graph, cyc[j], cyc[j + 1]) {
      if j < |cyc| - 2 {
        assert Succ(graph, stack[i + j], stack[i + j + 1]);
      }
    }
  }

  /** The search: the variables its inner function closes over. */
  class Search {
    const graph: Graph
    ghost const universe: set<Text>
    var color: map<Text, Color>
    var stack: seq<Text>
    var cycles: seq<seq<Text>>
    var seenCycle: set<Text>
    /** Nodes in the order they turned black. */
    ghost var finish: seq<Text>
    /** Every cycle closed by an edge to a gray node, reported or not. */
    ghost var found: seq<seq<Text>>

    ghost predicate Valid()
      reads this
    {
      && Colored(graph, universe, color, stack, finish)
      && Recorded(graph, cycles, seenCycle, found)
      && Ordered(graph, finish, found)
    }

    constructor (g: Graph, ghost all: set<Text>)
      requires forall u, v :: Succ(g, u, v) ==> u in all && v in all
      ensures graph == g && universe == all && Valid() && stack == [] && cycles == [] && found == []
    {
      graph, universe := g, all;
      color, stack, cycles, seenCycle, finish, found := map[], [], [], {}, [], [];
    }

    /** The branch for an edge to a gray node. */
    method Report(to: Text)
      requires Valid() && stack != [] && to in stack && Succ(graph, stack[|stack| - 1], to)
      modifies this`cycles, this`seenCycle, this`found
      ensures Valid() && old(cycles) <= cycles && old(found) <= found
      ensures Closes(found, stack[|stack| - 1], to)
    {
      var cyc := CycleFromStack(stack, to);
      ClosesACycle(graph, stack, cyc, to);
      var key := CycleKey(cyc);
      Record(cyc, key);
    }

    method Record(cyc: seq<Text>, key: Text)
      requires Valid() && IsSimpleCycle(graph, cyc) && IsKey(cyc, key)
      modifies this`cycles, this`seenCycle, this`found
      ensures Valid() && old(cycles) <= cycles && old(found) <= found && cyc in found
    {
      OrderedMonotone(graph, finish, found, found + [cyc]);
      if key !in seenCycle {
        RecordNew(graph, cycles, seenCycle, found, cyc, key);
        seenCycle := seenCycle + {key};
        cycles := cycles + [cyc];
      } else {
        RecordKnown(graph, cycles, seenCycle, found, cyc, key);
      }
      found := found + [cyc];
    }

    /** Visit a white node. */
    method Dfs(n: Text)
      requires Valid() && n in universe && ColorOf(color, n) == White
      requires stack != [] ==> Succ(graph, stack[|stack| - 1], n)
      modifies this`color, this`stack, this`cycles, this`seenCycle, this`finish, this`found
      ensures Valid() && stack == old(stack) && old(finish) <= finish && n in finish
      ensures Whites(universe, color) <= old(Whites(universe, color)) - {n}
      ensures old(cycles) <= cycles && old(found) <= found
      decreases Whites(universe, color), 0
    {
      EnterKeepsColored(graph, universe, color, stack, finish, n);
      color := color[n := Gray];
      stack := stack + [n];
      VisitTargets(n, if n in graph then graph[n] else []);
      Leave(n);
      assert stack == old(stack);
    }

    method Leave(n: Text)
      requires Valid() && stack != [] && stack[|stack| - 1] == n
      requires forall v :: Succ(graph, n, v) ==> v in finish || Closes(found, n, v)
      modifies this`color, this`stack, this`finish
      ensures Valid() && stack == old(stack[..|stack| - 1]) && finish == old(finish) + [n]
      ensures Whites(universe, color) == old(Whites(universe, color))
    {
      assert stack == stack[..|stack| - 1] + [n];
      LeaveKeepsColored(graph, universe, color, stack[..|stack| - 1], finish, n);
      FinishKeepsOrder(graph, finish, found, n);
      stack := stack[..|stack| - 1];
      color := color[n := Black];
      finish := finish + [n];
    }

    method VisitRoot(n: Text)
      requires Valid() && stack == [] && n in graph && graph[n] != []
      modifies this`color, this`stack, this`cycles, this`seenCycle, this`finish, this`found
      ensures Valid() && stack == [] && old(finish) <= finish && n in finish
    {
      assert Succ(graph, n, graph[n][0]);
      if ColorOf(color, n) == White {
        Dfs(n);
      }
    }

    /** The loop over the edges that leave the node on top of the stack. */
    method VisitTargets(n: Text, targets: seq<Text>)
      requires Valid() && stack != [] && stack[|stack| - 1] == n
      requires forall v :: v in targets ==> Succ(graph, n, v)
      modifies this`color, this`stack, this`cycles, this`seenCycle, this`finish, this`found
      ensures Valid() && stack == old(stack) && old(finish) <= finish
      ensures Whites(universe, color) <= old(Whites(universe, color))
      ensures old(cycles) <= cycles && old(found) <= found
      ensures forall v :: v in targets ==> v in finish || Closes(found, n, v)
      decreases Whites(universe, color), 2
    {
      for k := 0 to |targets|
        invariant Valid() && stack == old(stack)
        invariant old(finish) <= finish && Whites(universe, color) <= old(Whites(universe, color))
        invariant old(cycles) <= cycles && old(found) <= found
        invariant forall j :: 0 <= j < k ==> targets[j] in finish || Closes(found, n, targets[j])
      {
        ghost var foundBefore := found;
        VisitEdge(n, targets[k]);
        forall j | 0 <= j <= k ensures targets[j] in finish || Closes(found, n, targets[j]) {
          if j < k && Closes(foundBefore, n, targets[j]) { ClosesMonotone(foundBefore, found, n, targets[j]); }
        }
      }
    }

    method VisitEdge(n: Text, to: Text)
      requires Valid() && stack != [] && stack[|stack| - 1] == n && Succ(graph, n, to)
      modifies this`color, this`stack, this`cycles, this`seenCycle, this`finish, this`found
      ensures Valid() && stack == old(stack) && old(finish) <= finish
      ensures Whites(universe, color) <= old(Whites(universe, color))
      ensures old(cycles) <= cycles && old(found) <= found
      ensures to in finish || Closes(found, n, to)
      decreases Whites(universe, color), 1
    {
      match ColorOf(color, to) {
        case White =>
          Dfs(to);
        case Gray =>
          Report(to);
        case Black =>
      }
    }
  }

  /** Finishing a node whose edges lead to finished nodes or close a cycle keeps the order. */
  lemma FinishKeepsOrder(graph: Graph, finish: seq<Text>, found: seq<seq<Text>>, n: Text)
    requires Ordered(graph, finish, found)
    requires forall v :: Succ(graph, n, v) ==> v in finish || Closes(found, n, v)
    ensures Ordered(graph, finish + [n], found)
  {
    var after := finish + [n];
    forall i, v | 0 <= i < |after| && Succ(graph, after[i], v)
      ensures v in after[..i] || Closes(found, after[i], v)
    {
      assert after[..i] == if i < |finish| then finish[..i] else finish;
    }
  }

  /** More cycles found, no order lost. */
  lemma OrderedMonotone(graph: Graph, finish: seq<Text>, found: seq<seq<Text>>, more: seq<seq<Text>>)
    requires Ordered(graph, finish, found) && found <= more
    ensures Ordered(graph, finish, more)
  {
    forall i, v | 0 <= i < |finish| && Succ(graph, finish[i], v)
      ensures v in finish[..i] || Closes(more, finish[i], v)
    {
      if Closes(found, finish[i], v) { ClosesMonotone(found, more, finish[i], v); }
    }
  }

  lemma ClosesMonotone(found: seq<seq<Text>>, more: seq<seq<Text>>, u: Text, v: Text)
    requires Closes(found, u, v) && found <= more
    ensures Closes(more, u, v)
  {
    var f :| f in found && |f| >= 2 && f[|f| - 2] == u && f[|f| - 1] == v;
    assert f in more;
  }

  lemma LeastExists(s: seq<Text>) returns (m: nat)
    requires s != []
    ensures IsFirstLeast(s, m)
  {
    m := 0;
    LessIrreflexive(s[0]);
    for i := 1 to |s|
      invariant m < i
      invariant forall j :: 0 <= j < i ==> !Less(s[j], s[m])
      invariant forall j :: 0 <= j < m ==> s[j] != s[m]
    {
      if Less(s[i], s[m]) {
        LessIrreflexive(s[i]);
        forall j | 0 <= j < i ensures !Less(s[j], s[i]) && s[j] != s[i] {
          if Less(s[j], s[i]) { LessTransitive(s[j], s[i], s[m]); }
        }
        m := i;
      }
    }
  }

  lemma KeyOf(p: seq<Text>) returns (key: Text)
    requires |p| >= 2
    ensures IsKey(p, key)
  {
    var m := LeastExists(Core(p));
    key := Join(Rotate(Core(p), m));
  }

  lemma KeyIsUnique(p: seq<Text>, key: Text)
    requires IsKey(p, key)
    ensures forall other :: IsKey(p, other) ==> other == key
  {
    var m: nat :| IsFirstLeast(Core(p), m) && key == Join(Rotate(Core(p), m));
    forall other | IsKey(p, other) ensures other == key {
      var n: nat :| IsFirstLeast(Core(p), n) && other == Join(Rotate(Core(p), n));
      FirstLeastUnique(Core(p), m, n);
    }
  }

  /** The edge that closes a simple cycle is an edge of each of its rotations. */
  lemma RotationKeepsTheClosingEdge(f: seq<Text>, c: seq<Text>) returns (j: nat)
    requires |f| >= 2 && |c| >= 2 && f[0] == f[|f| - 1] && c[0] == c[|c| - 1]
    requires AreRotations(Core(f), Core(c))
    ensures j < |c| - 1 && c[j] == f[|f| - 2] && c[j + 1] == f[|f| - 1]
  {
    var a, b := Core(f), Core(c);
    var k :| 0 <= k <= |a| && b == Rotate(a, k);
    j := if k == 0 || k == |a| then |a| - 1 else |a| - 1 - k;
    assert b == a[k..] + a[..k];
  }

  lemma WalksAreImports(graph: Graph, edges: seq<Edge>, p: seq<Text>)
    requires IsGraphOf(graph, edges)
    ensures IsClosedWalk(graph, p) <==> ImportCycle(edges, p)
  {
    if |p| >= 2 && p[0] == p[|p| - 1] {
      if IsWalk(graph, p) {
        forall i | 0 <= i < |p| - 1 ensures Linked(edges, p[i], p[i + 1]) {
          assert Succ(graph, p[i], p[i + 1]);
        }
      } else {
        var i :| 0 <= i < |p| - 1 && !Succ(graph, p[i], p[i + 1]);
        assert !Linked(edges, p[i], p[i + 1]);
      }
    }
  }

  // ------------------------------------------------------------- reports

  ghost predicate CyclesCollide(edges: seq<Edge>) {
    exists p, q :: SimpleImportCycle(edges, p) && SimpleImportCycle(edges, q) && Collide(p, q)
  }

  ghost predicate IsMet(cycles: seq<seq<Text>>, p: seq<Text>) {
    exists c :: c in cycles && ShareAnEdge(p, c)
  }

  /** Every cycle of imports shares an edge with a reported one. */
  ghost predicate AllMet(edges: seq<Edge>, cycles: seq<seq<Text>>) {
    forall p :: ImportCycle(edges, p) ==> IsMet(cycles, p)
  }

  ghost predicate IsReported(cycles: seq<seq<Text>>, f: seq<Text>) {
    |f| >= 2 && exists c :: c in cycles && |c| >= 2 && AreRotations(Core(f), Core(c))
  }

  ghost predicate IsClosedAt(found: seq<seq<Text>>, p: seq<Text>) {
    exists i :: 0 <= i < |p| - 1 && Closes(found, p[i], p[i + 1])
  }

  ghost predicate AllReported(cycles: seq<seq<Text>>, found: seq<seq<Text>>) {
    forall f :: f in found ==> IsReported(cycles, f)
  }

  ghost predicate SomeCollide(found: seq<seq<Text>>) {
    exists f, g :: f in found && g in found && Collide(f, g)
  }

  /** What the search closed: simple cycles, one of them at some edge of every cycle. */
  ghost predicate IsFound(edges: seq<Edge>, found: seq<seq<Text>>) {
    && (forall f :: f in found ==> SimpleImportCycle(edges, f))
    && (forall p :: ImportCycle(edges, p) ==> IsClosedAt(found, p))
  }

  /** What is reported of it: simple cycles, one for each key. */
  ghost predicate IsReport(cycles: seq<seq<Text>>, found: seq<seq<Text>>) {
    && (forall c :: c in cycles ==> c in found)
    && KeysApart(cycles)
    && (forall f, key :: f in found && IsKey(f, key) ==> exists c :: c in cycles && IsKey(c, key))
  }

  lemma ReportedOrCollides(edges: seq<Edge>, cycles: seq<seq<Text>>, found: seq<seq<Text>>, f: seq<Text>)
    requires IsFound(edges, found) && IsReport(cycles, found) && f in found
    ensures IsReported(cycles, f) || exists c :: c in cycles && Collide(f, c)
  {
    var key := KeyOf(f);
    var c :| c in cycles && IsKey(c, key);
  }

  /** Every cycle closed is reported, perhaps started elsewhere, exactly when no two of them collide. */
  lemma FoundIsReportedIff(edges: seq<Edge>, cycles: seq<seq<Text>>, found: seq<seq<Text>>)
    requires IsFound(edges, found) && IsReport(cycles, found)
    ensures AllReported(cycles, found) <==> !SomeCollide(found)
  {
    forall f | f in found && !SomeCollide(found) ensures IsReported(cycles, f) {
      ReportedOrCollides(edges, cycles, found, f);
    }
    if AllReported(cycles, found) {
      forall f, g | f in found && g in found ensures !Collide(f, g) {
        SameReport(cycles, f, g);
      }
    }
  }

  /** Reported cycles that share a key are one, so what they stand for cannot collide. */
  lemma SameReport(cycles: seq<seq<Text>>, f: seq<Text>, g: seq<Text>)
    requires KeysApart(cycles) && IsReported(cycles, f) && IsReported(cycles, g)
    requires Distinct(Core(f)) && Distinct(Core(g))
    ensures !Collide(f, g)
  {
    var c :| c in cycles && |c| >= 2 && AreRotations(Core(f), Core(c));
    var d :| d in cycles && |d| >= 2 && AreRotations(Core(g), Core(d));
    if Collide(f, g) {
      var key :| IsKey(f, key) && IsKey(g, key);
      var keyC := KeyOf(c);
      var keyD := KeyOf(d);
      RotationsShareTheKey(f, c, key, keyC);
      RotationsShareTheKey(g, d, key, keyD);
      var i :| 0 <= i < |cycles| && cycles[i] == c;
      var j :| 0 <= j < |cycles| && cycles[j] == d;
      assert i == j;
      RotationsOfOne(Core(f), Core(g), Core(c));
    }
  }

  /** Every cycle shares an edge with a reported one, unless two cycles collide. */
  lemma AllMetUnlessCollision(edges: seq<Edge>, cycles: seq<seq<Text>>, found: seq<seq<Text>>)
    requires IsFound(edges, found) && IsReport(cycles, found) && !CyclesCollide(edges)
    ensures AllMet(edges, cycles)
  {
    forall p | ImportCycle(edges, p) ensures IsMet(cycles, p) {
      MetUnlessCollision(edges, cycles, found, p);
    }
  }

  lemma MetUnlessCollision(edges: seq<Edge>, cycles: seq<seq<Text>>, found: seq<seq<Text>>, p: seq<Text>)
    requires IsFound(edges, found) && IsReport(cycles, found) && !CyclesCollide(edges) && ImportCycle(edges, p)
    ensures IsMet(cycles, p)
  {
    assert IsClosedAt(found, p);
    var i :| 0 <= i < |p| - 1 && Closes(found, p[i], p[i + 1]);
    var f :| f in found && |f| >= 2 && f[|f| - 2] == p[i] && f[|f| - 1] == p[i + 1];
    assert SimpleImportCycle(edges, f);
    ReportedOrCollides(edges, cycles, found, f);
    var c := ReportOf(edges, cycles, found, f);
    var j := RotationKeepsTheClosingEdge(f, c);
    assert ShareAnEdge(p, c);
  }

  lemma ReportOf(edges: seq<Edge>, cycles: seq<seq<Text>>, found: seq<seq<Text>>, f: seq<Text>) returns (c: seq<Text>)
    requires IsFound(edges, found) && IsReport(cycles, found) && !CyclesCollide(edges) && f in found
    ensures |f| >= 2 && c in cycles && SimpleImportCycle(edges, c) && AreRotations(Core(f), Core(c))
  {
    assert SimpleImportCycle(edges, f);
    ReportedOrCollides(edges, cycles, found, f);
    c :| c in cycles && |c| >= 2 && AreRotations(Core(f), Core(c));
  }

  /** Simple cycles that share an edge are the same. */
  ghost predicate CyclesApart(edges: seq<Edge>) {
    forall p, q :: SimpleImportCycle(edges, p) && SimpleImportCycle(edges, q) && ShareAnEdge(p, q) ==> AreRotations(Core(p), Core(q))
  }

  /** Where simple cycles do not overlap, that is exact: a collision always loses a cycle. */
  lemma AllMetIff(edges: seq<Edge>, cycles: seq<seq<Text>>, found: seq<seq<Text>>)
    requires IsFound(edges, found) && IsReport(cycles, found) && CyclesApart(edges)
    ensures AllMet(edges, cycles) <==> !CyclesCollide(edges)
  {
    if CyclesCollide(edges) {
      var p, q :| SimpleImportCycle(edges, p) && SimpleImportCycle(edges, q) && Collide(p, q);
      if IsMet(cycles, p) && IsMet(cycles, q) {
        MetIsReported(edges, cycles, found, p);
        MetIsReported(edges, cycles, found, q);
        SameReport(cycles, p, q);
      }
    } else {
      AllMetUnlessCollision(edges, cycles, found);
    }
  }

  lemma MetIsReported(edges: seq<Edge>, cycles: seq<seq<Text>>, found: seq<seq<Text>>, p: seq<Text>)
    requires IsFound(edges, found) && IsReport(cycles, found) && CyclesApart(edges)
    requires SimpleImportCycle(edges, p) && IsMet(cycles, p)
    ensures IsReported(cycles, p)
  {
    var c :| c in cycles && ShareAnEdge(p, c);
    assert SimpleImportCycle(edges, c);
  }

  ghost predicate NoSeparator(edges: seq<Edge>) {
    forall e :: e in edges && !e.broken ==> SEPARATOR !in e.fromPath && SEPARATOR !in e.toPath
  }

  lemma NoSeparatorNoCollision(edges: seq<Edge>)
    requires NoSeparator(edges)
    ensures !CyclesCollide(edges)
  {
    forall p, q | SimpleImportCycle(edges, p) && SimpleImportCycle(edges, q) ensures !Collide(p, q) {
      if Collide(p, q) {
        var key :| IsKey(p, key) && IsKey(q, key);
        CycleIsPlain(edges, p);
        CycleIsPlain(edges, q);
        SameKeyIsRotation(p, q, key);
      }
    }
  }

  lemma CycleIsPlain(edges: seq<Edge>, p: seq<Text>)
    requires NoSeparator(edges) && ImportCycle(edges, p)
    ensures Plain(p)
  {
    forall t | t in p ensures SEPARATOR !in t {
      var i :| 0 <= i < |p| && p[i] == t;
      if i < |p| - 1 { assert Linked(edges, p[i], p[i + 1]); } else { assert Linked(edges, p[0], p[1]); }
    }
  }

  /** Two pairs of files that import each other, the names chosen so that the keys agree. */
  function TwoPairs(): seq<Edge> {
    var a, b, c, d := [97], [98, SEPARATOR, 99], [97, SEPARATOR, 98], [99];
    [Edge(a, b, false), Edge(b, a, false), Edge(c, d, false), Edge(d, c, false)]
  }

  function Partner(t: Text): Text {
    if t == [97] then [98, SEPARATOR, 99]
    else if t == [98, SEPARATOR, 99] then [97]
    else if t == [97, SEPARATOR, 98] then [99]
    else [97, SEPARATOR, 98]
  }

  lemma SimpleCyclesOfTwoPairs(p: seq<Text>)
    requires SimpleImportCycle(TwoPairs(), p)
    ensures Core(p) == [p[0], Partner(p[0])] && Partner(Partner(p[0])) == p[0]
  {
    var edges := TwoPairs();
    forall i | 0 <= i < |p| - 1 ensures p[i + 1] == Partner(p[i]) && Partner(p[i + 1]) == p[i] && p[i] != p[i + 1] {
      assert Linked(edges, p[i], p[i + 1]);
    }
    assert |p| > 2;
    assert p[0 + 1] == Partner(p[0]) && p[1 + 1] == Partner(p[1]);
    assert |p| == 3;
  }

  lemma TwoPairsAreApart()
    ensures CyclesApart(TwoPairs())
  {
    forall p, q | SimpleImportCycle(TwoPairs(), p) && SimpleImportCycle(TwoPairs(), q) && ShareAnEdge(p, q)
      ensures AreRotations(Core(p), Core(q))
    {
      SimpleCyclesOfTwoPairs(p);
      SimpleCyclesOfTwoPairs(q);
      var i, j :| 0 <= i < |p| - 1 && 0 <= j < |q| - 1 && p[i] == q[j] && p[i + 1] == q[j + 1];
      assert Core(p)[i] == Core(q)[j];
      if p[0] == q[0] {
        assert Core(q) == Rotate(Core(p), 0);
      } else {
        assert Core(q) == Rotate(Core(p), 1);
      }
    }
  }

  lemma JoinTwo(x: Text, y: Text)
    ensures Join([x, y]) == x + [SEPARATOR] + y
  {
    assert [x, y][1..] == [y];
  }

  lemma TwoPairsCollide()
    ensures CyclesCollide(TwoPairs())
  {
    var edges := TwoPairs();
    var a, b, c, d := edges[0].fromPath, edges[0].toPath, edges[2].fromPath, edges[2].toPath;
    var p, q := [a, b, a], [c, d, c];
    assert edges[0] in edges && edges[1] in edges && edges[2] in edges && edges[3] in edges;
    assert Core(p) == [a, b] && Core(q) == [c, d];
    assert Linked(edges, a, b) && Linked(edges, b, a) && Linked(edges, c, d) && Linked(edges, d, c);
    assert SimpleImportCycle(edges, p) && SimpleImportCycle(edges, q);
    LessIrreflexive(a);
    LessIrreflexive(c);
    assert IsFirstLeast(Core(p), 0) && IsFirstLeast(Core(q), 0);
    assert Rotate(Core(p), 0) == [a, b] && Rotate(Core(q), 0) == [c, d];
    JoinTwo(a, b);
    JoinTwo(c, d);
    assert a + [SEPARATOR] + b == [97, SEPARATOR, 98, SEPARATOR, 99] == c + [SEPARATOR] + d;
    assert IsKey(p, Join([a, b])) && IsKey(q, Join([a, b]));
    forall k | 0 <= k <= 2 ensures Core(q) != Rotate(Core(p), k) {
      assert Rotate([a, b], k)[0] == a || Rotate([a, b], k)[0] == b;
      assert Core(q)[0] == c;
    }
    assert Collide(p, q);
  }

  /** Whatever is reported of them, some cycle shares no edge with any of it. */
  lemma KeysLoseACycle(cycles: seq<seq<Text>>, found: seq<seq<Text>>)
    requires IsFound(TwoPairs(), found) && IsReport(cycles, found)
    ensures exists p :: ImportCycle(TwoPairs(), p) && forall c :: c in cycles ==> !ShareAnEdge(p, c)
  {
    TwoPairsAreApart();
    TwoPairsCollide();
    AllMetIff(TwoPairs(), cycles, found);
  }

  /** Every path reported is a cycle of unbroken edges through distinct nodes; no two are rotations of
      each other, no two have the same key, and nothing is reported exactly when there is no cycle.
      Every cycle the search closed is reported exactly when no two of those collide, and every cycle of
      imports shares an edge with a reported one if no two simple cycles collide, as when no path holds
      the separator; if simple cycles share no edges, only then. */
  method DetectCycles(edges: seq<Edge>) returns (cycles: seq<seq<Text>>, ghost found: seq<seq<Text>>)
    ensures forall c :: c in cycles ==> SimpleImportCycle(edges, c)
    ensures NoRotations(cycles)
    ensures cycles == [] <==> forall p :: !ImportCycle(edges, p)
    ensures IsFound(edges, found) && IsReport(cycles, found)
    ensures AllReported(cycles, found) <==> !SomeCollide(found)
    ensures !CyclesCollide(edges) || NoSeparator(edges) ==> AllMet(edges, cycles)
    ensures CyclesApart(edges) ==> (AllMet(edges, cycles) <==> !CyclesCollide(edges))
  {
    var graph := BuildGraph(edges);
    ghost var universe := (set e | e in edges :: e.fromPath) + (set e | e in edges :: e.toPath);
    var search := new Search(graph, universe);
    var nodes := SortedKeys(graph.Keys);
    for i := 0 to |nodes|
      invariant search.Valid() && search.stack == []
      invariant forall j :: 0 <= j < i ==> nodes[j] in search.finish
    {
      assert nodes[i] in Elements(nodes);
      search.VisitRoot(nodes[i]);
    }
    cycles, found := search.cycles, search.found;
    forall u | u in graph ensures u in search.finish {
      assert u in Elements(nodes);
    }
    ReportsAreRight(search, edges);
    ReportIsWhole(edges, cycles, found);
  }

  lemma ReportIsWhole(edges: seq<Edge>, cycles: seq<seq<Text>>, found: seq<seq<Text>>)
    requires IsFound(edges, found) && IsReport(cycles, found)
    ensures AllReported(cycles, found) <==> !SomeCollide(found)
    ensures !CyclesCollide(edges) || NoSeparator(edges) ==> AllMet(edges, cycles)
    ensures CyclesApart(edges) ==> (AllMet(edges, cycles) <==> !CyclesCollide(edges))
  {
    FoundIsReportedIff(edges, cycles, found);
    if NoSeparator(edges) { NoSeparatorNoCollision(edges); }
    if !CyclesCollide(edges) { AllMetUnlessCollision(edges, cycles, found); }
    if CyclesApart(edges) { AllMetIff(edges, cycles, found); }
  }

  lemma SearchFinds(search: Search, edges: seq<Edge>)
    requires search.Valid() && IsGraphOf(search.graph, edges)
    requires forall u :: u in search.graph ==> u in search.finish
    ensures IsFound(edges, search.found) && IsReport(search.cycles, search.found)
  {
    forall f | f in search.found ensures SimpleImportCycle(edges, f) {
      WalksAreImports(search.graph, edges, f);
    }
    forall p | ImportCycle(edges, p) ensures IsClosedAt(search.found, p) {
      WalksAreImports(search.graph, edges, p);
      EveryCycleIsMet(search.graph, search.finish, search.found, p);
    }
  }

  /** What a finished search says about the imports it was given. */
  lemma ReportsAreRight(search: Search, edges: seq<Edge>)
    requires search.Valid() && IsGraphOf(search.graph, edges)
    requires forall u :: u in search.graph ==> u in search.finish
    ensures forall c :: c in search.cycles ==> SimpleImportCycle(edges, c)
    ensures search.cycles == [] <==> forall p :: !ImportCycle(edges, p)
    ensures IsFound(edges, search.found) && IsReport(search.cycles, search.found)
  {
    forall p ensures IsClosedWalk(search.graph, p) <==> ImportCycle(edges, p) {
      WalksAreImports(search.graph, edges, p);
    }
    SearchFinds(search, edges);
    if search.cycles == [] {
      forall p ensures !ImportCycle(edges, p) {
        if IsClosedWalk(search.graph, p) { EveryCycleIsMet(search.graph, search.finish, search.found, p); }
      }
    } else {
      assert search.cycles[0] in search.cycles;
      assert ImportCycle(edges, search.cycles[0]);
    }
  }
}
