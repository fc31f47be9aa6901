/** The file tree of the graphical client, clients/gui/src/app/file-tree-model.ts.  A normalized path is
    the list of its names. */
module FileTree {
  import opened Bytes

  type Path = seq<Text>

  datatype Node = Node(path: Path, isDir: bool)
  datatype Row = Row(node: Node, level: nat)

  /** The nodes under each path; the roots are under the empty one. */
  type Children = map<Path, seq<Node>>

  function Parent(p: Path): Path
    requires p != []
  {
    p[..|p| - 1]
  }

  ghost predicate DistinctPaths(nodes: seq<Node>) {
    forall i, j :: 0 <= i < j < |nodes| ==> nodes[i].path != nodes[j].path
  }

  // ----------------------------------------------------------------- build

  ghost predicate IsNode(nodes: seq<Node>, p: Path) {
    exists i :: 0 <= i < |nodes| && nodes[i].path == p
  }

  ghost predicate IsPrefixOfFile(files: seq<Path>, p: Path) {
    p != [] && exists i :: 0 <= i < |files| && p <= files[i]
  }

  ghost predicate IsAboveFile(files: seq<Path>, p: Path) {
    exists i :: 0 <= i < |files| && p < files[i]
  }

  /** The place of the first given path that starts with `p`, or the number of paths if there is none. */
  ghost function FirstWith(files: seq<Path>, p: Path): (first: nat)
    ensures first <= |files|
    ensures forall j :: 0 <= j < first ==> !(p <= files[j])
    ensures first < |files| ==> p <= files[first]
  {
    if files == [] then 0
    else
      var front := files[..|files| - 1];
      var first := FirstWith(front, p);
      if first < |front| || p <= files[|files| - 1] then first else |files|
  }

  /** The first given path that starts with `p` is `p` itself. */
  ghost predicate FileFirst(files: seq<Path>, p: Path) {
    var first := FirstWith(files, p);
    first < |files| && files[first] == p
  }

  /** Every prefix of a file is a node, once; it is a file exactly when it was given before any path
      that lies in it. */
  ghost predicate NodesOf(nodes: seq<Node>, files: seq<Path>) {
    && DistinctPaths(nodes)
    && (forall p :: IsNode(nodes, p) <==> IsPrefixOfFile(files, p))
    && (forall i :: 0 <= i < |nodes| ==> (nodes[i].isDir <==> !FileFirst(files, nodes[i].path)))
  }

  method BuildNodes(files: seq<Path>) returns (nodes: seq<Node>)
    ensures NodesOf(nodes, files)
  {
    nodes := [];
    for k := 0 to |files|
      invariant NodesOf(nodes, files[..k])
    {
      ghost var before := nodes;
      nodes := AddFile(nodes, files[k]);
      NodesGrow(before, nodes, files, k);
    }
    assert files[..|files|] == files;
  }

  /** The prefixes of one file, shortest first, unless they are there already. */
  method AddFile(nodes: seq<Node>, file: Path) returns (r: seq<Node>)
    requires DistinctPaths(nodes)
    ensures DistinctPaths(r) && nodes <= r
    ensures forall p :: IsNode(r, p) <==> IsNode(nodes, p) || (p != [] && p <= file)
    ensures forall i :: |nodes| <= i < |r| ==> r[i].path <= file && r[i].path != [] && (r[i].isDir <==> r[i].path != file)
  {
    r := nodes;
    for index := 0 to |file|
      invariant DistinctPaths(r) && nodes <= r
      invariant forall p :: IsNode(r, p) <==> IsNode(nodes, p) || (p != [] && p <= file && |p| <= index)
      invariant forall i :: |nodes| <= i < |r| ==> r[i].path <= file && r[i].path != [] && (r[i].isDir <==> r[i].path != file)
    {
      var path := file[..index + 1];
      var known := exists i :: 0 <= i < |r| && r[i].path == path;
      ghost var before := r;
      if !known {
        r := r + [Node(path, index != |file| - 1)];
      }
      forall p ensures IsNode(r, p) <==> IsNode(before, p) || p == path {
        if IsNode(before, p) {
          var i :| 0 <= i < |before| && before[i].path == p;
          assert r[i].path == p;
        }
        if p == path && !known { assert r[|before|].path == p; }
      }
      forall p: Path ensures p != [] && p <= file && |p| <= index + 1 <==> (p != [] && p <= file && |p| <= index) || p == path {
      }
    }
  }

  lemma NodesGrow(before: seq<Node>, after: seq<Node>, files: seq<Path>, k: nat)
    requires k < |files| && NodesOf(before, files[..k]) && DistinctPaths(after) && before <= after
    requires forall p :: IsNode(after, p) <==> IsNode(before, p) || (p != [] && p <= files[k])
    requires forall i :: |before| <= i < |after| ==>
               after[i].path <= files[k] && after[i].path != [] && (after[i].isDir <==> after[i].path != files[k])
    ensures NodesOf(after, files[..k + 1])
  {
    var upTo := files[..k + 1];
    forall p ensures IsPrefixOfFile(upTo, p) <==> IsPrefixOfFile(files[..k], p) || (p != [] && p <= files[k]) {
      if IsPrefixOfFile(files[..k], p) {
        var i :| 0 <= i < k && p <= files[..k][i];
        assert p <= upTo[i];
      }
      if p <= files[k] { assert p <= upTo[k]; }
    }
    forall i | 0 <= i < |after| ensures after[i].isDir <==> !FileFirst(upTo, after[i].path) {
      var p := after[i].path;
      FirstOneMore(files, k, p);
      if i < |before| {
        assert before[i].path == p && IsNode(before, p);
        var j :| 0 <= j < k && p <= files[..k][j];
      } else {
        assert !IsNode(before, p);
        forall j | 0 <= j < k ensures !(p <= files[..k][j]) { assert !IsPrefixOfFile(files[..k], p); }
      }
    }
  }

  /** One more path decides what a node is only if no path before it starts with the node's. */
  lemma FirstOneMore(files: seq<Path>, k: nat, p: Path)
    requires k < |files|
    ensures (exists j :: 0 <= j < k && p <= files[j]) ==> FileFirst(files[..k + 1], p) == FileFirst(files[..k], p)
    ensures (forall j :: 0 <= j < k ==> !(p <= files[j])) && p <= files[k] ==> FileFirst(files[..k + 1], p) == (p == files[k])
  {
    assert files[..k + 1][..k] == files[..k];
  }

  function Kids(children: Children, p: Path): seq<Node> {
    if p in children then children[p] else []
  }

  /** The nodes with that parent, in order. */
  ghost function Under(nodes: seq<Node>, p: Path): seq<Node> {
    if nodes == [] then []
    else
      var last := nodes[|nodes| - 1];
      Under(nodes[..|nodes| - 1], p) + if last.path != [] && Parent(last.path) == p then [last] else []
  }

  lemma UnderOneMore(nodes: seq<Node>, node: Node, p: Path)
    ensures Under(nodes + [node], p) == Under(nodes, p) + if node.path != [] && Parent(node.path) == p then [node] else []
  {
    assert (nodes + [node])[..|nodes|] == nodes;
  }

  method GroupByParent(nodes: seq<Node>) returns (children: Children)
    requires forall n :: n in nodes ==> n.path != []
    ensures forall p :: Kids(children, p) == Under(nodes, p)
  {
    children := map[];
    for k := 0 to |nodes|
      invariant forall p :: Kids(children, p) == Under(nodes[..k], p)
    {
      var node := nodes[k];
      var parent := Parent(node.path);
      assert nodes[..k + 1] == nodes[..k] + [node];
      forall p ensures Under(nodes[..k + 1], p) == Under(nodes[..k], p) + if Parent(node.path) == p then [node] else [] {
        UnderOneMore(nodes[..k], node, p);
      }
      if parent in children {
        children := children[parent := children[parent] + [node]];
      } else {
        children := children[parent := [node]];
      }
    }
    assert nodes[..|nodes|] == nodes;
  }

  /** Directories first, then by name in the order of the platform. */
  predicate Before(a: Node, b: Node, nameBefore: (Text, Text) -> bool) {
    if a.isDir != b.isDir then a.isDir
    else a.path != [] && b.path != [] && nameBefore(a.path[|a.path| - 1], b.path[|b.path| - 1])
  }

  /** A stable sort. */
  function Sorted(list: seq<Node>, nameBefore: (Text, Text) -> bool): seq<Node> {
    if list == [] then [] else Insert(Sorted(list[1..], nameBefore), list[0], nameBefore)
  }

  function Insert(sorted: seq<Node>, n: Node, nameBefore: (Text, Text) -> bool): seq<Node> {
    if sorted == [] || !Before(sorted[0], n, nameBefore) then [n] + sorted
    else [sorted[0]] + Insert(sorted[1..], n, nameBefore)
  }

  lemma DistinctParts(first: Node, rest: seq<Node>)
    ensures DistinctPaths([first] + rest) <==> DistinctPaths(rest) && forall x :: x in rest ==> x.path != first.path
  {
    var all := [first] + rest;
    if DistinctPaths(all) {
      forall i | 0 <= i < |rest| ensures rest[i].path != first.path { assert all[0].path != all[i + 1].path; }
      forall i, j | 0 <= i < j < |rest| ensures rest[i].path != rest[j].path { assert all[i + 1].path != all[j + 1].path; }
    }
  }

  lemma {:induction false} InsertKeepsNodes(sorted: seq<Node>, n: Node, nameBefore: (Text, Text) -> bool)
    requires DistinctPaths(sorted) && forall x :: x in sorted ==> x.path != n.path
    ensures DistinctPaths(Insert(sorted, n, nameBefore))
    ensures forall x :: x in Insert(sorted, n, nameBefore) <==> x == n || x in sorted
  {
    DistinctParts(n, sorted);
    if sorted != [] && Before(sorted[0], n, nameBefore) {
      assert sorted == [sorted[0]] + sorted[1..];
      DistinctParts(sorted[0], sorted[1..]);
      InsertKeepsNodes(sorted[1..], n, nameBefore);
      DistinctParts(sorted[0], Insert(sorted[1..], n, nameBefore));
    }
  }

  lemma {:induction false} SortKeepsNodes(list: seq<Node>, nameBefore: (Text, Text) -> bool)
    requires DistinctPaths(list)
    ensures DistinctPaths(Sorted(list, nameBefore)) && forall x :: x in Sorted(list, nameBefore) <==> x in list
  {
    if list != [] {
      assert list == [list[0]] + list[1..];
      DistinctParts(list[0], list[1..]);
      SortKeepsNodes(list[1..], nameBefore);
      InsertKeepsNodes(Sorted(list[1..], nameBefore), list[0], nameBefore);
    }
  }

  ghost predicate DirectoriesFirst(list: seq<Node>) {
    forall i, j :: 0 <= i < j < |list| ==> list[i].isDir || !list[j].isDir
  }

  lemma FirstOfRest(first: Node, rest: seq<Node>)
    ensures DirectoriesFirst([first] + rest) <==> DirectoriesFirst(rest) && (first.isDir || forall x :: x in rest ==> !x.isDir)
  {
    var all := [first] + rest;
    if DirectoriesFirst(all) {
      forall i, j | 0 <= i < j < |rest| ensures rest[i].isDir || !rest[j].isDir { assert all[i + 1].isDir || !all[j + 1].isDir; }
      forall j | 0 <= j < |rest| ensures first.isDir || !rest[j].isDir { assert all[0].isDir || !all[j + 1].isDir; }
    }
  }

  lemma {:induction false} InsertKeepsDirectoriesFirst(sorted: seq<Node>, n: Node, nameBefore: (Text, Text) -> bool)
    requires DirectoriesFirst(sorted)
    ensures DirectoriesFirst(Insert(sorted, n, nameBefore))
    ensures forall x :: x in Insert(sorted, n, nameBefore) ==> x == n || x in sorted
  {
    FirstOfRest(n, sorted);
    if sorted != [] {
      assert sorted == [sorted[0]] + sorted[1..];
      FirstOfRest(sorted[0], sorted[1..]);
      if Before(sorted[0], n, nameBefore) {
        InsertKeepsDirectoriesFirst(sorted[1..], n, nameBefore);
        FirstOfRest(sorted[0], Insert(sorted[1..], n, nameBefore));
      }
    }
  }

  /** Among siblings the directories come first. */
  lemma {:induction false} SortPutsDirectoriesFirst(list: seq<Node>, nameBefore: (Text, Text) -> bool)
    ensures DirectoriesFirst(Sorted(list, nameBefore))
  {
    if list != [] {
      SortPutsDirectoriesFirst(list[1..], nameBefore);
      InsertKeepsDirectoriesFirst(Sorted(list[1..], nameBefore), list[0], nameBefore);
    }
  }

  /** An order of names as a sort may be given: nothing is before what is before it, and what is not
      before a second is not before a third that the second is not before either. */
  ghost predicate IsOrder(nameBefore: (Text, Text) -> bool) {
    && (forall a, b :: nameBefore(a, b) ==> !nameBefore(b, a))
    && (forall a, b, c :: !nameBefore(a, b) && !nameBefore(b, c) ==> !nameBefore(a, c))
  }

  function Name(n: Node): Text
    requires n.path != []
  {
    n.path[|n.path| - 1]
  }

  /** A directory before a file; of the same kind, in the order of their names; and with names that are
      neither before the other, in the order of the list they come from. */
  ghost predicate InOrder(list: seq<Node>, a: Node, b: Node, nameBefore: (Text, Text) -> bool)
    requires a.path != [] && b.path != []
  {
    || (a.isDir && !b.isDir)
    || (a.isDir == b.isDir && !nameBefore(Name(b), Name(a))
        && (nameBefore(Name(a), Name(b)) || exists i, j :: 0 <= i < j < |list| && list[i] == a && list[j] == b))
  }

  ghost predicate Named(list: seq<Node>) {
    forall n :: n in list ==> n.path != []
  }

  ghost predicate AllInOrder(list: seq<Node>, sorted: seq<Node>, nameBefore: (Text, Text) -> bool)
    requires Named(sorted)
  {
    forall i, j :: 0 <= i < j < |sorted| ==> InOrder(list, sorted[i], sorted[j], nameBefore)
  }

  lemma InOrderInMore(list: seq<Node>, n: Node, a: Node, b: Node, nameBefore: (Text, Text) -> bool)
    requires a.path != [] && b.path != [] && InOrder(list, a, b, nameBefore)
    ensures InOrder([n] + list, a, b, nameBefore)
  {
    if i, j :| 0 <= i < j < |list| && list[i] == a && list[j] == b {
      assert ([n] + list)[i + 1] == a && ([n] + list)[j + 1] == b;
    }
  }

  /** The new node stands before what it is not behind, all of which comes later in the list. */
  lemma FirstInOrder(list: seq<Node>, n: Node, y: Node, nameBefore: (Text, Text) -> bool)
    requires n.path != [] && y.path != [] && y in list && !Before(y, n, nameBefore)
    ensures InOrder([n] + list, n, y, nameBefore)
  {
    var j :| 0 <= j < |list| && list[j] == y;
    assert ([n] + list)[0] == n && ([n] + list)[j + 1] == y;
  }

  lemma {:induction false} InsertInOrder(list: seq<Node>, sorted: seq<Node>, n: Node, nameBefore: (Text, Text) -> bool)
    requires IsOrder(nameBefore) && n.path != [] && Named(list) && Named(sorted)
    requires (forall x :: x in sorted ==> x in list) && AllInOrder([n] + list, sorted, nameBefore)
    ensures forall x :: x in Insert(sorted, n, nameBefore) <==> x == n || x in sorted
    ensures Named(Insert(sorted, n, nameBefore)) && AllInOrder([n] + list, Insert(sorted, n, nameBefore), nameBefore)
  {
    if sorted == [] {
    } else if !Before(sorted[0], n, nameBefore) {
      forall j | 0 <= j < |sorted| ensures InOrder([n] + list, n, sorted[j], nameBefore) {
        assert j > 0 ==> InOrder([n] + list, sorted[0], sorted[j], nameBefore);
        FirstInOrder(list, n, sorted[j], nameBefore);
      }
    } else {
      assert sorted == [sorted[0]] + sorted[1..];
      InsertInOrder(list, sorted[1..], n, nameBefore);
      var tail := Insert(sorted[1..], n, nameBefore);
      forall j | 0 <= j < |tail| ensures InOrder([n] + list, sorted[0], tail[j], nameBefore) {
        assert tail[j] in tail;
        if tail[j] != n {
          var k :| 0 <= k < |sorted[1..]| && sorted[1..][k] == tail[j];
          assert InOrder([n] + list, sorted[0], sorted[k + 1], nameBefore);
        }
      }
    }
  }

  /** The sort puts siblings in this order and keeps the given order where the names do not decide. */
  lemma {:induction false} SortIsInOrder(list: seq<Node>, nameBefore: (Text, Text) -> bool)
    requires IsOrder(nameBefore) && Named(list)
    ensures forall x :: x in Sorted(list, nameBefore) <==> x in list
    ensures AllInOrder(list, Sorted(list, nameBefore), nameBefore)
  {
    if list != [] {
      var n, rest := list[0], list[1..];
      assert list == [n] + rest;
      SortIsInOrder(rest, nameBefore);
      var sorted := Sorted(rest, nameBefore);
      forall i, j | 0 <= i < j < |sorted| ensures InOrder(list, sorted[i], sorted[j], nameBefore) {
        InOrderInMore(rest, n, sorted[i], sorted[j], nameBefore);
      }
      InsertInOrder(rest, sorted, n, nameBefore);
    }
  }

  // ------------------------------------------------------------------ tree

  /** A node lies one name below the path it is listed under, each once; `limit` bounds the depth. */
  ghost predicate IsTree(children: Children, limit: nat) {
    forall p :: p in children ==>
      DistinctPaths(children[p]) && forall n :: n in children[p] ==> IsKid(n, p, limit)
  }

  ghost predicate IsKid(n: Node, p: Path, limit: nat) {
    |n.path| == |p| + 1 <= limit && Parent(n.path) == p
  }

  /** The tree of a list of nodes: each is listed under its parent. */
  ghost predicate IsTreeOf(children: Children, nodes: seq<Node>, limit: nat) {
    && IsTree(children, limit)
    && forall n :: n in nodes <==> n.path != [] && n in Kids(children, Parent(n.path))
  }

  method SortChildren(children: Children, nameBefore: (Text, Text) -> bool) returns (sorted: Children)
    ensures forall p :: Kids(sorted, p) == Sorted(Kids(children, p), nameBefore)
  {
    sorted := children;
    var rest := children.Keys;
    while rest != {}
      invariant rest <= children.Keys == sorted.Keys
      invariant forall p :: p in children ==> sorted[p] == if p in rest then children[p] else Sorted(children[p], nameBefore)
      decreases rest
    {
      var p :| p in rest;
      sorted := sorted[p := Sorted(children[p], nameBefore)];
      rest := rest - {p};
    }
  }

  lemma {:induction false} UnderIsDistinct(nodes: seq<Node>, p: Path)
    requires DistinctPaths(nodes)
    ensures DistinctPaths(Under(nodes, p))
    ensures forall n :: n in Under(nodes, p) <==> n in nodes && n.path != [] && Parent(n.path) == p
  {
    if nodes != [] {
      var front := nodes[..|nodes| - 1];
      UnderIsDistinct(front, p);
      assert nodes == front + [nodes[|nodes| - 1]];
      assert forall n :: n in front ==> n.path != nodes[|nodes| - 1].path;
      var under := Under(front, p);
      forall i | 0 <= i < |under| ensures under[i].path != nodes[|nodes| - 1].path {
        assert under[i] in front;
      }
    }
  }

  method BuildModel(files: seq<Path>, nameBefore: (Text, Text) -> bool)
    returns (children: Children, nodes: seq<Node>, ghost limit: nat)
    ensures NodesOf(nodes, files) && IsTreeOf(children, nodes, limit)
    ensures forall p :: DirectoriesFirst(Kids(children, p))
    ensures forall p :: Kids(children, p) == Sorted(Under(nodes, p), nameBefore)
  {
    nodes := BuildNodes(files);
    forall n | n in nodes ensures n.path != [] {
      assert IsNode(nodes, n.path);
    }
    var grouped := GroupByParent(nodes);
    children := SortChildren(grouped, nameBefore);
    limit := Deepest(nodes);
    forall p ensures DistinctPaths(Kids(children, p)) && forall n :: n in Kids(children, p) <==> n in nodes && n.path != [] && Parent(n.path) == p {
      UnderIsDistinct(nodes, p);
      SortKeepsNodes(Under(nodes, p), nameBefore);
    }
    forall p ensures DirectoriesFirst(Kids(children, p)) {
      SortPutsDirectoriesFirst(Under(nodes, p), nameBefore);
    }
    assert IsTree(children, limit) by {
      forall p | p in children ensures DistinctPaths(children[p]) && forall n :: n in children[p] ==> IsKid(n, p, limit) {
        assert children[p] == Kids(children, p);
      }
    }
  }

  lemma {:induction false} Deepest(nodes: seq<Node>) returns (limit: nat)
    ensures forall n :: n in nodes ==> |n.path| <= limit
  {
    if nodes == [] { limit := 0; } else {
      limit := Deepest(nodes[1..]);
      if |nodes[0].path| > limit { limit := |nodes[0].path|; }
      assert nodes == [nodes[0]] + nodes[1..];
    }
  }

  // --------------------------------------------------------------- flatten

  ghost predicate AtDepth(list: seq<Node>, depth: nat, limit: nat) {
    forall n :: n in list ==> |n.path| == depth <= limit
  }

  /** The recursive pre-order: a node, then what is below it if it is an expanded directory. */
  ghost function NodeRows(children: Children, limit: nat, expanded: Path -> bool, n: Node, level: nat): seq<Row>
    requires IsTree(children, limit) && |n.path| <= limit
    decreases limit + 1 - |n.path|, 0
  {
    [Row(n, level)] +
    if n.isDir && expanded(n.path) then ListRows(children, limit, expanded, Kids(children, n.path), |n.path| + 1, level + 1) else []
  }

  ghost function ListRows(children: Children, limit: nat, expanded: Path -> bool, list: seq<Node>, depth: nat, level: nat): seq<Row>
    requires IsTree(children, limit) && depth <= limit + 1 && AtDepth(list, depth, limit)
    decreases limit + 1 - depth, 1, |list|
  {
    if list == [] then []
    else NodeRows(children, limit, expanded, list[0], level) + ListRows(children, limit, expanded, list[1..], depth, level)
  }

  ghost function Preorder(children: Children, limit: nat, expanded: Path -> bool): seq<Row>
    requires IsTree(children, limit)
  {
    ListRows(children, limit, expanded, Kids(children, []), 1, 0)
  }

  /** What is still to come from a stack, top first. */
  ghost function StackRows(children: Children, limit: nat, expanded: Path -> bool, stack: seq<Row>): seq<Row>
    requires IsTree(children, limit) && forall r :: r in stack ==> |r.node.path| <= limit
  {
    if stack == [] then []
    else
      var top := stack[|stack| - 1];
      NodeRows(children, limit, expanded, top.node, top.level) + StackRows(children, limit, expanded, stack[..|stack| - 1])
  }

  lemma PushOne(children: Children, limit: nat, expanded: Path -> bool, stack: seq<Row>, list: seq<Node>, index: nat,
                depth: nat, level: nat, base: seq<Row>)
    requires IsTree(children, limit) && index < |list| && depth <= limit + 1
    requires AtDepth(list, depth, limit) && forall r :: r in stack ==> |r.node.path| <= limit
    requires StackRows(children, limit, expanded, stack) == ListRows(children, limit, expanded, list[index + 1..], depth, level) + base
    ensures StackRows(children, limit, expanded, stack + [Row(list[index], level)])
            == ListRows(children, limit, expanded, list[index..], depth, level) + base
  {
    var pushed := stack + [Row(list[index], level)];
    assert pushed[..|pushed| - 1] == stack;
    assert list[index..][1..] == list[index + 1..] && list[index..][0] == list[index];
    Regroup(NodeRows(children, limit, expanded, list[index], level),
            ListRows(children, limit, expanded, list[index + 1..], depth, level), base);
  }

  lemma Regroup(a: seq<Row>, b: seq<Row>, c: seq<Row>)
    ensures a + (b + c) == a + b + c
  {
  }

  /** Pushed from the back, so that the first is on top. */
  method PushAll(stack: seq<Row>, list: seq<Node>, level: nat,
                 ghost children: Children, ghost limit: nat, ghost expanded: Path -> bool, ghost depth: nat)
    returns (r: seq<Row>)
    requires IsTree(children, limit) && depth <= limit + 1 && AtDepth(list, depth, limit)
    requires forall r :: r in stack ==> |r.node.path| <= limit
    ensures forall x :: x in r ==> |x.node.path| <= limit
    ensures StackRows(children, limit, expanded, r)
            == ListRows(children, limit, expanded, list, depth, level) + StackRows(children, limit, expanded, stack)
  {
    r := stack;
    var index := |list|;
    while index > 0
      invariant 0 <= index <= |list|
      invariant forall x :: x in r ==> |x.node.path| <= limit
      invariant StackRows(children, limit, expanded, r)
                == ListRows(children, limit, expanded, list[index..], depth, level) + StackRows(children, limit, expanded, stack)
    {
      index := index - 1;
      assert list[index] in list && |list[index].path| <= limit;
      PushOne(children, limit, expanded, r, list, index, depth, level, StackRows(children, limit, expanded, stack));
      r := r + [Row(list[index], level)];
    }
    assert list[0..] == list;
  }

  /** The rows of the top of the stack come first. */
  lemma PopOne(children: Children, limit: nat, expanded: Path -> bool, stack: seq<Row>, rows: seq<Row>)
    requires IsTree(children, limit) && stack != [] && forall r :: r in stack ==> |r.node.path| <= limit
    ensures var row, rest := stack[|stack| - 1], stack[..|stack| - 1];
            && rows + StackRows(children, limit, expanded, stack)
               == rows + [row] + (Below(children, limit, expanded, row) + StackRows(children, limit, expanded, rest))
            && |StackRows(children, limit, expanded, stack)|
               == 1 + |Below(children, limit, expanded, row)| + |StackRows(children, limit, expanded, rest)|
  {
    var row, rest := stack[|stack| - 1], StackRows(children, limit, expanded, stack[..|stack| - 1]);
    var below := Below(children, limit, expanded, row);
    Regroup([row], below, rest);
    Regroup(rows, [row], below + rest);
  }

  ghost function Below(children: Children, limit: nat, expanded: Path -> bool, row: Row): seq<Row>
    requires IsTree(children, limit) && |row.node.path| <= limit
  {
    if row.node.isDir && expanded(row.node.path)
    then ListRows(children, limit, expanded, Kids(children, row.node.path), |row.node.path| + 1, row.level + 1)
    else []
  }

  method PushBelow(stack: seq<Row>, row: Row, children: Children, expanded: Path -> bool, ghost limit: nat) returns (r: seq<Row>)
    requires IsTree(children, limit) && |row.node.path| <= limit && forall x :: x in stack ==> |x.node.path| <= limit
    ensures forall x :: x in r ==> |x.node.path| <= limit
    ensures StackRows(children, limit, expanded, r) == Below(children, limit, expanded, row) + StackRows(children, limit, expanded, stack)
  {
    if row.node.isDir && expanded(row.node.path) {
      var list := Kids(children, row.node.path);
      ghost var depth := |row.node.path| + 1;
      ghost var below := ListRows(children, limit, expanded, list, depth, row.level + 1);
      assert Below(children, limit, expanded, row) == below;
      r := PushAll(stack, list, row.level + 1, children, limit, expanded, depth);
    } else {
      r := stack;
      assert [] + StackRows(children, limit, expanded, stack) == StackRows(children, limit, expanded, stack);
    }
  }

  /** The explicit stack yields the pre-order. */
  method Flatten(children: Children, expanded: Path -> bool, ghost limit: nat) returns (rows: seq<Row>)
    requires IsTree(children, limit)
    ensures rows == Preorder(children, limit, expanded)
  {
    rows := [];
    var stack := PushAll([], Kids(children, []), 0, children, limit, expanded, 1);
    while |stack| > 0
      invariant forall r :: r in stack ==> |r.node.path| <= limit
      invariant rows + StackRows(children, limit, expanded, stack) == Preorder(children, limit, expanded)
      decreases |StackRows(children, limit, expanded, stack)|
    {
      PopOne(children, limit, expanded, stack, rows);
      var row := stack[|stack| - 1];
      stack := stack[..|stack| - 1];
      rows := rows + [row];
      stack := PushBelow(stack, row, children, expanded, limit);
    }
    assert rows + [] == rows;
  }

  // ------------------------------------------------------------ what shows

  /** `n` is listed below `p`, through directories that are all expanded. */
  ghost predicate Reach(children: Children, expanded: Path -> bool, p: Path, n: Node)
    decreases |n.path|
  {
    && |n.path| > |p| && n in Kids(children, Parent(n.path))
    && (Parent(n.path) == p
        || exists d :: Opens(children, expanded, d, n.path) && Reach(children, expanded, p, d))
  }

  /** `d` is the listed, expanded directory that `path` lies in. */
  ghost predicate Opens(children: Children, expanded: Path -> bool, d: Node, path: Path) {
    && path != [] && d.path == Parent(path) && d.isDir && expanded(d.path)
    && d.path != [] && d in Kids(children, Parent(d.path))
  }

  lemma {:induction false} ReachThrough(children: Children, expanded: Path -> bool, p: Path, x: Node, n: Node)
    requires x in Kids(children, p) && x.path != [] && Parent(x.path) == p && x.isDir && expanded(x.path)
    requires Reach(children, expanded, x.path, n)
    ensures Reach(children, expanded, p, n)
    decreases |n.path|
  {
    if Parent(n.path) == x.path {
      assert Opens(children, expanded, x, n.path) && Reach(children, expanded, p, x);
    } else {
      var d :| Opens(children, expanded, d, n.path) && Reach(children, expanded, x.path, d);
      ReachThrough(children, expanded, p, x, d);
    }
  }

  lemma KidsAreBelow(children: Children, limit: nat, p: Path)
    requires IsTree(children, limit)
    ensures AtDepth(Kids(children, p), |p| + 1, limit) && DistinctPaths(Kids(children, p))
    ensures forall n :: n in Kids(children, p) ==> n.path != [] && Parent(n.path) == p && p <= n.path
  {
  }

  /** Whatever the pre-order of a node's rows holds lies at or below the node, at its own depth. */
  lemma {:induction false} NodeRowsAreBelow(children: Children, limit: nat, expanded: Path -> bool, x: Node, level: nat, r: Row)
    requires IsTree(children, limit) && |x.path| <= limit && r in NodeRows(children, limit, expanded, x, level)
    ensures x.path <= r.node.path && r.level + |x.path| == level + |r.node.path|
    ensures r == Row(x, level) || (|r.node.path| > |x.path| && x.isDir && expanded(x.path) && Reach(children, expanded, x.path, r.node))
    decreases limit + 1 - |x.path|, 0, 0
  {
    if r != Row(x, level) {
      KidsAreBelow(children, limit, x.path);
      ListRowsAreBelow(children, limit, expanded, Kids(children, x.path), x.path, level + 1, r);
    }
  }

  lemma {:induction false} ListRowsAreBelow(children: Children, limit: nat, expanded: Path -> bool, list: seq<Node>, p: Path, level: nat, r: Row)
    requires IsTree(children, limit) && |p| <= limit && AtDepth(list, |p| + 1, limit)
    requires forall n :: n in list ==> n in Kids(children, p)
    requires r in ListRows(children, limit, expanded, list, |p| + 1, level)
    ensures Reach(children, expanded, p, r.node) && p <= r.node.path && r.level + |p| + 1 == level + |r.node.path|
    ensures exists x :: x in list && x.path <= r.node.path
    decreases limit - |p|, 1, |list|
  {
    var x := list[0];
    KidsAreBelow(children, limit, p);
    if r in NodeRows(children, limit, expanded, x, level) {
      NodeRowsAreBelow(children, limit, expanded, x, level, r);
      assert x in list && x in Kids(children, p);
      if r != Row(x, level) { ReachThrough(children, expanded, p, x, r.node); }
    } else {
      ListRowsAreBelow(children, limit, expanded, list[1..], p, level, r);
    }
  }

  /** A row of a list is a row of one of its nodes, and the other way round. */
  lemma {:induction false} RowOfOne(children: Children, limit: nat, expanded: Path -> bool, list: seq<Node>, depth: nat, level: nat, r: Row)
    returns (x: Node)
    requires IsTree(children, limit) && depth <= limit + 1 && AtDepth(list, depth, limit)
    requires r in ListRows(children, limit, expanded, list, depth, level)
    ensures x in list && r in NodeRows(children, limit, expanded, x, level)
    decreases |list|
  {
    x := list[0];
    if r !in NodeRows(children, limit, expanded, x, level) {
      x := RowOfOne(children, limit, expanded, list[1..], depth, level, r);
    }
  }

  lemma {:induction false} RowOfAll(children: Children, limit: nat, expanded: Path -> bool, list: seq<Node>, depth: nat, level: nat, x: Node, r: Row)
    requires IsTree(children, limit) && depth <= limit + 1 && AtDepth(list, depth, limit)
    requires x in list && r in NodeRows(children, limit, expanded, x, level)
    ensures r in ListRows(children, limit, expanded, list, depth, level)
    decreases |list|
  {
    if x != list[0] { RowOfAll(children, limit, expanded, list[1..], depth, level, x, r); }
  }

  /** The children of an expanded directory that shows, show too. */
  lemma ChildShows(children: Children, limit: nat, expanded: Path -> bool, list: seq<Node>, depth: nat, level: nat, r: Row, n: Node)
    requires IsTree(children, limit) && depth <= limit + 1 && AtDepth(list, depth, limit)
    requires r in ListRows(children, limit, expanded, list, depth, level)
    requires r.node.isDir && expanded(r.node.path) && n in Kids(children, r.node.path)
    ensures Row(n, r.level + 1) in ListRows(children, limit, expanded, list, depth, level)
  {
    var x := RowOfOne(children, limit, expanded, list, depth, level, r);
    ChildShowsBelow(children, limit, expanded, x, level, r, n);
    RowOfAll(children, limit, expanded, list, depth, level, x, Row(n, r.level + 1));
  }

  lemma {:induction false} ChildShowsBelow(children: Children, limit: nat, expanded: Path -> bool, x: Node, level: nat, r: Row, n: Node)
    requires IsTree(children, limit) && |x.path| <= limit && r in NodeRows(children, limit, expanded, x, level)
    requires r.node.isDir && expanded(r.node.path) && n in Kids(children, r.node.path)
    ensures Row(n, r.level + 1) in NodeRows(children, limit, expanded, x, level)
    decreases limit - |x.path|
  {
    if r == Row(x, level) {
      FirstChildShows(children, limit, expanded, x, level, n);
    } else {
      var y := Descend(children, limit, expanded, x, level, r);
      ChildShowsBelow(children, limit, expanded, y, level + 1, r, n);
      Ascend(children, limit, expanded, x, level, y, Row(n, r.level + 1));
    }
  }

  lemma Descend(children: Children, limit: nat, expanded: Path -> bool, x: Node, level: nat, r: Row) returns (y: Node)
    requires IsTree(children, limit) && |x.path| <= limit && r in NodeRows(children, limit, expanded, x, level) && r != Row(x, level)
    ensures x.isDir && expanded(x.path) && y in Kids(children, x.path) && |y.path| == |x.path| + 1 <= limit
    ensures r in NodeRows(children, limit, expanded, y, level + 1)
  {
    InNodeRows(children, limit, expanded, x, level, r);
    y := RowOfOne(children, limit, expanded, Kids(children, x.path), |x.path| + 1, level + 1, r);
  }

  lemma Ascend(children: Children, limit: nat, expanded: Path -> bool, x: Node, level: nat, y: Node, r: Row)
    requires IsTree(children, limit) && x.isDir && expanded(x.path) && y in Kids(children, x.path) && |y.path| == |x.path| + 1 <= limit
    requires r in NodeRows(children, limit, expanded, y, level + 1)
    ensures r in NodeRows(children, limit, expanded, x, level)
  {
    InNodeRows(children, limit, expanded, x, level, r);
    RowOfAll(children, limit, expanded, Kids(children, x.path), |x.path| + 1, level + 1, y, r);
  }

  lemma FirstChildShows(children: Children, limit: nat, expanded: Path -> bool, x: Node, level: nat, n: Node)
    requires IsTree(children, limit) && |x.path| <= limit && x.isDir && expanded(x.path) && n in Kids(children, x.path)
    ensures Row(n, level + 1) in NodeRows(children, limit, expanded, x, level)
  {
    InNodeRows(children, limit, expanded, x, level, Row(n, level + 1));
    Listed(children, limit, expanded, Kids(children, x.path), |x.path| + 1, level + 1, n);
  }

  lemma InNodeRows(children: Children, limit: nat, expanded: Path -> bool, x: Node, level: nat, r: Row)
    requires IsTree(children, limit) && |x.path| <= limit
    ensures AtDepth(Kids(children, x.path), |x.path| + 1, limit)
    ensures r in NodeRows(children, limit, expanded, x, level) <==>
            r == Row(x, level)
            || (x.isDir && expanded(x.path) && r in ListRows(children, limit, expanded, Kids(children, x.path), |x.path| + 1, level + 1))
  {
    KidsAreBelow(children, limit, x.path);
  }

  lemma {:induction false} Listed(children: Children, limit: nat, expanded: Path -> bool, list: seq<Node>, depth: nat, level: nat, n: Node)
    requires IsTree(children, limit) && depth <= limit + 1 && AtDepth(list, depth, limit)
    requires n in list
    ensures Row(n, level) in ListRows(children, limit, expanded, list, depth, level)
    decreases |list|
  {
    if n != list[0] { Listed(children, limit, expanded, list[1..], depth, level, n); }
  }

  lemma {:induction false} ReachedShows(children: Children, limit: nat, expanded: Path -> bool, n: Node)
    requires IsTree(children, limit) && Reach(children, expanded, [], n)
    ensures Row(n, |n.path| - 1) in Preorder(children, limit, expanded)
    decreases |n.path|
  {
    if Parent(n.path) == [] {
      RootShows(children, limit, expanded, n);
    } else {
      var d :| Opens(children, expanded, d, n.path) && Reach(children, expanded, [], d);
      ReachedShows(children, limit, expanded, d);
      NextShows(children, limit, expanded, d, n);
    }
  }

  lemma RootShows(children: Children, limit: nat, expanded: Path -> bool, n: Node)
    requires IsTree(children, limit) && |n.path| == 1 && n in Kids(children, [])
    ensures Row(n, 0) in Preorder(children, limit, expanded)
  {
    KidsAreBelow(children, limit, []);
    Listed(children, limit, expanded, Kids(children, []), 1, 0, n);
  }

  lemma NextShows(children: Children, limit: nat, expanded: Path -> bool, d: Node, n: Node)
    requires IsTree(children, limit) && Opens(children, expanded, d, n.path) && n in Kids(children, d.path)
    requires Row(d, |d.path| - 1) in Preorder(children, limit, expanded)
    ensures Row(n, |n.path| - 1) in Preorder(children, limit, expanded)
  {
    KidsAreBelow(children, limit, []);
    ChildShows(children, limit, expanded, Kids(children, []), 1, 0, Row(d, |d.path| - 1), n);
  }

  ghost predicate RowsDistinct(rows: seq<Row>) {
    forall i, j :: 0 <= i < j < |rows| ==> rows[i].node.path != rows[j].node.path
  }

  lemma {:induction false} NodeRowsDistinct(children: Children, limit: nat, expanded: Path -> bool, x: Node, level: nat)
    requires IsTree(children, limit) && |x.path| <= limit
    ensures RowsDistinct(NodeRows(children, limit, expanded, x, level))
    decreases limit + 1 - |x.path|, 0, 0
  {
    if x.isDir && expanded(x.path) {
      KidsAreBelow(children, limit, x.path);
      var kids := Kids(children, x.path);
      var below := ListRows(children, limit, expanded, kids, |x.path| + 1, level + 1);
      ListRowsDistinct(children, limit, expanded, kids, x.path, level + 1);
      forall i | 0 <= i < |below| ensures below[i].node.path != x.path {
        ListRowsAreBelow(children, limit, expanded, kids, x.path, level + 1, below[i]);
      }
    }
  }

  lemma {:induction false} ListRowsDistinct(children: Children, limit: nat, expanded: Path -> bool, list: seq<Node>, p: Path, level: nat)
    requires IsTree(children, limit) && |p| <= limit && AtDepth(list, |p| + 1, limit)
    requires DistinctPaths(list) && forall n :: n in list ==> n in Kids(children, p)
    ensures RowsDistinct(ListRows(children, limit, expanded, list, |p| + 1, level))
    decreases limit - |p|, 1, |list|
  {
    if list != [] {
      var x, rest := list[0], list[1..];
      assert list == [x] + rest;
      DistinctParts(x, rest);
      NodeRowsDistinct(children, limit, expanded, x, level);
      ListRowsDistinct(children, limit, expanded, rest, p, level);
      SiblingsApart(children, limit, expanded, x, rest, p, level);
    }
  }

  lemma SiblingsApart(children: Children, limit: nat, expanded: Path -> bool, x: Node, rest: seq<Node>, p: Path, level: nat)
    requires IsTree(children, limit) && |p| <= limit && |x.path| == |p| + 1 <= limit && AtDepth(rest, |p| + 1, limit)
    requires forall n :: n in rest ==> n in Kids(children, p) && n.path != x.path
    ensures forall r, t :: r in NodeRows(children, limit, expanded, x, level) && t in ListRows(children, limit, expanded, rest, |p| + 1, level)
              ==> r.node.path != t.node.path
  {
    forall r, t | r in NodeRows(children, limit, expanded, x, level) && t in ListRows(children, limit, expanded, rest, |p| + 1, level)
      ensures r.node.path != t.node.path
    {
      NodeRowsAreBelow(children, limit, expanded, x, level, r);
      ListRowsAreBelow(children, limit, expanded, rest, p, level, t);
      var y :| y in rest && y.path <= t.node.path;
      if r.node.path == t.node.path { PrefixesAgree(x.path, y.path, r.node.path); }
    }
  }

  lemma PrefixesAgree(a: Path, b: Path, c: Path)
    requires a <= c && b <= c && |a| == |b|
    ensures a == b
  {
    assert a == c[..|a|] && b == c[..|b|];
  }

  /** The flattened tree: each node reached through expanded directories, and no other, has one row,
      at the level of its depth. */
  lemma RowsAreTheReached(children: Children, limit: nat, expanded: Path -> bool)
    requires IsTree(children, limit)
    ensures RowsDistinct(Preorder(children, limit, expanded))
    ensures forall r :: r in Preorder(children, limit, expanded) <==> Reach(children, expanded, [], r.node) && r.level == |r.node.path| - 1
  {
    var roots := Kids(children, []);
    KidsAreBelow(children, limit, []);
    ListRowsDistinct(children, limit, expanded, roots, [], 0);
    forall r | r in Preorder(children, limit, expanded) ensures Reach(children, expanded, [], r.node) && r.level == |r.node.path| - 1 {
      ListRowsAreBelow(children, limit, expanded, roots, [], 0, r);
    }
    forall r: Row | Reach(children, expanded, [], r.node) && r.level == |r.node.path| - 1 ensures r in Preorder(children, limit, expanded) {
      ReachedShows(children, limit, expanded, r.node);
      assert r == Row(r.node, |r.node.path| - 1);
    }
  }

  /** A path above comes first; of two that part below a common one, that of the sibling listed first. */
  ghost predicate ShownBefore(children: Children, a: Path, b: Path) {
    || a < b
    || exists p, i, j :: 0 <= i < j < |Kids(children, p)| && Kids(children, p)[i].path <= a && Kids(children, p)[j].path <= b
  }

  ghost predicate ShownInOrder(children: Children, rows: seq<Row>) {
    forall i, j :: 0 <= i < j < |rows| ==> ShownBefore(children, rows[i].node.path, rows[j].node.path)
  }

  lemma {:induction false} NodeRowsInOrder(children: Children, limit: nat, expanded: Path -> bool, x: Node, level: nat)
    requires IsTree(children, limit) && |x.path| <= limit
    ensures ShownInOrder(children, NodeRows(children, limit, expanded, x, level))
    decreases limit + 1 - |x.path|, 0, 0
  {
    if x.isDir && expanded(x.path) {
      KidsAreBelow(children, limit, x.path);
      var kids := Kids(children, x.path);
      var below := ListRows(children, limit, expanded, kids, |x.path| + 1, level + 1);
      assert kids[0..] == kids;
      ListRowsInOrder(children, limit, expanded, x.path, 0, level + 1);
      forall i | 0 <= i < |below| ensures x.path < below[i].node.path {
        ListRowsAreBelow(children, limit, expanded, kids, x.path, level + 1, below[i]);
      }
    }
  }

  lemma {:induction false} ListRowsInOrder(children: Children, limit: nat, expanded: Path -> bool, p: Path, k: nat, level: nat)
    requires IsTree(children, limit) && |p| <= limit && k <= |Kids(children, p)|
    requires AtDepth(Kids(children, p), |p| + 1, limit)
    ensures ShownInOrder(children, ListRows(children, limit, expanded, Kids(children, p)[k..], |p| + 1, level))
    decreases limit - |p|, 1, |Kids(children, p)| - k
  {
    var kids := Kids(children, p);
    if k < |kids| {
      var x, rest := kids[k], kids[k + 1..];
      assert kids[k..][0] == x && kids[k..][1..] == rest;
      NodeRowsInOrder(children, limit, expanded, x, level);
      ListRowsInOrder(children, limit, expanded, p, k + 1, level);
      SiblingsInOrder(children, limit, expanded, p, k, level);
      JoinedInOrder(children, NodeRows(children, limit, expanded, x, level), ListRows(children, limit, expanded, rest, |p| + 1, level));
    }
  }

  lemma SiblingsInOrder(children: Children, limit: nat, expanded: Path -> bool, p: Path, k: nat, level: nat)
    requires IsTree(children, limit) && |p| <= limit && k < |Kids(children, p)|
    requires AtDepth(Kids(children, p), |p| + 1, limit)
    ensures forall r, t | r in NodeRows(children, limit, expanded, Kids(children, p)[k], level)
                          && t in ListRows(children, limit, expanded, Kids(children, p)[k + 1..], |p| + 1, level)
              :: ShownBefore(children, r.node.path, t.node.path)
  {
    var kids := Kids(children, p);
    forall r, t | r in NodeRows(children, limit, expanded, kids[k], level)
                  && t in ListRows(children, limit, expanded, kids[k + 1..], |p| + 1, level)
      ensures ShownBefore(children, r.node.path, t.node.path)
    {
      NodeRowsAreBelow(children, limit, expanded, kids[k], level, r);
      ListRowsAreBelow(children, limit, expanded, kids[k + 1..], p, level, t);
      PartedInOrder(children, p, k, r.node.path, t.node.path);
    }
  }

  lemma PartedInOrder(children: Children, p: Path, k: nat, a: Path, b: Path)
    requires k < |Kids(children, p)| && Kids(children, p)[k].path <= a
    requires exists y :: y in Kids(children, p)[k + 1..] && y.path <= b
    ensures ShownBefore(children, a, b)
  {
    var rest := Kids(children, p)[k + 1..];
    var y :| y in rest && y.path <= b;
    var j :| 0 <= j < |rest| && rest[j] == y;
    assert Kids(children, p)[k + 1 + j].path <= b;
  }

  lemma JoinedInOrder(children: Children, first: seq<Row>, rest: seq<Row>)
    requires ShownInOrder(children, first) && ShownInOrder(children, rest)
    requires forall r, t | r in first && t in rest :: ShownBefore(children, r.node.path, t.node.path)
    ensures ShownInOrder(children, first + rest)
  {
    var all := first + rest;
    forall i, j | 0 <= i < j < |all| ensures ShownBefore(children, all[i].node.path, all[j].node.path) {
      if i < |first| <= j { assert all[i] in first && all[j] in rest; }
    }
  }

  /** The rows come in the order of the tree: each before the rows below it, and siblings with all that
      is below them in the order they are listed. */
  lemma RowsAreInOrder(children: Children, limit: nat, expanded: Path -> bool)
    requires IsTree(children, limit)
    ensures ShownInOrder(children, Preorder(children, limit, expanded))
  {
    KidsAreBelow(children, limit, []);
    assert Kids(children, [])[0..] == Kids(children, []);
    ListRowsInOrder(children, limit, expanded, [], 0, 0);
  }

  ghost predicate AllShow(children: Children, nodes: seq<Node>, limit: nat, expanded: Path -> bool)
    requires IsTree(children, limit)
  {
    forall n :: n in nodes ==> exists r :: r in Preorder(children, limit, expanded) && r.node == n
  }

  /** With every directory expanded, every node shows exactly when no file has a node below it. */
  lemma AllShowIffNoneBelowAFile(children: Children, nodes: seq<Node>, files: seq<Path>, limit: nat, expanded: Path -> bool)
    requires NodesOf(nodes, files) && IsTreeOf(children, nodes, limit) && forall p :: expanded(p)
    ensures AllShow(children, nodes, limit, expanded) <==> forall f :: f in nodes && !f.isDir ==> Kids(children, f.path) == []
  {
    RowsAreTheReached(children, limit, expanded);
    if forall f :: f in nodes && !f.isDir ==> Kids(children, f.path) == [] {
      forall n | n in nodes ensures exists r :: r in Preorder(children, limit, expanded) && r.node == n {
        IsReached(children, nodes, files, limit, expanded, n);
        assert Row(n, |n.path| - 1) in Preorder(children, limit, expanded);
      }
    } else {
      var f :| f in nodes && !f.isDir && Kids(children, f.path) != [];
      var k := Kids(children, f.path)[0];
      assert k in children[f.path];
      assert Parent(k.path) == f.path && f.path != [] by { assert IsNode(nodes, f.path); }
      assert k in nodes;
      forall d | Opens(children, expanded, d, k.path) ensures d == f {
        assert d in nodes;
        SamePathSameNode(nodes, d, f);
      }
      assert !Reach(children, expanded, [], k);
    }
  }

  lemma SamePathSameNode(nodes: seq<Node>, a: Node, b: Node)
    requires DistinctPaths(nodes) && a in nodes && b in nodes && a.path == b.path
    ensures a == b
  {
  }

  lemma {:induction false} IsReached(children: Children, nodes: seq<Node>, files: seq<Path>, limit: nat, expanded: Path -> bool, n: Node)
    requires NodesOf(nodes, files) && IsTreeOf(children, nodes, limit) && forall p :: expanded(p)
    requires forall f :: f in nodes && !f.isDir ==> Kids(children, f.path) == []
    requires n in nodes
    ensures Reach(children, expanded, [], n)
    decreases |n.path|
  {
    if Parent(n.path) != [] {
      assert IsNode(nodes, n.path);
      var i :| 0 <= i < |files| && n.path <= files[i];
      assert Parent(n.path) <= files[i];
      assert IsNode(nodes, Parent(n.path));
      var j :| 0 <= j < |nodes| && nodes[j].path == Parent(n.path);
      var d := nodes[j];
      assert d in nodes;
      IsReached(children, nodes, files, limit, expanded, d);
      assert Opens(children, expanded, d, n.path);
    }
  }

  /** Other given paths lie inside `p`, but `p` came first. */
  ghost predicate Hides(files: seq<Path>, p: Path) {
    p != [] && FileFirst(files, p) && IsAboveFile(files, p)
  }

  /** With every directory expanded, every node shows exactly when no given path comes, as a file,
      before every path that lies inside it while there is one that does. */
  lemma AllNodesShow(children: Children, nodes: seq<Node>, files: seq<Path>, limit: nat, expanded: Path -> bool)
    requires NodesOf(nodes, files) && IsTreeOf(children, nodes, limit) && forall p :: expanded(p)
    ensures AllShow(children, nodes, limit, expanded) <==> forall p :: p in files ==> !Hides(files, p)
  {
    AllShowIffNoneBelowAFile(children, nodes, files, limit, expanded);
    forall p | Hides(files, p) ensures exists f :: f in nodes && !f.isDir && Kids(children, f.path) != [] {
      HidingHasKids(children, nodes, files, limit, p);
    }
    forall f | f in nodes && !f.isDir && Kids(children, f.path) != [] ensures f.path in files && Hides(files, f.path) {
      KidsHide(children, nodes, files, limit, f);
    }
  }

  lemma HidingHasKids(children: Children, nodes: seq<Node>, files: seq<Path>, limit: nat, p: Path)
    requires NodesOf(nodes, files) && IsTreeOf(children, nodes, limit) && Hides(files, p)
    ensures exists f :: f in nodes && !f.isDir && Kids(children, f.path) != []
  {
    var j :| 0 <= j < |files| && p < files[j];
    var below := files[j][..|p| + 1];
    assert below <= files[j] && p <= files[j] && Parent(below) == p;
    var f := NodeAt(nodes, files, p);
    var k := NodeAt(nodes, files, below);
    assert k in Kids(children, p);
  }

  lemma NodeAt(nodes: seq<Node>, files: seq<Path>, p: Path) returns (n: Node)
    requires NodesOf(nodes, files) && IsPrefixOfFile(files, p)
    ensures n in nodes && n.path == p && (n.isDir <==> !FileFirst(files, p))
  {
    assert IsNode(nodes, p);
    var i :| 0 <= i < |nodes| && nodes[i].path == p;
    n := nodes[i];
  }

  lemma KidsHide(children: Children, nodes: seq<Node>, files: seq<Path>, limit: nat, f: Node)
    requires NodesOf(nodes, files) && IsTreeOf(children, nodes, limit)
    requires f in nodes && !f.isDir && Kids(children, f.path) != []
    ensures f.path in files && Hides(files, f.path)
  {
    var i :| 0 <= i < |nodes| && nodes[i] == f;
    var k := Kids(children, f.path)[0];
    assert k in children[f.path] && IsKid(k, f.path, limit);
    assert k in nodes && IsNode(nodes, k.path) && IsNode(nodes, f.path);
    var j :| 0 <= j < |files| && k.path <= files[j];
    assert f.path < files[j];
  }

  /** So everything shows when no given path lies inside another. */
  lemma SeparateFilesAllShow(children: Children, nodes: seq<Node>, files: seq<Path>, limit: nat, expanded: Path -> bool)
    requires NodesOf(nodes, files) && IsTreeOf(children, nodes, limit) && forall p :: expanded(p)
    requires forall i, j :: 0 <= i < |files| && 0 <= j < |files| ==> !(files[i] < files[j])
    ensures AllShow(children, nodes, limit, expanded)
  {
    AllNodesShow(children, nodes, files, limit, expanded);
    forall p | p in files ensures !Hides(files, p) {
      var i :| 0 <= i < |files| && files[i] == p;
    }
  }

  /** A file hides what is below it if it comes first. */
  lemma FileFirstHides(children: Children, nodes: seq<Node>, limit: nat, expanded: Path -> bool, a: Text, b: Text)
    requires NodesOf(nodes, [[a], [a, b]]) && IsTreeOf(children, nodes, limit) && forall p :: expanded(p)
    ensures !AllShow(children, nodes, limit, expanded)
  {
    var files := [[a], [a, b]];
    AllNodesShow(children, nodes, files, limit, expanded);
    assert files[0] <= files[0] && files[0] < files[1];
    assert FirstWith(files, files[0]) == 0;
    assert files[0] in files && Hides(files, files[0]);
  }

  /** The same two paths the other way round hide nothing. */
  lemma DirectoryFirstShows(children: Children, nodes: seq<Node>, limit: nat, expanded: Path -> bool, a: Text, b: Text)
    requires NodesOf(nodes, [[a, b], [a]]) && IsTreeOf(children, nodes, limit) && forall p :: expanded(p)
    ensures AllShow(children, nodes, limit, expanded)
  {
    var files := [[a, b], [a]];
    AllNodesShow(children, nodes, files, limit, expanded);
    assert files[1] <= files[0];
    assert FirstWith(files, files[1]) == 0;
  }
}
