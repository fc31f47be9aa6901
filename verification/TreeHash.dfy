/** The canonical byte stream of a workspace tree that is fed to the hash: the length-prefixed v3 form and
    the older v2 text form. */
module TreeHash {
  import opened Bytes
  import opened Leb128

  /** One path below the root.  A file is known by the 32-byte digest of its content. */
  type Digest = t: Text | |t| == 32 witness seq(32, _ => 0)
  datatype Node = Dir | File(exec: bool, digest: Digest) | Link(target: Text)
  datatype Entry = Entry(rel: Text, node: Node)

  type NodeTree = map<Text, Node>

  ghost function Rels(es: seq<Entry>): seq<Text> {
    seq(|es|, i requires 0 <= i < |es| => es[i].rel)
  }

  /** es lists the tree t, sorted by path. */
  ghost predicate IsListing(t: NodeTree, es: seq<Entry>) {
    && StrictlySorted(Rels(es))
    && Elements(Rels(es)) == t.Keys
    && forall i :: 0 <= i < |es| ==> es[i].rel in t && t[es[i].rel] == es[i].node
  }

  /** collectTree: entries arrive in the order of the directory walk and are then sorted by path. */
  method CollectTree(t: NodeTree, walk: seq<Text>) returns (es: seq<Entry>)
    requires Elements(walk) == t.Keys
    ensures IsListing(t, es)
  {
    var sorted := SortedKeys(set p | p in walk);
    assert Elements(walk) == Elements(sorted);
    es := [];
    for k := 0 to |sorted|
      invariant Rels(es) == sorted[..k]
      invariant forall i :: 0 <= i < |es| ==> es[i].rel in t && t[es[i].rel] == es[i].node
    {
      assert sorted[k] in Elements(sorted);
      es := es + [Entry(sorted[k], t[sorted[k]])];
    }
    assert sorted[..|sorted|] == sorted;
  }

  // ----- v3

  function LengthPrefixed(t: Text): Text { Uvarint(|t|) + t }

  const KIND_DIR: byte := 100
  const KIND_FILE: byte := 102
  const KIND_LINK: byte := 108

  function KindByte(n: Node): byte {
    match n case Dir => KIND_DIR case File(_, _) => KIND_FILE case Link(_) => KIND_LINK
  }

  /** What follows the path of an entry. */
  function BodyV3(n: Node): Text {
    match n
    case Dir => []
    case File(exec, digest) => [if exec then 1 else 0] + digest
    case Link(target) => LengthPrefixed(target)
  }

  function EncodeV3(e: Entry): Text {
    [KindByte(e.node)] + (LengthPrefixed(e.rel) + BodyV3(e.node))
  }

  function EncodeAllV3(es: seq<Entry>): Text {
    if es == [] then [] else EncodeV3(es[0]) + EncodeAllV3(es[1..])
  }

  function StreamV3(es: seq<Entry>): Text { Ascii("wayshard-tree-v3\n") + EncodeAllV3(es) }

  lemma {:induction false} EncodeAllAppend(es: seq<Entry>, e: Entry)
    ensures EncodeAllV3(es + [e]) == EncodeAllV3(es) + EncodeV3(e)
  {
    if es == [] {
      assert EncodeAllV3([e]) == EncodeV3(e) + EncodeAllV3([]);
    } else {
      EncodeAllAppend(es[1..], e);
      assert (es + [e])[1..] == es[1..] + [e];
    }
  }

  /** The bytes CanonicalTreeHashV3 writes to its hash, in the order it writes them. */
  method WriteV3(es: seq<Entry>) returns (h: Text)
    ensures h == StreamV3(es)
  {
    h := Ascii("wayshard-tree-v3\n");
    for k := 0 to |es|
      invariant h == StreamV3(es[..k])
    {
      StreamGrows(es[..k], es[k]);
      assert es[..k + 1] == es[..k] + [es[k]];
      h := WriteEntry(h, es[k]);
    }
    assert es[..|es|] == es;
  }

  lemma StreamGrows(es: seq<Entry>, e: Entry)
    ensures StreamV3(es + [e]) == StreamV3(es) + EncodeV3(e)
  {
    RegroupTwo(Ascii("wayshard-tree-v3\n"), EncodeAllV3(es), EncodeV3(e));
    EncodeAllAppend(es, e);
  }

  method WriteEntry(before: Text, e: Entry) returns (h: Text)
    ensures h == before + EncodeV3(e)
  {
    h := before + [KindByte(e.node)];
    h := WriteLengthPrefixed(h, e.rel);
    ghost var head := h;
    match e.node {
      case Dir =>
      case File(exec, digest) =>
        h := h + [if exec then 1 else 0];
        h := h + digest;
      case Link(target) =>
        h := WriteLengthPrefixed(h, target);
    }
    assert h == head + BodyV3(e.node);
    Regroup(before, [KindByte(e.node)], LengthPrefixed(e.rel), BodyV3(e.node));
  }

  lemma Regroup(p: Text, a: Text, b: Text, c: Text)
    ensures p + a + b + c == p + (a + (b + c))
  {
  }

  lemma RegroupTwo(p: Text, a: Text, b: Text)
    ensures (p + a) + b == p + (a + b)
  {
  }

  lemma Cancel(p: Text, a: Text, b: Text)
    requires p + a == p + b
    ensures a == b
  {
    assert a == (p + a)[|p|..] && b == (p + b)[|p|..];
  }

  method WriteLengthPrefixed(h: Text, t: Text) returns (r: Text)
    ensures r == h + LengthPrefixed(t)
  {
    var n := PutUvarint(|t|);
    r := h + n;
    r := r + t;
  }

  lemma LengthPrefixedSplits(x: Text, y: Text, a: Text, b: Text)
    requires LengthPrefixed(x) + a == LengthPrefixed(y) + b
    ensures x == y && a == b
  {
    assert LengthPrefixed(x) + a == Uvarint(|x|) + (x + a);
    assert LengthPrefixed(y) + b == Uvarint(|y|) + (y + b);
    UvarintSplits(|x|, |y|, x + a, y + b);
    assert x == (x + a)[..|x|] && a == (x + a)[|x|..];
    assert y == (y + b)[..|y|] && b == (y + b)[|y|..];
  }

  lemma BodySplits(m: Node, n: Node, a: Text, b: Text)
    requires KindByte(m) == KindByte(n)
    requires BodyV3(m) + a == BodyV3(n) + b
    ensures m == n && a == b
  {
    match m {
      case Dir =>
        assert BodyV3(m) + a == a && BodyV3(n) + b == b;
      case File(x, g) =>
        var s := BodyV3(m) + a;
        assert s[0] == BodyV3(m)[0] && s[0] == BodyV3(n)[0];
        assert g == s[1..33] && n.digest == (BodyV3(n) + b)[1..33];
        assert a == s[33..] && b == (BodyV3(n) + b)[33..];
      case Link(t) =>
        LengthPrefixedSplits(t, n.target, a, b);
    }
  }

  /** The v3 form of an entry is self-delimiting. */
  lemma EntrySplits(d: Entry, e: Entry, a: Text, b: Text)
    requires EncodeV3(d) + a == EncodeV3(e) + b
    ensures d == e && a == b
  {
    var restD, restE := BodyV3(d.node) + a, BodyV3(e.node) + b;
    var s := EncodeV3(d) + a;
    assert s == [KindByte(d.node)] + (LengthPrefixed(d.rel) + restD);
    assert s == [KindByte(e.node)] + (LengthPrefixed(e.rel) + restE);
    assert s[0] == KindByte(d.node) && s[0] == KindByte(e.node);
    Cancel([s[0]], LengthPrefixed(d.rel) + restD, LengthPrefixed(e.rel) + restE);
    LengthPrefixedSplits(d.rel, e.rel, restD, restE);
    BodySplits(d.node, e.node, a, b);
  }

  /** The bytes of an entry whose path and target are shorter than 128 bytes, as the format has them. */
  lemma ShortEntryBytes(rel: Text, exec: bool, digest: Digest, target: Text)
    requires |rel| < 128 && |target| < 128
    ensures EncodeV3(Entry(rel, Dir)) == [100, |rel|] + rel
    ensures EncodeV3(Entry(rel, File(exec, digest))) == [102, |rel|] + rel + [if exec then 1 else 0] + digest
    ensures EncodeV3(Entry(rel, Link(target))) == [108, |rel|] + rel + [|target|] + target
  {
    assert Uvarint(|rel|) == [|rel|] && Uvarint(|target|) == [|target|];
    Regroup([100], [|rel|], rel, []);
    Regroup([102], [|rel|] + rel, [if exec then 1 else 0], digest);
    Regroup([108], [|rel|] + rel, [|target|], target);
  }

  lemma {:induction false} EncodeAllInjective(d: seq<Entry>, e: seq<Entry>)
    requires EncodeAllV3(d) == EncodeAllV3(e)
    ensures d == e
  {
    if d != [] && e != [] {
      EntrySplits(d[0], e[0], EncodeAllV3(d[1..]), EncodeAllV3(e[1..]));
      EncodeAllInjective(d[1..], e[1..]);
      assert d == [d[0]] + d[1..] && e == [e[0]] + e[1..];
    }
  }

  lemma ListingUnique(t: NodeTree, d: seq<Entry>, e: seq<Entry>)
    requires IsListing(t, d) && IsListing(t, e)
    ensures d == e
  {
    SortedUnique(Rels(d), Rels(e));
    assert |d| == |Rels(d)| && |e| == |Rels(e)|;
    forall i | 0 <= i < |d| ensures d[i] == e[i] {
      assert Rels(d)[i] == Rels(e)[i];
    }
  }

  lemma ListingExists(t: NodeTree)
    ensures exists es :: IsListing(t, es)
  {
    var keys := SortedSeq(t.Keys);
    var es := seq(|keys|, i requires 0 <= i < |keys| => assert keys[i] in Elements(keys); Entry(keys[i], t[keys[i]]));
    assert forall i :: 0 <= i < |keys| ==> keys[i] in Elements(keys);
    assert Rels(es) == keys;
    assert forall i :: 0 <= i < |es| ==> es[i].rel in t && t[es[i].rel] == es[i].node;
    assert IsListing(t, es);
  }

  /** The one listing of a tree. */
  ghost function ListingOf(t: NodeTree): (es: seq<Entry>)
    ensures IsListing(t, es)
  {
    ListingExists(t);
    var es :| IsListing(t, es);
    es
  }

  /** Two trees have the same v3 stream exactly when they are the same tree, however they were walked. */
  lemma V3IsCanonical(t: NodeTree, u: NodeTree, d: seq<Entry>, e: seq<Entry>)
    requires IsListing(t, d) && IsListing(u, e)
    ensures StreamV3(d) == StreamV3(e) <==> t == u
  {
    if StreamV3(d) == StreamV3(e) {
      Cancel(Ascii("wayshard-tree-v3\n"), EncodeAllV3(d), EncodeAllV3(e));
      EncodeAllInjective(d, e);
      forall p | p in t ensures t[p] == u[p] {
        assert p in Elements(Rels(d));
        var i :| 0 <= i < |d| && Rels(d)[i] == p;
      }
    } else if t == u {
      ListingUnique(t, d, e);
    }
  }

  // ----- v2

  function HexDigit(n: nat): (d: byte)
    requires n < 16
    ensures d == "0123456789abcdef"[n] as int
  {
    if n < 10 then 48 + n else 87 + n
  }

  function Hex(t: Text): (r: Text)
    ensures |r| == 2 * |t| && forall i :: 0 <= i < |r| ==> r[i] != NEWLINE
  {
    if t == [] then [] else [HexDigit(t[0] / 16), HexDigit(t[0] % 16)] + Hex(t[1..])
  }

  /** The part of a v2 line after the path; sha digests a symlink's target. */
  function TailV2(sha: Text -> Digest, n: Node): Text {
    match n
    case Dir => []
    case File(exec, digest) => [SPACE, if exec then 120 else 45, SPACE] + Hex(digest)
    case Link(target) => [SPACE] + Hex(sha(target))
  }

  function LineV2(sha: Text -> Digest, e: Entry): Text {
    [KindByte(e.node), SPACE] + (e.rel + TailV2(sha, e.node))
  }

  /** The lines of the three kinds of entry. */
  lemma LineText(sha: Text -> Digest, rel: Text, exec: bool, digest: Digest, target: Text)
    ensures LineV2(sha, Entry(rel, Dir)) == Ascii("d ") + rel
    ensures LineV2(sha, Entry(rel, File(exec, digest))) == Ascii("f ") + rel + Ascii(if exec then " x " else " - ") + Hex(digest)
    ensures LineV2(sha, Entry(rel, Link(target))) == Ascii("l ") + rel + Ascii(" ") + Hex(sha(target))
  {
    Regroup([], Ascii("f "), rel, Ascii(if exec then " x " else " - ") + Hex(digest));
    assert Ascii(if exec then " x " else " - ") == [32, if exec then 120 else 45, 32];
    assert Ascii("d ") == [100, 32] && Ascii("f ") == [102, 32] && Ascii("l ") == [108, 32] && Ascii(" ") == [32];
  }

  function LinesV2(sha: Text -> Digest, es: seq<Entry>): Text {
    if es == [] then [] else LineV2(sha, es[0]) + [NEWLINE] + LinesV2(sha, es[1..])
  }

  function StreamV2(sha: Text -> Digest, es: seq<Entry>): Text { Ascii("wayshard-tree-v2\n") + LinesV2(sha, es) }

  /** The v2 text does not separate a directory whose name holds a newline from two directories. */
  lemma V2Collides(sha: Text -> Digest) returns (t: NodeTree, u: NodeTree, d: seq<Entry>, e: seq<Entry>)
    ensures IsListing(t, d) && IsListing(u, e)
    ensures t != u && StreamV2(sha, d) == StreamV2(sha, e)
    ensures StreamV3(d) != StreamV3(e)
  {
    var a: Text, b: Text, ab: Text := [97], [98], [97, NEWLINE, KIND_DIR, SPACE, 98];
    t, u := map[ab := Dir], map[a := Dir, b := Dir];
    d, e := [Entry(ab, Dir)], [Entry(a, Dir), Entry(b, Dir)];
    assert Rels(d) == [ab] && Rels(e) == [a, b];
    assert ab in t && a in u && b in u && ab !in u;
    SameLinesV2(sha, a, b, ab);
    V3IsCanonical(t, u, d, e);
  }

  lemma SameLinesV2(sha: Text -> Digest, a: Text, b: Text, ab: Text)
    requires ab == a + [NEWLINE, KIND_DIR, SPACE] + b
    ensures StreamV2(sha, [Entry(ab, Dir)]) == StreamV2(sha, [Entry(a, Dir), Entry(b, Dir)])
  {
    var d, e := [Entry(ab, Dir)], [Entry(a, Dir), Entry(b, Dir)];
    assert LinesV2(sha, [Entry(b, Dir)]) == [KIND_DIR, SPACE] + b + [NEWLINE] + LinesV2(sha, []);
    assert e[1..] == [Entry(b, Dir)] && d[1..] == [];
    assert LinesV2(sha, e) == [KIND_DIR, SPACE] + a + [NEWLINE] + LinesV2(sha, e[1..]);
    assert LinesV2(sha, d) == [KIND_DIR, SPACE] + ab + [NEWLINE] + LinesV2(sha, d[1..]);
  }

  ghost predicate NoNewline(t: Text) { forall i :: 0 <= i < |t| ==> t[i] != NEWLINE }

  /** What a v2 line says about an entry: a symlink's target only through its digest. */
  ghost predicate SameToV2(sha: Text -> Digest, d: Entry, e: Entry) {
    d == e || (d.rel == e.rel && d.node.Link? && e.node.Link? && sha(d.node.target) == sha(e.node.target))
  }

  lemma {:induction false} HexInjective(a: Text, b: Text)
    requires Hex(a) == Hex(b)
    ensures a == b
  {
    if a != [] && b != [] {
      assert Hex(a)[0] == Hex(b)[0] && Hex(a)[1] == Hex(b)[1];
      assert Hex(a)[2..] == Hex(a[1..]) && Hex(b)[2..] == Hex(b[1..]);
      HexInjective(a[1..], b[1..]);
      assert a[0] == 16 * (a[0] / 16) + a[0] % 16;
      assert a == [a[0]] + a[1..] && b == [b[0]] + b[1..];
    }
  }

  lemma LineV2Determines(sha: Text -> Digest, d: Entry, e: Entry)
    requires LineV2(sha, d) == LineV2(sha, e)
    ensures SameToV2(sha, d, e)
  {
    var s, n := LineV2(sha, d), |TailV2(sha, d.node)|;
    assert s[0] == LineV2(sha, e)[0];
    assert LineV2(sha, e) == s[..2] + (e.rel + TailV2(sha, e.node));
    Cancel(s[..2], d.rel + TailV2(sha, d.node), e.rel + TailV2(sha, e.node));
    assert |TailV2(sha, e.node)| == n;
    SuffixSplits(d.rel, e.rel, TailV2(sha, d.node), TailV2(sha, e.node));
    match d.node {
      case Dir =>
      case File(x, g) =>
        assert TailV2(sha, d.node)[1] == TailV2(sha, e.node)[1];
        Cancel(TailV2(sha, d.node)[..3], Hex(g), Hex(e.node.digest));
        HexInjective(g, e.node.digest);
      case Link(t) =>
        Cancel([SPACE], Hex(sha(t)), Hex(sha(e.node.target)));
        HexInjective(sha(t), sha(e.node.target));
    }
  }

  lemma SuffixSplits(x: Text, y: Text, a: Text, b: Text)
    requires x + a == y + b && |a| == |b|
    ensures x == y && a == b
  {
    assert x == (x + a)[..|x|] && y == (y + b)[..|y|];
    assert a == (x + a)[|x|..] && b == (y + b)[|y|..];
  }

  lemma LineSplits(x: Text, y: Text, a: Text, b: Text)
    requires NoNewline(x) && NoNewline(y)
    requires x + [NEWLINE] + a == y + [NEWLINE] + b
    ensures x == y && a == b
  {
    var s := x + [NEWLINE] + a;
    assert s[|x|] == NEWLINE && s[|y|] == (y + [NEWLINE] + b)[|y|] == NEWLINE;
    assert forall i :: 0 <= i < |y| ==> s[i] == y[i];
    assert forall i :: 0 <= i < |x| ==> s[i] == x[i];
    assert x == s[..|x|] && y == s[..|x|];
    assert a == s[|x| + 1..] && b == s[|x| + 1..];
  }

  /** Newlines in names are the only weakness of v2: without them its text determines every entry, up to the
      digest of a symlink's target. */
  lemma {:induction false} V2SoundWithoutNewlines(sha: Text -> Digest, d: seq<Entry>, e: seq<Entry>)
    requires forall i :: 0 <= i < |d| ==> NoNewline(d[i].rel)
    requires forall i :: 0 <= i < |e| ==> NoNewline(e[i].rel)
    requires LinesV2(sha, d) == LinesV2(sha, e)
    ensures |d| == |e| && forall i :: 0 <= i < |d| ==> SameToV2(sha, d[i], e[i])
  {
    if d != [] && e != [] {
      LineHasNoNewline(sha, d[0]);
      LineHasNoNewline(sha, e[0]);
      LineSplits(LineV2(sha, d[0]), LineV2(sha, e[0]), LinesV2(sha, d[1..]), LinesV2(sha, e[1..]));
      LineV2Determines(sha, d[0], e[0]);
      V2SoundWithoutNewlines(sha, d[1..], e[1..]);
      forall i | 0 <= i < |d| ensures SameToV2(sha, d[i], e[i]) {
        if i > 0 { assert SameToV2(sha, d[1..][i - 1], e[1..][i - 1]); }
      }
    }
  }

  lemma LineHasNoNewline(sha: Text -> Digest, e: Entry)
    requires NoNewline(e.rel)
    ensures NoNewline(LineV2(sha, e))
  {
  }
}
