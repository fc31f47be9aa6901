/** File metadata, flat trees and the snapshot-to-final delta. */
module Workspace {
  import opened Bytes

  datatype Kind = NoKind | File | Symlink
  datatype Mode = NoMode | Regular | Executable | Link

  /** A content digest.  Sha is collision free: it is identified with the bytes it digests. */
  datatype Hash = NoHash | Sha(content: Text)

  datatype FileMeta = FileMeta(kind: Kind, mode: Mode, hash: Hash, target: Text, missing: bool) {
    predicate Equal(o: FileMeta) {
      if missing && o.missing then true
      else if missing || o.missing then false
      else kind == o.kind && mode == o.mode && hash == o.hash && target == o.target
    }

    /** What reading one existing path can report (metaFromInfo, hashAt). */
    predicate OnDisk() {
      && !missing
      && hash != NoHash
      && match kind
         case File => mode in {Regular, Executable} && target == []
         case Symlink => mode == Link && hash == Sha(target)
         case NoKind => false
    }
  }

  const MISSING := FileMeta(NoKind, NoMode, NoHash, [], true)

  type Tree = map<Text, FileMeta>

  ghost predicate OnDiskTree(t: Tree) {
    forall p :: p in t ==> t[p].OnDisk()
  }

  function MetaOrMissing(files: Tree, p: Text): FileMeta {
    if p in files then files[p] else MISSING
  }

  /** On metadata read from disk Equal is identity, so it compares everything that is published. */
  lemma EqualIsIdentity(a: Tree, b: Tree, p: Text)
    requires OnDiskTree(a) && OnDiskTree(b)
    ensures MetaOrMissing(a, p).Equal(MetaOrMissing(b, p)) <==> MetaOrMissing(a, p) == MetaOrMissing(b, p)
  {
  }

  datatype ChangeKind = Added | Modified | Deleted

  datatype FileDelta = FileDelta(path: Text, kind: ChangeKind, agentModified: bool, preExisting: bool,
                                 before: FileMeta, after: FileMeta)

  ghost function DeltaPaths(files: seq<FileDelta>): seq<Text> {
    seq(|files|, i requires 0 <= i < |files| => files[i].path)
  }

  ghost predicate Changed(before: Tree, after: Tree, p: Text) {
    !MetaOrMissing(before, p).Equal(MetaOrMissing(after, p))
  }

  ghost predicate IsDelta(before: Tree, after: Tree, dirty: set<Text>, files: seq<FileDelta>) {
    && StrictlySorted(DeltaPaths(files))
    && (forall p :: p in DeltaPaths(files) <==> Changed(before, after, p))
    && (forall i :: 0 <= i < |files| ==>
          var f := files[i];
          && f.before == MetaOrMissing(before, f.path) && f.after == MetaOrMissing(after, f.path)
          && (f.kind == Added <==> f.before.missing) && (f.kind == Deleted <==> f.after.missing)
          && f.agentModified && (f.preExisting <==> f.path in dirty))
  }

  method ComputeDelta(before: Tree, final: Tree, dirty: set<Text>) returns (files: seq<FileDelta>)
    ensures IsDelta(before, final, dirty, files)
  {
    var paths := SortedKeys(before.Keys + final.Keys);
    SortedDistinct(paths);
    files := [];
    for k := 0 to |paths|
      invariant forall p :: p in DeltaPaths(files) <==> p in paths[..k] && Changed(before, final, p)
      invariant StrictlySorted(DeltaPaths(files))
      invariant forall i :: 0 <= i < |files| ==>
          var f := files[i];
          && f.before == MetaOrMissing(before, f.path) && f.after == MetaOrMissing(final, f.path)
          && (f.kind == Added <==> f.before.missing) && (f.kind == Deleted <==> f.after.missing)
          && f.agentModified && (f.preExisting <==> f.path in dirty)
    {
      var p := paths[k];
      var b, a := MetaOrMissing(before, p), MetaOrMissing(final, p);
      assert paths[..k + 1] == paths[..k] + [p];
      if !b.Equal(a) {
        var kind := if b.missing && !a.missing then Added
                    else if !b.missing && a.missing then Deleted
                    else Modified;
        var f := FileDelta(p, kind, true, p in dirty, b, a);
        ghost var was := DeltaPaths(files);
        files := files + [f];
        assert DeltaPaths(files) == was + [p];
        forall i | 0 <= i < |was| ensures Less(was[i], p) {
          assert was[i] in was;
        }
      }
    }
    forall p | Changed(before, final, p) ensures p in paths {
      assert p in Elements(paths);
    }
    assert paths[..|paths|] == paths;
  }
}
