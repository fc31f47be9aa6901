/** Capturing a git source and building a run's worktree from the snapshot,
    internal/workspace/snapshot.go.  Files are their contents. */
module Snapshots {
  import opened Bytes

  type Files = map<Text, Text>

  /** What git knows of a source: its commit, its index, its files, and which of them it ignores. */
  datatype Repo = Repo(head: Files, index: Files, worktree: Files, ignored: set<Text>)

  /** An entry of git status.  `deleted` is the index code `D`. */
  datatype Dirty = Dirty(path: Text, orig: Option<Text>, staged: bool, deleted: bool)

  datatype Snapshot = Snapshot(files: Files, dirty: seq<Dirty>, staged: Files)

  function Look(m: Files, p: Text): Option<Text> {
    if p in m then Some(m[p]) else None
  }

  function Put(m: Files, p: Text, v: Option<Text>): Files {
    if v.Some? then m[p := v.value] else m - {p}
  }

  // --------------------------------------------------------------- capture

  /** One staged path per entry, as scanGit leaves them. */
  ghost predicate OneEntryEach(dirty: seq<Dirty>) {
    forall i, j :: 0 <= i < j < |dirty| ==> dirty[i].path != dirty[j].path
  }

  ghost predicate StagedAt(dirty: seq<Dirty>, p: Text) {
    exists i :: 0 <= i < |dirty| && dirty[i].staged && dirty[i].path == p
  }

  ghost predicate AddedAt(dirty: seq<Dirty>, n: nat, p: Text)
    requires n <= |dirty|
  {
    exists i :: 0 <= i < n && dirty[i].staged && !dirty[i].deleted && dirty[i].path == p
  }

  ghost predicate DeletedAt(dirty: seq<Dirty>, n: nat, p: Text)
    requires n <= |dirty|
  {
    exists i :: 0 <= i < n && dirty[i].staged && dirty[i].deleted && dirty[i].path == p
  }

  lemma OneMoreEntry(dirty: seq<Dirty>, k: nat)
    requires k < |dirty|
    ensures forall p :: AddedAt(dirty, k + 1, p) <==> AddedAt(dirty, k, p) || (dirty[k].staged && !dirty[k].deleted && dirty[k].path == p)
    ensures forall p :: DeletedAt(dirty, k + 1, p) <==> DeletedAt(dirty, k, p) || (dirty[k].staged && dirty[k].deleted && dirty[k].path == p)
  {
    var d := dirty[k];
    assert d.staged && !d.deleted ==> AddedAt(dirty, k + 1, d.path);
    assert d.staged && d.deleted ==> DeletedAt(dirty, k + 1, d.path);
  }

  /** A staged rename has one name that only the commit has and one that only the index has.  Either
      may be the entry's path: nothing below depends on the order in which the two are parsed. */
  ghost predicate IsRename(repo: Repo, d: Dirty) {
    && d.orig.Some? && !d.deleted
    && ((d.path in repo.head && d.path !in repo.index && d.orig.value !in repo.head && d.orig.value in repo.index)
        || (d.path !in repo.head && d.path in repo.index && d.orig.value in repo.head && d.orig.value !in repo.index))
  }

  /** The entries tell where the index differs from the commit. */
  ghost predicate IsStatus(repo: Repo, dirty: seq<Dirty>) {
    && OneEntryEach(dirty)
    && (forall i :: 0 <= i < |dirty| && dirty[i].staged ==>
          var d := dirty[i];
          if d.orig.Some? then IsRename(repo, d) && !StagedAt(dirty, d.orig.value)
          else Look(repo.head, d.path) != Look(repo.index, d.path) && (d.deleted <==> d.path !in repo.index))
    && (forall p :: Look(repo.head, p) != Look(repo.index, p) ==>
          StagedAt(dirty, p) || exists i :: 0 <= i < |dirty| && dirty[i].staged && dirty[i].orig == Some(p))
  }

  /** Tracked files and untracked ones that are not ignored. */
  function Meaningful(repo: Repo): Files {
    map p | p in repo.worktree && (p in repo.index || p !in repo.ignored) :: repo.worktree[p]
  }

  /** A blob is kept aside when the worktree does not hold it. */
  ghost predicate Captured(repo: Repo, dirty: seq<Dirty>, n: nat, p: Text)
    requires n <= |dirty|
  {
    && AddedAt(dirty, n, p)
    && p in repo.index && Look(repo.worktree, p) != Some(repo.index[p])
  }

  ghost predicate IsCapture(repo: Repo, dirty: seq<Dirty>, n: nat, blobs: Files)
    requires n <= |dirty|
  {
    forall p :: (p in blobs <==> Captured(repo, dirty, n, p)) && (p in blobs ==> blobs[p] == repo.index[p])
  }

  method CaptureStagedBlobs(repo: Repo, dirty: seq<Dirty>) returns (blobs: Files)
    ensures IsCapture(repo, dirty, |dirty|, blobs)
  {
    blobs := map[];
    for k := 0 to |dirty|
      invariant IsCapture(repo, dirty, k, blobs)
    {
      var d := dirty[k];
      OneMoreEntry(dirty, k);
      if d.staged && !d.deleted && d.path in repo.index && Look(repo.worktree, d.path) != Some(repo.index[d.path]) {
        blobs := blobs[d.path := repo.index[d.path]];
      }
    }
  }

  // ------------------------------------------------------------ materialize

  /** What the index of a run's workspace holds at a path in the end. */
  ghost function Wanted(snap: Snapshot, clone: Files, p: Text): Option<Text> {
    if AddedAt(snap.dirty, |snap.dirty|, p) then if p in snap.staged then Some(snap.staged[p]) else Look(snap.files, p)
    else if DeletedAt(snap.dirty, |snap.dirty|, p) then None
    else Look(clone, p)
  }

  class Workspace {
    var worktree: Files
    var index: Files

    constructor (clone: Files)
      ensures worktree == clone && index == clone
    {
      worktree, index := clone, clone;
    }

    /** Files that the snapshot has not go, those it has are copied. */
    method Overlay(snap: Snapshot)
      modifies this`worktree
      ensures worktree == snap.files
    {
      var have := worktree.Keys;
      while have != {}
        invariant forall p :: p in worktree ==> p in have || p in snap.files
        decreases have
      {
        var p :| p in have;
        if p !in snap.files { worktree := worktree - {p}; }
        have := have - {p};
      }
      var rest := snap.files.Keys;
      while rest != {}
        invariant rest <= snap.files.Keys
        invariant forall p :: p in worktree ==> p in snap.files
        invariant forall p :: p in snap.files && p !in rest ==> Look(worktree, p) == Some(snap.files[p])
        decreases rest
      {
        var p :| p in rest;
        worktree := worktree[p := snap.files[p]];
        rest := rest - {p};
      }
      assert worktree.Keys == snap.files.Keys;
    }

    /** `git rm --cached -f --`. */
    method RmCached(rm: seq<Text>)
      modifies this`index
      ensures forall p :: Look(index, p) == if p in rm then None else Look(old(index), p)
    {
      for k := 0 to |rm|
        invariant forall p :: Look(index, p) == if p in rm[..k] then None else Look(old(index), p)
      {
        assert rm[..k + 1] == rm[..k] + [rm[k]];
        index := index - {rm[k]};
      }
    }

    /** `git add -A --`: the worktree's content, or none. */
    method AddAll(add: seq<Text>)
      modifies this`index
      ensures forall p :: Look(index, p) == if p in add then Look(worktree, p) else Look(old(index), p)
    {
      for k := 0 to |add|
        invariant forall p :: Look(index, p) == if p in add[..k] then Look(worktree, p) else Look(old(index), p)
      {
        assert add[..k + 1] == add[..k] + [add[k]];
        index := Put(index, add[k], Look(worktree, add[k]));
      }
    }

    /** The first loop of restoreIndex: sort the staged entries and put the captured blobs in place. */
    method StageBlobs(snap: Snapshot) returns (add: seq<Text>, rm: seq<Text>, restoreWT: seq<Text>)
      modifies this`worktree
      ensures forall p :: p in rm <==> DeletedAt(snap.dirty, |snap.dirty|, p)
      ensures forall p :: p in add <==> AddedAt(snap.dirty, |snap.dirty|, p)
      ensures forall p :: p in restoreWT <==> p in add && p in snap.staged
      ensures forall p :: Look(worktree, p) == if p in restoreWT then Look(snap.staged, p) else Look(old(worktree), p)
    {
      add, rm, restoreWT := [], [], [];
      for k := 0 to |snap.dirty|
        invariant forall p :: p in rm <==> DeletedAt(snap.dirty, k, p)
        invariant forall p :: p in add <==> AddedAt(snap.dirty, k, p)
        invariant forall p :: p in restoreWT <==> p in add && p in snap.staged
        invariant forall p :: Look(worktree, p) == if p in restoreWT then Look(snap.staged, p) else Look(old(worktree), p)
      {
        var d := snap.dirty[k];
        OneMoreEntry(snap.dirty, k);
        if d.staged {
          if d.deleted {
            rm := rm + [d.path];
          } else {
            if d.path in snap.staged {
              worktree := worktree[d.path := snap.staged[d.path]];
              restoreWT := restoreWT + [d.path];
            }
            add := add + [d.path];
          }
        }
      }
    }

    /** The last loop: the snapshot's file again, or none. */
    method RestoreWorktree(snap: Snapshot, restoreWT: seq<Text>)
      requires forall p :: p !in restoreWT ==> Look(worktree, p) == Look(snap.files, p)
      modifies this`worktree
      ensures worktree == snap.files
    {
      for k := 0 to |restoreWT|
        invariant forall p :: p !in restoreWT[k..] ==> Look(worktree, p) == Look(snap.files, p)
      {
        var p := restoreWT[k];
        assert restoreWT[k..] == [p] + restoreWT[k + 1..];
        if p in snap.files {
          worktree := worktree[p := snap.files[p]];
        } else {
          worktree := worktree - {p};
        }
      }
      forall p ensures Look(worktree, p) == Look(snap.files, p) {}
      forall p ensures p in worktree <==> p in snap.files && (p in worktree ==> worktree[p] == snap.files[p]) {
        assert Look(worktree, p) == Look(snap.files, p);
      }
    }

    /** Staged content passes through the worktree into the index and leaves no trace there.  Either
        git command may fail; then the method fails. */
    method RestoreIndex(snap: Snapshot, rmWorks: bool, addWorks: bool) returns (ok: bool)
      requires worktree == snap.files
      modifies this
      ensures rmWorks && addWorks ==> ok
      ensures ok ==> worktree == snap.files && forall p :: Look(index, p) == Wanted(snap, old(index), p)
    {
      var add, rm, restoreWT := StageBlobs(snap);
      if |rm| > 0 {
        if !rmWorks { return false; }
        RmCached(rm);
      }
      if |add| > 0 {
        if !addWorks { return false; }
        AddAll(add);
      }
      RestoreWorktree(snap, restoreWT);
      ok := true;
    }
  }

  ghost predicate NoRenames(dirty: seq<Dirty>) {
    forall i :: 0 <= i < |dirty| && dirty[i].staged ==> dirty[i].orig.None?
  }

  /** Capturing and materializing gives the source's index back exactly when nothing was staged as a
      rename. */
  lemma IndexComesBack(repo: Repo, snap: Snapshot, index: Files)
    requires IsStatus(repo, snap.dirty) && snap.files == Meaningful(repo) && IsCapture(repo, snap.dirty, |snap.dirty|, snap.staged)
    requires forall p :: Look(index, p) == Wanted(snap, repo.head, p)
    ensures index == repo.index <==> NoRenames(snap.dirty)
  {
    if NoRenames(snap.dirty) {
      forall p ensures Look(index, p) == Look(repo.index, p) {
        PathComesBack(repo, snap, p);
      }
      forall p ensures p in index <==> p in repo.index && (p in index ==> index[p] == repo.index[p]) {
        assert Look(index, p) == Look(repo.index, p);
      }
    } else {
      var i :| 0 <= i < |snap.dirty| && snap.dirty[i].staged && snap.dirty[i].orig.Some?;
      var p := snap.dirty[i].orig.value;
      assert !StagedAt(snap.dirty, p);
      assert Wanted(snap, repo.head, p) == Look(repo.head, p);
      assert Look(index, p) != Look(repo.index, p);
    }
  }

  lemma PathComesBack(repo: Repo, snap: Snapshot, p: Text)
    requires IsStatus(repo, snap.dirty) && snap.files == Meaningful(repo) && IsCapture(repo, snap.dirty, |snap.dirty|, snap.staged)
    requires NoRenames(snap.dirty)
    ensures Wanted(snap, repo.head, p) == Look(repo.index, p)
  {
    if StagedAt(snap.dirty, p) {
      var i :| 0 <= i < |snap.dirty| && snap.dirty[i].staged && snap.dirty[i].path == p;
      assert forall j :: 0 <= j < |snap.dirty| && snap.dirty[j].path == p ==> j == i;
    }
  }

  /** Capture a source, clone its commit, and build the workspace. */
  method Materialize(repo: Repo, dirty: seq<Dirty>, rmWorks: bool, addWorks: bool) returns (w: Workspace, ok: bool)
    requires IsStatus(repo, dirty)
    ensures fresh(w) && (rmWorks && addWorks ==> ok)
    ensures ok ==> forall p :: Look(w.worktree, p) == if p in repo.index || p !in repo.ignored then Look(repo.worktree, p) else None
    ensures ok ==> (w.index == repo.index <==> NoRenames(dirty))
  {
    var blobs := CaptureStagedBlobs(repo, dirty);
    var snap := Snapshot(Meaningful(repo), dirty, blobs);
    w := new Workspace(repo.head);
    w.Overlay(snap);
    ok := w.RestoreIndex(snap, rmWorks, addWorks);
    if ok { IndexComesBack(repo, snap, w.index); }
  }
}
