/** The three-way merge that plans a publication. */
module Merge {
  import opened Bytes
  import opened Workspace

  datatype Op = Create | Modify | Delete
  datatype EntryStatus = Pending | Written | Verified | Failed

  datatype JournalEntry = JournalEntry(path: Text, op: Op, beforeHash: Hash, afterHash: Hash,
                                       beforeMode: Mode, afterMode: Mode, afterKind: Kind, afterTarget: Text,
                                       status: EntryStatus)

  datatype ConflictReason = DeleteModify | ModifyDelete | AddAdd | TypeChange | BothModified

  datatype Conflict = Conflict(path: Text, reason: ConflictReason, base: FileMeta, ours: FileMeta, run: FileMeta)

  function ReasonFor(b: FileMeta, o: FileMeta, r: FileMeta): ConflictReason {
    if !b.missing && o.missing && !r.missing && !r.Equal(b) then DeleteModify
    else if !b.missing && r.missing && !o.missing && !o.Equal(b) then ModifyDelete
    else if b.missing && !o.missing && !r.missing then AddAdd
    else if !o.missing && !r.missing && o.kind != r.kind then TypeChange
    else BothModified
  }

  function EntryFor(path: Text, before: FileMeta, after: FileMeta): JournalEntry {
    var e := JournalEntry(path, Modify, before.hash, after.hash, before.mode, after.mode, after.kind, after.target, Pending);
    if before.missing && !after.missing then e.(op := Create)
    else if !before.missing && after.missing then e.(op := Delete, afterHash := NoHash)
    else e
  }

  ghost function PlanPaths(plan: seq<JournalEntry>): seq<Text> {
    seq(|plan|, i requires 0 <= i < |plan| => plan[i].path)
  }

  ghost function ConflictPaths(cs: seq<Conflict>): seq<Text> {
    seq(|cs|, i requires 0 <= i < |cs| => cs[i].path)
  }

  // ----- what the two sides did to one path

  /** Both sides changed the path, and not to the same thing. */
  ghost predicate Clash(base: Tree, ours: Tree, run: Tree, p: Text) {
    Changed(base, ours, p) && Changed(base, run, p) && Changed(ours, run, p)
  }

  /** Only the agent changed the path. */
  ghost predicate AgentOnly(base: Tree, ours: Tree, run: Tree, p: Text) {
    Changed(base, run, p) && !Changed(base, ours, p)
  }

  ghost predicate EntriesAgree(ours: Tree, run: Tree, plan: seq<JournalEntry>) {
    forall i :: 0 <= i < |plan| ==>
      plan[i] == EntryFor(plan[i].path, MetaOrMissing(ours, plan[i].path), MetaOrMissing(run, plan[i].path))
  }

  ghost predicate ConflictsAgree(base: Tree, ours: Tree, run: Tree, conflicts: seq<Conflict>) {
    forall i :: 0 <= i < |conflicts| ==>
      var c := conflicts[i];
      && c.base == MetaOrMissing(base, c.path) && c.ours == MetaOrMissing(ours, c.path)
      && c.run == MetaOrMissing(run, c.path) && c.reason == ReasonFor(c.base, c.ours, c.run)
  }

  /** The merge restricted to the paths in keys. */
  ghost predicate IsMergeOf(keys: seq<Text>, base: Tree, ours: Tree, run: Tree,
                            conflicts: seq<Conflict>, plan: seq<JournalEntry>) {
    && StrictlySorted(ConflictPaths(conflicts)) && StrictlySorted(PlanPaths(plan))
    && (forall p :: p in ConflictPaths(conflicts) <==> p in keys && Clash(base, ours, run, p))
    && (forall p :: p in PlanPaths(plan) <==> p in keys && AgentOnly(base, ours, run, p))
    && EntriesAgree(ours, run, plan)
    && ConflictsAgree(base, ours, run, conflicts)
  }

  ghost predicate IsMerge(base: Tree, ours: Tree, run: Tree, conflicts: seq<Conflict>, plan: seq<JournalEntry>) {
    && StrictlySorted(ConflictPaths(conflicts)) && StrictlySorted(PlanPaths(plan))
    && (forall p :: p in ConflictPaths(conflicts) <==> Clash(base, ours, run, p))
    && (forall p :: p in PlanPaths(plan) <==> AgentOnly(base, ours, run, p))
    && EntriesAgree(ours, run, plan)
    && ConflictsAgree(base, ours, run, conflicts)
  }

  lemma AppendSorted(s: seq<Text>, keys: seq<Text>, k: nat)
    requires StrictlySorted(s) && StrictlySorted(keys) && k < |keys|
    requires forall p :: p in s ==> p in keys[..k]
    ensures StrictlySorted(s + [keys[k]])
  {
    var r := s + [keys[k]];
    forall i, j | 0 <= i < j < |r| ensures Less(r[i], r[j]) {
      if j == |s| { assert s[i] in keys[..k]; }
    }
  }

  lemma PlanOne(keys: seq<Text>, k: nat, base: Tree, ours: Tree, run: Tree,
                conflicts: seq<Conflict>, plan: seq<JournalEntry>)
    requires StrictlySorted(keys) && k < |keys|
    requires IsMergeOf(keys[..k], base, ours, run, conflicts, plan)
    requires AgentOnly(base, ours, run, keys[k])
    ensures IsMergeOf(keys[..k] + [keys[k]], base, ours, run, conflicts,
                      plan + [EntryFor(keys[k], MetaOrMissing(ours, keys[k]), MetaOrMissing(run, keys[k]))])
  {
    var p := keys[k];
    var next := plan + [EntryFor(p, MetaOrMissing(ours, p), MetaOrMissing(run, p))];
    assert PlanPaths(next) == PlanPaths(plan) + [p];
    AppendSorted(PlanPaths(plan), keys, k);
    assert !Clash(base, ours, run, p);
  }

  lemma ConflictOne(keys: seq<Text>, k: nat, base: Tree, ours: Tree, run: Tree,
                    conflicts: seq<Conflict>, plan: seq<JournalEntry>, c: Conflict)
    requires StrictlySorted(keys) && k < |keys|
    requires IsMergeOf(keys[..k], base, ours, run, conflicts, plan)
    requires Clash(base, ours, run, keys[k])
    requires c.path == keys[k] && ConflictsAgree(base, ours, run, [c])
    ensures IsMergeOf(keys[..k] + [keys[k]], base, ours, run, conflicts + [c], plan)
  {
    assert [c][0] == c;
    assert ConflictPaths(conflicts + [c]) == ConflictPaths(conflicts) + [keys[k]];
    AppendSorted(ConflictPaths(conflicts), keys, k);
    assert !AgentOnly(base, ours, run, keys[k]);
  }

  lemma KeepOne(keys: seq<Text>, k: nat, base: Tree, ours: Tree, run: Tree,
                conflicts: seq<Conflict>, plan: seq<JournalEntry>)
    requires k < |keys| && IsMergeOf(keys[..k], base, ours, run, conflicts, plan)
    requires !Clash(base, ours, run, keys[k]) && !AgentOnly(base, ours, run, keys[k])
    ensures IsMergeOf(keys[..k] + [keys[k]], base, ours, run, conflicts, plan)
  {
  }

  lemma AllKeysMerged(keys: seq<Text>, base: Tree, ours: Tree, run: Tree,
                      conflicts: seq<Conflict>, plan: seq<JournalEntry>)
    requires IsMergeOf(keys, base, ours, run, conflicts, plan)
    requires Elements(keys) == base.Keys + ours.Keys + run.Keys
    ensures IsMerge(base, ours, run, conflicts, plan)
  {
    forall p | Changed(base, run, p) ensures p in keys {
      assert p in Elements(keys);
    }
  }

  method ThreeWay(base: Tree, ours: Tree, run: Tree) returns (conflicts: seq<Conflict>, plan: seq<JournalEntry>)
    ensures IsMerge(base, ours, run, conflicts, plan)
  {
    var keys := SortedKeys(base.Keys + ours.Keys + run.Keys);
    conflicts, plan := [], [];
    for k := 0 to |keys|
      invariant IsMergeOf(keys[..k], base, ours, run, conflicts, plan)
    {
      var p := keys[k];
      var b, o, r := MetaOrMissing(base, p), MetaOrMissing(ours, p), MetaOrMissing(run, p);
      assert keys[..k + 1] == keys[..k] + [p];
      if r.Equal(b) {
        KeepOne(keys, k, base, ours, run, conflicts, plan);
      } else if o.Equal(b) {
        if !o.Equal(r) {
          PlanOne(keys, k, base, ours, run, conflicts, plan);
          plan := plan + [EntryFor(p, o, r)];
        } else {
          assert false;
        }
      } else if o.Equal(r) {
        KeepOne(keys, k, base, ours, run, conflicts, plan);
      } else {
        var c := Conflict(p, ReasonFor(b, o, r), b, o, r);
        ConflictOne(keys, k, base, ours, run, conflicts, plan, c);
        conflicts := conflicts + [c];
      }
    }
    assert keys[..|keys|] == keys;
    AllKeysMerged(keys, base, ours, run, conflicts, plan);
  }

  // ----- applying a plan

  /** What applyEntry leaves at an entry's path. */
  function Applied(e: JournalEntry): FileMeta {
    if e.op == Delete then MISSING
    else if e.afterKind == Symlink then FileMeta(Symlink, Link, Sha(e.afterTarget), e.afterTarget, false)
    else FileMeta(File, if e.afterMode == Executable then Executable else Regular, e.afterHash, [], false)
  }

  function ApplyEntry(t: Tree, e: JournalEntry): (r: Tree)
    ensures MetaOrMissing(r, e.path) == Applied(e)
    ensures forall p :: p != e.path ==> MetaOrMissing(r, p) == MetaOrMissing(t, p)
  {
    if e.op == Delete then t - {e.path} else t[e.path := Applied(e)]
  }

  function ApplyAll(t: Tree, plan: seq<JournalEntry>): Tree {
    if plan == [] then t else ApplyEntry(ApplyAll(t, plan[..|plan| - 1]), plan[|plan| - 1])
  }

  ghost predicate DistinctPaths(plan: seq<JournalEntry>) {
    forall i, j :: 0 <= i < j < |plan| ==> plan[i].path != plan[j].path
  }

  lemma {:induction false} ApplyAllMeta(t: Tree, plan: seq<JournalEntry>)
    requires DistinctPaths(plan)
    ensures forall i :: 0 <= i < |plan| ==> MetaOrMissing(ApplyAll(t, plan), plan[i].path) == Applied(plan[i])
    ensures forall p :: p !in PlanPaths(plan) ==> MetaOrMissing(ApplyAll(t, plan), p) == MetaOrMissing(t, p)
  {
    if plan != [] {
      var n := |plan| - 1;
      ApplyAllMeta(t, plan[..n]);
      assert forall p :: p !in PlanPaths(plan) ==> p !in PlanPaths(plan[..n]) && p != plan[n].path by {
        assert PlanPaths(plan) == PlanPaths(plan[..n]) + [plan[n].path];
      }
      forall i | 0 <= i < n ensures MetaOrMissing(ApplyAll(t, plan), plan[i].path) == Applied(plan[i]) {
        assert plan[..n][i] == plan[i];
      }
    }
  }

  /** Trees read from disk are determined by the metadata at each path. */
  lemma SameMetaSameTree(a: Tree, b: Tree)
    requires OnDiskTree(a) && OnDiskTree(b)
    requires forall p :: MetaOrMissing(a, p) == MetaOrMissing(b, p)
    ensures a == b
  {
    forall p ensures p in a <==> p in b {
      assert MetaOrMissing(a, p) == MetaOrMissing(b, p);
    }
    forall p | p in a ensures a[p] == b[p] {
      assert MetaOrMissing(a, p) == MetaOrMissing(b, p);
    }
  }

  // ----- laws of the merge

  /** An entry planned from metadata read on disk. */
  ghost predicate Planned(e: JournalEntry) {
    && (e.op == Create ==> e.beforeHash == NoHash)
    && (e.op != Create ==> e.beforeHash != NoHash)
    && (e.op == Delete <==> e.afterHash == NoHash)
    && (e.op != Delete ==> Applied(e).OnDisk() && Applied(e).hash == e.afterHash)
  }

  /** A journal holding such entries, whatever their progress. */
  ghost predicate JournalOk(j: seq<JournalEntry>) {
    DistinctPaths(j) && forall i :: 0 <= i < |j| ==> Planned(j[i])
  }

  ghost predicate PlanOk(plan: seq<JournalEntry>) {
    JournalOk(plan) && forall i :: 0 <= i < |plan| ==> plan[i].status == Pending
  }

  lemma PlanIsOk(base: Tree, ours: Tree, run: Tree, conflicts: seq<Conflict>, plan: seq<JournalEntry>)
    requires OnDiskTree(base) && OnDiskTree(ours) && OnDiskTree(run)
    requires IsMerge(base, ours, run, conflicts, plan)
    ensures PlanOk(plan)
    ensures forall i :: 0 <= i < |plan| ==> Applied(plan[i]) == MetaOrMissing(run, plan[i].path)
  {
    SortedDistinct(PlanPaths(plan));
    forall i, j | 0 <= i < j < |plan| ensures plan[i].path != plan[j].path {
      assert PlanPaths(plan)[i] == plan[i].path && PlanPaths(plan)[j] == plan[j].path;
    }
    forall i | 0 <= i < |plan|
      ensures Planned(plan[i]) && plan[i].status == Pending
      ensures Applied(plan[i]) == MetaOrMissing(run, plan[i].path)
    {
      assert PlanPaths(plan)[i] in PlanPaths(plan);
      assert AgentOnly(base, ours, run, plan[i].path);
    }
  }

  /** Swapping the two sides gives the same conflicting paths, in the same order. */
  lemma ConflictsAreSymmetric(base: Tree, ours: Tree, run: Tree,
                              c1: seq<Conflict>, p1: seq<JournalEntry>, c2: seq<Conflict>, p2: seq<JournalEntry>)
    requires OnDiskTree(base) && OnDiskTree(ours) && OnDiskTree(run)
    requires IsMerge(base, ours, run, c1, p1) && IsMerge(base, run, ours, c2, p2)
    ensures ConflictPaths(c1) == ConflictPaths(c2)
  {
    forall p ensures Clash(base, ours, run, p) <==> Clash(base, run, ours, p) {
      EqualIsIdentity(ours, run, p);
    }
    assert Elements(ConflictPaths(c1)) == Elements(ConflictPaths(c2));
    SortedUnique(ConflictPaths(c1), ConflictPaths(c2));
  }

  /** What each reported conflict says of its path: of the three versions at most one is missing, the
      reason tells which one, and where all are there it tells whether the two sides still agree on the kind. */
  lemma ReasonByCase(base: Tree, ours: Tree, run: Tree, conflicts: seq<Conflict>, plan: seq<JournalEntry>)
    requires OnDiskTree(base) && OnDiskTree(ours) && OnDiskTree(run)
    requires IsMerge(base, ours, run, conflicts, plan)
    ensures forall i :: 0 <= i < |conflicts| ==>
              var c := conflicts[i];
              var b, o, r := c.path in base, c.path in ours, c.path in run;
              && ((b && o) || (b && r) || (o && r))
              && (c.reason == DeleteModify <==> !o) && (c.reason == ModifyDelete <==> !r) && (c.reason == AddAdd <==> !b)
              && (c.reason == TypeChange <==> b && o && r && ours[c.path].kind != run[c.path].kind)
              && (c.reason == BothModified <==> b && o && r && ours[c.path].kind == run[c.path].kind)
  {
    forall i | 0 <= i < |conflicts| ensures Clash(base, ours, run, conflicts[i].path) {
      assert ConflictPaths(conflicts)[i] in ConflictPaths(conflicts);
    }
  }

  /** What each planned entry says: the operation tells on which side the path is there, and the entry
      carries the content of both and all of the run's metadata. */
  lemma EntryByCase(base: Tree, ours: Tree, run: Tree, conflicts: seq<Conflict>, plan: seq<JournalEntry>)
    requires OnDiskTree(base) && OnDiskTree(ours) && OnDiskTree(run)
    requires IsMerge(base, ours, run, conflicts, plan)
    ensures forall i :: 0 <= i < |plan| ==>
              var e := plan[i];
              && (e.op == Create <==> e.path !in ours) && (e.op == Delete <==> e.path !in run)
              && (e.op == Modify <==> e.path in ours && e.path in run)
              && (e.path in ours ==> e.beforeHash == ours[e.path].hash && e.beforeMode == ours[e.path].mode)
              && (e.path in run ==> e.afterHash == run[e.path].hash && e.afterMode == run[e.path].mode
                                    && e.afterKind == run[e.path].kind && e.afterTarget == run[e.path].target)
  {
    forall i | 0 <= i < |plan| ensures AgentOnly(base, ours, run, plan[i].path) {
      assert PlanPaths(plan)[i] in PlanPaths(plan);
    }
  }

  ghost function Merged(ours: Tree, plan: seq<JournalEntry>): Tree { ApplyAll(ours, plan) }

  /** With no conflict the published tree holds every agent change and every user change: a path the agent
      changed reads as in the run-final tree, a path only the user may have changed reads as the user left it. */
  lemma MergeKeepsBothSides(base: Tree, ours: Tree, run: Tree, plan: seq<JournalEntry>)
    requires OnDiskTree(base) && OnDiskTree(ours) && OnDiskTree(run)
    requires IsMerge(base, ours, run, [], plan)
    ensures OnDiskTree(Merged(ours, plan))
    ensures forall p :: Changed(base, run, p) ==> MetaOrMissing(Merged(ours, plan), p) == MetaOrMissing(run, p)
    ensures forall p :: Changed(base, ours, p) ==> MetaOrMissing(Merged(ours, plan), p) == MetaOrMissing(ours, p)
    ensures forall p :: !Changed(base, ours, p) && !Changed(base, run, p) ==>
              MetaOrMissing(Merged(ours, plan), p) == MetaOrMissing(base, p)
  {
    PlanIsOk(base, ours, run, [], plan);
    ApplyAllMeta(ours, plan);
    var m := Merged(ours, plan);
    forall p
      ensures MetaOrMissing(m, p) == if AgentOnly(base, ours, run, p) then MetaOrMissing(run, p) else MetaOrMissing(ours, p)
    {
      if AgentOnly(base, ours, run, p) {
        assert p in PlanPaths(plan);
        var i :| 0 <= i < |plan| && PlanPaths(plan)[i] == p;
        assert plan[i].path == p;
      } else {
        assert p !in PlanPaths(plan);
      }
    }
    forall p | p in m ensures m[p].OnDisk() {
      assert MetaOrMissing(m, p) == m[p];
      AppliedNotMissing(ours, plan, p);
    }
    forall p
      ensures Changed(base, run, p) ==> MetaOrMissing(m, p) == MetaOrMissing(run, p)
      ensures Changed(base, ours, p) ==> MetaOrMissing(m, p) == MetaOrMissing(ours, p)
      ensures !Changed(base, ours, p) && !Changed(base, run, p) ==> MetaOrMissing(m, p) == MetaOrMissing(base, p)
    {
      EqualIsIdentity(base, ours, p);
      EqualIsIdentity(base, run, p);
      EqualIsIdentity(ours, run, p);
      assert [] == ConflictPaths([]);
      assert !Clash(base, ours, run, p);
    }
  }

  lemma {:induction false} AppliedNotMissing(t: Tree, plan: seq<JournalEntry>, p: Text)
    requires OnDiskTree(t) && p in ApplyAll(t, plan)
    ensures !ApplyAll(t, plan)[p].missing
  {
    if plan != [] {
      var n := |plan| - 1;
      if plan[n].path != p { AppliedNotMissing(t, plan[..n], p); }
    }
  }

  /** Merging the published tree again finds nothing to do. */
  lemma MergeIsIdempotent(base: Tree, ours: Tree, run: Tree, plan: seq<JournalEntry>,
                          conflicts2: seq<Conflict>, plan2: seq<JournalEntry>)
    requires OnDiskTree(base) && OnDiskTree(ours) && OnDiskTree(run)
    requires IsMerge(base, ours, run, [], plan)
    requires IsMerge(base, Merged(ours, plan), run, conflicts2, plan2)
    ensures conflicts2 == [] && plan2 == []
  {
    MergeKeepsBothSides(base, ours, run, plan);
    var m := Merged(ours, plan);
    forall p ensures !Clash(base, m, run, p) && !AgentOnly(base, m, run, p) {
      EqualIsIdentity(m, run, p);
      EqualIsIdentity(base, m, p);
      EqualIsIdentity(base, run, p);
    }
    assert Elements(ConflictPaths(conflicts2)) == {} && Elements(PlanPaths(plan2)) == {};
    EmptyElements(ConflictPaths(conflicts2));
    EmptyElements(PlanPaths(plan2));
  }

  /** When the user touched nothing there is no conflict, the plan touches exactly the paths of the run's
      delta, and publishing yields the run-final tree. */
  lemma UntouchedSourceTakesRun(base: Tree, run: Tree, dirty: set<Text>, conflicts: seq<Conflict>,
                                plan: seq<JournalEntry>, delta: seq<FileDelta>)
    requires OnDiskTree(base) && OnDiskTree(run)
    requires IsMerge(base, base, run, conflicts, plan) && IsDelta(base, run, dirty, delta)
    ensures conflicts == [] && PlanPaths(plan) == DeltaPaths(delta) && Merged(base, plan) == run
  {
    forall p
      ensures !Clash(base, base, run, p)
      ensures AgentOnly(base, base, run, p) <==> Changed(base, run, p)
    {
      EqualIsIdentity(base, base, p);
    }
    assert Elements(ConflictPaths(conflicts)) == {};
    EmptyElements(ConflictPaths(conflicts));
    assert Elements(PlanPaths(plan)) == Elements(DeltaPaths(delta));
    SortedUnique(PlanPaths(plan), DeltaPaths(delta));
    MergeKeepsBothSides(base, base, run, plan);
    forall p ensures MetaOrMissing(Merged(base, plan), p) == MetaOrMissing(run, p) {
      EqualIsIdentity(base, run, p);
      EqualIsIdentity(base, base, p);
    }
    SameMetaSameTree(Merged(base, plan), run);
  }
}
