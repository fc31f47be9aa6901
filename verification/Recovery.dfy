/** Startup recovery: attempts left open by a crash are closed, after the workspace of an interrupted write
    attempt was restored from its verified checkpoint. */
module StartupRecovery {
  import opened Bytes
  import opened Domain
  import opened TreeHash
  import Workspace

  type Sha = Workspace.Hash

  datatype Attempt = Attempt(status: AttemptStatus, checkpointId: Option<nat>)
  datatype Stage = Stage(run: nat, kind: StageKind, status: AttemptStatus, attempts: seq<Attempt>)
  datatype Checkpoint = Checkpoint(stage: nat, attempt: nat, treeHash: Sha, hashVersion: nat, reclaimed: bool, pathOwned: bool)
  datatype RunRow = RunRow(status: RunStatus, reason: BlockedReason)
  datatype Approval = Approval(run: nat, pending: bool)

  /** A run workspace directory.  Partial: its removal failed half-way. */
  datatype Dest = Whole(files: NodeTree) | Partial | Absent

  // ----- verified restore

  ghost function DigestOf(t: NodeTree): Sha { Workspace.Sha(StreamV3(ListingOf(t))) }

  /** What copyTree materializes: files and links, with directories only as needed. */
  function FilesOf(t: NodeTree): (files: NodeTree)
    ensures forall p :: p in files <==> p in t && (t[p].File? || t[p].Link?)
    ensures forall p :: p in files ==> files[p] == t[p]
  {
    map p | p in t && !t[p].Dir? :: t[p]
  }

  ghost predicate RestoredTo(d: Dest, digest: Sha) {
    exists t: NodeTree :: DigestOf(t) == digest && d == Whole(FilesOf(t))
  }

  /** The digest names one tree, so a restored workspace holds exactly the files of the checkpoint. */
  lemma DigestNamesOneTree(d: Dest, checkpoint: NodeTree)
    ensures RestoredTo(d, DigestOf(checkpoint)) <==> d == Whole(FilesOf(checkpoint))
  {
    forall t: NodeTree | DigestOf(t) == DigestOf(checkpoint) ensures t == checkpoint {
      V3IsCanonical(t, checkpoint, ListingOf(t), ListingOf(checkpoint));
    }
  }

  // ----- closing rows

  predicate Open(a: Attempt) { a.status in {Running, Pending} }

  function CloseAttempt(a: Attempt, status: AttemptStatus): Attempt {
    if Open(a) then a.(status := status) else a
  }

  function CloseAttempts(s: seq<Attempt>, status: AttemptStatus): seq<Attempt> {
    seq(|s|, i requires 0 <= i < |s| => CloseAttempt(s[i], status))
  }

  function CloseStage(s: Stage, status: AttemptStatus): Stage {
    s.(attempts := CloseAttempts(s.attempts, status), status := if s.status == Running then Interrupted else s.status)
  }

  /** Each row of now is as it was or as it will be. */
  ghost predicate Between(was: Stage, now: Stage, status: AttemptStatus) {
    && now.run == was.run && now.kind == was.kind && now.status in {was.status, CloseStage(was, status).status}
    && |now.attempts| == |was.attempts|
    && forall a :: 0 <= a < |was.attempts| ==> now.attempts[a] in {was.attempts[a], CloseAttempt(was.attempts[a], status)}
  }

  predicate HasOpen(s: Stage) { exists a :: 0 <= a < |s.attempts| && Open(s.attempts[a]) }

  predicate RunHasOpen(stages: seq<Stage>, r: nat) { exists s :: 0 <= s < |stages| && stages[s].run == r && HasOpen(stages[s]) }

  function ClosingStatus(runs: map<nat, RunRow>, r: nat): AttemptStatus {
    if r in runs && runs[r].status == Cancelled then AttemptCancelled else Interrupted
  }

  /** The runs whose rows one pass closes: every active run, and a terminal run that has an open attempt. */
  predicate Touched(runs: map<nat, RunRow>, stages: seq<Stage>, r: nat) {
    r in runs && (!runs[r].status.Terminal() || RunHasOpen(stages, r))
  }

  /** What one complete pass makes of a stage row. */
  function Reconciled(runs: map<nat, RunRow>, stages: seq<Stage>, s: Stage): Stage {
    if Touched(runs, stages, s.run) then CloseStage(s, ClosingStatus(runs, s.run)) else s
  }

  function ReconciledAll(runs: map<nat, RunRow>, stages: seq<Stage>): seq<Stage> {
    seq(|stages|, i requires 0 <= i < |stages| => Reconciled(runs, stages, stages[i]))
  }

  ghost predicate OneOpenPerRun(stages: seq<Stage>) {
    forall s, a, s', a' ::
      && 0 <= s < |stages| && 0 <= a < |stages[s].attempts| && Open(stages[s].attempts[a])
      && 0 <= s' < |stages| && 0 <= a' < |stages[s'].attempts| && Open(stages[s'].attempts[a'])
      && stages[s].run == stages[s'].run
      ==> s == s' && a == a'
  }

  /** Row c is the checkpoint of attempt a of stage s: the row it is linked to or, without a link, the last
      row made for this very attempt. */
  ghost predicate IsCheckpointOf(cps: seq<Checkpoint>, s: nat, a: nat, att: Attempt, c: nat) {
    && c < |cps|
    && (att.checkpointId.Some? ==> c == att.checkpointId.value)
    && (att.checkpointId.None? ==>
          && cps[c].stage == s && cps[c].attempt == a
          && forall i :: c < i < |cps| ==> !(cps[i].stage == s && cps[i].attempt == a))
  }

  /** checkpointForAttempt: the linked row, or else the latest row made for this attempt. */
  function CheckpointFor(cps: seq<Checkpoint>, s: nat, a: nat, att: Attempt): (r: Option<nat>)
    ensures r.Some? ==> IsCheckpointOf(cps, s, a, att, r.value)
    ensures r.None? ==> forall c :: !IsCheckpointOf(cps, s, a, att, c)
  {
    match att.checkpointId
    case Some(c) => if c < |cps| then Some(c) else None
    case None => LatestFor(cps, s, a, |cps|)
  }

  function LatestFor(cps: seq<Checkpoint>, s: nat, a: nat, n: nat): (r: Option<nat>)
    requires n <= |cps|
    ensures r.Some? ==> r.value < n && cps[r.value].stage == s && cps[r.value].attempt == a
    ensures r.Some? ==> forall i :: r.value < i < n ==> !(cps[i].stage == s && cps[i].attempt == a)
    ensures r.None? ==> forall i :: 0 <= i < n ==> !(cps[i].stage == s && cps[i].attempt == a)
  {
    if n == 0 then None
    else if cps[n - 1].stage == s && cps[n - 1].attempt == a then Some(n - 1)
    else LatestFor(cps, s, a, n - 1)
  }

  /** Everything recovery cannot foresee.  At each tick: what the checkpoint directories hold, in which order
      a directory walk goes, and whether an input or output operation fails. */
  datatype Oracle = Oracle(dirs: nat -> map<nat, NodeTree>, walk: nat -> seq<Text>, fails: nat -> bool)

  datatype Db = Db(runs: map<nat, RunRow>, stages: seq<Stage>, checkpoints: seq<Checkpoint>, approvals: seq<Approval>,
                   dest: map<nat, Dest>)

  ghost predicate BlockedForRecovery(db: Db, r: nat) {
    r in db.runs && db.runs[r] == RunRow(Blocked, Recovery)
  }

  /** The workspace of the run is the checkpoint that attempt a of stage s refers to. */
  ghost predicate Restored(db: Db, s: nat, a: nat)
    requires s < |db.stages| && a < |db.stages[s].attempts|
  {
    exists c: nat :: IsCheckpointOf(db.checkpoints, s, a, db.stages[s].attempts[a], c) && HoldsCheckpoint(db, db.stages[s].run, c)
  }

  /** The workspace of run r holds the files of the tree that checkpoint row c records. */
  ghost predicate HoldsCheckpoint(db: Db, r: nat, c: nat) {
    c < |db.checkpoints| && r in db.dest && RestoredTo(db.dest[r], db.checkpoints[c].treeHash)
  }

  /** While it is copied, the directory of checkpoint row c holds the tree t, the walk meets exactly that and
      no operation fails. */
  ghost predicate Undisturbed(o: Oracle, c: nat, t: NodeTree) {
    && (forall k :: c in o.dirs(k) && o.dirs(k)[c] == t)
    && (forall k, p :: p in o.walk(k) <==> p in t)
    && (forall k :: !o.fails(k))
  }

  /** What else recovery asks of a checkpoint row and of the workspace before it copies anything. */
  ghost predicate Restorable(db: Db, r: nat, c: nat) {
    && c < |db.checkpoints| && !db.checkpoints[c].reclaimed && db.checkpoints[c].hashVersion == 3 && db.checkpoints[c].pathOwned
    && r in db.dest && db.dest[r] != Absent
  }

  ghost predicate CanRestore(db: Db, s: nat, a: nat, o: Oracle)
    requires s < |db.stages| && a < |db.stages[s].attempts|
  {
    exists c: nat, t: NodeTree ::
      && IsCheckpointOf(db.checkpoints, s, a, db.stages[s].attempts[a], c) && Restorable(db, db.stages[s].run, c)
      && Undisturbed(o, c, t) && DigestOf(t) == db.checkpoints[c].treeHash
  }

  /** What restored means, by the rows: the linked checkpoint, or without a link the last one made for the attempt. */
  lemma RestoredByRow(db: Db, s: nat, a: nat)
    requires s < |db.stages| && a < |db.stages[s].attempts| && Restored(db, s, a)
    ensures match db.stages[s].attempts[a].checkpointId
            case Some(c) => HoldsCheckpoint(db, db.stages[s].run, c)
            case None =>
              exists c: nat :: c < |db.checkpoints| && db.checkpoints[c].stage == s && db.checkpoints[c].attempt == a
                && (forall i :: c < i < |db.checkpoints| ==> !(db.checkpoints[i].stage == s && db.checkpoints[i].attempt == a))
                && HoldsCheckpoint(db, db.stages[s].run, c)
  {
  }

  lemma RestoredIsKept(db: Db, db': Db, s: nat, a: nat)
    requires s < |db.stages| && a < |db.stages[s].attempts| && s < |db'.stages| && a < |db'.stages[s].attempts|
    requires db'.checkpoints == db.checkpoints && db'.dest == db.dest && db'.stages[s].run == db.stages[s].run
    requires db'.stages[s].attempts[a].checkpointId == db.stages[s].attempts[a].checkpointId
    ensures Restored(db, s, a) ==> Restored(db', s, a)
  {
    if Restored(db, s, a) {
      var c: nat :| IsCheckpointOf(db.checkpoints, s, a, db.stages[s].attempts[a], c) && HoldsCheckpoint(db, db.stages[s].run, c);
      assert IsCheckpointOf(db'.checkpoints, s, a, db'.stages[s].attempts[a], c) && HoldsCheckpoint(db', db'.stages[s].run, c);
    }
  }

  /** A write attempt that was open is still open, or its run is blocked, or its workspace is restored. */
  ghost predicate Handled(was: Stage, db: Db, s: nat)
    requires s < |db.stages|
  {
    && |db.stages[s].attempts| == |was.attempts|
    && forall a :: 0 <= a < |was.attempts| && Open(was.attempts[a]) && was.kind.WritesWorkspace() ==>
         Open(db.stages[s].attempts[a]) || BlockedForRecovery(db, was.run) || Restored(db, s, a)
  }

  /** Only run r differs, and its row only by being blocked for recovery. */
  ghost predicate OnlyRun(r: nat, db0: Db, db: Db) {
    && db.runs.Keys == db0.runs.Keys && db.checkpoints == db0.checkpoints
    && (forall q :: q in db.runs ==> db.runs[q] == db0.runs[q] || (q == r && db.runs[q] == RunRow(Blocked, Recovery)))
    && (forall q :: q != r ==> (q in db.dest <==> q in db0.dest) && (q in db.dest ==> db.dest[q] == db0.dest[q]))
  }

  ghost predicate StageDone(was: Stage, now: Stage, status: AttemptStatus, alive: bool) {
    Between(was, now, status) && (alive ==> now == CloseStage(was, status))
  }

  /** What ReconcileStage does to stage s. */
  ghost predicate StageEffect(db0: Db, db: Db, s: nat, alive: bool)
    requires s < |db0.stages|
  {
    && OnlyRun(db0.stages[s].run, db0, db) && db.approvals == db0.approvals
    && |db.stages| == |db0.stages| && (forall i :: 0 <= i < |db.stages| && i != s ==> db.stages[i] == db0.stages[i])
    && StageDone(db0.stages[s], db.stages[s], Interrupted, alive)
    && (!HasOpen(db0.stages[s]) ==> db.runs == db0.runs && db.dest == db0.dest)
    && (OneOpenPerRun(db0.stages) ==> Handled(db0.stages[s], db, s))
  }

  /** What ReconcileAttempt does to an open attempt a of stage s. */
  ghost predicate AttemptEffect(db0: Db, db: Db, s: nat, a: nat, alive: bool)
    requires s < |db0.stages| && a < |db0.stages[s].attempts|
  {
    var st := db0.stages[s];
    && OnlyRun(st.run, db0, db) && db.approvals == db0.approvals
    && (db.stages == db0.stages || db.stages == db0.stages[s := st.(attempts := st.attempts[a := st.attempts[a].(status := Interrupted)])])
    && (alive ==> !Open(db.stages[s].attempts[a]))
    && (st.kind.WritesWorkspace() ==>
          Open(db.stages[s].attempts[a]) || BlockedForRecovery(db, st.run) || Restored(db, s, a))
  }

  /** The attempts of stage s before attempt k are done; nothing else has changed. */
  ghost predicate AttemptsEffect(db0: Db, db: Db, s: nat, k: nat, alive: bool)
    requires s < |db0.stages| && k <= |db0.stages[s].attempts|
  {
    var was := db0.stages[s];
    && OnlyRun(was.run, db0, db) && db.approvals == db0.approvals
    && |db.stages| == |db0.stages| && (forall i :: 0 <= i < |db.stages| && i != s ==> db.stages[i] == db0.stages[i])
    && Between(was, db.stages[s], Interrupted) && db.stages[s].status == was.status
    && (forall i :: k <= i < |was.attempts| ==> db.stages[s].attempts[i] == was.attempts[i])
    && (alive ==> forall i :: 0 <= i < k ==> db.stages[s].attempts[i] == CloseAttempt(was.attempts[i], Interrupted))
    && ((forall i :: 0 <= i < k ==> !Open(was.attempts[i])) ==> db.runs == db0.runs && db.dest == db0.dest)
    && (OneOpenPerRun(db0.stages) ==> Handled(was, db, s))
  }

  lemma NextAttempt(db0: Db, db1: Db, db2: Db, s: nat, a: nat, alive1: bool, alive2: bool)
    requires s < |db0.stages| && a < |db0.stages[s].attempts| && |db1.stages| == |db0.stages|
    requires AttemptsEffect(db0, db1, s, a, alive1) && (alive2 ==> alive1)
    requires Open(db1.stages[s].attempts[a]) && AttemptEffect(db1, db2, s, a, alive2)
    ensures AttemptsEffect(db0, db2, s, a + 1, alive2)
  {
    var was := db0.stages[s];
    assert db1.stages[s].attempts[a] == was.attempts[a];
    if OneOpenPerRun(db0.stages) {
      forall i | 0 <= i < |was.attempts| && Open(was.attempts[i]) ensures i == a { }
    }
  }

  lemma StageCloses(db0: Db, db1: Db, db2: Db, s: nat, alive1: bool, alive2: bool)
    requires s < |db0.stages| && |db1.stages| == |db0.stages| && (alive2 ==> alive1)
    requires AttemptsEffect(db0, db1, s, |db0.stages[s].attempts|, alive1)
    requires var st := db1.stages[s];
             && db2 == db1.(stages := db2.stages)
             && (db2.stages == db1.stages || (st.status == Running && db2.stages == db1.stages[s := st.(status := Interrupted)]))
             && (alive2 ==> db2.stages == if st.status == Running then db1.stages[s := st.(status := Interrupted)] else db1.stages)
    ensures StageEffect(db0, db2, s, alive2)
  {
    if alive2 { assert db2.stages[s].attempts == CloseStage(db0.stages[s], Interrupted).attempts; }
  }

  /** The stages of run r before stage k are done; nothing else has changed. */
  ghost predicate RunEffect(db0: Db, db: Db, r: nat, k: nat, alive: bool)
    requires k <= |db0.stages|
  {
    && OnlyRun(r, db0, db) && db.approvals == db0.approvals
    && |db.stages| == |db0.stages|
    && (forall i :: 0 <= i < |db.stages| ==>
          if db0.stages[i].run == r && i < k then StageDone(db0.stages[i], db.stages[i], Interrupted, alive)
          else db.stages[i] == db0.stages[i])
    && ((forall i :: 0 <= i < k && db0.stages[i].run == r ==> !HasOpen(db0.stages[i])) ==> db.runs == db0.runs && db.dest == db0.dest)
    && (OneOpenPerRun(db0.stages) ==> forall i :: 0 <= i < k && db0.stages[i].run == r ==> Handled(db0.stages[i], db, i))
  }

  lemma HandledIsKept(was: Stage, db: Db, db': Db, s: nat)
    requires s < |db.stages| && s < |db'.stages| && db'.stages[s] == db.stages[s] && db'.checkpoints == db.checkpoints
    requires Handled(was, db, s) && was.run == db.stages[s].run
    requires was.run in db.runs ==> was.run in db'.runs && db'.runs[was.run] == db.runs[was.run]
    requires was.run in db.dest ==> was.run in db'.dest && db'.dest[was.run] == db.dest[was.run]
    ensures Handled(was, db', s)
  {
  }

  lemma NothingOpenNothingToHandle(was: Stage, db: Db, s: nat)
    requires s < |db.stages| && !HasOpen(was) && |db.stages[s].attempts| == |was.attempts|
    ensures Handled(was, db, s)
  {
  }

  lemma NextStage(db0: Db, db1: Db, db2: Db, r: nat, s: nat, alive1: bool, alive2: bool)
    requires s < |db0.stages| && db0.stages[s].run == r && RunEffect(db0, db1, r, s, alive1)
    requires StageEffect(db1, db2, s, alive2) && (alive2 ==> alive1)
    ensures RunEffect(db0, db2, r, s + 1, alive2)
  {
    assert db1.stages[s] == db0.stages[s];
    NextStageHandled(db0, db1, db2, r, s, alive1, alive2);
  }

  lemma NextStageHandled(db0: Db, db1: Db, db2: Db, r: nat, s: nat, alive1: bool, alive2: bool)
    requires s < |db0.stages| && db0.stages[s].run == r && RunEffect(db0, db1, r, s, alive1)
    requires StageEffect(db1, db2, s, alive2)
    ensures OneOpenPerRun(db0.stages) ==> forall i :: 0 <= i < s + 1 && db0.stages[i].run == r ==> Handled(db0.stages[i], db2, i)
  {
    StillOneOpen(db0.stages, db1.stages);
    assert db1.stages[s] == db0.stages[s];
    if OneOpenPerRun(db0.stages) {
      forall i | 0 <= i < s && db0.stages[i].run == r ensures Handled(db0.stages[i], db2, i) {
        assert Handled(db0.stages[i], db1, i);
        assert db2.stages[i] == db1.stages[i];
        if HasOpen(db0.stages[i]) {
          assert !HasOpen(db0.stages[s]);
          HandledIsKept(db0.stages[i], db1, db2, i);
        } else {
          NothingOpenNothingToHandle(db0.stages[i], db2, i);
        }
      }
    }
  }

  lemma SkipStage(db0: Db, db: Db, r: nat, s: nat, alive: bool)
    requires s < |db0.stages| && db0.stages[s].run != r && RunEffect(db0, db, r, s, alive)
    ensures RunEffect(db0, db, r, s + 1, alive)
  {
  }

  /** The pending approvals of the finished runs are gone and every other one is untouched. */
  ghost predicate ApprovalsDone(was: seq<Approval>, now: seq<Approval>, done: set<nat>, alive: bool) {
    && |now| == |was|
    && (forall i :: 0 <= i < |now| ==> now[i] == was[i] || (now[i] == was[i].(pending := false) && now[i].run in done))
    && (alive ==> forall i :: 0 <= i < |now| && now[i].run in done ==> !now[i].pending)
  }

  /** Every row of the finished runs is closed and every other row is untouched. */
  ghost predicate RowsDone(runs0: map<nat, RunRow>, was: seq<Stage>, now: seq<Stage>, done: set<nat>, alive: bool) {
    && |now| == |was|
    && forall i :: 0 <= i < |now| ==>
         if was[i].run in done then StageDone(was[i], now[i], ClosingStatus(runs0, was[i].run), alive)
         else now[i] == was[i]
  }

  /** The runs in done are reconciled; nothing else has changed. */
  ghost predicate ActiveEffect(db0: Db, db: Db, done: set<nat>, alive: bool) {
    && RowsDone(db0.runs, db0.stages, db.stages, done, alive)
    && ApprovalsDone(db0.approvals, db.approvals, done, alive)
    && db.runs.Keys == db0.runs.Keys && db.checkpoints == db0.checkpoints
    && (forall r :: r in db.runs ==> db.runs[r] == db0.runs[r] || (r in done && db.runs[r] == RunRow(Blocked, Recovery)))
    && (forall r :: !(r in done && RunHasOpen(db0.stages, r)) ==> RunKept(db0, db, r))
    && (OneOpenPerRun(db0.stages) ==>
          forall i :: 0 <= i < |db0.stages| && db0.stages[i].run in done ==> Handled(db0.stages[i], db, i))
  }

  ghost predicate RunKept(db0: Db, db: Db, r: nat) {
    && (r in db.runs <==> r in db0.runs) && (r in db.runs ==> db.runs[r] == db0.runs[r])
    && (r in db.dest <==> r in db0.dest) && (r in db.dest ==> db.dest[r] == db0.dest[r])
  }

  lemma NoRunYet(db: Db, alive: bool)
    ensures ActiveEffect(db, db, {}, alive)
  {
  }

  lemma NextRun(db0: Db, db1: Db, db2: Db, done: set<nat>, r: nat, alive1: bool, alive2: bool)
    requires r in db0.runs && !db0.runs[r].status.Terminal() && r !in done
    requires ActiveEffect(db0, db1, done, alive1) && (alive2 ==> alive1)
    requires RunEffect(db1, db2.(approvals := db1.approvals), r, |db1.stages|, alive2)
    requires ApprovalsDone(db1.approvals, db2.approvals, {r}, alive2)
    ensures ActiveEffect(db0, db2, done + {r}, alive2)
  {
    StillOneOpen(db0.stages, db1.stages);
    var mid := db2.(approvals := db1.approvals);
    if OneOpenPerRun(db0.stages) {
      forall i | 0 <= i < |db0.stages| && db0.stages[i].run in done + {r} ensures Handled(db0.stages[i], db2, i) {
        if db0.stages[i].run == r {
          assert db1.stages[i] == db0.stages[i];
          HandledIsKept(db0.stages[i], mid, db2, i);
        } else {
          HandledIsKept(db0.stages[i], db1, db2, i);
        }
      }
    }
    NextRunRows(db0, db1, db2, done, r, alive1, alive2);
  }

  lemma NextRunRows(db0: Db, db1: Db, db2: Db, done: set<nat>, r: nat, alive1: bool, alive2: bool)
    requires r in db0.runs && !db0.runs[r].status.Terminal() && r !in done
    requires ActiveEffect(db0, db1, done, alive1) && (alive2 ==> alive1)
    requires RunEffect(db1, db2.(approvals := db1.approvals), r, |db1.stages|, alive2)
    ensures RowsDone(db0.runs, db0.stages, db2.stages, done + {r}, alive2)
    ensures forall q :: !(q in done + {r} && RunHasOpen(db0.stages, q)) ==> RunKept(db0, db2, q)
  {
    if !RunHasOpen(db0.stages, r) {
      forall i | 0 <= i < |db1.stages| && db1.stages[i].run == r ensures !HasOpen(db1.stages[i]) {
        assert db1.stages[i] == db0.stages[i];
      }
    }
    forall q | !(q in done + {r} && RunHasOpen(db0.stages, q)) ensures RunKept(db0, db2, q) {
      assert RunKept(db0, db1, q);
    }
  }

  ghost predicate Copied(copy: NodeTree, t: NodeTree, walked: seq<Text>) {
    && (forall p :: p in copy <==> p in walked)
    && (forall p :: p in copy ==> p in t && copy[p] == t[p])
  }

  class Store {
    var runs: map<nat, RunRow>
    var stages: seq<Stage>
    var checkpoints: seq<Checkpoint>
    var approvals: seq<Approval>
    var dest: map<nat, Dest>
    /** Durable writes left before the process is killed; once it is 0 nothing more happens. */
    var fuel: nat
    var clock: nat

    ghost function Now(): Db reads this { Db(runs, stages, checkpoints, approvals, dest) }

    method SetAttempt(s: nat, a: nat, status: AttemptStatus)
      requires s < |stages| && a < |stages[s].attempts|
      modifies this`stages, this`fuel
      ensures fuel == if old(fuel) > 0 then old(fuel) - 1 else 0
      ensures stages == if old(fuel) == 0 then old(stages)
                        else old(stages)[s := old(stages[s]).(attempts := old(stages[s].attempts)[a := old(stages[s].attempts[a]).(status := status)])]
    {
      if fuel > 0 {
        fuel := fuel - 1;
        stages := stages[s := stages[s].(attempts := stages[s].attempts[a := stages[s].attempts[a].(status := status)])];
      }
    }

    method SetStage(s: nat, status: AttemptStatus)
      requires s < |stages|
      modifies this`stages, this`fuel
      ensures fuel == if old(fuel) > 0 then old(fuel) - 1 else 0
      ensures stages == if old(fuel) == 0 then old(stages) else old(stages)[s := old(stages[s]).(status := status)]
    {
      if fuel > 0 {
        fuel := fuel - 1;
        stages := stages[s := stages[s].(status := status)];
      }
    }

    /** copyDirPreserve: entry by entry, while others may edit the directory. */
    method CopyCheckpoint(c: nat, o: Oracle) returns (staged: Option<NodeTree>)
      modifies this`clock
      ensures forall t: NodeTree :: Undisturbed(o, c, t) ==> staged == Some(t)
    {
      var copy: NodeTree := map[];
      var walk := o.walk(clock);
      for k := 0 to |walk|
        invariant forall t: NodeTree :: Undisturbed(o, c, t) ==> Copied(copy, t, walk[..k])
      {
        var now := o.dirs(clock);
        clock := clock + 1;
        if c !in now || walk[k] !in now[c] || o.fails(clock) { return None; }
        copy := copy[walk[k] := now[c][walk[k]]];
        assert walk[..k + 1] == walk[..k] + [walk[k]];
      }
      assert walk[..|walk|] == walk;
      forall t: NodeTree | Undisturbed(o, c, t) ensures copy == t {
        assert forall p :: p in copy <==> p in t;
      }
      return Some(copy);
    }

    /** RestoreSnapshot: materialize beside the workspace, remove the workspace, rename. */
    method RestoreSnapshot(r: nat, tree: NodeTree, o: Oracle) returns (ok: bool)
      requires r in dest
      modifies this`dest, this`fuel, this`clock
      ensures fuel <= old(fuel)
      ensures dest == old(dest) || dest in {old(dest)[r := Partial], old(dest)[r := Absent], old(dest)[r := Whole(FilesOf(tree))]}
      ensures ok && fuel > 0 ==> dest == old(dest)[r := Whole(FilesOf(tree))]
      ensures (forall k :: !o.fails(k)) ==> ok
    {
      clock := clock + 3;
      if o.fails(clock - 2) { return false; }
      var tmp := FilesOf(tree);
      if fuel > 0 {
        fuel := fuel - 1;
        dest := dest[r := if o.fails(clock - 1) then Partial else Absent];
      }
      if o.fails(clock - 1) { return false; }
      if o.fails(clock) { return false; }
      if fuel > 0 {
        fuel := fuel - 1;
        dest := dest[r := Whole(tmp)];
        assert dest == old(dest)[r := Whole(tmp)];
      }
      return true;
    }

    /** RestoreVerified: copy the checkpoint directory, hash the private copy, and only if the hash is the recorded
        one replace the workspace, by the files of that copy. */
    method RestoreVerified(r: nat, c: nat, o: Oracle) returns (ok: bool)
      requires r in dest && c < |checkpoints|
      modifies this`dest, this`fuel, this`clock
      ensures fuel <= old(fuel)
      ensures dest == old(dest) ||
              exists t: NodeTree :: DigestOf(t) == checkpoints[c].treeHash &&
                dest in {old(dest)[r := Partial], old(dest)[r := Absent], old(dest)[r := Whole(FilesOf(t))]}
      ensures ok && fuel > 0 ==> r in dest && RestoredTo(dest[r], checkpoints[c].treeHash)
      // a directory left alone is restored exactly if its tree has the recorded hash
      ensures forall t: NodeTree :: Undisturbed(o, c, t) ==> (ok <==> DigestOf(t) == checkpoints[c].treeHash)
    {
      var staged := CopyCheckpoint(c, o);
      if staged.None? { return false; }
      var tree := staged.value;
      var order := SortedKeys(tree.Keys);
      var es := CollectTree(tree, order);
      var stream := WriteV3(es);
      ListingUnique(tree, es, ListingOf(tree));
      if Workspace.Sha(stream) != checkpoints[c].treeHash { return false; }
      assert DigestOf(tree) == checkpoints[c].treeHash;
      ok := RestoreSnapshot(r, tree, o);
    }

    /** restoreWriteCheckpoint for attempt a of stage s. */
    method RestoreWriteCheckpoint(s: nat, a: nat, o: Oracle) returns (ok: bool)
      requires s < |stages| && a < |stages[s].attempts|
      modifies this`dest, this`fuel, this`clock
      ensures fuel <= old(fuel)
      ensures forall r :: r != stages[s].run ==> (r in dest <==> r in old(dest)) && (r in dest ==> dest[r] == old(dest)[r])
      // the row linked to is the one restored, and without a link the last row made for this attempt
      ensures ok && fuel > 0 ==> Restored(Now(), s, a)
      ensures ok && fuel > 0 && stages[s].attempts[a].checkpointId.Some? ==>
                HoldsCheckpoint(Now(), stages[s].run, stages[s].attempts[a].checkpointId.value)
      ensures ok ==> exists c: nat :: IsCheckpointOf(checkpoints, s, a, stages[s].attempts[a], c) && Restorable(old(Now()), stages[s].run, c)
      ensures !ok && (forall c: nat :: !IsCheckpointOf(checkpoints, s, a, stages[s].attempts[a], c)) ==> dest == old(dest)
      // and it is restored when the row, the workspace and the directory allow it
      ensures CanRestore(old(Now()), s, a, o) ==> ok
    {
      var found := CheckpointFor(checkpoints, s, a, stages[s].attempts[a]);
      if found.None? { return false; }
      var cp, r := checkpoints[found.value], stages[s].run;
      assert CanRestore(Now(), s, a, o) ==> Restorable(Now(), r, found.value);
      if cp.reclaimed || cp.hashVersion != 3 || !cp.pathOwned { return false; }
      if r !in dest || dest[r].Absent? { return false; }
      ok := RestoreVerified(r, found.value, o);
    }

    /** One stage of a terminal run. */
    method CloseTerminalStage(s: nat, status: AttemptStatus)
      requires s < |stages| && status !in {Running, Pending}
      modifies this`stages, this`fuel
      ensures fuel <= old(fuel)
      ensures |stages| == |old(stages)| && forall i :: 0 <= i < |stages| && i != s ==> stages[i] == old(stages)[i]
      ensures Between(old(stages[s]), stages[s], status)
      ensures fuel > 0 ==> stages[s] == CloseStage(old(stages[s]), status)
    {
      ghost var was := stages[s];
      for a := 0 to |stages[s].attempts|
        invariant |stages| == |old(stages)| && forall i :: 0 <= i < |stages| && i != s ==> stages[i] == old(stages)[i]
        invariant fuel <= old(fuel) && Between(was, stages[s], status) && stages[s].status == was.status
        invariant forall i :: a <= i < |was.attempts| ==> stages[s].attempts[i] == was.attempts[i]
        invariant fuel > 0 ==> forall i :: 0 <= i < a ==> stages[s].attempts[i] == CloseAttempt(was.attempts[i], status)
      {
        if Open(stages[s].attempts[a]) { SetAttempt(s, a, status); }
      }
      if stages[s].status == Running { SetStage(s, Interrupted); }
      assert fuel > 0 ==> stages[s].attempts == CloseStage(was, status).attempts;
    }

    /** The failure branch: the attempt is closed and its run blocked, as one step. */
    method FailRestore(s: nat, a: nat)
      requires s < |stages| && a < |stages[s].attempts|
      modifies this`stages, this`runs, this`fuel
      ensures fuel == if old(fuel) > 0 then old(fuel) - 1 else 0
      ensures stages == if old(fuel) == 0 then old(stages)
                        else old(stages)[s := old(stages[s]).(attempts := old(stages[s].attempts)[a := old(stages[s].attempts[a]).(status := Interrupted)])]
      ensures runs == if old(fuel) == 0 || old(stages[s]).run !in old(runs) then old(runs)
                      else old(runs)[old(stages[s]).run := RunRow(Blocked, Recovery)]
    {
      if fuel > 0 {
        fuel := fuel - 1;
        stages := stages[s := stages[s].(attempts := stages[s].attempts[a := stages[s].attempts[a].(status := Interrupted)])];
        var r := stages[s].run;
        if r in runs { runs := runs[r := RunRow(Blocked, Recovery)]; }
      }
    }

    /** One open attempt of an active run: restore first, then record it as interrupted. */
    method ReconcileAttempt(s: nat, a: nat, o: Oracle)
      requires s < |stages| && a < |stages[s].attempts| && Open(stages[s].attempts[a]) && stages[s].run in runs
      modifies this`stages, this`runs, this`dest, this`fuel, this`clock
      ensures fuel <= old(fuel) && AttemptEffect(old(Now()), Now(), s, a, fuel > 0)
      // the run is not blocked when the restore can be done
      ensures CanRestore(old(Now()), s, a, o) ==> runs == old(runs)
    {
      if stages[s].kind.WritesWorkspace() {
        var ok := RestoreWriteCheckpoint(s, a, o);
        if !ok {
          FailRestore(s, a);
          return;
        }
      }
      ghost var db1 := Now();
      SetAttempt(s, a, Interrupted);
      RestoredIsKept(db1, Now(), s, a);
    }

    /** One stage of an active run. */
    method ReconcileStage(s: nat, o: Oracle)
      requires s < |stages| && stages[s].run in runs
      modifies this`stages, this`runs, this`dest, this`fuel, this`clock
      ensures fuel <= old(fuel) && StageEffect(old(Now()), Now(), s, fuel > 0)
    {
      ghost var db0 := Now();
      for a := 0 to |stages[s].attempts|
        invariant |stages| == |db0.stages| && fuel <= old(fuel) && AttemptsEffect(db0, Now(), s, a, fuel > 0)
      {
        if Open(stages[s].attempts[a]) {
          ghost var db1, alive1 := Now(), fuel > 0;
          ReconcileAttempt(s, a, o);
          NextAttempt(db0, db1, Now(), s, a, alive1, fuel > 0);
        }
      }
      ghost var db1, alive1 := Now(), fuel > 0;
      if stages[s].status == Running { SetStage(s, Interrupted); }
      StageCloses(db0, db1, Now(), s, alive1, fuel > 0);
    }

    /** reconcileTerminalRuns. */
    method ReconcileTerminalRuns()
      modifies this`stages, this`fuel
      ensures fuel <= old(fuel)
      ensures RowsDone(runs, old(stages), stages, TerminalWithOpen(runs, old(stages)), fuel > 0)
    {
      ghost var stages0 := stages;
      var todo := TerminalWithOpen(runs, stages);
      ghost var all := todo;
      while todo != {}
        invariant todo <= all && fuel <= old(fuel) && RowsDone(runs, stages0, stages, all - todo, fuel > 0)
        decreases todo
      {
        var r :| r in todo;
        for s := 0 to |stages|
          invariant |stages| == |stages0| && fuel <= old(fuel)
          invariant forall i :: 0 <= i < |stages| ==>
              if stages0[i].run in all - todo || (stages0[i].run == r && i < s) then
                StageDone(stages0[i], stages[i], ClosingStatus(runs, stages0[i].run), fuel > 0)
              else stages[i] == stages0[i]
        {
          if stages[s].run == r { CloseTerminalStage(s, ClosingStatus(runs, r)); }
        }
        todo := todo - {r};
      }
      assert all - todo == all;
    }

    /** All stages of one active run. */
    method ReconcileStages(r: nat, o: Oracle)
      requires r in runs
      modifies this`stages, this`runs, this`dest, this`fuel, this`clock
      ensures fuel <= old(fuel) && RunEffect(old(Now()), Now(), r, |old(stages)|, fuel > 0)
    {
      ghost var db0 := Now();
      for s := 0 to |stages|
        invariant |stages| == |db0.stages| && fuel <= old(fuel) && RunEffect(db0, Now(), r, s, fuel > 0)
      {
        ghost var db1, alive1 := Now(), fuel > 0;
        if stages[s].run == r {
          ReconcileStage(s, o);
          NextStage(db0, db1, Now(), r, s, alive1, fuel > 0);
        } else {
          SkipStage(db0, db1, r, s, alive1);
        }
      }
    }

    /** CancelPendingApprovalsForRun. */
    method CancelApprovals(r: nat)
      modifies this`approvals, this`fuel
      ensures fuel <= old(fuel) && ApprovalsDone(old(approvals), approvals, {r}, fuel > 0)
    {
      for k := 0 to |approvals|
        invariant fuel <= old(fuel) && |approvals| == |old(approvals)|
        invariant forall i :: 0 <= i < |approvals| ==>
            approvals[i] == old(approvals)[i] || (approvals[i] == old(approvals)[i].(pending := false) && approvals[i].run == r)
        invariant fuel > 0 ==> forall i :: 0 <= i < k && approvals[i].run == r ==> !approvals[i].pending
      {
        if approvals[k].run == r && approvals[k].pending { CancelApproval(k); }
      }
    }

    method CancelApproval(k: nat)
      requires k < |approvals|
      modifies this`approvals, this`fuel
      ensures fuel == if old(fuel) > 0 then old(fuel) - 1 else 0
      ensures approvals == if old(fuel) == 0 then old(approvals) else old(approvals)[k := old(approvals)[k].(pending := false)]
    {
      if fuel > 0 {
        fuel := fuel - 1;
        approvals := approvals[k := approvals[k].(pending := false)];
      }
    }

    method ReconcileActiveRun(r: nat, o: Oracle)
      requires r in runs
      modifies this`stages, this`runs, this`dest, this`fuel, this`clock, this`approvals
      ensures fuel <= old(fuel) && RunEffect(old(Now()), Now().(approvals := old(approvals)), r, |old(stages)|, fuel > 0)
      ensures ApprovalsDone(old(approvals), approvals, {r}, fuel > 0)
    {
      ghost var db0 := Now();
      ReconcileStages(r, o);
      ghost var db1, alive1 := Now(), fuel > 0;
      CancelApprovals(r);
      StagesOutlive(db0, db1, r, alive1, fuel > 0);
      assert Now().(approvals := db0.approvals) == db1;
    }

    method ReconcileActiveRuns(o: Oracle)
      modifies this`stages, this`runs, this`dest, this`fuel, this`clock, this`approvals
      ensures fuel <= old(fuel) && ActiveEffect(old(Now()), Now(), Active(old(runs)), fuel > 0)
    {
      ghost var db0, all := Now(), Active(runs);
      var todo := Active(runs);
      NoRunYet(db0, fuel > 0);
      assert all - todo == {};
      while todo != {}
        invariant todo <= all && fuel <= old(fuel) && runs.Keys == db0.runs.Keys
        invariant ActiveEffect(db0, Now(), all - todo, fuel > 0)
        decreases todo
      {
        var r :| r in todo;
        ghost var db1, alive1 := Now(), fuel > 0;
        ReconcileActiveRun(r, o);
        NextRun(db0, db1, Now(), all - todo, r, alive1, fuel > 0);
        assert all - todo + {r} == all - (todo - {r});
        todo := todo - {r};
      }
      assert all - todo == all;
    }

    /** Reconcile, steps 1 to 3. */
    method Reconcile(o: Oracle)
      modifies this`stages, this`runs, this`dest, this`fuel, this`clock, this`approvals
      ensures ReconcileEffect(old(Now()), Now(), fuel > 0)
    {
      ghost var db0 := Now();
      ReconcileTerminalRuns();
      ghost var db1, alive1 := Now(), fuel > 0;
      ReconcileActiveRuns(o);
      BothPhases(db0, db1, Now(), alive1, fuel > 0);
    }
  }

  lemma StagesOutlive(db0: Db, db: Db, r: nat, alive1: bool, alive2: bool)
    requires RunEffect(db0, db, r, |db0.stages|, alive1) && (alive2 ==> alive1)
    ensures RunEffect(db0, db, r, |db0.stages|, alive2)
  {
  }

  /** What one start leaves behind, killed or not (alive: it was not killed). */
  ghost predicate ReconcileEffect(db0: Db, db: Db, alive: bool) {
    && |db.stages| == |db0.stages| && db.checkpoints == db0.checkpoints && db.runs.Keys == db0.runs.Keys
    // rows only move towards closed
    && (forall i :: 0 <= i < |db.stages| ==> Between(db0.stages[i], db.stages[i], ClosingStatus(db0.runs, db0.stages[i].run)))
    && (alive ==> db.stages == ReconciledAll(db0.runs, db0.stages))
    // an interrupted write attempt of an active run is closed only with its workspace restored or its run blocked
    && (OneOpenPerRun(db0.stages) ==>
          forall i :: 0 <= i < |db0.stages| && db0.stages[i].run in Active(db0.runs) ==> Handled(db0.stages[i], db, i))
    && (forall r :: r in db.runs ==> db.runs[r] == db0.runs[r] || (r in Active(db0.runs) && db.runs[r] == RunRow(Blocked, Recovery)))
    && (forall r :: !(r in Active(db0.runs) && RunHasOpen(db0.stages, r)) ==> RunKept(db0, db, r))
    && ApprovalsDone(db0.approvals, db.approvals, Active(db0.runs), alive)
    && (Settled(db0) ==> db == db0)
  }

  lemma BothPhases(db0: Db, db1: Db, db2: Db, alive1: bool, alive2: bool)
    requires db1 == db0.(stages := db1.stages) && (alive2 ==> alive1)
    requires RowsDone(db0.runs, db0.stages, db1.stages, TerminalWithOpen(db0.runs, db0.stages), alive1)
    requires ActiveEffect(db1, db2, Active(db0.runs), alive2)
    ensures ReconcileEffect(db0, db2, alive2)
  {
    StillOneOpen(db0.stages, db1.stages);
    BothPhasesRows(db0, db1, db2, alive1, alive2);
    forall r | !(r in Active(db0.runs) && RunHasOpen(db0.stages, r)) ensures RunKept(db0, db2, r) {
      if r in Active(db0.runs) {
        forall i | 0 <= i < |db1.stages| && db1.stages[i].run == r ensures !HasOpen(db1.stages[i]) {
          assert db1.stages[i] == db0.stages[i];
        }
      }
      assert RunKept(db1, db2, r);
    }
    if Settled(db0) { SettledStays(db0, db1, db2, alive1, alive2); }
  }

  lemma BothPhasesRows(db0: Db, db1: Db, db2: Db, alive1: bool, alive2: bool)
    requires db1.runs == db0.runs && (alive2 ==> alive1)
    requires RowsDone(db0.runs, db0.stages, db1.stages, TerminalWithOpen(db0.runs, db0.stages), alive1)
    requires RowsDone(db0.runs, db1.stages, db2.stages, Active(db0.runs), alive2)
    ensures forall i :: 0 <= i < |db0.stages| ==> Between(db0.stages[i], db2.stages[i], ClosingStatus(db0.runs, db0.stages[i].run))
    ensures alive2 ==> db2.stages == ReconciledAll(db0.runs, db0.stages)
    ensures forall i :: 0 <= i < |db0.stages| && db0.stages[i].run in Active(db0.runs) ==> db1.stages[i] == db0.stages[i]
  {
    forall i | 0 <= i < |db0.stages| && alive2 ensures db2.stages[i] == Reconciled(db0.runs, db0.stages, db0.stages[i]) {
    }
  }

  lemma SettledStays(db0: Db, db1: Db, db2: Db, alive1: bool, alive2: bool)
    requires Settled(db0) && db1 == db0.(stages := db1.stages)
    requires RowsDone(db0.runs, db0.stages, db1.stages, TerminalWithOpen(db0.runs, db0.stages), alive1)
    requires ActiveEffect(db1, db2, Active(db0.runs), alive2)
    ensures db2 == db0
  {
    assert TerminalWithOpen(db0.runs, db0.stages) == {};
    assert db1.stages == db0.stages;
    forall i | 0 <= i < |db0.stages| ensures db2.stages[i] == db0.stages[i] {
      if db0.stages[i].run in Active(db0.runs) { NothingToClose(db0.stages[i], db2.stages[i], Interrupted); }
    }
    assert db2.stages == db0.stages;
    assert db2.approvals == db0.approvals;
    forall r ensures RunKept(db0, db2, r) {
      assert RunKept(db1, db2, r);
    }
    assert forall r :: r in db2.dest ==> RunKept(db0, db2, r);
    assert forall r :: r in db0.dest ==> RunKept(db0, db2, r);
    assert db2.dest.Keys == db0.dest.Keys;
    assert db2.runs == db0.runs && db2.dest == db0.dest;
  }

  /** A start that is not killed leaves a settled store, so the next start changes nothing. */
  lemma OnePassSettles(db0: Db, db: Db)
    requires ReconcileEffect(db0, db, true)
    ensures Settled(db)
  {
    forall i | 0 <= i < |db.stages| && db.stages[i].run in db.runs
      ensures !HasOpen(db.stages[i])
      ensures !db.runs[db.stages[i].run].status.Terminal() ==> db.stages[i].status != Running
    {
      var was := db0.stages[i];
      assert db.stages[i] == Reconciled(db0.runs, db0.stages, was);
      if !Touched(db0.runs, db0.stages, was.run) {
        assert !RunHasOpen(db0.stages, was.run);
      } else {
        forall a | 0 <= a < |db.stages[i].attempts| ensures !Open(db.stages[i].attempts[a]) {
          assert db.stages[i].attempts[a] == CloseAttempt(was.attempts[a], ClosingStatus(db0.runs, was.run));
        }
      }
    }
  }

  /** Row by row, what a start that is not killed writes: an open attempt is cancelled with its run or else
      interrupted, and a running stage is interrupted unless its run had ended with nothing open. */
  lemma OnePassCloses(db0: Db, db: Db, i: nat, a: nat)
    requires ReconcileEffect(db0, db, true) && i < |db0.stages| && db0.stages[i].run in db0.runs && a < |db0.stages[i].attempts|
    ensures |db.stages| == |db0.stages| && |db.stages[i].attempts| == |db0.stages[i].attempts|
    ensures var was, run := db0.stages[i], db0.runs[db0.stages[i].run];
            && db.stages[i].run == was.run && db.stages[i].kind == was.kind
            && db.stages[i].attempts[a].checkpointId == was.attempts[a].checkpointId
            && db.stages[i].attempts[a].status
               == (if was.attempts[a].status !in {Running, Pending} then was.attempts[a].status
                   else if run.status == Cancelled then AttemptCancelled else Interrupted)
            && (run.status !in {Complete, Domain.Failed, Cancelled} || was.attempts[a].status in {Running, Pending} ==>
                  db.stages[i].status == if was.status == Running then Interrupted else was.status)
            && (run.status in {Complete, Domain.Failed, Cancelled} && !RunHasOpen(db0.stages, was.run) ==> db.stages[i] == was)
  {
    var was := db0.stages[i];
    assert db.stages[i] == Reconciled(db0.runs, db0.stages, was);
    if Open(was.attempts[a]) { assert HasOpen(was); }
  }

  /** An interrupted write attempt of an active run: its run is blocked, or the workspace holds the checkpoint
      the attempt is linked to, or without a link the last one made for it. */
  lemma InterruptedWritesComeBack(db0: Db, db: Db, i: nat, a: nat)
    requires ReconcileEffect(db0, db, true) && OneOpenPerRun(db0.stages)
    requires i < |db0.stages| && a < |db0.stages[i].attempts| && db0.stages[i].run in db0.runs
    requires db0.runs[db0.stages[i].run].status !in {Complete, Domain.Failed, Cancelled}
    requires db0.stages[i].kind in {ExecuteStage, RepairStage} && db0.stages[i].attempts[a].status in {Running, Pending}
    ensures var r, cps := db0.stages[i].run, db0.checkpoints;
            || (r in db.runs && db.runs[r] == RunRow(Blocked, Recovery))
            || exists c: nat :: HoldsCheckpoint(db, r, c)
                 && match db0.stages[i].attempts[a].checkpointId
                    case Some(linked) => c == linked
                    case None => && c < |cps| && cps[c].stage == i && cps[c].attempt == a
                                 && forall k :: c < k < |cps| ==> !(cps[k].stage == i && cps[k].attempt == a)
  {
    OnePassCloses(db0, db, i, a);
    var r := db0.stages[i].run;
    assert r in Active(db0.runs) && Handled(db0.stages[i], db, i);
    if !BlockedForRecovery(db, r) {
      assert Restored(db, i, a);
      var c: nat :| IsCheckpointOf(db.checkpoints, i, a, db.stages[i].attempts[a], c) && HoldsCheckpoint(db, r, c);
    }
  }

  /** Any number of starts, each killed anywhere: in every state on the way, an attempt of an active run that was
      open and writing at first is still open, or its run is blocked, or its workspace holds its own checkpoint. */
  lemma {:induction false} StartsAreSafe(trace: seq<Db>, k: nat)
    requires k < |trace| && OneOpenPerRun(trace[0].stages)
    requires forall j :: 0 <= j < |trace| - 1 ==> ReconcileEffect(trace[j], trace[j + 1], false)
    ensures |trace[k].stages| == |trace[0].stages|
    ensures Active(trace[k].runs) == Active(trace[0].runs)
    ensures forall i :: 0 <= i < |trace[0].stages| ==> SameAttempts(trace[0].stages[i], trace[k].stages[i])
    ensures forall i :: 0 <= i < |trace[0].stages| && trace[0].stages[i].run in Active(trace[0].runs) ==>
              Handled(trace[0].stages[i], trace[k], i)
  {
    if k > 0 {
      StartsAreSafe(trace, k - 1);
      var first, db1, db2 := trace[0], trace[k - 1], trace[k];
      assert ReconcileEffect(db1, db2, false);
      forall i | 0 <= i < |first.stages| ensures SameAttempts(first.stages[i], db2.stages[i]) {
        StillSameAttempts(first.stages[i], db1.stages[i], db2.stages[i], ClosingStatus(db1.runs, db1.stages[i].run));
      }
      forall i | 0 <= i < |first.stages| && first.stages[i].run in Active(first.runs)
        ensures Handled(first.stages[i], db2, i)
      {
        HandledAgain(first, db1, db2, i);
      }
    }
  }

  /** now holds the attempts of was; an open one was open before. */
  ghost predicate SameAttempts(was: Stage, now: Stage) {
    && now.run == was.run && now.kind == was.kind && |now.attempts| == |was.attempts|
    && forall a :: 0 <= a < |was.attempts| ==>
         && now.attempts[a].checkpointId == was.attempts[a].checkpointId
         && (Open(now.attempts[a]) ==> Open(was.attempts[a]))
  }

  lemma StillSameAttempts(was: Stage, mid: Stage, now: Stage, status: AttemptStatus)
    requires SameAttempts(was, mid) && Between(mid, now, status) && status !in {Running, Pending}
    ensures SameAttempts(was, now)
    ensures forall a :: 0 <= a < |was.attempts| && !Open(mid.attempts[a]) ==> now.attempts[a] == mid.attempts[a]
  {
  }

  lemma HandledAgain(first: Db, db1: Db, db2: Db, i: nat)
    requires OneOpenPerRun(first.stages) && |db1.stages| == |first.stages| && i < |first.stages|
    requires forall j :: 0 <= j < |first.stages| ==> SameAttempts(first.stages[j], db1.stages[j])
    requires first.stages[i].run in Active(db1.runs) && Handled(first.stages[i], db1, i)
    requires ReconcileEffect(db1, db2, false)
    ensures Handled(first.stages[i], db2, i)
  {
    var was, mid, now := first.stages[i], db1.stages[i], db2.stages[i];
    StillSameAttempts(was, mid, now, ClosingStatus(db1.runs, mid.run));
    OneOpenIsInherited(first.stages, db1.stages);
    assert Handled(mid, db2, i);
    forall a | 0 <= a < |was.attempts| && Open(was.attempts[a]) && was.kind.WritesWorkspace()
      ensures Open(now.attempts[a]) || BlockedForRecovery(db2, was.run) || Restored(db2, i, a)
    {
      if !Open(mid.attempts[a]) {
        NoOtherOpen(first.stages, db1.stages, i, a);
        assert RunKept(db1, db2, was.run);
      }
    }
  }

  lemma OneOpenIsInherited(was: seq<Stage>, now: seq<Stage>)
    requires OneOpenPerRun(was) && |now| == |was|
    requires forall j :: 0 <= j < |was| ==> SameAttempts(was[j], now[j])
    ensures OneOpenPerRun(now)
  {
  }

  lemma NoOtherOpen(was: seq<Stage>, now: seq<Stage>, i: nat, a: nat)
    requires OneOpenPerRun(was) && |now| == |was| && i < |was| && a < |was[i].attempts|
    requires forall j :: 0 <= j < |was| ==> SameAttempts(was[j], now[j])
    requires a < |now[i].attempts| && Open(was[i].attempts[a]) && !Open(now[i].attempts[a])
    ensures !RunHasOpen(now, was[i].run)
  {
    forall j, b | 0 <= j < |now| && now[j].run == was[i].run && 0 <= b < |now[j].attempts| ensures !Open(now[j].attempts[b]) {
    }
  }

  function TerminalWithOpen(runs: map<nat, RunRow>, stages: seq<Stage>): set<nat> {
    set r | r in runs && runs[r].status.Terminal() && RunHasOpen(stages, r)
  }

  function Active(runs: map<nat, RunRow>): set<nat> { set r | r in runs && !runs[r].status.Terminal() }

  lemma NothingToClose(was: Stage, now: Stage, status: AttemptStatus)
    requires Between(was, now, status) && !HasOpen(was) && was.status != Running
    ensures now == was
  {
    assert now.attempts == was.attempts;
  }

  lemma StillOneOpen(was: seq<Stage>, now: seq<Stage>)
    requires |now| == |was|
    requires forall i :: 0 <= i < |was| ==> now[i] == was[i] || exists st :: st !in {Running, Pending} && Between(was[i], now[i], st)
    ensures OneOpenPerRun(was) ==> OneOpenPerRun(now)
    ensures forall i :: 0 <= i < |was| && HasOpen(now[i]) ==> HasOpen(was[i])
  {
    forall i, a | 0 <= i < |was| && 0 <= a < |now[i].attempts| && Open(now[i].attempts[a])
      ensures a < |was[i].attempts| && Open(was[i].attempts[a]) && now[i].run == was[i].run
    {
      if now[i] != was[i] {
        var st :| st !in {Running, Pending} && Between(was[i], now[i], st);
        assert now[i].attempts[a] in {was[i].attempts[a], CloseAttempt(was[i].attempts[a], st)};
      }
    }
  }

  /** No open attempt anywhere, and no running stage or pending approval of an active run. */
  ghost predicate Settled(db: Db) {
    && (forall i :: 0 <= i < |db.stages| && db.stages[i].run in db.runs ==> !HasOpen(db.stages[i]))
    && (forall i :: 0 <= i < |db.stages| && db.stages[i].run in Active(db.runs) ==> db.stages[i].status != Running)
    && (forall i :: 0 <= i < |db.approvals| && db.approvals[i].run in Active(db.runs) ==> !db.approvals[i].pending)
  }
}
