/** Startup recovery seen from one run: what a start does to the store is a restart of the run's rows, so the
    lives of the engine and the starts between them are one history. */
module Restarts {
  import opened Bytes
  import opened Domain
  import R = RunState
  import S = StartupRecovery

  /** The stages of a run, in order, by their places in the store. */
  function Places(stages: seq<S.Stage>, r: nat): (places: seq<nat>)
    ensures forall j :: 0 <= j < |places| ==> places[j] < |stages| && stages[places[j]].run == r
    ensures forall i :: 0 <= i < |stages| && stages[i].run == r ==> i in places
    ensures forall i, j :: 0 <= i < j < |places| ==> places[i] < places[j]
  {
    if stages == [] then []
    else
      var last := |stages| - 1;
      Places(stages[..last], r) + if stages[last].run == r then [last] else []
  }

  /** The approvals of a run: for each, whether it is pending. */
  function PendingOf(approvals: seq<S.Approval>, r: nat): seq<bool> {
    if approvals == [] then []
    else
      var last := approvals[|approvals| - 1];
      PendingOf(approvals[..|approvals| - 1], r) + if last.run == r then [last.pending] else []
  }

  /** launched: which attempts the harness was launched for; the store keeps no row of that. */
  function AttemptOf(db: S.Db, launched: (nat, nat) -> bool, i: nat, a: nat): R.Attempt
    requires i < |db.stages| && a < |db.stages[i].attempts|
  {
    var attempt := db.stages[i].attempts[a];
    R.Attempt(attempt.status, S.CheckpointFor(db.checkpoints, i, a, attempt).Some?, launched(i, a))
  }

  function StageOf(db: S.Db, launched: (nat, nat) -> bool, i: nat): R.Stage
    requires i < |db.stages|
  {
    var n := |db.stages[i].attempts|;
    R.Stage(db.stages[i].kind, db.stages[i].status, seq(n, a requires 0 <= a < n => AttemptOf(db, launched, i, a)))
  }

  /** The rows of run r.  Startup recovery does not know the artifacts. */
  function RowsOf(db: S.Db, r: nat, artifacts: seq<R.Artifact>, launched: (nat, nat) -> bool): R.RunRows
    requires r in db.runs
  {
    var places := Places(db.stages, r);
    R.RunRows(db.runs[r].status,
              seq(|places|, j requires 0 <= j < |places| => StageOf(db, launched, places[j])),
              artifacts, PendingOf(db.approvals, r))
  }

  lemma {:induction false} SamePlaces(was: seq<S.Stage>, now: seq<S.Stage>, r: nat)
    requires |now| == |was| && forall i :: 0 <= i < |was| ==> now[i].run == was[i].run
    ensures Places(now, r) == Places(was, r)
  {
    if was != [] { SamePlaces(was[..|was| - 1], now[..|was| - 1], r); }
  }

  lemma {:induction false} ApprovalsOnlyEnd(was: seq<S.Approval>, now: seq<S.Approval>, r: nat)
    requires |now| == |was| && forall i :: 0 <= i < |was| ==> now[i] == was[i] || now[i] == was[i].(pending := false)
    ensures |PendingOf(now, r)| == |PendingOf(was, r)|
    ensures forall i :: 0 <= i < |PendingOf(now, r)| && PendingOf(now, r)[i] ==> PendingOf(was, r)[i]
  {
    if was != [] { ApprovalsOnlyEnd(was[..|was| - 1], now[..|was| - 1], r); }
  }

  lemma StageRestarts(db0: S.Db, db: S.Db, launched: (nat, nat) -> bool, i: nat, status: AttemptStatus)
    requires i < |db0.stages| == |db.stages| && db.checkpoints == db0.checkpoints
    requires S.Between(db0.stages[i], db.stages[i], status)
    ensures R.RowRestarted(StageOf(db0, launched, i), StageOf(db, launched, i), status)
  {
    var was, now := StageOf(db0, launched, i), StageOf(db, launched, i);
    forall a | 0 <= a < |was.attempts|
      ensures now.attempts[a] == was.attempts[a] || now.attempts[a] == R.ClosedAttempt(was.attempts[a], status)
    {
      var before, after := db0.stages[i].attempts[a], db.stages[i].attempts[a];
      assert after == before || after == S.CloseAttempt(before, status);
    }
  }

  /** What one start does to the store, killed or not, is a restart of every run's rows. */
  lemma StartRestarts(db0: S.Db, db: S.Db, alive: bool, r: nat, artifacts: seq<R.Artifact>, launched: (nat, nat) -> bool)
    requires S.ReconcileEffect(db0, db, alive) && r in db0.runs
    ensures R.Restarted(RowsOf(db0, r, artifacts, launched), RowsOf(db, r, artifacts, launched))
  {
    var s, t := RowsOf(db0, r, artifacts, launched), RowsOf(db, r, artifacts, launched);
    SamePlaces(db0.stages, db.stages, r);
    ApprovalsOnlyEnd(db0.approvals, db.approvals, r);
    var places := Places(db0.stages, r);
    forall j | 0 <= j < |places|
      ensures R.RowRestarted(s.stages[j], t.stages[j], if s.status == Cancelled then AttemptCancelled else Interrupted)
    {
      StageRestarts(db0, db, launched, places[j], S.ClosingStatus(db0.runs, r));
    }
  }

  /** The engine keeps at most one attempt of a run open, which is what recovery counts on. */
  lemma OneOpenForRecovery(db: S.Db, artifacts: nat -> seq<R.Artifact>, launched: (nat, nat) -> bool)
    requires forall i :: 0 <= i < |db.stages| ==> db.stages[i].run in db.runs
    requires forall r :: r in db.runs ==> R.OneOpen(RowsOf(db, r, artifacts(r), launched).stages)
    ensures S.OneOpenPerRun(db.stages)
  {
    forall s, a, s', a' |
      && 0 <= s < |db.stages| && 0 <= a < |db.stages[s].attempts| && S.Open(db.stages[s].attempts[a])
      && 0 <= s' < |db.stages| && 0 <= a' < |db.stages[s'].attempts| && S.Open(db.stages[s'].attempts[a'])
      && db.stages[s].run == db.stages[s'].run
      ensures s == s' && a == a'
    {
      var r := db.stages[s].run;
      OpenIsLast(db, r, artifacts(r), launched, s, a);
      OpenIsLast(db, r, artifacts(r), launched, s', a');
    }
  }

  lemma OpenIsLast(db: S.Db, r: nat, artifacts: seq<R.Artifact>, launched: (nat, nat) -> bool, s: nat, a: nat)
    requires r in db.runs && R.OneOpen(RowsOf(db, r, artifacts, launched).stages)
    requires s < |db.stages| && db.stages[s].run == r && a < |db.stages[s].attempts| && S.Open(db.stages[s].attempts[a])
    ensures var places := Places(db.stages, r);
            places != [] && s == places[|places| - 1] && a == |db.stages[s].attempts| - 1
  {
    var places, rows := Places(db.stages, r), RowsOf(db, r, artifacts, launched);
    var j :| 0 <= j < |places| && places[j] == s;
    assert rows.stages[j] == StageOf(db, launched, s);
    assert rows.stages[j].attempts[a] == AttemptOf(db, launched, s, a);
    assert R.Open(rows.stages[j].attempts[a]);
  }

  /** The store at a crash, a start, and what the start leaves: the rows of each run are sound again, one allowed
      step on; unless it was killed the engine can take the run up where it is. */
  lemma EngineResumes(db0: S.Db, db: S.Db, alive: bool, r: nat, b: R.Budgets, log: seq<R.RunRows>,
                      artifacts: seq<R.Artifact>, launched: (nat, nat) -> bool)
    requires S.ReconcileEffect(db0, db, alive) && r in db0.runs
    requires R.History(b, log) && log[|log| - 1] == RowsOf(db0, r, artifacts, launched)
    ensures var t := RowsOf(db, r, artifacts, launched);
            R.History(b, log + [t]) && R.History(b, [t]) && (alive ==> R.Settled(t.stages))
  {
    var s, t := RowsOf(db0, r, artifacts, launched), RowsOf(db, r, artifacts, launched);
    R.EveryStateIsSound(b, log, |log| - 1);
    StartRestarts(db0, db, alive, r, artifacts, launched);
    R.RestartKeepsSound(b, s, t);
    R.HistoriesJoin(b, log, [t]);
    if alive && !t.status.Terminal() { StartSettles(db0, db, r, artifacts, launched); }
  }

  lemma StartSettles(db0: S.Db, db: S.Db, r: nat, artifacts: seq<R.Artifact>, launched: (nat, nat) -> bool)
    requires S.ReconcileEffect(db0, db, true) && r in db.runs && !db.runs[r].status.Terminal()
    ensures R.Settled(RowsOf(db, r, artifacts, launched).stages)
  {
    S.OnePassSettles(db0, db);
    var places, t := Places(db.stages, r), RowsOf(db, r, artifacts, launched);
    forall j | 0 <= j < |places|
      ensures t.stages[j].status != Running
      ensures forall a :: 0 <= a < |t.stages[j].attempts| ==> !R.Open(t.stages[j].attempts[a])
    {
      var stage := db.stages[places[j]];
      assert r in S.Active(db.runs) && !S.HasOpen(stage);
      forall a | 0 <= a < |stage.attempts| ensures !R.Open(t.stages[j].attempts[a]) {
        assert !S.Open(stage.attempts[a]);
      }
    }
  }

  /** An interrupted write attempt that the harness was launched for has a checkpoint to go back to. */
  lemma LaunchedWritesHaveACheckpoint(db: S.Db, r: nat, b: R.Budgets, artifacts: seq<R.Artifact>, launched: (nat, nat) -> bool, i: nat, a: nat)
    requires r in db.runs && R.Sound(b, RowsOf(db, r, artifacts, launched))
    requires i < |db.stages| && db.stages[i].run == r && db.stages[i].kind.WritesWorkspace()
    requires a < |db.stages[i].attempts| && launched(i, a)
    ensures S.CheckpointFor(db.checkpoints, i, a, db.stages[i].attempts[a]).Some?
  {
    var places, rows := Places(db.stages, r), RowsOf(db, r, artifacts, launched);
    var j :| 0 <= j < |places| && places[j] == i;
    assert rows.stages[j] == StageOf(db, launched, i);
    assert rows.stages[j].attempts[a] == AttemptOf(db, launched, i, a);
  }
}
