/** The engine that drives one run: stages, attempts, budgets, the completion gate and cancellation. */
module Orchestrator {
  import opened Bytes
  import opened Domain
  import opened Completion
  import opened RunState

  datatype FailureClass = NoClass | Infrastructure | Task | PolicyFailure | UserFailure | DataFailure

  /** What the harness returns: a failure, output that does not parse, or a parsed artifact. */
  datatype Result = Failure(failure: FailureClass) | Malformed | Output(artifactOnly: bool, review: ReviewArtifact)

  /** The task as the engine holds it in memory. */
  datatype TaskRow = TaskRow(artifactOnly: bool)

  datatype Route = NoRoute | Routed(fallbacks: nat)
  datatype Integration = IntegratorAbsent | IntegratorFailed | NotPublished | Published

  /** Everything the engine does not decide, at each moment (tick) it is asked. */
  datatype Oracle = Oracle(
    cancelAt: Option<nat>,             // the context is cancelled from this tick on
    ambiguous: nat -> bool,            // the assessment calls for exploration
    artifactOnly: nat -> bool,         // the assessment calls the task artifact-only
    route: nat -> Route,
    prepares: nat -> bool,             // the workspace can be prepared
    captures: nat -> bool,             // a checkpoint, or a validation workspace, can be made
    result: nat -> Result,
    approvals: nat -> seq<bool>,       // the approvals of the run after a harness execution
    checks: nat -> seq<Check>,         // the discovered checks
    exec: nat -> (nat -> CheckStatus), // how they come back
    integration: nat -> Integration)

  datatype Err = Ok | ContextErr | Conflict
  datatype Launch = NotAppended | NoCheckpoint | Launched(res: Result)

  class Engine {
    const b: Budgets
    const o: Oracle
    var rows: RunRows
    var task: TaskRow
    var cancelled: bool
    var clock: nat
    /** Every durable state so far. */
    ghost var log: seq<RunRows>
    /** What the harness has answered in the stage at hand. */
    ghost var served: seq<Result>

    constructor (budgets: Budgets, oracle: Oracle, stored: RunRows, artifactOnly: bool)
      ensures b == WithDefaults(budgets) && o == oracle && rows == stored && log == [stored] && !cancelled && clock == 0
    {
      b, o, rows, log := WithDefaults(budgets), oracle, stored, [stored];
      task, cancelled, clock, served := TaskRow(artifactOnly), false, 0, [];
    }

    ghost predicate Good() reads this {
      b.maxStageAttempts > 0 && History(b, log) && log[|log| - 1] == rows
    }

    /** Time only moves on, a cancelled context stays cancelled, and stages are only appended. */
    twostate predicate Later() reads this {
      && clock >= old(clock) && (old(cancelled) ==> cancelled)
      && |old(log)| <= |log| && (old(log) != [] ==> log[0] == old(log)[0]) && |old(rows).stages| <= |rows.stages|
    }

    /** The context was looked at once. */
    twostate predicate Ticked() reads this {
      clock == old(clock) + 1 && cancelled == (old(cancelled) || (o.cancelAt.Some? && o.cancelAt.value <= clock))
    }

    // ----- the context and the store

    /** The context is looked at, by ctx.Err or by a store call. */
    method Tick()
      requires Good()
      modifies this`clock, this`cancelled
      ensures Good() && Later() && Ticked()
    {
      clock := clock + 1;
      if o.cancelAt.Some? && o.cancelAt.value <= clock { cancelled := true; }
    }

    /** One durable step. */
    method Commit(next: RunRows)
      requires Good() && Sound(b, next) && StepOk(rows, next)
      modifies this`rows, this`log
      ensures Good() && Later() && rows == next
    {
      HistoryGrows(b, log, next);
      rows := next;
      log := log + [next];
    }

    /** A store call that writes: without effect once the context is cancelled. */
    method Write(next: RunRows)
      requires Good() && (!cancelled ==> Sound(b, next) && StepOk(rows, next))
      modifies this`rows, this`log, this`clock, this`cancelled
      ensures Good() && Later() && Ticked()
      ensures rows == if cancelled then old(rows) else next
    {
      Tick();
      if !cancelled { Commit(next); }
    }

    static method CancelAttempts(st: Stage) returns (r: Stage)
      ensures r == CancelStage(st)
    {
      var attempts := st.attempts;
      for a := 0 to |attempts|
        invariant |attempts| == |st.attempts|
        invariant forall k :: 0 <= k < |attempts| ==> attempts[k] == if k < a then CancelAttempt(st.attempts[k]) else st.attempts[k]
      {
        if Open(attempts[a]) { attempts := attempts[a := attempts[a].(status := AttemptCancelled)]; }
      }
      assert attempts == CancelStage(st).attempts;
      r := Stage(st.kind, if st.status == Running then Interrupted else st.status, attempts);
    }

    /** CancelRun runs without the context: one transaction over the run, its attempts, stages and approvals. */
    method CancelRun()
      requires Good()
      modifies this`rows, this`log
      ensures Good() && Later()
      ensures rows == if old(rows).status.Terminal() then old(rows) else CancelledRows(old(rows))
    {
      if rows.status.Terminal() { return; }
      var stages := rows.stages;
      for i := 0 to |stages|
        invariant rows == old(rows) && log == old(log) && |stages| == |rows.stages|
        invariant forall k :: 0 <= k < |stages| ==> stages[k] == if k < i then CancelStage(rows.stages[k]) else rows.stages[k]
      {
        var st := CancelAttempts(stages[i]);
        stages := stages[i := st];
      }
      assert stages == CancelledRows(rows).stages;
      CancelKeepsSound(b, rows);
      Commit(RunRows(Cancelled, stages, rows.artifacts, seq(|rows.approvals|, _ => false)));
    }

    // ----- the steps of a stage.  What is promised of the rows is promised while the context lives.

    method FinishAttempt(k: StageKind, ghost made: nat, status: AttemptStatus)
      requires Good() && (!cancelled ==> InStage(rows, k, made, true)) && status !in {Running, Pending}
      modifies this`rows, this`log, this`clock, this`cancelled
      ensures Good() && Later() && (!cancelled ==> InStage(rows, k, made, false))
      ensures |rows.stages| == |old(rows).stages| && rows.artifacts == old(rows).artifacts
      ensures !cancelled ==> HasAttempt(old(rows)) && rows == PutAttempt(old(rows), LastAttempt(old(rows)).(status := status))
    {
      if !cancelled { LastStageChanges(b, rows, LastStage(PutAttempt(rows, LastAttempt(rows).(status := status)))); }
      Write(if HasAttempt(rows) then PutAttempt(rows, LastAttempt(rows).(status := status)) else rows);
    }

    method FinishStage(k: StageKind, ghost made: nat, status: AttemptStatus)
      requires Good() && (!cancelled ==> InStage(rows, k, made, false)) && status != Running
      modifies this`rows, this`log, this`clock, this`cancelled
      ensures Good() && Later() && (!cancelled ==> StageEnded(rows, k, status))
      ensures |rows.stages| == |old(rows).stages| && rows.artifacts == old(rows).artifacts
      ensures !cancelled ==> old(rows).stages != [] && rows == SetStage(old(rows), status)
    {
      if !cancelled { LastStageChanges(b, rows, LastStage(rows).(status := status)); }
      Write(if rows.stages != [] then SetStage(rows, status) else rows);
    }

    /** UpdateRunStatus. */
    method UpdateRunStatus(status: RunStatus) returns (err: Err)
      requires Good() && status !in {Reviewing, ReadyToIntegrate, Cancelled}
      requires !cancelled ==> Moves(rows, status) && (status.Terminal() ==> Settled(rows.stages))
      modifies this`rows, this`log, this`clock, this`cancelled
      ensures Good() && Later() && err == (if cancelled then ContextErr else Ok)
      ensures rows == if cancelled then old(rows) else old(rows).(status := status)
    {
      if !cancelled { StatusChanges(b, rows, status); }
      Write(rows.(status := status));
      err := if cancelled then ContextErr else Ok;
    }

    /** UpdateRunStatus where a stage did not succeed. */
    method LeaveStage(k: StageKind, status: RunStatus) returns (err: Err)
      requires Good() && (status in {Domain.Failed, Blocked} || (status == Repairing && k == ExecuteStage))
      requires !cancelled ==> rows.status == StatusFor(k) && Settled(rows.stages)
      modifies this`rows, this`log, this`clock, this`cancelled
      ensures Good() && Later() && err == (if cancelled then ContextErr else Ok)
      ensures rows == if cancelled then old(rows) else old(rows).(status := status)
    {
      err := UpdateRunStatus(status);
    }

    /** CompareAndSetRunStatus. */
    method CompareAndSet(from: RunStatus, to: RunStatus) returns (err: Err)
      requires Good()
      requires !cancelled && rows.status == from ==>
                 if to in {Reviewing, ReadyToIntegrate} then Sound(b, rows.(status := to)) && StepOk(rows, rows.(status := to))
                 else to != Cancelled && Moves(rows, to) && (to.Terminal() ==> Settled(rows.stages))
      modifies this`rows, this`log, this`clock, this`cancelled
      ensures Good() && Later() && Ticked()
      ensures err == if cancelled then ContextErr else if old(rows).status != from then Conflict else Ok
      ensures rows == if err == Ok then old(rows).(status := to) else old(rows)
    {
      if rows.status == from {
        if !cancelled && to !in {Reviewing, ReadyToIntegrate} { StatusChanges(b, rows, to); }
        Write(rows.(status := to));
        err := if cancelled then ContextErr else Ok;
      } else {
        Tick();
        err := if cancelled then ContextErr else Conflict;
      }
    }

    /** budget: a count that cannot be read counts as zero. */
    method BudgetExhausted(k: StageKind) returns (over: bool)
      requires Good()
      modifies this`clock, this`cancelled
      ensures Good() && Later()
      ensures !cancelled ==> (over <==> OverBudget(b, k, rows))
    {
      Tick();
      var total := if cancelled then 0 else |rows.stages|;
      if total >= b.maxStages { return true; }
      if k == RepairStage {
        Tick();
        var n := if cancelled then 0 else Count(rows.stages, RepairStage);
        return n >= b.maxRepair;
      }
      if k == ReplanStage {
        Tick();
        var n := if cancelled then 0 else Count(rows.stages, ReplanStage);
        return n >= b.maxReplan;
      }
      return false;
    }


    /** Append an attempt, checkpoint the workspace first if the stage writes, and execute it. */
    method LaunchAttempt(k: StageKind, ghost made: nat) returns (l: Launch)
      requires Good() && (!cancelled ==> InStage(rows, k, made, false) && made < b.maxStageAttempts)
      modifies this`rows, this`log, this`clock, this`cancelled, this`served
      ensures Good() && Later()
      ensures l == NotAppended ==> cancelled
      ensures cancelled || OneMoreAttempt(old(rows), rows)
      ensures cancelled || l != NoCheckpoint || NotCheckpointed(o, k, old(rows), rows)
      ensures !cancelled && l.Launched? ==> InStage(rows, k, made + 1, true)
      ensures !cancelled ==> (l == NoCheckpoint <==> k in {ExecuteStage, RepairStage} && !o.captures(old(clock) + 2))
      ensures served == if l.Launched? then old(served) + [l.res] else old(served)
      ensures l.Launched? ==> IsAnswer(o, l.res)
    {
      if !cancelled { LastStageChanges(b, rows, LastStage(AddAttempt(rows))); }
      Write(if rows.stages != [] then AddAttempt(rows) else rows);
      if cancelled { return NotAppended; }
      ghost var added := rows;
      l := RunAttempt(k, made + 1);
      if !cancelled { AddedThenTouched(old(rows), added, rows); }
    }

    method RunAttempt(k: StageKind, ghost made: nat) returns (l: Launch)
      requires Good() && !cancelled && InStage(rows, k, made, true)
      modifies this`rows, this`log, this`clock, this`cancelled, this`served
      ensures Good() && Later() && l != NotAppended
      ensures cancelled || LastTouched(old(rows), rows)
      ensures !cancelled && l == NoCheckpoint ==> StageEnded(rows, k, AttemptFailed) && LastAttempt(rows).status == AttemptFailed
      ensures !cancelled && l.Launched? ==> InStage(rows, k, made, true)
      ensures !cancelled ==> (l == NoCheckpoint <==> k in {ExecuteStage, RepairStage} && !o.captures(old(clock) + 1))
      ensures served == if l.Launched? then old(served) + [l.res] else old(served)
      ensures l.Launched? ==> IsAnswer(o, l.res)
    {
      if k.WritesWorkspace() {
        var ok := CheckpointBeforeWrite(k, made);
        ghost var mid := rows;
        if !ok {
          StopWithoutCheckpoint(k, made);
          if !cancelled { TouchedTwice(old(rows), mid, rows); }
          return NoCheckpoint;
        }
        l := Run(k, made);
        TouchedTwice(old(rows), mid, rows);
      } else {
        l := Run(k, made);
      }
    }

    method Run(k: StageKind, ghost made: nat) returns (l: Launch)
      requires Good() && InStage(rows, k, made, true)
      requires k.WritesWorkspace() ==> LastAttempt(rows).checkpoint
      modifies this`rows, this`log, this`clock, this`cancelled, this`served
      ensures Good() && Later() && l.Launched? && InStage(rows, k, made, true)
      ensures LastTouched(old(rows), rows)
      ensures served == old(served) + [l.res] && IsAnswer(o, l.res)
    {
      Tick();
      var res := Execute(k, made);
      l := Launched(res);
    }

    method StopWithoutCheckpoint(k: StageKind, ghost made: nat)
      requires Good() && (!cancelled ==> InStage(rows, k, made, true))
      modifies this`rows, this`log, this`clock, this`cancelled
      ensures Good() && Later()
      ensures cancelled || LastTouched(old(rows), rows)
      ensures !cancelled ==> StageEnded(rows, k, AttemptFailed) && LastAttempt(rows).status == AttemptFailed
    {
      FinishAttempt(k, made, AttemptFailed);
      FinishStage(k, made, AttemptFailed);
    }

    method CheckpointBeforeWrite(k: StageKind, ghost made: nat) returns (ok: bool)
      requires Good() && InStage(rows, k, made, true)
      modifies this`rows, this`log, this`clock, this`cancelled
      ensures Good() && Later() && InStage(rows, k, made, true)
      ensures ok ==> LastAttempt(rows).checkpoint
      ensures LastTouched(old(rows), rows)
      ensures !cancelled ==> (ok <==> o.captures(old(clock) + 1))
    {
      Tick();
      if cancelled || !o.captures(clock) { return false; }
      LastStageChanges(b, rows, LastStage(PutAttempt(rows, LastAttempt(rows).(checkpoint := true))));
      Write(PutAttempt(rows, LastAttempt(rows).(checkpoint := true)));
      if cancelled { return false; }
      Tick();
      return true;
    }

    /** execAttempt: the harness is launched whatever the context says, and approvals may come and go. */
    method Execute(k: StageKind, ghost made: nat) returns (res: Result)
      requires Good() && InStage(rows, k, made, true)
      requires k.WritesWorkspace() ==> LastAttempt(rows).checkpoint
      modifies this`rows, this`log, this`clock, this`cancelled, this`served
      ensures Good() && Later() && InStage(rows, k, made, true)
      ensures LastTouched(old(rows), rows)
      ensures LastAttempt(rows).started && rows.approvals == o.approvals(old(clock))
      ensures res == o.result(old(clock)) && served == old(served) + [res]
    {
      var next := PutAttempt(rows, LastAttempt(rows).(started := true));
      LastStageChanges(b, rows, LastStage(next));
      ApprovalsChange(b, next, o.approvals(clock));
      Commit(next.(approvals := o.approvals(clock)));
      LaunchTouches(old(rows), next, rows);
      res := o.result(clock);
      served := served + [res];
      Tick();
    }

    /** persistArtifact for a harness stage. */
    method Persist(k: StageKind, ghost made: nat, res: Result) returns (ok: bool)
      requires Good() && (!cancelled ==> InStage(rows, k, made, true))
      modifies this`rows, this`log, this`clock, this`cancelled
      ensures Good() && Later() && rows.stages == old(rows).stages
      ensures !cancelled ==> InStage(rows, k, made, true) && LatestFinal(rows.artifacts) == LatestFinal(old(rows).artifacts)
      ensures ok ==> res.Output? && !cancelled
      ensures !cancelled ==> (ok <==> res.Output?)
      ensures !cancelled ==> rows == if res.Output? then AddArtifact(old(rows), OtherArtifact(|rows.stages|)) else old(rows)
    {
      if !res.Output? { return false; }
      var a := OtherArtifact(|rows.stages|);
      ArtifactKeepsStage(rows, k, made, true, a);
      if !cancelled { ArtifactArrives(b, rows, a); }
      Write(AddArtifact(rows, a));
      return !cancelled;
    }

    /** advance, from a stage that succeeded. */
    method Advance(k: StageKind, res: Result) returns (err: Err)
      requires Good() && (!cancelled ==> StageEnded(rows, k, Succeeded)) && res.Output?
      requires !cancelled && k == ValidateStage ==>
                 LatestFinal(rows.artifacts).Some? && LatestFinal(rows.artifacts).value.stage == |rows.stages| - 1
      modifies this`rows, this`log, this`clock, this`cancelled, this`task
      ensures Good() && Later() && rows.stages == old(rows).stages
      ensures err == (if cancelled then ContextErr else Ok) && (err == Ok ==> rows.status !in {Queued, Assessing})
      ensures err == Ok && k != ReviewStage ==> rows.status == After(k)
      ensures err == Ok && k == ReviewStage ==> rows.status == Decided(task.artifactOnly, old(rows), res.review)
      ensures rows == old(rows).(status := rows.status)
      ensures task == if k in {PlanStage, ReplanStage} && res.artifactOnly then TaskRow(true) else old(task)
    {
      if k == ReviewStage {
        err := AfterReview(res);
        return;
      }
      if k in {PlanStage, ReplanStage} && res.artifactOnly { task := TaskRow(true); }
      err := MoveOn(k);
    }

    /** Every kind of stage but a review always leads to the same status. */
    method MoveOn(k: StageKind) returns (err: Err)
      requires Good() && (!cancelled ==> StageEnded(rows, k, Succeeded)) && k != ReviewStage
      requires !cancelled && k == ValidateStage ==>
                 LatestFinal(rows.artifacts).Some? && LatestFinal(rows.artifacts).value.stage == |rows.stages| - 1
      modifies this`rows, this`log, this`clock, this`cancelled
      ensures Good() && Later() && err == (if cancelled then ContextErr else Ok)
      ensures rows == if err == Ok then old(rows).(status := After(k)) else old(rows)
    {
      if k == ValidateStage && !cancelled { ReviewOpens(b, rows); }
      if !cancelled { StageMoves(rows, k); }
      err := CompareAndSet(StatusFor(k), After(k));
    }

    /** The completion policy decides what follows a succeeded review. */
    method AfterReview(res: Result) returns (err: Err)
      requires Good() && (!cancelled ==> StageEnded(rows, ReviewStage, Succeeded)) && res.Output?
      modifies this`rows, this`log, this`clock, this`cancelled
      ensures Good() && Later() && rows.stages == old(rows).stages
      ensures err == (if cancelled then ContextErr else Ok) && (err == Ok ==> rows.status == Decided(task.artifactOnly, old(rows), res.review))
      ensures rows == old(rows).(status := rows.status)
    {
      Tick();
      Tick();
      var latest := if cancelled then None else LatestFinal(rows.artifacts);
      var val := if latest.Some? then Some(latest.value.val) else None;
      Tick();
      var pending := if cancelled then 0 else PendingCount(rows.approvals);
      var outcome := CompletionPolicy(task.artifactOnly, val, Some(res.review), pending, false);
      if !cancelled && outcome == DoIntegrate { PolicyGuardsTheGate(b, rows, task.artifactOnly, res.review); }
      err := ApplyOutcome(outcome);
    }

    method ApplyOutcome(outcome: Outcome) returns (err: Err)
      requires Good() && (!cancelled ==> StageEnded(rows, ReviewStage, Succeeded))
      requires !cancelled && outcome == DoIntegrate ==>
                 Sound(b, rows.(status := ReadyToIntegrate)) && StepOk(rows, rows.(status := ReadyToIntegrate))
      modifies this`rows, this`log, this`clock, this`cancelled
      ensures Good() && Later() && rows.stages == old(rows).stages
      ensures err == (if cancelled then ContextErr else Ok) && (err == Ok ==> rows.status == StatusAfter(outcome))
      ensures rows == old(rows).(status := rows.status)
    {
      if !cancelled { ReviewDecides(rows, outcome); }
      err := CompareAndSet(Reviewing, StatusAfter(outcome));
    }

    method FailStage(k: StageKind, ghost made: nat, failure: FailureClass) returns (err: Err)
      requires Good() && (!cancelled ==> InStage(rows, k, made, false))
      modifies this`rows, this`log, this`clock, this`cancelled
      ensures Good() && Later() && (!cancelled ==> err == Ok)
      ensures cancelled || Landed(rows, |old(rows).stages|)
      ensures !cancelled ==> old(rows).stages != [] && rows == SetStage(old(rows), AttemptFailed).(status := AfterFailure(k, failure))
      ensures err != Conflict
    {
      FinishStage(k, made, AttemptFailed);
      if failure == Task {
        err := LeaveStage(k, if k == ExecuteStage then Repairing else Domain.Failed);
      } else {
        err := LeaveStage(k, if failure == PolicyFailure then Blocked else Domain.Failed);
      }
    }

    /** runValidate: an isolated validation whose artifact is produced by the runner. */
    method RunValidate() returns (err: Err)
      requires Good() && (!cancelled ==> InStage(rows, ValidateStage, 0, false))
      modifies this`rows, this`log, this`clock, this`cancelled, this`task
      ensures Good() && Later() && err != Conflict
      ensures !cancelled ==> err == Ok
      ensures cancelled || Landed(rows, |old(rows).stages|)
      ensures cancelled || SameFront(old(rows), rows)
      ensures cancelled || ValidationRan(o, old(clock) + 2, old(rows).artifacts, rows)
    {
      if !cancelled { LastStageChanges(b, rows, LastStage(AddAttempt(rows))); }
      Write(if rows.stages != [] then AddAttempt(rows) else rows);
      if cancelled {
        err := LeaveStage(ValidateStage, Domain.Failed);
        return;
      }
      err := ValidateWorkspace();
    }

    /** The checks run in an isolated copy of the workspace. */
    method ValidateWorkspace() returns (err: Err)
      requires Good() && InStage(rows, ValidateStage, 1, true)
      modifies this`rows, this`log, this`clock, this`cancelled, this`task
      ensures Good() && Later() && err != Conflict
      ensures !cancelled ==> err == Ok
      ensures cancelled || Landed(rows, |old(rows).stages|)
      ensures cancelled || SameFront(old(rows), rows)
      ensures cancelled || ValidationRan(o, old(clock) + 1, old(rows).artifacts, rows)
    {
      Tick();
      if cancelled || !o.captures(clock) {
        FinishAttempt(ValidateStage, 1, AttemptFailed);
        err := GiveUp(ValidateStage, 1);
        return;
      }
      Tick();
      var art := RunChecks(o.checks(clock), o.exec(clock), if cancelled then map[] else BaselineStatuses(rows.artifacts));
      Tick();
      if cancelled {
        err := StopCancelled(ValidateStage, 1, true);
        return;
      }
      err := ConcludeValidate(art);
    }

    method ConcludeValidate(art: Validation) returns (err: Err)
      requires Good() && InStage(rows, ValidateStage, 1, true) && Produced(art)
      modifies this`rows, this`log, this`clock, this`cancelled, this`task
      ensures Good() && Later() && err != Conflict
      ensures !cancelled ==> err == Ok
      ensures cancelled || Landed(rows, |old(rows).stages|)
      ensures cancelled || SameFront(old(rows), rows)
      ensures cancelled || Validated(old(rows).artifacts, art, rows)
    {
      StoreValidation(art);
      if cancelled {
        err := NotStored();
      } else {
        err := ConcludeStored(art, old(rows));
      }
    }

    method ConcludeStored(ghost art: Validation, ghost before: RunRows) returns (err: Err)
      requires Good() && InStage(rows, ValidateStage, 1, true) && !cancelled && before.stages != []
      requires rows == AddArtifact(before, FinalValidation(|before.stages| - 1, art))
      requires LatestFinal(rows.artifacts).Some? && LatestFinal(rows.artifacts).value.stage == |rows.stages| - 1
      modifies this`rows, this`log, this`clock, this`cancelled, this`task
      ensures Good() && Later() && err != Conflict
      ensures !cancelled ==> err == Ok
      ensures cancelled || Landed(rows, |before.stages|)
      ensures cancelled || SameFront(before, rows)
      ensures cancelled || Validated(before.artifacts, art, rows)
    {
      ghost var stored := rows;
      err := ValidateSucceeds();
      if !cancelled { StoredAndEnded(before, art, stored, rows); }
    }

    /** The artifact could not be stored. */
    method NotStored() returns (err: Err)
      requires Good() && cancelled
      modifies this`rows, this`log, this`clock, this`cancelled
      ensures Good() && Later() && err != Conflict
    {
      FinishAttempt(ValidateStage, 1, Invalid);
      err := GiveUp(ValidateStage, 1);
    }

    method StoreValidation(art: Validation)
      requires Good() && InStage(rows, ValidateStage, 1, true) && Produced(art)
      modifies this`rows, this`log, this`clock, this`cancelled
      ensures Good() && Later() && InStage(rows, ValidateStage, 1, true) && |rows.stages| == |old(rows).stages|
      ensures !cancelled ==> LatestFinal(rows.artifacts).Some? && LatestFinal(rows.artifacts).value.stage == |rows.stages| - 1
      ensures !cancelled ==> rows == AddArtifact(old(rows), FinalValidation(|rows.stages| - 1, art))
    {
      var a := FinalValidation(|rows.stages| - 1, art);
      ArtifactArrives(b, rows, a);
      ArtifactKeepsStage(rows, ValidateStage, 1, true, a);
      Write(AddArtifact(rows, a));
    }

    method ValidateSucceeds() returns (err: Err)
      requires Good() && InStage(rows, ValidateStage, 1, true) && !cancelled
      requires LatestFinal(rows.artifacts).Some? && LatestFinal(rows.artifacts).value.stage == |rows.stages| - 1
      modifies this`rows, this`log, this`clock, this`cancelled, this`task
      ensures Good() && Later() && err != Conflict
      ensures !cancelled ==> err == Ok
      ensures cancelled || Landed(rows, |old(rows).stages|)
      ensures !cancelled ==> SameFront(old(rows), rows) && rows.artifacts == old(rows).artifacts && ValidateEnded(rows, Succeeded, Reviewing)
    {
      FinishAttempt(ValidateStage, 1, Succeeded);
      FinishStage(ValidateStage, 1, Succeeded);
      err := Advance(ValidateStage, Output(false, ReviewArtifact(OtherVerdict, false)));
    }

    /** The attempt ladder of a harness stage: the primary candidate, its fallbacks, and one correction. */
    method RunLadder(k: StageKind, fallbacks: nat) returns (err: Err)
      requires Good() && (!cancelled ==> InStage(rows, k, 0, false)) && k != ValidateStage && served == []
      modifies this`rows, this`log, this`clock, this`cancelled, this`task, this`served
      ensures Good() && Later() && err != Conflict
      ensures !cancelled ==> err == Ok
      ensures cancelled || OffLadder(o, k, 1 + fallbacks, b.maxStageAttempts, old(rows), old(task), served, task, rows)
    {
      var goOn, made;
      if !cancelled { LadderStarts(o, k, b.maxStageAttempts, rows); }
      goOn, made, err := TryCandidates(k, 1 + fallbacks, old(rows), old(task));
      if goOn { err := ExhaustLadder(k, made, 1 + fallbacks, old(rows), old(task)); }
    }

    method TryCandidates(k: StageKind, candidates: nat, ghost start: RunRows, ghost was: TaskRow) returns (goOn: bool, made: nat, err: Err)
      requires Good() && task == was && k != ValidateStage
      requires cancelled || AtCandidate(o, k, 0, b.maxStageAttempts, start, served, rows)
      modifies this`rows, this`log, this`clock, this`cancelled, this`task, this`served
      ensures Good() && Later() && err != Conflict
      ensures goOn ==> task == was && made <= candidates && (made == candidates || made == b.maxStageAttempts)
      ensures !goOn || cancelled || AtCandidate(o, k, made, b.maxStageAttempts, start, served, rows)
      ensures !goOn && !cancelled ==> err == Ok
      ensures goOn || cancelled || OffLadder(o, k, candidates, b.maxStageAttempts, start, was, served, task, rows)
    {
      made, goOn, err := 0, true, Ok;
      for c := 0 to candidates
        invariant Good() && Later() && goOn && err == Ok && made == c <= b.maxStageAttempts && task == was
        invariant cancelled || AtCandidate(o, k, c, b.maxStageAttempts, start, served, rows)
      {
        if made >= b.maxStageAttempts { break; }
        goOn, err := TryCandidate(k, c, candidates, start, was);
        if !goOn { break; }
        made, err := made + 1, Ok;
      }
    }

    /** No candidate or no attempt is left. */
    method ExhaustLadder(k: StageKind, ghost c: nat, ghost candidates: nat, ghost start: RunRows, ghost was: TaskRow) returns (err: Err)
      requires Good() && task == was && c <= candidates && (c == candidates || c == b.maxStageAttempts)
      requires cancelled || AtCandidate(o, k, c, b.maxStageAttempts, start, served, rows)
      modifies this`rows, this`log, this`clock, this`cancelled
      ensures Good() && Later() && err != Conflict
      ensures !cancelled ==> err == Ok
      ensures cancelled || OffLadder(o, k, candidates, b.maxStageAttempts, start, was, served, task, rows)
    {
      ghost var last := rows;
      err := GiveUp(k, c);
      if !cancelled { NothingLeft(o, k, candidates, b.maxStageAttempts, start, served, c, task, last, rows); }
    }

    /** One candidate; the ladder goes on only after an infrastructure failure with attempts left. */
    method TryCandidate(k: StageKind, c: nat, ghost candidates: nat, ghost start: RunRows, ghost was: TaskRow) returns (goOn: bool, err: Err)
      requires Good() && task == was && k != ValidateStage && c < candidates && c < b.maxStageAttempts
      requires cancelled || AtCandidate(o, k, c, b.maxStageAttempts, start, served, rows)
      modifies this`rows, this`log, this`clock, this`cancelled, this`task, this`served
      ensures Good() && Later() && (!goOn ==> err != Conflict)
      ensures goOn ==> task == was
      ensures !goOn || cancelled || AtCandidate(o, k, c + 1, b.maxStageAttempts, start, served, rows)
      ensures !goOn && !cancelled ==> err == Ok
      ensures goOn || cancelled || OffLadder(o, k, candidates, b.maxStageAttempts, start, was, served, task, rows)
    {
      Tick();
      if cancelled {
        err := StopCancelled(k, c, false);
        return false, err;
      }
      ghost var before := rows;
      var l := LaunchAttempt(k, c);
      if !l.Launched? {
        err := NotLaunched(k, c, candidates, start, was, before, l);
        return false, err;
      }
      if !cancelled { AnswerArrives(o, k, c, b.maxStageAttempts, start, served, before, rows); }
      goOn, err := Conclude(k, c, candidates, start, was, l.res);
    }

    method NotLaunched(k: StageKind, ghost c: nat, ghost candidates: nat, ghost start: RunRows, ghost was: TaskRow, ghost before: RunRows, l: Launch) returns (err: Err)
      requires Good() && task == was && k != ValidateStage && c < candidates && c < b.maxStageAttempts && !l.Launched? && (l == NotAppended ==> cancelled)
      requires cancelled || AtCandidate(o, k, c, b.maxStageAttempts, start, served, before)
      requires cancelled || NotCheckpointed(o, k, before, rows)
      modifies this`rows, this`log, this`clock, this`cancelled
      ensures Good() && Later() && err != Conflict
      ensures !cancelled ==> err == Ok
      ensures cancelled || OffLadder(o, k, candidates, b.maxStageAttempts, start, was, served, task, rows)
    {
      ghost var last := rows;
      err := LeaveStage(k, Domain.Failed);
      if !cancelled { NoCheckpointForCandidate(o, k, candidates, b.maxStageAttempts, start, served, c, task, before, last, rows); }
    }

    /** What follows from the answer of a candidate. */
    method Conclude(k: StageKind, c: nat, ghost candidates: nat, ghost start: RunRows, ghost was: TaskRow, res: Result) returns (goOn: bool, err: Err)
      requires Good() && task == was && k != ValidateStage && c < candidates && c < b.maxStageAttempts
      requires cancelled || Answered(o, k, c, b.maxStageAttempts, start, served, rows)
      requires !cancelled ==> served[c] == res
      modifies this`rows, this`log, this`clock, this`cancelled, this`task, this`served
      ensures Good() && Later() && (!goOn ==> err != Conflict)
      ensures goOn ==> task == was
      ensures !goOn || cancelled || AtCandidate(o, k, c + 1, b.maxStageAttempts, start, served, rows)
      ensures !goOn && !cancelled ==> err == Ok
      ensures goOn || cancelled || OffLadder(o, k, candidates, b.maxStageAttempts, start, was, served, task, rows)
    {
      Tick();
      if cancelled {
        err := StopCancelled(k, c + 1, true);
        return false, err;
      }
      if res.Failure? {
        goOn, err := ConcludeFailure(k, c, candidates, start, was, res.failure);
      } else {
        goOn := false;
        err := ConcludeOutput(k, c, candidates, start, was, res);
      }
    }

    /** Output that parses and can be stored ends the stage; other output gets its correction. */
    method ConcludeOutput(k: StageKind, c: nat, ghost candidates: nat, ghost start: RunRows, ghost was: TaskRow, res: Result) returns (err: Err)
      requires Good() && task == was && k != ValidateStage && c < candidates && c < b.maxStageAttempts
      requires cancelled || Answered(o, k, c, b.maxStageAttempts, start, served, rows)
      requires !cancelled ==> served[c] == res
      requires !res.Failure?
      modifies this`rows, this`log, this`clock, this`cancelled, this`task, this`served
      ensures Good() && Later() && err != Conflict
      ensures !cancelled ==> err == Ok
      ensures cancelled || OffLadder(o, k, candidates, b.maxStageAttempts, start, was, served, task, rows)
    {
      ghost var open := rows;
      var ok := Persist(k, c + 1, res);
      if ok {
        err := SucceedCandidate(k, c, candidates, start, was, res, open);
      } else {
        err := ConcludeUnparsed(k, c, candidates, start, was, res);
      }
    }

    method SucceedCandidate(k: StageKind, ghost c: nat, ghost candidates: nat, ghost start: RunRows, ghost was: TaskRow, res: Result, ghost open: RunRows)
      returns (err: Err)
      requires Good() && task == was && k != ValidateStage && c < candidates && c < b.maxStageAttempts && res.Output?
      requires cancelled || Answered(o, k, c, b.maxStageAttempts, start, served, open)
      requires !cancelled ==> served[c] == res && InStage(rows, k, c + 1, true) && rows == AddArtifact(open, OtherArtifact(|open.stages|))
      modifies this`rows, this`log, this`clock, this`cancelled, this`task
      ensures Good() && Later() && err != Conflict
      ensures !cancelled ==> err == Ok
      ensures cancelled || OffLadder(o, k, candidates, b.maxStageAttempts, start, was, served, task, rows)
    {
      ghost var last := rows;
      err := SucceedStage(k, c + 1, res);
      if !cancelled { CandidateSucceeds(o, b, k, candidates, start, served, c, was, task, open, last, rows); }
    }

    method ConcludeUnparsed(k: StageKind, c: nat, ghost candidates: nat, ghost start: RunRows, ghost was: TaskRow, ghost res: Result) returns (err: Err)
      requires Good() && task == was && k != ValidateStage && c < candidates && c < b.maxStageAttempts
      requires cancelled || Answered(o, k, c, b.maxStageAttempts, start, served, rows)
      requires !cancelled ==> served[c] == res
      requires !cancelled ==> res.Malformed?
      modifies this`rows, this`log, this`clock, this`cancelled, this`task, this`served
      ensures Good() && Later() && err != Conflict
      ensures !cancelled ==> err == Ok
      ensures cancelled || OffLadder(o, k, candidates, b.maxStageAttempts, start, was, served, task, rows)
    {
      ghost var open := rows;
      FinishAttempt(k, c + 1, Invalid);
      if !cancelled { AnswerIsInvalid(o, k, c, b.maxStageAttempts, start, served, open, rows); }
      err := CorrectOutput(k, c, candidates, start, was);
    }

    method ConcludeFailure(k: StageKind, c: nat, ghost candidates: nat, ghost start: RunRows, ghost was: TaskRow, failed: FailureClass) returns (goOn: bool, err: Err)
      requires Good() && task == was && k != ValidateStage && c < candidates && c < b.maxStageAttempts
      requires cancelled || Answered(o, k, c, b.maxStageAttempts, start, served, rows)
      requires !cancelled ==> served[c] == Failure(failed)
      modifies this`rows, this`log, this`clock, this`cancelled
      ensures Good() && Later() && (!goOn ==> err != Conflict)
      ensures !goOn || cancelled || AtCandidate(o, k, c + 1, b.maxStageAttempts, start, served, rows)
      ensures !goOn && !cancelled ==> err == Ok
      ensures goOn || cancelled || OffLadder(o, k, candidates, b.maxStageAttempts, start, was, served, task, rows)
    {
      var failure := if failed == NoClass then Infrastructure else failed;
      ghost var open := rows;
      FinishAttempt(k, c + 1, AttemptFailed);
      if failure == Infrastructure && c + 1 < b.maxStageAttempts {
        if !cancelled { AnswerIsFailure(o, k, c, b.maxStageAttempts, start, served, open, rows); }
        return true, Ok;
      }
      goOn := false;
      err := FailCandidate(k, c, candidates, start, was, failure, open);
    }

    method FailCandidate(k: StageKind, c: nat, ghost candidates: nat, ghost start: RunRows, ghost was: TaskRow, failure: FailureClass, ghost open: RunRows)
      returns (err: Err)
      requires Good() && task == was && k != ValidateStage && c < candidates && c < b.maxStageAttempts
      requires cancelled || Answered(o, k, c, b.maxStageAttempts, start, served, open)
      requires !cancelled ==> served[c].Failure? && failure == (if served[c].failure == NoClass then Infrastructure else served[c].failure)
      requires !cancelled ==> (failure == Infrastructure ==> c + 1 == b.maxStageAttempts)
      requires !cancelled ==> InStage(rows, k, c + 1, false) && rows == PutAttempt(open, LastAttempt(open).(status := AttemptFailed))
      modifies this`rows, this`log, this`clock, this`cancelled
      ensures Good() && Later() && err != Conflict
      ensures !cancelled ==> err == Ok
      ensures cancelled || OffLadder(o, k, candidates, b.maxStageAttempts, start, was, served, task, rows)
    {
      ghost var last := rows;
      err := FailStage(k, c + 1, failure);
      if !cancelled { CandidateFails(o, k, candidates, b.maxStageAttempts, start, served, c, task, open, last, rows); }
    }

    /** Invalid output: one bounded correction attempt, after which the stage ends in any case. */
    method CorrectOutput(k: StageKind, c: nat, ghost candidates: nat, ghost start: RunRows, ghost was: TaskRow) returns (err: Err)
      requires Good() && task == was && k != ValidateStage && c < candidates && c < b.maxStageAttempts
      requires cancelled || Unparsed(o, k, c, b.maxStageAttempts, start, served, rows)
      modifies this`rows, this`log, this`clock, this`cancelled, this`task, this`served
      ensures Good() && Later() && err != Conflict
      ensures !cancelled ==> err == Ok
      ensures cancelled || OffLadder(o, k, candidates, b.maxStageAttempts, start, was, served, task, rows)
    {
      ghost var before := rows;
      if c + 1 < b.maxStageAttempts {
        var l := LaunchAttempt(k, c + 1);
        if l == NoCheckpoint {
          err := NotCorrected(k, c, candidates, start, was, before);
          return;
        }
        if l.Launched? {
          if !cancelled { CorrectionArrives(o, k, c, b.maxStageAttempts, start, served, before, rows); }
          err := ConcludeCorrection(k, c, candidates, start, was, l.res);
          return;
        }
      }
      err := GiveUp(k, c + 1);
      if !cancelled { NothingLeftToCorrect(o, k, candidates, b.maxStageAttempts, start, served, c, task, before, rows); }
    }

    method NotCorrected(k: StageKind, ghost c: nat, ghost candidates: nat, ghost start: RunRows, ghost was: TaskRow, ghost before: RunRows) returns (err: Err)
      requires Good() && task == was && k != ValidateStage && c < candidates && c + 1 < b.maxStageAttempts
      requires cancelled || Unparsed(o, k, c, b.maxStageAttempts, start, served, before)
      requires cancelled || NotCheckpointed(o, k, before, rows)
      modifies this`rows, this`log, this`clock, this`cancelled
      ensures Good() && Later() && err != Conflict
      ensures !cancelled ==> err == Ok
      ensures cancelled || OffLadder(o, k, candidates, b.maxStageAttempts, start, was, served, task, rows)
    {
      ghost var last := rows;
      err := LeaveStage(k, Domain.Failed);
      if !cancelled { NoCheckpointToCorrect(o, k, candidates, b.maxStageAttempts, start, served, c, task, before, last, rows); }
    }

    method ConcludeCorrection(k: StageKind, c: nat, ghost candidates: nat, ghost start: RunRows, ghost was: TaskRow, res: Result) returns (err: Err)
      requires Good() && task == was && k != ValidateStage && c < candidates && c + 1 < b.maxStageAttempts
      requires cancelled || Corrected(o, k, c, b.maxStageAttempts, start, served, rows)
      requires !cancelled ==> served[c + 1] == res
      modifies this`rows, this`log, this`clock, this`cancelled, this`task
      ensures Good() && Later() && err != Conflict
      ensures !cancelled ==> err == Ok
      ensures cancelled || OffLadder(o, k, candidates, b.maxStageAttempts, start, was, served, task, rows)
    {
      ghost var open := rows;
      var ok := !res.Failure?;
      if ok { ok := Persist(k, c + 2, res); }
      if ok {
        err := SucceedCorrection(k, c, candidates, start, was, res, open);
      } else {
        err := CorrectionUseless(k, c, candidates, start, was);
      }
    }

    method SucceedCorrection(k: StageKind, ghost c: nat, ghost candidates: nat, ghost start: RunRows, ghost was: TaskRow, res: Result, ghost open: RunRows)
      returns (err: Err)
      requires Good() && task == was && k != ValidateStage && c < candidates && c + 1 < b.maxStageAttempts && res.Output?
      requires cancelled || Corrected(o, k, c, b.maxStageAttempts, start, served, open)
      requires !cancelled ==> served[c + 1] == res && InStage(rows, k, c + 2, true) && rows == AddArtifact(open, OtherArtifact(|open.stages|))
      modifies this`rows, this`log, this`clock, this`cancelled, this`task
      ensures Good() && Later() && err != Conflict
      ensures !cancelled ==> err == Ok
      ensures cancelled || OffLadder(o, k, candidates, b.maxStageAttempts, start, was, served, task, rows)
    {
      ghost var last := rows;
      err := SucceedStage(k, c + 2, res);
      if !cancelled { CorrectionSucceeds(o, b, k, candidates, start, served, c, was, task, open, last, rows); }
    }

    method CorrectionUseless(k: StageKind, c: nat, ghost candidates: nat, ghost start: RunRows, ghost was: TaskRow) returns (err: Err)
      requires Good() && task == was && k != ValidateStage && c < candidates && c + 1 < b.maxStageAttempts
      requires cancelled || Corrected(o, k, c, b.maxStageAttempts, start, served, rows)
      requires !cancelled ==> !served[c + 1].Output?
      modifies this`rows, this`log, this`clock, this`cancelled
      ensures Good() && Later() && err != Conflict
      ensures !cancelled ==> err == Ok
      ensures cancelled || OffLadder(o, k, candidates, b.maxStageAttempts, start, was, served, task, rows)
    {
      ghost var open := rows;
      FinishAttempt(k, c + 2, Invalid);
      err := FailCorrection(k, c, candidates, start, was, open);
    }

    method FailCorrection(k: StageKind, ghost c: nat, ghost candidates: nat, ghost start: RunRows, ghost was: TaskRow, ghost open: RunRows) returns (err: Err)
      requires Good() && task == was && k != ValidateStage && c < candidates && c + 1 < b.maxStageAttempts
      requires cancelled || Corrected(o, k, c, b.maxStageAttempts, start, served, open)
      requires !cancelled ==> !served[c + 1].Output?
      requires !cancelled ==> InStage(rows, k, c + 2, false) && rows == PutAttempt(open, LastAttempt(open).(status := Invalid))
      modifies this`rows, this`log, this`clock, this`cancelled
      ensures Good() && Later() && err != Conflict
      ensures !cancelled ==> err == Ok
      ensures cancelled || OffLadder(o, k, candidates, b.maxStageAttempts, start, was, served, task, rows)
    {
      ghost var last := rows;
      err := GiveUp(k, c + 2);
      if !cancelled { CorrectionFails(o, k, candidates, b.maxStageAttempts, start, served, c, task, open, last, rows); }
    }

    /** The stage and the run fail. */
    method GiveUp(k: StageKind, ghost made: nat) returns (err: Err)
      requires Good() && (!cancelled ==> InStage(rows, k, made, false))
      modifies this`rows, this`log, this`clock, this`cancelled
      ensures Good() && Later() && (!cancelled ==> err == Ok)
      ensures cancelled || Landed(rows, |old(rows).stages|)
      ensures !cancelled ==> old(rows).stages != [] && rows == SetStage(old(rows), AttemptFailed).(status := Domain.Failed)
      ensures err != Conflict
    {
      FinishStage(k, made, AttemptFailed);
      err := LeaveStage(k, Domain.Failed);
    }

    /** The context was found cancelled. */
    method StopCancelled(k: StageKind, ghost made: nat, open: bool) returns (err: Err)
      requires Good() && cancelled
      modifies this`rows, this`log, this`clock, this`cancelled
      ensures Good() && Later() && err == Ok
    {
      if open { FinishAttempt(k, made, AttemptCancelled); }
      FinishStage(k, made, AttemptCancelled);
      CancelRun();
      return Ok;
    }

    method SucceedStage(k: StageKind, ghost made: nat, res: Result) returns (err: Err)
      requires Good() && (!cancelled ==> InStage(rows, k, made, true)) && k != ValidateStage && res.Output?
      modifies this`rows, this`log, this`clock, this`cancelled, this`task
      ensures Good() && Later() && (!cancelled ==> err == Ok)
      ensures cancelled || Landed(rows, |old(rows).stages|)
      ensures !cancelled ==> HasAttempt(old(rows))
      ensures cancelled || StageSucceeded(old(rows), rows, k, res.review, task)
      ensures task == if k in {PlanStage, ReplanStage} && res.artifactOnly then TaskRow(true) else old(task)
      ensures err != Conflict
    {
      CloseSucceeded(k, made);
      if k.WritesWorkspace() { Tick(); }
      err := Advance(k, res);
    }

    method CloseSucceeded(k: StageKind, ghost made: nat)
      requires Good() && (!cancelled ==> InStage(rows, k, made, true))
      modifies this`rows, this`log, this`clock, this`cancelled
      ensures Good() && Later() && |rows.stages| == |old(rows).stages| && (!cancelled ==> StageEnded(rows, k, Succeeded))
      ensures !cancelled ==> HasAttempt(old(rows))
      ensures !cancelled ==> rows == SetStage(PutAttempt(old(rows), LastAttempt(old(rows)).(status := Succeeded)), Succeeded)
    {
      FinishAttempt(k, made, Succeeded);
      FinishStage(k, made, Succeeded);
    }

    /** runStage: append one stage within the budget and execute it. */
    method RunStage(k: StageKind) returns (err: Err)
      requires Good() && Settled(rows.stages) && rows.status == StatusFor(k)
      modifies this`rows, this`log, this`clock, this`cancelled, this`task, this`served
      ensures Good() && Later() && err != Conflict
      ensures !cancelled ==> err == Ok
      ensures cancelled || Landed(rows, |rows.stages|)
      ensures !cancelled && OverBudget(b, k, old(rows)) ==> rows == old(rows).(status := Blocked)
      ensures cancelled || OverBudget(b, k, old(rows)) || StageRan(o, k, b.maxStageAttempts, old(rows), served, task, rows)
    {
      var over := BudgetExhausted(k);
      if over {
        Tick();
        err := LeaveStage(k, Blocked);
        return;
      }
      Tick();
      if cancelled { return ContextErr; }
      err := AppendStage(k);
    }

    method AppendStage(k: StageKind) returns (err: Err)
      requires Good() && !cancelled && Settled(rows.stages) && rows.status == StatusFor(k) && !OverBudget(b, k, rows)
      modifies this`rows, this`log, this`clock, this`cancelled, this`task, this`served
      ensures Good() && Later() && err != Conflict
      ensures !cancelled ==> err == Ok
      ensures cancelled || Landed(rows, |old(rows).stages| + 1)
      ensures cancelled || StageRan(o, k, b.maxStageAttempts, old(rows), served, task, rows)
    {
      StageStarts(b, rows, k);
      Write(AddStage(rows, k));
      if cancelled { return ContextErr; }
      Tick();
      if cancelled {
        err := StopCancelled(k, 0, false);
        return;
      }
      err := ExecuteStageOf(k, old(rows));
    }

    /** The stage that was just appended. */
    method ExecuteStageOf(k: StageKind, ghost before: RunRows) returns (err: Err)
      requires Good() && !cancelled && InStage(rows, k, 0, false) && rows == AddStage(before, k)
      modifies this`rows, this`log, this`clock, this`cancelled, this`task, this`served
      ensures Good() && Later() && err != Conflict
      ensures !cancelled ==> err == Ok
      ensures cancelled || Landed(rows, |before.stages| + 1)
      ensures cancelled || StageRan(o, k, b.maxStageAttempts, before, served, task, rows)
    {
      served := [];
      if k == ValidateStage {
        err := ExecuteValidate(before);
      } else {
        err := ExecuteHarness(k, before);
      }
    }

    method ExecuteValidate(ghost before: RunRows) returns (err: Err)
      requires Good() && !cancelled && InStage(rows, ValidateStage, 0, false) && rows == AddStage(before, ValidateStage)
      modifies this`rows, this`log, this`clock, this`cancelled, this`task
      ensures Good() && Later() && err != Conflict
      ensures !cancelled ==> err == Ok
      ensures cancelled || Landed(rows, |before.stages| + 1)
      ensures cancelled || StageRan(o, ValidateStage, b.maxStageAttempts, before, served, task, rows)
    {
      ghost var tick, added := clock, rows;
      err := RunValidate();
      if !cancelled { ValidateAppended(o, b.maxStageAttempts, before, served, task, tick + 2, added, rows); }
    }

    method ExecuteHarness(k: StageKind, ghost before: RunRows) returns (err: Err)
      requires Good() && !cancelled && InStage(rows, k, 0, false) && rows == AddStage(before, k) && k != ValidateStage && served == []
      modifies this`rows, this`log, this`clock, this`cancelled, this`task, this`served
      ensures Good() && Later() && err != Conflict
      ensures !cancelled ==> err == Ok
      ensures cancelled || Landed(rows, |before.stages| + 1)
      ensures cancelled || StageRan(o, k, b.maxStageAttempts, before, served, task, rows)
    {
      ghost var tick, added := clock, rows;
      err := RunHarness(k);
      if !cancelled { HarnessAppended(o, k, b.maxStageAttempts, before, served, task, tick + 1, added, rows); }
    }

    /** A harness stage, once a route is found and the candidates are prepared. */
    method RunHarness(k: StageKind) returns (err: Err)
      requires Good() && (!cancelled ==> InStage(rows, k, 0, false)) && k != ValidateStage && served == []
      modifies this`rows, this`log, this`clock, this`cancelled, this`task, this`served
      ensures Good() && Later() && err != Conflict
      ensures !cancelled ==> err == Ok
      ensures cancelled || Landed(rows, |old(rows).stages|)
      ensures cancelled || SameFront(old(rows), rows)
      ensures cancelled || HarnessRan(o, k, old(clock) + 1, b.maxStageAttempts, served, task, rows)
    {
      Tick();
      var route := o.route(clock);
      if route == NoRoute {
        err := AbandonStage(k, Blocked);
        return;
      }
      err := RunRoute(k, route.fallbacks);
    }

    method RunRoute(k: StageKind, fallbacks: nat) returns (err: Err)
      requires Good() && (!cancelled ==> InStage(rows, k, 0, false)) && k != ValidateStage && served == []
      modifies this`rows, this`log, this`clock, this`cancelled, this`task, this`served
      ensures Good() && Later() && err != Conflict
      ensures !cancelled ==> err == Ok
      ensures cancelled || Landed(rows, |old(rows).stages|)
      ensures cancelled || SameFront(old(rows), rows)
      ensures cancelled || RouteRan(o, k, old(clock) + 1, fallbacks, b.maxStageAttempts, served, task, rows)
    {
      Tick();
      if cancelled || !o.prepares(clock) {
        err := AbandonStage(k, Domain.Failed);
      } else {
        err := RunLadder(k, fallbacks);
      }
    }

    /** The stage fails before its first attempt. */
    method AbandonStage(k: StageKind, status: RunStatus) returns (err: Err)
      requires Good() && (!cancelled ==> InStage(rows, k, 0, false)) && status in {Domain.Failed, Blocked}
      modifies this`rows, this`log, this`clock, this`cancelled
      ensures Good() && Later() && err != Conflict
      ensures !cancelled ==> err == Ok
      ensures cancelled || Landed(rows, |old(rows).stages|)
      ensures cancelled || SameFront(old(rows), rows)
      ensures cancelled || Abandoned(k, rows, status)
    {
      FinishStage(k, 0, AttemptFailed);
      err := LeaveStage(k, status);
    }

    // ----- the run

    /** assess: on to planning or exploring. */
    method Assess() returns (err: Err)
      requires Good() && (!cancelled ==> rows.status == Assessing)
      modifies this`rows, this`log, this`clock, this`cancelled, this`task
      ensures Good() && Later() && rows.stages == old(rows).stages && err == if cancelled then ContextErr else Ok
      ensures cancelled || (rows.status in {Planning, Exploring} && clock == old(clock) + 2)
      ensures cancelled || rows.status == if o.ambiguous(old(clock) + 1) then Exploring else Planning
      ensures cancelled || task == if o.artifactOnly(old(clock) + 1) then TaskRow(true) else old(task)
      ensures cancelled <==> old(cancelled) || (o.cancelAt.Some? && o.cancelAt.value <= old(clock) + 2)
    {
      Tick();
      if cancelled { return ContextErr; }
      task := if o.artifactOnly(clock) then TaskRow(true) else task;
      var next := if o.ambiguous(clock) then Exploring else Planning;
      assert Moves(rows, next);
      err := CompareAndSet(Assessing, next);
    }

    /** ensureBaseline: at most one baseline validation, taken before the first write. */
    method EnsureBaseline()
      requires Good() && rows.status == Executing
      modifies this`rows, this`log, this`clock, this`cancelled
      ensures Good() && Later() && rows.stages == old(rows).stages && rows.status == Executing
      ensures task.artifactOnly || HasBaseline(old(rows).artifacts) ==> rows == old(rows)
      ensures rows == old(rows) || exists v :: rows == AddArtifact(old(rows), BaselineValidation(v)) && Produced(v) && !v.compared
      ensures !cancelled && !task.artifactOnly && !HasBaseline(old(rows).artifacts) ==> BaselineRan(o, old(clock) + 2, old(rows), rows)
    {
      if task.artifactOnly { return; }
      Tick();
      if !cancelled && HasBaseline(rows.artifacts) { return; }
      TakeBaseline();
    }

    method TakeBaseline()
      requires Good() && rows.status == Executing && (!cancelled ==> !HasBaseline(rows.artifacts))
      modifies this`rows, this`log, this`clock, this`cancelled
      ensures Good() && Later() && rows.stages == old(rows).stages && rows.status == Executing
      ensures old(cancelled) ==> rows == old(rows)
      ensures rows == old(rows) || exists v :: rows == AddArtifact(old(rows), BaselineValidation(v)) && Produced(v) && !v.compared
      ensures !cancelled ==> BaselineRan(o, old(clock) + 1, old(rows), rows)
    {
      Tick();
      if cancelled || !o.captures(clock) { return; }
      var checks := o.checks(clock);
      if |checks| == 0 { return; }
      var art := RunChecks(checks, o.exec(clock), map[]);
      ArtifactArrives(b, rows, BaselineValidation(art));
      Write(AddArtifact(rows, BaselineValidation(art)));
    }

    /** UpdateRunStatus at the end of an integration. */
    method EndIntegration(status: RunStatus) returns (err: Err)
      requires Good() && status in {Complete, IntegrationBlocked}
      requires !cancelled ==> rows.status in {ReadyToIntegrate, Integrating} && Settled(rows.stages)
      modifies this`rows, this`log, this`clock, this`cancelled
      ensures Good() && Later() && err == (if cancelled then ContextErr else Ok)
      ensures rows == if cancelled then old(rows) else old(rows).(status := status)
    {
      err := UpdateRunStatus(status);
    }

    method Integrate() returns (err: Err)
      requires Good() && Settled(rows.stages) && rows.status in {ReadyToIntegrate, Integrating}
      modifies this`rows, this`log, this`clock, this`cancelled
      ensures Good() && Later() && err != Conflict
      ensures !cancelled ==> err == Ok && rows.stages == old(rows).stages && rows.status in {Complete, IntegrationBlocked}
      ensures !cancelled && task.artifactOnly ==> rows.status == Complete
    {
      if task.artifactOnly {
        err := EndIntegration(Complete);
      } else {
        err := BringBack();
      }
    }

    method BringBack() returns (err: Err)
      requires Good() && Settled(rows.stages) && rows.status in {ReadyToIntegrate, Integrating}
      modifies this`rows, this`log, this`clock, this`cancelled
      ensures Good() && Later() && err != Conflict
      ensures !cancelled ==> err == Ok && rows.stages == old(rows).stages && rows.status in {Complete, IntegrationBlocked}
    {
      Tick();
      if cancelled {
        CancelRun();
        return Ok;
      }
      var _ := CompareAndSet(ReadyToIntegrate, Integrating);
      err := RunIntegrator();
    }

    method RunIntegrator() returns (err: Err)
      requires Good() && (!cancelled ==> Settled(rows.stages) && rows.status == Integrating)
      modifies this`rows, this`log, this`clock, this`cancelled
      ensures Good() && Later() && err != Conflict
      ensures !cancelled ==> err == Ok && rows.stages == old(rows).stages
      ensures !cancelled ==> rows.status == if o.integration(old(clock)) == IntegratorAbsent || o.integration(old(clock) + 1) in {IntegratorAbsent, Published}
                                            then Complete else IntegrationBlocked
    {
      if o.integration(clock) == IntegratorAbsent {
        err := EndIntegration(Complete);
        return;
      }
      Tick();
      if cancelled {
        err := EndIntegration(IntegrationBlocked);
        return;
      }
      match o.integration(clock)
      case IntegratorFailed =>
        var _ := EndIntegration(IntegrationBlocked);
        err := Ok;
      case NotPublished => err := EndIntegration(IntegrationBlocked);
      case _ => err := EndIntegration(Complete);
    }

    /** One round of the loop: a stage, or the integration. */
    method Round() returns (err: Err)
      requires Good() && Settled(rows.stages) && (Works(rows.status) || rows.status in {ReadyToIntegrate, Integrating})
      modifies this`rows, this`log, this`clock, this`cancelled, this`task, this`served
      ensures Good() && Later() && err != Conflict
      ensures !cancelled ==> err == Ok
      ensures cancelled || Landed(rows, |rows.stages|)
      ensures !cancelled ==> |rows.stages| == |old(rows).stages| + 1
                             || (|rows.stages| == |old(rows).stages| && rows.status in {Blocked, Complete, IntegrationBlocked})
      ensures !cancelled && Works(old(rows).status) ==>
                RoundRan(o, b, StageForStatus(old(rows).status), old(rows), served, task, rows)
      ensures cancelled || !Cooperative(o) || WentWell(old(rows), rows)
    {
      if Works(rows.status) {
        err := StageRound();
      } else {
        err := Integrate();
      }
    }

    /** The stage the status stands for; before a first write the baseline is taken. */
    method StageRound() returns (err: Err)
      requires Good() && Settled(rows.stages) && Works(rows.status)
      modifies this`rows, this`log, this`clock, this`cancelled, this`task, this`served
      ensures Good() && Later() && err != Conflict
      ensures !cancelled ==> err == Ok
      ensures cancelled || Landed(rows, |rows.stages|)
      ensures !cancelled ==> |rows.stages| == |old(rows).stages| + 1 || (|rows.stages| == |old(rows).stages| && rows.status == Blocked)
      ensures cancelled || RoundRan(o, b, StageForStatus(old(rows).status), old(rows), served, task, rows)
      ensures cancelled || !Cooperative(o) || WentWell(old(rows), rows)
    {
      ghost var start := rows;
      if rows.status == Executing { EnsureBaseline(); }
      ghost var base := rows;
      var k := StageForStatus(rows.status);
      err := RunStage(k);
      if !cancelled { RoundIsOver(o, b, k, start, base, served, task, rows); }
    }

    /** The part of processRun before its loop.  A panic is the one way not to return: the run row read after the assessment is used
        without looking at the error of that read. */
    method Start() returns (err: Err, panicked: bool)
      requires Good() && Settled(rows.stages)
      modifies this`rows, this`log, this`clock, this`cancelled, this`task
      ensures Good() && Later() && err != Conflict
      ensures panicked ==> cancelled && rows.status in {Planning, Exploring}
      ensures panicked <==> old(rows).status in {Queued, Assessing} && !old(cancelled) && o.cancelAt == Some(old(clock) + PanicTick(old(rows).status))
      ensures !cancelled ==> err == Ok
      ensures err == Ok && !panicked ==> Settled(rows.stages) && rows.status !in {Queued, Assessing}
      ensures rows.stages == old(rows).stages
      ensures cancelled || rows.status != Domain.Failed || old(rows).status == Domain.Failed
    {
      Tick();
      if cancelled { return ContextErr, false; }
      var status := rows.status;
      Tick();
      if cancelled { return ContextErr, false; }
      if status == Queued {
        err, panicked := LeaveQueue();
        return;
      }
      if status == Assessing {
        err, panicked := AssessAndReadAgain();
        return;
      }
      return Ok, false;
    }

    method LeaveQueue() returns (err: Err, panicked: bool)
      requires Good() && Settled(rows.stages) && rows.status == Queued
      modifies this`rows, this`log, this`clock, this`cancelled, this`task
      ensures Good() && Later() && rows.stages == old(rows).stages && err == (if cancelled && !panicked then ContextErr else Ok)
      ensures panicked <==> !old(cancelled) && o.cancelAt == Some(old(clock) + 4)
      ensures err == Ok ==> rows.status in {Planning, Exploring} && (cancelled <==> panicked)
    {
      var _ := CompareAndSet(Queued, Assessing);
      err, panicked := AssessAndReadAgain();
    }

    method AssessAndReadAgain() returns (err: Err, panicked: bool)
      requires Good() && Settled(rows.stages) && (!cancelled ==> rows.status == Assessing)
      modifies this`rows, this`log, this`clock, this`cancelled, this`task
      ensures Good() && Later() && rows.stages == old(rows).stages && err == (if cancelled && !panicked then ContextErr else Ok)
      ensures panicked <==> !old(cancelled) && o.cancelAt == Some(old(clock) + 3)
      ensures err == Ok ==> rows.status in {Planning, Exploring} && (cancelled <==> panicked)
    {
      err := Assess();
      if err != Ok { return err, false; }
      Tick();
      panicked := cancelled;
    }

    /** processRun. */
    method DriveRun() returns (err: Err, panicked: bool)
      requires Good() && Settled(rows.stages)
      modifies this`rows, this`log, this`clock, this`cancelled, this`task, this`served
      ensures Good() && Later() && err != Conflict
      ensures panicked ==> cancelled && rows.status in {Planning, Exploring}
      ensures panicked <==> old(rows).status in {Queued, Assessing} && !old(cancelled) && o.cancelAt == Some(old(clock) + PanicTick(old(rows).status))
      ensures !cancelled ==> err == Ok && Settled(rows.stages) && !Works(rows.status)
                             && rows.status !in {Queued, Assessing, ReadyToIntegrate, Integrating}
      ensures cancelled || !Cooperative(o) || WentWell(old(rows), rows)
    {
      err, panicked := Start();
      if panicked || err != Ok { return; }
      err := Loop();
    }

    /** The loop of processRun. */
    method Loop() returns (err: Err)
      requires Good() && Settled(rows.stages) && rows.status !in {Queued, Assessing}
      modifies this`rows, this`log, this`clock, this`cancelled, this`task, this`served
      ensures Good() && Later() && err != Conflict
      ensures !cancelled ==> err == Ok && Settled(rows.stages) && !Works(rows.status)
                             && rows.status !in {Queued, Assessing, ReadyToIntegrate, Integrating}
      ensures cancelled || !Cooperative(o) || WentWell(old(rows), rows)
    {
      var status := rows.status;
      while !status.Terminal()
        invariant Good() && Later() && status == rows.status && Settled(rows.stages)
        invariant status !in {Queued, Assessing}
        invariant cancelled || !Cooperative(o) || WentWell(old(rows), rows)
        decreases b.maxStages - |rows.stages|, if Works(status) || status in {ReadyToIntegrate, Integrating} then 1 else 0
      {
        var done;
        ghost var mid := rows;
        done, err := Turn();
        if !cancelled && Cooperative(o) { WellAndOn(old(rows), mid, rows); }
        if done || err != Ok { return err; }
        status := rows.status;
      }
      return Ok;
    }

    /** One turn of processRun's loop: stop for a cancelled context or a status without work, or do a round. */
    method Turn() returns (done: bool, err: Err)
      requires Good() && Settled(rows.stages) && !rows.status.Terminal() && rows.status !in {Queued, Assessing}
      modifies this`rows, this`log, this`clock, this`cancelled, this`task, this`served
      ensures Good() && Later() && err != Conflict && (!cancelled ==> err == Ok)
      ensures done && !cancelled ==> rows == old(rows) && !Works(rows.status) && rows.status !in {ReadyToIntegrate, Integrating}
      ensures !done && err == Ok ==> !cancelled && Landed(rows, |rows.stages|)
      ensures !done && err == Ok ==> Works(old(rows).status) || old(rows).status in {ReadyToIntegrate, Integrating}
      ensures !done && err == Ok ==> |rows.stages| == |old(rows).stages| + 1
                                     || (|rows.stages| == |old(rows).stages| && rows.status in {Blocked, Complete, IntegrationBlocked})
      ensures cancelled || !Cooperative(o) || WentWell(old(rows), rows)
    {
      Tick();
      if cancelled {
        CancelRun();
        return true, Ok;
      }
      if !Works(rows.status) && rows.status !in {ReadyToIntegrate, Integrating} { return true, Ok; }
      err := Round();
      if err != Ok { return false, err; }
      Tick();
      return false, if cancelled then ContextErr else Ok;
    }

    /** ProcessRun. */
    method ProcessRun() returns (err: Err, panicked: bool)
      requires Good() && Settled(rows.stages)
      modifies this`rows, this`log, this`clock, this`cancelled, this`task, this`served
      // every durable state on the way is sound and entered by an allowed step
      ensures Good() && Later()
      // cancellation at any moment: the run converges unless the engine panicked, and a panic leaves it open
      ensures cancelled ==> (panicked <==> !(rows.status.Terminal() && Settled(rows.stages)))
      ensures panicked <==> old(rows).status in {Queued, Assessing} && !old(cancelled) && o.cancelAt == Some(old(clock) + PanicTick(old(rows).status))
      ensures rows.status == Cancelled ==> forall i :: 0 <= i < |rows.approvals| ==> !rows.approvals[i]
      // without cancellation the run stops where no stage is left to run
      ensures !cancelled ==> !panicked && err == Ok && Settled(rows.stages) && !Works(rows.status)
                             && rows.status !in {Queued, Assessing, ReadyToIntegrate, Integrating}
      // and if everybody cooperates, every stage it appends succeeds and the run does not fail
      ensures cancelled || !Cooperative(o) || WentWell(old(rows), rows)
    {
      err, panicked := DriveRun();
      if panicked { return; }
      if !cancelled && err != ContextErr { return; }
      CancelRun();
      return Ok, false;
    }
  }

  function PendingCount(approvals: seq<bool>): nat {
    if approvals == [] then 0 else (if approvals[0] then 1 else 0) + PendingCount(approvals[1..])
  }

  /** Where the workflow goes after a stage that succeeded. */
  function After(k: StageKind): RunStatus {
    match k
    case ExploreStage => Planning
    case PlanStage => Executing
    case ReplanStage => Executing
    case ExecuteStage => Validating
    case RepairStage => Validating
    case ValidateStage => Reviewing
    case ReviewStage => Reviewing
  }

  function StatusAfter(outcome: Outcome): RunStatus {
    match outcome
    case DoComplete => Complete
    case DoRepair => Repairing
    case DoReplan => Replanning
    case DoExplore => Exploring
    case DoIntegrate => ReadyToIntegrate
    case DoBlock => Blocked
  }

  /** Where a review sends the run, by the completion policy on the rows at hand. */
  function Decided(artifactOnly: bool, rows: RunRows, review: ReviewArtifact): RunStatus {
    var latest := LatestFinal(rows.artifacts);
    var val := if latest.Some? then Some(latest.value.val) else None;
    StatusAfter(CompletionPolicy(artifactOnly, val, Some(review), PendingCount(rows.approvals), false))
  }

  /** When the policy on the rows at hand integrates, the gate is open. */
  lemma PolicyGuardsTheGate(b: Budgets, s: RunRows, artifactOnly: bool, review: ReviewArtifact)
    requires Sound(b, s) && StageEnded(s, ReviewStage, Succeeded) && Decided(artifactOnly, s, review) == ReadyToIntegrate
    ensures Sound(b, s.(status := ReadyToIntegrate)) && StepOk(s, s.(status := ReadyToIntegrate))
  {
    ReviewHasValidation(b, s);
    var val := Some(LatestFinal(s.artifacts).value.val);
    IntegrateIff(artifactOnly, val, Some(review), PendingCount(s.approvals));
    GateOpens(b, s);
  }

  lemma StageMoves(s: RunRows, k: StageKind)
    requires StageEnded(s, k, Succeeded) && k != ReviewStage
    ensures Moves(s, After(k)) && !After(k).Terminal()
  {
  }

  lemma ReviewDecides(s: RunRows, outcome: Outcome)
    requires StageEnded(s, ReviewStage, Succeeded)
    ensures Moves(s, StatusAfter(outcome))
  {
  }

  function AfterFailure(k: StageKind, failure: FailureClass): RunStatus {
    if failure == Task then if k == ExecuteStage then Repairing else Domain.Failed
    else if failure == PolicyFailure then Blocked
    else Domain.Failed
  }

  /** The store call, counted from the start, that re-reads the run after the assessment. */
  function PanicTick(status: RunStatus): nat { if status == Queued then 6 else 5 }

  // ----- the attempt ladder

  /** The stages before the last are the same, the last is of the same kind, and nothing was stored. */
  ghost predicate SameButLast(s: RunRows, t: RunRows) {
    && s.stages != [] && |t.stages| == |s.stages|
    && t.stages[..|t.stages| - 1] == s.stages[..|s.stages| - 1] && LastStage(t).kind == LastStage(s).kind
    && t.artifacts == s.artifacts
  }

  /** No attempt but the last one of the last stage has changed. */
  ghost predicate LastTouched(s: RunRows, t: RunRows) {
    && SameButLast(s, t) && HasAttempt(s) && HasAttempt(t) && |LastStage(t).attempts| == |LastStage(s).attempts|
    && var n := |LastStage(s).attempts| - 1; LastStage(t).attempts[..n] == LastStage(s).attempts[..n]
  }

  ghost predicate CaptureFails(o: Oracle) { exists t :: !o.captures(t) }

  /** One more attempt, whose checkpoint could not be made; that ended the stage. */
  ghost predicate NotCheckpointed(o: Oracle, k: StageKind, s: RunRows, t: RunRows) {
    && OneMoreAttempt(s, t) && StageEnded(t, k, AttemptFailed) && LastAttempt(t).status == AttemptFailed
    && k in {ExecuteStage, RepairStage} && CaptureFails(o)
  }

  /** The last stage has one more attempt. */
  ghost predicate OneMoreAttempt(s: RunRows, t: RunRows) {
    && SameButLast(s, t) && |LastStage(t).attempts| == |LastStage(s).attempts| + 1
    && LastStage(t).attempts[..|LastStage(s).attempts|] == LastStage(s).attempts
  }

  lemma LaunchTouches(s: RunRows, next: RunRows, t: RunRows)
    requires HasAttempt(s) && next == PutAttempt(s, LastAttempt(s).(started := true)) && t == next.(approvals := t.approvals)
    ensures LastTouched(s, t) && LastAttempt(t).started
  {
  }

  lemma TouchedTwice(s: RunRows, mid: RunRows, t: RunRows)
    requires LastTouched(s, mid) && LastTouched(mid, t)
    ensures LastTouched(s, t)
  {
  }

  lemma AddedThenTouched(s: RunRows, mid: RunRows, t: RunRows)
    requires s.stages != [] && mid == AddAttempt(s) && LastTouched(mid, t)
    ensures OneMoreAttempt(s, t)
  {
    assert LastStage(mid).attempts[..|LastStage(s).attempts|] == LastStage(s).attempts;
  }

  predicate PlansArtifact(r: Result) { r.Output? && r.artifactOnly }

  ghost predicate IsAnswer(o: Oracle, r: Result) { exists t :: o.result(t) == r }

  ghost predicate AreAnswers(o: Oracle, rs: seq<Result>) { forall i :: 0 <= i < |rs| ==> IsAnswer(o, rs[i]) }

  /** A failure without a class counts as one of the infrastructure. */
  predicate FailedForInfrastructure(r: Result) { r.Failure? && r.failure in {NoClass, Infrastructure} }

  /** How the attempt is recorded whose answer was rs[i]. */
  ghost function Mark(rs: seq<Result>, i: nat): AttemptStatus
    requires i < |rs|
  {
    if rs[i].Output? then Succeeded
    else if rs[i].Malformed? || (i > 0 && rs[i - 1].Malformed?) then Invalid
    else AttemptFailed
  }

  ghost predicate AreMarked(attempts: seq<Attempt>, rs: seq<Result>) {
    |attempts| == |rs| && forall i :: 0 <= i < |rs| ==> attempts[i].status == Mark(rs, i)
  }

  /** Where a stage that succeeded leads: a review by the verdict on what is stored, every other kind always
      to the same status. */
  ghost predicate LeadsOn(k: StageKind, task: TaskRow, t: RunRows, res: Result) {
    res.Output? &&
    match k
    case ExploreStage => t.status == Planning
    case PlanStage => t.status == Executing
    case ReplanStage => t.status == Executing
    case ExecuteStage => t.status == Validating
    case RepairStage => t.status == Validating
    case ValidateStage => t.status == Reviewing
    case ReviewStage =>
      var val := LatestFinal(t.artifacts);
      t.status == if exists i :: 0 <= i < |t.approvals| && t.approvals[i] then Blocked
                  else if val.Some? && !Clear(val.value.val) then Repairing
                  else if res.review.verdict == Rejected then if res.review.blockingFinding then Repairing else Replanning
                  else if res.review.verdict == Insufficient then Exploring
                  else if task.artifactOnly then Complete
                  else ReadyToIntegrate
  }

  /** A ladder over so many candidates that was answered rs.  After m infrastructure failures, each with the
      next candidate, it ended in one of these ways:
      no candidate, attempt or checkpoint was left for another attempt;
      a good answer ended the stage with success and the run went on;
      a failure of another class ended the stage and sent the run where that class sends it;
      an answer that did not parse got one correction, if there was an attempt and a checkpoint for it, and the stage
      ended by the answer to that. */
  ghost predicate LadderRan(o: Oracle, k: StageKind, candidates: nat, max: int, rs: seq<Result>, task: TaskRow, t: RunRows) {
    && t.stages != []
    && var attempts := LastStage(t).attempts;
    && AreAnswers(o, rs) && |rs| <= |attempts| <= |rs| + 1 && |attempts| <= max && AreMarked(attempts[..|rs|], rs)
    && (|attempts| > |rs| ==> k in {ExecuteStage, RepairStage} && attempts[|rs|].status == AttemptFailed && CaptureFails(o))
    && exists m: nat :: LadderEnded(k, candidates, max, rs, m, task, t)
  }

  ghost predicate LadderEnded(k: StageKind, candidates: nat, max: int, rs: seq<Result>, m: nat, task: TaskRow, t: RunRows)
    requires t.stages != []
  {
    var stopped, stage := |LastStage(t).attempts| > |rs|, LastStage(t).status;
    && m <= |rs| && (forall i :: 0 <= i < m ==> FailedForInfrastructure(rs[i]))
    && m <= candidates && (stopped || m < |rs| ==> m < candidates)
    && if m == |rs| then
         stage == AttemptFailed && t.status == Domain.Failed && (stopped || m == candidates || m == max)
       else match rs[m]
         case Output(_, _) => |rs| == m + 1 && !stopped && stage == Succeeded && LeadsOn(k, task, t, rs[m])
         case Failure(f) =>
           && |rs| == m + 1 && !stopped && stage == AttemptFailed && f !in {NoClass, Infrastructure}
           && t.status == (if f == Task && k == ExecuteStage then Repairing else if f == PolicyFailure then Blocked else Domain.Failed)
         case Malformed =>
           if |rs| == m + 1 then stage == AttemptFailed && t.status == Domain.Failed && (stopped || m + 1 == max)
           else
             && |rs| == m + 2 && !stopped
             && if rs[m + 1].Output? then stage == Succeeded && LeadsOn(k, task, t, rs[m + 1])
                else stage == AttemptFailed && t.status == Domain.Failed
  }

  ghost predicate SameFront(s: RunRows, t: RunRows) {
    s.stages != [] && |t.stages| == |s.stages| && t.stages[..|t.stages| - 1] == s.stages[..|t.stages| - 1]
  }

  /** The one attempt of a validate stage and the stage have this status. */
  ghost predicate ValidateEnded(t: RunRows, stage: AttemptStatus, status: RunStatus) {
    && t.stages != [] && LastStage(t).kind == ValidateStage && LastStage(t).status == stage && t.status == status
    && |LastStage(t).attempts| == 1 && LastStage(t).attempts[0].status == stage
  }

  /** A validation was stored and the run is under review. */
  ghost predicate Validated(before: seq<Artifact>, art: Validation, t: RunRows) {
    ValidateEnded(t, Succeeded, Reviewing) && t.artifacts == before + [FinalValidation(|t.stages| - 1, art)]
  }

  lemma StoredAndEnded(s: RunRows, art: Validation, stored: RunRows, t: RunRows)
    requires s.stages != [] && stored == AddArtifact(s, FinalValidation(|s.stages| - 1, art))
    requires SameFront(stored, t) && t.artifacts == stored.artifacts && ValidateEnded(t, Succeeded, Reviewing)
    ensures SameFront(s, t) && Validated(s.artifacts, art, t)
  {
  }

  /** A validate stage: without a copy of the workspace it fails and the run with it; otherwise every check planned is
      run, compared with what the first baseline says of the same name, and stored. */
  ghost predicate ValidationRan(o: Oracle, tick: nat, before: seq<Artifact>, t: RunRows) {
    if !o.captures(tick) then ValidateEnded(t, AttemptFailed, Domain.Failed) && t.artifacts == before
    else exists art :: Validated(before, art, t) && ChecksRan(o, tick + 1, BaselineStatuses(before), art)
  }

  ghost predicate ChecksRan(o: Oracle, tick: nat, baseline: map<Text, CheckStatus>, art: Validation) {
    |art.checks| == |o.checks(tick)| && AllRan(art.checks, o.checks(tick), o.exec(tick), baseline) && Produced(art)
  }

  /** The baseline: when a copy of the workspace can be made and checks are found, all of them are run, compared
      with nothing, and stored. */
  ghost predicate BaselineRan(o: Oracle, tick: nat, s: RunRows, t: RunRows) {
    if !o.captures(tick) || o.checks(tick) == [] then t == s
    else exists art :: t == AddArtifact(s, BaselineValidation(art)) && ChecksRan(o, tick, map[], art)
  }

  /** A harness stage: without a route the run is blocked, without a workspace it fails, and otherwise the ladder
      runs over the route's candidate and its fallbacks. */
  ghost predicate HarnessRan(o: Oracle, k: StageKind, tick: nat, max: int, rs: seq<Result>, task: TaskRow, t: RunRows) {
    if o.route(tick) == NoRoute then rs == [] && Abandoned(k, t, Blocked)
    else RouteRan(o, k, tick + 1, o.route(tick).fallbacks, max, rs, task, t)
  }

  ghost predicate RouteRan(o: Oracle, k: StageKind, tick: nat, fallbacks: nat, max: int, rs: seq<Result>, task: TaskRow, t: RunRows) {
    if !o.prepares(tick) then rs == [] && Abandoned(k, t, Domain.Failed)
    else t.stages != [] && LastStage(t).kind == k && LadderRan(o, k, 1 + fallbacks, max, rs, task, t)
  }

  /** The number of stages, repairs or replans has reached its limit. */
  ghost predicate OverBudget(b: Budgets, k: StageKind, s: RunRows) {
    || |s.stages| >= b.maxStages
    || (k == RepairStage && Count(s.stages, RepairStage) >= b.maxRepair)
    || (k == ReplanStage && Count(s.stages, ReplanStage) >= b.maxReplan)
  }

  /** One stage was appended, after which it has ended; no other stage has changed. */
  ghost predicate StageRan(o: Oracle, k: StageKind, max: int, s: RunRows, rs: seq<Result>, task: TaskRow, t: RunRows) {
    && |t.stages| == |s.stages| + 1 && t.stages[..|s.stages|] == s.stages && LastStage(t).kind == k
    && exists tick: nat ::
         if k == ValidateStage then ValidationRan(o, tick, s.artifacts, t)
         else HarnessRan(o, k, tick, max, rs, task, t)
  }

  lemma ValidateAppended(o: Oracle, max: int, s: RunRows, rs: seq<Result>, task: TaskRow, tick: nat, added: RunRows, t: RunRows)
    requires added == AddStage(s, ValidateStage) && SameFront(added, t) && ValidationRan(o, tick, added.artifacts, t)
    ensures StageRan(o, ValidateStage, max, s, rs, task, t)
  {
    assert added.stages[..|s.stages|] == s.stages;
  }

  lemma HarnessAppended(o: Oracle, k: StageKind, max: int, s: RunRows, rs: seq<Result>, task: TaskRow, tick: nat, added: RunRows, t: RunRows)
    requires k != ValidateStage && added == AddStage(s, k) && SameFront(added, t) && HarnessRan(o, k, tick, max, rs, task, t)
    ensures StageRan(o, k, max, s, rs, task, t)
  {
    assert added.stages[..|s.stages|] == s.stages;
  }

  /** Over the budget the run is blocked and nothing is appended; otherwise a stage ran, perhaps after the baseline
      was taken. */
  ghost predicate RoundRan(o: Oracle, b: Budgets, k: StageKind, s: RunRows, rs: seq<Result>, task: TaskRow, t: RunRows) {
    exists base: RunRows ::
      && base.stages == s.stages && base.status == s.status
      && (base.artifacts == s.artifacts || (k == ExecuteStage && exists art :: base.artifacts == s.artifacts + [BaselineValidation(art)]))
      && if OverBudget(b, k, s) then t == base.(status := Blocked)
         else StageRan(o, k, b.maxStageAttempts, base, rs, task, t)
  }

  lemma RoundIsOver(o: Oracle, b: Budgets, k: StageKind, s: RunRows, base: RunRows, rs: seq<Result>, task: TaskRow, t: RunRows)
    requires b.maxStageAttempts > 0 && base.stages == s.stages && base.status == s.status
    requires base == s || (k == ExecuteStage && exists art :: base == AddArtifact(s, BaselineValidation(art)))
    requires OverBudget(b, k, base) ==> t == base.(status := Blocked)
    requires !OverBudget(b, k, base) ==> StageRan(o, k, b.maxStageAttempts, base, rs, task, t)
    ensures RoundRan(o, b, k, s, rs, task, t)
    ensures Cooperative(o) ==> WentWell(s, t)
    ensures |t.stages| == |s.stages| + 1 || (|t.stages| == |s.stages| && t.status == Blocked)
  {
    if Cooperative(o) && !OverBudget(b, k, base) { CooperationSucceeds(o, k, b.maxStageAttempts, base, rs, task, t); }
  }

  /** Everything the engine asks for it gets, and the harness always answers with output that parses. */
  ghost predicate Cooperative(o: Oracle) {
    forall t :: o.route(t) != NoRoute && o.prepares(t) && o.captures(t) && o.result(t).Output?
  }

  /** No stage of before has changed, every other one succeeded, and the run did not fail. */
  ghost predicate WentWell(s: RunRows, t: RunRows) {
    && |s.stages| <= |t.stages| && t.stages[..|s.stages|] == s.stages
    && (forall i :: |s.stages| <= i < |t.stages| ==> t.stages[i].status == Succeeded)
    && (s.status != Domain.Failed ==> t.status != Domain.Failed)
  }

  lemma WellAndOn(s: RunRows, mid: RunRows, t: RunRows)
    requires WentWell(s, mid) && WentWell(mid, t)
    ensures WentWell(s, t)
  {
    assert t.stages[..|s.stages|] == mid.stages[..|s.stages|];
    forall i | |s.stages| <= i < |t.stages| ensures t.stages[i].status == Succeeded {
      if i < |mid.stages| { assert t.stages[..|mid.stages|][i] == mid.stages[i]; }
    }
  }

  lemma CooperativeLadder(o: Oracle, k: StageKind, candidates: nat, max: int, rs: seq<Result>, task: TaskRow, t: RunRows)
    requires Cooperative(o) && max > 0 && candidates > 0 && LadderRan(o, k, candidates, max, rs, task, t)
    ensures LastStage(t).status == Succeeded && t.status != Domain.Failed
  {
    forall i | 0 <= i < |rs| ensures rs[i].Output? {
      assert IsAnswer(o, rs[i]);
    }
    assert rs != [] ==> !FailedForInfrastructure(rs[0]);
    var m: nat :| LadderEnded(k, candidates, max, rs, m, task, t);
    assert m == 0;
    if rs != [] { assert LeadsOn(k, task, t, rs[0]); }
  }

  lemma CooperationSucceeds(o: Oracle, k: StageKind, max: int, s: RunRows, rs: seq<Result>, task: TaskRow, t: RunRows)
    requires Cooperative(o) && max > 0 && StageRan(o, k, max, s, rs, task, t)
    ensures WentWell(s, t)
  {
    if k == ValidateStage {
      var tick: nat :| ValidationRan(o, tick, s.artifacts, t);
      var art :| Validated(s.artifacts, art, t);
    } else {
      var tick: nat :| HarnessRan(o, k, tick, max, rs, task, t);
      CooperativeLadder(o, k, 1 + o.route(tick).fallbacks, max, rs, task, t);
    }
    assert LastStage(t) == t.stages[|s.stages|] && LastStage(t).status == Succeeded;
  }

  /** The stage failed without an attempt. */
  ghost predicate Abandoned(k: StageKind, t: RunRows, status: RunStatus) {
    && t.stages != [] && LastStage(t).kind == k
    && LastStage(t).attempts == [] && LastStage(t).status == AttemptFailed && t.status == status
  }

  /** The stage row, its open attempt and the run after a success. */
  ghost predicate StageSucceeded(s: RunRows, t: RunRows, k: StageKind, review: ReviewArtifact, task: TaskRow)
    requires HasAttempt(s)
  {
    && t.stages == SetStage(PutAttempt(s, LastAttempt(s).(status := Succeeded)), Succeeded).stages
    && t.artifacts == s.artifacts && t.approvals == s.approvals
    && t.status == if k == ReviewStage then Decided(task.artifactOnly, s, review) else After(k)
  }

  lemma {:induction false} PendingIff(approvals: seq<bool>)
    ensures PendingCount(approvals) > 0 <==> exists i :: 0 <= i < |approvals| && approvals[i]
  {
    if approvals != [] {
      PendingIff(approvals[1..]);
      if exists i :: 0 <= i < |approvals| && approvals[i] {
        var i :| 0 <= i < |approvals| && approvals[i];
        if i > 0 { assert approvals[1..][i - 1]; }
      }
    }
  }

  lemma SuccessLeadsOn(s: RunRows, t: RunRows, k: StageKind, res: Result, task: TaskRow)
    requires ArtifactsProduced(s.artifacts) && HasAttempt(s) && res.Output? && StageSucceeded(s, t, k, res.review, task)
    ensures LeadsOn(k, task, t, res)
  {
    var val := LatestFinal(s.artifacts);
    PendingIff(s.approvals);
    if k == ReviewStage {
      PolicyOutcome(task.artifactOnly, if val.Some? then Some(val.value.val) else None, Some(res.review), PendingCount(s.approvals));
    }
  }

  // ----- where the ladder stands

  /** Every candidate before c failed for infrastructure. */
  ghost predicate AllFailed(rs: seq<Result>, c: nat) {
    c <= |rs| && forall i :: 0 <= i < c ==> FailedForInfrastructure(rs[i])
  }

  /** Before candidate c. */
  ghost predicate AtCandidate(o: Oracle, k: StageKind, c: nat, max: int, start: RunRows, rs: seq<Result>, s: RunRows) {
    && InStage(s, k, c, false) && SameButLast(start, s) && |rs| == c <= max && AllFailed(rs, c) && AreAnswers(o, rs)
    && AreMarked(LastStage(s).attempts, rs)
  }

  lemma LadderStarts(o: Oracle, k: StageKind, max: int, s: RunRows)
    requires InStage(s, k, 0, false) && max >= 0
    ensures AtCandidate(o, k, 0, max, s, [], s)
  {
  }

  /** The answer of candidate c has arrived and its attempt is open. */
  ghost predicate Answered(o: Oracle, k: StageKind, c: nat, max: int, start: RunRows, rs: seq<Result>, s: RunRows) {
    && InStage(s, k, c + 1, true) && SameButLast(start, s) && |rs| == c + 1 <= max && AllFailed(rs, c) && AreAnswers(o, rs)
    && AreMarked(LastStage(s).attempts[..c], rs[..c])
  }

  /** The answer of candidate c did not parse and its attempt is closed. */
  ghost predicate Unparsed(o: Oracle, k: StageKind, c: nat, max: int, start: RunRows, rs: seq<Result>, s: RunRows) {
    && InStage(s, k, c + 1, false) && SameButLast(start, s) && |rs| == c + 1 <= max && AllFailed(rs, c) && AreAnswers(o, rs) && rs[c].Malformed?
    && AreMarked(LastStage(s).attempts, rs)
  }

  /** The answer to the correction has arrived. */
  ghost predicate Corrected(o: Oracle, k: StageKind, c: nat, max: int, start: RunRows, rs: seq<Result>, s: RunRows) {
    && InStage(s, k, c + 2, true) && SameButLast(start, s) && |rs| == c + 2 <= max && AllFailed(rs, c) && AreAnswers(o, rs) && rs[c].Malformed?
    && AreMarked(LastStage(s).attempts[..c + 1], rs[..c + 1])
  }

  /** How a ladder has ended that started from these rows. */
  ghost predicate OffLadder(o: Oracle, k: StageKind, candidates: nat, max: int, start: RunRows, was: TaskRow, rs: seq<Result>, task: TaskRow, t: RunRows) {
    && task == MarkedBy(was, k, rs) && Landed(t, |start.stages|) && SameFront(start, t)
    && LastStage(t).kind == k && LadderRan(o, k, candidates, max, rs, task, t)
    && t.artifacts == start.artifacts + (if LastStage(t).status == Succeeded then [OtherArtifact(|t.stages|)] else [])
  }

  /** A plan that was accepted may mark the task artifact-only. */
  function MarkedBy(was: TaskRow, k: StageKind, rs: seq<Result>): TaskRow {
    if k in {PlanStage, ReplanStage} && rs != [] && PlansArtifact(rs[|rs| - 1]) then TaskRow(true) else was
  }

  /** The last attempt is closed by the mark of its answer. */
  lemma AnswerIsMarked(s: RunRows, t: RunRows, rs: seq<Result>, status: AttemptStatus)
    requires HasAttempt(s) && t == PutAttempt(s, LastAttempt(s).(status := status)) && |LastStage(s).attempts| == |rs|
    requires AreMarked(LastStage(s).attempts[..|rs| - 1], rs[..|rs| - 1]) && status == Mark(rs, |rs| - 1)
    ensures AreMarked(LastStage(t).attempts, rs) && SameButLast(s, t)
  {
    var was, now := LastStage(s).attempts, LastStage(t).attempts;
    forall i | 0 <= i < |rs| ensures now[i].status == Mark(rs, i) {
      if i < |rs| - 1 {
        assert was[..|rs| - 1][i] == was[i] && Mark(rs[..|rs| - 1], i) == Mark(rs, i);
      }
    }
  }

  lemma AnswerArrives(o: Oracle, k: StageKind, c: nat, max: int, start: RunRows, rs: seq<Result>, s: RunRows, t: RunRows)
    requires |rs| == c + 1 <= max && IsAnswer(o, rs[c]) && AtCandidate(o, k, c, max, start, rs[..c], s) && OneMoreAttempt(s, t) && InStage(t, k, c + 1, true)
    ensures Answered(o, k, c, max, start, rs, t)
  {
    forall i | 0 <= i < c ensures FailedForInfrastructure(rs[i]) && IsAnswer(o, rs[i]) { assert rs[..c][i] == rs[i]; }
  }

  lemma CorrectionArrives(o: Oracle, k: StageKind, c: nat, max: int, start: RunRows, rs: seq<Result>, s: RunRows, t: RunRows)
    requires |rs| == c + 2 <= max && IsAnswer(o, rs[c + 1]) && Unparsed(o, k, c, max, start, rs[..c + 1], s) && OneMoreAttempt(s, t) && InStage(t, k, c + 2, true)
    ensures Corrected(o, k, c, max, start, rs, t)
  {
    forall i | 0 <= i < c + 1 ensures (i < c ==> FailedForInfrastructure(rs[i])) && IsAnswer(o, rs[i]) { assert rs[..c + 1][i] == rs[i]; }
    assert rs[..c + 1][c] == rs[c];
  }

  lemma AnswerIsInvalid(o: Oracle, k: StageKind, c: nat, max: int, start: RunRows, rs: seq<Result>, s: RunRows, t: RunRows)
    requires Answered(o, k, c, max, start, rs, s) && rs[c].Malformed?
    requires InStage(t, k, c + 1, false) && t == PutAttempt(s, LastAttempt(s).(status := Invalid))
    ensures Unparsed(o, k, c, max, start, rs, t)
  {
    AnswerIsMarked(s, t, rs, Invalid);
  }

  lemma FailureIsMarked(o: Oracle, k: StageKind, c: nat, max: int, start: RunRows, rs: seq<Result>, s: RunRows, t: RunRows)
    requires Answered(o, k, c, max, start, rs, s) && rs[c].Failure?
    requires InStage(t, k, c + 1, false) && t == PutAttempt(s, LastAttempt(s).(status := AttemptFailed))
    ensures AreMarked(LastStage(t).attempts, rs) && SameButLast(start, t)
  {
    if c > 0 { assert FailedForInfrastructure(rs[c - 1]); }
    AnswerIsMarked(s, t, rs, AttemptFailed);
  }

  lemma AnswerIsFailure(o: Oracle, k: StageKind, c: nat, max: int, start: RunRows, rs: seq<Result>, s: RunRows, t: RunRows)
    requires Answered(o, k, c, max, start, rs, s) && FailedForInfrastructure(rs[c])
    requires InStage(t, k, c + 1, false) && t == PutAttempt(s, LastAttempt(s).(status := AttemptFailed))
    ensures AtCandidate(o, k, c + 1, max, start, rs, t)
  {
    FailureIsMarked(o, k, c, max, start, rs, s, t);
  }

  // ----- how the ladder ends

  lemma NothingLeft(o: Oracle, k: StageKind, candidates: nat, max: int, start: RunRows, rs: seq<Result>, c: nat, task: TaskRow, s: RunRows, t: RunRows)
    requires AtCandidate(o, k, c, max, start, rs, s) && c <= candidates && (c == candidates || c == max)
    requires t == SetStage(s, AttemptFailed).(status := Domain.Failed) && Landed(t, |s.stages|)
    ensures OffLadder(o, k, candidates, max, start, task, rs, task, t)
  {
    assert LastStage(t).attempts[..|rs|] == LastStage(s).attempts;
    assert LadderEnded(k, candidates, max, rs, c, task, t);
  }

  lemma NoCheckpointForCandidate(o: Oracle, k: StageKind, candidates: nat, max: int, start: RunRows, rs: seq<Result>, c: nat, task: TaskRow,
                                 s: RunRows, stopped: RunRows, t: RunRows)
    requires AtCandidate(o, k, c, max, start, rs, s) && c < candidates && c < max && NotCheckpointed(o, k, s, stopped)
    requires t == stopped.(status := Domain.Failed)
    ensures OffLadder(o, k, candidates, max, start, task, rs, task, t)
  {
    assert LadderEnded(k, candidates, max, rs, c, task, t);
  }

  lemma CandidateFails(o: Oracle, k: StageKind, candidates: nat, max: int, start: RunRows, rs: seq<Result>, c: nat, task: TaskRow,
                       s: RunRows, closed: RunRows, t: RunRows)
    requires Answered(o, k, c, max, start, rs, s) && c < candidates && rs[c].Failure? && (FailedForInfrastructure(rs[c]) ==> c + 1 == max)
    requires InStage(closed, k, c + 1, false) && closed == PutAttempt(s, LastAttempt(s).(status := AttemptFailed))
    requires t == SetStage(closed, AttemptFailed).(status := AfterFailure(k, if rs[c].failure == NoClass then Infrastructure else rs[c].failure))
    requires Landed(t, |s.stages|)
    ensures OffLadder(o, k, candidates, max, start, task, rs, task, t)
  {
    FailureIsMarked(o, k, c, max, start, rs, s, closed);
    assert LastStage(t).attempts[..|rs|] == LastStage(closed).attempts;
    assert LadderEnded(k, candidates, max, rs, if FailedForInfrastructure(rs[c]) then c + 1 else c, task, t);
  }

  lemma NothingLeftToCorrect(o: Oracle, k: StageKind, candidates: nat, max: int, start: RunRows, rs: seq<Result>, c: nat, task: TaskRow, s: RunRows, t: RunRows)
    requires Unparsed(o, k, c, max, start, rs, s) && c < candidates && c + 1 == max
    requires t == SetStage(s, AttemptFailed).(status := Domain.Failed) && Landed(t, |s.stages|)
    ensures OffLadder(o, k, candidates, max, start, task, rs, task, t)
  {
    assert LastStage(t).attempts[..|rs|] == LastStage(s).attempts;
    assert LadderEnded(k, candidates, max, rs, c, task, t);
  }

  lemma NoCheckpointToCorrect(o: Oracle, k: StageKind, candidates: nat, max: int, start: RunRows, rs: seq<Result>, c: nat, task: TaskRow,
                              s: RunRows, stopped: RunRows, t: RunRows)
    requires Unparsed(o, k, c, max, start, rs, s) && c < candidates && c + 1 < max && NotCheckpointed(o, k, s, stopped)
    requires t == stopped.(status := Domain.Failed)
    ensures OffLadder(o, k, candidates, max, start, task, rs, task, t)
  {
    assert LadderEnded(k, candidates, max, rs, c, task, t);
  }

  lemma CorrectionFails(o: Oracle, k: StageKind, candidates: nat, max: int, start: RunRows, rs: seq<Result>, c: nat, task: TaskRow,
                        s: RunRows, closed: RunRows, t: RunRows)
    requires Corrected(o, k, c, max, start, rs, s) && c < candidates && !rs[c + 1].Output?
    requires InStage(closed, k, c + 2, false) && closed == PutAttempt(s, LastAttempt(s).(status := Invalid))
    requires t == SetStage(closed, AttemptFailed).(status := Domain.Failed) && Landed(t, |s.stages|)
    ensures OffLadder(o, k, candidates, max, start, task, rs, task, t)
  {
    AnswerIsMarked(s, closed, rs, Invalid);
    assert LastStage(t).attempts[..|rs|] == LastStage(closed).attempts;
    assert LadderEnded(k, candidates, max, rs, c, task, t);
  }

  /** A good answer, stored and then followed by its success. */
  lemma SuccessIsMarked(b: Budgets, k: StageKind, rs: seq<Result>, task: TaskRow, s: RunRows, t: RunRows)
    requires rs != [] && rs[|rs| - 1].Output? && Sound(b, s)
    requires HasAttempt(s) && |LastStage(s).attempts| == |rs|
    requires AreMarked(LastStage(s).attempts[..|rs| - 1], rs[..|rs| - 1])
    requires StageSucceeded(s, t, k, rs[|rs| - 1].review, task)
    ensures t.stages != [] && LastStage(t).status == Succeeded && AreMarked(LastStage(t).attempts, rs)
    ensures SameButLast(s, t) && LastStage(t).attempts[..|rs|] == LastStage(t).attempts
    ensures LeadsOn(k, task, t, rs[|rs| - 1])
  {
    SuccessLeadsOn(s, t, k, rs[|rs| - 1], task);
    AnswerIsMarked(s, PutAttempt(s, LastAttempt(s).(status := Succeeded)), rs, Succeeded);
  }

  lemma CandidateSucceeds(o: Oracle, b: Budgets, k: StageKind, candidates: nat, start: RunRows, rs: seq<Result>, c: nat, was: TaskRow, task: TaskRow,
                          s: RunRows, stored: RunRows, t: RunRows)
    requires Answered(o, k, c, b.maxStageAttempts, start, rs, s) && c < candidates && rs[c].Output? && Sound(b, stored)
    requires stored == AddArtifact(s, OtherArtifact(|s.stages|)) && StageSucceeded(stored, t, k, rs[c].review, task)
    requires Landed(t, |s.stages|) && task == MarkedBy(was, k, rs)
    ensures OffLadder(o, k, candidates, b.maxStageAttempts, start, was, rs, task, t)
  {
    SuccessIsMarked(b, k, rs, task, stored, t);
    assert LadderEnded(k, candidates, b.maxStageAttempts, rs, c, task, t);
  }

  lemma CorrectionSucceeds(o: Oracle, b: Budgets, k: StageKind, candidates: nat, start: RunRows, rs: seq<Result>, c: nat, was: TaskRow, task: TaskRow,
                           s: RunRows, stored: RunRows, t: RunRows)
    requires Corrected(o, k, c, b.maxStageAttempts, start, rs, s) && c < candidates && rs[c + 1].Output? && Sound(b, stored)
    requires stored == AddArtifact(s, OtherArtifact(|s.stages|)) && StageSucceeded(stored, t, k, rs[c + 1].review, task)
    requires Landed(t, |s.stages|) && task == MarkedBy(was, k, rs)
    ensures OffLadder(o, k, candidates, b.maxStageAttempts, start, was, rs, task, t)
  {
    SuccessIsMarked(b, k, rs, task, stored, t);
    assert LadderEnded(k, candidates, b.maxStageAttempts, rs, c, task, t);
  }

  /** A stage is over and the run has moved on. */
  ghost predicate Landed(rows: RunRows, stages: nat) {
    Settled(rows.stages) && |rows.stages| == stages && rows.status !in {Queued, Assessing}
  }

  /** baselineChecks: the statuses in the first baseline artifact, by check name. */
  function BaselineStatuses(arts: seq<Artifact>): map<Text, CheckStatus> {
    if arts == [] then map[]
    else if arts[0].BaselineValidation? then StatusByName(arts[0].val.checks)
    else BaselineStatuses(arts[1..])
  }

  /** What the first baseline says of each name: nothing without a baseline, and otherwise the status of the last
      of its checks with that name. */
  lemma {:induction false} BaselineByName(arts: seq<Artifact>, name: Text)
    ensures (forall i :: 0 <= i < |arts| ==> !arts[i].BaselineValidation?) ==> BaselineStatuses(arts) == map[]
    ensures forall i :: 0 <= i < |arts| && arts[i].BaselineValidation? && (forall j :: 0 <= j < i ==> !arts[j].BaselineValidation?) ==>
              IsLastStatus(arts[i].val.checks, name, BaselineStatuses(arts))
  {
    if arts != [] {
      if arts[0].BaselineValidation? {
        LastStatus(arts[0].val.checks, name);
      } else {
        BaselineByName(arts[1..], name);
        assert forall i :: 0 < i < |arts| ==> arts[i] == arts[1..][i - 1];
      }
    }
  }

  ghost predicate IsLastStatus(checks: seq<Check>, name: Text, statuses: map<Text, CheckStatus>) {
    if name in statuses then
      exists k :: 0 <= k < |checks| && checks[k].name == name && checks[k].status == statuses[name] && forall j :: k < j < |checks| ==> checks[j].name != name
    else forall k :: 0 <= k < |checks| ==> checks[k].name != name
  }

  lemma {:induction false} LastStatus(checks: seq<Check>, name: Text)
    ensures IsLastStatus(checks, name, StatusByName(checks))
  {
    if checks != [] {
      var n := |checks| - 1;
      LastStatus(checks[..n], name);
      OneMoreStatus(checks[..n], checks[n], name, StatusByName(checks[..n]));
      assert checks == checks[..n] + [checks[n]];
    }
  }

  lemma OneMoreStatus(checks: seq<Check>, c: Check, name: Text, statuses: map<Text, CheckStatus>)
    requires IsLastStatus(checks, name, statuses)
    ensures IsLastStatus(checks + [c], name, statuses[c.name := c.status])
  {
    var more := checks + [c];
    if c.name == name {
      assert more[|checks|] == c;
    } else if name in statuses {
      var k :| 0 <= k < |checks| && checks[k].name == name && checks[k].status == statuses[name] && forall j :: k < j < |checks| ==> checks[j].name != name;
      assert more[k] == checks[k];
    }
  }

  function StatusByName(checks: seq<Check>): map<Text, CheckStatus> {
    if checks == [] then map[]
    else StatusByName(checks[..|checks| - 1])[checks[|checks| - 1].name := checks[|checks| - 1].status]
  }
}
