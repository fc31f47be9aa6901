/** The durable rows of one run and what is always true of them. */
module RunState {
  import opened Bytes
  import opened Domain
  import opened Completion

  /** checkpoint: its own pre-attempt checkpoint row is durable.  started: the harness was launched for it. */
  datatype Attempt = Attempt(status: AttemptStatus, checkpoint: bool, started: bool)
  datatype Stage = Stage(kind: StageKind, status: AttemptStatus, attempts: seq<Attempt>)

  datatype Artifact = FinalValidation(stage: nat, val: Validation) | BaselineValidation(val: Validation) | OtherArtifact(stage: nat)

  /** approvals: for each approval of the run, whether it is pending. */
  datatype RunRows = RunRows(status: RunStatus, stages: seq<Stage>, artifacts: seq<Artifact>, approvals: seq<bool>)

  datatype Budgets = Budgets(maxStages: int, maxRepair: int, maxReplan: int, maxStageAttempts: int)

  const DEFAULT_BUDGETS := Budgets(32, 3, 2, 3)

  function WithDefaults(b: Budgets): (r: Budgets)
    ensures (b.maxStages > 0 || r.maxStages == 32) && (b.maxRepair > 0 || r.maxRepair == 3)
    ensures (b.maxReplan > 0 || r.maxReplan == 2) && (b.maxStageAttempts > 0 || r.maxStageAttempts == 3)
    ensures (b.maxStages > 0 ==> r.maxStages == b.maxStages) && (b.maxRepair > 0 ==> r.maxRepair == b.maxRepair)
    ensures (b.maxReplan > 0 ==> r.maxReplan == b.maxReplan) && (b.maxStageAttempts > 0 ==> r.maxStageAttempts == b.maxStageAttempts)
  {
    Budgets(
      if b.maxStages <= 0 then DEFAULT_BUDGETS.maxStages else b.maxStages,
      if b.maxRepair <= 0 then DEFAULT_BUDGETS.maxRepair else b.maxRepair,
      if b.maxReplan <= 0 then DEFAULT_BUDGETS.maxReplan else b.maxReplan,
      if b.maxStageAttempts <= 0 then DEFAULT_BUDGETS.maxStageAttempts else b.maxStageAttempts)
  }

  function StatusFor(k: StageKind): RunStatus {
    match k
    case PlanStage => Planning
    case ExploreStage => Exploring
    case ExecuteStage => Executing
    case ValidateStage => Validating
    case ReviewStage => Reviewing
    case RepairStage => Repairing
    case ReplanStage => Replanning
  }

  /** The statuses that processRun answers with a stage. */
  predicate Works(s: RunStatus) { s in {Planning, Exploring, Executing, Validating, Reviewing, Repairing, Replanning} }

  function StageForStatus(s: RunStatus): (k: StageKind)
    ensures Works(s) ==> StatusFor(k) == s
    ensures (k == ExploreStage <==> s == Exploring) && (k == ExecuteStage <==> s == Executing) && (k == ValidateStage <==> s == Validating)
    ensures (k == ReviewStage <==> s == Reviewing) && (k == RepairStage <==> s == Repairing) && (k == ReplanStage <==> s == Replanning)
  {
    match s
    case Exploring => ExploreStage
    case Executing => ExecuteStage
    case Validating => ValidateStage
    case Reviewing => ReviewStage
    case Repairing => RepairStage
    case Replanning => ReplanStage
    case _ => PlanStage
  }

  predicate Open(a: Attempt) { a.status in {Running, Pending} }

  function Count(stages: seq<Stage>, k: StageKind): nat {
    if stages == [] then 0 else Count(stages[..|stages| - 1], k) + if stages[|stages| - 1].kind == k then 1 else 0
  }

  ghost function PlacesOf(stages: seq<Stage>, k: StageKind): set<nat> {
    set i: nat | i < |stages| && stages[i].kind == k
  }

  lemma PlacesGrow(stages: seq<Stage>, k: StageKind)
    requires stages != []
    ensures var n, front := |stages| - 1, PlacesOf(stages[..|stages| - 1], k);
            n !in front && PlacesOf(stages, k) == if stages[n].kind == k then front + {n} else front
  {
  }

  /** Count is the number of the places where a stage of the kind stands. */
  lemma {:induction false} CountIsByKind(stages: seq<Stage>, k: StageKind)
    ensures Count(stages, k) == |PlacesOf(stages, k)|
  {
    if stages == [] {
      assert PlacesOf(stages, k) == {};
    } else {
      PlacesGrow(stages, k);
      CountIsByKind(stages[..|stages| - 1], k);
    }
  }

  /** No attempt is open and no stage is running. */
  ghost predicate Settled(stages: seq<Stage>) {
    forall i :: 0 <= i < |stages| ==> stages[i].status != Running && forall a :: 0 <= a < |stages[i].attempts| ==> !Open(stages[i].attempts[a])
  }

  function LatestFinal(arts: seq<Artifact>): (r: Option<Artifact>)
    ensures r.Some? ==> r.value.FinalValidation? && r.value in arts
  {
    if arts == [] then None
    else if arts[|arts| - 1].FinalValidation? then Some(arts[|arts| - 1])
    else LatestFinal(arts[..|arts| - 1])
  }

  /** Of the final validations it is the last. */
  lemma {:induction false} LatestIsLast(arts: seq<Artifact>) returns (i: nat)
    ensures LatestFinal(arts).None? ==> forall j :: 0 <= j < |arts| ==> !arts[j].FinalValidation?
    ensures LatestFinal(arts).Some? ==> i < |arts| && LatestFinal(arts) == Some(arts[i])
    ensures LatestFinal(arts).Some? ==> forall j :: i < j < |arts| ==> !arts[j].FinalValidation?
  {
    i := 0;
    if arts != [] {
      var n := |arts| - 1;
      if arts[n].FinalValidation? {
        i := n;
      } else {
        i := LatestIsLast(arts[..n]);
        assert forall j :: 0 <= j < n ==> arts[..n][j] == arts[j];
      }
    }
  }

  /** Stage v is a succeeded validate, only reviews came after it, and the latest validation is its own. */
  ghost predicate FreshAt(s: RunRows, v: nat) {
    && v < |s.stages| && s.stages[v].kind == ValidateStage && s.stages[v].status == Succeeded
    && (forall j :: v < j < |s.stages| ==> s.stages[j].kind == ReviewStage)
    && LatestFinal(s.artifacts).Some? && LatestFinal(s.artifacts).value.stage == v
  }

  ghost predicate Fresh(s: RunRows) { exists v :: FreshAt(s, v) }

  /** The gate: a run is under review only with a succeeded validation of what was last written, and ready to
      integrate only when after that a review succeeded and that validation is clear. */
  ghost predicate Gate(s: RunRows) {
    && (s.status == Reviewing ==> Fresh(s))
    && (s.status == ReadyToIntegrate ==>
          && Fresh(s) && s.stages[|s.stages| - 1].kind == ReviewStage && s.stages[|s.stages| - 1].status == Succeeded
          && Clear(LatestFinal(s.artifacts).value.val))
  }

  ghost predicate WithinBudgets(b: Budgets, s: RunRows) {
    && |s.stages| <= b.maxStages && Count(s.stages, RepairStage) <= b.maxRepair && Count(s.stages, ReplanStage) <= b.maxReplan
    && forall i :: 0 <= i < |s.stages| ==> |s.stages[i].attempts| <= b.maxStageAttempts
  }

  /** At most one attempt is open: the last one of the last stage. */
  ghost predicate OneOpen(stages: seq<Stage>) {
    forall i, a :: 0 <= i < |stages| && 0 <= a < |stages[i].attempts| && Open(stages[i].attempts[a]) ==>
      i == |stages| - 1 && a == |stages[i].attempts| - 1
  }

  ghost predicate CheckpointFirst(stages: seq<Stage>) {
    forall i, a :: 0 <= i < |stages| && 0 <= a < |stages[i].attempts| && stages[i].kind.WritesWorkspace() && stages[i].attempts[a].started ==>
      stages[i].attempts[a].checkpoint
  }

  predicate HasBaseline(arts: seq<Artifact>) { exists i :: 0 <= i < |arts| && arts[i].BaselineValidation? }

  /** The baseline is taken once. */
  ghost predicate OneBaseline(arts: seq<Artifact>) {
    forall i, j :: 0 <= i < j < |arts| ==> !(arts[i].BaselineValidation? && arts[j].BaselineValidation?)
  }

  ghost predicate ArtifactsProduced(arts: seq<Artifact>) {
    forall i :: 0 <= i < |arts| && arts[i].FinalValidation? ==> Produced(arts[i].val)
  }

  /** What holds in every durable state of a run. */
  ghost predicate Sound(b: Budgets, s: RunRows) {
    && WithinBudgets(b, s) && OneOpen(s.stages) && CheckpointFirst(s.stages) && ArtifactsProduced(s.artifacts) && OneBaseline(s.artifacts) && Gate(s)
    && (s.status.Terminal() ==> Settled(s.stages))
    && (s.status == Cancelled ==> forall i :: 0 <= i < |s.approvals| ==> !s.approvals[i])
  }

  /** The moves that a stage earns by succeeding. */
  predicate Forward(s: RunStatus, t: RunStatus) {
    || (s == Exploring && t == Planning)
    || (s in {Planning, Replanning} && t == Executing)
    || (s in {Executing, Repairing} && t == Validating)
    || (s == Validating && t == Reviewing)
    || (s == Reviewing && t in {Complete, Repairing, Replanning, Exploring, ReadyToIntegrate})
  }

  /** The moves of a run. */
  predicate Edge(s: RunStatus, t: RunStatus) {
    || Forward(s, t)
    || (s == Queued && t == Assessing)
    || (s == Assessing && t in {Planning, Exploring})
    || (s == Executing && t == Repairing)
    || (Works(s) && t == Failed)
    || (s == ReadyToIntegrate && t == Integrating)
    || (s in {ReadyToIntegrate, Integrating} && t in {Complete, IntegrationBlocked})
    || (!s.Terminal() && t in {Blocked, Cancelled})
  }

  /** The last stage is the one this status stands for, and it succeeded. */
  ghost predicate Earned(s: RunRows) {
    s.stages != [] && LastStage(s).kind == StageForStatus(s.status) && LastStage(s).status == Succeeded
  }

  ghost predicate Moves(s: RunRows, t: RunStatus) {
    s.status == t || (Edge(s.status, t) && (Forward(s.status, t) ==> Earned(s)))
  }

  /** What every durable step respects. */
  ghost predicate StepOk(s: RunRows, t: RunRows) {
    && Moves(s, t.status)
    && |s.stages| <= |t.stages| && (forall i :: 0 <= i < |s.stages| ==> t.stages[i].kind == s.stages[i].kind)
  }

  /** A history of durable states: each one sound, each following from the one before by an allowed step. */
  ghost predicate History(b: Budgets, log: seq<RunRows>) {
    && log != [] && Sound(b, log[|log| - 1])
    && (|log| == 1 || (StepOk(log[|log| - 2], log[|log| - 1]) && History(b, log[..|log| - 1])))
  }

  lemma HistoryGrows(b: Budgets, log: seq<RunRows>, next: RunRows)
    requires History(b, log) && Sound(b, next) && StepOk(log[|log| - 1], next)
    ensures History(b, log + [next])
  {
    assert (log + [next])[..|log|] == log;
  }

  /** Over a whole history: budgets are never exceeded, at most one attempt is ever open, a write attempt is never
      started before its checkpoint is durable, and the gate is entered only from a review. */
  lemma {:induction false} EveryStateIsSound(b: Budgets, log: seq<RunRows>, k: nat)
    requires History(b, log) && k < |log|
    ensures Sound(b, log[k])
    ensures k > 0 ==> StepOk(log[k - 1], log[k])
  {
    if k < |log| - 1 { EveryStateIsSound(b, log[..|log| - 1], k); }
  }

  /** Whenever a run becomes ready to integrate it was under review: a validate succeeded, after it a review
      succeeded and nothing was written, and the latest validation is that validate's and is clear. */
  lemma GateOverHistory(b: Budgets, log: seq<RunRows>, k: nat)
    requires History(b, log) && 0 < k < |log| && log[k].status == ReadyToIntegrate && log[k - 1].status != ReadyToIntegrate
    ensures log[k - 1].status == Reviewing && Earned(log[k - 1])
    ensures log[k].stages != [] && LastStage(log[k]).kind == ReviewStage && LastStage(log[k]).status == Succeeded
    ensures exists v: nat :: FreshAt(log[k], v) && v < |log[k].stages| - 1 && Clear(LatestFinal(log[k].artifacts).value.val)
  {
    EveryStateIsSound(b, log, k);
    var v: nat :| FreshAt(log[k], v);
    assert v < |log[k].stages| - 1;
  }

  /** A run moves only along the edges of the workflow, and on to what a stage earns only after that
      stage succeeded; it never leaves a terminal status. */
  lemma ProgressIsEarned(b: Budgets, log: seq<RunRows>, k: nat)
    requires History(b, log) && 0 < k < |log| && log[k].status != log[k - 1].status
    ensures Edge(log[k - 1].status, log[k].status) && !log[k - 1].status.Terminal()
    ensures log[k].status in {Executing, Validating, Reviewing} || (log[k - 1].status == Exploring && log[k].status == Planning)
            ==> Earned(log[k - 1])
  {
    EveryStateIsSound(b, log, k);
    StepIsEarned(log[k - 1], log[k]);
  }

  lemma StepIsEarned(s: RunRows, t: RunRows)
    requires StepOk(s, t) && s.status != t.status
    ensures Edge(s.status, t.status) && !s.status.Terminal()
    ensures t.status in {Executing, Validating, Reviewing} || (s.status == Exploring && t.status == Planning) ==> Earned(s)
  {
  }

  // ----- the row updates

  function AddStage(s: RunRows, k: StageKind): RunRows { s.(stages := s.stages + [Stage(k, Running, [])]) }

  function LastStage(s: RunRows): Stage
    requires s.stages != []
  {
    s.stages[|s.stages| - 1]
  }

  function PutLast(s: RunRows, st: Stage): RunRows
    requires s.stages != []
  {
    s.(stages := s.stages[|s.stages| - 1 := st])
  }

  function SetStage(s: RunRows, status: AttemptStatus): RunRows
    requires s.stages != []
  {
    PutLast(s, LastStage(s).(status := status))
  }

  function AddAttempt(s: RunRows): RunRows
    requires s.stages != []
  {
    PutLast(s, LastStage(s).(attempts := LastStage(s).attempts + [Attempt(Running, false, false)]))
  }

  predicate HasAttempt(s: RunRows) { s.stages != [] && LastStage(s).attempts != [] }

  function LastAttempt(s: RunRows): Attempt
    requires HasAttempt(s)
  {
    LastStage(s).attempts[|LastStage(s).attempts| - 1]
  }

  function PutAttempt(s: RunRows, a: Attempt): RunRows
    requires HasAttempt(s)
  {
    PutLast(s, LastStage(s).(attempts := LastStage(s).attempts[|LastStage(s).attempts| - 1 := a]))
  }

  function AddArtifact(s: RunRows, a: Artifact): RunRows { s.(artifacts := s.artifacts + [a]) }

  function CancelAttempt(a: Attempt): Attempt {
    if Open(a) then a.(status := AttemptCancelled) else a
  }

  function CancelStage(st: Stage): Stage {
    Stage(st.kind, if st.status == Running then Interrupted else st.status,
          seq(|st.attempts|, a requires 0 <= a < |st.attempts| => CancelAttempt(st.attempts[a])))
  }

  /** CancelRun on a run that is not terminal. */
  function CancelledRows(s: RunRows): RunRows {
    RunRows(Cancelled, seq(|s.stages|, i requires 0 <= i < |s.stages| => CancelStage(s.stages[i])), s.artifacts,
            seq(|s.approvals|, _ => false))
  }

  /** Row by row: the run is cancelled, no approval stays pending, a running stage is interrupted and an open
      attempt cancelled, and everything else stays. */
  lemma CancelledByRow(s: RunRows, i: nat, a: nat)
    requires i < |s.stages| && a < |s.stages[i].attempts|
    ensures var t := CancelledRows(s);
            && t.status == Cancelled && t.artifacts == s.artifacts
            && |t.approvals| == |s.approvals| && true !in t.approvals
            && |t.stages| == |s.stages| && |t.stages[i].attempts| == |s.stages[i].attempts|
            && t.stages[i].kind == s.stages[i].kind
            && t.stages[i].status == (if s.stages[i].status == Running then Interrupted else s.stages[i].status)
            && var was, now := s.stages[i].attempts[a], t.stages[i].attempts[a];
            && now.checkpoint == was.checkpoint && now.started == was.started
            && now.status == if was.status in {Running, Pending} then AttemptCancelled else was.status
  {
  }

  function ClosedAttempt(a: Attempt, status: AttemptStatus): Attempt {
    if Open(a) then a.(status := status) else a
  }

  /** Recovery closes rows one by one and may be killed between any two of them. */
  ghost predicate RowRestarted(was: Stage, now: Stage, status: AttemptStatus) {
    && now.kind == was.kind && (now.status == was.status || (was.status == Running && now.status == Interrupted))
    && |now.attempts| == |was.attempts|
    && forall a :: 0 <= a < |was.attempts| ==> now.attempts[a] == was.attempts[a] || now.attempts[a] == ClosedAttempt(was.attempts[a], status)
  }

  /** What a start, killed or not, may do to the rows of a run: close what is open, block it, drop its approvals. */
  ghost predicate Restarted(s: RunRows, t: RunRows) {
    && (t.status == s.status || (!s.status.Terminal() && t.status == Blocked)) && t.artifacts == s.artifacts
    && |t.approvals| == |s.approvals| && (forall i :: 0 <= i < |t.approvals| && t.approvals[i] ==> s.approvals[i])
    && |t.stages| == |s.stages|
    && forall i :: 0 <= i < |s.stages| ==>
         RowRestarted(s.stages[i], t.stages[i], if s.status == Cancelled then AttemptCancelled else Interrupted)
  }

  // ----- every update keeps the rows sound

  /** The rows while stage k runs: made attempts so far, the last one open or not. */
  ghost predicate InStage(s: RunRows, k: StageKind, made: nat, open: bool) {
    && s.status == StatusFor(k)
    && s.stages != [] && LastStage(s).kind == k && |LastStage(s).attempts| == made
    && (forall i :: 0 <= i < |s.stages| - 1 ==> s.stages[i].status != Running)
    && (if open then HasAttempt(s) && LastAttempt(s).status == Running
        else forall a :: 0 <= a < made ==> !Open(LastStage(s).attempts[a]))
  }

  /** Stage k has ended and the run has not moved on yet. */
  ghost predicate StageEnded(s: RunRows, k: StageKind, status: AttemptStatus) {
    && s.status == StatusFor(k) && s.stages != [] && LastStage(s).kind == k && LastStage(s).status == status
    && Settled(s.stages)
  }

  lemma {:induction false} CountKinds(x: seq<Stage>, y: seq<Stage>, k: StageKind)
    requires |x| == |y| && forall i :: 0 <= i < |x| ==> x[i].kind == y[i].kind
    ensures Count(x, k) == Count(y, k)
  {
    if x != [] { CountKinds(x[..|x| - 1], y[..|y| - 1], k); }
  }

  lemma StageStarts(b: Budgets, s: RunRows, k: StageKind)
    requires Sound(b, s) && Settled(s.stages) && s.status == StatusFor(k) && b.maxStageAttempts >= 0
    requires |s.stages| < b.maxStages
    requires k == RepairStage ==> Count(s.stages, RepairStage) < b.maxRepair
    requires k == ReplanStage ==> Count(s.stages, ReplanStage) < b.maxReplan
    ensures var t := AddStage(s, k); Sound(b, t) && StepOk(s, t) && InStage(t, k, 0, false)
  {
    var t := AddStage(s, k);
    assert t.stages[..|t.stages| - 1] == s.stages;
    if s.status == Reviewing {
      var v :| FreshAt(s, v);
      assert FreshAt(t, v);
    }
  }

  /** Any change confined to the last stage and its attempts. */
  lemma LastStageChanges(b: Budgets, s: RunRows, st: Stage)
    requires Sound(b, s) && s.stages != [] && s.status != ReadyToIntegrate && !s.status.Terminal()
    requires st.kind == LastStage(s).kind && |st.attempts| <= b.maxStageAttempts
    requires s.status == Reviewing ==> st.kind == ReviewStage
    requires forall a :: 0 <= a < |st.attempts| - 1 ==> !Open(st.attempts[a])
    requires forall a :: 0 <= a < |st.attempts| && st.kind.WritesWorkspace() && st.attempts[a].started ==> st.attempts[a].checkpoint
    ensures Sound(b, PutLast(s, st)) && StepOk(s, PutLast(s, st))
  {
    var t := PutLast(s, st);
    CountKinds(s.stages, t.stages, RepairStage);
    CountKinds(s.stages, t.stages, ReplanStage);
    if s.status == Reviewing {
      var v :| FreshAt(s, v);
      assert FreshAt(t, v);
    }
  }

  lemma StatusChanges(b: Budgets, s: RunRows, status: RunStatus)
    requires Sound(b, s) && status !in {Reviewing, ReadyToIntegrate, Cancelled} && (status.Terminal() ==> Settled(s.stages))
    requires Moves(s, status)
    ensures Sound(b, s.(status := status)) && StepOk(s, s.(status := status))
  {
  }

  lemma ApprovalsChange(b: Budgets, s: RunRows, approvals: seq<bool>)
    requires Sound(b, s) && s.status != Cancelled
    ensures Sound(b, s.(approvals := approvals)) && StepOk(s, s.(approvals := approvals))
  {
    if s.status in {Reviewing, ReadyToIntegrate} {
      var v :| FreshAt(s, v);
      assert FreshAt(s.(approvals := approvals), v);
    }
  }

  lemma ArtifactArrives(b: Budgets, s: RunRows, a: Artifact)
    requires Sound(b, s) && s.status != ReadyToIntegrate
    requires a.FinalValidation? ==> s.status == Validating && Produced(a.val)
    requires a.BaselineValidation? ==> !HasBaseline(s.artifacts)
    ensures Sound(b, AddArtifact(s, a)) && StepOk(s, AddArtifact(s, a))
    ensures a.FinalValidation? ==> LatestFinal(AddArtifact(s, a).artifacts) == Some(a)
    ensures !a.FinalValidation? ==> LatestFinal(AddArtifact(s, a).artifacts) == LatestFinal(s.artifacts)
  {
    var t := AddArtifact(s, a);
    assert t.artifacts[..|t.artifacts| - 1] == s.artifacts;
    if s.status == Reviewing {
      var v :| FreshAt(s, v);
      assert FreshAt(t, v);
    }
  }

  lemma ArtifactKeepsStage(s: RunRows, k: StageKind, made: nat, open: bool, a: Artifact)
    ensures InStage(AddArtifact(s, a), k, made, open) <==> InStage(s, k, made, open)
  {
  }

  lemma ReviewOpens(b: Budgets, s: RunRows)
    requires Sound(b, s) && StageEnded(s, ValidateStage, Succeeded)
    requires LatestFinal(s.artifacts).Some? && LatestFinal(s.artifacts).value.stage == |s.stages| - 1
    ensures Sound(b, s.(status := Reviewing)) && StepOk(s, s.(status := Reviewing))
  {
    assert FreshAt(s.(status := Reviewing), |s.stages| - 1);
  }

  lemma GateOpens(b: Budgets, s: RunRows)
    requires Sound(b, s) && StageEnded(s, ReviewStage, Succeeded) && Clear(LatestFinal(s.artifacts).value.val)
    ensures Sound(b, s.(status := ReadyToIntegrate)) && StepOk(s, s.(status := ReadyToIntegrate))
  {
    var v :| FreshAt(s, v);
    assert FreshAt(s.(status := ReadyToIntegrate), v);
  }

  lemma ReviewHasValidation(b: Budgets, s: RunRows)
    requires Sound(b, s) && s.status == Reviewing
    ensures LatestFinal(s.artifacts).Some? && Produced(LatestFinal(s.artifacts).value.val)
  {
  }

  lemma CancelKeepsSound(b: Budgets, s: RunRows)
    requires Sound(b, s) && !s.status.Terminal()
    ensures Sound(b, CancelledRows(s)) && StepOk(s, CancelledRows(s)) && Settled(CancelledRows(s).stages)
  {
    CancelSettles(s);
    var t := CancelledRows(s);
    CountKinds(s.stages, t.stages, RepairStage);
    CountKinds(s.stages, t.stages, ReplanStage);
    assert forall i :: 0 <= i < |s.stages| ==> |t.stages[i].attempts| == |s.stages[i].attempts|;
  }

  lemma CancelSettles(s: RunRows)
    requires !s.status.Terminal()
    ensures StepOk(s, CancelledRows(s)) && Settled(CancelledRows(s).stages)
  {
    assert Moves(s, Cancelled);
  }

  /** A restart after a crash in any sound state, killed again or not, finds the rows sound. */
  lemma RestartKeepsSound(b: Budgets, s: RunRows, t: RunRows)
    requires Sound(b, s) && Restarted(s, t)
    ensures Sound(b, t) && StepOk(s, t) && (Settled(s.stages) ==> Settled(t.stages))
  {
    RestartKeepsBudgets(b, s, t);
    RestartKeepsGate(s, t);
    RestartOpensNothing(s, t);
  }

  lemma RestartKeepsBudgets(b: Budgets, s: RunRows, t: RunRows)
    requires WithinBudgets(b, s) && Restarted(s, t)
    ensures WithinBudgets(b, t) && StepOk(s, t)
  {
    CountKinds(s.stages, t.stages, RepairStage);
    CountKinds(s.stages, t.stages, ReplanStage);
  }

  lemma RestartOpensNothing(s: RunRows, t: RunRows)
    requires Restarted(s, t)
    ensures forall i, a :: 0 <= i < |t.stages| && 0 <= a < |t.stages[i].attempts| ==>
              var was, now := s.stages[i].attempts[a], t.stages[i].attempts[a];
              (Open(now) ==> Open(was)) && now.checkpoint == was.checkpoint && now.started == was.started
  {
    forall i, a | 0 <= i < |t.stages| && 0 <= a < |t.stages[i].attempts|
      ensures var was, now := s.stages[i].attempts[a], t.stages[i].attempts[a];
              (Open(now) ==> Open(was)) && now.checkpoint == was.checkpoint && now.started == was.started
    {
      assert RowRestarted(s.stages[i], t.stages[i], if s.status == Cancelled then AttemptCancelled else Interrupted);
    }
  }

  lemma RestartKeepsGate(s: RunRows, t: RunRows)
    requires Gate(s) && Restarted(s, t)
    ensures Gate(t)
  {
    if t.status in {Reviewing, ReadyToIntegrate} {
      var v :| FreshAt(s, v);
      assert FreshAt(t, v);
    }
  }

  // ----- one history over many lives of the engine

  /** A killed engine has written a part of its history. */
  lemma {:induction false} HistoryIsPrefixClosed(b: Budgets, log: seq<RunRows>, k: nat)
    requires History(b, log) && 0 < k <= |log|
    ensures History(b, log[..k])
  {
    if k < |log| {
      HistoryIsPrefixClosed(b, log[..|log| - 1], k);
      assert log[..|log| - 1][..k] == log[..k];
    } else {
      assert log[..k] == log;
    }
  }

  lemma LastApart<T>(s: seq<T>, t: seq<T>)
    requires t != []
    ensures s + t == (s + t[..|t| - 1]) + [t[|t| - 1]]
  {
  }

  /** What was written before a restart and what is written after it are one history. */
  lemma {:induction false} HistoriesJoin(b: Budgets, before: seq<RunRows>, after: seq<RunRows>)
    requires History(b, before) && History(b, after) && Restarted(before[|before| - 1], after[0])
    ensures History(b, before + after)
  {
    EveryStateIsSound(b, before, |before| - 1);
    EveryStateIsSound(b, after, |after| - 1);
    LastApart(before, after);
    var front, last := after[..|after| - 1], after[|after| - 1];
    if |after| == 1 {
      RestartKeepsSound(b, before[|before| - 1], last);
      HistoryGrows(b, before, last);
      assert after == [last];
    } else {
      HistoryIsPrefixClosed(b, after, |after| - 1);
      HistoriesJoin(b, before, front);
      assert (before + front)[|before + front| - 1] == after[|after| - 2];
      HistoryGrows(b, before + front, last);
    }
  }

  function Joined(lives: seq<seq<RunRows>>): seq<RunRows> {
    if lives == [] then [] else Joined(lives[..|lives| - 1]) + lives[|lives| - 1]
  }

  /** Each life of the engine writes a history, and each restart leaves the rows the next one begins with.
      A start that is killed is a life of one state. */
  ghost predicate Lives(b: Budgets, lives: seq<seq<RunRows>>) {
    && lives != [] && (forall i :: 0 <= i < |lives| ==> History(b, lives[i]))
    && forall i :: 0 < i < |lives| ==> Restarted(lives[i - 1][|lives[i - 1]| - 1], lives[i][0])
  }

  lemma {:induction false} LivesAreOneHistory(b: Budgets, lives: seq<seq<RunRows>>)
    requires Lives(b, lives)
    ensures History(b, Joined(lives))
    ensures var log, last := Joined(lives), lives[|lives| - 1]; log[|log| - 1] == last[|last| - 1]
  {
    var last := lives[|lives| - 1];
    if |lives| == 1 {
      assert Joined(lives[..0]) == [];
      assert Joined(lives) == last;
    } else {
      LastLifeApart(b, lives);
      LivesAreOneHistory(b, lives[..|lives| - 1]);
      HistoriesJoin(b, Joined(lives[..|lives| - 1]), last);
      LastApart(Joined(lives[..|lives| - 1]), last);
    }
  }

  lemma LastLifeApart(b: Budgets, lives: seq<seq<RunRows>>)
    requires Lives(b, lives) && |lives| > 1
    ensures var front, last := lives[..|lives| - 1], lives[|lives| - 1];
            && Lives(b, front) && History(b, last)
            && var before := front[|front| - 1]; before != [] && Restarted(before[|before| - 1], last[0])
  {
    var n := |lives| - 1;
    assert History(b, lives[n - 1]);
    assert Restarted(lives[n - 1][|lives[n - 1]| - 1], lives[n][0]);
  }

  /** Budgets, the gate and earned progress hold over any number of crashes, restarts and killed restarts. */
  lemma EveryLifeIsSound(b: Budgets, lives: seq<seq<RunRows>>, k: nat)
    requires Lives(b, lives) && k < |Joined(lives)|
    ensures Sound(b, Joined(lives)[k])
    ensures k > 0 && Joined(lives)[k].status != Joined(lives)[k - 1].status ==>
              Edge(Joined(lives)[k - 1].status, Joined(lives)[k].status)
    ensures k > 0 && Joined(lives)[k].status == ReadyToIntegrate != Joined(lives)[k - 1].status ==>
              Joined(lives)[k - 1].status == Reviewing && Earned(Joined(lives)[k - 1]) && Gate(Joined(lives)[k])
  {
    var log := Joined(lives);
    LivesAreOneHistory(b, lives);
    EveryStateIsSound(b, log, k);
    if k > 0 && log[k].status != log[k - 1].status {
      ProgressIsEarned(b, log, k);
      if log[k].status == ReadyToIntegrate { GateOverHistory(b, log, k); }
    }
  }
}
