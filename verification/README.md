# Verified models of Wayshard

Wayshard runs coding agents on a private copy of a project and brings their work back.  This project models the
places where its state has to survive crashes, other people's edits, concurrency or an encoding, and proves what
those places are for.  Each module follows one part of the repository:

| module | part of the repository |
|---|---|
| `Workspace`, `Merge` | file metadata, the snapshot-to-final delta, the three-way merge and its publication plan |
| `Publication` | the journal: recheck, publish, classify, recover, with crashes between and inside entries |
| `TreeHash`, `Leb128` | the canonical byte streams of a workspace tree (v3 and v2) and the varint they share with DEX |
| `StartupRecovery` | verify-then-use restore, interrupted attempts after a restart |
| `Completion`, `RunState`, `Orchestrator` | validation outcome, completion policy, the run state machine with its attempt ladder, budgets and cancellation |
| `Restarts` | startup recovery as a restart of each run's rows, which joins the lives of the engine to one history |
| `Cycles` | depth-first search for import cycles |
| `Dex`, `DexFile` | the DEX scanner, and what it reports of any file laid out as the format says |
| `DexBuilder`, `DexRoundTrip` | the synthetic DEX builder, and that the scanner undoes it |
| `Png` | PNG row reconstruction against section 9 of the W3C PNG specification |
| `PendingCalls` | the table of pending JSON-RPC calls under interleaving goroutines |
| `Packer` | context packing under a token budget |
| `Snapshots` | capturing a git source and materializing it, index included |
| `FileTree` | the file tree of the graphical client and its flattening |
| `Bytes`, `Results`, `Domain` | byte strings in order; results that may fail; the status vocabulary |

How to read it.  Code that changes things step by step is a class or a method with loops, proved against
specification predicates and functions; what the system promises is stated in lemmas about those.  A crash is a
parameter: `Fault` in `Publication`, `fuel` (the durable writes left before the process is killed) in
`StartupRecovery`.  A context is a flag that only ever becomes true, looked at at numbered ticks in
`Orchestrator`.  Whatever the code cannot decide itself (harness answers, directory contents while others edit,
failing system calls, interleavings) is a function, a sequence or a parameter that the theorems leave arbitrary.
A content hash is collision free: it is identified with what it digests.

## Where the code keeps less than one might expect

Each of these is proved, with the condition under which the code keeps more; it is exact unless the entry says
otherwise.

- Recovery compares content hashes only.  After a publish stopped anywhere, any number of stopped recoveries and one
  that runs through, none of them torn inside a modification, the source matches an uninterrupted publish down to
  mode and type exactly when every entry that keeps its content and that publish did not reach had its planned
  metadata already (`MetadataIsRecoveredIff`; `MetadataCanBeLost` is a plan that loses a mode).
- Recovery believes a verified mark without looking at the file again.  On a source that has not diverged, a recovery
  that runs through leaves everything published exactly when those marks still hold
  (`CompletedIffVerifiedMarksHold`; `VerifiedMarkCanMislead` is a store where they do not).
- A publish or a recovery that ends between removing a modified file and renaming the new one into place is the one
  thing recovery cannot finish: it classifies the path as diverged and writes nothing.  Publish and any number of
  recoveries end with everything in place exactly when none of them was torn so (`OnlyATornModifyIsStuck`,
  `RestartsStayResumable`).
- `processRun` dereferences the run it re-reads after the assessment without looking at the error
  (internal/orchestrator/machine.go:134).  If the context is cancelled exactly between the status change of the
  assessment and that read, the engine panics and leaves the run open; at every other moment cancellation ends the
  run (`ProcessRun`, with the tick).
- The v2 tree text is ambiguous when a name holds a newline, and sound without; not every such name does harm
  (`V2Collides`, `V2SoundWithoutNewlines`).
- The ULEB128 decoder refuses numbers of more than 42 bits (`RoundTrip`), and the DEX scanner undoes the builder
  exactly when no string holds a NUL (`DexRoundTrip`); repeated names and java.lang descriptors do no harm.
- The DEX scanner numbers the virtual methods of a class on from its last direct one, where the format starts over.
  The methods it calls static are those the format does exactly when no virtual method is static, the direct methods
  end at number 0, or the one virtual number is 0 and both numbers are static anyway (`NumbersAgreeIff`).  Since only
  direct methods are static in a well-formed file, the report is right there.
- Two different import cycles can get the same key when a path holds `>`, and only the first of them is reported.
  Every cycle the search closes is reported, perhaps started elsewhere, exactly when no two of those collide
  (`DetectCycles`).  If no two simple cycles of the imports collide, as when no path holds `>`, every cycle shares an
  edge with a reported one; that is exact where simple cycles share no edges (`AllMetIff`) and a sufficient condition
  where they overlap, since the search need not close both of two cycles that collide.  `KeysLoseACycle` has two
  pairs of files that lose one.
- The PNG reader accepts an image whose last row breaks off, if that row is unfiltered, or a single pixel wide
  under the filter that looks left (`PixelsAreTheRows`; three bytes of this kind in `HalfAPixelIsRead`).
- A workspace materialized from a snapshot has the source's index back exactly when nothing was staged as a rename
  (`IndexComesBack`).
- In the file tree, everything shows exactly when no given path comes before every path that lies inside it while
  there is one: such a path becomes a file and hides what is below it (`AllNodesShow`; `FileFirstHides` and
  `DirectoryFirstShows` are the same two paths in either order).

## Model

| member | source | states |
|---|---|---|
| Workspace.EqualIsIdentity | internal/workspace/tree.go:42-50 | on metadata read from disk, Equal compares everything there is, and two missing paths are equal |
| Workspace.ComputeDelta | internal/workspace/delta.go:45-92 | the delta lists exactly the changed paths, once and in order, each with its kind, both metadata and whether the user had touched it |
| Bytes.LessAtFirstDifference | internal/integration/integrate.go:361-361 | the order of paths: a proper prefix first, and otherwise the smaller byte where two paths first differ |
| Merge.ThreeWay | internal/integration/integrate.go:346-390 | conflicts are exactly the paths both sides changed differently, with their reason; the plan is exactly the paths only the run changed, each with the entry for it |
| Merge.ReasonByCase | internal/integration/integrate.go:392-405 | in a conflict at most one version is missing; the reason says which one, and if none is, whether the two sides agree on the kind |
| Merge.EntryByCase | internal/integration/integrate.go:407-428 | a planned entry creates exactly what the source lacks, deletes exactly what the run lacks, and carries what is there before and all metadata of what comes after |
| Merge.PlanIsOk | internal/integration/integrate.go:346-428 | a merge's plan has distinct paths in order and every entry is one entryFor makes from real metadata |
| Merge.ConflictsAreSymmetric | internal/integration/integrate.go:346-405 | swapping ours and run leaves the conflicting paths the same |
| Merge.MergeKeepsBothSides | internal/integration/integrate.go:346-390 | without conflicts, applying the plan to ours keeps every change of the user and every change of the run, and invents nothing |
| Merge.MergeIsIdempotent | internal/integration/integrate.go:346-390 | merging again after applying gives no conflict and an empty plan |
| Merge.UntouchedSourceTakesRun | internal/integration/integrate.go:346-390 | when ours is still base there is no conflict, the plan's paths are ComputeDelta's and the result is the run's tree |
| Publication.Publisher.Recheck | internal/integration/integrate.go:430-454 | passes exactly when every path is still in its entry's before state |
| Publication.Publisher.Apply | internal/integration/integrate.go:572-654 | what a write, a write that fails before, between or after its remove and its rename, and a crash inside a write leave at the path, and nowhere else |
| Publication.Publisher.Publish | internal/integration/integrate.go:533-570 | the exact source and journal after publishing under any fault, errors with the entry already in place among them, and that it completes exactly when the fault is not reached |
| Publication.Publisher.Integrate | internal/integration/integrate.go:164-325 | nothing is written when the branch moved, the merge conflicts or the source changed before the recheck; otherwise the plan is published |
| Publication.Publisher.ClassifyJournal | internal/integration/integrate.go:738-772 | writes nothing; undisturbed, says diverged if any entry is, completed if all are, and incomplete otherwise |
| Publication.Publisher.RecoverPublication | internal/integration/integrate.go:806-874 | whatever others do between entries, each write lands on a path then in the journal's before state, and a first look that finds a path with neither content writes nothing; undisturbed, the exact resulting state, and untouched exactly when some path is foreign so |
| Publication.Publisher.RecoverEntry | internal/integration/integrate.go:826-865 | one entry: skipped if verified or already written, refused if its path holds neither its before nor its after content, else written, checked and saved, under any fault |
| Publication.EntryClasses | internal/integration/integrate.go:774-802 | a written entry is completed, one that passed the recheck is not diverged, and a removed path is diverged only for a modification |
| Publication.ClassesByContent | internal/integration/integrate.go:774-802 | each of the three classes in terms of the operation, whether the path is missing, and the hashes |
| Publication.WritesFindTheBeforeState | internal/integration/integrate.go:826-865 | every write of a recovery, among whatever others do meanwhile, finds its path missing if it creates and with the recorded hash if it modifies or deletes |
| Publication.ForeignStopsRecovery | internal/integration/integrate.go:806-825 | the source is called diverged exactly when a path holds neither its before nor its after content, by operation, absence and hash, and recovery then changes nothing |
| Publication.PublishLeavesResumable | internal/integration/integrate.go:533-570 | stopping publish anywhere but inside a modification leaves a state recovery can finish from |
| Publication.RecoveryKeepsResumable | internal/integration/integrate.go:806-874 | stopping recovery anywhere keeps that, and an unstopped recovery completes every entry |
| Publication.RestartsStayResumable | internal/integration/integrate.go:806-874 | any number of stopped recoveries keep it, unless one of them is torn inside a modification, and then the source has diverged |
| Publication.CrashConvergence | internal/integration/integrate.go:533-570 | publish stopped anywhere, recovery stopped any number of times, none torn inside a modification, then one that runs through: every planned path has the content of an uninterrupted publish and every other path is unchanged |
| Publication.OnlyATornModifyIsStuck | internal/integration/integrate.go:592-599 | after a publish and any recoveries, stopped anywhere, a last recovery gets everything published exactly when neither publish nor any of them was torn inside a modification; after one that was, no recovery ever changes anything |
| Publication.MetadataIsRecoveredIff | internal/integration/integrate.go:774-802 | after any stops of publish and of recoveries, none torn inside a modification, and a recovery that runs through, the source equals an uninterrupted publish, metadata included, exactly when every entry that keeps its content and that publish did not reach already had its planned metadata |
| Publication.CompletedIffVerifiedMarksHold | internal/integration/integrate.go:826-830 | on a source that has not diverged, a recovery that runs through leaves every entry in its after state exactly when each verified entry was still there |
| Publication.MetadataCanBeLost | internal/integration/integrate.go:774-802 | one plan and source where a recovery leaves the old mode |
| Publication.VerifiedMarkCanMislead | internal/integration/integrate.go:826-830 | one state where a verified mark is believed and its path is not as planned in the end |
| Publication.MergePassesRecheck | internal/integration/integrate.go:430-454 | the plan of a conflict-free merge passes the recheck on an unchanged source |
| Publication.EndToEnd | internal/integration/integrate.go:164-325 | from the merge through crashes and recoveries, every path the run changed ends with the run's content and every path the user changed with the user's |
| Leb128.PutUvarint | scripts/release/android-keystore-verify.py:202-211 | the bytes written are the base-128 digits, low ones first |
| Leb128.UvarintDigits | scripts/release/android-keystore-verify.py:202-211 | the bytes have the value of the number to base 128, each but the last with the continuation bit, and the last is not a needless zero |
| Leb128.UvarintSplits | internal/workspace/treehash.go:169-194 | no varint is a prefix of another |
| Leb128.Uleb128 | scripts/release/android-keystore-verify.py:47-60 | the loop returns the number and next offset, or the error, of the digit-wise definition |
| Leb128.DecodeEncoded | scripts/release/android-keystore-verify.py:47-60 | decoding an encoded number at any place in any data gives it back exactly if it fits, and fails as too long otherwise |
| Leb128.RoundTrip | scripts/release/android-keystore-verify.py:202-211 | the limit is 42 bits |
| TreeHash.CollectTree | internal/workspace/treehash.go:110-163 | whatever the order of the walk, the entries are the tree's, sorted by path |
| TreeHash.WriteV3 | internal/workspace/treehash.go:169-194 | the bytes fed to the hash are the v3 stream of the entries |
| TreeHash.ShortEntryBytes | internal/workspace/treehash.go:169-194 | the bytes of each kind of entry with short names: the kind, the length and the path, then the executable bit and the digest, or the length and the target |
| TreeHash.EntrySplits | internal/workspace/treehash.go:169-194 | two entries followed by anything give the same bytes only if entries and rests agree |
| TreeHash.EncodeAllInjective | internal/workspace/treehash.go:169-194 | entry lists with the same bytes are the same |
| TreeHash.V3IsCanonical | internal/workspace/treehash.go:110-194 | two trees have the same v3 stream exactly when they are the same tree |
| TreeHash.V2Collides | internal/workspace/treehash.go:73-81 | two trees with the same v2 text and different v3 streams, by a newline in a name |
| TreeHash.V2SoundWithoutNewlines | internal/workspace/treehash.go:24-82 | without newlines in names the v2 text determines all that it records |
| TreeHash.LineText | internal/workspace/treehash.go:24-82 | the v2 line of each kind of entry |
| StartupRecovery.DigestNamesOneTree | internal/workspace/verified_restore.go:43-91 | a workspace restored to a checkpoint's digest holds exactly that checkpoint's files |
| StartupRecovery.LatestFor | internal/recovery/recovery.go:85-98 | the last checkpoint row made for this very attempt, never another attempt's |
| StartupRecovery.Store.RestoreSnapshot | internal/workspace/restore.go:14-36 | the workspace is untouched, removed, or exactly the snapshot's files; success means the last, and an undisturbed directory whose walk and operations do not fail is restored |
| StartupRecovery.Store.RestoreVerified | internal/workspace/verified_restore.go:43-126 | whatever others do to the checkpoint directory meanwhile, the workspace is touched only after a private copy had the expected hash, success leaves the files of a tree with that hash, and an intact undisturbed directory is restored |
| StartupRecovery.Store.RestoreWriteCheckpoint | internal/recovery/recovery.go:104-145 | success means the workspace of that run holds the tree with the hash of the linked row or, without a link, of the last row of that stage and attempt; a link to no row fails; no other workspace changes; an intact checkpoint is restored |
| StartupRecovery.Store.ReconcileAttempt | internal/recovery/recovery.go:170-201 | an open write attempt is closed only once its workspace is restored or its run blocked |
| StartupRecovery.Store.ReconcileTerminalRuns | internal/recovery/recovery.go:20-50 | exactly the open attempts and running stages of terminal runs with an open attempt are closed, as cancelled or interrupted |
| StartupRecovery.Store.Reconcile | internal/recovery/recovery.go:150-209 | one start, killed or not: rows only close, interrupted write attempts are handled, and a settled store does not change |
| StartupRecovery.OnePassSettles | internal/recovery/recovery.go:150-209 | a start that is not killed leaves no open attempt and no running stage of an active run |
| StartupRecovery.OnePassCloses | internal/recovery/recovery.go:20-83 | row by row, what a start that is not killed writes: open attempts cancelled with their run or else interrupted, running stages interrupted, everything else as it was |
| StartupRecovery.SettledStays | internal/recovery/recovery.go:150-209 | a second pass changes nothing |
| StartupRecovery.StartsAreSafe | internal/recovery/recovery.go:176-181 | over any number of starts, each killed anywhere, an interrupted write attempt is still open, or its run is blocked, or its workspace holds the checkpoint its row links to or, without a link, the last one made for it |
| StartupRecovery.InterruptedWritesComeBack | internal/recovery/recovery.go:85-145 | after a start that is not killed, the run of an interrupted write attempt is blocked for recovery, or its workspace holds the tree of checkpoint row c, where c is the attempt's link or, without one, the last row with its stage and attempt |
| StartupRecovery.BothPhases | internal/recovery/recovery.go:150-209 | the two passes together have the effect of one start |
| Completion.RunChecks | internal/validation/discover.go:70-95 | every planned check is recorded with the status it came back with and the baseline of its name, and the failure lists are exactly those of the checks |
| Completion.ListedByStatus | internal/validation/discover.go:70-95 | the lists name exactly the checks that failed and had not failed at baseline, or were required with none; the warnings; and what was skipped or not verified |
| Completion.IntegrateIff | internal/orchestrator/completion.go:11-52 | the policy integrates exactly when nothing is pending, the validation is clear and the review neither rejects nor asks for more |
| Completion.ClearIff | internal/orchestrator/completion.go:11-52 | the policy's scans find nothing exactly when no check regressed and no required check was stopped |
| Completion.BaselineFailuresAreNeutral | internal/orchestrator/completion.go:11-52 | failures already present at baseline decide nothing |
| Completion.RepairForcedIff | internal/orchestrator/completion.go:11-52 | repair is forced exactly by an unclear validation or a rejecting review with a blocking finding |
| Completion.PolicyOutcome | internal/orchestrator/completion.go:11-52 | every outcome of the policy, from the pending approvals, the checks one by one, the verdict and whether there is anything to integrate |
| RunState.WithDefaults | internal/orchestrator/budget.go:34-49 | every budget is positive, one that was positive already is kept, and the others are 32, 3, 2 and 3 |
| RunState.StageForStatus | internal/orchestrator/machine.go:223-242 | the stage of a working status stands for that status, and each kind but planning for that one only |
| RunState.CountIsByKind | internal/orchestrator/budget.go:52-74 | what is compared with the repair and replan budgets is the number of stages of that kind |
| RunState.LatestIsLast | internal/orchestrator/machine.go:661-668 | the latest validation is the last final one among the artifacts, and there is none only if there is no final one |
| RunState.EveryStateIsSound | internal/orchestrator/machine.go:346-510 | what a history is, state by state (that the engine writes one is Orchestrator.Engine.ProcessRun's postcondition): budgets kept, at most one attempt open, no write attempt started before its checkpoint, the gate closed or earned, terminal runs settled |
| RunState.GateOverHistory | internal/orchestrator/machine.go:648-693 | ready_to_integrate is entered only from reviewing, after a succeeded validate and then a succeeded review, with nothing written in between and a clear latest validation |
| RunState.ProgressIsEarned | internal/orchestrator/machine.go:648-672 | a run moves only along the edges of the workflow, forward only after its stage succeeded, and never out of a terminal status |
| RunState.CancelKeepsSound | internal/storage/cancel.go:16-93 | cancelling in any state settles every attempt, stage and approval and keeps the rest sound |
| RunState.CancelledByRow | internal/storage/cancel.go:16-93 | row by row, what cancelling writes: the run cancelled, open attempts cancelled, running stages interrupted, no approval pending, and everything else as it was |
| RunState.RestartKeepsSound | internal/recovery/recovery.go:150-209 | the rows a start leaves, killed or not, are sound, one allowed step on, with nothing opened |
| RunState.HistoriesJoin | internal/recovery/recovery.go:150-209 | what was written before a restart and what is written after it are one history |
| RunState.LivesAreOneHistory | internal/recovery/recovery.go:150-209 | and so are any number of lives of the engine with restarts, killed ones too, between them |
| RunState.EveryLifeIsSound | internal/orchestrator/machine.go:346-510 | so budgets, the gate and the edges of the workflow hold over all of them together |
| Restarts.StartRestarts | internal/recovery/recovery.go:150-209 | whatever one start does to the store, killed or not, is such a restart of every run's rows |
| Restarts.EngineResumes | internal/recovery/recovery.go:150-209 | the rows found at a crash and the rows the start leaves continue the run's history, and a start that is not killed leaves them settled, as the engine needs them |
| Restarts.OneOpenForRecovery | internal/recovery/recovery.go:157-201 | the engine's rows never have two open attempts in a run, which recovery relies on |
| Restarts.LaunchedWritesHaveACheckpoint | internal/recovery/recovery.go:85-98 | a write attempt the harness was launched for has a checkpoint row for recovery to find |
| RunState.ArtifactArrives | internal/orchestrator/machine.go:596-610 | storing an artifact keeps the rows sound, and only a final validation becomes the latest one |
| RunState.GateOpens | internal/orchestrator/machine.go:674-693 | a clear validation and a succeeded review open the gate |
| Orchestrator.Engine.CancelRun | internal/storage/cancel.go:16-93 | a terminal run is untouched; otherwise run, attempts, stages and approvals move together |
| Orchestrator.Engine.CompareAndSet | internal/storage/orchestration.go:269-290 | the status changes exactly when it is the expected one and the context lives |
| Orchestrator.Engine.UpdateRunStatus | internal/storage/orchestration.go:246-267 | unguarded: the status is set whenever the context lives |
| Orchestrator.Engine.BudgetExhausted | internal/orchestrator/budget.go:52-74 | over budget exactly when the stages, repairs or replans have reached their limit |
| Orchestrator.Engine.CheckpointBeforeWrite | internal/orchestrator/checkpoint.go:17-53 | success means the attempt's own checkpoint row is durable |
| Orchestrator.Engine.LaunchAttempt | internal/orchestrator/machine.go:428-437 | an attempt is appended, checkpointed if it writes, and only then executed; a failed checkpoint fails the stage |
| Orchestrator.Engine.Persist | internal/orchestrator/machine.go:596-610 | a parsed output is stored once; other output is not stored |
| Orchestrator.Engine.Advance | internal/orchestrator/machine.go:648-672 | where each succeeded stage sends the run |
| Orchestrator.Engine.AfterReview | internal/orchestrator/machine.go:661-668 | after a review the policy decides, on the latest validation and the pending approvals |
| Orchestrator.Engine.FailStage | internal/orchestrator/machine.go:612-624 | where each class of failure sends the run |
| Orchestrator.Engine.RunLadder | internal/orchestrator/machine.go:417-510 | by the results the harness served, with a live context: the stage succeeds exactly if the last one is an output, and the run goes where that kind of stage leads, after a review by the policy on the rows; a failure that is not infrastructure ends it with its class's status; an infrastructure failure goes on while candidates and attempts remain; malformed output gets one correction; every attempt is marked by its result; nothing is left open and no budget exceeded |
| Orchestrator.Engine.RunHarness | internal/orchestrator/machine.go:380-413 | with a live context: without a route the stage fails and the run is blocked, without a prepared workspace both fail, and otherwise the ladder runs over the candidate and its fallbacks |
| Orchestrator.SuccessLeadsOn | internal/orchestrator/machine.go:648-672 | the edge of each kind of stage written out, and for a review each outcome of the policy with its condition on the rows |
| Orchestrator.Engine.RunValidate | internal/orchestrator/machine.go:512-558 | with a live context: without a copy of the workspace stage and run fail; otherwise every check ran, compared with the first baseline by name, the validation is stored for this stage, which succeeded, and the run is under review |
| Orchestrator.Engine.RunStage | internal/orchestrator/machine.go:346-510 | at most one stage is appended, none beyond the budget, the stage is over on return, and with a live context it ended by the ladder or the validation |
| Orchestrator.CooperationSucceeds | internal/orchestrator/machine.go:346-510 | a stage whose route, checkpoint and harness all cooperate succeeds, whatever its kind |
| Orchestrator.Engine.Round | internal/orchestrator/machine.go:141-166 | one turn of the loop, with a live context: over budget the run is blocked for it, else the stage of its status ran and its outcome decides the next status |
| Orchestrator.Engine.EnsureBaseline | internal/orchestrator/machine.go:248-298 | at most one baseline validation, none for an artifact-only task, nothing else changes; with a live context one is taken, of the checks as they ran, whenever there is none, the workspace can be captured and there are checks |
| Orchestrator.BaselineByName | internal/orchestrator/machine.go:248-298 | a check is compared with the status of the last check of its name in the first baseline, and with nothing when there is no baseline |
| Orchestrator.Engine.RunIntegrator | internal/orchestrator/machine.go:702-718 | complete exactly when no integrator is there or it published |
| Orchestrator.Engine.Assess | internal/orchestrator/machine.go:179-221 | while the context lives: on to exploring exactly if the task is ambiguous and to planning otherwise, and marked artifact-only if it is |
| Orchestrator.Engine.DriveRun | internal/orchestrator/machine.go:113-168 | the loop ends, with the remaining stage budget as its measure, at a status without work |
| Orchestrator.Engine.ProcessRun | internal/orchestrator/machine.go:97-107 | cancelled before any chosen store call, the run ends terminal and settled, with no approval pending if it ends cancelled, unless the engine panicked, and when it panics; every durable state on the way is sound; and with a live context and a harness that cooperates every stage succeeds |
| Cycles.CycleKey | internal/knowledge/discover.go:578-591 | the key is the cycle read from its first least node |
| Cycles.RotationsShareTheKey | internal/knowledge/discover.go:578-591 | rotations of one simple cycle have the same key |
| Cycles.SameKeyIsRotation | internal/knowledge/discover.go:578-591 | without the separator in a path, the same key means a rotation |
| Cycles.NoSeparatorNoCollision | internal/knowledge/discover.go:578-591 | so no two simple cycles collide when no unbroken edge holds it |
| Cycles.BuildGraph | internal/knowledge/discover.go:513-519 | the graph has exactly the edges that are not broken |
| Cycles.CycleFromStack | internal/knowledge/discover.go:563-576 | the stack from the first place of the node on, closed up with it |
| Cycles.ClosesACycle | internal/knowledge/discover.go:536-543 | an edge back into the stack closes a simple cycle of the graph |
| Cycles.EveryCycleIsMet | internal/knowledge/discover.go:528-560 | after a finished search every cycle goes through an edge that closed a cycle found |
| Cycles.Search.Dfs | internal/knowledge/discover.go:528-549 | the visit ends, keeps the colours, blackens the node and only adds findings |
| Cycles.DetectCycles | internal/knowledge/discover.go:512-561 | reported paths are simple cycles of unbroken edges, no two are rotations or share a key, none are reported exactly if there is no cycle; every cycle closed is reported exactly when no two of those collide, and every cycle shares an edge with a reported one if no two simple cycles collide |
| Cycles.FoundIsReportedIff | internal/knowledge/discover.go:536-543 | of the cycles closed all are reported, up to rotation, exactly when no two collide |
| Cycles.AllMetIff | internal/knowledge/discover.go:512-561 | where simple cycles share no edges, every cycle meets a reported one exactly when no two collide |
| Cycles.KeysLoseACycle | internal/knowledge/discover.go:536-543 | four edges whose two cycles collide: whatever is reported, one cycle shares no edge with it |
| Dex.Scan | scripts/release/android-keystore-verify.py:92-154 | the tables are read entry by entry and the first error wins; the result is the scanner's specification on any data |
| Dex.ParseClassDataMethods | scripts/release/android-keystore-verify.py:70-89 | fields are skipped and method indices accumulate |
| Dex.FindNul | scripts/release/android-keystore-verify.py:63-67 | the first NUL at or after an offset, if there is one |
| DexFile.ClassDataRead | scripts/release/android-keystore-verify.py:70-89 | of class data with any static and instance fields, direct and virtual methods, differences and flags: the fields are skipped and each method has the sum of the differences up to its own |
| DexFile.ScanOfClass | scripts/release/android-keystore-verify.py:92-154 | of any file laid out as the format says: the report on a class is the names of its own methods, and as static exactly those the class data lists with bit 3 set |
| DexFile.ScanOfEmptyClass | scripts/release/android-keystore-verify.py:92-154 | a class without class data has its methods and no static ones |
| DexFile.ScanOfAbsentClass | scripts/release/android-keystore-verify.py:92-154 | of a class the file does not define there is no report |
| DexFile.NumbersAgreeIff | scripts/release/android-keystore-verify.py:70-89 | numbering the virtual methods on from the direct ones finds the methods the format calls static exactly when no virtual method is static, the direct ones end at number 0, or the overlap hides it |
| DexBuilder.BuildDex | scripts/release/android-keystore-verify.py:214-355 | the file has the layout of the image, or an error if its size takes more than 32 bits |
| DexRoundTrip.PackedNumbersFit | scripts/release/android-keystore-verify.py:273-350 | no packed number needs more than 32 bits if the file size does not |
| DexRoundTrip.MapIsInOrder | scripts/release/android-keystore-verify.py:295-313 | the map is in ascending offset order with its own entry last |
| DexRoundTrip.TablesAreInOrder | scripts/release/android-keystore-verify.py:220-252 | strings are sorted, types by the index of their descriptor, methods by the index of their name |
| DexRoundTrip.MapAgreesWithHeader | scripts/release/android-keystore-verify.py:297-313 | every section in the map has the size and offset that the header, the prototype, the class and the first string give it |
| DexRoundTrip.ImageLaidOut | scripts/release/android-keystore-verify.py:269-355 | every section of an image stands where its header says |
| DexRoundTrip.ImageStands | scripts/release/android-keystore-verify.py:269-355 | an image is a file of the general layout, with its strings as read up to a NUL, and its class data lists the methods one after another |
| DexRoundTrip.ScanOfImage | scripts/release/android-keystore-verify.py:92-154 | the scanner finds the class and its names as read up to a NUL, all static, and nothing else |
| DexRoundTrip.DexRoundTrip | scripts/release/android-keystore-verify.py:214-355 | scanning undoes building, for the descriptor and for every other one, exactly when no string holds a NUL |
| DexRoundTrip.BuiltIsSealed | scripts/release/android-keystore-verify.py:315-355 | magic, sizes and offsets are those of the file, the signature is over everything behind it, and the checksum over that and the signature |
| DexRoundTrip.BuiltIsOneClass | scripts/release/android-keystore-verify.py:269-355 | what the scanner does not read: one prototype from a string to a string, and one public class below Object with nothing else to it |
| Png.RebuildInvertsFilter | scripts/release/icon_policy.py:97-117 | for every filter, row and previous row, rebuilding inverts filtering and filtering inverts rebuilding |
| Png.Reconstruct | scripts/release/icon_policy.py:97-119 | the loop over one row in place gives the row of the standard, an index error or an unknown filter |
| Png.PaethByte | scripts/release/icon_policy.py:109-117 | one byte of the loop has the Paeth predictor on the bytes already rebuilt |
| Png.PaethIsNearest | scripts/release/icon_policy.py:109-117 | the predictor is the one of the three neighbours nearest to a + b - c, left before above before above left among the nearest |
| Png.RebuiltByte | scripts/release/icon_policy.py:97-119 | each byte of a row by the filter and its neighbours, with none to the left of the first pixel counting as zero, and no predictor named |
| Png.ReadRows | scripts/release/icon_policy.py:89-122 | the whole loop gives the pixels or the first error |
| Png.PixelsAreRebuilt | scripts/release/icon_policy.py:89-122 | every byte of an image whose rows are all there, by its filter and its neighbours, the row above the first counting as zero |
| Png.EveryImageIsEncoded | scripts/release/icon_policy.py:89-122 | every image has an encoding under every choice of filters per row |
| Png.EncodedIsRead | scripts/release/icon_policy.py:89-122 | an encoded image is read back, whatever follows it |
| Png.ReadIsEncoded | scripts/release/icon_policy.py:89-122 | whatever is read was encoded so |
| Png.PixelsAreTheRows | scripts/release/icon_policy.py:89-122 | the reader accepts exactly the encodings, broken-off last rows included, and returns the encoded pixels |
| Png.HalfAPixelIsRead | scripts/release/icon_policy.py:89-122 | three bytes for one row of one pixel: read without a filter or under the left one, refused under the one that looks above |
| PendingCalls.DecimalInjective | internal/acp/driver.go:479-484 | two calls never share a key |
| PendingCalls.DecimalReads | internal/acp/driver.go:479-484 | the key of a call is the decimal text of its number |
| PendingCalls.StepKeepsGood | internal/acp/driver.go:442-534 | every critical section and channel operation keeps the table sound |
| PendingCalls.RunKeepsGood | internal/acp/driver.go:442-534 | and so does every interleaving of them |
| PendingCalls.CallsResolveOnce | internal/acp/driver.go:442-534 | no channel gets two sends and no sender blocks; an answer carries the call's own id; a returned call is not in the table; a waiting call is not lost |
| PendingCalls.AnswersAreBrought | internal/acp/driver.go:442-534 | after any interleaving an answer is on its way to a call, in its channel or returned by it exactly when a response or a failure brought it while the call was in the table |
| PendingCalls.AnsweredWithWhatCame | internal/acp/driver.go:497-509 | an answered call returned the body of a response that arrived with its own id, or the error everyone was failed with |
| PendingCalls.Driver.NewCall | internal/acp/driver.go:479-484 | every call gets a number no call had before |
| PendingCalls.Driver.Register | internal/acp/driver.go:482-486 | the call is entered under its own id |
| PendingCalls.Driver.HandleResponse | internal/acp/driver.go:642-655 | a known id leaves the table with one send of this body to its call under way; an unknown one changes nothing |
| PendingCalls.Driver.FailEveryone | internal/acp/driver.go:451-459 | the table is emptied and each of its calls has exactly one failure with this error under way |
| PendingCalls.Driver.Send | internal/acp/driver.go:654-654 | a send always finds room |
| PendingCalls.Driver.Answer | internal/acp/driver.go:497-509 | the call returns what is in its channel, an answer to its own id, and is not in the table |
| PendingCalls.Driver.DropPending | internal/acp/driver.go:530-534 | a call that gives up is not in the table |
| Packer.TruncationIsExact | internal/ctxengine/engine.go:511-520 | cutting a body with too many tokens leaves exactly as many as asked for |
| Packer.HashedTextDetermines | internal/ctxengine/engine.go:450-460 | what is hashed of an item determines its kind, path and body when no kind or path holds a NUL |
| Packer.TruncateToTokens | internal/ctxengine/engine.go:511-520 | the longest start with no more tokens than asked for; asked for none, the whole text |
| Packer.EstimateTokens | internal/ctxengine/engine.go:500-509 | n tokens for more than four times n - 1 and at most four times n bytes |
| Packer.Packer.Add | internal/ctxengine/engine.go:446-475 | an item is skipped, packed whole exactly if it fits, cut exactly if it does not and the rest is worth it, and otherwise omitted |
| Packer.PackAll | internal/ctxengine/engine.go:446-475 | over any adds: used is the sum of the tokens and within a positive budget, each kept item has one fate in order, at most one is cut and then the budget is used up |
| Packer.NothingIsDropped | internal/ctxengine/engine.go:446-475 | packed and omitted items together are as many as the submitted ones |
| Snapshots.CaptureStagedBlobs | internal/workspace/snapshot.go:228-255 | a staged blob is kept aside exactly if the worktree does not hold it |
| Snapshots.Workspace.Overlay | internal/workspace/snapshot.go:306-327 | from any clone, the worktree becomes the snapshot's files |
| Snapshots.Workspace.RestoreIndex | internal/workspace/snapshot.go:329-377 | the worktree is as before, and each staged path has its blob, its worktree content or nothing in the index |
| Snapshots.IndexComesBack | internal/workspace/snapshot.go:153-377 | capture and materialize give the index back exactly when nothing was staged as a rename |
| Snapshots.Materialize | internal/workspace/snapshot.go:273-304 | the whole way, from a repository and its status: each path of the worktree, ignored and untracked ones left out, and the index under the same condition |
| FileTree.BuildModel | clients/gui/src/app/file-tree-model.ts:34-72 | every prefix of a path is a node, once, listed under its parent with the directories first; it is a directory exactly when the first given path that starts with it is longer |
| FileTree.SortKeepsNodes | clients/gui/src/app/file-tree-model.ts:64-69 | sorting loses and invents no node |
| FileTree.SortPutsDirectoriesFirst | clients/gui/src/app/file-tree-model.ts:64-69 | among siblings the directories come first |
| FileTree.SortIsInOrder | clients/gui/src/app/file-tree-model.ts:64-69 | siblings of one kind are ordered by name, and as given where the names do not decide |
| FileTree.Flatten | clients/gui/src/app/file-tree-model.ts:74-89 | the explicit stack ends and yields the recursive pre-order |
| FileTree.RowsAreTheReached | clients/gui/src/app/file-tree-model.ts:74-89 | each node reached through expanded directories, and no other, has one row, at the level of its depth |
| FileTree.RowsAreInOrder | clients/gui/src/app/file-tree-model.ts:74-89 | a row comes before the rows below it, and siblings come with all that is below them in the order they are listed |
| FileTree.AllNodesShow | clients/gui/src/app/file-tree-model.ts:34-89 | with everything expanded, every node shows exactly when no given path with others inside it comes before all of them |
| FileTree.SeparateFilesAllShow | clients/gui/src/app/file-tree-model.ts:34-89 | so everything shows when no given path lies inside another |
| FileTree.FileFirstHides | clients/gui/src/app/file-tree-model.ts:42-44 | a path and then one inside it: a node does not show |
| FileTree.DirectoryFirstShows | clients/gui/src/app/file-tree-model.ts:42-44 | the same two the other way round: everything shows |

## Left out

- HTTP, WebSocket, command line, terminal, desktop and mobile surfaces, installers: no state of their own to prove.
- Directories as such: trees are flat maps from paths, so prefix clashes, pruneEmpty, symlink escapes and the Windows rename fallback are not modelled; `TreeHash` alone has directory entries.
- SQLite, git, SHA-1, SHA-256, Adler-32, zlib, JSON and Unicode white space: abstract functions, parameters or atomic steps.
- Store errors while the context lives: only a cancelled context makes a store call fail, and it then reads as the code reads it.
- CrashConvergence: contents, not mode or type, because recovery compares content hashes; MetadataIsRecoveredIff says when those follow too.
- Publication.Publisher.Publish: no claim under edits made after the recheck, because publish does not look again; others edit between entries in recovery only, not between an entry's check and its write.
- Restarts.EngineResumes: the budgets are the same before and after a restart; whether the harness was launched and which artifacts are stored are not rows that recovery reads, so they are parameters.
- Copying blobs into the journal is taken to be faithful: the run workspace does not change between the walk and the copy.
- StartupRecovery.Store.RestoreVerified: the filesystem backend; with a git backend the metadata file beside the tree is outside the hash.
- StartupRecovery.Store.FailRestore: closing the attempt and blocking the run are one step, as at internal/recovery/recovery.go:189-190; steps 4 and 5 of Reconcile and debris cleaning are not modelled.
- Orchestrator.Engine.UpdateRunStatus: the engine alone writes the run; status writes by API handlers beside a running engine, and the manual integration endpoint that bypasses the gate, are not modelled.
- Orchestrator.Engine.RunLadder: which candidate serves an attempt, usage, route decisions, context bundles and events are not recorded.
- The plan artifact is kept only as far as it marks a task artifact-only; the contents of other artifacts are not.
- Cycles.DetectCycles: which of several rotations is reported, and the order of reports, are left open.
- Dex.Scan: strings are their bytes, so the replacement of malformed UTF-8 is not modelled; zip containers and verify_bytes are not.
- Png.ReadRows: chunk parsing and decompression come before it.
- PendingCalls: wrap-around of the 64-bit id counter and the limit on calls in flight are not modelled; a call may give up at any time, which covers every reason the code has.
- Packer.Packer.Add: the reason text of an omitted item is a constant; provenance and authority are carried along unread.
- Snapshots.Workspace.RestoreIndex: a git command that fails makes the whole fail, whatever its reason; file modes, unmerged entries and subdirectory roots are not modelled.
- FileTree.BuildModel: path normalization and the platform's order of names are parameters; the live variant of the flattening is the same loop.
- Locks and leases, process launch, signals, terminals, timers, discovery of harnesses and the event hub, which drops frames by design.
