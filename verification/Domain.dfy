/** The status vocabulary shared by the orchestrator and startup recovery. */
module Domain {
  datatype RunStatus = Queued | Assessing | Planning | Exploring | Executing | Validating | Reviewing | Repairing
                     | Replanning | ReadyToIntegrate | Integrating | Complete | Blocked | Failed | Cancelled
                     | IntegrationBlocked | SafeMode
  {
    predicate Terminal() { this in {Complete, Failed, Cancelled} }
  }

  datatype StageKind = PlanStage | ExploreStage | ExecuteStage | ValidateStage | ReviewStage | RepairStage | ReplanStage
  {
    predicate WritesWorkspace() { this in {ExecuteStage, RepairStage} }
  }

  datatype AttemptStatus = Pending | Running | Succeeded | AttemptFailed | Interrupted | AttemptCancelled | Invalid

  datatype BlockedReason = NoReason | NoViableRoute | Budget | User | Policy | Recovery | Integration
}
