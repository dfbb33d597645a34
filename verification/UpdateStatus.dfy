/** The persisted status record (packages/shared/src/update.ts, apps/updater/src/state.ts). */
module UpdateStatus {
  import opened Wrappers
  import opened Manifest

  type OpId = nat

  datatype Phase =
    | Idle | Checking | Available | Downloading | ReadyToApply | Applying
    | Restarting | Verifying | Finalizing | Succeeded | Failed | RolledBack

  datatype Stage = PreparingBackup | BackupReady | FilesSwitched | RollingBack

  datatype ErrorCode = RecoveryRequired | OperationFailed | ManifestError(code: string)

  datatype AppliedBackup = AppliedBackup(operationId: OpId, targetVersion: string)

  /** Timestamps, the message, the release notes URL and the fixed `enabled`, `channel` are left out. */
  datatype Status = Status(
    phase: Phase,
    currentVersion: string,
    availableVersion: Option<string>,
    migration: Option<Migrations>,
    operationId: Option<OpId>,
    applyStage: Option<Stage>,
    rollbackBackupOperationId: Option<OpId>,
    lastAppliedBackup: Option<AppliedBackup>,
    error: Option<ErrorCode>)

  predicate IsMutating(p: Phase) {
    p in {Checking, Downloading, Applying, Restarting, Verifying, Finalizing}
  }

  /** createDefaultUpdateStatus: what a missing state file stands for. */
  function DefaultStatus(currentVersion: string): Status {
    Status(Idle, currentVersion, None, None, None, None, None, None, None)
  }
}
