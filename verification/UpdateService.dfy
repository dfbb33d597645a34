/**
 The update service (apps/updater/src/update-service.ts) in the program's own order of effects.

 Every durable effect goes through `Put`, which may also die before or after the effect; every external
 command goes through `Command`, which may fail or die. `run` records each durable state there has been.
 `Put` asks that the next durable state be `Sound` and a `Step` from the last one, so what a method
 proves by calling it holds at every instant at which the process can crash inside that method.
 */
module Updater {
  import opened Wrappers
  import opened Manifest
  import opened UpdateStatus
  import opened UpdaterAdmission
  import opened UpdaterSpec
  import SemVer

  /** How a call ends: normally, by throwing, or not at all because the process died. */
  datatype Outcome = Done | Threw(code: ErrorCode) | Crashed {
    predicate IsFailure() { !Done? }
    function PropagateFailure(): Outcome
      requires IsFailure()
    {
      this
    }
  }

  /** mergeEnvContent: the version and image keys are replaced, every other line is kept. */
  function MergeEnv(env: EnvFile, m: ReleaseManifest): EnvFile {
    EnvFile(Some(m.version), m.images, env.otherLines)
  }

  class UpdateService {
    const configured: string
    const channel: Channel
    const updaterVersion: string

    var disk: Disk
    var activeOperationId: Option<OpId>
    var nextId: OpId

    ghost var book: Book
    ghost var run: seq<Snapshot>

    ghost function Now(): Snapshot
      reads `disk, `book
    {
      Snapshot(disk, book, configured)
    }

    ghost predicate Valid()
      reads `disk, `book, `run, `nextId
    {
      && IsRun(run) && run != [] && run[|run| - 1] == Now() && Sound(Now())
      && (forall x <- book.origin :: x < nextId)
    }

    constructor (installed: Disk, configured: string, channel: Channel, updaterVersion: string)
      requires installed.env.version == Some(configured) && configured != "" && installed.backups == map[]
      ensures Valid() && Now() == Fresh(installed, configured) && run == [Now()]
      ensures activeOperationId == None
    {
      this.configured, this.channel, this.updaterVersion := configured, channel, updaterVersion;
      disk, activeOperationId, nextId := installed.(stored := None), None, 0;
      book := Fresh(installed, configured).book;
      run := [Fresh(installed, configured)];
      new;
      FreshIsSound(installed, configured);
    }

    // ---------------------------------------------------------------- effects

    /** One atomic durable effect: a rename, a copy, or the replacement of a small file. */
    method Put(d: Disk, ghost b: Book) returns (r: Outcome)
      requires Valid()
      requires Sound(Snapshot(d, b, configured)) && Step(Now(), Snapshot(d, b, configured))
      requires forall x <- b.origin :: x < nextId
      modifies `disk, `book, `run
      ensures Valid() && old(run) <= run
      ensures !r.Threw?
      ensures r.Done? ==> disk == d && book == b
    {
      if * { return Crashed; }
      RunExtends(run, Snapshot(d, b, configured));
      disk := d;
      book := b;
      run := run + [Now()];
      if * { return Crashed; }
      return Done;
    }

    /** Any command, request, sync or backup dump that touches nothing modelled here. */
    method Command() returns (r: Outcome)
      ensures r.Threw? ==> r.code == OperationFailed
    {
      if * { return Crashed; }
      if * { return Threw(OperationFailed); }
      return Done;
    }

    method Commands(n: nat) returns (r: Outcome)
      ensures r.Threw? ==> r.code == OperationFailed
    {
      for i := 0 to n { :- Command(); }
      return Done;
    }

    function Status(): Status
      reads `disk
    {
      disk.stored.GetOr(DefaultStatus(configured))
    }

    /** writeState: the current record with some fields replaced. */
    method WriteStatus(st: Status, ghost b: Book) returns (r: Outcome)
      requires Valid()
      requires Sound(Snapshot(disk.(stored := Some(st)), b, configured))
      requires Step(Now(), Snapshot(disk.(stored := Some(st)), b, configured))
      requires forall x <- b.origin :: x < nextId
      modifies `disk, `book, `run
      ensures Valid() && old(run) <= run
      ensures !r.Threw?
      ensures r.Done? ==> disk == old(disk).(stored := Some(st)) && book == b
    {
      r := Put(disk.(stored := Some(st)), b);
    }

    /** Phase `verifying`, for a deployment whose files may differ. */
    method MarkVerifying() returns (r: Outcome)
      requires Valid() && Pending(Status()) && InDeployment(Status())
      modifies `disk, `book, `run
      ensures Valid() && old(run) <= run
      ensures !r.Threw?
      ensures r.Done? ==> book == old(book) && disk == old(disk).(stored := Some(old(Status()).(phase := Verifying)))
    {
      VerifyingIsStep(Now());
      r := WriteStatus(Status().(phase := Verifying), book);
    }

    // ---------------------------------------------------------------- rollback of the release files

    /** prepareProjectionRollback, as far as files and status go: six commands. The gate, the lock and
        the services they act on are the subject of ProjectionRollback. */
    method PrepareProjectionRollback() returns (r: Outcome)
      ensures r.Threw? ==> r.code == OperationFailed
    {
      r := Commands(6);
    }

    /** restoreBackup: two copies and a sync. */
    method RestoreBackup(x: OpId) returns (r: Outcome)
      requires Valid() && Pending(Status()) && BackupId(Status()) == Some(x)
      modifies `disk, `book, `run
      ensures Valid() && old(run) <= run
      ensures r.Threw? ==> r.code == OperationFailed
      ensures !r.Crashed? ==> book == old(book) && Status() == old(Status())
      ensures r.Done? ==> x in book.origin && disk.Active() == book.origin[x].files
    {
      assert PendingSound(Now());
      PendingAllowsAnyFiles(Now(), disk.(env := disk.backups[x].env.value));
      :- Put(disk.(env := disk.backups[x].env.value), book);
      PendingAllowsAnyFiles(Now(), disk.(compose := disk.backups[x].compose.value));
      :- Put(disk.(compose := disk.backups[x].compose.value), book);
      r := Command();
    }

    /** The body of completeProjectionRollback: probes around the restore, then the two compose calls. */
    method RestoreAndVerify(x: OpId) returns (r: Outcome)
      requires Valid() && Pending(Status()) && InDeployment(Status()) && BackupId(Status()) == Some(x)
      modifies `disk, `book, `run
      ensures Valid() && old(run) <= run
      ensures r.Threw? ==> r.code == OperationFailed
      ensures !r.Crashed? ==> book == old(book)
      ensures !r.Crashed? ==> Status() == old(Status()) || Status() == old(Status()).(phase := Verifying)
      ensures r.Done? ==> x in book.origin && disk.Active() == book.origin[x].files
      ensures r.Done? ==> Status() == old(Status()).(phase := Verifying)
    {
      r := Command();
      if r.IsFailure() { return; }
      :- RestoreBackup(x);
      :- Commands(5);
      :- MarkVerifying();
      r := Commands(4);
    }

    /** completeProjectionRollback, as far as files and status go; on a failure the gate is enabled
        again and the services are stopped, and the call throws whatever these two commands do. */
    method CompleteProjectionRollback(x: OpId) returns (r: Outcome)
      requires Valid() && Pending(Status()) && InDeployment(Status()) && BackupId(Status()) == Some(x)
      modifies `disk, `book, `run
      ensures Valid() && old(run) <= run
      ensures r.Threw? ==> r.code == OperationFailed
      ensures !r.Crashed? ==> book == old(book)
      ensures !r.Crashed? ==> Status() == old(Status()) || Status() == old(Status()).(phase := Verifying)
      ensures r.Done? ==> x in book.origin && disk.Active() == book.origin[x].files
      ensures r.Done? ==> Status() == old(Status()).(phase := Verifying)
    {
      r := RestoreAndVerify(x);
      if r.Threw? {
        var enabled := Command();
        if enabled.Crashed? { return Crashed; }
        var stopped := Command();
        if stopped.Crashed? { return Crashed; }
      }
    }

    // ---------------------------------------------------------------- apply

    /** What applyUpdate checks before it touches anything. */
    ghost predicate Admitted(m: ReleaseManifest)
      reads `disk
    {
      && disk.stagedManifest == Some(m)
      && SemVer.Newer(m.version, Status().currentVersion)
      && Status().availableVersion == Some(m.version)
      && Status().migration == Some(m.migrations)
      && disk.stagedCompose == Some(m.compose)
      && disk.stagedEnv.Some? && disk.stagedEnv.value.version == Some(m.version)
      && disk.stagedEnv.value.images == m.images
    }

    method ReadStaged() returns (m: Result<ReleaseManifest, ErrorCode>)
      ensures m.Success? ==> Admitted(m.value)
      ensures m.Failure? ==> m.error != RecoveryRequired
    {
      if disk.stagedManifest.None? { return Failure(OperationFailed); }
      var manifest := disk.stagedManifest.value;
      var options := Options(Status().currentVersion, channel, updaterVersion);
      match ValidateReleaseManifest(manifest, options)
      case Failure(code) =>
        return Failure(ManifestError(code));
      case Success(_) =>
        if || Status().availableVersion != Some(manifest.version)
           || Status().migration != Some(manifest.migrations)
           || disk.stagedCompose != Some(manifest.compose)
           || disk.stagedEnv.None?
           || disk.stagedEnv.value.version != Some(manifest.version)
           || disk.stagedEnv.value.images != manifest.images
        {
          return Failure(OperationFailed);
        }
        return Success(manifest);
    }

    /** The status of the apply `op`, at one of its stages. */
    ghost predicate InApply(op: OpId, stage: Stage)
      reads `disk
    {
      && InDeployment(Status()) && Status().applyStage == Some(stage) && Status().operationId == Some(op)
    }

    /** The two copies into the backup directory of `op`. */
    method CopyActiveFiles(op: OpId) returns (r: Outcome)
      requires Valid() && InApply(op, PreparingBackup) && op !in disk.backups
      modifies `disk, `book, `run
      ensures Valid() && old(run) <= run
      ensures !r.Threw?
      ensures r.Done? ==>
                && book == old(book)
                && disk == old(disk).(backups := old(disk.backups)[op := Backup(Some(disk.env), Some(disk.compose))])
    {
      PreparingAllowsCopies(Now(), op, Backup(Some(disk.env), None));
      :- Put(disk.(backups := disk.backups[op := Backup(Some(disk.env), None)]), book);
      PreparingAllowsCopies(Now(), op, Backup(Some(disk.env), Some(disk.compose)));
      r := Put(disk.(backups := disk.backups[op := Backup(Some(disk.env), Some(disk.compose))]), book);
    }

    /** Backs up the active files, and the database when asked to. */
    method TakeBackup(op: OpId, dumpDatabase: bool) returns (r: Outcome)
      requires Valid() && InApply(op, PreparingBackup) && op !in disk.backups
      modifies `disk, `book, `run
      ensures Valid() && old(run) <= run
      ensures r.Threw? ==> r.code == OperationFailed
      ensures !r.Crashed? ==> book == old(book) && disk == old(disk).(stored := disk.stored, backups := disk.backups)
      ensures r.Threw? ==> Status() == old(Status())
      ensures r.Done? ==> Status() == old(Status()).(applyStage := Some(BackupReady))
    {
      r := Command();
      if r.IsFailure() { return; }
      :- CopyActiveFiles(op);
      if dumpDatabase { :- Command(); }
      :- Command();
      BackupReadyIsStep(Now(), op);
      r := WriteStatus(Status().(applyStage := Some(BackupReady)), book);
    }

    /** The switch itself: one rename per file. */
    method SwitchFiles() returns (r: Outcome)
      requires Valid() && Pending(Status()) && disk.stagedCompose.Some? && disk.stagedEnv.Some?
      modifies `disk, `book, `run
      ensures Valid() && old(run) <= run
      ensures !r.Threw?
      ensures r.Done? ==> book == old(book) && Status() == old(Status())
      ensures r.Done? ==> disk.Active() == Pair(old(disk.stagedEnv.value), old(disk.stagedCompose.value))
    {
      PendingAllowsAnyFiles(Now(), disk.(compose := disk.stagedCompose.value, stagedCompose := None));
      :- Put(disk.(compose := disk.stagedCompose.value, stagedCompose := None), book);
      PendingAllowsAnyFiles(Now(), disk.(env := disk.stagedEnv.value, stagedEnv := None));
      r := Put(disk.(env := disk.stagedEnv.value, stagedEnv := None), book);
    }

    /** applyStage `files_switched`, written before the first rename. */
    method AnnounceSwitch(op: OpId) returns (r: Outcome)
      requires Valid() && InApply(op, BackupReady)
      modifies `disk, `book, `run
      ensures Valid() && old(run) <= run
      ensures !r.Threw?
      ensures r.Done? ==> book == old(book)
      ensures r.Done? ==> disk == old(disk).(stored := Some(old(Status()).(applyStage := Some(FilesSwitched))))
    {
      r := WriteStatus(Status().(applyStage := Some(FilesSwitched)), book);
    }

    /** Migration, start of the services and health checks. */
    method Deploy(m: ReleaseManifest) returns (r: Outcome)
      requires Valid() && Status().phase == Applying && Status().applyStage == Some(FilesSwitched)
      modifies `disk, `book, `run
      ensures Valid() && old(run) <= run
      ensures r.Threw? ==> r.code == OperationFailed
      ensures !r.Crashed? ==> book == old(book) && disk == old(disk).(stored := disk.stored)
      ensures !r.Crashed? ==> Status() == old(Status()) || Status() == old(Status()).(phase := Verifying)
      ensures r.Done? ==> Status().phase == Verifying
    {
      if m.migrations.required { :- Command(); }
      :- Command();
      :- MarkVerifying();
      r := Command();
    }

    /** The try block of applyUpdate: a throw comes only after the status says that the files may differ. */
    method SwitchAndDeploy(op: OpId, m: ReleaseManifest) returns (r: Outcome)
      requires Valid() && InApply(op, BackupReady) && disk.stagedCompose.Some? && disk.stagedEnv.Some?
      modifies `disk, `book, `run
      ensures Valid() && old(run) <= run
      ensures r.Threw? ==> r.code == OperationFailed
      ensures !r.Crashed? ==> book == old(book)
      ensures r.Done? ==> Status() == old(Status()).(applyStage := Some(FilesSwitched), phase := Verifying)
      ensures r.Done? ==> disk.Active() == Pair(old(disk.stagedEnv.value), old(disk.stagedCompose.value))
      ensures r.Threw? ==> Status() == old(Status()).(applyStage := Some(FilesSwitched), phase := Status().phase)
                           && InDeployment(Status())
    {
      r := AnnounceSwitch(op);
      if r.IsFailure() { return; }
      :- SwitchFiles();
      :- Command();
      r := Deploy(m);
    }

    /** The write that ends an automatic rollback. */
    method FinishAutomaticRollback(op: OpId) returns (r: Outcome)
      requires Valid() && InDeployment(Status()) && Status().applyStage == Some(FilesSwitched)
      requires Status().operationId == Some(op)
      requires op in book.origin && disk.Active() == book.origin[op].files
      modifies `disk, `book, `run
      ensures Valid() && old(run) <= run
      ensures !r.Threw?
      ensures r.Done? ==>
                && Status().phase == RolledBack
                && old(book.origin[op]) == Installed(disk.Active(), Status().currentVersion)
                && Status().lastAppliedBackup == old(Status()).lastAppliedBackup
    {
      r := WriteStatus(
        Status().(phase := RolledBack, availableVersion := None, error := Some(OperationFailed),
                  operationId := None, applyStage := None),
        book.(committed := disk.Active(), undone := Some(op)));
    }

    /** The catch block of applyUpdate. */
    method AutomaticRollback(op: OpId) returns (r: Outcome)
      requires Valid() && InApply(op, FilesSwitched)
      modifies `disk, `book, `run
      ensures Valid() && old(run) <= run
      ensures r.Threw? ==> r.code == RecoveryRequired && InApply(op, FilesSwitched)
      ensures r.Done? ==>
                && Status().phase == RolledBack
                && op in old(book.origin)
                && old(book.origin[op]) == Installed(disk.Active(), Status().currentVersion)
                && Status().lastAppliedBackup == old(Status()).lastAppliedBackup
    {
      r := PrepareProjectionRollback();
      if r.Done? { r := CompleteProjectionRollback(op); }
      if r.Threw? { return Threw(RecoveryRequired); }
      if r.Crashed? { return; }
      r := FinishAutomaticRollback(op);
    }

    /** The write that commits the update. */
    method CommitUpdate(op: OpId, m: ReleaseManifest) returns (r: Outcome)
      requires Valid() && InApply(op, FilesSwitched) && Status().phase == Verifying
      requires disk.env.version == Some(m.version) && SemVer.Newer(m.version, Status().currentVersion)
      modifies `disk, `book, `run
      ensures Valid() && old(run) <= run
      ensures !r.Threw?
      ensures r.Done? ==>
                && disk.Active() == old(disk.Active()) == book.committed
                && Status() == old(Status()).(phase := Finalizing, currentVersion := m.version,
                     lastAppliedBackup := Some(AppliedBackup(op, m.version)), applyStage := None,
                     availableVersion := None, migration := Some(m.migrations))
    {
      CommitIsSound(Now(), op, m.version, m.migrations);
      CommitIsStep(Now(), op, m.version, m.migrations);
      r := WriteStatus(
        Status().(phase := Finalizing, currentVersion := m.version,
                  lastAppliedBackup := Some(AppliedBackup(op, m.version)), applyStage := None,
                  availableVersion := None, migration := Some(m.migrations)),
        book.(committed := disk.Active()));
    }

    /** Launches the finalizer, or reports that it could not be launched. */
    method LaunchFinalizer() returns (r: Outcome)
      requires Valid() && Status().phase == Finalizing
      modifies `disk, `book, `run
      ensures Valid() && old(run) <= run
      ensures !r.Threw?
      ensures r.Done? ==>
                || disk == old(disk)
                || disk == old(disk).(stored := Some(old(Status()).(phase := Succeeded, operationId := None)))
    {
      r := Command();
      if r.Threw? {
        r := WriteStatus(Status().(phase := Succeeded, operationId := None), book);
      }
    }

    /** The commit write and the launch. */
    method CommitAndLaunch(op: OpId, m: ReleaseManifest) returns (r: Outcome)
      requires Valid() && InApply(op, FilesSwitched) && Status().phase == Verifying
      requires disk.env.version == Some(m.version) && SemVer.Newer(m.version, Status().currentVersion)
      modifies `disk, `book, `run
      ensures Valid() && old(run) <= run
      ensures !r.Threw?
      ensures r.Done? ==>
                && disk.Active() == old(disk.Active())
                && Status().phase in {Finalizing, Succeeded}
                && Status().currentVersion == m.version
                && Status().lastAppliedBackup == Some(AppliedBackup(op, m.version))
    {
      r := CommitUpdate(op, m);
      if r.IsFailure() { return; }
      r := LaunchFinalizer();
    }

    /** applyUpdate behind its backup. */
    method SwitchAndSettle(op: OpId, m: ReleaseManifest) returns (r: Outcome)
      requires Valid() && InApply(op, BackupReady)
      requires disk.stagedCompose == Some(m.compose)
      requires disk.stagedEnv.Some? && disk.stagedEnv.value.version == Some(m.version)
      requires SemVer.Newer(m.version, Status().currentVersion)
      modifies `disk, `book, `run
      ensures Valid() && old(run) <= run
      ensures r.Threw? ==> r.code == RecoveryRequired && InApply(op, FilesSwitched)
      ensures r.Done? && Status().phase != RolledBack ==>
                && Status().phase in {Finalizing, Succeeded}
                && disk.Active() == Pair(old(disk.stagedEnv.value), m.compose)
                && Status().currentVersion == m.version
                && Status().lastAppliedBackup == Some(AppliedBackup(op, m.version))
      ensures r.Done? && Status().phase == RolledBack ==>
                && disk.Active() == old(disk.Active())
                && Status().currentVersion == old(Status()).currentVersion
                && Status().lastAppliedBackup == old(Status()).lastAppliedBackup
    {
      assert op in book.origin && book.origin[op] == Installed(disk.Active(), Status().currentVersion) by {
        assert Sound(Now());
      }
      r := SwitchAndDeploy(op, m);
      if r.Threw? {
        r := AutomaticRollback(op);
      } else if r.Done? {
        r := CommitAndLaunch(op, m);
      }
    }

    /** The background task of applyUpdate. */
    method ApplyBody(op: OpId) returns (r: Outcome)
      requires Valid() && InApply(op, PreparingBackup) && op !in disk.backups
      modifies `disk, `book, `run
      ensures Valid() && old(run) <= run
      ensures r.Threw? ==> ApplyThrew(op, r.code, old(Now()))
      ensures r.Done? ==> ApplyDone(op, old(Now()))
    {
      var checked := ReadStaged();
      if checked.Failure? { return Threw(checked.error); }
      var m := checked.value;
      :- TakeBackup(op, m.migrations.requiresBackup);
      r := SwitchAndSettle(op, m);
    }

    /** How an apply throws: before the switch with everything in place, or after it with a rollback owed. */
    ghost predicate ApplyThrew(op: OpId, code: ErrorCode, before: Snapshot)
      reads `disk
    {
      if code == RecoveryRequired then InApply(op, FilesSwitched)
      else
        && disk.Active() == before.disk.Active()
        && Status() == before.Status().(applyStage := Status().applyStage)
        && Status().applyStage in {Some(PreparingBackup), Some(BackupReady)}
    }

    /** How an apply ends without throwing: the staged release is installed and can be undone, or the
        files and the version are those it found. */
    ghost predicate ApplyDone(op: OpId, before: Snapshot)
      reads `disk
    {
      if Status().phase == RolledBack then
        && disk.Active() == before.disk.Active()
        && Status().currentVersion == before.Status().currentVersion
        && Status().lastAppliedBackup == before.Status().lastAppliedBackup
      else
        && Status().phase in {Finalizing, Succeeded}
        && before.disk.stagedManifest.Some?
        && before.disk.stagedCompose == Some(disk.compose) && before.disk.stagedEnv == Some(disk.env)
        && Status().currentVersion == before.disk.stagedManifest.value.version
        && Status().lastAppliedBackup == Some(AppliedBackup(op, Status().currentVersion))
    }

    // ---------------------------------------------------------------- rollback

    /** The write that ends a manual rollback. */
    method FinishRollback(sel: Selection) returns (r: Outcome)
      requires Valid() && InDeployment(Status()) && Status().applyStage == Some(RollingBack)
      requires BackupId(Status()) == Some(sel.backupId) && Status().lastAppliedBackup == sel.previous
      requires sel.backupId in book.origin && book.origin[sel.backupId] == Installed(disk.Active(), sel.restoredVersion)
      modifies `disk, `book, `run
      ensures Valid() && old(run) <= run
      ensures !r.Threw?
      ensures r.Done? ==>
                && Status().phase == RolledBack && Status().error == None
                && disk.Active() == old(disk.Active()) && Status().currentVersion == sel.restoredVersion
                && Status().lastAppliedBackup ==
                   (if sel.previous.Some? && sel.previous.value.operationId == sel.backupId then None else sel.previous)
    {
      var kept := if sel.previous.Some? && sel.previous.value.operationId == sel.backupId then None else sel.previous;
      r := WriteStatus(
        Status().(phase := RolledBack, currentVersion := sel.restoredVersion, availableVersion := None,
                  operationId := None, rollbackBackupOperationId := None, lastAppliedBackup := kept,
                  applyStage := None, error := None),
        book.(committed := disk.Active(), undone := Some(sel.backupId)));
    }

    /** The write of a rollback that has failed: the operation to recover is that of the backup. */
    method NameBackup(x: OpId) returns (r: Outcome)
      requires Valid() && InDeployment(Status()) && Status().applyStage == Some(RollingBack)
      requires BackupId(Status()) == Some(x)
      modifies `disk, `book, `run
      ensures Valid() && old(run) <= run
      ensures !r.Threw?
      ensures r.Done? ==>
                Status() == old(Status()).(operationId := Some(x), rollbackBackupOperationId := None)
    {
      r := WriteStatus(Status().(operationId := Some(x), rollbackBackupOperationId := None), book);
    }

    /** The background task of rollbackUpdate. */
    method RollbackBody(op: OpId, sel: Selection) returns (r: Outcome)
      requires Valid() && InApply(op, RollingBack)
      requires Status().rollbackBackupOperationId == Some(sel.backupId) && Status().lastAppliedBackup == sel.previous
      requires sel.backupId in book.origin && book.origin[sel.backupId].version == sel.restoredVersion
      modifies `disk, `book, `run
      ensures Valid() && old(run) <= run
      ensures r.Threw? ==>
                && r.code == RecoveryRequired
                && InDeployment(Status()) && Owed(Status())
                && Status() == old(Status()).(phase := Status().phase, operationId := Some(sel.backupId),
                                              rollbackBackupOperationId := None)
      ensures r.Done? ==>
                && Status().phase == RolledBack
                && old(book.origin[sel.backupId]) == Installed(disk.Active(), Status().currentVersion)
                && Status().lastAppliedBackup ==
                   (if sel.previous.Some? && sel.previous.value.operationId == sel.backupId then None else sel.previous)
    {
      r := PrepareProjectionRollback();
      if r.Done? { r := CompleteProjectionRollback(sel.backupId); }
      if r.Crashed? { return; }
      if r.Threw? {
        :- NameBackup(sel.backupId);
        return Threw(RecoveryRequired);
      }
      r := FinishRollback(sel);
    }

    // ---------------------------------------------------------------- check, download, restart

    method FetchReleaseManifest(payload: Result<ReleaseManifest, ErrorCode>)
      returns (r: Outcome, m: Result<ReleaseManifest, string>)
      ensures r.Threw? ==> r.code != RecoveryRequired
    {
      r := Command();
      if r.IsFailure() { return r, Failure(""); }
      match payload
      case Failure(code) =>
        return Threw(if code == RecoveryRequired then OperationFailed else code), Failure("");
      case Success(manifest) =>
        m := ValidateReleaseManifest(manifest, Options(Status().currentVersion, channel, updaterVersion));
        return Done, m;
    }

    /** The background task of checkForUpdates; `payload` is what the manifest URL answers. */
    method CheckBody(payload: Result<ReleaseManifest, ErrorCode>) returns (r: Outcome)
      requires Valid() && Status().phase == Checking
      modifies `disk, `book, `run
      ensures Valid() && old(run) <= run
      ensures r.Threw? ==> r.code != RecoveryRequired && disk == old(disk)
      ensures r.Done? ==>
                && disk == old(disk).(stored := disk.stored) && (Status().phase == Available || Status().phase == Idle)
                && Status().currentVersion == old(Status()).currentVersion && Status().error == old(Status()).error
    {
      var m;
      r, m := FetchReleaseManifest(payload);
      if r.IsFailure() { return; }
      if m.Success? {
        r := WriteStatus(Status().(phase := Available, availableVersion := Some(m.value.version),
                                   migration := Some(m.value.migrations), operationId := None), book);
      } else if m.error == "NO_UPDATE_AVAILABLE" {
        r := WriteStatus(Status().(phase := Idle, availableVersion := None, migration := None,
                                   operationId := None), book);
      } else {
        r := Threw(ManifestError(m.error));
      }
    }

    /** The three staged files, in the order in which downloadUpdate writes them. */
    method StageFiles(m: ReleaseManifest, content: ComposeFile) returns (r: Outcome)
      requires Valid() && Status().phase == Downloading
      modifies `disk, `book, `run
      ensures Valid() && old(run) <= run
      ensures r.Threw? ==> r.code == OperationFailed
      ensures !r.Crashed? ==> Status() == old(Status()) && disk.Active() == old(disk.Active()) && book == old(book)
      ensures r.Done? ==>
                && disk.stagedManifest == Some(m) && disk.stagedCompose == Some(m.compose)
                && disk.stagedEnv == Some(MergeEnv(old(disk.env), m))
    {
      StagingKeepsSound(Now(), disk.(stagedManifest := Some(m)));
      r := Put(disk.(stagedManifest := Some(m)), book);
      if r.IsFailure() { return; }
      :- Commands(5);
      if content != m.compose { return Threw(OperationFailed); }
      StagingKeepsSound(Now(), disk.(stagedCompose := Some(content)));
      :- Put(disk.(stagedCompose := Some(content)), book);
      StagingKeepsSound(Now(), disk.(stagedEnv := Some(MergeEnv(disk.env, m))));
      :- Put(disk.(stagedEnv := Some(MergeEnv(disk.env, m))), book);
      r := Command();
    }

    /** The background task of downloadUpdate; `content` is what the compose URL answers. */
    method DownloadBody(payload: Result<ReleaseManifest, ErrorCode>, content: ComposeFile) returns (r: Outcome)
      requires Valid() && Status().phase == Downloading
      modifies `disk, `book, `run
      ensures Valid() && old(run) <= run
      ensures r.Threw? ==> r.code != RecoveryRequired && Status() == old(Status())
      ensures !r.Crashed? ==> disk.Active() == old(disk.Active())
      ensures r.Done? ==>
                && Status().phase == ReadyToApply
                && Status().currentVersion == old(Status()).currentVersion && Status().error == old(Status()).error
                && disk.stagedManifest.Some? && Status().availableVersion == Some(disk.stagedManifest.value.version)
                && disk.stagedCompose == Some(disk.stagedManifest.value.compose)
                && disk.stagedEnv == Some(MergeEnv(disk.env, disk.stagedManifest.value))
    {
      var m;
      r, m := FetchReleaseManifest(payload);
      if r.IsFailure() { return; }
      if m.Failure? { return Threw(ManifestError(m.error)); }
      :- StageFiles(m.value, content);
      r := WriteStatus(Status().(phase := ReadyToApply, availableVersion := Some(m.value.version),
                                 migration := Some(m.value.migrations), operationId := None), book);
    }

    method RestartBody() returns (r: Outcome)
      requires Valid() && Status().phase == Restarting
      modifies `disk, `book, `run
      ensures Valid() && old(run) <= run
      ensures r.Threw? ==> r.code == OperationFailed && disk == old(disk)
      ensures r.Done? ==> disk == old(disk).(stored := Some(old(Status()).(phase := Succeeded, operationId := None)))
    {
      r := Command();
      if r.IsFailure() { return; }
      r := WriteStatus(Status().(phase := Succeeded, operationId := None), book);
    }

    // ---------------------------------------------------------------- admission

    /** The refusals of startOperation, in order; None admits the request. */
    function Refusal(kind: Kind): Option<Admission>
      reads this
    {
      if activeOperationId.Some? then Some(InProgress(activeOperationId)) else StoredRefusal(disk, Status(), kind)
    }

    /** The checks of startOperation on the stored status; a rollback also selects its backup. */
    method CheckStored(kind: Kind) returns (refused: Option<Admission>, sel: Option<Selection>)
      ensures refused == StoredRefusal(disk, Status(), kind)
      ensures refused == None ==> sel == Selected(disk, Status(), kind)
    {
      refused, sel := None, None;
      if IsMutating(Status().phase) {
        refused := Some(InProgress(Status().operationId));
      } else if kind != Rollback && Status().error == Some(RecoveryRequired) {
        refused := Some(Precondition("UPDATE_ROLLBACK_RECOVERY_REQUIRED"));
      } else if kind == Apply && Status().phase != ReadyToApply {
        refused := Some(Precondition("UPDATE_NOT_READY"));
      } else if kind == Rollback {
        match SelectRollback(disk, Status())
        case Failure(code) => refused := Some(Precondition(code));
        case Success(selection) => sel := Some(selection);
      }
    }

    /** The write that admits an operation. */
    method WriteAdmission(kind: Kind, op: OpId, sel: Option<Selection>) returns (r: Outcome)
      requires Valid() && op < nextId && op !in book.origin
      requires StoredRefusal(disk, Status(), kind) == None && sel == Selected(disk, Status(), kind)
      modifies `disk, `book, `run
      ensures Valid() && old(run) <= run
      ensures !r.Threw?
      ensures r.Done? ==> Now() == AdmittedSnapshot(old(Now()), kind, op, sel)
    {
      AdmissionIsStep(Now(), kind, op);
      r := WriteStatus(AdmittedStatus(Status(), kind, op, sel), Recorded(Now(), kind, op));
    }

    /** The try block of startOperation: the checks and the write. */
    method AdmitStored(kind: Kind, op: OpId) returns (a: Admission)
      requires Valid() && op < nextId && op !in book.origin
      modifies `disk, `book, `run
      ensures Valid() && old(run) <= run
      ensures old(StoredRefusal(disk, Status(), kind)).Some? ==>
                && Some(a) == old(StoredRefusal(disk, Status(), kind)) && !a.Accepted? && !a.NoReply?
                && disk == old(disk) && run == old(run)
      ensures old(StoredRefusal(disk, Status(), kind)).None? ==>
                a == Accepted(op, old(Selected(disk, Status(), kind))) || a.NoReply?
      ensures a.Accepted? ==> Now() == AdmittedSnapshot(old(Now()), kind, op, a.selection)
    {
      var refused, sel := CheckStored(kind);
      if refused.Some? { return refused.value; }
      var r := WriteAdmission(kind, op, sel);
      if r.Crashed? { return NoReply; }
      return Accepted(op, sel);
    }

    /** startOperation up to the point where the background task is handed over. */
    method StartOperation(kind: Kind) returns (a: Admission)
      requires Valid()
      modifies this
      ensures Valid() && old(run) <= run
      ensures old(activeOperationId.Some? || IsMutating(Status().phase)) ==> a.InProgress?
      ensures old(Owed(Status())) && kind != Rollback ==> a.InProgress? || a.Precondition?
      ensures a.InProgress? || a.Precondition? ==> disk == old(disk) && run == old(run) && unchanged(`activeOperationId)
      ensures old(Refusal(kind)).Some? ==> Some(a) == old(Refusal(kind)) && (a.InProgress? || a.Precondition?)
      ensures old(Refusal(kind)).None? ==> a.Accepted? || a.NoReply?
      ensures a.Accepted? ==>
                && activeOperationId == Some(a.operationId) && a.operationId !in old(book.origin)
                && a.selection == old(Selected(disk, Status(), kind))
                && Now() == AdmittedSnapshot(old(Now()), kind, a.operationId, a.selection)
    {
      if activeOperationId.Some? { return InProgress(activeOperationId); }
      var op := nextId;
      nextId := nextId + 1;
      activeOperationId := Some(op);
      a := AdmitStored(kind, op);
      if !a.Accepted? && !a.NoReply? { activeOperationId := None; }
    }

    /** handleOperationFailure. */
    method HandleFailure(code: ErrorCode) returns (r: Outcome)
      requires Valid() && IsMutating(Status().phase) && Status().rollbackBackupOperationId == None
      requires (code == RecoveryRequired) == Pending(Status())
      modifies `disk, `book, `run
      ensures Valid() && old(run) <= run
      ensures !r.Threw?
      ensures r.Done? ==> disk == old(disk).(stored := Some(old(Status()).(phase := Failed, error := Some(code))))
      ensures r.Done? ==> book == old(book)
    {
      r := WriteStatus(Status().(phase := Failed, error := Some(code)), book);
    }

    /** What an operation leaves when it has run to its end. */
    ghost predicate Settled(kind: Kind, op: OpId, sel: Option<Selection>, before: Snapshot)
      reads `disk
    {
      var unmoved := disk.Active() == before.disk.Active() && Status().currentVersion == before.Status().currentVersion;
      var recovery := Status().phase == Failed && Status().error == Some(RecoveryRequired);
      match kind
      case Check => unmoved && !recovery && Status().phase in {Available, Idle, Failed}
      case Download => unmoved && !recovery && Status().phase in {ReadyToApply, Failed}
      case Restart => unmoved && !recovery && Status().phase in {Succeeded, Failed}
      case Apply =>
        || ApplyDone(op, before)
        || (recovery && BackupId(Status()) == Some(op))
        || (unmoved && !recovery && Status().phase == Failed)
      case Rollback =>
        && sel.Some? && sel.value.backupId in before.book.origin
        && if recovery then BackupId(Status()) == Some(sel.value.backupId)
           else Status().phase == RolledBack
                && before.book.origin[sel.value.backupId] == Installed(disk.Active(), Status().currentVersion)
    }

    /** The admission itself changes nothing that this looks at. */
    lemma SettledSinceRequest(kind: Kind, op: OpId, sel: Option<Selection>, before: Snapshot)
      requires Settled(kind, op, sel, AdmittedSnapshot(before, kind, op, sel))
      ensures Settled(kind, op, sel, before.(book := Recorded(before, kind, op)))
    {
    }

    /** The operations that leave the release files alone. */
    method RunPlain(kind: Kind, op: OpId, payload: Result<ReleaseManifest, ErrorCode>, content: ComposeFile)
      returns (r: Outcome)
      requires Valid() && kind != Apply && kind != Rollback && Status().phase == PhaseOf(kind) && Status().error == None
      modifies `disk, `book, `run
      ensures Valid() && old(run) <= run
      ensures r.Threw? ==>
                r.code != RecoveryRequired && Status() == old(Status()) && disk.Active() == old(disk.Active())
      ensures r.Done? ==> Settled(kind, op, None, old(Now()))
    {
      match kind {
        case Check => r := CheckBody(payload);
        case Download => r := DownloadBody(payload, content);
        case Restart => r := RestartBody();
      }
    }

    method PerformPlain(kind: Kind, op: OpId, payload: Result<ReleaseManifest, ErrorCode>, content: ComposeFile)
      returns (r: Outcome)
      requires Valid() && kind != Apply && kind != Rollback && Status().phase == PhaseOf(kind) && Status().error == None
      modifies `disk, `book, `run
      ensures Valid() && old(run) <= run
      ensures !r.Threw?
      ensures r.Done? ==> Settled(kind, op, None, old(Now()))
    {
      r := RunPlain(kind, op, payload, content);
      if r.Threw? { r := HandleFailure(r.code); }
    }

    /** The background task of the operation and, when it throws, the failure handler. */
    method Perform(kind: Kind, op: OpId, sel: Option<Selection>,
                   payload: Result<ReleaseManifest, ErrorCode>, content: ComposeFile) returns (r: Outcome)
      requires Valid() && Ready(Now(), kind, op, sel)
      modifies `disk, `book, `run
      ensures Valid() && old(run) <= run
      ensures !r.Threw?
      ensures r.Done? ==> Settled(kind, op, sel, old(Now()))
    {
      match kind {
        case Apply =>
          r := ApplyBody(op);
          if r.Threw? { r := HandleFailure(r.code); }
        case Rollback =>
          r := RollbackBody(op, sel.value);
          if r.Threw? { r := HandleFailure(r.code); }
        case _ =>
          r := PerformPlain(kind, op, payload, content);
      }
    }

    /** One request from admission to the end of its background task. Requests that arrive meanwhile are
        refused without effect (StartOperation, second clause), so requests can be taken one at a time. */
    method Request(kind: Kind, payload: Result<ReleaseManifest, ErrorCode>, content: ComposeFile)
      returns (a: Admission, r: Outcome)
      requires Valid() && activeOperationId == None
      modifies this
      ensures Valid() && old(run) <= run
      ensures !r.Threw?
      ensures r.Done? ==> activeOperationId == None && !a.NoReply?
      ensures old(Refusal(kind)).Some? ==> a == old(Refusal(kind)).value && disk == old(disk)
      ensures a.Accepted? && r.Done? ==>
                Settled(kind, a.operationId, a.selection,
                        old(Now()).(book := Recorded(old(Now()), kind, a.operationId)))
    {
      a := StartOperation(kind);
      if a.NoReply? { return a, Crashed; }
      if !a.Accepted? { return a, Done; }
      AdmittedIsReady(old(Now()), kind, a.operationId);
      r := Perform(kind, a.operationId, a.selection, payload, content);
      if r.Crashed? { return; }
      SettledSinceRequest(kind, a.operationId, a.selection, old(Now()));
      activeOperationId := None;
    }

    // ---------------------------------------------------------------- status and restart

    /** getStatus: a `finalizing` record of an operation nobody runs is closed once its finalizer is seen
        not to be running. */
    method GetStatus() returns (st: Status, r: Outcome)
      requires Valid()
      modifies `disk, `book, `run
      ensures Valid() && old(run) <= run
      ensures !r.Threw?
      ensures r.Done? ==> st == Status() && book == old(book)
      ensures r.Done? && disk != old(disk) ==>
                && old(activeOperationId) == None && old(Status()).phase == Finalizing
                && disk == old(disk).(stored :=
                     Some(old(Status()).(phase := Succeeded, operationId := None, error := None)))
    {
      st, r := Status(), Done;
      if st.phase != Finalizing || st.operationId == None || activeOperationId.Some? { return; }
      var inspected := Command();
      if inspected.Crashed? { return st, Crashed; }
      var stopped: bool := *;
      if stopped {
        r := WriteStatus(Status().(phase := Succeeded, operationId := None, error := None), book);
        st := Status();
      }
    }

    /** recoverInterruptedOperation, run before the service takes requests. */
    method RecoverInterruptedOperation() returns (r: Outcome)
      requires Valid() && activeOperationId == None
      modifies `disk, `book, `run
      ensures Valid() && old(run) <= run
      ensures r.Done? ==> IsMutating(Status().phase) ==> Status().phase == Finalizing
      ensures r.Done? ==> disk.Active() == old(disk.Active()) && disk.backups == old(disk.backups)
      ensures r.Done? ==> (Owed(Status()) <==> old(Pending(Status())))
      ensures r.Done? && Owed(Status()) ==> BackupId(Status()) == old(BackupId(Status()))
    {
      var current;
      current, r := GetStatus();
      if r.Crashed? { return; }
      if !IsMutating(current.phase) || current.phase == Finalizing { return Done; }
      var needsRollback := NeedsRollback(disk, current);
      if InDeployment(current) { RecoveryDecisionIsExact(Now()); }
      if needsRollback { :- Command(); }
      r := MarkInterrupted(needsRollback);
    }

    /** The record that recoverInterruptedOperation leaves. */
    method MarkInterrupted(needsRollback: bool) returns (r: Outcome)
      requires Valid() && IsMutating(Status().phase) && needsRollback == Pending(Status())
      modifies `disk, `book, `run
      ensures Valid() && old(run) <= run
      ensures !r.Threw?
      ensures r.Done? ==> disk == old(disk).(stored := disk.stored)
      ensures r.Done? ==> Status().phase == Failed && (Owed(Status()) <==> needsRollback)
      ensures r.Done? && needsRollback ==> BackupId(Status()) == old(BackupId(Status()))
    {
      var current := Status();
      r := WriteStatus(
        Status().(phase := Failed,
                  operationId := if needsRollback then BackupId(current) else current.operationId,
                  rollbackBackupOperationId := None, applyStage := None,
                  error := Some(if needsRollback then RecoveryRequired else OperationFailed)), book);
    }

    /** The other writer: the finalizer container patches a `finalizing` record, in the end to `succeeded`.
        That it never writes at any other time is what FinalizerRace shows. */
    method FinalizerPatch(last: bool) returns (r: Outcome)
      requires Valid() && Status().phase == Finalizing
      modifies `disk, `book, `run
      ensures Valid() && old(run) <= run
      ensures r.Done? ==> disk.Active() == old(disk.Active()) && Status().currentVersion == old(Status()).currentVersion
    {
      var st := Status().(availableVersion := None, error := None);
      r := WriteStatus(if last then st.(phase := Succeeded, operationId := None) else st, book);
    }
  }

  /** What can happen to an installation: the updater (re)starts, a request or a status poll comes in, the
      finalizer writes. A crash inside any of them is a possible outcome of it; one between them is a restart. */
  datatype Event =
    | Boot
    | Ask(kind: Kind, payload: Result<ReleaseManifest, ErrorCode>, content: ComposeFile)
    | Poll
    | Finalizer(last: bool)

  /** Any history of an installation, with every command failing and the process dying at will, produces a
      run; so the theorems of UpdaterSpec hold of every such history. */
  method Operate(installed: Disk, configured: string, channel: Channel, updaterVersion: string, events: seq<Event>)
    returns (service: UpdateService)
    requires installed.env.version == Some(configured) && configured != "" && installed.backups == map[]
    ensures fresh(service) && service.Valid()
    ensures service.run[0] == Fresh(installed, configured)
  {
    service := new UpdateService(installed, configured, channel, updaterVersion);
    var up := false;
    for i := 0 to |events|
      invariant fresh(service) && service.Valid() && service.run[0] == Fresh(installed, configured)
      invariant up ==> service.activeOperationId == None
    {
      match events[i] {
        case Boot =>
          service.activeOperationId := None;
          var r := service.RecoverInterruptedOperation();
          up := r.Done?;
        case Ask(kind, payload, content) =>
          if up {
            var a, r := service.Request(kind, payload, content);
            up := r.Done?;
          }
        case Poll =>
          if up {
            var st, r := service.GetStatus();
            up := r.Done?;
          }
        case Finalizer(last) =>
          if service.Status().phase == Finalizing {
            var r := service.FinalizerPatch(last);
          }
      }
    }
  }
}
