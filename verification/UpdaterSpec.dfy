/**
 What the self-updater keeps on disk, and what must hold of it at every instant at which the
 process could die. `Sound` speaks of one durable state, `Step` of two consecutive ones; a run is
 a sequence of durable states related that way. `UpdateService` proves that it only produces runs;
 the lemmas here say what that is worth over a whole run.
 */
module UpdaterSpec {
  import opened Wrappers
  import opened Manifest
  import opened UpdateStatus
  import SemVer

  // ---------------------------------------------------------------- durable state

  /** A release env file: DRUVIA_VERSION, the image keys, and the lines an update does not touch. */
  datatype EnvFile = EnvFile(version: Option<string>, images: Images, otherLines: seq<string>)

  /** The release files that the managed services run from. */
  datatype Pair = Pair(env: EnvFile, compose: ComposeFile)

  /** One backup directory; None is a file that has not been copied (ENOENT). */
  datatype Backup = Backup(env: Option<EnvFile>, compose: Option<ComposeFile>)

  datatype Disk = Disk(
    stored: Option<Status>,
    env: EnvFile,
    compose: ComposeFile,
    stagedManifest: Option<ReleaseManifest>,
    stagedCompose: Option<ComposeFile>,
    stagedEnv: Option<EnvFile>,
    backups: map<OpId, Backup>)
  {
    function Active(): Pair { Pair(env, compose) }
  }

  /** A release as it was installed: its files and the version recorded for them. */
  datatype Installed = Installed(files: Pair, version: string)

  /** History that no file holds: which files belong to `currentVersion`, what was installed when
      each apply began, and which apply the last completed rollback undid. */
  datatype Book = Book(committed: Pair, origin: map<OpId, Installed>, undone: Option<OpId>)

  /** `configured` is the version the updater was configured with, the fallback of a missing state file. */
  datatype Snapshot = Snapshot(disk: Disk, book: Book, configured: string)
  {
    function Status(): Status { disk.stored.GetOr(DefaultStatus(configured)) }
  }

  // ---------------------------------------------------------------- one durable state

  /** The backup a rollback has to use: `rollbackBackupOperationId ?? operationId`. */
  function BackupId(st: Status): Option<OpId> {
    if st.rollbackBackupOperationId.Some? then st.rollbackBackupOperationId else st.operationId
  }

  predicate InDeployment(st: Status) { st.phase == Applying || st.phase == Verifying }

  /** A rollback has been promised: one is running, or the status demands one. */
  predicate Owed(st: Status) {
    || (InDeployment(st) && st.applyStage == Some(RollingBack))
    || (st.phase == Failed && st.error == Some(RecoveryRequired))
  }

  /** The release files may differ from those of `currentVersion`. */
  predicate Pending(st: Status) {
    Owed(st) || (InDeployment(st) && st.applyStage == Some(FilesSwitched))
  }

  predicate BackupHolds(d: Disk, x: OpId, files: Pair) {
    x in d.backups && d.backups[x] == Backup(Some(files.env), Some(files.compose))
  }

  /** Every backup file is a copy of what was active when its apply began. */
  ghost predicate BackupsFaithful(s: Snapshot) {
    forall x <- s.disk.backups ::
      && x in s.book.origin
      && (s.disk.backups[x].env.Some? ==> s.disk.backups[x].env.value == s.book.origin[x].files.env)
      && (s.disk.backups[x].compose.Some? ==> s.disk.backups[x].compose.value == s.book.origin[x].files.compose)
  }

  ghost predicate OriginsVersioned(s: Snapshot) {
    forall x <- s.book.origin ::
      s.book.origin[x].files.env.version == Some(s.book.origin[x].version) && s.book.origin[x].version != ""
  }

  ghost predicate StatusShape(s: Snapshot) {
    var st := s.Status();
    && (st.error == Some(RecoveryRequired) ==> st.phase == Failed)
    && (st.phase == Failed && st.applyStage == Some(FilesSwitched) ==> st.error == Some(RecoveryRequired))
    && (st.applyStage.Some? ==> InDeployment(st) || st.phase == Failed)
    && (InDeployment(st) ==> st.applyStage.Some? && st.operationId.Some?)
    && (st.rollbackBackupOperationId.Some? ==> InDeployment(st) && st.applyStage == Some(RollingBack))
    && (InDeployment(st) && st.applyStage != Some(RollingBack) ==>
          && st.operationId.value in s.book.origin
          && s.book.origin[st.operationId.value] == Installed(s.book.committed, st.currentVersion)
          && (st.phase == Verifying ==> st.applyStage == Some(FilesSwitched))
          && (st.applyStage != Some(PreparingBackup) ==>
                BackupHolds(s.disk, st.operationId.value, s.book.committed)))
  }

  /** While the files may differ, a complete backup is named, and it is the right one: that of the
      apply that has not been committed, or of the one that was committed last. */
  ghost predicate PendingSound(s: Snapshot) {
    var st := s.Status();
    && BackupId(st).Some?
    && var x := BackupId(st).value;
    && x in s.book.origin
    && BackupHolds(s.disk, x, s.book.origin[x].files)
    && (|| s.book.origin[x] == Installed(s.book.committed, st.currentVersion)
        || st.lastAppliedBackup == Some(AppliedBackup(x, st.currentVersion)))
  }

  ghost predicate LastBackupSound(s: Snapshot) {
    var last := s.Status().lastAppliedBackup;
    last.Some? ==>
      && last.value.operationId in s.book.origin
      && BackupHolds(s.disk, last.value.operationId, s.book.origin[last.value.operationId].files)
  }

  /** A finished rollback left exactly what the undone apply had found. */
  ghost predicate RolledBackSound(s: Snapshot) {
    s.Status().phase == RolledBack ==>
      && s.book.undone.Some?
      && s.book.undone.value in s.book.origin
      && s.book.origin[s.book.undone.value] == Installed(s.disk.Active(), s.Status().currentVersion)
  }

  ghost predicate Sound(s: Snapshot) {
    && s.book.committed.env.version == Some(s.Status().currentVersion)
    && s.Status().currentVersion != ""
    && BackupsFaithful(s)
    && OriginsVersioned(s)
    && StatusShape(s)
    && (if Pending(s.Status()) then PendingSound(s) else s.disk.Active() == s.book.committed)
    && LastBackupSound(s)
    && RolledBackSound(s)
  }

  // ---------------------------------------------------------------- two consecutive durable states

  predicate Complete(b: Backup) { b.env.Some? && b.compose.Some? }

  ghost predicate HistoryKept(s: Snapshot, s': Snapshot) {
    && (forall x <- s.book.origin :: x in s'.book.origin && s'.book.origin[x] == s.book.origin[x])
    && (forall x <- s.disk.backups :: x in s'.disk.backups
          && (Complete(s.disk.backups[x]) ==> s'.disk.backups[x] == s.disk.backups[x]))
  }

  /** The new status commits an applied update. */
  ghost predicate Commits(s: Snapshot, s': Snapshot) {
    && s.Status().phase == Verifying && s.Status().applyStage == Some(FilesSwitched)
    && s'.Status().phase == Finalizing
    && s'.book.committed == s.disk.Active()
  }

  ghost predicate Undoes(s: Snapshot, s': Snapshot) {
    && Pending(s.Status()) && s'.Status().phase == RolledBack
    && s'.book.undone == BackupId(s.Status()) && s'.book.undone.Some?
    && s'.book.undone.value in s.book.origin
    && s'.book.committed == s.book.origin[s'.book.undone.value].files
  }

  /** The write that admits the apply `x`. */
  ghost predicate Admits(s: Snapshot, s': Snapshot, x: OpId) {
    && s.Status().phase == ReadyToApply
    && s'.Status().phase == Applying && s'.Status().applyStage == Some(PreparingBackup)
    && s'.Status().operationId == Some(x)
  }

  /** The history is only written where the status says so: `committed` by a commit or a completed
      rollback, `origin` by the admission of an apply, with what is installed at that moment. */
  ghost predicate BookHonest(s: Snapshot, s': Snapshot) {
    && (s'.book.committed == s.book.committed || Commits(s, s') || Undoes(s, s'))
    && (s'.book.undone == s.book.undone || Undoes(s, s'))
    && (s'.Status().phase == RolledBack ==> s.Status().phase == RolledBack || Undoes(s, s'))
    && (forall x <- s'.book.origin :: x !in s.book.origin ==>
          && Admits(s, s', x)
          && s'.book.origin[x] == Installed(s.disk.Active(), s.Status().currentVersion))
  }

  /** A rollback once promised stays promised, from the same backup, until it has been completed; a
      deployment that switched files ends in a commit or in a rollback. */
  ghost predicate PromiseKept(s: Snapshot, s': Snapshot) {
    Pending(s.Status()) ==>
      || (Pending(s'.Status()) && BackupId(s'.Status()) == BackupId(s.Status())
          && (Owed(s.Status()) ==> Owed(s'.Status())))
      || Undoes(s, s')
      || (!Owed(s.Status()) && Commits(s, s'))
  }

  /** The installed version changes only by a commit, to a newer one, or by a completed rollback. */
  ghost predicate VersionMoves(s: Snapshot, s': Snapshot) {
    && (Commits(s, s') ==> SemVer.Newer(s'.Status().currentVersion, s.Status().currentVersion))
    && (s'.Status().currentVersion != s.Status().currentVersion ==> Commits(s, s') || s'.Status().phase == RolledBack)
  }

  ghost predicate Step(s: Snapshot, s': Snapshot) {
    && s'.configured == s.configured
    && HistoryKept(s, s') && BookHonest(s, s') && PromiseKept(s, s') && VersionMoves(s, s')
  }

  // ---------------------------------------------------------------- runs

  ghost predicate StepAt(run: seq<Snapshot>, i: nat)
    requires i + 1 < |run|
  {
    Step(run[i], run[i + 1])
  }

  ghost predicate SoundAt(run: seq<Snapshot>, i: nat)
    requires i < |run|
  {
    Sound(run[i])
  }

  ghost predicate IsRun(run: seq<Snapshot>) {
    && (forall i :: 0 <= i < |run| ==> SoundAt(run, i))
    && (forall i :: 0 <= i < |run| - 1 ==> StepAt(run, i))
  }

  lemma RunExtends(run: seq<Snapshot>, s: Snapshot)
    requires IsRun(run) && Sound(s)
    requires run != [] ==> Step(run[|run| - 1], s)
    ensures IsRun(run + [s])
  {
    var more := run + [s];
    forall i | 0 <= i < |more| ensures SoundAt(more, i) {
      assert i < |run| ==> SoundAt(run, i);
    }
    forall i | 0 <= i < |more| - 1 ensures StepAt(more, i) {
      assert i < |run| - 1 ==> StepAt(run, i);
    }
  }

  /** A fresh installation whose env file carries the configured version. */
  function Fresh(d: Disk, configured: string): Snapshot {
    Snapshot(d.(stored := None), Book(d.Active(), map[], None), configured)
  }

  lemma FreshIsSound(d: Disk, configured: string)
    requires d.env.version == Some(configured) && configured != "" && d.backups == map[]
    ensures Sound(Fresh(d, configured))
  {
  }

  // ---------------------------------------------------------------- effects on files

  /** While a rollback is pending, nothing is assumed of the active or staged files. */
  lemma PendingAllowsAnyFiles(s: Snapshot, d: Disk)
    requires Sound(s) && Pending(s.Status())
    requires d.stored == s.disk.stored && d.backups == s.disk.backups
    ensures Sound(s.(disk := d)) && Step(s, s.(disk := d))
  {
  }

  /** Staged files may be replaced at any time. */
  lemma StagingKeepsSound(s: Snapshot, d: Disk)
    requires Sound(s)
    requires d == s.disk.(stagedManifest := d.stagedManifest, stagedCompose := d.stagedCompose,
                          stagedEnv := d.stagedEnv)
    ensures Sound(s.(disk := d)) && Step(s, s.(disk := d))
  {
  }

  /** While a backup is being prepared, a copy of an active file may be added to it. */
  lemma PreparingAllowsCopies(s: Snapshot, op: OpId, b: Backup)
    requires Sound(s) && InDeployment(s.Status()) && s.Status().applyStage == Some(PreparingBackup)
    requires s.Status().operationId == Some(op)
    requires op in s.disk.backups ==> !Complete(s.disk.backups[op])
    requires b.env.Some? ==> b.env.value == s.disk.env
    requires b.compose.Some? ==> b.compose.value == s.disk.compose
    ensures var d := s.disk.(backups := s.disk.backups[op := b]); Sound(s.(disk := d)) && Step(s, s.(disk := d))
  {
    var s' := s.(disk := s.disk.(backups := s.disk.backups[op := b]));
    var st := s.Status();
    assert s'.Status() == st && !Pending(st);
    if st.lastAppliedBackup.Some? {
      var x := st.lastAppliedBackup.value.operationId;
      assert x in s.disk.backups && Complete(s.disk.backups[x]);
    }
  }

  /** The same state with another status record. */
  function WithStatus(s: Snapshot, st: Status): Snapshot { s.(disk := s.disk.(stored := Some(st))) }

  lemma VerifyingIsStep(s: Snapshot)
    requires Sound(s) && InDeployment(s.Status()) && Pending(s.Status())
    ensures var s' := WithStatus(s, s.Status().(phase := Verifying)); Sound(s') && Step(s, s')
  {
  }

  lemma BackupReadyIsStep(s: Snapshot, op: OpId)
    requires Sound(s) && InDeployment(s.Status()) && s.Status().applyStage == Some(PreparingBackup)
    requires s.Status().operationId == Some(op) && BackupHolds(s.disk, op, s.disk.Active())
    ensures var s' := WithStatus(s, s.Status().(applyStage := Some(BackupReady))); Sound(s') && Step(s, s')
  {
  }

  // ---------------------------------------------------------------- the commit of an update

  /** The state after the commit write of applyUpdate, with the active files becoming the committed ones. */
  function Committed(s: Snapshot, op: OpId, version: string, migration: Migrations): Snapshot {
    var st := s.Status().(phase := Finalizing, currentVersion := version,
                          lastAppliedBackup := Some(AppliedBackup(op, version)), applyStage := None,
                          availableVersion := None, migration := Some(migration));
    s.(disk := s.disk.(stored := Some(st)), book := s.book.(committed := s.disk.Active()))
  }

  lemma CommitIsSound(s: Snapshot, op: OpId, version: string, migration: Migrations)
    requires Sound(s) && s.Status().phase == Verifying && s.Status().applyStage == Some(FilesSwitched)
    requires s.Status().operationId == Some(op)
    requires s.disk.env.version == Some(version) && version != ""
    ensures Sound(Committed(s, op, version, migration))
  {
  }

  lemma CommitIsStep(s: Snapshot, op: OpId, version: string, migration: Migrations)
    requires Sound(s) && s.Status().phase == Verifying && s.Status().applyStage == Some(FilesSwitched)
    requires SemVer.Newer(version, s.Status().currentVersion)
    ensures Step(s, Committed(s, op, version, migration))
  {
    var t := Committed(s, op, version, migration);
    assert Commits(s, t) && VersionMoves(s, t);
    assert HistoryKept(s, t) && PromiseKept(s, t);
  }

  // ---------------------------------------------------------------- what a restart concludes

  /** releaseFilesDiverged: compares the active files with `currentVersion` and with the backup that
      belongs to the operation; a file not yet copied is no difference while the backup is being made. */
  predicate ReleaseFilesDiverged(d: Disk, st: Status) {
    if st.operationId.None? then true
    else if d.env.version != Some(st.currentVersion) then true
    else
      var backup := if st.operationId.value in d.backups then d.backups[st.operationId.value] else Backup(None, None);
      var preparing := st.applyStage == Some(PreparingBackup);
      || (if backup.env.Some? then backup.env.value != d.env else !preparing)
      || (if backup.compose.Some? then backup.compose.value != d.compose else !preparing)
  }

  /** The decision of recoverInterruptedOperation. */
  predicate NeedsRollback(d: Disk, st: Status) {
    && InDeployment(st)
    && ((st.applyStage != Some(PreparingBackup) && st.applyStage != Some(BackupReady)) || ReleaseFilesDiverged(d, st))
  }

  /** A restart demands a rollback exactly when the crash may have left other files than those of
      `currentVersion`: comparing files never raises a false alarm, and no crash point is missed. */
  lemma RecoveryDecisionIsExact(s: Snapshot)
    requires Sound(s) && InDeployment(s.Status())
    ensures NeedsRollback(s.disk, s.Status()) <==> Pending(s.Status())
    ensures s.disk.Active() != s.book.committed ==> NeedsRollback(s.disk, s.Status())
    ensures NeedsRollback(s.disk, s.Status()) ==> PendingSound(s)
  {
    var st := s.Status();
    assert st.applyStage.Some?;
    if !Pending(st) {
      assert st.applyStage.value == PreparingBackup || st.applyStage.value == BackupReady;
      var x := st.operationId.value;
      assert s.book.origin[x].files == s.disk.Active();
      if x in s.disk.backups {
        assert s.disk.backups[x].env.Some? ==> s.disk.backups[x].env.value == s.disk.env;
        assert s.disk.backups[x].compose.Some? ==> s.disk.backups[x].compose.value == s.disk.compose;
      }
      assert !ReleaseFilesDiverged(s.disk, st);
    } else {
      assert st.applyStage.value == FilesSwitched || st.applyStage.value == RollingBack;
    }
  }

  // ---------------------------------------------------------------- which backup a rollback uses

  datatype Selection = Selection(backupId: OpId, restoredVersion: string, previous: Option<AppliedBackup>)

  /** The callback of rollbackUpdate: the backup and the version it brings back. */
  function SelectRollback(d: Disk, st: Status): Result<Selection, string> {
    var recovering := && st.phase == Failed
                      && (st.applyStage == Some(FilesSwitched) || st.error == Some(RecoveryRequired));
    var selected := if recovering then st.operationId
                    else if st.lastAppliedBackup.Some? && st.lastAppliedBackup.value.targetVersion == st.currentVersion
                    then Some(st.lastAppliedBackup.value.operationId) else None;
    if selected.None? || selected.value !in d.backups || !Complete(d.backups[selected.value])
    then Failure("UPDATE_BACKUP_NOT_AVAILABLE")
    else
      var restored := d.backups[selected.value].env.value.version.GetOr("");
      if restored == "" then Failure("UPDATE_BACKUP_NOT_AVAILABLE")
      else Success(Selection(selected.value, restored, st.lastAppliedBackup))
  }

  /** A rollback is refused exactly when there is nothing to undo; when it is admitted it brings back
      what was installed before the apply it undoes. */
  lemma SelectionIsExact(s: Snapshot)
    requires Sound(s) && !IsMutating(s.Status().phase)
    ensures SelectRollback(s.disk, s.Status()).Success? <==>
            || Owed(s.Status())
            || (s.Status().lastAppliedBackup.Some?
                && s.Status().lastAppliedBackup.value.targetVersion == s.Status().currentVersion)
    ensures SelectRollback(s.disk, s.Status()).Success? ==>
              var sel := SelectRollback(s.disk, s.Status()).value;
              && sel.backupId in s.book.origin
              && s.book.origin[sel.backupId].version == sel.restoredVersion
              && BackupHolds(s.disk, sel.backupId, s.book.origin[sel.backupId].files)
              && (Owed(s.Status()) ==> BackupId(s.Status()) == Some(sel.backupId))
  {
  }

  // ---------------------------------------------------------------- whole runs

  /** At every instant of every run: if the active files are not those of `currentVersion`, the status
      says so, and names a complete backup of what was installed before. */
  lemma FilesMatchOrRollbackIsOwed(run: seq<Snapshot>, i: nat)
    requires IsRun(run) && i < |run|
    requires run[i].disk.Active() != run[i].book.committed
    ensures || (InDeployment(run[i].Status()) && run[i].Status().applyStage in {Some(FilesSwitched), Some(RollingBack)})
            || (run[i].Status().phase == Failed && run[i].Status().error == Some(RecoveryRequired))
    ensures BackupId(run[i].Status()).Some?
    ensures var x := BackupId(run[i].Status()).value; x in run[i].disk.backups && Complete(run[i].disk.backups[x])
  {
    assert SoundAt(run, i);
  }

  /** What was recorded when an apply began is never rewritten, nor is a complete backup. */
  lemma {:induction false} BackupsAreNeverRewritten(run: seq<Snapshot>, i: nat, j: nat, x: OpId)
    requires IsRun(run) && i <= j < |run|
    requires x in run[i].book.origin
    ensures x in run[j].book.origin && run[j].book.origin[x] == run[i].book.origin[x]
    ensures x in run[i].disk.backups && Complete(run[i].disk.backups[x]) ==>
              x in run[j].disk.backups && run[j].disk.backups[x] == run[i].disk.backups[x]
    decreases j
  {
    if i < j {
      BackupsAreNeverRewritten(run, i, j - 1, x);
      assert StepAt(run, j - 1);
    }
  }

  /** The only way out of recovery is a completed rollback from the backup that was named. */
  lemma {:induction false} OnlyRollbackEndsRecovery(run: seq<Snapshot>, i: nat, j: nat)
    requires IsRun(run) && i <= j < |run|
    requires Owed(run[i].Status())
    requires forall k :: i < k <= j ==> run[k].Status().phase != RolledBack
    ensures Owed(run[j].Status()) && run[j].Status().phase != RolledBack
    ensures BackupId(run[j].Status()) == BackupId(run[i].Status())
    decreases j
  {
    if i < j {
      OnlyRollbackEndsRecovery(run, i, j - 1);
      assert StepAt(run, j - 1);
    }
  }

  /** At instant `i` the apply `x` was about to be admitted, with these files and this version installed. */
  ghost predicate BeganAt(run: seq<Snapshot>, i: nat, x: OpId, was: Installed) {
    && i + 1 < |run| && Admits(run[i], run[i + 1], x)
    && was == Installed(run[i].disk.Active(), run[i].Status().currentVersion)
  }

  /** What is installed at instant `j` is what was installed when the apply `x` was admitted, earlier in the run. */
  ghost predicate BackToBefore(run: seq<Snapshot>, j: nat, x: OpId)
    requires j < |run|
  {
    exists i: nat :: i < j && BeganAt(run, i, x, Installed(run[j].disk.Active(), run[j].Status().currentVersion))
  }

  /** Every apply on record was admitted earlier in the run. */
  lemma {:induction false} OriginHasAdmission(run: seq<Snapshot>, j: nat, x: OpId)
    requires IsRun(run) && j < |run| && run[0].book.origin == map[]
    requires x in run[j].book.origin
    ensures exists i: nat :: i < j && BeganAt(run, i, x, run[j].book.origin[x])
    decreases j
  {
    if j > 0 {
      assert StepAt(run, j - 1);
      if x in run[j - 1].book.origin {
        OriginHasAdmission(run, j - 1, x);
      } else {
        assert BeganAt(run, j - 1, x, run[j].book.origin[x]);
      }
    }
  }

  /** Rollback undoes apply. Whenever a rollback completes, asked for or automatic, after whatever crashes and
      retries, the files and the version are those that were installed when the apply whose backup it used was
      admitted, earlier in the same run. */
  lemma RollbackUndoesApply(run: seq<Snapshot>, j: nat)
    requires IsRun(run) && 0 < j < |run| && run[0].book.origin == map[]
    requires run[j].Status().phase == RolledBack && run[j - 1].Status().phase != RolledBack
    ensures BackupId(run[j - 1].Status()).Some?
    ensures BackToBefore(run, j, BackupId(run[j - 1].Status()).value)
  {
    assert SoundAt(run, j - 1) && SoundAt(run, j) && StepAt(run, j - 1);
    OriginHasAdmission(run, j, BackupId(run[j - 1].Status()).value);
  }

  /** Once recovery is owed, the first rollback that completes brings back what was installed before the apply
      whose backup was named at that time. */
  lemma RecoveryUndoesApply(run: seq<Snapshot>, k: nat, j: nat)
    requires IsRun(run) && k < j < |run| && run[0].book.origin == map[]
    requires Owed(run[k].Status())
    requires forall n :: k < n < j ==> run[n].Status().phase != RolledBack
    requires run[j].Status().phase == RolledBack
    ensures BackupId(run[k].Status()).Some?
    ensures BackToBefore(run, j, BackupId(run[k].Status()).value)
  {
    OnlyRollbackEndsRecovery(run, k, j - 1);
    RollbackUndoesApply(run, j);
  }

  /** The backup of the last applied update holds, at every time, the files that were installed when that update
      was admitted. */
  lemma LastBackupHoldsThePast(run: seq<Snapshot>, j: nat)
    requires IsRun(run) && j < |run| && run[0].book.origin == map[]
    requires run[j].Status().lastAppliedBackup.Some?
    ensures var x := run[j].Status().lastAppliedBackup.value.operationId;
            exists i: nat, was :: i < j && BeganAt(run, i, x, was) && BackupHolds(run[j].disk, x, was.files)
  {
    assert SoundAt(run, j);
    OriginHasAdmission(run, j, run[j].Status().lastAppliedBackup.value.operationId);
  }

  predicate NotOlder(later: string, earlier: string) {
    later == earlier || SemVer.Newer(later, earlier)
  }

  lemma NotOlderIsTransitive(a: string, b: string, c: string)
    requires NotOlder(b, a) && NotOlder(c, b)
    ensures NotOlder(c, a)
  {
    if b != a && c != b { SemVer.NewerIsStrictOrder(c, b, a); }
  }

  /** A transitive relation that holds of neighbours holds of any two members of a chain. */
  lemma {:induction false} TransitiveChain(versions: seq<string>, i: nat, j: nat, related: (string, string) -> bool)
    requires i <= j < |versions|
    requires forall a :: related(a, a)
    requires forall a, b, c :: related(b, a) && related(c, b) ==> related(c, a)
    requires forall k, l :: i <= k && l == k + 1 && l <= j ==> related(versions[l], versions[k])
    ensures related(versions[j], versions[i])
    decreases j
  {
    if i < j { TransitiveChain(versions, i, j - 1, related); }
  }

  function Versions(run: seq<Snapshot>): seq<string> {
    seq(|run|, i requires 0 <= i < |run| => run[i].Status().currentVersion)
  }

  lemma VersionStep(run: seq<Snapshot>, k: nat)
    requires IsRun(run) && k + 1 < |run| && run[k + 1].Status().phase != RolledBack
    ensures NotOlder(run[k + 1].Status().currentVersion, run[k].Status().currentVersion)
  {
    assert StepAt(run, k);
  }

  /** As long as nothing is rolled back, applied versions strictly increase. */
  lemma VersionsIncrease(run: seq<Snapshot>, i: nat, j: nat)
    requires IsRun(run) && i <= j < |run|
    requires forall k :: i < k <= j ==> run[k].Status().phase != RolledBack
    ensures NotOlder(Versions(run)[j], Versions(run)[i])
  {
    forall k, l | i <= k && l == k + 1 && l <= j ensures NotOlder(Versions(run)[l], Versions(run)[k]) {
      VersionStep(run, k);
    }
    forall a, b, c | NotOlder(b, a) && NotOlder(c, b) ensures NotOlder(c, a) {
      NotOlderIsTransitive(a, b, c);
    }
    TransitiveChain(Versions(run), i, j, NotOlder);
  }

  lemma NewerBetween(a: string, b: string, c: string, d: string)
    requires NotOlder(b, a) && SemVer.Newer(c, b) && NotOlder(d, c)
    ensures SemVer.Newer(d, a)
  {
    if b != a { SemVer.NewerIsStrictOrder(c, b, a); }
    if d != c { SemVer.NewerIsStrictOrder(d, c, a); }
  }

  lemma CommitsAreNewer(run: seq<Snapshot>, k: nat)
    requires IsRun(run) && k + 1 < |run| && Commits(run[k], run[k + 1])
    ensures SemVer.Newer(Versions(run)[k + 1], Versions(run)[k])
  {
    assert StepAt(run, k);
  }

  /** An update applied in between makes the later version strictly newer. */
  lemma AppliedVersionIsNewer(run: seq<Snapshot>, i: nat, k: nat, j: nat)
    requires IsRun(run) && i <= k < j < |run|
    requires forall n :: i < n <= j ==> run[n].Status().phase != RolledBack
    requires Commits(run[k], run[k + 1])
    ensures SemVer.Newer(Versions(run)[j], Versions(run)[i])
  {
    assert NotOlder(Versions(run)[k], Versions(run)[i]) by { VersionsIncrease(run, i, k); }
    assert NotOlder(Versions(run)[j], Versions(run)[k + 1]) by { VersionsIncrease(run, k + 1, j); }
    assert SemVer.Newer(Versions(run)[k + 1], Versions(run)[k]) by { CommitsAreNewer(run, k); }
    NewerBetween(Versions(run)[i], Versions(run)[k], Versions(run)[k + 1], Versions(run)[j]);
  }
}
