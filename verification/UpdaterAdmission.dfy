/**
 The admission of an operation (startOperation in apps/updater/src/update-service.ts): which requests the
 stored status refuses, and the write that admits one.
 */
module UpdaterAdmission {
  import opened Wrappers
  import opened UpdateStatus
  import opened UpdaterSpec

  datatype Kind = Check | Download | Apply | Rollback | Restart

  function PhaseOf(k: Kind): Phase {
    match k
    case Check => Checking
    case Download => Downloading
    case Apply => Applying
    case Rollback => Applying
    case Restart => Restarting
  }

  /** The reply to a request: 202, 409 with one of two errors, or none because the process died. */
  datatype Admission =
    | Accepted(operationId: OpId, selection: Option<Selection>)
    | InProgress(activeId: Option<OpId>)
    | Precondition(code: string)
    | NoReply

  // ---------------------------------------------------------------- refusals

  /** What the stored status refuses, in order; None admits the request. */
  function StoredRefusal(d: Disk, st: Status, kind: Kind): (a: Option<Admission>)
    ensures a.Some? ==> a.value.InProgress? || a.value.Precondition?
  {
    if IsMutating(st.phase) then Some(InProgress(st.operationId))
    else if kind != Rollback && st.error == Some(RecoveryRequired)
    then Some(Precondition("UPDATE_ROLLBACK_RECOVERY_REQUIRED"))
    else if kind == Apply && st.phase != ReadyToApply then Some(Precondition("UPDATE_NOT_READY"))
    else if kind == Rollback && SelectRollback(d, st).Failure?
    then Some(Precondition(SelectRollback(d, st).error))
    else None
  }

  /** The backup of a rollback that is admitted. */
  function Selected(d: Disk, st: Status, kind: Kind): Option<Selection> {
    if kind == Rollback && SelectRollback(d, st).Success? then Some(SelectRollback(d, st).value) else None
  }

  /** There is an update that a rollback can undo. */
  predicate Undoable(st: Status) {
    || Owed(st)
    || (st.lastAppliedBackup.Some? && st.lastAppliedBackup.value.targetVersion == st.currentVersion)
  }

  /** At every sound state a request is admitted exactly if nothing runs, an owed rollback is not passed over,
      an apply finds a release that is ready, and a rollback an update it can undo. While a rollback is owed, the
      one request that is admitted restores the backup that is named. */
  lemma AdmissionIsExact(s: Snapshot, kind: Kind)
    requires Sound(s)
    ensures StoredRefusal(s.disk, s.Status(), kind) == None <==>
            && !IsMutating(s.Status().phase)
            && (Owed(s.Status()) ==> kind == Rollback)
            && (kind == Apply ==> s.Status().phase == ReadyToApply)
            && (kind == Rollback ==> Undoable(s.Status()))
    ensures Owed(s.Status()) && !IsMutating(s.Status().phase) ==>
            && StoredRefusal(s.disk, s.Status(), Rollback) == None
            && Selected(s.disk, s.Status(), Rollback).Some?
            && BackupId(s.Status()) == Some(Selected(s.disk, s.Status(), Rollback).value.backupId)
  {
    if !IsMutating(s.Status().phase) { SelectionIsExact(s); }
  }

  // ---------------------------------------------------------------- the write that admits

  function AdmittedStatus(st: Status, kind: Kind, op: OpId, sel: Option<Selection>): Status {
    st.(phase := PhaseOf(kind), operationId := Some(op),
        applyStage := if kind == Rollback then Some(RollingBack)
                      else if kind == Apply then Some(PreparingBackup) else None,
        rollbackBackupOperationId := if sel.Some? then Some(sel.value.backupId) else None,
        error := None)
  }

  /** The history after an admission: an apply records what is installed. */
  ghost function Recorded(s: Snapshot, kind: Kind, op: OpId): Book {
    if kind == Apply
    then s.book.(origin := s.book.origin[op := Installed(s.disk.Active(), s.Status().currentVersion)])
    else s.book
  }

  ghost function AdmittedSnapshot(s: Snapshot, kind: Kind, op: OpId, sel: Option<Selection>): Snapshot {
    Snapshot(s.disk.(stored := Some(AdmittedStatus(s.Status(), kind, op, sel))), Recorded(s, kind, op), s.configured)
  }

  lemma PlainAdmission(s: Snapshot, kind: Kind, op: OpId)
    requires Sound(s) && kind != Apply && kind != Rollback && StoredRefusal(s.disk, s.Status(), kind) == None
    ensures Sound(AdmittedSnapshot(s, kind, op, None)) && Step(s, AdmittedSnapshot(s, kind, op, None))
  {
  }

  lemma ApplyAdmissionIsSound(s: Snapshot, op: OpId)
    requires Sound(s) && StoredRefusal(s.disk, s.Status(), Apply) == None && op !in s.book.origin
    ensures Sound(AdmittedSnapshot(s, Apply, op, None))
  {
  }

  lemma ApplyAdmissionIsStep(s: Snapshot, op: OpId)
    requires Sound(s) && StoredRefusal(s.disk, s.Status(), Apply) == None && op !in s.book.origin
    ensures Step(s, AdmittedSnapshot(s, Apply, op, None))
  {
  }

  lemma RollbackAdmissionIsSound(s: Snapshot, op: OpId)
    requires Sound(s) && StoredRefusal(s.disk, s.Status(), Rollback) == None
    ensures Sound(AdmittedSnapshot(s, Rollback, op, Selected(s.disk, s.Status(), Rollback)))
  {
    SelectionIsExact(s);
  }

  lemma RollbackAdmissionIsStep(s: Snapshot, op: OpId)
    requires Sound(s) && StoredRefusal(s.disk, s.Status(), Rollback) == None
    ensures Step(s, AdmittedSnapshot(s, Rollback, op, Selected(s.disk, s.Status(), Rollback)))
  {
    SelectionIsExact(s);
  }

  /** What the background task of an operation finds. */
  ghost predicate Ready(s: Snapshot, kind: Kind, op: OpId, sel: Option<Selection>) {
    var st := s.Status();
    && st.phase == PhaseOf(kind) && st.operationId == Some(op) && st.error == None
    && (kind == Apply ==> st.applyStage == Some(PreparingBackup) && op !in s.disk.backups)
    && (kind == Rollback ==>
          && st.applyStage == Some(RollingBack) && sel.Some?
          && st.rollbackBackupOperationId == Some(sel.value.backupId)
          && st.lastAppliedBackup == sel.value.previous
          && sel.value.backupId in s.book.origin
          && s.book.origin[sel.value.backupId].version == sel.value.restoredVersion)
  }

  lemma AdmittedIsReady(s: Snapshot, kind: Kind, op: OpId)
    requires Sound(s) && StoredRefusal(s.disk, s.Status(), kind) == None && op !in s.book.origin
    ensures var sel := Selected(s.disk, s.Status(), kind); Ready(AdmittedSnapshot(s, kind, op, sel), kind, op, sel)
  {
    if kind == Rollback { SelectionIsExact(s); }
  }

  /** The write of an admission keeps every invariant, whatever the operation. */
  lemma AdmissionIsStep(s: Snapshot, kind: Kind, op: OpId)
    requires Sound(s) && StoredRefusal(s.disk, s.Status(), kind) == None && op !in s.book.origin
    ensures var s' := AdmittedSnapshot(s, kind, op, Selected(s.disk, s.Status(), kind)); Sound(s') && Step(s, s')
  {
    match kind {
      case Apply =>
        assert Sound(AdmittedSnapshot(s, Apply, op, None)) by { ApplyAdmissionIsSound(s, op); }
        assert Step(s, AdmittedSnapshot(s, Apply, op, None)) by { ApplyAdmissionIsStep(s, op); }
      case Rollback =>
        var s' := AdmittedSnapshot(s, Rollback, op, Selected(s.disk, s.Status(), Rollback));
        assert Sound(s') by { RollbackAdmissionIsSound(s, op); }
        assert Step(s, s') by { RollbackAdmissionIsStep(s, op); }
      case _ => PlainAdmission(s, kind, op);
    }
  }
}
