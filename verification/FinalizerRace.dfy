/**
 Two processes write the status record: the updater (its operations and the reconciliation of
 getStatus, apps/updater/src/update-service.ts) and the finalizer container (apps/updater/src/finalizer.ts).
 Neither locks the file; every write is a read, then the whole record patched and replaced. `Step` is one
 read, one write or one command of one of them; a step that is not possible leaves the state unchanged.
 */
module FinalizerRace {
  import opened Wrappers
  import opened UpdateStatus

  /** The updater's operation in flight; `copy` is the record as it was read. */
  datatype Task =
    | NoTask
    | Admitting(op: OpId, copy: Status)
    | Working(op: OpId)
    | Ending(op: OpId, copy: Status)
    | Committing(op: OpId, copy: Status)
    | Launching(op: OpId)
    | Closing(op: OpId, copy: Status)

  /** The reconciliation behind a status request, which may have read the record long before (`polled`): the
      container was asked about, was seen not to be running, the record has been read again. */
  datatype Reconciliation =
    | NoReconciliation
    | Inspecting(copy: Status)
    | SeenStopped(copy: Status)
    | Patching(latest: Status)

  datatype Stage =
    | Started
    | Read1(copy: Status)
    | Waiting
    | Read2(copy: Status)
    | Exited

  datatype Finalizer = Finalizer(target: string, stage: Stage)

  datatype State = State(
    record: Status, up: bool, task: Task, reconciliation: Reconciliation,
    finalizers: map<OpId, Finalizer>, used: set<OpId>, polled: set<Status>)

  datatype Event =
    // the updater
    | Crash
    | Boot
    | Ask(op: OpId)
    | AdmitWrite(phase: Phase)
    | EndRead(commit: bool)
    | EndWrite(phase: Phase)
    | CommitWrite(version: string)
    | ContainerStarts
    | LaunchReturns
    | CloseWrite
    // getStatus
    | PollReads
    | Poll(copy: Status)
    | InspectReturns(failed: bool)
    | Reload
    | ReconcileWrite
    // the finalizer of operation `op`
    | FinalizerReads(op: OpId)
    | FinalizerWrites(op: OpId)
    | FinalizerDies(op: OpId)

  // ---------------------------------------------------------------- the patches

  function Reconciled(st: Status): Status { st.(phase := Succeeded, operationId := None, error := None) }

  function FinalizerRunning(st: Status, target: string): Status {
    st.(phase := Finalizing, currentVersion := target, availableVersion := None, error := None)
  }

  function FinalizerDone(st: Status, target: string): Status {
    st.(phase := Succeeded, currentVersion := target, availableVersion := None, operationId := None, error := None)
  }

  function Interrupted(st: Status): Status { st.(phase := Failed, error := Some(OperationFailed)) }

  predicate Alive(s: State, x: OpId) { x in s.finalizers && s.finalizers[x].stage != Exited }

  predicate Busy(p: Phase) { IsMutating(p) && p != Finalizing }

  // ---------------------------------------------------------------- the updater

  function TaskStep(s: State, e: Event): State {
    match e
    case Ask(op) =>
      if s.up && s.task == NoTask && op !in s.used
      then s.(task := Admitting(op, s.record), used := s.used + {op}) else s
    case AdmitWrite(phase) =>
      if !s.task.Admitting? || !Busy(phase) then s
      else if IsMutating(s.task.copy.phase) then s.(task := NoTask)
      else s.(record := s.task.copy.(phase := phase, operationId := Some(s.task.op), error := None),
              task := Working(s.task.op))
    case EndRead(commit) =>
      if !s.task.Working? then s
      else s.(task := if commit then Committing(s.task.op, s.record) else Ending(s.task.op, s.record))
    case EndWrite(phase) =>
      if !s.task.Ending? || IsMutating(phase) then s
      else s.(record := s.task.copy.(phase := phase), task := NoTask)
    case CommitWrite(version) =>
      if !s.task.Committing? then s
      else s.(record := s.task.copy.(phase := Finalizing, currentVersion := version), task := Launching(s.task.op))
    case ContainerStarts =>
      if !s.task.Launching? || s.task.op in s.finalizers then s
      else s.(finalizers := s.finalizers[s.task.op := Finalizer(s.record.currentVersion, Started)])
    case LaunchReturns =>
      if !s.task.Launching? then s
      else s.(task := if s.task.op in s.finalizers then NoTask else Closing(s.task.op, s.record))
    case CloseWrite =>
      if !s.task.Closing? then s
      else s.(record := s.task.copy.(phase := Succeeded, operationId := None), task := NoTask)
    case _ => s
  }

  function ReconcileStep(s: State, e: Event): State {
    match e
    case PollReads => if s.up then s.(polled := s.polled + {s.record}) else s
    case Poll(copy) =>
      if s.up && s.task == NoTask && s.reconciliation == NoReconciliation
         && copy in s.polled && copy.phase == Finalizing && copy.operationId.Some?
      then s.(reconciliation := Inspecting(copy)) else s
    case InspectReturns(failed) =>
      if !s.reconciliation.Inspecting? then s
      else if failed || s.reconciliation.copy.operationId.None? || Alive(s, s.reconciliation.copy.operationId.value)
      then s.(reconciliation := NoReconciliation)
      else s.(reconciliation := SeenStopped(s.reconciliation.copy))
    case Reload =>
      if !s.reconciliation.SeenStopped? then s
      else if s.record.phase != Finalizing || s.record.operationId != s.reconciliation.copy.operationId
      then s.(reconciliation := NoReconciliation)
      else s.(reconciliation := Patching(s.record))
    case ReconcileWrite =>
      if !s.reconciliation.Patching? then s
      else s.(record := Reconciled(s.reconciliation.latest), reconciliation := NoReconciliation)
    case _ => s
  }

  function SetStage(s: State, x: OpId, stage: Stage): State
    requires x in s.finalizers
  {
    s.(finalizers := s.finalizers[x := s.finalizers[x].(stage := stage)])
  }

  function FinalizerStep(s: State, e: Event): State {
    match e
    case FinalizerReads(x) =>
      if x !in s.finalizers then s
      else (match s.finalizers[x].stage
            case Started => SetStage(s, x, Read1(s.record))
            case Waiting => SetStage(s, x, Read2(s.record))
            case _ => s)
    case FinalizerWrites(x) =>
      if x !in s.finalizers then s
      else (match s.finalizers[x].stage
            case Read1(copy) => SetStage(s, x, Waiting).(record := FinalizerRunning(copy, s.finalizers[x].target))
            case Read2(copy) => SetStage(s, x, Exited).(record := FinalizerDone(copy, s.finalizers[x].target))
            case _ => s)
    case FinalizerDies(x) => if x in s.finalizers then SetStage(s, x, Exited) else s
    case _ => s
  }

  /** A crash forgets the updater's copies; a boot marks an operation that was interrupted. */
  function ProcessStep(s: State, e: Event): State {
    match e
    case Crash => s.(up := false, task := NoTask, reconciliation := NoReconciliation, polled := {})
    case Boot =>
      if s.up then s
      else s.(up := true, record := if Busy(s.record.phase) then Interrupted(s.record) else s.record)
    case _ => s
  }

  function Step(s: State, e: Event): State {
    match e
    case Crash => ProcessStep(s, e)
    case Boot => ProcessStep(s, e)
    case PollReads => ReconcileStep(s, e)
    case Poll(_) => ReconcileStep(s, e)
    case InspectReturns(_) => ReconcileStep(s, e)
    case Reload => ReconcileStep(s, e)
    case ReconcileWrite => ReconcileStep(s, e)
    case FinalizerReads(_) => FinalizerStep(s, e)
    case FinalizerWrites(_) => FinalizerStep(s, e)
    case FinalizerDies(_) => FinalizerStep(s, e)
    case _ => TaskStep(s, e)
  }

  function Run(s: State, events: seq<Event>): State
    decreases |events|
  {
    if events == [] then s else Run(Step(s, events[0]), events[1..])
  }

  predicate Initial(s: State) {
    && !IsMutating(s.record.phase) && !s.up && s.task == NoTask && s.reconciliation == NoReconciliation
    && s.finalizers == map[] && s.polled == {} && (s.record.operationId.Some? ==> s.record.operationId.value in s.used)
  }

  // ---------------------------------------------------------------- what holds in every state

  predicate Owns(st: Status, x: OpId) { st.phase == Finalizing && st.operationId == Some(x) }

  /** While a finalizer is alive the record is its own, and what it has read is what is there. */
  ghost predicate FinalizersFit(s: State) {
    forall x <- s.finalizers ::
      && x in s.used
      && (Alive(s, x) ==>
            && Owns(s.record, x) && s.record.currentVersion == s.finalizers[x].target
            && (s.finalizers[x].stage.Read1? ==> s.finalizers[x].stage.copy == s.record)
            && (s.finalizers[x].stage.Read2? ==> s.finalizers[x].stage.copy == s.record))
  }

  predicate TaskFits(s: State) {
    match s.task
    case NoTask => s.up ==> !Busy(s.record.phase)
    case Admitting(op, copy) =>
      && s.up && op in s.used && op !in s.finalizers && s.record.operationId != Some(op)
      && !Busy(s.record.phase) && !Busy(copy.phase) && (!IsMutating(copy.phase) ==> copy == s.record)
    case Working(op) =>
      s.up && op in s.used && op !in s.finalizers && Busy(s.record.phase) && s.record.operationId == Some(op)
    case Ending(op, copy) =>
      && s.up && op in s.used && op !in s.finalizers
      && Busy(copy.phase) && copy.operationId == Some(op) && copy == s.record
    case Committing(op, copy) =>
      && s.up && op in s.used && op !in s.finalizers
      && Busy(copy.phase) && copy.operationId == Some(op) && copy == s.record
    case Launching(op) =>
      && s.up && op in s.used
      && (Owns(s.record, op) || (op in s.finalizers && !Alive(s, op) && !IsMutating(s.record.phase)))
    case Closing(op, copy) =>
      s.up && op in s.used && op !in s.finalizers && Owns(copy, op) && copy == s.record
  }

  function TaskOp(t: Task): Option<OpId> {
    match t
    case NoTask => None
    case Admitting(op, _) => Some(op)
    case Working(op) => Some(op)
    case Ending(op, _) => Some(op)
    case Committing(op, _) => Some(op)
    case Launching(op) => Some(op)
    case Closing(op, _) => Some(op)
  }

  /** The launch of the finalizer of `x` is over. */
  predicate LaunchOver(s: State, x: OpId) { x in s.used && TaskOp(s.task) != Some(x) }

  predicate ReconciliationFits(s: State) {
    match s.reconciliation
    case NoReconciliation => true
    case Inspecting(copy) => s.up && copy.operationId.Some? && LaunchOver(s, copy.operationId.value)
    case SeenStopped(copy) =>
      s.up && copy.operationId.Some? && LaunchOver(s, copy.operationId.value) && !Alive(s, copy.operationId.value)
    case Patching(latest) =>
      && s.up && latest.operationId.Some? && Owns(latest, latest.operationId.value) && latest == s.record
      && LaunchOver(s, latest.operationId.value) && !Alive(s, latest.operationId.value)
      && (s.task == NoTask || (s.task.Admitting? && IsMutating(s.task.copy.phase)))
  }

  ghost predicate Inv(s: State) {
    && FinalizersFit(s) && TaskFits(s) && ReconciliationFits(s)
    && (s.record.phase == Finalizing ==> s.record.operationId.Some?)
    && (s.record.operationId.Some? ==> s.record.operationId.value in s.used)
    && (forall copy <- s.polled :: copy.operationId.Some? ==> copy.operationId.value in s.used)
  }

  lemma AdmitKeepsInv(s: State, e: Event)
    requires Inv(s) && (e.Ask? || e.AdmitWrite?)
    ensures Inv(TaskStep(s, e))
  {
    match e { case Ask(_) => case AdmitWrite(_) => }
  }

  lemma EndKeepsInv(s: State, e: Event)
    requires Inv(s) && (e.EndRead? || e.EndWrite? || e.CommitWrite?)
    ensures Inv(TaskStep(s, e))
  {
    match e { case EndRead(_) => case EndWrite(_) => case CommitWrite(_) => }
  }

  lemma LaunchKeepsInv(s: State, e: Event)
    requires Inv(s) && (e == ContainerStarts || e == LaunchReturns || e == CloseWrite)
    ensures Inv(TaskStep(s, e))
  {
    match e { case ContainerStarts => case LaunchReturns => case CloseWrite => }
  }

  lemma TaskKeepsInv(s: State, e: Event)
    requires Inv(s)
    ensures Inv(TaskStep(s, e))
  {
    match e {
      case Ask(_) => AdmitKeepsInv(s, e);
      case AdmitWrite(_) => AdmitKeepsInv(s, e);
      case EndRead(_) => EndKeepsInv(s, e);
      case EndWrite(_) => EndKeepsInv(s, e);
      case CommitWrite(_) => EndKeepsInv(s, e);
      case ContainerStarts => LaunchKeepsInv(s, e);
      case LaunchReturns => LaunchKeepsInv(s, e);
      case CloseWrite => LaunchKeepsInv(s, e);
      case _ =>
    }
  }

  lemma ReconcileKeepsInv(s: State, e: Event)
    requires Inv(s)
    ensures Inv(ReconcileStep(s, e))
  {
    match e {
      case PollReads =>
      case Poll(_) =>
      case InspectReturns(_) =>
      case Reload =>
      case ReconcileWrite =>
      case _ =>
    }
  }

  lemma FinalizerWriteFits(s: State, x: OpId)
    requires Inv(s)
    ensures FinalizersFit(FinalizerStep(s, FinalizerWrites(x)))
  {
    if Alive(s, x) { assert forall y <- s.finalizers :: y != x ==> !Alive(s, y); }
  }

  lemma FinalizerWriteKeepsInv(s: State, x: OpId)
    requires Inv(s)
    ensures Inv(FinalizerStep(s, FinalizerWrites(x)))
  {
    FinalizerWriteFits(s, x);
  }

  lemma FinalizerKeepsInv(s: State, e: Event)
    requires Inv(s)
    ensures Inv(FinalizerStep(s, e))
  {
    match e {
      case FinalizerReads(_) =>
      case FinalizerWrites(x) => FinalizerWriteKeepsInv(s, x);
      case FinalizerDies(_) =>
      case _ =>
    }
  }

  lemma ProcessKeepsInv(s: State, e: Event)
    requires Inv(s)
    ensures Inv(ProcessStep(s, e))
  {
  }

  lemma StepKeepsInv(s: State, e: Event)
    requires Inv(s)
    ensures Inv(Step(s, e))
  {
    TaskKeepsInv(s, e);
    ReconcileKeepsInv(s, e);
    FinalizerKeepsInv(s, e);
    ProcessKeepsInv(s, e);
  }

  lemma {:induction false} RunKeepsInv(s: State, events: seq<Event>)
    requires Inv(s)
    ensures Inv(Run(s, events))
    decreases |events|
  {
    if events != [] {
      StepKeepsInv(s, events[0]);
      RunKeepsInv(Step(s, events[0]), events[1..]);
    }
  }

  lemma ReachableInv(s: State, events: seq<Event>)
    requires Initial(s)
    ensures Inv(Run(s, events))
  {
    RunKeepsInv(s, events);
  }

  // ---------------------------------------------------------------- no update is lost

  /** The copy that the write of this event patches, if the event writes. */
  function WrittenFrom(s: State, e: Event): Option<Status> {
    match e
    case AdmitWrite(phase) =>
      if s.task.Admitting? && Busy(phase) && !IsMutating(s.task.copy.phase) then Some(s.task.copy) else None
    case EndWrite(phase) => if s.task.Ending? && !IsMutating(phase) then Some(s.task.copy) else None
    case CommitWrite(_) => if s.task.Committing? then Some(s.task.copy) else None
    case CloseWrite => if s.task.Closing? then Some(s.task.copy) else None
    case ReconcileWrite => if s.reconciliation.Patching? then Some(s.reconciliation.latest) else None
    case FinalizerWrites(x) =>
      if x !in s.finalizers then None
      else (match s.finalizers[x].stage
            case Read1(copy) => Some(copy)
            case Read2(copy) => Some(copy)
            case _ => None)
    case _ => None
  }

  /** WrittenFrom leaves out no write but the recovery write at boot, which reads and writes alone. */
  lemma OnlyTheseWrite(s: State, e: Event)
    requires Step(s, e).record != s.record
    ensures WrittenFrom(s, e).Some? || e == Boot
  {
    match e {
      case AdmitWrite(_) =>
      case EndWrite(_) =>
      case CommitWrite(_) =>
      case CloseWrite =>
      case ReconcileWrite =>
      case FinalizerWrites(_) =>
      case _ =>
    }
  }

  /** Whoever writes has read the very record that the write replaces: neither process ever overwrites
      what the other wrote after the read, on any interleaving, with crashes of both. */
  lemma NoLostUpdate(s: State, events: seq<Event>, e: Event)
    requires Initial(s)
    requires WrittenFrom(Run(s, events), e).Some?
    ensures WrittenFrom(Run(s, events), e).value == Run(s, events).record
  {
    ReachableInv(s, events);
  }

  /** A reconciliation only ever closes the `finalizing` record of an operation whose finalizer is dead,
      never a record that the finalizer has closed itself. */
  lemma ReconciliationClosesTheDead(s: State, events: seq<Event>)
    requires Initial(s)
    requires Run(s, events).reconciliation.Patching?
    ensures var t := Run(s, events);
            && t.record.phase == Finalizing && t.record.operationId.Some?
            && !Alive(t, t.record.operationId.value)
            && Step(t, ReconcileWrite).record == Reconciled(t.record)
  {
    ReachableInv(s, events);
  }

  /** No operation is admitted while a finalizer may still write, or while a reconciliation is about to. */
  lemma AdmissionAfterLastWrite(s: State, events: seq<Event>, phase: Phase)
    requires Initial(s)
    requires Run(s, events).task.Admitting? && Step(Run(s, events), AdmitWrite(phase)).task.Working?
    ensures var t := Run(s, events);
            (forall x <- t.finalizers :: !Alive(t, x)) && !t.reconciliation.Patching?
  {
    ReachableInv(s, events);
  }

  /** At most one finalizer is alive at any time, and the record is its own. */
  lemma OneFinalizer(s: State, events: seq<Event>, x: OpId, y: OpId)
    requires Initial(s)
    requires Alive(Run(s, events), x) && Alive(Run(s, events), y)
    ensures x == y && Owns(Run(s, events).record, x)
  {
    ReachableInv(s, events);
  }

  // ---------------------------------------------------------------- a dead finalizer

  /** The wanted events occur in this order, with anything in between. */
  predicate Includes(events: seq<Event>, wanted: seq<Event>)
    decreases |events|
  {
    if wanted == [] then true
    else if events == [] then false
    else Includes(events[1..], if events[0] == wanted[0] then wanted[1..] else wanted)
  }

  /** The finalizer of `x` is dead, and a status request is on its way to close the record. */
  ghost predicate UnderWay(s: State, x: OpId) {
    && Inv(s) && Owns(s.record, x) && !Alive(s, x)
    && match s.reconciliation
       case NoReconciliation => false
       case Inspecting(copy) => copy.operationId == Some(x)
       case SeenStopped(copy) => copy.operationId == Some(x)
       case Patching(_) => true
  }

  /** What it still takes. */
  function Missing(r: Reconciliation): seq<Event> {
    match r
    case NoReconciliation => []
    case Inspecting(_) => [InspectReturns(false), Reload, ReconcileWrite]
    case SeenStopped(_) => [Reload, ReconcileWrite]
    case Patching(_) => [ReconcileWrite]
  }

  lemma TaskLeavesRequest(s: State, x: OpId, e: Event)
    requires UnderWay(s, x)
    ensures TaskStep(s, e).record == s.record && TaskStep(s, e).reconciliation == s.reconciliation
    ensures !Alive(TaskStep(s, e), x)
  {
    match e {
      case AdmitWrite(_) =>
      case EndWrite(_) =>
      case CommitWrite(_) =>
      case ContainerStarts =>
      case CloseWrite =>
      case _ =>
    }
  }

  lemma FinalizerLeavesRequest(s: State, x: OpId, e: Event)
    requires UnderWay(s, x)
    ensures FinalizerStep(s, e).record == s.record && FinalizerStep(s, e).reconciliation == s.reconciliation
    ensures !Alive(FinalizerStep(s, e), x)
  {
    match e {
      case FinalizerReads(y) => assert !Alive(s, y) || y == x;
      case FinalizerWrites(y) => assert !Alive(s, y) || y == x;
      case FinalizerDies(_) =>
      case _ =>
    }
  }

  lemma RequestAdvances(s: State, x: OpId, e: Event)
    requires UnderWay(s, x) && e != InspectReturns(true)
    ensures var t, wanted := ReconcileStep(s, e), Missing(s.reconciliation);
            && !Alive(t, x)
            && if e == wanted[0] && |wanted| == 1 then t.record == Reconciled(s.record)
               else t.record == s.record && t.reconciliation != NoReconciliation
                    && Missing(t.reconciliation) == (if e == wanted[0] then wanted[1..] else wanted)
                    && (t.reconciliation.Inspecting? ==> t.reconciliation == s.reconciliation)
                    && (t.reconciliation.SeenStopped? && s.reconciliation.SeenStopped? ==>
                          t.reconciliation == s.reconciliation)
                    && (t.reconciliation.SeenStopped? && s.reconciliation.Inspecting? ==>
                          t.reconciliation.copy == s.reconciliation.copy)
  {
    match e {
      case InspectReturns(_) =>
      case Reload =>
      case ReconcileWrite =>
      case _ =>
    }
  }

  /** Nothing but a crash of the updater or a failing inspection stops the request. */
  lemma UnderWayAdvances(s: State, x: OpId, e: Event)
    requires UnderWay(s, x) && e != Crash && e != InspectReturns(true)
    ensures var t, wanted := Step(s, e), Missing(s.reconciliation);
            if e == wanted[0] && |wanted| == 1 then t.record == Reconciled(s.record)
            else UnderWay(t, x) && t.record == s.record
                 && Missing(t.reconciliation) == if e == wanted[0] then wanted[1..] else wanted
  {
    StepKeepsInv(s, e);
    TaskLeavesRequest(s, x, e);
    FinalizerLeavesRequest(s, x, e);
    RequestAdvances(s, x, e);
  }

  /** If a finalizer died, or never started, a status request that is under way ends the operation as succeeded,
      under the version the update installed: in every interleaving with the finalizers, with new operations and
      with other requests, unless the updater crashes or the inspection fails. */
  lemma {:induction false} DeadFinalizerIsClosed(s: State, x: OpId, events: seq<Event>)
    requires UnderWay(s, x)
    requires Crash !in events && InspectReturns(true) !in events
    requires Includes(events, Missing(s.reconciliation))
    ensures exists k :: 0 <= k <= |events| && Run(s, events[..k]).record == Reconciled(s.record)
    decreases |events|
  {
    var e, rest, wanted := events[0], events[1..], Missing(s.reconciliation);
    var t := Step(s, e);
    UnderWayAdvances(s, x, e);
    assert events == [e] + rest;
    if e == wanted[0] && |wanted| == 1 {
      assert events[..1] == [e] && Run(t, []) == t;
      assert Run(s, events[..1]).record == Reconciled(s.record);
    } else {
      DeadFinalizerIsClosed(t, x, rest);
      var k :| 0 <= k <= |rest| && Run(t, rest[..k]).record == Reconciled(s.record);
      assert events[..k + 1][1..] == rest[..k];
      assert Run(s, events[..k + 1]).record == Reconciled(s.record);
    }
  }

  /** Such a request begins whenever one finds the updater idle. */
  lemma PollBeginsRequest(s: State, x: OpId)
    requires Inv(s) && s.up && s.task == NoTask && s.reconciliation == NoReconciliation
    requires Owns(s.record, x) && !Alive(s, x)
    ensures var t := Step(Step(s, PollReads), Poll(s.record));
            UnderWay(t, x) && t.record == s.record && t.reconciliation == Inspecting(s.record)
  {
    StepKeepsInv(s, PollReads);
    StepKeepsInv(Step(s, PollReads), Poll(s.record));
  }
}
