/**
 prepareProjectionRollback and completeProjectionRollback (apps/updater/src/update-service.ts) with
 everything that runs beside them: the watchdog timer, the compose command that may still be starting
 services while the watchdog stops them, the detached lock holder, and the mutators of the database.
 A command is what its SQL does to the gate, the lock and the v2 state (apps/updater/src/compose.ts).

 `Step` is one event; an event that is not possible in a state leaves it unchanged. A failing command may
 have had its effect nevertheless. A crash clears the process and leaves the world.
 */
module ProjectionRollback {

  datatype Service = Api | Admin | Deno

  /** The detached psql session: not there, not yet through the advisory lock, or holding it. */
  datatype Holder = Absent | Starting | Holding

  /** `table`: whether the gate table exists. `mutating`: a mutator holds the global lock after it has
      found the gate inactive. `v2`: whether there is any v2 projection state. */
  datatype World = World(table: bool, gate: bool, v2: bool, mutating: bool, holder: Holder, running: set<Service>)
  {
    predicate Gated() { table ==> gate }
    predicate LockFree() { !mutating && holder != Holding }
  }

  datatype Pc =
    | Rest
    // prepareProjectionRollback
    | Stop | Enable | ReleaseStale | Check | StartHolder | AwaitLock(attempt: nat) | PrepareThrew
    // completeProjectionRollback: the probes are numbered in program order
    | Probe(n: nat) | RestoreEnv | RestoreCompose | Worker | Up | WriteVerifying | Health
    | Drain | Disable | AwaitRelease | Returned
    | CatchDrain | CatchEnable | CatchStop(enabled: bool) | Threw(enabled: bool, stopped: bool)

  datatype Watchdog = Quiet | Probing | Stopping

  datatype Files = Untouched | EnvRestored | Restored

  /** `checked`, `seen`, `released` and `probeFailed` are the history of the current attempt: the v2 check
      has passed, a probe saw the holder, the gate has been released, a watchdog probe has failed. */
  datatype Process = Process(
    pc: Pc, watching: bool, watchdog: Watchdog, holderFailure: bool,
    files: Files, checked: bool, seen: bool, released: bool, probeFailed: bool)

  datatype State = State(p: Process, w: World)

  datatype Event =
    | Begin
    | Crash
    | Main(ok: bool, effect: bool, left: set<Service>)
    | HealthProbe(ok: bool)
    | Tick
    | WatchdogProbe(ok: bool)
    | WatchdogStop(ok: bool, left: set<Service>)
    | ComposeActs(running: set<Service>)
    | HolderLocks | HolderExits | HolderDies
    | MutatorBegins | MutatorCommits(v2: bool)

  // ---------------------------------------------------------------- the process

  function Goto(s: State, pc: Pc): State { s.(p := s.p.(pc := pc)) }

  /** A throw inside the try block: the catch block clears the interval first. */
  function Catch(s: State): State { s.(p := s.p.(pc := CatchDrain, watching := false)) }

  function AfterProbe(n: nat): Pc {
    if n == 1 then RestoreEnv else if n == 2 then Worker else if n == 3 then Up
    else if n == 4 then WriteVerifying else Drain
  }

  /** The lock-ready statement: the named holder has the lock, under an active gate. */
  predicate Ready(w: World) { w.holder == Holding && w.Gated() }

  /** `docker stop` of the three services: a failure may have stopped some of them. */
  function AfterStop(w: World, ok: bool, left: set<Service>): World {
    w.(running := if ok then {} else w.running * left)
  }

  /** prepareProjectionRollback: the command the process is waiting for ends. */
  function PrepareStep(s: State, ok: bool, effect: bool, left: set<Service>): State {
    var w := s.w;
    match s.p.pc
    case Stop => Goto(s.(w := AfterStop(w, ok, left)), if ok then Enable else PrepareThrew)
    case Enable =>
      Goto(s.(w := w.(gate := w.gate || (w.table && (ok || effect)))), if ok then ReleaseStale else PrepareThrew)
    case ReleaseStale =>
      var done := ok && !w.mutating;
      Goto(s.(w := w.(holder := if w.holder == Holding && (done || effect) then Absent else w.holder)),
           if done then Check else PrepareThrew)
    case Check =>
      var passed := ok && w.LockFree() && w.Gated() && !w.v2;
      if passed then s.(p := s.p.(pc := StartHolder, checked := true)) else Goto(s, PrepareThrew)
    case StartHolder =>
      Goto(s.(w := w.(holder := if w.holder == Absent && (ok || effect) then Starting else w.holder)),
           if ok then AwaitLock(0) else PrepareThrew)
    case AwaitLock(attempt) =>
      if ok && Ready(w) then s.(p := s.p.(pc := Probe(1), seen := true, watching := true))
      else Goto(s, if attempt + 1 < 40 then AwaitLock(attempt + 1) else PrepareThrew)
    case _ => s
  }

  /** The try block of completeProjectionRollback up to the last probe. */
  function TryStep(s: State, ok: bool, left: set<Service>): State {
    var w := s.w;
    match s.p.pc
    case Probe(n) =>
      if ok && Ready(w) && !s.p.holderFailure
      then s.(p := s.p.(pc := AfterProbe(n), watching := s.p.watching && n != 5)) else Catch(s)
    case RestoreEnv => s.(p := s.p.(pc := RestoreCompose, files := EnvRestored))
    case RestoreCompose =>
      var s' := s.(p := s.p.(files := Restored));
      if ok then Goto(s', Probe(2)) else Catch(s')
    case Worker =>
      var s' := s.(w := w.(running := left));
      if ok then Goto(s', Probe(3)) else Catch(s')
    case Up =>
      var s' := s.(w := w.(running := left));
      if ok then Goto(s', Probe(4)) else Catch(s')
    case WriteVerifying => Goto(s, Health)
    case Health => if ok && Ready(w) && !s.p.holderFailure then Goto(s, Probe(5)) else Catch(s)
    case _ => s
  }

  /** The rest of the try block: the drained watchdog has the last word, then the gate is released. */
  function ReleaseStep(s: State, ok: bool, effect: bool): State {
    var w := s.w;
    match s.p.pc
    case Drain =>
      if s.p.watchdog != Quiet then s
      else if s.p.holderFailure then Catch(s) else Goto(s, Disable)
    case Disable =>
      var done := ok && w.holder == Holding;
      var s' := if done || effect then s.(w := w.(gate := w.gate && !w.table), p := s.p.(released := true)) else s;
      if done then Goto(s', AwaitRelease) else Catch(s')
    case AwaitRelease =>
      var done := ok && !w.mutating && !(w.table && w.gate) && (w.table || w.holder == Holding);
      var s' := s.(w := w.(holder := if w.holder == Holding && (done || effect) then Absent else w.holder));
      if done then Goto(s', Returned) else Catch(s')
    case _ => s
  }

  /** The catch block: drain the watchdog, enable the gate, and stop the services whatever that did. */
  function CatchStep(s: State, ok: bool, effect: bool, left: set<Service>): State {
    var w := s.w;
    match s.p.pc
    case CatchDrain => if s.p.watchdog != Quiet then s else Goto(s, CatchEnable)
    case CatchEnable => Goto(s.(w := w.(gate := w.gate || (w.table && (ok || effect)))), CatchStop(ok))
    case CatchStop(enabled) => Goto(s.(w := AfterStop(w, ok, left)), Threw(enabled, ok))
    case _ => s
  }

  function MainStep(s: State, ok: bool, effect: bool, left: set<Service>): State {
    match PartOf(s.p.pc)
    case Preparing => PrepareStep(s, ok, effect, left)
    case Trying => TryStep(s, ok, left)
    case Draining => ReleaseStep(s, ok, effect)
    case Releasing => ReleaseStep(s, ok, effect)
    case Catching => CatchStep(s, ok, effect, left)
    case Resting => s
  }

  predicate AtRest(pc: Pc) { pc == Rest || pc == PrepareThrew || pc == Returned || pc.Threw? }

  function Step(s: State, e: Event): State {
    var p, w := s.p, s.w;
    match e
    case Begin =>
      if AtRest(p.pc) then s.(p := Process(Stop, false, Quiet, false, Untouched, false, false, false, false)) else s
    case Crash => s.(p := Process(Rest, false, Quiet, false, Untouched, false, false, false, false))
    case Main(ok, effect, left) => MainStep(s, ok, effect, left)
    case HealthProbe(ok) =>
      if p.pc != Health || (ok && Ready(w) && !p.holderFailure) then s else Catch(s)
    case Tick => if p.watching && p.watchdog == Quiet then s.(p := p.(watchdog := Probing)) else s
    case WatchdogProbe(ok) =>
      if p.watchdog != Probing then s
      else if ok && Ready(w) && !p.holderFailure then s.(p := p.(watchdog := Quiet))
      else s.(p := p.(watchdog := Stopping, holderFailure := true, probeFailed := true))
    case WatchdogStop(ok, left) =>
      if p.watchdog != Stopping then s
      else s.(p := p.(watchdog := Quiet, holderFailure := true), w := AfterStop(w, ok, left))
    case ComposeActs(running) =>
      if p.pc == Worker || p.pc == Up then s.(w := w.(running := running)) else s
    case HolderLocks =>
      if w.holder == Starting && w.LockFree() then s.(w := w.(holder := if w.Gated() then Holding else Absent)) else s
    case HolderExits => if w.holder == Holding && w.table && !w.gate then s.(w := w.(holder := Absent)) else s
    case HolderDies => s.(w := w.(holder := Absent))
    case MutatorBegins => if w.LockFree() && !(w.table && w.gate) then s.(w := w.(mutating := true)) else s
    case MutatorCommits(v2) => if w.mutating then s.(w := w.(mutating := false, v2 := v2)) else s
  }

  function Run(s: State, events: seq<Event>): State
    decreases |events|
  {
    if events == [] then s else Run(Step(s, events[0]), events[1..])
  }

  predicate Initial(s: State) {
    && s.p == Process(Rest, false, Quiet, false, Untouched, false, false, false, false)
    && !(s.w.mutating && s.w.holder == Holding)
  }

  // ---------------------------------------------------------------- what holds in every state

  /** Where the process stands, coarsely. */
  datatype Part = Preparing | Trying | Draining | Releasing | Catching | Resting

  function PartOf(pc: Pc): Part {
    match pc
    case Stop => Preparing
    case Enable => Preparing
    case ReleaseStale => Preparing
    case Check => Preparing
    case StartHolder => Preparing
    case AwaitLock(_) => Preparing
    case Drain => Draining
    case Disable => Releasing
    case AwaitRelease => Releasing
    case CatchDrain => Catching
    case CatchEnable => Catching
    case CatchStop(_) => Catching
    case Rest => Resting
    case PrepareThrew => Resting
    case Returned => Resting
    case Threw(_, _) => Resting
    case _ => Trying
  }

  /** Between the enable that prepare waits for and the end of the disable command. */
  predicate GateWindow(pc: Pc) {
    match PartOf(pc)
    case Preparing => pc != Stop && pc != Enable
    case Trying => true
    case Draining => true
    case Releasing => pc == Disable
    case Catching => false
    case Resting => false
  }

  /** Which release files are in place, and that they came after the check and the probe. */
  predicate FilesFit(p: Process) {
    && (p.files != Untouched ==> p.checked && p.seen)
    && match PartOf(p.pc)
       case Preparing => p.files == Untouched && !p.seen && (p.pc == StartHolder || p.pc.AwaitLock? ==> p.checked)
       case Trying =>
         && p.checked && p.seen
         && (match p.pc
             case Probe(n) => 1 <= n <= 5 && p.files == (if n == 1 then Untouched else Restored)
             case RestoreEnv => p.files == Untouched
             case RestoreCompose => p.files == EnvRestored
             case _ => p.files == Restored)
       case Draining => p.checked && p.seen && p.files == Restored
       case Releasing => p.checked && p.seen && p.files == Restored
       case Catching => true
       case Resting => p.pc == Returned ==> p.checked && p.seen && p.files == Restored
  }

  /** Once the check has passed under the gate, there is no v2 state, nor anybody about to make some. */
  predicate GateFits(p: Process, w: World) {
    && (w.mutating ==> w.holder != Holding)
    && (GateWindow(p.pc) ==> w.Gated())
    && (p.checked && !p.released && w.table ==> w.gate && !w.mutating && !w.v2)
    && (p.released ==> p.pc == AwaitRelease || p.pc == Returned || PartOf(p.pc) == Catching || p.pc.Threw?)
    && (p.pc == AwaitRelease || p.pc == Returned ==> p.released && (w.table ==> !w.gate))
  }

  /** The watchdog is quiet once it has been drained, and a failure of its is never forgotten. */
  predicate WatchdogFits(p: Process) {
    && (p.probeFailed ==> p.holderFailure)
    && (p.watchdog == Stopping ==> p.holderFailure)
    && (p.watching ==> PartOf(p.pc) == Trying)
    && (p.watchdog != Quiet ==> PartOf(p.pc) == Trying || PartOf(p.pc) == Draining || p.pc == CatchDrain)
    && (PartOf(p.pc) == Releasing || p.pc == Returned ==> !p.holderFailure)
  }

  /** After a throw: what the two last commands did still stands. */
  predicate CatchFits(p: Process, w: World) {
    && (p.pc.CatchStop? && p.pc.enabled ==> w.Gated())
    && (p.pc.Threw? && p.pc.enabled ==> w.Gated())
    && (p.pc.Threw? && p.pc.stopped ==> w.running == {})
  }

  predicate Inv(s: State) {
    FilesFit(s.p) && GateFits(s.p, s.w) && WatchdogFits(s.p) && CatchFits(s.p, s.w)
  }

  lemma InitialInv(s: State)
    requires Initial(s)
    ensures Inv(s)
  {
  }

  lemma StopKeepsInv(s: State, ok: bool, effect: bool, left: set<Service>)
    requires Inv(s) && (s.p.pc == Stop || s.p.pc == Enable)
    ensures Inv(PrepareStep(s, ok, effect, left))
  {
    match s.p.pc { case Stop => case Enable => }
  }

  lemma CheckKeepsInv(s: State, ok: bool, effect: bool, left: set<Service>)
    requires Inv(s) && (s.p.pc == ReleaseStale || s.p.pc == Check)
    ensures Inv(PrepareStep(s, ok, effect, left))
  {
    match s.p.pc { case ReleaseStale => case Check => }
  }

  lemma HolderKeepsInv(s: State, ok: bool, effect: bool, left: set<Service>)
    requires Inv(s) && (s.p.pc == StartHolder || s.p.pc.AwaitLock?)
    ensures Inv(PrepareStep(s, ok, effect, left))
  {
    match s.p.pc { case StartHolder => case AwaitLock(_) => }
  }

  lemma PrepareKeepsInv(s: State, ok: bool, effect: bool, left: set<Service>)
    requires Inv(s) && PartOf(s.p.pc) == Preparing
    ensures Inv(PrepareStep(s, ok, effect, left))
  {
    match s.p.pc {
      case Stop => StopKeepsInv(s, ok, effect, left);
      case Enable => StopKeepsInv(s, ok, effect, left);
      case ReleaseStale => CheckKeepsInv(s, ok, effect, left);
      case Check => CheckKeepsInv(s, ok, effect, left);
      case StartHolder => HolderKeepsInv(s, ok, effect, left);
      case AwaitLock(_) => HolderKeepsInv(s, ok, effect, left);
    }
  }

  lemma ProbeKeepsInv(s: State, ok: bool, left: set<Service>)
    requires Inv(s) && s.p.pc.Probe?
    ensures Inv(TryStep(s, ok, left))
  {
  }

  lemma RestoreKeepsInv(s: State, ok: bool, left: set<Service>)
    requires Inv(s) && (s.p.pc == RestoreEnv || s.p.pc == RestoreCompose)
    ensures Inv(TryStep(s, ok, left))
  {
    match s.p.pc { case RestoreEnv => case RestoreCompose => }
  }

  lemma ComposeKeepsInv(s: State, ok: bool, left: set<Service>)
    requires Inv(s) && (s.p.pc == Worker || s.p.pc == Up)
    ensures Inv(TryStep(s, ok, left))
  {
    match s.p.pc { case Worker => case Up => }
  }

  lemma HealthKeepsInv(s: State, ok: bool, left: set<Service>)
    requires Inv(s) && (s.p.pc == WriteVerifying || s.p.pc == Health)
    ensures Inv(TryStep(s, ok, left))
  {
    match s.p.pc { case WriteVerifying => case Health => }
  }

  lemma TryKeepsInv(s: State, ok: bool, left: set<Service>)
    requires Inv(s) && PartOf(s.p.pc) == Trying
    ensures Inv(TryStep(s, ok, left))
  {
    match s.p.pc {
      case Probe(_) => ProbeKeepsInv(s, ok, left);
      case RestoreEnv => RestoreKeepsInv(s, ok, left);
      case RestoreCompose => RestoreKeepsInv(s, ok, left);
      case Worker => ComposeKeepsInv(s, ok, left);
      case Up => ComposeKeepsInv(s, ok, left);
      case WriteVerifying => HealthKeepsInv(s, ok, left);
      case Health => HealthKeepsInv(s, ok, left);
    }
  }

  lemma ReleaseKeepsInv(s: State, ok: bool, effect: bool)
    requires Inv(s) && (PartOf(s.p.pc) == Draining || PartOf(s.p.pc) == Releasing)
    ensures Inv(ReleaseStep(s, ok, effect))
  {
  }

  lemma CatchStopKeepsInv(s: State, ok: bool, effect: bool, left: set<Service>)
    requires Inv(s) && s.p.pc.CatchStop?
    ensures Inv(CatchStep(s, ok, effect, left))
  {
  }

  lemma CatchEnableKeepsInv(s: State, ok: bool, effect: bool, left: set<Service>)
    requires Inv(s) && (s.p.pc == CatchDrain || s.p.pc == CatchEnable)
    ensures Inv(CatchStep(s, ok, effect, left))
  {
    match s.p.pc { case CatchDrain => case CatchEnable => }
  }

  lemma CatchKeepsInv(s: State, ok: bool, effect: bool, left: set<Service>)
    requires Inv(s) && PartOf(s.p.pc) == Catching
    ensures Inv(CatchStep(s, ok, effect, left))
  {
    match s.p.pc {
      case CatchDrain => CatchEnableKeepsInv(s, ok, effect, left);
      case CatchEnable => CatchEnableKeepsInv(s, ok, effect, left);
      case CatchStop(_) => CatchStopKeepsInv(s, ok, effect, left);
    }
  }

  lemma MainKeepsInv(s: State, ok: bool, effect: bool, left: set<Service>)
    requires Inv(s)
    ensures Inv(MainStep(s, ok, effect, left))
  {
    match PartOf(s.p.pc) {
      case Preparing => PrepareKeepsInv(s, ok, effect, left);
      case Trying => TryKeepsInv(s, ok, left);
      case Draining => ReleaseKeepsInv(s, ok, effect);
      case Releasing => ReleaseKeepsInv(s, ok, effect);
      case Catching => CatchKeepsInv(s, ok, effect, left);
      case Resting =>
    }
  }

  lemma WatchdogKeepsInv(s: State, e: Event)
    requires Inv(s) && (e.HealthProbe? || e == Tick || e.WatchdogProbe? || e.WatchdogStop?)
    ensures Inv(Step(s, e))
  {
    match e { case HealthProbe(_) => case Tick => case WatchdogProbe(_) => case WatchdogStop(_, _) => }
  }

  lemma StepKeepsInv(s: State, e: Event)
    requires Inv(s)
    ensures Inv(Step(s, e))
  {
    match e {
      case Main(ok, effect, left) => MainKeepsInv(s, ok, effect, left);
      case HealthProbe(_) => WatchdogKeepsInv(s, e);
      case Tick => WatchdogKeepsInv(s, e);
      case WatchdogProbe(_) => WatchdogKeepsInv(s, e);
      case WatchdogStop(_, _) => WatchdogKeepsInv(s, e);
      case _ =>
    }
  }

  lemma {:induction false} RunKeepsInv(s: State, events: seq<Event>)
    requires Inv(s)
    ensures Inv(Run(s, events))
    decreases |events|
  {
    if events != [] {
      StepKeepsInv(s, events[0]);
      RunKeepsInv(Step(s, events[0]), events[1..]);
    }
  }

  // ---------------------------------------------------------------- what an attempt guarantees

  /** Whatever happens beside it, completeProjectionRollback returns normally only if no watchdog probe has
      failed; the files are then restored, the check and a probe came first, and the gate is released. */
  lemma NormalReturn(s: State, events: seq<Event>)
    requires Initial(s)
    requires Run(s, events).p.pc == Returned
    ensures var t := Run(s, events);
            && !t.p.probeFailed && !t.p.holderFailure
            && t.p.files == Restored && t.p.checked && t.p.seen
            && t.p.watchdog == Quiet && !t.p.watching
            && (t.w.table ==> !t.w.gate)
  {
    InitialInv(s);
    RunKeepsInv(s, events);
  }

  /** However it was left, and whatever rollbackUp and the watchdog's own stop did to each other: a throw
      ends under an active gate and with every service down, if the two last commands succeeded. */
  lemma ThrowEndsGatedAndStopped(s: State, events: seq<Event>, enabled: bool, stopped: bool)
    requires Initial(s)
    requires Run(s, events).p.pc == Threw(enabled, stopped)
    ensures enabled ==> Run(s, events).w.Gated()
    ensures stopped ==> Run(s, events).w.running == {}
  {
    InitialInv(s);
    RunKeepsInv(s, events);
  }

  /** A release file is only replaced after the check passed and a probe saw the holder in this attempt;
      with the gate table, under an active gate, without v2 state and with no mutator about to make some. */
  lemma FilesAreReplacedUnderGate(s: State, events: seq<Event>, e: Event)
    requires Initial(s)
    requires var t := Run(s, events);
             Step(t, e).p.files != t.p.files && Step(t, e).p.files != Untouched
    ensures var t := Run(s, events);
            && t.p.checked && t.p.seen && !t.p.released
            && (t.w.table ==> t.w.gate && !t.w.v2 && !t.w.mutating)
  {
    InitialInv(s);
    RunKeepsInv(s, events);
    if e != Begin && e != Crash { StepIsLater(Run(s, events), e); }
  }

  /** No actor but the disable command ever opens the gate. */
  lemma OnlyDisableOpensGate(s: State, e: Event)
    requires s.w.gate && !Step(s, e).w.gate
    ensures s.w.table && e.Main? && s.p.pc == Disable
  {
    if e.Main? {
      match s.p.pc {
        case Disable =>
        case Enable =>
        case CatchEnable =>
        case _ =>
      }
    }
  }

  predicate SameAttempt(events: seq<Event>) {
    forall i :: 0 <= i < |events| ==> events[i] != Begin && events[i] != Crash
  }

  /** What an attempt has gone through stays true of it. */
  predicate Later(s: State, t: State) {
    && (s.p.checked ==> t.p.checked)
    && (s.p.seen ==> t.p.seen)
    && (s.p.released ==> t.p.released)
    && (s.p.probeFailed ==> t.p.probeFailed)
    && t.w.table == s.w.table
  }

  /** The same for one step, which replaces files at two places only. */
  predicate Next(s: State, t: State) {
    Later(s, t) && (s.p.pc != RestoreEnv && s.p.pc != RestoreCompose ==> t.p.files == s.p.files)
  }

  lemma FirstIsLater(s: State, ok: bool, effect: bool, left: set<Service>)
    requires s.p.pc == Stop || s.p.pc == Enable || s.p.pc == ReleaseStale
    ensures Next(s, PrepareStep(s, ok, effect, left))
  {
    match s.p.pc { case Stop => case Enable => case ReleaseStale => }
  }

  lemma PrepareIsLater(s: State, ok: bool, effect: bool, left: set<Service>)
    ensures Next(s, PrepareStep(s, ok, effect, left))
  {
    match s.p.pc {
      case Stop => FirstIsLater(s, ok, effect, left);
      case Enable => FirstIsLater(s, ok, effect, left);
      case ReleaseStale => FirstIsLater(s, ok, effect, left);
      case Check =>
      case StartHolder =>
      case AwaitLock(_) =>
      case _ =>
    }
  }

  lemma JudgedIsLater(s: State, ok: bool, left: set<Service>)
    requires s.p.pc.Probe? || s.p.pc == Health
    ensures Next(s, TryStep(s, ok, left))
  {
  }

  lemma ComposeIsLater(s: State, ok: bool, left: set<Service>)
    requires s.p.pc == Worker || s.p.pc == Up || s.p.pc == WriteVerifying
    ensures Next(s, TryStep(s, ok, left))
  {
    match s.p.pc { case Worker => case Up => case WriteVerifying => }
  }

  lemma TryIsLater(s: State, ok: bool, left: set<Service>)
    ensures Next(s, TryStep(s, ok, left))
  {
    match s.p.pc {
      case Probe(_) => JudgedIsLater(s, ok, left);
      case RestoreEnv =>
      case RestoreCompose =>
      case Worker => ComposeIsLater(s, ok, left);
      case Up => ComposeIsLater(s, ok, left);
      case WriteVerifying => ComposeIsLater(s, ok, left);
      case Health => JudgedIsLater(s, ok, left);
      case _ =>
    }
  }

  lemma DisableIsLater(s: State, ok: bool, effect: bool)
    requires s.p.pc == Disable
    ensures Next(s, ReleaseStep(s, ok, effect))
  {
    var done := ok && s.w.holder == Holding;
    if done || effect { } else { }
  }

  lemma ReleaseIsLater(s: State, ok: bool, effect: bool)
    ensures Next(s, ReleaseStep(s, ok, effect))
  {
    if s.p.pc == Disable {
      DisableIsLater(s, ok, effect);
    } else {
      match s.p.pc { case Drain => case AwaitRelease => case _ => }
    }
  }

  lemma CatchStopIsLater(s: State, ok: bool, effect: bool, left: set<Service>)
    requires s.p.pc.CatchStop?
    ensures Next(s, CatchStep(s, ok, effect, left))
  {
  }

  lemma CatchIsLater(s: State, ok: bool, effect: bool, left: set<Service>)
    ensures Next(s, CatchStep(s, ok, effect, left))
  {
    match s.p.pc {
      case CatchDrain =>
      case CatchEnable =>
      case CatchStop(_) => CatchStopIsLater(s, ok, effect, left);
      case _ =>
    }
  }

  lemma MainIsLater(s: State, ok: bool, effect: bool, left: set<Service>)
    ensures Next(s, MainStep(s, ok, effect, left))
  {
    match PartOf(s.p.pc) {
      case Preparing => PrepareIsLater(s, ok, effect, left);
      case Trying => TryIsLater(s, ok, left);
      case Draining => ReleaseIsLater(s, ok, effect);
      case Releasing => ReleaseIsLater(s, ok, effect);
      case Catching => CatchIsLater(s, ok, effect, left);
      case Resting =>
    }
  }

  lemma StepIsLater(s: State, e: Event)
    requires e != Begin && e != Crash
    ensures Next(s, Step(s, e))
  {
    if e.Main? { MainIsLater(s, e.ok, e.effect, e.left); }
  }

  lemma {:induction false} RunIsLater(s: State, events: seq<Event>)
    requires SameAttempt(events)
    ensures Later(s, Run(s, events))
    decreases |events|
  {
    if events != [] {
      var next := Step(s, events[0]);
      StepIsLater(s, events[0]);
      RunIsLater(next, events[1..]);
      assert Run(s, events) == Run(next, events[1..]);
    }
  }

  /** From the check to the release of the gate no v2 state can appear, for as long as the attempt lasts. */
  lemma NoV2BeforeRelease(s: State, events: seq<Event>)
    requires Inv(s) && s.p.checked && s.w.table && SameAttempt(events)
    requires !Run(s, events).p.released
    ensures !s.p.released && !Run(s, events).w.v2 && Run(s, events).w.gate
  {
    RunIsLater(s, events);
    RunKeepsInv(s, events);
  }

  /** One failed watchdog probe dooms the attempt: it can no longer return, nor open the gate. */
  lemma FailedProbeDoomsAttempt(s: State, events: seq<Event>)
    requires Inv(s) && s.p.probeFailed && SameAttempt(events)
    ensures Run(s, events).p.pc != Returned && Run(s, events).p.pc != Disable
  {
    RunIsLater(s, events);
    RunKeepsInv(s, events);
  }

  // ---------------------------------------------------------------- such attempts exist

  ghost predicate Reaches(s: State, t: State) { exists events :: Run(s, events) == t }

  lemma {:induction false} RunAppend(s: State, events: seq<Event>, e: Event)
    ensures Run(s, events + [e]) == Step(Run(s, events), e)
    decreases |events|
  {
    if events == [] {
      assert Run(Step(s, e), []) == Step(s, e);
    } else {
      assert (events + [e])[1..] == events[1..] + [e];
      RunAppend(Step(s, events[0]), events[1..], e);
    }
  }

  lemma ReachesStep(s: State, t: State, e: Event)
    requires Reaches(s, t)
    ensures Reaches(s, Step(t, e))
  {
    var events :| Run(s, events) == t;
    RunAppend(s, events, e);
  }

  /** Nothing stands in the way of the next command. */
  predicate Unhindered(t: State) {
    && !t.p.holderFailure && t.p.watchdog == Quiet && !t.w.mutating
    && match t.p.pc
       case Stop => t.w.holder == Absent && !t.w.v2
       case Enable => t.w.holder == Absent && !t.w.v2
       case ReleaseStale => t.w.holder == Absent && !t.w.v2 && t.w.Gated()
       case Check => t.w.holder == Absent && !t.w.v2 && t.w.Gated()
       case StartHolder => t.w.holder == Absent && t.w.Gated()
       case AwaitLock(_) => t.w.holder != Absent && t.w.Gated()
       case Probe(n) => 1 <= n <= 5 && Ready(t.w)
       case AwaitRelease => t.w.holder == Holding && !(t.w.table && t.w.gate)
       case Returned => true
       case _ => (PartOf(t.p.pc) == Trying || PartOf(t.p.pc) == Draining || t.p.pc == Disable) && Ready(t.w)
  }

  /** How far it is to the normal return. */
  function Left(t: State): nat {
    match t.p.pc
    case Stop => 22
    case Enable => 21
    case ReleaseStale => 20
    case Check => 19
    case StartHolder => 18
    case AwaitLock(_) => if t.w.holder == Holding then 16 else 17
    case Probe(n) => if n == 1 then 15 else if n == 2 then 12 else if n == 3 then 10 else if n == 4 then 8 else 5
    case RestoreEnv => 14
    case RestoreCompose => 13
    case Worker => 11
    case Up => 9
    case WriteVerifying => 7
    case Health => 6
    case Drain => 4
    case Disable => 3
    case AwaitRelease => 2
    case _ => 1
  }

  function GoodEvent(t: State): Event {
    if t.p.pc.AwaitLock? && t.w.holder == Starting then HolderLocks else Main(true, true, {Api, Admin, Deno})
  }

  /** Still unhindered, and nearer to the normal return. */
  predicate Closer(t: State, u: State) { Unhindered(u) && Left(u) < Left(t) }

  lemma PrepareIsCloser(t: State)
    requires Unhindered(t) && PartOf(t.p.pc) == Preparing && GoodEvent(t).Main?
    ensures Closer(t, PrepareStep(t, true, true, {Api, Admin, Deno}))
  {
    if t.p.pc == StartHolder || t.p.pc.AwaitLock? {
      HolderIsCloser(t);
    } else {
      match t.p.pc { case Stop => case Enable => case ReleaseStale => case Check => }
    }
  }

  lemma HolderIsCloser(t: State)
    requires Unhindered(t) && (t.p.pc == StartHolder || t.p.pc.AwaitLock?) && GoodEvent(t).Main?
    ensures Closer(t, PrepareStep(t, true, true, {Api, Admin, Deno}))
  {
    match t.p.pc { case StartHolder => case AwaitLock(_) => }
  }

  lemma ProbeIsCloser(t: State)
    requires Unhindered(t) && t.p.pc.Probe?
    ensures Closer(t, TryStep(t, true, {Api, Admin, Deno}))
  {
    match AfterProbe(t.p.pc.n) { case RestoreEnv => case Worker => case Up => case WriteVerifying => case Drain => }
  }

  lemma RestoreIsCloser(t: State)
    requires Unhindered(t) && (t.p.pc == RestoreEnv || t.p.pc == RestoreCompose || t.p.pc == Worker)
    ensures Closer(t, TryStep(t, true, {Api, Admin, Deno}))
  {
    match t.p.pc { case RestoreEnv => case RestoreCompose => case Worker => }
  }

  lemma StartIsCloser(t: State)
    requires Unhindered(t) && (t.p.pc == Up || t.p.pc == WriteVerifying || t.p.pc == Health)
    ensures Closer(t, TryStep(t, true, {Api, Admin, Deno}))
  {
    match t.p.pc { case Up => case WriteVerifying => case Health => }
  }

  lemma TryIsCloser(t: State)
    requires Unhindered(t) && PartOf(t.p.pc) == Trying
    ensures Closer(t, TryStep(t, true, {Api, Admin, Deno}))
  {
    match t.p.pc {
      case Probe(_) => ProbeIsCloser(t);
      case RestoreEnv => RestoreIsCloser(t);
      case RestoreCompose => RestoreIsCloser(t);
      case Worker => RestoreIsCloser(t);
      case _ => StartIsCloser(t);
    }
  }

  lemma ReleaseIsCloser(t: State)
    requires Unhindered(t) && (t.p.pc == Drain || t.p.pc == Disable || t.p.pc == AwaitRelease)
    ensures Closer(t, ReleaseStep(t, true, true))
  {
    match t.p.pc { case Drain => case Disable => case AwaitRelease => }
  }

  lemma UnhinderedStep(t: State)
    requires Unhindered(t) && t.p.pc != Returned
    ensures Closer(t, Step(t, GoodEvent(t)))
  {
    if GoodEvent(t).Main? {
      match PartOf(t.p.pc) {
        case Preparing => PrepareIsCloser(t);
        case Trying => TryIsCloser(t);
        case Draining => ReleaseIsCloser(t);
        case Releasing => ReleaseIsCloser(t);
        case _ =>
      }
    }
  }

  lemma {:induction false} UnhinderedReturns(s: State, t: State)
    requires Reaches(s, t) && Unhindered(t)
    ensures exists u :: Reaches(s, u) && u.p.pc == Returned
    decreases Left(t)
  {
    if t.p.pc != Returned {
      UnhinderedStep(t);
      ReachesStep(s, t, GoodEvent(t));
      UnhinderedReturns(s, Step(t, GoodEvent(t)));
    }
  }

  /** From any database at rest without v2 state a rollback can run to its normal return. */
  lemma RollbackCanReturn(s: State)
    requires Initial(s) && !s.w.v2 && !s.w.mutating && s.w.holder == Absent
    ensures exists u :: Reaches(s, u) && u.p.pc == Returned
  {
    assert Run(s, []) == s;
    ReachesStep(s, s, Begin);
    UnhinderedReturns(s, Step(s, Begin));
  }
}
