/**
 The finalizer container (apps/updater/src/finalizer.ts) as the program it runs; FinalizerRace is what can
 happen between its reads and its writes. The state file is read with a fallback and replaced as a whole
 (apps/updater/src/state.ts).
 */
module FinalizerProcess {
  import opened Wrappers
  import opened UpdateStatus
  import opened FinalizerRace

  class StateFile {
    var stored: Option<Status>
    ghost var writes: seq<Status>

    constructor (stored: Option<Status>)
      ensures this.stored == stored && writes == []
    {
      this.stored, writes := stored, [];
    }

    function Read(fallback: Status): Status
      reads this
    {
      stored.GetOr(fallback)
    }

    method Write(st: Status)
      modifies this
      ensures stored == Some(st) && writes == old(writes) + [st]
    {
      stored := Some(st);
      writes := writes + [st];
    }
  }

  /** What `docker inspect` says of the replacement updater. */
  datatype Report = Healthy | Unhealthy | InspectFailed

  /** The inspection number `k` takes place, if none before it succeeds: one per interval, the first at once and
      the last when the timeout has passed. */
  predicate Looks(intervalMs: nat, timeoutMs: nat, k: nat) {
    k * intervalMs <= timeoutMs && (k > 0 ==> (k - 1) * intervalMs < timeoutMs)
  }

  lemma LooksInTurn(intervalMs: nat, timeoutMs: nat, j: nat, k: nat)
    requires j <= k && Looks(intervalMs, timeoutMs, k)
    ensures Looks(intervalMs, timeoutMs, j)
  {
    assert k * intervalMs == j * intervalMs + (k - j) * intervalMs;
    if 0 < j < k { assert (k - 1) * intervalMs == (j - 1) * intervalMs + (k - j) * intervalMs; }
  }

  /** The wait is bounded unless the interval is 0 under a timeout that is not. */
  lemma WaitIsBounded(intervalMs: nat, timeoutMs: nat)
    ensures (exists k: nat :: !Looks(intervalMs, timeoutMs, k)) <==> intervalMs > 0 || timeoutMs == 0
  {
    if intervalMs > 0 {
      assert (timeoutMs + 1) * intervalMs >= timeoutMs + 1;
      assert !Looks(intervalMs, timeoutMs, timeoutMs + 1);
    } else if timeoutMs == 0 {
      assert !Looks(intervalMs, timeoutMs, 1);
    } else {
      forall k: nat ensures Looks(intervalMs, timeoutMs, k) { assert k * intervalMs == 0; }
    }
  }

  datatype Wait = CameUp | TimedOut | StillWaiting

  /** waitForUpdaterHealthy, watched for `patience` inspections; `report` is what the inspection of each moment
      will say. */
  method WaitForUpdaterHealthy(intervalMs: nat, timeoutMs: nat, report: nat -> Report, patience: nat)
    returns (wait: Wait)
    ensures wait == CameUp <==> exists k: nat :: k < patience && Looks(intervalMs, timeoutMs, k) && report(k) == Healthy
    ensures wait == StillWaiting <==>
            Looks(intervalMs, timeoutMs, patience) && forall k: nat :: k < patience ==> report(k) != Healthy
  {
    var elapsedMs, inspections: nat := 0, 0;
    while elapsedMs <= timeoutMs && inspections < patience
      invariant inspections <= patience && elapsedMs == inspections * intervalMs
      invariant elapsedMs <= timeoutMs <==> Looks(intervalMs, timeoutMs, inspections)
      invariant forall k: nat :: k < inspections ==> report(k) != Healthy
    {
      var status := report(inspections);
      if status == Healthy { return CameUp; }
      inspections := inspections + 1;
      if elapsedMs >= timeoutMs {
        NoneLater(intervalMs, timeoutMs, inspections);
        return TimedOut;
      }
      elapsedMs := elapsedMs + intervalMs;
    }
    if elapsedMs <= timeoutMs { return StillWaiting; }
    NoneLater(intervalMs, timeoutMs, inspections);
    return TimedOut;
  }

  lemma NoneLater(intervalMs: nat, timeoutMs: nat, first: nat)
    requires !Looks(intervalMs, timeoutMs, first)
    ensures forall k: nat :: k >= first ==> !Looks(intervalMs, timeoutMs, k)
  {
    forall k: nat | k >= first ensures !Looks(intervalMs, timeoutMs, k) {
      if Looks(intervalMs, timeoutMs, k) { LooksInTurn(intervalMs, timeoutMs, first, k); }
    }
  }

  datatype Ending = Returned | Threw | Unfinished

  /** runUpdaterFinalizer: two writes, and `succeeded` is the last word whether or not the replacement came up;
      a crash of the process may cut the sequence short. */
  method RunUpdaterFinalizer(file: StateFile, target: string, composeSucceeds: bool, intervalMs: nat,
                             timeoutMs: nat, report: nat -> Report, patience: nat)
    returns (ending: Ending)
    modifies file
    ensures var running := FinalizerRunning(old(file.Read(DefaultStatus(target))), target);
            file.writes == old(file.writes) + [running]
              + if ending == Unfinished then [] else [FinalizerDone(running, target)]
    ensures file.stored == Some(file.writes[|file.writes| - 1])
    ensures ending == Unfinished <==>
            && composeSucceeds && Looks(intervalMs, timeoutMs, patience)
            && forall k: nat :: k < patience ==> report(k) != Healthy
    ensures ending == Returned <==>
            && composeSucceeds
            && exists k: nat :: k < patience && Looks(intervalMs, timeoutMs, k) && report(k) == Healthy
  {
    file.Write(FinalizerRunning(file.Read(DefaultStatus(target)), target));
    var wait := TimedOut;
    if composeSucceeds {
      wait := WaitForUpdaterHealthy(intervalMs, timeoutMs, report, patience);
      if wait == StillWaiting { return Unfinished; }
    }
    file.Write(FinalizerDone(file.Read(DefaultStatus(target)), target));
    return if wait == CameUp then Returned else Threw;
  }
}
