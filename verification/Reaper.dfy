/** The reaper's bring-up in one process: what has to be in place before anything is tracked,
    and what every failure on the way leaves behind. */
module Reaper {
  import opened LedgerLines
  import opened Options
  import opened RunLedger

  /** RIGHTSIZE_REAPER: off; sweeping without a watchdog; or both. */
  datatype Mode = Off | SweepOnly | Full

  /** How the bring-up's own steps go: each may throw. */
  datatype Course = Course(killCommand: bool, recordWritten: bool, watchdogSpawned: bool)

  class Reaper {
    const ledger: RunLedger
    var active: bool
    /** The promise of the one bring-up has been made. */
    var initialized: bool
    var heldWatchdog: bool
    /** Sweeps of other runs that have been made. */
    var sweeps: nat

    /** Nothing is tracked and no watchdog is held before the bring-up. */
    ghost predicate Valid()
      reads this, ledger
    {
      ledger.Valid() && (active || heldWatchdog || sweeps > 0 ==> initialized) && sweeps <= 1
    }

    constructor (ledger: RunLedger)
      requires ledger.Valid()
      ensures Valid() && this.ledger == ledger && !active && !initialized && !heldWatchdog && sweeps == 0
    {
      this.ledger := ledger;
      active, initialized, heldWatchdog, sweeps := false, false, false, 0;
    }

    /** doInit, whose exceptions the caller swallows. */
    method DoInit(mode: Mode, course: Course, record: string)
      requires Valid() && !active && sweeps == 0 && initialized
      modifies this`active, this`heldWatchdog, this`sweeps, ledger`record
      ensures Valid()
      ensures active <==> !mode.Off? && course.killCommand && course.recordWritten
      ensures ledger.record == if active then Some(record) else old(ledger.record)
      ensures sweeps == if active then 1 else 0
      ensures heldWatchdog == (old(heldWatchdog) || (active && mode.Full? && course.watchdogSpawned))
    {
      if mode.Off? || !course.killCommand || !course.recordWritten {
        return;
      }
      ledger.WriteRunRecord(record);
      active := true;
      sweeps := sweeps + 1;
      if mode.Full? && course.watchdogSpawned {
        heldWatchdog := true;
      }
    }

    /** The bring-up runs once per process: a later call changes nothing, whatever the first
        one came to. */
    method EnsureInitialized(mode: Mode, course: Course, record: string)
      requires Valid()
      modifies this`active, this`initialized, this`heldWatchdog, this`sweeps, ledger`record
      ensures Valid() && initialized
      ensures old(initialized) ==>
                active == old(active) && heldWatchdog == old(heldWatchdog) && sweeps == old(sweeps)
                && ledger.record == old(ledger.record)
      ensures !old(initialized) ==>
                && (active <==> !mode.Off? && course.killCommand && course.recordWritten)
                && (heldWatchdog <==> active && mode.Full? && course.watchdogSpawned)
                && ledger.record == (if active then Some(record) else old(ledger.record))
    {
      if !initialized {
        initialized := true;
        DoInit(mode, course, record);
      }
    }

    /** trackSandbox: a no-op while inactive. */
    method TrackSandbox(name: string) returns (ok: bool)
      requires Valid() && Nameable(name)
      modifies ledger`sandboxes, ledger`sandboxNames, ledger`torn, ledger`faults
      ensures Valid() && (!active ==> ok && unchanged(ledger))
      ensures active && ok ==> ledger.sandboxNames == Joined(old(ledger.sandboxNames), old(ledger.torn), name)
      ensures !ok ==> PartlyAppended(old(ledger.Sandboxes()), ledger.Sandboxes(), name)
      ensures ok ==> ledger.faults == old(ledger.faults)
      ensures ledger.faults >= old(ledger.faults)
    {
      ok := true;
      if active {
        ok := ledger.AppendSandboxName(name);
      }
    }

    /** untrackSandbox */
    method UntrackSandbox(name: string) returns (ok: bool)
      requires Valid()
      modifies ledger
      ensures Valid() && (!active ==> ok && unchanged(ledger))
      ensures active && ledger.faults == old(ledger.faults) ==>
                ok && ledger.sandboxNames == RemoveFirst(old(ledger.sandboxNames), name)
                && ledger.networkIds == old(ledger.networkIds)
      ensures !ok ==> PartlyRemoved(old(ledger.Sandboxes()), ledger.Sandboxes(), name, false)
                      && ledger.record == old(ledger.record) && ledger.networkIds == old(ledger.networkIds)
    {
      ok := true;
      if active {
        ok := ledger.RemoveSandboxName(name);
      }
    }

    /** After the backend's own close: the run's files go whatever they still list, and nothing
        is tracked again - the bring-up is not repeated. */
    method NotifyBackendClosed()
      requires Valid()
      modifies this`active, ledger
      ensures Valid() && !active
      ensures if old(active) then ledger.Deleted() else unchanged(ledger)
    {
      if active {
        active := false;
        ledger.DeleteRunRecordFiles();
      }
    }
  }

  /** A process that brings the reaper up, tracks a sandbox and only then makes it: if the
      reaper is active then, the record and the line are on disk before the sandbox exists. */
  method BringUpThenTrack(reaper: Reaper, mode: Mode, course: Course, record: string, name: string)
    returns (mayCreate: bool)
    requires reaper.Valid() && !reaper.initialized && Nameable(name)
    modifies reaper, reaper.ledger
    ensures reaper.Valid()
    ensures mayCreate && reaper.active ==>
              reaper.ledger.record == Some(record)
              && (!old(reaper.ledger.torn) ==> name in reaper.ledger.sandboxNames)
    ensures !reaper.active <==> mode.Off? || !course.killCommand || !course.recordWritten
    ensures !reaper.active ==> mayCreate && reaper.ledger.sandboxNames == old(reaper.ledger.sandboxNames)
  {
    reaper.EnsureInitialized(mode, course, record);
    mayCreate := reaper.TrackSandbox(name);
  }

  /** Once closed, always closed: a later bring-up and a later container change nothing about
      the files, which are gone but for those that could not be unlinked. */
  method TrackAfterClose(reaper: Reaper, mode: Mode, course: Course, record: string, name: string)
    requires reaper.Valid() && reaper.active && Nameable(name)
    modifies reaper, reaper.ledger
    ensures reaper.Valid() && !reaper.active
    ensures reaper.ledger.Deleted()
  {
    reaper.NotifyBackendClosed();
    reaper.EnsureInitialized(mode, course, record);
    var ok := reaper.TrackSandbox(name);
    ok := reaper.UntrackSandbox(name);
  }
}
