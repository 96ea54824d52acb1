/** The recovery pass of the watchdog script, and what it is worth after a crash. */
module Watchdog {
  import opened LedgerDisk
  import opened Lifecycle
  import opened LifecycleCrash
  import opened LifecycleRuns
  import opened RunLedger
  import opened Lines
  import opened Options

  /** What the backend's command line finds when the script calls it. */
  class Host<Name(==, !new)> {
    var sandboxes: set<Name>
    /** Every command run, in order. */
    var stops: seq<Name>
    var removals: seq<Name>
    var networkRemovals: seq<Name>
    /** How often a command on the name still fails on msb's shared state database. */
    var databaseErrors: map<Name, nat>
    /** Names whose removal fails for a reason of its own. */
    const stubborn: set<Name>

    constructor (sandboxes: set<Name>, databaseErrors: map<Name, nat>, stubborn: set<Name>)
      ensures this.sandboxes == sandboxes && this.databaseErrors == databaseErrors && this.stubborn == stubborn
      ensures stops == [] && removals == [] && networkRemovals == []
    {
      this.sandboxes, this.databaseErrors, this.stubborn := sandboxes, databaseErrors, stubborn;
      stops, removals, networkRemovals := [], [], [];
    }

    function Errors(name: Name): nat
      reads this
    {
      if name in databaseErrors then databaseErrors[name] else 0
    }

    /** run_cmd gets the name removed: at most one database error, and no other failure. */
    predicate Removable(name: Name)
      reads this
    {
      name !in stubborn && Errors(name) < 2
    }

    method Stop(name: Name)
      modifies this`stops
      ensures stops == old(stops) + [name]
    {
      stops := stops + [name];
    }

    /** One remove command; the answer says whether its output held the database error. */
    method Remove(name: Name) returns (databaseError: bool)
      modifies this`sandboxes, this`removals, this`databaseErrors
      ensures removals == old(removals) + [name]
      ensures databaseError == (old(Errors(name)) > 0)
      ensures forall n :: Errors(n) == if n == name && databaseError then old(Errors(n)) - 1 else old(Errors(n))
      ensures sandboxes == if databaseError || name in stubborn then old(sandboxes) else old(sandboxes) - {name}
    {
      removals := removals + [name];
      databaseError := Errors(name) > 0;
      if databaseError {
        databaseErrors := databaseErrors[name := Errors(name) - 1];
      } else if name !in stubborn {
        sandboxes := sandboxes - {name};
      }
    }

    /** run_cmd of the remove prefix: once more after a database error, and never a third time. */
    method RunRemove(name: Name)
      modifies this`sandboxes, this`removals, this`databaseErrors
      ensures removals == old(removals) + (if old(Errors(name)) > 0 then [name, name] else [name])
      ensures forall n :: Errors(n) <= old(Errors(n))
      ensures sandboxes == if old(Removable(name)) then old(sandboxes) - {name} else old(sandboxes)
    {
      var databaseError := Remove(name);
      if databaseError {
        databaseError := Remove(name);
        assert removals == old(removals) + [name, name];
      }
    }

    /** The script's loop over the .sandboxes file, blank lines skipped. */
    method Reap(names: seq<Name>, hasStop: bool)
      modifies this`sandboxes, this`removals, this`databaseErrors, this`stops
      ensures sandboxes <= old(sandboxes)
      ensures forall name | name in old(sandboxes) - sandboxes :: name in names
      ensures forall name <- names :: name in removals
      ensures forall name <- names :: old(Removable(name)) ==> name !in sandboxes
      ensures stops == old(stops) + (if hasStop then names else [])
    {
      var i := 0;
      while i < |names|
        invariant 0 <= i <= |names|
        invariant sandboxes <= old(sandboxes)
        invariant forall n :: Errors(n) <= old(Errors(n))
        invariant forall name | name in old(sandboxes) - sandboxes :: name in names
        invariant forall k | 0 <= k < i :: names[k] in removals
        invariant forall k | 0 <= k < i :: old(Removable(names[k])) ==> names[k] !in sandboxes
        invariant stops == old(stops) + (if hasStop then names[..i] else [])
      {
        if hasStop { Stop(names[i]); }
        RunRemove(names[i]);
        assert names[..i + 1] == names[..i] + [names[i]];
        i := i + 1;
      }
      assert names[..i] == names;
    }
  }

  /** The networks' loop: one command per line where the backend has network objects at all. */
  method ReapNetworks(ids: seq<string>, host: Host<string>, hasNetworks: bool)
    modifies host`networkRemovals
    ensures host.networkRemovals == old(host.networkRemovals) + (if hasNetworks then ids else [])
  {
    var i := 0;
    while i < |ids|
      invariant 0 <= i <= |ids|
      invariant host.networkRemovals == old(host.networkRemovals) + (if hasNetworks then ids[..i] else [])
    {
      if hasNetworks { host.networkRemovals := host.networkRemovals + [ids[i]]; }
      assert ids[..i + 1] == ids[..i] + [ids[i]];
      i := i + 1;
    }
    assert ids[..i] == ids;
  }

  /** The script's run over one ledger: what the files list is reaped, then they are deleted. */
  method RunScript(ledger: RunLedger, host: Host<string>, hasStop: bool, hasNetworks: bool)
    requires ledger.Valid()
    modifies ledger, host
    ensures ledger.Deleted()
    ensures forall name <- old(ledger.sandboxNames) :: name in host.removals
    ensures forall name <- old(ledger.sandboxNames) :: old(host.Removable(name)) ==> name !in host.sandboxes
    ensures forall name | name in old(host.sandboxes) - host.sandboxes :: name in old(ledger.sandboxNames)
    ensures host.networkRemovals == old(host.networkRemovals) + (if hasNetworks then old(ledger.networkIds) else [])
  {
    var names := ledger.ReadSandboxNames();
    host.Reap(names, hasStop);
    var ids := ReadLines(ledger.networks);
    ReapNetworks(ids, host, hasNetworks);
    ledger.DeleteRunRecordFiles();
  }

  function SandboxesOf(live: set<nat>): set<Line> {
    set n | n in live :: Name(n)
  }

  /** The process dies after any run at all of its containers' steps, and the watchdog reaps the
      lines it left. Of the sandboxes that nobody gave up on, it leaves exactly those whose line
      was lost, or is still to be written by the rewrite the run ends in. */
  method ReapAfterCrash(ghost s: State, ghost steps: seq<Step>, lines: seq<Line>, host: Host<Line>, hasStop: bool)
    requires Initial(s) && IsRun(s, steps)
    requires lines == Read(After(s, steps).disk.sandboxes) && host.sandboxes == SandboxesOf(After(s, steps).live)
    requires forall line <- lines :: host.Removable(line)
    modifies host`sandboxes, host`removals, host`databaseErrors, host`stops
    ensures host.sandboxes <= old(host.sandboxes)
    ensures forall n | n in After(s, steps).live && n !in After(s, steps).stray ::
              var d := After(s, steps).disk;
              Name(n) in host.sandboxes <==> (LineLost(s, steps, n) || Pending(d, n)) && !CutReads(d, n)
    ensures FaultlessRun(s, steps) && After(s, steps).disk.rewrite.None? && RemovalsEffective(steps) ==>
              host.sandboxes == {}
  {
    host.Reap(lines, hasStop);
    ghost var t := After(s, steps);
    forall n | n in t.live && n !in t.stray
      ensures Name(n) in host.sandboxes <==> (LineLost(s, steps, n) || Pending(t.disk, n)) && !CutReads(t.disk, n)
    {
      CrashedRunLists(s, steps, n);
    }
    if FaultlessRun(s, steps) && t.disk.rewrite.None? && RemovalsEffective(steps) {
      FaultlessRunIsFullyListed(s, steps);
      assert forall n | n in t.live :: Name(n) !in host.sandboxes;
    }
  }
}
