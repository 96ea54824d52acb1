/** One sweep on its own: which runs it reaps, and that failing removals keep it from nothing. */
module Sweep {
  datatype Backend = Msb | Docker

  const UNPARSEABLE_FRESH_AGE_MS: nat := 3600000

  /** What parseRunRecord makes of a record's text, with the file's age where it makes nothing. */
  datatype Record = Parsed(backend: Backend, pid: nat, started: string) | Unparseable(ageMs: int)

  datatype RunFiles = RunFiles(record: Record, names: seq<string>, networks: seq<string>)

  datatype Removal = RemoveByName(name: string) | RemoveNetwork(id: string)

  /** The sweeping process, and whom its time source reports alive. */
  datatype Deps = Deps(thisRunId: string, backend: Backend, alive: set<(nat, string)>)

  /** The runs a sweep reaps: not its own; dead and of its backend; or long unreadable. */
  predicate Condemned(deps: Deps, run: string, files: RunFiles) {
    && run != deps.thisRunId
    && match files.record
       case Unparseable(ageMs) => ageMs > UNPARSEABLE_FRESH_AGE_MS
       case Parsed(backend, pid, started) => backend == deps.backend && (pid, started) !in deps.alive
  }

  function NameRemovals(names: seq<string>): (r: seq<Removal>)
    ensures |r| == |names| && forall i | 0 <= i < |names| :: r[i] == RemoveByName(names[i])
  {
    seq(|names|, i requires 0 <= i < |names| => RemoveByName(names[i]))
  }

  function NetworkRemovals(ids: seq<string>): (r: seq<Removal>)
    ensures |r| == |ids| && forall i | 0 <= i < |ids| :: r[i] == RemoveNetwork(ids[i])
  {
    seq(|ids|, i requires 0 <= i < |ids| => RemoveNetwork(ids[i]))
  }

  function Removals(files: RunFiles): seq<Removal> {
    NameRemovals(files.names) + NetworkRemovals(files.networks)
  }

  /** The names in their order, then the networks in theirs. */
  lemma NamesBeforeNetworks(files: RunFiles, i: nat)
    requires i < |files.names| + |files.networks|
    ensures i < |Removals(files)|
    ensures Removals(files)[i] == if i < |files.names| then RemoveByName(files.names[i])
                                  else RemoveNetwork(files.networks[i - |files.names|])
  {}

  predicate Reaped(deps: Deps, runs: map<string, RunFiles>, run: string) {
    run in runs && Condemned(deps, run, runs[run])
  }

  function RunsAfter(deps: Deps, runs: map<string, RunFiles>, run: string): map<string, RunFiles> {
    if Reaped(deps, runs, run) then runs - {run} else runs
  }

  function RemovalsOf(deps: Deps, runs: map<string, RunFiles>, run: string): seq<Removal> {
    if Reaped(deps, runs, run) then Removals(runs[run]) else []
  }

  /** Every removal of a whole pass, run by run in the order of the listing. */
  function PassRemovals(deps: Deps, runs: map<string, RunFiles>, listed: seq<string>): seq<Removal> {
    if listed == [] then []
    else RemovalsOf(deps, runs, listed[0]) + PassRemovals(deps, RunsAfter(deps, runs, listed[0]), listed[1..])
  }

  /** The runs whose files are left after it. */
  function RunsLeft(deps: Deps, runs: map<string, RunFiles>, listed: seq<string>): map<string, RunFiles> {
    if listed == [] then runs
    else RunsLeft(deps, RunsAfter(deps, runs, listed[0]), listed[1..])
  }

  /** Whose removals a pass asks for: a listed run that is not the sweeper's own and whose record
      either parses, with the sweeper's backend and an owner that is not alive, or has been
      unparseable for over an hour. */
  ghost predicate Swept(deps: Deps, runs: map<string, RunFiles>, listed: seq<string>, run: string) {
    && run in listed && run in runs && run != deps.thisRunId
    && match runs[run].record
       case Parsed(backend, pid, started) => backend == deps.backend && (pid, started) !in deps.alive
       case Unparseable(ageMs) => ageMs > 60 * 60 * 1000
  }

  lemma {:induction false} RemovedByPass(deps: Deps, runs: map<string, RunFiles>, listed: seq<string>, removal: Removal)
    ensures removal in PassRemovals(deps, runs, listed) <==>
              exists run <- listed :: Reaped(deps, runs, run) && removal in Removals(runs[run])
  {
    if listed != [] {
      var rest, after := listed[1..], RunsAfter(deps, runs, listed[0]);
      assert forall run :: run in listed <==> run == listed[0] || run in rest;
      RemovedByPass(deps, after, rest, removal);
    }
  }

  lemma RemovalsOfFiles(files: RunFiles, removal: Removal)
    ensures removal in Removals(files) <==>
              match removal
              case RemoveByName(name) => name in files.names
              case RemoveNetwork(id) => id in files.networks
  {
    var names, networks := NameRemovals(files.names), NetworkRemovals(files.networks);
    match removal {
      case RemoveByName(name) =>
        if i :| 0 <= i < |files.names| && files.names[i] == name { assert names[i] == removal; }
        if i :| 0 <= i < |names| && names[i] == removal { assert files.names[i] == name; }
      case RemoveNetwork(id) =>
        if i :| 0 <= i < |files.networks| && files.networks[i] == id { assert networks[i] == removal; }
        if i :| 0 <= i < |networks| && networks[i] == removal { assert files.networks[i] == id; }
    }
  }

  /** A pass asks for the removal of a sandbox or a network exactly if such a run lists it. */
  lemma PassRemovesExactlyTheCondemned(deps: Deps, runs: map<string, RunFiles>, listed: seq<string>, removal: Removal)
    ensures removal in PassRemovals(deps, runs, listed) <==>
              exists run :: Swept(deps, runs, listed, run)
                            && match removal
                               case RemoveByName(name) => name in runs[run].names
                               case RemoveNetwork(id) => id in runs[run].networks
  {
    RemovedByPass(deps, runs, listed, removal);
    forall run | run in runs {
      RemovalsOfFiles(runs[run], removal);
    }
    if run :| run in listed && Reaped(deps, runs, run) && removal in Removals(runs[run]) {
      assert Swept(deps, runs, listed, run);
    }
    if run :| Swept(deps, runs, listed, run)
              && match removal
                 case RemoveByName(name) => name in runs[run].names
                 case RemoveNetwork(id) => id in runs[run].networks
    {
      assert Reaped(deps, runs, run) && removal in Removals(runs[run]);
    }
  }

  lemma {:induction false} LeftByPass(deps: Deps, runs: map<string, RunFiles>, listed: seq<string>)
    ensures RunsLeft(deps, runs, listed)
         == map run | run in runs && !(run in listed && Condemned(deps, run, runs[run])) :: runs[run]
  {
    if listed != [] {
      assert forall run :: run in listed <==> run == listed[0] || run in listed[1..];
      LeftByPass(deps, RunsAfter(deps, runs, listed[0]), listed[1..]);
    }
  }

  /** And it deletes exactly their files. */
  lemma PassDeletesExactlyTheCondemned(deps: Deps, runs: map<string, RunFiles>, listed: seq<string>, run: string)
    ensures run in RunsLeft(deps, runs, listed) <==> run in runs && !Swept(deps, runs, listed, run)
    ensures run in RunsLeft(deps, runs, listed) ==> RunsLeft(deps, runs, listed)[run] == runs[run]
  {
    LeftByPass(deps, runs, listed);
  }

  class RunsDirectory {
    var runs: map<string, RunFiles>
    /** Every removal asked of the backend, in order, whether it worked or not. */
    var asked: seq<Removal>

    constructor (runs: map<string, RunFiles>)
      ensures this.runs == runs && asked == []
    {
      this.runs, asked := runs, [];
    }

    /** One call of the backend; its failure is swallowed. */
    method Ask(removal: Removal) returns (threw: bool)
      modifies this`asked
      ensures asked == old(asked) + [removal]
    {
      asked := asked + [removal];
      threw := *;
    }

    method ReapRun(run: string)
      requires run in runs
      modifies this
      ensures asked == old(asked) + Removals(old(runs)[run])
      ensures runs == old(runs) - {run}
    {
      var names, networks := runs[run].names, runs[run].networks;
      for i := 0 to |names|
        invariant asked == old(asked) + NameRemovals(names)[..i] && runs == old(runs)
      {
        var threw := Ask(RemoveByName(names[i]));
      }
      for i := 0 to |networks|
        invariant asked == old(asked) + NameRemovals(names) + NetworkRemovals(networks)[..i] && runs == old(runs)
      {
        var threw := Ask(RemoveNetwork(networks[i]));
      }
      runs := runs - {run};
    }

    method SweepOneRun(deps: Deps, run: string)
      requires run != deps.thisRunId
      modifies this
      ensures asked == old(asked) + RemovalsOf(deps, old(runs), run)
      ensures runs == RunsAfter(deps, old(runs), run)
    {
      if run !in runs {
        return;
      }
      match runs[run].record {
        case Unparseable(ageMs) =>
          if ageMs <= UNPARSEABLE_FRESH_AGE_MS {
            return;
          }
        case Parsed(backend, pid, started) =>
          if backend != deps.backend {
            return;
          }
          if (pid, started) in deps.alive {
            return;
          }
      }
      ReapRun(run);
    }

    /** sweepOnce, over one listing of the directory. */
    method SweepOnce(deps: Deps, listed: seq<string>)
      modifies this
      ensures asked == old(asked) + PassRemovals(deps, old(runs), listed)
      ensures runs == RunsLeft(deps, old(runs), listed)
    {
      var i := 0;
      assert listed[0..] == listed;
      while i < |listed|
        invariant 0 <= i <= |listed|
        invariant old(asked) + PassRemovals(deps, old(runs), listed) == asked + PassRemovals(deps, runs, listed[i..])
        invariant RunsLeft(deps, old(runs), listed) == RunsLeft(deps, runs, listed[i..])
      {
        assert listed[i..][1..] == listed[i + 1..];
        ghost var removals := RemovalsOf(deps, runs, listed[i]);
        ghost var before, later := asked, PassRemovals(deps, RunsAfter(deps, runs, listed[i]), listed[i + 1..]);
        assert before + (removals + later) == before + removals + later;
        if listed[i] != deps.thisRunId {
          SweepOneRun(deps, listed[i]);
        }
        i := i + 1;
      }
    }
  }
}
