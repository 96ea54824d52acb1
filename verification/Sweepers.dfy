/** Any number of sweepers and watchdogs at work on one runs directory, in any interleaving,
    while the runs they judge write their files and die. */
module Sweepers {
  import opened Liveness
  import opened Options
  import Sweep

  /** A line of a .sandboxes or a .networks file. */
  datatype Item = Sandbox(name: nat) | Network(id: nat)

  datatype File = Record | Sandboxes | Networks

  /** One run: its owner, its files, and what they listed when the owner died. */
  datatype Run = Run(
    alive: bool,
    /** Whether its record parses; records are renamed into place whole and never rewritten. */
    parses: bool,
    backend: Sweep.Backend,
    /** When the owner started, in milliseconds since the epoch, and what its record says of
        that, where that much of it is readable. */
    start: int,
    startedIso: Option<int>,
    record: bool,
    sandboxes: seq<Item>,
    networks: seq<Item>,
    /** At the owner's death: whether the record was there, and the lines of the files. */
    recorded: bool,
    lastSandboxes: seq<Item>,
    lastNetworks: seq<Item>)

  datatype Phase =
    | Waiting
    | Choosing
    | Judging(run: nat)
    | ReadingNames(run: nat)
    | RemovingNames(run: nat, left: seq<Item>)
    | ReadingNetworks(run: nat)
    | RemovingNetworks(run: nat, left: seq<Item>)
    | Deleting(run: nat, files: set<File>, clean: bool)
    | Finished

  /** A sweep of process own's, or the watchdog that process left behind. */
  datatype Sweeper = Sweeper(
    watchdog: bool,
    own: nat,
    backend: Sweep.Backend,
    phase: Phase,
    queue: seq<nat>,
    /** The dead, recorded runs of its backend when it listed the directory. */
    duty: set<nat>,
    /** Runs it took for alive. */
    spared: set<nat>,
    /** Runs whose record was gone when it listed the directory or came to read it. */
    vanished: set<nat>,
    /** Runs all three files of which it unlinked. */
    reaped: set<nat>,
    /** Runs of which it could not unlink some file. */
    failed: set<nat>)

  /** How the time source answers for a pid: ps, called at before, with an age; PowerShell
      with the time itself. Either may fail. */
  datatype Probe = Ps(before: int, answer: Option<string>) | PowerShell(started: Option<int>)

  /** startedIso */
  function Started(probe: Probe): Option<int> {
    match probe
    case Ps(before, answer) => PosixStarted(before, answer)
    case PowerShell(started) => started
  }

  datatype State = State(
    runs: map<nat, Run>,
    sweepers: map<nat, Sweeper>,
    /** Removals attempted, whether they worked or not. */
    attempted: set<(nat, Item)>,
    /** Runs that some sweep took for dead while their owner was alive. */
    misjudged: set<nat>)

  datatype Step =
    | ListRuns(p: nat, listed: seq<nat>)
    | WatchdogWakes(p: nat)
    /** Takes the next run and reads its record; stale: an unparseable one is over an hour old. */
    | Choose(p: nat, stale: bool)
    /** running: some process has the pid. */
    | Judge(p: nat, running: bool, probe: Probe)
    | ReadNames(p: nat)
    | RemoveItem(p: nat)
    | ReadNetworkIds(p: nat)
    | Unlink(p: nat, file: File, works: bool)
    | Stop(p: nat)
    | OwnerWrites(run: nat, record: bool, sandboxes: seq<Item>, networks: seq<Item>)
    | OwnerDies(run: nat)

  predicate Recorded(s: State, run: nat) {
    run in s.runs && s.runs[run].record
  }

  predicate Enabled(s: State, step: Step) {
    match step
    case ListRuns(p, listed) =>
      && p in s.sweepers && s.sweepers[p].phase.Waiting? && !s.sweepers[p].watchdog
      && forall r | r in s.runs :: r in listed <==> Recorded(s, r)
    case WatchdogWakes(p) =>
      && p in s.sweepers && s.sweepers[p].phase.Waiting? && s.sweepers[p].watchdog
      && s.sweepers[p].own in s.runs && !s.runs[s.sweepers[p].own].alive
    case Choose(p, _) => p in s.sweepers && s.sweepers[p].phase.Choosing?
    // A live owner has its pid; a dead one's may have another process by now
    case Judge(p, running, _) =>
      && p in s.sweepers && s.sweepers[p].phase.Judging?
      && var r := s.sweepers[p].phase.run; r in s.runs && (s.runs[r].alive ==> running)
    case ReadNames(p) =>
      p in s.sweepers && s.sweepers[p].phase.ReadingNames? && s.sweepers[p].phase.run in s.runs
    case RemoveItem(p) =>
      p in s.sweepers && (s.sweepers[p].phase.RemovingNames? || s.sweepers[p].phase.RemovingNetworks?)
    case ReadNetworkIds(p) =>
      p in s.sweepers && s.sweepers[p].phase.ReadingNetworks? && s.sweepers[p].phase.run in s.runs
    case Unlink(p, file, _) =>
      && p in s.sweepers && s.sweepers[p].phase.Deleting? && s.sweepers[p].phase.run in s.runs
      && file in s.sweepers[p].phase.files
    case Stop(p) => p in s.sweepers
    case OwnerWrites(r, _, _, _) => r in s.runs && s.runs[r].alive
    case OwnerDies(r) => r in s.runs && s.runs[r].alive
  }

  function Put(s: State, p: nat, q: Sweeper): State {
    s.(sweepers := s.sweepers[p := q])
  }

  /** What a sweeper does about a run once it has read its record. */
  function Decide(s: State, q: Sweeper, r: nat, stale: bool): Phase {
    if r == q.own || !Recorded(s, r) then Choosing
    else if !s.runs[r].parses then (if stale then ReadingNames(r) else Choosing)
    else if s.runs[r].backend != q.backend then Choosing
    else Judging(r)
  }

  function Unlinked(run: Run, file: File): Run {
    match file
    case Record => run.(record := false)
    case Sandboxes => run.(sandboxes := [])
    case Networks => run.(networks := [])
  }

  predicate OnDuty(s: State, q: Sweeper, r: nat) {
    && r in s.runs && r != q.own
    && !s.runs[r].alive && s.runs[r].recorded && s.runs[r].parses && s.runs[r].backend == q.backend
  }

  /** A record read and judged. */
  function Judged(s: State, p: nat, q: Sweeper, alive: bool): State
    requires q.phase.Judging? && q.phase.run in s.runs
  {
    var r := q.phase.run;
    if alive then Put(s, p, q.(phase := Choosing, spared := q.spared + {r}))
    else Put(s, p, q.(phase := ReadingNames(r)))
         .(misjudged := if s.runs[r].alive then s.misjudged + {r} else s.misjudged)
  }

  /** Past the last item: the networks after the names, the files after the networks. */
  function Removed(s: State, p: nat, q: Sweeper): State
    requires q.phase.RemovingNames? || q.phase.RemovingNetworks?
  {
    var r, left := q.phase.run, q.phase.left;
    if left != [] then
      var next := if q.phase.RemovingNames? then RemovingNames(r, left[1..]) else RemovingNetworks(r, left[1..]);
      Put(s, p, q.(phase := next)).(attempted := s.attempted + {(r, left[0])})
    else if q.phase.RemovingNames? then Put(s, p, q.(phase := ReadingNetworks(r)))
    else Put(s, p, q.(phase := Deleting(r, {Record, Sandboxes, Networks}, true)))
  }

  function Deleted(s: State, p: nat, q: Sweeper, file: File, works: bool): State
    requires q.phase.Deleting? && q.phase.run in s.runs
  {
    var r, left, clean := q.phase.run, q.phase.files - {file}, q.phase.clean && works;
    var runs := if works then s.runs[r := Unlinked(s.runs[r], file)] else s.runs;
    var done := q.(phase := if q.watchdog then Finished else Choosing,
                   reaped := if clean then q.reaped + {r} else q.reaped,
                   failed := if clean then q.failed else q.failed + {r});
    Put(s, p, if left == {} then done else q.(phase := Deleting(r, left, clean))).(runs := runs)
  }

  function Next(s: State, step: Step): State
    requires Enabled(s, step)
  {
    match step
    case ListRuns(p, listed) =>
      var q := s.sweepers[p];
      var duty := set r | r in s.runs && OnDuty(s, q, r);
      var vanished := set r | r in s.runs && !s.runs[r].record;
      Put(s, p, q.(phase := Choosing, queue := listed, duty := duty, vanished := vanished))
    case WatchdogWakes(p) => Put(s, p, s.sweepers[p].(phase := ReadingNames(s.sweepers[p].own)))
    case Choose(p, stale) =>
      var q := s.sweepers[p];
      if q.queue == [] then Put(s, p, q.(phase := Finished))
      else
        var r := q.queue[0];
        Put(s, p, q.(queue := q.queue[1..], phase := Decide(s, q, r, stale),
                     vanished := if Recorded(s, r) then q.vanished else q.vanished + {r}))
    case Judge(p, running, probe) =>
      var q := s.sweepers[p];
      Judged(s, p, q, IsRecordAlive(running, Started(probe), s.runs[q.phase.run].startedIso))
    case ReadNames(p) =>
      var q := s.sweepers[p];
      Put(s, p, q.(phase := RemovingNames(q.phase.run, s.runs[q.phase.run].sandboxes)))
    case RemoveItem(p) => Removed(s, p, s.sweepers[p])
    case ReadNetworkIds(p) =>
      var q := s.sweepers[p];
      Put(s, p, q.(phase := RemovingNetworks(q.phase.run, s.runs[q.phase.run].networks)))
    case Unlink(p, file, works) => Deleted(s, p, s.sweepers[p], file, works)
    case Stop(p) => s.(sweepers := s.sweepers - {p})
    case OwnerWrites(r, record, sandboxes, networks) =>
      s.(runs := s.runs[r := s.runs[r].(record := record, sandboxes := sandboxes, networks := networks)])
    case OwnerDies(r) =>
      var k := s.runs[r];
      s.(runs := s.runs[r := k.(alive := false, recorded := k.record, lastSandboxes := k.sandboxes,
                                lastNetworks := k.networks)])
  }

  ghost predicate IsRun(s: State, steps: seq<Step>)
    decreases |steps|
  {
    steps == [] || (Enabled(s, steps[0]) && IsRun(Next(s, steps[0]), steps[1..]))
  }

  ghost function After(s: State, steps: seq<Step>): State
    requires IsRun(s, steps)
    decreases |steps|
  {
    if steps == [] then s else After(Next(s, steps[0]), steps[1..])
  }

  /** No sweep has begun; owners may be dead already, their files as they left them. */
  ghost predicate Initial(s: State) {
    && s.attempted == {} && s.misjudged == {}
    && (forall p | p in s.sweepers ::
          var q := s.sweepers[p];
          q.phase.Waiting? && q.queue == [] && q.duty == {} && q.spared == {}
          && q.vanished == {} && q.reaped == {} && q.failed == {})
    && (forall r | r in s.runs && !s.runs[r].alive ::
          var k := s.runs[r];
          k.recorded == k.record && k.lastSandboxes == k.sandboxes && k.lastNetworks == k.networks)
  }

  /** A run and one step more. */
  lemma {:induction false} Extend(s: State, steps: seq<Step>, step: Step) returns (more: seq<Step>)
    requires IsRun(s, steps) && Enabled(After(s, steps), step)
    ensures IsRun(s, more) && After(s, more) == Next(After(s, steps), step)
    decreases |steps|
  {
    if steps == [] {
      more := [step];
      assert more[1..] == [];
    } else {
      var rest := Extend(Next(s, steps[0]), steps[1..], step);
      more := [steps[0]] + rest;
      assert more[1..] == rest;
    }
  }

  // ----- safety -----

  /** The run a sweeper has condemned and is reaping. */
  predicate Reaping(phase: Phase) {
    phase.ReadingNames? || phase.RemovingNames? || phase.ReadingNetworks? || phase.RemovingNetworks? || phase.Deleting?
  }

  /** Grounds on which a sweeper may remove what a run lists. */
  ghost predicate MayReap(s: State, q: Sweeper, r: nat) {
    && r in s.runs
    && (q.watchdog ==> r == q.own && !s.runs[r].alive)
    && (!q.watchdog ==> r != q.own)
    && (!q.watchdog && s.runs[r].parses ==>
          s.runs[r].backend == q.backend && (!s.runs[r].alive || r in s.misjudged))
  }

  ghost predicate SafeSweeper(s: State, q: Sweeper) {
    && (Reaping(q.phase) ==> MayReap(s, q, q.phase.run))
    && (q.phase.Judging? ==>
          && !q.watchdog && q.phase.run in s.runs && q.phase.run != q.own
          && s.runs[q.phase.run].parses && s.runs[q.phase.run].backend == q.backend)
    && (q.phase.Choosing? ==> !q.watchdog)
  }

  ghost predicate Safe(s: State) {
    forall p | p in s.sweepers :: SafeSweeper(s, s.sweepers[p])
  }

  /** Runs keep their identity, and no owner comes back to life. */
  ghost predicate RunsGoOn(s: State, s': State) {
    && s.runs.Keys == s'.runs.Keys && s.misjudged <= s'.misjudged
    && forall r | r in s.runs ::
         && s'.runs[r].parses == s.runs[r].parses && s'.runs[r].backend == s.runs[r].backend
         && s'.runs[r].start == s.runs[r].start && s'.runs[r].startedIso == s.runs[r].startedIso
         && (s'.runs[r].alive ==> s.runs[r].alive)
  }

  predicate OfSweeper(step: Step) {
    !step.OwnerWrites? && !step.OwnerDies?
  }

  lemma SweeperLeavesRuns(s: State, step: Step)
    requires Enabled(s, step) && OfSweeper(step) && !step.Unlink?
    ensures Next(s, step).runs == s.runs && s.attempted <= Next(s, step).attempted
    ensures s.misjudged <= Next(s, step).misjudged
  {}

  lemma OwnerGoesOn(s: State, step: Step)
    requires Enabled(s, step) && !OfSweeper(step)
    ensures RunsGoOn(s, Next(s, step))
  {}

  lemma UnlinkEffect(s: State, p: nat, file: File, works: bool)
    requires Enabled(s, Unlink(p, file, works))
    ensures var r, t := s.sweepers[p].phase.run, Next(s, Unlink(p, file, works));
            t.misjudged == s.misjudged && t.runs == if works then s.runs[r := Unlinked(s.runs[r], file)] else s.runs
  {}

  lemma StepGoesOn(s: State, step: Step)
    requires Enabled(s, step)
    ensures RunsGoOn(s, Next(s, step))
  {
    if !OfSweeper(step) {
      OwnerGoesOn(s, step);
    } else if step.Unlink? {
      UnlinkEffect(s, step.p, step.file, step.works);
    } else {
      SweeperLeavesRuns(s, step);
    }
  }

  lemma OthersUntouched(s: State, step: Step, p: nat)
    requires Enabled(s, step) && p in Next(s, step).sweepers && (OfSweeper(step) ==> p != step.p)
    ensures p in s.sweepers && Next(s, step).sweepers[p] == s.sweepers[p]
  {}

  lemma OwnStepSafe(s: State, step: Step)
    requires Enabled(s, step) && OfSweeper(step) && !step.Stop? && step.p in s.sweepers
    requires SafeSweeper(s, s.sweepers[step.p])
    ensures step.p in Next(s, step).sweepers && SafeSweeper(Next(s, step), Next(s, step).sweepers[step.p])
  {}

  lemma SafeStep(s: State, step: Step)
    requires Safe(s) && Enabled(s, step)
    ensures Safe(Next(s, step))
  {
    var t := Next(s, step);
    StepGoesOn(s, step);
    forall p | p in t.sweepers
      ensures SafeSweeper(t, t.sweepers[p])
    {
      if OfSweeper(step) && p == step.p {
        if !step.Stop? { OwnStepSafe(s, step); }
      } else {
        OthersUntouched(s, step, p);
        assert SafeSweeper(s, s.sweepers[p]);
      }
    }
  }

  lemma {:induction false} SafeOverRuns(s: State, steps: seq<Step>)
    requires Safe(s) && IsRun(s, steps)
    ensures Safe(After(s, steps))
    decreases |steps|
  {
    if steps != [] {
      SafeStep(s, steps[0]);
      SafeOverRuns(Next(s, steps[0]), steps[1..]);
    }
  }

  predicate AtWorkOn(s: State, p: nat, r: nat) {
    p in s.sweepers && Reaping(s.sweepers[p].phase) && s.sweepers[p].phase.run == r
  }

  /** The sweep comes to another's record, which does not parse and is over an hour old. */
  predicate FindsStale(s: State, step: Step, p: nat, r: nat)
    requires Enabled(s, step)
  {
    && step.Choose? && step.p == p && step.stale
    && s.sweepers[p].queue != [] && s.sweepers[p].queue[0] == r && r != s.sweepers[p].own
    && Recorded(s, r) && !s.runs[r].parses
  }

  ghost predicate EverFindsStale(s: State, steps: seq<Step>, p: nat, r: nat)
    requires IsRun(s, steps)
    decreases |steps|
  {
    steps != [] && (FindsStale(s, steps[0], p, r) || EverFindsStale(Next(s, steps[0]), steps[1..], p, r))
  }

  /** Nothing else sets a sweep to work on a run whose record does not parse. */
  lemma WorkOnStaleBegins(s: State, step: Step, p: nat, r: nat)
    requires Safe(s) && Enabled(s, step) && p in Next(s, step).sweepers && !Next(s, step).sweepers[p].watchdog
    requires r in s.runs && !s.runs[r].parses && !AtWorkOn(s, p, r)
    ensures p in s.sweepers
    ensures AtWorkOn(Next(s, step), p, r) <==> FindsStale(s, step, p, r)
  {
    if !OfSweeper(step) || step.p != p {
      OthersUntouched(s, step, p);
    } else {
      assert SafeSweeper(s, s.sweepers[p]);
    }
  }

  lemma SameSweeper(s: State, step: Step, p: nat)
    requires Enabled(s, step) && p in Next(s, step).sweepers
    ensures p in s.sweepers && Next(s, step).sweepers[p].watchdog == s.sweepers[p].watchdog
  {
    if !OfSweeper(step) || step.p != p { OthersUntouched(s, step, p); }
  }

  lemma {:induction false} WorkOnStaleBegan(s: State, steps: seq<Step>, p: nat, r: nat)
    requires Safe(s) && IsRun(s, steps) && p in After(s, steps).sweepers && r in s.runs && !s.runs[r].parses
    requires AtWorkOn(After(s, steps), p, r) && !After(s, steps).sweepers[p].watchdog
    ensures AtWorkOn(s, p, r) || EverFindsStale(s, steps, p, r)
    decreases |steps|
  {
    if steps != [] {
      SafeStep(s, steps[0]);
      StepGoesOn(s, steps[0]);
      WorkOnStaleBegan(Next(s, steps[0]), steps[1..], p, r);
      if !AtWorkOn(s, p, r) && AtWorkOn(Next(s, steps[0]), p, r) {
        SweptBySweep(Next(s, steps[0]), steps[1..], p);
        WorkOnStaleBegins(s, steps[0], p, r);
      }
    }
  }

  lemma {:induction false} SweptBySweep(s: State, steps: seq<Step>, p: nat)
    requires IsRun(s, steps) && p in After(s, steps).sweepers
    ensures p in s.sweepers && After(s, steps).sweepers[p].watchdog == s.sweepers[p].watchdog
    decreases |steps|
  {
    if steps != [] {
      SweptBySweep(Next(s, steps[0]), steps[1..], p);
      SameSweeper(s, steps[0], p);
    }
  }

  /** Whenever a sweep, after whatever came before, removes something of a run, that run is not
      the sweeper's own. If its record parses, it has the sweeper's backend, and is dead or was
      taken for dead while alive; if not, the sweep found the record over an hour old. */
  lemma RemovalsAreJustified(s: State, steps: seq<Step>, p: nat)
    requires Initial(s) && IsRun(s, steps) && Enabled(After(s, steps), RemoveItem(p))
    ensures var t := After(s, steps);
            var q := t.sweepers[p];
            && q.phase.run in t.runs
            && (!q.watchdog ==> q.phase.run != q.own)
            && (!q.watchdog && t.runs[q.phase.run].parses ==>
                  && t.runs[q.phase.run].backend == q.backend
                  && (t.runs[q.phase.run].alive ==> EverMisjudges(s, steps, q.phase.run)))
            && (!q.watchdog && !t.runs[q.phase.run].parses ==> EverFindsStale(s, steps, p, q.phase.run))
  {
    SafeOverRuns(s, steps);
    RunsGoOnOverRuns(s, steps);
    var t := After(s, steps);
    assert SafeSweeper(t, t.sweepers[p]);
    MisjudgedInRun(s, steps, t.sweepers[p].phase.run);
    if !t.sweepers[p].watchdog && !t.runs[t.sweepers[p].phase.run].parses {
      WorkOnStaleBegan(s, steps, p, t.sweepers[p].phase.run);
      SweptBySweep(s, steps, p);
    }
  }

  lemma {:induction false} RunsGoOnOverRuns(s: State, steps: seq<Step>)
    requires IsRun(s, steps)
    ensures RunsGoOn(s, After(s, steps))
    decreases |steps|
  {
    if steps != [] {
      StepGoesOn(s, steps[0]);
      RunsGoOnOverRuns(Next(s, steps[0]), steps[1..]);
    }
  }

  // ----- when a live run is reaped -----

  /** Some sweep is at work removing a run with a readable record whose owner is alive. */
  ghost predicate ReapsTheLiving(s: State, r: nat) {
    && r in s.runs && s.runs[r].alive && s.runs[r].parses
    && exists p :: p in s.sweepers && Reaping(s.sweepers[p].phase) && s.sweepers[p].phase.run == r
  }

  ghost predicate EverReapsTheLiving(s: State, steps: seq<Step>, r: nat)
    requires IsRun(s, steps)
    decreases |steps|
  {
    ReapsTheLiving(s, r) || (steps != [] && EverReapsTheLiving(Next(s, steps[0]), steps[1..], r))
  }

  /** No start time came back, or one that is over two seconds off the record's. */
  predicate TurnsDown(probe: Probe, recorded: Option<int>) {
    || recorded.None?
    || match probe
       case Ps(before, answer) =>
         || answer.None? || ParseEtimeMs(answer.value).None?
         || Abs(before - ParseEtimeMs(answer.value).value - recorded.value) > LIVENESS_TOLERANCE_MS
       case PowerShell(started) =>
         started.None? || Abs(started.value - recorded.value) > LIVENESS_TOLERANCE_MS
  }

  /** The step judges this run by such an answer while its owner is alive. */
  predicate Misjudges(s: State, step: Step, r: nat)
    requires Enabled(s, step)
  {
    && step.Judge? && s.sweepers[step.p].phase.run == r
    && s.runs[r].alive && TurnsDown(step.probe, s.runs[r].startedIso)
  }

  ghost predicate EverMisjudges(s: State, steps: seq<Step>, r: nat)
    requires IsRun(s, steps)
    decreases |steps|
  {
    steps != [] && (Misjudges(s, steps[0], r) || EverMisjudges(Next(s, steps[0]), steps[1..], r))
  }

  lemma MisjudgedStep(s: State, step: Step, r: nat)
    requires Enabled(s, step)
    ensures r in Next(s, step).misjudged <==> r in s.misjudged || Misjudges(s, step, r)
  {
    if OfSweeper(step) && !step.Unlink? { SweeperLeavesRuns(s, step); }
  }

  lemma {:induction false} MisjudgedInRun(s: State, steps: seq<Step>, r: nat)
    requires IsRun(s, steps)
    ensures r in After(s, steps).misjudged <==> r in s.misjudged || EverMisjudges(s, steps, r)
    decreases |steps|
  {
    if steps != [] {
      MisjudgedStep(s, steps[0], r);
      MisjudgedInRun(Next(s, steps[0]), steps[1..], r);
    }
  }

  /** Only judging so starts the reaping of a live run. */
  lemma ReapingBegins(s: State, step: Step, r: nat)
    requires Safe(s) && Enabled(s, step) && !ReapsTheLiving(s, r) && r in s.runs && s.runs[r].parses
    ensures ReapsTheLiving(Next(s, step), r) <==> Misjudges(s, step, r)
  {
    var t := Next(s, step);
    StepGoesOn(s, step);
    if Misjudges(s, step, r) {
      assert t.sweepers[step.p].phase == ReadingNames(r);
    }
    if ReapsTheLiving(t, r) {
      var p :| p in t.sweepers && Reaping(t.sweepers[p].phase) && t.sweepers[p].phase.run == r;
      if !OfSweeper(step) || p != step.p {
        OthersUntouched(s, step, p);
        assert false;
      }
      OwnReapingBegins(s, step, r);
    }
  }

  lemma OwnReapingBegins(s: State, step: Step, r: nat)
    requires Enabled(s, step) && OfSweeper(step) && step.p in Next(s, step).sweepers
    requires SafeSweeper(s, s.sweepers[step.p]) && r in s.runs && s.runs[r].alive && s.runs[r].parses
    requires Reaping(Next(s, step).sweepers[step.p].phase) && Next(s, step).sweepers[step.p].phase.run == r
    requires !(Reaping(s.sweepers[step.p].phase) && s.sweepers[step.p].phase.run == r)
    ensures Misjudges(s, step, r)
  {}

  lemma {:induction false} ReapedAliveInRun(s: State, steps: seq<Step>, r: nat)
    requires Safe(s) && IsRun(s, steps) && !ReapsTheLiving(s, r) && r in s.runs && s.runs[r].parses
    ensures EverReapsTheLiving(s, steps, r) <==> EverMisjudges(s, steps, r)
    decreases |steps|
  {
    if steps != [] {
      var t := Next(s, steps[0]);
      ReapingBegins(s, steps[0], r);
      SafeStep(s, steps[0]);
      StepGoesOn(s, steps[0]);
      if !ReapsTheLiving(t, r) { ReapedAliveInRun(t, steps[1..], r); }
    }
  }

  /** Over every run of sweepers, watchdogs and owners: a run with a readable record is reaped
      while its owner lives if and only if some sweep judged it by an answer that is missing,
      unreadable or over two seconds off. */
  lemma LivingReapedExactlyWhenMisjudged(s: State, steps: seq<Step>, r: nat)
    requires Initial(s) && IsRun(s, steps) && r in s.runs && s.runs[r].parses
    ensures EverReapsTheLiving(s, steps, r) <==> EverMisjudges(s, steps, r)
  {
    ReapedAliveInRun(s, steps, r);
  }

  /** An answer about a live process given soon enough. */
  ghost predicate Prompt(probe: Probe, start: int) {
    match probe
    case Ps(before, answer) =>
      && answer.Some?
      && exists seconds, delay: nat :: delay <= 1999 && Observed(answer.value, seconds, start, before, delay)
    case PowerShell(started) => started == Some(start)
  }

  /** Whenever a sweep judges the run while its owner is alive, it gets such an answer. */
  ghost predicate JudgedPromptly(s: State, steps: seq<Step>, r: nat)
    requires IsRun(s, steps)
    decreases |steps|
  {
    steps != [] ==>
      && (steps[0].Judge? && s.sweepers[steps[0].p].phase.run == r && s.runs[r].alive ==>
            Prompt(steps[0].probe, s.runs[r].start))
      && JudgedPromptly(Next(s, steps[0]), steps[1..], r)
  }

  predicate WellRecorded(run: Run) {
    run.startedIso.Some? && -1 <= run.startedIso.value - run.start <= 1
  }

  lemma PromptAnswerAccepted(probe: Probe, run: Run)
    requires Prompt(probe, run.start) && WellRecorded(run)
    ensures !TurnsDown(probe, run.startedIso)
  {
    if probe.Ps? {
      var seconds, delay: nat :| delay <= 1999 && Observed(probe.answer.value, seconds, run.start, probe.before, delay);
      LiveOwnerAccepted(probe.answer.value, seconds, run.start, run.startedIso.value, probe.before, delay);
    }
  }

  lemma {:induction false} PromptlyJudgedRight(s: State, steps: seq<Step>, r: nat)
    requires IsRun(s, steps) && r in s.runs && WellRecorded(s.runs[r]) && JudgedPromptly(s, steps, r)
    ensures !EverMisjudges(s, steps, r)
    decreases |steps|
  {
    if steps != [] {
      if Misjudges(s, steps[0], r) { PromptAnswerAccepted(steps[0].probe, s.runs[r]); }
      StepGoesOn(s, steps[0]);
      PromptlyJudgedRight(Next(s, steps[0]), steps[1..], r);
    }
  }

  /** A run recorded to the millisecond, about which ps answers within 1999 ms, is never reaped
      while its owner lives, whoever sweeps and in whatever order. */
  lemma NeverReapsTheLiving(s: State, steps: seq<Step>, r: nat)
    requires Initial(s) && IsRun(s, steps) && r in s.runs && s.runs[r].parses
    requires WellRecorded(s.runs[r]) && JudgedPromptly(s, steps, r)
    ensures !EverReapsTheLiving(s, steps, r)
  {
    PromptlyJudgedRight(s, steps, r);
    LivingReapedExactlyWhenMisjudged(s, steps, r);
  }

  /** A run as its owner left or leaves it. */
  function NewRun(alive: bool, backend: Sweep.Backend, start: int, sandboxes: seq<Item>): Run {
    Run(alive, true, backend, start, Some(start), true, sandboxes, [], true, sandboxes, [])
  }

  function NewSweeper(own: nat, backend: Sweep.Backend): Sweeper {
    Sweeper(false, own, backend, Waiting, [], {}, {}, {}, {}, {})
  }

  /** A sweeper lists and takes up the one run there is, and ps fails. */
  lemma MisjudgedByPs(s: State, p: nat, before: int) returns (steps: seq<Step>)
    requires s.runs.Keys == {1} && s.runs[1].alive && s.runs[1].parses && s.runs[1].record && s.misjudged == {}
    requires p in s.sweepers && s.sweepers[p] == NewSweeper(2, s.runs[1].backend)
    ensures IsRun(s, steps) && After(s, steps).misjudged == {1}
    ensures After(s, steps) == s.(sweepers := After(s, steps).sweepers, misjudged := {1})
    ensures p in After(s, steps).sweepers && After(s, steps).sweepers == s.sweepers[p := After(s, steps).sweepers[p]]
    ensures After(s, steps).sweepers[p].phase == ReadingNames(1) && !After(s, steps).sweepers[p].watchdog
  {
    steps := Extend(s, [], ListRuns(p, [1]));
    steps := Extend(s, steps, Choose(p, false));
    assert After(s, steps).sweepers[p].phase == Judging(1);
    steps := Extend(s, steps, Judge(p, true, Ps(before, None)));
  }

  /** It does happen: ps fails, and a sandbox of a live, well recorded owner is removed. */
  lemma FailedPsReapsTheLiving(start: int, before: int, name: nat) returns (s: State, steps: seq<Step>)
    ensures Initial(s) && IsRun(s, steps) && s.runs.Keys == {1} && WellRecorded(s.runs[1])
    ensures var t := After(s, steps);
            1 in t.runs && t.runs[1].alive && t.runs[1].parses && (1, Sandbox(name)) in t.attempted
    ensures EverReapsTheLiving(s, steps, 1)
  {
    var run, q := NewRun(true, Sweep.Msb, start, [Sandbox(name)]), NewSweeper(2, Sweep.Msb);
    s := State(map[1 := run], map[2 := q], {}, {});
    steps := MisjudgedByPs(s, 2, before);
    steps := Extend(s, steps, ReadNames(2));
    assert After(s, steps).sweepers[2].phase == RemovingNames(1, [Sandbox(name)]);
    steps := Extend(s, steps, RemoveItem(2));
    MisjudgedInRun(s, steps, 1);
    LivingReapedExactlyWhenMisjudged(s, steps, 1);
  }
}
