/** Crash safety of the ledger over every interleaving: which lines are there when the process
    dies, at whatever point of whatever calls, and whether the run record is. */
module LifecycleCrash {
  import opened LedgerDisk
  import opened Lifecycle
  import opened LifecycleLedger
  import opened LifecycleRuns
  import opened Options

  // ----- the lines -----

  ghost predicate EverGains(s: State, steps: seq<Step>, n: nat)
    requires IsRun(s, steps)
    decreases |steps|
  {
    steps != [] && (Gains(s.disk, OpOf(s, steps[0]), n) || EverGains(Next(s, steps[0]), steps[1..], n))
  }

  /** Some step of the run loses the name's line, and none lists the name again. */
  ghost predicate LineLost(s: State, steps: seq<Step>, n: nat)
    requires IsRun(s, steps)
    decreases |steps|
  {
    steps != [] &&
    var t := Next(s, steps[0]);
    || (Loses(s.disk, OpOf(s, steps[0]), n) && !EverGains(t, steps[1..], n))
    || LineLost(t, steps[1..], n)
  }

  /** The name has been minted and will not be tracked any more. */
  ghost predicate Retired(s: State, n: nat) {
    n <= s.sequence && n !in s.due
    && forall c | c in s.containers :: s.containers[c].phase.Tracking? ==> s.containers[c].name != n
  }

  /** What a step may do to that: track the name of its container or the next number, or
      prepare to track the next number. */
  ghost predicate TracksOnly(s: State, t: State, step: Step) {
    && s.sequence <= t.sequence
    && (forall n | n in t.due ::
          || n in s.due || n == s.sequence + 1
          || (OfContainer(step) && step.c in s.containers && s.containers[step.c].phase.Tracking?
              && s.containers[step.c].name == n))
    && (forall c | c in t.containers && t.containers[c].phase.Tracking? ::
          t.containers[c].name == s.sequence + 1 || (c in s.containers && t.containers[c] == s.containers[c]))
  }

  lemma StartTracksOnly(s: State, c: nat, a: StartStep)
    requires Fits(s, Start(c, a))
    ensures TracksOnly(s, NextStart(s, c, a), Start(c, a))
  {}

  lemma StopTracksOnly(s: State, c: nat, a: StopStep)
    requires Fits(s, Stop(c, a))
    ensures TracksOnly(s, NextStop(s, c, a), Stop(c, a))
  {}

  lemma CheckpointTracksOnly(s: State, c: nat, a: CheckpointStep)
    requires Fits(s, Checkpoint(c, a))
    ensures TracksOnly(s, NextCheckpoint(s, c, a), Checkpoint(c, a))
  {}

  lemma ReuseTracksOnly(s: State, c: nat, a: ReuseStep)
    requires Fits(s, Reuse(c, a))
    ensures TracksOnly(s, NextReuse(s, c, a), Reuse(c, a))
  {}

  lemma StepTracksOnly(s: State, step: Step)
    requires Enabled(s, step)
    ensures TracksOnly(s, Next(s, step), step)
  {
    match step
    case Start(c, a) => StartTracksOnly(s, c, a);
    case Stop(c, a) => StopTracksOnly(s, c, a);
    case Checkpoint(c, a) => CheckpointTracksOnly(s, c, a);
    case Reuse(c, a) => ReuseTracksOnly(s, c, a);
    case Rewriting(_, _) | NetworkTracked | NetworkUntracked(_, _) | NetworkUntrackFails(_) =>
  }

  lemma {:induction false} RetiredForGood(s: State, steps: seq<Step>, n: nat)
    requires IsRun(s, steps) && Retired(s, n)
    ensures n !in After(s, steps).due
    decreases |steps|
  {
    if steps != [] {
      StepTracksOnly(s, steps[0]);
      RetiredForGood(Next(s, steps[0]), steps[1..], n);
    }
  }

  /** A name whose own line is being taken off. */
  lemma TakesOwn(s: State, step: Step, n: nat)
    requires Enabled(s, step) && Takes(OpOf(s, step), n)
    ensures OfContainer(step) && Untracked(s.containers[step.c]) == Some(n)
    ensures n !in Next(s, step).due && Next(s, step).sequence == s.sequence
    ensures forall c | c in Next(s, step).containers && Next(s, step).containers[c].phase.Tracking? ::
              c != step.c && c in s.containers && Next(s, step).containers[c] == s.containers[c]
  {}

  lemma TakenIsRetired(s: State, step: Step, n: nat)
    requires LedgerInv(s) && Enabled(s, step) && Takes(OpOf(s, step), n)
    ensures Retired(Next(s, step), n)
  {
    TakesOwn(s, step, n);
    var k := s.containers[step.c];
    assert n in Names(k);
    forall c | c in Next(s, step).containers && Next(s, step).containers[c].phase.Tracking?
      ensures Next(s, step).containers[c].name != n
    {
      assert Names(s.containers[c]) !! Names(k);
    }
  }

  /** A name that is due in the end is in the lines exactly if nothing lost it for good and it
      ever was there. */
  lemma {:induction false} LineOverRuns(s: State, steps: seq<Step>, n: nat)
    requires LedgerInv(s) && IsRun(s, steps) && n in After(s, steps).due
    ensures Name(n) in Lines(After(s, steps).disk) <==>
              !LineLost(s, steps, n) && (Name(n) in Lines(s.disk) || EverGains(s, steps, n))
    decreases |steps|
  {
    if steps != [] {
      var op, t := OpOf(s, steps[0]), Next(s, steps[0]);
      LedgerStep(s, steps[0]);
      NotTaken(s, steps, n);
      LineMoves(s.disk, op, n);
      NeverBoth(s.disk, op, n);
      LineOverRuns(t, steps[1..], n);
    }
  }

  lemma NotTaken(s: State, steps: seq<Step>, n: nat)
    requires LedgerInv(s) && IsRun(s, steps) && steps != [] && n in After(s, steps).due
    ensures !Takes(OpOf(s, steps[0]), n)
  {
    if Takes(OpOf(s, steps[0]), n) {
      TakenIsRetired(s, steps[0], n);
      RetiredForGood(Next(s, steps[0]), steps[1..], n);
    }
  }

  lemma DueByTracking(s: State, step: Step, n: nat)
    requires Enabled(s, step) && n !in s.due && n in Next(s, step).due
    ensures OpOf(s, step) == Append(n, Whole)
  {}

  /** A name becomes due by being tracked, which lists it or finds the file torn. */
  lemma {:induction false} DueWasListed(s: State, steps: seq<Step>, n: nat)
    requires LedgerInv(s) && IsRun(s, steps) && n !in s.due && n in After(s, steps).due
    ensures LineLost(s, steps, n) || EverGains(s, steps, n) || Name(n) in Lines(s.disk)
    decreases |steps|
  {
    var op, t := OpOf(s, steps[0]), Next(s, steps[0]);
    if n in t.due {
      DueByTracking(s, steps[0], n);
    } else {
      LedgerStep(s, steps[0]);
      NotTaken(s, steps, n);
      LineMoves(s.disk, op, n);
      DueWasListed(t, steps[1..], n);
    }
  }

  lemma {:induction false} InOrderOverRuns(s: State, steps: seq<Step>)
    requires IsRun(s, steps) && InOrder(s.disk)
    ensures InOrder(After(s, steps).disk)
    decreases |steps|
  {
    if steps != [] {
      InOrderKept(s.disk, OpOf(s, steps[0]));
      InOrderOverRuns(Next(s, steps[0]), steps[1..]);
    }
  }

  /** The process may die between any two steps, that is after any run. A sandbox that exists
      then, and that nobody gave up on removing, has a line in the run's file if and only if
      no step lost it for good and the run does not end in a rewrite that has not come to it
      (or whose last, partial line happens to read as it). */
  lemma CrashedRunLists(s: State, steps: seq<Step>, n: nat)
    requires Initial(s) && IsRun(s, steps)
    requires n in After(s, steps).live && n !in After(s, steps).stray
    ensures var t := After(s, steps);
            Name(n) in Read(t.disk.sandboxes) <==>
              (!LineLost(s, steps, n) && !Pending(t.disk, n)) || CutReads(t.disk, n)
  {
    InitialLedger(s);
    LedgerOverRuns(s, steps);
    DueWasListed(s, steps, n);
    LineOverRuns(s, steps, n);
    InOrderOverRuns(s, steps);
    Found(After(s, steps).disk, n);
  }

  /** Every sandbox that exists has a line, but for those somebody gave up on removing. */
  ghost predicate FullyListed(t: State) {
    forall n | n in t.live && n !in t.stray :: Name(n) in Read(t.disk.sandboxes)
  }

  /** Some sandbox has lost its line, or the rewrite the run ends in has not come to it. */
  ghost predicate Unlisted(s: State, steps: seq<Step>)
    requires IsRun(s, steps)
  {
    var t := After(s, steps);
    exists n :: n in t.live && n !in t.stray && (LineLost(s, steps, n) || Pending(t.disk, n)) && !CutReads(t.disk, n)
  }

  lemma CrashedRunIsFullyListed(s: State, steps: seq<Step>)
    requires Initial(s) && IsRun(s, steps)
    ensures FullyListed(After(s, steps)) <==> !Unlisted(s, steps)
  {
    forall n | n in After(s, steps).live && n !in After(s, steps).stray
      ensures var t := After(s, steps);
              Name(n) in Read(t.disk.sandboxes) <==>
                !((LineLost(s, steps, n) || Pending(t.disk, n)) && !CutReads(t.disk, n))
    {
      CrashedRunLists(s, steps, n);
    }
  }

  // ----- the sandboxes -----

  /** The sandboxes the step makes, by a create or a restore, one that fails included. */
  function MadeBy(s: State, step: Step): set<nat>
    requires Fits(s, step)
  {
    match step
    case Start(c, Create(_)) => {s.containers[c].name}
    case Start(c, CreateFails(_, made)) => if made then {s.containers[c].name} else {}
    case Checkpoint(c, RestoreSucceeds) => {s.containers[c].other}
    case Checkpoint(c, RestoreFails(leftRecord)) => if leftRecord then {s.containers[c].other} else {}
    case _ => {}
  }

  /** The sandbox it was to remove, and whether it did. */
  function ToRemove(s: State, step: Step): (set<nat>, bool)
    requires Fits(s, step)
  {
    match step
    case Start(c, Remove(effective)) => ({s.containers[c].name}, effective)
    case Stop(c, StopRemove(effective)) => ({s.containers[c].name}, effective)
    case Checkpoint(c, SnapshotTaken(removed)) => ({s.containers[c].name}, removed)
    case Checkpoint(c, RestoreRemove(effective)) => ({s.containers[c].other}, effective)
    case _ => ({}, true)
  }

  ghost predicate EverRemoved(s: State, steps: seq<Step>, n: nat)
    requires IsRun(s, steps)
    decreases |steps|
  {
    steps != [] && (
      || (n in ToRemove(s, steps[0]).0 && ToRemove(s, steps[0]).1)
      || EverRemoved(Next(s, steps[0]), steps[1..], n))
  }

  ghost predicate MadeAndKept(s: State, steps: seq<Step>, n: nat)
    requires IsRun(s, steps)
    decreases |steps|
  {
    steps != [] &&
    var t := Next(s, steps[0]);
    (n in MadeBy(s, steps[0]) && !EverRemoved(t, steps[1..], n)) || MadeAndKept(t, steps[1..], n)
  }

  lemma StartMakes(s: State, c: nat, a: StartStep)
    requires Fits(s, Start(c, a))
    ensures var (n, done) := ToRemove(s, Start(c, a));
            NextStart(s, c, a).live == s.live - (if done then n else {}) + MadeBy(s, Start(c, a))
  {}

  lemma StopMakes(s: State, c: nat, a: StopStep)
    requires Fits(s, Stop(c, a))
    ensures var (n, done) := ToRemove(s, Stop(c, a));
            NextStop(s, c, a).live == s.live - (if done then n else {})
  {}

  lemma CheckpointMakes(s: State, c: nat, a: CheckpointStep)
    requires Fits(s, Checkpoint(c, a))
    ensures var (n, done) := ToRemove(s, Checkpoint(c, a));
            NextCheckpoint(s, c, a).live == s.live - (if done then n else {}) + MadeBy(s, Checkpoint(c, a))
  {}

  lemma ReuseMakes(s: State, c: nat, a: ReuseStep)
    requires Fits(s, Reuse(c, a))
    ensures NextReuse(s, c, a).live == s.live
  {}

  lemma LiveStep(s: State, step: Step, n: nat)
    requires Enabled(s, step)
    ensures n in Next(s, step).live <==>
              n in MadeBy(s, step) || (n in s.live && !(n in ToRemove(s, step).0 && ToRemove(s, step).1))
    ensures n in MadeBy(s, step) ==> n !in ToRemove(s, step).0
  {
    match step
    case Start(c, a) => StartMakes(s, c, a);
    case Stop(c, a) => StopMakes(s, c, a);
    case Checkpoint(c, a) => CheckpointMakes(s, c, a);
    case Reuse(c, a) => ReuseMakes(s, c, a);
    case _ =>
  }

  /** Over every run, a sandbox exists exactly if it was made and no removal of it took effect
      since. */
  lemma {:induction false} LiveOverRuns(s: State, steps: seq<Step>, n: nat)
    requires IsRun(s, steps)
    ensures n in After(s, steps).live <==> (n in s.live && !EverRemoved(s, steps, n)) || MadeAndKept(s, steps, n)
    decreases |steps|
  {
    if steps != [] {
      LiveStep(s, steps[0], n);
      LiveOverRuns(Next(s, steps[0]), steps[1..], n);
    }
  }

  /** The step gives up on a sandbox that exists: its removal had no effect and is not tried
      again, or its create failed having made it. */
  predicate GivesUp(s: State, step: Step, n: nat)
    requires Fits(s, step)
  {
    match step
    case Start(c, Remove(effective)) => !effective && n == s.containers[c].name && n in s.live
    case Start(c, CreateFails(_, made)) => made && n == s.containers[c].name
    case Stop(c, StopRemove(effective)) => !effective && n == s.containers[c].name && n in s.live
    case Checkpoint(c, RestoreRemove(effective)) => !effective && n == s.containers[c].other && n in s.live
    case _ => false
  }

  ghost predicate EverGivenUp(s: State, steps: seq<Step>, n: nat)
    requires IsRun(s, steps)
    decreases |steps|
  {
    steps != [] && (GivesUp(s, steps[0], n) || EverGivenUp(Next(s, steps[0]), steps[1..], n))
  }

  lemma StartGivesUp(s: State, c: nat, a: StartStep, n: nat)
    requires Fits(s, Start(c, a))
    ensures n in NextStart(s, c, a).stray <==> n in s.stray || GivesUp(s, Start(c, a), n)
  {}

  lemma StrayStep(s: State, step: Step, n: nat)
    requires Enabled(s, step)
    ensures n in Next(s, step).stray <==> n in s.stray || GivesUp(s, step, n)
  {
    match step
    case Start(c, a) => StartGivesUp(s, c, a, n);
    case Reuse(c, a) => NoStrayReuse(s, c, a);
    case _ =>
  }

  /** Over every run, the strays are exactly the sandboxes some step gave up on. */
  lemma {:induction false} StrayOverRuns(s: State, steps: seq<Step>, n: nat)
    requires IsRun(s, steps)
    ensures n in After(s, steps).stray <==> n in s.stray || EverGivenUp(s, steps, n)
    decreases |steps|
  {
    if steps != [] {
      StrayStep(s, steps[0], n);
      StrayOverRuns(Next(s, steps[0]), steps[1..], n);
    }
  }

  // ----- without a fault -----

  ghost predicate FaultlessRun(s: State, steps: seq<Step>)
    requires IsRun(s, steps)
    decreases |steps|
  {
    steps != [] ==> Faultless(OpOf(s, steps[0])) && FaultlessRun(Next(s, steps[0]), steps[1..])
  }

  lemma {:induction false} FaultlessLosesNoLine(s: State, steps: seq<Step>, n: nat)
    requires LedgerInv(s) && IsRun(s, steps) && FaultlessRun(s, steps) && Unbroken(s.disk) && n in After(s, steps).due
    ensures !LineLost(s, steps, n)
    decreases |steps|
  {
    if steps != [] {
      LedgerStep(s, steps[0]);
      NotTaken(s, steps, n);
      FaultlessLosesNone(s.disk, OpOf(s, steps[0]), n);
      FaultlessLosesNoLine(Next(s, steps[0]), steps[1..], n);
    }
  }

  lemma NoStrayStart(s: State, c: nat, a: StartStep)
    requires Fits(s, Start(c, a)) && Effective(Start(c, a))
    ensures NextStart(s, c, a).stray == s.stray
  {}

  lemma NoStrayReuse(s: State, c: nat, a: ReuseStep)
    requires Fits(s, Reuse(c, a))
    ensures NextReuse(s, c, a).stray == s.stray
  {}

  lemma NoStrayStep(s: State, step: Step)
    requires Enabled(s, step) && Effective(step)
    ensures Next(s, step).stray == s.stray
  {
    match step
    case Start(c, a) => NoStrayStart(s, c, a);
    case Reuse(c, a) => NoStrayReuse(s, c, a);
    case _ =>
  }

  lemma {:induction false} NoStray(s: State, steps: seq<Step>)
    requires IsRun(s, steps) && RemovalsEffective(steps)
    ensures After(s, steps).stray == s.stray
    decreases |steps|
  {
    if steps != [] {
      assert steps[0] in steps;
      NoStrayStep(s, steps[0]);
      assert forall step | step in steps[1..] :: step in steps;
      NoStray(Next(s, steps[0]), steps[1..]);
    }
  }

  /** Where the ledger files never fail and the process does not die in a rewrite, every sandbox
      that exists has a line, unless somebody gave up on it - and nobody does where every
      removal takes effect. */
  lemma FaultlessRunIsFullyListed(s: State, steps: seq<Step>)
    requires Initial(s) && IsRun(s, steps) && FaultlessRun(s, steps) && After(s, steps).disk.rewrite.None?
    ensures FullyListed(After(s, steps))
    ensures RemovalsEffective(steps) ==> After(s, steps).stray == {}
  {
    InitialLedger(s);
    LedgerOverRuns(s, steps);
    forall n | n in After(s, steps).live && n !in After(s, steps).stray
      ensures Name(n) in Read(After(s, steps).disk.sandboxes)
    {
      FaultlessLosesNoLine(s, steps, n);
      CrashedRunLists(s, steps, n);
    }
    if RemovalsEffective(steps) { NoStray(s, steps); }
  }

  // ----- lines lost -----

  /** Two containers run, the first is stopped, and the process dies after the ledger file was
      truncated and before it is written: the second one's sandbox lives and is listed nowhere,
      though every removal took effect. */
  lemma CrashInRewriteUnlists(c: nat, d: nat, port: Port) returns (s: State, steps: seq<Step>)
    requires c != d
    ensures FairRun(s, steps)
    ensures var t := After(s, steps);
            && d in t.containers && t.containers[d].phase.Running? && t.containers[d].name == 2
            && t.live == {2} && t.stray == {} && Read(t.disk.sandboxes) == []
  {
    s, steps := TwoStarted(c, d, port);
    var t := TwoRun(c, d, {port});
    steps := Halt(s, steps, c, 1, {port});
    var halted := Halted(t, c, 1, {port});
    var u := halted.(due := {2}, disk := Disk(NO_LINES, Some(Rewrite(1, [Name(2)])), false, true));
    TruncationLeads(halted, c);
    assert {1, 2} - {1} == {2};
    steps := Take(s, steps, Rewriting(c, Truncates), u);
  }

  lemma TruncationLeads(t: State, c: nat)
    requires c in t.containers && t.containers[c].phase.StopUntracking? && t.containers[c].name == 1
    requires t.disk == Disk(File([Name(1), Name(2)], Clean), None, false, true)
    ensures Leads(t, Rewriting(c, Truncates),
                  t.(due := t.due - {1}, disk := Disk(NO_LINES, Some(Rewrite(1, [Name(2)])), false, true)))
  {
    assert Rest(t.disk.sandboxes, 1) == [Name(2)];
  }

  /** One container's append stops half way and its start throws; the next one's goes on behind
      the half line, so that its sandbox is made and is listed nowhere. */
  lemma TornAppendHidesTheNext(c: nat, d: nat) returns (s: State, steps: seq<Step>)
    requires c != d
    ensures FairRun(s, steps)
    ensures var t := After(s, steps);
            && d in t.containers && t.containers[d].phase.Booting? && t.containers[d].name == 2
            && t.live == {2} && t.stray == {} && Read(t.disk.sandboxes) == [Junk] && t.disk.rewrite.None?
  {
    s := Fresh(map[c := IDLE, d := IDLE]);
    NothingYet(s.containers);
    var begun := Allocated(s, c, {});
    steps := Begun(s, [], c);
    MintLeads(begun, c, {});
    steps := Take(s, steps, Start(c, MintName), Minted(begun, c, {}));
    steps := TornAppend(s, steps, c);
    steps := LaunchBehind(s, steps, d);
  }

  lemma LaunchBehind(s: State, before: seq<Step>, d: nat) returns (steps: seq<Step>)
    requires FairRun(s, before) && d in After(s, before).containers
    requires var t := After(s, before);
             && t.containers[d] == IDLE && t.live == {} && t.stray == {} && t.sequence == 1
             && t.disk == Disk(File([], Cut(Junk)), None, false, true)
    ensures FairRun(s, steps)
    ensures var t := After(s, steps);
            && d in t.containers && t.containers[d].phase.Booting? && t.containers[d].name == 2
            && t.live == {2} && t.stray == {} && Read(t.disk.sandboxes) == [Junk] && t.disk.rewrite.None?
  {
    steps := Begun(s, before, d);
    steps := Launch(s, steps, d, {});
  }

  lemma TornAppend(s: State, before: seq<Step>, c: nat) returns (steps: seq<Step>)
    requires FairRun(s, before)
    requires var t := After(s, before);
             && c in t.containers && t.containers[c] == IDLE.(phase := Tracking, name := 1)
             && t.disk == Disk(NO_LINES, None, false, true)
    ensures FairRun(s, steps)
    ensures var t := After(s, before);
            After(s, steps) == t.(containers := t.containers[c := IDLE.(name := 1)],
                                  disk := Disk(File([], Cut(Junk)), None, false, true))
  {
    steps := GoOn(s, before, Start(c, TrackFails(Part(Junk))));
    assert Quarantine(After(s, before).containers[c]) == {};
  }

  // ----- the run record -----

  ghost predicate EverDeleted(s: State, steps: seq<Step>)
    requires IsRun(s, steps)
    decreases |steps|
  {
    steps != [] && (DeletesRecord(s.disk, OpOf(s, steps[0])) || EverDeleted(Next(s, steps[0]), steps[1..]))
  }

  /** The run record is written once: it is there exactly if no removal ever found both files
      empty, or unreadable, and unlinked it. */
  lemma {:induction false} RecordSurvivesExactlyWhenNeverEmptied(s: State, steps: seq<Step>)
    requires IsRun(s, steps) && Wanted(s.disk)
    ensures After(s, steps).disk.record <==> s.disk.record && !EverDeleted(s, steps)
    decreases |steps|
  {
    if steps != [] {
      RecordMoves(s.disk, OpOf(s, steps[0]));
      RecordSurvivesExactlyWhenNeverEmptied(Next(s, steps[0]), steps[1..]);
    }
  }

  /** Where the sweep is blind and the watchdog is not: one container starts, stops and another
      starts, the process dies, and a listed sandbox is left that no run record points at. */
  lemma RecordIsNotRewritten(c: nat, d: nat, port: Port) returns (s: State, steps: seq<Step>)
    requires c != d
    ensures FairRun(s, steps)
    ensures var t := After(s, steps);
            && d in t.containers && t.containers[d].phase.Booting? && t.containers[d].name in t.live
            && t.disk == Disk(File([Name(t.containers[d].name)], Clean), None, false, false)
  {
    s := Fresh(map[c := IDLE, d := IDLE]);
    steps := FirstStarts(s, c, d, port);
    steps := FirstStops(s, steps, c, d, port);
    steps := Begun(s, steps, d);
    steps := Launch(s, steps, d, {});
  }

  lemma FirstStops(s: State, before: seq<Step>, c: nat, d: nat, port: Port) returns (steps: seq<Step>)
    requires c != d && FairRun(s, before) && After(s, before) == OneRuns(c, d, {port})
    ensures FairRun(s, steps)
    ensures var t := After(s, steps);
            && d in t.containers && t.containers[d] == IDLE && t.sequence == 1
            && t.disk == Disk(NO_LINES, None, false, false)
  {
    var halted := Halted(OneRuns(c, d, {port}), c, 1, {port});
    steps := Halt(s, before, c, 1, {port});
    LastIsUntracked(halted, c);
    steps := GoOn(s, steps, Stop(c, StopUntrack(Unlinked(true, true, PRUNED))));
  }

  lemma LastIsUntracked(t: State, c: nat)
    requires c in t.containers && t.containers[c].phase.StopUntracking? && t.containers[c].name == 1
    requires t.disk == Disk(File([Name(1)], Clean), None, false, true)
    ensures var step := Stop(c, StopUntrack(Unlinked(true, true, PRUNED)));
            && Enabled(t, step) && Next(t, step).disk == Disk(NO_LINES, None, false, false)
            && Next(t, step).sequence == t.sequence
            && forall d | d in t.containers && d != c ::
                 d in Next(t, step).containers && Next(t, step).containers[d] == t.containers[d]
  {
    assert Rest(File([Name(1)], Clean), 1) == [];
  }
}
