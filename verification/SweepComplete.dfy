/** What a sweep that ran to its end has achieved, whoever else was sweeping. */
module SweepComplete {
  import opened Sweepers
  import Sweep

  ghost predicate AllAttempted(s: State, r: nat, items: seq<Item>) {
    forall item <- items :: (r, item) in s.attempted
  }

  ghost predicate LeftOrAttempted(s: State, r: nat, items: seq<Item>, left: seq<Item>) {
    forall item <- items :: item in left || (r, item) in s.attempted
  }

  /** Everything the run listed at its owner's death has been tried. */
  ghost predicate Swept(s: State, r: nat)
    requires r in s.runs
  {
    AllAttempted(s, r, s.runs[r].lastSandboxes) && AllAttempted(s, r, s.runs[r].lastNetworks)
  }

  /** A run that no sweep took for dead while it was alive. */
  predicate Fair(s: State, r: nat)
    requires r in s.runs
  {
    s.runs[r].parses && r !in s.misjudged
  }

  /** A file of a dead run is as its owner left it, or gone with all of its lines tried. */
  ghost predicate Kept(s: State, r: nat)
    requires r in s.runs
  {
    var k := s.runs[r];
    !k.alive && Fair(s, r) ==>
      && (k.sandboxes == k.lastSandboxes || AllAttempted(s, r, k.lastSandboxes))
      && (k.networks == k.lastNetworks || AllAttempted(s, r, k.lastNetworks))
      && (k.recorded && !k.record ==> Swept(s, r))
  }

  /** How far a sweeper has got with the run it is reaping. */
  ghost predicate Progress(s: State, phase: Phase) {
    Reaping(phase) && phase.run in s.runs && Fair(s, phase.run) ==>
      var r, k := phase.run, s.runs[phase.run];
      match phase
      case RemovingNames(_, left) => LeftOrAttempted(s, r, k.lastSandboxes, left)
      case ReadingNetworks(_) => AllAttempted(s, r, k.lastSandboxes)
      case RemovingNetworks(_, left) =>
        AllAttempted(s, r, k.lastSandboxes) && LeftOrAttempted(s, r, k.lastNetworks, left)
      case Deleting(_, files, clean) =>
        Swept(s, r) && (clean ==> (Record in files || !k.record) && (Sandboxes in files || k.sandboxes == [])
                                  && (Networks in files || k.networks == []))
      case _ => true
  }

  ghost predicate FilesGone(s: State, r: nat) {
    r in s.runs && (Fair(s, r) ==>
      !s.runs[r].alive && !s.runs[r].record && s.runs[r].sandboxes == [] && s.runs[r].networks == [])
  }

  predicate WorkingOn(phase: Phase, r: nat) {
    (phase.Judging? || Reaping(phase)) && phase.run == r
  }

  /** What came of a run the sweep is through with: it deleted the files, an unlink failed, or
      somebody else had taken the record, and with it the run. */
  predicate Settled(s: State, q: Sweeper, r: nat)
    requires r in s.runs
  {
    r in q.reaped || r in q.failed || (r in q.vanished && !s.runs[r].record)
  }

  ghost predicate DutyDone(s: State, q: Sweeper, r: nat) {
    && OnDuty(s, q, r)
    && (r in q.queue || r in q.spared || WorkingOn(q.phase, r) || ((Fair(s, r) ==> Swept(s, r)) && Settled(s, q, r)))
  }

  ghost predicate SweeperInv(s: State, q: Sweeper) {
    && SafeSweeper(s, q)
    && Progress(s, q.phase)
    && (forall r <- q.reaped :: FilesGone(s, r))
    && (forall r <- q.duty :: DutyDone(s, q, r))
    && (q.phase.Waiting? ==> q.duty == {})
    && (q.phase.Finished? && !q.watchdog ==> q.queue == [])
    && (q.watchdog ==> q.duty == {})
    && (q.watchdog && q.phase.Finished? ==>
          q.own in s.runs && !s.runs[q.own].alive && (Fair(s, q.own) ==> Swept(s, q.own)))
  }

  ghost predicate Inv(s: State) {
    && (forall r | r in s.runs :: Kept(s, r))
    && (forall p | p in s.sweepers :: SweeperInv(s, s.sweepers[p]))
  }

  // ----- what a step may change for everybody else -----

  /** A dead run's files can only go, and what was tried stays tried. */
  ghost predicate Settles(s: State, s': State) {
    && RunsGoOn(s, s') && s.attempted <= s'.attempted
    && forall r | r in s.runs && !s.runs[r].alive ::
         var k, k' := s.runs[r], s'.runs[r];
         && k'.recorded == k.recorded && k'.lastSandboxes == k.lastSandboxes && k'.lastNetworks == k.lastNetworks
         && (k'.record ==> k.record) && k'.sandboxes in [k.sandboxes, []] && k'.networks in [k.networks, []]
  }

  lemma UnlinkSettles(s: State, p: nat, file: File, works: bool)
    requires Enabled(s, Unlink(p, file, works))
    ensures Settles(s, Next(s, Unlink(p, file, works)))
  {}

  lemma OwnerSettles(s: State, step: Step)
    requires Enabled(s, step) && !OfSweeper(step)
    ensures Settles(s, Next(s, step))
  {}

  lemma StepSettles(s: State, step: Step)
    requires Enabled(s, step)
    ensures Settles(s, Next(s, step))
  {
    match step
    case Unlink(p, file, works) => UnlinkSettles(s, p, file, works);
    case OwnerWrites(_, _, _, _) | OwnerDies(_) => OwnerSettles(s, step);
    case _ => SweeperLeavesRuns(s, step);
  }

  lemma OtherSweeperKept(s: State, s': State, q: Sweeper)
    requires SweeperInv(s, q) && Settles(s, s')
    ensures SweeperInv(s', q)
  {
    if Reaping(q.phase) && Fair(s', q.phase.run) {
      assert !s.runs[q.phase.run].alive;
    }
  }

  /** A run stays in order under a step that does not unlink one of its files. */
  lemma RunKept(s: State, step: Step, r: nat)
    requires Enabled(s, step) && r in s.runs && Kept(s, r)
    requires step.Unlink? ==> s.sweepers[step.p].phase.run != r
    ensures Kept(Next(s, step), r)
  {
    StepSettles(s, step);
  }

  lemma UnlinkedRunKept(s: State, step: Step)
    requires Enabled(s, step) && step.Unlink? && SweeperInv(s, s.sweepers[step.p])
    requires Kept(s, s.sweepers[step.p].phase.run)
    ensures Kept(Next(s, step), s.sweepers[step.p].phase.run)
  {
    StepSettles(s, step);
  }

  // ----- the sweeper that takes the step -----

  lemma ChooseKept(s: State, p: nat, stale: bool)
    requires Enabled(s, Choose(p, stale)) && SweeperInv(s, s.sweepers[p])
    requires forall r | r in s.runs :: Kept(s, r)
    ensures SweeperInv(Next(s, Choose(p, stale)), Next(s, Choose(p, stale)).sweepers[p])
  {
    var q := s.sweepers[p];
    var t := Next(s, Choose(p, stale));
    OwnStepSafe(s, Choose(p, stale));
    forall r <- t.sweepers[p].duty
      ensures DutyDone(t, t.sweepers[p], r)
    {
      assert DutyDone(s, q, r) && Kept(s, r);
      if q.queue != [] && r == q.queue[0] && r !in q.queue[1..] {
        assert Decide(s, q, r, stale).Judging? || !s.runs[r].record;
      }
    }
  }

  lemma RemoveKept(s: State, p: nat)
    requires Enabled(s, RemoveItem(p)) && SweeperInv(s, s.sweepers[p])
    ensures SweeperInv(Next(s, RemoveItem(p)), Next(s, RemoveItem(p)).sweepers[p])
  {
    var q, t := s.sweepers[p], Next(s, RemoveItem(p));
    OwnStepSafe(s, RemoveItem(p));
    StepSettles(s, RemoveItem(p));
    if q.phase.left != [] {
      assert q.phase.left == [q.phase.left[0]] + q.phase.left[1..];
    }
    assert Progress(t, t.sweepers[p].phase);
    forall r <- q.duty ensures DutyDone(t, t.sweepers[p], r) {
      assert DutyDone(s, q, r);
    }
  }

  lemma UnlinkKeepsFilesGone(s: State, p: nat, file: File, works: bool)
    requires Enabled(s, Unlink(p, file, works)) && SweeperInv(s, s.sweepers[p])
    ensures var t := Next(s, Unlink(p, file, works));
            && Progress(t, t.sweepers[p].phase)
            && forall r <- t.sweepers[p].reaped :: FilesGone(t, r)
  {
    var q, t := s.sweepers[p], Next(s, Unlink(p, file, works));
    UnlinkSettles(s, p, file, works);
    forall r <- t.sweepers[p].reaped ensures FilesGone(t, r) {
      var left := q.phase.files - {file};
      if r in q.reaped {
        assert FilesGone(s, r);
      } else {
        assert Record !in left && Sandboxes !in left && Networks !in left;
      }
    }
  }

  lemma UnlinkKept(s: State, p: nat, file: File, works: bool)
    requires Enabled(s, Unlink(p, file, works)) && SweeperInv(s, s.sweepers[p])
    ensures SweeperInv(Next(s, Unlink(p, file, works)), Next(s, Unlink(p, file, works)).sweepers[p])
  {
    var step := Unlink(p, file, works);
    var q, t := s.sweepers[p], Next(s, step);
    OwnStepSafe(s, step);
    UnlinkSettles(s, p, file, works);
    UnlinkKeepsFilesGone(s, p, file, works);
    forall r <- q.duty ensures DutyDone(t, t.sweepers[p], r) {
      assert DutyDone(s, q, r);
    }
  }

  lemma ReadingKept(s: State, step: Step)
    requires Enabled(s, step) && (step.ReadNames? || step.ReadNetworkIds? || step.Judge? || step.WatchdogWakes?)
    requires SweeperInv(s, s.sweepers[step.p]) && forall r | r in s.runs :: Kept(s, r)
    ensures SweeperInv(Next(s, step), Next(s, step).sweepers[step.p])
  {
    OwnStepSafe(s, step);
    var q, t := s.sweepers[step.p], Next(s, step);
    assert Progress(t, t.sweepers[step.p].phase) by {
      if Reaping(q.phase) { assert Kept(s, q.phase.run); }
    }
    forall r <- q.duty ensures DutyDone(t, t.sweepers[step.p], r) {
      assert DutyDone(s, q, r);
    }
  }

  lemma ListKept(s: State, p: nat, listed: seq<nat>)
    requires Enabled(s, ListRuns(p, listed)) && SweeperInv(s, s.sweepers[p])
    requires forall r | r in s.runs :: Kept(s, r)
    ensures SweeperInv(Next(s, ListRuns(p, listed)), Next(s, ListRuns(p, listed)).sweepers[p])
  {
    var q, t := s.sweepers[p], Next(s, ListRuns(p, listed));
    OwnStepSafe(s, ListRuns(p, listed));
    forall r <- t.sweepers[p].duty ensures DutyDone(t, t.sweepers[p], r) {
      assert OnDuty(s, q, r) && Kept(s, r);
    }
  }

  lemma OwnStepKept(s: State, step: Step)
    requires Inv(s) && Enabled(s, step) && OfSweeper(step) && !step.Stop?
    ensures step.p in Next(s, step).sweepers && SweeperInv(Next(s, step), Next(s, step).sweepers[step.p])
  {
    match step
    case ListRuns(p, listed) => ListKept(s, p, listed);
    case Choose(p, stale) => ChooseKept(s, p, stale);
    case RemoveItem(p) => RemoveKept(s, p);
    case Unlink(p, file, works) => UnlinkKept(s, p, file, works);
    case WatchdogWakes(_) | Judge(_, _, _) | ReadNames(_) | ReadNetworkIds(_) => ReadingKept(s, step);
  }

  lemma InvStep(s: State, step: Step)
    requires Inv(s) && Enabled(s, step)
    ensures Inv(Next(s, step))
  {
    var t := Next(s, step);
    StepSettles(s, step);
    forall r | r in t.runs ensures Kept(t, r) {
      if step.Unlink? && s.sweepers[step.p].phase.run == r { UnlinkedRunKept(s, step); } else { RunKept(s, step, r); }
    }
    forall p | p in t.sweepers ensures SweeperInv(t, t.sweepers[p]) {
      if OfSweeper(step) && p == step.p {
        if !step.Stop? { OwnStepKept(s, step); }
      } else {
        OthersUntouched(s, step, p);
        OtherSweeperKept(s, t, s.sweepers[p]);
      }
    }
  }

  lemma {:induction false} InvOverRuns(s: State, steps: seq<Step>)
    requires Inv(s) && IsRun(s, steps)
    ensures Inv(After(s, steps))
    decreases |steps|
  {
    if steps != [] {
      InvStep(s, steps[0]);
      InvOverRuns(Next(s, steps[0]), steps[1..]);
    }
  }

  // ----- what the sweeps did, read off the steps -----

  /** The sweep lists the directory when this run, another of its backend's and with a record
      that parses, is dead. */
  predicate Lists(s: State, step: Step, p: nat, r: nat)
    requires Enabled(s, step)
  {
    && step.ListRuns? && step.p == p && r in s.runs && r != s.sweepers[p].own
    && !s.runs[r].alive && s.runs[r].parses && s.runs[r].backend == s.sweepers[p].backend
  }

  /** It judges the run alive: its pid is some process's, whose start time is the record's. */
  predicate Spares(s: State, step: Step, p: nat, r: nat)
    requires Enabled(s, step)
  {
    && step.Judge? && step.p == p && s.sweepers[p].phase.run == r
    && step.running && !TurnsDown(step.probe, s.runs[r].startedIso)
  }

  /** It does not find the run's record, listing the directory or coming to read it. */
  predicate Misses(s: State, step: Step, p: nat, r: nat)
    requires Enabled(s, step)
  {
    && OfSweeper(step) && step.p == p && !Recorded(s, r)
    && (step.ListRuns? || (step.Choose? && s.sweepers[p].queue != [] && s.sweepers[p].queue[0] == r))
  }

  /** One of its unlinks of the run's files fails. */
  predicate FailsToUnlink(s: State, step: Step, p: nat, r: nat)
    requires Enabled(s, step)
  {
    step.Unlink? && step.p == p && s.sweepers[p].phase.run == r && !step.works
  }

  ghost predicate EverLists(s: State, steps: seq<Step>, p: nat, r: nat)
    requires IsRun(s, steps)
    decreases |steps|
  {
    steps != [] && (Lists(s, steps[0], p, r) || EverLists(Next(s, steps[0]), steps[1..], p, r))
  }

  ghost predicate EverSpares(s: State, steps: seq<Step>, p: nat, r: nat)
    requires IsRun(s, steps)
    decreases |steps|
  {
    steps != [] && (Spares(s, steps[0], p, r) || EverSpares(Next(s, steps[0]), steps[1..], p, r))
  }

  ghost predicate EverMisses(s: State, steps: seq<Step>, p: nat, r: nat)
    requires IsRun(s, steps)
    decreases |steps|
  {
    steps != [] && (Misses(s, steps[0], p, r) || EverMisses(Next(s, steps[0]), steps[1..], p, r))
  }

  ghost predicate EverFailsToUnlink(s: State, steps: seq<Step>, p: nat, r: nat)
    requires IsRun(s, steps)
    decreases |steps|
  {
    steps != [] && (FailsToUnlink(s, steps[0], p, r) || EverFailsToUnlink(Next(s, steps[0]), steps[1..], p, r))
  }

  /** Some unlink of the run's files has failed. */
  predicate Unclean(q: Sweeper, r: nat) {
    r in q.failed || (q.phase.Deleting? && q.phase.run == r && !q.phase.clean)
  }

  /** What a sweeper has noted of a run before it listed the directory: nothing. */
  predicate Unlisted(q: Sweeper) {
    q.phase.Waiting? ==> q.duty == {} && q.vanished == {}
  }

  lemma NotedStep(s: State, step: Step, p: nat, r: nat)
    requires Enabled(s, step) && p in Next(s, step).sweepers && r in s.runs
    requires p in s.sweepers ==> Unlisted(s.sweepers[p])
    ensures p in s.sweepers
    ensures var q, q' := s.sweepers[p], Next(s, step).sweepers[p];
            && Unlisted(q')
            && (r in q'.duty <==> r in q.duty || (Lists(s, step, p, r) && s.runs[r].recorded))
            && (r in q'.spared <==> r in q.spared || Spares(s, step, p, r))
            && (r in q'.vanished ==> r in q.vanished || Misses(s, step, p, r))
            && (Unclean(q', r) ==> Unclean(q, r) || FailsToUnlink(s, step, p, r))
  {
    if !OfSweeper(step) || step.p != p { OthersUntouched(s, step, p); }
  }

  /** The run, as it was when its owner died. */
  ghost function AtDeath(s: State, steps: seq<Step>, r: nat): Run
    requires IsRun(s, steps) && r in s.runs && r in After(s, steps).runs && !After(s, steps).runs[r].alive
    decreases |steps|
  {
    if !s.runs[r].alive || steps[0] == OwnerDies(r) then s.runs[r]
    else
      StepGoesOn(s, steps[0]);
      AtDeath(Next(s, steps[0]), steps[1..], r)
  }

  /** What is noted of a dead run's end does not change any more. */
  lemma {:induction false} DeadStaySo(s: State, steps: seq<Step>, r: nat)
    requires IsRun(s, steps) && r in s.runs && !s.runs[r].alive
    ensures r in After(s, steps).runs
    ensures var k, k' := s.runs[r], After(s, steps).runs[r];
            && !k'.alive && k'.recorded == k.recorded
            && k'.lastSandboxes == k.lastSandboxes && k'.lastNetworks == k.lastNetworks
    decreases |steps|
  {
    if steps != [] {
      StepSettles(s, steps[0]);
      DeadStaySo(Next(s, steps[0]), steps[1..], r);
    }
  }

  lemma {:induction false} NotedAtDeath(s: State, steps: seq<Step>, r: nat)
    requires IsRun(s, steps) && r in s.runs && r in After(s, steps).runs && !After(s, steps).runs[r].alive
    requires var k := s.runs[r];
             k.alive || (k.recorded == k.record && k.lastSandboxes == k.sandboxes && k.lastNetworks == k.networks)
    ensures var k, last := After(s, steps).runs[r], AtDeath(s, steps, r);
            k.recorded == last.record && k.lastSandboxes == last.sandboxes && k.lastNetworks == last.networks
    decreases |steps|
  {
    if !s.runs[r].alive {
      DeadStaySo(s, steps, r);
    } else {
      StepGoesOn(s, steps[0]);
      if steps[0] == OwnerDies(r) {
        DeadStaySo(Next(s, steps[0]), steps[1..], r);
      } else {
        AliveStaysSo(s, steps[0], r);
        NotedAtDeath(Next(s, steps[0]), steps[1..], r);
      }
    }
  }

  lemma AliveStaysSo(s: State, step: Step, r: nat)
    requires Enabled(s, step) && r in s.runs && s.runs[r].alive && step != OwnerDies(r)
    ensures r in Next(s, step).runs && Next(s, step).runs[r].alive
  {
    if OfSweeper(step) && !step.Unlink? { SweeperLeavesRuns(s, step); }
  }

  /** What a sweeper holds noted at the end is what it did on the way. */
  lemma {:induction false} NotedOverRuns(s: State, steps: seq<Step>, p: nat, r: nat)
    requires IsRun(s, steps) && p in After(s, steps).sweepers && r in s.runs
    requires p in s.sweepers ==> Unlisted(s.sweepers[p])
    ensures p in s.sweepers && (r in s.sweepers[p].duty ==> r in After(s, steps).sweepers[p].duty)
    ensures var t := After(s, steps);
            var q, q' := s.sweepers[p], t.sweepers[p];
            && (r in q'.duty ==> r in q.duty || EverLists(s, steps, p, r))
            && (EverLists(s, steps, p, r) && r in t.runs && t.runs[r].recorded ==> r in q'.duty)
            && (r in q'.spared <==> r in q.spared || EverSpares(s, steps, p, r))
            && (r in q'.vanished ==> r in q.vanished || EverMisses(s, steps, p, r))
            && (Unclean(q', r) ==> Unclean(q, r) || EverFailsToUnlink(s, steps, p, r))
    decreases |steps|
  {
    if steps != [] {
      StepGoesOn(s, steps[0]);
      SweptBySweep(Next(s, steps[0]), steps[1..], p);
      if Lists(s, steps[0], p, r) { DeadStaySo(s, steps, r); }
      NotedStep(s, steps[0], p, r);
      NotedOverRuns(Next(s, steps[0]), steps[1..], p, r);
    }
  }

  /** The command that removes this item is run, or the call made. */
  predicate Removes(s: State, step: Step, r: nat, item: Item)
    requires Enabled(s, step)
  {
    && step.RemoveItem? && s.sweepers[step.p].phase.run == r
    && s.sweepers[step.p].phase.left != [] && s.sweepers[step.p].phase.left[0] == item
  }

  ghost predicate EverRemoves(s: State, steps: seq<Step>, r: nat, item: Item)
    requires IsRun(s, steps)
    decreases |steps|
  {
    steps != [] && (Removes(s, steps[0], r, item) || EverRemoves(Next(s, steps[0]), steps[1..], r, item))
  }

  lemma {:induction false} AttemptedInRun(s: State, steps: seq<Step>, r: nat, item: Item)
    requires IsRun(s, steps)
    ensures (r, item) in After(s, steps).attempted <==> (r, item) in s.attempted || EverRemoves(s, steps, r, item)
    decreases |steps|
  {
    if steps != [] {
      AttemptedStep(s, steps[0], r, item);
      AttemptedInRun(Next(s, steps[0]), steps[1..], r, item);
    }
  }

  lemma AttemptedStep(s: State, step: Step, r: nat, item: Item)
    requires Enabled(s, step)
    ensures (r, item) in Next(s, step).attempted <==> (r, item) in s.attempted || Removes(s, step, r, item)
  {}

  /** A sweep that lists the directory and finishes has, for every run of its backend that was
      dead by then and died with its record in place - and that no sweep took for dead before
      its time, nor this one for alive - every sandbox and network the run listed when it died
      removed, or the removal attempted, by somebody. And no file of it is left, unless one of
      this sweep's own unlinks failed or it missed the record. */
  lemma FinishedSweepIsComplete(s: State, steps: seq<Step>, p: nat, r: nat)
    requires Initial(s) && IsRun(s, steps) && !EverMisjudges(s, steps, r)
    requires p in After(s, steps).sweepers && After(s, steps).sweepers[p].phase.Finished?
    requires r in s.runs && EverLists(s, steps, p, r) && !EverSpares(s, steps, p, r)
    ensures var t := After(s, steps);
            && r in t.runs && !t.runs[r].alive
            && var last := AtDeath(s, steps, r);
               last.record ==>
                 && (forall item | item in last.sandboxes || item in last.networks :: EverRemoves(s, steps, r, item))
                 && ((!t.runs[r].record && t.runs[r].sandboxes == [] && t.runs[r].networks == [])
                     || EverFailsToUnlink(s, steps, p, r)
                     || (EverMisses(s, steps, p, r) && !t.runs[r].record))
  {
    ListedAreDead(s, steps, p, r);
    NotedAtDeath(s, steps, r);
    NotedOverRuns(s, steps, p, r);
    if AtDeath(s, steps, r).record {
      DutyOverRuns(s, steps, p, r);
      forall item | item in AtDeath(s, steps, r).sandboxes || item in AtDeath(s, steps, r).networks
        ensures EverRemoves(s, steps, r, item)
      {
        AttemptedInRun(s, steps, r, item);
      }
    }
  }

  /** A watchdog that finishes has removed, or attempted to, everything its run listed when it
      died, or somebody else has - unless a sweep took the run for dead before its time. */
  lemma FinishedWatchdogIsComplete(s: State, steps: seq<Step>, p: nat)
    requires Initial(s) && IsRun(s, steps)
    requires p in After(s, steps).sweepers
    requires After(s, steps).sweepers[p].watchdog && After(s, steps).sweepers[p].phase.Finished?
    ensures var t, r := After(s, steps), After(s, steps).sweepers[p].own;
            && r in s.runs && r in t.runs && !t.runs[r].alive
            && (t.runs[r].parses && !EverMisjudges(s, steps, r) ==>
                  var last := AtDeath(s, steps, r);
                  forall item | item in last.sandboxes || item in last.networks :: EverRemoves(s, steps, r, item))
  {
    InvOverRuns(s, steps);
    RunsGoOnOverRuns(s, steps);
    var t, r := After(s, steps), After(s, steps).sweepers[p].own;
    assert SweeperInv(t, t.sweepers[p]);
    MisjudgedInRun(s, steps, r);
    if t.runs[r].parses && !EverMisjudges(s, steps, r) {
      NotedAtDeath(s, steps, r);
      forall item | item in AtDeath(s, steps, r).sandboxes || item in AtDeath(s, steps, r).networks
        ensures EverRemoves(s, steps, r, item)
      {
        AttemptedInRun(s, steps, r, item);
      }
    }
  }

  lemma {:induction false} ListedAreDead(s: State, steps: seq<Step>, p: nat, r: nat)
    requires IsRun(s, steps) && r in s.runs && EverLists(s, steps, p, r)
    ensures r in After(s, steps).runs && !After(s, steps).runs[r].alive
    decreases |steps|
  {
    StepGoesOn(s, steps[0]);
    if Lists(s, steps[0], p, r) {
      DeadStaySo(s, steps, r);
    } else {
      ListedAreDead(Next(s, steps[0]), steps[1..], p, r);
    }
  }

  lemma DutyOverRuns(s: State, steps: seq<Step>, p: nat, r: nat)
    requires Initial(s) && IsRun(s, steps) && !EverMisjudges(s, steps, r)
    requires p in After(s, steps).sweepers && After(s, steps).sweepers[p].phase.Finished?
    requires r in After(s, steps).sweepers[p].duty && r !in After(s, steps).sweepers[p].spared
    ensures var t := After(s, steps);
            && r in t.runs && Swept(t, r) && (FilesGone(t, r) ==> t.runs[r].parses && r !in t.misjudged)
            && (FilesGone(t, r) || r in t.sweepers[p].failed || (r in t.sweepers[p].vanished && !t.runs[r].record))
  {
    InvOverRuns(s, steps);
    MisjudgedInRun(s, steps, r);
    assert DutyDone(After(s, steps), After(s, steps).sweepers[p], r);
  }

  /** The owner of the one run lists a sandbox and dies; a second sweep lists the run. */
  lemma ListedTooLate(s: State, before: seq<Step>, name: nat) returns (steps: seq<Step>)
    requires IsRun(s, before)
    requires var t := After(s, before);
             && t.runs.Keys == {1} && t.runs[1].alive && t.runs[1].parses && t.runs[1].record
             && 3 in t.sweepers && t.sweepers[3] == NewSweeper(3, t.runs[1].backend)
    ensures IsRun(s, steps)
    ensures var t, u := After(s, before), After(s, steps);
            && u.runs.Keys == {1} && !u.runs[1].alive && u.runs[1].lastSandboxes == [Sandbox(name)]
            && u.runs[1].networks == [] && u.attempted == t.attempted && u.misjudged == t.misjudged
            && 3 in u.sweepers && u.sweepers == t.sweepers[3 := u.sweepers[3]]
            && var q := u.sweepers[3];
               && q.phase.Choosing? && !q.watchdog && q.queue == [1] && 1 in q.duty && 1 !in q.spared && q.own == 3
  {
    steps := Extend(s, before, OwnerWrites(1, true, [Sandbox(name)], []));
    steps := Extend(s, steps, OwnerDies(1));
    assert OnDuty(After(s, steps), After(s, steps).sweepers[3], 1);
    steps := Extend(s, steps, ListRuns(3, [1]));
  }

  /** A sweeper that read empty lists comes to delete the files. */
  lemma NothingToRemove(s: State, before: seq<Step>) returns (steps: seq<Step>)
    requires IsRun(s, before)
    requires var t := After(s, before);
             && t.runs.Keys == {1} && t.runs[1].networks == []
             && 2 in t.sweepers && t.sweepers[2].phase == RemovingNames(1, [])
    ensures IsRun(s, steps)
    ensures var t, q := After(s, before), After(s, before).sweepers[2];
            After(s, steps) == Put(t, 2, q.(phase := Deleting(1, {Record, Sandboxes, Networks}, true)))
  {
    var t, q := After(s, before), After(s, before).sweepers[2];
    steps := Extend(s, before, RemoveItem(2));
    assert After(s, steps) == Put(t, 2, q.(phase := ReadingNetworks(1)));
    steps := Extend(s, steps, ReadNetworkIds(2));
    assert After(s, steps) == Put(t, 2, q.(phase := RemovingNetworks(1, [])));
    steps := Extend(s, steps, RemoveItem(2));
  }

  lemma RecordTaken(s: State, before: seq<Step>) returns (steps: seq<Step>)
    requires IsRun(s, before)
    requires var t := After(s, before);
             && t.runs.Keys == {1} && 2 in t.sweepers
             && t.sweepers[2].phase == Deleting(1, {Record, Sandboxes, Networks}, true)
    ensures IsRun(s, steps)
    ensures var t, u := After(s, before), After(s, steps);
            && u.runs == map[1 := t.runs[1].(record := false)] && u.attempted == t.attempted
            && u.misjudged == t.misjudged && 2 in u.sweepers && u.sweepers == t.sweepers[2 := u.sweepers[2]]
  {
    steps := Extend(s, before, Unlink(2, Record, true));
  }

  /** The second sweep finds the record gone. */
  lemma NothingFound(s: State, before: seq<Step>) returns (steps: seq<Step>)
    requires IsRun(s, before)
    requires var t := After(s, before);
             && t.runs.Keys == {1} && !t.runs[1].record
             && 3 in t.sweepers && t.sweepers[3].phase.Choosing? && t.sweepers[3].queue == [1]
    ensures IsRun(s, steps)
    ensures var t, u := After(s, before), After(s, steps);
            && u == t.(sweepers := u.sweepers) && u.sweepers.Keys == t.sweepers.Keys && u.sweepers[3].phase.Finished?
            && u.sweepers[3].duty == t.sweepers[3].duty && u.sweepers[3].spared == t.sweepers[3].spared
  {
    steps := Extend(s, before, Choose(3, false));
    assert After(s, steps).sweepers[3].phase == Choosing && After(s, steps).sweepers[3].queue == [];
    steps := Extend(s, steps, Choose(3, false));
  }

  lemma LostBehindASweep(start: int, before: int, name: nat) returns (s: State, steps: seq<Step>)
    ensures Initial(s) && IsRun(s, steps) && s.runs.Keys == {1} && s.misjudged == {} && 3 in s.sweepers
    ensures s.sweepers[3] == NewSweeper(3, Sweep.Msb)
    ensures var t := After(s, steps);
            && t.runs.Keys == {1} && t.sweepers.Keys == {2, 3} && t.attempted == {} && 1 in t.misjudged
            && !t.runs[1].alive && !t.runs[1].record && t.runs[1].lastSandboxes == [Sandbox(name)]
            && t.sweepers[3].phase.Finished? && 1 in t.sweepers[3].duty && 1 !in t.sweepers[3].spared
  {
    s := State(map[1 := NewRun(true, Sweep.Msb, start, [])],
               map[2 := NewSweeper(2, Sweep.Msb), 3 := NewSweeper(3, Sweep.Msb)], {}, {});
    steps := MisjudgedByPs(s, 2, before);
    steps := Extend(s, steps, ReadNames(2));
    steps := ListedTooLate(s, steps, name);
    steps := RecordGone(s, steps);
  }

  /** The first sweep goes on to the record, and the second finds it gone. */
  lemma RecordGone(s: State, before: seq<Step>) returns (steps: seq<Step>)
    requires IsRun(s, before)
    requires var t := After(s, before);
             && t.runs.Keys == {1} && t.runs[1].networks == [] && t.sweepers.Keys == {2, 3}
             && t.sweepers[2].phase == RemovingNames(1, [])
             && t.sweepers[3].phase.Choosing? && t.sweepers[3].queue == [1]
    ensures IsRun(s, steps)
    ensures var t, u := After(s, before), After(s, steps);
            && u.runs == map[1 := t.runs[1].(record := false)] && u.attempted == t.attempted
            && u.misjudged == t.misjudged && u.sweepers.Keys == {2, 3} && u.sweepers[3].phase.Finished?
            && u.sweepers[3].duty == t.sweepers[3].duty && u.sweepers[3].spared == t.sweepers[3].spared
  {
    steps := NothingToRemove(s, before);
    steps := RecordTaken(s, steps);
    steps := NothingFound(s, steps);
  }

  /** Misjudged, a run can be lost for good: here ps fails for its live owner, who then lists a
      sandbox and dies; the record goes, and the sandbox is never tried. */
  lemma MisjudgedRunCanBeLost(start: int, before: int, name: nat) returns (s: State, steps: seq<Step>)
    ensures Initial(s) && IsRun(s, steps)
    ensures var t := After(s, steps);
            && t.runs.Keys == {1} && t.sweepers.Keys == {2, 3} && t.attempted == {} && EverMisjudges(s, steps, 1)
            && !t.runs[1].alive && !t.runs[1].record && t.runs[1].lastSandboxes == [Sandbox(name)]
            && t.sweepers[3].phase.Finished? && EverLists(s, steps, 3, 1) && !EverSpares(s, steps, 3, 1)
  {
    s, steps := LostBehindASweep(start, before, name);
    MisjudgedInRun(s, steps, 1);
    NotedOverRuns(s, steps, 3, 1);
  }

  /** The files of a run it reaped, and that no sweep took for dead before its time, are gone
      for good, unless an unlink failed. */
  lemma ReapedFilesAreGone(s: State, steps: seq<Step>, p: nat, r: nat)
    requires Initial(s) && IsRun(s, steps) && !EverMisjudges(s, steps, r)
    requires p in After(s, steps).sweepers && r in After(s, steps).sweepers[p].reaped
    ensures var t := After(s, steps);
            r in t.runs && (t.runs[r].parses ==>
              !t.runs[r].alive && !t.runs[r].record && t.runs[r].sandboxes == [] && t.runs[r].networks == [])
  {
    InvOverRuns(s, steps);
    MisjudgedInRun(s, steps, r);
    assert FilesGone(After(s, steps), r);
  }
}
