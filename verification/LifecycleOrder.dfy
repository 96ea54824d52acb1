/** The steps of every container's calls, read off a run: what may come after what, whatever the
    other containers do meanwhile. */
module LifecycleOrder {
  import opened Lifecycle
  import opened StartLimit

  /** A step of the container's own call; a rewrite of the ledger is part of untracking. */
  predicate Of(step: Step, c: nat) {
    OfContainer(step) && step.c == c && !step.Rewriting?
  }

  /** start() begins. */
  predicate Begins(step: Step) {
    (step.Start? && step.start.Begin?) || (step.Reuse? && (step.reuse.ReuseBegin? || step.reuse.ReuseAdopt?))
  }

  /** A running container is stopped or checkpointed. */
  predicate UsesRunning(step: Step) {
    (step.Stop? && step.stop.BeginStop?) || (step.Checkpoint? && step.checkpoint.BeginCheckpoint?)
  }

  /** A turn of start()'s loop. */
  predicate InTurn(step: Step) {
    step.Start?
    && (step.start.Allocate? || step.start.AllocateFails? || step.start.MintName? || step.start.SpecThrows?)
  }

  predicate InReuseTurn(step: Step) {
    step.Reuse? && (step.reuse.ReuseAllocate? || step.reuse.ReuseFailsEarly? || step.reuse.ReuseSpecBuilt?)
  }

  predicate UntracksFailed(step: Step) {
    step.Start? && (step.start.Untrack? || step.start.UntrackFails?)
  }

  predicate TracksFresh(step: Step) {
    step.Checkpoint? && (step.checkpoint.TrackFresh? || step.checkpoint.TrackFreshFails?)
  }

  predicate UsesReused(step: Step) {
    step.Reuse? && (step.reuse.ReuseStop? || step.reuse.ReuseCheckpoint?)
  }

  /** What may come after a step of start(). */
  predicate AfterStart(step: StartStep, b: Step) {
    match step
    case Begin | Allocate(_) => InTurn(b)
    case MintName => b.Start? && (b.start.Track? || b.start.TrackFails?)
    case Track => b.Start? && (b.start.Create? || b.start.CreateFails?)
    case Create(_) => b.Start? && (b.start.BootSucceeds? || b.start.BootFails?)
    case BootFails(_) => b.Start? && b.start.Remove?
    case CreateFails(_, _) | Remove(_) => UntracksFailed(b)
    case Untrack(_) => InTurn(b) || Begins(b)
    case AllocateFails | SpecThrows | TrackFails(_) | UntrackFails => Begins(b)
    case BootSucceeds => UsesRunning(b)
  }

  predicate AfterStop(step: StopStep, b: Step) {
    match step
    case BeginStop => b.Stop? && b.stop.StopRemove?
    case StopRemove(_) => b.Stop? && (b.stop.StopUntrack? || b.stop.StopUntrackFails?)
    case StopUntrack(_) | StopUntrackFails => Begins(b)
  }

  predicate AfterCheckpoint(step: CheckpointStep, b: Step) {
    match step
    case BeginCheckpoint => b.Checkpoint? && (b.checkpoint.SnapshotEnds? || b.checkpoint.SnapshotTaken?)
    case SnapshotTaken(_) => TracksFresh(b)
    case TrackFresh => b.Checkpoint? && (b.checkpoint.RestoreSucceeds? || b.checkpoint.RestoreFails?)
    case RestoreFails(_) => b.Checkpoint? && b.checkpoint.RestoreRemove?
    case RestoreRemove(_) => b.Checkpoint? && (b.checkpoint.RestoreUntrack? || b.checkpoint.RestoreUntrackFails?)
    case RestoreUntrack(again, _) => if again then TracksFresh(b) else UsesRunning(b)
    case RestoreSucceeds => b.Checkpoint? && b.checkpoint.Rekey?
    case SnapshotEnds | TrackFreshFails(_) | RestoreUntrackFails | Rekey => UsesRunning(b)
  }

  predicate AfterReuse(step: ReuseStep, b: Step) {
    match step
    case ReuseBegin | ReuseAllocate(_) | ReuseRetry => InReuseTurn(b)
    case ReuseSpecBuilt => b.Reuse? && (b.reuse.ReuseBoots? || b.reuse.ReuseBootFails?)
    case ReuseBoots => b.Reuse? && (b.reuse.ReuseReady? || b.reuse.ReuseUnready? || b.reuse.ReuseRegistryFails?)
    case ReuseBootFails(_) => b.Reuse? && b.reuse.ReuseTornDown?
    case ReuseTornDown =>
      || InReuseTurn(b) || Begins(b)
      || (b.Reuse? && (b.reuse.ReuseAdopt? || b.reuse.ReuseProbed? || b.reuse.ReuseRetry?))
    case ReuseUnready => b.Reuse? && b.reuse.ReuseDiscarded?
    case ReuseAdopt | ReuseReady | ReuseCheckpoint(_) => UsesReused(b)
    case ReuseFailsEarly | ReuseProbed | ReuseDiscarded | ReuseRegistryFails | ReuseStop => Begins(b)
  }

  predicate Follows(a: Step, b: Step) {
    match a
    case Start(_, step) => AfterStart(step, b)
    case Stop(_, step) => AfterStop(step, b)
    case Checkpoint(_, step) => AfterCheckpoint(step, b)
    case Reuse(_, step) => AfterReuse(step, b)
    case _ => true
  }

  /** What a container at this point of its call can do. */
  predicate From(phase: Phase, b: Step) {
    match b
    case Start(_, step) => StartFrom(phase, step)
    case Stop(_, step) => StopFrom(phase, step)
    case Checkpoint(_, step) => CheckpointFrom(phase, step)
    case Reuse(_, step) => ReuseFrom(phase, step)
    case _ => false
  }

  /** Where a container's call stands after a step of start(). */
  function StartEntered(k: Container, a: StartStep): Phase
    requires StartFrom(k.phase, a)
  {
    match a
    case Begin | Allocate(_) => Allocating
    case MintName => Tracking
    case Track => Creating
    case Create(_) => Booting
    case BootFails(conflict) => Removing(conflict)
    case CreateFails(conflict, _) => Untracking(conflict)
    case Remove(_) => Untracking(k.phase.conflict)
    case Untrack(_) => if k.phase.conflict && |k.tried| + 1 < MAX_START_ATTEMPTS then Allocating else Idle
    case AllocateFails | SpecThrows | TrackFails(_) | UntrackFails => Idle
    case BootSucceeds => Running
  }

  lemma StartEnters(s: State, c: nat, a: StartStep)
    requires Fits(s, Start(c, a))
    ensures NextStart(s, c, a).containers[c].phase == StartEntered(s.containers[c], a)
  {}

  lemma StartEnteredThen(k: Container, a: StartStep, b: Step)
    requires StartFrom(k.phase, a) && From(StartEntered(k, a), b)
    ensures AfterStart(a, b)
  {}

  lemma StartThen(s: State, c: nat, a: StartStep, b: Step)
    requires Fits(s, Start(c, a)) && From(NextStart(s, c, a).containers[c].phase, b)
    ensures AfterStart(a, b)
  {
    StartEnters(s, c, a);
    StartEnteredThen(s.containers[c], a, b);
  }

  lemma StopThen(s: State, c: nat, a: StopStep, b: Step)
    requires Fits(s, Stop(c, a)) && From(NextStop(s, c, a).containers[c].phase, b)
    ensures AfterStop(a, b)
  {}

  /** Where a container's call stands after a step of checkpoint(). */
  function CheckpointEntered(k: Container, a: CheckpointStep): Phase
    requires CheckpointFrom(k.phase, a)
  {
    match a
    case BeginCheckpoint => Snapshotting
    case SnapshotTaken(_) => Rebooting
    case TrackFresh => Restoring
    case RestoreSucceeds => Renamed
    case RestoreFails(_) => RestoreFailed
    case RestoreRemove(_) => RestoreUntracking
    case RestoreUntrack(again, _) => if again then Rebooting else Running
    case SnapshotEnds | TrackFreshFails(_) | RestoreUntrackFails | Rekey => Running
  }

  lemma CheckpointEnters(s: State, c: nat, a: CheckpointStep)
    requires Fits(s, Checkpoint(c, a))
    ensures NextCheckpoint(s, c, a).containers[c].phase == CheckpointEntered(s.containers[c], a)
  {}

  lemma CheckpointEnteredThen(k: Container, a: CheckpointStep, b: Step)
    requires CheckpointFrom(k.phase, a) && From(CheckpointEntered(k, a), b)
    ensures AfterCheckpoint(a, b)
  {}

  lemma CheckpointThen(s: State, c: nat, a: CheckpointStep, b: Step)
    requires Fits(s, Checkpoint(c, a)) && From(NextCheckpoint(s, c, a).containers[c].phase, b)
    ensures AfterCheckpoint(a, b)
  {
    CheckpointEnters(s, c, a);
    CheckpointEnteredThen(s.containers[c], a, b);
  }

  /** Where a reuse container's call stands after its step. */
  function ReuseEntered(k: Container, a: ReuseStep): Phase
    requires ReuseFrom(k.phase, a)
  {
    match a
    case ReuseBegin | ReuseAllocate(_) | ReuseRetry => ReuseAllocating
    case ReuseSpecBuilt => ReuseBooting
    case ReuseBoots => ReuseWaiting
    case ReuseBootFails(conflict) => ReuseTearingDown(conflict)
    case ReuseTornDown =>
      if !k.phase.conflict then ReuseProbing
      else if |k.tried| + 1 >= MAX_START_ATTEMPTS then Idle
      else ReuseAllocating
    case ReuseReady => ReuseRunning
    case ReuseUnready => ReuseDiscarding
    case ReuseAdopt => ReuseAdopted
    case ReuseCheckpoint(_) => k.phase
    case ReuseFailsEarly | ReuseProbed | ReuseDiscarded | ReuseRegistryFails | ReuseStop => Idle
  }

  lemma ReuseEnters(s: State, c: nat, a: ReuseStep)
    requires Fits(s, Reuse(c, a))
    ensures NextReuse(s, c, a).containers[c].phase == ReuseEntered(s.containers[c], a)
  {}

  lemma ReuseEnteredThen(k: Container, a: ReuseStep, b: Step)
    requires ReuseFrom(k.phase, a) && From(ReuseEntered(k, a), b)
    ensures AfterReuse(a, b)
  {}

  lemma ReuseThen(s: State, c: nat, a: ReuseStep, b: Step)
    requires Fits(s, Reuse(c, a)) && From(NextReuse(s, c, a).containers[c].phase, b)
    ensures AfterReuse(a, b)
  {
    ReuseEnters(s, c, a);
    ReuseEnteredThen(s.containers[c], a, b);
  }

  lemma Then(s: State, a: Step, u: State, b: Step, c: nat)
    requires Of(a, c) && Enabled(s, a) && c in u.containers && u.containers[c] == Next(s, a).containers[c]
    requires Of(b, c) && Enabled(u, b)
    ensures Follows(a, b)
  {
    match a
    case Start(_, step) => StartThen(s, c, step, b);
    case Stop(_, step) => StopThen(s, c, step, b);
    case Checkpoint(_, step) => CheckpointThen(s, c, step, b);
    case Reuse(_, step) => ReuseThen(s, c, step, b);
  }

  /** The step at some place of a run, and the state it is taken in. */
  ghost function Before(s: State, steps: seq<Step>, i: nat): State
    requires IsRun(s, steps) && i < |steps|
    ensures Enabled(Before(s, steps, i), steps[i])
    decreases |steps|
  {
    if i == 0 then s else Before(Next(s, steps[0]), steps[1..], i - 1)
  }

  lemma OthersLeave(s: State, step: Step, c: nat)
    requires Enabled(s, step) && c in s.containers && !Of(step, c)
    ensures c in Next(s, step).containers && Next(s, step).containers[c] == s.containers[c]
  {}

  lemma {:induction false} Unmoved(s: State, steps: seq<Step>, j: nat, c: nat)
    requires IsRun(s, steps) && j < |steps| && c in s.containers && forall k | 0 <= k < j :: !Of(steps[k], c)
    ensures c in Before(s, steps, j).containers && Before(s, steps, j).containers[c] == s.containers[c]
    decreases |steps|
  {
    if j > 0 {
      OthersLeave(s, steps[0], c);
      Unmoved(Next(s, steps[0]), steps[1..], j - 1, c);
    }
  }

  /** In every run, two steps of one container with none of its own in between: the second may
      come after the first. */
  lemma StepsInOrder(s: State, steps: seq<Step>, i: nat, j: nat, c: nat)
    requires IsRun(s, steps) && i < j < |steps| && Of(steps[i], c) && Of(steps[j], c)
    requires forall k | i < k < j :: !Of(steps[k], c)
    ensures Follows(steps[i], steps[j])
  {
    NextOwn(s, steps, i, j, c);
    Then(Before(s, steps, i), steps[i], Before(s, steps, j), steps[j], c);
  }

  lemma OwnStays(s: State, step: Step, c: nat)
    requires Enabled(s, step) && Of(step, c)
    ensures c in Next(s, step).containers
  {}

  /** And the first step of a container is to begin a start. */
  lemma FirstStepBegins(s: State, steps: seq<Step>, j: nat, c: nat)
    requires Initial(s) && IsRun(s, steps) && c in s.containers && j < |steps| && Of(steps[j], c)
    requires forall k | 0 <= k < j :: !Of(steps[k], c)
    ensures Begins(steps[j])
  {
    Unmoved(s, steps, j, c);
  }

  // ----- conflicts -----

  /** The step tells how a container's boot failed. */
  predicate FailsBoot(step: Step, c: nat) {
    Of(step, c) && ((step.Start? && (step.start.CreateFails? || step.start.BootFails?))
                    || (step.Reuse? && step.reuse.ReuseBootFails?))
  }

  /** The container's last failure to boot was a host-port conflict. */
  predicate LastConflict(steps: seq<Step>, c: nat) {
    steps != [] &&
    var last := steps[|steps| - 1];
    if FailsBoot(last, c) then (if last.Start? then last.start.conflict else last.reuse.conflict)
    else LastConflict(steps[..|steps| - 1], c)
  }

  lemma {:induction false} BeforeNext(s: State, steps: seq<Step>, j: nat)
    requires IsRun(s, steps) && 0 < j < |steps|
    ensures Before(s, steps, j) == Next(Before(s, steps, j - 1), steps[j - 1])
    decreases |steps|
  {
    if j > 1 { BeforeNext(Next(s, steps[0]), steps[1..], j - 1); }
  }

  /** Cleaning up after a failed boot, which the phase knows the kind of. */
  predicate CleaningUp(phase: Phase) {
    phase.Removing? || phase.Untracking? || phase.ReuseTearingDown?
  }

  lemma ConflictMoves(s: State, step: Step, c: nat)
    requires Enabled(s, step) && c in s.containers && c in Next(s, step).containers
    requires CleaningUp(Next(s, step).containers[c].phase)
    ensures FailsBoot(step, c) || CleaningUp(s.containers[c].phase)
    ensures Next(s, step).containers[c].phase.conflict ==
              if FailsBoot(step, c) then (if step.Start? then step.start.conflict else step.reuse.conflict)
              else s.containers[c].phase.conflict
  {
    if !Of(step, c) { OthersLeave(s, step, c); }
  }

  lemma {:induction false} KnowsOfConflict(s: State, steps: seq<Step>, j: nat, c: nat)
    requires Initial(s) && IsRun(s, steps) && j < |steps| && c in s.containers
    ensures c in Before(s, steps, j).containers
    ensures var phase := Before(s, steps, j).containers[c].phase;
            CleaningUp(phase) ==> phase.conflict == LastConflict(steps[..j], c)
  {
    if j > 0 {
      BeforeNext(s, steps, j);
      KnowsOfConflict(s, steps, j - 1, c);
      var u := Before(s, steps, j - 1);
      assert steps[..j][..j - 1] == steps[..j - 1];
      ContainersStay(u, steps[j - 1], c);
      if CleaningUp(Before(s, steps, j).containers[c].phase) { ConflictMoves(u, steps[j - 1], c); }
    }
  }

  lemma ContainersStay(s: State, step: Step, c: nat)
    requires Enabled(s, step) && c in s.containers
    ensures c in Next(s, step).containers
  {
    if Of(step, c) { OwnStays(s, step, c); } else { OthersLeave(s, step, c); }
  }

  lemma TurnOrBegin(phase: Phase, b: Step)
    requires From(phase, b)
    ensures (phase.Allocating? ==> InTurn(b)) && (phase.Idle? ==> Begins(b))
  {}

  /** Once a failed attempt is cleaned up, start() goes on to another exactly if a host port was
      taken and there are attempts left, and throws otherwise. */
  lemma RetriesConflictsOnly(s: State, steps: seq<Step>, i: nat, j: nat, c: nat)
    requires Initial(s) && IsRun(s, steps) && i < j < |steps| && c in s.containers
    requires Of(steps[i], c) && steps[i].Start? && steps[i].start.Untrack? && Of(steps[j], c)
    requires forall k | i < k < j :: !Of(steps[k], c)
    ensures c in Before(s, steps, i).containers
    ensures if LastConflict(steps[..i], c) && |Before(s, steps, i).containers[c].tried| < 4 then InTurn(steps[j])
            else Begins(steps[j])
  {
    KnowsOfConflict(s, steps, i, c);
    NextOwn(s, steps, i, j, c);
    StartEnters(Before(s, steps, i), c, steps[i].start);
    TurnOrBegin(StartEntered(Before(s, steps, i).containers[c], steps[i].start), steps[j]);
  }

  /** And a reuse start() probes for another's sandbox when it failed for another reason. */
  lemma ReuseRetriesConflictsOnly(s: State, steps: seq<Step>, i: nat, j: nat, c: nat)
    requires Initial(s) && IsRun(s, steps) && i < j < |steps| && c in s.containers
    requires Of(steps[i], c) && steps[i].Reuse? && steps[i].reuse.ReuseTornDown? && Of(steps[j], c)
    requires forall k | i < k < j :: !Of(steps[k], c)
    ensures c in Before(s, steps, i).containers
    ensures if !LastConflict(steps[..i], c)
            then steps[j].Reuse?
                 && (steps[j].reuse.ReuseAdopt? || steps[j].reuse.ReuseProbed? || steps[j].reuse.ReuseRetry?)
            else if |Before(s, steps, i).containers[c].tried| < 4 then InReuseTurn(steps[j])
            else Begins(steps[j])
  {
    KnowsOfConflict(s, steps, i, c);
    NextOwn(s, steps, i, j, c);
    ReuseEnters(Before(s, steps, i), c, steps[i].reuse);
  }

  /** The container as its step leaves it, still so at its next. */
  lemma {:induction false} NextOwn(s: State, steps: seq<Step>, i: nat, j: nat, c: nat)
    requires IsRun(s, steps) && i < j < |steps| && Of(steps[i], c) && forall k | i < k < j :: !Of(steps[k], c)
    ensures c in Before(s, steps, i).containers && c in Before(s, steps, j).containers
    ensures Before(s, steps, j).containers[c] == Next(Before(s, steps, i), steps[i]).containers[c]
    decreases |steps|
  {
    if i == 0 {
      OwnStays(s, steps[0], c);
      Unmoved(Next(s, steps[0]), steps[1..], j - 1, c);
    } else {
      NextOwn(Next(s, steps[0]), steps[1..], i - 1, j - 1, c);
    }
  }
}
