/** What the ledger is due to list, and the exit-cleanup registry, over every interleaving. */
module LifecycleLedger {
  import opened LedgerDisk
  import opened Lifecycle

  /** The sandbox names a container's call is using. */
  function Names(k: Container): set<nat> {
    match k.phase
    case Tracking | Creating | Booting | Removing(_) | Untracking(_) | Running | StopRemoving | StopUntracking
       | Snapshotting | Rebooting => {k.name}
    case Restoring | RestoreFailed | RestoreUntracking | Renamed => {k.name, k.other}
    case _ => {}
  }

  /** Those that the ledger is due to list. */
  function Listed(k: Container): set<nat> {
    match k.phase
    case Tracking | Untracking(_) | StopUntracking => {}
    case RestoreUntracking => {k.name}
    case _ => Names(k)
  }

  /** Those whose sandbox does not exist, unless its removal failed. */
  function Gone(k: Container): set<nat> {
    match k.phase
    case Tracking | Creating | Untracking(_) | StopUntracking => {k.name}
    case Restoring | RestoreUntracking => {k.other}
    case _ => {}
  }

  /** Phases in which a container is registered for the exit cleanup. */
  predicate IsRegistered(phase: Phase) {
    match phase
    case Running | StopRemoving | Snapshotting | Rebooting | Restoring | RestoreFailed | RestoreUntracking
       | Renamed => true
    case _ => false
  }

  /** The handle ids the exit-cleanup registry should hold for a container. */
  function RegisteredIds(k: Container): set<HandleId> {
    if IsRegistered(k.phase) then {k.known} else {}
  }

  ghost predicate NamesApart(s: State) {
    && (forall c, n | c in s.containers && n in Names(s.containers[c]) :: n <= s.sequence)
    && (forall c, d | c in s.containers && d in s.containers && c != d ::
          Names(s.containers[c]) !! Names(s.containers[d]))
    && (forall n | n in s.due :: n <= s.sequence)
    && (forall n | n in s.live :: n <= s.sequence)
  }

  /** What the ledger and the sandboxes have to look like for one container. */
  ghost predicate InStep(s: State, k: Container) {
    && (forall n | n in Listed(k) :: n in s.due)
    && (k.phase.Tracking? ==> k.name !in s.due)
    && (forall n | n in Gone(k) && n in s.live :: n in s.stray)
    && (k.phase.Restoring? || k.phase.RestoreFailed? || k.phase.RestoreUntracking? || k.phase.Renamed? ==>
          k.name != k.other)
  }

  /** Every sandbox that exists is due to be listed, unless somebody gave up on removing it. */
  ghost predicate Covered(s: State) {
    forall n | n in s.live && n !in s.stray :: n in s.due
  }

  ghost predicate LedgerInv(s: State) {
    && NamesApart(s)
    && Covered(s)
    && (forall c | c in s.containers :: InStep(s, s.containers[c]))
  }

  /** What a step of container c may do to the shared stores. */
  ghost predicate Confined(s: State, s': State, c: nat, k': Container)
    requires c in s.containers
  {
    && s'.containers == s.containers[c := k']
    && s'.sequence >= s.sequence
    && (forall n | n in Names(k') :: n in Names(s.containers[c]) || s.sequence < n <= s'.sequence)
    && (forall n | n in s'.due :: n in s.due || n in Names(k'))
    && (forall n | n in s.due && n !in Names(s.containers[c]) :: n in s'.due)
    && (forall n | n in s'.live :: n in s.live || n in Names(k'))
    && s.stray <= s'.stray
  }

  lemma LedgerMove(s: State, s': State, c: nat, k': Container)
    requires LedgerInv(s) && c in s.containers && Confined(s, s', c, k')
    requires InStep(s', k') && Covered(s')
    ensures LedgerInv(s')
  {
    forall d | d in s'.containers
      ensures InStep(s', s'.containers[d])
    {
      if d != c {
        var k := s.containers[d];
        assert s'.containers[d] == k && InStep(s, k);
        assert Names(k) !! Names(k');
        assert Listed(k) <= Names(k) && Gone(k) <= Names(k);
      }
    }
  }

  /** The part of the invariant that a step of container c reads. */
  ghost predicate Before(s: State, c: nat) {
    && c in s.containers
    && (forall n | n in Names(s.containers[c]) :: n <= s.sequence)
    && (forall n | n in s.due :: n <= s.sequence)
    && (forall n | n in s.live :: n <= s.sequence)
    && Covered(s) && InStep(s, s.containers[c])
  }

  ghost predicate Kept(s: State, s': State, c: nat)
    requires c in s.containers
  {
    && c in s'.containers
    && Confined(s, s', c, s'.containers[c])
    && InStep(s', s'.containers[c])
    && Covered(s')
  }

  lemma MintedIsNew(s: State, c: nat)
    requires Before(s, c)
    ensures s.sequence + 1 !in s.due && s.sequence + 1 !in s.live
  {}

  /** Phases in which a container uses two different names. */
  predicate TwoNames(phase: Phase) {
    phase.Restoring? || phase.RestoreFailed? || phase.RestoreUntracking? || phase.Renamed?
  }

  /** The container moves on without writing the ledger or touching a sandbox. */
  predicate Quiet(s: State, s': State, c: nat) {
    && c in s.containers && c in s'.containers
    && var k, k' := s.containers[c], s'.containers[c];
       && s'.containers == s.containers[c := k']
       && s'.due == s.due && s'.live == s.live && s'.stray == s.stray && s'.sequence == s.sequence
       && Names(k') <= Names(k) && Gone(k') <= Gone(k) && Listed(k') <= Listed(k)
       && !k'.phase.Tracking?
       && (TwoNames(k'.phase) ==> TwoNames(k.phase) && k'.name == k.name && k'.other == k.other)
  }

  /** One of its sandboxes is removed, or stays behind. */
  predicate Removes(s: State, s': State, c: nat, n: nat) {
    && c in s.containers && c in s'.containers
    && var k, k' := s.containers[c], s'.containers[c];
       && s'.containers == s.containers[c := k']
       && s'.due == s.due && s'.sequence == s.sequence
       && s.live - {n} <= s'.live <= s.live && s.stray <= s'.stray
       && (n in s'.live ==> n in s'.stray)
       && Names(k') <= Names(k) && Gone(k') <= {n} && Listed(k') <= Listed(k) && !k'.phase.Tracking?
       && (TwoNames(k'.phase) ==> TwoNames(k.phase) && k'.name == k.name && k'.other == k.other)
  }

  /** A name without a sandbox loses its line. */
  predicate Untracks(s: State, s': State, c: nat, n: nat) {
    && c in s.containers && c in s'.containers
    && var k, k' := s.containers[c], s'.containers[c];
       && s'.containers == s.containers[c := k']
       && s'.due == s.due - {n} && s'.sequence == s.sequence
       && s'.live == s.live && s'.stray == s.stray
       && n in Gone(k) && n in Names(k)
       && Listed(k') <= Listed(k) && Names(k') <= Names(k)
       && n !in {k'.name} * Names(k') && n !in {k'.other} * Names(k')
       && Gone(k') == {} && !k'.phase.Tracking? && !TwoNames(k'.phase)
  }

  lemma QuietKept(s: State, s': State, c: nat)
    requires Before(s, c) && Quiet(s, s', c)
    ensures Kept(s, s', c)
  {}

  lemma RemovesKept(s: State, s': State, c: nat, n: nat)
    requires Before(s, c) && Removes(s, s', c, n)
    ensures Kept(s, s', c)
  {}

  lemma UntracksKept(s: State, s': State, c: nat, n: nat)
    requires Before(s, c) && Untracks(s, s', c, n)
    ensures Kept(s, s', c)
  {
    var k' := s'.containers[c];
    assert forall x | x in Names(k') :: x == k'.name || x == k'.other;
  }

  lemma StartBookkeeping(s: State, c: nat, step: StartStep)
    requires Before(s, c) && Fits(s, Start(c, step))
    requires step.MintName? || step.Track? || step.Create? || step.SpecThrows?
    ensures Kept(s, NextStart(s, c, step), c)
  {
    MintedIsNew(s, c);
  }

  lemma CreateFailsKept(s: State, c: nat, conflict: bool, made: bool)
    requires Before(s, c) && Fits(s, Start(c, CreateFails(conflict, made)))
    ensures Kept(s, NextStart(s, c, CreateFails(conflict, made)), c)
  {}

  lemma StartRemovalEffect(s: State, c: nat, step: StartStep)
    requires Fits(s, Start(c, step)) && (step.Remove? || step.Untrack?)
    ensures var s' := NextStart(s, c, step);
            if step.Remove? then Removes(s, s', c, s.containers[c].name) else Untracks(s, s', c, s.containers[c].name)
  {}

  lemma StartEffect(s: State, c: nat, step: StartStep)
    requires Fits(s, Start(c, step)) && !step.Remove? && !step.Untrack?
    requires !(step.MintName? || step.Track? || step.Create? || step.CreateFails? || step.SpecThrows?)
    ensures Quiet(s, NextStart(s, c, step), c)
  {}

  lemma StopEffect(s: State, c: nat, step: StopStep)
    requires Fits(s, Stop(c, step))
    ensures var s' := NextStop(s, c, step);
            if step.StopRemove? then Removes(s, s', c, s.containers[c].name)
            else if step.StopUntrack? then Untracks(s, s', c, s.containers[c].name)
            else Quiet(s, s', c)
  {}

  lemma CheckpointEffect(s: State, c: nat, step: CheckpointStep)
    requires Fits(s, Checkpoint(c, step))
    requires !(step.TrackFresh? || step.TrackFreshFails? || step.SnapshotTaken?)
    requires !(step.RestoreSucceeds? || step.RestoreFails?)
    requires TwoNames(s.containers[c].phase) ==> s.containers[c].name != s.containers[c].other
    ensures var s' := NextCheckpoint(s, c, step);
            if step.RestoreRemove? then Removes(s, s', c, s.containers[c].other)
            else if step.RestoreUntrack? then Untracks(s, s', c, s.containers[c].other)
            else Quiet(s, s', c)
  {}

  /** The steps of a reuse start up to its boot, and the later ones. */
  predicate Early(step: ReuseStep) {
    || step.ReuseBegin? || step.ReuseAdopt? || step.ReuseAllocate?
    || step.ReuseFailsEarly? || step.ReuseSpecBuilt? || step.ReuseBoots?
  }

  lemma EarlyReuseEffect(s: State, c: nat, step: ReuseStep)
    requires Fits(s, Reuse(c, step)) && Early(step)
    ensures Quiet(s, NextReuse(s, c, step), c)
  {}

  lemma TornDownEffect(s: State, c: nat)
    requires Fits(s, Reuse(c, ReuseTornDown))
    ensures Quiet(s, NextReuse(s, c, ReuseTornDown), c)
  {}

  lemma LateReuseEffect(s: State, c: nat, step: ReuseStep)
    requires Fits(s, Reuse(c, step)) && !Early(step) && !step.ReuseTornDown? && !step.ReuseCheckpoint?
    ensures Quiet(s, NextReuse(s, c, step), c)
  {}

  lemma ReuseCheckpointKept(s: State, c: nat, minted: nat)
    requires Before(s, c) && Fits(s, Reuse(c, ReuseCheckpoint(minted)))
    ensures Kept(s, NextReuse(s, c, ReuseCheckpoint(minted)), c)
  {
    assert s.containers == s.containers[c := s.containers[c]];
  }

  lemma ReuseKept(s: State, c: nat, step: ReuseStep)
    requires Before(s, c) && Fits(s, Reuse(c, step))
    ensures Kept(s, NextReuse(s, c, step), c)
  {
    if step.ReuseCheckpoint? {
      ReuseCheckpointKept(s, c, step.minted);
      return;
    }
    if Early(step) { EarlyReuseEffect(s, c, step); }
    else if step.ReuseTornDown? { TornDownEffect(s, c); }
    else { LateReuseEffect(s, c, step); }
    QuietKept(s, NextReuse(s, c, step), c);
  }

  lemma FreshKept(s: State, c: nat)
    requires Before(s, c) && Fits(s, Checkpoint(c, TrackFresh))
    ensures Kept(s, NextCheckpoint(s, c, TrackFresh), c)
  {
    MintedIsNew(s, c);
  }

  lemma FreshFailsKept(s: State, c: nat, wrote: Appending)
    requires Before(s, c) && Fits(s, Checkpoint(c, TrackFreshFails(wrote)))
    ensures Kept(s, NextCheckpoint(s, c, TrackFreshFails(wrote)), c)
  {}

  lemma RestoreSucceedsKept(s: State, c: nat)
    requires Before(s, c) && Fits(s, Checkpoint(c, RestoreSucceeds))
    ensures Kept(s, NextCheckpoint(s, c, RestoreSucceeds), c)
  {}

  lemma RestoreFailsKept(s: State, c: nat, leftRecord: bool)
    requires Before(s, c) && Fits(s, Checkpoint(c, RestoreFails(leftRecord)))
    ensures Kept(s, NextCheckpoint(s, c, RestoreFails(leftRecord)), c)
  {}

  lemma SnapshotKept(s: State, c: nat, removed: bool)
    requires Before(s, c) && Fits(s, Checkpoint(c, SnapshotTaken(removed)))
    ensures Kept(s, NextCheckpoint(s, c, SnapshotTaken(removed)), c)
  {}

  lemma StartKept(s: State, c: nat, a: StartStep)
    requires Before(s, c) && Fits(s, Start(c, a))
    ensures Kept(s, NextStart(s, c, a), c)
  {
    if a.CreateFails? {
      CreateFailsKept(s, c, a.conflict, a.made);
    } else if a.MintName? || a.Track? || a.Create? || a.SpecThrows? {
      StartBookkeeping(s, c, a);
    } else if a.Remove? || a.Untrack? {
      StartRemovalEffect(s, c, a);
      if a.Remove? { RemovesKept(s, NextStart(s, c, a), c, s.containers[c].name); }
      else { UntracksKept(s, NextStart(s, c, a), c, s.containers[c].name); }
    } else {
      StartEffect(s, c, a);
      QuietKept(s, NextStart(s, c, a), c);
    }
  }

  lemma StopKept(s: State, c: nat, a: StopStep)
    requires Before(s, c) && Fits(s, Stop(c, a))
    ensures Kept(s, NextStop(s, c, a), c)
  {
    StopEffect(s, c, a);
    if a.StopRemove? { RemovesKept(s, NextStop(s, c, a), c, s.containers[c].name); }
    else if a.StopUntrack? { UntracksKept(s, NextStop(s, c, a), c, s.containers[c].name); }
    else { QuietKept(s, NextStop(s, c, a), c); }
  }

  lemma CheckpointKept(s: State, c: nat, a: CheckpointStep)
    requires Before(s, c) && Fits(s, Checkpoint(c, a))
    ensures Kept(s, NextCheckpoint(s, c, a), c)
  {
    if a.TrackFresh? {
      FreshKept(s, c);
    } else if a.TrackFreshFails? {
      FreshFailsKept(s, c, a.wrote);
    } else if a.RestoreSucceeds? {
      RestoreSucceedsKept(s, c);
    } else if a.RestoreFails? {
      RestoreFailsKept(s, c, a.leftRecord);
    } else if a.SnapshotTaken? {
      SnapshotKept(s, c, a.removed);
    } else {
      CheckpointEffect(s, c, a);
      if a.RestoreRemove? { RemovesKept(s, NextCheckpoint(s, c, a), c, s.containers[c].other); }
      else if a.RestoreUntrack? { UntracksKept(s, NextCheckpoint(s, c, a), c, s.containers[c].other); }
      else { QuietKept(s, NextCheckpoint(s, c, a), c); }
    }
  }

  lemma RewritingKept(s: State, c: nat, a: RewriteStep)
    requires Before(s, c) && Fits(s, Rewriting(c, a))
    ensures Kept(s, NextRewriting(s, c, a), c)
  {
    assert s.containers == s.containers[c := s.containers[c]];
  }

  lemma StepKept(s: State, step: Step)
    requires Fits(s, step) && OfContainer(step)
    requires Before(s, step.c)
    ensures Kept(s, Moved(s, step), step.c)
  {
    match step
    case Start(c, a) => StartKept(s, c, a);
    case Stop(c, a) => StopKept(s, c, a);
    case Checkpoint(c, a) => CheckpointKept(s, c, a);
    case Reuse(c, a) => ReuseKept(s, c, a);
    case Rewriting(c, a) => RewritingKept(s, c, a);
  }

  /** The invariant does not read the ledger files. */
  lemma LedgerMoved(s: State, step: Step)
    requires LedgerInv(s) && Fits(s, step)
    ensures LedgerInv(Moved(s, step))
  {
    if OfContainer(step) {
      assert Before(s, step.c);
      StepKept(s, step);
      LedgerMove(s, Moved(s, step), step.c, Moved(s, step).containers[step.c]);
    }
  }

  lemma SameLedgerInv(s: State, t: State)
    requires LedgerInv(s) && t == s.(disk := t.disk)
    ensures LedgerInv(t)
  {
    forall c | c in t.containers ensures InStep(t, t.containers[c]) {
      assert InStep(s, t.containers[c]);
    }
  }

  lemma LedgerStep(s: State, step: Step)
    requires LedgerInv(s) && Enabled(s, step)
    ensures LedgerInv(Next(s, step))
  {
    LedgerMoved(s, step);
    SameLedgerInv(Moved(s, step), Next(s, step));
  }

  lemma {:induction false} LedgerOverRuns(s: State, steps: seq<Step>)
    requires LedgerInv(s) && IsRun(s, steps)
    ensures LedgerInv(After(s, steps))
    decreases |steps|
  {
    if steps != [] {
      LedgerStep(s, steps[0]);
      LedgerOverRuns(Next(s, steps[0]), steps[1..]);
    }
  }

  lemma InitialLedger(s: State)
    requires Initial(s)
    ensures LedgerInv(s) && IdInv(s) && RegistryInv(s)
  {}

  // ----- the exit-cleanup registry -----

  /** Phases in which the handle has an id that will be, or is, registered. */
  predicate HasId(phase: Phase) {
    phase.Booting? || IsRegistered(phase)
  }

  /** Phases of a reboot under a fresh name, which microsandbox alone does. */
  predicate Reboots(phase: Phase) {
    phase.Rebooting? || phase.Restoring? || phase.RestoreFailed? || phase.RestoreUntracking? || phase.Renamed?
  }

  /** An id is the handle's own name or one the daemon assigned; what is registered is the
      handle's id, but between a rename and its re-registration. */
  ghost predicate IdInOrder(s: State, k: Container) {
    HasId(k.phase) ==>
      && (if k.id.Named? then k.id.name == k.name else k.id.number <= s.daemonIds)
      && (Reboots(k.phase) ==> k.id.Named?)
      && (if k.phase.Renamed? then k.known == Named(k.other)
          else IsRegistered(k.phase) ==> k.known == k.id)
  }

  ghost predicate IdsApart(s: State) {
    forall c, d | c in s.containers && d in s.containers && c != d ::
      var k, l := s.containers[c], s.containers[d];
      HasId(k.phase) && HasId(l.phase) && k.id.Assigned? && l.id.Assigned? ==> k.id != l.id
  }

  ghost predicate IdInv(s: State) {
    IdsApart(s) && forall c | c in s.containers :: IdInOrder(s, s.containers[c])
  }

  /** What a step may do to a container's id: keep it, drop it, or take one nobody has. */
  ghost predicate IdEffect(s: State, s': State, c: nat) {
    && c in s.containers && c in s'.containers
    && s'.containers == s.containers[c := s'.containers[c]] && s'.daemonIds >= s.daemonIds
    && var k, k' := s.containers[c], s'.containers[c];
       && IdInOrder(s', k')
       && (HasId(k'.phase) && k'.id.Assigned? ==>
             (HasId(k.phase) && k'.id == k.id) || k'.id.number > s.daemonIds)
  }

  lemma StartIds(s: State, c: nat, a: StartStep)
    requires Fits(s, Start(c, a)) && IdInOrder(s, s.containers[c])
    ensures IdEffect(s, NextStart(s, c, a), c)
  {}

  lemma StopIds(s: State, c: nat, a: StopStep)
    requires Fits(s, Stop(c, a)) && IdInOrder(s, s.containers[c])
    ensures IdEffect(s, NextStop(s, c, a), c)
  {}

  lemma CheckpointIds(s: State, c: nat, a: CheckpointStep)
    requires Fits(s, Checkpoint(c, a)) && IdInOrder(s, s.containers[c])
    ensures IdEffect(s, NextCheckpoint(s, c, a), c)
  {}

  lemma ReuseHasNoId(s: State, c: nat, a: ReuseStep)
    requires Fits(s, Reuse(c, a))
    ensures !HasId(NextReuse(s, c, a).containers[c].phase) && NextReuse(s, c, a).daemonIds == s.daemonIds
  {}

  lemma ReuseIds(s: State, c: nat, a: ReuseStep)
    requires Fits(s, Reuse(c, a))
    ensures IdEffect(s, NextReuse(s, c, a), c)
  {
    ReuseHasNoId(s, c, a);
    if Early(a) { EarlyReuseRegistry(s, c, a); } else { LateReuseRegistry(s, c, a); }
  }

  lemma IdMove(s: State, s': State, c: nat)
    requires IdInv(s) && IdEffect(s, s', c)
    ensures IdInv(s')
  {
    forall d | d in s'.containers ensures IdInOrder(s', s'.containers[d]) {
      if d != c { assert IdInOrder(s, s.containers[d]); }
    }
    forall d, e | d in s'.containers && e in s'.containers && d != e
      ensures var k, l := s'.containers[d], s'.containers[e];
              HasId(k.phase) && HasId(l.phase) && k.id.Assigned? && l.id.Assigned? ==> k.id != l.id
    {
      assert IdInOrder(s, s.containers[d]) && IdInOrder(s, s.containers[e]);
    }
  }

  lemma IdMoved(s: State, step: Step)
    requires IdInv(s) && Fits(s, step)
    ensures IdInv(Moved(s, step))
  {
    match step
    case Start(c, a) => StartIds(s, c, a); IdMove(s, NextStart(s, c, a), c);
    case Stop(c, a) => StopIds(s, c, a); IdMove(s, NextStop(s, c, a), c);
    case Checkpoint(c, a) => CheckpointIds(s, c, a); IdMove(s, NextCheckpoint(s, c, a), c);
    case Reuse(c, a) => ReuseIds(s, c, a); IdMove(s, NextReuse(s, c, a), c);
    case Rewriting(_, _) | NetworkTracked | NetworkUntracked(_, _) | NetworkUntrackFails(_) =>
      SameIdInv(s, Moved(s, step));
  }

  lemma SameIdInv(s: State, t: State)
    requires IdInv(s) && t.containers == s.containers && t.daemonIds == s.daemonIds
    ensures IdInv(t)
  {
    forall c | c in t.containers ensures IdInOrder(t, t.containers[c]) {
      assert IdInOrder(s, t.containers[c]);
    }
  }

  lemma IdStep(s: State, step: Step)
    requires IdInv(s) && Enabled(s, step)
    ensures IdInv(Next(s, step))
  {
    IdMoved(s, step);
    SameIdInv(Moved(s, step), Next(s, step));
  }

  /** Registered ids of different containers differ: names do, and assigned ids do. */
  lemma RegisteredApart(s: State, c: nat, d: nat)
    requires NamesApart(s) && IdInv(s) && c in s.containers && d in s.containers && c != d
    ensures RegisteredIds(s.containers[c]) !! RegisteredIds(s.containers[d])
  {
    var k, l := s.containers[c], s.containers[d];
    assert IdInOrder(s, k) && IdInOrder(s, l);
  }

  ghost predicate RegistryInv(s: State) {
    && (forall c, n | c in s.containers && n in RegisteredIds(s.containers[c]) :: n in s.registered)
    && (forall n | n in s.registered :: exists c :: c in s.containers && n in RegisteredIds(s.containers[c]))
  }

  /** A step changes the registry by what it changes for its own container. */
  ghost predicate RegistryEffect(s: State, s': State, c: nat) {
    && c in s.containers && c in s'.containers
    && s'.containers == s.containers[c := s'.containers[c]]
    && s'.registered == s.registered - RegisteredIds(s.containers[c]) + RegisteredIds(s'.containers[c])
  }

  lemma StartRegistry(s: State, c: nat, a: StartStep)
    requires Fits(s, Start(c, a)) && RegisteredIds(s.containers[c]) <= s.registered
    ensures RegistryEffect(s, NextStart(s, c, a), c)
  {}

  lemma StopRegistry(s: State, c: nat, a: StopStep)
    requires Fits(s, Stop(c, a)) && RegisteredIds(s.containers[c]) <= s.registered
    requires IdInOrder(s, s.containers[c])
    ensures RegistryEffect(s, NextStop(s, c, a), c)
  {}

  lemma RekeyRegistry(s: State, c: nat)
    requires Fits(s, Checkpoint(c, Rekey)) && RegisteredIds(s.containers[c]) <= s.registered
    requires IdInOrder(s, s.containers[c])
    ensures RegistryEffect(s, NextCheckpoint(s, c, Rekey), c)
  {}

  lemma CheckpointKeepsKnown(s: State, c: nat, a: CheckpointStep)
    requires Fits(s, Checkpoint(c, a)) && !a.Rekey?
    ensures var k, k' := s.containers[c], NextCheckpoint(s, c, a).containers[c];
            IsRegistered(k.phase) && IsRegistered(k'.phase) && k'.known == k.known
  {}

  lemma CheckpointRegistry(s: State, c: nat, a: CheckpointStep)
    requires Fits(s, Checkpoint(c, a)) && RegisteredIds(s.containers[c]) <= s.registered && !a.Rekey?
    ensures RegistryEffect(s, NextCheckpoint(s, c, a), c)
  {
    CheckpointKeepsKnown(s, c, a);
  }

  lemma EarlyReuseRegistry(s: State, c: nat, a: ReuseStep)
    requires Fits(s, Reuse(c, a)) && Early(a)
    ensures RegistryEffect(s, NextReuse(s, c, a), c)
  {}

  lemma LateReuseRegistry(s: State, c: nat, a: ReuseStep)
    requires Fits(s, Reuse(c, a)) && !Early(a)
    ensures RegistryEffect(s, NextReuse(s, c, a), c)
  {}

  lemma RegistryEffects(s: State, step: Step)
    requires Fits(s, step) && OfContainer(step)
    requires RegisteredIds(s.containers[step.c]) <= s.registered && IdInOrder(s, s.containers[step.c])
    ensures RegistryEffect(s, Moved(s, step), step.c)
  {
    match step
    case Start(c, a) => StartRegistry(s, c, a);
    case Stop(c, a) => StopRegistry(s, c, a);
    case Checkpoint(c, a) => if a.Rekey? { RekeyRegistry(s, c); } else { CheckpointRegistry(s, c, a); }
    case Reuse(c, a) => if Early(a) { EarlyReuseRegistry(s, c, a); } else { LateReuseRegistry(s, c, a); }
    case Rewriting(c, _) => assert s.containers == s.containers[c := s.containers[c]];
  }

  lemma RegistryMove(s: State, s': State, c: nat)
    requires RegistryInv(s) && NamesApart(s) && IdInv(s) && RegistryEffect(s, s', c)
    ensures RegistryInv(s')
  {
    forall d, n | d in s'.containers && n in RegisteredIds(s'.containers[d])
      ensures n in s'.registered
    {
      if d != c { RegisteredApart(s, c, d); }
    }
    forall n | n in s'.registered
      ensures exists d :: d in s'.containers && n in RegisteredIds(s'.containers[d])
    {
      if n in RegisteredIds(s'.containers[c]) {
      } else {
        var d :| d in s.containers && n in RegisteredIds(s.containers[d]);
        assert s'.containers[d] == s.containers[d];
      }
    }
  }

  lemma RegistryStep(s: State, step: Step)
    requires LedgerInv(s) && IdInv(s) && RegistryInv(s) && Enabled(s, step)
    ensures RegistryInv(Next(s, step))
  {
    if OfContainer(step) {
      assert IdInOrder(s, s.containers[step.c]);
      RegistryEffects(s, step);
      RegistryMove(s, Moved(s, step), step.c);
    }
  }

  lemma {:induction false} RegistryOverRuns(s: State, steps: seq<Step>)
    requires LedgerInv(s) && IdInv(s) && RegistryInv(s) && IsRun(s, steps)
    ensures RegistryInv(After(s, steps)) && IdInv(After(s, steps))
    decreases |steps|
  {
    if steps != [] {
      LedgerStep(s, steps[0]);
      IdStep(s, steps[0]);
      RegistryStep(s, steps[0]);
      RegistryOverRuns(Next(s, steps[0]), steps[1..]);
    }
  }

  /** No ephemeral container is in the middle of a call. */
  ghost predicate Quiescent(s: State) {
    forall c | c in s.containers :: s.containers[c].phase.Running? || RegisteredIds(s.containers[c]) == {}
  }

  /** Between calls, the exit hook tears down exactly the running ephemeral containers, each
      under the id its handle has now - renamed by any number of checkpoints or not. */
  lemma RegistryListsRunningContainers(s: State, steps: seq<Step>, n: HandleId)
    requires Initial(s) && IsRun(s, steps) && Quiescent(After(s, steps))
    ensures n in After(s, steps).registered <==>
              exists c :: c in After(s, steps).containers
                       && After(s, steps).containers[c].phase.Running? && After(s, steps).containers[c].id == n
  {
    InitialLedger(s);
    RegistryOverRuns(s, steps);
    var t := After(s, steps);
    if n in t.registered {
      var c :| c in t.containers && n in RegisteredIds(t.containers[c]);
      assert IdInOrder(t, t.containers[c]);
      assert t.containers[c].phase.Running? && t.containers[c].id == n;
    }
    if c :| c in t.containers && t.containers[c].phase.Running? && t.containers[c].id == n {
      assert IdInOrder(t, t.containers[c]);
      assert n in RegisteredIds(t.containers[c]);
    }
  }
}
