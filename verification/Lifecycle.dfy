/** Every container of one process at once: the steps its start, stop, checkpoint and reuse
    calls take between two awaits, over the process-wide stores they share - the issued host
    ports, the run's ledger files, the exit-cleanup registry and the sandboxes that exist. */
module Lifecycle {
  import opened LedgerDisk
  import opened Options
  import opened StartLimit

  /** TCP and UDP have separate port tables, so a host port is a number and a protocol. */
  datatype Port = Tcp(number: nat) | Udp(number: nat)

  /** Where a container stands: what its call is waiting for. */
  datatype Phase =
    | Idle
    // start(), and again after a host-port conflict
    | Allocating
    | Tracking
    | Creating
    | Booting
    | Removing(conflict: bool)
    | Untracking(conflict: bool)
    | Running
    // stop()
    | StopRemoving
    | StopUntracking
    // checkpoint() on a backend that reboots under a fresh name
    | Snapshotting
    | Rebooting
    | Restoring
    | RestoreFailed
    | RestoreUntracking
    | Renamed
    // start() and stop() of a reuse container
    | ReuseAllocating
    | ReuseBooting
    | ReuseTearingDown(conflict: bool)
    | ReuseProbing
    | ReuseWaiting
    | ReuseDiscarding
    | ReuseRunning
    | ReuseAdopted

  /** handle.id: microsandbox's is the sandbox's name, docker's one the daemon assigned. */
  datatype HandleId = Named(name: nat) | Assigned(number: nat)

  /** A container's own fields: the name in its handle's spec; in other the name a reboot is
      being tried under, or after the rename the name it had before; the handle's id; and the
      id it was last registered under for the exit cleanup. */
  datatype Container = Container(phase: Phase, name: nat, other: nat, id: HandleId, known: HandleId,
                                 ports: set<Port>, tried: seq<set<Port>>)

  const IDLE := Container(Idle, 0, 0, Named(0), Named(0), {}, [])

  datatype State = State(
    containers: map<nat, Container>,
    issued: set<Port>,
    /** Ports nobody holds any more and nobody will release. */
    lost: set<Port>,
    /** Ports of reuse sandboxes that outlive their container object. */
    retained: set<Port>,
    /** The names the ledger was made to list and has not been asked to take off. */
    due: set<nat>,
    /** The run's ledger files. */
    disk: Disk,
    /** The ephemeral sandboxes that exist. */
    live: set<nat>,
    /** Those whose removal failed or was skipped, and will not be tried again. */
    stray: set<nat>,
    /** Handle ids in the exit-cleanup registry. */
    registered: set<HandleId>,
    /** The sandbox-name counter. */
    sequence: nat,
    /** How many ids docker's daemon has assigned. */
    daemonIds: nat)

  function Union(sets: seq<set<Port>>): (u: set<Port>)
    ensures forall p :: p in u <==> exists i :: 0 <= i < |sets| && p in sets[i]
  {
    if sets == [] then {} else sets[0] + Union(sets[1..])
  }

  function Quarantine(k: Container): set<Port> {
    Union(k.tried)
  }

  /** The issued ports a container is responsible for. */
  function Held(k: Container): set<Port> {
    k.ports + Quarantine(k)
  }

  /** How untrackSandbox succeeds: with the rewrite it began, or with no line left to write. */
  datatype Unlisting =
    | Rewritten(pruning: Pruning)
    | Unlinked(legible: bool, unlinked: bool, pruning: Pruning)

  /** What untrackSandbox does before it is over. */
  datatype RewriteStep =
    | Truncates
    | WritesPart(kept: nat, torn: Torn)

  /** start() of an ephemeral container. */
  datatype StartStep =
    | Begin
    | Allocate(port: Port)
    | AllocateFails
    | MintName
    | SpecThrows
    | Track
    /** Whatever of the line was written. */
    | TrackFails(wrote: Appending)
    /** daemon: the id is assigned, and not the name. */
    | Create(daemon: bool)
    /** made: the sandbox exists all the same, and nobody has its handle. */
    | CreateFails(conflict: bool, made: bool)
    | BootSucceeds
    | BootFails(conflict: bool)
    | Remove(effective: bool)
    | Untrack(way: Unlisting)
    | UntrackFails

  /** stop(), and the teardown of a container that never became ready. */
  datatype StopStep =
    | BeginStop
    | StopRemove(effective: bool)
    | StopUntrack(way: Unlisting)
    | StopUntrackFails

  /** checkpoint() where the backend reboots the workload under a fresh name. */
  datatype CheckpointStep =
    | BeginCheckpoint
    /** The call failed, or it is a commit that leaves the container running. */
    | SnapshotEnds
    | SnapshotTaken(removed: bool)
    | TrackFresh
    | TrackFreshFails(wrote: Appending)
    | RestoreSucceeds
    | RestoreFails(leftRecord: bool)
    | RestoreRemove(effective: bool)
    | RestoreUntrack(again: bool, way: Unlisting)
    | RestoreUntrackFails
    | Rekey

  /** start() and stop() of a reuse container. */
  datatype ReuseStep =
    | ReuseBegin
    | ReuseAdopt
    | ReuseAllocate(port: Port)
    | ReuseFailsEarly
    | ReuseSpecBuilt
    | ReuseBoots
    | ReuseBootFails(conflict: bool)
    | ReuseTornDown
    | ReuseProbed
    | ReuseRetry
    | ReuseReady
    | ReuseUnready
    | ReuseDiscarded
    | ReuseRegistryFails
    | ReuseStop
    /** Names may be minted for its reboots; nothing is tracked or registered. */
    | ReuseCheckpoint(minted: nat)

  datatype Step =
    | Start(c: nat, start: StartStep)
    | Stop(c: nat, stop: StopStep)
    | Checkpoint(c: nat, checkpoint: CheckpointStep)
    | Reuse(c: nat, reuse: ReuseStep)
    | Rewriting(c: nat, rewrite: RewriteStep)
    | NetworkTracked
    | NetworkUntracked(left: bool, pruning: Pruning)
    | NetworkUntrackFails(left: bool)

  /** The steps of some container's call. */
  predicate OfContainer(step: Step) {
    step.Start? || step.Stop? || step.Checkpoint? || step.Reuse? || step.Rewriting?
  }

  predicate StartFrom(phase: Phase, step: StartStep) {
    match step
    case Begin => phase.Idle?
    case Allocate(_) | AllocateFails | MintName | SpecThrows => phase.Allocating?
    case Track | TrackFails(_) => phase.Tracking?
    case Create(_) | CreateFails(_, _) => phase.Creating?
    case BootSucceeds | BootFails(_) => phase.Booting?
    case Remove(_) => phase.Removing?
    case Untrack(_) | UntrackFails => phase.Untracking?
  }

  predicate StopFrom(phase: Phase, step: StopStep) {
    match step
    case BeginStop => phase.Running?
    case StopRemove(_) => phase.StopRemoving?
    case StopUntrack(_) | StopUntrackFails => phase.StopUntracking?
  }

  predicate CheckpointFrom(phase: Phase, step: CheckpointStep) {
    match step
    case BeginCheckpoint => phase.Running?
    case SnapshotEnds | SnapshotTaken(_) => phase.Snapshotting?
    case TrackFresh | TrackFreshFails(_) => phase.Rebooting?
    case RestoreSucceeds | RestoreFails(_) => phase.Restoring?
    case RestoreRemove(_) => phase.RestoreFailed?
    case RestoreUntrack(_, _) | RestoreUntrackFails => phase.RestoreUntracking?
    case Rekey => phase.Renamed?
  }

  predicate ReuseFrom(phase: Phase, step: ReuseStep) {
    match step
    case ReuseBegin => phase.Idle?
    case ReuseAdopt => phase.Idle? || phase.ReuseProbing?
    case ReuseAllocate(_) | ReuseFailsEarly | ReuseSpecBuilt => phase.ReuseAllocating?
    case ReuseBoots | ReuseBootFails(_) => phase.ReuseBooting?
    case ReuseTornDown => phase.ReuseTearingDown?
    case ReuseProbed | ReuseRetry => phase.ReuseProbing?
    case ReuseReady | ReuseUnready | ReuseRegistryFails => phase.ReuseWaiting?
    case ReuseDiscarded => phase.ReuseDiscarding?
    case ReuseStop | ReuseCheckpoint(_) => phase.ReuseRunning? || phase.ReuseAdopted?
  }

  /** The name a container's call is untracking. */
  function Untracked(k: Container): Option<nat> {
    match k.phase
    case Untracking(_) | StopUntracking => Some(k.name)
    case RestoreUntracking => Some(k.other)
    case _ => None
  }

  /** A step fits the phase of its container; the allocator hands out no issued port, and only
      microsandbox's checkpoint reboots. */
  predicate Fits(s: State, step: Step) {
    match step
    case Start(c, a) =>
      c in s.containers && StartFrom(s.containers[c].phase, a) && (a.Allocate? ==> a.port !in s.issued)
    case Stop(c, a) => c in s.containers && StopFrom(s.containers[c].phase, a)
    case Checkpoint(c, a) =>
      c in s.containers && CheckpointFrom(s.containers[c].phase, a) && (a.SnapshotTaken? ==> s.containers[c].id.Named?)
    case Reuse(c, a) =>
      c in s.containers && ReuseFrom(s.containers[c].phase, a) && (a.ReuseAllocate? ==> a.port !in s.issued)
    case Rewriting(c, _) => c in s.containers && Untracked(s.containers[c]).Some?
    case NetworkTracked | NetworkUntracked(_, _) | NetworkUntrackFails(_) => true
  }

  function Unlists(n: nat, way: Unlisting): Op {
    match way
    case Rewritten(p) => Finish(n, p)
    case Unlinked(legible, unlinked, p) => NothingLeft(n, legible, unlinked, p)
  }

  /** untrackSandbox throws: in the middle of the rewrite it began, or at opening the file. */
  function FailsToUnlist(s: State, n: nat): Op {
    if s.disk.rewrite.Some? then GiveUp(n) else OpenFails(n)
  }

  /** What a step does to the ledger files. */
  function OpOf(s: State, step: Step): Op
    requires Fits(s, step)
  {
    match step
    case Start(c, Track) => Append(s.containers[c].name, Whole)
    case Start(c, TrackFails(wrote)) => Append(s.containers[c].name, wrote)
    case Start(c, Untrack(way)) => Unlists(s.containers[c].name, way)
    case Start(c, UntrackFails) => FailsToUnlist(s, s.containers[c].name)
    case Stop(c, StopUntrack(way)) => Unlists(s.containers[c].name, way)
    case Stop(c, StopUntrackFails) => FailsToUnlist(s, s.containers[c].name)
    case Checkpoint(_, TrackFresh) => Append(s.sequence + 1, Whole)
    case Checkpoint(_, TrackFreshFails(wrote)) => Append(s.sequence + 1, wrote)
    case Checkpoint(c, RestoreUntrack(_, way)) => Unlists(s.containers[c].other, way)
    case Checkpoint(c, RestoreUntrackFails) => FailsToUnlist(s, s.containers[c].other)
    case Rewriting(c, Truncates) => Truncate(Untracked(s.containers[c]).value)
    case Rewriting(c, WritesPart(kept, torn)) => WritePart(Untracked(s.containers[c]).value, kept, torn)
    case NetworkTracked => AppendNetwork
    case NetworkUntracked(left, p) => RemoveNetwork(left, p)
    case NetworkUntrackFails(left) => RemoveNetworkFails(left)
    case _ => NoOp
  }

  /** And the ledger files allow what it does to them. */
  predicate Enabled(s: State, step: Step) {
    Fits(s, step) && Allowed(s.disk, OpOf(s, step))
  }

  function Put(s: State, c: nat, k: Container): State {
    s.(containers := s.containers[c := k])
  }

  function Ended(k: Container): Container {
    k.(phase := Idle, ports := {}, tried := [])
  }

  /** start() throws with everything released: this attempt's ports and the quarantine. */
  function Released(s: State, c: nat, k: Container): State {
    Put(s, c, Ended(k)).(issued := s.issued - Held(k))
  }

  /** start() throws where this attempt's ports are not released, only the quarantine is. */
  function Leaked(s: State, c: nat, k: Container): State {
    Put(s, c, Ended(k)).(issued := s.issued - Quarantine(k), lost := s.lost + k.ports)
  }

  /** A host-port conflict: the ports join the quarantine, and the loop goes on or gives up. */
  function Conflicted(s: State, c: nat, k: Container, next: Phase): State {
    var k' := k.(ports := {}, tried := k.tried + [k.ports]);
    if |k'.tried| >= MAX_START_ATTEMPTS then Released(s, c, k') else Put(s, c, k'.(phase := next))
  }

  /** A sandbox's removal, which may fail unnoticed. */
  function Removed(s: State, name: nat, effective: bool): State {
    if effective then s.(live := s.live - {name})
    else if name in s.live then s.(stray := s.stray + {name})
    else s
  }

  function NextStart(s: State, c: nat, step: StartStep): State
    requires c in s.containers && StartFrom(s.containers[c].phase, step)
  {
    var k := s.containers[c];
    match step
    case Begin => Put(s, c, k.(phase := Allocating))
    case Allocate(p) => Put(s, c, k.(ports := k.ports + {p})).(issued := s.issued + {p})
    case AllocateFails => Leaked(s, c, k)
    case MintName => Put(s, c, k.(phase := Tracking, name := s.sequence + 1)).(sequence := s.sequence + 1)
    case SpecThrows => Leaked(s, c, k).(sequence := s.sequence + 1)
    case Track => Put(s, c, k.(phase := Creating)).(due := s.due + {k.name})
    case TrackFails(_) => Leaked(s, c, k)
    case Create(daemon) =>
      var id := if daemon then Assigned(s.daemonIds + 1) else Named(k.name);
      Put(s, c, k.(phase := Booting, id := id)).(live := s.live + {k.name}, daemonIds := s.daemonIds + 1)
    case CreateFails(conflict, made) =>
      var left := if made then {k.name} else {};
      Put(s, c, k.(phase := Untracking(conflict))).(live := s.live + left, stray := s.stray + left)
    case BootSucceeds =>
      Put(s, c, k.(phase := Running, tried := [], known := k.id))
      .(issued := s.issued - Quarantine(k), registered := s.registered + {k.id})
    case BootFails(conflict) => Put(s, c, k.(phase := Removing(conflict)))
    case Remove(effective) => Removed(Put(s, c, k.(phase := Untracking(k.phase.conflict))), k.name, effective)
    case Untrack(_) =>
      if k.phase.conflict then Conflicted(s.(due := s.due - {k.name}), c, k, Allocating)
      else Released(s.(due := s.due - {k.name}), c, k)
    case UntrackFails => Leaked(s, c, k)
  }

  function NextStop(s: State, c: nat, step: StopStep): State
    requires c in s.containers && StopFrom(s.containers[c].phase, step)
  {
    var k := s.containers[c];
    match step
    case BeginStop => Put(s, c, k.(phase := StopRemoving))
    case StopRemove(effective) =>
      Removed(Put(s, c, k.(phase := StopUntracking)), k.name, effective).(registered := s.registered - {k.id})
    case StopUntrack(_) => Released(s.(due := s.due - {k.name}), c, k)
    case StopUntrackFails => Leaked(s, c, k)
  }

  function NextCheckpoint(s: State, c: nat, step: CheckpointStep): State
    requires c in s.containers && CheckpointFrom(s.containers[c].phase, step)
  {
    var k := s.containers[c];
    match step
    case BeginCheckpoint => Put(s, c, k.(phase := Snapshotting))
    case SnapshotEnds => Put(s, c, k.(phase := Running))
    case SnapshotTaken(removed) =>
      Put(s, c, k.(phase := Rebooting)).(live := if removed then s.live - {k.name} else s.live)
    case TrackFresh =>
      var minted := s.sequence + 1;
      Put(s, c, k.(phase := Restoring, other := minted)).(sequence := minted, due := s.due + {minted})
    case TrackFreshFails(_) => Put(s, c, k.(phase := Running)).(sequence := s.sequence + 1)
    case RestoreSucceeds =>
      Put(s, c, k.(phase := Renamed, name := k.other, other := k.name, id := Named(k.other)))
      .(live := s.live + {k.other})
    case RestoreFails(leftRecord) =>
      Put(s, c, k.(phase := RestoreFailed)).(live := if leftRecord then s.live + {k.other} else s.live)
    case RestoreRemove(effective) => Removed(Put(s, c, k.(phase := RestoreUntracking)), k.other, effective)
    case RestoreUntrack(again, _) =>
      Put(s, c, k.(phase := if again then Rebooting else Running)).(due := s.due - {k.other})
    case RestoreUntrackFails => Put(s, c, k.(phase := Running))
    case Rekey =>
      Put(s, c, k.(phase := Running, known := k.id)).(registered := s.registered - {k.known} + {k.id})
  }

  function NextReuse(s: State, c: nat, step: ReuseStep): State
    requires c in s.containers && ReuseFrom(s.containers[c].phase, step)
  {
    var k := s.containers[c];
    match step
    case ReuseBegin => Put(s, c, k.(phase := ReuseAllocating))
    case ReuseAdopt => Put(s, c, Ended(k).(phase := ReuseAdopted)).(issued := s.issued - Held(k))
    case ReuseAllocate(p) => Put(s, c, k.(ports := k.ports + {p})).(issued := s.issued + {p})
    case ReuseFailsEarly => Leaked(s, c, k)
    case ReuseSpecBuilt => Put(s, c, k.(phase := ReuseBooting))
    case ReuseBoots => Put(s, c, k.(phase := ReuseWaiting, tried := [])).(issued := s.issued - Quarantine(k))
    case ReuseBootFails(conflict) => Put(s, c, k.(phase := ReuseTearingDown(conflict)))
    case ReuseTornDown =>
      if k.phase.conflict then Conflicted(s, c, k, ReuseAllocating)
      else Put(s, c, k.(phase := ReuseProbing, ports := {})).(issued := s.issued - k.ports)
    case ReuseProbed => Released(s, c, k)
    case ReuseRetry => Put(s, c, Ended(k).(phase := ReuseAllocating)).(issued := s.issued - Held(k))
    case ReuseReady => Put(s, c, k.(phase := ReuseRunning))
    case ReuseUnready => Put(s, c, k.(phase := ReuseDiscarding))
    case ReuseDiscarded => Released(s, c, k)
    case ReuseRegistryFails => Put(s, c, Ended(k)).(retained := s.retained + k.ports)
    case ReuseStop => Put(s, c, Ended(k)).(retained := s.retained + k.ports)
    case ReuseCheckpoint(minted) => s.(sequence := s.sequence + minted)
  }

  function NextRewriting(s: State, c: nat, step: RewriteStep): State
    requires c in s.containers && Untracked(s.containers[c]).Some?
  {
    if step.Truncates? then s.(due := s.due - {Untracked(s.containers[c]).value}) else s
  }

  /** The step, but for the ledger files. */
  function Moved(s: State, step: Step): State
    requires Fits(s, step)
  {
    match step
    case Start(c, a) => NextStart(s, c, a)
    case Stop(c, a) => NextStop(s, c, a)
    case Checkpoint(c, a) => NextCheckpoint(s, c, a)
    case Reuse(c, a) => NextReuse(s, c, a)
    case Rewriting(c, a) => NextRewriting(s, c, a)
    case NetworkTracked | NetworkUntracked(_, _) | NetworkUntrackFails(_) => s
  }

  function Next(s: State, step: Step): State
    requires Enabled(s, step)
  {
    Moved(s, step).(disk := Apply(s.disk, OpOf(s, step)))
  }

  /** The steps of a run, each possible in the state the previous ones led to. */
  ghost predicate IsRun(s: State, steps: seq<Step>)
    decreases |steps|
  {
    steps == [] || (Enabled(s, steps[0]) && IsRun(Next(s, steps[0]), steps[1..]))
  }

  ghost function After(s: State, steps: seq<Step>): State
    requires IsRun(s, steps)
    decreases |steps|
  {
    if steps == [] then s else After(Next(s, steps[0]), steps[1..])
  }

  lemma {:induction false} OneMore(s: State, steps: seq<Step>, step: Step)
    requires IsRun(s, steps) && Enabled(After(s, steps), step)
    ensures IsRun(s, steps + [step])
    ensures After(s, steps + [step]) == Next(After(s, steps), step)
    decreases |steps|
  {
    var all := steps + [step];
    if steps == [] {
      assert all[1..] == [];
    } else {
      assert all[1..] == steps[1..] + [step];
      OneMore(Next(s, steps[0]), steps[1..], step);
    }
  }

  /** Nothing started yet; the run record has been written. */
  ghost predicate Initial(s: State) {
    && (forall c | c in s.containers ::
          var k := s.containers[c];
          k.phase == Idle && k.ports == {} && k.tried == [])
    && s.issued == {} && s.lost == {} && s.retained == {}
    && s.due == {} && s.disk == Disk(NO_LINES, None, false, true)
    && s.live == {} && s.stray == {} && s.registered == {}
  }
}
