/** Conservation of host ports over every interleaving of container calls. */
module LifecyclePorts {
  import opened LedgerDisk
  import opened Lifecycle
  import opened LifecycleRuns
  import opened Options
  import opened StartLimit

  /** Phases in which no conflicting ports can be pending any more. */
  predicate Settled(phase: Phase) {
    match phase
    case Idle | Running | StopRemoving | StopUntracking | Snapshotting | Rebooting | Restoring | RestoreFailed
       | RestoreUntracking | Renamed | ReuseWaiting | ReuseDiscarding | ReuseRunning | ReuseAdopted => true
    case _ => false
  }

  predicate HoldsNoPort(phase: Phase) {
    phase.Idle? || phase.ReuseAdopted? || phase.ReuseProbing?
  }

  /** One start's attempts: the ports of each are kept apart from those of every other. */
  ghost predicate AttemptsApart(k: Container) {
    && |k.tried| < MAX_START_ATTEMPTS
    && (Settled(k.phase) ==> k.tried == [])
    && (HoldsNoPort(k.phase) ==> k.ports == {})
    && k.ports !! Quarantine(k)
    && (forall i, j | 0 <= i < j < |k.tried| :: k.tried[i] !! k.tried[j])
  }

  /** The issued ports are the disjoint union of what each container holds for its attempt,
      its quarantine or its running sandbox, what reuse sandboxes retain, and what was lost. */
  ghost predicate Conserved(s: State) {
    && (forall c | c in s.containers ::
          var held := Held(s.containers[c]);
          held <= s.issued && held !! s.lost && held !! s.retained)
    && (forall c, d | c in s.containers && d in s.containers && c != d ::
          Held(s.containers[c]) !! Held(s.containers[d]))
    && s.lost <= s.issued && s.retained <= s.issued && s.lost !! s.retained
    && (forall p | p in s.issued ::
          p in s.lost || p in s.retained || exists c :: c in s.containers && p in Held(s.containers[c]))
  }

  ghost predicate PortInv(s: State) {
    && Conserved(s)
    && forall c | c in s.containers :: AttemptsApart(s.containers[c])
  }

  /** One container's ports change hands: it gains only fresh ones, and those it gives up
      are no longer issued, or lost, or retained. */
  lemma PortsMove(s: State, s': State, c: nat, k': Container, lost: set<Port>, retained: set<Port>)
    requires PortInv(s) && c in s.containers && AttemptsApart(k')
    requires s'.containers == s.containers[c := k']
    requires (Held(k') - Held(s.containers[c])) !! s.issued
    requires lost + retained <= Held(s.containers[c]) - Held(k') && lost !! retained
    requires s'.lost == s.lost + lost && s'.retained == s.retained + retained
    requires s'.issued == s.issued + Held(k') - (Held(s.containers[c]) - Held(k') - lost - retained)
    ensures PortInv(s')
  {
    var held, held' := Held(s.containers[c]), Held(k');
    forall p | p in s'.issued
      ensures p in s'.lost || p in s'.retained || exists d :: d in s'.containers && p in Held(s'.containers[d])
    {
      if p in held' {
        assert p in Held(s'.containers[c]);
      } else if p in s.issued && p !in s.lost && p !in s.retained {
        var d :| d in s.containers && p in Held(s.containers[d]);
        if d != c {
          assert p in Held(s'.containers[d]);
        }
      }
    }
  }

  lemma PortsKept(s: State, s': State, c: nat, k': Container)
    requires PortInv(s) && c in s.containers && AttemptsApart(k')
    requires s'.containers == s.containers[c := k'] && Held(k') == Held(s.containers[c])
    requires s'.issued == s.issued && s'.lost == s.lost && s'.retained == s.retained
    ensures PortInv(s')
  {
    PortsMove(s, s', c, k', {}, {});
  }

  lemma PortsReleased(s: State, c: nat, k: Container)
    requires PortInv(s) && c in s.containers && Held(k) == Held(s.containers[c])
    ensures PortInv(Released(s, c, k))
  {
    assert Held(Ended(k)) == {};
    PortsMove(s, Released(s, c, k), c, Ended(k), {}, {});
  }

  lemma PortsLeaked(s: State, c: nat, k: Container)
    requires PortInv(s) && c in s.containers && k == s.containers[c]
    ensures PortInv(Leaked(s, c, k))
  {
    assert Held(Ended(k)) == {};
    PortsMove(s, Leaked(s, c, k), c, Ended(k), k.ports, {});
  }

  lemma {:induction false} UnionSnoc(sets: seq<set<Port>>, last: set<Port>)
    ensures Union(sets + [last]) == Union(sets) + last
  {
    var all := sets + [last];
    forall p
      ensures p in Union(all) <==> p in Union(sets) + last
    {
      if p in Union(all) {
        var i :| 0 <= i < |all| && p in all[i];
        if i < |sets| { assert p in sets[i]; }
      }
      if p in Union(sets) {
        var i :| 0 <= i < |sets| && p in sets[i];
        assert p in all[i];
      }
      assert last == all[|sets|];
    }
  }

  lemma QuarantineGrows(k: Container)
    requires AttemptsApart(k)
    ensures var k' := k.(ports := {}, tried := k.tried + [k.ports]);
            && Held(k') == Held(k)
            && forall i, j | 0 <= i < j < |k'.tried| :: k'.tried[i] !! k'.tried[j]
  {
    UnionSnoc(k.tried, k.ports);
    forall i | 0 <= i < |k.tried|
      ensures k.tried[i] !! k.ports
    {
      assert k.tried[i] <= Quarantine(k);
    }
  }

  lemma PortsConflict(s: State, c: nat, k: Container, next: Phase)
    requires PortInv(s) && c in s.containers && k == s.containers[c]
    requires next.Allocating? || next.ReuseAllocating?
    ensures PortInv(Conflicted(s, c, k, next))
  {
    var k' := k.(ports := {}, tried := k.tried + [k.ports]);
    QuarantineGrows(k);
    if |k'.tried| >= MAX_START_ATTEMPTS {
      PortsReleased(s, c, k');
    } else {
      PortsKept(s, Conflicted(s, c, k, next), c, k'.(phase := next));
    }
  }

  /** A step that moves a container from one phase to another and leaves its ports alone. */
  ghost predicate MovesPhase(s: State, s': State, c: nat)
    requires c in s.containers
  {
    && c in s'.containers && s'.containers == s.containers[c := s'.containers[c]]
    && var k, k' := s.containers[c], s'.containers[c];
    && k'.ports == k.ports && k'.tried == k.tried
    && (Settled(k'.phase) ==> Settled(k.phase)) && !HoldsNoPort(k'.phase)
    && s'.issued == s.issued && s'.lost == s.lost && s'.retained == s.retained
  }

  lemma PhaseMove(s: State, s': State, c: nat)
    requires PortInv(s) && c in s.containers && MovesPhase(s, s', c)
    ensures PortInv(s')
  {
    var k' := s'.containers[c];
    assert Held(k') == Held(s.containers[c]);
    assert AttemptsApart(k');
    PortsKept(s, s', c, k');
  }

  /** What the port invariant reads of a state. */
  lemma SamePortsInv(s: State, t: State)
    requires PortInv(s)
    requires s.containers == t.containers && s.issued == t.issued && s.lost == t.lost && s.retained == t.retained
    ensures PortInv(t)
  {}

  lemma AllocationKeepsPorts(s: State, s': State, c: nat, p: Port)
    requires PortInv(s) && c in s.containers && p !in s.issued
    requires s.containers[c].phase.Allocating? || s.containers[c].phase.ReuseAllocating?
    requires s' == Put(s, c, s.containers[c].(ports := s.containers[c].ports + {p})).(issued := s.issued + {p})
    ensures PortInv(s')
  {
    var k' := s.containers[c].(ports := s.containers[c].ports + {p});
    assert p !in Quarantine(k') by { assert Held(s.containers[c]) <= s.issued; }
    PortsMove(s, s', c, k', {}, {});
  }

  predicate OnlyPhase(step: StartStep) {
    step.Begin? || step.MintName? || step.Track? || step.Create? || step.CreateFails? || step.BootFails? || step.Remove?
  }

  lemma StartPhaseEffect(s: State, c: nat, step: StartStep)
    requires Fits(s, Start(c, step)) && OnlyPhase(step)
    ensures MovesPhase(s, NextStart(s, c, step), c)
  {}

  lemma StopPhaseEffect(s: State, c: nat, step: StopStep)
    requires Fits(s, Stop(c, step)) && (step.BeginStop? || step.StopRemove?)
    ensures MovesPhase(s, NextStop(s, c, step), c)
  {}

  lemma CheckpointPhaseEffect(s: State, c: nat, step: CheckpointStep)
    requires Fits(s, Checkpoint(c, step))
    ensures MovesPhase(s, NextCheckpoint(s, c, step), c)
  {}

  lemma ReusePhaseEffect(s: State, c: nat, step: ReuseStep)
    requires Fits(s, Reuse(c, step))
    requires step.ReuseBegin? || step.ReuseSpecBuilt? || step.ReuseBootFails? || step.ReuseReady? || step.ReuseUnready?
    ensures MovesPhase(s, NextReuse(s, c, step), c)
  {}

  lemma StartKeepsPorts(s: State, c: nat, step: StartStep)
    requires PortInv(s) && Fits(s, Start(c, step))
    ensures PortInv(NextStart(s, c, step))
  {
    var k, s' := s.containers[c], NextStart(s, c, step);
    match step
    case Allocate(p) => AllocationKeepsPorts(s, s', c, p);
    case AllocateFails | TrackFails(_) | UntrackFails => PortsLeaked(s, c, k);
    case SpecThrows => PortsLeaked(s, c, k); SamePortsInv(Leaked(s, c, k), s');
    case BootSucceeds => PortsMove(s, s', c, k.(phase := Running, tried := [], known := k.id), {}, {});
    case Untrack(_) =>
      var unlisted := s.(due := s.due - {k.name});
      SamePortsInv(s, unlisted);
      if k.phase.conflict {
        PortsConflict(unlisted, c, k, Allocating);
      } else {
        PortsReleased(unlisted, c, k);
      }
    case _ => StartPhaseEffect(s, c, step); PhaseMove(s, s', c);
  }

  lemma StopKeepsPorts(s: State, c: nat, step: StopStep)
    requires PortInv(s) && Fits(s, Stop(c, step))
    ensures PortInv(NextStop(s, c, step))
  {
    var k, s' := s.containers[c], NextStop(s, c, step);
    match step
    case StopUntrack(_) =>
      var unlisted := s.(due := s.due - {k.name});
      SamePortsInv(s, unlisted);
      PortsReleased(unlisted, c, k);
    case StopUntrackFails => PortsLeaked(s, c, k);
    case _ => StopPhaseEffect(s, c, step); PhaseMove(s, s', c);
  }

  lemma CheckpointKeepsPorts(s: State, c: nat, step: CheckpointStep)
    requires PortInv(s) && Fits(s, Checkpoint(c, step))
    ensures PortInv(NextCheckpoint(s, c, step))
  {
    CheckpointPhaseEffect(s, c, step);
    PhaseMove(s, NextCheckpoint(s, c, step), c);
  }

  lemma ReuseEndKeepsPorts(s: State, s': State, c: nat, k': Container, retained: set<Port>)
    requires PortInv(s) && c in s.containers
    requires k'.ports == {} && k'.tried == [] && s'.containers == s.containers[c := k']
    requires retained <= Held(s.containers[c])
    requires s'.issued == s.issued - (Held(s.containers[c]) - retained)
    requires s'.lost == s.lost && s'.retained == s.retained + retained
    ensures PortInv(s')
  {
    assert Held(k') == {};
    PortsMove(s, s', c, k', {}, retained);
  }

  lemma ReuseBootsEffect(s: State, c: nat)
    requires PortInv(s) && Fits(s, Reuse(c, ReuseBoots))
    ensures PortInv(NextReuse(s, c, ReuseBoots))
  {
    var k := s.containers[c];
    var k' := k.(phase := ReuseWaiting, tried := []);
    assert Held(k') == k.ports;
    assert AttemptsApart(k');
    PortsMove(s, NextReuse(s, c, ReuseBoots), c, k', {}, {});
  }

  lemma ReuseTornDownEffect(s: State, c: nat)
    requires PortInv(s) && Fits(s, Reuse(c, ReuseTornDown))
    ensures PortInv(NextReuse(s, c, ReuseTornDown))
  {
    var k := s.containers[c];
    if k.phase.conflict {
      PortsConflict(s, c, k, ReuseAllocating);
    } else {
      var k' := k.(phase := ReuseProbing, ports := {});
      assert Held(k') == Quarantine(k);
      assert AttemptsApart(k');
      PortsMove(s, NextReuse(s, c, ReuseTornDown), c, k', {}, {});
    }
  }

  lemma ReuseKeepsPorts(s: State, c: nat, step: ReuseStep)
    requires PortInv(s) && Fits(s, Reuse(c, step))
    ensures PortInv(NextReuse(s, c, step))
  {
    var k, s' := s.containers[c], NextReuse(s, c, step);
    match step
    case ReuseAllocate(p) => AllocationKeepsPorts(s, s', c, p);
    case ReuseFailsEarly => PortsLeaked(s, c, k);
    case ReuseBoots => ReuseBootsEffect(s, c);
    case ReuseTornDown => ReuseTornDownEffect(s, c);
    case ReuseAdopt | ReuseProbed | ReuseRetry | ReuseDiscarded => ReuseEndKeepsPorts(s, s', c, s'.containers[c], {});
    case ReuseRegistryFails | ReuseStop =>
      assert Quarantine(k) == {};
      ReuseEndKeepsPorts(s, s', c, s'.containers[c], k.ports);
    case ReuseCheckpoint(_) => SamePortsInv(s, s');
    case _ => ReusePhaseEffect(s, c, step); PhaseMove(s, s', c);
  }

  lemma PortsMoved(s: State, step: Step)
    requires PortInv(s) && Fits(s, step)
    ensures PortInv(Moved(s, step))
  {
    match step
    case Start(c, a) => StartKeepsPorts(s, c, a);
    case Stop(c, a) => StopKeepsPorts(s, c, a);
    case Checkpoint(c, a) => CheckpointKeepsPorts(s, c, a);
    case Reuse(c, a) => ReuseKeepsPorts(s, c, a);
    case Rewriting(_, _) | NetworkTracked | NetworkUntracked(_, _) | NetworkUntrackFails(_) =>
      SamePortsInv(s, Moved(s, step));
  }

  lemma PortsStep(s: State, step: Step)
    requires PortInv(s) && Enabled(s, step)
    ensures PortInv(Next(s, step))
  {
    PortsMoved(s, step);
    SamePortsInv(Moved(s, step), Next(s, step));
  }

  /** Over every run, however the containers' calls interleave. */
  lemma {:induction false} PortsConserved(s: State, steps: seq<Step>)
    requires PortInv(s) && IsRun(s, steps)
    ensures PortInv(After(s, steps))
    decreases |steps|
  {
    if steps != [] {
      PortsStep(s, steps[0]);
      PortsConserved(Next(s, steps[0]), steps[1..]);
    }
  }

  lemma InitialPorts(s: State)
    requires Initial(s)
    ensures PortInv(s)
  {}

  /** Once every container is idle, nothing stays issued but what was retained or lost. */
  lemma QuiescentPorts(s: State, steps: seq<Step>)
    requires Initial(s) && IsRun(s, steps)
    requires forall c | c in After(s, steps).containers :: After(s, steps).containers[c].phase.Idle?
    ensures After(s, steps).issued == After(s, steps).lost + After(s, steps).retained
  {
    InitialPorts(s);
    PortsConserved(s, steps);
    var t := After(s, steps);
    forall c | c in t.containers
      ensures Held(t.containers[c]) == {}
    {
      assert AttemptsApart(t.containers[c]);
    }
  }

  /** In every reachable state, the attempts of one start have bound pairwise disjoint ports,
      and a port is never handed out - to this container or any other - while some attempt
      still holds it: one that just conflicted is not picked again before the loop exits. */
  lemma NeverPickedTwice(s: State, steps: seq<Step>, c: nat, port: Port, d: nat, i: nat)
    requires Initial(s) && IsRun(s, steps)
    requires d in After(s, steps).containers && i < |After(s, steps).containers[d].tried|
    requires || Enabled(After(s, steps), Start(c, Allocate(port)))
             || Enabled(After(s, steps), Reuse(c, ReuseAllocate(port)))
    ensures var k := After(s, steps).containers[d];
            && port !in k.tried[i] && port !in k.ports
            && k.tried[i] !! k.ports && forall j | 0 <= j < i :: k.tried[j] !! k.tried[i]
  {
    InitialPorts(s);
    PortsConserved(s, steps);
    var t := After(s, steps);
    assert AttemptsApart(t.containers[d]) && port !in t.issued;
    NotIssuedNotHeld(t, port, d, i);
    assert t.containers[d].tried[i] <= Quarantine(t.containers[d]);
  }

  lemma NotIssuedNotHeld(s: State, port: Port, d: nat, i: nat)
    requires Conserved(s) && d in s.containers && i < |s.containers[d].tried| && port !in s.issued
    ensures port !in s.containers[d].tried[i] && port !in s.containers[d].ports
  {
    assert s.containers[d].tried[i] <= Quarantine(s.containers[d]);
  }

  // ----- what a container holds, and what it leaves behind -----

  /** The ports allocated to the container's current attempt, by the steps alone. */
  function BoundAfter(bound: set<Port>, step: Step, c: nat): set<Port> {
    match step
    case Start(d, Allocate(p)) => if d == c then bound + {p} else bound
    case Reuse(d, ReuseAllocate(p)) => if d == c then bound + {p} else bound
    case Start(d, Begin) => if d == c then {} else bound
    case Start(d, Untrack(_)) => if d == c then {} else bound
    case Reuse(d, ReuseBegin) => if d == c then {} else bound
    case Reuse(d, ReuseTornDown) => if d == c then {} else bound
    case Reuse(d, ReuseRetry) => if d == c then {} else bound
    case _ => bound
  }

  function BoundOver(bound: set<Port>, steps: seq<Step>, c: nat): set<Port>
    decreases |steps|
  {
    if steps == [] then bound else BoundOver(BoundAfter(bound, steps[0], c), steps[1..], c)
  }

  predicate HoldsBound(s: State, c: nat, bound: set<Port>) {
    && c in s.containers
    && s.containers[c].ports == if HoldsNoPort(s.containers[c].phase) then {} else bound
  }

  lemma StartBound(s: State, c: nat, a: StartStep, bound: set<Port>)
    requires Fits(s, Start(c, a)) && HoldsBound(s, c, bound)
    ensures HoldsBound(NextStart(s, c, a), c, BoundAfter(bound, Start(c, a), c))
  {}

  lemma ReuseBound(s: State, c: nat, a: ReuseStep, bound: set<Port>)
    requires Fits(s, Reuse(c, a)) && HoldsBound(s, c, bound)
    ensures HoldsBound(NextReuse(s, c, a), c, BoundAfter(bound, Reuse(c, a), c))
  {}

  lemma StepBound(s: State, step: Step, c: nat, bound: set<Port>)
    requires Enabled(s, step) && HoldsBound(s, c, bound)
    ensures HoldsBound(Next(s, step), c, BoundAfter(bound, step, c))
  {
    if OfContainer(step) && step.c == c {
      match step
      case Start(_, a) => StartBound(s, c, a, bound);
      case Reuse(_, a) => ReuseBound(s, c, a, bound);
      case _ =>
    } else if OfContainer(step) {
      StepIsLocal(s, step);
    }
  }

  lemma {:induction false} BoundOverRuns(s: State, steps: seq<Step>, c: nat, bound: set<Port>)
    requires IsRun(s, steps) && HoldsBound(s, c, bound)
    ensures HoldsBound(After(s, steps), c, BoundOver(bound, steps, c))
    decreases |steps|
  {
    if steps != [] {
      StepBound(s, steps[0], c, bound);
      BoundOverRuns(Next(s, steps[0]), steps[1..], c, BoundAfter(bound, steps[0], c));
    }
  }

  /** From the first allocation of an attempt until its sandbox is stopped or given up, a
      container holds exactly the ports allocated to that attempt, all of them issued. */
  lemma HoldsWhatItAllocated(s: State, steps: seq<Step>, c: nat)
    requires Initial(s) && IsRun(s, steps) && c in s.containers
    ensures c in After(s, steps).containers
    ensures !HoldsNoPort(After(s, steps).containers[c].phase) ==>
              && After(s, steps).containers[c].ports == BoundOver({}, steps, c)
              && BoundOver({}, steps, c) <= After(s, steps).issued
  {
    BoundOverRuns(s, steps, c, {});
    InitialPorts(s);
    PortsConserved(s, steps);
    assert Held(After(s, steps).containers[c]) <= After(s, steps).issued;
  }

  /** The ports of a reuse sandbox that the step leaves running with no container to hold it:
      its container was stopped, or its registry entry could not be written. */
  function LeftRunning(s: State, step: Step): set<Port> {
    if step.Reuse? && step.c in s.containers && (step.reuse.ReuseStop? || step.reuse.ReuseRegistryFails?)
    then s.containers[step.c].ports else {}
  }

  ghost function LeftRunningOver(s: State, steps: seq<Step>): set<Port>
    requires IsRun(s, steps)
    decreases |steps|
  {
    if steps == [] then {} else LeftRunning(s, steps[0]) + LeftRunningOver(Next(s, steps[0]), steps[1..])
  }

  lemma RetainedStep(s: State, step: Step)
    requires Enabled(s, step)
    ensures Next(s, step).retained == s.retained + LeftRunning(s, step)
  {
    match step
    case Start(c, a) => StartIsLocal(s, c, a);
    case Stop(c, a) => StopIsLocal(s, c, a);
    case Checkpoint(c, a) => CheckpointIsLocal(s, c, a);
    case Reuse(c, a) => ReuseIsLocal(s, c, a);
    case _ =>
  }

  lemma {:induction false} RetainedOverRuns(s: State, steps: seq<Step>)
    requires IsRun(s, steps)
    ensures After(s, steps).retained == s.retained + LeftRunningOver(s, steps)
    decreases |steps|
  {
    if steps != [] {
      RetainedStep(s, steps[0]);
      RetainedOverRuns(Next(s, steps[0]), steps[1..]);
    }
  }

  /** Over every run, the retained ports are exactly those, and each stays issued for good: it is
      never handed out again while the sandbox goes on running. */
  lemma RetainedForGood(s: State, steps: seq<Step>)
    requires Initial(s) && IsRun(s, steps)
    ensures After(s, steps).retained == LeftRunningOver(s, steps) <= After(s, steps).issued
    ensures forall c: nat, port | port in LeftRunningOver(s, steps) ::
              && !Enabled(After(s, steps), Start(c, Allocate(port)))
              && !Enabled(After(s, steps), Reuse(c, ReuseAllocate(port)))
  {
    InitialPorts(s);
    PortsConserved(s, steps);
    RetainedOverRuns(s, steps);
  }

  /** One reuse container in this phase, with these ports. */
  function Reused(c: nat, phase: Phase, ports: set<Port>): State {
    Fresh(map[c := IDLE.(phase := phase, ports := ports)]).(issued := ports)
  }

  lemma ReuseStarts(c: nat, port: Port)
    ensures Leads(Reused(c, Idle, {}), Reuse(c, ReuseBegin), Reused(c, ReuseAllocating, {}))
    ensures Leads(Reused(c, ReuseAllocating, {}), Reuse(c, ReuseAllocate(port)), Reused(c, ReuseAllocating, {port}))
    ensures Leads(Reused(c, ReuseAllocating, {port}), Reuse(c, ReuseSpecBuilt), Reused(c, ReuseBooting, {port}))
  {
    assert {} + {port} == {port};
  }

  lemma ReuseEnds(c: nat, port: Port)
    ensures Leads(Reused(c, ReuseBooting, {port}), Reuse(c, ReuseBoots), Reused(c, ReuseWaiting, {port}))
    ensures Leads(Reused(c, ReuseWaiting, {port}), Reuse(c, ReuseReady), Reused(c, ReuseRunning, {port}))
    ensures Leads(Reused(c, ReuseRunning, {port}), Reuse(c, ReuseStop),
                  Reused(c, Idle, {}).(issued := {port}, retained := {port}))
  {
    assert Quarantine(IDLE.(phase := ReuseBooting, ports := {port})) == {};
    assert {port} - {} == {port} && {} + {port} == {port};
  }

  /** It happens: a reuse container starts on a port and stops, and the port stays issued. */
  lemma ReuseStopKeepsItsPort(c: nat, port: Port) returns (s: State, steps: seq<Step>)
    ensures FairRun(s, steps)
    ensures var t := After(s, steps);
            c in t.containers && t.containers[c].phase.Idle? && t.issued == {port} == t.retained
  {
    s := Reused(c, Idle, {});
    assert FairRun(s, []) by { NothingYet(map[c := IDLE]); }
    ReuseStarts(c, port);
    steps := Take(s, [], Reuse(c, ReuseBegin), Reused(c, ReuseAllocating, {}));
    steps := Take(s, steps, Reuse(c, ReuseAllocate(port)), Reused(c, ReuseAllocating, {port}));
    steps := Take(s, steps, Reuse(c, ReuseSpecBuilt), Reused(c, ReuseBooting, {port}));
    ReuseEnds(c, port);
    steps := Take(s, steps, Reuse(c, ReuseBoots), Reused(c, ReuseWaiting, {port}));
    steps := Take(s, steps, Reuse(c, ReuseReady), Reused(c, ReuseRunning, {port}));
    steps := Take(s, steps, Reuse(c, ReuseStop), Reused(c, Idle, {}).(issued := {port}, retained := {port}));
  }

  predicate StartLeaks(step: StartStep) {
    step.AllocateFails? || step.SpecThrows? || step.TrackFails? || step.UntrackFails?
  }

  /** The calls that throw while this attempt's ports are allocated but not guarded. */
  predicate Leaks(step: Step) {
    match step
    case Start(_, a) => StartLeaks(a)
    case Stop(_, a) => a.StopUntrackFails?
    case Reuse(_, a) => a.ReuseFailsEarly?
    case _ => false
  }

  /** Only the stepping container changes, and ports are lost only by the leaking calls. */
  ghost predicate Local(s: State, t: State, c: nat, leaks: bool)
    requires c in s.containers
  {
    && t.containers.Keys == s.containers.Keys
    && (forall d | d in s.containers && d != c :: t.containers[d] == s.containers[d])
    && t.lost == if leaks then s.lost + s.containers[c].ports else s.lost
  }

  lemma StartIsLocal(s: State, c: nat, step: StartStep)
    requires Fits(s, Start(c, step))
    ensures Local(s, NextStart(s, c, step), c, StartLeaks(step))
    ensures NextStart(s, c, step).retained == s.retained
  {
    var t := NextStart(s, c, step);
    var k' := t.containers[c];
    assert t.containers == s.containers[c := k'];
  }

  lemma StopIsLocal(s: State, c: nat, step: StopStep)
    requires Fits(s, Stop(c, step))
    ensures Local(s, NextStop(s, c, step), c, step.StopUntrackFails?)
    ensures NextStop(s, c, step).retained == s.retained
  {}

  lemma CheckpointIsLocal(s: State, c: nat, step: CheckpointStep)
    requires Fits(s, Checkpoint(c, step))
    ensures Local(s, NextCheckpoint(s, c, step), c, false)
    ensures NextCheckpoint(s, c, step).retained == s.retained
  {}

  lemma ReuseIsLocal(s: State, c: nat, step: ReuseStep)
    requires Fits(s, Reuse(c, step))
    ensures Local(s, NextReuse(s, c, step), c, step.ReuseFailsEarly?)
    ensures !step.ReuseRegistryFails? && !step.ReuseStop? ==> NextReuse(s, c, step).retained == s.retained
  {}

  lemma StepIsLocal(s: State, step: Step)
    requires Enabled(s, step) && OfContainer(step)
    ensures Local(s, Next(s, step), step.c, Leaks(step))
    ensures Mine(step, step.c) ==> Next(s, step).retained == s.retained
  {
    match step
    case Start(c, a) => StartIsLocal(s, c, a);
    case Stop(c, a) => StopIsLocal(s, c, a);
    case Checkpoint(c, a) => CheckpointIsLocal(s, c, a);
    case Reuse(c, a) => ReuseIsLocal(s, c, a);
    case Rewriting(_, _) =>
  }

  /** A step loses ports exactly when it is one of those and any were allocated; it then loses
      that attempt's, all of them and no other. */
  lemma LostExactlyByLeaks(s: State, step: Step)
    requires PortInv(s) && Enabled(s, step) && OfContainer(step)
    ensures Next(s, step).lost == if Leaks(step) then s.lost + s.containers[step.c].ports else s.lost
    ensures Next(s, step).lost == s.lost <==> !Leaks(step) || s.containers[step.c].ports == {}
  {
    StepIsLocal(s, step);
    var k := s.containers[step.c];
    assert k.ports !! s.lost by { assert Held(k) !! s.lost; }
    assert s.lost + k.ports == s.lost ==> k.ports == {} by {
      if s.lost + k.ports == s.lost { assert k.ports <= s.lost; }
    }
  }

  /** Some call of the run threw so, with ports allocated. */
  ghost predicate EverLeaks(s: State, steps: seq<Step>)
    requires IsRun(s, steps)
    decreases |steps|
  {
    steps != [] &&
    ((Leaks(steps[0]) && s.containers[steps[0].c].ports != {})
     || EverLeaks(Next(s, steps[0]), steps[1..]))
  }

  lemma LostGrowsExactlyByLeaks(s: State, step: Step)
    requires PortInv(s) && Enabled(s, step)
    ensures s.lost <= Next(s, step).lost
    ensures Next(s, step).lost == s.lost <==> !(Leaks(step) && s.containers[step.c].ports != {})
  {
    if OfContainer(step) {
      LostExactlyByLeaks(s, step);
    }
  }

  lemma {:induction false} LostOverRuns(s: State, steps: seq<Step>)
    requires PortInv(s) && IsRun(s, steps)
    ensures s.lost <= After(s, steps).lost
    ensures After(s, steps).lost == s.lost <==> !EverLeaks(s, steps)
    decreases |steps|
  {
    if steps != [] {
      LostGrowsExactlyByLeaks(s, steps[0]);
      PortsStep(s, steps[0]);
      LostOverRuns(Next(s, steps[0]), steps[1..]);
    }
  }

  /** Over a whole run, no port is lost if and only if no call of it threw outside the guarded
      part while it had ports allocated. */
  lemma NothingLostExactlyWithoutLeaks(s: State, steps: seq<Step>)
    requires Initial(s) && IsRun(s, steps)
    ensures After(s, steps).lost == {} <==> !EverLeaks(s, steps)
  {
    InitialPorts(s);
    LostOverRuns(s, steps);
  }

  /** Such a run: two containers start, the first one's stop cannot untrack it, and the second
      stops as it should; with every call over, the first one's port stays issued with nobody
      to release it. */
  lemma StopCanLoseAPort(c: nat, d: nat, port: Port) returns (s: State, steps: seq<Step>)
    requires c != d
    ensures FairRun(s, steps)
    ensures var t := After(s, steps);
            && (forall k | k in t.containers :: t.containers[k].phase.Idle?)
            && t.lost == {port} && port in t.issued
  {
    s, steps := TwoStarted(c, d, port);
    steps := Halt(s, steps, c, 1, {port});
    assert Rest(After(s, steps).disk.sandboxes, 1) == [Name(2)];
    steps := LosesItsPort(s, steps, c, port);
    steps := StopsAsItShould(s, steps, d);
    assert After(s, steps).containers.Keys == {c, d};
  }

  lemma LosesItsPort(s: State, before: seq<Step>, c: nat, port: Port) returns (steps: seq<Step>)
    requires FairRun(s, before)
    requires var t := After(s, before);
             && c in t.containers && t.containers[c] == Started(1, {port}).(phase := StopUntracking)
             && t.lost == {} && t.disk.rewrite.None? && Rest(t.disk.sandboxes, 1) != []
    ensures FairRun(s, steps)
    ensures var t, u := After(s, before), After(s, steps);
            && u == t.(containers := u.containers, lost := {port})
            && c in u.containers && u.containers == t.containers[c := u.containers[c]] && u.containers[c].phase.Idle?
  {
    steps := GoOn(s, before, Stop(c, StopUntrackFails));
    assert Quarantine(After(s, before).containers[c]) == {};
  }

  lemma StopsAsItShould(s: State, before: seq<Step>, d: nat) returns (steps: seq<Step>)
    requires FairRun(s, before)
    requires var t := After(s, before);
             && d in t.containers && t.containers[d] == Started(2, {})
             && t.disk == Disk(File([Name(1), Name(2)], Clean), None, false, true)
    ensures FairRun(s, steps)
    ensures var t, u := After(s, before), After(s, steps);
            && d in u.containers && u.containers == t.containers[d := u.containers[d]] && u.containers[d].phase.Idle?
            && u.lost == t.lost && u.issued == t.issued
  {
    var t := Halted(After(s, before), d, 2, {});
    steps := Halt(s, before, d, 2, {});
    steps := UntracksSecond(s, steps, t, d);
  }

  lemma UntracksSecond(s: State, before: seq<Step>, t: State, d: nat) returns (steps: seq<Step>)
    requires FairRun(s, before) && After(s, before) == t
    requires d in t.containers && t.containers[d] == Started(2, {}).(phase := StopUntracking)
    requires t.disk == Disk(File([Name(1), Name(2)], Clean), None, false, true)
    ensures FairRun(s, steps)
    ensures var u := After(s, steps);
            && u.containers == t.containers[d := Started(2, {}).(phase := Idle)]
            && u.lost == t.lost && u.issued == t.issued
  {
    var truncated := t.(due := t.due - {2}, disk := Disk(NO_LINES, Some(Rewrite(2, [Name(1)])), false, true));
    assert Leads(t, Rewriting(d, Truncates), truncated) by { assert Rest(t.disk.sandboxes, 2) == [Name(1)]; }
    steps := Take(s, before, Rewriting(d, Truncates), truncated);
    steps := GoOn(s, steps, Stop(d, StopUntrack(Rewritten(PRUNED))));
    assert Held(truncated.containers[d]) == {};
  }

  /** start() failing in any other way, stop(), and a reuse create that fails: when one
      container's calls bring it from idle back to idle, the issued sets are what they were. */
  lemma {:induction false} IdleToIdleRestoresPorts(s: State, steps: seq<Step>, c: nat)
    requires PortInv(s) && IsRun(s, steps) && c in s.containers && s.containers[c].phase.Idle?
    requires forall step <- steps :: Mine(step, c) && !Leaks(step)
    requires c in After(s, steps).containers && After(s, steps).containers[c].phase.Idle?
    ensures After(s, steps).issued == s.issued
  {
    PortsConserved(s, steps);
    OnlyMineMoves(s, steps, c);
    var t := After(s, steps);
    assert AttemptsApart(s.containers[c]) && AttemptsApart(t.containers[c]);
    SameHeldSameIssued(s, t, c);
    SameHeldSameIssued(t, s, c);
  }

  lemma SameHeldSameIssued(s: State, t: State, c: nat)
    requires PortInv(s) && PortInv(t) && c in s.containers && s.containers.Keys == t.containers.Keys
    requires Held(s.containers[c]) == {}
    requires forall d | d in s.containers && d != c :: t.containers[d] == s.containers[d]
    requires s.lost == t.lost && s.retained == t.retained
    ensures s.issued <= t.issued
  {
    forall p | p in s.issued
      ensures p in t.issued
    {
      if p !in s.lost && p !in s.retained {
        var d :| d in s.containers && p in Held(s.containers[d]);
        assert Held(t.containers[d]) <= t.issued;
      }
    }
  }

  /** A call of container c that keeps no port beyond its end. */
  predicate Mine(step: Step, c: nat) {
    OfContainer(step) && step.c == c
    && (step.Reuse? ==> !step.reuse.ReuseRegistryFails? && !step.reuse.ReuseStop?)
  }

  lemma {:induction false} OnlyMineMoves(s: State, steps: seq<Step>, c: nat)
    requires IsRun(s, steps) && forall step <- steps :: Mine(step, c) && !Leaks(step)
    ensures var t := After(s, steps);
            && t.containers.Keys == s.containers.Keys && t.lost == s.lost && t.retained == s.retained
            && forall d | d in s.containers && d != c :: t.containers[d] == s.containers[d]
    decreases |steps|
  {
    if steps != [] {
      assert steps[0] in steps;
      StepIsLocal(s, steps[0]);
      OnlyMineMoves(Next(s, steps[0]), steps[1..], c);
    }
  }
}
