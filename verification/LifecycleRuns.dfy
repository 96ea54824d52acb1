/** Runs put together step by step, from which the exhibits are made. */
module LifecycleRuns {
  import opened LedgerDisk
  import opened Lifecycle
  import opened Options

  /** A removal takes effect, and a create that fails leaves no sandbox. */
  predicate Effective(step: Step) {
    && (step.Start? && step.start.Remove? ==> step.start.effective)
    && (step.Start? && step.start.CreateFails? ==> !step.start.made)
    && (step.Stop? && step.stop.StopRemove? ==> step.stop.effective)
    && (step.Checkpoint? && step.checkpoint.RestoreRemove? ==> step.checkpoint.effective)
  }

  ghost predicate RemovalsEffective(steps: seq<Step>) {
    forall step <- steps :: Effective(step)
  }

  /** A run from the beginning on which every removal took effect. */
  ghost predicate FairRun(s: State, steps: seq<Step>) {
    Initial(s) && IsRun(s, steps) && RemovalsEffective(steps)
  }

  /** Every read works, and so does every unlinking. */
  const PRUNED := Pruning(true, true, {RecordFile, SandboxesFile, NetworksFile})

  /** Nothing started yet, in a process of these containers. */
  function Fresh(containers: map<nat, Container>): State {
    State(containers, {}, {}, {}, {}, Disk(NO_LINES, None, false, true), {}, {}, {}, 0, 0)
  }

  lemma GoOn(s: State, before: seq<Step>, step: Step) returns (steps: seq<Step>)
    requires FairRun(s, before) && Enabled(After(s, before), step) && Effective(step)
    ensures FairRun(s, steps) && After(s, steps) == Next(After(s, before), step)
  {
    OneMore(s, before, step);
    steps := before + [step];
  }

  /** The container as its start leaves it. */
  function Started(n: nat, ports: set<Port>): Container {
    Container(Running, n, 0, Named(n), Named(n), ports, [])
  }

  /** The state with one container more under way, listed behind the others. */
  function Launched(t: State, c: nat, k: Container): State {
    var n := t.sequence + 1;
    t.(containers := t.containers[c := k], due := t.due + {n}, live := t.live + {n}, sequence := n,
       daemonIds := t.daemonIds + 1,
       disk := t.disk.(sandboxes := Appended(t.disk.sandboxes, n, Whole)))
  }

  /** The step is possible and leads from the one state to the other. */
  ghost predicate Leads(t: State, step: Step, u: State) {
    Enabled(t, step) && Next(t, step) == u && Effective(step)
  }

  lemma Take(s: State, before: seq<Step>, step: Step, u: State) returns (steps: seq<Step>)
    requires FairRun(s, before) && Leads(After(s, before), step, u)
    ensures FairRun(s, steps) && After(s, steps) == u
  {
    steps := GoOn(s, before, step);
  }

  function Minted(t: State, c: nat, ports: set<Port>): State {
    var n := t.sequence + 1;
    t.(containers := t.containers[c := IDLE.(phase := Tracking, name := n, ports := ports)], sequence := n)
  }

  lemma MintLeads(t: State, c: nat, ports: set<Port>)
    requires c in t.containers && t.containers[c] == IDLE.(phase := Allocating, ports := ports)
    ensures Leads(t, Start(c, MintName), Minted(t, c, ports))
  {}

  function Tracked(t: State, c: nat, n: nat, ports: set<Port>): State {
    t.(containers := t.containers[c := IDLE.(phase := Creating, name := n, ports := ports)], due := t.due + {n},
       disk := t.disk.(sandboxes := Appended(t.disk.sandboxes, n, Whole)))
  }

  lemma TrackLeads(t: State, c: nat, n: nat, ports: set<Port>)
    requires c in t.containers && t.containers[c] == IDLE.(phase := Tracking, name := n, ports := ports)
    requires t.disk.rewrite.None?
    ensures Leads(t, Start(c, Track), Tracked(t, c, n, ports))
  {}

  function Created(t: State, c: nat, n: nat, ports: set<Port>): State {
    t.(containers := t.containers[c := Started(n, ports).(phase := Booting, known := Named(0))],
       live := t.live + {n}, daemonIds := t.daemonIds + 1)
  }

  lemma CreateLeads(t: State, c: nat, n: nat, ports: set<Port>)
    requires c in t.containers && t.containers[c] == IDLE.(phase := Creating, name := n, ports := ports)
    ensures Leads(t, Start(c, Create(false)), Created(t, c, n, ports))
  {}

  lemma LaunchedSo(t: State, c: nat, ports: set<Port>)
    requires c in t.containers
    ensures var n := t.sequence + 1;
            && Created(Tracked(Minted(t, c, ports), c, n, ports), c, n, ports)
            == Launched(t, c, Started(n, ports).(phase := Booting, known := Named(0)))
  {}

  /** A container that has its ports is tracked and created. */
  lemma Launch(s: State, before: seq<Step>, c: nat, ports: set<Port>) returns (steps: seq<Step>)
    requires FairRun(s, before)
    requires var t := After(s, before);
             c in t.containers && t.containers[c] == IDLE.(phase := Allocating, ports := ports) && t.disk.rewrite.None?
    ensures FairRun(s, steps)
    ensures var t := After(s, before);
            After(s, steps) == Launched(t, c, Started(t.sequence + 1, ports).(phase := Booting, known := Named(0)))
  {
    var t := After(s, before);
    var n := t.sequence + 1;
    var t1 := Minted(t, c, ports);
    var t2 := Tracked(t1, c, n, ports);
    MintLeads(t, c, ports);
    steps := Take(s, before, Start(c, MintName), t1);
    TrackLeads(t1, c, n, ports);
    steps := Take(s, steps, Start(c, Track), t2);
    CreateLeads(t2, c, n, ports);
    steps := Take(s, steps, Start(c, Create(false)), Created(t2, c, n, ports));
    LaunchedSo(t, c, ports);
  }

  function Booted(t: State, c: nat, n: nat, ports: set<Port>): State {
    t.(containers := t.containers[c := Started(n, ports)], registered := t.registered + {Named(n)})
  }

  lemma BootLeads(t: State, c: nat, n: nat, ports: set<Port>)
    requires c in t.containers && t.containers[c] == Started(n, ports).(phase := Booting, known := Named(0))
    ensures Leads(t, Start(c, BootSucceeds), Booted(t, c, n, ports))
  {
    assert Quarantine(t.containers[c]) == {};
    assert t.issued - {} == t.issued;
  }

  /** And boots. */
  lemma Boot(s: State, before: seq<Step>, c: nat, ports: set<Port>) returns (steps: seq<Step>)
    requires FairRun(s, before)
    requires var t := After(s, before);
             c in t.containers && t.containers[c] == IDLE.(phase := Allocating, ports := ports) && t.disk.rewrite.None?
    ensures FairRun(s, steps)
    ensures var t := After(s, before);
            var n := t.sequence + 1;
            After(s, steps) == Launched(t, c, Started(n, ports)).(registered := t.registered + {Named(n)})
  {
    var t := After(s, before);
    var n := t.sequence + 1;
    var launched := Launched(t, c, Started(n, ports).(phase := Booting, known := Named(0)));
    steps := Launch(s, before, c, ports);
    BootLeads(launched, c, n, ports);
    steps := Take(s, steps, Start(c, BootSucceeds), Booted(launched, c, n, ports));
  }

  function Halted(t: State, c: nat, n: nat, ports: set<Port>): State {
    t.(containers := t.containers[c := Started(n, ports).(phase := StopUntracking)],
       live := t.live - {n}, registered := t.registered - {Named(n)})
  }

  lemma HaltLeads(t: State, c: nat, n: nat, ports: set<Port>)
    requires c in t.containers && t.containers[c] == Started(n, ports)
    ensures var stopping := Put(t, c, Started(n, ports).(phase := StopRemoving));
            Leads(t, Stop(c, BeginStop), stopping) && Leads(stopping, Stop(c, StopRemove(true)), Halted(t, c, n, ports))
  {}

  /** A running container's sandbox is removed, and its name is to be untracked. */
  lemma Halt(s: State, before: seq<Step>, c: nat, n: nat, ports: set<Port>) returns (steps: seq<Step>)
    requires FairRun(s, before)
    requires var t := After(s, before); c in t.containers && t.containers[c] == Started(n, ports)
    ensures FairRun(s, steps) && After(s, steps) == Halted(After(s, before), c, n, ports)
  {
    var t := After(s, before);
    HaltLeads(t, c, n, ports);
    steps := Take(s, before, Stop(c, BeginStop), Put(t, c, Started(n, ports).(phase := StopRemoving)));
    steps := Take(s, steps, Stop(c, StopRemove(true)), Halted(t, c, n, ports));
  }

  function Allocated(t: State, c: nat, ports: set<Port>): State {
    t.(containers := t.containers[c := IDLE.(phase := Allocating, ports := ports)], issued := t.issued + ports)
  }

  lemma BeginLeads(t: State, c: nat)
    requires c in t.containers && t.containers[c] == IDLE
    ensures Leads(t, Start(c, Begin), Allocated(t, c, {}))
  {
    assert t.issued + {} == t.issued;
  }

  lemma AllocateLeads(t: State, c: nat, port: Port)
    requires c in t.containers && t.containers[c] == IDLE.(phase := Allocating) && port !in t.issued
    ensures Leads(t, Start(c, Allocate(port)), Allocated(t, c, {port}))
  {
    assert {} + {port} == {port};
  }

  /** An idle container begins to start. */
  lemma Begun(s: State, before: seq<Step>, c: nat) returns (steps: seq<Step>)
    requires FairRun(s, before) && c in After(s, before).containers && After(s, before).containers[c] == IDLE
    ensures FairRun(s, steps) && After(s, steps) == Allocated(After(s, before), c, {})
  {
    BeginLeads(After(s, before), c);
    steps := Take(s, before, Start(c, Begin), Allocated(After(s, before), c, {}));
  }

  /** And allocates a port. */
  lemma BegunWith(s: State, before: seq<Step>, c: nat, port: Port) returns (steps: seq<Step>)
    requires FairRun(s, before) && c in After(s, before).containers && After(s, before).containers[c] == IDLE
    requires port !in After(s, before).issued
    ensures FairRun(s, steps) && After(s, steps) == Allocated(After(s, before), c, {port})
  {
    var t := After(s, before);
    var begun := Allocated(t, c, {});
    steps := Begun(s, before, c);
    AllocateLeads(begun, c, port);
    steps := Take(s, steps, Start(c, Allocate(port)), Allocated(begun, c, {port}));
    assert Allocated(begun, c, {port}) == Allocated(t, c, {port});
  }

  /** The state with the first container running, and the second not begun. */
  function OneRuns(c: nat, d: nat, ports: set<Port>): State {
    State(map[c := Started(1, ports), d := IDLE], ports, {}, {}, {1}, Disk(File([Name(1)], Clean), None, false, true),
          {1}, {}, {Named(1)}, 1, 1)
  }

  function TwoRun(c: nat, d: nat, ports: set<Port>): State {
    State(map[c := Started(1, ports), d := Started(2, {})], ports, {}, {}, {1, 2},
          Disk(File([Name(1), Name(2)], Clean), None, false, true), {1, 2}, {}, {Named(1), Named(2)}, 2, 2)
  }

  lemma FirstOfTwo(c: nat, d: nat, port: Port)
    requires c != d
    ensures var t := Allocated(Fresh(map[c := IDLE, d := IDLE]), c, {port});
            Launched(t, c, Started(1, {port})).(registered := t.registered + {Named(1)}) == OneRuns(c, d, {port})
  {
    var t := Allocated(Fresh(map[c := IDLE, d := IDLE]), c, {port});
    assert t.containers[c := Started(1, {port})] == OneRuns(c, d, {port}).containers;
    assert {} + {port} == {port} && {} + {1} == {1};
  }

  lemma SecondOfTwo(c: nat, d: nat, ports: set<Port>)
    requires c != d
    ensures var t := Allocated(OneRuns(c, d, ports), d, {});
            Launched(t, d, Started(2, {})).(registered := t.registered + {Named(2)}) == TwoRun(c, d, ports)
  {
    var t := Allocated(OneRuns(c, d, ports), d, {});
    assert t.containers[d := Started(2, {})] == TwoRun(c, d, ports).containers;
    assert ports + {} == ports && {1} + {2} == {1, 2};
  }

  lemma NothingYet(containers: map<nat, Container>)
    requires forall c | c in containers :: containers[c] == IDLE
    ensures FairRun(Fresh(containers), []) && After(Fresh(containers), []) == Fresh(containers)
  {}

  lemma FirstStarts(s: State, c: nat, d: nat, port: Port) returns (steps: seq<Step>)
    requires c != d && s == Fresh(map[c := IDLE, d := IDLE])
    ensures FairRun(s, steps) && After(s, steps) == OneRuns(c, d, {port})
  {
    NothingYet(s.containers);
    steps := BegunWith(s, [], c, port);
    steps := Boot(s, steps, c, {port});
    FirstOfTwo(c, d, port);
  }

  lemma SecondStarts(s: State, before: seq<Step>, c: nat, d: nat, ports: set<Port>) returns (steps: seq<Step>)
    requires c != d && FairRun(s, before) && After(s, before) == OneRuns(c, d, ports)
    ensures FairRun(s, steps) && After(s, steps) == TwoRun(c, d, ports)
  {
    steps := Begun(s, before, d);
    steps := Boot(s, steps, d, {});
    SecondOfTwo(c, d, ports);
  }

  /** Two containers that started one after the other, the first with a port. */
  lemma TwoStarted(c: nat, d: nat, port: Port) returns (s: State, steps: seq<Step>)
    requires c != d
    ensures FairRun(s, steps) && After(s, steps) == TwoRun(c, d, {port})
  {
    s := Fresh(map[c := IDLE, d := IDLE]);
    steps := FirstStarts(s, c, d, port);
    steps := SecondStarts(s, steps, c, d, {port});
  }
}
