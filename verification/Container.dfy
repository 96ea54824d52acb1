/** GenericContainer: start() with its attempts, stop(), and the stores both keep in step. */
module Container {
  import opened Options
  import opened LedgerLines
  import opened FreePorts
  import opened RunLedger
  import opened CleanupRegistry
  import opened SandboxNames
  import opened StartLimit

  /** Guest port to host port. */
  type PortMap = map<nat, nat>

  datatype PortAllocation = PortAllocation(tcp: PortMap, udp: PortMap)

  /** Host ports of both protocols. */
  datatype PortSets = PortSets(tcp: set<nat>, udp: set<nat>)

  const NO_HANDLE := Handle(Named(""), "")

  const NONE_LOST := PortSets({}, {})

  /** What the backend is asked about by id, and the ledger by the name in its spec. */
  datatype Handle = Handle(id: HandleId, name: string)

  /** How one attempt of the start loop ends. Threw: outside the part that cleans up. */
  datatype Outcome = Booted | Conflict | Failed | Threw

  datatype StartResult =
    | Started
    /** containerIsStarted() threw: the container is left running. */
    | HookThrew
    | NotReady
    | BootFailed
    | TooManyConflicts
    | LeftOver

  ghost predicate Injective(m: PortMap) {
    forall a, b | a in m && b in m && a != b :: m[a] != m[b]
  }

  ghost predicate HeldApart(ports: PortAllocation, lost: PortSets) {
    ports.tcp.Values !! lost.tcp && ports.udp.Values !! lost.udp
  }

  /** The attempts of one start never bind a host port twice. */
  ghost predicate TriesApart(tries: seq<PortSets>) {
    forall i, j | 0 <= i < j < |tries| :: tries[i].tcp !! tries[j].tcp && tries[i].udp !! tries[j].udp
  }

  /** The issued ports are those from before, those held and those lost, no port twice. */
  ghost predicate Parted(issued: set<nat>, before: set<nat>, held: set<nat>, lost: set<nat>) {
    issued == before + held + lost && held !! lost && (held + lost) !! before
  }

  ghost predicate Quarantined(tries: seq<PortSets>, conflicted: PortSets) {
    forall t <- tries :: t.tcp <= conflicted.tcp && t.udp <= conflicted.udp
  }

  /** The accounts of one start: the ports in quarantine, those the booted sandbox holds, those
      lost, and for each attempt what it bound and how it ended. */
  datatype Books = Books(conflicted: PortSets, held: PortSets, lost: PortSets, tries: seq<PortSets>,
                         outcomes: seq<Outcome>)

  /** Conflicts are retried, up to the limit, and nothing else is. */
  ghost predicate Persistent(outcomes: seq<Outcome>) {
    && 0 < |outcomes| <= MAX_START_ATTEMPTS
    && (forall i | 0 <= i < |outcomes| - 1 :: outcomes[i].Conflict?)
    && (outcomes[|outcomes| - 1].Conflict? ==> |outcomes| == MAX_START_ATTEMPTS)
  }

  /** An attempt's outcome is the backend's answer, unless the attempt threw before the backend
      was asked, or cleaning up after a failure. */
  ghost predicate Answered(before: seq<Outcome>, outcome: Outcome, after: seq<Outcome>) {
    if outcome.Threw? then after == before || after == before + [Conflict] || after == before + [Failed]
    else after == before + [outcome]
  }

  /** The same of every attempt, of which only the last may have thrown. */
  ghost predicate AllAnswered(before: seq<Outcome>, outcomes: seq<Outcome>, after: seq<Outcome>) {
    if outcomes == [] then after == before
    else Answered(before + outcomes[..|outcomes| - 1], outcomes[|outcomes| - 1], after)
  }

  lemma AnswersTurn(before: seq<Outcome>, outcomes: seq<Outcome>, between: seq<Outcome>, outcome: Outcome,
                    after: seq<Outcome>)
    requires AllAnswered(before, outcomes, between) && Answered(between, outcome, after)
    requires outcomes != [] ==> !outcomes[|outcomes| - 1].Threw?
    ensures AllAnswered(before, outcomes + [outcome], after)
  {
    var all := outcomes + [outcome];
    assert all[..|all| - 1] == outcomes;
    if outcomes != [] { assert outcomes[..|outcomes| - 1] + [outcomes[|outcomes| - 1]] == outcomes; }
    assert before + outcomes == between;
  }

  /** The accounts of so many attempts, all but the last of which met a conflict. */
  ghost predicate Tallied(b: Books, outcome: Outcome, attempts: nat) {
    && |b.tries| == |b.outcomes| == attempts
    && (attempts > 0 ==> b.outcomes[attempts - 1] == outcome)
    && (forall i | 0 <= i < attempts - 1 :: b.outcomes[i].Conflict?)
  }

  lemma TallyTurn(b: Books, attempts: nat, outcome: Outcome, bound: PortSets, leaked: PortSets,
                  before: seq<Outcome>, between: seq<Outcome>, after: seq<Outcome>)
    requires Tallied(b, Conflict, attempts)
    requires AllAnswered(before, b.outcomes, between) && Answered(between, outcome, after)
    ensures Tallied(Turn(b, outcome, bound, leaked), outcome, attempts + 1)
    ensures AllAnswered(before, Turn(b, outcome, bound, leaked).outcomes, after)
  {
    AnswersTurn(before, b.outcomes, between, outcome, after);
  }

  ghost predicate Balanced(b: Books, tcp: set<nat>, udp: set<nat>, tcpBefore: set<nat>, udpBefore: set<nat>) {
    && Parted(tcp, tcpBefore, b.conflicted.tcp + b.held.tcp, b.lost.tcp) && b.conflicted.tcp !! b.held.tcp
    && Parted(udp, udpBefore, b.conflicted.udp + b.held.udp, b.lost.udp) && b.conflicted.udp !! b.held.udp
    && TriesApart(b.tries)
  }

  ghost function Bindings(ports: PortAllocation): PortSets {
    PortSets(ports.tcp.Values, ports.udp.Values)
  }

  ghost function Plus(a: PortSets, b: PortSets): PortSets {
    PortSets(a.tcp + b.tcp, a.udp + b.udp)
  }

  /** The accounts after one more attempt. */
  ghost function Turn(b: Books, outcome: Outcome, bound: PortSets, leaked: PortSets): Books {
    Books(if outcome.Conflict? then Plus(b.conflicted, bound) else b.conflicted,
          if outcome.Booted? then bound else b.held,
          Plus(b.lost, leaked),
          b.tries + [bound],
          b.outcomes + [outcome])
  }

  lemma BooksTurn(b: Books, outcome: Outcome, bound: PortSets, leaked: PortSets,
                  tcp: set<nat>, udp: set<nat>, tcpBetween: set<nat>, udpBetween: set<nat>,
                  tcpBefore: set<nat>, udpBefore: set<nat>)
    requires Balanced(b, tcpBetween, udpBetween, tcpBefore, udpBefore)
    requires b.held == NONE_LOST && Quarantined(b.tries, b.conflicted)
    requires bound.tcp !! tcpBetween && bound.udp !! udpBetween
    requires var held := if outcome.Booted? || outcome.Conflict? then bound else NONE_LOST;
             Parted(tcp, tcpBetween, held.tcp, leaked.tcp) && Parted(udp, udpBetween, held.udp, leaked.udp)
    ensures Balanced(Turn(b, outcome, bound, leaked), tcp, udp, tcpBefore, udpBefore)
    ensures outcome.Conflict? ==> Quarantined(b.tries + [bound], Plus(b.conflicted, bound))
  {
    forall i | 0 <= i < |b.tries|
      ensures b.tries[i].tcp <= b.conflicted.tcp && b.tries[i].udp <= b.conflicted.udp
    {
      assert b.tries[i] in b.tries;
    }
  }

  lemma Overwritten(m: PortMap, guest: nat, host: nat)
    requires Injective(m) && host !in m.Values
    ensures Injective(m[guest := host])
    ensures m[guest := host].Values == (if guest in m then m.Values - {m[guest]} else m.Values) + {host}
  {
    var m' := m[guest := host];
    assert host == m'[guest];
    forall v | v in m.Values && !(guest in m && v == m[guest])
      ensures v in m'.Values
    {
      var g :| g in m && m[g] == v;
      assert m'[g] == v;
    }
  }

  /** allocatePorts for one protocol. A guest port exposed twice overwrites its map entry, and
      the host port it had stays issued with nobody to release it: the ports lost so. */
  method AllocateAll(pool: Pool, exposed: seq<nat>) returns (ports: Option<PortMap>, ghost lost: set<nat>)
    modifies pool
    ensures lost !! old(pool.issued) && pool.failures == old(pool.failures) + (if ports.None? then 1 else 0)
    ensures ports.None? ==> pool.issued == old(pool.issued) + lost
    ensures ports.Some? ==>
              && ports.value.Keys == (set guest | guest in exposed) && Injective(ports.value)
              && ports.value.Values !! old(pool.issued) && ports.value.Values !! lost
              && pool.issued == old(pool.issued) + ports.value.Values + lost
              && (lost == {} <==> Distinct(exposed))
  {
    var m: PortMap := map[];
    lost := {};
    var i := 0;
    while i < |exposed|
      invariant 0 <= i <= |exposed|
      invariant m.Keys == set guest | guest in exposed[..i]
      invariant Injective(m) && m.Values !! old(pool.issued) && m.Values !! lost && lost !! old(pool.issued)
      invariant pool.issued == old(pool.issued) + m.Values + lost && pool.failures == old(pool.failures)
      invariant lost == {} <==> Distinct(exposed[..i])
    {
      var picks: Picks :| true;
      var host := pool.Allocate(picks);
      if host.None? {
        lost := lost + m.Values;
        return None, lost;
      }
      var guest := exposed[i];
      assert exposed[..i + 1] == exposed[..i] + [guest];
      assert guest in m <==> guest in exposed[..i];
      Overwritten(m, guest, host.value);
      if guest in m {
        lost := lost + {m[guest]};
        var j :| 0 <= j < i && exposed[j] == guest;
        assert exposed[..i + 1][j] == exposed[..i + 1][i];
      } else {
        assert Distinct(exposed[..i]) ==> Distinct(exposed[..i + 1]);
        assert Distinct(exposed[..i + 1]) ==> Distinct(exposed[..i]) by {
          assert forall k | 0 <= k < i :: exposed[..i + 1][k] == exposed[..i][k];
        }
      }
      m := m[guest := host.value];
      i := i + 1;
    }
    assert exposed[..i] == exposed;
    ports := Some(m);
  }

  /** The sandboxes that exist: live are those somebody still answers for, stray those whose
      removal failed unnoticed. */
  class Backend {
    var live: set<string>
    var stray: set<string>
    /** Whether the daemon assigns the ids, as docker's does, and how many it has assigned. */
    const daemon: bool
    var daemonIds: nat
    /** What it answered for each sandbox it was to make: create(), or start() once that worked. */
    ghost var answers: seq<Outcome>

    constructor (daemon: bool)
      ensures live == {} && stray == {} && this.daemon == daemon && daemonIds == 0 && answers == []
    {
      live, stray, daemonIds, answers := {}, {}, 0, [];
      this.daemon := daemon;
    }

    /** create(): one that fails may leave a sandbox of which nobody has the handle. */
    method Create(name: string) returns (outcome: Outcome, id: HandleId)
      modifies this`live, this`stray, this`daemonIds, this`answers
      ensures outcome != Threw && daemonIds == old(daemonIds) + 1 && answers == old(answers) + [outcome]
      ensures id == if daemon then Assigned(daemonIds) else Named(name)
      ensures live == if outcome.Booted? then old(live) + {name} else old(live)
      ensures stray == old(stray) || (stray == old(stray) + {name} && !outcome.Booted?)
    {
      outcome :| outcome != Threw;
      answers := answers + [outcome];
      daemonIds := daemonIds + 1;
      id := if daemon then Assigned(daemonIds) else Named(name);
      if outcome == Booted {
        live := live + {name};
      } else {
        var made := *;
        if made {
          stray := stray + {name};
        }
      }
    }

    /** start(): boots what create() made. */
    method Boot(name: string) returns (outcome: Outcome)
      requires answers != []
      modifies this`answers
      ensures outcome != Threw && answers == old(answers)[..|old(answers)| - 1] + [outcome]
    {
      outcome :| outcome != Threw;
      answers := answers[..|answers| - 1] + [outcome];
    }

    /** stop() then remove(), both swallowed. */
    method TearDown(name: string)
      modifies this`live, this`stray
      ensures live == old(live) - {name}
      ensures stray == old(stray) || (stray == old(stray) + {name} && name in old(live))
    {
      var removed := *;
      if !removed && name in live {
        stray := stray + {name};
      }
      live := live - {name};
    }
  }

  class GenericContainer {
    const exposedPorts: seq<nat>
    const exposedUdpPorts: seq<nat>
    const tcp: Pool
    const udp: Pool
    const ledger: RunLedger
    const cleanup: CleanupRegistry
    const backend: Backend
    const names: SandboxNames
    var running: bool
    var handle: Handle
    var mappedPorts: PortMap
    var mappedUdpPorts: PortMap
    /** How often building a spec threw. */
    ghost var specFailures: nat

    /** How often an attempt was given up before the backend was asked, the ledger's faults aside. */
    ghost function Interruptions(): nat
      reads this, tcp, udp
    {
      tcp.failures + udp.failures + specFailures
    }

    ghost predicate Valid()
      reads ledger, cleanup, names, backend
    {
      && tcp != udp
      && ledger.Valid() && cleanup.Valid() && names.Valid()
      && AllKnown()
    }

    /** Every name in some store was minted, or was there from the beginning; but what the
        ledger holds after one of its files failed is anybody's guess. */
    ghost predicate AllKnown()
      reads ledger, cleanup, names, backend
    {
      && (ledger.faults == 0 ==> forall name <- ledger.sandboxNames :: name in names.known)
      && (forall id <- cleanup.ids :: IsKnown(id))
      && backend.live <= names.known && backend.stray <= names.known
    }

    ghost predicate IsKnown(id: HandleId)
      reads names, backend
    {
      match id
      case Named(name) => name in names.known
      case Assigned(number) => number <= backend.daemonIds
    }

    constructor (exposedPorts: seq<nat>, exposedUdpPorts: seq<nat>, tcp: Pool, udp: Pool, ledger: RunLedger,
                 cleanup: CleanupRegistry, backend: Backend, names: SandboxNames)
      requires tcp != udp && ledger.Valid() && cleanup.Valid() && names.Valid()
      requires ledger.faults == 0 ==> forall name <- ledger.sandboxNames :: name in names.known
      requires forall id <- cleanup.ids :: if id.Named? then id.name in names.known else id.number <= backend.daemonIds
      requires backend.live <= names.known && backend.stray <= names.known
      ensures Valid() && !running
      ensures this.exposedPorts == exposedPorts && this.exposedUdpPorts == exposedUdpPorts
    {
      this.exposedPorts, this.exposedUdpPorts := exposedPorts, exposedUdpPorts;
      this.tcp, this.udp, this.ledger, this.cleanup := tcp, udp, ledger, cleanup;
      this.backend, this.names := backend, names;
      running, handle, mappedPorts, mappedUdpPorts, specFailures := false, NO_HANDLE, map[], map[], 0;
    }

    /** The run record goes exactly when an untracking leaves nothing listed. */
    twostate predicate RecordKept()
      reads ledger
    {
      || ledger.faults > 0
      || ledger.record == old(ledger.record)
      || (ledger.record == None && old(ledger.sandboxNames) == [] && ledger.networkIds == [])
    }

    twostate predicate NetworksKept()
      reads ledger
    {
      ledger.faults >= old(ledger.faults) && (ledger.faults == 0 ==> ledger.networkIds == old(ledger.networkIds))
    }

    /** create() and start() of the backend, and the clean-up if either throws. Threw: the
        clean-up itself threw, at the ledger, which it can only where others are listed. */
    method BootOrCleanUp(name: string, ghost lines: seq<string>) returns (outcome: Outcome, id: HandleId)
      requires ledger.Valid() && name !in backend.live
      requires ledger.faults == 0 ==> ledger.sandboxNames == lines + [name] && name !in lines
      modifies ledger, backend
      ensures ledger.Valid() && ledger.faults >= old(ledger.faults)
      ensures ledger.faults == 0 ==>
                && !outcome.Threw? && ledger.networkIds == old(ledger.networkIds)
                && ledger.sandboxNames == (if outcome.Booted? then lines + [name] else lines)
                && ledger.record == (if !outcome.Booted? && ledger.sandboxNames == [] && ledger.networkIds == []
                                     then None else old(ledger.record))
      ensures outcome.Threw? ==>
                RemoveFirst(old(ledger.sandboxNames), name) != [] && ledger.faults > old(ledger.faults)
      ensures backend.live == old(backend.live) + (if outcome.Booted? then {name} else {})
      ensures backend.stray <= old(backend.stray) + {name}
      ensures backend.daemonIds == old(backend.daemonIds) + 1
      ensures id == if backend.daemon then Assigned(backend.daemonIds) else Named(name)
      ensures Answered(old(backend.answers), outcome, backend.answers)
    {
      outcome, id := backend.Create(name);
      if outcome.Booted? {
        outcome := backend.Boot(name);
        assert backend.answers == old(backend.answers) + [outcome];
        if outcome.Booted? {
          return;
        }
        backend.TearDown(name);
      }
      assert backend.answers == old(backend.answers) + [outcome];
      var ok := ledger.RemoveSandboxName(name);
      if ledger.faults == 0 { UntrackUndoesTrack(lines, name); }
      if !ok {
        outcome := Threw;
      }
    }

    method AllocatePorts() returns (ports: Option<PortAllocation>, ghost lost: PortSets)
      requires tcp != udp
      modifies tcp, udp
      ensures lost.tcp !! old(tcp.issued) && lost.udp !! old(udp.issued)
      ensures tcp.failures + udp.failures == old(tcp.failures) + old(udp.failures) + (if ports.None? then 1 else 0)
      ensures ports.None? ==> tcp.issued == old(tcp.issued) + lost.tcp && udp.issued == old(udp.issued) + lost.udp
      ensures ports.Some? ==> Bound(ports.value) && HeldApart(ports.value, lost)
      ensures ports.Some? ==>
                && tcp.issued == old(tcp.issued) + ports.value.tcp.Values + lost.tcp
                && udp.issued == old(udp.issued) + ports.value.udp.Values + lost.udp
                && ports.value.tcp.Values !! old(tcp.issued) && ports.value.udp.Values !! old(udp.issued)
                && (lost == NONE_LOST <==> Distinct(exposedPorts) && Distinct(exposedUdpPorts))
    {
      var mapped, lostTcp := AllocateAll(tcp, exposedPorts);
      if mapped.None? {
        return None, PortSets(lostTcp, {});
      }
      var mappedUdp, lostUdp := AllocateAll(udp, exposedUdpPorts);
      if mappedUdp.None? {
        return None, PortSets(lostTcp + mapped.value.Values, lostUdp);
      }
      ports, lost := Some(PortAllocation(mapped.value, mappedUdp.value)), PortSets(lostTcp, lostUdp);
    }

    /** Both maps name every exposed guest port, each with a host port of its own. */
    ghost predicate Bound(ports: PortAllocation) {
      && ports.tcp.Keys == (set guest | guest in exposedPorts) && Injective(ports.tcp)
      && ports.udp.Keys == (set guest | guest in exposedUdpPorts) && Injective(ports.udp)
    }

    method ReleasePorts(ports: PortAllocation)
      requires tcp != udp
      modifies tcp`issued, udp`issued
      ensures tcp.issued == old(tcp.issued) - ports.tcp.Values && udp.issued == old(udp.issued) - ports.udp.Values
    {
      tcp.ReleaseAll(ports.tcp.Values);
      udp.ReleaseAll(ports.udp.Values);
    }

    /** A fresh name and the spec it goes into, unless that cannot be built. */
    method NextSpec() returns (name: string, ok: bool)
      requires Valid()
      modifies this`specFailures, names
      ensures Valid() && Nameable(name)
      ensures name !in old(names.known) && names.known == old(names.known) + {name}
      ensures specFailures == old(specFailures) + (if ok then 0 else 1)
    {
      name := names.NextSandboxName();
      ok := *;
      specFailures := if ok then specFailures else specFailures + 1;
    }

    /** The part of an attempt between the ports and the verdict: a fresh name, the spec, the
        ledger line, the sandbox. */
    method TrackAndBoot() returns (outcome: Outcome, handle: Handle)
      requires Valid()
      modifies this`specFailures, ledger, backend, names
      ensures Valid() && ledger.faults >= old(ledger.faults)
      ensures specFailures >= old(specFailures) && (specFailures > old(specFailures) ==> outcome.Threw?)
      ensures outcome.Threw? ==> specFailures > old(specFailures) || ledger.faults > old(ledger.faults)
      ensures handle.id !in cleanup.ids && handle.name !in old(backend.live) && (outcome.Booted? ==> IsKnown(handle.id))
      ensures ledger.faults == 0 ==>
                && handle.name !in old(ledger.sandboxNames) && ledger.networkIds == old(ledger.networkIds)
                && ledger.sandboxNames == old(ledger.sandboxNames) + (if outcome.Booted? then [handle.name] else [])
      ensures RecordKept()
      ensures backend.live == old(backend.live) + (if outcome.Booted? then {handle.name} else {})
      ensures Answered(old(backend.answers), outcome, backend.answers)
    {
      var name, ok := NextSpec();
      outcome, handle := Threw, Handle(Named(name), name);
      if ok {
        ok := ledger.AppendSandboxName(name);
      }
      if ok {
        var id;
        outcome, id := BootOrCleanUp(name, old(ledger.sandboxNames));
        handle := Handle(id, name);
      }
    }

    /** The ledger and the sandboxes after an attempt that began with those lines and sandboxes. */
    ghost predicate Settled(outcome: Outcome, handle: Handle, lines: seq<string>, sandboxes: set<string>)
      reads ledger, cleanup, backend, names
    {
      && backend.live == sandboxes + (if outcome.Booted? then {handle.name} else {})
      && (outcome.Booted? ==> handle.id !in cleanup.ids && handle.name !in sandboxes && IsKnown(handle.id))
      && (ledger.faults == 0 ==>
            if outcome.Booted? then ledger.sandboxNames == lines + [handle.name] && handle.name !in lines
            else ledger.sandboxNames == lines)
    }

    /** What interrupts an attempt makes it throw, and nothing else does but a fault of the
        ledger's. */
    twostate predicate ThrewFor(outcome: Outcome)
      reads this, tcp, udp, ledger
    {
      && Interruptions() >= old(Interruptions()) && (Interruptions() > old(Interruptions()) ==> outcome.Threw?)
      && (outcome.Threw? ==> Interruptions() > old(Interruptions()) || ledger.faults > old(ledger.faults))
    }

    /** One turn of start()'s loop: bound are its host ports, held those it leaves with its
        caller, leaked those it leaves with nobody. */
    method Attempt() returns (outcome: Outcome, handle: Handle, ports: PortAllocation,
                              ghost bound: PortSets, ghost held: PortSets, ghost leaked: PortSets)
      requires Valid()
      modifies this`specFailures, tcp, udp, ledger, backend, names
      ensures Valid() && NetworksKept() && RecordKept()
      ensures Parted(tcp.issued, old(tcp.issued), held.tcp, leaked.tcp)
      ensures Parted(udp.issued, old(udp.issued), held.udp, leaked.udp)
      ensures bound.tcp !! old(tcp.issued) && bound.udp !! old(udp.issued)
      ensures held == if outcome.Booted? || outcome.Conflict? then bound else NONE_LOST
      ensures outcome.Booted? ==> Bound(ports)
      ensures outcome.Booted? || outcome.Conflict? ==> bound == Bindings(ports)
      ensures !outcome.Threw? ==> (leaked == NONE_LOST <==> Distinct(exposedPorts) && Distinct(exposedUdpPorts))
      ensures Settled(outcome, handle, old(ledger.sandboxNames), old(backend.live))
      ensures Answered(old(backend.answers), outcome, backend.answers)
      ensures ThrewFor(outcome)
    {
      outcome, handle, ports := Threw, NO_HANDLE, PortAllocation(map[], map[]);
      bound, held := NONE_LOST, NONE_LOST;
      var allocation;
      allocation, leaked := AllocatePorts();
      if allocation.None? {
        return;
      }
      ports := allocation.value;
      bound := Bindings(ports);
      outcome, handle := TrackAndBoot();
      match outcome {
        case Booted => held := bound;
        case Conflict => held := bound;
        case Failed => ReleasePorts(ports);
        case Threw => leaked := PortSets(leaked.tcp + bound.tcp, leaked.udp + bound.udp);
      }
    }

    /** One more attempt, entered in the accounts. */
    method AttemptEntered(ghost before: Books, attempts: nat, ghost answers: seq<Outcome>,
                          ghost tcpBefore: set<nat>, ghost udpBefore: set<nat>)
      returns (outcome: Outcome, handle: Handle, ports: PortAllocation, ghost books: Books)
      requires Valid() && Tallied(before, Conflict, attempts) && AllAnswered(answers, before.outcomes, backend.answers)
      requires Balanced(before, tcp.issued, udp.issued, tcpBefore, udpBefore)
      requires before.held == NONE_LOST && Quarantined(before.tries, before.conflicted)
      requires attempts == 0 || (before.lost == NONE_LOST <==> Distinct(exposedPorts) && Distinct(exposedUdpPorts))
      requires attempts == 0 ==> before.lost == NONE_LOST
      modifies this`specFailures, tcp, udp, ledger, backend, names
      ensures Valid() && NetworksKept() && RecordKept()
      ensures Tallied(books, outcome, attempts + 1) && AllAnswered(answers, books.outcomes, backend.answers)
      ensures Balanced(books, tcp.issued, udp.issued, tcpBefore, udpBefore)
      ensures Verdict(outcome, ports, books)
      ensures books.conflicted == (if outcome.Conflict? then Plus(before.conflicted, Bindings(ports))
                                   else before.conflicted)
      ensures outcome.Conflict? ==> Quarantined(books.tries, books.conflicted)
      ensures Settled(outcome, handle, old(ledger.sandboxNames), old(backend.live)) && ThrewFor(outcome)
    {
      ghost var bound, got, leaked;
      outcome, handle, ports, bound, got, leaked := Attempt();
      books := Turn(before, outcome, bound, leaked);
      BooksTurn(before, outcome, bound, leaked, tcp.issued, udp.issued, old(tcp.issued), old(udp.issued),
                tcpBefore, udpBefore);
      TallyTurn(before, attempts, outcome, bound, leaked, answers, old(backend.answers), backend.answers);
    }

    /** start()'s loop: at most five attempts. Every port that met a conflict stays issued, so
        that no later attempt - and nobody else - is handed it. */
    method AttemptUntilBooted() returns (outcome: Outcome, handle: Handle, ports: PortAllocation, conflicted: PortSets,
                                         ghost books: Books)
      requires Valid()
      modifies this`specFailures, tcp, udp, ledger, backend, names
      ensures Valid() && NetworksKept() && RecordKept()
      ensures Ended(outcome, books)
      ensures Balanced(books, tcp.issued, udp.issued, old(tcp.issued), old(udp.issued))
      ensures conflicted == books.conflicted
      ensures Verdict(outcome, ports, books)
      ensures Settled(outcome, handle, old(ledger.sandboxNames), old(backend.live))
      ensures AllAnswered(old(backend.answers), books.outcomes, backend.answers) && ThrewFor(outcome)
    {
      conflicted, books := NONE_LOST, Books(NONE_LOST, NONE_LOST, NONE_LOST, [], []);
      outcome, handle, ports := Conflict, NO_HANDLE, PortAllocation(map[], map[]);
      var attempt := 0;
      while attempt < MAX_START_ATTEMPTS && outcome.Conflict?
        invariant 0 <= attempt <= MAX_START_ATTEMPTS && Tallied(books, outcome, attempt)
        invariant Valid() && NetworksKept() && RecordKept()
        invariant Balanced(books, tcp.issued, udp.issued, old(tcp.issued), old(udp.issued))
        invariant conflicted == books.conflicted
        invariant if attempt == 0 then outcome.Conflict? && books.lost == NONE_LOST && books.held == NONE_LOST
                  else Verdict(outcome, ports, books)
        invariant outcome.Conflict? ==> Quarantined(books.tries, conflicted)
        invariant Settled(outcome, handle, old(ledger.sandboxNames), old(backend.live))
        invariant AllAnswered(old(backend.answers), books.outcomes, backend.answers) && ThrewFor(outcome)
      {
        outcome, handle, ports, books :=
          AttemptEntered(books, attempt, old(backend.answers), old(tcp.issued), old(udp.issued));
        if outcome.Conflict? {
          conflicted := PortSets(conflicted.tcp + ports.tcp.Values, conflicted.udp + ports.udp.Values);
        }
        attempt := attempt + 1;
      }
    }

    /** What the last attempt says about its ports, and whether any port was lost. */
    ghost predicate Verdict(outcome: Outcome, ports: PortAllocation, books: Books) {
      && (if outcome.Booted? then Bound(ports) && books.held == Bindings(ports)
          else books.held == NONE_LOST)
      && (!outcome.Threw? ==> (books.lost == NONE_LOST <==> Distinct(exposedPorts) && Distinct(exposedUdpPorts)))
    }

    /** One account per attempt, of which the last ended like this. */
    ghost predicate Ended(outcome: Outcome, books: Books) {
      && |books.tries| == |books.outcomes| && Persistent(books.outcomes)
      && books.outcomes[|books.outcomes| - 1] == outcome
    }

    /** The loop, and the quarantine's end however the loop was left. */
    method BootWithRetries() returns (outcome: Outcome, handle: Handle, ports: PortAllocation, ghost books: Books)
      requires Valid()
      modifies this`specFailures, tcp, udp, ledger, backend, names
      ensures Valid() && NetworksKept() && RecordKept()
      ensures Ended(outcome, books) && TriesApart(books.tries)
      ensures Parted(tcp.issued, old(tcp.issued), books.held.tcp, books.lost.tcp)
      ensures Parted(udp.issued, old(udp.issued), books.held.udp, books.lost.udp)
      ensures Verdict(outcome, ports, books)
      ensures Settled(outcome, handle, old(ledger.sandboxNames), old(backend.live))
      ensures AllAnswered(old(backend.answers), books.outcomes, backend.answers) && ThrewFor(outcome)
    {
      var conflicted;
      outcome, handle, ports, conflicted, books := AttemptUntilBooted();
      tcp.ReleaseAll(conflicted.tcp);
      udp.ReleaseAll(conflicted.udp);
    }

    /** The sandbox goes, then its registration, then its line. */
    method RemoveAndUntrack() returns (ok: bool)
      requires Valid()
      modifies ledger, cleanup, backend`live, backend`stray
      ensures Valid() && NetworksKept()
      ensures cleanup.ids == RemoveFirst(old(cleanup.ids), handle.id)
      ensures backend.live == old(backend.live) - {handle.name}
      ensures ledger.faults == 0 ==>
                && ok && ledger.sandboxNames == RemoveFirst(old(ledger.sandboxNames), handle.name)
                && ledger.record == (if ledger.sandboxNames == [] && ledger.networkIds == [] then None
                                     else old(ledger.record))
      ensures !ok ==> RemoveFirst(old(ledger.sandboxNames), handle.name) != [] && ledger.record == old(ledger.record)
    {
      backend.TearDown(handle.name);
      cleanup.Unregister(handle.id);
      ok := ledger.RemoveSandboxName(handle.name);
      RemoveFirstKeepsMembers(old(ledger.sandboxNames), handle.name);
      RemoveFirstKeepsMembers(old(cleanup.ids), handle.id);
    }

    /** stop(), teardown included. Not ok: untracking threw, which it can only where others are
        listed, and the ports stay issued. */
    method Stop() returns (ok: bool)
      requires Valid()
      modifies this`running, this`mappedPorts, this`mappedUdpPorts, tcp`issued, udp`issued, ledger, cleanup,
               backend`live, backend`stray
      ensures Valid() && !running && NetworksKept()
      ensures old(!running) ==> ok && unchanged(this, tcp, udp, ledger, cleanup, backend)
      ensures old(running) ==>
                && cleanup.ids == RemoveFirst(old(cleanup.ids), old(handle.id))
                && backend.live == old(backend.live) - {old(handle.name)}
      ensures old(running) && ledger.faults == 0 ==>
                && ok && ledger.sandboxNames == RemoveFirst(old(ledger.sandboxNames), old(handle.name))
                && ledger.record == (if ledger.sandboxNames == [] && ledger.networkIds == [] then None
                                     else old(ledger.record))
      ensures old(running) && ok ==>
                && tcp.issued == old(tcp.issued) - old(mappedPorts.Values)
                && udp.issued == old(udp.issued) - old(mappedUdpPorts.Values)
                && mappedPorts == map[] && mappedUdpPorts == map[]
      ensures old(running) && !ok ==>
                && RemoveFirst(old(ledger.sandboxNames), old(handle.name)) != [] && ledger.record == old(ledger.record)
                && tcp.issued == old(tcp.issued) && udp.issued == old(udp.issued)
    {
      if !running {
        return true;
      }
      running := false;
      ok := RemoveAndUntrack();
      if ok {
        ReleasePorts(PortAllocation(mappedPorts, mappedUdpPorts));
        mappedPorts, mappedUdpPorts := map[], map[];
      }
    }

    /** What start() leaves of the stores, given how they were before it. */
    ghost predicate StartedFrom(lines: seq<string>, ids: seq<HandleId>, sandboxes: set<string>)
      reads this, ledger, cleanup, backend
    {
      && running && handle.id !in ids && handle.name !in sandboxes
      && (ledger.faults == 0 ==> handle.name !in lines && ledger.sandboxNames == lines + [handle.name])
      && cleanup.ids == ids + [handle.id]
      && backend.live == sandboxes + {handle.name}
      && Bound(PortAllocation(mappedPorts, mappedUdpPorts))
    }

    /** The guard fields and the cleanup registration. */
    method TakeUp(booted: Handle, ports: PortAllocation, ghost lines: seq<string>, ghost sandboxes: set<string>)
      requires Valid() && Bound(ports)
      requires booted.id !in cleanup.ids && booted.name !in sandboxes && IsKnown(booted.id)
      requires ledger.faults == 0 ==> booted.name !in lines && ledger.sandboxNames == lines + [booted.name]
      requires backend.live == sandboxes + {booted.name}
      modifies this`running, this`handle, this`mappedPorts, this`mappedUdpPorts, cleanup
      ensures Valid() && StartedFrom(lines, old(cleanup.ids), sandboxes)
      ensures mappedPorts == ports.tcp && mappedUdpPorts == ports.udp
    {
      handle, running, mappedPorts, mappedUdpPorts := booted, true, ports.tcp, ports.udp;
      cleanup.Register(handle.id);
    }

    /** stop() after a start: nothing of the start is left, unless the ledger fails it. */
    method StopStarted(ghost lines: seq<string>, ghost ids: seq<HandleId>, ghost sandboxes: set<string>)
      returns (ok: bool)
      requires Valid() && StartedFrom(lines, ids, sandboxes)
      modifies this`running, this`mappedPorts, this`mappedUdpPorts, tcp`issued, udp`issued, ledger, cleanup,
               backend`live, backend`stray
      ensures Valid() && NetworksKept() && !running && cleanup.ids == ids && backend.live == sandboxes
      ensures ledger.faults == 0 ==> ok && ledger.sandboxNames == lines
      ensures tcp.issued == if ok then old(tcp.issued) - old(mappedPorts.Values) else old(tcp.issued)
      ensures udp.issued == if ok then old(udp.issued) - old(mappedUdpPorts.Values) else old(udp.issued)
    {
      if ledger.faults == 0 { UntrackUndoesTrack(lines, handle.name); }
      UntrackUndoesTrack(ids, handle.id);
      ok := Stop();
    }

    /** From the boot to start()'s answer: the guard fields, the cleanup registration, readiness
        and the hook. A container that never becomes ready is stopped. */
    method Settle(booted: Handle, ports: PortAllocation, ghost lines: seq<string>, ghost ids: seq<HandleId>,
                  ghost sandboxes: set<string>, ready: bool, hookThrows: bool) returns (result: StartResult)
      requires Valid() && !running && Bound(ports)
      requires booted.id !in ids && booted.name !in sandboxes && IsKnown(booted.id)
      requires ledger.faults == 0 ==> booted.name !in lines && ledger.sandboxNames == lines + [booted.name]
      requires cleanup.ids == ids && backend.live == sandboxes + {booted.name}
      modifies this`running, this`handle, this`mappedPorts, this`mappedUdpPorts, tcp`issued, udp`issued, ledger,
               cleanup, backend`live, backend`stray
      ensures Valid() && NetworksKept()
      ensures if ready then result == (if hookThrows then HookThrew else Started)
              else result.NotReady? || result.LeftOver?
      ensures running <==> ready
      ensures running ==> StartedFrom(lines, ids, sandboxes) && mappedPorts == ports.tcp && mappedUdpPorts == ports.udp
      ensures !running ==> cleanup.ids == ids && backend.live == sandboxes
      ensures result.NotReady? && ledger.faults == 0 ==> ledger.sandboxNames == lines
      ensures result.LeftOver? ==> ledger.faults > 0
      ensures tcp.issued == if result.NotReady? then old(tcp.issued) - ports.tcp.Values else old(tcp.issued)
      ensures udp.issued == if result.NotReady? then old(udp.issued) - ports.udp.Values else old(udp.issued)
    {
      TakeUp(booted, ports, lines, sandboxes);
      if ready {
        return if hookThrows then HookThrew else Started;
      }
      var ok := StopStarted(lines, ids, sandboxes);
      result := if ok then NotReady else LeftOver;
    }

    /** start() of an ephemeral container: ready is what waiting for readiness comes to. */
    method Start(ready: bool, hookThrows: bool) returns (result: StartResult, ghost books: Books)
      requires Valid() && !running
      modifies this, tcp, udp, ledger, cleanup, backend, names
      ensures Valid() && NetworksKept()
      ensures |books.tries| == |books.outcomes| && TriesApart(books.tries) && Persistent(books.outcomes)
      ensures var last := books.outcomes[|books.outcomes| - 1];
              match last
              case Booted => if ready then result == (if hookThrows then HookThrew else Started)
                             else result.NotReady? || (result.LeftOver? && ledger.faults > 0)
              case Conflict => result.TooManyConflicts?
              case Failed => result.BootFailed?
              case Threw => result.LeftOver?
      ensures AllAnswered(old(backend.answers), books.outcomes, backend.answers)
      ensures ThrewFor(books.outcomes[|books.outcomes| - 1])
      ensures running <==> result.Started? || result.HookThrew?
      ensures Parted(tcp.issued, old(tcp.issued), if running then mappedPorts.Values else {}, books.lost.tcp)
      ensures Parted(udp.issued, old(udp.issued), if running then mappedUdpPorts.Values else {}, books.lost.udp)
      ensures !result.LeftOver? ==> (books.lost == NONE_LOST <==> Distinct(exposedPorts) && Distinct(exposedUdpPorts))
      ensures running ==> StartedFrom(old(ledger.sandboxNames), old(cleanup.ids), old(backend.live))
      ensures !running ==> cleanup.ids == old(cleanup.ids) && backend.live == old(backend.live)
      ensures !running && ledger.faults == 0 ==> ledger.sandboxNames == old(ledger.sandboxNames)
    {
      var outcome, booted, ports;
      outcome, booted, ports, books := BootWithRetries();
      if !outcome.Booted? {
        result := match outcome case Conflict => TooManyConflicts case Failed => BootFailed case _ => LeftOver;
        return;
      }
      result := Settle(booted, ports, old(ledger.sandboxNames), old(cleanup.ids), old(backend.live),
                       ready, hookThrows);
      if result.LeftOver? {
        books := books.(lost := Plus(books.lost, books.held));
      }
    }
  }

  /** await using: a container that was started and is stopped, and stopped again, leaves no
      trace - not in the issued ports, the ledger, the cleanup registry or the sandboxes. */
  method StartThenStopTwice(c: GenericContainer, ready: bool, hookThrows: bool) returns (undone: bool)
    requires c.Valid() && !c.running && Distinct(c.exposedPorts) && Distinct(c.exposedUdpPorts)
    modifies c, c.tcp, c.udp, c.ledger, c.cleanup, c.backend, c.names
    ensures c.Valid() && !c.running
    ensures c.ledger.faults == 0 && c.Interruptions() == old(c.Interruptions()) ==> undone
    ensures undone ==>
              && c.tcp.issued == old(c.tcp.issued) && c.udp.issued == old(c.udp.issued)
              && c.cleanup.ids == old(c.cleanup.ids) && c.backend.live == old(c.backend.live)
    ensures c.ledger.faults == 0 ==>
              c.ledger.sandboxNames == old(c.ledger.sandboxNames) && c.ledger.networkIds == old(c.ledger.networkIds)
  {
    var result, books := c.Start(ready, hookThrows);
    if !c.running {
      return result != LeftOver;
    }
    undone := c.StopStarted(old(c.ledger.sandboxNames), old(c.cleanup.ids), old(c.backend.live));
    var again := c.Stop();
  }
}
