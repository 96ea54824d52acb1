/** The microsandbox boot and restore retries: one boot attempt inside a one-shot agent-relay
    retry, inside the classified retries, inside two loops that mint a fresh name per try. */
module BootRetry {
  import opened LedgerLines
  import opened Options

  /** Names of this process, rz-<run>-<n>, and any other text a handle may carry. */
  datatype Name = Minted(n: nat) | Given(text: string)

  datatype LaunchMode = Direct | Broker

  /** How one boot ends. Unclassified stands for every error that no retry recognises, the
      errors the retries themselves raise when they give up included. */
  datatype Outcome =
    | Booted
    | ImageCache
    | StateDb
    | InstallLock
    | PortConflict
    | AgentRelay
    | AccessDenied
    | AlreadyExists
    | Unclassified

  /** spec: what msb was asked to boot, under that name. */
  datatype Attempt = Attempt(name: Name, mode: LaunchMode, outcome: Outcome, spec: Spec)

  /** Whether the run's ledger file failed a call: the fresh name could not be listed, or one
      that did not boot could not be taken off again. */
  datatype Fault = NoFault | TrackFailed | UntrackFailed(name: Name)

  /** The names a call that failed leaves listed. */
  function Left(fault: Fault): seq<Name> {
    if fault.UntrackFailed? then [fault.name] else []
  }

  datatype Spec = Spec(name: Name, image: string, command: Option<seq<string>>,
                       checkpointRef: Option<string>, keepAlive: bool)

  /** The identity of the runtime state a handle's name is mapped to. */
  type HandleState = int

  class SandboxHandle {
    var id: Name
    var spec: Spec

    constructor (spec: Spec)
      ensures this.id == spec.name && this.spec == spec
    {
      this.id := spec.name;
      this.spec := spec;
    }
  }

  const INSTALL_LOCK_BUDGET_MS: nat := 30000
  const INSTALL_LOCK_DELAY_MS: nat := 2000
  const REBOOT_BUDGET_MS: nat := 30000
  const REBOOT_DELAY_MS: nat := 2000
  const ACCESS_DENIED_RETRY_LIMIT: nat := 3
  const ACCESS_DENIED_RETRY_DELAY_MS: nat := 500
  const STATE_DB_RETRY_DELAY_MS: nat := 500
  const AGENT_RELAY_RETRY_DELAY_MS: nat := 2000

  /** Two attempts for the first boot and for each of the 30000 / 2000 polls. */
  const MAX_CLASSIFIED: nat := 32
  /** The first boot, then a classified boot for each of the three retries. */
  const MAX_START: nat := 98
  /** A classified boot at the start and after each of the 30000 / 2000 delays. */
  const MAX_REBOOT: nat := 512

  // ---- What a trace of attempts has to look like ----

  /** Outcomes some retry answers by booting again under the same name. */
  predicate Transient(o: Outcome) {
    o.ImageCache? || o.StateDb? || o.InstallLock? || o.AgentRelay?
  }

  /** Outcomes that leave a stopped sandbox record behind: the name must not be used again. */
  predicate Burns(o: Outcome) {
    o.AccessDenied? || o.AlreadyExists?
  }

  /** Attempts at one spec in one mode, of which only the last may be anything but transient. */
  ghost predicate Trying(trace: seq<Attempt>, spec: Spec, mode: LaunchMode) {
    && (forall a <- trace :: a.name == spec.name && a.mode == mode && a.spec == spec)
    && (forall i | 0 <= i < |trace| - 1 :: Transient(trace[i].outcome))
  }

  ghost predicate BurnedNamesStay(trace: seq<Attempt>) {
    forall i, j | 0 <= i < j < |trace| :: Burns(trace[i].outcome) ==> trace[j].name != trace[i].name
  }

  ghost predicate DeniedBefore(trace: seq<Attempt>, j: nat) {
    exists i | 0 <= i < j && i < |trace| :: trace[i].outcome.AccessDenied?
  }

  /** Direct launches until Windows denied access to one, and brokered ones from then on. */
  ghost predicate Escalates(trace: seq<Attempt>, windows: bool) {
    forall j | 0 <= j < |trace| :: trace[j].mode.Broker? <==> windows && DeniedBefore(trace, j)
  }

  /** A next attempt under the same name is made only after a failure that may pass, and one
      under another name only after a failure that burned the name. */
  ghost predicate Retries(trace: seq<Attempt>) {
    forall j | 0 < j < |trace| ::
      var failed := trace[j - 1].outcome;
      if trace[j].name == trace[j - 1].name
      then failed.ImageCache? || failed.StateDb? || failed.InstallLock? || failed.AgentRelay?
      else failed.AccessDenied? || failed.AlreadyExists?
  }

  /** And one is made: where a name's first attempt fails for a reason that may pass, there is a
      second. */
  ghost predicate Persists(trace: seq<Attempt>) {
    forall j | 0 <= j < |trace| :: FollowedUp(trace, j)
  }

  ghost predicate FollowedUp(trace: seq<Attempt>, j: nat)
    requires j < |trace|
  {
    var failed := trace[j].outcome;
    (j == 0 || trace[j - 1].name != trace[j].name)
    && (failed.ImageCache? || failed.StateDb? || failed.InstallLock? || failed.AgentRelay?) ==>
      j + 1 < |trace| && trace[j + 1].name == trace[j].name
  }

  /** The same of the attempts under one name. */
  ghost predicate TriedAgain(round: seq<Attempt>) {
    round != [] && Transient(round[0].outcome) ==> |round| > 1
  }

  /** Every attempt was to boot this, but for the name. */
  ghost predicate BootsOnly(trace: seq<Attempt>, spec: Spec) {
    forall a <- trace :: a.spec == spec.(name := a.name)
  }

  ghost predicate Avoids(trace: seq<Attempt>, name: Name) {
    forall a <- trace :: a.name != name
  }

  ghost predicate GoodTrace(trace: seq<Attempt>, windows: bool) {
    BurnedNamesStay(trace) && Escalates(trace, windows) && Retries(trace) && Persists(trace)
  }

  ghost predicate NamesOlder(trace: seq<Attempt>, seqno: nat) {
    forall a <- trace :: Older(a.name, seqno)
  }

  /** A trace of attempts at a spec that a fresh name minted after number seqno may extend in
      the given mode. */
  ghost predicate Extensible(trace: seq<Attempt>, spec: Spec, mode: LaunchMode, windows: bool, seqno: nat) {
    && Extended(trace, spec, windows, seqno)
    && (trace != [] ==> Burns(trace[|trace| - 1].outcome))
    && (mode.Broker? <==> windows && DeniedBefore(trace, |trace|))
  }

  ghost predicate Extended(trace: seq<Attempt>, spec: Spec, windows: bool, seqno: nat) {
    GoodTrace(trace, windows) && BootsOnly(trace, spec) && NamesOlder(trace, seqno)
  }

  lemma NextRound(trace: seq<Attempt>, round: seq<Attempt>, spec: Spec, mode: LaunchMode, windows: bool, seqno: nat)
    requires Extensible(trace, spec, mode, windows, seqno)
    requires Trying(round, spec.(name := Minted(seqno + 1)), mode) && TriedAgain(round)
    ensures Extended(trace + round, spec, windows, seqno + 1)
    ensures round != [] ==>
              (DeniedBefore(trace + round, |trace + round|) <==>
                 DeniedBefore(trace, |trace|) || round[|round| - 1].outcome.AccessDenied?)
  {
    var named := spec.(name := Minted(seqno + 1));
    RoundAppended(trace, round, named, mode, windows);
    if round != [] { DeniedAfter(trace, round, named, mode); }
  }

  /** The attempts ended in success exactly if the call did. */
  ghost predicate EndsIn(trace: seq<Attempt>, outcome: Outcome) {
    outcome.Booted? <==> trace != [] && trace[|trace| - 1].outcome.Booted?
  }

  lemma RanBy(trace: seq<Attempt>, spec: Spec, limit: nat, outcome: Outcome, name: Name, windows: bool, seqno: nat)
    requires Extended(trace, spec, windows, seqno) && 0 < |trace| <= limit
    requires outcome.Booted? <==> trace[|trace| - 1].outcome.Booted?
    requires outcome.Booted? ==> trace[|trace| - 1].name == name
    ensures Ran(trace, limit, outcome, name, windows, spec)
  {}

  lemma DeniedAfter(trace: seq<Attempt>, round: seq<Attempt>, spec: Spec, mode: LaunchMode)
    requires round != [] && Trying(round, spec, mode)
    ensures var all := trace + round;
            DeniedBefore(all, |all|) <==> DeniedBefore(trace, |trace|) || round[|round| - 1].outcome.AccessDenied?
  {
    var all := trace + round;
    if i :| 0 <= i < |all| && all[i].outcome.AccessDenied? {
      if i < |trace| {
        assert trace[i].outcome.AccessDenied?;
      } else {
        assert round[i - |trace|].outcome.AccessDenied?;
      }
    }
    if i :| 0 <= i < |trace| && trace[i].outcome.AccessDenied? { assert all[i].outcome.AccessDenied?; }
    assert all[|all| - 1] == round[|round| - 1];
  }

  /** One name's boot, however often repeated: the last attempt tells how it ended, unless a
      retry gave up on a transient. */
  ghost predicate Under(round: seq<Attempt>, spec: Spec, mode: LaunchMode, outcome: Outcome, limit: nat) {
    && 0 < |round| <= limit
    && Trying(round, spec, mode)
    && (var last := round[|round| - 1].outcome;
        last == outcome || (outcome.Unclassified? && Transient(last)))
  }

  lemma UnderAppend(a: seq<Attempt>, b: seq<Attempt>, spec: Spec, mode: LaunchMode,
                    first: Outcome, outcome: Outcome, m: nat, n: nat)
    requires Under(a, spec, mode, first, m) && Transient(first) && Under(b, spec, mode, outcome, n)
    ensures Under(a + b, spec, mode, outcome, m + n)
  {}

  lemma AgainAppended(a: seq<Attempt>, b: seq<Attempt>, spec: Spec, mode: LaunchMode, first: Outcome, outcome: Outcome)
    requires Under(a, spec, mode, first, 2)
    requires if Transient(first) then Under(b, spec, mode, outcome, MAX_CLASSIFIED - 2) else outcome == first && b == []
    requires |a| == 2 <==> a[0].outcome.AgentRelay?
    requires a[|a| - 1].outcome == first || a[|a| - 1].outcome.AgentRelay?
    ensures Under(a + b, spec, mode, outcome, MAX_CLASSIFIED) && TriedAgain(a + b)
  {
    if Transient(first) {
      UnderAppend(a, b, spec, mode, first, outcome, 2, MAX_CLASSIFIED - 2);
    } else {
      assert a + b == a;
    }
  }

  /** A successful boot registers its name for the exit cleanup, unless it is kept alive. */
  function Registered(spec: Spec, outcome: Outcome): set<Name> {
    if outcome.Booted? && !spec.keepAlive then {spec.name} else {}
  }

  /** A further round under a name not tried before keeps a trace good. */
  lemma RoundAppended(trace: seq<Attempt>, round: seq<Attempt>, spec: Spec, mode: LaunchMode, windows: bool)
    requires GoodTrace(trace, windows) && Trying(round, spec, mode) && TriedAgain(round) && Avoids(trace, spec.name)
    requires trace != [] ==> Burns(trace[|trace| - 1].outcome)
    requires mode.Broker? <==> windows && DeniedBefore(trace, |trace|)
    ensures GoodTrace(trace + round, windows)
  {
    BurnedStayAppended(trace, round, spec, mode);
    EscalatesAppended(trace, round, spec, mode, windows);
    PersistsAppended(trace, round, spec, mode);
    var all := trace + round;
    forall j | 0 < j < |all|
      ensures if all[j].name == all[j - 1].name
              then Transient(all[j - 1].outcome) else Burns(all[j - 1].outcome)
    {
      if j < |trace| {
        assert all[j] == trace[j] && all[j - 1] == trace[j - 1];
      } else {
        assert all[j] in round;
        if j == |trace| {
          assert all[j - 1] in trace;
        } else {
          assert all[j - 1] in round && all[j - 1] == round[j - 1 - |trace|];
        }
      }
    }
  }

  lemma PersistsAppended(trace: seq<Attempt>, round: seq<Attempt>, spec: Spec, mode: LaunchMode)
    requires Persists(trace) && Trying(round, spec, mode) && TriedAgain(round) && Avoids(trace, spec.name)
    ensures Persists(trace + round)
  {
    var all := trace + round;
    forall j | 0 <= j < |all|
      ensures FollowedUp(all, j)
    {
      if j < |trace| {
        assert FollowedUp(trace, j);
      } else {
        assert all[j] in round && (j > |trace| ==> all[j - 1] in round);
        assert |round| > 1 ==> round[1] in round;
      }
    }
  }

  lemma BurnedStayAppended(trace: seq<Attempt>, round: seq<Attempt>, spec: Spec, mode: LaunchMode)
    requires BurnedNamesStay(trace) && Trying(round, spec, mode) && Avoids(trace, spec.name)
    ensures BurnedNamesStay(trace + round)
  {
    var all := trace + round;
    forall i, j | 0 <= i < j < |all| && Burns(all[i].outcome)
      ensures all[j].name != all[i].name
    {
      if i < |trace| {
        assert all[i] in trace;
        assert j >= |trace| ==> all[j] in round;
      }
    }
  }

  lemma EscalatesAppended(trace: seq<Attempt>, round: seq<Attempt>, spec: Spec, mode: LaunchMode, windows: bool)
    requires Escalates(trace, windows) && Trying(round, spec, mode)
    requires mode.Broker? <==> windows && DeniedBefore(trace, |trace|)
    ensures Escalates(trace + round, windows)
  {
    var all := trace + round;
    forall j | 0 <= j < |all|
      ensures all[j].mode.Broker? <==> windows && DeniedBefore(all, j)
    {
      if j < |trace| {
        DeniedInPrefix(trace, round, j);
      } else {
        assert all[j] in round;
        DeniedInRound(trace, round, spec, mode, j);
      }
    }
  }

  lemma DeniedInPrefix(trace: seq<Attempt>, round: seq<Attempt>, j: nat)
    requires j <= |trace|
    ensures DeniedBefore(trace + round, j) <==> DeniedBefore(trace, j)
  {
    var all := trace + round;
    if i :| 0 <= i < j && i < |all| && all[i].outcome.AccessDenied? { assert trace[i].outcome.AccessDenied?; }
    if i :| 0 <= i < j && i < |trace| && trace[i].outcome.AccessDenied? { assert all[i].outcome.AccessDenied?; }
  }

  /** No attempt of a round but the last is denied access. */
  lemma DeniedInRound(trace: seq<Attempt>, round: seq<Attempt>, spec: Spec, mode: LaunchMode, j: nat)
    requires Trying(round, spec, mode) && |trace| <= j < |trace + round|
    ensures DeniedBefore(trace + round, j) <==> DeniedBefore(trace, |trace|)
  {
    var all := trace + round;
    assert forall i | |trace| <= i < j :: all[i] == round[i - |trace|] && !all[i].outcome.AccessDenied?;
    if i :| 0 <= i < j && i < |all| && all[i].outcome.AccessDenied? { assert trace[i].outcome.AccessDenied?; }
    if i :| 0 <= i < |trace| && trace[i].outcome.AccessDenied? { assert all[i].outcome.AccessDenied?; }
  }

  /** A round on its own is a good trace when it is direct. */
  lemma FirstRound(round: seq<Attempt>, spec: Spec, windows: bool)
    requires Trying(round, spec, Direct) && TriedAgain(round)
    ensures GoodTrace(round, windows)
  {
    RoundAppended([], round, spec, Direct, windows);
    assert [] + round == round;
  }

  /** Whether the first boot was denied access shows in the one or two attempts it made. */
  lemma FirstBootTells(first: seq<Attempt>, more: seq<Attempt>, outcome: Outcome)
    requires 0 < |first| <= 2 && !outcome.AgentRelay?
    requires |first| == 2 <==> first[0].outcome.AgentRelay?
    requires first[|first| - 1].outcome == outcome || (first[|first| - 1].outcome.AgentRelay? && outcome.Unclassified?)
    ensures FirstBootDenied(first + more) <==> outcome.AccessDenied?
  {}

  /** Names minted up to now are numbered at most seqno. */
  predicate Older(name: Name, seqno: nat) {
    name.Minted? ==> name.n <= seqno
  }

  class MsbBackend {
    var handles: map<Name, HandleState>
    var startedNames: set<Name>
    /** This run's .sandboxes ledger. */
    var ledger: seq<Name>
    /** A read of its file failed, or a write of it half way: its lines may be any. */
    ghost var damaged: bool
    /** The counter behind nextSandboxName, shared by the whole process. */
    var sequence: nat
    /** Date.now(), which sleeping advances by at least the delay. */
    var now: nat
    const windows: bool
    ghost var attempts: seq<Attempt>

    constructor (windows: bool)
      ensures this.windows == windows && Valid()
    {
      handles, startedNames, ledger, sequence, now := map[], {}, [], 0, 0;
      attempts, damaged := [], false;
      this.windows := windows;
    }

    ghost predicate Valid()
      reads this
    {
      && (forall name <- ledger :: Older(name, sequence))
      && (forall name <- handles.Keys :: Older(name, sequence))
      && (forall name <- startedNames :: Older(name, sequence))
    }

    method NextSandboxName() returns (name: Name)
      modifies this`sequence
      ensures sequence == old(sequence) + 1 && name == Minted(sequence)
    {
      sequence := sequence + 1;
      name := Minted(sequence);
    }

    method Sleep(ms: nat)
      modifies this`now
      ensures now >= old(now) + ms
    {
      var late: nat :| true;
      now := now + ms + late;
    }

    /** bootRunOnce or bootRestoreOnce: whatever msb makes of it. Only success registers the name. */
    method BootAttempt(spec: Spec, mode: LaunchMode) returns (outcome: Outcome)
      modifies this`now, this`startedNames, this`attempts
      ensures now >= old(now)
      ensures attempts == old(attempts) + [Attempt(spec.name, mode, outcome, spec)]
      ensures startedNames == old(startedNames) + Registered(spec, outcome)
    {
      outcome :| true;
      var elapsed: nat :| true;
      now := now + elapsed;
      attempts := attempts + [Attempt(spec.name, mode, outcome, spec)];
      if outcome.Booted? && !spec.keepAlive {
        startedNames := startedNames + {spec.name};
      }
    }

    /** One boot with its one agent-relay retry, under the same name and in the same mode. */
    method BootOnce(spec: Spec, mode: LaunchMode) returns (outcome: Outcome, ghost round: seq<Attempt>)
      modifies this`now, this`startedNames, this`attempts
      ensures attempts == old(attempts) + round && Under(round, spec, mode, outcome, 2)
      ensures startedNames == old(startedNames) + Registered(spec, outcome)
      ensures now >= old(now) && !outcome.AgentRelay?
      ensures |round| == 2 <==> round[0].outcome.AgentRelay?
      ensures var last := round[|round| - 1].outcome; last == outcome || (last.AgentRelay? && outcome.Unclassified?)
    {
      outcome := BootAttempt(spec, mode);
      round := [Attempt(spec.name, mode, outcome, spec)];
      if !outcome.AgentRelay? {
        return;
      }
      Sleep(AGENT_RELAY_RETRY_DELAY_MS);
      outcome := BootAttempt(spec, mode);
      round := round + [Attempt(spec.name, mode, outcome, spec)];
      if outcome.AgentRelay? {
        outcome := Unclassified;
      }
    }

    /** The install-lock poll: boots again every two seconds until the budget is spent. */
    method PollInstallLock(spec: Spec, mode: LaunchMode) returns (outcome: Outcome, ghost round: seq<Attempt>)
      modifies this`now, this`startedNames, this`attempts
      ensures attempts == old(attempts) + round && Under(round, spec, mode, outcome, MAX_CLASSIFIED - 2)
      ensures startedNames == old(startedNames) + Registered(spec, outcome)
      ensures now >= old(now) && !outcome.InstallLock?
      ensures round[|round| - 1].outcome.InstallLock? ==> now >= old(now) + INSTALL_LOCK_BUDGET_MS
    {
      ghost var start := now;
      var deadline := now + INSTALL_LOCK_BUDGET_MS;
      ghost var polls := 0;
      round := [];
      outcome := InstallLock;
      while now < deadline
        invariant now >= start + INSTALL_LOCK_DELAY_MS * polls && polls <= 15
        invariant polls == 0 ==> now == start
        invariant attempts == old(attempts) + round && |round| <= 2 * polls
        invariant polls > 0 ==> Under(round, spec, mode, InstallLock, MAX_CLASSIFIED - 2)
        invariant round != [] <==> polls > 0
        invariant startedNames == old(startedNames)
        decreases deadline - now
      {
        Sleep(INSTALL_LOCK_DELAY_MS);
        ghost var more;
        outcome, more := BootOnce(spec, mode);
        if round != [] {
          UnderAppend(round, more, spec, mode, InstallLock, outcome, |round|, 2);
        }
        assert (old(attempts) + round) + more == old(attempts) + (round + more);
        round := round + more;
        polls := polls + 1;
        if !outcome.InstallLock? {
          return;
        }
      }
      outcome := Unclassified;
    }

    /** The classified retries of a boot that failed once: the install-lock poll, the one-shot
        state-database retry and the one-shot image-cache heal. Any other failure stands. */
    method BootAgain(spec: Spec, mode: LaunchMode, first: Outcome) returns (outcome: Outcome, ghost round: seq<Attempt>)
      requires !first.Booted? && !first.AgentRelay?
      modifies this`now, this`startedNames, this`attempts
      ensures attempts == old(attempts) + round
      ensures if Transient(first) then Under(round, spec, mode, outcome, MAX_CLASSIFIED - 2)
              else outcome == first && round == []
      ensures startedNames == old(startedNames) + Registered(spec, outcome)
      ensures now >= old(now)
      ensures first.StateDb? || first.ImageCache? ==> |round| <= 2
      ensures first.InstallLock? && round[|round| - 1].outcome.InstallLock? ==> now >= old(now) + INSTALL_LOCK_BUDGET_MS
    {
      outcome, round := first, [];
      if first.InstallLock? {
        outcome, round := PollInstallLock(spec, mode);
      } else if first.StateDb? {
        Sleep(STATE_DB_RETRY_DELAY_MS);
        outcome, round := BootOnce(spec, mode);
        if outcome.StateDb? {
          outcome := Unclassified;
        }
      } else if first.ImageCache? {
        outcome, round := BootOnce(spec, mode);
        if outcome.ImageCache? {
          outcome := Unclassified;
        }
      }
    }

    /** bootClassified with retryAccessDenied false: the caller owns the access-denied retry. */
    method BootClassified(spec: Spec, mode: LaunchMode) returns (outcome: Outcome, ghost round: seq<Attempt>)
      modifies this`now, this`startedNames, this`attempts
      ensures attempts == old(attempts) + round && Under(round, spec, mode, outcome, MAX_CLASSIFIED)
      ensures TriedAgain(round)
      ensures startedNames == old(startedNames) + Registered(spec, outcome)
      ensures now >= old(now)
    {
      outcome, round := BootOnce(spec, mode);
      if outcome.Booted? {
        return;
      }
      ghost var first, more := outcome, [];
      outcome, more := BootAgain(spec, mode, outcome);
      AgainAppended(round, more, spec, mode, first, outcome);
      round := round + more;
    }

    /** Any lines of names minted so far. */
    method DamageLedger()
      requires Valid()
      modifies this`ledger, this`damaged
      ensures Valid() && damaged
    {
      var lines: seq<Name> :| forall name <- lines :: Older(name, sequence);
      ledger, damaged := lines, true;
    }

    /** trackSandbox: throws, and lists nothing, if the ledger file cannot be opened. */
    method TrackSandbox(name: Name) returns (ok: bool)
      requires Valid() && Older(name, sequence)
      modifies this`ledger, this`damaged
      ensures Valid() && (old(damaged) ==> damaged)
      ensures !damaged ==> ledger == if ok then old(ledger) + [name] else old(ledger)
    {
      ok := *;
      if ok {
        ledger := ledger + [name];
      } else {
        var halfWay := *;
        if halfWay { DamageLedger(); }
      }
    }

    /** untrackSandbox: throws, and leaves the name listed, if the file cannot be opened for
        writing - which it is only if other names are left to write. */
    method UntrackSandbox(name: Name) returns (ok: bool)
      requires Valid()
      modifies this`ledger, this`damaged
      ensures Valid() && (old(damaged) ==> damaged)
      ensures !damaged ==> ledger == if ok then RemoveFirst(old(ledger), name) else old(ledger)
      ensures !damaged && !ok ==> RemoveFirst(old(ledger), name) != []
    {
      ok := *;
      var halfWay := *;
      RemoveFirstKeepsMembers(ledger, name);
      if halfWay {
        DamageLedger();
      } else if ok || RemoveFirst(ledger, name) == [] {
        ok, ledger := true, RemoveFirst(ledger, name);
      }
    }

    /** One try of either fresh-name loop: mint a name, track it, boot under it; a failed try
        is untracked again. Nothing boots that is not tracked. */
    method TryFreshName(spec: Spec, mode: LaunchMode)
      returns (name: Name, outcome: Outcome, fault: Fault, ghost round: seq<Attempt>)
      requires Valid()
      modifies this`now, this`startedNames, this`attempts, this`ledger, this`damaged, this`sequence
      ensures Valid() && sequence == old(sequence) + 1 && name == Minted(sequence)
      ensures attempts == old(attempts) + round
      ensures Trying(round, spec.(name := name), mode) && TriedAgain(round)
      ensures |round| <= MAX_CLASSIFIED && (round == [] <==> fault.TrackFailed?)
      ensures fault.NoFault? ==> Under(round, spec.(name := name), mode, outcome, MAX_CLASSIFIED)
      ensures !fault.NoFault? ==> outcome.Unclassified? && !spec.keepAlive
      ensures fault.UntrackFailed? ==> fault.name == name && !round[|round| - 1].outcome.Booted?
      ensures old(damaged) ==> damaged
      ensures !damaged ==> ledger == old(ledger) + (if outcome.Booted? && !spec.keepAlive then [name] else Left(fault))
      ensures !damaged && fault.UntrackFailed? ==> old(ledger) != []
      ensures startedNames == old(startedNames) + Registered(spec.(name := name), outcome)
      ensures now >= old(now)
    {
      name := NextSandboxName();
      outcome, fault, round := Unclassified, NoFault, [];
      if !spec.keepAlive {
        var tracked := TrackSandbox(name);
        if !tracked {
          fault := TrackFailed;
          return;
        }
      }
      outcome, round := BootClassified(spec.(name := name), mode);
      if !outcome.Booted? && !spec.keepAlive {
        var untracked := UntrackSandbox(name);
        if !damaged { UntrackUndoesTrack(old(ledger), name); }
        if !untracked {
          outcome, fault := Unclassified, UntrackFailed(name);
        }
      }
    }

    /** The reboot under a new name succeeded: its state moves, and the caller's own handle is
        renamed in place. */
    method Rekey(handle: SandboxHandle, state: HandleState, name: Name)
      modifies this`handles, this`startedNames, handle
      ensures handles == (old(handles) - {old(handle.id)})[name := state]
      ensures startedNames == old(startedNames) - {old(handle.id)}
      ensures handle.id == name && handle.spec == old(handle.spec).(name := name)
    {
      handles := (handles - {handle.id})[name := state];
      startedNames := startedNames - {handle.id};
      handle.id := name;
      handle.spec := handle.spec.(name := name);
    }

    /** What a boot may do to the registries. A failed one changes nothing but to leave listed
        what could not be untracked; a successful one either kept the handle's name or moved
        its state, and nothing else, to a fresh name that the ledger gained. */
    twostate predicate Rekeyed(handle: SandboxHandle, state: HandleState, outcome: Outcome, fault: Fault)
      reads this, handle
    {
      if !outcome.Booted? then
        Unmoved(handle, fault)
      else if handle.id == old(handle.id) then
        && handles == old(handles) && Listed([]) && fault.NoFault? && handle.spec == old(handle.spec)
        && startedNames == old(startedNames) + (if handle.spec.keepAlive then {} else {handle.id})
      else
        RenamedTo(handle, state, handle.id) && fault.NoFault?
    }

    /** The call failed: nothing moved, and the ledger gained the name that could not be
        untracked, if there is one - a fresh one. */
    twostate predicate Unmoved(handle: SandboxHandle, fault: Fault)
      reads this, handle
    {
      && handles == old(handles) && startedNames == old(startedNames)
      && LeavesListed(fault)
      && (old(handle.spec).keepAlive ==> fault.NoFault?)
      && handle.id == old(handle.id) && handle.spec == old(handle.spec)
    }

    /** The ledger has these lines more, unless its file was damaged. */
    twostate predicate Listed(names: seq<Name>)
      reads this
    {
      (old(damaged) ==> damaged) && (!damaged ==> ledger == old(ledger) + names)
    }

    /** Only a fresh name stays listed, and only behind others. */
    twostate predicate LeavesListed(fault: Fault)
      reads this
    {
      && Listed(Left(fault)) && FreshFault(fault, old(sequence), sequence)
      && (fault.UntrackFailed? && !damaged ==> old(ledger) != [])
    }

    twostate predicate RenamedTo(handle: SandboxHandle, state: HandleState, name: Name)
      reads this, handle
    {
      var original, keepAlive := old(handle.id), old(handle.spec).keepAlive;
      && name.Minted? && old(sequence) < name.n <= sequence
      && handles == (old(handles) - {original})[name := state]
      && Listed(if keepAlive then [] else [name])
      && startedNames == old(startedNames) - {original} + (if keepAlive then {} else {name})
      && handle.id == name && handle.spec == old(handle.spec).(name := name)
    }

    /** One more try under a fresh name, seen on the attempts made so far. */
    method NextTry(spec: Spec, mode: LaunchMode, ghost base: seq<Attempt>, ghost trace: seq<Attempt>)
      returns (name: Name, outcome: Outcome, fault: Fault, ghost all: seq<Attempt>)
      requires Valid() && attempts == base + trace && Extensible(trace, spec, mode, windows, sequence)
      modifies this`now, this`startedNames, this`attempts, this`ledger, this`damaged, this`sequence
      ensures Valid() && sequence == old(sequence) + 1 && name == Minted(sequence) && now >= old(now)
      ensures attempts == base + all && Extended(all, spec, windows, sequence)
      ensures trace <= all && |all| <= |trace| + MAX_CLASSIFIED && (|all| == |trace| <==> fault.TrackFailed?)
      ensures EndsIn(all, outcome) && (outcome.Booted? ==> all[|all| - 1].name == name)
      ensures Burns(outcome) ==>
                && all != [] && all[|all| - 1].outcome == outcome
                && (DeniedBefore(all, |all|) <==> DeniedBefore(trace, |trace|) || outcome.AccessDenied?)
      ensures fault.NoFault? && !outcome.Booted? && !Burns(outcome) ==> !Burns(all[|all| - 1].outcome)
      ensures !fault.NoFault? ==> outcome.Unclassified? && !spec.keepAlive
      ensures if outcome.Booted? then Listed(if spec.keepAlive then [] else [name]) && fault.NoFault?
              else LeavesListed(fault)
      ensures startedNames == old(startedNames) + (if outcome.Booted? && !spec.keepAlive then {name} else {})
    {
      ghost var round;
      name, outcome, fault, round := TryFreshName(spec, mode);
      NextRound(trace, round, spec, mode, windows, sequence - 1);
      assert base + trace + round == base + (trace + round);
      all := trace + round;
    }

    /** The retries of a restore that Windows denied: each under a new name, tracked before the
        restore runs, and on Windows through the broker. */
    method RetryUnderFreshNames(spec: Spec, ghost base: seq<Attempt>, ghost first: seq<Attempt>)
      returns (name: Name, outcome: Outcome, fault: Fault, ghost trace: seq<Attempt>)
      requires Valid() && Older(spec.name, sequence) && attempts == base + first
      requires 0 < |first| <= 2 && Trying(first, spec, Direct) && first[|first| - 1].outcome.AccessDenied?
      modifies this`now, this`startedNames, this`attempts, this`ledger, this`damaged, this`sequence
      ensures Valid() && attempts == base + trace && Extended(trace, spec, windows, sequence)
      ensures first <= trace && |trace| <= MAX_START && EndsIn(trace, outcome)
      ensures old(sequence) < sequence <= old(sequence) + ACCESS_DENIED_RETRY_LIMIT
      ensures |trace| == |first| ==> fault.TrackFailed? && sequence == old(sequence) + 1
      ensures GaveUp(trace, outcome, fault) ==> sequence == old(sequence) + ACCESS_DENIED_RETRY_LIMIT
      ensures !outcome.Booted? ==>
                LeavesListed(fault) && startedNames == old(startedNames) && (spec.keepAlive ==> fault.NoFault?)
      ensures outcome.Booted? ==>
                && fault.NoFault? && name == Minted(sequence) && trace[|trace| - 1].name == name
                && Listed(if spec.keepAlive then [] else [name])
                && startedNames == old(startedNames) + (if spec.keepAlive then {} else {name})
    {
      var launchMode := if windows then Broker else Direct;
      name, trace, fault := spec.name, first, NoFault;
      FirstRound(first, spec, windows);
      for attempt := 0 to ACCESS_DENIED_RETRY_LIMIT
        invariant Valid() && sequence == old(sequence) + attempt
        invariant Listed([]) && startedNames == old(startedNames) && fault.NoFault?
        invariant attempts == base + trace && first <= trace && |trace| <= 2 + MAX_CLASSIFIED * attempt
        invariant attempt > 0 ==> |trace| > |first|
        invariant Extensible(trace, spec, launchMode, windows, sequence) && DeniedBefore(trace, |trace|)
      {
        Sleep(ACCESS_DENIED_RETRY_DELAY_MS);
        name, outcome, fault, trace := NextTry(spec, launchMode, base, trace);
        if !Burns(outcome) {
          return;
        }
      }
      outcome := Unclassified;
    }

    /** retryRestoreAfterAccessDenied */
    method RetryRestoreAfterAccessDenied(handle: SandboxHandle, state: HandleState, ghost base: seq<Attempt>,
                                         ghost first: seq<Attempt>)
      returns (outcome: Outcome, fault: Fault, ghost trace: seq<Attempt>)
      requires Valid() && Older(handle.id, sequence) && handle.spec.name == handle.id && attempts == base + first
      requires 0 < |first| <= 2 && Trying(first, handle.spec, Direct) && first[|first| - 1].outcome.AccessDenied?
      modifies this, handle
      ensures Rekeyed(handle, state, outcome, fault) && Valid() && handle.spec.name == handle.id
      ensures attempts == base + trace && Ran(trace, MAX_START, outcome, handle.id, windows, old(handle.spec))
      ensures old(sequence) < sequence <= old(sequence) + ACCESS_DENIED_RETRY_LIMIT
      ensures first <= trace && (|trace| == |first| ==> fault.TrackFailed? && sequence == old(sequence) + 1)
      ensures GaveUp(trace, outcome, fault) ==> sequence == old(sequence) + ACCESS_DENIED_RETRY_LIMIT
    {
      var name;
      name, outcome, fault, trace := RetryUnderFreshNames(handle.spec, base, first);
      RanBy(trace, handle.spec, MAX_START, outcome, if outcome.Booted? then name else handle.id, windows, sequence);
      if outcome.Booted? {
        Rekey(handle, state, name);
      }
    }

    /** A first boot that was not denied access, and its classified retries if it failed. */
    method BootDirectly(spec: Spec, answer: Outcome, ghost base: seq<Attempt>, ghost first: seq<Attempt>)
      returns (outcome: Outcome, ghost trace: seq<Attempt>)
      requires attempts == base + first && Under(first, spec, Direct, answer, 2)
      requires !answer.AccessDenied? && !answer.AgentRelay?
      requires |first| == 2 <==> first[0].outcome.AgentRelay?
      requires first[|first| - 1].outcome == answer || (first[|first| - 1].outcome.AgentRelay? && answer.Unclassified?)
      modifies this`now, this`startedNames, this`attempts
      ensures attempts == base + trace && Ran(trace, MAX_START, outcome, spec.name, windows, spec)
      ensures !FirstBootDenied(trace) && now >= old(now) && (answer.Booted? ==> outcome.Booted?)
      ensures FirstBootLocked(trace) && trace[|trace| - 1].outcome.InstallLock? ==>
                now >= old(now) + INSTALL_LOCK_BUDGET_MS
      ensures startedNames == old(startedNames) + (if answer.Booted? then {} else Registered(spec, outcome))
    {
      ghost var more := [];
      outcome := answer;
      if !answer.Booted? {
        outcome, more := BootAgain(spec, Direct, answer);
      }
      FirstBootTells(first, more, answer);
      AgainAppended(first, more, spec, Direct, answer, outcome);
      assert base + first + more == base + (first + more);
      trace := first + more;
      FirstRound(trace, spec, windows);
    }

    /** bootClassified with its access-denied retry, on a handle that has this state. */
    method BootHandle(handle: SandboxHandle, state: HandleState)
      returns (outcome: Outcome, fault: Fault, ghost trace: seq<Attempt>)
      requires Valid() && Older(handle.id, sequence) && handle.spec.name == handle.id
      modifies this, handle
      ensures Valid() && handle.spec.name == handle.id
      ensures attempts == old(attempts) + trace
      ensures Ran(trace, MAX_START, outcome, handle.id, windows, old(handle.spec))
      ensures Rekeyed(handle, state, outcome, fault)
      ensures sequence > old(sequence) <==> FirstBootDenied(trace)
      ensures FirstBootDenied(trace) && GaveUp(trace, outcome, fault) ==>
                sequence == old(sequence) + ACCESS_DENIED_RETRY_LIMIT
      ensures FirstBootLocked(trace) && trace[|trace| - 1].outcome.InstallLock? ==>
                now >= old(now) + INSTALL_LOCK_BUDGET_MS
    {
      ghost var first;
      outcome, first := BootOnce(handle.spec, Direct);
      if outcome.AccessDenied? {
        FirstBootTells(first, [], outcome);
        assert first + [] == first;
        outcome, fault, trace := RetryRestoreAfterAccessDenied(handle, state, old(attempts), first);
      } else {
        fault := NoFault;
        outcome, trace := BootDirectly(handle.spec, outcome, old(attempts), first);
      }
    }

    /** start(): over every outcome stream it makes at most 98 boot attempts and leaves the
        registries as Rekeyed says. It takes a fresh name exactly when its first boot is denied
        access, and gives up on a name that a boot burned only after three of them. */
    method Start(handle: SandboxHandle) returns (outcome: Outcome, fault: Fault, ghost trace: seq<Attempt>)
      requires Valid() && Older(handle.id, sequence) && handle.spec.name == handle.id
      modifies this, handle
      ensures Valid() && handle.spec.name == handle.id
      ensures attempts == old(attempts) + trace
      ensures old(handle.id) !in old(handles) ==>
                outcome.Unclassified? && trace == [] && Unmoved(handle, NoFault) && sequence == old(sequence)
      ensures old(handle.id) in old(handles) ==>
                && Rekeyed(handle, old(handles)[old(handle.id)], outcome, fault)
                && Ran(trace, MAX_START, outcome, handle.id, windows, old(handle.spec))
                && (sequence > old(sequence) <==> FirstBootDenied(trace))
                && (FirstBootDenied(trace) && GaveUp(trace, outcome, fault) ==>
                      sequence == old(sequence) + ACCESS_DENIED_RETRY_LIMIT)
                && (FirstBootLocked(trace) && trace[|trace| - 1].outcome.InstallLock? ==>
                      now >= old(now) + INSTALL_LOCK_BUDGET_MS)
    {
      if handle.id !in handles {
        return Unclassified, NoFault, [];
      }
      outcome, fault, trace := BootHandle(handle, handles[handle.id]);
    }

    /** The checkpoint's own reboot: a fresh name for every try, the first one included, until
        the budget is spent; brokered from the first access-denied on Windows onward. */
    method RebootUnderFreshName(sourceSpec: Spec, effectiveRef: string, captured: Option<seq<string>>)
      returns (winner: Option<Name>, fault: Fault, ghost trace: seq<Attempt>)
      requires Valid()
      modifies this`now, this`startedNames, this`attempts, this`ledger, this`damaged, this`sequence
      ensures Valid() && sequence > old(sequence) && attempts == old(attempts) + trace
      ensures trace == [] ==> fault.TrackFailed?
      ensures trace != [] ==> Ran(trace, MAX_REBOOT, if winner.Some? then Booted else Unclassified,
                                  if winner.Some? then winner.value else sourceSpec.name, windows,
                                  Rebooted(sourceSpec, Some(effectiveRef), captured))
      ensures winner.None? ==>
                && LeavesListed(fault)
                && startedNames == old(startedNames) && (sourceSpec.keepAlive ==> fault.NoFault?)
      ensures winner.None? && GaveUp(trace, Unclassified, fault) ==> now >= old(now) + REBOOT_BUDGET_MS
      ensures winner.Some? ==>
                && fault.NoFault? && trace != []
                && winner.value.Minted? && old(sequence) < winner.value.n <= sequence
                && Listed(if sourceSpec.keepAlive then [] else [winner.value])
                && startedNames == old(startedNames) + (if sourceSpec.keepAlive then {} else {winner.value})
    {
      var command := if sourceSpec.command.Some? then sourceSpec.command else captured;
      var spec := sourceSpec.(checkpointRef := Some(effectiveRef), command := command);
      ghost var start := now;
      var deadline := now + REBOOT_BUDGET_MS;
      var launchMode := Direct;
      ghost var tries := 0;
      trace := [];
      while true
        invariant Valid() && sequence == old(sequence) + tries
        invariant Listed([]) && startedNames == old(startedNames)
        invariant attempts == old(attempts) + trace && (tries > 0 ==> trace != [])
        invariant tries <= 15 && |trace| <= 32 * tries && now >= start + REBOOT_DELAY_MS * tries
        invariant Extensible(trace, spec, launchMode, windows, sequence)
        decreases 16 - tries
      {
        var name, outcome;
        name, outcome, fault, trace := NextTry(spec, launchMode, old(attempts), trace);
        winner := if outcome.Booted? then Some(name) else None;
        if !Burns(outcome) {
          return;
        }
        if outcome.AccessDenied? && windows {
          launchMode := Broker;
        }
        if now >= deadline {
          return;
        }
        Sleep(REBOOT_DELAY_MS);
        tries := tries + 1;
      }
    }

    /** createCheckpoint: refused or failed, it leaves every registry alone, save that a name it
        could not untrack stays listed; done, the handle's state lives under the reboot's name
        only. */
    method CreateCheckpoint(handle: SandboxHandle, refused: bool, captured: Option<seq<string>>,
                            snapshot: Option<string>)
      returns (effectiveRef: Option<string>, fault: Fault, ghost trace: seq<Attempt>)
      requires Valid() && Older(handle.id, sequence) && handle.spec.name == handle.id
      modifies this, handle
      ensures Valid() && handle.spec.name == handle.id && attempts == old(attempts) + trace
      ensures effectiveRef.None? ==> Unmoved(handle, fault)
      ensures effectiveRef.Some? ==>
                && effectiveRef == snapshot && fault.NoFault? && trace != []
                && old(handle.id) in old(handles) && RenamedTo(handle, old(handles)[old(handle.id)], handle.id)
      ensures refused || old(handle.id) !in old(handles) || snapshot.None? ==>
                effectiveRef.None? && trace == [] && sequence == old(sequence)
      ensures !refused && old(handle.id) in old(handles) && snapshot.Some? && trace == [] ==> fault.TrackFailed?
      ensures trace != [] ==> Ran(trace, MAX_REBOOT, if effectiveRef.Some? then Booted else Unclassified,
                                  handle.id, windows, Rebooted(old(handle.spec), snapshot, captured))
    {
      effectiveRef, fault, trace := None, NoFault, [];
      if refused || handle.id !in handles {
        return;
      }
      var state := handles[handle.id];
      if snapshot.None? {
        return;
      }
      var winner;
      winner, fault, trace := RebootUnderFreshName(handle.spec, snapshot.value, captured);
      if winner.None? {
        return;
      }
      Rekey(handle, state, winner.value);
      effectiveRef := snapshot;
    }
  }

  /** What a checkpoint's reboot has to boot: the source from the snapshot, with its command or
      the captured one. */
  function Rebooted(source: Spec, ref: Option<string>, captured: Option<seq<string>>): Spec {
    source.(checkpointRef := ref, command := if source.command.Some? then source.command else captured)
  }

  /** A name that could not be untracked was minted meanwhile. */
  predicate FreshFault(fault: Fault, from: nat, to: nat) {
    fault.UntrackFailed? ==> fault.name.Minted? && from < fault.name.n <= to
  }

  /** The call failed, with the ledger at its service, on a name that its last boot burned. */
  ghost predicate GaveUp(trace: seq<Attempt>, outcome: Outcome, fault: Fault) {
    && !outcome.Booted? && fault.NoFault? && trace != []
    && (trace[|trace| - 1].outcome.AccessDenied? || trace[|trace| - 1].outcome.AlreadyExists?)
  }

  /** The first boot, its one agent-relay retry included, was denied access. */
  ghost predicate FirstBootDenied(trace: seq<Attempt>) {
    && trace != []
    && (trace[0].outcome.AccessDenied?
        || (|trace| > 1 && trace[0].outcome.AgentRelay? && trace[1].outcome.AccessDenied?))
  }

  /** The first boot, its one agent-relay retry included, met another's install lock. */
  ghost predicate FirstBootLocked(trace: seq<Attempt>) {
    && trace != []
    && (trace[0].outcome.InstallLock?
        || (|trace| > 1 && trace[0].outcome.AgentRelay? && trace[1].outcome.InstallLock?))
  }

  /** The attempts of one call: bounded, no burned name used again, each retry one that the last
      failure calls for, a name's first failure retried if it may pass, launch modes escalating,
      always the same spec, and the last attempt the success if there was one. */
  ghost predicate Ran(trace: seq<Attempt>, limit: nat, outcome: Outcome, name: Name, windows: bool, spec: Spec) {
    && 0 < |trace| <= limit
    && GoodTrace(trace, windows) && BootsOnly(trace, spec)
    && (outcome.Booted? <==> trace[|trace| - 1].outcome.Booted?)
    && (outcome.Booted? ==> trace[|trace| - 1].name == name)
  }
}
