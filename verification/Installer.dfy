/** Any number of processes installing the msb runtime into one directory at once, each step
    between two awaits on its own, and any of them dying anywhere. */
module Installer {
  import opened Options

  /** A file: the checksum of the bytes that were to be written to it, and whether all were. */
  datatype Content = Content(sha: nat, whole: bool)

  datatype Asset = Msb | Krun

  /** The lock file: who created this one, and whether its pid and time are in it yet. */
  datatype Lock = Lock(owner: nat, written: bool)

  datatype Phase =
    | Checking
    | Locking
    | Reading
    /** With the lock file it read, if there was one, and whether that had expired. */
    | TakingOver(seen: Option<Lock>, expired: bool)
    // from here on the process believes it holds the lock
    | Opened
    | Rechecking
    | Fetching(asset: Asset)
    | Writing(asset: Asset, sha: nat)
    | RenamingKrun
    | RenamingMsb
    | Cleaning(ok: bool)
    | Releasing(ok: bool)
    // and here no longer
    | Installed
    | Failed
    | Crashed

  datatype State = State(
    processes: map<nat, Phase>,
    lock: Option<Lock>,
    msb: Option<Content>,
    krun: Option<Content>,
    /** Each process's own temporary files. */
    temps: map<(nat, Asset), Content>)

  datatype Step =
    | Check(p: nat)
    | Open(p: nat)
    /** Reads and judges the lock file; expired: its recorded time is past the limit. */
    | Read(p: nat, expired: bool)
    | TakeOver(p: nat)
    | TimeOut(p: nat)
    | WriteLock(p: nat)
    | Recheck(p: nat)
    /** The checksum of the bytes that came, and the one listed for the asset; either may lack. */
    | Fetch(p: nat, got: Option<nat>, listed: Option<nat>)
    | Write(p: nat, works: bool)
    | Rename(p: nat, works: bool)
    | Clean(p: nat)
    | Release(p: nat)
    | Crash(p: nat)

  predicate From(phase: Phase, step: Step) {
    match step
    case Check(_) => phase.Checking?
    case Open(_) => phase.Locking?
    case Read(_, _) => phase.Reading?
    case TakeOver(_) => phase.TakingOver?
    case TimeOut(_) => phase.Locking?
    case WriteLock(_) => phase.Opened?
    case Recheck(_) => phase.Rechecking?
    case Fetch(_, _, _) => phase.Fetching?
    case Write(_, _) => phase.Writing?
    case Rename(_, _) => phase.RenamingKrun? || phase.RenamingMsb?
    case Clean(_) => phase.Cleaning?
    case Release(_) => phase.Releasing?
    case Crash(_) => !phase.Installed? && !phase.Failed?
  }

  predicate Enabled(s: State, step: Step) {
    && step.p in s.processes && From(s.processes[step.p], step)
    && (step.Rename? && step.works ==> (step.p, if s.processes[step.p].RenamingKrun? then Krun else Msb) in s.temps)
  }

  function Put(s: State, p: nat, phase: Phase): State {
    s.(processes := s.processes[p := phase])
  }

  predicate IsInstalled(s: State) {
    s.msb.Some? && s.krun.Some?
  }

  predicate Dead(s: State, p: nat) {
    p !in s.processes || s.processes[p].Crashed? || s.processes[p].Installed? || s.processes[p].Failed?
  }

  /** isLockStale: a lock file that is gone or has nothing readable in it counts as stale. */
  predicate Stale(s: State, expired: bool) {
    s.lock.None? || !s.lock.value.written || Dead(s, s.lock.value.owner) || expired
  }

  function Written(s: State, p: nat, asset: Asset, sha: nat, works: bool): State {
    if !works then Put(s, p, Releasing(false)).(temps := s.temps - {(p, asset)})
    else
      Put(s, p, if asset.Msb? then Fetching(Krun) else RenamingKrun)
      .(temps := s.temps[(p, asset) := Content(sha, true)])
  }

  function Renamed(s: State, p: nat): State
    requires Enabled(s, Rename(p, true))
  {
    if s.processes[p].RenamingKrun? then
      Put(s, p, RenamingMsb).(krun := Some(s.temps[(p, Krun)]), temps := s.temps - {(p, Krun)})
    else
      Put(s, p, Cleaning(true)).(msb := Some(s.temps[(p, Msb)]), temps := s.temps - {(p, Msb)})
  }

  function Next(s: State, step: Step): State
    requires Enabled(s, step)
  {
    var p := step.p;
    match step
    case Check(_) => Put(s, p, if IsInstalled(s) then Installed else Locking)
    // O_EXCL: creates the file, empty, or fails because there is one
    case Open(_) => if s.lock.None? then Put(s, p, Opened).(lock := Some(Lock(p, false))) else Put(s, p, Reading)
    case Read(_, expired) => Put(s, p, if Stale(s, expired) then TakingOver(s.lock, expired) else Locking)
    case TakeOver(_) => Put(s, p, Locking).(lock := None)
    case TimeOut(_) => Put(s, p, Failed)
    // The write goes to the file this process opened, whether or not it is still at the path
    case WriteLock(_) =>
      Put(s, p, Rechecking).(lock := if s.lock == Some(Lock(p, false)) then Some(Lock(p, true)) else s.lock)
    case Recheck(_) => Put(s, p, if IsInstalled(s) then Releasing(true) else Fetching(Msb))
    case Fetch(_, got, listed) =>
      var asset := s.processes[p].asset;
      if listed.None? || got.None? || got.value != listed.value then Put(s, p, Releasing(false))
      else Put(s, p, Writing(asset, got.value)).(temps := s.temps[(p, asset) := Content(got.value, false)])
    case Write(_, works) => Written(s, p, s.processes[p].asset, s.processes[p].sha, works)
    case Rename(_, works) => if works then Renamed(s, p) else Put(s, p, Cleaning(false))
    case Clean(_) => Put(s, p, Releasing(s.processes[p].ok)).(temps := s.temps - {(p, Msb), (p, Krun)})
    case Release(_) => Put(s, p, if s.processes[p].ok then Installed else Failed).(lock := None)
    case Crash(_) => Put(s, p, Crashed)
  }

  ghost predicate IsRun(s: State, steps: seq<Step>)
    decreases |steps|
  {
    steps == [] || (Enabled(s, steps[0]) && IsRun(Next(s, steps[0]), steps[1..]))
  }

  ghost function After(s: State, steps: seq<Step>): State
    requires IsRun(s, steps)
    decreases |steps|
  {
    if steps == [] then s else After(Next(s, steps[0]), steps[1..])
  }

  /** Installers about to begin, on a directory in any order an earlier install left it in. */
  ghost predicate Initial(s: State) {
    && (forall p | p in s.processes :: s.processes[p].Checking?)
    && s.temps == map[] && CommitMarker(s)
  }

  // ----- what a present msb stands for -----

  /** msb is there only whole, with a whole library beside it. */
  ghost predicate CommitMarker(s: State) {
    && (s.krun.Some? ==> s.krun.value.whole)
    && (s.msb.Some? ==> s.msb.value.whole && s.krun.Some?)
  }

  /** What a process has written so far, and what it may rely on. */
  ghost predicate OnItsWay(s: State, p: nat)
    requires p in s.processes
  {
    match s.processes[p]
    case Fetching(Krun) | Writing(Krun, _) => (p, Msb) in s.temps && s.temps[(p, Msb)].whole
    case RenamingKrun =>
      (p, Msb) in s.temps && s.temps[(p, Msb)].whole && (p, Krun) in s.temps && s.temps[(p, Krun)].whole
    case RenamingMsb => (p, Msb) in s.temps && s.temps[(p, Msb)].whole && s.krun.Some?
    case Cleaning(ok) => ok ==> IsInstalled(s)
    case Releasing(ok) => ok ==> IsInstalled(s)
    case Installed => IsInstalled(s)
    case _ => true
  }

  ghost predicate InstallInv(s: State) {
    CommitMarker(s) && forall p | p in s.processes :: OnItsWay(s, p)
  }

  /** No step of another process disturbs what a process relies on. */
  lemma OthersOnTheirWay(s: State, step: Step, q: nat)
    requires InstallInv(s) && Enabled(s, step) && q in s.processes && q != step.p
    ensures q in Next(s, step).processes && OnItsWay(Next(s, step), q)
  {
    assert OnItsWay(s, q);
  }

  lemma OwnWay(s: State, step: Step)
    requires InstallInv(s) && Enabled(s, step)
    ensures CommitMarker(Next(s, step)) && OnItsWay(Next(s, step), step.p)
  {
    assert OnItsWay(s, step.p);
  }

  lemma InstallStep(s: State, step: Step)
    requires InstallInv(s) && Enabled(s, step)
    ensures InstallInv(Next(s, step))
  {
    OwnWay(s, step);
    forall q | q in Next(s, step).processes ensures OnItsWay(Next(s, step), q) {
      if q != step.p { OthersOnTheirWay(s, step, q); }
    }
  }

  lemma {:induction false} InstallOverRuns(s: State, steps: seq<Step>)
    requires InstallInv(s) && IsRun(s, steps)
    ensures InstallInv(After(s, steps))
    decreases |steps|
  {
    if steps != [] {
      InstallStep(s, steps[0]);
      InstallOverRuns(Next(s, steps[0]), steps[1..]);
    }
  }

  // ----- where the content comes from -----

  /** The asset and checksum of a download that matches the checksum listed for it. */
  function MatchedBy(s: State, step: Step): set<(Asset, nat)>
    requires Enabled(s, step)
  {
    if step.Fetch? && step.got.Some? && step.got == step.listed
    then {(s.processes[step.p].asset, step.got.value)} else {}
  }

  ghost function MatchedOver(s: State, steps: seq<Step>): set<(Asset, nat)>
    requires IsRun(s, steps)
    decreases |steps|
  {
    if steps == [] then {} else MatchedBy(s, steps[0]) + MatchedOver(Next(s, steps[0]), steps[1..])
  }

  /** What is installed. */
  function There(s: State): set<(Asset, nat)> {
    (if s.msb.Some? then {(Msb, s.msb.value.sha)} else {}) + (if s.krun.Some? then {(Krun, s.krun.value.sha)} else {})
  }

  /** Everything installed, downloaded or being written is among these. */
  ghost predicate Sourced(s: State, good: set<(Asset, nat)>) {
    && There(s) <= good
    && (forall k | k in s.temps :: (k.1, s.temps[k].sha) in good)
    && (forall p | p in s.processes && s.processes[p].Writing? :: (s.processes[p].asset, s.processes[p].sha) in good)
  }

  lemma SourcedStep(s: State, step: Step, good: set<(Asset, nat)>)
    requires Sourced(s, good) && Enabled(s, step)
    ensures Sourced(Next(s, step), good + MatchedBy(s, step))
  {
    var t := Next(s, step);
    forall p | p in t.processes && t.processes[p].Writing?
      ensures (t.processes[p].asset, t.processes[p].sha) in good + MatchedBy(s, step)
    {
      if p != step.p { assert t.processes[p] == s.processes[p]; }
    }
  }

  lemma {:induction false} SourcedOverRuns(s: State, steps: seq<Step>, good: set<(Asset, nat)>)
    requires Sourced(s, good) && IsRun(s, steps)
    ensures Sourced(After(s, steps), good + MatchedOver(s, steps))
    decreases |steps|
  {
    if steps != [] {
      var first, later := MatchedBy(s, steps[0]), MatchedOver(Next(s, steps[0]), steps[1..]);
      SourcedStep(s, steps[0], good);
      SourcedOverRuns(Next(s, steps[0]), steps[1..], good + first);
      assert good + first + later == good + (first + later);
    } else {
      assert good + {} == good;
    }
  }

  /** In every interleaving, crashes and stolen locks included: where msb is present, the
      library is too, both are whole, and each was there from the beginning or was downloaded in
      the run with the checksum listed for it; and whoever is told that the runtime is installed
      finds it so. */
  lemma PresentMeansComplete(s: State, steps: seq<Step>)
    requires Initial(s) && IsRun(s, steps)
    ensures var t := After(s, steps);
            && (t.msb.Some? ==> t.krun.Some? && t.msb.value.whole && t.krun.value.whole)
            && (t.msb.Some? ==> (Msb, t.msb.value.sha) in There(s) + MatchedOver(s, steps))
            && (t.krun.Some? ==> (Krun, t.krun.value.sha) in There(s) + MatchedOver(s, steps))
            && forall p | p in t.processes && t.processes[p].Installed? :: t.msb.Some? && t.krun.Some?
  {
    InstallOverRuns(s, steps);
    SourcedOverRuns(s, steps, There(s));
    var t := After(s, steps);
    forall p | p in t.processes && t.processes[p].Installed? ensures IsInstalled(t) {
      assert OnItsWay(t, p);
    }
  }

  /** The process has failed, or is on its way to. */
  predicate Doomed(phase: Phase) {
    phase == Cleaning(false) || phase == Releasing(false) || phase.Failed?
  }

  /** What makes an install fail: no lock in time; a download that fails, has no checksum listed
      or does not match it; a write or a rename that fails. */
  predicate Spoils(s: State, step: Step, p: nat)
    requires Enabled(s, step)
  {
    && step.p == p
    && match step
       case TimeOut(_) => true
       case Fetch(_, got, listed) => got.None? || listed.None? || got != listed
       case Write(_, works) => !works
       case Rename(_, works) => !works
       case _ => false
  }

  ghost predicate EverSpoils(s: State, steps: seq<Step>, p: nat)
    requires IsRun(s, steps)
    decreases |steps|
  {
    steps != [] && (Spoils(s, steps[0], p) || EverSpoils(Next(s, steps[0]), steps[1..], p))
  }

  lemma SpoiltStep(s: State, step: Step, p: nat)
    requires Enabled(s, step) && p in s.processes
    ensures var t := Next(s, step);
            && p in t.processes && (t.processes[p].Crashed? <==> s.processes[p].Crashed? || step == Crash(p))
            && (!t.processes[p].Crashed? ==> (Doomed(t.processes[p]) <==> Doomed(s.processes[p]) || Spoils(s, step, p)))
  {}

  /** An installer that does not crash fails exactly if one of these befell it: a download that
      does not match its checksum is never installed, and nothing else turns a good install
      into a failure. */
  lemma {:induction false} FailsExactlyWhenSpoilt(s: State, steps: seq<Step>, p: nat)
    requires IsRun(s, steps) && p in s.processes
    ensures var t := After(s, steps);
            && p in t.processes
            && (!t.processes[p].Crashed? ==>
                  (Doomed(t.processes[p]) <==> Doomed(s.processes[p]) || EverSpoils(s, steps, p)))
    decreases |steps|
  {
    if steps != [] {
      SpoiltStep(s, steps[0], p);
      FailsExactlyWhenSpoilt(Next(s, steps[0]), steps[1..], p);
      if s.processes[p].Crashed? || steps[0] == Crash(p) { CrashedForGood(Next(s, steps[0]), steps[1..], p); }
    }
  }

  lemma {:induction false} CrashedForGood(s: State, steps: seq<Step>, p: nat)
    requires IsRun(s, steps) && p in s.processes && s.processes[p].Crashed?
    ensures p in After(s, steps).processes && After(s, steps).processes[p].Crashed?
    decreases |steps|
  {
    if steps != [] { CrashedForGood(Next(s, steps[0]), steps[1..], p); }
  }

  /** An installer comes to download exactly if, holding the lock, it still finds one of the two
      files missing, and waits for the lock exactly if it did so without. */
  lemma FetchesExactlyIfMissing(s: State, step: Step)
    requires Enabled(s, step)
    ensures var before, after := s.processes[step.p], Next(s, step).processes[step.p];
            && (!before.Fetching? ==>
                  (after == Fetching(Msb) <==> before.Rechecking? && !step.Crash? && (s.msb.None? || s.krun.None?)))
            && (before.Checking? && !step.Crash? ==> (after.Locking? <==> s.msb.None? || s.krun.None?))
  {}

  /** What a mismatch, a failed download or a lack of a checksum leaves where it was. */
  lemma MismatchWritesNothing(s: State, step: Step)
    requires Enabled(s, step) && step.Fetch? && Spoils(s, step, step.p)
    ensures Next(s, step).msb == s.msb && Next(s, step).krun == s.krun && Next(s, step).temps == s.temps
  {}

  // ----- the lock -----

  /** The process is in the part the lock is meant to protect, or about to leave it. */
  predicate Holds(phase: Phase) {
    && !phase.Checking? && !phase.Locking? && !phase.Reading? && !phase.TakingOver?
    && !phase.Installed? && !phase.Failed? && !phase.Crashed?
  }

  /** The process whose lock file is at the path, at work. */
  predicate Working(s: State) {
    s.lock.Some? && s.lock.value.owner in s.processes && Holds(s.processes[s.lock.value.owner])
  }

  /** The takeover of a lock file that is a working process's own, because it was empty or had
      expired when it was read. */
  predicate TakesForStale(s: State, step: Step) {
    && step.TakeOver? && Working(s) && s.lock.value.owner != step.p && step.p in s.processes
    && s.processes[step.p].TakingOver? && s.processes[step.p].seen.Some?
    && s.processes[step.p].seen.value.owner == s.lock.value.owner
    && (!s.processes[step.p].seen.value.written || s.processes[step.p].expired)
  }

  /** The takeover of a lock file that a working process made only after the stale one was read. */
  predicate TakesAnother(s: State, step: Step) {
    && step.TakeOver? && Working(s) && s.lock.value.owner != step.p && step.p in s.processes
    && s.processes[step.p].TakingOver?
    && (s.processes[step.p].seen.None? || s.processes[step.p].seen.value.owner != s.lock.value.owner)
  }

  /** The release of a lock that somebody else holds by now, one's own file having been replaced. */
  predicate ReleasesAnother(s: State, step: Step) {
    step.Release? && Working(s) && s.lock.value.owner != step.p
  }

  predicate Steals(s: State, step: Step) {
    TakesForStale(s, step) || TakesAnother(s, step) || ReleasesAnother(s, step)
  }

  ghost predicate EverSteals(s: State, steps: seq<Step>)
    requires IsRun(s, steps)
    decreases |steps|
  {
    steps != [] && (Steals(s, steps[0]) || EverSteals(Next(s, steps[0]), steps[1..]))
  }

  /** Every process at work has its own lock file at the path. */
  ghost predicate Exclusive(s: State) {
    forall p | p in s.processes && Holds(s.processes[p]) :: s.lock.Some? && s.lock.value.owner == p
  }

  lemma OneHolderAtMost(s: State, p: nat, q: nat)
    requires Exclusive(s) && p in s.processes && q in s.processes
    requires Holds(s.processes[p]) && Holds(s.processes[q])
    ensures p == q
  {}

  ghost predicate AlwaysExclusive(s: State, steps: seq<Step>)
    requires IsRun(s, steps)
    decreases |steps|
  {
    Exclusive(s) && (steps != [] ==> AlwaysExclusive(Next(s, steps[0]), steps[1..]))
  }

  /** Whoever is about to take a lock file over read it stale. */
  ghost predicate ReadStale(s: State) {
    forall p | p in s.processes && s.processes[p].TakingOver? && s.processes[p].seen.Some? ::
      !s.processes[p].seen.value.written || s.processes[p].expired || Dead(s, s.processes[p].seen.value.owner)
  }

  lemma ReadStaleStep(s: State, step: Step)
    requires ReadStale(s) && Enabled(s, step)
    ensures ReadStale(Next(s, step))
  {
    var t := Next(s, step);
    forall p | p in t.processes && t.processes[p].TakingOver? && t.processes[p].seen.Some?
      ensures !t.processes[p].seen.value.written || t.processes[p].expired || Dead(t, t.processes[p].seen.value.owner)
    {
      if p != step.p { assert s.processes[p] == t.processes[p]; }
    }
  }

  /** One step ends exclusion if and only if it is one of the three. */
  lemma ExclusionEndsExactlyBy(s: State, step: Step)
    requires Exclusive(s) && ReadStale(s) && Enabled(s, step)
    ensures Exclusive(Next(s, step)) <==> !Steals(s, step)
  {
    var t := Next(s, step);
    if Steals(s, step) {
      var owner := s.lock.value.owner;
      assert t.processes[owner] == s.processes[owner] && t.lock.None?;
    } else {
      forall p | p in t.processes && Holds(t.processes[p]) ensures t.lock.Some? && t.lock.value.owner == p {
        if p != step.p { assert Holds(s.processes[p]); }
      }
    }
  }

  lemma {:induction false} ExclusionExactly(s: State, steps: seq<Step>)
    requires Exclusive(s) && ReadStale(s) && IsRun(s, steps)
    ensures AlwaysExclusive(s, steps) <==> !EverSteals(s, steps)
    decreases |steps|
  {
    if steps != [] {
      ExclusionEndsExactlyBy(s, steps[0]);
      ReadStaleStep(s, steps[0]);
      if Exclusive(Next(s, steps[0])) { ExclusionExactly(Next(s, steps[0]), steps[1..]); }
    }
  }

  /** The lock excludes throughout a run if and only if nobody in it takes over a working
      process's file that it read empty or expired, or one made since it read, and nobody
      releases another's. */
  lemma LockExcludesExactlyUnlessStolen(s: State, steps: seq<Step>)
    requires Initial(s) && IsRun(s, steps)
    ensures AlwaysExclusive(s, steps) <==> !EverSteals(s, steps)
  {
    ExclusionExactly(s, steps);
  }

  lemma {:induction false} ExclusiveAtEnd(s: State, steps: seq<Step>)
    requires IsRun(s, steps) && AlwaysExclusive(s, steps)
    ensures Exclusive(After(s, steps))
    decreases |steps|
  {
    if steps != [] { ExclusiveAtEnd(Next(s, steps[0]), steps[1..]); }
  }

  /** Hence two holders at once are the work of one of the three. */
  lemma TwoHoldersOnlyByTheft(s: State, steps: seq<Step>, p: nat, q: nat)
    requires Initial(s) && IsRun(s, steps) && p != q
    requires p in After(s, steps).processes && q in After(s, steps).processes
    requires Holds(After(s, steps).processes[p]) && Holds(After(s, steps).processes[q])
    ensures EverSteals(s, steps)
  {
    LockExcludesExactlyUnlessStolen(s, steps);
    if AlwaysExclusive(s, steps) {
      ExclusiveAtEnd(s, steps);
      OneHolderAtMost(After(s, steps), p, q);
    }
  }

  // ----- one holder at most -----

  ghost predicate OneHolder(s: State) {
    forall p, q | p in s.processes && q in s.processes && Holds(s.processes[p]) && Holds(s.processes[q]) :: p == q
  }

  /** A process finds no lock file, and makes one, while another is at work. */
  ghost predicate OpensBeside(s: State, step: Step) {
    && step.Open? && s.lock.None?
    && exists q :: q in s.processes && q != step.p && Holds(s.processes[q])
  }

  ghost predicate EverOpensBeside(s: State, steps: seq<Step>)
    requires IsRun(s, steps)
    decreases |steps|
  {
    steps != [] && (OpensBeside(s, steps[0]) || EverOpensBeside(Next(s, steps[0]), steps[1..]))
  }

  ghost predicate AlwaysOneHolder(s: State, steps: seq<Step>)
    requires IsRun(s, steps)
    decreases |steps|
  {
    OneHolder(s) && (steps != [] ==> AlwaysOneHolder(Next(s, steps[0]), steps[1..]))
  }

  /** Only an Open that finds no lock file brings a process to work. */
  lemma HoldsByOpening(s: State, step: Step, p: nat)
    requires Enabled(s, step) && p in Next(s, step).processes && Holds(Next(s, step).processes[p])
    ensures p in s.processes && (Holds(s.processes[p]) || (step.Open? && step.p == p && s.lock.None?))
  {}

  lemma OpeningHolds(s: State, step: Step)
    requires Enabled(s, step) && step.Open? && s.lock.None?
    ensures step.p in Next(s, step).processes && Holds(Next(s, step).processes[step.p])
    ensures forall q | q in s.processes && q != step.p ::
              q in Next(s, step).processes && Next(s, step).processes[q] == s.processes[q]
  {}

  lemma SecondHolderExactlyBy(s: State, step: Step)
    requires OneHolder(s) && Enabled(s, step)
    ensures OneHolder(Next(s, step)) <==> !OpensBeside(s, step)
  {
    var t := Next(s, step);
    if OpensBeside(s, step) {
      OpeningHolds(s, step);
      var q :| q in s.processes && q != step.p && Holds(s.processes[q]);
      assert Holds(t.processes[q]) && Holds(t.processes[step.p]);
    } else {
      forall p, q | p in t.processes && q in t.processes && Holds(t.processes[p]) && Holds(t.processes[q])
        ensures p == q
      {
        HoldsByOpening(s, step, p);
        HoldsByOpening(s, step, q);
      }
    }
  }

  lemma {:induction false} OneHolderOverRuns(s: State, steps: seq<Step>)
    requires OneHolder(s) && IsRun(s, steps)
    ensures AlwaysOneHolder(s, steps) <==> !EverOpensBeside(s, steps)
    decreases |steps|
  {
    if steps != [] {
      SecondHolderExactlyBy(s, steps[0]);
      if OneHolder(Next(s, steps[0])) { OneHolderOverRuns(Next(s, steps[0]), steps[1..]); }
    }
  }

  /** Throughout a run one process at most is at work, if and only if in it nobody finds the lock
      file missing while another is at work. */
  lemma OneHolderExactlyUnlessOpenedBeside(s: State, steps: seq<Step>)
    requires Initial(s) && IsRun(s, steps)
    ensures AlwaysOneHolder(s, steps) <==> !EverOpensBeside(s, steps)
  {
    OneHolderOverRuns(s, steps);
  }

  /** Neither a crashed holder keeps anybody out, nor one whose lock has expired, nor an empty
      lock file: whoever comes upon it takes it over. */
  lemma StaleLockIsReplaced(s: State, q: nat, expired: bool) returns (steps: seq<Step>)
    requires q in s.processes && s.processes[q].Locking? && s.lock.Some?
    requires var owner := s.lock.value.owner;
             expired || !s.lock.value.written || (owner in s.processes && s.processes[owner].Crashed?)
    ensures IsRun(s, steps) && q in After(s, steps).processes && Holds(After(s, steps).processes[q])
    ensures forall step <- steps :: step.p == q && (step.Read? ==> step.expired == expired)
  {
    steps := [];
    OneMore(s, steps, Open(q));
    steps := steps + [Open(q)];
    OneMore(s, steps, Read(q, expired));
    steps := steps + [Read(q, expired)];
    OneMore(s, steps, TakeOver(q));
    steps := steps + [TakeOver(q)];
    OneMore(s, steps, Open(q));
    steps := steps + [Open(q)];
  }

  /** A holder at work, whose lock file is written and has not expired, is waited for. */
  lemma HolderIsWaitedFor(s: State, q: nat)
    requires Enabled(s, Read(q, false)) && s.lock.Some? && s.lock.value.written
    requires s.lock.value.owner in s.processes && Holds(s.processes[s.lock.value.owner])
    ensures Next(s, Read(q, false)) == s.(processes := s.processes[q := Locking])
  {}

  lemma {:induction false} OneMore(s: State, steps: seq<Step>, step: Step)
    requires IsRun(s, steps) && Enabled(After(s, steps), step)
    ensures IsRun(s, steps + [step]) && After(s, steps + [step]) == Next(After(s, steps), step)
    decreases |steps|
  {
    var all := steps + [step];
    if steps == [] {
      assert all[1..] == [];
    } else {
      assert all[1..] == steps[1..] + [step];
      OneMore(Next(s, steps[0]), steps[1..], step);
    }
  }

  /** But somebody may, with no crash and no lock expired: the file is empty between its
      creation and its first write, and an empty lock file counts as stale. */
  lemma TwoHoldersWithoutACrash(p: nat, q: nat) returns (s: State, steps: seq<Step>)
    requires p != q
    ensures Initial(s) && IsRun(s, steps)
    ensures forall step <- steps :: !step.Crash? && (step.Read? ==> !step.expired)
    ensures var t := After(s, steps);
            p in t.processes && q in t.processes && Holds(t.processes[p]) && Holds(t.processes[q])
  {
    s := State(map[p := Checking, q := Checking], None, None, None, map[]);
    steps := [];
    OneMore(s, steps, Check(p));
    steps := steps + [Check(p)];
    OneMore(s, steps, Check(q));
    steps := steps + [Check(q)];
    OneMore(s, steps, Open(p));
    steps := steps + [Open(p)];
    OneMore(s, steps, Open(q));
    steps := steps + [Open(q)];
    OneMore(s, steps, Read(q, false));
    steps := steps + [Read(q, false)];
    OneMore(s, steps, TakeOver(q));
    steps := steps + [TakeOver(q)];
    OneMore(s, steps, Open(q));
    steps := steps + [Open(q)];
  }
}
