/** Named checkpoints: the registry of names against the artifacts the active backend holds,
    under checkpoint(name), find, remove and importFrom, each with whatever may fail in it. */
module Checkpoints {
  import opened Options

  datatype Entry = Entry(ref: string, backend: string)

  /** A registry file: an entry, or something that does not parse as one. */
  datatype Slot = Found(entry: Entry) | Corrupt

  /** createCheckpoint or importCheckpoint: the effective ref of what it made, or a failure
      that may have left artifacts nobody will register. */
  datatype Making = Made(ref: string) | Refused(left: set<string>)

  /** Everything outside a checkpoint(name) call that decides how it goes. */
  datatype Weather = Weather(
    /** The registry could be read. */
    readable: bool,
    /** The removal of the nominal ref takes effect. */
    clears: bool,
    making: Making,
    /** Links went up again and the container became ready after its reboot. */
    ready: bool,
    /** The removal of the prior artifact takes effect. */
    removesPrior: bool,
    /** The registry entry could be written. */
    writes: bool)

  datatype End = Done(ref: string) | NotMade | NotReady | NotWritten

  /** The artifacts a call adds. */
  function Added(making: Making): set<string> {
    if making.Made? then {making.ref} else making.left
  }

  /** The artifact the name's entry points at, if the active backend could know it. */
  function PriorOf(registry: map<string, Slot>, active: string, name: string): Option<string> {
    if name in registry && registry[name].Found? && registry[name].entry.backend == active
    then Some(registry[name].entry.ref) else None
  }

  lemma PriorMeaning(registry: map<string, Slot>, active: string, name: string, ref: string)
    ensures PriorOf(registry, active, name) == Some(ref) <==>
              name in registry && registry[name] == Found(Entry(ref, active))
  {}

  /** The names whose entry points at this artifact of the backend. */
  ghost function Pointers(registry: map<string, Slot>, active: string, ref: string): set<string> {
    set name | name in registry && registry[name] == Found(Entry(ref, active))
  }

  /** Every entry of the backend points at an artifact that exists. */
  ghost predicate NoneDangling(registry: map<string, Slot>, active: string, artifacts: set<string>) {
    forall name | name in registry && registry[name].Found? && registry[name].entry.backend == active ::
      registry[name].entry.ref in artifacts
  }

  /** Losing at most two artifacts leaves an entry dangling exactly if one of them is lost
      while an entry points at it. */
  lemma LosesTwo(registry: map<string, Slot>, active: string, before: set<string>, after: set<string>,
                 x: string, y: string)
    requires NoneDangling(registry, active, before) && before - {x, y} <= after
    ensures NoneDangling(registry, active, after) <==>
              (Pointers(registry, active, x) == {} || x in after) && (Pointers(registry, active, y) == {} || y in after)
  {
    if Pointers(registry, active, x) != {} && x !in after {
      var name :| name in Pointers(registry, active, x);
      assert registry[name].entry.ref == x;
    }
    if Pointers(registry, active, y) != {} && y !in after {
      var name :| name in Pointers(registry, active, y);
      assert registry[name].entry.ref == y;
    }
    forall name | name in registry && registry[name].Found? && registry[name].entry.backend == active
      ensures name in Pointers(registry, active, registry[name].entry.ref)
    {}
  }

  lemma PointersAfterWrite(registry: map<string, Slot>, active: string, name: string, made: string, ref: string)
    ensures ref != made ==>
              Pointers(registry[name := Found(Entry(made, active))], active, ref)
              == Pointers(registry, active, ref) - {name}
  {}

  /** The same where the name's entry is written anew, for an artifact that exists. */
  lemma LosesTwoAndWrites(registry: map<string, Slot>, active: string, before: set<string>, after: set<string>,
                          name: string, made: string, x: string, y: string)
    requires NoneDangling(registry, active, before) && before - {x, y} <= after && made in after
    ensures NoneDangling(registry[name := Found(Entry(made, active))], active, after) <==>
              && (Pointers(registry, active, x) <= {name} || x in after)
              && (Pointers(registry, active, y) <= {name} || y in after)
  {
    LosesTwo(registry[name := Found(Entry(made, active))], active, before + {made}, after, x, y);
    PointersAfterWrite(registry, active, name, made, x);
    PointersAfterWrite(registry, active, name, made, y);
  }

  lemma PointersAfterUnlink(registry: map<string, Slot>, active: string, name: string, ref: string)
    ensures Pointers(registry - {name}, active, ref) == Pointers(registry, active, ref) - {name}
  {}

  class CheckpointStore {
    const active: string
    var registry: map<string, Slot>
    var artifacts: set<string>

    constructor (active: string)
      ensures this.active == active && registry == map[] && artifacts == {} && Sound()
    {
      this.active, registry, artifacts := active, map[], {};
    }

    ghost function PointingAt(ref: string): set<string>
      reads this`registry
    {
      Pointers(registry, active, ref)
    }

    ghost predicate Sound()
      reads this
    {
      NoneDangling(registry, active, artifacts)
    }

    function Prior(name: string): Option<string>
      reads this`registry
    {
      PriorOf(registry, active, name)
    }

    ghost function Held(): Contents
      reads this
    {
      Contents(registry, artifacts)
    }

    method RemoveArtifact(ref: string, works: bool)
      modifies this`artifacts
      ensures artifacts == if works then old(artifacts) - {ref} else old(artifacts)
    {
      if works { artifacts := artifacts - {ref}; }
    }

    method Make(making: Making)
      modifies this`artifacts
      ensures artifacts == old(artifacts) + Added(making)
    {
      artifacts := artifacts + Added(making);
    }

    /** The prior artifact that a made checkpoint replaces: none that was read as prior, or it
        is the nominal ref's, cleared before, or the very artifact just made. */
    function Replaced(name: string, nominal: string, readable: bool, making: Making, removes: bool): set<string>
      reads this`registry
    {
      var prior := Prior(name);
      if readable && removes && prior.Some? && making.Made? && prior.value != nominal && prior.value != making.ref
      then {prior.value} else {}
    }

    /** What checkpoint(name) does up to the registry write: clears the nominal ref, has the
        backend make the checkpoint, waits, and removes the prior artifact. Done means that
        the entry may be written. */
    method MakeAndReplace(name: string, nominal: string, weather: Weather) returns (end: End)
      modifies this`artifacts
      ensures artifacts ==
                (old(artifacts) - (if weather.clears then {nominal} else {})) + Added(weather.making)
                - (if end.Done? || end.NotWritten?
                   then Replaced(name, nominal, weather.readable, weather.making, weather.removesPrior) else {})
      ensures end.Done? ==> weather.making == Made(end.ref) && end.ref in artifacts
      ensures end.NotMade? <==> weather.making.Refused?
      ensures end.NotReady? <==> weather.making.Made? && !weather.ready
      ensures end.NotWritten? <==> weather.making.Made? && weather.ready && !weather.writes
    {
      var prior := if weather.readable then Prior(name) else None;
      RemoveArtifact(nominal, weather.clears);
      Make(weather.making);
      if weather.making.Refused? {
        return NotMade;
      }
      var effective := weather.making.ref;
      if !weather.ready {
        return NotReady;
      }
      if prior.Some? && prior.value != nominal && prior.value != effective {
        RemoveArtifact(prior.value, weather.removesPrior);
      }
      end := if weather.writes then Done(effective) else NotWritten;
    }

    /** checkpoint(name): nominal is the ref minted from the name before the backend is asked. */
    method Checkpoint(name: string, nominal: string, weather: Weather) returns (end: End)
      modifies this
      // The artifacts, exactly
      ensures artifacts ==
                (old(artifacts) - (if weather.clears then {nominal} else {})) + Added(weather.making)
                - (if end.Done? || end.NotWritten?
                   then old(Replaced(name, nominal, weather.readable, weather.making, weather.removesPrior)) else {})
      // Of the name's own prior artifact
      ensures end.Done? && weather.readable && weather.removesPrior && old(name in registry && registry[name].Found?)
              && old(registry)[name].entry.backend == active && old(registry)[name].entry.ref !in {nominal, end.ref} ==>
                old(registry)[name].entry.ref !in artifacts
      // What is registered
      ensures registry == if end.Done? then old(registry)[name := Found(Entry(end.ref, active))] else old(registry)
      ensures end.Done? ==> end.ref in artifacts && weather.making == Made(end.ref)
      // A failed call costs at most what stood under the nominal ref
      ensures end.NotMade? || end.NotReady? ==> old(artifacts) - {nominal} <= artifacts
      // A successful one takes away the name's own prior artifact and no other
      ensures forall lost | lost in old(artifacts) && lost !in artifacts ::
                lost == nominal || old(Prior(name)) == Some(lost)
      // Exactly when an entry is left dangling
      ensures (end.NotMade? || end.NotReady?) && old(Sound()) ==>
                (Sound() <==> old(PointingAt(nominal)) == {} || nominal in artifacts)
      ensures end.Done? && old(Sound()) ==>
                (Sound() <==>
                  && (old(PointingAt(nominal)) <= {name} || nominal in artifacts)
                  && (old(Prior(name)).None? || old(PointingAt(Prior(name).value)) <= {name}
                      || old(Prior(name)).value in artifacts))
      ensures end.NotWritten? && old(Sound()) ==>
                (Sound() <==>
                  && (old(PointingAt(nominal)) == {} || nominal in artifacts)
                  && (old(Prior(name)).None? || old(Prior(name)).value in artifacts))
      // How the call ends
      ensures end.NotMade? <==> weather.making.Refused?
      ensures end.NotReady? <==> weather.making.Made? && !weather.ready
      ensures end.NotWritten? <==> weather.making.Made? && weather.ready && !weather.writes
    {
      ghost var before, other := artifacts, if Prior(name).Some? then Prior(name).value else nominal;
      end := MakeAndReplace(name, nominal, weather);
      if old(Sound()) {
        LosesTwo(registry, active, before, artifacts, nominal, other);
        if Prior(name).Some? { assert name in PointingAt(other); }
        if end.Done? { LosesTwoAndWrites(registry, active, before, artifacts, name, end.ref, nominal, other); }
      }
      if end.Done? {
        registry := registry[name := Found(Entry(end.ref, active))];
      }
    }

    /** find(name): probe answers whether the artifact is there, or throws (None). A corrupt or
        stale entry goes, if its file can be unlinked, and the name is as good as absent. */
    method Find(name: string, probed: bool, unlinks: bool) returns (found: Option<Entry>, threw: bool)
      modifies this`registry
      ensures registry == old(registry) || (unlinks && registry == old(registry) - {name})
      ensures old(Sound()) ==> Sound()
      ensures found.Some? ==> !threw && registry == old(registry)
      ensures found.Some? <==> !threw && name in old(registry) && old(registry)[name].Found?
                               && (old(registry)[name].entry.backend != active
                                   || old(registry)[name].entry.ref in artifacts)
      ensures found.Some? ==> old(registry)[name] == Found(found.value)
      ensures threw <==> name in old(registry) && old(registry)[name].Found?
                         && old(registry)[name].entry.backend == active && !probed
      ensures threw ==> registry == old(registry)
      ensures !threw && unlinks && name in old(registry) && found.None? ==> name !in registry
    {
      found, threw := None, false;
      if name !in registry {
        return;
      }
      var slot := registry[name];
      if slot.Corrupt? {
        if unlinks { registry := registry - {name}; }
        return;
      }
      if slot.entry.backend != active {
        return Some(slot.entry), false;
      }
      if !probed {
        return None, true;
      }
      if slot.entry.ref !in artifacts {
        if unlinks { registry := registry - {name}; }
        return;
      }
      found := Some(slot.entry);
    }

    /** remove(name): false exactly if there is no registry file. */
    method Remove(name: string, removes: bool, unlinks: bool) returns (existed: bool)
      modifies this
      ensures existed <==> name in old(registry)
      ensures registry == if unlinks then old(registry) - {name} else old(registry)
      ensures artifacts == if removes && old(Prior(name)).Some? then old(artifacts) - {old(Prior(name)).value}
                           else old(artifacts)
      ensures old(Sound()) ==>
                (Sound() <==> !removes || old(Prior(name)).None?
                              || old(PointingAt(Prior(name).value)) <= (if unlinks then {name} else {}))
    {
      existed := name in registry;
      ghost var before := artifacts;
      var prior := Prior(name);
      if prior.Some? {
        RemoveArtifact(prior.value, removes);
        if old(Sound()) {
          LosesTwo(registry, active, before, artifacts, prior.value, prior.value);
          LosesTwo(registry - {name}, active, before, artifacts, prior.value, prior.value);
          PointersAfterUnlink(registry, active, name, prior.value);
          assert name in PointingAt(prior.value);
        }
      }
      if existed && unlinks {
        registry := registry - {name};
      }
    }

    /** importFrom of an archive that names a checkpoint. */
    method Import(name: string, making: Making, removesPrior: bool, writes: bool) returns (end: End)
      modifies this
      ensures registry == if end.Done? then old(registry)[name := Found(Entry(end.ref, active))] else old(registry)
      ensures end.Done? ==> end.ref in artifacts && making == Made(end.ref)
      ensures end.NotMade? ==> old(artifacts) <= artifacts && (old(Sound()) ==> Sound())
      ensures forall lost | lost in old(artifacts) && lost !in artifacts :: old(Prior(name)) == Some(lost)
      ensures end.Done? && old(Sound()) ==>
                (Sound() <==> old(Prior(name)).None? || old(PointingAt(Prior(name).value)) <= {name}
                              || old(Prior(name)).value in artifacts)
      ensures end.NotWritten? && old(Sound()) ==>
                (Sound() <==> old(Prior(name)).None? || old(Prior(name)).value in artifacts)
      ensures artifacts == old(artifacts) + Added(making)
                           - (if making.Made? && removesPrior && old(Prior(name)).Some?
                                 && old(Prior(name)).value != making.ref
                              then {old(Prior(name)).value} else {})
      ensures !end.NotReady?
      ensures end.NotMade? <==> making.Refused?
      ensures end.NotWritten? <==> making.Made? && !writes
    {
      ghost var before := artifacts;
      Make(making);
      if making.Refused? {
        return NotMade;
      }
      var prior := Prior(name);
      if prior.Some? && prior.value != making.ref {
        RemoveArtifact(prior.value, removesPrior);
      }
      if old(Sound()) && prior.Some? {
        LosesTwo(registry, active, before, artifacts, prior.value, prior.value);
        LosesTwoAndWrites(registry, active, before, artifacts, name, making.ref, prior.value, prior.value);
        assert name in PointingAt(prior.value);
      }
      if !writes {
        return NotWritten;
      }
      registry := registry[name := Found(Entry(making.ref, active))];
      end := Done(making.ref);
    }
  }

  // ----- any run of calls -----

  datatype Call =
    | CheckpointCall(name: string, nominal: string, weather: Weather)
    | FindCall(name: string, probed: bool, unlinks: bool)
    | RemoveCall(name: string, removes: bool, unlinks: bool)
    | ImportCall(name: string, making: Making, removesPrior: bool, writes: bool)

  /** A registry and the artifacts there are. */
  datatype Contents = Contents(registry: map<string, Slot>, artifacts: set<string>)

  /** What a call leaves behind, going by which of its steps work. */
  function Applied(active: string, c: Contents, call: Call): Contents {
    var prior := PriorOf(c.registry, active, call.name);
    match call
    case CheckpointCall(name, nominal, w) =>
      var made := (if w.clears then c.artifacts - {nominal} else c.artifacts) + Added(w.making);
      if w.making.Refused? || !w.ready then c.(artifacts := made)
      else
        var ref := w.making.ref;
        var superseded := w.readable && w.removesPrior && prior.Some? && prior.value != nominal && prior.value != ref;
        Contents(if w.writes then c.registry[name := Found(Entry(ref, active))] else c.registry,
                 if superseded then made - {prior.value} else made)
    case FindCall(name, probed, unlinks) =>
      var stale :=
        name in c.registry && (c.registry[name].Corrupt? || (prior.Some? && probed && prior.value !in c.artifacts));
      if stale && unlinks then c.(registry := c.registry - {name}) else c
    case RemoveCall(name, removes, unlinks) =>
      Contents(if unlinks then c.registry - {name} else c.registry,
               if removes && prior.Some? then c.artifacts - {prior.value} else c.artifacts)
    case ImportCall(name, making, removesPrior, writes) =>
      var made := c.artifacts + Added(making);
      if making.Refused? then c.(artifacts := made)
      else
        Contents(if writes then c.registry[name := Found(Entry(making.ref, active))] else c.registry,
                 if removesPrior && prior.Some? && prior.value != making.ref then made - {prior.value} else made)
  }

  /** The calls one after another. */
  function AppliedAll(active: string, c: Contents, calls: seq<Call>): Contents {
    if calls == [] then c
    else Applied(active, AppliedAll(active, c, calls[..|calls| - 1]), calls[|calls| - 1])
  }

  /** Content-addressed refs that two names never share: every ref a call makes belongs to the
      name it is made for, and a nominal ref belongs to none. */
  ghost predicate Unshared(call: Call, owner: map<string, string>) {
    match call
    case CheckpointCall(name, nominal, weather) =>
      && nominal !in owner
      && (weather.making.Made? ==> weather.making.ref in owner && owner[weather.making.ref] == name)
    case ImportCall(name, making, _, _) => making.Made? ==> making.ref in owner && owner[making.ref] == name
    case FindCall(_, _, _) | RemoveCall(_, _, _) => true
  }

  /** The registry file is written, or deleted, if the artifact it points at was removed. */
  ghost predicate Followed(call: Call) {
    match call
    case CheckpointCall(_, _, weather) => weather.writes || !weather.removesPrior
    case ImportCall(_, _, removesPrior, writes) => writes || !removesPrior
    case RemoveCall(_, removes, unlinks) => unlinks || !removes
    case FindCall(_, _, _) => true
  }

  /** Entries point at refs of their own name only. */
  ghost predicate Owned(registry: map<string, Slot>, active: string, owner: map<string, string>) {
    forall name | name in registry && registry[name].Found? && registry[name].entry.backend == active ::
      registry[name].entry.ref in owner && owner[registry[name].entry.ref] == name
  }

  lemma OwnedPointers(registry: map<string, Slot>, active: string, owner: map<string, string>, ref: string)
    requires Owned(registry, active, owner)
    ensures ref !in owner ==> Pointers(registry, active, ref) == {}
    ensures ref in owner ==> Pointers(registry, active, ref) <= {owner[ref]}
  {
    forall name | name in Pointers(registry, active, ref)
      ensures ref in owner && owner[ref] == name
    {
      assert registry[name].entry.ref == ref;
    }
  }

  /** One call of the store: it leaves exactly what Applied says. */
  method Perform(store: CheckpointStore, call: Call, ghost owner: map<string, string>)
    requires store.Sound() && Owned(store.registry, store.active, owner)
    requires Unshared(call, owner) && Followed(call)
    modifies store
    ensures store.Sound() && Owned(store.registry, store.active, owner)
    ensures store.Held() == Applied(store.active, old(store.Held()), call)
  {
    var prior := store.Prior(call.name);
    if prior.Some? { OwnedPointers(store.registry, store.active, owner, prior.value); }
    match call {
      case CheckpointCall(name, nominal, weather) =>
        OwnedPointers(store.registry, store.active, owner, nominal);
        var end := store.Checkpoint(name, nominal, weather);
      case FindCall(name, probed, unlinks) =>
        var found, threw := store.Find(name, probed, unlinks);
      case RemoveCall(name, removes, unlinks) =>
        var existed := store.Remove(name, removes, unlinks);
      case ImportCall(name, making, removesPrior, writes) =>
        var end := store.Import(name, making, removesPrior, writes);
    }
  }

  /** Over any run of checkpoint, find, remove and import calls, whichever of them fail, every
      entry of the active backend goes on pointing at an artifact that exists. */
  method PerformAll(store: CheckpointStore, calls: seq<Call>, ghost owner: map<string, string>)
    requires store.Sound() && Owned(store.registry, store.active, owner)
    requires forall call <- calls :: Unshared(call, owner) && Followed(call)
    modifies store
    ensures store.Sound() && Owned(store.registry, store.active, owner)
    ensures store.Held() == AppliedAll(store.active, old(store.Held()), calls)
  {
    for i := 0 to |calls|
      invariant store.Sound() && Owned(store.registry, store.active, owner)
      invariant store.Held() == AppliedAll(store.active, old(store.Held()), calls[..i])
    {
      assert calls[..i + 1][..i] == calls[..i];
      Perform(store, calls[i], owner);
    }
    assert calls[..|calls|] == calls;
  }
}
