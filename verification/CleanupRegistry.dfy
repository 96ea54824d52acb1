/** The exit-path cleanup registry, which is also the list of running containers. */
module CleanupRegistry {
  import opened LedgerLines

  /** handle.id: microsandbox's is the sandbox's name, docker's one the daemon assigned. */
  datatype HandleId = Named(name: string) | Assigned(number: nat)

  /** JavaScript's Map.set on the keys alone: a new key goes last, a known one keeps its place. */
  function Keyed(ids: seq<HandleId>, id: HandleId): seq<HandleId> {
    if id in ids then ids else ids + [id]
  }

  class CleanupRegistry {
    /** The keys of the registered map, in insertion order. */
    var ids: seq<HandleId>
    /** Every teardown the exit hook has run, in order. */
    var tornDown: seq<HandleId>

    ghost predicate Valid()
      reads this
    {
      Distinct(ids)
    }

    constructor ()
      ensures Valid() && ids == [] && tornDown == []
    {
      ids, tornDown := [], [];
    }

    method Register(id: HandleId)
      requires Valid()
      modifies this`ids
      ensures Valid() && ids == Keyed(old(ids), id)
      ensures ids == if id in old(ids) then old(ids) else old(ids) + [id]
    {
      if id !in ids {
        ids := ids + [id];
      }
    }

    method Unregister(id: HandleId)
      requires Valid()
      modifies this`ids
      ensures Valid() && ids == RemoveFirst(old(ids), id) && id !in ids
    {
      RemoveFirstFromDistinct(ids, id);
      ids := RemoveFirst(ids, id);
    }

    /** liveContainers: in start order. */
    method LiveContainers() returns (live: seq<HandleId>)
      ensures live == ids
    {
      live := ids;
    }

    /** One teardown; it may throw after doing its work or before. */
    method Cleanup(id: HandleId) returns (threw: bool)
      modifies this`tornDown
      ensures tornDown == old(tornDown) + [id]
    {
      tornDown := tornDown + [id];
      threw := *;
    }

    /** runAll: one container's failing teardown keeps no other from being torn down. */
    method RunAll()
      requires Valid()
      modifies this
      ensures Valid() && ids == []
      ensures tornDown == old(tornDown) + old(ids)
    {
      var i := 0;
      while i < |ids|
        invariant 0 <= i <= |ids| && ids == old(ids)
        invariant tornDown == old(tornDown) + ids[..i]
      {
        var threw := Cleanup(ids[i]);
        assert ids[..i + 1] == ids[..i] + [ids[i]];
        i := i + 1;
      }
      assert ids[..|ids|] == ids;
      ids := [];
    }
  }

  /** checkpoint()'s re-keying after the handle was renamed: the container leaves its place
      in start order for the last one, and no other container is touched. */
  lemma {:induction false} RekeyedInPlaceOfOld(ids: seq<HandleId>, before: HandleId, after: HandleId)
    requires Distinct(ids) && before in ids && after !in ids
    ensures var rekeyed := Keyed(RemoveFirst(ids, before), after);
            && Distinct(rekeyed) && rekeyed[|rekeyed| - 1] == after
            && RemoveFirst(rekeyed, after) == RemoveFirst(ids, before)
            && forall id :: id in rekeyed <==> id == after || (id in ids && id != before)
  {
    RemoveFirstFromDistinct(ids, before);
    UntrackUndoesTrack(RemoveFirst(ids, before), after);
  }
}
