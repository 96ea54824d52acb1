/** The host ports this process has handed out, TCP and UDP apart. */
module FreePorts {
  import opened Options

  const MAX_ALLOCATE_ATTEMPTS: nat := 100

  /** What binding an ephemeral port answers: the port the system picked, or an error. */
  type Picks = picks: seq<Option<nat>> | |picks| == 100
    witness seq(100, _ => None)

  /** The first pick that is not issued, unless binding fails before one is found. */
  function FirstFresh(picks: seq<Option<nat>>, issued: set<nat>): Option<nat> {
    if picks == [] || picks[0].None? then None
    else if picks[0].value !in issued then picks[0]
    else FirstFresh(picks[1..], issued)
  }

  /** allocate() throws exactly if every pick up to the first failing bind, or all hundred,
      are ports already handed out; otherwise it answers a port nobody holds. */
  lemma {:induction false} FirstFreshMeaning(picks: seq<Option<nat>>, issued: set<nat>)
    ensures FirstFresh(picks, issued).Some? ==>
              FirstFresh(picks, issued) in picks && FirstFresh(picks, issued).value !in issued
    ensures FirstFresh(picks, issued).None? <==>
              forall i | 0 <= i < |picks| && picks[i].Some? && picks[i].value !in issued ::
                exists j :: 0 <= j < i && picks[j].None?
  {
    if picks != [] && picks[0].Some? {
      var rest := picks[1..];
      FirstFreshMeaning(rest, issued);
      assert forall i | 0 <= i < |rest| :: rest[i] == picks[i + 1];
      if picks[0].value in issued {
        forall i | 0 <= i < |picks| && picks[i].Some? && picks[i].value !in issued
          ensures (exists j :: 0 <= j < i && picks[j].None?) <==> exists j :: 0 <= j < i - 1 && rest[j].None?
        {
          if j :| 0 <= j < i && picks[j].None? {
            assert rest[j - 1].None?;
          }
        }
        if FirstFresh(rest, issued).Some? {
          var k :| 0 <= k < |rest| && rest[k].Some? && rest[k].value !in issued
                   && !exists j :: 0 <= j < k && rest[j].None?;
          assert picks[k + 1] == rest[k];
        } else {
          forall i | 0 <= i < |picks| && picks[i].Some? && picks[i].value !in issued
            ensures exists j :: 0 <= j < i && picks[j].None?
          {
            assert rest[i - 1] == picks[i];
            var j :| 0 <= j < i - 1 && rest[j].None?;
            assert picks[j + 1].None?;
          }
        }
      }
    }
  }

  /** One of the two pools, issued for TCP or issuedUdp: same contract, same retry shape. */
  class Pool {
    var issued: set<nat>
    /** How often allocate() threw. */
    ghost var failures: nat

    constructor ()
      ensures issued == {} && failures == 0
    {
      issued, failures := {}, 0;
    }

    method Allocate(picks: Picks) returns (port: Option<nat>)
      modifies this
      ensures port == FirstFresh(picks, old(issued))
      ensures failures == old(failures) + (if port.None? then 1 else 0)
      ensures port.None? ==> issued == old(issued)
      ensures port.Some? ==> port.value !in old(issued) && issued == old(issued) + {port.value}
    {
      FirstFreshMeaning(picks, issued);
      var attempt := 0;
      while attempt < MAX_ALLOCATE_ATTEMPTS
        invariant 0 <= attempt <= 100
        invariant issued == old(issued) && failures == old(failures)
        invariant FirstFresh(picks, issued) == FirstFresh(picks[attempt..], issued)
      {
        var pick := picks[attempt];
        assert picks[attempt..][0] == pick && picks[attempt..][1..] == picks[attempt + 1..];
        if pick.None? {
          failures := failures + 1;
          return None;
        }
        if pick.value !in issued {
          issued := issued + {pick.value};
          return pick;
        }
        attempt := attempt + 1;
      }
      failures := failures + 1;
      port := None;
    }

    /** Releasing a port that was never issued is a no-op. */
    method Release(port: nat)
      modifies this`issued
      ensures issued == old(issued) - {port}
    {
      issued := issued - {port};
    }

    method ReleaseAll(ports: set<nat>)
      modifies this`issued
      ensures issued == old(issued) - ports
    {
      var left := ports;
      while left != {}
        invariant left <= ports && issued == old(issued) - (ports - left)
        decreases left
      {
        var port :| port in left;
        Release(port);
        left := left - {port};
      }
    }
  }
}
