/** The one counter behind every sandbox name a process mints. */
module SandboxNames {
  import opened Decimals
  import opened Lines
  import RunLedger
  import Spaces

  /** rz-<RunId.value>-<n> */
  function Name(runId: string, n: nat): string {
    "rz-" + runId + "-" + Print(n)
  }

  lemma NamesDiffer(runId: string, a: nat, b: nat)
    requires Name(runId, a) == Name(runId, b)
    ensures a == b
  {
    var prefix := "rz-" + runId + "-";
    assert Name(runId, a)[|prefix|..] == Print(a) && Name(runId, b)[|prefix|..] == Print(b);
    PrintInjective(a, b);
  }

  lemma PrintIsDigits(n: nat, i: nat)
    requires i < |Print(n)|
    ensures Print(n)[i] != '-'
  {}

  /** A name behind something else on its line is nobody's name. */
  lemma NothingBeforeAName(runId: string, before: string, a: nat, b: nat)
    requires before != ""
    ensures before + Name(runId, a) != Name(runId, b)
  {
    var joined, name, prefix := before + Name(runId, a), Name(runId, b), "rz-" + runId + "-";
    if |joined| == |name| {
      var dash := |before| + |prefix| - 1;
      assert joined[dash] == Name(runId, a)[|prefix| - 1] == '-';
      PrintIsDigits(b, dash - |prefix|);
      assert name[dash] != '-';
    }
  }

  lemma NameIsNameable(runId: string, n: nat)
    requires '\n' !in runId
    ensures RunLedger.Nameable(Name(runId, n))
  {
    assert Name(runId, n)[0] == 'r' && !Spaces.IsSpace('r');
    assert forall i | 0 <= i < |Print(n)| :: Print(n)[i] != '\n';
  }

  class SandboxNames {
    const runId: string
    var sequence: nat
    /** Every name minted, and whatever other names were around when the process began. */
    ghost var known: set<string>

    /** No name this counter will mint later is known. */
    ghost predicate Valid()
      reads this
    {
      '\n' !in runId && forall n | n > sequence :: Name(runId, n) !in known
    }

    constructor (runId: string, ghost known: set<string>)
      requires '\n' !in runId && forall n | n > 0 :: Name(runId, n) !in known
      ensures Valid() && this.runId == runId && this.known == known
    {
      this.runId, this.known := runId, known;
      sequence := 0;
    }

    method NextSandboxName() returns (name: string)
      requires Valid()
      modifies this
      ensures Valid() && sequence == old(sequence) + 1
      ensures name == Name(runId, sequence) && RunLedger.Nameable(name)
      ensures name !in old(known) && known == old(known) + {name}
    {
      sequence := sequence + 1;
      name := Name(runId, sequence);
      known := known + {name};
      NameIsNameable(runId, sequence);
      forall n | n > sequence
        ensures Name(runId, n) != name
      {
        if Name(runId, n) == name { NamesDiffer(runId, n, sequence); }
      }
    }
  }
}
