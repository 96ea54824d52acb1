/** The run's file while nothing about it fails: exactly the names tracked and not untracked. */
module LifecycleTidy {
  import opened LedgerDisk
  import opened LedgerLines
  import opened Lifecycle
  import opened LifecycleCrash
  import opened LifecycleLedger
  import opened Options

  /** What an operation that takes the name's own line off leaves of it, where the name is listed
      once: the line stays only where the file was to be unlinked and was not, unless pruning
      unlinked it all the same. */
  lemma TakenOff(d: Disk, op: Op, n: nat)
    requires Allowed(d, op) && Takes(op, n) && Distinct(Read(d.sandboxes))
    ensures Name(n) in Lines(Apply(d, op)) <==>
              op.NothingLeft? && !op.unlinked && Name(n) in Read(d.sandboxes) && !Misprunes(op.pruning, d.networks)
  {
    RemoveFirstFromDistinct(Read(d.sandboxes), Name(n));
    if op.NothingLeft? {
      PruneMoves(if op.unlinked then d.(sandboxes := NO_LINES) else d, op.pruning, n);
    }
  }

  /** The file's lines, written or being written, are these names, each once. */
  ghost predicate Lists(d: Disk, names: set<nat>) {
    && Unbroken(d) && Distinct(Lines(d))
    && (forall line :: line in Lines(d) <==> line.Name? && line.n in names)
    && (d.rewrite.Some? ==> d.rewrite.value.name !in names)
  }

  /** No fault, and no unlinking of the file that fails; an append that throws wrote nothing. */
  predicate Works(s: State, step: Step)
    requires Fits(s, step)
  {
    var op := OpOf(s, step);
    && Faultless(op)
    && (op.NothingLeft? ==> op.unlinked)
    && (op.Append? && op.wrote.Whole? ==>
          (step.Start? && step.start.Track?) || (step.Checkpoint? && step.checkpoint.TrackFresh?))
  }

  ghost predicate WorkingRun(s: State, steps: seq<Step>)
    requires IsRun(s, steps)
    decreases |steps|
  {
    steps != [] ==> Works(s, steps[0]) && WorkingRun(Next(s, steps[0]), steps[1..])
  }

  /** The names that are to be listed, after an operation. */
  function Tracked(names: set<nat>, op: Op): set<nat> {
    match op
    case Append(n, Whole) => names + {n}
    case Truncate(n) => names - {n}
    case NothingLeft(n, _, _, _) => names - {n}
    case _ => names
  }

  lemma TruncateLists(d: Disk, n: nat, names: set<nat>)
    requires Lists(d, names) && Allowed(d, Truncate(n))
    ensures Lists(Apply(d, Truncate(n)), names - {n})
  {
    RemoveFirstFromDistinct(Read(d.sandboxes), Name(n));
    assert Lines(Apply(d, Truncate(n))) == Rest(d.sandboxes, n);
  }

  lemma NothingLeftLists(d: Disk, op: Op, names: set<nat>)
    requires Lists(d, names) && Allowed(d, op) && Faultless(op) && op.NothingLeft? && op.unlinked
    ensures Lists(Apply(d, op), names - {op.n})
  {
    RemoveFirstFromDistinct(Read(d.sandboxes), Name(op.n));
    assert forall m | m in names :: Name(m) in Lines(d);
    assert names - {op.n} == {} && Lines(Apply(d, op)) == [];
  }

  lemma OthersList(d: Disk, op: Op, names: set<nat>)
    requires Lists(d, names) && Allowed(d, op) && Faultless(op)
    requires !op.Truncate? && !op.NothingLeft? && !op.Append?
    ensures Lists(Apply(d, op), names)
  {
    assert Lines(Apply(d, op)) == Lines(d);
  }

  lemma ApplyLists(d: Disk, op: Op, names: set<nat>)
    requires Lists(d, names) && Allowed(d, op) && Faultless(op) && (op.NothingLeft? ==> op.unlinked)
    requires op.Append? && op.wrote.Whole? ==> op.n !in names
    ensures Lists(Apply(d, op), Tracked(names, op))
  {
    match op
    case Truncate(n) => TruncateLists(d, n, names);
    case NothingLeft(_, _, _, _) => NothingLeftLists(d, op, names);
    case Append(n, wrote) => AppendLists(d, n, wrote, names);
    case _ => OthersList(d, op, names);
  }

  lemma AppendLists(d: Disk, n: nat, wrote: Appending, names: set<nat>)
    requires Lists(d, names) && d.rewrite.None? && !wrote.Part? && (wrote.Whole? ==> n !in names)
    ensures Lists(d.(sandboxes := Appended(d.sandboxes, n, wrote)), if wrote.Whole? then names + {n} else names)
  {
    if wrote.Whole? {
      var lines := d.sandboxes.lines;
      assert Read(d.sandboxes) == lines && Read(Appended(d.sandboxes, n, wrote)) == lines + [Name(n)];
      assert Name(n) !in lines;
    }
  }

  lemma StartDue(s: State, c: nat, a: StartStep)
    requires LedgerInv(s) && Lists(s.disk, s.due) && Enabled(s, Start(c, a)) && Works(s, Start(c, a))
    ensures NextStart(s, c, a).due == Tracked(s.due, OpOf(s, Start(c, a)))
    ensures a.Track? ==> s.containers[c].name !in s.due
  {
    assert InStep(s, s.containers[c]);
  }

  lemma CheckpointDue(s: State, c: nat, a: CheckpointStep)
    requires LedgerInv(s) && Lists(s.disk, s.due) && Enabled(s, Checkpoint(c, a)) && Works(s, Checkpoint(c, a))
    ensures NextCheckpoint(s, c, a).due == Tracked(s.due, OpOf(s, Checkpoint(c, a)))
    ensures a.TrackFresh? ==> s.sequence + 1 !in s.due
  {}

  /** The names due are the names to be listed. */
  lemma DueMoves(s: State, step: Step)
    requires LedgerInv(s) && Lists(s.disk, s.due) && Enabled(s, step) && Works(s, step)
    ensures Next(s, step).due == Tracked(s.due, OpOf(s, step))
    ensures OpOf(s, step).Append? && OpOf(s, step).wrote.Whole? ==> OpOf(s, step).n !in s.due
  {
    match step
    case Start(c, a) => StartDue(s, c, a);
    case Checkpoint(c, a) => CheckpointDue(s, c, a);
    case _ =>
  }

  lemma {:induction false} ListsOverRuns(s: State, steps: seq<Step>)
    requires LedgerInv(s) && Lists(s.disk, s.due) && IsRun(s, steps) && WorkingRun(s, steps)
    ensures Lists(After(s, steps).disk, After(s, steps).due)
    decreases |steps|
  {
    if steps != [] {
      DueMoves(s, steps[0]);
      ApplyLists(s.disk, OpOf(s, steps[0]), s.due);
      LedgerStep(s, steps[0]);
      ListsOverRuns(Next(s, steps[0]), steps[1..]);
    }
  }

  /** The name is untracked in the course of the run. */
  ghost predicate EverTaken(s: State, steps: seq<Step>, n: nat)
    requires IsRun(s, steps)
    decreases |steps|
  {
    steps != [] && (Takes(OpOf(s, steps[0]), n) || EverTaken(Next(s, steps[0]), steps[1..], n))
  }

  /** It is tracked, and not untracked after that. */
  ghost predicate StillTracked(s: State, steps: seq<Step>, n: nat)
    requires IsRun(s, steps)
    decreases |steps|
  {
    steps != [] && (
      || (OpOf(s, steps[0]) == Append(n, Whole) && !EverTaken(Next(s, steps[0]), steps[1..], n))
      || StillTracked(Next(s, steps[0]), steps[1..], n))
  }

  lemma {:induction false} DueOverRuns(s: State, steps: seq<Step>, n: nat)
    requires LedgerInv(s) && Lists(s.disk, s.due) && IsRun(s, steps) && WorkingRun(s, steps)
    ensures n in After(s, steps).due <==> (n in s.due && !EverTaken(s, steps, n)) || StillTracked(s, steps, n)
    decreases |steps|
  {
    if steps != [] {
      DueMoves(s, steps[0]);
      ApplyLists(s.disk, OpOf(s, steps[0]), s.due);
      LedgerStep(s, steps[0]);
      DueOverRuns(Next(s, steps[0]), steps[1..], n);
    }
  }

  /** In every interleaving in which nothing about the file fails, its lines - those it has, or
      is to have once the rewrite under way is finished - are exactly the names that some
      container tracked and has not untracked since, each once. So a watchdog finds none of a
      container that was stopped. */
  lemma ListsExactlyTheTracked(s: State, steps: seq<Step>)
    requires Initial(s) && IsRun(s, steps) && WorkingRun(s, steps)
    ensures var lines := Lines(After(s, steps).disk);
            && Distinct(lines) && (forall line <- lines :: line.Name?)
            && (forall n :: Name(n) in lines <==> StillTracked(s, steps, n))
    ensures After(s, steps).disk.rewrite.None? ==>
              Read(After(s, steps).disk.sandboxes) == Lines(After(s, steps).disk)
  {
    InitialLedger(s);
    ListsOverRuns(s, steps);
    forall n ensures Name(n) in Lines(After(s, steps).disk) <==> StillTracked(s, steps, n) {
      DueOverRuns(s, steps, n);
    }
  }
}
