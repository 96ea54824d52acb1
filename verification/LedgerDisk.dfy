/** A run's ledger on disk, down to the rewrite of its .sandboxes file: truncated first, then
    written, with a crash or an error possible at any byte of it. */
module LedgerDisk {
  import opened LedgerLines
  import opened Options

  /** A line as it read: some sandbox's name, or nobody's - a name in part, or two run together. */
  datatype Line = Name(n: nat) | Junk

  /** Whether the text ends with a newline; if not, how its last line read. */
  datatype Torn = Clean | Cut(line: Line)

  datatype File = File(lines: seq<Line>, torn: Torn)

  /** Missing, or empty. */
  const NO_LINES := File([], Clean)

  /** removeSandboxName has truncated the file and is to write these lines without that name. */
  datatype Rewrite = Rewrite(name: nat, rest: seq<Line>)

  datatype Disk = Disk(
    sandboxes: File,
    rewrite: Option<Rewrite>,
    /** Whether the .networks file lists anything, and whether the run record exists. */
    networks: bool,
    record: bool)

  datatype LedgerFile = RecordFile | SandboxesFile | NetworksFile

  /** pruneIfEmpty: which reads work - a file that cannot be read counts as empty - and, if both
      files count as empty, which of the three are unlinked. */
  datatype Pruning = Pruning(readsSandboxes: bool, readsNetworks: bool, unlinked: set<LedgerFile>)

  /** How much of its line an append writes. */
  datatype Appending = Nothing | Part(line: Line) | Whole

  datatype Op =
    | NoOp
    | Append(n: nat, wrote: Appending)
    /** The lines were read, some are left, and the file is open and truncated. */
    | Truncate(n: nat)
    /** So many lines are written by now, and then perhaps part of the next. */
    | WritePart(n: nat, kept: nat, torn: Torn)
    | Finish(n: nat, pruning: Pruning)
    | GiveUp(n: nat)
    | OpenFails(n: nat)
    /** No line is left, or the lines could not be read: the file is unlinked. */
    | NothingLeft(n: nat, legible: bool, unlinked: bool, pruning: Pruning)
    | AppendNetwork
    | RemoveNetwork(left: bool, pruning: Pruning)
    | RemoveNetworkFails(left: bool)

  /** readLines, which takes an unterminated last line for a line, as the watchdog does. */
  function Read(file: File): seq<Line> {
    file.lines + if file.torn.Cut? then [file.torn.line] else []
  }

  /** What removing a name leaves to be written. */
  function Rest(file: File, n: nat): seq<Line> {
    RemoveFirst(Read(file), Name(n))
  }

  /** One operation after another, each as a whole: they share a lock. A file is opened for
      writing only if there are lines to write. */
  predicate Allowed(d: Disk, op: Op) {
    match op
    case NoOp => true
    case Append(_, _) | AppendNetwork | RemoveNetworkFails(_) => d.rewrite.None?
    case Truncate(n) => d.rewrite.None? && Rest(d.sandboxes, n) != []
    case OpenFails(n) => d.rewrite.None? && Rest(d.sandboxes, n) != []
    case WritePart(n, kept, torn) =>
      && d.rewrite.Some? && d.rewrite.value.name == n && |d.sandboxes.lines| <= kept <= |d.rewrite.value.rest|
      && (torn.Cut? ==> kept < |d.rewrite.value.rest|)
    case Finish(n, _) => d.rewrite.Some? && d.rewrite.value.name == n
    case GiveUp(n) => d.rewrite.Some? && d.rewrite.value.name == n
    case NothingLeft(n, legible, _, _) => d.rewrite.None? && (legible ==> Rest(d.sandboxes, n) == [])
    case RemoveNetwork(left, _) => d.rewrite.None? && (left ==> d.networks)
  }

  /** appendFile, which goes on where the text ends: behind an unterminated line the name is
      no line of its own. */
  function Appended(file: File, n: nat, wrote: Appending): File {
    match wrote
    case Nothing => file
    case Part(line) => file.(torn := Cut(line))
    case Whole => File(file.lines + [if file.torn.Cut? then Junk else Name(n)], Clean)
  }

  function Pruned(d: Disk, p: Pruning): Disk {
    if (p.readsSandboxes && Read(d.sandboxes) != []) || (p.readsNetworks && d.networks) then d
    else d.(sandboxes := if SandboxesFile in p.unlinked then NO_LINES else d.sandboxes,
            networks := d.networks && NetworksFile !in p.unlinked,
            record := d.record && RecordFile !in p.unlinked)
  }

  function Apply(d: Disk, op: Op): Disk
    requires Allowed(d, op)
  {
    match op
    case NoOp | OpenFails(_) => d
    case Append(n, wrote) => d.(sandboxes := Appended(d.sandboxes, n, wrote))
    case Truncate(n) => d.(sandboxes := NO_LINES, rewrite := Some(Rewrite(n, Rest(d.sandboxes, n))))
    case WritePart(_, kept, torn) => d.(sandboxes := File(d.rewrite.value.rest[..kept], torn))
    case Finish(_, p) => Pruned(d.(sandboxes := File(d.rewrite.value.rest, Clean), rewrite := None), p)
    case GiveUp(_) => d.(rewrite := None)
    case NothingLeft(_, _, unlinked, p) => Pruned(if unlinked then d.(sandboxes := NO_LINES) else d, p)
    case AppendNetwork => d.(networks := true)
    case RemoveNetwork(left, p) => Pruned(d.(networks := left), p)
    case RemoveNetworkFails(left) => d.(networks := left)
  }

  /** The lines the file has, or is to have once the rewrite under way is finished. */
  function Lines(d: Disk): seq<Line> {
    if d.rewrite.Some? then d.rewrite.value.rest else Read(d.sandboxes)
  }

  /** The operation takes this name's own line off. */
  predicate Takes(op: Op, n: nat) {
    (op.Truncate? || op.NothingLeft?) && op.n == n
  }

  /** A pruning that cannot read the .sandboxes file deletes it with all it lists. */
  predicate Misprunes(p: Pruning, networks: bool) {
    !p.readsSandboxes && !(p.readsNetworks && networks) && SandboxesFile in p.unlinked
  }

  /** The operation loses this name's line, though it is about another's: an append behind an
      unterminated line, where that line was the name's or the append is; a rewrite that fails
      before it got so far; an unlinking of lines that could not be read; such a pruning. */
  predicate Loses(d: Disk, op: Op, n: nat) {
    match op
    case Append(m, wrote) =>
      && d.sandboxes.torn.Cut? && !wrote.Nothing? && wrote != Part(Name(n)) && Name(n) !in d.sandboxes.lines
      && (d.sandboxes.torn.line == Name(n) || (wrote.Whole? && m == n))
    case GiveUp(_) => Name(n) in Lines(d) && Name(n) !in Read(d.sandboxes)
    case NothingLeft(_, legible, unlinked, p) =>
      Name(n) in Lines(d) && ((!legible && unlinked) || Misprunes(p, d.networks))
    case Finish(_, p) => Name(n) in Lines(d) && Misprunes(p, d.networks)
    case RemoveNetwork(left, p) => Name(n) in Lines(d) && Misprunes(p, left)
    case _ => false
  }

  /** The operation lists the name: it is appended to whole lines; or a line that was written
      in part happens to read as it. */
  predicate Gains(d: Disk, op: Op, n: nat) {
    match op
    case Append(m, wrote) => wrote == Part(Name(n)) || (wrote.Whole? && m == n && d.sandboxes.torn.Clean?)
    case GiveUp(_) => Name(n) !in Lines(d) && Name(n) in Read(d.sandboxes)
    case _ => false
  }

  /** While a rewrite is under way, the file holds the first of its lines. */
  predicate InOrder(d: Disk) {
    d.rewrite.Some? ==> d.sandboxes.lines <= d.rewrite.value.rest
  }

  lemma {:induction false} OthersStay(lines: seq<Line>, own: Line, line: Line)
    requires line != own
    ensures line in RemoveFirst(lines, own) <==> line in lines
  {
    if lines != [] && lines[0] != own {
      assert lines == [lines[0]] + lines[1..];
      OthersStay(lines[1..], own, line);
    } else if lines != [] {
      assert lines == [lines[0]] + lines[1..];
    }
  }

  lemma InOrderKept(d: Disk, op: Op)
    requires InOrder(d) && Allowed(d, op)
    ensures InOrder(Apply(d, op))
  {}

  lemma ReadOf(file: File, line: Line)
    ensures line in Read(file) <==> line in file.lines || file.torn == Cut(line)
  {}

  lemma AppendMoves(file: File, m: nat, wrote: Appending, n: nat)
    ensures Name(n) in Read(Appended(file, m, wrote)) <==>
              match wrote
              case Nothing => Name(n) in Read(file)
              case Part(line) => Name(n) in file.lines || line == Name(n)
              case Whole => Name(n) in file.lines || (m == n && file.torn.Clean?)
  {
    var last := if file.torn.Cut? then Junk else Name(m);
    if wrote.Whole? { assert forall line :: line in file.lines + [last] <==> line in file.lines || line == last; }
    ReadOf(Appended(file, m, wrote), Name(n));
  }

  lemma PruneMoves(d: Disk, p: Pruning, n: nat)
    requires d.rewrite.None?
    ensures Name(n) in Read(Pruned(d, p).sandboxes) <==> Name(n) in Read(d.sandboxes) && !Misprunes(p, d.networks)
  {}

  lemma RewriteMoves(d: Disk, op: Op, n: nat)
    requires Allowed(d, op) && !Takes(op, n)
    requires op.Truncate? || op.WritePart? || op.Finish? || op.GiveUp? || op.OpenFails?
    ensures Name(n) in Lines(Apply(d, op)) <==> Gains(d, op, n) || (Name(n) in Lines(d) && !Loses(d, op, n))
  {
    if op.Truncate? { OthersStay(Read(d.sandboxes), Name(op.n), Name(n)); }
    if op.Finish? {
      var whole := d.(sandboxes := File(d.rewrite.value.rest, Clean), rewrite := None);
      assert Read(whole.sandboxes) == d.rewrite.value.rest;
      PruneMoves(whole, op.pruning, n);
    }
  }

  lemma NothingLeftMoves(d: Disk, op: Op, n: nat)
    requires Allowed(d, op) && !Takes(op, n) && op.NothingLeft?
    ensures Name(n) in Lines(Apply(d, op)) <==> Name(n) in Lines(d) && !Loses(d, op, n)
  {
    OthersStay(Read(d.sandboxes), Name(op.n), Name(n));
    PruneMoves(if op.unlinked then d.(sandboxes := NO_LINES) else d, op.pruning, n);
  }

  /** Between the two, a name's line comes and goes with nothing else. */
  lemma LineMoves(d: Disk, op: Op, n: nat)
    requires Allowed(d, op) && !Takes(op, n)
    ensures Name(n) in Lines(Apply(d, op)) <==> Gains(d, op, n) || (Name(n) in Lines(d) && !Loses(d, op, n))
  {
    match op
    case Append(m, wrote) => AppendMoves(d.sandboxes, m, wrote, n); ReadOf(d.sandboxes, Name(n));
    case Truncate(_) | WritePart(_, _, _) | Finish(_, _) | GiveUp(_) | OpenFails(_) => RewriteMoves(d, op, n);
    case NothingLeft(_, _, _, _) => NothingLeftMoves(d, op, n);
    case RemoveNetwork(left, p) => PruneMoves(d.(networks := left), p, n);
    case NoOp | AppendNetwork | RemoveNetworkFails(_) =>
  }

  lemma NeverBoth(d: Disk, op: Op, n: nat)
    ensures !(Gains(d, op, n) && Loses(d, op, n))
  {}

  /** The rewrite under way has not come to this name's line. */
  predicate Pending(d: Disk, n: nat) {
    d.rewrite.Some? && Name(n) !in d.sandboxes.lines
  }

  /** The part of a line that the rewrite under way wrote last read as this name. */
  predicate CutReads(d: Disk, n: nat) {
    d.rewrite.Some? && d.sandboxes.torn == Cut(Name(n))
  }

  /** What a reader finds after a crash. */
  lemma Found(d: Disk, n: nat)
    requires InOrder(d)
    ensures Name(n) in Read(d.sandboxes) <==> (Name(n) in Lines(d) && !Pending(d, n)) || CutReads(d, n)
  {
    ReadOf(d.sandboxes, Name(n));
  }

  // ----- without a fault -----

  /** No append or rewrite stops half way, and no read of the .sandboxes file fails. */
  predicate Faultless(op: Op) {
    match op
    case Append(_, wrote) => !wrote.Part?
    case GiveUp(_) => false
    case NothingLeft(_, legible, _, p) => legible && p.readsSandboxes
    case Finish(_, p) => p.readsSandboxes
    case RemoveNetwork(_, p) => p.readsSandboxes
    case _ => true
  }

  predicate Unbroken(d: Disk) {
    d.rewrite.None? ==> d.sandboxes.torn.Clean?
  }

  lemma FaultlessLosesNone(d: Disk, op: Op, n: nat)
    requires Unbroken(d) && Allowed(d, op) && Faultless(op) && !Takes(op, n)
    ensures Unbroken(Apply(d, op)) && !Loses(d, op, n)
  {}

  // ----- the run record -----

  /** A removal finds nothing listed in either file, or cannot read what is, and unlinks the
      record. */
  predicate DeletesRecord(d: Disk, op: Op)
    requires Allowed(d, op)
  {
    match op
    case Finish(_, p) => !p.readsSandboxes && !(p.readsNetworks && d.networks) && RecordFile in p.unlinked
    case NothingLeft(_, _, unlinked, p) =>
      && (!p.readsSandboxes || unlinked || Read(d.sandboxes) == []) && !(p.readsNetworks && d.networks)
      && RecordFile in p.unlinked
    case RemoveNetwork(left, p) =>
      && (!p.readsSandboxes || Read(d.sandboxes) == []) && !(p.readsNetworks && left) && RecordFile in p.unlinked
    case _ => false
  }

  /** A rewrite has something to write. */
  predicate Wanted(d: Disk) {
    d.rewrite.Some? ==> d.rewrite.value.rest != []
  }

  lemma RecordMoves(d: Disk, op: Op)
    requires Wanted(d) && Allowed(d, op)
    ensures Wanted(Apply(d, op))
    ensures Apply(d, op).record <==> d.record && !DeletesRecord(d, op)
  {}
}
