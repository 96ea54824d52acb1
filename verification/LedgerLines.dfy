/** The line arithmetic of a run's ledger files. */
module LedgerLines {

  /** removeFirstOccurrence */
  function RemoveFirst<T(==)>(lines: seq<T>, value: T): seq<T> {
    if lines == [] then []
    else if lines[0] == value then lines[1..]
    else [lines[0]] + RemoveFirst(lines[1..], value)
  }

  ghost predicate Distinct<T(!new)>(lines: seq<T>) {
    forall i, j | 0 <= i < j < |lines| :: lines[i] != lines[j]
  }

  /** Removing the line that was just appended restores the file, if it was not listed before. */
  lemma {:induction false} UntrackUndoesTrack<T>(lines: seq<T>, value: T)
    requires value !in lines
    ensures RemoveFirst(lines + [value], value) == lines
  {
    if lines != [] {
      assert (lines + [value])[1..] == lines[1..] + [value];
      UntrackUndoesTrack(lines[1..], value);
    }
  }

  /** On a file without repeated lines, removal takes exactly one name away. */
  lemma {:induction false} RemoveFirstFromDistinct<T(!new)>(lines: seq<T>, value: T)
    requires Distinct(lines)
    ensures Distinct(RemoveFirst(lines, value))
    ensures forall x :: x in RemoveFirst(lines, value) <==> x in lines && x != value
  {
    if lines != [] {
      RemoveFirstFromDistinct(lines[1..], value);
      assert lines == [lines[0]] + lines[1..];
      assert lines[0] !in lines[1..];
    }
  }

  lemma {:induction false} RemoveFirstKeepsMembers<T>(lines: seq<T>, value: T)
    ensures forall x | x in RemoveFirst(lines, value) :: x in lines
  {
    if lines != [] {
      RemoveFirstKeepsMembers(lines[1..], value);
    }
  }
}
