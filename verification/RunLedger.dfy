/** One run's ledger: the text of its record, its .sandboxes file and its .networks file. */
module RunLedger {
  import opened Options
  import opened Lines
  import opened LedgerLines
  import opened Spaces

  /** A sandbox name or network id, which the library itself makes up. */
  predicate Nameable(name: string) {
    name != "" && !IsSpace(name[0]) && '\n' !in name
  }

  ghost predicate AllNameable(lines: seq<string>) {
    forall i | 0 <= i < |lines| :: Nameable(lines[i])
  }

  function NonEmpty(lines: seq<string>): (kept: seq<string>)
    ensures forall line <- kept :: line in lines && line != ""
  {
    if lines == [] then []
    else if lines[0] == "" then NonEmpty(lines[1..])
    else [lines[0]] + NonEmpty(lines[1..])
  }

  /** readLines: a file that is missing or unreadable has no lines. */
  function ReadLines(file: Option<string>): seq<string> {
    if file.None? then [] else NonEmpty(Split(file.value))
  }

  /** writeLines: no lines, no file. */
  function WriteLines(lines: seq<string>): Option<string> {
    if lines == [] then None else Some(Terminated(lines))
  }

  predicate EmptyOrMissing(file: Option<string>) {
    file.None? || Blank(file.value)
  }

  /** The text of these lines, the last one unterminated if torn. */
  function Text(lines: seq<string>, torn: bool): string {
    if torn && lines != [] then Terminated(lines[..|lines| - 1]) + lines[|lines| - 1] else Terminated(lines)
  }

  /** A file as this module's own writes leave it, half-way ones included, holding these lines. */
  ghost predicate Holds(file: Option<string>, lines: seq<string>, torn: bool) {
    && AllNameable(lines) && ReadLines(file) == lines && (torn ==> lines != [] && file.Some?)
    && (file.Some? ==> file.value == Text(lines, torn))
  }

  /** The lines once a text was appended that holds no newline, or only its last character:
      behind an unterminated line it goes on with that. */
  function Joined(lines: seq<string>, torn: bool, text: string): seq<string> {
    if torn && lines != [] then lines[..|lines| - 1] + [lines[|lines| - 1] + text] else lines + [text]
  }

  /** A text cut off somewhere reads as the first of its lines, and perhaps part of the next. */
  ghost predicate CutOf(lines: seq<string>, torn: bool, whole: seq<string>) {
    if torn then
      && 0 < |lines| <= |whole| && lines[..|lines| - 1] == whole[..|lines| - 1]
      && lines[|lines| - 1] != "" && lines[|lines| - 1] <= whole[|lines| - 1]
    else
      lines <= whole
  }

  lemma {:induction false} NonEmptyOfNames(lines: seq<string>, last: seq<string>)
    requires AllNameable(lines) && (last == [] || last == [""])
    ensures NonEmpty(lines + last) == lines
  {
    if lines == [] {
      assert lines + last == last;
      if last != [] { assert last[1..] == []; }
    } else {
      assert Nameable(lines[0]);
      assert forall i | 0 <= i < |lines[1..]| :: lines[1..][i] == lines[i + 1];
      assert (lines + last)[1..] == lines[1..] + last;
      NonEmptyOfNames(lines[1..], last);
    }
  }

  lemma {:induction false} JoinOfTerminated(lines: seq<string>, last: string)
    ensures Join(lines + [last]) == Terminated(lines) + last
  {
    if lines == [] {
      assert lines + [last] == [last];
    } else {
      assert (lines + [last])[1..] == lines[1..] + [last];
      JoinOfTerminated(lines[1..], last);
      assert lines[0] + "\n" + (Terminated(lines[1..]) + last) == lines[0] + "\n" + Terminated(lines[1..]) + last;
    }
  }

  /** Such a text is read back line by line. */
  lemma ReadText(lines: seq<string>, torn: bool)
    requires AllNameable(lines) && (torn ==> lines != [])
    ensures Holds(Some(Text(lines, torn)), lines, torn)
  {
    var init, last := if torn then lines[..|lines| - 1] else lines, if torn then lines[|lines| - 1] else "";
    assert torn ==> lines == init + [last];
    assert AllNameable(init) by { assert forall i | 0 <= i < |init| :: init[i] == lines[i]; }
    JoinOfTerminated(init, last);
    assert Text(lines, torn) == Join(init + [last]) by { assert Terminated(init) + "" == Terminated(init); }
    forall part <- init + [last] ensures '\n' !in part {
      if part in init {
        var i :| 0 <= i < |init| && init[i] == part;
        assert Nameable(init[i]);
      } else if torn {
        assert Nameable(lines[|lines| - 1]);
      }
    }
    SplitUnique(init + [last]);
    if torn {
      NonEmptyOfNames(lines, []);
      assert lines + [] == lines;
    } else {
      NonEmptyOfNames(lines, [""]);
    }
  }

  /** What was written is what is read back. */
  lemma ReadWritten(lines: seq<string>)
    requires AllNameable(lines)
    ensures Holds(Some(Terminated(lines)), lines, false) && Holds(WriteLines(lines), lines, false)
  {
    ReadText(lines, false);
  }

  lemma {:induction false} CutTextReads(whole: seq<string>, i: nat) returns (lines: seq<string>, torn: bool)
    requires AllNameable(whole) && i <= |Terminated(whole)|
    ensures AllNameable(lines) && CutOf(lines, torn, whole) && Terminated(whole)[..i] == Text(lines, torn)
    ensures torn ==> lines != []
  {
    lines, torn := [], false;
    if whole != [] && i > 0 {
      var first, rest := whole[0], whole[1..];
      assert Nameable(first);
      if i <= |first| {
        lines, torn := [first[..i]], true;
        CutInFirst(whole, i);
      } else {
        assert forall j | 0 <= j < |rest| :: rest[j] == whole[j + 1];
        lines, torn := CutTextReads(rest, i - |first| - 1);
        CutBehindFirst(first, Terminated(rest), i);
        CutBehind(first, lines, torn, rest);
        lines := [first] + lines;
        assert whole == [first] + rest;
      }
    }
  }

  lemma CutInFirst(whole: seq<string>, i: nat)
    requires whole != [] && 0 < i <= |whole[0]| && Nameable(whole[0])
    ensures Terminated(whole)[..i] == Text([whole[0][..i]], true) && CutOf([whole[0][..i]], true, whole)
    ensures AllNameable([whole[0][..i]])
  {
    var lines := [whole[0][..i]];
    assert lines[..0] == whole[..0] == [];
    assert "" + whole[0][..i] == whole[0][..i];
  }

  lemma CutBehindFirst(first: string, more: string, i: nat)
    requires |first| < i <= |first| + 1 + |more|
    ensures (first + "\n" + more)[..i] == first + "\n" + more[..i - |first| - 1]
  {}

  lemma CutBehind(first: string, lines: seq<string>, torn: bool, rest: seq<string>)
    requires CutOf(lines, torn, rest) && (torn ==> lines != [])
    ensures CutOf([first] + lines, torn, [first] + rest)
    ensures Text([first] + lines, torn) == first + "\n" + Text(lines, torn)
  {
    var all := [first] + lines;
    assert all[1..] == lines;
    if torn {
      var init, last := lines[..|lines| - 1], lines[|lines| - 1];
      assert all[..|all| - 1] == [first] + init;
      assert ([first] + init)[1..] == init;
      assert first + "\n" + Terminated(init) + last == first + "\n" + (Terminated(init) + last);
      assert ([first] + rest)[..|lines|] == [first] + rest[..|lines| - 1];
    }
  }

  lemma {:induction false} TerminatedSnoc(lines: seq<string>, last: string)
    ensures Terminated(lines + [last]) == Terminated(lines) + last + "\n"
  {
    if lines == [] {
      assert [last][1..] == [];
      assert lines + [last] == [last];
    } else {
      assert (lines + [last])[1..] == lines[1..] + [last];
      TerminatedSnoc(lines[1..], last);
      var first, rest := lines[0] + "\n", Terminated(lines[1..]);
      assert first + (rest + last + "\n") == first + rest + last + "\n";
    }
  }

  function Content(file: Option<string>): string {
    if file.Some? then file.value else ""
  }

  lemma TextThen(lines: seq<string>, torn: bool, more: string)
    requires torn ==> lines != []
    ensures Text(lines, torn) + more == Text(Joined(lines, torn, more), true)
  {
    var joined := Joined(lines, torn, more);
    if torn {
      var init, last := lines[..|lines| - 1], lines[|lines| - 1];
      assert joined[..|joined| - 1] == init;
      assert Terminated(init) + (last + more) == Terminated(init) + last + more;
    } else {
      assert joined[..|joined| - 1] == lines;
    }
  }

  lemma EndedText(lines: seq<string>)
    requires lines != []
    ensures Text(lines, true) + "\n" == Text(lines, false)
  {
    TerminatedSnoc(lines[..|lines| - 1], lines[|lines| - 1]);
    assert lines == lines[..|lines| - 1] + [lines[|lines| - 1]];
  }

  lemma ContentOf(file: Option<string>, lines: seq<string>, torn: bool)
    requires Holds(file, lines, torn)
    ensures Content(file) == Text(lines, torn)
  {}

  /** appendFile of one line, seen on the list of lines. */
  lemma AppendedLine(file: Option<string>, lines: seq<string>, torn: bool, name: string)
    requires Holds(file, lines, torn) && Nameable(name)
    ensures Holds(Some(Content(file) + name + "\n"), Joined(lines, torn, name), false)
  {
    ContentOf(file, lines, torn);
    TextThen(lines, torn, name);
    JoinedNameable(lines, torn, name);
    EndedText(Joined(lines, torn, name));
    ReadText(Joined(lines, torn, name), false);
  }

  /** And of part of its name. */
  lemma AppendedPart(file: Option<string>, lines: seq<string>, torn: bool, part: string)
    requires Holds(file, lines, torn) && Nameable(part)
    ensures Holds(Some(Content(file) + part), Joined(lines, torn, part), true)
  {
    ContentOf(file, lines, torn);
    TextThen(lines, torn, part);
    JoinedNameable(lines, torn, part);
    ReadText(Joined(lines, torn, part), true);
  }

  lemma JoinedNameable(lines: seq<string>, torn: bool, text: string)
    requires AllNameable(lines) && Nameable(text)
    ensures AllNameable(Joined(lines, torn, text)) && Joined(lines, torn, text) != []
  {
    if torn && lines != [] {
      var last := lines[|lines| - 1];
      assert Nameable(last);
      assert (last + text)[0] == last[0];
    }
  }

  /** The trim() test for an empty file agrees with having no line. */
  lemma EmptyMeansNoLines(file: Option<string>, lines: seq<string>, torn: bool)
    requires Holds(file, lines, torn)
    ensures EmptyOrMissing(file) <==> lines == []
  {
    if file.Some? && lines != [] {
      var text := file.value;
      assert Nameable(lines[0]);
      assert text[0] == lines[0][0] by {
        if torn && |lines| == 1 {
          assert lines[..0] == [] && text == "" + lines[0];
        } else if torn {
          var init := lines[..|lines| - 1];
          assert init[0] == lines[0];
        }
      }
    }
  }

  lemma {:induction false} RemovalKeepsNames(lines: seq<string>, name: string)
    requires AllNameable(lines)
    ensures AllNameable(RemoveFirst(lines, name))
  {
    if lines != [] {
      assert forall i | 0 <= i < |lines[1..]| :: lines[1..][i] == lines[i + 1];
      RemovalKeepsNames(lines[1..], name);
      assert Nameable(lines[0]);
    }
  }

  /** One of the two files of lines, as it is read. */
  datatype Listing = Listing(names: seq<string>, torn: bool)

  ghost predicate Reads(file: Option<string>, lines: Listing) {
    Holds(file, lines.names, lines.torn)
  }

  /** What an append that fails may leave: part of the line, or all of it. */
  ghost predicate PartlyAppended(before: Listing, after: Listing, name: string) {
    || after == before
    || after == Listing(Joined(before.names, before.torn, name), false)
    || exists part :: part != "" && part <= name && after == Listing(Joined(before.names, before.torn, part), true)
  }

  /** appendFile of a line: it throws after having written any part of it. */
  method AppendLine(file: Option<string>, name: string, ghost before: Listing)
    returns (ok: bool, written: Option<string>, ghost after: Listing)
    requires Reads(file, before) && Nameable(name)
    ensures Reads(written, after)
    ensures ok ==> after == Listing(Joined(before.names, before.torn, name), false)
    ensures !ok ==> PartlyAppended(before, after, name)
  {
    ok, written := *, file;
    after := before;
    if ok {
      written := Some(Content(file) + name + "\n");
      after := Listing(Joined(before.names, before.torn, name), false);
      AppendedLine(file, before.names, before.torn, name);
      return;
    }
    var bytes: nat :| bytes <= |name| + 1;
    if bytes == 0 {
      return;
    }
    written := Some(Content(file) + (name + "\n")[..bytes]);
    if bytes <= |name| {
      ghost var part := name[..bytes];
      assert (name + "\n")[..bytes] == part && part[0] == name[0];
      AppendedPart(file, before.names, before.torn, part);
      after := Listing(Joined(before.names, before.torn, part), true);
    } else {
      assert (name + "\n")[..bytes] == name + "\n";
      assert Content(file) + (name + "\n") == Content(file) + name + "\n";
      AppendedLine(file, before.names, before.torn, name);
      after := Listing(Joined(before.names, before.torn, name), false);
    }
  }

  /** How a removal may end that met a fault: it could not read, or could not unlink; or it
      could not open the file; or it threw in the middle of writing what is left. */
  ghost predicate PartlyRemoved(before: Listing, after: Listing, name: string, ok: bool) {
    var rest := RemoveFirst(before.names, name);
    if ok then after == before || after == Listing([], false)
    else rest != [] && (after == before || CutOf(after.names, after.torn, rest))
  }

  /** readLines, removeFirstOccurrence and writeLines, any of whose calls may fail. */
  method RemoveLine(file: Option<string>, name: string, ghost before: Listing)
    returns (ok: bool, fault: bool, written: Option<string>, ghost after: Listing)
    requires Reads(file, before)
    ensures Reads(written, after)
    ensures !fault ==> ok && after == Listing(RemoveFirst(before.names, name), false)
    ensures fault ==> PartlyRemoved(before, after, name, ok)
  {
    ok, fault, written, after := true, *, file, before;
    var unreadable: bool := *;
    unreadable := unreadable && fault;
    var rest := RemoveFirst(if unreadable then [] else ReadLines(file), name);
    RemovalKeepsNames(before.names, name);
    if rest == [] {
      var unlinks: bool := *;
      if !fault || (unreadable && unlinks) {
        written, after := None, Listing([], false);
      }
      return;
    }
    ReadWritten(rest);
    if !fault {
      written, after := WriteLines(rest), Listing(rest, false);
      return;
    }
    ok := false;
    var opens: bool := *;
    if opens {
      var bytes: nat :| bytes <= |Terminated(rest)|;
      ghost var names, torn := CutTextReads(rest, bytes);
      ReadText(names, torn);
      written, after := Some(Terminated(rest)[..bytes]), Listing(names, torn);
    }
  }

  class RunLedger {
    var record: Option<string>
    var sandboxes: Option<string>
    var networks: Option<string>

    /** The lines of the two files, and whether the last of them is unterminated. */
    ghost var sandboxNames: seq<string>
    ghost var networkIds: seq<string>
    ghost var torn: bool
    ghost var networksTorn: bool
    /** Reads, writes and unlinks of the files that failed so far. */
    ghost var faults: nat

    ghost predicate Valid()
      reads this
    {
      && Holds(sandboxes, sandboxNames, torn) && Holds(networks, networkIds, networksTorn)
      && (torn || networksTorn ==> faults > 0)
    }

    constructor ()
      ensures Valid() && record == None && sandboxNames == [] && networkIds == [] && faults == 0
    {
      record, sandboxes, networks := None, None, None;
      sandboxNames, networkIds, torn, networksTorn, faults := [], [], false, false, 0;
    }

    ghost function Sandboxes(): Listing
      reads this
    {
      Listing(sandboxNames, torn)
    }

    ghost function Networks(): Listing
      reads this
    {
      Listing(networkIds, networksTorn)
    }

    /** Once per process, before its first sandbox. */
    method WriteRunRecord(text: string)
      requires Valid()
      modifies this`record
      ensures Valid() && record == Some(text)
    {
      record := Some(text);
    }

    /** Files that could not be unlinked stay as they are. */
    twostate predicate Deleted()
      reads this
    {
      && (record == None || record == old(record))
      && (Sandboxes() == Listing([], false) || Sandboxes() == old(Sandboxes()))
      && (Networks() == Listing([], false) || Networks() == old(Networks()))
      && faults >= old(faults)
      && (faults == old(faults) ==>
            record == None && sandboxes == None && networks == None && sandboxNames == [] && networkIds == [])
    }

    method DeleteRunRecordFiles()
      requires Valid()
      modifies this
      ensures Valid() && Deleted()
    {
      var keepsRecord, keepsSandboxes, keepsNetworks := *, *, *;
      if keepsRecord {
        faults := faults + 1;
      } else {
        record := None;
      }
      if keepsSandboxes {
        faults := faults + 1;
      } else {
        sandboxes, sandboxNames, torn := None, [], false;
      }
      if keepsNetworks {
        faults := faults + 1;
      } else {
        networks, networkIds, networksTorn := None, [], false;
      }
    }

    /** pruneIfEmpty: a file that cannot be read counts as empty. */
    method PruneIfEmpty()
      requires Valid()
      modifies this
      ensures Valid() && faults >= old(faults)
      ensures Sandboxes() == Listing([], false) || Sandboxes() == old(Sandboxes())
      ensures Networks() == Listing([], false) || Networks() == old(Networks())
      ensures record == None || record == old(record)
      ensures faults == old(faults) ==>
                && sandboxNames == old(sandboxNames) && networkIds == old(networkIds)
                && torn == old(torn) && networksTorn == old(networksTorn)
                && record == if sandboxNames == [] && networkIds == [] then None else old(record)
    {
      EmptyMeansNoLines(sandboxes, sandboxNames, torn);
      EmptyMeansNoLines(networks, networkIds, networksTorn);
      var misreads, misreadsNetworks := *, *;
      if misreads || misreadsNetworks {
        faults := faults + 1;
      }
      if (misreads || EmptyOrMissing(sandboxes)) && (misreadsNetworks || EmptyOrMissing(networks)) {
        DeleteRunRecordFiles();
      }
    }

    /** Not ok: the write failed, somewhere, and the promise rejects. */
    method AppendSandboxName(name: string) returns (ok: bool)
      requires Valid() && Nameable(name)
      modifies this`sandboxes, this`sandboxNames, this`torn, this`faults
      ensures Valid() && faults >= old(faults) && (ok <==> faults == old(faults))
      ensures ok ==> sandboxNames == Joined(old(sandboxNames), old(torn), name) && !torn
      ensures !ok ==> PartlyAppended(old(Sandboxes()), Sandboxes(), name)
    {
      ghost var after;
      ok, sandboxes, after := AppendLine(sandboxes, name, Sandboxes());
      sandboxNames, torn := after.names, after.torn;
      faults := if ok then faults else faults + 1;
    }

    /** Not ok: the rewrite failed, at the start or half way, and the promise rejects. A read or
        an unlink that fails is not noticed. */
    method RemoveSandboxName(name: string) returns (ok: bool)
      requires Valid()
      modifies this
      ensures Valid() && faults >= old(faults)
      ensures faults == old(faults) ==>
                && ok && sandboxNames == RemoveFirst(old(sandboxNames), name) && !torn
                && networkIds == old(networkIds) && networksTorn == old(networksTorn)
                && record == if sandboxNames == [] && networkIds == [] then None else old(record)
      ensures !ok ==> PartlyRemoved(old(Sandboxes()), Sandboxes(), name, false)
                      && Networks() == old(Networks()) && record == old(record)
      ensures ok ==> sandboxNames in [RemoveFirst(old(sandboxNames), name), old(sandboxNames), []]
                     && (Networks() == Listing([], false) || Networks() == old(Networks()))
                     && (record == None || record == old(record))
    {
      ghost var after;
      var fault;
      ok, fault, sandboxes, after := RemoveLine(sandboxes, name, Sandboxes());
      sandboxNames, torn := after.names, after.torn;
      faults := if fault then faults + 1 else faults;
      if ok {
        PruneIfEmpty();
      }
    }

    method AppendNetworkId(id: string) returns (ok: bool)
      requires Valid() && Nameable(id)
      modifies this`networks, this`networkIds, this`networksTorn, this`faults
      ensures Valid() && faults >= old(faults) && (ok <==> faults == old(faults))
      ensures ok ==> networkIds == Joined(old(networkIds), old(networksTorn), id) && !networksTorn
      ensures !ok ==> PartlyAppended(old(Networks()), Networks(), id)
    {
      ghost var after;
      ok, networks, after := AppendLine(networks, id, Networks());
      networkIds, networksTorn := after.names, after.torn;
      faults := if ok then faults else faults + 1;
    }

    method RemoveNetworkId(id: string) returns (ok: bool)
      requires Valid()
      modifies this
      ensures Valid() && faults >= old(faults)
      ensures faults == old(faults) ==>
                && ok && networkIds == RemoveFirst(old(networkIds), id) && !networksTorn
                && sandboxNames == old(sandboxNames) && torn == old(torn)
                && record == if sandboxNames == [] && networkIds == [] then None else old(record)
      ensures !ok ==> PartlyRemoved(old(Networks()), Networks(), id, false)
                      && Sandboxes() == old(Sandboxes()) && record == old(record)
      ensures ok ==> networkIds in [RemoveFirst(old(networkIds), id), old(networkIds), []]
                     && (Sandboxes() == Listing([], false) || Sandboxes() == old(Sandboxes()))
                     && (record == None || record == old(record))
    {
      ghost var after;
      var fault;
      ok, fault, networks, after := RemoveLine(networks, id, Networks());
      networkIds, networksTorn := after.names, after.torn;
      faults := if fault then faults + 1 else faults;
      if ok {
        PruneIfEmpty();
      }
    }

    /** readSandboxNames */
    method ReadSandboxNames() returns (names: seq<string>)
      requires Valid()
      ensures names == sandboxNames
    {
      names := ReadLines(sandboxes);
    }
  }
}
