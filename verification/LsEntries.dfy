/** runningNames and statusOf: parsed where the text parses, scanned where it does not. */
module LsEntries {
  import opened JsonFields
  import opened JsonScan
  import opened JsonText
  import opened LsJson
  import opened LsParse
  import opened Options

  /** What the code reads of an entry, its name and its status. Of null it can read nothing: it
      throws. */
  datatype RawEntry = RawEntry(name: Option<Json>, status: Option<Json>) | NullEntry

  function AsText(value: Option<string>): Option<Json> {
    if value.Some? then Some(Text(value.value)) else None
  }

  /** A parsed object's field: of repeated keys the last one counts. */
  function Field(fields: seq<(string, Json)>, name: string): Option<Json> {
    if fields == [] then None
    else
      var later := Field(fields[1..], name);
      if later.None? && fields[0].0 == name then Some(fields[0].1) else later
  }

  function EntryOf(item: Json): RawEntry {
    match item
    case Null => NullEntry
    case Dict(fields) => RawEntry(Field(fields, "name"), Field(fields, "status"))
    case _ => RawEntry(None, None)
  }

  function ParsedEntries(items: seq<Json>): (entries: seq<RawEntry>)
    ensures |entries| == |items| && forall i | 0 <= i < |entries| :: entries[i] == EntryOf(items[i])
  {
    seq(|items|, i requires 0 <= i < |items| => EntryOf(items[i]))
  }

  function ScannedEntry(text: string): RawEntry {
    RawEntry(AsText(ExtractStringField(text, "name")), AsText(ExtractStringField(text, "status")))
  }

  function ScannedEntries(texts: seq<string>): (entries: seq<RawEntry>)
    ensures |entries| == |texts| && forall i | 0 <= i < |entries| :: entries[i] == ScannedEntry(texts[i])
  {
    seq(|texts|, i requires 0 <= i < |texts| => ScannedEntry(texts[i]))
  }

  /** scanEntries */
  function ScanEntries(json: string): seq<RawEntry> {
    ScannedEntries(Run(START, json).objects)
  }

  /** parseEntries */
  function EntriesOf(json: string): seq<RawEntry> {
    match Parse(json)
    case Some(List(items)) => ParsedEntries(items)
    case Some(_) => []
    case None => ScanEntries(json)
  }

  predicate IsRunning(e: RawEntry, name: string) {
    e.RawEntry? && e.status == Some(Text("Running")) && e.name == Some(Text(name))
  }

  /** The answer of runningNames on such entries; None: it throws. */
  ghost predicate RunningAre(entries: seq<RawEntry>, names: Option<set<string>>) {
    if NullEntry in entries then names.None?
    else names.Some? && forall name :: name in names.value <==> exists e <- entries :: IsRunning(e, name)
  }

  /** The answer of statusOf, which reads no further than the first entry of that name. */
  datatype Answer = Threw | Status(value: Option<Json>)

  predicate Passed(e: RawEntry, name: string) {
    e.RawEntry? && e.name != Some(Text(name))
  }

  ghost predicate StatusIs(entries: seq<RawEntry>, name: string, answer: Answer) {
    || (answer == Status(None) && forall e <- entries :: Passed(e, name))
    || exists i :: 0 <= i < |entries| && (forall j | 0 <= j < i :: Passed(entries[j], name))
         && match entries[i]
            case NullEntry => answer == Threw
            case RawEntry(n, status) => n == Some(Text(name)) && answer == Status(status)
  }

  method ParseEntries(json: string) returns (entries: seq<RawEntry>)
    ensures entries == EntriesOf(json)
  {
    match Parse(json) {
      case Some(List(items)) => entries := ParsedEntries(items);
      case Some(_) => entries := [];
      case None =>
        var objects := SplitTopLevelObjects(json);
        entries := ScannedEntries(objects);
    }
  }

  /** runningNames */
  method RunningNames(json: string) returns (names: Option<set<string>>)
    ensures RunningAre(EntriesOf(json), names)
  {
    var entries := ParseEntries(json);
    var found: set<string> := {};
    for i := 0 to |entries|
      invariant NullEntry !in entries[..i]
      invariant forall name :: name in found <==> exists e <- entries[..i] :: IsRunning(e, name)
    {
      assert entries[..i + 1] == entries[..i] + [entries[i]];
      if entries[i].NullEntry? {
        return None;
      }
      if entries[i].status == Some(Text("Running")) && entries[i].name.Some? && entries[i].name.value.Text? {
        assert IsRunning(entries[i], entries[i].name.value.text);
        found := found + {entries[i].name.value.text};
      }
    }
    assert entries[..|entries|] == entries;
    names := Some(found);
  }

  /** statusOf */
  method StatusOf(json: string, name: string) returns (answer: Answer)
    ensures StatusIs(EntriesOf(json), name, answer)
  {
    var entries := ParseEntries(json);
    for i := 0 to |entries|
      invariant forall j | 0 <= j < i :: Passed(entries[j], name)
    {
      if entries[i].NullEntry? {
        return Threw;
      }
      if entries[i].name == Some(Text(name)) {
        return Status(entries[i].status);
      }
    }
    answer := Status(None);
  }

  // ----- of a printed array, cut off or not -----

  /** The value of the member of that name. */
  function ValueOf(members: seq<Member>, field: string): Option<string> {
    if members == [] then None
    else if members[0].key == field then Some(members[0].value)
    else ValueOf(members[1..], field)
  }

  /** An object's entry as its members have it. */
  function TrueEntry(o: Object): RawEntry {
    RawEntry(AsText(ValueOf(o.members, "name")), AsText(ValueOf(o.members, "status")))
  }

  /** The first k objects' entries. */
  function TrueEntries(a: Array, k: nat): (entries: seq<RawEntry>)
    requires k <= |a.elements|
    ensures |entries| == k && forall i | 0 <= i < k :: entries[i] == TrueEntry(a.elements[i].item)
  {
    seq(k, i requires 0 <= i < k => TrueEntry(a.elements[i].item))
  }

  /** No key ends with a quote and the field's name. */
  predicate NoLookalike(members: seq<Member>, field: string) {
    forall i | 0 <= i < |members| :: !EndsWithQuoted(members[i].key, field)
  }

  predicate DistinctKeys(members: seq<Member>) {
    forall i, j | 0 <= i < j < |members| :: members[i].key != members[j].key
  }

  predicate NoLookalikes(a: Array) {
    forall i | 0 <= i < |a.elements| ::
      NoLookalike(a.elements[i].item.members, "name") && NoLookalike(a.elements[i].item.members, "status")
  }

  predicate KeysDistinct(a: Array) {
    forall i | 0 <= i < |a.elements| :: DistinctKeys(a.elements[i].item.members)
  }

  lemma {:induction false} LookupIsValueOf(members: seq<Member>, field: string)
    requires NoLookalike(members, field)
    ensures Lookup(members, field) == ValueOf(members, field)
  {
    if members != [] {
      assert forall i | 0 <= i < |members[1..]| :: members[1..][i] == members[i + 1];
      LookupIsValueOf(members[1..], field);
    }
  }

  lemma {:induction false} NoKeyNoField(members: seq<Member>, field: string)
    requires forall i | 0 <= i < |members| :: members[i].key != field
    ensures Field(FieldsOf(members), field) == None
  {
    if members != [] {
      assert FieldsOf(members)[1..] == FieldsOf(members[1..]);
      assert forall i | 0 <= i < |members[1..]| :: members[1..][i] == members[i + 1];
      NoKeyNoField(members[1..], field);
    }
  }

  lemma {:induction false} FieldIsValueOf(members: seq<Member>, field: string)
    requires DistinctKeys(members)
    ensures Field(FieldsOf(members), field) == AsText(ValueOf(members, field))
  {
    if members != [] {
      var rest := members[1..];
      assert FieldsOf(members)[1..] == FieldsOf(rest);
      assert forall i | 0 <= i < |rest| :: rest[i] == members[i + 1];
      FieldIsValueOf(rest, field);
      if members[0].key == field { NoKeyNoField(rest, field); }
    }
  }

  lemma ScannedAs(o: Object)
    requires ObjectSpaced(o)
    ensures ScannedEntry(ObjectText(o))
         == RawEntry(AsText(Lookup(o.members, "name")), AsText(Lookup(o.members, "status")))
  {
    ExtractedFieldMeaning(o, "name");
    ExtractedFieldMeaning(o, "status");
  }

  lemma EntryOfObject(o: Object)
    requires ObjectSpaced(o) && NoLookalike(o.members, "name") && NoLookalike(o.members, "status")
    ensures ScannedEntry(ObjectText(o)) == TrueEntry(o)
  {
    ScannedAs(o);
    LookupIsValueOf(o.members, "name");
    LookupIsValueOf(o.members, "status");
  }

  /** Of any printed array cut off anywhere, the scanner recovers the name and the status of
      exactly the objects complete before the cut. */
  lemma ScanRecovers(a: Array, cut: string, k: nat)
    requires Spaced(a) && NoLookalikes(a) && CutsAfter(a, cut, k)
    ensures ScanEntries(cut) == TrueEntries(a, k)
  {
    TruncatedScan(a, cut, k);
    var texts := ObjectTexts(a)[..k];
    assert |ScannedEntries(texts)| == k;
    forall i | 0 <= i < k ensures ScannedEntries(texts)[i] == TrueEntries(a, k)[i] {
      EntryOfObject(a.elements[i].item);
    }
  }

  lemma {:induction false} ItemsAt(a: Array, k: nat)
    requires k <= |a.elements|
    ensures |ItemsOf(a, k)| == |a.elements| - k
    ensures forall i | k <= i < |a.elements| :: ItemsOf(a, k)[i - k] == ObjectOf(a.elements[i].item)
    decreases |a.elements| - k
  {
    if k < |a.elements| { ItemsAt(a, k + 1); }
  }

  lemma ParseReads(a: Array)
    requires KeysDistinct(a)
    ensures ParsedEntries(ItemsOf(a, 0)) == TrueEntries(a, |a.elements|)
  {
    ItemsAt(a, 0);
    forall i | 0 <= i < |a.elements|
      ensures ParsedEntries(ItemsOf(a, 0))[i] == TrueEntry(a.elements[i].item)
    {
      var members := a.elements[i].item.members;
      assert ItemsOf(a, 0)[i] == ItemsOf(a, 0)[i - 0];
      FieldIsValueOf(members, "name");
      FieldIsValueOf(members, "status");
    }
  }

  lemma Shorter(a: string, b: string)
    requires a <= b
    ensures |a| <= |b|
  {}

  lemma UptoIsShorter(a: Array, k: nat)
    requires k <= |a.elements|
    ensures |TextUpto(a, k)| <= |Closed(a)|
  {
    JoinedGrows(Gaps(a), ObjectTexts(a), k, |a.elements|);
    ClosedIsLonger(a);
  }

  lemma CutShort(a: Array, cut: string, k: nat)
    requires CutsAfter(a, cut, k) && k < |a.elements|
    ensures |cut| < |TextUpto(a, k + 1)|
  {}

  /** With an object cut off, the closing bracket is not there. */
  lemma CutBeforeClosed(a: Array, cut: string, k: nat)
    requires CutsAfter(a, cut, k) && k < |a.elements|
    ensures |cut| < |Closed(a)|
  {
    CutShort(a, cut, k);
    UptoIsShorter(a, k + 1);
  }

  lemma ClosedIsComplete(a: Array, cut: string, k: nat)
    requires CutsAfter(a, cut, k) && Closed(a) <= cut
    ensures k == |a.elements|
  {
    Shorter(Closed(a), cut);
    if k < |a.elements| { CutBeforeClosed(a, cut, k); }
  }

  /** Whether the text parses or is scanned: of any printed array cut off anywhere, the entries
      are those of exactly the objects complete before the cut. */
  lemma CutEntries(a: Array, cut: string, k: nat)
    requires Spaced(a) && KeysDistinct(a) && NoLookalikes(a) && CutsAfter(a, cut, k)
    ensures EntriesOf(cut) == TrueEntries(a, k)
  {
    CutParsed(a, cut);
    if Parse(cut).Some? {
      ClosedIsComplete(a, cut, k);
      ParseReads(a);
    } else {
      ScanRecovers(a, cut, k);
    }
  }

  /** JSON with its closing bracket there is parsed, and then no key is mistaken for another. */
  lemma WholeEntries(a: Array, cut: string)
    requires Spaced(a) && Strict(a) && KeysDistinct(a) && cut <= ArrayText(a)
    ensures Closed(a) <= cut ==> EntriesOf(cut) == TrueEntries(a, |a.elements|)
    ensures !(Closed(a) <= cut) ==> EntriesOf(cut) == ScanEntries(cut)
  {
    CutParsed(a, cut);
    ParseReads(a);
  }

  predicate ObjectRuns(o: Object, name: string) {
    ValueOf(o.members, "status") == Some("Running") && ValueOf(o.members, "name") == Some(name)
  }

  lemma EntryRuns(o: Object, name: string)
    ensures IsRunning(TrueEntry(o), name) <==> ObjectRuns(o, name)
    ensures Passed(TrueEntry(o), name) <==> ValueOf(o.members, "name") != Some(name)
  {}

  /** runningNames of a printed array cut off anywhere: the names of the running sandboxes whose
      objects are complete before the cut. */
  lemma RunningNamesOfCut(a: Array, cut: string, k: nat, names: Option<set<string>>)
    requires Spaced(a) && KeysDistinct(a) && NoLookalikes(a) && CutsAfter(a, cut, k)
    requires RunningAre(EntriesOf(cut), names)
    ensures names.Some?
    ensures forall name :: name in names.value <==> exists i :: 0 <= i < k && ObjectRuns(a.elements[i].item, name)
  {
    CutEntries(a, cut, k);
    TrueRunning(a, k, names);
  }

  lemma TrueRunning(a: Array, k: nat, names: Option<set<string>>)
    requires k <= |a.elements| && RunningAre(TrueEntries(a, k), names)
    ensures names.Some?
    ensures forall name :: name in names.value <==> exists i :: 0 <= i < k && ObjectRuns(a.elements[i].item, name)
  {
    var entries := TrueEntries(a, k);
    forall name ensures name in names.value <==> exists i :: 0 <= i < k && ObjectRuns(a.elements[i].item, name) {
      if name in names.value {
        var e :| e in entries && IsRunning(e, name);
        var i :| 0 <= i < k && entries[i] == e;
        EntryRuns(a.elements[i].item, name);
      }
      if i :| 0 <= i < k && ObjectRuns(a.elements[i].item, name) {
        EntryRuns(a.elements[i].item, name);
        assert entries[i] in entries;
      }
    }
  }

  /** No object among the first k is named so. */
  ghost predicate NoneNamed(a: Array, k: nat, name: string)
    requires k <= |a.elements|
  {
    forall i | 0 <= i < k :: ValueOf(a.elements[i].item.members, "name") != Some(name)
  }

  /** The ith object is the first that is named so. */
  ghost predicate FirstNamed(a: Array, i: nat, name: string)
    requires i < |a.elements|
  {
    ValueOf(a.elements[i].item.members, "name") == Some(name) && NoneNamed(a, i, name)
  }

  /** statusOf of a printed array cut off anywhere: the status of the first sandbox of that name
      among the objects complete before the cut, if there is one. */
  lemma StatusOfCut(a: Array, cut: string, k: nat, name: string, answer: Answer)
    requires Spaced(a) && KeysDistinct(a) && NoLookalikes(a) && CutsAfter(a, cut, k)
    requires StatusIs(EntriesOf(cut), name, answer)
    ensures || (answer == Status(None) && NoneNamed(a, k, name))
            || exists i :: 0 <= i < k && FirstNamed(a, i, name)
                           && answer == Status(AsText(ValueOf(a.elements[i].item.members, "status")))
  {
    CutEntries(a, cut, k);
    TrueStatus(a, k, name, answer);
  }

  lemma TrueStatus(a: Array, k: nat, name: string, answer: Answer)
    requires k <= |a.elements| && StatusIs(TrueEntries(a, k), name, answer)
    ensures || (answer == Status(None) && NoneNamed(a, k, name))
            || exists i :: 0 <= i < k && FirstNamed(a, i, name)
                           && answer == Status(AsText(ValueOf(a.elements[i].item.members, "status")))
  {
    var entries := TrueEntries(a, k);
    forall i | 0 <= i < k
      ensures Passed(entries[i], name) <==> ValueOf(a.elements[i].item.members, "name") != Some(name)
    {
      EntryRuns(a.elements[i].item, name);
    }
    if forall e <- entries :: Passed(e, name) {
      forall i | 0 <= i < k ensures Passed(entries[i], name) { assert entries[i] in entries; }
      assert NoneNamed(a, k, name);
    } else {
      var i :| 0 <= i < k && !Passed(entries[i], name) && forall j | 0 <= j < i :: Passed(entries[j], name);
      assert FirstNamed(a, i, name);
    }
  }

  // ----- a key that looks like the field -----

  /** The key x"name comes before the name. */
  function Lookalike(value: string, name: string): Object {
    Object([Member("", "x\"name", "", "", value, ""),
            Member("", "name", "", "", name, ""),
            Member("", "status", "", "", "Running", "")], "")
  }

  lemma LookupCons(m: Member, rest: seq<Member>, field: string)
    ensures Lookup([m] + rest, field) == if TakenFor(m.key, field) then Some(m.value) else Lookup(rest, field)
    ensures ValueOf([m] + rest, field) == if m.key == field then Some(m.value) else ValueOf(rest, field)
  {
    assert ([m] + rest)[1..] == rest;
  }

  lemma LookalikeFields(value: string, name: string)
    ensures var o := Lookalike(value, name);
            && Lookup(o.members, "name") == Some(value) && ValueOf(o.members, "name") == Some(name)
            && Lookup(o.members, "status") == Some("Running") && ValueOf(o.members, "status") == Some("Running")
  {
    var o := Lookalike(value, name);
    var m0, m1, m2 := o.members[0], o.members[1], o.members[2];
    assert o.members == [m0] + ([m1] + ([m2] + []));
    assert |"x\"name"| == 6 && |"name"| == 4 && |"status"| == 6;
    assert "x\"name"[1..] == "\"" + "name";
    assert EndsWithQuoted("x\"name", "name");
    assert "x\"name" != "status" by { assert "x\"name"[0] != "status"[0]; }
    LookupCons(m0, [m1] + ([m2] + []), "name");
    LookupCons(m1, [m2] + [], "name");
    LookupCons(m0, [m1] + ([m2] + []), "status");
    LookupCons(m1, [m2] + [], "status");
    LookupCons(m2, [], "status");
  }

  lemma LookalikeIsStrict(value: string, name: string)
    requires NoControls(value) && NoControls(name)
    ensures ObjectSpaced(Lookalike(value, name)) && StrictObject(Lookalike(value, name))
  {
    assert NoControls("x\"name") && NoControls("name") && NoControls("status") && NoControls("Running");
    assert AllJsonSpace("");
  }

  lemma LookalikeKeys(value: string, name: string)
    ensures DistinctKeys(Lookalike(value, name).members)
  {
    assert "x\"name" != "name" && "x\"name" != "status" && "name" != "status";
  }

  function Alone(o: Object): Array {
    Array("", [Element("", o, "")], "", "")
  }

  lemma CutAtObject(o: Object)
    ensures var a := Alone(o);
            && TextUpto(a, 1) < ArrayText(a) && CutsAfter(a, TextUpto(a, 1), 1)
            && Closed(a) <= ArrayText(a) && !(Closed(a) <= TextUpto(a, 1))
  {
    var a := Alone(o);
    TrailLast(a, "");
    assert Closed(a) == TextUpto(a, 1) + "]";
  }

  lemma AloneIsArray(o: Object)
    requires ObjectSpaced(o) && StrictObject(o) && DistinctKeys(o.members)
    ensures Spaced(Alone(o)) && Strict(Alone(o)) && KeysDistinct(Alone(o))
  {}

  /** An array of one object: parsed as long as it is whole. */
  lemma AloneParsed(o: Object)
    requires ObjectSpaced(o) && StrictObject(o) && DistinctKeys(o.members)
    ensures EntriesOf(ArrayText(Alone(o))) == [TrueEntry(o)]
  {
    AloneIsArray(o);
    CutAtObject(o);
    WholeEntries(Alone(o), ArrayText(Alone(o)));
  }

  /** And scanned as soon as its closing bracket is cut off. */
  lemma AloneScanned(o: Object)
    requires ObjectSpaced(o) && StrictObject(o) && DistinctKeys(o.members)
    ensures EntriesOf(TextUpto(Alone(o), 1))
         == [RawEntry(AsText(Lookup(o.members, "name")), AsText(Lookup(o.members, "status")))]
  {
    var cut := TextUpto(Alone(o), 1);
    AloneIsArray(o);
    CutAtObject(o);
    WholeEntries(Alone(o), cut);
    TruncatedScan(Alone(o), cut, 1);
    assert Run(START, cut).objects == [ObjectText(o)];
    ScannedAs(o);
    assert ScannedEntries([ObjectText(o)]) == [ScannedEntry(ObjectText(o))];
  }

  lemma OneRuns(entries: seq<RawEntry>, name: string, names: Option<set<string>>)
    requires entries == [RawEntry(Some(Text(name)), Some(Text("Running")))] && RunningAre(entries, names)
    ensures names == Some({name})
  {
    var entry := entries[0];
    assert NullEntry !in entries;
    forall other ensures other in names.value <==> other == name {
      if other in names.value {
        var e :| e in entries && IsRunning(e, other);
        assert e == entry;
      }
      assert entry in entries && IsRunning(entry, name);
    }
    assert names.value == {name};
  }

  /** The condition on keys is needed: runningNames of an array of one such object gives its name
      as long as the array is whole, and another as soon as its closing bracket is cut off. */
  lemma LookalikeIsMisread(value: string, name: string, whole: Option<set<string>>, cut: Option<set<string>>)
    requires NoControls(value) && NoControls(name)
    requires RunningAre(EntriesOf(ArrayText(Alone(Lookalike(value, name)))), whole)
    requires RunningAre(EntriesOf(TextUpto(Alone(Lookalike(value, name)), 1)), cut)
    ensures TextUpto(Alone(Lookalike(value, name)), 1) < ArrayText(Alone(Lookalike(value, name)))
    ensures whole == Some({name}) && cut == Some({value})
  {
    var o := Lookalike(value, name);
    LookalikeFields(value, name);
    LookalikeIsStrict(value, name);
    LookalikeKeys(value, name);
    CutAtObject(o);
    AloneParsed(o);
    AloneScanned(o);
    OneRuns(EntriesOf(ArrayText(Alone(o))), name, whole);
    OneRuns(EntriesOf(TextUpto(Alone(o), 1)), value, cut);
  }
}
