/** msb ls --format json: any printed array of flat objects with string values, and what the
    tolerant scanner finds in it, and in every text it was cut off to. */
module LsJson {
  import opened JsonFields
  import opened JsonScan
  import opened Options
  import opened Spaces

  /** "key": "value" with the white space around each token. */
  datatype Member = Member(before: string, key: string, beforeColon: string, afterColon: string, value: string,
                           after: string)

  /** blank: the white space of an object without members. */
  datatype Object = Object(members: seq<Member>, blank: string)

  datatype Element = Element(before: string, item: Object, after: string)

  datatype Array = Array(lead: string, elements: seq<Element>, blank: string, trail: string)

  function MemberText(m: Member): string {
    m.before + Literal(m.key) + m.beforeColon + ":" + m.afterColon + Literal(m.value) + m.after
  }

  function MembersText(members: seq<Member>): string
    requires members != []
  {
    if |members| == 1 then MemberText(members[0]) else MemberText(members[0]) + "," + MembersText(members[1..])
  }

  function InnerText(o: Object): string {
    if o.members == [] then o.blank else MembersText(o.members)
  }

  function ObjectText(o: Object): string {
    "{" + InnerText(o) + "}"
  }

  /** What separates an element's object from the previous one's, or from the array's start. */
  function Gap(a: Array, k: nat): string
    requires k < |a.elements|
  {
    (if k == 0 then a.lead + "[" else a.elements[k - 1].after + ",") + a.elements[k].before
  }

  function Gaps(a: Array): (gaps: seq<string>)
    ensures |gaps| == |a.elements| && forall i | 0 <= i < |gaps| :: gaps[i] == Gap(a, i)
  {
    seq(|a.elements|, i requires 0 <= i < |a.elements| => Gap(a, i))
  }

  function ObjectTexts(a: Array): (texts: seq<string>)
    ensures |texts| == |a.elements| && forall i | 0 <= i < |texts| :: texts[i] == ObjectText(a.elements[i].item)
  {
    seq(|a.elements|, i requires 0 <= i < |a.elements| => ObjectText(a.elements[i].item))
  }

  /** The array's text up to and with its first k objects. */
  function TextUpto(a: Array, k: nat): string
    requires k <= |a.elements|
  {
    Joined(Gaps(a), ObjectTexts(a), k)
  }

  /** What follows the last object. */
  function Closing(a: Array): string {
    (if a.elements == [] then a.lead + "[" + a.blank else a.elements[|a.elements| - 1].after) + "]" + a.trail
  }

  function ArrayText(a: Array): string {
    TextUpto(a, |a.elements|) + Closing(a)
  }

  predicate MemberSpaced(m: Member) {
    Blank(m.before) && Blank(m.beforeColon) && Blank(m.afterColon) && Blank(m.after)
  }

  predicate ObjectSpaced(o: Object) {
    Blank(o.blank) && forall i | 0 <= i < |o.members| :: MemberSpaced(o.members[i])
  }

  /** All white space is white space. */
  predicate Spaced(a: Array) {
    && Blank(a.lead) && Blank(a.blank) && Blank(a.trail)
    && forall i | 0 <= i < |a.elements| ::
         Blank(a.elements[i].before) && Blank(a.elements[i].after) && ObjectSpaced(a.elements[i].item)
  }

  // ----- fields -----

  /** The value of the first member whose key is taken for the field. */
  function Lookup(members: seq<Member>, field: string): Option<string> {
    if members == [] then None
    else if TakenFor(members[0].key, field) then Some(members[0].value)
    else Lookup(members[1..], field)
  }

  lemma BlankHasNoQuote(text: string)
    requires Blank(text)
    ensures forall i | 0 <= i < |text| :: text[i] != '"' && PlainChar(text[i])
  {}

  lemma AfterNameOfValue(beforeColon: string, afterColon: string, value: string, rest: string)
    requires Blank(beforeColon) && Blank(afterColon)
    ensures AfterName(beforeColon + (":" + (afterColon + (Literal(value) + rest)))) == Some(Escape(value))
  {
    var u := Literal(value) + rest;
    var t := ":" + (afterColon + u);
    TrimStartDrops(beforeColon, t);
    assert t[1..] == afterColon + u;
    TrimStartDrops(afterColon, u);
    assert u[1..] == Escape(value) + "\"" + rest;
    BodyOfLiteral(value, rest);
  }

  lemma NothingAfterValue(after: string, rest: string)
    requires Blank(after) && rest != "" && (rest[0] == ',' || rest[0] == '}')
    ensures AfterName(after + rest) == None
  {
    TrimStartDrops(after, rest);
  }

  lemma {:induction false} BlankThen(blank: string, rest: string)
    requires Blank(blank) && rest != "" && !('a' <= rest[0] <= 'z')
    ensures blank + rest != "" && !('a' <= (blank + rest)[0] <= 'z')
  {}

  /** From a member's colon on there is no match. */
  lemma ValuePassedOver(m: Member, rest: string, field: string)
    requires IsWord(field) && MemberSpaced(m) && rest != "" && (rest[0] == ',' || rest[0] == '}')
    ensures FirstMatch(":" + (m.afterColon + (Literal(m.value) + (m.after + rest))), field) == FirstMatch(rest, field)
  {
    var tail := m.after + rest;
    var valued := Literal(m.value) + tail;
    SkipChar(':', m.afterColon + valued, field);
    BlankHasNoQuote(m.afterColon);
    SkipPlain(m.afterColon, valued, field);
    BlankThen(m.after, rest);
    FirstMatchAtLiteral(m.value, tail, field);
    NothingAfterValue(m.after, rest);
    BlankHasNoQuote(m.after);
    SkipPlain(m.after, rest, field);
  }

  /** One member's text: the pattern matches in its key, or passes it over. */
  lemma FirstMatchInMember(m: Member, rest: string, field: string)
    requires IsWord(field) && MemberSpaced(m) && rest != "" && (rest[0] == ',' || rest[0] == '}')
    ensures FirstMatch(MemberText(m) + rest, field)
         == if TakenFor(m.key, field) then Some(Escape(m.value)) else FirstMatch(rest, field)
  {
    var tail := m.after + rest;
    var colon := ":" + (m.afterColon + (Literal(m.value) + tail));
    var keyed := m.beforeColon + colon;
    assert MemberText(m) + rest == m.before + (Literal(m.key) + keyed);
    BlankHasNoQuote(m.before);
    SkipPlain(m.before, Literal(m.key) + keyed, field);
    BlankThen(m.beforeColon, colon);
    FirstMatchAtLiteral(m.key, keyed, field);
    AfterNameOfValue(m.beforeColon, m.afterColon, m.value, tail);
    BlankHasNoQuote(m.beforeColon);
    SkipPlain(m.beforeColon, colon, field);
    ValuePassedOver(m, rest, field);
  }

  lemma {:induction false} FirstMatchInMembers(members: seq<Member>, field: string)
    requires IsWord(field) && members != [] && forall i | 0 <= i < |members| :: MemberSpaced(members[i])
    ensures FirstMatch(MembersText(members) + "}", field)
         == var found := Lookup(members, field); if found.Some? then Some(Escape(found.value)) else None
  {
    var m, rest := members[0], if |members| == 1 then "}" else "," + (MembersText(members[1..]) + "}");
    assert MembersText(members) + "}" == MemberText(m) + rest;
    FirstMatchInMember(m, rest, field);
    if |members| == 1 {
      assert members[1..] == [];
      SkipPlain("}", "", field);
      assert "}" + "" == "}";
    } else {
      SkipChar(',', MembersText(members[1..]) + "}", field);
      FirstMatchInMembers(members[1..], field);
    }
  }

  /** What the pattern reads off a printed object is the value of the first member whose key is
      the field's name or ends with a quote and that name - and of no other. */
  lemma ExtractedFieldMeaning(o: Object, field: string)
    requires IsWord(field) && ObjectSpaced(o)
    ensures ExtractStringField(ObjectText(o), field) == Lookup(o.members, field)
  {
    var inner := InnerText(o) + "}";
    assert ObjectText(o) == "{" + inner;
    SkipChar('{', inner, field);
    if o.members == [] {
      assert inner == inner + "";
      BlankHasNoQuote(o.blank);
      SkipPlain(inner, "", field);
    } else {
      FirstMatchInMembers(o.members, field);
      var found := Lookup(o.members, field);
      if found.Some? { UnescapeUndoesEscape(found.value); }
    }
  }

  // ----- objects -----

  function With(s: Scan, text: string): Scan
    requires s.open.Some?
  {
    s.(open := Some(s.open.value + text))
  }

  lemma WithTwice(s: Scan, a: string, b: string)
    requires s.open.Some?
    ensures With(With(s, a), b) == With(s, a + b)
  {
    assert s.open.value + a + b == s.open.value + (a + b);
  }

  lemma RunEscapedChar(s: Scan, c: char)
    requires s.open.Some? && s.inString && !s.escaped
    ensures Run(s, Escape([c])) == With(s, Escape([c]))
  {
    assert [c][1..] == "" && Escape("") == "";
    if c == '\\' || c == '"' {
      assert Escape([c]) == ['\\'] + [c];
      RunConcat(s, ['\\'], [c]);
      RunOne(s, '\\');
      RunOne(Step(s, '\\'), c);
      assert s.open.value + ['\\'] + [c] == s.open.value + (['\\'] + [c]);
    } else {
      assert Escape([c]) == [c];
      RunOne(s, c);
    }
  }

  lemma EscapeCons(value: string)
    requires value != ""
    ensures Escape(value) == Escape([value[0]]) + Escape(value[1..])
  {
    var first := [value[0]];
    assert first[1..] == "" && Escape("") == "";
    var head := if value[0] == '\\' || value[0] == '"' then ['\\', value[0]] else [value[0]];
    assert Escape(first) == head + "" == head;
  }

  lemma {:induction false} RunEscaped(s: Scan, value: string)
    requires s.open.Some? && s.inString && !s.escaped
    ensures Run(s, Escape(value)) == With(s, Escape(value))
    decreases |value|
  {
    if value == "" {
      assert s.open.value + "" == s.open.value;
    } else {
      var head, tail := Escape([value[0]]), Escape(value[1..]);
      EscapeCons(value);
      RunEscapedChar(s, value[0]);
      RunConcat(s, head, tail);
      RunEscaped(With(s, head), value[1..]);
      WithTwice(s, head, tail);
    }
  }

  lemma RunLiteral(s: Scan, value: string)
    requires Inside(s)
    ensures Run(s, Literal(value)) == With(s, Literal(value))
  {
    RunConcat(s, "\"" + Escape(value), "\"");
    RunConcat(s, "\"", Escape(value));
    RunOne(s, '"');
    var entered := Step(s, '"');
    RunEscaped(entered, value);
    RunOne(With(entered, Escape(value)), '"');
    assert s.open.value + "\"" + Escape(value) + "\"" == s.open.value + ("\"" + Escape(value) + "\"");
  }

  /** Text the scanner reads on in, inside an object, without leaving it. */
  lemma RunBoth(s: Scan, a: string, b: string)
    requires Inside(s) && Run(s, a) == With(s, a) && Run(With(s, a), b) == With(With(s, a), b)
    ensures Run(s, a + b) == With(s, a + b)
  {
    RunConcat(s, a, b);
    WithTwice(s, a, b);
  }

  lemma RunMember(s: Scan, m: Member)
    requires Inside(s) && MemberSpaced(m)
    ensures Run(s, MemberText(m)) == With(s, MemberText(m))
  {
    var t := m.before;
    BlankHasNoQuote(m.before);
    RunPlainInside(s, t);
    RunLiteral(With(s, t), m.key);
    RunBoth(s, t, Literal(m.key));
    t := t + Literal(m.key);
    BlankHasNoQuote(m.beforeColon);
    RunPlainInside(With(s, t), m.beforeColon);
    RunBoth(s, t, m.beforeColon);
    t := t + m.beforeColon;
    RunPlainInside(With(s, t), ":");
    RunBoth(s, t, ":");
    t := t + ":";
    BlankHasNoQuote(m.afterColon);
    RunPlainInside(With(s, t), m.afterColon);
    RunBoth(s, t, m.afterColon);
    t := t + m.afterColon;
    RunLiteral(With(s, t), m.value);
    RunBoth(s, t, Literal(m.value));
    t := t + Literal(m.value);
    BlankHasNoQuote(m.after);
    RunPlainInside(With(s, t), m.after);
    RunBoth(s, t, m.after);
  }

  lemma {:induction false} RunMembers(s: Scan, members: seq<Member>)
    requires Inside(s) && members != [] && forall i | 0 <= i < |members| :: MemberSpaced(members[i])
    ensures Run(s, MembersText(members)) == With(s, MembersText(members))
    decreases |members|
  {
    var first := MemberText(members[0]);
    RunMember(s, members[0]);
    if |members| > 1 {
      RunPlainInside(With(s, first), ",");
      RunBoth(s, first, ",");
      RunMembers(With(s, first + ","), members[1..]);
      RunBoth(s, first + ",", MembersText(members[1..]));
    }
  }

  /** An object's text up to its closing brace adds no object; the brace adds the whole text. */
  lemma RunObject(s: Scan, o: Object)
    requires Outside(s) && ObjectSpaced(o)
    ensures Run(s, "{" + InnerText(o)) == Scan(1, Some("{" + InnerText(o)), false, false, s.objects)
    ensures Run(s, ObjectText(o)) == s.(objects := s.objects + [ObjectText(o)])
  {
    var entered := Step(s, '{');
    RunOne(s, '{');
    RunConcat(s, "{", InnerText(o));
    if o.members == [] {
      BlankHasNoQuote(o.blank);
      RunPlainInside(entered, o.blank);
    } else {
      RunMembers(entered, o.members);
    }
    RunConcat(s, "{" + InnerText(o), "}");
    RunOne(Run(s, "{" + InnerText(o)), '}');
  }

  lemma ObjectIsObjectLike(o: Object)
    requires ObjectSpaced(o)
    ensures ObjectLike(ObjectText(o))
  {
    forall found ensures Run(Between(found), ObjectText(o)) == Between(found + [ObjectText(o)]) {
      RunObject(Between(found), o);
    }
    forall found, part | part < ObjectText(o) ensures Run(Between(found), part).objects == found {
      RunPartOfObject(found, o, part);
    }
  }

  lemma RunPartOfObject(found: seq<string>, o: Object, part: string)
    requires ObjectSpaced(o) && part < ObjectText(o)
    ensures Run(Between(found), part).objects == found
  {
    var almost := "{" + InnerText(o);
    CutOfFirst(part, almost, "}");
    var rest := almost[|part|..];
    assert part + rest == almost;
    RunObject(Between(found), o);
    RunConcat(Between(found), part, rest);
    RunOnlyFinds(Between(found), part);
    RunOnlyFinds(Run(Between(found), part), rest);
  }

  // ----- the array -----

  lemma GapIsPlain(a: Array, k: nat)
    requires Spaced(a) && k < |a.elements|
    ensures PlainText(Gap(a, k))
  {
    BlankHasNoQuote(a.lead);
    BlankHasNoQuote(a.elements[k].before);
    if k > 0 { BlankHasNoQuote(a.elements[k - 1].after); }
  }

  lemma ClosingIsPlain(a: Array)
    requires Spaced(a)
    ensures PlainText(Closing(a))
  {
    BlankHasNoQuote(a.lead);
    BlankHasNoQuote(a.blank);
    BlankHasNoQuote(a.trail);
    if a.elements != [] { BlankHasNoQuote(a.elements[|a.elements| - 1].after); }
  }

  lemma ArrayIsScannable(a: Array)
    requires Spaced(a)
    ensures Scannable(Gaps(a), ObjectTexts(a)) && PlainText(Closing(a))
  {
    ClosingIsPlain(a);
    forall i | 0 <= i < |a.elements| ensures PlainText(Gaps(a)[i]) && ObjectLike(ObjectTexts(a)[i]) {
      GapIsPlain(a, i);
      ObjectIsObjectLike(a.elements[i].item);
    }
  }

  /** The cut is at or after the end of the kth object and before that of the next. */
  predicate CutsAfter(a: Array, cut: string, k: nat) {
    && k <= |a.elements| && cut <= ArrayText(a) && |TextUpto(a, k)| <= |cut|
    && (k < |a.elements| ==> |cut| < |TextUpto(a, k + 1)|)
  }

  /** Cut off anywhere, the array's text yields exactly the objects complete before the cut. */
  lemma TruncatedScan(a: Array, cut: string, k: nat)
    requires Spaced(a) && CutsAfter(a, cut, k)
    ensures Run(START, cut).objects == ObjectTexts(a)[..k]
  {
    ArrayIsScannable(a);
    TruncatedRun(Gaps(a), ObjectTexts(a), Closing(a), cut, k);
  }

  /** There is no other kind of cut. */
  lemma EveryCutIsAfterSome(a: Array, cut: string) returns (k: nat)
    requires cut <= ArrayText(a)
    ensures CutsAfter(a, cut, k)
  {
    k := LengthFallsBetween(Gaps(a), ObjectTexts(a), |cut|);
  }
}
