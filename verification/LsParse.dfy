/** JSON.parse on a printed array of flat objects: it throws, or reads the array back; and it
    throws on whatever ends before the closing bracket. */
module LsParse {
  import opened JsonFields
  import opened JsonScan
  import opened JsonText
  import opened LsJson
  import opened Options
  import opened Spaces

  // ----- what a printed array stands for -----

  function FieldsOf(members: seq<Member>): seq<(string, Json)> {
    if members == [] then [] else [(members[0].key, Text(members[0].value))] + FieldsOf(members[1..])
  }

  function ObjectOf(o: Object): Json {
    Dict(FieldsOf(o.members))
  }

  /** The objects from the kth on. */
  function ItemsOf(a: Array, k: nat): seq<Json>
    requires k <= |a.elements|
    decreases |a.elements| - k
  {
    if k == |a.elements| then [] else [ObjectOf(a.elements[k].item)] + ItemsOf(a, k + 1)
  }

  // ----- what JSON itself admits -----

  predicate AllJsonSpace(text: string) {
    forall i | 0 <= i < |text| :: JsonSpace(text[i])
  }

  predicate NoControls(text: string) {
    forall i | 0 <= i < |text| :: text[i] >= ' '
  }

  predicate StrictMember(m: Member) {
    && AllJsonSpace(m.before) && AllJsonSpace(m.beforeColon) && AllJsonSpace(m.afterColon) && AllJsonSpace(m.after)
    && NoControls(m.key) && NoControls(m.value)
  }

  predicate StrictMembers(members: seq<Member>) {
    forall i | 0 <= i < |members| :: StrictMember(members[i])
  }

  predicate StrictObject(o: Object) {
    AllJsonSpace(o.blank) && StrictMembers(o.members)
  }

  /** The array is JSON: no other white space, and no control character in a string. */
  predicate Strict(a: Array) {
    && AllJsonSpace(a.lead) && AllJsonSpace(a.blank) && AllJsonSpace(a.trail)
    && forall i | 0 <= i < |a.elements| ::
         AllJsonSpace(a.elements[i].before) && AllJsonSpace(a.elements[i].after) && StrictObject(a.elements[i].item)
  }

  /** Parsed as printed, or not at all; and parsed, if the text is JSON. */
  predicate AsPrinted<T(==)>(p: Parsed<T>, value: T, rest: string, strict: bool) {
    p == Got(value, rest) || (p.Fail? && !strict)
  }

  // ----- pieces -----

  /** White space, but none of JSON's. */
  predicate Odd(text: string) {
    text != "" && IsSpace(text[0]) && !JsonSpace(text[0])
  }

  lemma {:induction false} SkipBlank(blank: string, core: string)
    requires Blank(blank) && core != "" && !IsSpace(core[0])
    ensures Skip(blank + core) == core || (Odd(Skip(blank + core)) && !AllJsonSpace(blank))
  {
    if blank == "" {
      assert blank + core == core;
    } else {
      assert (blank + core)[1..] == blank[1..] + core;
      if JsonSpace(blank[0]) { SkipBlank(blank[1..], core); }
    }
  }

  lemma OddFails(text: string)
    requires Odd(Skip(text))
    ensures ParseValue(text).Fail? && ParseItems(text).Fail? && ParseFields(text).Fail?
  {}

  lemma {:induction false} SkipsAll(blank: string)
    ensures Skip(blank) == "" <==> AllJsonSpace(blank)
  {
    if blank != "" && JsonSpace(blank[0]) {
      SkipsAll(blank[1..]);
      assert forall i | 0 < i < |blank| :: blank[i] == blank[1..][i - 1];
      assert forall i | 0 <= i < |blank[1..]| :: blank[1..][i] == blank[i + 1];
    }
  }

  lemma EscapedFirst(c: char, more: string)
    requires c == '\\' || c == '"'
    ensures ParseBody(['\\', c] + more) == Preceded(c, ParseBody(more))
  {
    assert (['\\', c] + more)[2..] == more;
  }

  lemma UnescapedFirst(c: char, more: string)
    requires c != '\\' && c != '"'
    ensures ParseBody([c] + more) == if c < ' ' then Fail else Preceded(c, ParseBody(more))
  {
    assert ([c] + more)[1..] == more;
  }

  lemma NoControlsRest(value: string)
    requires value != ""
    ensures NoControls(value) <==> value[0] >= ' ' && NoControls(value[1..])
  {
    assert forall i | 0 < i < |value| :: value[i] == value[1..][i - 1];
  }

  lemma {:induction false} BodyParsed(value: string, rest: string)
    ensures AsPrinted(ParseBody(Escape(value) + ("\"" + rest)), value, rest, NoControls(value))
  {
    var text := Escape(value) + ("\"" + rest);
    if value == "" {
      assert text == "\"" + rest && text[1..] == rest;
    } else {
      var c, tail, more := value[0], Escape(value[1..]), "\"" + rest;
      BodyParsed(value[1..], rest);
      NoControlsRest(value);
      assert value == [c] + value[1..];
      if c == '\\' || c == '"' {
        Regrouped(['\\', c], tail, more);
        EscapedFirst(c, tail + more);
      } else {
        Regrouped([c], tail, more);
        UnescapedFirst(c, tail + more);
      }
    }
  }

  lemma Regrouped(a: string, b: string, c: string)
    ensures a + b + c == a + (b + c)
  {}

  lemma LiteralThen(value: string, rest: string)
    ensures Literal(value) + rest == "\"" + (Escape(value) + ("\"" + rest))
    ensures (Literal(value) + rest)[0] == '"' && (Literal(value) + rest)[1..] == Escape(value) + ("\"" + rest)
  {
    var body := Escape(value);
    assert "\"" + body + "\"" + rest == "\"" + (body + ("\"" + rest));
  }

  lemma LiteralParsed(before: string, value: string, rest: string)
    requires Blank(before)
    ensures AsPrinted(ParseValue(before + (Literal(value) + rest)), Text(value), rest,
                      AllJsonSpace(before) && NoControls(value))
  {
    LiteralThen(value, rest);
    SkipBlank(before, Literal(value) + rest);
    BodyParsed(value, rest);
  }

  lemma KeyParsed(before: string, key: string, beforeColon: string, tail: string)
    requires Blank(before) && Blank(beforeColon)
    ensures AsPrinted(ParseKey(before + (Literal(key) + (beforeColon + (":" + tail)))), key, tail,
                      AllJsonSpace(before) && NoControls(key) && AllJsonSpace(beforeColon))
  {
    var keyed := beforeColon + (":" + tail);
    LiteralThen(key, keyed);
    SkipBlank(before, Literal(key) + keyed);
    BodyParsed(key, keyed);
    SkipBlank(beforeColon, ":" + tail);
    assert (":" + tail)[1..] == tail;
  }

  /** A member's text, token by token. */
  lemma MemberThen(m: Member, rest: string)
    ensures MemberText(m) + rest
         == m.before
          + (Literal(m.key) + (m.beforeColon + (":" + (m.afterColon + (Literal(m.value) + (m.after + rest))))))
  {
    var key, value := Literal(m.key), Literal(m.value);
    Regrouped(m.before, key, m.beforeColon);
    Regrouped(m.before + key + m.beforeColon + ":" + m.afterColon + value, m.after, rest);
    Regrouped(m.before + key + m.beforeColon + ":" + m.afterColon, value, m.after + rest);
    Regrouped(m.before + key + m.beforeColon + ":", m.afterColon, value + (m.after + rest));
    Regrouped(m.before + key + m.beforeColon, ":", m.afterColon + (value + (m.after + rest)));
    Regrouped(m.before + key, m.beforeColon, ":" + (m.afterColon + (value + (m.after + rest))));
    Regrouped(m.before, key, m.beforeColon + (":" + (m.afterColon + (value + (m.after + rest)))));
  }

  /** What an object's text holds behind its first member. */
  function NextText(members: seq<Member>, rest: string): string
    requires members != []
  {
    if |members| == 1 then "}" + rest else "," + (MembersText(members[1..]) + ("}" + rest))
  }

  lemma MembersThen(members: seq<Member>, rest: string)
    requires members != []
    ensures MembersText(members) + ("}" + rest) == MemberText(members[0]) + NextText(members, rest)
  {
    if |members| > 1 {
      var first, more := MemberText(members[0]), MembersText(members[1..]);
      Regrouped(first + ",", more, "}" + rest);
      Regrouped(first, ",", more + ("}" + rest));
    }
  }

  /** One member's key and value are read, and the text goes on behind it. */
  predicate ReadsMember(text: string, m: Member, next: string) {
    var key := ParseKey(text);
    && key.Got? && key.value == m.key
    && var v := ParseValue(key.rest);
       v.Got? && v.value == Text(m.value) && Skip(v.rest) == next
  }

  lemma MemberParsed(m: Member, next: string)
    requires MemberSpaced(m) && (At(next, '}') || At(next, ','))
    ensures ReadsMember(MemberText(m) + next, m, next) || (ParseFields(MemberText(m) + next).Fail? && !StrictMember(m))
  {
    var tail := m.afterColon + (Literal(m.value) + (m.after + next));
    MemberThen(m, next);
    KeyParsed(m.before, m.key, m.beforeColon, tail);
    LiteralParsed(m.afterColon, m.value, m.after + next);
    SkipBlank(m.after, next);
  }

  lemma StrictRest(members: seq<Member>)
    requires members != []
    ensures StrictMembers(members) <==> StrictMember(members[0]) && StrictMembers(members[1..])
  {
    assert StrictMembers(members[1..]) ==> forall i | 0 < i < |members| :: StrictMember(members[i]) by {
      assert forall i | 0 < i < |members| :: members[i] == members[1..][i - 1];
    }
  }

  /** The members of an object, from the first to its closing brace. */
  lemma {:induction false} MembersParsed(members: seq<Member>, rest: string)
    requires members != [] && forall i | 0 <= i < |members| :: MemberSpaced(members[i])
    ensures AsPrinted(ParseFields(MembersText(members) + ("}" + rest)), FieldsOf(members), rest, StrictMembers(members))
  {
    var next := NextText(members, rest);
    MembersThen(members, rest);
    MemberParsed(members[0], next);
    StrictRest(members);
    if |members| == 1 {
      assert next[1..] == rest;
      assert FieldsOf(members) == [(members[0].key, Text(members[0].value))];
    } else {
      MembersParsed(members[1..], rest);
      assert next[1..] == MembersText(members[1..]) + ("}" + rest);
    }
  }

  lemma MembersStart(members: seq<Member>, rest: string)
    requires members != [] && MemberSpaced(members[0])
    ensures !At(Skip(MembersText(members) + ("}" + rest)), '}')
  {
    var m, next := members[0], NextText(members, rest);
    MembersThen(members, rest);
    MemberThen(m, next);
    var keyed := m.beforeColon + (":" + (m.afterColon + (Literal(m.value) + (m.after + next))));
    LiteralThen(m.key, keyed);
    SkipBlank(m.before, Literal(m.key) + keyed);
  }

  lemma ObjectThen(o: Object, rest: string)
    ensures (ObjectText(o) + rest)[0] == '{' && (ObjectText(o) + rest)[1..] == InnerText(o) + ("}" + rest)
  {
    var inner := InnerText(o);
    assert "{" + inner + "}" + rest == "{" + (inner + ("}" + rest));
  }

  lemma EmptyObjectParsed(blank: string, rest: string)
    requires Blank(blank)
    ensures var u := Skip(blank + ("}" + rest)); u == "}" + rest || (!AllJsonSpace(blank) && Odd(u))
    ensures Odd(Skip(blank + ("}" + rest))) ==> ParseFields(blank + ("}" + rest)).Fail?
  {
    SkipBlank(blank, "}" + rest);
  }

  lemma ObjectBy(text: string, inner: string)
    requires At(Skip(text), '{') && Skip(text)[1..] == inner
    ensures var fields := ParseFields(inner);
            ParseValue(text) == if At(Skip(inner), '}') then Got(Dict([]), Skip(inner)[1..])
                                else if fields.Got? then Got(Dict(fields.value), fields.rest) else Fail
  {}

  lemma ListBy(text: string, inner: string)
    requires At(Skip(text), '[') && Skip(text)[1..] == inner
    ensures var items := ParseItems(inner);
            ParseValue(text) == if At(Skip(inner), ']') then Got(List([]), Skip(inner)[1..])
                                else if items.Got? then Got(List(items.value), items.rest) else Fail
  {}

  /** One item is read, and the text goes on behind it. */
  predicate ReadsItem(text: string, item: Json, next: string, strict: bool) {
    var v := ParseValue(text);
    if v.Got? then v.value == item && (Skip(v.rest) == next || (Odd(Skip(v.rest)) && !strict)) else !strict
  }

  lemma LastItemBy(text: string, item: Json, next: string, rest: string, strict: bool)
    requires ReadsItem(text, item, next, strict) && At(next, ']') && next[1..] == rest
    ensures AsPrinted(ParseItems(text), [item], rest, strict)
  {}

  lemma NextItemBy(text: string, item: Json, next: string, more: string, items: seq<Json>, rest: string, strict: bool)
    requires ReadsItem(text, item, next, strict) && At(next, ',') && next[1..] == more
    requires AsPrinted(ParseItems(more), items, rest, strict)
    ensures AsPrinted(ParseItems(text), [item] + items, rest, strict)
  {}

  lemma ObjectParsed(before: string, o: Object, rest: string)
    requires Blank(before) && ObjectSpaced(o)
    ensures AsPrinted(ParseValue(before + (ObjectText(o) + rest)), ObjectOf(o), rest,
                      AllJsonSpace(before) && StrictObject(o))
  {
    var text, inner := before + (ObjectText(o) + rest), InnerText(o) + ("}" + rest);
    ObjectThen(o, rest);
    SkipBlank(before, ObjectText(o) + rest);
    if Odd(Skip(text)) {
      OddFails(text);
    } else {
      ObjectBy(text, inner);
      InnerObjectParsed(o, rest);
    }
  }

  lemma InnerObjectParsed(o: Object, rest: string)
    requires ObjectSpaced(o)
    ensures var inner := InnerText(o) + ("}" + rest);
            if At(Skip(inner), '}') then FieldsOf(o.members) == [] && Skip(inner)[1..] == rest
            else AsPrinted(ParseFields(inner), FieldsOf(o.members), rest, StrictObject(o))
  {
    if o.members == [] {
      EmptyObjectParsed(o.blank, rest);
      assert ("}" + rest)[1..] == rest;
    } else {
      MembersStart(o.members, rest);
      MembersParsed(o.members, rest);
    }
  }

  // ----- the array -----

  /** What follows the first k objects. */
  function RestText(a: Array, k: nat): string
    requires k <= |a.elements|
    decreases |a.elements| - k
  {
    if k == |a.elements| then Closing(a) else Gap(a, k) + (ObjectText(a.elements[k].item) + RestText(a, k + 1))
  }

  lemma UptoNext(a: Array, k: nat)
    requires k < |a.elements|
    ensures TextUpto(a, k + 1) == TextUpto(a, k) + (Gap(a, k) + ObjectText(a.elements[k].item))
    ensures RestText(a, k) == Gap(a, k) + (ObjectText(a.elements[k].item) + RestText(a, k + 1))
  {}

  lemma FourParts(upto: string, gap: string, item: string, rest: string)
    ensures upto + (gap + (item + rest)) == upto + (gap + item) + rest
  {}

  /** The array's text, as what comes before an object's gap and what comes from there on. */
  function TextAround(a: Array, k: nat): string
    requires k <= |a.elements|
  {
    TextUpto(a, k) + RestText(a, k)
  }

  lemma AroundNext(a: Array, k: nat)
    requires k < |a.elements|
    ensures TextAround(a, k) == TextAround(a, k + 1)
  {
    UptoNext(a, k);
    FourParts(TextUpto(a, k), Gap(a, k), ObjectText(a.elements[k].item), RestText(a, k + 1));
  }

  lemma {:induction false} Unchanging(texts: seq<string>, k: nat)
    requires k < |texts| && forall i | 0 <= i < |texts| - 1 :: texts[i] == texts[i + 1]
    ensures texts[0] == texts[k]
  {
    if k > 0 { Unchanging(texts, k - 1); }
  }

  lemma UptoAndRest(a: Array)
    ensures TextUpto(a, 0) + RestText(a, 0) == ArrayText(a)
  {
    var n := |a.elements|;
    var around := seq(n + 1, i requires 0 <= i <= n => TextAround(a, i));
    forall i | 0 <= i < n ensures around[i] == around[i + 1] {
      AroundNext(a, i);
    }
    Unchanging(around, n);
  }

  /** The text from the kth element on. */
  function ItemsText(a: Array, k: nat): string
    requires k < |a.elements|
  {
    a.elements[k].before + (ObjectText(a.elements[k].item) + RestText(a, k + 1))
  }

  /** What follows the kth object, up to its comma or the closing bracket. */
  function Onward(a: Array, k: nat): string
    requires k < |a.elements|
  {
    if k + 1 == |a.elements| then "]" + a.trail else "," + ItemsText(a, k + 1)
  }

  lemma OnwardFrom(a: Array, k: nat)
    requires k < |a.elements|
    ensures k + 1 == |a.elements| ==> At(Onward(a, k), ']') && Onward(a, k)[1..] == a.trail
    ensures k + 1 < |a.elements| ==> At(Onward(a, k), ',') && Onward(a, k)[1..] == ItemsText(a, k + 1)
  {}

  lemma RestAfter(a: Array, k: nat)
    requires k < |a.elements|
    ensures RestText(a, k + 1) == a.elements[k].after + Onward(a, k)
  {
    var after := a.elements[k].after;
    if k + 1 < |a.elements| {
      var before, item := a.elements[k + 1].before, ObjectText(a.elements[k + 1].item) + RestText(a, k + 2);
      Regrouped(after + ",", before, item);
      Regrouped(after, ",", before + item);
    } else {
      Regrouped(after, "]", a.trail);
    }
  }

  lemma ItemParsed(a: Array, k: nat)
    requires Spaced(a) && k < |a.elements|
    ensures ReadsItem(ItemsText(a, k), ObjectOf(a.elements[k].item), Onward(a, k), Strict(a))
  {
    var e := a.elements[k];
    ObjectParsed(e.before, e.item, RestText(a, k + 1));
    RestAfter(a, k);
    SkipBlank(e.after, Onward(a, k));
  }

  /** The items from the kth on are read back, always so where asked to be strict. */
  predicate ReadsItems(a: Array, k: nat, strict: bool)
    requires k < |a.elements|
  {
    AsPrinted(ParseItems(ItemsText(a, k)), ItemsOf(a, k), a.trail, strict)
  }

  lemma LastItemParsed(a: Array, k: nat, strict: bool)
    requires Spaced(a) && k + 1 == |a.elements| && (strict ==> Strict(a))
    ensures ReadsItems(a, k, strict)
  {
    ItemParsed(a, k);
    OnwardFrom(a, k);
    LastItemBy(ItemsText(a, k), ObjectOf(a.elements[k].item), Onward(a, k), a.trail, strict);
    assert ItemsOf(a, k) == [ObjectOf(a.elements[k].item)];
  }

  lemma NextItemParsed(a: Array, k: nat, strict: bool)
    requires Spaced(a) && k + 1 < |a.elements| && (strict ==> Strict(a)) && ReadsItems(a, k + 1, strict)
    ensures ReadsItems(a, k, strict)
  {
    ItemParsed(a, k);
    OnwardFrom(a, k);
    NextItemBy(ItemsText(a, k), ObjectOf(a.elements[k].item), Onward(a, k), ItemsText(a, k + 1), ItemsOf(a, k + 1),
               a.trail, strict);
  }

  lemma {:induction false} ItemsParsed(a: Array, k: nat, strict: bool)
    requires Spaced(a) && k < |a.elements| && (strict ==> Strict(a))
    ensures ReadsItems(a, k, strict)
    decreases |a.elements| - k
  {
    if k + 1 == |a.elements| {
      LastItemParsed(a, k, strict);
    } else {
      ItemsParsed(a, k + 1, strict);
      NextItemParsed(a, k, strict);
    }
  }

  /** What follows the opening bracket. */
  function AfterBracket(a: Array): string {
    if a.elements == [] then a.blank + ("]" + a.trail) else ItemsText(a, 0)
  }

  lemma ArrayFromBracket(a: Array)
    ensures ArrayText(a) == a.lead + ("[" + AfterBracket(a))
  {
    UptoAndRest(a);
    assert TextUpto(a, 0) == "" && "" + RestText(a, 0) == RestText(a, 0);
    if a.elements == [] {
      Regrouped(a.lead + "[" + a.blank, "]", a.trail);
      Regrouped(a.lead + "[", a.blank, "]" + a.trail);
    } else {
      var item := ObjectText(a.elements[0].item) + RestText(a, 1);
      Regrouped(a.lead + "[", a.elements[0].before, item);
    }
    Regrouped(a.lead, "[", AfterBracket(a));
  }

  lemma InnerParsed(a: Array)
    requires Spaced(a)
    ensures var inner := AfterBracket(a);
            if At(Skip(inner), ']') then a.elements == [] && Skip(inner)[1..] == a.trail
            else AsPrinted(ParseItems(inner), ItemsOf(a, 0), a.trail, Strict(a))
  {
    if a.elements == [] {
      SkipBlank(a.blank, "]" + a.trail);
      assert ("]" + a.trail)[1..] == a.trail;
      assert Odd(Skip(AfterBracket(a))) ==> ParseItems(AfterBracket(a)).Fail?;
    } else {
      var e := a.elements[0];
      ObjectThen(e.item, RestText(a, 1));
      SkipBlank(e.before, ObjectText(e.item) + RestText(a, 1));
      ItemsParsed(a, 0, Strict(a));
    }
  }

  /** A printed array is read back, up to the white space behind it. */
  lemma ArrayParsed(a: Array)
    requires Spaced(a)
    ensures AsPrinted(ParseValue(ArrayText(a)), List(ItemsOf(a, 0)), a.trail, Strict(a))
  {
    var text, inner := ArrayText(a), AfterBracket(a);
    ArrayFromBracket(a);
    SkipBlank(a.lead, "[" + inner);
    if Odd(Skip(text)) {
      OddFails(text);
    } else {
      assert ("[" + inner)[1..] == inner;
      ListBy(text, inner);
      InnerParsed(a);
    }
  }

  lemma NoNumber(text: string)
    requires Skip(text) == "" || !IsNumberChar(Skip(text)[0])
    ensures Delimited(ParseValue(text))
  {}

  /** A text that begins like the array is no number. */
  lemma CutIsNoNumber(a: Array, cut: string, more: string)
    requires Spaced(a) && cut + more == ArrayText(a)
    ensures Delimited(ParseValue(cut))
  {
    if Skip(cut) != "" {
      SkipMore(cut, more);
      ArrayFromBracket(a);
      SkipBlank(a.lead, "[" + AfterBracket(a));
      assert (Skip(cut) + more)[0] == Skip(cut)[0];
    }
    NoNumber(cut);
  }

  /** The array's text without the white space behind it. */
  function Closed(a: Array): string {
    var n := |a.elements|;
    TextUpto(a, n) + ((if n == 0 then a.lead + "[" + a.blank else a.elements[n - 1].after) + "]")
  }

  lemma ClosedIsLonger(a: Array)
    ensures |TextUpto(a, |a.elements|)| <= |Closed(a)|
  {
    var n := |a.elements|;
    var end := (if n == 0 then a.lead + "[" + a.blank else a.elements[n - 1].after) + "]";
    assert Closed(a) == TextUpto(a, n) + end;
  }

  lemma SameUpTo(a: Array, trail: string)
    ensures TextUpto(a.(trail := trail), |a.elements|) == TextUpto(a, |a.elements|)
  {
    var b := a.(trail := trail);
    assert Gaps(b) == Gaps(a) && ObjectTexts(b) == ObjectTexts(a);
  }

  lemma TrailLast(a: Array, trail: string)
    ensures ArrayText(a.(trail := trail)) == Closed(a) + trail
  {
    var n := |a.elements|;
    SameUpTo(a, trail);
    Regrouped(TextUpto(a, n), (if n == 0 then a.lead + "[" + a.blank else a.elements[n - 1].after) + "]", trail);
  }

  /** If JSON.parse makes anything of a cut, the closing bracket was not cut off, and it makes
      the array of it. Of JSON it makes the array then. */
  lemma CutParsed(a: Array, cut: string)
    requires Spaced(a) && cut <= ArrayText(a)
    ensures Parse(cut).Some? ==> Parse(cut) == Some(List(ItemsOf(a, 0))) && Closed(a) <= cut
    ensures Strict(a) ==> (Parse(cut).Some? <==> Closed(a) <= cut)
  {
    var more := ArrayText(a)[|cut|..];
    assert cut + more == ArrayText(a);
    CutIsNoNumber(a, cut, more);
    ValueMore(cut, more);
    ArrayParsed(a);
    TrailLast(a, a.trail);
    if Parse(cut).Some? {
      assert ParseValue(cut).rest + more == a.trail;
      assert Closed(a) == ArrayText(a)[..|Closed(a)|];
    }
    if Strict(a) && Closed(a) <= cut { ClosedCutParsed(a, cut); }
  }

  lemma ClosedCutParsed(a: Array, cut: string)
    requires Spaced(a) && Strict(a) && cut <= ArrayText(a) && Closed(a) <= cut
    ensures Parse(cut).Some?
  {
    TrailLast(a, a.trail);
    var part := CutPastFirst(cut, Closed(a), a.trail);
    var b := a.(trail := part);
    TrailLast(a, part);
    ArrayParsed(b);
    SkipsAll(part);
  }
}
