/** JSON.parse: the values a text holds, and that what was parsed stays so as text is added. */
module JsonText {
  import opened JsonFields
  import opened Options

  /** A number is kept as its token. Of an object's fields, repeated keys included, all. */
  datatype Json =
    | Null
    | Bool(value: bool)
    | Number(token: string)
    | Text(text: string)
    | List(items: seq<Json>)
    | Dict(fields: seq<(string, Json)>)

  /** A value read off the front of a text, and what follows it. */
  datatype Parsed<T> = Fail | Got(value: T, rest: string)

  predicate JsonSpace(c: char) {
    c == ' ' || c == '\t' || c == '\n' || c == '\r'
  }

  function Skip(text: string): (rest: string)
    ensures |rest| <= |text|
  {
    if text != "" && JsonSpace(text[0]) then Skip(text[1..]) else text
  }

  /** Whether the text goes on with this character. */
  predicate At(text: string, c: char) {
    text != "" && text[0] == c
  }

  // ----- strings -----

  function HexDigit(c: char): (digit: Option<nat>)
    ensures digit.Some? ==> digit.value < 16
  {
    if '0' <= c <= '9' then Some((c - '0') as nat)
    else if 'a' <= c <= 'f' then Some((c - 'a') as nat + 10)
    else if 'A' <= c <= 'F' then Some((c - 'A') as nat + 10)
    else None
  }

  /** The character of a \u escape; half a surrogate pair has none of its own. */
  function CharOf(unit: nat): char
    requires unit < 0x10000
  {
    if 0xD800 <= unit < 0xE000 then '\U{FFFD}' else unit as char
  }

  function FourDigits(a: char, b: char, c: char, d: char): Option<char> {
    match (HexDigit(a), HexDigit(b), HexDigit(c), HexDigit(d))
    case (Some(w), Some(x), Some(y), Some(z)) =>
      Some(CharOf(((w * 16 + x) * 16 + y) * 16 + z))
    case _ => None
  }

  function Shorthand(c: char): Option<char> {
    match c
    case '"' | '\\' | '/' => Some(c)
    case 'b' => Some('\U{8}')
    case 'f' => Some('\U{C}')
    case 'n' => Some('\n')
    case 'r' => Some('\r')
    case 't' => Some('\t')
    case _ => None
  }

  /** The escape a text goes on with, from its backslash on. */
  function ParseEscape(text: string): (p: Parsed<char>)
    ensures p.Got? ==> |p.rest| < |text|
  {
    if |text| < 2 then Fail
    else if text[1] == 'u' then
      if |text| < 6 then Fail
      else
        var c := FourDigits(text[2], text[3], text[4], text[5]);
        if c.Some? then Got(c.value, text[6..]) else Fail
    else
      var c := Shorthand(text[1]);
      if c.Some? then Got(c.value, text[2..]) else Fail
  }

  function Preceded(c: char, p: Parsed<string>): Parsed<string> {
    if p.Got? then Got([c] + p.value, p.rest) else Fail
  }

  /** A string, from just after its opening quote. */
  function ParseBody(text: string): (p: Parsed<string>)
    ensures p.Got? ==> |p.rest| < |text|
  {
    if text == "" || text[0] < ' ' then Fail
    else if text[0] == '"' then Got("", text[1..])
    else if text[0] == '\\' then
      var e := ParseEscape(text);
      if e.Got? then Preceded(e.value, ParseBody(e.rest)) else Fail
    else Preceded(text[0], ParseBody(text[1..]))
  }

  // ----- numbers -----

  predicate IsDigit(c: char) {
    '0' <= c <= '9'
  }

  predicate IsNumberChar(c: char) {
    IsDigit(c) || c == '-' || c == '+' || c == '.' || c == 'e' || c == 'E'
  }

  /** The characters up to the first that no number has. */
  function Token(text: string): (token: string)
    ensures token <= text
  {
    if text != "" && IsNumberChar(text[0]) then [text[0]] + Token(text[1..]) else ""
  }

  function AfterDigits(text: string): string {
    if text != "" && IsDigit(text[0]) then AfterDigits(text[1..]) else text
  }

  predicate StartsWithDigit(text: string) {
    text != "" && IsDigit(text[0])
  }

  predicate IsExponent(text: string) {
    text != "" ==>
      && (text[0] == 'e' || text[0] == 'E')
      && var digits := if At(text[1..], '+') || At(text[1..], '-') then text[2..] else text[1..];
         StartsWithDigit(digits) && AfterDigits(digits) == ""
  }

  predicate IsNumber(token: string) {
    var unsigned := if At(token, '-') then token[1..] else token;
    && StartsWithDigit(unsigned)
    && var rest := if unsigned[0] == '0' then unsigned[1..] else AfterDigits(unsigned);
       if At(rest, '.') then StartsWithDigit(rest[1..]) && IsExponent(AfterDigits(rest[1..]))
       else IsExponent(rest)
  }

  // ----- values -----

  function ParseValue(text: string): (p: Parsed<Json>)
    ensures p.Got? ==> |p.rest| < |text|
    decreases |text|, 0
  {
    var t := Skip(text);
    if t == "" then Fail
    else if t[0] == '"' then
      var s := ParseBody(t[1..]);
      if s.Got? then Got(Text(s.value), s.rest) else Fail
    else if t[0] == '[' then
      var u := Skip(t[1..]);
      if At(u, ']') then Got(List([]), u[1..])
      else
        var items := ParseItems(t[1..]);
        if items.Got? then Got(List(items.value), items.rest) else Fail
    else if t[0] == '{' then
      var u := Skip(t[1..]);
      if At(u, '}') then Got(Dict([]), u[1..])
      else
        var fields := ParseFields(t[1..]);
        if fields.Got? then Got(Dict(fields.value), fields.rest) else Fail
    else if IsNumberChar(t[0]) then
      if IsNumber(Token(t)) then Got(Number(Token(t)), t[|Token(t)|..]) else Fail
    else if "null" <= t then Got(Null, t[4..])
    else if "true" <= t then Got(Bool(true), t[4..])
    else if "false" <= t then Got(Bool(false), t[5..])
    else Fail
  }

  /** A list's items, from the first to the closing bracket. */
  function ParseItems(text: string): (p: Parsed<seq<Json>>)
    ensures p.Got? ==> |p.rest| < |text|
    decreases |text|, 1
  {
    var v := ParseValue(text);
    if v.Fail? then Fail
    else
      var u := Skip(v.rest);
      if At(u, ']') then Got([v.value], u[1..])
      else if At(u, ',') then
        var more := ParseItems(u[1..]);
        if more.Got? then Got([v.value] + more.value, more.rest) else Fail
      else Fail
  }

  /** A field's key and the text after its colon. */
  function ParseKey(text: string): (p: Parsed<string>)
    ensures p.Got? ==> |p.rest| < |text|
  {
    var t := Skip(text);
    if !At(t, '"') then Fail
    else
      var key := ParseBody(t[1..]);
      if key.Got? && At(Skip(key.rest), ':') then Got(key.value, Skip(key.rest)[1..]) else Fail
  }

  /** An object's fields, from the first to the closing brace. */
  function ParseFields(text: string): (p: Parsed<seq<(string, Json)>>)
    ensures p.Got? ==> |p.rest| < |text|
    decreases |text|, 1
  {
    var key := ParseKey(text);
    if key.Fail? then Fail
    else
      var v := ParseValue(key.rest);
      if v.Fail? then Fail
      else
        var u := Skip(v.rest);
        if At(u, '}') then Got([(key.value, v.value)], u[1..])
        else if At(u, ',') then
          var more := ParseFields(u[1..]);
          if more.Got? then Got([(key.value, v.value)] + more.value, more.rest) else Fail
        else Fail
  }

  /** JSON.parse: one value, and nothing but white space around it. None: it throws. */
  function Parse(text: string): Option<Json> {
    var p := ParseValue(text);
    if p.Got? && Skip(p.rest) == "" then Some(p.value) else None
  }

  // ----- more text does not change what was parsed -----

  /** The same, with more text behind it. */
  predicate Extends<T(==)>(p: Parsed<T>, p': Parsed<T>, more: string) {
    p.Got? ==> p' == Got(p.value, p.rest + more)
  }

  lemma {:induction false} SkipMore(text: string, more: string)
    requires Skip(text) != ""
    ensures Skip(text + more) == Skip(text) + more
  {
    if JsonSpace(text[0]) {
      assert (text + more)[1..] == text[1..] + more;
      SkipMore(text[1..], more);
    }
  }

  lemma AtMore(text: string, more: string)
    requires text != ""
    ensures forall c :: At(text + more, c) <==> At(text, c)
    ensures (text + more)[1..] == text[1..] + more
  {}

  lemma EscapeMore(text: string, more: string)
    ensures Extends(ParseEscape(text), ParseEscape(text + more), more)
  {
    var all := text + more;
    if |text| >= 2 {
      assert all[1] == text[1] && all[2..] == text[2..] + more;
      if |text| >= 6 {
        assert all[2] == text[2] && all[3] == text[3] && all[4] == text[4] && all[5] == text[5];
        assert all[6..] == text[6..] + more;
      }
    }
  }

  lemma {:induction false} BodyMore(text: string, more: string)
    ensures Extends(ParseBody(text), ParseBody(text + more), more)
    decreases |text|
  {
    if ParseBody(text).Got? {
      AtMore(text, more);
      if text[0] == '\\' {
        EscapeMore(text, more);
        BodyMore(ParseEscape(text).rest, more);
      } else if text[0] != '"' {
        BodyMore(text[1..], more);
      }
    }
  }

  lemma {:induction false} TokenMore(text: string, more: string)
    requires text[|Token(text)|..] != ""
    ensures Token(text + more) == Token(text)
  {
    if text != "" && IsNumberChar(text[0]) {
      assert (text + more)[1..] == text[1..] + more;
      assert text[1..][|Token(text[1..])|..] == text[|Token(text)|..];
      TokenMore(text[1..], more);
    }
  }

  /** The end of a number shows only in what follows. */
  predicate Delimited(p: Parsed<Json>) {
    p.Got? && p.value.Number? ==> p.rest != ""
  }

  lemma WordMore(word: string, text: string, more: string)
    requires word <= text
    ensures word <= text + more && (text + more)[|word|..] == text[|word|..] + more
  {}

  lemma {:induction false} ScalarMore(text: string, more: string)
    requires ParseValue(text).Got? && Delimited(ParseValue(text))
    requires Skip(text)[0] != '[' && Skip(text)[0] != '{'
    ensures Extends(ParseValue(text), ParseValue(text + more), more)
  {
    var t := Skip(text);
    SkipMore(text, more);
    AtMore(t, more);
    if t[0] == '"' {
      BodyMore(t[1..], more);
    } else if IsNumberChar(t[0]) {
      TokenMore(t, more);
      WordMore(Token(t), t, more);
    } else if t[0] == 'n' {
      WordMore("null", t, more);
    } else if t[0] == 't' {
      WordMore("true", t, more);
    } else {
      WordMore("false", t, more);
    }
  }

  lemma NothingThere(text: string)
    requires Skip(text) == ""
    ensures ParseItems(text).Fail? && ParseFields(text).Fail?
  {}

  /** However the text goes on, a value that was parsed is parsed again. */
  lemma {:induction false} ValueMore(text: string, more: string)
    requires Delimited(ParseValue(text))
    ensures Extends(ParseValue(text), ParseValue(text + more), more)
    decreases |text|, 0
  {
    if ParseValue(text).Got? {
      var t := Skip(text);
      SkipMore(text, more);
      AtMore(t, more);
      if t[0] == '[' || t[0] == '{' {
        var u := Skip(t[1..]);
        if u == "" { NothingThere(t[1..]); }
        SkipMore(t[1..], more);
        AtMore(u, more);
        if t[0] == '[' && !At(u, ']') {
          ItemsMore(t[1..], more);
        } else if t[0] == '{' && !At(u, '}') {
          FieldsMore(t[1..], more);
        }
      } else {
        ScalarMore(text, more);
      }
    }
  }

  lemma {:induction false} ItemsMore(text: string, more: string)
    ensures Extends(ParseItems(text), ParseItems(text + more), more)
    decreases |text|, 1
  {
    if ParseItems(text).Got? {
      var v := ParseValue(text);
      ValueMore(text, more);
      var u := Skip(v.rest);
      SkipMore(v.rest, more);
      AtMore(u, more);
      if At(u, ',') { ItemsMore(u[1..], more); }
    }
  }

  lemma KeyMore(text: string, more: string)
    ensures Extends(ParseKey(text), ParseKey(text + more), more)
  {
    if ParseKey(text).Got? {
      var t := Skip(text);
      SkipMore(text, more);
      AtMore(t, more);
      BodyMore(t[1..], more);
      var key := ParseBody(t[1..]);
      SkipMore(key.rest, more);
      AtMore(Skip(key.rest), more);
    }
  }

  lemma {:induction false} FieldsMore(text: string, more: string)
    ensures Extends(ParseFields(text), ParseFields(text + more), more)
    decreases |text|, 1
  {
    if ParseFields(text).Got? {
      KeyMore(text, more);
      var key := ParseKey(text);
      ValueMore(key.rest, more);
      var v := ParseValue(key.rest);
      var u := Skip(v.rest);
      SkipMore(v.rest, more);
      AtMore(u, more);
      if At(u, ',') { FieldsMore(u[1..], more); }
    }
  }
}
