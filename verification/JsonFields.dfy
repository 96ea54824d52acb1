/** The pattern that reads one string field off an object's text. */
module JsonFields {
  import opened Options
  import opened Spaces

  // ----- string literals -----

  /** A string between its quotes, escaped with \\ and \" only. */
  function Escape(value: string): string {
    if value == "" then ""
    else (if value[0] == '\\' || value[0] == '"' then ['\\', value[0]] else [value[0]]) + Escape(value[1..])
  }

  function Literal(value: string): string {
    "\"" + Escape(value) + "\""
  }

  /** replace(/\\"/g, '"') */
  function UnescapeQuotes(text: string): string {
    if text == "" then ""
    else if |text| >= 2 && text[0] == '\\' && text[1] == '"' then "\"" + UnescapeQuotes(text[2..])
    else [text[0]] + UnescapeQuotes(text[1..])
  }

  /** replace(/\\\\/g, "\\") */
  function UnescapeBackslashes(text: string): string {
    if text == "" then ""
    else if |text| >= 2 && text[0] == '\\' && text[1] == '\\' then "\\" + UnescapeBackslashes(text[2..])
    else [text[0]] + UnescapeBackslashes(text[1..])
  }

  /** Only the backslashes doubled: what is left after the first replacement. */
  function EscapeBackslashes(value: string): string {
    if value == "" then ""
    else (if value[0] == '\\' then ['\\', '\\'] else [value[0]]) + EscapeBackslashes(value[1..])
  }

  lemma {:induction false} QuotesFirst(value: string)
    ensures UnescapeQuotes(Escape(value)) == EscapeBackslashes(value)
  {
    if value != "" {
      var c, rest := value[0], value[1..];
      var text := Escape(value);
      QuotesFirst(rest);
      if c == '\\' {
        var once := "\\" + Escape(rest);
        assert text[1..] == once && once[1..] == Escape(rest);
        BackslashBeforeEscape(rest);
      } else if c == '"' {
        assert text[2..] == Escape(rest);
      } else {
        assert text[1..] == Escape(rest);
      }
    }
  }

  /** A backslash in front of an escaped text is never taken for the start of an escaped quote. */
  lemma BackslashBeforeEscape(rest: string)
    ensures UnescapeQuotes("\\" + Escape(rest)) == "\\" + UnescapeQuotes(Escape(rest))
  {
    var text := "\\" + Escape(rest);
    assert text[1..] == Escape(rest);
    if rest != "" { assert Escape(rest)[0] != '"'; }
  }

  lemma {:induction false} ThenBackslashes(value: string)
    ensures UnescapeBackslashes(EscapeBackslashes(value)) == value
  {
    if value != "" {
      var text := EscapeBackslashes(value);
      ThenBackslashes(value[1..]);
      if value[0] == '\\' {
        assert text[2..] == EscapeBackslashes(value[1..]);
      } else {
        assert text[1..] == EscapeBackslashes(value[1..]);
      }
    }
  }

  function Unescape(text: string): string {
    UnescapeBackslashes(UnescapeQuotes(text))
  }

  /** The two replacements, one after the other, undo the escaping of every string. */
  lemma UnescapeUndoesEscape(value: string)
    ensures Unescape(Escape(value)) == value
  {
    QuotesFirst(value);
    ThenBackslashes(value);
  }

  // ----- the pattern "field"\s*:\s*"((?:[^"\\]|\\.)*)" -----

  /** The characters . does not match. */
  predicate IsLineTerminator(c: char) {
    c == '\n' || c == '\r' || c == '\U{2028}' || c == '\U{2029}'
  }

  /** The captured group, from just after its opening quote. */
  function Body(text: string): Option<string> {
    if text == "" then None
    else if text[0] == '"' then Some("")
    else if text[0] == '\\' then
      if |text| < 2 || IsLineTerminator(text[1]) then None
      else
        var rest := Body(text[2..]);
        if rest.Some? then Some(text[..2] + rest.value) else None
    else
      var rest := Body(text[1..]);
      if rest.Some? then Some(text[..1] + rest.value) else None
  }

  /** What has to follow a field's name: \s*:\s*" and the group. */
  function AfterName(text: string): Option<string> {
    var t := TrimStart(text);
    if t == "" || t[0] != ':' then None
    else
      var u := TrimStart(t[1..]);
      if u == "" || u[0] != '"' then None else Body(u[1..])
  }

  function MatchHere(text: string, field: string): Option<string> {
    var quoted := "\"" + field + "\"";
    if quoted <= text then AfterName(text[|quoted|..]) else None
  }

  /** The leftmost match. */
  function FirstMatch(text: string, field: string): Option<string> {
    if text == "" then None
    else if MatchHere(text, field).Some? then MatchHere(text, field)
    else FirstMatch(text[1..], field)
  }

  /** extractStringField */
  function ExtractStringField(objectText: string, field: string): Option<string> {
    var found := FirstMatch(objectText, field);
    if found.Some? then Some(Unescape(found.value)) else None
  }

  /** A field name the pattern is used with: name, status. */
  predicate IsWord(field: string) {
    field != "" && forall i | 0 <= i < |field| :: 'a' <= field[i] <= 'z'
  }

  // ----- on the text of a literal -----

  lemma {:induction false} BodyOfLiteral(value: string, rest: string)
    ensures Body(Escape(value) + "\"" + rest) == Some(Escape(value))
  {
    if value == "" {
      assert "" + "\"" + rest == "\"" + rest;
    } else {
      var more := Escape(value[1..]) + "\"" + rest;
      BodyOfLiteral(value[1..], rest);
      if value[0] == '\\' || value[0] == '"' {
        assert Escape(value) + "\"" + rest == ['\\', value[0]] + more;
        assert (['\\', value[0]] + more)[2..] == more;
      } else {
        assert Escape(value) + "\"" + rest == [value[0]] + more;
        assert ([value[0]] + more)[1..] == more;
      }
    }
  }

  /** The quotes of "field" can only be those of a literal that is the field's name. */
  lemma {:induction false} NameInLiteral(s: string, rest: string, field: string)
    requires forall i | 0 <= i < |field| :: 'a' <= field[i] <= 'z'
    ensures field + "\"" <= Escape(s) + "\"" + rest <==> s == field
  {
    var text := Escape(s) + "\"" + rest;
    if s == "" {
      assert text[0] == '"';
      if field != "" { assert (field + "\"")[0] == field[0]; }
    } else if field == "" {
      assert text[0] == Escape(s)[0] && Escape(s)[0] != '"';
      assert (field + "\"")[0] == '"';
    } else if s[0] == '\\' || s[0] == '"' {
      assert text[0] == '\\' && (field + "\"")[0] == field[0];
    } else {
      NameInLiteral(s[1..], rest, field[1..]);
      var more := Escape(s[1..]) + "\"" + rest;
      assert text == [s[0]] + more;
      assert field + "\"" == [field[0]] + (field[1..] + "\"");
      assert s == [s[0]] + s[1..] && field == [field[0]] + field[1..];
      if field + "\"" <= text {
        assert text[0] == field[0];
        assert text[1..] == more && (field + "\"")[1..] == field[1..] + "\"";
      }
    }
  }

  lemma MatchAtLiteral(s: string, rest: string, field: string)
    requires IsWord(field)
    ensures MatchHere("\"" + (Escape(s) + "\"" + rest), field) == if s == field then AfterName(rest) else None
  {
    var body := Escape(s) + "\"" + rest;
    var text, quoted := "\"" + body, "\"" + field + "\"";
    NameInLiteral(s, rest, field);
    assert quoted == "\"" + (field + "\"");
    assert text[1..] == body && quoted[1..] == field + "\"";
    if s == field {
      WordIsNotEscaped(field);
      assert body == field + "\"" + rest;
      assert text == quoted + rest;
      assert text[|quoted|..] == rest;
    }
  }

  lemma {:induction false} WordIsNotEscaped(field: string)
    requires forall i | 0 <= i < |field| :: 'a' <= field[i] <= 'z'
    ensures Escape(field) == field
  {
    if field != "" { WordIsNotEscaped(field[1..]); }
  }

  lemma SkipChar(c: char, rest: string, field: string)
    requires c != '"'
    ensures FirstMatch([c] + rest, field) == FirstMatch(rest, field)
  {
    var text := [c] + rest;
    assert text[1..] == rest;
    assert ("\"" + field + "\"")[0] == '"';
  }

  lemma {:induction false} SkipPlain(plain: string, rest: string, field: string)
    requires forall i | 0 <= i < |plain| :: plain[i] != '"'
    ensures FirstMatch(plain + rest, field) == FirstMatch(rest, field)
  {
    if plain == "" {
      assert plain + rest == rest;
    } else {
      assert plain + rest == [plain[0]] + (plain[1..] + rest);
      SkipChar(plain[0], plain[1..] + rest, field);
      SkipPlain(plain[1..], rest, field);
    }
  }

  /** A key is taken for the field if it is the field's name, or ends with a quote and that name. */
  predicate TakenFor(key: string, field: string) {
    key == field || EndsWithQuoted(key, field)
  }

  predicate EndsWithQuoted(key: string, field: string) {
    |key| > |field| && key[|key| - |field| - 1..] == "\"" + field
  }

  lemma EndsFromLater(key: string, field: string)
    requires key != "" && key != "\"" + field
    ensures EndsWithQuoted(key, field) <==> EndsWithQuoted(key[1..], field)
  {
    if |key| > |field| + 1 {
      assert key[1..][|key[1..]| - |field| - 1..] == key[|key| - |field| - 1..];
    } else if |key| == |field| + 1 {
      assert key[0..] == key;
    }
  }

  /** Reading on from within a literal: its closing quote may complete the pattern only if
      what was read ends with a quote and the field's name. */
  lemma {:induction false} FirstMatchInLiteral(s: string, rest: string, field: string)
    requires IsWord(field) && rest != "" && !('a' <= rest[0] <= 'z')
    ensures FirstMatch(Escape(s) + "\"" + rest, field)
         == if AfterName(rest).Some? && EndsWithQuoted(s, field) then AfterName(rest) else FirstMatch(rest, field)
  {
    var text := Escape(s) + "\"" + rest;
    if s == "" {
      assert text == "\"" + rest && text[1..] == rest;
      ClosingQuoteMatchesNothing(rest, field);
    } else {
      var c, more := s[0], Escape(s[1..]) + "\"" + rest;
      FirstMatchInLiteral(s[1..], rest, field);
      if c == '"' {
        assert text == ['\\'] + ("\"" + more);
        SkipChar('\\', "\"" + more, field);
        MatchAtLiteral(s[1..], rest, field);
        assert ("\"" + more)[1..] == more;
        assert s == "\"" + s[1..];
        if s[1..] != field { EndsFromLater(s, field); } else { assert s[0..] == s; }
      } else {
        if c == '\\' {
          assert text == ['\\'] + (['\\'] + more);
          SkipChar('\\', ['\\'] + more, field);
        } else {
          assert text == [c] + more;
        }
        SkipChar(c, more, field);
        EndsFromLater(s, field);
      }
    }
  }

  lemma ClosingQuoteMatchesNothing(rest: string, field: string)
    requires IsWord(field) && rest != "" && !('a' <= rest[0] <= 'z')
    ensures MatchHere("\"" + rest, field) == None
  {
    var text, quoted := "\"" + rest, "\"" + field + "\"";
    assert text[1] == rest[0] && quoted[1] == field[0];
  }

  lemma FirstMatchAtLiteral(s: string, rest: string, field: string)
    requires IsWord(field) && rest != "" && !('a' <= rest[0] <= 'z')
    ensures FirstMatch(Literal(s) + rest, field)
         == if AfterName(rest).Some? && TakenFor(s, field) then AfterName(rest) else FirstMatch(rest, field)
  {
    var body := Escape(s) + "\"" + rest;
    assert Literal(s) + rest == "\"" + body;
    assert ("\"" + body)[1..] == body;
    MatchAtLiteral(s, rest, field);
    FirstMatchInLiteral(s, rest, field);
  }
}
