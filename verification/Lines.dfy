/** Splitting log text into lines: the simple specification that every log
    follower of the two backends has to meet. */
module Lines {

  /** JavaScript's text.split("\n"): one more part than there are newlines. */
  function Split(text: string): (parts: seq<string>)
    ensures |parts| >= 1
  {
    if text == "" then [""]
    else
      var rest := Split(text[1..]);
      if text[0] == '\n' then [""] + rest else Prefixed(text[0], rest)
  }

  /** The parts with one character more in front. */
  function Prefixed(c: char, parts: seq<string>): (r: seq<string>)
    requires |parts| >= 1
    ensures |r| == |parts|
  {
    [[c] + parts[0]] + parts[1..]
  }

  function Join(parts: seq<string>): string
    requires |parts| >= 1
  {
    if |parts| == 1 then parts[0] else parts[0] + "\n" + Join(parts[1..])
  }

  predicate EndsWithNewline(text: string) {
    text != "" && text[|text| - 1] == '\n'
  }

  /** The newline-terminated lines of the text. */
  function CompleteLines(text: string): seq<string> {
    var parts := Split(text);
    parts[..|parts| - 1]
  }

  /** What follows the last newline. */
  function Tail(text: string): string {
    var parts := Split(text);
    parts[|parts| - 1]
  }

  /** undeliveredLines(text, 0): the split, less the empty part a final newline leaves. */
  function LogLines(text: string): seq<string> {
    if EndsWithNewline(text) then CompleteLines(text) else Split(text)
  }

  /** undeliveredLines(text, delivered). */
  function UndeliveredLines(text: string, delivered: nat): seq<string> {
    var lines := LogLines(text);
    if delivered <= |lines| then lines[delivered..] else []
  }

  /** The lines a reader prints for a text: no line at all for no text. */
  function OutputLines(text: string): seq<string> {
    if text == "" then [] else LogLines(text)
  }

  predicate AllBlank(lines: seq<string>) {
    forall i | 0 <= i < |lines| :: lines[i] == ""
  }

  lemma JoinNewLine(parts: seq<string>)
    requires |parts| >= 1
    ensures Join([""] + parts) == ['\n'] + Join(parts)
  {
    assert ([""] + parts)[1..] == parts;
  }

  lemma PrefixOfSum(c: char, x: string, y: string, z: string)
    ensures ([c] + x) + y + z == [c] + (x + y + z)
  {}

  lemma JoinPrefixed(c: char, parts: seq<string>)
    requires |parts| >= 1
    ensures Join(Prefixed(c, parts)) == [c] + Join(parts)
  {
    var r := Prefixed(c, parts);
    assert r[0] == [c] + parts[0];
    if |parts| > 1 {
      assert r[1..] == parts[1..];
      PrefixOfSum(c, parts[0], "\n", Join(parts[1..]));
    }
  }

  ghost predicate NoNewline(parts: seq<string>) {
    forall part <- parts :: '\n' !in part
  }

  lemma NoNewlinePrefixed(c: char, parts: seq<string>)
    requires |parts| >= 1 && NoNewline(parts) && c != '\n'
    ensures NoNewline(Prefixed(c, parts))
  {
    forall part <- Prefixed(c, parts) ensures '\n' !in part {
      assert part == [c] + parts[0] || part in parts;
      assert parts[0] in parts;
    }
  }

  /** Split is the inverse of Join, and it leaves no newline in any part. */
  lemma {:induction false} SplitCharacterized(text: string)
    ensures Join(Split(text)) == text
    ensures NoNewline(Split(text))
  {
    if text != "" {
      var rest := Split(text[1..]);
      SplitCharacterized(text[1..]);
      assert text == [text[0]] + text[1..];
      if text[0] == '\n' {
        JoinNewLine(rest);
      } else {
        JoinPrefixed(text[0], rest);
        NoNewlinePrefixed(text[0], rest);
      }
    }
  }

  /** No other way of cutting a text at its newlines exists. */
  lemma {:induction false} SplitUnique(parts: seq<string>)
    requires |parts| >= 1
    requires forall part <- parts :: '\n' !in part
    ensures Split(Join(parts)) == parts
    decreases |parts|, |parts[0]|
  {
    var text := Join(parts);
    if parts[0] == "" {
      if |parts| > 1 {
        assert text[1..] == Join(parts[1..]);
        SplitUnique(parts[1..]);
        assert parts == [""] + parts[1..];
      } else {
        assert parts == [""];
      }
    } else {
      var fewer := [parts[0][1..]] + parts[1..];
      assert fewer[1..] == parts[1..];
      assert text[1..] == Join(fewer);
      assert text[0] == parts[0][0] && text[0] in parts[0];
      forall part <- fewer ensures '\n' !in part {
        if part == fewer[0] { assert forall c <- part :: c in parts[0]; }
      }
      SplitUnique(fewer);
      assert [text[0]] + fewer[0] == parts[0];
      assert parts == [parts[0]] + parts[1..];
    }
  }

  /** Two lists of parts with the last of one and the first of the other run together. */
  function Glue(p: seq<string>, q: seq<string>): (r: seq<string>)
    requires |p| >= 1 && |q| >= 1
    ensures |r| == |p| + |q| - 1
  {
    p[..|p| - 1] + [p[|p| - 1] + q[0]] + q[1..]
  }

  lemma GlueNewLine(p: seq<string>, q: seq<string>)
    requires |p| >= 1 && |q| >= 1
    ensures Glue([""] + p, q) == [""] + Glue(p, q)
  {}

  lemma GlueSameLine(c: char, p: seq<string>, q: seq<string>)
    requires |p| >= 1 && |q| >= 1
    ensures Glue(Prefixed(c, p), q) == Prefixed(c, Glue(p, q))
  {
    if |p| == 1 {
      assert ([c] + p[0]) + q[0] == [c] + (p[0] + q[0]);
    }
  }

  lemma GlueNothing(q: seq<string>)
    requires |q| >= 1
    ensures Glue([""], q) == q
  {
    assert "" + q[0] == q[0];
  }

  /** Splitting a text in two pieces joins the parts that straddle the cut. */
  lemma {:induction false} SplitConcat(a: string, b: string)
    ensures Split(a + b) == Glue(Split(a), Split(b))
  {
    if a == "" {
      assert a + b == b;
      GlueNothing(Split(b));
    } else {
      var rest := a[1..];
      SplitConcat(rest, b);
      SplitHead(a[0], rest + b);
      assert [a[0]] + (rest + b) == a + b;
      GlueNewLine(Split(rest), Split(b));
      GlueSameLine(a[0], Split(rest), Split(b));
    }
  }

  lemma SplitHead(c: char, rest: string)
    ensures Split([c] + rest) == if c == '\n' then [""] + Split(rest) else Prefixed(c, Split(rest))
  {
    assert ([c] + rest)[1..] == rest;
  }

  lemma GlueAtLast(p: seq<string>, q: seq<string>, glued: seq<string>, last: seq<string>)
    requires |p| >= 1 && |q| >= 1 && glued == Glue(p, q) && last == Glue([p[|p| - 1]], q)
    ensures glued[..|glued| - 1] == p[..|p| - 1] + last[..|last| - 1]
    ensures glued[|glued| - 1] == last[|last| - 1]
  {
    assert [p[|p| - 1]][..0] == [];
    assert glued == p[..|p| - 1] + last;
  }

  lemma SplitOfTail(text: string)
    ensures Split(Tail(text)) == [Tail(text)]
  {
    SplitCharacterized(text);
    var parts := Split(text);
    assert parts[|parts| - 1] in parts;
    SplitUnique([Tail(text)]);
  }

  lemma LinesOfConcat(a: string, b: string, last: seq<string>)
    requires last == Glue([Tail(a)], Split(b))
    ensures CompleteLines(a + b) == CompleteLines(a) + last[..|last| - 1]
    ensures Tail(a + b) == last[|last| - 1]
  {
    SplitConcat(a, b);
    GlueAtLast(Split(a), Split(b), Split(a + b), last);
  }

  lemma LinesOfTailAnd(a: string, b: string, last: seq<string>)
    requires last == Glue([Tail(a)], Split(b))
    ensures CompleteLines(Tail(a) + b) == last[..|last| - 1]
    ensures Tail(Tail(a) + b) == last[|last| - 1]
  {
    SplitConcat(Tail(a), b);
    SplitOfTail(a);
  }

  lemma ConcatLines(a: string, b: string)
    ensures CompleteLines(a + b) == CompleteLines(a) + CompleteLines(Tail(a) + b)
    ensures Tail(a + b) == Tail(Tail(a) + b)
  {
    var last := Glue([Tail(a)], Split(b));
    LinesOfConcat(a, b, last);
    LinesOfTailAnd(a, b, last);
  }

  lemma TailHasNoNewline(text: string)
    ensures '\n' !in Tail(text)
    ensures CompleteLines(Tail(text)) == [] && Tail(Tail(text)) == Tail(text)
  {
    SplitCharacterized(text);
    var parts := Split(text);
    assert parts[|parts| - 1] in parts;
    SplitUnique([Tail(text)]);
  }

  lemma {:induction false} TailEmpty(text: string)
    ensures Tail(text) == "" <==> text == "" || EndsWithNewline(text)
  {
    if text != "" {
      TailEmpty(text[1..]);
    }
  }

  /** All the complete lines, and the unterminated tail when there is one. */
  lemma OutputIsCompletePlusTail(text: string)
    ensures OutputLines(text) == CompleteLines(text) + (if Tail(text) == "" then [] else [Tail(text)])
  {
    TailEmpty(text);
    var parts := Split(text);
    assert parts == parts[..|parts| - 1] + [parts[|parts| - 1]];
  }

  /** Growing a log never changes a line that was complete. */
  lemma CompleteLinesGrow(a: string, b: string)
    requires a <= b
    ensures CompleteLines(a) <= CompleteLines(b)
    ensures CompleteLines(a) <= LogLines(b)
  {
    assert b == a + b[|a|..];
    ConcatLines(a, b[|a|..]);
  }

  /** Lines written out again, each with its newline, as logs() and invoke() rebuild a text. */
  function Terminated(lines: seq<string>): string {
    if lines == [] then "" else lines[0] + "\n" + Terminated(lines[1..])
  }

  lemma {:induction false} TerminatedIsJoin(lines: seq<string>)
    ensures Terminated(lines) == Join(lines + [""])
  {
    if lines != [] {
      TerminatedIsJoin(lines[1..]);
      assert (lines + [""])[1..] == lines[1..] + [""];
    }
  }

  /** Writing lines out and reading them back changes nothing. */
  lemma TerminatedRoundTrip(lines: seq<string>)
    requires forall line <- lines :: '\n' !in line
    ensures OutputLines(Terminated(lines)) == lines
  {
    TerminatedIsJoin(lines);
    SplitUnique(lines + [""]);
    var text := Terminated(lines);
    assert Split(text) == lines + [""];
    OutputIsCompletePlusTail(text);
  }

  lemma OutputLinesHaveNoNewline(text: string)
    ensures forall line <- OutputLines(text) :: '\n' !in line
  {
    SplitCharacterized(text);
  }

  /** A reader of the whole text and the replay of an undelivered text agree on every text
      but the empty one, where the replay finds a line that was never printed. */
  lemma ReplayAgreesUnlessEmpty(text: string)
    ensures UndeliveredLines(text, 0) == OutputLines(text) <==> text != ""
  {
    if text == "" {
      assert Split(text) == [""];
    }
  }

  /** A longer log never has fewer lines. */
  lemma LogLinesGrow(a: string, b: string)
    requires a <= b
    ensures |LogLines(a)| <= |LogLines(b)|
  {
    CompleteLinesGrow(a, b);
    if EndsWithNewline(b) && !EndsWithNewline(a) {
      var rest := b[|a|..];
      assert b == a + rest;
      ConcatLines(a, rest);
      var last := Tail(a) + rest;
      assert EndsWithNewline(last) by {
        assert rest != "";
        assert b[|b| - 1] == rest[|rest| - 1];
      }
      TailEmpty(last);
      SplitCharacterized(last);
    }
  }

  ghost predicate BlankText(text: string) {
    forall i | 0 <= i < |text| :: text[i] == '\n'
  }

  lemma {:induction false} BlankSplit(text: string)
    ensures AllBlank(Split(text)) <==> BlankText(text)
  {
    if text != "" {
      BlankSplit(text[1..]);
      var rest := Split(text[1..]);
      assert BlankText(text) <==> text[0] == '\n' && BlankText(text[1..]) by {
        assert forall i | 1 <= i < |text| :: text[i] == text[1..][i - 1];
      }
      if text[0] == '\n' {
        var parts := [""] + rest;
        assert AllBlank(parts) <==> AllBlank(rest) by {
          assert forall i | 0 <= i < |rest| :: rest[i] == parts[i + 1];
        }
      } else {
        assert Split(text)[0] != "";
      }
    }
  }

  lemma BlankLines(text: string)
    ensures AllBlank(LogLines(text)) <==> BlankText(text)
  {
    BlankSplit(text);
    TailEmpty(text);
    var parts := Split(text);
    if EndsWithNewline(text) {
      assert forall i | 0 <= i < |parts| - 1 :: LogLines(text)[i] == parts[i];
    }
  }

  /** The text after its first k newlines. */
  function DropLines(text: string, k: nat): string
    requires k < |Split(text)|
  {
    Join(Split(text)[k..])
  }

  lemma DropLinesSplit(text: string, k: nat)
    requires k < |Split(text)|
    ensures Split(DropLines(text, k)) == Split(text)[k..]
  {
    SplitCharacterized(text);
    SplitUnique(Split(text)[k..]);
  }

  /** Only an empty text splits into one empty part. */
  lemma EmptyParts(text: string)
    ensures Split(text) == [""] <==> text == ""
  {
    SplitCharacterized(text);
  }

  lemma LastPartsEmpty(text: string, rest: string, k: nat)
    requires k < |LogLines(text)| && Split(rest) == Split(text)[k..]
    ensures rest == "" <==> text == ""
  {
    TailEmpty(text);
    EmptyParts(rest);
    EmptyParts(text);
  }

  lemma LastPartsEnd(text: string, rest: string, k: nat)
    requires k < |LogLines(text)| && Split(rest) == Split(text)[k..]
    ensures EndsWithNewline(rest) <==> EndsWithNewline(text)
  {
    LastPartsEmpty(text, rest, k);
    TailEmpty(text);
    TailEmpty(rest);
    assert Tail(rest) == Tail(text);
  }

  lemma DropLinesEnd(text: string, k: nat)
    requires k < |LogLines(text)|
    ensures EndsWithNewline(DropLines(text, k)) <==> EndsWithNewline(text)
    ensures DropLines(text, k) == "" <==> text == ""
  {
    DropLinesSplit(text, k);
    LastPartsEnd(text, DropLines(text, k), k);
    LastPartsEmpty(text, DropLines(text, k), k);
  }

  lemma DropThenShorten(parts: seq<string>, k: nat)
    requires k < |parts|
    ensures parts[k..][..|parts[k..]| - 1] == parts[..|parts| - 1][k..]
  {}

  lemma DropLinesComplete(text: string, k: nat)
    requires k < |Split(text)|
    ensures CompleteLines(DropLines(text, k)) == CompleteLines(text)[k..]
  {
    DropLinesSplit(text, k);
    DropThenShorten(Split(text), k);
  }

  lemma DropLinesLines(text: string, k: nat)
    requires k < |LogLines(text)|
    ensures LogLines(DropLines(text, k)) == LogLines(text)[k..]
  {
    DropLinesEnd(text, k);
    if EndsWithNewline(text) {
      DropLinesComplete(text, k);
    } else {
      DropLinesSplit(text, k);
    }
  }

  lemma DropLinesBlank(text: string, k: nat)
    requires k < |Split(text)| && BlankText(text)
    ensures BlankText(DropLines(text, k))
  {
    BlankSplit(text);
    DropLinesSplit(text, k);
    BlankSplit(DropLines(text, k));
  }
}
