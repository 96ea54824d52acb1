/** The brace scanner that cuts the text of a JSON array into the texts of its objects. */
module JsonScan {
  import opened Options

  /** open is the text since the brace that opened the current top-level object. */
  datatype Scan = Scan(depth: nat, open: Option<string>, inString: bool, escaped: bool, objects: seq<string>)

  const START := Scan(0, None, false, false, [])

  function Extended(open: Option<string>, c: char): Option<string> {
    if open.Some? then Some(open.value + [c]) else None
  }

  function Step(s: Scan, c: char): Scan {
    var open := Extended(s.open, c);
    if s.inString then
      if s.escaped then s.(open := open, escaped := false)
      else if c == '\\' then s.(open := open, escaped := true)
      else if c == '"' then s.(open := open, inString := false)
      else s.(open := open)
    else if c == '"' then s.(open := open, inString := true)
    else if c == '{' then s.(open := if s.depth == 0 then Some([c]) else open, depth := s.depth + 1)
    else if c == '}' && s.depth == 1 && s.open.Some? then
      s.(open := None, depth := 0, objects := s.objects + [open.value])
    else if c == '}' && s.depth > 0 then s.(open := open, depth := s.depth - 1)
    else s.(open := open)
  }

  function Run(s: Scan, text: string): Scan
    decreases |text|
  {
    if text == "" then s else Run(Step(s, text[0]), text[1..])
  }

  lemma {:induction false} RunConcat(s: Scan, a: string, b: string)
    ensures Run(s, a + b) == Run(Run(s, a), b)
    decreases |a|
  {
    if a == "" {
      assert a + b == b;
    } else {
      assert (a + b)[1..] == a[1..] + b;
      RunConcat(Step(s, a[0]), a[1..], b);
    }
  }

  lemma RunOne(s: Scan, c: char)
    ensures Run(s, [c]) == Step(s, c)
  {
    assert [c][1..] == "";
  }

  /** What was found is never taken back. */
  lemma {:induction false} RunOnlyFinds(s: Scan, text: string)
    ensures s.objects <= Run(s, text).objects
    decreases |text|
  {
    if text != "" { RunOnlyFinds(Step(s, text[0]), text[1..]); }
  }

  /** splitTopLevelObjects, with its indices. */
  method SplitTopLevelObjects(text: string) returns (objects: seq<string>)
    ensures objects == Run(START, text).objects
  {
    objects := [];
    var depth: nat, start, inString, escaped := 0, -1, false, false;
    var i := 0;
    while i < |text|
      invariant 0 <= i <= |text| && -1 <= start < i + 1
      invariant Run(START, text[..i])
             == Scan(depth, if start >= 0 then Some(text[start..i]) else None, inString, escaped, objects)
      invariant start <= i
    {
      var ch := text[i];
      assert text[..i + 1] == text[..i] + [ch];
      RunConcat(START, text[..i], [ch]);
      RunOne(Run(START, text[..i]), ch);
      assert start >= 0 ==> text[start..i + 1] == text[start..i] + [ch];
      assert text[i..i + 1] == [ch];
      i := i + 1;
      if inString {
        if escaped {
          escaped := false;
        } else if ch == '\\' {
          escaped := true;
        } else if ch == '"' {
          inString := false;
        }
        continue;
      }
      if ch == '"' {
        inString := true;
        continue;
      }
      if ch == '{' {
        if depth == 0 {
          start := i - 1;
        }
        depth := depth + 1;
        continue;
      }
      if ch == '}' {
        if depth > 0 {
          depth := depth - 1;
          if depth == 0 && start >= 0 {
            objects := objects + [text[start..i]];
            start := -1;
          }
        }
        continue;
      }
    }
    assert text[..i] == text;
  }

  // ----- texts the scanner passes over -----

  /** Between two objects. */
  predicate Outside(s: Scan) {
    s.depth == 0 && s.open.None? && !s.inString && !s.escaped
  }

  /** Inside an object, and not in a string. */
  predicate Inside(s: Scan) {
    s.depth == 1 && s.open.Some? && !s.inString && !s.escaped
  }

  predicate PlainChar(c: char) {
    c != '"' && c != '{' && c != '}'
  }

  lemma {:induction false} RunPlainOutside(s: Scan, text: string)
    requires Outside(s) && forall i | 0 <= i < |text| :: PlainChar(text[i])
    ensures Run(s, text) == s
    decreases |text|
  {
    if text != "" { RunPlainOutside(Step(s, text[0]), text[1..]); }
  }

  lemma {:induction false} RunPlainInside(s: Scan, text: string)
    requires Inside(s) && forall i | 0 <= i < |text| :: PlainChar(text[i])
    ensures Run(s, text) == s.(open := Some(s.open.value + text))
    decreases |text|
  {
    if text == "" {
      assert s.open.value + "" == s.open.value;
    } else {
      RunPlainInside(Step(s, text[0]), text[1..]);
      assert s.open.value + [text[0]] + text[1..] == s.open.value + text;
    }
  }

  // ----- a text made of objects and what separates them -----

  predicate PlainText(text: string) {
    forall i | 0 <= i < |text| :: PlainChar(text[i])
  }

  function Between(found: seq<string>): Scan {
    START.(objects := found)
  }

  /** The scanner finds this text when it has read all of it, and nothing before. */
  ghost predicate ObjectLike(text: string) {
    && (forall found :: Run(Between(found), text) == Between(found + [text]))
    && (forall found, part | part < text :: Run(Between(found), part).objects == found)
  }

  /** The first k objects, each behind its gap. */
  function Joined(gaps: seq<string>, texts: seq<string>, k: nat): string
    requires k <= |gaps| == |texts|
  {
    if k == 0 then "" else Joined(gaps, texts, k - 1) + (gaps[k - 1] + texts[k - 1])
  }

  ghost predicate Scannable(gaps: seq<string>, texts: seq<string>) {
    |gaps| == |texts| && forall i | 0 <= i < |gaps| :: PlainText(gaps[i]) && ObjectLike(texts[i])
  }

  lemma {:induction false} RunJoined(gaps: seq<string>, texts: seq<string>, k: nat)
    requires Scannable(gaps, texts) && k <= |gaps|
    ensures Run(START, Joined(gaps, texts, k)) == Between(texts[..k])
  {
    if k > 0 {
      var found := texts[..k - 1];
      RunJoined(gaps, texts, k - 1);
      RunConcat(START, Joined(gaps, texts, k - 1), gaps[k - 1] + texts[k - 1]);
      RunConcat(Between(found), gaps[k - 1], texts[k - 1]);
      RunPlainOutside(Between(found), gaps[k - 1]);
      assert ObjectLike(texts[k - 1]);
      assert found + [texts[k - 1]] == texts[..k];
    }
  }

  lemma {:induction false} JoinedAfter(gaps: seq<string>, texts: seq<string>, k: nat, n: nat) returns (rest: string)
    requires k <= n <= |gaps| == |texts|
    ensures Joined(gaps, texts, n) == Joined(gaps, texts, k) + rest
  {
    rest := "";
    if k < n {
      rest := JoinedAfter(gaps, texts, k, n - 1);
      rest := rest + (gaps[n - 1] + texts[n - 1]);
    }
  }

  lemma JoinedGrows(gaps: seq<string>, texts: seq<string>, k: nat, n: nat)
    requires k <= n <= |gaps| == |texts|
    ensures |Joined(gaps, texts, k)| <= |Joined(gaps, texts, n)|
  {
    var rest := JoinedAfter(gaps, texts, k, n);
  }

  /** A cut of a text that reaches past its first part. */
  lemma CutPastFirst(cut: string, a: string, b: string) returns (part: string)
    requires cut <= a + b && |cut| >= |a|
    ensures cut == a + part && part <= b
  {
    part := cut[|a|..];
    assert cut == a + part;
    assert forall i | 0 <= i < |part| :: part[i] == b[i];
  }

  lemma CutOfFirst(cut: string, a: string, b: string)
    requires cut <= a + b && |cut| <= |a|
    ensures cut <= a
  {
    assert forall i | 0 <= i < |cut| :: cut[i] == (a + b)[i] == a[i];
  }

  lemma PrefixIsPlain(text: string, part: string)
    requires PlainText(text) && part <= text
    ensures PlainText(part)
  {}

  /** Nothing is found before the end of an object. */
  lemma RunPart(found: seq<string>, gap: string, text: string, part: string)
    requires PlainText(gap) && ObjectLike(text) && part < gap + text
    ensures Run(Between(found), part).objects == found
  {
    if |part| <= |gap| {
      CutOfFirst(part, gap, text);
      PrefixIsPlain(gap, part);
      RunPlainOutside(Between(found), part);
    } else {
      var inside := CutPastFirst(part, gap, text);
      RunConcat(Between(found), gap, inside);
      RunPlainOutside(Between(found), gap);
      assert inside < text;
    }
  }

  /** Cut off anywhere, such a text yields exactly the objects complete before the cut. */
  lemma TruncatedRun(gaps: seq<string>, texts: seq<string>, closing: string, cut: string, k: nat)
    requires Scannable(gaps, texts) && PlainText(closing) && k <= |gaps|
    requires cut <= Joined(gaps, texts, |gaps|) + closing
    requires |Joined(gaps, texts, k)| <= |cut| && (k < |gaps| ==> |cut| < |Joined(gaps, texts, k + 1)|)
    ensures Run(START, cut).objects == texts[..k]
  {
    var upto := Joined(gaps, texts, k);
    RunJoined(gaps, texts, k);
    if k == |gaps| {
      var part := CutPastFirst(cut, upto, closing);
      RunConcat(START, upto, part);
      PrefixIsPlain(closing, part);
      RunPlainOutside(Between(texts[..k]), part);
    } else {
      var next := Joined(gaps, texts, k + 1);
      var rest := JoinedAfter(gaps, texts, k + 1, |gaps|);
      assert next + rest + closing == next + (rest + closing);
      CutOfFirst(cut, next, rest + closing);
      var part := CutPastFirst(cut, upto, gaps[k] + texts[k]);
      RunConcat(START, upto, part);
      RunPart(texts[..k], gaps[k], texts[k], part);
    }
  }

  /** Every length falls between the ends of two successive objects. */
  lemma LengthFallsBetween(gaps: seq<string>, texts: seq<string>, length: nat) returns (k: nat)
    requires |gaps| == |texts|
    ensures k <= |gaps| && |Joined(gaps, texts, k)| <= length
    ensures k < |gaps| ==> length < |Joined(gaps, texts, k + 1)|
  {
    k := |gaps|;
    while k > 0 && length < |Joined(gaps, texts, k)|
      invariant k <= |gaps| && (k < |gaps| ==> length < |Joined(gaps, texts, k + 1)|)
    {
      k := k - 1;
    }
  }
}
