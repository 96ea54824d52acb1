/** The first and the last occurrence of a character in a text. */
module Search {

  function FirstFrom(text: string, c: char, from: nat): (i: nat)
    requires from <= |text|
    ensures from <= i <= |text| && (i < |text| ==> text[i] == c)
    ensures forall j | from <= j < i :: text[j] != c
    decreases |text| - from
  {
    if from == |text| || text[from] == c then from else FirstFrom(text, c, from + 1)
  }

  /** Where c first occurs, or the text's length. */
  function IndexOf(text: string, c: char): (i: nat)
    ensures i <= |text| && c !in text[..i] && (i < |text| ==> text[i] == c)
  {
    FirstFrom(text, c, 0)
  }

  lemma IndexOfFound(before: string, c: char, after: string)
    requires c !in before
    ensures IndexOf(before + [c] + after, c) == |before|
  {
    var text := before + [c] + after;
    var i := IndexOf(text, c);
    assert text[|before|] == c;
    assert forall j | 0 <= j < |before| :: text[j] == before[j];
  }

  lemma IndexOfMissing(text: string, c: char)
    requires c !in text
    ensures IndexOf(text, c) == |text|
  {}

  lemma SplitAtFirst(before: string, c: char, after: string)
    requires c !in before
    ensures var text := before + [c] + after;
            IndexOf(text, c) == |before| && text[..|before|] == before && text[|before| + 1..] == after
  {
    IndexOfFound(before, c, after);
  }

  function LastBefore(text: string, c: char, to: nat): (i: int)
    requires to <= |text|
    ensures -1 <= i < to && (i >= 0 ==> text[i] == c)
    ensures forall j | i < j < to :: text[j] != c
  {
    if to == 0 then -1 else if text[to - 1] == c then to - 1 else LastBefore(text, c, to - 1)
  }

  /** Where c last occurs, or -1. */
  function LastIndexOf(text: string, c: char): (i: int)
    ensures -1 <= i < |text| && (i >= 0 ==> text[i] == c)
    ensures forall j | i < j < |text| :: text[j] != c
  {
    LastBefore(text, c, |text|)
  }

  lemma SplitAtLast(before: string, c: char, after: string)
    requires c !in after
    ensures var text := before + [c] + after;
            LastIndexOf(text, c) == |before| && text[..|before|] == before && text[|before| + 1..] == after
  {
    var text := before + [c] + after;
    assert text[|before|] == c;
    assert forall j | |before| < j < |text| :: text[j] == after[j - |before| - 1];
  }

  lemma LastInConcat(a: string, b: string, c: char)
    ensures LastIndexOf(a + b, c) == if c in b then |a| + LastIndexOf(b, c) else LastIndexOf(a, c)
  {
    var text, i, j := a + b, LastIndexOf(a, c), LastIndexOf(b, c);
    assert forall k | |a| <= k < |text| :: text[k] == b[k - |a|];
    if j >= 0 {
      assert text[|a| + j] == c;
    } else if i >= 0 {
      assert text[i] == c;
    }
  }

  lemma Rejoined(text: string, i: nat)
    requires i < |text|
    ensures text[..i] + [text[i]] + text[i + 1..] == text
  {}
}
