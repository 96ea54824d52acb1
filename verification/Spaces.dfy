/** JavaScript's trim(). */
module Spaces {

  /** The characters trim() removes. */
  predicate IsSpace(c: char) {
    || c == ' ' || '\t' <= c <= '\r' || c == '\U{a0}' || c == '\U{1680}' || '\U{2000}' <= c <= '\U{200a}'
    || c == '\U{2028}' || c == '\U{2029}' || c == '\U{202f}' || c == '\U{205f}' || c == '\U{3000}' || c == '\U{feff}'
  }

  /** text.trim().length === 0 */
  predicate Blank(text: string) {
    forall i | 0 <= i < |text| :: IsSpace(text[i])
  }

  function TrimStart(text: string): string {
    if text != "" && IsSpace(text[0]) then TrimStart(text[1..]) else text
  }

  function TrimEnd(text: string): string {
    if text != "" && IsSpace(text[|text| - 1]) then TrimEnd(text[..|text| - 1]) else text
  }

  function Trim(text: string): string {
    TrimEnd(TrimStart(text))
  }

  lemma {:induction false} TrimStartDrops(before: string, core: string)
    requires Blank(before) && core != "" && !IsSpace(core[0])
    ensures TrimStart(before + core) == core
  {
    if before == "" {
      assert before + core == core;
    } else {
      assert (before + core)[1..] == before[1..] + core;
      TrimStartDrops(before[1..], core);
    }
  }

  lemma {:induction false} TrimEndDrops(core: string, after: string)
    requires Blank(after) && core != "" && !IsSpace(core[|core| - 1])
    ensures TrimEnd(core + after) == core
  {
    if after == "" {
      assert core + after == core;
    } else {
      assert (core + after)[..|core + after| - 1] == core + after[..|after| - 1];
      TrimEndDrops(core, after[..|after| - 1]);
    }
  }

  /** Whatever blanks surround it, a text that begins and ends with none is what is left. */
  lemma TrimUndoesPadding(before: string, core: string, after: string)
    requires Blank(before) && Blank(after)
    requires core != "" && !IsSpace(core[0]) && !IsSpace(core[|core| - 1])
    ensures Trim(before + core + after) == core
  {
    assert before + core + after == before + (core + after);
    TrimStartDrops(before, core + after);
    TrimEndDrops(core, after);
  }
}
