/** Whether a recorded process is still the one that runs under its pid. */
module Liveness {
  import opened Decimals
  import opened Options
  import opened Search
  import opened Spaces

  const LIVENESS_TOLERANCE_MS: nat := 2000

  /** The capture groups of the elapsed-time pattern, [[dd-]hh:]mm:ss. */
  datatype Etime = Etime(days: Option<string>, hours: Option<string>, minutes: string, seconds: string) {

    /** What the pattern's \d+, \d{1,2} and \d{2} ask of each group. */
    predicate Matches() {
      && (days.Some? ==> AllDigits(days.value) && days.value != "")
      && (hours.Some? ==> AllDigits(hours.value) && 1 <= |hours.value| <= 2)
      && AllDigits(minutes) && 1 <= |minutes| <= 2
      && AllDigits(seconds) && |seconds| == 2
    }

    /** The text after the days. */
    function ClockText(): string {
      if hours.Some? then hours.value + [':'] + (minutes + [':'] + seconds) else minutes + [':'] + seconds
    }

    function Text(): string {
      if days.Some? then days.value + ['-'] + ClockText() else ClockText()
    }

    function TotalSeconds(): nat
      requires Matches()
    {
      var d := if days.Some? then Value(days.value) else 0;
      var h := if hours.Some? then Value(hours.value) else 0;
      (d * 24 * 60 + h * 60 + Value(minutes)) * 60 + Value(seconds)
    }
  }

  /** The groups after the days: the text splits at its first colon, and at the second if any. */
  function Clock(days: Option<string>, clock: string): Option<Etime> {
    var first := IndexOf(clock, ':');
    if first == |clock| then None
    else
      var rest := clock[first + 1..];
      var second := IndexOf(rest, ':');
      if second < |rest| then Some(Etime(days, Some(clock[..first]), rest[..second], rest[second + 1..]))
      else Some(Etime(days, None, clock[..first], rest))
  }

  /** The groups of a match, read off left to right. */
  function Groups(text: string): Option<Etime> {
    var dash := IndexOf(text, '-');
    var groups := if dash < |text| then Clock(Some(text[..dash]), text[dash + 1..]) else Clock(None, text);
    if groups.Some? && groups.value.Matches() then groups else None
  }

  lemma DigitsHaveNo(text: string, c: char)
    requires AllDigits(text) && !IsDigit(c)
    ensures c !in text
  {}

  lemma ClockOfText(e: Etime)
    requires e.Matches()
    ensures Clock(e.days, e.ClockText()) == Some(e)
  {
    DigitsHaveNo(e.minutes, ':');
    SplitAtFirst(e.minutes, ':', e.seconds);
    if e.hours.Some? {
      DigitsHaveNo(e.hours.value, ':');
      SplitAtFirst(e.hours.value, ':', e.minutes + [':'] + e.seconds);
    } else {
      DigitsHaveNo(e.seconds, ':');
      IndexOfMissing(e.seconds, ':');
    }
  }

  lemma ClockHasNoDash(e: Etime)
    requires e.Matches()
    ensures '-' !in e.ClockText()
  {
    DigitsHaveNo(e.minutes, '-');
    DigitsHaveNo(e.seconds, '-');
    if e.hours.Some? { DigitsHaveNo(e.hours.value, '-'); }
  }

  lemma GroupsOfText(e: Etime)
    requires e.Matches()
    ensures Groups(e.Text()) == Some(e)
  {
    ClockOfText(e);
    if e.days.Some? {
      DigitsHaveNo(e.days.value, '-');
      SplitAtFirst(e.days.value, '-', e.ClockText());
    } else {
      ClockHasNoDash(e);
      IndexOfMissing(e.ClockText(), '-');
    }
  }

  lemma TextOfClock(days: Option<string>, clock: string)
    requires Clock(days, clock).Some?
    ensures Clock(days, clock).value.days == days && Clock(days, clock).value.ClockText() == clock
  {
    var first := IndexOf(clock, ':');
    var rest := clock[first + 1..];
    var second := IndexOf(rest, ':');
    Rejoined(clock, first);
    if second < |rest| { Rejoined(rest, second); }
  }

  lemma TextOfGroups(text: string)
    requires Groups(text).Some?
    ensures Groups(text).value.Matches() && Groups(text).value.Text() == text
  {
    var dash := IndexOf(text, '-');
    if dash < |text| {
      TextOfClock(Some(text[..dash]), text[dash + 1..]);
      Rejoined(text, dash);
    } else {
      TextOfClock(None, text);
    }
  }

  /** The pattern matches a text in one way at most, and exactly when it is such a text. */
  lemma GroupsMeaning(text: string, e: Etime)
    ensures Groups(text) == Some(e) <==> e.Matches() && text == e.Text()
  {
    if e.Matches() && text == e.Text() { GroupsOfText(e); }
    if Groups(text) == Some(e) { TextOfGroups(text); }
  }

  /** parseEtimeMs */
  function ParseEtimeMs(text: string): Option<nat> {
    var groups := Groups(Trim(text));
    if groups.Some? then
      TextOfGroups(Trim(text));
      Some(groups.value.TotalSeconds() * 1000)
    else None
  }

  function TwoDigits(n: nat): (text: string)
    requires n < 100
    ensures |text| == 2 && AllDigits(text)
  {
    [Digit(n / 10), Digit(n % 10)]
  }

  lemma ValueOfTwoDigits(n: nat)
    requires n < 100
    ensures Value(TwoDigits(n)) == n
  {
    var tens := [Digit(n / 10)];
    assert Value(tens) == n / 10 by { assert tens[..0] == ""; }
    assert TwoDigits(n)[..1] == tens;
  }

  /** ps -o etime= for a process that has run so many whole seconds. Its days carry as many
      leading zeros as the ps at hand prints. */
  function PrintEtime(seconds: nat, dayZeros: string): string {
    var days, hours, minutes := seconds / 86400, seconds / 3600 % 24, seconds / 60 % 60;
    var clock := TwoDigits(minutes) + [':'] + TwoDigits(seconds % 60);
    if days > 0 then dayZeros + Print(days) + ['-'] + (TwoDigits(hours) + [':'] + clock)
    else if hours > 0 then TwoDigits(hours) + [':'] + clock
    else clock
  }

  lemma {:induction false} LeadingZeros(zeros: string, digits: string)
    requires AllDigits(digits) && forall i | 0 <= i < |zeros| :: zeros[i] == '0'
    ensures AllDigits(zeros + digits) && Value(zeros + digits) == Value(digits)
    decreases |digits|, |zeros|
  {
    var text := zeros + digits;
    if digits != "" {
      assert text[..|text| - 1] == zeros + digits[..|digits| - 1];
      LeadingZeros(zeros, digits[..|digits| - 1]);
    } else if zeros != "" {
      assert text[..|text| - 1] == zeros[..|zeros| - 1] + digits;
      LeadingZeros(zeros[..|zeros| - 1], digits);
    }
  }

  lemma SecondsSplit(seconds: nat)
    ensures seconds == (seconds / 86400 * 24 * 60 + seconds / 3600 % 24 * 60 + seconds / 60 % 60) * 60 + seconds % 60
  {
    var minutes := seconds / 60;
    var hours := minutes / 60;
    assert seconds / 3600 == hours && seconds / 86400 == hours / 24;
    assert hours == hours / 24 * 24 + hours % 24 && minutes == hours * 60 + minutes % 60;
  }

  /** The groups ps prints. */
  function PrintedGroups(seconds: nat, dayZeros: string): Etime {
    var days, hours, minutes := seconds / 86400, seconds / 3600 % 24, seconds / 60 % 60;
    Etime(if days > 0 then Some(dayZeros + Print(days)) else None,
          if days > 0 || hours > 0 then Some(TwoDigits(hours)) else None,
          TwoDigits(minutes), TwoDigits(seconds % 60))
  }

  ghost predicate AllZeros(text: string) {
    forall i | 0 <= i < |text| :: text[i] == '0'
  }

  lemma PrintedText(seconds: nat, dayZeros: string)
    ensures PrintedGroups(seconds, dayZeros).Text() == PrintEtime(seconds, dayZeros)
  {}

  lemma PrintedTotal(seconds: nat, dayZeros: string)
    requires AllZeros(dayZeros)
    ensures PrintedGroups(seconds, dayZeros).Matches()
    ensures PrintedGroups(seconds, dayZeros).TotalSeconds() == seconds
  {
    var days, hours, minutes := seconds / 86400, seconds / 3600 % 24, seconds / 60 % 60;
    LeadingZeros(dayZeros, Print(days));
    ValueOfTwoDigits(hours);
    ValueOfTwoDigits(minutes);
    ValueOfTwoDigits(seconds % 60);
    ValueOfPrint(days);
    SecondsSplit(seconds);
  }

  lemma PrintedEnds(seconds: nat, dayZeros: string)
    requires AllZeros(dayZeros)
    ensures var text := PrintEtime(seconds, dayZeros);
            text != "" && IsDigit(text[0]) && IsDigit(text[|text| - 1])
  {}

  lemma DigitIsNoSpace(c: char)
    requires IsDigit(c)
    ensures !IsSpace(c)
  {}

  /** parseEtimeMs inverts ps for every duration, however padded. */
  lemma ParseUndoesPrint(seconds: nat, dayZeros: string, before: string, after: string)
    requires AllZeros(dayZeros) && Blank(before) && Blank(after)
    ensures ParseEtimeMs(before + PrintEtime(seconds, dayZeros) + after) == Some(seconds * 1000)
  {
    var text := PrintEtime(seconds, dayZeros);
    PrintedEnds(seconds, dayZeros);
    DigitIsNoSpace(text[0]);
    DigitIsNoSpace(text[|text| - 1]);
    TrimUndoesPadding(before, text, after);
    PrintedText(seconds, dayZeros);
    PrintedTotal(seconds, dayZeros);
    GroupsOfText(PrintedGroups(seconds, dayZeros));
  }

  function Abs(x: int): nat {
    if x < 0 then -x else x
  }

  /** isRecordAlive: actual is the start time the system reports, recorded the run record's
      (neither need parse), both in milliseconds since the epoch. */
  function IsRecordAlive(running: bool, actual: Option<int>, recorded: Option<int>): bool {
    running && actual.Some? && recorded.Some? && Abs(actual.value - recorded.value) <= LIVENESS_TOLERANCE_MS
  }

  /** posixStartedIso: the clock before the call, less the age ps answers with. */
  function PosixStarted(before: int, answer: Option<string>): Option<int> {
    if answer.None? then None
    else
      var etime := ParseEtimeMs(answer.value);
      if etime.None? then None else Some(before - etime.value)
  }

  /** ps may print this for a process that has run so many whole seconds. */
  ghost predicate Prints(answer: string, seconds: nat) {
    exists dayZeros: string, before: string, after: string {:trigger before + PrintEtime(seconds, dayZeros) + after} ::
      AllZeros(dayZeros) && Blank(before) && Blank(after) && answer == before + PrintEtime(seconds, dayZeros) + after
  }

  lemma AnswerParsed(answer: string, seconds: nat)
    requires Prints(answer, seconds)
    ensures ParseEtimeMs(answer) == Some(seconds * 1000)
  {
    var dayZeros: string, before: string, after: string :|
      AllZeros(dayZeros) && Blank(before) && Blank(after) && answer == before + PrintEtime(seconds, dayZeros) + after;
    ParseUndoesPrint(seconds, dayZeros, before, after);
  }

  /** ps is called at before and looks after delay more milliseconds at a process that began
      at started: it prints the whole seconds in between. */
  ghost predicate Observed(answer: string, seconds: nat, started: int, before: int, delay: nat) {
    Prints(answer, seconds) && 1000 * seconds <= before + delay - started < 1000 * seconds + 1000
  }

  lemma VerdictByArithmetic(answer: string, seconds: nat, recorded: int, before: int)
    requires Prints(answer, seconds)
    ensures IsRecordAlive(true, PosixStarted(before, Some(answer)), Some(recorded))
       <==> -2000 <= before - seconds * 1000 - recorded <= 2000
  {
    AnswerParsed(answer, seconds);
  }

  /** A live owner is accepted whenever ps answers within 1999 ms and its record is within
      1 ms of its start, whatever the sub-second phase. */
  lemma LiveOwnerAccepted(answer: string, seconds: nat, started: int, recorded: int, before: int, delay: nat)
    requires Observed(answer, seconds, started, before, delay)
    requires -1 <= recorded - started <= 1 && delay <= 1999
    ensures IsRecordAlive(true, PosixStarted(before, Some(answer)), Some(recorded))
  {
    VerdictByArithmetic(answer, seconds, recorded, before);
  }

  /** No longer delay is safe: each can turn a live owner with such a record down, and ps was
      asked when the process had begun and its record could be there. */
  lemma LaterAnswerCanReject(delay: nat) returns (answer: string, seconds: nat, before: int)
    requires delay > 1999
    ensures Observed(answer, seconds, 0, before, delay) && before >= 1
    ensures !IsRecordAlive(true, PosixStarted(before, Some(answer)), Some(1))
  {
    seconds := delay;
    before := 1000 * seconds - delay;
    answer := "" + PrintEtime(seconds, "") + "\n";
    VerdictByArithmetic(answer, seconds, 1, before);
  }

  /** A pid that another process has taken over is not mistaken for its first owner once
      that process began more than the tolerance, and the delay of ps, after the record. */
  lemma ReusedPidRejected(answer: string, seconds: nat, recorded: int, started: int, before: int, delay: nat)
    requires Observed(answer, seconds, started, before, delay)
    requires started - delay > recorded + LIVENESS_TOLERANCE_MS
    ensures !IsRecordAlive(true, PosixStarted(before, Some(answer)), Some(recorded))
  {
    VerdictByArithmetic(answer, seconds, recorded, before);
  }
}
