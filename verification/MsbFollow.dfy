/** Following a microsandbox log. On Windows a poller takes the difference of successive
    fetches; elsewhere a live stream is completed by one replay. Both see the log only
    through a window of its last lines, while it grows. */
module MsbFollow {
  import opened Lines
  import opened DockerFollow
  import opened Options

  /** msb logs --tail */
  const TAIL_LINES: nat := 1000

  /** How many of a log's first lines a fetch no longer shows. */
  function Hidden(log: string): (n: nat)
    ensures n < |LogLines(log)|
  {
    var lines := LogLines(log);
    assert |lines| >= 1 by { TailEmpty(log); }
    if |lines| <= TAIL_LINES then 0 else |lines| - TAIL_LINES
  }

  /** What msb logs prints for a log. */
  function Window(log: string): string {
    DropLines(log, Hidden(log))
  }

  lemma WindowLines(log: string)
    ensures LogLines(Window(log)) == LogLines(log)[Hidden(log)..]
    ensures Hidden(log) <= |CompleteLines(log)|
    ensures CompleteLines(Window(log)) == CompleteLines(log)[Hidden(log)..]
    ensures EndsWithNewline(Window(log)) <==> EndsWithNewline(log)
    ensures Window(log) == "" <==> log == ""
  {
    DropLinesLines(log, Hidden(log));
    DropLinesEnd(log, Hidden(log));
    DropLinesComplete(log, Hidden(log));
  }

  lemma HiddenGrows(a: string, b: string)
    requires a <= b
    ensures Hidden(a) <= Hidden(b)
  {
    LogLinesGrow(a, b);
  }

  datatype Fetch = Failed | Fetched(text: string)

  /** One try of the final fetch: its failure is judged against the deadline. */
  datatype TerminalTry = TryFailed(pastDeadline: bool) | Got(text: string)

  /** One round of the poller, as the outside world answers it. */
  datatype Poll =
    | ListingFailed
    | Running(fetch: Fetch)
    | NotRunning(tries: seq<TerminalTry>)

  /** A truthful fetch shows the window. The Windows log store may also show blank lines
      in place of a log that is still empty. */
  ghost predicate Shows(text: string, log: string) {
    text == Window(log) || (log == "" && AllBlank(LogLines(text)))
  }

  ghost predicate ShowsLog(poll: Poll, log: string, final: string) {
    match poll
    case ListingFailed => true
    case Running(fetch) => fetch.Fetched? ==> Shows(fetch.text, log)
    case NotRunning(tries) =>
      log == final && forall t <- tries :: t.Got? ==> Shows(t.text, final)
  }

  /** The log only grows, up to its final text, and a stopped sandbox's log is final. */
  ghost predicate Faithful(polls: seq<Poll>, logs: seq<string>, final: string) {
    && |logs| == |polls|
    && (forall i | 0 <= i < |polls| :: logs[i] <= final && ShowsLog(polls[i], logs[i], final))
    && (forall i, j | 0 <= i <= j < |logs| :: logs[i] <= logs[j])
  }

  /** The delivered lines are lines of the log, in order, each at most once. */
  ghost predicate Located(delivered: seq<string>, positions: seq<nat>, lines: seq<string>) {
    && |positions| == |delivered|
    && (forall k | 0 <= k < |delivered| :: positions[k] < |lines| && delivered[k] == lines[positions[k]])
    && (forall j, k | 0 <= j < k < |positions| :: positions[j] < positions[k])
  }

  /** Positions lag behind the count by at most what the window hides. */
  ghost predicate Within(positions: seq<nat>, hidden: nat) {
    forall k | 0 <= k < |positions| :: k <= positions[k] <= k + hidden
  }

  lemma LocatedExtends(delivered: seq<string>, positions: seq<nat>, lines: seq<string>, line: string, at: nat,
                       hidden: nat)
    requires Located(delivered, positions, lines) && Within(positions, hidden)
    requires at == |delivered| + hidden && at < |lines| && lines[at] == line
    ensures Located(delivered + [line], positions + [at], lines)
    ensures Within(positions + [at], hidden)
  {}

  /** With nothing hidden, in order and at most once means the first lines, all of them. */
  lemma NothingHidden(delivered: seq<string>, positions: seq<nat>, lines: seq<string>)
    requires Located(delivered, positions, lines) && Within(positions, 0)
    ensures |delivered| <= |lines| && delivered == lines[..|delivered|]
  {
    if delivered != [] {
      assert positions[|positions| - 1] < |lines|;
    }
  }

  /** A complete line of a fetch is the final log's line at its place past the hidden ones. */
  lemma LiveLine(text: string, log: string, final: string, i: nat)
    requires text == Window(log) && log <= final
    requires i < |CompleteLines(text)|
    ensures i + Hidden(log) < |LogLines(final)|
    ensures CompleteLines(text)[i] == LogLines(final)[i + Hidden(log)]
    ensures i < TAIL_LINES
  {
    WindowLines(log);
    CompleteLinesGrow(log, final);
  }

  lemma LiveLines(text: string, log: string, final: string, lines: seq<string>, all: seq<string>, hidden: nat,
                  upTo: nat)
    requires text == Window(log) && log <= final && 0 < upTo == |CompleteLines(text)|
    requires lines == LogLines(text) && all == LogLines(final) && hidden == Hidden(log)
    ensures upTo <= |lines| && upTo <= TAIL_LINES && upTo + hidden <= |all|
    ensures forall i | 0 <= i < upTo :: lines[i] == all[i + hidden]
  {
    LiveLine(text, log, final, upTo - 1);
    forall i | 0 <= i < upTo
      ensures lines[i] == all[i + hidden]
    {
      LiveLine(text, log, final, i);
      assert lines[i] == CompleteLines(text)[i];
    }
  }

  /** How many lines of a fetch may be delivered while the sandbox runs: a last line without
      its newline may be half written. */
  function Deliverable(full: string, delivered: nat): (n: nat)
    ensures delivered <= |LogLines(full)| ==> n <= |LogLines(full)|
  {
    var lines := LogLines(full);
    var lastLineMayBeMidWrite := |full| > 0 && !EndsWithNewline(full);
    if lastLineMayBeMidWrite && |lines| - 1 > delivered then |lines| - 1
    else if lastLineMayBeMidWrite then delivered
    else |lines|
  }

  /** If any, they are the complete ones. */
  lemma DeliverableIsComplete(full: string, delivered: nat)
    requires full != "" && Deliverable(full, delivered) > delivered
    ensures Deliverable(full, delivered) == |CompleteLines(full)|
  {}

  lemma BlankLogStaysBlank(text: string, log: string, final: string)
    requires Shows(text, log) && log <= final && BlankText(final)
    ensures AllBlank(LogLines(text))
  {
    if text == Window(log) {
      assert BlankText(log) by { assert forall i | 0 <= i < |log| :: log[i] == final[i]; }
      DropLinesBlank(log, Hidden(log));
      BlankLines(text);
    }
  }

  datatype Status = Following | Closed | GaveUp | Drained

  /** Hands lines[from..upTo] to the consumer, testing for a close before each. */
  method Deliver(lines: seq<string>, from: nat, upTo: nat, delivered: seq<string>, close: Close, firstTest: nat,
                 ghost all: seq<string>, ghost hidden: nat, ghost positions: seq<nat>)
    returns (out: seq<string>, test: nat, closed: bool, ghost where: seq<nat>)
    requires from == |delivered| <= firstTest && from <= upTo <= |lines|
    requires Located(delivered, positions, all) && Within(positions, hidden)
    requires forall i | from <= i < upTo :: i + hidden < |all| && lines[i] == all[i + hidden]
    requires close.AtTest? ==> from <= close.first
    ensures Located(out, where, all) && Within(where, hidden)
    ensures |out| <= upTo && (!closed ==> |out| == upTo)
    ensures delivered <= out && test == firstTest + |out| - |delivered|
    ensures close.AtTest? ==> |out| <= close.first
    ensures close.AtTest? && firstTest <= close.first ==> test <= close.first
    ensures closed ==> Requested(close, test) && |out| < upTo
  {
    out, where, test, closed := delivered, positions, firstTest, false;
    for i := from to upTo
      invariant |out| == i && test == firstTest + |out| - |delivered|
      invariant delivered <= out
      invariant Located(out, where, all) && Within(where, hidden)
      invariant close.AtTest? ==> i <= close.first
      invariant close.AtTest? && firstTest <= close.first ==> test <= close.first
    {
      if Requested(close, test) {
        closed := true;
        return;
      }
      test := test + 1;
      LocatedExtends(out, where, all, lines[i], i + hidden, hidden);
      out, where := out + [lines[i]], where + [i + hidden];
    }
  }

  /** Unless it only shows blank lines of an empty log, a truthful fetch lists the last lines. */
  lemma ShownLines(text: string, log: string)
    requires Shows(text, log)
    requires log != "" || !AllBlank(LogLines(text))
    ensures text == Window(log)
    ensures LogLines(text) == LogLines(log)[Hidden(log)..]
    ensures |LogLines(text)| <= TAIL_LINES
  {
    WindowLines(log);
  }

  lemma BlankShown(text: string, log: string)
    requires Shows(text, log) && AllBlank(LogLines(text))
    ensures AllBlank(LogLines(Window(log)))
  {
    if text != Window(log) {
      assert LogLines("") == [""];
      assert Window("") == "";
    }
  }

  /** The first tries of the final fetch came to nothing, and none of them ended the trying. */
  predicate Undecided(tries: seq<TerminalTry>, n: nat, close: Close, firstTest: nat) {
    n <= |tries|
    && forall t | 0 <= t < n :: tries[t].TryFailed? && !tries[t].pastDeadline && !Requested(close, firstTest + t)
  }

  /** The try that ended it, or that there was none: a fetch that succeeded, or one that failed
      past the deadline or after a close. */
  predicate TriesEnd(tries: seq<TerminalTry>, tried: nat, status: Status, close: Close, firstTest: nat) {
    && Undecided(tries, tried, close, firstTest)
    && match status
       case Following => tried == |tries|
       case GaveUp =>
         && tried < |tries| && tries[tried].TryFailed?
         && (tries[tried].pastDeadline || Requested(close, firstTest + tried))
       case Drained | Closed => tried < |tries| && tries[tried].Got?
  }

  /** The final fetch: tried again only while it keeps failing, until the deadline or a close. */
  method FetchTerminal(tries: seq<TerminalTry>, close: Close, firstTest: nat)
    returns (full: string, status: Status, test: nat, ghost tried: nat)
    ensures !status.Closed? && TriesEnd(tries, tried, status, close, firstTest)
    ensures status.Drained? ==> tries[tried] == Got(full) && test == firstTest + tried
    ensures status.GaveUp? ==> full == ""
  {
    full, status, test, tried := "", Following, firstTest, 0;
    for t := 0 to |tries|
      invariant status.Following? && test == firstTest + t && tried == t
      invariant Undecided(tries, t, close, firstTest)
    {
      if tries[t].Got? {
        full, status := tries[t].text, Drained;
        return;
      }
      var closed := Requested(close, test);
      test := test + 1;
      if closed || tries[t].pastDeadline {
        status := GaveUp;
        return;
      }
      tried := t + 1;
    }
  }

  /** deliverTerminalTail: everything outstanding, from the first fetch that succeeds. */
  method DeliverTerminalTail(tries: seq<TerminalTry>, ghost final: string, delivered: seq<string>,
                             ghost positions: seq<nat>, close: Close, firstTest: nat)
    returns (out: seq<string>, ghost where: seq<nat>, status: Status, ghost tried: nat)
    requires forall t <- tries :: t.Got? ==> Shows(t.text, final)
    requires Located(delivered, positions, LogLines(final)) && Within(positions, Hidden(final))
    requires |delivered| <= TAIL_LINES && |delivered| <= firstTest
    requires |delivered| + Hidden(final) <= |LogLines(final)|
    requires BlankText(final) ==> delivered == []
    requires close.AtTest? ==> |delivered| <= close.first
    ensures Located(out, where, LogLines(final)) && Within(where, Hidden(final))
    ensures |out| <= TAIL_LINES
    ensures close.AtTest? ==> |out| <= close.first
    ensures status.Drained? ==>
              || (out == [] && AllBlank(LogLines(Window(final))))
              || |out| + Hidden(final) == |LogLines(final)|
    ensures status.Drained? && BlankText(final) ==> out == []
    ensures TriesEnd(tries, tried, status, close, firstTest)
    ensures status.Following? || status.GaveUp? ==> out == delivered
    ensures status.Closed? ==>
              |out| < |LogLines(tries[tried].text)| && Requested(close, firstTest + tried + |out| - |delivered|)
    ensures close.AtTest? && firstTest <= close.first ==>
              && firstTest + |out| - |delivered| <= close.first
              && (status.Closed? ==> close == AtTest(firstTest + tried + |out| - |delivered|))
    ensures delivered <= out
  {
    out, where := delivered, positions;
    var full, test;
    full, status, test, tried := FetchTerminal(tries, close, firstTest);
    if status.Following? {
      return;
    }
    var lines := LogLines(full);
    if |delivered| == 0 && AllBlank(lines) {
      if status.Drained? { BlankShown(full, final); }
      return;
    }
    if status.GaveUp? {
      assert |lines| == 1;
      return;
    }
    if BlankText(final) { BlankLogStaysBlank(full, final, final); }
    ShownLines(full, final);
    assert tried > 0 ==> tries[tried - 1].TryFailed? && !Requested(close, firstTest + (tried - 1));
    var closed;
    out, test, closed, where := Deliver(lines, |delivered|, |lines|, delivered, close, test,
                                        LogLines(final), Hidden(final), positions);
    if closed {
      status := Closed;
    }
  }

  /** The live rounds' bookkeeping: what has been delivered are the first lines of some
      earlier fetch, and only complete ones. */
  ghost predicate LiveState(delivered: seq<string>, positions: seq<nat>, log: string, final: string) {
    && log <= final
    && Located(delivered, positions, LogLines(final))
    && Within(positions, Hidden(log))
    && |delivered| <= TAIL_LINES
    && (delivered != [] ==> log != "" && |delivered| + Hidden(log) <= |LogLines(log)|)
    && (BlankText(final) ==> delivered == [])
  }

  lemma LiveStateGrows(delivered: seq<string>, positions: seq<nat>, log: string, next: string, final: string)
    requires LiveState(delivered, positions, log, final)
    requires log <= next <= final
    ensures LiveState(delivered, positions, next, final)
  {
    HiddenGrows(log, next);
    LogLinesGrow(log, next);
  }

  /** Every complete line a fetch showed has been delivered, unless it showed only blanks. */
  ghost predicate CaughtUp(poll: Poll, delivered: nat) {
    poll.Running? && poll.fetch.Fetched? ==>
      AllBlank(LogLines(poll.fetch.text)) || |CompleteLines(poll.fetch.text)| <= delivered
  }

  /** So it was for each of the first rounds, in all of which the sandbox was not seen stopped. */
  ghost predicate AllCaughtUp(polls: seq<Poll>, rounds: nat, delivered: nat) {
    rounds <= |polls| && forall q | 0 <= q < rounds :: CaughtUp(polls[q], delivered) && !polls[q].NotRunning?
  }

  lemma OneMoreCaughtUp(polls: seq<Poll>, rounds: nat, before: nat, delivered: nat)
    requires AllCaughtUp(polls, rounds, before) && before <= delivered && rounds < |polls|
    requires CaughtUp(polls[rounds], delivered) && !polls[rounds].NotRunning?
    ensures AllCaughtUp(polls, rounds + 1, delivered)
  {}

  lemma StillCaughtUp(polls: seq<Poll>, rounds: nat, before: nat, delivered: nat)
    requires AllCaughtUp(polls, rounds, before) && before <= delivered
    ensures AllCaughtUp(polls, rounds, delivered)
  {}

  /** Why and where the follow ended, live lines having come before the sandbox was seen stopped:
      the polls ran out while it ran; a close was requested, at the test of a round, of a live
      line still owed or of one in the tail; or it was seen stopped, and the final fetch ended
      the follow. There is no other way. */
  ghost predicate Ends(polls: seq<Poll>, close: Close, status: Status, delivered: nat, rounds: nat, live: nat,
                       tried: nat)
  {
    && live <= delivered && rounds <= |polls|
    && var tail := rounds < |polls| && polls[rounds].NotRunning?
                   && TriesEnd(polls[rounds].tries, tried, status, close, rounds + 1 + live);
       match status
       case Following => live == delivered && (rounds == |polls| || tail)
       case GaveUp => live == delivered && tail
       case Drained => tail
       case Closed =>
         && rounds < |polls|
         && (|| close == AtTest(rounds + delivered)
             || (close == AtTest(rounds + 1 + delivered) && OwesLive(polls[rounds], delivered))
             || (close == AtTest(rounds + 1 + tried + delivered) && tail
                 && delivered < |LogLines(polls[rounds].tries[tried].text)|))
  }

  lemma EndsWithoutTail(polls: seq<Poll>, close: Close, status: Status, delivered: nat, rounds: nat, live: nat)
    requires live <= delivered && rounds <= |polls|
    requires match status
             case Following => live == delivered && rounds == |polls|
             case Closed =>
               && rounds < |polls| && close.AtTest?
               && (close.first == rounds + delivered
                   || (close.first == rounds + 1 + delivered && OwesLive(polls[rounds], delivered)))
             case _ => false
    ensures Ends(polls, close, status, delivered, rounds, live, 0)
  {}

  lemma EndsInTail(polls: seq<Poll>, close: Close, status: Status, delivered: nat, rounds: nat, live: nat, tried: nat)
    requires live <= delivered && rounds < |polls| && polls[rounds].NotRunning?
    requires TriesEnd(polls[rounds].tries, tried, status, close, rounds + 1 + live)
    requires status.Following? || status.GaveUp? ==> live == delivered
    requires status.Closed? ==>
               && close == AtTest(rounds + 1 + tried + delivered)
               && delivered < |LogLines(polls[rounds].tries[tried].text)|
    ensures Ends(polls, close, status, delivered, rounds, live, tried)
  {}

  /** Without a close, the follow goes on until the sandbox is first seen stopped, and ends well
      if a fetch succeeds then before one fails past the deadline: no failing listing or fetch
      ends it before. */
  lemma UnclosedFollowIsDrained(polls: seq<Poll>, status: Status, delivered: nat, rounds: nat, live: nat, tried: nat)
    requires Ends(polls, Never, status, delivered, rounds, live, tried) && AllCaughtUp(polls, rounds, delivered)
    ensures rounds == FirstStopped(polls) && !status.Closed?
    ensures status.Drained? <==>
              rounds < |polls| && exists t | 0 <= t < |polls[rounds].tries| ::
                polls[rounds].tries[t].Got? && forall u | 0 <= u < t :: polls[rounds].tries[u].TryFailed?
                                                                          && !polls[rounds].tries[u].pastDeadline
  {
    var first := FirstStopped(polls);
    assert rounds < first ==> !polls[rounds].NotRunning?;
    if rounds < |polls| && polls[rounds].NotRunning? {
      var tries := polls[rounds].tries;
      if t :| 0 <= t < |tries| && tries[t].Got?
              && forall u | 0 <= u < t :: tries[u].TryFailed? && !tries[u].pastDeadline {
        assert tried == t;
      }
    }
  }

  predicate OwesLive(poll: Poll, delivered: nat) {
    poll.Running? && poll.fetch.Fetched? && delivered < |LogLines(poll.fetch.text)|
  }

  /** The first poll that sees the sandbox stopped, or how many there are. */
  function FirstStopped(polls: seq<Poll>): (p: nat)
    ensures p <= |polls| && (p < |polls| ==> polls[p].NotRunning?)
    ensures forall q | 0 <= q < p :: !polls[q].NotRunning?
  {
    if polls == [] || polls[0].NotRunning? then 0 else 1 + FirstStopped(polls[1..])
  }

  /** followLogsByPolling, over every growth of the log, every pattern of failed probes and
      fetches, and every close. A run that ends before its polls do is a prefix of a longer one. */
  method FollowByPolling(polls: seq<Poll>, ghost logs: seq<string>, ghost final: string, close: Close)
    returns (delivered: seq<string>, ghost positions: seq<nat>, status: Status,
             ghost rounds: nat, ghost live: nat, ghost tried: nat)
    requires Faithful(polls, logs, final)
    ensures Located(delivered, positions, LogLines(final))
    ensures |delivered| <= TAIL_LINES
    ensures close.AtTest? ==> |delivered| <= close.first
    ensures status.Drained? ==>
              || (delivered == [] && AllBlank(LogLines(Window(final))))
              || |delivered| + Hidden(final) == |LogLines(final)|
    ensures status.Drained? && |LogLines(final)| <= TAIL_LINES ==>
              delivered == if AllBlank(LogLines(final)) then [] else LogLines(final)
    ensures status.Drained? ==>
              (delivered == LogLines(final) <==> |LogLines(final)| <= TAIL_LINES && !AllBlank(LogLines(final)))
    ensures AllCaughtUp(polls, rounds, |delivered|)
    ensures Ends(polls, close, status, |delivered|, rounds, live, tried)
    ensures close.AtTest? ==> rounds + |delivered| <= close.first
  {
    ghost var shown;
    var closed, test, stopped;
    delivered, positions, closed, test, stopped, shown, rounds := FollowRounds(polls, logs, final, close);
    live, tried := |delivered|, 0;
    if closed || stopped.None? {
      status := if closed then Closed else Following;
      EndsWithoutTail(polls, close, status, |delivered|, rounds, live);
      return;
    }
    delivered, positions, status, tried := FollowTail(stopped.value, shown, final, delivered, positions, close, test);
    StillCaughtUp(polls, rounds, live, |delivered|);
    EndsInTail(polls, close, status, |delivered|, rounds, live, tried);
  }

  /** The rounds up to the first that sees the sandbox stopped, and what its final fetch will
      meet; or up to a close. */
  method FollowRounds(polls: seq<Poll>, ghost logs: seq<string>, ghost final: string, close: Close)
    returns (delivered: seq<string>, ghost positions: seq<nat>, closed: bool, test: nat,
             stopped: Option<seq<TerminalTry>>, ghost shown: string, ghost rounds: nat)
    requires Faithful(polls, logs, final)
    ensures LiveState(delivered, positions, shown, final) && AllCaughtUp(polls, rounds, |delivered|)
    ensures !closed && stopped.None? ==> rounds == |polls|
    ensures stopped.Some? ==> !closed && rounds < |polls| && polls[rounds] == NotRunning(stopped.value)
    ensures test == rounds + |delivered| + (if stopped.Some? then 1 else 0) || closed
    ensures closed ==>
              && rounds < |polls| && close.AtTest?
              && (close.first == rounds + |delivered|
                  || (close.first == rounds + 1 + |delivered| && OwesLive(polls[rounds], |delivered|)))
    ensures close.AtTest? ==> test <= close.first && rounds + |delivered| <= close.first
  {
    delivered, positions, closed, test, stopped, shown, rounds := [], [], false, 0, None, "", 0;
    for p := 0 to |polls|
      invariant LiveState(delivered, positions, shown, final)
      invariant shown == if p == 0 then "" else logs[p - 1]
      invariant test == p + |delivered| && rounds == p && !closed && stopped.None?
      invariant close.AtTest? ==> test <= close.first
      invariant AllCaughtUp(polls, p, |delivered|)
    {
      if Requested(close, test) {
        closed := true;
        return;
      }
      test := test + 1;
      if polls[p].NotRunning? {
        stopped := Some(polls[p].tries);
        return;
      }
      ghost var before, earlier := |delivered|, shown;
      shown := logs[p];
      delivered, positions, test, closed :=
        DeliverPoll(polls[p], earlier, shown, final, delivered, positions, close, test);
      StillCaughtUp(polls, p, before, |delivered|);
      if closed {
        return;
      }
      OneMoreCaughtUp(polls, p, before, |delivered|);
      rounds := p + 1;
    }
  }

  /** What the follow ends with once the sandbox is seen stopped. */
  method FollowTail(tries: seq<TerminalTry>, ghost shown: string, ghost final: string, delivered: seq<string>,
                    ghost positions: seq<nat>, close: Close, firstTest: nat)
    returns (out: seq<string>, ghost where: seq<nat>, status: Status, ghost tried: nat)
    requires forall t <- tries :: t.Got? ==> Shows(t.text, final)
    requires LiveState(delivered, positions, shown, final)
    requires |delivered| <= firstTest && (close.AtTest? ==> firstTest <= close.first)
    ensures Located(out, where, LogLines(final)) && delivered <= out && |out| <= TAIL_LINES
    ensures status.Drained? ==>
              || (out == [] && AllBlank(LogLines(Window(final))))
              || |out| + Hidden(final) == |LogLines(final)|
    ensures status.Drained? && |LogLines(final)| <= TAIL_LINES ==>
              out == if AllBlank(LogLines(final)) then [] else LogLines(final)
    ensures status.Drained? ==>
              (out == LogLines(final) <==> |LogLines(final)| <= TAIL_LINES && !AllBlank(LogLines(final)))
    ensures TriesEnd(tries, tried, status, close, firstTest)
    ensures status.Following? || status.GaveUp? ==> out == delivered
    ensures status.Closed? ==>
              |out| < |LogLines(tries[tried].text)| && close == AtTest(firstTest + tried + |out| - |delivered|)
    ensures close.AtTest? ==> firstTest + |out| - |delivered| <= close.first
  {
    LiveStateGrows(delivered, positions, shown, final, final);
    WindowLines(final);
    out, where, status, tried := DeliverTerminalTail(tries, final, delivered, positions, close, firstTest);
    DrainedInFull(out, where, status, final);
  }

  /** One round in which the sandbox was not seen stopped: a failed probe or fetch is tried
      again in the next, and only a fetch delivers. */
  method DeliverPoll(poll: Poll, ghost shown: string, ghost log: string, ghost final: string, delivered: seq<string>,
                     ghost positions: seq<nat>, close: Close, firstTest: nat)
    returns (out: seq<string>, ghost where: seq<nat>, test: nat, stopped: bool)
    requires !poll.NotRunning? && ShowsLog(poll, log, final)
    requires LiveState(delivered, positions, shown, final) && shown <= log <= final
    requires |delivered| <= firstTest
    requires close.AtTest? ==> firstTest <= close.first
    ensures LiveState(out, where, log, final)
    ensures delivered <= out && test == firstTest + |out| - |delivered|
    ensures close.AtTest? ==> test <= close.first
    ensures if stopped then Requested(close, test) && OwesLive(poll, |out|) else CaughtUp(poll, |out|)
  {
    out, where, test, stopped := delivered, positions, firstTest, false;
    LiveStateGrows(delivered, positions, shown, log, final);
    match poll {
      case ListingFailed =>
      case Running(Failed) =>
      case Running(Fetched(full)) =>
        out, where, test, stopped := DeliverLive(full, log, final, delivered, positions, close, firstTest);
    }
  }

  lemma BlankOrNot(full: string, log: string, delivered: seq<string>)
    requires full == Window(log) && (delivered != [] ==> log != "")
    requires !(delivered == [] && AllBlank(LogLines(full)))
    ensures full != ""
  {
    WindowLines(log);
    assert AllBlank(LogLines("")) by { assert LogLines("") == [""]; }
  }

  /** One successful fetch while the sandbox runs. */
  method DeliverLive(full: string, ghost log: string, ghost final: string, delivered: seq<string>,
                     ghost positions: seq<nat>, close: Close, firstTest: nat)
    returns (out: seq<string>, ghost where: seq<nat>, test: nat, stopped: bool)
    requires Shows(full, log)
    requires LiveState(delivered, positions, log, final)
    requires |delivered| <= firstTest
    requires close.AtTest? ==> firstTest <= close.first
    ensures LiveState(out, where, log, final)
    ensures delivered <= out && test == firstTest + |out| - |delivered|
    ensures close.AtTest? ==> test <= close.first
    ensures if stopped then Requested(close, test) && OwesLive(Running(Fetched(full)), |out|)
            else CaughtUp(Running(Fetched(full)), |out|)
  {
    out, where, test, stopped := delivered, positions, firstTest, false;
    var lines := LogLines(full);
    if |delivered| == 0 && AllBlank(lines) {
      return;
    }
    if BlankText(final) { BlankLogStaysBlank(full, log, final); }
    ShownLines(full, log);
    var deliverable := Deliverable(full, |delivered|);
    if |delivered| < deliverable {
      BlankOrNot(full, log, delivered);
      DeliverableIsComplete(full, |delivered|);
      ghost var all, hidden := LogLines(final), Hidden(log);
      LiveLines(full, log, final, lines, all, hidden, deliverable);
      out, test, stopped, where := Deliver(lines, |delivered|, deliverable, delivered, close, firstTest,
                                           all, hidden, positions);
    }
  }

  lemma DrainedInFull(delivered: seq<string>, positions: seq<nat>, status: Status, final: string)
    requires Located(delivered, positions, LogLines(final)) && Within(positions, Hidden(final))
    requires status.Drained? ==>
               || (delivered == [] && AllBlank(LogLines(Window(final))))
               || |delivered| + Hidden(final) == |LogLines(final)|
    requires status.Drained? && BlankText(final) ==> delivered == []
    ensures status.Drained? && |LogLines(final)| <= TAIL_LINES ==>
              delivered == if AllBlank(LogLines(final)) then [] else LogLines(final)
  {
    if status.Drained? && |LogLines(final)| <= TAIL_LINES {
      BlankLines(final);
      WindowLines(final);
      NothingHidden(delivered, positions, LogLines(final));
    }
  }

  // ---- Hosts other than Windows: a live stream, then one replay ----

  /** What the watchdog's listing says; a failed one counts as "not running". */
  datatype Listing = StillListed | Gone | ListFails

  /** invoke() rebuilds what a child printed from the lines it read. */
  function Invoked(printed: string): string {
    Terminated(OutputLines(printed))
  }

  function LiveThenReplay(piped: string, fetched: string): seq<string> {
    OutputLines(piped) + UndeliveredLines(fetched, |OutputLines(piped)|)
  }

  /** Hands lines to the consumer one by one. */
  method Consume(consumed: seq<string>, lines: seq<string>) returns (out: seq<string>)
    ensures out == consumed + lines
  {
    out := consumed;
    for i := 0 to |lines|
      invariant out == consumed + lines[..i]
    {
      assert lines[..i + 1] == lines[..i] + [lines[i]];
      out := out + [lines[i]];
    }
    assert lines[..|lines|] == lines;
  }

  /** The first listing that does not show the sandbox, or how many there are. */
  function FirstMiss(listings: seq<Listing>): (i: nat)
    ensures i <= |listings| && (i < |listings| ==> !listings[i].StillListed?)
    ensures forall j | 0 <= j < i :: listings[j].StillListed?
  {
    if listings == [] || !listings[0].StillListed? then 0 else 1 + FirstMiss(listings[1..])
  }

  /** Some listing does not show the sandbox, and close was not requested before it was asked
      for: a request that arrives while it is awaited is no longer noticed. */
  predicate SeenGone(listings: seq<Listing>, close: Close) {
    FirstMiss(listings) < |listings| && !Requested(close, FirstMiss(listings))
  }

  /** The watchdog's rounds. */
  method AwaitGone(listings: seq<Listing>, close: Close) returns (gone: bool)
    ensures gone <==> SeenGone(listings, close)
    ensures gone <==>
              exists i :: 0 <= i < |listings| && !listings[i].StillListed?
                          && (forall j | 0 <= j < i :: listings[j].StillListed?) && (close.AtTest? ==> i < close.first)
  {
    for round := 0 to |listings|
      invariant round <= FirstMiss(listings)
      invariant forall i | 0 <= i < round :: !Requested(close, i)
    {
      if Requested(close, round) {
        return false;
      }
      if !listings[round].StillListed? {
        return true;
      }
    }
    gone := false;
  }

  /** followLogs: the child relays some text before it is killed or ends; the first listing
      that does not show the sandbox kills it, waits for its reader, and replays once. */
  method FollowLive(piped: string, listings: seq<Listing>, fetch: Fetch, close: Close)
    returns (consumed: seq<string>, replayed: bool)
    ensures replayed <==>
              fetch.Fetched?
              && exists i :: 0 <= i < |listings| && !listings[i].StillListed?
                             && (forall j | 0 <= j < i :: listings[j].StillListed?)
                             && (close.AtTest? ==> i < close.first)
    ensures consumed == if replayed then LiveThenReplay(piped, fetch.text) else OutputLines(piped)
  {
    replayed := false;
    var read := OutputLines(piped);
    consumed := Consume([], read);
    assert consumed == read;
    var delivered := |consumed|;
    var gone := AwaitGone(listings, close);
    if gone && fetch.Fetched? {
      replayed := true;
      consumed := Consume(consumed, UndeliveredLines(fetch.text, delivered));
    }
  }

  /** An explicit close is said never to catch the caller up. It does, if it arrives while the
      listing that misses the sandbox, the child's reader or the fetch is awaited. */
  method ReplayAfterClose(piped: string, rounds: nat, fetched: string) returns (consumed: seq<string>)
    ensures consumed == LiveThenReplay(piped, fetched)
  {
    var listings := seq(rounds, i => StillListed) + [Gone];
    var replayed;
    assert FirstMiss(listings) == rounds by {
      assert forall j | 0 <= j < rounds :: listings[j].StillListed?;
      assert !listings[rounds].StillListed?;
    }
    consumed, replayed := FollowLive(piped, listings, Fetched(fetched), AtTest(rounds + 1));
  }

  /** The stream was cut between lines: the live part ends where a line of the log ends. */
  predicate CutBetweenLines(piped: string, final: string)
    requires piped <= final
  {
    piped == "" || EndsWithNewline(piped) || piped == final || final[|piped|] == '\n'
  }

  lemma HeadOfSplit(text: string)
    ensures Split(text)[0] == "" <==> text == "" || text[0] == '\n'
  {}

  /** The line in which a text goes on after a part that ends within one. */
  lemma LineGoesOn(piped: string, rest: string)
    requires piped != "" && !EndsWithNewline(piped)
    ensures var n := |CompleteLines(piped)|;
            n < |LogLines(piped + rest)| && LogLines(piped + rest)[n] == Tail(piped) + Split(rest)[0]
    ensures LogLines(piped) == CompleteLines(piped) + [Tail(piped)] && Tail(piped) != ""
  {
    SplitConcat(piped, rest);
    TailEmpty(piped);
    TailEmpty(piped + rest);
    assert Split(piped) == CompleteLines(piped) + [Tail(piped)];
  }

  /** Cutting a stream between lines is exactly what keeps its lines lines of the log. */
  lemma CutIsPrefix(piped: string, final: string)
    requires piped <= final
    ensures OutputLines(piped) <= OutputLines(final) <==> CutBetweenLines(piped, final)
  {
    if piped != "" {
      CompleteLinesGrow(piped, final);
      if !EndsWithNewline(piped) {
        var rest := final[|piped|..];
        assert final == piped + rest;
        LineGoesOn(piped, rest);
        HeadOfSplit(rest);
        PrefixAtLast(CompleteLines(piped), Tail(piped), LogLines(final));
        assert rest == "" <==> piped == final;
      }
    }
  }

  lemma PrefixAtLast(init: seq<string>, last: string, lines: seq<string>)
    requires init <= lines && |init| < |lines|
    ensures init + [last] <= lines <==> lines[|init|] == last
  {
    if lines[|init|] == last {
      assert lines[..|init| + 1] == init + [last];
    } else {
      assert (init + [last])[|init|] == last;
    }
  }

  lemma ReplayedLines(final: string, delivered: nat)
    requires final != ""
    ensures var lines := LogLines(final)[Hidden(final)..];
            UndeliveredLines(Invoked(Window(final)), delivered)
            == if delivered <= |lines| then lines[delivered..] else []
  {
    WindowLines(final);
    var printed := OutputLines(Window(final));
    OutputLinesHaveNoNewline(Window(final));
    TerminatedRoundTrip(printed);
    assert Invoked(Window(final)) != "";
  }

  /** When the replay makes the log whole: something was printed, the stream was cut between
      lines, and no line is hidden from the replay that the stream did not deliver. */
  lemma ReplayCompletesExactlyWhen(piped: string, final: string)
    requires piped <= final
    ensures LiveThenReplay(piped, Invoked(Window(final))) == OutputLines(final) <==>
              && final != ""
              && CutBetweenLines(piped, final)
              && (|LogLines(final)| <= TAIL_LINES || |OutputLines(piped)| == |LogLines(final)|)
  {
    var live, lines, out := OutputLines(piped), OutputLines(final), LiveThenReplay(piped, Invoked(Window(final)));
    if final == "" {
      assert Window("") == "" && LogLines("") == [""];
      assert |out| == 1;
    } else {
      CutIsPrefix(piped, final);
      LogLinesGrow(piped, final);
      ReplayedLines(final, |live|);
      assert |live| <= |lines|;
      if live <= lines {
        var shown := lines[Hidden(final)..];
        if Hidden(final) == 0 {
          assert out == live + lines[|live|..];
        } else if |live| <= |shown| {
          assert |out| == TAIL_LINES;
        } else {
          assert out == live;
        }
      } else {
        assert out[..|live|] == live;
      }
    }
  }

  /** No line is replayed twice: live and replayed lines keep the log's order. */
  lemma ReplayRedeliversNothing(piped: string, final: string) returns (positions: seq<nat>)
    requires piped <= final && final != "" && CutBetweenLines(piped, final)
    ensures Located(LiveThenReplay(piped, Invoked(Window(final))), positions, LogLines(final))
  {
    CutIsPrefix(piped, final);
    var live, lines := OutputLines(piped), LogLines(final);
    ReplayedLines(final, |live|);
    var owed := UndeliveredLines(Invoked(Window(final)), |live|);
    positions := LocatedInTwoRuns(live, owed, lines, Hidden(final));
  }

  lemma LocatedInTwoRuns(live: seq<string>, owed: seq<string>, lines: seq<string>, hidden: nat)
    returns (positions: seq<nat>)
    requires live <= lines && hidden <= |lines|
    requires owed == if |live| + hidden <= |lines| then lines[hidden + |live|..] else []
    ensures Located(live + owed, positions, lines)
  {
    positions := seq(|live| + |owed|, i requires 0 <= i < |live| + |owed| => if i < |live| then i else hidden + i);
  }

  lemma LinesAfterNewline(text: string, rest: string)
    requires EndsWithNewline(text)
    ensures OutputLines(text + rest) == OutputLines(text) + OutputLines(rest)
  {
    var both := text + rest;
    ConcatLines(text, rest);
    TailEmpty(text);
    assert Tail(text) + rest == rest;
    OutputIsCompletePlusTail(text);
    OutputIsCompletePlusTail(rest);
    OutputIsCompletePlusTail(both);
    var last := if Tail(rest) == "" then [] else [Tail(rest)];
    var first, more := CompleteLines(text), CompleteLines(rest);
    assert first + more + last == first + (more + last);
  }

  lemma SomethingIsALine(rest: string)
    requires rest != ""
    ensures OutputLines(rest) != []
  {
    TailEmpty(rest);
    OutputIsCompletePlusTail(rest);
  }

  /** A listing that fails while the sandbox still runs ends the follow for good: what the
      log gains afterwards is lost, even if everything until then was delivered. */
  lemma FailedListingEndsTheFollow(piped: string, sofar: string, final: string)
    requires piped <= sofar <= final
    requires LiveThenReplay(piped, Invoked(Window(sofar))) == OutputLines(sofar)
    requires EndsWithNewline(sofar)
    ensures LiveThenReplay(piped, Invoked(Window(sofar))) == OutputLines(final) <==> final == sofar
  {
    if final != sofar {
      var rest := final[|sofar|..];
      assert final == sofar + rest;
      LinesAfterNewline(sofar, rest);
      SomethingIsALine(rest);
    }
  }
}
