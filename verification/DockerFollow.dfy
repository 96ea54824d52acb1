/** Following a Docker container's log: demultiplex, reassemble lines, stop on close. */
module DockerFollow {
  import opened Lines
  import opened Frames
  import opened Options

  /** When the caller asks delivery to stop. The follower only ever observes the flag by
      testing it, and the flag never goes back, so the number of the first test that reads
      true says all there is to say. */
  datatype Close = Never | AtTest(first: nat)

  predicate Requested(close: Close, test: nat) {
    close.AtTest? && close.first <= test
  }

  /** How the byte stream ends: by itself, or with an error (a destroyed body included). */
  datatype Ending = Ended | Errored

  function Text(bytes: seq<byte>): (text: string)
    ensures |text| == |bytes| && forall i | 0 <= i < |bytes| :: text[i] == bytes[i] as char
  {
    seq(|bytes|, i requires 0 <= i < |bytes| => bytes[i] as char)
  }

  /** What one frame adds to the workload's output: nothing, if it is stdin's. */
  function Output(frame: Frame): string {
    if frame.streamType == Stdin then "" else Text(frame.payload)
  }

  function Outputs(frames: seq<Frame>): (outputs: seq<string>)
    ensures |outputs| == |frames| && forall i | 0 <= i < |frames| :: outputs[i] == Output(frames[i])
  {
    seq(|frames|, i requires 0 <= i < |frames| => Output(frames[i]))
  }

  /** The workload's output: stdout and stderr payloads in arrival order. */
  function OutputText(frames: seq<Frame>): string {
    Flatten(Outputs(frames))
  }

  lemma OutputTextConcat(a: seq<Frame>, b: seq<Frame>)
    ensures OutputText(a + b) == OutputText(a) + OutputText(b)
  {
    assert Outputs(a + b) == Outputs(a) + Outputs(b);
    FlattenConcat(Outputs(a), Outputs(b));
  }

  /** Everything the container printed that its stream carried in full frames. */
  function StreamText(chunks: seq<seq<byte>>): string {
    OutputText(Demux(Flatten(chunks)))
  }

  lemma NextChunk(chunks: seq<seq<byte>>, i: nat)
    requires i < |chunks|
    ensures Flatten(chunks[..i + 1]) == Flatten(chunks[..i]) + chunks[i]
    ensures var frames := Demux(Unparsed(Flatten(chunks[..i])) + chunks[i]);
            StreamText(chunks[..i + 1]) == StreamText(chunks[..i]) + OutputText(frames)
    ensures Unparsed(Flatten(chunks[..i + 1])) == Unparsed(Unparsed(Flatten(chunks[..i])) + chunks[i])
  {
    assert chunks[..i + 1] == chunks[..i] + [chunks[i]];
    FlattenSnoc(chunks[..i], chunks[i]);
    var before := Flatten(chunks[..i]);
    DemuxConcat(before, chunks[i]);
    OutputTextConcat(Demux(before), Demux(Unparsed(before) + chunks[i]));
  }

  lemma {:induction false} StreamTextGrows(chunks: seq<seq<byte>>, i: nat)
    requires i <= |chunks|
    ensures StreamText(chunks[..i]) <= StreamText(chunks)
    decreases |chunks| - i
  {
    if i == |chunks| {
      assert chunks[..i] == chunks;
    } else {
      NextChunk(chunks, i);
      StreamTextGrows(chunks, i + 1);
    }
  }

  lemma NextFrame(frames: seq<Frame>, j: nat)
    requires j < |frames|
    ensures OutputText(frames[..j + 1]) == OutputText(frames[..j]) + Output(frames[j])
  {
    assert frames[..j + 1] == frames[..j] + [frames[j]];
    OutputTextConcat(frames[..j], [frames[j]]);
    assert Outputs([frames[j]]) == [Output(frames[j])];
    FlattenSnoc([], Output(frames[j]));
    assert [] + [Output(frames[j])] == [Output(frames[j])];
    assert Flatten<char>([]) + Output(frames[j]) == Output(frames[j]);
  }

  /** Whatever has been printed so far cuts the lines of the whole output short. */
  lemma LinesSoFar(early: string, whole: string)
    requires early <= whole
    ensures CompleteLines(early) <= OutputLines(whole)
  {
    assert whole == early + whole[|early|..];
    ConcatLines(early, whole[|early|..]);
    OutputIsCompletePlusTail(whole);
  }

  /** The pending text followed by the output of the first j frames. */
  ghost function SoFar(pending: string, frames: seq<Frame>, j: nat): string
    requires j <= |frames|
  {
    pending + OutputText(frames[..j])
  }

  lemma SoFarExtends(pending: string, frames: seq<Frame>, j: nat)
    requires j < |frames|
    ensures SoFar(pending, frames, j + 1) == SoFar(pending, frames, j) + Output(frames[j])
    ensures frames[j].streamType == Stdin ==> SoFar(pending, frames, j + 1) == SoFar(pending, frames, j)
    ensures SoFar(pending, frames, j + 1) <= SoFar(pending, frames, |frames|)
  {
    NextFrame(frames, j);
    var before, piece := OutputText(frames[..j]), Output(frames[j]);
    assert pending + (before + piece) == pending + before + piece;
    SoFarGrows(pending, frames, j + 1);
  }

  lemma SoFarGrows(pending: string, frames: seq<Frame>, j: nat)
    requires j <= |frames|
    ensures SoFar(pending, frames, j) <= SoFar(pending, frames, |frames|)
  {
    var before, after := OutputText(frames[..j]), OutputText(frames[j..]);
    OutputTextConcat(frames[..j], frames[j..]);
    assert frames[..|frames|] == frames == frames[..j] + frames[j..];
    assert pending + (before + after) == pending + before + after;
  }

  /** The lines one more frame completes, as the assembler finds them from its pending part. */
  lemma PieceCompletes(pending: string, frames: seq<Frame>, j: nat)
    requires j < |frames| && frames[j].streamType != Stdin
    ensures var sofar, next := SoFar(pending, frames, j), SoFar(pending, frames, j + 1);
            var text := Text(frames[j].payload);
            && CompleteLines(next) == CompleteLines(sofar) + CompleteLines(Tail(sofar) + text)
            && Tail(next) == Tail(Tail(sofar) + text)
            && CompleteLines(next) <= CompleteLines(SoFar(pending, frames, |frames|))
  {
    SoFarExtends(pending, frames, j);
    ConcatLines(SoFar(pending, frames, j), Text(frames[j].payload));
    var next, all := SoFar(pending, frames, j + 1), SoFar(pending, frames, |frames|);
    assert all == next + all[|next|..];
    ConcatLines(next, all[|next|..]);
  }

  /** One chunk's frames: the lines they complete, cut short only by a close. */
  method DeliverFrames(frames: seq<Frame>, assembler: LineAssembler, close: Close, firstTest: nat)
    returns (delivered: seq<string>, test: nat, stopped: bool)
    requires '\n' !in assembler.pending
    requires close.AtTest? ==> firstTest <= close.first
    modifies assembler
    ensures var text := old(assembler.pending) + OutputText(frames);
            && delivered <= CompleteLines(text)
            && (!stopped ==> delivered == CompleteLines(text) && assembler.pending == Tail(text))
    ensures assembler.flushedOnce == old(assembler.flushedOnce)
    ensures test == firstTest + |delivered|
    ensures close.AtTest? ==> test <= close.first
    ensures stopped ==> close == AtTest(test)
  {
    delivered, test, stopped := [], firstTest, false;
    ghost var pending := assembler.pending;
    ghost var all := CompleteLines(SoFar(pending, frames, |frames|));
    assert frames[..|frames|] == frames;
    SplitUnique([pending]);
    assert frames[..0] == [] && SoFar(pending, frames, 0) == pending;
    for j := 0 to |frames|
      invariant delivered == CompleteLines(SoFar(pending, frames, j))
      invariant assembler.pending == Tail(SoFar(pending, frames, j))
      invariant assembler.flushedOnce == old(assembler.flushedOnce)
      invariant test == firstTest + |delivered|
      invariant close.AtTest? ==> test <= close.first
    {
      if frames[j].streamType != Stdout && frames[j].streamType != Stderr {
        SoFarExtends(pending, frames, j);
        continue;
      }
      var text := Text(frames[j].payload);
      PieceCompletes(pending, frames, j);
      var lines := assembler.Feed(text);
      ghost var before := delivered;
      assert before + lines <= all;
      for k := 0 to |lines|
        invariant delivered == before + lines[..k]
        invariant test == firstTest + |delivered|
        invariant close.AtTest? ==> test <= close.first
      {
        if Requested(close, test) {
          stopped := true;
          assert before + lines[..k] <= before + lines;
          return;
        }
        test := test + 1;
        delivered := delivered + [lines[k]];
      }
      assert lines[..|lines|] == lines;
    }
  }

  /** The frames one more chunk completes. */
  ghost function NewFrames(chunks: seq<seq<byte>>, i: nat): seq<Frame>
    requires i < |chunks|
  {
    Demux(Unparsed(Flatten(chunks[..i])) + chunks[i])
  }

  /** The text not yet delivered, once those frames are in. */
  ghost function Undelivered(chunks: seq<seq<byte>>, i: nat): string
    requires i < |chunks|
  {
    Tail(StreamText(chunks[..i])) + OutputText(NewFrames(chunks, i))
  }

  lemma ChunkDelivered(chunks: seq<seq<byte>>, i: nat)
    requires i < |chunks|
    ensures var text, more := StreamText(chunks[..i]), Undelivered(chunks, i);
            && CompleteLines(StreamText(chunks[..i + 1])) == CompleteLines(text) + CompleteLines(more)
            && Tail(StreamText(chunks[..i + 1])) == Tail(more)
            && CompleteLines(text) + CompleteLines(more) <= OutputLines(StreamText(chunks))
            && '\n' !in Tail(text)
  {
    NextChunk(chunks, i);
    StreamTextGrows(chunks, i + 1);
    LinesSoFar(StreamText(chunks[..i + 1]), StreamText(chunks));
    ConcatLines(StreamText(chunks[..i]), OutputText(NewFrames(chunks, i)));
    TailHasNoNewline(StreamText(chunks[..i]));
  }

  /** What one chunk may add to what was delivered, by the contract of DeliverFrames. */
  lemma ChunkInOrder(before: seq<string>, lines: seq<string>, more: seq<string>, all: seq<string>)
    requires lines <= more && before + more <= all
    ensures before + lines <= all
  {
    assert forall i | 0 <= i < |before + lines| :: (before + lines)[i] == (before + more)[i];
  }

  /** Delivers a prefix of the output's lines whatever the chunking and the close; all of
      them when the stream ends by itself, and all but the unterminated one on an error.
      The flag is tested once per chunk and once per line: no line follows a close, and only
      a close that was tested for keeps a line back. */
  method FollowLogs(chunks: seq<seq<byte>>, ending: Ending, close: Close) returns (delivered: seq<string>)
    ensures delivered <= OutputLines(StreamText(chunks))
    ensures close.Never? && ending.Ended? ==> delivered == OutputLines(StreamText(chunks))
    ensures close.Never? && ending.Errored? ==> delivered == CompleteLines(StreamText(chunks))
    ensures close.AtTest? ==> |delivered| <= close.first
    ensures (close.AtTest? ==> |chunks| + |delivered| < close.first) ==>
              delivered == if ending.Ended? then OutputLines(StreamText(chunks)) else CompleteLines(StreamText(chunks))
  {
    delivered := [];
    var test := 0;
    var demuxer := new FrameDemuxer();
    var assembler := new LineAssembler();
    ghost var all := OutputLines(StreamText(chunks));
    assert chunks[..0] == [];
    for i := 0 to |chunks|
      invariant demuxer.buffered == Unparsed(Flatten(chunks[..i]))
      invariant delivered == CompleteLines(StreamText(chunks[..i])) && delivered <= all
      invariant assembler.pending == Tail(StreamText(chunks[..i])) && !assembler.flushedOnce
      invariant test == i + |delivered|
      invariant close.AtTest? ==> test <= close.first
    {
      ChunkDelivered(chunks, i);
      if Requested(close, test) {
        return;
      }
      NextChunk(chunks, i);
      ghost var before, more := delivered, CompleteLines(Undelivered(chunks, i));
      var frames := demuxer.Push(chunks[i]);
      assert frames == NewFrames(chunks, i);
      var lines, next, stopped := DeliverFrames(frames, assembler, close, test + 1);
      ChunkInOrder(before, lines, more, all);
      delivered := delivered + lines;
      test := next;
      if stopped {
        return;
      }
    }
    assert chunks[..|chunks|] == chunks;
    OutputIsCompletePlusTail(StreamText(chunks));
    if ending.Errored? || Requested(close, test) {
      return;
    }
    var tail := assembler.Flush();
    if tail.Some? {
      delivered := delivered + [tail.value];
    }
  }

  /** logs(): one response, demultiplexed and printed line by line, is a text whose lines are
      the output's - the same that following it to its end delivers. */
  method Logs(chunks: seq<seq<byte>>) returns (printed: string)
    ensures OutputLines(printed) == OutputLines(StreamText(chunks))
  {
    var lines := FollowLogs(chunks, Ended, Never);
    OutputLinesHaveNoNewline(StreamText(chunks));
    TerminatedRoundTrip(lines);
    printed := Terminated(lines);
  }

  /** The payloads of the frames whose type byte is 1 or 2, in order. */
  function WorkloadBytes(fs: seq<RawFrame>): seq<byte> {
    if fs == [] then []
    else (if fs[0].typeByte == 1 || fs[0].typeByte == 2 then fs[0].payload else []) + WorkloadBytes(fs[1..])
  }

  /** The text reads byte for byte as these bytes. */
  predicate Spells(text: string, bytes: seq<byte>) {
    |text| == |bytes| && forall i | 0 <= i < |bytes| :: text[i] == bytes[i] as char
  }

  lemma OutputOfShown(f: RawFrame)
    ensures OutputText(Shown(f)) == if f.typeByte == 1 || f.typeByte == 2 then Text(f.payload) else ""
  {
    var shown := Shown(f);
    if shown == [] {
      assert Outputs(shown) == [];
    } else {
      NextFrame(shown, 0);
      assert shown[..0] == [] && shown[..1] == shown && Outputs([]) == [];
    }
  }

  lemma {:induction false} OutputOfKnown(fs: seq<RawFrame>)
    ensures Spells(OutputText(Known(fs)), WorkloadBytes(fs))
  {
    if fs == [] {
      assert Outputs([]) == [];
    } else {
      OutputOfKnown(fs[1..]);
      OutputOfShown(fs[0]);
      OutputTextConcat(Shown(fs[0]), Known(fs[1..]));
    }
  }

  /** Whatever the daemon's write boundaries, what is followed is what the workload printed to
      its stdout and stderr, byte for byte, in the frames that arrived whole. */
  lemma StreamCarriesOutput(fs: seq<RawFrame>, partial: seq<byte>, chunks: seq<seq<byte>>)
    requires forall f <- fs :: Encodable(f)
    requires !HasFrame(partial)
    requires Flatten(chunks) == EncodeAll(fs) + partial
    ensures StreamText(chunks) == OutputText(Known(fs)) && Spells(StreamText(chunks), WorkloadBytes(fs))
  {
    DemuxUndoesEncoding(fs, partial);
    OutputOfKnown(fs);
  }

  /** Such a stream, followed to its end, delivers the lines of those bytes. */
  method FollowEncoded(ghost fs: seq<RawFrame>, ghost partial: seq<byte>, chunks: seq<seq<byte>>, ghost printed: string)
    returns (delivered: seq<string>)
    requires (forall f <- fs :: Encodable(f)) && !HasFrame(partial)
    requires Flatten(chunks) == EncodeAll(fs) + partial && Spells(printed, WorkloadBytes(fs))
    ensures delivered == OutputLines(printed)
  {
    StreamCarriesOutput(fs, partial, chunks);
    assert StreamText(chunks) == printed;
    delivered := FollowLogs(chunks, Ended, Never);
  }
}
