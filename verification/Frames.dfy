/** The Docker log stream: multiplexed frames, and the lines inside their payloads. */
module Frames {
  import opened Lines
  import opened Options

  type byte = b: int | 0 <= b < 256

  datatype StreamType = Stdin | Stdout | Stderr

  datatype Frame = Frame(streamType: StreamType, payload: seq<byte>)

  const HEADER_LEN: nat := 8

  function StreamTypeFromByte(b: byte): Option<StreamType> {
    match b
    case 0 => Some(Stdin)
    case 1 => Some(Stdout)
    case 2 => Some(Stderr)
    case _ => None
  }

  /** The big-endian 32-bit payload length in bytes 4 to 7 of a header. */
  function PayloadLength(buf: seq<byte>): nat
    requires |buf| >= HEADER_LEN
  {
    (buf[4] as int) * 0x1000000 + (buf[5] as int) * 0x10000 + (buf[6] as int) * 0x100 + buf[7] as int
  }

  predicate HasFrame(buf: seq<byte>) {
    |buf| >= HEADER_LEN && |buf| >= HEADER_LEN + PayloadLength(buf)
  }

  function FrameEnd(buf: seq<byte>): (n: nat)
    requires HasFrame(buf)
    ensures HEADER_LEN <= n <= |buf|
  {
    HEADER_LEN + PayloadLength(buf)
  }

  /** The first frame of the buffer, unless its type byte is unknown. */
  function FirstFrame(buf: seq<byte>): seq<Frame>
    requires HasFrame(buf)
  {
    match StreamTypeFromByte(buf[0])
    case Some(t) => [Frame(t, buf[HEADER_LEN..FrameEnd(buf)])]
    case None => []
  }

  /** Every frame the buffer holds in full. */
  function Demux(buf: seq<byte>): seq<Frame>
    decreases |buf|
  {
    if HasFrame(buf) then FirstFrame(buf) + Demux(buf[FrameEnd(buf)..]) else []
  }

  /** The suffix that is not a full frame yet. */
  function Unparsed(buf: seq<byte>): (rest: seq<byte>)
    ensures !HasFrame(rest)
    decreases |buf|
  {
    if HasFrame(buf) then Unparsed(buf[FrameEnd(buf)..]) else buf
  }

  function Flatten<T>(chunks: seq<seq<T>>): seq<T> {
    if chunks == [] then [] else chunks[0] + Flatten(chunks[1..])
  }

  lemma {:induction false} FlattenConcat<T>(a: seq<seq<T>>, b: seq<seq<T>>)
    ensures Flatten(a + b) == Flatten(a) + Flatten(b)
  {
    if a == [] {
      assert a + b == b;
    } else {
      var rest, more := Flatten(a[1..]), Flatten(b);
      FlattenConcat(a[1..], b);
      assert (a + b)[1..] == a[1..] + b;
      assert Flatten(a + b) == a[0] + (rest + more);
      assert a[0] + (rest + more) == (a[0] + rest) + more;
    }
  }

  lemma FlattenSnoc<T>(a: seq<seq<T>>, x: seq<T>)
    ensures Flatten(a + [x]) == Flatten(a) + x
  {
    FlattenConcat(a, [x]);
    assert Flatten([x]) == x + Flatten<T>([]);
  }

  /** Parsing may stop and resume at any byte: chunk boundaries do not matter. */
  lemma {:induction false} DemuxConcat(a: seq<byte>, b: seq<byte>)
    ensures Demux(a + b) == Demux(a) + Demux(Unparsed(a) + b)
    ensures Unparsed(a + b) == Unparsed(Unparsed(a) + b)
    decreases |a|
  {
    if HasFrame(a) {
      var n := FrameEnd(a);
      assert PayloadLength(a + b) == PayloadLength(a);
      assert (a + b)[HEADER_LEN..n] == a[HEADER_LEN..n];
      assert FirstFrame(a + b) == FirstFrame(a);
      assert (a + b)[n..] == a[n..] + b;
      DemuxConcat(a[n..], b);
    }
  }

  /** A frame as the daemon sends it: any type byte, any payload a length field can describe. */
  datatype RawFrame = RawFrame(typeByte: byte, payload: seq<byte>)

  ghost predicate Encodable(f: RawFrame) {
    |f.payload| < 0x1_0000_0000
  }

  function Encode(f: RawFrame): (bytes: seq<byte>)
    requires Encodable(f)
  {
    var n := |f.payload|;
    [f.typeByte, 0, 0, 0,
     (n / 0x1000000) % 256, (n / 0x10000) % 256, (n / 0x100) % 256, n % 256] + f.payload
  }

  function EncodeAll(fs: seq<RawFrame>): seq<byte>
    requires forall f <- fs :: Encodable(f)
  {
    if fs == [] then [] else Encode(fs[0]) + EncodeAll(fs[1..])
  }

  /** What a frame shows a consumer: type byte 0 is stdin, 1 stdout, 2 stderr, and no other. */
  function Shown(f: RawFrame): seq<Frame> {
    if f.typeByte == 0 then [Frame(Stdin, f.payload)]
    else if f.typeByte == 1 then [Frame(Stdout, f.payload)]
    else if f.typeByte == 2 then [Frame(Stderr, f.payload)]
    else []
  }

  /** The frames a consumer should see. */
  function Known(fs: seq<RawFrame>): seq<Frame> {
    if fs == [] then [] else Shown(fs[0]) + Known(fs[1..])
  }

  /** Where in Known each frame of a known type ends up: behind those before it. */
  lemma {:induction false} KnownAt(fs: seq<RawFrame>, i: nat)
    requires i < |fs| && fs[i].typeByte <= 2
    ensures var k := |Known(fs[..i])|;
            && k < |Known(fs)| && Known(fs)[k].payload == fs[i].payload
            && (Known(fs)[k].streamType == Stdin <==> fs[i].typeByte == 0)
            && (Known(fs)[k].streamType == Stdout <==> fs[i].typeByte == 1)
            && (Known(fs)[k].streamType == Stderr <==> fs[i].typeByte == 2)
  {
    if i == 0 {
      assert fs[..0] == [];
    } else {
      assert fs[1..][i - 1] == fs[i] && fs[..i][1..] == fs[1..][..i - 1];
      KnownAt(fs[1..], i - 1);
    }
  }

  lemma EncodedFrame(f: RawFrame, rest: seq<byte>)
    requires Encodable(f)
    ensures HasFrame(Encode(f) + rest)
    ensures FrameEnd(Encode(f) + rest) == |Encode(f)|
    ensures FirstFrame(Encode(f) + rest) == Shown(f)
    ensures (Encode(f) + rest)[|Encode(f)|..] == rest
  {
    var buf, n := Encode(f) + rest, |f.payload|;
    assert buf[4] == (n / 0x1000000) % 256 && buf[5] == (n / 0x10000) % 256;
    assert buf[6] == (n / 0x100) % 256 && buf[7] == n % 256;
    assert n / 0x1000000 < 256;
    assert n / 0x10000 == (n / 0x1000000) * 256 + (n / 0x10000) % 256;
    assert n / 0x100 == (n / 0x10000) * 256 + (n / 0x100) % 256;
    assert n == (n / 0x100) * 256 + n % 256;
    assert PayloadLength(buf) == n;
    assert buf[HEADER_LEN..HEADER_LEN + n] == f.payload;
  }

  /** Demultiplexing undoes encoding: known frames come out in order, unknown ones
      leave no trace, and an incomplete last frame stays in the buffer. */
  lemma {:induction false} DemuxUndoesEncoding(fs: seq<RawFrame>, partial: seq<byte>)
    requires forall f <- fs :: Encodable(f)
    requires !HasFrame(partial)
    ensures Demux(EncodeAll(fs) + partial) == Known(fs)
    ensures Unparsed(EncodeAll(fs) + partial) == partial
  {
    if fs == [] {
      assert EncodeAll(fs) + partial == partial;
    } else {
      var rest := EncodeAll(fs[1..]) + partial;
      assert EncodeAll(fs) + partial == Encode(fs[0]) + rest;
      EncodedFrame(fs[0], rest);
      DemuxUndoesEncoding(fs[1..], partial);
    }
  }

  /** What one call answers: fed a daemon's frames and the start of one more, with nothing
      buffered, exactly the frames of types 0, 1 and 2, each under its own type. */
  method PushEncoded(demuxer: FrameDemuxer, fs: seq<RawFrame>, partial: seq<byte>, chunk: seq<byte>)
    returns (frames: seq<Frame>)
    requires demuxer.buffered == [] && (forall f <- fs :: Encodable(f)) && !HasFrame(partial)
    requires chunk == EncodeAll(fs) + partial
    modifies demuxer
    ensures frames == Known(fs) && demuxer.buffered == partial
  {
    assert [] + chunk == chunk;
    DemuxUndoesEncoding(fs, partial);
    frames := demuxer.Push(chunk);
  }

  /** Only a strict prefix of a frame is ever held back. */
  lemma StrictPrefixIsIncomplete(f: RawFrame, cut: nat)
    requires Encodable(f) && cut < |Encode(f)|
    ensures !HasFrame(Encode(f)[..cut])
  {
    if cut >= HEADER_LEN {
      EncodedFrame(f, []);
      assert Encode(f) + [] == Encode(f);
      assert PayloadLength(Encode(f)[..cut]) == PayloadLength(Encode(f));
    }
  }

  /** One turn of the loop: the first frame moves from the buffer to the result. */
  lemma FrameMoved(whole: seq<byte>, buffered: seq<byte>, frames: seq<Frame>)
    requires HasFrame(buffered)
    requires frames + Demux(buffered) == Demux(whole) && Unparsed(buffered) == Unparsed(whole)
    ensures (frames + FirstFrame(buffered)) + Demux(buffered[FrameEnd(buffered)..]) == Demux(whole)
    ensures Unparsed(buffered[FrameEnd(buffered)..]) == Unparsed(whole)
  {
    var first, rest := FirstFrame(buffered), Demux(buffered[FrameEnd(buffered)..]);
    assert frames + (first + rest) == (frames + first) + rest;
  }

  /** The stateful reassembler: feed it bytes as they arrive. */
  class FrameDemuxer {
    var buffered: seq<byte>

    constructor ()
      ensures buffered == []
    {
      buffered := [];
    }

    method Push(chunk: seq<byte>) returns (frames: seq<Frame>)
      modifies this
      ensures frames == Demux(old(buffered) + chunk)
      ensures buffered == Unparsed(old(buffered) + chunk)
    {
      buffered := buffered + chunk;
      ghost var whole := buffered;
      frames := [];
      while true
        invariant frames + Demux(buffered) == Demux(whole)
        invariant Unparsed(buffered) == Unparsed(whole)
        decreases |buffered|
      {
        if |buffered| < HEADER_LEN {
          break;
        }
        var len := PayloadLength(buffered);
        if |buffered| < HEADER_LEN + len {
          break;
        }
        var streamType := StreamTypeFromByte(buffered[0]);
        var payload := buffered[HEADER_LEN..HEADER_LEN + len];
        FrameMoved(whole, buffered, frames);
        ghost var moved, rest := frames + FirstFrame(buffered), buffered[FrameEnd(buffered)..];
        if streamType.Some? {
          frames := frames + [Frame(streamType.value, payload)];
        }
        assert frames == moved;
        buffered := buffered[HEADER_LEN + len..];
        assert buffered == rest;
      }
    }
  }

  /** Reassembles lines from text whose chunk boundaries mean nothing. */
  class LineAssembler {
    var pending: string
    var flushedOnce: bool

    constructor ()
      ensures pending == "" && !flushedOnce
    {
      pending := "";
      flushedOnce := false;
    }

    /** Hands back the lines the new text completes and keeps the rest. */
    method Feed(text: string) returns (lines: seq<string>)
      modifies this
      ensures lines == CompleteLines(old(pending) + text)
      ensures pending == Tail(old(pending) + text)
      ensures flushedOnce == old(flushedOnce)
    {
      pending := pending + text;
      if '\n' !in pending {
        SplitUnique([pending]);
        assert CompleteLines(pending) == [];
        return [];
      }
      var endsWithNewline := EndsWithNewline(pending);
      var parts := Split(pending);
      var tail := parts[|parts| - 1];
      TailEmpty(pending);
      lines := parts[..|parts| - 1];
      pending := if endsWithNewline then "" else tail;
    }

    /** The unterminated fragment, at most once however often the stream ends. */
    method Flush() returns (tail: Option<string>)
      modifies this
      ensures tail == if old(flushedOnce) || old(pending) == "" then None else Some(old(pending))
      ensures flushedOnce && pending == if old(flushedOnce) then old(pending) else ""
    {
      if flushedOnce {
        return None;
      }
      flushedOnce := true;
      if |pending| == 0 {
        return None;
      }
      tail := Some(pending);
      pending := "";
    }
  }
}
