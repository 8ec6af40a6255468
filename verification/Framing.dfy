/** Length-prefixed frames over a byte stream, as the TCP and stdio transports use them: four
    bytes of length, most significant first, then the payload. */
module Framing {
  import Messages

  type Byte = n: int | 0 <= n < 256

  type Payload = seq<Byte>

  const MAX_LENGTH := 0xFFFF_FFFF

  // ----- The format -----

  function Prefix(length: nat): (header: seq<Byte>)
    requires length <= MAX_LENGTH
    ensures |header| == 4
  {
    [length / 0x100_0000, length / 0x1_0000 % 0x100, length / 0x100 % 0x100, length % 0x100]
  }

  function Length(header: seq<Byte>): nat
    requires |header| == 4
  {
    var a: int, b: int, c: int, d: int := header[0], header[1], header[2], header[3];
    a * 0x100_0000 + b * 0x1_0000 + c * 0x100 + d
  }

  lemma LengthOfPrefix(length: nat)
    requires length <= MAX_LENGTH
    ensures Length(Prefix(length)) == length
  {
    assert length / 0x1_0000 / 0x100 == length / 0x100_0000;
    assert length / 0x100 / 0x100 == length / 0x1_0000;
  }

  lemma PrefixOfLength(header: seq<Byte>)
    requires |header| == 4
    ensures Length(header) <= MAX_LENGTH && Prefix(Length(header)) == header
  {
    var n := Length(header);
    var a: int, b: int, c: int := header[0], header[1], header[2];
    assert n / 0x100 == a * 0x1_0000 + b * 0x100 + c;
    assert n / 0x1_0000 == a * 0x100 + b;
    assert n / 0x100_0000 == a;
  }

  predicate Fits(p: Payload, max: nat)
  {
    0 < |p| <= max
  }

  ghost predicate AllFit(payloads: seq<Payload>, max: nat)
  {
    forall i :: 0 <= i < |payloads| ==> Fits(payloads[i], max)
  }

  function Frame(p: Payload): seq<Byte>
    requires |p| <= MAX_LENGTH
  {
    Prefix(|p|) + p
  }

  /** The stream that carries these payloads. */
  ghost function Wire(payloads: seq<Payload>): seq<Byte>
    requires AllFit(payloads, MAX_LENGTH)
  {
    if payloads == [] then [] else Frame(payloads[0]) + Wire(payloads[1..])
  }

  // ----- Reading -----

  datatype Next = Got(payload: Payload, rest: seq<Byte>) | BadLength | Incomplete

  /** The first frame of a stream that ends where it ends. */
  function NextFrame(stream: seq<Byte>, max: nat): Next
  {
    if |stream| < 4 then Incomplete
    else
      var length := Length(stream[..4]);
      if length == 0 || length > max then BadLength
      else if |stream| < 4 + length then Incomplete
      else Got(stream[4..4 + length], stream[4 + length..])
  }

  datatype Ending = AtBoundary | MidFrame | Refused

  /** Every frame a reader can take, and how the stream then ends. */
  function Decode(stream: seq<Byte>, max: nat): (seq<Payload>, Ending)
    decreases |stream|
  {
    match NextFrame(stream, max)
    case Got(payload, rest) => var (later, ending) := Decode(rest, max); ([payload] + later, ending)
    case BadLength => ([], Refused)
    case Incomplete => ([], if stream == [] then AtBoundary else MidFrame)
  }

  /** How many of the frames lie whole within the first k bytes. */
  function WholeFrames(payloads: seq<Payload>, k: nat): (n: nat)
    ensures n <= |payloads|
  {
    if payloads == [] || k < 4 + |payloads[0]| then 0
    else 1 + WholeFrames(payloads[1..], k - 4 - |payloads[0]|)
  }

  lemma FirstFrame(p: Payload, rest: seq<Byte>, max: nat)
    requires Fits(p, max) && max <= MAX_LENGTH
    ensures NextFrame(Frame(p) + rest, max) == Got(p, rest)
  {
    LengthOfPrefix(|p|);
    var stream := Frame(p) + rest;
    assert stream[..4] == Prefix(|p|) && stream[4..4 + |p|] == p && stream[4 + |p|..] == rest;
  }

  /** A frame cut short is no frame. */
  lemma CutFrame(p: Payload, k: nat, max: nat)
    requires Fits(p, max) && max <= MAX_LENGTH && k < |Frame(p)|
    ensures NextFrame(Frame(p)[..k], max) == Incomplete
  {
    LengthOfPrefix(|p|);
    if k >= 4 {
      assert Frame(p)[..k][..4] == Prefix(|p|);
    }
  }

  /** A stream cut after k bytes yields its whole frames and nothing else; the reader knows
      it was cut inside a frame exactly when bytes are left over. */
  lemma {:induction false} CutStream(payloads: seq<Payload>, k: nat, max: nat)
    requires max <= MAX_LENGTH && AllFit(payloads, max) && k <= |Wire(payloads)|
    ensures var n := WholeFrames(payloads, k);
      && Decode(Wire(payloads)[..k], max).0 == payloads[..n]
      && Decode(Wire(payloads)[..k], max).1 == (if k == |Wire(payloads[..n])| then AtBoundary else MidFrame)
    decreases |payloads|
  {
    if payloads != [] {
      var p, later, whole := payloads[0], payloads[1..], 4 + |payloads[0]|;
      WireCut(payloads, k);
      if k < whole {
        CutFrame(p, k, max);
        assert payloads[..0] == [];
      } else {
        hide NextFrame, Frame;
        var rest := Wire(later)[..k - whole];
        FirstFrame(p, rest, max);
        CutStream(later, k - whole, max);
        WireTake(payloads, WholeFrames(later, k - whole));
      }
    }
  }

  lemma WireCut(payloads: seq<Payload>, k: nat)
    requires payloads != [] && AllFit(payloads, MAX_LENGTH) && k <= |Wire(payloads)|
    ensures AllFit(payloads[1..], MAX_LENGTH)
    ensures var p, later := payloads[0], Wire(payloads[1..]);
      Wire(payloads)[..k] == if k < 4 + |p| then Frame(p)[..k] else Frame(p) + later[..k - 4 - |p|]
  {
  }

  lemma WireTake(payloads: seq<Payload>, n: nat)
    requires payloads != [] && AllFit(payloads, MAX_LENGTH) && n < |payloads|
    ensures AllFit(payloads[1..], MAX_LENGTH)
    ensures payloads[..n + 1] == [payloads[0]] + payloads[1..][..n]
    ensures |Wire(payloads[..n + 1])| == 4 + |payloads[0]| + |Wire(payloads[1..][..n])|
  {
    var taken := payloads[..n + 1];
    assert taken[0] == payloads[0] && taken[1..] == payloads[1..][..n];
  }

  /** Reading gives back what was written, in order, and ends cleanly. */
  lemma RoundTrip(payloads: seq<Payload>, max: nat)
    requires max <= MAX_LENGTH && AllFit(payloads, max)
    ensures Decode(Wire(payloads), max) == (payloads, AtBoundary)
  {
    AllWhole(payloads);
    CutStream(payloads, |Wire(payloads)|, max);
    assert Wire(payloads)[..|Wire(payloads)|] == Wire(payloads);
    assert payloads[..|payloads|] == payloads;
  }

  lemma {:induction false} AllWhole(payloads: seq<Payload>)
    requires AllFit(payloads, MAX_LENGTH)
    ensures WholeFrames(payloads, |Wire(payloads)|) == |payloads|
  {
    if payloads != [] {
      AllWhole(payloads[1..]);
    }
  }

  lemma GotFrame(stream: seq<Byte>, max: nat)
    requires max <= MAX_LENGTH && NextFrame(stream, max).Got?
    ensures var next := NextFrame(stream, max); Fits(next.payload, max) && stream == Frame(next.payload) + next.rest
  {
    PrefixOfLength(stream[..4]);
  }

  lemma OneFrameMore(p: Payload, frames: seq<Payload>, rest: seq<Byte>, max: nat)
    requires max <= MAX_LENGTH && Fits(p, max) && AllFit(frames, max) && Wire(frames) <= rest
    ensures AllFit([p] + frames, max) && Wire([p] + frames) <= Frame(p) + rest
    ensures Wire([p] + frames) == Frame(p) + rest <==> Wire(frames) == rest
  {
    assert ([p] + frames)[1..] == frames;
    var wire := Frame(p) + Wire(frames);
    assert wire[|Frame(p)|..] == Wire(frames) && (Frame(p) + rest)[|Frame(p)|..] == rest;
  }

  /** Whatever arrives, what is read is exactly what its bytes spell: the frames read encode
      to a prefix of the stream, and to all of it exactly when it ends at a frame boundary. */
  lemma {:induction false} ReadsOnlyWhatIsThere(stream: seq<Byte>, max: nat)
    requires max <= MAX_LENGTH
    ensures AllFit(Decode(stream, max).0, max) && Wire(Decode(stream, max).0) <= stream
    ensures Wire(Decode(stream, max).0) == stream <==> Decode(stream, max).1 == AtBoundary
    decreases |stream|
  {
    match NextFrame(stream, max) {
      case Got(payload, rest) =>
        hide NextFrame, Frame;
        GotFrame(stream, max);
        ReadsOnlyWhatIsThere(rest, max);
        OneFrameMore(payload, Decode(rest, max).0, rest, max);
      case _ =>
    }
  }

  /** What is left after the last whole frame tells how the stream ends: nothing, a length
      that is refused, or a part of a frame. */
  lemma {:induction false} EndingTells(stream: seq<Byte>, max: nat)
    requires max <= MAX_LENGTH
    ensures AllFit(Decode(stream, max).0, max) && |Wire(Decode(stream, max).0)| <= |stream|
    ensures var ending, left := Decode(stream, max).1, stream[|Wire(Decode(stream, max).0)|..];
      && (ending == AtBoundary <==> left == [])
      && (ending == Refused <==> |left| >= 4 && !(1 <= Length(left[..4]) <= max))
      && (ending == MidFrame ==> |left| < 4 || |left| < 4 + Length(left[..4]))
    decreases |stream|
  {
    ReadsOnlyWhatIsThere(stream, max);
    match NextFrame(stream, max) {
      case Got(payload, rest) =>
        GotFrame(stream, max);
        EndingTells(rest, max);
        SkipFrame(payload, Decode(rest, max).0, rest);
      case _ => assert stream[0..] == stream;
    }
  }

  lemma SkipFrame(p: Payload, frames: seq<Payload>, rest: seq<Byte>)
    requires Fits(p, MAX_LENGTH) && AllFit(frames, MAX_LENGTH) && |Wire(frames)| <= |rest|
    ensures AllFit([p] + frames, MAX_LENGTH)
    ensures |Wire([p] + frames)| <= |Frame(p) + rest|
    ensures (Frame(p) + rest)[|Wire([p] + frames)|..] == rest[|Wire(frames)|..]
  {
    assert ([p] + frames)[1..] == frames;
    assert |Wire([p] + frames)| == |Frame(p)| + |Wire(frames)|;
  }

  // ----- The reader over arriving chunks -----

  function Joined(chunks: seq<seq<Byte>>): seq<Byte>
  {
    if chunks == [] then [] else chunks[0] + Joined(chunks[1..])
  }

  datatype ReadOutcome = Received(payload: Payload) | InvalidFrameSize | Ended | Interrupted | ConnectionClosed

  /** One connection's reading side.  Chunks arrive in any sizes until the peer closes; a
      deadline or a cancellation may strike whenever the reader has to wait. */
  class FrameReader {
    const maxFrameSize: nat
    var buffer: seq<Byte>
    var arriving: seq<seq<Byte>>
    var closed: bool

    function Stream(): seq<Byte>
      reads this
    {
      buffer + Joined(arriving)
    }

    constructor (maxFrameSize: nat, chunks: seq<seq<Byte>>)
      requires 0 < maxFrameSize <= MAX_LENGTH
      ensures Stream() == Joined(chunks) && !closed && this.maxFrameSize == maxFrameSize
    {
      this.maxFrameSize := maxFrameSize;
      buffer, arriving, closed := [], chunks, false;
    }

    /** Exactly n bytes, or None when the stream ends or the wait is interrupted first. */
    method ReadExactly(n: nat) returns (data: Messages.Option<seq<Byte>>, interrupted: bool)
      modifies this`buffer, this`arriving
      ensures data.Some? ==> !interrupted && |data.value| == n && data.value + Stream() == old(Stream())
      ensures data.None? && !interrupted ==> |old(Stream())| < n
    {
      interrupted := false;
      while |buffer| < n
        invariant !interrupted && Stream() == old(Stream())
        decreases |arriving|
      {
        if arriving == [] {
          return Messages.None, false;
        }
        interrupted := *;
        if interrupted {
          return Messages.None, true;
        }
        assert buffer + arriving[0] + Joined(arriving[1..]) == buffer + Joined(arriving);
        buffer, arriving := buffer + arriving[0], arriving[1..];
      }
      data := Messages.Some(buffer[..n]);
      buffer := buffer[n..];
    }

    /** One frame.  Anything but a frame closes the connection, since the position in the
        stream is lost; a closed connection is never read again. */
    method ReadFrame() returns (outcome: ReadOutcome)
      modifies this
      ensures old(closed) ==> outcome == ConnectionClosed && closed && Stream() == old(Stream())
      ensures !old(closed) ==> outcome != ConnectionClosed && closed == !outcome.Received?
      ensures !old(closed) && !outcome.Interrupted? ==>
        match NextFrame(old(Stream()), maxFrameSize)
        case Got(payload, rest) => outcome == Received(payload) && Stream() == rest
        case BadLength => outcome == InvalidFrameSize
        case Incomplete => outcome == Ended
    {
      if closed {
        return ConnectionClosed;
      }
      ghost var stream := Stream();
      closed := true;
      var first, interrupted := ReadExactly(1);
      if first.None? {
        return if interrupted then Interrupted else Ended;
      }
      var others;
      others, interrupted := ReadExactly(3);
      if others.None? {
        return if interrupted then Interrupted else Ended;
      }
      var header := first.value + others.value;
      assert header + Stream() == stream;
      assert stream[..4] == header;
      var length := Length(header);
      if length == 0 || length > maxFrameSize {
        return InvalidFrameSize;
      }
      var payload;
      payload, interrupted := ReadExactly(length);
      if payload.None? {
        return if interrupted then Interrupted else Ended;
      }
      assert header + payload.value + Stream() == stream;
      assert stream[4..4 + length] == payload.value && stream[4 + length..] == Stream();
      closed := false;
      outcome := Received(payload.value);
    }

    /** Reading until it fails gives the frames of the stream, however it was chunked; an
        interruption may only leave out the last of them. */
    method ReadAll() returns (payloads: seq<Payload>, last: ReadOutcome)
      requires !closed
      modifies this
      ensures closed && payloads <= Decode(old(Stream()), maxFrameSize).0
      ensures !last.Interrupted? ==> payloads == Decode(old(Stream()), maxFrameSize).0
      ensures last.InvalidFrameSize? ==> Decode(old(Stream()), maxFrameSize).1 == Refused
    {
      payloads, last := [], Received([]);
      ghost var all := Decode(Stream(), maxFrameSize);
      assert [] + all.0 == all.0;
      while last.Received?
        invariant closed == !last.Received? && last != ConnectionClosed
        invariant !closed ==> all == (payloads + Decode(Stream(), maxFrameSize).0, Decode(Stream(), maxFrameSize).1)
        invariant payloads <= all.0 && (closed && !last.Interrupted? ==> payloads == all.0)
        invariant last.InvalidFrameSize? ==> all.1 == Refused
        decreases !closed, |Stream()|
      {
        ghost var rest := Decode(Stream(), maxFrameSize).0;
        last := ReadFrame();
        assert last.Received? ==> payloads + rest == payloads + [last.payload] + rest[1..];
        if last.Received? {
          payloads := payloads + [last.payload];
        }
      }
    }
  }
}
