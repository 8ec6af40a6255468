/** The writing side of a framed channel: senders take turns under a lock, each handing over a
    whole frame and waiting until it has drained, while a thread writes the bytes out in
    whatever portions the pipe takes. */
module FrameWriting {
  import opened Framing

  type Task = nat

  /** `queue` holds what was handed over and not written yet, `sent` the payloads handed over,
      in that order.  After a failed write the thread writes nothing more. */
  datatype Channel = Channel(
    lock: set<Task>, waiting: map<Task, Payload>, queue: seq<seq<Byte>>, out: seq<Byte>,
    closing: bool, failed: bool, sent: seq<Payload>)

  const INITIAL := Channel({}, map[], [], [], false, false, [])

  datatype Action =
    | Ask(t: Task, data: Payload)
    | Acquire(t: Task)
    | WriteSome(n: nat)
    | WriteFails
    | Drained(t: Task)
    | Cancel(t: Task)
    | Close

  predicate Enabled(c: Channel, a: Action)
  {
    match a
    case Ask(t, _) => t !in c.waiting && t !in c.lock
    case Acquire(t) => t in c.waiting && c.lock == {}
    case WriteSome(n) => !c.failed && c.queue != [] && 1 <= n <= |c.queue[0]|
    case WriteFails => !c.failed && c.queue != []
    case Drained(t) => t in c.lock && (c.queue == [] || c.failed)
    case _ => true
  }

  /** The task that got the lock hands over its frame, unless its size is wrong or the
      channel is closing. */
  function Hand(c: Channel, t: Task, max: nat): Channel
    requires t in c.waiting && max <= MAX_LENGTH
  {
    var data, left := c.waiting[t], c.(waiting := c.waiting - {t});
    if !Fits(data, max) || c.closing then left
    else left.(lock := {t}, queue := c.queue + [Frame(data)], sent := c.sent + [data])
  }

  function Next(c: Channel, a: Action, max: nat): Channel
    requires max <= MAX_LENGTH
  {
    if !Enabled(c, a) then c
    else
      match a
      case Ask(t, data) => c.(waiting := c.waiting[t := data])
      case Acquire(t) => Hand(c, t, max)
      case WriteSome(n) =>
        var left := c.queue[0][n..];
        c.(out := c.out + c.queue[0][..n], queue := (if left == [] then [] else [left]) + c.queue[1..])
      case WriteFails => c.(failed := true)
      case Drained(t) => c.(lock := {}, closing := c.closing || c.failed)
      case Cancel(t) => if t in c.lock then c.(lock := {}, closing := true) else c.(waiting := c.waiting - {t})
      case Close => c.(closing := true)
  }

  /** What is out and what is still queued are together the frames handed over, in order;
      after a failed write, what is out is an initial part of them. */
  ghost predicate Invariant(c: Channel, max: nat)
    requires max <= MAX_LENGTH
  {
    && AllFit(c.sent, max)
    && c.out <= Wire(c.sent)
    && (!c.failed ==> c.out + Joined(c.queue) == Wire(c.sent))
  }

  lemma {:induction false} JoinedAppend(chunks: seq<seq<Byte>>, last: seq<Byte>)
    ensures Joined(chunks + [last]) == Joined(chunks) + last
  {
    if chunks == [] {
      assert chunks + [last] == [last] && [last][1..] == [];
    } else {
      assert (chunks + [last])[1..] == chunks[1..] + [last];
      JoinedAppend(chunks[1..], last);
      assert chunks[0] + (Joined(chunks[1..]) + last) == chunks[0] + Joined(chunks[1..]) + last;
    }
  }

  lemma {:induction false} WireAppend(payloads: seq<Payload>, last: Payload)
    requires AllFit(payloads, MAX_LENGTH) && Fits(last, MAX_LENGTH)
    ensures AllFit(payloads + [last], MAX_LENGTH) && Wire(payloads + [last]) == Wire(payloads) + Frame(last)
  {
    if payloads == [] {
      assert payloads + [last] == [last] && [last][1..] == [];
    } else {
      assert (payloads + [last])[1..] == payloads[1..] + [last];
      WireAppend(payloads[1..], last);
      assert Frame(payloads[0]) + (Wire(payloads[1..]) + Frame(last)) == Frame(payloads[0]) + Wire(payloads[1..]) + Frame(last);
    }
  }

  lemma HandKeeps(c: Channel, t: Task, max: nat)
    requires max <= MAX_LENGTH && Invariant(c, max) && t in c.waiting
    ensures Invariant(Hand(c, t, max), max)
  {
    var data := c.waiting[t];
    if Fits(data, max) && !c.closing {
      JoinedAppend(c.queue, Frame(data));
      WireAppend(c.sent, data);
      assert c.out + (Joined(c.queue) + Frame(data)) == c.out + Joined(c.queue) + Frame(data);
    }
  }

  /** Writing some bytes of the first chunk moves them from the queue to the output. */
  lemma PortionMoves(queue: seq<seq<Byte>>, n: nat)
    requires queue != [] && n <= |queue[0]|
    ensures var left := queue[0][n..];
      queue[0][..n] + Joined((if left == [] then [] else [left]) + queue[1..]) == Joined(queue)
  {
    var left := queue[0][n..];
    assert queue[0] == queue[0][..n] + left;
    if left == [] {
      assert [] + queue[1..] == queue[1..];
    } else {
      assert ([left] + queue[1..])[1..] == queue[1..];
    }
  }

  lemma NextKeeps(c: Channel, a: Action, max: nat)
    requires max <= MAX_LENGTH && Invariant(c, max)
    ensures Invariant(Next(c, a, max), max)
  {
    if Enabled(c, a) {
      match a {
        case Acquire(t) => HandKeeps(c, t, max);
        case WriteSome(n) =>
          PortionMoves(c.queue, n);
          var d := Next(c, a, max);
          assert d.out + Joined(d.queue) == c.out + (c.queue[0][..n] + Joined(d.queue));
          assert d.out == (d.out + Joined(d.queue))[..|d.out|];
        case _ =>
      }
    }
  }

  function After(run: seq<Action>, max: nat): Channel
    requires max <= MAX_LENGTH
  {
    if run == [] then INITIAL else Next(After(run[..|run| - 1], max), run[|run| - 1], max)
  }

  lemma {:induction false} ReachableInvariant(run: seq<Action>, max: nat)
    requires max <= MAX_LENGTH
    ensures Invariant(After(run, max), max)
  {
    if run != [] {
      ReachableInvariant(run[..|run| - 1], max);
      NextKeeps(After(run[..|run| - 1], max), run[|run| - 1], max);
    }
  }

  /** Whatever the senders and the thread did, in whatever portions, a reader of what is out
      takes the payloads handed over, in the order of the lock, up to the first whose frame
      is not out whole. */
  lemma FramesArriveInOrder(run: seq<Action>, max: nat)
    requires max <= MAX_LENGTH
    ensures var c := After(run, max); var n := WholeFrames(c.sent, |c.out|);
      Decode(c.out, max).0 == c.sent[..n] && Decode(c.out, max).1 != Refused
  {
    ReachableInvariant(run, max);
    var c := After(run, max);
    CutStream(c.sent, |c.out|, max);
    assert Wire(c.sent)[..|c.out|] == c.out;
  }

  /** Once everything handed over has drained, the reader has taken all of it. */
  lemma DrainedFramesArrive(run: seq<Action>, max: nat)
    requires max <= MAX_LENGTH && !After(run, max).failed && After(run, max).queue == []
    ensures Decode(After(run, max).out, max) == (After(run, max).sent, AtBoundary)
  {
    ReachableInvariant(run, max);
    var c := After(run, max);
    assert c.out + [] == c.out;
    RoundTrip(c.sent, max);
  }

  /** A sender is let go only when its frame is out, or the write failed and the channel closes. */
  lemma DrainMeansWritten(run: seq<Action>, t: Task, max: nat)
    requires max <= MAX_LENGTH && Enabled(After(run, max), Drained(t))
    ensures var d := Next(After(run, max), Drained(t), max); AllFit(d.sent, max) && (d.out == Wire(d.sent) || (d.failed && d.closing))
  {
    ReachableInvariant(run, max);
    assert After(run, max).out + [] == After(run, max).out;
  }

  // ----- What each step does -----

  /** A sender that gets the lock hands its payload over exactly if the size is right and the
      channel is not closing; otherwise it leaves everything as it was. */
  lemma HandLaw(c: Channel, t: Task, max: nat)
    requires max <= MAX_LENGTH && Enabled(c, Acquire(t))
    ensures var n, data := Next(c, Acquire(t), max), c.waiting[t];
      && n.waiting == c.waiting - {t} && n.out == c.out && n.closing == c.closing
      && if 0 < |data| <= max && !c.closing then n.lock == {t} && n.sent == c.sent + [data]
         else n.lock == {} && n.sent == c.sent && n.queue == c.queue
  {
  }

  /** Each write puts as many bytes out, and nothing is put out after a failure. */
  lemma WriteLaw(c: Channel, a: Action, max: nat)
    requires max <= MAX_LENGTH
    ensures c.out <= Next(c, a, max).out
    ensures |Next(c, a, max).out| == |c.out| + (if Enabled(c, a) && a.WriteSome? then a.n else 0)
    ensures c.failed ==> Next(c, a, max).failed && Next(c, a, max).out == c.out
    ensures a.WriteFails? && c.queue != [] ==> Next(c, a, max).failed
  {
  }

  /** A drained sender frees the lock, closing the channel if the write failed.  A sender
      cancelled while it holds the lock also closes it, recalling nothing; one that only
      waits leaves nothing behind. */
  lemma ReleaseLaw(c: Channel, t: Task, max: nat)
    requires max <= MAX_LENGTH
    ensures Enabled(c, Drained(t)) ==>
      Next(c, Drained(t), max) == c.(lock := {}, closing := c.closing || c.failed)
    ensures t in c.lock ==> Next(c, Cancel(t), max) == c.(lock := {}, closing := true)
    ensures t !in c.lock ==> Next(c, Cancel(t), max) == c.(waiting := c.waiting - {t})
    ensures Enabled(c, Ask(t, [])) ==> forall data ::
      Next(c, Ask(t, data), max) == c.(waiting := c.waiting[t := data])
  {
  }

  /** Once the channel closes it stays closed, and nothing more is handed over. */
  lemma ClosingLaw(c: Channel, a: Action, max: nat)
    requires max <= MAX_LENGTH
    ensures Next(c, Close, max).closing
    ensures c.closing ==> Next(c, a, max).closing && Next(c, a, max).sent == c.sent
  {
  }

  // ----- The writer thread -----

  class StdoutWriter {
    var queue: seq<seq<Byte>>
    var out: seq<Byte>
    var failed: bool

    constructor ()
      ensures queue == [] && out == [] && !failed
    {
      queue, out, failed := [], [], false;
    }

    /** The operating system takes some bytes, at least one, or fails. */
    method OsWrite(view: seq<Byte>) returns (n: nat, ok: bool)
      requires view != []
      modifies this`out
      ensures ok ==> 1 <= n <= |view| && out == old(out) + view[..n]
      ensures !ok ==> out == old(out)
    {
      n, ok := 0, *;
      if ok {
        n :| 1 <= n <= |view|;
        out := out + view[..n];
      }
    }

    /** Write one chunk completely, or stop at the first failure. */
    method WriteChunk(data: seq<Byte>)
      requires !failed
      modifies this`out, this`failed
      ensures !failed ==> out == old(out) + data
      ensures old(out) <= out <= old(out) + data
    {
      var view := data;
      while view != [] && !failed
        invariant !failed ==> out + view == old(out) + data
        invariant old(out) <= out <= old(out) + data
        decreases !failed, |view|
      {
        var n, ok := OsWrite(view);
        if ok {
          assert view == view[..n] + view[n..];
          view := view[n..];
          assert out + view == old(out) + data;
          assert out == (out + view)[..|out|];
        } else {
          failed := true;
        }
      }
    }

    /** Work off the queue: everything is written in order, or up to the first failure. */
    method Run()
      requires !failed
      modifies this
      ensures queue == [] && old(out) <= out <= old(out) + Joined(old(queue))
      ensures !failed ==> out == old(out) + Joined(old(queue))
    {
      assert queue[0..] == queue;
      while queue != []
        invariant old(out) <= out <= old(out) + Joined(old(queue))
        invariant !failed ==> out + Joined(queue) == old(out) + Joined(old(queue))
        decreases |queue|
      {
        var data := queue[0];
        queue := queue[1..];
        if !failed {
          ghost var before, rest := out, Joined(queue);
          assert before + (data + rest) == old(out) + Joined(old(queue));
          WriteChunk(data);
          assert before + data + rest == before + (data + rest);
          assert before + data <= before + data + rest;
        }
      }
    }
  }
}
