/** The HTTP server transport object.  Each method is what runs between two suspensions. */
module HttpTransport {
  import opened Messages
  import opened HttpOwnership

  datatype SendOutcome = Sent | TooLarge | TransportClosed | NoOwner

  /** No lookup of the transport misses: queued requests and the claimed one have futures,
      and queued requests have identities. */
  lemma StillBooked(limits: Limits, s: State)
    requires Invariant(limits, s)
    ensures s.pending <= s.futures.Keys
    ensures forall q :: q in s.queue ==> q.request in s.principals && q.request in s.futures
    ensures s.active.Some? ==> s.active.value.request in s.futures
  {
    if s.active.Some? {
      assert s.log[|s.log| - 1] == Handed(s.active.value.request);
      assert WasHanded(s.log, s.active.value.request);
    }
  }

  lemma NothingPopped(queue: seq<Queued>)
    ensures TotalBytes(queue[..0]) == 0 && queue[0..] == queue
  {
  }

  lemma OneMorePopped(queue: seq<Queued>, popped: nat)
    requires popped < |queue|
    ensures TotalBytes(queue[..popped + 1]) == TotalBytes(queue[..popped]) + |queue[popped].body|
  {
    assert queue[..popped + 1] == queue[..popped] + [queue[popped]];
    TotalSplit(queue[..popped], [queue[popped]]);
  }

  class HttpServerTransport {
    const limits: Limits
    var pending: set<Request>
    var principals: map<Request, Option<string>>
    var queue: seq<Queued>
    var queuedBytes: int
    var active: Option<Claim>
    var ready: Ready
    var closing: bool
    // The response futures, owned by the event loop.
    var futures: map<Request, Future>
    ghost var log: seq<Event>

    ghost function View(): State
      reads this
    {
      State(pending, principals, queue, queuedBytes, active, ready, closing, futures, log)
    }

    ghost predicate Valid()
      reads this
    {
      Invariant(limits, View())
    }

    constructor (limits: Limits)
      ensures Valid() && this.limits == limits && View() == INITIAL
    {
      this.limits := limits;
      pending, principals, queue, queuedBytes, active := {}, map[], [], 0, None;
      ready, closing, futures, log := Ready(false, Idle), false, map[], [];
    }

    /** A request arrives: reserve its place before anything that suspends. */
    method Arrive(r: Request) returns (admitted: bool)
      requires Valid() && r !in futures
      modifies this
      ensures Valid() && View() == Next(limits, old(View()), Action.Arrive(r))
      ensures admitted <==> r in pending
    {
      hide Invariant;
      NextKeeps(limits, View(), Action.Arrive(r));
      StillBooked(limits, View());
      if closing || |pending| >= limits.maxPending {
        return false;
      }
      futures := futures[r := Open];
      pending := pending + {r};
      admitted := true;
    }

    /** The handler's cleanup; also all that happens when it gives up before queueing. */
    method CleanUp(r: Request)
      requires Valid() && r in pending
      modifies this
      ensures Valid() && View() == Cleanup(old(View()), r)
    {
      hide Invariant;
      CleanupKeeps(limits, View(), r);
      StillBooked(limits, View());
      pending := pending - {r};
      principals := principals - {r};
      if futures[r] == Open {
        futures := futures[r := Cancelled];
      }
      var i := IndexOf(queue, r);
      if i < |queue| {
        queuedBytes := queuedBytes - |queue[i].body|;
        queue := queue[..i] + queue[i + 1..];
      }
    }

    /** Body and identity are known: queue the request, or fail it. */
    method BodyRead(r: Request, principal: Option<string>, body: Body) returns (queued: bool)
      requires Valid() && r in pending && r !in principals
      modifies this
      ensures Valid() && View() == Next(limits, old(View()), Action.BodyRead(r, principal, body))
      ensures queued <==> r in principals
    {
      hide Invariant;
      if closing || |body| > limits.maxBody || queuedBytes + |body| > limits.maxQueueBytes {
        CleanUp(r);
        return false;
      }
      NextKeeps(limits, View(), Action.BodyRead(r, principal, body));
      principals := principals[r := principal];
      queuedBytes := queuedBytes + |body|;
      queue := queue + [Queued(body, r)];
      ready := ready.Set();
      queued := true;
    }

    /** A call of `recv`, refused while another runs or an answer is owed. */
    method Receive() returns (outcome: RecvOutcome)
      requires Valid()
      modifies this
      ensures Valid() && View() == Next(limits, old(View()), StartRecv)
      ensures outcome == (if old(View()).ready.receiver.Idle? && old(active).None?
                          then RecvPass(old(View())).1 else OutOfTurn)
    {
      hide Invariant, RecvPass;
      if !ready.receiver.Idle? || active.Some? {
        return OutOfTurn;
      }
      outcome := Recv();
    }

    /** One pass of `recv`: skip the requests that already finished, claim the first that has
        not, or wait. */
    method Recv() returns (outcome: RecvOutcome)
      requires Valid() && active.None?
      modifies this
      ensures Valid() && (View(), outcome) == RecvPass(old(View()))
    {
      hide Invariant, TotalBytes, FirstOpen;
      NothingPopped(queue);
      RecvKeeps(limits, View());
      StillBooked(limits, View());
      if closing {
        ready := ready.(receiver := Idle);
        return ConnectionClosed;
      }
      ghost var first := FirstOpen(View(), queue);
      var popped := 0;
      while queue != []
        invariant popped <= first && queue == old(queue)[popped..]
        invariant queuedBytes == old(queuedBytes) - TotalBytes(old(queue)[..popped])
        invariant pending == old(pending) && principals == old(principals) && futures == old(futures)
        invariant active == old(active) && ready == old(ready) && closing == old(closing) && log == old(log)
        decreases |queue|
      {
        var next := queue[0];
        assert next == old(queue)[popped];
        OneMorePopped(old(queue), popped);
        queue := queue[1..];
        queuedBytes := queuedBytes - |next.body|;
        if futures[next.request] == Open {
          assert popped == first;
          active := Some(Claim(next.request, principals[next.request]));
          ready := ready.(receiver := Idle);
          log := log + [Handed(next.request)];
          return Received(next.body);
        }
        popped := popped + 1;
      }
      assert old(queue)[..popped] == old(queue);
      ready := Ready(false, Parked);
      outcome := Waiting;
    }

    /** Give the claimed request its outcome, unless it already has one. */
    method Answer(body: Option<Body>)
      requires Valid() && active.Some?
      modifies this
      ensures Valid() && View() == Respond(old(View()), body)
    {
      hide Invariant;
      RespondKeeps(limits, View(), body);
      StillBooked(limits, View());
      var response := active.value.request;
      active := None;
      log := log + [Replied(body)];
      if futures[response] == Open {
        futures := futures[response := Answered(body)];
      }
    }

    method Send(body: Body) returns (outcome: SendOutcome)
      requires Valid()
      modifies this
      ensures Valid() && View() == Next(limits, old(View()), Action.Send(body))
      ensures outcome == (if |body| > limits.maxBody then TooLarge else if old(closing) then TransportClosed
                          else if old(active).None? then NoOwner else Sent)
    {
      hide Invariant;
      if |body| > limits.maxBody {
        return TooLarge;
      }
      if closing {
        return TransportClosed;
      }
      if active.None? {
        return NoOwner;
      }
      Answer(Some(body));
      outcome := Sent;
    }

    method FinishNotification()
      requires Valid()
      modifies this
      ensures Valid() && View() == Next(limits, old(View()), Action.FinishNotification)
    {
      hide Invariant;
      if active.Some? {
        Answer(None);
      }
    }

    /** Fail every waiting request and drop the queue. */
    method Close()
      requires Valid()
      modifies this
      ensures Valid() && View() == Shut(old(View()))
    {
      hide Invariant;
      ShutKeeps(limits, View());
      StillBooked(limits, View());
      closing := true;
      ready := ready.Set();
      var left := pending;
      while left != {}
        invariant left <= pending && futures.Keys == old(futures).Keys
        invariant forall r :: r in futures ==>
          futures[r] == (if r in pending && r !in left && old(futures)[r] == Open then Failed else old(futures)[r])
        invariant pending == old(pending) && principals == old(principals)
        invariant closing && ready == old(ready).Set() && log == old(log)
        decreases left
      {
        var r :| r in left;
        if futures[r] == Open {
          futures := futures[r := Failed];
        }
        left := left - {r};
      }
      assert futures == FailPending(old(View()));
      queue, queuedBytes, active := [], 0, None;
      log := log + [Closed];
    }
  }
}
