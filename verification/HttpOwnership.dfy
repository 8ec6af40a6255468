/** The HTTP server transport: many concurrent requests behind a one-at-a-time recv/send API.

    A request's handler reserves a place, reads its body, queues it and waits on its own
    future.  It may give up at any point.  A wait that is cancelled finishes the future at
    once, but the handler's own cleanup runs only later; in between the request is finished
    yet still queued. */
module HttpOwnership {
  import opened Messages

  type Request = nat

  type Body = seq<bv8>

  /** A response future; `Answered(None)` is the empty 204 reply. */
  datatype Future = Open | Answered(body: Option<Body>) | Failed | Cancelled

  datatype Queued = Queued(body: Body, request: Request)

  /** The request `recv` handed out and its identity. */
  datatype Claim = Claim(request: Request, principal: Option<string>)

  /** The `ready` event and the one `recv` that may be running. */
  datatype Receiver = Idle | Parked | Woken

  datatype Ready = Ready(flag: bool, receiver: Receiver)
  {
    function Set(): Ready
    {
      if flag then this else Ready(true, if receiver.Parked? then Woken else receiver)
    }
  }

  datatype Event = Handed(request: Request) | Replied(body: Option<Body>) | Closed

  datatype Limits = Limits(maxPending: nat, maxBody: nat, maxQueueBytes: nat)

  /** `pending` holds the admitted requests, `principals` those whose body has been queued;
      both until the handler's cleanup. */
  datatype State = State(
    pending: set<Request>, principals: map<Request, Option<string>>, queue: seq<Queued>, queuedBytes: int,
    active: Option<Claim>, ready: Ready, closing: bool, futures: map<Request, Future>, log: seq<Event>)

  const INITIAL := State({}, map[], [], 0, None, Ready(false, Idle), false, map[], [])

  // ----- Steps -----

  predicate IsOpen(s: State, r: Request)
  {
    r in s.futures && s.futures[r] == Open
  }

  function Settle(s: State, r: Request, outcome: Future): State
  {
    if IsOpen(s, r) then s.(futures := s.futures[r := outcome]) else s
  }

  function Admit(limits: Limits, s: State, r: Request): State
  {
    if s.closing || |s.pending| >= limits.maxPending then s
    else s.(pending := s.pending + {r}, futures := s.futures[r := Open])
  }

  function TotalBytes(queue: seq<Queued>): nat
  {
    if queue == [] then 0 else |queue[0].body| + TotalBytes(queue[1..])
  }

  /** Where a request stands in the queue, or the queue's length. */
  function IndexOf(queue: seq<Queued>, r: Request): (i: nat)
    ensures i <= |queue| && (i < |queue| ==> queue[i].request == r)
    ensures forall j :: 0 <= j < i ==> queue[j].request != r
  {
    if queue == [] || queue[0].request == r then 0 else 1 + IndexOf(queue[1..], r)
  }

  function QueueWithout(queue: seq<Queued>, r: Request): seq<Queued>
  {
    var i := IndexOf(queue, r);
    if i < |queue| then queue[..i] + queue[i + 1..] else queue
  }

  function BodySize(queue: seq<Queued>, r: Request): nat
  {
    var i := IndexOf(queue, r);
    if i < |queue| then |queue[i].body| else 0
  }

  /** A handler's cleanup: it leaves all books, cancels an unfinished future, and takes its
      entry back if `recv` has not taken it. */
  function Cleanup(s: State, r: Request): State
  {
    Settle(s, r, Cancelled).(
      pending := s.pending - {r}, principals := s.principals - {r},
      queue := QueueWithout(s.queue, r),
      queuedBytes := s.queuedBytes - BodySize(s.queue, r))
  }

  /** A handler has its body: queue it, or fail and clean up. */
  function Enqueue(limits: Limits, s: State, r: Request, principal: Option<string>, body: Body): State
  {
    if s.closing || |body| > limits.maxBody || s.queuedBytes + |body| > limits.maxQueueBytes then Cleanup(s, r)
    else s.(principals := s.principals[r := principal], queuedBytes := s.queuedBytes + |body|,
            queue := s.queue + [Queued(body, r)], ready := s.ready.Set())
  }

  /** The first queued request that has not finished, or the queue's length. */
  function FirstOpen(s: State, queue: seq<Queued>): (i: nat)
    ensures i <= |queue| && (i < |queue| ==> IsOpen(s, queue[i].request))
    ensures forall j :: 0 <= j < i ==> !IsOpen(s, queue[j].request)
  {
    if queue == [] || IsOpen(s, queue[0].request) then 0 else 1 + FirstOpen(s, queue[1..])
  }

  datatype RecvOutcome = Received(body: Body) | LookupFailed | ConnectionClosed | Waiting | OutOfTurn

  /** One pass through the loop of `recv`. */
  function RecvPass(s: State): (State, RecvOutcome)
  {
    if s.closing then (s.(ready := s.ready.(receiver := Idle)), ConnectionClosed)
    else
      var i := FirstOpen(s, s.queue);
      if i < |s.queue| then
        var r := s.queue[i].request;
        var principal := if r in s.principals then s.principals[r] else None;
        (s.(queue := s.queue[i + 1..], queuedBytes := s.queuedBytes - TotalBytes(s.queue[..i + 1]),
            active := Some(Claim(r, principal)), ready := s.ready.(receiver := Idle), log := s.log + [Handed(r)]),
         if r in s.principals then Received(s.queue[i].body) else LookupFailed)
      else (s.(queue := [], queuedBytes := s.queuedBytes - TotalBytes(s.queue), ready := Ready(false, Parked)), Waiting)
  }

  /** Answer the claimed request, if it is still waiting for its answer. */
  function Respond(s: State, body: Option<Body>): State
    requires s.active.Some?
  {
    Settle(s, s.active.value.request, Answered(body)).(active := None, log := s.log + [Replied(body)])
  }

  /** Fail every pending request that has no outcome yet. */
  function FailPending(s: State): map<Request, Future>
  {
    map r | r in s.futures :: if r in s.pending && s.futures[r] == Open then Failed else s.futures[r]
  }

  function Shut(s: State): State
  {
    s.(closing := true, ready := s.ready.Set(), futures := FailPending(s), queue := [], queuedBytes := 0,
       active := None, log := s.log + [Closed])
  }

  // ----- Runs -----

  datatype Action =
    | Arrive(r: Request)
    | GiveUpReading(r: Request)
    | BodyRead(r: Request, principal: Option<string>, body: Body)
    | CancelWait(r: Request)
    | CleanUp(r: Request)
    | StartRecv
    | ResumeRecv
    | CancelRecv
    | Send(body: Body)
    | FinishNotification
    | Close

  /** Which actions can happen: a handler acts where it stands, `recv` resumes once woken.
      Calls that only raise, such as `recv` before the last answer, change nothing. */
  predicate Enabled(limits: Limits, s: State, a: Action)
  {
    match a
    case Arrive(r) => r !in s.futures
    case GiveUpReading(r) => r in s.pending && r !in s.principals
    case BodyRead(r, _, _) => r in s.pending && r !in s.principals
    case CancelWait(r) => r in s.principals && IsOpen(s, r)
    case CleanUp(r) => r in s.principals && !IsOpen(s, r)
    case StartRecv => s.ready.receiver.Idle? && s.active.None?
    case ResumeRecv => s.ready.receiver.Woken?
    case CancelRecv => !s.ready.receiver.Idle?
    case Send(body) => |body| <= limits.maxBody && !s.closing && s.active.Some?
    case FinishNotification => s.active.Some?
    case Close => true
  }

  function Next(limits: Limits, s: State, a: Action): State
  {
    if !Enabled(limits, s, a) then s
    else
      match a
      case Arrive(r) => Admit(limits, s, r)
      case GiveUpReading(r) => Cleanup(s, r)
      case BodyRead(r, principal, body) => Enqueue(limits, s, r, principal, body)
      case CancelWait(r) => Settle(s, r, Cancelled)
      case CleanUp(r) => Cleanup(s, r)
      case StartRecv => RecvPass(s).0
      case ResumeRecv => RecvPass(s).0
      case CancelRecv => s.(ready := s.ready.(receiver := Idle))
      case Send(body) => Respond(s, Some(body))
      case FinishNotification => Respond(s, None)
      case Close => Shut(s)
  }

  // ----- Invariants -----

  ghost predicate Distinct(queue: seq<Queued>)
  {
    forall i, j :: 0 <= i < j < |queue| ==> queue[i].request != queue[j].request
  }

  /** Queued bodies belong to waiting handlers, one each; the byte total is theirs. */
  ghost predicate Accounted(limits: Limits, s: State)
  {
    && s.queuedBytes == TotalBytes(s.queue) <= limits.maxQueueBytes
    && |s.pending| <= limits.maxPending
    && (forall q :: q in s.queue ==> q.request in s.principals)
    && Distinct(s.queue)
    && s.principals.Keys <= s.pending <= s.futures.Keys
  }

  /** The request that owns the next answer, going by the log. */
  function Owner(log: seq<Event>): Option<Request>
  {
    if log != [] && log[|log| - 1].Handed? then Some(log[|log| - 1].request) else None
  }

  ghost predicate WasHanded(log: seq<Event>, r: Request)
  {
    exists i :: 0 <= i < |log| && log[i] == Handed(r)
  }

  /** The answer is the one sent right after the request was handed out. */
  ghost predicate OwnAnswer(log: seq<Event>, r: Request, body: Option<Body>)
  {
    exists i :: 0 <= i < |log| - 1 && log[i] == Handed(r) && log[i + 1] == Replied(body)
  }

  /** A request is handed out at most once, only after it was queued, and answered only by
      its owner's answer. */
  ghost predicate Owned(s: State)
  {
    && Owner(s.log) == (if s.active.Some? then Some(s.active.value.request) else None)
    && (forall i, j :: 0 <= i < j < |s.log| && s.log[i].Handed? ==> s.log[i] != s.log[j])
    && (forall r :: WasHanded(s.log, r) ==>
          r in s.futures && (r in s.pending ==> r in s.principals) && forall q :: q in s.queue ==> q.request != r)
    && (forall r :: r in s.futures && s.futures[r].Answered? ==> OwnAnswer(s.log, r, s.futures[r].body))
    && (forall i :: 0 <= i < |s.log| && s.log[i].Replied? ==> i > 0 && s.log[i - 1].Handed?)
  }

  /** Finished handlers leave no open future; closing leaves nothing to hand out or answer;
      a parked `recv` has nothing to receive. */
  ghost predicate Settled(s: State)
  {
    && (forall r :: IsOpen(s, r) ==> r in s.pending)
    && (s.closing ==> s.queue == [] && s.active.None? && forall r :: r in s.futures ==> !IsOpen(s, r))
    && (s.ready.receiver.Parked? ==> !s.ready.flag && s.queue == [] && !s.closing)
    && (s.active.Some? ==> s.ready.receiver.Idle?)
  }

  ghost predicate Invariant(limits: Limits, s: State)
  {
    Accounted(limits, s) && Owned(s) && Settled(s)
  }

  // ----- Every step keeps them -----

  lemma {:induction false} TotalSplit(a: seq<Queued>, b: seq<Queued>)
    ensures TotalBytes(a + b) == TotalBytes(a) + TotalBytes(b)
  {
    if a == [] {
      assert a + b == b;
    } else {
      assert (a + b)[1..] == a[1..] + b;
      TotalSplit(a[1..], b);
    }
  }

  lemma LogGrows(log: seq<Event>, e: Event)
    ensures forall r :: WasHanded(log + [e], r) <==> WasHanded(log, r) || e == Handed(r)
    ensures forall r, body :: OwnAnswer(log, r, body) ==> OwnAnswer(log + [e], r, body)
  {
    forall r | WasHanded(log, r) ensures WasHanded(log + [e], r) {
      var i :| 0 <= i < |log| && log[i] == Handed(r);
      assert (log + [e])[i] == Handed(r);
    }
    forall r | e == Handed(r) ensures WasHanded(log + [e], r) {
      assert (log + [e])[|log|] == Handed(r);
    }
    forall r, body | OwnAnswer(log, r, body) ensures OwnAnswer(log + [e], r, body) {
      var i :| 0 <= i < |log| - 1 && log[i] == Handed(r) && log[i + 1] == Replied(body);
      assert (log + [e])[i] == Handed(r) && (log + [e])[i + 1] == Replied(body);
    }
  }

  lemma AdmitKeeps(limits: Limits, s: State, r: Request)
    requires Invariant(limits, s) && r !in s.futures
    ensures Invariant(limits, Admit(limits, s, r))
  {
  }

  lemma RemovedBytes(queue: seq<Queued>, r: Request)
    ensures TotalBytes(QueueWithout(queue, r)) == TotalBytes(queue) - BodySize(queue, r)
  {
    var i := IndexOf(queue, r);
    if i < |queue| {
      assert queue == queue[..i] + ([queue[i]] + queue[i + 1..]);
      TotalSplit(queue[..i], [queue[i]] + queue[i + 1..]);
      TotalSplit([queue[i]], queue[i + 1..]);
      TotalSplit(queue[..i], queue[i + 1..]);
    }
  }

  lemma RemovedEntry(queue: seq<Queued>, r: Request)
    requires Distinct(queue)
    ensures Distinct(QueueWithout(queue, r))
    ensures forall q :: q in QueueWithout(queue, r) ==> q in queue && q.request != r
  {
    var i, left := IndexOf(queue, r), QueueWithout(queue, r);
    if i < |queue| {
      forall k | 0 <= k < |left|
        ensures left[k] == queue[if k < i then k else k + 1] && left[k].request != r
      {
      }
    }
  }

  lemma CleanupAccounted(limits: Limits, s: State, r: Request)
    requires Accounted(limits, s) && r in s.pending
    ensures Accounted(limits, Cleanup(s, r))
    ensures forall q :: q in Cleanup(s, r).queue ==> q in s.queue
  {
    RemovedBytes(s.queue, r);
    RemovedEntry(s.queue, r);
    assert forall q :: q in QueueWithout(s.queue, r) ==> q.request in s.principals && q.request != r;
  }

  lemma CleanupKeeps(limits: Limits, s: State, r: Request)
    requires Invariant(limits, s) && r in s.pending
    ensures Invariant(limits, Cleanup(s, r))
  {
    CleanupAccounted(limits, s, r);
    assert Owned(Cleanup(s, r)) && Settled(Cleanup(s, r));
  }

  lemma EnqueueKeeps(limits: Limits, s: State, r: Request, principal: Option<string>, body: Body)
    requires Invariant(limits, s) && r in s.pending && r !in s.principals
    ensures Invariant(limits, Enqueue(limits, s, r, principal, body))
  {
    var t := Enqueue(limits, s, r, principal, body);
    if s.closing || |body| > limits.maxBody || s.queuedBytes + |body| > limits.maxQueueBytes {
      CleanupKeeps(limits, s, r);
    } else {
      TotalSplit(s.queue, [Queued(body, r)]);
      assert forall q :: q in s.queue ==> q.request != r;
      assert !WasHanded(s.log, r);
      assert Accounted(limits, t) && Owned(t) && Settled(t);
    }
  }

  lemma RecvAccounted(limits: Limits, s: State)
    requires Accounted(limits, s)
    ensures Accounted(limits, RecvPass(s).0)
  {
    var i := FirstOpen(s, s.queue);
    if i < |s.queue| {
      assert s.queue == s.queue[..i + 1] + s.queue[i + 1..];
      TotalSplit(s.queue[..i + 1], s.queue[i + 1..]);
    }
  }

  lemma HandedOwned(s: State, t: State, r: Request)
    requires Owned(s) && s.active.None? && !WasHanded(s.log, r)
    requires r in s.futures && r in s.principals
    requires t.log == s.log + [Handed(r)] && t.active.Some? && t.active.value.request == r
    requires t.futures == s.futures && t.pending == s.pending && t.principals == s.principals
    requires forall q :: q in t.queue ==> q in s.queue && q.request != r
    ensures Owned(t)
  {
    LogGrows(s.log, Handed(r));
  }

  lemma RecvKeeps(limits: Limits, s: State)
    requires Invariant(limits, s) && s.active.None?
    ensures Invariant(limits, RecvPass(s).0)
  {
    RecvAccounted(limits, s);
    var t, i := RecvPass(s).0, FirstOpen(s, s.queue);
    if !s.closing && i < |s.queue| {
      var r := s.queue[i].request;
      assert s.queue[i] in s.queue && !WasHanded(s.log, r);
      forall q | q in t.queue ensures q in s.queue && q.request != r {
        var j :| 0 <= j < |t.queue| && t.queue[j] == q;
        assert q == s.queue[i + 1 + j];
      }
      HandedOwned(s, t, r);
    }
  }

  lemma RespondOwned(s: State, body: Option<Body>)
    requires Owned(s) && s.active.Some?
    ensures Owned(Respond(s, body))
  {
    var r, t := s.active.value.request, Respond(s, body);
    LogGrows(s.log, Replied(body));
    assert t.log[|s.log| - 1] == Handed(r) && t.log[|s.log|] == Replied(body);
    assert OwnAnswer(t.log, r, body);
  }

  lemma RespondKeeps(limits: Limits, s: State, body: Option<Body>)
    requires Invariant(limits, s) && s.active.Some?
    ensures Invariant(limits, Respond(s, body))
  {
    hide Owned;
    RespondOwned(s, body);
    assert Accounted(limits, Respond(s, body));
  }

  lemma ShutKeeps(limits: Limits, s: State)
    requires Invariant(limits, s)
    ensures Invariant(limits, Shut(s))
  {
    LogGrows(s.log, Closed);
    assert Owned(Shut(s));
  }

  lemma NextKeeps(limits: Limits, s: State, a: Action)
    requires Invariant(limits, s)
    ensures Invariant(limits, Next(limits, s, a))
  {
    if Enabled(limits, s, a) {
      match a {
        case Arrive(r) => AdmitKeeps(limits, s, r);
        case GiveUpReading(r) => CleanupKeeps(limits, s, r);
        case BodyRead(r, principal, body) => EnqueueKeeps(limits, s, r, principal, body);
        case CancelWait(r) =>
        case CleanUp(r) => CleanupKeeps(limits, s, r);
        case StartRecv => RecvKeeps(limits, s);
        case ResumeRecv => RecvKeeps(limits, s);
        case CancelRecv =>
        case Send(body) => RespondKeeps(limits, s, Some(body));
        case FinishNotification => RespondKeeps(limits, s, None);
        case Close => ShutKeeps(limits, s);
      }
    }
  }

  // ----- Every run -----

  ghost predicate IsRun(limits: Limits, states: seq<State>, actions: seq<Action>)
  {
    && |states| == |actions| + 1 && states[0] == INITIAL
    && forall i :: 0 <= i < |actions| ==> states[i + 1] == Next(limits, states[i], actions[i])
  }

  lemma {:induction false} ReachableInvariant(limits: Limits, states: seq<State>, actions: seq<Action>, k: nat)
    requires IsRun(limits, states, actions) && k < |states|
    ensures Invariant(limits, states[k])
  {
    if k > 0 {
      ReachableInvariant(limits, states, actions, k - 1);
      NextKeeps(limits, states[k - 1], actions[k - 1]);
    }
  }

  /** `recv` never misses the identity of the request it takes. */
  lemma RecvFindsThePrincipal(limits: Limits, states: seq<State>, actions: seq<Action>, k: nat)
    requires IsRun(limits, states, actions) && k < |states|
    ensures RecvPass(states[k]).1 != LookupFailed
  {
    ReachableInvariant(limits, states, actions, k);
    var s := states[k];
    var i := FirstOpen(s, s.queue);
    assert i < |s.queue| ==> s.queue[i] in s.queue;
  }

  /** Only the owner of an answer is answered: `send` and `finish_notification` change at
      most the future of the request `recv` handed out last, and only if it is unfinished. */
  lemma AnswersGoToTheOwner(limits: Limits, s: State, a: Action, r: Request)
    requires Invariant(limits, s) && r in s.futures
    requires Next(limits, s, a).futures[r] != s.futures[r]
    ensures IsOpen(s, r)
    ensures Next(limits, s, a).futures[r].Answered? ==>
      && s.active.Some? && s.active.value.request == r && Owner(s.log) == Some(r)
      && a == (match Next(limits, s, a).futures[r].body case Some(body) => Send(body) case None => FinishNotification)
  {
  }

  /** A finished request is never handed out: what `recv` hands out is pending, unfinished,
      and comes with the identity it was queued with. */
  lemma HandsOutOnlyUnfinished(limits: Limits, s: State, a: Action, r: Request)
    requires Invariant(limits, s) && Next(limits, s, a).log == s.log + [Handed(r)]
    ensures IsOpen(s, r) && r in s.pending && r in s.principals && !WasHanded(s.log, r)
    ensures Next(limits, s, a).active == Some(Claim(r, s.principals[r]))
    ensures exists i :: 0 <= i < |s.queue| && s.queue[i].request == r
              && forall j :: 0 <= j < i ==> !IsOpen(s, s.queue[j].request)
  {
    var i := FirstOpen(s, s.queue);
    assert (s.log + [Handed(r)])[|s.log|] == Handed(r);
    assert a.StartRecv? || a.ResumeRecv?;
    assert (s.log + [Handed(s.queue[i].request)])[|s.log|] == Handed(r);
  }

  /** In every reachable state an answered request holds the bytes sent right after `recv`
      handed it out, it was handed out once, and no other answer can be its own. */
  lemma ResponseOwnership(limits: Limits, states: seq<State>, actions: seq<Action>, k: nat, r: Request)
    requires IsRun(limits, states, actions) && k < |states|
    requires r in states[k].futures && states[k].futures[r].Answered?
    ensures OwnAnswer(states[k].log, r, states[k].futures[r].body)
    ensures forall body :: OwnAnswer(states[k].log, r, body) ==> body == states[k].futures[r].body
  {
    ReachableInvariant(limits, states, actions, k);
    var log := states[k].log;
    forall body | OwnAnswer(log, r, body) ensures body == states[k].futures[r].body {
      var i :| 0 <= i < |log| - 1 && log[i] == Handed(r) && log[i + 1] == Replied(body);
      var j :| 0 <= j < |log| - 1 && log[j] == Handed(r) && log[j + 1] == Replied(states[k].futures[r].body);
      assert i == j;
    }
  }
}
