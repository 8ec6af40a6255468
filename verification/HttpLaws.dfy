/** What each step of the HTTP transport promises a client, and, over every run, that `recv`
    returns the body of the very request it claims. */
module HttpLaws {
  import opened Messages
  import opened HttpOwnership

  // ----- What recv returns -----

  /** A `recv`, started or resumed, that comes to this outcome. */
  predicate Recvs(limits: Limits, s: State, a: Action, outcome: RecvOutcome)
  {
    (a.StartRecv? || a.ResumeRecv?) && Enabled(limits, s, a) && RecvPass(s).1 == outcome
  }

  /** The body and identity of request r were read by its own handler before step k. */
  ghost predicate WasRead(
      limits: Limits, states: seq<State>, actions: seq<Action>, k: nat,
      r: Request, principal: Option<string>, body: Body)
    requires k <= |actions| < |states|
  {
    exists i :: 0 <= i < k && actions[i] == BodyRead(r, principal, body) && Enabled(limits, states[i], actions[i])
  }

  /** An entry of the queue was there before, with the same identity, or has just been read. */
  lemma QueueStep(limits: Limits, s: State, a: Action, q: Queued)
    requires Invariant(limits, s) && q in Next(limits, s, a).queue
    ensures q.request in Next(limits, s, a).principals
    ensures var principal := Next(limits, s, a).principals[q.request];
      if q in s.queue then q.request in s.principals && principal == s.principals[q.request]
      else Enabled(limits, s, a) && a == BodyRead(q.request, principal, q.body)
  {
    hide Owned, Settled;
    if !Enabled(limits, s, a) {
    } else if a.GiveUpReading? || a.CleanUp? {
      CleanupLeaves(limits, s, a.r, q);
    } else if a.BodyRead? {
      ReadLeaves(limits, s, a, q);
    } else if a.StartRecv? || a.ResumeRecv? {
      assert q in s.queue;
    }
  }

  lemma CleanupLeaves(limits: Limits, s: State, r: Request, q: Queued)
    requires Accounted(limits, s) && q in Cleanup(s, r).queue
    ensures q in s.queue && q.request in s.principals && q.request in Cleanup(s, r).principals
    ensures Cleanup(s, r).principals[q.request] == s.principals[q.request]
  {
    RemovedEntry(s.queue, r);
  }

  lemma ReadLeaves(limits: Limits, s: State, a: Action, q: Queued)
    requires Accounted(limits, s) && a.BodyRead? && Enabled(limits, s, a) && q in Next(limits, s, a).queue
    ensures q.request in Next(limits, s, a).principals
    ensures var principal := Next(limits, s, a).principals[q.request];
      if q in s.queue then q.request in s.principals && principal == s.principals[q.request]
      else a == BodyRead(q.request, principal, q.body)
  {
    if s.closing || |a.body| > limits.maxBody || s.queuedBytes + |a.body| > limits.maxQueueBytes {
      CleanupLeaves(limits, s, a.r, q);
    }
  }

  lemma {:induction false} QueueWasRead(limits: Limits, states: seq<State>, actions: seq<Action>, k: nat, q: Queued)
    requires IsRun(limits, states, actions) && k < |states| && q in states[k].queue
    ensures q.request in states[k].principals
    ensures WasRead(limits, states, actions, k, q.request, states[k].principals[q.request], q.body)
  {
    hide Next, Invariant, Enabled;
    if k > 0 {
      ReachableInvariant(limits, states, actions, k - 1);
      QueueStep(limits, states[k - 1], actions[k - 1], q);
      if q in states[k - 1].queue {
        QueueWasRead(limits, states, actions, k - 1, q);
      }
    }
  }

  /** Over every run: the body `recv` returns, and the identity it claims, are those the
      claimed request's own handler read. */
  lemma RecvReturnsItsOwnBody(limits: Limits, states: seq<State>, actions: seq<Action>, k: nat, body: Body)
    requires IsRun(limits, states, actions) && k < |actions|
    requires Recvs(limits, states[k], actions[k], Received(body))
    ensures states[k + 1].active.Some?
    ensures var claim := states[k + 1].active.value;
      WasRead(limits, states, actions, k, claim.request, claim.principal, body)
  {
    var s := states[k];
    ReachableInvariant(limits, states, actions, k);
    var i := FirstOpen(s, s.queue);
    assert s.queue[i] in s.queue;
    QueueWasRead(limits, states, actions, k, s.queue[i]);
  }

  /** `recv` returns a body exactly if the transport is open and an unfinished request is
      queued, fails exactly if it is closing, and waits otherwise. */
  lemma RecvOutcomes(limits: Limits, s: State)
    requires Invariant(limits, s)
    ensures RecvPass(s).1.Received? <==> !s.closing && exists q :: q in s.queue && IsOpen(s, q.request)
    ensures RecvPass(s).1.ConnectionClosed? <==> s.closing
    ensures !RecvPass(s).1.Received? && !s.closing ==> RecvPass(s).1.Waiting? && RecvPass(s).0.ready.receiver.Parked?
  {
    var i := FirstOpen(s, s.queue);
    if i < |s.queue| {
      assert s.queue[i] in s.queue;
    } else {
      forall q | q in s.queue ensures !IsOpen(s, q.request) {
        var j :| 0 <= j < |s.queue| && s.queue[j] == q;
      }
    }
  }

  /** A waiting `recv` goes on waiting, or is woken, until it runs on or is cancelled. */
  lemma ReceiverIsKept(limits: Limits, s: State, a: Action)
    requires Invariant(limits, s) && !s.ready.receiver.Idle? && !a.ResumeRecv? && !a.CancelRecv?
    ensures !Next(limits, s, a).ready.receiver.Idle?
    ensures s.ready.receiver.Woken? ==> Next(limits, s, a).ready.receiver.Woken?
    ensures Next(limits, s, a).queue != [] && s.ready.receiver.Parked? ==> Next(limits, s, a).ready.receiver.Woken?
  {
    NextKeeps(limits, s, a);
  }

  /** A cancelled `recv` waits no longer, and changes nothing else. */
  lemma RecvCancelled(limits: Limits, s: State)
    requires !s.ready.receiver.Idle?
    ensures Next(limits, s, CancelRecv) == s.(ready := s.ready.(receiver := Idle))
  {
  }

  /** `recv` runs exactly if no other does and no answer is owed. */
  lemma RecvRunsIff(limits: Limits, s: State)
    ensures Next(limits, s, StartRecv) ==
      if s.ready.receiver.Idle? && s.active.None? then RecvPass(s).0 else s
    ensures s.ready.receiver.Woken? ==> Next(limits, s, ResumeRecv) == RecvPass(s).0
  {
  }

  // ----- Requests -----

  /** A request is admitted exactly if the transport is open and has room for it. */
  lemma AdmittedIff(limits: Limits, s: State, r: Request)
    requires Invariant(limits, s) && r !in s.futures
    ensures var t := Next(limits, s, Arrive(r));
      && (r in t.pending <==> !s.closing && |s.pending + {r}| <= limits.maxPending)
      && t.pending - {r} == s.pending
      && (r in t.pending ==> IsOpen(t, r))
  {
    assert |s.pending + {r}| == |s.pending| + 1;
  }

  /** Its body is queued last exactly if the transport is open and both sizes allow it;
      otherwise the request is over and leaves no trace. */
  lemma QueuedIff(limits: Limits, s: State, r: Request, principal: Option<string>, body: Body)
    requires Invariant(limits, s) && r in s.pending && r !in s.principals
    ensures var t, entry := Next(limits, s, BodyRead(r, principal, body)), Queued(body, r);
      if !s.closing && |body| <= limits.maxBody && TotalBytes(s.queue + [entry]) <= limits.maxQueueBytes then
        t.queue == s.queue + [entry] && r in t.principals && t.principals[r] == principal && r in t.pending
      else t.queue == s.queue && r !in t.pending && !IsOpen(t, r)
  {
    TotalSplit(s.queue, [Queued(body, r)]);
    NotQueued(s.queue, r);
  }

  lemma NotQueued(queue: seq<Queued>, r: Request)
    requires forall q :: q in queue ==> q.request != r
    ensures QueueWithout(queue, r) == queue
  {
    var i := IndexOf(queue, r);
    assert i < |queue| ==> exists q :: q in queue && q.request == r;
  }

  /** A handler that gives up, at any point, is done: nobody can answer it any more, and once
      it has cleaned up it is on no book. */
  lemma GivenUp(limits: Limits, s: State, a: Action)
    requires Invariant(limits, s) && Enabled(limits, s, a) && (a.GiveUpReading? || a.CancelWait? || a.CleanUp?)
    ensures var t := Next(limits, s, a);
      && !IsOpen(t, a.r)
      && (IsOpen(s, a.r) ==> t.futures[a.r] == Cancelled)
      && (!a.CancelWait? ==> a.r !in t.pending && a.r !in t.principals && forall q :: q in t.queue ==> q.request != a.r)
      && (forall r :: r != a.r ==> (r in t.pending <==> r in s.pending) && (r in t.principals <==> r in s.principals))
      && (forall q :: q in s.queue && q.request != a.r ==> q in t.queue)
  {
    if !a.CancelWait? {
      RemovedEntry(s.queue, a.r);
      forall q | q in s.queue && q.request != a.r ensures q in QueueWithout(s.queue, a.r) {
        OthersStay(s.queue, a.r, q);
      }
    }
  }

  lemma OthersStay(queue: seq<Queued>, r: Request, q: Queued)
    requires q in queue && q.request != r
    ensures q in QueueWithout(queue, r)
  {
    var i, j :| i == IndexOf(queue, r) && 0 <= j < |queue| && queue[j] == q;
    if i < |queue| {
      assert QueueWithout(queue, r)[if j < i then j else j - 1] == q;
    }
  }

  // ----- Answers -----

  /** `send`, of a body within the limit while the transport is open, and
      `finish_notification` give the active request its answer if it still waits, and leave
      nobody active; any other `send` changes nothing. */
  lemma AnswerArrives(limits: Limits, s: State, a: Action)
    requires Invariant(limits, s) && s.active.Some? && (a.Send? || a.FinishNotification?)
    requires a.Send? ==> |a.body| <= limits.maxBody && !s.closing
    ensures var t, r := Next(limits, s, a), s.active.value.request;
      && t.active.None?
      && (IsOpen(s, r) ==> r in t.futures && t.futures[r] == Answered(if a.Send? then Some(a.body) else None))
  {
  }

  lemma RefusedSend(limits: Limits, s: State, body: Body)
    requires |body| > limits.maxBody || s.closing || s.active.None?
    ensures Next(limits, s, Send(body)) == s
  {
  }

  /** An outcome is final. */
  lemma {:induction false} OutcomesAreFinal(
      limits: Limits, states: seq<State>, actions: seq<Action>, j: nat, k: nat, r: Request)
    requires IsRun(limits, states, actions) && j <= k < |states|
    requires r in states[j].futures
    ensures r in states[k].futures && (!IsOpen(states[j], r) ==> states[k].futures[r] == states[j].futures[r])
    decreases k - j
  {
    if j < k {
      OutcomesAreFinal(limits, states, actions, j, k - 1, r);
      ReachableInvariant(limits, states, actions, k - 1);
      FuturesStay(limits, states[k - 1], actions[k - 1], r);
    }
  }

  lemma FuturesStay(limits: Limits, s: State, a: Action, r: Request)
    requires Invariant(limits, s) && r in s.futures
    ensures r in Next(limits, s, a).futures
    ensures !IsOpen(s, r) ==> Next(limits, s, a).futures[r] == s.futures[r]
  {
  }

  // ----- Closing -----

  /** Closing fails every waiting request and is for good: nothing is admitted, queued, handed
      out or answered any more. */
  lemma CloseFails(limits: Limits, s: State, r: Request)
    requires Invariant(limits, s)
    ensures var t := Next(limits, s, Close);
      && t.closing && t.queue == [] && t.active.None? && !t.ready.receiver.Parked?
      && (IsOpen(s, r) ==> r in t.futures && t.futures[r] == Failed)
  {
    ShutKeeps(limits, s);
  }

  lemma {:induction false} ClosedForGood(limits: Limits, states: seq<State>, actions: seq<Action>, j: nat, k: nat)
    requires IsRun(limits, states, actions) && j <= k < |states| && states[j].closing
    ensures states[k].closing && states[k].queue == [] && states[k].active.None?
    ensures states[k].pending <= states[j].pending
    ensures forall r :: !IsOpen(states[k], r)
    decreases k - j
  {
    hide Next, Accounted, Owned, IsOpen;
    ReachableInvariant(limits, states, actions, k);
    NothingLeft(states[k]);
    if j < k {
      ClosedForGood(limits, states, actions, j, k - 1);
      ReachableInvariant(limits, states, actions, k - 1);
      StaysClosed(limits, states[k - 1], actions[k - 1]);
    }
  }

  lemma NothingLeft(s: State)
    requires Settled(s)
    ensures s.closing ==> s.queue == [] && s.active.None? && forall r :: !IsOpen(s, r)
  {
  }

  lemma StaysClosed(limits: Limits, s: State, a: Action)
    requires Invariant(limits, s) && s.closing
    ensures Next(limits, s, a).closing && Next(limits, s, a).pending <= s.pending
  {
  }
}
