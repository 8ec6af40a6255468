/** What each step of the client's channel does, and that closing it is final. */
module ChannelLaws {
  import opened Messages
  import opened ClientChannel

  // ----- Closing -----

  /** Once closed, always closed, and no exchange begins. */
  lemma StaysClosed(s: State, a: Action)
    requires s.closed
    ensures Next(s, a).closed && Next(s, a).sends == s.sends
    ensures Next(s, a).lock.Some? ==> s.lock.Some? && Next(s, a).lock.value.number == s.lock.value.number
  {
  }

  lemma {:induction false} ClosedForGood(run: seq<Action>, later: seq<Action>)
    requires After(run).closed
    ensures After(run + later).closed && After(run + later).sends == After(run).sends
    decreases |later|
  {
    hide Next;
    if later == [] {
      assert run + later == run;
    } else {
      var n := |later| - 1;
      assert (run + later)[..|run + later| - 1] == run + later[..n];
      assert (run + later)[|run + later| - 1] == later[n];
      ClosedForGood(run, later[..n]);
      StaysClosed(After(run + later[..n]), later[n]);
    }
  }

  lemma CloseStep(run: seq<Action>)
    ensures var s, t := After(run), After(run + [UserClose]);
      t.closed && t.sends == s.sends && t.toServer == s.toServer && t.lock == s.lock
  {
    assert (run + [UserClose])[..|run|] == run;
  }

  /** After the user closes the client no request is ever begun; and if none was just being
      sent, the server gets nothing that was not on its way. */
  lemma CloseIsFinal(run: seq<Action>, later: seq<Action>)
    ensures After(run + [UserClose] + later).closed
    ensures After(run + [UserClose] + later).sends == After(run).sends
    ensures (After(run).lock.Some? ==> !After(run).lock.value.phase.Sending?) ==>
      IsSuffix(After(run + [UserClose] + later).toServer, After(run).toServer)
  {
    CloseStep(run);
    ClosedForGood(run + [UserClose], later);
    if After(run).lock.Some? ==> !After(run).lock.value.phase.Sending? {
      DeadChannelSendsNothing(run + [UserClose], later);
    }
  }

  // ----- Beginning an exchange -----

  /** A task that gets the lock of an open client holds it for its exchange, and sends exactly
      one request, numbered after all before it, unless it only listens. */
  lemma EnterLaw(run: seq<Action>, t: Task, kind: Kind)
    requires Enabled(After(run), Acquire(t, kind))
    ensures var s, n := After(run), Next(After(run), Acquire(t, kind));
      && t !in n.waiting && n.waiting + {t} == s.waiting && n.toServer == s.toServer && n.inbox == s.inbox
      && if s.closed then n.lock.None? && n.sends == s.sends
         else
           && n.lock == Some(Owner(t, kind, s.next, if kind.Listen? then Awaiting else Sending)) && n.next > s.next
           && n.sends == (if kind.Listen? then s.sends else s.sends + [s.next])
  {
  }

  ghost predicate SendsOrdered(s: State)
  {
    && (forall i, j :: 0 <= i < j < |s.sends| ==> s.sends[i] < s.sends[j])
    && (forall i :: 0 <= i < |s.sends| ==> s.sends[i] < s.next)
  }

  lemma StepKeepsOrder(s: State, a: Action)
    requires SendsOrdered(s)
    ensures SendsOrdered(Next(s, a))
  {
    if Enabled(s, a) && a.Acquire? {
      assert Next(s, a).sends == s.sends || Next(s, a).sends == s.sends + [s.next];
    } else {
      assert Next(s, a).sends == s.sends && Next(s, a).next == s.next;
    }
  }

  /** Numbers begun are used once, in increasing order. */
  lemma {:induction false} SendsIncrease(run: seq<Action>)
    ensures SendsOrdered(After(run))
  {
    hide Next;
    if run != [] {
      SendsIncrease(run[..|run| - 1]);
      StepKeepsOrder(After(run[..|run| - 1]), run[|run| - 1]);
    }
  }

  /** Asking puts a task in line, and only acquiring the lock or giving up takes it out. */
  lemma WaitersLaw(s: State, a: Action, t: Task)
    ensures t in Next(s, a).waiting <==>
      a == Ask(t) || (t in s.waiting && a != GiveUpWaiting(t) && !(Enabled(s, a) && a.Acquire? && a.t == t))
  {
  }

  /** The lock passes only from nobody to the task that acquires it, and back to nobody. */
  lemma LockLaw(s: State, a: Action)
    requires s.lock.Some?
    ensures Next(s, a).lock.Some? ==>
      Next(s, a).lock.value.task == s.lock.value.task && Next(s, a).lock.value.number == s.lock.value.number
    ensures a.Aborted? && s.lock.value.phase.Aborting? ==> Next(s, a).lock.None?
    ensures s.lock.value.phase.Aborting? && !a.Aborted? ==> Next(s, a).lock == s.lock
  {
  }

  // ----- Sending and being served -----

  /** A request that is sent joins those on their way, last; a one-way exchange is then over,
      any other waits. */
  lemma SentLaw(s: State, verdict: Verdict)
    requires Enabled(s, Sent(verdict))
    ensures var n, o := Next(s, Sent(verdict)), s.lock.value;
      && n.toServer == s.toServer + [Request(o.number, o.kind, verdict)] && n.closed == s.closed
      && (n.lock.None? <==> o.kind.OneWay?)
      && (n.lock.Some? ==> n.lock.value.phase.Awaiting?)
      && n.strays == s.strays + (if o.kind.OneWay? && !verdict.Served? then 1 else 0)
  {
  }

  /** The server takes requests in order and answers each, unless it simply serves a one-way one. */
  lemma ServeLaw(s: State)
    requires s.toServer != []
    ensures var n, r := Next(s, Serve), s.toServer[0];
      && n.toServer == s.toServer[1..]
      && n.inbox == s.inbox + (if r.kind.OneWay? && r.verdict.Served? then [] else [Reply(Answer(r.number, r.verdict))])
  {
  }

  // ----- Reading -----

  /** A pushed notification is handed on: a listener is done with it, anyone else goes on
      waiting; a malformed one breaks the channel. */
  lemma PushLaw(s: State)
    requires Enabled(s, Receive) && s.inbox[0].Push?
    ensures var n, o := Next(s, Receive), s.lock.value;
      && n.inbox == s.inbox[1..]
      && if !s.inbox[0].wellFormed then Dead(n) && n.lock.Some?
         else if o.kind.Listen? then n.lock.None? && n.closed == s.closed
         else n.lock == s.lock && n.closed == s.closed
  {
  }

  /** A call ends with its own response, and a batch with its own list or anyone's error; a
      one-way exchange reads nothing. */
  lemma TakenLaw(s: State)
    requires Enabled(s, Receive) && s.inbox[0].Reply? && Next(s, Receive).lock.None?
    ensures var o, answer := s.lock.value, s.inbox[0].answer;
      && Next(s, Receive).inbox == s.inbox[1..] && Next(s, Receive).closed == s.closed
      && (o.kind.Call? || o.kind.Batch?)
      && (answer == Answer(o.number, Served) || (o.kind.Batch? && answer.verdict.Refused?))
  {
  }

  /** A pushed notification arrives after everything already there. */
  lemma PushedLaw(s: State, wellFormed: bool)
    ensures Next(s, PushNotification(wellFormed)) == s.(inbox := s.inbox + [Push(wellFormed)])
  {
  }

  /** A listener takes no answer for a notification. */
  lemma ListenerLaw(s: State)
    requires Enabled(s, Receive) && s.lock.value.kind.Listen? && s.inbox[0].Reply?
    ensures Dead(Next(s, Receive)) && Next(s, Receive).lock.Some?
  {
  }

  /** A failure, wherever it strikes, closes the client at once. */
  lemma FailLaw(s: State, delivered: bool, verdict: Verdict)
    requires Enabled(s, Fail(delivered, verdict))
    ensures var n := Next(s, Fail(delivered, verdict));
      && Dead(n) && n.lock.Some? && n.lock.value.phase.Aborting? && n.sends == s.sends && n.inbox == s.inbox
      && n.toServer == s.toServer + (if delivered && s.lock.value.phase.Sending?
                                     then [Request(s.lock.value.number, s.lock.value.kind, verdict)] else [])
  {
  }
}
