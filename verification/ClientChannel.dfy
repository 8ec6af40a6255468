/** The client's channel: one exchange at a time under a lock, and closed for good after any
    failure.  The server answers in order and may push notifications at any time.

    Each request the client sends has a number, and an answer remembers the number of the
    request it is for; the client itself only sees the ids an answer carries.  One-way
    requests the server does not simply serve are answered too, though nobody waits: such a
    stray answer stays in the channel. */
module ClientChannel {
  import opened Messages

  type Task = nat
  type Number = nat

  /** `Batch` is one that holds a call; `Listen` waits for a pushed notification and sends nothing. */
  datatype Kind = Call | Batch | OneWay | Listen

  datatype Phase = Sending | Awaiting | Aborting

  /** Who holds the lock, for what. */
  datatype Owner = Owner(task: Task, kind: Kind, number: Number, phase: Phase)

  /** What the server makes of a request: it serves all of it, refuses it outright with one
      error without an id, or answers a batch with a list in which the error for an item
      with an invalid method carries no id.  A handler can also make it send a response that
      does not decode. */
  datatype Verdict = Served | Refused | HoldsInvalidItem | Garbled

  /** A request on its way to the server, and what the server will make of it. */
  datatype Request = Request(number: Number, kind: Kind, verdict: Verdict)

  datatype Answer = Answer(number: Number, verdict: Verdict)

  datatype Message = Reply(answer: Answer) | Push(wellFormed: bool)

  /** `sends` numbers the requests whose sending began; `strays` counts the one-way
      requests that are answered. */
  datatype State = State(
    closed: bool, lock: Option<Owner>, waiting: set<Task>,
    toServer: seq<Request>, inbox: seq<Message>,
    next: Number, sends: seq<Number>, strays: nat)

  const INITIAL := State(false, None, {}, [], [], 0, [], 0)

  // ----- Steps -----

  datatype Action =
    | Ask(t: Task)
    | GiveUpWaiting(t: Task)
    | Acquire(t: Task, kind: Kind)
    | Sent(verdict: Verdict)
    | Receive
    | Fail(delivered: bool, verdict: Verdict)
    | Aborted
    | UserClose
    | Serve
    | PushNotification(wellFormed: bool)

  predicate Enabled(s: State, a: Action)
  {
    match a
    case GiveUpWaiting(t) => t in s.waiting
    case Acquire(t, _) => s.lock.None? && t in s.waiting
    case Sent(_) => s.lock.Some? && s.lock.value.phase.Sending?
    case Receive => s.lock.Some? && s.lock.value.phase.Awaiting? && s.inbox != []
    case Fail(_, _) => s.lock.Some? && !s.lock.value.phase.Aborting?
    case Aborted => s.lock.Some? && s.lock.value.phase.Aborting?
    case Serve => s.toServer != []
    case _ => true
  }

  /** What a request makes the server send back. */
  function AnswerTo(r: Request): seq<Answer>
  {
    if r.kind.OneWay? && r.verdict.Served? then [] else [Answer(r.number, r.verdict)]
  }

  function Replies(answers: seq<Answer>): seq<Message>
  {
    seq(|answers|, i requires 0 <= i < |answers| => Reply(answers[i]))
  }

  /** A task that got the lock looks at `closed` before anything else. */
  function Enter(s: State, t: Task, kind: Kind): State
  {
    var left := s.(waiting := s.waiting - {t});
    if s.closed then left
    else
      left.(lock := Some(Owner(t, kind, s.next, if kind.Listen? then Awaiting else Sending)), next := s.next + 1,
            sends := if kind.Listen? then s.sends else s.sends + [s.next])
  }

  function Transmit(s: State, verdict: Verdict): State
    requires s.lock.Some?
  {
    var o := s.lock.value;
    s.(toServer := s.toServer + [Request(o.number, o.kind, verdict)],
       strays := if o.kind.OneWay? && !verdict.Served? then s.strays + 1 else s.strays)
  }

  /** The request is sent: a one-way exchange is over, any other waits for its answer. */
  function Proceed(s: State, verdict: Verdict): State
    requires s.lock.Some?
  {
    var o := s.lock.value;
    Transmit(s, verdict).(lock := if o.kind.OneWay? then None else Some(o.(phase := Awaiting)))
  }

  /** A failure marks the client closed first, so that nobody sends while the transport closes. */
  function Abort(s: State): State
    requires s.lock.Some?
  {
    s.(closed := true, lock := Some(s.lock.value.(phase := Aborting)))
  }

  /** A call takes the response with its own id.  A batch takes the list with exactly its own
      ids, and any single error without an id, whichever request provoked it. */
  predicate Accepts(o: Owner, a: Answer)
  {
    match o.kind
    case Call => a.verdict.Served? && a.number == o.number
    case Batch => a.verdict.Refused? || (a.verdict.Served? && a.number == o.number)
    case _ => false
  }

  /** The waiting exchange takes a message: a pushed notification is handed on, and ends
      only a `Listen`; its answer ends the exchange; anything else breaks the channel. */
  function Take(s: State): State
    requires s.lock.Some? && s.inbox != []
  {
    var o, m, rest := s.lock.value, s.inbox[0], s.(inbox := s.inbox[1..]);
    match m
    case Push(wellFormed) => if !wellFormed then Abort(rest) else if o.kind.Listen? then rest.(lock := None) else rest
    case Reply(answer) => if Accepts(o, answer) then rest.(lock := None) else Abort(rest)
  }

  /** The exchange fails or is cancelled; its request may have gone out already. */
  function Break(s: State, delivered: bool, verdict: Verdict): State
    requires s.lock.Some?
  {
    Abort(if delivered && s.lock.value.phase.Sending? then Transmit(s, verdict) else s)
  }

  function Next(s: State, a: Action): State
  {
    if !Enabled(s, a) then s
    else
      match a
      case Ask(t) => s.(waiting := s.waiting + {t})
      case GiveUpWaiting(t) => s.(waiting := s.waiting - {t})
      case Acquire(t, kind) => Enter(s, t, kind)
      case Sent(verdict) => Proceed(s, verdict)
      case Receive => Take(s)
      case Fail(delivered, verdict) => Break(s, delivered, verdict)
      case Aborted => s.(lock := None)
      case UserClose => s.(closed := true)
      case Serve => s.(toServer := s.toServer[1..], inbox := s.inbox + Replies(AnswerTo(s.toServer[0])))
      case PushNotification(wellFormed) => s.(inbox := s.inbox + [Push(wellFormed)])
  }

  // ----- What is outstanding -----

  function AnswerIn(m: Message): seq<Answer>
  {
    if m.Reply? then [m.answer] else []
  }

  function Answers(inbox: seq<Message>): seq<Answer>
  {
    if inbox == [] then [] else AnswerIn(inbox[0]) + Answers(inbox[1..])
  }

  function Owed(toServer: seq<Request>): seq<Answer>
  {
    if toServer == [] then [] else AnswerTo(toServer[0]) + Owed(toServer[1..])
  }

  /** The answers still to be read, in the order they will be. */
  function Outstanding(s: State): seq<Answer>
  {
    Answers(s.inbox) + Owed(s.toServer)
  }

  ghost predicate Increasing(answers: seq<Answer>)
  {
    forall i, j :: 0 <= i < j < |answers| ==> answers[i].number < answers[j].number
  }

  ghost predicate Below(answers: seq<Answer>, bound: Number)
  {
    forall i :: 0 <= i < |answers| ==> answers[i].number < bound
  }

  /** The holder of the lock is the newest exchange, and not yet answered while it sends. */
  ghost predicate Held(lock: Option<Owner>, closed: bool, answers: seq<Answer>, next: Number)
  {
    lock.Some? ==>
      && lock.value.number < next
      && (lock.value.phase.Sending? ==> !lock.value.kind.Listen? && Below(answers, lock.value.number))
      && (lock.value.phase.Awaiting? ==> !lock.value.kind.OneWay?)
      && (lock.value.phase.Aborting? ==> closed)
  }

  predicate AwaitsAnswer(lock: Option<Owner>)
  {
    lock.Some? && lock.value.phase.Awaiting? && !lock.value.kind.Listen?
  }

  /** The answers outstanding are one per stray and, last, the one the exchange waits for. */
  ghost predicate Balanced(lock: Option<Owner>, answers: seq<Answer>, strays: nat)
  {
    if AwaitsAnswer(lock) then |answers| == strays + 1 && answers[strays].number == lock.value.number
    else |answers| == strays
  }

  ghost predicate Invariant(s: State)
  {
    var answers := Outstanding(s);
    && Increasing(answers) && Below(answers, s.next)
    && Held(s.lock, s.closed, answers, s.next)
    && (!s.closed ==> Balanced(s.lock, answers, s.strays))
  }

  lemma {:induction false} AnswersAppend(a: seq<Message>, b: seq<Message>)
    ensures Answers(a + b) == Answers(a) + Answers(b)
  {
    hide AnswerIn;
    if a == [] {
      assert a + b == b;
    } else {
      assert (a + b)[0] == a[0] && (a + b)[1..] == a[1..] + b;
      AnswersAppend(a[1..], b);
    }
  }

  lemma {:induction false} OwedAppend(a: seq<Request>, r: Request)
    ensures Owed(a + [r]) == Owed(a) + AnswerTo(r)
  {
    if a == [] {
      assert a + [r] == [r] && [r][1..] == [];
    } else {
      assert (a + [r])[1..] == a[1..] + [r];
      OwedAppend(a[1..], r);
    }
  }

  lemma Regroup(a: seq<Answer>, b: seq<Answer>, c: seq<Answer>)
    ensures a + b + c == a + (b + c)
  {
  }

  /** Serving moves an answer from owed to delivered. */
  lemma ServeKeepsOutstanding(s: State)
    requires s.toServer != []
    ensures Outstanding(Next(s, Serve)) == Outstanding(s)
  {
    var answer := AnswerTo(s.toServer[0]);
    assert Answers(Replies(answer)) == answer;
    hide Answers, AnswerTo;
    AnswersAppend(s.inbox, Replies(answer));
    Regroup(Answers(s.inbox), answer, Owed(s.toServer[1..]));
  }

  lemma PushKeepsOutstanding(s: State, wellFormed: bool)
    ensures Outstanding(Next(s, PushNotification(wellFormed))) == Outstanding(s)
  {
    var pushed := [Push(wellFormed)];
    assert Answers(pushed) == [] by {
      assert pushed[1..] == [];
    }
    hide Answers, Owed;
    AnswersAppend(s.inbox, pushed);
    assert Answers(s.inbox) + [] == Answers(s.inbox);
  }

  lemma TransmitAdds(s: State, verdict: Verdict)
    requires s.lock.Some?
    ensures Outstanding(Transmit(s, verdict))
         == Outstanding(s) + AnswerTo(Request(s.lock.value.number, s.lock.value.kind, verdict))
  {
    OwedAppend(s.toServer, Request(s.lock.value.number, s.lock.value.kind, verdict));
  }

  lemma TakeRemoves(s: State)
    requires s.lock.Some? && s.inbox != []
    ensures Outstanding(s) == AnswerIn(s.inbox[0]) + Outstanding(Take(s))
  {
    hide AnswerIn, Owed;
    assert Take(s).inbox == s.inbox[1..] && Take(s).toServer == s.toServer;
    hide Take;
    Regroup(AnswerIn(s.inbox[0]), Answers(s.inbox[1..]), Owed(s.toServer));
  }

  lemma TransmitKeeps(s: State, verdict: Verdict)
    requires Invariant(s) && s.lock.Some? && s.lock.value.phase.Sending?
    ensures Invariant(Proceed(s, verdict)) && Invariant(Abort(Transmit(s, verdict)))
  {
    TransmitAdds(s, verdict);
    assert Outstanding(Proceed(s, verdict)) == Outstanding(Transmit(s, verdict));
    assert Outstanding(Abort(Transmit(s, verdict))) == Outstanding(Transmit(s, verdict));
    hide Outstanding;
  }

  lemma FirstTaken(first: Answer, rest: seq<Answer>, bound: Number)
    requires Increasing([first] + rest) && Below([first] + rest, bound)
    ensures Increasing(rest) && Below(rest, bound)
  {
    assert forall i :: 0 <= i < |rest| ==> rest[i] == ([first] + rest)[i + 1];
  }

  /** Accepting an answer leaves as many outstanding as there are strays. */
  lemma AcceptedBalance(o: Owner, first: Answer, rest: seq<Answer>, strays: nat)
    requires o.phase.Awaiting? && Accepts(o, first) && Balanced(Some(o), [first] + rest, strays)
    ensures Balanced(None, rest, strays)
  {
  }

  lemma TakeKeeps(s: State)
    requires Invariant(s) && s.lock.Some? && s.lock.value.phase.Awaiting? && s.inbox != []
    ensures Invariant(Take(s))
  {
    hide Outstanding, Increasing, Below;
    TakeRemoves(s);
    var rest := Outstanding(Take(s));
    match s.inbox[0] {
      case Push(_) => assert [] + rest == rest;
      case Reply(answer) =>
        FirstTaken(answer, rest, s.next);
        if Accepts(s.lock.value, answer) && !s.closed {
          AcceptedBalance(s.lock.value, answer, rest, s.strays);
        }
    }
  }

  lemma NextKeeps(s: State, a: Action)
    requires Invariant(s)
    ensures Invariant(Next(s, a))
  {
    if Enabled(s, a) {
      match a {
        case Sent(verdict) => TransmitKeeps(s, verdict);
        case Receive => TakeKeeps(s);
        case Fail(delivered, verdict) => if s.lock.value.phase.Sending? { TransmitKeeps(s, verdict); }
        case Serve => ServeKeepsOutstanding(s);
        case PushNotification(wellFormed) => PushKeepsOutstanding(s, wellFormed);
        case _ => assert Outstanding(Next(s, a)) == Outstanding(s);
      }
    }
  }

  // ----- Every run -----

  /** The state after a run. */
  function After(run: seq<Action>): State
  {
    if run == [] then INITIAL else Next(After(run[..|run| - 1]), run[|run| - 1])
  }

  lemma {:induction false} ReachableInvariant(run: seq<Action>)
    ensures Invariant(After(run))
  {
    if run != [] {
      ReachableInvariant(run[..|run| - 1]);
      NextKeeps(After(run[..|run| - 1]), run[|run| - 1]);
    }
  }

  /** While the client is open and the lock is free, every answer owed has been consumed,
      except those to one-way requests the server did not simply serve. */
  lemma FreeChannelOwesNothing(run: seq<Action>)
    requires !After(run).closed && After(run).lock.None?
    ensures |Outstanding(After(run))| == After(run).strays
  {
    ReachableInvariant(run);
  }

  /** The first answer a waiting call or batch of an open client will read is its own,
      exactly when no answered one-way request left a stray before it. */
  lemma FirstAnswerIsItsOwn(run: seq<Action>)
    requires !After(run).closed && AwaitsAnswer(After(run).lock)
    ensures Outstanding(After(run)) != []
    ensures Outstanding(After(run))[0].number == After(run).lock.value.number <==> After(run).strays == 0
  {
    ReachableInvariant(run);
  }

  /** So with an in-order server and no strays, the first answer a waiting exchange reads is
      its own.  It is taken if and only if the server served the request or, for a batch,
      refused it; a refused call, a batch holding an invalid item and a garbled response
      break the channel. */
  lemma OwnAnswerIsTaken(run: seq<Action>)
    requires !After(run).closed && AwaitsAnswer(After(run).lock) && After(run).strays == 0
    requires After(run).inbox != [] && After(run).inbox[0].Reply?
    ensures var s := After(run); var answer := s.inbox[0].answer;
      && answer.number == s.lock.value.number
      && (Take(s).lock.None? <==> answer.verdict.Served? || (s.lock.value.kind.Batch? && answer.verdict.Refused?))
      && (Take(s).lock.None? ==> Outstanding(Take(s)) == [] && !Take(s).closed)
      && (Take(s).lock.Some? ==> Dead(Take(s)))
  {
    ReachableInvariant(run);
    FirstAnswerIsItsOwn(run);
    TakeRemoves(After(run));
    assert Outstanding(After(run))[0] == After(run).inbox[0].answer;
  }

  /** A batch that holds an item with an invalid method rejects its own answer, though no
      stray is in the way, and closes the client. */
  lemma InvalidItemBreaksTheChannel()
    ensures exists run :: var s := After(run);
      && !s.closed && Enabled(s, Receive) && s.lock.value.kind.Batch? && s.strays == 0
      && s.inbox[0] == Reply(Answer(s.lock.value.number, HoldsInvalidItem))
      && Dead(Take(s))
  {
    var r1 := [] + [Ask(0)];
    var r2 := r1 + [Acquire(0, Batch)];
    var r3 := r2 + [Sent(HoldsInvalidItem)];
    var r4 := r3 + [Serve];
    var o := Owner(0, Batch, 0, Sending);
    assert After(r1) == INITIAL.(waiting := {0});
    assert After(r2) == INITIAL.(lock := Some(o), next := 1, sends := [0]);
    assert After(r3) == After(r2).(lock := Some(o.(phase := Awaiting)), toServer := [Request(0, Batch, HoldsInvalidItem)]);
    assert After(r4) == After(r3).(toServer := [], inbox := [Reply(Answer(0, HoldsInvalidItem))]);
    assert Enabled(After(r4), Receive) && Dead(Take(After(r4)));
  }

  /** Nothing can be sent any more. */
  predicate Dead(s: State)
  {
    s.closed && (s.lock.Some? ==> !s.lock.value.phase.Sending?)
  }

  ghost predicate IsSuffix(a: seq<Request>, b: seq<Request>)
  {
    exists k :: 0 <= k <= |b| && a == b[k..]
  }

  lemma SuffixOfSuffix(a: seq<Request>, b: seq<Request>, c: seq<Request>)
    requires IsSuffix(a, b) && IsSuffix(b, c)
    ensures IsSuffix(a, c)
  {
    var k :| 0 <= k <= |b| && a == b[k..];
    var j :| 0 <= j <= |c| && b == c[j..];
    assert a == c[j + k..];
  }

  lemma DeadStaysDead(s: State, a: Action)
    requires Dead(s)
    ensures Dead(Next(s, a)) && Next(s, a).sends == s.sends && IsSuffix(Next(s, a).toServer, s.toServer)
  {
    assert s.toServer == s.toServer[0..];
  }

  /** What the server still gets was on its way already. */
  lemma {:induction false} DeadChannelSendsNothing(run: seq<Action>, later: seq<Action>)
    requires Dead(After(run))
    ensures Dead(After(run + later)) && After(run + later).sends == After(run).sends
    ensures IsSuffix(After(run + later).toServer, After(run).toServer)
    decreases |later|
  {
    hide Next, Dead;
    if later == [] {
      assert run + later == run;
      assert After(run).toServer == After(run).toServer[0..];
    } else {
      var n := |later| - 1;
      assert (run + later)[..|run + later| - 1] == run + later[..n];
      assert (run + later)[|run + later| - 1] == later[n];
      DeadChannelSendsNothing(run, later[..n]);
      var s := After(run + later[..n]);
      DeadStaysDead(s, later[n]);
      SuffixOfSuffix(Next(s, later[n]).toServer, s.toServer, After(run).toServer);
    }
  }

  /** After a failed or cancelled exchange, from the moment its cleanup begins, nothing is
      ever sent again. */
  lemma NothingSentAfterFailure(run: seq<Action>, later: seq<Action>)
    requires var lock := After(run).lock; lock.Some? && lock.value.phase.Aborting?
    ensures After(run + later).closed && After(run + later).sends == After(run).sends
    ensures IsSuffix(After(run + later).toServer, After(run).toServer)
  {
    ReachableInvariant(run);
    DeadChannelSendsNothing(run, later);
  }

  function FollowedBy(s: State, run: seq<Action>): State
    decreases |run|
  {
    if run == [] then s else FollowedBy(Next(s, run[0]), run[1..])
  }

  predicate Concerns(a: Action, t: Task)
  {
    match a
    case Ask(u) => u == t
    case GiveUpWaiting(u) => u == t
    case Acquire(u, _) => u == t
    case _ => false
  }

  lemma WaiterDoesNotMatter(s: State, a: Action, t: Task)
    requires t !in s.waiting && !Concerns(a, t)
    ensures Next(s.(waiting := s.waiting + {t}), a) == Next(s, a).(waiting := Next(s, a).waiting + {t})
    ensures t !in Next(s, a).waiting
  {
    match a {
      case Ask(u) => assert s.waiting + {t} + {u} == s.waiting + {u} + {t};
      case GiveUpWaiting(u) => assert s.waiting + {t} - {u} == s.waiting - {u} + {t};
      case Acquire(u, _) => assert s.waiting + {t} - {u} == s.waiting - {u} + {t};
      case _ =>
    }
  }

  /** A task that gives up while it only waits for the lock leaves everything as if it had
      never asked, whatever the others did meanwhile. */
  lemma {:induction false} GivingUpChangesNothing(s: State, t: Task, meanwhile: seq<Action>)
    requires t !in s.waiting && forall i :: 0 <= i < |meanwhile| ==> !Concerns(meanwhile[i], t)
    ensures Next(FollowedBy(Next(s, Ask(t)), meanwhile), GiveUpWaiting(t)) == FollowedBy(s, meanwhile)
    decreases |meanwhile|
  {
    if meanwhile == [] {
      assert s.waiting + {t} - {t} == s.waiting;
    } else {
      WaiterDoesNotMatter(s, meanwhile[0], t);
      GivingUpChangesNothing(Next(s, meanwhile[0]), t, meanwhile[1..]);
    }
  }

  /** A stray answer can be taken for a batch's own: after a refused notification, a batch
      accepts that notification's error as the refusal of the whole batch. */
  lemma StrayTakenForTheBatchsRefusal()
    ensures exists run :: var s := After(run);
      && !s.closed && Enabled(s, Receive) && s.lock.value.kind.Batch? && Take(s).lock.None?
      && s.inbox[0].Reply? && s.inbox[0].answer.number != s.lock.value.number
      && Answer(s.lock.value.number, Served) in Outstanding(Take(s))
  {
    var r0 := [];
    var r1 := r0 + [Ask(0)];
    var r2 := r1 + [Acquire(0, OneWay)];
    var r3 := r2 + [Sent(Refused)];
    var r4 := r3 + [Ask(0)];
    var r5 := r4 + [Acquire(0, Batch)];
    var r6 := r5 + [Sent(Served)];
    var r7 := r6 + [Serve];
    var o := Owner(0, Batch, 1, Sending);
    var stray, own := Request(0, OneWay, Refused), Request(1, Batch, Served);
    assert After(r1) == INITIAL.(waiting := {0});
    assert After(r2) == INITIAL.(lock := Some(Owner(0, OneWay, 0, Sending)), next := 1, sends := [0]);
    assert After(r3) == INITIAL.(toServer := [stray], next := 1, sends := [0], strays := 1);
    assert After(r4) == After(r3).(waiting := {0});
    assert After(r5) == After(r3).(lock := Some(o), next := 2, sends := [0, 1]);
    assert After(r6) == After(r5).(lock := Some(o.(phase := Awaiting)), toServer := [stray, own]);
    assert After(r7) == After(r6).(toServer := [own], inbox := [Reply(Answer(0, Refused))]);
    assert Owed([own]) == [Answer(1, Served)];
    assert Enabled(After(r7), Receive);
  }

  // ----- The client object -----

  datatype Outcome = Holding | Finished | ChannelClosed | Broken

  class Client {
    var closed: bool
    var callLock: Option<Owner>
    var waiting: set<Task>
    var next: Number
    var inbox: seq<Message>
    ghost var toServer: seq<Request>
    ghost var sends: seq<Number>
    ghost var strays: nat

    ghost function View(): State
      reads this
    {
      State(closed, callLock, waiting, toServer, inbox, next, sends, strays)
    }

    ghost predicate Valid()
      reads this
    {
      Invariant(View())
    }

    constructor ()
      ensures Valid() && View() == INITIAL
    {
      closed, callLock, waiting, next, inbox := false, None, {}, 0, [];
      toServer, sends, strays := [], [], 0;
    }

    /** The lock is this task's: begin its exchange unless the client is closed. */
    method EnterExchange(t: Task, kind: Kind) returns (outcome: Outcome)
      requires Valid() && callLock.None? && t in waiting
      modifies this
      ensures Valid() && View() == Next(old(View()), Acquire(t, kind))
      ensures outcome == if old(closed) then ChannelClosed else Holding
    {
      hide Invariant;
      NextKeeps(View(), Acquire(t, kind));
      waiting := waiting - {t};
      if closed {
        return ChannelClosed;
      }
      callLock := Some(Owner(t, kind, next, if kind.Listen? then Awaiting else Sending));
      if !kind.Listen? {
        sends := sends + [next];
      }
      next := next + 1;
      outcome := Holding;
    }

    /** The transport sent the request. */
    method AfterSend(ghost verdict: Verdict) returns (outcome: Outcome)
      requires Valid() && callLock.Some? && callLock.value.phase.Sending?
      modifies this
      ensures Valid() && View() == Next(old(View()), Sent(verdict))
      ensures outcome == if old(callLock).value.kind.OneWay? then Finished else Holding
    {
      hide Invariant;
      NextKeeps(View(), Sent(verdict));
      var o := callLock.value;
      toServer := toServer + [Request(o.number, o.kind, verdict)];
      if o.kind.OneWay? {
        strays := if !verdict.Served? then strays + 1 else strays;
        callLock := None;
        return Finished;
      }
      callLock := Some(o.(phase := Awaiting));
      outcome := Holding;
    }

    /** Mark the client closed before the transport starts to close. */
    method MarkBroken()
      requires callLock.Some?
      modifies this`closed, this`callLock
      ensures View() == Abort(old(View()))
    {
      closed := true;
      callLock := Some(callLock.value.(phase := Aborting));
    }

    /** One message read by the exchange that holds the lock. */
    method OnMessage() returns (outcome: Outcome)
      requires Valid() && callLock.Some? && callLock.value.phase.Awaiting? && inbox != []
      modifies this
      ensures Valid() && View() == Next(old(View()), Receive)
      ensures outcome == (if callLock.None? then Finished else if callLock.value.phase.Aborting? then Broken else Holding)
    {
      hide Invariant;
      NextKeeps(View(), Receive);
      var message := inbox[0];
      inbox := inbox[1..];
      match message {
        case Push(wellFormed) =>
          if wellFormed {
            if callLock.value.kind.Listen? {
              callLock := None;
              return Finished;
            }
            return Holding;
          }
        case Reply(answer) =>
          if Accepts(callLock.value, answer) {
            callLock := None;
            return Finished;
          }
      }
      MarkBroken();
      outcome := Broken;
    }

    /** The exchange failed or was cancelled. */
    method OnFailure(ghost delivered: bool, ghost verdict: Verdict)
      requires Valid() && callLock.Some? && !callLock.value.phase.Aborting?
      modifies this
      ensures Valid() && View() == Next(old(View()), Fail(delivered, verdict)) && Dead(View())
    {
      hide Invariant;
      NextKeeps(View(), Fail(delivered, verdict));
      if delivered && callLock.value.phase.Sending? {
        toServer := toServer + [Request(callLock.value.number, callLock.value.kind, verdict)];
        strays := if callLock.value.kind.OneWay? && !verdict.Served? then strays + 1 else strays;
      }
      MarkBroken();
    }

    method Close()
      requires Valid()
      modifies this
      ensures Valid() && View() == Next(old(View()), UserClose)
    {
      hide Invariant;
      NextKeeps(View(), UserClose);
      closed := true;
    }
  }
}
