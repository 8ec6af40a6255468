/** Slots for native work: password checks and SQLite transactions run on worker threads that
    cannot be stopped, so a cancelled caller hands its slot to the completion of its worker. */
module WorkerSlots {

  type Id = nat

  /** The caller looks up what it needs, waits for its worker, or has been cancelled and left
      its slot to a callback.  `Left` callers own no slot. */
  datatype Caller = LookingUp | Waiting | Handed | Left

  /** The task that stands for the worker in the event loop. */
  datatype WorkerTask = NotCreated | Pending | Completed

  /** The native work itself; `Queued` for a free thread. */
  datatype Native = Absent | Queued | Running | Ended

  datatype Op = Op(caller: Caller, task: WorkerTask, native: Native, releases: nat)

  datatype State = State(active: int, ops: map<Id, Op>)

  const INITIAL := State(0, map[])

  datatype Action =
    | Admit(t: Id)
    | LookupFails(t: Id)
    | StartWorker(t: Id)
    | NativeBegins(t: Id)
    | NativeEnds(t: Id)
    | TaskCompletes(t: Id)
    | CancelTask(t: Id)
    | CallerResumes(t: Id)
    | CancelCaller(t: Id)
    | Callback(t: Id)

  predicate Enabled(s: State, a: Action)
  {
    if a.Admit? then a.t !in s.ops
    else
      a.t in s.ops &&
      var op := s.ops[a.t];
      match a
      case LookupFails(_) => op.caller.LookingUp?
      case StartWorker(_) => op.caller.LookingUp?
      case NativeBegins(_) => op.native.Queued?
      case NativeEnds(_) => op.native.Running?
      case TaskCompletes(_) => op.task.Pending? && op.native.Ended?
      case CancelTask(_) => op.task.Pending?
      case CallerResumes(_) => op.caller.Waiting? && op.task.Completed?
      case CancelCaller(_) => op.caller.Waiting?
      case Callback(_) => op.caller.Handed? && op.task.Completed?
  }

  function Release(s: State, t: Id): State
    requires t in s.ops
  {
    State(s.active - 1, s.ops[t := s.ops[t].(caller := Left, releases := s.ops[t].releases + 1)])
  }

  function With(s: State, t: Id, op: Op): State
  {
    s.(ops := s.ops[t := op])
  }

  /** Cancelling the worker's task itself, as the event loop does when it shuts down, takes
      queued work back but cannot stop running work. */
  function Next(limit: nat, s: State, a: Action): State
  {
    if !Enabled(s, a) then s
    else
      match a
      case Admit(t) =>
        if s.active >= limit then s
        else State(s.active + 1, s.ops[t := Op(LookingUp, NotCreated, Absent, 0)])
      case LookupFails(t) => Release(s, t)
      case StartWorker(t) => With(s, t, s.ops[t].(caller := Waiting, task := Pending, native := Queued))
      case NativeBegins(t) => With(s, t, s.ops[t].(native := Running))
      case NativeEnds(t) => With(s, t, s.ops[t].(native := Ended))
      case TaskCompletes(t) => With(s, t, s.ops[t].(task := Completed))
      case CancelTask(t) =>
        With(s, t, s.ops[t].(task := Completed, native := if s.ops[t].native.Queued? then Ended else s.ops[t].native))
      case CallerResumes(t) => Release(s, t)
      case CancelCaller(t) => if s.ops[t].task.Completed? then Release(s, t) else With(s, t, s.ops[t].(caller := Handed))
      case Callback(t) => Release(s, t)
  }

  function Owners(ops: map<Id, Op>): set<Id>
  {
    set t | t in ops && !ops[t].caller.Left?
  }

  function RunningWorkers(ops: map<Id, Op>): set<Id>
  {
    set t | t in ops && ops[t].native.Running?
  }

  /** Workers still running though their task was cancelled. */
  function Abandoned(ops: map<Id, Op>): set<Id>
  {
    set t | t in ops && ops[t].native.Running? && !ops[t].task.Pending?
  }

  /** A slot is given back exactly when its caller has left, and nobody leaves before the
      worker's task is done. */
  predicate Consistent(op: Op)
  {
    && op.releases == (if op.caller.Left? then 1 else 0)
    && (op.caller.LookingUp? ==> op.task.NotCreated?)
    && (op.caller.Waiting? || op.caller.Handed? ==> !op.task.NotCreated?)
    && (op.task.Pending? ==> (op.caller.Waiting? || op.caller.Handed?) && !op.native.Absent?)
    && (op.native.Queued? ==> op.task.Pending?)
    && (op.task.NotCreated? ==> op.native.Absent?)
  }

  ghost predicate Invariant(limit: nat, s: State)
  {
    && 0 <= s.active <= limit
    && s.active == |Owners(s.ops)|
    && forall t :: t in s.ops ==> Consistent(s.ops[t])
  }

  lemma ReleaseKeeps(limit: nat, s: State, t: Id)
    requires Invariant(limit, s) && t in s.ops && !s.ops[t].caller.Left? && !s.ops[t].task.Pending?
    ensures Invariant(limit, Release(s, t))
  {
    assert t in Owners(s.ops);
    assert Owners(Release(s, t).ops) == Owners(s.ops) - {t};
  }

  lemma WithKeeps(limit: nat, s: State, t: Id, op: Op)
    requires Invariant(limit, s) && t in s.ops && Consistent(op)
    requires op.caller.Left? <==> s.ops[t].caller.Left?
    ensures Invariant(limit, With(s, t, op))
  {
    assert Owners(With(s, t, op).ops) == Owners(s.ops);
  }

  lemma AdmitKeeps(limit: nat, s: State, t: Id)
    requires Invariant(limit, s) && t !in s.ops
    ensures Invariant(limit, Next(limit, s, Admit(t)))
    ensures t in Next(limit, s, Admit(t)).ops <==> |Owners(s.ops)| < limit
  {
    if s.active < limit {
      assert Owners(Next(limit, s, Admit(t)).ops) == Owners(s.ops) + {t};
    }
  }

  lemma NextKeeps(limit: nat, s: State, a: Action)
    requires Invariant(limit, s)
    ensures Invariant(limit, Next(limit, s, a))
  {
    if Enabled(s, a) {
      match a {
        case Admit(t) => AdmitKeeps(limit, s, t);
        case LookupFails(t) => ReleaseKeeps(limit, s, t);
        case CallerResumes(t) => ReleaseKeeps(limit, s, t);
        case Callback(t) => ReleaseKeeps(limit, s, t);
        case CancelCaller(t) =>
          if s.ops[t].task.Completed? {
            ReleaseKeeps(limit, s, t);
          } else {
            WithKeeps(limit, s, t, s.ops[t].(caller := Handed));
          }
        case _ => WithKeeps(limit, s, a.t, Next(limit, s, a).ops[a.t]);
      }
    }
  }

  // ----- Every run -----

  function After(limit: nat, run: seq<Action>): State
  {
    if run == [] then INITIAL else Next(limit, After(limit, run[..|run| - 1]), run[|run| - 1])
  }

  lemma {:induction false} ReachableInvariant(limit: nat, run: seq<Action>)
    ensures Invariant(limit, After(limit, run))
  {
    if run != [] {
      ReachableInvariant(limit, run[..|run| - 1]);
      NextKeeps(limit, After(limit, run[..|run| - 1]), run[|run| - 1]);
    }
  }

  lemma SubsetSize(a: set<Id>, b: set<Id>)
    requires a <= b
    ensures |a| <= |b|
  {
    assert b == a + (b - a);
  }

  /** In every reachable state the counter is the number of slots owned, within the limit, and
      it covers every running worker but the abandoned ones. */
  lemma SlotsCoverWorkers(limit: nat, run: seq<Action>)
    ensures var s := After(limit, run);
      && s.active == |Owners(s.ops)| <= limit
      && |RunningWorkers(s.ops)| <= s.active + |Abandoned(s.ops)|
  {
    ReachableInvariant(limit, run);
    var ops := After(limit, run).ops;
    SubsetSize(RunningWorkers(ops) - Abandoned(ops), Owners(ops));
    assert RunningWorkers(ops) == (RunningWorkers(ops) - Abandoned(ops)) + Abandoned(ops);
  }

  /** Step i of the run cancels the task of a worker that is running. */
  predicate StrikesRunning(limit: nat, run: seq<Action>, i: nat)
    requires i < |run|
  {
    var s := After(limit, run[..i]);
    run[i].CancelTask? && run[i].t in RunningWorkers(s.ops) && s.ops[run[i].t].task.Pending?
  }

  /** One step abandons a worker exactly if it cancels a running worker's task. */
  lemma AbandonStep(limit: nat, s: State, a: Action)
    requires Invariant(limit, s) && Abandoned(s.ops) == {}
    ensures Abandoned(Next(limit, s, a).ops) == {} <==>
              !(a.CancelTask? && a.t in RunningWorkers(s.ops) && s.ops[a.t].task.Pending?)
  {
    var n := Next(limit, s, a);
    if a.CancelTask? && a.t in RunningWorkers(s.ops) && s.ops[a.t].task.Pending? {
      assert a.t in Abandoned(n.ops);
    } else {
      forall t | t in n.ops ensures t !in Abandoned(n.ops) {
        assert t in s.ops ==> t !in Abandoned(s.ops) && Consistent(s.ops[t]);
      }
    }
  }

  ghost predicate NeverAbandoned(limit: nat, run: seq<Action>)
  {
    forall k :: 0 <= k <= |run| ==> Abandoned(After(limit, run[..k]).ops) == {}
  }

  ghost predicate NeverStruck(limit: nat, run: seq<Action>)
  {
    forall i :: 0 <= i < |run| ==> !StrikesRunning(limit, run, i)
  }

  lemma LastStep(limit: nat, before: seq<Action>, a: Action)
    ensures NeverAbandoned(limit, before + [a]) <==>
              NeverAbandoned(limit, before) && Abandoned(After(limit, before + [a]).ops) == {}
    ensures NeverStruck(limit, before + [a]) <==>
              NeverStruck(limit, before) && !StrikesRunning(limit, before + [a], |before|)
  {
    hide After, Abandoned;
    var run := before + [a];
    assert run[..|run|] == run;
    forall k | 0 <= k <= |before| ensures before[..k] == run[..k] {
    }
    forall i | 0 <= i < |before| ensures StrikesRunning(limit, before, i) <==> StrikesRunning(limit, run, i) {
      assert before[i] == run[i] && before[..i] == run[..i];
    }
  }

  /** A worker is ever abandoned if and only if some running worker's own task is cancelled. */
  lemma {:induction false} AbandonedIffStruck(limit: nat, run: seq<Action>)
    ensures NeverAbandoned(limit, run) <==> NeverStruck(limit, run)
    ensures NeverAbandoned(limit, run) ==> Abandoned(After(limit, run).ops) == {}
  {
    assert run[..|run|] == run;
    if run != [] {
      var before, a := run[..|run| - 1], run[|run| - 1];
      assert before + [a] == run && run[..|before|] == before;
      AbandonedIffStruck(limit, before);
      LastStep(limit, before, a);
      ReachableInvariant(limit, before);
      hide NeverAbandoned, NeverStruck;
      if NeverAbandoned(limit, before) {
        AbandonStep(limit, After(limit, before), a);
      }
    }
  }

  /** Unless a running worker's own task is cancelled, at most `limit` native workers run at
      once, however the callers are cancelled. */
  lemma WorkersAreBounded(limit: nat, run: seq<Action>)
    requires NeverStruck(limit, run)
    ensures |RunningWorkers(After(limit, run).ops)| <= After(limit, run).active <= limit
  {
    SlotsCoverWorkers(limit, run);
    AbandonedIffStruck(limit, run);
  }

  lemma OneMoreStep(limit: nat, run: seq<Action>, a: Action)
    ensures After(limit, run + [a]) == Next(limit, After(limit, run), a)
  {
    assert (run + [a])[..|run|] == run;
  }

  /** Taking a slot and starting work, for an operation that is new. */
  lemma WorkStarts(limit: nat, run: seq<Action>, t: Id)
    requires t !in After(limit, run).ops && After(limit, run).active < limit
    ensures var s := After(limit, run);
      After(limit, run + [Admit(t)] + [StartWorker(t)] + [NativeBegins(t)])
        == State(s.active + 1, s.ops[t := Op(Waiting, Pending, Running, 0)])
  {
    OneMoreStep(limit, run, Admit(t));
    OneMoreStep(limit, run + [Admit(t)], StartWorker(t));
    OneMoreStep(limit, run + [Admit(t)] + [StartWorker(t)], NativeBegins(t));
  }

  /** A worker whose task is cancelled runs on without a slot: two run under a limit of one. */
  lemma CancelledTaskFreesABusySlot()
    ensures exists run: seq<Action> :: After(1, run).active == 1 && |RunningWorkers(After(1, run).ops)| == 2
  {
    hide After;
    assert After(1, []) == INITIAL by {
      EmptyRun(1);
    }
    WorkStarts(1, [], 0);
    var r := [] + [Admit(0)] + [StartWorker(0)] + [NativeBegins(0)];
    OneMoreStep(1, r, CancelTask(0));
    OneMoreStep(1, r + [CancelTask(0)], CallerResumes(0));
    var freed := r + [CancelTask(0)] + [CallerResumes(0)];
    WorkStarts(1, freed, 1);
    var both := freed + [Admit(1)] + [StartWorker(1)] + [NativeBegins(1)];
    assert RunningWorkers(After(1, both).ops) == {0, 1};
  }

  lemma EmptyRun(limit: nat)
    ensures After(limit, []) == INITIAL
  {
  }

  /** No slot is released twice, and a released one is never owned again. */
  lemma ReleasedOnce(limit: nat, run: seq<Action>, t: Id)
    requires t in After(limit, run).ops
    ensures After(limit, run).ops[t].releases <= 1
    ensures After(limit, run).ops[t].releases == 1 <==> t !in Owners(After(limit, run).ops)
  {
    ReachableInvariant(limit, run);
  }

  /** How far an operation is from giving its slot back. */
  function Distance(op: Op): nat
  {
    (match op.caller case LookingUp => 2 case Left => 0 case _ => 1)
    + (match op.task case NotCreated => 2 case Pending => 1 case Completed => 0)
    + (match op.native case Absent => 3 case Queued => 2 case Running => 1 case Ended => 0)
  }

  predicate Advances(limit: nat, s: State, t: Id, a: Action)
    requires t in s.ops
  {
    && a.t == t && !a.CancelTask? && !a.CancelCaller? && Enabled(s, a)
    && var n := Next(limit, s, a); t in n.ops && Distance(n.ops[t]) < Distance(s.ops[t])
  }

  /** No slot is stuck: an operation that owns one always has a step, other than a
      cancellation, that brings it closer to giving it back. */
  lemma NoSlotIsStuck(limit: nat, run: seq<Action>, t: Id)
    requires t in Owners(After(limit, run).ops)
    ensures exists a: Action :: Advances(limit, After(limit, run), t, a)
  {
    ReachableInvariant(limit, run);
    var s := After(limit, run);
    var op := s.ops[t];
    var a :=
      if op.caller.LookingUp? then StartWorker(t)
      else if op.task.Completed? then (if op.caller.Waiting? then CallerResumes(t) else Callback(t))
      else if op.native.Queued? then NativeBegins(t)
      else if op.native.Running? then NativeEnds(t)
      else TaskCompletes(t);
    assert Consistent(op);
    assert Advances(limit, s, t, a);
  }

  // ----- Who owns a slot after each step -----

  /** A slot is taken when one is free, and given back when the lookup fails, the caller goes
      on, or the worker of a cancelled caller is done; a cancelled caller gives it back only
      if its worker is done.  Nothing else changes who owns one. */
  lemma OwnersLaw(limit: nat, s: State, a: Action)
    requires Invariant(limit, s) && Enabled(s, a)
    ensures var owners, left := Owners(s.ops), Owners(Next(limit, s, a).ops);
      match a
      case Admit(t) => left == if |owners| < limit then owners + {t} else owners
      case LookupFails(t) => t in owners && left == owners - {t}
      case CallerResumes(t) => t in owners && left == owners - {t}
      case Callback(t) => t in owners && left == owners - {t}
      case CancelCaller(t) =>
        t in owners && left == if s.ops[t].task.Pending? then owners else owners - {t}
      case _ => left == owners
    ensures forall t :: t != a.t ==>
      (t in Next(limit, s, a).ops <==> t in s.ops) && (t in s.ops ==> Next(limit, s, a).ops[t] == s.ops[t])
  {
  }

  // ----- The validator object -----

  class Validator {
    const limit: nat
    var active: int
    var ops: map<Id, Op>

    ghost function View(): State
      reads this
    {
      State(active, ops)
    }

    ghost predicate Valid()
      reads this
    {
      Invariant(limit, View())
    }

    constructor (limit: nat)
      ensures Valid() && View() == INITIAL && this.limit == limit
    {
      this.limit := limit;
      active, ops := 0, map[];
    }

    /** Take a slot, or refuse. */
    method Enter(t: Id) returns (admitted: bool)
      requires Valid() && t !in ops
      modifies this
      ensures Valid() && View() == Next(limit, old(View()), Admit(t))
      ensures admitted <==> |Owners(old(ops))| < limit
    {
      NextKeeps(limit, View(), Admit(t));
      if active >= limit {
        return false;
      }
      active := active + 1;
      ops := ops[t := Op(LookingUp, NotCreated, Absent, 0)];
      admitted := true;
    }

    method GiveBack(t: Id)
      requires t in ops
      modifies this
      ensures View() == Release(old(View()), t)
    {
      active := active - 1;
      ops := ops[t := ops[t].(caller := Left, releases := ops[t].releases + 1)];
    }

    /** The caller is cancelled while it waits: a worker still at it keeps the slot. */
    method OnCancelled(t: Id) returns (deferred: bool)
      requires Valid() && t in ops && ops[t].caller.Waiting?
      modifies this
      ensures Valid() && View() == Next(limit, old(View()), CancelCaller(t))
      ensures deferred <==> old(ops)[t].task.Pending?
    {
      NextKeeps(limit, View(), CancelCaller(t));
      deferred := !ops[t].task.Completed?;
      if deferred {
        ops := ops[t := ops[t].(caller := Handed)];
      } else {
        GiveBack(t);
      }
    }

    /** The worker's task is done after its caller was cancelled. */
    method OnFinished(t: Id)
      requires Valid() && t in ops && ops[t].caller.Handed? && ops[t].task.Completed?
      modifies this
      ensures Valid() && View() == Next(limit, old(View()), Callback(t))
    {
      NextKeeps(limit, View(), Callback(t));
      GiveBack(t);
    }
  }
}
