/** Admission in the multicast server: a semaphore of slots, and per peer a lock with a count
    of outstanding tasks.  A request is rejected as busy while any task of its peer is
    outstanding, an earlier rejected one included. */
module Multicast {
  type Peer = string
  type Task = nat
  type LockId = nat

  /** A peer's lock and the number of its outstanding tasks. */
  datatype Entry = Entry(lock: LockId, count: int)

  /** A task that was not rejected takes its peer's lock, runs the handler, and gives the
      lock back before it sends the reply. */
  datatype Phase = Created | Handling | Replying

  datatype Job = Job(peer: Peer, lock: LockId, busy: bool, phase: Phase)

  /** The listener owns a slot between acquiring it and handing it to a task.  It gives the
      slot back when the transport closes or it is told to stop; it leaves with it when told
      to stop or cancelled just as the acquisition succeeds, or when anything else ends its
      wait for a request: a cancellation, or another exception. */
  datatype Listener = Idle | Holding | Left | LeftWithSlot

  /** `missed` records that a task's cleanup did not find its peer's entry. */
  datatype State = State(
    free: int, listener: Listener, peers: map<Peer, Entry>, tasks: map<Task, Job>, nextLock: LockId, missed: bool)

  function Start(maxConcurrency: nat): State
  {
    State(maxConcurrency, Idle, map[], map[], 0, false)
  }

  // ----- Steps -----

  datatype Action =
    | AcquireSlot
    | StopWhileAcquiring
    | CancelWhileAcquiring
    | StopIdle
    | ReceiveFails
    | ReceiveBreaks
    | Receive(t: Task, peer: Peer)
    | TakeLock(t: Task)
    | ReleaseLock(t: Task)
    | Finish(t: Task)

  /** Another task is inside the lock this task would take. */
  ghost predicate Contended(s: State, t: Task)
    requires t in s.tasks
  {
    exists u :: u in s.tasks && u != t && s.tasks[u].lock == s.tasks[t].lock && s.tasks[u].phase.Handling?
  }

  ghost predicate Enabled(s: State, a: Action)
  {
    match a
    case AcquireSlot => s.listener.Idle? && s.free > 0
    case StopWhileAcquiring => s.listener.Idle? && s.free > 0
    case CancelWhileAcquiring => s.listener.Idle? && s.free > 0
    case StopIdle => s.listener.Idle?
    case ReceiveFails => s.listener.Holding?
    case ReceiveBreaks => s.listener.Holding?
    case Receive(t, _) => s.listener.Holding? && t !in s.tasks
    case TakeLock(t) => t in s.tasks && !s.tasks[t].busy && s.tasks[t].phase.Created? && !Contended(s, t)
    case ReleaseLock(t) => t in s.tasks && s.tasks[t].phase.Handling?
    case Finish(t) => t in s.tasks
  }

  /** A request arrives: book it under its peer and start its task. */
  function Admit(s: State, t: Task, peer: Peer): State
  {
    var entry := if peer in s.peers then s.peers[peer] else Entry(s.nextLock, 0);
    s.(listener := Idle, peers := s.peers[peer := Entry(entry.lock, entry.count + 1)],
       tasks := s.tasks[t := Job(peer, entry.lock, entry.count > 0, Created)],
       nextLock := if peer in s.peers then s.nextLock else s.nextLock + 1)
  }

  /** The task ends, however it ends: it leaves its peer's count and gives back its slot.  A
      peer without an entry would fail the cleanup before the slot is given back. */
  function Leave(s: State, t: Task): State
    requires t in s.tasks
  {
    var peer := s.tasks[t].peer;
    if peer !in s.peers then s.(tasks := s.tasks - {t}, missed := true)
    else
      var count := s.peers[peer].count;
      s.(free := s.free + 1, tasks := s.tasks - {t},
         peers := if count == 1 then s.peers - {peer} else s.peers[peer := Entry(s.tasks[t].lock, count - 1)])
  }

  ghost function Next(s: State, a: Action): State
  {
    if !Enabled(s, a) then s
    else
      match a
      case AcquireSlot => s.(free := s.free - 1, listener := Holding)
      case StopWhileAcquiring => s.(free := s.free - 1, listener := LeftWithSlot)
      case CancelWhileAcquiring => s.(free := s.free - 1, listener := LeftWithSlot)
      case StopIdle => s.(listener := Left)
      case ReceiveFails => s.(free := s.free + 1, listener := Left)
      case ReceiveBreaks => s.(listener := LeftWithSlot)
      case Receive(t, peer) => Admit(s, t, peer)
      case TakeLock(t) => s.(tasks := s.tasks[t := s.tasks[t].(phase := Handling)])
      case ReleaseLock(t) => s.(tasks := s.tasks[t := s.tasks[t].(phase := Replying)])
      case Finish(t) => Leave(s, t)
  }

  // ----- Invariants -----

  function TasksOf(tasks: map<Task, Job>, peer: Peer): set<Task>
  {
    set t | t in tasks && tasks[t].peer == peer
  }

  /** Each peer's count is the number of its outstanding tasks; peers without tasks have no entry. */
  ghost predicate Counted(s: State)
  {
    && (forall p :: p in s.peers ==> s.peers[p].count == |TasksOf(s.tasks, p)| > 0)
    && (forall t :: t in s.tasks ==> s.tasks[t].peer in s.peers)
  }

  /** Every slot is free, with a task, or with the listener. */
  ghost predicate SlotsBalance(s: State, maxConcurrency: nat)
  {
    && s.free >= 0
    && s.free + |s.tasks| + (if s.listener.Holding? || s.listener.LeftWithSlot? then 1 else 0) == maxConcurrency
  }

  /** A peer's tasks share its lock, and no two peers share one. */
  ghost predicate LocksPerPeer(peers: map<Peer, Entry>, tasks: map<Task, Job>, nextLock: LockId)
  {
    && (forall t :: t in tasks ==> tasks[t].peer in peers && tasks[t].lock == peers[tasks[t].peer].lock)
    && (forall p :: p in peers ==> peers[p].lock < nextLock)
    && (forall p, q :: p in peers && q in peers && p != q ==> peers[p].lock != peers[q].lock)
  }

  /** At most one task of a peer was not rejected, and a rejected one never takes the lock. */
  ghost predicate OneServed(tasks: map<Task, Job>)
  {
    && (forall t, u :: t in tasks && u in tasks && t != u && tasks[t].peer == tasks[u].peer ==> tasks[t].busy || tasks[u].busy)
    && (forall t :: t in tasks && tasks[t].busy ==> tasks[t].phase.Created?)
  }

  ghost predicate Invariant(s: State, maxConcurrency: nat)
  {
    Counted(s) && SlotsBalance(s, maxConcurrency) && !s.missed
    && LocksPerPeer(s.peers, s.tasks, s.nextLock) && OneServed(s.tasks)
  }

  lemma TasksWith(tasks: map<Task, Job>, t: Task, job: Job, p: Peer)
    requires t in tasks ==> tasks[t].peer == job.peer
    ensures TasksOf(tasks[t := job], p) == TasksOf(tasks, p) + (if p == job.peer then {t} else {})
  {
  }

  lemma TasksWithout(tasks: map<Task, Job>, t: Task, p: Peer)
    ensures TasksOf(tasks - {t}, p) == TasksOf(tasks, p) - {t}
  {
  }

  lemma AdmitCounted(s: State, t: Task, peer: Peer)
    requires Counted(s) && t !in s.tasks
    ensures Counted(Admit(s, t, peer))
    ensures peer !in s.peers ==> forall u :: u in s.tasks ==> s.tasks[u].peer != peer
  {
    var n := Admit(s, t, peer);
    forall p | p in n.peers ensures n.peers[p].count == |TasksOf(n.tasks, p)| > 0 {
      TasksWith(s.tasks, t, n.tasks[t], p);
      if p == peer && p !in s.peers {
        assert TasksOf(s.tasks, p) == {};
      }
    }
  }

  lemma AdmitLocks(s: State, t: Task, peer: Peer)
    requires LocksPerPeer(s.peers, s.tasks, s.nextLock) && t !in s.tasks
    ensures var n := Admit(s, t, peer); LocksPerPeer(n.peers, n.tasks, n.nextLock)
  {
  }

  lemma AdmitServed(tasks: map<Task, Job>, t: Task, job: Job)
    requires OneServed(tasks) && t !in tasks && job.phase.Created?
    requires !job.busy ==> forall u :: u in tasks ==> tasks[u].peer != job.peer
    ensures OneServed(tasks[t := job])
  {
  }

  lemma AdmitKeeps(s: State, t: Task, peer: Peer, maxConcurrency: nat)
    requires Invariant(s, maxConcurrency) && s.listener.Holding? && t !in s.tasks
    ensures Invariant(Admit(s, t, peer), maxConcurrency)
    ensures Admit(s, t, peer).tasks[t].busy <==> exists u :: u in s.tasks && s.tasks[u].peer == peer
  {
    AdmitCounted(s, t, peer);
    AdmitLocks(s, t, peer);
    AdmitServed(s.tasks, t, Admit(s, t, peer).tasks[t]);
    if peer in s.peers {
      var u :| u in TasksOf(s.tasks, peer);
      assert s.tasks[u].peer == peer;
    }
  }

  lemma LeaveCounted(s: State, t: Task)
    requires Counted(s) && t in s.tasks
    ensures Counted(Leave(s, t))
  {
    var n, peer := Leave(s, t), s.tasks[t].peer;
    assert t in TasksOf(s.tasks, peer);
    forall p | p in n.peers ensures n.peers[p].count == |TasksOf(n.tasks, p)| > 0 {
      TasksWithout(s.tasks, t, p);
      var all := TasksOf(s.tasks, p);
      assert p in s.peers && |all| == s.peers[p].count;
      if p == peer {
        assert |all - {t}| == |all| - 1;
      } else {
        assert all - {t} == all;
      }
    }
    forall u | u in n.tasks ensures n.tasks[u].peer in n.peers {
      if n.tasks[u].peer == peer {
        var others := TasksOf(s.tasks, peer) - {t};
        assert u in others && |others| == s.peers[peer].count - 1;
      }
    }
  }

  lemma LeaveLocks(s: State, t: Task)
    requires Counted(s) && LocksPerPeer(s.peers, s.tasks, s.nextLock) && t in s.tasks
    ensures var n := Leave(s, t); LocksPerPeer(n.peers, n.tasks, n.nextLock)
  {
    LeaveCounted(s, t);
  }

  lemma LeaveKeeps(s: State, t: Task, maxConcurrency: nat)
    requires Invariant(s, maxConcurrency) && t in s.tasks
    ensures Invariant(Leave(s, t), maxConcurrency)
  {
    LeaveCounted(s, t);
    LeaveLocks(s, t);
    assert (s.tasks - {t}).Keys == s.tasks.Keys - {t};
  }

  lemma PhaseCounted(s: State, t: Task, phase: Phase)
    requires Counted(s) && t in s.tasks
    ensures Counted(s.(tasks := s.tasks[t := s.tasks[t].(phase := phase)]))
  {
    var tasks := s.tasks[t := s.tasks[t].(phase := phase)];
    forall p | p in s.peers ensures TasksOf(tasks, p) == TasksOf(s.tasks, p) {
      TasksWith(s.tasks, t, tasks[t], p);
      assert p == s.tasks[t].peer ==> t in TasksOf(s.tasks, p);
    }
  }

  lemma PhaseServed(tasks: map<Task, Job>, t: Task, phase: Phase)
    requires OneServed(tasks) && t in tasks && !tasks[t].busy
    ensures OneServed(tasks[t := tasks[t].(phase := phase)])
  {
  }

  lemma PhaseLocks(peers: map<Peer, Entry>, tasks: map<Task, Job>, nextLock: LockId, t: Task, phase: Phase)
    requires LocksPerPeer(peers, tasks, nextLock) && t in tasks
    ensures LocksPerPeer(peers, tasks[t := tasks[t].(phase := phase)], nextLock)
  {
    var after := tasks[t := tasks[t].(phase := phase)];
    forall u | u in after ensures after[u].peer in peers && after[u].lock == peers[after[u].peer].lock {
      assert u in tasks && after[u].peer == tasks[u].peer && after[u].lock == tasks[u].lock;
    }
  }

  lemma PhaseKeeps(s: State, t: Task, phase: Phase, maxConcurrency: nat)
    requires Invariant(s, maxConcurrency) && t in s.tasks && !s.tasks[t].busy
    ensures Invariant(s.(tasks := s.tasks[t := s.tasks[t].(phase := phase)]), maxConcurrency)
  {
    hide Counted, OneServed, LocksPerPeer;
    PhaseCounted(s, t, phase);
    PhaseServed(s.tasks, t, phase);
    PhaseLocks(s.peers, s.tasks, s.nextLock, t, phase);
    assert (s.tasks[t := s.tasks[t].(phase := phase)]).Keys == s.tasks.Keys;
  }

  lemma BookedTask(s: State, t: Task, maxConcurrency: nat)
    requires Invariant(s, maxConcurrency) && t in s.tasks
    ensures s.tasks[t].peer in s.peers && s.peers[s.tasks[t].peer].count > 0
  {
  }

  lemma NextKeeps(s: State, a: Action, maxConcurrency: nat)
    requires Invariant(s, maxConcurrency)
    ensures Invariant(Next(s, a), maxConcurrency)
  {
    if Enabled(s, a) {
      match a {
        case Receive(t, peer) => AdmitKeeps(s, t, peer, maxConcurrency);
        case Finish(t) => LeaveKeeps(s, t, maxConcurrency);
        case TakeLock(t) => PhaseKeeps(s, t, Handling, maxConcurrency);
        case ReleaseLock(t) => PhaseKeeps(s, t, Replying, maxConcurrency);
        case _ =>
      }
    }
  }

  // ----- Every run -----

  ghost predicate IsRun(maxConcurrency: nat, states: seq<State>, actions: seq<Action>)
  {
    && |states| == |actions| + 1 && states[0] == Start(maxConcurrency)
    && forall i :: 0 <= i < |actions| ==> states[i + 1] == Next(states[i], actions[i])
  }

  lemma {:induction false} ReachableInvariant(maxConcurrency: nat, states: seq<State>, actions: seq<Action>, k: nat)
    requires IsRun(maxConcurrency, states, actions) && k < |states|
    ensures Invariant(states[k], maxConcurrency)
  {
    if k > 0 {
      ReachableInvariant(maxConcurrency, states, actions, k - 1);
      NextKeeps(states[k - 1], actions[k - 1], maxConcurrency);
    }
  }

  /** One peer's handlers never overlap. */
  lemma HandlersNeverOverlap(maxConcurrency: nat, states: seq<State>, actions: seq<Action>, k: nat, t: Task, u: Task)
    requires IsRun(maxConcurrency, states, actions) && k < |states|
    requires t in states[k].tasks && states[k].tasks[t].phase.Handling?
    requires u in states[k].tasks && states[k].tasks[u].phase.Handling?
    requires states[k].tasks[t].peer == states[k].tasks[u].peer
    ensures t == u
  {
    ReachableInvariant(maxConcurrency, states, actions, k);
  }

  /** A task that comes to its peer's lock always finds it free. */
  lemma LockIsNeverContended(maxConcurrency: nat, states: seq<State>, actions: seq<Action>, k: nat, t: Task)
    requires IsRun(maxConcurrency, states, actions) && k < |states|
    requires t in states[k].tasks && !states[k].tasks[t].busy
    ensures !Contended(states[k], t)
  {
    ReachableInvariant(maxConcurrency, states, actions, k);
  }

  /** No task's cleanup ever misses its peer's entry. */
  lemma CleanupNeverMisses(maxConcurrency: nat, states: seq<State>, actions: seq<Action>, k: nat)
    requires IsRun(maxConcurrency, states, actions) && k < |states|
    ensures !states[k].missed
    ensures forall t :: t in states[k].tasks ==> states[k].tasks[t].peer in states[k].peers
  {
    ReachableInvariant(maxConcurrency, states, actions, k);
  }

  /** With no task outstanding there are no peer entries, and all slots are free except the
      one the listener may hold or have left with. */
  lemma IdleServerIsClean(maxConcurrency: nat, states: seq<State>, actions: seq<Action>, k: nat)
    requires IsRun(maxConcurrency, states, actions) && k < |states| && states[k].tasks == map[]
    ensures states[k].peers == map[]
    ensures states[k].free == maxConcurrency <==> states[k].listener in {Idle, Left}
  {
    ReachableInvariant(maxConcurrency, states, actions, k);
    var s := states[k];
    forall p ensures p !in s.peers {
      assert TasksOf(s.tasks, p) == {};
    }
  }

  /** The step makes the listener leave with a slot. */
  ghost predicate TakesSlotAlong(s: State, a: Action)
  {
    (a.StopWhileAcquiring? || a.CancelWhileAcquiring? || a.ReceiveBreaks?) && Enabled(s, a)
  }

  lemma StepTakesSlotAlong(s: State, a: Action)
    ensures Next(s, a).listener.LeftWithSlot? <==> s.listener.LeftWithSlot? || TakesSlotAlong(s, a)
  {
  }

  ghost predicate EverTakenAlong(states: seq<State>, actions: seq<Action>, k: nat)
    requires k <= |actions| < |states|
  {
    exists i :: 0 <= i < k && TakesSlotAlong(states[i], actions[i])
  }

  /** An idle server whose listener has left has all its slots again if and only if the
      listener was neither stopped or cancelled just as it acquired one nor broken off while
      it waited for a request. */
  lemma {:induction false} SlotIsLostIff(maxConcurrency: nat, states: seq<State>, actions: seq<Action>, k: nat)
    requires IsRun(maxConcurrency, states, actions) && k < |states|
    ensures states[k].listener.LeftWithSlot? <==> EverTakenAlong(states, actions, k)
    ensures states[k].tasks == map[] && states[k].listener in {Left, LeftWithSlot} ==>
      (states[k].free == maxConcurrency <==> !EverTakenAlong(states, actions, k))
  {
    hide Next, TakesSlotAlong;
    if k > 0 {
      SlotIsLostIff(maxConcurrency, states, actions, k - 1);
      StepTakesSlotAlong(states[k - 1], actions[k - 1]);
    }
    if states[k].tasks == map[] {
      IdleServerIsClean(maxConcurrency, states, actions, k);
    }
  }

  /** Stopping just as the listener acquires a slot loses that slot for good. */
  lemma StopCanKeepASlot()
    ensures exists states: seq<State>, actions: seq<Action> :: IsRun(1, states, actions) && |states| == 2
              && states[1].tasks == map[] && states[1].listener.LeftWithSlot? && states[1].free == 0
  {
    var states := [Start(1), Start(1).(free := 0, listener := LeftWithSlot)];
    var actions := [StopWhileAcquiring];
    assert IsRun(1, states, actions);
  }

  // ----- What each step does -----

  /** An idle listener takes a free slot, hands it to the task of the request it receives, and
      gives it back if it leaves because the transport closed or it is told to stop. */
  lemma ListenerLaw(s: State, t: Task, peer: Peer)
    ensures s.listener.Idle? && s.free > 0 ==>
      Next(s, AcquireSlot) == s.(free := s.free - 1, listener := Holding)
    ensures s.listener.Idle? ==> Next(s, StopIdle) == s.(listener := Left)
    ensures s.listener.Holding? ==> Next(s, ReceiveFails) == s.(free := s.free + 1, listener := Left)
    ensures s.listener.Holding? && t !in s.tasks ==>
      var n := Next(s, Receive(t, peer));
      && n.listener.Idle? && n.free == s.free && t in n.tasks && n.tasks[t].peer == peer && n.tasks[t].phase.Created?
      && n.tasks - {t} == s.tasks
  {
  }

  /** In every reachable state an accepted request can go on: its task takes its peer's lock,
      handles the request, replies and leaves, giving its slot back. */
  lemma TasksAdvance(maxConcurrency: nat, states: seq<State>, actions: seq<Action>, k: nat, t: Task)
    requires IsRun(maxConcurrency, states, actions) && k < |states| && t in states[k].tasks
    ensures var s, job := states[k], states[k].tasks[t];
      && (job.phase.Created? && !job.busy ==>
            Enabled(s, TakeLock(t)) && Next(s, TakeLock(t)).tasks == s.tasks[t := job.(phase := Handling)])
      && (job.phase.Handling? ==>
            Enabled(s, ReleaseLock(t)) && Next(s, ReleaseLock(t)).tasks == s.tasks[t := job.(phase := Replying)])
      && Next(s, Finish(t)).tasks == s.tasks - {t} && Next(s, Finish(t)).free == s.free + 1
  {
    hide OneServed, SlotsBalance, LocksPerPeer, Contended;
    ReachableInvariant(maxConcurrency, states, actions, k);
    BookedTask(states[k], t, maxConcurrency);
    if !states[k].tasks[t].busy {
      LockIsNeverContended(maxConcurrency, states, actions, k, t);
    }
  }

  /** Nothing but its own steps touches a task. */
  lemma TasksAreLeftAlone(s: State, a: Action, t: Task)
    requires t in s.tasks && a !in {TakeLock(t), ReleaseLock(t), Finish(t)}
    ensures t in Next(s, a).tasks && Next(s, a).tasks[t] == s.tasks[t]
  {
    hide Contended;
  }

  // ----- The server object -----

  class MulticastApp {
    const maxConcurrency: nat
    var free: int
    var listener: Listener
    var peerLocks: map<Peer, Entry>
    var tasks: map<Task, Job>
    var nextLock: LockId

    ghost function View(): State
      reads this
    {
      State(free, listener, peerLocks, tasks, nextLock, false)
    }

    ghost predicate Valid()
      reads this
    {
      Invariant(View(), maxConcurrency)
    }

    constructor (maxConcurrency: nat)
      ensures Valid() && View() == Start(maxConcurrency) && this.maxConcurrency == maxConcurrency
    {
      this.maxConcurrency := maxConcurrency;
      free, listener, peerLocks, tasks, nextLock := maxConcurrency, Idle, map[], map[], 0;
    }

    /** The listener received a request: reject it as busy or give it its peer's lock. */
    method Spawn(t: Task, peer: Peer) returns (busy: bool)
      requires Valid() && listener.Holding? && t !in tasks
      modifies this
      ensures Valid() && View() == Admit(old(View()), t, peer)
      ensures busy <==> exists u :: u in old(tasks) && old(tasks)[u].peer == peer
    {
      hide Invariant;
      AdmitKeeps(View(), t, peer, maxConcurrency);
      var lock, count := nextLock, 0;
      if peer in peerLocks {
        lock, count := peerLocks[peer].lock, peerLocks[peer].count;
      } else {
        nextLock := nextLock + 1;
      }
      peerLocks := peerLocks[peer := Entry(lock, count + 1)];
      busy := count > 0;
      tasks := tasks[t := Job(peer, lock, busy, Created)];
      listener := Idle;
    }

    /** The cleanup at the end of every task; its peer's entry is always there. */
    method ServeFinally(t: Task)
      requires Valid() && t in tasks
      modifies this
      ensures Valid() && View() == Leave(old(View()), t)
    {
      hide Invariant;
      LeaveKeeps(View(), t, maxConcurrency);
      BookedTask(View(), t, maxConcurrency);
      var job := tasks[t];
      var count := peerLocks[job.peer].count;
      if count == 1 {
        peerLocks := peerLocks - {job.peer};
      } else {
        peerLocks := peerLocks[job.peer := Entry(job.lock, count - 1)];
      }
      free := free + 1;
      tasks := tasks - {t};
    }
  }
}
