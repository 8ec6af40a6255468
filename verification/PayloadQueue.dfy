/** The byte- and peer-bounded queue, with one event waking both producers and consumers.

    A task runs undisturbed between two waits, so `put` and `get` are a first pass through
    their loop and, after each wakeup, another pass.  A pass either finishes or clears the
    event and parks. */
module PayloadQueue {
  import opened Messages

  /** Plain bytes belong to the anonymous peer, None. */
  type Peer = Option<string>

  datatype Item = Item(peer: Peer, data: seq<bv8>)

  datatype Limits = Limits(maxsize: nat, maxBytes: nat, perPeer: nat)
  {
    predicate Valid() { maxsize >= 1 && maxBytes >= 1 && perPeer >= 1 }
  }

  type Task = nat

  /** What a parked task is waiting to do. */
  datatype Want = Putting(item: Item) | Getting

  datatype Outcome = Added | Got(item: Item) | QueueClosed | TooLarge | Parked

  /** Accepted items are numbered in order of acceptance.  `queued` numbers the items in the
      queue, `delivered` those `get` returned; `dropped` went with their peer, `discarded`
      with the queue. */
  datatype History = History(
    accepted: seq<Item>, queued: seq<nat>, delivered: seq<nat>,
    dropped: set<nat>, discarded: set<nat>, purged: set<Peer>)

  /** The shared event: its flag, the tasks parked on it, and those it woke that have not
      run yet. */
  datatype Event = Event(flag: bool, waiting: map<Task, Want>, woken: map<Task, Want>)
  {
    /** Setting an event that is already set does nothing; otherwise every waiter wakes. */
    function Set(): Event
    {
      if flag then this else Event(true, map[], woken + waiting)
    }

    function ClearAndWait(t: Task, want: Want): Event
    {
      Event(false, waiting[t := want], woken)
    }

    /** The task runs on, or is cancelled. */
    function Leave(t: Task): Event
    {
      Event(flag, waiting - {t}, woken - {t})
    }
  }

  datatype State = State(
    items: seq<Item>, bytes: int, counts: map<Peer, int>, closed: bool, changed: Event, history: History)

  const INITIAL := State([], 0, map[], false, Event(false, map[], map[]), History([], [], [], {}, {}, {}))

  // ----- Steps -----

  function Count(counts: map<Peer, int>, peer: Peer): int
  {
    if peer in counts then counts[peer] else 0
  }

  predicate Fits(limits: Limits, s: State, item: Item)
  {
    && |s.items| < limits.maxsize
    && s.bytes + |item.data| <= limits.maxBytes
    && Count(s.counts, item.peer) < limits.perPeer
  }

  function Notify(s: State): State
  {
    s.(changed := s.changed.Set())
  }

  function Park(s: State, t: Task, want: Want): State
  {
    s.(changed := s.changed.ClearAndWait(t, want))
  }

  function Accept(s: State, item: Item): State
  {
    s.(items := s.items + [item], bytes := s.bytes + |item.data|,
       counts := s.counts[item.peer := Count(s.counts, item.peer) + 1],
       history := s.history.(accepted := s.history.accepted + [item],
                             queued := s.history.queued + [|s.history.accepted|]))
  }

  function Deliver(s: State): State
    requires s.items != []
  {
    var peer, left := s.items[0].peer, Count(s.counts, s.items[0].peer) - 1;
    s.(items := s.items[1..], bytes := s.bytes - |s.items[0].data|,
       counts := if left == 0 then s.counts - {peer} else s.counts[peer := left],
       history := if s.history.queued == [] then s.history
                  else s.history.(queued := s.history.queued[1..],
                                  delivered := s.history.delivered + [s.history.queued[0]]))
  }

  /** One pass through the loop of `put` or `get`. */
  function Attempt(limits: Limits, s: State, t: Task, want: Want): (State, Outcome)
  {
    if s.closed then (s, QueueClosed)
    else
      match want
      case Putting(item) => if Fits(limits, s, item) then (Notify(Accept(s, item)), Added) else (Park(s, t, want), Parked)
      case Getting => if s.items != [] then (Notify(Deliver(s)), Got(s.items[0])) else (Park(s, t, want), Parked)
  }

  function Without(items: seq<Item>, peer: Peer): seq<Item>
  {
    if items == [] then []
    else (if items[0].peer == peer then [] else [items[0]]) + Without(items[1..], peer)
  }

  function NumbersWithout(items: seq<Item>, numbers: seq<nat>, peer: Peer): seq<nat>
  {
    if items == [] || numbers == [] then []
    else (if items[0].peer == peer then [] else [numbers[0]]) + NumbersWithout(items[1..], numbers[1..], peer)
  }

  function TotalBytes(items: seq<Item>): nat
  {
    if items == [] then 0 else |items[0].data| + TotalBytes(items[1..])
  }

  function Purge(s: State, peer: Peer): State
  {
    var kept := NumbersWithout(s.items, s.history.queued, peer);
    s.(items := Without(s.items, peer),
       bytes := s.bytes - TotalBytes(s.items) + TotalBytes(Without(s.items, peer)),
       counts := s.counts - {peer},
       history := s.history.(queued := kept, purged := s.history.purged + {peer},
                             dropped := s.history.dropped + (set n | n in s.history.queued && n !in kept)))
  }

  function Shut(s: State): State
  {
    s.(items := [], bytes := 0, counts := map[], closed := true,
       history := s.history.(queued := [], discarded := s.history.discarded + (set n | n in s.history.queued)))
  }

  // ----- Runs -----

  /** A task starts a `put` or `get`, runs on after a wakeup, or is cancelled while waiting;
      anyone may drop a peer or close the queue. */
  datatype Action =
    | StartPut(t: Task, item: Item)
    | StartGet(t: Task)
    | Resume(t: Task)
    | Cancel(t: Task)
    | DropPeer(peer: Peer)
    | Close

  function Begin(limits: Limits, s: State, t: Task, want: Want): (State, Outcome)
  {
    if want.Putting? && |want.item.data| > limits.maxBytes then (s, TooLarge) else Attempt(limits, s, t, want)
  }

  /** A task waits in one place at a time, and only a woken task runs on. */
  predicate Enabled(s: State, a: Action)
  {
    match a
    case StartPut(t, _) => t !in s.changed.waiting && t !in s.changed.woken
    case StartGet(t) => t !in s.changed.waiting && t !in s.changed.woken
    case Resume(t) => t in s.changed.woken
    case Cancel(t) => t in s.changed.waiting || t in s.changed.woken
    case _ => true
  }

  function Next(limits: Limits, s: State, a: Action): State
  {
    if !Enabled(s, a) then s
    else
      match a
      case StartPut(t, item) => Begin(limits, s, t, Putting(item)).0
      case StartGet(t) => Begin(limits, s, t, Getting).0
      case Resume(t) => Attempt(limits, s.(changed := s.changed.Leave(t)), t, s.changed.woken[t]).0
      case Cancel(t) => s.(changed := s.changed.Leave(t))
      case DropPeer(peer) => Notify(Purge(s, peer))
      case Close => Notify(Shut(s))
  }

  // ----- Invariants -----

  /** What the task would have to wait for, right now. */
  predicate Blocked(limits: Limits, s: State, want: Want)
  {
    !s.closed &&
    match want
    case Putting(item) => !Fits(limits, s, item)
    case Getting => s.items == []
  }

  /** Every task parked and not yet woken is really blocked; a set event has no waiters. */
  ghost predicate NoLostWakeup(limits: Limits, s: State)
  {
    && (s.changed.flag ==> s.changed.waiting == map[])
    && forall t :: t in s.changed.waiting ==> Blocked(limits, s, s.changed.waiting[t])
  }

  function PeerCount(items: seq<Item>, peer: Peer): nat
  {
    if items == [] then 0 else (if items[0].peer == peer then 1 else 0) + PeerCount(items[1..], peer)
  }

  /** The totals are those recomputed from the items, no count is zero, and all bounds hold. */
  ghost predicate Accounted(limits: Limits, s: State)
  {
    && s.bytes == TotalBytes(s.items) <= limits.maxBytes
    && |s.items| <= limits.maxsize
    && (forall p :: Count(s.counts, p) == PeerCount(s.items, p) <= limits.perPeer)
    && (forall p :: p in s.counts ==> s.counts[p] > 0)
  }

  ghost predicate Increasing(numbers: seq<nat>)
  {
    forall i, j :: 0 <= i < j < |numbers| ==> numbers[i] < numbers[j]
  }

  ghost predicate Numbered(accepted: seq<Item>, items: seq<Item>, numbers: seq<nat>)
  {
    && |items| == |numbers|
    && forall i :: 0 <= i < |items| ==> numbers[i] < |accepted| && accepted[numbers[i]] == items[i]
  }

  /** Delivered, dropped, discarded and queued items are exactly the accepted ones, each
      once; what was delivered and what is queued keeps the order of acceptance. */
  ghost predicate Conserved(s: State)
  {
    var h := s.history;
    && Numbered(h.accepted, s.items, h.queued)
    && Increasing(h.delivered + h.queued)
    && (forall n :: 0 <= n < |h.accepted| <==> n in h.delivered || n in h.queued || n in h.dropped || n in h.discarded)
    && (forall n :: n in h.delivered || n in h.queued ==> n !in h.dropped && n !in h.discarded)
    && h.dropped !! h.discarded
    && (forall n :: n in h.dropped ==> h.accepted[n].peer in h.purged)
    && (h.discarded != {} ==> s.closed)
  }

  ghost predicate Invariant(limits: Limits, s: State)
  {
    && Conserved(s) && Accounted(limits, s) && NoLostWakeup(limits, s)
    && (s.closed ==> s.items == [])
  }

  // ----- Accounting -----

  lemma {:induction false} Appended(items: seq<Item>, item: Item, peer: Peer)
    ensures TotalBytes(items + [item]) == TotalBytes(items) + |item.data|
    ensures PeerCount(items + [item], peer) == PeerCount(items, peer) + (if item.peer == peer then 1 else 0)
  {
    if items == [] {
      assert items + [item] == [item];
    } else {
      assert (items + [item])[1..] == items[1..] + [item];
      Appended(items[1..], item, peer);
    }
  }

  lemma {:induction false} Purged(items: seq<Item>, peer: Peer, other: Peer)
    ensures |Without(items, peer)| <= |items| && TotalBytes(Without(items, peer)) <= TotalBytes(items)
    ensures PeerCount(Without(items, peer), other) == if other == peer then 0 else PeerCount(items, other)
  {
    if items != [] {
      Purged(items[1..], peer, other);
      var rest := Without(items[1..], peer);
      assert ([items[0]] + rest)[1..] == rest && [] + rest == rest;
    }
  }

  lemma {:induction false} WithoutAppended(items: seq<Item>, item: Item, peer: Peer)
    ensures Without(items + [item], peer) == Without(items, peer) + (if item.peer == peer then [] else [item])
  {
    if items == [] {
      assert items + [item] == [item];
    } else {
      assert (items + [item])[1..] == items[1..] + [item];
      WithoutAppended(items[1..], item, peer);
      var head := if items[0].peer == peer then [] else [items[0]];
      var last := if item.peer == peer then [] else [item];
      assert head + (Without(items[1..], peer) + last) == head + Without(items[1..], peer) + last;
    }
  }

  lemma AcceptAccounted(limits: Limits, s: State, item: Item)
    requires Accounted(limits, s) && Fits(limits, s, item)
    ensures Accounted(limits, Accept(s, item))
  {
    var t := Accept(s, item);
    Appended(s.items, item, item.peer);
    forall p ensures Count(t.counts, p) == PeerCount(t.items, p) <= limits.perPeer {
      Appended(s.items, item, p);
      assert Count(s.counts, p) == PeerCount(s.items, p);
    }
  }

  lemma DeliverAccounted(limits: Limits, s: State)
    requires Accounted(limits, s) && s.items != [] && s.history.queued != []
    ensures Accounted(limits, Deliver(s))
  {
    var t := Deliver(s);
    forall p ensures Count(t.counts, p) == PeerCount(t.items, p) <= limits.perPeer {
      assert Count(s.counts, p) == PeerCount(s.items, p);
    }
    assert Count(s.counts, s.items[0].peer) == PeerCount(s.items, s.items[0].peer);
  }

  lemma PurgeAccounted(limits: Limits, s: State, peer: Peer)
    requires Accounted(limits, s) && |s.items| == |s.history.queued|
    ensures Accounted(limits, Purge(s, peer))
  {
    var t := Purge(s, peer);
    Purged(s.items, peer, peer);
    forall p ensures Count(t.counts, p) == PeerCount(t.items, p) <= limits.perPeer {
      Purged(s.items, peer, p);
      assert Count(s.counts, p) == PeerCount(s.items, p);
    }
  }

  // ----- Conservation and order -----

  lemma {:induction false} NumbersPurged(accepted: seq<Item>, items: seq<Item>, numbers: seq<nat>, peer: Peer)
    requires Numbered(accepted, items, numbers)
    ensures Numbered(accepted, Without(items, peer), NumbersWithout(items, numbers, peer))
    ensures forall n :: n in NumbersWithout(items, numbers, peer) ==> n in numbers
    ensures forall n :: n in numbers && n !in NumbersWithout(items, numbers, peer) ==> accepted[n].peer == peer
  {
    if items != [] {
      NumbersPurged(accepted, items[1..], numbers[1..], peer);
      assert numbers == [numbers[0]] + numbers[1..];
    }
  }

  lemma OneLessIncreasing(before: seq<nat>, n: nat, rest: seq<nat>)
    requires Increasing(before + [n] + rest)
    ensures Increasing(before + rest)
  {
    var all := before + [n] + rest;
    forall i, j | 0 <= i < j < |before + rest| ensures (before + rest)[i] < (before + rest)[j] {
      assert (before + rest)[i] == all[if i < |before| then i else i + 1];
      assert (before + rest)[j] == all[if j < |before| then j else j + 1];
    }
  }

  lemma {:induction false} PurgeIncreasing(before: seq<nat>, items: seq<Item>, numbers: seq<nat>, peer: Peer)
    requires |items| == |numbers| && Increasing(before + numbers)
    ensures Increasing(before + NumbersWithout(items, numbers, peer))
    decreases |items|
  {
    hide Increasing;
    if items != [] {
      var first, rest := numbers[0], numbers[1..];
      assert before + numbers == before + [first] + rest;
      if items[0].peer == peer {
        OneLessIncreasing(before, first, rest);
        PurgeIncreasing(before, items[1..], rest, peer);
        assert NumbersWithout(items, numbers, peer) == NumbersWithout(items[1..], rest, peer);
      } else {
        PurgeIncreasing(before + [first], items[1..], rest, peer);
        assert before + NumbersWithout(items, numbers, peer)
            == before + [first] + NumbersWithout(items[1..], rest, peer);
      }
    }
  }

  lemma AcceptConserved(s: State, item: Item)
    requires Conserved(s) && !s.closed
    ensures Conserved(Accept(s, item))
  {
    var h, g := s.history, Accept(s, item).history;
    var next := |h.accepted|;
    var numbers := h.delivered + h.queued;
    assert g.delivered + g.queued == numbers + [next];
    forall i | 0 <= i < |numbers| ensures numbers[i] < next {
      assert numbers[i] in h.delivered || numbers[i] in h.queued;
    }
    assert forall n :: n in g.queued <==> n in h.queued || n == next;
    assert next !in h.dropped && next !in h.discarded;
    assert forall n :: n in h.dropped ==> n < next;
  }

  lemma DeliverConserved(s: State)
    requires Conserved(s) && s.items != []
    ensures Conserved(Deliver(s))
  {
    var h, g := s.history, Deliver(s).history;
    assert g.delivered + g.queued == h.delivered + h.queued;
    assert h.queued == [h.queued[0]] + g.queued;
    assert forall n :: n in h.queued <==> n == h.queued[0] || n in g.queued;
    assert forall n :: n in g.delivered <==> n in h.delivered || n == h.queued[0];
  }

  lemma PurgeConserved(s: State, peer: Peer)
    requires Conserved(s)
    ensures Conserved(Purge(s, peer))
  {
    var h := s.history;
    NumbersPurged(h.accepted, s.items, h.queued, peer);
    PurgeIncreasing(h.delivered, s.items, h.queued, peer);
    var kept := NumbersWithout(s.items, h.queued, peer);
    forall n | n in h.delivered ensures n !in h.queued {
      DeliveredNotQueued(h.delivered, h.queued, n);
    }
  }

  lemma DeliveredNotQueued(delivered: seq<nat>, queued: seq<nat>, n: nat)
    requires Increasing(delivered + queued) && n in delivered
    ensures n !in queued
  {
    var i :| 0 <= i < |delivered| && delivered[i] == n;
    forall j | 0 <= j < |queued| ensures queued[j] != n {
      assert (delivered + queued)[i] < (delivered + queued)[|delivered| + j];
    }
  }

  lemma ShutConserved(s: State)
    requires Conserved(s)
    ensures Conserved(Shut(s))
  {
    var h := s.history;
    forall n | n in h.delivered ensures n !in h.queued {
      DeliveredNotQueued(h.delivered, h.queued, n);
    }
    assert Increasing(h.delivered) by {
      assert forall i :: 0 <= i < |h.delivered| ==> h.delivered[i] == (h.delivered + h.queued)[i];
    }
    assert h.delivered + [] == h.delivered;
  }

  // ----- Every reachable state -----

  lemma InitialInvariant(limits: Limits)
    requires limits.Valid()
    ensures Invariant(limits, INITIAL)
  {
  }

  /** Waking everybody re-establishes the wakeup invariant after any change of the queue. */
  lemma NotifyKeeps(limits: Limits, s: State)
    requires Conserved(s) && Accounted(limits, s) && (s.closed ==> s.items == [])
    requires s.changed.flag ==> s.changed.waiting == map[]
    ensures Invariant(limits, Notify(s))
  {
    assert Conserved(Notify(s)) && Accounted(limits, Notify(s));
  }

  lemma ParkKeeps(limits: Limits, s: State, t: Task, want: Want)
    requires Invariant(limits, s) && Blocked(limits, s, want)
    ensures Invariant(limits, Park(s, t, want))
  {
    assert Conserved(Park(s, t, want)) && Accounted(limits, Park(s, t, want));
  }

  lemma AttemptKeeps(limits: Limits, s: State, t: Task, want: Want)
    requires Invariant(limits, s)
    ensures Invariant(limits, Attempt(limits, s, t, want).0)
  {
    assert |s.items| == |s.history.queued|;
    hide Conserved, Accounted;
    if !s.closed {
      if Blocked(limits, s, want) {
        ParkKeeps(limits, s, t, want);
      } else if want.Putting? {
        AcceptAccounted(limits, s, want.item);
        AcceptConserved(s, want.item);
        NotifyKeeps(limits, Accept(s, want.item));
      } else {
        DeliverAccounted(limits, s);
        DeliverConserved(s);
        NotifyKeeps(limits, Deliver(s));
      }
    }
  }

  lemma NextKeeps(limits: Limits, s: State, a: Action)
    requires Invariant(limits, s)
    ensures Invariant(limits, Next(limits, s, a))
  {
    if Enabled(s, a) {
      match a {
        case StartPut(t, item) => AttemptKeeps(limits, s, t, Putting(item));
        case StartGet(t) => AttemptKeeps(limits, s, t, Getting);
        case Resume(t) => AttemptKeeps(limits, s.(changed := s.changed.Leave(t)), t, s.changed.woken[t]);
        case Cancel(t) =>
        case DropPeer(peer) =>
          PurgeAccounted(limits, s, peer);
          PurgeConserved(s, peer);
          NotifyKeeps(limits, Purge(s, peer));
        case Close =>
          ShutConserved(s);
          NotifyKeeps(limits, Shut(s));
      }
    }
  }

  /** A run of the queue. */
  ghost predicate IsRun(limits: Limits, states: seq<State>, actions: seq<Action>)
  {
    && |states| == |actions| + 1 && states[0] == INITIAL
    && forall i :: 0 <= i < |actions| ==> states[i + 1] == Next(limits, states[i], actions[i])
  }

  lemma {:induction false} ReachableInvariant(limits: Limits, states: seq<State>, actions: seq<Action>, k: nat)
    requires limits.Valid() && IsRun(limits, states, actions) && k < |states|
    ensures Invariant(limits, states[k])
  {
    if k > 0 {
      ReachableInvariant(limits, states, actions, k - 1);
      NextKeeps(limits, states[k - 1], actions[k - 1]);
    }
  }

  /** In every reachable state of any number of producers and consumers: no `get` is parked
      while an item is queued, no `put` while its item would fit, and nobody after `close`. */
  lemma NobodySleepsThroughAChance(limits: Limits, states: seq<State>, actions: seq<Action>, k: nat, t: Task)
    requires limits.Valid() && IsRun(limits, states, actions) && k < |states| && t in states[k].changed.waiting
    ensures !states[k].closed
    ensures states[k].changed.waiting[t].Getting? ==> states[k].items == []
    ensures states[k].changed.waiting[t].Putting? ==> !Fits(limits, states[k], states[k].changed.waiting[t].item)
  {
    ReachableInvariant(limits, states, actions, k);
  }

  /** What is still accounted for as delivered or queued. */
  predicate Kept(h: History, n: nat)
  {
    n in h.delivered || n in h.queued
  }

  /** The action takes item n out of the queue undelivered: its peer is dropped, or the queue
      is closed, while it is queued. */
  predicate Removes(s: State, a: Action, n: nat)
  {
    && n in s.history.queued && n < |s.history.accepted|
    && (a == DropPeer(s.history.accepted[n].peer) || a.Close?)
  }

  /** One step keeps the record of accepted items, and loses an item only by removing it. */
  lemma StepLoses(limits: Limits, s: State, a: Action, n: nat)
    requires Invariant(limits, s)
    ensures var t := Next(limits, s, a);
      && s.history.accepted <= t.history.accepted
      && (n < |t.history.accepted| && !Kept(t.history, n) ==>
            n < |s.history.accepted| && (Kept(s.history, n) ==> Removes(s, a, n)))
  {
    if Enabled(s, a) {
      match a {
        case StartPut(t, item) => AttemptLoses(limits, s, t, Putting(item), n);
        case StartGet(t) => AttemptLoses(limits, s, t, Getting, n);
        case Resume(t) => AttemptLoses(limits, s.(changed := s.changed.Leave(t)), t, s.changed.woken[t], n);
        case DropPeer(peer) => NumbersPurged(s.history.accepted, s.items, s.history.queued, peer);
        case _ =>
      }
    }
  }

  lemma AttemptLoses(limits: Limits, s: State, t: Task, want: Want, n: nat)
    requires |s.items| == |s.history.queued|
    ensures var h, g := s.history, Attempt(limits, s, t, want).0.history;
      h.accepted <= g.accepted && (n < |g.accepted| && !Kept(g, n) ==> n < |h.accepted| && !Kept(h, n))
  {
    var h := s.history;
    if !s.closed && want.Getting? && s.items != [] {
      assert h.queued == [h.queued[0]] + h.queued[1..];
    }
  }

  ghost predicate Removed(states: seq<State>, actions: seq<Action>, k: nat, n: nat)
    requires k <= |actions| < |states|
  {
    exists i :: 0 <= i < k && Removes(states[i], actions[i], n)
  }

  /** In every reachable state an accepted item that was not delivered and is not queued was
      queued when its own peer was dropped or the queue was closed; and what was delivered
      came out in the order of acceptance, before everything still queued. */
  lemma {:induction false} NothingElseIsLost(limits: Limits, states: seq<State>, actions: seq<Action>, k: nat, n: nat)
    requires limits.Valid() && IsRun(limits, states, actions) && k < |states|
    requires n < |states[k].history.accepted| && !Kept(states[k].history, n)
    ensures Removed(states, actions, k, n)
    ensures Increasing(states[k].history.delivered + states[k].history.queued)
  {
    hide Next, Accounted, NoLostWakeup, Increasing, Removes, Kept;
    ReachableInvariant(limits, states, actions, k);
    if k > 0 {
      ReachableInvariant(limits, states, actions, k - 1);
      StepLoses(limits, states[k - 1], actions[k - 1], n);
      if !Kept(states[k - 1].history, n) {
        NothingElseIsLost(limits, states, actions, k - 1, n);
      }
    }
  }

  // ----- The queue object -----

  class PayloadQueue {
    const limits: Limits
    var items: seq<Item>
    var bytes: int
    var counts: map<Peer, int>
    var closed: bool
    var changed: Event
    ghost var history: History

    ghost function View(): State
      reads this
    {
      State(items, bytes, counts, closed, changed, history)
    }

    ghost predicate Valid()
      reads this
    {
      limits.Valid() && Invariant(limits, View())
    }

    constructor (limits: Limits)
      requires limits.Valid()
      ensures Valid() && this.limits == limits && View() == INITIAL
    {
      InitialInvariant(limits);
      hide Invariant;
      this.limits := limits;
      items, bytes, counts, closed := [], 0, map[], false;
      changed := INITIAL.changed;
      history := INITIAL.history;
    }

    /** One pass through the loop of `put`. */
    method TryPut(t: Task, item: Item) returns (outcome: Outcome)
      requires Valid()
      modifies this
      ensures Valid() && (View(), outcome) == Attempt(limits, old(View()), t, Putting(item))
    {
      AttemptKeeps(limits, View(), t, Putting(item));
      hide Invariant;
      if closed {
        return QueueClosed;
      }
      var count := if item.peer in counts then counts[item.peer] else 0;
      if |items| < limits.maxsize && bytes + |item.data| <= limits.maxBytes && count < limits.perPeer {
        items := items + [item];
        bytes := bytes + |item.data|;
        counts := counts[item.peer := count + 1];
        history := history.(accepted := history.accepted + [item], queued := history.queued + [|history.accepted|]);
        changed := changed.Set();
        return Added;
      }
      changed := changed.ClearAndWait(t, Putting(item));
      outcome := Parked;
    }

    /** One pass through the loop of `get`. */
    method TryGet(t: Task) returns (outcome: Outcome)
      requires Valid()
      modifies this
      ensures Valid() && (View(), outcome) == Attempt(limits, old(View()), t, Getting)
    {
      AttemptKeeps(limits, View(), t, Getting);
      assert |items| == |history.queued|;
      hide Invariant;
      if closed {
        return QueueClosed;
      }
      if items != [] {
        var item := items[0];
        items := items[1..];
        bytes := bytes - |item.data|;
        var left := (if item.peer in counts then counts[item.peer] else 0) - 1;
        counts := counts[item.peer := left];
        if left == 0 {
          counts := counts - {item.peer};
        }
        history := history.(queued := history.queued[1..], delivered := history.delivered + [history.queued[0]]);
        assert counts == Deliver(old(View())).counts;
        changed := changed.Set();
        return Got(item);
      }
      changed := changed.ClearAndWait(t, Getting);
      outcome := Parked;
    }

    method Put(t: Task, item: Item) returns (outcome: Outcome)
      requires Valid() && t !in changed.waiting && t !in changed.woken
      modifies this
      ensures Valid() && (View(), outcome) == Begin(limits, old(View()), t, Putting(item))
    {
      if |item.data| > limits.maxBytes {
        return TooLarge;
      }
      outcome := TryPut(t, item);
    }

    /** A woken task runs on: it checks everything again, whatever the flag says by now. */
    method RunOn(t: Task) returns (outcome: Outcome)
      requires Valid() && t in changed.woken
      modifies this
      ensures Valid() && View() == Next(limits, old(View()), Resume(t))
      ensures outcome == Attempt(limits, old(View()), t, old(changed.woken[t])).1
    {
      var want := changed.woken[t];
      changed := changed.Leave(t);
      match want {
        case Putting(item) => outcome := TryPut(t, item);
        case Getting => outcome := TryGet(t);
      }
    }

    /** Rebuild the queue without one peer's items. */
    method RemoveItems(peer: Peer)
      modifies this`items, this`bytes
      ensures items == Without(old(items), peer)
      ensures bytes == old(bytes) - TotalBytes(old(items)) + TotalBytes(items)
    {
      var remaining: seq<Item> := [];
      assert TotalBytes([]) == 0 && Without([], peer) == [];
      hide Without, TotalBytes;
      for k := 0 to |items|
        invariant items == old(items)
        invariant remaining == Without(items[..k], peer)
        invariant bytes == old(bytes) - TotalBytes(items[..k]) + TotalBytes(remaining)
      {
        var item := items[k];
        assert items[..k + 1] == items[..k] + [item];
        WithoutAppended(items[..k], item, peer);
        Appended(items[..k], item, peer);
        Appended(remaining, item, peer);
        if item.peer == peer {
          bytes := bytes - |item.data|;
        } else {
          remaining := remaining + [item];
        }
      }
      assert items[..|items|] == items;
      items := remaining;
    }

    method DropPeerItems(peer: Peer)
      requires Valid()
      modifies this
      ensures Valid() && View() == Next(limits, old(View()), DropPeer(peer))
    {
      NextKeeps(limits, View(), DropPeer(peer));
      assert |items| == |history.queued|;
      hide Invariant;
      ghost var kept := NumbersWithout(items, history.queued, peer);
      RemoveItems(peer);
      counts := counts - {peer};
      history := history.(queued := kept, purged := history.purged + {peer},
                          dropped := history.dropped + (set n | n in history.queued && n !in kept));
      changed := changed.Set();
    }

    method CloseQueue()
      requires Valid()
      modifies this
      ensures Valid() && View() == Next(limits, old(View()), Close)
    {
      NextKeeps(limits, View(), Close);
      hide Invariant;
      closed := true;
      items := [];
      counts := map[];
      bytes := 0;
      history := history.(queued := [], discarded := history.discarded + (set n | n in history.queued));
      changed := changed.Set();
    }
  }
}
