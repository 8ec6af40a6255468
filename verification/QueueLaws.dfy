/** What `put` and `get` promise their callers: what they return, when they wait, and that a
    waiting task is not forgotten. */
module QueueLaws {
  import opened Messages
  import opened PayloadQueue

  /** What a step returns to the task that took it; Parked if it returns nothing, or not yet. */
  function Returned(limits: Limits, s: State, a: Action): Outcome
  {
    if !Enabled(s, a) then Parked
    else
      match a
      case StartPut(t, item) => Begin(limits, s, t, Putting(item)).1
      case StartGet(t) => Begin(limits, s, t, Getting).1
      case Resume(t) => Attempt(limits, s.(changed := s.changed.Leave(t)), t, s.changed.woken[t]).1
      case _ => Parked
  }

  /** What the task that takes the step wants; None if the step is not part of a call. */
  function WantOf(s: State, a: Action): Option<Want>
  {
    if !Enabled(s, a) then None
    else
      match a
      case StartPut(_, item) => Some(Putting(item))
      case StartGet(_) => Some(Getting)
      case Resume(t) => Some(s.changed.woken[t])
      case _ => None
  }

  // ----- put -----

  /** The item would keep all three bounds, counted from the items themselves. */
  predicate HasRoom(limits: Limits, items: seq<Item>, item: Item)
  {
    && |items + [item]| <= limits.maxsize
    && TotalBytes(items + [item]) <= limits.maxBytes
    && PeerCount(items + [item], item.peer) <= limits.perPeer
  }

  /** `put` adds its item, last, exactly if the queue is open and has room for it; it fails
      if the queue is closed, refuses an item too large for any queue, and waits otherwise. */
  lemma PutLaw(limits: Limits, s: State, a: Action, item: Item)
    requires Invariant(limits, s) && WantOf(s, a) == Some(Putting(item))
    ensures var t, outcome := Next(limits, s, a), Returned(limits, s, a);
      && (outcome.TooLarge? <==> a.StartPut? && |item.data| > limits.maxBytes)
      && (!outcome.TooLarge? ==>
            && (outcome.QueueClosed? <==> s.closed)
            && (outcome.Added? <==> !s.closed && HasRoom(limits, s.items, item))
            && (outcome.Parked? <==> !s.closed && !HasRoom(limits, s.items, item)))
      && t.items == (if outcome.Added? then s.items + [item] else s.items)
      && t.history.accepted == (if outcome.Added? then s.history.accepted + [item] else s.history.accepted)
      && (outcome.Parked? ==> a.t in t.changed.waiting && t.changed.waiting[a.t] == Putting(item))
  {
    Appended(s.items, item, item.peer);
    assert Count(s.counts, item.peer) == PeerCount(s.items, item.peer);
  }

  // ----- get -----

  /** `get` takes the oldest item exactly if there is one; it fails if the queue is closed,
      and waits otherwise. */
  lemma GetLaw(limits: Limits, s: State, a: Action)
    requires Invariant(limits, s) && WantOf(s, a) == Some(Getting)
    ensures var t, outcome := Next(limits, s, a), Returned(limits, s, a);
      if s.closed then outcome == QueueClosed && t.items == s.items
      else if s.items != [] then
        && outcome == Got(s.items[0]) && t.items == s.items[1..]
        && s.history.queued != [] && t.history.delivered == s.history.delivered + [s.history.queued[0]]
        && s.history.queued[0] < |s.history.accepted| && s.items[0] == s.history.accepted[s.history.queued[0]]
      else outcome == Parked && a.t in t.changed.waiting && t.changed.waiting[a.t] == Getting
  {
  }

  /** Nothing else adds or delivers. */
  lemma OthersLaw(limits: Limits, s: State, a: Action)
    requires Invariant(limits, s) && WantOf(s, a).None?
    ensures var t := Next(limits, s, a);
      && t.history.accepted == s.history.accepted && t.history.delivered == s.history.delivered
      && !Returned(limits, s, a).Got? && !Returned(limits, s, a).Added?
  {
  }

  /** The items `get` returned, in order. */
  function GotItems(limits: Limits, states: seq<State>, actions: seq<Action>, k: nat): seq<Item>
    requires k <= |actions| < |states|
  {
    if k == 0 then []
    else
      var outcome := Returned(limits, states[k - 1], actions[k - 1]);
      GotItems(limits, states, actions, k - 1) + (if outcome.Got? then [outcome.item] else [])
  }

  /** The items whose `put` returned, in order. */
  function AddedItems(limits: Limits, states: seq<State>, actions: seq<Action>, k: nat): seq<Item>
    requires k <= |actions| < |states|
  {
    if k == 0 then []
    else
      var want := WantOf(states[k - 1], actions[k - 1]);
      AddedItems(limits, states, actions, k - 1) +
      (if Returned(limits, states[k - 1], actions[k - 1]).Added? && want.Some? && want.value.Putting?
       then [want.value.item] else [])
  }

  ghost predicate NumberedAs(items: seq<Item>, accepted: seq<Item>, numbers: seq<nat>)
  {
    && |items| == |numbers|
    && forall i :: 0 <= i < |items| ==> numbers[i] < |accepted| && items[i] == accepted[numbers[i]]
  }

  lemma StillNumbered(items: seq<Item>, accepted: seq<Item>, numbers: seq<nat>, more: seq<Item>)
    requires NumberedAs(items, accepted, numbers)
    ensures NumberedAs(items, accepted + more, numbers)
  {
  }

  /** One step keeps what was returned and what is recorded the same. */
  lemma StepReturns(limits: Limits, s: State, a: Action, got: seq<Item>)
    requires Invariant(limits, s) && NumberedAs(got, s.history.accepted, s.history.delivered)
    ensures var t, outcome, want := Next(limits, s, a), Returned(limits, s, a), WantOf(s, a);
      && t.history.accepted == s.history.accepted +
           (if outcome.Added? && want.Some? && want.value.Putting? then [want.value.item] else [])
      && NumberedAs(got + (if outcome.Got? then [outcome.item] else []), t.history.accepted, t.history.delivered)
  {
    hide Invariant, Next, Returned;
    var want := WantOf(s, a);
    if want.None? {
      OthersLaw(limits, s, a);
    } else if want.value.Getting? {
      GetLaw(limits, s, a);
      GetRecords(limits, s, a);
    } else {
      PutLaw(limits, s, a, want.value.item);
      PutRecords(limits, s, a, want.value.item);
    }
    assert got + [] == got && s.history.accepted + [] == s.history.accepted;
  }

  lemma GetRecords(limits: Limits, s: State, a: Action)
    requires WantOf(s, a) == Some(Getting)
    ensures Next(limits, s, a).history.accepted == s.history.accepted && !Returned(limits, s, a).Added?
    ensures !Returned(limits, s, a).Got? ==> Next(limits, s, a).history.delivered == s.history.delivered
  {
  }

  lemma PutRecords(limits: Limits, s: State, a: Action, item: Item)
    requires WantOf(s, a) == Some(Putting(item))
    ensures Next(limits, s, a).history.delivered == s.history.delivered && !Returned(limits, s, a).Got?
  {
  }

  /** Over every run: the items whose `put` returned are the accepted ones, and the items
      `get` returned are those delivered, each in order; so `get` returns in the order of
      acceptance, none twice. */
  lemma {:induction false} ReturnsAreRecorded(limits: Limits, states: seq<State>, actions: seq<Action>, k: nat)
    requires limits.Valid() && IsRun(limits, states, actions) && k < |states|
    ensures AddedItems(limits, states, actions, k) == states[k].history.accepted
    ensures NumberedAs(GotItems(limits, states, actions, k), states[k].history.accepted, states[k].history.delivered)
    ensures Increasing(states[k].history.delivered)
  {
    hide Next, Returned, WantOf, Accounted, NoLostWakeup;
    ReachableInvariant(limits, states, actions, k);
    FirstIncreasing(states[k].history.delivered, states[k].history.queued);
    if k > 0 {
      ReachableInvariant(limits, states, actions, k - 1);
      ReturnsAreRecorded(limits, states, actions, k - 1);
      StepReturns(limits, states[k - 1], actions[k - 1], GotItems(limits, states, actions, k - 1));
    }
  }

  lemma FirstIncreasing(a: seq<nat>, b: seq<nat>)
    requires Increasing(a + b)
    ensures Increasing(a)
  {
    assert forall i :: 0 <= i < |a| ==> (a + b)[i] == a[i];
  }

  // ----- Waiting tasks, dropped peers, closing -----

  /** A task waits in one place. */
  ghost predicate WaitsOnce(s: State)
  {
    forall t :: t in s.changed.waiting ==> t !in s.changed.woken
  }

  lemma {:induction false} ReachableWaitsOnce(limits: Limits, states: seq<State>, actions: seq<Action>, k: nat)
    requires IsRun(limits, states, actions) && k < |states|
    ensures WaitsOnce(states[k])
  {
    if k > 0 {
      ReachableWaitsOnce(limits, states, actions, k - 1);
    }
  }

  /** A waiting task stays parked or woken, wanting the same, until it runs on or is cancelled;
      once woken it can always run on. */
  lemma WaitersAreKept(limits: Limits, s: State, a: Action, t: Task)
    requires WaitsOnce(s) && !(a.Resume? && a.t == t) && !(a.Cancel? && a.t == t)
    ensures var n := Next(limits, s, a);
      && (t in s.changed.woken ==> t in n.changed.woken && n.changed.woken[t] == s.changed.woken[t] && Enabled(n, Resume(t)))
      && (t in s.changed.waiting ==>
            (t in n.changed.waiting && n.changed.waiting[t] == s.changed.waiting[t])
            || (t in n.changed.woken && n.changed.woken[t] == s.changed.waiting[t]))
  {
  }

  /** A cancelled task waits no longer. */
  lemma CancelledIsGone(limits: Limits, s: State, t: Task)
    ensures var n := Next(limits, s, Cancel(t));
      t !in n.changed.waiting && t !in n.changed.woken && n.items == s.items && n.history == s.history
  {
  }

  /** Dropping a peer leaves none of its items and all others. */
  lemma {:induction false} DropLeaves(items: seq<Item>, peer: Peer, item: Item)
    ensures item in Without(items, peer) <==> item in items && item.peer != peer
  {
    if items != [] {
      DropLeaves(items[1..], peer, item);
      assert items == [items[0]] + items[1..];
      var rest := Without(items[1..], peer);
      assert item in [items[0]] + rest <==> item == items[0] || item in rest;
    }
  }

  lemma DropLaw(limits: Limits, s: State, peer: Peer, item: Item)
    requires Invariant(limits, s)
    ensures var t := Next(limits, s, DropPeer(peer));
      (item in t.items <==> item in s.items && item.peer != peer) && t.closed == s.closed
  {
    DropLeaves(s.items, peer, item);
  }

  /** Closing empties the queue for good: from then on every call that runs fails. */
  lemma CloseLaw(limits: Limits, s: State)
    requires Invariant(limits, s)
    ensures var t := Next(limits, s, Close);
      t.closed && t.items == [] && t.changed.waiting == map[] && t.changed.flag
  {
  }

  lemma ClosedCallsFail(limits: Limits, s: State, a: Action)
    requires s.closed
    ensures Next(limits, s, a).closed
    ensures WantOf(s, a).Some? ==> Returned(limits, s, a) in {QueueClosed, TooLarge}
  {
  }
}
