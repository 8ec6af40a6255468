/** Sessions in memory: a dictionary, and a heap of expiry marks that may be stale. */
module MemoryStore {
  import opened Messages
  import opened ExpiryHeap
  import opened Sessions

  /** Every session has its mark in the heap. */
  ghost predicate Indexed(sessions: Table, marks: multiset<Mark>)
  {
    forall k :: k in sessions ==> Mark(sessions[k].expiry, k) in marks
  }

  /** `after` is `before` with some expired sessions removed. */
  ghost predicate OnlyExpiredGone(before: Table, after: Table, now: real)
  {
    && (forall k :: k in after ==> k in before && after[k] == before[k])
    && (forall k :: k in before && before[k].expiry > now ==> k in after)
  }

  /** Popping one expired mark: a stale mark deletes nothing, even if its key is in use
      again, and the marks of the remaining sessions all remain. */
  lemma DropStep(before: Table, sessions: Table, marks: multiset<Mark>, least: Mark, now: real)
    requires OnlyExpiredGone(before, sessions, now) && Indexed(sessions, marks)
    requires least in marks && least.expiry <= now
    ensures var after := if least.key in sessions && sessions[least.key].expiry == least.expiry
                         then sessions - {least.key} else sessions;
      OnlyExpiredGone(before, after, now) && Indexed(after, marks - multiset{least})
  {
  }

  lemma MarkNotBeforeRoot(sessions: Table, heap: seq<Mark>, k: Key)
    requires IsHeap(heap) && Indexed(sessions, multiset(heap)) && k in sessions
    ensures heap != [] && heap[0].expiry <= sessions[k].expiry
  {
    var m := Mark(sessions[k].expiry, k);
    assert m in heap;
    var i :| 0 <= i < |heap| && heap[i] == m;
    RootIsLeast(heap, i);
  }

  /** What an operation that reads the clock twice leaves behind.  A removal or a successful
      rotation prunes again afterwards; a creation dates its session by the second reading. */
  function MemoryStep(limits: Limits, table: Table, op: Operation, first: real, second: real): (Table, Result)
  {
    var (after, result) := Apply(limits, Live(table, first), op, second);
    if op.Destroy? || op.Revoke? || result == Rotated(true) then (Live(after, second), result) else (after, result)
  }

  /** Pushes that pay for a number of rebuilds. */
  function Paid(rebuilds: nat, maxSessions: nat): nat
  {
    rebuilds * (maxSessions + 1)
  }

  lemma PaidIsProduct(rebuilds: nat, maxSessions: nat)
    ensures Paid(rebuilds, maxSessions) == rebuilds * (maxSessions + 1)
  {
  }

  lemma OneMoreRebuild(rebuilds: nat, maxSessions: nat)
    ensures Paid(rebuilds + 1, maxSessions) == Paid(rebuilds, maxSessions) + maxSessions + 1
  {
  }

  class InMemorySessionStore {
    const limits: Limits
    var sessions: Table
    var expiry: seq<Mark>
    // How often a mark was pushed and the heap rebuilt.
    ghost var pushes: nat
    ghost var rebuilds: nat

    ghost predicate Valid()
      reads this
    {
      && limits.Valid()
      && IsHeap(expiry) && Indexed(sessions, multiset(expiry))
      && |sessions| <= limits.maxSessions
      && |expiry| <= 2 * limits.maxSessions + 1
      && CostBound()
    }

    /** Every rebuild is paid for by max_sessions + 1 pushes. */
    ghost predicate CostBound()
      reads this
    {
      && Paid(rebuilds, limits.maxSessions) <= pushes
      && Paid(rebuilds, limits.maxSessions) + |expiry| <= pushes + limits.maxSessions
    }

    constructor (limits: Limits)
      requires limits.Valid()
      ensures Valid() && this.limits == limits && sessions == map[] && expiry == [] && pushes == rebuilds == 0
    {
      this.limits := limits;
      sessions, expiry, pushes, rebuilds := map[], [], 0, 0;
    }

    /** The marks of the current sessions, for a rebuild. */
    method MarkAll() returns (marks: seq<Mark>)
      ensures |marks| == |sessions| && Indexed(sessions, multiset(marks))
    {
      marks := [];
      var left := sessions.Keys;
      while left != {}
        invariant left <= sessions.Keys && |marks| + |left| == |sessions|
        invariant forall k :: k in sessions && k !in left ==> Mark(sessions[k].expiry, k) in multiset(marks)
        decreases |left|
      {
        var k :| k in left;
        marks := marks + [Mark(sessions[k].expiry, k)];
        left := left - {k};
      }
    }

    /** Pop every mark that has expired, deleting its session unless the mark is stale. */
    method DropExpired(now: real)
      requires IsHeap(expiry) && Indexed(sessions, multiset(expiry))
      modifies this`sessions, this`expiry
      ensures IsHeap(expiry) && Indexed(sessions, multiset(expiry)) && |expiry| <= old(|expiry|)
      ensures sessions == Live(old(sessions), now)
    {
      ghost var before := sessions;
      while expiry != [] && expiry[0].expiry <= now
        invariant IsHeap(expiry) && Indexed(sessions, multiset(expiry)) && |expiry| <= old(|expiry|)
        invariant OnlyExpiredGone(before, sessions, now)
        decreases |expiry|
      {
        ghost var marks := multiset(expiry);
        var least, rest := Pop(expiry);
        expiry := rest;
        DropStep(before, sessions, marks, least, now);
        assert marks - multiset{least} == multiset(expiry);
        if least.key in sessions && sessions[least.key].expiry == least.expiry {
          sessions := sessions - {least.key};
        }
      }
      forall k | k in sessions ensures sessions[k].expiry > now {
        MarkNotBeforeRoot(sessions, expiry, k);
      }
    }

    /** Replace the heap by one mark per session. */
    method Rebuild()
      requires |expiry| > 2 * limits.maxSessions >= 2 * |sessions| && CostBound()
      modifies this`expiry, this`rebuilds
      ensures IsHeap(expiry) && Indexed(sessions, multiset(expiry)) && |expiry| == |sessions|
      ensures rebuilds == old(rebuilds) + 1 && CostBound()
    {
      hide Paid;
      var marks := MarkAll();
      expiry := Heapify(marks);
      OneMoreRebuild(rebuilds, limits.maxSessions);
      rebuilds := rebuilds + 1;
    }

    /** Drop expired sessions, and rebuild the heap if stale marks pile up. */
    method Prune(now: real)
      requires Valid()
      modifies this
      ensures Valid() && sessions == Live(old(sessions), now)
      ensures |expiry| <= 2 * limits.maxSessions
      ensures pushes == old(pushes) && old(rebuilds) <= rebuilds <= old(rebuilds) + 1
    {
      hide Paid;
      DropExpired(now);
      SubTableSize(sessions, old(sessions));
      if |expiry| > 2 * limits.maxSessions {
        Rebuild();
      }
    }

    /** Run one operation; nothing in it suspends, so it is atomic. */
    method Execute(op: Operation, first: real, second: real) returns (result: Result)
      requires Valid() && first <= second
      modifies this
      ensures Valid() && (!op.Create? ==> |expiry| <= 2 * limits.maxSessions)
      ensures (sessions, result) == MemoryStep(limits, old(sessions), op, first, second)
      ensures pushes <= old(pushes) + 1
    {
      match op {
        case Create(key, record) => result := Create(key, record, first, second);
        case Get(key) => result := Lookup(key, first);
        case Destroy(key) => result := Destroy(key, first, second);
        case Rotate(key, newKey) => result := Rotate(key, newKey, first, second);
        case Revoke(principal) => result := Revoke(principal, first, second);
      }
    }

    /** Start a session.  The clock is read once to prune and again to date the session. */
    method Create(key: Key, record: Record, first: real, second: real) returns (result: Result)
      requires Valid() && first <= second
      modifies this
      ensures Valid()
      ensures (sessions, result) == MemoryStep(limits, old(sessions), Operation.Create(key, record), first, second)
      ensures pushes <= old(pushes) + 1
    {
      Prune(first);
      if key in sessions {
        return Failed(Collision);
      }
      if |sessions| >= limits.maxSessions {
        return Failed(Capacity);
      }
      var due := second + limits.ttl;
      sessions := sessions[key := Entry(record, due)];
      PushMark(Mark(due, key));
      result := Done;
    }

    method Lookup(key: Key, now: real) returns (result: Result)
      requires Valid()
      modifies this
      ensures Valid() && |expiry| <= 2 * limits.maxSessions
      ensures (sessions, result) == MemoryStep(limits, old(sessions), Operation.Get(key), now, now)
      ensures pushes == old(pushes)
    {
      Prune(now);
      result := Found(if key in sessions then Some(sessions[key].record) else None);
    }

    method Destroy(key: Key, first: real, second: real) returns (result: Result)
      requires Valid() && first <= second
      modifies this
      ensures Valid() && |expiry| <= 2 * limits.maxSessions
      ensures (sessions, result) == MemoryStep(limits, old(sessions), Operation.Destroy(key), first, second)
      ensures pushes == old(pushes)
    {
      Prune(first);
      SubTableSize(sessions - {key}, sessions);
      sessions := sessions - {key};
      Prune(second);
      result := Done;
    }

    /** Give a session a new key; its expiry stays what it was. */
    method Rotate(key: Key, newKey: Key, first: real, second: real) returns (result: Result)
      requires Valid() && first <= second
      modifies this
      ensures Valid() && |expiry| <= 2 * limits.maxSessions
      ensures (sessions, result) == MemoryStep(limits, old(sessions), Operation.Rotate(key, newKey), first, second)
      ensures pushes <= old(pushes) + 1
    {
      Prune(first);
      if key !in sessions {
        return Rotated(false);
      }
      if newKey in sessions {
        return Failed(Collision);
      }
      RotationKeepsSize(sessions, key, newKey);
      sessions := (sessions - {key})[newKey := sessions[key]];
      PushMark(Mark(sessions[newKey].expiry, newKey));
      Prune(second);
      result := Rotated(true);
    }

    /** End every session of a principal. */
    method Revoke(principal: string, first: real, second: real) returns (result: Result)
      requires Valid() && first <= second
      modifies this
      ensures Valid() && |expiry| <= 2 * limits.maxSessions
      ensures (sessions, result) == MemoryStep(limits, old(sessions), Operation.Revoke(principal), first, second)
      ensures pushes == old(pushes)
    {
      Prune(first);
      var keys := set k | k in sessions && sessions[k].record.principal == principal;
      SubTableSize(sessions - keys, sessions);
      sessions := sessions - keys;
      Prune(second);
      result := Revoked(|keys|);
    }

    /** Push a mark; the sessions it may belong to keep theirs. */
    method PushMark(mark: Mark)
      requires IsHeap(expiry) && |expiry| <= 2 * limits.maxSessions && CostBound()
      modifies this`expiry, this`pushes
      ensures IsHeap(expiry) && multiset(expiry) == multiset(old(expiry)) + multiset{mark}
      ensures |expiry| <= 2 * limits.maxSessions + 1 && CostBound() && pushes == old(pushes) + 1
    {
      expiry := Push(expiry, mark);
      pushes := pushes + 1;
    }
  }
}
