/** Whole runs of a session store: the backends agree, and rotation keeps a session one session. */
module SessionRuns {
  import opened ExpiryHeap
  import opened Sessions
  import opened MemoryStore
  import opened SqlStore

  /** An operation and the two clock readings it may take. */
  datatype Timed = At(op: Operation, first: real, second: real)

  ghost predicate Ordered(run: seq<Timed>)
  {
    && (forall i :: 0 <= i < |run| ==> run[i].first <= run[i].second)
    && (forall i, j :: 0 <= i < j < |run| ==> run[i].second <= run[j].first)
  }

  // ----- Backends -----

  datatype Backend = Plain | Memory | Sql | Redis

  /** One operation of each backend.  `Plain` is the table that forgets expired sessions by
      the first clock reading, operates, and dates what it creates by the second.  The Redis
      script and the SQL transactions read the clock once. */
  function BackendStep(backend: Backend, limits: Limits, table: Table, at: Timed): (Table, Result)
  {
    match backend
    case Plain => Apply(limits, Live(table, at.first), at.op, at.second)
    case Memory => MemoryStep(limits, table, at.op, at.first, at.second)
    case Sql => SqlStep(limits, table, at.op, at.first)
    case Redis => Step(limits, table, at.op, at.first)
  }

  function After(backend: Backend, limits: Limits, run: seq<Timed>): Table
  {
    if run == [] then map[]
    else BackendStep(backend, limits, After(backend, limits, run[..|run| - 1]), run[|run| - 1]).0
  }

  /** The result of operation i of a run. */
  function ResultAt(backend: Backend, limits: Limits, run: seq<Timed>, i: nat): Result
    requires i < |run|
  {
    BackendStep(backend, limits, After(backend, limits, run[..i]), run[i]).1
  }

  /** Equal, or both unavailable. */
  predicate Agree(a: Result, b: Result)
  {
    a == b || (a.Failed? && b.Failed?)
  }

  predicate SelfRotation(op: Operation)
  {
    op.Rotate? && op.key == op.newKey
  }

  /** On states with the same live sessions, a backend and the plain table answer alike and
      again have the same live sessions at any later time; only SQL, asked to rotate a live
      session to its own key, answers differently.  A different error kind means a creation
      that found the store full and its key taken. */
  lemma StepsAgree(backend: Backend, limits: Limits, mine: Table, plain: Table, at: Timed, later: real)
    requires at.first <= at.second <= later && (backend.Memory? || at.first == at.second)
    requires Live(mine, at.first) == Live(plain, at.first)
    ensures var m, p := BackendStep(backend, limits, mine, at), BackendStep(Plain, limits, plain, at);
      var live := Live(plain, at.first);
      && (Agree(m.1, p.1) <==> !(backend.Sql? && SelfRotation(at.op) && at.op.key in live))
      && (Agree(m.1, p.1) && m.1 != p.1 ==> at.op.Create? && at.op.key in live && |live| >= limits.maxSessions)
      && Live(m.0, later) == Live(p.0, later)
  {
    LiveTwice(mine, at.first, later);
    LiveTwice(plain, at.first, later);
    LiveTwice(BackendStep(Plain, limits, plain, at).0, at.second, later);
  }

  /** Over any run with a nondecreasing clock, which may advance within an operation of the
      memory store, every backend answers like the plain table. */
  lemma {:induction false} RunsAgree(backend: Backend, limits: Limits, run: seq<Timed>, later: real)
    requires Ordered(run)
    requires forall i :: 0 <= i < |run| ==> run[i].second <= later && (backend.Memory? || run[i].first == run[i].second)
    requires backend.Sql? ==> forall i :: 0 <= i < |run| ==> !SelfRotation(run[i].op)
    ensures forall i :: 0 <= i < |run| ==> Agree(ResultAt(backend, limits, run, i), ResultAt(Plain, limits, run, i))
    ensures Live(After(backend, limits, run), later) == Live(After(Plain, limits, run), later)
  {
    hide BackendStep, Live;
    if run != [] {
      var n := |run| - 1;
      var before, last := run[..n], run[n];
      RunsAgree(backend, limits, before, last.first);
      StepsAgree(backend, limits, After(backend, limits, before), After(Plain, limits, before), last, later);
      forall i | 0 <= i < |run|
        ensures Agree(ResultAt(backend, limits, run, i), ResultAt(Plain, limits, run, i))
      {
        if i < n {
          assert before[..i] == run[..i] && before[i] == run[i];
          assert Agree(ResultAt(backend, limits, before, i), ResultAt(Plain, limits, before, i));
        }
      }
    }
  }

  // ----- Lineage -----

  /** The store together with, for each stored key, which operation of the run created its session. */
  datatype Traced = Traced(table: Table, origin: map<Key, nat>)

  /** Where the entry under a key comes from after an operation. */
  datatype Source = Kept | Born | Moved(from: Key)

  function SourceOf(op: Operation, result: Result, k: Key): Source
  {
    if op.Create? && result == Done && k == op.key then Born
    else if op.Rotate? && result == Rotated(true) && k == op.newKey then Moved(op.key)
    else Kept
  }

  function OriginOf(s: Traced, source: Source, k: Key, index: nat): nat
  {
    match source
    case Born => index
    case Moved(from) => if from in s.origin then s.origin[from] else index
    case Kept => if k in s.origin then s.origin[k] else index
  }

  function TraceStep(backend: Backend, limits: Limits, s: Traced, at: Timed, index: nat): Traced
  {
    var (after, result) := BackendStep(backend, limits, s.table, at);
    Traced(after, map k | k in after :: OriginOf(s, SourceOf(at.op, result, k), k, index))
  }

  function Trace(backend: Backend, limits: Limits, run: seq<Timed>): Traced
  {
    if run == [] then Traced(map[], map[])
    else TraceStep(backend, limits, Trace(backend, limits, run[..|run| - 1]), run[|run| - 1], |run| - 1)
  }

  /** The clock reading a created session is dated by. */
  function Dated(backend: Backend, at: Timed): real
  {
    if backend.Sql? || backend.Redis? then at.first else at.second
  }

  /** The entry as it was created by operation `o`: its record, and its expiry a lifetime
      after the reading that dates it. */
  predicate BornAt(backend: Backend, limits: Limits, run: seq<Timed>, entry: Entry, o: nat)
  {
    && o < |run| && run[o].op.Create?
    && entry == Entry(run[o].op.record, Dated(backend, run[o]) + limits.ttl)
  }

  /** Every stored key, live or not, has an origin, whose entry it still carries; no two keys
      share one. */
  ghost predicate Lineage(backend: Backend, limits: Limits, run: seq<Timed>, s: Traced)
  {
    && s.origin.Keys == s.table.Keys
    && (forall k :: k in s.table ==> BornAt(backend, limits, run, s.table[k], s.origin[k]))
    && (forall j, k :: j in s.table && k in s.table && j != k ==> s.origin[j] != s.origin[k])
  }

  /** In every backend a stored entry was there before under the same key, was just created,
      or moved from a key that is now free. */
  lemma Sources(backend: Backend, limits: Limits, table: Table, at: Timed, k: Key)
    requires k in BackendStep(backend, limits, table, at).0
    ensures var (after, result) := BackendStep(backend, limits, table, at);
      match SourceOf(at.op, result, k)
      case Kept => k in table && after[k] == table[k] && !(result == Rotated(true) && k == at.op.key)
      case Born => after[k] == Entry(at.op.record, Dated(backend, at) + limits.ttl)
      case Moved(from) => from in table && after[k] == table[from]
  {
  }

  lemma LineageStep(backend: Backend, limits: Limits, run: seq<Timed>, s: Traced, at: Timed)
    requires Lineage(backend, limits, run, s)
    ensures Lineage(backend, limits, run + [at], TraceStep(backend, limits, s, at, |run|))
  {
    hide BackendStep;
    var t := TraceStep(backend, limits, s, at, |run|);
    forall k | k in t.table ensures BornAt(backend, limits, run + [at], t.table[k], t.origin[k]) {
      Sources(backend, limits, s.table, at, k);
    }
    forall j, k | j in t.table && k in t.table && j != k ensures t.origin[j] != t.origin[k] {
      Sources(backend, limits, s.table, at, j);
      Sources(backend, limits, s.table, at, k);
      assert forall i :: i in s.table ==> BornAt(backend, limits, run, s.table[i], s.origin[i]);
    }
  }

  /** In every reachable state of every backend a created session has at most one key among
      all its rotated descendants, and that key carries its original record and absolute expiry. */
  lemma {:induction false} RotationKeepsOneSession(backend: Backend, limits: Limits, run: seq<Timed>)
    ensures Lineage(backend, limits, run, Trace(backend, limits, run))
    ensures Trace(backend, limits, run).table == After(backend, limits, run)
  {
    hide BackendStep;
    if run != [] {
      var before := run[..|run| - 1];
      RotationKeepsOneSession(backend, limits, before);
      LineageStep(backend, limits, before, Trace(backend, limits, before), run[|run| - 1]);
      assert before + [run[|run| - 1]] == run;
    }
  }

  // ----- Revocation and removal -----

  ghost predicate BornAfter(s: Traced, principal: string, index: nat)
  {
    && s.origin.Keys == s.table.Keys
    && forall k :: k in s.table && s.table[k].record.principal == principal ==> s.origin[k] > index
  }

  lemma BornAfterStep(
      backend: Backend, limits: Limits, s: Traced, principal: string, index: nat, at: Timed, next: nat)
    requires BornAfter(s, principal, index) && index < next
    ensures BornAfter(TraceStep(backend, limits, s, at, next), principal, index)
  {
    hide BackendStep;
    var t := TraceStep(backend, limits, s, at, next);
    forall k | k in t.table && t.table[k].record.principal == principal ensures t.origin[k] > index {
      Sources(backend, limits, s.table, at, k);
    }
  }

  lemma RevocationRemoves(backend: Backend, limits: Limits, s: Traced, revoke: Timed, index: nat)
    requires revoke.op.Revoke?
    ensures BornAfter(TraceStep(backend, limits, s, revoke, index), revoke.op.principal, index)
  {
  }

  /** After a revocation no descendant of the principal's earlier sessions is ever stored
      again, in any backend. */
  lemma {:induction false} RevokedStaysGone(
      backend: Backend, limits: Limits, before: seq<Timed>, revoke: Timed, later: seq<Timed>)
    requires revoke.op.Revoke?
    ensures BornAfter(Trace(backend, limits, before + [revoke] + later), revoke.op.principal, |before|)
    decreases |later|
  {
    hide TraceStep, BornAfter;
    var run := before + [revoke] + later;
    if later == [] {
      assert run == before + [revoke] && run[..|run| - 1] == before;
      RevocationRemoves(backend, limits, Trace(backend, limits, before), revoke, |before|);
    } else {
      var init, last := later[..|later| - 1], later[|later| - 1];
      RevokedStaysGone(backend, limits, before, revoke, init);
      assert run[..|run| - 1] == before + [revoke] + init && run[|run| - 1] == last;
      var s := Trace(backend, limits, before + [revoke] + init);
      BornAfterStep(backend, limits, s, revoke.op.principal, |before|, last, |run| - 1);
    }
  }

  /** The operation could store something under this key. */
  predicate Writes(op: Operation, key: Key)
  {
    (op.Create? && op.key == key) || (op.Rotate? && op.newKey == key)
  }

  /** Nothing is stored under the key, or it expired by `now` and awaits deletion. */
  predicate Gone(table: Table, key: Key, now: real)
  {
    key !in table || table[key].expiry <= now
  }

  lemma StepLeavesGone(backend: Backend, limits: Limits, table: Table, at: Timed, key: Key, now: real)
    requires Gone(table, key, now) && !Writes(at.op, key)
    requires key in table ==> now <= at.first
    ensures Gone(BackendStep(backend, limits, table, at).0, key, now)
    ensures key in BackendStep(backend, limits, table, at).0 ==> key in table
  {
  }

  /** In every backend a key whose session is gone, removed or expired, stays gone while
      nothing writes it; the clock matters only if it expired. */
  lemma {:induction false} GoneStaysGone(
      backend: Backend, limits: Limits, before: seq<Timed>, later: seq<Timed>, key: Key, now: real)
    requires Gone(After(backend, limits, before), key, now)
    requires key in After(backend, limits, before) ==> forall i :: 0 <= i < |later| ==> now <= later[i].first
    requires forall i :: 0 <= i < |later| ==> !Writes(later[i].op, key)
    ensures Gone(After(backend, limits, before + later), key, now)
    ensures key in After(backend, limits, before + later) ==> key in After(backend, limits, before)
    decreases |later|
  {
    hide BackendStep;
    if later == [] {
      assert before + later == before;
    } else {
      var run, init := before + later, later[..|later| - 1];
      GoneStaysGone(backend, limits, before, init, key, now);
      StepLeavesGone(backend, limits, After(backend, limits, before + init), later[|later| - 1], key, now);
      assert run[..|run| - 1] == before + init && run[|run| - 1] == later[|later| - 1];
    }
  }

  // ----- Competing rotations -----

  /** A rotation succeeds if and only if its key is live and its new key free; SQL also takes
      a session's own key for free. */
  lemma RotatesIff(backend: Backend, limits: Limits, table: Table, at: Timed)
    requires at.op.Rotate?
    ensures var live := Live(table, at.first);
      BackendStep(backend, limits, table, at).1 == Rotated(true) <==>
        (at.op.key in live && (at.op.newKey !in live || (backend.Sql? && SelfRotation(at.op))))
  {
  }

  lemma RotationFrees(backend: Backend, limits: Limits, table: Table, at: Timed)
    requires at.op.Rotate? && !SelfRotation(at.op)
    requires BackendStep(backend, limits, table, at).1 == Rotated(true)
    ensures at.op.key !in BackendStep(backend, limits, table, at).0
  {
  }

  /** Competing rotations of one live key to free keys have exactly one winner, in every
      backend: the first succeeds, and any later rotation of the key fails unless something
      stores that key again. */
  lemma OneRotationWins(
      backend: Backend, limits: Limits, before: seq<Timed>, winner: Timed, between: seq<Timed>, rival: Timed)
    requires winner.op.Rotate? && rival.op.Rotate? && rival.op.key == winner.op.key
    requires var live := Live(After(backend, limits, before), winner.first);
      winner.op.key in live && winner.op.newKey !in live
    requires forall i :: 0 <= i < |between| ==> !Writes(between[i].op, winner.op.key)
    ensures ResultAt(backend, limits, before + [winner], |before|) == Rotated(true)
    ensures ResultAt(backend, limits, before + [winner] + between + [rival], |before| + 1 + |between|) == Rotated(false)
  {
    hide BackendStep;
    var key, won := winner.op.key, before + [winner];
    assert won[..|before|] == before && won[..|won| - 1] == before;
    RotatesIff(backend, limits, After(backend, limits, before), winner);
    RotationFrees(backend, limits, After(backend, limits, before), winner);
    GoneStaysGone(backend, limits, won, between, key, winner.first);
    var run := won + between + [rival];
    assert run[..|before| + 1 + |between|] == won + between;
    RotationOfNothing(backend, limits, After(backend, limits, won + between), rival);
  }

  lemma RotationOfNothing(backend: Backend, limits: Limits, table: Table, at: Timed)
    requires at.op.Rotate? && at.op.key !in table
    ensures BackendStep(backend, limits, table, at).1 == Rotated(false)
  {
  }

  // ----- A run of the real store -----

  /** Running the in-memory store itself: its answers are those of the run above, its heap
      stays within twice the session limit plus one, and a rebuild happens at most once per
      max_sessions + 1 operations. */
  method Replay(limits: Limits, run: seq<Timed>) returns (results: seq<Result>, marks: nat, ghost rebuilds: nat)
    requires limits.Valid() && Ordered(run)
    ensures |results| == |run|
    ensures forall i :: 0 <= i < |run| ==> results[i] == ResultAt(Memory, limits, run, i)
    ensures marks <= 2 * limits.maxSessions + 1
    ensures rebuilds * (limits.maxSessions + 1) <= |run|
  {
    hide MemoryStep, SqlStep, IsHeap, Indexed, Paid;
    var store := new InMemorySessionStore(limits);
    results := [];
    for n := 0 to |run|
      invariant fresh(store) && store.Valid() && store.limits == limits && store.pushes <= n
      invariant |results| == n && store.sessions == After(Memory, limits, run[..n])
      invariant forall i :: 0 <= i < n ==> results[i] == ResultAt(Memory, limits, run, i)
    {
      assert run[..n + 1][..n] == run[..n];
      var result := store.Execute(run[n].op, run[n].first, run[n].second);
      results := results + [result];
    }
    assert run[..|run|] == run;
    marks := |store.expiry|;
    rebuilds := store.rebuilds;
    PaidIsProduct(rebuilds, limits.maxSessions);
  }
}
