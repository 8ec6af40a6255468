/** What each operation promises, of every backend, told by the stored entries alone; and what
    `get` finds after any run, told by the operations of the run. */
module SessionLaws {
  import opened Messages
  import opened ExpiryHeap
  import opened Sessions
  import opened SessionRuns

  /** The key has a session that has not expired. */
  predicate Holds(table: Table, k: Key, now: real)
  {
    k in table && table[k].expiry > now
  }

  function LiveKeys(table: Table, now: real): set<Key>
  {
    set k | k in table && table[k].expiry > now
  }

  /** Seen from `later` on, the key's session is what it was. */
  predicate Untouched(before: Table, after: Table, k: Key, later: real)
  {
    && (Holds(after, k, later) <==> Holds(before, k, later))
    && (Holds(after, k, later) ==> after[k] == before[k])
  }

  lemma LiveSize(table: Table, now: real)
    ensures Live(table, now).Keys == LiveKeys(table, now)
    ensures |Live(table, now)| == |LiveKeys(table, now)|
  {
  }

  // ----- Each operation -----

  /** A session is created if and only if its key is free and there is room, with its record
      and a full lifetime; nothing else changes. */
  lemma CreateLaw(backend: Backend, limits: Limits, table: Table, at: Timed, k: Key, later: real)
    requires at.op.Create? && at.first <= at.second <= later
    ensures var (after, result) := BackendStep(backend, limits, table, at);
      var collides, full := Holds(table, at.op.key, at.first), |LiveKeys(table, at.first)| >= limits.maxSessions;
      && (result == Done <==> !collides && !full)
      && (result != Done ==> result == Failed(if collides && (!full || !backend.Sql?) then Collision else Capacity))
      && (result == Done ==>
            at.op.key in after && after[at.op.key] == Entry(at.op.record, Dated(backend, at) + limits.ttl))
      && (result != Done || k != at.op.key ==> Untouched(table, after, k, later))
  {
    LiveSize(table, at.first);
  }

  /** `get` finds exactly the live session's record, and changes nothing. */
  lemma GetLaw(backend: Backend, limits: Limits, table: Table, at: Timed, k: Key, later: real)
    requires at.op.Get? && at.first <= at.second <= later
    ensures var (after, result) := BackendStep(backend, limits, table, at);
      && result == Found(if Holds(table, at.op.key, at.first) then Some(table[at.op.key].record) else None)
      && Untouched(table, after, k, later)
  {
  }

  /** `destroy` leaves nothing under its key, and everything else as it was. */
  lemma DestroyLaw(backend: Backend, limits: Limits, table: Table, at: Timed, k: Key, later: real)
    requires at.op.Destroy? && at.first <= at.second <= later
    ensures var (after, result) := BackendStep(backend, limits, table, at);
      && result == Done && at.op.key !in after
      && (k != at.op.key ==> Untouched(table, after, k, later))
  {
  }

  /** `rotate` moves a live session to a free key with its record and expiry; otherwise it
      changes nothing, and fails only on a collision. */
  lemma RotateLaw(backend: Backend, limits: Limits, table: Table, at: Timed, k: Key, later: real)
    requires at.op.Rotate? && at.first <= at.second <= later
    ensures var (after, result) := BackendStep(backend, limits, table, at);
      var from, to := at.op.key, at.op.newKey;
      var free := !Holds(table, to, at.first) || (backend.Sql? && from == to);
      && result == (if !Holds(table, from, at.first) then Rotated(false) else if free then Rotated(true) else Failed(Collision))
      && (result == Rotated(true) ==>
            && (Holds(after, to, later) <==> table[from].expiry > later)
            && (Holds(after, to, later) ==> after[to] == table[from])
            && (from != to ==> from !in after))
      && (result != Rotated(true) || (k != from && k != to) ==> Untouched(table, after, k, later))
  {
  }

  /** `revoke` removes exactly the principal's sessions, and counts the live ones. */
  lemma RevokeLaw(backend: Backend, limits: Limits, table: Table, at: Timed, k: Key, later: real)
    requires at.op.Revoke? && at.first <= at.second <= later
    ensures var (after, result) := BackendStep(backend, limits, table, at);
      && result == Revoked(|set j | j in LiveKeys(table, at.first) && table[j].record.principal == at.op.principal|)
      && (k in after ==> after[k].record.principal != at.op.principal)
      && (k in table && table[k].record.principal == at.op.principal ==> k !in after)
      && ((k in table ==> table[k].record.principal != at.op.principal) ==> Untouched(table, after, k, later))
  {
    assert Owned(Live(table, at.first), at.op.principal)
        == set j | j in LiveKeys(table, at.first) && table[j].record.principal == at.op.principal;
  }

  /** Every operation forgets what has expired: by the reading it began with, and in memory,
      after a removal or a rotation, by the later one too.  Only a failed transaction of SQL
      leaves all as it was, expired rows included. */
  lemma ExpiredIsForgotten(backend: Backend, limits: Limits, table: Table, at: Timed, k: Key)
    requires limits.ttl > 0.0 && at.first <= at.second
    ensures var (after, result) := BackendStep(backend, limits, table, at);
      if backend.Sql? && result.Failed? then after == table
      else k in after ==>
        && after[k].expiry > at.first
        && (backend.Memory? && (at.op.Destroy? || at.op.Revoke? || result == Rotated(true)) ==> after[k].expiry > at.second)
  {
  }

  // ----- Whole runs -----

  /** The session last created under the key or rotated to it, and not destroyed, rotated
      away or revoked since. */
  function Holder(backend: Backend, limits: Limits, run: seq<Timed>, key: Key): Option<Entry>
    decreases |run|
  {
    if run == [] then None
    else
      var n := |run| - 1;
      var before, at, result := run[..n], run[n], ResultAt(backend, limits, run, n);
      var held := Holder(backend, limits, before, key);
      match at.op
      case Create(k, record) =>
        if k == key && result == Done then Some(Entry(record, Dated(backend, at) + limits.ttl)) else held
      case Destroy(k) => if k == key then None else held
      case Rotate(from, to) =>
        if result != Rotated(true) then held
        else if key == to then Holder(backend, limits, before, from)
        else if key == from then None
        else held
      case Revoke(principal) => if held.Some? && held.value.record.principal == principal then None else held
      case Get(_) => held
  }

  ghost predicate Before(run: seq<Timed>, now: real)
  {
    forall i :: 0 <= i < |run| ==> run[i].first <= run[i].second <= now
  }

  /** After any run of any backend the key's live session is its holder, unless that expired. */
  lemma {:induction false} StoredIsHolder(backend: Backend, limits: Limits, run: seq<Timed>, key: Key, now: real)
    requires Before(run, now)
    ensures var table, holder := After(backend, limits, run), Holder(backend, limits, run, key);
      && (Holds(table, key, now) <==> holder.Some? && holder.value.expiry > now)
      && (Holds(table, key, now) ==> table[key] == holder.value)
    decreases |run|
  {
    hide BackendStep;
    if run != [] {
      var n := |run| - 1;
      var before, at := run[..n], run[n];
      var table := After(backend, limits, before);
      StoredIsHolder(backend, limits, before, key, now);
      match at.op {
        case Create(_, _) => CreateLaw(backend, limits, table, at, key, now);
        case Get(_) => GetLaw(backend, limits, table, at, key, now);
        case Destroy(_) => DestroyLaw(backend, limits, table, at, key, now);
        case Rotate(from, _) =>
          StoredIsHolder(backend, limits, before, from, now);
          RotateLaw(backend, limits, table, at, key, now);
        case Revoke(_) => RevokeLaw(backend, limits, table, at, key, now);
      }
    }
  }

  /** So `get` after any run finds exactly the session created under its key or rotated to
      it, and not since destroyed, rotated away, revoked or expired. */
  lemma GetFindsTheHolder(backend: Backend, limits: Limits, run: seq<Timed>, get: Timed)
    requires get.op.Get? && get.first <= get.second && Before(run, get.first)
    ensures var holder := Holder(backend, limits, run, get.op.key);
      ResultAt(backend, limits, run + [get], |run|)
        == Found(if holder.Some? && holder.value.expiry > get.first then Some(holder.value.record) else None)
  {
    assert (run + [get])[..|run|] == run;
    StoredIsHolder(backend, limits, run, get.op.key, get.first);
    GetLaw(backend, limits, After(backend, limits, run), get, get.op.key, get.second);
  }
}
