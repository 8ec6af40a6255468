/** The session store every backend implements: a bounded table whose entries expire.

    Keys are digests, opaque but comparable, so a colliding key is a case like any other.
    Time is passed in. */
module Sessions {
  import opened Messages
  import opened ExpiryHeap

  datatype Record = Record(principal: string, payload: string)

  datatype Entry = Entry(record: Record, expiry: real)

  type Table = map<Key, Entry>

  datatype Limits = Limits(ttl: real, maxSessions: nat)
  {
    predicate Valid() { ttl > 0.0 && maxSessions >= 1 }
  }

  datatype Operation =
    | Create(key: Key, record: Record)
    | Get(key: Key)
    | Destroy(key: Key)
    | Rotate(key: Key, newKey: Key)
    | Revoke(principal: string)

  /** Both are raised as "unavailable"; capacity is the more specific one. */
  datatype Error = Collision | Capacity

  datatype Result =
    | Done
    | Found(record: Option<Record>)
    | Rotated(moved: bool)
    | Revoked(count: nat)
    | Failed(error: Error)

  /** The sessions that have not expired. */
  function Live(table: Table, now: real): (live: Table)
    ensures forall k :: k in live <==> k in table && table[k].expiry > now
  {
    map k | k in table && table[k].expiry > now :: table[k]
  }

  function Owned(table: Table, principal: string): set<Key>
  {
    set k | k in table && table[k].record.principal == principal
  }

  /** One operation on a table of live sessions. */
  function Apply(limits: Limits, table: Table, op: Operation, now: real): (Table, Result)
  {
    match op
    case Create(key, record) =>
      if key in table then (table, Failed(Collision))
      else if |table| >= limits.maxSessions then (table, Failed(Capacity))
      else (table[key := Entry(record, now + limits.ttl)], Done)
    case Get(key) => (table, Found(if key in table then Some(table[key].record) else None))
    case Destroy(key) => (table - {key}, Done)
    case Rotate(key, newKey) =>
      if key !in table then (table, Rotated(false))
      else if newKey in table then (table, Failed(Collision))
      else ((table - {key})[newKey := table[key]], Rotated(true))
    case Revoke(principal) => (table - Owned(table, principal), Revoked(|Owned(table, principal)|))
  }

  /** Drop what has expired, then operate. */
  function Step(limits: Limits, table: Table, op: Operation, now: real): (Table, Result)
  {
    Apply(limits, Live(table, now), op, now)
  }

  // ----- Facts about expiry -----

  lemma LiveTwice(table: Table, early: real, late: real)
    requires early <= late
    ensures Live(Live(table, early), late) == Live(table, late)
  {
  }

  lemma {:induction false} SubTableSize(small: Table, large: Table)
    requires small.Keys <= large.Keys
    ensures |small| <= |large|
  {
    SubsetSize(small.Keys, large.Keys);
  }

  lemma {:induction false} SubsetSize(small: set<Key>, large: set<Key>)
    requires small <= large
    ensures |small| <= |large|
  {
    if small != {} {
      var k :| k in small;
      SubsetSize(small - {k}, large - {k});
    }
  }

  lemma RotationKeepsSize(table: Table, key: Key, newKey: Key)
    requires key in table && newKey !in table
    ensures |(table - {key})[newKey := table[key]]| == |table|
  {
    assert ((table - {key})[newKey := table[key]]).Keys == table.Keys - {key} + {newKey};
  }

  /** No operation ever leaves more than `maxSessions` sessions. */
  lemma ApplyKeepsCapacity(limits: Limits, table: Table, op: Operation, now: real)
    requires |table| <= limits.maxSessions
    ensures |Apply(limits, table, op, now).0| <= limits.maxSessions
  {
    match op {
      case Rotate(key, newKey) =>
        if key in table && newKey !in table {
          RotationKeepsSize(table, key, newKey);
        }
      case Create(key, record) =>
      case Get(key) =>
      case Destroy(key) => SubTableSize(table - {key}, table);
      case Revoke(principal) => SubTableSize(table - Owned(table, principal), table);
    }
  }
}
