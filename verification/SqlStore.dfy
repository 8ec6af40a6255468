/** Sessions in a SQL table: one transaction an operation.

    PostgreSQL keeps several namespaces in one table; SQLite is the case of a single one. */
module SqlStore {
  import opened Messages
  import opened ExpiryHeap
  import opened Sessions

  datatype Row = Row(principal: string, value: Record, expires: real)

  /** The primary key. */
  datatype RowId = RowId(namespace: string, digest: Key)

  type Rows = map<RowId, Row>

  /** The principal column repeats what the stored value says. */
  ghost predicate ColumnsAgree(rows: Rows)
  {
    forall id :: id in rows ==> rows[id].principal == rows[id].value.principal
  }

  /** The sessions of one namespace. */
  function TableOf(rows: Rows, namespace: string): Table
  {
    map id | id in rows && id.namespace == namespace :: id.digest := Entry(rows[id].value, rows[id].expires)
  }

  /** What an operation's statements do to the live rows: capacity is checked before the
      insertion can collide, and moving a row onto its own key is no collision. */
  function Statement(limits: Limits, live: Table, op: Operation, now: real): (Table, Result)
  {
    match op
    case Create(key, _) =>
      if |live| >= limits.maxSessions then (live, Failed(Capacity)) else Apply(limits, live, op, now)
    case Rotate(key, newKey) =>
      if key in live && newKey == key then (live, Rotated(true)) else Apply(limits, live, op, now)
    case _ => Apply(limits, live, op, now)
  }

  /** One transaction seen from its namespace: a failure rolls everything back, so it also
      restores the expired rows deleted at its start. */
  function SqlStep(limits: Limits, table: Table, op: Operation, now: real): (Table, Result)
  {
    var (after, result) := Statement(limits, Live(table, now), op, now);
    (if result.Failed? then table else after, result)
  }

  /** The rows of all other namespaces. */
  function Outside(rows: Rows, namespace: string): Rows
  {
    map id | id in rows && id.namespace != namespace :: rows[id]
  }

  lemma {:induction false} RowCount(ids: set<RowId>, namespace: string, keys: set<Key>)
    requires forall id :: id in ids ==> id.namespace == namespace
    requires forall k :: k in keys <==> RowId(namespace, k) in ids
    ensures |ids| == |keys|
    decreases keys
  {
    if k :| k in keys {
      RowCount(ids - {RowId(namespace, k)}, namespace, keys - {k});
    } else {
      assert forall id :: id in ids ==> id.digest in keys;
      assert ids == {};
    }
  }

  function LiveRows(rows: Rows, namespace: string, now: real): Rows
  {
    map id | id in rows && !(id.namespace == namespace && rows[id].expires <= now) :: rows[id]
  }

  lemma TableOfLiveRows(rows: Rows, namespace: string, now: real)
    ensures TableOf(LiveRows(rows, namespace, now), namespace) == Live(TableOf(rows, namespace), now)
    ensures Outside(LiveRows(rows, namespace, now), namespace) == Outside(rows, namespace)
  {
  }

  lemma TableOfInsertion(rows: Rows, namespace: string, key: Key, row: Row)
    ensures TableOf(rows[RowId(namespace, key) := row], namespace)
         == TableOf(rows, namespace)[key := Entry(row.value, row.expires)]
    ensures Outside(rows[RowId(namespace, key) := row], namespace) == Outside(rows, namespace)
  {
  }

  lemma TableOfDeletion(rows: Rows, namespace: string, key: Key)
    ensures TableOf(rows - {RowId(namespace, key)}, namespace) == TableOf(rows, namespace) - {key}
    ensures Outside(rows - {RowId(namespace, key)}, namespace) == Outside(rows, namespace)
  {
  }

  lemma TableOfRow(rows: Rows, namespace: string, key: Key)
    ensures key in TableOf(rows, namespace) <==> RowId(namespace, key) in rows
    ensures key in TableOf(rows, namespace) ==>
      var row := rows[RowId(namespace, key)]; TableOf(rows, namespace)[key] == Entry(row.value, row.expires)
  {
  }

  lemma TableOfOwned(rows: Rows, namespace: string, principal: string)
    requires ColumnsAgree(rows)
    ensures var ids := OwnedRows(rows, namespace, principal);
      && TableOf(rows - ids, namespace) == TableOf(rows, namespace) - Owned(TableOf(rows, namespace), principal)
      && Outside(rows - ids, namespace) == Outside(rows, namespace)
      && |ids| == |Owned(TableOf(rows, namespace), principal)|
  {
    var ids, keys := OwnedRows(rows, namespace, principal), Owned(TableOf(rows, namespace), principal);
    forall k: Key ensures k in keys <==> RowId(namespace, k) in ids {
      TableOfRow(rows, namespace, k);
    }
    RowCount(ids, namespace, keys);
  }

  function OwnedRows(rows: Rows, namespace: string, principal: string): set<RowId>
  {
    set id | id in rows && id.namespace == namespace && rows[id].principal == principal
  }

  lemma TableCount(rows: Rows, namespace: string)
    ensures |set id | id in rows && id.namespace == namespace| == |TableOf(rows, namespace)|
  {
    RowCount((set id | id in rows && id.namespace == namespace), namespace, TableOf(rows, namespace).Keys);
  }

  class SqlSessionStore {
    const limits: Limits
    const namespace: string
    var rows: Rows

    ghost predicate Valid()
      reads this
    {
      limits.Valid() && ColumnsAgree(rows)
    }

    ghost function Table(): Sessions.Table
      reads this
    {
      TableOf(rows, namespace)
    }

    constructor (limits: Limits, namespace: string, rows: Rows)
      requires limits.Valid() && ColumnsAgree(rows)
      ensures Valid() && this.limits == limits && this.namespace == namespace && this.rows == rows
    {
      this.limits, this.namespace, this.rows := limits, namespace, rows;
    }

    /** Run one operation inside a transaction, rolling back when it fails. */
    method Transaction(op: Operation, now: real) returns (result: Result)
      requires Valid()
      modifies this
      ensures Valid()
      ensures (Table(), result) == SqlStep(limits, old(Table()), op, now)
      ensures Outside(rows, namespace) == Outside(old(rows), namespace)
    {
      var saved := rows;
      hide Apply, Live;
      TableOfLiveRows(rows, namespace, now);
      rows := LiveRows(rows, namespace, now);
      match op {
        case Create(key, record) => result := Insert(key, record, now);
        case Get(key) => result := Select(key, now);
        case Destroy(key) => result := Delete(key, now);
        case Rotate(key, newKey) => result := UpdateDigest(key, newKey, now);
        case Revoke(principal) => result := DeleteOwned(principal, now);
      }
      if result.Failed? {
        rows := saved;
      }
    }

    method Insert(key: Key, record: Record, now: real) returns (result: Result)
      requires Valid()
      modifies this
      ensures Valid() && Outside(rows, namespace) == Outside(old(rows), namespace)
      ensures (Table(), result) == Statement(limits, old(Table()), Operation.Create(key, record), now)
    {
      var ids := set id | id in rows && id.namespace == namespace;
      TableCount(rows, namespace);
      if |ids| >= limits.maxSessions {
        return Failed(Capacity);
      }
      TableOfRow(rows, namespace, key);
      var id := RowId(namespace, key);
      if id in rows {
        return Failed(Collision);
      }
      TableOfInsertion(rows, namespace, key, Row(record.principal, record, now + limits.ttl));
      rows := rows[id := Row(record.principal, record, now + limits.ttl)];
      result := Done;
    }

    method Select(key: Key, now: real) returns (result: Result)
      ensures (Table(), result) == Statement(limits, Table(), Operation.Get(key), now)
    {
      TableOfRow(rows, namespace, key);
      var id := RowId(namespace, key);
      result := Found(if id in rows then Some(rows[id].value) else None);
    }

    method Delete(key: Key, now: real) returns (result: Result)
      requires Valid()
      modifies this
      ensures Valid() && Outside(rows, namespace) == Outside(old(rows), namespace)
      ensures (Table(), result) == Statement(limits, old(Table()), Operation.Destroy(key), now)
    {
      TableOfDeletion(rows, namespace, key);
      rows := rows - {RowId(namespace, key)};
      result := Done;
    }

    method UpdateDigest(key: Key, newKey: Key, now: real) returns (result: Result)
      requires Valid()
      modifies this
      ensures Valid() && Outside(rows, namespace) == Outside(old(rows), namespace)
      ensures (Table(), result) == Statement(limits, old(Table()), Operation.Rotate(key, newKey), now)
    {
      TableOfRow(rows, namespace, key);
      TableOfRow(rows, namespace, newKey);
      var id, newId := RowId(namespace, key), RowId(namespace, newKey);
      if id !in rows {
        return Rotated(false);
      }
      if newId != id && newId in rows {
        return Failed(Collision);
      }
      TableOfDeletion(rows, namespace, key);
      TableOfInsertion(rows - {id}, namespace, newKey, rows[id]);
      rows := (rows - {id})[newId := rows[id]];
      assert newKey == key ==> Table() == old(Table());
      result := Rotated(true);
    }

    method DeleteOwned(principal: string, now: real) returns (result: Result)
      requires Valid()
      modifies this
      ensures Valid() && Outside(rows, namespace) == Outside(old(rows), namespace)
      ensures (Table(), result) == Statement(limits, old(Table()), Operation.Revoke(principal), now)
    {
      var ids := OwnedRows(rows, namespace, principal);
      TableOfOwned(rows, namespace, principal);
      rows := rows - ids;
      result := Revoked(|ids|);
    }
  }
}
