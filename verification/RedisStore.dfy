/** Sessions in Redis: a hash of records and a sorted set of expiries, kept in step by one script. */
module RedisStore {
  import opened Messages
  import opened ExpiryHeap
  import opened Sessions

  /** The two structures read as one table; a key needs both halves. */
  function Paired(hash: map<Key, Record>, zset: map<Key, real>): Table
  {
    map k | k in hash && k in zset :: Entry(hash[k], zset[k])
  }

  class RedisSessionStore {
    const limits: Limits
    var hash: map<Key, Record>
    var zset: map<Key, real>

    /** Exactly the stored keys have an expiry. */
    ghost predicate Valid()
      reads this
    {
      limits.Valid() && hash.Keys == zset.Keys
    }

    ghost function Table(): Sessions.Table
      reads this
    {
      Paired(hash, zset)
    }

    constructor (limits: Limits)
      requires limits.Valid()
      ensures Valid() && this.limits == limits && Table() == map[]
    {
      this.limits, hash, zset := limits, map[], map[];
    }

    /** The script: remove what has expired from both structures, then operate on both. */
    method Script(op: Operation, now: real) returns (result: Result)
      requires Valid()
      modifies this
      ensures Valid()
      ensures (Table(), result) == Step(limits, old(Table()), op, now)
    {
      hide Apply, Live;
      DropExpired(now);
      match op {
        case Create(key, record) => result := Add(key, record, now);
        case Get(key) => result := Fetch(key, now);
        case Destroy(key) => result := Remove(key, now);
        case Rotate(key, newKey) => result := Move(key, newKey, now);
        case Revoke(principal) => result := RemoveOwned(principal, now);
      }
    }

    method Add(key: Key, record: Record, now: real) returns (result: Result)
      requires Valid()
      modifies this
      ensures Valid()
      ensures (Table(), result) == Apply(limits, old(Table()), Operation.Create(key, record), now)
    {
      assert Table().Keys == hash.Keys;
      if key in hash {
        return Failed(Collision);
      }
      if |hash| >= limits.maxSessions {
        return Failed(Capacity);
      }
      hash := hash[key := record];
      zset := zset[key := now + limits.ttl];
      assert Table() == old(Table())[key := Entry(record, now + limits.ttl)];
      result := Done;
    }

    method Fetch(key: Key, now: real) returns (result: Result)
      requires Valid()
      ensures (Table(), result) == Apply(limits, Table(), Operation.Get(key), now)
    {
      result := Found(if key in zset then Some(hash[key]) else None);
    }

    method Remove(key: Key, now: real) returns (result: Result)
      requires Valid()
      modifies this
      ensures Valid()
      ensures (Table(), result) == Apply(limits, old(Table()), Operation.Destroy(key), now)
    {
      zset := zset - {key};
      hash := hash - {key};
      assert Table() == old(Table()) - {key};
      result := Done;
    }

    /** Decide what to remove before removing any of it: a script's writes are not undone. */
    method RemoveOwned(principal: string, now: real) returns (result: Result)
      requires Valid()
      modifies this
      ensures Valid()
      ensures (Table(), result) == Apply(limits, old(Table()), Operation.Revoke(principal), now)
    {
      var owned := set k | k in hash && hash[k].principal == principal;
      assert owned == Owned(Table(), principal);
      RemoveAll(owned);
      result := Revoked(|owned|);
    }

    method DropExpired(now: real)
      requires Valid()
      modifies this
      ensures Valid() && Table() == Live(old(Table()), now)
    {
      var expired := set k | k in zset && zset[k] <= now;
      var left := expired;
      while left != {}
        invariant left <= expired
        invariant hash == old(hash) - (expired - left) && zset == old(zset)
        decreases left
      {
        var k :| k in left;
        hash := hash - {k};
        left := left - {k};
      }
      zset := map k | k in zset && zset[k] > now :: zset[k];
    }

    /** Re-file a session under its new key with its old expiry, then drop the old key; a
        record whose expiry is missing is refused instead. */
    method Move(key: Key, newKey: Key, now: real) returns (result: Result)
      requires limits.Valid()
      modifies this
      ensures old(Valid()) ==>
        Valid() && (Table(), result) == Apply(limits, old(Table()), Operation.Rotate(key, newKey), now)
      ensures key in old(hash) && key !in old(zset) ==>
        result == Failed(Collision) && hash == old(hash) && zset == old(zset)
    {
      if key !in hash {
        return Rotated(false);
      }
      if newKey in hash {
        return Failed(Collision);
      }
      if key !in zset {
        return Failed(Collision);
      }
      var due := zset[key];
      hash := hash[newKey := hash[key]];
      zset := zset[newKey := due];
      hash := hash - {key};
      zset := zset - {key};
      assert old(Valid()) ==> Table() == (old(Table()) - {key})[newKey := old(Table())[key]];
      result := Rotated(true);
    }

    method RemoveAll(keys: set<Key>)
      requires Valid()
      modifies this
      ensures Valid() && Table() == old(Table()) - keys
    {
      var left := keys;
      while left != {}
        invariant left <= keys
        invariant hash == old(hash) - (keys - left) && zset == old(zset) - (keys - left)
        decreases left
      {
        var k :| k in left;
        hash := hash - {k};
        zset := zset - {k};
        left := left - {k};
      }
    }
  }
}
