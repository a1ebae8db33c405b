/** Redis as a finite map from key to value and expiry, read against a clock.
    A key is live strictly before its expiry; a dead key may still sit in the map. */
module Redis {
  import opened Wrappers

  datatype Expiry = Never | At(time: int)

  datatype Entry<+V> = Entry(value: V, expiry: Expiry)

  type Db<!K, V> = map<K, Entry<V>>

  predicate Live<K, V>(db: Db<K, V>, now: int, key: K) {
    key in db && (db[key].expiry.At? ==> now < db[key].expiry.time)
  }

  function Lookup<K, V>(db: Db<K, V>, now: int, key: K): Option<V> {
    if Live(db, now, key) then Some(db[key].value) else None
  }

  /** SET key value PX ttl. */
  function SetPx<K, V>(db: Db<K, V>, now: int, key: K, value: V, ttl: int): Db<K, V> {
    db[key := Entry(value, At(now + ttl))]
  }

  /** SET key value EX ttl, with the clock in milliseconds. */
  function SetEx<K, V>(db: Db<K, V>, now: int, key: K, value: V, ttl: int): Db<K, V> {
    SetPx(db, now, key, value, 1000 * ttl)
  }

  function Remove<K, V>(db: Db<K, V>, key: K): Db<K, V> {
    db - {key}
  }

  /** PEXPIRE: a live key gets a new expiry, a missing one is left missing. */
  function PExpire<K, V>(db: Db<K, V>, now: int, key: K, ttl: int): Db<K, V> {
    if Live(db, now, key) then db[key := db[key].(expiry := At(now + ttl))] else db
  }

  /** PTTL: -2 for a missing key, -1 for one without an expiry. */
  function PTtl<K, V>(db: Db<K, V>, now: int, key: K): int {
    if !Live(db, now, key) then -2
    else if db[key].expiry.Never? then -1
    else db[key].expiry.time - now
  }

  /** INCR keeps the expiry of a live counter and creates a missing one without an expiry. */
  function Incr<K>(db: Db<K, int>, now: int, key: K): Db<K, int> {
    if Live(db, now, key) then db[key := db[key].(value := db[key].value + 1)] else db[key := Entry(1, Never)]
  }

  /** What a pattern deletion leaves behind. */
  function DelMatching<K, V>(db: Db<K, V>, matches: K -> bool): Db<K, V> {
    map k | k in db && !matches(k) :: db[k]
  }

  /** The stores agree on all keys but these. */
  ghost predicate SameApartFrom<K(!new), V>(db: Db<K, V>, db': Db<K, V>, keys: set<K>) {
    forall k :: k !in keys ==> (k in db <==> k in db') && (k in db && k in db' ==> db[k] == db'[k])
  }

  /** The typed wrapper over one connected client. Every method is one atomic command,
      except DelPattern, which is a scan of single deletions. */
  class RedisService<K(==), V(==)> {
    var db: Db<K, V>
    var now: int

    constructor ()
      ensures db == map[]
      ensures now == 0
    {
      db, now := map[], 0;
    }

    method Get(key: K) returns (value: Option<V>)
      ensures value == Lookup(db, now, key)
      ensures value.Some? <==> key in db && (db[key].expiry.At? ==> now < db[key].expiry.time)
      ensures value.Some? ==> value.value == db[key].value
    {
      if key in db && (db[key].expiry.Never? || now < db[key].expiry.time) {
        value := Some(db[key].value);
      } else {
        value := None;
      }
    }

    method Exists(key: K) returns (found: bool)
      ensures found == Lookup(db, now, key).Some?
    {
      var value := Get(key);
      found := value.Some?;
    }

    method Set(key: K, value: V, ttl: int)
      modifies `db
      ensures db == SetEx(old(db), now, key, value, ttl)
      ensures db == old(db)[key := Entry(value, At(now + 1000 * ttl))]
    {
      db := db[key := Entry(value, At(now + 1000 * ttl))];
    }

    /** Replaces the value only when the live value is the expected one. */
    method CompareAndSet(key: K, expected: V, next: V, ttl: int) returns (replaced: bool)
      modifies `db
      ensures replaced == (Lookup(old(db), now, key) == Some(expected))
      ensures db == if replaced then old(db)[key := Entry(next, At(now + 1000 * ttl))] else old(db)
    {
      var current := Get(key);
      if current != Some(expected) {
        return false;
      }
      Set(key, next, ttl);
      return true;
    }

    method Del(key: K)
      modifies `db
      ensures db == Remove(old(db), key)
    {
      db := db - {key};
    }

    /** Reads and deletes in one command: a second reader finds nothing. */
    method GetDel(key: K) returns (value: Option<V>)
      modifies `db
      ensures value == Lookup(old(db), now, key)
      ensures db == Remove(old(db), key) && key !in db
    {
      value := Get(key);
      Del(key);
    }

    /** The cursor loop: SCAN reports every key of the keyspace, in no particular order,
        and the reported keys that match are deleted. */
    method DelPattern(matches: K -> bool)
      modifies `db
      ensures db == DelMatching(old(db), matches)
      ensures forall k :: k in db <==> k in old(db) && !matches(k)
      ensures forall k :: k in db ==> db[k] == old(db)[k]
    {
      var unreported := db.Keys;
      while unreported != {}
        invariant unreported <= old(db).Keys
        invariant db.Keys <= old(db).Keys
        invariant forall k :: k in old(db) && (k in unreported || !matches(k)) ==> k in db
        invariant forall k :: k in db ==> db[k] == old(db)[k] && (k in unreported || !matches(k))
        decreases unreported
      {
        var key :| key in unreported;
        unreported := unreported - {key};
        if matches(key) {
          Del(key);
        }
      }
    }
  }
}
