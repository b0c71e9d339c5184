/**
 * The Redis adapter: a lock name is a Redis hash, a lock key is a field of
 * that hash and the holder is the field's value. Each Redis command is one
 * atomic step on the server's keyspace; the MULTI block of `create` is one
 * sequence of commands that nothing interleaves with.
 */
module RedisAdapter {
  import opened Wrappers

  type Hash = map<string, string>
  /** The server's keyspace: every hash by name. */
  type Keyspace = map<string, Hash>

  /** Redis never keeps an empty hash: deleting the last field removes the key. */
  ghost predicate NoEmptyHash(db: Keyspace) {
    forall name :: name in db ==> db[name] != map[]
  }

  /** HGET: the field's value, nil when the field or the hash is missing. */
  function Lookup(db: Keyspace, name: string, key: string): Option<string> {
    if name in db && key in db[name] then Some(db[name][key]) else None
  }

  /** The keyspace after HSET name key value. */
  function SetField(db: Keyspace, name: string, key: string, value: string): (r: Keyspace)
    ensures Lookup(r, name, key) == Some(value)
    ensures forall n, k :: n != name || k != key ==> Lookup(r, n, k) == Lookup(db, n, k)
    ensures NoEmptyHash(db) ==> NoEmptyHash(r)
  {
    var h := if name in db then db[name] else map[];
    db[name := h[key := value]]
  }

  /** The keyspace after HDEL name key. */
  function DeleteField(db: Keyspace, name: string, key: string): (r: Keyspace)
    ensures Lookup(r, name, key) == None
    ensures forall n, k :: n != name || k != key ==> Lookup(r, n, k) == Lookup(db, n, k)
    ensures NoEmptyHash(db) ==> NoEmptyHash(r)
  {
    if name in db && key in db[name] then
      var h := db[name] - {key};
      assert forall k :: k in db[name] && k != key ==> k in h;
      if h == map[] then db - {name} else db[name := h]
    else db
  }

  /** HGETALL: the whole hash, and the empty hash when the name holds none. */
  function HashOf(db: Keyspace, name: string): (r: Hash)
    ensures forall k :: Lookup(db, name, k) == if k in r then Some(r[k]) else None
  {
    if name in db then db[name] else map[]
  }

  /** A new keyspace and the reply of one adapter operation. */
  datatype Step<T> = Step(db: Keyspace, reply: T)

  /**
   * `create`: HSETNX then HGET in one transaction; the reply is HSETNX's.
   * Only an absent field is written; a present one keeps its holder.
   */
  function CreateStep(db: Keyspace, name: string, key: string, value: string): (s: Step<bool>)
    ensures s.reply <==> Lookup(db, name, key).None?
    ensures Lookup(s.db, name, key) == if s.reply then Some(value) else Lookup(db, name, key)
    ensures forall n, k :: n != name || k != key ==> Lookup(s.db, n, k) == Lookup(db, n, k)
  {
    if Lookup(db, name, key).None? then Step(SetField(db, name, key, value), true) else Step(db, false)
  }

  /** `update`: HSET overwrites; the reply is true when HSET added no field, i.e. the field existed. */
  function UpdateStep(db: Keyspace, name: string, key: string, value: string): (s: Step<bool>)
    ensures s.reply <==> Lookup(db, name, key).Some?
    ensures Lookup(s.db, name, key) == Some(value)
    ensures forall n, k :: n != name || k != key ==> Lookup(s.db, n, k) == Lookup(db, n, k)
  {
    Step(SetField(db, name, key, value), Lookup(db, name, key).Some?)
  }

  /** `delete`: HDEL; the reply is true when a field was removed. */
  function DeleteStep(db: Keyspace, name: string, key: string): (s: Step<bool>)
    ensures s.reply <==> Lookup(db, name, key).Some?
    ensures Lookup(s.db, name, key) == None
    ensures forall n, k :: n != name || k != key ==> Lookup(s.db, n, k) == Lookup(db, n, k)
  {
    Step(DeleteField(db, name, key), Lookup(db, name, key).Some?)
  }

  /** The Redis server, seen through the commands the adapter sends it. */
  class RedisServer {
    var db: Keyspace

    ghost predicate Valid()
      reads this
    {
      NoEmptyHash(db)
    }

    constructor ()
      ensures Valid() && db == map[]
    {
      db := map[];
    }

    method HGet(name: string, key: string) returns (value: Option<string>)
      ensures value == Lookup(db, name, key)
    {
      value := Lookup(db, name, key);
    }

    /** HSETNX: sets the field only when it is absent; answers whether it did. */
    method HSetNx(name: string, key: string, value: string) returns (written: bool)
      requires Valid()
      modifies this
      ensures Valid()
      ensures written <==> Lookup(old(db), name, key).None?
      ensures db == if written then SetField(old(db), name, key, value) else old(db)
    {
      written := Lookup(db, name, key).None?;
      if written {
        db := SetField(db, name, key, value);
      }
    }

    /** HSET: sets the field; answers the number of fields added (0 or 1). */
    method HSet(name: string, key: string, value: string) returns (added: int)
      requires Valid()
      modifies this
      ensures Valid()
      ensures added == if Lookup(old(db), name, key).None? then 1 else 0
      ensures db == SetField(old(db), name, key, value)
    {
      added := if Lookup(db, name, key).None? then 1 else 0;
      db := SetField(db, name, key, value);
    }

    /** HDEL: removes the field; answers the number of fields removed (0 or 1). */
    method HDel(name: string, key: string) returns (removed: int)
      requires Valid()
      modifies this
      ensures Valid()
      ensures removed == if Lookup(old(db), name, key).Some? then 1 else 0
      ensures db == DeleteField(old(db), name, key)
    {
      removed := if Lookup(db, name, key).Some? then 1 else 0;
      db := DeleteField(db, name, key);
    }

    method HGetAll(name: string) returns (h: Hash)
      ensures h == HashOf(db, name)
      ensures Valid() ==> (h == map[] <==> name !in db)
    {
      h := HashOf(db, name);
    }
  }

  /** `get`: the holder recorded under (name, key), nil when there is none. */
  method Get(server: RedisServer, name: string, key: string) returns (holder: Option<string>)
    ensures holder.Some? <==> name in server.db && key in server.db[name]
    ensures holder.Some? ==> holder.value == server.db[name][key]
  {
    holder := server.HGet(name, key);
  }

  /** `create`: true exactly when this call recorded the holder. */
  method Create(server: RedisServer, name: string, key: string, value: string) returns (created: bool)
    requires server.Valid()
    modifies server
    ensures server.Valid()
    ensures Step(server.db, created) == CreateStep(old(server.db), name, key, value)
  {
    // MULTI ... EXEC: the transaction's replies are [HSETNX, HGET]
    var inserted := server.HSetNx(name, key, value);
    var readBack := server.HGet(name, key);
    created := inserted;
  }

  /** `update`: overwrites the holder; true exactly when a holder was already recorded. */
  method Update(server: RedisServer, name: string, key: string, value: string) returns (existed: bool)
    requires server.Valid()
    modifies server
    ensures server.Valid()
    ensures Step(server.db, existed) == UpdateStep(old(server.db), name, key, value)
  {
    var added := server.HSet(name, key, value);
    existed := added == 0;
  }

  /** `delete`: removes the holder; true exactly when one was recorded. */
  method Delete(server: RedisServer, name: string, key: string) returns (deleted: bool)
    requires server.Valid()
    modifies server
    ensures server.Valid()
    ensures Step(server.db, deleted) == DeleteStep(old(server.db), name, key)
  {
    var removed := server.HDel(name, key);
    deleted := removed != 0;
  }

  /** `all`: every key of the lock name with its holder; empty when the name holds no hash. */
  method All(server: RedisServer, name: string) returns (locks: Hash)
    ensures forall k :: k in locks <==> Lookup(server.db, name, k).Some?
    ensures forall k :: k in locks ==> Lookup(server.db, name, k) == Some(locks[k])
    ensures server.Valid() ==> (locks == map[] <==> name !in server.db)
  {
    locks := server.HGetAll(name);
  }

  /** Two creates on one free field: the first wins, the second loses and the first holder stays. */
  lemma CreateTwiceKeepsFirst(db: Keyspace, name: string, key: string, first: string, second: string)
    requires Lookup(db, name, key).None?
    ensures var s1 := CreateStep(db, name, key, first);
            var s2 := CreateStep(s1.db, name, key, second);
            s1.reply && !s2.reply && Lookup(s2.db, name, key) == Some(first)
  {
  }

  /** Create then delete: the delete reports the lock and the field is free again. */
  lemma CreateThenDelete(db: Keyspace, name: string, key: string, value: string)
    ensures var s1 := CreateStep(db, name, key, value);
            var s2 := DeleteStep(s1.db, name, key);
            s2.reply && Lookup(s2.db, name, key).None?
  {
  }
}
