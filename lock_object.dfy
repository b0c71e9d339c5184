/**
 * RailsSoftLock::LockObject: binds a lock name, a lock key and a holder to
 * the adapter the configuration selects, and offers the lock life cycle on
 * top of the adapter's operations.
 */
module Locking {
  import opened Wrappers
  import opened RubyValues
  import Config
  import RedisAdapter
  import MemcachedAdapter
  import KeyIndex

  /** The adapters `LockObject.adapter` can include. */
  datatype AdapterKind = RedisKind | NatsKind | MemcachedKind

  /** The configuration symbol that names an adapter. */
  function AdapterName(kind: AdapterKind): string {
    match kind
    case RedisKind => "redis"
    case NatsKind => "nats"
    case MemcachedKind => "memcached"
  }

  /** `LockObject.adapter`: the adapter the configured symbol names; any other symbol raises. */
  function SelectAdapter(adapter: string): (r: Result<AdapterKind>)
    ensures r.Ok? <==> adapter in Config.ValidAdapters
    ensures r.Ok? ==> AdapterName(r.value) == adapter
    ensures r.Raised? ==> r.error == ArgumentError("Unknown adapter: " + adapter)
  {
    if adapter == "redis" then Ok(RedisKind)
    else if adapter == "nats" then Ok(NatsKind)
    else if adapter == "memcached" then Ok(MemcachedKind)
    else Raised(ArgumentError("Unknown adapter: " + adapter))
  }

  /** Every adapter is selected by its own name. */
  lemma SelectAdapterByName(kind: AdapterKind)
    ensures SelectAdapter(AdapterName(kind)) == Ok(kind)
  {
  }

  /**
   * The adapter a lock object is bound to, with the server it talks to. The
   * Nats adapter is not part of this model: it has no server and no operations.
   */
  datatype Backend =
    | RedisBackend(redis: RedisAdapter.RedisServer)
    | NatsBackend
    | MemcachedBackend(memcached: MemcachedAdapter.MemcachedServer)

  /** The adapter a backend belongs to. */
  function KindOf(backend: Backend): AdapterKind {
    match backend
    case RedisBackend(_) => RedisKind
    case NatsBackend => NatsKind
    case MemcachedBackend(_) => MemcachedKind
  }

  function Connect(kind: AdapterKind, redis: RedisAdapter.RedisServer,
                   memcached: MemcachedAdapter.MemcachedServer): Backend
  {
    match kind
    case RedisKind => RedisBackend(redis)
    case NatsKind => NatsBackend
    case MemcachedKind => MemcachedBackend(memcached)
  }

  /** The Hash `{ has_locked:, locked_by: }` that `lock_or_find` returns. */
  datatype LockResult = LockResult(hasLocked: bool, lockedBy: Option<string>)

  /**
   * `lock_or_find` over Redis: read the holder, then `create`. The lock is
   * taken exactly when the field was free, and the reported holder is the
   * one read, or the requested one when there was none.
   */
  function LockOrFindOnRedis(db: RedisAdapter.Keyspace, name: string, key: string, value: string)
    : (s: RedisAdapter.Step<LockResult>)
    ensures s.reply.hasLocked <==> RedisAdapter.Lookup(db, name, key).None?
    ensures s.reply.lockedBy == Some(if s.reply.hasLocked then value else RedisAdapter.Lookup(db, name, key).value)
    ensures RedisAdapter.Lookup(s.db, name, key) == s.reply.lockedBy
    ensures s.db == RedisAdapter.CreateStep(db, name, key, value).db
  {
    var lockedObject := RedisAdapter.Lookup(db, name, key);
    var created := RedisAdapter.CreateStep(db, name, key, value);
    RedisAdapter.Step(created.db, LockResult(created.reply, lockedObject.OrElse(Some(value))))
  }

  /**
   * `lock_or_find` over Memcached: read the holder, then `create`. The lock
   * is taken exactly when the key was free; the reported holder is the one
   * read, or the requested one when the read gave nil.
   */
  function LockOrFindOnMemcached(c: MemcachedAdapter.Cache, key: string, value: Option<string>)
    : (s: MemcachedAdapter.Step<LockResult>)
    ensures s.reply.hasLocked <==> key !in c.records
    ensures s.reply.lockedBy == MemcachedAdapter.Holder(c.records, key).OrElse(value)
    ensures s.cache == MemcachedAdapter.CreateStep(c, key, value).cache
  {
    var lockedObject := MemcachedAdapter.Holder(c.records, key);
    var created := MemcachedAdapter.CreateStep(c, key, value);
    MemcachedAdapter.Step(created.cache, LockResult(created.reply, lockedObject.OrElse(value)))
  }

  /** A second locker on a taken Redis lock is refused and told who holds it. */
  lemma SecondLockerSeesFirstOnRedis(db: RedisAdapter.Keyspace, name: string, key: string, first: string, second: string)
    requires RedisAdapter.Lookup(db, name, key).None?
    ensures var s1 := LockOrFindOnRedis(db, name, key, first);
            var s2 := LockOrFindOnRedis(s1.db, name, key, second);
            s1.reply == LockResult(true, Some(first)) && s2.reply == LockResult(false, Some(first))
            && RedisAdapter.Lookup(s2.db, name, key) == Some(first)
  {
  }

  /** A second locker on a taken Memcached lock is refused and told who holds it. */
  lemma SecondLockerSeesFirstOnMemcached(c: MemcachedAdapter.Cache, key: string, first: string, second: Option<string>)
    requires key !in c.records
    ensures var s1 := LockOrFindOnMemcached(c, key, Some(first));
            var s2 := LockOrFindOnMemcached(s1.cache, key, second);
            s1.reply == LockResult(true, Some(first)) && s2.reply == LockResult(false, Some(first))
            && MemcachedAdapter.Holder(s2.cache.records, key) == Some(first)
  {
  }

  /**
   * The adapters disagree on `update` right after a winning `create` with the
   * same holder: Redis answers true (the field existed), memcached answers false.
   */
  lemma UpdateAfterCreateDisagrees(db: RedisAdapter.Keyspace, c: MemcachedAdapter.Cache,
                                   name: string, key: string, value: string)
    requires RedisAdapter.Lookup(db, name, key).None? && key !in c.records
    ensures var r1 := RedisAdapter.CreateStep(db, name, key, value);
            var m1 := MemcachedAdapter.CreateStep(c, key, Some(value));
            r1.reply && m1.reply
            && RedisAdapter.UpdateStep(r1.db, name, key, value).reply
            && !MemcachedAdapter.UpdateStep(m1.cache, key, Some(value)).reply
  {
    MemcachedAdapter.UpdateAfterCreate(c, key, Some(value));
  }

  /** Once locked, repeating `lock_or_find` changes nothing and keeps reporting the holder. */
  lemma LockOrFindIsStable(c: MemcachedAdapter.Cache, key: string, value: Option<string>, again: Option<string>)
    ensures var s1 := LockOrFindOnMemcached(c, key, value);
            var s2 := LockOrFindOnMemcached(s1.cache, key, again);
            !s2.reply.hasLocked && s2.cache == s1.cache
            && s2.reply.lockedBy == MemcachedAdapter.Holder(s1.cache.records, key).OrElse(again)
  {
    KeyIndex.PromoteTwice(c.keyIndex, key);
  }

  class LockObject {
    const objectName: string
    const objectKey: string
    const objectValue: Option<string>
    const backend: Backend

    /** `initialize`: the holder is kept as a String when present and as nil when blank. */
    constructor (objectName: string, objectKey: string, objectValue: RubyValue, backend: Backend)
      ensures this.objectName == objectName && this.objectKey == objectKey && this.backend == backend
      ensures this.objectValue == Normalise(objectValue)
    {
      this.objectName := objectName;
      this.objectKey := objectKey;
      this.objectValue := Normalise(objectValue);
      this.backend := backend;
    }

    /** The server the adapter's operations change. */
    function Servers(): set<object> {
      match backend
      case RedisBackend(redis) => {redis}
      case NatsBackend => {}
      case MemcachedBackend(memcached) => {memcached}
    }

    ghost predicate Valid()
      reads Servers()
    {
      backend.RedisBackend? ==> backend.redis.Valid()
    }

    /** `locked_by`: the adapter's `get`. */
    method LockedBy() returns (holder: Option<string>)
      requires !backend.NatsBackend?
      ensures backend.RedisBackend? ==> holder == RedisAdapter.Lookup(backend.redis.db, objectName, objectKey)
      ensures backend.MemcachedBackend? ==> holder == MemcachedAdapter.Holder(backend.memcached.records, objectKey)
    {
      if backend.RedisBackend? {
        holder := RedisAdapter.Get(backend.redis, objectName, objectKey);
      } else {
        holder := MemcachedAdapter.Get(backend.memcached, objectKey);
      }
    }

    /** `lock_or_find`: `get`, then `create`; `has_locked` is `create`'s answer. */
    method LockOrFind() returns (result: LockResult)
      requires Valid() && !backend.NatsBackend?
      requires backend.RedisBackend? ==> objectValue.Some?
      modifies Servers()
      ensures Valid()
      ensures backend.RedisBackend? ==>
                RedisAdapter.Step(backend.redis.db, result)
                == LockOrFindOnRedis(old(backend.redis.db), objectName, objectKey, objectValue.value)
      ensures backend.MemcachedBackend? ==>
                MemcachedAdapter.Step(backend.memcached.State(), result)
                == LockOrFindOnMemcached(old(backend.memcached.State()), objectKey, objectValue)
    {
      var lockedObject: Option<string>;
      var created: bool;
      if backend.RedisBackend? {
        lockedObject := RedisAdapter.Get(backend.redis, objectName, objectKey);
        created := RedisAdapter.Create(backend.redis, objectName, objectKey, objectValue.value);
      } else {
        lockedObject := MemcachedAdapter.Get(backend.memcached, objectKey);
        created := MemcachedAdapter.Create(backend.memcached, objectKey, objectValue);
      }
      result := LockResult(created, lockedObject.OrElse(objectValue));
    }

    /** `unlock`: the adapter's `delete`. */
    method Unlock() returns (unlocked: bool)
      requires Valid() && !backend.NatsBackend?
      modifies Servers()
      ensures Valid()
      ensures backend.RedisBackend? ==>
                RedisAdapter.Step(backend.redis.db, unlocked)
                == RedisAdapter.DeleteStep(old(backend.redis.db), objectName, objectKey)
      ensures backend.MemcachedBackend? ==>
                MemcachedAdapter.Step(backend.memcached.State(), unlocked)
                == MemcachedAdapter.DeleteStep(old(backend.memcached.State()), objectKey)
    {
      if backend.RedisBackend? {
        unlocked := RedisAdapter.Delete(backend.redis, objectName, objectKey);
      } else {
        unlocked := MemcachedAdapter.Delete(backend.memcached, objectKey);
      }
    }

    /** `all_locks`: the adapter's `all`, as a Hash from lock key to holder. */
    method AllLocks() returns (locks: Result<map<string, Option<string>>>)
      requires !backend.NatsBackend?
      ensures backend.RedisBackend? ==>
                locks.Ok?
                && (forall k :: k in locks.value <==> RedisAdapter.Lookup(backend.redis.db, objectName, k).Some?)
                && (forall k :: k in locks.value ==> locks.value[k] == RedisAdapter.Lookup(backend.redis.db, objectName, k))
      ensures backend.MemcachedBackend? ==> locks == MemcachedAdapter.Listing(backend.memcached.State())
    {
      if backend.RedisBackend? {
        var fields := RedisAdapter.All(backend.redis, objectName);
        locks := Ok(map k | k in fields :: Some(fields[k]));
      } else {
        locks := MemcachedAdapter.All(backend.memcached);
      }
    }
  }
}
