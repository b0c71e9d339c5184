/**
 * The RailsSoftLock module itself: its memoised lock manager, its lazily
 * created configuration, and the `get` / `create` / `update` shortcuts that
 * delegate to the lock manager.
 */
module RailsSoftLock {
  import opened Wrappers
  import opened RubyValues
  import Config
  import Locking
  import RedisAdapter
  import MemcachedAdapter

  /** What `configure` prints on standard error when it is given no block. */
  const NoBlockWarning: string := "[RailsSoftLock] No configuration block provided in `configure`"

  /** `configure` yields the configuration to its block, or warns when there is no block. */
  datatype ConfigureOutcome = Yielded(config: Config.Configuration) | Warned(message: string)

  /**
   * The module's instance variables `@lock_manager` and `@configuration`,
   * and the two servers a lock object can be bound to.
   */
  class SoftLock {
    var lockManager: Locking.LockObject?
    var configuration: Config.Configuration?
    const redis: RedisAdapter.RedisServer
    const memcached: MemcachedAdapter.MemcachedServer

    ghost predicate Valid()
      reads this, redis, configuration
    {
      && redis.Valid()
      && (configuration != null ==> configuration.Valid())
      && (lockManager != null ==>
            lockManager.backend in {Locking.RedisBackend(redis), Locking.NatsBackend, Locking.MemcachedBackend(memcached)})
    }

    /** The adapter the lock manager is bound to, or would be bound to if it were built now. */
    ghost function AdapterInUse(): string
      reads this, configuration
    {
      if lockManager != null then Locking.AdapterName(Locking.KindOf(lockManager.backend))
      else if configuration != null then configuration.adapter
      else Config.DefaultAdapter
    }

    /** The holder the lock manager holds, or would hold if it were built now from `value`. */
    ghost function HolderInUse(value: RubyValue): Option<string>
      reads this
    {
      if lockManager != null then lockManager.objectValue else Normalise(value)
    }

    constructor (redis: RedisAdapter.RedisServer, memcached: MemcachedAdapter.MemcachedServer)
      requires redis.Valid()
      ensures Valid() && lockManager == null && configuration == null
      ensures this.redis == redis && this.memcached == memcached
    {
      this.redis := redis;
      this.memcached := memcached;
      lockManager := null;
      configuration := null;
    }

    /** `configuration`: created with its defaults on first use, the same instance afterwards. */
    method GetConfiguration() returns (config: Config.Configuration)
      requires Valid()
      modifies this
      ensures Valid() && configuration == config && lockManager == old(lockManager)
      ensures old(configuration) != null ==> config == old(configuration)
      ensures old(configuration) == null ==> fresh(config) && config.IsDefault()
    {
      if configuration == null {
        configuration := new Config.Configuration();
      }
      config := configuration;
    }

    /** `configure`: the configuration, created if need be, is yielded to the block; without a block only a warning is printed. */
    method Configure(withBlock: bool) returns (outcome: ConfigureOutcome)
      requires Valid()
      modifies this
      ensures Valid() && configuration != null && lockManager == old(lockManager)
      ensures old(configuration) != null ==> configuration == old(configuration)
      ensures old(configuration) == null ==> fresh(configuration) && configuration.IsDefault()
      ensures outcome == if withBlock then Yielded(configuration) else Warned(NoBlockWarning)
    {
      var config := GetConfiguration();
      if withBlock {
        outcome := Yielded(config);
      } else {
        outcome := Warned(NoBlockWarning);
      }
    }

    /** `reset_configuration`: the next `configuration` builds a fresh default one. The lock manager is kept. */
    method ResetConfiguration()
      modifies this
      ensures configuration == null && lockManager == old(lockManager)
    {
      configuration := null;
    }

    /**
     * `lock_manager`: built on the first call from that call's arguments and
     * the configured adapter; every later call returns the same object and
     * ignores its arguments.
     */
    method LockManager(name: string, key: string, value: RubyValue) returns (manager: Locking.LockObject)
      requires Valid()
      modifies this
      ensures Valid() && lockManager == manager
      ensures old(lockManager) != null ==> manager == old(lockManager) && configuration == old(configuration)
      ensures old(lockManager) == null ==>
                fresh(manager) && manager.objectName == name && manager.objectKey == key
                && manager.objectValue == Normalise(value)
                && configuration != null && Locking.AdapterName(Locking.KindOf(manager.backend)) == configuration.adapter
      ensures old(configuration) != null ==> configuration == old(configuration)
      ensures AdapterInUse() == old(AdapterInUse())
    {
      if lockManager == null {
        // LockObject.adapter reads RailsSoftLock.configuration, creating it if need be
        var config := GetConfiguration();
        var kind := Locking.SelectAdapter(config.adapter);
        var backend := Locking.Connect(kind.value, redis, memcached);
        lockManager := new Locking.LockObject(name, key, value, backend);
      }
      manager := lockManager;
    }

    /** `RailsSoftLock.get`: `locked_by` of the lock manager. */
    method Get(name: string, key: string) returns (holder: Option<string>)
      requires Valid() && AdapterInUse() != "nats"
      modifies this
      ensures Valid() && lockManager != null
      ensures old(lockManager) != null ==> lockManager == old(lockManager)
      ensures old(lockManager) == null ==>
                lockManager.objectName == name && lockManager.objectKey == key && lockManager.objectValue.None?
      ensures old(configuration) != null ==> configuration == old(configuration)
      ensures AdapterInUse() == old(AdapterInUse())
      ensures lockManager.backend.RedisBackend? ==>
                holder == RedisAdapter.Lookup(redis.db, lockManager.objectName, lockManager.objectKey)
      ensures lockManager.backend.MemcachedBackend? ==>
                holder == MemcachedAdapter.Holder(memcached.records, lockManager.objectKey)
    {
      var manager := LockManager(name, key, Nil);
      holder := manager.LockedBy();
    }

    /** `RailsSoftLock.create`: `lock_or_find` of the lock manager. */
    method Create(name: string, key: string, value: RubyValue) returns (result: Locking.LockResult)
      requires Valid() && AdapterInUse() != "nats"
      requires AdapterInUse() == "redis" ==> HolderInUse(value).Some?
      modifies this, redis, memcached
      ensures Valid() && lockManager != null
      ensures old(lockManager) != null ==> lockManager == old(lockManager)
      ensures old(lockManager) == null ==>
                lockManager.objectName == name && lockManager.objectKey == key
                && lockManager.objectValue == Normalise(value)
      ensures old(configuration) != null ==> configuration == old(configuration)
      ensures AdapterInUse() == old(AdapterInUse())
      ensures lockManager.backend.RedisBackend? ==> lockManager.objectValue.Some?
      ensures lockManager.backend.RedisBackend? ==>
                memcached.records == old(memcached.records) && memcached.keyIndex == old(memcached.keyIndex)
      ensures lockManager.backend.MemcachedBackend? ==> redis.db == old(redis.db)
      ensures lockManager.backend.RedisBackend? ==>
                RedisAdapter.Step(redis.db, result)
                == Locking.LockOrFindOnRedis(old(redis.db), lockManager.objectName, lockManager.objectKey,
                                             lockManager.objectValue.value)
      ensures lockManager.backend.MemcachedBackend? ==>
                MemcachedAdapter.Step(memcached.State(), result)
                == Locking.LockOrFindOnMemcached(old(memcached.State()), lockManager.objectKey, lockManager.objectValue)
    {
      var manager := LockManager(name, key, value);
      result := manager.LockOrFind();
    }

    /** `RailsSoftLock.update`: also `lock_or_find` of the lock manager; the adapter's `update` is never called. */
    method Update(name: string, key: string, value: RubyValue) returns (result: Locking.LockResult)
      requires Valid() && AdapterInUse() != "nats"
      requires AdapterInUse() == "redis" ==> HolderInUse(value).Some?
      modifies this, redis, memcached
      ensures Valid() && lockManager != null
      ensures old(lockManager) != null ==> lockManager == old(lockManager)
      ensures old(lockManager) == null ==>
                lockManager.objectName == name && lockManager.objectKey == key
                && lockManager.objectValue == Normalise(value)
      ensures old(configuration) != null ==> configuration == old(configuration)
      ensures AdapterInUse() == old(AdapterInUse())
      ensures lockManager.backend.RedisBackend? ==> lockManager.objectValue.Some?
      ensures lockManager.backend.RedisBackend? ==>
                memcached.records == old(memcached.records) && memcached.keyIndex == old(memcached.keyIndex)
      ensures lockManager.backend.MemcachedBackend? ==> redis.db == old(redis.db)
      ensures lockManager.backend.RedisBackend? ==>
                RedisAdapter.Step(redis.db, result)
                == Locking.LockOrFindOnRedis(old(redis.db), lockManager.objectName, lockManager.objectKey,
                                             lockManager.objectValue.value)
      ensures lockManager.backend.MemcachedBackend? ==>
                MemcachedAdapter.Step(memcached.State(), result)
                == Locking.LockOrFindOnMemcached(old(memcached.State()), lockManager.objectKey, lockManager.objectValue)
    {
      var manager := LockManager(name, key, value);
      result := manager.LockOrFind();
    }
  }
}
