# rails_soft_lock, modelled in Dafny

rails_soft_lock is a Ruby gem that puts "soft" locks on records. A lock is
a field in a key-value backend. It has three parts:

- a lock name (`object_name`, usually the model name);
- a lock key (`object_key`, usually the record id);
- a holder (`object_value`, the id of the user holding the lock).

An adapter implements five operations over the backend: `get`, `create`,
`update`, `delete` and `all`. There are two adapters here:

- The Redis adapter keeps one hash per lock name.
- The Memcached adapter keeps one record `{current:, previous:}` per lock
  key. Beside the records it keeps a global list of keys (the "keys" entry
  of the ConnectionInfo namespace), because memcached cannot enumerate its
  keys.

`LockObject` picks the configured adapter and normalises the holder. It
offers `locked_by`, `lock_or_find`, `unlock` and `all_locks`. The
`RailsSoftLock` module memoises one lock object and one `Configuration`.
`Configuration` holds the adapter choice, which is always valid.

The model runs every backend command as one atomic step on a Dafny map:

- Redis: HGET, HSETNX, HSET, HDEL and HGETALL.
- Memcached: get, add, set, replace, delete, get_multi and flush.

Each adapter operation is a method over the server object. The method is
proved equal to a pure step function on the old state. The lemmas about
the step functions state what the adapters promise.

Files:

- `wrappers.dfy`: `Option`, `Result`, and the Ruby errors that are raised.
- `ruby_values.dfy`: the Ruby values a holder can be, plus `present?`,
  `blank?` and `to_s`.
- `key_index.dfy`: the memcached key list (`reject`, `uniq`, and moving a key
  to the front).
- `redis_adapter.dfy`: the Redis server and the Redis adapter.
- `memcached_adapter.dfy`: the memcached server and the Memcached adapter.
- `configuration.dfy`: `Configuration`.
- `lock_object.dfy`: `LockObject`, adapter selection and `lock_or_find`.
- `rails_soft_lock.dfy`: the module façade with its memoised state.

## Model

| member | source | states |
|---|---|---|
| RubyValues.Digits | lib/rails_soft_lock/lock_object.rb:33 | `Integer#to_s` of a natural number is a non-empty string of decimal digits, with no leading zero unless the number is 0 |
| RubyValues.DigitsRoundTrip | lib/rails_soft_lock/lock_object.rb:33 | reading back the digits `to_s` writes gives the number again |
| RubyValues.IntegerToSRoundTrip | lib/rails_soft_lock/lock_object.rb:33 | `to_s` of any Integer, negative ones included, reads back to the same Integer, so no holder id is lost by the conversion |
| RubyValues.Normalise | lib/rails_soft_lock/lock_object.rb:33 | the holder is nil exactly when the value is not `present?` (nil, false, or a blank string). Otherwise it is a non-blank String: the string itself for a String, and a string that reads back to the number for an Integer |
| RubyValues.IntegerHolderExample | spec/rails_soft_lock/lock_object_redis_spec.rb:42-45 | the Integer holder 123 is stored as the String "123" |
| RubyValues.NormaliseIdempotent | lib/rails_soft_lock/lock_object.rb:33 | normalising an already normalised holder changes nothing |
| KeyIndex.Without | lib/rails_soft_lock/memcached_adapter.rb:55 | `reject { key == object_key }` keeps exactly the other keys and never adds a duplicate |
| KeyIndex.Uniq | lib/rails_soft_lock/memcached_adapter.rb:126 | `uniq` has no duplicates and keeps exactly the same keys |
| KeyIndex.WithoutAbsent | lib/rails_soft_lock/memcached_adapter.rb:55 | rejecting a key that is not listed leaves the list unchanged |
| KeyIndex.UniqOfNoDuplicates | lib/rails_soft_lock/memcached_adapter.rb:126 | `uniq` of a list without duplicates is that list |
| KeyIndex.UniqIdempotent | lib/rails_soft_lock/memcached_adapter.rb:126 | `uniq` applied twice equals `uniq` once |
| KeyIndex.Promote | lib/rails_soft_lock/memcached_adapter.rb:124-133 | `[key].append(*keys).uniq` puts the key first and only there. It has no duplicates and lists the key plus the old keys. Behind the key, the other keys keep their order with duplicates removed. A missing list counts as empty |
| KeyIndex.PromoteMovesToFront | lib/rails_soft_lock/memcached_adapter.rb:124-133 | on a list without duplicates, the key moves to the front and the rest keep their order |
| KeyIndex.PromoteTwice | lib/rails_soft_lock/memcached_adapter.rb:124-133 | indexing the same key twice gives the same list as indexing it once |
| RedisAdapter.SetField | lib/rails_soft_lock/redis_adapter.rb:39 | HSET makes the field hold the value and changes no other field of any hash. It never creates an empty hash |
| RedisAdapter.DeleteField | lib/rails_soft_lock/redis_adapter.rb:46 | HDEL empties the field and changes no other field. A hash whose last field goes is removed, so no empty hash exists |
| RedisAdapter.HashOf | lib/rails_soft_lock/redis_adapter.rb:53 | HGETALL answers exactly the fields of the named hash, and nothing for a missing hash |
| RedisAdapter.CreateStep | lib/rails_soft_lock/redis_adapter.rb:28-34 | `create` answers true exactly when the field was free. It then stores the value; otherwise it keeps the stored holder. No other field changes |
| RedisAdapter.UpdateStep | lib/rails_soft_lock/redis_adapter.rb:38-41 | `update` stores the value whatever was there and answers true exactly when the field existed before. No other field changes |
| RedisAdapter.DeleteStep | lib/rails_soft_lock/redis_adapter.rb:45-48 | `delete` answers true exactly when the field existed, and leaves it empty. No other field changes |
| RedisAdapter.RedisServer.HGet | lib/rails_soft_lock/redis_adapter.rb:23 | HGET answers the field's value or nil |
| RedisAdapter.RedisServer.HSetNx | lib/rails_soft_lock/redis_adapter.rb:30 | HSETNX writes only a free field and says whether it wrote |
| RedisAdapter.RedisServer.HSet | lib/rails_soft_lock/redis_adapter.rb:39 | HSET writes the field and answers 1 for a new field, 0 for an overwritten one |
| RedisAdapter.RedisServer.HDel | lib/rails_soft_lock/redis_adapter.rb:46 | HDEL removes the field and answers how many fields it removed |
| RedisAdapter.RedisServer.HGetAll | lib/rails_soft_lock/redis_adapter.rb:53 | HGETALL answers the whole hash, and it is empty exactly when no hash of that name exists, since Redis keeps no empty hash |
| RedisAdapter.Get | lib/rails_soft_lock/redis_adapter.rb:22-24 | `get` answers the stored holder when both the hash and the field exist, and nil otherwise |
| RedisAdapter.Create | lib/rails_soft_lock/redis_adapter.rb:28-34 | the MULTI block (HSETNX, then HGET) answers HSETNX's result and changes the store as `CreateStep` says |
| RedisAdapter.Update | lib/rails_soft_lock/redis_adapter.rb:38-41 | `result.zero?` of HSET matches `UpdateStep` |
| RedisAdapter.Delete | lib/rails_soft_lock/redis_adapter.rb:45-48 | `!result.zero?` of HDEL matches `DeleteStep` |
| RedisAdapter.All | lib/rails_soft_lock/redis_adapter.rb:52-54 | `all` lists exactly the fields held under the name, with their holders. It is empty exactly when no hash of that name exists |
| RedisAdapter.CreateTwiceKeepsFirst | spec/rails_soft_lock/shared_examples/adapter_example.rb:34-58 | two creates on a free field answer true then false, and `get` still gives the first holder |
| RedisAdapter.CreateThenDelete | spec/rails_soft_lock/shared_examples/adapter_example.rb:91-103 | after a create, delete answers true and `get` answers nil |
| MemcachedAdapter.HashValue | lib/rails_soft_lock/memcached_adapter.rb:95-98 | `hash_value(field)` is nil when the key is missing or holds no Hash. Otherwise it is that field of the stored record |
| MemcachedAdapter.Updatable | lib/rails_soft_lock/memcached_adapter.rb:102-104 | `updatable?` holds whenever the holder would change. It fails exactly when the stored record already has the requested holder and no present previous holder, or when there is no record and no holder was requested |
| MemcachedAdapter.UpdateAfterCreate | lib/rails_soft_lock/memcached_adapter.rb:43-49 | right after a winning `create`, `update` with the same holder is not `updatable?`: it falls back to a losing `create`, answers false and changes neither the records nor the key list |
| MemcachedAdapter.UpdatableWithoutRecord | lib/rails_soft_lock/memcached_adapter.rb:102-104 | on a key that holds no record, `updatable?` is true exactly when a holder is given, so such an `update` takes the `set` path |
| MemcachedAdapter.BuildData | lib/rails_soft_lock/memcached_adapter.rb:89-91 | `build_data` is a record whose `current` is the new holder and whose `previous` is what `get` answered |
| MemcachedAdapter.Found | lib/rails_soft_lock/memcached_adapter.rb:69 | `get_multi` answers exactly the requested keys that are stored, with their stored values |
| MemcachedAdapter.CreateStep | lib/rails_soft_lock/memcached_adapter.rb:34-39 | `create` answers true exactly when the key was free, and then stores `{current: value, previous: nil}`. Otherwise the record is unchanged. Either way the key list becomes the key followed by the old list without it, deduplicated, and it is created if it was missing |
| MemcachedAdapter.UpdateStep | lib/rails_soft_lock/memcached_adapter.rb:43-49 | when `updatable?` holds, `update` sets `{current: value, previous: old current}`, answers true and leaves the key list alone. Otherwise it is exactly `create` |
| MemcachedAdapter.DeleteStep | lib/rails_soft_lock/memcached_adapter.rb:53-57 | `delete` answers true exactly when the record existed, and removes it. The key leaves the key list wherever it occurs; a missing list stays missing |
| MemcachedAdapter.Listing | lib/rails_soft_lock/memcached_adapter.rb:68-72 | `all` lists exactly the listed keys that are still stored, each with its current holder. Stale keys are skipped and unlisted records never appear. If a listed key stores a value that is not a Hash (see Left out), it raises TypeError instead |
| MemcachedAdapter.MemcachedServer.Get | lib/rails_soft_lock/memcached_adapter.rb:96 | the client's `get` answers the stored value or nil |
| MemcachedAdapter.MemcachedServer.Add | lib/rails_soft_lock/memcached_adapter.rb:35 | `add` stores only under a free key and says whether it stored |
| MemcachedAdapter.MemcachedServer.Set | lib/rails_soft_lock/memcached_adapter.rb:45 | `set` stores unconditionally |
| MemcachedAdapter.MemcachedServer.Delete | lib/rails_soft_lock/memcached_adapter.rb:56 | `delete` removes the key and says whether it was there |
| MemcachedAdapter.MemcachedServer.GetMulti | lib/rails_soft_lock/memcached_adapter.rb:69 | `get_multi` answers `Found` |
| MemcachedAdapter.MemcachedServer.Flush | lib/rails_soft_lock/memcached_adapter.rb:62 | `flush` empties the record store |
| MemcachedAdapter.MemcachedServer.IndexGet | lib/rails_soft_lock/memcached_adapter.rb:54 | reading "keys" answers the key list or nil |
| MemcachedAdapter.MemcachedServer.IndexAdd | lib/rails_soft_lock/memcached_adapter.rb:129 | `add("keys", …)` writes the list only when there is none |
| MemcachedAdapter.MemcachedServer.IndexSet | lib/rails_soft_lock/memcached_adapter.rb:131 | `set("keys", …)` writes the list |
| MemcachedAdapter.MemcachedServer.IndexReplace | lib/rails_soft_lock/memcached_adapter.rb:55 | `replace("keys", …)` writes the list only when there is one |
| MemcachedAdapter.Get | lib/rails_soft_lock/memcached_adapter.rb:28-30 | `get` answers the `current` of the stored record, and nil for a missing key or a stored value that is not a Hash |
| MemcachedAdapter.UpdateUsedKeys | lib/rails_soft_lock/memcached_adapter.rb:124-133 | the key list becomes `Promote` of the old one, whichever of add and set is used, and no record changes |
| MemcachedAdapter.Create | lib/rails_soft_lock/memcached_adapter.rb:34-39 | add, then update the key list, matches `CreateStep` |
| MemcachedAdapter.Update | lib/rails_soft_lock/memcached_adapter.rb:43-49 | the `updatable?` branch, set or create, matches `UpdateStep` |
| MemcachedAdapter.Delete | lib/rails_soft_lock/memcached_adapter.rb:53-57 | rewriting the key list and then deleting the record matches `DeleteStep` |
| MemcachedAdapter.Purge | lib/rails_soft_lock/memcached_adapter.rb:61-63 | after `purge`, no record is stored and `all` answers the empty Hash |
| MemcachedAdapter.All | lib/rails_soft_lock/memcached_adapter.rb:68-72 | the loop over `get_multi`'s answer gives `Listing`, including the TypeError |
| MemcachedAdapter.CreateTwiceKeepsFirst | spec/rails_soft_lock/shared_examples/adapter_example.rb:34-58 | two creates on a free key answer true then false. The first holder stays, and the second create does not change the key list |
| MemcachedAdapter.UpdateThenGet | spec/rails_soft_lock/shared_examples/adapter_example.rb:62-83 | after `update`, `get` answers the new holder whichever branch was taken |
| MemcachedAdapter.UpdateReply | lib/rails_soft_lock/memcached_adapter.rb:43-49 | `update` answers false only when the key is stored and not `updatable?`, that is when it fell back to a losing `create` |
| MemcachedAdapter.DeleteThenGet | spec/rails_soft_lock/shared_examples/adapter_example.rb:91-98 | after `delete`, `get` answers nil and the key is not listed |
| MemcachedAdapter.CreateDeleteKeepCovered | lib/rails_soft_lock/memcached_adapter.rb:34-57 | if every stored key is listed, that stays true after `create` and after `delete` |
| MemcachedAdapter.UpdateOfAbsentKeyIsUnlisted | lib/rails_soft_lock/memcached_adapter.rb:43-49 | `update` of a key never created answers true and stores the holder, but leaves the key unlisted, so `all` omits it |
| MemcachedAdapter.ListingOfCovered | lib/rails_soft_lock/memcached_adapter.rb:68-72 | when every stored key is listed and holds a record, `all` answers exactly the stored holders |
| MemcachedAdapter.ListingAfterPurge | spec/rails_soft_lock/shared_examples/adapter_example.rb:126-131 | after the records are flushed, `all` is empty even though the key list remains |
| MemcachedAdapter.CreateAllHolders | lib/rails_soft_lock/memcached_adapter.rb:34-39 | winning creates on distinct free keys keep every stored key listed and add exactly those holders |
| MemcachedAdapter.ListingAfterCreates | spec/rails_soft_lock/shared_examples/adapter_example.rb:112-124 | from an empty cache, `all` after one create per distinct key answers exactly those keys with their holders |
| Config.AdapterStaysValid | lib/rails_soft_lock/configuration.rb:44-48 | after any sequence of `adapter=` calls, the adapter is still one of redis, nats, memcached |
| Config.Configuration.constructor | lib/rails_soft_lock/configuration.rb:18-23 | a new configuration uses the redis adapter, "User" as the locked-by class and `{by: :lock_attribute, scope: -> { "none" }}`, so the attribute reader gives :lock_attribute and the scope reader "none" |
| Config.Configuration.ActsAsLockedBy | lib/rails_soft_lock/configuration.rb:25-35 | `acts_as_locked_by` replaces both options and nothing else. The readers then give the new `by:` (or :lock_attribute when nil) and the scope's answer (or "none"). Calling it with no arguments restores the defaults |
| Config.Configuration.ActsAsLockedAttribute | lib/rails_soft_lock/configuration.rb:29-31 | `acts_as_locked_attribute` answers the `by:` option, or :lock_attribute when it is nil |
| Config.Configuration.ActsAsLockedScope | lib/rails_soft_lock/configuration.rb:33-35 | `acts_as_locked_scope` answers what the scope returns, or "none" when there is no scope or it returns nil |
| Config.Configuration.SetAdapter | lib/rails_soft_lock/configuration.rb:44-48 | `adapter=` succeeds exactly for redis, nats or memcached and assigns it. Anything else raises `ArgumentError` "Adapter must be one of: redis, nats, memcached" and keeps the old adapter. Nothing else changes |
| Locking.SelectAdapter | lib/rails_soft_lock/lock_object.rb:13-24 | `LockObject.adapter` selects an adapter exactly for the three valid symbols, the one of that name. Any other symbol raises `ArgumentError` "Unknown adapter: …" |
| Locking.SelectAdapterByName | lib/rails_soft_lock/lock_object.rb:13-24 | each adapter is selected by its own name |
| Locking.LockOrFindOnRedis | lib/rails_soft_lock/lock_object.rb:44-47 | over Redis, `has_locked` is true exactly when the field was free. `locked_by` is the holder read first, or the requested one, and it is what the store holds afterwards |
| Locking.LockOrFindOnMemcached | lib/rails_soft_lock/lock_object.rb:44-47 | over memcached, `has_locked` is true exactly when the key was free, and `locked_by` is the holder read first or else the requested one |
| Locking.SecondLockerSeesFirstOnRedis | lib/rails_soft_lock/lock_object.rb:44-47 | a second locker of a taken Redis lock is refused, told the first holder, and the first holder stays |
| Locking.SecondLockerSeesFirstOnMemcached | lib/rails_soft_lock/lock_object.rb:44-47 | a second locker of a taken memcached lock is refused, told the first holder, and the first holder stays |
| Locking.UpdateAfterCreateDisagrees | lib/rails_soft_lock/memcached_adapter.rb:43-49 | after a winning `create`, `update` with the same holder answers true on Redis (the field existed) but false on memcached |
| Locking.LockOrFindIsStable | lib/rails_soft_lock/lock_object.rb:44-47 | repeating `lock_or_find` on memcached changes nothing and never locks again |
| Locking.LockObject.constructor | lib/rails_soft_lock/lock_object.rb:30-34 | the holder is stored normalised: its `to_s` when present, nil otherwise |
| Locking.LockObject.LockedBy | lib/rails_soft_lock/lock_object.rb:38-40 | `locked_by` is the adapter's `get` |
| Locking.LockObject.LockOrFind | lib/rails_soft_lock/lock_object.rb:44-47 | `lock_or_find` (get, then create) matches `LockOrFindOnRedis` or `LockOrFindOnMemcached` |
| Locking.LockObject.Unlock | lib/rails_soft_lock/lock_object.rb:51-53 | `unlock` is the adapter's `delete` |
| Locking.LockObject.AllLocks | lib/rails_soft_lock/lock_object.rb:57-59 | `all_locks` is the adapter's `all` |
| RailsSoftLock.SoftLock.GetConfiguration | lib/rails_soft_lock.rb:48-50 | `configuration` creates a default configuration on first use and returns the same instance until it is reset |
| RailsSoftLock.SoftLock.Configure | lib/rails_soft_lock.rb:37-44 | `configure` creates the configuration if needed and yields it when given a block; without a block it only warns |
| RailsSoftLock.SoftLock.ResetConfiguration | lib/rails_soft_lock.rb:54-56 | `reset_configuration` forgets the configuration, so the next `configuration` call creates a fresh default one. The lock manager is kept |
| RailsSoftLock.SoftLock.LockManager | lib/rails_soft_lock.rb:12-18 | the first call builds a lock object from its own arguments and the configured adapter. Every later call returns that object and ignores its arguments. An existing configuration is kept, and the adapter in use does not change |
| RailsSoftLock.SoftLock.Get | lib/rails_soft_lock.rb:21-23 | `RailsSoftLock.get` is `locked_by` of the memoised lock object, whatever name and key it is given after the first call. A lock object built by `get` holds nil. The adapter in use and an existing configuration are kept |
| RailsSoftLock.SoftLock.Create | lib/rails_soft_lock.rb:25-27 | `RailsSoftLock.create` is `lock_or_find` of the memoised lock object, on the server of the adapter in use. The other server and an existing configuration are unchanged |
| RailsSoftLock.SoftLock.Update | lib/rails_soft_lock.rb:29-31 | `RailsSoftLock.update` is also `lock_or_find` of the memoised lock object; the adapter's `update` is never called. The other server and an existing configuration are unchanged |

## Code and tests

Where the code and its tests disagree, the model follows the code:

- In the memcached shared examples, `update` of an absent key is expected
  to answer false. The code takes the `set` path (`get` is nil, which
  differs from the holder) and answers true. `UpdateOfAbsentKeyIsUnlisted`
  states what the code does.
- The comment on memcached `update` says it answers true when the key was
  updated and false when it was created. Right after a winning `create`,
  `update` with the same holder updates nothing and answers false, because
  `updatable?` fails and the fallback `create` loses. Redis `update` answers
  true in the same sequence. `MemcachedAdapter.UpdateAfterCreate` and
  `Locking.UpdateAfterCreateDisagrees` state this.
- Some Redis specs assert that `create` and `has_locked` mean the opposite
  of what the code and its comments say. The model follows the code:
  `create` is true exactly when it inserted.

## Left out

- Connection provisioning (`redis_client`, `memcached_client`, the `used_keys` pool, `exists_connection_for_namespace`) and the translation of connection errors into `RailsSoftLock::Error`: network I/O and foreign client libraries. The servers are given objects.
- Concurrency: every backend command is one atomic step. The MULTI block and memcached `add` are atomic in the backend. The window between a memcached record write and its key-list write is not modelled.
- MemcachedAdapter.Purge: only the records become empty. Which namespaces a real flush clears is backend behaviour; the key list is kept and `flush`'s answer is not modelled.
- The Nats adapter: its source is not part of this model. Selecting it is modelled, but its operations are not; Nats operations require another backend.
- RedisAdapter.Create, RedisAdapter.Update and Locking.LockObject.LockOrFind: the holder written to Redis must be a String. What the Redis client does with a nil holder is client behaviour, so it is excluded by a precondition.
- RailsSoftLock.SoftLock.Create and RailsSoftLock.SoftLock.Update inherit that precondition. On Redis, a lock object first built by `RailsSoftLock.get` holds nil (lib/rails_soft_lock.rb:21-23 passes no holder), so every later `RailsSoftLock.create` or `update` on Redis is outside the model.
- A nil `object_key`: keys are strings.
- MemcachedAdapter.Listing: `Opaque` stands for every stored value that is not a Hash, and reading `[:current]` from it is always modelled as the TypeError a String gives. In Ruby, nil, true, false and Floats raise NoMethodError instead, and objects that define `[]` answer a value without raising. Only this gem's Hash records are expected under a lock key.
- Memcached namespaces: records are keyed by `object_key` alone, as in the code. The lock name is not part of the key.
- `Configuration#locked_by_class` (`constantize` is reflection) and `adapter_options` (used only to build connections). The writer of the class name is not modelled either.
- Config.Configuration.ActsAsLockedBy: a `scope:` callable is modelled by the answer it gives, since its code belongs to the application.
- Locking.LockObject.constructor: Ruby includes one adapter when the class body runs (`include adapter`), so every LockObject, including those built outside the module façade, uses that adapter whatever the configuration says later. In the model the constructor reads no configuration: it is given a backend. Only `RailsSoftLock.SoftLock.LockManager` reads the configured adapter, on its first call, to choose that backend.
- Symbols are written as their names, so `Config.Configuration.SetAdapter("redis")` stands for `adapter = :redis`. In Ruby, `adapter = "redis"` (a String) raises ArgumentError because the valid adapters are Symbols; such calls are outside the model.
- Symbols aside, and a holder is nil, a boolean, an Integer or a String. Other Ruby objects are not modelled. `blank?` uses the Unicode White_Space characters.
- lib/rails_soft_lock/model_extensions.rb, redis_config.rb, memcached_config.rb, railtie.rb and the install task: ActiveRecord glue, Rails configuration files and file I/O.
