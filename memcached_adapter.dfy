/**
 * The Memcached adapter. Each lock is a record stored under the raw lock
 * key, holding the current holder and the previous one. Memcached cannot
 * list its keys, so the adapter also keeps the list of keys it has created
 * in one shared entry ("keys" in the "ConnectionInfo" namespace). Each
 * Memcached command is one atomic step; an adapter operation is a sequence
 * of them.
 */
module MemcachedAdapter {
  import opened Wrappers
  import opened RubyValues
  import opened KeyIndex

  /**
   * A value in the lock namespace: the Hash `{current:, previous:}` the
   * adapter writes, or any other object some other writer left there.
   */
  datatype Stored = Record(current: Option<string>, previous: Option<string>) | Opaque

  /** The two keys of a lock record, `:current` and `:previous`. */
  datatype RecordField = Current | Previous

  /**
   * What the adapter sees of the server: the lock records, keyed by the lock
   * key alone (the lock name is not part of the key), and the key index.
   */
  datatype Cache = Cache(records: map<string, Stored>, keyIndex: Option<seq<string>>)

  /** A new cache and the reply of one adapter operation. */
  datatype Step<T> = Step(cache: Cache, reply: T)

  /** What `value[:current]` raises when the stored value is not a Hash. */
  const NotAHash := TypeError("no implicit conversion of Symbol into Integer")

  /** `hash_value(field)`: the field of the stored Hash; nil when the key is missing or holds no Hash. */
  function HashValue(records: map<string, Stored>, key: string, field: RecordField): (r: Option<string>)
    ensures key !in records || records[key].Opaque? ==> r.None?
    ensures key in records && records[key].Record? && field.Current? ==> r == records[key].current
    ensures key in records && records[key].Record? && field.Previous? ==> r == records[key].previous
  {
    if key in records && records[key].Record? then
      match field
      case Current => records[key].current
      case Previous => records[key].previous
    else None
  }

  /** `get`: the current holder. */
  function Holder(records: map<string, Stored>, key: string): Option<string> {
    HashValue(records, key, Current)
  }

  /** `build_data`: a record whose holder is the requested value and whose previous holder is the current one. */
  function BuildData(records: map<string, Stored>, key: string, value: Option<string>): (d: Stored)
    ensures d.Record? && d.current == value && d.previous == Holder(records, key)
  {
    Record(value, Holder(records, key))
  }

  /** `updatable?`: the holder would change, or a previous holder is recorded. */
  predicate Updatable(records: map<string, Stored>, key: string, value: Option<string>): (b: bool)
    ensures Holder(records, key) != value ==> b
    ensures !b <==>
              || (key in records && records[key].Record? && records[key].current == value
                  && !PresentString(records[key].previous))
              || ((key !in records || records[key].Opaque?) && value.None?)
  {
    Holder(records, key) != value || PresentString(HashValue(records, key, Previous))
  }

  /**
   * Right after a winning `create`, `update` with the same holder is not
   * `updatable?`: it falls back to a losing `create`, answers false and
   * changes nothing.
   */
  lemma UpdateAfterCreate(c: Cache, key: string, value: Option<string>)
    requires key !in c.records
    ensures var s1 := CreateStep(c, key, value);
            var s2 := UpdateStep(s1.cache, key, value);
            s1.reply && !s2.reply && s2.cache == s1.cache
  {
    PromoteTwice(c.keyIndex, key);
  }

  /** On a key that holds no record, `updatable?` is true exactly when a holder is given. */
  lemma UpdatableWithoutRecord(records: map<string, Stored>, key: string, value: Option<string>)
    requires key !in records || records[key].Opaque?
    ensures Updatable(records, key, value) <==> value.Some?
  {
  }

  /** `get_multi(*keys)`: the keys that are stored, with their values. */
  function Found(records: map<string, Stored>, keys: seq<string>): (found: map<string, Stored>)
    ensures forall k :: k in found <==> k in keys && k in records
    ensures forall k :: k in found ==> found[k] == records[k]
  {
    map k | k in keys && k in records :: records[k]
  }

  /**
   * `create`: `add` writes the record only when the key is free, and the key
   * is then promoted to the front of the index whether or not `add` won.
   */
  function CreateStep(c: Cache, key: string, value: Option<string>): (s: Step<bool>)
    ensures s.reply <==> key !in c.records
    ensures s.cache.records == if s.reply then c.records[key := Record(value, None)] else c.records
    ensures s.cache.keyIndex == Some(Promote(c.keyIndex, key))
  {
    var added := key !in c.records;
    var records := if added then c.records[key := BuildData(c.records, key, value)] else c.records;
    Step(Cache(records, Some(Promote(c.keyIndex, key))), added)
  }

  /**
   * `update`: when `updatable?`, `set` overwrites the record, keeping the old
   * holder as the previous one, and leaves the index alone; otherwise it is `create`.
   */
  function UpdateStep(c: Cache, key: string, value: Option<string>): (s: Step<bool>)
    ensures Updatable(c.records, key, value) ==>
              s.reply && s.cache.keyIndex == c.keyIndex
              && s.cache.records == c.records[key := Record(value, Holder(c.records, key))]
    ensures !Updatable(c.records, key, value) ==> s == CreateStep(c, key, value)
  {
    if Updatable(c.records, key, value) then
      Step(Cache(c.records[key := BuildData(c.records, key, value)], c.keyIndex), true)
    else CreateStep(c, key, value)
  }

  /** `delete`: the key leaves the index (when there is one), then the record goes. */
  function DeleteStep(c: Cache, key: string): (s: Step<bool>)
    ensures s.reply <==> key in c.records
    ensures s.cache.records == c.records - {key}
    ensures s.cache.keyIndex.Some? <==> c.keyIndex.Some?
    ensures forall k :: k in Entries(s.cache.keyIndex) <==> k in Entries(c.keyIndex) && k != key
  {
    var index := if c.keyIndex.Some? then Some(Without(c.keyIndex.value, key)) else None;
    Step(Cache(c.records - {key}, index), key in c.records)
  }

  /**
   * `all`: the indexed keys that are still stored, with their current
   * holders. Stale index entries are skipped, unindexed records never
   * appear, and a stored value that is not a Hash raises.
   */
  function Listing(c: Cache): (r: Result<map<string, Option<string>>>)
    ensures r.Ok? <==> forall k :: k in Entries(c.keyIndex) && k in c.records ==> c.records[k].Record?
    ensures r.Raised? ==> r.error == NotAHash
    ensures r.Ok? ==> forall k :: k in r.value <==> k in Entries(c.keyIndex) && k in c.records
    ensures r.Ok? ==> forall k :: k in r.value ==> r.value[k] == Holder(c.records, k)
  {
    var found := Found(c.records, Entries(c.keyIndex));
    if exists k :: k in found && found[k].Opaque? then Raised(NotAHash)
    else Ok(map k | k in found :: found[k].current)
  }

  /** The Memcached server: the lock namespace and the ConnectionInfo entry "keys". */
  class MemcachedServer {
    var records: map<string, Stored>
    var keyIndex: Option<seq<string>>

    function State(): Cache
      reads this
    {
      Cache(records, keyIndex)
    }

    constructor ()
      ensures records == map[] && keyIndex == None
    {
      records := map[];
      keyIndex := None;
    }

    method Get(key: string) returns (data: Option<Stored>)
      ensures data == if key in records then Some(records[key]) else None
    {
      data := if key in records then Some(records[key]) else None;
    }

    /** `add`: stores only when the key is free; answers whether it stored. */
    method Add(key: string, data: Stored) returns (stored: bool)
      modifies this
      ensures stored <==> key !in old(records)
      ensures records == if stored then old(records)[key := data] else old(records)
      ensures keyIndex == old(keyIndex)
    {
      stored := key !in records;
      if stored {
        records := records[key := data];
      }
    }

    /** `set`: stores unconditionally. */
    method Set(key: string, data: Stored) returns (stored: bool)
      modifies this
      ensures stored
      ensures records == old(records)[key := data] && keyIndex == old(keyIndex)
    {
      records := records[key := data];
      stored := true;
    }

    /** `delete`: answers whether the key was stored. */
    method Delete(key: string) returns (deleted: bool)
      modifies this
      ensures deleted <==> key in old(records)
      ensures records == old(records) - {key} && keyIndex == old(keyIndex)
    {
      deleted := key in records;
      records := records - {key};
    }

    method GetMulti(keys: seq<string>) returns (found: map<string, Stored>)
      ensures found == Found(records, keys)
    {
      found := Found(records, keys);
    }

    /** `flush`, restricted to the lock records. */
    method Flush()
      modifies this
      ensures records == map[] && keyIndex == old(keyIndex)
    {
      records := map[];
    }

    /** `get("keys")` in the ConnectionInfo namespace. */
    method IndexGet() returns (keys: Option<seq<string>>)
      ensures keys == keyIndex
    {
      keys := keyIndex;
    }

    /** `add("keys", keys)` in the ConnectionInfo namespace. */
    method IndexAdd(keys: seq<string>) returns (stored: bool)
      modifies this
      ensures stored <==> old(keyIndex).None?
      ensures keyIndex == if stored then Some(keys) else old(keyIndex)
      ensures records == old(records)
    {
      stored := keyIndex.None?;
      if stored {
        keyIndex := Some(keys);
      }
    }

    /** `set("keys", keys)` in the ConnectionInfo namespace. */
    method IndexSet(keys: seq<string>)
      modifies this
      ensures keyIndex == Some(keys) && records == old(records)
    {
      keyIndex := Some(keys);
    }

    /** `replace("keys", keys)`: stores only when the entry exists. */
    method IndexReplace(keys: seq<string>) returns (stored: bool)
      modifies this
      ensures stored <==> old(keyIndex).Some?
      ensures keyIndex == if stored then Some(keys) else old(keyIndex)
      ensures records == old(records)
    {
      stored := keyIndex.Some?;
      if stored {
        keyIndex := Some(keys);
      }
    }
  }

  /** `get`: the current holder, nil for a missing key or a value that is not a lock record. */
  method Get(server: MemcachedServer, key: string) returns (holder: Option<string>)
    ensures holder.Some? ==> key in server.records && server.records[key].Record? && server.records[key].current == holder
    ensures holder == Holder(server.records, key)
  {
    var data := server.Get(key);
    holder := if data.Some? && data.value.Record? then data.value.current else None;
  }

  /** `update_used_keys(key)`: read the index, put the key first without duplicates, write it back. */
  method UpdateUsedKeys(server: MemcachedServer, key: string)
    modifies server
    ensures server.keyIndex == Some(Promote(old(server.keyIndex), key))
    ensures server.records == old(server.records)
  {
    var existing := server.IndexGet();
    var keys := Uniq([key] + Entries(existing));
    if existing.None? {
      var stored := server.IndexAdd(keys);
    } else {
      server.IndexSet(keys);
    }
  }

  /** `create`: true exactly when this call stored the record. */
  method Create(server: MemcachedServer, key: string, value: Option<string>) returns (created: bool)
    modifies server
    ensures Step(server.State(), created) == CreateStep(old(server.State()), key, value)
  {
    var data := BuildData(server.records, key, value);
    created := server.Add(key, data);
    UpdateUsedKeys(server, key);
  }

  /** `update`: overwrite when `updatable?`, otherwise `create`. */
  method Update(server: MemcachedServer, key: string, value: Option<string>) returns (updated: bool)
    modifies server
    ensures Step(server.State(), updated) == UpdateStep(old(server.State()), key, value)
  {
    if Updatable(server.records, key, value) {
      var data := BuildData(server.records, key, value);
      updated := server.Set(key, data);
    } else {
      updated := Create(server, key, value);
    }
  }

  /** `delete`: true exactly when a record was stored under the key. */
  method Delete(server: MemcachedServer, key: string) returns (deleted: bool)
    modifies server
    ensures Step(server.State(), deleted) == DeleteStep(old(server.State()), key)
  {
    var existing := server.IndexGet();
    if existing.Some? {
      var replaced := server.IndexReplace(Without(existing.value, key));
    }
    deleted := server.Delete(key);
  }

  /** `purge`: every lock record is gone, so `all` lists nothing. */
  method Purge(server: MemcachedServer)
    modifies server
    ensures server.records == map[] && server.keyIndex == old(server.keyIndex)
    ensures Listing(server.State()) == Ok(map[])
  {
    server.Flush();
  }

  /** `all`: `get_multi` over the indexed keys, then each found record mapped to its holder. */
  method All(server: MemcachedServer) returns (locks: Result<map<string, Option<string>>>)
    ensures locks == Listing(server.State())
  {
    var index := server.IndexGet();
    var found := server.GetMulti(Entries(index));
    var result: map<string, Option<string>> := map[];
    var pending := found.Keys;
    while pending != {}
      invariant pending <= found.Keys
      invariant result.Keys == found.Keys - pending
      invariant forall k :: k in result ==> found[k].Record? && result[k] == found[k].current
      decreases pending
    {
      var k :| k in pending;
      if found[k].Opaque? {
        assert Listing(server.State()).Raised?;
        return Raised(NotAHash);
      }
      result := result[k := found[k].current];
      pending := pending - {k};
    }
    assert result == map k | k in found :: found[k].current;
    locks := Ok(result);
  }

  /** Two creates on a free key: the first wins, the second loses, the first holder stays and the index does not change. */
  lemma CreateTwiceKeepsFirst(c: Cache, key: string, first: Option<string>, second: Option<string>)
    requires key !in c.records
    ensures var s1 := CreateStep(c, key, first);
            var s2 := CreateStep(s1.cache, key, second);
            s1.reply && !s2.reply && Holder(s2.cache.records, key) == first
            && s2.cache.keyIndex == s1.cache.keyIndex
  {
    PromoteTwice(c.keyIndex, key);
  }

  /** After `update`, `get` answers the requested holder, whichever path `update` took. */
  lemma UpdateThenGet(c: Cache, key: string, value: Option<string>)
    ensures Holder(UpdateStep(c, key, value).cache.records, key) == value
  {
  }

  /** `update` answers false only when it fell back to `create` on a key that is already stored. */
  lemma UpdateReply(c: Cache, key: string, value: Option<string>)
    ensures !UpdateStep(c, key, value).reply <==> key in c.records && !Updatable(c.records, key, value)
  {
  }

  /** After `delete`, `get` answers nil and the key is no longer indexed. */
  lemma DeleteThenGet(c: Cache, key: string)
    ensures var s := DeleteStep(c, key);
            Holder(s.cache.records, key).None? && key !in Entries(s.cache.keyIndex)
  {
  }

  /** Every stored key is indexed, so `all` cannot miss a stored lock. */
  ghost predicate Covered(c: Cache) {
    forall k :: k in c.records ==> k in Entries(c.keyIndex)
  }

  /** `create` and `delete` keep every stored key indexed. */
  lemma CreateDeleteKeepCovered(c: Cache, key: string, value: Option<string>)
    requires Covered(c)
    ensures Covered(CreateStep(c, key, value).cache)
    ensures Covered(DeleteStep(c, key).cache)
  {
  }

  /**
   * `update` of a key that was never created takes the `set` path: it answers
   * true and stores a record that the index does not list, so `all` omits it.
   */
  lemma UpdateOfAbsentKeyIsUnlisted(c: Cache, key: string, value: string)
    requires key !in c.records && key !in Entries(c.keyIndex)
    ensures var s := UpdateStep(c, key, Some(value));
            s.reply && Holder(s.cache.records, key) == Some(value)
            && !Covered(s.cache)
            && (Listing(s.cache).Ok? ==> key !in Listing(s.cache).value)
  {
  }

  ghost predicate OnlyRecords(records: map<string, Stored>) {
    forall k :: k in records ==> records[k].Record?
  }

  /** Each stored key with its current holder. */
  function Holders(records: map<string, Stored>): map<string, Option<string>>
    requires OnlyRecords(records)
  {
    map k | k in records :: records[k].current
  }

  /** When every stored key is indexed and holds a record, `all` lists exactly the stored locks. */
  lemma ListingOfCovered(c: Cache)
    requires Covered(c) && OnlyRecords(c.records)
    ensures Listing(c) == Ok(Holders(c.records))
  {
    var r := Listing(c);
    assert r.Ok?;
    assert forall k :: k in r.value <==> k in c.records;
    assert r.value == Holders(c.records);
  }

  /** `purge` leaves `all` empty, whatever the index still lists. */
  lemma ListingAfterPurge(c: Cache)
    ensures Listing(Cache(map[], c.keyIndex)) == Ok(map[])
  {
  }

  /** The cache after one `create` per entry, in order. */
  function CreateAll(c: Cache, entries: seq<(string, Option<string>)>): Cache
    decreases |entries|
  {
    if entries == [] then c
    else CreateAll(CreateStep(c, entries[0].0, entries[0].1).cache, entries[1..])
  }

  /** The keys of the entries, in order. */
  function KeysOf(entries: seq<(string, Option<string>)>): (ks: seq<string>)
    ensures |ks| == |entries|
    ensures forall i :: 0 <= i < |entries| ==> ks[i] == entries[i].0
  {
    seq(|entries|, i requires 0 <= i < |entries| => entries[i].0)
  }

  /** The entries as a Hash from key to holder. */
  function EntriesMap(entries: seq<(string, Option<string>)>): (m: map<string, Option<string>>)
    ensures forall k :: k in m <==> k in KeysOf(entries)
  {
    if entries == [] then map[]
    else
      assert KeysOf(entries) == [entries[0].0] + KeysOf(entries[1..]);
      EntriesMap(entries[1..])[entries[0].0 := entries[0].1]
  }

  /** One winning `create` keeps the cache covered and adds its holder. */
  lemma CreateStepHolders(c: Cache, key: string, value: Option<string>)
    requires Covered(c) && OnlyRecords(c.records) && key !in c.records
    ensures var next := CreateStep(c, key, value).cache;
            Covered(next) && OnlyRecords(next.records)
            && Holders(next.records) == Holders(c.records)[key := value]
  {
    var records := c.records[key := Record(value, None)];
    assert CreateStep(c, key, value).cache == Cache(records, Some(Promote(c.keyIndex, key)));
    CreateDeleteKeepCovered(c, key, value);
    HoldersAfterInsert(c.records, key, value);
  }

  /** Storing a new record adds its holder to the stored holders. */
  lemma HoldersAfterInsert(records: map<string, Stored>, key: string, value: Option<string>)
    requires OnlyRecords(records) && key !in records
    ensures OnlyRecords(records[key := Record(value, None)])
    ensures Holders(records[key := Record(value, None)]) == Holders(records)[key := value]
  {
    var h := Holders(records[key := Record(value, None)]);
    assert h.Keys == Holders(records)[key := value].Keys;
  }

  lemma UnionAfterUpdate(m: map<string, Option<string>>, e: map<string, Option<string>>, key: string, value: Option<string>)
    requires key !in e
    ensures m[key := value] + e == m + e[key := value]
  {
  }

  lemma {:induction false} CreateAllHolders(c: Cache, entries: seq<(string, Option<string>)>)
    requires Covered(c) && OnlyRecords(c.records) && NoDuplicates(KeysOf(entries))
    requires forall k :: k in KeysOf(entries) ==> k !in c.records
    ensures var d := CreateAll(c, entries);
            Covered(d) && OnlyRecords(d.records)
            && Holders(d.records) == Holders(c.records) + EntriesMap(entries)
    decreases |entries|
  {
    if entries != [] {
      var key, value := entries[0].0, entries[0].1;
      var rest := entries[1..];
      assert KeysOf(entries) == [key] + KeysOf(rest);
      assert key in KeysOf(entries);
      assert key !in KeysOf(rest);
      CreateStepHolders(c, key, value);
      var next := CreateStep(c, key, value).cache;
      assert CreateAll(c, entries) == CreateAll(next, rest);
      assert NoDuplicates(KeysOf(rest));
      forall k | k in KeysOf(rest) ensures k !in next.records {
        assert k in KeysOf(entries);
      }
      CreateAllHolders(next, rest);
      assert key !in EntriesMap(rest);
      assert EntriesMap(entries) == EntriesMap(rest)[key := value];
      UnionAfterUpdate(Holders(c.records), EntriesMap(rest), key, value);
    }
  }

  /**
   * Round trip: starting from an empty cache, `all` after one `create` per
   * distinct key lists exactly those keys with their holders.
   */
  lemma ListingAfterCreates(entries: seq<(string, Option<string>)>)
    requires NoDuplicates(KeysOf(entries))
    ensures Listing(CreateAll(Cache(map[], None), entries)) == Ok(EntriesMap(entries))
  {
    var empty := Cache(map[], None);
    CreateAllHolders(empty, entries);
    ListingOfCovered(CreateAll(empty, entries));
    assert Holders(empty.records) + EntriesMap(entries) == EntriesMap(entries);
  }
}
