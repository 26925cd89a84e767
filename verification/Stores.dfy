/** The stores as objects: the tiered store, the pure cache and the key/value layer above them. Each method is
    proved against the value-level operation of Tiers or ColumnStore it performs. */
module Stores {
  import opened Base
  import opened HotIndex
  import opened Addressing
  import opened ColumnStore
  import opened Tiers

  const HOT_CAPACITY := 262144

  lemma HotCapacityIsPowerOfTwo()
    ensures IsPowerOfTwo(HOT_CAPACITY)
  {
    assert IsPowerOfTwo(16);
    assert IsPowerOfTwo(256);
    assert IsPowerOfTwo(4096);
    assert IsPowerOfTwo(65536);
  }

  /** The sending half of the background writer's bounded FIFO. */
  class UserWriter {
    const bound: nat
    var closed: bool
    var queue: seq<Command>

    constructor (bound: nat)
      ensures this.bound == bound && !closed && queue == []
    {
      this.bound := bound;
      closed := false;
      queue := [];
    }

    predicate HasRoom()
      reads this
    {
      !closed && |queue| < bound
    }

    method TrySend(c: Command) returns (accepted: bool)
      modifies this`queue
      ensures accepted == old(HasRoom()) == old(!closed && |queue| < bound)
      ensures queue == if accepted then old(queue) + [c] else old(queue)
    {
      accepted := !closed && |queue| < bound;
      if accepted {
        queue := queue + [c];
      }
    }
  }

  /** One snapshot of a partition. */
  datatype QuerySession = QuerySession(rows: Rows, entities: seq<U64>) {
    function GetBlob(id: U64): Option<Bytes> {
      if id in rows then rows[id].payload else None
    }

    function GetEpoch(id: U64): Option<U32> {
      if id in rows then rows[id].epoch else None
    }

    function GetType(id: U64): Option<U32> {
      if id in rows then rows[id].recordType else None
    }
  }

  /** A partition: its rows, an enumeration of its entities, and the log that produced them. */
  class Partition {
    var rows: Rows
    var entities: seq<U64>
    ghost var log: seq<Command>

    ghost predicate Valid()
      reads this
    {
      rows == Replay(log) && Enumerates(entities, rows)
    }

    constructor ()
      ensures Valid() && log == []
    {
      rows := map[];
      entities := [];
      log := [];
    }

    method Insert(c: Command)
      requires Valid()
      modifies this
      ensures Valid()
      ensures log == old(log) + [c] && rows == Execute(old(rows), c)
    {
      if c.entityId !in rows {
        entities := entities + [c.entityId];
      }
      rows := Execute(rows, c);
      log := log + [c];
      assert log[..|log| - 1] == old(log);
    }

    method OpenSession() returns (session: QuerySession)
      requires Valid()
      ensures session == QuerySession(rows, entities)
    {
      session := QuerySession(rows, entities);
    }
  }

  class TieredStore {
    const hashers: Hashers
    const hotIndex: GlobalHotIndex<CachedRecord>
    const writer: UserWriter
    const route: Partition
    var cacheHits: nat
    var cacheMisses: nat

    ghost predicate Valid()
      reads this, hotIndex, hotIndex.table, writer, route
    {
      && hotIndex.Valid()
      && hotIndex.mask + 1 == HOT_CAPACITY
      && route.Valid()
    }

    ghost function Cfg(): Config
      reads this, hotIndex, hotIndex.table, writer, route
      requires Valid()
    {
      Config(hashers, hotIndex.mask + 1, writer.bound)
    }

    ghost function View(): (tier: Tier)
      reads this, hotIndex, hotIndex.table, writer, route
      requires Valid()
      ensures Shaped(Cfg(), tier)
    {
      Tier(hotIndex.table[..], writer.queue, route.log, route.rows)
    }

    constructor (hashers: Hashers, writer: UserWriter, route: Partition)
      requires route.Valid() && writer.queue == []
      ensures Valid() && this.writer == writer && this.route == route && this.hashers == hashers
      ensures fresh(hotIndex) && fresh(hotIndex.table)
      ensures View() == Opened(Cfg(), route.log)
      ensures Cfg().capacity == 262144 && cacheHits == 0 && cacheMisses == 0
    {
      HotCapacityIsPowerOfTwo();
      this.hashers := hashers;
      this.writer := writer;
      this.route := route;
      this.hotIndex := new GlobalHotIndex<CachedRecord>(HOT_CAPACITY);
      cacheHits, cacheMisses := 0, 0;
      new;
      assert hotIndex.table[..] == seq(HOT_CAPACITY, _ => None);
    }

    method ApplySignedRecord(record: SignedRecord)
      requires Valid()
      modifies hotIndex`sets, hotIndex.table, writer`queue
      ensures Valid() && Cfg() == old(Cfg())
      ensures View() == ApplyRecord(Cfg(), old(View()), record, old(writer.HasRoom()))
      ensures |record.payload| < 32 ==> Read(Cfg(), View(), hashers.sha256(record.payload)) == Some(record)
      ensures |record.payload| >= 32 ==> Read(Cfg(), View(), record.payload[..32]) == Some(record)
    {
      var h: Hash32;
      if |record.payload| >= 32 {
        h := record.payload[..32];
      } else {
        h := hashers.sha256(record.payload);
      }
      var entityId := hashers.aHash(h);
      var cached := CachedRecord(record.epochId, record.recordType, record.judgeSignature, record.payload);
      hotIndex.Set(entityId, cached);
      var _ := writer.TrySend(InsertFast(entityId, record.epochId % TWO_32, record.recordType, record.payload));
    }

    method GetRecord(hash: Hash32) returns (record: Option<SignedRecord>)
      requires Valid()
      modifies this`cacheHits, this`cacheMisses
      ensures Valid() && Cfg() == old(Cfg()) && View() == old(View())
      ensures record == Read(Cfg(), View(), hash)
      ensures cacheHits + cacheMisses == old(cacheHits + cacheMisses) + 1
      ensures cacheMisses == old(cacheMisses) <==> SlotFilled(Cfg(), View(), EntityId(hashers, hash))
    {
      var entityId := hashers.aHash(hash);
      var cached := hotIndex.Get(entityId);
      if cached.Some? {
        cacheHits := cacheHits + 1;
        var c := cached.value;
        return Some(SignedRecord(c.epochId, c.payload, c.judgeSignature, c.recordType));
      }
      cacheMisses := cacheMisses + 1;
      var session := route.OpenSession();
      var payload := session.GetBlob(entityId);
      if payload.Some? {
        var epochId := session.GetEpoch(entityId).GetOr(0);
        var recordType := session.GetType(entityId).GetOr(0);
        record := Some(SignedRecord(epochId, payload.value, ZeroSignature(), recordType));
      } else {
        record := None;
      }
    }

    /** The records listed for an epoch are those of exactly the listed entities, in snapshot order. */
    method GetByEpoch(epochId: U64) returns (records: seq<SignedRecord>)
      requires Valid()
      ensures var ids := ListedIds(route.entities, route.rows, epochId);
              |records| == |ids| &&
              forall j :: 0 <= j < |ids| ==>
                ColdRecord(route.rows, ids[j]) == Some(records[j]) && records[j].epochId == epochId
    {
      records := [];
      var session := route.OpenSession();
      ghost var ids := [];
      for i := 0 to |session.entities|
        invariant ids == ListedIds(session.entities[..i], session.rows, epochId)
        invariant |records| == |ids|
        invariant forall j :: 0 <= j < |ids| ==>
                    ColdRecord(session.rows, ids[j]) == Some(records[j]) && records[j].epochId == epochId
      {
        var entityId := session.entities[i];
        ListedIdsStep(session.entities, session.rows, epochId, i);
        var epoch := session.GetEpoch(entityId);
        if epoch.Some? && epoch.value == epochId {
          var payload := session.GetBlob(entityId);
          if payload.Some? {
            var recordType := session.GetType(entityId).GetOr(0);
            records := records + [SignedRecord(epochId, payload.value, ZeroSignature(), recordType)];
            ids := ids + [entityId];
          }
        }
      }
      assert session.entities[..|session.entities|] == session.entities;
    }

    /** The background writer executes the oldest pending command. */
    method DrainPending()
      requires Valid() && writer.queue != []
      modifies writer`queue, route
      ensures Valid() && Cfg() == old(Cfg())
      ensures View() == DrainOne(old(View()))
    {
      var c := writer.queue[0];
      writer.queue := writer.queue[1..];
      route.Insert(c);
    }
  }

  class PureCacheStore {
    const hashers: Hashers
    const hotIndex: GlobalHotIndex<CachedRecord>
    const writer: UserWriter

    ghost predicate Valid()
      reads this, hotIndex, hotIndex.table
    {
      hotIndex.Valid() && hotIndex.mask + 1 == HOT_CAPACITY
    }

    ghost function Cfg(): Config
      reads this, hotIndex, hotIndex.table
      requires Valid()
    {
      Config(hashers, hotIndex.mask + 1, writer.bound)
    }

    constructor (hashers: Hashers, writer: UserWriter)
      ensures Valid() && this.writer == writer && this.hashers == hashers
      ensures fresh(hotIndex) && fresh(hotIndex.table)
      ensures hotIndex.table[..] == seq(262144, _ => None)
    {
      HotCapacityIsPowerOfTwo();
      this.hashers := hashers;
      this.writer := writer;
      this.hotIndex := new GlobalHotIndex<CachedRecord>(HOT_CAPACITY);
      new;
      assert hotIndex.table[..] == seq(HOT_CAPACITY, _ => None);
    }

    method ApplySignedRecord(record: SignedRecord)
      requires Valid()
      modifies hotIndex`sets, hotIndex.table, writer`queue
      ensures Valid() && Cfg() == old(Cfg())
      ensures hotIndex.table[..] == HotInsert(Cfg(), old(hotIndex.table[..]), record)
      ensures |record.payload| < 32 ==>
                HotLookup(Cfg(), hotIndex.table[..], hashers.sha256(record.payload)) == Some(record)
      ensures |record.payload| >= 32 ==> HotLookup(Cfg(), hotIndex.table[..], record.payload[..32]) == Some(record)
      ensures var c := InsertFast(IdOf(Cfg(), record), |record.payload| % TWO_32, 0, record.payload);
              writer.queue == old(writer.queue) + if old(writer.HasRoom()) then [c] else []
    {
      var h: Hash32;
      if |record.payload| >= 32 {
        h := record.payload[..32];
      } else {
        h := hashers.sha256(record.payload);
      }
      var entityId := hashers.aHash(h);
      var cached := CachedRecord(record.epochId, record.recordType, record.judgeSignature, record.payload);
      hotIndex.Set(entityId, cached);
      var _ := writer.TrySend(InsertFast(entityId, |record.payload| % TWO_32, 0, record.payload));
    }

    method GetRecord(hash: Hash32) returns (record: Option<SignedRecord>)
      requires Valid()
      ensures record == HotLookup(Cfg(), hotIndex.table[..], hash)
    {
      var cached := hotIndex.Get(hashers.aHash(hash));
      if cached.Some? {
        var c := cached.value;
        record := Some(SignedRecord(c.epochId, c.payload, c.judgeSignature, c.recordType));
      } else {
        record := None;
      }
    }

    method GetByEpoch(epochId: U64) returns (records: seq<SignedRecord>)
      ensures records == []
    {
      records := [];
    }
  }

  /** The key/value layer over a tiered store. */
  class L2Executor {
    static method Get(storage: TieredStore, key: Bytes) returns (val: Option<Bytes>)
      requires storage.Valid()
      modifies storage`cacheHits, storage`cacheMisses
      ensures storage.Valid() && storage.Cfg() == old(storage.Cfg()) && storage.View() == old(storage.View())
      ensures val == L2Get(storage.Cfg(), storage.View(), key)
    {
      var record := storage.GetRecord(storage.hashers.sha256(key));
      if record.Some? {
        var r := record.value;
        if r.recordType == 100 && |r.payload| >= 32 {
          val := Some(r.payload[32..]);
        } else {
          val := Some(r.payload);
        }
      } else {
        val := None;
      }
    }

    static method Put(storage: TieredStore, key: Bytes, val: Bytes)
      requires storage.Valid()
      modifies storage.hotIndex`sets, storage.hotIndex.table, storage.writer`queue
      ensures storage.Valid() && storage.Cfg() == old(storage.Cfg())
      ensures storage.View() ==
              L2Put(storage.Cfg(), old(storage.View()), key, val, old(storage.writer.HasRoom()))
      ensures L2Get(storage.Cfg(), storage.View(), key) == Some(val)
    {
      KvRoundTrip(storage.hashers, key, val);
      var payload: Bytes := [];
      payload := payload + storage.hashers.sha256(key);
      payload := payload + val;
      assert payload == KvRecord(storage.hashers, key, val).payload;
      storage.ApplySignedRecord(SignedRecord(0, payload, ZeroSignature(), 100));
    }
  }
}
