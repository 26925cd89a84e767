/** The two-tier store as a value: hot table, pending commands, executed log and the rows it produced.
    Every storage operation is one or two of the atomic steps defined here. */
module Tiers {
  import opened Base
  import opened HotIndex
  import opened Addressing
  import opened ColumnStore

  datatype Config = Config(hashers: Hashers, capacity: Capacity, bound: nat)

  /** The configuration of a process that drew `seed` for its AHash. */
  function Seeded(cfg: Config, seed: nat): Config {
    Config(Hashers(cfg.hashers.sha256, cfg.hashers.keyedHash, seed), cfg.capacity, cfg.bound)
  }

  datatype Tier = Tier(
    hot: seq<Option<CachedRecord>>,
    queue: seq<Command>,
    log: seq<Command>,
    rows: Rows)

  function IdOf(cfg: Config, r: SignedRecord): U64 {
    EntityId(cfg.hashers, AddressOf(cfg.hashers, r.payload))
  }

  function SlotOf(cfg: Config, id: U64): (p: nat)
    ensures p < cfg.capacity
  {
    Slot(id, cfg.capacity)
  }

  /** The command a tiered apply sends; `epoch_id as u32` keeps the low 32 bits. */
  function CommandOf(cfg: Config, r: SignedRecord): Command {
    InsertFast(IdOf(cfg, r), r.epochId % TWO_32, r.recordType, r.payload)
  }

  predicate Shaped(cfg: Config, tier: Tier) {
    |tier.hot| == cfg.capacity
  }

  /** A store whose hot table and queue are empty, over a partition replayed from `log`. */
  function Opened(cfg: Config, log: seq<Command>): (tier: Tier)
    ensures Shaped(cfg, tier)
  {
    Tier(seq(cfg.capacity, _ => None), [], log, Replay(log))
  }

  // --- The hot table, shared by both stores ---

  function HotInsert(cfg: Config, hot: seq<Option<CachedRecord>>, r: SignedRecord): (t: seq<Option<CachedRecord>>)
    requires |hot| == cfg.capacity
    ensures |t| == cfg.capacity
  {
    hot[SlotOf(cfg, IdOf(cfg, r)) := Some(Cache(r))]
  }

  function HotLookup(cfg: Config, hot: seq<Option<CachedRecord>>, h: Hash32): Option<SignedRecord>
    requires |hot| == cfg.capacity
  {
    match hot[SlotOf(cfg, EntityId(cfg.hashers, h))]
    case None => None
    case Some(c) => Some(Uncache(c))
  }

  // --- Atomic steps ---

  function StoreHot(cfg: Config, tier: Tier, r: SignedRecord): (t: Tier)
    requires Shaped(cfg, tier)
    ensures Shaped(cfg, t)
  {
    tier.(hot := HotInsert(cfg, tier.hot, r))
  }

  /** `try_send`: enqueue, or refuse and leave the queue as it is. */
  function TrySend(tier: Tier, c: Command, accepted: bool): Tier {
    if accepted then tier.(queue := tier.queue + [c]) else tier
  }

  function DrainOne(tier: Tier): Tier
    requires tier.queue != []
  {
    var c := tier.queue[0];
    tier.(queue := tier.queue[1..], log := tier.log + [c], rows := Execute(tier.rows, c))
  }

  // --- Whole operations, run without interference ---

  function ApplyRecord(cfg: Config, tier: Tier, r: SignedRecord, accepted: bool): (t: Tier)
    requires Shaped(cfg, tier)
    ensures Shaped(cfg, t)
  {
    TrySend(StoreHot(cfg, tier, r), CommandOf(cfg, r), accepted)
  }

  /** `get_record`: the slot's record, whoever stored it, or the cold record of the exact entity. */
  function Read(cfg: Config, tier: Tier, h: Hash32): Option<SignedRecord>
    requires Shaped(cfg, tier)
  {
    var hit := HotLookup(cfg, tier.hot, h);
    if hit.Some? then hit else ColdRecord(tier.rows, EntityId(cfg.hashers, h))
  }

  // --- Invariant ---

  predicate SlotFilled(cfg: Config, tier: Tier, id: U64)
    requires Shaped(cfg, tier)
  {
    tier.hot[SlotOf(cfg, id)].Some?
  }

  /** What every step keeps. The commands before `base` were replayed at start-up; every later one, drained or
      still queued, belongs to an entity whose slot is filled. */
  ghost predicate TierInv(cfg: Config, tier: Tier, base: nat) {
    && Shaped(cfg, tier)
    && base <= |tier.log|
    && tier.rows == Replay(tier.log)
    && (forall i :: base <= i < |tier.log| ==> SlotFilled(cfg, tier, tier.log[i].entityId))
    && (forall i :: 0 <= i < |tier.queue| ==> SlotFilled(cfg, tier, tier.queue[i].entityId))
    && (forall p :: 0 <= p < |tier.hot| && tier.hot[p].Some? ==>
          SlotOf(cfg, IdOf(cfg, Uncache(tier.hot[p].value))) == p)
  }

  lemma OpenedInv(cfg: Config, log: seq<Command>)
    ensures TierInv(cfg, Opened(cfg, log), |log|)
  {
  }

  lemma StoreKeepsInv(cfg: Config, tier: Tier, base: nat, r: SignedRecord)
    requires TierInv(cfg, tier, base)
    ensures TierInv(cfg, StoreHot(cfg, tier, r), base)
  {
  }

  lemma SendKeepsInv(cfg: Config, tier: Tier, base: nat, c: Command, accepted: bool)
    requires TierInv(cfg, tier, base) && SlotFilled(cfg, tier, c.entityId)
    ensures TierInv(cfg, TrySend(tier, c, accepted), base)
  {
  }

  lemma DrainKeepsInv(cfg: Config, tier: Tier, base: nat)
    requires TierInv(cfg, tier, base) && tier.queue != []
    ensures TierInv(cfg, DrainOne(tier), base)
  {
    var t := DrainOne(tier);
    assert t.log[..|t.log| - 1] == tier.log;
    forall i | 0 <= i < |t.queue|
      ensures SlotFilled(cfg, t, t.queue[i].entityId)
    {
      assert t.queue[i] == tier.queue[i + 1];
    }
    forall i | base <= i < |t.log|
      ensures SlotFilled(cfg, t, t.log[i].entityId)
    {
      assert i == |tier.log| || t.log[i] == tier.log[i];
    }
  }

  // --- Record round trip ---

  /** Apply then read returns the record unchanged, whether or not the send was refused: at the digest of a payload
      shorter than 32 bytes, and at the first 32 bytes of any other. */
  lemma ApplyThenRead(cfg: Config, tier: Tier, r: SignedRecord, accepted: bool)
    requires Shaped(cfg, tier)
    ensures var t := ApplyRecord(cfg, tier, r, accepted);
            && (|r.payload| < 32 ==> Read(cfg, t, cfg.hashers.sha256(r.payload)) == Some(r))
            && (|r.payload| >= 32 ==> Read(cfg, t, r.payload[..32]) == Some(r))
            && Read(cfg, t, AddressOf(cfg.hashers, r.payload)) == Some(r)
  {
  }

  /** The same for a store that is only a hot table. */
  lemma InsertThenLookup(cfg: Config, hot: seq<Option<CachedRecord>>, r: SignedRecord)
    requires |hot| == cfg.capacity
    ensures var t := HotInsert(cfg, hot, r);
            && (|r.payload| < 32 ==> HotLookup(cfg, t, cfg.hashers.sha256(r.payload)) == Some(r))
            && (|r.payload| >= 32 ==> HotLookup(cfg, t, r.payload[..32]) == Some(r))
  {
  }

  /** What an accepted apply appends to the queue: the id is the keyed hash of the address, the epoch loses its high
      half, type and payload go through as they are. */
  lemma SentCommand(cfg: Config, tier: Tier, r: SignedRecord)
    requires Shaped(cfg, tier)
    ensures var h: Hash32 := if |r.payload| < 32 then cfg.hashers.sha256(r.payload) else r.payload[..32];
            ApplyRecord(cfg, tier, r, true).queue ==
            tier.queue + [InsertFast(cfg.hashers.keyedHash(cfg.hashers.seed, h), r.epochId % 0x1_0000_0000,
                                     r.recordType, r.payload)]
  {
  }

  /** The cold row written for a record reads back as the record with its epoch truncated and signature zeroed. */
  lemma ExecutedRecord(cfg: Config, r: SignedRecord, rows: Rows)
    ensures ColdRecord(Execute(rows, CommandOf(cfg, r)), IdOf(cfg, r)) == Some(Coldify(r))
    ensures RowRecord(RowOf(CommandOf(cfg, r))) == Some(Coldify(r))
  {
  }

  /** The cold form of a record, spelled out. */
  lemma ColdForm(cfg: Config, r: SignedRecord, rows: Rows)
    ensures var v := ColdRecord(Execute(rows, CommandOf(cfg, r)), IdOf(cfg, r));
            && v.Some? && v.value.epochId == r.epochId % 0x1_0000_0000
            && v.value.payload == r.payload && v.value.recordType == r.recordType
            && forall i :: 0 <= i < 64 ==> v.value.judgeSignature[i] == 0
  {
  }

  /** Draining is invisible to reads. */
  lemma DrainIsInvisible(cfg: Config, tier: Tier, base: nat, h: Hash32)
    requires TierInv(cfg, tier, base) && tier.queue != []
    ensures Read(cfg, DrainOne(tier), h) == Read(cfg, tier, h)
  {
    assert SlotFilled(cfg, tier, tier.queue[0].entityId);
  }

  // --- Key/value view ---

  /** No two of these keys share a slot. */
  ghost predicate SlotsDistinct(cfg: Config, keys: set<Bytes>) {
    forall k1, k2 :: k1 in keys && k2 in keys && KeySlot(cfg, k1) == KeySlot(cfg, k2) ==> k1 == k2
  }

  function KeyId(cfg: Config, key: Bytes): U64 {
    EntityId(cfg.hashers, cfg.hashers.sha256(key))
  }

  function KeySlot(cfg: Config, key: Bytes): nat {
    SlotOf(cfg, KeyId(cfg, key))
  }

  /** `L2Executor::get`. */
  function L2Get(cfg: Config, tier: Tier, key: Bytes): Option<Bytes>
    requires Shaped(cfg, tier)
  {
    match Read(cfg, tier, cfg.hashers.sha256(key))
    case None => None
    case Some(r) => Some(Decode(r))
  }

  /** `L2Executor::put` up to the broadcast. */
  function L2Put(cfg: Config, tier: Tier, key: Bytes, val: Bytes, accepted: bool): (t: Tier)
    requires Shaped(cfg, tier)
    ensures Shaped(cfg, t)
  {
    ApplyRecord(cfg, tier, KvRecord(cfg.hashers, key, val), accepted)
  }

  /** What a get answers after any record was applied, put or not: at a key equal to a short payload the payload, at a
      key whose digest is the head of a longer one the tail if the type is 100 and else the payload. */
  lemma GetAfterApply(cfg: Config, tier: Tier, r: SignedRecord, accepted: bool, key: Bytes)
    requires Shaped(cfg, tier)
    ensures var got := L2Get(cfg, ApplyRecord(cfg, tier, r, accepted), key);
            && (|r.payload| < 32 && key == r.payload ==> got == Some(r.payload))
            && (|r.payload| >= 32 && r.payload[..32] == cfg.hashers.sha256(key) ==>
                  got == Some(if r.recordType == 100 then r.payload[32..] else r.payload))
  {
  }

  /** The record a read finds after a put, and the command the put sends, spelled out. */
  lemma PutThenRead(cfg: Config, tier: Tier, key: Bytes, val: Bytes)
    requires Shaped(cfg, tier)
    ensures var h: Bytes := cfg.hashers.sha256(key);
            var found := Read(cfg, L2Put(cfg, tier, key, val, false), cfg.hashers.sha256(key));
            && found.Some? && found.value.epochId == 0 && found.value.recordType == 100
            && found.value.payload == h + val
            && (forall i :: 0 <= i < 64 ==> found.value.judgeSignature[i] == 0)
            && L2Put(cfg, tier, key, val, false).queue == tier.queue
            && (var id := cfg.hashers.keyedHash(cfg.hashers.seed, cfg.hashers.sha256(key));
                L2Put(cfg, tier, key, val, true).queue == tier.queue + [InsertFast(id, 0, 100, h + val)])
            && Read(cfg, L2Put(cfg, tier, key, val, true), cfg.hashers.sha256(key)) == found
  {
    KvRoundTrip(cfg.hashers, key, val);
  }

  /** The plain map a store over `keys` stands for. */
  function KvMap(cfg: Config, keys: set<Bytes>, tier: Tier): map<Bytes, Bytes>
    requires Shaped(cfg, tier)
  {
    map k | k in keys && L2Get(cfg, tier, k).Some? :: L2Get(cfg, tier, k).value
  }

  /** The map a process recovers from the log it replays. */
  function Recovered(cfg: Config, keys: set<Bytes>, log: seq<Command>): map<Bytes, Bytes> {
    map k | k in keys && ColdRecord(Replay(log), KeyId(cfg, k)).Some? ::
      Decode(ColdRecord(Replay(log), KeyId(cfg, k)).value)
  }

  lemma OpenedIsRecovered(cfg: Config, keys: set<Bytes>, log: seq<Command>)
    ensures KvMap(cfg, keys, Opened(cfg, log)) == Recovered(cfg, keys, log)
  {
  }

  /** The record is addressed to `key`. */
  predicate Owns(cfg: Config, key: Bytes, r: SignedRecord) {
    AddressOf(cfg.hashers, r.payload) == cfg.hashers.sha256(key)
  }

  /** A last-write-wins register taking a record: the keys it is addressed to change, no other key does. */
  function RegisterUpdate(cfg: Config, keys: set<Bytes>, reg: map<Bytes, Bytes>, r: SignedRecord): map<Bytes, Bytes> {
    map k | k in keys && (k in reg || Owns(cfg, k, r)) :: if Owns(cfg, k, r) then Decode(r) else reg[k]
  }

  /** A key that shares a slot with the record owns it. */
  predicate Apart(cfg: Config, keys: set<Bytes>, r: SignedRecord) {
    forall k :: k in keys && SlotOf(cfg, IdOf(cfg, r)) == KeySlot(cfg, k) ==> Owns(cfg, k, r)
  }

  lemma DistinctSlotsKeepApart(cfg: Config, keys: set<Bytes>, key: Bytes, val: Bytes)
    requires SlotsDistinct(cfg, keys) && key in keys
    ensures Apart(cfg, keys, KvRecord(cfg.hashers, key, val))
  {
    KvRoundTrip(cfg.hashers, key, val);
  }

  /** Storing any record, put or not, is a register update when no key merely shares its slot. */
  lemma StoreIsRegisterUpdate(cfg: Config, keys: set<Bytes>, tier: Tier, r: SignedRecord)
    requires Shaped(cfg, tier) && Apart(cfg, keys, r)
    ensures KvMap(cfg, keys, StoreHot(cfg, tier, r)) == RegisterUpdate(cfg, keys, KvMap(cfg, keys, tier), r)
  {
    var t := StoreHot(cfg, tier, r);
    forall k | k in keys
      ensures L2Get(cfg, t, k) == if Owns(cfg, k, r) then Some(Decode(r)) else L2Get(cfg, tier, k)
    {
      if Owns(cfg, k, r) {
        assert SlotOf(cfg, IdOf(cfg, r)) == KeySlot(cfg, k);
      } else {
        assert SlotOf(cfg, IdOf(cfg, r)) != KeySlot(cfg, k);
      }
    }
  }

  /** A put updates the register at its key and nowhere else. */
  lemma PutUpdatesRegister(cfg: Config, keys: set<Bytes>, reg: map<Bytes, Bytes>, key: Bytes, val: Bytes)
    requires SlotsDistinct(cfg, keys) && key in keys && reg.Keys <= keys
    ensures RegisterUpdate(cfg, keys, reg, KvRecord(cfg.hashers, key, val)) == reg[key := val]
  {
    KvRoundTrip(cfg.hashers, key, val);
    forall k | k in keys && Owns(cfg, k, KvRecord(cfg.hashers, key, val))
      ensures k == key
    {
      assert KeySlot(cfg, k) == KeySlot(cfg, key);
    }
  }

  /** Storing a key/value record is exactly a map update, when the keys have distinct slots. */
  lemma StoreIsMapUpdate(cfg: Config, keys: set<Bytes>, tier: Tier, key: Bytes, val: Bytes)
    requires Shaped(cfg, tier) && SlotsDistinct(cfg, keys) && key in keys
    ensures KvMap(cfg, keys, StoreHot(cfg, tier, KvRecord(cfg.hashers, key, val))) ==
            KvMap(cfg, keys, tier)[key := val]
  {
    DistinctSlotsKeepApart(cfg, keys, key, val);
    StoreIsRegisterUpdate(cfg, keys, tier, KvRecord(cfg.hashers, key, val));
    PutUpdatesRegister(cfg, keys, KvMap(cfg, keys, tier), key, val);
  }

  lemma SendKeepsMap(cfg: Config, keys: set<Bytes>, tier: Tier, c: Command, accepted: bool)
    requires Shaped(cfg, tier)
    ensures KvMap(cfg, keys, TrySend(tier, c, accepted)) == KvMap(cfg, keys, tier)
  {
  }

  lemma DrainKeepsMap(cfg: Config, keys: set<Bytes>, tier: Tier, base: nat)
    requires TierInv(cfg, tier, base) && tier.queue != []
    ensures KvMap(cfg, keys, DrainOne(tier)) == KvMap(cfg, keys, tier)
  {
    forall k | k in keys
      ensures L2Get(cfg, DrainOne(tier), k) == L2Get(cfg, tier, k)
    {
      DrainIsInvisible(cfg, tier, base, cfg.hashers.sha256(k));
    }
  }

  /** Put is last-write-wins on the plain map, whether or not the background queue takes the command. */
  lemma PutIsMapUpdate(cfg: Config, keys: set<Bytes>, tier: Tier, key: Bytes, val: Bytes, accepted: bool)
    requires Shaped(cfg, tier) && SlotsDistinct(cfg, keys) && key in keys
    ensures KvMap(cfg, keys, L2Put(cfg, tier, key, val, accepted)) == KvMap(cfg, keys, tier)[key := val]
  {
    var r := KvRecord(cfg.hashers, key, val);
    StoreIsMapUpdate(cfg, keys, tier, key, val);
    SendKeepsMap(cfg, keys, StoreHot(cfg, tier, r), CommandOf(cfg, r), accepted);
  }

  /** Distinct slots cannot be dropped: with two keys in one slot, a put under either is read back under both. */
  lemma CollisionReturnsForeignValue(cfg: Config, tier: Tier, k1: Bytes, k2: Bytes, val: Bytes, accepted: bool)
    requires Shaped(cfg, tier)
    ensures L2Get(cfg, L2Put(cfg, tier, k1, val, accepted), k2) ==
            (if KeySlot(cfg, k1) == KeySlot(cfg, k2) then Some(val) else L2Get(cfg, tier, k2))
  {
    KvRoundTrip(cfg.hashers, k1, val);
  }
}
