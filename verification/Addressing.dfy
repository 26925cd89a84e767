/** How records and keys are mapped to entity ids, and the key/value encoding over records. */
module Addressing {
  import opened Base

  const KV_TYPE: U32 := 100

  /** The 32-byte address of a payload: its own head, or its digest when it is shorter. */
  function AddressOf(hs: Hashers, payload: Bytes): Hash32 {
    if |payload| >= 32 then payload[..32] else hs.sha256(payload)
  }

  function EntityId(hs: Hashers, address: Hash32): U64 {
    hs.aHash(address)
  }

  /** The record `L2Executor::put` builds. */
  function KvRecord(hs: Hashers, key: Bytes, val: Bytes): SignedRecord {
    SignedRecord(0, hs.sha256(key) + val, ZeroSignature(), KV_TYPE)
  }

  /** What `L2Executor::get` makes of a stored record. */
  function Decode(r: SignedRecord): Bytes {
    if r.recordType == KV_TYPE && |r.payload| >= 32 then r.payload[32..] else r.payload
  }

  /** Put and get agree on the entity, and decoding undoes encoding, for every key and value. */
  lemma KvRoundTrip(hs: Hashers, key: Bytes, val: Bytes)
    ensures AddressOf(hs, KvRecord(hs, key, val).payload) == hs.sha256(key)
    ensures Decode(KvRecord(hs, key, val)) == val
  {
    var d: Bytes := hs.sha256(key);
    assert (d + val)[..32] == d;
    assert (d + val)[32..] == val;
  }
}
