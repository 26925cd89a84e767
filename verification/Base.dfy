/** Machine integers, byte strings and the records the stores exchange. */
module Base {

  datatype Option<+T> = None | Some(value: T) {
    function GetOr(default: T): T {
      match this
      case None => default
      case Some(v) => v
    }
  }

  const TWO_32 := 0x1_0000_0000

  type Byte = b: int | 0 <= b < 256
  type U32 = n: int | 0 <= n < TWO_32
  type U64 = n: int | 0 <= n < 0x1_0000_0000_0000_0000
  type Bytes = seq<Byte>
  type Hash32 = h: Bytes | |h| == 32 witness seq(32, _ => 0)
  type Signature = s: Bytes | |s| == 64 witness seq(64, _ => 0)

  function ZeroSignature(): Signature {
    seq(64, _ => 0)
  }

  /** A record as the consensus layer hands it over. */
  datatype SignedRecord = SignedRecord(
    epochId: U64,
    payload: Bytes,
    judgeSignature: Signature,
    recordType: U32)

  /** A record as the hot index keeps it. */
  datatype CachedRecord = CachedRecord(
    epochId: U64,
    recordType: U32,
    judgeSignature: Signature,
    payload: Bytes)

  function Cache(r: SignedRecord): CachedRecord {
    CachedRecord(r.epochId, r.recordType, r.judgeSignature, r.payload)
  }

  function Uncache(c: CachedRecord): SignedRecord {
    SignedRecord(c.epochId, c.payload, c.judgeSignature, c.recordType)
  }

  /** The two hash functions, left uninterpreted. SHA-256 is the same in every process; AHash is keyed with a seed
      that each process draws once, when it first needs it. */
  datatype Hashers = Hashers(sha256: Bytes -> Hash32, keyedHash: (nat, Hash32) -> U64, seed: nat) {
    function aHash(h: Hash32): U64 {
      keyedHash(seed, h)
    }
  }

  /** The bytes of an ASCII literal. */
  function Ascii(s: string): Bytes
    requires forall i :: 0 <= i < |s| ==> s[i] < 128 as char
  {
    seq(|s|, i requires 0 <= i < |s| => s[i] as int)
  }
}
