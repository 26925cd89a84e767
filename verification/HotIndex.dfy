/** The direct-mapped hot index: a power-of-two table addressed by hash & (capacity - 1). */
module HotIndex {
  import opened Base

  predicate IsPowerOfTwo(n: nat) {
    n == 1 || (n > 1 && n % 2 == 0 && IsPowerOfTwo(n / 2))
  }

  type Capacity = n: nat | 0 < n && IsPowerOfTwo(n) witness 1

  /** Bitwise conjunction of two naturals, least significant bit first. */
  function BitAnd(a: nat, b: nat): nat
    decreases a
  {
    if a == 0 || b == 0 then 0
    else (if a % 2 == 1 && b % 2 == 1 then 1 else 0) + 2 * BitAnd(a / 2, b / 2)
  }

  lemma MultipleLeavesRange(d: nat, k: int)
    ensures k >= 1 ==> d * k >= d
    ensures k <= -1 ==> d * k + d <= 0
  {
    if k >= 1 {
      assert d * k == d * (k - 1) + d;
    } else if k <= -1 {
      assert d * k == d * (k + 1) - d;
    }
  }

  lemma Distribute(d: nat, x: int, y: int)
    ensures d * (x - y) == d * x - d * y
  {
  }

  lemma ModUnique(x: int, d: nat, q: int, r: nat)
    requires r < d && x == d * q + r
    ensures x % d == r
  {
    var q', r' := x / d, x % d;
    Distribute(d, q, q');
    MultipleLeavesRange(d, q - q');
  }

  /** The remainder of a difference, from the remainders. */
  lemma ModOfDifference(a: int, b: int, d: nat)
    requires d > 0
    ensures (a - b) % d == if a % d >= b % d then a % d - b % d else a % d - b % d + d
  {
    var q, r := a / d - b / d, a % d - b % d;
    Distribute(d, a / d, b / d);
    if r >= 0 {
      ModUnique(a - b, d, q, r);
    } else {
      Distribute(d, q, 1);
      ModUnique(a - b, d, q - 1, r + d);
    }
  }

  lemma ModByDouble(h: nat, half: nat)
    requires half > 0
    ensures h % (2 * half) == h % 2 + 2 * ((h / 2) % half)
  {
    var q, r := (h / 2) / half, (h / 2) % half;
    assert h == (2 * half) * q + (h % 2 + 2 * r) by {
      assert h / 2 == half * q + r;
      assert (2 * half) * q == 2 * (half * q);
    }
    ModUnique(h, 2 * half, q, h % 2 + 2 * r);
  }

  /** Masking with capacity - 1 is reduction modulo a power-of-two capacity. */
  lemma {:induction false} MaskIsMod(h: nat, capacity: Capacity)
    ensures BitAnd(h, capacity - 1) == h % capacity
    decreases capacity
  {
    if capacity > 1 {
      assert IsPowerOfTwo(capacity);
      MaskIsMod(h / 2, capacity / 2);
      ModByDouble(h, capacity / 2);
      assert (capacity - 1) / 2 == capacity / 2 - 1;
    }
  }

  /** The table position of a hash: hash & mask with mask = capacity - 1. */
  function Slot(hash: U64, capacity: Capacity): (i: nat)
    ensures i < capacity
  {
    MaskIsMod(hash, capacity);
    BitAnd(hash, capacity - 1)
  }

  /** Two hashes share a slot exactly when they are congruent modulo the capacity. */
  lemma AliasIffCongruent(a: U64, b: U64, capacity: Capacity)
    ensures Slot(a, capacity) == Slot(b, capacity) <==> (a - b) % capacity == 0
  {
    MaskIsMod(a, capacity);
    MaskIsMod(b, capacity);
    ModOfDifference(a, b, capacity);
  }

  /** What a table of the given capacity holds for `hash` after a sequence of sets:
      the last record whose hash is congruent to `hash`. */
  function LastCongruent<T>(sets: seq<(U64, T)>, hash: U64, capacity: Capacity): Option<T> {
    if sets == [] then None
    else
      var (h, x) := sets[|sets| - 1];
      if (h - hash) % capacity == 0 then Some(x)
      else LastCongruent(sets[..|sets| - 1], hash, capacity)
  }

  /** The table after a sequence of sets. */
  function Table<T>(sets: seq<(U64, T)>, capacity: Capacity): (t: seq<Option<T>>)
    ensures |t| == capacity
  {
    if sets == [] then seq(capacity, _ => None)
    else
      var (h, x) := sets[|sets| - 1];
      Table(sets[..|sets| - 1], capacity)[Slot(h, capacity) := Some(x)]
  }

  /** After any sequence of sets, a get returns the last set in its residue class. */
  lemma {:induction false} GetIsLastCongruent<T>(sets: seq<(U64, T)>, hash: U64, capacity: Capacity)
    ensures Table(sets, capacity)[Slot(hash, capacity)] == LastCongruent(sets, hash, capacity)
  {
    if sets != [] {
      GetIsLastCongruent(sets[..|sets| - 1], hash, capacity);
      AliasIffCongruent(sets[|sets| - 1].0, hash, capacity);
    }
  }

  class GlobalHotIndex<T> {
    const table: array<Option<T>>
    const mask: nat
    ghost var sets: seq<(U64, T)>

    ghost predicate Valid()
      reads this, table
    {
      && IsPowerOfTwo(mask + 1)
      && table.Length == mask + 1
      && table[..] == Table(sets, mask + 1)
    }

    constructor (capacity: nat)
      requires IsPowerOfTwo(capacity)
      ensures Valid() && fresh(table)
      ensures table.Length == capacity && sets == []
      ensures forall i :: 0 <= i < capacity ==> table[i] == None
    {
      var t := new Option<T>[capacity];
      for i := 0 to capacity
        invariant forall j :: 0 <= j < i ==> t[j] == None
      {
        t[i] := None;
      }
      table := t;
      mask := capacity - 1;
      sets := [];
      new;
      assert table[..] == seq(capacity, _ => None);
    }

    method Get(hash: U64) returns (found: Option<T>)
      requires Valid()
      ensures found == LastCongruent(sets, hash, mask + 1)
      ensures found == table[Slot(hash, mask + 1)]
    {
      MaskIsMod(hash, mask + 1);
      GetIsLastCongruent(sets, hash, mask + 1);
      found := table[BitAnd(hash, mask)];
    }

    method Set(hash: U64, record: T)
      requires Valid()
      modifies this`sets, table
      ensures Valid()
      ensures sets == old(sets) + [(hash, record)]
      ensures table[..] == old(table[..])[Slot(hash, mask + 1) := Some(record)]
    {
      MaskIsMod(hash, mask + 1);
      table[BitAnd(hash, mask)] := Some(record);
      sets := sets + [(hash, record)];
      assert sets[..|sets| - 1] == old(sets);
    }
  }
}
