/** Ring-slot arithmetic of the bounded queue: power-of-two capacities and `position & mask`. */
module SlotMask {

  ghost predicate IsPowerOfTwo(n: nat) {
    n == 1 || (n > 1 && n % 2 == 0 && IsPowerOfTwo(n / 2))
  }

  /** Bitwise conjunction of two naturals. */
  function BitAnd(a: nat, b: nat): (r: nat)
    ensures r <= a && r <= b
  {
    if a == 0 || b == 0 then 0
    else (if a % 2 == 1 && b % 2 == 1 then 1 else 0) + 2 * BitAnd(a / 2, b / 2)
  }

  /** The cell that serves ticket `position` in a queue of `capacity` cells. */
  function Slot(position: nat, capacity: nat): (slot: nat)
    requires capacity > 0
    ensures slot < capacity
  {
    BitAnd(position, capacity - 1)
  }

  /** Doubles from 1 until the requested capacity is reached. */
  method NormalizeCapacity(capacity: nat) returns (normalized: nat)
    ensures IsPowerOfTwo(normalized) && capacity <= normalized
    ensures forall n: nat :: IsPowerOfTwo(n) && capacity <= n ==> normalized <= n
    ensures normalized >= 2 <==> capacity >= 2
  {
    normalized := 1;
    while normalized < capacity
      invariant IsPowerOfTwo(normalized)
      invariant normalized == 1 || normalized / 2 < capacity
      decreases capacity - normalized
    {
      normalized := normalized * 2;
    }
    forall n: nat | IsPowerOfTwo(n) && capacity <= n
      ensures normalized <= n
    {
      if n < normalized { PowersDoubleApart(n, normalized); }
    }
  }

  lemma {:induction false} PowersDoubleApart(a: nat, b: nat)
    requires IsPowerOfTwo(a) && IsPowerOfTwo(b) && a < b
    ensures 2 * a <= b
  {
    if a > 1 { PowersDoubleApart(a / 2, b / 2); }
  }

  /** Masking with a doubled capacity keeps the low bit and masks the other bits with the single one. */
  lemma SlotHalves(k: nat, half: nat)
    requires half > 0
    ensures Slot(k, 2 * half) == k % 2 + 2 * Slot(k / 2, half)
  {
    assert (2 * half - 1) / 2 == half - 1 && (2 * half - 1) % 2 == 1;
  }

  /** The first lap visits the cells in order. */
  lemma {:induction false} SlotFirstLap(k: nat, capacity: nat)
    requires IsPowerOfTwo(capacity) && k < capacity
    ensures Slot(k, capacity) == k
  {
    if capacity > 1 {
      SlotHalves(k, capacity / 2);
      SlotFirstLap(k / 2, capacity / 2);
    }
  }

  /** A lap later the same cell comes round again. */
  lemma {:induction false} SlotLap(k: nat, capacity: nat)
    requires IsPowerOfTwo(capacity)
    ensures Slot(k + capacity, capacity) == Slot(k, capacity)
  {
    if capacity > 1 {
      SlotHalves(k, capacity / 2);
      SlotHalves(k + capacity, capacity / 2);
      SlotLap(k / 2, capacity / 2);
      assert (k + capacity) / 2 == k / 2 + capacity / 2;
    }
  }

  /** Two tickets that share a cell are at least a lap apart. */
  lemma {:induction false} SlotSeparation(j: nat, k: nat, capacity: nat)
    requires IsPowerOfTwo(capacity) && j < k && Slot(j, capacity) == Slot(k, capacity)
    ensures j + capacity <= k
  {
    if capacity > 1 {
      SlotHalves(j, capacity / 2);
      SlotHalves(k, capacity / 2);
      SlotSeparation(j / 2, k / 2, capacity / 2);
    }
  }
}
