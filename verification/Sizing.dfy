/** How many chunks a table of a given capacity has. */
module Sizing {
  import opened Probe
  import opened Table

  /** `r` is the least power of two that is at least `size`. */
  ghost predicate IsLeastPow2(size: nat, r: nat) {
    IsPow2(r) && size <= r && forall p: nat :: IsPow2(p) && size <= p ==> r <= p
  }

  lemma {:induction false} Pow2Doubles(p: nat, q: nat)
    requires IsPow2(p) && IsPow2(q) && p < q
    ensures 2 * p <= q
  {
    if p > 1 { Pow2Doubles(p / 2, q / 2); }
  }

  /** Beyond 2^63 the 64-bit loop variable would be shifted out to 0 and the loop would not end. */
  method Next2Power(size: nat) returns (r: nat)
    requires size <= 0x8000_0000_0000_0000
    ensures IsLeastPow2(size, r)
  {
    r := 1;
    while r < size
      invariant IsPow2(r) && forall p: nat :: IsPow2(p) && size <= p ==> r <= p
      decreases size - r
    {
      forall p: nat | IsPow2(p) && size <= p ensures 2 * r <= p { Pow2Doubles(r, p); }
      r := 2 * r;
    }
  }

  /** `n` chunks are what a table for `capacity` items is given. */
  ghost predicate IsChunkNum(capacity: nat, n: nat) {
    IsLeastPow2((capacity + LANES - 1) / LANES, n)
  }

  method OverFallChunkNum(capacity: nat) returns (n: nat)
    requires capacity <= 14 * 0x8000_0000_0000_0000
    ensures IsChunkNum(capacity, n)
    ensures IsPow2(n) && capacity <= 14 * n && (n > 1 ==> 14 * (n / 2) < capacity)
  {
    n := Next2Power((capacity + LANES - 1) / LANES);
    if n > 1 {
      assert IsPow2(n / 2);
      assert n / 2 < (capacity + 13) / 14;
    }
  }

  /** A table's own capacity asks for exactly as many chunks as it has. */
  lemma CapacityRoundTrip(capacity: nat, n: nat, m: nat)
    requires IsChunkNum(capacity, n)
    ensures IsChunkNum(n * LANES, m) <==> m == n
  {
    assert (n * LANES + LANES - 1) / LANES == n;
    if IsChunkNum(n * LANES, m) { assert m <= n; }
  }

  const HEADER_BYTES: nat := 64

  ghost predicate IsMemorySize(capacity: nat, chunkBytes: nat, bytes: nat) {
    exists n: nat :: IsChunkNum(capacity, n) && bytes == HEADER_BYTES + n * chunkBytes
  }

  method MemorySize(capacity: nat, chunkBytes: nat) returns (bytes: nat)
    requires capacity <= 14 * 0x8000_0000_0000_0000
    ensures IsMemorySize(capacity, chunkBytes, bytes)
  {
    var n := OverFallChunkNum(capacity);
    bytes := HEADER_BYTES + n * chunkBytes;
  }

  /** A table occupies the memory its own capacity calls for: the check on reopening succeeds. */
  lemma MemoryRoundTrip(capacity: nat, n: nat, chunkBytes: nat, bytes: nat)
    requires IsChunkNum(capacity, n)
    ensures IsMemorySize(n * LANES, chunkBytes, bytes) <==> bytes == HEADER_BYTES + n * chunkBytes
  {
    CapacityRoundTrip(capacity, n, n);
    if IsMemorySize(n * LANES, chunkBytes, bytes) {
      var m: nat :| IsChunkNum(n * LANES, m) && bytes == HEADER_BYTES + m * chunkBytes;
      CapacityRoundTrip(capacity, n, m);
    }
  }
}
