/** A bitmap over an array of words, proved to be a set of positions. */
module BitMap {
  import opened Bits

  /** The least position below `n` that is not in the set, or -1. */
  function FirstFree(s: set<nat>, n: nat): (r: int)
    ensures -1 <= r < n
    ensures r >= 0 ==> r !in s
    ensures forall p: nat :: p < (if r < 0 then n else r) ==> p in s
  {
    LeastFree(s, n, 0)
  }

  function LeastFree(s: set<nat>, n: nat, i: nat): (r: int)
    requires i <= n && forall p: nat :: p < i ==> p in s
    ensures -1 <= r < n
    ensures r >= 0 ==> r !in s
    ensures forall p: nat :: p < (if r < 0 then n else r) ==> p in s
    decreases n - i
  {
    if i == n then -1 else if i !in s then i else LeastFree(s, n, i + 1)
  }

  lemma FirstFreeUnique(s: set<nat>, n: nat, r: int)
    requires -1 <= r < n && (r >= 0 ==> r !in s) && forall p: nat :: p < (if r < 0 then n else r) ==> p in s
    ensures r == FirstFree(s, n)
  {}

  class BitMap {
    const n: nat
    const bits: array<Word>

    ghost predicate Valid()
      reads this
    {
      n % WIDTH == 0 && bits.Length == n / WIDTH
    }

    predicate Has(pos: nat)
      requires Valid() && pos < n
      reads this, bits
    {
      Bit(bits[pos / WIDTH], pos % WIDTH)
    }

    /** The positions that are set. */
    ghost function Contents(): (r: set<nat>)
      requires Valid()
      reads this, bits
      ensures forall p: nat :: p in r <==> p < n && Has(p)
    {
      set p: nat | p < n && Has(p)
    }

    constructor (n: nat)
      requires n % WIDTH == 0
      ensures Valid() && this.n == n && fresh(bits) && Contents() == {}
    {
      this.n := n;
      bits := new Word[n / WIDTH](_ => 0);
      new;
      forall p: nat | p < n ensures !Has(p) { ZeroBit(p % WIDTH); }
    }

    method Get(pos: nat) returns (r: bool)
      requires Valid() && pos < n
      ensures r <==> pos in Contents()
    {
      r := Bit(bits[pos / WIDTH], pos % WIDTH);
    }

    method Set(pos: nat)
      requires Valid() && pos < n
      modifies bits
      ensures Contents() == old(Contents()) + {pos}
    {
      ghost var before := Contents();
      var i := pos / WIDTH;
      bits[i] := SetBit(bits[i], pos % WIDTH);
      forall p: nat | p < n ensures Has(p) <==> p == pos || p in before {
        if p / WIDTH == i { SetBitAt(old(bits[i]), pos % WIDTH, p % WIDTH); }
      }
    }

    method Clear(pos: nat)
      requires Valid() && pos < n
      modifies bits
      ensures Contents() == old(Contents()) - {pos}
    {
      ghost var before := Contents();
      var i := pos / WIDTH;
      bits[i] := ClearBit(bits[i], pos % WIDTH);
      forall p: nat | p < n ensures Has(p) <==> p != pos && p in before {
        if p / WIDTH == i { ClearBitAt(old(bits[i]), pos % WIDTH, p % WIDTH); }
      }
    }

    method ClearAll()
      requires Valid()
      modifies bits
      ensures Contents() == {}
    {
      for i := 0 to bits.Length
        invariant forall k: nat :: k < i ==> bits[k] == 0
      {
        bits[i] := 0;
      }
      forall p: nat | p < n ensures !Has(p) { ZeroBit(p % WIDTH); }
    }

    method NumberOfOnes() returns (r: nat)
      requires Valid()
      ensures r == |Contents()|
    {
      r := 0;
      ghost var seen: set<nat> := {};
      for i := 0 to n
        invariant r == |seen| && forall p: nat :: p in seen <==> p < i && p in Contents()
      {
        var b := Get(i);
        if b {
          seen := seen + {i};
          r := r + 1;
        }
      }
      assert seen == Contents();
    }

    /** The word scan: the first word with a clear bit has the least free position. */
    method FirstZeroPos() returns (r: int)
      requires Valid()
      ensures r == FirstFree(Contents(), n)
    {
      for i := 0 to n / WIDTH
        invariant forall p: nat :: p < i * WIDTH ==> Has(p)
      {
        var pos := FirstClear(bits[i]);
        WordFull(i, pos);
        if pos >= 0 {
          r := i * WIDTH + pos;
          FirstFreeUnique(Contents(), n, r);
          return;
        }
      }
      FirstFreeUnique(Contents(), n, -1);
      return -1;
    }

    lemma WordFull(i: nat, pos: int)
      requires Valid() && i < n / WIDTH && pos == FirstClear(bits[i])
      ensures i * WIDTH + WIDTH <= n
      ensures pos >= 0 ==> !Has(i * WIDTH + pos)
      ensures forall p: nat :: i * WIDTH <= p < i * WIDTH + (if pos < 0 then WIDTH else pos) ==> Has(p)
    {
      forall p: nat | i * WIDTH <= p < i * WIDTH + WIDTH ensures p / WIDTH == i && p % WIDTH == p - i * WIDTH {}
    }

    /** Claim the least free position, or return -1 if there is none. */
    method SetZeroPos() returns (r: int)
      requires Valid()
      modifies bits
      ensures r == FirstFree(old(Contents()), n)
      ensures Contents() == if r < 0 then old(Contents()) else old(Contents()) + {r}
    {
      for i := 0 to n / WIDTH
        invariant Contents() == old(Contents())
        invariant forall p: nat :: p < i * WIDTH ==> Has(p)
      {
        var pos := FirstClear(bits[i]);
        WordFull(i, pos);
        if pos >= 0 {
          r := i * WIDTH + pos;
          FirstFreeUnique(Contents(), n, r);
          assert r / WIDTH == i && r % WIDTH == pos;
          Set(r);
          return;
        }
      }
      FirstFreeUnique(Contents(), n, -1);
      return -1;
    }
  }
}
