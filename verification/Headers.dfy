/**
  A chunk of the pool as an object: its header with the word bitmap, and the count kept
  beside it. The pool works on chunk values; step for step, the word bitmap is the set
  that it computes with.
 */
module Headers {
  import opened Options
  import opened Layout
  import opened BitMap
  import opened Chunks
  import opened Pool

  class Header {
    var used: bool
    var slab: nat
    var nr: nat
    var bitmap: BitMap
    var count: nat

    /** The chunk as the pool sees it. */
    ghost function Value(): Chunk
      reads this, bitmap, bitmap.bits
      requires bitmap.Valid()
    {
      Chunk(used, slab, nr, if used then bitmap.Contents() else {}, count)
    }

    ghost predicate Valid()
      reads this, bitmap, bitmap.bits
    {
      bitmap.Valid() && (used ==> bitmap.n == nr) && Value().Valid()
    }

    /** A chunk that has not been given an entry size. */
    constructor ()
      ensures Valid() && fresh(bitmap) && fresh(bitmap.bits) && Value() == Chunk(false, 0, 0, {}, 0)
    {
      used, slab, nr, count := false, 0, 0, 0;
      bitmap := new BitMap(0);
    }

    /**
      Give the chunk an entry size; this fails if not even 64 entries fit. The number of
      entries follows from the size.
     */
    method Use(size: nat) returns (ok: bool)
      requires Valid() && size > 0
      modifies this
      ensures ok <==> size <= 32767
      ensures ok ==> Valid() && fresh(bitmap) && fresh(bitmap.bits)
      ensures ok ==> forall n: nat :: IsEntryNum(size, n) <==> Value() == Chunk(true, size, n, {}, 0)
    {
      var n := EntryNum(size);
      RoomForOne(size, n);
      ok := n > 0;
      if !ok {
        return;
      }
      forall m: nat | IsEntryNum(size, m) ensures m == n { EntryNumUnique(size, m, n); }
      slab, nr, count := size, n, 0;
      bitmap := new BitMap(n);
      bitmap.ClearAll();
      used := true;
    }

    /** The entries of chunk `c` begin behind its headers, of 16 and 8 bytes, and the words of its bitmap. */
    lemma EntriesAreClear(c: nat, i: nat)
      requires Valid() && used && i < nr
      ensures c * 2097152 + 16 + 8 + 8 * bitmap.bits.Length <= Entry(c, slab, nr, i)
      ensures Entry(c, slab, nr, i) + slab <= (c + 1) * 2097152
    {
      EntryInside(c, slab, nr, i);
    }

    /** Claim the first free entry; there is none exactly if the chunk is full. */
    method Malloc() returns (r: Option<nat>)
      requires Valid() && used
      modifies this`count, bitmap.bits
      ensures r.None? <==> old(Value()).Full()
      ensures r.None? ==> Value() == old(Value())
      ensures r.Some? ==> r.value == FirstFree(old(Value()).live, nr)
      ensures r.Some? ==> Valid()
      ensures r.Some? ==> Value() == Claimed(old(Value()))
    {
      FullAgrees(Value());
      var i := bitmap.SetZeroPos();
      if i < 0 {
        return None;
      }
      count := count + 1;
      return Some(i);
    }

    /** Give an entry back. */
    method Free(i: nat)
      requires Valid() && used && i in Value().live
      modifies this`count, bitmap.bits
      ensures Valid() && Value() == Released(old(Value()), i)
    {
      count := count - 1;
      bitmap.Clear(i);
    }

    /** Count the entries again after the program was restarted. */
    method Recover()
      requires bitmap.Valid() && used && bitmap.n == nr && Value().Sound()
      modifies this`count
      ensures Valid() && Value() == old(Value()).(count := |old(Value()).live|)
    {
      count := bitmap.NumberOfOnes();
    }
  }

  // ---- In step with the pool ----

  /** Giving a chunk an entry size. */
  method UseInStep(pool: PersistMemoryPool, h: Header, slab: nat) returns (ok: bool, c: nat)
    requires pool.Valid() && slab in pool.sizes && pool.free != [] && (pool.perfect || slab >= 8) && slab > 0
    requires h.Valid() && pool.free[0] < |pool.chunks| && h.Value() == pool.chunks[pool.free[0]]
    modifies pool, h
    ensures ok <==> slab <= 32767
    ensures ok ==> pool.Valid() && h.Valid() && c < |pool.chunks| && h.Value() == pool.chunks[c]
  {
    ok, c := pool.Use(slab);
    var again := h.Use(slab);
  }

  /** Claiming an entry: the word scan and the pool choose the same one. */
  method MallocInStep(pool: PersistMemoryPool, h: Header, c: nat) returns (b: Block, id: Option<nat>)
    requires pool.Valid() && c < |pool.chunks| && pool.chunks[c].used && !pool.chunks[c].Full()
    requires h.Valid() && h.Value() == pool.chunks[c]
    modifies pool`chunks, pool`total, h`count, h.bitmap.bits
    ensures pool.Valid() && h.Valid() && c < |pool.chunks| && h.Value() == pool.chunks[c]
    ensures b.chunk == c && id == Some(b.id)
  {
    b := pool.Malloc(c);
    id := h.Malloc();
  }

  /** Giving an entry back. */
  method FreeInStep(pool: PersistMemoryPool, h: Header, off: nat, b: Block)
    requires pool.Valid() && b in pool.Now().Blocks() && off == pool.Now().Data(b)
    requires h.Valid() && h.Value() == pool.chunks[b.chunk]
    modifies pool`chunks, pool`total, h`count, h.bitmap.bits
    ensures pool.Valid() && h.Valid() && b.chunk < |pool.chunks| && h.Value() == pool.chunks[b.chunk]
  {
    h.Free(b.id);
    var ok := pool.Free(off, b);
  }
}
