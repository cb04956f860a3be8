/** The allocator as its users see it: a map from live blocks to their offsets and one to their values. */
module Malloc {
  import opened Options
  import opened Seals
  import opened Layout
  import opened Chunks
  import opened Images
  import opened Pool

  /** `data` and `value` describe the live blocks of `img`. */
  ghost predicate Describes(img: Image, data: map<Block, nat>, value: map<Block, seq<Byte>>) {
    && data.Keys == value.Keys
    && (forall b :: b in data <==> b in img.Blocks())
    && (forall b :: b in data ==> data[b] == img.Data(b) && value[b] == img.Value(b) && |value[b]| == img.SizeOf(b))
  }

  ghost predicate Mirrors(img: Image, data: map<Block, nat>, value: map<Block, seq<Byte>>) {
    forall n: nat {:trigger MirrorSeal(n)} :: MirrorSeal(n) ==> Describes(img, data, value)
  }

  lemma MirrorAt(img: Image, data: map<Block, nat>, value: map<Block, seq<Byte>>, b: Block)
    requires Mirrors(img, data, value)
    ensures b in data <==> b in img.Blocks()
    ensures b in data ==> b in value && data[b] == img.Data(b) && value[b] == img.Value(b)
    ensures b in data ==> |value[b]| == img.SizeOf(b)
  {
    assert MirrorSeal(0);
  }

  lemma MirrorAdd(img: Image, data: map<Block, nat>, value: map<Block, seq<Byte>>, img': Image, b: Block)
    requires Mirrors(img, data, value) && b !in img.Blocks() && img'.Blocks() == img.Blocks() + {b}
             && Kept(img, img', img.Blocks())
    requires |img'.Value(b)| == img'.SizeOf(b)
    ensures Mirrors(img', data[b := img'.Data(b)], value[b := img'.Value(b)])
  {
    assert MirrorSeal(0);
    forall a | a in img.Blocks()
      ensures img'.Data(a) == img.Data(a) && img'.Value(a) == img.Value(a) && img'.SizeOf(a) == img.SizeOf(a)
    {
      KeptValue(img, img', img.Blocks(), a);
    }
  }

  lemma MirrorDrop(img: Image, data: map<Block, nat>, value: map<Block, seq<Byte>>, img': Image, b: Block)
    requires Mirrors(img, data, value) && img'.Blocks() == img.Blocks() - {b} && Kept(img, img', img'.Blocks())
    ensures Mirrors(img', data - {b}, value - {b})
  {
    assert MirrorSeal(0);
    forall a | a in img'.Blocks()
      ensures img'.Data(a) == img.Data(a) && img'.Value(a) == img.Value(a) && img'.SizeOf(a) == img.SizeOf(a)
    {
      KeptValue(img, img', img'.Blocks(), a);
    }
  }

  /** Images with the same live blocks in the same places, holding the same, have the same mirror. */
  lemma MirrorSame(img: Image, data: map<Block, nat>, value: map<Block, seq<Byte>>, img': Image)
    requires Mirrors(img, data, value) && img'.Blocks() == img.Blocks() && Kept(img, img', img.Blocks())
    ensures Mirrors(img', data, value)
  {
    assert MirrorSeal(0);
    forall a | a in img.Blocks()
      ensures img'.Data(a) == img.Data(a) && img'.Value(a) == img.Value(a) && img'.SizeOf(a) == img.SizeOf(a)
    {
      KeptValue(img, img', img.Blocks(), a);
    }
  }

  lemma EmptyMirror(img: Image)
    requires img.Blocks() == {}
    ensures Mirrors(img, map[], map[])
  {}

  lemma MirrorSize(img: Image, data: map<Block, nat>, value: map<Block, seq<Byte>>)
    requires Mirrors(img, data, value)
    ensures |data| == Tally(img.chunks)
  {
    assert MirrorSeal(0);
    assert data.Keys == img.Blocks();
    TallyIsSize(img.chunks);
  }

  class MallocApi {
    const pool: PersistMemoryPool
    /** The offset and the value of each live block. */
    ghost var data: map<Block, nat>
    ghost var value: map<Block, seq<Byte>>

    ghost predicate Intact()
      reads this, pool
    {
      pool.Valid() && Mirrors(pool.Now(), data, value)
    }

    ghost predicate Valid()
      reads this, pool
    {
      forall n: nat {:trigger MallocSeal(n)} :: MallocSeal(n) ==> Intact()
    }

    constructor (pool: PersistMemoryPool, ghost data: map<Block, nat>, ghost value: map<Block, seq<Byte>>)
      requires pool.Valid() && Mirrors(pool.Now(), data, value)
      ensures Valid() && this.pool == pool && this.data == data && this.value == value
    {
      this.pool, this.data, this.value := pool, data, value;
    }

    lemma Count()
      requires Valid()
      ensures pool.total == |data|
    {
      assert MallocSeal(0);
      MirrorSize(pool.Now(), data, value);
    }

    lemma SameKeys()
      requires Valid()
      ensures data.Keys == value.Keys
    {
      assert MallocSeal(0);
      assert MirrorSeal(0);
    }

    /** If all blocks fit perfectly and have one size, that is the length of every value. */
    lemma KnownSize(b: Block, known: nat)
      requires Valid() && b in data && pool.perfect && pool.sizes == [known]
      ensures b in value && |value[b]| == known
    {
      assert MallocSeal(0);
      MirrorAt(pool.Now(), data, value, b);
      SlabListed(pool.chunks, pool.sizes, pool.free, pool.classes, b);
      pool.Now().InRegion(b);
    }

    /** The offset has room for a prefix before it and a byte after it, and is aligned if the entry sizes are. */
    ghost predicate Placed(off: nat)
      reads pool
    {
      && off < |pool.region| && |pool.region| % 8 == 0
      && ((forall s :: s in pool.sizes ==> s % 8 == 0) ==> off % 8 == 0)
    }

    /** Allocate a block and copy a value into it. */
    method Put(log: seq<Byte>) returns (r: Option<nat>, ghost b: Block)
      requires Valid() && |log| < 0x8000_0000
      requires !pool.perfect ==> forall s :: s in pool.sizes ==> s > 8
      modifies this, pool
      ensures r.None? <==> old(pool.NoRoom(|log|))
      ensures r.Some? ==> Valid() && b !in old(data) && data == old(data)[b := r.value] && value == old(value)[b := log]
      ensures r.Some? ==> Placed(r.value) && |pool.region| == |old(pool.region)|
    {
      assert MallocSeal(0);
      ghost var m := pool.Now();
      r, b := PutValue(pool, log);
      if r.Some? {
        MirrorAt(m, data, value, b);
        MirrorAdd(m, data, value, pool.Now(), b);
        data, value := data[b := r.value], value[b := log];
      }
    }

    /** Give a block back. */
    method Free(off: nat, ghost b: Block) returns (ok: bool)
      requires Valid() && b in data && off == data[b]
      modifies this, pool`chunks, pool`total
      ensures ok && Valid() && data == old(data) - {b} && value == old(value) - {b}
    {
      assert MallocSeal(0);
      ghost var m := pool.Now();
      MirrorAt(m, data, value, b);
      ok := pool.Free(off, b);
      MirrorDrop(m, data, value, pool.Now(), b);
      data, value := data - {b}, value - {b};
    }

    /** The length of a block's value. */
    method GetMallocSize(off: nat, ghost b: Block) returns (size: nat)
      requires Valid() && b in data && off == data[b]
      ensures b in value && size == |value[b]|
    {
      assert MallocSeal(0);
      MirrorAt(pool.Now(), data, value, b);
      size := pool.GetMallocSize(off, b);
    }

    /** The bytes at a block's offset. */
    method GetMallocData(off: nat, size: nat, ghost b: Block) returns (bytes: seq<Byte>)
      requires Valid() && b in data && off == data[b] && b in value && size == |value[b]|
      ensures bytes == value[b]
    {
      assert MallocSeal(0);
      MirrorAt(pool.Now(), data, value, b);
      ReadsValue(pool.Now(), b);
      bytes := Read(pool.region, off, size);
    }
  }

  /** Reading as many bytes at a block's offset as its length says gives its value. */
  lemma ReadsValue(img: Image, b: Block)
    requires img.Sound() && b in img.Blocks() && |img.Value(b)| == img.SizeOf(b)
    ensures img.Data(b) + img.SizeOf(b) <= |img.region| && Read(img.region, img.Data(b), img.SizeOf(b)) == img.Value(b)
  {
    img.InRegion(b);
  }

  /** Allocate a block of the pool and copy a value into it. */
  method PutValue(pool: PersistMemoryPool, log: seq<Byte>) returns (r: Option<nat>, ghost b: Block)
    requires pool.Valid() && |log| < 0x8000_0000
    requires !pool.perfect ==> forall s :: s in pool.sizes ==> s > 8
    modifies pool
    ensures r.None? <==> old(pool.NoRoom(|log|))
    ensures r.Some? ==> pool.Valid() && b !in old(pool.Now()).Blocks()
    ensures r.Some? ==> pool.Now().Blocks() == old(pool.Now()).Blocks() + {b}
    ensures r.Some? ==> Kept(old(pool.Now()), pool.Now(), old(pool.Now()).Blocks())
    ensures r.Some? ==> |pool.region| == |old(pool.region)|
    ensures r.Some? ==> r.value == pool.Now().Data(b) && pool.Now().Value(b) == log && pool.Now().SizeOf(b) == |log|
    ensures r.Some? ==> r.value < |pool.region| && |pool.region| % 8 == 0
    ensures r.Some? ==> ((forall s :: s in pool.sizes ==> s % 8 == 0) ==> r.value % 8 == 0)
  {
    ghost var m := pool.Now();
    r, b := pool.New(|log|);
    if r.None? {
      return;
    }
    ghost var m1 := pool.Now();
    pool.Store(r.value, log, b);
    KeptTrans(m, m1, pool.Now(), m.Blocks(), m.Blocks());
    SlabListed(pool.chunks, pool.sizes, pool.free, pool.classes, b);
    WellPlaced(pool.Now(), pool.sizes, b);
  }

  lemma SlabListed(chunks: seq<Chunk>, sizes: seq<nat>, free: seq<nat>, classes: map<nat, seq<nat>>, b: Block)
    requires Listed(chunks, sizes, free, classes) && b in Live(chunks)
    ensures Slab(chunks, b) in sizes
  {}

  lemma WellPlaced(img: Image, sizes: seq<nat>, b: Block)
    requires img.Sound() && b in img.Blocks() && Slab(img.chunks, b) in sizes
             && (!img.perfect ==> forall s :: s in sizes ==> s > 8)
    ensures img.Data(b) < |img.region| && |img.region| % 8 == 0
    ensures (forall s :: s in sizes ==> s % 8 == 0) ==> img.Data(b) % 8 == 0
  {
    img.InRegion(b);
    if Slab(img.chunks, b) % 8 == 0 { EntryAligned(b.chunk, img.chunks[b.chunk].slab, img.chunks[b.chunk].nr, b.id); }
  }
}
