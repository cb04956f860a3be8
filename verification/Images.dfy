/** A pool's memory as a value: which blocks are live and what they hold. */
module Images {
  import opened Layout
  import opened Chunks

  /** The length of the prefix that records a block's size. */
  function MetaSize(perfect: bool): nat {
    if perfect then 0 else 8
  }

  datatype Image = Image(perfect: bool, chunks: seq<Chunk>, region: seq<Byte>) {

    ghost predicate Sound() {
      |region| == |chunks| * CHUNK && AllSound(chunks, perfect)
    }

    ghost function Blocks(): set<Block> {
      Live(chunks)
    }

    function Meta(): nat {
      MetaSize(perfect)
    }

    /** The offset handed out for a block. */
    ghost function Data(b: Block): nat {
      Addr(chunks, b) + Meta()
    }

    /** All bytes of a block, its prefix included. */
    ghost function Bytes(b: Block): seq<Byte> {
      if Addr(chunks, b) + Slab(chunks, b) <= |region| then Read(region, Addr(chunks, b), Slab(chunks, b)) else []
    }

    /** The recorded length of a block. */
    ghost function SizeOf(b: Block): nat {
      if perfect then |Bytes(b)| else if |Bytes(b)| >= 4 then DecodeInt(Bytes(b)[..4]) else 0
    }

    /** What a reader of the block sees. */
    ghost function Value(b: Block): seq<Byte> {
      if Meta() + SizeOf(b) <= |Bytes(b)| then Bytes(b)[Meta()..Meta() + SizeOf(b)] else []
    }

    lemma InRegion(b: Block)
      requires Sound() && b in Blocks()
      ensures Addr(chunks, b) + Slab(chunks, b) <= |region| && |Bytes(b)| == Slab(chunks, b) >= Meta()
              && Slab(chunks, b) > 0
      ensures Addr(chunks, b) / CHUNK == b.chunk
    {
      SoundAt(chunks, perfect, b.chunk);
      Inside(chunks, b);
      assert (b.chunk + 1) * CHUNK <= |chunks| * CHUNK;
    }
  }

  /** The blocks of `bs` are live in both images, in the same place and with the same bytes. */
  ghost predicate Kept(m: Image, m': Image, bs: set<Block>) {
    // A single case, so that the predicate stays folded where it is only passed on.
    match m
    case Image(_, _, _) =>
      && m'.perfect == m.perfect && bs <= m.Blocks() && bs <= m'.Blocks()
      && forall b :: b in bs ==> m'.Data(b) == m.Data(b) && m'.Bytes(b) == m.Bytes(b)
  }

  lemma KeptTrans(m: Image, m': Image, m'': Image, bs: set<Block>, bs': set<Block>)
    requires Kept(m, m', bs) && Kept(m', m'', bs') && bs' <= bs
    ensures Kept(m, m'', bs')
  {}

  lemma KeptFewer(m: Image, m': Image, bs: set<Block>, bs': set<Block>)
    requires Kept(m, m', bs) && bs' <= bs
    ensures Kept(m, m', bs')
  {}

  /** What is read from a kept block is the same. */
  lemma KeptValue(m: Image, m': Image, bs: set<Block>, b: Block)
    requires Kept(m, m', bs) && b in bs
    ensures m'.Value(b) == m.Value(b) && m'.SizeOf(b) == m.SizeOf(b) && m'.Data(b) == m.Data(b)
  {}

  /** Blocks stay as they are when only the bitmaps and the lists change. */
  lemma LayoutKeeps(m: Image, m': Image, bs: set<Block>)
    requires SameLayout(m.chunks, m'.chunks) && m'.region == m.region && m'.perfect == m.perfect
    requires bs <= m.Blocks() && bs <= m'.Blocks()
    ensures Kept(m, m', bs)
  {}

  /** A write within a range is a write to what is read from the range. */
  lemma WriteInside(m: seq<Byte>, from: nat, len: nat, at: nat, data: seq<Byte>)
    requires from + len <= |m| && from <= at && at + |data| <= from + len
    ensures Read(Write(m, at, data), from, len) == Write(Read(m, from, len), at - from, data)
  {}

  /** A write inside one block changes that block only. */
  lemma WriteKeeps(m: Image, b: Block, at: nat, data: seq<Byte>)
    requires m.Sound() && b in m.Blocks() && Addr(m.chunks, b) <= at
             && at + |data| <= Addr(m.chunks, b) + Slab(m.chunks, b)
    ensures at + |data| <= |m.region|
    ensures var m' := m.(region := Write(m.region, at, data));
            && Kept(m, m', m.Blocks() - {b}) && |m.Bytes(b)| == Slab(m.chunks, b)
            && m'.Bytes(b) == Write(m.Bytes(b), at - Addr(m.chunks, b), data)
  {
    m.InRegion(b);
    var m' := m.(region := Write(m.region, at, data));
    WriteInside(m.region, Addr(m.chunks, b), Slab(m.chunks, b), at, data);
    forall a | a in m.Blocks() && a != b ensures m'.Bytes(a) == m.Bytes(a) {
      m.InRegion(a);
      SoundAt(m.chunks, m.perfect, a.chunk);
      SoundAt(m.chunks, m.perfect, b.chunk);
      Disjoint(m.chunks, a, b);
      ReadElsewhere(m.region, at, data, Addr(m.chunks, a), Slab(m.chunks, a));
    }
  }

  /** Writing the size in front of a block makes it the recorded length. */
  lemma PrefixSize(m: Image, b: Block, size: nat)
    requires m.Sound() && b in m.Blocks() && !m.perfect && size < 0x8000_0000
    ensures Addr(m.chunks, b) + 4 <= |m.region|
    ensures var m' := m.(region := Write(m.region, Addr(m.chunks, b), EncodeInt(size)));
            m'.SizeOf(b) == size && |m'.Bytes(b)| == Slab(m.chunks, b) && Kept(m, m', m.Blocks() - {b})
  {
    m.InRegion(b);
    WriteKeeps(m, b, Addr(m.chunks, b), EncodeInt(size));
    var m' := m.(region := Write(m.region, Addr(m.chunks, b), EncodeInt(size)));
    assert m'.Bytes(b)[..4] == EncodeInt(size);
    DecodeEncode(size);
  }

  /** Copying a value of the recorded length into a block makes it what a reader sees. */
  lemma ValueWritten(m: Image, b: Block, data: seq<Byte>)
    requires m.Sound() && b in m.Blocks() && |data| == m.SizeOf(b) && m.Meta() + |data| <= |m.Bytes(b)|
    ensures m.Data(b) + |data| <= |m.region|
    ensures var m' := m.(region := Write(m.region, m.Data(b), data));
            m'.Value(b) == data && m'.SizeOf(b) == |data| && Kept(m, m', m.Blocks() - {b})
  {
    m.InRegion(b);
    WriteKeeps(m, b, m.Data(b), data);
    var m' := m.(region := Write(m.region, m.Data(b), data));
    if !m.perfect { assert m'.Bytes(b)[..4] == m.Bytes(b)[..4]; }
    assert m'.Bytes(b)[m.Meta()..m.Meta() + |data|] == data;
  }
}
