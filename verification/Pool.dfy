/**
  The persistent memory pool: blocks of a few fixed sizes, each size in chunks of its
  own. In perfect-fit mode a block has exactly the requested size; otherwise it is
  prefixed by eight bytes that hold the requested size.
 */
module Pool {
  import opened Options
  import opened Layout
  import opened BitMap
  import opened Chunks
  import opened Images

  class PersistMemoryPool {
    const perfect: bool
    /** The entry sizes, in increasing order. */
    const sizes: seq<nat>
    var region: seq<Byte>
    var chunks: seq<Chunk>
    var free: seq<nat>
    var classes: map<nat, seq<nat>>
    var last: map<nat, nat>
    var total: nat

    ghost function Now(): Image
      reads this
    {
      Image(perfect, chunks, region)
    }

    ghost predicate Valid()
      reads this
    {
      Increasing(sizes, 0) && Now().Sound() && Kempt(chunks, sizes, free, classes, last) && total == Tally(chunks)
    }

    // ---- Opening ----

    /** A new pool: all chunks are free. */
    constructor (perfect: bool, sizes: seq<nat>, region: seq<Byte>)
      requires Increasing(sizes, 0) && |region| / CHUNK >= |sizes|
      ensures Valid() && Now().Blocks() == {} && total == 0
      ensures this.perfect == perfect && this.sizes == sizes && |chunks| == |region| / CHUNK && this.region <= region
      ensures |free| == |chunks|
    {
      var n := |region| / CHUNK;
      this.perfect, this.sizes := perfect, sizes;
      this.region := region[..n * CHUNK];
      chunks := seq(n, _ => EMPTY);
      free := seq(n, i => i);
      classes := map s | s in sizes :: [];
      last := map[];
      total := 0;
      new;
      StartListed(chunks, sizes, free, classes);
      SoundAll(chunks, perfect);
      CountedAll(chunks);
    }

    /**
      Reopen a pool from its persisted chunk headers and bitmaps: the counts, the lists
      and the total are built up again.
     */
    constructor Recover(perfect: bool, sizes: seq<nat>, region: seq<Byte>, persisted: seq<Chunk>)
      requires Increasing(sizes, 0) && Image(perfect, persisted, region).Sound()
      requires forall c: nat :: c < |persisted| && persisted[c].used ==> persisted[c].slab in sizes
      ensures Valid() && Now().Blocks() == Live(persisted) && SameLayout(persisted, chunks) && total == Tally(persisted)
      ensures this.perfect == perfect && this.sizes == sizes && this.region == region
    {
      this.perfect, this.sizes, this.region := perfect, sizes, region;
      chunks := persisted;
      free := [];
      classes := map s | s in sizes :: [];
      last := map[];
      total := 0;
      new;
      ghost var was := persisted;
      RebuiltStart(was, sizes, classes);
      for i := 0 to |persisted|
        invariant |chunks| == |was| && this.region == region && last == map[]
        invariant Rebuilt(was, i, sizes, chunks, free, classes, total)
      {
        RebuiltNext(was, i, sizes, chunks, free, classes, total);
        if chunks[i].used {
          var slab := chunks[i].slab;
          classes := classes[slab := classes[slab] + [i]];
          chunks := chunks[i := chunks[i].(count := |chunks[i].live|)];
          total := total + chunks[i].count;
        } else {
          free := free + [i];
        }
      }
      assert was[..|was|] == was;
      ListedFrame(was, chunks, sizes, free, classes);
      assert Live(chunks) == Live(was);
      TallyIsSize(chunks);
      TallyIsSize(was);
      RecoveredSound(was, chunks, perfect);
    }

    // ---- Allocation ----

    /** Claim the first free entry of a chunk. */
    method Malloc(c: nat) returns (b: Block)
      requires Valid() && c < |chunks| && chunks[c].used && !chunks[c].Full()
      modifies this`chunks, this`total
      ensures Valid() && b.chunk == c && SameLayout(old(chunks), chunks) && total == old(total) + 1
      ensures b !in Live(old(chunks)) && Live(chunks) == Live(old(chunks)) + {b}
      ensures b.id == FirstFree(old(chunks)[c].live, old(chunks)[c].nr)
      ensures chunks == old(chunks)[c := Claimed(old(chunks)[c])]
    {
      SoundAt(chunks, perfect, c);
      CountedAt(chunks, c);
      FullAgrees(chunks[c]);
      var i := FirstFree(chunks[c].live, chunks[c].nr);
      var ch := Claimed(chunks[c]);
      LiveMore(chunks, c, i, ch);
      StaysKempt(chunks, c, ch, sizes, free, classes, last);
      SoundUpdate(chunks, perfect, c, ch);
      b := Block(c, i);
      chunks := chunks[c := ch];
      total := total + 1;
    }

    /** Give the first free chunk an entry size. This fails if not even 64 entries fit. */
    method Use(slab: nat) returns (ok: bool, c: nat)
      requires Valid() && slab in sizes && free != [] && (perfect || slab >= 8)
      modifies this
      ensures ok <==> slab <= 32767
      ensures ok ==> Valid() && c in OfSize(chunks, slab) && !chunks[c].Full() && SameLayout(old(chunks), chunks)
      ensures ok ==> Live(chunks) == Live(old(chunks)) && total == old(total) && region == old(region)
      ensures ok ==> c < |old(chunks)| && !old(chunks)[c].used && IsEntryNum(slab, chunks[c].nr)
      ensures ok ==> chunks == old(chunks)[c := Chunk(true, slab, chunks[c].nr, {}, 0)] && c == old(free)[0]
    {
      c := free[0];
      IncreasingAt(sizes, 0);
      var nr := EntryNum(slab);
      RoomForOne(slab, nr);
      ok := nr > 0;
      if !ok {
        return;
      }
      UseKeepsKempt(chunks, sizes, free, classes, last, slab, nr);
      LiveUse(chunks, c, slab, nr);
      SoundUpdate(chunks, perfect, c, Chunk(true, slab, nr, {}, 0));
      chunks := chunks[c := Chunk(true, slab, nr, {}, 0)];
      free := free[1..];
      classes := classes[slab := classes[slab] + [c]];
      last := last[slab := c];
    }

    /** No chunk is free, or none could hold an entry of this size, and all chunks of this size are full. */
    ghost predicate Exhausted(slab: nat)
      reads this
    {
      ExhaustedIn(chunks, free, slab)
    }

    method FirstNotFull(slab: nat) returns (c: Option<nat>)
      requires Valid() && slab in sizes
      ensures c.Some? ==> c.value in OfSize(chunks, slab) && !chunks[c.value].Full()
      ensures c.Some? ==> FirstWithRoom(chunks, classes[slab], c.value)
      ensures c.None? ==> forall c :: c in OfSize(chunks, slab) ==> chunks[c].Full()
    {
      var ids := classes[slab];
      for k := 0 to |ids|
        invariant forall i: nat :: i < k ==> ids[i] < |chunks| && chunks[ids[i]].Full()
      {
        assert ids[k] in OfSize(chunks, slab);
        if !chunks[ids[k]].Full() {
          return Some(ids[k]);
        }
      }
      return None;
    }

    /** The chunk to allocate from: the last used one, else the first free one, else the first that has room. */
    method PickChunk(slab: nat) returns (c: Option<nat>)
      requires Valid() && slab in sizes && (perfect || slab >= 8)
      modifies this
      ensures c.None? <==> old(Exhausted(slab))
      ensures c.Some? ==> Valid() && c.value in OfSize(chunks, slab) && !chunks[c.value].Full()
      ensures c.Some? ==> SameLayout(old(chunks), chunks)
      ensures c.Some? ==> Live(chunks) == Live(old(chunks)) && total == old(total) && region == old(region)
      ensures c.Some? ==> Picks(old(chunks), old(free), old(classes), old(last), slab, c.value)
    {
      if slab in last && !chunks[last[slab]].Full() {
        return Some(last[slab]);
      }
      if free != [] {
        BigIsUnused(chunks, perfect, slab);
        var ok, front := Use(slab);
        return if ok then Some(front) else None;
      }
      c := FirstNotFull(slab);
    }

    method NewInternal(slab: nat) returns (b: Option<Block>)
      requires Valid() && slab in sizes && (perfect || slab >= 8)
      modifies this
      ensures b.None? <==> old(Exhausted(slab))
      ensures b.Some? ==> Valid() && SameLayout(old(chunks), chunks) && region == old(region) && total == old(total) + 1
      ensures b.Some? ==> b.value !in Live(old(chunks)) && Live(chunks) == Live(old(chunks)) + {b.value}
      ensures b.Some? ==> Slab(chunks, b.value) == slab
      ensures b.Some? ==> Picks(old(chunks), old(free), old(classes), old(last), slab, b.value.chunk)
    {
      var c := PickChunk(slab);
      if c.None? {
        return None;
      }
      var r := Malloc(c.value);
      return Some(r);
    }

    /** The least entry size that is at least `x`. */
    method LowerBound(x: nat) returns (slab: Option<nat>)
      requires Increasing(sizes, 0)
      ensures slab.Some? ==> slab.value in sizes && x <= slab.value && forall s :: s in sizes && x <= s ==>
              slab.value <= s
      ensures slab.None? ==> forall s :: s in sizes ==> s < x
    {
      IncreasingAt(sizes, 0);
      for i := 0 to |sizes|
        invariant forall j: nat :: j < i ==> sizes[j] < x
      {
        if x <= sizes[i] {
          return Some(sizes[i]);
        }
      }
      return None;
    }

    // ---- The interface ----

    /** The entry size that a request of `size` bytes is served with. */
    ghost predicate Serves(size: nat, slab: nat) {
      ServedBy(perfect, sizes, size, slab)
    }

    /** A request cannot be served: there is no entry size for it or no room. */
    ghost predicate NoRoom(size: nat)
      reads this
    {
      NoRoomIn(perfect, sizes, chunks, free, size)
    }

    /** The entry size for a request. */
    method ClassFor(size: nat) returns (slab: Option<nat>)
      requires Increasing(sizes, 0)
      ensures slab.Some? ==> Serves(size, slab.value)
      ensures forall s: nat :: ServedBy(perfect, sizes, size, s) ==> slab == Some(s)
    {
      if perfect {
        return if size in sizes then Some(size) else None;
      }
      slab := LowerBound(8 + size);
    }

    /**
      Allocate. The block is new, the other blocks are untouched, and the requested
      size can be read back. Allocation fails exactly when there is no room.
     */
    method New(size: nat) returns (r: Option<nat>, ghost b: Block)
      requires Valid() && size < 0x8000_0000
      modifies this
      ensures r.None? <==> old(NoRoom(size))
      ensures r.Some? ==> Valid() && b !in old(Now()).Blocks() && Now().Blocks() == old(Now()).Blocks() + {b}
      ensures r.Some? ==> Kept(old(Now()), Now(), old(Now()).Blocks()) && total == old(total) + 1
      ensures r.Some? ==> |region| == |old(region)|
      ensures r.Some? ==> r.value == Now().Data(b) && Now().SizeOf(b) == size && Now().Meta() + size <= |Now().Bytes(b)|
      ensures r.Some? ==> Serves(size, Slab(chunks, b))
      ensures r.Some? ==> Picks(old(chunks), old(free), old(classes), old(last), Slab(chunks, b), b.chunk)
    {
      b := Block(0, 0);
      var slab := ClassFor(size);
      if slab.None? {
        return None, b;
      }
      ghost var m := Now();
      var nb := NewInternal(slab.value);
      if nb.None? {
        return None, b;
      }
      b := nb.value;
      ghost var m' := Now();
      LayoutKeeps(m, m', m.Blocks());
      var off := Prefix(nb.value, size);
      KeptTrans(m, m', Now(), m.Blocks(), m.Blocks());
      return Some(off), b;
    }

    /** Record the requested size in front of the block, unless blocks fit perfectly. */
    method Prefix(b: Block, size: nat) returns (off: nat)
      requires Valid() && b in Now().Blocks() && size < 0x8000_0000 && Serves(size, Slab(chunks, b))
      modifies this`region
      ensures Valid() && off == Now().Data(b) && Now().SizeOf(b) == size && Now().Meta() + size <= |Now().Bytes(b)|
              && |region| == |old(region)|
      ensures forall bs :: bs <= old(Now()).Blocks() - {b} ==> Kept(old(Now()), Now(), bs)
    {
      ghost var m := Now();
      off := Entry(b.chunk, chunks[b.chunk].slab, chunks[b.chunk].nr, b.id);
      m.InRegion(b);
      if !perfect {
        PrefixSize(m, b, size);
        region := Write(region, off, EncodeInt(size));
      } else {
        LayoutKeeps(m, m, m.Blocks() - {b});
      }
      forall bs | bs <= m.Blocks() - {b} ensures Kept(m, Now(), bs) { KeptFewer(m, Now(), m.Blocks() - {b}, bs); }
      off := off + MetaSize(perfect);
    }

    /** Copy a value into a block. */
    method Store(off: nat, data: seq<Byte>, ghost b: Block)
      requires Valid() && b in Now().Blocks() && off == Now().Data(b)
      requires |data| == Now().SizeOf(b) && Now().Meta() + |data| <= |Now().Bytes(b)|
      modifies this`region
      ensures Valid() && Now().Value(b) == data && Now().SizeOf(b) == |data| && Now().Blocks() == old(Now()).Blocks()
      ensures Kept(old(Now()), Now(), old(Now()).Blocks() - {b}) && Now().Data(b) == off && |region| == |old(region)|
    {
      ValueWritten(Now(), b, data);
      region := Write(region, off, data);
    }

    /** Free undoes the allocation of a block and touches no other. */
    method Free(off: nat, ghost b: Block) returns (ok: bool)
      requires Valid() && b in Now().Blocks() && off == Now().Data(b)
      modifies this`chunks, this`total
      ensures ok && Valid() && Now().Blocks() == old(Now()).Blocks() - {b} && total == old(total) - 1
      ensures Kept(old(Now()), Now(), Now().Blocks())
      ensures chunks == old(chunks)[b.chunk := Released(old(chunks)[b.chunk], b.id)]
    {
      ghost var m := Now();
      var p := off - MetaSize(perfect);
      m.InRegion(b);
      SoundAt(chunks, perfect, b.chunk);
      CountedAt(chunks, b.chunk);
      EntryNumber(b.chunk, Slab(chunks, b), chunks[b.chunk].nr, b.id);
      var c := p / CHUNK;
      if c >= |chunks| {
        return false;
      }
      var i := (p - c * CHUNK - HeaderSize(chunks[c].nr)) / chunks[c].slab;
      var ch := Released(chunks[c], i);
      LiveLess(chunks, c, i, ch);
      StaysKempt(chunks, c, ch, sizes, free, classes, last);
      SoundUpdate(chunks, perfect, c, ch);
      chunks := chunks[c := ch];
      total := total - 1;
      LayoutKeeps(m, Now(), Now().Blocks());
      return true;
    }

    /** The length of a block: its entry size, or what its prefix says. */
    method GetMallocSize(off: nat, ghost b: Block) returns (size: nat)
      requires Valid() && b in Now().Blocks() && off == Now().Data(b)
      ensures size == Now().SizeOf(b)
    {
      ghost var m := Now();
      m.InRegion(b);
      ghost var at := Addr(chunks, b);
      assert off == at + m.Meta();
      if perfect {
        assert off / CHUNK == b.chunk;
        return chunks[off / CHUNK].slab;
      }
      PrefixOf(region, at, Slab(chunks, b));
      return DecodeInt(Read(region, off - 8, 4));
    }
  }

  const EMPTY: Chunk := Chunk(false, 0, 0, {}, 0)

  ghost predicate ServedBy(perfect: bool, sizes: seq<nat>, size: nat, slab: nat) {
    && slab in sizes
    && if perfect then slab == size else 8 + size <= slab && forall s :: s in sizes && 8 + size <= s ==> slab <= s
  }

  /** The first of these chunks that is not full. */
  ghost predicate FirstWithRoom(chunks: seq<Chunk>, ids: seq<nat>, c: nat) {
    exists i: nat :: i < |ids| && ids[i] == c < |chunks| && !chunks[c].Full()
                     && forall j: nat :: j < i ==> ids[j] < |chunks| && chunks[ids[j]].Full()
  }

  /** Chunk `c` is the one to allocate an entry of this size from. */
  ghost predicate Picks(chunks: seq<Chunk>, free: seq<nat>, classes: map<nat, seq<nat>>, last: map<nat, nat>,
                        slab: nat, c: nat) {
    if slab in last && last[slab] < |chunks| && !chunks[last[slab]].Full() then c == last[slab]
    else if free != [] then c == free[0]
    else slab in classes && FirstWithRoom(chunks, classes[slab], c)
  }

  ghost predicate ExhaustedIn(chunks: seq<Chunk>, free: seq<nat>, slab: nat) {
    (free == [] || slab > 32767) && forall c :: c in OfSize(chunks, slab) ==> chunks[c].Full()
  }

  /** A request cannot be served: there is no entry size for it or no room. */
  ghost predicate NoRoomIn(perfect: bool, sizes: seq<nat>, chunks: seq<Chunk>, free: seq<nat>, size: nat) {
    forall slab :: ServedBy(perfect, sizes, size, slab) ==> ExhaustedIn(chunks, free, slab)
  }

  /** The numbers are above `low` and go up. */
  predicate Increasing(sizes: seq<nat>, low: nat) {
    sizes == [] || (low < sizes[0] && Increasing(sizes[1..], sizes[0]))
  }

  lemma {:induction false} IncreasingAt(sizes: seq<nat>, low: nat)
    requires Increasing(sizes, low)
    ensures forall i: nat :: i < |sizes| ==> low < sizes[i]
    ensures forall i: nat, j: nat :: i < j < |sizes| ==> sizes[i] < sizes[j]
  {
    if sizes != [] {
      IncreasingAt(sizes[1..], sizes[0]);
      assert sizes == [sizes[0]] + sizes[1..];
    }
  }

  /** The counts agree with the bitmaps and the lists with the chunks. */
  ghost predicate Kempt(chunks: seq<Chunk>, sizes: seq<nat>, free: seq<nat>, classes: map<nat, seq<nat>>,
                        last: map<nat, nat>) {
    && AllCounted(chunks) && Listed(chunks, sizes, free, classes)
    && (forall s :: s in last ==> last[s] in OfSize(chunks, s))
  }

  lemma PrefixOf(m: seq<Byte>, at: nat, len: nat)
    requires at + len <= |m| && len >= 4
    ensures Read(m, at, len)[..4] == Read(m, at, 4)
  {}

  lemma BigIsUnused(chunks: seq<Chunk>, perfect: bool, slab: nat)
    requires AllSound(chunks, perfect)
    ensures slab > 32767 ==> OfSize(chunks, slab) == {}
  {
    if slab > 32767 {
      forall c: nat | c < |chunks| && chunks[c].used ensures chunks[c].slab != slab { SoundAt(chunks, perfect, c); }
    }
  }

  /** A chunk whose entries alone change stays in its lists. */
  lemma StaysKempt(chunks: seq<Chunk>, c: nat, ch: Chunk, sizes: seq<nat>, free: seq<nat>, classes: map<nat, seq<nat>>,
                   last: map<nat, nat>)
    requires Kempt(chunks, sizes, free, classes, last) && c < |chunks| && ch.Valid()
             && ch == chunks[c].(live := ch.live, count := ch.count)
    ensures Kempt(chunks[c := ch], sizes, free, classes, last)
  {
    ListedFrame(chunks, chunks[c := ch], sizes, free, classes);
    CountedUpdate(chunks, c, ch);
    forall s ensures OfSize(chunks[c := ch], s) == OfSize(chunks, s) {}
  }

  lemma UseKeepsKempt(chunks: seq<Chunk>, sizes: seq<nat>, free: seq<nat>, classes: map<nat, seq<nat>>,
                      last: map<nat, nat>, slab: nat, nr: nat)
    requires Kempt(chunks, sizes, free, classes, last) && free != [] && slab in sizes && 0 < slab <= 32767 && nr > 0
             && IsEntryNum(slab, nr)
    ensures free[0] < |chunks| && !chunks[free[0]].used
    ensures var c := free[0];
            Kempt(chunks[c := Chunk(true, slab, nr, {}, 0)], sizes, free[1..], classes[slab := classes[slab] + [c]],
                  last[slab := c])
  {
    var c, ch := free[0], Chunk(true, slab, nr, {}, 0);
    assert slab in classes;
    ListedUse(chunks, sizes, free, classes, slab, ch);
    CountedUpdate(chunks, c, ch);
    forall s | s in last && s != slab
      ensures last[s] in OfSize(chunks[c := ch], s) { assert last[s] in OfSize(chunks, s); }
  }

  lemma RecoveredSound(was: seq<Chunk>, chunks: seq<Chunk>, perfect: bool)
    requires AllSound(was, perfect) && |chunks| == |was|
    requires forall c: nat :: c < |was| ==> chunks[c] == if was[c].used then was[c].(count := |was[c].live|) else was[c]
    ensures AllSound(chunks, perfect) && AllCounted(chunks)
  {
    forall c: nat | c < |was| ensures was[c].Sound() && (was[c].used ==> perfect || was[c].slab >= 8) {
      SoundAt(was, perfect, c);
    }
    SoundAll(chunks, perfect);
    CountedAll(chunks);
  }

  lemma StartListed(chunks: seq<Chunk>, sizes: seq<nat>, free: seq<nat>, classes: map<nat, seq<nat>>)
    requires (forall c: nat :: c < |chunks| ==> !chunks[c].used) && |free| == |chunks|
             && forall i: nat :: i < |free| ==> free[i] == i
    requires (forall s :: s in classes <==> s in sizes) && forall s :: s in classes ==> classes[s] == []
    ensures Listed(chunks, sizes, free, classes) && Live(chunks) == {} && Tally(chunks) == 0
  {
    assert Live(chunks) == {};
    TallyIsSize(chunks);
    forall x: nat ensures x in free <==> x in Unused(chunks) {
      if x < |free| { assert free[x] == x; }
    }
    forall s ensures OfSize(chunks, s) == {} {}
  }

  /** The lists, the counts and the total are built up for the first `i` chunks. */
  ghost predicate Rebuilt(was: seq<Chunk>, i: nat, sizes: seq<nat>, chunks: seq<Chunk>, free: seq<nat>,
                          classes: map<nat, seq<nat>>, total: nat) {
    && i <= |was| == |chunks|
    && (forall c: nat :: c < |was| ==>
        chunks[c] == if c < i && was[c].used then was[c].(count := |was[c].live|) else was[c])
    && Listed(was[..i], sizes, free, classes) && total == Tally(was[..i])
  }

  lemma RebuiltStart(was: seq<Chunk>, sizes: seq<nat>, classes: map<nat, seq<nat>>)
    requires (forall s :: s in classes <==> s in sizes) && forall s :: s in classes ==> classes[s] == []
    ensures Rebuilt(was, 0, sizes, was, [], classes, 0)
  {
    StartListed(was[..0], sizes, [], classes);
  }

  lemma RebuiltNext(was: seq<Chunk>, i: nat, sizes: seq<nat>, chunks: seq<Chunk>, free: seq<nat>,
                    classes: map<nat, seq<nat>>, total: nat)
    requires i < |was| && Rebuilt(was, i, sizes, chunks, free, classes, total) && (was[i].used ==> was[i].slab in sizes)
    ensures chunks[i] == was[i] && (was[i].used ==> was[i].slab in classes)
    ensures was[i].used ==>
              var slab, ch := was[i].slab, was[i].(count := |was[i].live|);
              Rebuilt(was, i + 1, sizes, chunks[i := ch], free, classes[slab := classes[slab] + [i]], total + ch.count)
    ensures !was[i].used ==> Rebuilt(was, i + 1, sizes, chunks, free + [i], classes, total)
  {
    RecoverOne(was, i, sizes, free, classes);
  }

  lemma RecoverOne(was: seq<Chunk>, i: nat, sizes: seq<nat>, free: seq<nat>, classes: map<nat, seq<nat>>)
    requires i < |was| && Listed(was[..i], sizes, free, classes) && (was[i].used ==> was[i].slab in sizes)
    ensures was[i].used ==> was[i].slab in classes
    ensures was[i].used ==> Listed(was[..i + 1], sizes, free, classes[was[i].slab := classes[was[i].slab] + [i]])
    ensures Tally(was[..i + 1]) == Tally(was[..i]) + Held(was[i])
    ensures !was[i].used ==> Listed(was[..i + 1], sizes, free + [i], classes)
  {
    var a, b := was[..i], was[..i + 1];
    assert b == a + [was[i]] && b[..i] == a;
    if was[i].used {
      var slab := was[i].slab;
      assert slab in classes;
      assert Unused(b) == Unused(a);
      ListsMore(classes[slab], OfSize(a, slab), i);
      assert OfSize(b, slab) == OfSize(a, slab) + {i};
      forall s | s != slab ensures OfSize(b, s) == OfSize(a, s) {}
    } else {
      ListsMore(free, Unused(a), i);
      assert Unused(b) == Unused(a) + {i};
      forall s ensures OfSize(b, s) == OfSize(a, s) {}
    }
  }
}
