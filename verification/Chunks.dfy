/** Chunk headers as values: which blocks are live, where they lie, and the lists a pool keeps of its chunks. */
module Chunks {
  import opened Layout
  import opened BitMap
  import Probe

  /**
    A chunk: whether it has been given an entry size, that size, the number of entries, the
    bitmap and its cached count.
   */
  datatype Chunk = Chunk(used: bool, slab: nat, nr: nat, live: set<nat>, count: nat) {

    /** What the persisted part of a chunk satisfies. */
    predicate Sound() {
      used ==> 0 < slab <= 32767 && nr > 0 && IsEntryNum(slab, nr) && forall i :: i in live ==> i < nr
    }

    predicate Valid() {
      Sound() && (used ==> count == |live|)
    }

    predicate Full() {
      count == nr
    }
  }

  /** The chunk with its first free entry claimed. */
  function Claimed(ch: Chunk): Chunk
    requires FirstFree(ch.live, ch.nr) >= 0
  {
    ch.(live := ch.live + {FirstFree(ch.live, ch.nr)}, count := ch.count + 1)
  }

  /** The chunk with entry `i` given back. */
  function Released(ch: Chunk, i: nat): Chunk {
    ch.(live := ch.live - {i}, count := if ch.count > 0 then ch.count - 1 else 0)
  }

  datatype Block = Block(chunk: nat, id: nat)

  ghost function Live(chunks: seq<Chunk>): (r: set<Block>)
    ensures forall b :: b in r <==> b.chunk < |chunks| && chunks[b.chunk].used && b.id in chunks[b.chunk].live
  {
    set c: nat, i: nat | c < |chunks| && chunks[c].used && i in chunks[c].live :: Block(c, i)
  }

  /** Every chunk is sound and, unless blocks fit perfectly, has entries large enough for a prefix. */
  ghost predicate AllSound(chunks: seq<Chunk>, perfect: bool) {
    if chunks == [] then true else
      var n := |chunks| - 1;
      chunks[n].Sound() && (chunks[n].used ==> perfect || chunks[n].slab >= 8) && AllSound(chunks[..n], perfect)
  }

  lemma {:induction false} SoundAt(chunks: seq<Chunk>, perfect: bool, c: nat)
    requires AllSound(chunks, perfect) && c < |chunks|
    ensures chunks[c].Sound() && (chunks[c].used ==> perfect || chunks[c].slab >= 8)
    decreases |chunks|
  {
    var n := |chunks| - 1;
    if c < n { SoundAt(chunks[..n], perfect, c); }
  }

  lemma {:induction false} SoundAll(chunks: seq<Chunk>, perfect: bool)
    requires forall c: nat :: c < |chunks| ==> chunks[c].Sound() && (chunks[c].used ==> perfect || chunks[c].slab >= 8)
    ensures AllSound(chunks, perfect)
    decreases |chunks|
  {
    if chunks != [] { SoundAll(chunks[..|chunks| - 1], perfect); }
  }

  lemma SoundUpdate(chunks: seq<Chunk>, perfect: bool, c: nat, ch: Chunk)
    requires AllSound(chunks, perfect) && c < |chunks| && ch.Sound() && (ch.used ==> perfect || ch.slab >= 8)
    ensures AllSound(chunks[c := ch], perfect)
  {
    forall d: nat | d < |chunks|
      ensures chunks[d].Sound() && (chunks[d].used ==> perfect || chunks[d].slab >= 8) { SoundAt(chunks, perfect, d); }
    SoundAll(chunks[c := ch], perfect);
  }

  /** The cached counts agree with the bitmaps. */
  ghost predicate AllCounted(chunks: seq<Chunk>) {
    if chunks == [] then true else
      var n := |chunks| - 1;
      (chunks[n].used ==> chunks[n].count == |chunks[n].live|) && AllCounted(chunks[..n])
  }

  lemma {:induction false} CountedAt(chunks: seq<Chunk>, c: nat)
    requires AllCounted(chunks) && c < |chunks| && chunks[c].used
    ensures chunks[c].count == |chunks[c].live|
    decreases |chunks|
  {
    var n := |chunks| - 1;
    if c < n { CountedAt(chunks[..n], c); }
  }

  lemma {:induction false} CountedAll(chunks: seq<Chunk>)
    requires forall c: nat :: c < |chunks| && chunks[c].used ==> chunks[c].count == |chunks[c].live|
    ensures AllCounted(chunks)
    decreases |chunks|
  {
    if chunks != [] { CountedAll(chunks[..|chunks| - 1]); }
  }

  lemma CountedUpdate(chunks: seq<Chunk>, c: nat, ch: Chunk)
    requires AllCounted(chunks) && c < |chunks| && (ch.used ==> ch.count == |ch.live|)
    ensures AllCounted(chunks[c := ch])
  {
    forall d: nat | d < |chunks| && chunks[d].used ensures chunks[d].count == |chunks[d].live| { CountedAt(chunks, d); }
    CountedAll(chunks[c := ch]);
  }

  /** The number of live blocks, chunk by chunk. */
  ghost function Tally(chunks: seq<Chunk>): nat {
    if chunks == [] then 0 else
      var n := |chunks| - 1;
      Tally(chunks[..n]) + Held(chunks[n])
  }

  ghost function Held(ch: Chunk): nat {
    if ch.used then |ch.live| else 0
  }

  lemma {:induction false} TallyUpdate(chunks: seq<Chunk>, c: nat, ch: Chunk)
    requires c < |chunks|
    ensures Tally(chunks[c := ch]) + Held(chunks[c]) == Tally(chunks) + Held(ch)
    decreases |chunks|
  {
    var n := |chunks| - 1;
    if c < n {
      TallyUpdate(chunks[..n], c, ch);
      assert chunks[c := ch][..n] == chunks[..n][c := ch];
    } else {
      assert chunks[c := ch][..n] == chunks[..n];
    }
  }

  /** The blocks of one chunk are as many as its bitmap has ones. */
  lemma {:induction false} BlocksOf(c: nat, live: set<nat>, blocks: set<Block>)
    requires forall b :: b in blocks <==> b.chunk == c && b.id in live
    ensures |blocks| == |live|
    decreases |live|
  {
    if live == {} {
      assert blocks == {};
    } else {
      var i :| i in live;
      BlocksOf(c, live - {i}, blocks - {Block(c, i)});
    }
  }

  /** The tally is the number of live blocks. */
  lemma {:induction false} TallyIsSize(chunks: seq<Chunk>)
    ensures Tally(chunks) == |Live(chunks)|
    decreases |chunks|
  {
    if chunks == [] {
      assert Live(chunks) == {};
    } else {
      var n := |chunks| - 1;
      TallyIsSize(chunks[..n]);
      var more := Live(chunks) - Live(chunks[..n]);
      if chunks[n].used { BlocksOf(n, chunks[n].live, more); } else { assert more == {}; }
      assert Live(chunks) == Live(chunks[..n]) + more;
    }
  }

  /** The offset of a block's entry. */
  ghost function Addr(chunks: seq<Chunk>, b: Block): nat {
    if b.chunk < |chunks| then Entry(b.chunk, chunks[b.chunk].slab, chunks[b.chunk].nr, b.id) else 0
  }

  ghost function Slab(chunks: seq<Chunk>, b: Block): nat {
    if b.chunk < |chunks| then chunks[b.chunk].slab else 0
  }

  /** Chunks in use keep their layout, so blocks stay where they are. */
  ghost predicate SameLayout(chunks: seq<Chunk>, chunks': seq<Chunk>) {
    && |chunks'| == |chunks|
    && forall c: nat :: c < |chunks| && chunks[c].used ==>
      chunks'[c].used && chunks'[c].slab == chunks[c].slab && chunks'[c].nr == chunks[c].nr
  }

  /** A live block lies inside its chunk and clear of the chunk's header and bitmap. */
  lemma Inside(chunks: seq<Chunk>, b: Block)
    requires b in Live(chunks) && chunks[b.chunk].Sound()
    ensures b.chunk * CHUNK + HeaderSize(chunks[b.chunk].nr) <= Addr(chunks, b)
    ensures Addr(chunks, b) + Slab(chunks, b) <= (b.chunk + 1) * CHUNK
    ensures Addr(chunks, b) / CHUNK == b.chunk
  {
    EntryInside(b.chunk, chunks[b.chunk].slab, chunks[b.chunk].nr, b.id);
  }

  /**
    A live block lies in its chunk of 2 MiB and clear of what comes first there: 24 bytes of
    headers and the words of the bitmap.
   */
  lemma ClearOfHeader(chunks: seq<Chunk>, b: Block)
    requires b in Live(chunks) && chunks[b.chunk].Sound()
    ensures b.chunk * 2097152 + 24 + 8 * (chunks[b.chunk].nr / 64) <= Addr(chunks, b)
    ensures Addr(chunks, b) + Slab(chunks, b) <= (b.chunk + 1) * 2097152
  {
    Inside(chunks, b);
    EntryInside(b.chunk, chunks[b.chunk].slab, chunks[b.chunk].nr, b.id);
  }

  /** Different live blocks do not overlap. */
  lemma Disjoint(chunks: seq<Chunk>, a: Block, b: Block)
    requires a in Live(chunks) && b in Live(chunks) && a != b
    requires chunks[a.chunk].Sound() && chunks[b.chunk].Sound()
    ensures Addr(chunks, a) + Slab(chunks, a) <= Addr(chunks, b) || Addr(chunks, b) + Slab(chunks, b) <= Addr(chunks, a)
  {
    Inside(chunks, a);
    Inside(chunks, b);
    if a.chunk == b.chunk {
      if a.id < b.id {
        EntriesApart(a.chunk, chunks[a.chunk].slab, chunks[a.chunk].nr, a.id, b.id);
      } else {
        EntriesApart(a.chunk, chunks[a.chunk].slab, chunks[a.chunk].nr, b.id, a.id);
      }
    }
  }

  // ---- Single updates ----

  lemma LiveMore(chunks: seq<Chunk>, c: nat, i: nat, ch: Chunk)
    requires c < |chunks| && chunks[c].used && i !in chunks[c].live
             && ch == chunks[c].(live := chunks[c].live + {i}, count := ch.count)
    ensures Block(c, i) !in Live(chunks)
    ensures Live(chunks[c := ch]) == Live(chunks) + {Block(c, i)} && SameLayout(chunks, chunks[c := ch])
    ensures Tally(chunks[c := ch]) == Tally(chunks) + 1
  {
    assert Live(chunks[c := ch]) == Live(chunks) + {Block(c, i)};
    TallyUpdate(chunks, c, ch);
  }

  lemma LiveLess(chunks: seq<Chunk>, c: nat, i: nat, ch: Chunk)
    requires c < |chunks| && chunks[c].used && i in chunks[c].live
             && ch == chunks[c].(live := chunks[c].live - {i}, count := ch.count)
    ensures Block(c, i) in Live(chunks)
    ensures Live(chunks[c := ch]) == Live(chunks) - {Block(c, i)} && SameLayout(chunks, chunks[c := ch])
    ensures Tally(chunks[c := ch]) == Tally(chunks) - 1
  {
    assert Live(chunks[c := ch]) == Live(chunks) - {Block(c, i)};
    TallyUpdate(chunks, c, ch);
  }

  lemma LiveUse(chunks: seq<Chunk>, c: nat, slab: nat, nr: nat)
    requires c < |chunks| && !chunks[c].used
    ensures var chunks' := chunks[c := Chunk(true, slab, nr, {}, 0)];
            Live(chunks') == Live(chunks) && SameLayout(chunks, chunks') && Tally(chunks') == Tally(chunks)
  {
    assert Live(chunks[c := Chunk(true, slab, nr, {}, 0)]) == Live(chunks);
    TallyUpdate(chunks, c, Chunk(true, slab, nr, {}, 0));
  }

  lemma NothingFree(s: set<nat>, n: nat)
    requires (forall i :: i in s ==> i < n) && FirstFree(s, n) < 0
    ensures |s| == n
  {
    assert s == Probe.Range(n);
  }

  lemma AllTaken(s: set<nat>, n: nat)
    requires (forall i :: i in s ==> i < n) && |s| == n
    ensures FirstFree(s, n) < 0
  {
    Probe.SubsetFull(s, Probe.Range(n));
  }

  /** The cached count says whether the bitmap has a free position. */
  lemma FullAgrees(ch: Chunk)
    requires ch.Valid() && ch.used
    ensures ch.Full() <==> FirstFree(ch.live, ch.nr) < 0
    ensures ch.count <= ch.nr
  {
    Bounded(ch.live, ch.nr);
    if ch.Full() { AllTaken(ch.live, ch.nr); }
    if FirstFree(ch.live, ch.nr) < 0 { NothingFree(ch.live, ch.nr); }
  }

  lemma Bounded(s: set<nat>, n: nat)
    requires forall i :: i in s ==> i < n
    ensures |s| <= n
  {
    assert Probe.Range(n) == s + (Probe.Range(n) - s);
  }

  // ---- Lists of chunks ----

  /** `ids` lists each element of `s` once. */
  ghost predicate Lists(ids: seq<nat>, s: set<nat>) {
    (forall i: nat, j: nat :: i < j < |ids| ==> ids[i] != ids[j]) && (forall x :: x in ids <==> x in s)
  }

  ghost function Unused(chunks: seq<Chunk>): set<nat> {
    set c: nat | c < |chunks| && !chunks[c].used
  }

  ghost function OfSize(chunks: seq<Chunk>, slab: nat): set<nat> {
    set c: nat | c < |chunks| && chunks[c].used && chunks[c].slab == slab
  }

  /** The free list and the lists per entry size partition the chunks. */
  ghost predicate Listed(chunks: seq<Chunk>, sizes: seq<nat>, free: seq<nat>, classes: map<nat, seq<nat>>) {
    && Lists(free, Unused(chunks))
    && (forall s :: s in classes <==> s in sizes)
    && (forall s :: s in classes ==> Lists(classes[s], OfSize(chunks, s)))
    && (forall c: nat :: c < |chunks| && chunks[c].used ==> chunks[c].slab in sizes)
  }

  lemma ListsTail(ids: seq<nat>, s: set<nat>)
    requires Lists(ids, s) && ids != []
    ensures ids[0] in s && Lists(ids[1..], s - {ids[0]})
  {
    assert ids == [ids[0]] + ids[1..];
    forall x ensures x in ids[1..] <==> x in s - {ids[0]} {
      if x in ids[1..] { assert ids[0] != x; }
    }
  }

  lemma ListsMore(ids: seq<nat>, s: set<nat>, x: nat)
    requires Lists(ids, s) && x !in s
    ensures Lists(ids + [x], s + {x})
  {
    forall i: nat | i < |ids| ensures ids[i] != x { assert ids[i] in ids; }
  }

  /** Headers that agree on use and size are in the same lists. */
  lemma ListedFrame(chunks: seq<Chunk>, chunks': seq<Chunk>, sizes: seq<nat>, free: seq<nat>,
                    classes: map<nat, seq<nat>>)
    requires Listed(chunks, sizes, free, classes) && |chunks'| == |chunks|
    requires forall c: nat :: c < |chunks| ==>
             chunks'[c].used == chunks[c].used && (chunks[c].used ==> chunks'[c].slab == chunks[c].slab)
    ensures Listed(chunks', sizes, free, classes)
  {
    assert Unused(chunks') == Unused(chunks);
    forall s ensures OfSize(chunks', s) == OfSize(chunks, s) {}
  }

  /** Taking the first free chunk into use moves it between lists. */
  lemma ListedUse(chunks: seq<Chunk>, sizes: seq<nat>, free: seq<nat>, classes: map<nat, seq<nat>>, slab: nat,
                  ch: Chunk)
    requires Listed(chunks, sizes, free, classes) && free != [] && slab in classes && ch.used && ch.slab == slab
    ensures free[0] < |chunks| && !chunks[free[0]].used
    ensures Listed(chunks[free[0] := ch], sizes, free[1..], classes[slab := classes[slab] + [free[0]]])
  {
    var c := free[0];
    assert c in free && c in Unused(chunks);
    var chunks' := chunks[c := ch];
    ListsTail(free, Unused(chunks));
    assert Unused(chunks') == Unused(chunks) - {c};
    ListsMore(classes[slab], OfSize(chunks, slab), c);
    assert OfSize(chunks', slab) == OfSize(chunks, slab) + {c};
    forall s | s != slab ensures OfSize(chunks', s) == OfSize(chunks, s) {}
  }
}
