/**
  The check that runs when a table is reopened: the memory has the right size, every
  key in use can be found, and the size fields agree with the tags.
 */
module Audit {
  import opened Options
  import opened Seals
  import opened Probe
  import opened Table
  import opened Writer
  import opened Recovery
  import opened Sizing
  import opened PetHash

  ghost function SumSizes(T: Table, m: nat): nat
    requires m <= |T.chunks|
  {
    if m == 0 then 0 else SumSizes(T, m - 1) + T.chunks[m - 1].size
  }

  ghost function LanesBelow(ch: Chunk, m: nat): set<nat> {
    set l: nat | l < |ch.tags| && l < m && ch.tags[l] != 0
  }

  lemma TagsBelowNext(T: Table, c: nat, l: nat)
    ensures |TagsBelow(T, c, l + 1)| == |TagsBelow(T, c, l)| + if T.Tag(Slot(c, l)) == 0 then 0 else 1
  {
    if T.Tag(Slot(c, l)) == 0 {
      assert TagsBelow(T, c, l + 1) == TagsBelow(T, c, l);
    } else {
      assert TagsBelow(T, c, l + 1) == TagsBelow(T, c, l) + {Slot(c, l)};
    }
  }

  lemma LanesBelowNext(ch: Chunk, l: nat)
    requires l < |ch.tags|
    ensures |LanesBelow(ch, l + 1)| == |LanesBelow(ch, l)| + if ch.tags[l] == 0 then 0 else 1
  {
    if ch.tags[l] == 0 {
      assert LanesBelow(ch, l + 1) == LanesBelow(ch, l);
    } else {
      assert LanesBelow(ch, l + 1) == LanesBelow(ch, l) + {l};
    }
  }

  lemma {:induction false} ChunkCount(g: Geometry, T: Table, c: nat, l: nat)
    requires T.Shaped(g) && c < g.n && l <= LANES
    ensures |TagsBelow(T, c, l)| == |TagsBelow(T, c, 0)| + |LanesBelow(T.chunks[c], l)|
  {
    if l == 0 {
      assert LanesBelow(T.chunks[c], 0) == {};
    } else {
      ChunkCount(g, T, c, l - 1);
      TagsBelowNext(T, c, l - 1);
      LanesBelowNext(T.chunks[c], l - 1);
    }
  }

  /** The chunk sizes add up to the number of slots in use and what one of them is ahead by. */
  lemma {:induction false} SizesAddUp(g: Geometry, T: Table, k: Skew, m: nat)
    requires T.Shaped(g) && Skewed(T, k) && m <= g.n
    ensures SumSizes(T, m) == |TagsBelow(T, m, 0)| + if k.chunk < m then k.extra else 0
  {
    if m == 0 {
      assert TagsBelow(T, 0, 0) == {};
    } else {
      SizesAddUp(g, T, k, m - 1);
      ChunkCount(g, T, m - 1, LANES);
      assert LanesBelow(T.chunks[m - 1], LANES) == T.chunks[m - 1].Lanes();
      TagsBelowChunk(g, T, m - 1);
    }
  }

  /** What the check demands of a table in `bytes` bytes. */
  ghost predicate Passes(g: Geometry, T: Table, chunkBytes: nat, bytes: nat)
    requires g.Valid() && T.Shaped(g)
  {
    && bytes == HEADER_BYTES + g.n * chunkBytes
    && T.size <= g.n * LANES
    && (forall s :: s in T.Used() ==> Lookup(g, T, T.KeyAt(s), 0).Some?)
    && SumSizes(T, g.n) == |T.Used()| == T.size
  }

  lemma UsedBound(g: Geometry, T: Table)
    requires T.Shaped(g)
    ensures |T.Used()| <= g.n * LANES
  {
    var all := AllSlots(g.n, LANES);
    assert all == T.Used() + (all - T.Used());
  }

  /** An intact table passes the check, provided it sits in memory of its own size. */
  lemma IntactPasses(g: Geometry, T: Table, exact: bool, chunkBytes: nat)
    requires T.Inv(g, exact)
    ensures Passes(g, T, chunkBytes, HEADER_BYTES + g.n * chunkBytes)
  {
    forall s | s in T.Used() ensures Lookup(g, T, T.KeyAt(s), 0).Some? {
      LookupFinds(g, T, multiset{}, exact, s);
    }
    SkewZero(T, Skew(0, 0, 0));
    SizesAddUp(g, T, Skew(0, 0, 0), g.n);
    assert TagsBelow(T, g.n, 0) == T.Used();
    UsedBound(g, T);
  }

  lemma OwnCapacity(n: nat)
    requires IsPow2(n)
    ensures IsChunkNum(n * LANES, n)
  {
    assert (n * LANES + LANES - 1) / LANES == n;
  }

  /** The slots in use with an index below `i`. */
  ghost function UpTo(T: Table, i: nat): set<Slot> {
    TagsBelow(T, i / LANES, i % LANES)
  }

  lemma UpToNext(g: Geometry, T: Table, i: nat)
    requires T.Shaped(g) && i < g.n * LANES
    ensures var s := Slot(i / LANES, i % LANES);
            && UpTo(T, i + 1) == TagsBelow(T, s.chunk, s.lane + 1)
            && UpTo(T, i + 1) == if T.Tag(s) != 0 then UpTo(T, i) + {s} else UpTo(T, i)
  {
    var s := Slot(i / LANES, i % LANES);
    if s.lane + 1 == LANES {
      assert (i + 1) / LANES == s.chunk + 1 && (i + 1) % LANES == 0;
      TagsBelowChunk(g, T, s.chunk);
    } else {
      assert (i + 1) / LANES == s.chunk && (i + 1) % LANES == s.lane + 1;
    }
  }

  /** If the slot with index `i` is in use, a lookup finds its key. */
  ghost predicate FoundAt(g: Geometry, T: Table, i: nat)
    requires g.Valid() && T.Shaped(g)
  {
    var s := Slot(i / LANES, i % LANES);
    forall n: nat {:trigger FoundSeal(n)} :: FoundSeal(n) ==> T.Tag(s) != 0 ==> Lookup(g, T, T.KeyAt(s), 0).Some?
  }

  ghost predicate FoundBelow(g: Geometry, T: Table, i: nat)
    requires g.Valid() && T.Shaped(g)
  {
    forall j: nat :: j < i ==> FoundAt(g, T, j)
  }

  ghost predicate AllFound(g: Geometry, T: Table, S: set<Slot>)
    requires g.Valid() && T.Shaped(g)
  {
    forall s :: s in S ==> Lookup(g, T, T.KeyAt(s), 0).Some?
  }

  /** All slots have been looked at when the last index has. */
  lemma FindsAll(g: Geometry, T: Table)
    requires g.Valid() && T.Shaped(g)
    ensures FoundBelow(g, T, g.n * LANES) <==> AllFound(g, T, T.Used())
  {
    assert FoundSeal(0);
    if FoundBelow(g, T, g.n * LANES) {
      forall s | s in T.Used() ensures Lookup(g, T, T.KeyAt(s), 0).Some? {
        IndexOf(g, s);
        assert FoundAt(g, T, s.chunk * LANES + s.lane);
      }
    }
  }

  lemma IndexOf(g: Geometry, s: Slot)
    requires Has(g, s)
    ensures var i := s.chunk * LANES + s.lane; i < g.n * LANES && i / LANES == s.chunk && i % LANES == s.lane
  {}

  lemma UpToSize(g: Geometry, T: Table, i: nat)
    requires T.Shaped(g) && i < g.n * LANES
    ensures |UpTo(T, i + 1)| == |UpTo(T, i)| + if T.Tag(Slot(i / LANES, i % LANES)) != 0 then 1 else 0
  {
    UpToNext(g, T, i);
    TagsBelowNext(T, i / LANES, i % LANES);
  }

  /**
    The slot with index `i` is the first whose key is not found; the lookup says so, or it
    starts over, and on a table that does not change it does so for good.
   */
  ghost predicate Breaks(g: Geometry, T: Table, i: nat, again: bool)
    requires g.Valid() && T.Shaped(g)
  {
    var s := Slot(i / LANES, i % LANES);
    FoundBelow(g, T, i) && T.Tag(s) != 0 && Attempt(g, T, T.KeyAt(s)) == if again then Retry else Absent
  }

  ghost predicate BreaksBelow(g: Geometry, T: Table, n: nat, again: bool)
    requires g.Valid() && T.Shaped(g)
  {
    exists i: nat :: i < n && Breaks(g, T, i, again)
  }

  /** Whether the slot with index `i` is in use, and if so how a lookup of its key ends. */
  method CheckSlot(h: PetHash, i: nat) returns (used: bool, found: bool, again: bool)
    requires h.g.Valid() && h.T().Shaped(h.g) && i < h.g.n * LANES
    ensures |UpTo(h.T(), i + 1)| == |UpTo(h.T(), i)| + if used then 1 else 0
    ensures !used || found <==> FoundAt(h.g, h.T(), i)
    ensures used && !found && FoundBelow(h.g, h.T(), i) ==> Breaks(h.g, h.T(), i, again)
  {
    assert FoundSeal(0);
    UpToSize(h.g, h.T(), i);
    var c, l := i / LANES, i % LANES;
    assert h.T().chunks[c] == h.table[c];
    used, found, again := h.table[c].tags[l] != 0, false, false;
    if used {
      var r;
      r, again := h.GetInternal(h.table[c].keys[l]);
      found := r.Some?;
    }
  }

  lemma AllBelow(g: Geometry, T: Table)
    requires T.Shaped(g)
    ensures UpTo(T, g.n * LANES) == T.Used()
  {
    assert g.n * LANES / LANES == g.n && g.n * LANES % LANES == 0;
  }

  /** How the loop over the slots ends: with all keys found, at a key that is not found, or never. */
  datatype Sweep = Complete(total: nat) | Lost | Endless

  /** Count the slots in use and look up the key of each. */
  method CountFound(h: PetHash) returns (r: Sweep)
    requires h.g.Valid() && h.T().Shaped(h.g)
    ensures r.Complete? <==> FoundBelow(h.g, h.T(), h.g.n * LANES)
    ensures r.Complete? ==> r.total == |UpTo(h.T(), h.g.n * LANES)|
    ensures !r.Complete? ==> BreaksBelow(h.g, h.T(), h.g.n * LANES, r.Endless?)
  {
    ghost var T := h.T();
    var capacity, total := h.g.n * LANES, 0;
    assert UpTo(T, 0) == {};
    for i := 0 to capacity
      invariant total == |UpTo(T, i)| && FoundBelow(h.g, T, i)
    {
      var used, there, again := CheckSlot(h, i);
      if used {
        if !there {
          assert BreaksBelow(h.g, T, capacity, again);
          return if again then Endless else Lost;
        }
        total := total + 1;
      }
    }
    r := Complete(total);
  }

  /** The checks that come before the loop. */
  ghost predicate Fits(g: Geometry, T: Table, capacity: nat, chunkBytes: nat, bytes: nat) {
    T.size <= capacity == g.n * LANES && bytes == HEADER_BYTES + g.n * chunkBytes
  }

  /**
    The check, given the capacity that the table was persisted with. It answers true for
    exactly the tables that pass, and does not end at all if the first key that is not found
    leads over a chunk marked as migrating.
   */
  method CheckValid(h: PetHash, capacity: nat, chunkBytes: nat, bytes: nat) returns (ok: Option<bool>)
    requires h.g.Valid() && h.T().Shaped(h.g) && h.g.n <= 0x8000_0000_0000_0000
    ensures ok == Some(true) <==> capacity == h.g.n * LANES && Passes(h.g, h.T(), chunkBytes, bytes)
    ensures ok.None? ==> Fits(h.g, h.T(), capacity, chunkBytes, bytes)
    ensures ok.None? ==> BreaksBelow(h.g, h.T(), capacity, true)
    ensures h.T().Quiet() ==> ok.Some?
  {
    ghost var T := h.T();
    if capacity == 0 && bytes > 0 {
      return Some(false);
    }
    if h.size > capacity || h.g.n * LANES != capacity {
      return Some(false);
    }
    OwnCapacity(h.g.n);
    var expected := MemorySize(capacity, chunkBytes);
    MemoryRoundTrip(capacity, h.g.n, chunkBytes, expected);
    if bytes != expected {
      return Some(false);
    }
    var sweep := CountFound(h);
    AllBelow(h.g, T);
    FindsAll(h.g, T);
    if sweep.Endless? {
      NeverEndless(h.g, T);
      return None;
    }
    if sweep.Lost? {
      return Some(false);
    }
    var sum := SumAll(h);
    ok := Some(sweep.total == sum && sweep.total == h.size);
  }

  /** Without marks the check comes to an end. */
  lemma NeverEndless(g: Geometry, T: Table)
    requires g.Valid() && T.Shaped(g)
    ensures T.Quiet() ==> !BreaksBelow(g, T, g.n * LANES, true)
  {
    if T.Quiet() {
      forall i: nat | i < g.n * LANES ensures !Breaks(g, T, i, true) {
        QuietIsUntouched(g, T, T.KeyAt(Slot(i / LANES, i % LANES)), 0);
      }
    }
  }

  method SumAll(h: PetHash) returns (sum: nat)
    requires h.T().Shaped(h.g)
    ensures sum == SumSizes(h.T(), h.g.n)
  {
    ghost var T := h.T();
    sum := 0;
    for c := 0 to h.g.n
      invariant sum == SumSizes(T, c)
    {
      assert T.chunks[c] == h.table[c];
      sum := sum + h.table[c].size;
    }
  }
}
