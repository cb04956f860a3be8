/** Hotness-aware migration as code: the chain marks, the search for room, the stores and the counters. */
module Hotness {
  import opened Options
  import opened Probe
  import opened Table
  import opened Writer
  import opened Changes
  import opened Migration
  import opened PetHash

  // ---- Steps of a migration ----

  /** `T'` holds the items of `T`; counters and marks may differ. */
  ghost predicate Loose(T: Table, T': Table) {
    && T'.size == T.size && |T'.chunks| == |T.chunks|
    && forall c: nat :: c < |T.chunks| ==>
      T'.chunks[c] == T.chunks[c].(overflow := T'.chunks[c].overflow, migrating := T'.chunks[c].migrating)
  }

  lemma LooseItem(T: Table, T': Table, u: Slot)
    requires Loose(T, T')
    ensures SameItemAt(T, u, T', u)
  {}

  lemma LooseTrans(T: Table, T': Table, T'': Table)
    requires Loose(T, T') && Loose(T', T'')
    ensures Loose(T, T'')
  {}

  /** Write an item and its tag, and set the size of its chunk. */
  function PutItem(g: Geometry, T: Table, s: Slot, t: nat, k: Key, v: Val, size: nat): Table
    requires T.Shaped(g) && Has(g, s)
  {
    T.Put(s.chunk, T.chunks[s.chunk].WriteItem(s.lane, k, v).WriteTag(s.lane, t).(size := size))
  }

  lemma PutItemSlots(g: Geometry, T: Table, s: Slot, t: nat, k: Key, v: Val, size: nat)
    requires T.Shaped(g) && Has(g, s)
    ensures var T' := PutItem(g, T, s, t, k, v, size);
            && T'.Shaped(g) && T'.size == T.size && T'.Tag(s) == t && T'.KeyAt(s) == k && T'.ValAt(s) == v
            && (forall u :: u != s ==> SameItemAt(T, u, T', u))
            && (forall c: nat :: c < g.n ==> T'.chunks[c].size == if c == s.chunk then size else T.chunks[c].size)
            && (forall c: nat :: T'.Overflow(c) == T.Overflow(c))
            && (forall c: nat :: c < g.n ==> T'.chunks[c].migrating == T.chunks[c].migrating)
  {
    var T' := PutItem(g, T, s, t, k, v, size);
    forall u | u != s ensures SameItemAt(T, u, T', u) {
      if u.chunk == s.chunk { assert u.lane != s.lane; }
    }
  }

  lemma PutItemAt(g: Geometry, T: Table, s: Slot, t: nat, k: Key, v: Val, size: nat, u: Slot)
    requires T.Shaped(g) && Has(g, s)
    ensures var T' := PutItem(g, T, s, t, k, v, size);
            if u == s then T'.Tag(u) == t && T'.KeyAt(u) == k && T'.ValAt(u) == v else SameItemAt(T, u, T', u)
  {
    PutItemSlots(g, T, s, t, k, v, size);
  }

  /** The tables a case-2 migration goes through, but for counters and marks. */
  ghost predicate Rotation(g: Geometry, T0: Table, T2: Table, T3: Table, T4: Table, T5: Table, T6: Table, T7: Table,
                           cur: Slot, via: Slot, to: Slot)
    requires g.Valid()
  {
    && T0.Shaped(g) && Has(g, cur) && Has(g, via) && Has(g, to)
    && T0.Tag(cur) != 0 && T0.Tag(via) != 0 && T0.Tag(to) == 0 && cur.chunk != via.chunk && via.chunk != to.chunk
    && T2.Shaped(g) && Loose(T0, T2)
    && T3 == PutItem(g, T2, to, T0.Tag(via), T0.KeyAt(via), T0.ValAt(via), T2.chunks[to.chunk].size + 1)
    && T4.Shaped(g) && Loose(T3, T4)
    && T5 == PutItem(g, T4, via, T0.Tag(cur), T0.KeyAt(cur), T0.ValAt(cur), T4.chunks[via.chunk].size)
    && T5.Shaped(g) && T5.chunks[cur.chunk].size > 0
    && T6 == PutItem(g, T5, cur, 0, NO_KEY, T5.ValAt(cur), T5.chunks[cur.chunk].size - 1)
    && Loose(T6, T7)
  }

  lemma RotationItem(g: Geometry, T0: Table, T2: Table, T3: Table, T4: Table, T5: Table, T6: Table, T7: Table,
                     cur: Slot, via: Slot, to: Slot, u: Slot)
    requires g.Valid() && Rotation(g, T0, T2, T3, T4, T5, T6, T7, cur, via, to)
    ensures u == cur ==> T7.Tag(u) == 0 && T7.KeyAt(u) == NO_KEY
    ensures u == via ==> SameItemAt(T0, cur, T7, u)
    ensures u == to ==> SameItemAt(T0, via, T7, u)
    ensures u != cur && u != via && u != to ==> SameItemAt(T0, u, T7, u)
  {
    LooseItem(T0, T2, u);
    PutItemAt(g, T2, to, T0.Tag(via), T0.KeyAt(via), T0.ValAt(via), T2.chunks[to.chunk].size + 1, u);
    LooseItem(T3, T4, u);
    PutItemAt(g, T4, via, T0.Tag(cur), T0.KeyAt(cur), T0.ValAt(cur), T4.chunks[via.chunk].size, u);
    PutItemAt(g, T5, cur, 0, NO_KEY, T5.ValAt(cur), T5.chunks[cur.chunk].size - 1, u);
    LooseItem(T6, T7, u);
  }

  lemma RotationSize(g: Geometry, T0: Table, T2: Table, T3: Table, T4: Table, T5: Table, T6: Table, T7: Table,
                     cur: Slot, via: Slot, to: Slot, c: nat)
    requires g.Valid() && Rotation(g, T0, T2, T3, T4, T5, T6, T7, cur, via, to) && c < g.n
    ensures |T7.chunks| == g.n && T7.size == T0.size
    ensures T7.chunks[c].size + (if c == cur.chunk then 1 else 0)
            == T0.chunks[c].size + (if c == to.chunk then 1 else 0)
  {
    PutItemSlots(g, T2, to, T0.Tag(via), T0.KeyAt(via), T0.ValAt(via), T2.chunks[to.chunk].size + 1);
    PutItemSlots(g, T4, via, T0.Tag(cur), T0.KeyAt(cur), T0.ValAt(cur), T4.chunks[via.chunk].size);
    PutItemSlots(g, T5, cur, 0, NO_KEY, T5.ValAt(cur), T5.chunks[cur.chunk].size - 1);
  }

  /** Where the items of a rotation end up, slot by slot. */
  ghost predicate ItemsRotated(T0: Table, T7: Table, cur: Slot, via: Slot, to: Slot) {
    forall u ::
      && (u == cur ==> T7.Tag(u) == 0 && T7.KeyAt(u) == NO_KEY)
      && (u == via ==> SameItemAt(T0, cur, T7, u))
      && (u == to ==> SameItemAt(T0, via, T7, u))
      && (u != cur && u != via && u != to ==> SameItemAt(T0, u, T7, u))
  }

  /** One item fewer in the chunk of `cur`, one more in that of `to`. */
  ghost predicate SizesRotated(g: Geometry, T0: Table, T7: Table, cur: Slot, to: Slot) {
    && |T0.chunks| == g.n && |T7.chunks| == g.n && T7.size == T0.size
    && forall c: nat :: c < g.n ==>
         T7.chunks[c].size + (if c == cur.chunk then 1 else 0) == T0.chunks[c].size + (if c == to.chunk then 1 else 0)
  }

  lemma RotatedIs(g: Geometry, T0: Table, T7: Table, cur: Slot, via: Slot, to: Slot)
    requires T0.Shaped(g) && Has(g, cur) && Has(g, via) && Has(g, to)
    requires T0.Tag(cur) != 0 && T0.Tag(via) != 0 && T0.Tag(to) == 0 && cur.chunk != via.chunk && via.chunk != to.chunk
    requires ItemsRotated(T0, T7, cur, via, to) && SizesRotated(g, T0, T7, cur, to)
    ensures Rotated(T0, T7, cur, via, to)
  {}

  lemma RotationRotates(g: Geometry, T0: Table, T2: Table, T3: Table, T4: Table, T5: Table, T6: Table, T7: Table,
                        cur: Slot, via: Slot, to: Slot)
    requires g.Valid() && Rotation(g, T0, T2, T3, T4, T5, T6, T7, cur, via, to)
    ensures Rotated(T0, T7, cur, via, to)
  {
    assert ItemsRotated(T0, T7, cur, via, to) by {
      forall u
        ensures u == cur ==> T7.Tag(u) == 0 && T7.KeyAt(u) == NO_KEY
        ensures u == via ==> SameItemAt(T0, cur, T7, u)
        ensures u == to ==> SameItemAt(T0, via, T7, u)
        ensures u != cur && u != via && u != to ==> SameItemAt(T0, u, T7, u)
      {
        RotationItem(g, T0, T2, T3, T4, T5, T6, T7, cur, via, to, u);
      }
    }
    assert SizesRotated(g, T0, T7, cur, to) by {
      RotationSize(g, T0, T2, T3, T4, T5, T6, T7, cur, via, to, cur.chunk);
      forall c: nat | c < g.n
        ensures T7.chunks[c].size + (if c == cur.chunk then 1 else 0)
                == T0.chunks[c].size + (if c == to.chunk then 1 else 0)
      {
        RotationSize(g, T0, T2, T3, T4, T5, T6, T7, cur, via, to, c);
      }
    }
    RotatedIs(g, T0, T7, cur, via, to);
  }

  // ---- Its counting ----

  /** From the hot key's old slot to the counters still to be lowered for it. */
  lemma HotUncounted(g: Geometry, T4: Table, T5: Table, T6: Table, S: set<Slot>, cur: Slot)
    requires g.Valid() && cur in S && T4.Counts(g, S, multiset{}, false)
    requires forall s :: s in S ==> T5.KeyAt(s) == T4.KeyAt(s)
    requires forall s :: s in S && s != cur ==> T6.KeyAt(s) == T5.KeyAt(s)
    requires forall c: nat :: T4.Overflow(c) == T5.Overflow(c) && T6.Overflow(c) == T5.Overflow(c)
    ensures var k := T4.KeyAt(cur); T6.Counts(g, S - {cur}, Path(g, k, 0, g.Rank(k, cur.chunk)), false)
  {
    var k, S' := T4.KeyAt(cur), S - {cur};
    var path := Path(g, k, 0, g.Rank(k, cur.chunk));
    CountsFrame(g, T4, T5, S, multiset{}, false);
    assert S' + {cur} == S && multiset{} + path == path;
    Recount(g, T5, S', cur, multiset{}, false);
    CountsFrame(g, T5, T6, S', path, false);
  }

  /** A key in its home chunk passes through no chunk. */
  lemma HomeCounted(g: Geometry, T: Table, S: set<Slot>, s: Slot)
    requires g.Valid() && s !in S && s.chunk == g.Home(T.KeyAt(s)) && T.Counts(g, S, multiset{}, false)
    ensures T.Counts(g, S + {s}, multiset{}, false)
  {
    g.RankOfPos(T.KeyAt(s), 0);
    assert multiset{} + Path(g, T.KeyAt(s), 0, 0) == multiset{};
    Recount(g, T, S, s, multiset{}, false);
  }

  // ---- Code ----

  /** One step back along a key's path. */
  function PrevChunk(g: Geometry, pos: nat, step: nat): (r: nat)
    requires g.Valid()
    ensures r < g.n
  {
    (pos - step) % g.n
  }

  method Mark(h: PetHash, c: nat, flag: bool)
    requires h.g.Valid() && h.T().Shaped(h.g) && c < h.g.n
    modifies h.table
    ensures h.T().Shaped(h.g) && Loose(old(h.T()), h.T()) && Marks(old(h.T()), h.T())
    ensures forall d: nat :: d < h.g.n ==>
            h.T().chunks[d].migrating == if d == c then flag else old(h.T()).chunks[d].migrating
  {
    assert h.T().chunks[c] == h.table[c];
    h.StoreChunk(c, h.table[c].(migrating := flag));
  }

  /** Only marks differ. */
  ghost predicate Marks(T: Table, T': Table) {
    forall c: nat :: T'.Overflow(c) == T.Overflow(c)
  }

  /** The chunks whose rank for `key` is above `i` and at most `r` carry mark `flag`, the others are as before. */
  ghost predicate MarkedBetween(g: Geometry, T: Table, T': Table, key: Key, i: int, r: nat, flag: bool)
    requires T.Shaped(g) && T'.Shaped(g)
  {
    forall d: nat :: d < g.n ==>
      T'.chunks[d].migrating == if i < g.Rank(key, d) <= r then flag else T.chunks[d].migrating
  }

  /** Mark or unmark the chunks from `cc` back to the key's home. */
  method MarkChain(h: PetHash, key: Key, cc: nat, flag: bool)
    requires h.g.Valid() && h.T().Shaped(h.g) && cc < h.g.n
    modifies h.table
    ensures h.T().Shaped(h.g) && Loose(old(h.T()), h.T()) && Marks(old(h.T()), h.T())
    ensures MarkedBetween(h.g, old(h.T()), h.T(), key, -1, h.g.Rank(key, cc), flag)
  {
    var g := h.g;
    var pos, home := cc, g.Home(key);
    ghost var i: nat, r: nat := g.Rank(key, cc), g.Rank(key, cc);
    g.PosOfRank(key, cc);
    while pos != home
      invariant i <= r && pos == g.Pos(key, i) && h.T().Shaped(g) && Loose(old(h.T()), h.T())
                && Marks(old(h.T()), h.T())
      invariant MarkedBetween(g, old(h.T()), h.T(), key, i, r, flag)
      decreases i
    {
      assert i > 0;
      ghost var T1 := h.T();
      g.RankOfPos(key, i);
      RankSplits(g, key, i);
      Mark(h, pos, flag);
      LooseTrans(old(h.T()), T1, h.T());
      g.PosBack(key, i - 1);
      pos := PrevChunk(g, pos, g.Step(key));
      i := i - 1;
    }
    ghost var T1 := h.T();
    if i > 0 { g.PosInjective(key, 0, i); }
    RankSplits(g, key, 0);
    Mark(h, pos, flag);
    LooseTrans(old(h.T()), T1, h.T());
  }

  /** Only one chunk has a given rank. */
  lemma RankSplits(g: Geometry, key: Key, i: nat)
    requires g.Valid() && i < g.n
    ensures g.Rank(key, g.Pos(key, i)) == i
    ensures forall d: nat :: d < g.n && g.Rank(key, d) == i ==> d == g.Pos(key, i)
  {
    g.RankOfPos(key, i);
    forall d: nat | d < g.n && g.Rank(key, d) == i ensures d == g.Pos(key, i) { g.PosOfRank(key, d); }
  }

  /** How often steps `i` to `r` of the key's path come to chunk `c`. */
  ghost function Hits(g: Geometry, k: Key, i: nat, r: nat, c: nat): nat
    requires g.Valid()
    decreases r - i
  {
    if i >= r then 0 else (if g.Pos(k, i) == c then 1 else 0) + Hits(g, k, i + 1, r, c)
  }

  lemma {:induction false} HitsOnPath(g: Geometry, k: Key, i: nat, r: nat, c: nat)
    requires g.Valid()
    ensures Hits(g, k, i, r, c) == Path(g, k, i, r)[c]
    decreases r - i
  {
    if i < r { HitsOnPath(g, k, i + 1, r, c); }
  }

  lemma {:induction false} HitsExtend(g: Geometry, k: Key, i: nat, r: nat, c: nat)
    requires g.Valid() && i <= r
    ensures Hits(g, k, i, r + 1, c) == Hits(g, k, i, r, c) + if g.Pos(k, r) == c then 1 else 0
    decreases r - i
  {
    if i < r { HitsExtend(g, k, i + 1, r, c); }
  }

  /** The counters count the slots of `S` and one more pass over the first `due` steps of the key's path. */
  ghost predicate Owed(g: Geometry, T: Table, S: set<Slot>, key: Key, due: nat)
    requires g.Valid()
  {
    forall c: nat :: c < g.n ==> CountOk(T.Overflow(c), |T.Passers(g, S, c)| + Hits(g, key, 0, due, c), false)
  }

  lemma OwedIsCounts(g: Geometry, T: Table, S: set<Slot>, key: Key, due: nat)
    requires g.Valid()
    ensures Owed(g, T, S, key, due) <==> T.Counts(g, S, Path(g, key, 0, due), false)
  {
    if Owed(g, T, S, key, due) {
      forall c: nat | c < g.n ensures CountOk(T.Overflow(c), |T.Passers(g, S, c)| + Path(g, key, 0, due)[c], false) {
        HitsOnPath(g, key, 0, due, c);
        assert CountOk(T.Overflow(c), |T.Passers(g, S, c)| + Hits(g, key, 0, due, c), false);
      }
    }
    if T.Counts(g, S, Path(g, key, 0, due), false) {
      forall c: nat | c < g.n ensures CountOk(T.Overflow(c), |T.Passers(g, S, c)| + Hits(g, key, 0, due, c), false) {
        HitsOnPath(g, key, 0, due, c);
        assert CountOk(T.Overflow(c), |T.Passers(g, S, c)| + Path(g, key, 0, due)[c], false);
      }
    }
  }

  /** A chunk of the chain, unmarked and with its counter lowered unless the key is leaving this chunk. */
  function Unchained(ch: Chunk, lower: bool): Chunk {
    if lower then ch.(migrating := false).DecOverflow() else ch.(migrating := false)
  }

  /** How far along the path the counters still have to be lowered when the chunk of rank `i` is next. */
  ghost function Due(g: Geometry, key: Key, cc: nat, i: nat): nat {
    if i < g.Rank(key, cc) then i + 1 else i
  }

  lemma UnchainCounts(g: Geometry, T: Table, S: set<Slot>, key: Key, cc: nat, i: nat)
    requires g.Valid() && T.Shaped(g) && cc < g.n && i <= g.Rank(key, cc)
    requires Owed(g, T, S, key, Due(g, key, cc, i))
    ensures var c := g.Pos(key, i);
            Owed(g, T.Put(c, Unchained(T.chunks[c], c != cc)), S, key, i)
  {
    var p := g.Pos(key, i);
    var T' := T.Put(p, Unchained(T.chunks[p], p != cc));
    g.RankOfPos(key, i);
    g.PosOfRank(key, cc);
    forall c: nat | c < g.n ensures CountOk(T'.Overflow(c), |T'.Passers(g, S, c)| + Hits(g, key, 0, i, c), false) {
      PassersFrame(g, T, T', S, c);
      HitsExtend(g, key, 0, i, c);
      assert CountOk(T.Overflow(c), |T.Passers(g, S, c)| + Hits(g, key, 0, Due(g, key, cc, i), c), false);
    }
  }

  /** The chain is unmarked and lowered above rank `i`. */
  ghost predicate Unwinding(g: Geometry, T0: Table, T: Table, S: set<Slot>, key: Key, cc: nat, i: int, due: nat) {
    // A single case, so that the predicate stays folded where it is only passed on.
    match T
    case Table(_, _) =>
      && g.Valid() && T0.Shaped(g) && T.Shaped(g) && Loose(T0, T) && cc < g.n
      && Owed(g, T, S, key, due) && MarkedBetween(g, T0, T, key, i, g.Rank(key, cc), false)
  }

  lemma UnwindingNext(g: Geometry, T0: Table, T: Table, S: set<Slot>, key: Key, cc: nat, i: nat)
    requires Unwinding(g, T0, T, S, key, cc, i, Due(g, key, cc, i)) && i <= g.Rank(key, cc)
    ensures |T.chunks| == g.n && g.Pos(key, i) < g.n
    ensures var c := g.Pos(key, i); Unwinding(g, T0, T.Put(c, Unchained(T.chunks[c], c != cc)), S, key, cc, i - 1, i)
  {
    var c := g.Pos(key, i);
    UnchainCounts(g, T, S, key, cc, i);
    RankSplits(g, key, i);
    LooseTrans(T0, T, T.Put(c, Unchained(T.chunks[c], c != cc)));
  }

  method Unchain(h: PetHash, key: Key, c: nat, cc: nat, ghost i: nat, ghost S: set<Slot>, ghost T0: Table)
    requires Unwinding(h.g, T0, h.T(), S, key, cc, i, Due(h.g, key, cc, i)) && i <= h.g.Rank(key, cc)
             && c == h.g.Pos(key, i)
    modifies h.table
    ensures Unwinding(h.g, T0, h.T(), S, key, cc, i - 1, i)
  {
    UnwindingNext(h.g, T0, h.T(), S, key, cc, i);
    assert h.T().chunks[c] == h.table[c];
    h.StoreChunk(c, Unchained(h.table[c], c != cc));
  }

  /** Unmark the chain from `cc` back to the key's home and lower its counters, that of `cc` excepted. */
  method LowerChain(h: PetHash, key: Key, cc: nat, ghost S: set<Slot>)
    requires h.g.Valid() && h.T().Shaped(h.g) && cc < h.g.n && cc != h.g.Home(key)
    requires Owed(h.g, h.T(), S, key, h.g.Rank(key, cc))
    modifies h.table
    ensures Unwinding(h.g, old(h.T()), h.T(), S, key, cc, -1, 0)
  {
    var g := h.g;
    var pos, home := cc, g.Home(key);
    ghost var T0 := h.T();
    ghost var i: nat := g.Rank(key, cc);
    g.PosOfRank(key, cc);
    while pos != home
      invariant i <= g.Rank(key, cc) && pos == g.Pos(key, i)
                && Unwinding(g, T0, h.T(), S, key, cc, i, Due(g, key, cc, i))
      decreases i
    {
      Unchain(h, key, pos, cc, i, S, T0);
      g.PosBack(key, i - 1);
      pos := PrevChunk(g, pos, g.Step(key));
      i := i - 1;
    }
    OnlyAtStart(g, key, i);
    Unchain(h, key, pos, cc, i, S, T0);
  }

  /** A key comes by its home chunk only at the start. */
  lemma OnlyAtStart(g: Geometry, key: Key, i: nat)
    requires g.Valid() && i < g.n && g.Pos(key, i) == g.Home(key)
    ensures i == 0
  {
    if i > 0 { g.PosInjective(key, 0, i); }
  }

  /** A table below its load limit has a chunk with room. */
  lemma SomeRoom(g: Geometry, T: Table) returns (c: nat)
    requires g.Valid() && T.Shaped(g) && T.Sized() && !IsFull(g, T.size)
    ensures c < g.n && T.chunks[c].size != LANES
  {
    if forall c: nat :: c < g.n ==> T.chunks[c].size == LANES { AllFull(g, T); }
    c :| c < g.n && T.chunks[c].size != LANES;
  }

  /** The counters count the slots of `S`, and a victim that left step `r` of its path and is now at step `q`. */
  ghost predicate Sought(g: Geometry, T: Table, S: set<Slot>, v: Key, r: nat, q: nat)
    requires g.Valid()
  {
    forall c: nat :: c < g.n ==>
      CountOk(T.Overflow(c), |T.Passers(g, S, c)| + Hits(g, v, 0, r, c) + Hits(g, v, r + 1, q, c), false)
  }

  /** The victim, gone from its place `r`, is at step `q` of its path; only counters have changed, and they count it. */
  ghost predicate Seeking(g: Geometry, T1: Table, T: Table, S: set<Slot>, v: Key, r: nat, q: nat) {
    // A single case, so that the predicate stays folded where it is only passed on.
    match T
    case Table(_, _) => g.Valid() && T.Shaped(g) && r < q && CountersOnly(T1, T) && Sought(g, T, S, v, r, q)
  }

  lemma SeekingStarts(g: Geometry, T: Table, S: set<Slot>, v: Key, r: nat)
    requires g.Valid() && T.Shaped(g) && T.Counts(g, S, Path(g, v, 0, r), false)
    ensures Seeking(g, T, T, S, v, r, r + 1)
  {
    forall c: nat | c < g.n
      ensures CountOk(T.Overflow(c), |T.Passers(g, S, c)| + Hits(g, v, 0, r, c) + Hits(g, v, r + 1, r + 1, c), false)
    {
      HitsOnPath(g, v, 0, r, c);
      assert CountOk(T.Overflow(c), |T.Passers(g, S, c)| + Path(g, v, 0, r)[c], false);
    }
  }

  lemma SeekingNext(g: Geometry, T1: Table, T: Table, S: set<Slot>, v: Key, r: nat, q: nat)
    requires Seeking(g, T1, T, S, v, r, q)
    ensures var c := g.Pos(v, q); Seeking(g, T1, T.Put(c, T.chunks[c].IncOverflow()), S, v, r, q + 1)
  {
    var pos := g.Pos(v, q);
    var T' := T.Put(pos, T.chunks[pos].IncOverflow());
    RaisedOnly(g, T, pos);
    CountersOnlyTrans(T1, T, T');
    forall c: nat | c < g.n
      ensures CountOk(T'.Overflow(c), |T'.Passers(g, S, c)| + Hits(g, v, 0, r, c) + Hits(g, v, r + 1, q + 1, c), false)
    {
      PassersFrame(g, T, T', S, c);
      HitsExtend(g, v, r + 1, q, c);
      assert CountOk(T.Overflow(c), |T.Passers(g, S, c)| + Hits(g, v, 0, r, c) + Hits(g, v, r + 1, q, c), false);
    }
  }

  lemma {:induction false} HitsJoin(g: Geometry, k: Key, i: nat, r: nat, q: nat, c: nat)
    requires g.Valid() && i <= r < q
    ensures Hits(g, k, i, q, c) == Hits(g, k, i, r, c) + (if g.Pos(k, r) == c then 1 else 0) + Hits(g, k, r + 1, q, c)
    decreases r - i
  {
    if i < r { HitsJoin(g, k, i + 1, r, q, c); }
  }

  /** From the victim's search for room to its new slot: it is counted there once its old chunk's counter is raised. */
  lemma VictimCounted(g: Geometry, T1: Table, T2: Table, T3: Table, T4: Table, S: set<Slot>, v: Key, home: nat,
                      to: Slot, q: nat)
    requires Seeking(g, T1, T2, S, v, g.Rank(v, home), q)
    requires T3.Shaped(g) && home < g.n && to !in S && to.chunk == g.Pos(v, q) && T3.KeyAt(to) == v
    requires (forall s :: s in S ==> T2.KeyAt(s) == T3.KeyAt(s)) && (forall c: nat :: T3.Overflow(c) == T2.Overflow(c))
    requires T4 == T3.Put(home, T3.chunks[home].IncOverflow())
    ensures T4.Counts(g, S + {to}, multiset{}, false)
  {
    var r := g.Rank(v, home);
    g.PosOfRank(v, home);
    forall c: nat | c < g.n ensures CountOk(T4.Overflow(c), |T4.Passers(g, S, c)| + Hits(g, v, 0, q, c), false) {
      PassersFrame(g, T2, T4, S, c);
      HitsJoin(g, v, 0, r, q, c);
      assert CountOk(T2.Overflow(c), |T2.Passers(g, S, c)| + Hits(g, v, 0, r, c) + Hits(g, v, r + 1, q, c), false);
    }
    OwedIsCounts(g, T4, S, v, q);
    Settle(g, T4, S, to, q);
  }

  /** Raise a full chunk's counter for the victim and go on along the victim's path. */
  method PassVictim(h: PetHash, v: Key, pos: nat, ghost q: nat, ghost r: nat, ghost S: set<Slot>, ghost T1: Table)
    returns (next: nat)
    requires Seeking(h.g, T1, h.T(), S, v, r, q) && pos == h.g.Pos(v, q)
    modifies h.table
    ensures Seeking(h.g, T1, h.T(), S, v, r, q + 1) && next == h.g.Pos(v, q + 1)
  {
    SeekingNext(h.g, T1, h.T(), S, v, r, q);
    assert h.T().chunks[pos] == h.table[pos];
    h.StoreChunk(pos, h.table[pos].IncOverflow());
    next := Wrap(pos + h.g.Step(v), h.g.n);
  }

  /** The search can go on unless the table is at its load limit and the first chunk tried is full. */
  ghost predicate Stranded(g: Geometry, T: Table, v: Key, home: nat)
    requires g.Valid() && T.Shaped(g)
  {
    IsFull(g, T.size) && T.chunks[Wrap(home + g.Step(v), g.n)].size == LANES
  }

  /** Below the load limit, a chunk with room turns up within one round. */
  lemma RoomAhead(g: Geometry, T: Table, v: Key, home: nat) returns (stop: nat)
    requires g.Valid() && T.Shaped(g) && T.Sized() && home < g.n && !Stranded(g, T, v, home)
    ensures stop < g.n && T.chunks[g.Pos(v, g.Rank(v, home) + 1 + stop)].size != LANES
    ensures IsFull(g, T.size) ==> stop == 0
  {
    g.PosOfRank(v, home);
    if IsFull(g, T.size) {
      stop := 0;
    } else {
      var room := SomeRoom(g, T);
      stop := WalkCovers(g, v, g.Rank(v, home), room);
    }
  }

  lemma SeekingSize(g: Geometry, T1: Table, T: Table, S: set<Slot>, v: Key, r: nat, q: nat, c: nat)
    requires Seeking(g, T1, T, S, v, r, q) && c < g.n
    ensures |T.chunks| == |T1.chunks| == g.n && T.size == T1.size && T.chunks[c].size == T1.chunks[c].size
  {}

  method Peek(h: PetHash, pos: nat, v: Key, ghost q: nat, ghost r: nat, ghost S: set<Slot>, ghost T1: Table)
    returns (room: bool, full: bool)
    requires Seeking(h.g, T1, h.T(), S, v, r, q) && T1.Shaped(h.g) && pos < h.g.n
    ensures room <==> T1.chunks[pos].size != LANES
    ensures full <==> IsFull(h.g, T1.size)
  {
    SeekingSize(h.g, T1, h.T(), S, v, r, q, pos);
    var size := h.SizeOf(pos);
    return size != LANES, h.Full();
  }

  /** The loop of the search: at most `n` chunks are tried, and the load limit is checked at each full one. */
  method Search(h: PetHash, v: Key, start: nat, ghost S: set<Slot>, ghost r: nat, ghost T1: Table, ghost stop: nat)
    returns (found: bool, pos: nat, ghost q: nat)
    requires Seeking(h.g, T1, h.T(), S, v, r, r + 1) && start == h.g.Pos(v, r + 1) && stop < h.g.n && T1.Shaped(h.g)
    requires IsFull(h.g, T1.size) ==> stop == 0
    requires !IsFull(h.g, T1.size) ==> T1.chunks[h.g.Pos(v, r + 1 + stop)].size != LANES
    modifies h.table
    ensures found <==> T1.chunks[h.g.Pos(v, r + 1 + stop)].size != LANES
    ensures Seeking(h.g, T1, h.T(), S, v, r, q)
    ensures found ==> pos == h.g.Pos(v, q) && T1.chunks[pos].size != LANES
  {
    var g := h.g;
    pos, q := start, r + 1;
    var i := 0;
    while i < g.n
      invariant i <= stop && q == r + 1 + i && pos == g.Pos(v, q) && Seeking(g, T1, h.T(), S, v, r, q)
    {
      var room, full := Peek(h, pos, v, q, r, S, T1);
      if room {
        return true, pos, q;
      }
      if full {
        return false, pos, q;
      }
      pos := PassVictim(h, v, pos, q, r, S, T1);
      q := q + 1;
      i := i + 1;
    }
    assert false;
  }

  /** The search starts one step on from the chunk the victim leaves. */
  lemma SearchStarts(g: Geometry, T: Table, v: Key, home: nat) returns (stop: nat)
    requires g.Valid() && T.Shaped(g) && T.Sized() && home < g.n
    ensures var r := g.Rank(v, home);
            && g.Pos(v, r + 1) == Wrap(home + g.Step(v), g.n) && stop < g.n
            && (IsFull(g, T.size) ==> stop == 0)
              && (!IsFull(g, T.size) ==> T.chunks[g.Pos(v, r + 1 + stop)].size != LANES)
            && (Stranded(g, T, v, home) <==> T.chunks[g.Pos(v, r + 1 + stop)].size == LANES)
  {
    var r := g.Rank(v, home);
    stop := 0;
    g.PosOfRank(v, home);
    if !Stranded(g, T, v, home) { stop := RoomAhead(g, T, v, home); }
  }

  /**
    Look along the victim's path for a chunk with room. The search gives up only at
    the load limit; otherwise one round is enough, and no counter is raised for nothing.
   */
  method FindRoom(h: PetHash, v: Key, home: nat, ghost S: set<Slot>) returns (found: bool, pos: nat, ghost q: nat)
    requires h.g.Valid() && h.T().Shaped(h.g) && h.T().Sized() && home < h.g.n
    requires h.T().Counts(h.g, S, Path(h.g, v, 0, h.g.Rank(v, home)), false)
    modifies h.table
    ensures found <==> !Stranded(h.g, old(h.T()), v, home)
    ensures Seeking(h.g, old(h.T()), h.T(), S, v, h.g.Rank(v, home), q)
    ensures found ==> pos == h.g.Pos(v, q) && old(h.T()).chunks[pos].size != LANES
  {
    SeekingStarts(h.g, h.T(), S, v, h.g.Rank(v, home));
    ghost var stop := SearchStarts(h.g, h.T(), v, home);
    found, pos, q := Search(h, v, Wrap(home + h.g.Step(v), h.g.n), S, h.g.Rank(v, home), h.T(), stop);
  }

  /** Write an item and its tag and set its chunk's size. */
  method StoreItem(h: PetHash, s: Slot, t: nat, k: Key, v: Val, size: nat)
    requires h.T().Shaped(h.g) && Has(h.g, s)
    modifies h.table
    ensures h.T().Shaped(h.g) && h.T() == PutItem(h.g, old(h.T()), s, t, k, v, size)
  {
    assert h.T().chunks[s.chunk] == h.table[s.chunk];
    h.StoreChunk(s.chunk, h.table[s.chunk].WriteItem(s.lane, k, v).WriteTag(s.lane, t).(size := size));
  }

  // ---- Case 2 ----

  lemma InvWeaken(g: Geometry, T: Table, exact: bool)
    requires T.Inv(g, exact)
    ensures T.Inv(g, false)
  {
    forall c: nat | c < g.n ensures CountOk(T.Overflow(c), |T.Passers(g, T.Used(), c)| + multiset{}[c], false) {
      assert CountOk(T.Overflow(c), |T.Passers(g, T.Used(), c)| + multiset{}[c], exact);
    }
  }

  /** A migration of case 2: the hot key in slot `cur`, the victim in slot `via` of the hot key's home chunk. */
  ghost predicate Crossing(g: Geometry, T: Table, cur: Slot, via: Slot) {
    // A single case, so that the predicate stays folded where it is only passed on.
    match T
    case Table(_, _) =>
      && T.Inv(g, false) && Has(g, cur) && Has(g, via) && T.Tag(cur) != 0 && T.Tag(via) != 0
      && via.chunk == g.Home(T.KeyAt(cur)) && cur.chunk != via.chunk && T.chunks[via.chunk].size == LANES
  }

  /** The chain of the hot key is marked. */
  ghost predicate Chained(g: Geometry, T0: Table, T1: Table, cur: Slot) {
    // A single case, so that the predicate stays folded where it is only passed on.
    match T1
    case Table(_, _) =>
      && T0.Shaped(g) && T1.Shaped(g) && Loose(T0, T1) && Marks(T0, T1)
      && MarkedBetween(g, T0, T1, T0.KeyAt(cur), -1, g.Rank(T0.KeyAt(cur), cur.chunk), true)
  }

  lemma LooseSized(g: Geometry, T: Table, T': Table)
    requires T.Shaped(g) && T'.Shaped(g) && Loose(T, T') && T.Sized()
    ensures T'.Sized() && T'.Used() == T.Used()
  {
    assert T'.Used() == T.Used() by {
      forall u ensures T'.Tag(u) == T.Tag(u) { LooseItem(T, T', u); }
    }
  }

  /** The victim is counted along its path up to its home-chunk stay before the search begins. */
  lemma VictimLeaves(g: Geometry, T0: Table, T1: Table, cur: Slot, via: Slot)
    requires Crossing(g, T0, cur, via) && Chained(g, T0, T1, cur)
    ensures T1.Sized() && T1.size == T0.size
    ensures T1.Counts(g, T0.Used() - {via}, Path(g, T0.KeyAt(via), 0, g.Rank(T0.KeyAt(via), via.chunk)), false)
  {
    LooseSized(g, T0, T1);
    forall s ensures T1.KeyAt(s) == T0.KeyAt(s) { LooseItem(T0, T1, s); }
    HotUncounted(g, T0, T1, T1, T0.Used(), via);
  }

  /** The slot found for the victim is free and outside the home chunk. */
  lemma NewSlot(g: Geometry, T0: Table, T1: Table, T2: Table, cur: Slot, via: Slot, S: set<Slot>, v: Key, r: nat,
                q: nat, to: Slot)
    requires Crossing(g, T0, cur, via) && Chained(g, T0, T1, cur) && Seeking(g, T1, T2, S, v, r, q)
    requires Has(g, to) && T2.Tag(to) == 0 && T1.chunks[to.chunk].size != LANES
    ensures Loose(T0, T2) && T0.Tag(to) == 0 && to.chunk != via.chunk
    ensures forall u :: SameItemAt(T0, u, T2, u)
    ensures forall c: nat :: c < g.n ==>
            T2.chunks[c].migrating == T1.chunks[c].migrating && T2.chunks[c].size == T0.chunks[c].size
  {
    assert Loose(T1, T2);
    LooseTrans(T0, T1, T2);
    forall u ensures SameItemAt(T0, u, T2, u) { LooseItem(T0, T2, u); }
  }

  /** The victim in its new slot is counted once its old chunk's counter is raised. */
  lemma VictimSettles(g: Geometry, T0: Table, T1: Table, T2: Table, T3: Table, T4: Table, cur: Slot, via: Slot,
                      to: Slot, q: nat)
    requires Crossing(g, T0, cur, via) && Chained(g, T0, T1, cur) && Has(g, to) && T2.Shaped(g)
    requires var v := T0.KeyAt(via);
             && Seeking(g, T1, T2, T0.Used() - {via}, v, g.Rank(v, via.chunk), q) && to.chunk == g.Pos(v, q)
             && T2.Tag(to) == 0 && T1.chunks[to.chunk].size != LANES
             && T3 == PutItem(g, T2, to, T0.Tag(via), v, T0.ValAt(via), T2.chunks[to.chunk].size + 1)
    requires T3.Shaped(g) && T4 == T3.Put(via.chunk, T3.chunks[via.chunk].IncOverflow())
    ensures T4.Counts(g, T0.Used() - {via} + {to}, multiset{}, false)
  {
    var v, S := T0.KeyAt(via), T0.Used() - {via};
    NewSlot(g, T0, T1, T2, cur, via, S, v, g.Rank(v, via.chunk), q, to);
    PutItemSlots(g, T2, to, T0.Tag(via), v, T0.ValAt(via), T2.chunks[to.chunk].size + 1);
    forall s | s in S ensures T2.KeyAt(s) == T3.KeyAt(s) { assert SameItemAt(T2, s, T3, s); }
    VictimCounted(g, T1, T2, T3, T4, S, v, via.chunk, to, q);
  }

  /** With the hot key out of its old slot, its path is what the counters have in excess. */
  lemma HotLeaves(g: Geometry, T4: Table, T5: Table, T6: Table, S: set<Slot>, cur: Slot, via: Slot, t: nat, k: Key,
                  v: Val)
    requires g.Valid() && T4.Shaped(g) && T5.Shaped(g) && Has(g, cur) && Has(g, via) && cur in S && via !in S
             && T4.Counts(g, S, multiset{}, false)
    requires T4.KeyAt(cur) == k && T5.chunks[cur.chunk].size > 0
    requires T5 == PutItem(g, T4, via, t, k, v, T4.chunks[via.chunk].size)
    requires T6 == PutItem(g, T5, cur, 0, NO_KEY, T5.ValAt(cur), T5.chunks[cur.chunk].size - 1)
    ensures T6.Counts(g, S - {cur}, Path(g, k, 0, g.Rank(k, cur.chunk)), false)
  {
    PutItemSlots(g, T4, via, t, k, v, T4.chunks[via.chunk].size);
    PutItemSlots(g, T5, cur, 0, NO_KEY, T5.ValAt(cur), T5.chunks[cur.chunk].size - 1);
    forall s | s in S ensures T5.KeyAt(s) == T4.KeyAt(s) { assert SameItemAt(T4, s, T5, s); }
    forall s | s in S && s != cur ensures T6.KeyAt(s) == T5.KeyAt(s) { assert SameItemAt(T5, s, T6, s); }
    HotUncounted(g, T4, T5, T6, S, cur);
  }

  lemma RotationMarks(g: Geometry, T0: Table, T2: Table, T3: Table, T4: Table, T5: Table, T6: Table, T7: Table,
                      cur: Slot, via: Slot, to: Slot)
    requires g.Valid() && Rotation(g, T0, T2, T3, T4, T5, T6, T7, cur, via, to)
    requires forall c: nat :: c < g.n ==> T4.chunks[c].migrating == T3.chunks[c].migrating
    ensures |T6.chunks| == g.n && forall c: nat :: c < g.n ==> T6.chunks[c].migrating == T2.chunks[c].migrating
  {
    PutItemSlots(g, T2, to, T0.Tag(via), T0.KeyAt(via), T0.ValAt(via), T2.chunks[to.chunk].size + 1);
    PutItemSlots(g, T4, via, T0.Tag(cur), T0.KeyAt(cur), T0.ValAt(cur), T4.chunks[via.chunk].size);
    PutItemSlots(g, T5, cur, 0, NO_KEY, T5.ValAt(cur), T5.chunks[cur.chunk].size - 1);
  }

  /** All marks are gone when the chain has been walked twice. */
  lemma Unmarked(g: Geometry, T0: Table, T1: Table, T6: Table, T7: Table, S: set<Slot>, cur: Slot)
    requires T0.Quiet() && Chained(g, T0, T1, cur) && |T6.chunks| == g.n
    requires forall c: nat :: c < g.n ==> T6.chunks[c].migrating == T1.chunks[c].migrating
    requires Unwinding(g, T6, T7, S, T0.KeyAt(cur), cur.chunk, -1, 0)
    ensures T7.Quiet()
  {}

  lemma CaseTwoCounts(g: Geometry, T: Table, U: set<Slot>, cur: Slot, via: Slot, to: Slot)
    requires g.Valid() && via in U && via != cur && via != to && via.chunk == g.Home(T.KeyAt(via))
    requires T.Counts(g, U - {via} + {to} - {cur}, multiset{}, false) && to !in U && cur in U
    ensures T.Counts(g, U - {cur} + {to}, multiset{}, false)
  {
    var S := U - {via} + {to} - {cur};
    HomeCounted(g, T, S, via);
    assert S + {via} == U - {cur} + {to};
  }

  /** Case 2 keeps the map, the size and the invariant, and the hot key ends up in its home chunk. */
  lemma CaseTwo(g: Geometry, T0: Table, T7: Table, cur: Slot, via: Slot, to: Slot)
    requires Crossing(g, T0, cur, via) && Rotated(T0, T7, cur, via, to) && T7.Shaped(g) && T7.Quiet()
    requires T7.Counts(g, T0.Used() - {via} + {to} - {cur}, multiset{}, false)
    ensures T7.Inv(g, false) && T7.Contents() == T0.Contents() && T7.size == T0.size
    ensures SameItemAt(T0, cur, T7, via) && SameItemAt(T0, via, T7, to)
  {
    RotatedKeeps(g, T0, T7, cur, via, to);
    assert SameItemAt(T0, cur, T7, Goes(cur, via, to, cur)) && SameItemAt(T0, via, T7, Goes(cur, via, to, via));
    CaseTwoCounts(g, T7, T0.Used(), cur, via, to);
  }

  /** What the first half of the steps of `Rotation` have done. */
  ghost predicate HalfWay(g: Geometry, T0: Table, T2: Table, T3: Table, T4: Table, cur: Slot, via: Slot, to: Slot)
    requires g.Valid()
  {
    // A single case, so that the predicate stays folded where it is only passed on.
    match T4
    case Table(_, _) =>
      && T0.Shaped(g) && Has(g, cur) && Has(g, via) && Has(g, to)
      && T0.Tag(cur) != 0 && T0.Tag(via) != 0 && T0.Tag(to) == 0 && cur.chunk != via.chunk && via.chunk != to.chunk
      && T2.Shaped(g) && Loose(T0, T2)
      && T3 == PutItem(g, T2, to, T0.Tag(via), T0.KeyAt(via), T0.ValAt(via), T2.chunks[to.chunk].size + 1)
      && T4.Shaped(g) && Loose(T3, T4)
      && (forall c: nat :: c < g.n ==> T4.chunks[c].migrating == T3.chunks[c].migrating)
  }

  lemma BecomesHalfWay(g: Geometry, T0: Table, T1: Table, T2: Table, T3: Table, T4: Table, cur: Slot, via: Slot,
                       to: Slot, q: nat)
    requires Crossing(g, T0, cur, via) && Chained(g, T0, T1, cur) && Has(g, to) && T2.Shaped(g)
    requires var v := T0.KeyAt(via);
             && Seeking(g, T1, T2, T0.Used() - {via}, v, g.Rank(v, via.chunk), q) && to.chunk == g.Pos(v, q)
             && T2.Tag(to) == 0 && T1.chunks[to.chunk].size != LANES
             && T3 == PutItem(g, T2, to, T0.Tag(via), v, T0.ValAt(via), T2.chunks[to.chunk].size + 1)
    requires T3.Shaped(g) && T4 == T3.Put(via.chunk, T3.chunks[via.chunk].IncOverflow())
    ensures HalfWay(g, T0, T2, T3, T4, cur, via, to)
    ensures forall c: nat :: c < g.n ==> T2.chunks[c].migrating == T1.chunks[c].migrating
  {
    NewSlot(g, T0, T1, T2, cur, via, T0.Used() - {via}, T0.KeyAt(via), g.Rank(T0.KeyAt(via), via.chunk), q, to);
  }

  /** Find a place for the victim and put it there; raise its old chunk's counter. */
  method MoveVictim(h: PetHash, cur: Slot, via: Slot, ghost T0: Table)
    returns (done: bool, to: Slot, ghost T2: Table, ghost T3: Table)
    requires Crossing(h.g, T0, cur, via) && Chained(h.g, T0, h.T(), cur)
    modifies h.table
    ensures done <==> !Stranded(h.g, T0, T0.KeyAt(via), via.chunk)
    ensures done ==> HalfWay(h.g, T0, T2, T3, h.T(), cur, via, to)
    ensures done ==> h.T().Counts(h.g, T0.Used() - {via} + {to}, multiset{}, false)
    ensures done ==> forall c: nat :: c < h.g.n ==> T2.chunks[c].migrating == old(h.T()).chunks[c].migrating
  {
    ghost var T1 := h.T();
    var key, value := VictimItem(h, via, T0, cur);
    VictimLeaves(h.g, T0, T1, cur, via);
    var pos; ghost var q;
    done, pos, q := FindRoom(h, key, via.chunk, T0.Used() - {via});
    to, T2, T3 := via, h.T(), h.T();
    if !done {
      return;
    }
    var lane := RoomIn(h, pos, T0, T1, cur, via, key, q);
    to := Slot(pos, lane);
    assert h.T().chunks[pos] == h.table[pos];
    StoreItem(h, to, h.g.Sign(key), key, value, h.table[pos].size + 1);
    T3 := h.T();
    assert h.T().chunks[via.chunk] == h.table[via.chunk];
    h.StoreChunk(via.chunk, h.table[via.chunk].IncOverflow());
    BecomesHalfWay(h.g, T0, T1, T2, T3, h.T(), cur, via, to, q);
    VictimSettles(h.g, T0, T1, T2, T3, h.T(), cur, via, to, q);
  }

  method VictimItem(h: PetHash, via: Slot, ghost T0: Table, ghost cur: Slot) returns (key: Key, value: Val)
    requires Crossing(h.g, T0, cur, via) && Chained(h.g, T0, h.T(), cur)
    ensures key == T0.KeyAt(via) && value == T0.ValAt(via) && T0.Tag(via) == h.g.Sign(key)
  {
    LooseItem(T0, h.T(), via);
    assert h.T().chunks[via.chunk] == h.table[via.chunk];
    return h.table[via.chunk].keys[via.lane], h.table[via.chunk].vals[via.lane];
  }

  /** A chunk that is not full has a free lane. */
  method RoomIn(h: PetHash, pos: nat, ghost T0: Table, ghost T1: Table, ghost cur: Slot, ghost via: Slot, key: Key,
                ghost q: nat) returns (lane: nat)
    requires Crossing(h.g, T0, cur, via) && Chained(h.g, T0, T1, cur) && key == T0.KeyAt(via)
    requires Seeking(h.g, T1, h.T(), T0.Used() - {via}, key, h.g.Rank(key, via.chunk), q) && pos < h.g.n
             && T1.chunks[pos].size != LANES
    ensures lane < LANES && h.T().Tag(Slot(pos, lane)) == 0
  {
    FreeLanes(h.g, T0, T1, h.T(), cur, pos);
    assert h.T().chunks[pos] == h.table[pos];
    lane := PetHash.FirstEmpty(h.table[pos]);
  }

  lemma FreeLanes(g: Geometry, T0: Table, T1: Table, T2: Table, cur: Slot, pos: nat)
    requires T0.Sized() && Chained(g, T0, T1, cur) && T2.Shaped(g) && CountersOnly(T1, T2) && pos < g.n
             && T1.chunks[pos].size != LANES
    ensures |T2.chunks[pos].Lanes()| < LANES
  {
    LooseSized(g, T0, T1);
    assert T2.chunks[pos].Lanes() == T1.chunks[pos].Lanes();
    LanesBound(T1.chunks[pos]);
  }

  lemma CompletesRotation(g: Geometry, T0: Table, T2: Table, T3: Table, T4: Table, T5: Table, T6: Table, T7: Table,
                          cur: Slot, via: Slot, to: Slot)
    requires g.Valid() && HalfWay(g, T0, T2, T3, T4, cur, via, to) && T0.Sized()
    requires T5.Shaped(g) && T5
             == PutItem(g, T4, via, T0.Tag(cur), T0.KeyAt(cur), T0.ValAt(cur), T4.chunks[via.chunk].size)
    requires T5.chunks[cur.chunk].size > 0
             && T6 == PutItem(g, T5, cur, 0, NO_KEY, T5.ValAt(cur), T5.chunks[cur.chunk].size - 1)
    requires Loose(T6, T7)
    ensures Rotation(g, T0, T2, T3, T4, T5, T6, T7, cur, via, to)
  {}

  /** Half way, the hot key is still where it was, and its chunk is not empty. */
  lemma StillThere(g: Geometry, T0: Table, T2: Table, T3: Table, T4: Table, cur: Slot, via: Slot, to: Slot)
    requires g.Valid() && HalfWay(g, T0, T2, T3, T4, cur, via, to) && T0.Sized()
    ensures SameItemAt(T0, cur, T4, cur) && T4.chunks[cur.chunk].size > 0
  {
    LooseItem(T0, T2, cur);
    PutItemSlots(g, T2, to, T0.Tag(via), T0.KeyAt(via), T0.ValAt(via), T2.chunks[to.chunk].size + 1);
    assert SameItemAt(T2, cur, T3, cur);
    LooseItem(T3, T4, cur);
    assert cur.lane in T0.chunks[cur.chunk].Lanes();
  }

  /** Put the hot key in the victim's place, clear its old slot, and lower the counters of its chain. */
  method MoveHot(h: PetHash, cur: Slot, via: Slot, to: Slot, ghost T0: Table, ghost T2: Table, ghost T3: Table)
    returns (ghost T5: Table, ghost T6: Table)
    requires Crossing(h.g, T0, cur, via) && HalfWay(h.g, T0, T2, T3, h.T(), cur, via, to)
    requires h.T().Counts(h.g, T0.Used() - {via} + {to}, multiset{}, false)
    modifies h.table
    ensures Rotation(h.g, T0, T2, T3, old(h.T()), T5, T6, h.T(), cur, via, to)
    ensures Unwinding(h.g, T6, h.T(), T0.Used() - {via} + {to} - {cur}, T0.KeyAt(cur), cur.chunk, -1, 0)
  {
    var g := h.g;
    ghost var T4, S := h.T(), T0.Used() - {via} + {to};
    StillThere(g, T0, T2, T3, T4, cur, via, to);
    assert h.T().chunks[cur.chunk] == h.table[cur.chunk] && h.T().chunks[via.chunk] == h.table[via.chunk];
    var key, value := h.table[cur.chunk].keys[cur.lane], h.table[cur.chunk].vals[cur.lane];
    StoreItem(h, via, g.Sign(key), key, value, h.table[via.chunk].size);
    T5 := h.T();
    assert h.T().chunks[cur.chunk] == h.table[cur.chunk];
    StoreItem(h, cur, 0, NO_KEY, h.table[cur.chunk].vals[cur.lane], h.table[cur.chunk].size - 1);
    T6 := h.T();
    HotLeaves(g, T4, T5, T6, S, cur, via, g.Sign(key), key, value);
    OwedIsCounts(g, T6, S - {cur}, key, g.Rank(key, cur.chunk));
    LowerChain(h, key, cur.chunk, S - {cur});
    CompletesRotation(g, T0, T2, T3, T4, T5, T6, h.T(), cur, via, to);
  }

  /** A lowered and unmarked chain ends a case-2 migration well. */
  lemma SwapEnds(g: Geometry, T0: Table, T1: Table, T2: Table, T3: Table, T4: Table, T5: Table, T6: Table, T7: Table,
                 cur: Slot, via: Slot, to: Slot)
    requires Crossing(g, T0, cur, via) && Chained(g, T0, T1, cur) && HalfWay(g, T0, T2, T3, T4, cur, via, to)
    requires Rotation(g, T0, T2, T3, T4, T5, T6, T7, cur, via, to)
    requires forall c: nat :: c < g.n ==> T2.chunks[c].migrating == T1.chunks[c].migrating
    requires Unwinding(g, T6, T7, T0.Used() - {via} + {to} - {cur}, T0.KeyAt(cur), cur.chunk, -1, 0)
    ensures T7.Inv(g, false) && T7.Contents() == T0.Contents() && T7.size == T0.size
    ensures SameItemAt(T0, cur, T7, via) && SameItemAt(T0, via, T7, to)
  {
    RotationMarks(g, T0, T2, T3, T4, T5, T6, T7, cur, via, to);
    Unmarked(g, T0, T1, T6, T7, T0.Used() - {via} + {to} - {cur}, cur);
    OwedIsCounts(g, T7, T0.Used() - {via} + {to} - {cur}, T0.KeyAt(cur), 0);
    RotationRotates(g, T0, T2, T3, T4, T5, T6, T7, cur, via, to);
    CaseTwo(g, T0, T7, cur, via, to);
  }

  /** Case 2: the home chunk is full, so the key in its first lane makes room. */
  method SwapIn(h: PetHash, cur: Slot, via: Slot, ghost T0: Table) returns (done: bool, to: Slot)
    requires Crossing(h.g, T0, cur, via) && Chained(h.g, T0, h.T(), cur)
    modifies h.table
    ensures done <==> !Stranded(h.g, T0, T0.KeyAt(via), via.chunk)
    ensures done ==> h.T().Inv(h.g, false) && h.T().Contents() == T0.Contents() && h.T().size == T0.size
    ensures done ==> SameItemAt(T0, cur, h.T(), via) && SameItemAt(T0, via, h.T(), to) && to.chunk != via.chunk
  {
    ghost var T1, T2, T3 := h.T(), h.T(), h.T();
    done, to, T2, T3 := MoveVictim(h, cur, via, T0);
    if !done {
      return;
    }
    ghost var T4 := h.T();
    ghost var T5, T6 := MoveHot(h, cur, via, to, T0, T2, T3);
    SwapEnds(h.g, T0, T1, T2, T3, T4, T5, T6, h.T(), cur, via, to);
  }

  // ---- Case 1 ----

  /** The hot key in slot `cur` is away from its home chunk, which has room. */
  ghost predicate Strayed(g: Geometry, T: Table, cur: Slot) {
    // A single case, so that the predicate stays folded where it is only passed on.
    match T
    case Table(_, _) =>
      && T.Inv(g, false) && Has(g, cur) && T.Tag(cur) != 0
      && cur.chunk != g.Home(T.KeyAt(cur)) && T.chunks[g.Home(T.KeyAt(cur))].size != LANES
  }

  /** The tables a case-1 migration goes through. */
  ghost predicate Shift(g: Geometry, T0: Table, T1: Table, T2: Table, T3: Table, T4: Table, T5: Table, cur: Slot,
                        to: Slot)
    requires g.Valid()
  {
    // A single case, so that the predicate stays folded where it is only passed on.
    match T5
    case Table(_, _) =>
      && T0.Shaped(g) && Has(g, cur) && Has(g, to) && T0.Tag(cur) != 0 && T0.Tag(to) == 0 && cur.chunk != to.chunk
      && T1.Shaped(g) && Loose(T0, T1) && Marks(T0, T1)
      && T2 == PutItem(g, T1, to, T0.Tag(cur), T0.KeyAt(cur), T0.ValAt(cur), T1.chunks[to.chunk].size + 1)
      && T2.Shaped(g) && T2.chunks[cur.chunk].size > 0
      && T3 == PutItem(g, T2, cur, 0, NO_KEY, T2.ValAt(cur), T2.chunks[cur.chunk].size - 1) && T3.Shaped(g)
      && T4 == T3.Put(cur.chunk, T3.chunks[cur.chunk].DecOverflow()) && T4.Shaped(g)
      && T5.Shaped(g) && Loose(T4, T5) && Marks(T4, T5)
  }

  lemma ShiftItem(g: Geometry, T0: Table, T1: Table, T2: Table, T3: Table, T4: Table, T5: Table, cur: Slot, to: Slot,
                  u: Slot)
    requires g.Valid() && Shift(g, T0, T1, T2, T3, T4, T5, cur, to)
    ensures u == cur ==> T5.Tag(u) == 0 && T5.KeyAt(u) == NO_KEY
    ensures u == to ==> SameItemAt(T0, cur, T5, u)
    ensures u != cur && u != to ==> SameItemAt(T0, u, T5, u)
  {
    LooseItem(T0, T1, u);
    PutItemSlots(g, T1, to, T0.Tag(cur), T0.KeyAt(cur), T0.ValAt(cur), T1.chunks[to.chunk].size + 1);
    PutItemSlots(g, T2, cur, 0, NO_KEY, T2.ValAt(cur), T2.chunks[cur.chunk].size - 1);
    assert Loose(T3, T4);
    LooseItem(T3, T4, u);
    LooseItem(T4, T5, u);
  }

  lemma ShiftChunk(g: Geometry, T0: Table, T1: Table, T2: Table, T3: Table, T4: Table, T5: Table, cur: Slot, to: Slot,
                   c: nat)
    requires g.Valid() && Shift(g, T0, T1, T2, T3, T4, T5, cur, to) && c < g.n
    ensures T5.chunks[c].size + (if c == cur.chunk then 1 else 0)
            == T0.chunks[c].size + (if c == to.chunk then 1 else 0)
    ensures T5.Overflow(c) == if c == cur.chunk then T0.chunks[c].DecOverflow().overflow else T0.Overflow(c)
    ensures T4.chunks[c].migrating == T1.chunks[c].migrating
  {
    PutItemSlots(g, T1, to, T0.Tag(cur), T0.KeyAt(cur), T0.ValAt(cur), T1.chunks[to.chunk].size + 1);
    PutItemSlots(g, T2, cur, 0, NO_KEY, T2.ValAt(cur), T2.chunks[cur.chunk].size - 1);
    assert T3.Overflow(c) == T0.Overflow(c);
  }

  lemma ShiftRotates(g: Geometry, T0: Table, T1: Table, T2: Table, T3: Table, T4: Table, T5: Table, cur: Slot, to: Slot)
    requires g.Valid() && Shift(g, T0, T1, T2, T3, T4, T5, cur, to)
    ensures Rotated(T0, T5, cur, cur, to)
    ensures forall c: nat :: c < g.n ==>
            T5.Overflow(c) == if c == cur.chunk then T0.chunks[c].DecOverflow().overflow else T0.Overflow(c)
    ensures forall c: nat :: c < g.n ==> T4.chunks[c].migrating == T1.chunks[c].migrating
  {
    forall u
      ensures u == cur ==> T5.Tag(u) == 0 && T5.KeyAt(u) == NO_KEY
      ensures u == to ==> SameItemAt(T0, cur, T5, u)
      ensures u != cur && u != to ==> SameItemAt(T0, u, T5, u)
    {
      ShiftItem(g, T0, T1, T2, T3, T4, T5, cur, to, u);
    }
    forall c: nat | c < g.n
      ensures T5.chunks[c].size + (if c == cur.chunk then 1 else 0)
              == T0.chunks[c].size + (if c == to.chunk then 1 else 0)
      ensures T5.Overflow(c) == if c == cur.chunk then T0.chunks[c].DecOverflow().overflow else T0.Overflow(c)
      ensures T4.chunks[c].migrating == T1.chunks[c].migrating
    {
      ShiftChunk(g, T0, T1, T2, T3, T4, T5, cur, to, c);
    }
  }

  lemma ShiftEnds(g: Geometry, T0: Table, T1: Table, T2: Table, T3: Table, T4: Table, T5: Table, cur: Slot, to: Slot)
    requires Strayed(g, T0, cur) && Chained(g, T0, T1, cur) && Shift(g, T0, T1, T2, T3, T4, T5, cur, to)
    requires MarkedBetween(g, T4, T5, T0.KeyAt(cur), -1, g.Rank(T0.KeyAt(cur), cur.chunk), false)
    requires to.chunk == g.Home(T0.KeyAt(cur))
    ensures MovedHome(g, T0, T5, cur, to)
  {
    ShiftRotates(g, T0, T1, T2, T3, T4, T5, cur, to);
  }

  lemma StrayedRoom(g: Geometry, T0: Table, T1: Table, cur: Slot)
    requires Strayed(g, T0, cur) && Chained(g, T0, T1, cur)
    ensures |T1.chunks[g.Home(T0.KeyAt(cur))].Lanes()| < LANES && T1.chunks[cur.chunk].size > 0
    ensures forall u :: SameItemAt(T0, u, T1, u)
  {
    LooseSized(g, T0, T1);
    LanesBound(T1.chunks[g.Home(T0.KeyAt(cur))]);
    forall u ensures SameItemAt(T0, u, T1, u) { LooseItem(T0, T1, u); }
    assert cur.lane in T1.chunks[cur.chunk].Lanes();
  }

  /** Case 1: the home chunk has room, so the hot key is moved there. */
  method MoveIn(h: PetHash, cur: Slot, ghost T0: Table) returns (to: Slot)
    requires Strayed(h.g, T0, cur) && Chained(h.g, T0, h.T(), cur)
    modifies h.table
    ensures MovedHome(h.g, T0, h.T(), cur, to)
  {
    var g := h.g;
    ghost var T1 := h.T();
    StrayedRoom(g, T0, T1, cur);
    assert SameItemAt(T0, cur, T1, cur);
    assert T1.chunks[cur.chunk] == h.table[cur.chunk];
    var key, value := h.table[cur.chunk].keys[cur.lane], h.table[cur.chunk].vals[cur.lane];
    var home := g.Home(key);
    assert T1.chunks[home] == h.table[home];
    var lane := PetHash.FirstEmpty(h.table[home]);
    to := Slot(home, lane);
    assert SameItemAt(T0, to, T1, to);
    StoreItem(h, to, g.Sign(key), key, value, h.table[home].size + 1);
    ghost var T2 := h.T();
    assert T2.chunks[cur.chunk] == h.table[cur.chunk];
    StoreItem(h, cur, 0, NO_KEY, h.table[cur.chunk].vals[cur.lane], h.table[cur.chunk].size - 1);
    ghost var T3 := h.T();
    assert T3.chunks[cur.chunk] == h.table[cur.chunk];
    h.StoreChunk(cur.chunk, h.table[cur.chunk].DecOverflow());
    ghost var T4 := h.T();
    MarkChain(h, key, cur.chunk, false);
    ShiftEnds(g, T0, T1, T2, T3, T4, h.T(), cur, to);
  }

  // ---- One hot key ----

  /** How the migration of one hot key ends; in the last two cases the program aborts. */
  datatype Outcome = AtHome | MovedIn(from: Slot, to: Slot) | Swapped(from: Slot, via: Slot,
      to: Slot) | Missing | GaveUp

  /** What a migration of `key` from table `T` comes to. */
  ghost predicate Ends(g: Geometry, T: Table, key: Key, o: Outcome)
    requires g.Valid() && T.Shaped(g)
  {
    var home := g.Home(key);
    if T.chunks[home].Match(key, g.Sign(key)).Some? then o.AtHome?
    else if key !in T.Contents() then o.Missing?
    else if T.chunks[home].size != LANES then o.MovedIn?
    else if Stranded(g, T, T.KeyAt(Slot(home, 0)), home) then o.GaveUp?
    else o.Swapped?
  }

  /**
    The table is 90 per cent full, and the first chunk that the key in lane 0 of the home
    chunk would go to is full.
   */
  ghost predicate Hemmed(g: Geometry, T: Table, key: Key)
    requires g.Valid() && T.Shaped(g)
  {
    var home := g.Home(key);
    var victim := T.chunks[home].keys[0];
    10 * T.size >= 9 * 14 * g.n && T.chunks[(home + 2 * g.Sign(victim) + 1) % g.n].size == 14
  }

  lemma HemmedIsStranded(g: Geometry, T: Table, key: Key)
    requires g.Valid() && T.Shaped(g)
    ensures Hemmed(g, T, key) <==> Stranded(g, T, T.KeyAt(Slot(g.Home(key), 0)), g.Home(key))
  {
    FullInNumbers(g, T.size);
    WrapIsMod(g.Home(key) + g.Step(T.KeyAt(Slot(g.Home(key), 0))), g.n);
  }

  /** Case 1 keeps the invariant exactly on these tables. */
  ghost predicate Spared(g: Geometry, T: Table, from: Slot) {
    var o := T.Overflow(from.chunk);
    o == 0 || o == STUCK || o > |T.Passers(g, T.Used(), from.chunk)|
  }

  lemma HotSlot(g: Geometry, T: Table, key: Key, cur: Slot)
    requires T.Inv(g, false) && T.chunks[g.Home(key)].Match(key, g.Sign(key)).None? && Lookup(g, T, key, 0) == Some(cur)
    ensures Has(g, cur) && T.Tag(cur) != 0 && T.KeyAt(cur) == key && cur.chunk != g.Home(key)
  {
    LookupSound(g, T, key, 0);
    assert T.Tag(cur) != 0;
    MatchOnlyThere(g, T, cur, cur.chunk);
  }

  lemma FirstLaneUsed(g: Geometry, T: Table, c: nat)
    requires T.Shaped(g) && T.Sized() && c < g.n && T.chunks[c].size == LANES
    ensures T.Tag(Slot(c, 0)) != 0
  {
    FullChunkUsesAll(T.chunks[c], 0);
  }

  /** Mark the chain, then move the key in or swap it with the first key of its home chunk. */
  method MoveHome(h: PetHash, key: Key, cur: Slot) returns (o: Outcome)
    requires h.g.Valid() && h.T().Inv(h.g, false) && Has(h.g, cur) && h.T().Tag(cur) != 0 && h.T().KeyAt(cur) == key
             && cur.chunk != h.g.Home(key)
    modifies h, h.table
    ensures Moved(h.g, old(h.T()), h.T(), key, o)
    ensures o.MovedIn? ==> (h.Valid() <==> Spared(h.g, old(h.T()), o.from))
    ensures o.Swapped? ==> h.Valid()
  {
    var g := h.g;
    ghost var T0 := h.T();
    var home := g.Home(key);
    var room := h.SizeOf(home);
    MarkChain(h, key, cur.chunk, true);
    if room != LANES {
      var to := MoveIn(h, cur, T0);
      CaseOneExactly(g, T0, h.T(), cur, to);
      Restart(h);
      return MovedIn(cur, to);
    }
    var via := Slot(home, 0);
    FirstLaneUsed(g, T0, home);
    var done, to := SwapIn(h, cur, via, T0);
    if !done {
      return GaveUp;
    }
    Restart(h);
    return Swapped(cur, via, to);
  }

  /** What a migration that moves something does. */
  ghost predicate Moved(g: Geometry, T0: Table, T: Table, key: Key, o: Outcome)
    requires g.Valid() && T0.Shaped(g)
  {
    match o
    case MovedIn(from, to) =>
      && T0.chunks[g.Home(key)].size != LANES && T0.KeyAt(from) == key
      && MovedHome(g, T0, T, from, to) && T.Contents() == T0.Contents() && T.size == T0.size
    case Swapped(from, via, to) =>
      && T0.chunks[g.Home(key)].size == LANES && !Stranded(g, T0, T0.KeyAt(via), via.chunk)
        && via == Slot(g.Home(key), 0)
      && T.Contents() == T0.Contents() && T.size == T0.size && to.chunk != via.chunk
      && T0.KeyAt(from) == key && SameItemAt(T0, from, T, via) && SameItemAt(T0, via, T, to)
    case GaveUp => T0.chunks[g.Home(key)].size == LANES && Stranded(g, T0, T0.KeyAt(Slot(g.Home(key), 0)), g.Home(key))
    case _ => false
  }

  /**
    Move one hot key to its home chunk. The map is kept in every case in which the
    program goes on. Case 2 keeps the invariant; case 1 keeps it exactly on the
    tables where lowering one counter too many does no harm.
   */
  method Migrate(h: PetHash, key: Key) returns (o: Outcome)
    requires h.Valid()
    modifies h, h.table
    ensures Ends(h.g, old(h.T()), key, o)
    ensures o.AtHome? || o.Missing? ==> h.T() == old(h.T()) && h.Valid()
    ensures o.MovedIn? || o.Swapped? || o.GaveUp? ==> Moved(h.g, old(h.T()), h.T(), key, o)
    ensures o.MovedIn? ==> (h.Valid() <==> Spared(h.g, old(h.T()), o.from))
    ensures o.Swapped? ==> h.Valid()
    ensures o.GaveUp? ==> Hemmed(h.g, old(h.T()), key)
    ensures o.Swapped? ==> !Hemmed(h.g, old(h.T()), key)
  {
    HemmedIsStranded(h.g, h.T(), key);
    var g := h.g;
    ghost var T0 := h.T();
    h.Inv(Idle);
    InvWeaken(g, T0, h.exact);
    var home := g.Home(key);
    assert T0.chunks[home] == h.table[home];
    var there := PetHash.Find(h.table[home], key, g.Sign(key));
    if there.Some? {
      return AtHome;
    }
    LookupIsMapLookup(g, T0, multiset{}, false, key);
    var cur := h.Search(key);
    if cur.None? {
      return Missing;
    }
    HotSlot(g, T0, key, cur.value);
    o := MoveHome(h, key, cur.value);
  }

  /** The record of the writer's steps starts over from the table as it is. */
  ghost method Restart(h: PetHash)
    requires h.g.Valid() && h.T().Shaped(h.g)
    modifies h`exact, h`states, h`labels
    ensures h.Valid() <==> h.T().Inv(h.g, false)
  {
    h.exact, h.states, h.labels := false, [State(h.T(), Idle)], [];
    if h.T().Inv(h.g, false) {
      HistoryStarts(h.g, State(h.T(), Idle), false);
    }
    if h.Valid() {
      h.Inv(Idle);
    }
  }

  // ---- A list of hot keys ----

  /** The key would be moved into its home chunk from a chunk whose counter is live, that is neither 0 nor stuck. */
  ghost predicate Risky(g: Geometry, T: Table, key: Key)
    requires g.Valid() && T.Shaped(g)
  {
    var home, cur := g.Home(key), Lookup(g, T, key, 0);
    && T.chunks[home].Match(key, g.Sign(key)).None? && T.chunks[home].size != LANES
    && cur.Some? && 0 < T.Overflow(cur.value.chunk) < STUCK
  }

  method CheckRisk(h: PetHash, key: Key) returns (risky: bool)
    requires h.Valid()
    ensures risky <==> Risky(h.g, h.T(), key)
  {
    var home := h.g.Home(key);
    assert h.T().chunks[home] == h.table[home];
    var there := PetHash.Find(h.table[home], key, h.g.Sign(key));
    if there.Some? {
      return false;
    }
    h.Inv(Idle);
    var cur := h.Search(key);
    LookupSound(h.g, h.T(), key, 0);
    if cur.None? {
      return false;
    }
    assert h.T().chunks[cur.value.chunk] == h.table[cur.value.chunk];
    var o := h.table[cur.value.chunk].overflow;
    risky := h.table[home].size != LANES && 0 < o < STUCK;
  }

  /** A migration that is not risky keeps the table intact, if the program goes on. */
  lemma HarmlessIsSpared(g: Geometry, T: Table, key: Key, from: Slot)
    requires T.Inv(g, false) && !Risky(g, T, key) && T.KeyAt(from) == key && key in T.Contents()
    requires T.chunks[g.Home(key)].Match(key, g.Sign(key)).None? && T.chunks[g.Home(key)].size != LANES
    ensures Spared(g, T, from)
  {
    LookupIsMapLookup(g, T, multiset{}, false, key);
    var cur := Lookup(g, T, key, 0).value;
    assert cur in T.Used() && T.KeyAt(cur) == key && key != NO_KEY;
    assert from in T.Occupied();
    assert from == cur;
  }

  /** The program stops at this key: it is not stored, or the key in its way cannot be moved. */
  ghost predicate Fails(g: Geometry, T: Table, key: Key)
    requires g.Valid() && T.Shaped(g)
  {
    Ends(g, T, key, Missing) || Ends(g, T, key, GaveUp)
  }

  /** Migrating `key` from the intact table `T` came to `o` and left the intact table `T'`, with the key at home. */
  ghost predicate Migrates(g: Geometry, T: Table, key: Key, o: Outcome, T': Table) {
    // A single case, so that the predicate stays folded where it is only passed on.
    match T
    case Table(_, _) =>
    && T.Inv(g, false) && T'.Inv(g, false) && T'.Contents() == T.Contents() && T'.size == T.size
    && Ends(g, T, key, o) && (if o.AtHome? then T' == T else Moved(g, T, T', key, o))
    && Matches(g, T', key, 0)
  }

  lemma MatchIsHome(g: Geometry, T: Table, key: Key, s: Slot)
    requires T.Inv(g, false) && T.Tag(s) == g.Sign(key) && T.KeyAt(s) == key && s.chunk == g.Home(key)
    ensures Matches(g, T, key, 0)
  {
    assert g.Pos(key, 0) == s.chunk;
  }

  /** Whatever the outcome, the hot key ends up in its home chunk. */
  lemma EndsAtHome(g: Geometry, T: Table, key: Key, o: Outcome, T': Table)
    requires T.Inv(g, false) && T'.Inv(g, false) && Ends(g, T, key, o)
    requires if o.AtHome? then T' == T else Moved(g, T, T', key, o) && !o.GaveUp?
    ensures Migrates(g, T, key, o, T')
  {
    match o
    case AtHome =>
      MatchesExactly(g, T, key, 0);
      assert g.Pos(key, 0) == g.Home(key);
    case MovedIn(from, to) =>
      assert SameItemAt(T, from, T', Goes(from, from, to, from));
      MatchIsHome(g, T', key, to);
    case Swapped(from, via, to) => MatchIsHome(g, T', key, via);
  }

  /** How a list of hot keys ends: all are done, the next one is risky, or the program has stopped. */
  datatype Round = Finished | Risk | Stopped

  /** What decides how it goes on at a key. */
  ghost predicate Decides(g: Geometry, T: Table, key: Key, r: Round)
    requires g.Valid() && T.Shaped(g)
  {
    (r.Risk? <==> Risky(g, T, key)) && (r.Stopped? <==> Fails(g, T, key))
  }

  lemma OutcomeDecides(g: Geometry, T: Table, key: Key, o: Outcome)
    requires T.Inv(g, false) && Ends(g, T, key, o) && !Risky(g, T, key)
    ensures Decides(g, T, key, if o.Missing? || o.GaveUp? then Stopped else Finished)
  {}

  lemma RiskDecides(g: Geometry, T: Table, key: Key)
    requires T.Inv(g, false) && Risky(g, T, key)
    ensures Decides(g, T, key, Risk)
  {
    LookupIsMapLookup(g, T, multiset{}, false, key);
  }

  /** A hot key that is not risky. */
  method MigrateCalmly(h: PetHash, key: Key) returns (r: Round, o: Outcome)
    requires h.Valid() && h.g.Valid() && h.T().Shaped(h.g) && !Risky(h.g, h.T(), key)
    modifies h, h.table
    ensures Decides(h.g, old(h.T()), key, r) && !r.Risk?
    ensures r.Finished? ==> h.Valid() && Migrates(h.g, old(h.T()), key, o, h.T())
  {
    ghost var T0 := h.T();
    IntactNow(h);
    o := Migrate(h, key);
    OutcomeDecides(h.g, T0, key, o);
    if o.Missing? || o.GaveUp? {
      return Stopped, o;
    }
    if o.MovedIn? {
      HarmlessIsSpared(h.g, T0, key, o.from);
    }
    IntactNow(h);
    EndsAtHome(h.g, T0, key, o, h.T());
    r := Finished;
  }

  /** One hot key, unless it is risky. */
  method MigrateNext(h: PetHash, key: Key) returns (r: Round, o: Outcome)
    requires h.Valid()
    modifies h, h.table
    ensures h.g.Valid() && old(h.T()).Shaped(h.g) && Decides(h.g, old(h.T()), key, r)
    ensures r.Risk? ==> h.Valid() && h.T() == old(h.T())
    ensures r.Finished? ==> h.Valid() && Migrates(h.g, old(h.T()), key, o, h.T())
  {
    var risky := CheckRisk(h, key);
    if risky {
      IntactNow(h);
      RiskDecides(h.g, h.T(), key);
      return Risk, AtHome;
    }
    r, o := MigrateCalmly(h, key);
  }

  /** The first `n` hot keys were migrated one after the other, from table to table. */
  ghost predicate Rounds(g: Geometry, keys: seq<Key>, n: nat, outs: seq<Outcome>, tables: seq<Table>) {
    && n <= |keys| && |outs| == n && |tables| == n + 1
    && forall i: nat {:trigger outs[i]} :: i < n ==> Migrates(g, tables[i], keys[i], outs[i], tables[i + 1])
  }

  lemma RoundsOn(g: Geometry, keys: seq<Key>, n: nat, outs: seq<Outcome>, tables: seq<Table>, o: Outcome, T: Table)
    requires Rounds(g, keys, n, outs, tables) && n < |keys| && Migrates(g, tables[n], keys[n], o, T)
    ensures Rounds(g, keys, n + 1, outs + [o], tables + [T])
    ensures T.Contents() == tables[n].Contents()
  {
    var outs', tables' := outs + [o], tables + [T];
    forall i: nat {:trigger outs'[i]} | i <= n ensures Migrates(g, tables'[i], keys[i], outs'[i], tables'[i + 1]) {
      if i < n { assert Migrates(g, tables[i], keys[i], outs[i], tables[i + 1]); }
    }
  }

  /**
    Migrate the hot keys in order, up to the first risky one. Each of them ends up in its
    home chunk; the map is kept, and the table is intact after every key. The program stops
    exactly at a key that is not stored or whose way home is blocked.
   */
  method MigrateAll(h: PetHash, keys: seq<Key>)
    returns (r: Round, n: nat, ghost outs: seq<Outcome>, ghost tables: seq<Table>)
    requires h.Valid()
    modifies h, h.table
    ensures Rounds(h.g, keys, n, outs, tables) && tables[0] == old(h.T())
    ensures r.Finished? <==> n == |keys|
    ensures n < |keys| ==> h.g.Valid() && tables[n].Shaped(h.g) && Decides(h.g, tables[n], keys[n], r)
    ensures !r.Stopped? ==> h.Valid() && h.T() == tables[n] && h.Contents() == old(h.Contents())
  {
    n, outs, tables := 0, [], [h.T()];
    while n < |keys|
      invariant h.Valid() && h.Contents() == old(h.Contents())
      invariant Rounds(h.g, keys, n, outs, tables) && tables[0] == old(h.T()) && tables[n] == h.T()
      decreases |keys| - n
    {
      var o;
      r, o := MigrateNext(h, keys[n]);
      if !r.Finished? {
        return;
      }
      RoundsOn(h.g, keys, n, outs, tables, o, h.T());
      n, outs, tables := n + 1, outs + [o], tables + [h.T()];
    }
    r := Finished;
  }

  lemma IntactNow(h: PetHash)
    requires h.Valid()
    ensures h.T().Inv(h.g, false)
  {
    h.Inv(Idle);
    IdleInv(h.g, h.T(), h.exact);
    InvWeaken(h.g, h.T(), h.exact);
  }
}
