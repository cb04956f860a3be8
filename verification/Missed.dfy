/**
  A table on which things go wrong: two chunks, the key 0 displaced from chunk 0 to
  chunk 1 and the key 1 from chunk 1 to chunk 0. Moving key 0 home loses sight of key
  1, and a crash in the middle of deleting a key costs the whole table.
 */
module Missed {
  import opened Options
  import opened Probe
  import opened Table
  import opened Writer
  import opened Recovery
  import opened Sizing
  import opened PetHash
  import opened Audit
  import opened Reach
  import opened Reopen
  import opened Migration

  const TWO_CHUNKS: Geometry := Geometry(2, (k: Key) => k, (h: nat) => 0)

  function Lanes14<X>(a: X, b: X, rest: X): (r: seq<X>)
    ensures |r| == LANES && r[0] == a && r[1] == b && forall l :: 2 <= l < LANES ==> r[l] == rest
  {
    [a, b] + seq(12, _ => rest)
  }

  function Pair(t0: nat, k0: Key, t1: nat, k1: Key, size: nat, overflow: nat): Chunk {
    Chunk(Lanes14(t0, t1, 0), Lanes14(k0, k1, NO_KEY), Lanes14(0, 0, 0), size, overflow, false)
  }

  const BEFORE: Table := Table([Pair(0x80, 1, 0, NO_KEY, 1, 1), Pair(0x80, 0, 0, NO_KEY, 1, 1)], 2)
  const AFTER: Table := Table([Pair(0x80, 1, 0x80, 0, 2, 1), Pair(0, NO_KEY, 0, NO_KEY, 0, 0)], 2)

  lemma Ranks(k: Key)
    requires k < 2
    ensures TWO_CHUNKS.Valid() && TWO_CHUNKS.Pos(k, 0) == k && TWO_CHUNKS.Pos(k, 1) == 1 - k
    ensures TWO_CHUNKS.Rank(k, k) == 0 && TWO_CHUNKS.Rank(k, 1 - k) == 1
  {
    assert IsPow2(2) by { assert IsPow2(1); }
    WrapIsMod(k + 257, 2);
    TWO_CHUNKS.RankOfPos(k, 0);
    TWO_CHUNKS.RankOfPos(k, 1);
  }

  lemma BeforeSlots(s: Slot)
    ensures BEFORE.Tag(s) == if s == Slot(0, 0) || s == Slot(1, 0) then 0x80 else 0
    ensures BEFORE.KeyAt(s) == if s == Slot(0, 0) then 1 else if s == Slot(1, 0) then 0 else NO_KEY
  {
    if s.chunk == 0 || s.chunk == 1 { assert s.lane < LANES ==> s.lane == 0 || s.lane == 1 || 2 <= s.lane < LANES; }
  }

  lemma BeforeIsIntact()
    ensures BEFORE.Inv(TWO_CHUNKS, true)
  {
    Ranks(0);
    Ranks(1);
    forall s ensures BEFORE.Tag(s) == (if s == Slot(0, 0) || s == Slot(1, 0) then 0x80 else 0)
      ensures BEFORE.KeyAt(s) == if s == Slot(0, 0) then 1 else if s == Slot(1, 0) then 0 else NO_KEY
    {
      BeforeSlots(s);
    }
    var U := {Slot(0, 0), Slot(1, 0)};
    assert BEFORE.Used() == U && BEFORE.Occupied() == U;
    assert BEFORE.chunks[0].Lanes() == {0} && BEFORE.chunks[1].Lanes() == {0};
    assert BEFORE.Passers(TWO_CHUNKS, U, 0) == {Slot(1, 0)};
    assert BEFORE.Passers(TWO_CHUNKS, U, 1) == {Slot(0, 0)};
    forall c: nat | c < TWO_CHUNKS.n
      ensures CountOk(BEFORE.Overflow(c), |BEFORE.Passers(TWO_CHUNKS, U, c)| + multiset{}[c], true)
    {
      assert c == 0 || c == 1;
    }
  }

  lemma AfterSlots(s: Slot)
    ensures AFTER.Tag(s) == if s == Slot(0, 0) || s == Slot(0, 1) then 0x80 else 0
    ensures AFTER.KeyAt(s) == if s == Slot(0, 0) then 1 else if s == Slot(0, 1) then 0 else NO_KEY
    ensures AFTER.ValAt(s) == BEFORE.ValAt(s) == 0
  {
    if s.chunk == 0 || s.chunk == 1 { assert s.lane < LANES ==> s.lane == 0 || s.lane == 1 || 2 <= s.lane < LANES; }
  }

  lemma AfterIsCaseOne()
    ensures TWO_CHUNKS.Valid() && MovedHome(TWO_CHUNKS, BEFORE, AFTER, Slot(1, 0), Slot(0, 1))
  {
    Ranks(0);
    forall s
      ensures BEFORE.Tag(s) == (if s == Slot(0, 0) || s == Slot(1, 0) then 0x80 else 0)
      ensures BEFORE.KeyAt(s) == if s == Slot(0, 0) then 1 else if s == Slot(1, 0) then 0 else NO_KEY
      ensures AFTER.Tag(s) == (if s == Slot(0, 0) || s == Slot(0, 1) then 0x80 else 0)
      ensures AFTER.KeyAt(s) == if s == Slot(0, 0) then 1 else if s == Slot(0, 1) then 0 else NO_KEY
      ensures AFTER.ValAt(s) == BEFORE.ValAt(s)
    {
      BeforeSlots(s);
      AfterSlots(s);
    }
  }

  /** Key 1 is stored and found before the move; after it, it is stored and not found. */
  lemma CaseOneMisses()
    ensures BEFORE.Inv(TWO_CHUNKS, true) && MovedHome(TWO_CHUNKS, BEFORE, AFTER, Slot(1, 0), Slot(0, 1))
    ensures Lookup(TWO_CHUNKS, BEFORE, 1, 0) == Some(Slot(0, 0))
    ensures 1 in AFTER.Contents() && Lookup(TWO_CHUNKS, AFTER, 1, 0) == None
  {
    BeforeIsIntact();
    AfterIsCaseOne();
    Ranks(1);
    BeforeSlots(Slot(0, 0));
    LookupFinds(TWO_CHUNKS, BEFORE, multiset{}, true, Slot(0, 0));
    AfterSlots(Slot(0, 0));
    assert Slot(0, 0) in AFTER.Used();
    assert AFTER.chunks[1].Match(1, 0x80) == None;
  }

  // ---- The table is reached ----

  /** A key whose home is chunk `c`, one for each lane; neither 0 nor 1. */
  function Filler(c: nat, l: nat): (k: Key)
    requires c < 2 && l < LANES
    ensures k == 2 * l + c + 2
  {
    2 * l + c + 2
  }

  /** The chunk with such keys in `n` lanes from lane `from` on. */
  function Stuffed(ch: Chunk, c: nat, from: nat, n: nat): (r: Chunk)
    requires ch.Shaped() && c < 2
    ensures r.Shaped()
  {
    ch.(tags := seq(LANES, l requires 0 <= l < LANES => if from <= l < from + n then 0x80 else ch.tags[l]),
        keys := seq(LANES, l requires 0 <= l < LANES => if from <= l < from + n then Filler(c, l) else ch.keys[l]),
        size := ch.size + n)
  }

  function Stuff(T: Table, c: nat, from: nat, n: nat): (r: Table)
    requires T.Shaped(TWO_CHUNKS) && c < 2
    ensures r.Shaped(TWO_CHUNKS)
  {
    Table(T.chunks[c := Stuffed(T.chunks[c], c, from, n)], T.size + n)
  }

  /** In chunk `c` the lanes from `from` on are empty, those before are in use; the keys in use are 0 and 1 at most. */
  ghost predicate Fillable(T: Table, c: nat, from: nat) {
    && T.Shaped(TWO_CHUNKS) && c < 2 && from < LANES && T.chunks[c].size == from
    && (forall l: nat :: l < from ==> T.chunks[c].tags[l] != 0)
    && (forall l: nat :: from <= l < LANES ==>
          T.chunks[c].tags[l] == 0 && T.chunks[c].keys[l] == NO_KEY && T.chunks[c].vals[l] == 0)
    && (forall s :: T.Tag(s) != 0 ==> T.KeyAt(s) < 2)
  }

  lemma StuffSlots(T: Table, c: nat, from: nat, n: nat, s: Slot)
    requires Fillable(T, c, from) && from + n <= LANES
    ensures var T' := Stuff(T, c, from, n);
            if s.chunk == c && from <= s.lane < from + n then T'.Tag(s) == 0x80 && T'.KeyAt(s) == Filler(c, s.lane)
            else T'.Tag(s) == T.Tag(s) && T'.KeyAt(s) == T.KeyAt(s)
  {}

  lemma StuffNone(T: Table, c: nat, from: nat)
    requires T.Shaped(TWO_CHUNKS) && c < 2
    ensures Stuff(T, c, from, 0) == T
  {
    assert Stuffed(T.chunks[c], c, from, 0).tags == T.chunks[c].tags;
    assert Stuffed(T.chunks[c], c, from, 0).keys == T.chunks[c].keys;
  }

  lemma StuffMore(T: Table, c: nat, from: nat, n: nat)
    requires Fillable(T, c, from) && from + n < LANES && TWO_CHUNKS.Valid()
    ensures InsertedAt(TWO_CHUNKS, Stuff(T, c, from, n), Slot(c, from + n), Filler(c, from + n), 0)
            == Stuff(T, c, from, n + 1)
    ensures DeletedAt(TWO_CHUNKS, Stuff(T, c, from, n + 1), Slot(c, from + n)) == Stuff(T, c, from, n)
  {
    var a, b, s := Stuff(T, c, from, n), Stuff(T, c, from, n + 1), Slot(c, from + n);
    var up, down := InsertedAt(TWO_CHUNKS, a, s, Filler(c, from + n), 0), DeletedAt(TWO_CHUNKS, b, s);
    assert up.chunks[c].tags == b.chunks[c].tags && up.chunks[c].keys == b.chunks[c].keys;
    assert up.chunks[c].vals == b.chunks[c].vals;
    assert up.chunks[c] == b.chunks[c];
    assert down.chunks[c].tags == a.chunks[c].tags && down.chunks[c].keys == a.chunks[c].keys;
    assert down.chunks[c].vals == a.chunks[c].vals;
    assert down.chunks[c] == a.chunks[c];
    assert up.chunks == b.chunks && down.chunks == a.chunks;
  }

  lemma Homes(k: Key)
    ensures TWO_CHUNKS.Valid() && TWO_CHUNKS.Home(k) == k % 2
  {
    Ranks(0);
    WrapIsMod(k, 2);
  }

  lemma FillOne(T: Table, c: nat, from: nat, n: nat)
    requires Fillable(T, c, from) && from + n < LANES && Reached(TWO_CHUNKS, State(Stuff(T, c, from, n), Idle))
    ensures Reached(TWO_CHUNKS, State(Stuff(T, c, from, n + 1), Idle))
  {
    var a, k, s := Stuff(T, c, from, n), Filler(c, from + n), Slot(c, from + n);
    Homes(k);
    forall u ensures a.Tag(u) != 0 ==> a.KeyAt(u) != k { StuffSlots(T, c, from, n, u); }
    forall l: nat | l < s.lane ensures a.Tag(Slot(c, l)) != 0 { StuffSlots(T, c, from, n, Slot(c, l)); }
    StuffSlots(T, c, from, n, s);
    InsertsHome(TWO_CHUNKS, a, k, s.lane);
    StuffMore(T, c, from, n);
  }

  /** Such keys can be inserted one after the other, as long as there are lanes. */
  lemma {:induction false} Fill(T: Table, c: nat, from: nat, n: nat)
    requires Fillable(T, c, from) && from + n <= LANES && Reached(TWO_CHUNKS, State(T, Idle))
    ensures Reached(TWO_CHUNKS, State(Stuff(T, c, from, n), Idle))
    decreases n
  {
    if n == 0 {
      StuffNone(T, c, from);
    } else {
      Fill(T, c, from, n - 1);
      FillOne(T, c, from, n - 1);
    }
  }

  /** And be deleted again. */
  lemma {:induction false} Unfill(T: Table, c: nat, from: nat, n: nat)
    requires Fillable(T, c, from) && from + n <= LANES && Reached(TWO_CHUNKS, State(Stuff(T, c, from, n), Idle))
    ensures Reached(TWO_CHUNKS, State(T, Idle))
    decreases n
  {
    if n == 0 {
      StuffNone(T, c, from);
    } else {
      var b, s := Stuff(T, c, from, n), Slot(c, from + n - 1);
      StuffSlots(T, c, from, n, s);
      Homes(b.KeyAt(s));
      DeletesHome(TWO_CHUNKS, b, s);
      StuffMore(T, c, from, n - 1);
      Unfill(T, c, from, n - 1);
    }
  }

  /** The table after key `k` was inserted past its home chunk. */
  function Displaced(T: Table, k: Key): Table
    requires TWO_CHUNKS.Valid() && T.Shaped(TWO_CHUNKS) && k < 2
  {
    InsertedAt(TWO_CHUNKS, T.Put(k, T.chunks[k].IncOverflow()), Slot(1 - k, 0), k, 0)
  }

  lemma DisplacedStuff(T: Table, k: Key, from: nat, n: nat)
    requires TWO_CHUNKS.Valid() && T.Shaped(TWO_CHUNKS) && k < 2
    ensures Displaced(T, k).Shaped(TWO_CHUNKS)
    ensures Displaced(Stuff(T, k, from, n), k) == Stuff(Displaced(T, k), k, from, n)
  {
    var a, b := Displaced(Stuff(T, k, from, n), k), Stuff(Displaced(T, k), k, from, n);
    assert a.chunks[k].tags == b.chunks[k].tags && a.chunks[k].keys == b.chunks[k].keys;
    assert a.chunks[k] == b.chunks[k] && a.chunks[1 - k] == b.chunks[1 - k];
    assert a.chunks == b.chunks;
  }

  /**
    A key is displaced by filling its home chunk, inserting it, and deleting again what
    the chunk was filled with.
   */
  lemma Displace(T: Table, k: Key, from: nat)
    requires TWO_CHUNKS.Valid() && k < 2 && Fillable(T, k, from) && Reached(TWO_CHUNKS, State(T, Idle)) && T.size < 8
    requires k !in T.Keys(T.Used()) && T.SizeOf(1 - k) < LANES && T.Tag(Slot(1 - k, 0)) == 0
    requires Displaced(T, k).Shaped(TWO_CHUNKS) && Fillable(Displaced(T, k), k, from)
    ensures Reached(TWO_CHUNKS, State(Displaced(T, k), Idle))
  {
    var n, g := LANES - from, TWO_CHUNKS;
    var a := Stuff(T, k, from, n);
    Ranks(k);
    Fill(T, k, from, n);
    forall u ensures a.Tag(u) != 0 ==> a.KeyAt(u) != k {
      StuffSlots(T, k, from, n, u);
      assert T.Tag(u) != 0 ==> u in T.Used() && T.KeyAt(u) in T.Keys(T.Used());
    }
    StuffSlots(T, k, from, n, Slot(1 - k, 0));
    Homes(k);
    InsertsPast(g, a, k, 0);
    DisplacedStuff(T, k, from, n);
    Unfill(Displaced(T, k), k, from, n);
  }

  /**
    Fill chunk 0, insert key 0, which goes to chunk 1, and delete the others; then the same
    with chunk 1 and key 1.
   */
  lemma BeforeIsReached()
    ensures Reached(TWO_CHUNKS, State(BEFORE, Idle))
  {
    Ranks(0);
    EmptyIsReached(TWO_CHUNKS);
    FreeSlots();
    FreeAfterFirst();
    Displace(Wiped(TWO_CHUNKS), 0, 0);
    Displace(Displaced(Wiped(TWO_CHUNKS), 0), 1, 1);
    ReachedTable();
  }

  lemma FreeSlots()
    ensures var T0 := Wiped(TWO_CHUNKS);
            TWO_CHUNKS.Valid() && Fillable(T0, 0, 0) && T0.Used() == {} && T0.Tag(Slot(1, 0)) == 0
    ensures BEFORE.Shaped(TWO_CHUNKS) && Fillable(BEFORE, 1, 1)
  {
    Ranks(0);
    var T0 := Wiped(TWO_CHUNKS);
    assert T0.Used() == {} by { assert forall u: Slot :: T0.Tag(u) == 0; }
    forall u ensures BEFORE.Tag(u) != 0 ==> BEFORE.KeyAt(u) < 2 { BeforeSlots(u); }
  }

  lemma FreeAfterFirst()
    ensures TWO_CHUNKS.Valid()
    ensures var T1 := Displaced(Wiped(TWO_CHUNKS), 0);
            && T1.Shaped(TWO_CHUNKS) && Fillable(T1, 0, 0) && Fillable(T1, 1, 1)
            && 1 !in T1.Keys(T1.Used()) && T1.Tag(Slot(0, 0)) == 0
  {
    Ranks(0);
    var T1 := Displaced(Wiped(TWO_CHUNKS), 0);
    assert forall u: Slot :: T1.Tag(u) == (if u == Slot(1, 0) then 0x80 else 0) && T1.KeyAt(Slot(1, 0)) == 0;
    assert T1.Used() == {Slot(1, 0)};
  }

  lemma ReachedTable()
    ensures TWO_CHUNKS.Valid() && Displaced(Wiped(TWO_CHUNKS), 0).Shaped(TWO_CHUNKS)
    ensures Displaced(Displaced(Wiped(TWO_CHUNKS), 0), 1) == BEFORE
  {
    Ranks(0);
    var T := Displaced(Displaced(Wiped(TWO_CHUNKS), 0), 1);
    forall c: nat | c < 2 ensures T.chunks[c] == BEFORE.chunks[c] {
      assert T.chunks[c].tags == BEFORE.chunks[c].tags;
      assert T.chunks[c].keys == BEFORE.chunks[c].keys;
      assert T.chunks[c].vals == BEFORE.chunks[c].vals;
    }
    assert T.chunks == BEFORE.chunks;
  }

  // ---- A crash in the middle of a Delete ----

  /** Deleting key 0 has lowered the counter of its home chunk to 0. */
  const CUT: Table := BEFORE.Put(0, BEFORE.chunks[0].DecOverflow())

  lemma CutSlots()
    ensures TWO_CHUNKS.Valid() && CUT.Shaped(TWO_CHUNKS) && 0 in CUT.Persisted() && 1 in CUT.Persisted()
    ensures !OpenPath(TWO_CHUNKS, CUT, Slot(1, 0))
  {
    Ranks(0);
    BeforeSlots(Slot(1, 0));
    BeforeSlots(Slot(0, 0));
    assert CUT.KeyAt(Slot(1, 0)) == 0 && CUT.KeyAt(Slot(0, 0)) == 1;
    assert Slot(1, 0) in CUT.Occupied() && Slot(0, 0) in CUT.Occupied();
    assert CUT.Overflow(TWO_CHUNKS.Pos(0, 0)) == 0;
  }

  /** Two stores of a Delete lead there. */
  lemma CutIsReached()
    ensures Reached(TWO_CHUNKS, State(CUT, Lowering(Slot(1, 0), 1, Idle)))
  {
    Ranks(0);
    BeforeIsReached();
    BeforeSlots(Slot(1, 0));
    ReachStep(TWO_CHUNKS, State(BEFORE, Idle), BeginDelete(Slot(1, 0), Idle),
              State(BEFORE, Lowering(Slot(1, 0), 0, Idle)));
    ReachStep(TWO_CHUNKS, State(BEFORE, Lowering(Slot(1, 0), 0, Idle)), Lower(Slot(1, 0), 0, Idle),
              State(CUT, Lowering(Slot(1, 0), 1, Idle)));
  }

  /** A crash at this moment, which is reached, finds both keys persisted and reopens an empty table. */
  lemma CrashLosesAll(chunkBytes: nat)
    ensures Reached(TWO_CHUNKS, State(CUT, Lowering(Slot(1, 0), 1, Idle)))
    ensures CUT.Shaped(TWO_CHUNKS) && 0 in CUT.Persisted() && 1 in CUT.Persisted()
    ensures Reopened(TWO_CHUNKS, CUT, chunkBytes, HEADER_BYTES + TWO_CHUNKS.n * chunkBytes).Contents() == map[]
  {
    CutIsReached();
    CutSlots();
    ShutCrash(TWO_CHUNKS, CUT, Slot(1, 0), chunkBytes);
  }

  lemma ShutCrash(g: Geometry, T: Table, s: Slot, chunkBytes: nat)
    requires Reached(g, State(T, Lowering(s, 1, Idle))) && !OpenPath(g, T, s)
    ensures T.Shaped(g) && Reopened(g, T, chunkBytes, HEADER_BYTES + g.n * chunkBytes).Contents() == map[]
  {
    ReachedInv(g, State(T, Lowering(s, 1, Idle)));
    ReopenAt(g, State(T, Lowering(s, 1, Idle)), true, chunkBytes);
  }

  // ---- A counter that is stuck ----

  const STUCK_HIGH: Table := Table([EMPTY.(overflow := STUCK), EMPTY], 0)

  /** An intact table that Reload does not leave as it is: the counter of chunk 0 is stuck, and no key passes it. */
  lemma ReloadUnsticks()
    ensures STUCK_HIGH.Inv(TWO_CHUNKS, true) && |STUCK_HIGH.Passers(TWO_CHUNKS, STUCK_HIGH.Used(), 0)| < STUCK
    ensures Reload(TWO_CHUNKS, STUCK_HIGH) != STUCK_HIGH
  {
    Ranks(0);
    var T := STUCK_HIGH;
    assert T.Used() == {} && T.Occupied() == {} by { assert forall s: Slot :: T.Tag(s) == 0 && T.KeyAt(s) == NO_KEY; }
    assert T.chunks[0].Lanes() == {} && T.chunks[1].Lanes() == {};
    forall c: nat | c < 2 ensures CountOk(T.Overflow(c), |T.Passers(TWO_CHUNKS, {}, c)| + multiset{}[c], true) {
      assert T.Passers(TWO_CHUNKS, {}, c) == {};
    }
    assert T.Overflow(0) == STUCK;
    ReloadIsIdentity(TWO_CHUNKS, T);
  }

  // ---- A crash in the middle of a migration ----

  /** Migrating key 0 has marked the two chunks of its chain. */
  const MARKED: Table := Table([BEFORE.chunks[0].(migrating := true), BEFORE.chunks[1].(migrating := true)], 2)

  /**
    After a crash at this moment the table is reloaded, holds both keys and is not intact:
    a lookup of key 2, which is not stored, starts over for good.
   */
  lemma MarksOutliveReload()
    ensures Reached(TWO_CHUNKS, State(BEFORE, Idle)) && MARKED.Shaped(TWO_CHUNKS)
    ensures Reload(TWO_CHUNKS, MARKED).Contents() == BEFORE.Contents()
    ensures !Reload(TWO_CHUNKS, MARKED).Inv(TWO_CHUNKS, true)
    ensures Attempt(TWO_CHUNKS, Reload(TWO_CHUNKS, MARKED), 2) == Retry
  {
    BeforeIsReached();
    BeforeIsIntact();
    Homes(2);
    forall s
      ensures MARKED.Tag(s) == BEFORE.Tag(s) && MARKED.KeyAt(s) == BEFORE.KeyAt(s) && MARKED.ValAt(s) == BEFORE.ValAt(s)
      ensures BEFORE.KeyAt(s) != 2
    {
      BeforeSlots(s);
    }
    assert MARKED.Occupied() == BEFORE.Occupied();
    ViewFrame(BEFORE, MARKED, BEFORE.Occupied());
    ReloadRestores(TWO_CHUNKS, MARKED);
    assert MARKED.chunks[0].migrating;
    MarkedLookupRetries(TWO_CHUNKS, MARKED, 2);
    assert Open(TWO_CHUNKS, Reload(TWO_CHUNKS, MARKED), 2, 0, 0);
  }
}
