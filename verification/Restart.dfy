/**
  Restarting a shard. Its files hold the table and the pool's chunks and memory; all
  else is built up again. The program goes on only if the table then counts as many
  keys as the pool counts blocks.
 */
module Restart {
  import opened Options
  import opened Seals
  import Layout
  import opened Probe
  import opened Table
  import opened Writer
  import opened Changes
  import opened Recovery
  import opened Sizing
  import opened PetHash
  import opened Audit
  import opened Reopen
  import opened Chunks
  import opened Images
  import opened Pool
  import opened Malloc
  import opened Packing
  import opened Epochs
  import opened Recycle
  import opened Ledger
  import opened Index
  import opened PetKV
  import opened Shard
  import Epoch

  /** Open the table found in a file: check it, then reload it or wipe it. */
  method OpenFile(g: Geometry, T: Table, chunkBytes: nat) returns (dict: PetHash)
    requires g.Valid() && T.Shaped(g) && g.n <= 0x8000_0000_0000_0000
    requires T.Quiet() && T.Distinct(T.Occupied()) && EmptyUntagged(T)
    ensures fresh(dict) && fresh(dict.table) && dict.g == g && dict.Valid()
    ensures dict.Contents() ==
            if Passes(g, T, chunkBytes, HEADER_BYTES + g.n * chunkBytes) then T.Persisted() else map[]
  {
    dict := new PetHash.Map(g, T.chunks, T.size);
    var ok := CheckValid(dict, g.n * LANES, chunkBytes, HEADER_BYTES + g.n * chunkBytes);
    if ok.value {
      dict.ReloadAll();
    } else {
      dict.Initialize();
    }
  }

  /**
    Wherever a crash has cut the writer, the table is intact again when it is opened, and
    it holds what was persisted exactly if that moment survives the check.
   */
  method OpenTable(g: Geometry, T: Table, chunkBytes: nat, ghost act: Act, ghost exact: bool) returns (dict: PetHash)
    requires g.n <= 0x8000_0000_0000_0000 && StateInv(g, State(T, act), exact)
    ensures fresh(dict) && fresh(dict.table) && dict.g == g && dict.Valid()
    ensures dict.Contents() == if Survives(g, State(T, act)) then T.Persisted() else map[]
  {
    PassesExactly(g, State(T, act), exact, chunkBytes);
    UsedDistinct(g, State(T, act), exact);
    dict := OpenFile(g, T, chunkBytes);
  }

  /**
    The count that the program compares with the pool's after a crash at this moment of
    the writer: the persisted keys, or none if the table is wiped.
   */
  ghost function Recount(g: Geometry, st: State): nat
    requires g.Valid()
  {
    if Survives(g, st) then |st.T.Persisted()| else 0
  }

  /** It is the size of the table that is found in the file, checked, and reloaded or wiped. */
  lemma CrashedCount(g: Geometry, st: State, exact: bool, chunkBytes: nat)
    requires StateInv(g, st, exact)
    ensures Reopened(g, st.T, chunkBytes, HEADER_BYTES + g.n * chunkBytes).size == Recount(g, st)
  {
    var R := Reopened(g, st.T, chunkBytes, HEADER_BYTES + g.n * chunkBytes);
    ReopenAt(g, st, exact, chunkBytes);
    ViewSize(R, R.Used());
  }

  /** Open the pool found in a file. */
  method OpenPool(pool: PersistMemoryPool, ghost data: map<Block, nat>, ghost value: map<Block, seq<Layout.Byte>>)
    returns (malloc: MallocApi)
    requires pool.Valid() && Malloc.Mirrors(pool.Now(), data, value)
    ensures fresh(malloc) && fresh(malloc.pool) && malloc.Valid() && malloc.data == data && malloc.value == value
    ensures malloc.pool.perfect == pool.perfect && malloc.pool.sizes == pool.sizes && malloc.pool.region == pool.region
  {
    UsedSizes(pool.chunks, pool.sizes, pool.free, pool.classes);
    var again := new PersistMemoryPool.Recover(pool.perfect, pool.sizes, pool.region, pool.chunks);
    LayoutKeeps(pool.Now(), again.Now(), pool.Now().Blocks());
    MirrorSame(pool.Now(), data, value, again.Now());
    malloc := new MallocApi(again, data, value);
  }

  lemma UsedSizes(chunks: seq<Chunks.Chunk>, sizes: seq<nat>, free: seq<nat>, classes: map<nat, seq<nat>>)
    requires Listed(chunks, sizes, free, classes)
    ensures forall c: nat :: c < |chunks| && chunks[c].used ==> chunks[c].slab in sizes
  {}

  /** Record that the blocks `bs` can be found. */
  ghost method LinkAll(epochs: EpochManager, bs: set<Block>)
    requires epochs.Valid() && epochs.st.busy !! bs
    modifies epochs`run, epochs`st
    ensures epochs.Valid()
    ensures epochs.st == old(epochs.st).(linked := old(epochs.st.linked) + bs, busy := old(epochs.st.busy) + bs)
  {
    ghost var rest, st := bs, epochs.st;
    while rest != {}
      invariant epochs.Valid() && rest <= bs
      invariant epochs.st == st.(linked := st.linked + (bs - rest), busy := st.busy + (bs - rest))
      decreases rest
    {
      ghost var p :| p in rest;
      epochs.Note(Epoch.Link(p));
      assert bs - (rest - {p}) == bs - rest + {p};
      rest := rest - {p};
    }
  }

  /** The blocks that nobody owns are what the two counts differ by. */
  lemma Unowned(at: map<Key, int>, blocks: map<Key, Block>, owner: map<Block, Key>, waiting: seq<Block>,
                lost: set<Block>, data: map<Block, nat>)
    requires Books(at, blocks, owner, waiting, lost, data)
    ensures |at| == |data| <==> lost == {} && waiting == []
    ensures |at| == |data| ==> owner.Keys == data.Keys
  {
    BooksForget(at, blocks, owner, waiting, lost, data);
    BooksAddUp(at, blocks, owner, [], lost + SetOf(waiting), data);
    var unowned := lost + SetOf(waiting);
    assert waiting != [] ==> waiting[0] in unowned;
    assert unowned == {} <==> lost == {} && waiting == [];
    if unowned == {} { BooksOwned(at, blocks, owner, data); }
  }

  /**
    Start the program again on the files of a shard, wherever it was stopped between
    stores to the table: after Close, between updates, or holding a new block. It comes
    up exactly if every allocated block belongs to a key, and then with the same map.
   */
  method Start(kv: PetKV, chunkBytes: nat, threads: nat, ghost lost: set<Block>) returns (r: Option<PetKV>)
    requires kv.Wired() && kv.index.Valid() && kv.recycler.malloc.Valid() && kv.index.dict.g.n <= 0x8000_0000_0000_0000
    requires Books(kv.index.at, kv.blocks, kv.owner, kv.recycler.blocks, lost, kv.recycler.malloc.data)
    ensures r.Some? <==> lost == {} && kv.recycler.blocks == []
    ensures r.Some? ==> r.value.Valid() && r.value.View() == kv.View() && r.value.lost == {}
    ensures r.Some? ==> r.value.index.dict.g == kv.index.dict.g && r.value.index.memory == kv.index.memory
    ensures r.Some? ==> r.value.known == kv.known
    ensures r.Some? ==> r.value.recycler.epochs.orderly && fresh(Parts(r.value))
  {
    var index := ReopenIndex(kv.index, chunkBytes);
    var malloc := ReopenMalloc(kv.recycler.malloc);
    Unowned(kv.index.at, kv.blocks, kv.owner, kv.recycler.blocks, lost, malloc.data);
    index.Size();
    malloc.Count();
    if index.dict.size != malloc.pool.total {
      return None;
    }
    var recycler := OpenRecycler(malloc, threads, kv.owner);
    var again := new PetKV(index, recycler, kv.known, kv.blocks, kv.owner, {});
    return Some(again);
  }

  /** A new recycler; the blocks of the stored keys can be found. */
  method OpenRecycler(malloc: MallocApi, threads: nat, ghost owner: map<Block, Key>) returns (recycler: ShmEpochRecycle)
    requires malloc.Valid()
    ensures fresh(recycler) && fresh(recycler.epochs) && recycler.malloc == malloc && recycler.Valid()
    ensures recycler.blocks == [] && recycler.epochs.orderly && Tracks(recycler.epochs.st, owner, owner.Keys)
  {
    var epochs := new EpochManager(threads);
    LinkAll(epochs, owner.Keys);
    recycler := new ShmEpochRecycle(malloc, epochs);
  }

  method ReopenIndex(index: Index, chunkBytes: nat) returns (again: Index)
    requires index.Valid() && index.dict.g.n <= 0x8000_0000_0000_0000
    ensures fresh(again) && fresh(again.dict) && fresh(again.dict.table) && again.Valid() && again.at == index.at
    ensures again.dict.g == index.dict.g && again.memory == index.memory
  {
    assert IndexSeal(0);
    index.dict.Inv(Idle);
    index.dict.Same();
    var dict := OpenTable(index.dict.g, Table(index.dict.table[..], index.dict.size), chunkBytes, Idle,
                          index.dict.exact);
    again := new Index(dict, index.config, index.memory, index.at);
  }

  method ReopenMalloc(malloc: MallocApi) returns (again: MallocApi)
    requires malloc.Valid()
    ensures fresh(again) && fresh(again.pool) && again.Valid() && again.data == malloc.data
            && again.value == malloc.value
    ensures again.pool.perfect == malloc.pool.perfect && again.pool.sizes == malloc.pool.sizes
            && again.pool.region == malloc.pool.region
  {
    assert MallocSeal(0);
    again := OpenPool(malloc.pool, malloc.data, malloc.value);
  }

  /** After a clean shutdown the program comes up again exactly if no key was ever evicted, with the same map. */
  method CloseAndReopen(kv: PetKV, chunkBytes: nat, threads: nat) returns (r: Option<PetKV>)
    requires kv.Valid() && kv.index.dict.g.n <= 0x8000_0000_0000_0000
    modifies kv.recycler`queue, kv.recycler`blocks, kv.recycler.malloc, kv.recycler.malloc.pool`chunks,
      kv.recycler.malloc.pool`total
    ensures r.Some? <==> old(kv.lost) == {}
    ensures r.Some? ==> r.value.Valid() && r.value.View() == old(kv.View())
  {
    kv.Close();
    r := Start(kv, chunkBytes, threads, kv.lost);
  }

  /** After an update that evicts a key, the program does not come up again. */
  method EvictAndReopen(kv: PetKV, key: Key, log: seq<Layout.Byte>, chunkBytes: nat, threads: nat)
    returns (r: Option<PetKV>)
    requires kv.Valid() && kv.lost == {} && kv.index.dict.g.n <= 0x8000_0000_0000_0000
    requires key != NO_KEY && |log| < 0x8000_0000 && kv.known % 8 == 0
    requires kv.index.Pushed(key) != [] && !kv.Stops(key, |log|)
    modifies Parts(kv)
    ensures r.None?
  {
    var done := kv.Update(key, log);
    assert done.Updated? && |kv.lost| > 0;
    r := CloseAndReopen(kv, chunkBytes, threads);
  }

  // ---- A crash in the middle of an update ----

  /** Where the check passes in the middle of inserting a key, the key is not yet persisted. */
  lemma SurvivorLacks(g: Geometry, st: State, exact: bool, k: Key)
    requires StateInv(g, st, exact) && About(st.act, k) && Survives(g, st)
    ensures k !in st.T.Persisted()
  {}

  lemma FewerKeys<U, V>(m: map<Key, U>, n: map<Key, V>)
    requires m.Keys <= n.Keys
    ensures |m| <= |n|
  {
    assert |n.Keys| == |m.Keys| + |n.Keys - m.Keys|;
  }

  lemma SwapOne(S: set<Key>, gone: seq<Key>, key: Key)
    requires key !in S && |gone| <= 1 && forall k :: k in gone ==> k in S
    ensures |S - Elems(gone) + {key}| == |S| + 1 - |gone|
  {
    if gone == [] {
      assert S - Elems(gone) == S;
    } else {
      assert gone[0] in gone && S - Elems(gone) == S - {gone[0]};
    }
  }

  /** Adding a key and dropping at most one. */
  lemma PutCount<V>(m: map<Key, V>, gone: seq<Key>, key: Key, v: V)
    requires key !in m && |gone| <= 1 && forall k :: k in gone ==> k in m
    ensures |Put(m, Elems(gone), key, v)| == |m| + 1 - |gone|
  {
    SwapOne(m.Keys, gone, key);
    assert Put(m, Elems(gone), key, v).Keys == m.Keys - Elems(gone) + {key};
  }

  /** The counts after a crash at each moment from `a` on. */
  ghost predicate Counts(g: Geometry, states: seq<State>, a: nat, counts: seq<nat>) {
    && g.Valid() && a <= |states| == a + |counts| && forall i: nat :: i < |counts| ==>
      counts[i] == Recount(g, states[a + i])
  }

  ghost predicate Recounted(g: Geometry, states: seq<State>, a: nat, counts: seq<nat>) {
    forall n: nat {:trigger RecountSeal(n)} :: RecountSeal(n) ==> Counts(g, states, a, counts)
  }

  /** None of the counts comes up to `total`, but for the last one if `whole` holds. */
  ghost predicate FallShort(counts: seq<nat>, total: nat, whole: bool) {
    counts != [] && forall i: nat :: i < |counts| ==>
      counts[i] <= total && (counts[i] == total <==> i == |counts| - 1 && whole)
  }

  lemma CountAll(g: Geometry, states: seq<State>, a: nat) returns (counts: seq<nat>)
    requires g.Valid() && a < |states|
    ensures Recounted(g, states, a, counts) && |counts| == |states| - a
  {
    counts := [];
    while |counts| < |states| - a
      invariant |counts| <= |states| - a
      invariant forall i: nat :: i < |counts| ==> counts[i] == Recount(g, states[a + i])
    {
      counts := counts + [Recount(g, states[a + |counts|])];
    }
  }

  /** At rest a crash leaves all the keys. */
  lemma CountsAtRest(g: Geometry, states: seq<State>, a: nat, counts: seq<nat>)
    requires Recounted(g, states, a, counts) && a < |states| && states[|states| - 1].act.Idle?
    ensures |counts| == |states| - a && counts[|counts| - 1] == |states[|states| - 1].T.Persisted()|
  {
    assert RecountSeal(0);
  }

  /** In the middle of storing a key, a crash leaves no more keys than there were. */
  lemma CrashLeaves(g: Geometry, st: State, exact: bool, c: Config, at: map<Key, int>, key: Key, off: int)
    requires StateInv(g, st, exact) && c.Valid() && Led(c, st.T.Persisted(), at, key, off)
    requires key in at || About(st.act, key) || key !in st.T.Persisted()
    ensures Recount(g, st) <= |at|
  {
    if Survives(g, st) {
      if About(st.act, key) { SurvivorLacks(g, st, exact, key); }
      FewerKeys(st.T.Persisted(), at);
    }
  }

  lemma TrailAt(c: Config, states: seq<State>, labels: seq<Label>, a: nat, at: map<Key, int>, gone: seq<Key>,
                key: Key, off: int, d: nat)
    requires c.Valid() && Trail(c, states, labels, a, at, gone, key, off) && a <= d < |labels| < |states|
    requires states[a].T.Persisted().Keys == at.Keys
    ensures Led(c, states[d].T.Persisted(), at, key, off)
    ensures key in at || About(states[d].act, key) || key !in states[d].T.Persisted()
  {
    assert TrailSeal(0);
  }

  lemma CountIs(g: Geometry, states: seq<State>, a: nat, counts: seq<nat>, i: nat)
    requires Recounted(g, states, a, counts) && i < |counts|
    ensures g.Valid() && a + i < |states| && counts[i] == Recount(g, states[a + i])
  {
    assert RecountSeal(0);
  }

  /** Before the last store of an update, a crash leaves no more keys than there were before the update. */
  lemma CountsNoMore(g: Geometry, exact: bool, c: Config, states: seq<State>, labels: seq<Label>, a: nat,
                     at: map<Key, int>, gone: seq<Key>, key: Key, off: int, st: State, counts: seq<nat>, i: nat)
    requires History(g, states, labels, exact, st) && c.Valid() && a + i < |labels|
    requires Trail(c, states, labels, a, at, gone, key, off) && states[a].T.Persisted().Keys == at.Keys
    requires Recounted(g, states, a, counts) && i < |counts|
    ensures counts[i] <= |at|
  {
    var d := a + i;
    HistoryAt(g, states, labels, exact, st, d);
    TrailAt(c, states, labels, a, at, gone, key, off, d);
    CrashLeaves(g, states[d], exact, c, at, key, off);
    CountIs(g, states, a, counts, i);
  }

  lemma CrashPoints(g: Geometry, exact: bool, c: Config, states: seq<State>, labels: seq<Label>, a: nat,
                    at: map<Key, int>, gone: seq<Key>, key: Key, off: int, st: State, total: nat)
    returns (counts: seq<nat>)
    requires History(g, states, labels, exact, st) && g.Valid() && c.Valid()
    requires Trail(c, states, labels, a, at, gone, key, off) && a < |labels|
    requires states[a].T.Persisted().Keys == at.Keys && |at| < total
    requires st.act.Idle? && |st.T.Persisted()| <= total
    ensures Recounted(g, states, a, counts)
    ensures FallShort(counts, total, |st.T.Persisted()| == total)
  {
    counts := CountAll(g, states, a);
    CountsAtRest(g, states, a, counts);
    forall i: nat | i < |counts| - 1 ensures counts[i] < total {
      CountsNoMore(g, exact, c, states, labels, a, at, gone, key, off, st, counts, i);
    }
  }

  /** The blocks allocated when an update is done outnumber the keys stored before it. */
  lemma MoreBlocks(kv: PetKV, m: map<Key, seq<Layout.Byte>>, lost: nat, gone: seq<Key>, key: Key,
                   log: seq<Layout.Byte>)
    requires kv.Valid() && kv.View() == Put(m, Elems(gone), key, log) && |kv.lost| == lost + |gone|
    requires MayEvict(kv.index.dict.g, m, key, gone) && (key in m ==> kv.recycler.queue != [])
    ensures |m| < kv.recycler.malloc.pool.total
    ensures kv.index.dict.size <= kv.recycler.malloc.pool.total
    ensures kv.index.dict.size == kv.recycler.malloc.pool.total <==> kv.lost == {} && kv.recycler.queue == []
  {
    kv.Conservation();
    kv.Count();
    if key in m {
      assert kv.View().Keys == m.Keys;
    } else {
      PutCount(m, gone, key, log);
    }
    assert |kv.lost| == 0 <==> kv.lost == {};
  }

  /** The moments of an update that has been done, by the keys `at` and the map `m` before it. */
  lemma UpdateCrashes(kv: PetKV, was: Past, at: map<Key, int>, m: map<Key, seq<Layout.Byte>>, lost: nat,
                      gone: seq<Key>, key: Key, log: seq<Layout.Byte>)
    returns (counts: seq<nat>)
    requires kv.Valid() && kv.View() == Put(m, Elems(gone), key, log) && |kv.lost| == lost + |gone|
    requires MayEvict(kv.index.dict.g, m, key, gone) && (key in m ==> kv.recycler.queue != [])
    requires kv.Walked(was, at, gone, key) && was.states[|was.labels|].T.Persisted().Keys == at.Keys && |at| == |m|
    ensures Recounted(kv.index.dict.g, kv.index.dict.states, |was.labels|, counts)
    ensures FallShort(counts, kv.recycler.malloc.pool.total, kv.lost == {} && kv.recycler.queue == [])
  {
    var dict := kv.index.dict;
    kv.index.Rests();
    SameKeys(kv);
    MoreBlocks(kv, m, lost, gone, key, log);
    TrailMoves(kv.index.config, dict.states, dict.labels, |was.labels|, at, gone, key, kv.index.at[key]);
    counts := CrashPoints(dict.g, dict.exact, kv.index.config, dict.states, dict.labels, |was.labels|, at, gone, key,
                          kv.index.at[key], State(dict.T(), Idle), kv.recycler.malloc.pool.total);
  }

  lemma TrailMoves(c: Config, states: seq<State>, labels: seq<Label>, a: nat, at: map<Key, int>, gone: seq<Key>,
                   key: Key, off: int)
    requires c.Valid() && Trail(c, states, labels, a, at, gone, key, off)
    ensures a < |labels|
  {
    assert TrailSeal(0);
  }

  /**
    Update a store, and consider a crash at any store to the table on the way, with the
    new block allocated. The program comes up only after the last store, and only if no
    key was ever evicted and no replaced block is waiting. After replacing a stored key one
    always is.
   */
  method UpdateAndCrash(kv: PetKV, key: Key, log: seq<Layout.Byte>) returns (r: Outcome, ghost counts: seq<nat>)
    requires kv.Valid() && key != NO_KEY && |log| < 0x8000_0000
    modifies Parts(kv)
    ensures r.Updated? ==> kv.Valid() && (key in old(kv.View()) ==> kv.recycler.queue != [])
    ensures r.Updated? ==>
              Recounted(kv.index.dict.g, kv.index.dict.states, |old(kv.index.dict.labels)|, counts)
    ensures r.Updated? ==>
              FallShort(counts, kv.recycler.malloc.pool.total, kv.lost == {} && kv.recycler.queue == [])
  {
    kv.index.Rests();
    kv.EvictsWhenFull(key);
    ghost var was, at, m, gone, lost := kv.index.Log(), kv.index.at, kv.View(), kv.index.Pushed(key), |kv.lost|;
    SameKeys(kv);
    r := kv.Update(key, log);
    counts := [];
    if r.Updated? {
      counts := UpdateCrashes(kv, was, at, m, lost, gone, key, log);
    }
  }

  lemma SameKeys(kv: PetKV)
    requires kv.Valid()
    ensures kv.index.dict.Contents().Keys == kv.index.at.Keys == kv.View().Keys
    ensures |kv.index.dict.Contents()| == |kv.index.at| == |kv.View()| == kv.index.dict.size
  {
    kv.StopsBySnap(0, 0);
    kv.index.PushedIs(0);
    kv.index.Size();
    kv.Count();
    assert |kv.index.dict.Contents().Keys| == |kv.index.at.Keys|;
  }

  /** Killed between updates, it comes up again exactly if no key was ever evicted and no replaced block was waiting. */
  method KillAndReopen(kv: PetKV, chunkBytes: nat, threads: nat) returns (r: Option<PetKV>)
    requires kv.Valid() && kv.index.dict.g.n <= 0x8000_0000_0000_0000
    ensures r.Some? <==> kv.lost == {} && kv.recycler.queue == []
    ensures r.Some? ==> r.value.Valid() && r.value.View() == kv.View()
  {
    QueuedIs(kv.recycler.queue, kv.recycler.blocks, kv.recycler.malloc.data, kv.recycler.epochs.st);
    r := Start(kv, chunkBytes, threads, kv.lost);
  }
}
