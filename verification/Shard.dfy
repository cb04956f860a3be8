/** The life of a shard: it is opened empty, updated any number of times and read. */
module Shard {
  import opened Options
  import opened Seals
  import opened Bits
  import opened Layout
  import opened Probe
  import opened Table
  import opened Changes
  import opened Sizing
  import opened PetHash
  import opened Chunks
  import opened Pool
  import opened Malloc
  import opened Packing
  import opened Epochs
  import opened Recycle
  import opened Ledger
  import opened Index
  import opened PetKV
  import Epoch

  // ---- Opening ----

  lemma EmptyBooks()
    ensures Books(map[], map[], map[], [], {}, map[]) && Values(map[], map[]) == map[]
  {}

  /** A new pool of zeroed memory. */
  method OpenPool(memory: nat, known: nat) returns (malloc: MallocApi)
    requires memory / CHUNK >= |SizesFor(known)|
    ensures fresh(malloc) && fresh(malloc.pool) && malloc.Valid() && malloc.data == map[] && malloc.value == map[]
    ensures malloc.pool.perfect == (known != 0) && malloc.pool.sizes == SizesFor(known)
            && |malloc.pool.region| <= memory && malloc.pool.free != []
  {
    SizesIncrease(known);
    var region := seq(memory, _ => 0);
    var pool := new PersistMemoryPool(known != 0, SizesFor(known), region);
    EmptyMirror(pool.Now());
    malloc := new MallocApi(pool, map[], map[]);
  }

  /** A new index with offsets just wide enough for the memory. */
  method OpenIndex(memory: nat, capacity: nat, hash: Key -> nat, crc: nat -> Bits7) returns (index: Index)
    requires memory < MAX_MEMORY && capacity <= 14 * 0x8000_0000_0000_0000
    ensures fresh(index) && fresh(index.dict) && fresh(index.dict.table) && index.Valid() && index.at == map[]
    ensures index.memory == memory && IsChunkNum(capacity, index.dict.g.n) && index.dict.g.hash == hash
            && index.dict.g.crc == crc
  {
    var config := ChooseWidth(memory);
    var dict := new PetHash(capacity, hash, crc);
    index := new Index(dict, config, memory, map[]);
  }

  /** Open an empty shard. The program stops if there is less than one chunk of memory per entry size. */
  method Open(memory: nat, capacity: nat, known: nat, hash: Key -> nat, crc: nat -> Bits7, threads: nat)
    returns (r: Option<PetKV>)
    requires memory < MAX_MEMORY && capacity <= 14 * 0x8000_0000_0000_0000
    ensures r.None? <==> memory / 2097152 < (if known == 0 then 5 else 1)
    ensures r.Some? ==> r.value.Valid() && r.value.View() == map[] && r.value.lost == {} && r.value.known == known
    ensures r.Some? ==> r.value.index.memory == memory && IsChunkNum(capacity, r.value.index.dict.g.n)
    ensures r.Some? ==> r.value.recycler.epochs.orderly && r.value.recycler.recycled == 0
    ensures r.Some? ==> |r.value.recycler.epochs.table| == threads && fresh(Parts(r.value))
    ensures r.Some? ==> r.value.recycler.malloc.pool.free != []
  {
    if memory / CHUNK < |SizesFor(known)| {
      return None;
    }
    EmptyBooks();
    var malloc := OpenPool(memory, known);
    var epochs := new EpochManager(threads);
    var recycler := new ShmEpochRecycle(malloc, epochs);
    var index := OpenIndex(memory, capacity, hash, crc);
    var kv := new PetKV(index, recycler, known, map[], map[], {});
    return Some(kv);
  }

  /** The objects a shard is made of. */
  function Parts(kv: PetKV): set<object> {
    {kv, kv.index, kv.index.dict, kv.index.dict.table, kv.recycler, kv.recycler.malloc, kv.recycler.malloc.pool,
     kv.recycler.epochs}
  }

  /**
    Open a shard and store the first value. With values of variable size this succeeds exactly
    if the value has at most 1024 bytes, with a known size that is a multiple of 8 exactly if
    it has that size, and an entry of that size fits in a chunk.
   */
  method OpenAndUpdate(memory: nat, capacity: nat, known: nat, hash: Key -> nat, crc: nat -> Bits7, threads: nat,
                       key: Key, log: seq<Byte>)
    returns (r: Option<PetKV>, o: Outcome)
    requires memory < MAX_MEMORY && capacity <= 14 * 0x8000_0000_0000_0000
    requires key != NO_KEY && |log| < 0x8000_0000 && known % 8 == 0
    ensures r.Some? && known == 0 ==> (o.Updated? <==> |log| <= 1024)
    ensures r.Some? && known != 0 && |log| == known <= 32767 ==> o.Updated?
    ensures r.Some? && known != 0 && |log| != known ==> o.Aborted?
    ensures r.Some? && o.Updated? ==> r.value.Valid() && r.value.View() == map[key := log]
  {
    o := Aborted;
    r := Open(memory, capacity, known, hash, crc, threads);
    if r.Some? {
      var kv := r.value;
      RoomInNumbers(known, kv.recycler.malloc.pool.chunks, kv.recycler.malloc.pool.free, |log|);
      kv.EvictsWhenFull(key);
      kv.index.PushedIs(key);
      assert kv.index.Pushed(key) == [];
      NobodyLeaves(map[], map[], key, log);
      o := kv.Update(key, log);
    }
  }

  // ---- Runs of updates ----

  datatype Op = Op(key: Key, log: seq<Byte>)

  /** The map after updates, when update `i` evicts the keys `gone[i]`. */
  ghost function Replay(m: map<Key, seq<Byte>>, ops: seq<Op>, gone: seq<seq<Key>>): map<Key, seq<Byte>>
    requires |gone| == |ops|
    decreases |ops|
  {
    if ops == [] then m else
      var n := |ops| - 1;
      Put(Replay(m, ops[..n], gone[..n]), Elems(gone[n]), ops[n].key, ops[n].log)
  }

  /** Each update evicted at most one key, which was stored, at the load limit and for a key that was not stored. */
  ghost predicate AtLimit(g: Geometry, m: map<Key, seq<Byte>>, ops: seq<Op>, gone: seq<seq<Key>>)
    requires |gone| == |ops|
    decreases |ops|
  {
    ops == [] ||
    var n := |ops| - 1;
    AtLimit(g, m, ops[..n], gone[..n]) && MayEvict(g, Replay(m, ops[..n], gone[..n]), ops[n].key, gone[n])
  }

  /** The updates lead from `m` to `m'`. */
  ghost predicate Leads(g: Geometry, m: map<Key, seq<Byte>>, ops: seq<Op>, gone: seq<seq<Key>>,
                        m': map<Key, seq<Byte>>) {
    && |gone| == |ops|
    && forall n: nat {:trigger RunSeal(n)} :: RunSeal(n) ==> m' == Replay(m, ops, gone) && AtLimit(g, m, ops, gone)
  }

  lemma LeadsOn(g: Geometry, m: map<Key, seq<Byte>>, ops: seq<Op>, i: nat, gone: seq<seq<Key>>, m': map<Key, seq<Byte>>,
                keys: seq<Key>)
    requires i < |ops| && Leads(g, m, ops[..i], gone, m') && MayEvict(g, m', ops[i].key, keys)
    ensures Leads(g, m, ops[..i + 1], gone + [keys], Put(m', Elems(keys), ops[i].key, ops[i].log))
    ensures Evictions(gone + [keys]) == Evictions(gone) + |keys|
  {
    assert RunSeal(0);
    var all := gone + [keys];
    assert ops[..i + 1][..i] == ops[..i] && ops[..i + 1][i] == ops[i] && all[..i] == gone && all[i] == keys;
    assert Replay(m, ops[..i + 1], all) == Put(m', Elems(keys), ops[i].key, ops[i].log);
  }

  lemma {:induction false} ReplaySize(m: map<Key, seq<Byte>>, ops: seq<Op>, gone: seq<seq<Key>>)
    requires |gone| == |ops|
    ensures |Replay(m, ops, gone)| <= |m| + |ops|
    decreases |ops|
  {
    if ops != [] {
      var n := |ops| - 1;
      ReplaySize(m, ops[..n], gone[..n]);
      PutSize(Replay(m, ops[..n], gone[..n]), Elems(gone[n]), ops[n].key, ops[n].log);
    }
  }

  /** What a run of updates says: the map is the replay, and the evictions are as they may be. */
  lemma LeadsIs(g: Geometry, m: map<Key, seq<Byte>>, ops: seq<Op>, gone: seq<seq<Key>>, m': map<Key, seq<Byte>>)
    requires Leads(g, m, ops, gone, m')
    ensures m' == Replay(m, ops, gone) && AtLimit(g, m, ops, gone)
  {
    assert RunSeal(0);
  }

  lemma RoomForOne(g: Geometry, m: map<Key, seq<Byte>>, key: Key, gone: seq<Key>, most: nat)
    requires MayEvict(g, m, key, gone) && |m| <= most && 10 * most < 9 * 14 * g.n
    ensures gone == []
  {}

  lemma {:induction false} LimitAt(g: Geometry, m: map<Key, seq<Byte>>, ops: seq<Op>, gone: seq<seq<Key>>, i: nat)
    requires |gone| == |ops| && AtLimit(g, m, ops, gone) && i < |ops|
    ensures MayEvict(g, Replay(m, ops[..i], gone[..i]), ops[i].key, gone[i])
    decreases |ops|
  {
    var n := |ops| - 1;
    if i < n {
      LimitAt(g, m, ops[..n], gone[..n], i);
      assert ops[..n][..i] == ops[..i] && gone[..n][..i] == gone[..i];
    }
  }

  lemma {:induction false} NoEvictions(gone: seq<seq<Key>>)
    requires forall i: nat :: i < |gone| ==> gone[i] == []
    ensures Evictions(gone) == 0
  {
    if gone != [] { NoEvictions(gone[..|gone| - 1]); }
  }

  /** While the store cannot be 90 per cent full, no key is evicted. */
  lemma RoomForAll(g: Geometry, m: map<Key, seq<Byte>>, ops: seq<Op>, gone: seq<seq<Key>>)
    requires |gone| == |ops| && AtLimit(g, m, ops, gone) && 10 * (|m| + |ops|) < 9 * 14 * g.n
    ensures Evictions(gone) == 0 && forall i: nat :: i < |gone| ==> gone[i] == []
  {
    forall i: nat | i < |gone| ensures gone[i] == [] {
      LimitAt(g, m, ops, gone, i);
      ReplaySize(m, ops[..i], gone[..i]);
      RoomForOne(g, Replay(m, ops[..i], gone[..i]), ops[i].key, gone[i], |m| + |ops|);
    }
    NoEvictions(gone);
  }

  /** The last update of a key is what the store holds for it, unless a later update evicted the key. */
  lemma {:induction false} LastUpdateWins(m: map<Key, seq<Byte>>, ops: seq<Op>, gone: seq<seq<Key>>, i: nat)
    requires |gone| == |ops| && i < |ops| && forall j: nat :: i < j < |ops| ==> ops[j].key != ops[i].key
    ensures ops[i].key in Replay(m, ops, gone) <==> forall j: nat :: i < j < |ops| ==> ops[i].key !in gone[j]
    ensures ops[i].key in Replay(m, ops, gone) ==> Replay(m, ops, gone)[ops[i].key] == ops[i].log
    decreases |ops|
  {
    var n := |ops| - 1;
    if i < n { LastUpdateWins(m, ops[..n], gone[..n], i); }
  }

  /** A key that is not updated keeps its value, unless an update evicts it. */
  lemma {:induction false} OthersStay(m: map<Key, seq<Byte>>, ops: seq<Op>, gone: seq<seq<Key>>, key: Key)
    requires |gone| == |ops| && forall j: nat :: j < |ops| ==> ops[j].key != key
    ensures key in Replay(m, ops, gone) <==> key in m && forall j: nat :: j < |ops| ==> key !in gone[j]
    ensures key in Replay(m, ops, gone) ==> Replay(m, ops, gone)[key] == m[key]
    decreases |ops|
  {
    if ops != [] {
      var n := |ops| - 1;
      OthersStay(m, ops[..n], gone[..n], key);
    }
  }

  /** The number of evicted keys. */
  ghost function Evictions(gone: seq<seq<Key>>): nat {
    if gone == [] then 0 else Evictions(gone[..|gone| - 1]) + |gone[|gone| - 1]|
  }

  lemma PutSize<V>(m: map<Key, V>, gone: set<Key>, key: Key, v: V)
    ensures |Put(m, gone, key, v)| <= |m| + 1
  {
    var keys := Put(m, gone, key, v).Keys;
    assert keys == (m.Keys - gone) + {key};
    assert m.Keys == (m.Keys - gone) + (m.Keys * gone);
  }

  /** What a protected reader has read is still there and unchanged. */
  ghost predicate Sees(table: seq<seq<Epoch.Session>>, value: map<Block, seq<Byte>>, value': map<Block, seq<Byte>>) {
    forall t: nat, j: nat, b :: t < |table| && j < |table[t]| && b in table[t][j].holds ==>
      b in value && b in value' && value'[b] == value[b]
  }

  /** While the run of the epoch machine is orderly, whatever a reader has read is sheltered by its session. */
  lemma HeldIsKept(kv: PetKV)
    requires kv.Valid() && kv.recycler.epochs.orderly
    ensures HoldsAreKept(kv.recycler.epochs.st)
    ensures kv.recycler.epochs.st.busy == kv.recycler.malloc.data.Keys == kv.recycler.malloc.value.Keys
  {
    kv.recycler.epochs.ReadersAreSafe();
    kv.recycler.malloc.SameKeys();
  }

  ghost predicate HoldsAreKept(st: Epoch.State) {
    forall t: nat, j: nat, b :: t < |st.table| && j < |st.table[t]| && b in st.table[t][j].holds ==>
      Keeps(st, t, j, b, st.table[t][j].holds[b])
  }

  lemma SheltersTrans(st0: Epoch.State, data0: map<Block, nat>, value0: map<Block, seq<Byte>>,
                      st1: Epoch.State, data1: map<Block, nat>, value1: map<Block, seq<Byte>>,
                      st2: Epoch.State, data2: map<Block, nat>, value2: map<Block, seq<Byte>>)
    requires Shelters(st0, data0, value0, st1, data1, value1) && Shelters(st1, data1, value1, st2, data2, value2)
    ensures Shelters(st0, data0, value0, st2, data2, value2)
  {}

  lemma ShelteredIsSeen(st: Epoch.State, data: map<Block, nat>, value: map<Block, seq<Byte>>,
                        st': Epoch.State, data': map<Block, nat>, value': map<Block, seq<Byte>>)
    requires HoldsAreKept(st) && st.busy == data.Keys == value.Keys && Shelters(st, data, value, st', data', value')
    ensures Sees(st.table, value, value')
  {
    forall t: nat, j: nat, b | t < |st.table| && j < |st.table[t]| && b in st.table[t][j].holds
      ensures b in value && b in value' && value'[b] == value[b]
    {
      assert Keeps(st, t, j, b, st.table[t][j].holds[b]);
    }
  }

  /** At a store with map `m`, of which `now` is a snapshot, the program stops in the middle of `op`. */
  ghost predicate BlockedBy(g: Geometry, known: nat, now: Snapshot, m: map<Key, seq<Byte>>, op: Op) {
    && g.Valid() && now.T.Shaped(g) && now.T.Contents().Keys == m.Keys
    && (StopsIn(g, known, now, op.key, |op.log|) || known % 8 != 0)
  }

  /** Since the snapshots were `snaps0`, `n` updates began, the first of them at `snap0`. */
  ghost predicate Traces(snaps0: seq<Snapshot>, snap0: Snapshot, snaps: seq<Snapshot>, n: nat) {
    snaps0 <= snaps && |snaps| == |snaps0| + n && (n > 0 ==> snaps[|snaps0|] == snap0)
  }

  lemma TracesOn(snaps0: seq<Snapshot>, snap0: Snapshot, snaps: seq<Snapshot>, n: nat, now: Snapshot)
    requires Traces(snaps0, snap0, snaps, n) && (n == 0 ==> now == snap0)
    ensures Traces(snaps0, snap0, snaps + [now], n + 1)
  {}

  /** One update of a run. */
  method UpdateOne(kv: PetKV, op: Op) returns (r: Outcome, ghost keys: seq<Key>)
    requires kv.Valid() && op.key != NO_KEY && |op.log| < 0x8000_0000
    modifies Parts(kv)
    ensures kv.snaps == old(kv.snaps) + [old(kv.Snap())]
    ensures r.Aborted? ==> BlockedBy(kv.index.dict.g, kv.known, old(kv.Snap()), old(kv.View()), op)
    ensures r.Updated? ==> kv.Valid() && kv.View() == Put(old(kv.View()), Elems(keys), op.key, op.log)
    ensures MayEvict(kv.index.dict.g, old(kv.View()), op.key, keys)
    ensures r.Updated? ==> |kv.lost| == |old(kv.lost)| + |keys|
    ensures r.Updated? ==>
              Shelters(old(kv.recycler.epochs.st), old(kv.recycler.malloc.data), old(kv.recycler.malloc.value),
                       kv.recycler.epochs.st, kv.recycler.malloc.data, kv.recycler.malloc.value)
    ensures r.Updated? ==> kv.Walked(old(kv.index.Log()), old(kv.index.at), keys, op.key)
    ensures r.Updated? ==> kv.recycler.epochs.st.table == old(kv.recycler.epochs.st.table)
    ensures r.Updated? ==> 0 <= kv.recycler.recycled - old(kv.recycler.recycled) <= 1
    ensures r.Updated? ==> (kv.recycler.epochs.orderly <==>
                            old(kv.recycler.epochs.orderly)
                              && kv.recycler.recycled / 1000 == old(kv.recycler.recycled) / 1000)
  {
    keys := kv.index.Pushed(op.key);
    kv.EvictsWhenFull(op.key);
    kv.StopsBySnap(op.key, |op.log|);
    r := kv.Update(op.key, op.log);
  }

  /** A shard as a run of updates finds it. */
  datatype Origin = Origin(m: map<Key, seq<Byte>>, lost: nat, st: Epoch.State, data: map<Block, nat>,
                           value: map<Block, seq<Byte>>, orderly: bool, recycled: nat, snaps: seq<Snapshot>,
                           snap: Snapshot)

  ghost function Now(kv: PetKV): Origin
    reads kv, kv.index, kv.index.dict, kv.index.dict.table, kv.recycler, kv.recycler.malloc, kv.recycler.malloc.pool,
      kv.recycler.epochs
  {
    Origin(kv.View(), |kv.lost|, kv.recycler.epochs.st, kv.recycler.malloc.data, kv.recycler.malloc.value,
           kv.recycler.epochs.orderly, kv.recycler.recycled, kv.snaps, kv.Snap())
  }

  /** What a run has done to the machine of epochs and to the blocks. */
  ghost predicate Spares(was: Origin, st: Epoch.State, data: map<Block, nat>, value: map<Block, seq<Byte>>,
                         orderly: bool, recycled: nat) {
    && st.table == was.st.table && recycled >= was.recycled
    && (orderly <==> was.orderly && recycled / 1000 == was.recycled / 1000)
    && Shelters(was.st, was.data, was.value, st, data, value)
  }

  lemma SparesOn(was: Origin, st: Epoch.State, data: map<Block, nat>, value: map<Block, seq<Byte>>, orderly: bool,
                 recycled: nat, st': Epoch.State, data': map<Block, nat>, value': map<Block, seq<Byte>>,
                 orderly': bool, recycled': nat)
    requires Spares(was, st, data, value, orderly, recycled) && st'.table == st.table && recycled' >= recycled
    requires Shelters(st, data, value, st', data', value')
    requires orderly' <==> orderly && recycled' / 1000 == recycled / 1000
    ensures Spares(was, st', data', value', orderly', recycled')
  {
    SheltersTrans(was.st, was.data, was.value, st, data, value, st', data', value');
  }

  /** A run of updates that began at `was` has done the first `n`. */
  ghost predicate Running(was: Origin, kv: PetKV, ops: seq<Op>, n: nat, gone: seq<seq<Key>>, m: map<Key, seq<Byte>>)
    reads kv, kv.index, kv.index.dict, kv.index.dict.table, kv.recycler, kv.recycler.malloc, kv.recycler.malloc.pool,
      kv.recycler.epochs
  {
    // A single case, so that the predicate stays folded where it is only passed on.
    match was
    case Origin(_, _, _, _, _, _, _, _, _) =>
    && n <= |ops| && kv.Valid() && m == kv.View() && Leads(kv.index.dict.g, was.m, ops[..n], gone, m)
    && |kv.lost| == was.lost + Evictions(gone)
    && Traces(was.snaps, was.snap, kv.snaps, n) && (n == 0 ==> kv.Snap() == was.snap)
    && Spares(was, kv.recycler.epochs.st, kv.recycler.malloc.data, kv.recycler.malloc.value,
              kv.recycler.epochs.orderly, kv.recycler.recycled)
  }

  lemma RunningStarts(kv: PetKV, ops: seq<Op>)
    requires kv.Valid()
    ensures Running(Now(kv), kv, ops, 0, [], kv.View())
  {
    assert ops[..0] == [];
  }

  lemma RunningLeads(was: Origin, kv: PetKV, ops: seq<Op>, n: nat, gone: seq<seq<Key>>, m: map<Key, seq<Byte>>)
    requires Running(was, kv, ops, n, gone, m)
    ensures n <= |ops| && Leads(kv.index.dict.g, was.m, ops[..n], gone, m)
    ensures Traces(was.snaps, was.snap, kv.snaps, n)
  {}

  /** The next update of a run. */
  method UpdateNext(ghost was: Origin, kv: PetKV, ops: seq<Op>, n: nat, ghost gone: seq<seq<Key>>,
                    ghost m: map<Key, seq<Byte>>)
    returns (r: Outcome, ghost gone': seq<seq<Key>>, ghost m': map<Key, seq<Byte>>)
    requires Running(was, kv, ops, n, gone, m) && n < |ops| && ops[n].key != NO_KEY && |ops[n].log| < 0x8000_0000
    modifies Parts(kv)
    ensures r.Updated? ==> Running(was, kv, ops, n + 1, gone', m')
    ensures r.Aborted? ==> Traces(was.snaps, was.snap, kv.snaps, n + 1)
    ensures r.Aborted? ==> BlockedBy(kv.index.dict.g, kv.known, kv.snaps[|kv.snaps| - 1], m, ops[n])
  {
    ghost var mid := Now(kv);
    TracesOn(was.snaps, was.snap, kv.snaps, n, kv.Snap());
    ghost var keys;
    gone', m' := gone, m;
    r, keys := UpdateOne(kv, ops[n]);
    if r.Updated? {
      gone', m' := gone + [keys], kv.View();
      LeadsOn(kv.index.dict.g, was.m, ops, n, gone, m, keys);
      SparesOn(was, mid.st, mid.data, mid.value, mid.orderly, mid.recycled, kv.recycler.epochs.st,
               kv.recycler.malloc.data, kv.recycler.malloc.value, kv.recycler.epochs.orderly, kv.recycler.recycled);
    }
  }

  /** All updates of a run. */
  method UpdateLoop(ghost was: Origin, kv: PetKV, ops: seq<Op>, ghost m0: map<Key, seq<Byte>>)
    returns (r: Outcome, n: nat, ghost gone: seq<seq<Key>>, ghost m: map<Key, seq<Byte>>)
    requires Running(was, kv, ops, 0, [], m0)
    requires forall i: nat :: i < |ops| ==> ops[i].key != NO_KEY && |ops[i].log| < 0x8000_0000
    modifies Parts(kv)
    ensures n <= |ops| && (r.Updated? <==> n == |ops|) && Leads(kv.index.dict.g, was.m, ops[..n], gone, m)
    ensures r.Updated? ==> Running(was, kv, ops, n, gone, m)
    ensures Traces(was.snaps, was.snap, kv.snaps, if r.Aborted? then n + 1 else n)
    ensures r.Aborted? ==> BlockedBy(kv.index.dict.g, kv.known, kv.snaps[|kv.snaps| - 1], m, ops[n])
  {
    gone, n, m := [], 0, m0;
    while n < |ops|
      invariant n <= |ops| && Running(was, kv, ops, n, gone, m)
    {
      ghost var gone', m';
      RunningLeads(was, kv, ops, n, gone, m);
      r, gone', m' := UpdateNext(was, kv, ops, n, gone, m);
      if r.Aborted? {
        return;
      }
      gone, m, n := gone', m', n + 1;
    }
    RunningLeads(was, kv, ops, n, gone, m);
    r := Updated;
  }

  /**
    Any run of updates: the store is the replay of the updates, evictions included;
    every eviction loses a block; the run of the epoch machine stays orderly as long as the
    number of replacements does not pass a multiple of 1000. If it was orderly before,
    whatever a protected reader had read by then stays as it was. If the program stops, it
    has done the first `n` updates, and the snapshot that the next one took tells why.
   */
  method UpdateAll(kv: PetKV, ops: seq<Op>)
    returns (r: Outcome, n: nat, ghost gone: seq<seq<Key>>, ghost m: map<Key, seq<Byte>>)
    requires kv.Valid() && forall i: nat :: i < |ops| ==> ops[i].key != NO_KEY && |ops[i].log| < 0x8000_0000
    modifies Parts(kv)
    ensures n <= |ops| && (r.Updated? <==> n == |ops|) && Leads(kv.index.dict.g, old(kv.View()), ops[..n], gone, m)
    ensures r.Updated? ==> kv.Valid() && kv.View() == m && Leads(kv.index.dict.g, old(kv.View()), ops, gone, m)
    ensures Traces(old(kv.snaps), old(kv.Snap()), kv.snaps, if r.Aborted? then n + 1 else n)
    ensures r.Aborted? ==> BlockedBy(kv.index.dict.g, kv.known, kv.snaps[|kv.snaps| - 1], m, ops[n])
    ensures r.Updated? ==> |kv.lost| == |old(kv.lost)| + Evictions(gone)
    ensures r.Updated? ==> kv.recycler.epochs.st.table == old(kv.recycler.epochs.st.table)
    ensures r.Updated? ==> (kv.recycler.epochs.orderly <==>
                            old(kv.recycler.epochs.orderly)
                              && kv.recycler.recycled / 1000 == old(kv.recycler.recycled) / 1000)
    ensures r.Updated? ==>
              Shelters(old(kv.recycler.epochs.st), old(kv.recycler.malloc.data), old(kv.recycler.malloc.value),
                       kv.recycler.epochs.st, kv.recycler.malloc.data, kv.recycler.malloc.value)
    ensures r.Updated? && old(kv.recycler.epochs.orderly) ==>
              Sees(old(kv.recycler.epochs.st.table), old(kv.recycler.malloc.value), kv.recycler.malloc.value)
  {
    ghost var was := Now(kv);
    if was.orderly { HeldIsKept(kv); }
    RunningStarts(kv, ops);
    r, n, gone, m := UpdateLoop(was, kv, ops, kv.View());
    assert ops[..|ops|] == ops;
    if r.Updated? && was.orderly {
      ShelteredIsSeen(was.st, was.data, was.value, kv.recycler.epochs.st, kv.recycler.malloc.data,
                      kv.recycler.malloc.value);
    }
  }

  // ---- A reader among the updates ----

  /** Thread `t` protects itself. */
  method Enter(kv: PetKV, t: nat)
    requires kv.Valid() && t < |kv.recycler.epochs.table|
    modifies kv.recycler.epochs`table, kv.recycler.epochs`run, kv.recycler.epochs`st
    ensures kv.Valid() && t < |kv.recycler.epochs.table| && kv.recycler.epochs.table[t] != []
  {
    ghost var st := kv.recycler.epochs.st;
    kv.recycler.epochs.Protect(t);
    QueuedLater(kv.recycler.queue, kv.recycler.blocks, kv.recycler.malloc.data, st, kv.recycler.epochs.st);
  }

  /**
    A protected thread reads a key, and then the store is updated any number of times. The
    block it was given still holds what it read, even if the key has been replaced or
    evicted, and however often the epoch was bumped.
   */
  method ReadThenUpdate(kv: PetKV, t: nat, key: Key, ops: seq<Op>)
    returns (found: bool, bytes: seq<Byte>, ghost b: Block, r: Outcome)
    requires kv.Valid() && t < |kv.recycler.epochs.table|
    requires forall i: nat :: i < |ops| ==> ops[i].key != NO_KEY && |ops[i].log| < 0x8000_0000
    modifies Parts(kv)
    ensures found <==> key in old(kv.View())
    ensures found ==> bytes == old(kv.View())[key]
    ensures found && r.Updated? ==> b in kv.recycler.malloc.value && kv.recycler.malloc.value[b] == bytes
  {
    Enter(kv, t);
    found, bytes, b := kv.Read(t, key);
    ghost var st := kv.recycler.epochs.st;
    if found { kv.LinkedIsKept(t, |st.table[t]| - 1, b); }
    var n; ghost var gone, m;
    r, n, gone, m := UpdateAll(kv, ops);
    assert found ==> Keeps(st, t, |st.table[t]| - 1, b, st.current);
  }
}
