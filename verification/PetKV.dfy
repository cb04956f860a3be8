/**
  One shard of the store: the index maps a key to a packed word, the word leads to a
  block of the pool, and the block holds the value. Replaced blocks wait for their
  epoch before they are freed.
 */
module PetKV {
  import opened Options
  import opened Layout
  import opened Probe
  import opened Table
  import opened Writer
  import opened Changes
  import opened PetHash
  import opened Chunks
  import opened Pool
  import opened Malloc
  import opened Epochs
  import opened Recycle
  import opened Ledger
  import opened Index
  import Epoch

  /** The entry sizes: fixed classes with a length prefix, or the known size of all values. */
  function SizesFor(known: nat): seq<nat> {
    if known == 0 then [8 + 32, 8 + 64, 8 + 128, 8 + 512, 8 + 1024] else [known]
  }

  lemma SizesIncrease(known: nat)
    ensures Increasing(SizesFor(known), 0)
    ensures known == 0 ==> forall s :: s in SizesFor(known) ==> s % 8 == 0 && s > 8
  {
    if known == 0 {
      var sizes := SizesFor(known);
      assert sizes[1..] == [72, 136, 520, 1032] && sizes[2..] == [136, 520, 1032] && sizes[3..] == [520, 1032];
      assert sizes[1..][1..] == sizes[2..] && sizes[2..][1..] == sizes[3..] && sizes[3..][1..] == [1032];
      assert Increasing([1032], 520);
      assert Increasing(sizes[3..], 136);
      assert Increasing(sizes[2..], 72);
    }
  }

  /** The entry size that serves a value of variable size; none does if it has more than 1024 bytes. */
  lemma ClassInNumbers(size: nat, slab: nat)
    ensures ServedBy(false, SizesFor(0), size, slab) <==>
            && size <= 1024
            && slab == if size <= 32 then 40 else if size <= 64 then 72 else if size <= 128 then 136
                       else if size <= 512 then 520 else 1032
  {
    var S := SizesFor(0);
    assert S == [40, 72, 136, 520, 1032];
    assert 40 in S && 72 in S && 136 in S && 520 in S && 1032 in S;
    assert forall s :: s in S <==> s == 40 || s == 72 || s == 136 || s == 520 || s == 1032;
  }

  /** A pool with a free chunk has room for values of up to 1024 bytes, or of the known size up to 32767. */
  lemma RoomInNumbers(known: nat, chunks: seq<Chunks.Chunk>, free: seq<nat>, size: nat)
    requires free != []
    ensures known == 0 ==> (NoRoomIn(false, SizesFor(0), chunks, free, size) <==> size > 1024)
    ensures known != 0 ==> (size == known <= 32767 ==> !NoRoomIn(true, SizesFor(known), chunks, free, size))
    ensures known != 0 ==> (size != known ==> NoRoomIn(true, SizesFor(known), chunks, free, size))
  {
    if known == 0 {
      forall slab ensures ServedBy(false, SizesFor(0), size, slab) ==> size <= 1024 && slab <= 1032 {
        ClassInNumbers(size, slab);
      }
      if size <= 1024 {
        var slab := if size <= 32 then 40 else if size <= 64 then 72 else if size <= 128 then 136
                    else if size <= 512 then 520 else 1032;
        ClassInNumbers(size, slab);
        assert ServedBy(false, SizesFor(0), size, slab) && !ExhaustedIn(chunks, free, slab);
      }
    } else if size == known <= 32767 {
      assert ServedBy(true, SizesFor(known), size, known) && !ExhaustedIn(chunks, free, known);
    }
  }

  /** The epoch machine knows the blocks of stored keys as linked and the live blocks as not given back. */
  ghost predicate Tracks(st: Epoch.State, owner: map<Block, Key>, live: set<Block>) {
    st.linked == owner.Keys && st.busy == live
  }

  /** A block that is live before and after holds the same. */
  ghost predicate Steady<V>(value: map<Block, V>, value': map<Block, V>) {
    forall b :: b in value && b in value' ==> value'[b] == value[b]
  }

  lemma SteadyTrans<V>(v0: map<Block, V>, v1: map<Block, V>, v2: map<Block, V>)
    requires Steady(v0, v1) && Steady(v1, v2) && v0.Keys <= v1.Keys
    ensures Steady(v0, v2)
  {}

  /** What a published session shelters is sheltered still, and holds the same bytes at the same place. */
  ghost predicate Shelters(st: Epoch.State, data: map<Block, nat>, value: map<Block, seq<Byte>>,
                           st': Epoch.State, data': map<Block, nat>, value': map<Block, seq<Byte>>) {
    forall t: nat, j: nat, b, a: nat :: Keeps(st, t, j, b, a) && b in data && b in value ==>
      && Keeps(st', t, j, b, a) && b in data' && data'[b] == data[b] && b in value' && value'[b] == value[b]
  }

  lemma ShelterAll(st: Epoch.State, data: map<Block, nat>, value: map<Block, seq<Byte>>,
                   st': Epoch.State, data': map<Block, nat>, value': map<Block, seq<Byte>>)
    requires StillKeeps(st, st') && Steady(data, data') && Steady(value, value')
    requires st'.busy == data'.Keys == value'.Keys
    ensures Shelters(st, data, value, st', data', value')
  {}

  lemma SwapTracks(st: Epoch.State, st': Epoch.State, owner: map<Block, Key>, data: map<Block, nat>, was: Block,
                   b: Block, key: Key)
    requires Tracks(st, owner, data.Keys - {b}) && b in data && was in owner && owner[was] == key
    requires st'.linked == st.linked - {was} + {b} && st'.busy == st.busy + {b}
    ensures Tracks(st', Put(owner, {was}, b, key), data.Keys)
  {}

  lemma FreedTracks(st: Epoch.State, st': Epoch.State, owner: map<Block, Key>, data: map<Block, nat>, b: Block,
                    freed: set<Block>)
    requires Tracks(st, owner, data.Keys - {b}) && b in data && b !in freed
    requires st'.linked == st.linked && st'.busy == st.busy - freed
    ensures Tracks(st', owner, (data - freed).Keys - {b})
  {
    assert (data - freed).Keys == data.Keys - freed;
  }

  lemma InsertTracks(st: Epoch.State, st': Epoch.State, owner: map<Block, Key>, data: map<Block, nat>, more: set<Block>,
                     b: Block, key: Key)
    requires Tracks(st, owner, data.Keys - {b}) && b in data
    requires st'.linked == st.linked - more + {b} && st'.busy == st.busy + {b}
    ensures Tracks(st', Put(owner, more, b, key), data.Keys)
  {}

  /** With this many keys the index is 90 per cent full. */
  predicate Ninety(g: Geometry, size: nat) {
    10 * size >= 9 * 14 * g.n
  }

  /** Storing `key` in a store with map `m` may push out the keys `gone`. */
  ghost predicate MayEvict(g: Geometry, m: map<Key, seq<Byte>>, key: Key, gone: seq<Key>) {
    gone == [] || (|gone| == 1 && gone[0] in m && key !in m && Ninety(g, |m|))
  }

  /** What decides whether an update can be done: the table, the chunks of the pool and its free list. */
  datatype Snapshot = Snapshot(T: Table, chunks: seq<Chunks.Chunk>, free: seq<nat>)

  /** The update cannot be done: the pool has no room, or a single full chunk is all there is of the index. */
  ghost predicate StopsIn(g: Geometry, known: nat, now: Snapshot, key: Key, size: nat)
    requires g.Valid() && now.T.Shaped(g)
  {
    || NoRoomIn(known != 0, SizesFor(known), now.chunks, now.free, size)
    || (key !in now.T.Contents() && Pushes(g, now.T, key) != [] && g.n == 1)
  }

  /** How an update ends: done, or the program has stopped. */
  datatype Outcome = Updated | Aborted

  class PetKV {
    const index: Index
    const recycler: ShmEpochRecycle
    /** The known size of the values, 0 if they vary. */
    const known: nat
    /**
      The block of each stored key, the key of each such block, and the blocks of evicted
      keys, which nobody will free.
     */
    ghost var blocks: map<Key, Block>
    ghost var owner: map<Block, Key>
    ghost var lost: set<Block>
    /** The snapshots taken at the start of each update. */
    ghost var snaps: seq<Snapshot>

    ghost predicate Wired()
      reads this, recycler.malloc.pool
    {
      && |recycler.malloc.pool.region| <= index.memory
      && recycler.malloc.pool.perfect == (known != 0) && recycler.malloc.pool.sizes == SizesFor(known)
    }

    ghost predicate Valid()
      reads this, index, index.dict, index.dict.table, recycler.malloc, recycler.malloc.pool, recycler, recycler.epochs
    {
      var parts := index.Valid() && recycler.Valid();
      var books := Books(index.at, blocks, owner, recycler.blocks, lost, recycler.malloc.data);
      Wired() && parts && books && Tracks(recycler.epochs.st, owner, recycler.malloc.data.Keys)
    }

    /** The map from keys to values that the store stands for. */
    ghost function View(): map<Key, seq<Byte>>
      reads this, recycler.malloc
    {
      Values(blocks, recycler.malloc.value)
    }

    /** Since its log was `was` and it led to the offsets `at`, the index has come to lead `key` anew. */
    ghost predicate Walked(was: Past, at: map<Key, int>, gone: seq<Key>, key: Key)
      reads index, index.dict
    {
      && was.states <= index.dict.states && was.labels <= index.dict.labels && |was.states| == |was.labels| + 1
      && index.config.Valid() && key in index.at
      && Trail(index.config, index.dict.states, index.dict.labels, |was.labels|, at, gone, key, index.at[key])
    }

    /** Put a shard together from its parts. */
    constructor (index: Index, recycler: ShmEpochRecycle, known: nat,
                 ghost blocks: map<Key, Block>, ghost owner: map<Block, Key>, ghost lost: set<Block>)
      requires index.Valid() && recycler.Valid() && |recycler.malloc.pool.region| <= index.memory
      requires recycler.malloc.pool.perfect == (known != 0) && recycler.malloc.pool.sizes == SizesFor(known)
      requires Books(index.at, blocks, owner, recycler.blocks, lost, recycler.malloc.data)
      requires Tracks(recycler.epochs.st, owner, recycler.malloc.data.Keys)
      ensures Valid() && this.index == index && this.recycler == recycler && this.known == known
      ensures this.blocks == blocks && this.owner == owner && this.lost == lost
    {
      this.index, this.recycler, this.known := index, recycler, known;
      this.blocks, this.owner, this.lost, snaps := blocks, owner, lost, [];
    }

    /** The size field of the index counts the keys of the store. */
    lemma Count()
      requires Valid()
      ensures index.dict.size == |View()|
    {
      index.Size();
      BooksKeys(index.at, blocks, owner, recycler.blocks, lost, recycler.malloc.data);
      assert View().Keys == blocks.Keys;
    }

    /** A new key whose home chunk has 14 keys already, in a store 90 per cent full. */
    ghost predicate Presses(key: Key)
      reads this, index, index.dict, index.dict.table, recycler.malloc
      requires index.Valid()
    {
      key !in View() && index.HomeSize(key) == 14 && 10 * |View()| >= 9 * 14 * index.dict.g.n
    }

    /** A key is evicted exactly for such a key; it is one key, and it was stored. */
    lemma EvictsWhenFull(key: Key)
      requires Valid()
      ensures MayEvict(index.dict.g, View(), key, index.Pushed(key))
      ensures |index.Pushed(key)| == if Presses(key) then 1 else 0
    {
      Count();
      BooksKeys(index.at, blocks, owner, recycler.blocks, lost, recycler.malloc.data);
      index.PushedIsStored(key);
      index.PushedInNumbers(key);
      index.Size();
      assert View().Keys == blocks.Keys;
      assert index.Pushed(key) != [] ==> index.Pushed(key)[0] in index.Pushed(key);
    }

    /** Every block of the pool is owned by a key, waits in the queue, or is lost to eviction. */
    lemma Conservation()
      requires Valid()
      ensures recycler.malloc.pool.total == index.dict.size + |recycler.queue| + |lost|
    {
      index.Size();
      recycler.malloc.Count();
      QueuedIs(recycler.queue, recycler.blocks, recycler.malloc.data, recycler.epochs.st);
      BooksAddUp(index.at, blocks, owner, recycler.blocks, lost, recycler.malloc.data);
    }

    /** A block that can be found is sheltered by every published session. */
    lemma LinkedIsKept(t: nat, j: nat, b: Block)
      requires Valid() && b in recycler.epochs.st.linked
      requires t < |recycler.epochs.st.table| && j < |recycler.epochs.st.table[t]|
      ensures Keeps(recycler.epochs.st, t, j, b, recycler.epochs.st.current)
      ensures b in recycler.malloc.data && b in recycler.malloc.value
    {
      recycler.epochs.Bounds();
      recycler.epochs.Published();
      recycler.malloc.SameKeys();
      QueuedIs(recycler.queue, recycler.blocks, recycler.malloc.data, recycler.epochs.st);
      OwnedIsNot(index.at, blocks, owner, recycler.blocks, lost, recycler.malloc.data, b);
    }

    // ---- Reading ----

    /** Look up a key and read the value that its block holds. */
    method Get(key: Key) returns (found: bool, bytes: seq<Byte>, ghost b: Block)
      requires Valid()
      ensures found <==> key in View()
      ensures found ==> bytes == View()[key] && b in recycler.epochs.st.linked && b in recycler.malloc.value
      ensures found ==> bytes == recycler.malloc.value[b]
    {
      b := Block(0, 0);
      BooksKeys(index.at, blocks, owner, recycler.blocks, lost, recycler.malloc.data);
      var slot, off := index.Find(key);
      if slot.None? {
        return false, [], b;
      }
      OwnedAt(index.at, blocks, owner, recycler.blocks, lost, recycler.malloc.data, key);
      b := blocks[key];
      var size := known;
      if known == 0 {
        size := recycler.malloc.GetMallocSize(off, b);
      } else {
        recycler.malloc.KnownSize(b, known);
      }
      bytes := recycler.malloc.GetMallocData(off, size, b);
      found := true;
    }

    /** The same by thread `t` in its newest session; the epoch manager records that the session holds the block. */
    method Read(t: nat, key: Key) returns (found: bool, bytes: seq<Byte>, ghost b: Block)
      requires Valid() && t < |recycler.epochs.table| && recycler.epochs.table[t] != []
      modifies recycler.epochs`run, recycler.epochs`st
      ensures Valid() && recycler.epochs.orderly == old(recycler.epochs.orderly)
      ensures found <==> key in View()
      ensures found ==> bytes == View()[key] && b in recycler.malloc.value && bytes == recycler.malloc.value[b]
      ensures found ==> b in recycler.epochs.st.linked
      ensures found ==> t < |recycler.epochs.st.table| && Newest(recycler.epochs.st.table[t], b)
    {
      found, bytes, b := Get(key);
      if found {
        recycler.epochs.Bounds();
        ghost var st := recycler.epochs.st;
        recycler.epochs.Note(Epoch.Read(t, |recycler.epochs.table[t]| - 1, b));
        QueuedLater(recycler.queue, recycler.blocks, recycler.malloc.data, st, recycler.epochs.st);
      }
    }

    // ---- Closing ----

    /**
      Shut down: everything that waits is freed. The map stays, but the blocks lost to
      eviction are still allocated.
     */
    method Close()
      requires Valid()
      modifies recycler`queue, recycler`blocks, recycler.malloc, recycler.malloc.pool`chunks, recycler.malloc.pool`total
      ensures Wired() && index.Valid() && recycler.malloc.Valid() && recycler.queue == [] && recycler.blocks == []
      ensures Books(index.at, blocks, owner, [], lost, recycler.malloc.data) && View() == old(View())
    {
      BooksClear(index.at, blocks, owner, recycler.blocks, lost, recycler.malloc.data, recycler.malloc.value);
      recycler.Clear();
    }

    // ---- Update ----

    /** Block `b` was taken from the pool for `log` but is not yet given to a key. */
    ghost predicate Holding(b: Block, off: nat, log: seq<Byte>)
      reads this, index, index.dict, index.dict.table, recycler.malloc, recycler.malloc.pool, recycler, recycler.epochs
    {
      var parts := index.Valid() && recycler.Valid();
      var books := Books(index.at, blocks, owner, recycler.blocks, lost + {b}, recycler.malloc.data);
      && Wired() && parts && books && b !in lost && b !in owner && b !in recycler.blocks
      && b in recycler.malloc.data && recycler.malloc.data[b] == off
      && b in recycler.malloc.value && recycler.malloc.value[b] == log
      && Tracks(recycler.epochs.st, owner, recycler.malloc.data.Keys - {b})
    }

    /** Allocate a block and copy the value into it. */
    method Allocate(log: seq<Byte>) returns (r: Option<nat>, ghost b: Block)
      requires Valid() && |log| < 0x8000_0000
      modifies recycler.malloc, recycler.malloc.pool
      ensures r.None? <==> old(recycler.malloc.pool.NoRoom(|log|))
      ensures r.Some? ==> Holding(b, r.value, log) && View() == old(View())
      ensures r.Some? ==> Steady(old(recycler.malloc.value), recycler.malloc.value)
      ensures r.Some? ==> (r.value % 8 == 0 ==> r.value + 8 <= index.memory) && (known % 8 == 0 ==> r.value % 8 == 0)
      ensures r.Some? ==> old(recycler.malloc.value).Keys <= recycler.malloc.value.Keys
      ensures r.Some? ==> Steady(old(recycler.malloc.data), recycler.malloc.data)
                          && old(recycler.malloc.data).Keys <= recycler.malloc.data.Keys
    {
      SizesIncrease(known);
      ghost var data, value := recycler.malloc.data, recycler.malloc.value;
      recycler.malloc.SameKeys();
      r, b := recycler.malloc.Put(log);
      if r.Some? {
        QueuedNew(recycler.queue, recycler.blocks, data, recycler.epochs.st, b, r.value);
        BooksNew(index.at, blocks, owner, recycler.blocks, lost, data, value, b, r.value, log);
        assert data[b := r.value].Keys - {b} == data.Keys;
      }
    }

    /** Store the value of a key that was not stored. The index may evict a key; its block is lost. */
    method Insert(key: Key, log: seq<Byte>, off: nat, ghost b: Block) returns (done: bool)
      requires Holding(b, off, log) && off % 8 == 0 && off + 8 <= index.memory && key != NO_KEY && key !in index.at
      modifies this`blocks, this`owner, this`lost, index, index.dict, index.dict.table
      modifies recycler.epochs`run, recycler.epochs`st
      ensures done <==> !(old(index.Pushed(key)) != [] && index.dict.g.n == 1)
      ensures done ==> Valid() && View() == Put(old(View()), Elems(old(index.Pushed(key))), key, log)
      ensures done ==> lost == old(lost) + Evicted(old(owner), Elems(old(index.Pushed(key))))
      ensures recycler.epochs.st.table == old(recycler.epochs.st.table)
      ensures done ==> StillKeeps(old(recycler.epochs.st), recycler.epochs.st)
      ensures done ==> Walked(old(index.Log()), old(index.at), old(index.Pushed(key)), key)
    {
      index.Lengths();
      ghost var gone := Elems(index.Pushed(key));
      ghost var more := Evicted(owner, gone);
      BooksInsert(index.at, blocks, owner, recycler.blocks, lost, recycler.malloc.data, gone, key, b);
      ValuesInsert(blocks, recycler.malloc.value, gone, key, b);
      done := index.Add(key, off);
      if done {
        ghost var st := recycler.epochs.st;
        recycler.Relink(more, b);
        InsertTracks(st, recycler.epochs.st, owner, recycler.malloc.data, more, b, key);
        blocks, owner, lost := Put(blocks, gone, key, b), Put(owner, more, b, key), lost + more;
      }
    }

    /**
      Retire the block of a stored key in favour of block `b`. The key still leads to
      the old block; `at` are the offsets in the index.
     */
    method Retire(off: nat, ghost at: map<Key, int>, ghost key: Key, ghost b: Block) returns (ghost freed: set<Block>)
      requires recycler.Valid() && Books(at, blocks, owner, recycler.blocks, lost + {b}, recycler.malloc.data)
               && b !in lost
      requires key in at && at[key] == off && b in recycler.malloc.data && b in recycler.malloc.value
               && b !in recycler.blocks
      requires Tracks(recycler.epochs.st, owner, recycler.malloc.data.Keys - {b})
      modifies recycler, recycler.malloc, recycler.malloc.pool`chunks, recycler.malloc.pool`total, recycler.epochs
      ensures recycler.Valid() && key in blocks && blocks[key] in owner && owner[blocks[key]] == key && b !in freed
      ensures Books(at[key := old(recycler.malloc.data[b])], Put(blocks, {}, key, b), Put(owner, {blocks[key]}, b, key),
                    recycler.blocks, lost, recycler.malloc.data)
      ensures Values(Put(blocks, {}, key, b), recycler.malloc.value)
              == old(View())[key := old(recycler.malloc.value[b])]
      ensures recycler.malloc.data == old(recycler.malloc.data) - freed
              && recycler.malloc.value == old(recycler.malloc.value) - freed
      ensures Tracks(recycler.epochs.st, owner, recycler.malloc.data.Keys - {b})
      ensures recycler.recycled == old(recycler.recycled) + 1
              && recycler.epochs.st.table == old(recycler.epochs.st.table)
      ensures recycler.epochs.orderly <==> old(recycler.epochs.orderly) && recycler.recycled % 1000 != 0
      ensures StillKeeps(old(recycler.epochs.st), recycler.epochs.st) && recycler.queue != []
    {
      ghost var data, value, waiting, st := recycler.malloc.data, recycler.malloc.value, recycler.blocks,
        recycler.epochs.st;
      OwnedAt(at, blocks, owner, waiting, lost + {b}, data, key);
      QueuedIs(recycler.queue, waiting, data, st);
      ghost var was := blocks[key];
      StillLinked(st, was);
      ghost var k := recycler.Recycle(off, was);
      BooksSwap(at, blocks, owner, waiting, lost, data, key, b, k);
      ValuesSwap(at, blocks, owner, waiting, lost, data, value, key, b, k);
      freed := SetOf(waiting[..k]);
      FreedTracks(st, recycler.epochs.st, owner, data, b, freed);
    }

    /** Point a stored key at block `b`; the old block has been retired. */
    method Repoint(key: Key, slot: Slot, off: nat, ghost b: Block)
      requires Wired() && index.Valid() && recycler.Valid() && index.Holds(key, slot)
      requires off % 8 == 0 && off + 8 <= index.memory && b in recycler.malloc.data
      requires key in blocks && blocks[key] in owner && owner[blocks[key]] == key
      requires Books(index.at[key := off], Put(blocks, {}, key, b), Put(owner, {blocks[key]}, b, key),
                     recycler.blocks, lost, recycler.malloc.data)
      requires Tracks(recycler.epochs.st, owner, recycler.malloc.data.Keys - {b})
      modifies this`blocks, this`owner, index`at, index.dict.table, index.dict`states, index.dict`labels
      modifies recycler.epochs`run, recycler.epochs`st
      ensures Valid() && blocks == Put(old(blocks), {}, key, b)
      ensures recycler.epochs.st.table == old(recycler.epochs.st.table)
      ensures StillKeeps(old(recycler.epochs.st), recycler.epochs.st)
      ensures Walked(old(index.Log()), old(index.at), [], key)
    {
      index.Lengths();
      ghost var was, st := blocks[key], recycler.epochs.st;
      index.Move(key, slot, off);
      recycler.Relink({was}, b);
      SwapTracks(st, recycler.epochs.st, owner, recycler.malloc.data, was, b, key);
      blocks, owner := Put(blocks, {}, key, b), Put(owner, {was}, b, key);
    }

    /** Replace the value of a stored key: first its old block is retired, then the key is pointed at the new one. */
    method Replace(key: Key, slot: Slot, at: nat, log: seq<Byte>, off: nat, ghost b: Block)
      requires Holding(b, off, log) && off % 8 == 0 && off + 8 <= index.memory && index.Holds(key, slot)
               && index.at[key] == at
      modifies this`blocks, this`owner, index`at, index.dict.table, index.dict`states, index.dict`labels
      modifies recycler, recycler.malloc, recycler.malloc.pool`chunks, recycler.malloc.pool`total, recycler.epochs
      ensures Valid() && View() == old(View())[key := log] && Steady(old(recycler.malloc.value), recycler.malloc.value)
      ensures recycler.recycled == old(recycler.recycled) + 1
      ensures recycler.epochs.st.table == old(recycler.epochs.st.table)
      ensures recycler.epochs.orderly <==> old(recycler.epochs.orderly) && recycler.recycled % 1000 != 0
      ensures Steady(old(recycler.malloc.data), recycler.malloc.data)
      ensures StillKeeps(old(recycler.epochs.st), recycler.epochs.st) && recycler.queue != []
      ensures Walked(old(index.Log()), old(index.at), [], key)
    {
      ghost var freed := Retire(at, index.at, key, b);
      Repoint(key, slot, off, b);
    }

    /** Give block `b` to a key, stored or not. */
    method Hand(key: Key, slot: Option<Slot>, at: int, log: seq<Byte>, off: nat, ghost b: Block) returns (done: bool)
      requires Holding(b, off, log) && off % 8 == 0 && off + 8 <= index.memory && key != NO_KEY
      requires if slot.Some? then index.Holds(key, slot.value) && index.at[key] == at else key !in index.at
      modifies this`blocks, this`owner, this`lost, index, index.dict, index.dict.table
      modifies recycler, recycler.malloc, recycler.malloc.pool`chunks, recycler.malloc.pool`total, recycler.epochs
      ensures done <==> !(old(index.Pushed(key)) != [] && index.dict.g.n == 1)
      ensures done ==> Valid() && View() == Put(old(View()), Elems(old(index.Pushed(key))), key, log)
      ensures done ==> lost == old(lost) + Evicted(old(owner), Elems(old(index.Pushed(key))))
      ensures Steady(old(recycler.malloc.value), recycler.malloc.value)
              && recycler.epochs.st.table == old(recycler.epochs.st.table)
      ensures recycler.recycled == old(recycler.recycled) + if slot.Some? then 1 else 0
      ensures recycler.epochs.orderly <==>
              old(recycler.epochs.orderly) && !(slot.Some? && recycler.recycled % 1000 == 0)
      ensures Steady(old(recycler.malloc.data), recycler.malloc.data)
      ensures done ==> StillKeeps(old(recycler.epochs.st), recycler.epochs.st)
      ensures done ==> Walked(old(index.Log()), old(index.at), old(index.Pushed(key)), key)
      ensures done && slot.Some? ==> recycler.queue != []
    {
      if slot.None? {
        done := Insert(key, log, off, b);
        return;
      }
      assert index.Pushed(key) == [];
      ghost var was, owned := View(), owner;
      OwnedAt(index.at, blocks, owner, recycler.blocks, lost + {b}, recycler.malloc.data, key);
      Replace(key, slot.value, at, log, off, b);
      NobodyLeaves(was, owned, key, log);
      done := true;
    }

    /** The update cannot be done: the pool has no room, or a single full chunk is all there is of the index. */
    ghost predicate Stops(key: Key, size: nat)
      reads this, index, index.dict, index.dict.table, recycler.malloc.pool
      requires index.Valid()
    {
      recycler.malloc.pool.NoRoom(size) || (index.Pushed(key) != [] && index.dict.g.n == 1)
    }

    ghost function Snap(): Snapshot
      reads index, index.dict, index.dict.table, recycler.malloc.pool
    {
      Snapshot(index.dict.T(), recycler.malloc.pool.chunks, recycler.malloc.pool.free)
    }

    /** Whether an update can be done is decided by the snapshot, whose table holds the keys of the store. */
    lemma StopsBySnap(key: Key, size: nat)
      requires Valid()
      ensures index.dict.g.Valid() && Snap().T.Shaped(index.dict.g) && Snap().T.Contents().Keys == View().Keys
      ensures Stops(key, size) <==> StopsIn(index.dict.g, known, Snap(), key, size)
    {
      index.PushedIs(key);
      BooksKeys(index.at, blocks, owner, recycler.blocks, lost, recycler.malloc.data);
      assert View().Keys == blocks.Keys;
    }

    /** The work of an update. */
    method Perform(key: Key, log: seq<Byte>) returns (r: Outcome)
      requires Valid() && key != NO_KEY && |log| < 0x8000_0000
      modifies this`blocks, this`owner, this`lost, index, index.dict, index.dict.table
      modifies recycler.malloc, recycler.malloc.pool, recycler, recycler.epochs
      ensures old(Stops(key, |log|)) ==> r.Aborted?
      ensures r.Aborted? ==> old(Stops(key, |log|)) || known % 8 != 0
      ensures r.Updated? ==> Valid() && View() == Put(old(View()), Elems(old(index.Pushed(key))), key, log)
      ensures r.Updated? ==> lost == old(lost) + Evicted(old(owner), Elems(old(index.Pushed(key))))
      ensures r.Updated? ==> |lost| == |old(lost)| + |old(index.Pushed(key))|
      ensures r.Updated? ==> Shelters(old(recycler.epochs.st), old(recycler.malloc.data), old(recycler.malloc.value),
                                      recycler.epochs.st, recycler.malloc.data, recycler.malloc.value)
      ensures r.Updated? ==> Walked(old(index.Log()), old(index.at), old(index.Pushed(key)), key)
      ensures r.Updated? && key in old(View()) ==> recycler.queue != []
      ensures r.Updated? ==> recycler.epochs.st.table == old(recycler.epochs.st.table)
      ensures r.Updated? ==> recycler.recycled == old(recycler.recycled) + if key in old(View()) then 1 else 0
      ensures r.Updated? ==>
                (recycler.epochs.orderly <==>
                 old(recycler.epochs.orderly) && !(key in old(View()) && recycler.recycled % 1000 == 0))
    {
      BooksKeys(index.at, blocks, owner, recycler.blocks, lost, recycler.malloc.data);
      index.PushedIsStored(key);
      EvictedSize(index.at, blocks, owner, recycler.blocks, lost, recycler.malloc.data, index.Pushed(key));
      var slot, at := index.Find(key);
      ghost var st, data, value := recycler.epochs.st, recycler.malloc.data, recycler.malloc.value;
      var off; ghost var b;
      off, b := Allocate(log);
      if off.None? || off.value % 8 != 0 {
        return Aborted;
      }
      ghost var data1, value1 := recycler.malloc.data, recycler.malloc.value;
      var done := Hand(key, slot, at, log, off.value, b);
      if done {
        SteadyTrans(data, data1, recycler.malloc.data);
        SteadyTrans(value, value1, recycler.malloc.value);
        recycler.malloc.SameKeys();
        ShelterAll(st, data, value, recycler.epochs.st, recycler.malloc.data, recycler.malloc.value);
      }
      return if done then Updated else Aborted;
    }

    /**
      Store a value. The map changes at this key only, but for a key that a full index
      evicts to make room. The run of the epoch machine stays orderly unless a stored
      key is replaced for a thousandth time. When blocks do not lie on multiples of 8
      the program may stop as well.
     */
    method Update(key: Key, log: seq<Byte>) returns (r: Outcome)
      requires Valid() && key != NO_KEY && |log| < 0x8000_0000
      modifies this`blocks, this`owner, this`lost, this`snaps, index, index.dict, index.dict.table
      modifies recycler.malloc, recycler.malloc.pool, recycler, recycler.epochs
      ensures snaps == old(snaps) + [old(Snap())]
      ensures old(Stops(key, |log|)) ==> r.Aborted?
      ensures r.Aborted? ==> old(Stops(key, |log|)) || known % 8 != 0
      ensures r.Updated? ==> Valid() && View() == Put(old(View()), Elems(old(index.Pushed(key))), key, log)
      ensures r.Updated? ==> |old(index.Pushed(key))| == if old(Presses(key)) then 1 else 0
      ensures r.Updated? ==> lost == old(lost) + Evicted(old(owner), Elems(old(index.Pushed(key))))
      ensures r.Updated? ==> |lost| == |old(lost)| + |old(index.Pushed(key))|
      ensures r.Updated? ==> Shelters(old(recycler.epochs.st), old(recycler.malloc.data), old(recycler.malloc.value),
                                      recycler.epochs.st, recycler.malloc.data, recycler.malloc.value)
      ensures r.Updated? ==> Walked(old(index.Log()), old(index.at), old(index.Pushed(key)), key)
      ensures r.Updated? && key in old(View()) ==> recycler.queue != []
      ensures r.Updated? ==> recycler.epochs.st.table == old(recycler.epochs.st.table)
      ensures r.Updated? ==> recycler.recycled == old(recycler.recycled) + if key in old(View()) then 1 else 0
      ensures r.Updated? ==>
                (recycler.epochs.orderly <==>
                 old(recycler.epochs.orderly) && !(key in old(View()) && recycler.recycled % 1000 == 0))
    {
      snaps := snaps + [Snap()];
      EvictsWhenFull(key);
      r := Perform(key, log);
    }
  }

  /** The keys left alone when nothing is evicted. */
  lemma NobodyLeaves(m: map<Key, seq<Byte>>, owner: map<Block, Key>, key: Key, log: seq<Byte>)
    ensures Put(m, Elems([]), key, log) == m[key := log] && Evicted(owner, Elems([])) == {}
  {
    assert Evicted(owner, Elems([])) == {};
    assert m - Elems([]) == m;
  }

  /** A block that is retired while readers can find it spoils a bump. */
  lemma StillLinked(st: Epoch.State, b: Block)
    requires b in st.linked
    ensures !Epoch.Clean(WithRetired(st, b))
  {
    assert b in WithRetired(st, b).linked && b in WithRetired(st, b).retired;
  }

  /** The newest session of a thread holds block `b`. */
  ghost predicate Newest(sessions: seq<Epoch.Session>, b: Block) {
    sessions != [] && b in sessions[|sessions| - 1].holds
  }
}
