/** The queue of retired blocks: each waits until its epoch is safe. */
module Recycle {
  import opened Seals
  import opened Chunks
  import opened Malloc
  import opened Epochs
  import Epoch

  /** A retired block: its removal epoch and its offset. */
  datatype Retired = Retired(epoch: nat, off: nat)

  ghost function SetOf(bs: seq<Block>): (r: set<Block>)
    ensures forall b :: b in r <==> b in bs
  {
    set b | b in bs
  }

  ghost predicate Distinct(bs: seq<Block>) {
    forall i: nat, j: nat :: i < j < |bs| ==> bs[i] != bs[j]
  }

  /**
    The queue lists live blocks, once each, in the order of their removal epochs, and
    these are the blocks and epochs that the epoch machine knows as retired.
   */
  ghost predicate Lists(queue: seq<Retired>, blocks: seq<Block>, data: map<Block, nat>, st: Epoch.State) {
    && |blocks| == |queue| && Distinct(blocks)
    && (forall i: nat, j: nat :: i < j < |queue| ==> queue[i].epoch <= queue[j].epoch)
    && (forall i: nat :: i < |queue| ==> queue[i].epoch <= st.current)
    && (forall i: nat :: i < |queue| ==> blocks[i] in data && queue[i].off == data[blocks[i]])
    && (forall b :: b in st.retired <==> b in blocks)
    && (forall i: nat :: i < |queue| ==> st.retired[blocks[i]] == queue[i].epoch)
  }

  ghost predicate Queued(queue: seq<Retired>, blocks: seq<Block>, data: map<Block, nat>, st: Epoch.State) {
    forall n: nat {:trigger QueueSeal(n)} :: QueueSeal(n) ==> Lists(queue, blocks, data, st)
  }

  /** The state of the machine when block `b` is retired. */
  ghost function WithRetired(st: Epoch.State, b: Block): Epoch.State {
    st.(retired := st.retired[b := st.current])
  }

  /** The state of the machine when the blocks `gone` are freed. */
  ghost function WithFreed(st: Epoch.State, gone: set<Block>): Epoch.State {
    st.(retired := st.retired - gone, busy := st.busy - gone)
  }

  lemma QueuedMore(queue: seq<Retired>, blocks: seq<Block>, data: map<Block, nat>, st: Epoch.State, b: Block)
    requires Queued(queue, blocks, data, st) && b in data && b !in blocks
    ensures Queued(queue + [Retired(st.current, data[b])], blocks + [b], data, WithRetired(st, b)) && b !in st.retired
  {
    assert QueueSeal(0);
  }

  lemma QueuedLater(queue: seq<Retired>, blocks: seq<Block>, data: map<Block, nat>, st: Epoch.State, st': Epoch.State)
    requires Queued(queue, blocks, data, st) && st.current <= st'.current && st'.retired == st.retired
    ensures Queued(queue, blocks, data, st')
  {
    assert QueueSeal(0);
  }

  /** What is left of the queue when its first block is freed. */
  lemma QueuedRest(queue: seq<Retired>, blocks: seq<Block>, data: map<Block, nat>, st: Epoch.State)
    requires Queued(queue, blocks, data, st) && queue != []
    ensures blocks != [] && blocks[0] in data && queue[0].off == data[blocks[0]]
    ensures blocks[0] in st.retired && st.retired[blocks[0]] == queue[0].epoch
    ensures Queued(queue[1..], blocks[1..], data - {blocks[0]}, WithFreed(st, {blocks[0]}))
  {
    assert QueueSeal(0);
    assert blocks == [blocks[0]] + blocks[1..];
  }

  lemma QueuedNew(queue: seq<Retired>, blocks: seq<Block>, data: map<Block, nat>, st: Epoch.State, b: Block, off: nat)
    requires Queued(queue, blocks, data, st) && b !in data
    ensures Queued(queue, blocks, data[b := off], st)
  {
    assert QueueSeal(0);
  }

  lemma QueuedIs(queue: seq<Retired>, blocks: seq<Block>, data: map<Block, nat>, st: Epoch.State)
    requires Queued(queue, blocks, data, st)
    ensures |blocks| == |queue| && Distinct(blocks) && (forall b :: b in st.retired <==> b in blocks)
  {
    assert QueueSeal(0);
  }

  lemma FrontNext<V>(blocks: seq<Block>, k: nat, m: map<Block, V>)
    requires k < |blocks|
    ensures m - SetOf(blocks[..k]) - {blocks[k]} == m - SetOf(blocks[..k + 1])
  {
    assert blocks[..k + 1] == blocks[..k] + [blocks[k]];
  }

  lemma FreedNext(st: Epoch.State, blocks: seq<Block>, k: nat)
    requires k < |blocks|
    ensures WithFreed(WithFreed(st, SetOf(blocks[..k])), {blocks[k]}) == WithFreed(st, SetOf(blocks[..k + 1]))
  {
    assert blocks[..k + 1] == blocks[..k] + [blocks[k]];
    var gone := SetOf(blocks[..k]);
    assert SetOf(blocks[..k + 1]) == gone + {blocks[k]};
    assert st.busy - gone - {blocks[k]} == st.busy - (gone + {blocks[k]});
    assert st.retired - gone - {blocks[k]} == st.retired - (gone + {blocks[k]});
  }

  lemma NothingGone<U, V>(blocks: seq<Block>, m: map<Block, U>, n: map<Block, V>, st: Epoch.State)
    ensures m - SetOf(blocks[..0]) == m && n - SetOf(blocks[..0]) == n && WithFreed(st, SetOf(blocks[..0])) == st
  {
    assert SetOf(blocks[..0]) == {};
    assert st.busy - {} == st.busy && st.retired - {} == st.retired;
  }

  /** The first `k` blocks have been freed. */
  ghost predicate Drained<V(!new)>(blocks: seq<Block>, data: map<Block, nat>, value: map<Block, V>, st: Epoch.State,
                                   k: nat,
                                   data': map<Block, nat>, value': map<Block, V>, st': Epoch.State)
  {
    && k <= |blocks| && data' == data - SetOf(blocks[..k]) && value' == value - SetOf(blocks[..k])
    && st' == WithFreed(st, SetOf(blocks[..k]))
  }

  lemma DrainedNext<V(!new)>(blocks: seq<Block>, data: map<Block, nat>, value: map<Block, V>, st: Epoch.State, k: nat,
                             data': map<Block, nat>, value': map<Block, V>, st': Epoch.State)
    requires Drained(blocks, data, value, st, k, data', value', st') && k < |blocks|
    ensures Drained(blocks, data, value, st, k + 1, data' - {blocks[k]}, value' - {blocks[k]},
                    WithFreed(st', {blocks[k]}))
  {
    FrontNext(blocks, k, data);
    FrontNext(blocks, k, value);
    FreedNext(st, blocks, k);
  }

  /** In a queue in order, the first unsafe entry separates the safe ones from the others. */
  lemma StopsAtUnsafe(queue: seq<Retired>, blocks: seq<Block>, data: map<Block, nat>, st: Epoch.State, k: nat,
                      safe: nat)
    requires Queued(queue, blocks, data, st) && k <= |queue| && forall i: nat :: i < k ==> queue[i].epoch <= safe
    requires k < |queue| ==> queue[k..][0].epoch > safe
    ensures forall i: nat :: i < |queue| ==> (queue[i].epoch <= safe <==> i < k)
  {
    assert QueueSeal(0);
    if k < |queue| {
      assert queue[k].epoch > safe;
      forall i: nat | k < i < |queue| ensures queue[k].epoch <= queue[i].epoch {}
    }
  }

  // ---- What a published epoch shelters ----

  /** The `j`-th session of thread `t` shelters block `b`, which was not retired before epoch `a`. */
  ghost predicate Keeps(st: Epoch.State, t: nat, j: nat, b: Block, a: nat) {
    && t < |st.table| && j < |st.table[t]| && b in st.busy && st.table[t][j].epoch <= a <= st.current
    && st.safe < a && (b in st.retired ==> a <= st.retired[b])
  }

  /** Whatever is sheltered in `st` is sheltered in `st'`. */
  ghost predicate StillKeeps(st: Epoch.State, st': Epoch.State) {
    forall t: nat, j: nat, b, a: nat :: Keeps(st, t, j, b, a) ==> Keeps(st', t, j, b, a)
  }

  /** The safe epoch is behind every published one. */
  ghost predicate Behind(st: Epoch.State, safe: nat) {
    forall t: nat, j: nat :: t < |st.table| && j < |st.table[t]| ==> safe < st.table[t][j].epoch
  }

  /** A Recycle frees only what is safe, and no bump makes safe what a session shelters. */
  lemma RecycleShelters(queue: seq<Retired>, blocks: seq<Block>, data: map<Block, nat>, st: Epoch.State, b: Block,
                        k: nat, st': Epoch.State)
    requires Queued(queue, blocks, data, st) && k <= |blocks| == |queue|
    requires st' == WithFreed(WithRetired(st, b), SetOf(blocks[..k])).(current := st'.current, safe := st'.safe)
    requires st.current <= st'.current && (st'.safe == st.safe || Behind(st, st'.safe))
    requires forall i: nat :: i < k ==> queue[i].epoch <= st'.safe
    ensures StillKeeps(st, st')
  {
    assert QueueSeal(0);
    forall x | x in blocks[..k] ensures x in st.retired && st.retired[x] <= st'.safe {
      var i: nat :| i < k && blocks[i] == x;
    }
    forall t: nat, j: nat, x, a: nat | Keeps(st, t, j, x, a) ensures Keeps(st', t, j, x, a) {
      assert st'.safe < a;
    }
  }

  class ShmEpochRecycle {
    const malloc: MallocApi
    const epochs: EpochManager
    var queue: seq<Retired>
    var recycled: nat
    /** The blocks that the queue stands for. */
    ghost var blocks: seq<Block>

    ghost predicate Valid()
      reads this, malloc, malloc.pool, epochs
    {
      malloc.Valid() && epochs.Valid() && Queued(queue, blocks, malloc.data, epochs.st)
    }

    constructor (malloc: MallocApi, epochs: EpochManager)
      requires malloc.Valid() && epochs.Valid() && epochs.st.retired == map[]
      ensures Valid() && this.malloc == malloc && this.epochs == epochs && queue == [] && blocks == [] && recycled == 0
    {
      this.malloc, this.epochs := malloc, epochs;
      queue, recycled, blocks := [], 0, [];
    }

    /** Free the block at the head of the queue, whose epoch is safe. */
    method FreeFront()
      requires Valid() && queue != [] && queue[0].epoch <= epochs.safe
      modifies this`queue, this`blocks, malloc, malloc.pool`chunks, malloc.pool`total, epochs`run, epochs`st
      ensures Valid() && old(blocks) != [] && queue == old(queue[1..]) && blocks == old(blocks)[1..]
      ensures malloc.data == old(malloc.data) - {old(blocks)[0]} && malloc.value == old(malloc.value) - {old(blocks)[0]}
      ensures epochs.st == WithFreed(old(epochs.st), {old(blocks)[0]})
              && epochs.run == old(epochs.run) + [Epoch.Free(old(blocks)[0])]
    {
      QueuedRest(queue, blocks, malloc.data, epochs.st);
      epochs.Bounds();
      var ok := malloc.Free(queue[0].off, blocks[0]);
      epochs.Note(Epoch.Free(blocks[0]));
      queue, blocks := queue[1..], blocks[1..];
    }

    /**
      Free from the front as long as the removal epoch is safe. The epochs are in order, so
      this frees all that is safe.
     */
    method Drain() returns (ghost k: nat)
      requires Valid()
      modifies this`queue, this`blocks, malloc, malloc.pool`chunks, malloc.pool`total, epochs`run, epochs`st
      ensures Valid() && k <= |old(queue)| == |old(blocks)| && queue == old(queue)[k..] && blocks == old(blocks)[k..]
      ensures malloc.data == old(malloc.data) - SetOf(old(blocks)[..k])
              && malloc.value == old(malloc.value) - SetOf(old(blocks)[..k])
      ensures epochs.st == WithFreed(old(epochs.st), SetOf(old(blocks)[..k]))
      ensures forall i: nat :: i < |old(queue)| ==> (old(queue)[i].epoch <= epochs.safe <==> i < k)
      ensures old(epochs.run) <= epochs.run
    {
      ghost var data, st := malloc.data, epochs.st;
      QueuedIs(queue, blocks, data, st);
      k := DrainSafe();
      StopsAtUnsafe(old(queue), old(blocks), data, st, k, epochs.safe);
    }

    /** The first `k` entries of a queue are safe, the next one is not. */
    ghost predicate StopsAt(queue0: seq<Retired>, k: nat)
      reads this, epochs
    {
      && k <= |queue0| && queue == queue0[k..] && (forall i: nat :: i < k ==> queue0[i].epoch <= epochs.safe)
      && (queue != [] ==> queue[0].epoch > epochs.safe)
    }

    method DrainSafe() returns (ghost k: nat)
      requires Valid() && |queue| == |blocks|
      modifies this`queue, this`blocks, malloc, malloc.pool`chunks, malloc.pool`total, epochs`run, epochs`st
      ensures Valid() && StopsAt(old(queue), k) && blocks == old(blocks)[k..] && old(epochs.run) <= epochs.run
      ensures Drained(old(blocks), old(malloc.data), old(malloc.value), old(epochs.st), k, malloc.data, malloc.value,
                      epochs.st)
    {
      k := 0;
      ghost var data, value, st, bs := malloc.data, malloc.value, epochs.st, blocks;
      NothingGone(bs, data, value, st);
      while queue != [] && epochs.IsSafeToReclaim(queue[0].epoch)
        invariant Valid() && k <= |old(queue)| && queue == old(queue)[k..] && blocks == bs[k..]
        invariant old(epochs.run) <= epochs.run
        invariant Drained(bs, data, value, st, k, malloc.data, malloc.value, epochs.st)
        invariant forall i: nat :: i < k ==> old(queue)[i].epoch <= epochs.safe
        decreases |queue|
      {
        DrainedNext(bs, data, value, st, k, malloc.data, malloc.value, epochs.st);
        FreeFront();
        k := k + 1;
      }
    }

    /** Free everything, safe or not, as the program does when it shuts down. */
    method Clear()
      requires Valid()
      modifies this`queue, this`blocks, malloc, malloc.pool`chunks, malloc.pool`total
      ensures malloc.Valid() && queue == [] && blocks == []
      ensures malloc.data == old(malloc.data) - SetOf(old(blocks))
              && malloc.value == old(malloc.value) - SetOf(old(blocks))
    {
      ghost var k, data, value, st := 0, malloc.data, malloc.value, epochs.st;
      ghost var rest := st;
      NothingGone(blocks, data, value, st);
      while queue != []
        invariant malloc.Valid() && Queued(queue, blocks, malloc.data, rest) && k <= |old(blocks)|
                  && blocks == old(blocks)[k..]
        invariant malloc.data == data - SetOf(old(blocks)[..k]) && malloc.value == value - SetOf(old(blocks)[..k])
        decreases |queue|
      {
        QueuedRest(queue, blocks, malloc.data, rest);
        FrontNext(old(blocks), k, data);
        FrontNext(old(blocks), k, value);
        var ok := malloc.Free(queue[0].off, blocks[0]);
        rest := WithFreed(rest, {blocks[0]});
        queue, blocks := queue[1..], blocks[1..];
        k := k + 1;
      }
      QueuedIs(queue, blocks, malloc.data, rest);
      assert old(blocks)[..k] == old(blocks);
    }

    /** The state of the machine after a Recycle that freed the blocks `gone`. */
    ghost predicate Ends(st: Epoch.State, b: Block, gone: set<Block>)
      reads epochs
    {
      epochs.st == WithFreed(WithRetired(st, b), gone).(current := epochs.current, safe := epochs.safe)
    }

    /**
      Retire a block. It waits in the queue with the current epoch, and every thousandth
      time the epoch is bumped. Whatever is safe by then is freed, but not the block
      just retired, as nobody else bumps the epoch meanwhile.
     */
    method Recycle(off: nat, ghost b: Block) returns (ghost k: nat)
      requires Valid() && b in malloc.data && b !in blocks && off == malloc.data[b] && b in epochs.st.busy
      modifies this, malloc, malloc.pool`chunks, malloc.pool`total, epochs`current, epochs`safe, epochs`run, epochs`st,
        epochs`orderly
      ensures Valid() && recycled == old(recycled) + 1
      ensures epochs.current == old(epochs.current) + if recycled % 1000 == 0 then 1 else 0
      ensures k <= |old(queue)| == |old(blocks)|
      ensures queue == (old(queue) + [Retired(old(epochs.current), off)])[k..] && blocks == (old(blocks) + [b])[k..]
      ensures forall i: nat :: i < |old(queue)| ==> (old(queue)[i].epoch <= epochs.safe <==> i < k)
      ensures malloc.data == old(malloc.data) - SetOf(old(blocks)[..k])
              && malloc.value == old(malloc.value) - SetOf(old(blocks)[..k])
      ensures Ends(old(epochs.st), b, SetOf(old(blocks)[..k]))
      ensures epochs.orderly <==>
              old(epochs.orderly) && (recycled % 1000 == 0 ==> Epoch.Clean(WithRetired(old(epochs.st), b)))
      ensures old(epochs.run) + [Epoch.Retire(b)] <= epochs.run && StillKeeps(old(epochs.st), epochs.st)
    {
      epochs.Bounds();
      QueuedMore(queue, blocks, malloc.data, epochs.st, b);
      recycled := recycled + 1;
      epochs.Note(Epoch.Retire(b));
      queue, blocks := queue + [Retired(epochs.current, off)], blocks + [b];
      Bump();
      epochs.Bounds();
      ghost var all, bs := queue, blocks;
      k := Drain();
      assert all[|all| - 1] == Retired(old(epochs.current), off);
      assert forall i: nat :: i < |old(queue)| ==> all[i] == old(queue)[i];
      assert bs[..k] == old(blocks)[..k];
      RecycleShelters(old(queue), old(blocks), old(malloc.data), old(epochs.st), b, k, epochs.st);
    }

    /** Every thousandth time, bump the epoch. */
    method Bump()
      requires Valid()
      modifies epochs`current, epochs`safe, epochs`run, epochs`st, epochs`orderly
      ensures Valid() && epochs.current == old(epochs.current) + (if recycled % 1000 == 0 then 1 else 0)
      ensures epochs.st == old(epochs.st).(current := epochs.current, safe := epochs.safe)
              && epochs.safe < old(epochs.current)
      ensures epochs.orderly <==> old(epochs.orderly) && (recycled % 1000 == 0 ==> Epoch.Clean(old(epochs.st)))
      ensures old(epochs.run) <= epochs.run
      ensures epochs.safe == old(epochs.safe) || Behind(epochs.st, epochs.safe)
    {
      epochs.Bounds();
      if recycled % 1000 == 0 {
        ghost var st := epochs.st;
        epochs.Published();
        Epoch.NobodyIsOlder(st.table, st.current);
        epochs.BumpCurrentEpoch();
        QueuedLater(queue, blocks, malloc.data, st, epochs.st);
      }
    }

    /** Record that the blocks `gone` can no longer be found and block `b` now can. */
    ghost method Relink(gone: set<Block>, b: Block)
      requires Valid() && gone <= epochs.st.linked && b !in epochs.st.busy
      modifies epochs`run, epochs`st
      ensures Valid() && old(epochs.run) <= epochs.run && StillKeeps(old(epochs.st), epochs.st)
      ensures epochs.st == old(epochs.st).(linked := old(epochs.st.linked) - gone + {b},
                                           busy := old(epochs.st.busy) + {b})
    {
      ghost var rest, st := gone, epochs.st;
      while rest != {}
        invariant epochs.Valid() && rest <= gone && epochs.st == st.(linked := st.linked - (gone - rest))
        invariant old(epochs.run) <= epochs.run
        decreases rest
      {
        ghost var p :| p in rest;
        epochs.Note(Epoch.Unlink(p));
        assert gone - (rest - {p}) == gone - rest + {p};
        rest := rest - {p};
      }
      epochs.Note(Epoch.Link(b));
      QueuedLater(queue, blocks, malloc.data, st, epochs.st);
    }

    /** With no reader protected, two bumps make everything in the queue safe to free. */
    method BumpTwice() returns (ghost k: nat)
      requires Valid() && forall t: nat :: t < |epochs.st.table| ==> epochs.st.table[t] == []
      modifies this`queue, this`blocks, malloc, malloc.pool`chunks, malloc.pool`total
      modifies epochs`current, epochs`safe, epochs`run, epochs`st, epochs`orderly
      ensures Valid() && queue == []
    {
      ghost var st := epochs.st;
      epochs.Bounds();
      Epoch.NobodyIsOld(st.table, st.current);
      epochs.BumpCurrentEpoch();
      Epoch.NobodyIsOld(st.table, epochs.st.current);
      epochs.BumpCurrentEpoch();
      AllSafe(queue, blocks, malloc.data, st);
      QueuedLater(queue, blocks, malloc.data, st, epochs.st);
      ghost var all := queue;
      assert all != [] ==> all[|all| - 1].epoch <= epochs.safe;
      k := Drain();
      assert all != [] ==> |all| - 1 < k;
    }
  }

  lemma AllSafe(queue: seq<Retired>, blocks: seq<Block>, data: map<Block, nat>, st: Epoch.State)
    requires Queued(queue, blocks, data, st)
    ensures forall i: nat :: i < |queue| ==> queue[i].epoch <= st.current
  {
    assert QueueSeal(0);
  }
}
