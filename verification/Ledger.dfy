/**
  The books of a key-value store: which block each stored key owns, which blocks wait
  to be freed, and which are lost. Nothing here depends on the heap.
 */
module Ledger {
  import opened Options
  import opened Seals
  import opened Layout
  import opened Probe
  import opened Chunks
  import opened Changes
  import opened Recycle

  /** Keys and blocks own each other, and a key's offset is that of its block. */
  ghost predicate Owns(at: map<Key, int>, blocks: map<Key, Block>, owner: map<Block, Key>, data: map<Block, nat>) {
    && at.Keys == blocks.Keys
    && (forall k :: k in blocks ==> blocks[k] in owner && owner[blocks[k]] == k)
    && (forall b :: b in owner ==> owner[b] in blocks && blocks[owner[b]] == b && b in data && at[owner[b]] == data[b])
  }

  /** The owned, the waiting and the lost blocks are different blocks, and together all that are live. */
  ghost predicate Balanced(owner: map<Block, Key>, waiting: seq<Block>, lost: set<Block>, data: map<Block, nat>) {
    && (forall b :: b in waiting ==> b !in owner && b !in lost)
    && (forall b :: b in lost ==> b !in owner)
    && (forall b :: b in data <==> b in owner || b in waiting || b in lost)
  }

  ghost predicate Books(at: map<Key, int>, blocks: map<Key, Block>, owner: map<Block, Key>, waiting: seq<Block>,
                        lost: set<Block>, data: map<Block, nat>) {
    forall n: nat {:trigger BooksSeal(n)} :: BooksSeal(n) ==>
      Owns(at, blocks, owner, data) && Balanced(owner, waiting, lost, data)
  }

  /** The map from keys to byte strings that the store stands for. */
  ghost function Values(blocks: map<Key, Block>, value: map<Block, seq<Byte>>): map<Key, seq<Byte>> {
    map k | k in blocks :: if blocks[k] in value then value[blocks[k]] else []
  }

  lemma {:induction false} OwnedSize(blocks: map<Key, Block>, owner: map<Block, Key>)
    requires forall k :: k in blocks ==> blocks[k] in owner && owner[blocks[k]] == k
    requires forall b :: b in owner ==> owner[b] in blocks && blocks[owner[b]] == b
    ensures |owner| == |blocks|
    decreases |blocks|
  {
    if blocks == map[] {
      assert owner == map[];
    } else {
      var k :| k in blocks;
      var b := blocks[k];
      assert (blocks - {k}).Keys == blocks.Keys - {k} && (owner - {b}).Keys == owner.Keys - {b};
      assert |blocks.Keys - {k}| == |blocks.Keys| - 1 && |owner.Keys - {b}| == |owner.Keys| - 1;
      OwnedSize(blocks - {k}, owner - {b});
    }
  }

  lemma {:induction false} SeqSize(bs: seq<Block>)
    requires Distinct(bs)
    ensures |SetOf(bs)| == |bs|
    decreases |bs|
  {
    if bs == [] {
      assert SetOf(bs) == {};
    } else {
      var n := |bs| - 1;
      SeqSize(bs[..n]);
      assert bs == bs[..n] + [bs[n]];
      assert SetOf(bs) == SetOf(bs[..n]) + {bs[n]};
    }
  }

  lemma UnionSize<T>(a: set<T>, b: set<T>, c: set<T>)
    requires a !! b && a !! c && b !! c
    ensures |a + b + c| == |a| + |b| + |c|
  {
    assert |a + b| == |a| + |b|;
    assert (a + b) !! c;
  }

  lemma BalancedSize(owner: map<Block, Key>, waiting: seq<Block>, lost: set<Block>, data: map<Block, nat>)
    requires Balanced(owner, waiting, lost, data) && Distinct(waiting)
    ensures |data| == |owner| + |waiting| + |lost|
  {
    SeqSize(waiting);
    assert data.Keys == owner.Keys + SetOf(waiting) + lost;
    UnionSize(owner.Keys, SetOf(waiting), lost);
  }

  /** Every live block is owned, waiting or lost, and counted once. */
  lemma BooksAddUp(at: map<Key, int>, blocks: map<Key, Block>, owner: map<Block, Key>, waiting: seq<Block>,
                   lost: set<Block>, data: map<Block, nat>)
    requires Books(at, blocks, owner, waiting, lost, data) && Distinct(waiting)
    ensures |data| == |at| + |waiting| + |lost|
  {
    assert BooksSeal(0);
    OwnedSize(blocks, owner);
    BalancedSize(owner, waiting, lost, data);
    assert |at.Keys| == |blocks.Keys|;
  }

  /** A block that a key owns is live and does not wait. */
  lemma OwnedIsNot(at: map<Key, int>, blocks: map<Key, Block>, owner: map<Block, Key>, waiting: seq<Block>,
                   lost: set<Block>, data: map<Block, nat>, b: Block)
    requires Books(at, blocks, owner, waiting, lost, data) && b in owner
    ensures b in data && b !in waiting
  {
    assert BooksSeal(0);
  }

  // ---- Steps ----

  /** A new block belongs to nobody yet. */
  lemma BooksNew(at: map<Key, int>, blocks: map<Key, Block>, owner: map<Block, Key>, waiting: seq<Block>,
                 lost: set<Block>,
                 data: map<Block, nat>, value: map<Block, seq<Byte>>, b: Block, off: nat, v: seq<Byte>)
    requires Books(at, blocks, owner, waiting, lost, data) && b !in data
    ensures Books(at, blocks, owner, waiting, lost + {b}, data[b := off]) && b !in lost && b !in owner && b !in waiting
    ensures Values(blocks, value[b := v]) == Values(blocks, value)
  {
    assert BooksSeal(0);
  }

  /** The blocks of the keys in `gone`. */
  ghost function Evicted(owner: map<Block, Key>, gone: set<Key>): set<Block> {
    set b | b in owner && owner[b] in gone
  }

  lemma OwnsInsert(at: map<Key, int>, blocks: map<Key, Block>, owner: map<Block, Key>, data: map<Block, nat>,
                   gone: set<Key>, key: Key, b: Block)
    requires Owns(at, blocks, owner, data) && key !in at && b in data && b !in owner
    ensures Owns(Put(at, gone, key, data[b]), Put(blocks, gone, key, b), Put(owner, Evicted(owner, gone), b, key), data)
  {
    var at', blocks', owner' := Put(at, gone, key, data[b]), Put(blocks, gone, key, b),
      Put(owner, Evicted(owner, gone), b, key);
    assert at'.Keys == blocks'.Keys;
    forall k | k in blocks' ensures blocks'[k] in owner' && owner'[blocks'[k]] == k {}
    forall x | x in owner' ensures owner'[x] in blocks' && blocks'[owner'[x]] == x && x in data
      && at'[owner'[x]] == data[x] {}
  }

  lemma BalancedInsert(owner: map<Block, Key>, waiting: seq<Block>, lost: set<Block>, data: map<Block, nat>,
                       more: set<Block>, b: Block, key: Key)
    requires Balanced(owner, waiting, lost + {b}, data) && b !in lost && more <= owner.Keys
    ensures Balanced(Put(owner, more, b, key), waiting, lost + more, data)
  {}

  /** A new key takes over a block that belonged to nobody; the blocks of keys evicted for it are lost. */
  lemma BooksInsert(at: map<Key, int>, blocks: map<Key, Block>, owner: map<Block, Key>, waiting: seq<Block>,
                    lost: set<Block>,
                    data: map<Block, nat>, gone: set<Key>, key: Key, b: Block)
    requires Books(at, blocks, owner, waiting, lost + {b}, data) && b !in lost && key !in at && b in data
    ensures var more := Evicted(owner, gone);
            Books(Put(at, gone, key, data[b]), Put(blocks, gone, key, b), Put(owner, more, b, key), waiting,
                  lost + more, data)
  {
    assert BooksSeal(0);
    assert b in lost + {b};
    OwnsInsert(at, blocks, owner, data, gone, key, b);
    BalancedInsert(owner, waiting, lost, data, Evicted(owner, gone), b, key);
  }

  lemma ValuesInsert(blocks: map<Key, Block>, value: map<Block, seq<Byte>>, gone: set<Key>, key: Key, b: Block)
    requires b in value
    ensures Values(Put(blocks, gone, key, b), value) == Put(Values(blocks, value), gone, key, value[b])
  {}

  /**
    A stored key takes over a block that belonged to nobody, and its old block waits
    to be freed; meanwhile the first `k` waiting blocks have been freed.
   */
  lemma BooksSwap(at: map<Key, int>, blocks: map<Key, Block>, owner: map<Block, Key>, waiting: seq<Block>,
                  lost: set<Block>,
                  data: map<Block, nat>, key: Key, b: Block, k: nat)
    requires Books(at, blocks, owner, waiting, lost + {b}, data) && b !in lost && key in at && b in data
    requires k <= |waiting| && Distinct(waiting)
    ensures key in blocks && blocks[key] !in waiting && blocks[key] != b
    ensures Books(at[key := data[b]], Put(blocks, {}, key, b), Put(owner, {blocks[key]}, b, key),
                  (waiting + [blocks[key]])[k..], lost,
                  data - SetOf(waiting[..k]))
  {
    assert BooksSeal(0);
    var was := blocks[key];
    var owner', waiting', freed := Put(owner, {was}, b, key), (waiting + [was])[k..], SetOf(waiting[..k]);
    assert Put(blocks, {}, key, b) == blocks[key := b];
    assert waiting == waiting[..k] + waiting[k..] && waiting' == waiting[k..] + [was];
    forall x ensures x in waiting' <==> x == was || (x in waiting && x !in freed) {
      if x in waiting[k..] { assert x in waiting; }
    }
  }

  /** The stored keys are those with a block. */
  lemma BooksKeys(at: map<Key, int>, blocks: map<Key, Block>, owner: map<Block, Key>, waiting: seq<Block>,
                  lost: set<Block>, data: map<Block, nat>)
    requires Books(at, blocks, owner, waiting, lost, data)
    ensures at.Keys == blocks.Keys
  {
    assert BooksSeal(0);
  }

  lemma OwnedAt(at: map<Key, int>, blocks: map<Key, Block>, owner: map<Block, Key>, waiting: seq<Block>,
                lost: set<Block>, data: map<Block, nat>, key: Key)
    requires Books(at, blocks, owner, waiting, lost, data) && key in at
    ensures key in blocks && blocks[key] in owner && blocks[key] in data && blocks[key] !in waiting
            && blocks[key] !in lost
    ensures at[key] == data[blocks[key]] && owner[blocks[key]] == key
  {
    assert BooksSeal(0);
    assert blocks[key] in owner;
  }

  lemma ValuesSwap(at: map<Key, int>, blocks: map<Key, Block>, owner: map<Block, Key>, waiting: seq<Block>,
                   lost: set<Block>,
                   data: map<Block, nat>, value: map<Block, seq<Byte>>, key: Key, b: Block, k: nat)
    requires Books(at, blocks, owner, waiting, lost + {b}, data) && key in at && b in value && b !in waiting
             && k <= |waiting|
    ensures Values(Put(blocks, {}, key, b), value - SetOf(waiting[..k])) == Values(blocks, value)[key := value[b]]
  {
    assert BooksSeal(0);
    assert Put(blocks, {}, key, b) == blocks[key := b];
    forall l | l in blocks ensures blocks[l] !in SetOf(waiting[..k]) { assert blocks[l] in owner; }
  }

  /** Every evicted key costs one block. */
  lemma EvictedSize(at: map<Key, int>, blocks: map<Key, Block>, owner: map<Block, Key>, waiting: seq<Block>,
                    lost: set<Block>,
                    data: map<Block, nat>, gone: seq<Key>)
    requires Books(at, blocks, owner, waiting, lost, data) && |gone| <= 1 && forall k :: k in gone ==> k in at
    ensures |lost + Evicted(owner, Elems(gone))| == |lost| + |gone|
  {
    assert BooksSeal(0);
    if gone == [] {
      assert Evicted(owner, Elems(gone)) == {};
    } else {
      assert gone[0] in at;
      assert Evicted(owner, Elems(gone)) == {blocks[gone[0]]};
    }
  }

  /** If nothing waits and nothing is lost, the live blocks are those of the keys. */
  lemma BooksOwned(at: map<Key, int>, blocks: map<Key, Block>, owner: map<Block, Key>, data: map<Block, nat>)
    requires Books(at, blocks, owner, [], {}, data)
    ensures owner.Keys == data.Keys
  {
    assert BooksSeal(0);
  }

  /** Freeing all waiting blocks leaves the keys with theirs. */
  lemma BooksClear(at: map<Key, int>, blocks: map<Key, Block>, owner: map<Block, Key>, waiting: seq<Block>,
                   lost: set<Block>,
                   data: map<Block, nat>, value: map<Block, seq<Byte>>)
    requires Books(at, blocks, owner, waiting, lost, data)
    ensures Books(at, blocks, owner, [], lost, data - SetOf(waiting))
            && Values(blocks, value - SetOf(waiting)) == Values(blocks, value)
  {
    assert BooksSeal(0);
    forall l | l in blocks ensures blocks[l] !in SetOf(waiting) { assert blocks[l] in owner; }
  }

  /** After a crash the retired blocks still are allocated, but nothing remembers them. */
  lemma BooksForget(at: map<Key, int>, blocks: map<Key, Block>, owner: map<Block, Key>, waiting: seq<Block>,
                    lost: set<Block>, data: map<Block, nat>)
    requires Books(at, blocks, owner, waiting, lost, data)
    ensures Books(at, blocks, owner, [], lost + SetOf(waiting), data)
  {
    assert BooksSeal(0);
  }
}
