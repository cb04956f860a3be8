/**
  A lock-free lookup beside running updates, from the tags of the table to the bytes of
  the value. The lookup belongs to a thread that protected itself before the updates
  began; the writer may take any number of steps between two of its reads.
 */
module Beside {
  import opened Options
  import opened Seals
  import opened Layout
  import opened Probe
  import opened Table
  import opened Writer
  import opened Changes
  import opened PetHash
  import opened Chunks
  import opened Packing
  import opened Recycle
  import opened Ledger
  import opened Index
  import opened PetKV
  import opened Shard
  import Epoch
  import Reader

  /** A shard as a reader depends on it: the epochs, and the place and the bytes of each block. */
  datatype World = World(st: Epoch.State, data: map<Block, nat>, value: map<Block, seq<Byte>>)

  ghost predicate Passes(w: World, w': World) {
    Shelters(w.st, w.data, w.value, w'.st, w'.data, w'.value)
  }

  /** Key `k` had the value `v` in one of the maps. */
  ghost predicate Had(maps: seq<map<Key, seq<Byte>>>, k: Key, v: seq<Byte>) {
    exists i: nat :: i < |maps| && k in maps[i] && maps[i][k] == v
  }

  /** The block at offset `off` is sheltered by a session of thread `t` and holds a value that key `k` had. */
  ghost predicate Answers(w: World, t: nat, j: nat, maps: seq<map<Key, seq<Byte>>>, k: Key, off: int) {
    exists b, a: nat :: Keeps(w.st, t, j, b, a) && b in w.data && w.data[b] == off && b in w.value
                        && Had(maps, k, w.value[b])
  }

  lemma AnswersLater(w: World, w': World, t: nat, j: nat, maps: seq<map<Key, seq<Byte>>>, m: map<Key, seq<Byte>>,
                     k: Key, off: int)
    requires Answers(w, t, j, maps, k, off) && Passes(w, w')
    ensures Answers(w', t, j, maps + [m], k, off)
  {
    var b, a: nat :| Keeps(w.st, t, j, b, a) && b in w.data && w.data[b] == off && b in w.value
                     && Had(maps, k, w.value[b]);
    var i: nat :| i < |maps| && k in maps[i] && maps[i][k] == w.value[b];
    assert (maps + [m])[i] == maps[i];
    assert Keeps(w'.st, t, j, b, a) && Had(maps + [m], k, w'.value[b]);
  }

  ghost function Now(kv: PetKV): World
    reads kv, kv.recycler, kv.recycler.epochs, kv.recycler.malloc
  {
    World(kv.recycler.epochs.st, kv.recycler.malloc.data, kv.recycler.malloc.value)
  }

  /** Between updates, the offset of a stored key leads to its value. */
  lemma StoredAnswers(kv: PetKV, t: nat, j: nat, maps: seq<map<Key, seq<Byte>>>, k: Key)
    requires kv.Valid() && k in kv.index.at && maps != [] && maps[|maps| - 1] == kv.View()
    requires t < |kv.recycler.epochs.st.table| && j < |kv.recycler.epochs.st.table[t]|
    ensures Answers(Now(kv), t, j, maps, k, kv.index.at[k])
  {
    OwnedAt(kv.index.at, kv.blocks, kv.owner, kv.recycler.blocks, kv.lost, kv.recycler.malloc.data, k);
    var b := kv.blocks[k];
    kv.LinkedIsKept(t, j, b);
    assert kv.View()[k] == kv.recycler.malloc.value[b];
    assert Had(maps, k, Now(kv).value[b]);
  }

  // ---- Every moment of the updates ----

  /** From moment `a` on, whatever is persisted has an answer. */
  ghost predicate Served(w: World, t: nat, j: nat, c: Config, states: seq<State>, a: nat,
                         maps: seq<map<Key, seq<Byte>>>)
    requires c.Valid()
  {
    forall d: nat, k :: a <= d < |states| && k in states[d].T.Persisted() ==>
      Answers(w, t, j, maps, k, c.Offset(states[d].T.Persisted()[k]))
  }

  /** From moment `a` on, no key was deleted but those of `gone`. */
  ghost predicate Spared(states: seq<State>, labels: seq<Label>, a: nat, gone: seq<seq<Key>>) {
    forall k, s, u: nat :: a <= u < |labels| < |states| && Loses(states[a], labels[u], k, s) ==>
      exists i: nat :: i < |gone| && k in gone[i]
  }

  /** A key that was in slot `s` at first is deleted. */
  ghost predicate Loses(first: State, l: Label, k: Key, s: Slot) {
    Reader.Holds(first, k, s) && Reader.Deletes(l, s)
  }

  /** The maps that the updates go through. */
  ghost predicate Chain(m0: map<Key, seq<Byte>>, ops: seq<Op>, n: nat, gone: seq<seq<Key>>,
                        maps: seq<map<Key, seq<Byte>>>)
  {
    && n <= |ops| && |gone| == n && |maps| == n + 1 && maps[0] == m0
    && forall i: nat :: i < n ==> maps[i + 1] == Put(maps[i], Elems(gone[i]), ops[i].key, ops[i].log)
  }

  /** One more update: the moments before it keep their answers, and those of the update have one. */
  lemma ServedOn(w: World, w': World, t: nat, j: nat, c: Config, was: Past, states: seq<State>, labels: seq<Label>,
                 a: nat, maps: seq<map<Key, seq<Byte>>>, m: map<Key, seq<Byte>>, at: map<Key, int>, keys: seq<Key>,
                 key: Key, off: int)
    requires c.Valid() && Served(w, t, j, c, was.states, a, maps) && Passes(w, w')
    requires was.states <= states && |was.states| == |was.labels| + 1
    requires Trail(c, states, labels, |was.labels|, at, keys, key, off)
    requires forall k :: k in at ==> Answers(w, t, j, maps, k, at[k])
    requires Answers(w', t, j, maps + [m], key, off)
    ensures Served(w', t, j, c, states, a, maps + [m])
  {
    assert TrailSeal(0);
    forall d: nat, k | a <= d < |states| && k in states[d].T.Persisted()
      ensures Answers(w', t, j, maps + [m], k, c.Offset(states[d].T.Persisted()[k]))
    {
      var v := states[d].T.Persisted()[k];
      if d < |was.states| {
        assert was.states[d] == states[d];
        AnswersLater(w, w', t, j, maps, m, k, c.Offset(v));
      } else {
        assert Led(c, states[d].T.Persisted(), at, key, off);
        if k in at && c.Offset(v) == at[k] { AnswersLater(w, w', t, j, maps, m, k, at[k]); }
      }
    }
  }

  lemma SparedOn(g: Geometry, exact: bool, c: Config, was: Past, states: seq<State>, labels: seq<Label>, a: nat,
                 gone: seq<seq<Key>>, at: map<Key, int>, keys: seq<Key>, key: Key, off: int)
    requires IsRun(g, states, labels) && StateInv(g, states[0], exact) && c.Valid()
    requires was.states <= states && was.labels <= labels && a < |was.states| == |was.labels| + 1
    requires Spared(was.states, was.labels, a, gone) && Trail(c, states, labels, |was.labels|, at, keys, key, off)
    ensures Spared(states, labels, a, gone + [keys])
  {
    var all := gone + [keys];
    forall k, s, u: nat | a <= u < |labels| < |states| && Loses(states[a], labels[u], k, s)
      ensures exists i: nat :: i < |all| && k in all[i]
    {
      assert was.states[a] == states[a];
      if e: nat :| a <= e < |was.labels| && Reader.Deletes(labels[e], s) {
        assert was.labels[e] == labels[e] && Loses(states[a], labels[e], k, s);
        var i: nat :| i < |gone| && k in gone[i];
        assert all[i] == gone[i];
      } else {
        Reader.HeldThroughout(g, states, labels, exact, k, s, a, |was.labels|);
        assert TrailSeal(0);
        assert k in all[|gone|];
      }
    }
  }

  // ---- The lookup ----

  lemma HeldAnswer(g: Geometry, st: State, exact: bool, k: Key, s: Slot)
    requires StateInv(g, st, exact) && Reader.Holds(st, k, s)
    ensures k in st.T.Persisted() && st.T.Persisted()[k] == st.T.ValAt(s)
  {
    assert s in st.T.Occupied();
    ViewAt(st.T, st.T.Occupied(), s);
  }

  /** A lookup for a key that is not deleted finds an offset, and there is the answer. */
  lemma LookupAnswers(g: Geometry, exact: bool, c: Config, states: seq<State>, labels: seq<Label>, a: nat,
                      w: World, t: nat, j: nat, maps: seq<map<Key, seq<Byte>>>, gone: seq<seq<Key>>, k: Key, s: Slot,
                      at: seq<nat>, rs: seq<Reader.Reader>)
    requires IsRun(g, states, labels) && StateInv(g, states[0], exact) && c.Valid() && a <= |labels|
    requires Served(w, t, j, c, states, a, maps) && Spared(states, labels, a, gone)
    requires Reader.Holds(states[a], k, s) && forall i: nat :: i < |gone| ==> k !in gone[i]
    requires Reader.Reads(g, states, k, at, rs, a, |labels|) && |at| > 20 * g.n
    ensures rs[|at|].Found? && Answers(w, t, j, maps, k, c.Offset(rs[|at|].v))
  {
    forall u | a <= u < |labels| ensures !Reader.Deletes(labels[u], s) {
      assert !Loses(states[a], labels[u], k, s);
    }
    Reader.AlwaysFinds(g, states, labels, exact, k, s, at, rs, a, |labels|);
    var d :| a <= d <= |labels| && states[d].T.KeyAt(s) == k && states[d].T.ValAt(s) == rs[|at|].v;
    Reader.HeldThroughout(g, states, labels, exact, k, s, a, d);
    HeldAnswer(g, states[d], exact, k, s);
  }

  /** A lookup for key `k` of the first map, which was not evicted, has made all its reads since moment `a`. */
  ghost predicate Asks(g: Geometry, states: seq<State>, a: nat, maps: seq<map<Key, seq<Byte>>>, gone: seq<seq<Key>>,
                       k: Key, at: seq<nat>, rs: seq<Reader.Reader>)
    requires g.Valid() && states != [] && maps != []
  {
    && k in maps[0] && (forall i: nat :: i < |gone| ==> k !in gone[i])
    && Reader.Reads(g, states, k, at, rs, a, |states| - 1) && |at| > 20 * g.n
  }

  /** The same for a key that is in none of the maps. */
  ghost predicate AsksInVain(g: Geometry, states: seq<State>, a: nat, maps: seq<map<Key, seq<Byte>>>, k: Key,
                             at: seq<nat>, rs: seq<Reader.Reader>)
    requires g.Valid() && states != []
  {
    && k != NO_KEY && (forall i: nat :: i < |maps| ==> k !in maps[i])
    && Reader.Reads(g, states, k, at, rs, a, |states| - 1) && |at| > 20 * g.n
  }

  /** Every such lookup is answered. */
  ghost predicate Answered(g: Geometry, c: Config, states: seq<State>, a: nat, w: World, t: nat, j: nat,
                           maps: seq<map<Key, seq<Byte>>>, gone: seq<seq<Key>>) {
    && g.Valid() && c.Valid() && states != [] && maps != []
    && (forall k, at: seq<nat>, rs: seq<Reader.Reader> :: Asks(g, states, a, maps, gone, k, at, rs) ==>
        rs[|at|].Found? && Answers(w, t, j, maps, k, c.Offset(rs[|at|].v)))
    && (forall k, at: seq<nat>, rs: seq<Reader.Reader> :: AsksInVain(g, states, a, maps, k, at, rs) ==>
        rs[|at|].Absent?)
  }

  /** What has an answer was in one of the maps. */
  lemma NeverStored(w: World, t: nat, j: nat, c: Config, states: seq<State>, a: nat,
                    maps: seq<map<Key, seq<Byte>>>, k: Key, d: nat)
    requires c.Valid() && Served(w, t, j, c, states, a, maps) && a <= d < |states|
    requires forall i: nat :: i < |maps| ==> k !in maps[i]
    ensures k !in states[d].T.Persisted()
  {}

  lemma AllAnswered(g: Geometry, exact: bool, c: Config, states: seq<State>, labels: seq<Label>, a: nat,
                    w: World, t: nat, j: nat, maps: seq<map<Key, seq<Byte>>>, gone: seq<seq<Key>>)
    requires IsRun(g, states, labels) && StateInv(g, states[0], exact) && c.Valid() && a <= |labels|
    requires Served(w, t, j, c, states, a, maps) && Spared(states, labels, a, gone)
    requires states[a].act.Idle? && maps != [] && maps[0].Keys <= states[a].T.Contents().Keys
    ensures Answered(g, c, states, a, w, t, j, maps, gone)
  {
    forall k, at: seq<nat>, rs: seq<Reader.Reader> | Asks(g, states, a, maps, gone, k, at, rs)
      ensures rs[|at|].Found? && Answers(w, t, j, maps, k, c.Offset(rs[|at|].v))
    {
      var s := states[a].T.SlotOf(states[a].T.Used(), k);
      LookupAnswers(g, exact, c, states, labels, a, w, t, j, maps, gone, k, s, at, rs);
    }
    forall k, at: seq<nat>, rs: seq<Reader.Reader> | AsksInVain(g, states, a, maps, k, at, rs)
      ensures rs[|at|].Absent?
    {
      forall d: nat | a <= d < |states| ensures k !in states[d].T.Persisted() {
        NeverStored(w, t, j, c, states, a, maps, k, d);
      }
      Reader.NeverInvents(g, states, k, at, rs, a, |states| - 1);
    }
  }

  /** What holds between two updates: the history of the table and of the maps since the first. */
  ghost predicate Underway(kv: PetKV, was: Past, t: nat, j: nat, m0: map<Key, seq<Byte>>, ops: seq<Op>, n: nat,
                           gone: seq<seq<Key>>, maps: seq<map<Key, seq<Byte>>>)
    reads kv, kv.index, kv.index.dict, kv.index.dict.table, kv.recycler, kv.recycler.malloc, kv.recycler.malloc.pool,
          kv.recycler.epochs
  {
    && kv.Valid() && kv.index.config.Valid() && was.states <= kv.index.dict.states && was.labels <= kv.index.dict.labels
    && |was.states| == |was.labels| + 1 && Chain(m0, ops, n, gone, maps) && maps[n] == kv.View()
    && t < |kv.recycler.epochs.st.table| && j < |kv.recycler.epochs.st.table[t]|
    && Served(Now(kv), t, j, kv.index.config, kv.index.dict.states, |was.labels|, maps)
    && Spared(kv.index.dict.states, kv.index.dict.labels, |was.labels|, gone)
  }

  lemma ServedNow(w: World, t: nat, j: nat, c: Config, states: seq<State>, a: nat, maps: seq<map<Key, seq<Byte>>>,
                  m: map<Key, Val>, at: map<Key, int>)
    requires c.Valid() && |states| == a + 1 && states[a].T.Persisted() == m && Agree(c, m, at)
    requires forall k :: k in at ==> Answers(w, t, j, maps, k, at[k])
    ensures Served(w, t, j, c, states, a, maps)
  {
    forall d: nat, k | a <= d < |states| && k in states[d].T.Persisted()
      ensures Answers(w, t, j, maps, k, c.Offset(states[d].T.Persisted()[k]))
    {
      assert d == a;
      AgreeAt(c, m, at, k);
      assert Answers(w, t, j, maps, k, at[k]);
    }
  }

  lemma ServedAtRest(kv: PetKV, t: nat, j: nat)
    requires kv.Valid() && t < |kv.recycler.epochs.st.table| && j < |kv.recycler.epochs.st.table[t]|
    requires kv.index.config.Valid()
    ensures Served(Now(kv), t, j, kv.index.config, kv.index.dict.states, |kv.index.dict.labels|, [kv.View()])
  {
    var at, w, maps := kv.index.at, Now(kv), [kv.View()];
    kv.index.Rests();
    forall k | k in at ensures Answers(w, t, j, maps, k, at[k]) {
      StoredAnswers(kv, t, j, maps, k);
    }
    ServedNow(w, t, j, kv.index.config, kv.index.dict.states, |kv.index.dict.labels|, maps, kv.index.dict.Contents(),
              at);
  }

  lemma Starts(kv: PetKV, t: nat, j: nat, ops: seq<Op>)
    requires kv.Valid() && t < |kv.recycler.epochs.st.table| && j < |kv.recycler.epochs.st.table[t]|
    ensures Underway(kv, kv.index.Log(), t, j, kv.View(), ops, 0, [], [kv.View()])
  {
    kv.index.Rests();
    ServedAtRest(kv, t, j);
  }

  /** One update of the run. */
  method UpdateOnce(kv: PetKV, ghost was: Past, ghost t: nat, ghost j: nat, ghost m0: map<Key, seq<Byte>>,
                    ops: seq<Op>, n: nat, ghost gone: seq<seq<Key>>, ghost maps: seq<map<Key, seq<Byte>>>)
    returns (r: Outcome, ghost keys: seq<Key>)
    requires n < |ops| && ops[n].key != NO_KEY && |ops[n].log| < 0x8000_0000
    requires Underway(kv, was, t, j, m0, ops, n, gone, maps)
    modifies Parts(kv)
    ensures r.Updated? ==> Underway(kv, was, t, j, m0, ops, n + 1, gone + [keys], maps + [kv.View()])
    ensures r.Updated? ==> kv.recycler.epochs.st.table == old(kv.recycler.epochs.st.table)
  {
    ghost var log, w, at := kv.index.Log(), Now(kv), kv.index.at;
    forall k | k in at ensures Answers(w, t, j, maps, k, at[k]) {
      StoredAnswers(kv, t, j, maps, k);
    }
    r, keys := UpdateOne(kv, ops[n]);
    if r.Updated? {
      ghost var dict, key := kv.index.dict, ops[n].key;
      kv.index.Runs();
      StoredAnswers(kv, t, j, maps + [kv.View()], key);
      ServedOn(w, Now(kv), t, j, kv.index.config, log, dict.states, dict.labels, |was.labels|, maps, kv.View(), at,
               keys, key, kv.index.at[key]);
      SparedOn(dict.g, dict.exact, kv.index.config, log, dict.states, dict.labels, |was.labels|, gone, at, keys, key,
               kv.index.at[key]);
    }
  }

  /** All updates of the run. */
  method UpdateBeside(kv: PetKV, ghost t: nat, ghost j: nat, ops: seq<Op>)
    returns (r: Outcome, ghost gone: seq<seq<Key>>, ghost maps: seq<map<Key, seq<Byte>>>)
    requires kv.Valid() && t < |kv.recycler.epochs.st.table| && j < |kv.recycler.epochs.st.table[t]|
    requires forall i: nat :: i < |ops| ==> ops[i].key != NO_KEY && |ops[i].log| < 0x8000_0000
    modifies Parts(kv)
    ensures r.Updated? ==> Underway(kv, old(kv.index.Log()), t, j, old(kv.View()), ops, |ops|, gone, maps)
  {
    ghost var was, m0 := kv.index.Log(), kv.View();
    gone, maps := [], [kv.View()];
    Starts(kv, t, j, ops);
    for n := 0 to |ops|
      invariant Underway(kv, was, t, j, m0, ops, n, gone, maps)
    {
      ghost var keys;
      r, keys := UpdateOnce(kv, was, t, j, m0, ops, n, gone, maps);
      if r.Aborted? {
        return;
      }
      gone, maps := gone + [keys], maps + [kv.View()];
    }
    r := Updated;
  }

  /**
    Any run of updates beside any lookup by a thread that protected itself before. The
    lookup may read the table at any moments of the run. For a key that was stored and
    is not evicted it finds, after 20 reads per chunk and one more, the offset of a block
    that at the end of the run still holds a value which the key had during the run. For a
    key that was not stored and is not updated it answers that the key is absent.
   */
  method LookupsBesideUpdates(kv: PetKV, t: nat, ops: seq<Op>)
    returns (r: Outcome, ghost gone: seq<seq<Key>>, ghost maps: seq<map<Key, seq<Byte>>>)
    requires kv.Valid() && t < |kv.recycler.epochs.table| && kv.recycler.epochs.table[t] != []
    requires forall i: nat :: i < |ops| ==> ops[i].key != NO_KEY && |ops[i].log| < 0x8000_0000
    modifies Parts(kv)
    ensures r.Updated? ==> kv.Valid() && Chain(old(kv.View()), ops, |ops|, gone, maps) && maps[|ops|] == kv.View()
    ensures r.Updated? ==> Answered(kv.index.dict.g, kv.index.config, kv.index.dict.states, |old(kv.index.dict.labels)|,
                                    Now(kv), t, |old(kv.recycler.epochs.table[t])| - 1, maps, gone)
  {
    kv.recycler.epochs.Bounds();
    kv.index.Runs();
    StoredKeys(kv);
    ghost var was, j := kv.index.Log(), |kv.recycler.epochs.table[t]| - 1;
    ghost var first := was.states[|was.labels|];
    r, gone, maps := UpdateBeside(kv, t, j, ops);
    if r.Updated? {
      kv.index.Runs();
      assert kv.index.dict.states[|was.labels|] == first;
      AllAnswered(kv.index.dict.g, kv.index.dict.exact, kv.index.config, kv.index.dict.states, kv.index.dict.labels,
                  |was.labels|, Now(kv), t, j, maps, gone);
    }
  }

  lemma StoredKeys(kv: PetKV)
    requires kv.Valid()
    ensures kv.View().Keys == kv.index.dict.Contents().Keys
  {
    kv.StopsBySnap(0, 0);
  }
}
