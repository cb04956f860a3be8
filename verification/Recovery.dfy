/**
  Recovery of the table from its persisted keys. Reload trusts the keys and values
  only: it recomputes tags, sizes and counters. Its second pass raises the counters
  from several threads with compare-and-swap.
 */
module Recovery {
  import opened Options
  import opened Probe
  import opened Table
  import opened Writer

  function Min(a: nat, b: nat): nat {
    if a < b then a else b
  }

  /** A lane whose key is the empty mark is skipped: its tag is left as it was. */
  function ReloadTags(g: Geometry, ch: Chunk): (r: seq<nat>)
    requires ch.Shaped()
    ensures |r| == LANES
    ensures forall l: nat :: l < LANES ==> r[l] == if ch.keys[l] == NO_KEY then ch.tags[l] else g.Sign(ch.keys[l])
  {
    seq(LANES, l requires 0 <= l < LANES => if ch.keys[l] == NO_KEY then ch.tags[l] else g.Sign(ch.keys[l]))
  }

  ghost function KeyLanes(ch: Chunk): set<nat> {
    set l: nat | l < |ch.keys| && ch.keys[l] != NO_KEY
  }

  ghost function ReloadChunk(g: Geometry, T: Table, c: nat): Chunk
    requires g.Valid() && T.Shaped(g) && c < g.n
  {
    var ch := T.chunks[c];
    ch.(tags := ReloadTags(g, ch), size := |KeyLanes(ch)|)
  }

  /** The first pass: tags and sizes from the keys, counters cleared. */
  ghost function Cleared(g: Geometry, T: Table): (r: Table)
    requires g.Valid() && T.Shaped(g)
    ensures r.Shaped(g)
  {
    Table(seq(g.n, c requires 0 <= c < g.n => ReloadChunk(g, T, c).(overflow := 0)), |T.Occupied()|)
  }

  /** The first pass has come to chunk `c`. */
  ghost predicate ClearedBelow(g: Geometry, T0: Table, T: Table, c: nat)
    requires g.Valid() && T0.Shaped(g)
  {
    T.Shaped(g) && forall d: nat :: d < g.n ==>
      T.chunks[d] == if d < c then ReloadChunk(g, T0, d).(overflow := 0) else T0.chunks[d]
  }

  lemma ClearedNext(g: Geometry, T0: Table, T: Table, c: nat)
    requires g.Valid() && T0.Shaped(g) && ClearedBelow(g, T0, T, c) && c < g.n
    ensures T.chunks[c] == T0.chunks[c] && ClearedBelow(g, T0, T.Put(c, ReloadChunk(g, T0, c).(overflow := 0)), c + 1)
  {}

  lemma ClearedAll(g: Geometry, T0: Table, T: Table)
    requires g.Valid() && T0.Shaped(g) && ClearedBelow(g, T0, T, g.n)
    ensures T.chunks == Cleared(g, T0).chunks && KeysBelow(T0, g.n, 0) == T0.Occupied()
  {}

  /** Both passes: each counter ends as the number of passers, capped at 255. */
  ghost function Reload(g: Geometry, T: Table): (r: Table)
    requires g.Valid() && T.Shaped(g)
    ensures r.Shaped(g)
  {
    var U := Cleared(g, T);
    Table(seq(g.n, c requires 0 <= c < g.n => U.chunks[c].(overflow := Min(STUCK, |U.Passers(g, U.Used(), c)|))),
          U.size)
  }

  // ---- The passes as loops ----

  /** The slots holding a key in the chunks below `c` and the lanes below `l` of chunk `c`. */
  ghost function KeysBelow(T: Table, c: nat, l: nat): (r: set<Slot>)
    ensures forall s :: s in r <==> s in T.Occupied() && (s.chunk < c || (s.chunk == c && s.lane < l))
  {
    set s | s in T.Occupied() && (s.chunk < c || (s.chunk == c && s.lane < l))
  }

  ghost function TagsBelow(T: Table, c: nat, l: nat): (r: set<Slot>)
    ensures forall s :: s in r <==> s in T.Used() && (s.chunk < c || (s.chunk == c && s.lane < l))
  {
    set s | s in T.Used() && (s.chunk < c || (s.chunk == c && s.lane < l))
  }

  lemma TagsBelowChunk(g: Geometry, T: Table, c: nat)
    requires T.Shaped(g) && c < g.n
    ensures TagsBelow(T, c + 1, 0) == TagsBelow(T, c, LANES)
  {}

  lemma KeysBelowNext(T: Table, c: nat, l: nat)
    ensures |KeysBelow(T, c, l + 1)| == |KeysBelow(T, c, l)| + if T.KeyAt(Slot(c, l)) == NO_KEY then 0 else 1
  {
    var s, S, S' := Slot(c, l), KeysBelow(T, c, l), KeysBelow(T, c, l + 1);
    assert s !in S && (s in S' <==> T.KeyAt(s) != NO_KEY);
    if T.KeyAt(s) == NO_KEY {
      assert S' == S;
    } else {
      assert S' == S + {s};
    }
  }

  lemma KeyLanesNext(ch: Chunk, l: nat)
    requires l < |ch.keys|
    ensures |KeyLanesBelow(ch, l + 1)| == |KeyLanesBelow(ch, l)| + if ch.keys[l] == NO_KEY then 0 else 1
  {
    if ch.keys[l] == NO_KEY {
      assert KeyLanesBelow(ch, l + 1) == KeyLanesBelow(ch, l);
    } else {
      assert KeyLanesBelow(ch, l + 1) == KeyLanesBelow(ch, l) + {l};
    }
  }

  ghost function KeyLanesBelow(ch: Chunk, m: nat): set<nat> {
    set l: nat | l < |ch.keys| && l < m && ch.keys[l] != NO_KEY
  }

  /** Each counter is the number of passers of `S` and pending passes, capped at 255. */
  ghost predicate Capped(g: Geometry, T: Table, S: set<Slot>, pend: multiset<nat>) {
    forall c: nat :: c < g.n ==> T.Overflow(c) == Min(STUCK, |T.Passers(g, S, c)| + pend[c])
  }

  lemma CappedRaise(g: Geometry, T: Table, S: set<Slot>, pend: multiset<nat>, c: nat)
    requires T.Shaped(g) && c < g.n && Capped(g, T, S, pend)
    ensures Capped(g, T.Put(c, T.chunks[c].IncOverflow()), S, pend + multiset{c})
  {
    var T' := T.Put(c, T.chunks[c].IncOverflow());
    forall d: nat | d < g.n ensures T'.Overflow(d) == Min(STUCK, |T'.Passers(g, S, d)| + (pend + multiset{c})[d]) {
      PassersFrame(g, T, T', S, d);
      assert T.Overflow(d) == Min(STUCK, |T.Passers(g, S, d)| + pend[d]);
    }
  }

  lemma CappedSlot(g: Geometry, T: Table, S: set<Slot>, s: Slot)
    requires g.Valid() && s !in S && Capped(g, T, S, Path(g, T.KeyAt(s), 0, g.Rank(T.KeyAt(s), s.chunk)))
    ensures Capped(g, T, S + {s}, multiset{})
  {
    forall c: nat | c < g.n ensures T.Overflow(c) == Min(STUCK, |T.Passers(g, S + {s}, c)| + multiset{}[c]) {
      RecountAt(g, T, S, s, c);
    }
  }

  /** No empty slot carries a tag. */
  ghost predicate EmptyUntagged(T: Table) {
    forall s :: T.KeyAt(s) == NO_KEY ==> T.Tag(s) == 0
  }

  lemma ReloadSlots(g: Geometry, T: Table)
    requires g.Valid() && T.Shaped(g)
    ensures forall s :: Reload(g, T).KeyAt(s) == T.KeyAt(s) && Reload(g, T).ValAt(s) == T.ValAt(s)
    ensures forall s :: Reload(g, T).Tag(s) == if T.KeyAt(s) == NO_KEY then T.Tag(s) else g.Sign(T.KeyAt(s))
    ensures Reload(g, T).Occupied() == T.Occupied()
    ensures T.Quiet() ==> Reload(g, T).Quiet()
  {
    var R := Reload(g, T);
    forall s: Slot
      ensures R.KeyAt(s) == T.KeyAt(s) && R.ValAt(s) == T.ValAt(s)
      ensures R.Tag(s) == if T.KeyAt(s) == NO_KEY then T.Tag(s) else g.Sign(T.KeyAt(s))
    {
      if s.chunk < g.n { assert R.chunks[s.chunk].keys == T.chunks[s.chunk].keys; }
    }
    assert R.Occupied() == T.Occupied();
  }

  lemma ReloadCounts(g: Geometry, T: Table, c: nat)
    requires g.Valid() && T.Shaped(g) && c < g.n
    ensures var R := Reload(g, T); R.Overflow(c) == Min(STUCK, |R.Passers(g, R.Used(), c)|)
  {
    var R, U := Reload(g, T), Cleared(g, T);
    assert forall s: Slot :: R.KeyAt(s) == U.KeyAt(s) && R.Tag(s) == U.Tag(s);
    assert R.Used() == U.Used();
    PassersFrame(g, U, R, U.Used(), c);
  }

  lemma ReloadSized(g: Geometry, T: Table)
    requires g.Valid() && T.Shaped(g) && EmptyUntagged(T)
    ensures Reload(g, T).Used() == T.Occupied() && Reload(g, T).Sized()
  {
    var R := Reload(g, T);
    ReloadSlots(g, T);
    assert R.Used() == T.Occupied();
    forall c: nat | c < g.n ensures R.chunks[c].size == |R.chunks[c].Lanes()| {
      var ch := T.chunks[c];
      assert R.chunks[c].tags == ReloadTags(g, ch);
      forall l: nat | l < LANES ensures l in R.chunks[c].Lanes() <==> l in KeyLanes(ch) {
        assert T.KeyAt(Slot(c, l)) == ch.keys[l] && T.Tag(Slot(c, l)) == ch.tags[l];
      }
      assert R.chunks[c].Lanes() == KeyLanes(ch);
    }
  }

  /**
    From any table of distinct persisted keys, whatever its tags, sizes, counters and
    marks, Reload restores the whole invariant exactly when no empty slot carries a tag
    and no chunk is marked as migrating.
   */
  lemma ReloadRestores(g: Geometry, T: Table)
    requires g.Valid() && T.Shaped(g) && T.Distinct(T.Occupied())
    ensures Reload(g, T).Inv(g, true) <==> EmptyUntagged(T) && T.Quiet()
    ensures EmptyUntagged(T) ==> Reload(g, T).Contents() == T.Persisted()
  {
    var R := Reload(g, T);
    ReloadSlots(g, T);
    ReloadKeepsMarks(g, T);
    if EmptyUntagged(T) {
      ReloadSized(g, T);
      ViewFrame(T, R, T.Occupied());
      forall c: nat | c < g.n ensures CountOk(R.Overflow(c), |R.Passers(g, R.Used(), c)| + multiset{}[c], true) {
        ReloadCounts(g, T, c);
      }
      assert T.Quiet() ==> R.Basic(g);
    } else {
      var s :| T.KeyAt(s) == NO_KEY && T.Tag(s) != 0;
      assert R.Tag(s) != 0 && R.KeyAt(s) == NO_KEY;
    }
  }

  /** Reload leaves the marks as they are. */
  lemma ReloadKeepsMarks(g: Geometry, T: Table)
    requires g.Valid() && T.Shaped(g)
    ensures forall c: nat :: c < g.n ==> Reload(g, T).chunks[c].migrating == T.chunks[c].migrating
    ensures Reload(g, T).Quiet() <==> T.Quiet()
  {}

  /**
    So after a crash in a migration a lookup of a key that is not stored starts over each
    time it comes to its end, exactly if that takes it to a chunk that was marked.
   */
  lemma MarkedLookupRetries(g: Geometry, T: Table, k: Key)
    requires g.Valid() && T.Shaped(g) && k != NO_KEY && k !in T.Keys(T.Occupied())
    ensures Attempt(g, Reload(g, T), k) == Retry <==>
            exists r: nat :: Open(g, Reload(g, T), k, 0, r) && T.chunks[g.Pos(k, r)].migrating
  {
    var R := Reload(g, T);
    ReloadSlots(g, T);
    ReloadKeepsMarks(g, T);
    LookupSound(g, R, k, 0);
    RetriesExactly(g, R, k);
    LookupFails(g, R, k, 0);
  }

  lemma SameTags(g: Geometry, T: Table, R: Table, c: nat)
    requires T.Shaped(g) && R.Shaped(g) && c < g.n && forall l: nat :: l < LANES ==>
             R.Tag(Slot(c, l)) == T.Tag(Slot(c, l))
    ensures R.chunks[c].tags == T.chunks[c].tags && R.chunks[c].Lanes() == T.chunks[c].Lanes()
  {
    forall l: nat | l < LANES ensures R.chunks[c].tags[l] == T.chunks[c].tags[l] {
      assert R.Tag(Slot(c, l)) == T.Tag(Slot(c, l));
    }
    assert R.chunks[c].tags == T.chunks[c].tags;
  }

  lemma ReloadIntactChunk(g: Geometry, T: Table, c: nat)
    requires T.Inv(g, true) && c < g.n
    ensures Reload(g, T).chunks[c] == T.chunks[c].(overflow := Min(STUCK, |T.Passers(g, T.Used(), c)|))
  {
    var R := Reload(g, T);
    ReloadSlots(g, T);
    ReloadSized(g, T);
    ReloadCounts(g, T, c);
    PassersFrame(g, T, R, T.Used(), c);
    SameTags(g, T, R, c);
  }

  /** Reloading an intact table changes nothing unless a counter is stuck above its true count. */
  lemma ReloadIsIdentity(g: Geometry, T: Table)
    requires T.Inv(g, true)
    ensures Reload(g, T) == T <==> forall c: nat :: c < g.n && T.Overflow(c) == 255 ==>
            |T.Passers(g, T.Used(), c)| >= 255
  {
    var R := Reload(g, T);
    forall c: nat | c < g.n
      ensures R.chunks[c] == T.chunks[c] <==> (T.Overflow(c) == STUCK ==> |T.Passers(g, T.Used(), c)| >= STUCK)
    {
      ReloadIntactChunk(g, T, c);
      assert CountOk(T.Overflow(c), |T.Passers(g, T.Used(), c)| + multiset{}[c], true);
    }
    ReloadSized(g, T);
    if forall c: nat :: c < g.n && T.Overflow(c) == STUCK ==> |T.Passers(g, T.Used(), c)| >= STUCK {
      assert R.chunks == T.chunks;
    }
  }

  // ---- The key that marks empty slots ----

  /** The table after an item was inserted into its home chunk. */
  function InsertedAt(g: Geometry, T: Table, s: Slot, k: Key, v: Val): Table
    requires T.Shaped(g) && Has(g, s)
  {
    var T1 := SetItem(g, Widen(T, s.chunk), s, k, v);
    var T2 := SetTag(g, T1, s, g.Sign(k));
    T2.(size := T.size + 1)
  }

  lemma InsertedSlots(g: Geometry, T: Table, s: Slot, k: Key, v: Val)
    requires T.Firm(g) && Has(g, s)
    ensures var T' := InsertedAt(g, T, s, k, v);
            && T'.Shaped(g) && T'.Quiet() && T'.KeyAt(s) == k && T'.Tag(s) == g.Sign(k)
            && forall u :: u != s ==> T'.KeyAt(u) == T.KeyAt(u) && T'.Tag(u) == T.Tag(u)
  {
    var T1 := Widen(T, s.chunk);
    ResizedSlots(g, T, s.chunk, T.chunks[s.chunk].size + 1);
    SetItemSlots(g, T1, s, k, v);
    SetTagTags(g, SetItem(g, T1, s, k, v), s, g.Sign(k));
  }

  /**
    A key inserted into an intact table is found, be it the mark of an empty slot or
    not. Reloading then restores an intact table exactly if it is not the mark: the mark
    is passed over, and its tag stays on a slot that counts as empty.
   */
  lemma EmptyMarkIsLost(g: Geometry, T: Table, s: Slot, k: Key, v: Val)
    requires T.Inv(g, true) && Has(g, s) && T.Tag(s) == 0 && s.chunk == g.Home(k) && k !in T.Keys(T.Used())
    ensures var T' := InsertedAt(g, T, s, k, v);
            && T'.Shaped(g) && Lookup(g, T', k, 0) == Some(s)
            && (Reload(g, T').Inv(g, true) <==> k != NO_KEY)
            && (k == NO_KEY ==> Reload(g, T').Tag(s) != 0 && Reload(g, T').size == T.size)
  {
    var T' := InsertedAt(g, T, s, k, v);
    InsertedSlots(g, T, s, k, v);
    InsertedIsFound(g, T, s, k, v);
    InsertedOccupied(g, T, s, k, v);
    ReloadRestores(g, T');
    ReloadSlots(g, T');
    if k == NO_KEY {
      assert T'.KeyAt(s) == NO_KEY && T'.Tag(s) != 0;
      assert T'.Occupied() == T.Used();
    }
  }

  lemma InsertedIsFound(g: Geometry, T: Table, s: Slot, k: Key, v: Val)
    requires T.Firm(g) && Has(g, s) && s.chunk == g.Home(k) && k !in T.Keys(T.Used())
    ensures InsertedAt(g, T, s, k, v).Shaped(g) && Lookup(g, InsertedAt(g, T, s, k, v), k, 0) == Some(s)
  {
    var T' := InsertedAt(g, T, s, k, v);
    InsertedSlots(g, T, s, k, v);
    var ch := T'.chunks[s.chunk];
    assert ch.tags[s.lane] == T'.Tag(s) && ch.keys[s.lane] == T'.KeyAt(s);
    var r := ch.Match(k, g.Sign(k));
    var u := Slot(s.chunk, r.value);
    assert T'.KeyAt(u) == k && T'.Tag(u) == g.Sign(k);
    assert T.Tag(u) != 0 ==> u in T.Used() && T.KeyAt(u) in T.Keys(T.Used());
    assert g.Pos(k, 0) == s.chunk;
  }

  lemma InsertedOccupied(g: Geometry, T: Table, s: Slot, k: Key, v: Val)
    requires T.Inv(g, true) && Has(g, s) && T.Tag(s) == 0 && k !in T.Keys(T.Used())
    ensures var T' := InsertedAt(g, T, s, k, v);
            && T'.Occupied() == (if k == NO_KEY then T.Used() else T.Used() + {s})
            && T'.Distinct(T'.Occupied()) && (EmptyUntagged(T') <==> k != NO_KEY)
  {
    var T' := InsertedAt(g, T, s, k, v);
    InsertedSlots(g, T, s, k, v);
    assert s !in T.Used() && s !in T.Occupied();
    assert T'.Occupied() == if k == NO_KEY then T.Used() else T.Used() + {s};
    forall a, b | a in T'.Occupied() && b in T'.Occupied() && T'.KeyAt(a) == T'.KeyAt(b) ensures a == b {
      assert a != s ==> a in T.Used() && T.KeyAt(a) in T.Keys(T.Used());
      assert b != s ==> b in T.Used() && T.KeyAt(b) in T.Keys(T.Used());
    }
    forall u | u != s && T'.KeyAt(u) == NO_KEY ensures T'.Tag(u) == 0 { assert u !in T.Occupied(); }
  }

  // ---- Crash atomicity ----

  /** At every moment of a run the table can be recovered, and recovery yields what is persisted then. */
  lemma CrashRecovers(g: Geometry, states: seq<State>, labels: seq<Label>, exact: bool, t: nat)
    requires IsRun(g, states, labels) && StateInv(g, states[0], exact) && t < |states|
    ensures states[t].T.Shaped(g)
    ensures Reload(g, states[t].T).Inv(g, true) && Reload(g, states[t].T).Contents() == states[t].T.Persisted()
  {
    RunInv(g, states, labels, exact, t);
    ReloadRestores(g, states[t].T);
  }

  /**
    An operation that runs from rest to rest with a single effectful store, cut by a
    crash at any point and then reloaded, leaves the map before it or the map after it.
   */
  lemma CrashIsAtomic(g: Geometry, states: seq<State>, labels: seq<Label>, exact: bool, a: nat, e: nat, b: nat, t: nat)
    requires IsRun(g, states, labels) && StateInv(g, states[0], exact) && a <= e < b < |states| && a <= t <= b
    requires states[a].act.Idle? && states[b].act.Idle?
    requires forall u :: a <= u < b && u != e ==> !Effectful(labels[u])
    ensures states[t].T.Shaped(g)
    ensures Reload(g, states[t].T).Contents() == if t <= e then states[a].T.Contents() else states[b].T.Contents()
  {
    CrashRecovers(g, states, labels, exact, t);
    CutIsAtomic(g, states, labels, exact, a, e, b, t);
    RunInv(g, states, labels, exact, a);
    RunInv(g, states, labels, exact, b);
  }
}
