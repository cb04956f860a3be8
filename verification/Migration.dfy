/**
  Moving a hot key to its home chunk. If the home chunk has room the key is simply
  moved there; if not, the key in its first lane makes room and is inserted again
  further along its own path.
 */
module Migration {
  import opened Probe
  import opened Table
  import opened Writer
  import opened Changes

  // ---- Tables that differ by a move ----

  /** Exactly the slots of `T` are in use in `T'`, but `to` instead of `from`; the sizes follow. */
  ghost predicate TagsMoved(T: Table, T': Table, from: Slot, to: Slot) {
    && |T'.chunks| == |T.chunks| && T'.size == T.size && from != to && T.Tag(from) != 0 && T.Tag(to) == 0
    && (forall u :: T'.Tag(u) != 0 <==> u == to || (T.Tag(u) != 0 && u != from))
    && (forall c: nat :: c < |T.chunks| ==>
          T'.chunks[c].size + (if c == from.chunk then 1 else 0) == T.chunks[c].size + (if c == to.chunk then 1 else 0))
  }

  lemma LanesMoved(ch: Chunk, ch': Chunk, out_: bool, x: nat, in_: bool, y: nat)
    requires ch.Shaped() && ch'.Shaped() && x < LANES && y < LANES
    requires (out_ ==> ch.tags[x] != 0) && (in_ ==> ch.tags[y] == 0)
    requires forall l: nat :: l < LANES ==>
             (ch'.tags[l] != 0 <==> (in_ && l == y) || (ch.tags[l] != 0 && !(out_ && l == x)))
    ensures |ch'.Lanes()| + (if out_ then 1 else 0) == |ch.Lanes()| + (if in_ then 1 else 0)
  {
    var kept := if out_ then ch.Lanes() - {x} else ch.Lanes();
    assert |kept| + (if out_ then 1 else 0) == |ch.Lanes()|;
    assert ch'.Lanes() == if in_ then kept + {y} else kept;
  }

  lemma MovedSized(g: Geometry, T: Table, T': Table, from: Slot, to: Slot)
    requires T.Shaped(g) && T'.Shaped(g) && T.Sized() && TagsMoved(T, T', from, to)
    ensures T'.Sized() && T'.Used() == T.Used() - {from} + {to}
  {
    assert T'.Tag(to) != 0;
    assert T'.Used() == T.Used() - {from} + {to};
    forall c: nat | c < g.n ensures T'.chunks[c].size == |T'.chunks[c].Lanes()| {
      forall l: nat | l < LANES
        ensures T'.chunks[c].tags[l] != 0 <==>
                (c == to.chunk && l == to.lane) || (T.chunks[c].tags[l] != 0 && !(c == from.chunk && l == from.lane))
      {
        assert T'.Tag(Slot(c, l)) == T'.chunks[c].tags[l] && T.Tag(Slot(c, l)) == T.chunks[c].tags[l];
      }
      LanesMoved(T.chunks[c], T'.chunks[c], c == from.chunk, from.lane, c == to.chunk, to.lane);
    }
  }

  /** `T'` holds in slot `to` what `T` holds in slot `from`. */
  ghost predicate SameItemAt(T: Table, from: Slot, T': Table, to: Slot) {
    T'.Tag(to) == T.Tag(from) && T'.KeyAt(to) == T.KeyAt(from) && T'.ValAt(to) == T.ValAt(from)
  }

  /** Where the item of slot `u` goes when `via` makes room for `from` by moving to `to`. */
  function Goes(from: Slot, via: Slot, to: Slot, u: Slot): Slot {
    if u == via then to else if u == from then via else u
  }

  function Comes(from: Slot, via: Slot, to: Slot, u: Slot): Slot {
    if u == to then via else if u == via then from else u
  }

  /**
    The item of `via` has moved to the empty slot `to`, and the item of `from` to
    `via`. If `via` is `from`, its item has just moved to `to`.
   */
  ghost predicate Rotated(T: Table, T': Table, from: Slot, via: Slot, to: Slot) {
    && TagsMoved(T, T', from, to) && T.Tag(via) != 0 && T'.KeyAt(from) == NO_KEY
    && (forall u :: T.Tag(u) != 0 ==> SameItemAt(T, u, T', Goes(from, via, to, u)))
    && (forall u :: T.Tag(u) == 0 && u != to ==> T'.KeyAt(u) == T.KeyAt(u))
  }

  /** A set of slots carried over to another table item by item stands for the same map. */
  lemma Carried(T: Table, S: set<Slot>, T': Table, S': set<Slot>, from: Slot, via: Slot, to: Slot)
    requires T.Distinct(S)
    requires forall s :: s in S ==> Goes(from, via, to, s) in S' && SameItemAt(T, s, T', Goes(from, via, to, s))
    requires forall s :: s in S' ==> Comes(from, via, to, s) in S && Goes(from, via, to, Comes(from, via, to, s)) == s
    ensures T'.Distinct(S') && T'.View(S') == T.View(S)
  {
    forall s, t | s in S' && t in S' && T'.KeyAt(s) == T'.KeyAt(t) ensures s == t {
      assert Comes(from, via, to, s) in S && Comes(from, via, to, t) in S;
    }
    assert T'.Keys(S') == T.Keys(S) by {
      forall k | k in T'.Keys(S') ensures k in T.Keys(S) {
        var s := T'.SlotOf(S', k);
        assert T.KeyAt(Comes(from, via, to, s)) == k;
      }
      forall k | k in T.Keys(S) ensures k in T'.Keys(S') {
        var s := T.SlotOf(S, k);
        assert T'.KeyAt(Goes(from, via, to, s)) == k;
      }
    }
    forall k | k in T.Keys(S) ensures T'.View(S')[k] == T.View(S)[k] {
      var s := T.SlotOf(S, k);
      ViewAt(T, S, s);
      ViewAt(T', S', Goes(from, via, to, s));
    }
  }

  lemma InUse(T: Table, u: Slot)
    requires T.Used() == T.Occupied()
    ensures T.Tag(u) != 0 <==> T.KeyAt(u) != NO_KEY
  {
    assert u in T.Used() <==> u in T.Occupied();
  }

  lemma RotatedSlots(g: Geometry, T: Table, T': Table, from: Slot, via: Slot, to: Slot, u: Slot)
    requires T.Tagged(g) && T.Used() == T.Occupied() && Rotated(T, T', from, via, to)
    ensures T'.Tag(u) != 0 <==> T'.KeyAt(u) != NO_KEY
    ensures T'.Tag(u) != 0 ==> T'.Tag(u) == g.Sign(T'.KeyAt(u)) && T.Tag(Comes(from, via, to, u)) != 0
    ensures T'.Tag(u) != 0 ==> Goes(from, via, to, Comes(from, via, to, u)) == u
  {
    var w := Comes(from, via, to, u);
    InUse(T, u);
    InUse(T, w);
    if T'.Tag(u) != 0 {
      assert T.Tag(w) != 0 && Goes(from, via, to, w) == u;
      assert SameItemAt(T, w, T', u);
    }
  }

  lemma RotatedView(g: Geometry, T: Table, T': Table, from: Slot, via: Slot, to: Slot)
    requires T.Tagged(g) && T.Used() == T.Occupied() && T.Distinct(T.Used()) && Rotated(T, T', from, via, to)
    ensures T'.Tagged(g) && T'.Used() == T'.Occupied() && T'.Distinct(T'.Used())
            && T'.View(T'.Used()) == T.View(T.Used())
  {
    forall u
      ensures T'.Tag(u) != 0 <==> T'.KeyAt(u) != NO_KEY
      ensures T'.Tag(u) != 0 ==> T'.Tag(u) == g.Sign(T'.KeyAt(u)) && T.Tag(Comes(from, via, to, u)) != 0
      ensures T'.Tag(u) != 0 ==> Goes(from, via, to, Comes(from, via, to, u)) == u
    {
      RotatedSlots(g, T, T', from, via, to, u);
    }
    assert T'.Used() == T'.Occupied();
    forall s | s in T.Used() ensures Goes(from, via, to, s) in T'.Used() {
      assert SameItemAt(T, s, T', Goes(from, via, to, s));
    }
    Carried(T, T.Used(), T', T'.Used(), from, via, to);
  }

  /** A rotation keeps everything but the counters, and loses or changes no item. */
  lemma RotatedKeeps(g: Geometry, T: Table, T': Table, from: Slot, via: Slot, to: Slot)
    requires T.Basic(g) && T.Used() == T.Occupied() && Rotated(T, T', from, via, to)
    requires T'.Shaped(g) && T'.Quiet()
    ensures T'.Basic(g) && T'.Used() == T'.Occupied() == T.Used() - {from} + {to}
    ensures T'.Contents() == T.Contents()
  {
    MovedSized(g, T, T', from, to);
    RotatedView(g, T, T', from, via, to);
  }

  // ---- Case 1: the home chunk has room ----

  /**
    The hot key in slot `from` has moved to slot `to` of its home chunk, and one counter was
    lowered: that of the chunk it left.
   */
  ghost predicate MovedHome(g: Geometry, T: Table, T': Table, from: Slot, to: Slot) {
    && g.Valid() && T.Shaped(g) && T'.Shaped(g) && T'.Quiet() && from.chunk < g.n
    && Rotated(T, T', from, from, to)
    && to.chunk == g.Home(T.KeyAt(from)) && from.chunk != to.chunk
    && (forall c: nat :: c < g.n ==>
        T'.Overflow(c) == if c == from.chunk then T.chunks[c].DecOverflow().overflow else T.Overflow(c))
  }

  lemma PassersShift(g: Geometry, T: Table, T': Table, S: set<Slot>, from: Slot, to: Slot, c: nat)
    requires g.Valid() && from !in S && to !in S && c < g.n
    requires (forall s :: s in S ==> T.KeyAt(s) == T'.KeyAt(s)) && T'.KeyAt(to) == T.KeyAt(from)
             && to.chunk == g.Home(T.KeyAt(from))
    ensures var k := T.KeyAt(from);
            |T'.Passers(g, S + {to}, c)|
              == |T.Passers(g, S + {from}, c)| - if g.Rank(k, c) < g.Rank(k, from.chunk) then 1 else 0
  {
    var k := T.KeyAt(from);
    RecountAt(g, T, S, from, c);
    RecountAt(g, T', S, to, c);
    PathAt(g, k, 0, g.Rank(k, from.chunk), c);
    PassersFrame(g, T, T', S, c);
    g.RankOfPos(k, 0);
  }

  /** What the move does to the counting at chunk `c`, with `U` the slots in use before and `U'` those after. */
  lemma CaseOneAt(g: Geometry, T: Table, T': Table, U: set<Slot>, U': set<Slot>, from: Slot, to: Slot, c: nat)
    requires g.Valid() && from in U && to !in U && U' == U - {from} + {to} && c < g.n && T.Shaped(g)
    requires (forall s :: s in U && s != from ==> T.KeyAt(s) == T'.KeyAt(s)) && T'.KeyAt(to) == T.KeyAt(from)
             && to.chunk == g.Home(T.KeyAt(from))
    requires T'.Overflow(c) == if c == from.chunk then T.chunks[c].DecOverflow().overflow else T.Overflow(c)
    requires CountOk(T.Overflow(c), |T.Passers(g, U, c)|, false)
    ensures CountOk(T'.Overflow(c), |T'.Passers(g, U', c)|, false) <==>
            (c == from.chunk ==> T.Overflow(c) == 0 || T.Overflow(c) == STUCK || T.Overflow(c) > |T.Passers(g, U, c)|)
  {
    var S := U - {from};
    assert S + {from} == U;
    PassersShift(g, T, T', S, from, to, c);
  }

  lemma CountsAt(g: Geometry, T: Table, S: set<Slot>, exact: bool)
    ensures T.Counts(g, S, multiset{}, exact) <==> forall c: nat :: c < g.n ==>
            CountOk(T.Overflow(c), |T.Passers(g, S, c)|, exact)
  {
    if forall c: nat :: c < g.n ==> CountOk(T.Overflow(c), |T.Passers(g, S, c)|, exact) {
      forall c: nat | c < g.n ensures CountOk(T.Overflow(c), |T.Passers(g, S, c)| + multiset{}[c], exact) {
        assert CountOk(T.Overflow(c), |T.Passers(g, S, c)|, exact);
      }
    }
    if T.Counts(g, S, multiset{}, exact) {
      forall c: nat | c < g.n ensures CountOk(T.Overflow(c), |T.Passers(g, S, c)|, exact) {
        assert CountOk(T.Overflow(c), |T.Passers(g, S, c)| + multiset{}[c], exact);
      }
    }
  }

  lemma CaseOneCounts(g: Geometry, T: Table, T': Table, U: set<Slot>, U': set<Slot>, from: Slot, to: Slot)
    requires g.Valid() && from in U && to !in U && U' == U - {from} + {to} && T.Shaped(g) && from.chunk < g.n
    requires (forall s :: s in U && s != from ==> T.KeyAt(s) == T'.KeyAt(s)) && T'.KeyAt(to) == T.KeyAt(from)
             && to.chunk == g.Home(T.KeyAt(from))
    requires forall c: nat :: c < g.n ==>
             T'.Overflow(c) == if c == from.chunk then T.chunks[c].DecOverflow().overflow else T.Overflow(c)
    requires T.Counts(g, U, multiset{}, false)
    ensures var o := T.Overflow(from.chunk);
            T'.Counts(g, U', multiset{}, false) <==> o == 0 || o == STUCK || o > |T.Passers(g, U, from.chunk)|
  {
    CountsAt(g, T, U, false);
    CountsAt(g, T', U', false);
    forall c: nat | c < g.n
      ensures CountOk(T'.Overflow(c), |T'.Passers(g, U', c)|, false) <==>
              (c == from.chunk ==> T.Overflow(c) == 0 || T.Overflow(c) == STUCK || T.Overflow(c) > |T.Passers(g, U, c)|)
    {
      CaseOneAt(g, T, T', U, U', from, to, c);
    }
  }

  /**
    Case 1 keeps the map and everything but the counters. It keeps the counters high
    enough if and only if the counter of the chunk the key left was stuck, was 0 and
    wrapped around to being stuck, or was above its true count. The last cannot be read
    off the chunk; where the counters are exact it does not occur.
   */
  lemma CaseOneExactly(g: Geometry, T: Table, T': Table, from: Slot, to: Slot)
    requires MovedHome(g, T, T', from, to) && T.Inv(g, false)
    ensures T'.Contents() == T.Contents() && T'.Basic(g) && T'.Used() == T'.Occupied()
    ensures var o := T.Overflow(from.chunk);
            T'.Inv(g, false) <==> o == 0 || o == 255 || o > |T.Passers(g, T.Used(), from.chunk)|
  {
    RotatedKeeps(g, T, T', from, from, to);
    assert SameItemAt(T, from, T', to);
    assert from in T.Used() && to !in T.Used();
    forall s | s in T.Used() && s != from ensures T.KeyAt(s) == T'.KeyAt(s) { assert SameItemAt(T, s, T', s); }
    CaseOneCounts(g, T, T', T.Used(), T'.Used(), from, to);
  }

  /** The counter of the chunk the key left: 255 stays, 0 wraps around to it, any other is lowered. */
  lemma CaseOneCounter(g: Geometry, T: Table, T': Table, from: Slot, to: Slot)
    requires MovedHome(g, T, T', from, to)
    ensures var o := T.Overflow(from.chunk);
            T'.Overflow(from.chunk) == if o == 0 || o == 255 then 255 else o - 1
    ensures forall c: nat :: c < g.n && c != from.chunk ==> T'.Overflow(c) == T.Overflow(c)
  {}

  /** Where the counters were exact, the condition is one that can be read off the chunk. */
  lemma CaseOneOnExact(g: Geometry, T: Table, T': Table, from: Slot, to: Slot)
    requires MovedHome(g, T, T', from, to) && T.Inv(g, true)
    ensures T'.Inv(g, false) <==> T.Overflow(from.chunk) == 0 || T.Overflow(from.chunk) == 255
  {
    forall c: nat | c < g.n ensures CountOk(T.Overflow(c), |T.Passers(g, T.Used(), c)| + multiset{}[c], false) {
      assert CountOk(T.Overflow(c), |T.Passers(g, T.Used(), c)| + multiset{}[c], true);
    }
    assert CountOk(T.Overflow(from.chunk), |T.Passers(g, T.Used(), from.chunk)| + multiset{}[from.chunk], true);
    CaseOneExactly(g, T, T', from, to);
  }

  /** Only the key in slot `to` is elsewhere than before. */
  lemma StayingKeys(g: Geometry, T: Table, T': Table, from: Slot, to: Slot, s: Slot)
    requires MovedHome(g, T, T', from, to) && T.Tag(s) != 0 && s != from
    ensures T'.Tag(s) != 0 && T'.KeyAt(s) == T.KeyAt(s)
  {
    assert SameItemAt(T, s, T', Goes(from, from, to, s));
  }

  lemma MovedShape(g: Geometry, T: Table, T': Table, from: Slot, to: Slot)
    requires MovedHome(g, T, T', from, to) && T.Inv(g, true)
    ensures T'.Tagged(g) && T'.Distinct(T'.Used())
    ensures T'.Used() == T.Used() - {from} + {to} && T'.KeyAt(to) == T.KeyAt(from)
  {
    RotatedKeeps(g, T, T', from, from, to);
    assert SameItemAt(T, from, T', Goes(from, from, to, from));
  }

  /** If the counter of the chunk the key left was not 1, no path is shut off. */
  lemma StillOpen(g: Geometry, T: Table, T': Table, from: Slot, to: Slot, s: Slot)
    requires MovedHome(g, T, T', from, to) && T.Inv(g, true) && T.Overflow(from.chunk) != 1 && T'.Tag(s) != 0
    ensures OpenPath(g, T', s)
  {
    MovedShape(g, T, T', from, to);
    assert s in T'.Used();
    var k := T'.KeyAt(s);
    if s == to {
      g.RankOfPos(k, 0);
    } else {
      StayingKeys(g, T, T', from, to, s);
      forall j: nat | j < g.Rank(k, s.chunk) ensures T'.Overflow(g.Pos(k, j)) > 0 {
        g.RankOfPos(k, j);
        PassedIsNonzero(g, T, T.Used(), multiset{}, true, s, g.Pos(k, j));
      }
    }
  }

  /** If that counter was 1, the one key passing the chunk is shut off. */
  lemma ShutOff(g: Geometry, T: Table, T': Table, from: Slot, to: Slot) returns (s: Slot)
    requires MovedHome(g, T, T', from, to) && T.Inv(g, true) && T.Overflow(from.chunk) == 1
    ensures s in T'.Used() && !OpenPath(g, T', s)
  {
    var c := from.chunk;
    MovedShape(g, T, T', from, to);
    assert CountOk(T.Overflow(c), |T.Passers(g, T.Used(), c)| + multiset{}[c], true);
    s :| s in T.Passers(g, T.Used(), c);
    StayingKeys(g, T, T', from, to, s);
    var k := T.KeyAt(s);
    g.PosOfRank(k, c);
    assert T'.Overflow(g.Pos(k, g.Rank(k, c))) == 0;
  }

  /**
    What case 1 costs on a table with exact counters: some stored key can no longer be
    found if and only if the counter of the chunk the hot key left was 1.
   */
  lemma CaseOneLoses(g: Geometry, T: Table, T': Table, from: Slot, to: Slot)
    requires MovedHome(g, T, T', from, to) && T.Inv(g, true)
    ensures (forall k :: k in T'.Contents() <==> Lookup(g, T', k, 0).Some?) <==> T.Overflow(from.chunk) != 1
  {
    MovedShape(g, T, T', from, to);
    if T.Overflow(from.chunk) == 1 {
      var s := ShutOff(g, T, T', from, to);
      FoundExactly(g, T', s);
      ViewAt(T', T'.Used(), s);
    } else {
      forall k ensures k in T'.Contents() <==> Lookup(g, T', k, 0).Some? {
        LookupSound(g, T', k, 0);
        if k in T'.Contents() {
          var s := T'.SlotOf(T'.Used(), k);
          StillOpen(g, T, T', from, to, s);
          FoundExactly(g, T', s);
        }
      }
    }
  }

  // ---- Case 2: the home chunk is full ----

  /** Fewer pending passes are easier to stay above. */
  lemma CountsWeaken(g: Geometry, T: Table, S: set<Slot>, pend: multiset<nat>, pend': multiset<nat>)
    requires T.Counts(g, S, pend, false) && pend' <= pend
    ensures T.Counts(g, S, pend', false)
  {
    forall c: nat | c < g.n ensures CountOk(T.Overflow(c), |T.Passers(g, S, c)| + pend'[c], false) {
      assert CountOk(T.Overflow(c), |T.Passers(g, S, c)| + pend[c], false);
    }
  }

  /**
    A key whose counters were raised along `q` steps of its path, wherever that path
    wraps around, may be counted in any chunk it reaches on the way.
   */
  lemma Settle(g: Geometry, T: Table, S: set<Slot>, s: Slot, q: nat)
    requires g.Valid() && s !in S && s.chunk == g.Pos(T.KeyAt(s), q)
    requires T.Counts(g, S, Path(g, T.KeyAt(s), 0, q), false)
    ensures T.Counts(g, S + {s}, multiset{}, false)
  {
    var k := T.KeyAt(s);
    var r := g.Rank(k, s.chunk);
    if q < g.n { g.RankOfPos(k, q); }
    PathJoin(g, k, 0, r, q);
    CountsWeaken(g, T, S, Path(g, k, 0, q), Path(g, k, 0, r));
    assert multiset{} + Path(g, k, 0, r) == Path(g, k, 0, r);
    Recount(g, T, S, s, multiset{}, false);
  }

  /** Walking `n` steps on from any point of its path, a key comes to every chunk. */
  lemma WalkCovers(g: Geometry, k: Key, r: nat, c: nat) returns (i: nat)
    requires g.Valid() && c < g.n && r < g.n
    ensures i < g.n && g.Pos(k, r + 1 + i) == c
  {
    var q := g.Rank(k, c);
    g.PosOfRank(k, c);
    if q > r {
      i := q - r - 1;
    } else {
      i := g.n + q - r - 1;
      g.PosPeriod(k, q);
      assert r + 1 + i == q + g.n;
    }
  }
}
