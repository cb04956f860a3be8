/**
  The contents of the chunked hash table as a value, the counting invariant of its
  overflow counters, and the probe that a lookup runs.

  A chunk has 14 lanes. A lane in use carries the tag of its key; an unused lane
  carries tag 0. Each chunk counts, in one byte that sticks at 255, how many stored
  keys pass through it on the way from their home chunk to the chunk that holds
  them. A lookup stops at the first chunk whose count is 0.
 */
module Table {
  import opened Options
  import opened Probe

  const LANES: nat := 14
  const STUCK: nat := 255

  type Val = v: nat | v < WORD

  datatype Slot = Slot(chunk: nat, lane: nat)

  datatype Chunk = Chunk(tags: seq<nat>, keys: seq<Key>, vals: seq<Val>, size: nat,
                         overflow: nat, migrating: bool)
  {
    predicate Shaped() {
      |tags| == LANES && |keys| == LANES && |vals| == LANES && overflow <= STUCK
    }

    /** Saturating increment: a counter that reaches 255 stays there. */
    function IncOverflow(): Chunk {
      if overflow == STUCK then this else this.(overflow := overflow + 1)
    }

    /** Decrement of an unsigned byte that leaves 255 alone; 0 wraps around to 255. */
    function DecOverflow(): Chunk {
      if overflow == STUCK then this
      else if overflow == 0 then this.(overflow := STUCK)
      else this.(overflow := overflow - 1)
    }

    function WriteItem(l: nat, k: Key, v: Val): Chunk
      requires Shaped() && l < LANES
    {
      this.(keys := keys[l := k], vals := vals[l := v])
    }

    function WriteTag(l: nat, t: nat): Chunk
      requires Shaped() && l < LANES
    {
      this.(tags := tags[l := t])
    }

    /** The first of the lanes below `m` whose tag is `t` and whose key is `k`. */
    function FirstMatch(k: Key, t: nat, m: nat): (r: Option<nat>)
      requires Shaped() && m <= LANES
      ensures r.Some? ==> r.value < m && tags[r.value] == t && keys[r.value] == k
      ensures forall l: nat :: l < m && tags[l] == t && keys[l] == k ==> r.Some? && r.value <= l
    {
      if m == 0 then None else
        var r := FirstMatch(k, t, m - 1);
        if r.None? && tags[m - 1] == t && keys[m - 1] == k then Some(m - 1) else r
    }

    /** The first lane whose tag is `t` and whose key is `k`. */
    function Match(k: Key, t: nat): (r: Option<nat>)
      requires Shaped()
      ensures r.Some? ==> r.value < LANES && tags[r.value] == t && keys[r.value] == k
      ensures forall l: nat :: l < LANES && tags[l] == t && keys[l] == k ==> r.Some? && r.value <= l
    {
      FirstMatch(k, t, |tags|)
    }

    /** The lanes in use. */
    ghost function Lanes(): set<nat> {
      set l: nat | l < |tags| && tags[l] != 0
    }
  }

  lemma LanesTag(ch: Chunk, l: nat, t: nat)
    requires ch.Shaped() && l < LANES
    ensures ch.WriteTag(l, t).Lanes() == if t == 0 then ch.Lanes() - {l} else ch.Lanes() + {l}
  {}

  datatype Table = Table(chunks: seq<Chunk>, size: nat) {

    predicate Shaped(g: Geometry) {
      |chunks| == g.n && forall c: nat :: c < g.n ==> chunks[c].Shaped()
    }

    /** The tag in a slot; 0 if there is no such slot. */
    function Tag(s: Slot): nat {
      if s.chunk < |chunks| && s.lane < |chunks[s.chunk].tags| then chunks[s.chunk].tags[s.lane] else 0
    }

    function KeyAt(s: Slot): Key {
      if s.chunk < |chunks| && s.lane < |chunks[s.chunk].keys| then chunks[s.chunk].keys[s.lane] else NO_KEY
    }

    function ValAt(s: Slot): Val {
      if s.chunk < |chunks| && s.lane < |chunks[s.chunk].vals| then chunks[s.chunk].vals[s.lane] else 0
    }

    function Overflow(c: nat): nat {
      if c < |chunks| then chunks[c].overflow else 0
    }

    function SizeOf(c: nat): nat {
      if c < |chunks| then chunks[c].size else 0
    }

    function Put(c: nat, ch: Chunk): Table
      requires c < |chunks|
    {
      this.(chunks := chunks[c := ch])
    }

    /** The slots in use, as the tags tell. */
    ghost function Used(): (r: set<Slot>)
      ensures forall s :: s in r <==> Tag(s) != 0
    {
      set c: nat, l: nat | c < |chunks| && l < |chunks[c].tags| && Tag(Slot(c, l)) != 0 :: Slot(c, l)
    }

    /** The slots holding a key, as the persisted keys tell. */
    ghost function Occupied(): (r: set<Slot>)
      ensures forall s :: s in r <==> KeyAt(s) != NO_KEY
    {
      set c: nat, l: nat | c < |chunks| && l < |chunks[c].keys| && KeyAt(Slot(c, l)) != NO_KEY :: Slot(c, l)
    }

    ghost predicate Distinct(S: set<Slot>) {
      forall s, t :: s in S && t in S && KeyAt(s) == KeyAt(t) ==> s == t
    }

    ghost function Keys(S: set<Slot>): set<Key> {
      set s | s in S :: KeyAt(s)
    }

    ghost function SlotOf(S: set<Slot>, k: Key): (s: Slot)
      requires k in Keys(S)
      ensures s in S && KeyAt(s) == k
    {
      var s :| s in S && KeyAt(s) == k;
      s
    }

    /** The finite map that the slots of `S` stand for. */
    ghost function View(S: set<Slot>): (m: map<Key, Val>)
      ensures m.Keys == Keys(S)
    {
      map k | k in Keys(S) :: ValAt(SlotOf(S, k))
    }

    /** What a lookup can see. */
    ghost function Contents(): map<Key, Val> {
      View(Used())
    }

    /** What survives a crash. */
    ghost function Persisted(): map<Key, Val> {
      View(Occupied())
    }

    /** The slots of `S` whose keys pass through chunk `c` on the way to their slot. */
    ghost function Passers(g: Geometry, S: set<Slot>, c: nat): set<Slot> {
      set s | s in S && g.Rank(KeyAt(s), c) < g.Rank(KeyAt(s), s.chunk)
    }

    /**
      Every counter that is not stuck counts the passers of `S` and the pending
      passes `pend`: exactly, or at least from above.
     */
    ghost predicate Counts(g: Geometry, S: set<Slot>, pend: multiset<nat>, exact: bool) {
      forall c: nat :: c < g.n ==> CountOk(Overflow(c), |Passers(g, S, c)| + pend[c], exact)
    }

    ghost predicate Tagged(g: Geometry) {
      forall s :: Tag(s) != 0 ==> Tag(s) == g.Sign(KeyAt(s)) && KeyAt(s) != NO_KEY
    }

    /** The size fields agree with the tags. */
    ghost predicate Sized() {
      size == |Used()| && forall c: nat :: c < |chunks| ==> chunks[c].size == |chunks[c].Lanes()|
    }

    ghost predicate Quiet() {
      forall c: nat :: c < |chunks| ==> !chunks[c].migrating
    }

    /**
      What holds at every moment: slots are well formed and no key is stored twice.
      (Here and below, a `match` with a single case keeps the solver from unfolding a
      predicate that is only passed on.)
     */
    ghost predicate Firm(g: Geometry) {
      match this
      case Table(_, _) => g.Valid() && Shaped(g) && Tagged(g) && Quiet() && Distinct(Occupied())
    }

    /** The same, and the size fields agree with the tags. */
    ghost predicate Basic(g: Geometry) {
      Firm(g) && Sized()
    }

    /** The invariant between operations. */
    ghost predicate Inv(g: Geometry, exact: bool) {
      Basic(g) && Used() == Occupied() && Counts(g, Used(), multiset{}, exact)
    }
  }

  /** The load limit of 90 per cent is reached. */
  predicate IsFull(g: Geometry, size: nat) {
    size * 100 >= g.n * LANES * 90
  }

  lemma FullInNumbers(g: Geometry, size: nat)
    ensures IsFull(g, size) <==> 10 * size >= 9 * 14 * g.n
  {}

  predicate CountOk(o: nat, m: nat, exact: bool) {
    o == STUCK || (if exact then o == m else o >= m)
  }

  // ---- The map that a set of slots stands for ----

  lemma ViewAt(T: Table, S: set<Slot>, s: Slot)
    requires T.Distinct(S) && s in S
    ensures T.KeyAt(s) in T.View(S) && T.View(S)[T.KeyAt(s)] == T.ValAt(s)
  {}

  /** The view depends on the items of its slots only. */
  lemma ViewFrame(T: Table, T': Table, S: set<Slot>)
    requires T.Distinct(S)
    requires forall s :: s in S ==> T.KeyAt(s) == T'.KeyAt(s) && T.ValAt(s) == T'.ValAt(s)
    ensures T'.Distinct(S) && T'.Keys(S) == T.Keys(S) && T'.View(S) == T.View(S)
  {
    assert T'.Keys(S) == T.Keys(S);
    forall k | k in T.Keys(S) ensures T'.View(S)[k] == T.View(S)[k] {
      ViewAt(T, S, T.SlotOf(S, k));
      ViewAt(T', S, T.SlotOf(S, k));
    }
  }

  lemma ViewExtend(T: Table, S: set<Slot>, s: Slot)
    requires T.Distinct(S) && s !in S && T.KeyAt(s) !in T.Keys(S)
    ensures T.Distinct(S + {s})
    ensures T.Keys(S + {s}) == T.Keys(S) + {T.KeyAt(s)}
    ensures T.View(S + {s}) == T.View(S)[T.KeyAt(s) := T.ValAt(s)]
  {
    var k, S' := T.KeyAt(s), S + {s};
    assert forall t :: t in S ==> T.KeyAt(t) in T.Keys(S);
    assert T.Distinct(S');
    assert T.Keys(S') == T.Keys(S) + {k};
    forall x | x in T.View(S') ensures T.View(S')[x] == T.View(S)[k := T.ValAt(s)][x] {
      var t := T.SlotOf(S', x);
      ViewAt(T, S', t);
      if t != s { ViewAt(T, S, t); }
    }
  }

  lemma ViewShrink(T: Table, S: set<Slot>, s: Slot)
    requires T.Distinct(S) && s in S
    ensures T.Distinct(S - {s}) && T.KeyAt(s) !in T.Keys(S - {s})
    ensures T.View(S - {s}) == T.View(S) - {T.KeyAt(s)}
  {
    ViewExtend(T, S - {s}, s);
    assert S - {s} + {s} == S;
  }

  lemma ViewReplace(T: Table, T': Table, S: set<Slot>, s: Slot)
    requires T.Distinct(S) && s in S && T'.KeyAt(s) == T.KeyAt(s)
    requires forall t :: t in S && t != s ==> T.KeyAt(t) == T'.KeyAt(t) && T.ValAt(t) == T'.ValAt(t)
    ensures T'.Distinct(S) && T'.Keys(S) == T.Keys(S) && T'.View(S) == T.View(S)[T.KeyAt(s) := T'.ValAt(s)]
  {
    assert T'.Keys(S) == T.Keys(S);
    ViewAt(T', S, s);
    forall k | k in T.Keys(S) && k != T.KeyAt(s) ensures T'.View(S)[k] == T.View(S)[k] {
      ViewAt(T, S, T.SlotOf(S, k));
      ViewAt(T', S, T.SlotOf(S, k));
    }
  }

  // ---- The counting invariant under single stores ----

  /** The chunks that key `k` passes from its `i`-th probe step up to its `r`-th. */
  ghost function Path(g: Geometry, k: Key, i: nat, r: nat): multiset<nat>
    requires g.Valid()
    decreases r - i
  {
    if i >= r then multiset{} else multiset{g.Pos(k, i)} + Path(g, k, i + 1, r)
  }

  lemma {:induction false} PathAt(g: Geometry, k: Key, i: nat, r: nat, c: nat)
    requires g.Valid() && r <= g.n && c < g.n
    ensures Path(g, k, i, r)[c] == if i <= g.Rank(k, c) < r then 1 else 0
    decreases r - i
  {
    if i < r {
      PathAt(g, k, i + 1, r, c);
      g.RankOfPos(k, i);
      g.PosOfRank(k, c);
    }
  }

  lemma {:induction false} PathJoinAt(g: Geometry, k: Key, a: nat, b: nat, c: nat, x: nat)
    requires g.Valid() && a <= b <= c
    ensures Path(g, k, a, c)[x] == Path(g, k, a, b)[x] + Path(g, k, b, c)[x]
    decreases b - a
  {
    if a < b {
      var p := multiset{g.Pos(k, a)};
      PathJoinAt(g, k, a + 1, b, c, x);
      assert Path(g, k, a, b)[x] == p[x] + Path(g, k, a + 1, b)[x];
      assert Path(g, k, a, c)[x] == p[x] + Path(g, k, a + 1, c)[x];
    }
  }

  lemma PathJoin(g: Geometry, k: Key, a: nat, b: nat, c: nat)
    requires g.Valid() && a <= b <= c
    ensures Path(g, k, a, c) == Path(g, k, a, b) + Path(g, k, b, c)
  {
    forall x: nat ensures Path(g, k, a, c)[x] == (Path(g, k, a, b) + Path(g, k, b, c))[x] {
      PathJoinAt(g, k, a, b, c, x);
    }
  }

  lemma PathExtend(g: Geometry, k: Key, i: nat, r: nat)
    requires g.Valid() && i <= r
    ensures Path(g, k, i, r + 1) == Path(g, k, i, r) + multiset{g.Pos(k, r)}
  {
    PathJoin(g, k, i, r, r + 1);
    assert Path(g, k, r, r + 1) == multiset{g.Pos(k, r)} + multiset{};
  }

  lemma PassersFrame(g: Geometry, T: Table, T': Table, S: set<Slot>, c: nat)
    requires forall s :: s in S ==> T.KeyAt(s) == T'.KeyAt(s)
    ensures T'.Passers(g, S, c) == T.Passers(g, S, c)
  {}

  /** The passers depend on the table only through the keys of the counted slots. */
  lemma CountsFrame(g: Geometry, T: Table, T': Table, S: set<Slot>, pend: multiset<nat>, exact: bool)
    requires forall s :: s in S ==> T.KeyAt(s) == T'.KeyAt(s)
    requires forall c: nat :: T'.Overflow(c) == T.Overflow(c)
    requires T.Counts(g, S, pend, exact)
    ensures T'.Counts(g, S, pend, exact)
  {
    forall c: nat | c < g.n ensures CountOk(T'.Overflow(c), |T'.Passers(g, S, c)| + pend[c], exact) {
      PassersFrame(g, T, T', S, c);
    }
  }

  lemma RecountAt(g: Geometry, T: Table, S: set<Slot>, s: Slot, c: nat)
    requires g.Valid() && s !in S && c < g.n
    ensures var k := T.KeyAt(s);
            |T.Passers(g, S + {s}, c)| == |T.Passers(g, S, c)| + Path(g, k, 0, g.Rank(k, s.chunk))[c]
  {
    var k := T.KeyAt(s);
    PathAt(g, k, 0, g.Rank(k, s.chunk), c);
    if g.Rank(k, c) < g.Rank(k, s.chunk) {
      assert T.Passers(g, S + {s}, c) == T.Passers(g, S, c) + {s};
    } else {
      assert T.Passers(g, S + {s}, c) == T.Passers(g, S, c);
    }
  }

  /** Counting a slot is the same as holding its path as pending passes. */
  lemma Recount(g: Geometry, T: Table, S: set<Slot>, s: Slot, pend: multiset<nat>, exact: bool)
    requires g.Valid() && s !in S
    ensures var k := T.KeyAt(s);
            T.Counts(g, S, pend + Path(g, k, 0, g.Rank(k, s.chunk)), exact) <==> T.Counts(g, S + {s}, pend, exact)
  {
    var k := T.KeyAt(s);
    var held := pend + Path(g, k, 0, g.Rank(k, s.chunk));
    if T.Counts(g, S, held, exact) {
      forall c: nat | c < g.n ensures CountOk(T.Overflow(c), |T.Passers(g, S + {s}, c)| + pend[c], exact) {
        RecountAt(g, T, S, s, c);
        assert CountOk(T.Overflow(c), |T.Passers(g, S, c)| + held[c], exact);
      }
    }
    if T.Counts(g, S + {s}, pend, exact) {
      forall c: nat | c < g.n ensures CountOk(T.Overflow(c), |T.Passers(g, S, c)| + held[c], exact) {
        RecountAt(g, T, S, s, c);
        assert CountOk(T.Overflow(c), |T.Passers(g, S + {s}, c)| + pend[c], exact);
      }
    }
  }

  /** `T'` is `T` with the counter of chunk `c` changed. */
  ghost predicate Recounted(T: Table, T': Table, c: nat) {
    c < |T.chunks| && T'.Overflow(c) <= STUCK && T' == T.Put(c, T.chunks[c].(overflow := T'.Overflow(c)))
  }

  lemma RaiseCounts(g: Geometry, T: Table, S: set<Slot>, pend: multiset<nat>, exact: bool, c: nat)
    requires T.Shaped(g) && c < g.n && T.Counts(g, S, pend, exact)
    ensures T.Put(c, T.chunks[c].IncOverflow()).Counts(g, S, pend + multiset{c}, exact)
    ensures Recounted(T, T.Put(c, T.chunks[c].IncOverflow()), c)
  {
    var T' := T.Put(c, T.chunks[c].IncOverflow());
    forall d: nat | d < g.n
      ensures CountOk(T'.Overflow(d), |T'.Passers(g, S, d)| + (pend + multiset{c})[d], exact)
    {
      PassersFrame(g, T, T', S, d);
      assert CountOk(T.Overflow(d), |T.Passers(g, S, d)| + pend[d], exact);
    }
  }

  /** Lowering a counter that has a pending pass never wraps around. */
  lemma LowerCounts(g: Geometry, T: Table, S: set<Slot>, pend: multiset<nat>, exact: bool, c: nat)
    requires T.Shaped(g) && c < g.n && c in pend && T.Counts(g, S, pend, exact)
    ensures T.Put(c, T.chunks[c].DecOverflow()).Counts(g, S, pend - multiset{c}, exact)
    ensures Recounted(T, T.Put(c, T.chunks[c].DecOverflow()), c)
  {
    var T' := T.Put(c, T.chunks[c].DecOverflow());
    forall d: nat | d < g.n
      ensures CountOk(T'.Overflow(d), |T'.Passers(g, S, d)| + (pend - multiset{c})[d], exact)
    {
      PassersFrame(g, T, T', S, d);
      assert CountOk(T.Overflow(d), |T.Passers(g, S, d)| + pend[d], exact);
    }
  }

  /** A chunk that a counted slot's key passes through has a nonzero counter. */
  lemma PassedIsNonzero(g: Geometry, T: Table, S: set<Slot>, pend: multiset<nat>, exact: bool, s: Slot, c: nat)
    requires T.Counts(g, S, pend, exact)
    requires s in S && c < g.n && g.Rank(T.KeyAt(s), c) < g.Rank(T.KeyAt(s), s.chunk)
    ensures T.Overflow(c) > 0
  {
    assert s in T.Passers(g, S, c);
    assert CountOk(T.Overflow(c), |T.Passers(g, S, c)| + pend[c], exact);
  }

  lemma {:induction false} ViewSize(T: Table, S: set<Slot>)
    requires T.Distinct(S)
    ensures |T.View(S)| == |S|
    decreases |S|
  {
    if S == {} {
      assert T.View(S) == map[];
    } else {
      var s :| s in S;
      ViewShrink(T, S, s);
      ViewAt(T, S, s);
      ViewSize(T, S - {s});
      assert T.View(S).Keys == T.View(S - {s}).Keys + {T.KeyAt(s)};
    }
  }

  // ---- Lookup ----

  /** The probe a lookup runs from its `i`-th chunk on, over an arbitrary table. */
  function Lookup(g: Geometry, T: Table, k: Key, i: nat): (r: Option<Slot>)
    requires g.Valid() && T.Shaped(g) && i <= g.n
    decreases g.n - i
  {
    if i == g.n then None else
      var c := g.Pos(k, i);
      match T.chunks[c].Match(k, g.Sign(k))
      case Some(l) => Some(Slot(c, l))
      case None => if T.chunks[c].overflow == 0 then None else Lookup(g, T, k, i + 1)
  }

  /** The lookup from step `i` on comes by a chunk that is marked as migrating before it ends. */
  predicate Touches(g: Geometry, T: Table, k: Key, i: nat)
    requires g.Valid() && T.Shaped(g) && i <= g.n
    decreases g.n - i
  {
    i < g.n &&
    var ch := T.chunks[g.Pos(k, i)];
    ch.migrating || (ch.Match(k, g.Sign(k)).None? && ch.overflow != 0 && Touches(g, T, k, i + 1))
  }

  /** How one attempt of a lookup ends; an attempt that found nothing but a marked chunk starts over. */
  datatype Answer = Found(slot: Slot) | Absent | Retry

  function Attempt(g: Geometry, T: Table, k: Key): Answer
    requires g.Valid() && T.Shaped(g)
  {
    match Lookup(g, T, k, 0)
    case Some(s) => Found(s)
    case None => if Touches(g, T, k, 0) then Retry else Absent
  }

  /** On the way of key `k`, from step `i` on, no chunk before the `r`-th has a counter of 0. */
  ghost predicate Open(g: Geometry, T: Table, k: Key, i: nat, r: nat)
    requires g.Valid() && T.Shaped(g)
  {
    i <= r < g.n && forall j: nat :: i <= j < r ==> T.Overflow(g.Pos(k, j)) != 0
  }

  /** The `r`-th chunk on the way of key `k` has a lane with its tag and key. */
  ghost predicate Matches(g: Geometry, T: Table, k: Key, r: nat)
    requires g.Valid() && T.Shaped(g)
  {
    exists l: nat :: l < LANES && T.Tag(Slot(g.Pos(k, r), l)) == g.Sign(k) && T.KeyAt(Slot(g.Pos(k, r), l)) == k
  }

  lemma MatchesExactly(g: Geometry, T: Table, k: Key, r: nat)
    requires g.Valid() && T.Shaped(g)
    ensures T.chunks[g.Pos(k, r)].Match(k, g.Sign(k)).Some? <==> Matches(g, T, k, r)
  {
    var ch := T.chunks[g.Pos(k, r)];
    var m := ch.Match(k, g.Sign(k));
    if m.Some? {
      assert T.Tag(Slot(g.Pos(k, r), m.value)) == g.Sign(k) && T.KeyAt(Slot(g.Pos(k, r), m.value)) == k;
    }
    if Matches(g, T, k, r) {
      var l: nat :| l < LANES && T.Tag(Slot(g.Pos(k, r), l)) == g.Sign(k) && T.KeyAt(Slot(g.Pos(k, r), l)) == k;
      assert ch.tags[l] == g.Sign(k) && ch.keys[l] == k;
    }
  }

  lemma OpenNext(g: Geometry, T: Table, k: Key, i: nat)
    requires g.Valid() && T.Shaped(g) && i < g.n
    ensures forall r: nat :: Open(g, T, k, i, r) <==>
                             r == i || (T.Overflow(g.Pos(k, i)) != 0 && Open(g, T, k, i + 1, r))
  {}

  /** Over any table, a lookup fails exactly if no chunk that it can come to matches. */
  lemma {:induction false} LookupFails(g: Geometry, T: Table, k: Key, i: nat)
    requires g.Valid() && T.Shaped(g) && i <= g.n
    ensures Lookup(g, T, k, i).None? <==> forall r: nat :: Open(g, T, k, i, r) ==> !Matches(g, T, k, r)
    decreases g.n - i
  {
    if i < g.n {
      LookupFails(g, T, k, i + 1);
      MatchesExactly(g, T, k, i);
      assert Open(g, T, k, i, i);
      OpenNext(g, T, k, i);
    }
  }

  lemma {:induction false} TouchesExactly(g: Geometry, T: Table, k: Key, i: nat)
    requires g.Valid() && T.Shaped(g) && i <= g.n && Lookup(g, T, k, i).None?
    ensures Touches(g, T, k, i) <==> exists r: nat :: Open(g, T, k, i, r) && T.chunks[g.Pos(k, r)].migrating
    decreases g.n - i
  {
    if i < g.n {
      assert Open(g, T, k, i, i);
      if T.Overflow(g.Pos(k, i)) != 0 { TouchesExactly(g, T, k, i + 1); }
      OpenNext(g, T, k, i);
    }
  }

  /**
    An attempt starts over exactly if the key is in none of the chunks that it comes to
    and one of them is marked.
   */
  lemma RetriesExactly(g: Geometry, T: Table, k: Key)
    requires g.Valid() && T.Shaped(g)
    ensures Attempt(g, T, k) == Retry <==>
            && (forall r: nat :: Open(g, T, k, 0, r) ==> !Matches(g, T, k, r))
            && exists r: nat :: Open(g, T, k, 0, r) && T.chunks[g.Pos(k, r)].migrating
  {
    LookupFails(g, T, k, 0);
    if Lookup(g, T, k, 0).None? { TouchesExactly(g, T, k, 0); }
  }

  /** Without marks no lookup starts over. */
  lemma {:induction false} QuietIsUntouched(g: Geometry, T: Table, k: Key, i: nat)
    requires g.Valid() && T.Shaped(g) && T.Quiet() && i <= g.n
    ensures !Touches(g, T, k, i)
    decreases g.n - i
  {
    if i < g.n { QuietIsUntouched(g, T, k, i + 1); }
  }

  /** In a table of distinct keys, a key is matched in the chunk that holds it and in no other. */
  lemma MatchOnlyThere(g: Geometry, T: Table, s: Slot, c: nat)
    requires T.Shaped(g) && T.Tagged(g) && T.Distinct(T.Used())
    requires T.Tag(s) != 0 && c < g.n
    ensures T.chunks[c].Match(T.KeyAt(s), g.Sign(T.KeyAt(s))) == if c == s.chunk then Some(s.lane) else None
  {
    var r := T.chunks[c].Match(T.KeyAt(s), g.Sign(T.KeyAt(s)));
    if r.Some? {
      assert T.Tag(Slot(c, r.value)) != 0;
    }
    if c == s.chunk {
      assert T.chunks[c].tags[s.lane] == g.Sign(T.KeyAt(s));
    }
  }

  /** A probe walks on over chunks without a match as long as their counters are nonzero. */
  lemma {:induction false} LookupWalks(g: Geometry, T: Table, k: Key, i: nat, r: nat)
    requires g.Valid() && T.Shaped(g) && i <= r < g.n
    requires forall j: nat :: i <= j < r ==>
             T.chunks[g.Pos(k, j)].Match(k, g.Sign(k)).None? && T.chunks[g.Pos(k, j)].overflow > 0
    ensures Lookup(g, T, k, i) == Lookup(g, T, k, r)
    decreases r - i
  {
    if i < r {
      assert Lookup(g, T, k, i) == Lookup(g, T, k, i + 1);
      LookupWalks(g, T, k, i + 1, r);
    }
  }

  /** Stopping at a zero counter misses nothing. */
  lemma LookupFinds(g: Geometry, T: Table, pend: multiset<nat>, exact: bool, s: Slot)
    requires g.Valid() && T.Shaped(g) && T.Tagged(g) && T.Distinct(T.Used())
    requires T.Counts(g, T.Used(), pend, exact)
    requires s in T.Used()
    ensures Lookup(g, T, T.KeyAt(s), 0) == Some(s)
  {
    var k := T.KeyAt(s);
    forall j: nat | j < g.Rank(k, s.chunk) ensures T.Overflow(g.Pos(k, j)) > 0 {
      g.RankOfPos(k, j);
      PassedIsNonzero(g, T, T.Used(), pend, exact, s, g.Pos(k, j));
    }
    FoundExactly(g, T, s);
  }

  /** A probe ends without an answer at a counter of 0 if it has found no match so far. */
  lemma {:induction false} LookupStops(g: Geometry, T: Table, k: Key, i: nat, j: nat)
    requires g.Valid() && T.Shaped(g) && i <= j < g.n && T.chunks[g.Pos(k, j)].overflow == 0
    requires forall r: nat :: i <= r <= j ==> T.chunks[g.Pos(k, r)].Match(k, g.Sign(k)).None?
    ensures Lookup(g, T, k, i) == None
    decreases j - i
  {
    if i < j { LookupStops(g, T, k, i + 1, j); }
  }

  /** No chunk that the key of slot `s` passes has a counter of 0. */
  ghost predicate OpenPath(g: Geometry, T: Table, s: Slot)
    requires g.Valid()
  {
    forall j: nat :: j < g.Rank(T.KeyAt(s), s.chunk) ==> T.Overflow(g.Pos(T.KeyAt(s), j)) > 0
  }

  /** Whatever the counters are, a stored key is found exactly if its path is open. */
  lemma FoundExactly(g: Geometry, T: Table, s: Slot)
    requires g.Valid() && T.Shaped(g) && T.Tagged(g) && T.Distinct(T.Used()) && s in T.Used()
    ensures Lookup(g, T, T.KeyAt(s), 0) == if OpenPath(g, T, s) then Some(s) else None
  {
    var k := T.KeyAt(s);
    var r := g.Rank(k, s.chunk);
    g.PosOfRank(k, s.chunk);
    MatchOnlyThere(g, T, s, s.chunk);
    forall j: nat | j < r ensures T.chunks[g.Pos(k, j)].Match(k, g.Sign(k)).None? {
      g.RankOfPos(k, j);
      MatchOnlyThere(g, T, s, g.Pos(k, j));
    }
    if OpenPath(g, T, s) {
      LookupWalks(g, T, k, 0, r);
    } else {
      var j: nat :| j < r && T.Overflow(g.Pos(k, j)) == 0;
      LookupStops(g, T, k, 0, j);
    }
  }

  lemma {:induction false} LookupSound(g: Geometry, T: Table, k: Key, i: nat)
    requires g.Valid() && T.Shaped(g) && i <= g.n
    ensures var r := Lookup(g, T, k, i);
            r.Some? ==> r.value in T.Used() && T.KeyAt(r.value) == k
    decreases g.n - i
  {
    if i < g.n { LookupSound(g, T, k, i + 1); }
  }

  /** On a table whose counters are at least the true counts, the early-stopping probe is map lookup. */
  lemma LookupIsMapLookup(g: Geometry, T: Table, pend: multiset<nat>, exact: bool, k: Key)
    requires g.Valid() && T.Shaped(g) && T.Tagged(g) && T.Distinct(T.Used())
    requires T.Counts(g, T.Used(), pend, exact)
    ensures var r := Lookup(g, T, k, 0);
            && (r.Some? <==> k in T.Contents())
            && (r.Some? ==> r.value in T.Used() && T.KeyAt(r.value) == k && T.ValAt(r.value) == T.Contents()[k])
  {
    LookupSound(g, T, k, 0);
    if k in T.Contents() {
      LookupFinds(g, T, pend, exact, T.SlotOf(T.Used(), k));
    }
  }

  // ---- Room ----

  ghost function LanesOf(c: nat, m: nat): (r: set<Slot>)
    ensures forall s :: s in r <==> s.chunk == c && s.lane < m
    ensures |r| == m
  {
    if m == 0 then {} else LanesOf(c, m - 1) + {Slot(c, m - 1)}
  }

  ghost function AllSlots(n: nat, lanes: nat): (r: set<Slot>)
    ensures forall s :: s in r <==> s.chunk < n && s.lane < lanes
    ensures |r| == n * lanes
  {
    if n == 0 then {} else
      var r := AllSlots(n - 1, lanes);
      assert n * lanes == (n - 1) * lanes + lanes;
      r + LanesOf(n - 1, lanes)
  }

  lemma FullChunkUsesAll(ch: Chunk, l: nat)
    requires ch.Shaped() && |ch.Lanes()| == LANES && l < LANES
    ensures ch.tags[l] != 0
  {
    SubsetFull(ch.Lanes(), Range(LANES));
    assert l in ch.Lanes();
  }

  /** A table whose chunks are all full is as large as its capacity. */
  lemma AllFull(g: Geometry, T: Table)
    requires T.Shaped(g) && T.Sized() && forall c: nat :: c < g.n ==> T.chunks[c].size == LANES
    ensures T.size == g.n * LANES
  {
    forall s: Slot | s.chunk < g.n && s.lane < LANES ensures s in T.Used() {
      FullChunkUsesAll(T.chunks[s.chunk], s.lane);
    }
    assert T.Used() == AllSlots(g.n, LANES);
  }

  lemma LanesBound(ch: Chunk)
    requires ch.Shaped()
    ensures |ch.Lanes()| <= LANES
  {
    assert Range(LANES) == ch.Lanes() + (Range(LANES) - ch.Lanes());
  }

  lemma EmptyLane(ch: Chunk)
    requires ch.Shaped() && |ch.Lanes()| < LANES
    ensures exists l: nat :: l < LANES && ch.tags[l] == 0
  {
    var free := Range(LANES) - ch.Lanes();
    assert Range(LANES) == free + ch.Lanes();
    var l: nat :| l in free;
    assert ch.tags[l] == 0;
  }
}
