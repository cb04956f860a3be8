/**
  The writer of the table as a machine of single stores. Insert, Set and Delete run
  under one lock, so a history of operations is one sequence of these stores; readers
  and crashes see the table between any two of them.
 */
module Writer {
  import opened Seals
  import opened Probe
  import opened Table

  /** What the writer is in the middle of. */
  datatype Act =
    | Idle
      // an Insert that raised the counters of the first `i` chunks on its path
    | Probing(k: Key, v: Val, i: nat)
      // an Insert that counted its item in the size of the chunk but has not stored it
    | Reserved(k: Key, v: Val, i: nat)
      // an Insert that stored its item but not yet the tag
    | Placed(slot: Slot)
      // an Insert that stored the tag but has not counted the item in the size of the table
    | Tagged(slot: Slot)
      // a Delete that lowered the counters of the first `i` chunks on the path of its key
    | Lowering(slot: Slot, i: nat, resume: Act)
      // a Delete that cleared the tag but not yet the key
    | Untagged(slot: Slot, resume: Act)
      // a Delete that cleared the key but has not taken it out of the sizes
    | Erased(slot: Slot, resume: Act)
      // a Delete that has taken the key out of the size of its chunk only
    | Shrunk(slot: Slot, resume: Act)

  datatype State = State(T: Table, act: Act)

  /** A step of the writer, named with the action it continues. */
  datatype Label =
    | Begin(k: Key, v: Val)
    | Raise(k: Key, v: Val, i: nat)
    | Reserve(k: Key, v: Val, i: nat)
    | Place(k: Key, v: Val, i: nat, lane: nat)
    | Publish(slot: Slot)
    | Count(slot: Slot)
    | BeginDelete(slot: Slot, resume: Act)
    | Lower(slot: Slot, i: nat, resume: Act)
    | Untag(slot: Slot, i: nat, resume: Act)
    | Erase(slot: Slot, resume: Act)
    | Shrink(slot: Slot, resume: Act)
    | Uncount(slot: Slot, resume: Act)
    | Overwrite(slot: Slot, v: Val)

  // ---- Stores ----

  predicate Has(g: Geometry, s: Slot) {
    s.chunk < g.n && s.lane < LANES
  }

  function SetItem(g: Geometry, T: Table, s: Slot, k: Key, v: Val): Table
    requires T.Shaped(g) && Has(g, s)
  {
    T.Put(s.chunk, T.chunks[s.chunk].WriteItem(s.lane, k, v))
  }

  function SetTag(g: Geometry, T: Table, s: Slot, t: nat): Table
    requires T.Shaped(g) && Has(g, s)
  {
    T.Put(s.chunk, T.chunks[s.chunk].WriteTag(s.lane, t))
  }

  function Down(n: nat): nat {
    if n > 0 then n - 1 else 0
  }

  function Widen(T: Table, c: nat): Table
    requires c < |T.chunks|
  {
    T.Put(c, T.chunks[c].(size := T.chunks[c].size + 1))
  }

  function Narrow(T: Table, c: nat): Table
    requires c < |T.chunks|
  {
    T.Put(c, T.chunks[c].(size := Down(T.chunks[c].size)))
  }

  // ---- The size fields ----

  /** By how much the size of one chunk and that of the table are ahead of the tags. */
  datatype Skew = Skew(chunk: nat, extra: int, total: int)

  function SkewOf(g: Geometry, a: Act): Skew
    requires g.Valid()
  {
    match a
    case Reserved(k, _, i) => Skew(g.Pos(k, i), 1, 0)
    case Placed(s) => Skew(s.chunk, 1, 0)
    case Tagged(s) => Skew(s.chunk, 0, -1)
    case Untagged(s, _) => Skew(s.chunk, 1, 1)
    case Erased(s, _) => Skew(s.chunk, 1, 1)
    case Shrunk(s, _) => Skew(s.chunk, 0, 1)
    case _ => Skew(0, 0, 0)
  }

  ghost predicate Skewed(T: Table, k: Skew) {
    match k
    case Skew(c, extra, total) =>
      && T.size == |T.Used()| + total
      && forall d: nat :: d < |T.chunks| ==> T.chunks[d].size == |T.chunks[d].Lanes()| + if d == c then extra else 0
  }

  lemma SkewZero(T: Table, k: Skew)
    requires k.extra == 0 && k.total == 0
    ensures Skewed(T, k) <==> T.Sized()
  {}

  /** The sizes stay as they are when only items and counters change. */
  lemma SkewFrame(T: Table, T': Table, k: Skew)
    requires Skewed(T, k) && T'.size == T.size && |T'.chunks| == |T.chunks| && T'.Used() == T.Used()
    requires forall d: nat :: d < |T.chunks| ==>
             T'.chunks[d].size == T.chunks[d].size && T'.chunks[d].tags == T.chunks[d].tags
    ensures Skewed(T', k)
  {
    forall d: nat | d < |T.chunks| ensures T'.chunks[d].Lanes() == T.chunks[d].Lanes() {}
  }

  lemma SkewUsed(T: Table, T': Table)
    requires forall u :: T'.Tag(u) == T.Tag(u)
    ensures T'.Used() == T.Used()
  {}

  lemma WidenSkew(T: Table, c: nat)
    requires c < |T.chunks| && Skewed(T, Skew(0, 0, 0))
    ensures Skewed(Widen(T, c), Skew(c, 1, 0))
  {
    var T' := Widen(T, c);
    SkewUsed(T, T');
    forall d: nat | d < |T.chunks| ensures T'.chunks[d].Lanes() == T.chunks[d].Lanes() {}
  }

  lemma NarrowSkew(T: Table, c: nat)
    requires c < |T.chunks| && Skewed(T, Skew(c, 1, 1))
    ensures Skewed(Narrow(T, c), Skew(c, 0, 1))
  {
    var T' := Narrow(T, c);
    SkewUsed(T, T');
    forall d: nat | d < |T.chunks| ensures T'.chunks[d].Lanes() == T.chunks[d].Lanes() {}
  }

  lemma CountSkew(T: Table, c: nat, size: nat)
    requires Skewed(T, Skew(c, 0, T.size - size))
    ensures Skewed(T.(size := size), Skew(0, 0, 0))
  {
    SkewUsed(T, T.(size := size));
  }

  // ---- How a single store moves the slots ----

  /** `T'` has the items of `T` in all slots but `s`, and the counters of `T`. */
  ghost predicate SameItems(T: Table, T': Table, s: Slot) {
    && (forall t :: t != s ==> T'.KeyAt(t) == T.KeyAt(t) && T'.ValAt(t) == T.ValAt(t))
    && (forall c: nat :: T'.Overflow(c) == T.Overflow(c))
  }

  /** A table that differs in sizes and counters only has the same slots. */
  ghost predicate SameLanes(T: Table, T': Table) {
    && |T'.chunks| == |T.chunks|
    && forall c: nat :: c < |T.chunks| ==>
         T'.chunks[c] == T.chunks[c].(size := T'.chunks[c].size, overflow := T'.chunks[c].overflow)
  }

  lemma SameLanesSlots(g: Geometry, T: Table, T': Table)
    requires T.Firm(g) && SameLanes(T, T') && forall c: nat :: c < g.n ==> T'.Overflow(c) <= STUCK
    ensures T'.Firm(g) && T'.Used() == T.Used() && T'.Occupied() == T.Occupied()
    ensures T'.Keys(T.Occupied()) == T.Keys(T.Occupied()) && T'.Persisted() == T.Persisted()
    ensures forall s :: T'.KeyAt(s) == T.KeyAt(s) && T'.Tag(s) == T.Tag(s) && T'.ValAt(s) == T.ValAt(s)
  {
    assert forall s: Slot :: T'.KeyAt(s) == T.KeyAt(s) && T'.Tag(s) == T.Tag(s) && T'.ValAt(s) == T.ValAt(s);
    assert T'.Used() == T.Used();
    assert T'.Occupied() == T.Occupied();
    ViewFrame(T, T', T.Occupied());
    forall c: nat | c < g.n ensures T'.chunks[c].Shaped() { assert T'.Overflow(c) <= STUCK; }
  }

  /** Changing one counter moves no slot. */
  lemma RecountedSlots(g: Geometry, T: Table, T': Table, c: nat)
    requires T.Firm(g) && Recounted(T, T', c)
    ensures T'.Firm(g) && T'.Used() == T.Used() && T'.Occupied() == T.Occupied()
    ensures T'.Keys(T.Occupied()) == T.Keys(T.Occupied()) && T'.Persisted() == T.Persisted()
    ensures forall s :: T'.KeyAt(s) == T.KeyAt(s) && T'.Tag(s) == T.Tag(s) && T'.ValAt(s) == T.ValAt(s)
    ensures forall k: Skew :: Skewed(T, k) ==> Skewed(T', k)
  {
    forall d: nat | d < g.n ensures T'.Overflow(d) <= STUCK { assert d != c ==> T.chunks[d].Shaped(); }
    SameLanesSlots(g, T, T');
    forall k: Skew | Skewed(T, k) ensures Skewed(T', k) { SkewFrame(T, T', k); }
  }

  /** Changing the size of a chunk moves no slot. */
  lemma ResizedSlots(g: Geometry, T: Table, c: nat, size: nat)
    requires T.Firm(g) && c < g.n
    ensures var T' := T.Put(c, T.chunks[c].(size := size));
            && T'.Firm(g) && T'.Used() == T.Used() && T'.Occupied() == T.Occupied() && T'.Persisted() == T.Persisted()
            && T'.Keys(T.Occupied()) == T.Keys(T.Occupied())
            && (forall s :: T'.KeyAt(s) == T.KeyAt(s)) && (forall d: nat :: T'.Overflow(d) == T.Overflow(d))
            && (forall s :: T'.Tag(s) == T.Tag(s))
  {
    SameLanesSlots(g, T, T.Put(c, T.chunks[c].(size := size)));
  }

  lemma RecountedTableSlots(g: Geometry, T: Table, size: nat)
    requires T.Firm(g)
    ensures var T' := T.(size := size);
            && T'.Firm(g) && T'.Used() == T.Used() && T'.Occupied() == T.Occupied() && T'.Persisted() == T.Persisted()
            && T'.Keys(T.Occupied()) == T.Keys(T.Occupied())
            && (forall s :: T'.KeyAt(s) == T.KeyAt(s)) && (forall d: nat :: T'.Overflow(d) == T.Overflow(d))
            && (forall s :: T'.Tag(s) == T.Tag(s))
  {
    SameLanesSlots(g, T, T.(size := size));
  }

  lemma SetItemAt(g: Geometry, T: Table, s: Slot, k: Key, v: Val)
    requires T.Shaped(g) && Has(g, s)
    ensures var T' := SetItem(g, T, s, k, v); T'.KeyAt(s) == k && T'.ValAt(s) == v && T'.Tag(s) == T.Tag(s)
  {}

  /** Writing an item moves no tag and changes no other slot. */
  lemma SetItemSlots(g: Geometry, T: Table, s: Slot, k: Key, v: Val)
    requires T.Shaped(g) && T.Quiet() && Has(g, s)
    ensures var T' := SetItem(g, T, s, k, v);
            && T'.Shaped(g) && T'.Quiet() && T'.Used() == T.Used() && SameItems(T, T', s)
            && T'.KeyAt(s) == k && T'.ValAt(s) == v && (forall t :: T'.Tag(t) == T.Tag(t))
            && T'.Occupied() == if k == NO_KEY then T.Occupied() - {s} else T.Occupied() + {s}
  {
    var T' := SetItem(g, T, s, k, v);
    forall t | t != s ensures T'.KeyAt(t) == T.KeyAt(t) && T'.ValAt(t) == T.ValAt(t) {
      if t.chunk == s.chunk { assert t.lane != s.lane; }
    }
    assert T'.Used() == T.Used();
  }

  lemma SetItemSkew(g: Geometry, T: Table, s: Slot, k: Key, v: Val, skew: Skew)
    requires T.Shaped(g) && Has(g, s) && Skewed(T, skew)
    ensures Skewed(SetItem(g, T, s, k, v), skew)
  {
    SkewUsed(T, SetItem(g, T, s, k, v));
    SkewFrame(T, SetItem(g, T, s, k, v), skew);
  }

  lemma SameSlots(T: Table, T': Table)
    requires forall u :: T'.KeyAt(u) == T.KeyAt(u) && T'.ValAt(u) == T.ValAt(u)
    requires T.Distinct(T.Occupied())
    ensures T'.Occupied() == T.Occupied() && T'.Distinct(T'.Occupied())
    ensures T'.Keys(T'.Occupied()) == T.Keys(T.Occupied()) && T'.Persisted() == T.Persisted()
  {
    assert T'.Occupied() == T.Occupied();
    ViewFrame(T, T', T.Occupied());
  }

  lemma SetTagTags(g: Geometry, T: Table, s: Slot, t: nat)
    requires T.Shaped(g) && Has(g, s)
    ensures var T' := SetTag(g, T, s, t);
            && T'.Shaped(g) && (forall u :: T'.Tag(u) == if u == s then t else T.Tag(u))
            && SameItems(T, T', s) && T'.KeyAt(s) == T.KeyAt(s) && T'.ValAt(s) == T.ValAt(s)
            && (T.Quiet() ==> T'.Quiet())
  {
    var T' := SetTag(g, T, s, t);
    forall u ensures T'.Tag(u) == if u == s then t else T.Tag(u) {
      if u.chunk == s.chunk && u != s { assert u.lane != s.lane; }
    }
    assert forall u: Slot :: T'.KeyAt(u) == T.KeyAt(u) && T'.ValAt(u) == T.ValAt(u);
  }

  /** Tagging a lane catches up with the size of its chunk and leaves that of the table behind. */
  lemma TaggingSkew(g: Geometry, T: Table, s: Slot, t: nat)
    requires T.Shaped(g) && Has(g, s) && T.Tag(s) == 0 && t != 0 && Skewed(T, Skew(s.chunk, 1, 0))
    ensures SetTag(g, T, s, t).Used() == T.Used() + {s} && Skewed(SetTag(g, T, s, t), Skew(s.chunk, 0, -1))
  {
    var T' := SetTag(g, T, s, t);
    SetTagTags(g, T, s, t);
    assert T'.Used() == T.Used() + {s};
    LanesTag(T.chunks[s.chunk], s.lane, t);
  }

  lemma UntaggingSkew(g: Geometry, T: Table, s: Slot)
    requires T.Shaped(g) && Has(g, s) && T.Tag(s) != 0 && Skewed(T, Skew(0, 0, 0))
    ensures SetTag(g, T, s, 0).Used() == T.Used() - {s} && Skewed(SetTag(g, T, s, 0), Skew(s.chunk, 1, 1))
  {
    var T' := SetTag(g, T, s, 0);
    SetTagTags(g, T, s, 0);
    assert s in T.Used() && s.lane in T.chunks[s.chunk].Lanes();
    assert T'.Used() == T.Used() - {s};
    LanesTag(T.chunks[s.chunk], s.lane, 0);
  }

  /** Tagging a slot puts it in use. */
  lemma TaggingSlots(g: Geometry, T: Table, s: Slot)
    requires T.Firm(g) && Has(g, s) && T.Tag(s) == 0 && T.KeyAt(s) != NO_KEY
    ensures var T' := SetTag(g, T, s, g.Sign(T.KeyAt(s)));
            && T'.Firm(g) && T'.Used() == T.Used() + {s} && T'.Occupied() == T.Occupied()
            && SameItems(T, T', s) && T'.KeyAt(s) == T.KeyAt(s) && T'.Persisted() == T.Persisted()
  {
    var T' := SetTag(g, T, s, g.Sign(T.KeyAt(s)));
    SetTagTags(g, T, s, g.Sign(T.KeyAt(s)));
    assert T'.Used() == T.Used() + {s};
    SameSlots(T, T');
  }

  lemma UntaggingSlots(g: Geometry, T: Table, s: Slot)
    requires T.Firm(g) && T.Tag(s) != 0
    ensures Has(g, s)
    ensures var T' := SetTag(g, T, s, 0);
            && T'.Firm(g) && T'.Used() == T.Used() - {s} && T'.Occupied() == T.Occupied()
            && SameItems(T, T', s) && T'.KeyAt(s) == T.KeyAt(s) && T'.Persisted() == T.Persisted()
            && T'.Keys(T.Occupied()) == T.Keys(T.Occupied())
  {
    var T' := SetTag(g, T, s, 0);
    SetTagTags(g, T, s, 0);
    assert T'.Used() == T.Used() - {s};
    SameSlots(T, T');
  }

  /** Storing a new key in an empty slot. */
  lemma PlaceSlots(g: Geometry, T: Table, s: Slot, k: Key, v: Val)
    requires T.Firm(g) && Has(g, s) && T.Tag(s) == 0 && T.KeyAt(s) == NO_KEY
    requires k != NO_KEY && k !in T.Keys(T.Occupied())
    ensures var T' := SetItem(g, T, s, k, v);
            T'.Firm(g) && T'.Occupied() == T.Occupied() + {s} && T'.Persisted() == T.Persisted()[k := v]
  {
    var T' := SetItem(g, T, s, k, v);
    SetItemSlots(g, T, s, k, v);
    ViewFrame(T, T', T.Occupied());
    ViewExtend(T', T.Occupied(), s);
  }

  /** Erasing the key of an untagged slot. */
  lemma EraseSlots(g: Geometry, T: Table, s: Slot)
    requires T.Firm(g) && Has(g, s) && T.Tag(s) == 0 && T.KeyAt(s) != NO_KEY
    ensures var T' := SetItem(g, T, s, NO_KEY, T.ValAt(s));
            && T'.Firm(g) && T'.Occupied() == T.Occupied() - {s} && T'.Persisted() == T.Persisted() - {T.KeyAt(s)}
            && T'.Keys(T'.Occupied()) <= T.Keys(T.Occupied())
  {
    var T' := SetItem(g, T, s, NO_KEY, T.ValAt(s));
    SetItemSlots(g, T, s, NO_KEY, T.ValAt(s));
    ViewShrink(T, T.Occupied(), s);
    ViewFrame(T, T', T.Occupied() - {s});
  }

  lemma EraseFirm(g: Geometry, T: Table, s: Slot)
    requires T.Firm(g) && Has(g, s) && T.Tag(s) == 0 && T.KeyAt(s) != NO_KEY
    ensures var T' := SetItem(g, T, s, NO_KEY, T.ValAt(s));
            T'.Firm(g) && T'.Persisted() == T.Persisted() - {T.KeyAt(s)}
  {
    EraseSlots(g, T, s);
  }

  /** Replacing the value of a stored key. */
  lemma OverwriteSlots(g: Geometry, T: Table, s: Slot, v: Val)
    requires T.Firm(g) && T.Tag(s) != 0
    ensures Has(g, s)
    ensures var T' := SetItem(g, T, s, T.KeyAt(s), v);
            T'.Firm(g) && T'.Occupied() == T.Occupied() && T'.Persisted() == T.Persisted()[T.KeyAt(s) := v]
  {
    var k, S := T.KeyAt(s), T.Occupied();
    var T' := SetItem(g, T, s, k, v);
    SetItemSlots(g, T, s, k, v);
    assert s in S;
    assert T'.Occupied() == S;
    ViewReplace(T, T', S, s);
  }

  // ---- Invariant ----

  /** What holds of an Insert that has not stored its item. */
  ghost predicate Waiting(g: Geometry, T: Table, a: Act) {
    a.Idle? || (a.Probing? && a.i <= g.n && a.k != NO_KEY && a.k !in T.Keys(T.Occupied()))
  }

  /** The passes that a suspended Insert has raised counters for. */
  ghost function Raised(g: Geometry, a: Act): multiset<nat>
    requires g.Valid()
  {
    if a.Probing? then Path(g, a.k, 0, a.i) else multiset{}
  }

  ghost function FullPath(g: Geometry, T: Table, s: Slot): multiset<nat>
    requires g.Valid()
  {
    Path(g, T.KeyAt(s), 0, g.Rank(T.KeyAt(s), s.chunk))
  }

  /** The tags and the keys agree, and the counters count the slots in use and what `a` has raised. */
  ghost predicate Resting(g: Geometry, T: Table, a: Act, exact: bool)
    requires g.Valid()
  {
    T.Occupied() == T.Used() && Waiting(g, T, a) && T.Counts(g, T.Used(), Raised(g, a), exact)
  }

  /** What the counters and the slots look like in the middle of each action. */
  ghost predicate ActInv(g: Geometry, T: Table, act: Act, exact: bool)
    requires g.Valid()
  {
    match act
    case Reserved(k, v, i) => i < g.n && Resting(g, T, Probing(k, v, i), exact)
    case Placed(s) =>
      && Has(g, s) && T.Tag(s) == 0 && T.KeyAt(s) != NO_KEY && T.Occupied() == T.Used() + {s}
      && T.Counts(g, T.Used(), FullPath(g, T, s), exact)
    case Tagged(s) => Has(g, s) && T.Tag(s) != 0 && Resting(g, T, Idle, exact)
    case Lowering(s, i, a) =>
      && T.Tag(s) != 0 && T.Occupied() == T.Used() && i <= g.Rank(T.KeyAt(s), s.chunk)
      && Waiting(g, T, a)
      && T.Counts(g, T.Used() - {s}, Raised(g, a) + Path(g, T.KeyAt(s), i, g.Rank(T.KeyAt(s), s.chunk)), exact)
    case Untagged(s, a) =>
      && Has(g, s) && T.Tag(s) == 0 && T.KeyAt(s) != NO_KEY && T.Occupied() == T.Used() + {s}
      && Waiting(g, T, a)
      && T.Counts(g, T.Used(), Raised(g, a), exact)
    case Erased(s, a) => Has(g, s) && Resting(g, T, a, exact)
    case Shrunk(s, a) => Has(g, s) && Resting(g, T, a, exact)
    case a => Resting(g, T, a, exact)
  }

  /** The slots whose keys the counters count in the middle of an action. */
  ghost function Counted(T: Table, a: Act): set<Slot> {
    if a.Lowering? then T.Used() - {a.slot} else T.Used()
  }

  /** The passes the counters are ahead by. */
  ghost function Pending(g: Geometry, T: Table, a: Act): multiset<nat>
    requires g.Valid()
  {
    match a
    case Reserved(k, v, i) => Raised(g, Probing(k, v, i))
    case Placed(s) => FullPath(g, T, s)
    case Lowering(s, i, b) => Raised(g, b) + Path(g, T.KeyAt(s), i, g.Rank(T.KeyAt(s), s.chunk))
    case Untagged(_, b) => Raised(g, b)
    case Erased(_, b) => Raised(g, b)
    case Shrunk(_, b) => Raised(g, b)
    case _ => Raised(g, a)
  }

  lemma ActCounts(g: Geometry, T: Table, act: Act, exact: bool)
    requires g.Valid() && ActInv(g, T, act, exact)
    ensures T.Counts(g, Counted(T, act), Pending(g, T, act), exact)
  {}

  ghost predicate StateInv(g: Geometry, st: State, exact: bool) {
    match st
    case State(T, act) => T.Firm(g) && Skewed(T, SkewOf(g, act)) && ActInv(g, T, act, exact)
  }

  /** Between operations this is the invariant of the table. */
  lemma IdleInv(g: Geometry, T: Table, exact: bool)
    ensures StateInv(g, State(T, Idle), exact) <==> T.Inv(g, exact)
  {
    if T.Firm(g) { SkewZero(T, SkewOf(g, Idle)); }
  }

  /** Tables with the same slots and counters rest alike. */
  lemma RestingFrame(g: Geometry, T: Table, T': Table, a: Act, exact: bool)
    requires g.Valid() && Resting(g, T, a, exact) && T'.Used() == T.Used() && T'.Occupied() == T.Occupied()
    requires T'.Keys(T.Occupied()) == T.Keys(T.Occupied())
    requires (forall s :: T'.KeyAt(s) == T.KeyAt(s)) && (forall d: nat :: T'.Overflow(d) == T.Overflow(d))
    ensures Resting(g, T', a, exact)
  {
    CountsFrame(g, T, T', T.Used(), Raised(g, a), exact);
  }

  // ---- Every step keeps what its action promises ----

  lemma RaiseAct(g: Geometry, T: Table, k: Key, v: Val, i: nat, exact: bool)
    requires T.Firm(g) && ActInv(g, T, Probing(k, v, i), exact) && i < g.n
    ensures var T' := T.Put(g.Pos(k, i), T.chunks[g.Pos(k, i)].IncOverflow());
            Recounted(T, T', g.Pos(k, i)) && ActInv(g, T', Probing(k, v, i + 1), exact)
  {
    var c := g.Pos(k, i);
    RaiseCounts(g, T, T.Used(), Path(g, k, 0, i), exact, c);
    PathExtend(g, k, 0, i);
    var T' := T.Put(c, T.chunks[c].IncOverflow());
    RecountedSlots(g, T, T', c);
    StillProbing(g, T, T', k, v, i, exact);
  }

  lemma StillProbing(g: Geometry, T: Table, T': Table, k: Key, v: Val, i: nat, exact: bool)
    requires g.Valid() && ActInv(g, T, Probing(k, v, i), exact) && i < g.n
    requires T'.Used() == T.Used() && T'.Occupied() == T.Occupied() && T'.Keys(T.Occupied()) == T.Keys(T.Occupied())
    requires T'.Counts(g, T.Used(), Path(g, k, 0, i + 1), exact)
    ensures ActInv(g, T', Probing(k, v, i + 1), exact)
  {}

  lemma LowerPending(g: Geometry, T: Table, S: set<Slot>, rest: multiset<nat>, k: Key, i: nat, r: nat, exact: bool)
    requires g.Valid() && T.Shaped(g) && i < r < g.n && T.Counts(g, S, rest + Path(g, k, i, r), exact)
    ensures var T' := T.Put(g.Pos(k, i), T.chunks[g.Pos(k, i)].DecOverflow());
            T'.Counts(g, S, rest + Path(g, k, i + 1, r), exact) && Recounted(T, T', g.Pos(k, i))
  {
    var c, due := g.Pos(k, i), Path(g, k, i, r);
    LowerCounts(g, T, S, rest + due, exact, c);
    assert rest + due - multiset{c} == rest + Path(g, k, i + 1, r);
  }

  lemma LowerAct(g: Geometry, T: Table, s: Slot, i: nat, a: Act, exact: bool)
    requires T.Firm(g) && ActInv(g, T, Lowering(s, i, a), exact) && i < g.Rank(T.KeyAt(s), s.chunk)
    ensures var c := g.Pos(T.KeyAt(s), i);
            var T' := T.Put(c, T.chunks[c].DecOverflow());
            Recounted(T, T', c) && ActInv(g, T', Lowering(s, i + 1, a), exact)
  {
    var k := T.KeyAt(s);
    var c := g.Pos(k, i);
    LowerPending(g, T, T.Used() - {s}, Raised(g, a), k, i, g.Rank(k, s.chunk), exact);
    var T' := T.Put(c, T.chunks[c].DecOverflow());
    RecountedSlots(g, T, T', c);
    StillLowering(g, T, T', s, i, a, exact);
  }

  lemma StillLowering(g: Geometry, T: Table, T': Table, s: Slot, i: nat, a: Act, exact: bool)
    requires g.Valid() && ActInv(g, T, Lowering(s, i, a), exact) && i < g.Rank(T.KeyAt(s), s.chunk)
    requires T'.Used() == T.Used() && T'.Occupied() == T.Occupied() && T'.Keys(T.Occupied()) == T.Keys(T.Occupied())
    requires T'.KeyAt(s) == T.KeyAt(s) && T'.Tag(s) == T.Tag(s)
    requires var k := T.KeyAt(s);
             T'.Counts(g, T.Used() - {s}, Raised(g, a) + Path(g, k, i + 1, g.Rank(k, s.chunk)), exact)
    ensures ActInv(g, T', Lowering(s, i + 1, a), exact)
  {}

  lemma PlaceAct(g: Geometry, T: Table, k: Key, v: Val, i: nat, lane: nat, exact: bool)
    requires T.Firm(g) && ActInv(g, T, Reserved(k, v, i), exact)
    requires lane < LANES && T.Tag(Slot(g.Pos(k, i), lane)) == 0
    ensures var s := Slot(g.Pos(k, i), lane);
            T.KeyAt(s) == NO_KEY && ActInv(g, SetItem(g, T, s, k, v), Placed(s), exact)
  {
    var s := Slot(g.Pos(k, i), lane);
    assert s !in T.Used();
    SetItemSlots(g, T, s, k, v);
    g.RankOfPos(k, i);
    CountsFrame(g, T, SetItem(g, T, s, k, v), T.Used(), Path(g, k, 0, i), exact);
  }

  lemma PublishCounts(g: Geometry, T: Table, T': Table, s: Slot, exact: bool)
    requires g.Valid() && s !in T.Used() && SameItems(T, T', s) && T'.KeyAt(s) == T.KeyAt(s)
    requires T.Counts(g, T.Used(), FullPath(g, T, s), exact)
    ensures T'.Counts(g, T.Used() + {s}, multiset{}, exact)
  {
    CountsFrame(g, T, T', T.Used(), FullPath(g, T, s), exact);
    assert multiset{} + FullPath(g, T', s) == FullPath(g, T, s);
    Recount(g, T', T.Used(), s, multiset{}, exact);
  }

  lemma PublishAct(g: Geometry, T: Table, s: Slot, exact: bool)
    requires T.Firm(g) && ActInv(g, T, Placed(s), exact)
    ensures ActInv(g, SetTag(g, T, s, g.Sign(T.KeyAt(s))), Tagged(s), exact)
  {
    TaggingSlots(g, T, s);
    SetTagTags(g, T, s, g.Sign(T.KeyAt(s)));
    PublishCounts(g, T, SetTag(g, T, s, g.Sign(T.KeyAt(s))), s, exact);
  }

  lemma BeginDeleteAct(g: Geometry, T: Table, s: Slot, a: Act, exact: bool)
    requires T.Firm(g) && ActInv(g, T, a, exact) && (a.Idle? || a.Probing?) && T.Tag(s) != 0
    ensures ActInv(g, T, Lowering(s, 0, a), exact)
  {
    assert s in T.Used();
    assert T.Used() - {s} + {s} == T.Used();
    Recount(g, T, T.Used() - {s}, s, Raised(g, a), exact);
  }

  lemma UntagCounts(g: Geometry, T: Table, T': Table, s: Slot, i: nat, rest: multiset<nat>, exact: bool)
    requires g.Valid() && SameItems(T, T', s) && T'.Used() == T.Used() - {s}
    requires T.Counts(g, T.Used() - {s}, rest + Path(g, T.KeyAt(s), i, i), exact)
    ensures T'.Counts(g, T'.Used(), rest, exact)
  {
    assert rest + Path(g, T.KeyAt(s), i, i) == rest;
    CountsFrame(g, T, T', T'.Used(), rest, exact);
  }

  lemma UntagAct(g: Geometry, T: Table, s: Slot, i: nat, a: Act, exact: bool)
    requires T.Firm(g) && ActInv(g, T, Lowering(s, i, a), exact) && i == g.Rank(T.KeyAt(s), s.chunk)
    ensures Has(g, s) && ActInv(g, SetTag(g, T, s, 0), Untagged(s, a), exact)
  {
    UntaggingSlots(g, T, s);
    SetTagTags(g, T, s, 0);
    var T' := SetTag(g, T, s, 0);
    UntagCounts(g, T, T', s, i, Raised(g, a), exact);
    assert T'.Occupied() == T'.Used() + {s} by { assert s in T.Used(); }
  }

  lemma EraseAct(g: Geometry, T: Table, s: Slot, a: Act, exact: bool)
    requires T.Firm(g) && ActInv(g, T, Untagged(s, a), exact)
    ensures ActInv(g, SetItem(g, T, s, NO_KEY, T.ValAt(s)), Erased(s, a), exact)
  {
    var T' := SetItem(g, T, s, NO_KEY, T.ValAt(s));
    SetItemSlots(g, T, s, NO_KEY, T.ValAt(s));
    EraseSlots(g, T, s);
    assert s !in T.Used();
    assert T'.Occupied() == T.Used();
    CountsFrame(g, T, T', T.Used(), Raised(g, a), exact);
  }

  lemma OverwriteAct(g: Geometry, T: Table, s: Slot, v: Val, exact: bool)
    requires T.Firm(g) && ActInv(g, T, Idle, exact) && T.Tag(s) != 0
    ensures Has(g, s) && ActInv(g, SetItem(g, T, s, T.KeyAt(s), v), Idle, exact)
  {
    OverwriteSlots(g, T, s, v);
    SetItemSlots(g, T, s, T.KeyAt(s), v);
    CountsFrame(g, T, SetItem(g, T, s, T.KeyAt(s), v), T.Used(), multiset{}, exact);
  }

  // ---- Steps and runs ----

  /** An Insert goes past a chunk only if it is full and the table is below its load limit. */
  predicate Passable(g: Geometry, T: Table, c: nat) {
    T.SizeOf(c) == LANES && !IsFull(g, T.size)
  }

  /** An item goes to the first lane that is not in use. */
  predicate Foremost(T: Table, s: Slot) {
    s.lane < LANES && T.Tag(s) == 0 && forall l: nat :: l < s.lane ==> T.Tag(Slot(s.chunk, l)) != 0
  }

  ghost predicate Enabled(g: Geometry, st: State, l: Label)
    requires g.Valid()
  {
    var T, a := st.T, st.act;
    match l
    case Begin(k, v) => a.Idle? && k != NO_KEY && k !in T.Keys(T.Used())
    case Raise(k, v, i) => a == Probing(k, v, i) && i < g.n && Passable(g, T, g.Pos(k, i))
    case Reserve(k, v, i) => a == Probing(k, v, i) && i < g.n && T.SizeOf(g.Pos(k, i)) < LANES
    case Place(k, v, i, lane) => a == Reserved(k, v, i) && Foremost(T, Slot(g.Pos(k, i), lane))
    case Publish(s) => a == Placed(s) && Has(g, s)
    case Count(s) => a == Tagged(s)
    case BeginDelete(s, b) => a == b && (b.Idle? || b.Probing?) && T.Tag(s) != 0
    case Lower(s, i, b) => a == Lowering(s, i, b) && i < g.Rank(T.KeyAt(s), s.chunk)
    case Untag(s, i, b) => a == Lowering(s, i, b) && Has(g, s) && i == g.Rank(T.KeyAt(s), s.chunk)
    case Erase(s, b) => a == Untagged(s, b) && Has(g, s)
    case Shrink(s, b) => a == Erased(s, b) && Has(g, s)
    case Uncount(s, b) => a == Shrunk(s, b)
    case Overwrite(s, v) => a.Idle? && Has(g, s) && T.Tag(s) != 0
  }

  ghost function Apply(g: Geometry, st: State, l: Label): State
    requires g.Valid() && st.T.Shaped(g) && Enabled(g, st, l)
  {
    var T := st.T;
    match l
    case Begin(k, v) => State(T, Probing(k, v, 0))
    case Raise(k, v, i) => State(T.Put(g.Pos(k, i), T.chunks[g.Pos(k, i)].IncOverflow()), Probing(k, v, i + 1))
    case Reserve(k, v, i) => State(Widen(T, g.Pos(k, i)), Reserved(k, v, i))
    case Place(k, v, i, lane) => State(SetItem(g, T, Slot(g.Pos(k, i), lane), k, v), Placed(Slot(g.Pos(k, i), lane)))
    case Publish(s) => State(SetTag(g, T, s, g.Sign(T.KeyAt(s))), Tagged(s))
    case Count(s) => State(T.(size := T.size + 1), Idle)
    case BeginDelete(s, b) => State(T, Lowering(s, 0, b))
    case Lower(s, i, b) =>
      State(T.Put(g.Pos(T.KeyAt(s), i), T.chunks[g.Pos(T.KeyAt(s), i)].DecOverflow()), Lowering(s, i + 1, b))
    case Untag(s, i, b) => State(SetTag(g, T, s, 0), Untagged(s, b))
    case Erase(s, b) => State(SetItem(g, T, s, NO_KEY, T.ValAt(s)), Erased(s, b))
    case Shrink(s, b) => State(Narrow(T, s.chunk), Shrunk(s, b))
    case Uncount(s, b) => State(T.(size := Down(T.size)), b)
    case Overwrite(s, v) => State(SetItem(g, T, s, T.KeyAt(s), v), Idle)
  }

  /** What a step does to the persisted map: only three kinds of store change it. */
  ghost function Effect(T: Table, l: Label, m: map<Key, Val>): map<Key, Val> {
    match l
    case Place(k, v, i, lane) => m[k := v]
    case Erase(s, a) => m - {T.KeyAt(s)}
    case Overwrite(s, v) => m[T.KeyAt(s) := v]
    case _ => m
  }

  /** Table `T'` in action `a'` satisfies the invariant and persists `m'`. */
  ghost predicate Good(g: Geometry, T': Table, a': Act, exact: bool, m': map<Key, Val>) {
    // A single case, so that the predicate stays folded where it is only passed on.
    match T'
    case Table(_, _) => StateInv(g, State(T', a'), exact) && T'.Persisted() == m'
  }

  /** The step `l` from `st` keeps the invariant and changes the persisted map as stated. */
  ghost predicate GoodStep(g: Geometry, st: State, l: Label, exact: bool)
    requires g.Valid() && st.T.Shaped(g) && Enabled(g, st, l)
  {
    // A single case, so that the predicate stays folded where it is only passed on.
    match st
    case State(_, _) =>
      var st' := Apply(g, st, l);
      Good(g, st'.T, st'.act, exact, Effect(st.T, l, st.T.Persisted()))
  }

  ghost predicate CanStep(g: Geometry, st: State, l: Label, exact: bool) {
    // A single case, so that the predicate stays folded where it is only passed on.
    match st
    case State(_, _) => StateInv(g, st, exact) && Enabled(g, st, l)
  }

  lemma IsGood(g: Geometry, T': Table, a': Act, exact: bool, k: Skew, m': map<Key, Val>)
    requires T'.Firm(g) && k == SkewOf(g, a') && Skewed(T', k) && ActInv(g, T', a', exact) && T'.Persisted() == m'
    ensures Good(g, T', a', exact, m')
  {}

  lemma BeginStep(g: Geometry, T: Table, k: Key, v: Val, exact: bool)
    requires StateInv(g, State(T, Idle), exact) && k != NO_KEY && k !in T.Keys(T.Used())
    ensures GoodStep(g, State(T, Idle), Begin(k, v), exact)
  {
    IsGood(g, T, Probing(k, v, 0), exact, SkewOf(g, Idle), T.Persisted());
    assert Apply(g, State(T, Idle), Begin(k, v)) == State(T, Probing(k, v, 0));
  }

  lemma RaiseGood(g: Geometry, T: Table, k: Key, v: Val, i: nat, exact: bool)
    requires T.Firm(g) && Skewed(T, Skew(0, 0, 0)) && ActInv(g, T, Probing(k, v, i), exact) && i < g.n
    ensures Good(g, T.Put(g.Pos(k, i), T.chunks[g.Pos(k, i)].IncOverflow()), Probing(k, v, i + 1), exact, T.Persisted())
  {
    RaiseAct(g, T, k, v, i, exact);
    RecountedSlots(g, T, T.Put(g.Pos(k, i), T.chunks[g.Pos(k, i)].IncOverflow()), g.Pos(k, i));
  }

  lemma RaiseApply(g: Geometry, T: Table, k: Key, v: Val, i: nat)
    requires g.Valid() && T.Shaped(g) && i < g.n && Passable(g, T, g.Pos(k, i))
    ensures var st, l := State(T, Probing(k, v, i)), Raise(k, v, i);
            && Enabled(g, st, l) && Effect(T, l, T.Persisted()) == T.Persisted()
            && Apply(g, st, l) == State(T.Put(g.Pos(k, i), T.chunks[g.Pos(k, i)].IncOverflow()), Probing(k, v, i + 1))
  {}

  lemma RaiseStep(g: Geometry, T: Table, k: Key, v: Val, i: nat, exact: bool)
    requires StateInv(g, State(T, Probing(k, v, i)), exact) && i < g.n && Passable(g, T, g.Pos(k, i))
    ensures GoodStep(g, State(T, Probing(k, v, i)), Raise(k, v, i), exact)
  {
    RaiseGood(g, T, k, v, i, exact);
    RaiseApply(g, T, k, v, i);
  }

  lemma ReserveGood(g: Geometry, T: Table, k: Key, v: Val, i: nat, exact: bool)
    requires StateInv(g, State(T, Probing(k, v, i)), exact) && i < g.n
    ensures Good(g, Widen(T, g.Pos(k, i)), Reserved(k, v, i), exact, T.Persisted())
  {
    var c := g.Pos(k, i);
    ResizedSlots(g, T, c, T.chunks[c].size + 1);
    WidenSkew(T, c);
    RestingFrame(g, T, Widen(T, c), Probing(k, v, i), exact);
    IsGood(g, Widen(T, c), Reserved(k, v, i), exact, Skew(c, 1, 0), T.Persisted());
  }

  lemma ReserveStep(g: Geometry, T: Table, k: Key, v: Val, i: nat, exact: bool)
    requires StateInv(g, State(T, Probing(k, v, i)), exact) && i < g.n && T.SizeOf(g.Pos(k, i)) < LANES
    ensures GoodStep(g, State(T, Probing(k, v, i)), Reserve(k, v, i), exact)
  {
    ReserveGood(g, T, k, v, i, exact);
    assert Apply(g, State(T, Probing(k, v, i)), Reserve(k, v, i)) == State(Widen(T, g.Pos(k, i)), Reserved(k, v, i));
  }

  lemma PlaceGood(g: Geometry, T: Table, k: Key, v: Val, i: nat, s: Slot, exact: bool)
    requires StateInv(g, State(T, Reserved(k, v, i)), exact) && i < g.n && s.chunk == g.Pos(k, i)
    requires s.lane < LANES && T.Tag(s) == 0
    ensures Good(g, SetItem(g, T, s, k, v), Placed(s), exact, T.Persisted()[k := v])
  {
    PlaceAct(g, T, k, v, i, s.lane, exact);
    PlaceSlots(g, T, s, k, v);
    SetItemSkew(g, T, s, k, v, Skew(s.chunk, 1, 0));
    IsGood(g, SetItem(g, T, s, k, v), Placed(s), exact, Skew(s.chunk, 1, 0), T.Persisted()[k := v]);
  }

  lemma PlaceStep(g: Geometry, T: Table, k: Key, v: Val, i: nat, lane: nat, exact: bool)
    requires StateInv(g, State(T, Reserved(k, v, i)), exact) && Foremost(T, Slot(g.Pos(k, i), lane))
    ensures GoodStep(g, State(T, Reserved(k, v, i)), Place(k, v, i, lane), exact)
  {
    var s := Slot(g.Pos(k, i), lane);
    PlaceGood(g, T, k, v, i, s, exact);
    assert Apply(g, State(T, Reserved(k, v, i)), Place(k, v, i, lane)) == State(SetItem(g, T, s, k, v), Placed(s));
  }

  lemma PublishGood(g: Geometry, T: Table, s: Slot, exact: bool)
    requires StateInv(g, State(T, Placed(s)), exact)
    ensures Good(g, SetTag(g, T, s, g.Sign(T.KeyAt(s))), Tagged(s), exact, T.Persisted())
  {
    PublishAct(g, T, s, exact);
    TaggingSlots(g, T, s);
    TaggingSkew(g, T, s, g.Sign(T.KeyAt(s)));
    IsGood(g, SetTag(g, T, s, g.Sign(T.KeyAt(s))), Tagged(s), exact, SkewOf(g, Tagged(s)), T.Persisted());
  }

  lemma PublishStep(g: Geometry, T: Table, s: Slot, exact: bool)
    requires StateInv(g, State(T, Placed(s)), exact)
    ensures GoodStep(g, State(T, Placed(s)), Publish(s), exact)
  {
    PublishGood(g, T, s, exact);
    assert Apply(g, State(T, Placed(s)), Publish(s)) == State(SetTag(g, T, s, g.Sign(T.KeyAt(s))), Tagged(s));
  }

  /** Bringing the size of the table up to date ends an operation. */
  lemma SizeGood(g: Geometry, T: Table, c: nat, size: nat, a: Act, exact: bool)
    requires T.Firm(g) && Skewed(T, Skew(c, 0, T.size - size)) && Resting(g, T, a, exact)
    ensures Good(g, T.(size := size), a, exact, T.Persisted())
  {
    RecountedTableSlots(g, T, size);
    CountSkew(T, c, size);
    RestingFrame(g, T, T.(size := size), a, exact);
  }

  lemma CountStep(g: Geometry, T: Table, s: Slot, exact: bool)
    requires StateInv(g, State(T, Tagged(s)), exact)
    ensures GoodStep(g, State(T, Tagged(s)), Count(s), exact)
  {
    SizeGood(g, T, s.chunk, T.size + 1, Idle, exact);
    assert Apply(g, State(T, Tagged(s)), Count(s)) == State(T.(size := T.size + 1), Idle);
  }

  lemma BeginDeleteGood(g: Geometry, T: Table, s: Slot, a: Act, exact: bool)
    requires StateInv(g, State(T, a), exact) && (a.Idle? || a.Probing?) && T.Tag(s) != 0
    ensures Good(g, T, Lowering(s, 0, a), exact, T.Persisted())
  {
    BeginDeleteAct(g, T, s, a, exact);
    IsGood(g, T, Lowering(s, 0, a), exact, SkewOf(g, a), T.Persisted());
  }

  lemma BeginDeleteStep(g: Geometry, T: Table, s: Slot, a: Act, exact: bool)
    requires StateInv(g, State(T, a), exact) && (a.Idle? || a.Probing?) && T.Tag(s) != 0
    ensures GoodStep(g, State(T, a), BeginDelete(s, a), exact)
  {
    BeginDeleteGood(g, T, s, a, exact);
    assert Apply(g, State(T, a), BeginDelete(s, a)) == State(T, Lowering(s, 0, a));
  }

  lemma LowerGood(g: Geometry, T: Table, s: Slot, i: nat, a: Act, exact: bool)
    requires StateInv(g, State(T, Lowering(s, i, a)), exact) && i < g.Rank(T.KeyAt(s), s.chunk)
    ensures var c := g.Pos(T.KeyAt(s), i);
            Good(g, T.Put(c, T.chunks[c].DecOverflow()), Lowering(s, i + 1, a), exact, T.Persisted())
  {
    var c := g.Pos(T.KeyAt(s), i);
    var T' := T.Put(c, T.chunks[c].DecOverflow());
    LowerAct(g, T, s, i, a, exact);
    RecountedSlots(g, T, T', c);
    IsGood(g, T', Lowering(s, i + 1, a), exact, SkewOf(g, Lowering(s, i, a)), T.Persisted());
  }

  lemma LowerStep(g: Geometry, T: Table, s: Slot, i: nat, a: Act, exact: bool)
    requires StateInv(g, State(T, Lowering(s, i, a)), exact) && i < g.Rank(T.KeyAt(s), s.chunk)
    ensures GoodStep(g, State(T, Lowering(s, i, a)), Lower(s, i, a), exact)
  {
    var c := g.Pos(T.KeyAt(s), i);
    LowerGood(g, T, s, i, a, exact);
    assert Apply(g, State(T, Lowering(s, i, a)), Lower(s, i, a))
           == State(T.Put(c, T.chunks[c].DecOverflow()), Lowering(s, i + 1, a));
  }

  lemma UntagGood(g: Geometry, T: Table, s: Slot, i: nat, a: Act, exact: bool)
    requires StateInv(g, State(T, Lowering(s, i, a)), exact) && i == g.Rank(T.KeyAt(s), s.chunk) && Has(g, s)
    ensures Good(g, SetTag(g, T, s, 0), Untagged(s, a), exact, T.Persisted())
  {
    UntagAct(g, T, s, i, a, exact);
    UntaggingSlots(g, T, s);
    UntaggingSkew(g, T, s);
    IsGood(g, SetTag(g, T, s, 0), Untagged(s, a), exact, SkewOf(g, Untagged(s, a)), T.Persisted());
  }

  lemma UntagStep(g: Geometry, T: Table, s: Slot, i: nat, a: Act, exact: bool)
    requires StateInv(g, State(T, Lowering(s, i, a)), exact) && i == g.Rank(T.KeyAt(s), s.chunk) && Has(g, s)
    ensures GoodStep(g, State(T, Lowering(s, i, a)), Untag(s, i, a), exact)
  {
    UntagGood(g, T, s, i, a, exact);
    assert Apply(g, State(T, Lowering(s, i, a)), Untag(s, i, a)) == State(SetTag(g, T, s, 0), Untagged(s, a));
  }

  lemma EraseGood(g: Geometry, T: Table, s: Slot, a: Act, exact: bool)
    requires T.Firm(g) && Skewed(T, Skew(s.chunk, 1, 1)) && ActInv(g, T, Untagged(s, a), exact)
    ensures Good(g, SetItem(g, T, s, NO_KEY, T.ValAt(s)), Erased(s, a), exact, T.Persisted() - {T.KeyAt(s)})
  {
    EraseAct(g, T, s, a, exact);
    EraseFirm(g, T, s);
    SetItemSkew(g, T, s, NO_KEY, T.ValAt(s), Skew(s.chunk, 1, 1));
    IsGood(g, SetItem(g, T, s, NO_KEY, T.ValAt(s)), Erased(s, a), exact, Skew(s.chunk, 1, 1),
           T.Persisted() - {T.KeyAt(s)});
  }

  lemma EraseStep(g: Geometry, T: Table, s: Slot, a: Act, exact: bool)
    requires StateInv(g, State(T, Untagged(s, a)), exact)
    ensures GoodStep(g, State(T, Untagged(s, a)), Erase(s, a), exact)
  {
    EraseGood(g, T, s, a, exact);
    assert Apply(g, State(T, Untagged(s, a)), Erase(s, a)) == State(SetItem(g, T, s, NO_KEY, T.ValAt(s)), Erased(s, a));
  }

  lemma ShrinkGood(g: Geometry, T: Table, s: Slot, a: Act, exact: bool)
    requires StateInv(g, State(T, Erased(s, a)), exact)
    ensures Good(g, Narrow(T, s.chunk), Shrunk(s, a), exact, T.Persisted())
  {
    var c := s.chunk;
    ResizedSlots(g, T, c, Down(T.chunks[c].size));
    NarrowSkew(T, c);
    RestingFrame(g, T, Narrow(T, c), a, exact);
    IsGood(g, Narrow(T, c), Shrunk(s, a), exact, SkewOf(g, Shrunk(s, a)), T.Persisted());
  }

  lemma ShrinkStep(g: Geometry, T: Table, s: Slot, a: Act, exact: bool)
    requires StateInv(g, State(T, Erased(s, a)), exact)
    ensures GoodStep(g, State(T, Erased(s, a)), Shrink(s, a), exact)
  {
    ShrinkGood(g, T, s, a, exact);
    assert Apply(g, State(T, Erased(s, a)), Shrink(s, a)) == State(Narrow(T, s.chunk), Shrunk(s, a));
  }

  lemma UncountStep(g: Geometry, T: Table, s: Slot, a: Act, exact: bool)
    requires StateInv(g, State(T, Shrunk(s, a)), exact)
    ensures GoodStep(g, State(T, Shrunk(s, a)), Uncount(s, a), exact)
  {
    SizeGood(g, T, s.chunk, Down(T.size), a, exact);
    assert Apply(g, State(T, Shrunk(s, a)), Uncount(s, a)) == State(T.(size := Down(T.size)), a);
  }

  lemma OverwriteGood(g: Geometry, T: Table, s: Slot, v: Val, exact: bool)
    requires StateInv(g, State(T, Idle), exact) && Has(g, s) && T.Tag(s) != 0
    ensures Good(g, SetItem(g, T, s, T.KeyAt(s), v), Idle, exact, T.Persisted()[T.KeyAt(s) := v])
  {
    var T' := SetItem(g, T, s, T.KeyAt(s), v);
    OverwriteAct(g, T, s, v, exact);
    OverwriteSlots(g, T, s, v);
    SetItemSkew(g, T, s, T.KeyAt(s), v, Skew(0, 0, 0));
    IsGood(g, T', Idle, exact, Skew(0, 0, 0), T.Persisted()[T.KeyAt(s) := v]);
  }

  lemma OverwriteStep(g: Geometry, T: Table, s: Slot, v: Val, exact: bool)
    requires StateInv(g, State(T, Idle), exact) && Has(g, s) && T.Tag(s) != 0
    ensures GoodStep(g, State(T, Idle), Overwrite(s, v), exact)
  {
    OverwriteGood(g, T, s, v, exact);
    assert Apply(g, State(T, Idle), Overwrite(s, v)) == State(SetItem(g, T, s, T.KeyAt(s), v), Idle);
  }

  predicate Inserts(l: Label) {
    l.Begin? || l.Raise? || l.Reserve? || l.Place? || l.Publish? || l.Count?
  }

  lemma InsertStep(g: Geometry, st: State, l: Label, exact: bool)
    requires CanStep(g, st, l, exact) && Inserts(l)
    ensures GoodStep(g, st, l, exact)
  {
    assert st == State(st.T, st.act);
    match l
    case Begin(k, v) => BeginStep(g, st.T, k, v, exact);
    case Raise(k, v, i) => RaiseStep(g, st.T, k, v, i, exact);
    case Reserve(k, v, i) => ReserveStep(g, st.T, k, v, i, exact);
    case Place(k, v, i, lane) => PlaceStep(g, st.T, k, v, i, lane, exact);
    case Publish(s) => PublishStep(g, st.T, s, exact);
    case Count(s) => CountStep(g, st.T, s, exact);
  }

  lemma DeleteStep(g: Geometry, st: State, l: Label, exact: bool)
    requires CanStep(g, st, l, exact) && !Inserts(l)
    ensures GoodStep(g, st, l, exact)
  {
    assert st == State(st.T, st.act);
    match l
    case BeginDelete(s, a) => BeginDeleteStep(g, st.T, s, a, exact);
    case Lower(s, i, a) => LowerStep(g, st.T, s, i, a, exact);
    case Untag(s, i, a) => UntagStep(g, st.T, s, i, a, exact);
    case Erase(s, a) => EraseStep(g, st.T, s, a, exact);
    case Shrink(s, a) => ShrinkStep(g, st.T, s, a, exact);
    case Uncount(s, a) => UncountStep(g, st.T, s, a, exact);
    case Overwrite(s, v) => OverwriteStep(g, st.T, s, v, exact);
  }

  /** Every step of the writer keeps the invariant and changes the persisted map as stated. */
  lemma EveryStep(g: Geometry, st: State, l: Label, exact: bool)
    requires CanStep(g, st, l, exact)
    ensures GoodStep(g, st, l, exact)
  {
    if Inserts(l) {
      InsertStep(g, st, l, exact);
    } else {
      DeleteStep(g, st, l, exact);
    }
  }

  // ---- Runs ----

  /** A history of operations: each state follows from the one before by its label. */
  ghost predicate IsRun(g: Geometry, states: seq<State>, labels: seq<Label>) {
    && g.Valid() && |states| == |labels| + 1
    && forall t: nat {:trigger labels[t]} :: t < |labels| ==> Moves(g, states[t], labels[t], states[t + 1])
  }

  ghost predicate Follows(g: Geometry, st: State, l: Label, st': State)
    requires g.Valid()
  {
    st.T.Shaped(g) && Enabled(g, st, l) && st' == Apply(g, st, l)
  }

  ghost predicate Moves(g: Geometry, st: State, l: Label, st': State)
    requires g.Valid()
  {
    forall n: nat {:trigger MoveSeal(n)} :: MoveSeal(n) ==> Follows(g, st, l, st')
  }

  /** A run that started well and has come to state `st`. */
  ghost predicate History(g: Geometry, states: seq<State>, labels: seq<Label>, exact: bool, st: State) {
    && |states| == |labels| + 1 && states[|labels|] == st
    && forall n: nat {:trigger HistorySeal(n)} :: HistorySeal(n) ==>
      IsRun(g, states, labels) && StateInv(g, states[0], exact)
  }

  lemma HistoryInv(g: Geometry, states: seq<State>, labels: seq<Label>, exact: bool, st: State)
    requires History(g, states, labels, exact, st)
    ensures StateInv(g, st, exact) && IsRun(g, states, labels) && StateInv(g, states[0], exact)
            && states[|labels|] == st
  {
    assert HistorySeal(0);
    RunInv(g, states, labels, exact, |labels|);
  }

  /** Every state that the writer has been through satisfies the invariant. */
  lemma HistoryAt(g: Geometry, states: seq<State>, labels: seq<Label>, exact: bool, st: State, t: nat)
    requires History(g, states, labels, exact, st) && t < |states|
    ensures StateInv(g, states[t], exact)
  {
    HistoryInv(g, states, labels, exact, st);
    RunInv(g, states, labels, exact, t);
  }

  lemma HistoryStarts(g: Geometry, st: State, exact: bool)
    requires StateInv(g, st, exact)
    ensures History(g, [st], [], exact, st)
  {}

  lemma RunGrows(g: Geometry, states: seq<State>, labels: seq<Label>, l: Label, st': State)
    requires IsRun(g, states, labels) && Moves(g, states[|labels|], l, st')
    ensures IsRun(g, states + [st'], labels + [l])
  {
    var states', labels' := states + [st'], labels + [l];
    forall t: nat | t < |labels'| ensures Moves(g, states'[t], labels'[t], states'[t + 1]) {
      if t < |labels| { assert Moves(g, states[t], labels[t], states[t + 1]); }
    }
  }

  lemma MovesInv(g: Geometry, st: State, l: Label, st': State, exact: bool)
    requires StateInv(g, st, exact) && Moves(g, st, l, st')
    ensures StateInv(g, st', exact) && st'.T.Persisted() == Effect(st.T, l, st.T.Persisted())
  {
    assert MoveSeal(0);
    EveryStep(g, st, l, exact);
  }

  lemma HistoryGrows(g: Geometry, states: seq<State>, labels: seq<Label>, exact: bool, st: State, l: Label)
    requires g.Valid() && History(g, states, labels, exact, st) && st.T.Shaped(g) && Enabled(g, st, l)
    ensures var st' := Apply(g, st, l);
            && st'.T.Shaped(g) && History(g, states + [st'], labels + [l], exact, st')
            && st'.T.Persisted() == Effect(st.T, l, st.T.Persisted())
  {
    HistoryInv(g, states, labels, exact, st);
    EveryStep(g, st, l, exact);
    RunGrows(g, states, labels, l, Apply(g, st, l));
  }

  lemma {:induction false} Upwards(ok: seq<bool>, t: nat)
    requires t < |ok| && ok[0] && forall u: nat :: u + 1 < |ok| && ok[u] ==> ok[u + 1]
    ensures ok[t]
  {
    if t > 0 {
      Upwards(ok, t - 1);
      assert ok[t - 1 + 1];
    }
  }

  /** Every state of a run satisfies the invariant. */
  lemma RunInv(g: Geometry, states: seq<State>, labels: seq<Label>, exact: bool, t: nat)
    requires IsRun(g, states, labels) && StateInv(g, states[0], exact) && t < |states|
    ensures StateInv(g, states[t], exact)
  {
    var ok := seq(|states|, u requires 0 <= u < |states| => StateInv(g, states[u], exact));
    forall u: nat | u + 1 < |ok| && ok[u] ensures ok[u + 1] {
      assert Moves(g, states[u], labels[u], states[u + 1]);
      MovesInv(g, states[u], labels[u], states[u + 1], exact);
    }
    Upwards(ok, t);
  }

  /** The labels that change what is persisted. */
  predicate Effectful(l: Label) {
    l.Place? || l.Erase? || l.Overwrite?
  }

  lemma PersistedStep(g: Geometry, states: seq<State>, labels: seq<Label>, exact: bool, t: nat)
    requires IsRun(g, states, labels) && StateInv(g, states[0], exact) && t < |labels|
    ensures states[t + 1].T.Persisted() == Effect(states[t].T, labels[t], states[t].T.Persisted())
    ensures !Effectful(labels[t]) ==> states[t + 1].T.Persisted() == states[t].T.Persisted()
  {
    RunInv(g, states, labels, exact, t);
    assert Moves(g, states[t], labels[t], states[t + 1]);
    MovesInv(g, states[t], labels[t], states[t + 1], exact);
  }

  lemma {:induction false} StaysPut(ms: seq<map<Key, Val>>, a: nat, b: nat)
    requires a <= b < |ms| && forall t: nat :: a <= t < b ==> ms[t + 1] == ms[t]
    ensures ms[b] == ms[a]
    decreases b - a
  {
    if a < b {
      StaysPut(ms, a, b - 1);
      assert ms[b - 1 + 1] == ms[b - 1];
    }
  }

  /** Between two moments without an effectful step the persisted map does not change. */
  lemma PersistedStays(g: Geometry, states: seq<State>, labels: seq<Label>, exact: bool, a: nat, b: nat)
    requires IsRun(g, states, labels) && StateInv(g, states[0], exact) && a <= b < |states|
    requires forall t :: a <= t < b ==> !Effectful(labels[t])
    ensures states[b].T.Persisted() == states[a].T.Persisted()
  {
    var ms := seq(|states|, t requires 0 <= t < |states| => states[t].T.Persisted());
    forall t: nat | a <= t < b ensures ms[t + 1] == ms[t] {
      PersistedStep(g, states, labels, exact, t);
    }
    StaysPut(ms, a, b);
  }

  /** An operation with one effectful step, cut anywhere, leaves the map before it or the map after it. */
  lemma CutIsAtomic(g: Geometry, states: seq<State>, labels: seq<Label>, exact: bool, a: nat, e: nat, b: nat, t: nat)
    requires IsRun(g, states, labels) && StateInv(g, states[0], exact) && a <= e < b < |states| && a <= t <= b
    requires forall u :: a <= u < b && u != e ==> !Effectful(labels[u])
    ensures states[t].T.Persisted() == if t <= e then states[a].T.Persisted() else states[b].T.Persisted()
  {
    if t <= e {
      PersistedStays(g, states, labels, exact, a, t);
    } else {
      PersistedStays(g, states, labels, exact, t, b);
    }
  }
}
