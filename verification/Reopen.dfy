/**
  Reopening a table after a crash. The table is first checked; only if it passes is it
  reloaded, otherwise it is wiped. The check reads the size fields and looks up every
  key in use, so it does not pass in the middle of every operation.
 */
module Reopen {
  import opened Options
  import opened Probe
  import opened Table
  import opened Writer
  import opened Recovery
  import opened Sizing
  import opened PetHash
  import opened Audit

  /** What is left of a table when it is opened again. */
  ghost function Reopened(g: Geometry, T: Table, chunkBytes: nat, bytes: nat): Table
    requires g.Valid() && T.Shaped(g)
  {
    if Passes(g, T, chunkBytes, bytes) then Reload(g, T) else Wiped(g)
  }

  /**
    The moments at which the check passes: between operations, while an Insert has only
    raised counters, and while a Delete has lowered counters without shutting off its
    own key. In between the size fields are ahead of the tags or behind them.
   */
  ghost predicate Survives(g: Geometry, st: State)
    requires g.Valid()
  {
    match st.act
    case Idle => true
    case Probing(_, _, _) => true
    case Lowering(s, _, _) => OpenPath(g, st.T, s)
    case _ => false
  }

  lemma SizesPass(g: Geometry, T: Table, k: Skew)
    requires T.Shaped(g) && Skewed(T, k) && k.chunk < g.n
    ensures SumSizes(T, g.n) == |T.Used()| == T.size <==> k.extra == 0 && k.total == 0
    ensures |T.Used()| <= g.n * LANES
  {
    SizesAddUp(g, T, k, g.n);
    assert TagsBelow(T, g.n, 0) == T.Used();
    UsedBound(g, T);
  }

  /** All keys but the one being deleted are found at every moment. */
  lemma OthersAreFound(g: Geometry, st: State, exact: bool, s: Slot)
    requires StateInv(g, st, exact) && s in Counted(st.T, st.act)
    ensures Lookup(g, st.T, st.T.KeyAt(s), 0).Some?
  {
    var T, k := st.T, st.T.KeyAt(s);
    ActCounts(g, T, st.act, exact);
    UsedDistinct(g, st, exact);
    forall j: nat | j < g.Rank(k, s.chunk) ensures T.Overflow(g.Pos(k, j)) > 0 {
      g.RankOfPos(k, j);
      PassedIsNonzero(g, T, Counted(T, st.act), Pending(g, T, st.act), exact, s, g.Pos(k, j));
    }
    FoundExactly(g, T, s);
  }

  lemma UsedDistinct(g: Geometry, st: State, exact: bool)
    requires StateInv(g, st, exact)
    ensures st.T.Used() <= st.T.Occupied() && st.T.Distinct(st.T.Used())
  {}

  lemma AllAreFound(g: Geometry, st: State, exact: bool)
    requires StateInv(g, st, exact)
    ensures (forall s :: s in st.T.Used() ==> Lookup(g, st.T, st.T.KeyAt(s), 0).Some?)
            <==> (st.act.Lowering? ==> OpenPath(g, st.T, st.act.slot))
  {
    var T := st.T;
    UsedDistinct(g, st, exact);
    forall s | s in Counted(T, st.act) ensures Lookup(g, T, T.KeyAt(s), 0).Some? { OthersAreFound(g, st, exact, s); }
    if st.act.Lowering? {
      assert st.act.slot in T.Used();
      FoundExactly(g, T, st.act.slot);
    }
  }

  lemma SkewInRange(g: Geometry, st: State, exact: bool)
    requires StateInv(g, st, exact)
    ensures g.n > 0 && SkewOf(g, st.act).chunk < g.n
  {}

  /** The check passes exactly at these moments. */
  lemma PassesExactly(g: Geometry, st: State, exact: bool, chunkBytes: nat)
    requires StateInv(g, st, exact)
    ensures Passes(g, st.T, chunkBytes, HEADER_BYTES + g.n * chunkBytes) <==> Survives(g, st)
  {
    SkewInRange(g, st, exact);
    SizesPass(g, st.T, SkewOf(g, st.act));
    AllAreFound(g, st, exact);
  }

  lemma WipedIsEmpty(g: Geometry)
    requires g.Valid()
    ensures Wiped(g).Inv(g, true) && Wiped(g).Contents() == map[]
  {
    EmptyTable(g, Wiped(g));
  }

  /** After a crash at any moment the table is intact again; it holds what was persisted, or nothing. */
  lemma ReopenAt(g: Geometry, st: State, exact: bool, chunkBytes: nat)
    requires StateInv(g, st, exact)
    ensures var R := Reopened(g, st.T, chunkBytes, HEADER_BYTES + g.n * chunkBytes);
            R.Inv(g, true) && R.Contents() == if Survives(g, st) then st.T.Persisted() else map[]
  {
    PassesExactly(g, st, exact, chunkBytes);
    UsedDistinct(g, st, exact);
    ReloadRestores(g, st.T);
    WipedIsEmpty(g);
  }

  /**
    Reopening keeps the persisted map exactly at the moments that survive the check, or if
    there is nothing to keep.
   */
  lemma ReopenKeeps(g: Geometry, states: seq<State>, labels: seq<Label>, exact: bool, t: nat, chunkBytes: nat)
    requires IsRun(g, states, labels) && StateInv(g, states[0], exact) && t < |states|
    ensures states[t].T.Shaped(g)
    ensures Reopened(g, states[t].T, chunkBytes, HEADER_BYTES + g.n * chunkBytes).Contents() == states[t].T.Persisted()
            <==> Survives(g, states[t]) || states[t].T.Persisted() == map[]
  {
    RunInv(g, states, labels, exact, t);
    ReopenAt(g, states[t], exact, chunkBytes);
  }

  /**
    An operation that runs from rest to rest with a single effectful store, cut by a
    crash at any point and then reopened, leaves the map before it, the map after it,
    or nothing at all; the last exactly where the check does not pass.
   */
  lemma ReopenIsAtomic(g: Geometry, states: seq<State>, labels: seq<Label>, exact: bool, a: nat, e: nat, b: nat, t: nat,
                       chunkBytes: nat)
    requires IsRun(g, states, labels) && StateInv(g, states[0], exact) && a <= e < b < |states| && a <= t <= b
    requires states[a].act.Idle? && states[b].act.Idle?
    requires forall u :: a <= u < b && u != e ==> !Effectful(labels[u])
    ensures states[t].T.Shaped(g)
    ensures var m := Reopened(g, states[t].T, chunkBytes, HEADER_BYTES + g.n * chunkBytes).Contents();
            m == if !Survives(g, states[t]) then map[] else if t <= e then states[a].T.Contents()
              else states[b].T.Contents()
  {
    RunInv(g, states, labels, exact, t);
    ReopenAt(g, states[t], exact, chunkBytes);
    CrashIsAtomic(g, states, labels, exact, a, e, b, t);
    CrashRecovers(g, states, labels, exact, t);
  }

  /**
    Every Insert goes through a moment at which a crash costs the whole table: the size of the
    chunk is stored, that of the table is not.
   */
  lemma InsertHasGap(g: Geometry, st: State, exact: bool, k: Key, v: Val, i: nat, chunkBytes: nat)
    requires StateInv(g, st, exact) && st.act == Probing(k, v, i) && i < g.n && st.T.SizeOf(g.Pos(k, i)) < LANES
    ensures Enabled(g, st, Reserve(k, v, i))
    ensures var T := Apply(g, st, Reserve(k, v, i)).T;
            T.Shaped(g) && T.Persisted() == st.T.Persisted()
              && Reopened(g, T, chunkBytes, HEADER_BYTES + g.n * chunkBytes).Contents() == map[]
  {
    EveryStep(g, st, Reserve(k, v, i), exact);
    ReopenAt(g, Apply(g, st, Reserve(k, v, i)), exact, chunkBytes);
  }
}
