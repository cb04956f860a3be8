/**
  The states that the writer can reach from an empty table. Its steps are guarded as the
  code guards them, so a state is only reached by stores that Insert and Delete make.
 */
module Reach {
  import opened Options
  import opened Probe
  import opened Table
  import opened Writer
  import opened Recovery
  import opened PetHash

  ghost predicate Reached(g: Geometry, st: State) {
    g.Valid() && exists states, labels :: History(g, states, labels, true, st) && states[0] == State(Wiped(g), Idle)
  }

  lemma EmptyIsReached(g: Geometry)
    requires g.Valid()
    ensures Reached(g, State(Wiped(g), Idle))
  {
    EmptyTable(g, Wiped(g));
    HistoryStarts(g, State(Wiped(g), Idle), true);
  }

  /** One store more. */
  lemma ReachStep(g: Geometry, st: State, l: Label, st': State)
    requires Reached(g, st) && st.T.Shaped(g) && Enabled(g, st, l) && st' == Apply(g, st, l)
    ensures Reached(g, st') && st'.T.Shaped(g)
  {
    var states, labels :| History(g, states, labels, true, st) && states[0] == State(Wiped(g), Idle);
    HistoryGrows(g, states, labels, true, st, l);
    assert (states + [st'])[0] == states[0];
  }

  lemma ReachedInv(g: Geometry, st: State)
    requires Reached(g, st)
    ensures StateInv(g, st, true)
  {
    var states, labels :| History(g, states, labels, true, st) && states[0] == State(Wiped(g), Idle);
    HistoryInv(g, states, labels, true, st);
  }

  /** The last stores of an Insert. */
  lemma Settles(g: Geometry, T: Table, k: Key, i: nat, lane: nat)
    requires Reached(g, State(T, Probing(k, 0, i))) && T.Shaped(g) && i < g.n
    requires T.SizeOf(g.Pos(k, i)) < LANES && Foremost(T, Slot(g.Pos(k, i), lane))
    ensures Reached(g, State(InsertedAt(g, T, Slot(g.Pos(k, i), lane), k, 0), Idle))
  {
    var s := Slot(g.Pos(k, i), lane);
    var T1 := Widen(T, s.chunk);
    ReachStep(g, State(T, Probing(k, 0, i)), Reserve(k, 0, i), State(T1, Reserved(k, 0, i)));
    assert Foremost(T1, s);
    var T2 := SetItem(g, T1, s, k, 0);
    ReachStep(g, State(T1, Reserved(k, 0, i)), Place(k, 0, i, lane), State(T2, Placed(s)));
    SetItemAt(g, T1, s, k, 0);
    var T3 := SetTag(g, T2, s, g.Sign(k));
    ReachStep(g, State(T2, Placed(s)), Publish(s), State(T3, Tagged(s)));
    ReachStep(g, State(T3, Tagged(s)), Count(s), State(T3.(size := T3.size + 1), Idle));
  }

  /** An Insert into the home chunk. */
  lemma InsertsHome(g: Geometry, T: Table, k: Key, lane: nat)
    requires Reached(g, State(T, Idle)) && T.Shaped(g) && k != NO_KEY && k !in T.Keys(T.Used())
    requires T.SizeOf(g.Home(k)) < LANES && Foremost(T, Slot(g.Home(k), lane))
    ensures Reached(g, State(InsertedAt(g, T, Slot(g.Home(k), lane), k, 0), Idle))
  {
    ReachStep(g, State(T, Idle), Begin(k, 0), State(T, Probing(k, 0, 0)));
    assert g.Pos(k, 0) == g.Home(k);
    Settles(g, T, k, 0, lane);
  }

  /** An Insert that goes past a full home chunk to the next one. */
  lemma InsertsPast(g: Geometry, T: Table, k: Key, lane: nat)
    requires Reached(g, State(T, Idle)) && T.Shaped(g) && k != NO_KEY && k !in T.Keys(T.Used()) && g.n > 1
    requires Passable(g, T, g.Home(k)) && T.SizeOf(g.Pos(k, 1)) < LANES && Foremost(T, Slot(g.Pos(k, 1), lane))
    ensures var T1 := T.Put(g.Home(k), T.chunks[g.Home(k)].IncOverflow());
            T1.Shaped(g) && Reached(g, State(InsertedAt(g, T1, Slot(g.Pos(k, 1), lane), k, 0), Idle))
  {
    var c := g.Home(k);
    var T1 := T.Put(c, T.chunks[c].IncOverflow());
    assert g.Pos(k, 0) == c;
    ReachStep(g, State(T, Idle), Begin(k, 0), State(T, Probing(k, 0, 0)));
    ReachStep(g, State(T, Probing(k, 0, 0)), Raise(k, 0, 0), State(T1, Probing(k, 0, 1)));
    Settles(g, T1, k, 1, lane);
  }

  /** The table after the key in slot `s` was deleted from its home chunk. */
  function DeletedAt(g: Geometry, T: Table, s: Slot): Table
    requires T.Shaped(g) && Has(g, s)
  {
    var T1 := SetTag(g, T, s, 0);
    var T2 := SetItem(g, T1, s, NO_KEY, T1.ValAt(s));
    Narrow(T2, s.chunk).(size := Down(T.size))
  }

  lemma DeletesHome(g: Geometry, T: Table, s: Slot)
    requires Reached(g, State(T, Idle)) && T.Shaped(g) && Has(g, s) && T.Tag(s) != 0 && g.Home(T.KeyAt(s)) == s.chunk
    ensures Reached(g, State(DeletedAt(g, T, s), Idle))
  {
    var k := T.KeyAt(s);
    assert g.Pos(k, 0) == s.chunk;
    g.RankOfPos(k, 0);
    ReachStep(g, State(T, Idle), BeginDelete(s, Idle), State(T, Lowering(s, 0, Idle)));
    var T1 := SetTag(g, T, s, 0);
    ReachStep(g, State(T, Lowering(s, 0, Idle)), Untag(s, 0, Idle), State(T1, Untagged(s, Idle)));
    var T2 := SetItem(g, T1, s, NO_KEY, T1.ValAt(s));
    ReachStep(g, State(T1, Untagged(s, Idle)), Erase(s, Idle), State(T2, Erased(s, Idle)));
    var T3 := Narrow(T2, s.chunk);
    ReachStep(g, State(T2, Erased(s, Idle)), Shrink(s, Idle), State(T3, Shrunk(s, Idle)));
    ReachStep(g, State(T3, Shrunk(s, Idle)), Uncount(s, Idle), State(T3.(size := Down(T3.size)), Idle));
  }
}
