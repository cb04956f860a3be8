/**
  A lock-free lookup beside a running writer. The lookup reads the tags of a chunk,
  then the key of each matching lane, then the value, then the counter; the writer
  may take any number of steps between two of these reads.
 */
module Reader {
  import opened Seals
  import opened Probe
  import opened Table
  import opened Writer

  datatype Reader =
    | Scan(i: nat)                       // about to read the tags of the i-th chunk
    | Check(i: nat, lanes: set<nat>)     // lanes of that chunk whose tag matched
    | Read(slot: Slot)                   // the key matched, about to read the value
    | Stop(i: nat)                       // no match, about to read the counter
    | Found(v: Val)
    | Absent

  ghost function Least(s: set<nat>): (r: nat)
    requires s != {}
    ensures r in s && forall x :: x in s ==> r <= x
  {
    var m :| m in s;
    var below := set x | x in s && x < m;
    if below == {} then
      assert forall x :: x in s && x < m ==> x in below;
      m
    else
      assert below < s by { assert m in s && m !in below; }
      var r := Least(below);
      assert forall x :: x in s && x < m ==> x in below;
      r
  }

  /** One read by a lookup for key `k`, on the table as it is at that moment. */
  ghost function Advance(g: Geometry, T: Table, k: Key, r: Reader): Reader
    requires g.Valid() && T.Shaped(g)
  {
    match r
    case Scan(i) =>
      if i >= g.n then Reader.Absent
      else Check(i, set l: nat | l < LANES && T.Tag(Slot(g.Pos(k, i), l)) == g.Sign(k))
    case Check(i, lanes) =>
      if lanes == {} then Stop(i) else
        var s := Slot(g.Pos(k, i), Least(lanes));
        if T.KeyAt(s) == k then Read(s) else Check(i, lanes - {Least(lanes)})
    case Read(s) => Reader.Found(T.ValAt(s))
    case Stop(i) => if T.Overflow(g.Pos(k, i)) == 0 then Reader.Absent else Scan(i + 1)
    case _ => r
  }

  /** What is known of a lookup whose key is stored in slot `s` throughout. */
  ghost predicate OnTrack(g: Geometry, k: Key, s: Slot, r: Reader)
    requires g.Valid()
  {
    match r
    case Scan(i) => i <= g.Rank(k, s.chunk)
    case Check(i, lanes) => i <= g.Rank(k, s.chunk) && (i == g.Rank(k, s.chunk) ==> s.lane in lanes)
    case Read(u) => u == s
    case Stop(i) => i < g.Rank(k, s.chunk)
    case Found(_) => true
    case Absent => false
  }

  /** Key `k` is stored in slot `s` and is not being deleted. */
  ghost predicate Holds(st: State, k: Key, s: Slot) {
    st.T.Tag(s) != 0 && st.T.KeyAt(s) == k && !(st.act.Lowering? && st.act.slot == s)
  }

  /** The writer keeps a nonzero counter in every chunk that a held key passes. */
  lemma HeldPathIsOpen(g: Geometry, st: State, exact: bool, k: Key, s: Slot, c: nat)
    requires StateInv(g, st, exact) && Holds(st, k, s) && c < g.n && g.Rank(k, c) < g.Rank(k, s.chunk)
    ensures st.T.Overflow(c) > 0
  {
    ActCounts(g, st.T, st.act, exact);
    PassedIsNonzero(g, st.T, Counted(st.T, st.act), Pending(g, st.T, st.act), exact, s, c);
  }

  lemma AdvanceOnTrack(g: Geometry, st: State, exact: bool, k: Key, s: Slot, r: Reader)
    requires StateInv(g, st, exact) && Holds(st, k, s) && OnTrack(g, k, s, r)
    ensures OnTrack(g, k, s, Advance(g, st.T, k, r))
  {
    var T := st.T;
    g.PosOfRank(k, s.chunk);
    match r {
      case Scan(i) =>
      case Check(i, lanes) =>
        if lanes != {} {
          var u := Slot(g.Pos(k, i), Least(lanes));
          assert s in T.Occupied();
          if T.KeyAt(u) == k { assert u in T.Occupied(); }
        }
      case Stop(i) =>
        g.RankOfPos(k, i);
        HeldPathIsOpen(g, st, exact, k, s, g.Pos(k, i));
      case _ =>
    }
  }

  /** One read while the key is held: the lookup stays on track, and an answer is what it reads. */
  lemma AdvanceHeld(g: Geometry, st: State, exact: bool, k: Key, s: Slot, r: Reader, r': Reader)
    requires StateInv(g, st, exact) && Holds(st, k, s) && OnTrack(g, k, s, r) && r' == Advance(g, st.T, k, r)
    ensures OnTrack(g, k, s, r') && st.T.KeyAt(s) == k
    ensures r'.Found? ==> r == r' || (r.Read? && r'.v == st.T.ValAt(s))
  {
    AdvanceOnTrack(g, st, exact, k, s, r);
  }

  /** A step that changes a counter leaves every key where it is. */
  lemma CounterHolds(g: Geometry, st: State, l: Label, exact: bool, k: Key, s: Slot, c: nat)
    requires StateInv(g, st, exact) && Enabled(g, st, l) && Holds(st, k, s)
    requires (l.Raise? && c == g.Pos(l.k, l.i)) || (l.Lower? && c == g.Pos(st.T.KeyAt(l.slot), l.i))
    ensures Holds(Apply(g, st, l), k, s)
  {
    if l.Raise? {
      RaiseAct(g, st.T, l.k, l.v, l.i, exact);
    } else {
      LowerAct(g, st.T, l.slot, l.i, l.resume, exact);
    }
    RecountedSlots(g, st.T, Apply(g, st, l).T, c);
  }

  /** A step of the writer that does not start deleting `s` leaves its key there. */
  lemma StaysHeld(g: Geometry, st: State, l: Label, exact: bool, k: Key, s: Slot)
    requires StateInv(g, st, exact) && Enabled(g, st, l) && Holds(st, k, s) && !Deletes(l, s)
    ensures Holds(Apply(g, st, l), k, s)
  {
    var T := st.T;
    match l {
      case Raise(h, v, i) => CounterHolds(g, st, l, exact, k, s, g.Pos(h, i));
      case Lower(u, i, a) => CounterHolds(g, st, l, exact, k, s, g.Pos(T.KeyAt(u), i));
      case Place(h, v, i, lane) => SetItemSlots(g, T, Slot(g.Pos(h, i), lane), h, v);
      case Publish(u) => SetTagTags(g, T, u, g.Sign(T.KeyAt(u)));
      case Untag(u, i, a) => SetTagTags(g, T, u, 0);
      case Erase(u, a) => SetItemSlots(g, T, u, NO_KEY, T.ValAt(u));
      case Overwrite(u, v) => SetItemSlots(g, T, u, T.KeyAt(u), v);
      case _ =>
    }
  }

  /** A step that starts deleting the key of slot `s`. */
  predicate Deletes(l: Label, s: Slot) {
    l.BeginDelete? && l.slot == s
  }

  // ---- Whole runs ----

  /** Reader states `rs` of one lookup whose j-th read happens at moment `at[j]` of the run. */
  ghost predicate Reads(g: Geometry, states: seq<State>, k: Key, at: seq<nat>, rs: seq<Reader>, a: nat, b: nat)
    requires g.Valid()
  {
    && |rs| == |at| + 1 && rs[0] == Scan(0)
    && (forall j: nat :: j < |at| ==> a <= at[j] <= b < |states| && states[at[j]].T.Shaped(g))
    && (forall j: nat {:trigger at[j]} :: j < |at| ==> rs[j + 1] == Advance(g, states[at[j]].T, k, rs[j]))
  }

  lemma HeldStep(g: Geometry, st: State, l: Label, st': State, exact: bool, k: Key, s: Slot)
    requires StateInv(g, st, exact) && Moves(g, st, l, st') && Holds(st, k, s) && !Deletes(l, s)
    ensures Holds(st', k, s)
  {
    assert MoveSeal(0);
    StaysHeld(g, st, l, exact, k, s);
  }

  lemma {:induction false} HeldThroughout(g: Geometry, states: seq<State>, labels: seq<Label>, exact: bool, k: Key,
                                          s: Slot, a: nat, t: nat)
    requires IsRun(g, states, labels) && StateInv(g, states[0], exact) && a <= t < |states|
    requires Holds(states[a], k, s)
    requires forall u :: a <= u < t ==> !Deletes(labels[u], s)
    ensures StateInv(g, states[t], exact) && Holds(states[t], k, s)
    decreases t
  {
    RunInv(g, states, labels, exact, t);
    if a < t {
      HeldThroughout(g, states, labels, exact, k, s, a, t - 1);
      HeldStep(g, states[t - 1], labels[t - 1], states[t - 1 + 1], exact, k, s);
    }
  }

  /** One read of such a lookup. */
  lemma ReadHeld(g: Geometry, states: seq<State>, labels: seq<Label>, exact: bool, k: Key, s: Slot, at: seq<nat>,
                 rs: seq<Reader>, a: nat, b: nat, j: nat)
    requires IsRun(g, states, labels) && StateInv(g, states[0], exact) && a <= b < |states|
    requires Holds(states[a], k, s)
    requires forall u :: a <= u < b ==> !Deletes(labels[u], s)
    requires Reads(g, states, k, at, rs, a, b) && j < |at| && OnTrack(g, k, s, rs[j])
    ensures OnTrack(g, k, s, rs[j + 1])
    ensures rs[j + 1].Found? && rs[j] != rs[j + 1] ==>
              states[at[j]].T.KeyAt(s) == k && states[at[j]].T.ValAt(s) == rs[j + 1].v
  {
    HeldThroughout(g, states, labels, exact, k, s, a, at[j]);
    AdvanceHeld(g, states[at[j]], exact, k, s, rs[j], rs[j + 1]);
  }

  /**
    A lookup never misses a key that stays stored: whatever the writer does to other
    keys between its reads, it never answers that the key is absent.
   */
  lemma {:induction false} NeverMisses(g: Geometry, states: seq<State>, labels: seq<Label>, exact: bool, k: Key,
                                       s: Slot,
                                       at: seq<nat>, rs: seq<Reader>, a: nat, b: nat, j: nat)
    requires IsRun(g, states, labels) && StateInv(g, states[0], exact) && a <= b < |states|
    requires Holds(states[a], k, s)
    requires forall u :: a <= u < b ==> !Deletes(labels[u], s)
    requires Reads(g, states, k, at, rs, a, b) && j < |rs|
    ensures OnTrack(g, k, s, rs[j])
    ensures rs[j].Found? ==> exists t :: a <= t <= b && states[t].T.KeyAt(s) == k && states[t].T.ValAt(s) == rs[j].v
  {
    if j > 0 {
      NeverMisses(g, states, labels, exact, k, s, at, rs, a, b, j - 1);
      ReadHeld(g, states, labels, exact, k, s, at, rs, a, b, j - 1);
    }
  }

  /** How many more reads a lookup can make at most. */
  ghost function Left(g: Geometry, r: Reader): nat {
    match r
    case Scan(i) => if i <= g.n then 20 * (g.n - i) + 1 else 1
    case Check(i, lanes) => if i < g.n then 20 * (g.n - i - 1) + |lanes| + 4 else |lanes| + 4
    case Read(_) => 1
    case Stop(i) => if i < g.n then 20 * (g.n - i - 1) + 3 else 3
    case _ => 0
  }

  lemma FewBelow(S: set<nat>, n: nat)
    requires forall x :: x in S ==> x < n
    ensures |S| <= n
  {
    assert Range(n) == S + (Range(n) - S);
  }

  lemma MatchesAreFew(g: Geometry, T: Table, k: Key, c: nat)
    ensures |set l: nat | l < LANES && T.Tag(Slot(c, l)) == g.Sign(k)| <= LANES
  {
    var S := set l: nat | l < LANES && T.Tag(Slot(c, l)) == g.Sign(k);
    FewBelow(S, LANES);
  }

  lemma EveryReadCounts(g: Geometry, T: Table, k: Key, r: Reader)
    requires g.Valid() && T.Shaped(g) && Left(g, r) > 0
    ensures Left(g, Advance(g, T, k, r)) < Left(g, r)
  {
    match r {
      case Scan(i) => if i < g.n { MatchesAreFew(g, T, k, g.Pos(k, i)); }
      case _ =>
    }
  }

  lemma {:induction false} ReadsRunOut(g: Geometry, states: seq<State>, k: Key, at: seq<nat>, rs: seq<Reader>, a: nat,
                                       b: nat, j: nat)
    requires g.Valid() && Reads(g, states, k, at, rs, a, b) && j < |rs|
    ensures Left(g, rs[j]) == 0 || Left(g, rs[j]) + j <= Left(g, rs[0])
  {
    if j > 0 {
      ReadsRunOut(g, states, k, at, rs, a, b, j - 1);
      assert rs[j - 1 + 1] == Advance(g, states[at[j - 1]].T, k, rs[j - 1]);
      if Left(g, rs[j - 1]) > 0 { EveryReadCounts(g, states[at[j - 1]].T, k, rs[j - 1]); }
    }
  }

  /** After 20 reads per chunk and one more, a lookup for a key that stays stored has its value. */
  lemma AlwaysFinds(g: Geometry, states: seq<State>, labels: seq<Label>, exact: bool, k: Key, s: Slot,
                    at: seq<nat>, rs: seq<Reader>, a: nat, b: nat)
    requires IsRun(g, states, labels) && StateInv(g, states[0], exact) && a <= b < |states|
    requires Holds(states[a], k, s)
    requires forall u :: a <= u < b ==> !Deletes(labels[u], s)
    requires Reads(g, states, k, at, rs, a, b) && |at| > 20 * g.n
    ensures rs[|at|].Found?
    ensures exists t :: a <= t <= b && states[t].T.KeyAt(s) == k && states[t].T.ValAt(s) == rs[|at|].v
  {
    NeverMisses(g, states, labels, exact, k, s, at, rs, a, b, |at|);
    ReadsRunOut(g, states, k, at, rs, a, b, |at|);
  }

  // ---- Keys that are not there ----

  /** A lookup that has not come upon its key. */
  predicate EmptyHanded(r: Reader) {
    !r.Read? && !r.Found?
  }

  /** Nothing that is persisted leads a lookup to a key that is not. */
  lemma AdvanceEmptyHanded(g: Geometry, T: Table, k: Key, r: Reader)
    requires g.Valid() && T.Shaped(g) && k != NO_KEY && k !in T.Persisted() && EmptyHanded(r)
    ensures EmptyHanded(Advance(g, T, k, r))
  {
    assert forall s :: s in T.Occupied() ==> T.KeyAt(s) != k;
  }

  lemma {:induction false} StaysEmptyHanded(g: Geometry, states: seq<State>, k: Key, at: seq<nat>, rs: seq<Reader>,
                                            a: nat, b: nat, j: nat)
    requires g.Valid() && Reads(g, states, k, at, rs, a, b) && j < |rs| && k != NO_KEY
    requires forall t: nat :: a <= t <= b < |states| ==> k !in states[t].T.Persisted()
    ensures EmptyHanded(rs[j])
  {
    if j > 0 {
      StaysEmptyHanded(g, states, k, at, rs, a, b, j - 1);
      assert rs[j - 1 + 1] == Advance(g, states[at[j - 1]].T, k, rs[j - 1]);
      AdvanceEmptyHanded(g, states[at[j - 1]].T, k, rs[j - 1]);
    }
  }

  /** A lookup for a key that is stored at no moment of it answers, in as many reads, that the key is absent. */
  lemma NeverInvents(g: Geometry, states: seq<State>, k: Key, at: seq<nat>, rs: seq<Reader>, a: nat, b: nat)
    requires g.Valid() && Reads(g, states, k, at, rs, a, b) && k != NO_KEY && |at| > 20 * g.n
    requires forall t: nat :: a <= t <= b < |states| ==> k !in states[t].T.Persisted()
    ensures rs[|at|].Absent?
  {
    StaysEmptyHanded(g, states, k, at, rs, a, b, |at|);
    ReadsRunOut(g, states, k, at, rs, a, b, |at|);
  }

  /** The `i`-th read of a lookup saw key `k` in slot `s`, and an earlier one the tag of `k`. */
  ghost predicate SawKey(g: Geometry, states: seq<State>, k: Key, at: seq<nat>, s: Slot, i: nat) {
    && i < |at| && at[i] < |states| && states[at[i]].T.KeyAt(s) == k
    && exists h: nat :: h < i && at[h] < |states| && states[at[h]].T.Tag(s) == g.Sign(k)
  }

  /** What the first `m` reads have seen. */
  ghost predicate Backed(g: Geometry, states: seq<State>, k: Key, at: seq<nat>, m: nat, r: Reader)
    requires g.Valid()
  {
    match r
    case Check(i, lanes) => exists h: nat :: h < m && SawTags(g, states, k, at, i, lanes, h)
    case Read(s) => exists i: nat :: i < m && SawKey(g, states, k, at, s, i)
    case Found(v) => exists s, i: nat, j: nat :: i < j < m && SawItem(g, states, k, at, s, i, j, v)
    case _ => true
  }

  /** The `h`-th read saw the tag of `k` in all these lanes. */
  ghost predicate SawTags(g: Geometry, states: seq<State>, k: Key, at: seq<nat>, i: nat, lanes: set<nat>, h: nat)
    requires g.Valid()
  {
    h < |at| && at[h] < |states| && forall l :: l in lanes ==> states[at[h]].T.Tag(Slot(g.Pos(k, i), l)) == g.Sign(k)
  }

  /** The `i`-th read saw key `k` in slot `s`, and the `j`-th saw the value `v` there. */
  ghost predicate SawItem(g: Geometry, states: seq<State>, k: Key, at: seq<nat>, s: Slot, i: nat, j: nat, v: Val) {
    SawKey(g, states, k, at, s, i) && j < |at| && at[j] < |states| && states[at[j]].T.ValAt(s) == v
  }

  lemma AdvanceBacked(g: Geometry, states: seq<State>, k: Key, at: seq<nat>, m: nat, r: Reader)
    requires g.Valid() && m < |at| && at[m] < |states| && states[at[m]].T.Shaped(g) && Backed(g, states, k, at, m, r)
    ensures Backed(g, states, k, at, m + 1, Advance(g, states[at[m]].T, k, r))
  {
    var T := states[at[m]].T;
    var r' := Advance(g, T, k, r);
    match r
    case Scan(i) =>
      if i < g.n { assert SawTags(g, states, k, at, i, r'.lanes, m); }
    case Check(i, lanes) =>
      var h: nat :| h < m && SawTags(g, states, k, at, i, lanes, h);
      if lanes != {} {
        var s := Slot(g.Pos(k, i), Least(lanes));
        if T.KeyAt(s) == k {
          assert states[at[h]].T.Tag(s) == g.Sign(k);
          assert SawKey(g, states, k, at, s, m);
        } else {
          assert SawTags(g, states, k, at, i, r'.lanes, h);
        }
      }
    case Read(s) =>
      var i: nat :| i < m && SawKey(g, states, k, at, s, i);
      assert SawItem(g, states, k, at, s, i, m, T.ValAt(s));
    case Found(v) =>
      var s, i: nat, j: nat :| i < j < m && SawItem(g, states, k, at, s, i, j, v);
    case _ =>
  }

  /**
    Whatever the writer does, an answer is read off the table: of the slot that it comes
    from, the lookup has seen the tag, then the key and then the value.
   */
  lemma {:induction false} FoundIsRead(g: Geometry, states: seq<State>, k: Key, at: seq<nat>, rs: seq<Reader>, a: nat,
                                       b: nat, m: nat)
    requires g.Valid() && Reads(g, states, k, at, rs, a, b) && m < |rs|
    ensures Backed(g, states, k, at, m, rs[m])
    ensures rs[m].Found? ==> exists s, i: nat, j: nat :: i < j < m && SawItem(g, states, k, at, s, i, j, rs[m].v)
  {
    if m > 0 {
      FoundIsRead(g, states, k, at, rs, a, b, m - 1);
      assert rs[m - 1 + 1] == Advance(g, states[at[m - 1]].T, k, rs[m - 1]);
      AdvanceBacked(g, states, k, at, m - 1, rs[m - 1]);
    }
  }
}
