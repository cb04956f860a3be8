/**
  How the operations of the table change it: which slots move, and which steps of
  the writer's machine they take.
 */
module Changes {
  import opened Options
  import opened Seals
  import opened Probe
  import opened Table
  import opened Writer

  ghost function Lowers(s: Slot, i: nat, a: Act): seq<Label> {
    seq(i, (j: nat) => Lower(s, j, a))
  }

  /** `T'` is `T` with other counters. */
  ghost predicate CountersOnly(T: Table, T': Table) {
    // A single case, so that the predicate stays folded where it is only passed on.
    match T
    case Table(_, _) =>
    && T'.size == T.size && |T'.chunks| == |T.chunks|
    && forall c: nat :: c < |T.chunks| ==> T'.chunks[c] == T.chunks[c].(overflow := T'.chunks[c].overflow)
  }

  lemma CountersOnlyItem(T: Table, T': Table, s: Slot)
    requires CountersOnly(T, T')
    ensures T'.KeyAt(s) == T.KeyAt(s) && T'.ValAt(s) == T.ValAt(s) && T'.Tag(s) == T.Tag(s)
  {}

  lemma CountersOnlyTrans(T: Table, T': Table, T'': Table)
    requires CountersOnly(T, T') && CountersOnly(T', T'')
    ensures CountersOnly(T, T'')
  {}

  lemma LowersNext(before: seq<Label>, s: Slot, i: nat, a: Act)
    ensures before + Lowers(s, i, a) + [Lower(s, i, a)] == before + Lowers(s, i + 1, a)
  {}

  ghost function DeleteLabels(s: Slot, r: nat, a: Act): seq<Label> {
    [BeginDelete(s, a)] + Lowers(s, r, a) + ClearLabels(s, r, a)
  }

  /** The last steps of a Delete: the tag, the key and the two sizes. */
  ghost function ClearLabels(s: Slot, r: nat, a: Act): seq<Label> {
    [Untag(s, r, a), Erase(s, a), Shrink(s, a), Uncount(s, a)]
  }

  lemma DeleteLabelsJoin(before: seq<Label>, s: Slot, r: nat, a: Act)
    ensures before + [BeginDelete(s, a)] + Lowers(s, r, a) + ClearLabels(s, r, a) == before + DeleteLabels(s, r, a)
  {}

  lemma ClearLabelsJoin(before: seq<Label>, s: Slot, r: nat, a: Act)
    ensures before + [Untag(s, r, a)] + [Erase(s, a)] + [Shrink(s, a)] + [Uncount(s, a)]
            == before + ClearLabels(s, r, a)
  {}

  /** `T'` is `T` without the item of slot `s`, and with other counters. */
  ghost predicate Vacated(T: Table, T': Table, s: Slot) {
    && |T'.chunks| == |T.chunks| && s.chunk < |T.chunks| && T.chunks[s.chunk].Shaped() && s.lane < LANES
    && T'.size == T.size - 1
    && (forall c: nat :: c < |T.chunks| && c != s.chunk ==>
        T'.chunks[c] == T.chunks[c].(overflow := T'.chunks[c].overflow))
    && var ch, ch' := T.chunks[s.chunk], T'.chunks[s.chunk];
       ch'.size == ch.size - 1
       && ch' == Chunk(ch.tags[s.lane := 0], ch.keys[s.lane := NO_KEY], ch.vals, ch'.size, ch'.overflow, ch.migrating)
  }

  lemma VacatedBySteps(g: Geometry, T0: Table, T1: Table, T2: Table, T3: Table, T4: Table, s: Slot)
    requires T0.Shaped(g) && Has(g, s) && T0.size > 0 && T0.chunks[s.chunk].size > 0
    requires T1.Shaped(g) && CountersOnly(T0, T1) && T2 == SetTag(g, T1, s, 0)
    requires T2.Shaped(g) && T3 == SetItem(g, T2, s, NO_KEY, T2.ValAt(s))
    requires T3.Shaped(g) && T4 == Narrow(T3, s.chunk)
    ensures Vacated(T0, T4.(size := Down(T4.size)), s)
  {
    assert T3.chunks[s.chunk].vals == T0.chunks[s.chunk].vals;
  }

  ghost function Elems(s: seq<Key>): set<Key> {
    set k | k in s
  }

  // ---- Crashes ----

  /** Whenever the run is cut between moments `a` and `b`, one of the maps `ms` is persisted. */
  ghost predicate Cuts(states: seq<State>, a: nat, b: nat, ms: set<map<Key, Val>>) {
    b < |states| && forall t :: a <= t <= b ==> states[t].T.Persisted() in ms
  }

  lemma DeleteCuts(g: Geometry, states: seq<State>, labels: seq<Label>, exact: bool, st: State, before: seq<Label>,
                   s: Slot, r: nat, a: Act)
    requires History(g, states, labels, exact, st) && labels == before + DeleteLabels(s, r, a)
    ensures |states| == |labels| + 1
    ensures Cuts(states, |before|, |labels|, {states[|before|].T.Persisted(), states[|labels|].T.Persisted()})
  {
    HistoryInv(g, states, labels, exact, st);
    DeleteStores(before, s, r, a);
    CutsAround(g, states, labels, exact, |before|, |labels| - 3);
  }

  /** A delete has one effectful store. */
  lemma DeleteStores(before: seq<Label>, s: Slot, r: nat, a: Act)
    ensures var labels := before + DeleteLabels(s, r, a);
            |DeleteLabels(s, r, a)| == r + 5 && forall u :: |before| <= u < |labels| && u != |labels| - 3 ==>
              !Effectful(labels[u])
  {
    var labels := before + DeleteLabels(s, r, a);
    forall u | |before| <= u < |labels| && u != |labels| - 3 ensures !Effectful(labels[u]) {
      assert labels[u] == DeleteLabels(s, r, a)[u - |before|];
    }
  }

  /** Around a single effectful store, what is persisted is what it was or what it will be. */
  lemma CutsAround(g: Geometry, states: seq<State>, labels: seq<Label>, exact: bool, a: nat, e: nat)
    requires IsRun(g, states, labels) && StateInv(g, states[0], exact) && a <= e < |labels|
    requires forall u :: a <= u < |labels| && u != e ==> !Effectful(labels[u])
    ensures Cuts(states, a, |labels|, {states[a].T.Persisted(), states[|labels|].T.Persisted()})
  {
    forall t | a <= t <= |labels|
      ensures states[t].T.Persisted() in {states[a].T.Persisted(), states[|labels|].T.Persisted()}
    {
      CutIsAtomic(g, states, labels, exact, a, e, |labels|, t);
    }
  }

  /** The last steps of an Insert: the size of the chunk, the item, its tag and the size of the table. */
  ghost function PlaceLabels(key: Key, value: Val, j: nat, s: Slot): seq<Label> {
    [Reserve(key, value, j), Place(key, value, j, s.lane), Publish(s), Count(s)]
  }

  lemma PlaceLabelsJoin(before: seq<Label>, key: Key, value: Val, j: nat, s: Slot)
    ensures before + [Reserve(key, value, j)] + [Place(key, value, j, s.lane)] + [Publish(s)] + [Count(s)]
            == before + PlaceLabels(key, value, j, s)
  {}

  lemma PlaceCuts(g: Geometry, states: seq<State>, labels: seq<Label>, exact: bool, st: State, before: seq<Label>,
                  key: Key, value: Val, j: nat, s: Slot)
    requires History(g, states, labels, exact, st) && labels == before + PlaceLabels(key, value, j, s)
    ensures |states| == |labels| + 1
    ensures Cuts(states, |before|, |labels|, {states[|before|].T.Persisted(), states[|labels|].T.Persisted()})
  {
    HistoryInv(g, states, labels, exact, st);
    PlaceStores(before, key, value, j, s);
    CutsAround(g, states, labels, exact, |before|, |labels| - 3);
  }

  lemma PlaceStores(before: seq<Label>, key: Key, value: Val, j: nat, s: Slot)
    ensures var labels := before + PlaceLabels(key, value, j, s);
            forall u :: |before| <= u < |labels| && u != |labels| - 3 ==> !Effectful(labels[u])
  {
    var labels := before + PlaceLabels(key, value, j, s);
    forall u | |before| <= u < |labels| && u != |labels| - 3 ensures !Effectful(labels[u]) {
      assert labels[u] == PlaceLabels(key, value, j, s)[u - |before|];
    }
  }

  /** The maps that deleting the keys `gone` one after the other goes through. */
  ghost function Stages(m: map<Key, Val>, gone: seq<Key>): set<map<Key, Val>> {
    set p | 0 <= p <= |gone| :: m - Elems(gone[..p])
  }

  lemma StageIn(m: map<Key, Val>, gone: seq<Key>)
    ensures m - Elems(gone) in Stages(m, gone)
  {
    assert gone[..|gone|] == gone;
  }

  lemma StagesGrow(m: map<Key, Val>, gone: seq<Key>, more: seq<Key>)
    ensures Stages(m, gone) <= Stages(m, gone + more)
  {
    forall x | x in Stages(m, gone) ensures x in Stages(m, gone + more) {
      var p :| 0 <= p <= |gone| && x == m - Elems(gone[..p]);
      assert (gone + more)[..p] == gone[..p];
    }
  }

  lemma ReplaceCuts(before: seq<State>, states: seq<State>, a: nat, m: map<Key, Val>, m': map<Key, Val>)
    requires |before| == a + 1 && |states| == a + 2 && before <= states
    requires before[a].T.Persisted() == m && states[a + 1].T.Persisted() == m'
    ensures Cuts(states, a, a + 1, Stages(m, []) + {m'})
  {
    StageIn(m, []);
    assert m - Elems([]) == m;
    assert states[a] == before[a];
  }

  lemma CutsJoin(before: seq<State>, states: seq<State>, a: nat, mid: nat, b: nat, ms: set<map<Key, Val>>,
                 ms': set<map<Key, Val>>)
    requires Cuts(before, a, mid, ms) && before <= states && Cuts(states, mid, b, ms') && ms <= ms'
    ensures Cuts(states, a, b, ms')
  {
    forall t | a <= t <= b ensures states[t].T.Persisted() in ms' {
      if t <= mid { assert states[t] == before[t]; }
    }
  }

  lemma CutsDelete(before: seq<State>, states: seq<State>, a: nat, mid: nat, b: nat, m0: map<Key, Val>, gone: seq<Key>,
                   key: Key, m: map<Key, Val>, m': map<Key, Val>)
    requires Cuts(before, a, mid, Stages(m0, gone)) && before <= states && Cuts(states, mid, b, {m, m'})
    requires m == m0 - Elems(gone) && m' == m - {key}
    ensures Cuts(states, a, b, Stages(m0, gone + [key]))
  {
    var all := Stages(m0, gone + [key]);
    StagesGrow(m0, gone, [key]);
    StageIn(m0, gone);
    StageIn(m0, gone + [key]);
    assert Elems(gone + [key]) == Elems(gone) + {key};
    assert m' == m0 - Elems(gone + [key]);
    assert {m, m'} <= all;
    assert Cuts(states, mid, b, all);
    CutsJoin(before, states, a, mid, b, Stages(m0, gone), all);
  }

  lemma Associative<X>(a: seq<X>, b: seq<X>, c: seq<X>)
    ensures a + b + c == a + (b + c)
  {}

  // ---- The part of an Insert that deletes keys ----

  /** The steps `seg` delete only keys of `gone`. */
  ghost predicate OnlyDeletes(T: Table, seg: seq<Label>, gone: seq<Key>) {
    forall u :: 0 <= u < |seg| && seg[u].BeginDelete? ==> T.KeyAt(seg[u].slot) in gone
  }

  ghost predicate NoEffect(seg: seq<Label>) {
    forall u :: 0 <= u < |seg| ==> !Effectful(seg[u])
  }

  /** Whatever is in a slot of `T` was there in `T0`. */
  ghost predicate Inherits(T0: Table, T: Table) {
    forall s :: T.Tag(s) != 0 ==> T0.Tag(s) != 0 && T0.KeyAt(s) == T.KeyAt(s) && T0.ValAt(s) == T.ValAt(s)
  }

  ghost predicate NoCount(seg: seq<Label>) {
    forall u :: 0 <= u < |seg| ==> !seg[u].Count?
  }

  /**
    From table `T0` with map `m0` and step log `before`, the steps `seg` deleted the
    keys `gone`, one after the other, and came to table `T` with map `m`.
   */
  ghost predicate Tale(T0: Table, m0: map<Key, Val>, before: seq<Label>, T: Table, m: map<Key, Val>,
                       states: seq<State>, labels: seq<Label>, gone: seq<Key>, seg: seq<Label>)
  {
    && Inherits(T0, T)
    && m == m0 - Elems(gone) && Elems(gone) <= m0.Keys
    && labels == before + seg && OnlyDeletes(T0, seg, gone)
    && Cuts(states, |before|, |labels|, Stages(m0, gone))
    && (gone == [] ==> NoEffect(seg)) && NoCount(seg)
  }

  lemma TaleBegins(T0: Table, m0: map<Key, Val>, states: seq<State>, labels: seq<Label>)
    requires |states| == |labels| + 1 && states[|labels|].T.Persisted() == m0
    ensures Tale(T0, m0, labels, T0, m0, states, labels, [], [])
  {
    StageIn(m0, []);
    assert m0 - Elems([]) == m0;
  }

  lemma OnlyDeletesGrows(T0: Table, seg: seq<Label>, gone: seq<Key>, s: Slot, r: nat, a: Act)
    requires OnlyDeletes(T0, seg, gone)
    ensures OnlyDeletes(T0, seg + DeleteLabels(s, r, a), gone + [T0.KeyAt(s)])
  {
    var more := DeleteLabels(s, r, a);
    forall u | 0 <= u < |more| && more[u].BeginDelete? ensures more[u].slot == s {}
  }

  lemma VacatedInherits(T0: Table, T: Table, T': Table, s: Slot)
    requires Inherits(T0, T) && Vacated(T, T', s)
    ensures Inherits(T0, T')
  {
    forall u | T'.Tag(u) != 0 ensures T.Tag(u) == T'.Tag(u) && T.KeyAt(u) == T'.KeyAt(u) && T.ValAt(u) == T'.ValAt(u) {
      if u.chunk == s.chunk { assert u.lane != s.lane; }
    }
  }

  lemma TaleDeletes(T0: Table, m0: map<Key, Val>, before: seq<Label>, T: Table, m: map<Key, Val>,
                    states: seq<State>, labels: seq<Label>, gone: seq<Key>, seg: seq<Label>,
                    T': Table, m': map<Key, Val>, states': seq<State>, labels': seq<Label>, s: Slot, r: nat, a: Act)
    requires Tale(T0, m0, before, T, m, states, labels, gone, seg)
    requires Vacated(T, T', s) && T.Tag(s) != 0 && T.KeyAt(s) in m && m' == m - {T.KeyAt(s)}
    requires states <= states' && labels' == labels + DeleteLabels(s, r, a)
    requires Cuts(states', |labels|, |labels'|, {m, m'})
    ensures Tale(T0, m0, before, T', m', states', labels', gone + [T.KeyAt(s)], seg + DeleteLabels(s, r, a))
  {
    var key := T.KeyAt(s);
    VacatedInherits(T0, T, T', s);
    assert T0.KeyAt(s) == key;
    OnlyDeletesGrows(T0, seg, gone, s, r, a);
    CutsDelete(states, states', |before|, |labels|, |labels'|, m0, gone, key, m, m');
    assert Elems(gone + [key]) == Elems(gone) + {key};
    Associative(before, seg, DeleteLabels(s, r, a));
  }

  lemma TaleGoesOn(T0: Table, m0: map<Key, Val>, before: seq<Label>, T: Table, m: map<Key, Val>,
                   states: seq<State>, labels: seq<Label>, gone: seq<Key>, seg: seq<Label>, T': Table, st: State,
                     l: Label)
    requires Tale(T0, m0, before, T, m, states, labels, gone, seg) && |states| == |labels| + 1
    requires Inherits(T0, T') && st.T.Persisted() == m && !Effectful(l) && !l.BeginDelete? && !l.Count?
    ensures Tale(T0, m0, before, T', m, states + [st], labels + [l], gone, seg + [l])
  {
    StageIn(m0, gone);
    assert Cuts(states + [st], |labels|, |labels| + 1,
                Stages(m0, gone)) by { assert (states + [st])[|labels|] == states[|labels|]; }
    CutsJoin(states, states + [st], |before|, |labels|, |labels| + 1, Stages(m0, gone), Stages(m0, gone));
    Associative(before, seg, [l]);
  }

  /**
    The steps `seg` of an Insert: deletions of `gone` only, and if there are none, one
    effectful step, the third but last. Only the last step brings the writer to rest.
   */
  ghost predicate InsertSteps(T0: Table, seg: seq<Label>, gone: seq<Key>) {
    && OnlyDeletes(T0, seg, gone) && |seg| >= 4 && NoCount(seg[..|seg| - 1])
    && (gone == [] ==> |seg| >= 4 && forall u :: 0 <= u < |seg| ==> (Effectful(seg[u]) <==> u == |seg| - 3))
  }

  lemma TaleEnds(T0: Table, m0: map<Key, Val>, before: seq<Label>, T: Table, m: map<Key, Val>,
                 states: seq<State>, labels: seq<Label>, gone: seq<Key>, seg: seq<Label>,
                 m': map<Key, Val>, states': seq<State>, labels': seq<Label>, key: Key, value: Val, j: nat, s: Slot)
    requires Tale(T0, m0, before, T, m, states, labels, gone, seg)
    requires states <= states' && labels' == labels + PlaceLabels(key, value, j, s)
    requires Cuts(states', |labels|, |labels'|, {m, m'})
    ensures var seg' := seg + PlaceLabels(key, value, j, s);
            && labels' == before + seg' && InsertSteps(T0, seg', gone)
            && Cuts(states', |before|, |labels'|, Stages(m0, gone) + {m'})
  {
    var all := Stages(m0, gone) + {m'};
    StageIn(m0, gone);
    assert Cuts(states', |labels|, |labels'|, all);
    CutsJoin(states, states', |before|, |labels|, |labels'|, Stages(m0, gone), all);
    Associative(before, seg, PlaceLabels(key, value, j, s));
  }

  // ---- The key that the writer is busy with ----

  /** The writer is in the middle of inserting key `k`, perhaps deleting another. */
  predicate About(a: Act, k: Key) {
    match a
    case Idle => false
    case Probing(h, _, _) => h == k
    case Reserved(h, _, _) => h == k
    case Lowering(_, _, b) => b.Probing? && b.k == k
    case Untagged(_, b) => b.Probing? && b.k == k
    case Erased(_, b) => b.Probing? && b.k == k
    case Shrunk(_, b) => b.Probing? && b.k == k
    case _ => true
  }

  lemma AboutStep(g: Geometry, st: State, l: Label, st': State, k: Key)
    requires g.Valid() && Moves(g, st, l, st') && !l.Count? && (About(st.act, k) || (l.Begin? && l.k == k))
    ensures About(st'.act, k)
  {
    assert MoveSeal(0);
  }

  /** From moment `a` to moment `b`, both excluded, the writer is inserting key `k`. */
  ghost predicate Inserting(states: seq<State>, a: nat, b: nat, k: Key) {
    b < |states| && forall t: nat :: a < t < b ==> About(states[t].act, k)
  }

  /** From the beginning of an Insert until its last step the writer is inserting the same key. */
  lemma InsertsOne(g: Geometry, states: seq<State>, labels: seq<Label>, a: nat, b: nat, mid: nat, k: Key)
    requires IsRun(g, states, labels) && a < mid < b <= |labels| && labels[a].Begin?
    requires forall u: nat :: a <= u < b - 1 ==> !labels[u].Count?
    requires states[mid].act.Probing? && states[mid].act.k == k
    ensures Inserting(states, a, b, k)
  {
    var h := labels[a].k;
    var ok := seq(b - a - 1, u requires 0 <= u < b - a - 1 => About(states[a + 1 + u].act, h));
    assert Moves(g, states[a], labels[a], states[a + 1]);
    AboutStep(g, states[a], labels[a], states[a + 1], h);
    forall u: nat | u + 1 < |ok| && ok[u] ensures ok[u + 1] {
      assert Moves(g, states[a + 1 + u], labels[a + 1 + u], states[a + 1 + u + 1]);
      AboutStep(g, states[a + 1 + u], labels[a + 1 + u], states[a + 1 + u + 1], h);
    }
    forall t: nat | a < t < b ensures About(states[t].act, h) {
      Upwards(ok, t - a - 1);
      assert ok[t - a - 1];
    }
  }

  /** The states and steps that the writer has behind it. */
  datatype Past = Past(states: seq<State>, labels: seq<Label>)

  /** Whatever is in `x` is in `m` as well, but for `key`, which may have the value `v`. */
  ghost predicate Between(x: map<Key, Val>, m: map<Key, Val>, key: Key, v: Val) {
    forall k :: k in x ==> (k in m && x[k] == m[k]) || (k == key && x[k] == v)
  }

  /**
    From moment `a` on, when the map was `m`, the writer stored `key` with value `v` and
    deleted no key but those of `gone`. It was at rest before and after, and at every
    moment on the way what is persisted is old or what is being stored.
   */
  ghost predicate Takes(states: seq<State>, labels: seq<Label>, a: nat, m: map<Key, Val>, gone: seq<Key>, key: Key,
                       v: Val) {
    && a < |labels| && |states| == |labels| + 1 && states[a].act.Idle? && states[|labels|].act.Idle?
    && (if key in m then |labels| == a + 1 else Inserting(states, a, |labels|, key))
    && (forall t: nat :: a <= t < |states| ==> Between(states[t].T.Persisted(), m, key, v))
    && (forall u: nat :: a <= u < |labels| && labels[u].BeginDelete? ==> states[a].T.KeyAt(labels[u].slot) in gone)
  }

  ghost predicate Journey(states: seq<State>, labels: seq<Label>, a: nat, m: map<Key, Val>, gone: seq<Key>, key: Key,
                          v: Val) {
    forall n: nat {:trigger TrailSeal(n)} :: TrailSeal(n) ==> Takes(states, labels, a, m, gone, key, v)
  }

  lemma StageBetween(x: map<Key, Val>, m: map<Key, Val>, gone: seq<Key>, key: Key, v: Val)
    requires x in Stages(m, gone) + {(m - Elems(gone))[key := v]}
    ensures Between(x, m, key, v)
  {
    if x in Stages(m, gone) { var p :| 0 <= p <= |gone| && x == m - Elems(gone[..p]); }
  }

  lemma CutsBetween(states: seq<State>, a: nat, b: nat, m: map<Key, Val>, gone: seq<Key>, key: Key, v: Val)
    requires Cuts(states, a, b, Stages(m, gone) + {(m - Elems(gone))[key := v]})
    ensures forall t: nat :: a <= t <= b ==> Between(states[t].T.Persisted(), m, key, v)
  {
    forall t: nat | a <= t <= b ensures Between(states[t].T.Persisted(), m, key, v) {
      StageBetween(states[t].T.Persisted(), m, gone, key, v);
    }
  }

  lemma DeletesInSteps(T0: Table, before: seq<Label>, seg: seq<Label>, gone: seq<Key>)
    requires OnlyDeletes(T0, seg, gone)
    ensures var labels := before + seg;
            forall u: nat :: |before| <= u < |labels| && labels[u].BeginDelete? ==> T0.KeyAt(labels[u].slot) in gone
  {
    var labels := before + seg;
    forall u: nat | |before| <= u < |labels| && labels[u].BeginDelete? ensures T0.KeyAt(labels[u].slot) in gone {
      assert labels[u] == seg[u - |before|];
    }
  }

  lemma StoreJourney(T0: Table, before: seq<Label>, states: seq<State>, seg: seq<Label>, m: map<Key, Val>,
                     gone: seq<Key>, key: Key, v: Val)
    requires OnlyDeletes(T0, seg, gone) && seg != [] && |states| == |before + seg| + 1
    requires states[|before|] == State(T0, Idle) && states[|before + seg|].act.Idle?
    requires if key in m then |seg| == 1 else Inserting(states, |before|, |before + seg|, key)
    requires Cuts(states, |before|, |before + seg|, Stages(m, gone) + {(m - Elems(gone))[key := v]})
    ensures Journey(states, before + seg, |before|, m, gone, key, v)
  {
    DeletesInSteps(T0, before, seg, gone);
    CutsBetween(states, |before|, |before + seg|, m, gone, key, v);
  }

  lemma ReplaceJourney(T0: Table, before: seq<Label>, states: seq<State>, s: Slot, m: map<Key, Val>,
                       m': map<Key, Val>, key: Key, v: Val)
    requires |states| == |before| + 2 && key in m && m' == m[key := v]
    requires states[|before|] == State(T0, Idle) && states[|before| + 1].act.Idle?
    requires Cuts(states, |before|, |before| + 1, Stages(m, []) + {m'})
    ensures Journey(states, before + [Overwrite(s, v)], |before|, m, [], key, v)
  {
    var seg := [Overwrite(s, v)];
    assert m - Elems([]) == m;
    assert |before + seg| == |before| + 1 && (m - Elems([]))[key := v] == m';
    assert OnlyDeletes(T0, seg, []);
    StoreJourney(T0, before, states, seg, m, [], key, v);
  }

  lemma CountersOnlyInherits(T0: Table, T: Table, T': Table)
    requires Inherits(T0, T) && CountersOnly(T, T')
    ensures Inherits(T0, T')
  {
    forall s ensures T'.KeyAt(s) == T.KeyAt(s) && T'.ValAt(s) == T.ValAt(s) && T'.Tag(s) == T.Tag(s) {
      CountersOnlyItem(T, T', s);
    }
  }

  // ---- Expiry ----

  predicate KeepsBelow(ch: Chunk, id: nat, keep: (Key, Val) -> bool)
    requires ch.Shaped() && id <= LANES
  {
    forall l: nat :: l < id && ch.tags[l] != 0 ==> keep(ch.keys[l], ch.vals[l])
  }

  predicate SameLanesFrom(ch: Chunk, ch': Chunk, id: nat)
    requires ch.Shaped() && ch'.Shaped()
  {
    forall l: nat :: id <= l < LANES ==>
      ch.tags[l] == ch'.tags[l] && ch.keys[l] == ch'.keys[l] && ch.vals[l] == ch'.vals[l]
  }

  /** `T'` is `T` with `m` fewer items in chunk `c`, and with other counters. */
  ghost predicate Thinned(T: Table, T': Table, c: nat, m: nat) {
    && |T'.chunks| == |T.chunks| && c < |T.chunks| && T.chunks[c].Shaped() && T'.chunks[c].Shaped()
    && T'.size == T.size - m && T'.chunks[c].size == T.chunks[c].size - m
    && forall d: nat :: d < |T.chunks| && d != c ==> T'.chunks[d] == T.chunks[d].(overflow := T'.chunks[d].overflow)
  }

  /**
    Expiry of chunk `pos` of table `T` has looked at the lanes below `id`, emptied `m` of
    them, and come to table `T'`.
   */
  ghost predicate Expired(T: Table, T': Table, pos: nat, id: nat, keep: (Key, Val) -> bool, m: nat) {
    && Thinned(T, T', pos, m) && id <= LANES
    && SameLanesFrom(T.chunks[pos], T'.chunks[pos], id)
    && (m == 0 ==> T' == T)
    && (m == 0 <==> KeepsBelow(T.chunks[pos], id, keep))
    && KeepsBelow(T'.chunks[pos], id, keep)
  }

  /** Key `k` is in table `T`, in a chunk with at least 12 keys. */
  ghost predicate Pressed(T: Table, k: Key) {
    exists s: Slot :: T.Tag(s) != 0 && T.KeyAt(s) == k && T.SizeOf(s.chunk) >= 12
  }

  /** The keys of `gone` from position `p` on are in `m`, in nearly full chunks of `T`, and given up by `keep`. */
  ghost predicate GivenUp(T: Table, m: map<Key, Val>, keep: (Key, Val) -> bool, gone: seq<Key>, p: nat) {
    forall j :: p <= j < |gone| ==> gone[j] in m && !keep(gone[j], m[gone[j]]) && Pressed(T, gone[j])
  }

  lemma GivenUpGrows(T: Table, m: map<Key, Val>, keep: (Key, Val) -> bool, gone: seq<Key>, p: nat, s: Slot, val: Val)
    requires GivenUp(T, m, keep, gone, p) && T.Tag(s) != 0 && T.SizeOf(s.chunk) >= 12
    requires T.KeyAt(s) in m && m[T.KeyAt(s)] == val && !keep(T.KeyAt(s), val)
    ensures GivenUp(T, m, keep, gone + [T.KeyAt(s)], p)
  {
    assert Pressed(T, T.KeyAt(s));
  }

  /** If there are at least 12 keys in the chunk, those that `keep` gives up are gone. */
  ghost predicate Rid(ch: Chunk, keep: (Key, Val) -> bool, gone: seq<Key>) {
    ch.Shaped() && (ch.size >= 12 ==> forall l: nat :: l < LANES && ch.tags[l] != 0 && !keep(ch.keys[l], ch.vals[l]) ==>
      ch.keys[l] in gone)
  }

  /** The keys of table `T0` have been deleted down to `T`; whatever is not gone is where it was. */
  ghost predicate Remains(g: Geometry, T0: Table, T: Table, gone: seq<Key>) {
    // A single case, so that the predicate stays folded where it is only passed on.
    match T0
    case Table(_, _) =>
      && T0.Shaped(g) && T.Shaped(g) && Inherits(T0, T) && T0.Distinct(T0.Used())
      && forall k :: k in T0.Keys(T0.Used()) && k !in gone ==> k in T.Keys(T.Used())
  }

  /** Where everything that is left is kept, what is not kept has gone. */
  lemma KeptIsRid(g: Geometry, T0: Table, T: Table, c: nat, keep: (Key, Val) -> bool, gone: seq<Key>)
    requires Remains(g, T0, T, gone) && c < g.n && (T0.chunks[c].size >= 12 ==> KeepsBelow(T.chunks[c], LANES, keep))
    ensures Rid(T0.chunks[c], keep, gone)
  {
    var ch := T0.chunks[c];
    forall l: nat | ch.size >= 12 && l < LANES && ch.tags[l] != 0 && !keep(ch.keys[l], ch.vals[l])
      ensures ch.keys[l] in gone
    {
      var s := Slot(c, l);
      assert s in T0.Used() && T0.KeyAt(s) == ch.keys[l];
      if ch.keys[l] !in gone {
        var u := T.SlotOf(T.Used(), ch.keys[l]);
        assert false;
      }
    }
  }

  lemma RidGrows(ch: Chunk, keep: (Key, Val) -> bool, gone: seq<Key>, gone': seq<Key>)
    requires Rid(ch, keep, gone) && gone <= gone'
    ensures Rid(ch, keep, gone')
  {
    assert forall k :: k in gone ==> k in gone';
  }

  /** A chunk has no more keys than the one that it inherits from. */
  lemma InheritsSize(g: Geometry, T0: Table, T: Table, c: nat)
    requires T0.Shaped(g) && T.Shaped(g) && T0.Sized() && T.Sized() && Inherits(T0, T) && c < g.n
    ensures T.chunks[c].size <= T0.chunks[c].size
  {
    var L0, L := T0.chunks[c].Lanes(), T.chunks[c].Lanes();
    forall l | l in L ensures l in L0 { assert T.Tag(Slot(c, l)) != 0; }
    assert L0 == L + (L0 - L);
  }

  lemma ExpireSkip(T: Table, T': Table, pos: nat, id: nat, keep: (Key, Val) -> bool, m: nat)
    requires Expired(T, T', pos, id, keep, m) && id < LANES
    requires var ch := T'.chunks[pos]; ch.tags[id] != 0 ==> keep(ch.keys[id], ch.vals[id])
    ensures Expired(T, T', pos, id + 1, keep, m)
  {}

  lemma ExpireHit(T: Table, T': Table, T'': Table, pos: nat, id: nat, keep: (Key, Val) -> bool, m: nat)
    requires Expired(T, T', pos, id, keep, m) && id < LANES
    requires Vacated(T', T'', Slot(pos, id)) && T''.chunks[pos].Shaped()
    requires var ch := T'.chunks[pos]; ch.tags[id] != 0 && !keep(ch.keys[id], ch.vals[id])
    ensures Expired(T, T'', pos, id + 1, keep, m + 1)
  {}

  // ---- Progress of an Insert ----

  type Check = Option<(Key, Val) -> bool>

  /** A chunk that is full and whose keys are all kept. */
  predicate Crowded(ch: Chunk, check: Check) {
    ch.Shaped() && ch.size == LANES && (check.Some? ==> KeepsBelow(ch, LANES, check.value))
  }

  /** The home chunk of `key` is crowded and the table is at its load limit. */
  predicate Jammed(g: Geometry, T: Table, key: Key, check: Check)
    requires g.Valid() && T.Shaped(g)
  {
    Crowded(T.chunks[g.Home(key)], check) && IsFull(g, T.size)
  }

  /** The key a forced Insert evicts when it is jammed. */
  function Victim(g: Geometry, T: Table, key: Key): Key
    requires g.Valid() && T.Shaped(g)
  {
    T.chunks[g.Home(key)].keys[g.Sign(key) % LANES]
  }

  /** An Insert of `key` into `T0` at the start of iteration `i`, having advanced `j` times. */
  ghost predicate Progress(g: Geometry, T0: Table, T: Table, key: Key, i: nat, j: nat, jam: bool, force: bool)
    requires g.Valid() && T.Shaped(g)
  {
    && (forall c: nat :: c < g.n && g.Rank(key, c) < j ==> T.chunks[c].size == LANES)
    && (j > 0 ==> !IsFull(g, T.size))
    && (i == 0 ==> T == T0)
    && (i > 0 ==> (j == 0 <==> jam))
    && (j == i || (i == 1 && j == 0 && force && T.chunks[g.Home(key)].size < LANES))
  }

  /** The keys an Insert has deleted: the victim if it was jammed, expired keys if not. */
  ghost predicate Account(g: Geometry, T0: Table, m0: map<Key, Val>, key: Key, check: Check, jam: bool, i: nat,
                          gone: seq<Key>)
    requires g.Valid() && T0.Shaped(g)
  {
    if i == 0 then gone == []
    else if jam then gone == [Victim(g, T0, key)]
    else if check.Some? then
      GivenUp(T0, m0, check.value, gone, 0) && Rid(T0.chunks[g.Home(key)], check.value, gone)
    else gone == []
  }

  /** The same in the middle of iteration `i`, after the chunk has been purged of expired keys. */
  ghost predicate Purged(g: Geometry, T0: Table, T: Table, m0: map<Key, Val>, key: Key, check: Check, i: nat, j: nat,
                         jam: bool, force: bool, gone: seq<Key>)
    requires g.Valid() && T.Shaped(g) && T0.Shaped(g)
  {
    && (forall c: nat :: c < g.n && g.Rank(key, c) < j ==> T.chunks[c].size == LANES)
    && (j > 0 ==> !IsFull(g, T.size))
    && (i > 0 ==> (j == 0 <==> jam))
    && (j == i || (i == 1 && j == 0 && force && T.chunks[g.Home(key)].size < LANES))
    && (i == 0 ==> (T.chunks[g.Home(key)].size == LANES <==> Crowded(T0.chunks[g.Home(key)], check)))
    && (i == 0 && T.chunks[g.Home(key)].size == LANES ==> T == T0 && gone == [])
    && (i == 0 && T.chunks[g.Home(key)].size != LANES ==>
        !jam && (if check.Some? then
                   GivenUp(T0, m0, check.value, gone, 0) && Rid(T0.chunks[g.Home(key)], check.value, gone)
                 else gone == []))
    && (i > 0 ==> Account(g, T0, m0, key, check, jam, i, gone))
  }

  /** A chunk inherited from one whose keys are all kept keeps all its keys. */
  lemma InheritsKeep(g: Geometry, T0: Table, T: Table, c: nat, keep: (Key, Val) -> bool)
    requires T0.Shaped(g) && T.Shaped(g) && Inherits(T0, T) && c < g.n && KeepsBelow(T0.chunks[c], LANES, keep)
    ensures KeepsBelow(T.chunks[c], LANES, keep)
  {
    forall l: nat | l < LANES && T.chunks[c].tags[l] != 0 ensures keep(T.chunks[c].keys[l], T.chunks[c].vals[l]) {
      assert T.Tag(Slot(c, l)) != 0;
    }
  }

  /**
    What purging chunk `pos` does: with at least 12 keys in it, all that are left are kept.
    It loses `m` keys, none if it has fewer or nothing was expired.
   */
  ghost predicate Thins(T: Table, T': Table, pos: nat, check: Check, m: nat) {
    && Thinned(T, T', pos, m)
    && (m == 0 ==> T' == T)
    && (T'.chunks[pos].size == LANES <==> Crowded(T.chunks[pos], check))
    && (check.Some? && KeepsBelow(T.chunks[pos], LANES, check.value) ==> m == 0)
    && (check.None? ==> m == 0) && (m > 0 ==> T.chunks[pos].size >= 12)
    && (check.Some? && T.chunks[pos].size >= 12 ==> KeepsBelow(T'.chunks[pos], LANES, check.value))
  }

  lemma PurgeProgress(g: Geometry, T0: Table, T: Table, T': Table, m0: map<Key, Val>, key: Key, check: Check,
                      i: nat, j: nat, jam: bool, force: bool, gone: seq<Key>, gone': seq<Key>)
    requires g.Valid() && T0.Shaped(g) && T.Shaped(g) && T'.Shaped(g) && j < g.n && jam == Jammed(g, T0, key, check)
    requires Progress(g, T0, T, key, i, j, jam, force) && Account(g, T0, m0, key, check, jam, i, gone)
    requires Inherits(T0, T) && gone <= gone' && Thins(T, T', g.Pos(key, j), check, |gone'| - |gone|)
    requires check.Some? ==> GivenUp(T0, m0, check.value, gone', |gone|)
    requires check.Some? && i == 0 ==> Rid(T0.chunks[g.Home(key)], check.value, gone')
    ensures Purged(g, T0, T', m0, key, check, i, j, jam, force, gone')
  {
    g.RankOfPos(key, j);
    if jam && check.Some? { InheritsKeep(g, T0, T, g.Home(key), check.value); }
    if gone' == gone { assert T' == T; }
    if check.Some? && i > 0 && !jam { RidGrows(T0.chunks[g.Home(key)], check.value, gone, gone'); }
  }

  lemma RaiseProgress(g: Geometry, T0: Table, T: Table, T': Table, m0: map<Key, Val>, key: Key, check: Check,
                      i: nat, j: nat, jam: bool, force: bool, gone: seq<Key>)
    requires g.Valid() && T0.Shaped(g) && T.Shaped(g) && T'.Shaped(g) && j < g.n && jam == Jammed(g, T0, key, check)
    requires Purged(g, T0, T, m0, key, check, i, j, jam, force, gone) && CountersOnly(T, T')
    requires T.chunks[g.Pos(key, j)].size == LANES && !IsFull(g, T.size)
    ensures Progress(g, T0, T', key, i + 1, j + 1, jam, force) && Account(g, T0, m0, key, check, jam, i + 1, gone)
  {
    assert g.Pos(key, 0) == g.Home(key);
    forall c: nat | c < g.n && g.Rank(key, c) < j + 1 ensures T'.chunks[c].size == LANES {
      g.PosOfRank(key, c);
    }
  }

  lemma EvictProgress(g: Geometry, T0: Table, T: Table, T': Table, m0: map<Key, Val>, key: Key, check: Check,
                      i: nat, j: nat, jam: bool, force: bool, gone: seq<Key>)
    requires g.Valid() && T0.Shaped(g) && T.Shaped(g) && T'.Shaped(g) && j < g.n && jam == Jammed(g, T0, key, check)
    requires Purged(g, T0, T, m0, key, check, i, j, jam, force, gone)
    requires T.chunks[g.Pos(key, j)].size == LANES && IsFull(g, T.size) && force
    requires Vacated(T, T', Slot(g.Pos(key, j), (g.Sign(key) + i) % LANES))
    ensures i == 0 && j == 0 && jam && T == T0
    ensures Progress(g, T0, T', key, i + 1, j, jam, force)
    ensures Account(g, T0, m0, key, check, jam, i + 1,
                    gone + [T0.KeyAt(Slot(g.Pos(key, j), (g.Sign(key) + i) % LANES))])
  {}
}
