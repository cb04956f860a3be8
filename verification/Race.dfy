/**
  The second pass of Reload with several threads. Each thread walks the paths of the
  keys in its share of the chunks and raises counters with a load, a test for 255 and
  a compare-and-swap that is retried when another thread was faster.
 */
module Race {
  import opened Options
  import opened Probe
  import opened Table
  import opened Recovery

  /** Counters, the counter raises each thread has still to do, and the count each has loaded. */
  datatype Race = Race(count: seq<nat>, todo: seq<seq<nat>>, loaded: seq<Option<nat>>)

  ghost predicate Step(R: Race, R': Race, i: nat) {
    && i < |R.todo| == |R.loaded| && R.todo[i] != [] && R.todo[i][0] < |R.count|
    && var c := R.todo[i][0];
       match R.loaded[i]
       case None =>
         if R.count[c] == STUCK then R' == R.(todo := R.todo[i := R.todo[i][1..]])
         else R' == R.(loaded := R.loaded[i := Some(R.count[c])])
       case Some(seen) =>
         if R.count[c] == seen then
           R' == Race(R.count[c := seen + 1], R.todo[i := R.todo[i][1..]], R.loaded[i := None])
         else R' == R.(loaded := R.loaded[i := None])
  }

  /** How often `c` occurs in a list of raises. */
  ghost function Times(w: seq<nat>, c: nat): nat {
    if w == [] then 0 else (if w[0] == c then 1 else 0) + Times(w[1..], c)
  }

  lemma {:induction false} TimesAppend(a: seq<nat>, b: seq<nat>, c: nat)
    ensures Times(a + b, c) == Times(a, c) + Times(b, c)
  {
    if a == [] {
      assert a + b == b;
    } else {
      TimesAppend(a[1..], b, c);
      assert (a + b)[1..] == a[1..] + b;
    }
  }

  ghost function Remaining(todo: seq<seq<nat>>, c: nat): nat {
    if todo == [] then 0 else Times(todo[0], c) + Remaining(todo[1..], c)
  }

  lemma {:induction false} RemainingDrop(todo: seq<seq<nat>>, i: nat, c: nat)
    requires i < |todo| && todo[i] != []
    ensures Remaining(todo, c) == Remaining(todo[i := todo[i][1..]], c) + if todo[i][0] == c then 1 else 0
  {
    var todo' := todo[i := todo[i][1..]];
    if i == 0 {
      assert todo'[1..] == todo[1..];
    } else {
      RemainingDrop(todo[1..], i - 1, c);
      assert todo'[1..] == todo[1..][i - 1 := todo[i][1..]];
    }
  }

  /** Each counter is the number of raises done, capped at 255. */
  ghost predicate RaceInv(R: Race, total: seq<nat>) {
    && |R.todo| == |R.loaded| && |R.count| == |total|
    && (forall i :: 0 <= i < |R.loaded| && R.loaded[i].Some? ==> R.loaded[i].value < STUCK)
    && (forall c: nat :: c < |total| ==> Settled(R.count[c], total[c], Remaining(R.todo, c)))
  }

  predicate Settled(count: nat, total: nat, rest: nat) {
    rest <= total && count == Min(STUCK, total - rest)
  }

  lemma StepKeepsRace(R: Race, R': Race, i: nat, total: seq<nat>)
    requires RaceInv(R, total) && Step(R, R', i)
    ensures RaceInv(R', total)
  {
    forall c: nat | c < |total| ensures Settled(R'.count[c], total[c], Remaining(R'.todo, c)) {
      assert Settled(R.count[c], total[c], Remaining(R.todo, c));
      RemainingDrop(R.todo, i, c);
    }
  }

  lemma {:induction false} RaceRuns(run: seq<Race>, who: seq<nat>, total: seq<nat>, t: nat)
    requires |run| == |who| + 1 && t <= |who| && forall t: nat {:trigger who[t]} :: t < |who| ==>
             Step(run[t], run[t + 1], who[t])
    requires RaceInv(run[0], total)
    ensures RaceInv(run[t], total)
  {
    if t > 0 {
      RaceRuns(run, who, total, t - 1);
      assert Step(run[t - 1], run[t - 1 + 1], who[t - 1]);
      StepKeepsRace(run[t - 1], run[t], who[t - 1], total);
    }
  }

  lemma {:induction false} NothingRemains(todo: seq<seq<nat>>, c: nat)
    requires forall i :: 0 <= i < |todo| ==> todo[i] == []
    ensures Remaining(todo, c) == 0
  {
    if todo != [] { NothingRemains(todo[1..], c); }
  }

  /**
    Whatever the number of threads, the split of the work and the interleaving, once
    all work is done each counter is the number of raises asked of it, capped at 255.
   */
  lemma RaceEnds(run: seq<Race>, who: seq<nat>, total: seq<nat>, c: nat)
    requires |run| == |who| + 1 && forall t: nat {:trigger who[t]} :: t < |who| ==> Step(run[t], run[t + 1], who[t])
    requires RaceInv(run[0], total) && c < |total|
    requires forall i :: 0 <= i < |run[|who|].todo| ==> run[|who|].todo[i] == []
    ensures |run[|who|].count| == |total| && run[|who|].count[c] == if total[c] < 255 then total[c] else 255
  {
    var last := run[|who|];
    RaceRuns(run, who, total, |who|);
    NothingRemains(last.todo, c);
    assert Settled(last.count[c], total[c], Remaining(last.todo, c));
  }

  /** The states of a race, in which step `t` is taken by thread `who[t]`. */
  ghost predicate Runs(run: seq<Race>, who: seq<nat>) {
    |run| == |who| + 1 && forall t: nat {:trigger who[t]} :: t < |who| ==> Step(run[t], run[t + 1], who[t])
  }

  /** When thread `i` loaded what it holds at moment `t`: at its last step, from the counter that is its next. */
  ghost predicate LoadedThen(run: seq<Race>, who: seq<nat>, t: nat, i: nat, u: nat) {
    && u < t < |run| == |who| + 1 && who[u] == i && (forall w: nat :: u < w < t ==> who[w] != i)
    && i < |run[t].todo| && i < |run[u].todo| && run[u].todo[i] == run[t].todo[i] != []
    && run[t].todo[i][0] < |run[u].count| && i < |run[t].loaded|
    && run[t].loaded[i] == Some(run[u].count[run[t].todo[i][0]])
  }

  lemma {:induction false} LoadsBefore(run: seq<Race>, who: seq<nat>, t: nat, i: nat) returns (u: nat)
    requires Runs(run, who) && t < |run| && i < |run[t].loaded| && run[t].loaded[i].Some?
    requires forall j: nat :: j < |run[0].loaded| ==> run[0].loaded[j].None?
    ensures LoadedThen(run, who, t, i, u)
  {
    assert t > 0;
    assert Step(run[t - 1], run[t - 1 + 1], who[t - 1]);
    if who[t - 1] == i {
      u := t - 1;
    } else {
      u := LoadsBefore(run, who, t - 1, i);
    }
  }

  /**
    Whenever a counter changes it goes up by one, and the thread that raises it has seen it
    as it is: it loaded this value at its last step, and the counter is the same again.
   */
  lemma RaisesWhatItLoaded(run: seq<Race>, who: seq<nat>, t: nat, c: nat) returns (u: nat)
    requires Runs(run, who) && t < |who| && forall j: nat :: j < |run[0].loaded| ==> run[0].loaded[j].None?
    requires c < |run[t].count| && c < |run[t + 1].count| && run[t + 1].count[c] != run[t].count[c]
    ensures LoadedThen(run, who, t, who[t], u) && run[t].todo[who[t]][0] == c
    ensures run[u].count[c] == run[t].count[c] && run[t + 1].count[c] == run[t].count[c] + 1
  {
    assert Step(run[t], run[t + 1], who[t]);
    u := LoadsBefore(run, who, t, who[t]);
  }

  /** Two threads on one counter: the one that is overtaken has to try again. */
  lemma SwapFails()
    ensures var run := [Race([0], [[0], [0]], [None, None]), Race([0], [[0], [0]], [Some(0), None]),
                        Race([0], [[0], [0]], [Some(0), Some(0)]), Race([1], [[0], []], [Some(0), None]),
                        Race([1], [[0], []], [None, None])];
            Runs(run, [0, 1, 1, 0])
  {
    var run := [Race([0], [[0], [0]], [None, None]), Race([0], [[0], [0]], [Some(0), None]),
                Race([0], [[0], [0]], [Some(0), Some(0)]), Race([1], [[0], []], [Some(0), None]),
                Race([1], [[0], []], [None, None])];
    var R := run[2];
    var done: seq<nat> := R.todo[1][1..];
    assert done == [] && R.todo[1 := done] == run[3].todo;
    assert R.count[0 := 1] == run[3].count && R.loaded[1 := None] == run[3].loaded;
    assert Step(run[0], run[1], 0) && Step(run[1], run[2], 1) && Step(run[2], run[3], 1) && Step(run[3], run[4], 0);
  }

  /** The step that thread `i` takes. */
  ghost function Next(R: Race, i: nat): (R': Race)
    requires i < |R.todo| == |R.loaded| && R.todo[i] != [] && R.todo[i][0] < |R.count|
    ensures Step(R, R', i)
  {
    var c := R.todo[i][0];
    match R.loaded[i]
    case None =>
      if R.count[c] == STUCK then R.(todo := R.todo[i := R.todo[i][1..]])
      else R.(loaded := R.loaded[i := Some(R.count[c])])
    case Some(seen) =>
      if R.count[c] == seen then Race(R.count[c := seen + 1], R.todo[i := R.todo[i][1..]], R.loaded[i := None])
      else R.(loaded := R.loaded[i := None])
  }

  /** How many steps thread `i` is at most from its next raise. */
  ghost function Tries(R: Race, i: nat): nat
    requires i < |R.todo| == |R.loaded| && R.todo[i] != [] && R.todo[i][0] < |R.count|
  {
    match R.loaded[i]
    case None => 1
    case Some(seen) => if R.count[R.todo[i][0]] == seen then 0 else 2
  }

  /** From any state a race can be run to its end: one thread after the other. */
  lemma {:induction false} CanFinish(R: Race, i: nat) returns (run: seq<Race>, who: seq<nat>)
    requires i <= |R.todo| == |R.loaded| && forall j: nat :: j < i ==> R.todo[j] == []
    requires forall j: nat, p: nat :: j < |R.todo| && p < |R.todo[j]| ==> R.todo[j][p] < |R.count|
    ensures Runs(run, who) && run[0] == R && |run[|who|].todo| == |R.todo|
    ensures forall j: nat :: j < |R.todo| ==> run[|who|].todo[j] == []
    decreases |R.todo| - i, if i < |R.todo| then |R.todo[i]| else 0,
              if i < |R.todo| && R.todo[i] != [] then Tries(R, i) else 0
  {
    if i == |R.todo| {
      run, who := [R], [];
    } else if R.todo[i] == [] {
      run, who := CanFinish(R, i + 1);
    } else {
      var R' := Next(R, i);
      var rest, them := CanFinish(R', i);
      run, who := [R] + rest, [i] + them;
      forall t: nat {:trigger who[t]} | t < |who| ensures Step(run[t], run[t + 1], who[t]) {
        if t > 0 { assert Step(rest[t - 1], rest[t - 1 + 1], them[t - 1]); }
      }
    }
  }

  // ---- The work of Reload ----

  /** The chunks raised for a key that sits `r` steps from home, in walking order. */
  ghost function Walk(g: Geometry, k: Key, i: nat, r: nat): seq<nat>
    requires g.Valid()
    decreases r - i
  {
    if i >= r then [] else [g.Pos(k, i)] + Walk(g, k, i + 1, r)
  }

  lemma {:induction false} WalkIsPath(g: Geometry, k: Key, i: nat, r: nat, c: nat)
    requires g.Valid()
    ensures Times(Walk(g, k, i, r), c) == Path(g, k, i, r)[c]
    decreases r - i
  {
    if i < r {
      WalkIsPath(g, k, i + 1, r, c);
      assert Walk(g, k, i, r)[1..] == Walk(g, k, i + 1, r);
    }
  }

  /** The raises for the lanes below `l` of chunk `c`. */
  ghost function ChunkWork(g: Geometry, T: Table, c: nat, l: nat): seq<nat>
    requires g.Valid()
  {
    if l == 0 then [] else
      var s := Slot(c, l - 1);
      ChunkWork(g, T, c, l - 1) + if T.Tag(s) == 0 then [] else Walk(g, T.KeyAt(s), 0, g.Rank(T.KeyAt(s), c))
  }

  function Width(T: Table, c: nat): nat {
    if c < |T.chunks| then |T.chunks[c].tags| else 0
  }

  /** The raises for the chunks from `lo` up to `hi`: one thread's share. */
  ghost function Share(g: Geometry, T: Table, lo: nat, hi: nat): seq<nat>
    requires g.Valid()
    decreases hi
  {
    if hi <= lo then [] else Share(g, T, lo, hi - 1) + ChunkWork(g, T, hi - 1, Width(T, hi - 1))
  }

  lemma {:induction false} ChunkWorkCounts(g: Geometry, T: Table, c: nat, l: nat, d: nat)
    requires g.Valid() && d < g.n
    ensures |T.Passers(g, TagsBelow(T, c, l), d)|
            == |T.Passers(g, TagsBelow(T, c, 0), d)| + Times(ChunkWork(g, T, c, l), d)
  {
    if l > 0 {
      var s, S, w := Slot(c, l - 1), TagsBelow(T, c, l - 1), ChunkWork(g, T, c, l - 1);
      ChunkWorkCounts(g, T, c, l - 1, d);
      if T.Tag(s) == 0 {
        assert TagsBelow(T, c, l) == S;
        assert ChunkWork(g, T, c, l) == w;
      } else {
        var k := T.KeyAt(s);
        var step := Walk(g, k, 0, g.Rank(k, c));
        assert ChunkWork(g, T, c, l) == w + step;
        assert TagsBelow(T, c, l) == S + {s};
        RecountAt(g, T, S, s, d);
        TimesAppend(w, step, d);
        WalkIsPath(g, k, 0, g.Rank(k, c), d);
      }
    }
  }

  lemma {:induction false} ShareCounts(g: Geometry, T: Table, hi: nat, d: nat)
    requires g.Valid() && T.Shaped(g) && hi <= g.n && d < g.n
    ensures |T.Passers(g, TagsBelow(T, hi, 0), d)| == Times(Share(g, T, 0, hi), d)
  {
    if hi == 0 {
      assert TagsBelow(T, 0, 0) == {};
      assert T.Passers(g, {}, d) == {};
    } else {
      var w := Width(T, hi - 1);
      ShareCounts(g, T, hi - 1, d);
      ChunkWorkCounts(g, T, hi - 1, w, d);
      TimesAppend(Share(g, T, 0, hi - 1), ChunkWork(g, T, hi - 1, w), d);
      assert TagsBelow(T, hi, 0) == TagsBelow(T, hi - 1, w);
    }
  }

  lemma {:induction false} ShareSplits(g: Geometry, T: Table, lo: nat, mid: nat, hi: nat)
    requires g.Valid() && lo <= mid <= hi
    ensures Share(g, T, lo, hi) == Share(g, T, lo, mid) + Share(g, T, mid, hi)
    decreases hi
  {
    if mid < hi {
      ShareSplits(g, T, lo, mid, hi - 1);
      var w := ChunkWork(g, T, hi - 1, Width(T, hi - 1));
      assert Share(g, T, lo, hi) == Share(g, T, lo, mid) + Share(g, T, mid, hi - 1) + w;
    }
  }

  /** Where thread `i` of `threads` begins: blocks of `n / threads + 1` chunks, cut off at the end. */
  function Left(n: nat, threads: nat, i: nat): (r: nat)
    requires threads > 0
    ensures r <= n
  {
    Min(n, i * (n / threads + 1))
  }

  lemma LeftGrows(n: nat, threads: nat, i: nat)
    requires threads > 0
    ensures Left(n, threads, i) <= Left(n, threads, i + 1)
  {
    assert (i + 1) * (n / threads + 1) == i * (n / threads + 1) + (n / threads + 1);
  }

  lemma LastLeft(n: nat, threads: nat)
    requires threads > 0
    ensures Left(n, threads, threads) == n
  {
    assert n == threads * (n / threads) + n % threads;
    assert threads * (n / threads + 1) == threads * (n / threads) + threads;
  }

  ghost function Shares(g: Geometry, T: Table, threads: nat, m: nat): (todo: seq<seq<nat>>)
    requires g.Valid() && threads > 0
    ensures |todo| == m
  {
    if m == 0 then [] else
      Shares(g, T, threads, m - 1) + [Share(g, T, Left(g.n, threads, m - 1), Left(g.n, threads, m))]
  }

  lemma {:induction false} RemainingAppend(todo: seq<seq<nat>>, last: seq<nat>, c: nat)
    ensures Remaining(todo + [last], c) == Remaining(todo, c) + Times(last, c)
  {
    if todo == [] {
      assert todo + [last] == [last];
    } else {
      RemainingAppend(todo[1..], last, c);
      assert (todo + [last])[1..] == todo[1..] + [last];
    }
  }

  lemma {:induction false} SharesCover(g: Geometry, T: Table, threads: nat, m: nat, c: nat)
    requires g.Valid() && threads > 0
    ensures Remaining(Shares(g, T, threads, m), c) == Times(Share(g, T, 0, Left(g.n, threads, m)), c)
  {
    if m > 0 {
      SharesCover(g, T, threads, m - 1, c);
      var before, p, q := Shares(g, T, threads, m - 1), Left(g.n, threads, m - 1), Left(g.n, threads, m);
      assert Shares(g, T, threads, m) == before + [Share(g, T, p, q)];
      RemainingAppend(before, Share(g, T, p, q), c);
      LeftGrows(g.n, threads, m - 1);
      ShareSplits(g, T, 0, p, q);
      TimesAppend(Share(g, T, 0, p), Share(g, T, p, q), c);
    }
  }

  /** The raises that the blocks of all threads ask of counter `c` are its passers. */
  lemma SharesArePassers(g: Geometry, T: Table, threads: nat, c: nat)
    requires g.Valid() && T.Shaped(g) && threads > 0 && c < g.n
    ensures Remaining(Shares(g, T, threads, threads), c) == |T.Passers(g, T.Used(), c)|
  {
    LastLeft(g.n, threads);
    SharesCover(g, T, threads, threads, c);
    ShareCounts(g, T, g.n, c);
    assert TagsBelow(T, g.n, 0) == T.Used();
  }

  /**
    Reload's second pass, run by any number of threads over their blocks of chunks
    and interleaved in any way, leaves exactly the counters of `Reload`.
   */
  lemma ConcurrentReload(g: Geometry, T: Table, threads: nat, run: seq<Race>, who: seq<nat>, c: nat)
    requires g.Valid() && T.Shaped(g) && threads > 0 && c < g.n
    requires |run| == |who| + 1 && forall t: nat {:trigger who[t]} :: t < |who| ==> Step(run[t], run[t + 1], who[t])
    requires run[0] == Race(seq(g.n, _ => 0), Shares(g, Cleared(g, T), threads, threads), seq(threads, _ => None))
    requires forall i :: 0 <= i < |run[|who|].todo| ==> run[|who|].todo[i] == []
    ensures |run[|who|].count| == g.n && run[|who|].count[c] == Reload(g, T).Overflow(c)
  {
    var U := Cleared(g, T);
    var total: seq<nat> := seq(g.n, (d: nat) => Remaining(run[0].todo, d));
    assert RaceInv(run[0], total);
    RaceEnds(run, who, total, c);
    SharesArePassers(g, U, threads, c);
  }
}
