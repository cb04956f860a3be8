/**
  The epoch manager as an object. It records the steps of the epoch machine that its
  calls amount to, and the machine's state, so what is proved about runs of the machine
  holds for every history of calls.
 */
module Epochs {
  import opened Seals
  import opened Chunks
  import Epoch

  /** The smallest published epoch of a thread, 0 if there is none. */
  method MinEpoch(entry: seq<nat>) returns (r: nat)
    ensures entry == [] ==> r == 0
    ensures entry != [] ==> r in entry && forall j: nat :: j < |entry| ==> r <= entry[j]
  {
    if entry == [] {
      return 0;
    }
    r := entry[0];
    for i := 1 to |entry|
      invariant r in entry && forall j: nat :: j < i ==> r <= entry[j]
    {
      if entry[i] < r {
        r := entry[i];
      }
    }
  }

  /** The thread has published the epochs of these sessions. */
  ghost predicate Publishes(sessions: seq<Epoch.Session>, entry: seq<nat>) {
    |sessions| == |entry| && forall j: nat :: j < |entry| ==> sessions[j].epoch == entry[j]
  }

  lemma MinAgrees(sessions: seq<Epoch.Session>, entry: seq<nat>, r: nat)
    requires Publishes(sessions, entry) && (entry == [] ==> r == 0)
    requires entry != [] ==> r in entry && forall j: nat :: j < |entry| ==> r <= entry[j]
    ensures r == Epoch.MinEpoch(sessions)
  {
    if entry != [] {
      var i: nat :| i < |entry| && entry[i] == r;
      assert sessions[i].epoch == r;
      var j: nat :| j < |sessions| && sessions[j].epoch == Epoch.MinEpoch(sessions);
      assert r <= entry[j];
    }
  }

  /** The fields of the manager are those of the machine, which is not in the middle of a call. */
  ghost predicate Mirrors(st: Epoch.State, current: nat, safe: nat, table: seq<seq<nat>>) {
    && st.current == current && st.safe == safe && st.scans == map[]
    && |st.table| == |table| && |st.loaded| == |table| && (forall t: nat :: t < |table| ==> st.loaded[t].None?)
    && (forall t: nat :: t < |table| ==> Publishes(st.table[t], table[t]))
  }

  /** The machine has come to `st` by the steps `run`; `orderly` tells whether they are disciplined. */
  ghost predicate Reached(n: nat, run: seq<Epoch.Label>, st: Epoch.State, orderly: bool) {
    && Epoch.Legal(Epoch.Init(n), run) && Epoch.Exec(Epoch.Init(n), run) == st
    && (orderly <==> Epoch.Disciplined(Epoch.Init(n), run))
  }

  lemma ReachedMore(n: nat, run: seq<Epoch.Label>, st: Epoch.State, orderly: bool, ls: seq<Epoch.Label>)
    requires Reached(n, run, st, orderly) && Epoch.Legal(st, ls)
    ensures Reached(n, run + ls, Epoch.Exec(st, ls), orderly && Epoch.Disciplined(st, ls))
  {
    Epoch.ExecJoin(Epoch.Init(n), run, ls);
    Epoch.DisciplinedJoin(Epoch.Init(n), run, ls);
  }

  lemma ReachedOne(n: nat, run: seq<Epoch.Label>, st: Epoch.State, orderly: bool, l: Epoch.Label)
    requires Reached(n, run, st, orderly) && Epoch.Enabled(st, l) && !l.BumpStart?
    ensures Reached(n, run + [l], Epoch.Apply(st, l), orderly)
  {
    Epoch.ExecOne(st, l);
    Epoch.DisciplinedOne(st, l);
    ReachedMore(n, run, st, orderly, [l]);
  }

  /** The steps that touch blocks only. */
  predicate BlockStep(l: Epoch.Label) {
    l.Read? || l.Link? || l.Unlink? || l.Retire? || l.Free?
  }

  lemma MirrorsBlockStep(st: Epoch.State, current: nat, safe: nat, table: seq<seq<nat>>, l: Epoch.Label)
    requires Mirrors(st, current, safe, table) && Epoch.Enabled(st, l) && BlockStep(l)
    ensures Mirrors(Epoch.Apply(st, l), current, safe, table)
  {
    var st' := Epoch.Apply(st, l);
    forall t: nat | t < |table| ensures Publishes(st'.table[t], table[t]) {
      assert Publishes(st.table[t], table[t]);
    }
  }

  /** A bump in one piece leads from a state between calls to another. */
  lemma BumpReached(n: nat, run: seq<Epoch.Label>, st: Epoch.State, orderly: bool, current: nat, safe: nat,
                    table: seq<seq<nat>>)
    requires Reached(n, run, st, orderly) && Mirrors(st, current, safe, table) && n == |table|
    ensures Epoch.OldestOf(st.table, current) > 0
    ensures var st' := st.(current := current + 1, safe := Epoch.OldestOf(st.table, current) - 1);
            Reached(n, run + Epoch.BumpRun(0, n), st', orderly && Epoch.Clean(st))
              && Mirrors(st', st'.current, st'.safe, table)
  {
    Epoch.ShapedRun(Epoch.Init(n), run);
    Epoch.OldestPositive(st.table, current);
    Epoch.BumpExec(st, 0);
    ReachedMore(n, run, st, orderly, Epoch.BumpRun(0, n));
  }

  class EpochManager {
    var current: nat
    var safe: nat
    /** The epochs each thread has published and not withdrawn, oldest first. */
    var table: seq<seq<nat>>
    ghost var run: seq<Epoch.Label>
    ghost var st: Epoch.State
    ghost var orderly: bool

    ghost predicate Intact()
      reads this
    {
      Reached(|table|, run, st, orderly) && Mirrors(st, current, safe, table)
    }

    ghost predicate Valid()
      reads this
    {
      forall n: nat {:trigger EpochsSeal(n)} :: EpochsSeal(n) ==> Intact()
    }

    constructor (threads: nat)
      ensures Valid() && current == 1 && safe == 0 && |table| == threads && forall t: nat :: t < threads ==>
              table[t] == []
      ensures st == Epoch.Init(threads) && run == [] && orderly
    {
      current, safe, table := 1, 0, seq(threads, _ => []);
      run, st, orderly := [], Epoch.Init(threads), true;
    }

    /** As long as the run is orderly, nothing that a protected reader has read is given back. */
    lemma ReadersAreSafe()
      requires Valid() && orderly
      ensures Epoch.Safe(st) && Epoch.Inv(st)
    {
      assert EpochsSeal(0);
      Epoch.EpochSafety(|table|, run);
      Epoch.InvRun(Epoch.Init(|table|), run);
    }

    lemma Bounds()
      requires Valid()
      ensures safe < current && st.current == current && st.safe == safe && |st.table| == |table|
      ensures forall t: nat :: t < |table| ==> |st.table[t]| == |table[t]|
    {
      assert EpochsSeal(0);
      Epoch.ShapedRun(Epoch.Init(|table|), run);
      forall t: nat | t < |table| ensures |st.table[t]| == |table[t]| { assert Publishes(st.table[t], table[t]); }
    }

    lemma Published()
      requires Valid()
      ensures forall t: nat, j: nat :: t < |st.table| && j < |st.table[t]| ==> 0 < st.table[t][j].epoch <= st.current
    {
      assert EpochsSeal(0);
      Epoch.ShapedRun(Epoch.Init(|table|), run);
    }

    /** Record a step that touches blocks only. */
    ghost method Note(l: Epoch.Label)
      requires Valid() && BlockStep(l) && Epoch.Enabled(st, l)
      modifies this`run, this`st
      ensures Valid() && run == old(run) + [l] && st == Epoch.Apply(old(st), l)
    {
      assert EpochsSeal(0);
      ReachedOne(|table|, run, st, orderly, l);
      MirrorsBlockStep(st, current, safe, table, l);
      run, st := run + [l], Epoch.Apply(st, l);
    }

    /** Load the current epoch and publish it. */
    method Protect(t: nat)
      requires Valid() && t < |table|
      modifies this`table, this`run, this`st
      ensures Valid() && table == old(table)[t := old(table[t]) + [current]]
      ensures run == old(run) + [Epoch.Load(t)] + [Epoch.Publish(t)]
      ensures t < |old(st).table|
              && st == old(st).(table := old(st).table[t := old(st).table[t] + [Epoch.Session(current, map[])]])
    {
      assert EpochsSeal(0);
      assert Publishes(st.table[t], table[t]);
      ghost var st1 := Epoch.Apply(st, Epoch.Load(t));
      ghost var st2 := Epoch.Apply(st1, Epoch.Publish(t));
      ReachedOne(|table|, run, st, orderly, Epoch.Load(t));
      ReachedOne(|table|, run + [Epoch.Load(t)], st1, orderly, Epoch.Publish(t));
      assert st2.loaded == st.loaded;
      forall u: nat | u < |table| ensures Publishes(st.table[u], table[u]) {}
      table := table[t := table[t] + [current]];
      run, st := run + [Epoch.Load(t)] + [Epoch.Publish(t)], st2;
    }

    /** Withdraw the oldest published epoch. */
    method UnProtect(t: nat)
      requires Valid() && t < |table| && table[t] != []
      modifies this`table, this`run, this`st
      ensures Valid() && table == old(table)[t := old(table[t])[1..]] && run == old(run) + [Epoch.Unprotect(t)]
      ensures t < |old(st).table| && |old(st).table[t]| > 0
              && st == old(st).(table := old(st).table[t := old(st).table[t][1..]])
    {
      assert EpochsSeal(0);
      assert Publishes(st.table[t], table[t]);
      ReachedOne(|table|, run, st, orderly, Epoch.Unprotect(t));
      ghost var st' := Epoch.Apply(st, Epoch.Unprotect(t));
      forall u: nat | u < |table| ensures Publishes(st.table[u], table[u]) {}
      table := table[t := table[t][1..]];
      run, st := run + [Epoch.Unprotect(t)], st';
    }

    /** Advance the epoch; every epoch before the oldest one published becomes safe. */
    method BumpCurrentEpoch()
      requires Valid()
      modifies this`current, this`safe, this`run, this`st, this`orderly
      ensures Valid() && current == old(current) + 1 && safe + 1 == Epoch.OldestOf(old(st).table, old(current))
      ensures st == old(st).(current := current, safe := safe) && run == old(run) + Epoch.BumpRun(0, |table|)
      ensures orderly <==> old(orderly) && Epoch.Clean(old(st))
    {
      assert EpochsSeal(0);
      BumpReached(|table|, run, st, orderly, current, safe, table);
      var v := current;
      current := current + 1;
      var oldest := ScanTable(v);
      safe := oldest - 1;
      orderly := orderly && Epoch.Clean(st);
      run, st := run + Epoch.BumpRun(0, |table|), st.(current := current, safe := safe);
    }

    /** The oldest published epoch, or `v`. */
    method ScanTable(v: nat) returns (oldest: nat)
      requires |st.table| == |table| && forall t: nat :: t < |table| ==> Publishes(st.table[t], table[t])
      ensures oldest == Epoch.OldestOf(st.table, v)
    {
      ghost var sessions := st.table;
      oldest := v;
      for i := 0 to |table|
        invariant oldest == Epoch.OldestOf(sessions[..i], v)
      {
        var m := MinEpoch(table[i]);
        MinAgrees(sessions[i], table[i], m);
        assert sessions[..i + 1][..i] == sessions[..i];
        if m != 0 && m < oldest {
          oldest := m;
        }
      }
      assert sessions[..|table|] == sessions;
    }

    predicate IsSafeToReclaim(epoch: nat)
      reads this
    {
      epoch <= safe
    }
  }

  /** What becomes safe is what is older than every published epoch. */
  lemma {:induction false} OldestIsLeast(table: seq<seq<Epoch.Session>>, v: nat)
    requires forall t: nat, j: nat :: t < |table| && j < |table[t]| ==> table[t][j].epoch > 0
    ensures forall t: nat, j: nat :: t < |table| && j < |table[t]| ==> Epoch.OldestOf(table, v) <= table[t][j].epoch
    ensures Epoch.OldestOf(table, v) == v
            || exists t: nat, j: nat :: t < |table| && j < |table[t]| && table[t][j].epoch == Epoch.OldestOf(table, v)
    decreases |table|
  {
    if table != [] {
      var n := |table| - 1;
      var rest := table[..n];
      OldestIsLeast(rest, v);
      var o, m := Epoch.OldestOf(rest, v), Epoch.MinEpoch(table[n]);
      if m != 0 && m < o {
        var j: nat :| j < |table[n]| && table[n][j].epoch == m;
      } else if o != v {
        var t: nat, j: nat :| t < |rest| && j < |rest[t]| && rest[t][j].epoch == o;
        assert table[t][j].epoch == o;
      }
      forall t: nat, j: nat | t < |table| && j < |table[t]| ensures Epoch.OldestOf(table, v) <= table[t][j].epoch {
        if t < n { assert rest[t][j] == table[t][j]; }
      }
    }
  }
}
