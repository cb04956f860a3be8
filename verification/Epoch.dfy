/**
  Epoch-based reclamation as small steps of any number of threads. A reader loads
  the current epoch, publishes it, reads pointers and withdraws the epoch again,
  oldest first. A writer links, unlinks and retires blocks. A bump advances the
  current epoch, scans the thread table entry by entry and stores what is safe.
 */
module Epoch {
  import opened Options
  import Chunks

  type Block = Chunks.Block

  /** A published epoch, and the blocks read under it, each with the epoch at which it was read. */
  datatype Session = Session(epoch: nat, holds: map<Block, nat>)

  /** A bump that took epoch `v` and has scanned the entries below `next`. */
  datatype Scan = Scan(v: nat, next: nat, oldest: nat)

  datatype State = State(
    current: nat, safe: nat,
    loaded: seq<Option<nat>>,
    table: seq<seq<Session>>,
    scans: map<nat, Scan>,
    linked: set<Block>, retired: map<Block, nat>, busy: set<Block>)

  datatype Label =
    | Load(t: nat)
    | Publish(t: nat)
    | Read(t: nat, j: nat, p: Block)
    | Unprotect(t: nat)
    | BumpStart(b: nat)
    | BumpScan(b: nat)
    | BumpStore(b: nat)
    | Link(p: Block)
    | Unlink(p: Block)
    | Retire(p: Block)
    | Free(p: Block)

  function Init(n: nat): State {
    State(1, 0, seq(n, _ => None), seq(n, _ => []), map[], {}, map[], {})
  }

  /** The smallest published epoch of an entry, 0 if there is none. */
  function MinEpoch(entry: seq<Session>): (r: nat)
    ensures entry == [] ==> r == 0
    ensures entry != [] ==> exists j: nat :: j < |entry| && entry[j].epoch == r
    ensures forall j: nat :: j < |entry| ==> r <= entry[j].epoch
  {
    if entry == [] then 0
    else if |entry| == 1 then entry[0].epoch
    else
      var r := MinEpoch(entry[1..]);
      assert forall j: nat :: 0 < j < |entry| ==> entry[j] == entry[1..][j - 1];
      if entry[0].epoch <= r then entry[0].epoch else r
  }

  predicate Enabled(st: State, l: Label) {
    match l
    case Load(t) => t < |st.loaded| && st.loaded[t].None?
    case Publish(t) => t < |st.loaded| && t < |st.table| && st.loaded[t].Some?
    case Read(t, j, p) => t < |st.table| && j < |st.table[t]| && p in st.linked
    case Unprotect(t) => t < |st.table| && st.table[t] != []
    case BumpStart(b) => b !in st.scans
    case BumpScan(b) => b in st.scans && st.scans[b].next < |st.table|
    case BumpStore(b) => b in st.scans && st.scans[b].next == |st.table| && st.scans[b].oldest > 0
    case Link(p) => p !in st.busy
    case Unlink(p) => p in st.linked
    case Retire(p) => p in st.busy && p !in st.retired
    case Free(p) => p in st.retired && st.retired[p] <= st.safe
  }

  function Scanned(s: Scan, entry: seq<Session>): Scan {
    var m := MinEpoch(entry);
    Scan(s.v, s.next + 1, if m != 0 && m < s.oldest then m else s.oldest)
  }

  function Apply(st: State, l: Label): State
    requires Enabled(st, l)
  {
    match l
    case Load(t) => st.(loaded := st.loaded[t := Some(st.current)])
    case Publish(t) => st.(loaded := st.loaded[t := None],
                           table := st.table[t := st.table[t] + [Session(st.loaded[t].value, map[])]])
    case Read(t, j, p) =>
      var s := st.table[t][j];
      st.(table := st.table[t := st.table[t][j := s.(holds := s.holds[p := st.current])]])
    case Unprotect(t) => st.(table := st.table[t := st.table[t][1..]])
    case BumpStart(b) => st.(current := st.current + 1, scans := st.scans[b := Scan(st.current, 0, st.current)])
    case BumpScan(b) => st.(scans := st.scans[b := Scanned(st.scans[b], st.table[st.scans[b].next])])
    case BumpStore(b) => st.(safe := st.scans[b].oldest - 1, scans := st.scans - {b})
    case Link(p) => st.(linked := st.linked + {p}, busy := st.busy + {p})
    case Unlink(p) => st.(linked := st.linked - {p})
    case Retire(p) => st.(retired := st.retired[p := st.current])
    case Free(p) => st.(retired := st.retired - {p}, busy := st.busy - {p})
  }

  predicate Legal(st: State, ls: seq<Label>)
    decreases |ls|
  {
    ls == [] || (Enabled(st, ls[0]) && Legal(Apply(st, ls[0]), ls[1..]))
  }

  function Exec(st: State, ls: seq<Label>): State
    requires Legal(st, ls)
    decreases |ls|
  {
    if ls == [] then st else Exec(Apply(st, ls[0]), ls[1..])
  }

  /** No block is retired while readers can still find it. */
  ghost predicate Clean(st: State) {
    forall p :: p in st.linked ==> p !in st.retired
  }

  /** The epoch never advances between the retirement of a block and its unlinking. */
  ghost predicate Disciplined(st: State, ls: seq<Label>)
    requires Legal(st, ls)
    decreases |ls|
  {
    ls == [] || ((ls[0].BumpStart? ==> Clean(st)) && Disciplined(Apply(st, ls[0]), ls[1..]))
  }

  /** Disciplined runs can be put together. */
  lemma {:induction false} DisciplinedJoin(st: State, ls: seq<Label>, ms: seq<Label>)
    requires Legal(st, ls) && Legal(Exec(st, ls), ms)
    ensures Legal(st, ls + ms) && (Disciplined(st, ls + ms) <==> Disciplined(st, ls) && Disciplined(Exec(st, ls), ms))
    decreases |ls|
  {
    ExecJoin(st, ls, ms);
    if ls == [] {
      assert ls + ms == ms;
    } else {
      DisciplinedJoin(Apply(st, ls[0]), ls[1..], ms);
      assert (ls + ms)[0] == ls[0] && (ls + ms)[1..] == ls[1..] + ms;
    }
  }

  lemma DisciplinedOne(st: State, l: Label)
    requires Enabled(st, l)
    ensures Legal(st, [l]) && (Disciplined(st, [l]) <==> (l.BumpStart? ==> Clean(st)))
  {
    ExecOne(st, l);
    assert Disciplined(Apply(st, l), [l][1..]);
  }

  // ---- A whole bump ----

  /** The oldest of `v` and the published epochs. */
  function OldestOf(table: seq<seq<Session>>, v: nat): (r: nat)
    ensures r <= v
  {
    if table == [] then v else
      var n := |table| - 1;
      Scanned(Scan(v, 0, OldestOf(table[..n], v)), table[n]).oldest
  }

  function Scans(b: nat, i: nat): seq<Label> {
    seq(i, _ => BumpScan(b))
  }

  /** A bump that nobody interrupts. */
  function BumpRun(b: nat, n: nat): seq<Label> {
    [BumpStart(b)] + Scans(b, n) + [BumpStore(b)]
  }

  lemma {:induction false} ScansExec(st: State, b: nat, v: nat, i: nat)
    requires b in st.scans && st.scans[b] == Scan(v, 0, v) && i <= |st.table|
    ensures Legal(st, Scans(b, i))
            && Exec(st, Scans(b, i)) == st.(scans := st.scans[b := Scan(v, i, OldestOf(st.table[..i], v))])
    decreases i
  {
    if i == 0 {
      assert Scans(b, 0) == [] && st.scans[b := Scan(v, 0, v)] == st.scans;
    } else {
      ScansExec(st, b, v, i - 1);
      var st' := Exec(st, Scans(b, i - 1));
      ExecOne(st', BumpScan(b));
      ExecJoin(st, Scans(b, i - 1), [BumpScan(b)]);
      assert Scans(b, i - 1) + [BumpScan(b)] == Scans(b, i);
      assert st.table[..i][..i - 1] == st.table[..i - 1] && st.table[..i][i - 1] == st.table[i - 1];
    }
  }

  /** It makes every epoch before the oldest published one safe. */
  lemma BumpExec(st: State, b: nat)
    requires b !in st.scans && OldestOf(st.table, st.current) > 0
    ensures Legal(st, BumpRun(b, |st.table|))
    ensures Exec(st, BumpRun(b, |st.table|))
            == st.(current := st.current + 1, safe := OldestOf(st.table, st.current) - 1)
    ensures Disciplined(st, BumpRun(b, |st.table|)) <==> Clean(st)
  {
    var n, s1 := |st.table|, Apply(st, BumpStart(b));
    ExecOne(st, BumpStart(b));
    ScansExec(s1, b, st.current, n);
    assert st.table[..n] == st.table;
    var s2 := Exec(s1, Scans(b, n));
    ExecOne(s2, BumpStore(b));
    assert Apply(s2, BumpStore(b)).scans == st.scans;
    ExecJoin(st, [BumpStart(b)], Scans(b, n));
    ExecJoin(st, [BumpStart(b)] + Scans(b, n), [BumpStore(b)]);
    DisciplinedOne(st, BumpStart(b));
    DisciplinedJoin(st, [BumpStart(b)], Scans(b, n));
    ScansDisciplined(s1, Scans(b, n));
    DisciplinedJoin(st, [BumpStart(b)] + Scans(b, n), [BumpStore(b)]);
    DisciplinedOne(s2, BumpStore(b));
  }

  lemma {:induction false} ScansDisciplined(st: State, ls: seq<Label>)
    requires Legal(st, ls) && forall i: nat :: i < |ls| ==> !ls[i].BumpStart?
    ensures Disciplined(st, ls)
    decreases |ls|
  {
    if ls != [] { ScansDisciplined(Apply(st, ls[0]), ls[1..]); }
  }

  lemma {:induction false} OldestPositive(table: seq<seq<Session>>, v: nat)
    requires v > 0
    ensures OldestOf(table, v) > 0
    decreases |table|
  {
    if table != [] { OldestPositive(table[..|table| - 1], v); }
  }

  lemma {:induction false} ExecJoin(st: State, ls: seq<Label>, ms: seq<Label>)
    requires Legal(st, ls) && Legal(Exec(st, ls), ms)
    ensures Legal(st, ls + ms) && Exec(st, ls + ms) == Exec(Exec(st, ls), ms)
    decreases |ls|
  {
    if ls == [] {
      assert ls + ms == ms;
    } else {
      ExecJoin(Apply(st, ls[0]), ls[1..], ms);
      assert (ls + ms)[0] == ls[0] && (ls + ms)[1..] == ls[1..] + ms;
    }
  }

  lemma ExecOne(st: State, l: Label)
    requires Enabled(st, l)
    ensures Legal(st, [l]) && Exec(st, [l]) == Apply(st, l)
  {
    assert Exec(Apply(st, l), [l][1..]) == Apply(st, l);
  }

  /** No reader holds a block that was given back. */
  ghost predicate Safe(st: State) {
    forall t: nat, j: nat, p :: t < |st.table| && j < |st.table[t]| && p in st.table[t][j].holds ==> p in st.busy
  }

  // ---- What every run keeps ----

  ghost predicate ScanOk(st: State, s: Scan) {
    0 < s.oldest <= s.v < st.current && s.next <= |st.table|
  }

  ghost predicate Shaped(st: State) {
    && st.safe < st.current && |st.loaded| == |st.table|
    && (forall b :: b in st.scans ==> ScanOk(st, st.scans[b]))
    && (forall t: nat :: t < |st.loaded| && st.loaded[t].Some? ==> 0 < st.loaded[t].value <= st.current)
    && (forall t: nat, j: nat :: t < |st.table| && j < |st.table[t]| ==> 0 < st.table[t][j].epoch <= st.current)
    && st.retired.Keys <= st.busy
    && (forall p :: p in st.retired ==> st.retired[p] <= st.current)
  }

  lemma ShapedStep(st: State, l: Label)
    requires Shaped(st) && Enabled(st, l)
    ensures Shaped(Apply(st, l))
  {
    var st' := Apply(st, l);
    match l
    case Unprotect(t) =>
      forall u: nat, j: nat | u < |st'.table| && j < |st'.table[u]| ensures 0 < st'.table[u][j].epoch <= st'.current {
        if u == t { assert st'.table[t][j] == st.table[t][j + 1]; }
      }
    case BumpScan(b) => assert ScanOk(st, st.scans[b]);
    case _ =>
  }

  /** What holds of a block that session `s` of thread `t` has read at epoch `a`. */
  ghost predicate HoldOk(st: State, t: nat, s: Session, p: Block)
    requires p in s.holds
  {
    var a := s.holds[p];
    && p in st.busy && s.epoch <= a <= st.current && st.safe < a
    && (p in st.retired ==> a <= st.retired[p])
    && (forall b :: b in st.scans ==> st.scans[b].next <= t || st.scans[b].oldest <= a)
  }

  ghost predicate Inv(st: State) {
    && Shaped(st) && st.linked <= st.busy
    && (forall p :: p in st.linked && p in st.retired ==> st.retired[p] == st.current)
    && (forall t: nat, j: nat, p :: t < |st.table| && j < |st.table[t]| && p in st.table[t][j].holds ==>
        HoldOk(st, t, st.table[t][j], p))
  }

  lemma InvStep(st: State, l: Label)
    requires Inv(st) && Enabled(st, l) && (l.BumpStart? ==> Clean(st))
    ensures Inv(Apply(st, l))
  {
    var st' := Apply(st, l);
    ShapedStep(st, l);
    forall t: nat, j: nat, p | t < |st'.table| && j < |st'.table[t]| && p in st'.table[t][j].holds
      ensures HoldOk(st', t, st'.table[t][j], p)
    {
      match l
      case Unprotect(u) => HoldKept(st, l, t, if t == u then j + 1 else j, p);
      case Publish(u) => HoldKept(st, l, t, j, p);
      case Read(u, i, q) => if t == u && j == i && p == q { HoldTaken(st, t, j, p); } else { HoldKept(st, l, t, j, p); }
      case _ => HoldKept(st, l, t, j, p);
    }
  }

  lemma HoldTaken(st: State, t: nat, j: nat, p: Block)
    requires Inv(st) && Enabled(st, Read(t, j, p))
    ensures HoldOk(Apply(st, Read(t, j, p)), t, Apply(st, Read(t, j, p)).table[t][j], p)
  {
    assert forall b :: b in st.scans ==> ScanOk(st, st.scans[b]);
  }

  /** A hold stays good, whatever step is taken. */
  lemma HoldKept(st: State, l: Label, t: nat, j: nat, p: Block)
    requires Inv(st) && Enabled(st, l) && (l.BumpStart? ==> Clean(st))
    requires t < |st.table| && j < |st.table[t]| && p in st.table[t][j].holds
    ensures HoldOk(Apply(st, l), t, st.table[t][j], p)
  {
    var s := st.table[t][j];
    assert HoldOk(st, t, s, p);
    var st' := Apply(st, l);
    forall b | b in st'.scans ensures st'.scans[b].next <= t || st'.scans[b].oldest <= s.holds[p] {
      if l == BumpStart(b) {
      } else if l == BumpScan(b) {
        assert st.scans[b].next <= t || st.scans[b].oldest <= s.holds[p];
        if st.scans[b].next == t { assert MinEpoch(st.table[t]) <= s.epoch && 0 < s.epoch; }
      } else {
        assert st.scans[b].next <= t || st.scans[b].oldest <= s.holds[p];
      }
    }
  }

  lemma {:induction false} InvRun(st: State, ls: seq<Label>)
    requires Inv(st) && Legal(st, ls) && Disciplined(st, ls)
    ensures Inv(Exec(st, ls))
    decreases |ls|
  {
    if ls != [] {
      InvStep(st, ls[0]);
      InvRun(Apply(st, ls[0]), ls[1..]);
    }
  }

  lemma {:induction false} ShapedRun(st: State, ls: seq<Label>)
    requires Shaped(st) && Legal(st, ls)
    ensures Shaped(Exec(st, ls))
    decreases |ls|
  {
    if ls != [] {
      ShapedStep(st, ls[0]);
      ShapedRun(Apply(st, ls[0]), ls[1..]);
    }
  }

  /**
    Epoch safety: however the steps of readers, writers and bumps interleave, a block
    is not given back while a reader that read it is still protected, provided the
    epoch does not advance between a block's retirement and its unlinking.
   */
  lemma EpochSafety(n: nat, ls: seq<Label>)
    requires Legal(Init(n), ls) && Disciplined(Init(n), ls)
    ensures Safe(Exec(Init(n), ls))
  {
    InvRun(Init(n), ls);
  }

  /** Retiring only what is unlinked is one way to keep the discipline. */
  ghost predicate UnlinksFirst(st: State, ls: seq<Label>)
    requires Legal(st, ls)
    decreases |ls|
  {
    ls == [] || ((ls[0].Retire? ==> ls[0].p !in st.linked) && UnlinksFirst(Apply(st, ls[0]), ls[1..]))
  }

  lemma {:induction false} UnlinkingFirstIsDisciplined(st: State, ls: seq<Label>)
    requires Shaped(st) && Clean(st) && Legal(st, ls) && UnlinksFirst(st, ls)
    ensures Disciplined(st, ls)
    decreases |ls|
  {
    if ls != [] {
      ShapedStep(st, ls[0]);
      UnlinkingFirstIsDisciplined(Apply(st, ls[0]), ls[1..]);
    }
  }

  // ---- The discipline is needed ----

  /** `st'` can be reached from `st`. */
  ghost predicate Reaches(st: State, st': State) {
    exists ls :: Legal(st, ls) && Exec(st, ls) == st'
  }

  lemma ReachesStep(st: State, st': State, l: Label)
    requires Reaches(st, st') && Enabled(st', l)
    ensures Reaches(st, Apply(st', l))
  {
    var ls :| Legal(st, ls) && Exec(st, ls) == st';
    ExecOne(st', l);
    ExecJoin(st, ls, [l]);
  }

  lemma ReachesSelf(st: State)
    ensures Reaches(st, st)
  {
    assert Legal(st, []) && Exec(st, []) == st;
  }

  /** All readers may withdraw. */
  lemma {:induction false} Withdraw(st0: State, st: State, t: nat) returns (st': State)
    requires Reaches(st0, st) && t <= |st.table| && forall u: nat :: t <= u < |st.table| ==> st.table[u] == []
    ensures Reaches(st0, st') && st' == st.(table := st'.table) && |st'.table| == |st.table|
    ensures forall u: nat :: u < |st.table| ==> st'.table[u] == []
    decreases t, if t > 0 then |st.table[t - 1]| else 0
  {
    if t == 0 {
      st' := st;
    } else if st.table[t - 1] == [] {
      st' := Withdraw(st0, st, t - 1);
    } else {
      ReachesStep(st0, st, Unprotect(t - 1));
      st' := Withdraw(st0, Apply(st, Unprotect(t - 1)), t);
    }
  }

  /** With one reader of the current epoch, a bump comes out with that epoch. */
  lemma {:induction false} ScanAll(st0: State, st: State, b: nat) returns (st': State)
    requires Reaches(st0, st) && b in st.scans && st.scans[b].next <= |st.table| && 0 < st.scans[b].oldest
    requires forall t: nat, j: nat :: t < |st.table| && j < |st.table[t]| ==> st.scans[b].oldest <= st.table[t][j].epoch
    ensures Reaches(st0, st') && b in st'.scans && st' == st.(scans := st'.scans)
    ensures st'.scans[b] == st.scans[b].(next := |st.table|)
    decreases |st.table| - st.scans[b].next
  {
    if st.scans[b].next == |st.table| {
      st' := st;
    } else {
      var entry := st.table[st.scans[b].next];
      if entry != [] { var j: nat :| j < |entry| && entry[j].epoch == MinEpoch(entry); }
      ReachesStep(st0, st, BumpScan(b));
      st' := ScanAll(st0, Apply(st, BumpScan(b)), b);
    }
  }

  /** A thread that is not protected protects itself and reads block `p`. */
  lemma TakeHold(st0: State, st: State, p: Block) returns (st': State)
    requires Reaches(st0, st) && Shaped(st) && |st.table| > 0 && p in st.linked
    requires forall t: nat :: t < |st.table| ==> st.table[t] == []
    ensures Reaches(st0, st') && st' == st.(table := st'.table, loaded := st'.loaded) && |st'.table| == |st.table|
    ensures |st'.table[0]| == 1 && st'.table[0][0].epoch == st.current && p in st'.table[0][0].holds
    ensures forall t: nat :: 0 < t < |st.table| ==> st'.table[t] == []
  {
    var s1 := st;
    if st.loaded[0].Some? {
      ReachesStep(st0, st, Publish(0));
      ReachesStep(st0, Apply(st, Publish(0)), Unprotect(0));
      s1 := Apply(Apply(st, Publish(0)), Unprotect(0));
      assert ([] + [Session(st.loaded[0].value, map[])])[1..] == [];
      assert s1.table == st.table;
    }
    ReachesStep(st0, s1, Load(0));
    var s2 := Apply(s1, Load(0));
    ReachesStep(st0, s2, Publish(0));
    var s3 := Apply(s2, Publish(0));
    ReachesStep(st0, s3, Read(0, 0, p));
    st' := Apply(s3, Read(0, 0, p));
  }

  /** A bump that finds only readers of the current epoch makes every earlier epoch safe. */
  lemma BumpThrough(st0: State, st: State) returns (st': State)
    requires Reaches(st0, st) && 0 < st.current
    requires forall t: nat, j: nat :: t < |st.table| && j < |st.table[t]| ==> st.table[t][j].epoch == st.current
    ensures Reaches(st0, st') && st' == st.(current := st'.current, safe := st.current - 1, scans := st'.scans)
  {
    var b := Unused(st.scans.Keys);
    ReachesStep(st0, st, BumpStart(b));
    var s1 := ScanAll(st0, Apply(st, BumpStart(b)), b);
    ReachesStep(st0, s1, BumpStore(b));
    st' := Apply(s1, BumpStore(b));
  }

  /**
    Once the epoch has advanced past the retirement of a block that is still linked,
    safety is lost: some continuation gives the block back under a reader's hands.
   */
  lemma LateUnlinkIsUnsafe(st: State, p: Block)
    requires Shaped(st) && |st.table| > 0 && p in st.linked && p in st.retired && st.retired[p] < st.current
    ensures exists st' :: Reaches(st, st') && !Safe(st')
  {
    ReachesSelf(st);
    var s1 := Withdraw(st, st, |st.table|);
    var s := TakeHold(st, s1, p);
    ReachesStep(st, s, Unlink(p));
    var s2 := Apply(s, Unlink(p));
    var s3 := BumpThrough(st, s2);
    ReachesStep(st, s3, Free(p));
    var s4 := Apply(s3, Free(p));
    assert p in s4.table[0][0].holds && p !in s4.busy;
    assert Reaches(st, s4) && !Safe(s4);
  }

  /** The discipline cannot be relaxed: any bump that breaks it opens the way to an unsafe state. */
  lemma BumpBetweenIsUnsafe(n: nat, ls: seq<Label>, b: nat)
    requires n > 0 && Legal(Init(n), ls) && Enabled(Exec(Init(n), ls), BumpStart(b)) && !Clean(Exec(Init(n), ls))
    ensures exists st' :: Reaches(Apply(Exec(Init(n), ls), BumpStart(b)), st') && !Safe(st')
  {
    var st := Exec(Init(n), ls);
    ShapedRun(Init(n), ls);
    ShapedStep(st, BumpStart(b));
    SizeRun(Init(n), ls);
    var p :| p in st.linked && p in st.retired;
    LateUnlinkIsUnsafe(Apply(st, BumpStart(b)), p);
  }

  lemma {:induction false} SizeRun(st: State, ls: seq<Label>)
    requires Legal(st, ls)
    ensures |Exec(st, ls).table| == |st.table|
    decreases |ls|
  {
    if ls != [] { SizeRun(Apply(st, ls[0]), ls[1..]); }
  }

  lemma ExecCons(st: State, l: Label, ls: seq<Label>)
    requires Enabled(st, l) && Legal(Apply(st, l), ls)
    ensures Legal(st, [l] + ls) && Exec(st, [l] + ls) == Exec(Apply(st, l), ls)
  {
    assert ([l] + ls)[1..] == ls;
  }

  lemma ExecFour(st: State, a: Label, b: Label, c: Label, d: Label)
    requires Enabled(st, a) && Enabled(Apply(st, a), b) && Enabled(Apply(Apply(st, a), b), c)
             && Enabled(Apply(Apply(Apply(st, a), b), c), d)
    ensures Legal(st, [a, b, c, d]) && Exec(st, [a, b, c, d]) == Apply(Apply(Apply(Apply(st, a), b), c), d)
  {
    var s1, s2, s3 := Apply(st, a), Apply(Apply(st, a), b), Apply(Apply(Apply(st, a), b), c);
    ExecOne(s3, d);
    ExecCons(s2, c, [d]);
    ExecCons(s1, b, [c] + [d]);
    ExecCons(st, a, [b] + ([c] + [d]));
    assert [a] + ([b] + ([c] + [d])) == [a, b, c, d];
  }

  lemma ReaderBetween(s1: State, s2: State, p: Block)
    requires s1 == State(2, 0, [None], [[]], map[], {p}, map[p := 1], {p})
    requires s2 == State(2, 0, [None], [[Session(2, map[p := 2])]], map[], {}, map[p := 1], {p})
    ensures var ls := [Load(0), Publish(0), Read(0, 0, p), Unlink(p)];
            Legal(s1, ls) && Exec(s1, ls) == s2
  {
    ExecFour(s1, Load(0), Publish(0), Read(0, 0, p), Unlink(p));
    var s := Apply(Apply(Apply(Apply(s1, Load(0)), Publish(0)), Read(0, 0, p)), Unlink(p));
    assert s.table[0] == s2.table[0];
    assert s.table == s2.table && s.loaded == s2.loaded && s.linked == s2.linked;
  }

  /**
    The order in which an update of a stored key takes its steps: the old block is
    retired, every thousandth time the epoch is bumped, and only then is the pointer
    overwritten. A reader that comes in between loses its block at the next bump.
   */
  lemma UpdateOrderIsUnsafe(p: Block)
    ensures var ls := [Link(p)] + [Retire(p), BumpStart(0), BumpScan(0), BumpStore(0)]
                      + [Load(0), Publish(0), Read(0, 0, p), Unlink(p)]
                      + [BumpStart(0), BumpScan(0), BumpStore(0), Free(p)];
            Legal(Init(1), ls) && !Safe(Exec(Init(1), ls))
  {
    var s0 := Apply(Init(1), Link(p));
    ExecOne(Init(1), Link(p));
    ExecFour(s0, Retire(p), BumpStart(0), BumpScan(0), BumpStore(0));
    var s1 := State(2, 0, [None], [[]], map[], {p}, map[p := 1], {p});
    assert Exec(s0, [Retire(p), BumpStart(0), BumpScan(0), BumpStore(0)]) == s1;
    var s2 := State(2, 0, [None], [[Session(2, map[p := 2])]], map[], {}, map[p := 1], {p});
    ReaderBetween(s1, s2, p);
    ExecFour(s2, BumpStart(0), BumpScan(0), BumpStore(0), Free(p));
    var s3 := Exec(s2, [BumpStart(0), BumpScan(0), BumpStore(0), Free(p)]);
    assert p in s3.table[0][0].holds && p !in s3.busy;
    ExecJoin(Init(1), [Link(p)], [Retire(p), BumpStart(0), BumpScan(0), BumpStore(0)]);
    ExecJoin(Init(1), [Link(p)] + [Retire(p), BumpStart(0), BumpScan(0), BumpStore(0)],
             [Load(0), Publish(0), Read(0, 0, p), Unlink(p)]);
    ExecJoin(Init(1), [Link(p)] + [Retire(p), BumpStart(0), BumpScan(0), BumpStore(0)]
             + [Load(0), Publish(0), Read(0, 0, p), Unlink(p)],
             [BumpStart(0), BumpScan(0), BumpStore(0), Free(p)]);
  }

  /**
    A bump by anybody between the retirement of a linked block and its unlinking is such
    a bump: from there some continuation gives the block back under a reader's hands.
   */
  lemma ForeignBumpIsUnsafe(n: nat, ls: seq<Label>, p: Block, b: nat)
    requires n > 0 && Legal(Init(n), ls) && p in Exec(Init(n), ls).linked
    requires Legal(Exec(Init(n), ls), [Retire(p), BumpStart(b)])
    ensures var run := ls + [Retire(p), BumpStart(b)];
            Legal(Init(n), run) && exists st' :: Reaches(Exec(Init(n), run), st') && !Safe(st')
  {
    var st := Exec(Init(n), ls);
    ExecOne(st, Retire(p));
    ExecJoin(Init(n), ls, [Retire(p)]);
    assert [Retire(p), BumpStart(b)] == [Retire(p)] + [BumpStart(b)];
    assert [Retire(p), BumpStart(b)][1..] == [BumpStart(b)];
    assert p in Apply(st, Retire(p)).linked && p in Apply(st, Retire(p)).retired;
    BumpBetweenIsUnsafe(n, ls + [Retire(p)], b);
    ExecOne(Apply(st, Retire(p)), BumpStart(b));
    ExecJoin(Init(n), ls + [Retire(p)], [BumpStart(b)]);
    assert ls + [Retire(p)] + [BumpStart(b)] == ls + [Retire(p), BumpStart(b)];
  }

  lemma {:induction false} NobodyIsOlder(table: seq<seq<Session>>, v: nat)
    requires forall t: nat, j: nat :: t < |table| && j < |table[t]| ==> 0 < table[t][j].epoch
    ensures forall t: nat, j: nat :: t < |table| && j < |table[t]| ==> OldestOf(table, v) <= table[t][j].epoch
    decreases |table|
  {
    if table != [] {
      var n := |table| - 1;
      NobodyIsOlder(table[..n], v);
      forall t: nat, j: nat | t < |table| && j < |table[t]| ensures OldestOf(table, v) <= table[t][j].epoch {
        if t < n { assert table[..n][t] == table[t]; }
      }
    }
  }

  lemma {:induction false} NobodyIsOld(table: seq<seq<Session>>, v: nat)
    requires forall t: nat :: t < |table| ==> table[t] == []
    ensures OldestOf(table, v) == v
    decreases |table|
  {
    if table != [] { NobodyIsOld(table[..|table| - 1], v); }
  }

  /**
    With no reader protected, two bumps by others are enough to free a block between
    its retirement and the end of the same call.
   */
  lemma ForeignBumpsFree(st: State, p: Block, b: nat)
    requires p in st.busy && p !in st.retired && b !in st.scans && st.current > 0
    requires forall t: nat :: t < |st.table| ==> st.table[t] == []
    ensures var bump := BumpRun(b, |st.table|);
            && Legal(st, [Retire(p)] + bump + bump + [Free(p)])
            && p !in Exec(st, [Retire(p)] + bump + bump + [Free(p)]).busy
  {
    var bump := BumpRun(b, |st.table|);
    ExecOne(st, Retire(p));
    var s1 := Apply(st, Retire(p));
    NobodyIsOld(s1.table, s1.current);
    BumpExec(s1, b);
    ExecJoin(st, [Retire(p)], bump);
    var s2 := Exec(s1, bump);
    NobodyIsOld(s2.table, s2.current);
    BumpExec(s2, b);
    ExecJoin(st, [Retire(p)] + bump, bump);
    var s3 := Exec(s2, bump);
    ExecOne(s3, Free(p));
    ExecJoin(st, [Retire(p)] + bump + bump, [Free(p)]);
  }

  // ---- What the steps of a run have seen ----

  /** The last step of a run, and the run before it. */
  lemma {:induction false} LastStep(st: State, ls: seq<Label>)
    requires Legal(st, ls) && ls != []
    ensures var k := |ls| - 1;
            Legal(st, ls[..k]) && Enabled(Exec(st, ls[..k]), ls[k]) && Exec(st, ls) == Apply(Exec(st, ls[..k]), ls[k])
    decreases |ls|
  {
    var k := |ls| - 1;
    if k > 0 {
      LastStep(Apply(st, ls[0]), ls[1..]);
      assert ls[1..][..k - 1] == ls[..k][1..];
    }
  }

  lemma {:induction false} PrefixLegal(st: State, ls: seq<Label>, i: nat)
    requires Legal(st, ls) && i <= |ls|
    ensures Legal(st, ls[..i])
    decreases |ls|
  {
    if i < |ls| {
      LastStep(st, ls);
      PrefixLegal(st, ls[..|ls| - 1], i);
      assert ls[..|ls| - 1][..i] == ls[..i];
    } else {
      assert ls[..i] == ls;
    }
  }

  /** The state after the first `i` steps of a run; the state before all if there are not so many. */
  ghost function Moment(st: State, ls: seq<Label>, i: nat): State {
    if i <= |ls| && Legal(st, ls[..i]) then Exec(st, ls[..i]) else st
  }

  lemma MomentBefore(st: State, ls: seq<Label>, k: nat, i: nat)
    requires Legal(st, ls) && i <= k <= |ls|
    ensures Moment(st, ls[..k], i) == Moment(st, ls, i)
  {
    assert ls[..k][..i] == ls[..i];
  }

  /** When thread `t` last loaded the epoch; -1 if never. */
  function LastLoad(ls: seq<Label>, t: nat): (r: int)
    ensures -1 <= r < |ls| && (r >= 0 ==> ls[r] == Load(t))
    ensures forall i: nat :: r < i < |ls| ==> ls[i] != Load(t)
  {
    if ls == [] then -1 else
      var k := |ls| - 1;
      if ls[k] == Load(t) then k else LastLoad(ls[..k], t)
  }

  lemma {:induction false} LoadedThen(n: nat, ls: seq<Label>, t: nat)
    requires Legal(Init(n), ls) && t < |Exec(Init(n), ls).loaded| && Exec(Init(n), ls).loaded[t].Some?
    ensures LastLoad(ls, t) >= 0
    ensures Exec(Init(n), ls).loaded[t].value == Moment(Init(n), ls, LastLoad(ls, t)).current
    decreases |ls|
  {
    var k := |ls| - 1;
    LastStep(Init(n), ls);
    PrefixLegal(Init(n), ls, k);
    if ls[k] != Load(t) {
      LoadedThen(n, ls[..k], t);
      MomentBefore(Init(n), ls, k, LastLoad(ls, t));
    }
  }

  /**
    A thread publishes the epoch that it loaded last, however many bumps there were in
    between; nothing else changes.
   */
  lemma PublishesLoaded(n: nat, ls: seq<Label>, t: nat)
    requires Legal(Init(n), ls + [Publish(t)])
    ensures LastLoad(ls, t) >= 0 && Legal(Init(n), ls) && t < |Exec(Init(n), ls).table|
    ensures var st, st' := Exec(Init(n), ls), Exec(Init(n), ls + [Publish(t)]);
            && st'.table == st.table[t := st.table[t] + [Session(Moment(Init(n), ls, LastLoad(ls, t)).current, map[])]]
            && st' == st.(table := st'.table, loaded := st'.loaded)
  {
    var run := ls + [Publish(t)];
    LastStep(Init(n), run);
    assert run[..|run| - 1] == ls;
    LoadedThen(n, ls, t);
  }

  function Bumps(k: nat, n: nat): seq<Label> {
    if k == 0 then [] else Bumps(k - 1, n) + BumpRun(0, n)
  }

  lemma {:induction false} BumpsExec(st: State, k: nat)
    requires st.scans == map[] && st.current > 0 && forall t: nat :: t < |st.table| ==> st.table[t] == []
    ensures Legal(st, Bumps(k, |st.table|))
    ensures var st' := Exec(st, Bumps(k, |st.table|)); st' == st.(current := st.current + k, safe := st'.safe)
  {
    if k > 0 {
      BumpsExec(st, k - 1);
      var st1 := Exec(st, Bumps(k - 1, |st.table|));
      NobodyIsOld(st1.table, st1.current);
      BumpExec(st1, 0);
      ExecJoin(st, Bumps(k - 1, |st.table|), BumpRun(0, |st.table|));
    }
  }

  /** A session may be any number of epochs behind when it is published. */
  lemma PublishesLate(n: nat, k: nat)
    requires n > 0
    ensures var ls := [Load(0)] + Bumps(k, n) + [Publish(0)];
            && Legal(Init(n), ls) && Exec(Init(n), ls).current == 1 + k
            && |Exec(Init(n), ls).table| == n && Exec(Init(n), ls).table[0] == [Session(1, map[])]
  {
    ExecOne(Init(n), Load(0));
    var st := Apply(Init(n), Load(0));
    BumpsExec(st, k);
    ExecJoin(Init(n), [Load(0)], Bumps(k, n));
    var st' := Exec(st, Bumps(k, n));
    ExecOne(st', Publish(0));
    ExecJoin(Init(n), [Load(0)] + Bumps(k, n), [Publish(0)]);
  }

  /** The oldest of the epoch `v` and the epochs in these entries. */
  ghost predicate IsOldest(v: nat, entries: seq<seq<Session>>, oldest: nat) {
    && oldest <= v
    && (forall t: nat, j: nat :: t < |entries| && j < |entries[t]| ==> oldest <= entries[t][j].epoch)
    && (oldest == v || exists t: nat, j: nat :: t < |entries| && j < |entries[t]| && entries[t][j].epoch == oldest)
  }

  ghost predicate Goes(st: State, l: Label, st': State) {
    // A single case, so that the predicate stays folded where it is only passed on.
    match st
    case State(_, _, _, _, _, _, _, _) => Enabled(st, l) && st' == Apply(st, l)
  }

  /** The states that a run of `n` threads goes through. */
  ghost predicate Trace(n: nat, ls: seq<Label>, sts: seq<State>) {
    && |sts| == |ls| + 1 && sts[0] == Init(n)
    && forall i: nat {:trigger ls[i]} :: i < |ls| ==> Goes(sts[i], ls[i], sts[i + 1])
  }

  /** Every legal run has them. */
  lemma {:induction false} TraceOf(n: nat, ls: seq<Label>) returns (sts: seq<State>)
    requires Legal(Init(n), ls)
    ensures Trace(n, ls, sts) && sts[|ls|] == Exec(Init(n), ls)
    decreases |ls|
  {
    if ls == [] {
      sts := [Init(n)];
    } else {
      var k := |ls| - 1;
      LastStep(Init(n), ls);
      sts := TraceOf(n, ls[..k]);
      sts := sts + [Exec(Init(n), ls)];
      forall i: nat {:trigger ls[i]} | i < |ls| ensures Goes(sts[i], ls[i], sts[i + 1]) {
        if i < k { assert Goes(sts[i], ls[..k][i], sts[i + 1]); }
      }
    }
  }

  lemma {:induction false} TraceShaped(n: nat, ls: seq<Label>, sts: seq<State>, k: nat)
    requires Trace(n, ls, sts) && k < |sts|
    ensures Shaped(sts[k]) && |sts[k].table| == n
  {
    if k > 0 {
      TraceShaped(n, ls, sts, k - 1);
      assert Goes(sts[k - 1], ls[k - 1], sts[k - 1 + 1]);
      ShapedStep(sts[k - 1], ls[k - 1]);
    }
  }

  /**
    Before moment `k`, bump `b`, the last to be started under this name, has started at moment
    `s` and has read the entries of the first threads, each at a moment of its own.
   */
  ghost predicate Saw(ls: seq<Label>, sts: seq<State>, k: nat, b: nat, s: nat, us: seq<nat>,
                      entries: seq<seq<Session>>) {
    && s < k <= |ls| < |sts| && ls[s] == BumpStart(b) && (forall i: nat :: s < i < k ==> ls[i] != BumpStart(b))
    && |us| == |entries|
    && (forall t: nat :: t < |us| ==> s < us[t] < k && ls[us[t]] == BumpScan(b))
    && (forall t: nat, v: nat :: t < v < |us| ==> us[t] < us[v])
    && (forall t: nat :: t < |us| ==> t < |sts[us[t]].table| && entries[t] == sts[us[t]].table[t])
  }

  lemma SawScan(ls: seq<Label>, sts: seq<State>, k: nat, b: nat, s: nat, us: seq<nat>, entries: seq<seq<Session>>)
    requires Saw(ls, sts, k, b, s, us, entries) && k < |ls| && ls[k] == BumpScan(b) && |us| < |sts[k].table|
    ensures Saw(ls, sts, k + 1, b, s, us + [k], entries + [sts[k].table[|us|]])
  {}

  lemma OldestNext(v: nat, entries: seq<seq<Session>>, oldest: nat, entry: seq<Session>)
    requires IsOldest(v, entries, oldest) && forall j: nat :: j < |entry| ==> entry[j].epoch > 0
    ensures IsOldest(v, entries + [entry], Scanned(Scan(0, 0, oldest), entry).oldest)
  {
    var entries': seq<seq<Session>> := entries + [entry];
    var oldest' := Scanned(Scan(0, 0, oldest), entry).oldest;
    if entry != [] {
      var j: nat :| j < |entry| && entry[j].epoch == MinEpoch(entry);
      assert entries'[|entries|][j].epoch == MinEpoch(entry);
    }
    if oldest' == oldest != v {
      var t: nat, j: nat :| t < |entries| && j < |entries[t]| && entries[t][j].epoch == oldest;
      assert entries'[t][j].epoch == oldest;
    }
  }

  lemma SawOn(ls: seq<Label>, sts: seq<State>, k: nat, b: nat, s: nat, us: seq<nat>, entries: seq<seq<Session>>)
    requires Saw(ls, sts, k, b, s, us, entries) && k < |ls| && ls[k] != BumpStart(b)
    ensures Saw(ls, sts, k + 1, b, s, us, entries)
  {}

  /** What a step does to a bump under way. */
  lemma ScanStep(n: nat, ls: seq<Label>, sts: seq<State>, i: nat, b: nat)
    requires Trace(n, ls, sts) && i < |ls| && b in sts[i + 1].scans
    ensures ls[i] == BumpStart(b) ==> sts[i + 1].scans[b] == Scan(sts[i].current, 0, sts[i].current)
    ensures ls[i] != BumpStart(b) ==> b in sts[i].scans
    ensures ls[i] == BumpScan(b) ==> sts[i].scans[b].next < |sts[i].table|
    ensures ls[i] == BumpScan(b) ==>
              sts[i + 1].scans[b] == Scanned(sts[i].scans[b], sts[i].table[sts[i].scans[b].next])
    ensures ls[i] != BumpStart(b) && ls[i] != BumpScan(b) ==> sts[i + 1].scans[b] == sts[i].scans[b]
  {
    assert Goes(sts[i], ls[i], sts[i + 1]);
  }

  /** At moment `k`, bump `b` has computed what it saw. */
  ghost predicate SawSo(ls: seq<Label>, sts: seq<State>, k: nat, b: nat, s: nat, us: seq<nat>,
                        entries: seq<seq<Session>>) {
    && Saw(ls, sts, k, b, s, us, entries) && b in sts[k].scans && |us| == sts[k].scans[b].next
    && IsOldest(sts[s].current, entries, sts[k].scans[b].oldest)
  }

  lemma SawGrows(n: nat, ls: seq<Label>, sts: seq<State>, k: nat, b: nat, s: nat, us: seq<nat>,
                 entries: seq<seq<Session>>) returns (us': seq<nat>, entries': seq<seq<Session>>)
    requires Trace(n, ls, sts) && k < |ls| && SawSo(ls, sts, k, b, s, us, entries)
    requires ls[k] != BumpStart(b) && b in sts[k + 1].scans
    ensures SawSo(ls, sts, k + 1, b, s, us', entries')
  {
    ScanStep(n, ls, sts, k, b);
    us', entries' := us, entries;
    if ls[k] == BumpScan(b) {
      TraceShaped(n, ls, sts, k);
      SawScan(ls, sts, k, b, s, us, entries);
      OldestNext(sts[s].current, entries, sts[k].scans[b].oldest, sts[k].table[|us|]);
      us', entries' := us + [k], entries + [sts[k].table[|us|]];
    } else {
      SawOn(ls, sts, k, b, s, us, entries);
    }
  }

  lemma SawStart(ls: seq<Label>, sts: seq<State>, k: nat, b: nat)
    requires k < |ls| < |sts| && ls[k] == BumpStart(b) && b in sts[k + 1].scans
    requires sts[k + 1].scans[b] == Scan(sts[k].current, 0, sts[k].current)
    ensures SawSo(ls, sts, k + 1, b, k, [], [])
  {}

  /** In every run, what a bump under way has computed is what it saw, entry by entry. */
  lemma {:induction false} ScanSaw(n: nat, ls: seq<Label>, sts: seq<State>, k: nat, b: nat)
    returns (s: nat, us: seq<nat>, entries: seq<seq<Session>>)
    requires Trace(n, ls, sts) && k < |sts| && b in sts[k].scans
    ensures SawSo(ls, sts, k, b, s, us, entries)
    decreases k
  {
    ScanStep(n, ls, sts, k - 1, b);
    if ls[k - 1] == BumpStart(b) {
      s, us, entries := k - 1, [], [];
      SawStart(ls, sts, k - 1, b);
    } else {
      s, us, entries := ScanSaw(n, ls, sts, k - 1, b);
      us, entries := SawGrows(n, ls, sts, k - 1, b, s, us, entries);
    }
  }

  /**
    The safe epoch that a bump stores: one less than the epoch that it bumped or the oldest
    that it saw, when each thread's entry is read at a moment of its own.
   */
  lemma StoresWhatItSaw(n: nat, ls: seq<Label>, sts: seq<State>, k: nat, b: nat)
    returns (s: nat, us: seq<nat>, entries: seq<seq<Session>>)
    requires Trace(n, ls, sts) && k < |ls| && ls[k] == BumpStore(b)
    ensures Saw(ls, sts, k, b, s, us, entries) && |us| == n
    ensures IsOldest(sts[s].current, entries, sts[k + 1].safe + 1)
  {
    assert Goes(sts[k], ls[k], sts[k + 1]);
    s, us, entries := ScanSaw(n, ls, sts, k, b);
    TraceShaped(n, ls, sts, k);
  }

  /** Two bumps at once: the slower one takes the safe epoch back. */
  lemma SafeMovesBack()
    ensures var ls := [BumpStart(0), BumpStart(1), BumpScan(1), BumpStore(1)];
            && Legal(Init(1), ls) && Exec(Init(1), ls).safe == 1
            && Legal(Init(1), ls + [BumpScan(0), BumpStore(0)])
            && Exec(Init(1), ls + [BumpScan(0), BumpStore(0)]).safe == 0
  {
    var ls := [BumpStart(0), BumpStart(1), BumpScan(1), BumpStore(1)];
    ExecFour(Init(1), ls[0], ls[1], ls[2], ls[3]);
    var st := Exec(Init(1), ls);
    ExecOne(st, BumpScan(0));
    ExecOne(Apply(st, BumpScan(0)), BumpStore(0));
    ExecCons(st, BumpScan(0), [BumpStore(0)]);
    assert [BumpScan(0)] + [BumpStore(0)] == [BumpScan(0), BumpStore(0)];
    ExecJoin(Init(1), ls, [BumpScan(0), BumpStore(0)]);
  }

  lemma Unused(s: set<nat>) returns (b: nat)
    ensures b !in s
  {
    var m := 0;
    var rest := s;
    while rest != {}
      invariant rest <= s && forall x :: x in s && x !in rest ==> x < m
      decreases rest
    {
      var x :| x in rest;
      rest := rest - {x};
      if x >= m { m := x + 1; }
    }
    b := m;
  }
}
