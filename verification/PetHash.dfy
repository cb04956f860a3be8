/**
  The hash table itself: an array of chunks updated in place. Every store that a
  reader or a crash can observe is recorded as a step of the writer's machine, so
  what is proved about runs of that machine holds for this code.
 */
module PetHash {
  import opened Options
  import opened Seals
  import opened Probe
  import opened Table
  import opened Writer
  import opened Changes
  import opened Recovery
  import opened Sizing

  class PetHash {
    const g: Geometry
    const table: array<Chunk>
    var size: nat
    /** Whether the counters are known to be exact or only to be high enough. */
    ghost var exact: bool
    /** The states the table went through since it was opened, and the steps between them. */
    ghost var states: seq<State>
    ghost var labels: seq<Label>

    ghost function T(): Table
      reads this, table
    {
      Table(table[..], size)
    }

    /** An empty table. */
    constructor (capacity: nat, hash: Key -> nat, crc: nat -> Bits7)
      requires capacity <= 14 * 0x8000_0000_0000_0000
      ensures Valid() && exact && Contents() == map[] && fresh(table)
      ensures IsChunkNum(capacity, g.n) && g.hash == hash && g.crc == crc
    {
      var n := OverFallChunkNum(capacity);
      var chunks := new Chunk[n](_ => EMPTY);
      g := Geometry(n, hash, crc);
      table := chunks;
      size := 0;
      exact := true;
      states, labels := [State(Table(chunks[..], 0), Idle)], [];
      new;
      EmptyTable(g, T());
      HistoryStarts(g, State(T(), Idle), true);
    }

    /** The table found in a file; nothing is known of it yet. */
    constructor Map(g: Geometry, chunks: seq<Chunk>, size: nat)
      ensures this.g == g && T() == Table(chunks, size) && fresh(table)
    {
      this.g, this.size := g, size;
      var copy := new Chunk[|chunks|](i requires 0 <= i < |chunks| => chunks[i]);
      table := copy;
      exact, states, labels := false, [], [];
      new;
      assert table[..] == chunks;
    }

    /** Start over with an empty table. */
    method Initialize()
      requires g.Valid() && T().Shaped(g)
      modifies this, table
      ensures Valid() && exact && T() == Wiped(g) && Contents() == map[]
    {
      forall c | 0 <= c < table.Length { table[c] := EMPTY; }
      size := 0;
      exact, states, labels := true, [State(T(), Idle)], [];
      assert T() == Wiped(g);
      EmptyTable(g, T());
      HistoryStarts(g, State(T(), Idle), true);
    }

    /** The table is well formed, the writer is in the middle of `a`, and got there by steps of its machine. */
    ghost predicate At(a: Act)
      reads this, table
    {
      g.Valid() && T().Shaped(g) && History(g, states, labels, exact, State(T(), a))
    }

    ghost predicate Valid()
      reads this, table
    {
      At(Idle)
    }

    /** The invariant of the writer's machine holds. */
    lemma Inv(a: Act)
      requires At(a)
      ensures StateInv(g, State(T(), a), exact)
    {
      HistoryInv(g, states, labels, exact, State(T(), a));
    }

    ghost function Contents(): map<Key, Val>
      reads this, table
    {
      T().Contents()
    }

    /** Record one step of the writer, from action `a` on table `was` to action `a'` on the table now. */
    ghost method Log(was: Table, a: Act, l: Label, a': Act)
      requires g.Valid() && was.Shaped(g) && History(g, states, labels, exact, State(was, a))
               && Enabled(g, State(was, a), l)
      requires State(T(), a') == Apply(g, State(was, a), l)
      modifies this`states, this`labels
      ensures At(a')
      ensures labels == old(labels) + [l] && states == old(states) + [State(T(), a')] && old(states) <= states
      ensures T().Persisted() == Effect(was, l, was.Persisted())
    {
      HistoryGrows(g, states, labels, exact, State(was, a), l);
      states, labels := states + [State(T(), a')], labels + [l];
    }

    method StoreChunk(c: nat, ch: Chunk)
      requires c < table.Length
      modifies table
      ensures T() == old(T()).Put(c, ch)
    {
      table[c] := ch;
      assert table[..] == old(table[..])[c := ch];
    }

    /** The first lane of a chunk whose tag and key match. */
    static method Find(ch: Chunk, key: Key, tag: nat) returns (r: Option<nat>)
      requires ch.Shaped()
      ensures r == ch.Match(key, tag)
    {
      for l := 0 to LANES
        invariant forall m: nat :: m < l ==> !(ch.tags[m] == tag && ch.keys[m] == key)
      {
        if ch.tags[l] == tag && ch.keys[l] == key {
          return Some(l);
        }
      }
      return None;
    }

    /**
      One attempt of a lookup, over any table. It finds nothing exactly if no chunk that it
      can come to matches. It says `again`, and the program starts over, exactly if one of
      these is marked.
     */
    method GetInternal(key: Key) returns (r: Option<Slot>, again: bool)
      requires g.Valid() && T().Shaped(g)
      ensures r == Lookup(g, T(), key, 0) && (again <==> Attempt(g, T(), key).Retry?)
      ensures r.None? <==> forall i: nat :: Open(g, T(), key, 0, i) ==> !Matches(g, T(), key, i)
      ensures again <==> r.None? && exists i: nat :: Open(g, T(), key, 0, i) && T().chunks[g.Pos(key, i)].migrating
    {
      r, again := ProbeChunks(key);
      LookupFails(g, T(), key, 0);
      RetriesExactly(g, T(), key);
    }

    method ProbeChunks(key: Key) returns (r: Option<Slot>, again: bool)
      requires g.Valid() && T().Shaped(g)
      ensures r == Lookup(g, T(), key, 0) && (again <==> Attempt(g, T(), key).Retry?)
    {
      var sign, step, pos := g.Sign(key), g.Step(key), g.Home(key);
      var touched := false;
      for i := 0 to g.n
        invariant pos == g.Pos(key, i)
        invariant Lookup(g, T(), key, 0) == Lookup(g, T(), key, i)
        invariant Touches(g, T(), key, 0) <==> touched || Touches(g, T(), key, i)
      {
        assert T().chunks[pos] == table[pos];
        if table[pos].migrating {
          touched := true;
        }
        var lane := Find(table[pos], key, sign);
        if lane.Some? {
          return Some(Slot(pos, lane.value)), false;
        }
        if table[pos].overflow == 0 {
          return None, touched;
        }
        pos := Wrap(pos + step, g.n);
      }
      return None, touched;
    }

    /** An attempt on a table without marks. */
    method Search(key: Key) returns (r: Option<Slot>)
      requires g.Valid() && T().Shaped(g) && T().Quiet()
      ensures r == Lookup(g, T(), key, 0)
    {
      var again;
      r, again := GetInternal(key);
      QuietIsUntouched(g, T(), key, 0);
    }

    /** Get is lookup in the map that the table stands for. */
    method Get(key: Key) returns (value: Val, exists_: bool)
      requires Valid()
      ensures exists_ <==> key in Contents()
      ensures exists_ ==> value == Contents()[key]
    {
      Inv(Idle);
      var r := Search(key);
      LookupIsMapLookup(g, T(), multiset{}, exact, key);
      if r.Some? {
        assert T().chunks[r.value.chunk] == table[r.value.chunk];
        return table[r.value.chunk].vals[r.value.lane], true;
      }
      return 0, false;
    }

    // ---- Single observable stores ----

    method LowerCounter(c: nat, ghost key: Key, ghost s: Slot, ghost i: nat, ghost a: Act)
      requires At(Lowering(s, i, a)) && T().KeyAt(s) == key && i < g.Rank(key, s.chunk) && c == g.Pos(key, i)
      modifies table, this`states, this`labels
      ensures At(Lowering(s, i + 1, a)) && CountersOnly(old(T()), T()) && T().KeyAt(s) == key
      ensures T().Persisted() == old(T()).Persisted() && labels == old(labels) + [Lower(s, i, a)]
              && old(states) <= states
    {
      ghost var was := T();
      assert was.chunks[c] == table[c];
      StoreChunk(c, table[c].DecOverflow());
      Log(was, Lowering(s, i, a), Lower(s, i, a), Lowering(s, i + 1, a));
    }

    method ClearTag(s: Slot, ghost i: nat, ghost a: Act)
      requires At(Lowering(s, i, a)) && i == g.Rank(T().KeyAt(s), s.chunk) && Has(g, s)
      modifies table, this`states, this`labels
      ensures At(Untagged(s, a)) && T() == SetTag(g, old(T()), s, 0)
      ensures T().Persisted() == old(T()).Persisted() && labels == old(labels) + [Untag(s, i, a)]
              && old(states) <= states
    {
      ghost var was := T();
      assert was.chunks[s.chunk] == table[s.chunk];
      StoreChunk(s.chunk, table[s.chunk].WriteTag(s.lane, 0));
      Log(was, Lowering(s, i, a), Untag(s, i, a), Untagged(s, a));
    }

    method ClearKey(s: Slot, ghost a: Act)
      requires At(Untagged(s, a)) && Has(g, s)
      modifies table, this`states, this`labels
      ensures At(Erased(s, a)) && T() == SetItem(g, old(T()), s, NO_KEY, old(T()).ValAt(s))
      ensures T().Persisted() == old(T()).Persisted() - {old(T()).KeyAt(s)}
      ensures labels == old(labels) + [Erase(s, a)] && old(states) <= states
    {
      ghost var was := T();
      assert was.chunks[s.chunk] == table[s.chunk];
      StoreChunk(s.chunk, table[s.chunk].WriteItem(s.lane, NO_KEY, table[s.chunk].vals[s.lane]));
      Log(was, Untagged(s, a), Erase(s, a), Erased(s, a));
    }

    method ShrinkChunk(s: Slot, ghost a: Act)
      requires At(Erased(s, a)) && Has(g, s)
      modifies table, this`states, this`labels
      ensures At(Shrunk(s, a)) && T() == Narrow(old(T()), s.chunk)
      ensures T().Persisted() == old(T()).Persisted() && labels == old(labels) + [Shrink(s, a)] && old(states) <= states
    {
      ghost var was := T();
      assert was.chunks[s.chunk] == table[s.chunk];
      StoreChunk(s.chunk, table[s.chunk].(size := Down(table[s.chunk].size)));
      Log(was, Erased(s, a), Shrink(s, a), Shrunk(s, a));
    }

    method CountDown(ghost s: Slot, ghost a: Act)
      requires At(Shrunk(s, a))
      modifies this`size, this`states, this`labels
      ensures At(a) && T() == old(T()).(size := Down(old(T()).size))
      ensures T().Persisted() == old(T()).Persisted() && labels == old(labels) + [Uncount(s, a)]
              && old(states) <= states
    {
      ghost var was := T();
      size := Down(size);
      Log(was, Shrunk(s, a), Uncount(s, a), a);
    }

    method RaiseCounter(c: nat, ghost k: Key, ghost v: Val, ghost i: nat)
      requires At(Probing(k, v, i)) && i < g.n && c == g.Pos(k, i) && Passable(g, T(), c)
      modifies table, this`states, this`labels
      ensures At(Probing(k, v, i + 1)) && CountersOnly(old(T()), T())
      ensures T().Persisted() == old(T()).Persisted() && labels == old(labels) + [Raise(k, v, i)]
              && states == old(states) + [State(T(), Probing(k, v, i + 1))]
    {
      ghost var was := T();
      assert was.chunks[c] == table[c];
      StoreChunk(c, table[c].IncOverflow());
      Log(was, Probing(k, v, i), Raise(k, v, i), Probing(k, v, i + 1));
    }

    method ReserveLane(c: nat, ghost k: Key, ghost v: Val, ghost i: nat)
      requires At(Probing(k, v, i)) && i < g.n && c == g.Pos(k, i) && T().chunks[c].size < LANES
      modifies table, this`states, this`labels
      ensures At(Reserved(k, v, i)) && T() == Widen(old(T()), c)
      ensures T().Persisted() == old(T()).Persisted() && labels == old(labels) + [Reserve(k, v, i)]
              && old(states) <= states
    {
      ghost var was := T();
      assert was.chunks[c] == table[c];
      StoreChunk(c, table[c].(size := table[c].size + 1));
      Log(was, Probing(k, v, i), Reserve(k, v, i), Reserved(k, v, i));
    }

    method StoreItem(s: Slot, k: Key, v: Val, ghost i: nat)
      requires At(Reserved(k, v, i)) && i < g.n && s.chunk == g.Pos(k, i) && Foremost(T(), s)
      modifies table, this`states, this`labels
      ensures At(Placed(s)) && T() == SetItem(g, old(T()), s, k, v)
      ensures T().Persisted() == old(T()).Persisted()[k := v]
      ensures labels == old(labels) + [Place(k, v, i, s.lane)] && old(states) <= states
    {
      ghost var was := T();
      assert was.chunks[s.chunk] == table[s.chunk];
      StoreChunk(s.chunk, table[s.chunk].WriteItem(s.lane, k, v));
      Log(was, Reserved(k, v, i), Place(k, v, i, s.lane), Placed(s));
    }

    method StoreTag(s: Slot)
      requires At(Placed(s)) && Has(g, s)
      modifies table, this`states, this`labels
      ensures At(Tagged(s)) && T() == SetTag(g, old(T()), s, g.Sign(old(T()).KeyAt(s)))
      ensures T().Persisted() == old(T()).Persisted() && labels == old(labels) + [Publish(s)] && old(states) <= states
    {
      ghost var was := T();
      var ch := table[s.chunk];
      assert was.chunks[s.chunk] == ch;
      StoreChunk(s.chunk, ch.WriteTag(s.lane, g.Sign(ch.keys[s.lane])));
      assert was.KeyAt(s) == ch.keys[s.lane];
      Log(was, Placed(s), Publish(s), Tagged(s));
    }

    method CountUp(ghost s: Slot)
      requires At(Tagged(s))
      modifies this`size, this`states, this`labels
      ensures Valid() && T() == old(T()).(size := old(T()).size + 1)
      ensures T().Persisted() == old(T()).Persisted() && labels == old(labels) + [Count(s)] && old(states) <= states
    {
      ghost var was := T();
      size := size + 1;
      Log(was, Tagged(s), Count(s), Idle);
    }

    method StoreValue(s: Slot, v: Val)
      requires Valid() && T().Tag(s) != 0 && Has(g, s)
      modifies table, this`states, this`labels
      ensures Valid() && T() == SetItem(g, old(T()), s, old(T()).KeyAt(s), v)
      ensures T().Persisted() == old(T()).Persisted()[old(T()).KeyAt(s) := v]
              && labels == old(labels) + [Overwrite(s, v)] && old(states) <= states
    {
      ghost var was := T();
      assert was.chunks[s.chunk] == table[s.chunk];
      StoreChunk(s.chunk, table[s.chunk].WriteItem(s.lane, table[s.chunk].keys[s.lane], v));
      Log(was, Idle, Overwrite(s, v), Idle);
    }

    // ---- Delete ----

    /** One iteration of the walk below, from table `T0` and step log `before`. */
    method LowerNext(pos: nat, key: Key, s: Slot, ghost i: nat, ghost a: Act, ghost T0: Table, ghost before: seq<Label>)
      returns (next: nat)
      requires At(Lowering(s, i, a)) && T().KeyAt(s) == key && i < g.Rank(key, s.chunk) && pos == g.Pos(key, i)
      requires CountersOnly(T0, T()) && T().Persisted() == T0.Persisted() && labels == before + Lowers(s, i, a)
      modifies table, this`states, this`labels
      ensures At(Lowering(s, i + 1, a)) && T().KeyAt(s) == key && next == g.Pos(key, i + 1)
      ensures CountersOnly(T0, T()) && T().Persisted() == T0.Persisted() && labels == before + Lowers(s, i + 1, a)
              && old(states) <= states
    {
      LowerCounter(pos, key, s, i, a);
      CountersOnlyTrans(T0, old(T()), T());
      LowersNext(before, s, i, a);
      next := Wrap(pos + g.Step(key), g.n);
    }

    /** Lower the counters of the chunks between a key's home and the chunk that holds it. */
    method LowerPath(key: Key, s: Slot, ghost a: Act)
      requires At(Lowering(s, 0, a)) && T().KeyAt(s) == key && s.chunk < g.n
      modifies table, this`states, this`labels
      ensures At(Lowering(s, g.Rank(key, s.chunk), a)) && CountersOnly(old(T()), T())
      ensures T().Persisted() == old(T()).Persisted()
      ensures labels == old(labels) + Lowers(s, g.Rank(key, s.chunk), a) && old(states) <= states
    {
      var pos := g.Home(key);
      ghost var i, r := 0, g.Rank(key, s.chunk);
      g.PosOfRank(key, s.chunk);
      while pos != s.chunk
        invariant i <= r && pos == g.Pos(key, i)
        invariant At(Lowering(s, i, a)) && T().KeyAt(s) == key
        invariant CountersOnly(old(T()), T()) && T().Persisted() == old(T()).Persisted()
                  && labels == old(labels) + Lowers(s, i, a) && old(states) <= states
        decreases r - i
      {
        pos := LowerNext(pos, key, s, i, a, old(T()), old(labels));
        i := i + 1;
      }
      g.RankOfPos(key, i);
    }

    /** Find the slot of a key. */
    method Locate(key: Key, ghost a: Act) returns (r: Option<Slot>)
      requires At(a) && (a.Idle? || a.Probing?)
      ensures r.Some? <==> key in Contents()
      ensures r.Some? ==> T().Tag(r.value) != 0 && T().KeyAt(r.value) == key && Has(g, r.value)
      ensures r.Some? ==> T().size > 0 && T().chunks[r.value.chunk].size > 0 && Contents()[key] == T().ValAt(r.value)
      ensures T().Contents() == T().Persisted()
    {
      Inv(a);
      r := Search(key);
      LookupIsMapLookup(g, T(), Raised(g, a), exact, key);
      if r.Some? { CountsSlot(a, r.value); }
    }

    /** The sizes count every slot in use. */
    lemma CountsSlot(a: Act, s: Slot)
      requires At(a) && (a.Idle? || a.Probing?) && T().Tag(s) != 0 && Has(g, s)
      ensures T().size > 0 && T().chunks[s.chunk].size > 0
    {
      Inv(a);
      assert s in T().Used() && s.lane in T().chunks[s.chunk].Lanes();
    }

    method Remove(key: Key, s: Slot, ghost a: Act)
      requires At(a) && (a.Idle? || a.Probing?) && T().Tag(s) != 0 && T().KeyAt(s) == key && Has(g, s)
      requires T().size > 0 && T().chunks[s.chunk].size > 0
      modifies this, table
      ensures At(a) && exact == old(exact) && Vacated(old(T()), T(), s)
      ensures labels == old(labels) + DeleteLabels(s, g.Rank(key, s.chunk), a) && old(states) <= states
      ensures T().Persisted() == old(T()).Persisted() - {key}
      ensures Cuts(states, |old(labels)|, |labels|, {old(T()).Persisted(), T().Persisted()})
    {
      ghost var rank := g.Rank(key, s.chunk);
      Log(T(), a, BeginDelete(s, a), Lowering(s, 0, a));
      LowerPath(key, s, a);
      CountersOnlyItem(old(T()), T(), s);
      Vacate(key, s, a, old(T()));
      DeleteLabelsJoin(old(labels), s, rank, a);
      DeleteCuts(g, states, labels, exact, State(T(), a), old(labels), s, rank, a);
    }

    /** Clear the tag and the key of a slot and take it out of the sizes. */
    method Vacate(ghost key: Key, s: Slot, ghost a: Act, ghost T0: Table)
      requires At(Lowering(s, g.Rank(key, s.chunk), a)) && T().KeyAt(s) == key && Has(g, s)
      requires T0.Shaped(g) && CountersOnly(T0, T()) && T0.size > 0 && T0.chunks[s.chunk].size > 0
      modifies this`size, this`states, this`labels, table
      ensures At(a) && Vacated(T0, T(), s) && T().Persisted() == old(T()).Persisted() - {key}
      ensures labels == old(labels) + ClearLabels(s, g.Rank(key, s.chunk), a) && old(states) <= states
    {
      ghost var T1 := T();
      ClearTag(s, g.Rank(key, s.chunk), a);
      ghost var T2 := T();
      SetTagTags(g, T1, s, 0);
      ClearKey(s, a);
      ghost var T3 := T();
      ShrinkChunk(s, a);
      ghost var T4 := T();
      CountDown(s, a);
      VacatedBySteps(g, T0, T1, T2, T3, T4, s);
      ClearLabelsJoin(old(labels), s, g.Rank(key, s.chunk), a);
    }

    /**
      Delete a key: lower the counters on its path, then clear its tag, then its key.
      An Insert deletes expired keys and victims while it is in the middle of its own action `a`.
     */
    method Delete(key: Key, ghost a: Act := Idle) returns (ghost s: Slot)
      requires At(a) && (a.Idle? || a.Probing?)
      modifies this, table
      ensures At(a) && exact == old(exact)
      ensures key !in old(Contents()) ==> T() == old(T()) && labels == old(labels)
      ensures old(states) <= states && Cuts(states, |old(labels)|, |labels|, {old(T()).Persisted(), T().Persisted()})
      ensures key in old(Contents()) ==>
                && old(T()).Tag(s) != 0 && old(T()).KeyAt(s) == key && Has(g, s) && Vacated(old(T()), T(), s)
                && labels == old(labels) + DeleteLabels(s, g.Rank(key, s.chunk), a)
      ensures T().Persisted() == old(T()).Persisted() - {key}
    {
      var r := Locate(key, a);
      if r.None? {
        s := Slot(0, 0);
      } else {
        s := r.value;
        Remove(key, r.value, a);
      }
    }

    // ---- Insert ----

    method SizeOf(c: nat) returns (r: nat)
      requires c < |T().chunks|
      ensures r == T().chunks[c].size
    {
      r := table[c].size;
    }

    function Full(): bool
      reads this
    {
      size * 100 >= g.n * LANES * 90
    }

    /** A tagged slot holds a key that is stored nowhere else. */
    lemma OnlySlot(a: Act, s: Slot)
      requires At(a) && (a.Idle? || a.Probing?) && T().Tag(s) != 0
      ensures T().KeyAt(s) in Contents() && Contents()[T().KeyAt(s)] == T().ValAt(s)
      ensures forall t :: T().Tag(t) != 0 && T().KeyAt(t) == T().KeyAt(s) ==> t == s
      ensures T().Contents() == T().Persisted()
    {
      Inv(a);
      assert s in T().Used();
      ViewAt(T(), T().Used(), s);
    }

    /** Delete the key in a lane of chunk `pos`. */
    method DeleteLane(pos: nat, lane: nat, ghost a: Act) returns (ghost key: Key)
      requires At(a) && (a.Idle? || a.Probing?) && Has(g, Slot(pos, lane)) && T().Tag(Slot(pos, lane)) != 0
      modifies this, table
      ensures At(a) && exact == old(exact) && Vacated(old(T()), T(), Slot(pos, lane))
      ensures key == old(T()).KeyAt(Slot(pos, lane))
      ensures key in old(T()).Persisted() && old(T()).Persisted()[key] == old(T()).ValAt(Slot(pos, lane))
      ensures T().Persisted() == old(T()).Persisted() - {key}
      ensures labels == old(labels) + DeleteLabels(Slot(pos, lane), g.Rank(key, pos), a) && old(states) <= states
      ensures Cuts(states, |old(labels)|, |labels|, {old(T()).Persisted(), T().Persisted()})
    {
      key := T().KeyAt(Slot(pos, lane));
      assert T().chunks[pos] == table[pos];
      OnlySlot(a, Slot(pos, lane));
      ghost var s := Delete(table[pos].keys[lane], a);
    }

    /** Since table `T0` and step log `before`, the steps `seg` deleted the keys `gone` and nothing else. */
    ghost predicate Told(T0: Table, before: Past, gone: seq<Key>, seg: seq<Label>)
      reads this, table
    {
      && before.states <= states && seg != [] && seg[0].Begin? && Rested(g, T0)
      && Tale(T0, T0.Persisted(), before.labels, T(), T().Persisted(), states, labels, gone, seg)
    }

    /** Delete the key in a lane of chunk `pos`, in the course of an Insert. */
    method DropLane(pos: nat, lane: nat, ghost a: Act, ghost T0: Table, ghost before: Past, ghost gone: seq<Key>,
                    ghost seg: seq<Label>)
      returns (ghost gone': seq<Key>, ghost seg': seq<Label>)
      requires At(a) && (a.Idle? || a.Probing?) && Has(g, Slot(pos, lane)) && T().Tag(Slot(pos, lane)) != 0
      requires Told(T0, before, gone, seg)
      modifies this, table
      ensures At(a) && exact == old(exact) && Told(T0, before, gone', seg')
      ensures Vacated(old(T()), T(), Slot(pos, lane)) && gone' == gone + [T0.KeyAt(Slot(pos, lane))]
      ensures T0.KeyAt(Slot(pos, lane)) == old(T()).KeyAt(Slot(pos, lane)) && T0.Tag(Slot(pos, lane)) != 0
      ensures T0.KeyAt(Slot(pos, lane)) in T0.Persisted()
      ensures T0.Persisted()[T0.KeyAt(Slot(pos, lane))] == old(T()).ValAt(Slot(pos, lane))
    {
      ghost var T1 := T();
      ghost var key := DeleteLane(pos, lane, a);
      ghost var r := g.Rank(key, pos);
      TaleDeletes(T0, T0.Persisted(), before.labels, T1, T1.Persisted(), old(states), old(labels), gone, seg,
                  T(), T().Persisted(), states, labels, Slot(pos, lane), r, a);
      gone', seg' := gone + [key], seg + DeleteLabels(Slot(pos, lane), r, a);
    }

    /** One lane of the loop below, which began at table `T1` when `gone0` were gone. */
    method ExpireLane(pos: nat, id: nat, keep: (Key, Val) -> bool, ghost a: Act, ghost T0: Table,
                      ghost before: Past,
                      ghost T1: Table, ghost gone0: seq<Key>, ghost gone: seq<Key>, ghost seg: seq<Label>)
      returns (ghost gone': seq<Key>, ghost seg': seq<Label>)
      requires At(a) && (a.Idle? || a.Probing?) && pos < g.n && id < LANES && Told(T0, before, gone, seg)
      requires T0.SizeOf(pos) >= 12 && gone0 <= gone && Expired(T1, T(), pos, id, keep, |gone| - |gone0|)
               && GivenUp(T0, T0.Persisted(), keep, gone, |gone0|)
      modifies this, table
      ensures At(a) && exact == old(exact) && Told(T0, before, gone', seg')
      ensures gone0 <= gone' && Expired(T1, T(), pos, id + 1, keep, |gone'| - |gone0|)
              && GivenUp(T0, T0.Persisted(), keep, gone', |gone0|)
    {
      assert T().chunks[pos] == table[pos];
      ghost var T2 := T();
      gone', seg' := gone, seg;
      if table[pos].tags[id] != 0 && !keep(table[pos].keys[id], table[pos].vals[id]) {
        gone', seg' := DropLane(pos, id, a, T0, before, gone, seg);
        ExpireHit(T1, T2, T(), pos, id, keep, |gone| - |gone0|);
        GivenUpGrows(T0, T0.Persisted(), keep, gone, |gone0|, Slot(pos, id), T2.chunks[pos].vals[id]);
      } else {
        ExpireSkip(T1, T2, pos, id, keep, |gone| - |gone0|);
      }
    }

    /** Delete the keys of chunk `pos` that `keep` gives up, in the course of an Insert. */
    method Expire(pos: nat, keep: (Key, Val) -> bool, ghost a: Act, ghost T0: Table, ghost before: Past,
                  ghost gone: seq<Key>, ghost seg: seq<Label>)
      returns (ghost gone': seq<Key>, ghost seg': seq<Label>)
      requires At(a) && (a.Idle? || a.Probing?) && pos < g.n && Told(T0, before, gone, seg) && T0.SizeOf(pos) >= 12
      modifies this, table
      ensures At(a) && exact == old(exact) && Told(T0, before, gone', seg')
      ensures gone <= gone' && Expired(old(T()), T(), pos, LANES, keep, |gone'| - |gone|)
              && GivenUp(T0, T0.Persisted(), keep, gone', |gone|)
    {
      gone', seg' := gone, seg;
      ghost var T1 := T();
      var id := 0;
      while id < LANES
        invariant id <= LANES && At(a) && exact == old(exact) && Told(T0, before, gone', seg')
        invariant gone <= gone' && Expired(T1, T(), pos, id, keep, |gone'| - |gone|)
                  && GivenUp(T0, T0.Persisted(), keep, gone', |gone|)
      {
        gone', seg' := ExpireLane(pos, id, keep, a, T0, before, T1, gone, gone', seg');
        id := id + 1;
      }
    }

    lemma SizeBound(a: Act, c: nat)
      requires At(a) && (a.Idle? || a.Probing?) && c < g.n
      ensures T().Sized() && T().chunks[c].size <= LANES
    {
      Inv(a);
      SkewZero(T(), SkewOf(g, a));
      LanesBound(T().chunks[c]);
    }

    /** Delete expired keys from a chunk that is nearly full. */
    method Purge(pos: nat, check: Check, ghost a: Act, ghost T0: Table, ghost before: Past, ghost gone: seq<Key>,
                 ghost seg: seq<Label>)
      returns (ghost gone': seq<Key>, ghost seg': seq<Label>)
      requires At(a) && (a.Idle? || a.Probing?) && pos < g.n && Told(T0, before, gone, seg)
      modifies this, table
      ensures At(a) && exact == old(exact) && Told(T0, before, gone', seg')
      ensures gone <= gone' && Thins(old(T()), T(), pos, check, |gone'| - |gone|)
      ensures check.Some? ==> GivenUp(T0, T0.Persisted(), check.value, gone', |gone|)
    {
      SizeBound(a, pos);
      assert T().chunks[pos] == table[pos];
      gone', seg' := gone, seg;
      if check.Some? && table[pos].size >= LANES - 2 {
        InheritsSize(g, T0, T(), pos);
        gone', seg' := Expire(pos, check.value, a, T0, before, gone, seg);
      }
    }

    /** Store an item in a chunk with room: first the item, then its tag. */
    method PlaceIn(pos: nat, key: Key, value: Val, ghost j: nat) returns (s: Slot)
      requires At(Probing(key, value, j)) && j < g.n && pos == g.Pos(key, j) && T().chunks[pos].size < LANES
      modifies this, table
      ensures Valid() && exact == old(exact) && Has(g, s)
      ensures Landed(old(T()), old(labels), old(states), T(), labels, states, key, value, j, s)
    {
      SizeBound(Probing(key, value, j), pos);
      assert T().chunks[pos] == table[pos];
      var lane := FirstEmpty(table[pos]);
      s := Slot(pos, lane);
      PlaceAt(s, key, value, j);
    }

    /** The first lane whose tag is 0. */
    static method FirstEmpty(ch: Chunk) returns (lane: nat)
      requires ch.Shaped() && |ch.Lanes()| < LANES
      ensures lane < LANES && ch.tags[lane] == 0 && forall l: nat :: l < lane ==> ch.tags[l] != 0
    {
      EmptyLane(ch);
      lane := 0;
      while ch.tags[lane] != 0
        invariant lane < LANES && forall l: nat :: l < lane ==> ch.tags[l] != 0
        decreases LANES - lane
      {
        lane := lane + 1;
      }
    }

    method PlaceAt(s: Slot, key: Key, value: Val, ghost j: nat)
      requires At(Probing(key, value, j)) && j < g.n && s.chunk == g.Pos(key, j) && Foremost(T(), s)
      requires T().chunks[s.chunk].size < LANES
      modifies this, table
      ensures Valid() && exact == old(exact)
      ensures Landed(old(T()), old(labels), old(states), T(), labels, states, key, value, j, s)
    {
      ghost var T1 := T();
      ReserveLane(s.chunk, key, value, j);
      ghost var T2 := T();
      StoreItem(s, key, value, j);
      ghost var T3 := T();
      StoreTag(s);
      ghost var T4 := T();
      CountUp(s);
      PlaceLabelsJoin(old(labels), key, value, j, s);
      PlaceCuts(g, states, labels, exact, State(T(), Idle), old(labels), key, value, j, s);
      Lands(g, T1, T2, T3, T4, s, key, value);
      Present(old(states), states, old(labels), T1);
    }

    /** What was recorded last is the table of that time. */
    lemma Present(states0: seq<State>, states': seq<State>, labels0: seq<Label>, T0: Table)
      requires states0 <= states' && |states0| == |labels0| + 1 && states0[|labels0|].T == T0
      ensures |labels0| < |states'| && states'[|labels0|].T == T0
    {}

    /** The states recorded are one more than the steps, and the last one is the present. */
    lemma Lengths(a: Act)
      requires At(a)
      ensures |states| == |labels| + 1 && states[|labels|] == State(T(), a)
    {
      HistoryInv(g, states, labels, exact, State(T(), a));
    }

    /** While a key is being inserted, no slot in use holds it. */
    lemma Absent(key: Key, value: Val, j: nat, l: nat)
      requires At(Probing(key, value, j)) && j < g.n && l < LANES
      ensures T().chunks[g.Pos(key, j)].tags[l] != 0 ==> T().chunks[g.Pos(key, j)].keys[l] != key
    {
      Inv(Probing(key, value, j));
      var s := Slot(g.Pos(key, j), l);
      if T().Tag(s) != 0 { assert s in T().Occupied(); }
    }

    /** Raise the counter of a full chunk and go on to the next. */
    method Pass(pos: nat, key: Key, value: Val, ghost j: nat, ghost T0: Table, ghost before: Past,
                ghost gone: seq<Key>, ghost seg: seq<Label>)
      returns (next: nat, ghost seg': seq<Label>)
      requires At(Probing(key, value, j)) && j < g.n && pos == g.Pos(key, j) && Told(T0, before, gone, seg)
      requires Passable(g, T(), pos)
      modifies table, this`states, this`labels
      ensures At(Probing(key, value, j + 1)) && CountersOnly(old(T()), T()) && next == g.Pos(key, j + 1)
      ensures Told(T0, before, gone, seg')
    {
      ghost var T1 := T();
      RaiseCounter(pos, key, value, j);
      CountersOnlyInherits(T0, T1, T());
      seg' := seg + [Raise(key, value, j)];
      TaleGoesOn(T0, T0.Persisted(), before.labels, T1, T1.Persisted(), old(states), old(labels), gone, seg, T(),
                 State(T(), Probing(key, value, j + 1)), Raise(key, value, j));
      next := Wrap(pos + g.Step(key), g.n);
    }

    lemma FullLane(a: Act, c: nat, l: nat)
      requires At(a) && (a.Idle? || a.Probing?) && c < g.n && l < LANES && T().chunks[c].size == LANES
      ensures T().Tag(Slot(c, l)) != 0
    {
      SizeBound(a, c);
      FullChunkUsesAll(T().chunks[c], l);
    }

    /** An Insert of `key` into table `T0` is at the start of iteration `i`, having advanced `j` times. */
    ghost predicate Looping(T0: Table, before: Past, key: Key, value: Val, check: Check, force: bool, i: nat,
                            j: nat, gone: seq<Key>, seg: seq<Label>)
      reads this, table
    {
      && At(Probing(key, value, j)) && j <= g.n && T0.Shaped(g) && Told(T0, before, gone, seg)
      && Progress(g, T0, T(), key, i, j, Jammed(g, T0, key, check), force)
      && Account(g, T0, T0.Persisted(), key, check, Jammed(g, T0, key, check), i, gone)
    }

    /** An Insert of `key` into table `T0` has stored it in slot `s`. */
    ghost predicate Inserted(T0: Table, before: Past, key: Key, value: Val, check: Check, gone: seq<Key>,
                             seg: seq<Label>, s: Slot)
      reads this, table
    {
      && Valid() && T0.Shaped(g) && Has(g, s) && T().Tag(s) != 0 && T().KeyAt(s) == key && T().ValAt(s) == value
      && T().Persisted() == (T0.Persisted() - Elems(gone))[key := value]
      && labels == before.labels + seg && InsertSteps(T0, seg, gone) && before.states <= states
      && Inserting(states, |before.labels|, |labels|, key)
      && Cuts(states, |before.labels|, |labels|, Stages(T0.Persisted(), gone) + {T().Persisted()})
      && Account(g, T0, T0.Persisted(), key, check, Jammed(g, T0, key, check), 1, gone)
    }

    /** The same in the middle of iteration `i`, at a chunk purged of expired keys. */
    ghost predicate Ready(T0: Table, before: Past, key: Key, value: Val, check: Check, force: bool, i: nat,
                          j: nat, gone: seq<Key>, seg: seq<Label>)
      reads this, table
    {
      && At(Probing(key, value, j)) && j < g.n && T0.Shaped(g) && Told(T0, before, gone, seg)
      && Purged(g, T0, T(), T0.Persisted(), key, check, i, j, Jammed(g, T0, key, check), force, gone)
    }

    /** When the first chunk has been purged, the keys that were given up there are gone. */
    lemma HomeIsRid(key: Key, value: Val, j: nat, keep: (Key, Val) -> bool, T0: Table, before: Past, gone: seq<Key>,
                    seg: seq<Label>)
      requires At(Probing(key, value, j)) && Told(T0, before, gone, seg)
      requires T0.SizeOf(g.Home(key)) >= 12 ==> KeepsBelow(T().chunks[g.Home(key)], LANES, keep)
      ensures Rid(T0.chunks[g.Home(key)], keep, gone)
    {
      Inv(Probing(key, value, j));
      assert T().Persisted() == T0.Persisted() - Elems(gone);
      assert Remains(g, T0, T(), gone);
      KeptIsRid(g, T0, T(), g.Home(key), keep, gone);
    }

    /** Purge the chunk and look for the key in it once more; it is not there. */
    method Prepare(pos: nat, key: Key, value: Val, check: Check, ghost force: bool, ghost i: nat, ghost j: nat,
                   ghost T0: Table, ghost before: Past, ghost gone: seq<Key>, ghost seg: seq<Label>)
      returns (ghost gone': seq<Key>, ghost seg': seq<Label>)
      requires Looping(T0, before, key, value, check, force, i, j, gone, seg) && j < g.n && pos == g.Pos(key, j)
      modifies this, table
      ensures exact == old(exact) && Ready(T0, before, key, value, check, force, i, j, gone', seg')
    {
      ghost var T1 := T();
      gone', seg' := Purge(pos, check, Probing(key, value, j), T0, before, gone, seg);
      if check.Some? && i == 0 { HomeIsRid(key, value, j, check.value, T0, before, gone', seg'); }
      PurgeProgress(g, T0, T1, T(), T0.Persisted(), key, check, i, j, Jammed(g, T0, key, check), force, gone, gone');
      assert T().chunks[pos] == table[pos];
      var hit := Find(table[pos], key, g.Sign(key));
      if hit.Some? {
        Absent(key, value, j, hit.value);
        assert false;
      }
    }

    /** Since the step log `before` the writer has inserted one key. */
    lemma Began(before: Past, seg: seq<Label>, mid: nat, key: Key)
      requires Valid() && labels == before.labels + seg && seg != [] && seg[0].Begin? && NoCount(seg[..|seg| - 1])
      requires |before.labels| < mid < |labels| < |states|
      requires states[mid].act.Probing? && states[mid].act.k == key
      ensures Inserting(states, |before.labels|, |labels|, key)
    {
      HistoryInv(g, states, labels, exact, State(T(), Idle));
      forall u: nat | |before.labels| <= u < |labels| - 1 ensures !labels[u].Count? {
        assert labels[u] == seg[..|seg| - 1][u - |before.labels|];
      }
      InsertsOne(g, states, labels, |before.labels|, |labels|, mid, key);
    }

    method Finish(pos: nat, key: Key, value: Val, check: Check, ghost force: bool, ghost i: nat, ghost j: nat,
                  ghost T0: Table, ghost before: Past, ghost gone: seq<Key>, ghost seg: seq<Label>)
      returns (s: Slot, ghost seg': seq<Label>)
      requires Ready(T0, before, key, value, check, force, i, j, gone, seg) && pos == g.Pos(key, j) && i < g.n
      requires T().chunks[pos].size < LANES
      modifies this, table
      ensures exact == old(exact) && Inserted(T0, before, key, value, check, gone, seg', s)
      ensures !(Jammed(g, T0, key, check) && (!force || g.n == 1))
    {
      ghost var T1 := T();
      assert g.Pos(key, 0) == g.Home(key);
      s := PlaceIn(pos, key, value, j);
      TaleEnds(T0, T0.Persisted(), before.labels, T1, T1.Persisted(), old(states), old(labels), gone, seg,
               T().Persisted(), states, labels, key, value, j, s);
      seg' := seg + PlaceLabels(key, value, j, s);
      Began(before, seg', |old(labels)|, key);
    }

    method GoOn(pos: nat, key: Key, value: Val, ghost check: Check, ghost force: bool, ghost i: nat, ghost j: nat,
                ghost T0: Table, ghost before: Past, ghost gone: seq<Key>, ghost seg: seq<Label>)
      returns (next: nat, ghost seg': seq<Label>)
      requires Ready(T0, before, key, value, check, force, i, j, gone, seg) && pos == g.Pos(key, j)
      requires T().chunks[pos].size == LANES && !IsFull(g, T().size)
      modifies table, this`states, this`labels
      ensures Looping(T0, before, key, value, check, force, i + 1, j + 1, gone, seg') && next == g.Pos(key, j + 1)
    {
      ghost var T1 := T();
      next, seg' := Pass(pos, key, value, j, T0, before, gone, seg);
      RaiseProgress(g, T0, T1, T(), T0.Persisted(), key, check, i, j, Jammed(g, T0, key, check), force, gone);
    }

    method Evict(pos: nat, key: Key, ghost value: Val, ghost check: Check, ghost force: bool, i: nat, ghost j: nat,
                 ghost T0: Table, ghost before: Past, ghost gone: seq<Key>, ghost seg: seq<Label>)
      returns (ghost gone': seq<Key>, ghost seg': seq<Label>)
      requires Ready(T0, before, key, value, check, force, i, j, gone, seg) && pos == g.Pos(key, j) && force
      requires T().chunks[pos].size == LANES && IsFull(g, T().size)
      modifies this, table
      ensures exact == old(exact) && Looping(T0, before, key, value, check, force, i + 1, j, gone', seg')
    {
      ghost var T1 := T();
      var lane := (g.Sign(key) + i) % LANES;
      FullLane(Probing(key, value, j), pos, lane);
      gone', seg' := DropLane(pos, lane, Probing(key, value, j), T0, before, gone, seg);
      EvictProgress(g, T0, T1, T(), T0.Persisted(), key, check, i, j, Jammed(g, T0, key, check), force, gone);
    }

    /** An iteration of Insert that finds its chunk full. */
    method FullTurn(i: nat, pos: nat, key: Key, value: Val, ghost check: Check, force: bool, ghost j: nat,
                    ghost T0: Table, ghost before: Past, ghost gone: seq<Key>, ghost seg: seq<Label>)
      returns (turn: Turn, ghost j': nat, ghost gone': seq<Key>, ghost seg': seq<Label>)
      requires Ready(T0, before, key, value, check, force, i, j, gone, seg) && pos == g.Pos(key, j)
      requires T().chunks[pos].size == LANES
      modifies this, table
      ensures exact == old(exact) && !turn.Done?
      ensures turn.OutOfMemory? ==> Jammed(g, T0, key, check) && !force
      ensures turn.Advance? ==>
              Looping(T0, before, key, value, check, force, i + 1, j', gone', seg') && turn.pos == g.Pos(key, j')
    {
      j', gone', seg' := j, gone, seg;
      if !Full() {
        var next;
        next, seg' := GoOn(pos, key, value, check, force, i, j, T0, before, gone, seg);
        j' := j + 1;
        turn := Advance(next);
      } else if !force {
        assert g.Pos(key, 0) == g.Home(key);
        turn := OutOfMemory;
      } else {
        gone', seg' := Evict(pos, key, value, check, force, i, j, T0, before, gone, seg);
        turn := Advance(pos);
      }
    }

    /** One iteration of Insert. */
    method OneTurn(i: nat, pos: nat, key: Key, value: Val, check: Check, force: bool, ghost j: nat,
                   ghost T0: Table, ghost before: Past, ghost gone: seq<Key>, ghost seg: seq<Label>)
      returns (turn: Turn, ghost j': nat, ghost gone': seq<Key>, ghost seg': seq<Label>)
      requires Looping(T0, before, key, value, check, force, i, j, gone, seg) && i < g.n && j < g.n
               && pos == g.Pos(key, j)
      modifies this, table
      ensures exact == old(exact)
      ensures turn.OutOfMemory? ==> Jammed(g, T0, key, check) && !force
      ensures turn.Done? ==> !(Jammed(g, T0, key, check) && (!force || g.n == 1))
      ensures turn.Done? ==> Inserted(T0, before, key, value, check, gone', seg', turn.slot)
      ensures turn.Advance? ==>
              Looping(T0, before, key, value, check, force, i + 1, j', gone', seg') && turn.pos == g.Pos(key, j')
    {
      j' := j;
      gone', seg' := Prepare(pos, key, value, check, force, i, j, T0, before, gone, seg);
      SizeAt(Probing(key, value, j), pos);
      if table[pos].size < LANES {
        var s;
        s, seg' := Finish(pos, key, value, check, force, i, j, T0, before, gone', seg');
        turn := Done(s);
      } else {
        turn, j', gone', seg' := FullTurn(i, pos, key, value, check, force, j, T0, before, gone', seg');
      }
    }

    lemma SizeAt(a: Act, pos: nat)
      requires At(a) && (a.Idle? || a.Probing?) && pos < g.n
      ensures pos < table.Length && T().chunks[pos] == table[pos] && table[pos].size <= LANES
    {
      SizeBound(a, pos);
    }

    /** The size of the table is the number of its keys. */
    lemma CountsAll()
      requires Valid()
      ensures T().size == |Contents()| && T().Contents() == T().Persisted()
    {
      Inv(Idle);
      IdleInv(g, T(), exact);
      ViewSize(T(), T().Used());
    }

    /** Record the start of an Insert. */
    ghost method Start(key: Key, value: Val)
      requires Valid() && key != NO_KEY && key !in Contents()
      modifies this`states, this`labels
      ensures Looping(T(), Past(old(states), old(labels)), key, value, None, false, 0, 0, [], [Begin(key, value)])
      ensures T().Contents() == T().Persisted()
    {
      ghost var T0 := T();
      Inv(Idle);
      IdleInv(g, T0, exact);
      TaleBegins(T0, T0.Persisted(), states, labels);
      Log(T0, Idle, Begin(key, value), Probing(key, value, 0));
      TaleGoesOn(T0, T0.Persisted(), old(labels), T0, T0.Persisted(), old(states), old(labels), [], [], T0,
                 State(T0, Probing(key, value, 0)), Begin(key, value));
    }

    /**
      Insert a key that is not stored. Probe from the home chunk; in each chunk delete
      expired keys if it is nearly full, store the item if there is room, and otherwise
      raise its counter and go on; at the load limit evict a key if that is allowed.
     */
    method Insert(key: Key, value: Val, check: Check, force: bool)
      returns (r: Option<Slot>, ghost gone: seq<Key>, ghost seg: seq<Label>)
      requires Valid() && key != NO_KEY && key !in Contents()
      modifies this, table
      ensures exact == old(exact) && g.Valid() && old(T()).Shaped(g)
      ensures r.None? <==> Blocked(g, old(T()), old(Contents()), key, check) && (!force || g.n == 1)
      ensures r.Some? ==> GivesUp(g, old(T()), old(Contents()), key, check, gone)
      ensures r.Some? ==> Inserted(old(T()), Past(old(states), old(labels)), key, value, check, gone, seg, r.value)
    {
      ghost var T0, m := T(), Contents();
      CountsAll();
      BlockedIsJammed(g, T0, m, key, check);
      r, gone, seg := InsertProbing(key, value, check, force);
      if r.Some? { AccountGives(g, T0, m, key, check, gone); }
    }

    /** The loop of Insert. */
    method InsertProbing(key: Key, value: Val, check: Check, force: bool)
      returns (r: Option<Slot>, ghost gone: seq<Key>, ghost seg: seq<Label>)
      requires Valid() && key != NO_KEY && key !in Contents()
      modifies this, table
      ensures exact == old(exact)
      ensures r.None? <==> Jammed(g, old(T()), key, check) && (!force || g.n == 1)
      ensures r.Some? ==> Inserted(old(T()), Past(old(states), old(labels)), key, value, check, gone, seg, r.value)
    {
      ghost var T0, before, j := T(), Past(states, labels), 0;
      Start(key, value);
      gone, seg := [], [Begin(key, value)];
      var pos, i := g.Home(key), 0;
      while i < g.n
        invariant i <= g.n && exact == old(exact) && Looping(T0, before, key, value, check, force, i, j, gone, seg)
        invariant pos == g.Pos(key, j)
      {
        var turn;
        turn, j, gone, seg := OneTurn(i, pos, key, value, check, force, j, T0, before, gone, seg);
        match turn {
          case Done(s) => return Some(s), gone, seg;
          case OutOfMemory => return None, gone, seg;
          case Advance(next) => pos := next;
        }
        i := i + 1;
      }
      r := None;
      RunsOut(key, value, check, force, j, T0, before, gone, seg);
    }

    /** An Insert that comes to its last iteration and past it was jammed in the only chunk. */
    lemma RunsOut(key: Key, value: Val, check: Check, force: bool, j: nat, T0: Table, before: Past, gone: seq<Key>,
                  seg: seq<Label>)
      requires Looping(T0, before, key, value, check, force, g.n, j, gone, seg)
      ensures Jammed(g, T0, key, check) && g.n == 1
    {
      SizeBound(Probing(key, value, j), 0);
      if j == g.n { AllFull(g, T()); }
    }

    /** Key `key` is stored in slot `s` with value `value`, and since table `T0` only the keys `gone` were deleted. */
    ghost predicate Stored(T0: Table, before: seq<Label>, key: Key, value: Val, gone: seq<Key>, s: Slot)
      reads this, table
    {
      Valid() && Has(g, s) && Mapped(T0, before, T(), labels, states, key, value, gone, s)
    }

    /** Replace the value of a stored key. */
    method Replace(s: Slot, key: Key, value: Val)
      requires Valid() && Has(g, s) && T().Tag(s) != 0 && T().KeyAt(s) == key
      modifies table, this`states, this`labels
      ensures Stored(old(T()), old(labels), key, value, [], s)
    {
      ghost var T0, labels0, states0 := T(), labels, states;
      Lengths(Idle);
      StoreValue(s, value);
      Lengths(Idle);
      SetItemAt(g, T0, s, key, value);
      Overwrites(T0, labels0, states0, T(), labels, states, key, value, s, T0.Persisted(), T().Persisted());
    }

    /** Write through a pointer to the value of a stored key. */
    method Assign(s: Slot, key: Key, value: Val)
      requires Valid() && Has(g, s) && T().Tag(s) != 0 && T().KeyAt(s) == key
      modifies table, this`states, this`labels
      ensures Valid() && Contents() == old(Contents())[key := value]
      ensures old(states) <= states && old(labels) <= labels
      ensures Journey(states, labels, |old(labels)|, old(Contents()), [], key, value)
    {
      ghost var before, was, m := labels, states, Contents();
      OnlySlot(Idle, s);
      Lengths(Idle);
      StoreValue(s, value);
      Same();
      Assigned(before, was, s, m, key, value);
    }

    /** The last step of the log replaced the value of a stored key. */
    lemma Assigned(before: seq<Label>, was: seq<State>, s: Slot, m: map<Key, Val>, key: Key, value: Val)
      requires Valid() && labels == before + [Overwrite(s, value)] && was <= states && |was| == |before| + 1
      requires key in m && was[|before|].act.Idle? && was[|before|].T.Persisted() == m
      requires T().Persisted() == m[key := value]
      ensures Journey(states, labels, |before|, m, [], key, value)
    {
      Lengths(Idle);
      ReplaceCuts(was, states, |before|, m, m[key := value]);
      ReplaceJourney(was[|before|].T, before, states, s, m, m[key := value], key, value);
    }

    /** Set a key: overwrite its value if it is stored, insert it if not. */
    method Set(key: Key, value: Val, check: Check, force: bool) returns (r: Option<Slot>, ghost gone: seq<Key>)
      requires Valid() && key != NO_KEY
      modifies this, table
      ensures exact == old(exact) && g.Valid() && old(T()).Shaped(g)
      ensures r.None? <==>
              key !in old(Contents()) && Blocked(g, old(T()), old(Contents()), key, check) && (!force || g.n == 1)
      ensures r.Some? ==> Stored(old(T()), old(labels), key, value, gone, r.value)
      ensures r.Some? && key in old(Contents()) ==> gone == []
      ensures r.Some? && key !in old(Contents()) ==>
                GivesUp(g, old(T()), old(Contents()), key, check, gone)
    {
      r := Locate(key, Idle);
      gone := [];
      if r.Some? {
        Replace(r.value, key, value);
      } else {
        ghost var seg;
        r, gone, seg := Insert(key, value, check, force);
      }
    }

    /** Between operations a lookup sees what is persisted. */
    lemma Same()
      requires Valid()
      ensures T().Contents() == T().Persisted()
    {
      Inv(Idle);
    }

    // ---- Reload ----

    /** Recompute the tags and the size of one chunk from its keys, and clear its counter. */
    method ReloadLanes(c: nat, ghost T0: Table, count: nat) returns (count': nat)
      requires g.Valid() && T().Shaped(g) && T0.Shaped(g) && c < g.n && T().chunks[c] == T0.chunks[c]
      requires count == |KeysBelow(T0, c, 0)|
      modifies table
      ensures T() == old(T()).Put(c, ReloadChunk(g, T0, c).(overflow := 0))
      ensures count' == |KeysBelow(T0, c + 1, 0)|
    {
      ghost var ch0 := T0.chunks[c];
      var ch := table[c].(size := 0, overflow := 0);
      assert table[c] == ch0;
      count' := count;
      var l := 0;
      while l < LANES
        invariant l <= LANES && T() == old(T()) && ch.Shaped()
                  && ch == ch0.(tags := ch.tags, size := ch.size, overflow := 0)
        invariant count' == |KeysBelow(T0, c, l)| && ch.size == |KeyLanesBelow(ch0, l)|
        invariant forall m: nat :: m < LANES ==>
                    ch.tags[m] == if m < l && ch0.keys[m] != NO_KEY then g.Sign(ch0.keys[m]) else ch0.tags[m]
      {
        KeysBelowNext(T0, c, l);
        KeyLanesNext(ch0, l);
        if ch.keys[l] != NO_KEY {
          count' := count' + 1;
          ch := ch.(size := ch.size + 1, tags := ch.tags[l := g.Sign(ch.keys[l])]);
        }
        l := l + 1;
      }
      assert KeysBelow(T0, c + 1, 0) == KeysBelow(T0, c, LANES);
      assert KeyLanesBelow(ch0, LANES) == KeyLanes(ch0);
      assert ch.tags == ReloadTags(g, ch0);
      assert ch == ReloadChunk(g, T0, c).(overflow := 0);
      StoreChunk(c, ch);
    }

    /** The first pass of Reload. */
    method ReloadKeys()
      requires g.Valid() && T().Shaped(g)
      modifies this`size, table
      ensures T() == Cleared(g, old(T()))
    {
      ghost var T0 := T();
      var count, c := 0, 0;
      assert KeysBelow(T0, 0, 0) == {};
      while c < g.n
        invariant c <= g.n && ClearedBelow(g, T0, T(), c) && count == |KeysBelow(T0, c, 0)|
      {
        ClearedNext(g, T0, T(), c);
        count := ReloadLanes(c, T0, count);
        c := c + 1;
      }
      ClearedAll(g, T0, T());
      size := count;
    }

    /** One iteration of the walk below. */
    method RaiseNext(pos: nat, key: Key, ghost s: Slot, ghost S: set<Slot>, ghost U: Table, ghost i: nat)
      returns (next: nat)
      requires g.Valid() && T().Shaped(g) && CountersOnly(U, T()) && T().KeyAt(s) == key && pos == g.Pos(key, i)
      requires Capped(g, T(), S, Path(g, key, 0, i))
      modifies table
      ensures T().Shaped(g) && CountersOnly(U, T()) && T().KeyAt(s) == key && next == g.Pos(key, i + 1)
      ensures Capped(g, T(), S, Path(g, key, 0, i + 1))
    {
      ghost var T1 := T();
      assert T1.chunks[pos] == table[pos];
      CappedRaise(g, T1, S, Path(g, key, 0, i), pos);
      PathExtend(g, key, 0, i);
      StoreChunk(pos, table[pos].IncOverflow());
      RaisedOnly(g, T1, pos);
      CountersOnlyTrans(U, T1, T());
      CountersOnlyItem(T1, T(), s);
      next := Wrap(pos + g.Step(key), g.n);
    }

    /** Raise the counters on the path of the key in slot `s`. */
    method RaisePath(s: Slot, ghost S: set<Slot>, ghost U: Table)
      requires g.Valid() && T().Shaped(g) && Has(g, s) && s !in S && CountersOnly(U, T())
      requires Capped(g, T(), S, multiset{})
      modifies table
      ensures T().Shaped(g) && CountersOnly(U, T()) && Capped(g, T(), S + {s}, multiset{})
    {
      assert T().chunks[s.chunk] == table[s.chunk];
      var key := table[s.chunk].keys[s.lane];
      var pos := g.Home(key);
      ghost var i, r := 0, g.Rank(key, s.chunk);
      g.PosOfRank(key, s.chunk);
      while pos != s.chunk
        invariant i <= r && pos == g.Pos(key, i)
        invariant table.Length == g.n && T().Shaped(g) && CountersOnly(U, T()) && T().KeyAt(s) == key
        invariant Capped(g, T(), S, Path(g, key, 0, i))
        decreases r - i
      {
        pos := RaiseNext(pos, key, s, S, U, i);
        i := i + 1;
      }
      g.RankOfPos(key, i);
      CappedSlot(g, T(), S, s);
    }

    /** The counters count the keys of `U` in the chunks below `c` and the lanes below `l` of chunk `c`. */
    ghost predicate Recounting(U: Table, c: nat, l: nat)
      reads this, table
    {
      forall n: nat {:trigger CountSeal(n)} :: CountSeal(n) ==>
        T().Shaped(g) && CountersOnly(U, T()) && Capped(g, T(), TagsBelow(U, c, l), multiset{})
    }

    /** The work of the second pass for one lane. */
    method ReloadSlot(c: nat, l: nat, ghost U: Table)
      requires g.Valid() && Recounting(U, c, l) && c < g.n && l < LANES
      modifies table
      ensures Recounting(U, c, l + 1)
    {
      assert CountSeal(0);
      assert T().chunks[c] == table[c];
      CountersOnlyItem(U, T(), Slot(c, l));
      if table[c].tags[l] != 0 {
        RaisePath(Slot(c, l), TagsBelow(U, c, l), U);
        assert TagsBelow(U, c, l + 1) == TagsBelow(U, c, l) + {Slot(c, l)};
      } else {
        assert TagsBelow(U, c, l + 1) == TagsBelow(U, c, l);
      }
    }

    /** The work of the second pass for one chunk. */
    method ReloadLanesOf(c: nat, ghost U: Table)
      requires g.Valid() && Recounting(U, c, 0) && U.Shaped(g) && c < g.n
      modifies table
      ensures Recounting(U, c + 1, 0)
    {
      var l := 0;
      while l < LANES
        invariant l <= LANES && Recounting(U, c, l)
      {
        ReloadSlot(c, l, U);
        l := l + 1;
      }
      NextChunk(U, c);
    }

    lemma NextChunk(U: Table, c: nat)
      requires g.Valid() && Recounting(U, c, LANES) && U.Shaped(g) && c < g.n
      ensures Recounting(U, c + 1, 0)
    {
      assert CountSeal(0);
      TagsBelowChunk(g, U, c);
    }

    /** The second pass of Reload, by a single thread. */
    method ReloadCounters()
      requires g.Valid() && T().Shaped(g) && forall c: nat :: c < g.n ==> T().chunks[c].overflow == 0
      modifies table
      ensures T().Shaped(g) && CountersOnly(old(T()), T()) && Capped(g, T(), old(T()).Used(), multiset{})
    {
      ghost var U := T();
      NothingCapped(g, U);
      assert TagsBelow(U, 0, 0) == {};
      var c := 0;
      while c < g.n
        invariant c <= g.n && Recounting(U, c, 0)
      {
        ReloadLanesOf(c, U);
        c := c + 1;
      }
      assert CountSeal(0);
      assert TagsBelow(U, g.n, 0) == U.Used();
    }

    /**
      Rebuild tags, sizes and counters from the keys. The table may hold anything
      else; if its keys are distinct, no empty slot carries a tag and no chunk is
      marked as migrating, it is intact again and holds exactly what was persisted.
     */
    method ReloadAll()
      requires g.Valid() && T().Shaped(g)
      modifies this, table
      ensures T() == Reload(g, old(T()))
      ensures old(T()).Quiet() && old(T()).Distinct(old(T()).Occupied()) && EmptyUntagged(old(T())) ==>
                Valid() && exact && Contents() == old(T()).Persisted()
    {
      ghost var T0 := T();
      ReloadKeys();
      ghost var U := T();
      ReloadCounters();
      CappedIsReload(g, T0, U, T());
      exact, states, labels := true, [State(T(), Idle)], [];
      if T0.Quiet() && T0.Distinct(T0.Occupied()) && EmptyUntagged(T0) {
        ReloadRestores(g, T0);
        HistoryStarts(g, State(T(), Idle), true);
      }
    }
  }

  const EMPTY: Chunk := Chunk(seq(LANES, _ => 0), seq(LANES, _ => NO_KEY), seq(LANES, _ => 0), 0, 0, false)

  function Wiped(g: Geometry): Table {
    Table(seq(g.n, _ => EMPTY), 0)
  }

  lemma EmptyTable(g: Geometry, T: Table)
    requires g.Valid() && |T.chunks| == g.n && T.size == 0 && forall c :: 0 <= c < g.n ==> T.chunks[c] == EMPTY
    ensures StateInv(g, State(T, Idle), true) && T.Contents() == map[]
  {
    assert forall s: Slot :: T.Tag(s) == 0 && T.KeyAt(s) == NO_KEY;
    assert T.Used() == {} && T.Occupied() == {};
    forall c: nat | c < g.n ensures T.chunks[c].size == |T.chunks[c].Lanes()| { assert EMPTY.Lanes() == {}; }
    forall c: nat | c < g.n ensures CountOk(T.Overflow(c), |T.Passers(g, {}, c)| + multiset{}[c], true) {
      assert T.Passers(g, {}, c) == {};
    }
  }

  /**
    The key is in slot `s`, and the map is the one before with `gone` deleted and the key
    mapped; so it was at each step on the way.
   */
  ghost predicate Mapped(T0: Table, before: seq<Label>, T: Table, labels: seq<Label>, states: seq<State>, key: Key,
                         value: Val, gone: seq<Key>, s: Slot) {
    // A single case, so that the predicate stays folded where it is only passed on.
    match s
    case Slot(_, _) =>
      && T.Tag(s) != 0 && T.KeyAt(s) == key
      && T.Persisted() == (T0.Persisted() - Elems(gone))[key := value]
      && Cuts(states, |before|, |labels|, Stages(T0.Persisted(), gone) + {T.Persisted()})
  }

  lemma Overwrites(T: Table, labels: seq<Label>, states: seq<State>, T': Table, labels': seq<Label>,
                   states': seq<State>,
                   key: Key, value: Val, s: Slot, m: map<Key, Val>, m': map<Key, Val>)
    requires m == T.Persisted() && m' == T'.Persisted() && m' == m[key := value] && T'.Tag(s) != 0 && T'.KeyAt(s) == key
    requires |states| == |labels| + 1 && states[|labels|].T.Persisted() == m && states <= states'
    requires |labels'| == |labels| + 1 && |states'| == |labels'| + 1 && states'[|labels'|].T.Persisted() == m'
    ensures Mapped(T, labels, T', labels', states', key, value, [], s)
  {
    ReplaceCuts(states, states', |labels|, m, m');
    NothingGone(m);
  }

  /**
    What an Insert of `key` into a table with map `m` gives up. A home chunk of 14 keys, all
    of them kept, in a table 90 per cent full costs the key in one lane of it. Otherwise
    only keys that the check gives up go, from chunks of at least 12 keys, and all of these
    from such a home chunk.
   */
  ghost predicate GivesUp(g: Geometry, T: Table, m: map<Key, Val>, key: Key, check: Check, gone: seq<Key>)
    requires g.Valid() && T.Shaped(g)
  {
    var home := T.chunks[g.Home(key)];
    if Blocked(g, T, m, key, check) then gone == [home.keys[(0x80 + g.crc(g.hash(key))) % 14]]
    else if check.Some? then GivenUp(T, m, check.value, gone, 0) && Rid(home, check.value, gone)
    else gone == []
  }

  /** The home chunk has 14 keys, all of them kept, and the table is 90 per cent full. */
  ghost predicate Blocked(g: Geometry, T: Table, m: map<Key, Val>, key: Key, check: Check)
    requires g.Valid() && T.Shaped(g)
  {
    var home := T.chunks[g.Home(key)];
    && home.size == 14 && 10 * |m| >= 9 * 14 * g.n
    && (check.Some? ==> forall l: nat :: l < 14 && home.tags[l] != 0 ==> check.value(home.keys[l], home.vals[l]))
  }

  lemma BlockedIsJammed(g: Geometry, T: Table, m: map<Key, Val>, key: Key, check: Check)
    requires g.Valid() && T.Shaped(g) && T.size == |m|
    ensures Jammed(g, T, key, check) <==> Blocked(g, T, m, key, check)
  {
    FullInNumbers(g, T.size);
  }

  lemma AccountGives(g: Geometry, T: Table, m: map<Key, Val>, key: Key, check: Check, gone: seq<Key>)
    requires g.Valid() && T.Shaped(g) && T.size == |m|
    requires Account(g, T, m, key, check, Jammed(g, T, key, check), 1, gone)
    ensures GivesUp(g, T, m, key, check, gone)
  {
    BlockedIsJammed(g, T, m, key, check);
  }

  /** A table between operations. */
  ghost predicate Rested(g: Geometry, T: Table) {
    // A single case, so that the predicate stays folded where it is only passed on.
    match T
    case Table(_, _) => T.Basic(g) && T.Used() == T.Occupied()
  }

  lemma NothingGone(m: map<Key, Val>)
    ensures m - Elems([]) == m
  {}

  /** An item was placed in slot `s` and then tagged. */
  ghost predicate Landed(T: Table, labels: seq<Label>, states: seq<State>, T': Table, labels': seq<Label>,
                         states': seq<State>, key: Key, value: Val, j: nat, s: Slot) {
    // A single case, so that the predicate stays folded where it is only passed on.
    match s
    case Slot(_, lane) =>
      && T'.Tag(s) != 0 && T'.KeyAt(s) == key && T'.ValAt(s) == value
      && T'.Persisted() == T.Persisted()[key := value]
      && labels' == labels + PlaceLabels(key, value, j, s) && states <= states'
      && Cuts(states', |labels|, |labels'|, {T.Persisted(), T'.Persisted()})
  }

  lemma Lands(g: Geometry, T1: Table, T2: Table, T3: Table, T4: Table, s: Slot, key: Key, value: Val)
    requires T1.Shaped(g) && Has(g, s) && T2 == Widen(T1, s.chunk) && T2.Shaped(g)
             && T3 == SetItem(g, T2, s, key, value)
    requires T3.Shaped(g) && T4 == SetTag(g, T3, s, g.Sign(T3.KeyAt(s)))
    ensures var T5 := T4.(size := T4.size + 1); T5.Tag(s) != 0 && T5.KeyAt(s) == key && T5.ValAt(s) == value
  {
    SetItemAt(g, T2, s, key, value);
    SetTagTags(g, T3, s, g.Sign(T3.KeyAt(s)));
  }

  lemma RaisedOnly(g: Geometry, T: Table, c: nat)
    requires T.Shaped(g) && c < g.n
    ensures T.Put(c, T.chunks[c].IncOverflow()).Shaped(g) && CountersOnly(T, T.Put(c, T.chunks[c].IncOverflow()))
  {}

  lemma NothingCapped(g: Geometry, T: Table)
    requires T.Shaped(g) && forall c: nat :: c < g.n ==> T.chunks[c].overflow == 0
    ensures Capped(g, T, {}, multiset{})
  {
    forall c: nat | c < g.n ensures T.Overflow(c) == Min(STUCK, |T.Passers(g, {}, c)| + multiset{}[c]) {
      assert T.Passers(g, {}, c) == {};
    }
  }

  lemma CappedIsReload(g: Geometry, T0: Table, U: Table, T: Table)
    requires g.Valid() && T0.Shaped(g) && U == Cleared(g, T0) && T.Shaped(g)
    requires CountersOnly(U, T) && Capped(g, T, U.Used(), multiset{})
    ensures T == Reload(g, T0)
  {
    forall c: nat | c < g.n ensures T.chunks[c] == Reload(g, T0).chunks[c] {
      forall s ensures T.KeyAt(s) == U.KeyAt(s) { CountersOnlyItem(U, T, s); }
      PassersFrame(g, U, T, U.Used(), c);
      assert T.Overflow(c) == Min(STUCK, |T.Passers(g, U.Used(), c)| + multiset{}[c]);
    }
    assert T.chunks == Reload(g, T0).chunks;
  }

  /** What one iteration of Insert leads to. */
  datatype Turn = Done(slot: Slot) | OutOfMemory | Advance(pos: nat)
}
