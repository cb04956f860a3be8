/** The hash table as the index of a store: its values are packed words, read as block offsets. */
module Index {
  import opened Options
  import opened Seals
  import opened Bits
  import opened Probe
  import opened Table
  import opened Writer
  import opened Changes
  import opened PetHash
  import opened Packing

  /** `at` gives the offsets that the words of `m` stand for. */
  ghost predicate Reads(c: Config, m: map<Key, Val>, at: map<Key, int>)
    requires c.Valid()
  {
    at.Keys == m.Keys && forall k :: k in m ==> at[k] == c.Offset(m[k])
  }

  ghost predicate Agree(c: Config, m: map<Key, Val>, at: map<Key, int>)
    requires c.Valid()
  {
    forall n: nat {:trigger AgreeSeal(n)} :: AgreeSeal(n) ==> Reads(c, m, at)
  }

  lemma AgreeAt(c: Config, m: map<Key, Val>, at: map<Key, int>, k: Key)
    requires c.Valid() && Agree(c, m, at)
    ensures k in at <==> k in m
    ensures k in m ==> at[k] == c.Offset(m[k])
  {
    assert AgreeSeal(0);
  }

  lemma AgreePut(c: Config, m: map<Key, Val>, at: map<Key, int>, gone: set<Key>, key: Key, word: Val)
    requires c.Valid() && Agree(c, m, at)
    ensures Agree(c, Put(m, gone, key, word), Put(at, gone, key, c.Offset(word)))
  {
    assert AgreeSeal(0);
  }

  lemma AgreeSet(c: Config, m: map<Key, Val>, at: map<Key, int>, key: Key, word: Val)
    requires c.Valid() && Agree(c, m, at)
    ensures Agree(c, m[key := word], at[key := c.Offset(word)])
  {
    assert AgreeSeal(0);
  }

  lemma AgreeSize(c: Config, m: map<Key, Val>, at: map<Key, int>)
    requires c.Valid() && Agree(c, m, at)
    ensures |at| == |m|
  {
    assert AgreeSeal(0);
    assert |at.Keys| == |m.Keys|;
  }

  /**
    The key that inserting `key` pushes out, if its home chunk is full and the table at its
    load limit.
   */
  ghost function Pushes(g: Geometry, T: Table, key: Key): (r: seq<Key>)
    requires g.Valid() && T.Shaped(g)
  {
    if Jammed(g, T, key, None) then [Victim(g, T, key)] else []
  }

  /** In numbers: 14 keys in the home chunk, and the table 90 per cent full. */
  lemma PushesInNumbers(g: Geometry, T: Table, key: Key)
    requires g.Valid() && T.Shaped(g)
    ensures var home := T.chunks[g.Home(key)];
            Pushes(g, T, key) == if home.size == 14 && 10 * T.size >= 9 * 14 * g.n
                                 then [home.keys[(0x80 + g.crc(g.hash(key))) % 14]] else []
  {
    FullInNumbers(g, T.size);
  }

  /** The width of the offsets is the one chosen for a shard of `memory` bytes. */
  ghost predicate Suits(c: Config, memory: nat) {
    c.Valid() && (memory < LARGE ==> c == DEFAULT) && (memory >= LARGE ==> memory < Pow2(c.w + 3))
  }

  lemma PacksOffset(c: Config, memory: nat, off: nat, word: Word)
    requires Suits(c, memory) && off % 8 == 0 && off + 8 <= memory
    ensures c.Offset(c.SetOffset(word, off)) == off
  {
    WidthSuffices(memory, c, off);
    PackRoundTrip(c, word, off);
  }

  /** Every key of `m` leads where `at` says, but for `key`, which may lead to `off`. */
  ghost predicate Led(c: Config, m: map<Key, Val>, at: map<Key, int>, key: Key, off: int)
    requires c.Valid()
  {
    forall k :: k in m ==> (k in at && c.Offset(m[k]) == at[k]) || (k == key && c.Offset(m[k]) == off)
  }

  /**
    From moment `a` on, when the keys led to the offsets `at`, the writer led `key` to
    offset `off` and deleted no key but those of `gone`. It was at rest before and after.
   */
  ghost predicate Leads(c: Config, states: seq<State>, labels: seq<Label>, a: nat, at: map<Key, int>, gone: seq<Key>,
                        key: Key, off: int)
    requires c.Valid()
  {
    && a < |labels| && |states| == |labels| + 1 && states[a].act.Idle? && states[|labels|].act.Idle?
    && (if key in at then |labels| == a + 1 else Inserting(states, a, |labels|, key))
    && (forall t: nat :: a <= t < |states| ==> Led(c, states[t].T.Persisted(), at, key, off))
    && (forall u: nat :: a <= u < |labels| && labels[u].BeginDelete? ==> states[a].T.KeyAt(labels[u].slot) in gone)
  }

  ghost predicate Trail(c: Config, states: seq<State>, labels: seq<Label>, a: nat, at: map<Key, int>, gone: seq<Key>,
                        key: Key, off: int)
    requires c.Valid()
  {
    forall n: nat {:trigger TrailSeal(n)} :: TrailSeal(n) ==> Leads(c, states, labels, a, at, gone, key, off)
  }

  lemma JourneyTrail(c: Config, states: seq<State>, labels: seq<Label>, a: nat, m: map<Key, Val>, at: map<Key, int>,
                     gone: seq<Key>, key: Key, v: Val, off: int)
    requires c.Valid() && Agree(c, m, at) && Journey(states, labels, a, m, gone, key, v) && c.Offset(v) == off
    ensures Trail(c, states, labels, a, at, gone, key, off)
  {
    assert AgreeSeal(0);
    assert TrailSeal(0);
    forall t: nat | a <= t < |states| ensures Led(c, states[t].T.Persisted(), at, key, off) {
      assert Between(states[t].T.Persisted(), m, key, v);
    }
  }

  class Index {
    const dict: PetHash
    const config: Config
    /** The size of the memory that the offsets lead into. */
    const memory: nat
    /** The offset of each stored key's block. */
    ghost var at: map<Key, int>

    ghost predicate Intact()
      reads this, dict, dict.table
    {
      Suits(config, memory) && dict.Valid() && Agree(config, dict.Contents(), at)
    }

    ghost predicate Valid()
      reads this, dict, dict.table
    {
      forall n: nat {:trigger IndexSeal(n)} :: IndexSeal(n) ==> Intact()
    }

    constructor (dict: PetHash, config: Config, memory: nat, ghost at: map<Key, int>)
      requires Suits(config, memory) && dict.Valid() && Agree(config, dict.Contents(), at)
      ensures Valid() && this.dict == dict && this.config == config && this.memory == memory && this.at == at
    {
      this.dict, this.config, this.memory, this.at := dict, config, memory, at;
    }

    /** What the table has been through. */
    ghost function Log(): Past
      reads this, dict
    {
      Past(dict.states, dict.labels)
    }

    /** The keys pushed out when `key` is stored. */
    ghost function Pushed(key: Key): seq<Key>
      reads this, dict, dict.table
      requires Valid()
    {
      assert IndexSeal(0);
      if key in at then [] else Pushes(dict.g, dict.T(), key)
    }

    lemma PushedIs(key: Key)
      requires Valid()
      ensures dict.g.Valid() && dict.T().Shaped(dict.g)
      ensures Pushed(key) == if key in dict.Contents() then [] else Pushes(dict.g, dict.T(), key)
      ensures dict.Contents().Keys == at.Keys
    {
      assert IndexSeal(0);
      assert AgreeSeal(0);
    }

    /** The number of keys in the home chunk of a key. */
    ghost function HomeSize(key: Key): nat
      reads this, dict, dict.table
      requires Valid()
    {
      assert IndexSeal(0);
      dict.T().chunks[dict.g.Home(key)].size
    }

    /** A key is pushed out exactly if the home chunk has 14 keys and the table is 90 per cent full. */
    lemma PushedInNumbers(key: Key)
      requires Valid()
      ensures Pushed(key) != [] <==> key !in at && HomeSize(key) == 14 && 10 * |at| >= 9 * 14 * dict.g.n
    {
      assert IndexSeal(0);
      Size();
      PushesInNumbers(dict.g, dict.T(), key);
    }

    /** What is pushed out was stored. */
    lemma PushedIsStored(key: Key)
      requires Valid()
      ensures |Pushed(key)| <= 1 && forall k :: k in Pushed(key) ==> k in at && key !in at
    {
      assert IndexSeal(0);
      if Pushed(key) != [] {
        var s := Slot(dict.g.Home(key), dict.g.Sign(key) % LANES);
        dict.FullLane(Idle, s.chunk, s.lane);
        dict.OnlySlot(Idle, s);
        AgreeAt(config, dict.Contents(), at, dict.T().KeyAt(s));
      }
    }

    lemma Size()
      requires Valid()
      ensures dict.size == |at|
    {
      assert IndexSeal(0);
      dict.Inv(Idle);
      IdleInv(dict.g, dict.T(), dict.exact);
      ViewSize(dict.T(), dict.T().Used());
      AgreeSize(config, dict.Contents(), at);
    }

    lemma Lengths()
      requires Valid()
      ensures |dict.states| == |dict.labels| + 1
    {
      assert IndexSeal(0);
      dict.Lengths(Idle);
    }

    /** Between operations the table is at rest, and what is persisted is what it holds. */
    lemma Rests()
      requires Valid()
      ensures |dict.states| == |dict.labels| + 1 && dict.states[|dict.labels|].T.Persisted() == dict.Contents()
      ensures config.Valid() && Agree(config, dict.Contents(), at)
      ensures dict.g.Valid() && History(dict.g, dict.states, dict.labels, dict.exact, State(dict.T(), Idle))
    {
      assert IndexSeal(0);
      dict.Lengths(Idle);
      dict.Same();
    }

    /** The table has come to where it is by steps of its writer, and is at rest. */
    lemma Runs()
      requires Valid()
      ensures IsRun(dict.g, dict.states, dict.labels) && StateInv(dict.g, dict.states[0], dict.exact)
      ensures dict.states[|dict.labels|] == State(dict.T(), Idle)
    {
      assert IndexSeal(0);
      HistoryInv(dict.g, dict.states, dict.labels, dict.exact, State(dict.T(), Idle));
    }

    /** The slot of a stored key. */
    ghost predicate Holds(key: Key, slot: Slot)
      reads this, dict, dict.table
      requires Valid()
    {
      assert IndexSeal(0);
      key in at && Has(dict.g, slot) && dict.T().Tag(slot) != 0 && dict.T().KeyAt(slot) == key
    }

    /** The slot of a key and the offset of its block. */
    method Find(key: Key) returns (r: Option<Slot>, off: int)
      requires Valid()
      ensures r.Some? <==> key in at
      ensures r.Some? ==> Holds(key, r.value) && off == at[key]
    {
      assert IndexSeal(0);
      off := -1;
      r := dict.Locate(key, Idle);
      AgreeAt(config, dict.Contents(), at, key);
      if r.Some? {
        assert dict.T().chunks[r.value.chunk] == dict.table[r.value.chunk];
        off := config.Offset(dict.table[r.value.chunk].vals[r.value.lane]);
      }
    }

    /** Insert a key, evicting another if need be. The program stops if a single full chunk is all there is. */
    method Add(key: Key, off: nat) returns (done: bool)
      requires Valid() && key != NO_KEY && key !in at && off % 8 == 0 && off + 8 <= memory
      modifies this, dict, dict.table
      ensures done <==> !(old(Pushed(key)) != [] && dict.g.n == 1)
      ensures done ==> Valid() && at == Put(old(at), Elems(old(Pushed(key))), key, off)
      ensures done ==> config.Valid() && old(dict.states) <= dict.states && old(dict.labels) <= dict.labels
      ensures done ==> Trail(config, dict.states, dict.labels, |old(dict.labels)|, old(at), old(Pushed(key)), key, off)
    {
      assert IndexSeal(0);
      AgreeAt(config, dict.Contents(), at, key);
      ghost var m := dict.Contents();
      ghost var gone := Elems(Pushed(key));
      PacksOffset(config, memory, off, 0);
      var word := config.SetOffset(0, off);
      AgreePut(config, m, at, gone, key, word);
      done := InsertWord(dict, key, word);
      if done {
        JourneyTrail(config, dict.states, dict.labels, |old(dict.labels)|, m, at, old(Pushed(key)), key, word, off);
        at := Put(at, gone, key, off);
      }
    }

    /** The word of a stored key with another offset and the same expiry time. */
    method Readdressed(key: Key, slot: Slot, off: nat) returns (next: Val)
      requires Valid() && Holds(key, slot) && off % 8 == 0 && off + 8 <= memory
      ensures config.Valid() && config.Offset(next) == off
      ensures Agree(config, dict.Contents()[key := next], at[key := off])
    {
      assert IndexSeal(0);
      var word := dict.table[slot.chunk].vals[slot.lane];
      PacksOffset(config, memory, off, word);
      next := config.SetOffset(word, off);
      AgreeSet(config, dict.Contents(), at, key, next);
    }

    /** Point a stored key at another offset, leaving its expiry time alone. */
    method Move(key: Key, slot: Slot, off: nat)
      requires Valid() && Holds(key, slot) && off % 8 == 0 && off + 8 <= memory
      modifies this`at, dict.table, dict`states, dict`labels
      ensures Valid() && at == old(at)[key := off]
      ensures config.Valid() && old(dict.states) <= dict.states && old(dict.labels) <= dict.labels
      ensures Trail(config, dict.states, dict.labels, |old(dict.labels)|, old(at), [], key, off)
    {
      var next := Readdressed(key, slot, off);
      assert IndexSeal(0);
      ghost var m, a, at0 := dict.Contents(), |dict.labels|, at;
      assert Agree(config, m, at0);
      dict.Assign(slot, key, next);
      at := at[key := off];
      assert Valid();
      JourneyTrail(config, dict.states, dict.labels, a, m, at0, [], key, next, off);
    }
  }

  /** Insert into a table, evicting a key if its home chunk is full and the table at its load limit. */
  method InsertWord(dict: PetHash, key: Key, word: Val) returns (done: bool)
    requires dict.Valid() && key != NO_KEY && key !in dict.Contents()
    modifies dict, dict.table
    ensures done <==> !(Pushes(dict.g, old(dict.T()), key) != [] && dict.g.n == 1)
    ensures done ==> dict.Valid()
    ensures done ==> dict.Contents() == Put(old(dict.Contents()), Elems(Pushes(dict.g, old(dict.T()), key)), key, word)
    ensures done ==> old(dict.states) <= dict.states && old(dict.labels) <= dict.labels
    ensures done ==> Journey(dict.states, dict.labels, |old(dict.labels)|, old(dict.Contents()),
                             Pushes(dict.g, old(dict.T()), key), key, word)
  {
    dict.CountsAll();
    dict.Lengths(Idle);
    ghost var before, T0 := dict.labels, dict.T();
    BlockedIsJammed(dict.g, T0, dict.Contents(), key, None);
    var s; ghost var gone, seg;
    s, gone, seg := dict.Insert(key, word, None, true);
    done := s.Some?;
    if done {
      dict.Same();
      dict.Lengths(Idle);
      StoreJourney(T0, before, dict.states, seg, T0.Persisted(), gone, key, word);
    }
  }
}
