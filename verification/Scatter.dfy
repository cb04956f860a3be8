/**
  A batch of keys spread over shards and put together again. The keys of each shard are
  collected in order, at most 500 of them are asked for, and the answers are copied to
  the caller by a running offset per shard.
 */
module Scatter {
  import opened Probe

  const BATCH: nat := 500

  /** The number of keys of shard `s`. */
  function Count(keys: seq<Key>, shard: Key -> nat, s: nat): nat {
    if keys == [] then 0 else
      var n := |keys| - 1;
      Count(keys[..n], shard, s) + if shard(keys[n]) == s then 1 else 0
  }

  /** The keys of shard `s`, in order. */
  ghost function Of(keys: seq<Key>, shard: Key -> nat, s: nat): (r: seq<Key>)
    ensures |r| == Count(keys, shard, s)
  {
    if keys == [] then [] else
      var n := |keys| - 1;
      if shard(keys[n]) == s then Of(keys[..n], shard, s) + [keys[n]] else Of(keys[..n], shard, s)
  }

  /** How many keys of the same shard come before position `p`. */
  function Rank(keys: seq<Key>, shard: Key -> nat, p: nat): nat
    requires p < |keys|
  {
    Count(keys[..p], shard, shard(keys[p]))
  }

  /** The key at position `p` is in its shard's list, as far down as its rank. */
  lemma {:induction false} OfRank(keys: seq<Key>, shard: Key -> nat, p: nat)
    requires p < |keys|
    ensures Rank(keys, shard, p) < |Of(keys, shard, shard(keys[p]))|
    ensures Of(keys, shard, shard(keys[p]))[Rank(keys, shard, p)] == keys[p]
    decreases |keys|
  {
    var n := |keys| - 1;
    if p < n {
      OfRank(keys[..n], shard, p);
      assert keys[..n][..p] == keys[..p];
    }
  }

  lemma CountNext(keys: seq<Key>, shard: Key -> nat, i: nat, s: nat)
    requires i < |keys|
    ensures Count(keys[..i + 1], shard, s) == Count(keys[..i], shard, s) + if shard(keys[i]) == s then 1 else 0
    ensures Of(keys[..i + 1], shard, s) == Of(keys[..i], shard, s) + if shard(keys[i]) == s then [keys[i]] else []
  {
    assert keys[..i + 1][..i] == keys[..i];
  }

  lemma {:induction false} CountGrows(keys: seq<Key>, shard: Key -> nat, i: nat, s: nat)
    requires i <= |keys|
    ensures Count(keys[..i], shard, s) <= Count(keys, shard, s)
    decreases |keys| - i
  {
    if i < |keys| {
      CountNext(keys, shard, i, s);
      CountGrows(keys, shard, i + 1, s);
    } else {
      assert keys[..i] == keys;
    }
  }

  /** Collect the keys of each shard. */
  method Partition(keys: seq<Key>, shard: Key -> nat, shards: nat) returns (lists: seq<seq<Key>>)
    requires forall k :: k in keys ==> shard(k) < shards
    ensures |lists| == shards && forall s: nat :: s < shards ==> lists[s] == Of(keys, shard, s)
  {
    lists := seq(shards, _ => []);
    for i := 0 to |keys|
      invariant |lists| == shards && forall s: nat :: s < shards ==> lists[s] == Of(keys[..i], shard, s)
    {
      forall s: nat | s < shards
        ensures Of(keys[..i + 1], shard, s) == Of(keys[..i], shard, s) + if shard(keys[i]) == s then [keys[i]] else []
      {
        CountNext(keys, shard, i, s);
      }
      var s := shard(keys[i]);
      lists := lists[s := lists[s] + [keys[i]]];
    }
    assert keys[..|keys|] == keys;
  }

  function First(list: seq<Key>): seq<Key> {
    if |list| > BATCH then list[..BATCH] else list
  }

  /** Drop what goes beyond a request's size. */
  method Cut(lists: seq<seq<Key>>) returns (cut: seq<seq<Key>>)
    ensures |cut| == |lists| && forall s: nat :: s < |lists| ==> cut[s] == First(lists[s])
    ensures forall s: nat :: s < |lists| ==>
              cut[s] <= lists[s] && |cut[s]| == if |lists[s]| <= 500 then |lists[s]| else 500
  {
    cut := lists;
    for s := 0 to |lists|
      invariant |cut| == |lists| && forall t: nat :: t < |lists| ==>
                cut[t] == if t < s then First(lists[t]) else lists[t]
    {
      if |cut[s]| > BATCH {
        cut := cut[s := cut[s][..BATCH]];
      }
    }
  }

  /** What is in a shard's receive buffer once it has answered: the values asked for, then whatever was there before. */
  function Answer<V>(asked: seq<Key>, value: Key -> V, buffer: seq<V>): (r: seq<V>)
    ensures |r| == |buffer|
    ensures forall i: nat :: i < |buffer| ==> r[i] == if i < |asked| then value(asked[i]) else buffer[i]
  {
    seq(|buffer|, i requires 0 <= i < |buffer| => if i < |asked| then value(asked[i]) else buffer[i])
  }

  /** Position `p` of the result is the entry of the shard's buffer that its rank tells. */
  ghost predicate CopiedAt<V(!new)>(keys: seq<Key>, shard: Key -> nat, received: seq<seq<V>>, out: seq<V>, p: nat) {
    && p < |keys| && p < |out| && shard(keys[p]) < |received| && Rank(keys, shard, p) < |received[shard(keys[p])]|
    && out[p] == received[shard(keys[p])][Rank(keys, shard, p)]
  }

  lemma CopiedMore<V(!new)>(keys: seq<Key>, shard: Key -> nat, received: seq<seq<V>>, out: seq<V>, v: V, p: nat)
    requires CopiedAt(keys, shard, received, out, p)
    ensures CopiedAt(keys, shard, received, out + [v], p)
  {}

  /** Copy the answers back in the order of the keys. */
  method Gather<V(!new)>(keys: seq<Key>, shard: Key -> nat, received: seq<seq<V>>) returns (out: seq<V>)
    requires forall k :: k in keys ==> shard(k) < |received|
    requires forall s: nat :: s < |received| ==> Count(keys, shard, s) <= |received[s]|
    ensures |out| == |keys| && forall p: nat :: p < |keys| ==> CopiedAt(keys, shard, received, out, p)
  {
    var offsets := seq(|received|, _ => 0);
    out := [];
    for i := 0 to |keys|
      invariant |out| == i && |offsets| == |received|
      invariant forall s: nat :: s < |received| ==> offsets[s] == Count(keys[..i], shard, s)
      invariant forall p: nat :: p < i ==> CopiedAt(keys, shard, received, out, p)
    {
      var s := shard(keys[i]);
      forall t: nat | t < |received|
        ensures Count(keys[..i + 1], shard, t) == Count(keys[..i], shard, t) + if s == t then 1 else 0
      {
        CountNext(keys, shard, i, t);
      }
      CountGrows(keys, shard, i + 1, s);
      var v := received[s][offsets[s]];
      forall p: nat | p < i ensures CopiedAt(keys, shard, received, out + [v], p) {
        CopiedMore(keys, shard, received, out, v, p);
      }
      out := out + [v];
      offsets := offsets[s := offsets[s] + 1];
    }
  }

  /**
    Ask for a batch of keys. Position `p` of the result holds the value of key `p` exactly
    as far as fewer than 500 keys of the same shard come before it; beyond that it holds
    what an earlier request left in the buffer.
   */
  method GetParameter<V(!new)>(keys: seq<Key>, shard: Key -> nat, value: Key -> V, buffers: seq<seq<V>>)
    returns (out: seq<V>)
    requires forall k :: k in keys ==> shard(k) < |buffers|
    requires forall s: nat :: s < |buffers| ==> Count(keys, shard, s) <= |buffers[s]|
    ensures |out| == |keys|
    ensures forall p: nat :: p < |keys| ==> Rank(keys, shard, p) < |buffers[shard(keys[p])]|
    ensures forall p: nat :: p < |keys| ==>
              out[p] == if Rank(keys, shard, p) < 500 then value(keys[p])
                else buffers[shard(keys[p])][Rank(keys, shard, p)]
  {
    var lists := Partition(keys, shard, |buffers|);
    var cut := Cut(lists);
    var received := seq(|buffers|, s requires 0 <= s < |buffers| => Answer(cut[s], value, buffers[s]));
    out := Gather(keys, shard, received);
    forall p: nat | p < |keys|
      ensures Rank(keys, shard, p) < |buffers[shard(keys[p])]|
      ensures out[p] == if Rank(keys, shard, p) < 500 then value(keys[p])
              else buffers[shard(keys[p])][Rank(keys, shard, p)]
    {
      OfRank(keys, shard, p);
      assert CopiedAt(keys, shard, received, out, p);
    }
  }

  /** Five hundred and one keys of one shard. */
  function Crowd(): seq<Key> {
    seq(BATCH + 1, i requires 0 <= i <= BATCH => i)
  }

  lemma {:induction false} AllOfOneShard(keys: seq<Key>, shard: Key -> nat, s: nat)
    requires forall k :: k in keys ==> shard(k) == s
    ensures Count(keys, shard, s) == |keys|
    decreases |keys|
  {
    if keys != [] { AllOfOneShard(keys[..|keys| - 1], shard, s); }
  }

  /** The last of them gets what an earlier request left in the buffer. */
  method LastIsStale<V(!new)>(value: Key -> V, buffer: seq<V>) returns (out: seq<V>)
    requires |buffer| > 500
    ensures |out| == 501 && out[500] == buffer[500]
    ensures forall p: nat :: p < 500 ==> out[p] == value(p)
  {
    var keys, shard := Crowd(), (k: Key) => 0;
    AllOfOneShard(keys, shard, 0);
    out := GetParameter(keys, shard, value, [buffer]);
    forall p: nat | p <= 500 ensures Rank(keys, shard, p) == p {
      AllOfOneShard(keys[..p], shard, 0);
    }
  }

  /** If no shard has more than 500 keys of the batch, every value is in its place. */
  method GetSmallBatch<V(!new)>(keys: seq<Key>, shard: Key -> nat, value: Key -> V, buffers: seq<seq<V>>)
    returns (out: seq<V>)
    requires forall k :: k in keys ==> shard(k) < |buffers|
    requires forall s: nat :: s < |buffers| ==> Count(keys, shard, s) <= 500 <= |buffers[s]|
    ensures |out| == |keys| && forall p: nat :: p < |keys| ==> out[p] == value(keys[p])
  {
    out := GetParameter(keys, shard, value, buffers);
    forall p: nat | p < |keys| ensures Rank(keys, shard, p) < 500 {
      OfRank(keys, shard, p);
    }
  }

  // ---- Waiting for the answers ----

  /** The shards that have answered so far, and the receive buffers. */
  datatype World<V> = World(answered: seq<bool>, buffers: seq<seq<V>>)

  /** Later more shards may have answered; what an answer has put in a buffer stays. */
  ghost predicate Grows<V(!new)>(w: World<V>, w': World<V>) {
    && |w.answered| == |w.buffers| == |w'.answered| == |w'.buffers|
    && forall s: nat :: s < |w.answered| && w.answered[s] ==> w'.answered[s] && w'.buffers[s] == w.buffers[s]
  }

  /** The buffers fit the batch, and where a shard has answered hold what it was asked for. */
  ghost predicate Honest<V(!new)>(w: World<V>, keys: seq<Key>, shard: Key -> nat, value: Key -> V, asked: seq<seq<Key>>,
                                  stale: seq<seq<V>>) {
    && |w.answered| == |w.buffers| == |asked| == |stale|
    && (forall s: nat :: s < |asked| ==> Count(keys, shard, s) <= |w.buffers[s]|)
    && (forall s: nat :: s < |asked| && w.answered[s] ==> w.buffers[s] == Answer(asked[s], value, stale[s]))
  }

  /** All shards that were asked for anything have answered. */
  ghost predicate Complete<V(!new)>(w: World<V>, asked: seq<seq<Key>>) {
    |w.answered| == |asked| && forall s: nat :: s < |asked| && asked[s] != [] ==> w.answered[s]
  }

  /**
    Ask each shard in turn whether it has answered, copying all buffers after every yes. A
    no ends the query. `moments[s]` is the world when shard `s` is asked. If the query ends
    well, the last copy was made when every shard had answered.
   */
  method QueryRPCFinished<V(!new)>(keys: seq<Key>, shard: Key -> nat, asked: seq<seq<Key>>, moments: seq<World<V>>)
    returns (done: bool, out: seq<V>, ghost last: int)
    requires |moments| == |asked| && forall k :: k in keys ==> shard(k) < |asked|
    requires forall s: nat, t: nat :: s <= t < |asked| ==> Grows(moments[s], moments[t])
    requires forall s: nat :: s < |asked| ==> |moments[s].buffers| == |moments[s].answered| == |asked|
    requires forall s: nat, t: nat :: s < |asked| && t < |asked| ==> Count(keys, shard, t) <= |moments[s].buffers[t]|
    ensures done <==> forall s: nat :: s < |asked| && asked[s] != [] ==> moments[s].answered[s]
    ensures done && (exists s: nat :: s < |asked| && asked[s] != []) ==> 0 <= last < |asked|
    ensures done && 0 <= last < |asked| ==> Complete(moments[last], asked)
    ensures done && 0 <= last < |asked| ==> |out| == |keys|
    ensures done && 0 <= last < |asked| ==>
              forall p: nat :: p < |keys| ==> CopiedAt(keys, shard, moments[last].buffers, out, p)
  {
    out, last := [], -1;
    for s := 0 to |asked|
      invariant -1 <= last < s
      invariant forall t: nat :: t < s && asked[t] != [] ==> t <= last && moments[t].answered[t]
      invariant last >= 0 ==> |out| == |keys| && forall p: nat :: p < |keys| ==>
                                CopiedAt(keys, shard, moments[last].buffers, out, p)
    {
      if asked[s] != [] {
        if !moments[s].answered[s] {
          return false, out, last;
        }
        out := Gather(keys, shard, moments[s].buffers);
        last := s;
      }
    }
    done := true;
    if last >= 0 {
      forall t: nat | t < |asked| && asked[t] != [] ensures moments[last].answered[t] {
        assert Grows(moments[t], moments[last]);
      }
    }
  }

  lemma {:induction false} SomebodyIsAsked(keys: seq<Key>, shard: Key -> nat, p: nat)
    requires p < |keys|
    ensures First(Of(keys, shard, shard(keys[p]))) != []
  {
    OfRank(keys, shard, p);
  }

  /** A batch asked for and waited for: each position holds its value as far as it was asked for. */
  method Batch<V(!new)>(keys: seq<Key>, shard: Key -> nat, value: Key -> V, stale: seq<seq<V>>, moments: seq<World<V>>,
                        ghost asked: seq<seq<Key>>) returns (done: bool, out: seq<V>)
    requires forall k :: k in keys ==> shard(k) < |stale|
    requires |asked| == |stale| && forall s: nat :: s < |stale| ==> asked[s] == First(Of(keys, shard, s))
    requires |moments| == |stale| && forall s: nat, t: nat :: s <= t < |stale| ==> Grows(moments[s], moments[t])
    requires forall s: nat :: s < |stale| ==> Honest(moments[s], keys, shard, value, asked, stale)
    ensures done && keys != [] ==> |out| == |keys| && forall p: nat :: p < |keys| ==>
              Rank(keys, shard, p) < |stale[shard(keys[p])]| &&
              out[p] == (if Rank(keys, shard, p) < 500 then value(keys[p])
                         else stale[shard(keys[p])][Rank(keys, shard, p)])
  {
    var lists := Partition(keys, shard, |stale|);
    var cut := Cut(lists);
    assert cut == asked;
    forall s: nat, t: nat | s < |stale| && t < |stale| ensures Count(keys, shard, t) <= |moments[s].buffers[t]| {
      assert Honest(moments[s], keys, shard, value, asked, stale);
    }
    ghost var last;
    done, out, last := QueryRPCFinished(keys, shard, cut, moments);
    if done && keys != [] {
      SomebodyIsAsked(keys, shard, 0);
      forall p: nat | p < |keys|
        ensures Rank(keys, shard, p) < |stale[shard(keys[p])]|
        ensures out[p] == if Rank(keys, shard, p) < 500 then value(keys[p])
                          else stale[shard(keys[p])][Rank(keys, shard, p)]
      {
        OfRank(keys, shard, p);
        SomebodyIsAsked(keys, shard, p);
        assert CopiedAt(keys, shard, moments[last].buffers, out, p);
        assert Honest(moments[last], keys, shard, value, asked, stale);
      }
    }
  }
}
