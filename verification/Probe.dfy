/**
  The probe sequence of the chunked hash table: which chunks a key visits, and in
  which order. A key starts at its home chunk and advances by an odd step modulo a
  power-of-two number of chunks, so it visits every chunk exactly once. `Rank` is
  the inverse of the sequence; the counting invariant is phrased with it.
 */
module Probe {

  const WORD: nat := 0x1_0000_0000_0000_0000

  /** A 64-bit key. */
  type Key = k: nat | k < WORD

  type Bits7 = x: nat | x < 0x80

  /** The key value `-1`, which marks an empty slot. */
  const NO_KEY: Key := 0xFFFF_FFFF_FFFF_FFFF

  predicate IsPow2(n: nat) {
    n == 1 || (n > 1 && n % 2 == 0 && IsPow2(n / 2))
  }

  /** If a power of two divides `x * s` and `s` is odd, it divides `x`. */
  lemma {:induction false} OddFactor(x: nat, s: nat, n: nat)
    requires IsPow2(n) && s % 2 == 1 && (x * s) % n == 0
    ensures x % n == 0
  {
    if n > 1 {
      var m, q, h := n / 2, x * s / n, s / 2;
      assert x * s == 2 * (m * q);
      assert x * s == 2 * (x * h) + x by { assert s == 2 * h + 1; }
      assert x == 2 * (m * q - x * h);
      var y := x / 2;
      assert 2 * (y * s) == x * s;
      assert y * s == m * q;
      MultipleMod(m, q);
      OddFactor(y, s, m);
      assert y == m * (y / m);
      assert x == n * (y / m);
      MultipleMod(n, y / m);
    }
  }

  lemma MultipleMod(n: nat, q: nat)
    requires n > 0
    ensures (n * q) % n == 0
  {
    if q > 0 {
      MultipleMod(n, q - 1);
      assert n * q == n * (q - 1) + n;
      var z := n * (q - 1);
      assert (z + n) % n == z % n by { ModUnique(z + n, n, z / n + 1, z % n); }
    }
  }

  lemma ProductSign(n: int, d: int)
    requires n > 0
    ensures d >= 0 ==> n * d >= 0
    ensures d < 0 ==> n * d <= -n
    decreases -d
  {
    if d < 0 {
      assert n * d == n * (d + 1) - n;
      if d < -1 { ProductSign(n, d + 1); }
    }
  }

  lemma SmallMultiple(n: int, d: int)
    requires 0 < n && -n < n * d < n
    ensures d == 0
  {
    ProductSign(n, d);
    ProductSign(n, d - 1);
    assert n * d == n * (d - 1) + n;
  }

  lemma ModUnique(a: nat, n: nat, q: nat, r: nat)
    requires n > 0 && r < n && a == n * q + r
    ensures a % n == r
  {
    assert n * (a / n - q) == r - a % n;
    SmallMultiple(n, a / n - q);
  }

  lemma SameResidue(a: nat, b: nat, n: nat)
    requires n > 0 && a <= b && a % n == b % n
    ensures (b - a) % n == 0
  {
    assert b - a == n * (b / n - a / n);
    ProductSign(n, b / n - a / n);
    MultipleMod(n, b / n - a / n);
  }

  lemma ModStep(a: nat, s: nat, n: nat)
    requires n > 0
    ensures (a % n + s) % n == (a + s) % n
  {
    var b := a % n + s;
    assert a + s == n * (a / n) + b;
    assert a + s == n * (a / n) + (n * (b / n) + b % n);
    assert a + s == n * (a / n + b / n) + b % n;
    ModUnique(a + s, n, a / n + b / n, b % n);
  }

  lemma AddMultiple(a: nat, n: nat, q: nat)
    requires n > 0
    ensures (a + n * q) % n == a % n
  {
    assert a + n * q == n * (a / n + q) + a % n;
    ModUnique(a + n * q, n, a / n + q, a % n);
  }

  lemma Distribute(a: nat, b: nat, c: nat)
    ensures (a + b) * c == a * c + b * c
  {}

  lemma StepClosed(a: nat, s: nat, n: nat)
    requires n > 0
    ensures Wrap(a % n + s, n) == (a + s) % n
  {
    ModStep(a, s, n);
    WrapIsMod(a % n + s, n);
  }

  lemma StepBack(p: nat, s: nat, n: nat)
    requires p < n
    ensures ((p + s) % n - s) % n == p
  {
    var q := (p + s) / n;
    var x := (p + s) % n - s;
    assert x == p - n * q;
    assert x % n == x - n * (x / n);
    assert n * (x / n + q) == p - x % n;
    SmallMultiple(n, x / n + q);
  }

  /** An odd step modulo a power of two does not return to the same residue within `n` steps. */
  lemma OddStep(h: nat, s: nat, n: nat, i: nat, j: nat)
    requires IsPow2(n) && s % 2 == 1 && i < j < n
    ensures (h + i * s) % n != (h + j * s) % n
  {
    var a, b := h + i * s, h + j * s;
    if a % n == b % n {
      assert b - a == (j - i) * s;
      ProductSign(s, j - i);
      SameResidue(a, b, n);
      OddFactor(j - i, s, n);
      ModUnique(j - i, n, 0, j - i);
    }
  }

  /** The bit mask `a & (n - 1)` for a power of two `n`, by repeated subtraction. */
  function Wrap(a: nat, n: nat): (r: nat)
    requires n > 0
    ensures r < n
  {
    if a < n then a else Wrap(a - n, n)
  }

  lemma {:induction false} WrapIsMod(a: nat, n: nat)
    requires n > 0
    ensures Wrap(a, n) == a % n
  {
    if a < n {
      ModUnique(a, n, 0, a);
    } else {
      WrapIsMod(a - n, n);
      assert a == n * ((a - n) / n + 1) + (a - n) % n;
      ModUnique(a, n, (a - n) / n + 1, (a - n) % n);
    }
  }

  /**
    The shape of the table and its two hash functions, which are left arbitrary:
    `hash` maps a key to its hash value and `crc` a hash value to bits 24 to 30 of
    its checksum.
   */
  datatype Geometry = Geometry(n: nat, hash: Key -> nat, crc: nat -> Bits7) {

    predicate Valid() {
      IsPow2(n)
    }

    /** The one-byte tag of a key, always in 0x80..0xFF. */
    function Sign(k: Key): (r: nat)
      ensures 0x80 <= r <= 0xFF
    {
      0x80 + crc(hash(k))
    }

    function Step(k: Key): (r: nat)
      ensures r % 2 == 1
    {
      2 * Sign(k) + 1
    }

    function Home(k: Key): (r: nat)
      requires Valid()
      ensures r < n
    {
      Wrap(hash(k), n)
    }

    /** The chunk visited after `i` probe steps. */
    function Pos(k: Key, i: nat): (r: nat)
      requires Valid()
      ensures r < n
    {
      if i == 0 then Home(k) else Wrap(Pos(k, i - 1) + Step(k), n)
    }

    lemma PosClosed(k: Key, i: nat)
      requires Valid()
      ensures Pos(k, i) == (hash(k) + i * Step(k)) % n
    {
      var h, s := hash(k), Step(k);
      if i == 0 {
        WrapIsMod(h, n);
        assert h + i * s == h;
      } else {
        PosClosed(k, i - 1);
        Distribute(i - 1, 1, s);
        StepClosed(h + (i - 1) * s, s, n);
      }
    }

    /** The `i`-th chunk: `i` steps from the hash, each of twice the tag and one, where the tag has its top bit set. */
    lemma PosInNumbers(k: Key, i: nat)
      requires Valid()
      ensures Pos(k, i) == (hash(k) + i * (2 * (128 + crc(hash(k))) + 1)) % n
    {
      PosClosed(k, i);
    }

    /** No chunk is visited twice within `n` steps. */
    lemma PosInjective(k: Key, i: nat, j: nat)
      requires Valid() && i < j < n
      ensures Pos(k, i) != Pos(k, j)
    {
      PosClosed(k, i);
      PosClosed(k, j);
      OddStep(hash(k), Step(k), n, i, j);
    }

    /** Probe completeness: within `n` steps every chunk is visited. */
    lemma VisitsEvery(k: Key, c: nat)
      requires Valid() && c < n
      ensures exists i: nat :: i < n && Pos(k, i) == c
    {
      var walk := seq(n, (i: nat) => Pos(k, i));
      forall i, j | 0 <= i < j < n ensures walk[i] != walk[j] { PosInjective(k, i, j); }
      DistinctCovers(walk, c);
      var i :| 0 <= i < n && walk[i] == c;
      assert Pos(k, i) == c;
    }

    /** After `n` steps the walk starts over. */
    lemma PosPeriod(k: Key, i: nat)
      requires Valid()
      ensures Pos(k, i + n) == Pos(k, i)
    {
      var h, s := hash(k), Step(k);
      PosClosed(k, i);
      PosClosed(k, i + n);
      Distribute(i, n, s);
      AddMultiple(h + i * s, n, s);
    }

    /** One step back, as a signed remainder that is never negative. */
    lemma PosBack(k: Key, i: nat)
      requires Valid()
      ensures (Pos(k, i + 1) - Step(k)) % n == Pos(k, i)
    {
      var p, s := Pos(k, i), Step(k);
      WrapIsMod(p + s, n);
      StepBack(p, s, n);
    }

    /** The number of steps after which the key reaches chunk `c`: the inverse of `Pos`. */
    ghost function Rank(k: Key, c: nat): (r: nat)
      ensures n > 0 ==> r < n
    {
      if !Valid() || c >= n then 0 else
        VisitsEvery(k, c);
        var r: nat :| r < n && Pos(k, r) == c;
        r
    }

    lemma PosOfRank(k: Key, c: nat)
      requires Valid() && c < n
      ensures Pos(k, Rank(k, c)) == c
    {
      VisitsEvery(k, c);
    }

    lemma RankOfPos(k: Key, i: nat)
      requires Valid() && i < n
      ensures Rank(k, Pos(k, i)) == i
    {
      var r := Rank(k, Pos(k, i));
      PosOfRank(k, Pos(k, i));
      if i < r { PosInjective(k, i, r); }
      if r < i { PosInjective(k, r, i); }
    }
  }

  ghost function Range(n: nat): (r: set<nat>)
    ensures forall x: nat :: x in r <==> x < n
    ensures |r| == n
  {
    if n == 0 then {} else Range(n - 1) + {n - 1}
  }

  ghost function Elements(s: seq<nat>): (r: set<nat>)
    ensures forall x: nat :: x in r <==> x in s
  {
    set x | x in s
  }

  lemma {:induction false} DistinctSize(s: seq<nat>)
    requires forall i, j :: 0 <= i < j < |s| ==> s[i] != s[j]
    ensures |Elements(s)| == |s|
  {
    if s != [] {
      var t, x := s[..|s| - 1], s[|s| - 1];
      DistinctSize(t);
      assert s == t + [x];
      assert x !in t;
      assert Elements(s) == Elements(t) + {x};
    }
  }

  /** Pigeonhole: `n` different numbers below `n` are all of them. */
  lemma DistinctCovers(s: seq<nat>, c: nat)
    requires forall i, j :: 0 <= i < j < |s| ==> s[i] != s[j]
    requires forall i :: 0 <= i < |s| ==> s[i] < |s|
    requires c < |s|
    ensures c in s
  {
    DistinctSize(s);
    SubsetFull(Elements(s), Range(|s|));
  }

  lemma SubsetFull<T>(a: set<T>, b: set<T>)
    requires a <= b && |a| == |b|
    ensures a == b
  {
    assert b == a + (b - a);
    assert |b - a| == 0;
  }
}
