/**
  The packed value word of the index: the upper `w` bits hold a block offset in units
  of 8 bytes, the lower `64 - w` bits a reduced expiry time.
 */
module Packing {
  import opened Bits
  import Probe

  /** The widths of the two fields. */
  datatype Config = Config(w: nat) {
    predicate Valid() {
      32 <= w < 64
    }

    function ExpireBit(): nat
      requires Valid()
    {
      64 - w
    }

    function ExpireMark(): nat
      requires Valid()
    {
      Pow2(ExpireBit()) - 1
    }

    /** All ones: no block. */
    function NoOffset(): nat
      requires Valid()
    {
      Pow2(w) - 1
    }

    /** `offset << ExpireBit`, in 64 bits, in place of the upper field. */
    function SetOffset(word: Word, offset: int): Word
      requires Valid() && offset >= -1
    {
      var o := if offset == -1 then NoOffset() else offset / 8;
      var hi := Shl(o, ExpireBit()) % 0x1_0000_0000_0000_0000;
      WordBound();
      AndBound(word, ExpireMark());
      OrBound(And(word, ExpireMark()), hi, WIDTH);
      Or(And(word, ExpireMark()), hi)
    }

    function Offset(word: Word): int
      requires Valid()
    {
      var o := Shr(word, ExpireBit());
      if o == NoOffset() then -1 else o * 8
    }

    /** The expiry field, scaled back to 32 bits. */
    function Expiry(word: Word): nat
      requires Valid()
    {
      Shl(And(word, ExpireMark()), 32 - ExpireBit()) % 0x1_0000_0000
    }
  }

  const DEFAULT: Config := Config(48)

  lemma AndHalf(a: nat, m: nat)
    requires m > 0
    ensures And(a, 2 * m - 1) == 2 * And(a / 2, m - 1) + a % 2
  {
    assert (2 * m - 1) / 2 == m - 1 && (2 * m - 1) % 2 == 1;
  }

  lemma {:induction false} AndMask(a: nat, k: nat)
    ensures And(a, Pow2(k) - 1) == a % Pow2(k)
    decreases k
  {
    if k > 0 {
      AndMask(a / 2, k - 1);
      AndHalf(a, Pow2(k - 1));
      HalfMod(a, Pow2(k - 1));
    }
  }

  lemma HalfMod(a: nat, m: nat)
    requires m > 0
    ensures a % (2 * m) == 2 * (a / 2 % m) + a % 2
  {
    var q, r := a / 2 / m, a / 2 % m;
    assert a / 2 == m * q + r;
    assert a == (2 * m) * q + (2 * r + a % 2) by { assert 2 * (m * q) == (2 * m) * q; }
    ModIs(a, 2 * m, q, 2 * r + a % 2);
  }

  lemma ModIs(a: nat, n: nat, q: nat, r: nat)
    requires n > 0 && r < n && a == n * q + r
    ensures a % n == r && a / n == q
  {
    Probe.ModUnique(a, n, q, r);
    assert n * (a / n - q) == 0;
    Probe.SmallMultiple(n, a / n - q);
  }

  /** A number below a power of two and a multiple of that power have no bit in common. */
  lemma {:induction false} OrSplit(lo: nat, hi: nat, k: nat)
    requires lo < Pow2(k)
    ensures Or(lo, Shl(hi, k)) == lo + Shl(hi, k)
    decreases k
  {
    if k > 0 { OrSplit(lo / 2, hi, k - 1); }
  }

  /** The word after `SetOffset`, as a sum of its two fields. */
  lemma Fields(c: Config, word: Word, offset: int)
    requires c.Valid() && offset >= -1
    ensures var o := (if offset == -1 then c.NoOffset() else offset / 8) % Pow2(c.w);
            c.SetOffset(word, offset) == word % Pow2(c.ExpireBit()) + Shl(o, c.ExpireBit())
  {
    var o, e := if offset == -1 then c.NoOffset() else offset / 8, c.ExpireBit();
    var lo, hi := word % Pow2(e), o % Pow2(c.w);
    assert And(word, c.ExpireMark()) == lo by { AndMask(word, e); }
    assert Shl(o, e) % 0x1_0000_0000_0000_0000 == Shl(hi, e) by { UpperField(o, c.w, e); }
    assert Or(lo, Shl(hi, e)) == lo + Shl(hi, e) by { OrSplit(lo, hi, e); }
  }

  lemma UpperField(o: nat, w: nat, e: nat)
    requires w + e == WIDTH
    ensures Shl(o, e) % 0x1_0000_0000_0000_0000 == Shl(o % Pow2(w), e)
  {
    WordBound();
    PowSum(w, e);
    ShiftOut(o, w, e);
  }

  /** Shifting out of the top keeps the low part. */
  lemma ShiftOut(o: nat, w: nat, k: nat)
    ensures Pow2(w) * Pow2(k) > 0 && Shl(o, k) % (Pow2(w) * Pow2(k)) == Shl(o % Pow2(w), k)
  {
    ShlIsProduct(o, k);
    ShlIsProduct(o % Pow2(w), k);
    Shift(o, Pow2(w), Pow2(k));
  }

  lemma Shift(o: nat, m: nat, e: nat)
    requires m > 0 && e > 0
    ensures m * e > 0 && o * e % (m * e) == o % m * e
  {
    var q, r := o / m, o % m;
    Probe.ProductSign(m, e - 1);
    assert m * e == m * (e - 1) + m;
    assert o == m * q + r;
    assert o * e == (m * e) * q + r * e;
    Probe.ProductSign(e, m - 1 - r);
    assert m * e == e * (m - 1 - r) + e + r * e;
    Probe.ProductSign(e, r);
    ModIs(o * e, m * e, q, r * e);
  }

  lemma {:induction false} LowOfJoined(lo: nat, hi: nat, k: nat)
    requires lo < Pow2(k)
    ensures (lo + Shl(hi, k)) % Pow2(k) == lo
  {
    ShlIsProduct(hi, k);
    ModIs(lo + hi * Pow2(k), Pow2(k), hi, lo);
  }

  /**
    Packing an offset and reading it back is the identity exactly for -1 and for the
    multiples of 8 below the all-ones pattern.
   */
  lemma PackRoundTrip(c: Config, word: Word, offset: int)
    requires c.Valid() && offset >= -1
    ensures c.Offset(c.SetOffset(word, offset)) == offset <==>
            offset == -1 || (offset % 8 == 0 && offset / 8 < c.NoOffset())
  {
    var o := if offset == -1 then c.NoOffset() else offset / 8;
    var limit := Pow2(c.w);
    assert Shr(c.SetOffset(word, offset), c.ExpireBit()) == o % limit by {
      Fields(c, word, offset);
      ShrJoined(word % Pow2(c.ExpireBit()), o % limit, c.ExpireBit());
    }
    assert o < limit ==> o % limit == o by { if o < limit { ModIs(o, limit, 0, o); } }
  }

  lemma LowField(c: Config, word: Word, offset: int)
    requires c.Valid() && offset >= -1
    ensures c.SetOffset(word, offset) % Pow2(c.ExpireBit()) == word % Pow2(c.ExpireBit())
  {
    var o := if offset == -1 then c.NoOffset() else offset / 8;
    Fields(c, word, offset);
    LowOfJoined(word % Pow2(c.ExpireBit()), o % Pow2(c.w), c.ExpireBit());
  }

  /** The expiry time is the low bits of the word, scaled up to 32 bits. */
  lemma ExpiryInNumbers(c: Config, word: Word)
    requires c.Valid()
    ensures c.Expiry(word) == word % Pow2(64 - c.w) * Pow2(32 - (64 - c.w)) % 0x1_0000_0000
  {
    AndMask(word, c.ExpireBit());
    ShlIsProduct(word % Pow2(c.ExpireBit()), 32 - c.ExpireBit());
  }

  /** Packing leaves the expiry time alone, whatever the offset. */
  lemma PackKeepsExpiry(c: Config, word: Word, offset: int)
    requires c.Valid() && offset >= -1
    ensures c.Expiry(c.SetOffset(word, offset)) == c.Expiry(word)
  {
    var word' := c.SetOffset(word, offset);
    LowField(c, word, offset);
    AndMask(word, c.ExpireBit());
    AndMask(word', c.ExpireBit());
    assert And(word', c.ExpireMark()) == And(word, c.ExpireMark());
  }

  /** 32 GiB, from where the width is adapted to the size of the memory. */
  const LARGE: nat := 0x8_0000_0000

  const MAX_MEMORY: nat := 0x4000_0000_0000_0000

  lemma {:induction false} AtLeast32(w: nat)
    requires w >= 32
    ensures Pow2(w) >= 0x1_0000_0000 && (w == 62 ==> Pow2(w) == MAX_MEMORY)
    decreases w
  {
    if w == 62 {
      WordBound();
      assert Pow2(64) == 4 * Pow2(62);
    } else if w == 32 {
      assert Pow2(8) == 0x100;
      PowSum(8, 8);
      PowSum(16, 16);
    } else {
      AtLeast32(w - 1);
    }
  }

  /** The width for a shard of `memory` bytes: the default below 32 GiB, else just enough bits. */
  method ChooseWidth(memory: nat) returns (c: Config)
    requires memory < MAX_MEMORY
    ensures c.Valid() && (memory < 0x8_0000_0000 ==> c.w == 48)
    ensures memory >= 0x8_0000_0000 ==> 33 <= c.w <= 59 && memory < Pow2(c.w + 3)
    ensures memory >= 0x8_0000_0000 && c.w > 33 ==> Pow2(c.w + 2) <= memory
  {
    c := DEFAULT;
    if memory >= LARGE {
      var i := 36;
      AtLeast32(i);
      while Pow2(i) <= memory
        invariant 36 <= i <= 62 && (i > 36 ==> Pow2(i - 1) <= memory) && (i == 62 ==> memory < Pow2(i))
        decreases 62 - i
      {
        i := i + 1;
        AtLeast32(i);
      }
      c := Config(i - 3);
    }
  }

  /** The chosen width is enough for every offset of a block of at least 8 bytes. */
  lemma WidthSuffices(memory: nat, c: Config, offset: nat)
    requires c.Valid() && (memory >= LARGE ==> memory < Pow2(c.w + 3)) && offset % 8 == 0 && offset + 8 <= memory
    ensures offset / 8 < c.NoOffset()
  {
    var limit := Pow2(c.w);
    AtLeast32(c.w);
    assert Pow2(c.w + 1) == 2 * limit && Pow2(c.w + 2) == 4 * limit && Pow2(c.w + 3) == 8 * limit;
    assert memory < 8 * limit;
    assert offset / 8 + 1 <= memory / 8 < limit;
  }
}
