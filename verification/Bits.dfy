/** Unsigned 64-bit words as numbers: shifts, the bitwise operators and counting trailing zeros. */
module Bits {

  const WIDTH: nat := 64

  function Pow2(k: nat): (r: nat)
    ensures r > 0
  {
    if k == 0 then 1 else 2 * Pow2(k - 1)
  }

  type Word = w: nat | w < 0x1_0000_0000_0000_0000

  /** Bit `i`: the lowest bit after a shift to the right by `i`. */
  predicate Bit(w: nat, i: nat)
    decreases i
  {
    if i == 0 then w % 2 == 1 else Bit(w / 2, i - 1)
  }

  function Or(a: nat, b: nat): nat {
    if a == 0 then b else if b == 0 then a
    else 2 * Or(a / 2, b / 2) + if a % 2 == 1 || b % 2 == 1 then 1 else 0
  }

  function And(a: nat, b: nat): nat {
    if a == 0 || b == 0 then 0
    else 2 * And(a / 2, b / 2) + if a % 2 == 1 && b % 2 == 1 then 1 else 0
  }

  function Shl(a: nat, k: nat): nat {
    if k == 0 then a else 2 * Shl(a, k - 1)
  }

  function Shr(a: nat, k: nat): nat
    decreases k
  {
    if k == 0 then a else Shr(a / 2, k - 1)
  }

  /** The complement in `k` bits. */
  function Not(w: nat, k: nat): nat
    requires w < Pow2(k)
  {
    Pow2(k) - 1 - w
  }

  lemma {:induction false} ShlIsProduct(a: nat, k: nat)
    ensures Shl(a, k) == a * Pow2(k)
    decreases k
  {
    if k > 0 {
      ShlIsProduct(a, k - 1);
      assert a * (2 * Pow2(k - 1)) == 2 * (a * Pow2(k - 1));
    }
  }

  /** Shifting two joined fields to the right leaves the upper one. */
  lemma {:induction false} ShrJoined(lo: nat, hi: nat, k: nat)
    requires lo < Pow2(k)
    ensures Shr(lo + Shl(hi, k), k) == hi
    decreases k
  {
    if k > 0 {
      ShrJoined(lo / 2, hi, k - 1);
      assert (lo + Shl(hi, k)) / 2 == lo / 2 + Shl(hi, k - 1);
    }
  }

  lemma {:induction false} ZeroBit(i: nat)
    ensures !Bit(0, i)
    decreases i
  {
    if i > 0 { ZeroBit(i - 1); }
  }

  lemma {:induction false} OrBit(a: nat, b: nat, i: nat)
    ensures Bit(Or(a, b), i) <==> Bit(a, i) || Bit(b, i)
    decreases i
  {
    if a == 0 || b == 0 {
      ZeroBit(i);
    } else if i > 0 {
      OrBit(a / 2, b / 2, i - 1);
      assert Or(a, b) / 2 == Or(a / 2, b / 2);
    }
  }

  lemma {:induction false} AndBit(a: nat, b: nat, i: nat)
    ensures Bit(And(a, b), i) <==> Bit(a, i) && Bit(b, i)
    decreases i
  {
    if a == 0 || b == 0 {
      ZeroBit(i);
    } else if i > 0 {
      AndBit(a / 2, b / 2, i - 1);
      assert And(a, b) / 2 == And(a / 2, b / 2);
    }
  }

  lemma {:induction false} PowBit(k: nat, i: nat)
    ensures Bit(Pow2(k), i) <==> i == k
    decreases i
  {
    if k == 0 {
      if i > 0 { ZeroBit(i - 1); }
    } else if i > 0 {
      PowBit(k - 1, i - 1);
      assert Pow2(k) / 2 == Pow2(k - 1);
    }
  }

  lemma {:induction false} NotBit(w: nat, k: nat, i: nat)
    requires w < Pow2(k) && i < k
    ensures Bit(Not(w, k), i) <==> !Bit(w, i)
    decreases i
  {
    if i > 0 {
      NotBit(w / 2, k - 1, i - 1);
      assert Not(w, k) / 2 == Not(w / 2, k - 1);
    }
  }

  lemma {:induction false} OrBound(a: nat, b: nat, k: nat)
    requires a < Pow2(k) && b < Pow2(k)
    ensures Or(a, b) < Pow2(k)
  {
    if k > 0 { OrBound(a / 2, b / 2, k - 1); }
  }

  lemma {:induction false} AndBound(a: nat, b: nat)
    ensures And(a, b) <= a
  {
    if a > 0 && b > 0 { AndBound(a / 2, b / 2); }
  }

  lemma {:induction false} PowMonotone(i: nat, k: nat)
    requires i < k
    ensures 2 * Pow2(i) <= Pow2(k)
    decreases k
  {
    if i < k - 1 { PowMonotone(i, k - 1); }
  }

  lemma WordBound()
    ensures Pow2(WIDTH) == 0x1_0000_0000_0000_0000
  {
    assert Pow2(8) == 0x100;
    PowSum(8, 8);
    PowSum(16, 16);
    PowSum(32, 32);
  }

  lemma {:induction false} PowSum(a: nat, b: nat)
    ensures Pow2(a + b) == Pow2(a) * Pow2(b)
    decreases b
  {
    if b == 0 {
    } else {
      PowSum(a, b - 1);
      assert a + b - 1 == a + (b - 1);
      assert Pow2(a) * (2 * Pow2(b - 1)) == 2 * (Pow2(a) * Pow2(b - 1));
    }
  }

  /** The number of trailing zeros of a nonzero number. */
  function Ctz(b: nat): (r: nat)
    requires b > 0
    ensures Bit(b, r) && forall i: nat :: i < r ==> !Bit(b, i)
  {
    if b % 2 == 1 then 0 else
      var r := Ctz(b / 2);
      assert forall i: nat :: 0 < i < r + 1 ==> !Bit(b, i) by {
        forall i: nat | 0 < i < r + 1 ensures !Bit(b, i) { assert !Bit(b / 2, i - 1); }
      }
      r + 1
  }

  lemma {:induction false} BitBelow(b: nat, k: nat, i: nat)
    requires b < Pow2(k) && Bit(b, i)
    ensures i < k
    decreases i
  {
    if k == 0 {
      ZeroBit(i);
    } else if i > 0 {
      BitBelow(b / 2, k - 1, i - 1);
    }
  }

  // ---- Words ----

  /** `w | 1 << i`. */
  function SetBit(w: Word, i: nat): Word
    requires i < WIDTH
  {
    WordBound();
    PowMonotone(i, WIDTH);
    OrBound(w, Pow2(i), WIDTH);
    Or(w, Pow2(i))
  }

  /** `w & ~(1 << i)`. */
  function ClearBit(w: Word, i: nat): Word
    requires i < WIDTH
  {
    WordBound();
    PowMonotone(i, WIDTH);
    AndBound(w, Not(Pow2(i), WIDTH));
    And(w, Not(Pow2(i), WIDTH))
  }

  lemma SetBitAt(w: Word, i: nat, j: nat)
    requires i < WIDTH
    ensures Bit(SetBit(w, i), j) <==> j == i || Bit(w, j)
  {
    OrBit(w, Pow2(i), j);
    PowBit(i, j);
  }

  lemma ClearBitAt(w: Word, i: nat, j: nat)
    requires i < WIDTH && j < WIDTH
    ensures Bit(ClearBit(w, i), j) <==> j != i && Bit(w, j)
  {
    PowMonotone(i, WIDTH);
    AndBit(w, Not(Pow2(i), WIDTH), j);
    NotBit(Pow2(i), WIDTH, j);
    PowBit(i, j);
  }

  /** The lowest clear bit of a word, or none: `ctz(~w)` if `~w` is not 0. */
  function FirstClear(w: Word): (r: int)
    ensures -1 <= r < WIDTH
    ensures r >= 0 ==> !Bit(w, r)
    ensures forall i: nat :: i < (if r < 0 then WIDTH else r) ==> Bit(w, i)
  {
    WordBound();
    var b := Not(w, WIDTH);
    assert forall i: nat :: i < WIDTH ==> (Bit(b, i) <==> !Bit(w, i)) by {
      forall i: nat | i < WIDTH ensures Bit(b, i) <==> !Bit(w, i) { NotBit(w, WIDTH, i); }
    }
    if b != 0 then
      BitBelow(b, WIDTH, Ctz(b));
      Ctz(b)
    else
      assert forall i: nat :: !Bit(b, i) by { forall i: nat ensures !Bit(b, i) { ZeroBit(i); } }
      -1
  }
}
