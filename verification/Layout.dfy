/** The persistent region as bytes, and how a chunk of it is divided into entries. */
module Layout {
  import Probe

  type Byte = b: nat | b < 256

  const CHUNK: nat := 2 * 1024 * 1024

  // ---- Bytes ----

  function Write(m: seq<Byte>, off: nat, data: seq<Byte>): (r: seq<Byte>)
    requires off + |data| <= |m|
    ensures |r| == |m|
  {
    m[..off] + data + m[off + |data|..]
  }

  function Read(m: seq<Byte>, off: nat, len: nat): (r: seq<Byte>)
    requires off + len <= |m|
    ensures |r| == len
  {
    m[off..off + len]
  }

  /** A write leaves the bytes outside its range alone. */
  lemma ReadElsewhere(m: seq<Byte>, off: nat, data: seq<Byte>, at: nat, len: nat)
    requires off + |data| <= |m| && at + len <= |m|
    requires at + len <= off || off + |data| <= at
    ensures Read(Write(m, off, data), at, len) == Read(m, at, len)
  {}

  /** A 32-bit number, lowest byte first. */
  function EncodeInt(x: nat): (r: seq<Byte>)
    ensures |r| == 4
  {
    [x % 256, x / 256 % 256, x / 65536 % 256, x / 16777216 % 256]
  }

  function DecodeInt(r: seq<Byte>): nat
    requires |r| == 4
  {
    var a: nat, b: nat, c: nat, d: nat := r[0], r[1], r[2], r[3];
    a + 256 * b + 65536 * c + 16777216 * d
  }

  lemma DecodeEncode(x: nat)
    requires x < 0x8000_0000
    ensures DecodeInt(EncodeInt(x)) == x
  {
    var q := x / 256;
    var r := q / 256;
    assert x == 256 * q + x % 256 && q == 256 * r + q % 256 && r == 256 * (r / 256) + r % 256;
    assert x / 65536 == r && x / 16777216 == r / 256 && r / 256 < 256;
  }

  // ---- Entries ----

  /** A product, by repeated addition. */
  function Times(a: nat, b: nat): nat {
    if a == 0 then 0 else b + Times(a - 1, b)
  }

  lemma {:induction false} TimesIsProduct(a: nat, b: nat)
    ensures Times(a, b) == a * b
  {
    if a > 0 {
      TimesIsProduct(a - 1, b);
      assert a * b == (a - 1) * b + b;
    }
  }

  lemma {:induction false} TimesSum(a: nat, a': nat, b: nat)
    ensures Times(a + a', b) == Times(a, b) + Times(a', b)
  {
    if a > 0 {
      TimesSum(a - 1, a', b);
      assert a + a' - 1 == a - 1 + a';
    }
  }

  /** A 16-byte chunk header, the 8-byte header of the bitmap, and one bit for every entry. */
  function HeaderSize(nr: nat): nat {
    16 + (8 + nr / 64 * 8)
  }

  predicate Fits(slab: nat, nr: nat) {
    HeaderSize(nr) + Times(nr, slab) <= CHUNK
  }

  /** As many entries as fit, in whole words of the bitmap. */
  predicate IsEntryNum(slab: nat, nr: nat) {
    nr % 64 == 0 && Fits(slab, nr) && !Fits(slab, nr + 64)
  }

  /** In bytes: 24 for the headers, one bit for every entry, and the entries, in a chunk of 2 MiB. */
  lemma EntryNumInNumbers(slab: nat, nr: nat)
    requires nr % 64 == 0
    ensures IsEntryNum(slab, nr) <==> 24 + nr / 8 + nr * slab <= 2097152 < 24 + (nr + 64) / 8 + (nr + 64) * slab
  {
    TimesIsProduct(nr, slab);
    TimesIsProduct(nr + 64, slab);
  }

  lemma FitsDown(slab: nat, nr: nat, nr': nat)
    requires nr' <= nr && Fits(slab, nr)
    ensures Fits(slab, nr')
  {
    TimesSum(nr', nr - nr', slab);
    assert nr' / 64 <= nr / 64;
  }

  /** How many entries would fit without a header. */
  method Guess(slab: nat) returns (q: nat)
    requires slab > 0
    ensures Times(q + 1, slab) > CHUNK
  {
    q := CHUNK / slab;
    TimesIsProduct(q + 1, slab);
    assert CHUNK == slab * q + CHUNK % slab;
    assert (q + 1) * slab == slab * q + slab;
  }

  lemma TooMany(slab: nat, q: nat, nr: nat)
    requires Times(q, slab) > CHUNK && nr >= q
    ensures !Fits(slab, nr)
  {
    TimesSum(q, nr - q, slab);
  }

  /** Shrink a first guess until header and entries fit. */
  method EntryNum(slab: nat) returns (nr: nat)
    requires slab > 0
    ensures IsEntryNum(slab, nr)
    ensures nr % 64 == 0 && 24 + nr / 8 + nr * slab <= 2097152 < 24 + (nr + 64) / 8 + (nr + 64) * slab
  {
    var guess := Guess(slab);
    nr := guess - guess % 64;
    TooMany(slab, guess + 1, nr + 64);
    while HeaderSize(nr) + Times(nr, slab) > CHUNK
      invariant nr % 64 == 0 && !Fits(slab, nr + 64)
      decreases nr
    {
      nr := nr - 64;
    }
    EntryNumInNumbers(slab, nr);
  }

  /** A chunk holds at least one entry if and only if the entry size is at most 32767. */
  lemma RoomForOne(slab: nat, nr: nat)
    requires slab > 0 && IsEntryNum(slab, nr)
    ensures nr > 0 <==> slab <= 32767
  {
    TimesIsProduct(64, slab);
    if nr > 0 {
      FitsDown(slab, nr, 64);
    }
  }

  /** The number of entries is determined by their size. */
  lemma EntryNumUnique(slab: nat, nr: nat, nr': nat)
    requires IsEntryNum(slab, nr) && IsEntryNum(slab, nr')
    ensures nr == nr'
  {
    if nr < nr' { FitsDown(slab, nr', nr + 64); }
    if nr' < nr { FitsDown(slab, nr, nr' + 64); }
  }

  /** The offset of entry `i` of chunk `c`. */
  function Entry(c: nat, slab: nat, nr: nat, i: nat): nat {
    c * CHUNK + HeaderSize(nr) + Times(i, slab)
  }

  lemma EntryInside(c: nat, slab: nat, nr: nat, i: nat)
    requires Fits(slab, nr) && i < nr
    ensures c * CHUNK + HeaderSize(nr) <= Entry(c, slab, nr, i)
    ensures Entry(c, slab, nr, i) + slab <= (c + 1) * CHUNK
    ensures slab > 0 ==> Entry(c, slab, nr, i) / CHUNK == c
  {
    TimesSum(i, nr - i, slab);
    assert Times(nr - i, slab) == slab + Times(nr - i - 1, slab);
  }

  /** The entry number can be read off the offset. */
  lemma EntryNumber(c: nat, slab: nat, nr: nat, i: nat)
    requires slab > 0
    ensures (Entry(c, slab, nr, i) - c * CHUNK - HeaderSize(nr)) / slab == i
  {
    TimesIsProduct(i, slab);
    var q, r := i * slab / slab, i * slab % slab;
    assert slab * (i - q) == r;
    Probe.SmallMultiple(slab, i - q);
  }

  lemma EntriesApart(c: nat, slab: nat, nr: nat, i: nat, j: nat)
    requires i < j
    ensures Entry(c, slab, nr, i) + slab <= Entry(c, slab, nr, j)
  {
    TimesSum(i, j - i, slab);
    assert Times(j - i, slab) == slab + Times(j - i - 1, slab);
  }

  lemma {:induction false} TimesAligned(i: nat, slab: nat)
    requires slab % 8 == 0
    ensures Times(i, slab) % 8 == 0
  {
    if i > 0 { TimesAligned(i - 1, slab); }
  }

  /** Entries start at multiples of 8 when their size is one. */
  lemma EntryAligned(c: nat, slab: nat, nr: nat, i: nat)
    requires slab % 8 == 0
    ensures Entry(c, slab, nr, i) % 8 == 0
  {
    TimesAligned(i, slab);
  }
}
