/** CRC-32 (section 8 of RFC 1952): the bit-serial definition, the byte table, four bytes
    at a time, and the combination of two checksums by powers of the zero-bit operator. */
module Crc {
  import opened Bits
  import opened Xor

  const POLY := 0xedb88320
  const ONES := 0xffffffff

  // ----- the shift register -----

  /** One shift of the register: division of the polynomial by x, modulo p. */
  function Step(c: nat): nat {
    if c % 2 == 1 then BitXor(POLY, c / 2) else c / 2
  }

  function Steps(n: nat, c: nat): nat {
    if n == 0 then c else Steps(n - 1, Step(c))
  }

  /** One incoming bit. */
  function BitIn(c: nat, bit: bool): nat {
    Step(BitXor(c, if bit then 1 else 0))
  }

  function BitsIn(c: nat, bits: seq<bool>): nat
    decreases |bits|
  {
    if bits == [] then c else BitsIn(BitIn(c, bits[0]), bits[1..])
  }

  /** The register after all bits of the data, least significant bit of each byte first. */
  function Register(c: nat, data: seq<byte>): nat {
    BitsIn(c, Stream(data))
  }

  /** The checksum of the data, continued from crc. */
  function Crc32(crc: nat, data: seq<byte>): nat {
    BitXor(Register(BitXor(crc, ONES), data), ONES)
  }

  // ----- the polynomial -----

  /** The terms of the polynomial of CRC-32, except x^32 (section 8 of RFC 1952 gives the same polynomial as a number).
      */
  const TERMS: seq<nat> := [0, 1, 2, 4, 5, 7, 8, 10, 11, 12, 16, 22, 23, 26]

  /** Different terms in ascending order. */
  ghost predicate Ascending(ts: seq<nat>) {
    forall i, j :: 0 <= i < j < |ts| ==> ts[i] < ts[j] <= 31
  }

  /** The exclusive-or pattern of the first n terms: the coefficient of x^t is in bit 31 - t. */
  function Pattern(ts: seq<nat>, n: nat): nat
    requires n <= |ts|
  {
    if n == 0 then 0 else BitOr(Pattern(ts, n - 1), Shl(1, Place(ts[n - 1])))
  }

  function Place(t: nat): nat {
    if t <= 31 then 31 - t else 0
  }

  /** The pattern without the zero bits below its last term. */
  function Leading(ts: seq<nat>, n: nat): nat
    requires 1 <= n <= |ts|
  {
    if n == 1 then 1 else 2 * Shl(Leading(ts, n - 1), Gap(ts[n - 2], ts[n - 1])) + 1
  }

  /** Coefficients between two terms. */
  function Gap(t: nat, t': nat): nat {
    if t < t' then t' - t - 1 else 0
  }

  lemma {:induction false} OrBelow(q: nat, k: nat)
    ensures BitOr(Shl(q, k + 1), Shl(1, k)) == Shl(2 * q + 1, k)
  {
    if k != 0 {
      OrBelow(q, k - 1);
      assert Shl(q, k + 1) == 2 * Shl(q, k) && Shl(1, k) == 2 * Shl(1, k - 1);
    }
  }

  lemma {:induction false} PatternIs(ts: seq<nat>, n: nat)
    requires 1 <= n <= |ts| && Ascending(ts) && ts[0] == 0
    ensures Pattern(ts, n) == Shl(Leading(ts, n), Place(ts[n - 1]))
  {
    if n == 1 {
      assert Pattern(ts, 0) == 0;
    } else {
      PatternIs(ts, n - 1);
      var q, k, d := Leading(ts, n - 1), Place(ts[n - 1]), Gap(ts[n - 2], ts[n - 1]);
      ShlShl(q, d, k + 1);
      OrBelow(Shl(q, d), k);
    }
  }

  lemma {:induction false} Leadings()
    ensures Leading(TERMS, |TERMS|) == 0x76dc419
  {
    assert Leading(TERMS, 1) == 0x1;
    assert Leading(TERMS, 2) == 0x3;
    assert Leading(TERMS, 3) == 0x7;
    assert Leading(TERMS, 4) == 0x1d;
    assert Leading(TERMS, 5) == 0x3b;
    assert Leading(TERMS, 6) == 0xed;
    assert Leading(TERMS, 7) == 0x1db;
    assert Leading(TERMS, 8) == 0x76d;
    assert Leading(TERMS, 9) == 0xedb;
    assert Leading(TERMS, 10) == 0x1db7;
    assert Leading(TERMS, 11) == 0x1db71;
    assert Leading(TERMS, 12) == 0x76dc41;
    assert Leading(TERMS, 13) == 0xedb883;
    assert Leading(TERMS, 14) == 0x76dc419;
  }

  /** The loop over the terms: the pattern is that of every shift of the register. */
  method Polynomial() returns (poly: nat)
    ensures poly == POLY
  {
    poly := OrTerms(TERMS);
    Leadings();
    ShlFive(Leading(TERMS, |TERMS|), 5);
  }

  method OrTerms(ts: seq<nat>) returns (poly: nat)
    requires ts != [] && Ascending(ts) && ts[0] == 0
    ensures poly == Pattern(ts, |ts|) == Shl(Leading(ts, |ts|), Place(ts[|ts| - 1]))
  {
    poly := 0;
    for n := 0 to |ts|
      invariant poly == Pattern(ts, n)
    {
      poly := BitOr(poly, Shl(1, 31 - ts[n]));
    }
    PatternIs(ts, |ts|);
  }

  lemma {:induction false} ShlFive(v: nat, k: nat)
    requires k == 5
    ensures Shl(v, k) == 32 * v
  {
    assert Shl(v, 1) == 2 * v;
    assert Shl(v, 2) == 4 * v;
    assert Shl(v, 3) == 8 * v;
    assert Shl(v, 4) == 16 * v;
  }

  // ----- linearity -----

  lemma {:induction false} StepXor(a: nat, b: nat)
    ensures Step(BitXor(a, b)) == BitXor(Step(a), Step(b))
  {
    XorHalves(a, b);
    XorCommon(POLY, a / 2, b / 2);
    XorOut(POLY, a / 2, b / 2);
  }

  lemma {:induction false} StepsXor(n: nat, a: nat, b: nat)
    ensures Steps(n, BitXor(a, b)) == BitXor(Steps(n, a), Steps(n, b))
  {
    if n != 0 {
      StepXor(a, b);
      StepsXor(n - 1, Step(a), Step(b));
    }
  }

  lemma {:induction false} StepsAdd(m: nat, n: nat, c: nat)
    ensures Steps(m + n, c) == Steps(n, Steps(m, c))
  {
    if m != 0 { StepsAdd(m - 1, n, Step(c)); }
  }

  /** Shifting zeros out undoes shifting them in. */
  lemma {:induction false} StepsShl(k: nat, v: nat)
    ensures Steps(k, Shl(v, k)) == v
  {
    if k != 0 { StepsShl(k - 1, v); }
  }

  lemma {:induction false} StepsZero(n: nat)
    ensures Steps(n, 0) == 0
  {
    if n != 0 { StepsZero(n - 1); }
  }

  lemma {:induction false} StepsBound(n: nat, c: nat)
    requires c < Pow2(32)
    ensures Steps(n, c) < Pow2(32)
  {
    if n != 0 {
      LargePowers();
      XorBound(POLY, c / 2, 32);
      StepsBound(n - 1, Step(c));
    }
  }

  /** The bits of a number, taken in one by one, are its exclusive or and as many shifts. */
  lemma {:induction false} BitsInIsSteps(c: nat, b: nat, n: nat)
    requires b < Pow2(n)
    ensures BitsIn(c, Unpack(b, n)) == Steps(n, BitXor(c, b))
    decreases n
  {
    if n != 0 {
      var bit, rest := b % 2 == 1, Unpack(b / 2, n - 1);
      assert Unpack(b, n)[1..] == rest;
      BitFirst(c, b);
      BitsInIsSteps(BitIn(c, bit), b / 2, n - 1);
    }
  }

  /** The lowest bit goes first; the others follow. */
  lemma {:induction false} BitFirst(c: nat, b: nat)
    ensures Step(BitXor(c, b)) == BitXor(BitIn(c, b % 2 == 1), b / 2)
  {
    var low, high := b % 2, 2 * (b / 2);
    XorIsPlusOne(low, b / 2);
    XorAssoc(c, low, high);
    StepXor(BitXor(c, low), high);
  }

  lemma {:induction false} XorIsPlusOne(low: nat, h: nat)
    requires low < 2
    ensures BitXor(low, 2 * h) == low + 2 * h
  {
    assert Pow2(1) == 2 && Shl(h, 1) == 2 * h;
    XorIsPlus(low, 1, h);
  }

  lemma {:induction false} BitsInConcat(c: nat, a: seq<bool>, b: seq<bool>)
    ensures BitsIn(c, a + b) == BitsIn(BitsIn(c, a), b)
    decreases |a|
  {
    if a == [] {
      assert a + b == b;
    } else {
      assert (a + b)[1..] == a[1..] + b;
      BitsInConcat(BitIn(c, a[0]), a[1..], b);
    }
  }

  /** One byte. */
  function ByteIn(c: nat, b: byte): nat {
    Steps(8, BitXor(c, b))
  }

  lemma {:induction false} RegisterSnoc(c: nat, data: seq<byte>, b: byte)
    ensures Register(c, data + [b]) == ByteIn(Register(c, data), b)
  {
    StreamSnoc(data, b);
    BitsInConcat(c, Stream(data), ByteBits(b));
    assert Pow2(4) == 16;
    assert Pow2(8) == 16 * Pow2(4);
    BitsInIsSteps(Register(c, data), b, 8);
  }

  // ----- tables -----

  /** A register is its low byte and the rest, and so is what becomes of it. */
  lemma {:induction false} StepsSplit(m: nat, x: nat)
    ensures Steps(8 + m, x) == BitXor(Steps(8 + m, Low(x, 8)), Steps(m, Shr(x, 8)))
  {
    var k := 8;
    SplitAt(x, k);
    XorIsPlus(Low(x, k), k, Shr(x, k));
    StepsXor(8 + m, Low(x, k), Shl(Shr(x, k), k));
    StepsAdd(k, m, Shl(Shr(x, k), k));
    StepsShl(k, Shr(x, k));
  }

  /** DO1: a byte by table lookup. */
  function TableIn(t: seq<nat>, c: nat, b: byte): nat
    requires |t| == 256
  {
    SmallPowers();
    BitXor(t[Low(BitXor(c, b), 8)], Shr(c, 8))
  }

  /** t[n] is the register after n and as many zero bits as make up k bytes in all. */
  ghost predicate Table(t: seq<nat>, k: nat) {
    |t| == 256 && forall n :: 0 <= n < 256 ==> t[n] == Steps(8 * k, n)
  }

  lemma {:induction false} TableIsByte(t: seq<nat>, c: nat, b: byte)
    requires Table(t, 1)
    ensures TableIn(t, c, b) == ByteIn(c, b)
  {
    var x := BitXor(c, b);
    SmallPowers();
    StepsSplit(0, x);
    ShrXor(c, b, 8);
    LowSmall(b, 8);
    XorZero(Shr(c, 8));
  }

  lemma {:induction false} XorZero(a: nat)
    ensures BitXor(a, 0) == a && BitXor(0, a) == a
  {
  }

  /** The tables for a byte followed by none to three zero bytes. */
  ghost predicate Tables(t: seq<seq<nat>>) {
    |t| == 4 && Table(t[0], 1) && Table(t[1], 2) && Table(t[2], 3) && Table(t[3], 4)
  }

  /** make_crc_table: a table for one byte, and tables for a byte followed by one, two and three zero bytes. */
  method MakeCrcTable() returns (t: seq<seq<nat>>)
    ensures Tables(t)
  {
    var poly := Polynomial();
    var t0 := [];
    for n := 0 to 256
      invariant |t0| == n && forall i :: 0 <= i < n ==> t0[i] == Steps(8, i)
    {
      var c: nat := n;
      for k := 0 to 8
        invariant Steps(8 - k, c) == Steps(8, n)
      {
        c := if c % 2 == 1 then BitXor(poly, c / 2) else c / 2;
      }
      t0 := t0 + [c];
    }
    var t1 := NextTable(t0, t0, 1);
    var t2 := NextTable(t0, t1, 2);
    var t3 := NextTable(t0, t2, 3);
    t := [t0, t1, t2, t3];
  }

  /** The table for one more zero byte. */
  method NextTable(t0: seq<nat>, t: seq<nat>, k: nat) returns (t': seq<nat>)
    requires Table(t0, 1) && Table(t, k)
    ensures Table(t', k + 1)
  {
    t' := [];
    for n := 0 to 256
      invariant |t'| == n && forall i :: 0 <= i < n ==> t'[i] == Steps(8 * (k + 1), i)
    {
      var c := t[n];
      TableIsByte(t0, c, 0);
      XorZero(c);
      StepsAdd(8 * k, 8, n);
      c := TableIn(t0, c, 0);
      t' := t' + [c];
    }
  }

  // ----- a byte at a time -----

  lemma {:induction false} RegisterEmpty(c: nat)
    ensures Register(c, []) == c
  {
  }

  /** Continues the register over buf[from..to], one byte at a time. */
  method BytesIn(t0: seq<nat>, c: nat, buf: seq<byte>, from: nat, to: nat, ghost c0: nat) returns (c': nat)
    requires Table(t0, 1) && from <= to <= |buf| && c == Register(c0, buf[..from])
    ensures c' == Register(c0, buf[..to])
  {
    c' := c;
    for i := from to to
      invariant c' == Register(c0, buf[..i])
    {
      TableIsByte(t0, c', buf[i]);
      RegisterSnoc(c0, buf[..i], buf[i]);
      assert buf[..i + 1] == buf[..i] + [buf[i]];
      c' := TableIn(t0, c', buf[i]);
    }
  }

  /** crc32 with the byte table: eight bytes a turn, then the rest. */
  method Crc32Bytes(t0: seq<nat>, crc: nat, buf: seq<byte>) returns (r: nat)
    requires Table(t0, 1)
    ensures r == Crc32(crc, buf)
  {
    var c := BitXor(crc, ONES);
    ghost var c0 := c;
    var i := 0;
    assert buf[..0] == [];
    while |buf| - i >= 8
      invariant 0 <= i <= |buf| && c == Register(c0, buf[..i])
    {
      c := BytesIn(t0, c, buf, i, i + 8, c0);
      i := i + 8;
    }
    c := BytesIn(t0, c, buf, i, |buf|, c0);
    assert buf[..|buf|] == buf;
    r := BitXor(c, ONES);
  }

  // ----- four bytes at a time -----

  /** The number whose little-endian bytes are given. */
  function Word(bs: seq<byte>): nat {
    if bs == [] then 0 else bs[0] + Shl(Word(bs[1..]), 8)
  }

  function BytesRegister(c: nat, bs: seq<byte>): nat
    decreases |bs|
  {
    if bs == [] then c else BytesRegister(ByteIn(c, bs[0]), bs[1..])
  }

  /** Bytes taken in one by one are their word taken in at once. */
  lemma {:induction false} WordIn(c: nat, bs: seq<byte>)
    ensures BytesRegister(c, bs) == Steps(8 * |bs|, BitXor(c, Word(bs)))
    decreases |bs|
  {
    if bs == [] {
      XorZero(c);
    } else {
      WordIn(ByteIn(c, bs[0]), bs[1..]);
      WordStep(c, bs[0], Word(bs[1..]), 8 * |bs[1..]|, 8);
    }
  }

  /** A byte and what is above it. */
  lemma {:induction false} WordStep(c: nat, b: byte, w: nat, m: nat, k: nat)
    requires k == 8
    ensures Steps(k + m, BitXor(c, b + Shl(w, k))) == Steps(m, BitXor(Steps(k, BitXor(c, b)), w))
  {
    SmallPowers();
    XorIsPlus(b, k, w);
    XorAssoc(c, b, Shl(w, k));
    StepsAdd(k, m, BitXor(BitXor(c, b), Shl(w, k)));
    StepsXor(k, BitXor(c, b), Shl(w, k));
    StepsShl(k, w);
  }

  lemma {:induction false} RegisterBytes(c: nat, data: seq<byte>, bs: seq<byte>)
    ensures Register(c, data + bs) == BytesRegister(Register(c, data), bs)
    decreases |bs|
  {
    if bs == [] {
      assert data + bs == data;
    } else {
      RegisterSnoc(c, data, bs[0]);
      RegisterBytes(c, data + [bs[0]], bs[1..]);
      assert data + bs == (data + [bs[0]]) + bs[1..];
    }
  }

  /** DOLIT4, after the word was added to the register. */
  function LookUpFour(t: seq<seq<nat>>, x: nat): nat
    requires |t| == 4 && |t[0]| == 256 && |t[1]| == 256 && |t[2]| == 256 && |t[3]| == 256 && Shr(x, 24) < 256
  {
    SmallPowers();
    BitXor(BitXor(BitXor(t[3][Low(x, 8)], t[2][Low(Shr(x, 8), 8)]), t[1][Low(Shr(x, 16), 8)]), t[0][Shr(x, 24)])
  }

  /** The four lookups give the register after four bytes. */
  lemma {:induction false} FourIsSteps(t: seq<seq<nat>>, x: nat)
    requires Tables(t) && Shr(x, 24) < 256
    ensures LookUpFour(t, x) == Steps(32, x)
  {
    SmallPowers();
    var x1, x2, x3 := Shr(x, 8), Shr(x, 16), Shr(x, 24);
    ShrShr(x, 8, 8);
    ShrShr(x, 16, 8);
    StepsSplit(24, x);
    StepsSplit(16, x1);
    StepsSplit(8, x2);
    var a, b, c, d := t[3][Low(x, 8)], t[2][Low(x1, 8)], t[1][Low(x2, 8)], t[0][x3];
    XorAssoc(BitXor(a, b), c, d);
    XorAssoc(a, b, BitXor(c, d));
  }

  /** Little-endian word of four bytes, as read through a 32-bit pointer. */
  function Word4(buf: seq<byte>, i: nat): nat
    requires i + 4 <= |buf|
  {
    var b0: nat, b1: nat, b2: nat, b3: nat := buf[i], buf[i + 1], buf[i + 2], buf[i + 3];
    b0 + 256 * b1 + 0x10000 * b2 + 0x1000000 * b3
  }

  lemma {:induction false} Word4IsWord(buf: seq<byte>, i: nat)
    requires i + 4 <= |buf|
    ensures Word4(buf, i) == Word(buf[i..i + 4]) && Word4(buf, i) < Pow2(32)
  {
    var s := buf[i..i + 4];
    LargePowers();
    var s1 := s[1..];
    var s2 := s1[1..];
    var s3 := s2[1..];
    assert s3[1..] == [] && s3[0] == buf[i + 3] && s2[0] == buf[i + 2] && s1[0] == buf[i + 1] && s[0] == buf[i];
    assert Word(s3) == buf[i + 3] + Shl(0, 8);
    ShlZero(8);
    Shl8(Word(s3));
    Shl8(Word(s2));
    Shl8(Word(s1));
  }

  /** Four bytes at once. */
  method FourIn(t: seq<seq<nat>>, c: nat, buf: seq<byte>, i: nat, ghost c0: nat) returns (c': nat)
    requires Tables(t) && i + 4 <= |buf| && c < Pow2(32) && c == Register(c0, buf[..i])
    ensures c' == Register(c0, buf[..i + 4]) && c' < Pow2(32)
  {
    FourBytes(c, buf, i, c0);
    var x := BitXor(c, Word4(buf, i));
    FourIsSteps(t, x);
    c' := LookUpFour(t, x);
  }

  lemma {:induction false} FourBytes(c: nat, buf: seq<byte>, i: nat, c0: nat)
    requires i + 4 <= |buf| && c < Pow2(32) && c == Register(c0, buf[..i])
    ensures var x := BitXor(c, Word4(buf, i)); Shr(x, 24) < 256 && Steps(32, x) == Register(c0, buf[..i + 4]) < Pow2(32)
  {
    FourSize(c, buf, i);
    FourWord(c, buf[i..i + 4]);
    RegisterBytes(c0, buf[..i], buf[i..i + 4]);
    assert buf[..i] + buf[i..i + 4] == buf[..i + 4];
  }

  lemma {:induction false} FourWord(c: nat, s: seq<byte>)
    requires |s| == 4
    ensures BytesRegister(c, s) == Steps(32, BitXor(c, Word(s)))
  {
    WordIn(c, s);
  }

  lemma {:induction false} FourSize(c: nat, buf: seq<byte>, i: nat)
    requires i + 4 <= |buf| && c < Pow2(32)
    ensures var x := BitXor(c, Word4(buf, i));
              Shr(x, 24) < 256 && Steps(32, x) < Pow2(32) && Word4(buf, i) == Word(buf[i..i + 4])
  {
    var x, n := BitXor(c, Word4(buf, i)), 32;
    Word4IsWord(buf, i);
    XorBound(c, Word4(buf, i), n);
    StepsBound(n, x);
    TopByte(x);
  }

  lemma {:induction false} TopByte(x: nat)
    requires x < Pow2(32)
    ensures Shr(x, 24) < 256
  {
    SmallPowers();
    ShrBound(x, 24, 8);
  }

  /** crc32_little: single bytes up to a word boundary, words, and the bytes left over. */
  method Crc32Little(t: seq<seq<nat>>, crc: nat, buf: seq<byte>, address: nat) returns (r: nat)
    requires Tables(t) && crc < Pow2(32)
    ensures r == Crc32(crc, buf)
  {
    var c := BitXor(crc, ONES);
    ghost var c0 := c;
    LargePowers();
    XorBound(crc, ONES, 32);
    var i := 0;
    assert buf[..0] == [];
    while i < |buf| && (address + i) % 4 != 0
      invariant 0 <= i <= |buf| && c == Register(c0, buf[..i])
    {
      c := BytesIn(t[0], c, buf, i, i + 1, c0);
      i := i + 1;
    }
    c, i := WordsIn(t, c, buf, i, c0);
    c := BytesIn(t[0], c, buf, i, |buf|, c0);
    assert buf[..|buf|] == buf;
    r := BitXor(c, ONES);
  }

  /** Four bytes at a time, in rounds of eight and then singly. */
  method WordsIn(t: seq<seq<nat>>, c1: nat, buf: seq<byte>, from: nat, ghost c0: nat) returns (c: nat, i: nat)
    requires Tables(t) && c0 < Pow2(32) && from <= |buf| && c1 == Register(c0, buf[..from])
    ensures from <= i <= |buf| && c == Register(c0, buf[..i])
  {
    c, i := c1, from;
    RegisterBound(c0, buf[..i]);
    while |buf| - i >= 32
      invariant from <= i <= |buf| && c == Register(c0, buf[..i]) && c < Pow2(32)
    {
      ghost var start := i;
      for k := 0 to 8
        invariant i == start + 4 * k && i <= |buf| && c == Register(c0, buf[..i]) && c < Pow2(32)
      {
        c := FourIn(t, c, buf, i, c0);
        i := i + 4;
      }
    }
    while |buf| - i >= 4
      invariant from <= i <= |buf| && c == Register(c0, buf[..i]) && c < Pow2(32)
    {
      c := FourIn(t, c, buf, i, c0);
      i := i + 4;
    }
  }

  lemma {:induction false} RegisterBound(c: nat, data: seq<byte>)
    requires c < Pow2(32)
    ensures Register(c, data) < Pow2(32)
  {
    if data == [] {
      RegisterEmpty(c);
    } else {
      var n := |data| - 1;
      RegisterBound(c, data[..n]);
      assert data == data[..n] + [data[n]];
      RegisterSnoc(c, data[..n], data[n]);
      LargePowers();
      XorBound(Register(c, data[..n]), data[n], 32);
      StepsBound(8, BitXor(Register(c, data[..n]), data[n]));
    }
  }

  // ----- combining checksums -----

  /** Steps(p, .) applied k times. */
  function Apply(p: nat, k: nat, c: nat): nat {
    if k == 0 then c else Apply(p, k - 1, Steps(p, c))
  }

  lemma {:induction false} ApplyXor(p: nat, k: nat, a: nat, b: nat)
    ensures Apply(p, k, BitXor(a, b)) == BitXor(Apply(p, k, a), Apply(p, k, b))
  {
    if k != 0 {
      StepsXor(p, a, b);
      ApplyXor(p, k - 1, Steps(p, a), Steps(p, b));
    }
  }

  /** Twice the operator, half as often. */
  lemma {:induction false} ApplyDouble(p: nat, k: nat, c: nat)
    ensures Apply(2 * p, k, c) == Apply(p, 2 * k, c)
  {
    if k != 0 {
      StepsAdd(p, p, c);
      ApplyDouble(p, k - 1, Steps(2 * p, c));
      assert Apply(p, 2 * k, c) == Apply(p, 2 * k - 1, Steps(p, c)) == Apply(p, 2 * k - 2, Steps(p, Steps(p, c)));
    }
  }

  lemma {:induction false} ApplyLast(p: nat, k: nat, c: nat)
    ensures Apply(p, k + 1, c) == Steps(p, Apply(p, k, c))
  {
    if k != 0 { ApplyLast(p, k - 1, Steps(p, c)); }
  }

  /** A change of the register before the data changes it after the data by as many zero bytes. */
  lemma {:induction false} RegisterXor(c: nat, x: nat, data: seq<byte>, k: nat)
    requires k == 8
    ensures Register(BitXor(c, x), data) == BitXor(Register(c, data), Apply(k, |data|, x))
  {
    if data == [] {
      RegisterEmpty(c);
      RegisterEmpty(BitXor(c, x));
    } else {
      var n := |data| - 1;
      var pre, b := data[..n], data[n];
      assert data == pre + [b];
      RegisterXor(c, x, pre, k);
      RegisterSnoc(c, pre, b);
      RegisterSnoc(BitXor(c, x), pre, b);
      ApplyLast(k, n, x);
      var r, z := Register(c, pre), Apply(k, n, x);
      MoveByte(r, z, b);
      StepsXor(k, BitXor(r, b), z);
    }
  }

  lemma {:induction false} MoveByte(r: nat, z: nat, b: nat)
    ensures BitXor(BitXor(r, z), b) == BitXor(BitXor(r, b), z)
  {
    XorAssoc(r, z, b);
    XorComm(z, b);
    XorAssoc(r, b, z);
  }

  /** The checksum of a concatenation, from those of its parts and the length of the second. */
  lemma {:induction false} ConcatCrc(a: seq<byte>, b: seq<byte>, k: nat)
    requires k == 8
    ensures Crc32(0, a + b) == BitXor(Apply(k, |b|, Crc32(0, a)), Crc32(0, b))
  {
    XorZero(ONES);
    var ra, rb := Register(ONES, a), Register(ONES, b);
    StreamConcat(a, b);
    BitsInConcat(ONES, Stream(a), Stream(b));
    XorComm(ra, ONES);
    XorCommon(ONES, ra, 0);
    XorAssoc(ONES, ONES, ra);
    XorSelf(ONES);
    XorZero(ra);
    assert ra == BitXor(ONES, BitXor(ra, ONES));
    RegisterXor(ONES, BitXor(ra, ONES), b, k);
    var z := Apply(k, |b|, BitXor(ra, ONES));
    XorComm(rb, z);
    XorAssoc(z, rb, ONES);
  }

  /** The columns of the operator Steps(p, .) on 32-bit registers. */
  ghost predicate Operator(mat: seq<nat>, p: nat) {
    |mat| == 32 && forall n {:trigger mat[n]} :: 0 <= n < 32 ==> mat[n] == Steps(p, Pow2(n))
  }

  /** gf2_matrix_times */
  method MatrixTimes(mat: seq<nat>, vec: nat, ghost p: nat) returns (sum: nat)
    requires Operator(mat, p) && vec < Pow2(32)
    ensures sum == Steps(p, vec)
  {
    sum := 0;
    var v, n := vec, 0;
    assert Low(vec, 0) == 0;
    StepsZero(p);
    while v != 0
      invariant 0 <= n <= 32 && v == Shr(vec, n) && sum == Steps(p, Low(vec, n))
      decreases v
    {
      NextBit(vec, n, p);
      if v % 2 == 1 {
        sum := BitXor(sum, mat[n]);
      }
      v, n := v / 2, n + 1;
    }
    SplitAt(vec, n);
    ShlZero(n);
  }

  lemma {:induction false} NextBit(vec: nat, n: nat, p: nat)
    requires vec < Pow2(32) && n <= 32 && Shr(vec, n) != 0
    ensures n < 32 && Shr(vec, n + 1) == Shr(vec, n) / 2
    ensures Steps(p, Low(vec, n + 1)) == if Shr(vec, n) % 2 == 1 then
              BitXor(Steps(p, Low(vec, n)), Steps(p, Pow2(n))) else Steps(p, Low(vec, n))
  {
    if n == 32 { LowSmall(vec, n); }
    ShrShr(vec, n, 1);
    assert Shr(Shr(vec, n), 1) == Shr(vec, n) / 2;
    LowNext(vec, n);
    if Shr(vec, n) % 2 == 1 {
      ShlOne(n);
      XorIsPlus(Low(vec, n), n, 1);
      StepsXor(p, Low(vec, n), Pow2(n));
    }
  }

  lemma {:induction false} LowNext(v: nat, n: nat)
    ensures Low(v, n + 1) == Low(v, n) + if Shr(v, n) % 2 == 1 then Pow2(n) else 0
  {
    if n != 0 { LowNext(v / 2, n - 1); }
  }

  /** gf2_matrix_square */
  method MatrixSquare(mat: seq<nat>, ghost p: nat) returns (square: seq<nat>)
    requires Operator(mat, p)
    ensures Operator(square, 2 * p)
  {
    square := [];
    for n := 0 to 32
      invariant |square| == n && forall i {:trigger square[i]} :: 0 <= i < n ==> square[i] == Steps(2 * p, Pow2(i))
    {
      Pow2Mono(n, 32);
      StepsBound(p, Pow2(n));
      StepsAdd(p, p, Pow2(n));
      var s := MatrixTimes(mat, mat[n], p);
      square := square + [s];
    }
  }

  /** The operator for one zero bit. */
  method OneZeroBit() returns (mat: seq<nat>)
    ensures Operator(mat, 1)
  {
    mat := [POLY];
    assert Steps(1, 1) == Step(1) == BitXor(POLY, 0);
    XorZero(POLY);
    var row := 1;
    for n := 1 to 32
      invariant |mat| == n && row == Pow2(n - 1)
      invariant forall i {:trigger mat[i]} :: 0 <= i < n ==> mat[i] == Steps(1, Pow2(i))
    {
      assert Steps(1, Pow2(n)) == Step(2 * Pow2(n - 1)) == Pow2(n - 1);
      mat := mat + [row];
      row := 2 * row;
    }
  }

  /** One bit of the length. */
  lemma {:induction false} ApplyBit(q: nat, len: nat, c: nat)
    ensures Apply(q, len, c) == Apply(2 * q, len / 2, if len % 2 == 1 then Steps(q, c) else c)
  {
    ApplyDouble(q, len / 2, if len % 2 == 1 then Steps(q, c) else c);
  }

  /** crc32_combine_ */
  method Crc32Combine(crc1: nat, crc2: nat, len2: int) returns (r: nat)
    requires crc1 < Pow2(32)
    ensures r == if len2 <= 0 then crc1 else BitXor(Apply(8, len2, crc1), crc2)
  {
    if len2 <= 0 {
      return crc1;
    }
    var odd := OneZeroBit();
    var even := MatrixSquare(odd, 1);
    odd := MatrixSquare(even, 2);
    ghost var p: nat := 4;
    var c: nat, len: nat, done := crc1, len2, false;
    while !done
      invariant c < Pow2(32) && (done <==> len == 0)
      invariant Operator(odd, p) && Apply(2 * p, len, c) == Apply(8, len2, crc1)
      decreases !done, len
    {
      even := MatrixSquare(odd, p);
      c, len := ApplyLengthBit(even, 2 * p, c, len);
      if len == 0 {
        done := true;
        assert Apply(2 * p, 0, c) == c == Apply(4 * p, 0, c);
      } else {
        odd := MatrixSquare(even, 2 * p);
        c, len := ApplyLengthBit(odd, 4 * p, c, len);
        p := 4 * p;
        done := len == 0;
      }
    }
    r := BitXor(c, crc2);
  }

  /** Applies the operator if the lowest bit of the length is set, and drops that bit. */
  method ApplyLengthBit(mat: seq<nat>, ghost q: nat, c: nat, len: nat) returns (c': nat, len': nat)
    requires Operator(mat, q) && c < Pow2(32) && len >= 1
    ensures c' < Pow2(32) && len' == len / 2 && Apply(2 * q, len', c') == Apply(q, len, c)
  {
    ApplyBit(q, len, c);
    StepsBound(q, c);
    c' := c;
    if len % 2 == 1 {
      c' := MatrixTimes(mat, c, q);
    }
    len' := len / 2;
  }

  /** crc32_combine of the checksums of a and b is the checksum of a + b. */
  method CombineLaw(a: seq<byte>, b: seq<byte>) returns (r: nat)
    ensures r == Crc32(0, a + b)
  {
    ConcatCrc(a, b, 8);
    XorZero(ONES);
    LargePowers();
    RegisterBound(ONES, a);
    XorBound(Register(ONES, a), ONES, 32);
    r := Crc32Combine(Crc32(0, a), Crc32(0, b), |b|);
    if b == [] {
      assert a + b == a;
    }
  }
}
