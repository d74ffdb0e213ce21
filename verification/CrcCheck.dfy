/** The check value of CRC-32: the definition gives what is known for "123456789". */
module CrcCheck {
  import opened Bits
  import opened Xor
  import opened Crc

  // ----- exclusive or with the polynomial, as a sum -----

  /** What flipping bit k adds. */
  function FlipBit(h: nat, k: nat): int {
    if Shr(h, k) % 2 == 1 then 0 - Pow2(k) else Pow2(k)
  }

  /** Exclusive or with a power flips its bit. */
  lemma {:induction false} XorPower(h: nat, k: nat)
    ensures BitXor(Pow2(k), h) == h + FlipBit(h, k)
  {
    XorHalves(Pow2(k), h);
    if k == 0 {
      assert BitXor(0, h / 2) == h / 2;
    } else {
      XorPower(h / 2, k - 1);
    }
  }

  /** The sum of f over the places of the first n terms. */
  function SumPlaces(ts: seq<nat>, n: nat, f: nat -> int): int
    requires n <= |ts|
  {
    if n == 0 then 0 else SumPlaces(ts, n - 1, f) + f(Place(ts[n - 1]))
  }

  /** Exclusive or with the terms flips their bits. */
  lemma {:induction false} XorPattern(ts: seq<nat>, n: nat, h: nat, f: nat -> int)
    requires n <= |ts| && Ascending(ts) && (ts != [] ==> ts[0] == 0)
    requires forall k {:trigger f(k)} :: f(k) == FlipBit(h, k)
    ensures BitXor(Pattern(ts, n), h) == h + SumPlaces(ts, n, f)
  {
    if n != 0 {
      var k, p := Place(ts[n - 1]), Pattern(ts, n - 1);
      XorPattern(ts, n - 1, h, f);
      AddsTerm(ts, n);
      XorAssoc(Pow2(k), p, h);
      XorPower(BitXor(p, h), k);
      ShrXor(p, h, k);
      XorHalves(Shr(p, k), Shr(h, k));
    }
  }

  /** A further term is below the others. */
  lemma {:induction false} AddsTerm(ts: seq<nat>, n: nat)
    requires 1 <= n <= |ts| && Ascending(ts) && ts[0] == 0
    ensures var k := Place(ts[n - 1]);
            Pattern(ts, n) == BitXor(Pow2(k), Pattern(ts, n - 1)) && Shr(Pattern(ts, n - 1), k) % 2 == 0
  {
    var k, p := Place(ts[n - 1]), Pattern(ts, n - 1);
    ShlOne(k);
    if n == 1 {
      XorZero(Pow2(k));
      ShrZero(k);
    } else {
      var q := Shl(Leading(ts, n - 1), Gap(ts[n - 2], ts[n - 1]));
      PatternIs(ts, n - 1);
      ShlShl(Leading(ts, n - 1), Gap(ts[n - 2], ts[n - 1]), k + 1);
      assert p == Shl(q, k + 1);
      Below(q, k);
    }
  }

  lemma {:induction false} ShrZero(k: nat)
    ensures Shr(0, k) == 0
  {
    if k != 0 { ShrZero(k - 1); }
  }

  lemma {:induction false} Below(q: nat, k: nat)
    ensures BitOr(Shl(q, k + 1), Shl(1, k)) == BitXor(Pow2(k), Shl(q, k + 1)) && Shr(Shl(q, k + 1), k) % 2 == 0
  {
    OrBelow(q, k);
    XorIsPlus(Pow2(k), k + 1, q);
    ShlDouble(q, k);
    ShlSum(2 * q, 1, k);
    ShlOne(k);
    SplitUnique(0, 2 * q, k);
  }

  /** What flipping the bit of weight q adds. */
  function Flip(h: nat, q: nat): int
    requires q > 0
  {
    if h / q % 2 == 1 then 0 - q else q
  }

  lemma {:induction false} FlipIs(h: nat, k: nat, q: nat)
    requires q == Pow2(k)
    ensures FlipBit(h, k) == Flip(h, q)
  {
    SplitAt(h, k);
    ShlIs(Shr(h, k), k);
    Quotient(h, q, Shr(h, k), Low(h, k));
  }

  lemma {:induction false} ShlIs(v: nat, n: nat)
    ensures Shl(v, n) == v * Pow2(n)
  {
    if n != 0 { ShlIs(v, n - 1); }
  }

  lemma {:induction false} Quotient(v: nat, q: nat, d: nat, r: nat)
    requires v == r + d * q && r < q
    ensures v / q == d
  {
    var e := v / q;
    TimesUp(e + 1, d, q);
    TimesUp(d + 1, e, q);
  }

  lemma {:induction false} TimesUp(a: int, b: int, q: nat)
    ensures a <= b ==> a * q <= b * q
  {
  }

  /** The bits of the terms, flipped. */
  function PolyXor(h: nat): int {
    h + Flip(h, 0x80000000) + Flip(h, 0x40000000) + Flip(h, 0x20000000) + Flip(h, 0x8000000) + Flip(h,
    0x4000000) + Flip(h, 0x1000000) + Flip(h, 0x800000) + Flip(h, 0x200000) + Flip(h, 0x100000) + Flip(h,
    0x80000) + Flip(h, 0x8000) + Flip(h, 0x200) + Flip(h, 0x100) + Flip(h, 0x20)
  }

  lemma {:induction false} PolyXorIs(h: nat)
    ensures BitXor(POLY, h) == PolyXor(h)
  {
    var f := (k: nat) => FlipBit(h, k);
    XorPattern(TERMS, |TERMS|, h, f);
    PatternIs(TERMS, |TERMS|);
    Leadings();
    ShlFive(Leading(TERMS, |TERMS|), 5);
    SumTerms(TERMS, f);
    WeighFlips(h);
  }

  lemma {:induction false} SumTerms(ts: seq<nat>, f: nat -> int)
    requires ts == TERMS
    ensures SumPlaces(ts, |ts|, f) == f(31) + f(30) + f(29) + f(27) + f(26) + f(24) + f(23) + f(21) + f(20) + f(19)
                                      + f(15) + f(9) + f(8) + f(5)
  {
    SumMore(ts, f, 0, 31, 30, 29, 27, 26);
    SumMore(ts, f, 5, 24, 23, 21, 20, 19);
    assert SumPlaces(ts, 11, f) == SumPlaces(ts, 10, f) + f(15);
    assert SumPlaces(ts, 12, f) == SumPlaces(ts, 11, f) + f(9);
    assert SumPlaces(ts, 13, f) == SumPlaces(ts, 12, f) + f(8);
  }

  lemma {:induction false} SumMore(ts: seq<nat>, f: nat -> int, n: nat, a: nat, b: nat, c: nat, d: nat, e: nat)
    requires n + 5 <= |ts| && a == Place(ts[n]) && b == Place(ts[n + 1]) && c == Place(ts[n + 2])
    requires d == Place(ts[n + 3]) && e == Place(ts[n + 4])
    ensures SumPlaces(ts, n + 5, f) == SumPlaces(ts, n, f) + f(a) + f(b) + f(c) + f(d) + f(e)
  {
    assert SumPlaces(ts, n + 1, f) == SumPlaces(ts, n, f) + f(a);
    assert SumPlaces(ts, n + 2, f) == SumPlaces(ts, n + 1, f) + f(b);
    assert SumPlaces(ts, n + 3, f) == SumPlaces(ts, n + 2, f) + f(c);
    assert SumPlaces(ts, n + 4, f) == SumPlaces(ts, n + 3, f) + f(d);
  }

  lemma {:induction false} WeighFlips(h: nat)
    ensures FlipBit(h, 31) == Flip(h, 0x80000000) && FlipBit(h, 30) == Flip(h, 0x40000000)
    ensures FlipBit(h, 29) == Flip(h, 0x20000000) && FlipBit(h, 27) == Flip(h, 0x8000000)
    ensures FlipBit(h, 26) == Flip(h, 0x4000000) && FlipBit(h, 24) == Flip(h, 0x1000000)
    ensures FlipBit(h, 23) == Flip(h, 0x800000) && FlipBit(h, 21) == Flip(h, 0x200000)
    ensures FlipBit(h, 20) == Flip(h, 0x100000) && FlipBit(h, 19) == Flip(h, 0x80000)
    ensures FlipBit(h, 15) == Flip(h, 0x8000) && FlipBit(h, 9) == Flip(h, 0x200)
    ensures FlipBit(h, 8) == Flip(h, 0x100) && FlipBit(h, 5) == Flip(h, 0x20)
  {
    HighPowers();
    FlipIs(h, 31, 0x80000000);
    FlipIs(h, 30, 0x40000000);
    FlipIs(h, 29, 0x20000000);
    FlipIs(h, 27, 0x8000000);
    FlipIs(h, 26, 0x4000000);
    FlipIs(h, 24, 0x1000000);
    FlipIs(h, 23, 0x800000);
    FlipIs(h, 21, 0x200000);
    FlipIs(h, 20, 0x100000);
    FlipIs(h, 19, 0x80000);
    FlipIs(h, 15, 0x8000);
    FlipIs(h, 9, 0x200);
    FlipIs(h, 8, 0x100);
    FlipIs(h, 5, 0x20);
  }

  lemma {:induction false} HighPowers()
    ensures Pow2(5) == 0x20 && Pow2(8) == 0x100 && Pow2(9) == 0x200 && Pow2(15) == 0x8000 && Pow2(19) == 0x80000
    ensures Pow2(20) == 0x100000 && Pow2(21) == 0x200000 && Pow2(23) == 0x800000 && Pow2(24) == 0x1000000
    ensures Pow2(26) == 0x4000000 && Pow2(27) == 0x8000000 && Pow2(29) == 0x20000000 && Pow2(30) == 0x40000000
    ensures Pow2(31) == 0x80000000
  {
    SmallPowers();
    LargePowers();
    assert Pow2(19) == 8 * Pow2(16);
    assert Pow2(21) == 4 * Pow2(19);
    assert Pow2(24) == 8 * Pow2(21);
    assert Pow2(27) == 8 * Pow2(24);
    assert Pow2(29) == 4 * Pow2(27);
    assert Pow2(31) == 4 * Pow2(29);
  }

  // ----- the CRC-32 of "123456789" -----

  /** The bit takes the register from c to c'. */
  predicate In(bit: nat, c: nat, c': nat) {
    c' == if c % 2 != bit then PolyXor(c / 2) else c / 2
  }

  /** The same, not looked into. */
  ghost predicate Enters(bit: nat, c: nat, c': nat) {
    bit < 2 && forall b {:trigger In(b, c, c')} :: b == bit ==> In(b, c, c')
  }

  lemma {:induction false} EntersIs(bit: nat, c: nat, c': nat)
    requires Enters(bit, c, c')
    ensures BitIn(c, bit == 1) == c'
  {
    assert In(bit, c, c');
    PolyXorIs(c / 2);
    XorHalves(c, bit);
    XorZero(c / 2);
  }

  lemma {:induction false} Enter(bit: nat, c: nat, c': nat)
    requires bit < 2 && In(bit, c, c')
    ensures Enters(bit, c, c')
  {
  }

  lemma {:induction false} BitsInOne(c: nat, bit: nat, c': nat, bits: seq<bool>)
    requires Enters(bit, c, c')
    ensures BitsIn(c, [bit == 1] + bits) == BitsIn(c', bits)
  {
    EntersIs(bit, c, c');
    assert ([bit == 1] + bits)[1..] == bits;
  }

  lemma {:induction false} FourInFront(a: bool, b: bool, c: bool, d: bool, rest: seq<bool>)
    ensures [a] + ([b] + ([c] + ([d] + rest))) == [a, b, c, d] + rest
  {
  }

  lemma {:induction false} LowBit(b: nat, v: nat, n: nat)
    requires b < 2
    ensures Unpack(b + 2 * v, n + 1) == [b == 1] + Unpack(v, n)
  {
  }

  /** Four bits take the register from c to c'. */
  ghost predicate FourEnter(c: nat, b0: nat, x1: nat, b1: nat, x2: nat, b2: nat, x3: nat, b3: nat, c': nat) {
    Enters(b0, c, x1) && Enters(b1, x1, x2) && Enters(b2, x2, x3) && Enters(b3, x3, c')
  }

  lemma {:induction false} FourIn(c: nat, b0: nat, x1: nat, b1: nat, x2: nat, b2: nat, x3: nat, b3: nat, c': nat,
                                  rest: seq<bool>)
    requires FourEnter(c, b0, x1, b1, x2, b2, x3, b3, c')
    ensures BitsIn(c, [b0 == 1, b1 == 1, b2 == 1, b3 == 1] + rest) == BitsIn(c', rest)
  {
    var r3 := [b3 == 1] + rest;
    var r2 := [b2 == 1] + r3;
    var r1 := [b1 == 1] + r2;
    BitsInOne(c, b0, x1, r1);
    BitsInOne(x1, b1, x2, r2);
    BitsInOne(x2, b2, x3, r3);
    BitsInOne(x3, b3, c', rest);
    FourInFront(b0 == 1, b1 == 1, b2 == 1, b3 == 1, rest);
  }

  /** The register is c after the first n bytes. */
  ghost predicate RegisterIs(data: seq<byte>, n: nat, c: nat) {
    n <= |data| && forall d {:trigger Register(ONES, d)} :: d == data[..n] ==> Register(ONES, d) == c
  }

  /** One more byte, whose bits are b0 to b7. */
  lemma {:induction false} ByteMore(data: seq<byte>, n: nat, c: nat, b0: nat, x1: nat, b1: nat, x2: nat, b2: nat,
                                    x3: nat, b3: nat, x4: nat, b4: nat, x5: nat, b5: nat, x6: nat, b6: nat, x7: nat,
                                    b7: nat, x8: nat)
    requires RegisterIs(data, n, c) && n < |data|
    requires FourEnter(c, b0, x1, b1, x2, b2, x3, b3, x4) && FourEnter(x4, b4, x5, b5, x6, b6, x7, b7, x8)
    requires data[n] == (b0 + 2 * b1 + 4 * b2 + 8 * b3) + 16 * (b4 + 2 * b5 + 4 * b6 + 8 * b7)
    ensures RegisterIs(data, n + 1, x8)
  {
    var high := b4 + 2 * b5 + 4 * b6 + 8 * b7;
    FourBits(data[n], b0, b1, b2, b3, high, 4);
    FourBits(high, b4, b5, b6, b7, 0, 0);
    FourIn(c, b0, x1, b1, x2, b2, x3, b3, x4, Unpack(high, 4));
    FourIn(x4, b4, x5, b5, x6, b6, x7, b7, x8, Unpack(0, 0));
    ByteRegister(data, n, c, x8);
  }

  lemma {:induction false} FourBits(v: nat, b0: nat, b1: nat, b2: nat, b3: nat, rest: nat, n: nat)
    requires v == b0 + 2 * b1 + 4 * b2 + 8 * b3 + 16 * rest && b0 < 2 && b1 < 2 && b2 < 2 && b3 < 2
    ensures Unpack(v, n + 4) == [b0 == 1, b1 == 1, b2 == 1, b3 == 1] + Unpack(rest, n)
  {
    var half := b2 + 2 * b3 + 4 * rest;
    TwoBits(half, b2, b3, rest, n);
    TwoBits(v, b0, b1, half, n + 2);
    assert [b0 == 1, b1 == 1] + ([b2 == 1, b3 == 1] + Unpack(rest, n)) ==
      [b0 == 1, b1 == 1, b2 == 1, b3 == 1] + Unpack(rest, n);
  }

  lemma {:induction false} TwoBits(v: nat, b0: nat, b1: nat, rest: nat, n: nat)
    requires v == b0 + 2 * b1 + 4 * rest && b0 < 2 && b1 < 2
    ensures Unpack(v, n + 2) == [b0 == 1, b1 == 1] + Unpack(rest, n)
  {
    LowBit(b1, rest, n);
    LowBit(b0, b1 + 2 * rest, n + 1);
    assert v == b0 + 2 * (b1 + 2 * rest);
    assert [b0 == 1] + ([b1 == 1] + Unpack(rest, n)) == [b0 == 1, b1 == 1] + Unpack(rest, n);
  }

  lemma {:induction false} ByteRegister(data: seq<byte>, n: nat, c: nat, x: nat)
    requires RegisterIs(data, n, c) && n < |data| && x == BitsIn(c, ByteBits(data[n]))
    ensures RegisterIs(data, n + 1, x)
  {
    StreamSnoc(data[..n], data[n]);
    BitsInConcat(ONES, Stream(data[..n]), ByteBits(data[n]));
    assert data[..n + 1] == data[..n] + [data[n]];
    assert Register(ONES, data[..n]) == c;
  }

  lemma {:induction false} NoByte(data: seq<byte>)
    ensures RegisterIs(data, 0, ONES)
  {
    assert data[..0] == [];
  }

  lemma {:induction false} Complement(data: seq<byte>, c: nat)
    requires RegisterIs(data, |data|, c) && c <= ONES
    ensures Crc32(0, data) == ONES - c
  {
    assert data[..|data|] == data;
    assert Register(ONES, data) == c;
    LargePowers();
    XorOnes(c, 32);
  }

  lemma {:induction false} XorOnes(c: nat, n: nat)
    requires c < Pow2(n)
    ensures BitXor(c, Pow2(n) - 1) == Pow2(n) - 1 - c
  {
    if n != 0 {
      XorHalves(c, Pow2(n) - 1);
      XorOnes(c / 2, n - 1);
    }
  }

  lemma {:induction false} Low1()
    ensures FourEnter(0xffffffff, 1, 0x7fffffff, 0, 0xd2477cdf, 0, 0x849b3d4f, 0, 0xaff51d87)
  {
    Enter(1, 0xffffffff, 0x7fffffff);
    Enter(0, 0x7fffffff, 0xd2477cdf);
    Enter(0, 0xd2477cdf, 0x849b3d4f);
    Enter(0, 0x849b3d4f, 0xaff51d87);
  }

  lemma {:induction false} High1()
    ensures FourEnter(0xaff51d87, 1, 0x57fa8ec3, 1, 0x2bfd4761, 0, 0xf8462090, 0, 0x7c231048)
  {
    Enter(1, 0xaff51d87, 0x57fa8ec3);
    Enter(1, 0x57fa8ec3, 0x2bfd4761);
    Enter(0, 0x2bfd4761, 0xf8462090);
    Enter(0, 0xf8462090, 0x7c231048);
  }

  lemma {:induction false} Digit1(data: seq<byte>)
    requires |data| == 9 && data[0] == '1' as nat && RegisterIs(data, 0, 0xffffffff)
    ensures RegisterIs(data, 1, 0x7c231048)
  {
    Low1();
    High1();
    ByteMore(data, 0, 0xffffffff, 1, 0x7fffffff, 0, 0xd2477cdf, 0, 0x849b3d4f, 0, 0xaff51d87, 1, 0x57fa8ec3, 1,
             0x2bfd4761, 0, 0xf8462090, 0, 0x7c231048);
  }

  lemma {:induction false} Low2()
    ensures FourEnter(0x7c231048, 0, 0x3e118824, 1, 0xf2b04732, 0, 0x79582399, 0, 0xd11492ec)
  {
    Enter(0, 0x7c231048, 0x3e118824);
    Enter(1, 0x3e118824, 0xf2b04732);
    Enter(0, 0xf2b04732, 0x79582399);
    Enter(0, 0x79582399, 0xd11492ec);
  }

  lemma {:induction false} High2()
    ensures FourEnter(0xd11492ec, 1, 0x8532ca56, 1, 0xaf21e60b, 0, 0xba287025, 0, 0xb0acbb32)
  {
    Enter(1, 0xd11492ec, 0x8532ca56);
    Enter(1, 0x8532ca56, 0xaf21e60b);
    Enter(0, 0xaf21e60b, 0xba287025);
    Enter(0, 0xba287025, 0xb0acbb32);
  }

  lemma {:induction false} Digit2(data: seq<byte>)
    requires |data| == 9 && data[1] == '2' as nat && RegisterIs(data, 1, 0x7c231048)
    ensures RegisterIs(data, 2, 0xb0acbb32)
  {
    Low2();
    High2();
    ByteMore(data, 1, 0x7c231048, 0, 0x3e118824, 1, 0xf2b04732, 0, 0x79582399, 0, 0xd11492ec, 1, 0x8532ca56, 1,
             0xaf21e60b, 0, 0xba287025, 0, 0xb0acbb32);
  }

  lemma {:induction false} Low3()
    ensures FourEnter(0xb0acbb32, 1, 0xb5eedeb9, 1, 0x5af76f5c, 0, 0x2d7bb7ae, 0, 0x16bddbd7)
  {
    Enter(1, 0xb0acbb32, 0xb5eedeb9);
    Enter(1, 0xb5eedeb9, 0x5af76f5c);
    Enter(0, 0x5af76f5c, 0x2d7bb7ae);
    Enter(0, 0x2d7bb7ae, 0x16bddbd7);
  }

  lemma {:induction false} High3()
    ensures FourEnter(0x16bddbd7, 1, 0xb5eedeb, 1, 0x5af76f5, 0, 0xef6f385a, 0, 0x77b79c2d)
  {
    Enter(1, 0x16bddbd7, 0xb5eedeb);
    Enter(1, 0xb5eedeb, 0x5af76f5);
    Enter(0, 0x5af76f5, 0xef6f385a);
    Enter(0, 0xef6f385a, 0x77b79c2d);
  }

  lemma {:induction false} Digit3(data: seq<byte>)
    requires |data| == 9 && data[2] == '3' as nat && RegisterIs(data, 2, 0xb0acbb32)
    ensures RegisterIs(data, 3, 0x77b79c2d)
  {
    Low3();
    High3();
    ByteMore(data, 2, 0xb0acbb32, 1, 0xb5eedeb9, 1, 0x5af76f5c, 0, 0x2d7bb7ae, 0, 0x16bddbd7, 1, 0xb5eedeb, 1,
             0x5af76f5, 0, 0xef6f385a, 0, 0x77b79c2d);
  }

  lemma {:induction false} Low4()
    ensures FourEnter(0x77b79c2d, 0, 0xd6634d36, 0, 0x6b31a69b, 1, 0x3598d34d, 0, 0xf774ea86)
  {
    Enter(0, 0x77b79c2d, 0xd6634d36);
    Enter(0, 0xd6634d36, 0x6b31a69b);
    Enter(1, 0x6b31a69b, 0x3598d34d);
    Enter(0, 0x3598d34d, 0xf774ea86);
  }

  lemma {:induction false} High4()
    ensures FourEnter(0xf774ea86, 1, 0x9602f663, 1, 0x4b017b31, 0, 0xc8383eb8, 0, 0x641c1f5c)
  {
    Enter(1, 0xf774ea86, 0x9602f663);
    Enter(1, 0x9602f663, 0x4b017b31);
    Enter(0, 0x4b017b31, 0xc8383eb8);
    Enter(0, 0xc8383eb8, 0x641c1f5c);
  }

  lemma {:induction false} Digit4(data: seq<byte>)
    requires |data| == 9 && data[3] == '4' as nat && RegisterIs(data, 3, 0x77b79c2d)
    ensures RegisterIs(data, 4, 0x641c1f5c)
  {
    Low4();
    High4();
    ByteMore(data, 3, 0x77b79c2d, 0, 0xd6634d36, 0, 0x6b31a69b, 1, 0x3598d34d, 0, 0xf774ea86, 1, 0x9602f663, 1,
             0x4b017b31, 0, 0xc8383eb8, 0, 0x641c1f5c);
  }

  lemma {:induction false} Low5()
    ensures FourEnter(0x641c1f5c, 1, 0xdfb68c8e, 0, 0x6fdb4647, 1, 0x37eda323, 0, 0xf64e52b1)
  {
    Enter(1, 0x641c1f5c, 0xdfb68c8e);
    Enter(0, 0xdfb68c8e, 0x6fdb4647);
    Enter(1, 0x6fdb4647, 0x37eda323);
    Enter(0, 0x37eda323, 0xf64e52b1);
  }

  lemma {:induction false} High5()
    ensures FourEnter(0xf64e52b1, 1, 0x7b272958, 1, 0xd02b178c, 0, 0x68158bc6, 0, 0x340ac5e3)
  {
    Enter(1, 0xf64e52b1, 0x7b272958);
    Enter(1, 0x7b272958, 0xd02b178c);
    Enter(0, 0xd02b178c, 0x68158bc6);
    Enter(0, 0x68158bc6, 0x340ac5e3);
  }

  lemma {:induction false} Digit5(data: seq<byte>)
    requires |data| == 9 && data[4] == '5' as nat && RegisterIs(data, 4, 0x641c1f5c)
    ensures RegisterIs(data, 5, 0x340ac5e3)
  {
    Low5();
    High5();
    ByteMore(data, 4, 0x641c1f5c, 1, 0xdfb68c8e, 0, 0x6fdb4647, 1, 0x37eda323, 0, 0xf64e52b1, 1, 0x7b272958, 1,
             0xd02b178c, 0, 0x68158bc6, 0, 0x340ac5e3);
  }

  lemma {:induction false} Low6()
    ensures FourEnter(0x340ac5e3, 0, 0xf7bde1d1, 1, 0x7bdef0e8, 1, 0xd057fb54, 0, 0x682bfdaa)
  {
    Enter(0, 0x340ac5e3, 0xf7bde1d1);
    Enter(1, 0xf7bde1d1, 0x7bdef0e8);
    Enter(1, 0x7bdef0e8, 0xd057fb54);
    Enter(0, 0xd057fb54, 0x682bfdaa);
  }

  lemma {:induction false} High6()
    ensures FourEnter(0x682bfdaa, 1, 0xd9ad7df5, 1, 0x6cd6befa, 0, 0x366b5f7d, 0, 0xf68d2c9e)
  {
    Enter(1, 0x682bfdaa, 0xd9ad7df5);
    Enter(1, 0xd9ad7df5, 0x6cd6befa);
    Enter(0, 0x6cd6befa, 0x366b5f7d);
    Enter(0, 0x366b5f7d, 0xf68d2c9e);
  }

  lemma {:induction false} Digit6(data: seq<byte>)
    requires |data| == 9 && data[5] == '6' as nat && RegisterIs(data, 5, 0x340ac5e3)
    ensures RegisterIs(data, 6, 0xf68d2c9e)
  {
    Low6();
    High6();
    ByteMore(data, 5, 0x340ac5e3, 0, 0xf7bde1d1, 1, 0x7bdef0e8, 1, 0xd057fb54, 0, 0x682bfdaa, 1, 0xd9ad7df5, 1,
             0x6cd6befa, 0, 0x366b5f7d, 0, 0xf68d2c9e);
  }

  lemma {:induction false} Low7()
    ensures FourEnter(0xf68d2c9e, 1, 0x96fe156f, 1, 0x4b7f0ab7, 1, 0x25bf855b, 0, 0xff67418d)
  {
    Enter(1, 0xf68d2c9e, 0x96fe156f);
    Enter(1, 0x96fe156f, 0x4b7f0ab7);
    Enter(1, 0x4b7f0ab7, 0x25bf855b);
    Enter(0, 0x25bf855b, 0xff67418d);
  }

  lemma {:induction false} High7()
    ensures FourEnter(0xff67418d, 1, 0x7fb3a0c6, 1, 0xd2615343, 0, 0x84882a81, 0, 0xaffc9660)
  {
    Enter(1, 0xff67418d, 0x7fb3a0c6);
    Enter(1, 0x7fb3a0c6, 0xd2615343);
    Enter(0, 0xd2615343, 0x84882a81);
    Enter(0, 0x84882a81, 0xaffc9660);
  }

  lemma {:induction false} Digit7(data: seq<byte>)
    requires |data| == 9 && data[6] == '7' as nat && RegisterIs(data, 6, 0xf68d2c9e)
    ensures RegisterIs(data, 7, 0xaffc9660)
  {
    Low7();
    High7();
    ByteMore(data, 6, 0xf68d2c9e, 1, 0x96fe156f, 1, 0x4b7f0ab7, 1, 0x25bf855b, 0, 0xff67418d, 1, 0x7fb3a0c6, 1,
             0xd2615343, 0, 0x84882a81, 0, 0xaffc9660);
  }

  lemma {:induction false} Low8()
    ensures FourEnter(0xaffc9660, 0, 0x57fe4b30, 0, 0x2bff2598, 0, 0x15ff92cc, 1, 0xe7474a46)
  {
    Enter(0, 0xaffc9660, 0x57fe4b30);
    Enter(0, 0x57fe4b30, 0x2bff2598);
    Enter(0, 0x2bff2598, 0x15ff92cc);
    Enter(1, 0x15ff92cc, 0xe7474a46);
  }

  lemma {:induction false} High8()
    ensures FourEnter(0xe7474a46, 1, 0x9e1b2603, 1, 0x4f0d9301, 0, 0xca3e4aa0, 0, 0x651f2550)
  {
    Enter(1, 0xe7474a46, 0x9e1b2603);
    Enter(1, 0x9e1b2603, 0x4f0d9301);
    Enter(0, 0x4f0d9301, 0xca3e4aa0);
    Enter(0, 0xca3e4aa0, 0x651f2550);
  }

  lemma {:induction false} Digit8(data: seq<byte>)
    requires |data| == 9 && data[7] == '8' as nat && RegisterIs(data, 7, 0xaffc9660)
    ensures RegisterIs(data, 8, 0x651f2550)
  {
    Low8();
    High8();
    ByteMore(data, 7, 0xaffc9660, 0, 0x57fe4b30, 0, 0x2bff2598, 0, 0x15ff92cc, 1, 0xe7474a46, 1, 0x9e1b2603, 1,
             0x4f0d9301, 0, 0xca3e4aa0, 0, 0x651f2550);
  }

  lemma {:induction false} Low9()
    ensures FourEnter(0x651f2550, 1, 0xdf371188, 0, 0x6f9b88c4, 0, 0x37cdc462, 1, 0xf65e6111)
  {
    Enter(1, 0x651f2550, 0xdf371188);
    Enter(0, 0xdf371188, 0x6f9b88c4);
    Enter(0, 0x6f9b88c4, 0x37cdc462);
    Enter(1, 0x37cdc462, 0xf65e6111);
  }

  lemma {:induction false} High9()
    ensures FourEnter(0xf65e6111, 1, 0x7b2f3088, 1, 0xd02f1b64, 0, 0x68178db2, 0, 0x340bc6d9)
  {
    Enter(1, 0xf65e6111, 0x7b2f3088);
    Enter(1, 0x7b2f3088, 0xd02f1b64);
    Enter(0, 0xd02f1b64, 0x68178db2);
    Enter(0, 0x68178db2, 0x340bc6d9);
  }

  lemma {:induction false} Digit9(data: seq<byte>)
    requires |data| == 9 && data[8] == '9' as nat && RegisterIs(data, 8, 0x651f2550)
    ensures RegisterIs(data, 9, 0x340bc6d9)
  {
    Low9();
    High9();
    ByteMore(data, 8, 0x651f2550, 1, 0xdf371188, 0, 0x6f9b88c4, 0, 0x37cdc462, 1, 0xf65e6111, 1, 0x7b2f3088, 1,
             0xd02f1b64, 0, 0x68178db2, 0, 0x340bc6d9);
  }

  /** The check value of CRC-32, that of the nine digits "123456789". */
  lemma {:induction false} CrcOfDigits(data: seq<byte>)
    requires |data| == 9 && forall i :: 0 <= i < 9 ==> data[i] == '1' as nat + i
    ensures Crc32(0, data) == 0xcbf43926
  {
    NoByte(data);
    Digit1(data);
    Digit2(data);
    Digit3(data);
    Digit4(data);
    Digit5(data);
    Digit6(data);
    Digit7(data);
    Digit8(data);
    Digit9(data);
    Complement(data, 0x340bc6d9);
  }
}
