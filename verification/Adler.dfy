/** Adler-32 (section 8.2 of RFC 1950): two sums modulo 65521, with reductions put off
    as long as 32 bits allow, and the checksum of a concatenation. */
module Adler {
  import opened Bits

  const BASE := 65521
  const NMAX := 5552
  const WORD := 0x1_0000_0000

  // ----- the definition -----

  /** The sum of the bytes. */
  function Sum1(a: nat, data: seq<byte>): (r: nat)
    ensures r < BASE
  {
    if data == [] then a % BASE else
    var n := |data| - 1;
    (Sum1(a, data[..n]) + data[n]) % BASE
  }

  /** The sum of the sums. */
  function Sum2(a: nat, b: nat, data: seq<byte>): (r: nat)
    ensures r < BASE
  {
    if data == [] then b % BASE else
    var n := |data| - 1;
    (Sum2(a, b, data[..n]) + Sum1(a, data)) % BASE
  }

  /** Both sums in one word. */
  function Pair(a: nat, b: nat): nat {
    a + 0x10000 * b
  }

  /** The checksum of the data, continued from adler. */
  function Checksum(adler: nat, data: seq<byte>): nat {
    var a, b := LowHalf(adler), HighHalf(adler);
    Pair(Sum1(a, data), Sum2(a, b, data))
  }

  // ----- reductions without division -----

  /** CHOP: 65536 is 15 modulo BASE. */
  function Chop(a: nat): (r: nat)
    ensures r % BASE == a % BASE
    ensures a < 0x1000_0000 ==> r < 2 * BASE
    ensures a < 0x100_0000_0000 ==> r < 0x1000_0000
  {
    var tmp := a / 0x10000;
    a % 0x10000 + (16 * tmp - tmp)
  }

  /** MOD28 */
  function Mod28(a: nat): (r: nat)
    requires a < 0x1000_0000
    ensures r == a % BASE
  {
    var c := Chop(a);
    if c >= BASE then c - BASE else c
  }

  /** MOD */
  function Mod(a: nat): (r: nat)
    requires a < WORD
    ensures r == a % BASE
  {
    Mod28(Chop(a))
  }

  /** MOD63 */
  function Mod63(a: nat): (r: nat)
    requires a < 0x8000_0000_0000_0000
    ensures r == a % BASE
  {
    var z := Chop(Chop(Fold(a)));
    if z >= BASE then z - BASE else z
  }

  /** The upper and lower 32 bits: 2^32 is 225 modulo BASE. */
  function Fold(a: nat): (r: nat)
    requires a < 0x8000_0000_0000_0000
    ensures r % BASE == a % BASE && r < 0x100_0000_0000
  {
    var tmp := a / WORD;
    FoldMod(a, tmp, a % WORD);
    a % WORD + (256 * tmp - 32 * tmp + tmp)
  }

  lemma {:induction false} FoldMod(a: nat, tmp: nat, low: nat)
    requires a == WORD * tmp + low
    ensures (low + 225 * tmp) % BASE == a % BASE
  {
    assert a == (low + 225 * tmp) + BASE * (65551 * tmp);
    MultipleMod(low + 225 * tmp, 65551 * tmp);
  }

  lemma {:induction false} MultipleMod(x: nat, k: nat)
    ensures (x + BASE * k) % BASE == x % BASE
  {
  }

  // ----- how far the sums grow -----

  /** 1 + 2 + ... + n */
  function Tri(n: nat): nat {
    if n == 0 then 0 else Tri(n - 1) + n
  }

  lemma {:induction false} TriClosed(n: nat)
    ensures 2 * Tri(n) == n * (n + 1)
  {
    if n != 0 { TriClosed(n - 1); }
  }

  /** The largest value of the second sum after n bytes, from sums of at most 65535. */
  function Largest(n: nat): nat {
    0xffff + 0xffff * n + 255 * Tri(n)
  }

  lemma {:induction false} LargestGrows(m: nat, n: nat)
    requires m <= n
    ensures Largest(m) <= Largest(n)
  {
    if m < n { LargestGrows(m, n - 1); }
  }

  /** NMAX bytes never overflow 32 bits; the documented bound is the largest possible. */
  lemma {:induction false} NoOverflow()
    ensures Largest(NMAX) < WORD
    ensures 255 * Tri(NMAX) + (NMAX + 1) * (BASE - 1) < WORD <= 255 * Tri(NMAX + 1) + (NMAX + 2) * (BASE - 1)
  {
    TriClosed(NMAX);
    TriClosed(NMAX + 1);
  }

  /** After n bytes since the last reduction, the sums are right modulo BASE and within 32 bits. */
  ghost predicate Running(a0: nat, b0: nat, data: seq<byte>, adler: nat, sum2: nat, n: nat) {
    && adler % BASE == Sum1(a0, data) && sum2 % BASE == Sum2(a0, b0, data)
    && adler <= 0xffff + 255 * n && sum2 <= Largest(n)
  }

  lemma {:induction false} RunningOn(a0: nat, b0: nat, data: seq<byte>, adler: nat, sum2: nat, n: nat, b: byte)
    requires Running(a0, b0, data, adler, sum2, n)
    ensures Running(a0, b0, data + [b], adler + b, sum2 + (adler + b), n + 1)
  {
    var d := data + [b];
    assert d[..|d| - 1] == data;
    AddMod(adler, b, Sum1(a0, data));
    SecondStep(a0, b0, d);
    AddMods(sum2, adler + b, Sum2(a0, b0, data), Sum1(a0, d));
  }

  lemma {:induction false} AddMod(x: nat, y: nat, r: nat)
    requires x % BASE == r
    ensures (x + y) % BASE == (r + y) % BASE
  {
  }

  lemma {:induction false} AddMods(x: nat, y: nat, r: nat, s: nat)
    requires x % BASE == r && y % BASE == s
    ensures (x + y) % BASE == (r + s) % BASE
  {
    AddMod(x, y, r);
    AddMod(y, r, s);
  }

  lemma {:induction false} Within(adler: nat, sum2: nat, n: nat)
    requires n <= NMAX && adler <= 0xffff + 255 * n && sum2 <= Largest(n)
    ensures adler < WORD && sum2 < WORD
  {
    LargestGrows(n, NMAX);
    NoOverflow();
  }

  lemma {:induction false} RunningAt(a0: nat, b0: nat, buf: seq<byte>, i: nat, adler: nat, sum2: nat, n: nat)
    requires i < |buf| && Running(a0, b0, buf[..i], adler, sum2, n)
    ensures Running(a0, b0, buf[..i + 1], adler + buf[i], sum2 + (adler + buf[i]), n + 1)
  {
    RunningOn(a0, b0, buf[..i], adler, sum2, n, buf[i]);
    assert buf[..i + 1] == buf[..i] + [buf[i]];
  }

  lemma {:induction false} RunningWithin(a0: nat, b0: nat, data: seq<byte>, adler: nat, sum2: nat, n: nat)
    requires n <= NMAX && Running(a0, b0, data, adler, sum2, n)
    ensures adler < WORD && sum2 < WORD
  {
    Within(adler, sum2, n);
  }

  // ----- adler32 -----

  /** adler | (sum2 << 16) */
  method Join(adler: nat, sum2: nat) returns (r: nat)
    requires adler < 0x10000
    ensures r == Pair(adler, sum2)
  {
    LargePowers();
    OrIsPlus(adler, 16, sum2);
    Shl16(sum2);
    r := BitOr(adler, Shl(sum2, 16));
  }

  /** Adds buf[from..to] to the sums, without reducing them. */
  method AddBytes(buf: seq<byte>, from: nat, to: nat, adler0: nat, sum0: nat, ghost a0: nat, ghost b0: nat,
                  ghost n: nat) returns (adler: nat, sum2: nat)
    requires from <= to <= |buf| && n + (to - from) <= NMAX && Running(a0, b0, buf[..from], adler0, sum0, n)
    ensures Running(a0, b0, buf[..to], adler, sum2, n + (to - from)) && adler < WORD && sum2 < WORD
  {
    adler, sum2 := adler0, sum0;
    for i := from to to
      invariant Running(a0, b0, buf[..i], adler, sum2, n + (i - from))
    {
      RunningAt(a0, b0, buf, i, adler, sum2, n + (i - from));
      adler := adler + buf[i];
      sum2 := sum2 + adler;
    }
    RunningWithin(a0, b0, buf[..to], adler, sum2, n + (to - from));
  }

  /** Adds blocks of sixteen bytes. */
  method AddSixteens(buf: seq<byte>, from: nat, blocks: nat, adler0: nat, sum0: nat, ghost a0: nat, ghost b0: nat)
    returns (adler: nat, sum2: nat)
    requires from + 16 * blocks <= |buf| && 16 * blocks <= NMAX && Running(a0, b0, buf[..from], adler0, sum0, 0)
    ensures Running(a0, b0, buf[..from + 16 * blocks], adler, sum2, 16 * blocks) && adler < WORD && sum2 < WORD
  {
    adler, sum2 := adler0, sum0;
    Within(adler, sum2, 0);
    for k := 0 to blocks
      invariant Running(a0, b0, buf[..from + 16 * k], adler, sum2, 16 * k) && adler < WORD && sum2 < WORD
    {
      adler, sum2 := AddBytes(buf, from + 16 * k, from + 16 * k + 16, adler, sum2, a0, b0, 16 * k);
    }
  }

  lemma {:induction false} Reduced(a0: nat, b0: nat, data: seq<byte>, adler: nat, sum2: nat, n: nat)
    requires Running(a0, b0, data, adler, sum2, n)
    ensures Running(a0, b0, data, adler % BASE, sum2 % BASE, 0)
  {
  }

  /** A single byte leaves the second sum unreduced when both halves of adler are large. */
  ghost predicate Unreduced(adler: nat, buf: seq<byte>) {
    |buf| == 1 && HighHalf(adler) + Sum1(LowHalf(adler), buf) >= 2 * BASE
  }

  /** adler32: the plain modular sums, except that a single byte may leave BASE too much in the second one. */
  method Adler32(adler: nat, buf: seq<byte>) returns (r: nat)
    requires adler < WORD
    ensures r == Checksum(adler, buf) + if Unreduced(adler, buf) then 0x10000 * BASE else 0
  {
    var sum2, a := HighHalf(adler), LowHalf(adler);
    ghost var a0, b0 := a, sum2;
    if |buf| == 1 {
      r := OneByte(a, sum2, buf);
    } else if |buf| < 16 {
      r := FewBytes(a, sum2, buf);
    } else {
      r := ManyBytes(a, sum2, buf);
    }
  }

  /** if (a >= BASE) a -= BASE; */
  method SubtractOnce(a: nat) returns (r: nat)
    ensures r == if a >= BASE then a - BASE else a
    ensures a < 2 * BASE ==> r == a % BASE
  {
    r := if a >= BASE then a - BASE else a;
  }

  method OneByte(a0: nat, b0: nat, buf: seq<byte>) returns (r: nat)
    requires a0 < 0x10000 && b0 < 0x10000 && |buf| == 1
    ensures r == Pair(Sum1(a0, buf), Sum2(a0, b0, buf) + if b0 + Sum1(a0, buf) >= 2 * BASE then BASE else 0)
  {
    OneByteSums(a0, b0, buf);
    var adler := SubtractOnce(a0 + buf[0]);
    var sum2 := SubtractOnce(b0 + adler);
    r := Join(adler, sum2);
  }

  lemma {:induction false} OneByteSums(a0: nat, b0: nat, buf: seq<byte>)
    requires |buf| == 1
    ensures Sum1(a0, buf) == (a0 + buf[0]) % BASE && Sum2(a0, b0, buf) == (b0 + Sum1(a0, buf)) % BASE
  {
    assert buf[..0] == [];
  }

  method FewBytes(a0: nat, b0: nat, buf: seq<byte>) returns (r: nat)
    requires a0 < 0x10000 && b0 < 0x10000 && |buf| < 16
    ensures r == Pair(Sum1(a0, buf), Sum2(a0, b0, buf))
  {
    assert buf[..0] == [] && buf[..|buf|] == buf;
    var adler, sum2 := AddBytes(buf, 0, |buf|, a0, b0, a0, b0, 0);
    FewBound(|buf|, sum2);
    adler := SubtractOnce(adler);
    sum2 := Mod28(sum2);
    r := Join(adler, sum2);
  }

  lemma {:induction false} FewBound(n: nat, sum2: nat)
    requires n < 16 && sum2 <= Largest(n)
    ensures sum2 < 0x1000_0000
  {
    LargestGrows(n, 15);
    TriClosed(15);
  }

  method ManyBytes(a0: nat, b0: nat, buf: seq<byte>) returns (r: nat)
    requires a0 < 0x10000 && b0 < 0x10000 && |buf| >= 16
    ensures r == Pair(Sum1(a0, buf), Sum2(a0, b0, buf))
  {
    var adler, sum2, i := FullBlocks(a0, b0, buf);
    if i < |buf| {
      adler, sum2 := LastBytes(buf, i, adler, sum2, a0, b0);
    }
    r := Join(adler, sum2);
  }

  lemma {:induction false} ReducedSums(a0: nat, b0: nat, data: seq<byte>, adler: nat, sum2: nat)
    requires Running(a0, b0, data, adler, sum2, 0) && adler < BASE && sum2 < BASE
    ensures adler == Sum1(a0, data) && sum2 == Sum2(a0, b0, data)
  {
  }

  /** Blocks of NMAX bytes, the sums reduced after each. */
  method FullBlocks(a0: nat, b0: nat, buf: seq<byte>) returns (adler: nat, sum2: nat, i: nat)
    requires a0 < 0x10000 && b0 < 0x10000 && |buf| >= 16
    ensures i <= |buf| < i + NMAX && Running(a0, b0, buf[..i], adler, sum2, 0)
    ensures i == |buf| ==> adler == Sum1(a0, buf) && sum2 == Sum2(a0, b0, buf)
  {
    adler, sum2, i := a0, b0, 0;
    assert buf[..0] == [];
    while |buf| - i >= NMAX
      invariant i <= |buf| && Running(a0, b0, buf[..i], adler, sum2, 0) && (i > 0 ==> adler < BASE && sum2 < BASE)
    {
      adler, sum2 := AddSixteens(buf, i, NMAX / 16, adler, sum2, a0, b0);
      i := i + NMAX;
      Reduced(a0, b0, buf[..i], adler, sum2, NMAX);
      adler, sum2 := Mod(adler), Mod(sum2);
    }
    if i == |buf| {
      assert buf[..i] == buf;
      ReducedSums(a0, b0, buf, adler, sum2);
    }
  }

  /** The bytes after the last full block. */
  method LastBytes(buf: seq<byte>, i: nat, adler0: nat, sum0: nat, ghost a0: nat, ghost b0: nat)
    returns (adler: nat, sum2: nat)
    requires i < |buf| < i + NMAX && Running(a0, b0, buf[..i], adler0, sum0, 0)
    ensures adler == Sum1(a0, buf) && sum2 == Sum2(a0, b0, buf)
  {
    var blocks := (|buf| - i) / 16;
    adler, sum2 := AddSixteens(buf, i, blocks, adler0, sum0, a0, b0);
    adler, sum2 := AddBytes(buf, i + 16 * blocks, |buf|, adler, sum2, a0, b0, 16 * blocks);
    assert buf[..|buf|] == buf;
    Reduced(a0, b0, buf, adler, sum2, |buf| - i);
    adler, sum2 := Mod(adler), Mod(sum2);
    ReducedSums(a0, b0, buf, adler, sum2);
  }

  /** An input for which adler32 is not the plain modular sums: a zero byte after a checksum word whose
      upper half is 0xffff, where the second sum is 13 and adler32 leaves 13 + BASE. */
  method UnreducedExample() returns (r: nat)
    ensures Unreduced(0xffff_fff0, [0])
    ensures r == 0xfffe_fff0 && Checksum(0xffff_fff0, [0]) == 0x000d_fff0
  {
    ghost var buf: seq<byte> := [0];
    OneByteSums(0xfff0, 0xffff, buf);
    Start(0xffff_fff0, 0xfff0, 0xffff, buf);
    r := Adler32(0xffff_fff0, [0]);
  }

  /** Checksums, whose halves are reduced, are never continued that way. */
  lemma {:induction false} ReducedStart(adler: nat, buf: seq<byte>)
    requires HighHalf(adler) < BASE
    ensures !Unreduced(adler, buf)
  {
  }

  // ----- combining checksums -----

  lemma {:induction false} FirstConcat(a: nat, u: seq<byte>, v: seq<byte>)
    ensures Sum1(a, u + v) == Sum1(Sum1(a, u), v)
  {
    if v == [] {
      assert u + v == u;
    } else {
      var n := |v| - 1;
      FirstConcat(a, u, v[..n]);
      assert (u + v)[..|u| + n] == u + v[..n];
    }
  }

  lemma {:induction false} SumsConcat(a: nat, b: nat, u: seq<byte>, v: seq<byte>)
    ensures Sum1(a, u + v) == Sum1(Sum1(a, u), v) && Sum2(a, b, u + v) == Sum2(Sum1(a, u), Sum2(a, b, u), v)
  {
    FirstConcat(a, u, v);
    if v == [] {
      assert u + v == u;
    } else {
      var n := |v| - 1;
      SumsConcat(a, b, u, v[..n]);
      assert (u + v)[..|u + v| - 1] == u + v[..n];
      SecondStep(a, b, u + v);
      SecondStep(Sum1(a, u), Sum2(a, b, u), v);
    }
  }

  function Mul(n: nat, k: nat): nat {
    if n == 0 then 0 else Mul(n - 1, k) + k
  }

  lemma {:induction false} MulIsProduct(n: nat, k: nat)
    ensures Mul(n, k) == n * k
  {
    if n != 0 { MulIsProduct(n - 1, k); }
  }

  /** Sums from (a, b) on, from those from (1, 0) on. */
  lemma {:induction false} Shifted(a: nat, b: nat, v: seq<byte>, k: nat)
    requires k == a + BASE - 1
    ensures Sum1(a, v) == (Sum1(1, v) + k) % BASE && Sum2(a, b, v) == (Sum2(1, 0, v) + (b + Mul(|v|, k))) % BASE
  {
    ShiftedFirst(a, 1, v, k);
    ShiftedSecond(a, b, 1, 0, v, k);
  }

  lemma {:induction false} ShiftedFirst(a: nat, c: nat, v: seq<byte>, k: nat)
    requires k + c == a + BASE
    ensures Sum1(a, v) == (Sum1(c, v) + k) % BASE
  {
    if v != [] {
      var n := |v| - 1;
      ShiftedFirst(a, c, v[..n], k);
      ShiftOne(Sum1(c, v[..n]), k, v[n], Sum1(a, v[..n]));
    } else {
      ShiftStart(a, c, k);
    }
  }

  lemma {:induction false} ShiftStart(a: nat, c: nat, k: nat)
    requires k + c == a + BASE
    ensures a % BASE == (c % BASE + k) % BASE
  {
  }

  lemma {:induction false} ShiftedSecond(a: nat, b: nat, c: nat, d: nat, v: seq<byte>, k: nat)
    requires k + c == a + BASE && d == 0
    ensures Sum2(a, b, v) == (Sum2(c, d, v) + (b + Mul(|v|, k))) % BASE
  {
    if v != [] {
      var n := |v| - 1;
      ShiftedSecond(a, b, c, d, v[..n], k);
      ShiftedFirst(a, c, v, k);
      SecondStep(a, b, v);
      SecondStep(c, d, v);
      ShiftTwo(Sum2(c, d, v[..n]), b + Mul(n, k), Sum1(c, v), k, Sum2(a, b, v[..n]), Sum1(a, v));
    }
  }

  lemma {:induction false} SecondStep(a: nat, b: nat, v: seq<byte>)
    requires v != []
    ensures Sum2(a, b, v) == (Sum2(a, b, v[..|v| - 1]) + Sum1(a, v)) % BASE
  {
  }

  lemma {:induction false} ShiftOne(x: nat, k: nat, c: nat, y: nat)
    requires y == (x + k) % BASE
    ensures (y + c) % BASE == ((x + c) % BASE + k) % BASE
  {
  }

  lemma {:induction false} ShiftTwo(x: nat, m: nat, s: nat, k: nat, y: nat, t: nat)
    requires y == (x + m) % BASE && t == (s + k) % BASE
    ensures (y + t) % BASE == ((x + s) % BASE + (m + k)) % BASE
  {
  }

  /** The length enters only through its remainder. */
  lemma {:induction false} LengthMod(n: nat, s1: nat, x: nat)
    ensures (x + Mul(n, s1 + BASE - 1)) % BASE == ((n % BASE) * s1 % BASE + x + BASE - n % BASE) % BASE
  {
    var q, rem, k := n / BASE, n % BASE, s1 + BASE - 1;
    MulIsProduct(n, k);
    var m := q * k + rem;
    ProductSplit(n, q, rem, s1, k);
    assert x + n * k + rem == x + rem * s1 + BASE * m;
    MultipleMod(x + rem * s1, m);
    SubtractRem(x, n * k, rem * s1, rem);
  }

  lemma {:induction false} ProductSplit(n: nat, q: nat, rem: nat, s1: nat, k: nat)
    requires n == BASE * q + rem && k == s1 + BASE - 1
    ensures n * k + rem == rem * s1 + BASE * (q * k + rem)
  {
    assert n * k == BASE * (q * k) + rem * k;
    assert rem * k == rem * s1 + rem * BASE - rem;
  }

  lemma {:induction false} SubtractRem(x: nat, p: nat, r: nat, rem: nat)
    requires (x + p + rem) % BASE == (x + r) % BASE && rem < BASE
    ensures (x + p) % BASE == (r % BASE + x + BASE - rem) % BASE
  {
  }

  lemma {:induction false} PairHalves(a: nat, b: nat)
    requires a < 0x10000 && b < 0x10000
    ensures Pair(a, b) % 0x10000 == a && Pair(a, b) / 0x10000 == b && Pair(a, b) / 0x10000 % 0x10000 == b
    ensures Pair(a, b) < WORD
  {
  }

  /** Both sums come out reduced: always if the halves are, as those of checksums. */
  ghost predicate ComesReduced(a1: nat, b1: nat, a2: nat, b2: nat, len2: nat) {
    a1 + a2 <= 2 * BASE && len2 % BASE * a1 % BASE + b1 + b2 < 3 * BASE + len2 % BASE
  }

  lemma {:induction false} HalvesReduced(a1: nat, b1: nat, a2: nat, b2: nat, len2: nat)
    requires a1 < BASE && b1 < BASE && a2 < BASE && b2 < BASE
    ensures ComesReduced(a1, b1, a2, b2, len2)
  {
  }

  /** The word is made of both sums of a concatenation. */
  ghost predicate RightFor(r: nat, a1: nat, b1: nat, a2: nat, b2: nat, len2: nat) {
    r == Pair(Both1(a1, a2), Both2(a1, b1, b2, len2))
  }

  /** The word is made of both sums as adler32_combine_ leaves them. */
  ghost predicate Joins(r: nat, a1: nat, b1: nat, a2: nat, b2: nat, len2: nat) {
    r == BitOr(Raw1(a1, a2), Shl(Raw2(a1, b1, b2, len2), 16))
  }

  /** adler32_combine_, on any two checksum words: the combination is right exactly if both sums come out reduced. */
  method Adler32Combine(adler1: nat, adler2: nat, len2: int) returns (r: nat)
    requires adler1 < WORD && adler2 < WORD && len2 < 0x8000_0000_0000_0000
    ensures len2 < 0 ==> r == 0xffffffff
    ensures len2 >= 0 ==> Joins(r, LowHalf(adler1), HighHalf(adler1), LowHalf(adler2), HighHalf(adler2), len2)
    ensures len2 >= 0 ==>
              (RightFor(r, LowHalf(adler1), HighHalf(adler1), LowHalf(adler2), HighHalf(adler2), len2) <==>
               ComesReduced(LowHalf(adler1), HighHalf(adler1), LowHalf(adler2), HighHalf(adler2), len2))
  {
    if len2 < 0 {
      return 0xffffffff;
    }
    r := CombineHalves(LowHalf(adler1), HighHalf(adler1), LowHalf(adler2), HighHalf(adler2), len2);
  }

  /** adler & 0xffff */
  function LowHalf(adler: nat): (r: nat)
    ensures r < 0x10000
  {
    adler % 0x10000
  }

  /** (adler >> 16) & 0xffff */
  function HighHalf(adler: nat): (r: nat)
    ensures r < 0x10000
  {
    adler / 0x10000 % 0x10000
  }

  /** adler32_combine_, on the halves of both words. */
  method CombineHalves(a1: nat, b1: nat, a2: nat, b2: nat, len2: nat) returns (r: nat)
    requires a1 < 0x10000 && b1 < 0x10000 && a2 < 0x10000 && b2 < 0x10000 && len2 < 0x8000_0000_0000_0000
    ensures Joins(r, a1, b1, a2, b2, len2)
    ensures RightFor(r, a1, b1, a2, b2, len2) <==> ComesReduced(a1, b1, a2, b2, len2)
  {
    var sum1, sum2 := CombineSums(a1, b1, a2, b2, len2);
    r := OrSums(sum1, sum2);
    JoinedRight(sum1, sum2, Both1(a1, a2), Both2(a1, b1, b2, len2), r);
  }

  /** sum1 | (sum2 << 16), where sum1 may reach the bits of sum2. */
  method OrSums(sum1: nat, sum2: nat) returns (r: nat)
    ensures r == BitOr(sum1, Shl(sum2, 16))
    ensures r % 0x10000 == sum1 % 0x10000 && (sum1 < 0x10000 ==> r == Pair(sum1, sum2))
  {
    Shl16(sum2);
    LargePowers();
    OrLow(sum1, sum2, 16);
    LowIsMod(BitOr(sum1, Shl(sum2, 16)));
    LowIsMod(sum1);
    if sum1 < 0x10000 { OrIsPlus(sum1, 16, sum2); }
    r := BitOr(sum1, Shl(sum2, 16));
  }

  lemma {:induction false} OrLow(a: nat, b: nat, n: nat)
    ensures Low(BitOr(a, Shl(b, n)), n) == Low(a, n)
  {
    if n != 0 {
      OrLow(a / 2, b, n - 1);
      OrEven(a, Shl(b, n - 1));
    }
  }

  lemma {:induction false} OrEven(a: nat, s: nat)
    ensures BitOr(a, 2 * s) / 2 == BitOr(a / 2, s) && BitOr(a, 2 * s) % 2 == a % 2
  {
  }

  lemma {:induction false} LowIsMod(v: nat)
    ensures Low(v, 16) == v % 0x10000
  {
    SplitAt(v, 16);
    Shl16(Shr(v, 16));
    LargePowers();
    RemainderOf(v, Shr(v, 16), Low(v, 16));
  }

  lemma {:induction false} RemainderOf(v: nat, q: nat, r: nat)
    requires v == r + 0x10000 * q && r < 0x10000
    ensures v % 0x10000 == r
  {
  }

  /** Sums that are too large by BASE never make the right word. */
  lemma {:induction false} JoinedRight(sum1: nat, sum2: nat, s1: nat, s2: nat, r: nat)
    requires s1 < BASE && s2 < BASE && (sum1 == s1 || (sum1 == s1 + BASE && s1 < 30))
    requires (sum2 == s2 || sum2 == s2 + BASE)
    requires r % 0x10000 == sum1 % 0x10000 && (sum1 < 0x10000 ==> r == Pair(sum1, sum2))
    ensures r == Pair(s1, s2) <==> sum1 == s1 && sum2 == s2
  {
    PairHalves(s1, s2);
  }

  /** Words for which adler32_combine_ is wrong: both first halves are 0xffff, and the first sum comes out as BASE too
      much, which reaches into the second half. */
  method CombineExample() returns (r: nat)
    ensures !ComesReduced(0xffff, 0, 0xffff, 0, 0)
    ensures r == 0x0001_000c && RightFor(0x0000_001b, 0xffff, 0, 0xffff, 0, 0)
  {
    r := Adler32Combine(0xffff, 0xffff, 0);
    assert LowHalf(0xffff) == 0xffff && HighHalf(0xffff) == 0;
    ExampleWord(r);
  }

  lemma {:induction false} ExampleWord(r: nat)
    requires Joins(r, 0xffff, 0, 0xffff, 0, 0)
    ensures r == 0x0001_000c && RightFor(0x0000_001b, 0xffff, 0, 0xffff, 0, 0)
  {
    ShlZero(16);
    assert Raw1(0xffff, 0xffff) == 0x0001_000c && Raw2(0xffff, 0, 0, 0) == 0;
  }

  /** The first sum of a concatenation. */
  function Both1(a1: nat, a2: nat): nat {
    (a1 + a2 + BASE - 1) % BASE
  }

  /** The first sum as adler32_combine_ leaves it. */
  function Raw1(a1: nat, a2: nat): nat {
    Both1(a1, a2) + if a1 + a2 <= 2 * BASE then 0 else BASE
  }

  /** The second sum as adler32_combine_ leaves it. */
  function Raw2(a1: nat, b1: nat, b2: nat, len2: nat): nat {
    Both2(a1, b1, b2, len2) + if len2 % BASE * a1 % BASE + b1 + b2 < 3 * BASE + len2 % BASE then 0 else BASE
  }

  /** The second sum of a concatenation. */
  function Both2(a1: nat, b1: nat, b2: nat, len2: nat): nat {
    (b2 + b1 + Mul(len2, a1 + BASE - 1)) % BASE
  }

  method CombineSums(a1: nat, b1: nat, a2: nat, b2: nat, len2: nat) returns (sum1: nat, sum2: nat)
    requires a1 < 0x10000 && b1 < 0x10000 && a2 < 0x10000 && b2 < 0x10000 && len2 < 0x8000_0000_0000_0000
    ensures sum1 == Raw1(a1, a2) && (a1 + a2 > 2 * BASE ==> Both1(a1, a2) < 30)
    ensures sum2 == Raw2(a1, b1, b2, len2)
  {
    var rem := Mod63(len2);
    RemProduct(rem, a1);
    sum2 := Mod(rem * a1);
    LengthMod(len2, a1, b2 + b1);
    sum1 := SubtractTwice(a1 + (a2 + BASE - 1));
    var far: nat := b1 + b2 + BASE - rem;
    sum2 := SubtractThrice(sum2 + far);
  }

  lemma {:induction false} RemProduct(rem: nat, s: nat)
    requires rem < BASE && s < 0x10000
    ensures 0 <= rem * s < WORD
  {
    MulMono(0, rem, s);
    MulMono(rem, BASE - 1, s);
  }

  method SubtractTwice(a: nat) returns (r: nat)
    requires a < 3 * BASE + 30
    ensures r == a % BASE + if a < 3 * BASE then 0 else BASE
    ensures a >= 3 * BASE ==> a % BASE < 30
  {
    r := SubtractOnce(a);
    r := SubtractOnce(r);
  }

  method SubtractThrice(a: nat) returns (r: nat)
    requires a < 5 * BASE
    ensures r == a % BASE + if a < 4 * BASE then 0 else BASE
  {
    r := if a >= 2 * BASE then a - 2 * BASE else a;
    r := SubtractOnce(r);
  }

  /** The checksum of a concatenation is that combination of the checksums of its parts. */
  lemma {:induction false} ConcatChecksum(a: seq<byte>, b: seq<byte>)
    ensures Checksum(1, a + b) == Pair(Both1(Sum1(1, a), Sum1(1, b)), Both2(Sum1(1, a), Sum2(1, 0, a), Sum2(1, 0, b),
          |b|))
  {
    Start(1, 1, 0, a + b);
    ConcatSums(1, 0, Sum1(1, a), Sum2(1, 0, a), a, b);
  }

  lemma {:induction false} ConcatSums(a: nat, b: nat, s: nat, t: nat, u: seq<byte>, v: seq<byte>)
    requires a == 1 && b == 0 && s == Sum1(a, u) && t == Sum2(a, b, u)
    ensures Sum1(a, u + v) == Both1(s, Sum1(a, v)) && Sum2(a, b, u + v) == Both2(s, t, Sum2(a, b, v), |v|)
  {
    SumsConcat(a, b, u, v);
    Shifted(s, t, v, s + BASE - 1);
  }

  /** The sums a checksum starts with. */
  lemma {:induction false} Start(adler: nat, a: nat, b: nat, data: seq<byte>)
    requires LowHalf(adler) == a && HighHalf(adler) == b
    ensures Checksum(adler, data) == Pair(Sum1(a, data), Sum2(a, b, data))
  {
  }

  lemma {:induction false} Halves(a: seq<byte>)
    ensures Checksum(1, a) == Pair(Sum1(1, a), Sum2(1, 0, a))
    ensures LowHalf(Checksum(1, a)) == Sum1(1, a) && HighHalf(Checksum(1, a)) == Sum2(1, 0, a) && Checksum(1, a) < WORD
  {
    Start(1, 1, 0, a);
    PairHalves(Sum1(1, a), Sum2(1, 0, a));
  }

  /** adler32_combine of the checksums of a and b is the checksum of a + b. */
  method CombineLaw(a: seq<byte>, b: seq<byte>) returns (r: nat)
    requires |b| < 0x8000_0000_0000_0000
    ensures r == Checksum(1, a + b)
  {
    Halves(a);
    Halves(b);
    HalvesReduced(Sum1(1, a), Sum2(1, 0, a), Sum1(1, b), Sum2(1, 0, b), |b|);
    r := Adler32Combine(Checksum(1, a), Checksum(1, b), |b|);
    ConcatRight(a, b, r);
  }

  lemma {:induction false} ConcatRight(a: seq<byte>, b: seq<byte>, r: nat)
    requires RightFor(r, Sum1(1, a), Sum2(1, 0, a), Sum1(1, b), Sum2(1, 0, b), |b|)
    ensures r == Checksum(1, a + b)
  {
    ConcatChecksum(a, b);
  }
}
