/** Bit strings, least significant bit first (section 3.1.1 of RFC 1951), and
    the natural numbers that the codec's bit buffers hold. */
module Bits {

  type byte = x: nat | x < 256

  function Pow2(n: nat): (p: nat)
    ensures p >= 1
  {
    if n == 0 then 1 else 2 * Pow2(n - 1)
  }

  /** C's v << n, without truncation. */
  function Shl(v: nat, n: nat): (r: nat)
    ensures r >= v
  {
    if n == 0 then v else 2 * Shl(v, n - 1)
  }

  /** C's v >> n. */
  function Shr(v: nat, n: nat): (r: nat)
    ensures r <= v
  {
    if n == 0 then v else Shr(v / 2, n - 1)
  }

  /** C's v & ((1 << n) - 1). */
  function Low(v: nat, n: nat): (r: nat)
    ensures r < Pow2(n) && r <= v
  {
    if n == 0 then 0 else v % 2 + 2 * Low(v / 2, n - 1)
  }

  /** Bitwise or of natural numbers, as C's `|` computes it. */
  function BitOr(a: nat, b: nat): nat
    decreases a + b
  {
    if a == 0 then b else if b == 0 then a else
    (if a % 2 == 1 || b % 2 == 1 then 1 else 0) + 2 * BitOr(a / 2, b / 2)
  }

  lemma {:induction false} ShlPow2(a: nat, b: nat)
    ensures Shl(Pow2(a), b) == Pow2(a + b)
  {
    if b != 0 { ShlPow2(a, b - 1); }
  }

  lemma {:induction false} ShlOne(n: nat)
    ensures Shl(1, n) == Pow2(n)
  {
    if n != 0 { ShlOne(n - 1); }
  }

  lemma {:induction false} ShlZero(n: nat)
    ensures Shl(0, n) == 0
  {
    if n != 0 { ShlZero(n - 1); }
  }

  lemma {:induction false} ShlShl(v: nat, m: nat, n: nat)
    ensures Shl(Shl(v, m), n) == Shl(v, m + n)
  {
    if n != 0 { ShlShl(v, m, n - 1); }
  }

  lemma {:induction false} ShlSum(a: nat, b: nat, n: nat)
    ensures Shl(a + b, n) == Shl(a, n) + Shl(b, n)
  {
    if n != 0 { ShlSum(a, b, n - 1); }
  }

  lemma {:induction false} ShlMono(a: nat, b: nat, n: nat)
    requires a <= b
    ensures Shl(a, n) <= Shl(b, n)
    ensures a < b ==> Shl(a, n) + Pow2(n) <= Shl(b, n)
  {
    if n != 0 { ShlMono(a, b, n - 1); }
  }

  lemma {:induction false} ShrShr(v: nat, m: nat, n: nat)
    ensures Shr(Shr(v, m), n) == Shr(v, m + n)
  {
    if m != 0 { ShrShr(v / 2, m - 1, n); }
  }

  lemma {:induction false} ShrMono(a: nat, b: nat, n: nat)
    requires a <= b
    ensures Shr(a, n) <= Shr(b, n)
  {
    if n != 0 { ShrMono(a / 2, b / 2, n - 1); }
  }

  lemma {:induction false} ShrBound(v: nat, m: nat, n: nat)
    requires v < Pow2(m + n)
    ensures Shr(v, m) < Pow2(n)
  {
    if m != 0 { ShrBound(v / 2, m - 1, n); }
  }

  lemma {:induction false} Pow2Mono(a: nat, b: nat)
    requires a <= b
    ensures Pow2(a) <= Pow2(b)
    ensures a < b ==> 2 * Pow2(a) <= Pow2(b)
  {
    if a < b { Pow2Mono(a, b - 1); }
  }

  lemma {:induction false} ShlDouble(v: nat, n: nat)
    ensures Shl(2 * v, n) == 2 * Shl(v, n)
  {
    if n != 0 { ShlDouble(v, n - 1); }
  }

  /** A number is its low bits and the rest above them. */
  lemma {:induction false} SplitAt(v: nat, n: nat)
    ensures v == Low(v, n) + Shl(Shr(v, n), n)
  {
    if n != 0 {
      SplitAt(v / 2, n - 1);
    }
  }

  lemma {:induction false} SplitUnique(r: nat, q: nat, n: nat)
    requires r < Pow2(n)
    ensures Low(r + Shl(q, n), n) == r
    ensures Shr(r + Shl(q, n), n) == q
  {
    if n != 0 {
      var h := Shl(q, n - 1);
      SplitUnique(r / 2, q, n - 1);
      assert (r + 2 * h) / 2 == r / 2 + h;
    }
  }

  /** Or-ing in a value above the bits in use is addition. */
  lemma {:induction false} OrIsPlus(a: nat, k: nat, b: nat)
    requires a < Pow2(k)
    ensures BitOr(a, Shl(b, k)) == a + Shl(b, k)
  {
    if a != 0 && Shl(b, k) != 0 {
      OrIsPlus(a / 2, k - 1, b);
    }
  }

  /** The n low bits of v, least significant first. */
  function Unpack(v: nat, n: nat): (bs: seq<bool>)
    ensures |bs| == n
  {
    if n == 0 then [] else [v % 2 == 1] + Unpack(v / 2, n - 1)
  }

  /** The number whose bits, least significant first, are bs. */
  function Pack(bs: seq<bool>): (v: nat)
    ensures v < Pow2(|bs|)
  {
    if bs == [] then 0 else (if bs[0] then 1 else 0) + 2 * Pack(bs[1..])
  }

  lemma {:induction false} UnpackOfPack(bs: seq<bool>)
    ensures Unpack(Pack(bs), |bs|) == bs
  {
    if bs != [] {
      UnpackOfPack(bs[1..]);
      assert bs == [bs[0]] + bs[1..];
      assert Pack(bs) / 2 == Pack(bs[1..]);
    }
  }

  lemma {:induction false} PackOfUnpack(v: nat, n: nat)
    ensures Pack(Unpack(v, n)) == Low(v, n)
  {
    if n != 0 {
      PackOfUnpack(v / 2, n - 1);
      assert Unpack(v, n)[1..] == Unpack(v / 2, n - 1);
    }
  }

  lemma {:induction false} LowSmall(v: nat, n: nat)
    requires v < Pow2(n)
    ensures Low(v, n) == v && Shr(v, n) == 0
  {
    if n != 0 { LowSmall(v / 2, n - 1); }
  }

  lemma {:induction false} PackInjective(a: seq<bool>, b: seq<bool>)
    requires |a| == |b| && Pack(a) == Pack(b)
    ensures a == b
  {
    UnpackOfPack(a);
    UnpackOfPack(b);
  }

  lemma {:induction false} PackConcat(a: seq<bool>, b: seq<bool>)
    ensures Pack(a + b) == Pack(a) + Shl(Pack(b), |a|)
  {
    if a == [] {
      assert a + b == b;
    } else {
      PackConcat(a[1..], b);
      assert (a + b)[1..] == a[1..] + b;
    }
  }

  /** Masking and shifting a packed string cut it. */
  lemma {:induction false} PackCut(w: seq<bool>, k: nat)
    requires k <= |w|
    ensures Low(Pack(w), k) == Pack(w[..k])
    ensures Shr(Pack(w), k) == Pack(w[k..])
  {
    if k == 0 {
      assert w[0..] == w;
    } else {
      PackCut(w[1..], k - 1);
      assert Pack(w) / 2 == Pack(w[1..]);
      assert w[1..][..k - 1] == w[..k][1..];
      assert w[1..][k - 1..] == w[k..];
    }
  }

  lemma {:induction false} PrefixIsCut(w: seq<bool>, u: seq<bool>)
    requires |u| <= |w|
    ensures u <= w <==> w[..|u|] == u
  {
  }

  /** The low bits of an index, as a number and as a prefix of its bit string. */
  lemma {:induction false} PrefixIsLow(i: nat, n: nat, u: seq<bool>)
    requires i < Pow2(n) && |u| <= n
    ensures Low(i, |u|) == Pack(u) <==> u <= Unpack(i, n)
  {
    PackOfUnpack(i, n);
    LowSmall(i, n);
    PackCut(Unpack(i, n), |u|);
    if Low(i, |u|) == Pack(u) {
      PackInjective(Unpack(i, n)[..|u|], u);
    }
    PrefixIsCut(Unpack(i, n), u);
  }

  /** Adding a number above m held bits appends its bits. */
  lemma {:induction false} UnpackAppend(v: nat, m: nat, w: nat, n: nat)
    requires v < Pow2(m)
    ensures Unpack(v + Shl(w, m), m + n) == Unpack(v, m) + Unpack(w, n)
  {
    if m != 0 {
      var h := Shl(w, m - 1);
      UnpackAppend(v / 2, m - 1, w, n);
      assert (v + 2 * h) / 2 == v / 2 + h;
    }
  }

  lemma {:induction false} AppendBound(v: nat, m: nat, w: nat, n: nat)
    requires v < Pow2(m) && w < Pow2(n)
    ensures v + Shl(w, m) < Pow2(m + n)
  {
    ShlMono(w, Pow2(n), m);
    ShlPow2(n, m);
  }

  /** The low m bits and the bits above them. */
  lemma {:induction false} UnpackSplit(v: nat, m: nat, n: nat)
    ensures Unpack(v, m + n) == Unpack(v, m) + Unpack(Shr(v, m), n)
  {
    if m != 0 {
      UnpackSplit(v / 2, m - 1, n);
      assert Unpack(v, m + n) == [v % 2 == 1] + Unpack(v / 2, m - 1 + n);
    }
  }

  /** The bits of a byte string, in stream order. */
  function Stream(bytes: seq<byte>): (bs: seq<bool>)
    ensures |bs| == 8 * |bytes|
  {
    var n := |bytes|;
    if n == 0 then [] else Stream(bytes[..n - 1]) + ByteBits(bytes[n - 1])
  }

  function ByteBits(b: byte): (bs: seq<bool>)
    ensures |bs| == 8
  {
    Unpack(b, 8)
  }

  lemma {:induction false} StreamSnoc(a: seq<byte>, c: byte)
    ensures Stream(a + [c]) == Stream(a) + ByteBits(c)
  {
    assert (a + [c])[..|a|] == a;
  }

  lemma {:induction false} StreamConcat(a: seq<byte>, b: seq<byte>)
    ensures Stream(a + b) == Stream(a) + Stream(b)
  {
    if b == [] {
      assert a + b == a;
    } else {
      var n := |b| - 1;
      StreamConcat(a, b[..n]);
      assert (a + b)[..|a| + n] == a + b[..n];
      assert Stream(a) + (Stream(b[..n]) + ByteBits(b[n])) == (Stream(a) + Stream(b[..n])) + ByteBits(b[n]);
    }
  }

  /** Masking leaves the low bits as they are. */
  lemma {:induction false} UnpackLow(v: nat, n: nat)
    ensures Unpack(Low(v, n), n) == Unpack(v, n)
  {
    if n != 0 { UnpackLow(v / 2, n - 1); }
  }

  lemma {:induction false} Assoc(a: seq<bool>, b: seq<bool>, c: seq<bool>)
    ensures (a + b) + c == a + (b + c)
  {
  }

  function Min(a: nat, b: nat): nat {
    if a <= b then a else b
  }

  /** The low bits of a shifted number. */
  lemma {:induction false} LowShl(v: nat, d: nat, n: nat)
    ensures Low(Shl(v, d), n + d) == Shl(Low(v, n), d)
  {
    if d != 0 {
      LowShl(v, d - 1, n);
      LowDouble(Shl(v, d - 1), n + d - 1);
    }
  }

  lemma {:induction false} LowDouble(w: nat, n: nat)
    ensures Low(2 * w, n + 1) == 2 * Low(w, n)
  {
    assert (2 * w) / 2 == w && (2 * w) % 2 == 0;
  }

  // ----- powers and products -----

  lemma {:induction false} SmallPowers()
    ensures Pow2(0) == 1 && Pow2(1) == 2 && Pow2(2) == 4 && Pow2(3) == 8 && Pow2(4) == 16 && Pow2(5) == 32
    ensures Pow2(6) == 64 && Pow2(7) == 128 && Pow2(8) == 256 && Pow2(9) == 512 && Pow2(10) == 1024
    ensures Pow2(11) == 2048 && Pow2(12) == 4096 && Pow2(13) == 8192
  {
    assert Pow2(5) == 32;
    assert Pow2(8) == 8 * Pow2(5);
    assert Pow2(11) == 8 * Pow2(8);
    assert Pow2(13) == 4 * Pow2(11);
  }

  lemma {:induction false} LargePowers()
    ensures Pow2(15) == 32768 && Pow2(16) == 0x10000 && Pow2(32) == 0x1_0000_0000
  {
    SmallPowers();
    assert Pow2(16) == 8 * Pow2(13);
    ShlPow2(16, 16);
    Shl16(Pow2(16));
  }

  lemma {:induction false} Shl8(v: nat)
    ensures Shl(v, 8) == 256 * v
  {
    assert Shl(v, 1) == 2 * v;
    assert Shl(v, 2) == 4 * v;
    assert Shl(v, 3) == 8 * v;
    assert Shl(v, 4) == 16 * v;
    assert Shl(v, 5) == 32 * v;
    assert Shl(v, 6) == 64 * v;
    assert Shl(v, 7) == 128 * v;
  }

  lemma {:induction false} Shl16(v: nat)
    ensures Shl(v, 16) == 0x10000 * v
  {
    Shl8(v);
    Shl8(256 * v);
    ShlShl(v, 8, 8);
  }

  lemma {:induction false} MulMono(a: nat, m: nat, b: nat)
    requires a <= m
    ensures a * b <= m * b
  {
  }
}
