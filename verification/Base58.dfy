/** The CryptoNote base58 codec: blocks of up to eight bytes as numbers in base 58, with the
    64-bit overflow checks of the decoder. */
module Base58 {
  import opened Bits
  import opened Options

  const TWO64 := 0x1_0000_0000_0000_0000
  const TWO32 := 0x1_0000_0000

  // ----- 128-bit products -----

  /** mul128_manually: the exact product of two 64-bit numbers, from four 32-bit products. */
  method Mul128Manually(x: nat, y: nat) returns (lo: nat, hi: nat)
    requires x < TWO64 && y < TWO64
    ensures hi * TWO64 + lo == x * y && lo < TWO64 && hi < TWO64
  {
    var a, b, c, d := x / TWO32, x % TWO32, y / TWO32, y % TWO32;
    HalfBounds(a, c);
    HalfBounds(a, d);
    HalfBounds(b, c);
    HalfBounds(b, d);
    FourProducts(x, y, a, b, c, d);
    lo, hi := Combine(a * c, a * d, b * c, b * d);
  }

  lemma {:induction false} HalfBounds(a: nat, b: nat)
    requires a < TWO32 && b < TWO32
    ensures a * b <= 0xffff_fffe_0000_0001
  {
    MulMono(a, 0xffff_ffff, b);
  }

  lemma {:induction false} FourProducts(x: nat, y: nat, a: nat, b: nat, c: nat, d: nat)
    requires x == a * TWO32 + b && y == c * TWO32 + d
    ensures x * y == a * c * TWO64 + (a * d + b * c) * TWO32 + b * d
  {
    calc {
      x * y;
      (a * TWO32 + b) * y;
      a * y * TWO32 + b * y;
      { assert a * y == a * c * TWO32 + a * d; assert b * y == b * c * TWO32 + b * d; }
      a * c * TWO64 + (a * d + b * c) * TWO32 + b * d;
    }
  }

  /** The sum of the four products, with carries. */
  method Combine(ac: nat, ad: nat, bc: nat, bd: nat) returns (lo: nat, hi: nat)
    requires ac <= 0xffff_fffe_0000_0001 && ad <= 0xffff_fffe_0000_0001 && bc <= 0xffff_fffe_0000_0001
    requires bd <= 0xffff_fffe_0000_0001
    requires ac * TWO64 + (ad + bc) * TWO32 + bd < TWO64 * TWO64
    ensures hi * TWO64 + lo == ac * TWO64 + (ad + bc) * TWO32 + bd
    ensures lo < TWO64 && ac <= hi < TWO64
  {
    var adbc, carry := AddWord(ad, bc);
    var shifted, loCarry;
    shifted := adbc * TWO32 % TWO64;
    ShiftedWord(adbc);
    lo, loCarry := AddWord(bd, shifted);
    hi := ac + adbc / TWO32 + carry * TWO32 + loCarry;
    assert hi * TWO64 + lo == ac * TWO64 + (ad + bc) * TWO32 + bd;
    hi := hi % TWO64;
  }

  /** The 64-bit sum and its carry. */
  method AddWord(x: nat, y: nat) returns (sum: nat, carry: nat)
    requires x < TWO64 && y < TWO64
    ensures sum < TWO64 && carry <= 1 && x + y == carry * TWO64 + sum
  {
    sum := (x + y) % TWO64;
    carry := if sum < x then 1 else 0;
  }

  /** What a shift by 32 loses is the upper half. */
  lemma {:induction false} ShiftedWord(x: nat)
    requires x < TWO64
    ensures x * TWO32 == x / TWO32 * TWO64 + x * TWO32 % TWO64
  {
    assert x == x / TWO32 * TWO32 + x % TWO32;
    assert x * TWO32 == x / TWO32 * TWO64 + x % TWO32 * TWO32;
  }

  // ----- the alphabet -----

  const ALPHABET: string := "123456789" + "ABCDEFGH" + "JKLMN" + "PQRSTUVWXYZ" + "abcdefghijk" + "mnopqrstuvwxyz"

  /** Six runs of consecutive characters. */
  function Letter(d: nat): (c: char)
    requires d < 58
  {
    if d < 9 then '1' + d as char
    else if d < 17 then 'A' + (d - 9) as char
    else if d < 22 then 'J' + (d - 17) as char
    else if d < 33 then 'P' + (d - 22) as char
    else if d < 44 then 'a' + (d - 33) as char
    else 'm' + (d - 44) as char
  }

  lemma {:induction false} LetterInAlphabet(d: nat)
    requires d < 58
    ensures |ALPHABET| == 58 && ALPHABET[d] == Letter(d)
  {
  }

  /** The value of a letter, or -1. */
  function Digit(c: char): (d: int)
    ensures -1 <= d < 58
  {
    var n := c as int;
    if 49 <= n <= 57 then n - 49
    else if 65 <= n <= 72 then n - 65 + 9
    else if 74 <= n <= 78 then n - 74 + 17
    else if 80 <= n <= 90 then n - 80 + 22
    else if 97 <= n <= 107 then n - 97 + 33
    else if 109 <= n <= 122 then n - 109 + 44
    else -1
  }

  lemma {:induction false} DigitOfLetter(d: nat)
    requires d < 58
    ensures Digit(Letter(d)) == d && 49 <= Letter(d) as int <= 122
  {
  }

  lemma {:induction false} LetterOfDigit(c: char)
    requires Digit(c) >= 0
    ensures Letter(Digit(c)) == c
  {
  }

  function DigitAt(k: nat): int
    requires k < 74
  {
    Digit((49 + k) as char)
  }

  /** The table of reverse_alphabet. */
  ghost predicate IsReverse(data: seq<int>) {
    |data| == 74 && forall k :: 0 <= k < 74 ==> data[k] == DigitAt(k)
  }

  /** The reverse_alphabet constructor. */
  method ReverseAlphabet() returns (data: seq<int>)
    ensures IsReverse(data)
  {
    data := seq(74, _ => -1);
    for i := 0 to 58
      invariant |data| == 74
      invariant forall k :: 0 <= k < 74 ==> data[k] == if 0 <= DigitAt(k) < i then DigitAt(k) else -1
    {
      LetterInAlphabet(i);
      DigitOfLetter(i);
      var idx := ALPHABET[i] as int - 49;
      data := data[idx := i];
      forall k | 0 <= k < 74 && k != idx ensures DigitAt(k) != i {
        if DigitAt(k) == i { LetterOfDigit((49 + k) as char); }
      }
    }
  }

  /** reverse_alphabet's call operator: letters outside the table wrap to an index past it. */
  method LookUp(data: seq<int>, letter: char) returns (d: int)
    requires IsReverse(data)
    ensures d == Digit(letter)
  {
    var idx := (letter as int - 49) % TWO64;
    d := if idx < |data| then data[idx] else -1;
  }

  // ----- block sizes -----

  const ENCODED_SIZES: seq<nat> := [0, 2, 3, 5, 6, 7, 9, 10, 11]

  function EncodedSize(i: nat): nat
    requires i <= 8
  {
    if i == 0 then 0 else if i <= 2 then i + 1 else if i <= 5 then i + 2 else i + 3
  }

  lemma {:induction false} EncodedSizeInTable(i: nat)
    requires i <= 8
    ensures EncodedSize(i) == ENCODED_SIZES[i]
  {
  }

  /** The number of bytes that a block of n letters stands for, or -1. */
  function DecodedSize(n: nat): (r: int)
    requires n <= 11
    ensures -1 <= r <= 8 && (r >= 0 ==> EncodedSize(r) == n)
  {
    if n == 0 then 0 else if 2 <= n <= 3 then n - 1 else if 5 <= n <= 7 then n - 2 else if n >= 9 then n - 3 else -1
  }

  lemma {:induction false} DecodedOfEncoded(i: nat)
    requires i <= 8
    ensures EncodedSize(i) <= 11 && DecodedSize(EncodedSize(i)) == i
  {
  }

  /** The table of decoded_block_sizes. */
  ghost predicate IsSizes(data: seq<int>) {
    |data| == 12 && forall n :: 0 <= n <= 11 ==> data[n] == DecodedSize(n)
  }

  /** The decoded_block_sizes constructor. */
  method DecodedBlockSizes() returns (data: seq<int>)
    ensures IsSizes(data)
  {
    data := seq(12, _ => -1);
    for i := 0 to 9
      invariant |data| == 12
      invariant forall n :: 0 <= n <= 11 ==> data[n] == if 0 <= DecodedSize(n) < i then DecodedSize(n) else -1
    {
      EncodedSizeInTable(i);
      DecodedOfEncoded(i);
      data := data[ENCODED_SIZES[i] := i];
    }
  }

  // ----- numbers -----

  function Pow58(n: nat): (p: nat)
    ensures p >= 1
  {
    if n == 0 then 1 else 58 * Pow58(n - 1)
  }

  function Pow256(n: nat): (p: nat)
    ensures p >= 1
  {
    if n == 0 then 1 else 256 * Pow256(n - 1)
  }

  /** Every number of i bytes has EncodedSize(i) digits, and ten digits fit 64 bits. */
  lemma {:induction false} SizesFit(i: nat)
    requires i <= 8
    ensures Pow256(i) <= Pow58(EncodedSize(i)) && Pow256(i) <= TWO64
  {
    assert Pow256(4) == TWO32 && Pow256(5) == 256 * TWO32 && Pow256(8) == TWO64;
    assert Pow58(5) == 656356768;
    assert Pow58(7) == 58 * 58 * Pow58(5) && Pow58(9) == 58 * 58 * Pow58(7) && Pow58(11) == 58 * 58 * Pow58(9);
  }

  /** The number a byte string stands for, the first byte being the most significant. */
  function Value(b: seq<byte>): nat {
    if b == [] then 0 else 256 * Value(b[..|b| - 1]) + b[|b| - 1]
  }

  lemma {:induction false} ValueBound(b: seq<byte>)
    ensures Value(b) < Pow256(|b|)
  {
    if b != [] { ValueBound(b[..|b| - 1]); }
  }

  function BigEndian(v: nat, n: nat): (b: seq<byte>)
    ensures |b| == n
  {
    if n == 0 then [] else BigEndian(v / 256, n - 1) + [v % 256]
  }

  lemma {:induction false} ValueOfBigEndian(v: nat, n: nat)
    requires v < Pow256(n)
    ensures Value(BigEndian(v, n)) == v
  {
    if n != 0 {
      var q, r: byte := v / 256, v % 256;
      QuotientFits(v, q, r, Pow256(n - 1));
      ValueOfBigEndian(q, n - 1);
      ValueSnoc(BigEndian(q, n - 1), r);
    }
  }

  lemma {:induction false} QuotientFits(v: nat, q: nat, r: nat, p: nat)
    requires v < 256 * p && q == v / 256 && r == v % 256
    ensures q < p && v == 256 * q + r
  {
  }

  lemma {:induction false} ValueSnoc(b: seq<byte>, c: byte)
    ensures Value(b + [c]) == 256 * Value(b) + c
  {
    assert (b + [c])[..|b + [c]| - 1] == b;
  }

  lemma {:induction false} BigEndianOfValue(b: seq<byte>)
    ensures BigEndian(Value(b), |b|) == b
  {
    if b != [] {
      var n := |b| - 1;
      BigEndianOfValue(b[..n]);
      QuotRem256(Value(b[..n]), b[n]);
    }
  }

  lemma {:induction false} QuotRem256(q: nat, r: nat)
    requires r < 256
    ensures (256 * q + r) / 256 == q && (256 * q + r) % 256 == r
  {
  }

  /** The last bytes of a number are its bytes. */
  lemma {:induction false} BigEndianSuffix(v: nat, m: nat, n: nat)
    requires n <= m
    ensures BigEndian(v, m)[m - n..] == BigEndian(v, n)
  {
    if n != 0 {
      BigEndianSuffix(v / 256, m - 1, n - 1);
      assert BigEndian(v, m)[m - n..] == BigEndian(v / 256, m - 1)[m - n..] + [v % 256];
    }
  }

  type digit = x: nat | x < 58

  /** The number that digits stand for, the first being the most significant. */
  function Number(s: seq<digit>): nat {
    if s == [] then 0 else 58 * Number(s[..|s| - 1]) + s[|s| - 1]
  }

  function Digits(v: nat, n: nat): (s: seq<digit>)
    ensures |s| == n
  {
    if n == 0 then [] else Digits(v / 58, n - 1) + [v % 58]
  }

  lemma {:induction false} NumberOfDigits(v: nat, n: nat)
    requires v < Pow58(n)
    ensures Number(Digits(v, n)) == v
  {
    if n != 0 {
      NumberOfDigits(v / 58, n - 1);
      var s := Digits(v, n);
      assert s[..n - 1] == Digits(v / 58, n - 1);
    }
  }

  lemma {:induction false} DigitsOfNumber(s: seq<digit>)
    ensures Digits(Number(s), |s|) == s
  {
    if s != [] {
      var n := |s| - 1;
      DigitsOfNumber(s[..n]);
      QuotRem58(Number(s[..n]), s[n]);
    }
  }

  lemma {:induction false} QuotRem58(q: nat, r: nat)
    requires r < 58
    ensures (58 * q + r) / 58 == q && (58 * q + r) % 58 == r
  {
  }

  lemma {:induction false} DigitsZero(n: nat)
    ensures forall i :: 0 <= i < n ==> Digits(0, n)[i] == 0
  {
    if n != 0 { DigitsZero(n - 1); }
  }

  /** The first digit's share. */
  lemma {:induction false} NumberHead(s: seq<digit>)
    requires s != []
    ensures Number(s) == s[0] * Pow58(|s| - 1) + Number(s[1..]) && Number(s[1..]) <= Number(s)
  {
    var n := |s| - 1;
    if n > 0 {
      var t := s[..n];
      NumberHead(t);
      assert t[1..] == s[1..][..n - 1];
      HeadStep(s[0], Pow58(n - 1), Number(t[1..]), s[n]);
      MulMono(0, s[0], Pow58(n));
    } else {
      assert s[..0] == [] && s[1..] == [];
    }
  }

  lemma {:induction false} HeadStep(d: nat, p: nat, r: nat, e: nat)
    ensures 58 * (d * p + r) + e == d * (58 * p) + (58 * r + e)
  {
  }

  /** A number is no smaller than that of its last digits. */
  lemma {:induction false} SuffixSmaller(s: seq<digit>, i: nat)
    requires i <= |s|
    ensures Number(s[i..]) <= Number(s)
  {
    if i == 0 {
      assert s[0..] == s;
    } else {
      NumberHead(s);
      SuffixSmaller(s[1..], i - 1);
      assert s[1..][i - 1..] == s[i..];
    }
  }

  // ----- letters -----

  ghost predicate Spelled(s: string) {
    forall i :: 0 <= i < |s| ==> Digit(s[i]) >= 0
  }

  /** The digits of letters; characters that are none count as zero. */
  function Read(s: string): (ds: seq<digit>)
    ensures |ds| == |s|
  {
    seq(|s|, i requires 0 <= i < |s| => DigitOrZero(s[i]))
  }

  function DigitOrZero(c: char): digit {
    if Digit(c) < 0 then 0 else Digit(c)
  }

  function Spell(ds: seq<digit>): (s: string)
    ensures |s| == |ds|
  {
    seq(|ds|, i requires 0 <= i < |ds| => Letter(ds[i]))
  }

  lemma {:induction false} ReadOfSpell(ds: seq<digit>)
    ensures Spelled(Spell(ds)) && Read(Spell(ds)) == ds
  {
    forall i | 0 <= i < |ds| ensures Digit(Spell(ds)[i]) == ds[i] {
      DigitOfLetter(ds[i]);
    }
  }

  lemma {:induction false} SpellOfRead(s: string)
    requires Spelled(s)
    ensures Spell(Read(s)) == s
  {
    forall i | 0 <= i < |s| ensures Spell(Read(s))[i] == s[i] {
      LetterOfDigit(s[i]);
    }
  }

  // ----- the codec -----

  function EncBlock(b: seq<byte>): (s: string)
    requires |b| <= 8
    ensures |s| == EncodedSize(|b|)
  {
    Spell(Digits(Value(b), EncodedSize(|b|)))
  }

  /** The letters of a number, given its digits. */
  lemma {:induction false} SpelledBlock(b: seq<byte>, ds: seq<digit>, s: string)
    requires |b| <= 8 && |ds| == |s| == EncodedSize(|b|) && Value(b) == Number(ds)
    requires forall i :: 0 <= i < |s| ==> s[i] == Letter(ds[i])
    ensures EncBlock(b) == s
  {
    DigitsOfNumber(ds);
  }

  /** Some blocks and their letters. */
  lemma {:induction false} KnownBlocks(b: seq<byte>, s: string)
    requires (b == [0xff] && s == "5Q") || (b == [0x01, 0x00] && s == "15R") || (b == [0xff, 0xff] && s == "LUv")
             || (b == [0xff, 0xff, 0xff] && s == "2UzHL")
    ensures EncBlock(b) == s
  {
    assert |s| == EncodedSize(|b|);
    KnownValue(b);
    var ds: seq<digit> := Read(s);
    KnownNumber(s, ds);
    SpelledBlock(b, ds, s);
  }

  lemma {:induction false} KnownValue(b: seq<byte>)
    ensures |b| == 1 ==> Value(b) == b[0]
    ensures |b| == 2 ==> var x: nat, y: nat := b[0], b[1]; Value(b) == 256 * x + y
    ensures |b| == 3 ==> var x: nat, y: nat, z: nat := b[0], b[1], b[2]; Value(b) == 0x10000 * x + 256 * y + z
  {
    if |b| > 1 { KnownValue(b[..|b| - 1]); }
  }

  lemma {:induction false} KnownNumber(s: string, ds: seq<digit>)
    requires ds == Read(s) && (s == "5Q" || s == "15R" || s == "LUv" || s == "2UzHL")
    ensures Number(ds) == if s == "5Q" then 0xff else if s == "15R" then 0x100 else if s == "LUv" then
              0xffff else 0xffffff
    ensures forall i :: 0 <= i < |s| ==> s[i] == Letter(ds[i])
  {
    NumberUpTo(ds);
  }

  lemma {:induction false} NumberUpTo(ds: seq<digit>)
    ensures |ds| == 1 ==> Number(ds) == ds[0]
    ensures |ds| == 2 ==> var a: nat, b: nat := ds[0], ds[1]; Number(ds) == 58 * a + b
    ensures |ds| == 3 ==> var a: nat, b: nat, c: nat := ds[0], ds[1], ds[2]; Number(ds) == 58 * (58 * a + b) + c
    ensures |ds| == 4 ==>
              var a: nat, b: nat, c: nat, d: nat := ds[0], ds[1], ds[2], ds[3];
              Number(ds) == 58 * (58 * (58 * a + b) + c) + d
    ensures |ds| == 5 ==>
              var a: nat, b: nat, c: nat, d: nat, e: nat := ds[0], ds[1], ds[2], ds[3], ds[4];
              Number(ds) == 58 * (58 * (58 * (58 * a + b) + c) + d) + e
  {
    if |ds| > 1 { NumberUpTo(ds[..|ds| - 1]); }
  }

  /** A block is good if its size and letters are, and its number fits the bytes. */
  ghost predicate GoodBlock(s: string)
    requires |s| <= 11
  {
    DecodedSize(|s|) > 0 && Spelled(s) && Number(Read(s)) < Pow256(DecodedSize(|s|))
  }

  ghost function DecBlock(s: string): Option<seq<byte>>
    requires |s| <= 11
  {
    if GoodBlock(s) then Some(BigEndian(Number(Read(s)), DecodedSize(|s|))) else None
  }

  function Enc(data: seq<byte>): string {
    if data == [] then [] else
    var n := Min(|data|, 8);
    EncBlock(data[..n]) + Enc(data[n..])
  }

  ghost function Prepend(b: Option<seq<byte>>, rest: Option<seq<byte>>): Option<seq<byte>> {
    if b.None? || rest.None? then None else Some(b.value + rest.value)
  }

  ghost function Dec(enc: string): Option<seq<byte>> {
    if enc == [] then Some([]) else
    var n := Min(|enc|, 11);
    Prepend(DecBlock(enc[..n]), Dec(enc[n..]))
  }

  lemma {:induction false} DecOfEncBlock(b: seq<byte>)
    requires 0 < |b| <= 8
    ensures DecBlock(EncBlock(b)) == Some(b)
  {
    SizesFit(|b|);
    ValueBound(b);
    NumberOfDigits(Value(b), EncodedSize(|b|));
    ReadOfSpell(Digits(Value(b), EncodedSize(|b|)));
    DecodedOfEncoded(|b|);
    BigEndianOfValue(b);
  }

  lemma {:induction false} EncOfDecBlock(s: string)
    requires 0 < |s| <= 11 && DecBlock(s).Some?
    ensures var b := DecBlock(s).value; 0 < |b| <= 8 && EncBlock(b) == s && (|b| < 8 ==> |s| < 11)
  {
    var n := DecodedSize(|s|);
    ValueOfBigEndian(Number(Read(s)), n);
    DigitsOfNumber(Read(s));
    SpellOfRead(s);
  }

  /** Encoding takes block by block. */
  lemma {:induction false} EncOn(b: seq<byte>, d: seq<byte>)
    requires 0 < |b| <= 8 && (|b| < 8 ==> d == [])
    ensures Enc(b + d) == EncBlock(b) + Enc(d)
  {
    assert Min(|b + d|, 8) == |b|;
    assert (b + d)[..|b|] == b && (b + d)[|b|..] == d;
  }

  lemma {:induction false} DecOn(block: string, rest: string)
    requires 0 < |block| <= 11 && (|block| < 11 ==> rest == [])
    ensures Dec(block + rest) == Prepend(DecBlock(block), Dec(rest))
  {
    assert Min(|block + rest|, 11) == |block|;
    assert (block + rest)[..|block|] == block && (block + rest)[|block|..] == rest;
  }

  /** decode(encode(d)) is d. */
  lemma {:induction false} DecOfEnc(data: seq<byte>)
    ensures Dec(Enc(data)) == Some(data)
    decreases |data|
  {
    if data != [] {
      var n := Min(|data|, 8);
      var b, d := data[..n], data[n..];
      assert data == b + d;
      DecOfEncBlock(b);
      DecOfEnc(d);
      EncOn(b, d);
      DecOn(EncBlock(b), Enc(d));
    }
  }

  /** An accepted string is the encoding of what it decodes to. */
  lemma {:induction false} EncOfDec(enc: string)
    requires Dec(enc).Some?
    ensures Enc(Dec(enc).value) == enc
    decreases |enc|
  {
    if enc != [] {
      var n := Min(|enc|, 11);
      var block, rest := enc[..n], enc[n..];
      assert enc == block + rest;
      DecOn(block, rest);
      EncOfDec(rest);
      EncOfDecBlock(block);
      EncOn(DecBlock(block).value, Dec(rest).value);
    }
  }

  /** Exactly the encodings are accepted. */
  lemma {:induction false} RejectedExactly(enc: string)
    ensures Dec(enc).None? <==> forall data :: Enc(data) != enc
  {
    if Dec(enc).Some? {
      EncOfDec(enc);
    } else {
      forall data ensures Enc(data) != enc {
        DecOfEnc(data);
      }
    }
  }

  /** The block that starts at letter 11 * k. */
  function BlockAt(enc: string, k: nat): (b: string)
    requires 11 * k < |enc|
    ensures 0 < |b| <= 11
  {
    enc[11 * k..Min(|enc|, 11 * k + 11)]
  }

  /** A string is accepted exactly if each of its blocks is good. */
  lemma {:induction false} AcceptedExactly(enc: string)
    ensures Dec(enc).Some? <==> forall k :: 0 <= 11 * k < |enc| ==> GoodBlock(BlockAt(enc, k))
    decreases |enc|
  {
    if enc != [] {
      var n := Min(|enc|, 11);
      var block, rest := enc[..n], enc[n..];
      assert enc == block + rest;
      DecOn(block, rest);
      AcceptedExactly(rest);
      assert BlockAt(enc, 0) == block;
      forall k | 0 <= 11 * k < |rest| ensures BlockAt(rest, k) == BlockAt(enc, k + 1) {
        NextBlockAt(enc, rest, k);
      }
      if forall k :: 0 <= 11 * k < |rest| ==> GoodBlock(BlockAt(rest, k)) {
        forall k | 0 <= 11 * k < |enc| && k != 0 ensures BlockAt(enc, k) == BlockAt(rest, k - 1) {
          NextBlockAt(enc, rest, k - 1);
        }
      }
    }
  }

  lemma {:induction false} NextBlockAt(enc: string, rest: string, k: nat)
    requires |enc| >= 11 && rest == enc[11..] && 11 * k < |rest|
    ensures BlockAt(rest, k) == BlockAt(enc, k + 1)
  {
    var i := 11 * k;
    assert 11 * (k + 1) == i + 11;
    assert rest[i..Min(|rest|, i + 11)] == enc[i + 11..Min(|enc|, i + 22)];
  }

  // ----- the program -----

  /** uint_8be_to_64 */
  method FromBigEndian(data: seq<byte>) returns (res: nat)
    requires 1 <= |data| <= 8
    ensures res == Value(data) && res < TWO64
  {
    res := 0;
    for i := 0 to |data|
      invariant res == Value(data[..i])
    {
      OrByte(data[i], res);
      res := BitOr(data[i], Shl(res, 8));
      assert data[..i + 1][..i] == data[..i];
    }
    assert data[..|data|] == data;
    SizesFit(|data|);
    ValueBound(data);
  }

  lemma {:induction false} OrByte(b: byte, v: nat)
    ensures BitOr(b, Shl(v, 8)) == 256 * v + b
  {
    SmallPowers();
    OrIsPlus(b, 8, v);
    Shl8(v);
  }

  /** encode_block: writes the block's letters over a field of '1', and nothing else. */
  method EncodeBlock(block: seq<byte>, res: array<char>, off: nat)
    requires 1 <= |block| <= 8 && off + EncodedSize(|block|) <= res.Length
    requires forall k :: off <= k < off + EncodedSize(|block|) ==> res[k] == '1'
    modifies res
    ensures res[..] == old(res[..off]) + EncBlock(block) + old(res[off + EncodedSize(|block|)..])
  {
    EncodedSizeInTable(|block|);
    var n := ENCODED_SIZES[|block|];
    var num := FromBigEndian(block);
    SizesFit(|block|);
    ValueBound(block);
    WriteDigits(num, n, res, off);
  }

  /** The loop of encode_block: it never runs past the field. */
  method WriteDigits(num0: nat, n: nat, res: array<char>, off: nat)
    requires off + n <= res.Length && num0 < Pow58(n) && forall k :: off <= k < off + n ==> res[k] == '1'
    modifies res
    ensures res[..] == old(res[..off]) + Spell(Digits(num0, n)) + old(res[off + n..])
  {
    ghost var all, was := Digits(num0, n), res[..];
    var num: nat, i := num0, n - 1;
    assert all[..n] == all;
    while 0 < num
      invariant -1 <= i < n && num < Pow58(i + 1)
      invariant all[..i + 1] == Digits(num, i + 1)
      invariant forall k :: off + i < k < off + n ==> res[k] == Letter(all[k - off])
      invariant forall k :: 0 <= k < res.Length && !(off + i < k < off + n) ==> res[k] == was[k]
      decreases num
    {
      var remainder := num % 58;
      AnyDigit(num, i + 1);
      LastDigit(all, num, i);
      num := num / 58;
      LetterInAlphabet(remainder);
      res[off + i] := ALPHABET[remainder];
      i := i - 1;
    }
    LeadingOnes(all, was, res[..], off, n, i);
  }

  /** The letters that were not written are those of leading zeros. */
  lemma {:induction false} LeadingOnes(all: seq<digit>, was: string, res: string, off: nat, n: nat, i: int)
    requires |all| == n && -1 <= i < n && off + n <= |was| == |res| && all[..i + 1] == Digits(0, i + 1)
    requires forall k :: off <= k < off + n ==> was[k] == '1'
    requires forall k :: off + i < k < off + n ==> res[k] == Letter(all[k - off])
    requires forall k :: 0 <= k < |res| && !(off + i < k < off + n) ==> res[k] == was[k]
    ensures res == was[..off] + Spell(all) + was[off + n..]
  {
    DigitsZero(i + 1);
    var out := was[..off] + Spell(all) + was[off + n..];
    forall k | 0 <= k < |res| ensures res[k] == out[k] {
      if off <= k <= off + i {
        assert Digits(0, i + 1)[k - off] == 0;
        assert all[k - off] == all[..i + 1][k - off];
      }
    }
  }

  lemma {:induction false} AnyDigit(num: nat, n: nat)
    requires 0 < num < Pow58(n)
    ensures n > 0 && num / 58 < Pow58(n - 1)
  {
  }

  lemma {:induction false} LastDigit(all: seq<digit>, num: nat, i: nat)
    requires i < |all| && all[..i + 1] == Digits(num, i + 1)
    ensures all[i] == num % 58 && all[..i] == Digits(num / 58, i)
  {
    assert all[i] == all[..i + 1][i];
    assert all[..i] == all[..i + 1][..i];
  }

  /** encode */
  method Encode(data: seq<byte>) returns (enc: string)
    ensures enc == Enc(data)
  {
    if data == [] {
      return [];
    }
    var full, last := |data| / 8, |data| % 8;
    EncodedSizeInTable(last);
    var res := new char[full * 11 + ENCODED_SIZES[last]](_ => '1');
    EncodedStart(data, res[..]);
    EncodeFull(data, full, res);
    if 0 < last {
      EncodeOne(data, 8 * full, last, res, 11 * full);
    }
    enc := res[..];
    EncodedAll(data, enc);
  }

  /** The loop over the full blocks. */
  method EncodeFull(data: seq<byte>, full: nat, res: array<char>)
    requires 8 * full <= |data| && 11 * full <= res.Length && Encoded(data, res[..], 0, 0)
    modifies res
    ensures Encoded(data, res[..], 8 * full, 11 * full)
  {
    for i := 0 to full
      invariant Encoded(data, res[..], 8 * i, 11 * i)
    {
      EncodeOne(data, 8 * i, 8, res, 11 * i);
    }
  }

  /** The block of the given size at byte n, encoded at letter m. */
  method EncodeOne(data: seq<byte>, n: nat, size: nat, res: array<char>, m: nat)
    requires Encoded(data, res[..], n, m) && 0 < size <= 8 && n + size <= |data| && (size < 8 ==> n + size == |data|)
    requires m + EncodedSize(size) <= res.Length
    modifies res
    ensures Encoded(data, res[..], n + size, m + EncodedSize(size))
  {
    ghost var was := res[..];
    assert forall k :: m <= k < res.Length ==> res[k] == was[k];
    EncodeBlock(data[n..n + size], res, m);
    EncodedOn(data, was, res[..], n, m, size);
  }

  lemma {:induction false} EncodedStart(data: seq<byte>, res: string)
    requires forall k :: 0 <= k < |res| ==> res[k] == '1'
    ensures Encoded(data, res, 0, 0)
  {
    assert data[0..] == data;
  }

  lemma {:induction false} EncodedAll(data: seq<byte>, res: string)
    requires Encoded(data, res, |data|, |res|)
    ensures res == Enc(data)
  {
    assert res[..|res|] == res && data[|data|..] == [];
  }

  /** The first n bytes are encoded in the first m letters; the rest is still '1'. */
  ghost predicate Encoded(data: seq<byte>, res: string, n: nat, m: nat) {
    && n <= |data| && m <= |res| && Enc(data) == res[..m] + Enc(data[n..])
    && forall k :: m <= k < |res| ==> res[k] == '1'
  }

  lemma {:induction false} EncodedOn(data: seq<byte>, was: string, res: string, n: nat, m: nat, size: nat)
    requires Encoded(data, was, n, m) && 0 < size <= 8 && n + size <= |data| && (size < 8 ==> n + size == |data|)
    requires m + EncodedSize(size) <= |was|
    requires res == was[..m] + EncBlock(data[n..n + size]) + was[m + EncodedSize(size)..]
    ensures Encoded(data, res, n + size, m + EncodedSize(size))
  {
    var b, d := data[n..n + size], data[n + size..];
    assert data[n..] == b + d;
    EncOn(b, d);
    assert res[..m + EncodedSize(size)] == was[..m] + EncBlock(b);
  }

  /** The number of the letters, or None if a letter is unknown or the number does not fit 64 bits. */
  method ReadNumber(block: string, reverse: seq<int>) returns (r: Option<nat>)
    requires 1 <= |block| <= 11 && IsReverse(reverse)
    ensures r == if Spelled(block) && Number(Read(block)) < TWO64 then Some(Number(Read(block))) else None
  {
    var num, order: nat := 0, 1;
    var i: nat := |block|;
    while i > 0
      invariant Reading(block, i, num, order)
    {
      i := i - 1;
      var digit := LookUp(reverse, block[i]);
      if digit < 0 {
        return None;
      }
      var sum := AddProduct(num, order, digit);
      ReadingOn(block, i, num, order, digit, digit * order + num);
      if sum.None? {
        return None;
      }
      num := sum.value;
      order := order * 58 % TWO64;
    }
    assert Read(block)[0..] == Read(block);
    return Some(num);
  }

  /** The letters from i on have been read; order is the weight of the next one. */
  ghost predicate Reading(block: string, i: nat, num: nat, order: nat) {
    && i <= |block| <= 11 && SpelledFrom(block, i) && num == Number(Read(block)[i..]) && num < TWO64
    && (i > 0 ==> order == Pow58(|block| - i) && order < TWO64)
  }

  lemma {:induction false} ReadingOn(block: string, i: nat, num: nat, order: nat, d: nat, v: nat)
    requires i < |block| && Reading(block, i + 1, num, order) && d == Digit(block[i]) && v == d * order + num
    ensures v < TWO64 ==> Reading(block, i, v, order * 58 % TWO64)
    ensures v >= TWO64 ==> Number(Read(block)) >= TWO64
  {
    NextSum(block, i, num, order, d, v);
    if v < TWO64 {
      SpelledOn(block, i);
      NextOrder(|block| - i, order);
    } else {
      SuffixSmaller(Read(block), i);
    }
  }

  lemma {:induction false} NextSum(block: string, i: nat, num: nat, order: nat, d: nat, v: nat)
    requires i < |block| && Reading(block, i + 1, num, order) && d == Digit(block[i]) && v == d * order + num
    ensures Number(Read(block)[i..]) == v
  {
    SuffixHead(Read(block), i);
    assert Read(block)[i] == d;
  }

  /** The next order is exact as long as another letter follows. */
  lemma {:induction false} NextOrder(n: nat, order: nat)
    requires 1 <= n <= 11 && order == Pow58(n - 1)
    ensures n <= 10 ==> order * 58 % TWO64 == Pow58(n) && Pow58(n) < TWO64
  {
    TenDigitsFit(n);
  }

  ghost predicate SpelledFrom(s: string, i: nat) {
    forall k :: i <= k < |s| ==> Digit(s[k]) >= 0
  }

  lemma {:induction false} SpelledOn(s: string, i: nat)
    requires i < |s| && Digit(s[i]) >= 0 && SpelledFrom(s, i + 1)
    ensures SpelledFrom(s, i)
  {
  }

  lemma {:induction false} SuffixHead(ds: seq<digit>, i: nat)
    requires i < |ds|
    ensures Number(ds[i..]) == ds[i] * Pow58(|ds| - i - 1) + Number(ds[i + 1..])
  {
    NumberHead(ds[i..]);
    assert ds[i..][1..] == ds[i + 1..];
  }

  /** The sum num + order * digit, unless it does not fit 64 bits. */
  method AddProduct(num: nat, order: nat, digit: nat) returns (r: Option<nat>)
    requires num < TWO64 && order < TWO64 && digit < TWO64
    ensures r == if digit * order + num < TWO64 then Some(digit * order + num) else None
  {
    var lo, hi := Mul128Manually(order, digit);
    assert order * digit == digit * order;
    var tmp := (num + lo) % TWO64;
    if tmp < num || hi != 0 {
      return None;
    }
    return Some(tmp);
  }

  lemma {:induction false} TenDigitsFit(n: nat)
    requires n <= 11
    ensures n <= 10 ==> Pow58(n) < TWO64
    ensures n == 11 ==> Pow58(n) > TWO64
  {
    assert Pow58(5) == 656356768;
    assert Pow58(7) == 58 * 58 * Pow58(5) && Pow58(9) == 58 * 58 * Pow58(7) && Pow58(10) == 58 * Pow58(9)
        && Pow58(11) == 58 * Pow58(10);
  }

  /** decode_block: the block's bytes, exactly if it is good. */
  method DecodeBlock(block: string, reverse: seq<int>, sizes: seq<int>) returns (r: Option<seq<byte>>)
    requires 1 <= |block| <= 11 && IsReverse(reverse) && IsSizes(sizes)
    ensures r == DecBlock(block)
  {
    var size := sizes[|block|];
    if size <= 0 {
      return None;
    }
    SizesFit(size);
    var num := ReadNumber(block, reverse);
    if num.None? {
      return None;
    }
    OneShifted(size);
    if size < 8 && Shl(1, 8 * size) <= num.value {
      return None;
    }
    BigEndianSuffix(num.value, 8, size);
    return Some(BigEndian(num.value, 8)[8 - size..]);
  }

  lemma {:induction false} OneShifted(n: nat)
    ensures Shl(1, 8 * n) == Pow256(n)
  {
    ShlOne(8 * n);
    Pow256IsPow2(n);
  }

  lemma {:induction false} Pow256IsPow2(n: nat)
    ensures Pow2(8 * n) == Pow256(n)
  {
    if n != 0 {
      Pow256IsPow2(n - 1);
      var m := 8 * (n - 1);
      FourTimes(m);
      FourTimes(m + 2);
      FourTimes(m + 4);
      FourTimes(m + 6);
    }
  }

  lemma {:induction false} FourTimes(m: nat)
    ensures Pow2(m + 2) == 4 * Pow2(m)
  {
    assert Pow2(m + 1) == 2 * Pow2(m);
  }

  /** decode */
  method Decode(enc: string) returns (r: Option<seq<byte>>)
    ensures r == Dec(enc)
  {
    if enc == [] {
      return Some([]);
    }
    var reverse := ReverseAlphabet();
    var sizes := DecodedBlockSizes();
    var full, last := |enc| / 11, |enc| % 11;
    if sizes[last] < 0 {
      BadLength(enc, full, last);
      return None;
    }
    r := DecodeFull(enc, full, reverse, sizes);
    if r.Some? && 0 < last {
      r := DecodeOne(enc, r.value, 11 * full, last, reverse, sizes);
    }
    if r.Some? {
      DecodedAll(enc, r.value);
    }
  }

  /** The loop over the full blocks. */
  method DecodeFull(enc: string, full: nat, reverse: seq<int>, sizes: seq<int>) returns (r: Option<seq<byte>>)
    requires 11 * full <= |enc| && IsReverse(reverse) && IsSizes(sizes)
    ensures DecodedOr(enc, r, 11 * full)
  {
    DecodedStart(enc);
    r := Some([]);
    for i := 0 to full
      invariant r.Some? && Decoded(enc, r.value, 11 * i)
    {
      r := DecodeOne(enc, r.value, 11 * i, 11, reverse, sizes);
      if r.None? {
        return;
      }
    }
  }

  /** The data and the block of the given size at letter n. */
  method DecodeOne(enc: string, data: seq<byte>, n: nat, size: nat, reverse: seq<int>, sizes: seq<int>)
    returns (r: Option<seq<byte>>)
    requires Decoded(enc, data, n) && 0 < size <= 11 && n + size <= |enc| && (size < 11 ==> n + size == |enc|)
    requires IsReverse(reverse) && IsSizes(sizes)
    ensures DecodedOr(enc, r, n + size)
  {
    r := DecodeBlock(enc[n..n + size], reverse, sizes);
    DecodedOn(enc, data, n, size, r);
    if r.Some? {
      r := Some(data + r.value);
    }
  }

  /** The first n letters stand for the data, or the string is rejected. */
  ghost predicate DecodedOr(enc: string, r: Option<seq<byte>>, n: nat) {
    if r.None? then Dec(enc).None? else Decoded(enc, r.value, n)
  }

  /** The first n letters stand for the data. */
  ghost predicate Decoded(enc: string, data: seq<byte>, n: nat) {
    n <= |enc| && Dec(enc) == Prepend(Some(data), Dec(enc[n..]))
  }

  lemma {:induction false} DecodedStart(enc: string)
    ensures Decoded(enc, [], 0)
  {
    assert enc[0..] == enc;
    assert Dec(enc).Some? ==> [] + Dec(enc).value == Dec(enc).value;
  }

  lemma {:induction false} DecodedOn(enc: string, data: seq<byte>, n: nat, size: nat, b: Option<seq<byte>>)
    requires Decoded(enc, data, n) && 0 < size <= 11 && n + size <= |enc| && (size < 11 ==> n + size == |enc|)
    requires b == DecBlock(enc[n..n + size])
    ensures if b.None? then Dec(enc).None? else Decoded(enc, data + b.value, n + size)
  {
    var block, rest := enc[n..n + size], enc[n + size..];
    assert enc[n..] == block + rest;
    DecOn(block, rest);
    PrependTwice(data, b, Dec(rest));
  }

  lemma {:induction false} PrependTwice(data: seq<byte>, b: Option<seq<byte>>, rest: Option<seq<byte>>)
    ensures Prepend(Some(data), Prepend(b, rest)) == if b.None? then None else Prepend(Some(data + b.value), rest)
  {
    if b.Some? && rest.Some? {
      assert data + (b.value + rest.value) == data + b.value + rest.value;
    }
  }

  lemma {:induction false} DecodedAll(enc: string, data: seq<byte>)
    requires Decoded(enc, data, |enc|)
    ensures Dec(enc) == Some(data)
  {
    assert enc[|enc|..] == [];
    assert data + [] == data;
  }

  lemma {:induction false} BadLength(enc: string, full: nat, last: nat)
    requires |enc| == 11 * full + last && last < 11 && DecodedSize(last) < 0
    ensures Dec(enc).None?
    decreases full
  {
    var n := if full > 0 then 11 else last;
    var block, rest := enc[..n], enc[n..];
    assert enc == block + rest;
    DecOn(block, rest);
    if full > 0 {
      BadLength(rest, full - 1, last);
    }
  }
}
