/** Code strings for given lengths: gen_codes and bi_reverse. */
module CodeGen {
  import opened Bits
  import opened Canonical
  import opened BackwardCodes

  lemma {:induction false} ValCons(x: bool, w: seq<bool>)
    ensures Val([x] + w) == Val(w) + (if x then Pow2(|w|) else 0)
  {
    var y := [x] + w;
    if w == [] {
      assert y[..0] == [];
    } else {
      assert y[..|w|] == [x] + w[..|w| - 1];
      ValCons(x, w[..|w| - 1]);
    }
  }

  /** The backward number of a code reads its bits from the low end. */
  lemma {:induction false} BackwardVal(c: nat, n: nat)
    ensures Pack(Big(c, n)) == Val(Unpack(c, n))
  {
    if n != 0 {
      BackwardVal(c / 2, n - 1);
      PackLast(Big(c / 2, n - 1), c % 2 == 1);
      ValCons(c % 2 == 1, Unpack(c / 2, n - 1));
    }
  }

  lemma {:induction false} UnpackSnoc(c: nat, k: nat)
    ensures Unpack(c, k + 1) == Unpack(c, k) + [Shr(c, k) % 2 == 1]
  {
    if k != 0 { UnpackSnoc(c / 2, k - 1); }
  }

  lemma {:induction false} ValSnoc(w: seq<bool>, x: bool)
    ensures Val(w + [x]) == 2 * Val(w) + (if x then 1 else 0)
  {
    assert (w + [x])[..|w|] == w;
  }

  /** Reverses the low len bits of a code. */
  method BiReverse(code: nat, len: nat) returns (res: nat)
    requires len >= 1
    ensures res == Pack(Big(code, len))
  {
    var c, l, r: nat := code, len, 0;
    ghost var k: nat := 0;
    while l > 0
      invariant k + l == len && c == Shr(code, k)
      invariant r == 2 * Val(Unpack(code, k))
    {
      ShrShr(code, k, 1);
      assert Shr(c, 1) == c / 2;
      UnpackSnoc(code, k);
      ValSnoc(Unpack(code, k), c % 2 == 1);
      r := OrBit(r, c);
      c, r := c / 2, 2 * r;
      l, k := l - 1, k + 1;
    }
    BackwardVal(code, len);
    res := r / 2;
  }

  /** r | (c & 1), for an even r. */
  method OrBit(r: nat, c: nat) returns (x: nat)
    requires r % 2 == 0
    ensures x == r + c % 2
  {
    assert BitOr(r / 2, 0) == r / 2;
    x := BitOr(r, c % 2);
  }

  ghost predicate CountsOf(lens: seq<nat>, blCount: seq<nat>) {
    && |blCount| == MAX_BITS + 1 && blCount[0] == 0
    && forall b {:trigger CountAt(lens, blCount, b)} :: 1 <= b <= MAX_BITS ==> CountAt(lens, blCount, b)
  }

  ghost predicate CountAt(lens: seq<nat>, blCount: seq<nat>, b: nat) {
    b < |blCount| && blCount[b] == Total(lens, b)
  }

  /** The smallest code value of each length, in 16-bit arithmetic. */
  method FirstCodes(lens: seq<nat>, blCount: seq<nat>) returns (nextCode: seq<nat>)
    requires Fits(lens) && CountsOf(lens, blCount)
    ensures NextCodes(lens, nextCode, 0)
  {
    nextCode := [0];
    var code: nat, bits: nat := 0, 1;
    while bits <= MAX_BITS
      invariant 1 <= bits <= MAX_BITS + 1 && |nextCode| == bits
      invariant bits <= MAX_BITS ==> 2 * (code + blCount[bits - 1]) == First(lens, bits)
      invariant forall b: nat {:trigger NextAt(lens, nextCode, 0, b)} :: 1 <= b < bits ==> NextAt(lens, nextCode, 0, b)
    {
      FirstBound(lens, blCount, bits);
      code := (2 * (code + blCount[bits - 1])) % 0x10000;
      ghost var before := nextCode;
      nextCode := nextCode + [code];
      forall b: nat | 1 <= b <= bits ensures NextAt(lens, nextCode, 0, b) {
        assert b == bits || NextAt(lens, before, 0, b);
      }
      bits := bits + 1;
    }
  }

  lemma {:induction false} FirstBound(lens: seq<nat>, blCount: seq<nat>, b: nat)
    requires Fits(lens) && CountsOf(lens, blCount) && 1 <= b <= MAX_BITS
    ensures First(lens, b) + Total(lens, b) < 0x10000
    ensures First(lens, b + 1) == 2 * (First(lens, b) + blCount[b])
  {
    assert FitsAt(lens, b);
    assert CountAt(lens, blCount, b);
    Pow2Mono(b, MAX_BITS);
    LargePowers();
  }

  ghost predicate CodeSet(lens: seq<nat>, code: nat, n: nat) {
    n < |lens| && code == Pack(CodeString(lens, n))
  }

  /** Ready to code symbol n: each length's next code follows the symbols before n. */
  ghost predicate NextCodes(lens: seq<nat>, nextCode: seq<nat>, n: nat) {
    && |nextCode| == MAX_BITS + 1 && n <= |lens|
    && forall b: nat {:trigger NextAt(lens, nextCode, n, b)} :: 1 <= b <= MAX_BITS ==> NextAt(lens, nextCode, n, b)
  }

  ghost predicate NextAt(lens: seq<nat>, nextCode: seq<nat>, n: nat, b: nat) {
    n <= |lens| && b < |nextCode| && nextCode[b] == First(lens, b) + Cnt(lens, n, b)
  }

  /** The code of symbol n, if it has one. */
  method NextCode(lens: seq<nat>, blCount: seq<nat>, nextCode: seq<nat>, n: nat)
    returns (code: nat, nextCode': seq<nat>)
    requires ValidLens(lens) && Fits(lens) && CountsOf(lens, blCount)
    requires n < |lens| && NextCodes(lens, nextCode, n)
    ensures lens[n] != 0 ==> CodeSet(lens, code, n)
    ensures NextCodes(lens, nextCode', n + 1)
  {
    var len := lens[n];
    code, nextCode' := 0, nextCode;
    if len != 0 {
      FirstBound(lens, blCount, len);
      CntMono(lens, n, |lens|, len);
      assert NextAt(lens, nextCode, n, len);
      code := BiReverse(nextCode[len], len);
      nextCode' := nextCode[len := (nextCode[len] + 1) % 0x10000];
    }
    ghost var m: nat := n + 1;
    forall b: nat | 1 <= b <= MAX_BITS ensures NextAt(lens, nextCode', m, b) {
      assert NextAt(lens, nextCode, n, b);
    }
  }

  /** Gives each symbol that has a length its bit-reversed canonical code. */
  method GenCodes(fc: array<nat>, lens: seq<nat>, blCount: seq<nat>)
    requires fc.Length >= |lens| && ValidLens(lens) && Fits(lens) && CountsOf(lens, blCount)
    modifies fc
    ensures forall n {:trigger CodeSet(lens, fc[n], n)} :: 0 <= n < |lens| && lens[n] != 0 ==> CodeSet(lens, fc[n], n)
    ensures forall n :: 0 <= n < fc.Length && (n >= |lens| || lens[n] == 0) ==> fc[n] == old(fc[n])
  {
    var nextCode := FirstCodes(lens, blCount);
    for n := 0 to |lens|
      invariant NextCodes(lens, nextCode, n)
      invariant forall k {:trigger CodeSet(lens, fc[k], k)} :: 0 <= k < n && lens[k] != 0 ==> CodeSet(lens, fc[k], k)
      invariant forall k :: 0 <= k < fc.Length && (k >= n || lens[k] == 0) ==> fc[k] == old(fc[k])
    {
      var code;
      code, nextCode := NextCode(lens, blCount, nextCode, n);
      if lens[n] != 0 {
        fc[n] := code;
      }
    }
  }
}
