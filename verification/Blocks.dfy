/** Whole blocks: tallying symbols, building the three trees of a block and sending it. */
module Blocks {
  import opened Bits
  import opened Canonical
  import opened CodeGen
  import opened BitWriter
  import opened Symbols
  import opened Lz77
  import opened Tokens
  import opened Sums
  import opened Huffman
  import opened TreeBuilder
  import opened BitLengths
  import opened DynamicTree
  import opened Options
  import opened RunLengths
  import opened BlockSizes
  import opened CodeLengths
  import opened StaticTrees

  const HEAP_SIZE := 2 * L_CODES + 1
  const MAX_BL_BITS := 7


  /** A tree that codes every symbol of the frequencies freqs. */
  ghost predicate CodesFor(freqs: seq<nat>, fc: seq<nat>, dl: seq<nat>, maxCode: nat, L: nat) {
    && maxCode < |freqs| <= |dl| == |fc| && dl[maxCode] != 0 && ValidLens(dl[..maxCode + 1])
    && Complete(dl[..maxCode + 1])
    && (forall y :: 0 <= y <= maxCode ==> dl[y] <= L) && (forall y :: maxCode < y < |freqs| ==> dl[y] == 0)
    && (forall y :: 0 <= y < |freqs| && freqs[y] != 0 ==> y <= maxCode && dl[y] != 0)
    && (forall n {:trigger CodeSet(dl[..maxCode + 1], fc[n], n)} ::
          0 <= n <= maxCode && dl[n] != 0 ==> CodeSet(dl[..maxCode + 1], fc[n], n))
  }

  /** The first frequencies of an array are freqs. */
  ghost predicate Holding(fc: seq<nat>, freqs: seq<nat>) {
    |freqs| <= |fc| && forall i :: 0 <= i < |freqs| ==> fc[i] == freqs[i]
  }

  /** What build_tree gives, in terms of the frequencies alone. */
  lemma {:induction false} BuiltFor(fc0: seq<nat>, freqs: seq<nat>, L: nat, extra: seq<nat>, base: nat, stree: seq<nat>,
                                    F: set<nat>, A: set<nat>, maxCode: nat,
                 fc: seq<nat>, dl: seq<nat>, bl: seq<nat>, opt: int, st: int, opt0: int, st0: int)
    requires Holding(fc0, freqs)
    requires TreeBuilt(fc0, |freqs|, L, Extras(extra, base, |fc|), stree, F, A, maxCode, fc, dl, bl, opt, st, opt0, st0)
    ensures CodesFor(freqs, fc, dl, maxCode, L)
    ensures opt == opt0 + SumOf(Weighted(freqs, dl[..maxCode + 1], Extras(extra, base, |freqs|)))
    ensures st == st0 + if stree == [] then 0 else SumOf(Weighted(freqs, stree, Extras(extra, base, |freqs|)))
  {
    BuiltCodes(fc0, freqs, L, Extras(extra, base, |fc|), stree, F, A, maxCode, fc, dl, bl, opt, st, opt0, st0);
    forall i | 0 <= i < |freqs| ensures At(dl, i) == At(dl[..maxCode + 1], i) { }
    UsedTotal(fc0, freqs, dl, dl[..maxCode + 1], extra, base);
    if stree != [] { UsedTotal(fc0, freqs, stree, stree, extra, base); }
  }

  lemma {:induction false} BuiltCodes(fc0: seq<nat>, freqs: seq<nat>, L: nat, x: seq<nat>, stree: seq<nat>, F: set<nat>,
                                      A: set<nat>, maxCode: nat,
                   fc: seq<nat>, dl: seq<nat>, bl: seq<nat>, opt: int, st: int, opt0: int, st0: int)
    requires Holding(fc0, freqs) && TreeBuilt(fc0, |freqs|, L, x, stree, F, A, maxCode, fc, dl, bl, opt, st, opt0, st0)
    ensures CodesFor(freqs, fc, dl, maxCode, L)
  {
    forall y | 0 <= y < |freqs| && freqs[y] != 0
      ensures y <= maxCode && dl[y] != 0
    {
      assert y in Used(fc0, |freqs|);
      assert y in A;
    }
  }

  /** The weighted sum over the symbols in use, by the frequencies alone. */
  lemma {:induction false} UsedTotal(fc0: seq<nat>, freqs: seq<nat>, l: seq<nat>, l': seq<nat>, extra: seq<nat>,
                                     base: nat)
    requires Holding(fc0, freqs) && forall i :: 0 <= i < |freqs| ==> At(l, i) == At(l', i)
    ensures Sum(Used(fc0, |freqs|), Weighted(fc0, l, Extras(extra, base, |fc0|)))
            == SumOf(Weighted(freqs, l', Extras(extra, base, |freqs|)))
  {
    UsedSum(fc0, |freqs|, l, Extras(extra, base, |fc0|));
    SameTotal(fc0, freqs, l, l', Extras(extra, base, |fc0|), Extras(extra, base, |freqs|));
  }

  lemma {:induction false} SameTotal(fc0: seq<nat>, freqs: seq<nat>, l: seq<nat>, l': seq<nat>, x: seq<nat>,
                                     x': seq<nat>)
    requires Holding(fc0, freqs) && forall i :: 0 <= i < |freqs| ==> At(l, i) == At(l', i) && At(x, i) == At(x', i)
    ensures SumAll(Weighted(fc0, l, x), |freqs|) == SumOf(Weighted(freqs, l', x'))
  {
    var f, g := Weighted(fc0, l, x), Weighted(freqs, l', x');
    forall i | 0 <= i < |freqs|
      ensures f[i] == g[i]
    {
      assert At(l, i) == At(l', i) && At(x, i) == At(x', i);
    }
    SumAllSame(f, g, |freqs|);
  }

  /** build_tree for the frequencies freqs. */
  method BuildFor(heap: array<nat>, fc: array<nat>, dl: array<nat>, depth: array<nat>, blCount: array<nat>, elems: nat,
                  maxLength: nat,
                  stree: seq<nat>, extra: seq<nat>, base: nat, opt0: int, st0: int, ghost freqs: seq<nat>)
    returns (maxCode: nat, optLen: int, staticLen: int)
    requires Distinct(heap, fc, dl, depth, blCount) && blCount.Length == MAX_BITS + 1 && elems == |freqs|
    requires Holding(fc[..], freqs)
    requires TreeRoom(heap.Length, fc[..], dl.Length, depth[..], elems, maxLength, stree, extra, base)
    modifies heap, fc, dl, depth, blCount
    ensures CodesFor(freqs, fc[..], dl[..], maxCode, maxLength) && AllBytes(depth[..])
    ensures optLen == opt0 + SumOf(Weighted(freqs, dl[..maxCode + 1], Extras(extra, base, elems)))
    ensures staticLen == st0 + if stree == [] then 0 else SumOf(Weighted(freqs, stree, Extras(extra, base, elems)))
  {
    ghost var fc0 := fc[..];
    ghost var F, A, w, ms, root, d;
    maxCode, optLen, staticLen, F, A, w, ms, root,
        d := BuildTree(heap, fc, dl, depth, blCount, elems, maxLength, stree, extra, base, opt0, st0);
    BuiltFor(fc0, freqs, maxLength, extra, base, stree, F, A, maxCode, fc[..], dl[..], blCount[..], optLen, staticLen,
             opt0, st0);
    assert dl[..][..maxCode + 1] == dl[..maxCode + 1];
  }

  // ----- how large frequencies get -----

  lemma {:induction false} UsedWeight(fc: seq<nat>, elems: nat, n: nat)
    requires n <= elems <= |fc|
    ensures SumTo(Used(fc, elems), fc, n) == SumAll(fc, n)
  {
    if n != 0 { UsedWeight(fc, elems, n - 1); }
  }

  lemma {:induction false} TotalUsed(fc: seq<nat>, freqs: seq<nat>)
    requires Holding(fc, freqs)
    ensures Sum(Used(fc, |freqs|), fc) == SumOf(freqs)
  {
    UsedWeight(fc, |freqs|, |freqs|);
    NothingBeyond(Used(fc, |freqs|), fc, |freqs|, |fc|);
    SumAllSame(fc, freqs, |freqs|);
  }

  /** Every item uses one literal/length symbol and at most one distance symbol. */
  lemma {:induction false} FreqTotals(its: seq<Item>)
    requires forall i :: 0 <= i < |its| ==> InRange(its[i])
    ensures SumOf(LitFreqs(its)) == |its| + 1 && SumOf(DistFreqs(its)) <= |its|
  {
    if its == [] {
      var f: seq<nat> := seq(L_CODES, _ => 0);
      SumAllZero(f, |f|);
      SumAllUpdate(f, |f|, END_BLOCK, 1);
      assert f[END_BLOCK := 1] == LitFreqs([]);
      SumAllZero(DistFreqs([]), |DistFreqs([])|);
    } else {
      var pre, it := its[..|its| - 1], its[|its| - 1];
      FreqTotals(pre);
      BumpTotal(LitFreqs(pre), LeadSymbol(it));
      if it.Pair? { BumpTotal(DistFreqs(pre), it.d); }
    }
  }

  lemma {:induction false} BumpTotal(f: seq<nat>, s: nat)
    requires s < |f|
    ensures SumOf(f[s := f[s] + 1]) == SumOf(f) + 1
  {
    SumAllUpdate(f, |f|, s, f[s] + 1);
  }

  lemma {:induction false} UseTotal(ops: seq<Op>)
    requires AllValid(ops)
    ensures SumOf(UseCounts(ops)) == |ops|
  {
    if ops == [] {
      SumAllZero(UseCounts(ops), |UseCounts(ops)|);
    } else {
      assert ValidOp(ops[0]);
      assert forall i :: 0 <= i < |ops[1..]| ==> ops[1..][i] == ops[i + 1];
      UseTotal(ops[1..]);
      UseFirst(ops);
      BumpTotal(UseCounts(ops[1..]), Code(ops[0]));
    }
  }

  // ----- lengths followed by zeros -----

  lemma {:induction false} CntPadded(lens: seq<nat>, lens': seq<nat>, n: nat, b: nat)
    requires |lens| <= |lens'| && n <= |lens'| && b >= 1 && lens <= lens'
    requires forall i :: |lens| <= i < |lens'| ==> lens'[i] == 0
    ensures Cnt(lens', n, b) == Cnt(lens, if n <= |lens| then n else |lens|, b)
  {
    if n != 0 { CntPadded(lens, lens', n - 1, b); }
  }

  lemma {:induction false} FirstPadded(lens: seq<nat>, lens': seq<nat>, b: nat)
    requires lens <= lens' && forall i :: |lens| <= i < |lens'| ==> lens'[i] == 0
    ensures First(lens', b) == First(lens, b) && (b >= 1 ==> Total(lens', b) == Total(lens, b))
  {
    if b >= 1 { CntPadded(lens, lens', |lens'|, b); }
    if b > 1 { FirstPadded(lens, lens', b - 1); }
  }

  /** Trailing zeros change neither codes nor completeness. */
  lemma {:induction false} Padded(lens: seq<nat>, lens': seq<nat>)
    requires lens <= lens' && forall i :: |lens| <= i < |lens'| ==> lens'[i] == 0
    ensures Complete(lens) ==> Complete(lens')
    ensures forall s {:trigger CodeString(lens', s)} ::
              0 <= s < |lens| && lens[s] != 0 ==> CodeString(lens', s) == CodeString(lens, s)
  {
    if Complete(lens) {
      forall b: nat | b == MAX_BITS ensures ExhaustedAt(lens',
                                                        b) { FirstPadded(lens, lens', b); assert ExhaustedAt(lens, b); }
    }
    forall s | 0 <= s < |lens| && lens[s] != 0
      ensures CodeString(lens', s) == CodeString(lens, s)
    {
      FirstPadded(lens, lens', lens[s]);
      CntPadded(lens, lens', s, lens[s]);
    }
  }

  // ----- the bit length tree -----

  const BL_ORDER: seq<nat> := [16, 17, 18, 0, 8, 7, 9, 6, 10, 5, 11, 4, 12, 3, 13, 2, 14, 1, 15]

  /** The order of section 3.2.7 of RFC 1951: the three repeat codes, zero, then the lengths from the middle outward. */
  lemma {:induction false} BlOrder(k: nat)
    ensures |BL_ORDER| == BL_CODES && BL_ORDER[..4] == [REP_3_6, REPZ_3_10, REPZ_11_138, 0]
    ensures k < 8 ==> BL_ORDER[4 + 2 * k] == 8 + k
    ensures k < 7 ==> BL_ORDER[5 + 2 * k] == 7 - k
  {
  }

  lemma {:induction false} UsesAt(ops: seq<Op>, i: nat)
    requires i < |ops|
    ensures Uses(ops, Code(ops[i])) >= 1
  {
    if i > 0 { UsesAt(ops[1..], i - 1); }
  }

  /** A tree for the counts of the codes has a code for each of them. */
  lemma {:induction false} AllHaveCodes(ops: seq<Op>, fc: seq<nat>, dl: seq<nat>, maxCode: nat, bl: seq<nat>)
    requires AllValid(ops) && CodesFor(UseCounts(ops), fc, dl, maxCode, MAX_BL_BITS) && bl == dl[..BL_CODES]
    ensures OpsCodable(bl, ops) && Complete(bl) && ValidLens(bl) && Coded(Tree(fc, bl))
  {
    var lens := dl[..maxCode + 1];
    Padded(lens, bl);
    forall i | 0 <= i < |ops|
      ensures OpCodable(bl, ops[i])
    {
      UsesAt(ops, i);
      assert ValidOp(ops[i]);
      assert UseCounts(ops)[Code(ops[i])] != 0;
    }
    forall n | 0 <= n < |bl| && bl[n] != 0
      ensures CodeSet(bl, fc[n], n)
    {
      assert CodeSet(lens, fc[n], n);
      assert CodeString(bl, n) == CodeString(lens, n);
    }
  }

  /** Without a code for a length other than zero only zeros can be decoded. */
  lemma {:induction false} OnlyZeros(have: seq<nat>, ops: seq<Op>, lens: seq<nat>)
    requires DecodeAll(have, ops) == Some(lens) && (forall i :: 0 <= i < |have| ==> have[i] == 0)
    requires forall i :: 0 <= i < |ops| ==> !(ops[i].One? && ops[i].len != 0)
    ensures forall i :: 0 <= i < |lens| ==> lens[i] == 0
    decreases |ops|
  {
    if ops != [] {
      OnlyZeros(Decode(have, ops[0]).value, ops[1..], lens);
    }
  }

  /** The codes for lengths that are not all zero include one of 1 to 15. */
  lemma {:induction false} SomeLength(lens: seq<nat>, ops: seq<Op>, n: nat) returns (i: nat)
    requires DecodeAll([], ops) == Some(lens) && n < |lens| && lens[n] != 0 && AllValid(ops)
    ensures i < |ops| && 1 <= Code(ops[i]) <= MAX_BITS
  {
    if forall k :: 0 <= k < |ops| ==> !(ops[k].One? && ops[k].len != 0) {
      OnlyZeros([], ops, lens);
    }
    i :| i < |ops| && ops[i].One? && ops[i].len != 0;
    assert ValidOp(ops[i]);
  }

  lemma {:induction false} OrderOf(c: nat) returns (i: nat)
    requires 1 <= c <= MAX_BITS
    ensures 3 <= i < BL_CODES && BL_ORDER[i] == c
  {
    var where_: seq<nat> := [3, 17, 15, 13, 11, 9, 7, 5, 4, 6, 8, 10, 12, 14, 16, 18];
    i := where_[c];
  }

  /** The number of bit length codes to send: up to the last one in use, at least four. */
  method LastBlIndex(bdl: array<nat>, ghost c: nat) returns (maxBl: nat)
    requires bdl.Length >= BL_CODES && 1 <= c <= MAX_BITS && bdl[c] != 0
    ensures 3 <= maxBl < BL_CODES && (forall i :: maxBl < i < BL_CODES ==> bdl[BL_ORDER[i]] == 0)
    ensures bdl[BL_ORDER[maxBl]] != 0
  {
    ghost var k := OrderOf(c);
    maxBl := BL_CODES - 1;
    while maxBl >= 3 && bdl[BL_ORDER[maxBl]] == 0
      invariant k <= maxBl < BL_CODES && (forall i :: maxBl < i < BL_CODES ==> bdl[BL_ORDER[i]] == 0)
    {
      maxBl := maxBl - 1;
    }
  }

  // ----- the trees of a block -----

  lemma {:induction false} RoomFor(heap: nat, fc: seq<nat>, dl: nat, depth: seq<nat>, freqs: seq<nat>, maxLength: nat,
                                   stree: seq<nat>, extra: seq<nat>, base: nat)
    requires 3 <= |freqs| && 2 * |freqs| <= |fc| == dl <= |depth| && 2 * |freqs| < heap && AllBytes(depth)
    requires (stree == [] || |stree| >= 3)
    requires 1 <= maxLength <= MAX_BITS && |freqs| <= Pow2(maxLength)
    requires (forall n :: 0 <= n < 3 ==> ExtraOf(extra, base, n) == 0)
    requires Holding(fc, freqs) && SumOf(freqs) + 2 < MAX_TOTAL
    ensures TreeRoom(heap, fc, dl, depth, |freqs|, maxLength, stree, extra, base)
  {
    TotalUsed(fc, freqs);
  }

  lemma {:induction false} BlRoom(fc: seq<nat>, dl: nat, depth: seq<nat>, freqs: seq<nat>)
    requires |freqs| == BL_CODES && 2 * BL_CODES <= |fc| == dl <= |depth| && AllBytes(depth)
    requires Holding(fc, freqs) && SumOf(freqs) + 2 < MAX_TOTAL
    ensures TreeRoom(HEAP_SIZE, fc, dl, depth, BL_CODES, MAX_BL_BITS, [], BlExtras(), 0)
  {
    SmallPowers();
    RoomFor(HEAP_SIZE, fc, dl, depth, freqs, MAX_BL_BITS, [], BlExtras(), 0);
  }

  /** The three trees of the deflate state and the scratch arrays of build_tree. */
  class Trees {
    const lfc: array<nat>
    const ldl: array<nat>
    const dfc: array<nat>
    const ddl: array<nat>
    const bfc: array<nat>
    const bdl: array<nat>
    const heap: array<nat>
    const depth: array<nat>
    const blCount: array<nat>

    ghost predicate Shaped() {
      && lfc.Length == ldl.Length == heap.Length == depth.Length == HEAP_SIZE
      && dfc.Length == ddl.Length == 2 * D_CODES + 1 && bfc.Length == bdl.Length == 2 * BL_CODES + 1
      && blCount.Length == MAX_BITS + 1
      && Distinct(heap, lfc, ldl, depth, blCount) && Distinct(heap, dfc, ddl, depth, blCount)
      && Distinct(heap, bfc, bdl, depth, blCount)
      && lfc != dfc && lfc != ddl && lfc != bfc && lfc != bdl && ldl != dfc && ldl != ddl && ldl != bfc && ldl != bdl
      && dfc != bfc && dfc != bdl && ddl != bfc && ddl != bdl
    }

    constructor ()
      ensures Shaped() && AllBytes(depth[..]) && fresh(lfc) && fresh(ldl) && fresh(dfc) && fresh(ddl) && fresh(bfc)
      ensures fresh(bdl)
      ensures fresh(heap) && fresh(depth) && fresh(blCount)
    {
      lfc := new nat[HEAP_SIZE](_ => 0);
      ldl := new nat[HEAP_SIZE](_ => 0);
      dfc := new nat[2 * D_CODES + 1](_ => 0);
      ddl := new nat[2 * D_CODES + 1](_ => 0);
      bfc := new nat[2 * BL_CODES + 1](_ => 0);
      bdl := new nat[2 * BL_CODES + 1](_ => 0);
      heap := new nat[HEAP_SIZE](_ => 0);
      depth := new nat[HEAP_SIZE](_ => 0);
      blCount := new nat[MAX_BITS + 1](_ => 0);
    }

    /** The literal/length and distance trees; optLen and staticLen are the bits of the block body. */
    method BuildBody(ghost lf: seq<nat>, ghost df: seq<nat>) returns (lmax: nat, dmax: nat, optLen: int, staticLen: int)
      requires Shaped() && AllBytes(depth[..]) && |lf| == L_CODES && |df| == D_CODES && Holding(lfc[..], lf)
      requires Holding(dfc[..], df)
      requires SumOf(lf) + 2 < MAX_TOTAL && SumOf(df) + 2 < MAX_TOTAL
      modifies lfc, ldl, dfc, ddl, heap, depth, blCount
      ensures AllBytes(depth[..]) && CodesFor(lf, lfc[..], ldl[..], lmax, MAX_BITS)
      ensures CodesFor(df, dfc[..], ddl[..], dmax, MAX_BITS)
      ensures optLen == BodySize(ldl[..lmax + 1], ddl[..dmax + 1], lf, df)
      ensures staticLen == BodySize(StaticLit(), StaticDist(), lf, df)
    {
      SmallPowers();
      LargePowers();
      RoomFor(HEAP_SIZE, lfc[..], HEAP_SIZE, depth[..], lf, MAX_BITS, StaticLit(), LitExtras(), 257);
      lmax, optLen, staticLen := BuildFor(heap, lfc, ldl, depth, blCount, L_CODES, MAX_BITS, StaticLit(), LitExtras(),
                                          257, 0, 0, lf);
      RoomFor(HEAP_SIZE, dfc[..], dfc.Length, depth[..], df, MAX_BITS, StaticDist(), DistExtras(), 0);
      dmax, optLen, staticLen := BuildFor(heap, dfc, ddl, depth, blCount, D_CODES, MAX_BITS, StaticDist(), DistExtras(),
                                          0, optLen, staticLen, df);
    }

    /** build_bl_tree: the tree for the run-length codes of both trees. */
    method BuildBl(lmax: nat, dmax: nat, opt0: int, ghost ll: seq<nat>, ghost dl: seq<nat>)
      returns (maxBl: nat, optLen: int)
      requires Shaped() && AllBytes(depth[..]) && lmax < L_CODES && dmax < D_CODES && ll == ldl[..lmax + 1]
      requires dl == ddl[..dmax + 1]
      requires ValidLens(ll) && ValidLens(dl) && (exists n :: 0 <= n < |ll| && ll[n] != 0)
      requires forall c :: 0 <= c < BL_CODES ==> bfc[c] == 0
      modifies ldl, ddl, bfc, bdl, heap, depth, blCount
      ensures ldl[..lmax + 1] == ll && ddl[..dmax + 1] == dl && ldl[lmax + 1] == GUARD && ddl[dmax + 1] == GUARD
      ensures BlTree(ll, dl, bfc[..], bdl[..BL_CODES], maxBl) && AllBytes(depth[..])
      ensures optLen == opt0 + |OpsBits(bdl[..BL_CODES], Ops(ll) + Ops(dl))| + 3 * (maxBl + 1) + 14
    {
      ScanBoth(lmax, dmax, ll, dl);
      maxBl, optLen := BuildBlFor(opt0, ll, dl);
    }

    /** Counts the run-length codes of both trees. */
    method ScanBoth(lmax: nat, dmax: nat, ghost ll: seq<nat>, ghost dl: seq<nat>)
      requires Shaped() && lmax < L_CODES && dmax < D_CODES && ll == ldl[..lmax + 1] && dl == ddl[..dmax + 1]
      requires ValidLens(ll) && ValidLens(dl)
      requires forall c :: 0 <= c < BL_CODES ==> bfc[c] == 0
      modifies ldl, ddl, bfc
      ensures ldl[..lmax + 1] == ll && ddl[..dmax + 1] == dl && ldl[lmax + 1] == GUARD && ddl[dmax + 1] == GUARD
      ensures Holding(bfc[..], UseCounts(Ops(ll) + Ops(dl))) && SumOf(UseCounts(Ops(ll) + Ops(dl))) + 2 < MAX_TOTAL
    {
      ScanTree(ldl, lmax, bfc);
      ScanTree(ddl, dmax, bfc);
      ScanCounts(ll, dl, bfc[..]);
    }

    /** The tree for the codes counted, and how much of it is sent. */
    method BuildBlFor(opt0: int, ghost ll: seq<nat>, ghost dl: seq<nat>) returns (maxBl: nat, optLen: int)
      requires Shaped() && AllBytes(depth[..]) && ll != [] && dl != [] && ValidLens(ll) && ValidLens(dl)
      requires (exists n :: 0 <= n < |ll| && ll[n] != 0)
      requires Holding(bfc[..], UseCounts(Ops(ll) + Ops(dl))) && SumOf(UseCounts(Ops(ll) + Ops(dl))) + 2 < MAX_TOTAL
      modifies bfc, bdl, heap, depth, blCount
      ensures BlTree(ll, dl, bfc[..], bdl[..BL_CODES], maxBl) && AllBytes(depth[..])
      ensures optLen == opt0 + |OpsBits(bdl[..BL_CODES], Ops(ll) + Ops(dl))| + 3 * (maxBl + 1) + 14
    {
      ghost var ops := Ops(ll) + Ops(dl);
      BlRoom(bfc[..], bfc.Length, depth[..], UseCounts(ops));
      var bmax, st;
      bmax, optLen, st := BuildFor(heap, bfc, bdl, depth, blCount, BL_CODES, MAX_BL_BITS, [], BlExtras(), 0, opt0, 0,
                                   UseCounts(ops));
      ghost var bl, c := BlTreeFor(ll, dl, bfc[..], bdl[..], bmax);
      maxBl := LastBlIndex(bdl, c);
      BlTotal(ops, bfc[..], bdl[..], bmax, bl);
      optLen := optLen + 3 * (maxBl + 1) + 5 + 5 + 4;
      assert bdl[..bmax + 1] == bdl[..][..bmax + 1] && bdl[..BL_CODES] == bl;
    }
  }

  /** The bit length tree of a block: codes for all run-length codes, of which the first maxBl + 1 in order are sent. */
  ghost predicate BlTree(ll: seq<nat>, dl: seq<nat>, fc: seq<nat>, bl: seq<nat>, maxBl: nat) {
    && ll != [] && dl != [] && |bl| == BL_CODES && ValidLens(bl) && Complete(bl)
       && (forall c :: 0 <= c < BL_CODES ==> bl[c] <= MAX_BL_BITS)
    && |fc| >= BL_CODES && Coded(Tree(fc, bl)) && OpsCodable(bl, Ops(ll) + Ops(dl))
    && 3 <= maxBl < BL_CODES && bl[BL_ORDER[maxBl]] != 0 && (forall i :: maxBl < i < BL_CODES ==> bl[BL_ORDER[i]] == 0)
  }

  /** What scanning both trees counts. */
  lemma {:induction false} ScanCounts(ll: seq<nat>, dl: seq<nat>, bfc: seq<nat>)
    requires ll != [] && dl != [] && ValidLens(ll) && ValidLens(dl) && |ll| <= L_CODES && |dl| <= D_CODES
    requires |bfc| >= BL_CODES
    requires forall c :: 0 <= c < BL_CODES ==> bfc[c] == Uses(Ops(ll), c) + Uses(Ops(dl), c)
    ensures Holding(bfc, UseCounts(Ops(ll) + Ops(dl))) && SumOf(UseCounts(Ops(ll) + Ops(dl))) + 2 < MAX_TOTAL
  {
    var ops := Ops(ll) + Ops(dl);
    forall c | 0 <= c < BL_CODES ensures bfc[c] == UseCounts(ops)[c] { UsesConcat(Ops(ll), Ops(dl), c); }
    TwoTrees(ll, dl);
    UseTotal(ops);
    DecodeGrows([], ops, ll + dl);
  }

  lemma {:induction false} BlTreeFor(ll: seq<nat>, dl: seq<nat>, bfc: seq<nat>, bdl: seq<nat>, bmax: nat)
    returns (bl: seq<nat>, c: nat)
    requires ll != [] && dl != [] && ValidLens(ll) && ValidLens(dl) && (exists n :: 0 <= n < |ll| && ll[n] != 0)
    requires |bdl| >= BL_CODES
    requires CodesFor(UseCounts(Ops(ll) + Ops(dl)), bfc, bdl, bmax, MAX_BL_BITS)
    ensures bl == bdl[..BL_CODES] && ValidLens(bl) && Complete(bl)
    ensures (forall c :: 0 <= c < BL_CODES ==> bl[c] <= MAX_BL_BITS)
    ensures |bfc| >= BL_CODES && Coded(Tree(bfc, bl)) && OpsCodable(bl, Ops(ll) + Ops(dl)) && 1 <= c <= MAX_BITS
    ensures bdl[c] != 0
  {
    bl := bdl[..BL_CODES];
    var ops := Ops(ll) + Ops(dl);
    TwoTrees(ll, dl);
    AllHaveCodes(ops, bfc, bdl, bmax, bl);
    var n :| 0 <= n < |ll| && ll[n] != 0;
    assert (ll + dl)[n] != 0;
    var i := SomeLength(ll + dl, ops, n);
    c := Code(ops[i]);
    UsesAt(ops, i);
    assert UseCounts(ops)[c] != 0;
  }

  lemma {:induction false} BlTotal(ops: seq<Op>, bfc: seq<nat>, bdl: seq<nat>, bmax: nat, bl: seq<nat>)
    requires CodesFor(UseCounts(ops), bfc, bdl, bmax, MAX_BL_BITS) && |bdl| >= BL_CODES && bl == bdl[..BL_CODES]
    requires OpsCodable(bl, ops)
    ensures SumOf(Weighted(UseCounts(ops), bdl[..bmax + 1], Extras(BlExtras(), 0, BL_CODES))) == |OpsBits(bl, ops)|
  {
    OpsSize(bl, ops);
    SameTotal(UseCounts(ops), UseCounts(ops), bdl[..bmax + 1], bl, Extras(BlExtras(), 0, BL_CODES), BlExtras());
  }

  // ----- sending a block -----

  const STATIC_TREES := 1
  const DYN_TREES := 2

  /** The first n lengths of the bit length code, three bits each. */
  function BlLens(bl: seq<nat>, n: nat): (w: seq<bool>)
    requires n <= BL_CODES && |bl| == BL_CODES
    ensures |w| == 3 * n
  {
    if n == 0 then [] else BlLens(bl, n - 1) + Unpack(bl[BL_ORDER[n - 1]], 3)
  }

  /** The counts in front of the trees. */
  function CountBits(lcodes: nat, dcodes: nat, blcodes: nat): (w: seq<bool>)
    ensures |w| == 14
  {
    Unpack(Excess(lcodes, 257), 5) + Unpack(Excess(dcodes, 1), 5) + Unpack(Excess(blcodes, 4), 4)
  }

  /** The header of a block with dynamic trees. */
  function HeaderBits(ll: seq<nat>, dl: seq<nat>, bl: seq<nat>, blcodes: nat): (w: seq<bool>)
    requires ll != [] && dl != [] && blcodes <= BL_CODES && |bl| == BL_CODES
  {
    CountBits(|ll|, |dl|, blcodes) + BlLens(bl, blcodes) + OpsBits(bl, Ops(ll) + Ops(dl))
  }

  method SendCounts(w: Writer, lcodes: nat, dcodes: nat, blcodes: nat)
    requires w.Valid() && 257 <= lcodes <= L_CODES && 1 <= dcodes <= D_CODES && 4 <= blcodes <= BL_CODES
    modifies w
    ensures w.Valid() && w.Sent() == old(w.Sent()) + CountBits(lcodes, dcodes, blcodes)
  {
    ghost var s := w.Sent();
    SmallPowers();
    w.SendBits(lcodes - 257, 5);
    w.SendBits(dcodes - 1, 5);
    w.SendBits(blcodes - 4, 4);
    JoinCounts(s, Unpack(lcodes - 257, 5), Unpack(dcodes - 1, 5), Unpack(blcodes - 4, 4));
  }

  lemma {:induction false} JoinCounts(s: seq<bool>, a: seq<bool>, b: seq<bool>, c: seq<bool>)
    ensures ((s + a) + b) + c == s + (a + b + c)
  {
  }

  method SendBlLens(w: Writer, bdl: array<nat>, blcodes: nat, ghost bl: seq<nat>)
    requires w.Valid() && blcodes <= BL_CODES <= bdl.Length && bl == bdl[..BL_CODES]
    requires forall c :: 0 <= c < BL_CODES ==> bl[c] <= MAX_BL_BITS
    modifies w
    ensures w.Valid() && w.Sent() == old(w.Sent()) + BlLens(bl, blcodes)
  {
    ghost var s := w.Sent();
    SmallPowers();
    var rank := 0;
    assert s + BlLens(bl, 0) == s;
    while rank < blcodes
      invariant rank <= blcodes && w.Valid() && w.Sent() == s + BlLens(bl, rank)
    {
      assert bdl[BL_ORDER[rank]] == bl[BL_ORDER[rank]];
      Assoc(s, BlLens(bl, rank), Unpack(bl[BL_ORDER[rank]], 3));
      w.SendBits(bdl[BL_ORDER[rank]], 3);
      rank := rank + 1;
    }
  }

  /** send_all_trees */
  method SendAllTrees(w: Writer, t: Trees, lcodes: nat, dcodes: nat, blcodes: nat, ghost ll: seq<nat>,
                      ghost dl: seq<nat>, ghost bl: seq<nat>)
    requires w.Valid() && t.Shaped() && 257 <= lcodes <= L_CODES && 1 <= dcodes <= D_CODES && 4 <= blcodes <= BL_CODES
    requires ll == t.ldl[..lcodes] && dl == t.ddl[..dcodes] && t.ldl[lcodes] == GUARD && t.ddl[dcodes] == GUARD
    requires ValidLens(ll) && ValidLens(dl)
    requires bl == t.bdl[..BL_CODES] && BlTree(ll, dl, t.bfc[..], bl, blcodes - 1)
    modifies w
    ensures w.Valid() && w.Sent() == old(w.Sent()) + HeaderBits(ll, dl, bl, blcodes)
  {
    ghost var s := w.Sent();
    var blTree := Tree(t.bfc[..], t.bdl[..BL_CODES]);
    SendCounts(w, lcodes, dcodes, blcodes);
    SendBlLens(w, t.bdl, blcodes, bl);
    CodableParts(bl, Ops(ll), Ops(dl));
    assert t.ldl[..(lcodes - 1) + 1] == ll && t.ddl[..(dcodes - 1) + 1] == dl;
    SendTree(w, blTree, t.ldl, lcodes - 1);
    SendTree(w, blTree, t.ddl, dcodes - 1);
    OpsBitsConcat(bl, Ops(ll), Ops(dl));
    JoinFour(s, CountBits(lcodes, dcodes, blcodes), BlLens(bl, blcodes), OpsBits(bl, Ops(ll)), OpsBits(bl, Ops(dl)));
  }

  lemma {:induction false} JoinFour(s: seq<bool>, a: seq<bool>, b: seq<bool>, c: seq<bool>, d: seq<bool>)
    ensures (((s + a) + b) + c) + d == s + (a + b + (c + d))
  {
  }
}
