/** build_tree as a whole: from frequencies to lengths and codes. */
module DynamicTree {
  import opened Bits
  import opened Canonical
  import opened CodeGen
  import opened Sums
  import opened Huffman
  import opened TreeHeights
  import opened Heap
  import opened TreeBuilder
  import opened BitLengths

  lemma {:induction false} SumIsCnt(A: set<nat>, dl: seq<nat>, lens: seq<nat>, b: nat, n: nat)
    requires n <= |lens| <= |dl| && lens == dl[..|lens|] && b >= 1
    requires forall i :: 0 <= i < |lens| && i !in A ==> dl[i] == 0
    ensures SumTo(A, Having(dl, b), n) == Cnt(lens, n, b)
  {
    if n != 0 { SumIsCnt(A, dl, lens, b, n - 1); }
  }

  lemma {:induction false} NothingBeyond(A: set<nat>, f: seq<int>, m: nat, n: nat)
    requires m <= n <= |f| && forall i :: m <= i < n ==> i !in A
    ensures SumTo(A, f, n) == SumTo(A, f, m)
  {
    if m < n { NothingBeyond(A, f, m, n - 1); }
  }

  /** The lengths up to maxCode are those counted. */
  lemma {:induction false} CountsMatch(A: set<nat>, dl: seq<nat>, bl: seq<nat>, L: nat, maxCode: nat)
    requires Counted(A, dl, bl, L) && maxCode < |dl| && (forall y {:trigger y in A} :: y in A ==> y <= maxCode)
    requires forall i :: 0 <= i <= maxCode && i !in A ==> dl[i] == 0
    ensures ValidLens(dl[..maxCode + 1]) && CountsOf(dl[..maxCode + 1], bl)
  {
    var lens := dl[..maxCode + 1];
    forall b | 1 <= b <= MAX_BITS
      ensures CountAt(lens, bl, b)
    {
      assert CountIs(A, dl, bl, b);
      SumIsCnt(A, dl, lens, b, |lens|);
      NothingBeyond(A, Having(dl, b), |lens|, |dl|);
    }
  }

  lemma {:induction false} FirstIsKraft(lens: seq<nat>, bl: seq<nat>, b: nat)
    requires CountsOf(lens, bl) && 1 <= b <= MAX_BITS
    ensures First(lens, b) + Total(lens, b) == CountKraft(bl, b)
  {
    assert CountAt(lens, bl, b);
    if b > 1 { FirstIsKraft(lens, bl, b - 1); }
  }

  lemma {:induction false} KraftGrows(bl: seq<nat>, L: nat, b: nat)
    requires Fixed(bl, L) && L <= b <= MAX_BITS && CountKraft(bl, L) == Pow2(L)
    ensures CountKraft(bl, b) == Pow2(b)
  {
    if L < b { KraftGrows(bl, L, b - 1); }
  }

  /** A Kraft sum of one makes a complete code. */
  lemma {:induction false} KraftComplete(lens: seq<nat>, bl: seq<nat>, L: nat)
    requires CountsOf(lens, bl) && Fixed(bl, L) && L <= MAX_BITS && CountKraft(bl, L) == Pow2(L)
    ensures Complete(lens)
  {
    forall b: nat | b == MAX_BITS
      ensures ExhaustedAt(lens, b)
    {
      FirstIsKraft(lens, bl, b);
      KraftGrows(bl, L, b);
    }
  }

  // ----- forced codes -----

  /** Forced codes add only their own weight of one. */
  lemma {:induction false} ForcedSum(U: set<nat>, F: set<nat>, fc: seq<nat>, w: seq<nat>, n: nat)
    requires n <= |fc| && Forced(fc, w, F) && U !! F && (forall x {:trigger x in U} :: x in U ==> x < n)
    requires (forall x {:trigger x in F} :: x in F ==> x < n)
    ensures SumTo(U + F, w, n) == SumTo(U, fc, n) + |F|
  {
    SumToSplit(U + F, U, F, w, n);
    SumToSame(U, w, fc, n);
    SumOfOnes(F, w, n);
  }

  lemma {:induction false} SumOfOnes(F: set<nat>, f: seq<int>, n: nat)
    requires n <= |f| && (forall x {:trigger x in F} :: x in F ==> x < n && f[x] == 1)
    ensures SumTo(F, f, n) == |F|
  {
    if n == 0 {
      assert F == {};
    } else if n - 1 in F {
      SumOfOnes(F - {n - 1}, f, n - 1);
      SumToSame(F - {n - 1}, f, f, n - 1);
      SumToDrop(F, f, n - 1, n - 1);
    } else {
      SumOfOnes(F, f, n - 1);
    }
  }

  lemma {:induction false} SumToDrop(F: set<nat>, f: seq<int>, n: nat, x: nat)
    requires n <= |f| && x >= n
    ensures SumTo(F - {x}, f, n) == SumTo(F, f, n)
  {
    if n != 0 { SumToDrop(F, f, n - 1, x); }
  }

  /** Two codes whose Kraft sum is one have length one each. */
  lemma {:induction false} TwoCodes(A: set<nat>, dl: seq<nat>, L: nat, x: nat)
    requires |A| == 2 && x in A && (forall y {:trigger y in A} :: y in A ==> y < |dl| && 1 <= dl[y] <= L)
    requires Kraft(A, L, dl) == Pow2(L)
    ensures dl[x] == 1
  {
    var y := Another(A, x);
    var u := Units(L, dl);
    assert |A - {x, y}| == 0;
    assert A == {x} + {y};
    SumSingle(u, x);
    SumAdd({x}, u, y);
    AtMostHalf(L, dl[x]);
    AtMostHalf(L, dl[y]);
  }

  lemma {:induction false} AtMostHalf(L: nat, a: nat)
    requires 1 <= a <= L
    ensures 2 * Unit(L, a) <= Pow2(L) && (a > 1 ==> 2 * Unit(L, a) < Pow2(L))
  {
    Pow2Mono(L - a, L);
    if a > 1 { BelowHalf(L, a); }
  }

  lemma {:induction false} BelowHalf(L: nat, a: nat)
    requires 1 < a <= L
    ensures 2 * Pow2(L - a) < Pow2(L)
  {
    Pow2Mono(L - a, L - 1);
    Pow2Mono(L - 1, L);
  }

  // ----- build_tree -----

  /** The Huffman tree of weights w on A: greedy merges, the depths they give, and the heights they are ordered by. */
  ghost predicate HuffmanTree(A: set<nat>, elems: nat, w: seq<nat>, ms: seq<Merge>, root: nat, d: seq<nat>,
                              h: seq<nat>) {
    && Family(A, elems, ms, root) && Greedy(A, w, ms) && ms != [] && elems + |ms| <= |d| == |w|
    && root < |d| && d[root] == 0 && Depths(ms, d, 0) && Heights(A, w, h, ms) && |w| <= |h|
  }

  /** The symbols in use, those forced, and the heap of both. */
  method Prepare(heap: array<nat>, fc: array<nat>, dl: array<nat>, depth: array<nat>, elems: nat, stree: seq<nat>,
                 opt0: int, st0: int)
    returns (heapLen: nat, maxCode: nat, optLen: int, staticLen: int, ghost F: set<nat>, ghost A: set<nat>)
    requires Apart(heap, fc, dl, depth) && 3 <= elems && 2 * elems <= fc.Length == dl.Length <= depth.Length
    requires 2 * elems < heap.Length && AllBytes(depth[..])
    requires (stree == [] || |stree| >= 3) && Sum(Used(fc[..], elems), fc[..]) + 2 < MAX_TOTAL
    modifies heap, fc, dl, depth
    ensures Merging(A, elems, fc[..], dl[..], depth[..], heap[..], heapLen, [], A) && heapLen >= 2
    ensures ForcedCodes(Used(old(fc[..]), elems), F, A, |Used(old(fc[..]), elems)|, heapLen)
    ensures Forced(old(fc[..]), fc[..], F)
    ensures maxCode < elems && maxCode in A && (forall y {:trigger y in A} :: y in A ==> y <= maxCode)
    ensures Unused(old(fc[..]), dl[..], elems)
    ensures optLen == opt0 - |F| && staticLen == st0 - Sum(F, stree)
  {
    ghost var w0 := fc[..];
    ghost var U := Used(w0, elems);
    var max;
    heapLen, max := Collect(heap, fc, dl, depth, elems);
    heapLen, maxCode, optLen, staticLen, F, A := Force(heap, fc, depth, elems, heapLen, max, stree, opt0, st0, U);
    Heapify(heap, heapLen, fc, depth, A);
    StartMerging(U, F, A, elems, w0, fc[..], dl[..], depth[..], heap[..], heapLen, maxCode);
  }

  lemma {:induction false} StartMerging(U: set<nat>, F: set<nat>, A: set<nat>, elems: nat, w0: seq<nat>, w: seq<nat>,
                                        dl: seq<nat>, depth: seq<nat>, heap: seq<nat>, heapLen: nat, maxCode: nat)
    requires elems <= |w0| && U == Used(w0, elems) && ForcedCodes(U, F, A, |U|, heapLen) && Forced(w0, w, F)
    requires Sum(U, w0) + 2 < MAX_TOTAL && 3 <= elems
    requires |dl| == |w| <= |depth| && 2 * elems <= |w| && 2 * elems < |heap| && Flat(A, depth)
    requires HeapOf(Keys(w, depth), heap, heapLen, A) && |A| == heapLen <= elems && maxCode < elems
    requires (forall y {:trigger y in A} :: y in A ==> y <= maxCode)
    ensures Merging(A, elems, w, dl, depth, heap, heapLen, [], A)
  {
    ForcedSum(U, F, w0, w, |w|);
    assert Roots(A, [], 0) == A;
  }

  /** The tree of the weights in fc, kept at the end of the heap array. */
  method GrowTree(heap: array<nat>, heapLen: nat, fc: array<nat>, dl: array<nat>, depth: array<nat>, elems: nat,
                  ghost A: set<nat>)
    returns (heapMax: nat, ghost ms: seq<Merge>, ghost root: nat, ghost d: seq<nat>)
    requires Apart(heap, fc, dl, depth) && heapLen >= 2
    requires Merging(A, elems, fc[..], dl[..], depth[..], heap[..], heapLen, [], A)
    modifies heap, fc, dl, depth
    ensures HuffmanTree(A, elems, fc[..], ms, root, d, depth[..]) && Kept(heap[..], ms)
    ensures heapMax + 1 == heap.Length - 2 * |ms|
    ensures heap[heapMax] == root && Dads(dl[..], ms, |ms|)
    ensures AllBytes(depth[..])
    ensures forall x :: 0 <= x < elems ==> fc[x] == old(fc[x]) && (x !in A ==> dl[x] == old(dl[x]))
  {
    ghost var R;
    heapMax, ms, R := MergeAll(heap, heapLen, fc, dl, depth, elems, A);
    ghost var h := heap[..];
    OneRoot(A, elems, fc[..], dl[..], depth[..], h, ms, R);
    root := heap[1];
    heapMax := heapMax - 1;
    heap[heapMax] := heap[1];
    d := DepthsExist(A, elems, ms, root, fc.Length, 0);
    KeptAside(h, heap[..], ms);
  }

  lemma {:induction false} OneRoot(A: set<nat>, elems: nat, fc: seq<nat>, dl: seq<nat>, depth: seq<nat>, heap: seq<nat>,
                                   ms: seq<Merge>, R: set<nat>)
    requires Merging(A, elems, fc, dl, depth, heap, 1, ms, R)
    ensures |heap| > 2 * |ms| + 1 && Family(A, elems, ms, heap[1]) && elems + |ms| <= |fc| && heap[1] < |fc|
  {
    HeapSize(Keys(fc, depth), heap, 1, R);
    IsMember(heap, 1, R, 1);
    assert R == Roots(A, ms, |ms|);
    assert |R - {heap[1]}| == 0;
    assert R == {heap[1]};
  }

  lemma {:induction false} KeptAside(h: seq<nat>, h': seq<nat>, ms: seq<Merge>)
    requires Kept(h, ms) && |h'| == |h| && forall i :: |h| - 2 * |ms| <= i < |h| ==> h'[i] == h[i]
    ensures Kept(h', ms)
  {
    forall i | 0 <= i < |ms| ensures KeptAt(h', ms, i) { assert KeptAt(h, ms, i); }
  }

  /** Weighted sums with the forced codes taken out: each adds its length of one, or its static length. */
  lemma {:induction false} ForcedBits(U: set<nat>, F: set<nat>, A: set<nat>, fc0: seq<nat>, w: seq<nat>, l: seq<nat>,
                                      x: seq<nat>, elems: nat)
    requires A == U + F && U !! F && F <= {0, 1, 2} && |fc0| == |w| && 3 <= elems <= |w|
    requires (forall y {:trigger y in U} :: y in U ==> y < elems)
    requires forall y :: 0 <= y < elems ==> w[y] == if y in F then 1 else fc0[y]
    requires forall y {:trigger y in F} :: y in F ==> At(x, y) == 0
    ensures Sum(A, Weighted(w, l, x)) == Sum(U, Weighted(fc0, l, x)) + SumTo(F, Ls(l), 3)
  {
    var f, f0 := Weighted(w, l, x), Weighted(fc0, l, x);
    SumToSplit(A, U, F, f, |f|);
    SumToSame(U, f, f0, |f|);
    NothingBeyond(F, f, 3, |f|);
    SumToSame(F, f, Ls(l), 3);
  }

  /** The first three lengths. */
  function Ls(l: seq<nat>): (r: seq<int>)
    ensures |r| == 3 && r[0] == At(l, 0) && r[1] == At(l, 1) && r[2] == At(l, 2)
  {
    [At(l, 0), At(l, 1), At(l, 2)]
  }

  /** The totals of a tree, without the forced codes, are exact for the frequencies it was built from. */
  lemma {:induction false} TotalsExact(U: set<nat>, F: set<nat>, A: set<nat>, fc0: seq<nat>, w: seq<nat>, dl: seq<nat>,
                                       bl: seq<nat>, x: seq<nat>, stree: seq<nat>, elems: nat, L: nat, heapLen: nat,
                    opt: int, st: int, opt0: int, st0: int)
    requires ForcedCodes(U, F, A, |U|, heapLen) && |A| == heapLen && |fc0| == |w| && 3 <= elems <= |w|
    requires (forall y {:trigger y in U} :: y in U ==> y < elems)
    requires forall y :: 0 <= y < elems ==> w[y] == if y in F then 1 else fc0[y]
    requires (forall y {:trigger y in F} :: y in F ==> At(x, y) == 0) && (stree == [] || |stree| >= 3) && heapLen >= 2
    requires Lengths(A, L, w, x, stree, dl, bl, opt, st, opt0 - |F|, st0 - Sum(F, stree))
    ensures opt == opt0 + Sum(U, Weighted(fc0, dl, x)) && st == st0 + StaticBits(U, fc0, stree, x)
  {
    ForcedBits(U, F, A, fc0, w, dl, x, elems);
    forall y | y in F
      ensures At(dl, y) == 1
    {
      TwoCodes(A, dl, L, y);
    }
    SumOfOnes(F, Ls(dl), 3);
    if stree != [] {
      ForcedBits(U, F, A, fc0, w, stree, x, elems);
      NothingBeyond(F, stree, 3, |stree|);
      SumToSame(F, stree, Ls(stree), 3);
    } else {
      SumToZero(F, stree, 0);
    }
  }

  /** What build_tree leaves for the frequencies fc0: a complete code for the symbols in use and those forced, with
      exact totals. */
  ghost predicate TreeBuilt(fc0: seq<nat>, elems: nat, L: nat, x: seq<nat>, stree: seq<nat>, F: set<nat>, A: set<nat>,
                            maxCode: nat,
                            fc: seq<nat>, dl: seq<nat>, bl: seq<nat>, opt: int, st: int, opt0: int, st0: int) {
    && maxCode < elems <= |fc0| == |dl| == |fc| && ForcedCodes(Used(fc0, elems), F, A, |Used(fc0, elems)|, |A|)
    && maxCode in A && (forall y {:trigger y in A} :: y in A ==> y <= maxCode)
       && (forall y :: 0 <= y < elems ==> (dl[y] != 0 <==> y in A) && dl[y] <= L)
    && ValidLens(dl[..maxCode + 1]) && Complete(dl[..maxCode + 1])
    && (forall n {:trigger CodeSet(dl[..maxCode + 1], fc[n], n)} ::
          0 <= n <= maxCode && dl[n] != 0 ==> CodeSet(dl[..maxCode + 1], fc[n], n))
    && opt == opt0 + Sum(Used(fc0, elems), Weighted(fc0, dl, x))
    && st == st0 + StaticBits(Used(fc0, elems), fc0, stree, x)
  }

  ghost predicate Distinct(heap: array<nat>, fc: array<nat>, dl: array<nat>, depth: array<nat>, blCount: array<nat>) {
    Apart(heap, fc, dl, depth) && blCount != heap && blCount != fc && blCount != dl && blCount != depth
  }

  /** Sizes and bounds that the deflate state provides for each of its trees. */
  ghost predicate TreeRoom(heap: nat, fc: seq<nat>, dl: nat, depth: seq<nat>, elems: nat, maxLength: nat,
                           stree: seq<nat>, extra: seq<nat>, base: nat) {
    && 3 <= elems && 2 * elems <= |fc| == dl <= |depth| && 2 * elems < heap && AllBytes(depth)
    && (stree == [] || |stree| >= 3)
    && 1 <= maxLength <= MAX_BITS && elems <= Pow2(maxLength)
       && (forall n :: 0 <= n < 3 ==> ExtraOf(extra, base, n) == 0)
    && Sum(Used(fc, elems), fc) + 2 < MAX_TOTAL
  }

  /** build_tree */
  method BuildTree(heap: array<nat>, fc: array<nat>, dl: array<nat>, depth: array<nat>, blCount: array<nat>, elems: nat,
                   maxLength: nat,
                   stree: seq<nat>, extra: seq<nat>, base: nat, opt0: int, st0: int)
    returns (maxCode: nat, optLen: int, staticLen: int, ghost F: set<nat>, ghost A: set<nat>, ghost w: seq<nat>,
             ghost ms: seq<Merge>, ghost root: nat, ghost d: seq<nat>)
    requires Distinct(heap, fc, dl, depth, blCount) && blCount.Length == MAX_BITS + 1
    requires TreeRoom(heap.Length, fc[..], dl.Length, depth[..], elems, maxLength, stree, extra, base)
    modifies heap, fc, dl, depth, blCount
    ensures TreeBuilt(old(fc[..]), elems, maxLength, Extras(extra, base, fc.Length), stree, F, A, maxCode, fc[..],
                      dl[..], blCount[..], optLen, staticLen, opt0, st0)
    ensures AllBytes(depth[..])
    ensures |w| == fc.Length && (forall y :: 0 <= y < elems ==> w[y] == if y in F then 1 else old(fc[y]))
    ensures HuffmanTree(A, elems, w, ms, root, d, depth[..])
    ensures NoOverflow(A, d, maxLength) ==> forall y {:trigger y in A} :: y in A && y < |d| ==> dl[y] == d[y]
    ensures Ordered(A, w, dl[..])
  {
    ghost var w0 := fc[..];
    var heapMax, opt1, st1;
    heapMax, maxCode, opt1, st1, F, A, ms, root, d := Plant(heap, fc, dl, depth, elems, stree, opt0, st0);
    w := fc[..];
    optLen, staticLen := Measure(heap, heapMax, fc, dl, blCount, elems, maxCode, maxLength, stree, extra, base, opt1,
                                 st1, w0, F, A, ms, root, d, depth[..], opt0, st0);
    OverflowExactly(A, elems, w, ms, root, d, depth[..], maxLength);
  }

  /** The Huffman tree of the frequencies w0 and the forced codes, before its lengths are known. */
  ghost predicate Planted(w0: seq<nat>, elems: nat, F: set<nat>, A: set<nat>, maxCode: nat, w: seq<nat>, dl: seq<nat>,
                          heap: seq<nat>, heapMax: nat,
                          ms: seq<Merge>, root: nat, d: seq<nat>, h: seq<nat>) {
    && 3 <= elems <= |w0| == |w| == |dl| && ForcedCodes(Used(w0, elems), F, A, |Used(w0, elems)|, |A|) && |A| >= 2
    && |A| <= elems
    && (forall y :: 0 <= y < elems ==> w[y] == if y in F then 1 else w0[y])
    && (forall y :: 0 <= y < elems && y !in A ==> dl[y] == 0)
    && maxCode in A && HuffmanTree(A, elems, w, ms, root, d, h) && TreeOk(A, elems, ms, root, d, maxCode)
    && Kept(heap, ms) && heapMax + 1 == |heap| - 2 * |ms| && heap[heapMax] == root && Dads(dl, ms, |ms|)
  }

  method Plant(heap: array<nat>, fc: array<nat>, dl: array<nat>, depth: array<nat>, elems: nat, stree: seq<nat>,
               opt0: int, st0: int)
    returns (heapMax: nat, maxCode: nat, optLen: int, staticLen: int, ghost F: set<nat>, ghost A: set<nat>,
             ghost ms: seq<Merge>, ghost root: nat, ghost d: seq<nat>)
    requires Apart(heap, fc, dl, depth) && 3 <= elems && 2 * elems <= fc.Length == dl.Length <= depth.Length
    requires 2 * elems < heap.Length && AllBytes(depth[..])
    requires (stree == [] || |stree| >= 3) && Sum(Used(fc[..], elems), fc[..]) + 2 < MAX_TOTAL
    modifies heap, fc, dl, depth
    ensures Planted(old(fc[..]), elems, F, A, maxCode, fc[..], dl[..], heap[..], heapMax, ms, root, d, depth[..])
    ensures AllBytes(depth[..])
    ensures optLen == opt0 - |F| && staticLen == st0 - Sum(F, stree)
  {
    var heapLen;
    heapLen, maxCode, optLen, staticLen, F, A := Prepare(heap, fc, dl, depth, elems, stree, opt0, st0);
    heapMax, ms, root, d := GrowTree(heap, heapLen, fc, dl, depth, elems, A);
  }

  /** Lengths and codes of a planted tree. */
  method Measure(heap: array<nat>, heapMax: nat, fc: array<nat>, dl: array<nat>, blCount: array<nat>, elems: nat,
                 maxCode: nat, maxLength: nat,
                 stree: seq<nat>, extra: seq<nat>, base: nat, opt1: int, st1: int,
                 ghost w0: seq<nat>, ghost F: set<nat>, ghost A: set<nat>, ghost ms: seq<Merge>, ghost root: nat,
                     ghost d: seq<nat>, ghost h: seq<nat>, ghost opt0: int, ghost st0: int)
    returns (optLen: int, staticLen: int)
    requires dl != blCount && dl != fc && blCount != fc && heap != dl && heap != blCount && heap != fc
    requires blCount.Length == MAX_BITS + 1 && 1 <= maxLength <= MAX_BITS
    requires Planted(w0, elems, F, A, maxCode, fc[..], dl[..], heap[..], heapMax, ms, root, d, h)
    requires elems <= Pow2(maxLength)
    requires opt1 == opt0 - |F| && st1 == st0 - Sum(F, stree) && (stree == [] || |stree| >= 3)
    requires (forall n :: 0 <= n < 3 ==> ExtraOf(extra, base, n) == 0)
    modifies fc, dl, blCount
    ensures TreeBuilt(w0, elems, maxLength, Extras(extra, base, fc.Length), stree, F, A, maxCode, fc[..], dl[..],
                      blCount[..], optLen, staticLen, opt0, st0)
    ensures Deep(ms, d, maxLength, 0) == 0 ==> forall y {:trigger y in A} :: y in A && y < |d| ==> dl[y] == d[y]
    ensures Ordered(A, old(fc[..]), dl[..])
  {
    ghost var w := fc[..];
    optLen, staticLen := MeasureLengths(heap, heapMax, fc, dl, blCount, elems, maxCode, maxLength, stree, extra, base,
                                        opt1, st1, w0, F, A, ms, root, d, h);
    ghost var l, bl, n := dl[..], blCount[..], fc.Length;
    LengthsOfTree(w0, elems, maxLength, Extras(extra, base, n), stree, F, A, maxCode, w, l, bl, optLen, staticLen, opt0,
                  st0);
    GenCodesFor(fc, dl, blCount, maxCode, A, elems, maxLength);
    assert dl[..maxCode + 1] == l[..maxCode + 1];
  }

  /** What the lengths give for the frequencies w0. */
  lemma {:induction false} LengthsOfTree(w0: seq<nat>, elems: nat, L: nat, x: seq<nat>, stree: seq<nat>, F: set<nat>,
                                         A: set<nat>, maxCode: nat, w: seq<nat>, dl: seq<nat>, bl: seq<nat>, opt: int,
                                         st: int, opt0: int, st0: int)
    requires 3 <= elems <= |w0| == |w| == |dl| && ForcedCodes(Used(w0, elems), F, A, |Used(w0, elems)|, |A|)
    requires |A| >= 2 && maxCode < elems && (forall y :: 0 <= y < elems ==> w[y] == if y in F then 1 else w0[y])
    requires (stree == [] || |stree| >= 3) && (forall n :: 0 <= n < 3 ==> At(x, n) == 0)
    requires Lengths(A, L, w, x, stree, dl, bl, opt, st, opt0 - |F|, st0 - Sum(F, stree))
    requires forall y :: 0 <= y < elems && y !in A ==> dl[y] == 0
    ensures opt == opt0 + Sum(Used(w0, elems), Weighted(w0, dl, x))
    ensures st == st0 + StaticBits(Used(w0, elems), w0, stree, x)
    ensures forall y :: 0 <= y < elems ==> (dl[y] != 0 <==> y in A) && dl[y] <= L
    ensures Counted(A, dl, bl, L) && Fixed(bl, L) && CountKraft(bl, L) == Pow2(L)
  {
    TotalsExact(Used(w0, elems), F, A, w0, w, dl, bl, x, stree, elems, L, |A|, opt, st, opt0, st0);
  }

  /** gen_bitlen for a planted tree. */
  method MeasureLengths(heap: array<nat>, heapMax: nat, fc: array<nat>, dl: array<nat>, blCount: array<nat>, elems: nat,
                        maxCode: nat, maxLength: nat, stree: seq<nat>, extra: seq<nat>, base: nat, opt1: int, st1: int,
                        ghost w0: seq<nat>, ghost F: set<nat>, ghost A: set<nat>, ghost ms: seq<Merge>,
                        ghost root: nat, ghost d: seq<nat>, ghost h: seq<nat>)
    returns (optLen: int, staticLen: int)
    requires dl != blCount && dl != fc && blCount != fc && heap != dl && heap != blCount && heap != fc
    requires blCount.Length == MAX_BITS + 1 && 1 <= maxLength <= MAX_BITS
    requires Planted(w0, elems, F, A, maxCode, fc[..], dl[..], heap[..], heapMax, ms, root, d, h)
    requires elems <= Pow2(maxLength)
    modifies dl, blCount
    ensures Lengths(A, maxLength, fc[..], Extras(extra, base, fc.Length), stree, dl[..], blCount[..], optLen, staticLen,
                    opt1, st1)
    ensures forall y :: 0 <= y < elems && y < dl.Length && y !in A ==> dl[y] == 0
    ensures Deep(ms, d, maxLength, 0) == 0 ==> forall y {:trigger y in A} :: y in A && y < |d| ==> dl[y] == d[y]
    ensures Ordered(A, fc[..], dl[..])
  {
    optLen, staticLen := GenBitLen(heap, heapMax, dl, blCount, fc, maxCode, maxLength, stree, extra, base, opt1, st1, A,
                                   elems, ms, root, d);
  }

  /** gen_codes for the lengths just made. */
  method GenCodesFor(fc: array<nat>, dl: array<nat>, blCount: array<nat>, maxCode: nat, ghost A: set<nat>,
                     ghost elems: nat, ghost L: nat)
    requires fc != dl && fc != blCount && maxCode < elems <= dl.Length == fc.Length && L <= MAX_BITS
    requires Counted(A, dl[..], blCount[..], L) && Fixed(blCount[..], L) && CountKraft(blCount[..], L) == Pow2(L)
    requires (forall y {:trigger y in A} :: y in A ==> y <= maxCode)
    requires (forall y :: 0 <= y < elems && y !in A ==> dl[y] == 0)
    modifies fc
    ensures ValidLens(dl[..maxCode + 1]) && Complete(dl[..maxCode + 1])
    ensures forall n {:trigger CodeSet(dl[..maxCode + 1], fc[n], n)} ::
              0 <= n <= maxCode && dl[n] != 0 ==> CodeSet(dl[..maxCode + 1], fc[n], n)
  {
    var lens := dl[..maxCode + 1];
    CountsMatch(A, dl[..], blCount[..], L, maxCode);
    assert dl[..][..maxCode + 1] == lens;
    KraftComplete(lens, blCount[..], L);
    CompleteFits(lens);
    GenCodes(fc, lens, blCount[..]);
    assert dl[..maxCode + 1] == lens;
  }

  // ----- optimality -----

  /** No leaf is deeper than L. */
  ghost predicate NoOverflow(A: set<nat>, d: seq<nat>, L: nat) {
    forall y {:trigger y in A} :: y in A && y < |d| ==> d[y] <= L
  }

  /** Lengths are cut exactly when some leaf of the tree is too deep. */
  lemma {:induction false} OverflowExactly(A: set<nat>, elems: nat, w: seq<nat>, ms: seq<Merge>, root: nat, d: seq<nat>,
                                           h: seq<nat>, L: nat)
    requires HuffmanTree(A, elems, w, ms, root, d, h)
    ensures Deep(ms, d, L, 0) == 0 <==> NoOverflow(A, d, L)
  {
    if Deep(ms, d, L, 0) == 0 {
      forall y | y in A && y < |d|
        ensures d[y] <= L
      {
        assert Present(A, elems, ms, 0, y);
        Shallow(A, elems, ms, root, d, L, 0, y);
      }
    } else if NoOverflow(A, d, L) {
      DeeperUnit(A, elems, ms, root, d, L);
    }
  }

  lemma {:induction false} DeeperUnit(A: set<nat>, elems: nat, ms: seq<Merge>, root: nat, d: seq<nat>, L: nat)
    requires Family(A, elems, ms, root) && elems + |ms| <= |d| && root < |d| && d[root] == 0 && Depths(ms, d, 0)
    requires NoOverflow(A, d, L)
    ensures Deep(ms, d, L, 0) == 0
  {
    var M := L + 1;
    LeavesBelow(A, elems, ms, root, d, M, 0);
    SumToZero(A, Flags(d, M), |d|);
    ClippedKraft(A, elems, ms, root, d, L, 0);
    ClippedKraft(A, elems, ms, root, d, M, 0);
    SumToSame(A, Units(M, Clip(d, M)), Units(M, Clip(d, L)), |d|);
    assert Bounded(A, Clip(d, L), L);
    KraftDoubles(A, L, Clip(d, L), |d|);
  }

  /** When no length overflows, no prefix code for the same symbols is shorter in total. */
  lemma {:induction false} LengthsOptimal(A: set<nat>, elems: nat, w: seq<nat>, ms: seq<Merge>, root: nat, d: seq<nat>,
                                          h: seq<nat>, dl: seq<nat>, c: seq<seq<bool>>, B: nat)
    requires HuffmanTree(A, elems, w, ms, root, d, h) && |dl| == |d| == |c|
    requires (forall y {:trigger y in A} :: y in A && y < |d| ==> dl[y] == d[y])
    requires PrefixCode(A, c) && Bounded(A, Sizes(c), B)
    ensures Cost(A, w, dl) <= Cost(A, w, Sizes(c))
  {
    BestPrefixCode(A, elems, ms, root, w, d, c, B);
    SumToSame(A, Costs(w, dl), Costs(w, d), |d|);
  }

  /** When no length overflows, the longest one is as short as it can be: any lengths of a code with no greater total,
      if
      they are all within B, leave those of the tree within B. */
  lemma {:induction false} LengthsLow(A: set<nat>, elems: nat, w: seq<nat>, ms: seq<Merge>, root: nat, d: seq<nat>,
                                      h: seq<nat>, dl: seq<nat>, c: seq<seq<bool>>, B: nat)
    requires HuffmanTree(A, elems, w, ms, root, d, h) && |dl| == |d| == |c|
    requires (forall y {:trigger y in A} :: y in A && y < |d| ==> dl[y] == d[y])
    requires PrefixCode(A, c) && Bounded(A, Sizes(c), B) && Cost(A, w, Sizes(c)) <= Cost(A, w, dl)
    ensures Bounded(A, dl, B)
  {
    SumToSame(A, Costs(w, dl), Costs(w, d), |d|);
    PrefixCodeFits(A, c, B);
    DepthsLow(A, elems, w, ms, root, d, h, Sizes(c), B);
  }

  lemma {:induction false} DepthsLow(A: set<nat>, elems: nat, w: seq<nat>, ms: seq<Merge>, root: nat, d: seq<nat>,
                                     h: seq<nat>, l: seq<nat>, B: nat)
    requires HuffmanTree(A, elems, w, ms, root, d, h) && |l| == |d|
    requires KraftFits(A, l, B) && Cost(A, w, l) <= Cost(A, w, d)
    ensures Bounded(A, d, B)
  {
    DepthCost(A, elems, ms, root, w, d, 0);
    LeastHeight(A, w, h, ms, root, 0, l, B, B);
    forall y {:trigger y in A} | y in A ensures y < |d| && d[y] <= B {
      HeightReaches(A, elems, w, h, ms, root, d, 0, y);
    }
  }

  /** The greatest length of the tree is the height of its root. */
  lemma {:induction false} GreatestLength(A: set<nat>, elems: nat, w: seq<nat>, ms: seq<Merge>, root: nat, d: seq<nat>,
                                          h: seq<nat>) returns (x: nat)
    requires HuffmanTree(A, elems, w, ms, root, d, h)
    ensures Bounded(A, d, h[root]) && x in A && x < |d| && d[x] == h[root]
  {
    forall y {:trigger y in A} | y in A ensures y < |d| && d[y] <= h[root] {
      HeightReaches(A, elems, w, h, ms, root, d, 0, y);
    }
    x := HeightReached(A, elems, w, h, ms, root, d, 0);
  }

  /** Lengths overflow exactly when no lengths of least total are all within the limit. */
  lemma {:induction false} OverflowOnlyIfNeeded(A: set<nat>, elems: nat, w: seq<nat>, ms: seq<Merge>, root: nat,
                                                d: seq<nat>, h: seq<nat>, L: nat)
    requires HuffmanTree(A, elems, w, ms, root, d, h)
    ensures NoOverflow(A, d, L) <==>
              exists l: seq<nat> {:trigger KraftFits(A, l, L)} ::
                |l| == |w| && KraftFits(A, l, L) && Cost(A, w, l) <= Cost(A, w, d)
  {
    if NoOverflow(A, d, L) {
      OverflowExactly(A, elems, w, ms, root, d, h, L);
      ClippedKraft(A, elems, ms, root, d, L, 0);
      SumToSame(A, Units(L, Clip(d, L)), Units(L, d), |d|);
      forall y {:trigger y in A} | y in A ensures y < |d| { }
      assert KraftFits(A, d, L);
    }
    if l: seq<nat> :| |l| == |w| && KraftFits(A, l, L) && Cost(A, w, l) <= Cost(A, w, d) {
      DepthsLow(A, elems, w, ms, root, d, h, l, L);
    }
  }
}
