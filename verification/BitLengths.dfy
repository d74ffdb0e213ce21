/** gen_bitlen: the lengths of a Huffman tree, cut to a greatest length when they exceed it. */
module BitLengths {
  import opened Bits
  import opened Canonical
  import opened Sums
  import opened Huffman
  import opened TreeHeights
  import opened TreeBuilder

  // ----- counts of lengths -----

  /** The Kraft sum, in units of 2^-b, of bl[1] lengths 1 up to bl[b] lengths b. */
  function CountKraft(bl: seq<nat>, b: nat): nat {
    if b == 0 then 0 else 2 * CountKraft(bl, b - 1) + if b < |bl| then bl[b] else 0
  }

  lemma {:induction false} CountKraftSet(bl: seq<nat>, L: nat, b: nat, v: nat)
    requires 1 <= b < |bl|
    ensures b <= L ==> CountKraft(bl[b := v], L) + Shl(bl[b], L - b) == CountKraft(bl, L) + Shl(v, L - b)
    ensures L < b ==> CountKraft(bl[b := v], L) == CountKraft(bl, L)
  {
    if L != 0 {
      CountKraftSet(bl, L - 1, b, v);
    }
  }

  lemma {:induction false} CountOneMore(bl: seq<nat>, L: nat, b: nat)
    requires 1 <= b <= L && b < |bl|
    ensures CountKraft(bl[b := bl[b] + 1], L) == CountKraft(bl, L) + Pow2(L - b)
  {
    CountKraftSet(bl, L, b, bl[b] + 1);
    ShlSum(bl[b], 1, L - b);
    ShlOne(L - b);
  }

  lemma {:induction false} CountOneLess(bl: seq<nat>, L: nat, b: nat)
    requires 1 <= b <= L && b < |bl| && bl[b] >= 1
    ensures CountKraft(bl[b := bl[b] - 1], L) + Pow2(L - b) == CountKraft(bl, L)
  {
    var bl' := bl[b := bl[b] - 1];
    CountOneMore(bl', L, b);
    assert bl'[b := bl'[b] + 1] == bl;
  }

  /** How many of the first L lengths there are in all. */
  function CountAll(bl: seq<nat>, L: nat): nat {
    if L == 0 then 0 else CountAll(bl, L - 1) + if L < |bl| then bl[L] else 0
  }

  lemma {:induction false} CountAllSet(bl: seq<nat>, L: nat, b: nat, v: nat)
    requires 1 <= b < |bl|
    ensures CountAll(bl[b := v], L) == CountAll(bl, L) + if b <= L then v - bl[b] else 0
  {
    if L != 0 { CountAllSet(bl, L - 1, b, v); }
  }

  /** When all lengths are L their Kraft sum is their number. */
  lemma {:induction false} NoneShorter(bl: seq<nat>, L: nat)
    requires forall b :: 1 <= b <= L && b < |bl| ==> bl[b] == 0
    ensures CountKraft(bl, L) == 0 && CountAll(bl, L) == 0
  {
    if L != 0 { NoneShorter(bl, L - 1); }
  }

  // ----- the repair of overflowed lengths -----

  /** A leaf at length bits and one at L become two at bits + 1. */
  function Moved(bl: seq<nat>, L: nat, bits: nat): (r: seq<nat>)
    requires 1 <= bits < L < |bl| && bl[bits] >= 1 && bl[L] >= 1
    ensures |r| == |bl| && r[L] >= bl[L] - 1 && r[0] == bl[0] && forall b :: L < b < |bl| ==> r[b] == bl[b]
  {
    var b1 := bl[bits := bl[bits] - 1];
    var b2 := b1[bits + 1 := b1[bits + 1] + 2];
    b2[L := b2[L] - 1]
  }

  lemma {:induction false} MovedAll(bl: seq<nat>, L: nat, bits: nat)
    requires 1 <= bits < L < |bl| && bl[bits] >= 1 && bl[L] >= 1
    ensures CountAll(Moved(bl, L, bits), L) == CountAll(bl, L)
  {
    var b1 := bl[bits := bl[bits] - 1];
    var b2 := b1[bits + 1 := b1[bits + 1] + 2];
    assert b1[bits + 1] == bl[bits + 1] && b2[L] >= 1;
    CountAllSet(bl, L, bits, bl[bits] - 1);
    CountAllSet(b1, L, bits + 1, b1[bits + 1] + 2);
    CountAllSet(b2, L, L, b2[L] - 1);
    assert Moved(bl, L, bits) == b2[L := b2[L] - 1];
  }

  /** This lowers the Kraft sum by one unit. */
  lemma {:induction false} MovedKraft(bl: seq<nat>, L: nat, bits: nat)
    requires 1 <= bits < L < |bl| && bl[bits] >= 1 && bl[L] >= 1
    ensures CountKraft(Moved(bl, L, bits), L) == CountKraft(bl, L) - 1
  {
    var b1 := bl[bits := bl[bits] - 1];
    var b2 := b1[bits + 1 := b1[bits + 1] + 2];
    assert b1[bits + 1] == bl[bits + 1] && b2[L] >= 1;
    CountOneLess(bl, L, bits);
    CountTwoMore(b1, L, bits + 1);
    CountOneLess(b2, L, L);
    HalfUnit(L, bits);
    assert Moved(bl, L, bits) == b2[L := b2[L] - 1];
  }

  lemma {:induction false} HalfUnit(L: nat, bits: nat)
    requires bits < L
    ensures Pow2(L - bits) == 2 * Pow2(L - (bits + 1)) && Pow2(L - L) == 1
  {
  }

  lemma {:induction false} CountTwoMore(bl: seq<nat>, L: nat, b: nat)
    requires 1 <= b <= L && b < |bl|
    ensures CountKraft(bl[b := bl[b] + 2], L) == CountKraft(bl, L) + 2 * Pow2(L - b)
  {
    var bl' := bl[b := bl[b] + 1];
    CountOneMore(bl, L, b);
    CountOneMore(bl', L, b);
    assert bl'[b := bl'[b] + 1] == bl[b := bl[b] + 2];
  }

  /** The last length below L that is in use. */
  method LastInUse(blCount: array<nat>, maxLength: nat) returns (bits: nat)
    requires 1 <= maxLength < blCount.Length
    requires CountKraft(blCount[..], maxLength) > Pow2(maxLength) >= CountAll(blCount[..], maxLength)
    ensures 1 <= bits < maxLength && blCount[bits] != 0 && forall b :: bits < b < maxLength ==> blCount[b] == 0
  {
    bits := maxLength - 1;
    SomeInUse(blCount[..], maxLength);
    while blCount[bits] == 0
      invariant bits < maxLength && (forall b :: bits < b < maxLength ==> blCount[b] == 0)
      invariant exists b :: 1 <= b <= bits && blCount[b] != 0
      decreases bits
    {
      bits := bits - 1;
    }
  }

  lemma {:induction false} SomeInUse(bl: seq<nat>, L: nat)
    requires 1 <= L < |bl| && CountKraft(bl, L) > Pow2(L) >= CountAll(bl, L)
    ensures exists b :: 1 <= b <= L - 1 && bl[b] != 0
  {
    if forall b :: 1 <= b <= L - 1 && b < |bl| ==> bl[b] == 0 {
      NoneShorter(bl, L - 1);
    }
  }

  /** How many times leaves of the lengths above c, up to b, can be moved until all are at L. */
  function Spare(bl: seq<nat>, L: nat, c: nat, b: nat): nat
    requires b < L
  {
    if b <= c || b >= |bl| then 0 else Spare(bl, L, c, b - 1) + Times(bl[b], Pow2(L - b) - 1)
  }

  lemma {:induction false} SpareSet(bl: seq<nat>, L: nat, c: nat, b: nat, i: nat, v: nat)
    requires b < L && i < |bl|
    ensures Spare(bl[i := v], L, c, b) ==
              Spare(bl, L, c, b)
              + if c < i <= b && b < |bl| then Times(v, Pow2(L - i) - 1) - Times(bl[i], Pow2(L - i) - 1) else 0
  {
    if c < b < |bl| { SpareSet(bl, L, c, b - 1, i, v); }
  }

  /** Each move of a leaf with a length above c uses up one. */
  lemma {:induction false} SpareMoved(bl: seq<nat>, L: nat, c: nat, bits: nat)
    requires c < bits < L < |bl| && bl[bits] >= 1 && bl[L] >= 1
    ensures Spare(Moved(bl, L, bits), L, c, L - 1) == Spare(bl, L, c, L - 1) - 1
  {
    var b1 := bl[bits := bl[bits] - 1];
    var b2 := b1[bits + 1 := b1[bits + 1] + 2];
    SpareSet(bl, L, c, L - 1, bits, bl[bits] - 1);
    SpareSet(b1, L, c, L - 1, bits + 1, b1[bits + 1] + 2);
    SpareSet(b2, L, c, L - 1, L, b2[L] - 1);
    HalfUnit(L, bits);
    OneLess(bl[bits], Pow2(L - bits) - 1);
    TwoMore(b1[bits + 1], Pow2(L - (bits + 1)) - 1);
  }

  lemma {:induction false} OneLess(a: nat, u: nat)
    requires a >= 1
    ensures Times(a - 1, u) == Times(a, u) - u
  {
  }

  lemma {:induction false} TwoMore(a: nat, u: nat)
    ensures Times(a + 2, u) == Times(a, u) + 2 * u
  {
  }

  lemma {:induction false} NoneSpare(bl: seq<nat>, L: nat, c: nat, b: nat)
    requires b < L && forall i :: c < i <= b && i < |bl| ==> bl[i] == 0
    ensures Spare(bl, L, c, b) == 0
  {
    if c < b < |bl| { NoneSpare(bl, L, c, b - 1); }
  }

  /** After some moves, of which `spare` are left for the lengths above c: shorter lengths are as they were. */
  ghost predicate ShortKept(bl: seq<nat>, bl': seq<nat>, L: nat, moves: nat) {
    |bl'| == |bl| && forall c: nat {:trigger KeptUpTo(bl, bl', L, moves, c)} :: c < L ==> KeptUpTo(bl, bl', L, moves, c)
  }

  ghost predicate KeptUpTo(bl: seq<nat>, bl': seq<nat>, L: nat, moves: nat, c: nat)
    requires c < L && |bl'| == |bl|
  {
    Spare(bl, L, c, L - 1) >= moves ==>
      Spare(bl', L, c, L - 1) == Spare(bl, L, c, L - 1) - moves && bl'[..Min(c + 1, |bl|)] == bl[..Min(c + 1, |bl|)]
  }

  /** A move of a leaf with the greatest length below L. */
  lemma {:induction false} MovedShort(bl0: seq<nat>, bl: seq<nat>, L: nat, moves: nat, bits: nat)
    requires ShortKept(bl0, bl, L, moves) && 1 <= bits < L < |bl| && bl[bits] >= 1 && bl[L] >= 1
    requires forall b :: bits < b < L ==> bl[b] == 0
    ensures ShortKept(bl0, Moved(bl, L, bits), L, moves + 1)
  {
    var bl', k := Moved(bl, L, bits), moves + 1;
    forall c: nat {:trigger KeptUpTo(bl0, bl', L, k, c)} | c < L ensures KeptUpTo(bl0, bl', L, k, c) {
      assert KeptUpTo(bl0, bl, L, moves, c);
      if Spare(bl0, L, c, L - 1) >= moves + 1 {
        if bits <= c { NoneSpare(bl, L, c, L - 1); }
        SpareMoved(bl, L, c, bits);
        assert bl'[..c + 1] == bl[..c + 1];
      }
    }
  }

  /** The repair loop: moves leaves down until the Kraft sum is exactly one. */
  method Repair(blCount: array<nat>, maxLength: nat, overflow: nat, ghost excess: nat)
    requires 1 <= maxLength < blCount.Length && overflow == 2 * excess && excess >= 1
    requires CountKraft(blCount[..], maxLength) == Pow2(maxLength) + excess
    requires CountAll(blCount[..], maxLength) <= Pow2(maxLength)
    requires blCount[maxLength] > excess
    modifies blCount
    ensures CountKraft(blCount[..], maxLength) == Pow2(maxLength)
    ensures CountAll(blCount[..], maxLength) == old(CountAll(blCount[..], maxLength))
    ensures blCount[0] == old(blCount[0])
    ensures forall b :: maxLength < b < blCount.Length ==> blCount[b] == old(blCount[b])
    ensures ShortKept(old(blCount[..]), blCount[..], maxLength, excess)
  {
    var left: int := overflow;
    ghost var e: int := excess;
    while left > 0
      invariant left == 2 * e && e >= 0
      invariant CountKraft(blCount[..], maxLength) == Pow2(maxLength) + e && blCount[maxLength] > e
      invariant CountAll(blCount[..], maxLength) == old(CountAll(blCount[..], maxLength))
      invariant blCount[0] == old(blCount[0])
      invariant forall b :: maxLength < b < blCount.Length ==> blCount[b] == old(blCount[b])
      invariant e <= excess && ShortKept(old(blCount[..]), blCount[..], maxLength, excess - e)
      decreases left
    {
      var bits := LastInUse(blCount, maxLength);
      ghost var bl := blCount[..];
      MovedAll(bl, maxLength, bits);
      MovedKraft(bl, maxLength, bits);
      MovedShort(old(blCount[..]), bl, maxLength, excess - e, bits);
      blCount[bits] := blCount[bits] - 1;
      blCount[bits + 1] := blCount[bits + 1] + 2;
      blCount[maxLength] := blCount[maxLength] - 1;
      assert blCount[..] == Moved(bl, maxLength, bits);
      left, e := left - 2, e - 1;
    }
  }

  // ----- tallies over leaves -----

  function At(s: seq<nat>, i: nat): nat {
    if i < |s| then s[i] else 0
  }

  /** Each frequency times its length and extra bits. */
  function Weighted(fc: seq<nat>, l: seq<nat>, x: seq<nat>): (r: seq<int>)
    ensures |r| == |fc| && forall i :: 0 <= i < |fc| ==> r[i] == Times(fc[i], At(l, i) + At(x, i))
  {
    seq(|fc|, i requires 0 <= i < |fc| => Times(fc[i], At(l, i) + At(x, i)))
  }

  /** 1 for the members of length b. */
  function Having(c: seq<nat>, b: nat): (r: seq<int>)
    ensures |r| == |c| && forall i :: 0 <= i < |c| ==> r[i] == if c[i] == b then 1 else 0
  {
    seq(|c|, i requires 0 <= i < |c| => if c[i] == b then 1 else 0)
  }

  ghost predicate CountIs(P: set<nat>, c: seq<nat>, bl: seq<nat>, b: nat) {
    b < |bl| && bl[b] == Sum(P, Having(c, b))
  }

  /** bl counts the lengths c of P. */
  ghost predicate Counted(P: set<nat>, c: seq<nat>, bl: seq<nat>, L: nat) {
    && |bl| == MAX_BITS + 1 && bl[0] == 0 && L <= MAX_BITS
       && (forall y {:trigger y in P} :: y in P ==> y < |c| && 1 <= c[y] <= L)
    && (forall b {:trigger CountIs(P, c, bl, b)} :: 0 <= b <= MAX_BITS ==> CountIs(P, c, bl, b))
    && CountKraft(bl, L) == Kraft(P, L, c) && CountAll(bl, L) == |P|
  }

  /** Static trees have their own lengths; without one nothing is added. */
  ghost function StaticBits(P: set<nat>, fc: seq<nat>, stree: seq<nat>, x: seq<nat>): int {
    if stree == [] then 0 else Sum(P, Weighted(fc, stree, x))
  }

  lemma {:induction false} CountNothing(c: seq<nat>, L: nat, bl: seq<nat>)
    requires |bl| == MAX_BITS + 1 && (forall b :: 0 <= b <= MAX_BITS ==> bl[b] == 0) && L <= MAX_BITS
    ensures Counted({}, c, bl, L)
  {
    forall b | 0 <= b <= MAX_BITS ensures CountIs({}, c, bl, b) { SumToEmpty(Having(c, b), |c|); }
    SumToEmpty(Units(L, c), |c|);
    NoneShorter(bl, L);
  }

  lemma {:induction false} CountOne(P: set<nat>, c: seq<nat>, bl: seq<nat>, L: nat, n: nat)
    requires Counted(P, c, bl, L) && n !in P && n < |c| && 1 <= c[n] <= L
    ensures Counted(P + {n}, c, bl[c[n] := bl[c[n]] + 1], L)
  {
    var bl' := bl[c[n] := bl[c[n]] + 1];
    forall b | 0 <= b <= MAX_BITS
      ensures CountIs(P + {n}, c, bl', b)
    {
      assert CountIs(P, c, bl, b);
      SumAdd(P, Having(c, b), n);
    }
    SumAdd(P, Units(L, c), n);
    CountOneMore(bl, L, c[n]);
    CountAllSet(bl, L, c[n], bl[c[n]] + 1);
  }

  // ----- the first pass -----

  /** The lengths of a tree with its leaves: sizes, fathers and depths. */
  ghost predicate TreeOk(A: set<nat>, elems: nat, ms: seq<Merge>, root: nat, d: seq<nat>, maxCode: nat) {
    && Family(A, elems, ms, root) && |d| >= 2 * elems && elems + |ms| <= |d| && root < |d| && d[root] == 0
    && Depths(ms, d, 0)
    && maxCode < elems && forall x {:trigger x in A} :: x in A ==> x <= maxCode
  }

  /** Nodes present after undoing the merges from i on have their lengths; the sons of earlier merges know their
      fathers. */
  ghost predicate Measured(A: set<nat>, elems: nat, ms: seq<Merge>, d: seq<nat>, L: nat, dl: seq<nat>, i: nat) {
    && i <= |ms| && |dl| == |d|
    && (forall x {:trigger Present(A, elems, ms, i, x)} ::
          0 <= x < |d| && Present(A, elems, ms, i, x) ==> dl[x] == Min(d[x], L))
    && Dads(dl, ms, i)
  }

  /** The leaves present. */
  ghost function LeavesAt(A: set<nat>, elems: nat, ms: seq<Merge>, i: nat): set<nat>
    requires i <= |ms|
  {
    set x | x in A && Present(A, elems, ms, i, x)
  }

  lemma {:induction false} UndoMeasured(A: set<nat>, elems: nat, ms: seq<Merge>, root: nat, d: seq<nat>, L: nat,
                                        dl: seq<nat>, i: nat, maxCode: nat)
    requires TreeOk(A, elems, ms, root, d, maxCode) && 1 <= i <= |ms| && Measured(A, elems, ms, d, L, dl, i)
    ensures var g := ms[i - 1];
            && g.n < |dl| && g.m < |dl| && g.node < |dl| && g.n != g.m && g.node != g.n && g.node != g.m
            && dl[g.n] == g.node && dl[g.m] == g.node && dl[g.node] == Min(d[g.node], L)
            && d[g.n] == d[g.node] + 1 && d[g.m] == d[g.node] + 1
            && Measured(A, elems, ms, d, L, dl[g.n := Min(d[g.n], L)][g.m := Min(d[g.m], L)], i - 1)
  {
    var g, j := ms[i - 1], i - 1;
    Undo(A, elems, ms, root, j);
    assert DepthAt(ms, d, j) && DadAt(dl, ms, j);
    var dl' := dl[g.n := Min(d[g.n], L)][g.m := Min(d[g.m], L)];
    forall k | 0 <= k < |ms| && k < j
      ensures DadAt(dl', ms, k)
    {
      assert DadAt(dl, ms, k);
      SonsDiffer(A, elems, ms, root, k, j);
    }
  }

  lemma {:induction false} SonsDiffer(A: set<nat>, elems: nat, ms: seq<Merge>, root: nat, k: nat, j: nat)
    requires Family(A, elems, ms, root) && k < j < |ms|
    ensures ms[k].n != ms[j].n && ms[k].n != ms[j].m && ms[k].m != ms[j].n && ms[k].m != ms[j].m
  {
    assert FamilyAt(A, elems, ms, j);
    SonsGone(A, elems, ms, k, j);
  }

  /** extra_bits, indexed from extra_base on. */
  function ExtraOf(extra: seq<nat>, base: nat, n: nat): nat {
    if n >= base then At(extra, n - base) else 0
  }

  function Extras(extra: seq<nat>, base: nat, N: nat): (x: seq<nat>)
    ensures |x| == N && forall n :: 0 <= n < N ==> x[n] == ExtraOf(extra, base, n)
  {
    seq(N, n requires 0 <= n < N => ExtraOf(extra, base, n))
  }

  /** The counts and the bit totals of the leaves P, from opt0 and st0 on. */
  ghost predicate Summed(P: set<nat>, c: seq<nat>, fc: seq<nat>, x: seq<nat>, stree: seq<nat>, L: nat, bl: seq<nat>,
                         opt: int, st: int, opt0: int, st0: int) {
    Counted(P, c, bl, L) && opt == opt0 + Sum(P, Weighted(fc, c, x)) && st == st0 + StaticBits(P, fc, stree, x)
  }

  lemma {:induction false} SumOne(P: set<nat>, c: seq<nat>, fc: seq<nat>, x: seq<nat>, stree: seq<nat>, L: nat,
                                  bl: seq<nat>, opt: int, st: int, opt0: int, st0: int, n: nat)
    requires Summed(P, c, fc, x, stree, L, bl, opt, st, opt0, st0) && n !in P && n < |c| && n < |fc| && 1 <= c[n] <= L
    ensures Summed(P + {n}, c, fc, x, stree, L, bl[c[n] := bl[c[n]] + 1], opt + Times(fc[n], c[n] + At(x, n)),
                   st + (if stree == [] then 0 else Times(fc[n], At(stree, n) + At(x, n))), opt0, st0)
  {
    CountOne(P, c, bl, L, n);
    SumAdd(P, Weighted(fc, c, x), n);
    SumAdd(P, Weighted(fc, stree, x), n);
  }

  /** The length of one node, from that of its father; a leaf is counted. */
  method MeasureOne(dl: array<nat>, blCount: array<nat>, fc: array<nat>, n: nat, maxCode: nat, maxLength: nat,
                    stree: seq<nat>, extra: seq<nat>, base: nat,
                    over0: nat, optLen0: int, staticLen0: int,
                    ghost d: seq<nat>, ghost P: set<nat>, ghost opt0: int, ghost st0: int)
    returns (over: nat, optLen: int, staticLen: int, ghost P': set<nat>)
    requires dl != blCount && dl != fc && blCount != fc && n < dl.Length == fc.Length == |d| && dl[n] < dl.Length
    requires 1 <= maxLength <= MAX_BITS
    requires dl[dl[n]] == Min(d[dl[n]], maxLength) && d[n] == d[dl[n]] + 1 && n !in P
    requires Summed(P, Clip(d, maxLength), fc[..], Extras(extra, base, |d|), stree, maxLength, blCount[..], optLen0,
                    staticLen0, opt0, st0)
    modifies dl, blCount
    ensures dl[..] == old(dl[..])[n := Min(d[n], maxLength)] && P' == (if n <= maxCode then P + {n} else P)
    ensures over == over0 + (if d[old(dl[n])] >= maxLength then 1 else 0)
    ensures Summed(P', Clip(d, maxLength), fc[..], Extras(extra, base, |d|), stree, maxLength, blCount[..], optLen,
                   staticLen, opt0, st0)
  {
    over, optLen, staticLen, P' := over0, optLen0, staticLen0, P;
    var bits := dl[dl[n]] + 1;
    if bits > maxLength {
      bits, over := maxLength, over + 1;
    }
    ghost var c := Clip(d, maxLength);
    dl[n] := bits;
    if n <= maxCode {
      optLen, staticLen := CountLeaf(blCount, fc, n, bits, maxLength, stree, extra, base, optLen, staticLen, c, P, opt0,
                                     st0);
      P' := P + {n};
    }
  }

  /** Counts a leaf of the given length. */
  method CountLeaf(blCount: array<nat>, fc: array<nat>, n: nat, bits: nat, maxLength: nat, stree: seq<nat>,
                   extra: seq<nat>, base: nat,
                   optLen0: int, staticLen0: int, ghost c: seq<nat>, ghost P: set<nat>, ghost opt0: int, ghost st0: int)
    returns (optLen: int, staticLen: int)
    requires blCount != fc && n < |c| == fc.Length && n !in P && bits == c[n] && 1 <= bits <= maxLength <= MAX_BITS
    requires Summed(P, c, fc[..], Extras(extra, base, |c|), stree, maxLength, blCount[..], optLen0, staticLen0, opt0,
                    st0)
    modifies blCount
    ensures Summed(P + {n}, c, fc[..], Extras(extra, base, |c|), stree, maxLength, blCount[..], optLen, staticLen, opt0,
                   st0)
  {
    ghost var bl := blCount[..];
    SumOne(P, c, fc[..], Extras(extra, base, |c|), stree, maxLength, bl, optLen0, staticLen0, opt0, st0, n);
    optLen, staticLen := optLen0, staticLen0;
    blCount[bits] := blCount[bits] + 1;
    assert blCount[..] == bl[bits := bl[bits] + 1];
    var xbits := ExtraOf(extra, base, n);
    var f := fc[n];
    optLen := optLen + Times(f, bits + xbits);
    if stree != [] {
      staticLen := staticLen + Times(f, At(stree, n) + xbits);
    }
  }

  lemma {:induction false} LeavesBefore(A: set<nat>, elems: nat, ms: seq<Merge>, root: nat, d: seq<nat>, maxCode: nat,
                                        i: nat)
    requires TreeOk(A, elems, ms, root, d, maxCode) && 1 <= i <= |ms|
    ensures var g, P := ms[i - 1], LeavesAt(A, elems, ms, i);
            && g.n !in P && g.m !in P && g.n != g.m && g.m !in P
            && var Q := if g.m <= maxCode then P + {g.m} else P;
            && g.n !in Q && LeavesAt(A, elems, ms, i - 1) == if g.n <= maxCode then Q + {g.n} else Q
  {
    var j := i - 1;
    var g := ms[j];
    Undo(A, elems, ms, root, j);
    assert FamilyAt(A, elems, ms, j);
    RootsFrom(A, elems, ms, j);
    assert (g.n in A <==> g.n <= maxCode) && (g.m in A <==> g.m <= maxCode);
    var P, R := LeavesAt(A, elems, ms, i), LeavesAt(A, elems, ms, j);
    var Q := if g.m <= maxCode then P + {g.m} else P;
    var S := if g.n <= maxCode then Q + {g.n} else Q;
    assert forall x :: x in R <==> x in S;
  }

  lemma {:induction false} NoLeavesAtRoot(A: set<nat>, elems: nat, ms: seq<Merge>, root: nat)
    requires Family(A, elems, ms, root) && ms != []
    ensures root == elems + |ms| - 1 && LeavesAt(A, elems, ms, |ms|) == {}
  {
    assert FamilyAt(A, elems, ms, |ms| - 1);
    assert ms[|ms| - 1].node in Roots(A, ms, |ms|);
  }

  lemma {:induction false} AllLeavesAtStart(A: set<nat>, elems: nat, ms: seq<Merge>)
    ensures LeavesAt(A, elems, ms, 0) == A
  {
    assert forall x :: x in A ==> Present(A, elems, ms, 0, x);
  }

  /** The pass has undone the merges from i on. */
  ghost predicate PassAt(A: set<nat>, elems: nat, ms: seq<Merge>, d: seq<nat>, L: nat, fc: seq<nat>, x: seq<nat>,
                         stree: seq<nat>, i: nat,
                         dl: seq<nat>, bl: seq<nat>, over: nat, opt: int, st: int, opt0: int, st0: int) {
    && Measured(A, elems, ms, d, L, dl, i) && over == 2 * Deep(ms, d, L, i)
    && Summed(LeavesAt(A, elems, ms, i), Clip(d, L), fc, x, stree, L, bl, opt, st, opt0, st0)
  }

  lemma {:induction false} SonsInUse(A: set<nat>, elems: nat, ms: seq<Merge>, root: nat, i: nat)
    requires Family(A, elems, ms, root) && i < |ms|
    ensures (ms[i].n in A || ms[i].n >= elems) && (ms[i].m in A || ms[i].m >= elems)
  {
    assert FamilyAt(A, elems, ms, i);
    RootsFrom(A, elems, ms, i);
  }

  ghost predicate OthersKept(A: set<nat>, elems: nat, dl: seq<nat>, dl': seq<nat>) {
    |dl'| == |dl| && forall x :: 0 <= x < elems && x < |dl| && x !in A ==> dl'[x] == dl[x]
  }

  /** Two sons. */
  method MeasureTwo(dl: array<nat>, blCount: array<nat>, fc: array<nat>, n: nat, m: nat, maxCode: nat, maxLength: nat,
                    stree: seq<nat>, extra: seq<nat>, base: nat,
                    over0: nat, optLen0: int, staticLen0: int,
                    ghost A: set<nat>, ghost elems: nat, ghost ms: seq<Merge>, ghost root: nat, ghost d: seq<nat>,
                        ghost i: nat, ghost opt0: int, ghost st0: int)
    returns (over: nat, optLen: int, staticLen: int)
    requires dl != blCount && dl != fc && blCount != fc && dl.Length == fc.Length == |d| && 1 <= maxLength <= MAX_BITS
    requires TreeOk(A, elems, ms, root, d, maxCode) && 1 <= i <= |ms| && n == ms[i - 1].n && m == ms[i - 1].m
    requires PassAt(A, elems, ms, d, maxLength, fc[..], Extras(extra, base, |d|), stree, i, dl[..], blCount[..], over0,
                    optLen0, staticLen0, opt0, st0)
    modifies dl, blCount
    ensures PassAt(A, elems, ms, d, maxLength, fc[..], Extras(extra, base, |d|), stree, i - 1, dl[..], blCount[..],
                   over, optLen, staticLen, opt0, st0)
    ensures OthersKept(A, elems, old(dl[..]), dl[..])
  {
    ghost var P: set<nat>;
    ghost var Q: set<nat>;
    ghost var dl0: seq<nat> := dl[..];
    UndoMeasured(A, elems, ms, root, d, maxLength, dl0, i, maxCode);
    LeavesBefore(A, elems, ms, root, d, maxCode, i);
    SonsInUse(A, elems, ms, root, i - 1);
    P := LeavesAt(A, elems, ms, i);
    over, optLen, staticLen, Q := MeasureOne(dl, blCount, fc, m, maxCode, maxLength, stree, extra, base, over0, optLen0,
                                             staticLen0, d, P, opt0, st0);
    over, optLen, staticLen, Q := MeasureOne(dl, blCount, fc, n, maxCode, maxLength, stree, extra, base, over, optLen,
                                             staticLen, d, Q, opt0, st0);
    assert dl[..] == dl0[n := Min(d[n], maxLength)][m := Min(d[m], maxLength)];
  }

  /** The first pass over the sorted nodes, the root first: lengths cut to maxLength. */
  method FirstPass(heap: array<nat>, heapMax: nat, dl: array<nat>, blCount: array<nat>, fc: array<nat>, maxCode: nat,
                   maxLength: nat,
                   stree: seq<nat>, extra: seq<nat>, base: nat, opt0: int, st0: int,
                   ghost A: set<nat>, ghost elems: nat, ghost ms: seq<Merge>, ghost root: nat, ghost d: seq<nat>)
    returns (over: nat, optLen: int, staticLen: int)
    requires dl != blCount && dl != fc && blCount != fc && heap != dl && heap != blCount
    requires dl.Length == fc.Length == |d| && 1 <= maxLength <= MAX_BITS
    requires TreeOk(A, elems, ms, root, d, maxCode) && ms != [] && blCount.Length == MAX_BITS + 1
    requires Kept(heap[..], ms) && heapMax + 1 == heap.Length - 2 * |ms| && heap[heapMax] == root
    requires Dads(dl[..], ms, |ms|)
    modifies dl, blCount
    ensures PassAt(A, elems, ms, d, maxLength, fc[..], Extras(extra, base, |d|), stree, 0, dl[..], blCount[..], over,
                   optLen, staticLen, opt0, st0)
    ensures OthersKept(A, elems, old(dl[..]), dl[..])
  {
    ghost var dl0 := dl[..];
    var bits := 0;
    while bits <= MAX_BITS
      invariant bits <= MAX_BITS + 1 && dl[..] == dl0 && forall b :: 0 <= b < bits ==> blCount[b] == 0
    {
      blCount[bits] := 0;
      bits := bits + 1;
    }
    NoLeavesAtRoot(A, elems, ms, root);
    CountNothing(Clip(d, maxLength), maxLength, blCount[..]);
    SumToEmpty(Weighted(fc[..], Clip(d, maxLength), Extras(extra, base, |d|)), fc.Length);
    SumToEmpty(Weighted(fc[..], stree, Extras(extra, base, |d|)), fc.Length);
    RootHasNoDad(A, elems, ms, root, dl0);
    dl[heap[heapMax]] := 0;
    over, optLen, staticLen := 0, opt0, st0;
    var h := heapMax + 1;
    ghost var i := |ms|;
    while h < heap.Length
      invariant 0 <= i <= |ms| && h == heapMax + 1 + 2 * (|ms| - i)
      invariant PassAt(A, elems, ms, d, maxLength, fc[..], Extras(extra, base, |d|), stree, i, dl[..], blCount[..],
                       over, optLen, staticLen, opt0, st0)
      invariant OthersKept(A, elems, dl0, dl[..])
    {
      assert KeptAt(heap[..], ms, i - 1);
      ghost var before := dl[..];
      over, optLen, staticLen := MeasureTwo(dl, blCount, fc, heap[h + 1], heap[h], maxCode, maxLength, stree, extra,
                                            base, over, optLen, staticLen,
                                            A, elems, ms, root, d, i, opt0, st0);
      h, i := h + 2, i - 1;
    }
  }

  lemma {:induction false} RootHasNoDad(A: set<nat>, elems: nat, ms: seq<Merge>, root: nat, dl: seq<nat>)
    requires Family(A, elems, ms, root) && ms != [] && Dads(dl, ms, |ms|) && root < |dl|
    ensures Dads(dl[root := 0], ms, |ms|)
  {
    var dl' := dl[root := 0];
    forall i | 0 <= i < |ms| && i < |ms|
      ensures DadAt(dl', ms, i)
    {
      assert DadAt(dl, ms, i);
      SonsGone(A, elems, ms, i, |ms|);
    }
  }

  // ----- the second pass -----

  /** The t-th node from the end of the heap array: sons in the order in which they were merged. */
  function SonAt(ms: seq<Merge>, t: nat): nat
    requires t < 2 * |ms|
  {
    if t % 2 == 0 then ms[t / 2].n else ms[t / 2].m
  }

  /** The leaves among the first t of these nodes. */
  ghost function Consumed(A: set<nat>, ms: seq<Merge>, t: nat): set<nat>
    requires t <= 2 * |ms|
  {
    if t % 2 == 0 then A - Roots(A, ms, t / 2)
    else if ms[t / 2].n in A then A - Roots(A, ms, t / 2) + {ms[t / 2].n} else A - Roots(A, ms, t / 2)
  }

  lemma {:induction false} ConsumeOne(A: set<nat>, elems: nat, ms: seq<Merge>, root: nat, t: nat)
    requires Family(A, elems, ms, root) && t < 2 * |ms|
    ensures var x, Q := SonAt(ms, t), Consumed(A, ms, t);
            && x !in Q && Consumed(A, ms, t + 1) == (if x in A then Q + {x} else Q) && (x in A || x >= elems)
  {
    var i := t / 2;
    assert FamilyAt(A, elems, ms, i);
    RootsFrom(A, elems, ms, i);
    RootsBelow(A, elems, ms, i);
    var x, Q, Q' := SonAt(ms, t), Consumed(A, ms, t), Consumed(A, ms, t + 1);
    if t % 2 == 1 {
      assert (t + 1) / 2 == i + 1;
      NodesNotLeaves(A, elems, ms, i);
    }
    assert forall y :: y in Q' <==> y in Q || (y == x && x in A);
  }

  lemma {:induction false} NodesNotLeaves(A: set<nat>, elems: nat, ms: seq<Merge>, i: nat)
    requires Growing(A, elems, ms) && i < |ms|
    ensures ms[i].node !in A
  {
    assert FamilyAt(A, elems, ms, i);
  }

  lemma {:induction false} ConsumedEnds(A: set<nat>, elems: nat, ms: seq<Merge>, root: nat)
    requires Family(A, elems, ms, root) && ms != []
    ensures Consumed(A, ms, 0) == {} && Consumed(A, ms, 2 * |ms|) == A
  {
    NoLeavesAtRoot(A, elems, ms, root);
    assert Roots(A, ms, |ms|) == {root};
    assert (2 * |ms|) / 2 == |ms|;
  }

  lemma {:induction false} ConsumedSize(A: set<nat>, ms: seq<Merge>, t: nat)
    requires t <= 2 * |ms|
    ensures Consumed(A, ms, t) <= A && |Consumed(A, ms, t)| <= |A|
  {
    Subset(Consumed(A, ms, t), A);
  }

  /** The counts of the lengths given out so far: all those above `bits`, and all but n of `bits`. */
  ghost predicate GivenOut(cur: seq<nat>, bl: seq<nat>, L: nat, bits: nat, n: nat) {
    && |cur| == |bl| == MAX_BITS + 1 && bits <= L <= MAX_BITS && n <= bl[bits]
    && forall b {:trigger cur[b]} ::
         0 <= b <= MAX_BITS ==> cur[b] == if b > bits then bl[b] else if b == bits then bl[b] - n else 0
  }

  lemma {:induction false} GivenLess(cur: seq<nat>, bl: seq<nat>, M: nat)
    requires |cur| == |bl| && forall b {:trigger cur[b]} :: 0 <= b < |bl| ==> cur[b] <= bl[b]
    ensures CountAll(cur, M) <= CountAll(bl, M)
    ensures forall b {:trigger cur[b]} ::
              1 <= b <= M && b < |bl| && cur[b] < bl[b] ==> CountAll(cur, M) < CountAll(bl, M)
  {
    if M != 0 { GivenLess(cur, bl, M - 1); }
  }

  /** A length outside P does not matter. */
  lemma {:induction false} CountedSame(P: set<nat>, c: seq<nat>, bl: seq<nat>, L: nat, m: nat, v: nat)
    requires Counted(P, c, bl, L) && m !in P && m < |c|
    ensures Counted(P, c[m := v], bl, L)
  {
    var c' := c[m := v];
    forall b | 0 <= b <= MAX_BITS
      ensures CountIs(P, c', bl, b)
    {
      assert CountIs(P, c, bl, b);
      SumToSame(P, Having(c, b), Having(c', b), |c|);
    }
    SumToSame(P, Units(L, c), Units(L, c'), |c|);
  }

  lemma {:induction false} WeightedSet(A: set<nat>, fc: seq<nat>, l: seq<nat>, x: seq<nat>, m: nat, v: nat)
    requires m in A && m < |fc| == |l|
    ensures Sum(A, Weighted(fc, l[m := v], x)) == Sum(A, Weighted(fc, l, x)) + Times(fc[m], v) - Times(fc[m], l[m])
  {
    var l' := l[m := v];
    SumUpdate(A, Weighted(fc, l, x), m, Times(fc[m], v + At(x, m)));
    assert Weighted(fc, l', x) == Weighted(fc, l, x)[m := Times(fc[m], v + At(x, m))];
    assert Times(fc[m], v + At(x, m)) == Times(fc[m], v) + Times(fc[m], At(x, m));
    assert Times(fc[m], l[m] + At(x, m)) == Times(fc[m], l[m]) + Times(fc[m], At(x, m));
  }

  /** The counts of the lengths given out and the leaves that have them. */
  datatype Given = Given(cur: seq<nat>, leaves: set<nat>)

  ghost predicate ConsumedAre(A: set<nat>, ms: seq<Merge>, t: nat, Q: set<nat>) {
    t <= 2 * |ms| && forall s {:trigger Consumed(A, ms, s)} :: s == t ==> Q == Consumed(A, ms, s)
  }

  /** In the second pass, after t nodes: the leaves seen have new lengths, and the total is right for all of them. */
  ghost predicate SecondAt(A: set<nat>, ms: seq<Merge>, L: nat, fc: seq<nat>, x: seq<nat>, t: nat, dl: seq<nat>,
                           g: Given, opt: int, opt0: int) {
    ConsumedAre(A, ms, t, g.leaves) && |dl| == |fc| && Counted(g.leaves, dl, g.cur, L)
    && opt == opt0 + Sum(A, Weighted(fc, dl, x))
  }

  /** A leaf is given the length bits. */
  lemma {:induction false} LeafGiven(A: set<nat>, L: nat, fc: seq<nat>, x: seq<nat>, dl: seq<nat>, g: Given, opt: int,
                                     opt0: int, m: nat, bits: nat)
    requires |dl| == |fc| && Counted(g.leaves, dl, g.cur, L) && opt == opt0 + Sum(A, Weighted(fc, dl, x))
    requires m in A && m < |dl| && m !in g.leaves && 1 <= bits <= L
    ensures bits < |g.cur| && Counted(g.leaves + {m}, dl[m := bits], g.cur[bits := g.cur[bits] + 1], L)
    ensures opt + (Times(fc[m], bits) - Times(fc[m], dl[m])) == opt0 + Sum(A, Weighted(fc, dl[m := bits], x))
  {
    CountedSame(g.leaves, dl, g.cur, L, m, bits);
    WeightedSet(A, fc, dl, x, m, bits);
    CountOne(g.leaves, dl[m := bits], g.cur, L, m);
  }

  /** What the second pass relies on. */
  ghost predicate Sorted(heap: seq<nat>, A: set<nat>, elems: nat, ms: seq<Merge>, root: nat, maxCode: nat, N: nat) {
    && Family(A, elems, ms, root) && ms != [] && Kept(heap, ms) && maxCode < elems <= N
    && forall y {:trigger y in A} :: y in A ==> y <= maxCode
  }

  /** The second pass is giving out the length bits, n more times. */
  ghost predicate Giving(A: set<nat>, ms: seq<Merge>, L: nat, fc: seq<nat>, x: seq<nat>, t: nat, dl: seq<nat>, g: Given,
                         opt: int, opt0: int,
                         bl: seq<nat>, bits: nat, n: nat) {
    forall k: nat {:trigger GivingAt(A, ms, L, fc, x, t, dl, g, opt, opt0, bl, bits, k)} :: k == n ==>
      GivingAt(A, ms, L, fc, x, t, dl, g, opt, opt0, bl, bits, k)
  }

  ghost predicate GivingAt(A: set<nat>, ms: seq<Merge>, L: nat, fc: seq<nat>, x: seq<nat>, t: nat, dl: seq<nat>,
                           g: Given, opt: int, opt0: int, bl: seq<nat>, bits: nat, n: nat) {
    && SecondAt(A, ms, L, fc, x, t, dl, g, opt, opt0) && GivenOut(g.cur, bl, L, bits, n) && CountAll(bl, L) == |A|
  }

  /** The next shorter length. */
  lemma {:induction false} GiveOn(A: set<nat>, ms: seq<Merge>, L: nat, fc: seq<nat>, x: seq<nat>, t: nat, dl: seq<nat>,
                                  g: Given, opt: int, opt0: int, bl: seq<nat>, bits: nat)
    requires Giving(A, ms, L, fc, x, t, dl, g, opt, opt0, bl, bits, 0) && 1 <= bits < |bl|
    ensures Giving(A, ms, L, fc, x, t, dl, g, opt, opt0, bl, bits - 1, bl[bits - 1])
  {
    assert GivingAt(A, ms, L, fc, x, t, dl, g, opt, opt0, bl, bits, 0);
  }

  /** The next node from the end of the heap array. */
  lemma {:induction false} NextSon(heap: seq<nat>, A: set<nat>, elems: nat, ms: seq<Merge>, root: nat, maxCode: nat,
                                   N: nat, L: nat, fc: seq<nat>, x: seq<nat>, t: nat, dl: seq<nat>,
                g: Given, opt: int, opt0: int, bl: seq<nat>, bits: nat, n: nat)
    requires Sorted(heap, A, elems, ms, root, maxCode, N) && Giving(A, ms, L, fc, x, t, dl, g, opt, opt0, bl, bits, n)
    requires n >= 1 && bits >= 1
    ensures t < |heap| && t + 1 <= 2 * |ms| && |dl| == |fc|
    ensures var m := heap[|heap| - 1 - t];
            m !in g.leaves && (m in A <==> m <= maxCode) && (m in A || m >= elems)
            && ConsumedAre(A, ms, t + 1, if m in A then g.leaves + {m} else g.leaves)
            && (m !in A ==> Giving(A, ms, L, fc, x, t + 1, dl, g, opt, opt0, bl, bits, n))
  {
    assert GivingAt(A, ms, L, fc, x, t, dl, g, opt, opt0, bl, bits, n);
    MoreLeaves(A, elems, ms, root, t, g, bl, L, bits, n);
    SonKept(heap, ms, t);
    ConsumeNext(A, elems, ms, root, t, g.leaves);
  }

  /** As long as lengths are left to give out there are leaves left to take them. */
  lemma {:induction false} MoreLeaves(A: set<nat>, elems: nat, ms: seq<Merge>, root: nat, t: nat, g: Given,
                                      bl: seq<nat>, L: nat, bits: nat, n: nat)
    requires Family(A, elems, ms, root) && ms != [] && ConsumedAre(A, ms, t, g.leaves)
    requires CountAll(g.cur, L) == |g.leaves|
    requires GivenOut(g.cur, bl, L, bits, n) && CountAll(bl, L) == |A| && n >= 1 && bits >= 1
    ensures t < 2 * |ms|
  {
    ConsumedEnds(A, elems, ms, root);
    GivenLess(g.cur, bl, L);
    assert g.cur[bits] < bl[bits];
    assert g.leaves == Consumed(A, ms, t);
  }

  lemma {:induction false} SonKept(heap: seq<nat>, ms: seq<Merge>, t: nat)
    requires Kept(heap, ms) && t < 2 * |ms|
    ensures heap[|heap| - 1 - t] == SonAt(ms, t)
  {
    assert KeptAt(heap, ms, t / 2);
  }

  lemma {:induction false} ConsumeNext(A: set<nat>, elems: nat, ms: seq<Merge>, root: nat, t: nat, Q: set<nat>)
    requires Family(A, elems, ms, root) && t < 2 * |ms| && ConsumedAre(A, ms, t, Q)
    ensures var m := SonAt(ms, t);
            m !in Q && (m in A || m >= elems) && ConsumedAre(A, ms, t + 1, if m in A then Q + {m} else Q)
  {
    assert Q == Consumed(A, ms, t);
    ConsumeOne(A, elems, ms, root, t);
  }

  /** Lighter members have no shorter codes. */
  ghost predicate Ordered(A: set<nat>, w: seq<nat>, l: seq<nat>) {
    forall k: seq<nat> {:trigger LighterLonger(A, w, k)} :: k == l ==> LighterLonger(A, w, k)
  }

  ghost predicate LighterLonger(A: set<nat>, w: seq<nat>, l: seq<nat>) {
    forall y, z {:trigger y in A, z in A} :: y in A && z in A && y < |w| && z < |w| && w[y] < w[z] ==>
      y < |l| && z < |l| && l[y] >= l[z]
  }

  /** The leaves seen are the lightest ones; they have lengths from bits on, the lighter ones no shorter ones. */
  ghost predicate InOrder(A: set<nat>, w: seq<nat>, l: seq<nat>, Q: set<nat>, bits: nat) {
    forall b: nat {:trigger InOrderFrom(A, w, l, Q, b)} :: b == bits ==> InOrderFrom(A, w, l, Q, b)
  }

  ghost predicate InOrderFrom(A: set<nat>, w: seq<nat>, l: seq<nat>, Q: set<nat>, bits: nat) {
    && Q <= A && LighterLonger(Q, w, l) && (forall y {:trigger y in Q} :: y in Q ==> y < |l| && l[y] >= bits)
    && Lighter(A, w, Q)
  }

  /** The members of Q are no heavier than the others. */
  ghost predicate AreLightest(A: set<nat>, w: seq<nat>, Q: set<nat>) {
    forall P: set<nat> {:trigger Lighter(A, w, P)} :: P == Q ==> Lighter(A, w, P)
  }

  ghost predicate Lighter(A: set<nat>, w: seq<nat>, Q: set<nat>) {
    forall y, z {:trigger y in Q, z in A} :: y in Q && z in A && z !in Q ==> y < |w| && z < |w| && w[y] <= w[z]
  }

  lemma {:induction false} OrderStart(A: set<nat>, w: seq<nat>, l: seq<nat>, bits: nat)
    ensures InOrder(A, w, l, {}, bits)
  {
  }

  lemma {:induction false} OrderOn(A: set<nat>, w: seq<nat>, l: seq<nat>, Q: set<nat>, bits: nat)
    requires InOrder(A, w, l, Q, bits) && bits >= 1
    ensures InOrder(A, w, l, Q, bits - 1)
  {
    assert InOrderFrom(A, w, l, Q, bits);
  }

  lemma {:induction false} OrderEnd(A: set<nat>, w: seq<nat>, l: seq<nat>, bits: nat)
    requires InOrder(A, w, l, A, bits)
    ensures Ordered(A, w, l)
  {
    assert InOrderFrom(A, w, l, A, bits);
  }

  lemma {:induction false} OrderOne(A: set<nat>, w: seq<nat>, l: seq<nat>, Q: set<nat>, Q': set<nat>, m: nat, bits: nat)
    requires InOrder(A, w, l, Q, bits) && m in A && m !in Q && m < |l| && Q' == Q + {m} && AreLightest(A, w, Q')
    ensures InOrder(A, w, l[m := bits], Q', bits)
  {
    var l' := l[m := bits];
    assert InOrderFrom(A, w, l, Q, bits);
    assert Lighter(A, w, Q');
    forall y, z {:trigger y in Q', z in Q'} | y in Q' && z in Q' && y < |w| && z < |w| && w[y] < w[z]
      ensures y < |l'| && z < |l'| && l'[y] >= l'[z]
    {
      assert y == m || y in Q;
      assert z == m || z in Q;
    }
  }

  /** The leaves among the first nodes from the end of the heap array are the lightest ones. */
  lemma {:induction false} ConsumedLight(A: set<nat>, elems: nat, w: seq<nat>, ms: seq<Merge>, root: nat, t: nat,
                                         Q: set<nat>)
    requires Family(A, elems, ms, root) && Greedy(A, w, ms) && ConsumedAre(A, ms, t, Q)
    ensures AreLightest(A, w, Q)
  {
    assert Q == Consumed(A, ms, t);
    forall y, z {:trigger y in Q, z in A} | y in Q && z in A && z !in Q
      ensures y < |w| && z < |w| && w[y] <= w[z]
    {
      if y !in Roots(A, ms, t / 2) {
        var j := Taker(A, elems, ms, t / 2, y);
        HeavierThanSons(A, elems, w, ms, t / 2, j, z);
      } else {
        assert GreedyAt(A, w, ms, t / 2);
      }
    }
  }

  /** The merge that took a leaf. */
  lemma {:induction false} Taker(A: set<nat>, elems: nat, ms: seq<Merge>, i: nat, y: nat) returns (j: nat)
    requires Growing(A, elems, ms) && i <= |ms| && y in A && y !in Roots(A, ms, i)
    ensures j < i && (ms[j].n == y || ms[j].m == y)
  {
    if y in Roots(A, ms, i - 1) {
      j := i - 1;
    } else {
      j := Taker(A, elems, ms, i - 1, y);
    }
  }

  /** The leaf m gets the length bits. */
  lemma {:induction false} LeafDone(A: set<nat>, elems: nat, ms: seq<Merge>, root: nat, L: nat, fc: seq<nat>,
                                    x: seq<nat>, t: nat, dl: seq<nat>, g: Given, opt: int, opt0: int, bl: seq<nat>,
                                    bits: nat, n: nat, m: nat)
    returns (g': Given)
    requires Family(A, elems, ms, root) && Giving(A, ms, L, fc, x, t, dl, g, opt, opt0, bl, bits, n) && n >= 1
    requires Greedy(A, fc, ms) && InOrder(A, fc, dl, g.leaves, bits) && 1 <= bits && m in A && m !in g.leaves
    requires ConsumedAre(A, ms, t + 1, g.leaves + {m}) && m < |dl| == |fc|
    ensures Giving(A, ms, L, fc, x, t + 1, dl[m := bits], g', opt + (Times(fc[m], bits) - Times(fc[m], dl[m])), opt0,
                   bl, bits, n - 1)
    ensures InOrder(A, fc, dl[m := bits], g'.leaves, bits)
  {
    assert GivingAt(A, ms, L, fc, x, t, dl, g, opt, opt0, bl, bits, n);
    LeafGiven(A, L, fc, x, dl, g, opt, opt0, m, bits);
    g' := Given(g.cur[bits := g.cur[bits] + 1], g.leaves + {m});
    ConsumedLight(A, elems, fc, ms, root, t + 1, g'.leaves);
    OrderOne(A, fc, dl, g.leaves, g'.leaves, m, bits);
  }

  /** A new length, and what it adds to the total. */
  method SetLength(dl: array<nat>, fc: array<nat>, m: nat, bits: nat, opt: int) returns (optLen: int)
    requires fc != dl && m < dl.Length == fc.Length
    modifies dl
    ensures dl[..] == old(dl[..])[m := bits] && optLen == opt + (Times(fc[m], bits) - Times(fc[m], old(dl[m])))
  {
    optLen := opt;
    if dl[m] != bits {
      optLen := optLen + (Times(fc[m], bits) - Times(fc[m], dl[m]));
      dl[m] := bits;
    }
  }

  /** One node of the second pass. */
  method Reassign(heap: array<nat>, h: nat, dl: array<nat>, fc: array<nat>, maxCode: nat, bits: nat, n0: nat, opt1: int,
                  ghost bl: seq<nat>, ghost maxLength: nat,
                  ghost x: seq<nat>, ghost A: set<nat>, ghost elems: nat, ghost ms: seq<Merge>, ghost root: nat,
                      ghost opt0: int, ghost g: Given)
    returns (n: nat, optLen: int, ghost g': Given)
    requires heap != dl && fc != dl && Sorted(heap[..], A, elems, ms, root, maxCode, dl.Length) && h <= heap.Length
    requires n0 >= 1 && 1 <= bits
    requires Giving(A, ms, maxLength, fc[..], x, heap.Length - h, dl[..], g, opt1, opt0, bl, bits, n0)
    requires Greedy(A, fc[..], ms) && InOrder(A, fc[..], dl[..], g.leaves, bits)
    modifies dl
    ensures h >= 1 && Giving(A, ms, maxLength, fc[..], x, heap.Length - (h - 1), dl[..], g', optLen, opt0, bl, bits, n)
    ensures OthersKept(A, elems, old(dl[..]), dl[..]) && InOrder(A, fc[..], dl[..], g'.leaves, bits)
  {
    ghost var t := heap.Length - h;
    n, optLen, g' := n0, opt1, g;
    NextSon(heap[..], A, elems, ms, root, maxCode, dl.Length, maxLength, fc[..], x, t, dl[..], g, opt1, opt0, bl, bits,
            n0);
    var m := heap[h - 1];
    if m <= maxCode {
      ghost var l: seq<nat> := dl[..];
      g' := LeafDone(A, elems, ms, root, maxLength, fc[..], x, t, l, g, opt1, opt0, bl, bits, n0, m);
      optLen := SetLength(dl, fc, m, bits, optLen);
      n := n - 1;
    }
  }

  /** Gives the length bits to as many leaves as blCount says, least frequent ones first. */
  method FillLength(heap: array<nat>, h0: nat, dl: array<nat>, blCount: array<nat>, fc: array<nat>, maxCode: nat,
                    bits: nat, opt1: int, ghost maxLength: nat,
                    ghost x: seq<nat>, ghost A: set<nat>, ghost elems: nat, ghost ms: seq<Merge>, ghost root: nat,
                        ghost opt0: int, ghost g: Given, ghost bl: seq<nat>)
    returns (h: nat, optLen: int, ghost g': Given)
    requires heap != dl && fc != dl && blCount != dl && Sorted(heap[..], A, elems, ms, root, maxCode, dl.Length)
    requires h0 <= heap.Length && 1 <= bits
    requires bl == blCount[..] && bits < |bl|
    requires Giving(A, ms, maxLength, fc[..], x, heap.Length - h0, dl[..], g, opt1, opt0, bl, bits, bl[bits])
    requires Greedy(A, fc[..], ms) && InOrder(A, fc[..], dl[..], g.leaves, bits)
    modifies dl
    ensures h <= h0 && OthersKept(A, elems, old(dl[..]), dl[..])
    ensures Giving(A, ms, maxLength, fc[..], x, heap.Length - h, dl[..], g', optLen, opt0, bl, bits, 0)
    ensures InOrder(A, fc[..], dl[..], g'.leaves, bits)
  {
    h, optLen, g' := h0, opt1, g;
    var n := blCount[bits];
    ghost var dl0 := dl[..];
    while n != 0
      invariant h <= h0 && OthersKept(A, elems, dl0, dl[..])
      invariant Giving(A, ms, maxLength, fc[..], x, heap.Length - h, dl[..], g', optLen, opt0, bl, bits, n)
      invariant InOrder(A, fc[..], dl[..], g'.leaves, bits)
      decreases h
    {
      n, optLen, g' := Reassign(heap, h, dl, fc, maxCode, bits, n, optLen, bl, maxLength, x, A, elems, ms, root, opt0,
                                g');
      h := h - 1;
    }
  }

  /** The second pass: lengths for all leaves anew, as counted in blCount. */
  method SecondPass(heap: array<nat>, dl: array<nat>, blCount: array<nat>, fc: array<nat>, maxCode: nat, maxLength: nat,
                    opt1: int,
                    ghost x: seq<nat>, ghost A: set<nat>, ghost elems: nat, ghost ms: seq<Merge>, ghost root: nat,
                        ghost opt0: int)
    returns (optLen: int)
    requires heap != dl && fc != dl && blCount != dl && Sorted(heap[..], A, elems, ms, root, maxCode, dl.Length)
    requires dl.Length == fc.Length && 1 <= maxLength <= MAX_BITS
    requires Fixed(blCount[..], maxLength) && CountAll(blCount[..], maxLength) == |A|
    requires opt1 == opt0 + Sum(A, Weighted(fc[..], dl[..], x)) && Greedy(A, fc[..], ms)
    modifies dl
    ensures Counted(A, dl[..], blCount[..], maxLength) && optLen == opt0 + Sum(A, Weighted(fc[..], dl[..], x))
    ensures OthersKept(A, elems, old(dl[..]), dl[..]) && Ordered(A, fc[..], dl[..])
  {
    optLen := opt1;
    ghost var bl, dl0 := blCount[..], dl[..];
    ghost var g := StartGiving(A, elems, ms, root, maxLength, fc[..], x, dl0, opt1, opt0, bl);
    var bits: nat, h: nat := maxLength, heap.Length;
    OrderStart(A, fc[..], dl0, bits);
    while bits != 0
      invariant bits <= maxLength && h <= heap.Length && OthersKept(A, elems, dl0, dl[..])
      invariant Giving(A, ms, maxLength, fc[..], x, heap.Length - h, dl[..], g, optLen, opt0, bl, bits, bl[bits])
      invariant InOrder(A, fc[..], dl[..], g.leaves, bits)
    {
      h, optLen, g := FillLength(heap, h, dl, blCount, fc, maxCode, bits, optLen, maxLength, x, A, elems, ms, root,
                                 opt0, g, bl);
      OrderOn(A, fc[..], dl[..], g.leaves, bits);
      GiveOn(A, ms, maxLength, fc[..], x, heap.Length - h, dl[..], g, optLen, opt0, bl, bits);
      bits := bits - 1;
    }
    AllGiven(A, ms, maxLength, fc[..], x, heap.Length - h, dl[..], g, optLen, opt0, bl);
    OrderEnd(A, fc[..], dl[..], bits);
  }

  /** Counts of lengths 1 to L only. */
  ghost predicate Fixed(bl: seq<nat>, L: nat) {
    |bl| == MAX_BITS + 1 && bl[0] == 0 && forall b :: L < b <= MAX_BITS ==> bl[b] == 0
  }

  lemma {:induction false} StartGiving(A: set<nat>, elems: nat, ms: seq<Merge>, root: nat, L: nat, fc: seq<nat>,
                                       x: seq<nat>, dl: seq<nat>, opt: int, opt0: int, bl: seq<nat>)
    returns (g: Given)
    requires Family(A, elems, ms, root) && ms != [] && |dl| == |fc| && 1 <= L <= MAX_BITS && Fixed(bl, L)
    requires CountAll(bl, L) == |A|
    requires opt == opt0 + Sum(A, Weighted(fc, dl, x))
    ensures Giving(A, ms, L, fc, x, 0, dl, g, opt, opt0, bl, L, bl[L]) && g.leaves == {}
  {
    ConsumedEnds(A, elems, ms, root);
    g := Given(seq(MAX_BITS + 1, _ => 0), {});
    CountNothing(dl, L, g.cur);
  }

  lemma {:induction false} AllGiven(A: set<nat>, ms: seq<Merge>, L: nat, fc: seq<nat>, x: seq<nat>, t: nat,
                                    dl: seq<nat>, g: Given, opt: int, opt0: int, bl: seq<nat>)
    requires Fixed(bl, L) && Giving(A, ms, L, fc, x, t, dl, g, opt, opt0, bl, 0, bl[0])
    ensures Counted(A, dl, bl, L) && opt == opt0 + Sum(A, Weighted(fc, dl, x)) && g.leaves == A
  {
    assert GivingAt(A, ms, L, fc, x, t, dl, g, opt, opt0, bl, 0, bl[0]);
    assert g.cur == bl;
    ConsumedSize(A, ms, t);
    assert g.leaves == Consumed(A, ms, t);
    SameSize(g.leaves, A);
  }

  lemma {:induction false} SameSize(Q: set<nat>, A: set<nat>)
    requires Q <= A && |Q| == |A|
    ensures Q == A
  {
    assert A == Q + (A - Q);
    assert |A - Q| == 0;
  }

  // ----- both passes -----

  lemma {:induction false} CountedOn(P: set<nat>, c: seq<nat>, c': seq<nat>, bl: seq<nat>, L: nat)
    requires Counted(P, c, bl, L) && |c'| == |c| && forall x {:trigger x in P} :: x in P && x < |c| ==> c'[x] == c[x]
    ensures Counted(P, c', bl, L)
  {
    forall b | 0 <= b <= MAX_BITS
      ensures CountIs(P, c', bl, b)
    {
      assert CountIs(P, c, bl, b);
      SumToSame(P, Having(c, b), Having(c', b), |c|);
    }
    SumToSame(P, Units(L, c), Units(L, c'), |c|);
  }

  lemma {:induction false} SumToZero(A: set<nat>, f: seq<int>, n: nat)
    requires n <= |f| && forall i :: 0 <= i < n && i in A ==> f[i] == 0
    ensures SumTo(A, f, n) == 0
  {
    if n != 0 { SumToZero(A, f, n - 1); }
  }

  /** No length above L is counted when all are cut to L. */
  lemma {:induction false} NoneAbove(A: set<nat>, d: seq<nat>, bl: seq<nat>, L: nat)
    requires Counted(A, Clip(d, L), bl, L)
    ensures Fixed(bl, L)
  {
    forall b | L < b <= MAX_BITS
      ensures bl[b] == 0
    {
      assert CountIs(A, Clip(d, L), bl, b);
      SumToZero(A, Having(Clip(d, L), b), |d|);
    }
  }

  /** With no merge at depth L or below, no node is below depth L. */
  lemma {:induction false} Shallow(A: set<nat>, elems: nat, ms: seq<Merge>, root: nat, d: seq<nat>, L: nat, i: nat,
                                   x: nat)
    requires Family(A, elems, ms, root) && elems + |ms| <= |d| && root < |d| && d[root] == 0 && Depths(ms, d, i)
    requires i <= |ms| && ms != []
    requires Deep(ms, d, L, i) == 0 && Present(A, elems, ms, i, x) && x < |d|
    ensures d[x] <= L
    decreases |ms| - i
  {
    if i == |ms| {
      NoLeavesAtRoot(A, elems, ms, root);
      assert Roots(A, ms, |ms|) == {root};
    } else {
      Undo(A, elems, ms, root, i);
      assert DepthAt(ms, d, i);
      if x != ms[i].n && x != ms[i].m {
        Shallow(A, elems, ms, root, d, L, i + 1, x);
      }
    }
  }

  /** What the first pass leaves: lengths cut to L, their counts, and twice the excess of their Kraft sum as the
      overflow. */
  ghost predicate Cut(A: set<nat>, d: seq<nat>, L: nat, fc: seq<nat>, x: seq<nat>, stree: seq<nat>, dl: seq<nat>,
                      bl: seq<nat>, over: nat, excess: nat,
                      opt: int, st: int, opt0: int, st0: int) {
    && |dl| == |d| == |fc| && Fixed(bl, L) && Counted(A, dl, bl, L) && over == 2 * excess
    && CountKraft(bl, L) == Pow2(L) + excess
    && (excess > 0 ==> bl[L] > excess) && (excess == 0 ==> forall y {:trigger y in A} ::
                                             y in A && y < |d| ==> dl[y] == d[y])
    && opt == opt0 + Sum(A, Weighted(fc, dl, x)) && st == st0 + StaticBits(A, fc, stree, x)
  }

  lemma {:induction false} PassCuts(A: set<nat>, elems: nat, ms: seq<Merge>, root: nat, d: seq<nat>, maxCode: nat,
                                    L: nat, fc: seq<nat>, x: seq<nat>, stree: seq<nat>,
                 dl: seq<nat>, bl: seq<nat>, over: nat, opt: int, st: int, opt0: int, st0: int)
    requires TreeOk(A, elems, ms, root, d, maxCode) && ms != [] && |fc| == |d| && 1 <= L <= MAX_BITS
    requires PassAt(A, elems, ms, d, L, fc, x, stree, 0, dl, bl, over, opt, st, opt0, st0)
    ensures Cut(A, d, L, fc, x, stree, dl, bl, over, Deep(ms, d, L, 0), opt, st, opt0, st0)
  {
    var c, e := Clip(d, L), Deep(ms, d, L, 0);
    AllLeavesAtStart(A, elems, ms);
    forall y | y in A && y < |d|
      ensures dl[y] == c[y]
    {
      assert Present(A, elems, ms, 0, y);
    }
    NoneAbove(A, d, bl, L);
    CountedOn(A, c, dl, bl, L);
    SumToSame(A, Weighted(fc, c, x), Weighted(fc, dl, x), |fc|);
    ClippedKraft(A, elems, ms, root, d, L, 0);
    LeavesBelow(A, elems, ms, root, d, L, 0);
    assert CountIs(A, c, bl, L);
    SumToSame(A, Having(c, L), Flags(d, L), |d|);
    if e == 0 {
      forall y | y in A && y < |d|
        ensures dl[y] == d[y]
      {
        assert Present(A, elems, ms, 0, y);
        Shallow(A, elems, ms, root, d, L, 0, y);
      }
    }
  }

  /** The result: lengths up to L with a Kraft sum of exactly one, their counts and totals. */
  ghost predicate Lengths(A: set<nat>, L: nat, fc: seq<nat>, x: seq<nat>, stree: seq<nat>, dl: seq<nat>, bl: seq<nat>,
                          opt: int, st: int, opt0: int, st0: int) {
    && |dl| == |fc| && Fixed(bl, L) && Counted(A, dl, bl, L) && CountKraft(bl, L) == Pow2(L)
    && opt == opt0 + Sum(A, Weighted(fc, dl, x)) && st == st0 + StaticBits(A, fc, stree, x)
  }

  /** In the tree itself lighter leaves are no higher: else their exchange would save bits. */
  lemma {:induction false} DepthsOrdered(A: set<nat>, elems: nat, ms: seq<Merge>, root: nat, w: seq<nat>, d: seq<nat>,
                                         dl: seq<nat>)
    requires Family(A, elems, ms, root) && Greedy(A, w, ms) && elems + |ms| <= |d| == |w| == |dl| && root < |d|
    requires d[root] == 0 && Depths(ms, d, 0) && forall y {:trigger y in A} :: y in A && y < |d| ==> dl[y] == d[y]
    ensures Ordered(A, w, dl)
  {
    forall y, z {:trigger y in A, z in A} | y in A && z in A && y < |w| && z < |w| && w[y] < w[z]
      ensures dl[y] >= dl[z]
    {
      if d[y] < d[z] { NoGain(A, elems, ms, root, w, d, y, z); }
    }
  }

  lemma {:induction false} NoGain(A: set<nat>, elems: nat, ms: seq<Merge>, root: nat, w: seq<nat>, d: seq<nat>, y: nat,
                                  z: nat)
    requires Family(A, elems, ms, root) && Greedy(A, w, ms) && elems + |ms| <= |d| == |w| && root < |d|
    requires d[root] == 0 && Depths(ms, d, 0) && y in A && z in A && y < |w| && z < |w| && w[y] < w[z]
    ensures d[y] >= d[z]
  {
    if d[y] < d[z] {
      var B, l := DepthBound(d), d[y := d[z]][z := d[y]];
      SwapGains(A, w, d, y, z);
      DepthCost(A, elems, ms, root, w, d, 0);
      DepthsFit(A, elems, ms, root, d, B);
      KraftUpdate(A, B, d, y, d[z]);
      KraftUpdate(A, B, d[y := d[z]], z, d[y]);
      Optimal(A, w, ms, 0, l, B);
    }
  }

  /** A bound of all depths. */
  function DepthBound(d: seq<nat>): (B: nat)
    ensures forall i :: 0 <= i < |d| ==> d[i] <= B
  {
    if d == [] then 0 else var B := DepthBound(d[..|d| - 1]); if d[|d| - 1] > B then d[|d| - 1] else B
  }

  lemma {:induction false} DepthsFit(A: set<nat>, elems: nat, ms: seq<Merge>, root: nat, d: seq<nat>, B: nat)
    requires Family(A, elems, ms, root) && elems + |ms| <= |d| && root < |d| && d[root] == 0 && Depths(ms, d, 0)
    requires forall i :: 0 <= i < |d| ==> d[i] <= B
    ensures KraftFits(A, d, B)
  {
    var M := B + 1;
    ClippedKraft(A, elems, ms, root, d, M, 0);
    NoneDeep(ms, d, M, 0);
    assert Clip(d, M) == d;
    assert Bounded(A, d, B);
    Rescale(A, d, M, B);
  }

  lemma {:induction false} NoneDeep(ms: seq<Merge>, d: seq<nat>, M: nat, i: nat)
    requires i <= |ms| && forall j :: 0 <= j < |d| ==> d[j] < M
    ensures Deep(ms, d, M, i) == 0
    decreases |ms| - i
  {
    if i < |ms| { NoneDeep(ms, d, M, i + 1); }
  }

  /** gen_bitlen */
  method GenBitLen(heap: array<nat>, heapMax: nat, dl: array<nat>, blCount: array<nat>, fc: array<nat>, maxCode: nat,
                   maxLength: nat,
                   stree: seq<nat>, extra: seq<nat>, base: nat, opt0: int, st0: int,
                   ghost A: set<nat>, ghost elems: nat, ghost ms: seq<Merge>, ghost root: nat, ghost d: seq<nat>)
    returns (optLen: int, staticLen: int)
    requires dl != blCount && dl != fc && blCount != fc && heap != dl && heap != blCount
    requires dl.Length == fc.Length == |d| && 1 <= maxLength <= MAX_BITS
    requires TreeOk(A, elems, ms, root, d, maxCode) && ms != [] && blCount.Length == MAX_BITS + 1
    requires |A| <= Pow2(maxLength) && Greedy(A, fc[..], ms)
    requires Kept(heap[..], ms) && heapMax + 1 == heap.Length - 2 * |ms| && heap[heapMax] == root
    requires Dads(dl[..], ms, |ms|)
    modifies dl, blCount
    ensures Lengths(A, maxLength, fc[..], Extras(extra, base, |d|), stree, dl[..], blCount[..], optLen, staticLen, opt0,
                    st0)
    ensures OthersKept(A, elems, old(dl[..]), dl[..])
    ensures Deep(ms, d, maxLength, 0) == 0 ==> forall y {:trigger y in A} :: y in A && y < |d| ==> dl[y] == d[y]
    ensures Ordered(A, fc[..], dl[..])
  {
    var overflow;
    ghost var x := Extras(extra, base, |d|);
    overflow, optLen, staticLen := FirstPass(heap, heapMax, dl, blCount, fc, maxCode, maxLength, stree, extra, base,
                                             opt0, st0, A, elems, ms, root, d);
    PassCuts(A, elems, ms, root, d, maxCode, maxLength, fc[..], x, stree, dl[..], blCount[..], overflow, optLen,
             staticLen, opt0, st0);
    if overflow == 0 {
      DepthsOrdered(A, elems, ms, root, fc[..], d, dl[..]);
      return;
    }
    optLen := Shorten(heap, dl, blCount, fc, maxCode, maxLength, overflow, optLen, staticLen, stree, x, A, elems, ms,
                      root, opt0, st0, d);
  }

  /** What gen_bitlen does after an overflow. */
  method Shorten(heap: array<nat>, dl: array<nat>, blCount: array<nat>, fc: array<nat>, maxCode: nat, maxLength: nat,
                 overflow: nat, opt1: int, ghost st: int,
                 ghost stree: seq<nat>, ghost x: seq<nat>, ghost A: set<nat>, ghost elems: nat, ghost ms: seq<Merge>,
                     ghost root: nat, ghost opt0: int, ghost st0: int, ghost d: seq<nat>)
    returns (optLen: int)
    requires dl != blCount && dl != fc && blCount != fc && heap != dl && heap != blCount && dl.Length == fc.Length
    requires 1 <= maxLength <= MAX_BITS && overflow > 0
    requires Sorted(heap[..], A, elems, ms, root, maxCode, dl.Length) && blCount.Length == MAX_BITS + 1
    requires |A| <= Pow2(maxLength) && Greedy(A, fc[..], ms)
    requires Cut(A, d, maxLength, fc[..], x, stree, dl[..], blCount[..], overflow, overflow / 2, opt1, st, opt0, st0)
    modifies dl, blCount
    ensures Lengths(A, maxLength, fc[..], x, stree, dl[..], blCount[..], optLen, st, opt0, st0)
    ensures OthersKept(A, elems, old(dl[..]), dl[..]) && Ordered(A, fc[..], dl[..])
  {
    Repair(blCount, maxLength, overflow, overflow / 2);
    optLen := SecondPass(heap, dl, blCount, fc, maxCode, maxLength, opt1, x, A, elems, ms, root, opt0);
  }
}
