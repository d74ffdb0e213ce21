/** Frequencies of the symbols of a block, and the number of bits that sending it takes. */
module BlockSizes {
  import opened Bits
  import opened Canonical
  import opened Symbols
  import opened Lz77
  import opened Tokens
  import opened Sums
  import opened Huffman
  import opened TreeBuilder
  import opened BitLengths
  import opened DynamicTree
  import opened RunLengths
  import opened BlockOutput

  // ----- plain sums -----

  function SumAll(f: seq<int>, n: nat): int
    requires n <= |f|
  {
    if n == 0 then 0 else SumAll(f, n - 1) + f[n - 1]
  }

  function SumOf(f: seq<int>): int {
    SumAll(f, |f|)
  }

  lemma {:induction false} SumAllUpdate(f: seq<int>, n: nat, i: nat, v: int)
    requires n <= |f| && i < |f|
    ensures SumAll(f[i := v], n) == SumAll(f, n) + if i < n then v - f[i] else 0
  {
    if n != 0 { SumAllUpdate(f, n - 1, i, v); }
  }

  lemma {:induction false} SumAllSame(f: seq<int>, g: seq<int>, n: nat)
    requires n <= |f| && n <= |g| && forall i :: 0 <= i < n ==> f[i] == g[i]
    ensures SumAll(f, n) == SumAll(g, n)
  {
    if n != 0 { SumAllSame(f, g, n - 1); }
  }

  lemma {:induction false} UsedSumTo(fc: seq<nat>, elems: nat, l: seq<nat>, x: seq<nat>, n: nat)
    requires n <= elems <= |fc|
    ensures SumTo(Used(fc, elems), Weighted(fc, l, x), n) == SumAll(Weighted(fc, l, x), n)
  {
    if n != 0 {
      UsedSumTo(fc, elems, l, x, n - 1);
      assert n - 1 !in Used(fc, elems) ==> Times(fc[n - 1], At(l, n - 1) + At(x, n - 1)) == 0;
    }
  }

  /** The symbols that are not used add nothing. */
  lemma {:induction false} UsedSum(fc: seq<nat>, elems: nat, l: seq<nat>, x: seq<nat>)
    requires elems <= |fc|
    ensures Sum(Used(fc, elems), Weighted(fc, l, x)) == SumAll(Weighted(fc, l, x), elems)
  {
    UsedSumTo(fc, elems, l, x, elems);
    NothingBeyond(Used(fc, elems), Weighted(fc, l, x), elems, |fc|);
  }

  /** One more use of symbol s. */
  lemma {:induction false} OneMoreUse(fc: seq<nat>, l: seq<nat>, x: seq<nat>, s: nat)
    requires s < |fc|
    ensures SumOf(Weighted(fc[s := fc[s] + 1], l, x)) == SumOf(Weighted(fc, l, x)) + At(l, s) + At(x, s)
  {
    var f, c := Weighted(fc, l, x), At(l, s) + At(x, s);
    assert Times(fc[s] + 1, c) == Times(fc[s], c) + c;
    assert Weighted(fc[s := fc[s] + 1], l, x) == f[s := Times(fc[s] + 1, c)];
    SumAllUpdate(f, |f|, s, Times(fc[s] + 1, c));
  }

  lemma {:induction false} SumAllZero(f: seq<int>, n: nat)
    requires n <= |f| && forall i :: 0 <= i < n ==> f[i] == 0
    ensures SumAll(f, n) == 0
  {
    if n != 0 { SumAllZero(f, n - 1); }
  }

  // ----- frequencies of items -----

  /** How often each literal/length symbol is sent, the end-of-block code included. */
  function LitFreqs(its: seq<Item>): (f: seq<nat>)
    ensures |f| == L_CODES
  {
    if its == [] then seq(L_CODES, s => if s == END_BLOCK then 1 else 0) else
    var f, s := LitFreqs(its[..|its| - 1]), LeadSymbol(its[|its| - 1]);
    if s < L_CODES then f[s := f[s] + 1] else f
  }

  /** How often each distance symbol is sent. */
  function DistFreqs(its: seq<Item>): (f: seq<nat>)
    ensures |f| == D_CODES
  {
    if its == [] then seq(D_CODES, _ => 0) else
    var f, it := DistFreqs(its[..|its| - 1]), its[|its| - 1];
    if it.Pair? && it.d < D_CODES then f[it.d := f[it.d] + 1] else f
  }

  function LitExtras(): (x: seq<nat>)
    ensures |x| == LENGTH_CODES && forall c :: 0 <= c < LENGTH_CODES ==> x[c] == ExtraLength(c)
  {
    seq(LENGTH_CODES, c requires 0 <= c < LENGTH_CODES => ExtraLength(c))
  }

  function DistExtras(): (x: seq<nat>)
    ensures |x| == D_CODES && forall d :: 0 <= d < D_CODES ==> x[d] == ExtraDist(d)
  {
    seq(D_CODES, d requires 0 <= d < D_CODES => ExtraDist(d))
  }

  /** Extra bits by literal/length symbol. */
  function LitX(): seq<nat> {
    Extras(LitExtras(), 257, L_CODES)
  }

  /** Extra bits by distance symbol. */
  function DistX(): seq<nat> {
    Extras(DistExtras(), 0, D_CODES)
  }

  /** The bits of a block body by its frequencies. */
  function BodySize(ll: seq<nat>, dl: seq<nat>, lf: seq<nat>, df: seq<nat>): int
  {
    SumOf(Weighted(lf, ll, LitX())) + SumOf(Weighted(df, dl, DistX()))
  }

  lemma {:induction false} ItemSize(ll: seq<nat>, dl: seq<nat>, it: Item)
    requires Codable(ll, dl, it)
    ensures LeadSymbol(it) < L_CODES
    ensures |ItemBits(ll, dl, it)| == At(ll, LeadSymbol(it)) + At(LitX(), LeadSymbol(it))
                                      + if it.Lit? then 0 else At(dl, it.d) + At(DistX(), it.d)
  {
  }

  lemma {:induction false} EmptySize(ll: seq<nat>, dl: seq<nat>)
    ensures BodySize(ll, dl, LitFreqs([]), DistFreqs([])) == At(ll, END_BLOCK)
  {
    var f: seq<nat> := seq(L_CODES, _ => 0);
    var xl, xd := LitX(), DistX();
    SumAllZero(Weighted(f, ll, xl), |f|);
    OneMoreUse(f, ll, xl, END_BLOCK);
    assert f[END_BLOCK := f[END_BLOCK] + 1] == LitFreqs([]);
    SumAllZero(Weighted(DistFreqs([]), dl, xd), |DistFreqs([])|);
  }

  /** One more item. */
  lemma {:induction false} SizeStep(ll: seq<nat>, dl: seq<nat>, pre: seq<Item>, it: Item)
    requires Codable(ll, dl, it)
    ensures BodySize(ll, dl, LitFreqs(pre + [it]), DistFreqs(pre + [it]))
            == BodySize(ll, dl, LitFreqs(pre), DistFreqs(pre)) + |ItemBits(ll, dl, it)|
  {
    ItemSize(ll, dl, it);
    FreqStep(pre, it);
    SizeMore(ll, dl, LitFreqs(pre), DistFreqs(pre), LeadSymbol(it), it.Pair?, if it.Pair? then it.d else 0);
  }

  lemma {:induction false} FreqStep(pre: seq<Item>, it: Item)
    requires LeadSymbol(it) < L_CODES && (it.Pair? ==> it.d < D_CODES)
    ensures LitFreqs(pre + [it]) == Bumped(LitFreqs(pre), LeadSymbol(it), true)
    ensures DistFreqs(pre + [it]) == if it.Pair? then Bumped(DistFreqs(pre), it.d, true) else DistFreqs(pre)
  {
    var its := pre + [it];
    assert its[..|its| - 1] == pre && its[|its| - 1] == it;
  }

  function Bumped(f: seq<nat>, s: nat, on: bool): seq<nat>
    requires s < |f|
  {
    if on then f[s := f[s] + 1] else f
  }

  lemma {:induction false} SizeMore(ll: seq<nat>, dl: seq<nat>, lf: seq<nat>, df: seq<nat>, s: nat, pair: bool, d: nat)
    requires s < |lf| && d < |df|
    ensures BodySize(ll, dl, Bumped(lf, s, true), Bumped(df, d, pair)) ==
            BodySize(ll, dl, lf, df) + At(ll, s) + At(LitX(), s) + if pair then At(dl, d) + At(DistX(), d) else 0
  {
    OneMoreUse(lf, ll, LitX(), s);
    OneMoreUse(df, dl, DistX(), d);
  }

  lemma {:induction false} CodablePrefix(ll: seq<nat>, dl: seq<nat>, pre: seq<Item>, it: Item)
    requires AllCodable(ll, dl, pre + [it])
    ensures AllCodable(ll, dl, pre) && Codable(ll, dl, it)
  {
    forall i | 0 <= i < |pre| ensures CodableAt(ll, dl, pre, i) { assert CodableAt(ll, dl, pre + [it], i); }
    assert CodableAt(ll, dl, pre + [it], |pre|);
  }

  /** The bits sent for a block body are the weighted sum of its frequencies. */
  lemma {:induction false} BlockSize(ll: seq<nat>, dl: seq<nat>, its: seq<Item>)
    requires AllCodable(ll, dl, its) && END_BLOCK < |ll|
    ensures |BlockBits(ll, dl, its)| == BodySize(ll, dl, LitFreqs(its), DistFreqs(its))
  {
    if its == [] {
      EmptySize(ll, dl);
    } else {
      var pre, it := its[..|its| - 1], its[|its| - 1];
      assert its == pre + [it];
      CodablePrefix(ll, dl, pre, it);
      BitsSnoc(ll, dl, pre, it);
      BlockSize(ll, dl, pre);
      SizeStep(ll, dl, pre, it);
    }
  }

  // ----- the tree header -----

  function BlExtras(): (x: seq<nat>)
    ensures |x| == BL_CODES && forall c :: 0 <= c < BL_CODES ==> x[c] == ExtraBits(c)
  {
    seq(BL_CODES, c requires 0 <= c < BL_CODES => ExtraBits(c))
  }

  /** How often each run-length code is used. */
  function UseCounts(ops: seq<Op>): (f: seq<nat>)
    ensures |f| == BL_CODES && forall c :: 0 <= c < BL_CODES ==> f[c] == Uses(ops, c)
  {
    seq(BL_CODES, c requires 0 <= c < BL_CODES => Uses(ops, c))
  }

  lemma {:induction false} OpsSize(bl: seq<nat>, ops: seq<Op>)
    requires OpsCodable(bl, ops)
    ensures |OpsBits(bl, ops)| == SumOf(Weighted(UseCounts(ops), bl, BlExtras()))
  {
    if ops == [] {
      SumAllZero(Weighted(UseCounts(ops), bl, BlExtras()), |UseCounts(ops)|);
    } else {
      CodableRest(bl, ops);
      OpsSize(bl, ops[1..]);
      UseFirst(ops);
      OneMoreOp(bl, ops, UseCounts(ops[1..]), BlExtras(), Code(ops[0]));
    }
  }

  lemma {:induction false} OneMoreOp(bl: seq<nat>, ops: seq<Op>, u: seq<nat>, x: seq<nat>, c: nat)
    requires ops != [] && OpCodable(bl, ops[0]) && c < |u| && |OpsBits(bl, ops[1..])| == SumOf(Weighted(u, bl, x))
    requires |OpBits(bl, ops[0])| == At(bl, c) + At(x, c)
    ensures |OpsBits(bl, ops)| == SumOf(Weighted(u[c := u[c] + 1], bl, x))
  {
    OneMoreUse(u, bl, x, c);
  }

  lemma {:induction false} CodableRest(bl: seq<nat>, ops: seq<Op>)
    requires OpsCodable(bl, ops) && ops != []
    ensures OpsCodable(bl, ops[1..]) && Code(ops[0]) < BL_CODES
    ensures |OpBits(bl, ops[0])| == At(bl, Code(ops[0])) + At(BlExtras(), Code(ops[0]))
  {
    assert OpCodable(bl, ops[0]);
  }

  lemma {:induction false} UseFirst(ops: seq<Op>)
    requires ops != [] && Code(ops[0]) < BL_CODES
    ensures UseCounts(ops) == UseCounts(ops[1..])[Code(ops[0]) := UseCounts(ops[1..])[Code(ops[0])] + 1]
  {
  }
}
