/** The static trees: their lengths and codes as tr_static_init makes them. */
module StaticTrees {
  import opened Bits
  import opened Canonical
  import opened CodeGen
  import opened Symbols
  import opened Tokens
  import opened BitLengths
  import opened DynamicTree

  /** Length of literal/length symbol n. */
  function StaticLen(n: nat): nat {
    if n <= 143 then 8 else if n <= 255 then 9 else if n <= 279 then 7 else 8
  }

  /** Lengths of the static literal/length tree. */
  function StaticLit(): (l: seq<nat>)
    ensures |l| == L_CODES + 2 && forall n :: 0 <= n < L_CODES + 2 ==> l[n] == StaticLen(n)
  {
    seq(L_CODES + 2, n requires 0 <= n < L_CODES + 2 => StaticLen(n))
  }

  /** Lengths of the static distance tree. */
  function StaticDist(): (l: seq<nat>)
    ensures |l| == D_CODES && forall d :: 0 <= d < D_CODES ==> l[d] == 5
  {
    seq(D_CODES, _ => 5)
  }

  /** How many of the first n lengths are b. */
  function StaticCount(n: nat, b: nat): nat {
    if b == 8 then (if n <= 144 then n else if n <= 280 then 144 else 144 + n - 280)
    else if b == 9 then (if n <= 144 then 0 else if n <= 256 then n - 144 else 112)
    else if b == 7 then (if n <= 256 then 0 else if n <= 280 then n - 256 else 24)
    else 0
  }

  lemma {:induction false} CountStatic(l: seq<nat>, n: nat, b: nat)
    requires l == StaticLit() && n <= |l|
    ensures Cnt(l, n, b) == StaticCount(n, b)
  {
    if n != 0 { CountStatic(l, n - 1, b); }
  }

  ghost predicate StaticCounts(bl: seq<nat>, n: nat) {
    |bl| == MAX_BITS + 1 && forall b :: 0 <= b <= MAX_BITS ==> bl[b] == StaticCount(n, b)
  }

  /** The static code is complete. */
  lemma {:induction false} StaticComplete(bl: seq<nat>)
    requires StaticCounts(bl, L_CODES + 2)
    ensures CountsOf(StaticLit(), bl) && ValidLens(StaticLit()) && Complete(StaticLit())
  {
    var l := StaticLit();
    forall b | 1 <= b <= MAX_BITS ensures CountAt(l, bl, b) { CountStatic(l, |l|, b); }
    StaticKraft(bl);
    KraftComplete(l, bl, 9);
  }

  lemma {:induction false} StaticKraft(bl: seq<nat>)
    requires StaticCounts(bl, L_CODES + 2)
    ensures Fixed(bl, 9) && CountKraft(bl, 9) == Pow2(9)
  {
    NoneShorter(bl, 6);
    assert CountKraft(bl, 7) == 24 && CountKraft(bl, 8) == 200 && CountKraft(bl, 9) == 512;
    SmallPowers();
  }

  /** The static literal/length tree: four runs of lengths, then gen_codes. */
  method StaticLitTree() returns (tree: Tree)
    ensures tree.lens == StaticLit() && Coded(tree) && Complete(tree.lens)
  {
    var lens: seq<nat>, blCount: seq<nat> := [], seq(MAX_BITS + 1, _ => 0);
    var n := 0;
    while n <= L_CODES + 1
      invariant n <= L_CODES + 2 && |lens| == n && (forall i :: 0 <= i < n ==> lens[i] == StaticLen(i))
      invariant StaticCounts(blCount, n)
    {
      var b := StaticLen(n);
      lens, blCount := lens + [b], blCount[b := blCount[b] + 1];
      n := n + 1;
    }
    assert lens == StaticLit();
    StaticComplete(blCount);
    CompleteFits(lens);
    var fc := new nat[L_CODES + 2](_ => 0);
    GenCodes(fc, lens, blCount);
    tree := Tree(fc[..], lens);
  }

  lemma {:induction false} FiveBits(l: seq<nat>, n: nat, b: nat)
    requires n <= |l| && forall d :: 0 <= d < |l| ==> l[d] == 5
    ensures Cnt(l, n, b) == if b == 5 then n else 0
  {
    if n != 0 { FiveBits(l, n - 1, b); }
  }

  lemma {:induction false} FiveFirst(l: seq<nat>, b: nat)
    requires b <= 5 && forall d :: 0 <= d < |l| ==> l[d] == 5
    ensures First(l, b) == 0
  {
    if b > 1 {
      FiveFirst(l, b - 1);
      FiveBits(l, |l|, b - 1);
    }
  }

  /** The static distance tree: all codes have five bits. */
  method StaticDistTree() returns (tree: Tree)
    ensures tree.lens == StaticDist() && Coded(tree)
  {
    var lens := StaticDist();
    var codes: seq<nat>, len := [], 5;
    for n := 0 to D_CODES
      invariant |codes| == n
      invariant forall k {:trigger CodeSet(lens, codes[k], k)} :: 0 <= k < n ==> CodeSet(lens, codes[k], k)
    {
      var c := BiReverse(n, len);
      FiveBits(lens, n, len);
      FiveFirst(lens, len);
      assert CodeSet(lens, c, n);
      codes := codes + [c];
    }
    tree := Tree(codes, lens);
  }
}
