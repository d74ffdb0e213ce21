/** The fixed codes of inflate: the static trees of the compressor, with the two distance codes added
    that make the distance code complete. */
module FixedCodes {
  import opened Bits
  import opened Canonical
  import opened SubTables
  import opened InflateTable
  import opened Symbols
  import opened CodeGen
  import opened Tokens
  import opened BitReader
  import opened BlockStates
  import opened Decoding
  import opened StaticTrees

  /** 32 distance codes of five bits. */
  function FixedDist(): (l: seq<nat>)
    ensures |l| == 32 && forall d :: 0 <= d < 32 ==> l[d] == 5
  {
    seq(32, _ => 5)
  }

  function FixedLens(): Lens {
    Lens(StaticLit(), FixedDist())
  }

  lemma {:induction false} FixedDistComplete()
    ensures ValidLens(FixedDist()) && Complete(FixedDist())
  {
    var l := FixedDist();
    FiveFirst(l, 5);
    FiveBits(l, |l|, 5);
    assert Pow2(5) == 32;
    forall b: nat | 5 < b <= MAX_BITS ensures NoCode(l, b) { FiveBits(l, |l|, b); }
    forall m: nat | m == MAX_BITS ensures ExhaustedAt(l, m) { ExtendExhausted(l, 5, m); }
  }

  lemma {:induction false} FixedLitComplete()
    ensures ValidLens(StaticLit()) && Complete(StaticLit())
  {
    var bl: seq<nat> := seq(MAX_BITS + 1, b requires 0 <= b <= MAX_BITS => StaticCount(L_CODES + 2, b));
    StaticComplete(bl);
  }

  /** The codes that the compressor's static trees give distances are those of the fixed code. */
  lemma {:induction false} SameDistCode(d: nat)
    requires d < D_CODES
    ensures CodeString(StaticDist(), d) == CodeString(FixedDist(), d)
  {
    var s, f, five := StaticDist(), FixedDist(), 5;
    FiveFirst(s, five);
    FiveFirst(f, five);
    FiveBits(s, d, five);
    FiveBits(f, d, five);
  }

  /** A block with the static trees is a block with the fixed codes. */
  lemma {:induction false} StaticIsFixed(its: seq<Item>)
    requires AllCodable(StaticLit(), StaticDist(), its) && HasCode(StaticLit(), END_BLOCK)
    ensures Encodable(FixedLens(), its)
    ensures BlockBits(StaticLit(), StaticDist(), its) == BlockBits(StaticLit(), FixedDist(), its)
  {
    FixedDistComplete();
    FixedLitComplete();
    CompleteFits(StaticLit());
    CompleteFits(FixedDist());
    SameParts(StaticLit(), StaticDist(), FixedDist(), its);
  }

  lemma {:induction false} SameParts(ll: seq<nat>, s: seq<nat>, f: seq<nat>, its: seq<Item>)
    requires AllCodable(ll, s, its) && s == StaticDist() && f == FixedDist()
    ensures AllCodable(ll, f, its) && Parts(ll, s, its) == Parts(ll, f, its)
  {
    forall i | 0 <= i < |its| ensures CodableAt(ll, f, its, i) { assert CodableAt(ll, s, its, i); }
    forall i | 0 <= i < |its| ensures Parts(ll, s, its)[i] == Parts(ll, f, its)[i] {
      PartAt(ll, s, its, i);
      PartAt(ll, f, its, i);
      if its[i].Pair? { SameDistCode(its[i].d); }
    }
  }

  /** fixedtables */
  method FixedTables() returns (k: Codes)
    ensures Ready(k, FixedLens())
  {
    FixedDistComplete();
    FixedLitComplete();
    CompleteFits(StaticLit());
    CompleteFits(FixedDist());
    var table := new Entry[ENOUGH_LENS + ENOUGH_DISTS](_ => INVALID);
    var ret, used, bits := Build(LENS, StaticLit(), table, 0, 9);
    var lencode := table[0..used];
    var ret2, used2, bits2 := Build(DISTS, FixedDist(), table, used, 5);
    k := Codes(lencode, bits, table[used..used + used2], bits2);
  }
}
