/** Length and distance symbols of the deflate format (section 3.2.5 of RFC 1951):
    the tables that tr_static_init fills and the symbols compress_block sends. */
module Symbols {
  import opened Bits
  import opened InflateTable

  const LENGTH_CODES := 29
  const D_CODES := 30

  /** extra_lbits */
  function ExtraLength(c: nat): nat {
    if c < 8 then 0 else if c < 28 then (c - 4) / 4 else 0
  }

  /** extra_dbits */
  function ExtraDist(c: nat): nat {
    if c < 4 then 0 else (c - 2) / 2
  }

  /** Base and extra bits of the length codes from 257 on, as section 3.2.5 of RFC 1951 lists them. */
  const LENGTHS: seq<nat> := [3, 4, 5, 6, 7, 8, 9, 10, 11, 13, 15, 17, 19, 23, 27, 31, 35, 43, 51, 59, 67, 83, 99, 115,
    131, 163, 195, 227, 258]
  const LENGTH_BITS: seq<nat> := [0, 0, 0, 0, 0, 0, 0, 0, 1, 1, 1, 1, 2, 2, 2, 2, 3, 3, 3, 3, 4, 4, 4, 4, 5, 5, 5, 5, 0]

  /** The same of the distance codes. */
  const DISTS_FROM: seq<nat> := [1, 2, 3, 4, 5, 7, 9, 13, 17, 25, 33, 49, 65, 97, 129, 193, 257, 385, 513, 769, 1025,
                                 1537,
    2049, 3073, 4097, 6145, 8193, 12289, 16385, 24577]
  const DIST_BITS: seq<nat> := [0, 0, 0, 0, 1, 1, 2, 2, 3, 3, 4, 4, 5, 5, 6, 6, 7, 7, 8, 8, 9, 9, 10, 10, 11, 11, 12,
                                12,
    13, 13]

  /** What the functions compute is what the lists say. */
  lemma {:induction false} LengthList(c: nat)
    requires c < LENGTH_CODES
    ensures |LENGTHS| == |LENGTH_BITS| == LENGTH_CODES && LengthBase(c) == LENGTHS[c]
    ensures ExtraLength(c) == LENGTH_BITS[c]
  {
  }

  lemma {:induction false} DistList(c: nat)
    requires c < D_CODES
    ensures |DISTS_FROM| == |DIST_BITS| == D_CODES && DistBase(c) == DISTS_FROM[c] && ExtraDist(c) == DIST_BITS[c]
  {
  }

  lemma {:induction false} LengthStep(c: nat)
    requires c < 28
    ensures LengthOp(c) == 16 + ExtraLength(c)
    ensures LengthBase(c) + Pow2(ExtraLength(c)) == if c < 27 then LengthBase(c + 1) else 259
  {
    SmallPowers();
  }

  lemma {:induction false} DistStep(c: nat)
    requires c < 30
    ensures DistOp(c) == 16 + ExtraDist(c)
    ensures DistBase(c) + Pow2(ExtraDist(c)) == if c < 29 then DistBase(c + 1) else 32769
  {
    SmallPowers();
  }

  /** The length code, less 257, of a match length less 3. */
  function LengthCode(lc: nat): nat {
    if lc == 255 then 28 else if lc < 8 then lc else if lc < 16 then 8 + (lc - 8) / 2
    else if lc < 32 then 12 + (lc - 16) / 4 else if lc < 64 then 16 + (lc - 32) / 8
    else if lc < 128 then 20 + (lc - 64) / 16 else 24 + (lc - 128) / 32
  }

  /** The distance code of a distance less 1. */
  function DistCode(d: nat): nat {
    if d < 4 then d else if d < 8 then 4 + (d - 4) / 2 else if d < 16 then 6 + (d - 8) / 4
    else if d < 32 then 8 + (d - 16) / 8 else if d < 64 then 10 + (d - 32) / 16
    else if d < 128 then 12 + (d - 64) / 32 else if d < 256 then 14 + (d - 128) / 64
    else if d < 512 then 16 + (d - 256) / 128 else if d < 1024 then 18 + (d - 512) / 256
    else if d < 2048 then 20 + (d - 1024) / 512 else if d < 4096 then 22 + (d - 2048) / 1024
    else if d < 8192 then 24 + (d - 4096) / 2048 else if d < 16384 then 26 + (d - 8192) / 4096
    else 28 + (d - 16384) / 8192
  }

  /** A code and its extra bits cover exactly the lengths from its base on. */
  lemma {:induction false} LengthCodeCovers(lc: nat)
    requires lc < 255
    ensures var c := LengthCode(lc);
            c < 28 && LengthBase(c) <= lc + 3 < LengthBase(c) + Pow2(ExtraLength(c))
  {
    SmallPowers();
  }

  lemma {:induction false} DistCodeCovers(d: nat)
    requires d < 32768
    ensures var c := DistCode(d);
            c < 30 && DistBase(c) <= d + 1 < DistBase(c) + Pow2(ExtraDist(c))
  {
    if d < 256 {
      NearCovers(d);
    } else {
      FarCovers(d);
    }
  }

  lemma {:induction false} NearCovers(d: nat)
    requires d < 256
    ensures var c := DistCode(d);
            c < 16 && DistBase(c) <= d + 1 < DistBase(c) + Pow2(ExtraDist(c))
  {
    SmallPowers();
  }

  lemma {:induction false} FarCovers(d: nat)
    requires 256 <= d < 32768
    ensures var c := DistCode(d);
            16 <= c < 30 && DistBase(c) <= d + 1 < DistBase(c) + Pow2(ExtraDist(c))
  {
    SmallPowers();
  }

  /** Converse: a number in the range of a code has that code. */
  lemma {:induction false} LengthCodeUnique(lc: nat, c: nat)
    requires c < 28 && LengthBase(c) <= lc + 3 < LengthBase(c) + Pow2(ExtraLength(c)) && lc < 255
    ensures LengthCode(lc) == c
  {
    SmallPowers();
  }

  lemma {:induction false} DistCodeUnique(d: nat, c: nat)
    requires c < 30 && DistBase(c) <= d + 1 < DistBase(c) + Pow2(ExtraDist(c))
    ensures DistCode(d) == c
  {
    SmallPowers();
    if c < 16 {
      NearCode(d, c);
    } else {
      FarCode(d, c);
    }
  }

  lemma {:induction false} NearCode(d: nat, c: nat)
    requires c < 16 && DistBase(c) <= d + 1 < DistBase(c) + Pow2(ExtraDist(c))
    ensures d < 256 && DistCode(d) == c
  {
    SmallPowers();
  }

  lemma {:induction false} FarCode(d: nat, c: nat)
    requires 16 <= c < 30 && DistBase(c) <= d + 1 < DistBase(c) + Pow2(ExtraDist(c))
    ensures 256 <= d < 32768 && DistCode(d) == c
  {
    SmallPowers();
  }

  // ----- tr_static_init -----

  /** Fills _length_code and base_length. */
  method LengthTables() returns (lengthCode: seq<nat>, baseLength: seq<nat>)
    ensures |lengthCode| == 256 && forall lc :: 0 <= lc < 256 ==> lengthCode[lc] == LengthCode(lc)
    ensures |baseLength| == LENGTH_CODES && forall c :: 0 <= c < 28 ==> baseLength[c] == LengthBase(c) - 3
  {
    lengthCode, baseLength := [], [];
    var code: nat := 0;
    while code < LENGTH_CODES - 1
      invariant code <= 28 && |baseLength| == code
      invariant |lengthCode| == (if code < 28 then LengthBase(code) else 259) - 3
      invariant forall c :: 0 <= c < code ==> baseLength[c] == LengthBase(c) - 3
      invariant forall lc :: 0 <= lc < |lengthCode| && lc < 255 ==> lengthCode[lc] == LengthCode(lc)
    {
      LengthStep(code);
      baseLength := baseLength + [|lengthCode|];
      ghost var start := |lengthCode|;
      for n := 0 to Pow2(ExtraLength(code))
        invariant |lengthCode| == start + n
        invariant forall lc :: 0 <= lc < |lengthCode| && lc < 255 ==> lengthCode[lc] == LengthCode(lc)
      {
        if start + n < 255 { LengthCodeUnique(start + n, code); }
        lengthCode := lengthCode + [code];
      }
      code := code + 1;
    }
    lengthCode := lengthCode[255 := code];
    baseLength := baseLength + [0];
  }

  /** d_code: the code of a distance less 1, from the table _dist_code. */
  function TableDistCode(distCode: seq<nat>, d: nat): nat
    requires |distCode| == 512 && d < 32768
  {
    if d < 256 then distCode[d] else distCode[256 + d / 128]
  }

  /** Fills _dist_code and base_dist. */
  method DistTables() returns (distCode: seq<nat>, baseDist: seq<nat>)
    ensures |distCode| == 512 && forall d :: 0 <= d < 32768 ==> TableDistCode(distCode, d) == DistCode(d)
    ensures |baseDist| == D_CODES && forall c :: 0 <= c < D_CODES ==> baseDist[c] == DistBase(c) - 1
  {
    var near;
    near, baseDist := NearTable();
    var far;
    far, baseDist := FarTable(baseDist);
    distCode := near + [0, 0] + far;   // entries 256 and 257 are never used
    forall d | 0 <= d < 32768
      ensures TableDistCode(distCode, d) == DistCode(d)
    {
      if d >= 256 {
        assert distCode[256 + d / 128] == far[d / 128 - 2];
      }
    }
  }

  /** The codes of the distances up to 256. */
  method NearTable() returns (near: seq<nat>, baseDist: seq<nat>)
    ensures |near| == 256 && forall d :: 0 <= d < 256 ==> near[d] == DistCode(d)
    ensures |baseDist| == 16 && forall c :: 0 <= c < 16 ==> baseDist[c] == DistBase(c) - 1
  {
    near, baseDist := [], [];
    var code: nat := 0;
    while code < 16
      invariant code <= 16 && |baseDist| == code && |near| == DistBase(code) - 1
      invariant forall c :: 0 <= c < code ==> baseDist[c] == DistBase(c) - 1
      invariant forall d :: 0 <= d < |near| ==> near[d] == DistCode(d)
    {
      DistStep(code);
      baseDist := baseDist + [|near|];
      near := NearRun(near, code);
      code := code + 1;
    }
  }

  /** The distances of one code. */
  method NearRun(near0: seq<nat>, code: nat) returns (near: seq<nat>)
    requires code < 16 && |near0| == DistBase(code) - 1 && forall d :: 0 <= d < |near0| ==> near0[d] == DistCode(d)
    ensures |near| == |near0| + Pow2(ExtraDist(code)) && forall d :: 0 <= d < |near| ==> near[d] == DistCode(d)
  {
    near := near0;
    for n := 0 to Pow2(ExtraDist(code))
      invariant |near| == |near0| + n
      invariant forall d :: 0 <= d < |near| ==> near[d] == DistCode(d)
    {
      DistCodeUnique(|near0| + n, code);
      near := near + [code];
    }
  }

  /** The codes of the longer distances, one for every 128 of them. */
  method FarTable(near: seq<nat>) returns (far: seq<nat>, baseDist: seq<nat>)
    requires |near| == 16 && forall c :: 0 <= c < 16 ==> near[c] == DistBase(c) - 1
    ensures |far| == 254 && forall d :: 256 <= d < 32768 ==> far[d / 128 - 2] == DistCode(d)
    ensures |baseDist| == D_CODES && forall c :: 0 <= c < D_CODES ==> baseDist[c] == DistBase(c) - 1
  {
    far, baseDist := [], near;
    var dist: nat, code: nat := 2, 16;   // all distances are divided by 128 from here on
    while code < D_CODES
      invariant 16 <= code <= D_CODES && |baseDist| == code
      invariant 128 * dist == (if code < 30 then DistBase(code) else 32769) - 1 && |far| == dist - 2
      invariant forall c :: 0 <= c < code ==> baseDist[c] == DistBase(c) - 1
      invariant forall d :: 256 <= d < 128 * dist ==> far[d / 128 - 2] == DistCode(d)
    {
      DistStep(code);
      baseDist := baseDist + [128 * dist];
      ghost var start := dist;
      FarBlocks(code);
      for n := 0 to Pow2(ExtraDist(code) - 7)
        invariant dist == start + n && |far| == dist - 2
        invariant forall d :: 256 <= d < 128 * dist ==> far[d / 128 - 2] == DistCode(d)
      {
        forall d | 128 * dist <= d < 128 * dist + 128
          ensures DistCode(d) == code && d / 128 == dist
        {
          DistCodeUnique(d, code);
        }
        far := far + [code];
        dist := dist + 1;
      }
      code := code + 1;
    }
  }

  lemma {:induction false} FarBlocks(code: nat)
    requires 16 <= code < 30
    ensures ExtraDist(code) >= 7 && Pow2(ExtraDist(code)) == 128 * Pow2(ExtraDist(code) - 7)
  {
    SmallPowers();
  }
}
