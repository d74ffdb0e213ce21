/** Streams of known bytes: one block of each type, and the data it stands for. */
module FormatExamples {
  import opened Bits
  import opened Options
  import opened Canonical
  import opened SubTables
  import opened InflateTable
  import opened Symbols
  import opened Lz77
  import opened CodeGen
  import opened Tokens
  import opened Decoding
  import opened RunLengths
  import opened BitLengths
  import opened DynamicTree
  import opened StaticTrees
  import opened Blocks
  import opened BlockStates
  import opened BlockHeaders
  import opened BlockEncoder
  import opened BlockRoundTrip
  import opened FixedCodes
  import opened Streams
  import opened InflateStream
  import opened Acceptance
  import CrcCheck

  // ----- bit strings cut into fields -----

  /** Fields of k bits that hold the number x, least significant bit first. */
  datatype Cuts = End | Cut(x: nat, k: nat, more: Cuts)

  /** The bits one by one. */
  datatype Row = Nil | Bit(b: bool, more: Row)

  function FieldBits(c: Cuts): seq<bool> {
    match c case End => [] case Cut(x, k, more) => Unpack(x, k) + FieldBits(more)
  }

  function RowBits(r: Row): seq<bool> {
    match r case Nil => [] case Bit(b, more) => [b] + RowBits(more)
  }

  /** A field in front of a row. */
  function Put(x: nat, k: nat, r: Row): Row
    decreases k
  {
    if k == 0 then r else Bit(x % 2 == 1, Put(x / 2, k - 1, r))
  }

  function PutAll(c: Cuts, r: Row): Row
    decreases c
  {
    match c case End => r case Cut(x, k, more) => Put(x, k, PutAll(more, r))
  }

  lemma {:induction false} PutBits(x: nat, k: nat, r: Row)
    ensures RowBits(Put(x, k, r)) == Unpack(x, k) + RowBits(r)
    decreases k
  {
    if k == 0 {
      assert [] + RowBits(r) == RowBits(r);
    } else {
      PutBits(x / 2, k - 1, r);
      Assoc([x % 2 == 1], Unpack(x / 2, k - 1), RowBits(r));
    }
  }

  lemma {:induction false} PutAllBits(c: Cuts, r: Row)
    ensures RowBits(PutAll(c, r)) == FieldBits(c) + RowBits(r)
    decreases c
  {
    if c.End? {
      assert [] + RowBits(r) == RowBits(r);
    } else {
      PutAllBits(c.more, r);
      PutBits(c.x, c.k, PutAll(c.more, r));
      Assoc(Unpack(c.x, c.k), FieldBits(c.more), RowBits(r));
    }
  }

  lemma {:induction false} LastField(x: nat, k: nat)
    ensures FieldBits(Cut(x, k, End)) == Unpack(x, k)
  {
    assert Unpack(x, k) + [] == Unpack(x, k);
  }

  lemma {:induction false} Regroup(a: seq<bool>, b: seq<bool>, c: seq<bool>, d: seq<bool>)
    ensures (a + b) + (c + d) == (a + (b + c)) + d
  {
  }

  /** When s is some fields followed by t, and t followed by u a row, then s followed by u is these fields and the row.
      */
  lemma {:induction false} Before(s: seq<bool>, c: Cuts, t: seq<bool>, u: seq<bool>, r: Row)
    requires s == FieldBits(c) + t && t + u == RowBits(r)
    ensures s + u == RowBits(PutAll(c, r))
  {
    PutAllBits(c, r);
    Assoc(FieldBits(c), t, u);
  }

  /** The fields of eight bits are the bytes from i up to j. */
  predicate Spells(c: Cuts, bytes: seq<byte>, i: nat, j: nat)
    decreases c
  {
    match c
    case End => i == j
    case Cut(x, k, more) => i < j && i < |bytes| && x == bytes[i] && k == 8 && Spells(more, bytes, i + 1, j)
  }

  lemma {:induction false} BytesFrom(c: Cuts, bytes: seq<byte>, i: nat, j: nat, r: Row)
    requires i <= j <= |bytes| && Spells(c, bytes, i, j) && Stream(bytes[j..]) == RowBits(r)
    ensures Stream(bytes[i..]) == RowBits(PutAll(c, r))
    decreases c
  {
    if c.Cut? {
      BytesFrom(c.more, bytes, i + 1, j, r);
      assert bytes[i..] == [bytes[i]] + bytes[i + 1..];
      StreamConcat([bytes[i]], bytes[i + 1..]);
      StreamSnoc([], bytes[i]);
      assert [] + [bytes[i]] == [bytes[i]];
      assert [] + ByteBits(bytes[i]) == ByteBits(bytes[i]);
      PutBits(c.x, c.k, PutAll(c.more, r));
    }
  }

  /** The low n bits of c in reverse order. */
  function Rev(c: nat, n: nat): nat {
    if n == 0 then 0 else Rev(c / 2, n - 1) + if c % 2 == 1 then Pow2(n - 1) else 0
  }

  /** A code, sent with its most significant bit first, as a field. */
  lemma {:induction false} Mirror(c: nat, n: nat)
    ensures Big(c, n) == Unpack(Rev(c, n), n) && Rev(c, n) < Pow2(n)
  {
    if n != 0 {
      Mirror(c / 2, n - 1);
      var v, b: nat := Rev(c / 2, n - 1), c % 2;
      ShlOne(n - 1);
      ShlNone(n - 1);
      UnpackAppend(v, n - 1, b, 1);
      assert Unpack(b, 1) == [b == 1];
    }
  }

  lemma {:induction false} ShlNone(n: nat)
    ensures Shl(0, n) == 0
  {
    if n != 0 { ShlNone(n - 1); }
  }

  /** A stream of one block. */
  lemma {:induction false} OneBlock(x: Piece, bits: seq<bool>, after: seq<bool>)
    requires Sound([], x, FAR) && x.last && bits == PieceBits(0, x) + after
    ensures BeginsWith(bits, HistoryAfter([], x), FAR)
  {
    var pos: nat := 0;
    var f := TheLayout();
    var xs := [x];
    assert LaysOut(f, pos, x);
    assert xs[1..] == [];
    assert Laid(f, pos + |f(pos, x)|, []) == [];
    assert Laid(f, pos, xs) == f(pos, x) + [];
    assert HistoryAfterAll([], xs, FAR) == HistoryAfter([], x);
    assert Begins(f, xs, after, bits, HistoryAfter([], x), FAR);
  }

  // ----- a stored block -----

  /** A word is two bytes, the low one first. */
  lemma {:induction false} WordFields(v: nat, lo: nat, hi: nat)
    requires v == lo + 256 * hi && lo < 256 && hi < 256
    ensures Word(v) == FieldBits(Cut(lo, 8, Cut(hi, 8, End)))
  {
    var n: nat, m: nat := 8, 16;
    assert Pow2(8) == 256;
    CrcCheck.ShlIs(hi, 8);
    UnpackAppend(lo, n, hi, n);
    assert Word(v) == Unpack(v, m);
    LastField(hi, n);
  }

  /** The five bits after the type of a stored block at the beginning. */
  lemma {:induction false} PadField()
    ensures PadBits(0, 3) == FieldBits(Cut(0, 5, End))
  {
    var five: nat := 5;
    assert PadBits(0, 3) == Unpack(0, five);
    LastField(0, five);
  }

  /** The fields of the stored block of the one byte "a". */
  function StoredRow(): Row {
    Put(1, 3, PutAll(Cut(0, 5, End), PutAll(Cut(1, 8, Cut(0, 8, End)), PutAll(Cut(0xfe, 8, Cut(0xff, 8, End)),
    PutAll(Cut(97, 8, End), Nil)))))
  }

  lemma {:induction false} StoredFields(x: Piece, data: seq<byte>)
    requires x == Piece(StoredBlock(data), true, [], 0, []) && data == [97]
    ensures PieceBits(0, x) == RowBits(StoredRow())
  {
    BytesFrom(Cut(97, 8, End), data, 0, 1, Nil);
    assert data[0..] == data && data[1..] == [];
    var r0 := PutAll(Cut(97, 8, End), Nil);
    var r1 := PutAll(Cut(0xfe, 8, Cut(0xff, 8, End)), r0);
    var r2 := PutAll(Cut(1, 8, Cut(0, 8, End)), r1);
    WordFields(0xfffe, 0xfe, 0xff);
    PutAllBits(Cut(0xfe, 8, Cut(0xff, 8, End)), r0);
    WordFields(1, 1, 0);
    PutAllBits(Cut(1, 8, Cut(0, 8, End)), r1);
    PadField();
    PutAllBits(Cut(0, 5, End), r2);
    PutBits(1, 3, PutAll(Cut(0, 5, End), r2));
  }

  lemma {:induction false} StoredBytes(bytes: seq<byte>)
    requires bytes == [0x01, 0x01, 0x00, 0xfe, 0xff, 0x61]
    ensures Stream(bytes) == RowBits(StoredRow())
  {
    BytesFrom(Cut(0x01, 8, Cut(0x01, 8, Cut(0x00, 8, Cut(0xfe, 8, Cut(0xff, 8, Cut(0x61, 8, End)))))), bytes, 0, 6,
              Nil);
    assert bytes[0..] == bytes && bytes[6..] == [];
  }

  /** 01 01 00 fe ff 61: the last block, stored, of the one byte "a". */
  lemma {:induction false} StoredExample(bytes: seq<byte>, data: seq<byte>)
    requires bytes == [0x01, 0x01, 0x00, 0xfe, 0xff, 0x61] && data == [97]
    ensures BeginsWith(Stream(bytes), data, FAR)
  {
    var x := Piece(StoredBlock(data), true, [], 0, []);
    StoredFields(x, data);
    StoredBytes(bytes);
    assert PieceBits(0, x) + [] == PieceBits(0, x);
    assert [] + data == data;
    OneBlock(x, Stream(bytes), []);
  }

  // ----- a block with dynamic codes -----

  /** The codes of the example: "a" has one bit, the end of the block and the lengths from 19 to 22 two bits each. */
  function LitLens(): (l: seq<nat>)
    ensures |l| == 270
    ensures forall n :: 0 <= n < 270 ==> l[n] == if n == 97 then 1 else if n == 256 || n == 269 then 2 else 0
  {
    seq(270, n requires 0 <= n < 270 => if n == 97 then 1 else if n == 256 || n == 269 then 2 else 0)
  }

  /** Distance 1 and the distances 5 and 6 have one bit each. */
  function DistLens(): seq<nat> {
    [1, 0, 0, 0, 1]
  }

  /** The run-length codes of these lengths. */
  function LensOps(): seq<Op> {
    [ManyZeros(97), One(1), ManyZeros(138), ManyZeros(20), One(2), Zeros(9), Again(3), One(2), One(1), Zeros(3), One(1)]
  }

  /** Lengths of the code length code: two bits for 1, 2 and 18, three for 16 and 17. */
  function CodeLens(): (l: seq<nat>)
    ensures |l| == BL_CODES
    ensures forall c :: 0 <= c < BL_CODES ==>
              l[c] == if c == 1 || c == 2 || c == 18 then 2 else if c == 16 || c == 17 then 3 else 0
  {
    seq(BL_CODES, c requires 0 <= c < BL_CODES =>
      if c == 1 || c == 2 || c == 18 then 2 else if c == 16 || c == 17 then 3 else 0)
  }

  /** Symbols of other lengths do not count. */
  lemma {:induction false} CntGap(lens: seq<nat>, m: nat, n: nat, b: nat)
    requires m <= n <= |lens| && forall i :: m <= i < n ==> lens[i] != b
    ensures Cnt(lens, n, b) == Cnt(lens, m, b)
  {
    if m < n { CntGap(lens, m, n - 1, b); }
  }

  lemma {:induction false} UsedUp(lens: seq<nat>, b: nat)
    requires 1 <= b <= MAX_BITS && ExhaustedAt(lens, b) && forall i :: 0 <= i < |lens| ==> lens[i] <= b
    ensures Complete(lens) && Usable(lens)
  {
    forall c: nat | b < c <= MAX_BITS ensures NoCode(lens, c) { CntGap(lens, 0, |lens|, c); }
    forall m: nat | m == MAX_BITS ensures ExhaustedAt(lens, m) { ExtendExhausted(lens, b, m); }
    CompleteFits(lens);
  }

  lemma {:induction false} LitCounts(l: seq<nat>, one: nat, two: nat)
    requires l == LitLens() && one == 1 && two == 2
    ensures Total(l, one) == 1 && Total(l, two) == 2
    ensures Cnt(l, 97, one) == 0 && Cnt(l, 256, two) == 0 && Cnt(l, 269, two) == 1
  {
    CntGap(l, 0, 97, one);
    CntGap(l, 98, 270, one);
    CntGap(l, 0, 256, two);
    CntGap(l, 257, 269, two);
  }

  lemma {:induction false} LitCodes(l: seq<nat>)
    requires l == LitLens()
    ensures Complete(l) && Usable(l)
    ensures CodeString(l, 97) == Unpack(0, 1) && CodeString(l, 256) == Unpack(1, 2)
    ensures CodeString(l, 269) == Unpack(3, 2)
  {
    var one: nat, two: nat := 1, 2;
    LitCounts(l, one, two);
    assert First(l, two) == 2;
    assert Pow2(two) == 4;
    UsedUp(l, two);
    Mirror(0, one);
    Mirror(2, two);
    Mirror(3, two);
    assert Rev(0, 1) == 0 && Rev(2, 2) == 1 && Rev(3, 2) == 3;
  }

  lemma {:induction false} DistCodes(l: seq<nat>)
    requires l == DistLens()
    ensures Complete(l) && Usable(l) && CodeString(l, 4) == Unpack(1, 1)
  {
    var one: nat := 1;
    CntGap(l, 1, 4, one);
    assert Cnt(l, 1, one) == 1 && Total(l, one) == 2;
    assert Pow2(one) == 2;
    UsedUp(l, one);
    assert Big(1, 1) == Unpack(1, 1);
  }

  /** The code of c in the code length code of the example, read with its first bit as the lowest one. */
  function Reversed(c: nat): nat {
    if c == 2 then 2 else if c == 18 then 1 else if c == 16 then 3 else if c == 17 then 7 else 0
  }

  lemma {:induction false} LenCounts(l: seq<nat>, one: nat, two: nat, three: nat)
    requires l == CodeLens() && one == 1 && two == 2 && three == 3
    ensures Total(l, one) == 0 && Total(l, two) == 3 && Total(l, three) == 2
    ensures Cnt(l, 1, two) == 0 && Cnt(l, 2, two) == 1 && Cnt(l, 18, two) == 2
    ensures Cnt(l, 16, three) == 0 && Cnt(l, 17, three) == 1
  {
    CntGap(l, 0, 19, one);
    CntGap(l, 0, 1, two);
    CntGap(l, 3, 18, two);
    CntGap(l, 0, 16, three);
    CntGap(l, 18, 19, three);
  }

  lemma {:induction false} LenCodes(l: seq<nat>, one: nat, two: nat, three: nat)
    requires l == CodeLens() && one == 1 && two == 2 && three == 3
    ensures Complete(l) && Usable(l) && First(l, two) == 0 && First(l, three) == 6
  {
    LenCounts(l, one, two, three);
    assert First(l, one) == 0;
    assert Pow2(three) == 8;
    UsedUp(l, three);
  }

  lemma {:induction false} LenCode(l: seq<nat>, c: nat)
    requires l == CodeLens() && c < BL_CODES && l[c] != 0
    ensures CodeString(l, c) == Unpack(Reversed(c), l[c])
  {
    var one: nat, two: nat, three: nat := 1, 2, 3;
    LenCounts(l, one, two, three);
    LenCodes(l, one, two, three);
    Mirror(First(l, l[c]) + Cnt(l, c, l[c]), l[c]);
    assert Rev(0, 2) == 0 && Rev(1, 2) == 2 && Rev(2, 2) == 1 && Rev(6, 3) == 3 && Rev(7, 3) == 7;
  }

  /** The fields are the run-length codes from i up to j, each a code and extra bits. */
  predicate SpellOps(c: Cuts, ops: seq<Op>, i: nat, j: nat)
    decreases c
  {
    if c.End? then i == j else
    && c.more.Cut? && i < j && i < |ops| && Code(ops[i]) < BL_CODES && c.x == Reversed(Code(ops[i]))
    && c.k == CodeLens()[Code(ops[i])] != 0 && c.more.x == ExtraValue(ops[i]) && c.more.k == ExtraBits(Code(ops[i]))
    && SpellOps(c.more.more, ops, i + 1, j)
  }

  lemma {:induction false} OpsFrom(c: Cuts, bl: seq<nat>, ops: seq<Op>, i: nat, j: nat)
    requires bl == CodeLens() && i <= j <= |ops| && SpellOps(c, ops, i, j)
    ensures OpsBits(bl, ops[i..]) == FieldBits(c) + OpsBits(bl, ops[j..])
    decreases c
  {
    var rest := OpsBits(bl, ops[j..]);
    if c.End? {
      assert [] + rest == rest;
    } else {
      var op := ops[i];
      OpsFrom(c.more.more, bl, ops, i + 1, j);
      assert ops[i..][0] == op && ops[i..][1..] == ops[i + 1..];
      LenCode(bl, Code(op));
      Regroup(Unpack(c.x, c.k), Unpack(c.more.x, c.more.k), FieldBits(c.more.more), rest);
    }
  }

  /** The fields are the lengths of the code length code, in the order of sending, from i up to j. */
  predicate SpellLens(c: Cuts, bl: seq<nat>, i: nat, j: nat)
    requires |bl| == BL_CODES
    decreases c
  {
    if c.End? then i == j else
        i < j && i < BL_CODES && c.x == bl[BL_ORDER[i]] && c.k == 3 && SpellLens(c.more, bl, i + 1, j)
  }

  lemma {:induction false} LensFrom(c: Cuts, bl: seq<nat>, i: nat, j: nat, n: nat)
    requires |bl| == BL_CODES && i <= j <= n <= BL_CODES && SpellLens(c, bl, i, j)
    ensures BlLensFrom(bl, i, n) == FieldBits(c) + BlLensFrom(bl, j, n)
    decreases c
  {
    if c.End? {
      assert [] + BlLensFrom(bl, j, n) == BlLensFrom(bl, j, n);
    } else {
      LensFrom(c.more, bl, i + 1, j, n);
      Assoc(Unpack(c.x, c.k), FieldBits(c.more), BlLensFrom(bl, j, n));
    }
  }

  /** As many literals "a" as the fields say. */
  predicate SpellLits(c: Cuts, x: nat, k: nat, its: seq<Item>, i: nat, j: nat)
    decreases c
  {
    if c.End? then i == j else
    i < j && i < |its| && its[i] == Lit(97) && c.x == x && c.k == k && SpellLits(c.more, x, k, its, i + 1, j)
  }

  lemma {:induction false} LitsFrom(c: Cuts, x: nat, k: nat, ll: seq<nat>, dl: seq<nat>, its: seq<Item>, i: nat, j: nat)
    requires AllCodable(ll, dl, its) && 97 < |ll| && CodeString(ll, 97) == Unpack(x, k)
    requires i <= j <= |its| && SpellLits(c, x, k, its, i, j)
    ensures JoinFrom(Parts(ll, dl, its), i) == FieldBits(c) + JoinFrom(Parts(ll, dl, its), j)
    decreases c
  {
    var rest := JoinFrom(Parts(ll, dl, its), j);
    if c.End? {
      assert [] + rest == rest;
    } else {
      LitsFrom(c.more, x, k, ll, dl, its, i + 1, j);
      PartAt(ll, dl, its, i);
      Assoc(Unpack(c.x, c.k), FieldBits(c.more), rest);
    }
  }

  /** A match of length 19 + e and distance 5 + f. */
  lemma {:induction false} PairFields(ll: seq<nat>, dl: seq<nat>, e: nat, f: nat)
    requires ll == LitLens() && dl == DistLens()
    ensures LengthField(ll, 12, e) + DistField(dl, 4, f) == FieldBits(Cut(3, 2, Cut(e, 2, Cut(1, 1, Cut(f, 1, End)))))
  {
    LitCodes(ll);
    DistCodes(dl);
    var a, b, c, d := Unpack(3, 2), Unpack(e, 2), Unpack(1, 1), Unpack(f, 1);
    assert ExtraLength(12) == 2 && ExtraDist(4) == 1;
    assert LengthField(ll, 12, e) == a + b;
    assert DistField(dl, 4, f) == c + d;
    LastField(f, 1);
    assert FieldBits(Cut(1, 1, Cut(f, 1, End))) == c + d;
    assert FieldBits(Cut(e, 2, Cut(1, 1, Cut(f, 1, End)))) == b + (c + d);
    Assoc(a, b, c + d);
  }

  /** One run-length code more: the lengths up to m become those up to m'. */
  lemma {:induction false} DecodeNext(ops: seq<Op>, i: nat, lens: seq<nat>, m: nat, m': nat)
    requires i < |ops| && m <= m' <= |lens|
    requires match ops[i]
             case One(len) => m' == m + 1 && lens[m] == len
             case Again(n) => m >= 1 && m' == m + n && forall k :: m <= k < m' ==> lens[k] == lens[m - 1]
             case Zeros(n) => m' == m + n && forall k :: m <= k < m' ==> lens[k] == 0
             case ManyZeros(n) => m' == m + n && forall k :: m <= k < m' ==> lens[k] == 0
    ensures DecodeAll(lens[..m], ops[i..]) == DecodeAll(lens[..m'], ops[i + 1..])
  {
    assert ops[i..][0] == ops[i] && ops[i..][1..] == ops[i + 1..];
    var have := lens[..m];
    assert Decode(have, ops[i]).Some? && Decode(have, ops[i]).value == lens[..m'];
  }

  lemma {:induction false} DecodeFirst(ops: seq<Op>, lens: seq<nat>, have: seq<nat>, m: nat)
    requires ops != [] && m <= |lens| && have == []
    requires ops[0] == ManyZeros(m) && forall k :: 0 <= k < m ==> lens[k] == 0
    ensures DecodeAll(have, ops) == DecodeAll(lens[..m], ops[1..])
  {
    assert ops[0..] == ops && lens[..0] == have;
    DecodeNext(ops, 0, lens, 0, m);
  }

  /** The lengths of both codes. */
  ghost predicate BothLens(lens: seq<nat>) {
    && |lens| == 275
    && forall n :: 0 <= n < 275 ==>
         lens[n] == if n == 97 || n == 270 || n == 274 then 1 else if n == 256 || n == 269 then 2 else 0
  }

  lemma {:induction false} FirstOps(ops: seq<Op>, lens: seq<nat>, have: seq<nat>)
    requires ops == LensOps() && BothLens(lens) && have == []
    ensures DecodeAll(have, ops) == DecodeAll(lens[..98], ops[2..])
  {
    DecodeFirst(ops, lens, have, 97);
    DecodeNext(ops, 1, lens, 97, 98);
  }

  lemma {:induction false} NextOps(ops: seq<Op>, lens: seq<nat>)
    requires ops == LensOps() && BothLens(lens)
    ensures DecodeAll(lens[..98], ops[2..]) == DecodeAll(lens[..257], ops[5..])
  {
    DecodeNext(ops, 2, lens, 98, 236);
    DecodeNext(ops, 3, lens, 236, 256);
    DecodeNext(ops, 4, lens, 256, 257);
  }

  lemma {:induction false} OtherOps(ops: seq<Op>, lens: seq<nat>)
    requires ops == LensOps() && BothLens(lens)
    ensures DecodeAll(lens[..257], ops[5..]) == Some(lens)
  {
    DecodeNext(ops, 5, lens, 257, 266);
    DecodeNext(ops, 6, lens, 266, 269);
    DecodeNext(ops, 7, lens, 269, 270);
    DecodeNext(ops, 8, lens, 270, 271);
    DecodeNext(ops, 9, lens, 271, 274);
    DecodeNext(ops, 10, lens, 274, 275);
    assert ops[11..] == [] && lens[..275] == lens;
  }

  /** The run-length codes give the lengths of both codes. */
  lemma {:induction false} OpsGive(ops: seq<Op>, lens: seq<nat>)
    requires ops == LensOps() && lens == LitLens() + DistLens()
    ensures Gives(ops, lens)
  {
    forall have: seq<nat> | have == [] ensures DecodeAll(have, ops) == Some(lens) {
      FirstOps(ops, lens, have);
      NextOps(ops, lens);
      OtherOps(ops, lens);
    }
  }

  // ----- the bits of the dynamic block -----

  function CountFields(): Cuts {
    Cut(5, 3, Cut(13, 5, Cut(4, 5, Cut(14, 4, End))))
  }

  /** Lengths of the code length code. */
  function LensRow(r: Row): Row {
    PutAll(Cut(3, 3, Cut(3, 3, Cut(2, 3, Cut(0, 3, Cut(0, 3, Cut(0, 3, End)))))),
    PutAll(Cut(0, 3, Cut(0, 3, Cut(0, 3, Cut(0, 3, Cut(0, 3, Cut(0, 3, End)))))),
    PutAll(Cut(0, 3, Cut(0, 3, Cut(0, 3, Cut(2, 3, Cut(0, 3, Cut(2, 3, End)))))), r)))
  }

  /** Run-length codes. */
  function OpsRow(r: Row): Row {
    PutAll(Cut(1, 2, Cut(86, 7, Cut(0, 2, Cut(0, 0, Cut(1, 2, Cut(127, 7, End)))))),
    PutAll(Cut(1, 2, Cut(9, 7, Cut(2, 2, Cut(0, 0, Cut(7, 3, Cut(6, 3, End)))))),
    PutAll(Cut(3, 3, Cut(0, 2, Cut(2, 2, Cut(0, 0, Cut(0, 2, Cut(0, 0, End)))))),
    PutAll(Cut(7, 3, Cut(0, 3, Cut(0, 2, Cut(0, 0, End)))), r))))
  }

  /** Six literals, the match, and the end of the block. */
  function ItemsRow(r: Row): Row {
    PutAll(Cut(0, 1, Cut(0, 1, Cut(0, 1, Cut(0, 1, Cut(0, 1, Cut(0, 1, End)))))),
    PutAll(Cut(3, 2, Cut(2, 2, Cut(1, 1, Cut(1, 1, End)))), PutAll(Cut(1, 2, End), r)))
  }

  /** The last five bits of the last byte. */
  function LastRow(): Row {
    PutAll(Cut(0, 5, End), Nil)
  }

  lemma {:induction false} LensBits(bl: seq<nat>, n: nat, c1: Cuts, c2: Cuts, c3: Cuts, u: seq<bool>, r: Row)
    requires |bl| == BL_CODES && n == 18 && u == RowBits(r)
    requires SpellLens(c1, bl, 0, 6) && SpellLens(c2, bl, 6, 12) && SpellLens(c3, bl, 12, n)
    ensures BlLens(bl, n) + u == RowBits(PutAll(c1, PutAll(c2, PutAll(c3, r))))
  {
    LensFrom(c3, bl, 12, n, n);
    assert [] + u == u;
    Before(BlLensFrom(bl, 12, n), c3, [], u, r);
    LensFrom(c2, bl, 6, 12, n);
    Before(BlLensFrom(bl, 6, n), c2, BlLensFrom(bl, 12, n), u, PutAll(c3, r));
    LensFrom(c1, bl, 0, 6, n);
    Before(BlLensFrom(bl, 0, n), c1, BlLensFrom(bl, 6, n), u, PutAll(c2, PutAll(c3, r)));
    BlLensSplit(bl, 0, n);
    assert [] + BlLensFrom(bl, 0, n) == BlLensFrom(bl, 0, n);
  }

  lemma {:induction false} LensBitsAre(bl: seq<nat>, n: nat, u: seq<bool>, r: Row)
    requires bl == CodeLens() && n == 18 && u == RowBits(r)
    ensures BlLens(bl, n) + u == RowBits(LensRow(r))
  {
    LensBits(bl, n, Cut(3, 3, Cut(3, 3, Cut(2, 3, Cut(0, 3, Cut(0, 3, Cut(0, 3, End)))))),
             Cut(0, 3, Cut(0, 3, Cut(0, 3, Cut(0, 3, Cut(0, 3, Cut(0, 3, End)))))),
             Cut(0, 3, Cut(0, 3, Cut(0, 3, Cut(2, 3, Cut(0, 3, Cut(2, 3, End)))))), u, r);
  }

  lemma {:induction false} OpsBitsFrom(bl: seq<nat>, ops: seq<Op>, c1: Cuts, c2: Cuts, c3: Cuts, c4: Cuts, u: seq<bool>,
                                       r: Row)
    requires bl == CodeLens() && |ops| == 11 && u == RowBits(r)
    requires SpellOps(c1, ops, 0, 3) && SpellOps(c2, ops, 3, 6) && SpellOps(c3, ops, 6, 9) && SpellOps(c4, ops, 9, 11)
    ensures OpsBits(bl, ops) + u == RowBits(PutAll(c1, PutAll(c2, PutAll(c3, PutAll(c4, r)))))
  {
    OpsFrom(c4, bl, ops, 9, 11);
    assert ops[11..] == [] && ops[0..] == ops && [] + u == u;
    Before(OpsBits(bl, ops[9..]), c4, [], u, r);
    OpsFrom(c3, bl, ops, 6, 9);
    Before(OpsBits(bl, ops[6..]), c3, OpsBits(bl, ops[9..]), u, PutAll(c4, r));
    OpsFrom(c2, bl, ops, 3, 6);
    Before(OpsBits(bl, ops[3..]), c2, OpsBits(bl, ops[6..]), u, PutAll(c3, PutAll(c4, r)));
    OpsFrom(c1, bl, ops, 0, 3);
    Before(OpsBits(bl, ops), c1, OpsBits(bl, ops[3..]), u, PutAll(c2, PutAll(c3, PutAll(c4, r))));
  }

  lemma {:induction false} OpsBitsAre(bl: seq<nat>, ops: seq<Op>, u: seq<bool>, r: Row)
    requires bl == CodeLens() && ops == LensOps() && u == RowBits(r)
    ensures OpsBits(bl, ops) + u == RowBits(OpsRow(r))
  {
    OpsBitsFrom(bl, ops, Cut(1, 2, Cut(86, 7, Cut(0, 2, Cut(0, 0, Cut(1, 2, Cut(127, 7, End)))))),
                Cut(1, 2, Cut(9, 7, Cut(2, 2, Cut(0, 0, Cut(7, 3, Cut(6, 3, End)))))),
                Cut(3, 3, Cut(0, 2, Cut(2, 2, Cut(0, 0, Cut(0, 2, Cut(0, 0, End)))))),
                Cut(7, 3, Cut(0, 3, Cut(0, 2, Cut(0, 0, End)))), u, r);
  }

  /** All the bits, in fields and in bytes. */
  lemma {:induction false} SameRow()
    ensures PutAll(CountFields(), LensRow(OpsRow(ItemsRow(LastRow())))) ==
              PutAll(Cut(0x6d, 8, Cut(0xc4, 8, Cut(0x37, 8, Cut(0x01, 8, End)))),
              PutAll(Cut(0x00, 8, Cut(0x00, 8, Cut(0x00, 8, Cut(0x80, 8, End)))),
              PutAll(Cut(0xa0, 8, Cut(0xac, 8, Cut(0xf4, 8, Cut(0x2f, 8, End)))),
              PutAll(Cut(0xe1, 8, Cut(0x3d, 8, Cut(0xe4, 8, Cut(0x00, 8, End)))),
              PutAll(Cut(0xd8, 8, Cut(0x03, 8, End)), Nil)))))
  {
  }

  /** A match at the end, and what follows it. */
  lemma {:induction false} PairLast(c: Cuts, ll: seq<nat>, dl: seq<nat>, its: seq<Item>)
    requires AllCodable(ll, dl, its) && its != [] && its[|its| - 1].Pair? && its[|its| - 1].d < |dl|
    requires 257 + its[|its| - 1].c < |ll|
    requires var p := its[|its| - 1]; LengthField(ll, p.c, p.e) + DistField(dl, p.d, p.f) == FieldBits(c)
    ensures JoinFrom(Parts(ll, dl, its), |its| - 1) == FieldBits(c) + []
  {
    PartAt(ll, dl, its, |its| - 1);
  }

  /** The bits of literals, a match and the end of a block. */
  lemma {:induction false} BodyBits(c1: Cuts, c2: Cuts, c3: Cuts, x: nat, k: nat, ll: seq<nat>, dl: seq<nat>,
                                    its: seq<Item>, u: seq<bool>, r: Row)
    requires AllCodable(ll, dl, its) && 256 < |ll| && CodeString(ll, 97) == Unpack(x, k) && u == RowBits(r)
    requires its != [] && its[|its| - 1].Pair? && its[|its| - 1].d < |dl| && 257 + its[|its| - 1].c < |ll|
    requires var p := its[|its| - 1]; LengthField(ll, p.c, p.e) + DistField(dl, p.d, p.f) == FieldBits(c2)
    requires SpellLits(c1, x, k, its, 0, |its| - 1) && CodeString(ll, END_BLOCK) == FieldBits(c3)
    ensures BlockBits(ll, dl, its) + u == RowBits(PutAll(c1, PutAll(c2, PutAll(c3, r))))
  {
    var ps, e, n: nat := Parts(ll, dl, its), CodeString(ll, END_BLOCK), |its| - 1;
    assert e + [] == e && [] + u == u;
    Before(e, c3, [], u, r);
    PairLast(c2, ll, dl, its);
    assert [] + (e + u) == e + u;
    Before(JoinFrom(ps, n), c2, [], e + u, PutAll(c3, r));
    LitsFrom(c1, x, k, ll, dl, its, 0, n);
    Before(JoinFrom(ps, 0), c1, JoinFrom(ps, n), e + u, PutAll(c2, PutAll(c3, r)));
    JoinSplit(ps, 0, e + u);
    assert [] + (JoinFrom(ps, 0) + (e + u)) == JoinFrom(ps, 0) + (e + u);
    Assoc(Join(ps, |ps|), e, u);
  }

  function Items(): seq<Item> {
    [Lit(97), Lit(97), Lit(97), Lit(97), Lit(97), Lit(97), Pair(12, 2, 4, 1)]
  }

  lemma {:induction false} ItemsCodable(ll: seq<nat>, dl: seq<nat>, its: seq<Item>)
    requires ll == LitLens() && dl == DistLens() && its == Items()
    ensures AllCodable(ll, dl, its)
  {
    assert ExtraLength(12) == 2 && ExtraDist(4) == 1 && Pow2(2) == 4 && Pow2(1) == 2;
    forall i | 0 <= i < |its| ensures CodableAt(ll, dl, its, i) {
      assert its[i] == Lit(97) || its[i] == Pair(12, 2, 4, 1);
    }
  }

  lemma {:induction false} ItemsBitsAre(ll: seq<nat>, dl: seq<nat>, its: seq<Item>, u: seq<bool>, r: Row)
    requires ll == LitLens() && dl == DistLens() && its == Items() && AllCodable(ll, dl, its) && u == RowBits(r)
    ensures BlockBits(ll, dl, its) + u == RowBits(ItemsRow(r))
  {
    LitCodes(ll);
    PairFields(ll, dl, 2, 1);
    LastField(1, 2);
    BodyBits(Cut(0, 1, Cut(0, 1, Cut(0, 1, Cut(0, 1, Cut(0, 1, Cut(0, 1, End)))))),
             Cut(3, 2, Cut(2, 2, Cut(1, 1, Cut(1, 1, End)))), Cut(1, 2, End), 0, 1, ll, dl, its, u, r);
  }

  // ----- what they stand for -----

  /** n bytes "a". */
  ghost predicate As(data: seq<byte>, n: nat) {
    |data| == n && forall i :: 0 <= i < n ==> data[i] == 97
  }

  /** Literals "a". */
  lemma {:induction false} LitsExpand(ts: seq<Token>, n: nat)
    requires n <= |ts| && forall i :: 0 <= i < n ==> ts[i] == Token(0, 97)
    ensures Expandable([], ts[..n]) && As(Expand([], ts[..n]), n)
  {
    if n != 0 {
      LitsExpand(ts, n - 1);
      assert ts[..n][..n - 1] == ts[..n - 1];
      ExpandSnoc([], ts[..n - 1], Token(0, 97));
      assert ts[..n] == ts[..n - 1] + [Token(0, 97)];
    }
  }

  /** Literals "a" and a match. */
  lemma {:induction false} MatchExpands(ts: seq<Token>, dist: nat, lc: byte, data: seq<byte>)
    requires ts != [] && (forall i :: 0 <= i < |ts| - 1 ==> ts[i] == Token(0, 97)) && ts[|ts| - 1] == Token(dist, lc)
    requires 1 <= dist <= |ts| - 1 && As(data, |ts| - 1 + lc + MIN_MATCH)
    ensures Expandable([], ts) && Expand([], ts) == data
  {
    var n: nat := |ts| - 1;
    LitsExpand(ts, n);
    var h := Expand([], ts[..n]);
    assert data[..n] == h;
    RepeatUnique(h, dist, lc + MIN_MATCH, data);
  }

  lemma {:induction false} ItemsExpand(its: seq<Item>, data: seq<byte>)
    requires its == Items() && As(data, 27)
    ensures WithinWindow([], TokensOf(its), FAR) && Expand([], TokensOf(its)) == data
  {
    var ts := TokensOf(its);
    assert DistBase(4) + 1 == 6 && LengthByte(LengthBase(12) + 2) == 18;
    MatchExpands(ts, 6, 18, data);
  }

  // ----- the dynamic block -----

  function TheBlock(): Block {
    DynamicBlock(LitLens(), DistLens(), CodeLens(), 18)
  }

  lemma {:induction false} CodesAreOk(b: Block)
    requires b == TheBlock()
    ensures CodesOk(Lens(b.ll, b.dl))
  {
    LitCodes(b.ll);
    DistCodes(b.dl);
  }

  lemma {:induction false} HeaderIsOk(b: Block, ops: seq<Op>)
    requires b == TheBlock() && ops == LensOps()
    ensures HeaderOk(b, ops)
  {
    CodesAreOk(b);
    LenCodes(b.bl, 1, 2, 3);
    OpsGive(ops, b.ll + b.dl);
    assert BlOk(18, b.bl);
    OpsHaveCodes(b.bl, ops);
  }

  lemma {:induction false} OpsHaveCodes(bl: seq<nat>, ops: seq<Op>)
    requires bl == CodeLens() && ops == LensOps()
    ensures OpsCodable(bl, ops)
  {
  }

  lemma {:induction false} FourFields(t: seq<bool>, a: seq<bool>, b: seq<bool>, c: seq<bool>, u: seq<bool>)
    ensures t + ((a + b + c) + u) == (t + (a + (b + c))) + u
  {
  }

  lemma {:induction false} CountsAre(l: nat, d: nat, c: nat, k: Cuts, u: seq<bool>, r: Row)
    requires l >= 257 && d >= 1 && c >= 4 && u == RowBits(r)
    requires k == Cut(5, 3, Cut(l - 257, 5, Cut(d - 1, 5, Cut(c - 4, 4, End))))
    ensures TypeBits(DYN_TREES, true) + (CountBits(l, d, c) + u) == RowBits(PutAll(k, r))
  {
    var e: nat, f: nat, g: nat := l - 257, d - 1, c - 4;
    PutAllBits(k, r);
    LastField(g, 4);
    assert FieldBits(Cut(f, 5, Cut(g, 4, End))) == Unpack(f, 5) + Unpack(g, 4);
    assert FieldBits(k.more) == Unpack(e, 5) + (Unpack(f, 5) + Unpack(g, 4));
    FourFields(Unpack(5, 3), Unpack(e, 5), Unpack(f, 5), Unpack(g, 4), u);
  }

  /** The bits of the block are those of its four parts. */
  lemma {:induction false} PieceRow(x: Piece, n: nat, u: seq<bool>, q: Row)
    requires x.b.DynamicBlock? && Readable(x) && x.last && x.b.blcodes == n
    requires TypeBits(DYN_TREES, true) + (CountBits(|x.b.ll|, |x.b.dl|, n) + (BlLens(x.b.bl, n)
             + (OpsBits(x.b.bl, x.ops) + (BlockBits(x.b.ll, x.b.dl, x.its) + u)))) == RowBits(q)
    ensures PieceBits(0, x) + u == RowBits(q)
  {
    Nested(TypeBits(DYN_TREES, true), CountBits(|x.b.ll|, |x.b.dl|, n), BlLens(x.b.bl, n), OpsBits(x.b.bl, x.ops),
           BlockBits(x.b.ll, x.b.dl, x.its), u);
  }

  /** q is r with a part of the block in front: its items, its run-length codes, the lengths of the code length code, or
      its type and counts. */
  ghost predicate With(part: nat, r: Row, q: Row) {
    forall p: Row {:trigger IsWith(part, r, p)} :: p == q ==> IsWith(part, r, p)
  }

  ghost predicate IsWith(part: nat, r: Row, q: Row) {
    q == if part == 0 then ItemsRow(r) else if part == 1 then OpsRow(r) else if part == 2 then LensRow(r)
         else PutAll(CountFields(), r)
  }

  lemma {:induction false} WithItems(ll: seq<nat>, dl: seq<nat>, its: seq<Item>, u: seq<bool>, r: Row) returns (q: Row)
    requires ll == LitLens() && dl == DistLens() && its == Items() && AllCodable(ll, dl, its) && u == RowBits(r)
    ensures BlockBits(ll, dl, its) + u == RowBits(q) && With(0, r, q)
  {
    ItemsBitsAre(ll, dl, its, u, r);
    q := ItemsRow(r);
  }

  lemma {:induction false} WithOps(bl: seq<nat>, ops: seq<Op>, u: seq<bool>, r: Row) returns (q: Row)
    requires bl == CodeLens() && ops == LensOps() && u == RowBits(r)
    ensures OpsBits(bl, ops) + u == RowBits(q) && With(1, r, q)
  {
    OpsBitsAre(bl, ops, u, r);
    q := OpsRow(r);
  }

  lemma {:induction false} WithLens(bl: seq<nat>, n: nat, u: seq<bool>, r: Row) returns (q: Row)
    requires bl == CodeLens() && n == 18 && u == RowBits(r)
    ensures BlLens(bl, n) + u == RowBits(q) && With(2, r, q)
  {
    LensBitsAre(bl, n, u, r);
    q := LensRow(r);
  }

  lemma {:induction false} WithCounts(l: nat, d: nat, c: nat, u: seq<bool>, r: Row) returns (q: Row)
    requires l == 270 && d == 5 && c == 18 && u == RowBits(r)
    ensures TypeBits(DYN_TREES, true) + (CountBits(l, d, c) + u) == RowBits(q) && With(3, r, q)
  {
    CountsAre(l, d, c, CountFields(), u, r);
    q := PutAll(CountFields(), r);
  }

  lemma {:induction false} BlockFields(x: Piece, u: seq<bool>, r: Row) returns (q1: Row, q2: Row, q3: Row, q: Row)
    requires x.b == TheBlock() && x.last && x.its == Items() && x.ops == LensOps() && u == RowBits(r) && Readable(x)
    ensures PieceBits(0, x) + u == RowBits(q) && With(0, r, q1) && With(1, q1, q2) && With(2, q2, q3) && With(3, q3, q)
  {
    var b, n: nat := x.b, 18;
    q1 := WithItems(b.ll, b.dl, x.its, u, r);
    q2 := WithOps(b.bl, x.ops, BlockBits(b.ll, b.dl, x.its) + u, q1);
    q3 := WithLens(b.bl, n, OpsBits(b.bl, x.ops) + (BlockBits(b.ll, b.dl, x.its) + u), q2);
    q := WithCounts(|b.ll|, |b.dl|, n,
                    BlLens(b.bl, n) + (OpsBits(b.bl, x.ops) + (BlockBits(b.ll, b.dl, x.its) + u)), q3);
    PieceRow(x, n, u, q);
  }

  lemma {:induction false} WholeRow(r: Row, q1: Row, q2: Row, q3: Row, q: Row)
    requires With(0, r, q1) && With(1, q1, q2) && With(2, q2, q3) && With(3, q3, q)
    ensures q == PutAll(CountFields(), LensRow(OpsRow(ItemsRow(r))))
  {
    assert IsWith(0, r, q1) && IsWith(1, q1, q2) && IsWith(2, q2, q3) && IsWith(3, q3, q);
  }

  lemma {:induction false} Nested(t: seq<bool>, c: seq<bool>, l: seq<bool>, o: seq<bool>, b: seq<bool>, u: seq<bool>)
    ensures (t + ((c + (l + o)) + b)) + u == t + (c + (l + (o + (b + u))))
  {
  }

  lemma {:induction false} DynamicBytes(bytes: seq<byte>)
    requires bytes == [0x6d, 0xc4, 0x37, 0x01, 0x00, 0x00, 0x00, 0x80, 0xa0, 0xac, 0xf4, 0x2f, 0xe1, 0x3d, 0xe4, 0x00,
                       0xd8, 0x03]
    ensures Stream(bytes) == RowBits(PutAll(CountFields(), LensRow(OpsRow(ItemsRow(LastRow())))))
  {
    SameRow();
    BytesAre(bytes, Cut(0x6d, 8, Cut(0xc4, 8, Cut(0x37, 8, Cut(0x01, 8, End)))),
             Cut(0x00, 8, Cut(0x00, 8, Cut(0x00, 8, Cut(0x80, 8, End)))),
             Cut(0xa0, 8, Cut(0xac, 8, Cut(0xf4, 8, Cut(0x2f, 8, End)))),
             Cut(0xe1, 8, Cut(0x3d, 8, Cut(0xe4, 8, Cut(0x00, 8, End)))), Cut(0xd8, 8, Cut(0x03, 8, End)));
  }

  lemma {:induction false} BytesAre(bytes: seq<byte>, c1: Cuts, c2: Cuts, c3: Cuts, c4: Cuts, c5: Cuts)
    requires |bytes| == 18 && Spells(c1, bytes, 0, 4) && Spells(c2, bytes, 4, 8) && Spells(c3, bytes, 8, 12)
    requires Spells(c4, bytes, 12, 16) && Spells(c5, bytes, 16, 18)
    ensures Stream(bytes) == RowBits(PutAll(c1, PutAll(c2, PutAll(c3, PutAll(c4, PutAll(c5, Nil))))))
  {
    assert bytes[18..] == [] && bytes[0..] == bytes;
    BytesFrom(c5, bytes, 16, 18, Nil);
    BytesFrom(c4, bytes, 12, 16, PutAll(c5, Nil));
    BytesFrom(c3, bytes, 8, 12, PutAll(c4, PutAll(c5, Nil)));
    BytesFrom(c2, bytes, 4, 8, PutAll(c3, PutAll(c4, PutAll(c5, Nil))));
    BytesFrom(c1, bytes, 0, 4, PutAll(c2, PutAll(c3, PutAll(c4, PutAll(c5, Nil)))));
  }

  /** 6d c4 37 01 00 00 00 80 a0 ac f4 2f e1 3d e4 00 d8 03: the last block, with dynamic codes, of 27 bytes "a", as six
      literals and a match of length 21 and distance 6; all three codes for repeated lengths are used. */
  lemma {:induction false} DynamicExample(bytes: seq<byte>, data: seq<byte>)
    requires bytes == [0x6d, 0xc4, 0x37, 0x01, 0x00, 0x00, 0x00, 0x80, 0xa0, 0xac, 0xf4, 0x2f, 0xe1, 0x3d, 0xe4, 0x00,
                       0xd8, 0x03]
    requires |data| == 27 && forall i :: 0 <= i < 27 ==> data[i] == 97
    ensures BeginsWith(Stream(bytes), data, FAR)
  {
    var x := Piece(TheBlock(), true, Items(), 0, LensOps());
    HeaderIsOk(x.b, x.ops);
    ItemsCodable(x.b.ll, x.b.dl, x.its);
    ItemsExpand(x.its, data);
    var u := RowBits(LastRow());
    var q1, q2, q3, q := BlockFields(x, u, LastRow());
    WholeRow(LastRow(), q1, q2, q3, q);
    DynamicBytes(bytes);
    OneBlock(x, Stream(bytes), u);
  }

  // ----- a block with the fixed codes -----

  function FixedItems(): seq<Item> {
    [Lit(97), Lit(97), Pair(5, 0, 0, 0)]
  }

  /** Type, two literals, the match, the end, and two bits more. */
  function FixedRow(r: Row): Row {
    Put(3, 3, PutAll(Cut(0x89, 8, Cut(0x89, 8, End)), PutAll(Cut(0x30, 7, Cut(0, 0, Cut(0, 5, Cut(0, 0, End)))),
    PutAll(Cut(0, 7, End), r))))
  }

  lemma {:induction false} FixedLitCodes(l: seq<nat>, seven: nat, eight: nat)
    requires l == StaticLit() && seven == 7 && eight == 8
    ensures CodeString(l, 97) == Unpack(0x89, eight) && CodeString(l, 256) == Unpack(0, seven)
    ensures CodeString(l, 262) == Unpack(0x30, seven)
  {
    FixedFirst(l, seven, eight);
    var a: nat, e: nat, m: nat := 0x91, 0, 6;
    Reverses(a, eight, e, m, seven);
    FixedCode(l, 97, a, 0x89);
    FixedCode(l, 256, e, 0);
    FixedCode(l, 262, m, 0x30);
  }

  lemma {:induction false} FixedFirst(l: seq<nat>, seven: nat, eight: nat)
    requires l == StaticLit() && seven == 7 && eight == 8
    ensures First(l, seven) == 0 && First(l, eight) == 48
  {
    FirstStatic(l, seven);
    CountStatic(l, |l|, seven);
  }

  lemma {:induction false} Reverses(c: nat, n: nat, d: nat, e: nat, m: nat)
    requires c == 0x91 && n == 8 && d == 0 && e == 6 && m == 7
    ensures Rev(c, n) == 0x89 && Rev(d, m) == 0 && Rev(e, m) == 0x30
  {
    assert Rev(0x91, 8) == 0x89 && Rev(0, 7) == 0 && Rev(6, 7) == 0x30;
  }

  /** The code c of symbol s, as a field. */
  lemma {:induction false} FixedCode(l: seq<nat>, s: nat, c: nat, v: nat)
    requires l == StaticLit() && s < |l| && (s == 97 || s == 256 || s == 262)
    requires c == First(l, l[s]) + StaticCount(s, l[s]) && v == Rev(c, l[s])
    ensures CodeString(l, s) == Unpack(v, l[s])
  {
    CountStatic(l, s, l[s]);
    Mirror(c, l[s]);
  }

  lemma {:induction false} FirstStatic(l: seq<nat>, b: nat)
    requires l == StaticLit() && b <= 7
    ensures First(l, b) == 0
  {
    if b > 1 {
      FirstStatic(l, b - 1);
      CountStatic(l, |l|, b - 1);
    }
  }

  lemma {:induction false} FixedPair(ll: seq<nat>, dl: seq<nat>)
    requires ll == StaticLit() && dl == FixedDist()
    ensures LengthField(ll, 5, 0) + DistField(dl, 0, 0) == FieldBits(Cut(0x30, 7, Cut(0, 0, Cut(0, 5, Cut(0, 0, End)))))
  {
    var five: nat := 5;
    FixedLitCodes(ll, 7, 8);
    FiveFirst(dl, five);
    FiveBits(dl, 0, five);
    assert Big(0, 5) == Unpack(0, 5);
    assert ExtraLength(5) == 0 && ExtraDist(0) == 0;
    var a, b, c, d := Unpack(0x30, 7), Unpack(0, 0), Unpack(0, 5), Unpack(0, 0);
    LastField(0, 0);
    assert FieldBits(Cut(0, 5, Cut(0, 0, End))) == c + d;
    assert FieldBits(Cut(0, 0, Cut(0, 5, Cut(0, 0, End)))) == b + (c + d);
    Assoc(a, b, c + d);
  }

  lemma {:induction false} FixedFields(x: Piece, u: seq<bool>, r: Row)
    requires x == Piece(StaticBlock, true, FixedItems(), 0, []) && Readable(x) && u == RowBits(r)
    ensures PieceBits(0, x) + u == RowBits(FixedRow(r))
  {
    var g := FixedLens();
    var q := FixedBody(g.ll, g.dl, x.its, u, r);
    var body := BlockBits(g.ll, g.dl, x.its);
    PutBits(3, 3, q);
    assert [] + body == body;
    Assoc(TypeBits(STATIC_TREES, true), body, u);
  }

  lemma {:induction false} FixedBody(ll: seq<nat>, dl: seq<nat>, its: seq<Item>, u: seq<bool>, r: Row) returns (q: Row)
    requires ll == StaticLit() && dl == FixedDist() && its == FixedItems() && AllCodable(ll, dl, its) && u == RowBits(r)
    ensures BlockBits(ll, dl, its) + u == RowBits(q) && Put(3, 3, q) == FixedRow(r)
  {
    FixedLitCodes(ll, 7, 8);
    FixedPair(ll, dl);
    LastField(0, 7);
    var c1, c2, c3 := Cut(0x89, 8, Cut(0x89, 8, End)), Cut(0x30, 7, Cut(0, 0, Cut(0, 5, Cut(0, 0, End)))),
        Cut(0, 7, End);
    BodyBits(c1, c2, c3, 0x89, 8, ll, dl, its, u, r);
    q := PutAll(c1, PutAll(c2, PutAll(c3, r)));
  }

  lemma {:induction false} FixedSame()
    ensures PutAll(Cut(0x4b, 8, Cut(0x4c, 8, End)), PutAll(Cut(0x84, 8, Cut(0x01, 8, Cut(0x00, 8, End))), Nil)) ==
              FixedRow(PutAll(Cut(0, 2, End), Nil))
  {
  }

  lemma {:induction false} FixedBytes(bytes: seq<byte>)
    requires bytes == [0x4b, 0x4c, 0x84, 0x01, 0x00]
    ensures Stream(bytes) == RowBits(FixedRow(PutAll(Cut(0, 2, End), Nil)))
  {
    FixedSame();
    var d := Cut(0x84, 8, Cut(0x01, 8, Cut(0x00, 8, End)));
    assert bytes[0..] == bytes && bytes[5..] == [];
    BytesFrom(d, bytes, 2, 5, Nil);
    BytesFrom(Cut(0x4b, 8, Cut(0x4c, 8, End)), bytes, 0, 2, PutAll(d, Nil));
  }

  lemma {:induction false} FixedItemsFit(its: seq<Item>, data: seq<byte>)
    requires its == FixedItems() && As(data, 10)
    ensures Encodable(FixedLens(), its) && WithinWindow([], TokensOf(its), FAR) && Expand([], TokensOf(its)) == data
  {
    assert ExtraLength(5) == 0 && ExtraDist(0) == 0 && Pow2(0) == 1;
    forall i | 0 <= i < |its| ensures CodableAt(StaticLit(), StaticDist(), its, i) {
      assert its[i] == Lit(97) || its[i] == Pair(5, 0, 0, 0);
    }
    StaticIsFixed(its);
    var ts := TokensOf(its);
    assert DistBase(0) == 1 && LengthByte(LengthBase(5)) == 5;
    MatchExpands(ts, 1, 5, data);
  }

  /** 4b 4c 84 01 00: the last block, with the fixed codes, of ten bytes "a", as two literals and a match of length 8
      and
      distance 1. */
  lemma {:induction false} FixedExample(bytes: seq<byte>, data: seq<byte>)
    requires bytes == [0x4b, 0x4c, 0x84, 0x01, 0x00] && |data| == 10 && forall i :: 0 <= i < 10 ==> data[i] == 97
    ensures BeginsWith(Stream(bytes), data, FAR)
  {
    var x := Piece(StaticBlock, true, FixedItems(), 0, []);
    FixedItemsFit(x.its, data);
    var r := PutAll(Cut(0, 2, End), Nil);
    FixedFields(x, RowBits(r), r);
    FixedBytes(bytes);
    OneBlock(x, Stream(bytes), RowBits(r));
  }
}
