/** Whole deflate streams, as section 3.2.3 of RFC 1951 and inflate have them: the blocks one after the other, and what
    they stand for. */
module Streams {
  import opened Bits
  import opened Options
  import opened Canonical
  import opened InflateTable
  import opened Symbols
  import opened Lz77
  import opened Tokens
  import opened BlockStates
  import opened Decoding
  import opened RunLengths
  import opened StaticTrees
  import opened Blocks
  import opened BlockRoundTrip
  import opened BlockEncoder
  import opened FixedCodes

  /** A block of a stream. The bits before the data of a stored block are the low ones of pad, and the code lengths of a
      dynamic block are given by the run-length codes ops; deflate sends zero bits and the shortest codes. */
  datatype Piece = Piece(b: Block, last: bool, its: seq<Item>, pad: nat, ops: seq<Op>)

  function KindOf(b: Block): nat {
    match b
    case StoredBlock(_) => STORED_BLOCK
    case StaticBlock => STATIC_TREES
    case DynamicBlock(_, _, _, _) => DYN_TREES
  }

  function LensOf(b: Block): Lens {
    if b.DynamicBlock? then Lens(b.ll, b.dl) else FixedLens()
  }

  /** Lengths of the code length code, of which ncode were sent. */
  ghost predicate BlOk(ncode: nat, bl: seq<nat>) {
    && 4 <= ncode <= BL_CODES && |bl| == BL_CODES && (forall c :: 0 <= c < BL_CODES ==> bl[c] <= MAX_BL_BITS)
    && (forall i {:trigger NotSent(bl, i)} :: ncode <= i < BL_CODES ==> NotSent(bl, i))
  }

  /** The i-th length in the order of sending is zero. */
  ghost predicate NotSent(bl: seq<nat>, i: nat)
    requires |bl| == BL_CODES
  {
    i < BL_CODES && bl[BL_ORDER[i]] == 0
  }

  /** The run-length codes ops give the lengths lens. */
  ghost predicate Gives(ops: seq<Op>, lens: seq<nat>) {
    forall have: seq<nat> {:trigger DecodeAll(have, ops)} :: have == [] ==> DecodeAll(have, ops) == Some(lens)
  }

  /** The header of a dynamic block: the run-length codes give the lengths of two codes that inflate_table accepts. */
  ghost predicate HeaderOk(b: Block, ops: seq<Op>) {
    && b.DynamicBlock? && 257 <= |b.ll| <= L_CODES && 1 <= |b.dl| <= D_CODES && BlOk(b.blcodes, b.bl) && Complete(b.bl)
    && OpsCodable(b.bl, ops) && Gives(ops, b.ll + b.dl) && CodesOk(Lens(b.ll, b.dl))
  }

  /** Whether a block has the form that inflate reads. */
  ghost predicate Readable(x: Piece) {
    if x.b.StoredBlock? then |x.b.data| <= MAX_STORED
    else (x.b.DynamicBlock? ==> HeaderOk(x.b, x.ops)) && Encodable(LensOf(x.b), x.its)
  }

  /** The bits w are the n low ones of pad. */
  ghost predicate ArePad(pad: nat, n: nat, w: seq<bool>) {
    |w| == n && forall m: nat {:trigger Unpack(pad, m)} :: m == n ==> w == Unpack(pad, m)
  }

  /** Low bits of pad from position pos up to a byte boundary. */
  ghost function PadBits(pad: nat, pos: nat): (w: seq<bool>)
    ensures ArePad(pad, PadLen(pos), w)
  {
    assert ArePad(pad, PadLen(pos), Unpack(pad, PadLen(pos)));
    var w :| ArePad(pad, PadLen(pos), w);
    w
  }

  /** The length of a stored block, its complement, and bytes. */
  ghost function WordsAndData(len: nat, check: nat, data: seq<byte>): seq<bool> {
    Word(len) + (Word(check) + Stream(data))
  }

  /** Counts, lengths of the code length code, and more. */
  ghost function Front(nlen: nat, ndist: nat, ncode: nat, bl: seq<nat>, have: nat, more: seq<bool>): seq<bool>
    requires have <= BL_CODES && |bl| == BL_CODES
  {
    CountBits(nlen, ndist, ncode) + (BlLens(bl, have) + more)
  }

  /** What precedes the body of a compressed block, after its type. */
  ghost function HeadBits(b: Block, ops: seq<Op>): seq<bool>
    requires b.DynamicBlock? ==> HeaderOk(b, ops)
  {
    if b.DynamicBlock? then Front(|b.ll|, |b.dl|, b.blcodes, b.bl, b.blcodes, OpsBits(b.bl, ops)) else []
  }

  /** The bits of a block at position pos, after its type. */
  ghost function TailBits(pos: nat, x: Piece): seq<bool>
    requires Readable(x)
  {
    if x.b.StoredBlock? then
      PadBits(x.pad, pos + 3) + WordsAndData(|x.b.data|, MAX_STORED - |x.b.data|, x.b.data)
    else HeadBits(x.b, x.ops) + BlockBits(LensOf(x.b).ll, LensOf(x.b).dl, x.its)
  }

  ghost function PieceBits(pos: nat, x: Piece): seq<bool>
    requires Readable(x)
  {
    TypeBits(KindOf(x.b), x.last) + TailBits(pos, x)
  }

  // ----- what deflate sends -----

  /** A block as deflate sends it. */
  function SentPiece(b: Block, last: bool, its: seq<Item>): Piece {
    Piece(b, last, its, 0, if b.DynamicBlock? then SentOps(b.ll, b.dl) else [])
  }

  function SentOps(ll: seq<nat>, dl: seq<nat>): seq<Op> {
    if ll != [] && dl != [] then Ops(ll) + Ops(dl) else []
  }

  /** The blocks that deflate sends are ones that inflate reads. */
  lemma {:induction false} SentIsReadable(pos: nat, b: Block, last: bool, its: seq<Item>)
    requires Encodes(b, its)
    ensures Readable(SentPiece(b, last, its))
    ensures PieceBits(pos, SentPiece(b, last, its)) == BitsOfBlock(pos, b, last, its)
  {
    match b
    case StoredBlock(data) => SentStored(pos, data, last, its);
    case StaticBlock => SentStatic(pos, last, its);
    case DynamicBlock(_, _, _, _) => SentDynamic(pos, b, last, its);
  }

  lemma {:induction false} SentStored(pos: nat, data: seq<byte>, last: bool, its: seq<Item>)
    requires |data| <= MAX_STORED
    ensures PieceBits(pos, SentPiece(StoredBlock(data), last, its)) == BitsOfBlock(pos, StoredBlock(data), last, its)
  {
    JoinStoredWords(Unpack(0, PadLen(pos + 3)), Word(|data|), Word(MAX_STORED - |data|), Stream(data));
  }

  lemma {:induction false} SentStatic(pos: nat, last: bool, its: seq<Item>)
    requires Encodes(StaticBlock, its)
    ensures Readable(SentPiece(StaticBlock, last, its))
    ensures PieceBits(pos, SentPiece(StaticBlock, last, its)) == BitsOfBlock(pos, StaticBlock, last, its)
  {
    StaticIsFixed(its);
    assert [] + BlockBits(StaticLit(), FixedDist(), its) == BlockBits(StaticLit(), FixedDist(), its);
  }

  lemma {:induction false} SentDynamic(pos: nat, b: Block, last: bool, its: seq<Item>)
    requires b.DynamicBlock? && Encodes(b, its)
    ensures Readable(SentPiece(b, last, its))
    ensures PieceBits(pos, SentPiece(b, last, its)) == BitsOfBlock(pos, b, last, its)
  {
    SentHeader(b, its);
    Assoc(CountBits(|b.ll|, |b.dl|, b.blcodes), BlLens(b.bl, b.blcodes), OpsBits(b.bl, SentOps(b.ll, b.dl)));
  }

  lemma {:induction false} SentHeader(b: Block, its: seq<Item>)
    requires b.DynamicBlock? && Encodes(b, its)
    ensures HeaderOk(b, SentOps(b.ll, b.dl))
  {
    TwoTrees(b.ll, b.dl);
    CompleteFits(b.ll);
    CompleteFits(b.dl);
  }

  lemma {:induction false} JoinStoredWords(a: seq<bool>, b: seq<bool>, c: seq<bool>, d: seq<bool>)
    ensures (a + (b + c)) + d == a + (b + (c + d))
  {
  }

  // ----- streams -----

  /** The bits of a block by its position in the stream. */
  type Layout = (nat, Piece) -> seq<bool>

  /** The layout is that of the format. */
  ghost predicate Proper(f: Layout) {
    forall pos: nat, x: Piece {:trigger LaysOut(f, pos, x)} :: LaysOut(f, pos, x)
  }

  ghost predicate LaysOut(f: Layout, pos: nat, x: Piece) {
    Readable(x) ==> f(pos, x) == PieceBits(pos, x)
  }

  lemma {:induction false} TheLayout() returns (f: Layout)
    ensures Proper(f)
  {
    f := (pos: nat, x: Piece) => if Readable(x) then PieceBits(pos, x) else [];
  }

  /** The bits of the blocks from position pos on. */
  ghost function Laid(f: Layout, pos: nat, xs: seq<Piece>): seq<bool>
    decreases |xs|
  {
    if xs == [] then [] else f(pos, xs[0]) + Laid(f, pos + |f(pos, xs[0])|, xs[1..])
  }

  /** The same with zero bits up to a byte boundary. */
  ghost function StreamBits(f: Layout, pos: nat, xs: seq<Piece>): seq<bool> {
    Laid(f, pos, xs) + Unpack(0, PadLen(pos + |Laid(f, pos, xs)|))
  }

  /** One more block at the end. */
  lemma {:induction false} LaidSnoc(f: Layout, pos: nat, xs: seq<Piece>, x: Piece)
    ensures Laid(f, pos, xs + [x]) == Laid(f, pos, xs) + f(pos + |Laid(f, pos, xs)|, x)
    decreases |xs|
  {
    var ys := xs + [x];
    if xs == [] {
      assert ys[1..] == [];
      assert [] + f(pos, x) == f(pos, x) + [];
    } else {
      var b := f(pos, xs[0]);
      assert ys[1..] == xs[1..] + [x];
      LaidSnoc(f, pos + |b|, xs[1..], x);
      Assoc(b, Laid(f, pos + |b|, xs[1..]), f(pos + |Laid(f, pos, xs)|, x));
    }
  }

  /** Exactly the last block is marked as the last one. */
  ghost predicate LastMarked(xs: seq<Piece>) {
    forall i :: 0 <= i < |xs| ==> (xs[i].last <==> i == |xs| - 1)
  }

  /** Whether a block can be expanded after the history h, with a window of the given size. */
  ghost predicate Sound(h: seq<byte>, x: Piece, window: nat) {
    Readable(x) && (x.b.StoredBlock? || WithinWindow(h, TokensOf(x.its), window))
  }

  /** The history after a block. */
  ghost function HistoryAfter(h: seq<byte>, x: Piece): seq<byte>
    requires x.b.StoredBlock? || Expandable(h, TokensOf(x.its))
  {
    if x.b.StoredBlock? then h + x.b.data else Expand(h, TokensOf(x.its))
  }

  ghost predicate AllSound(h: seq<byte>, xs: seq<Piece>, window: nat)
    decreases |xs|
  {
    xs == [] || (Sound(h, xs[0], window) && AllSound(HistoryAfter(h, xs[0]), xs[1..], window))
  }

  /** The history after all blocks. */
  ghost function HistoryAfterAll(h: seq<byte>, xs: seq<Piece>, window: nat): seq<byte>
    requires AllSound(h, xs, window)
    decreases |xs|
  {
    if xs == [] then h else HistoryAfterAll(HistoryAfter(h, xs[0]), xs[1..], window)
  }

  /** One more block at the end. */
  lemma {:induction false} SoundSnoc(h: seq<byte>, xs: seq<Piece>, x: Piece, window: nat)
    requires AllSound(h, xs, window) && Sound(HistoryAfterAll(h, xs, window), x, window)
    ensures AllSound(h, xs + [x], window)
    ensures HistoryAfterAll(h, xs + [x], window) == HistoryAfter(HistoryAfterAll(h, xs, window), x)
    decreases |xs|
  {
    var ys := xs + [x];
    if xs == [] {
      assert ys[1..] == [];
    } else {
      assert ys[1..] == xs[1..] + [x];
      SoundSnoc(HistoryAfter(h, xs[0]), xs[1..], x, window);
    }
  }

  /** Blocks only add to the history. */
  lemma {:induction false} HistoryGrows(h: seq<byte>, xs: seq<Piece>, window: nat)
    requires AllSound(h, xs, window)
    ensures h <= HistoryAfterAll(h, xs, window)
    ensures xs != [] ==> HistoryAfter(h, xs[0]) <= HistoryAfterAll(h, xs, window)
    decreases |xs|
  {
    if xs != [] {
      if !xs[0].b.StoredBlock? { ExpandExtends(h, TokensOf(xs[0].its)); }
      HistoryGrows(HistoryAfter(h, xs[0]), xs[1..], window);
    }
  }
}
