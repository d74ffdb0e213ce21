/** How far a block of a stream has been read, and that the bits read determine the block: what was read of a stream
    agrees with it, so that nothing wrong is read of a stream of the format, and its blocks end where they end. */
module StreamReading {
  import opened Bits
  import opened Options
  import opened Canonical
  import opened SubTables
  import opened InflateTable
  import opened Symbols
  import opened Lz77
  import opened Tokens
  import opened BitReader
  import opened BlockStates
  import opened BlockOutput
  import opened Decoding
  import opened RunLengths
  import opened CodeLengths
  import opened Blocks
  import opened BlockRoundTrip
  import opened BlockEncoder
  import opened BlockHeaders
  import opened FixedCodes
  import opened Streams

  /** The counts of a dynamic block. */
  datatype Numbers = Numbers(nlen: nat, ndist: nat, ncode: nat)

  ghost predicate NumbersOk(n: Numbers) {
    257 <= n.nlen <= 288 && 1 <= n.ndist <= 32 && 4 <= n.ncode <= BL_CODES
  }

  /** The counts are not too large for the format. */
  predicate NumbersFit(n: Numbers) {
    n.nlen <= L_CODES && n.ndist <= D_CODES
  }

  /** What has been read of a block: nothing; its type; the bits up to a byte boundary; the words and some bytes of a
      stored block; the counts and some lengths of the code length code; some run-length codes, the last of them maybe
      unusable, or bits for which there is no code; items. After the last block only the bits up to a byte boundary. */
  datatype Seen =
    | Nothing
    | Kind(last: bool, kind: nat)
    | Padding(last: bool, pad: nat)
    | Words(last: bool, pad: nat, len: nat, check: nat, data: seq<byte>)
    | Counts(last: bool, n: Numbers, bl: seq<nat>, have: nat)
    | Lengths(last: bool, n: Numbers, bl: seq<nat>, ops: seq<Op>, lens: seq<nat>)
    | WrongOp(last: bool, n: Numbers, bl: seq<nat>, ops: seq<Op>, lens: seq<nat>, bad: Op)
    | Junk(last: bool, n: Numbers, bl: seq<nat>, ops: seq<Op>, lens: seq<nat>, junk: seq<bool>)
    | Items(last: bool, b: Block, ops: seq<Op>, p: Progress)
    | Ending(rest: seq<bool>)

  /** The run-length codes give at most all the lengths announced. */
  ghost predicate LengthsOk(n: Numbers, bl: seq<nat>, ops: seq<Op>, lens: seq<nat>) {
    && NumbersOk(n) && NumbersFit(n) && BlOk(n.ncode, bl) && Complete(bl) && OpsCodable(bl, ops)
    && Gives(ops, lens) && |lens| <= n.nlen + n.ndist
  }

  /** The code op cannot be used after the lengths lens. */
  ghost predicate NoUse(n: Numbers, lens: seq<nat>, op: Op) {
    && |lens| < n.nlen + n.ndist
    && forall total: nat {:trigger BadRepeat(lens, op, total)} ::
        total == n.nlen + n.ndist ==> BadRepeat(lens, op, total)
  }

  /** What can have been read. */
  ghost predicate SeenOk(s: Seen) {
    match s
    case Nothing => true
    case Kind(_, kind) => kind < 4
    case Padding(_, _) => true
    case Words(_, _, len, check, data) => len <= MAX_STORED && check <= MAX_STORED && |data| <= len
    case Counts(_, n, bl, have) => NumbersOk(n) && SmallLens(bl) && have <= n.ncode
    case Lengths(_, n, bl, ops, lens) => LengthsOk(n, bl, ops, lens)
    case WrongOp(_, n, bl, ops, lens, bad) =>
      LengthsOk(n, bl, ops, lens) && OpCodable(bl, bad) && NoUse(n, lens, bad)
    case Junk(_, n, bl, ops, lens, _) =>
      NumbersOk(n) && NumbersFit(n) && BlOk(n.ncode, bl) && NoSymbols(bl) && AllValid(ops) && Gives(ops, lens)
    case Items(_, b, ops, p) =>
      && !b.StoredBlock? && (b.DynamicBlock? ==> HeaderOk(b, ops)) && CodesOk(LensOf(b)) && Sane(LensOf(b), p)
    case Ending(rest) => |rest| < 8
  }

  ghost predicate SmallLens(bl: seq<nat>) {
    |bl| == BL_CODES && forall c :: 0 <= c < BL_CODES ==> bl[c] <= MAX_BL_BITS
  }

  /** The bits read of a block that begins at position pos, after its type. */
  ghost function SeenTail(pos: nat, s: Seen): seq<bool>
    requires SeenOk(s)
  {
    match s
    case Nothing => []
    case Kind(_, _) => []
    case Padding(_, pad) => PadBits(pad, pos + 3)
    case Words(_, pad, len, check, data) => PadBits(pad, pos + 3) + WordsAndData(len, check, data)
    case Counts(_, n, bl, have) => Front(n.nlen, n.ndist, n.ncode, bl, have, [])
    case Lengths(_, n, bl, ops, _) => Front(n.nlen, n.ndist, n.ncode, bl, n.ncode, OpsBits(bl, ops))
    case WrongOp(_, n, bl, ops, _, bad) =>
        Front(n.nlen, n.ndist, n.ncode, bl, n.ncode, OpsBits(bl, ops) + OpBits(bl, bad))
    case Junk(_, n, bl, _, _, junk) => Front(n.nlen, n.ndist, n.ncode, bl, n.ncode, junk)
    case Items(_, b, ops, p) => HeadBits(b, ops) + Taken(LensOf(b), p)
    case Ending(rest) => rest
  }

  function SeenKind(s: Seen): nat {
    match s
    case Kind(_, kind) => kind
    case Padding(_, _) => STORED_BLOCK
    case Words(_, _, _, _, _) => STORED_BLOCK
    case Items(_, b, _, _) => KindOf(b)
    case _ => DYN_TREES
  }

  /** The bits read of a block that begins at position pos. */
  ghost function SeenBits(pos: nat, s: Seen): seq<bool>
    requires SeenOk(s)
  {
    if s.Nothing? || s.Ending? then SeenTail(pos, s) else TypeBits(SeenKind(s), s.last) + SeenTail(pos, s)
  }

  // ----- what was read agrees with the block -----

  function NumbersOf(b: Block): Numbers {
    if b.DynamicBlock? then Numbers(|b.ll|, |b.dl|, b.blcodes) else Numbers(0, 0, 0)
  }

  /** What has been read agrees with the block. */
  ghost predicate Matches(s: Seen, x: Piece) {
    match s
    case Nothing => true
    case Kind(last, kind) => last == x.last && kind == KindOf(x.b)
    case Padding(last, _) => last == x.last && x.b.StoredBlock?
    case Words(last, _, len, check, data) =>
      && last == x.last && x.b.StoredBlock? && len == |x.b.data| && check == MAX_STORED - len && data <= x.b.data
    case Counts(last, n, bl, have) =>
      && last == x.last && x.b.DynamicBlock? && n == NumbersOf(x.b) && BlAgree(bl, x.b.bl, have)
    case Lengths(last, n, bl, ops, _) =>
      && last == x.last && x.b.DynamicBlock? && n == NumbersOf(x.b) && bl == x.b.bl && ops <= x.ops
    case Items(last, b, ops, p) =>
      && last == x.last && b == x.b && (b.DynamicBlock? ==> ops == x.ops) && Agrees(p, x.its)
    case _ => false
  }

  /** The type comes first. */
  lemma {:induction false} TypeSame(pos: nat, s: Seen, v: seq<bool>, x: Piece, rest: seq<bool>)
    requires SeenOk(s) && !s.Nothing? && !s.Ending? && Readable(x) && SeenBits(pos, s) + v == PieceBits(pos, x) + rest
    ensures SeenKind(s) == KindOf(x.b) && s.last == x.last && SeenTail(pos, s) + v == TailBits(pos, x) + rest
  {
    var kind := SeenKind(s);
    Assoc(TypeBits(kind, s.last), SeenTail(pos, s), v);
    Assoc(TypeBits(KindOf(x.b), x.last), TailBits(pos, x), rest);
    SameType(kind, s.last, SeenTail(pos, s) + v, KindOf(x.b), x.last, TailBits(pos, x) + rest);
  }

  // ----- stored blocks -----

  lemma {:induction false} PaddingSame(p: seq<bool>, w: seq<bool>, v: seq<bool>, q: seq<bool>, y: seq<bool>,
                                       rest: seq<bool>)
    requires |p| == |q| && (p + w) + v == (q + y) + rest
    ensures p == q && w + v == y + rest
  {
    Assoc(p, w, v);
    Assoc(q, y, rest);
    Cancel(p, w + v, q, y + rest);
  }

  /** The words and the bytes read are those of the block. */
  lemma {:induction false} WordsSame(len: nat, check: nat, data: seq<byte>, v: seq<bool>, data': seq<byte>,
                                     rest: seq<bool>)
    requires len <= MAX_STORED && check <= MAX_STORED && |data| <= len && |data'| <= MAX_STORED
    requires WordsAndData(len, check, data) + v == WordsAndData(|data'|, MAX_STORED - |data'|, data') + rest
    ensures len == |data'| && check == MAX_STORED - len && data <= data' && v == Stream(data'[|data|..]) + rest
  {
    ThreeAndMore(Word(len), Word(check), Stream(data), v);
    ThreeAndMore(Word(|data'|), Word(MAX_STORED - |data'|), Stream(data'), rest);
    SameStored(len, check, Stream(data) + v, |data'|, MAX_STORED - |data'|, Stream(data') + rest);
    BytesSame(data, v, data', rest);
  }

  lemma {:induction false} ThreeAndMore(a: seq<bool>, b: seq<bool>, c: seq<bool>, d: seq<bool>)
    ensures (a + (b + c)) + d == a + (b + (c + d))
  {
  }

  lemma {:induction false} BytesSame(x: seq<byte>, v: seq<bool>, y: seq<byte>, rest: seq<bool>)
    requires |x| <= |y| && Stream(x) + v == Stream(y) + rest
    ensures x <= y && v == Stream(y[|x|..]) + rest
  {
    var a, b := y[..|x|], y[|x|..];
    assert y == a + b;
    StreamConcat(a, b);
    Assoc(Stream(a), Stream(b), rest);
    Cancel(Stream(x), v, Stream(a), Stream(b) + rest);
    SameBytes(x, a);
  }

  lemma {:induction false} SameBytes(x: seq<byte>, y: seq<byte>)
    requires |x| == |y| && Stream(x) == Stream(y)
    ensures x == y
  {
    if x != [] {
      var n := |x| - 1;
      Cancel(Stream(x[..n]), ByteBits(x[n]), Stream(y[..n]), ByteBits(y[n]));
      SameBytes(x[..n], y[..n]);
      OneByteSame(x[n], y[n], 8);
      assert x == x[..n] + [x[n]] && y == y[..n] + [y[n]];
    }
  }

  lemma {:induction false} OneByteSame(x: byte, y: byte, n: nat)
    requires n == 8 && Unpack(x, n) == Unpack(y, n)
    ensures x == y
  {
    SmallPowers();
    SameNumber(x, [], y, [], n);
  }

  /** The words and bytes read of a stored block. */
  ghost function WordsRead(s: Seen): seq<bool> {
    if s.Words? then WordsAndData(s.len, s.check, s.data) else []
  }

  lemma {:induction false} StoredTails(pos: nat, s: Seen, x: Piece)
    requires SeenOk(s) && (s.Padding? || s.Words?) && Readable(x) && x.b.StoredBlock?
    ensures SeenTail(pos, s) == PadBits(s.pad, pos + 3) + WordsRead(s)
    ensures TailBits(pos, x) == PadBits(x.pad, pos + 3)
                                + WordsAndData(|x.b.data|, MAX_STORED - |x.b.data|, x.b.data)
  {
    if s.Padding? { assert SeenTail(pos, s) + [] == SeenTail(pos, s); }
  }

  /** The padding and what follows it. */
  lemma {:induction false} StoredSplit(pos: nat, s: Seen, v: seq<bool>, x: Piece, rest: seq<bool>)
    requires SeenOk(s) && (s.Padding? || s.Words?) && Readable(x) && SeenBits(pos, s) + v == PieceBits(pos, x) + rest
    ensures s.last == x.last && x.b.StoredBlock? && PadBits(s.pad, pos + 3) == PadBits(x.pad, pos + 3)
    ensures WordsRead(s) + v == WordsAndData(|x.b.data|, MAX_STORED - |x.b.data|, x.b.data) + rest
  {
    TypeSame(pos, s, v, x, rest);
    StoredTails(pos, s, x);
    PaddingSame(PadBits(s.pad, pos + 3), WordsRead(s), v, PadBits(x.pad, pos + 3),
                WordsAndData(|x.b.data|, MAX_STORED - |x.b.data|, x.b.data), rest);
  }

  lemma {:induction false} PaddingMatches(pos: nat, s: Seen, v: seq<bool>, x: Piece, rest: seq<bool>)
    requires s.Padding? && Readable(x) && SeenBits(pos, s) + v == PieceBits(pos, x) + rest
    ensures Matches(s, x) && |v| >= 32
  {
    StoredSplit(pos, s, v, x, rest);
    assert [] + v == v;
  }

  /** What follows what was read of a stored block. */
  lemma {:induction false} WordsMatch(pos: nat, s: Seen, v: seq<bool>, x: Piece, rest: seq<bool>)
    requires SeenOk(s) && s.Words? && Readable(x) && SeenBits(pos, s) + v == PieceBits(pos, x) + rest
    ensures Matches(s, x) && v == Stream(x.b.data[|s.data|..]) + rest
  {
    StoredSplit(pos, s, v, x, rest);
    AfterPadding(s, v, x, rest);
  }

  lemma {:induction false} AfterPadding(s: Seen, v: seq<bool>, x: Piece, rest: seq<bool>)
    requires SeenOk(s) && s.Words? && x.b.StoredBlock? && |x.b.data| <= MAX_STORED && s.last == x.last
    requires WordsRead(s) + v == WordsAndData(|x.b.data|, MAX_STORED - |x.b.data|, x.b.data) + rest
    ensures Matches(s, x) && v == Stream(x.b.data[|s.data|..]) + rest
  {
    WordsSame(s.len, s.check, s.data, v, x.b.data, rest);
  }

  lemma {:induction false} StoredEnds(pos: nat, s: Seen, v: seq<bool>, x: Piece, rest: seq<bool>)
    requires SeenOk(s) && Whole(s) && s.Words? && Readable(x) && SeenBits(pos, s) + v == PieceBits(pos, x) + rest
    ensures Matches(s, x) && s.data == x.b.data && v == rest
  {
    WordsMatch(pos, s, v, x, rest);
    assert x.b.data[|s.data|..] == [];
    assert [] + rest == rest;
  }

  // ----- the header of a dynamic block -----

  /** What follows the counts and some lengths of the code length code. */
  lemma {:induction false} FrontSame(n: Numbers, bl: seq<nat>, have: nat, more: seq<bool>, v: seq<bool>, b: Block,
                                     ops: seq<Op>, body: seq<bool>, rest: seq<bool>)
    requires NumbersOk(n) && SmallLens(bl) && have <= n.ncode && HeaderOk(b, ops)
    requires Front(n.nlen, n.ndist, n.ncode, bl, have, more) + v == (HeadBits(b, ops) + body) + rest
    ensures n == NumbersOf(b) && BlAgree(bl, b.bl, have)
    ensures more + v == BlLensFrom(b.bl, have, b.blcodes) + (OpsBits(b.bl, ops) + (body + rest))
  {
    var tail := OpsBits(b.bl, ops) + (body + rest);
    ThreeAndMore(CountBits(n.nlen, n.ndist, n.ncode), BlLens(bl, have), more, v);
    FourAndMore(CountBits(|b.ll|, |b.dl|, b.blcodes), BlLens(b.bl, b.blcodes), OpsBits(b.bl, ops), body, rest);
    SameCounts(n.nlen, n.ndist, n.ncode, BlLens(bl, have) + (more + v), |b.ll|, |b.dl|, b.blcodes,
               BlLens(b.bl, b.blcodes) + tail);
    BlLensSplit(b.bl, have, b.blcodes);
    Assoc(BlLens(b.bl, have), BlLensFrom(b.bl, have, b.blcodes), tail);
    SameBlLens(bl, more + v, b.bl, BlLensFrom(b.bl, have, b.blcodes) + tail, have);
  }

  lemma {:induction false} FourAndMore(a: seq<bool>, b: seq<bool>, c: seq<bool>, d: seq<bool>, e: seq<bool>)
    ensures ((a + (b + c)) + d) + e == a + (b + (c + (d + e)))
  {
  }

  /** With all lengths of the code length code, the code is the same. */
  lemma {:induction false} FrontWhole(n: Numbers, bl: seq<nat>, more: seq<bool>, v: seq<bool>, b: Block,
                                      ops: seq<Op>, body: seq<bool>, rest: seq<bool>)
    requires NumbersOk(n) && BlOk(n.ncode, bl) && HeaderOk(b, ops)
    requires Front(n.nlen, n.ndist, n.ncode, bl, n.ncode, more) + v == (HeadBits(b, ops) + body) + rest
    ensures n == NumbersOf(b) && bl == b.bl && more + v == OpsBits(bl, ops) + (body + rest)
  {
    FrontSame(n, bl, n.ncode, more, v, b, ops, body, rest);
    NoneFrom(b.bl, n.ncode, OpsBits(b.bl, ops) + (body + rest));
    BlWhole(n.ncode, bl, b.bl);
  }

  lemma {:induction false} NoneFrom(bl: seq<nat>, n: nat, tail: seq<bool>)
    requires n <= BL_CODES && |bl| == BL_CODES
    ensures BlLensFrom(bl, n, n) + tail == tail
  {
  }

  lemma {:induction false} BlWhole(n: nat, bl: seq<nat>, bl': seq<nat>)
    requires BlOk(n, bl) && BlOk(n, bl') && BlAgree(bl, bl', n)
    ensures bl == bl'
  {
    forall i | 0 <= i < BL_CODES ensures bl[BL_ORDER[i]] == bl'[BL_ORDER[i]] {
      if i >= n { assert NotSent(bl, i) && NotSent(bl', i); }
    }
    BlAgreeAll(bl, bl');
  }

  lemma {:induction false} BlUsable(ncode: nat, bl: seq<nat>)
    requires BlOk(ncode, bl) && Complete(bl)
    ensures Usable(bl)
  {
    CompleteFits(bl);
  }

  /** The run-length codes read are the first ones of the block. */
  lemma {:induction false} OpsSame(n: Numbers, bl: seq<nat>, ops: seq<Op>, v: seq<bool>, b: Block, ops': seq<Op>,
                                   rest: seq<bool>, lens: seq<nat>) returns (tail: seq<Op>)
    requires LengthsOk(n, bl, ops, lens) && HeaderOk(b, ops') && n == NumbersOf(b) && bl == b.bl
    requires OpsBits(bl, ops) + v == OpsBits(bl, ops') + rest
    ensures ops' == ops + tail && OpsCodable(bl, tail) && v == OpsBits(bl, tail) + rest
    ensures DecodeAll(lens, tail) == Some(b.ll + b.dl) && Usable(bl)
  {
    BlUsable(n.ncode, bl);
    AllCodableValid(bl, ops);
    tail := OpsAgree(bl, ops, lens, v, ops', b.ll + b.dl, rest);
  }

  lemma {:induction false} LengthsMatch(pos: nat, s: Seen, v: seq<bool>, x: Piece, rest: seq<bool>)
    requires SeenOk(s) && s.Lengths? && Readable(x) && SeenBits(pos, s) + v == PieceBits(pos, x) + rest
    ensures Matches(s, x)
    ensures if |s.lens| == s.n.nlen + s.n.ndist then s.lens == x.b.ll + x.b.dl else !NoWholeOp(s.bl, v)
  {
    TypeSame(pos, s, v, x, rest);
    var body, lens := BlockBits(x.b.ll, x.b.dl, x.its), s.lens;
    FrontWhole(s.n, s.bl, OpsBits(s.bl, s.ops), v, x.b, x.ops, body, rest);
    var tail := OpsSame(s.n, s.bl, s.ops, v, x.b, x.ops, body + rest, lens);
    TailDecodes(s.bl, lens, tail, x.b.ll + x.b.dl);
    if tail != [] {
      Assoc(OpBits(s.bl, tail[0]), OpsBits(s.bl, tail[1..]), body + rest);
      assert OpBits(s.bl, tail[0]) <= v;
    }
  }

  /** A code that cannot be used is not one of the block. */
  lemma {:induction false} NoWrongOp(pos: nat, s: Seen, v: seq<bool>, x: Piece, rest: seq<bool>)
    requires SeenOk(s) && s.WrongOp? && Readable(x)
    ensures SeenBits(pos, s) + v != PieceBits(pos, x) + rest
  {
    if SeenBits(pos, s) + v == PieceBits(pos, x) + rest {
      TypeSame(pos, s, v, x, rest);
      assert BadRepeat(s.lens, s.bad, s.n.nlen + s.n.ndist);
      var body, lens := BlockBits(x.b.ll, x.b.dl, x.its), s.lens;
      var bad := OpBits(s.bl, s.bad);
      FrontWhole(s.n, s.bl, OpsBits(s.bl, s.ops) + bad, v, x.b, x.ops, body, rest);
      Assoc(OpsBits(s.bl, s.ops), bad, v);
      var tail := OpsSame(s.n, s.bl, s.ops, bad + v, x.b, x.ops, body + rest, lens);
      TailDecodes(s.bl, lens, tail, x.b.ll + x.b.dl);
      NotBad(s.bl, s.bad, v, tail, body + rest);
    }
  }

  /** A code without symbols is not complete. */
  lemma {:induction false} NoSymbolsFirst(lens: seq<nat>, b: nat)
    requires NoSymbols(lens) && b <= MAX_BITS
    ensures First(lens, b) == 0 && (b >= 1 ==> Total(lens, b) == 0)
  {
    if b >= 1 {
      NoSymbolsFirst(lens, b - 1);
      assert NoCode(lens, b);
    }
  }

  lemma {:induction false} NoSymbolsFits(lens: seq<nat>)
    requires NoSymbols(lens)
    ensures Fits(lens) && !Complete(lens)
  {
    forall b: nat | 1 <= b <= MAX_BITS ensures FitsAt(lens, b) { NoSymbolsFirst(lens, b); }
    var m: nat :| m == MAX_BITS;
    NoSymbolsFirst(lens, m);
    assert !ExhaustedAt(lens, m);
  }

  lemma {:induction false} NoJunk(pos: nat, s: Seen, v: seq<bool>, x: Piece, rest: seq<bool>)
    requires SeenOk(s) && s.Junk? && Readable(x)
    ensures SeenBits(pos, s) + v != PieceBits(pos, x) + rest
  {
    if SeenBits(pos, s) + v == PieceBits(pos, x) + rest {
      TypeSame(pos, s, v, x, rest);
      FrontWhole(s.n, s.bl, s.junk, v, x.b, x.ops, BlockBits(x.b.ll, x.b.dl, x.its), rest);
      NoSymbolsFits(s.bl);
    }
  }

  lemma {:induction false} CountsMatch(pos: nat, s: Seen, v: seq<bool>, x: Piece, rest: seq<bool>)
    requires SeenOk(s) && s.Counts? && Readable(x) && SeenBits(pos, s) + v == PieceBits(pos, x) + rest
    ensures Matches(s, x) && (s.have < s.n.ncode ==> |v| >= 3)
  {
    TypeSame(pos, s, v, x, rest);
    var body := BlockBits(x.b.ll, x.b.dl, x.its);
    FrontSame(s.n, s.bl, s.have, [], v, x.b, x.ops, body, rest);
    assert [] + v == v;
    if s.have < s.n.ncode {
      OrderPlace(s.have);
      assert |BlLensFrom(x.b.bl, s.have, x.b.blcodes)| >= 3;
    }
  }

  // ----- block bodies -----

  lemma {:induction false} ItemsMatch(pos: nat, s: Seen, v: seq<bool>, x: Piece, rest: seq<bool>)
    requires SeenOk(s) && s.Items? && Readable(x) && SeenBits(pos, s) + v == PieceBits(pos, x) + rest
    ensures Matches(s, x)
    ensures var g := LensOf(s.b); Encodable(g, x.its) && Taken(g, s.p) + v == BlockBits(g.ll, g.dl, x.its) + rest
    ensures s.p.cur.AtEnd? ==> SeenBits(pos, s) == PieceBits(pos, x)
  {
    TypeSame(pos, s, v, x, rest);
    var g := LensOf(s.b);
    BodySame(s.b, s.ops, Taken(g, s.p), v, x.b, x.ops, BlockBits(LensOf(x.b).ll, LensOf(x.b).dl, x.its), rest);
    DecodesRight(g, s.p, v, x.its, rest);
    if s.p.cur.AtEnd? { TakenAll(g, s.p); }
  }

  /** At the end of a block its body was taken. */
  lemma {:induction false} TakenAll(g: Lens, p: Progress)
    requires Sane(g, p) && p.cur.AtEnd?
    ensures Taken(g, p) == BlockBits(g.ll, g.dl, p.its)
  {
  }

  lemma {:induction false} BodySame(b: Block, ops: seq<Op>, taken: seq<bool>, v: seq<bool>, b': Block, ops': seq<Op>,
                                    body: seq<bool>, rest: seq<bool>)
    requires !b.StoredBlock? && (b.DynamicBlock? ==> HeaderOk(b, ops)) && (b'.DynamicBlock? ==> HeaderOk(b', ops'))
    requires KindOf(b) == KindOf(b') && (HeadBits(b, ops) + taken) + v == (HeadBits(b', ops') + body) + rest
    ensures b == b' && (b.DynamicBlock? ==> ops == ops') && taken + v == body + rest
  {
    if b.DynamicBlock? {
      HeaderSame(b, ops, taken, v, b', ops', body, rest);
    } else {
      assert [] + taken == taken && [] + body == body;
    }
  }

  /** A header and what follows it are read as they were sent. */
  lemma {:induction false} HeaderSame(b: Block, ops: seq<Op>, taken: seq<bool>, v: seq<bool>, b': Block, ops': seq<Op>,
                                      body: seq<bool>, rest: seq<bool>)
    requires HeaderOk(b, ops) && HeaderOk(b', ops')
    requires (HeadBits(b, ops) + taken) + v == (HeadBits(b', ops') + body) + rest
    ensures b == b' && ops == ops' && taken + v == body + rest
  {
    var n := NumbersOf(b);
    Assoc(HeadBits(b, ops), taken, v);
    FrontWhole(n, b.bl, OpsBits(b.bl, ops), taken + v, b', ops', body, rest);
    var tail := OpsSame(n, b.bl, ops, taken + v, b', ops', body + rest, b.ll + b.dl);
    TailDecodes(b.bl, b.ll + b.dl, tail, b'.ll + b'.dl);
    assert [] + (body + rest) == body + rest;
    SameHalves(b.ll, b.dl, b'.ll, b'.dl);
    assert ops + [] == ops;
  }

  lemma {:induction false} SameHalves(a: seq<nat>, b: seq<nat>, c: seq<nat>, d: seq<nat>)
    requires |a| == |c| && a + b == c + d
    ensures a == c && b == d
  {
    assert a == (a + b)[..|a|] && b == (a + b)[|a|..];
    assert c == (c + d)[..|c|] && d == (c + d)[|c|..];
  }

  // ----- all of them -----

  /** Whatever was read of a block agrees with it. */
  lemma {:induction false} ReadsRight(pos: nat, s: Seen, v: seq<bool>, x: Piece, rest: seq<bool>)
    requires SeenOk(s) && !s.Ending? && Readable(x) && SeenBits(pos, s) + v == PieceBits(pos, x) + rest
    ensures Matches(s, x)
  {
    match s
    case Nothing =>
    case Kind(_, _) => TypeSame(pos, s, v, x, rest);
    case Padding(_, _) => PaddingMatches(pos, s, v, x, rest);
    case Words(_, _, _, _, _) => WordsMatch(pos, s, v, x, rest);
    case Counts(_, _, _, _) => CountsMatch(pos, s, v, x, rest);
    case Lengths(_, _, _, _, _) => LengthsMatch(pos, s, v, x, rest);
    case WrongOp(_, _, _, _, _, _) => NoWrongOp(pos, s, v, x, rest);
    case Junk(_, _, _, _, _, _) => NoJunk(pos, s, v, x, rest);
    case Items(_, _, _, _) => ItemsMatch(pos, s, v, x, rest);
  }

  /** What makes inflate report an error: a type that is not used, a stored length without its complement, too many
      codes, codes that inflate_table does not accept, a repeat that cannot be, no code for the end of the block, bits
      that are no code, or a distance too far back. */
  ghost predicate Wrong(s: Seen, start: seq<byte>, window: nat) {
    match s
    case Kind(_, kind) => kind == 3
    case Words(_, _, len, check, _) => check != MAX_STORED - len
    case Counts(_, n, bl, have) =>
      !NumbersFit(n) || (have == n.ncode && BlOk(n.ncode, bl) && !Acceptable(CODES, bl))
    case Lengths(_, n, _, _, lens) => NotCodes(n, lens)
    case WrongOp(_, _, _, _, _, _) => true
    case Junk(_, _, _, _, _, _) => true
    case Items(_, _, _, p) =>
      || p.cur.BadLen? || p.cur.BadDist?
      || (p.cur.AtItem? && Expandable(start, TokensOf(p.its))
          && TokenOf(p.cur.it).dist > Min(window, |Expand(start, TokensOf(p.its))|))
    case _ => false
  }

  /** The lengths are those of two codes that are not accepted. */
  ghost predicate NotCodes(n: Numbers, lens: seq<nat>) {
    && |lens| == n.nlen + n.ndist && n.nlen >= 257
    && !(lens[256] != 0 && Acceptable(LENS, lens[..n.nlen]) && Acceptable(DISTS, lens[n.nlen..]))
  }

  /** Nothing wrong is read of a block of the format. */
  lemma {:induction false} NotWrong(pos: nat, s: Seen, v: seq<bool>, x: Piece, rest: seq<bool>, start: seq<byte>,
                                    window: nat)
    requires Sound(start, x, window) && SeenOk(s) && !s.Ending? && SeenBits(pos, s) + v == PieceBits(pos, x) + rest
    ensures !Wrong(s, start, window)
  {
    ReadsRight(pos, s, v, x, rest);
    if s.Lengths? { LengthsMatch(pos, s, v, x, rest); }
    MatchNotWrong(s, x, start, window);
  }

  lemma {:induction false} MatchNotWrong(s: Seen, x: Piece, start: seq<byte>, window: nat)
    requires SeenOk(s) && Sound(start, x, window) && Matches(s, x)
    requires s.Lengths? && |s.lens| == s.n.nlen + s.n.ndist ==> s.lens == x.b.ll + x.b.dl
    ensures !Wrong(s, start, window)
  {
    match s
    case Counts(_, n, bl, have) =>
      if have == n.ncode && BlOk(n.ncode, bl) { CountsAccepted(n, bl, x); }
    case Lengths(_, n, _, _, lens) =>
      if |lens| == n.nlen + n.ndist { LengthsAccepted(x); }
    case Items(_, _, _, p) => if p.cur.AtItem? { WithinReach(start, p, x.its, window); }
    case _ =>
  }

  lemma {:induction false} CountsAccepted(n: Numbers, bl: seq<nat>, x: Piece)
    requires Readable(x) && x.b.DynamicBlock? && n == NumbersOf(x.b) && BlOk(n.ncode, bl)
    requires BlAgree(bl, x.b.bl, n.ncode)
    ensures Acceptable(CODES, bl)
  {
    BlWhole(n.ncode, bl, x.b.bl);
    CompleteFits(bl);
  }

  lemma {:induction false} LengthsAccepted(x: Piece)
    requires Readable(x) && x.b.DynamicBlock?
    ensures !NotCodes(NumbersOf(x.b), x.b.ll + x.b.dl)
  {
    var lens := x.b.ll + x.b.dl;
    assert lens[..|x.b.ll|] == x.b.ll && lens[|x.b.ll|..] == x.b.dl;
  }

  lemma {:induction false} WithinReach(start: seq<byte>, p: Progress, its: seq<Item>, window: nat)
    requires WithinWindow(start, TokensOf(its), window) && Agrees(p, its) && p.cur.AtItem?
    ensures Expandable(start, TokensOf(p.its))
    ensures TokenOf(p.cur.it).dist <= Min(window, |Expand(start, TokensOf(p.its))|)
  {
    var ts, n := TokensOf(its), |p.its|;
    assert TokensOf(p.its) == ts[..n];
    ExpandablePrefix(start, ts, n);
    assert ts[n] == TokenOf(p.cur.it);
  }

  /** The bits held do not complete what is to be read next. */
  ghost predicate Wanting(s: Seen, a: Acc) {
    match s
    case Nothing => a.bits < 3
    case Kind(_, kind) => kind == DYN_TREES && a.bits < 14
    case Padding(_, _) => a.bits < 32
    case Words(_, _, len, _, data) => |data| < len && a.bits < 8
    case Counts(_, n, _, have) => have < n.ncode && a.bits < 3
    case Lengths(_, n, bl, _, lens) => |lens| < n.nlen + n.ndist && NoWholeOp(bl, Held(a))
    case Junk(_, _, _, _, _, _) => true
    case Items(_, b, _, p) => Lacking(LensOf(b), a, p.cur)
    case _ => false
  }

  /** When all of a block is there, there is no waiting for more. */
  lemma {:induction false} NotWanting(pos: nat, s: Seen, a: Acc, x: Piece, rest: seq<bool>)
    requires SeenOk(s) && !s.Ending? && Readable(x) && SeenBits(pos, s) + Held(a) == PieceBits(pos, x) + rest
    ensures !Wanting(s, a)
  {
    var v := Held(a);
    match s
    case Nothing => assert [] + v == v;
    case Kind(_, _) =>
      TypeSame(pos, s, v, x, rest);
      assert [] + v == v;
      if x.b.DynamicBlock? { assert |HeadBits(x.b, x.ops)| >= 14; }
    case Padding(_, _) => PaddingMatches(pos, s, v, x, rest);
    case Words(_, _, _, _, _) => WordsMatch(pos, s, v, x, rest);
    case Counts(_, _, _, _) => CountsMatch(pos, s, v, x, rest);
    case Lengths(_, _, _, _, _) => LengthsMatch(pos, s, v, x, rest);
    case Items(_, b, _, p) =>
      ItemsMatch(pos, s, v, x, rest);
      NeverLacking(LensOf(b), p, a, x.its, rest);
    case WrongOp(_, _, _, _, _, _) =>
    case Junk(_, _, _, _, _, _) => NoJunk(pos, s, v, x, rest);
  }

  // ----- whole blocks -----

  /** A whole block has been read. */
  ghost predicate Whole(s: Seen) {
    (s.Words? && |s.data| == s.len && s.check == MAX_STORED - s.len) || (s.Items? && s.p.cur.AtEnd?)
  }

  /** The block that has been read. */
  ghost function BlockRead(s: Seen): Piece
    requires s.Words? || s.Items?
  {
    if s.Words? then Piece(StoredBlock(s.data), s.last, [], s.pad, [])
    else Piece(s.b, s.last, s.p.its, 0, s.ops)
  }

  lemma {:induction false} WholeBits(pos: nat, s: Seen)
    requires SeenOk(s) && Whole(s)
    ensures Readable(BlockRead(s)) && PieceBits(pos, BlockRead(s)) == SeenBits(pos, s)
  {
    if s.Items? { TakenAll(LensOf(s.b), s.p); } else { WholeTail(pos, s); }
  }

  lemma {:induction false} WholeTail(pos: nat, s: Seen)
    requires SeenOk(s) && Whole(s) && s.Words?
    ensures Readable(BlockRead(s)) && TailBits(pos, BlockRead(s)) == SeenTail(pos, s)
  {
  }

  /** A block, as it has been read at its end. */
  ghost function AllRead(x: Piece): Seen
    requires Readable(x)
  {
    if x.b.StoredBlock? then Words(x.last, x.pad, |x.b.data|, MAX_STORED - |x.b.data|, x.b.data)
    else Items(x.last, x.b, x.ops, Progress(x.its, AtEnd, 0))
  }

  lemma {:induction false} AllReadBits(pos: nat, x: Piece)
    requires Readable(x)
    ensures SeenOk(AllRead(x)) && Whole(AllRead(x)) && SeenBits(pos, AllRead(x)) == PieceBits(pos, x)
  {
    if x.b.StoredBlock? {
      AllReadTail(pos, x);
    } else {
      TakenAll(LensOf(x.b), Progress(x.its, AtEnd, 0));
    }
  }

  lemma {:induction false} AllReadTail(pos: nat, x: Piece)
    requires Readable(x) && x.b.StoredBlock?
    ensures SeenOk(AllRead(x)) && SeenTail(pos, AllRead(x)) == TailBits(pos, x)
  {
  }

  /** The same as far as the stream and what it stands for go. */
  ghost predicate Alike(x: Piece, y: Piece) {
    x.last == y.last && x.b == y.b && (x.b.StoredBlock? || x.its == y.its)
  }

  /** Where a whole block was read, the stream has that block, and both end there. */
  lemma {:induction false} EndsThere(pos: nat, s: Seen, v: seq<bool>, x: Piece, rest: seq<bool>)
    requires SeenOk(s) && Whole(s) && Readable(x) && SeenBits(pos, s) + v == PieceBits(pos, x) + rest
    ensures Alike(BlockRead(s), x) && v == rest && SeenBits(pos, s) == PieceBits(pos, x)
  {
    if s.Words? {
      StoredEnds(pos, s, v, x, rest);
    } else {
      ItemsMatch(pos, s, v, x, rest);
    }
    SameFront(SeenBits(pos, s), v, PieceBits(pos, x), rest);
  }

  lemma {:induction false} SameFront(a: seq<bool>, v: seq<bool>, b: seq<bool>, w: seq<bool>)
    requires a + v == b + w && (v == w || a == b)
    ensures a == b && v == w
  {
    Cancel(a, v, b, w);
  }

  /** Equal streams begin with the same block. */
  lemma {:induction false} SameBlock(pos: nat, y: Piece, v: seq<bool>, x: Piece, rest: seq<bool>)
    requires Readable(y) && Readable(x) && PieceBits(pos, y) + v == PieceBits(pos, x) + rest
    ensures Alike(y, x) && v == rest && PieceBits(pos, y) == PieceBits(pos, x)
  {
    AllReadBits(pos, y);
    EndsThere(pos, AllRead(y), v, x, rest);
  }
}
