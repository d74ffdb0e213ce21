/** inflate on any bytes, over any number of calls: what has been read and written at every return, and why the call
    returned. */
module InflateStream {
  import opened Bits
  import opened Options
  import opened Canonical
  import opened SubTables
  import opened InflateTable
  import opened Symbols
  import opened Lz77
  import opened Tokens
  import opened BitReader
  import opened BlockStates
  import opened BlockOutput
  import opened Window
  import opened Inflate
  import opened Decoding
  import opened BlockRoundTrip
  import opened RunLengths
  import opened CodeLengths
  import opened StaticTrees
  import opened Blocks
  import opened BlockEncoder
  import opened FixedCodes
  import opened BlockHeaders
  import opened Streams
  import opened StreamReading

  /** The mode of inflate, with the fields that are in use in it. */
  datatype Stage =
    | Type
    | Stored
    | Copy(left: nat)
    | Table
    | LenLens(n: Numbers, lens: seq<nat>, have: nat)
    | CodeLens(n: Numbers, table: seq<Entry>, root: nat, lens: seq<nat>)
    | Body(codes: Codes, st: State)
    | Done
    | Failed

  /** The largest distance of the format. */
  const FAR: nat := 32768

  // ----- where the decoder stands in a block -----

  /** The bits of the current block that were taken and those unread are the same as before. */
  ghost predicate Moves(pos: nat, s: Seen, input: seq<byte>, a: Acc, s': Seen, a': Acc) {
    && SeenOk(s) && SeenOk(s') && Good(input, a) && Good(input, a') && a.next <= a'.next
    && forall q: nat {:trigger SameBits(q, s, input, a, s', a')} :: q == pos ==> SameBits(q, s, input, a, s', a')
  }

  ghost predicate SameBits(pos: nat, s: Seen, input: seq<byte>, a: Acc, s': Seen, a': Acc) {
    && SeenOk(s) && SeenOk(s') && a.next <= |input| && a'.next <= |input|
    && SeenBits(pos, s) + Unread(input, a) == SeenBits(pos, s') + Unread(input, a')
  }

  /** The output is that of the blocks before and of what was read of the current one. */
  ghost predicate OutputIs(start: seq<byte>, s: Seen, total: seq<byte>) {
    match s
    case Words(_, _, _, _, data) => total == start + data
    case Items(_, _, _, p) => Wrote(start, p, total)
    case _ => total == start
  }

  ghost predicate AtStored(last: bool, s: Seen, a: Acc) {
    (s == Kind(last, STORED_BLOCK) || (s.Padding? && s.last == last && a.bits % 8 == 0)) && a.bits < 32
  }

  ghost predicate AtCopy(left: nat, last: bool, s: Seen, a: Acc) {
    && s.Words? && s.last == last && s.check == MAX_STORED - s.len && s.len == left + |s.data| && a.bits == 0
  }

  ghost predicate AtCodeLens(n: Numbers, T: seq<Entry>, root: nat, lens: seq<nat>, s: Seen, a: Acc) {
    && (s.Lengths? || s.Junk?) && s.n == n && |lens| < n.nlen + n.ndist
    && CodeLengths.LengthTables(T, s.bl, root) && s.lens == lens
    && (if s.Junk? then AllZero(lens) else Snug(s.bl, a))
  }

  ghost predicate AtBody(k: Codes, st: State, last: bool, s: Seen, a: Acc) {
    && s.Items? && s.last == last && Ready(k, LensOf(s.b)) && BlockStates.Holds(st, s.p.cur) && PartWritten(st, s.p)
    && Tight(LensOf(s.b), a, s.p.cur) && st.mode != TYPE && st.mode != BAD
  }

  /** The decoder is where it should be after what was read of the current block. */
  ghost predicate At(stage: Stage, last: bool, s: Seen, a: Acc, start: seq<byte>, window: nat) {
    match stage
    case Type => s.Nothing? && a.bits < 8
    case Stored => AtStored(last, s, a)
    case Copy(left) => AtCopy(left, last, s, a)
    case Table => s == Kind(last, DYN_TREES) && a.bits < 14
    case LenLens(n, lens, have) => s == Counts(last, n, lens, have) && NumbersFit(n) && a.bits < 8
    case CodeLens(n, T, root, lens) => AtCodeLens(n, T, root, lens, s, a) && s.last == last
    case Body(k, st) => AtBody(k, st, last, s, a)
    case Done => s.Ending?
    case Failed => Wrong(s, start, window)
  }

  // ----- state TYPE -----

  /** State TYPEDO. */
  method TypeStep(input: seq<byte>, a: Acc, last: bool, ghost pos: nat, ghost start: seq<byte>, ghost window: nat)
    returns (go: bool, a': Acc, stage: Stage, last': bool, ghost s': Seen)
    requires Good(input, a) && a.bits < 8
    ensures Moves(pos, Nothing, input, a, s', a') && At(stage, last', s', a', start, window)
    ensures OutputIs(start, s', start) && (stage.Done? <==> last) && (last ==> last' && go)
    ensures if go then !stage.Type? && |Unread(input, a')| <= |Unread(input, a)|
                       && (stage.Done? || |Unread(input, a')| < |Unread(input, a)|)
            else stage.Type? && last' == last && a'.next == |input| && Wanting(s', a')
  {
    go, last', s' := true, last, Nothing;
    ghost var u := Unread(input, a);
    if last {
      a' := DropBits(input, a, a.bits % 8);
      stage, s' := Stage.Done, Ending(Unpack(a.hold, a.bits % 8));
      assert [] + u == u;
      return;
    }
    var kind;
    go, a', last', kind := ReadType(input, a);
    if !go {
      last', stage := last, Type;
      return;
    }
    s' := Kind(last', kind);
    KindMoves(pos, last', kind, u, Unread(input, a'));
    if kind == STORED_BLOCK {
      stage := Stored;
    } else if kind == STATIC_TREES {
      var k := FixedTables();
      stage, s' := Body(k, State(LEN, 0, 0, 0, 0)), Items(last', StaticBlock, [], Progress([], AtLen, 0));
      FixedMoves(pos, last', start, a');
    } else if kind == DYN_TREES {
      stage := Table;
    } else {
      stage := Failed;
    }
  }

  lemma {:induction false} KindMoves(pos: nat, last: bool, kind: nat, u: seq<bool>, u': seq<bool>)
    requires kind < 4 && u == TypeBits(kind, last) + u'
    ensures SeenBits(pos, Nothing) + u == SeenBits(pos, Kind(last, kind)) + u'
  {
    assert [] + u == u;
    assert TypeBits(kind, last) + [] == TypeBits(kind, last);
  }

  /** The beginning of a block with the fixed codes. */
  lemma {:induction false} FixedMoves(pos: nat, last: bool, start: seq<byte>, a: Acc)
    requires a.bits < 8
    ensures var s := Items(last, StaticBlock, [], Progress([], AtLen, 0));
            && SeenOk(s) && SeenBits(pos, s) == SeenBits(pos, Kind(last, STATIC_TREES)) && OutputIs(start, s, start)
  {
    StaticIsFixed([]);
    BlockBegins(FixedLens(), start, a);
    NothingTaken(FixedLens());
  }

  lemma {:induction false} NothingTaken(g: Lens)
    ensures Taken(g, Progress([], AtLen, 0)) == []
  {
  }

  // ----- stored blocks -----

  /** After the padding of a stored block was dropped. */
  ghost function Padded(last: bool, s: Seen, hold: nat): Seen {
    if s.Padding? then s else Padding(last, hold)
  }

  lemma {:induction false} PadMoves(pos: nat, last: bool, s: Seen, a: Acc, u: seq<bool>, u': seq<bool>)
    requires AtStored(last, s, a) && (pos + |SeenBits(pos, s)| + a.bits) % 8 == 0
    requires u == Unpack(a.hold, a.bits % 8) + u'
    ensures SeenBits(pos, s) + u == SeenBits(pos, Padded(last, s, a.hold)) + u'
  {
    if s.Padding? {
      assert [] + u' == u';
    } else {
      PadIs(pos, a.bits);
      KindThenPad(TypeBits(STORED_BLOCK, last), Unpack(a.hold, a.bits % 8), u');
    }
  }

  lemma {:induction false} PadIs(pos: nat, bits: nat)
    requires (pos + 3 + bits) % 8 == 0
    ensures PadLen(pos + 3) == bits % 8
  {
  }

  lemma {:induction false} KindThenPad(t: seq<bool>, p: seq<bool>, u: seq<bool>)
    ensures (t + []) + (p + u) == (t + p) + u
  {
  }

  lemma {:induction false} WordsMove(pos: nat, last: bool, pad: nat, len: nat, check: nat, u: seq<bool>)
    requires len <= MAX_STORED && check <= MAX_STORED
    ensures SeenBits(pos, Padding(last, pad)) + (Word(len) + (Word(check) + u))
            == SeenBits(pos, Words(last, pad, len, check, [])) + u
  {
    PadThenWords(TypeBits(STORED_BLOCK, last), PadBits(pad, pos + 3), Word(len), Word(check), u);
  }

  lemma {:induction false} PadThenWords(t: seq<bool>, p: seq<bool>, a: seq<bool>, b: seq<bool>, u: seq<bool>)
    ensures (t + p) + (a + (b + u)) == (t + (p + (a + (b + [])))) + u
  {
  }

  /** State STORED. */
  method StoredStep(input: seq<byte>, a: Acc, last: bool, ghost s: Seen, ghost pos: nat, ghost start: seq<byte>,
                    ghost window: nat)
    returns (go: bool, a': Acc, stage: Stage, ghost s': Seen)
    requires Good(input, a) && SeenOk(s) && AtStored(last, s, a) && (pos + |SeenBits(pos, s)| + a.bits) % 8 == 0
    ensures Moves(pos, s, input, a, s', a') && At(stage, last, s', a', start, window) && OutputIs(start, s', start)
    ensures if go then (stage.Copy? || stage.Failed?) && |Unread(input, a')| < |Unread(input, a)|
            else stage.Stored? && a'.next == |input| && Wanting(s', a')
  {
    s' := Padded(last, s, a.hold);
    var length, check;
    go, a', length, check := ReadStored(input, a);
    if !go {
      stage := Stored;
      PadMoves(pos, last, s, a, Unread(input, a), Unread(input, a'));
      return;
    }
    PadMoves(pos, last, s, a, Unread(input, a), Word(length) + (Word(check) + Unread(input, a')));
    WordsMove(pos, last, s'.pad, length, check, Unread(input, a'));
    s' := Words(last, s'.pad, length, check, []);
    assert start + [] == start;
    if length != MAX_STORED - check {
      stage := Failed;
    } else {
      stage := Copy(length);
    }
  }

  /** State COPY: as much as there is input and space for. */
  method CopyStep(input: seq<byte>, a: Acc, last: bool, left: nat, put: array<byte>, pos: nat, ghost s: Seen,
                  ghost at: nat, ghost start: seq<byte>, ghost prior: seq<byte>)
    returns (go: bool, a': Acc, left': nat, pos': nat, ghost s': Seen)
    requires Good(input, a) && SeenOk(s) && pos <= put.Length && 0 < left && AtCopy(left, last, s, a)
    requires OutputIs(start, s, prior + put[..pos])
    modifies put
    ensures pos <= pos' <= put.Length && Grown(old(put[..]), put[..], pos, pos' - pos)
    ensures Moves(at, s, input, a, s', a') && AtCopy(left', last, s', a') && OutputIs(start, s', prior + put[..pos'])
    ensures if go then |Unread(input, a')| < |Unread(input, a)|
            else pos' == put.Length || (a'.next == |input| && Wanting(s', a'))
  {
    var copy := left;
    if copy > |input| - a.next { copy := |input| - a.next; }
    if copy > put.Length - pos { copy := put.Length - pos; }
    a', left', pos', s' := a, left, pos, s;
    go := copy != 0;
    if go {
      a', s' := CopySome(input, a, copy, put, pos, s, at, start, prior);
      left', pos' := left - copy, pos + copy;
    }
  }

  method CopySome(input: seq<byte>, a: Acc, copy: nat, put: array<byte>, pos: nat, ghost s: Seen, ghost at: nat,
                  ghost start: seq<byte>, ghost prior: seq<byte>)
    returns (a': Acc, ghost s': Seen)
    requires Good(input, a) && a.bits == 0 && SeenOk(s) && s.Words? && 0 < copy <= s.len - |s.data|
    requires pos + copy <= put.Length && a.next + copy <= |input| && OutputIs(start, s, prior + put[..pos])
    modifies put
    ensures Grown(old(put[..]), put[..], pos, copy) && Moves(at, s, input, a, s', a')
    ensures s'.Words? && s' == s.(data := s'.data) && |s'.data| == |s.data| + copy
    ensures OutputIs(start, s', prior + put[..pos + copy])
    ensures a'.bits == 0 && |Unread(input, a')| < |Unread(input, a)|
  {
    ghost var before, x := put[..], input[a.next..a.next + copy];
    PutBytes(put, pos, input, a.next, copy);
    a', s' := a.(next := a.next + copy), s.(data := s.data + x);
    CopyGoes(at, s, input, a, copy, start, prior, before, put[..], pos);
  }

  lemma {:induction false} CopyGoes(at: nat, s: Seen, input: seq<byte>, a: Acc, n: nat, start: seq<byte>,
                                    prior: seq<byte>, before: seq<byte>, after: seq<byte>, pos: nat)
    requires Good(input, a) && a.bits == 0 && SeenOk(s) && s.Words? && 0 < n <= s.len - |s.data|
    requires pos <= |before| && a.next + n <= |input| && OutputIs(start, s, prior + before[..pos])
    requires Grown(before, after, pos, n) && after[pos..pos + n] == input[a.next..a.next + n]
    ensures var s', a' := s.(data := s.data + input[a.next..a.next + n]), a.(next := a.next + n);
            Moves(at, s, input, a, s', a') && OutputIs(start, s', prior + after[..pos + n])
            && |Unread(input, a')| < |Unread(input, a)|
  {
    CopyMoves(at, s, input, a, n);
    CopyShrinks(input, a, n);
    CopyWrites(start, s.data, input[a.next..a.next + n], prior, before, after, pos);
  }

  lemma {:induction false} CopyShrinks(input: seq<byte>, a: Acc, n: nat)
    requires 0 < n && a.next + n <= |input|
    ensures |Unread(input, a.(next := a.next + n))| < |Unread(input, a)|
  {
  }

  /** zmemcpy from the input to the output. */
  method PutBytes(put: array<byte>, pos: nat, input: seq<byte>, next: nat, n: nat)
    requires pos + n <= put.Length && next + n <= |input|
    modifies put
    ensures Grown(old(put[..]), put[..], pos, n) && put[pos..pos + n] == input[next..next + n]
  {
    forall i | 0 <= i < n {
      put[pos + i] := input[next + i];
    }
  }

  lemma {:induction false} CopyMoves(at: nat, s: Seen, input: seq<byte>, a: Acc, n: nat)
    requires Good(input, a) && a.bits == 0 && a.next + n <= |input| && SeenOk(s) && s.Words? && |s.data| + n <= s.len
    ensures Moves(at, s, input, a, s.(data := s.data + input[a.next..a.next + n]), a.(next := a.next + n))
  {
    var k := a.next + n;
    StreamTail(input, a.next, k);
    HeldNothing(a, Stream(input[a.next..]));
    HeldNothing(a.(next := k), Stream(input[k..]));
    BytesMove(at, s, input[a.next..k], Stream(input[k..]));
  }

  lemma {:induction false} BytesMove(at: nat, s: Seen, x: seq<byte>, u: seq<bool>)
    requires SeenOk(s) && s.Words? && |s.data| + |x| <= s.len
    ensures SeenBits(at, s) + (Stream(x) + u) == SeenBits(at, s.(data := s.data + x)) + u
  {
    DataMoves(s.len, s.check, s.data, x, u);
    WordsFollow(at, s, WordsAndData(s.len, s.check, s.data), Stream(x) + u);
    WordsFollow(at, s.(data := s.data + x), WordsAndData(s.len, s.check, s.data + x), u);
  }

  lemma {:induction false} DataMoves(len: nat, check: nat, data: seq<byte>, x: seq<byte>, u: seq<bool>)
    ensures WordsAndData(len, check, data) + (Stream(x) + u) == WordsAndData(len, check, data + x) + u
  {
    StreamConcat(data, x);
    DataRegroups(Word(len), Word(check), Stream(data), Stream(x), u);
  }

  lemma {:induction false} DataRegroups(a: seq<bool>, b: seq<bool>, c: seq<bool>, x: seq<bool>, u: seq<bool>)
    ensures (a + (b + c)) + (x + u) == (a + (b + (c + x))) + u
  {
  }

  /** What comes before the words of a stored block does not change. */
  lemma {:induction false} WordsFollow(at: nat, s: Seen, w: seq<bool>, u: seq<bool>)
    requires SeenOk(s) && s.Words? && w == WordsAndData(s.len, s.check, s.data)
    ensures SeenBits(at, s) + u == BeforeWords(at, s.last, s.pad) + (w + u)
  {
    BeforeRegroups(TypeBits(STORED_BLOCK, s.last), PadBits(s.pad, at + 3), w, u);
  }

  ghost function BeforeWords(at: nat, last: bool, pad: nat): seq<bool> {
    TypeBits(STORED_BLOCK, last) + PadBits(pad, at + 3)
  }

  lemma {:induction false} BeforeRegroups(t: seq<bool>, p: seq<bool>, w: seq<bool>, u: seq<bool>)
    ensures (t + (p + w)) + u == (t + p) + (w + u)
  {
  }

  lemma {:induction false} HeldNothing(a: Acc, u: seq<bool>)
    requires a.bits == 0
    ensures Held(a) + u == u
  {
    assert Held(a) == [];
  }

  lemma {:induction false} CopyWrites(start: seq<byte>, data: seq<byte>, x: seq<byte>, prior: seq<byte>,
                                      before: seq<byte>, after: seq<byte>, pos: nat)
    requires pos <= |before| && prior + before[..pos] == start + data
    requires Grown(before, after, pos, |x|) && after[pos..pos + |x|] == x
    ensures prior + after[..pos + |x|] == start + (data + x)
  {
    assert after[..pos + |x|] == before[..pos] + x;
    assert prior + (before[..pos] + x) == (prior + before[..pos]) + x;
    assert start + (data + x) == (start + data) + x;
  }

  // ----- the header of a block with its own trees -----

  /** State TABLE. */
  method TableStep(input: seq<byte>, a: Acc, last: bool, ghost pos: nat, ghost start: seq<byte>, ghost window: nat)
    returns (go: bool, a': Acc, stage: Stage, ghost s': Seen)
    requires Good(input, a) && a.bits < 14
    ensures Moves(pos, Kind(last, DYN_TREES), input, a, s', a') && At(stage, last, s', a', start, window)
    ensures OutputIs(start, s', start)
    ensures if go then (stage.LenLens? || stage.Failed?) && |Unread(input, a')| < |Unread(input, a)|
            else stage.Table? && a'.next == |input| && Wanting(s', a')
  {
    s' := Kind(last, DYN_TREES);
    var nlen, ndist, ncode;
    go, a', nlen, ndist, ncode := ReadCounts(input, a);
    if !go {
      stage := Table;
      return;
    }
    var n, lens := Numbers(nlen, ndist, ncode), seq(BL_CODES, _ => 0);
    s' := Counts(last, n, lens, 0);
    CountsMove(pos, last, n, lens, Unread(input, a), Unread(input, a'));
    if nlen > 286 || ndist > 30 {
      stage := Failed;
    } else {
      stage := LenLens(n, lens, 0);
    }
  }

  lemma {:induction false} CountsMove(pos: nat, last: bool, n: Numbers, lens: seq<nat>, u: seq<bool>, u': seq<bool>)
    requires NumbersOk(n) && SmallLens(lens) && u == CountBits(n.nlen, n.ndist, n.ncode) + u'
    ensures SeenBits(pos, Kind(last, DYN_TREES)) + u == SeenBits(pos, Counts(last, n, lens, 0)) + u'
  {
    KindThenCounts(TypeBits(DYN_TREES, last), CountBits(n.nlen, n.ndist, n.ncode), u');
  }

  lemma {:induction false} KindThenCounts(t: seq<bool>, c: seq<bool>, u: seq<bool>)
    ensures (t + []) + (c + u) == (t + (c + ([] + []))) + u
  {
  }

  /** State LENLENS: one length, or the table when all are there. */
  method LenLensStep(input: seq<byte>, a: Acc, last: bool, n: Numbers, lens: seq<nat>, have: nat, ghost pos: nat,
                     ghost start: seq<byte>, ghost window: nat)
    returns (go: bool, a': Acc, stage: Stage, ghost s': Seen)
    requires Good(input, a) && SeenOk(Counts(last, n, lens, have)) && NumbersFit(n) && a.bits < 8
    ensures Moves(pos, Counts(last, n, lens, have), input, a, s', a') && At(stage, last, s', a', start, window)
    ensures OutputIs(start, s', start)
    ensures if go then
              || (stage.LenLens? && |Unread(input, a')| < |Unread(input, a)|)
              || (a' == a && (stage.CodeLens? || stage.Failed?))
            else stage.LenLens? && a'.next == |input| && Wanting(s', a')
  {
    if have < n.ncode {
      go, a', stage, s' := ReadLength(input, a, last, n, lens, have, pos, start, window);
    } else {
      go, a' := true, a;
      stage, s' := BuildFirst(last, n, lens, have, pos, input, a, start, window);
    }
  }

  /** The next length of the code length code. */
  method ReadLength(input: seq<byte>, a: Acc, last: bool, n: Numbers, lens: seq<nat>, have: nat, ghost pos: nat,
                    ghost start: seq<byte>, ghost window: nat)
    returns (go: bool, a': Acc, stage: Stage, ghost s': Seen)
    requires Good(input, a) && SeenOk(Counts(last, n, lens, have)) && NumbersFit(n) && a.bits < 8 && have < n.ncode
    ensures Moves(pos, Counts(last, n, lens, have), input, a, s', a') && OutputIs(start, s', start)
    ensures stage.LenLens? && At(stage, last, s', a', start, window)
    ensures if go then |Unread(input, a')| < |Unread(input, a)| else a'.next == |input| && Wanting(s', a')
  {
    var lens';
    ghost var v;
    s' := Counts(last, n, lens, have);
    go, a', lens', v := ReadBlLen(input, a, lens, have);
    if go {
      s' := Counts(last, n, lens', have + 1);
      LengthMoves(pos, last, n, lens, have, v, Unread(input, a'));
      stage := LenLens(n, lens', have + 1);
    } else {
      stage := LenLens(n, lens, have);
    }
  }

  lemma {:induction false} LengthMoves(pos: nat, last: bool, n: Numbers, lens: seq<nat>, have: nat, v: nat,
                                       u: seq<bool>)
    requires NumbersOk(n) && SmallLens(lens) && have < n.ncode && v < 8
    ensures BL_ORDER[have] < BL_CODES && SmallLens(lens[BL_ORDER[have] := v])
    ensures SeenBits(pos, Counts(last, n, lens, have)) + (Unpack(v, 3) + u)
            == SeenBits(pos, Counts(last, n, lens[BL_ORDER[have] := v], have + 1)) + u
  {
    BlLensMore(lens, have, v);
    LengthRegroups(TypeBits(DYN_TREES, last), CountBits(n.nlen, n.ndist, n.ncode), BlLens(lens, have), Unpack(v, 3), u);
  }

  lemma {:induction false} LengthRegroups(t: seq<bool>, c: seq<bool>, b: seq<bool>, x: seq<bool>, u: seq<bool>)
    ensures (t + (c + (b + []))) + (x + u) == (t + (c + ((b + x) + []))) + u
  {
  }

  /** The lengths not sent are cleared, and the table of the code length code is built. */
  method BuildFirst(last: bool, n: Numbers, lens: seq<nat>, have: nat, ghost pos: nat, ghost input: seq<byte>,
                    ghost a: Acc,
                    ghost start: seq<byte>, ghost window: nat)
    returns (stage: Stage, ghost s': Seen)
    requires SeenOk(Counts(last, n, lens, have)) && have == n.ncode && NumbersFit(n) && a.bits < 8 && Good(input, a)
    ensures Moves(pos, Counts(last, n, lens, have), input, a, s', a)
    ensures (stage.CodeLens? || stage.Failed?) && At(stage, last, s', a, start, window) && OutputIs(start, s', start)
  {
    var bl := ClearBlLens(lens, n.ncode);
    BlLensOf(bl, lens, n.ncode);
    forall i | n.ncode <= i < BL_CODES ensures NotSent(bl, i) {}
    var ok, T, root := BuildCodeTable(bl);
    if !ok {
      stage, s' := Failed, Counts(last, n, bl, n.ncode);
      return;
    }
    stage := CodeLens(n, T, root, []);
    if NoSymbols(bl) {
      s' := Junk(last, n, bl, [], [], []);
    } else {
      s' := Lengths(last, n, bl, [], []);
    }
  }

  /** State CODELENS. */
  method CodeLensState(input: seq<byte>, a: Acc, last: bool, n: Numbers, T: seq<Entry>, root: nat, lens: seq<nat>,
                       ghost s: Seen, ghost pos: nat, ghost start: seq<byte>, ghost window: nat)
    returns (go: bool, a': Acc, stage: Stage, ghost s': Seen)
    requires Good(input, a) && SeenOk(s) && AtCodeLens(n, T, root, lens, s, a) && s.last == last
    ensures Moves(pos, s, input, a, s', a') && At(stage, last, s', a', start, window) && OutputIs(start, s', start)
    ensures |Unread(input, a')| <= |Unread(input, a)|
    ensures if go then stage.Body? || stage.Failed? else stage.CodeLens? && a'.next == |input| && Wanting(s', a')
  {
    var res, have;
    res, a', have, s' := ReadLens(input, a, n, T, root, lens, s, pos);
    go := res != Wait;
    if res == CodeLengths.Result.Done {
      stage, s' := BodyStart(last, have, n, s', pos, input, a, a', s, start, window);
    } else if res == Error {
      stage := Failed;
    } else {
      stage := CodeLens(n, T, root, have);
    }
  }

  /** Some run-length codes more. */
  method ReadLens(input: seq<byte>, a: Acc, n: Numbers, T: seq<Entry>, root: nat, lens: seq<nat>, ghost s: Seen,
                  ghost pos: nat)
    returns (res: CodeLengths.Result, a': Acc, have: seq<nat>, ghost s': Seen)
    requires Good(input, a) && SeenOk(s) && AtCodeLens(n, T, root, lens, s, a)
    ensures Moves(pos, s, input, a, s', a') && |Unread(input, a')| <= |Unread(input, a)|
    ensures res == Error ==> s'.WrongOp? || s'.Junk?
    ensures res != Error ==> LensGo(n, lens, s, have, s')
    ensures res == CodeLengths.Result.Done ==> |have| == n.nlen + n.ndist && (s'.Lengths? ==> a'.bits < 8)
    ensures res == Wait ==> |have| < n.nlen + n.ndist && a'.next == |input| && Wanting(s', a')
                            && (s'.Lengths? ==> Snug(s'.bl, a'))
  {
    ghost var ops, bad;
    SoFar(s, lens);
    res, a', have, ops, bad := CodeLengths.CodeLens(input, a, T, root, n.nlen + n.ndist, lens, s.bl, s.ops);
    SoFarGives(s, ops, have);
    s' := LensSeen(pos, s, res, ops, bad, have, if res == Error then OpBits(s.bl, bad) else [], input, a, a');
  }

  /** From some lengths to more of them. */
  ghost predicate LensGo(n: Numbers, lens: seq<nat>, s: Seen, have: seq<nat>, s': Seen) {
    && (s.Lengths? || s.Junk?) && (s'.Lengths? <==> s.Lengths?) && (s'.Junk? <==> s.Junk?)
    && (s'.Lengths? || s'.Junk?) && s'.last == s.last && s'.n == s.n == n && s'.bl == s.bl
    && s'.lens == have && (s.Junk? ==> AllZero(have))
  }

  lemma {:induction false} SoFar(s: Seen, lens: seq<nat>)
    requires SeenOk(s) && (s.Lengths? || s.Junk?) && s.lens == lens
    ensures ReadSoFar(s.bl, s.ops, lens) && (Complete(s.bl) <==> s.Lengths?) && (s.Lengths? ==> Usable(s.bl))
  {
    if s.Lengths? {
      AllCodableValid(s.bl, s.ops);
      CompleteFits(s.bl);
    } else {
      NoSymbolsFits(s.bl);
    }
  }

  lemma {:induction false} SoFarGives(s: Seen, ops: seq<Op>, lens: seq<nat>)
    requires SeenOk(s) && (s.Lengths? || s.Junk?) && ReadSoFar(s.bl, ops, lens)
    ensures AllValid(ops) && Gives(ops, lens) && (s.Lengths? ==> OpsCodable(s.bl, ops))
  {
  }

  /** What was read after some run-length codes more. */
  lemma {:induction false} LensSeen(pos: nat, s: Seen, res: CodeLengths.Result, ops: seq<Op>, bad: Op, have: seq<nat>,
                                    c: seq<bool>, input: seq<byte>, a: Acc, a': Acc)
    returns (s': Seen)
    requires SeenOk(s) && (s.Lengths? || s.Junk?) && Good(input, a) && Good(input, a') && a.next <= a'.next
    requires EndsWith(Unread(input, a), Unread(input, a')) && AllValid(ops) && Gives(ops, have)
    requires s.Lengths? ==> OpsCodable(s.bl, ops)
    requires |have| <= s.n.nlen + s.n.ndist && c == (if res == Error then OpBits(s.bl, bad) else [])
    requires s.Lengths? ==>
               OpsBits(s.bl, ops) + c + Unread(input, a') == OpsBits(s.bl, s.ops) + Unread(input, a)
    requires res == Error ==> NoUse(s.n, have, bad)
    requires res == Error && s.Lengths? ==> OpCodable(s.bl, bad)
    ensures Moves(pos, s, input, a, s', a')
    ensures if s.Junk? then s'.Junk? && s' == Junk(s.last, s.n, s.bl, ops, have, s'.junk)
            else if res == Error then s' == WrongOp(s.last, s.n, s.bl, ops, have, bad)
            else s' == Lengths(s.last, s.n, s.bl, ops, have)
  {
    if s.Junk? {
      s' := JunkMoves(pos, s, ops, have, input, a, a');
    } else if res == Error {
      s' := WrongOp(s.last, s.n, s.bl, ops, have, bad);
      WrongMoves(pos, s, ops, bad, have, input, a, a');
    } else {
      s' := Lengths(s.last, s.n, s.bl, ops, have);
      assert OpsBits(s.bl, ops) + [] == OpsBits(s.bl, ops);
      OpsMove(pos, s, ops, have, input, a, a');
    }
  }

  lemma {:induction false} JunkMoves(pos: nat, s: Seen, ops: seq<Op>, have: seq<nat>, input: seq<byte>, a: Acc,
                                     a': Acc)
    returns (s': Seen)
    requires SeenOk(s) && s.Junk? && Good(input, a) && Good(input, a') && a.next <= a'.next
    requires AllValid(ops) && Gives(ops, have)
    requires EndsWith(Unread(input, a), Unread(input, a'))
    ensures s'.Junk? && s' == Junk(s.last, s.n, s.bl, ops, have, s'.junk) && Moves(pos, s, input, a, s', a')
  {
    var w := TakenOf(Unread(input, a), Unread(input, a'));
    s' := Junk(s.last, s.n, s.bl, ops, have, s.junk + w);
    JunkFollows(pos, s, s', w, Unread(input, a), Unread(input, a'));
  }

  lemma {:induction false} TakenOf(u: seq<bool>, u': seq<bool>) returns (w: seq<bool>)
    requires EndsWith(u, u')
    ensures u == w + u'
  {
    w := u[..|u| - |u'|];
  }

  lemma {:induction false} JunkFollows(pos: nat, s: Seen, s': Seen, w: seq<bool>, u: seq<bool>, u': seq<bool>)
    requires SeenOk(s) && s.Junk? && SeenOk(s') && s'.Junk? && u == w + u'
    requires s'.last == s.last && s'.n == s.n && s'.bl == s.bl && s'.junk == s.junk + w
    ensures SeenBits(pos, s) + u == SeenBits(pos, s') + u'
  {
    Assoc(s.junk, w, u');
    FrontKeeps(pos, s, s.junk, u, s', s.junk + w, u');
  }

  /** When only what follows the code length code changes. */
  lemma {:induction false} FrontKeeps(pos: nat, s: Seen, x: seq<bool>, u: seq<bool>, s': Seen, y: seq<bool>,
                                      u': seq<bool>)
    requires SeenOk(s) && SeenOk(s') && (s.Lengths? || s.Junk?) && (s'.Lengths? || s'.Junk? || s'.WrongOp?)
    requires s'.last == s.last && s'.n == s.n && s'.bl == s.bl && x + u == y + u'
    requires SeenTail(pos, s) == Front(s.n.nlen, s.n.ndist, s.n.ncode, s.bl, s.n.ncode, x)
    requires SeenTail(pos, s') == Front(s.n.nlen, s.n.ndist, s.n.ncode, s.bl, s.n.ncode, y)
    ensures SeenBits(pos, s) + u == SeenBits(pos, s') + u'
  {
    FrontMoves(TypeBits(DYN_TREES, s.last), CountBits(s.n.nlen, s.n.ndist, s.n.ncode), BlLens(s.bl, s.n.ncode), x, u, y,
               u');
  }

  lemma {:induction false} WrongMoves(pos: nat, s: Seen, ops: seq<Op>, bad: Op, have: seq<nat>, input: seq<byte>,
                                      a: Acc,
                                      a': Acc)
    requires SeenOk(s) && s.Lengths? && Good(input, a) && Good(input, a') && a.next <= a'.next
    requires OpsCodable(s.bl, ops) && Gives(ops, have) && OpCodable(s.bl, bad) && NoUse(s.n, have, bad)
    requires OpsBits(s.bl, ops) + OpBits(s.bl, bad) + Unread(input, a') == OpsBits(s.bl, s.ops) + Unread(input, a)
    ensures Moves(pos, s, input, a, WrongOp(s.last, s.n, s.bl, ops, have, bad), a')
  {
    WrongOk(s, ops, bad, have);
    BadFollows(pos, s, ops, have, bad, Unread(input, a), Unread(input, a'));
  }

  lemma {:induction false} WrongOk(s: Seen, ops: seq<Op>, bad: Op, have: seq<nat>)
    requires SeenOk(s) && s.Lengths? && OpsCodable(s.bl, ops) && Gives(ops, have) && OpCodable(s.bl, bad)
    requires NoUse(s.n, have, bad)
    ensures SeenOk(WrongOp(s.last, s.n, s.bl, ops, have, bad))
  {
    LengthsStill(s.n, s.bl, s.ops, s.lens, ops, have);
  }

  lemma {:induction false} BadFollows(pos: nat, s: Seen, ops: seq<Op>, have: seq<nat>, bad: Op, u: seq<bool>,
                                      u': seq<bool>)
    requires SeenOk(s) && s.Lengths? && SeenOk(WrongOp(s.last, s.n, s.bl, ops, have, bad))
    requires OpsBits(s.bl, ops) + OpBits(s.bl, bad) + u' == OpsBits(s.bl, s.ops) + u
    ensures SeenBits(pos, s) + u == SeenBits(pos, WrongOp(s.last, s.n, s.bl, ops, have, bad)) + u'
  {
    FrontKeeps(pos, s, OpsBits(s.bl, s.ops), u, WrongOp(s.last, s.n, s.bl, ops, have, bad),
               OpsBits(s.bl, ops) + OpBits(s.bl, bad), u');
  }

  lemma {:induction false} LengthsStill(n: Numbers, bl: seq<nat>, ops: seq<Op>, lens: seq<nat>, ops': seq<Op>,
                                        have: seq<nat>)
    requires LengthsOk(n, bl, ops, lens) && OpsCodable(bl, ops') && Gives(ops', have) && |have| <= n.nlen + n.ndist
    ensures LengthsOk(n, bl, ops', have)
  {
  }

  lemma {:induction false} OpsMove(pos: nat, s: Seen, ops: seq<Op>, have: seq<nat>, input: seq<byte>, a: Acc, a': Acc)
    requires SeenOk(s) && s.Lengths? && Good(input, a) && Good(input, a') && a.next <= a'.next
    requires OpsCodable(s.bl, ops) && Gives(ops, have) && |have| <= s.n.nlen + s.n.ndist
    requires OpsBits(s.bl, ops) + Unread(input, a') == OpsBits(s.bl, s.ops) + Unread(input, a)
    ensures Moves(pos, s, input, a, Lengths(s.last, s.n, s.bl, ops, have), a')
  {
    LengthsStill(s.n, s.bl, s.ops, s.lens, ops, have);
    OpsFollow(pos, s, ops, have, Unread(input, a), Unread(input, a'));
  }

  lemma {:induction false} OpsFollow(pos: nat, s: Seen, ops: seq<Op>, have: seq<nat>, u: seq<bool>, u': seq<bool>)
    requires SeenOk(s) && s.Lengths? && SeenOk(Lengths(s.last, s.n, s.bl, ops, have))
    requires OpsBits(s.bl, ops) + u' == OpsBits(s.bl, s.ops) + u
    ensures SeenBits(pos, s) + u == SeenBits(pos, Lengths(s.last, s.n, s.bl, ops, have)) + u'
  {
    FrontKeeps(pos, s, OpsBits(s.bl, s.ops), u, Lengths(s.last, s.n, s.bl, ops, have), OpsBits(s.bl, ops), u');
  }

  lemma {:induction false} FrontMoves(t: seq<bool>, c: seq<bool>, b: seq<bool>, x: seq<bool>, u: seq<bool>,
                                      y: seq<bool>,
                                      v: seq<bool>)
    requires x + u == y + v
    ensures (t + (c + (b + x))) + u == (t + (c + (b + y))) + v
  {
    assert (t + (c + (b + x))) + u == (t + (c + b)) + (x + u);
    assert (t + (c + (b + y))) + v == (t + (c + b)) + (y + v);
  }

  /** The end of state CODELENS. */
  method BodyStart(last: bool, lens: seq<nat>, n: Numbers, ghost s: Seen, ghost pos: nat, ghost input: seq<byte>,
                   ghost a0: Acc, ghost a: Acc, ghost s0: Seen, ghost start: seq<byte>, ghost window: nat)
    returns (stage: Stage, ghost s': Seen)
    requires Moves(pos, s0, input, a0, s, a)
    requires SeenOk(s) && (s.Lengths? || s.Junk?) && s.last == last && s.n == n && |lens| == n.nlen + n.ndist
    requires s.lens == lens && (if s.Junk? then AllZero(lens) else a.bits < 8)
    ensures Moves(pos, s0, input, a0, s', a) && OutputIs(start, s', start)
    ensures (stage.Body? || stage.Failed?) && At(stage, last, s', a, start, window)
  {
    s' := s;
    LensValid(s, lens);
    var ok, k := BuildTables(lens, n.nlen, n.ndist);
    if !ok {
      stage := Failed;
      return;
    }
    s' := Items(last, DynamicBlock(lens[..n.nlen], lens[n.nlen..], s.bl, n.ncode), s.ops, Progress([], AtLen, 0));
    BodyBegins(pos, s, lens, start, a);
    MovesSame(pos, s0, input, a0, s, a, s');
    stage := Body(k, State(LEN, 0, 0, 0, 0));
  }

  lemma {:induction false} MovesSame(pos: nat, s0: Seen, input: seq<byte>, a0: Acc, s: Seen, a: Acc, s': Seen)
    requires Moves(pos, s0, input, a0, s, a) && SeenOk(s') && SeenBits(pos, s') == SeenBits(pos, s)
    ensures Moves(pos, s0, input, a0, s', a)
  {
    assert SameBits(pos, s0, input, a0, s, a);
  }

  lemma {:induction false} LensValid(s: Seen, lens: seq<nat>)
    requires SeenOk(s) && (s.Lengths? || s.Junk?) && s.lens == lens
    ensures ValidLens(lens)
  {
    if s.Lengths? { AllCodableValid(s.bl, s.ops); }
    DecodedValid([], s.ops, lens);
  }

  lemma {:induction false} DecodedValid(have: seq<nat>, ops: seq<Op>, lens: seq<nat>)
    requires AllValid(ops) && ValidLens(have) && DecodeAll(have, ops) == Some(lens)
    ensures ValidLens(lens)
    decreases |ops|
  {
    if ops != [] {
      assert ValidOp(ops[0]);
      DecodedValid(Decode(have, ops[0]).value, ops[1..], lens);
    }
  }

  lemma {:induction false} BodyBegins(pos: nat, s: Seen, lens: seq<nat>, start: seq<byte>, a: Acc)
    requires SeenOk(s) && s.Lengths? && |lens| == s.n.nlen + s.n.ndist && s.lens == lens
    requires ValidLens(lens) && lens[256] != 0 && Acceptable(LENS, lens[..s.n.nlen])
    requires Acceptable(DISTS, lens[s.n.nlen..])
    ensures var b := DynamicBlock(lens[..s.n.nlen], lens[s.n.nlen..], s.bl, s.n.ncode);
            var s' := Items(s.last, b, s.ops, Progress([], AtLen, 0));
            SeenOk(s') && SeenBits(pos, s') == SeenBits(pos, s) && OutputIs(start, s', start)
  {
    var g := Lens(lens[..s.n.nlen], lens[s.n.nlen..]);
    var b := DynamicBlock(g.ll, g.dl, s.bl, s.n.ncode);
    assert g.ll + g.dl == lens;
    AcceptedUsable(LENS, g.ll);
    AcceptedUsable(DISTS, g.dl);
    BlockBegins(g, start, a);
    NothingTaken(g);
    assert HeaderOk(b, s.ops);
    assert HeadBits(b, s.ops) + [] == HeadBits(b, s.ops);
  }

  lemma {:induction false} AcceptedUsable(t: CodeType, lens: seq<nat>)
    requires ValidLens(lens) && Acceptable(t, lens)
    ensures Usable(lens)
  {
    if NoSymbols(lens) { NoSymbolsFits(lens); }
  }

  // ----- the block body -----

  /** The states of a block body, up to its end or until input or space is used up. */
  method BodyStep(win: SlidingWindow, input: seq<byte>, a: Acc, last: bool, k: Codes, st: State, put: array<byte>,
                  pos: nat, ghost s: Seen, ghost at: nat, ghost start: seq<byte>, ghost prior: seq<byte>)
    returns (a': Acc, st': State, pos': nat, ghost s': Seen)
    requires win.Tracks(prior) && put != win.window && pos <= put.Length && (win.wsize == 0 ==> prior == [])
    requires Good(input, a) && SeenOk(s) && AtBody(k, st, last, s, a) && OutputIs(start, s, prior + put[..pos])
    modifies put
    ensures pos <= pos' <= put.Length && Grown(old(put[..]), put[..], pos, pos' - pos)
    ensures Moves(at, s, input, a, s', a') && OutputIs(start, s', prior + put[..pos'])
    ensures s'.Items? && s' == s.(p := s'.p)
    ensures |Unread(input, a')| <= |Unread(input, a)|
    ensures st'.mode == TYPE ==> s'.p.cur.AtEnd? && s'.p.part == 0 && a'.bits < 8
    ensures st'.mode == BAD ==> Wrong(s', start, win.window.Length)
    ensures st'.mode != TYPE && st'.mode != BAD ==> AtBody(k, st', last, s', a')
    ensures st'.mode != TYPE && st'.mode != BAD ==> pos' == put.Length || (a'.next == |input| && Wanting(s', a'))
  {
    ghost var g := LensOf(s.b);
    ghost var p';
    a', st', pos', p' := Inflate.Run(k, g, win, input, a, st, put, pos, start, prior, s.p);
    s' := s.(p := p');
    BodyMoves(at, s, p', input, a, a');
    BodyAfter(k, g, last, s', input, a', st', start, prior + put[..pos'], put.Length - pos');
    if st'.mode == BAD {
      BodyWrong(s', start, prior + put[..pos'], |prior|, pos', win.wsize, win.whave, win.window.Length, st');
    }
  }

  /** What the end of the loop in a block body means. */
  lemma {:induction false} BodyAfter(k: Codes, g: Lens, last: bool, s: Seen, input: seq<byte>, a: Acc, st: State,
                                     start: seq<byte>, total: seq<byte>, left: nat)
    requires s.Items? && s.last == last && g == LensOf(s.b) && Point(k, g, start, input, a, st, s.p, total)
    requires Tight(g, a, s.p.cur) && (st.mode == TYPE || st.mode == BAD || Blocked(g, input, a, st, s.p, left))
    ensures OutputIs(start, s, total)
    ensures st.mode == TYPE ==> s.p.cur.AtEnd? && s.p.part == 0 && a.bits < 8
    ensures st.mode != TYPE && st.mode != BAD ==>
              AtBody(k, st, last, s, a) && (left == 0 || (a.next == |input| && Wanting(s, a)))
  {
  }

  lemma {:induction false} BodyMoves(at: nat, s: Seen, p': Progress, input: seq<byte>, a: Acc, a': Acc)
    requires SeenOk(s) && s.Items? && Sane(LensOf(s.b), p') && Good(input, a) && Good(input, a') && a.next <= a'.next
    requires AllBits(LensOf(s.b), p', input, a') == AllBits(LensOf(s.b), s.p, input, a)
    ensures Moves(at, s, input, a, s.(p := p'), a')
  {
    var g := LensOf(s.b);
    BodyRegroups(TypeBits(KindOf(s.b), s.last), HeadBits(s.b, s.ops), BitsOf(g.ll, g.dl, s.p.its), Part(g, s.p.cur),
                 Unread(input, a), BitsOf(g.ll, g.dl, p'.its), Part(g, p'.cur), Unread(input, a'));
  }

  lemma {:induction false} BodyRegroups(t: seq<bool>, h: seq<bool>, b: seq<bool>, c: seq<bool>, u: seq<bool>,
                                        b': seq<bool>, c': seq<bool>, u': seq<bool>)
    requires b' + (c' + u') == b + (c + u)
    ensures (t + (h + (b + c))) + u == (t + (h + (b' + c'))) + u'
  {
    assert (t + (h + (b + c))) + u == (t + h) + (b + (c + u));
    assert (t + (h + (b' + c'))) + u' == (t + h) + (b' + (c' + u'));
  }

  lemma {:induction false} BodyWrong(s: Seen, start: seq<byte>, total: seq<byte>, prior: nat, pos: nat, wsize: nat,
                                     whave: nat, window: nat, st: State)
    requires SeenOk(s) && s.Items? && st.mode == BAD && BlockStates.Holds(st, s.p.cur) && Wrote(start, s.p, total)
    requires TooFar(st, s.p, pos + whave) && |total| == prior + pos && whave == Min(prior, wsize)
    requires wsize == window || (wsize == 0 && prior == 0)
    ensures Wrong(s, start, window)
  {
  }

  // ----- from one block to the next -----

  /** The blocks read stand for start. */
  ghost function Start(done: seq<Piece>): seq<byte>
    requires AllSound([], done, FAR)
  {
    HistoryAfterAll([], done, FAR)
  }

  /** A block that was read and written to its end. */
  lemma {:induction false} BlockDone(f: Layout, done: seq<Piece>, s: Seen, total: seq<byte>)
    requires Proper(f) && AllSound([], done, FAR) && SeenOk(s) && Whole(s) && OutputIs(Start(done), s, total)
    requires s.Items? ==> s.p.part == 0
    ensures var done' := done + [BlockRead(s)];
            && AllSound([], done', FAR) && Start(done') == total
            && Laid(f, 0, done') == Laid(f, 0, done) + SeenBits(|Laid(f, 0, done)|, s)
  {
    BlockLaid(f, done, s);
    SoundRead(Start(done), s, total);
    SoundSnoc([], done, BlockRead(s), FAR);
  }

  lemma {:induction false} BlockLaid(f: Layout, done: seq<Piece>, s: Seen)
    requires Proper(f) && SeenOk(s) && Whole(s)
    ensures Readable(BlockRead(s))
    ensures Laid(f, 0, done + [BlockRead(s)]) == Laid(f, 0, done) + SeenBits(|Laid(f, 0, done)|, s)
  {
    var x, pos := BlockRead(s), |Laid(f, 0, done)|;
    WholeBits(pos, s);
    assert LaysOut(f, pos, x);
    LaidSnoc(f, 0, done, x);
  }

  lemma {:induction false} SoundRead(start: seq<byte>, s: Seen, total: seq<byte>)
    requires SeenOk(s) && Whole(s) && OutputIs(start, s, total) && Readable(BlockRead(s))
    requires s.Items? ==> s.p.part == 0
    ensures Sound(start, BlockRead(s), FAR) && HistoryAfter(start, BlockRead(s)) == total
  {
    if s.Items? { NeverFar(LensOf(s.b), s.p); }
  }

  lemma {:induction false} NeverFar(g: Lens, p: Progress)
    requires Sane(g, p)
    ensures forall i :: 0 <= i < |p.its| ==> TokensOf(p.its)[i].dist <= FAR
  {
    forall i | 0 <= i < |p.its| ensures TokensOf(p.its)[i].dist <= FAR {
      assert CodableAt(g.ll, g.dl, p.its, i);
      ItemToken(p.its[i]);
    }
  }

  // ----- a whole call -----

  /** Only the last of the blocks read may be marked as the last one, and only then the stream ends. */
  ghost predicate MarkedSoFar(done: seq<Piece>, stage: Stage, last: bool) {
    var ends := last && (stage.Type? || stage.Done?);
    (forall i :: 0 <= i < |done| ==> (done[i].last <==> ends && i == |done| - 1)) && (ends ==> done != [])
  }

  /** The decoder is where it should be after the blocks read and what was read of the current one. */
  ghost predicate Stands(f: Layout, done: seq<Piece>, stage: Stage, last: bool, s: Seen, a: Acc, window: nat,
                         total: seq<byte>) {
    && Proper(f) && AllSound([], done, FAR) && SeenOk(s) && MarkedSoFar(done, stage, last)
    && (stage.Done? ==> last) && At(stage, last, s, a, Start(done), window) && OutputIs(Start(done), s, total)
  }

  /** The bits of the blocks read, those read of the current one, and u. */
  ghost function AllOf(f: Layout, done: seq<Piece>, s: Seen, u: seq<bool>): seq<bool>
    requires SeenOk(s)
  {
    Laid(f, 0, done) + (SeenBits(|Laid(f, 0, done)|, s) + u)
  }

  /** How many stages are ahead before the next bits are needed. */
  function RankOf(stage: Stage): nat {
    match stage
    case LenLens(_, _, _) => 4
    case CodeLens(_, _, _, _) => 3
    case Body(_, _) => 2
    case Copy(_) => 2
    case Type => 1
    case _ => 0
  }

  /** Fewer bits, or nearer to the next ones. */
  ghost predicate Nearer(input: seq<byte>, a: Acc, stage: Stage, a': Acc, stage': Stage) {
    && a.next <= |input| && a'.next <= |input| && |Unread(input, a')| <= |Unread(input, a)|
    && (|Unread(input, a')| == |Unread(input, a)| ==> RankOf(stage') < RankOf(stage))
  }

  /** Why a call returns before the end of the stream. */
  ghost predicate Stuck(input: seq<byte>, a: Acc, stage: Stage, last: bool, s: Seen, left: int) {
    || (left == 0 && (stage.Copy? || stage.Body?))
    || (a.next == |input| && Wanting(s, a) && !(stage.Type? && last))
  }

  /** Bits are whole bytes: the padding of a stored block is what is held beyond them. */
  lemma {:induction false} Alignment(f: Layout, done: seq<Piece>, s: Seen, input: seq<byte>, a: Acc)
    requires SeenOk(s) && a.next <= |input| && |AllOf(f, done, s, Unread(input, a))| % 8 == 0
    ensures (|Laid(f, 0, done)| + |SeenBits(|Laid(f, 0, done)|, s)| + a.bits) % 8 == 0
  {
    AllOfSize(f, done, s, Unread(input, a));
    WholeBytes(|Laid(f, 0, done)| + |SeenBits(|Laid(f, 0, done)|, s)| + a.bits, |input| - a.next);
  }

  lemma {:induction false} AllOfSize(f: Layout, done: seq<Piece>, s: Seen, u: seq<bool>)
    requires SeenOk(s)
    ensures |AllOf(f, done, s, u)| == |Laid(f, 0, done)| + |SeenBits(|Laid(f, 0, done)|, s)| + |u|
  {
  }

  lemma {:induction false} WholeBytes(x: nat, n: nat)
    requires (x + 8 * n) % 8 == 0
    ensures x % 8 == 0
  {
  }

  lemma {:induction false} AllOfMoves(f: Layout, done: seq<Piece>, s: Seen, input: seq<byte>, a: Acc, s': Seen, a': Acc)
    requires Moves(|Laid(f, 0, done)|, s, input, a, s', a')
    ensures AllOf(f, done, s', Unread(input, a')) == AllOf(f, done, s, Unread(input, a))
  {
    assert SameBits(|Laid(f, 0, done)|, s, input, a, s', a');
  }

  /** The states before a block body or the bytes of a stored block. */
  method HeadStep(input: seq<byte>, a: Acc, stage: Stage, last: bool, ghost s: Seen, ghost pos: nat,
                  ghost start: seq<byte>, ghost window: nat)
    returns (go: bool, a': Acc, stage': Stage, last': bool, ghost s': Seen)
    requires stage.Type? || stage.Stored? || stage.Table? || stage.LenLens? || stage.CodeLens?
    requires Good(input, a) && SeenOk(s) && At(stage, last, s, a, start, window)
    requires (pos + |SeenBits(pos, s)| + a.bits) % 8 == 0
    ensures Moves(pos, s, input, a, s', a') && At(stage', last', s', a', start, window) && OutputIs(start, s', start)
    ensures stage'.Done? <==> stage.Type? && last
    ensures stage.Type? && last ==> last'
    ensures stage.Type? && stage'.Type? ==> last' == last
    ensures !stage.Type? ==> last' == last && !stage'.Type?
    ensures if go then Nearer(input, a, stage, a', stage')
            else a'.next == |input| && Wanting(s', a') && !(stage'.Type? && last')
  {
    last' := last;
    match stage
    case Type => go, a', stage', last', s' := TypeStep(input, a, last, pos, start, window);
    case Stored => go, a', stage', s' := StoredStep(input, a, last, s, pos, start, window);
    case Table => go, a', stage', s' := TableStep(input, a, last, pos, start, window);
    case LenLens(n, lens, have) =>
      go, a', stage', s' := LenLensStep(input, a, last, n, lens, have, pos, start, window);
    case CodeLens(n, T, root, lens) =>
      go, a', stage', s' := CodeLensState(input, a, last, n, T, root, lens, s, pos, start, window);
  }

  /** One turn of inflate's loop. */
  method Step(win: SlidingWindow, input: seq<byte>, a: Acc, stage: Stage, last: bool, put: array<byte>, pos: nat,
              ghost f: Layout, ghost done: seq<Piece>, ghost s: Seen, ghost prior: seq<byte>)
    returns (go: bool, a': Acc, stage': Stage, last': bool, pos': nat, ghost done': seq<Piece>, ghost s': Seen)
    requires win.Tracks(prior) && put != win.window && pos <= put.Length && (win.wsize == 0 ==> prior == [])
    requires !stage.Done? && !stage.Failed? && Good(input, a)
    requires Stands(f, done, stage, last, s, a, win.window.Length, prior + put[..pos])
    requires |AllOf(f, done, s, Unread(input, a))| % 8 == 0
    modifies put
    ensures Good(input, a') && a'.next >= a.next && pos <= pos' <= put.Length
    ensures Grown(old(put[..]), put[..], pos, pos' - pos)
    ensures Stands(f, done', stage', last', s', a', win.window.Length, prior + put[..pos'])
    ensures AllOf(f, done', s', Unread(input, a')) == AllOf(f, done, s, Unread(input, a))
    ensures if go then Nearer(input, a, stage, a', stage') else Stuck(input, a', stage', last', s', put.Length - pos')
  {
    last', pos', done' := last, pos, done;
    ghost var at := |Laid(f, 0, done)|;
    if stage.Body? {
      go, a', stage', pos', done', s' := StepBody(win, input, a, last, stage.codes, stage.st, put, pos, f, done, s,
                                                  prior);
    } else if stage.Copy? && stage.left == 0 {
      go, a', stage', s' := true, a, Type, Nothing;
      done' := FinishBlock(f, done, s, last, prior + put[..pos], Unread(input, a));
    } else if stage.Copy? {
      var left;
      go, a', left, pos', s' := CopyStep(input, a, last, stage.left, put, pos, s, at, Start(done), prior);
      stage' := Copy(left);
      AllOfMoves(f, done, s, input, a, s', a');
    } else {
      Alignment(f, done, s, input, a);
      go, a', stage', last', s' := HeadStep(input, a, stage, last, s, at, Start(done), win.window.Length);
      AllOfMoves(f, done, s, input, a, s', a');
    }
  }

  /** A block was read to its end. */
  lemma {:induction false} FinishBlock(f: Layout, done: seq<Piece>, s: Seen, last: bool, total: seq<byte>, u: seq<bool>)
    returns (done': seq<Piece>)
    requires Proper(f) && AllSound([], done, FAR) && SeenOk(s) && Whole(s) && OutputIs(Start(done), s, total)
    requires s.last == last && (s.Items? ==> s.p.part == 0) && forall i :: 0 <= i < |done| ==> !done[i].last
    ensures AllSound([], done', FAR) && Start(done') == total && MarkedSoFar(done', Type, last)
    ensures AllOf(f, done', Nothing, u) == AllOf(f, done, s, u)
  {
    BlockDone(f, done, s, total);
    done' := done + [BlockRead(s)];
    BlockRegroups(Laid(f, 0, done), SeenBits(|Laid(f, 0, done)|, s), u);
  }

  lemma {:induction false} BlockRegroups(a: seq<bool>, b: seq<bool>, u: seq<bool>)
    ensures (a + b) + ([] + u) == a + (b + u)
  {
  }

  /** A turn in a block body. */
  method StepBody(win: SlidingWindow, input: seq<byte>, a: Acc, last: bool, k: Codes, st: State, put: array<byte>,
                  pos: nat, ghost f: Layout, ghost done: seq<Piece>, ghost s: Seen, ghost prior: seq<byte>)
    returns (go: bool, a': Acc, stage': Stage, pos': nat, ghost done': seq<Piece>, ghost s': Seen)
    requires win.Tracks(prior) && put != win.window && pos <= put.Length && (win.wsize == 0 ==> prior == [])
    requires Good(input, a) && Stands(f, done, Body(k, st), last, s, a, win.window.Length, prior + put[..pos])
    modifies put
    ensures Good(input, a') && a'.next >= a.next && pos <= pos' <= put.Length
    ensures Grown(old(put[..]), put[..], pos, pos' - pos)
    ensures Stands(f, done', stage', last, s', a', win.window.Length, prior + put[..pos'])
    ensures AllOf(f, done', s', Unread(input, a')) == AllOf(f, done, s, Unread(input, a))
    ensures if go then
              Nearer(input, a, Body(k, st), a', stage') else Stuck(input, a', stage', last, s', put.Length - pos')
  {
    ghost var at := |Laid(f, 0, done)|;
    var st';
    a', st', pos', s' := BodyStep(win, input, a, last, k, st, put, pos, s, at, Start(done), prior);
    AllOfMoves(f, done, s, input, a, s', a');
    done', go := done, true;
    if st'.mode == TYPE {
      done' := FinishBlock(f, done, s', last, prior + put[..pos'], Unread(input, a'));
      stage', s' := Type, Nothing;
    } else if st'.mode == BAD {
      stage' := Failed;
    } else {
      go, stage' := false, Body(k, st');
    }
  }

  /** inflate's loop. */
  method Loop(win: SlidingWindow, input: seq<byte>, a: Acc, stage: Stage, last: bool, put: array<byte>,
              ghost f: Layout, ghost done: seq<Piece>, ghost s: Seen, ghost prior: seq<byte>)
    returns (a': Acc, stage': Stage, last': bool, pos: nat, ghost done': seq<Piece>, ghost s': Seen)
    requires win.Tracks(prior) && put != win.window && (win.wsize == 0 ==> prior == [])
    requires !stage.Done? && !stage.Failed? && Good(input, a)
    requires Stands(f, done, stage, last, s, a, win.window.Length, prior)
    requires |AllOf(f, done, s, Unread(input, a))| % 8 == 0
    modifies put
    ensures Good(input, a') && pos <= put.Length
    ensures Stands(f, done', stage', last', s', a', win.window.Length, prior + put[..pos])
    ensures AllOf(f, done', s', Unread(input, a')) == AllOf(f, done, s, Unread(input, a))
    ensures stage'.Done? || stage'.Failed? || Stuck(input, a', stage', last', s', put.Length - pos)
  {
    a', stage', last', pos, done', s' := a, stage, last, 0, done, s;
    assert prior + put[..0] == prior;
    var go := true;
    while go && !stage'.Done? && !stage'.Failed?
      invariant Good(input, a') && pos <= put.Length
      invariant Stands(f, done', stage', last', s', a', win.window.Length, prior + put[..pos])
      invariant AllOf(f, done', s', Unread(input, a')) == AllOf(f, done, s, Unread(input, a))
      invariant !go ==> Stuck(input, a', stage', last', s', put.Length - pos)
      decreases go, |Unread(input, a')|, RankOf(stage')
    {
      go, a', stage', last', pos, done', s' := Step(win, input, a', stage', last', put, pos, f, done', s', prior);
    }
  }

  /** inflate's loop, from what was held before the call. */
  method Turns(win: SlidingWindow, input: seq<byte>, a: Acc, stage: Stage, last: bool, put: array<byte>,
               ghost f: Layout, ghost done: seq<Piece>, ghost s: Seen, ghost prior: seq<byte>)
    returns (a': Acc, stage': Stage, last': bool, pos: nat, ghost done': seq<Piece>, ghost s': Seen)
    requires win.Tracks(prior) && put != win.window && (win.wsize == 0 ==> prior == [])
    requires !stage.Done? && !stage.Failed? && Good(input, a) && a.next == 0
    requires Stands(f, done, stage, last, s, a, win.window.Length, prior) && |AllOf(f, done, s, Held(a))| % 8 == 0
    modifies put
    ensures Good(input, a') && pos <= put.Length
    ensures Stands(f, done', stage', last', s', a', win.window.Length, prior + put[..pos])
    ensures AllOf(f, done', s', Held(a')) == AllOf(f, done, s, Held(a)) + Stream(input[..a'.next])
    ensures |AllOf(f, done', s', Held(a'))| % 8 == 0
    ensures stage'.Done? || stage'.Failed? || Stuck(input, a', stage', last', s', put.Length - pos)
  {
    Given(f, done, s, input, a);
    a', stage', last', pos, done', s' := Loop(win, input, a, stage, last, put, f, done, s, prior);
    GivenMore(f, done, s, a, done', s', a', input);
  }

  /** inflate, between calls. */
  class Decompressor {
    const win: SlidingWindow
    var stage: Stage
    var last: bool
    var hold: nat
    var bits: nat
    ghost const f: Layout
    ghost var done: seq<Piece>   // the blocks read
    ghost var seen: Seen         // what was read of the current block
    ghost var out: seq<byte>     // all output so far

    ghost function Saved(): Acc
      reads this
    {
      Acc(hold, bits, 0)
    }

    /** All bits given so far: those of the blocks read, those read of the current one, and those held. */
    ghost function Fed(): seq<bool>
      requires SeenOk(seen)
      reads this
    {
      AllOf(f, done, seen, Held(Saved()))
    }

    ghost predicate Valid()
      reads this, win, win.window
    {
      && Good([], Saved()) && Stands(f, done, stage, last, seen, Saved(), win.window.Length, out) && |Fed()| % 8 == 0
      && (!stage.Done? && !stage.Failed? ==> win.Tracks(out) && (win.wsize == 0 ==> out == []))
    }

    /** The bits were given so far. */
    ghost predicate Took(u: seq<bool>)
      reads this, win, win.window
    {
      Valid() && Fed() == u
    }

    /** Begins a stream. */
    constructor (wbits: nat)
      requires 8 <= wbits <= 15
      ensures Valid() && Fed() == [] && out == [] && done == [] && stage == Type && !last
      ensures fresh(win) && fresh(win.window) && win.window.Length == Pow2(wbits)
    {
      stage, last, hold, bits := Type, false, 0, 0;
      ghost var f' := TheLayout();
      f, done, seen, out := f', [], Nothing, [];
      win := new SlidingWindow(wbits);
      new;
      assert Held(Saved()) == [];
    }

    /** One call of inflate, with any input and any output space. It returns at the end of the stream, after something
        wrong, when the space is full, or when the input is used up and does not complete what is to be read next. */
    method Inflate(input: seq<byte>, put: array<byte>, finish: bool) returns (next: nat, pos: nat)
      requires Valid() && put != win.window
      modifies this, win, win.window, put
      ensures Valid() && next <= |input| && pos <= put.Length && out == old(out) + put[..pos]
      ensures Fed() == old(Fed()) + Stream(input[..next])
      ensures old(stage.Done? || stage.Failed?) ==> stage == old(stage)
      ensures stage.Done? || stage.Failed? || (pos == put.Length && (stage.Copy? || stage.Body?))
              || (next == |input| && Wanting(seen, Saved()) && !(stage.Type? && last))
    {
      next, pos := 0, 0;
      if stage.Done? || stage.Failed? {
        assert out + put[..0] == out && Fed() + [] == Fed();
        return;
      }
      next, pos := Continue(input, put, finish);
    }

    /** A call when neither the end nor an error was reached before. */
    method Continue(input: seq<byte>, put: array<byte>, finish: bool) returns (next: nat, pos: nat)
      requires Valid() && put != win.window && !stage.Done? && !stage.Failed?
      modifies this, win, win.window, put
      ensures Valid() && next <= |input| && pos <= put.Length && out == old(out) + put[..pos]
      ensures Fed() == old(Fed()) + Stream(input[..next])
      ensures stage.Done? || stage.Failed? || (pos == put.Length && (stage.Copy? || stage.Body?))
              || (next == |input| && Wanting(seen, Saved()) && !(stage.Type? && last))
    {
      var a, stage', last';
      ghost var done', s';
      a, stage', last', pos, done', s' := Turns(win, input, Acc(hold, bits, 0), stage, last, put, f, done, seen, out);
      next := a.next;
      Leave(put, pos, finish, stage'.Done?, stage'.Failed?);
      Save(input, a, stage', last', out + put[..pos], done', s');
    }

    /** RESTORE */
    method Save(ghost input: seq<byte>, a: Acc, stage': Stage, last': bool, ghost out': seq<byte>,
                ghost done': seq<Piece>, ghost s': Seen)
      requires Good(input, a) && Stands(f, done', stage', last', s', a, win.window.Length, out')
      requires |AllOf(f, done', s', Held(a))| % 8 == 0
      requires !stage'.Done? && !stage'.Failed? ==> win.Tracks(out') && (win.wsize == 0 ==> out' == [])
      modifies this
      ensures stage == stage' && last == last' && out == out' && seen == s' && Saved() == a.(next := 0) && Valid()
      ensures Fed() == AllOf(f, done', s', Held(a)) && (Wanting(s', a) ==> Wanting(seen, Saved()))
    {
      SavedStands(f, done', stage', last', s', a, win.window.Length, out');
      stage, last, hold, bits, done, seen, out := stage', last', a.hold, a.bits, done', s', out';
    }

    /** inf_leave: the window is updated, unless nothing was written before or the stream has ended, well or not, with
        the only call. */
    method Leave(put: array<byte>, pos: nat, finish: bool, ended: bool, failed: bool)
      requires win.Tracks(out) && (win.wsize == 0 ==> out == []) && put != win.window && pos <= put.Length
      modifies win, win.window
      ensures !ended && !failed ==> win.Tracks(out + put[..pos]) && (win.wsize == 0 ==> out + put[..pos] == [])
    {
      if win.wsize != 0 || (pos != 0 && !failed && (!ended || !finish)) {
        win.Update(put, pos, pos, out);
        assert put[pos - pos..pos] == put[..pos];
      } else {
        assert pos == 0 ==> out + put[..pos] == out;
      }
    }
  }

  /** At the start of a call the bits are those held and those of the input. */
  lemma {:induction false} Given(f: Layout, done: seq<Piece>, s: Seen, input: seq<byte>, a: Acc)
    requires SeenOk(s) && a.next == 0
    ensures AllOf(f, done, s, Unread(input, a)) == AllOf(f, done, s, Held(a)) + Stream(input)
    ensures |AllOf(f, done, s, Held(a))| % 8 == 0 ==> |AllOf(f, done, s, Unread(input, a))| % 8 == 0
  {
    assert input[0..] == input;
    Regroup3(Laid(f, 0, done), SeenBits(|Laid(f, 0, done)|, s), Held(a), Stream(input));
    MoreBytes(|AllOf(f, done, s, Held(a))|, |input|);
  }

  lemma {:induction false} MoreBytes(x: nat, n: nat)
    ensures (x + 8 * n) % 8 == x % 8
  {
  }

  lemma {:induction false} Regroup3(a: seq<bool>, b: seq<bool>, c: seq<bool>, d: seq<bool>)
    ensures a + (b + (c + d)) == (a + (b + c)) + d
  {
  }

  /** The bits given grow by those of the bytes pulled. */
  lemma {:induction false} GivenMore(f: Layout, done: seq<Piece>, s: Seen, a: Acc, done': seq<Piece>, s': Seen, a': Acc,
                                 input: seq<byte>)
    requires SeenOk(s) && SeenOk(s') && a.next == 0 && a'.next <= |input|
    requires AllOf(f, done', s', Unread(input, a')) == AllOf(f, done, s, Unread(input, a))
    requires |AllOf(f, done, s, Held(a))| % 8 == 0
    ensures AllOf(f, done', s', Held(a')) == AllOf(f, done, s, Held(a)) + Stream(input[..a'.next])
    ensures |AllOf(f, done', s', Held(a'))| % 8 == 0
  {
    var n := a'.next;
    Given(f, done, s, input, a);
    assert input == input[..n] + input[n..];
    StreamConcat(input[..n], input[n..]);
    Regroup3(Laid(f, 0, done'), SeenBits(|Laid(f, 0, done')|, s'), Held(a'), Stream(input[n..]));
    SameEnd(AllOf(f, done, s, Held(a)), Stream(input[..n]), Stream(input[n..]), AllOf(f, done', s', Held(a')));
    MoreBytes(|AllOf(f, done, s, Held(a))|, n);
  }

  lemma {:induction false} SameEnd(a: seq<bool>, x: seq<bool>, y: seq<bool>, b: seq<bool>)
    requires b + y == a + (x + y)
    ensures b == a + x
  {
    assert a + (x + y) == (a + x) + y;
    assert b == (b + y)[..|b|] && a + x == ((a + x) + y)[..|a + x|];
  }

  /** Where the input is read from does not matter to where the decoder stands. */
  lemma {:induction false} SavedStands(f: Layout, done: seq<Piece>, stage: Stage, last: bool, s: Seen, a: Acc,
                                       window: nat, total: seq<byte>)
    requires Stands(f, done, stage, last, s, a, window, total)
    ensures Stands(f, done, stage, last, s, a.(next := 0), window, total)
    ensures Wanting(s, a) ==> Wanting(s, a.(next := 0))
    ensures AllOf(f, done, s, Held(a.(next := 0))) == AllOf(f, done, s, Held(a))
  {
    assert Held(a.(next := 0)) == Held(a);
  }
}
