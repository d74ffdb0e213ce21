/** deflate and inflate together: whatever was compressed comes back, over any split of the input into calls of
    deflate, and of the compressed bytes and the output space into calls of inflate. */
module RoundTrip {
  import opened Bits
  import opened Options
  import opened BitWriter
  import opened Lz77
  import opened Tokens
  import opened BlockRoundTrip
  import opened BlockEncoder
  import opened Streams
  import opened Acceptance
  import Symbols
  import Deflate

  /** The bytes are a stream of blocks that stand for the data. */
  ghost predicate IsStreamOf(bytes: seq<byte>, data: seq<byte>, window: nat) {
    exists f: Layout, xs: seq<Piece> :: Carries(f, xs, bytes, data, window)
  }

  ghost predicate Carries(f: Layout, xs: seq<Piece>, bytes: seq<byte>, data: seq<byte>, window: nat) {
    StandsFor(f, xs, window, data) && Stream(bytes) == StreamBits(f, 0, xs)
  }

  // ----- compressing -----

  /** What a block says about the data: its tokens, and its bytes if they are there, lead from h to h'. */
  ghost predicate Adds(b: Deflate.Flushed, h: seq<byte>, h': seq<byte>, window: nat) {
    && WithinWindow(h, b.tokens, window) && Expand(h, b.tokens) == h' && ValidTokens(b.tokens)
    && (b.buf.Some? ==> |b.buf.value| == b.storedLen && b.storedLen <= MAX_STORED && h' == h + b.buf.value)
  }

  /** Each block adds to the data. */
  lemma {:induction false} BlockAdds(bs: seq<Deflate.Flushed>, data: seq<byte>, i: nat, bufsize: nat, most: int,
                                     window: nat)
    requires Deflate.BlocksOk(bs, data) && Deflate.GoodBlocks(bs, bufsize, most) && i < |bs| && most <= window <= 32768
    ensures var m, n := Deflate.LenSum(bs[..i]), Deflate.LenSum(bs[..i + 1]);
            m <= n <= |data| && Adds(bs[i], data[..m], data[..n], window)
    decreases |bs|
  {
    var k := |bs| - 1;
    if i < k {
      BlockAdds(bs[..k], data, i, bufsize, most, window);
      assert bs[..k][..i] == bs[..i] && bs[..k][..i + 1] == bs[..i + 1];
    } else {
      assert bs[..i + 1] == bs;
      LastAdds(bs, data, bufsize, most, window);
    }
  }

  lemma {:induction false} LastAdds(bs: seq<Deflate.Flushed>, data: seq<byte>, bufsize: nat, most: int, window: nat)
    requires bs != [] && Deflate.BlocksOk(bs, data) && Deflate.GoodBlocks(bs, bufsize, most) && most <= window <= 32768
    ensures var m, n := Deflate.LenSum(bs[..|bs| - 1]), Deflate.LenSum(bs);
            m <= n <= |data| && Adds(bs[|bs| - 1], data[..m], data[..n], window)
  {
    var b, m, n := bs[|bs| - 1], Deflate.LenSum(bs[..|bs| - 1]), Deflate.LenSum(bs);
    LastExpands(bs, data);
    NearIsValid(b.tokens, most, window);
    assert data[..m] + data[m..n] == data[..n];
  }

  lemma {:induction false} NearIsValid(ts: seq<Token>, most: int, window: nat)
    requires Deflate.Near(ts, most) && most <= window <= 32768
    ensures ValidTokens(ts) && forall i :: 0 <= i < |ts| ==> ts[i].dist <= window
  {
  }

  lemma {:induction false} LastExpands(bs: seq<Deflate.Flushed>, data: seq<byte>)
    requires bs != [] && Deflate.BlocksOk(bs, data)
    ensures var b, m, n := bs[|bs| - 1], Deflate.LenSum(bs[..|bs| - 1]), Deflate.LenSum(bs);
            m <= n <= |data| && Expandable(data[..m], b.tokens) && Expand(data[..m], b.tokens) == data[..n]
  {
    var pre := bs[..|bs| - 1];
    assert Deflate.StandFor(Deflate.Flatten(bs), data, Deflate.LenSum(bs));
    BlocksStand(pre, data);
    ExpandSplit([], Deflate.Flatten(pre), bs[|bs| - 1].tokens);
  }

  lemma {:induction false} BlocksStand(bs: seq<Deflate.Flushed>, data: seq<byte>)
    requires Deflate.BlocksOk(bs, data)
    ensures Deflate.StandFor(Deflate.Flatten(bs), data, Deflate.LenSum(bs))
  {
    if bs == [] {
      assert data[..0] == [];
    } else {
      assert Deflate.LastOk(bs, data);
    }
  }

  /** Tallies the tokens of a block. */
  method Tally(enc: Encoder, ts: seq<Token>)
    requires enc.Valid() && enc.tokens == [] && |ts| < enc.litBufsize && ValidTokens(ts)
    modifies enc`tokens, enc.t.lfc, enc.t.dfc
    ensures enc.Valid() && enc.tokens == ts
  {
    for i := 0 to |ts|
      invariant enc.Valid() && enc.tokens == ts[..i]
    {
      TallyToken(enc, ts[i]);
      assert ts[..i + 1] == ts[..i] + [ts[i]];
    }
    assert ts[..|ts|] == ts;
  }

  method TallyToken(enc: Encoder, t: Token)
    requires enc.Valid() && |enc.tokens| < enc.litBufsize - 1 && ValidToken(t)
    modifies enc`tokens, enc.t.lfc, enc.t.dfc
    ensures enc.Valid() && enc.tokens == old(enc.tokens) + [t]
  {
    var full;
    if t.dist == 0 {
      full := enc.TallyLit(t.lc);
    } else {
      full := enc.TallyDist(t.dist, t.lc);
    }
  }

  /** Sends a block in the form that _tr_flush_block picks. */
  method SendBlock(enc: Encoder, w: Writer, b: Deflate.Flushed, last: bool, fixed: bool, ghost f: Layout,
                   ghost h: seq<byte>, ghost h': seq<byte>, ghost window: nat)
    returns (ghost x: Piece)
    requires Proper(f) && enc.Valid() && enc.tokens == [] && w.Valid() && |b.tokens| < enc.litBufsize
    requires Adds(b, h, h', window)
    modifies w, enc`tokens, enc.t.lfc, enc.t.ldl, enc.t.dfc, enc.t.ddl, enc.t.bfc, enc.t.bdl, enc.t.heap, enc.t.depth,
        enc.t.blCount
    ensures enc.Valid() && enc.tokens == [] && w.Valid() && (last ==> w.biValid == 0) && x.last == last
    ensures Sound(h, x, window) && HistoryAfter(h, x) == h'
    ensures w.Sent() == old(w.Sent()) + Closed(|old(w.Sent())|, f(|old(w.Sent())|, x), last)
  {
    Tally(enc, b.tokens);
    TokensItems(b.tokens);
    var block, optLen, staticLen;
    ghost var dyn;
    block, optLen, staticLen, dyn := enc.FlushBlock(w, b.buf, b.storedLen, last, fixed);
    x := SentPiece(block, last, ItemsOf(b.tokens));
    SentIsReadable(|old(w.Sent())|, block, last, ItemsOf(b.tokens));
    assert LaysOut(f, |old(w.Sent())|, x);
  }

  /** The first i of all blocks have been sent as the pieces xs. */
  ghost predicate SentSoFar(f: Layout, xs: seq<Piece>, sent: seq<bool>, i: nat, all: nat, h: seq<byte>, window: nat) {
    && Proper(f) && |xs| == i && i <= all && AllSound([], xs, window) && HistoryAfterAll([], xs, window) == h
    && (forall k :: 0 <= k < i ==> (xs[k].last <==> k == all - 1))
    && sent == if i == all && all > 0 then StreamBits(f, 0, xs) else Laid(f, 0, xs)
  }

  lemma {:induction false} SentMore(f: Layout, xs: seq<Piece>, x: Piece, sent: seq<bool>, sent': seq<bool>, i: nat,
                                    all: nat,
                                    h: seq<byte>, h': seq<byte>, window: nat)
    requires SentSoFar(f, xs, sent, i, all, h, window) && i < all && x.last == (i == all - 1)
    requires Sound(h, x, window) && HistoryAfter(h, x) == h'
    requires sent' == sent + Closed(|sent|, f(|sent|, x), x.last)
    ensures SentSoFar(f, xs + [x], sent', i + 1, all, h', window)
  {
    SoundSnoc([], xs, x, window);
    LaidMore(f, xs, x, sent);
  }

  lemma {:induction false} LaidMore(f: Layout, xs: seq<Piece>, x: Piece, sent: seq<bool>)
    requires sent == Laid(f, 0, xs)
    ensures sent + Closed(|sent|, f(|sent|, x), x.last) == if x.last then
              StreamBits(f, 0, xs + [x]) else Laid(f, 0, xs + [x])
  {
    LaidSnoc(f, 0, xs, x);
    var bits := f(|sent|, x);
    Assoc(sent, bits, Unpack(0, PadLen(|sent| + |bits|)));
  }

  /** Sends all blocks: the bytes are a stream that stands for the data. */
  method Compress(bs: seq<Deflate.Flushed>, litBufsize: nat, fixed: bool, ghost data: seq<byte>, ghost most: int,
                  ghost window: nat)
    returns (bytes: seq<byte>)
    requires bs != [] && 2 <= litBufsize <= MAX_LIT_BUFSIZE && most <= window <= 32768
    requires Deflate.BlocksOk(bs, data) && Deflate.GoodBlocks(bs, litBufsize, most) && Deflate.LenSum(bs) == |data|
    ensures IsStreamOf(bytes, data, window)
  {
    var enc := new Encoder(litBufsize);
    var w := new Writer();
    bytes := CompressWith(enc, w, bs, fixed, data, most, window);
  }

  method CompressWith(enc: Encoder, w: Writer, bs: seq<Deflate.Flushed>, fixed: bool, ghost data: seq<byte>,
                      ghost most: int, ghost window: nat)
    returns (bytes: seq<byte>)
    requires enc.Valid() && enc.tokens == [] && w.Valid() && w.Sent() == [] && bs != [] && most <= window <= 32768
    requires Deflate.BlocksOk(bs, data) && Deflate.GoodBlocks(bs, enc.litBufsize, most)
    requires Deflate.LenSum(bs) == |data|
    modifies w, enc`tokens, enc.t.lfc, enc.t.ldl, enc.t.dfc, enc.t.ddl, enc.t.bfc, enc.t.bdl
    modifies enc.t.heap, enc.t.depth, enc.t.blCount
    ensures IsStreamOf(bytes, data, window)
  {
    ghost var f := TheLayout();
    ghost var xs := SendAll(enc, w, bs, fixed, f, data, most, window);
    bytes := w.pending;
    NothingLeft(f, xs, w.pending, w.biBuf, w.biValid);
    assert Carries(f, xs, bytes, data, window);
  }

  method SendAll(enc: Encoder, w: Writer, bs: seq<Deflate.Flushed>, fixed: bool, ghost f: Layout, ghost data: seq<byte>,
                 ghost most: int, ghost window: nat)
    returns (ghost xs: seq<Piece>)
    requires enc.Valid() && enc.tokens == [] && w.Valid() && w.Sent() == [] && Proper(f) && bs != []
    requires most <= window <= 32768
    requires Deflate.BlocksOk(bs, data) && Deflate.GoodBlocks(bs, enc.litBufsize, most) && Deflate.LenSum(bs) == |data|
    modifies w, enc`tokens, enc.t.lfc, enc.t.ldl, enc.t.dfc, enc.t.ddl, enc.t.bfc, enc.t.bdl, enc.t.heap, enc.t.depth,
        enc.t.blCount
    ensures w.Valid() && w.biValid == 0 && SentSoFar(f, xs, w.Sent(), |bs|, |bs|, data, window)
  {
    xs := [];
    assert bs[..0] == [] && data[..0] == [];
    for i := 0 to |bs|
      invariant enc.Valid() && enc.tokens == [] && w.Valid() && (i == |bs| ==> w.biValid == 0)
      invariant Deflate.LenSum(bs[..i]) <= |data|
      invariant SentSoFar(f, xs, w.Sent(), i, |bs|, data[..Deflate.LenSum(bs[..i])], window)
    {
      BlockAdds(bs, data, i, enc.litBufsize, most, window);
      xs := SendNext(enc, w, bs[i], i, |bs|, fixed, f, xs, data[..Deflate.LenSum(bs[..i])],
                     data[..Deflate.LenSum(bs[..i + 1])], window);
    }
    assert bs[..|bs|] == bs && data[..|data|] == data;
  }

  /** Sends the i-th of all blocks. */
  method SendNext(enc: Encoder, w: Writer, b: Deflate.Flushed, i: nat, all: nat, fixed: bool, ghost f: Layout,
                  ghost xs: seq<Piece>,
                  ghost h: seq<byte>, ghost h': seq<byte>, ghost window: nat)
    returns (ghost xs': seq<Piece>)
    requires enc.Valid() && enc.tokens == [] && w.Valid() && |b.tokens| < enc.litBufsize && Adds(b, h, h', window)
    requires i < all && SentSoFar(f, xs, w.Sent(), i, all, h, window)
    modifies w, enc`tokens, enc.t.lfc, enc.t.ldl, enc.t.dfc, enc.t.ddl, enc.t.bfc, enc.t.bdl, enc.t.heap, enc.t.depth,
        enc.t.blCount
    ensures enc.Valid() && enc.tokens == [] && w.Valid() && (i + 1 == all ==> w.biValid == 0)
    ensures SentSoFar(f, xs', w.Sent(), i + 1, all, h', window)
  {
    ghost var s := w.Sent();
    ghost var x := SendBlock(enc, w, b, i == all - 1, fixed, f, h, h', window);
    SentMore(f, xs, x, s, w.Sent(), i, all, h, h', window);
    xs' := xs + [x];
  }

  /** A stream fills whole bytes, so that no bits stay in the bit buffer. */
  lemma {:induction false} NothingLeft(f: Layout, xs: seq<Piece>, pending: seq<byte>, buf: nat, valid: nat)
    requires Stream(pending) + Unpack(buf, valid) == StreamBits(f, 0, xs) && valid == 0
    ensures Stream(pending) == StreamBits(f, 0, xs)
  {
    NothingHeld(pending, buf);
  }

  /** The compressed form of everything that a finished run of deflate has read. */
  method CompressRun(d: Deflate.Deflater, fixed: bool) returns (bytes: seq<byte>)
    requires d.SlowValid() || d.FastValid()
    requires d.closed && d.blocks != [] && !d.matchAvailable && d.w.lookahead == 0 && d.tokens == []
    requires d.litBufsize <= MAX_LIT_BUFSIZE
    ensures IsStreamOf(bytes, d.w.data, d.w.wsize)
  {
    AllFlushed(d);
    bytes := Compress(d.blocks, d.litBufsize, fixed, d.w.data, d.w.MaxDist(), d.w.wsize);
  }

  /** When no token is left in the buffer the blocks hold all bytes consumed. */
  lemma {:induction false} AllFlushed(d: Deflate.Deflater)
    requires d.SlowValid() || d.FastValid()
    requires !d.matchAvailable && d.w.lookahead == 0 && d.tokens == []
    ensures Deflate.BlocksOk(d.blocks, d.w.data) && Deflate.LenSum(d.blocks) == |d.w.data|
    ensures Deflate.GoodBlocks(d.blocks, d.litBufsize, d.w.MaxDist())
  {
    Deflate.WholeInput(d);
    BlocksStand(d.blocks, d.w.data);
    assert |d.w.data[..Deflate.LenSum(d.blocks)]| == |d.w.data|;
  }

  // ----- decompressing -----

  /** Calls inflate until the stream ends; the i-th call is given take(i) + 1 more bytes, as far as there are any, and
      room for space(i) + 1 bytes. */
  method Decompress(bytes: seq<byte>, wbits: nat, take: nat -> nat, space: nat -> nat, finish: bool,
                    ghost data: seq<byte>) returns (out: seq<byte>)
    requires 8 <= wbits <= 15 && IsStreamOf(bytes, data, Pow2(wbits))
    ensures out == data
  {
    StreamBegins(bytes, data, Pow2(wbits));
    var ok;
    ok, out := InflateAll(bytes, wbits, take, space, finish);
  }

  /** A stream of blocks is what its bytes begin with. */
  lemma {:induction false} StreamBegins(bytes: seq<byte>, data: seq<byte>, window: nat)
    requires IsStreamOf(bytes, data, window)
    ensures BeginsWith(Stream(bytes), data, window)
  {
    var f: Layout, xs: seq<Piece> :| Carries(f, xs, bytes, data, window);
    assert Begins(f, xs, Unpack(0, PadLen(|Laid(f, 0, xs)|)), Stream(bytes), data, window);
  }

  /** Deflate, in the slow or the fast way, any data in any portions, then inflate it in any portions: the data is back.
      */
  method DeflateInflate(portions: seq<seq<byte>>, slow: bool, wbits: nat, hashBits: nat, litBufsize: nat, maxLazy: nat,
                        goodMatch: nat, niceMatch: nat,
                        maxChain: nat, filtered: bool, fixed: bool, full: (nat, nat) -> bool, take: nat -> nat,
                            space: nat -> nat, finish: bool)
    returns (out: seq<byte>)
    requires 9 <= wbits <= 15 && 8 <= hashBits <= 16 && 2 <= litBufsize <= MAX_LIT_BUFSIZE
    ensures out == Joined(portions)
  {
    var d := new Deflate.Deflater(wbits, hashBits, litBufsize, maxLazy, goodMatch, niceMatch, maxChain, filtered);
    Feed(d, portions, slow, full);
    var bytes := CompressRun(d, fixed);
    out := Decompress(bytes, wbits, take, space, finish, d.w.data);
  }

  /** All portions, one after the other. */
  function Joined(portions: seq<seq<byte>>): seq<byte> {
    if portions == [] then [] else Joined(portions[..|portions| - 1]) + portions[|portions| - 1]
  }

  ghost predicate Running(d: Deflate.Deflater, slow: bool)
    reads d, d.w, d.w.window, d.w.prev, d.w.head
  {
    if slow then d.SlowValid() else d.FastValid()
  }

  ghost predicate Ended(d: Deflate.Deflater)
    reads d, d.w
  {
    d.closed && d.blocks != [] && !d.matchAvailable && d.w.lookahead == 0 && d.tokens == []
  }

  /** Gives each portion to deflate without flushing, and then asks it to finish. */
  method Feed(d: Deflate.Deflater, portions: seq<seq<byte>>, slow: bool, full: (nat, nat) -> bool)
    requires Running(d, slow) && !d.closed && d.w.data == []
    modifies d, d.w, d.w.window, d.w.prev, d.w.head
    ensures Running(d, slow) && Ended(d) && d.w.data == Joined(portions)
  {
    var calls := 0;
    for i := 0 to |portions|
      invariant Running(d, slow) && !d.closed && d.w.data == Joined(portions[..i])
    {
      assert portions[..i + 1][..i] == portions[..i];
      calls := FeedOne(d, portions[i], slow, Deflate.NoFlush, full, calls);
    }
    assert portions[..|portions|] == portions;
    calls := FeedOne(d, [], slow, Deflate.Finish, full, calls);
    assert Joined(portions) + [] == Joined(portions);
  }

  /** One portion: deflate is called until it has taken all of it, or until it has finished. At the k-th look of the
      c-th call the output space is used up if full(c, k) says so. */
  method FeedOne(d: Deflate.Deflater, input: seq<byte>, slow: bool, flush: Deflate.Flush, full: (nat, nat) -> bool,
                 calls0: nat) returns (calls: nat)
    requires Running(d, slow) && !d.closed && flush != Deflate.SyncFlush
    modifies d, d.w, d.w.window, d.w.prev, d.w.head
    ensures Running(d, slow) && d.w.data == old(d.w.data) + input && (d.closed <==> flush == Deflate.Finish)
    ensures (d.closed ==> Ended(d))
  {
    var pos := 0;
    calls := calls0;
    assert old(d.w.data) + input[0..0] == old(d.w.data);
    while !d.closed && (pos < |input| || flush == Deflate.Finish)
      invariant pos <= |input| && Running(d, slow) && d.w.data == old(d.w.data) + input[0..pos]
      invariant d.closed ==> flush == Deflate.Finish && pos == |input| && Ended(d)
      decreases !d.closed && (pos < |input| || flush == Deflate.Finish), (|input| - pos) + d.w.lookahead
    {
      ghost var p := pos;
      pos := CallDeflate(d, input, pos, slow, flush, (k: nat) => full(calls, k));
      assert input[0..pos] == input[0..p] + input[p..pos];
      calls := calls + 1;
    }
    assert input[0..pos] == input;
  }

  method CallDeflate(d: Deflate.Deflater, input: seq<byte>, pos: nat, slow: bool, flush: Deflate.Flush,
                     full: nat -> bool) returns (pos': nat)
    requires Running(d, slow) && !d.closed && pos <= |input| && (pos < |input| || flush == Deflate.Finish)
    requires flush != Deflate.SyncFlush
    modifies d, d.w, d.w.window, d.w.prev, d.w.head
    ensures Running(d, slow) && pos <= pos' <= |input| && d.w.data == old(d.w.data) + input[pos..pos']
    ensures d.closed ==> flush == Deflate.Finish && pos' == |input| && Ended(d)
    ensures d.closed || (pos' == |input| && flush != Deflate.Finish)
            || (|input| - pos') + d.w.lookahead < (|input| - pos) + old(d.w.lookahead)
  {
    var state;
    if slow {
      state, pos' := d.DeflateSlow(input, pos, flush, full);
    } else {
      state, pos' := d.DeflateFast(input, pos, flush, full);
    }
  }

  /** What makes a match of three bytes not worth it: TOO_FAR is where distances begin to take eleven extra bits. */
  lemma {:induction false} TooFarBits(d: nat)
    requires 1 <= d <= 32768
    ensures d > Deflate.TOO_FAR <==> Symbols.ExtraDist(Symbols.DistCode(d - 1)) >= 11
  {
  }
}
