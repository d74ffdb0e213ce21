/** Which bytes inflate accepts, and what it makes of them, however they and the output space are portioned. */
module Acceptance {
  import opened Bits
  import opened Canonical
  import opened InflateTable
  import opened Symbols
  import opened Lz77
  import opened Tokens
  import opened BitReader
  import opened BlockStates
  import opened BlockOutput
  import opened Inflate
  import opened Decoding
  import opened BlockRoundTrip
  import opened BlockEncoder
  import opened Streams
  import opened StreamReading
  import opened InflateStream

  // ----- the blocks read are those of the stream -----

  /** What was read follows a stream: its blocks are the first of the stream, and the others are still to come. */
  lemma {:induction false} Follow(f: Layout, pos: nat, h: seq<byte>, done: seq<Piece>, w: seq<bool>, xs: seq<Piece>,
                                  after: seq<bool>, window: nat)
    requires Proper(f) && AllSound(h, done, FAR) && AllSound(h, xs, window) && LastMarked(xs)
    requires NoneBefore(done) && (done != [] ==> xs != []) && Laid(f, pos, done) + w == Laid(f, pos, xs) + after
    ensures |done| <= |xs| && LeadsOn(h, done, xs, window)
    ensures w == Laid(f, pos + |Laid(f, pos, done)|, xs[|done|..]) + after
    decreases |done|
  {
    if done == [] {
      FollowNone(f, pos, h, w, xs, after, window);
    } else {
      var h' := FirstBoth(f, pos, h, done, w, xs, after, window);
      var pos' := pos + |f(pos, done[0])|;
      RestNoneBefore(done);
      Follow(f, pos', h', done[1..], w, xs[1..], after, window);
      LeadsFirst(h, h', done, xs, window);
      LaidFirst(f, pos, done);
      assert xs[1..][|done[1..]|..] == xs[|done|..];
    }
  }

  /** None of the blocks but the last is marked as the last one. */
  ghost predicate NoneBefore(done: seq<Piece>) {
    forall i :: 0 <= i < |done| - 1 ==> !done[i].last
  }

  lemma {:induction false} RestNoneBefore(done: seq<Piece>)
    requires NoneBefore(done) && done != []
    ensures NoneBefore(done[1..]) && (done[1..] != [] ==> !done[0].last)
  {
    forall i | 0 <= i < |done[1..]| - 1 ensures !done[1..][i].last { assert done[1..][i] == done[i + 1]; }
  }

  lemma {:induction false} LaidFirst(f: Layout, pos: nat, done: seq<Piece>)
    requires done != []
    ensures var pos' := pos + |f(pos, done[0])|; pos' + |Laid(f, pos', done[1..])| == pos + |Laid(f, pos, done)|
  {
  }

  lemma {:induction false} FollowNone(f: Layout, pos: nat, h: seq<byte>, w: seq<bool>, xs: seq<Piece>,
                                      after: seq<bool>, window: nat)
    requires AllSound(h, xs, window) && LastMarked(xs) && Laid(f, pos, []) + w == Laid(f, pos, xs) + after
    ensures LeadsOn(h, [], xs, window) && w == Laid(f, pos, xs[0..]) + after
  {
    assert [] + w == w && xs[0..] == xs;
  }

  lemma {:induction false} FirstBoth(f: Layout, pos: nat, h: seq<byte>, done: seq<Piece>, w: seq<bool>, xs: seq<Piece>,
                                     after: seq<bool>, window: nat) returns (h': seq<byte>)
    requires Proper(f) && AllSound(h, done, FAR) && AllSound(h, xs, window) && LastMarked(xs)
    requires done != [] && xs != [] && Laid(f, pos, done) + w == Laid(f, pos, xs) + after
    ensures AllSound(h', done[1..], FAR) && AllSound(h', xs[1..], window) && LastMarked(xs[1..])
    ensures HistoryAfterAll(h, done, FAR) == HistoryAfterAll(h', done[1..], FAR)
    ensures HistoryAfterAll(h, xs, window) == HistoryAfterAll(h', xs[1..], window)
    ensures (done[0].last <==> |xs| == 1)
    ensures Laid(f, pos + |f(pos, done[0])|, done[1..]) + w == Laid(f, pos + |f(pos, done[0])|, xs[1..]) + after
  {
    h' := FirstSound(h, done, FAR);
    var h'' := FirstSound(h, xs, window);
    FirstSame(f, pos, done, w, xs, after);
    AlikeHistory(h, done[0], xs[0]);
    MarkedRest(xs);
  }

  lemma {:induction false} AlikeHistory(h: seq<byte>, y: Piece, x: Piece)
    requires Alike(y, x) && (x.b.StoredBlock? || Expandable(h, TokensOf(x.its)))
    ensures HistoryAfter(h, y) == HistoryAfter(h, x)
  {
  }

  lemma {:induction false} FirstSound(h: seq<byte>, xs: seq<Piece>, window: nat) returns (h': seq<byte>)
    requires AllSound(h, xs, window) && xs != []
    ensures Sound(h, xs[0], window) && h' == HistoryAfter(h, xs[0]) && AllSound(h', xs[1..], window)
    ensures HistoryAfterAll(h, xs, window) == HistoryAfterAll(h', xs[1..], window)
  {
    h' := HistoryAfter(h, xs[0]);
  }

  lemma {:induction false} LeadsFirst(h: seq<byte>, h': seq<byte>, done: seq<Piece>, xs: seq<Piece>, window: nat)
    requires AllSound(h, done, FAR) && AllSound(h, xs, window) && done != [] && |done| <= |xs|
    requires AllSound(h', done[1..], FAR) && AllSound(h', xs[1..], window) && LeadsOn(h', done[1..], xs[1..], window)
    requires HistoryAfterAll(h, done, FAR) == HistoryAfterAll(h', done[1..], FAR)
    requires HistoryAfterAll(h, xs, window) == HistoryAfterAll(h', xs[1..], window)
    requires done[0].last <==> |xs| == 1
    ensures LeadsOn(h, done, xs, window)
  {
    assert xs[1..][|done[1..]|..] == xs[|done|..];
    assert LeadsBy(h', done[1..], xs[|done|..], xs[1..], window);
  }

  /** The blocks read and the rest of the stream lead to the same as the whole stream. */
  ghost predicate LeadsOn(h: seq<byte>, done: seq<Piece>, xs: seq<Piece>, window: nat) {
    forall todo {:trigger LeadsBy(h, done, todo, xs, window)} ::
      |done| <= |xs| && todo == xs[|done|..] ==> LeadsBy(h, done, todo, xs, window)
  }

  ghost predicate LeadsBy(h: seq<byte>, done: seq<Piece>, todo: seq<Piece>, xs: seq<Piece>, window: nat) {
    && AllSound(h, done, FAR) && AllSound(h, xs, window)
    && var start := HistoryAfterAll(h, done, FAR);
    && LastMarked(todo) && (done != [] ==> (todo == [] <==> done[|done| - 1].last))
    && AllSound(start, todo, window) && HistoryAfterAll(start, todo, window) == HistoryAfterAll(h, xs, window)
  }

  /** The first block read is the first one of the stream. */
  lemma {:induction false} FirstSame(f: Layout, pos: nat, done: seq<Piece>, w: seq<bool>, xs: seq<Piece>,
                                     after: seq<bool>)
    requires Proper(f) && done != [] && xs != [] && Readable(done[0]) && Readable(xs[0])
    requires Laid(f, pos, done) + w == Laid(f, pos, xs) + after
    ensures Alike(done[0], xs[0])
    ensures Laid(f, pos + |f(pos, done[0])|, done[1..]) + w == Laid(f, pos + |f(pos, done[0])|, xs[1..]) + after
  {
    var y, x := done[0], xs[0];
    Assoc(f(pos, y), Laid(f, pos + |f(pos, y)|, done[1..]), w);
    Assoc(f(pos, x), Laid(f, pos + |f(pos, x)|, xs[1..]), after);
    SameLaid(f, pos, y, Laid(f, pos + |f(pos, y)|, done[1..]) + w, x, Laid(f, pos + |f(pos, x)|, xs[1..]) + after);
  }

  lemma {:induction false} SameLaid(f: Layout, pos: nat, y: Piece, v: seq<bool>, x: Piece, rest: seq<bool>)
    requires Proper(f) && Readable(y) && Readable(x) && f(pos, y) + v == f(pos, x) + rest
    ensures Alike(y, x) && v == rest && f(pos, y) == f(pos, x)
  {
    assert LaysOut(f, pos, y) && LaysOut(f, pos, x);
    SameBlock(pos, y, v, x, rest);
  }

  lemma {:induction false} MarkedRest(xs: seq<Piece>)
    requires LastMarked(xs) && xs != []
    ensures LastMarked(xs[1..]) && (xs[0].last <==> |xs| == 1)
  {
    forall i | 0 <= i < |xs[1..]| ensures xs[1..][i].last <==> i == |xs[1..]| - 1 {
      assert xs[1..][i] == xs[i + 1];
    }
  }

  // ----- a decoder on its way through a stream -----

  /** The blocks are a stream that stands for data. */
  ghost predicate StandsFor(f: Layout, xs: seq<Piece>, window: nat, data: seq<byte>) {
    && Proper(f) && AllSound([], xs, window) && LastMarked(xs) && xs != []
    && HistoryAfterAll([], xs, window) == data
  }

  /** Wherever the decoder stands in a stream, it has reported no error, its output begins what the stream stands for,
      it is all of it at the end, and the decoder does not wait for more once all bits are given. */
  lemma {:induction false} OnTrack(f: Layout, done: seq<Piece>, stage: Stage, last: bool, s: Seen, a: Acc, window: nat,
                                   out: seq<byte>, v: seq<bool>, w: seq<bool>, xs: seq<Piece>, after: seq<bool>,
                                   data: seq<byte>)
    requires Stands(f, done, stage, last, s, a, window, out) && StandsFor(f, xs, window, data)
    requires Comes(|Laid(f, 0, done)|, s, Held(a) + v, w) && Laid(f, 0, done) + w == Laid(f, 0, xs) + after
    ensures !stage.Failed? && out <= data && (stage.Done? ==> out == data)
    ensures v == [] && !stage.Done? && !(stage.Type? && last) ==> !Wanting(s, a)
  {
    var pos := |Laid(f, 0, done)|;
    Follow(f, 0, [], done, w, xs, after, window);
    var todo := xs[|done|..];
    assert LeadsBy([], done, todo, xs, window);
    WhereIt(f, done, stage, last, s, a, window, out);
    if todo != [] {
      NextBlock(f, pos, stage, last, s, a, Start(done), window, out, v, w, todo, after);
    }
  }

  /** What was read of the current block, and u, are w. */
  ghost predicate Comes(pos: nat, s: Seen, u: seq<bool>, w: seq<bool>) {
    SeenOk(s) && forall q: nat {:trigger SeenBits(q, s)} :: q == pos ==> SeenBits(q, s) + u == w
  }

  /** After the last block the decoder is between blocks or done, and before it is not done. */
  lemma {:induction false} WhereIt(f: Layout, done: seq<Piece>, stage: Stage, last: bool, s: Seen, a: Acc, window: nat,
                                   out: seq<byte>)
    requires Stands(f, done, stage, last, s, a, window, out)
    ensures if done != [] && done[|done| - 1].last then (stage.Done? || (stage.Type? && last)) && out == Start(done)
            else !stage.Done?
  {
  }

  lemma {:induction false} NextBlock(f: Layout, pos: nat, stage: Stage, last: bool, s: Seen, a: Acc, start: seq<byte>,
                                     window: nat, out: seq<byte>, v: seq<bool>, w: seq<bool>, todo: seq<Piece>,
                                     after: seq<bool>)
    requires Proper(f) && AllSound(start, todo, window) && todo != []
    requires SeenOk(s) && At(stage, last, s, a, start, window) && OutputIs(start, s, out) && !stage.Done?
    requires Comes(pos, s, Held(a) + v, w) && w == Laid(f, pos, todo) + after
    ensures !stage.Failed? && out <= HistoryAfterAll(start, todo, window) && (v == [] ==> !Wanting(s, a))
  {
    var x := todo[0];
    Assoc(f(pos, x), Laid(f, pos + |f(pos, x)|, todo[1..]), after);
    InLaid(f, pos, stage, last, s, a, start, window, out, v, w, x, Laid(f, pos + |f(pos, x)|, todo[1..]) + after);
    HistoryGrows(start, todo, window);
  }

  lemma {:induction false} InLaid(f: Layout, pos: nat, stage: Stage, last: bool, s: Seen, a: Acc, start: seq<byte>,
                                  window: nat, out: seq<byte>, v: seq<bool>, w: seq<bool>, x: Piece, rest: seq<bool>)
    requires SeenOk(s) && At(stage, last, s, a, start, window) && OutputIs(start, s, out) && !stage.Done?
    requires Proper(f) && Sound(start, x, window) && Comes(pos, s, Held(a) + v, w) && w == f(pos, x) + rest
    ensures !stage.Failed? && out <= HistoryAfter(start, x) && (v == [] ==> !Wanting(s, a))
  {
    assert LaysOut(f, pos, x);
    assert SeenBits(pos, s) + (Held(a) + v) == w;
    InBlock(pos, stage, last, s, a, start, window, out, v, x, rest);
  }

  /** The same in a block of the stream. */
  lemma {:induction false} InBlock(pos: nat, stage: Stage, last: bool, s: Seen, a: Acc, start: seq<byte>, window: nat,
                                   out: seq<byte>, v: seq<bool>, x: Piece, rest: seq<bool>)
    requires SeenOk(s) && At(stage, last, s, a, start, window) && OutputIs(start, s, out) && !stage.Done?
    requires Sound(start, x, window) && SeenBits(pos, s) + (Held(a) + v) == PieceBits(pos, x) + rest
    ensures !stage.Failed? && out <= HistoryAfter(start, x) && (v == [] ==> !Wanting(s, a))
  {
    ReadsRight(pos, s, Held(a) + v, x, rest);
    NotWrong(pos, s, Held(a) + v, x, rest, start, window);
    OutputBegins(stage, last, s, a, start, window, out, x);
    if v == [] {
      assert Held(a) + v == Held(a);
      NotWanting(pos, s, a, x, rest);
    }
  }

  lemma {:induction false} OutputBegins(stage: Stage, last: bool, s: Seen, a: Acc, start: seq<byte>, window: nat,
                                        out: seq<byte>, x: Piece)
    requires SeenOk(s) && At(stage, last, s, a, start, window) && OutputIs(start, s, out) && !stage.Failed?
    requires Sound(start, x, window) && Matches(s, x)
    ensures out <= HistoryAfter(start, x)
  {
    if s.Items? {
      BodyBeginsIt(start, stage.st, s.p, x.its, out);
    } else if s.Words? {
      assert start + s.data <= start + x.b.data;
    } else if !x.b.StoredBlock? {
      ExpandExtends(start, TokensOf(x.its));
    }
  }

  lemma {:induction false} BodyBeginsIt(start: seq<byte>, st: State, p: Progress, its: seq<Item>, out: seq<byte>)
    requires Expandable(start, TokensOf(its)) && Agrees(p, its) && Wrote(start, p, out)
    requires BlockStates.Holds(st, p.cur) && PartWritten(st, p) && st.mode != BAD
    requires p.cur.AtItem? ==> InRange(p.cur.it)
    ensures out <= Expand(start, TokensOf(its))
  {
    var ts, n := TokensOf(its), |p.its|;
    assert TokensOf(p.its) == ts[..n];
    ExpandWithin(start, ts, n);
    if p.part != 0 {
      PartFits(st, p);
      assert ts[n] == TokenOf(p.cur.it);
      PartBegins(Expand(start, ts[..n]), ts[n], p.part, out, Expand(start, ts));
    }
  }

  lemma {:induction false} PartBegins(e: seq<byte>, t: Token, part: nat, out: seq<byte>, all: seq<byte>)
    requires 1 <= t.dist <= |e| && part <= t.lc + MIN_MATCH && out == Repeat(e, t.dist, part) && Apply(e, t) <= all
    ensures out <= all
  {
    RepeatPart(e, t.dist, part, t.lc + MIN_MATCH);
  }

  lemma {:induction false} PartFits(st: State, p: Progress)
    requires BlockStates.Holds(st, p.cur) && PartWritten(st, p) && p.part != 0 && p.cur.AtItem? && p.cur.it.Pair?
    requires InRange(p.cur.it) && st.mode != BAD
    ensures p.part <= TokenOf(p.cur.it).lc + MIN_MATCH
  {
    ItemToken(p.cur.it);
    LengthRange(p.cur.it.c, p.cur.it.e);
  }

  // ----- the output is never much longer than the input -----

  lemma {:induction false} ItemsBound(g: Lens, its: seq<Item>, n: nat)
    requires AllCodable(g.ll, g.dl, its) && n <= |its|
    ensures |Join(Parts(g.ll, g.dl, its), n)| >= n
  {
    if n != 0 {
      ItemsBound(g, its, n - 1);
      PartAt(g.ll, g.dl, its, n - 1);
      ItemStarts(g, its[n - 1], []);
    }
  }

  /** A block body gives at most MAX_MATCH bytes a bit. */
  lemma {:induction false} BodyBound(g: Lens, start: seq<byte>, st: State, p: Progress, total: seq<byte>)
    requires Sane(g, p) && Wrote(start, p, total) && BlockStates.Holds(st, p.cur) && PartWritten(st, p)
    requires st.mode != BAD
    ensures |total| <= |start| + MAX_MATCH * |Taken(g, p)|
  {
    ItemsBound(g, p.its, |p.its|);
    ExpandBound(start, TokensOf(p.its));
    if p.part != 0 {
      PartFits(st, p);
      ItemStarts(g, p.cur.it, []);
    }
  }

  /** A block gives at most MAX_MATCH bytes a bit. */
  lemma {:induction false} PieceBound(pos: nat, h: seq<byte>, x: Piece, window: nat)
    requires Sound(h, x, window)
    ensures |HistoryAfter(h, x)| <= |h| + MAX_MATCH * |PieceBits(pos, x)|
  {
    if !x.b.StoredBlock? {
      var g := LensOf(x.b);
      ItemsBound(g, x.its, |x.its|);
      ExpandBound(h, TokensOf(x.its));
    }
  }

  lemma {:induction false} BlocksBound(f: Layout, pos: nat, h: seq<byte>, xs: seq<Piece>, window: nat)
    requires Proper(f) && AllSound(h, xs, window)
    ensures |HistoryAfterAll(h, xs, window)| <= |h| + MAX_MATCH * |Laid(f, pos, xs)|
    decreases |xs|
  {
    if xs != [] {
      var h' := FirstSound(h, xs, window);
      LaidBound(f, pos, h, xs[0], window);
      BlocksBound(f, pos + |f(pos, xs[0])|, h', xs[1..], window);
    }
  }

  lemma {:induction false} LaidBound(f: Layout, pos: nat, h: seq<byte>, x: Piece, window: nat)
    requires Proper(f) && Sound(h, x, window)
    ensures |HistoryAfter(h, x)| <= |h| + MAX_MATCH * |f(pos, x)|
  {
    assert LaysOut(f, pos, x);
    PieceBound(pos, h, x, window);
  }

  /** What was read of a block gives at most MAX_MATCH bytes a bit. */
  lemma {:induction false} SeenBound(pos: nat, stage: Stage, last: bool, s: Seen, a: Acc, start: seq<byte>, window: nat,
                                     total: seq<byte>)
    requires SeenOk(s) && At(stage, last, s, a, start, window) && OutputIs(start, s, total) && !stage.Failed?
    ensures |total| <= |start| + MAX_MATCH * |SeenBits(pos, s)|
  {
    if s.Items? { BodyBound(LensOf(s.b), start, stage.st, s.p, total); }
  }

  lemma {:induction false} OutputBound(f: Layout, done: seq<Piece>, stage: Stage, last: bool, s: Seen, a: Acc,
                                       window: nat, total: seq<byte>)
    requires Stands(f, done, stage, last, s, a, window, total) && !stage.Failed?
    ensures |total| <= MAX_MATCH * |AllOf(f, done, s, Held(a))|
  {
    BlocksBound(f, 0, [], done, FAR);
    SeenBound(|Laid(f, 0, done)|, stage, last, s, a, Start(done), window, total);
  }

  // ----- all calls together -----

  /** The bits begin with a stream of the format that stands for data, with no distance beyond the window. */
  ghost predicate BeginsWith(bits: seq<bool>, data: seq<byte>, window: nat) {
    exists f: Layout, xs: seq<Piece>, after: seq<bool> :: Begins(f, xs, after, bits, data, window)
  }

  ghost predicate Begins(f: Layout, xs: seq<Piece>, after: seq<bool>, bits: seq<bool>, data: seq<byte>, window: nat) {
    StandsFor(f, xs, window, data) && bits == Laid(f, 0, xs) + after
  }

  lemma {:induction false} SameLayout(f: Layout, g: Layout, pos: nat, h: seq<byte>, xs: seq<Piece>, window: nat)
    requires Proper(f) && Proper(g) && AllSound(h, xs, window)
    ensures Laid(f, pos, xs) == Laid(g, pos, xs)
    decreases |xs|
  {
    if xs != [] {
      var h' := FirstSound(h, xs, window);
      BothLay(f, g, pos, xs[0]);
      SameLayout(f, g, pos + |f(pos, xs[0])|, h', xs[1..], window);
    }
  }

  lemma {:induction false} BothLay(f: Layout, g: Layout, pos: nat, x: Piece)
    requires Proper(f) && Proper(g) && Readable(x)
    ensures f(pos, x) == g(pos, x)
  {
    assert LaysOut(f, pos, x) && LaysOut(g, pos, x);
  }

  /** The decoder was given bytes[..used] so far. */
  ghost predicate Given(d: Decompressor, bytes: seq<byte>, used: nat)
    reads d, d.win, d.win.window
  {
    used <= |bytes| && Due(d, Stream(bytes[..used]))
  }

  /** The decoder was given the bits so far. */
  ghost predicate Due(d: Decompressor, bits: seq<bool>)
    reads d, d.win, d.win.window
  {
    forall u {:trigger d.Took(u)} :: u == bits ==> d.Took(u)
  }

  /** The calls have come to an end: that of the stream, an error, or the end of the input. */
  ghost predicate Over(d: Decompressor, bytes: seq<byte>, used: nat)
    reads d, d.win, d.win.window
  {
    || d.stage.Done? || d.stage.Failed?
    || (used == |bytes| && Wanting(d.seen, d.Saved()) && !(d.stage.Type? && d.last))
  }

  lemma {:induction false} Taking(d: Decompressor, bits: seq<bool>)
    requires Due(d, bits)
    ensures Stands(d.f, d.done, d.stage, d.last, d.seen, d.Saved(), d.win.window.Length, d.out)
    ensures AllOf(d.f, d.done, d.seen, Held(d.Saved())) == bits
  {
    assert d.Took(bits);
  }

  lemma {:induction false} BytesSplit(bytes: seq<byte>, n: nat)
    requires n <= |bytes|
    ensures Stream(bytes) == Stream(bytes[..n]) + Stream(bytes[n..])
  {
    assert bytes == bytes[..n] + bytes[n..];
    StreamConcat(bytes[..n], bytes[n..]);
  }

  /** At the end of a stream the bytes given begin with it. */
  lemma {:induction false} Accepted(d: Decompressor, bytes: seq<byte>, used: nat)
    requires Given(d, bytes, used) && d.stage.Done?
    ensures BeginsWith(Stream(bytes), d.out, FAR)
  {
    Taking(d, Stream(bytes[..used]));
    BytesSplit(bytes, used);
    var rest := Stream(bytes[used..]);
    var after := d.seen.rest + Held(d.Saved()) + rest;
    Assoc(Laid(d.f, 0, d.done), d.seen.rest + Held(d.Saved()), rest);
    assert Begins(d.f, d.done, after, Stream(bytes), d.out, FAR);
  }

  /** Bytes that begin with a stream are accepted, and the output is what it stands for. */
  lemma {:induction false} Verdict(d: Decompressor, bytes: seq<byte>, used: nat, data: seq<byte>)
    requires Given(d, bytes, used) && BeginsWith(Stream(bytes), data, d.win.window.Length)
    ensures !d.stage.Failed? && d.out <= data && (Over(d, bytes, used) ==> d.stage.Done? && d.out == data)
  {
    Taking(d, Stream(bytes[..used]));
    BytesSplit(bytes, used);
    InStream(d.f, d.done, d.stage, d.last, d.seen, d.Saved(), d.win.window.Length, d.out, Stream(bytes[used..]),
             Stream(bytes), data);
  }

  /** A decoder that was given some of the bits, with v to come, when all of them begin with a stream. */
  lemma {:induction false} InStream(f: Layout, done: seq<Piece>, stage: Stage, last: bool, s: Seen, a: Acc, window: nat,
                                    out: seq<byte>, v: seq<bool>, bits: seq<bool>, data: seq<byte>)
    requires Stands(f, done, stage, last, s, a, window, out) && BeginsWith(bits, data, window)
    requires AllOf(f, done, s, Held(a)) + v == bits
    ensures !stage.Failed? && out <= data && (stage.Done? ==> out == data)
    ensures v == [] && !stage.Done? && !(stage.Type? && last) ==> !Wanting(s, a)
  {
    var g: Layout, xs: seq<Piece>, after :| Begins(g, xs, after, bits, data, window);
    SameLayout(g, f, 0, [], xs, window);
    var w := ToCome(f, done, s, Held(a), v);
    OnTrack(f, done, stage, last, s, a, window, out, v, w, xs, after, data);
  }

  lemma {:induction false} ToCome(f: Layout, done: seq<Piece>, s: Seen, u: seq<bool>, v: seq<bool>)
    returns (w: seq<bool>)
    requires SeenOk(s)
    ensures Comes(|Laid(f, 0, done)|, s, u + v, w) && Laid(f, 0, done) + w == AllOf(f, done, s, u) + v
  {
    var b := SeenBits(|Laid(f, 0, done)|, s);
    w := b + (u + v);
    Regroup3(Laid(f, 0, done), b, u, v);
  }

  /** One call on bytes[used..given], with room for n bytes. */
  method Call(d: Decompressor, bytes: seq<byte>, used: nat, given: nat, n: nat, finish: bool)
    returns (used': nat, got: seq<byte>)
    requires Given(d, bytes, used) && used <= given <= |bytes|
    modifies d, d.win, d.win.window
    ensures Given(d, bytes, used') && used <= used' <= given && d.out == old(d.out) + got && |got| <= n
    ensures given == |bytes| && |got| < n ==> Over(d, bytes, used')
  {
    var next;
    var input := bytes[used..given];
    next, got := CallOnce(d, input, n, finish, Stream(bytes[..used]));
    used' := used + next;
    assert bytes[..used'] == bytes[..used] + input[..next];
    StreamConcat(bytes[..used], input[..next]);
  }

  /** One call, with room for n bytes; returns what it wrote. */
  method CallOnce(d: Decompressor, input: seq<byte>, n: nat, finish: bool, ghost bits: seq<bool>)
    returns (next: nat, got: seq<byte>)
    requires Due(d, bits)
    modifies d, d.win, d.win.window
    ensures next <= |input| && Due(d, bits + Stream(input[..next])) && d.out == old(d.out) + got && |got| <= n
    ensures |got| < n ==> Over(d, input, next)
  {
    var put := new byte[n](_ => 0);
    assert d.Took(bits);
    var pos;
    next, pos := d.Inflate(input, put, finish);
    got := put[..pos];
  }

  /** Calls inflate until the stream ends, something is wrong, or the input is used up; the i-th call is given take(i) +
      1
      more bytes, as far as there are any, and room for space(i) + 1 bytes. The bytes are accepted if they begin with a
      stream whose distances stay within the window, and only if they begin with a stream of the format; the output is
      what it stands for. With the largest window these are the same. */
  method InflateAll(bytes: seq<byte>, wbits: nat, take: nat -> nat, space: nat -> nat, finish: bool)
    returns (ok: bool, out: seq<byte>)
    requires 8 <= wbits <= 15
    ensures ok ==> BeginsWith(Stream(bytes), out, FAR)
    ensures forall data :: BeginsWith(Stream(bytes), data, Pow2(wbits)) ==> ok && out == data
    ensures wbits == 15 ==> (ok <==> IsStream(Stream(bytes)))
  {
    var d := new Decompressor(wbits);
    ghost var used;
    out, used := CallAll(d, bytes, take, space, finish);
    ok := d.stage.Done?;
    if ok { Accepted(d, bytes, used); }
    forall data | BeginsWith(Stream(bytes), data, Pow2(wbits)) ensures ok && out == data {
      Verdict(d, bytes, used, data);
    }
    if wbits == 15 { AcceptedExactly(ok, out, Stream(bytes), wbits); }
  }

  /** The bits begin with a stream of the format. */
  ghost predicate IsStream(bits: seq<bool>) {
    exists data :: BeginsWith(bits, data, FAR)
  }

  lemma {:induction false} AcceptedExactly(ok: bool, out: seq<byte>, bits: seq<bool>, wbits: nat)
    requires wbits == 15 && (ok ==> BeginsWith(bits, out, FAR))
    requires forall data :: BeginsWith(bits, data, Pow2(wbits)) ==> ok && out == data
    ensures ok <==> IsStream(bits)
  {
    LargePowers();
    if data :| BeginsWith(bits, data, FAR) { assert BeginsWith(bits, data, Pow2(wbits)); }
  }

  method CallAll(d: Decompressor, bytes: seq<byte>, take: nat -> nat, space: nat -> nat, finish: bool)
    returns (out: seq<byte>, ghost used: nat)
    requires Given(d, bytes, 0) && d.out == []
    modifies d, d.win, d.win.window
    ensures out == d.out && Given(d, bytes, used) && Over(d, bytes, used)
  {
    var at, given, i, over := 0, 0, 0, false;
    out := [];
    while !over
      invariant at <= given <= |bytes| && out == d.out && Given(d, bytes, at) && (over ==> Over(d, bytes, at))
      invariant !over ==> |out| <= MAX_MATCH * (8 * |bytes|)
      decreases !over, (|bytes| - given) + (MAX_MATCH * (8 * |bytes|) - |out|)
    {
      given := if take(i) < |bytes| - given then given + take(i) + 1 else |bytes|;
      var n, got := space(i) + 1, [];
      at, got := Call(d, bytes, at, given, n, finish);
      out := out + got;
      over := d.stage.Done? || d.stage.Failed? || (given == |bytes| && |got| < n);
      if !over { CallBound(d, bytes, at); }
      i := i + 1;
    }
    used := at;
  }

  lemma {:induction false} CallBound(d: Decompressor, bytes: seq<byte>, used: nat)
    requires Given(d, bytes, used) && !d.stage.Failed?
    ensures |d.out| <= MAX_MATCH * (8 * |bytes|)
  {
    Taking(d, Stream(bytes[..used]));
    OutputBound(d.f, d.done, d.stage, d.last, d.seen, d.Saved(), d.win.window.Length, d.out);
  }
}
