/** The decoding of a block body over any number of calls, each with any amount of
    input and of output space. */
module Inflate {
  import opened Bits
  import opened Canonical
  import opened InflateTable
  import opened Symbols
  import opened Lz77
  import opened Tokens
  import opened BitReader
  import opened BlockStates
  import opened BlockOutput
  import opened InflateFast
  import opened Window

  /** How many bytes of the current item the state says are written. */
  ghost predicate PartWritten(st: State, p: Progress) {
    match st.mode
    case MATCH => p.part == st.was - st.length
    case BAD => true
    case _ => p.part == 0
  }

  /** A consistent point of the decoding, with the bytes total written. */
  ghost predicate Point(k: Codes, g: Lens, start: seq<byte>, input: seq<byte>, a: Acc, st: State, p: Progress,
                        total: seq<byte>) {
    && Ready(k, g) && Good(input, a) && Sane(g, p) && BlockStates.Holds(st, p.cur)
    && Wrote(start, p, total) && PartWritten(st, p)
  }

  /** A stop at an item means that its distance is too far back. */
  ghost predicate TooFar(st: State, p: Progress, reach: nat) {
    st.mode == BAD && p.cur.AtItem? ==> p.cur.it.Pair? && TokenOf(p.cur.it).dist > reach
  }

  lemma {:induction false} FetchedItem(r: Fetched, g: Lens, cur: Cur)
    requires Fetches(r, cur) && r.Copy? && Sensible(g, cur)
    ensures r.len == TokenOf(cur.it).lc + MIN_MATCH && r.dist == TokenOf(cur.it).dist && r.dist >= 1
    ensures r.len <= MAX_MATCH
  {
    ItemToken(cur.it);
    LengthRange(cur.it.c, cur.it.e);
  }

  lemma {:induction false} PartNonempty(g: Lens, cur: Cur)
    requires Sensible(g, cur) && !cur.AtLen?
    ensures |Part(g, cur)| >= 1
  {
    match cur
    case BadLen(w) => assert |w| >= 1;
    case BadDist(c, e, w) => assert |CodeString(g.ll, 257 + c)| >= 1;
    case _ =>
  }

  /** Whatever was read starts with a literal/length code. */
  lemma {:induction false} FirstCode(g: Lens, cur: Cur) returns (w: seq<bool>, leaf: Entry)
    requires Sensible(g, cur) && !cur.AtLen? && |g.ll| <= MaxCodes(LENS)
    ensures Decoded(LENS, g.ll, w, leaf) && w <= Part(g, cur)
  {
    if cur.BadLen? {
      w := cur.w;
      leaf :| Decoded(LENS, g.ll, w, leaf);
    } else {
      var s := FirstSymbol(cur);
      w, leaf := CodeString(g.ll, s), MakeEntry(LENS, s, 0);
      assert SymbolRead(LENS, g.ll, w, leaf, s);
      if cur.AtDistExt? || cur.BadDist? {
        assert LengthField(g.ll, cur.c, cur.e)[..|w|] == w;
      }
    }
  }

  ghost function FirstSymbol(cur: Cur): nat
    requires !cur.AtLen? && !cur.BadLen?
  {
    if cur.AtItem? then if cur.it.Lit? then cur.it.b else 257 + cur.it.c
    else if cur.AtEnd? then END_BLOCK else 257 + cur.c
  }

  /** When no whole code was held, reading an item takes all that was held. */
  lemma {:induction false} TakesAllHeld(g: Lens, input: seq<byte>, a: Acc, a': Acc, cur: Cur)
    requires Kept(g, input, a, AtLen, a', cur) && !cur.AtLen? && NoWholeCode(LENS, g.ll, Held(a))
    requires |g.ll| <= MaxCodes(LENS)
    ensures |Unread(input, a')| < 8 * (|input| - a.next)
  {
    var w, leaf := FirstCode(g, cur);
    var u := Unread(input, a);
    assert u == Part(g, cur) + Unread(input, a');
    assert w == u[..|w|];
  }

  /** One byte of output. */
  method PutLiteral(put: array<byte>, pos: nat, ghost start: seq<byte>, ghost prior: seq<byte>, ghost p: Progress,
                    b: byte)
    requires pos < put.Length && Wrote(start, p, prior + put[..pos]) && p.cur == AtItem(Lit(b)) && p.part == 0
    modifies put
    ensures Wrote(start, Finished(p), prior + put[..pos + 1]) && Grown(old(put[..]), put[..], pos, 1)
  {
    FinishLiteral(start, p, prior + put[..pos]);
    ghost var total := prior + put[..pos];
    put[pos] := b;
    assert prior + put[..pos + 1] == total + [b];
  }

  /** A whole match. */
  method PutMatch(put: array<byte>, pos: nat, win: SlidingWindow, ghost start: seq<byte>, ghost prior: seq<byte>,
                  ghost p: Progress, len: nat, dist: nat)
    returns (bad: bool)
    requires win.Tracks(prior) && put != win.window && pos + len <= put.Length && len >= MIN_MATCH && dist >= 1
    requires Wrote(start, p, prior + put[..pos]) && p.cur.AtItem? && p.cur.it.Pair? && p.part == 0
    requires TokenOf(p.cur.it) == Token(dist, LengthByte(len)) && len <= MAX_MATCH
    modifies put
    ensures bad <==> dist > pos + win.whave
    ensures bad ==> put[..] == old(put[..])
    ensures !bad ==> Wrote(start, Finished(p), prior + put[..pos + len]) && Grown(old(put[..]), put[..], pos, len)
  {
    ghost var total := prior + put[..pos];
    bad := win.CopyFast(put, pos, dist, len, prior);
    if !bad {
      WroteMore(start, p, total, dist, len);
      FinishMatch(start, p.(part := len), Repeat(total, dist, len));
    }
  }

  /** What inflate_fast may stop with. */
  ghost predicate FastStop(mode: Mode, cur: Cur, reach: nat) {
    match mode
    case LEN => cur.AtLen?
    case TYPE => cur.AtEnd?
    case BAD => cur.BadLen? || cur.BadDist? || (cur.AtItem? && cur.it.Pair? && TokenOf(cur.it).dist > reach)
    case _ => false
  }

  /** Writes what was fetched. */
  method PutFetched(put: array<byte>, pos: nat, win: SlidingWindow, ghost g: Lens, ghost start: seq<byte>,
                    ghost prior: seq<byte>, ghost p: Progress, r: Fetched)
    returns (mode: Mode, pos': nat, ghost p': Progress)
    requires win.Tracks(prior) && put != win.window && pos + MAX_MATCH <= put.Length
    requires Sensible(g, p.cur) && Fetches(r, p.cur) && p.part == 0 && Wrote(start, p, prior + put[..pos])
    modifies put
    ensures p' == p || (p.cur.AtItem? && p' == Finished(p))
    ensures pos <= pos' <= pos + MAX_MATCH && Grown(old(put[..]), put[..], pos, pos' - pos)
    ensures Wrote(start, p', prior + put[..pos']) && FastStop(mode, p'.cur, pos' + win.whave)
  {
    p', pos', mode := p, pos, LEN;
    match r
    case Literal(b) =>
      PutLiteral(put, pos, start, prior, p, b);
      p', pos' := Finished(p), pos + 1;
    case Copy(len, dist) =>
      FetchedItem(r, g, p.cur);
      var bad := PutMatch(put, pos, win, start, prior, p, len, dist);
      if bad {
        mode := BAD;
      } else {
        p', pos' := Finished(p), pos + len;
      }
    case EndOfBlock => mode := TYPE;
    case Invalid => mode := BAD;
  }

  /** From one point of the decoding to a later one: the bits are the same, fewer are unread. */
  ghost predicate Onward(g: Lens, input: seq<byte>, a: Acc, p: Progress, a': Acc, p': Progress) {
    && Good(input, a) && Good(input, a') && Sane(g, p) && Sane(g, p') && a.next <= a'.next
    && AllBits(g, p', input, a') == AllBits(g, p, input, a) && |Unread(input, a')| < |Unread(input, a)|
  }

  lemma {:induction false} OnwardTwice(g: Lens, input: seq<byte>, a: Acc, p: Progress, a1: Acc, p1: Progress, a2: Acc,
                                       p2: Progress)
    requires Onward(g, input, a, p, a1, p1) && Onward(g, input, a1, p1, a2, p2)
    ensures Onward(g, input, a, p, a2, p2)
  {
  }

  /** One iteration of inflate_fast. */
  method FastStep(k: Codes, ghost g: Lens, win: SlidingWindow, input: seq<byte>, a: Acc, put: array<byte>, pos: nat,
                  ghost start: seq<byte>, ghost prior: seq<byte>, ghost p: Progress)
    returns (a': Acc, mode: Mode, pos': nat, ghost p': Progress)
    requires Ready(k, g) && Good(input, a) && a.next + MAX_INPUT <= |input| && a.bits <= MAX_HELD
    requires win.Tracks(prior) && put != win.window && pos + MAX_MATCH <= put.Length
    requires Sane(g, p) && p.cur == AtLen && p.part == 0 && Wrote(start, p, prior + put[..pos])
    modifies put
    ensures Onward(g, input, a, p, a', p') && a'.next <= a.next + MAX_INPUT && a'.bits <= MAX_HELD
    ensures pos <= pos' <= pos + MAX_MATCH && Grown(old(put[..]), put[..], pos, pos' - pos)
    ensures p'.part == 0 && Wrote(start, p', prior + put[..pos'])
    ensures FastStop(mode, p'.cur, pos' + win.whave)
    ensures Tight(g, a, AtLen) ==> |Unread(input, a')| < 8 * (|input| - a.next) + 8
  {
    var r;
    ghost var cur;
    a', r, cur := Fetch(k, g, input, a);
    PartNonempty(g, cur);
    if Tight(g, a, AtLen) && a.bits >= 8 { TakesAllHeld(g, input, a, a', cur); }
    ghost var q := p.(cur := cur);
    if cur.AtItem? { FinishBits(g, q, input, a'); }
    mode, pos', p' := PutFetched(put, pos, win, g, start, prior, q, r);
  }

  lemma {:induction false} StreamTail(input: seq<byte>, k: nat, m: nat)
    requires k <= m <= |input|
    ensures Stream(input[k..]) == Stream(input[k..m]) + Stream(input[m..])
  {
    assert input[k..] == input[k..m] + input[m..];
    StreamConcat(input[k..m], input[m..]);
  }

  /** Whole bytes held are the last ones pulled. */
  lemma {:induction false} HeldBytes(input: seq<byte>, a0: Acc, a: Acc, w: seq<bool>, len: nat)
    requires a0.next + len <= a.next <= |input| && 8 * len <= a.bits && Unread(input, a0) == w + Unread(input, a)
    ensures Unread(input, a) == Held(a)[..a.bits - 8 * len] + Stream(input[a.next - len..])
  {
    var k := a.next - len;
    StreamTail(input, a0.next, k);
    StreamTail(input, k, a.next);
    HeldEnd(Held(a0), Stream(input[a0.next..k]), Stream(input[k..a.next]), Stream(input[a.next..]), w, Held(a));
  }

  lemma {:induction false} HeldEnd(h0: seq<bool>, s: seq<bool>, x: seq<bool>, y: seq<bool>, w: seq<bool>, h: seq<bool>)
    requires h0 + (s + (x + y)) == w + (h + y) && |x| <= |h|
    ensures h + y == h[..|h| - |x|] + (x + y)
  {
    var l, r := h0 + (s + (x + y)), w + (h + y);
    var n := |h0| + |s|;
    assert l[n..n + |x|] == x;
    assert r[n..n + |x|] == h[|h| - |x|..];
    assert h == h[..|h| - |x|] + x;
  }

  /** Returns whole unused bytes: the input never moves before where inflate_fast began. */
  method GiveBack(input: seq<byte>, a: Acc, ghost a0: Acc, ghost w: seq<bool>) returns (a': Acc)
    requires Good(input, a0) && Good(input, a) && |Unread(input, a)| < 8 * (|input| - a0.next) + 8
    requires Unread(input, a0) == w + Unread(input, a)
    ensures Good(input, a') && Unread(input, a') == Unread(input, a)
    ensures a'.bits < 8 && a0.next <= a'.next <= a.next
  {
    var len := a.bits / 8;
    HeldBytes(input, a0, a, w, len);
    var bits := a.bits - 8 * len;
    UnpackLow(a.hold, bits);
    UnpackSplit(a.hold, bits, 8 * len);
    a' := Acc(Low(a.hold, bits), bits, a.next - len);
  }

  /** inflate_fast */
  method Fast(k: Codes, ghost g: Lens, win: SlidingWindow, input: seq<byte>, a: Acc, put: array<byte>, pos: nat,
              ghost start: seq<byte>, ghost prior: seq<byte>, ghost p: Progress)
    returns (a': Acc, mode: Mode, pos': nat, ghost p': Progress)
    requires Ready(k, g) && Good(input, a) && a.next + MAX_INPUT <= |input| && Tight(g, a, AtLen) && a.bits <= MAX_HELD
    requires win.Tracks(prior) && put != win.window && pos + MAX_MATCH <= put.Length
    requires Sane(g, p) && p.cur == AtLen && p.part == 0 && Wrote(start, p, prior + put[..pos])
    modifies put
    ensures Onward(g, input, a, p, a', p') && a'.bits < 8
    ensures pos <= pos' <= put.Length && Grown(old(put[..]), put[..], pos, pos' - pos)
    ensures p'.part == 0 && Wrote(start, p', prior + put[..pos'])
    ensures FastStop(mode, p'.cur, pos' + win.whave)
  {
    ghost var before := put[..];
    a', mode, pos', p' := FastStep(k, g, win, input, a, put, pos, start, prior, p);
    while mode == LEN && a'.next + 5 < |input| && pos' + 257 < put.Length
      invariant pos <= pos' <= put.Length && Grown(before, put[..], pos, pos' - pos)
      invariant FastAt(g, input, a, p, a', p', start, prior + put[..pos'], mode, pos' + win.whave)
      invariant |Unread(input, a')| < 8 * (|input| - a.next) + 8
      decreases |Unread(input, a')|
    {
      a', mode, pos', p' := FastMore(k, g, win, input, a', put, pos, pos', start, prior, p', a, p, before);
    }
    a' := LeaveFast(g, input, a', a, p, p');
  }

  ghost predicate FastAt(g: Lens, input: seq<byte>, a: Acc, p: Progress, a': Acc, p': Progress, start: seq<byte>,
                         total: seq<byte>, mode: Mode, reach: nat) {
    && Onward(g, input, a, p, a', p') && a'.bits <= MAX_HELD && p'.part == 0 && Wrote(start, p', total)
    && FastStop(mode, p'.cur, reach)
  }

  /** A further iteration of inflate_fast. */
  method FastMore(k: Codes, ghost g: Lens, win: SlidingWindow, input: seq<byte>, a: Acc, put: array<byte>,
                  ghost pos0: nat, pos: nat,
                  ghost start: seq<byte>, ghost prior: seq<byte>, ghost p: Progress, ghost a0: Acc, ghost p0: Progress,
                      ghost before: seq<byte>)
    returns (a': Acc, mode: Mode, pos': nat, ghost p': Progress)
    requires Ready(k, g) && a.next + MAX_INPUT <= |input|
    requires win.Tracks(prior) && put != win.window && pos + MAX_MATCH <= put.Length
    requires pos0 <= pos && Grown(before, put[..], pos0, pos - pos0)
    requires FastAt(g, input, a0, p0, a, p, start, prior + put[..pos], LEN, pos + win.whave)
    modifies put
    ensures pos <= pos' <= put.Length && Grown(before, put[..], pos0, pos' - pos0)
    ensures FastAt(g, input, a0, p0, a', p', start, prior + put[..pos'], mode, pos' + win.whave)
    ensures a'.next <= |input| && |Unread(input, a')| < |Unread(input, a)|
  {
    ghost var half := put[..];
    a', mode, pos', p' := FastStep(k, g, win, input, a, put, pos, start, prior, p);
    FastAgain(g, input, a0, p0, a, p, a', p', before, half, put[..], pos0, pos, pos');
  }

  lemma {:induction false} FastAgain(g: Lens, input: seq<byte>, a0: Acc, p0: Progress, a: Acc, p: Progress, a': Acc,
                                     p': Progress,
                                     before: seq<byte>, half: seq<byte>, after: seq<byte>, pos0: nat, pos: nat,
                                         pos': nat)
    requires Onward(g, input, a0, p0, a, p) && Onward(g, input, a, p, a', p')
    requires pos0 <= pos <= pos' && Grown(before, half, pos0, pos - pos0) && Grown(half, after, pos, pos' - pos)
    ensures Onward(g, input, a0, p0, a', p') && Grown(before, after, pos0, pos' - pos0)
  {
    GrownAgain(before, half, after, pos0, pos, pos');
    OnwardTwice(g, input, a0, p0, a, p, a', p');
  }

  method LeaveFast(ghost g: Lens, input: seq<byte>, a: Acc, ghost a0: Acc, ghost p0: Progress, ghost p: Progress)
    returns (a': Acc)
    requires Onward(g, input, a0, p0, a, p) && |Unread(input, a)| < 8 * (|input| - a0.next) + 8
    ensures Onward(g, input, a0, p0, a', p) && a'.bits < 8
  {
    ghost var w := TakenBetween(g, p0, p, input, a0, a);
    a' := GiveBack(input, a, a0, w);
  }

  /** The bits taken between two points of the decoding. */
  lemma {:induction false} TakenBetween(g: Lens, p: Progress, p': Progress, input: seq<byte>, a: Acc, a': Acc)
    returns (w: seq<bool>)
    requires Sane(g, p) && Sane(g, p') && Good(input, a) && Good(input, a')
    requires AllBits(g, p', input, a') == AllBits(g, p, input, a) && |Unread(input, a')| <= |Unread(input, a)|
    ensures Unread(input, a) == w + Unread(input, a')
  {
    var u, u' := Unread(input, a), Unread(input, a');
    w := u[..|u| - |u'|];
    EndsAlike(BitsOf(g.ll, g.dl, p.its), Part(g, p.cur), u, BitsOf(g.ll, g.dl, p'.its), Part(g, p'.cur), u');
  }

  lemma {:induction false} EndsAlike(a: seq<bool>, b: seq<bool>, u: seq<bool>, a': seq<bool>, b': seq<bool>,
                                     u': seq<bool>)
    requires a + (b + u) == a' + (b' + u') && |u'| <= |u|
    ensures u == u[..|u| - |u'|] + u'
  {
    var l, r := a + (b + u), a' + (b' + u');
    assert l[|l| - |u'|..] == u[|u| - |u'|..];
    assert r[|r| - |u'|..] == u';
  }

  // ----- the states, one at a time -----

  /** States LEN, LENEXT, DIST and DISTEXT. */
  method ReadState(k: Codes, ghost g: Lens, input: seq<byte>, a: Acc, st: State, ghost cur: Cur)
    returns (go: bool, a': Acc, st': State, ghost cur': Cur)
    requires Ready(k, g) && Good(input, a) && BlockStates.Holds(st, cur) && Sensible(g, cur) && Reading(st.mode)
    ensures Stepped(g, input, a, st, cur, go, a', st', cur')
  {
    match st.mode
    case LEN => go, a', st', cur' := LenState(k, g, input, a, st);
    case LENEXT => go, a', st', cur' := LenExtState(g, input, a, st, cur);
    case DIST => go, a', st', cur' := DistState(k, g, input, a, st, cur);
    case DISTEXT => go, a', st', cur' := DistExtState(g, input, a, st, cur);
  }

  /** State MATCH: as much of the match as one run of bytes and the space allow. */
  method MatchState(win: SlidingWindow, st: State, put: array<byte>, pos: nat, ghost g: Lens,
                    ghost start: seq<byte>, ghost prior: seq<byte>, ghost p: Progress)
    returns (st': State, pos': nat, ghost p': Progress)
    requires win.Tracks(prior) && put != win.window && pos < put.Length && st.mode == MATCH
    requires BlockStates.Holds(st, p.cur) && Sensible(g, p.cur)
    requires Wrote(start, p, prior + put[..pos]) && PartWritten(st, p)
    modifies put
    ensures pos <= pos' <= put.Length && Grown(old(put[..]), put[..], pos, pos' - pos)
    ensures Wrote(start, p', prior + put[..pos']) && PartWritten(st', p') && BlockStates.Holds(st', p'.cur)
    ensures (p'.its == p.its && p'.cur == p.cur) || p' == Finished(p)
    ensures if st.offset > pos + win.whave then st'.mode == BAD && pos' == pos
            else pos' > pos && st'.mode == if p'.cur.AtLen? then LEN else MATCH
  {
    ghost var total := prior + put[..pos];
    ghost var it := p.cur.it;
    ItemToken(it);
    var bad, n := win.CopyMatch(put, pos, put.Length - pos, st.offset, st.length, prior);
    pos', st', p' := pos + n, st.(length := st.length - n), p.(part := p.part + n);
    if bad {
      st' := st.(mode := BAD);
    } else {
      CopiedMatch(g, start, p, total, st, n);
      if st'.length == 0 {
        st' := st'.(mode := LEN);
        p' := Finished(p);
      }
    }
  }

  /** After n more bytes of a match. */
  lemma {:induction false} CopiedMatch(g: Lens, start: seq<byte>, p: Progress, total: seq<byte>, st: State, n: nat)
    requires st.mode == MATCH && BlockStates.Holds(st, p.cur) && Sensible(g, p.cur) && Wrote(start, p, total)
    requires PartWritten(st, p)
    requires n <= st.length && 1 <= st.offset <= |total|
    ensures Wrote(start, p.(part := p.part + n), Repeat(total, st.offset, n))
    ensures n == st.length ==> Wrote(start, Finished(p), Repeat(total, st.offset, n))
  {
    ItemToken(p.cur.it);
    WroteMore(start, p, total, st.offset, n);
    if n == st.length {
      FinishMatch(start, p.(part := p.part + n), Repeat(total, st.offset, n));
    }
  }

  /** State LIT */
  method LitState(st: State, put: array<byte>, pos: nat, ghost start: seq<byte>, ghost prior: seq<byte>,
                  ghost p: Progress)
    returns (st': State)
    requires pos < put.Length && st.mode == LIT && BlockStates.Holds(st, p.cur)
    requires Wrote(start, p, prior + put[..pos]) && PartWritten(st, p)
    modifies put
    ensures Grown(old(put[..]), put[..], pos, 1) && st' == st.(mode := LEN)
    ensures Wrote(start, Finished(p), prior + put[..pos + 1])
  {
    PutLiteral(put, pos, start, prior, p, st.length);
    st' := st.(mode := LEN);
  }

  // ----- a whole call -----

  /** From one point of a call to a later one. */
  ghost predicate Later(k: Codes, g: Lens, start: seq<byte>, input: seq<byte>, a: Acc, p: Progress, a': Acc, st': State,
                        p': Progress, total': seq<byte>) {
    && Good(input, a) && Sane(g, p) && a.next <= a'.next
    && Point(k, g, start, input, a', st', p', total') && Tight(g, a', p'.cur)
    && AllBits(g, p', input, a') == AllBits(g, p, input, a)
  }

  /** Fewer bits to read, or less space to fill, or nearer to the next of these. */
  ghost predicate LessToDo(input: seq<byte>, a: Acc, pos: nat, mode: Mode, a': Acc, pos': nat, mode': Mode) {
    && a.next <= |input| && a'.next <= |input| && |Unread(input, a')| <= |Unread(input, a)|
    && (|Unread(input, a')| == |Unread(input, a)| ==> pos' > pos || (pos' == pos && Rank(mode') < Rank(mode)))
  }

  method ReadOn(k: Codes, ghost g: Lens, input: seq<byte>, a: Acc, st: State, ghost start: seq<byte>,
                ghost total: seq<byte>, ghost p: Progress, ghost pos: nat)
    returns (go: bool, a': Acc, st': State, ghost p': Progress)
    requires Point(k, g, start, input, a, st, p, total) && Tight(g, a, p.cur) && Reading(st.mode)
    ensures Later(k, g, start, input, a, p, a', st', p', total) && (st'.mode == BAD ==> !p'.cur.AtItem?)
    ensures if go then LessToDo(input, a, pos, st.mode, a', pos, st'.mode) else Starved(g, input, a', p'.cur)
    ensures |Unread(input, a')| <= |Unread(input, a)|
  {
    ghost var cur;
    go, a', st', cur := ReadState(k, g, input, a, st, p.cur);
    p' := p.(cur := cur);
  }

  method FastOn(k: Codes, ghost g: Lens, win: SlidingWindow, input: seq<byte>, a: Acc, st: State, put: array<byte>,
                pos: nat,
                ghost start: seq<byte>, ghost prior: seq<byte>, ghost p: Progress)
    returns (a': Acc, st': State, pos': nat, ghost p': Progress)
    requires win.Tracks(prior) && put != win.window && pos + MAX_MATCH <= put.Length && a.next + MAX_INPUT <= |input|
    requires Point(k, g, start, input, a, st, p, prior + put[..pos]) && Tight(g, a, p.cur) && st.mode == LEN
    modifies put
    ensures pos <= pos' <= put.Length && Grown(old(put[..]), put[..], pos, pos' - pos)
    ensures Later(k, g, start, input, a, p, a', st', p', prior + put[..pos']) && TooFar(st', p', pos' + win.whave)
    ensures LessToDo(input, a, pos, st.mode, a', pos', st'.mode)
  {
    TightIsShort(k, g, a);
    var mode;
    a', mode, pos', p' := Fast(k, g, win, input, a, put, pos, start, prior, p);
    st' := st.(mode := mode);
  }

  /** No whole code is held: fewer than 15 bits are. */
  lemma {:induction false} TightIsShort(k: Codes, g: Lens, a: Acc)
    requires Ready(k, g) && Tight(g, a, AtLen)
    ensures a.bits < MAX_BITS
  {
    if a.bits >= MAX_BITS {
      var w, leaf := Starts(k.lencode, LENS, g.ll, k.lenbits, Held(a));
      assert false;
    }
  }

  method WriteOn(k: Codes, ghost g: Lens, win: SlidingWindow, ghost input: seq<byte>, ghost a: Acc, st: State,
                 put: array<byte>, pos: nat,
                 ghost start: seq<byte>, ghost prior: seq<byte>, ghost p: Progress)
    returns (st': State, pos': nat, ghost p': Progress)
    requires win.Tracks(prior) && put != win.window && pos < put.Length
    requires Point(k, g, start, input, a, st, p, prior + put[..pos]) && Tight(g, a, p.cur)
    requires (st.mode == MATCH || st.mode == LIT)
    modifies put
    ensures pos <= pos' <= put.Length && Grown(old(put[..]), put[..], pos, pos' - pos)
    ensures Later(k, g, start, input, a, p, a, st', p', prior + put[..pos']) && TooFar(st', p', pos' + win.whave)
    ensures LessToDo(input, a, pos, st.mode, a, pos', st'.mode)
  {
    FinishBits(g, p, input, a);
    if st.mode == LIT {
      st' := LitState(st, put, pos, start, prior, p);
      pos', p' := pos + 1, Finished(p);
    } else {
      ItemToken(p.cur.it);
      st', pos', p' := MatchState(win, st, put, pos, g, start, prior, p);
    }
  }

  /** Why a call returns before the end of the block. */
  ghost predicate Blocked(g: Lens, input: seq<byte>, a: Acc, st: State, p: Progress, left: nat) {
    (left == 0 && (st.mode == MATCH || st.mode == LIT)) || Starved(g, input, a, p.cur)
  }

  /** When state LEN hands over to inflate_fast: have bytes of input and left bytes of space are enough. */
  predicate FastGuard(mode: Mode, have: nat, left: nat) {
    mode == LEN && have >= 6 && left >= 258
  }

  /** One turn of inflate's loop. */
  method Step(k: Codes, ghost g: Lens, win: SlidingWindow, input: seq<byte>, a: Acc, st: State, put: array<byte>,
              pos: nat,
              ghost start: seq<byte>, ghost prior: seq<byte>, ghost p: Progress)
    returns (go: bool, a': Acc, st': State, pos': nat, ghost p': Progress)
    requires win.Tracks(prior) && put != win.window && pos <= put.Length && st.mode != TYPE && st.mode != BAD
    requires Point(k, g, start, input, a, st, p, prior + put[..pos]) && Tight(g, a, p.cur)
    modifies put
    ensures pos <= pos' <= put.Length && Grown(old(put[..]), put[..], pos, pos' - pos)
    ensures Later(k, g, start, input, a, p, a', st', p', prior + put[..pos']) && TooFar(st', p', pos' + win.whave)
    ensures |Unread(input, a')| <= |Unread(input, a)|
    ensures if go then
              LessToDo(input, a, pos, st.mode, a', pos', st'.mode)
                  else Blocked(g, input, a', st', p', put.Length - pos')
  {
    go, a', st', pos', p' := true, a, st, pos, p;
    if FastGuard(st.mode, |input| - a.next, put.Length - pos) {
      a', st', pos', p' := FastOn(k, g, win, input, a, st, put, pos, start, prior, p);
    } else if Reading(st.mode) {
      go, a', st', p' := ReadOn(k, g, input, a, st, start, prior + put[..pos], p, pos);
    } else if pos == put.Length {
      go := false;
    } else {
      st', pos', p' := WriteOn(k, g, win, input, a, st, put, pos, start, prior, p);
    }
  }

  lemma {:induction false} LaterTwice(k: Codes, g: Lens, start: seq<byte>, input: seq<byte>, a: Acc, p: Progress,
                   a1: Acc, st1: State, p1: Progress, t1: seq<byte>, a2: Acc, st2: State, p2: Progress, t2: seq<byte>)
    requires Later(k, g, start, input, a, p, a1, st1, p1, t1) && Later(k, g, start, input, a1, p1, a2, st2, p2, t2)
    ensures Later(k, g, start, input, a, p, a2, st2, p2, t2)
  {
  }

  /** inflate's loop, within a block body. */
  method Run(k: Codes, ghost g: Lens, win: SlidingWindow, input: seq<byte>, a: Acc, st: State, put: array<byte>,
             pos0: nat,
             ghost start: seq<byte>, ghost prior: seq<byte>, ghost p: Progress)
    returns (a': Acc, st': State, pos: nat, ghost p': Progress)
    requires win.Tracks(prior) && put != win.window && pos0 <= put.Length && st.mode != TYPE && st.mode != BAD
    requires Point(k, g, start, input, a, st, p, prior + put[..pos0]) && Tight(g, a, p.cur)
    modifies put
    ensures pos0 <= pos <= put.Length && Grown(old(put[..]), put[..], pos0, pos - pos0)
    ensures Later(k, g, start, input, a, p, a', st', p', prior + put[..pos]) && TooFar(st', p', pos + win.whave)
    ensures st'.mode == TYPE || st'.mode == BAD || Blocked(g, input, a', st', p', put.Length - pos)
    ensures |Unread(input, a')| <= |Unread(input, a)|
  {
    ghost var before := put[..];
    var go := true;
    a', st', pos, p' := a, st, pos0, p;
    while go && st'.mode != TYPE && st'.mode != BAD
      invariant pos0 <= pos <= put.Length && Grown(before, put[..], pos0, pos - pos0)
      invariant Later(k, g, start, input, a, p, a', st', p', prior + put[..pos]) && TooFar(st', p', pos + win.whave)
      invariant |Unread(input, a')| <= |Unread(input, a)|
      invariant !go ==> Blocked(g, input, a', st', p', put.Length - pos)
      decreases go, |Unread(input, a')|, put.Length - pos, Rank(st'.mode)
    {
      go, a', st', pos, p' := RunStep(k, g, win, input, a', st', put, pos0, pos, start, prior, p', a, p, before);
    }
  }

  method RunStep(k: Codes, ghost g: Lens, win: SlidingWindow, input: seq<byte>, a: Acc, st: State, put: array<byte>,
                 ghost pos0: nat, pos: nat,
                 ghost start: seq<byte>, ghost prior: seq<byte>, ghost p: Progress, ghost a0: Acc, ghost p0: Progress,
                     ghost before: seq<byte>)
    returns (go: bool, a': Acc, st': State, pos': nat, ghost p': Progress)
    requires win.Tracks(prior) && put != win.window && pos0 <= pos <= put.Length && st.mode != TYPE && st.mode != BAD
    requires Later(k, g, start, input, a0, p0, a, st, p, prior + put[..pos]) && Grown(before, put[..], pos0, pos - pos0)
    modifies put
    ensures pos <= pos' <= put.Length && Grown(before, put[..], pos0, pos' - pos0)
    ensures Later(k, g, start, input, a0, p0, a', st', p', prior + put[..pos']) && TooFar(st', p', pos' + win.whave)
    ensures |Unread(input, a')| <= |Unread(input, a)|
    ensures if go then
              LessToDo(input, a, pos, st.mode, a', pos', st'.mode)
                  else Blocked(g, input, a', st', p', put.Length - pos')
  {
    ghost var half, total := put[..], prior + put[..pos];
    go, a', st', pos', p' := Step(k, g, win, input, a, st, put, pos, start, prior, p);
    LaterTwice(k, g, start, input, a0, p0, a, st, p, total, a', st', p', prior + put[..pos']);
    GrownAgain(before, half, put[..], pos0, pos, pos');
  }

  lemma {:induction false} GrownAgain(before: seq<byte>, half: seq<byte>, after: seq<byte>, pos0: nat, pos: nat,
                                      pos': nat)
    requires pos0 <= pos <= pos' && Grown(before, half, pos0, pos - pos0) && Grown(half, after, pos, pos' - pos)
    ensures Grown(before, after, pos0, pos' - pos0)
  {
    GrownTwice(before, half, after, pos0, pos - pos0, pos' - pos0);
  }

  // ----- the state between calls -----

  /** One inflate stream, inside a block. */
  class Inflater {
    const win: SlidingWindow
    var codes: Codes
    var st: State
    var hold: nat
    var bits: nat
    ghost var lens: Lens
    ghost var start: seq<byte>      // output before the block
    ghost var p: Progress
    ghost var out: seq<byte>        // all output so far

    ghost function Saved(): Acc
      reads this
    {
      Acc(hold, bits, 0)
    }

    ghost predicate Valid()
      reads this, win, win.window
    {
      && Point(codes, lens, start, [], Saved(), st, p, out) && Tight(lens, Saved(), p.cur)
      && win.Tracks(out) && (st.mode == BAD || (win.wsize == 0 ==> out == []))
    }

    /** All bits given so far, whether taken or still held. */
    ghost function Fed(): seq<bool>
      requires Sane(lens, p)
      reads this
    {
      Taken(lens, p) + Held(Saved())
    }

    /** Begins the first block body of a stream. */
    constructor (wbits: nat, codes: Codes, hold: nat, bits: nat, ghost lens: Lens)
      requires 8 <= wbits <= 15 && Ready(codes, lens) && bits < 8 && hold < Pow2(bits)
      ensures Valid() && fresh(win) && fresh(win.window) && win.window.Length == Pow2(wbits)
      ensures this.codes == codes && this.lens == lens && start == [] && out == [] && p == Progress([], AtLen, 0)
      ensures Fed() == Unpack(hold, bits)
    {
      this.codes, this.hold, this.bits, this.lens := codes, hold, bits, lens;
      st, p, start, out := State(LEN, 0, 0, 0, 0), Progress([], AtLen, 0), [], [];
      win := new SlidingWindow(wbits);
      new;
      BlockBegins(lens, [], Saved());
    }

    /** Begins a further block body. */
    method NextBlock(codes: Codes, hold: nat, bits: nat, ghost lens: Lens)
      requires Valid() && st.mode == TYPE && Ready(codes, lens) && bits < 8 && hold < Pow2(bits)
      modifies this
      ensures Valid() && out == old(out)
      ensures this.codes == codes && this.lens == lens && start == out && p == Progress([], AtLen, 0)
      ensures Fed() == Unpack(hold, bits)
    {
      this.codes, this.hold, this.bits, this.lens := codes, hold, bits, lens;
      st, p, start := st.(mode := LEN), Progress([], AtLen, 0), out;
      BlockBegins(lens, out, Saved());
    }

    /** One call of inflate: reads from input, writes to put and returns how much of both. */
    method Inflate(input: seq<byte>, put: array<byte>) returns (next: nat, pos: nat)
      requires Valid() && st.mode != TYPE && put != win.window
      modifies this, win, win.window, put
      ensures Valid() && codes == old(codes) && lens == old(lens) && start == old(start)
      ensures next <= |input| && pos <= put.Length && Grown(old(put[..]), put[..], 0, pos)
      ensures out == old(out) + put[..pos] && Fed() == old(Fed()) + Stream(input[..next])
      ensures st.mode == TYPE || st.mode == BAD || (pos == put.Length && (st.mode == MATCH || st.mode == LIT))
              || (next == |input| && Lacking(lens, Saved(), p.cur))
      ensures st.mode == BAD && old(st.mode) != BAD && p.cur.AtItem? ==>
                p.cur.it.Pair? && TokenOf(p.cur.it).dist > pos + Min(|old(out)|, old(win.wsize))
    {
      next, pos := 0, 0;
      if st.mode == BAD {
        ghost var none := Stream(input[..0]);
        assert Fed() + none == Fed();
        assert out == out + put[..0];
        win.UpdateNothing(put, out);
        return;
      }
      var a, st';
      ghost var a0, p' := Saved(), p;
      assert out + put[..0] == out;
      a, st', pos, p' := Run(codes, lens, win, input, Acc(hold, bits, 0), st, put, 0, start, out, p);
      next := a.next;
      Leave(input, put, pos, a, st', p', a0);
    }

    /** inf_leave: saves the registers and updates the window. */
    method Leave(input: seq<byte>, put: array<byte>, pos: nat, a: Acc, st': State, ghost p': Progress, ghost a0: Acc)
      requires win.Tracks(out) && (win.wsize == 0 ==> out == []) && put != win.window && pos <= put.Length
      requires a0 == Saved() && Later(codes, lens, start, input, a0, p, a, st', p', out + put[..pos])
      modifies this, win, win.window
      ensures Valid() && codes == old(codes) && lens == old(lens) && start == old(start) && st == st' && p == p'
      ensures Saved() == a.(next := 0)
      ensures out == old(out) + put[..pos] && Fed() == old(Fed()) + Stream(input[..a.next])
    {
      FedGrows(lens, p, p', input, a0, a);
      PointSaved(codes, lens, start, input, a, st', p', out + put[..pos]);
      st, hold, bits, p := st', a.hold, a.bits, p';
      if win.wsize != 0 || (pos != 0 && st.mode != BAD) {
        win.Update(put, pos, pos, out);
        assert put[pos - pos..pos] == put[..pos];
      } else if pos == 0 {
        assert out + put[..pos] == out;
      }
      out := out + put[..pos];
    }
  }

  lemma {:induction false} PointSaved(k: Codes, g: Lens, start: seq<byte>, input: seq<byte>, a: Acc, st: State,
                                      p: Progress, total: seq<byte>)
    requires Point(k, g, start, input, a, st, p, total) && Tight(g, a, p.cur)
    ensures Point(k, g, start, [], a.(next := 0), st, p, total) && Tight(g, a.(next := 0), p.cur)
  {
    assert Held(a.(next := 0)) == Held(a);
  }

  /** The bits taken and held grow by those of the bytes pulled. */
  lemma {:induction false} FedGrows(g: Lens, p: Progress, p': Progress, input: seq<byte>, a: Acc, a': Acc)
    requires Sane(g, p) && Sane(g, p') && a.next == 0 && a'.next <= |input|
    requires AllBits(g, p', input, a') == AllBits(g, p, input, a)
    ensures Taken(g, p') + Held(a') == Taken(g, p) + Held(a) + Stream(input[..a'.next])
  {
    var n := a'.next;
    StreamTail(input, 0, n);
    assert input[0..] == input && input[0..n] == input[..n];
    DropEnd(BitsOf(g.ll, g.dl, p.its), Part(g, p.cur), Held(a), Stream(input[..n]), Stream(input[n..]),
            BitsOf(g.ll, g.dl, p'.its), Part(g, p'.cur), Held(a'));
  }

  lemma {:induction false} DropEnd(b: seq<bool>, c: seq<bool>, h: seq<bool>, x: seq<bool>, y: seq<bool>, b': seq<bool>,
                                   c': seq<bool>, h': seq<bool>)
    requires b' + (c' + (h' + y)) == b + (c + (h + (x + y)))
    ensures (b' + c') + h' == ((b + c) + h) + x
  {
    var l, r := (b' + c') + h', ((b + c) + h) + x;
    assert b' + (c' + (h' + y)) == l + y;
    assert b + (c + (h + (x + y))) == r + y;
    assert l == (l + y)[..|l|] && r == (r + y)[..|r|];
  }

  lemma {:induction false} BlockBegins(g: Lens, out: seq<byte>, a: Acc)
    ensures Sane(g, Progress([], AtLen, 0)) && Wrote(out, Progress([], AtLen, 0), out)
    ensures Taken(g, Progress([], AtLen, 0)) + Held(a) == Held(a)
  {
    assert TokensOf([]) == [];
  }
}
