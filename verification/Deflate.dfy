/** deflate_fast and deflate_slow: the tokens tallied stand for exactly the input consumed. */
module Deflate {
  import opened Bits
  import opened Options
  import opened Lz77
  import opened Hashing
  import opened HashChains
  import opened DeflateWindow

  const TOO_FAR := 4096

  datatype Flush = NoFlush | SyncFlush | Finish

  datatype BlockState = NeedMore | BlockDone | FinishStarted | FinishDone

  /** How a turn of the main loop ended: a step, a step after which the output space is looked at, no lookahead left, or
      more input needed. */
  datatype Turn = Stepped | Look | AtEnd | Waiting

  /** A block handed to _tr_flush_block: its tokens, its bytes if they are still in the window, and their number. */
  datatype Flushed = Flushed(tokens: seq<Token>, buf: Option<seq<byte>>, storedLen: nat)

  /** The number of bytes in all blocks. */
  function LenSum(bs: seq<Flushed>): nat {
    if bs == [] then 0 else LenSum(bs[..|bs| - 1]) + bs[|bs| - 1].storedLen
  }

  /** The tokens of the blocks stand for the data up to the end of each block, and the bytes of a block are these. */
  ghost predicate BlocksOk(bs: seq<Flushed>, data: seq<byte>) {
    bs == [] || (BlocksOk(bs[..|bs| - 1], data) && LastOk(bs, data))
  }

  ghost predicate LastOk(bs: seq<Flushed>, data: seq<byte>)
    requires bs != []
  {
    var b, m, n := bs[|bs| - 1], LenSum(bs[..|bs| - 1]), LenSum(bs);
    Codes(Flatten(bs), data, n) && m <= n <= |data|
    && (b.buf.Some? ==> b.buf.value == data[m..n] && n - m <= MAX_STORED)
  }

  lemma {:induction false} BlocksMore(bs: seq<Flushed>, data: seq<byte>, data': seq<byte>)
    requires BlocksOk(bs, data) && data <= data'
    ensures BlocksOk(bs, data')
  {
    if bs != [] {
      BlocksMore(bs[..|bs| - 1], data, data');
      CodesMore(Flatten(bs), data, data', LenSum(bs));
      var m, n := LenSum(bs[..|bs| - 1]), LenSum(bs);
      assert data'[m..n] == data[m..n];
    }
  }

  lemma {:induction false} BlocksSnoc(bs: seq<Flushed>, b: Flushed, data: seq<byte>)
    requires BlocksOk(bs, data) && Codes(Flatten(bs) + b.tokens, data, LenSum(bs) + b.storedLen)
    requires LenSum(bs) + b.storedLen <= |data|
    requires b.buf.Some? ==> b.buf.value == data[LenSum(bs)..LenSum(bs) + b.storedLen] && b.storedLen <= MAX_STORED
    ensures BlocksOk(bs + [b], data) && LenSum(bs + [b]) == LenSum(bs) + b.storedLen
  {
    var all := bs + [b];
    assert all[..|all| - 1] == bs;
    FlattenSnoc(bs, b);
  }

  /** The tokens of all blocks, in order. */
  function Flatten(bs: seq<Flushed>): seq<Token> {
    if bs == [] then [] else Flatten(bs[..|bs| - 1]) + bs[|bs| - 1].tokens
  }

  lemma {:induction false} FlattenSnoc(bs: seq<Flushed>, b: Flushed)
    ensures Flatten(bs + [b]) == Flatten(bs) + b.tokens
  {
    assert (bs + [b])[..|bs|] == bs;
  }

  /** The tokens stand for the first n bytes of the data. */
  ghost predicate Codes(all: seq<Token>, data: seq<byte>, n: nat) {
    forall ts {:trigger StandFor(ts, data, n)} :: ts == all ==> StandFor(ts, data, n)
  }

  ghost predicate StandFor(ts: seq<Token>, data: seq<byte>, n: nat) {
    n <= |data| && Expandable([], ts) && Expand([], ts) == data[..n]
  }

  lemma {:induction false} CodesLit(all: seq<Token>, data: seq<byte>, n: nat)
    requires Codes(all, data, n) && n < |data|
    ensures Codes(all + [Token(0, data[n])], data, n + 1)
  {
    assert StandFor(all, data, n);
    ExpandSnoc([], all, Token(0, data[n]));
    assert data[..n + 1] == data[..n] + [data[n]];
  }

  lemma {:induction false} CodesMatch(all: seq<Token>, data: seq<byte>, n: nat, dist: nat, len: nat)
    requires Codes(all, data, n) && Repeats(data, n, dist, len) && MIN_MATCH <= len <= MAX_MATCH
    ensures Codes(all + [Token(dist, len - MIN_MATCH)], data, n + len)
  {
    assert StandFor(all, data, n);
    var g := data[..n + len];
    forall i | n <= i < |g| ensures g[i] == g[i - dist] { assert SameAsBefore(data, i, dist); }
    assert g[..n] == data[..n];
    RepeatUnique(data[..n], dist, len, g);
    ExpandSnoc([], all, Token(dist, len - MIN_MATCH));
  }

  lemma {:induction false} CodesMore(all: seq<Token>, data: seq<byte>, data': seq<byte>, n: nat)
    requires Codes(all, data, n) && data <= data'
    ensures Codes(all, data', n)
  {
    assert StandFor(all, data, n);
    assert data'[..n] == data[..n];
  }

  lemma {:induction false} BalancedMore(blocks: seq<Flushed>, tokens: seq<Token>, data: seq<byte>, data': seq<byte>,
                                        n: int, bufsize: nat, most: int)
    requires Balanced(blocks, tokens, data, n, bufsize, most) && data <= data'
    ensures Balanced(blocks, tokens, data', n, bufsize, most)
  {
    CodesMore(Flatten(blocks) + tokens, data, data', n);
    BlocksMore(blocks, data, data');
  }

  lemma {:induction false} RepeatsMore(data: seq<byte>, data': seq<byte>, p: nat, dist: int, len: nat)
    requires Repeats(data, p, dist, len) && data <= data'
    ensures Repeats(data', p, dist, len)
  {
    forall i | p <= i < p + len ensures SameAsBefore(data', i, dist) { assert SameAsBefore(data, i, dist); }
  }

  /** All distances are at most `most`. */
  ghost predicate Near(ts: seq<Token>, most: int) {
    forall i :: 0 <= i < |ts| ==> ts[i].dist <= most
  }

  /** Blocks of the size of the symbol buffer, with distances inside the window. */
  ghost predicate GoodBlocks(bs: seq<Flushed>, bufsize: nat, most: int) {
    forall i :: 0 <= i < |bs| ==> |bs[i].tokens| < bufsize && Near(bs[i].tokens, most)
  }

  /** The tokens of the blocks and of the buffer stand for the first n bytes of the data. */
  ghost predicate Balanced(blocks: seq<Flushed>, tokens: seq<Token>, data: seq<byte>, n: int, bufsize: nat, most: int) {
    && n >= 0 && Codes(Flatten(blocks) + tokens, data, n) && Near(tokens, most) && GoodBlocks(blocks, bufsize, most)
    && BlocksOk(blocks, data) && LenSum(blocks) <= n
  }

  // ----- what a step decides -----

  /** The configuration of a compression level. */
  datatype Level = Level(maxLazy: nat, goodMatch: nat, niceMatch: nat, maxChain: nat, filtered: bool)

  /** What is known at a position p of the data: the inserted positions and how far a match may reach. */
  datatype Place = Place(hc: Config, data: seq<byte>, ins: set<nat>, base: nat, p: nat, most: int, lookahead: nat)

  /** The head of the chain is the latest position inserted before p with the same hash, or base if there is none after
      window index 0. */
  ghost predicate IsHead(at: Place, head: nat) {
    forall h: nat {:trigger HeadIs(at, h)} :: h == head ==> HeadIs(at, h)
  }

  ghost predicate HeadIs(at: Place, head: nat) {
    && (head != at.base ==> at.lookahead >= MIN_MATCH && Earlier(at.hc, at.data, at.ins, head, at.p))
    && (at.lookahead >= MIN_MATCH ==> Latest(at.hc, at.data, at.ins - {at.p}, head, at.p))
    && (at.lookahead < MIN_MATCH ==> head == at.base)
  }

  /** longest_match is called when there is a head, near enough. */
  predicate HasHead(at: Place, head: nat) {
    head != at.base && at.p - head <= at.most
  }

  /** A search from that head. */
  ghost predicate Searches(at: Place, level: Level, prevLength: nat, head: nat, len: nat, start: int) {
    forall n: nat {:trigger SearchesFor(at, level, prevLength, head, n, start)} :: n == len ==>
      SearchesFor(at, level, prevLength, head, n, start)
  }

  ghost predicate SearchesFor(at: Place, level: Level, prevLength: nat, head: nat, len: nat, start: int) {
    Longest(at.data, at.p, Candidates(at.hc, at.data, at.ins, at.base, at.p, at.most, head),
            ChainLimit(prevLength, level.goodMatch, level.maxChain), prevLength, Min(level.niceMatch, at.lookahead),
            len, start)
  }

  /** What deflate_slow makes of the match found: short matches are dropped when filtering, and those of three bytes
      that
      are too far back. */
  function Worth(level: Level, len: nat, dist: int): nat {
    if len <= 5 && (level.filtered || (len == MIN_MATCH && dist > TOO_FAR)) then MIN_MATCH - 1 else len
  }

  /** The match length that deflate_slow finds at p, when prevLength bytes match at the position before. */
  ghost predicate SlowFinds(at: Place, level: Level, prevLength: nat, head: nat, len: nat, start: int, found: nat) {
    forall n: nat {:trigger SlowFindsOf(at, level, prevLength, head, len, start, n)} :: n == found ==>
      SlowFindsOf(at, level, prevLength, head, len, start, n)
  }

  ghost predicate SlowFindsOf(at: Place, level: Level, prevLength: nat, head: nat, len: nat, start: int, found: nat) {
    IsHead(at, head)
    && if HasHead(at, head) && prevLength < level.maxLazy
       then Searches(at, level, prevLength, head, len, start) && found == Worth(level, len, at.p - start)
       else found == MIN_MATCH - 1
  }

  /** The match length that deflate_fast finds at p. */
  ghost predicate FastFinds(at: Place, level: Level, head: nat, len: nat, start: int) {
    forall n: nat {:trigger FastFindsOf(at, level, head, n, start)} :: n == len ==>
      FastFindsOf(at, level, head, n, start)
  }

  ghost predicate FastFindsOf(at: Place, level: Level, head: nat, len: nat, start: int) {
    IsHead(at, head)
    && if HasHead(at, head) then Searches(at, level, MIN_MATCH - 1, head, len, start) else len < MIN_MATCH
  }

  /** deflate_fast takes the match found, or else the byte at p. */
  ghost predicate FastTakes(at: Place, most: nat, found: nat, start: int, all: seq<Token>, all': seq<Token>, p: int,
                            ins: set<nat>) {
    if found >= MIN_MATCH then
      all' == all + [MatchToken(at.p - start, found)] && p == at.p + found && PassAdds(at, most, found, ins)
    else
      at.p < |at.data| && all' == all + [Token(0, at.data[at.p])] && p == at.p + 1 && ins == at.ins
  }

  /** deflate_slow takes the match of prevLength bytes at p - 1 unless the one found at p is longer; else the byte
      before
      p, if there is one to be decided about, is a literal, and what is found waits. */
  ghost predicate SlowTakes(at: Place, prevLength: nat, prevStart: int, found: nat, waiting: bool, all: seq<Token>,
                            all': seq<Token>, p: int, ins: set<nat>) {
    && Adds(at.ins, ins, at.p + 1, p, |at.data|)
    && if TakesPrevious(prevLength, found) then
         all' == all + [MatchToken(at.p - 1 - prevStart, prevLength)] && p == at.p - 1 + prevLength
       else if waiting then
         1 <= at.p <= |at.data| && all' == all + [Token(0, at.data[at.p - 1])] && p == at.p + 1
       else
         all' == all && p == at.p + 1
  }

  predicate TakesPrevious(prevLength: nat, found: nat) {
    prevLength >= MIN_MATCH && found <= prevLength
  }

  /** What is inserted behind a match of n bytes: all of its strings, or none if it is long or ends the lookahead. */
  ghost predicate PassAdds(at: Place, most: nat, n: nat, ins: set<nat>) {
    if n <= most && at.lookahead - n >= MIN_MATCH then Adds(at.ins, ins, at.p + 1, at.p + n, |at.data|)
    else ins == at.ins
  }

  function MatchToken(dist: int, len: int): Token {
    if dist >= 0 && MIN_MATCH <= len <= MAX_MATCH then Token(dist, len - MIN_MATCH) else Token(0, 0)
  }

  class Deflater {
    const w: Window
    const litBufsize: nat
    const maxLazy: nat
    const goodMatch: nat
    const niceMatch: nat
    const maxChain: nat
    const filtered: bool
    var matchLength: nat
    var prevLength: nat
    var prevMatch: int
    var matchAvailable: bool
    var tokens: seq<Token>      // d_buf and l_buf
    var blocks: seq<Flushed>    // blocks flushed so far
    var closed: bool            // the last of them was flushed as the last block of the stream

    ghost function All(): seq<Token>
      reads this`blocks, this`tokens
    {
      Flatten(blocks) + tokens
    }

    ghost function Setting(): Level {
      Level(maxLazy, goodMatch, niceMatch, maxChain, filtered)
    }

    /** Where the window stands. */
    ghost function Here(): Place
      reads w`data, w`ins, w`base, w`strstart, w`lookahead
    {
      Place(w.hc, w.data, w.ins, w.base, w.Abs(), w.MaxDist(), w.lookahead)
    }

    /** How much of the data the tokens stand for. */
    ghost function Consumed(): int
      reads this`matchAvailable, w`base, w`strstart
    {
      w.Abs() - if matchAvailable then 1 else 0
    }

    /** Tokens, blocks and data agree up to n. */
    ghost predicate Tallied(n: int)
      reads this`blocks, this`tokens, w`data, w`base, w`blockStart
    {
      && w.Shaped() && litBufsize >= 2 && Balanced(blocks, tokens, w.data, n, litBufsize, w.MaxDist())
      && w.base + w.blockStart == LenSum(blocks)
    }

    /** A match found at the last position is one. */
    ghost predicate Pending()
      reads this`matchLength, this`matchAvailable, w`base, w`strstart, w`matchStart, w`data
    {
      && MIN_MATCH - 1 <= matchLength <= MAX_MATCH
      && (matchLength >= MIN_MATCH ==> matchAvailable && w.Abs() >= 1 && w.strstart - 1 - w.matchStart <= w.MaxDist()
                                       && Repeats(w.data, w.Abs() - 1, w.strstart - 1 - w.matchStart, matchLength))
    }

    /** deflate_slow between two steps. */
    ghost predicate SlowValid()
      reads this`matchLength, this`matchAvailable, this`blocks, this`tokens
      reads w`matchStart, w`blockStart, w`insH, w`strstart, w`lookahead, w`insert, w`base, w`data, w`ins
      reads w.window, w.prev, w.head
    {
      && w.Ready() && Pending() && Tallied(Consumed()) && |tokens| < litBufsize - 1
         && (matchAvailable ==> w.strstart >= 1)
      && w.strstart < w.window.Length
    }

    /** deflate_fast between two steps. */
    ghost predicate FastValid()
      reads this`matchLength, this`prevLength, this`matchAvailable, this`blocks, this`tokens
      reads w`matchStart, w`blockStart, w`insH, w`strstart, w`lookahead, w`insert, w`base, w`data, w`ins
      reads w.window, w.prev, w.head
    {
      && w.Ready() && matchLength < MIN_MATCH && prevLength == MIN_MATCH - 1 && !matchAvailable && Tallied(w.Abs())
      && |tokens| < litBufsize - 1 && w.strstart < w.window.Length
    }

    constructor (wbits: nat, hashBits: nat, litBufsize: nat, maxLazy: nat, goodMatch: nat, niceMatch: nat,
                 maxChain: nat, filtered: bool)
      requires 9 <= wbits <= 15 && 8 <= hashBits <= 16 && litBufsize >= 2
      ensures this.litBufsize == litBufsize && w.wsize == Pow2(wbits)
      ensures SlowValid() && FastValid() && !closed && w.data == [] && blocks == [] && tokens == [] && fresh(w)
      ensures fresh(w.window) && fresh(w.prev) && fresh(w.head)
    {
      w := new Window(wbits, hashBits);
      this.litBufsize, this.maxLazy, this.goodMatch, this.niceMatch, this.maxChain, this.filtered := litBufsize,
          maxLazy, goodMatch, niceMatch, maxChain, filtered;
      matchLength, prevLength, prevMatch, matchAvailable, tokens, blocks, closed := MIN_MATCH - 1, MIN_MATCH - 1, 0,
          false, [], [], false;
    }

    /** _tr_tally_lit */
    method TallyLit(c: byte, ghost n: nat) returns (flush: bool)
      requires Tallied(n) && n < |w.data| && c == w.data[n] && |tokens| < litBufsize - 1
      modifies this`tokens
      ensures Tallied(n + 1) && |tokens| < litBufsize && (flush <==> |tokens| == litBufsize - 1)
      ensures All() == old(All()) + [Token(0, c)]
    {
      CodesLit(All(), w.data, n);
      assert Flatten(blocks) + (tokens + [Token(0, c)]) == All() + [Token(0, c)];
      tokens := tokens + [Token(0, c)];
      flush := |tokens| == litBufsize - 1;
    }

    /** _tr_tally_dist */
    method TallyDist(dist: nat, len: nat, ghost n: nat) returns (flush: bool)
      requires Tallied(n) && MIN_MATCH <= len <= MAX_MATCH && dist <= w.MaxDist() && Repeats(w.data, n, dist, len)
      requires |tokens| < litBufsize - 1
      modifies this`tokens
      ensures Tallied(n + len) && |tokens| < litBufsize && (flush <==> |tokens| == litBufsize - 1)
      ensures All() == old(All()) + [MatchToken(dist, len)]
    {
      var t := Token(dist, len - MIN_MATCH);
      CodesMatch(All(), w.data, n, dist, len);
      assert Flatten(blocks) + (tokens + [t]) == All() + [t];
      tokens := tokens + [t];
      flush := |tokens| == litBufsize - 1;
    }

    /** FLUSH_BLOCK_ONLY: a block of fewer than 64K bytes, as far as they are still in the window. */
    method FlushBlock()
      requires w.Valid() && Tallied(w.Abs()) && |tokens| < litBufsize && w.strstart < w.window.Length && !closed
      modifies this`tokens, this`blocks, w`blockStart
      ensures Tallied(w.Abs()) && tokens == [] && |blocks| == |old(blocks)| + 1
      ensures blocks[..|old(blocks)|] == old(blocks)
      ensures blocks[|old(blocks)|].tokens == old(tokens) && All() == old(All())
    {
      var buf := None;
      if w.blockStart >= 0 {
        buf := Some(w.window[w.blockStart..w.strstart]);
        w.Contents(w.blockStart, w.strstart);
      }
      var b := Flushed(tokens, buf, w.strstart - w.blockStart);
      BlocksSnoc(blocks, b, w.data);
      FlattenSnoc(blocks, b);
      assert Flatten(blocks + [b]) + [] == Flatten(blocks) + tokens;
      blocks, tokens := blocks + [b], [];
      w.blockStart := w.strstart;
    }

    /** Inserts the string at strstart. */
    method Enter() returns (hashHead: nat)
      requires w.Ready()
      modifies w`insH, w`ins, w.prev, w.head
      ensures w.Inserted() && Adds(old(w.ins), w.ins, w.Abs(), w.Abs() + 1, |w.data|)
      ensures IsHead(Here(), w.base + hashHead)
    {
      hashHead := w.InsertHere();
      assert HeadIs(Here(), w.base + hashHead);
    }

    // ----- deflate_slow -----

    /** Looks for a match at strstart that is longer than the one at the position before. */
    method Search(hashHead: nat) returns (ghost len: nat)
      requires w.Inserted() && w.strstart + MAX_MATCH < w.window.Length && MIN_MATCH - 1 <= matchLength <= MAX_MATCH
      requires IsHead(Here(), w.base + hashHead)
      modifies this`matchLength, this`prevLength, this`prevMatch, w`matchStart
      ensures SlowFinds(Here(), Setting(), prevLength, w.base + hashHead, len, w.base + w.matchStart, matchLength)
      ensures prevLength == old(matchLength) && prevMatch == old(w.matchStart)
      ensures MIN_MATCH - 1 <= matchLength <= MAX_MATCH
      ensures matchLength > prevLength && matchLength >= MIN_MATCH ==> MatchHere(matchLength)
    {
      prevLength, prevMatch := matchLength, w.matchStart;
      matchLength, len := MIN_MATCH - 1, 0;
      if hashHead != NIL && prevLength < maxLazy && w.strstart - hashHead <= w.MaxDist() {
        matchLength := LookUp(hashHead, prevLength);
        len := matchLength;
        DropShort();
      }
    }

    /** Short matches that are not worth it. */
    method DropShort()
      modifies this`matchLength
      ensures matchLength == Worth(Setting(), old(matchLength), w.strstart - w.matchStart)
    {
      if matchLength <= 5 && (filtered || (matchLength == MIN_MATCH && w.strstart - w.matchStart > TOO_FAR)) {
        matchLength := MIN_MATCH - 1;
      }
    }

    /** The n bytes at strstart repeat those at matchStart. */
    ghost predicate MatchHere(n: nat)
      reads w`strstart, w`matchStart, w`base, w`data
    {
      w.strstart - w.matchStart <= w.MaxDist() && Repeats(w.data, w.Abs(), w.strstart - w.matchStart, n)
    }

    /** The call of longest_match. */
    method LookUp(hashHead: nat, prevLength: nat) returns (len: nat)
      requires w.Inserted() && w.strstart + MAX_MATCH < w.window.Length && MIN_MATCH - 1 <= prevLength <= MAX_MATCH
      requires IsHead(Here(), w.base + hashHead) && HasHead(Here(), w.base + hashHead)
      modifies w`matchStart
      ensures MIN_MATCH - 1 <= len <= MAX_MATCH && (len > prevLength ==> MatchHere(len))
      ensures Searches(Here(), Setting(), prevLength, w.base + hashHead, len, w.base + w.matchStart)
    {
      assert HeadIs(Here(), w.base + hashHead);
      len := w.LongestMatch(hashHead, prevLength, niceMatch, goodMatch, maxChain);
      assert SearchesFor(Here(), Setting(), prevLength, w.base + hashHead, len, w.base + w.matchStart);
    }

    /** Emits the match at strstart - 1 and inserts its strings. */
    method TakePrevious() returns (flush: bool)
      requires !closed && Found() && prevLength >= MIN_MATCH && w.strstart + MAX_MATCH < w.window.Length
      modifies this`tokens, this`blocks, this`matchAvailable, this`matchLength, this`prevLength
      modifies w`strstart, w`lookahead, w`blockStart, w`insH, w`ins, w.prev, w.head
      ensures SlowValid() && w.lookahead < old(w.lookahead) && w.strstart >= 1
      ensures All() == old(All()) + [MatchToken(old(w.strstart - 1 - prevMatch), old(prevLength))]
      ensures w.Abs() == old(w.Abs()) - 1 + old(prevLength) && !matchAvailable && matchLength == MIN_MATCH - 1
      ensures flush <==> |blocks| > |old(blocks)|
      ensures Adds(old(w.ins), w.ins, old(w.Abs()) + 1, w.Abs(), |w.data|)
    {
      flush := TallyDist(w.strstart - 1 - prevMatch, prevLength, w.Abs() - 1);
      PassPrevious();
      FlushFull(flush);
    }

    /** Moves past the match at strstart - 1. */
    method PassPrevious()
      requires w.Inserted() && MIN_MATCH <= prevLength <= MAX_MATCH && prevLength - 1 <= w.lookahead
      requires w.strstart + MAX_MATCH < w.window.Length
      requires Tallied(w.Abs() - 1 + prevLength) && |tokens| < litBufsize
      modifies this`matchAvailable, this`matchLength, this`prevLength, w`strstart, w`lookahead, w`insH, w`ins, w.prev,
          w.head
      ensures Passed() && w.lookahead == old(w.lookahead) - (old(prevLength) - 1) && w.strstart >= 2
      ensures w.strstart == old(w.strstart) + old(prevLength) - 1
      ensures Adds(old(w.ins), w.ins, old(w.Abs()) + 1, w.Abs(), |w.data|)
    {
      w.AdvanceInserting(prevLength - 1);
      prevLength := 0;
      matchAvailable, matchLength := false, MIN_MATCH - 1;
    }

    /** deflate_slow after a match, before the flush of a full block. */
    ghost predicate Passed()
      reads this`matchLength, this`matchAvailable, this`blocks, this`tokens
      reads w`matchStart, w`blockStart, w`insH, w`strstart, w`lookahead, w`insert, w`base, w`data, w`ins
      reads w.window, w.prev, w.head
    {
      && w.Ready() && matchLength == MIN_MATCH - 1 && !matchAvailable && Tallied(w.Abs()) && |tokens| < litBufsize
      && w.strstart < w.window.Length
    }

    method FlushFull(flush: bool)
      requires !closed && Passed() && (flush <==> |tokens| == litBufsize - 1)
      modifies this`tokens, this`blocks, w`blockStart
      ensures SlowValid() && All() == old(All()) && |blocks| == |old(blocks)| + if flush then 1 else 0
    {
      if flush {
        FlushBlock();
      }
    }

    /** The string at strstart is inserted, and the matches there and at the position before are known. */
    ghost predicate Found()
      reads this`matchLength, this`prevLength, this`prevMatch, this`matchAvailable, this`blocks, this`tokens
      reads w`matchStart, w`blockStart, w`insH, w`strstart, w`lookahead, w`insert, w`base, w`data, w`ins
      reads w.window, w.prev, w.head
    {
      && w.Inserted() && w.lookahead >= 1 && Tallied(Consumed()) && |tokens| < litBufsize - 1
         && (matchAvailable ==> w.strstart >= 1)
      && MIN_MATCH - 1 <= matchLength <= MAX_MATCH && MIN_MATCH - 1 <= prevLength <= MAX_MATCH
      && (prevLength >= MIN_MATCH ==> matchAvailable && w.Abs() >= 1 && w.strstart - 1 - prevMatch <= w.MaxDist()
                                      && Repeats(w.data, w.Abs() - 1, w.strstart - 1 - prevMatch, prevLength))
      && (matchLength > prevLength && matchLength >= MIN_MATCH ==> MatchHere(matchLength))
    }

    method Find() returns (ghost head: nat, ghost len: nat)
      requires SlowValid() && w.lookahead >= 1 && w.strstart + MAX_MATCH < w.window.Length
      modifies this`matchLength, this`prevLength, this`prevMatch, w`matchStart, w`insH, w`ins, w.prev, w.head
      ensures Found() && prevLength == old(matchLength) && prevMatch == old(w.matchStart)
      ensures Adds(old(w.ins), w.ins, w.Abs(), w.Abs() + 1, |w.data|)
      ensures SlowFinds(Here(), Setting(), prevLength, head, len, w.base + w.matchStart, matchLength)
    {
      var hashHead := Enter();
      head := w.base + hashHead;
      len := Search(hashHead);
    }

    /** The literal before strstart; a match found at strstart stays pending. */
    method TakeLiteral()
      requires !closed && Found() && !(prevLength >= MIN_MATCH && matchLength <= prevLength) && matchAvailable
      requires w.strstart + 1 < w.window.Length
      modifies this`tokens, this`blocks, w`strstart, w`lookahead, w`blockStart
      ensures SlowValid() && w.lookahead == old(w.lookahead) - 1 && w.strstart == old(w.strstart) + 1
      ensures w.Abs() >= 2 && w.Abs() <= |w.data| && All() == old(All()) + [Token(0, w.data[w.Abs() - 2])]
    {
      LiteralBefore();
      Onward();
    }

    /** A match found at strstart is pending at the next position. */
    method Onward()
      requires w.Inserted() && w.lookahead >= 1 && matchAvailable
      requires matchLength <= MAX_MATCH && (matchLength >= MIN_MATCH ==> MatchHere(matchLength))
      requires matchLength >= MIN_MATCH - 1
      modifies w`strstart, w`lookahead
      ensures w.Ready() && Pending() && w.strstart == old(w.strstart) + 1 && w.lookahead == old(w.lookahead) - 1
    {
      w.Advance();
    }

    /** The literal before strstart, and the flush of a full block. */
    method LiteralBefore()
      requires !closed && w.Valid() && w.strstart >= 1 && Tallied(w.Abs() - 1) && |tokens| < litBufsize - 1
      requires w.strstart < w.window.Length
      modifies this`tokens, this`blocks, w`blockStart
      ensures Tallied(w.Abs()) && |tokens| < litBufsize - 1
      ensures 1 <= w.Abs() <= |w.data| && All() == old(All()) + [Token(0, w.data[w.Abs() - 1])]
    {
      var flush := TallyLit(w.window[w.strstart - 1], w.Abs() - 1);
      if flush {
        FlushBlock();
      }
    }

    /** Nothing yet: the next step decides. */
    method Wait()
      requires Found() && !(prevLength >= MIN_MATCH && matchLength <= prevLength) && !matchAvailable
      requires w.strstart + 1 < w.window.Length
      modifies this`matchAvailable, w`strstart, w`lookahead
      ensures SlowValid() && w.lookahead == old(w.lookahead) - 1 && w.strstart == old(w.strstart) + 1 && matchAvailable
    {
      matchAvailable := true;
      Onward();
    }

    /** One step of deflate_slow, with lookahead; says whether the output space is looked at after it. */
    method SlowStep() returns (check: bool, ghost head: nat, ghost len: nat, ghost start: int, ghost found: nat,
                               ghost at: Place)
      requires !closed && SlowValid() && w.lookahead >= 1 && w.strstart + MAX_MATCH < w.window.Length
      modifies this`tokens, this`blocks, this`matchAvailable, this`matchLength, this`prevLength, this`prevMatch
      modifies w`matchStart, w`strstart, w`lookahead, w`blockStart, w`insH, w`ins, w.prev, w.head
      ensures SlowValid() && w.lookahead < old(w.lookahead) && w.strstart >= 1
      ensures at == old(Here()).(ins := at.ins) && Adds(old(w.ins), at.ins, at.p, at.p + 1, |at.data|)
      ensures SlowFinds(at, Setting(), old(matchLength), head, len, start, found)
      ensures SlowTakes(at, old(matchLength), old(w.base + w.matchStart), found, old(matchAvailable), old(All()), All(),
                        w.Abs(), w.ins)
      ensures if TakesPrevious(old(matchLength), found) then !matchAvailable && matchLength == MIN_MATCH - 1
              else matchAvailable && matchLength == found && w.base + w.matchStart == start
      ensures check <==> if TakesPrevious(old(matchLength), found) then
                |blocks| > |old(blocks)| else old(matchAvailable)
    {
      head, len := Find();
      start, found, at := w.base + w.matchStart, matchLength, Here();
      check := Decide();
    }

    /** Decides about the position before strstart. */
    method Decide() returns (check: bool)
      requires !closed && Found() && w.strstart + MAX_MATCH < w.window.Length
      modifies this`tokens, this`blocks, this`matchAvailable, this`matchLength, this`prevLength
      modifies w`strstart, w`lookahead, w`blockStart, w`insH, w`ins, w.prev, w.head
      ensures SlowValid() && w.lookahead < old(w.lookahead) && w.strstart >= 1
      ensures SlowTakes(old(Here()), old(prevLength), old(w.base + prevMatch), old(matchLength), old(matchAvailable),
                        old(All()), All(), w.Abs(), w.ins)
      ensures if TakesPrevious(old(prevLength), old(matchLength)) then !matchAvailable && matchLength == MIN_MATCH - 1
              else matchAvailable && matchLength == old(matchLength)
      ensures check <==> if TakesPrevious(old(prevLength), old(matchLength)) then |blocks| > |old(blocks)|
                         else old(matchAvailable)
    {
      if prevLength >= MIN_MATCH && matchLength <= prevLength {
        check := TakePrevious();
      } else {
        check := PutOff();
      }
    }

    /** What was found at strstart waits for the next step. */
    method PutOff() returns (check: bool)
      requires !closed && Found() && !TakesPrevious(prevLength, matchLength) && w.strstart + 1 < w.window.Length
      modifies this`tokens, this`blocks, this`matchAvailable, w`strstart, w`lookahead, w`blockStart
      ensures SlowValid() && w.lookahead == old(w.lookahead) - 1 && w.strstart == old(w.strstart) + 1 && matchAvailable
      ensures SlowTakes(old(Here()), old(prevLength), old(w.base + prevMatch), old(matchLength), old(matchAvailable),
                        old(All()), All(), w.Abs(), w.ins)
      ensures check == old(matchAvailable)
    {
      AddsNone(w.ins, w.Abs() + 1, w.Abs() + 1, |w.data|);
      check := matchAvailable;
      if matchAvailable {
        TakeLiteral();
      } else {
        Wait();
      }
    }

    method FillSlow(input: seq<byte>, pos: nat) returns (pos': nat)
      requires SlowValid() && w.lookahead < MIN_LOOKAHEAD && pos <= |input|
      modifies w, w.window, w.prev, w.head
      ensures SlowValid() && pos <= pos' <= |input| && w.data == old(w.data) + input[pos..pos']
      ensures w.strstart < w.wsize + w.MaxDist()
      ensures w.Abs() == old(w.Abs()) && (w.lookahead >= MIN_LOOKAHEAD || pos' == |input|)
    {
      ghost var d, dist := w.data, w.strstart - 1 - w.matchStart;
      pos' := w.FillWindow(input, pos);
      BalancedMore(blocks, tokens, d, w.data, Consumed(), litBufsize, w.MaxDist());
      if matchLength >= MIN_MATCH { RepeatsMore(d, w.data, w.Abs() - 1, dist, matchLength); }
    }

    /** One turn of deflate_slow's loop: fills the window and takes a step, unless it has to wait or is at the end. */
    method TurnSlow(input: seq<byte>, pos: nat, flush: Flush) returns (turn: Turn, pos': nat)
      requires !closed && SlowValid() && pos <= |input|
      modifies this, w, w.window, w.prev, w.head
      ensures SlowValid() && !closed && pos <= pos' <= |input| && w.data == old(w.data) + input[pos..pos']
      ensures turn == Waiting ==>
                flush == NoFlush && pos' == |input| && (|input| - pos') + w.lookahead <= (|input| - pos)
                    + old(w.lookahead)
      ensures turn == AtEnd ==> (|input| - pos') + w.lookahead <= (|input| - pos) + old(w.lookahead)
      ensures turn == AtEnd ==> w.lookahead == 0 && pos' == |input|
      ensures turn == Stepped || turn == Look ==> (|input| - pos') + w.lookahead < (|input| - pos) + old(w.lookahead)
    {
      pos' := pos;
      assert w.data == w.data + input[pos..pos];
      if w.lookahead < MIN_LOOKAHEAD {
        pos' := FillSlow(input, pos);
        if w.lookahead < MIN_LOOKAHEAD && flush == NoFlush {
          return Waiting, pos';
        }
        if w.lookahead == 0 {
          return AtEnd, pos';
        }
      }
      turn := GoSlow();
    }

    method GoSlow() returns (turn: Turn)
      requires !closed && SlowValid() && w.lookahead >= 1 && w.strstart + MAX_MATCH < w.window.Length
      modifies this`tokens, this`blocks, this`matchAvailable, this`matchLength, this`prevLength, this`prevMatch
      modifies w`matchStart, w`strstart, w`lookahead, w`blockStart, w`insH, w`ins, w.prev, w.head
      ensures SlowValid() && w.lookahead < old(w.lookahead) && (turn == Stepped || turn == Look)
    {
      var check;
      ghost var head, len, start, found, at;
      check, head, len, start, found, at := SlowStep();
      turn := if check then Look else Stepped;
    }

    /** deflate_slow, on the input from pos on; full says at each look whether the output space is used up. */
    method DeflateSlow(input: seq<byte>, pos: nat, flush: Flush, full: nat -> bool)
      returns (state: BlockState, pos': nat)
      requires !closed && SlowValid() && pos <= |input|
      modifies this, w, w.window, w.prev, w.head
      ensures SlowValid() && pos <= pos' <= |input| && w.data == old(w.data) + input[pos..pos']
      ensures (closed ==> flush == Finish && blocks != []) && (state == BlockDone ==> flush != Finish)
      ensures state == NeedMore ==>
                (pos' == |input| && flush != Finish) || (|input| - pos') + w.lookahead < (|input| - pos)
                    + old(w.lookahead)
      ensures closed <==> state == FinishDone || state == FinishStarted
      ensures closed || state == BlockDone ==> pos' == |input| && !matchAvailable && w.lookahead == 0 && tokens == []
    {
      var looks, turn := 0, Stepped;
      pos' := pos;
      assert w.data == w.data + input[pos..pos];
      while turn != AtEnd
        invariant SlowValid() && !closed && pos <= pos' <= |input| && w.data == old(w.data) + input[pos..pos']
        invariant turn == AtEnd ==> w.lookahead == 0 && pos' == |input|
        invariant (|input| - pos') + w.lookahead <= (|input| - pos) + old(w.lookahead)
        decreases turn != AtEnd, (|input| - pos') + w.lookahead
      {
        ghost var p := pos';
        turn, pos' := TurnSlow(input, pos', flush);
        assert input[pos..pos'] == input[pos..p] + input[p..pos'];
        if turn == Look { looks := looks + 1; }
        if turn == Waiting || (turn == Look && full(looks - 1)) {
          return NeedMore, pos';
        }
      }
      state := EndSlow(flush, full(looks));
    }

    /** The end of deflate_slow. */
    method EndSlow(flush: Flush, outFull: bool) returns (state: BlockState)
      requires !closed && SlowValid() && w.lookahead == 0
      modifies this`tokens, this`blocks, this`closed, this`matchAvailable, w`insert, w`blockStart
      ensures SlowValid() && !matchAvailable && tokens == [] && (flush == Finish ==> closed)
      ensures (closed <==> state == FinishDone || state == FinishStarted)
      ensures (closed <==> flush == Finish) && (closed ==> blocks != [])
    {
      LastLiteral();
      state := FinishCall(flush, outFull);
    }

    /** The literal left over at the end of the input. */
    method LastLiteral()
      requires SlowValid() && w.lookahead == 0
      modifies this`tokens, this`matchAvailable
      ensures w.Ready() && matchLength == MIN_MATCH - 1 && !matchAvailable && Tallied(w.Abs()) && |tokens| < litBufsize
    {
      if matchAvailable {
        var f := TallyLit(w.window[w.strstart - 1], w.Abs() - 1);
        matchAvailable := false;
      }
    }

    /** The end of a call that has consumed all input. */
    method FinishCall(flush: Flush, outFull: bool) returns (state: BlockState)
      requires !closed && w.Ready() && w.lookahead == 0 && Tallied(w.Abs()) && |tokens| < litBufsize
      requires w.strstart < w.window.Length
      modifies this`tokens, this`blocks, this`closed, w`insert, w`blockStart
      ensures w.Ready() && Tallied(w.Abs()) && tokens == []
      ensures (closed <==> state == FinishDone || state == FinishStarted)
      ensures (closed <==> flush == Finish) && (closed ==> blocks != [])
    {
      w.LeaveRest();
      if flush == Finish {
        FlushBlock();
        closed := true;
        state := if outFull then FinishStarted else FinishDone;
      } else {
        state := BlockDone;
        if tokens != [] {
          FlushBlock();
          if outFull { state := NeedMore; }
        }
      }
    }

    // ----- deflate_fast -----

    /** Looks for a match at strstart. */
    method SearchFast(hashHead: nat)
      requires w.Inserted() && w.strstart + MAX_MATCH < w.window.Length && matchLength < MIN_MATCH
      requires prevLength == MIN_MATCH - 1 && IsHead(Here(), w.base + hashHead)
      modifies this`matchLength, w`matchStart
      ensures FastFinds(Here(), Setting(), w.base + hashHead, matchLength, w.base + w.matchStart)
      ensures matchLength <= MAX_MATCH && (matchLength >= MIN_MATCH ==> MatchHere(matchLength))
    {
      if hashHead != NIL && w.strstart - hashHead <= w.MaxDist() {
        matchLength := LookUp(hashHead, prevLength);
      }
    }

    /** deflate_fast when a match has been looked for at strstart. */
    ghost predicate Looked()
      reads this`matchLength, this`prevLength, this`matchAvailable, this`blocks, this`tokens
      reads w`matchStart, w`blockStart, w`insH, w`strstart, w`lookahead, w`insert, w`base, w`data, w`ins
      reads w.window, w.prev, w.head
    {
      && w.Inserted() && w.lookahead >= 1 && w.strstart + MAX_MATCH + 1 < w.window.Length
      && prevLength == MIN_MATCH - 1 && !matchAvailable && Tallied(w.Abs()) && |tokens| < litBufsize - 1
      && matchLength <= MAX_MATCH && (matchLength >= MIN_MATCH ==> MatchHere(matchLength))
    }

    /** Emits the match at strstart; its strings are inserted only if it is short and bytes follow it. */
    method TakeMatch() returns (flush: bool)
      requires Looked() && matchLength >= MIN_MATCH
      modifies this`tokens, this`matchLength, w`strstart, w`lookahead, w`insH, w`ins, w.prev, w.head
      ensures Put(flush) && w.Abs() == old(w.Abs()) + old(matchLength) && w.lookahead < old(w.lookahead)
      ensures All() == old(All()) + [MatchToken(old(w.strstart - w.matchStart), old(matchLength))]
      ensures PassAdds(old(Here()), maxLazy, old(matchLength), w.ins)
    {
      flush := TallyDist(w.strstart - w.matchStart, matchLength, w.Abs());
      PassMatch(matchLength);
      matchLength := 0;
    }

    /** deflate_fast after a token, before the flush of a full block. */
    ghost predicate Put(full: bool)
      reads this`matchLength, this`prevLength, this`matchAvailable, this`blocks, this`tokens
      reads w`matchStart, w`blockStart, w`insH, w`strstart, w`lookahead, w`insert, w`base, w`data, w`ins
      reads w.window, w.prev, w.head
    {
      && w.Ready() && matchLength < MIN_MATCH && prevLength == MIN_MATCH - 1 && !matchAvailable && Tallied(w.Abs())
      && |tokens| < litBufsize && (full <==> |tokens| == litBufsize - 1) && w.strstart < w.window.Length
    }

    /** Emits the literal at strstart. */
    method TakeByte() returns (flush: bool)
      requires Looked() && matchLength < MIN_MATCH
      modifies this`tokens, w`strstart, w`lookahead
      ensures Put(flush) && w.Abs() == old(w.Abs()) + 1 <= |w.data| && w.lookahead < old(w.lookahead)
      ensures All() == old(All()) + [Token(0, w.data[w.Abs() - 1])]
    {
      flush := TallyLit(w.window[w.strstart], w.Abs());
      w.Advance();
    }

    /** Moves past a match of n bytes. */
    method PassMatch(n: nat)
      requires w.Inserted() && MIN_MATCH <= n <= MAX_MATCH && n <= w.lookahead
      requires w.strstart + MAX_MATCH + 1 < w.window.Length
      modifies w`strstart, w`lookahead, w`insH, w`ins, w.prev, w.head
      ensures w.Ready() && w.strstart == old(w.strstart) + n && w.lookahead == old(w.lookahead) - n
      ensures PassAdds(old(Here()), maxLazy, n, w.ins)
    {
      if n <= maxLazy && w.lookahead - n >= MIN_MATCH {
        w.AdvanceInserting(n);
      } else {
        w.Skip(n);
      }
    }

    /** One step of deflate_fast, with lookahead; says whether a block was flushed. The match found is taken, or else
        the byte is a literal. */
    method FastStep() returns (flush: bool, ghost head: nat, ghost start: int, ghost found: nat, ghost at: Place)
      requires !closed && FastValid() && w.lookahead >= 1 && w.strstart + MAX_MATCH + 1 < w.window.Length
      modifies this`tokens, this`blocks, this`matchLength, w`matchStart, w`strstart, w`lookahead, w`blockStart, w`insH,
          w`ins, w.prev, w.head
      ensures FastValid() && w.lookahead < old(w.lookahead)
      ensures at == old(Here()).(ins := at.ins) && Adds(old(w.ins), at.ins, at.p, at.p + 1, |at.data|)
      ensures FastFinds(at, Setting(), head, found, start)
      ensures FastTakes(at, maxLazy, found, start, old(All()), All(), w.Abs(), w.ins)
      ensures flush <==> |blocks| > |old(blocks)|
    {
      head := FindFast();
      start, found, at := w.base + w.matchStart, matchLength, Here();
      flush := Take();
    }

    /** Emits what was found. */
    method Take() returns (flush: bool)
      requires !closed && Looked()
      modifies this`tokens, this`blocks, this`matchLength, w`strstart, w`lookahead, w`blockStart, w`insH, w`ins, w.prev,
          w.head
      ensures FastValid() && w.lookahead < old(w.lookahead)
      ensures FastTakes(old(Here()), maxLazy, old(matchLength), old(w.base + w.matchStart), old(All()), All(), w.Abs(),
                        w.ins)
      ensures flush <==> |blocks| > |old(blocks)|
    {
      if matchLength >= MIN_MATCH {
        flush := TakeMatch();
      } else {
        flush := TakeByte();
      }
      FlushPut(flush);
    }

    method FindFast() returns (ghost head: nat)
      requires FastValid() && w.lookahead >= 1 && w.strstart + MAX_MATCH + 1 < w.window.Length
      modifies this`matchLength, w`matchStart, w`insH, w`ins, w.prev, w.head
      ensures Looked() && Adds(old(w.ins), w.ins, w.Abs(), w.Abs() + 1, |w.data|)
      ensures FastFinds(Here(), Setting(), head, matchLength, w.base + w.matchStart)
    {
      var hashHead := Enter();
      head := w.base + hashHead;
      SearchFast(hashHead);
    }

    method FlushPut(flush: bool)
      requires !closed && Put(flush)
      modifies this`tokens, this`blocks, w`blockStart
      ensures FastValid() && All() == old(All()) && |blocks| == |old(blocks)| + if flush then 1 else 0
    {
      if flush {
        FlushBlock();
      }
    }

    method FillFast(input: seq<byte>, pos: nat) returns (pos': nat)
      requires FastValid() && w.lookahead < MIN_LOOKAHEAD && pos <= |input|
      modifies w, w.window, w.prev, w.head
      ensures FastValid() && pos <= pos' <= |input| && w.data == old(w.data) + input[pos..pos']
      ensures w.strstart < w.wsize + w.MaxDist()
      ensures w.Abs() == old(w.Abs()) && (w.lookahead >= MIN_LOOKAHEAD || pos' == |input|)
    {
      ghost var d := w.data;
      pos' := w.FillWindow(input, pos);
      BalancedMore(blocks, tokens, d, w.data, w.Abs(), litBufsize, w.MaxDist());
    }

    /** One turn of deflate_fast's loop. */
    method TurnFast(input: seq<byte>, pos: nat, flush: Flush) returns (turn: Turn, pos': nat)
      requires !closed && FastValid() && pos <= |input|
      modifies this, w, w.window, w.prev, w.head
      ensures FastValid() && !closed && pos <= pos' <= |input| && w.data == old(w.data) + input[pos..pos']
      ensures turn == Waiting ==>
                flush == NoFlush && pos' == |input| && (|input| - pos') + w.lookahead <= (|input| - pos)
                    + old(w.lookahead)
      ensures turn == AtEnd ==> (|input| - pos') + w.lookahead <= (|input| - pos) + old(w.lookahead)
      ensures turn == AtEnd ==> w.lookahead == 0 && pos' == |input|
      ensures turn == Stepped || turn == Look ==> (|input| - pos') + w.lookahead < (|input| - pos) + old(w.lookahead)
    {
      pos' := pos;
      assert w.data == w.data + input[pos..pos];
      if w.lookahead < MIN_LOOKAHEAD {
        pos' := FillFast(input, pos);
        if w.lookahead < MIN_LOOKAHEAD && flush == NoFlush {
          return Waiting, pos';
        }
        if w.lookahead == 0 {
          return AtEnd, pos';
        }
      }
      var check;
      ghost var head, start, found, at;
      check, head, start, found, at := FastStep();
      turn := if check then Look else Stepped;
    }

    /** deflate_fast, on the input from pos on; full says at each look whether the output space is used up. */
    method DeflateFast(input: seq<byte>, pos: nat, flush: Flush, full: nat -> bool)
      returns (state: BlockState, pos': nat)
      requires !closed && FastValid() && pos <= |input|
      modifies this, w, w.window, w.prev, w.head
      ensures FastValid() && pos <= pos' <= |input| && w.data == old(w.data) + input[pos..pos']
      ensures (closed ==> flush == Finish && blocks != []) && (state == BlockDone ==> flush != Finish)
      ensures state == NeedMore ==>
                (pos' == |input| && flush != Finish) || (|input| - pos') + w.lookahead < (|input| - pos)
                    + old(w.lookahead)
      ensures closed <==> state == FinishDone || state == FinishStarted
      ensures closed || state == BlockDone ==> pos' == |input| && w.lookahead == 0 && tokens == []
    {
      var looks, turn := 0, Stepped;
      pos' := pos;
      assert w.data == w.data + input[pos..pos];
      while turn != AtEnd
        invariant FastValid() && !closed && pos <= pos' <= |input| && w.data == old(w.data) + input[pos..pos']
        invariant turn == AtEnd ==> w.lookahead == 0 && pos' == |input|
        invariant (|input| - pos') + w.lookahead <= (|input| - pos) + old(w.lookahead)
        decreases turn != AtEnd, (|input| - pos') + w.lookahead
      {
        ghost var p := pos';
        turn, pos' := TurnFast(input, pos', flush);
        assert input[pos..pos'] == input[pos..p] + input[p..pos'];
        if turn == Look { looks := looks + 1; }
        if turn == Waiting || (turn == Look && full(looks - 1)) {
          return NeedMore, pos';
        }
      }
      state := EndFast(flush, full(looks));
    }

    /** The end of deflate_fast. */
    method EndFast(flush: Flush, outFull: bool) returns (state: BlockState)
      requires !closed && FastValid() && w.lookahead == 0
      modifies this`tokens, this`blocks, this`closed, w`insert, w`blockStart
      ensures FastValid() && tokens == [] && (flush == Finish ==> closed)
      ensures (closed <==> state == FinishDone || state == FinishStarted)
      ensures (closed <==> flush == Finish) && (closed ==> blocks != [])
    {
      state := FinishCall(flush, outFull);
    }
  }

  /** When all data is consumed and no token is left in the buffer, the blocks flushed stand for all of it. */
  lemma {:induction false} WholeInput(d: Deflater)
    requires d.SlowValid() || d.FastValid()
    requires !d.matchAvailable && d.w.lookahead == 0 && d.tokens == []
    ensures Expandable([], Flatten(d.blocks)) && Expand([], Flatten(d.blocks)) == d.w.data
    ensures GoodBlocks(d.blocks, d.litBufsize, d.w.MaxDist())
  {
    var all := Flatten(d.blocks);
    assert all + d.tokens == all;
    assert StandFor(all, d.w.data, |d.w.data|);
    assert d.w.data[..|d.w.data|] == d.w.data;
  }
}
