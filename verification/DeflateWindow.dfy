/** The window of deflate, its hash table, and the search for matches in it. */
module DeflateWindow {
  import opened Bits
  import opened Lz77
  import opened Hashing
  import opened HashChains

  const MIN_LOOKAHEAD := MAX_MATCH + MIN_MATCH + 1
  const NIL := 0

  /** The first n window bytes are the data from base on. */
  ghost predicate Holds(window: seq<byte>, base: nat, data: seq<byte>, n: nat) {
    n <= |window| && base + n == |data| && forall i {:trigger window[i]} :: 0 <= i < n ==> window[i] == data[base + i]
  }

  /** The window holds the end of the data, and the hash table its inserted positions. */
  ghost predicate Consistent(hc: Config, wsize: nat, window: seq<byte>, head: seq<nat>, prev: seq<nat>, base: nat,
                             data: seq<byte>, ins: set<nat>,
                             strstart: nat, lookahead: nat) {
    Whole(base, wsize) && Holds(window, base, data, strstart + lookahead)
    && Chains(hc, wsize, head, prev, base, data, ins, base + strstart)
    && Full(hc, wsize, head, prev, base, data, ins, base + strstart)
  }

  lemma {:induction false} Appended(hc: Config, wsize: nat, window: seq<byte>, window': seq<byte>, head: seq<nat>,
                                    prev: seq<nat>, base: nat, data: seq<byte>, ins: set<nat>,
                 strstart: nat, lookahead: nat, add: seq<byte>)
    requires Consistent(hc, wsize, window, head, prev, base, data, ins, strstart, lookahead) && |window'| == |window|
    requires strstart + lookahead + |add| <= |window|
    requires forall i :: 0 <= i < |window| ==>
               window'[i] == if strstart + lookahead <= i < strstart + lookahead + |add|
                   then add[i - strstart - lookahead] else window[i]
    ensures Consistent(hc, wsize, window', head, prev, base, data + add, ins, strstart, lookahead + |add|)
  {
    var n := strstart + lookahead;
    MoreData(hc, wsize, head, prev, base, data, data + add, ins, base + strstart);
    FullMore(hc, wsize, head, prev, base, data, data + add, ins, base + strstart);
    forall i | 0 <= i < n + |add|
      ensures window'[i] == (data + add)[base + i]
    {
    }
  }

  lemma {:induction false} SlidDown(hc: Config, wsize: nat, window: seq<byte>, window': seq<byte>, head: seq<nat>,
                                    head': seq<nat>, prev: seq<nat>, prev': seq<nat>,
                 base: nat, data: seq<byte>, ins: set<nat>, strstart: nat, lookahead: nat)
    requires Consistent(hc, wsize, window, head, prev, base, data, ins, strstart, lookahead) && wsize <= strstart
    requires |window| == |window'| == 2 * wsize
    requires (forall i :: 0 <= i < wsize ==> window'[i] == window[wsize + i]) && AllSlid(head, head', wsize)
    requires AllSlid(prev, prev', wsize)
    ensures Consistent(hc, wsize, window', head', prev', base + wsize, data, ins, strstart - wsize, lookahead)
  {
    HashChains.Slide(hc, wsize, head, prev, head', prev', base, data, ins, base + strstart);
    FullSlide(hc, wsize, head, prev, head', prev', base, data, ins, base + strstart);
  }

  lemma {:induction false} WindowSizes(n: nat)
    requires 9 <= n <= 15
    ensures 512 <= Pow2(n) <= 32768
  {
    SmallPowers();
    LargePowers();
    Pow2Mono(9, n);
    Pow2Mono(n, 15);
  }

  lemma {:induction false} EmptyTable(hc: Config, wsize: nat, window: seq<byte>, head: seq<nat>, prev: seq<nat>)
    requires |head| == Pow2(hc.bits) && |prev| == wsize > 0 && forall h :: 0 <= h < |head| ==> head[h] == 0
    ensures Consistent(hc, wsize, window, head, prev, 0, [], {}, 0, 0)
  {
    forall h | 0 <= h < |head| ensures HeadOk(hc, head, 0, [], {}, h) && HeadFull(hc, head, 0, [], {}, h) { }
  }

  lemma {:induction false} InsertedAt(hc: Config, wsize: nat, window: seq<byte>, head: seq<nat>, prev: seq<nat>,
                                      base: nat, data: seq<byte>, ins: set<nat>,
                   strstart: nat, lookahead: nat, str: nat, insH: nat)
    requires Consistent(hc, wsize, window, head, prev, base, data, ins, strstart, lookahead) && Proper(hc) && wsize > 0
    requires str + MIN_MATCH <= strstart + lookahead && str <= strstart < str + wsize
    requires (forall x {:trigger x in ins} :: x in ins ==> x < base + str)
    requires Rolls(hc, insH, data[base + str], data[base + str + 1])
    ensures str + 2 < |window|
    ensures var h := Update(hc, insH, window[str + 2]);
            && h < |head| && Rolls(hc, h, data[base + str + 1], data[base + str + 2]) && Slot(str, wsize) < |prev|
            && Consistent(hc, wsize, window, head[h := str], prev[Slot(str, wsize) := head[h]], base, data,
                          ins + {base + str}, strstart, lookahead)
            && (head[h] != 0 ==> Earlier(hc, data, ins + {base + str}, base + head[h], base + str))
            && Latest(hc, data, ins, base + head[h], base + str)
  {
    InsertIndex(hc, wsize, head, prev, base, data, ins, base + strstart, str, insH, window[str + 2]);
    FullInsert(hc, wsize, head, prev, base, data, ins, base + strstart, base + str, Update(hc, insH, window[str + 2]));
  }

  /** The len bytes at p repeat those dist before them. */
  ghost predicate Repeats(data: seq<byte>, p: nat, dist: int, len: nat) {
    1 <= dist <= p && p + len <= |data| && forall i {:trigger SameAsBefore(data, i, dist)} ::
        p <= i < p + len ==> SameAsBefore(data, i, dist)
  }

  ghost predicate SameAsBefore(data: seq<byte>, i: int, dist: int) {
    0 <= i - dist < |data| && 0 <= i < |data| && data[i] == data[i - dist]
  }

  /** ins' is ins and the positions from a up to b that have three bytes of the n that are there. */
  ghost predicate Adds(ins: set<nat>, ins': set<nat>, a: int, b: int, n: nat) {
    forall m: nat {:trigger AddsOf(ins, ins', a, b, m)} :: m == n ==> AddsOf(ins, ins', a, b, m)
  }

  ghost predicate AddsOf(ins: set<nat>, ins': set<nat>, a: int, b: int, n: nat) {
    forall x: nat {:trigger x in ins'} :: x in ins' <==> x in ins || (a <= x < b && x + MIN_MATCH <= n)
  }

  lemma {:induction false} AddsNone(ins: set<nat>, a: int, b: int, n: nat)
    requires b <= a || n < a + MIN_MATCH
    ensures Adds(ins, ins, a, b, n)
  {
  }

  lemma {:induction false} AddsOne(ins: set<nat>, ins': set<nat>, a: int, p: nat, n: nat)
    requires Adds(ins, ins', a, p, n) && a <= p
    ensures Adds(ins, if p + MIN_MATCH <= n then ins' + {p} else ins', a, p + 1, n)
  {
    assert AddsOf(ins, ins', a, p, n);
  }

  lemma {:induction false} AddsUpTo(ins: set<nat>, ins': set<nat>, a: int, b: int, c: int, n: nat)
    requires Adds(ins, ins', a, b, n) && b <= c && n < b + MIN_MATCH
    ensures Adds(ins, ins', a, c, n)
  {
    assert AddsOf(ins, ins', a, b, n);
  }

  lemma {:induction false} AddsJoin(ins: set<nat>, ins': set<nat>, ins'': set<nat>, a: int, b: int, c: int, n: nat)
    requires Adds(ins, ins', a, b, n) && Adds(ins', ins'', b, c, n) && a <= b <= c
    ensures Adds(ins, ins'', a, c, n)
  {
    assert AddsOf(ins, ins', a, b, n) && AddsOf(ins', ins'', b, c, n);
    forall x: nat {:trigger x in ins''} ensures x in ins'' <==> x in ins || (a <= x < c && x + MIN_MATCH <= n) {
      assert x in ins' <==> x in ins || (a <= x < b && x + MIN_MATCH <= n);
    }
  }

  /** More data, when all positions before b had their three bytes. */
  lemma {:induction false} AddsFilled(ins: set<nat>, ins': set<nat>, ins'': set<nat>, a: int, b: int, c: int, n: nat,
                                      n': nat)
    requires Adds(ins, ins', a, c, n) && Adds(ins', ins'', b, c, n')
    requires a <= b <= c && n <= n' && (a < b ==> b + MIN_MATCH - 1 <= n)
    ensures Adds(ins, ins'', a, c, n')
  {
    assert AddsOf(ins, ins', a, c, n) && AddsOf(ins', ins'', b, c, n');
    forall x: nat {:trigger x in ins''} ensures x in ins'' <==> x in ins || (a <= x < c && x + MIN_MATCH <= n') {
      assert x in ins' <==> x in ins || (a <= x < c && x + MIN_MATCH <= n);
    }
  }

  // ----- the longest match -----

  /** Where a search for the string at p may look: inserted positions with the same hash, after window index 0 and
      nearer
      than most, or the head of the chain. */
  ghost function Candidates(hc: Config, data: seq<byte>, ins: set<nat>, base: nat, p: nat, most: int, head: nat)
    : set<nat>
  {
    set x | x in ins && Eligible(hc, data, ins, base, p, most, head, x)
  }

  ghost predicate Eligible(hc: Config, data: seq<byte>, ins: set<nat>, base: nat, p: nat, most: int, head: nat,
                           x: nat) {
    Earlier(hc, data, ins, x, p) && base < x && (p - x < most || x == head)
  }

  /** Those from x on. */
  ghost function From(c: set<nat>, x: int): set<nat> {
    set y | y in c && y >= x
  }

  /** x is one of the n latest in c, or of all of them for n = 0. */
  ghost predicate OneOfLatest(c: set<nat>, n: nat, x: int) {
    x in c && (n == 0 || |From(c, x)| <= n)
  }

  function Larger(a: nat, b: nat): nat {
    if a >= b then a else b
  }

  /** A search among the n latest candidates for a match at p longer than prevLength: start is the latest candidate with
      a
      match of len bytes, and no later one is good enough to stop at; and len is enough to stop at, or no candidate
      has a longer match. */
  ghost predicate Longest(data: seq<byte>, p: nat, c: set<nat>, n: nat, prevLength: nat, nice: nat, len: nat,
                          start: int) {
    && (len > prevLength ==>
          && start >= 0 && OneOfLatest(c, n, start) && Repeats(data, p, p - start, len)
          && forall y {:trigger y in c} :: y in c && y > start ==>
               !Repeats(data, p, p - y, len) && !Repeats(data, p, p - y, Larger(nice, prevLength + 1)))
    && ((len > prevLength && len >= nice) || len == MAX_MATCH
        || forall x: nat {:trigger x in c} :: x in c && OneOfLatest(c, n, x) ==> !Repeats(data, p, p - x, len + 1))
  }

  /** The strings at window indices cur and s agree in their first len bytes, whether these are valid or not. */
  ghost predicate Alike(win: seq<byte>, s: nat, cur: int, len: nat) {
    && 0 <= cur < s && s + len <= |win|
    && forall k {:trigger win[k]} :: s <= k < s + len ==> win[k] == win[k - s + cur]
  }

  /** No match longer than len. */
  ghost predicate NoLonger(win: seq<byte>, s: nat, cur: int, len: nat) {
    len == MAX_MATCH || !Alike(win, s, cur, len + 1)
  }

  /** start is the latest candidate with a match of best bytes, found when none was good enough to stop at. */
  ghost predicate BestAt(win: seq<byte>, s: nat, base: nat, c: set<nat>, prevLength: nat, nice: nat, best: nat,
                         start: int) {
    && start >= 0 && base + start in c && Alike(win, s, start, best)
    && forall y {:trigger y in c} :: y in c && y > base + start ==>
         !Alike(win, s, y - base, best) && !Alike(win, s, y - base, Larger(nice, prevLength + 1))
  }

  /** The candidates after cur have been tried. */
  ghost predicate Tried(win: seq<byte>, s: nat, base: nat, c: set<nat>, cur: int, prevLength: nat, nice: nat, best: nat,
                        start: int) {
    forall i {:trigger TriedAfter(win, s, base, c, i, prevLength, nice, best, start)} :: i == cur ==>
      TriedAfter(win, s, base, c, i, prevLength, nice, best, start)
  }

  ghost predicate TriedAfter(win: seq<byte>, s: nat, base: nat, c: set<nat>, cur: int, prevLength: nat, nice: nat,
                             best: nat, start: int) {
    && prevLength <= best <= MAX_MATCH
    && (forall y {:trigger y in c} :: y in c && y > base + cur ==> NoLonger(win, s, y - base, best))
    && (best > prevLength ==> BestAt(win, s, base, c, prevLength, nice, best, start) && start > cur)
  }

  lemma {:induction false} NotAlike(win: seq<byte>, s: nat, cur: int, m: nat, n: nat)
    requires !Alike(win, s, cur, m) && m <= n
    ensures !Alike(win, s, cur, n)
  {
  }

  /** After one more candidate, which is the best one if it is better. */
  lemma {:induction false} TryOne(win: seq<byte>, s: nat, base: nat, c: set<nat>, cur: nat, prevLength: nat, nice: nat,
                                  best: nat, start: int, best': nat, start': int)
    requires Tried(win, s, base, c, cur, prevLength, nice, best, start) && base + cur in c
    requires best == prevLength || best < nice
    requires best <= best' <= MAX_MATCH && NoLonger(win, s, cur, best')
    requires if best' > best then start' == cur && Alike(win, s, cur, best') else start' == start
    ensures Tried(win, s, base, c, cur - 1, prevLength, nice, best', start')
  {
    assert TriedAfter(win, s, base, c, cur, prevLength, nice, best, start);
    NoneLonger(win, s, base, c, cur, best, best');
    if best' > best { NewBest(win, s, base, c, cur, prevLength, nice, best, best'); }
  }

  lemma {:induction false} NoneLonger(win: seq<byte>, s: nat, base: nat, c: set<nat>, cur: nat, best: nat, best': nat)
    requires forall y {:trigger y in c} :: y in c && y > base + cur ==> NoLonger(win, s, y - base, best)
    requires best <= best' <= MAX_MATCH && NoLonger(win, s, cur, best')
    ensures forall y {:trigger y in c} :: y in c && y > base + cur - 1 ==> NoLonger(win, s, y - base, best')
  {
    forall y {:trigger y in c} | y in c && y > base + cur - 1 ensures NoLonger(win, s, y - base, best') {
      if y > base + cur && best' < MAX_MATCH { NotAlike(win, s, y - base, best + 1, best' + 1); }
    }
  }

  lemma {:induction false} NewBest(win: seq<byte>, s: nat, base: nat, c: set<nat>, cur: nat, prevLength: nat, nice: nat,
                                   best: nat, best': nat)
    requires forall y {:trigger y in c} :: y in c && y > base + cur ==> NoLonger(win, s, y - base, best)
    requires (best == prevLength || best < nice) && best < best' <= MAX_MATCH && base + cur in c
    requires Alike(win, s, cur, best')
    ensures BestAt(win, s, base, c, prevLength, nice, best', cur)
  {
    forall y {:trigger y in c} | y in c && y > base + cur
      ensures !Alike(win, s, y - base, best') && !Alike(win, s, y - base, Larger(nice, prevLength + 1))
    {
      assert NoLonger(win, s, y - base, best);
      NotAlike(win, s, y - base, best + 1, best');
      NotAlike(win, s, y - base, best + 1, Larger(nice, prevLength + 1));
    }
  }

  /** One more candidate: none lies between next and cur. */
  lemma {:induction false} FromNext(c: set<nat>, cur: nat, next: nat)
    requires next < cur && next in c && forall y {:trigger y in c} :: y in c && y < cur ==> y <= next
    ensures |From(c, next)| == |From(c, cur)| + 1
  {
    assert From(c, next) == From(c, cur) + {next};
  }

  lemma {:induction false} FromMore(c: set<nat>, cur: nat, y: nat)
    requires y in c && y < cur
    ensures |From(c, y)| > |From(c, cur)|
  {
    assert From(c, cur) + {y} <= From(c, y);
    SubsetSize(From(c, cur) + {y}, From(c, y));
  }

  lemma {:induction false} SubsetSize(a: set<nat>, b: set<nat>)
    requires a <= b
    ensures |a| <= |b|
  {
    assert b == a + (b - a);
  }

  /** Bytes that differ end a match. */
  lemma {:induction false} Differ(win: seq<byte>, s: nat, cur: nat, len: nat, n: nat)
    requires cur < s && s + len < |win| && len <= n && (len == MAX_MATCH || win[s + len] != win[cur + len])
    requires n <= MAX_MATCH
    ensures NoLonger(win, s, cur, n)
  {
    if len < MAX_MATCH && n < MAX_MATCH && s + n < |win| { assert win[s + len] != win[s + len - s + cur]; }
  }

  /** The candidate cur is next, the n-th to be tried. */
  ghost predicate Searching(win: seq<byte>, s: nat, base: nat, c: set<nat>, cur: nat, n: nat, prevLength: nat,
                            nice: nat, best: nat, start: int) {
    forall i: nat {:trigger SearchingAt(win, s, base, c, i, n, prevLength, nice, best, start)} :: i == cur ==>
      SearchingAt(win, s, base, c, i, n, prevLength, nice, best, start)
  }

  ghost predicate SearchingAt(win: seq<byte>, s: nat, base: nat, c: set<nat>, cur: nat, n: nat, prevLength: nat,
                              nice: nat, best: nat, start: int) {
    && base + cur in c && |From(c, base + cur)| == n && (best == prevLength || best < nice)
    && Tried(win, s, base, c, cur, prevLength, nice, best, start)
    && (best > prevLength ==> |From(c, base + start)| < n)
  }

  /** The search among the n latest candidates is over. */
  ghost predicate Searched(win: seq<byte>, s: nat, base: nat, c: set<nat>, n: nat, prevLength: nat, nice: nat,
                           best: nat,
                           start: int) {
    forall m: nat {:trigger SearchedAll(win, s, base, c, m, prevLength, nice, best, start)} :: m == n ==>
      SearchedAll(win, s, base, c, m, prevLength, nice, best, start)
  }

  ghost predicate SearchedAll(win: seq<byte>, s: nat, base: nat, c: set<nat>, n: nat, prevLength: nat, nice: nat,
                              best: nat, start: int) {
    && prevLength <= best <= MAX_MATCH
    && (best > prevLength ==> BestAt(win, s, base, c, prevLength, nice, best, start) && OneOfLatest(c, n, base + start))
    && ((best > prevLength && best >= nice)
        || forall x: nat {:trigger x in c} :: x in c && OneOfLatest(c, n, x) ==> NoLonger(win, s, x - base, best))
  }

  /** What trying a candidate leaves. */
  lemma {:induction false} TriedOne(win: seq<byte>, s: nat, base: nat, c: set<nat>, cur: nat, n: nat, limit: nat,
                                    prevLength: nat, nice: nat, best: nat, start: int, best': nat, start': int)
    requires Searching(win, s, base, c, cur, n, prevLength, nice, best, start) && (limit == 0 || n <= limit)
    requires best <= best' <= MAX_MATCH && NoLonger(win, s, cur, best')
    requires if best' > best then start' == cur && Alike(win, s, cur, best') else start' == start
    ensures Tried(win, s, base, c, cur - 1, prevLength, nice, best', start')
    ensures best' > prevLength ==> OneOfLatest(c, limit, base + start') && |From(c, base + start')| <= n
    ensures |From(c, base + cur)| == n
    ensures if best' > best && best' >= nice then Searched(win, s, base, c, limit, prevLength, nice, best', start')
            else best' == prevLength || best' < nice
  {
    assert SearchingAt(win, s, base, c, cur, n, prevLength, nice, best, start);
    assert TriedAfter(win, s, base, c, cur, prevLength, nice, best, start);
    TryOne(win, s, base, c, cur, prevLength, nice, best, start, best', start');
    assert TriedAfter(win, s, base, c, cur - 1, prevLength, nice, best', start');
  }

  /** The next candidate. */
  lemma {:induction false} GoOn(win: seq<byte>, s: nat, base: nat, c: set<nat>, cur: nat, next: nat, n: nat,
                                prevLength: nat, nice: nat, best: nat, start: int)
    requires |From(c, base + cur)| == n && next < cur && base + next in c
    requires Tried(win, s, base, c, cur - 1, prevLength, nice, best, start) && (best == prevLength || best < nice)
    requires best > prevLength ==> |From(c, base + start)| <= n
    requires forall y {:trigger y in c} :: y in c && y < base + cur ==> y <= base + next
    ensures Searching(win, s, base, c, next, n + 1, prevLength, nice, best, start)
  {
    FromNext(c, base + cur, base + next);
    assert TriedAfter(win, s, base, c, cur - 1, prevLength, nice, best, start);
  }

  lemma {:induction false} NoneLeft(c: set<nat>, x: nat)
    requires forall y: nat {:trigger y in c} :: y in c ==> y >= x
    ensures forall y {:trigger y in c} :: y in c ==> y >= x
  {
  }

  /** No candidate is left that may be tried. */
  lemma {:induction false} Stop(win: seq<byte>, s: nat, base: nat, c: set<nat>, cur: nat, n: nat, limit: nat,
                                prevLength: nat, nice: nat, best: nat, start: int)
    requires |From(c, base + cur)| == n >= 1 && Tried(win, s, base, c, cur - 1, prevLength, nice, best, start)
    requires best > prevLength ==> OneOfLatest(c, limit, base + start)
    requires n == limit || forall y {:trigger y in c} :: y in c ==> y >= base + cur
    ensures Searched(win, s, base, c, limit, prevLength, nice, best, start)
  {
    assert TriedAfter(win, s, base, c, cur - 1, prevLength, nice, best, start);
    forall x: nat {:trigger x in c} | x in c && OneOfLatest(c, limit, x) ensures NoLonger(win, s, x - base, best) {
      if x < base + cur { FromMore(c, base + cur, x); }
    }
  }

  /** Matches of window bytes, cut to the bytes that are valid, are matches of the data. */
  lemma {:induction false} AlikeRepeats(win: seq<byte>, s: nat, base: nat, data: seq<byte>, lookahead: nat, cur: nat,
                                        len: nat)
    requires Holds(win, base, data, s + lookahead) && cur < s && len <= lookahead
    ensures Alike(win, s, cur, len) <==> Repeats(data, base + s, s - cur, len)
  {
    var p, dist := base + s, s - cur;
    if Alike(win, s, cur, len) {
      forall i | p <= i < p + len ensures SameAsBefore(data, i, dist) {
        assert win[i - base] == win[i - base - s + cur];
      }
    }
    if Repeats(data, p, dist, len) {
      forall k | s <= k < s + len ensures win[k] == win[k - s + cur] { assert SameAsBefore(data, base + k, dist); }
    }
  }

  /** What was found, cut to the lookahead. */
  lemma {:induction false} Conclude(win: seq<byte>, s: nat, base: nat, data: seq<byte>, lookahead: nat, c: set<nat>,
                                    n: nat, prevLength: nat, nice: nat, best: nat, start: int, len: nat)
    requires Holds(win, base, data, s + lookahead) && Searched(win, s, base, c, n, prevLength, nice, best, start)
    requires len == Min(best, lookahead) && nice <= lookahead
    requires forall x {:trigger x in c} :: x in c ==> base <= x < base + s
    ensures Longest(data, base + s, c, n, prevLength, nice, len, base + start)
  {
    assert SearchedAll(win, s, base, c, n, prevLength, nice, best, start);
    if len > prevLength { NearestOne(win, s, base, data, lookahead, c, prevLength, nice, best, start, len); }
    if !(len > prevLength && len >= nice) && len != MAX_MATCH {
      NoneIsLonger(win, s, base, data, lookahead, c, n, best, len);
    }
  }

  lemma {:induction false} NearestOne(win: seq<byte>, s: nat, base: nat, data: seq<byte>, lookahead: nat, c: set<nat>,
                                      prevLength: nat, nice: nat, best: nat, start: int, len: nat)
    requires Holds(win, base, data, s + lookahead) && BestAt(win, s, base, c, prevLength, nice, best, start)
    requires len == Min(best, lookahead) && nice <= lookahead && len > prevLength
    requires forall x {:trigger x in c} :: x in c ==> base <= x < base + s
    ensures Repeats(data, base + s, s - start, len)
    ensures forall y {:trigger y in c} :: y in c && y > base + start ==>
              !Repeats(data, base + s, base + s - y, len)
              && !Repeats(data, base + s, base + s - y, Larger(nice, prevLength + 1))
  {
    AlikeRepeats(win, s, base, data, lookahead, start, len);
    forall y {:trigger y in c} | y in c && y > base + start
      ensures !Repeats(data, base + s, base + s - y, len)
              && !Repeats(data, base + s, base + s - y, Larger(nice, prevLength + 1))
    {
      NoLaterOne(win, s, base, data, lookahead, y - base, prevLength, nice, best, len);
    }
  }

  lemma {:induction false} NoneIsLonger(win: seq<byte>, s: nat, base: nat, data: seq<byte>, lookahead: nat, c: set<nat>,
                                        n: nat, best: nat, len: nat)
    requires Holds(win, base, data, s + lookahead) && len == Min(best, lookahead) && len < MAX_MATCH
    requires best > lookahead
             || forall x: nat {:trigger x in c} :: x in c && OneOfLatest(c, n, x) ==> NoLonger(win, s, x - base, best)
    requires forall x {:trigger x in c} :: x in c ==> base <= x < base + s
    ensures forall x: nat {:trigger x in c} :: x in c && OneOfLatest(c, n, x) ==>
              !Repeats(data, base + s, base + s - x, len + 1)
  {
    forall x: nat {:trigger x in c} | x in c && OneOfLatest(c, n, x)
      ensures !Repeats(data, base + s, base + s - x, len + 1)
    {
      if len < lookahead { AlikeRepeats(win, s, base, data, lookahead, x - base, len + 1); }
    }
  }

  lemma {:induction false} NoLaterOne(win: seq<byte>, s: nat, base: nat, data: seq<byte>, lookahead: nat, cur: nat,
                                      prevLength: nat, nice: nat, best: nat, len: nat)
    requires Holds(win, base, data, s + lookahead) && cur < s && len == Min(best, lookahead) && prevLength < len
    requires nice <= lookahead && !Alike(win, s, cur, best) && !Alike(win, s, cur, Larger(nice, prevLength + 1))
    ensures !Repeats(data, base + s, s - cur, len)
    ensures !Repeats(data, base + s, s - cur, Larger(nice, prevLength + 1))
  {
    AlikeRepeats(win, s, base, data, lookahead, cur, len);
    AlikeRepeats(win, s, base, data, lookahead, cur, Larger(nice, prevLength + 1));
    if best > lookahead { NotAlike(win, s, cur, Larger(nice, prevLength + 1), lookahead); }
  }

  /** How many candidates are tried; 0 stands for all. */
  function ChainLimit(prevLength: nat, goodMatch: nat, maxChain: nat): nat {
    if prevLength >= goodMatch then maxChain / 4 else maxChain
  }

  class Window {
    const wsize: nat
    const hc: Config
    const window: array<byte>
    const prev: array<nat>
    const head: array<nat>
    var insH: nat
    var strstart: nat
    var lookahead: nat
    var insert: nat
    var matchStart: int
    var blockStart: int        // where the current block begins, or negative when that has left the window
    ghost var base: nat        // absolute position of window[0]
    ghost var data: seq<byte>  // everything read so far
    ghost var ins: set<nat>    // absolute positions in the hash table

    ghost predicate Shaped() {
      && 512 <= wsize <= 32768 && Proper(hc) && window.Length == 2 * wsize && prev.Length == wsize
      && head.Length == Pow2(hc.bits)
      && prev != head && (window as object) != prev && (window as object) != head
    }

    /** The window holds the end of the data, and the hash table its inserted positions. */
    ghost predicate Valid()
      reads this`strstart, this`lookahead, this`insert, this`base, this`data, this`ins, window, prev, head
    {
      Shaped() && insert <= strstart && Consistent(hc, wsize, window[..], head[..], prev[..], base, data, ins, strstart,
                                                   lookahead)
    }

    /** Nothing from strstart - insert on has been inserted; the running hash is ready for strstart. */
    ghost predicate Ready()
      reads this`insH, this`strstart, this`lookahead, this`insert, this`base, this`data, this`ins, window, prev, head
    {
      && Valid() && insert < MIN_MATCH && (insert > 0 ==> lookahead + insert < MIN_MATCH)
         && (forall x {:trigger x in ins} :: x in ins ==> x + insert < base + strstart)
      && (lookahead >= MIN_MATCH ==> Rolls(hc, insH, data[base + strstart], data[base + strstart + 1]))
    }

    function MaxDist(): int {
      wsize - MIN_LOOKAHEAD
    }

    constructor (wbits: nat, hashBits: nat)
      requires 9 <= wbits <= 15 && 8 <= hashBits <= 16
      ensures Ready() && strstart == 0 && lookahead == 0 && insert == 0 && data == [] && base == 0 && fresh(window)
      ensures fresh(prev) && fresh(head)
      ensures wsize == Pow2(wbits) && blockStart == 0
    {
      wsize := Pow2(wbits);
      hc := Config(hashBits, (hashBits + MIN_MATCH - 1) / MIN_MATCH);
      window := new byte[2 * Pow2(wbits)](_ => 0);
      prev := new nat[Pow2(wbits)](_ => 0);
      head := new nat[Pow2(hashBits)](_ => NIL);
      insH, strstart, lookahead, insert, matchStart, blockStart := 0, 0, 0, 0, 0, 0;
      base, data, ins := 0, [], {};
      WindowSizes(wbits);
      new;
      EmptyTable(hc, wsize, window[..], head[..], prev[..]);
    }

    /** INSERT_STRING at str, a position after all inserted ones. */
    method InsertString(str: nat) returns (matchHead: nat)
      requires Valid() && str + MIN_MATCH <= strstart + lookahead && str <= strstart < str + wsize
      requires (forall x {:trigger x in ins} :: x in ins ==> x < base + str)
      requires Rolls(hc, insH, data[base + str], data[base + str + 1])
      modifies this`insH, this`ins, prev, head
      ensures Valid() && ins == old(ins) + {base + str} && Rolls(hc, insH, data[base + str + 1], data[base + str + 2])
      ensures matchHead != NIL ==> Earlier(hc, data, ins, base + matchHead, base + str)
      ensures Latest(hc, data, old(ins), base + matchHead, base + str)
    {
      ghost var h: seq<nat>, p: seq<nat> := head[..], prev[..];
      InsertedAt(hc, wsize, window[..], h, p, base, data, ins, strstart, lookahead, str, insH);
      insH := Update(hc, insH, window[str + (MIN_MATCH - 1)]);
      matchHead := head[insH];
      prev[Slot(str, wsize)] := matchHead;
      head[insH] := str;
      assert head[..] == h[insH := str] && prev[..] == p[Slot(str, wsize) := matchHead];
      ins := ins + {base + str};
    }

    /** Moves the upper half of the window to the lower one, and the hash table with it. */
    method SlideDown()
      requires Ready() && strstart >= wsize + MaxDist()
      modifies this`matchStart, this`strstart, this`blockStart, this`base, window, prev, head
      ensures Ready() && strstart == old(strstart) - wsize && matchStart == old(matchStart) - wsize
      ensures base == old(base) + wsize
      ensures blockStart == old(blockStart) - wsize
    {
      ghost var w, h, p := window[..], head[..], prev[..];
      forall i | 0 <= i < wsize {
        window[i] := window[wsize + i];
      }
      SlideTable(head);
      SlideTable(prev);
      SlidDown(hc, wsize, w, window[..], h, head[..], p, prev[..], base, data, ins, strstart, lookahead);
      matchStart, strstart, blockStart := matchStart - wsize, strstart - wsize, blockStart - wsize;
      base := base + wsize;
    }

    method SlideTable(t: array<nat>)
      requires t != prev || t != head
      modifies t
      ensures AllSlid(old(t[..]), t[..], wsize)
    {
      var n := t.Length;
      while n > 0
        invariant 0 <= n <= t.Length && (forall i :: n <= i < t.Length ==> t[i] == Slid(old(t[i]), wsize))
        invariant forall i :: 0 <= i < n ==> t[i] == old(t[i])
      {
        n := n - 1;
        t[n] := if t[n] >= wsize then t[n] - wsize else NIL;
      }
    }

    /** read_buf: appends input to the window, as much as fits. */
    method ReadBuf(input: seq<byte>, pos: nat) returns (pos': nat)
      requires Valid() && pos < |input| && strstart + lookahead < 2 * wsize
      modifies this`lookahead, this`data, window
      ensures Valid() && pos < pos' <= |input| && data == old(data) + input[pos..pos']
      ensures lookahead == old(lookahead) + (pos' - pos)
    {
      var more := 2 * wsize - lookahead - strstart;
      var n := if |input| - pos > more then more else |input| - pos;
      var at := strstart + lookahead;
      ghost var w, h, p, add := window[..], head[..], prev[..], input[pos..pos + n];
      forall i | at <= i < at + n {
        window[i] := input[pos + (i - at)];
      }
      assert head[..] == h && prev[..] == p;
      Appended(hc, wsize, w, window[..], h, p, base, data, ins, strstart, lookahead, add);
      lookahead, data, pos' := lookahead + n, data + add, pos + n;
    }

    /** Of the before strings left over when ins0 were inserted those with three bytes have been inserted. */
    ghost predicate Caught(ins0: set<nat>, before: nat)
      reads this`insert, this`ins, this`base, this`strstart, this`data
    {
      && insert <= before && Adds(ins0, ins, Abs() - before, Abs(), |data|)
      && (insert < before ==> Abs() - insert + MIN_MATCH - 1 <= |data|)
    }

    /** Inserts the strings left over from the last call, as soon as their three bytes are there. */
    method InitHash()
      requires Valid() && insert < MIN_MATCH
      requires forall x {:trigger x in ins} :: x in ins ==> x + insert < base + strstart
      modifies this`insH, this`insert, this`ins, prev, head
      ensures Ready() && Caught(old(ins), old(insert))
    {
      if lookahead + insert >= MIN_MATCH {
        var str := strstart - insert;
        insH := Update(hc, window[str], window[str + 1]);
        RollsFresh(hc, window[str], window[str + 1]);
        InsertRest(str);
      } else {
        AddsNone(ins, Abs() - insert, Abs(), |data|);
      }
    }

    /** The loop over the strings left over. */
    method InsertRest(str0: nat)
      requires Valid() && insert < MIN_MATCH && str0 == strstart - insert && lookahead + insert >= MIN_MATCH
      requires Rolls(hc, insH, data[base + str0], data[base + str0 + 1])
      requires forall x {:trigger x in ins} :: x in ins ==> x < base + str0
      modifies this`insH, this`insert, this`ins, prev, head
      ensures Ready() && Caught(old(ins), old(insert))
    {
      var str := str0;
      ghost var ins0, first := ins, base + str0;
      AddsNone(ins, first, first, |data|);
      while insert != 0 && lookahead + insert >= MIN_MATCH
        invariant LeftOver(str) && insert <= old(insert) && Adds(ins0, ins, first, base + str, |data|)
        invariant insert < old(insert) ==> lookahead + insert + 1 >= MIN_MATCH
        decreases insert
      {
        str := InsertOne(str, ins0, first);
      }
      if insert != 0 { AddsUpTo(ins0, ins, first, Abs() - insert, Abs(), |data|); }
    }

    /** The strings from str on are left to be inserted. */
    ghost predicate LeftOver(str: nat)
      reads this`insH, this`strstart, this`lookahead, this`insert, this`base, this`data, this`ins, window, prev, head
    {
      && Valid() && insert < MIN_MATCH && str == strstart - insert
      && (forall x {:trigger x in ins} :: x in ins ==> x < base + str)
      && (lookahead + insert >= MIN_MATCH ==> Rolls(hc, insH, data[base + str], data[base + str + 1]))
    }

    method InsertOne(str: nat, ghost ins0: set<nat>, ghost first: int) returns (str': nat)
      requires LeftOver(str) && insert != 0 && lookahead + insert >= MIN_MATCH
      requires Adds(ins0, ins, first, base + str, |data|) && first <= base + str
      modifies this`insH, this`insert, this`ins, prev, head
      ensures LeftOver(str') && str' == str + 1 && insert == old(insert) - 1
      ensures Adds(ins0, ins, first, base + str', |data|)
    {
      AddsOne(ins0, ins, first, base + str, |data|);
      var h := InsertString(str);
      str', insert := str + 1, insert - 1;
    }

    /** Positions relative to strstart, which a slide leaves alone. */
    ghost function Relative(): (int, int)
      reads this
    {
      (strstart - matchStart, strstart - blockStart)
    }

    /** The absolute position of strstart. */
    ghost function Abs(): nat
      reads this`base, this`strstart
    {
      base + strstart
    }

    /** One turn of fill_window's loop. */
    method FillOnce(input: seq<byte>, pos: nat) returns (pos': nat)
      requires Ready() && lookahead < MIN_LOOKAHEAD && pos <= |input|
      modifies this`insH, this`strstart, this`lookahead, this`insert, this`matchStart, this`blockStart, this`base,
          this`data, this`ins, window, prev, head
      ensures Ready() && pos <= pos' <= |input| && data == old(data) + input[pos..pos'] && strstart < wsize + MaxDist()
      ensures Abs() == old(Abs()) && Relative() == old(Relative()) && (pos < |input| ==> pos' > pos)
      ensures (old(strstart) >= 1 ==> strstart >= 1)
      ensures Caught(old(ins), old(insert))
    {
      if strstart >= wsize + MaxDist() {
        SlideDown();
      }
      pos' := pos;
      AddsNone(ins, Abs() - insert, Abs(), |data|);
      if pos < |input| {
        pos' := ReadMore(input, pos);
      }
    }

    /** Reads input and inserts what was left over. */
    method ReadMore(input: seq<byte>, pos: nat) returns (pos': nat)
      requires Ready() && pos < |input| && strstart + lookahead < 2 * wsize
      modifies this`insH, this`lookahead, this`insert, this`data, this`ins, window, prev, head
      ensures Ready() && pos < pos' <= |input| && data == old(data) + input[pos..pos'] && Caught(old(ins), old(insert))
    {
      pos' := ReadBuf(input, pos);
      InitHash();
    }

    /** fill_window */
    method FillWindow(input: seq<byte>, pos: nat) returns (pos': nat)
      requires Ready() && lookahead < MIN_LOOKAHEAD && pos <= |input|
      modifies this`insH, this`strstart, this`lookahead, this`insert, this`matchStart, this`blockStart, this`base,
          this`data, this`ins, window, prev, head
      ensures Ready() && pos <= pos' <= |input| && data == old(data) + input[pos..pos'] && strstart < wsize + MaxDist()
      ensures Abs() == old(Abs()) && Relative() == old(Relative()) && (lookahead >= MIN_LOOKAHEAD || pos' == |input|)
      ensures old(strstart) >= 1 ==> strstart >= 1
      ensures Adds(old(ins), ins, Abs() - old(insert), Abs(), |data|)
    {
      pos' := FillOnce(input, pos);
      while lookahead < MIN_LOOKAHEAD && pos' < |input|
        invariant Ready() && pos <= pos' <= |input| && data == old(data) + input[pos..pos']
        invariant strstart < wsize + MaxDist()
        invariant Abs() == old(Abs()) && Relative() == old(Relative()) && (old(strstart) >= 1 ==> strstart >= 1)
        invariant Caught(old(ins), old(insert))
        decreases |input| - pos'
      {
        pos' := FillMore(input, pos, pos', old(data), old(ins), old(insert));
      }
    }

    /** A further turn of fill_window's loop. */
    method FillMore(input: seq<byte>, ghost pos: nat, pos1: nat, ghost data0: seq<byte>, ghost ins0: set<nat>,
                    ghost insert0: nat) returns (pos': nat)
      requires Ready() && lookahead < MIN_LOOKAHEAD && pos <= pos1 < |input| && data == data0 + input[pos..pos1]
      requires Caught(ins0, insert0)
      modifies this`insH, this`strstart, this`lookahead, this`insert, this`matchStart, this`blockStart, this`base,
          this`data, this`ins, window, prev, head
      ensures Ready() && pos1 < pos' <= |input| && data == data0 + input[pos..pos'] && strstart < wsize + MaxDist()
      ensures Abs() == old(Abs()) && Relative() == old(Relative()) && (old(strstart) >= 1 ==> strstart >= 1)
      ensures Caught(ins0, insert0)
    {
      ghost var i, n, was := insert, |data|, ins;
      pos' := FillOnce(input, pos1);
      assert input[pos..pos'] == input[pos..pos1] + input[pos1..pos'];
      AddsFilled(ins0, was, ins, Abs() - insert0, Abs() - i, Abs(), n, |data|);
    }

    /** The bytes of the window. */
    ghost predicate Shows(win: seq<byte>)
      reads window
    {
      |win| == window.Length && forall i {:trigger window[i]} :: 0 <= i < |win| ==> window[i] == win[i]
    }

    /** The third byte is equal because the hashes are. */
    lemma {:induction false} ThirdToo(cur: nat)
      requires Valid() && lookahead >= MIN_MATCH && cur < strstart && strstart + MAX_MATCH < window.Length
      requires SameHash(hc, data, base + cur, Abs()) && window[cur] == window[strstart]
      requires window[cur + 1] == window[strstart + 1]
      ensures window[cur + 2] == window[strstart + 2]
    {
      ThirdAgrees(hc, data, base + cur, base + strstart);
    }

    /** Compares the strings at cur and strstart from their fourth byte on. */
    method Compare(cur: nat, ghost win: seq<byte>) returns (len: nat)
      requires cur < strstart && strstart + MAX_MATCH < window.Length && Shows(win) && window[cur] == window[strstart]
      requires window[cur + 1] == window[strstart + 1] && window[cur + 2] == window[strstart + 2]
      ensures MIN_MATCH <= len <= MAX_MATCH && Alike(win, strstart, cur, len)
      ensures len == MAX_MATCH || win[strstart + len] != win[cur + len]
    {
      len := 3;
      while len < MAX_MATCH && window[strstart + len] == window[cur + len]
        invariant 3 <= len <= MAX_MATCH && Alike(win, strstart, cur, len)
      {
        len := len + 1;
      }
    }

    /** A candidate that is on the chain of the current string and not too far back. */
    ghost predicate Candidate(cur: nat)
      reads this`strstart, this`base, this`data, this`ins
    {
      1 <= cur < strstart && strstart - cur <= MaxDist() && Earlier(hc, data, ins, base + cur, Abs())
    }

    /** Where longest_match may look. */
    ghost function Choice(hashHead: nat): set<nat>
      reads this`strstart, this`base, this`data, this`ins
    {
      Candidates(hc, data, ins, base, Abs(), MaxDist(), base + hashHead)
    }

    /** Tries one candidate. */
    method TryMatch(cur: nat, best0: nat, ghost win: seq<byte>) returns (best: nat)
      requires Valid() && lookahead >= MIN_MATCH && strstart + MAX_MATCH < window.Length && Candidate(cur)
      requires 1 <= best0 <= MAX_MATCH && Shows(win)
      modifies this`matchStart
      ensures best0 <= best <= MAX_MATCH && NoLonger(win, strstart, cur, best)
      ensures if best > best0 then matchStart == cur && Alike(win, strstart, cur, best)
              else matchStart == old(matchStart)
    {
      best := best0;
      if window[cur + best] == window[strstart + best] && window[cur + best - 1] == window[strstart + best - 1]
         && window[cur] == window[strstart] && window[cur + 1] == window[strstart + 1] {
        ThirdToo(cur);
        var len := Compare(cur, win);
        Differ(win, strstart, cur, len, Larger(best, len));
        if len > best {
          matchStart := cur;
          best := len;
        }
      } else {
        var k := if window[cur + best] != window[strstart + best] then best
                 else if window[cur + best - 1] != window[strstart + best - 1] then best - 1
                 else if window[cur] != window[strstart] then 0 else 1;
        Differ(win, strstart, cur, k, best);
      }
    }

    /** The next candidate on the chain, if it is within the limit: none is passed over. */
    method NextCandidate(cur: nat, limit: nat, ghost hashHead: nat, ghost c: set<nat>) returns (ok: bool, next: nat)
      requires Valid() && Candidate(cur) && (limit == if strstart > MaxDist() then strstart - MaxDist() else NIL)
      requires cur <= hashHead && c == Choice(hashHead)
      ensures ok ==> Candidate(next) && next < cur && base + next in c
      ensures forall y {:trigger y in c} :: y in c && y < base + cur ==>
                ok && y <= base + next
    {
      FollowLink(hc, wsize, head[..], prev[..], base, data, ins, base + strstart, cur);
      next := prev[Slot(cur, wsize)];
      ok := next > limit;
      if ok { EarlierStill(hc, data, ins, base + next, base + cur, base + strstart); }
      forall y {:trigger y in c} | y in c && y < base + cur
        ensures ok && y <= base + next
      {
        NoneSkipped(hc, wsize, head[..], prev[..], base, data, ins, base + strstart, cur, y, base + strstart);
      }
    }

    /** longest_match: among the candidates, of which at most maxChain or a quarter of it are tried, the longest match,
        or
        one of niceMatch bytes. */
    method LongestMatch(hashHead: nat, prevLength: nat, niceMatch: nat, goodMatch: nat, maxChain: nat)
      returns (len: nat)
      requires Valid() && lookahead >= MIN_MATCH && strstart + MAX_MATCH < window.Length && Candidate(hashHead)
      requires Latest(hc, data, ins - {Abs()}, base + hashHead, Abs())
      requires 1 <= prevLength <= MAX_MATCH
      modifies this`matchStart
      ensures len <= lookahead && (len >= prevLength || len == lookahead) && len <= MAX_MATCH
      ensures Longest(data, Abs(), Choice(hashHead), ChainLimit(prevLength, goodMatch, maxChain), prevLength,
                      Min(niceMatch, lookahead), len, base + matchStart)
      ensures len > prevLength ==>
                strstart - matchStart <= MaxDist() && Repeats(data, Abs(), strstart - matchStart, len)
    {
      var chain: int := if prevLength >= goodMatch then maxChain / 4 else maxChain;
      var best: nat, cur: nat, nice: nat := prevLength, hashHead,
          if niceMatch > lookahead then lookahead else niceMatch;
      var limit := if strstart > MaxDist() then strstart - MaxDist() else NIL;
      var going := true;
      ghost var win, c, most, n: nat := window[..], Choice(hashHead), ChainLimit(prevLength, goodMatch, maxChain), 1;
      Begins(hashHead, win, c, prevLength, nice);
      while going
        invariant Candidate(cur) && strstart == old(strstart) && cur <= hashHead && prevLength <= best <= MAX_MATCH
        invariant Valid() && Shows(win) && c == Choice(hashHead)
        invariant going ==> Searching(win, strstart, base, c, cur, n, prevLength, nice, best, matchStart)
        invariant going ==> n >= 1 && (most == 0 || n <= most) && chain == most - (n - 1)
        invariant !going ==> Searched(win, strstart, base, c, most, prevLength, nice, best, matchStart)
        decreases going, cur
      {
        going, cur, best, chain, n := Turn(cur, limit, nice, best, chain, hashHead, prevLength, most, n, win, c);
      }
      len := if best <= lookahead then best else lookahead;
      Ends(hashHead, win, c, most, prevLength, nice, best, len);
      NotFar(hashHead, most, prevLength, nice, len);
    }

    lemma {:induction false} NotFar(hashHead: nat, most: nat, prevLength: nat, nice: nat, len: nat)
      requires Candidate(hashHead)
      requires Longest(data, Abs(), Choice(hashHead), most, prevLength, nice, len, base + matchStart)
      ensures len > prevLength ==>
                strstart - matchStart <= MaxDist() && Repeats(data, Abs(), strstart - matchStart, len)
    {
    }

    /** At the head nothing has been tried. */
    lemma {:induction false} Begins(hashHead: nat, win: seq<byte>, c: set<nat>, prevLength: nat, nice: nat)
      requires Candidate(hashHead) && Latest(hc, data, ins - {Abs()}, base + hashHead, Abs()) && c == Choice(hashHead)
      requires prevLength <= MAX_MATCH
      ensures Searching(win, strstart, base, c, hashHead, 1, prevLength, nice, prevLength, matchStart)
    {
      HeadFirst(hashHead);
    }

    lemma {:induction false} Ends(hashHead: nat, win: seq<byte>, c: set<nat>, most: nat, prevLength: nat, nice: nat,
                                  best: nat, len: nat)
      requires Valid() && Shows(win) && Candidate(hashHead) && c == Choice(hashHead) && nice <= lookahead
      requires Latest(hc, data, ins - {Abs()}, base + hashHead, Abs())
      requires Searched(win, strstart, base, c, most, prevLength, nice, best, matchStart) && len == Min(best, lookahead)
      ensures Longest(data, Abs(), c, most, prevLength, nice, len, base + matchStart)
    {
      HeadFirst(hashHead);
      assert win == window[..];
      Conclude(win, strstart, base, data, lookahead, c, most, prevLength, nice, best, matchStart, len);
    }

    /** The head is the first candidate. */
    lemma {:induction false} HeadFirst(hashHead: nat)
      requires Candidate(hashHead) && Latest(hc, data, ins - {Abs()}, base + hashHead, Abs())
      ensures base + hashHead in Choice(hashHead) && |From(Choice(hashHead), base + hashHead)| == 1
      ensures forall x {:trigger x in Choice(hashHead)} :: x in Choice(hashHead) ==> base <= x <= base + hashHead
    {
      var c := Choice(hashHead);
      forall x {:trigger x in c} | x in c ensures base <= x <= base + hashHead { assert x in ins - {Abs()}; }
      assert From(c, base + hashHead) == {base + hashHead};
    }

    /** One turn of longest_match's loop. */
    method Turn(cur: nat, limit: nat, nice: nat, best: nat, chain: int, ghost hashHead: nat, ghost prevLength: nat,
                ghost most: nat, ghost n: nat, ghost win: seq<byte>, ghost c: set<nat>)
      returns (going: bool, cur': nat, best': nat, chain': int, ghost n': nat)
      requires Valid() && lookahead >= MIN_MATCH && strstart + MAX_MATCH < window.Length && Candidate(cur)
      requires cur <= hashHead && 1 <= best <= MAX_MATCH
      requires (limit == if strstart > MaxDist() then strstart - MaxDist() else NIL)
      requires Shows(win) && c == Choice(hashHead)
      requires Searching(win, strstart, base, c, cur, n, prevLength, nice, best, matchStart)
      requires n >= 1 && (most == 0 || n <= most) && chain == most - (n - 1)
      modifies this`matchStart
      ensures Candidate(cur') && cur' <= cur && best <= best' <= MAX_MATCH && (going ==> cur' < cur)
      ensures going ==> Searching(win, strstart, base, c, cur', n', prevLength, nice, best', matchStart)
      ensures going ==> n' == n + 1 && (most == 0 || n' <= most) && chain' == most - (n' - 1)
      ensures !going ==> Searched(win, strstart, base, c, most, prevLength, nice, best', matchStart)
    {
      ghost var start0 := matchStart;
      best' := TryMatch(cur, best, win);
      TriedOne(win, strstart, base, c, cur, n, most, prevLength, nice, best, start0, best', matchStart);
      going, cur', chain', n' := false, cur, chain, n;
      if best' <= best || best' < nice {
        going, cur', chain', n' := NextTurn(cur, limit, chain, hashHead, prevLength, nice, best', most, n, win, c);
      }
    }

    /** The rest of the turn: the next candidate, unless there is none or enough have been tried. */
    method NextTurn(cur: nat, limit: nat, chain: int, ghost hashHead: nat, ghost prevLength: nat, ghost nice: nat,
                    ghost best: nat, ghost most: nat, ghost n: nat, ghost win: seq<byte>, ghost c: set<nat>)
      returns (going: bool, cur': nat, chain': int, ghost n': nat)
      requires Valid() && Candidate(cur) && cur <= hashHead && c == Choice(hashHead)
      requires limit == if strstart > MaxDist() then strstart - MaxDist() else NIL
      requires n >= 1 && (most == 0 || n <= most) && chain == most - (n - 1)
      requires |From(c, base + cur)| == n && (best == prevLength || best < nice)
      requires Tried(win, strstart, base, c, cur - 1, prevLength, nice, best, matchStart)
      requires best > prevLength ==> OneOfLatest(c, most, base + matchStart)
                                     && |From(c, base + matchStart)| <= n
      ensures Candidate(cur') && cur' <= cur && (going ==> cur' < cur)
      ensures going ==> Searching(win, strstart, base, c, cur', n', prevLength, nice, best, matchStart)
      ensures going ==> n' == n + 1 && (most == 0 || n' <= most) && chain' == most - (n' - 1)
      ensures !going ==> Searched(win, strstart, base, c, most, prevLength, nice, best, matchStart)
    {
      going, cur', chain', n' := false, cur, chain, n;
      var ok, next := NextCandidate(cur, limit, hashHead, c);
      if ok {
        chain' := chain - 1;
        going := chain' != 0;
      }
      if going {
        GoOn(win, strstart, base, c, cur, next, n, prevLength, nice, best, matchStart);
        cur', n' := next, n + 1;
      } else {
        if !ok { NoneLeft(c, base + cur); }
        Stop(win, strstart, base, c, cur, n, most, prevLength, nice, best, matchStart);
      }
    }

    /** The string at strstart has been inserted if it has three bytes; the running hash is ready for the next one. */
    ghost predicate Inserted()
      reads this`insH, this`strstart, this`lookahead, this`insert, this`base, this`data, this`ins, window, prev, head
    {
      && Valid() && insert < MIN_MATCH && (insert > 0 ==> lookahead + insert < MIN_MATCH)
      && (forall x {:trigger x in ins} :: x in ins ==> if insert > 0 then x + insert < Abs() else x <= Abs())
      && (lookahead >= MIN_MATCH ==> Rolls(hc, insH, data[Abs() + 1], data[Abs() + 2]))
    }

    /** Inserts the string at strstart if it has three bytes. */
    method InsertHere() returns (hashHead: nat)
      requires Ready()
      modifies this`insH, this`ins, prev, head
      ensures Inserted() && Adds(old(ins), ins, Abs(), Abs() + 1, |data|)
      ensures (hashHead != NIL ==> lookahead >= MIN_MATCH && Earlier(hc, data, ins, base + hashHead, Abs()))
      ensures lookahead >= MIN_MATCH ==> Latest(hc, data, ins - {Abs()}, base + hashHead, Abs())
    {
      hashHead := NIL;
      AddsNone(ins, Abs(), Abs(), |data|);
      AddsOne(ins, ins, Abs(), Abs(), |data|);
      if lookahead >= MIN_MATCH {
        hashHead := InsertString(strstart);
        assert ins - {Abs()} == old(ins);
      }
    }

    /** strstart++, lookahead-- */
    method Advance()
      requires Inserted() && lookahead >= 1
      modifies this`strstart, this`lookahead
      ensures Ready() && strstart == old(strstart) + 1 && lookahead == old(lookahead) - 1
    {
      MoveOn(hc, wsize, head[..], prev[..], base, data, ins, base + strstart, base + strstart + 1);
      FullOn(hc, wsize, head[..], prev[..], base, data, ins, base + strstart, base + strstart + 1);
      strstart, lookahead := strstart + 1, lookahead - 1;
    }

    /** What the window holds between two positions before strstart. */
    lemma {:induction false} Contents(from: nat, to: nat)
      requires Valid() && from <= to <= strstart + lookahead
      ensures base + to <= |data| && to <= window.Length && window[from..to] == data[base + from..base + to]
    {
    }

    /** n positions, of which all but the first are inserted as far as they have three bytes. */
    method AdvanceInserting(n: nat)
      requires Inserted() && 1 <= n <= lookahead
      modifies this`strstart, this`lookahead, this`insH, this`ins, prev, head
      ensures Ready() && strstart == old(strstart) + n && lookahead == old(lookahead) - n
      ensures Adds(old(ins), ins, old(Abs()) + 1, Abs(), |data|)
    {
      var k := 1;
      AddsNone(ins, Abs() + 1, Abs() + 1, |data|);
      while k < n
        invariant Adds(old(ins), ins, old(Abs()) + 1, Abs() + 1, |data|)
        invariant 1 <= k <= n && Inserted() && strstart == old(strstart) + (k - 1)
        invariant lookahead == old(lookahead) - (k - 1)
      {
        Advance();
        ghost var was := ins;
        var h := InsertHere();
        AddsJoin(old(ins), was, ins, old(Abs()) + 1, Abs(), Abs() + 1, |data|);
        k := k + 1;
      }
      Advance();
    }

    /** n positions that are not inserted; the running hash starts anew. */
    method Skip(n: nat)
      requires Inserted() && 1 <= n <= lookahead && strstart + n + 1 < window.Length && insert == 0
      modifies this`strstart, this`lookahead, this`insH
      ensures Ready() && strstart == old(strstart) + n && lookahead == old(lookahead) - n
    {
      MoveOn(hc, wsize, head[..], prev[..], base, data, ins, base + strstart, base + strstart + n);
      FullOn(hc, wsize, head[..], prev[..], base, data, ins, base + strstart, base + strstart + n);
      strstart, lookahead := strstart + n, lookahead - n;
      Rehash();
    }

    /** The running hash of the two bytes at strstart, which is of use only when three bytes follow. */
    method Rehash()
      requires Valid() && strstart + 1 < window.Length
      modifies this`insH
      ensures Valid() && (lookahead >= MIN_MATCH ==> Rolls(hc, insH, data[base + strstart], data[base + strstart + 1]))
    {
      insH := Update(hc, window[strstart], window[strstart + 1]);
      RollsFresh(hc, window[strstart], window[strstart + 1]);
    }

    /** At the end of a call the last two strings are left to be inserted by the next one. */
    method LeaveRest()
      requires Ready() && lookahead == 0
      modifies this`insert
      ensures Ready() && insert == if strstart < MIN_MATCH - 1 then strstart else MIN_MATCH - 1
    {
      insert := if strstart < MIN_MATCH - 1 then strstart else MIN_MATCH - 1;
    }
  }
}
