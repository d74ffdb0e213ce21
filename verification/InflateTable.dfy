/** The decoding tables of inflate: a root table and sub-tables, filled in
    canonical order by inflate_table. */
module InflateTable {
  import opened Bits
  import opened Canonical
  import opened BackwardCodes
  import opened SubTables

  datatype Entry = Entry(op: nat, bits: nat, val: nat)

  datatype CodeType = CODES | LENS | DISTS

  const ENOUGH_LENS := 852
  const ENOUGH_DISTS := 592

  // The tables lbase, lext, dbase and dext, which are piecewise linear, by index.

  /** Base match length of length symbol 257 + i. */
  function LengthBase(i: nat): nat {
    if i < 8 then 3 + i else if i < 12 then 11 + 2 * (i - 8) else if i < 16 then 19 + 4 * (i - 12)
    else if i < 20 then 35 + 8 * (i - 16) else if i < 24 then 67 + 16 * (i - 20)
    else if i < 28 then 131 + 32 * (i - 24) else if i == 28 then 258 else 0
  }

  /** Operation of length symbol 257 + i: 16 and its extra bits; 286 and 287 are invalid. */
  function LengthOp(i: nat): nat {
    if i < 8 then 16 else if i < 28 then 16 + (i - 4) / 4 else if i == 28 then 16 else if i == 29 then 72 else 78
  }

  /** Base distance of distance symbol i. */
  function DistBase(i: nat): nat {
    if i < 4 then 1 + i else if i < 6 then 5 + 2 * (i - 4) else if i < 8 then 9 + 4 * (i - 6)
    else if i < 10 then 17 + 8 * (i - 8) else if i < 12 then 33 + 16 * (i - 10) else if i < 14 then 65 + 32 * (i - 12)
    else if i < 16 then 129 + 64 * (i - 14) else if i < 18 then 257 + 128 * (i - 16)
    else if i < 20 then 513 + 256 * (i - 18) else if i < 22 then 1025 + 512 * (i - 20)
    else if i < 24 then 2049 + 1024 * (i - 22) else if i < 26 then 4097 + 2048 * (i - 24)
    else if i < 28 then 8193 + 4096 * (i - 26) else if i < 30 then 16385 + 8192 * (i - 28) else 0
  }

  /** Operation of distance symbol i: 16 and its extra bits; 30 and 31 are invalid. */
  function DistOp(i: nat): nat {
    if i < 4 then 16 else if i < 30 then 16 + (i - 2) / 2 else 64
  }

  const END_OF_BLOCK := Entry(96, 0, 0)
  const INVALID := Entry(64, 1, 0)

  function MaxCodes(t: CodeType): nat {
    match t case CODES => 19 case LENS => 288 case DISTS => 32
  }

  /** The table entry for a symbol whose remaining code has the given bits. */
  function MakeEntry(t: CodeType, sym: nat, bits: nat): Entry
    requires sym < MaxCodes(t)
  {
    match t
    case CODES => Entry(0, bits, sym)
    case LENS =>
      if sym < 256 then Entry(0, bits, sym)
      else if sym == 256 then END_OF_BLOCK.(bits := bits)
      else Entry(LengthOp(sym - 257), bits, LengthBase(sym - 257))
    case DISTS => Entry(DistOp(sym), bits, DistBase(sym))
  }

  ghost predicate IsLink(e: Entry) {
    1 <= e.op < 16
  }

  lemma {:induction false} LeafIsNotLink(t: CodeType, sym: nat, bits: nat)
    requires sym < MaxCodes(t)
    ensures !IsLink(MakeEntry(t, sym, bits))
  {
  }

  /** `work` lists the coded symbols by length, and by symbol within a length. */
  ghost predicate Sorted(lens: seq<nat>, work: seq<nat>) {
    && |work| == |lens|
    && forall b, j :: IsCode(lens, b, j) ==> SortedAt(lens, work, b, j)
  }

  ghost predicate SortedAt(lens: seq<nat>, work: seq<nat>, b: nat, j: nat) {
    && Start(lens, b) + j < |work|
    && var s := work[Start(lens, b) + j]; s < |lens| && lens[s] == b && Cnt(lens, s, b) == j
  }

  ghost predicate SortedUpTo(lens: seq<nat>, work: seq<nat>, n: nat)
    requires n <= |lens|
  {
    forall b, j :: 1 <= b <= MAX_BITS && 0 <= j < Cnt(lens, n, b) ==> SortedAt(lens, work, b, j)
  }

  ghost predicate Counts(lens: seq<nat>, count: seq<nat>) {
    |count| == MAX_BITS + 1 && forall b :: 0 <= b <= MAX_BITS ==> count[b] == Total(lens, b)
  }

  method CountLengths(lens: seq<nat>) returns (count: seq<nat>)
    requires ValidLens(lens)
    ensures Counts(lens, count)
  {
    count := seq(MAX_BITS + 1, i => 0);
    for sym := 0 to |lens|
      invariant |count| == MAX_BITS + 1
      invariant forall b :: 0 <= b <= MAX_BITS ==> count[b] == Cnt(lens, sym, b)
    {
      count := count[lens[sym] := count[lens[sym]] + 1];
    }
  }

  /** Where each length starts in the sorted order. */
  method Offsets(lens: seq<nat>, count: seq<nat>) returns (offs: seq<nat>)
    requires Counts(lens, count)
    ensures |offs| == MAX_BITS + 1
    ensures forall b :: 1 <= b <= MAX_BITS ==> offs[b] == Start(lens, b)
  {
    offs := seq(MAX_BITS + 1, i => 0);
    for len := 1 to MAX_BITS
      invariant |offs| == MAX_BITS + 1
      invariant forall b :: 1 <= b <= len ==> offs[b] == Start(lens, b)
    {
      offs := offs[len + 1 := offs[len] + count[len]];
    }
  }

  method SortSymbols(lens: seq<nat>, count: seq<nat>) returns (work: seq<nat>)
    requires ValidLens(lens) && Counts(lens, count)
    ensures Sorted(lens, work)
  {
    var offs := Offsets(lens, count);
    work := seq(|lens|, i => 0);
    for sym := 0 to |lens|
      invariant |offs| == MAX_BITS + 1 && |work| == |lens|
      invariant forall b :: 1 <= b <= MAX_BITS ==> offs[b] == Start(lens, b) + Cnt(lens, sym, b)
      invariant SortedUpTo(lens, work, sym)
    {
      if lens[sym] != 0 {
        var l := lens[sym];
        CntMono(lens, sym, |lens|, l);
        StartBound(lens, l);
        PlaceNext(lens, work, sym);
        work := work[offs[l] := sym];
        offs := offs[l := offs[l] + 1];
      }
    }
  }

  /** Writing the next symbol of a length keeps every placement made before. */
  lemma {:induction false} PlaceNext(lens: seq<nat>, work: seq<nat>, sym: nat)
    requires sym < |lens| == |work| && 1 <= lens[sym] <= MAX_BITS
    requires Start(lens, lens[sym]) + Cnt(lens, sym, lens[sym]) < |work|
    requires SortedUpTo(lens, work, sym)
    ensures SortedUpTo(lens, work[Start(lens, lens[sym]) + Cnt(lens, sym, lens[sym]) := sym], sym + 1)
  {
    var l := lens[sym];
    var p := Start(lens, l) + Cnt(lens, sym, l);
    var work' := work[p := sym];
    forall b, j | 1 <= b <= MAX_BITS && 0 <= j < Cnt(lens, sym + 1, b)
      ensures SortedAt(lens, work', b, j)
    {
      if b == l && j == Cnt(lens, sym, l) {
      } else {
        assert SortedAt(lens, work, b, j);
        CntMono(lens, sym, |lens|, l);
        CntMono(lens, sym, |lens|, b);
        if b < l { OffMono(lens, b, l); } else if l < b { OffMono(lens, l, b); }
      }
    }
  }

  // ----- what it means that a code has been entered -----

  /** Every index of the 2^n table at `at` that begins with w holds e. */
  ghost predicate Holds(T: seq<Entry>, at: nat, n: nat, w: seq<bool>, e: Entry) {
    && |w| <= n && at + Pow2(n) <= |T|
    && forall i {:trigger Unpack(i, n)} :: 0 <= i < Pow2(n) && w <= Unpack(i, n) ==> T[at + i] == e
  }

  /** The root entry at the first bits of w links to a sub-table inside `used` that
      holds the entry for the rest of w. */
  ghost predicate PlacedSub(T: seq<Entry>, root: nat, used: nat, w: seq<bool>, leaf: Entry) {
    && |w| > root && Pow2(root) <= used <= |T|
    && var e := T[Pack(w[..root])];
    && IsLink(e) && e.bits == root && root + e.op <= MAX_BITS
    && Pow2(root) <= e.val && e.val + Pow2(e.op) <= used
    && Holds(T, e.val, e.op, w[root..], leaf.(bits := |w| - root))
  }

  ghost predicate Placed(T: seq<Entry>, root: nat, used: nat, w: seq<bool>, leaf: Entry) {
    if |w| <= root then Holds(T, 0, root, w, leaf.(bits := |w|)) else PlacedSub(T, root, used, w, leaf)
  }

  /** The entries of the table at `at` whose index begins with u have become e. */
  ghost predicate Filled(T: seq<Entry>, T': seq<Entry>, at: nat, curr: nat, u: seq<bool>, e: Entry) {
    && |T'| == |T| && at + Pow2(curr) <= |T| && |u| <= curr
    && forall k {:trigger T'[k]} :: 0 <= k < |T| ==>
         T'[k] == if at <= k < at + Pow2(curr) && u <= Unpack(k - at, curr) then e else T[k]
  }

  ghost predicate Comparable(u: seq<bool>, w: seq<bool>) {
    u <= w || w <= u
  }

  lemma {:induction false} CommonExtension(u: seq<bool>, w: seq<bool>, x: seq<bool>)
    ensures u <= x && w <= x ==> Comparable(u, w)
  {
    if u <= x && w <= x {
      if |u| <= |w| {
        assert u == x[..|u|] == w[..|u|];
      } else {
        assert w == x[..|w|] == u[..|w|];
      }
    }
  }

  /** Filling leaves alone what another table, or an incomparable string, holds. */
  lemma {:induction false} FillKeeps(T: seq<Entry>, T': seq<Entry>, at: nat, n: nat, u: seq<bool>, e: Entry,
                  at': nat, n': nat, w: seq<bool>, e': Entry)
    requires Filled(T, T', at, n, u, e) && Holds(T, at', n', w, e')
    requires at' + Pow2(n') <= at || (at' == at && n' == n && !Comparable(u, w))
    ensures Holds(T', at', n', w, e')
  {
    forall i | 0 <= i < Pow2(n') && w <= Unpack(i, n')
      ensures T'[at' + i] == e'
    {
      CommonExtension(u, w, Unpack(i, n'));
      assert at' + i - at' == i;
    }
  }

  lemma {:induction false} FillHolds(T: seq<Entry>, T': seq<Entry>, at: nat, n: nat, u: seq<bool>, e: Entry)
    requires Filled(T, T', at, n, u, e)
    ensures Holds(T', at, n, u, e)
  {
    forall i | 0 <= i < Pow2(n) && u <= Unpack(i, n)
      ensures T'[at + i] == e
    {
      assert at + i - at == i;
    }
  }

  lemma {:induction false} UpdateKeeps(T: seq<Entry>, k: nat, link: Entry, at: nat, n: nat, w: seq<bool>, e: Entry)
    requires Holds(T, at, n, w, e) && k < |T|
    requires k < at || (at <= k < at + Pow2(n) && !(w <= Unpack(k - at, n)))
    ensures Holds(T[k := link], at, n, w, e)
  {
    forall i | 0 <= i < Pow2(n) && w <= Unpack(i, n)
      ensures T[k := link][at + i] == e
    {
      assert at + i == k ==> k - at == i;
    }
  }

  lemma {:induction false} LinkKeeps(T: seq<Entry>, root: nat, used: nat, used': nat, w: seq<bool>, leaf: Entry,
                                     low: seq<bool>, link: Entry)
    requires Placed(T, root, used, w, leaf) && |low| == root
    requires Pow2(root) <= used <= used' <= |T|
    requires !(w <= low) && !(low <= w)
    ensures Placed(T[Pack(low) := link], root, used', w, leaf)
  {
    if |w| > root {
      if Pack(w[..root]) == Pack(low) {
        PackInjective(w[..root], low);
      }
      var e := T[Pack(w[..root])];
      UpdateKeeps(T, Pack(low), link, e.val, e.op, w[root..], leaf.(bits := |w| - root));
    } else {
      UnpackOfPack(low);
      UpdateKeeps(T, Pack(low), link, 0, root, w, leaf.(bits := |w|));
    }
  }

  // ----- filling -----

  /** In each aligned run of 2^|u| indices exactly one begins with u. */
  lemma {:induction false} OnePerBlock(q: nat, curr: nat, u: seq<bool>, x: nat)
    requires |u| <= curr && x < Pow2(curr)
    requires Shl(q, |u|) <= x < Shl(q, |u|) + Pow2(|u|)
    ensures u <= Unpack(x, curr) <==> x == Shl(q, |u|) + Pack(u)
  {
    SplitUnique(x - Shl(q, |u|), q, |u|);
    PrefixIsLow(x, curr, u);
  }

  lemma {:induction false} BlockHits(q: nat, curr: nat, u: seq<bool>)
    requires |u| <= curr && Shl(q, |u|) + Pow2(|u|) <= Pow2(curr)
    ensures forall x :: Shl(q, |u|) <= x < Shl(q, |u|) + Pow2(|u|) ==>
              (u <= Unpack(x, curr) <==> x == Shl(q, |u|) + Pack(u))
  {
    forall x | Shl(q, |u|) <= x < Shl(q, |u|) + Pow2(|u|)
      ensures u <= Unpack(x, curr) <==> x == Shl(q, |u|) + Pack(u)
    {
      OnePerBlock(q, curr, u, x);
    }
  }

  /** Enters `here` at every index of the 2^curr table at `start` that begins with u. */
  method FillEntries(table: array<Entry>, start: nat, curr: nat, h: nat, m: nat, here: Entry, ghost u: seq<bool>)
    requires m == |u| <= curr && h == Pack(u) && start + Pow2(curr) <= table.Length
    modifies table
    ensures forall k :: 0 <= k < table.Length ==>
              table[k] == if start <= k < start + Pow2(curr)
              && u <= Unpack(k - start, curr) then here else old(table[k])
  {
    var p, n := Pow2(m), Pow2(curr);
    ghost var q: nat := Pow2(curr - m);
    ShlPow2(curr - m, m);
    var fill := n;
    while fill != 0
      invariant fill == Shl(q, m) && fill <= n
      invariant forall k :: 0 <= k < table.Length ==>
                  table[k] == if start + fill <= k < start + n
                  && u <= Unpack(k - start, curr) then here else old(table[k])
    {
      ShlZero(m);
      ShlSum(q - 1, 1, m);
      ShlOne(m);
      q := q - 1;
      fill := fill - p;
      BlockHits(q, curr, u);
      table[start + h + fill] := here;
    }
  }

  // ----- sub-table sizes -----

  /** Every code that starts with `low` has at most root + curr bits. */
  ghost predicate SubFits(lens: seq<nat>, root: nat, curr: nat, low: seq<bool>) {
    forall b: nat, j: nat :: IsCode(lens, b, j) && b > root && Str(lens, b, j)[..root] == low ==> b <= root + curr
  }

  ghost predicate Remaining(lens: seq<nat>, count: seq<nat>, len: nat, j: nat) {
    && |count| == MAX_BITS + 1 && 1 <= len <= MAX_BITS && j <= Total(lens, len) && count[len] == Total(lens, len) - j
    && forall b :: len < b <= MAX_BITS ==> count[b] == Total(lens, b)
  }

  /** Bits of the sub-table that starts with the aligned code (len, j). */
  method SubTableBits(lens: seq<nat>, count: seq<nat>, len: nat, ghost j: nat, root: nat, max: nat, ghost q: nat)
    returns (curr: nat)
    requires Fits(lens) && IsMax(lens, max) && root < len <= max && IsCode(lens, len, j)
    requires Remaining(lens, count, len, j)
    requires First(lens, len) + j == Shl(q, len - root) && q < Pow2(root)
    ensures len - root <= curr <= max - root
    ensures SubSize(lens, root, len, j, q, curr)
  {
    curr := len - root;
    var left: int := Pow2(curr);
    ShlSum(q, 1, curr);
    ShlOne(curr);
    while curr + root < max
      invariant Sized(lens, root, len, j, max, q, curr, left)
    {
      left := left - count[curr + root];
      if left <= 0 {
        SizedEnough(lens, root, len, j, max, q, curr, left + count[curr + root]);
        return;
      }
      SizedMore(lens, root, len, j, max, q, curr, left + count[curr + root], left);
      curr := curr + 1;
      left := 2 * left;
    }
    SizedAtMax(lens, root, len, j, max, q, curr, left);
  }

  /** The size of a sub-table that starts with the aligned code (len, j). */
  ghost predicate SubSize(lens: seq<nat>, root: nat, len: nat, j: nat, q: nat, curr: nat) {
    && root < len && 1 <= curr && SubFits(lens, root, curr, Big(q, root))
    && (len < root + curr ==> Unfilled(lens, root, curr, q))
    && (Complete(lens) ==>
          Spent(lens, root, len, j) + Pow2(curr) <= LongCodes(lens, root, root + curr) + Repeated(lens, root, curr - 1))
  }

  lemma {:induction false} SizedEnough(lens: seq<nat>, root: nat, len: nat, j: nat, max: nat, q: nat, curr: nat,
                                       left: int)
    requires Fits(lens) && q < Pow2(root) && Sized(lens, root, len, j, max, q, curr, left)
    requires left <= Total(lens, root + curr) - if curr + root == len then j else 0
    ensures SubSize(lens, root, len, j, q, curr)
  {
    NothingLonger(lens, root, curr, q);
  }

  lemma {:induction false} SizedAtMax(lens: seq<nat>, root: nat, len: nat, j: nat, max: nat, q: nat, curr: nat,
                                      left: int)
    requires Fits(lens) && IsMax(lens, max) && q < Pow2(root) && Sized(lens, root, len, j, max, q, curr, left)
    requires root + curr == max
    ensures SubSize(lens, root, len, j, q, curr)
  {
    NothingPastMax(lens, root, curr, max, Big(q, root));
    if Complete(lens) { FilledAtMax(lens, root, curr, max, q); }
  }

  /** A sub-table of curr bits has left entries left after the codes of fewer than root + curr bits. */
  ghost predicate Sized(lens: seq<nat>, root: nat, len: nat, j: nat, max: nat, q: nat, curr: nat, left: int) {
    && 1 <= len - root <= curr <= max - root && 0 < left <= Pow2(curr)
    && left == Shl(q + 1, curr) - First(lens, curr + root) - (if curr + root == len then j else 0)
    && Spent(lens, root, len, j) + Pow2(curr) - left
       == Spent(lens, root, root + curr, if curr + root == len then j else 0)
    && (len < root + curr ==> Unfilled(lens, root, curr, q))
  }

  lemma {:induction false} SizedMore(lens: seq<nat>, root: nat, len: nat, j: nat, max: nat, q: nat, curr: nat,
                                     left: int, left': int)
    requires Sized(lens, root, len, j, max, q, curr, left) && curr + root < max
    requires left' == left - (Total(lens, root + curr) - if curr + root == len then j else 0) && 0 < left' <= left
    ensures Sized(lens, root, len, j, max, q, curr + 1, 2 * left')
  {
    Grows(lens, root, curr, q, left');
  }

  /** The longest codes fill every sub-table. */
  lemma {:induction false} FilledAtMax(lens: seq<nat>, root: nat, curr: nat, max: nat, q: nat)
    requires Complete(lens) && IsMax(lens, max) && root + curr == max && q < Pow2(root)
    ensures Shl(q + 1, curr) <= First(lens, max) + Total(lens, max)
  {
    var m: nat :| m == MAX_BITS;
    assert ExhaustedAt(lens, m);
    ExhaustedAtMax(lens, max, m);
    ShlMono(q + 1, Pow2(root), curr);
    ShlPow2(root, curr);
  }

  lemma {:induction false} NothingPastMax(lens: seq<nat>, root: nat, curr: nat, max: nat, low: seq<bool>)
    requires IsMax(lens, max) && root + curr == max
    ensures SubFits(lens, root, curr, low)
  {
    forall b: nat, j: nat | IsCode(lens, b, j)
      ensures b <= max
    {
      assert b <= max || NoCode(lens, b);
    }
  }

  lemma {:induction false} NothingLonger(lens: seq<nat>, root: nat, curr: nat, q: nat)
    requires Fits(lens) && q < Pow2(root) && 1 <= curr
    requires Shl(q + 1, curr) <= First(lens, root + curr) + Total(lens, root + curr)
    ensures SubFits(lens, root, curr, Big(q, root))
  {
    forall b: nat, j: nat | IsCode(lens, b, j) && b > root + curr
      ensures Str(lens, b, j)[..root] != Big(q, root)
    {
      CodeFits(lens, b, j);
      LongerIsLater(lens, root, curr, q, b, First(lens, b) + j);
      NotPrefix(q, root, b - root, First(lens, b) + j);
    }
  }

  lemma {:induction false} LongerIsLater(lens: seq<nat>, root: nat, curr: nat, q: nat, b: nat, c: nat)
    requires 1 <= curr && root + curr < b
    requires First(lens, b) <= c < Pow2(b)
    requires Shl(q + 1, curr) <= First(lens, root + curr) + Total(lens, root + curr)
    ensures q < Shr(c, b - root) < Pow2(root)
  {
    var d := b - root - curr;
    LongerCodesFollow(lens, root + curr, d, c);
    LaterQuotient(q, curr, c, d);
    ShrBound(c, b - root, root);
  }

  lemma {:induction false} LaterQuotient(q: nat, m: nat, c: nat, d: nat)
    requires Shl(q + 1, m) <= Shr(c, d)
    ensures q < Shr(c, d + m)
  {
    ShrMono(Shl(q + 1, m), Shr(c, d), m);
    SplitUnique(0, q + 1, m);
    ShrShr(c, d, m);
  }

  // ----- one step of canonical order -----

  ghost predicate Earlier(b': nat, j': nat, b: nat, j: nat) {
    b' < b || (b' == b && j' < j)
  }

  /** The code (b, j) held backwards. */
  function Backward(lens: seq<nat>, b: nat, j: nat): nat {
    Pack(Str(lens, b, j))
  }

  lemma {:induction false} NextBackward(lens: seq<nat>, b: nat, j: nat, b2: nat, j2: nat)
    requires Follows(lens, b, j, b2, j2)
    ensures Pack(Successor(Str(lens, b, j))) == Backward(lens, b2, j2)
  {
    NextNumber(lens, b, j, b2, j2);
    SuccessorCounts(First(lens, b) + j, b);
    PackZeros(First(lens, b) + j + 1, b, b2 - b);
  }

  lemma {:induction false} HeadString(lens: seq<nat>, root: nat, b: nat, j: nat)
    requires root <= b
    ensures Str(lens, b, j)[..root] == Big(Head(lens, root, b, j), root)
  {
    BigPrefix(First(lens, b) + j, root, b - root);
  }

  /** Codes in canonical order have non-decreasing heads. */
  lemma {:induction false} HeadsGrow(lens: seq<nat>, root: nat, b: nat, j: nat, b2: nat, j2: nat)
    requires Fits(lens) && IsCode(lens, b, j) && IsCode(lens, b2, j2)
    requires root < b && !Earlier(b2, j2, b, j)
    ensures Head(lens, root, b, j) <= Head(lens, root, b2, j2)
  {
    CodeFits(lens, b2, j2);
    if b == b2 {
      ShrMono(First(lens, b) + j, First(lens, b) + j2, b - root);
    } else {
      HeadsGrowLonger(lens, root, b, First(lens, b) + j, b2, First(lens, b2) + j2);
    }
  }

  lemma {:induction false} HeadsGrowLonger(lens: seq<nat>, root: nat, b: nat, c: nat, b2: nat, c2: nat)
    requires 1 <= b && root < b < b2 && c < First(lens, b) + Total(lens, b) && First(lens, b2) <= c2 < Pow2(b2)
    ensures Shr(c, b - root) <= Shr(c2, b2 - root)
  {
    LongerCodesFollow(lens, b, b2 - b, c2);
    ShrMono(c, Shr(c2, b2 - b), b - root);
    ShrShr(c2, b2 - b, b - root);
  }

  /** A code whose head differs from the one before it is the first with that head. */
  lemma {:induction false} NewHeadAligned(lens: seq<nat>, root: nat, b: nat, j: nat, b2: nat, j2: nat)
    requires Follows(lens, b, j, b2, j2) && root < b2
    requires root < b ==> Head(lens, root, b, j) != Head(lens, root, b2, j2)
    ensures First(lens, b2) + j2 == Shl(Head(lens, root, b2, j2), b2 - root)
  {
    NextNumber(lens, b, j, b2, j2);
    if b <= root {
      AlignedBelow(First(lens, b) + j + 1, root - b, b2 - root);
    } else {
      AlignedAbove(First(lens, b) + j, b - root, b2 - b);
    }
  }

  lemma {:induction false} AlignedBelow(c: nat, m: nat, n: nat)
    ensures Shl(c, m + n) == Shl(Shr(Shl(c, m + n), n), n)
  {
    ShlShl(c, m, n);
    SplitUnique(0, Shl(c, m), n);
  }

  lemma {:induction false} AlignedAbove(c: nat, n: nat, d: nat)
    requires Shr(c, n) != Shr(Shl(c + 1, d), n + d)
    ensures Shl(c + 1, d) == Shl(Shr(Shl(c + 1, d), n + d), n + d)
  {
    SplitUnique(0, c + 1, d);
    ShrShr(Shl(c + 1, d), d, n);
    NextQuotient(c, n);
    ShlShl(Shr(c + 1, n), n, d);
  }

  lemma {:induction false} NextQuotient(x: nat, n: nat)
    requires Shr(x, n) != Shr(x + 1, n)
    ensures x + 1 == Shl(Shr(x + 1, n), n)
  {
    if n != 0 {
      assert x % 2 == 1 && (x + 1) / 2 == x / 2 + 1;
      NextQuotient(x / 2, n - 1);
    }
  }

  // ----- all codes entered so far -----

  ghost predicate PlacedCode(T: seq<Entry>, lens: seq<nat>, leaves: seq<Entry>, root: nat, used: nat, b: nat, j: nat)
  {
    && Start(lens, b) + j < |leaves|
    && Placed(T, root, used, Str(lens, b, j), leaves[Start(lens, b) + j])
  }

  /** Every code before (b, j) has been entered. */
  ghost predicate AllPlaced(T: seq<Entry>, lens: seq<nat>, leaves: seq<Entry>, root: nat, used: nat, b: nat, j: nat)
  {
    forall b': nat, j': nat :: IsCode(lens, b', j') && Earlier(b', j', b, j) ==>
      PlacedCode(T, lens, leaves, root, used, b', j')
  }

  /** Entered codes with another head than `low` link to sub-tables that end by `next`. */
  ghost predicate Apart(T: seq<Entry>, lens: seq<nat>, root: nat, next: nat, low: seq<bool>, b: nat, j: nat) {
    forall b': nat, j': nat :: IsCode(lens, b', j') && Earlier(b', j', b, j) && b' > root ==>
      ApartCode(T, lens, root, next, low, b', j')
  }

  ghost predicate ApartCode(T: seq<Entry>, lens: seq<nat>, root: nat, next: nat, low: seq<bool>, b: nat, j: nat)
  {
    && root <= b && Pow2(root) <= |T|
    && var u := Str(lens, b, j)[..root];
    (u != low ==> T[Pack(u)].val + Pow2(T[Pack(u)].op) <= next)
  }

  lemma {:induction false} CodesIncomparable(lens: seq<nat>, b: nat, j: nat, b': nat, j': nat)
    requires Fits(lens) && IsCode(lens, b, j) && IsCode(lens, b', j') && Earlier(b', j', b, j)
    ensures !Comparable(Str(lens, b, j), Str(lens, b', j'))
  {
    if Str(lens, b, j) <= Str(lens, b', j') { PrefixFree(lens, b, j, b', j'); }
    if Str(lens, b', j') <= Str(lens, b, j) { PrefixFree(lens, b', j', b, j); }
  }

  lemma {:induction false} FillRoot(T: seq<Entry>, T': seq<Entry>, lens: seq<nat>, leaves: seq<Entry>, root: nat,
                                    used: nat, b: nat, j: nat)
    requires Fits(lens) && IsCode(lens, b, j) && b <= root && Start(lens, b) + j < |leaves|
    requires AllPlaced(T, lens, leaves, root, used, b, j)
    requires Filled(T, T', 0, root, Str(lens, b, j), leaves[Start(lens, b) + j].(bits := b))
    ensures AllPlaced(T', lens, leaves, root, used, b, j + 1)
  {
    forall b': nat, j': nat | IsCode(lens, b', j') && Earlier(b', j', b, j + 1)
      ensures PlacedCode(T', lens, leaves, root, used, b', j')
    {
      if b' != b || j' != j {
        assert PlacedCode(T, lens, leaves, root, used, b', j');
        FillRootKeeps(T, T', lens, leaves, root, used, b, j, b', j');
      } else {
        FillHolds(T, T', 0, root, Str(lens, b, j), leaves[Start(lens, b) + j].(bits := b));
      }
    }
  }

  lemma {:induction false} FillRootKeeps(T: seq<Entry>, T': seq<Entry>, lens: seq<nat>, leaves: seq<Entry>, root: nat,
                                         used: nat,
                                         b: nat, j: nat, b': nat, j': nat)
    requires Fits(lens) && IsCode(lens, b, j) && b <= root && Start(lens, b) + j < |leaves|
    requires IsCode(lens, b', j') && Earlier(b', j', b, j) && PlacedCode(T, lens, leaves, root, used, b', j')
    requires Filled(T, T', 0, root, Str(lens, b, j), leaves[Start(lens, b) + j].(bits := b))
    ensures PlacedCode(T', lens, leaves, root, used, b', j')
  {
    CodesIncomparable(lens, b, j, b', j');
    FillKeeps(T, T', 0, root, Str(lens, b, j), leaves[Start(lens, b) + j].(bits := b),
              0, root, Str(lens, b', j'), leaves[Start(lens, b') + j'].(bits := b'));
  }

  /** The state while the sub-table of the code (b, j) is being filled. */
  ghost predicate InSub(T: seq<Entry>, lens: seq<nat>, root: nat, curr: nat, next: nat, used: nat, b: nat, j: nat) {
    && root < b && b - root <= curr && root + curr <= MAX_BITS
    && Pow2(root) <= next && next + Pow2(curr) == used <= |T|
    && var low := Str(lens, b, j)[..root];
    && T[Pack(low)] == Entry(curr, root, next)
    && SubFits(lens, root, curr, low)
    && Apart(T, lens, root, next, low, b, j)
  }

  lemma {:induction false} FillSub(T: seq<Entry>, T': seq<Entry>, lens: seq<nat>, leaves: seq<Entry>,
                root: nat, curr: nat, next: nat, used: nat, b: nat, j: nat)
    requires Fits(lens) && IsCode(lens, b, j) && Start(lens, b) + j < |leaves| && 1 <= root
    requires AllPlaced(T, lens, leaves, root, used, b, j) && InSub(T, lens, root, curr, next, used, b, j)
    requires Filled(T, T', next, curr, Str(lens, b, j)[root..], leaves[Start(lens, b) + j].(bits := b - root))
    ensures AllPlaced(T', lens, leaves, root, used, b, j + 1)
  {
    forall b': nat, j': nat | IsCode(lens, b', j') && Earlier(b', j', b, j + 1)
      ensures PlacedCode(T', lens, leaves, root, used, b', j')
    {
      if b' != b || j' != j {
        FillSubKeeps(T, T', lens, leaves, root, curr, next, used, b, j, b', j');
      } else {
        FillSubNew(T, T', lens, leaves, root, curr, next, used, b, j);
      }
    }
  }

  lemma {:induction false} FillSubNew(T: seq<Entry>, T': seq<Entry>, lens: seq<nat>, leaves: seq<Entry>,
                   root: nat, curr: nat, next: nat, used: nat, b: nat, j: nat)
    requires IsCode(lens, b, j) && Start(lens, b) + j < |leaves| && 1 <= root
    requires InSub(T, lens, root, curr, next, used, b, j)
    requires Filled(T, T', next, curr, Str(lens, b, j)[root..], leaves[Start(lens, b) + j].(bits := b - root))
    ensures PlacedCode(T', lens, leaves, root, used, b, j)
  {
    NewSubPlaced(T, T', root, curr, next, used, Str(lens, b, j), leaves[Start(lens, b) + j]);
  }

  lemma {:induction false} FillSubKeeps(T: seq<Entry>, T': seq<Entry>, lens: seq<nat>, leaves: seq<Entry>,
                     root: nat, curr: nat, next: nat, used: nat, b: nat, j: nat, b': nat, j': nat)
    requires Fits(lens) && IsCode(lens, b, j) && Start(lens, b) + j < |leaves|
    requires InSub(T, lens, root, curr, next, used, b, j)
    requires Filled(T, T', next, curr, Str(lens, b, j)[root..], leaves[Start(lens, b) + j].(bits := b - root))
    requires IsCode(lens, b', j') && Earlier(b', j', b, j) && PlacedCode(T, lens, leaves, root, used, b', j')
    ensures PlacedCode(T', lens, leaves, root, used, b', j')
  {
    var w, w' := Str(lens, b, j), Str(lens, b', j');
    if b' > root {
      assert ApartCode(T, lens, root, next, w[..root], b', j');
      if w'[..root] == w[..root] {
        CodesIncomparable(lens, b, j, b', j');
        TailsIncomparable(w, w', root);
      }
      var l := T[Pack(w'[..root])];
      assert T'[Pack(w'[..root])] == l;
      FillKeeps(T, T', next, curr, w[root..], leaves[Start(lens, b) + j].(bits := b - root),
                l.val, l.op, w'[root..], leaves[Start(lens, b') + j'].(bits := b' - root));
    } else {
      FillKeeps(T, T', next, curr, w[root..], leaves[Start(lens, b) + j].(bits := b - root),
                0, root, w', leaves[Start(lens, b') + j'].(bits := b'));
    }
  }

  lemma {:induction false} TailsIncomparable(w: seq<bool>, w': seq<bool>, root: nat)
    requires root <= |w| && root <= |w'| && w[..root] == w'[..root] && !Comparable(w, w')
    ensures !Comparable(w[root..], w'[root..])
  {
    assert w == w[..root] + w[root..];
    assert w' == w'[..root] + w'[root..];
  }

  lemma {:induction false} NewSubPlaced(T: seq<Entry>, T': seq<Entry>, root: nat, curr: nat, next: nat, used: nat,
                                        w: seq<bool>, leaf: Entry)
    requires root < |w| <= root + curr <= MAX_BITS && 1 <= root
    requires Pow2(root) <= next && next + Pow2(curr) == used <= |T|
    requires T[Pack(w[..root])] == Entry(curr, root, next)
    requires Filled(T, T', next, curr, w[root..], leaf.(bits := |w| - root))
    ensures PlacedSub(T', root, used, w, leaf)
  {
    FillHolds(T, T', next, curr, w[root..], leaf.(bits := |w| - root));
    assert T'[Pack(w[..root])] == Entry(curr, root, next);
  }

  lemma {:induction false} NextCode(T: seq<Entry>, lens: seq<nat>, leaves: seq<Entry>, root: nat, used: nat,
                 b: nat, j: nat, b2: nat, j2: nat)
    requires AllPlaced(T, lens, leaves, root, used, b, j + 1) && Follows(lens, b, j, b2, j2)
    ensures AllPlaced(T, lens, leaves, root, used, b2, j2)
  {
    forall b': nat, j': nat | IsCode(lens, b', j') && Earlier(b', j', b2, j2)
      ensures Earlier(b', j', b, j + 1)
    {
      assert !(b < b' < b2) || NoCode(lens, b');
    }
  }

  /** Starting a sub-table for a new head. */
  lemma {:induction false} NewSub(T: seq<Entry>, lens: seq<nat>, leaves: seq<Entry>, root: nat, curr: nat, next: nat,
                                  used: nat,
               b: nat, j: nat, b2: nat, j2: nat)
    requires Fits(lens) && Follows(lens, b, j, b2, j2) && 1 <= root < b2
    requires root < b ==> Head(lens, root, b, j) != Head(lens, root, b2, j2)
    requires AllPlaced(T, lens, leaves, root, next, b2, j2)
    requires Pow2(root) <= next && next + Pow2(curr) == used <= |T|
    requires b2 - root <= curr && root + curr <= MAX_BITS
    requires SubFits(lens, root, curr, Str(lens, b2, j2)[..root])
    ensures var T' := T[Pack(Str(lens, b2, j2)[..root]) := Entry(curr, root, next)];
            AllPlaced(T', lens, leaves, root, used, b2, j2) && InSub(T', lens, root, curr, next, used, b2, j2)
  {
    var w2 := Str(lens, b2, j2);
    var low := w2[..root];
    var link := Entry(curr, root, next);
    var T' := T[Pack(low) := link];
    forall b': nat, j': nat | IsCode(lens, b', j') && Earlier(b', j', b2, j2)
      ensures PlacedCode(T', lens, leaves, root, used, b', j')
      ensures b' > root ==> ApartCode(T', lens, root, next, low, b', j')
    {
      assert PlacedCode(T, lens, leaves, root, next, b', j');
      var w' := Str(lens, b', j');
      CodesIncomparable(lens, b2, j2, b', j');
      assert !(w' <= low);
      if b' > root {
        NewHeadDiffers(lens, root, b, j, b2, j2, b', j');
        if Pack(w'[..root]) == Pack(low) { PackInjective(w'[..root], low); }
      }
      LinkKeeps(T, root, next, used, w', leaves[Start(lens, b') + j'], low, link);
    }
  }

  lemma {:induction false} NewHeadDiffers(lens: seq<nat>, root: nat, b: nat, j: nat, b2: nat, j2: nat, b': nat, j': nat)
    requires Fits(lens) && Follows(lens, b, j, b2, j2) && root < b2
    requires root < b ==> Head(lens, root, b, j) != Head(lens, root, b2, j2)
    requires IsCode(lens, b', j') && Earlier(b', j', b2, j2) && b' > root
    ensures Str(lens, b', j')[..root] != Str(lens, b2, j2)[..root]
  {
    assert !(b < b' < b2) || NoCode(lens, b');
    HeadsGrow(lens, root, b', j', b, j);
    HeadsGrow(lens, root, b, j, b2, j2);
    HeadString(lens, root, b', j');
    HeadString(lens, root, b2, j2);
    HeadBound(lens, root, b', j');
    HeadBound(lens, root, b2, j2);
    if Str(lens, b', j')[..root] == Str(lens, b2, j2)[..root] {
      BigInjective(Head(lens, root, b', j'), Head(lens, root, b2, j2), root);
    }
  }

  lemma {:induction false} HeadBound(lens: seq<nat>, root: nat, b: nat, j: nat)
    requires Fits(lens) && IsCode(lens, b, j) && root <= b
    ensures Head(lens, root, b, j) < Pow2(root)
  {
    CodeFits(lens, b, j);
    ShrBound(First(lens, b) + j, b - root, root);
  }

  // ----- inflate_table -----

  /** No symbols, or no over-subscription and nothing missing, except that a lone
      one-bit code is allowed outside the code length code. */
  ghost predicate Acceptable(t: CodeType, lens: seq<nat>) {
    || NoSymbols(lens)
    || (Fits(lens) && (Complete(lens) || (t != CODES && IsMax(lens, 1))))
  }

  ghost predicate NoSymbols(lens: seq<nat>) {
    forall b: nat :: 1 <= b <= MAX_BITS ==> NoCode(lens, b)
  }

  /** Every symbol's code leads to its entry. */
  ghost predicate Decodes(T: seq<Entry>, t: CodeType, lens: seq<nat>, root: nat) {
    && 1 <= root <= MAX_BITS && |lens| <= MaxCodes(t)
    && forall s: nat {:trigger DecodesSymbol(T, t, lens, root, s)} ::
         s < |lens| && lens[s] != 0 ==> DecodesSymbol(T, t, lens, root, s)
  }

  ghost predicate DecodesSymbol(T: seq<Entry>, t: CodeType, lens: seq<nat>, root: nat, s: nat) {
    s < |lens| <= MaxCodes(t) && Placed(T, root, |T|, CodeString(lens, s), MakeEntry(t, s, 0))
  }

  method CheckLengths(lens: seq<nat>, count: seq<nat>) returns (left: int)
    requires Counts(lens, count)
    ensures left >= 0 <==> Fits(lens)
    ensures left == 0 <==> Complete(lens)
  {
    left := 1;
    var len: nat := 1;
    assert Pow2(1) == 2;
    while len <= MAX_BITS
      invariant 1 <= len <= MAX_BITS + 1 && left >= 0
      invariant 2 * left == Pow2(len) - First(lens, len)
      invariant forall b: nat :: 1 <= b < len ==> FitsAt(lens, b)
      invariant len > 1 ==> left == Pow2(len - 1) - First(lens, len - 1) - Total(lens, len - 1)
    {
      left := 2 * left - count[len];
      if left < 0 {
        assert !FitsAt(lens, len);
        if Complete(lens) { CompleteFits(lens); }
        return;
      }
      assert FitsAt(lens, len);
      len := len + 1;
    }
    assert len - 1 == MAX_BITS;
    assert left == 0 <==> ExhaustedAt(lens, len - 1);
  }

  /** Where the code (len, j) goes: the root table, or the open sub-table. */
  ghost predicate AtTable(T: seq<Entry>, lens: seq<nat>, root: nat, curr: nat, next: nat, drop: nat, used: nat,
                          len: nat, j: nat)
  {
    if len <= root then drop == 0 && curr == root && next == 0 && used == Pow2(root) <= |T|
    else drop == root && InSub(T, lens, root, curr, next, used, len, j)
  }

  method FillTable(table: array<Entry>, base: nat, next: nat, curr: nat, h: nat, m: nat, here: Entry,
                   ghost u: seq<bool>)
    requires m == |u| <= curr && h == Pack(u) && base + next + Pow2(curr) <= table.Length
    modifies table
    ensures Filled(old(table[base..]), table[base..], next, curr, u, here)
    ensures forall k ::
              0 <= k < table.Length && !(base + next <= k < base + next + Pow2(curr)) ==> table[k] == old(table[k])
  {
    ghost var T := table[base..];
    FillEntries(table, base + next, curr, h, m, here, u);
    ghost var T' := table[base..];
    forall k | 0 <= k < |T|
      ensures T'[k] == if next <= k < next + Pow2(curr) && u <= Unpack(k - next, curr) then here else T[k]
    {
      assert T'[k] == table[base + k];
      assert base + k - (base + next) == k - next;
    }
  }

  /** Replicates the entry of the code (len, j) over its indices. */
  method PlaceCode(table: array<Entry>, base: nat, root: nat, curr: nat, next: nat, drop: nat, huff: nat, len: nat,
                   here: Entry, ghost lens: seq<nat>, ghost leaves: seq<Entry>, ghost used: nat, ghost j: nat)
    requires Fits(lens) && IsCode(lens, len, j) && 1 <= root && base <= table.Length
    requires AllPlaced(table[base..], lens, leaves, root, used, len, j)
    requires AtTable(table[base..], lens, root, curr, next, drop, used, len, j)
    requires huff == Backward(lens, len, j)
    requires Start(lens, len) + j < |leaves| && here == leaves[Start(lens, len) + j].(bits := len - drop)
    modifies table
    ensures AllPlaced(table[base..], lens, leaves, root, used, len, j + 1)
    ensures forall k ::
              0 <= k < table.Length && !(base + next <= k < base + next + Pow2(curr)) ==> table[k] == old(table[k])
  {
    ghost var T := table[base..];
    ghost var w := Str(lens, len, j);
    PackCut(w, drop);
    FillTable(table, base, next, curr, Shr(huff, drop), len - drop, here, w[drop..]);
    CodeFilled(T, table[base..], lens, leaves, root, curr, next, drop, used, len, j, here);
  }

  lemma {:induction false} CodeFilled(T: seq<Entry>, T': seq<Entry>, lens: seq<nat>, leaves: seq<Entry>,
                   root: nat, curr: nat, next: nat, drop: nat, used: nat, len: nat, j: nat, here: Entry)
    requires Fits(lens) && IsCode(lens, len, j) && 1 <= root
    requires AllPlaced(T, lens, leaves, root, used, len, j)
    requires AtTable(T, lens, root, curr, next, drop, used, len, j)
    requires Start(lens, len) + j < |leaves| && here == leaves[Start(lens, len) + j].(bits := len - drop)
    requires Filled(T, T', next, curr, Str(lens, len, j)[drop..], here)
    ensures AllPlaced(T', lens, leaves, root, used, len, j + 1)
  {
    if len <= root {
      assert Str(lens, len, j)[0..] == Str(lens, len, j);
      FillRoot(T, T', lens, leaves, root, used, len, j);
    } else {
      FillSub(T, T', lens, leaves, root, curr, next, used, len, j);
    }
  }

  ghost predicate SameRoot(T: seq<Entry>, T': seq<Entry>, root: nat) {
    Pow2(root) <= |T| == |T'| && forall k :: 0 <= k < Pow2(root) ==> T'[k] == T[k]
  }

  /** Staying in the same table for the next code. */
  lemma {:induction false} SameTable(T: seq<Entry>, T': seq<Entry>, lens: seq<nat>, root: nat, curr: nat, next: nat,
                                     drop: nat, used: nat,
                  len: nat, j: nat, len2: nat, j2: nat)
    requires AtTable(T, lens, root, curr, next, drop, used, len, j) && Follows(lens, len, j, len2, j2)
    requires |T'| == |T| && (len > root ==> SameRoot(T, T', root))
    requires len2 <= root || (len > root && Str(lens, len2, j2)[..root] == Str(lens, len, j)[..root])
    ensures AtTable(T', lens, root, curr, next, drop, used, len2, j2)
  {
    if len2 > root {
      var low := Str(lens, len, j)[..root];
      forall b': nat, j': nat | IsCode(lens, b', j') && Earlier(b', j', len2, j2) && b' > root
        ensures ApartCode(T', lens, root, next, low, b', j')
      {
        assert !(len < b' < len2) || NoCode(lens, b');
        if b' != len || j' != j {
          assert ApartCode(T, lens, root, next, low, b', j');
        }
      }
    }
  }

  /** Sizes and links the sub-table for the head of the code (len2, j2). */
  method OpenSubTable(t: CodeType, table: array<Entry>, base: nat, lens: seq<nat>, count: seq<nat>, root: nat, max: nat,
                      huff: nat, len2: nat, used: nat, limit: nat,
                      ghost leaves: seq<Entry>, ghost j2: nat, ghost len: nat, ghost j: nat)
    returns (ok: bool, curr: nat, used': nat)
    requires Fits(lens) && IsMax(lens, max) && Follows(lens, len, j, len2, j2) && 1 <= root < len2 <= max
    requires Remaining(lens, count, len2, j2) && huff == Backward(lens, len2, j2)
    requires root < len ==> Head(lens, root, len, j) != Head(lens, root, len2, j2)
    requires Pow2(root) <= used <= limit && base + limit <= table.Length
    requires used == Pow2(root) + Spent(lens, root, len2, j2)
    requires AllPlaced(table[base..], lens, leaves, root, used, len2, j2)
    modifies table
    ensures ok <==> used' <= limit
    ensures Accounted(lens, root, curr, used', len2, j2)
    ensures Complete(lens) ==> used' <= TableEntries(lens, root)
    ensures ok ==> AllPlaced(table[base..], lens, leaves, root, used', len2, j2)
    ensures ok ==> AtTable(table[base..], lens, root, curr, used, root, used', len2, j2)
    ensures forall k :: 0 <= k < table.Length && !(base <= k < base + Pow2(root)) ==> table[k] == old(table[k])
  {
    ghost var q := Head(lens, root, len2, j2);
    NewHeadAligned(lens, root, len, j, len2, j2);
    HeadBound(lens, root, len2, j2);
    HeadString(lens, root, len2, j2);
    curr := SubTableBits(lens, count, len2, j2, root, max, q);
    used' := used + Pow2(curr);
    NewAccount(lens, root, curr, used, len2, j2, q);
    if used' > limit {
      return false, curr, used';
    }
    PackCut(Str(lens, len2, j2), root);
    ghost var T := table[base..];
    NewSub(T, lens, leaves, root, curr, used, used', len, j, len2, j2);
    var low := Low(huff, root);
    table[base + low] := Entry(curr, root, used);
    assert table[base..] == T[low := Entry(curr, root, used)];
    ok := true;
  }

  lemma {:induction false} NewAccount(lens: seq<nat>, root: nat, curr: nat, used: nat, len: nat, j: nat, q: nat)
    requires root < len <= root + curr <= MAX_BITS && used == Pow2(root) + Spent(lens, root, len, j)
    requires q == Head(lens, root, len, j) && First(lens, len) + j == Shl(q, len - root)
    requires len < root + curr ==> Unfilled(lens, root, curr, q)
    ensures Accounted(lens, root, curr, used + Pow2(curr), len, j)
    ensures Spent(lens, root, len, j) + Pow2(curr) <= LongCodes(lens, root, root + curr)
            + Repeated(lens, root, curr - 1)
            ==> used + Pow2(curr) <= TableEntries(lens, root)
  {
    SplitUnique(0, q, len - root);
    EntriesUpTo(lens, root, curr);
  }

  lemma {:induction false} EntriesUpTo(lens: seq<nat>, root: nat, curr: nat)
    requires 1 <= curr && root + curr <= MAX_BITS
    ensures Pow2(root) + LongCodes(lens, root, root + curr) + Repeated(lens, root, curr - 1) <= TableEntries(lens, root)
  {
    LongCodesMono(lens, root, root + curr, MAX_BITS);
    RepeatedMono(lens, root, curr - 1, MAX_BITS - 1 - root);
  }

  /** The next length in use, and where its symbols start. */
  lemma {:induction false} NextLength(lens: seq<nat>, len: nat, from: nat, max: nat) returns (b2: nat)
    requires 1 <= len < from <= max && Total(lens, max) > 0 && Gap(lens, len, from)
    requires Start(lens, from) == Start(lens, len) + Total(lens, len)
    ensures len < b2 <= max && Total(lens, b2) > 0 && Gap(lens, len, b2)
    ensures Start(lens, b2) == Start(lens, len) + Total(lens, len)
    decreases max - from
  {
    if Total(lens, from) > 0 {
      b2 := from;
    } else {
      assert NoCode(lens, from);
      b2 := NextLength(lens, len, from + 1, max);
    }
  }

  lemma {:induction false} FirstIsZero(lens: seq<nat>, min: nat)
    requires Gap(lens, 0, min) && 1 <= min
    ensures First(lens, min) == 0 && Start(lens, min) == 0
    ensures Backward(lens, min, 0) == 0
  {
    if min > 1 {
      assert NoCode(lens, min - 1);
      FirstIsZero(lens, min - 1);
    }
    ShlZero(min);
    PackZeros(0, 0, min);
  }

  lemma {:induction false} NoneBefore(T: seq<Entry>, lens: seq<nat>, leaves: seq<Entry>, root: nat, used: nat, min: nat)
    requires Gap(lens, 0, min)
    ensures AllPlaced(T, lens, leaves, root, used, min, 0)
  {
    forall b': nat, j': nat | IsCode(lens, b', j')
      ensures !Earlier(b', j', min, 0)
    {
      assert b' >= min || NoCode(lens, b');
    }
  }

  function Enough(t: CodeType, bits: nat): nat {
    match t case CODES => Pow2(bits) case LENS => ENOUGH_LENS case DISTS => ENOUGH_DISTS
  }

  ghost predicate LeavesOf(t: CodeType, lens: seq<nat>, work: seq<nat>, leaves: seq<Entry>) {
    && |leaves| == |work| && |lens| <= MaxCodes(t)
    && forall k {:trigger LeafOf(t, work[k], leaves[k])} ::
         0 <= k < |work| && work[k] < |lens| ==> LeafOf(t, work[k], leaves[k])
  }

  ghost predicate LeafOf(t: CodeType, s: nat, leaf: Entry) {
    s < MaxCodes(t) && leaf == MakeEntry(t, s, 0)
  }

  method EntryFor(t: CodeType, s: nat, bits: nat, ghost leaf: Entry) returns (here: Entry)
    requires LeafOf(t, s, leaf)
    ensures here == leaf.(bits := bits)
  {
    here := MakeEntry(t, s, bits);
  }

  /** The symbol after the last one of a length, and its length. */
  lemma {:induction false} Onward(lens: seq<nat>, work: seq<nat>, max: nat, len: nat, j: nat)
    requires Sorted(lens, work) && IsMax(lens, max) && IsCode(lens, max, 0)
    requires IsCode(lens, len, j) && len < max && j + 1 == Total(lens, len)
    ensures Start(lens, len) + j + 1 < |work|
    ensures var s := work[Start(lens, len) + j + 1];
            && s < |lens| && len < lens[s] <= max && Start(lens, lens[s]) == Start(lens, len) + j + 1
            && Follows(lens, len, j, lens[s], 0)
  {
    var b2 := NextLength(lens, len, len + 1, max);
    assert IsCode(lens, b2, 0);
    assert SortedAt(lens, work, b2, 0);
  }

  /** Lengths fit to be entered, with their counts, bounds and root table size. */
  ghost predicate Plan(t: CodeType, lens: seq<nat>, count: seq<nat>, root: nat, min: nat, max: nat) {
    && ValidLens(lens) && |lens| <= MaxCodes(t) && Counts(lens, count) && Fits(lens)
    && IsMax(lens, max) && IsCode(lens, max, 0)
    && 1 <= min <= root <= max && IsCode(lens, min, 0) && Gap(lens, 0, min)
  }

  /** What the backward code has become after the last code of length max. */
  function EndCode(lens: seq<nat>, max: nat): nat {
    Pack(Big(First(lens, max) + Total(lens, max), max))
  }

  /** The variables of the loop over all codes. */
  datatype Fill = Fill(sym: nat, len: nat, huff: nat, count: seq<nat>, next: nat, curr: nat, drop: nat, low: int,
                       used: nat)

  /** About to enter the code (len, j). */
  ghost predicate AtCode(lens: seq<nat>, max: nat, f: Fill, j: nat) {
    && IsCode(lens, f.len, j) && f.len <= max && Remaining(lens, f.count, f.len, j)
    && f.huff == Backward(lens, f.len, j) && f.sym == Start(lens, f.len) + j
  }

  ghost predicate TableReady(T: seq<Entry>, lens: seq<nat>, leaves: seq<Entry>, root: nat, limit: nat, f: Fill,
                             j: nat) {
    && Pow2(root) <= f.used <= limit <= |T|
    && AllPlaced(T, lens, leaves, root, f.used, f.len, j)
    && AtTable(T, lens, root, f.curr, f.next, f.drop, f.used, f.len, j)
    && f.low == (if f.len <= root then -1 else Pack(Str(lens, f.len, j)[..root]))
    && Accounted(lens, root, f.curr, f.used, f.len, j)
  }

  /** A complete code whose tables fit into limit entries. */
  ghost predicate Roomy(lens: seq<nat>, root: nat, limit: nat) {
    Complete(lens) && TableEntries(lens, root) <= limit
  }

  /** Goes to the next symbol, its length and its code. */
  method Advance(lens: seq<nat>, work: seq<nat>, max: nat, f: Fill, ghost j: nat)
    returns (done: bool, f': Fill, ghost j': nat)
    requires Sorted(lens, work) && IsMax(lens, max) && IsCode(lens, max, 0) && AtCode(lens, max, f, j)
    ensures f' == f.(huff := f'.huff, sym := f.sym + 1, count := f'.count, len := f'.len)
    ensures !done ==> AtCode(lens, max, f', j') && Follows(lens, f.len, j, f'.len, j')
    ensures done ==> f.len == max == f'.len && j + 1 == Total(lens, max) && f'.huff == EndCode(lens, max)
  {
    var huff := Increment(f.huff, f.len, Str(lens, f.len, j));
    f' := f.(huff := huff, sym := f.sym + 1, count := f.count[f.len := f.count[f.len] - 1]);
    done, j' := false, j + 1;
    if f'.count[f.len] != 0 {
      NextBackward(lens, f.len, j, f.len, j + 1);
    } else if f.len == max {
      SuccessorCounts(First(lens, f.len) + j, f.len);
      done := true;
    } else {
      var len := NextLen(lens, work, max, f, j, huff);
      f', j' := f'.(len := len), 0;
    }
  }

  /** The length of the next symbol when a length has been used up. */
  method NextLen(lens: seq<nat>, work: seq<nat>, max: nat, f: Fill, ghost j: nat, huff: nat) returns (len: nat)
    requires Sorted(lens, work) && IsMax(lens, max) && IsCode(lens, max, 0) && AtCode(lens, max, f, j)
    requires f.len < max && j + 1 == Total(lens, f.len) && huff == Pack(Successor(Str(lens, f.len, j)))
    ensures Follows(lens, f.len, j, len, 0) && len <= max
    ensures huff == Backward(lens, len, 0) && f.sym + 1 == Start(lens, len)
  {
    Onward(lens, work, max, f.len, j);
    len := lens[work[f.sym + 1]];
    NextBackward(lens, f.len, j, len, 0);
  }

  /** Opens a sub-table when the head of the code is new. */
  method Settle(t: CodeType, table: array<Entry>, base: nat, lens: seq<nat>, root: nat, max: nat, f: Fill, limit: nat,
                ghost leaves: seq<Entry>, ghost j: nat, ghost T: seq<Entry>, ghost len0: nat, ghost j0: nat)
    returns (ok: bool, f': Fill)
    requires Fits(lens) && IsMax(lens, max) && 1 <= root
    requires AtCode(lens, max, f, j) && Follows(lens, len0, j0, f.len, j)
    requires Pow2(root) <= f.used <= limit && base + limit <= table.Length
    requires AllPlaced(table[base..], lens, leaves, root, f.used, f.len, j)
    requires AtTable(T, lens, root, f.curr, f.next, f.drop, f.used, len0, j0)
    requires |T| == table.Length - base && (len0 > root ==> SameRoot(T, table[base..], root))
    requires f.low == if len0 <= root then -1 else Pack(Str(lens, len0, j0)[..root])
    requires Accounted(lens, root, f.curr, f.used, len0, j0)
    modifies table
    ensures f' == f.(next := f'.next, curr := f'.curr, drop := f'.drop, low := f'.low, used := f'.used)
    ensures ok ==> TableReady(table[base..], lens, leaves, root, limit, f', j)
    ensures f'.used >= f.used
    ensures (max == root ==> f'.used == f.used) && (max == root || Roomy(lens, root, limit) ==> ok)
    ensures forall k :: 0 <= k < table.Length && !(base <= k < base + Pow2(root)) ==> table[k] == old(table[k])
  {
    if f.len > root && Low(f.huff, root) != f.low {
      HeadsDiffer(lens, root, len0, j0, f.len, j);
      AllSpent(lens, root, f.curr, f.used, len0, j0, f.len, j);
      var curr, used;
      ok, curr, used := OpenSubTable(t, table, base, lens, f.count, root, max, f.huff, f.len, f.used, limit,
                                     leaves, j, len0, j0);
      PackCut(Str(lens, f.len, j), root);
      f' := f.(low := Low(f.huff, root), drop := root, next := f.used, curr := curr, used := used);
    } else {
      SameHead(lens, root, len0, j0, f.len, j, f.huff, f.low);
      SameTable(T, table[base..], lens, root, f.curr, f.next, f.drop, f.used, len0, j0, f.len, j);
      SameAccount(T, lens, root, f, len0, j0, j);
      ok, f' := true, f;
    }
  }

  lemma {:induction false} SameAccount(T: seq<Entry>, lens: seq<nat>, root: nat, f: Fill, len0: nat, j0: nat, j: nat)
    requires Follows(lens, len0, j0, f.len, j) && Accounted(lens, root, f.curr, f.used, len0, j0)
    requires f.len <= root || (len0 > root && Str(lens, f.len, j)[..root] == Str(lens, len0, j0)[..root])
    requires f.len > root ==> f.len <= root + f.curr && Fits(lens)
    ensures Accounted(lens, root, f.curr, f.used, f.len, j)
  {
    if f.len > root {
      HeadString(lens, root, f.len, j);
      HeadString(lens, root, len0, j0);
      HeadBound(lens, root, f.len, j);
      HeadBound(lens, root, len0, j0);
      BigInjective(Head(lens, root, f.len, j), Head(lens, root, len0, j0), root);
      SpentSameHead(lens, root, len0, j0, f.len, j);
    }
  }

  /** Enters the current code. */
  method EnterOne(t: CodeType, lens: seq<nat>, work: seq<nat>, table: array<Entry>, base: nat,
                  root: nat, ghost max: nat, ghost limit: nat, f: Fill, ghost leaves: seq<Entry>, ghost j: nat)
    requires Fits(lens) && Sorted(lens, work) && LeavesOf(t, lens, work, leaves) && 1 <= root
    requires base + limit <= table.Length
    requires AtCode(lens, max, f, j) && TableReady(table[base..], lens, leaves, root, limit, f, j)
    modifies table
    ensures AllPlaced(table[base..], lens, leaves, root, f.used, f.len, j + 1)
    ensures forall k :: 0 <= k < table.Length && !(base <= k < base + f.used) ==> table[k] == old(table[k])
    ensures f.len > root ==> SameRoot(old(table[base..]), table[base..], root)
  {
    assert SortedAt(lens, work, f.len, j);
    var here := EntryFor(t, work[f.sym], f.len - f.drop, leaves[f.sym]);
    PlaceCode(table, base, root, f.curr, f.next, f.drop, f.huff, f.len, here, lens, leaves, f.used, j);
  }

  /** One round of the loop: enter a code, go to the next, open its sub-table. */
  method Round(t: CodeType, lens: seq<nat>, work: seq<nat>, table: array<Entry>, base: nat, root: nat, max: nat,
               limit: nat, f: Fill, ghost leaves: seq<Entry>, ghost j: nat)
    returns (done: bool, ok: bool, f': Fill, ghost j': nat)
    requires Fits(lens) && Sorted(lens, work) && LeavesOf(t, lens, work, leaves) && 1 <= root <= max && ValidLens(lens)
    requires IsMax(lens, max) && IsCode(lens, max, 0) && base + limit <= table.Length
    requires AtCode(lens, max, f, j) && TableReady(table[base..], lens, leaves, root, limit, f, j)
    modifies table
    ensures done ==> AllPlaced(table[base..], lens, leaves, root, f.used, max, Total(lens, max))
    ensures done ==> f' == f.(sym := f'.sym, count := f'.count, huff := f'.huff) && f.len == max
    ensures done ==> f'.huff == EndCode(lens, max)
    ensures !done && ok ==> AtCode(lens, max, f', j') && TableReady(table[base..], lens, leaves, root, limit, f', j')
    ensures !done && ok ==> Earlier(f.len, j, f'.len, j')
    ensures f'.used >= f.used
    ensures (max == root ==> f'.used == f.used) && (max == root || Roomy(lens, root, limit) ==> ok)
    ensures forall k :: 0 <= k < table.Length && !(base <= k < base + f.used) ==> table[k] == old(table[k])
  {
    ghost var T := table[base..];
    EnterOne(t, lens, work, table, base, root, max, limit, f, leaves, j);
    done, f', j' := Advance(lens, work, max, f, j);
    ok := true;
    if !done {
      NextCode(table[base..], lens, leaves, root, f.used, f.len, j, f'.len, j');
      ok, f' := Settle(t, table, base, lens, root, max, f', limit, leaves, j', T, f.len, j);
    }
  }

  lemma {:induction false} TableDecodes(table: array<Entry>, base: nat, t: CodeType, lens: seq<nat>, work: seq<nat>,
                                        leaves: seq<Entry>, root: nat, used: nat, max: nat)
    requires base + used <= table.Length
    requires ValidLens(lens) && Sorted(lens, work) && LeavesOf(t, lens, work, leaves) && IsMax(lens, max)
    requires AllPlaced(table[base..], lens, leaves, root, used, max, Total(lens, max))
    requires 1 <= root <= MAX_BITS && Pow2(root) <= used
    ensures Decodes(table[base..base + used], t, lens, root)
  {
    AllDecoded(table[base..], t, lens, work, leaves, root, used, max);
    assert table[base..][..used] == table[base..base + used];
  }

  /** The loop over all codes. Gives up when the space allowed is too small. */
  method EnterCodes(t: CodeType, lens: seq<nat>, work: seq<nat>, counts: seq<nat>, table: array<Entry>, base: nat,
                    root: nat, min: nat, max: nat, limit: nat, ghost leaves: seq<Entry>)
    returns (ok: bool, f: Fill)
    requires Plan(t, lens, counts, root, min, max) && Sorted(lens, work) && LeavesOf(t, lens, work, leaves)
    requires Pow2(root) <= limit && base + limit <= table.Length
    modifies table
    ensures ok ==> Pow2(root) <= f.used <= limit
    ensures ok ==> AllPlaced(table[base..], lens, leaves, root, f.used, max, Total(lens, max))
    ensures ok ==> f.huff == EndCode(lens, max)
    ensures max == root ==> ok && f.used == Pow2(root) && f.next == f.drop == 0 && f.len == max
    ensures Roomy(lens, root, limit) ==> ok
    ensures forall k :: 0 <= k < table.Length && !(base <= k < base + limit) ==> table[k] == old(table[k])
    ensures forall k :: 0 <= k < table.Length && !(base <= k < base + f.used) ==> table[k] == old(table[k])
  {
    f := Fill(0, min, 0, counts, 0, root, 0, -1, Pow2(root));
    ghost var j: nat := 0;
    FirstIsZero(lens, min);
    NoneBefore(table[base..], lens, leaves, root, f.used, min);
    while true
      invariant AtCode(lens, max, f, j)
      invariant TableReady(table[base..], lens, leaves, root, limit, f, j)
      invariant max == root ==> f.used == Pow2(root)
      invariant forall k :: 0 <= k < table.Length && !(base <= k < base + f.used) ==> table[k] == old(table[k])
      decreases max - f.len, Total(lens, f.len) - j
    {
      var done, fits, f', j' := Round(t, lens, work, table, base, root, max, limit, f, leaves, j);
      if done || !fits {
        return done, f';
      }
      f, j := f', j';
    }
  }

  lemma {:induction false} HeadsDiffer(lens: seq<nat>, root: nat, len: nat, j: nat, len2: nat, j2: nat)
    requires root < len2 && Follows(lens, len, j, len2, j2)
    requires root < len ==> Low(Backward(lens, len2, j2), root) != Pack(Str(lens, len, j)[..root])
    ensures root < len ==> Head(lens, root, len, j) != Head(lens, root, len2, j2)
  {
    PackCut(Str(lens, len2, j2), root);
    if root < len {
      HeadString(lens, root, len, j);
      HeadString(lens, root, len2, j2);
    }
  }

  lemma {:induction false} SameHead(lens: seq<nat>, root: nat, len: nat, j: nat, len2: nat, j2: nat, huff: nat,
                                    low: int)
    requires Follows(lens, len, j, len2, j2) && huff == Backward(lens, len2, j2)
    requires low == if len <= root then -1 else Pack(Str(lens, len, j)[..root])
    requires len2 <= root || Low(huff, root) == low
    ensures len2 <= root || (len > root && Str(lens, len2, j2)[..root] == Str(lens, len, j)[..root])
  {
    if len2 > root {
      PackCut(Str(lens, len2, j2), root);
      if len > root { PackInjective(Str(lens, len2, j2)[..root], Str(lens, len, j)[..root]); }
    }
  }

  // ----- the whole routine -----

  lemma {:induction false} ExhaustedAtMax(lens: seq<nat>, max: nat, m: nat)
    requires 1 <= max <= m && ExhaustedAt(lens, m)
    requires forall b: nat :: max < b <= m ==> NoCode(lens, b)
    ensures ExhaustedAt(lens, max)
  {
    if max < m {
      assert NoCode(lens, m);
      ExhaustedAtMax(lens, max, m - 1);
    }
  }

  lemma {:induction false} ExtendExhausted(lens: seq<nat>, max: nat, m: nat)
    requires 1 <= max <= m && ExhaustedAt(lens, max)
    requires forall b: nat :: max < b <= m ==> NoCode(lens, b)
    ensures ExhaustedAt(lens, m)
  {
    if max < m {
      ExtendExhausted(lens, max, m - 1);
      assert NoCode(lens, m);
    }
  }

  /** After the last code nothing is left, or only the string 1 of a lone code. */
  lemma {:induction false} LastCode(lens: seq<nat>, max: nat)
    requires Fits(lens) && IsMax(lens, max) && IsCode(lens, max, 0) && (Complete(lens) || max == 1)
    ensures EndCode(lens, max) == if Complete(lens) then 0 else 1
    ensures !Complete(lens) ==> max == 1 && Total(lens, 1) == 1
  {
    if Complete(lens) {
      LastOfComplete(lens, max);
    } else {
      LoneTotal(lens);
      assert Big(1, 1) == [true];
      assert Pack([true]) == 1;
    }
  }

  lemma {:induction false} LastOfComplete(lens: seq<nat>, max: nat)
    requires IsMax(lens, max) && Complete(lens)
    ensures EndCode(lens, max) == 0
  {
    var m: nat :| m == MAX_BITS;
    assert ExhaustedAt(lens, m);
    ExhaustedAtMax(lens, max, m);
    FullIsZero(max, First(lens, max) + Total(lens, max));
  }

  lemma {:induction false} FullIsZero(n: nat, c: nat)
    requires c == Pow2(n)
    ensures Pack(Big(c, n)) == 0
  {
    ShlOne(n);
    PackZeros(1, 0, n);
  }

  lemma {:induction false} LoneTotal(lens: seq<nat>)
    requires Fits(lens) && IsMax(lens, 1) && IsCode(lens, 1, 0) && !Complete(lens)
    ensures Total(lens, 1) == 1
  {
    assert FitsAt(lens, 1);
    assert Pow2(1) == 2;
    var m: nat :| m == MAX_BITS && !ExhaustedAt(lens, m);
    if Total(lens, 1) == 2 {
      ExtendExhausted(lens, 1, m);
    }
  }

  lemma {:induction false} PlacedInUsed(T: seq<Entry>, root: nat, used: nat, w: seq<bool>, leaf: Entry)
    requires Placed(T, root, used, w, leaf) && Pow2(root) <= used <= |T|
    ensures Placed(T[..used], root, used, w, leaf)
  {
  }

  lemma {:induction false} SymbolAt(lens: seq<nat>, work: seq<nat>, s: nat)
    requires Sorted(lens, work) && s < |lens| && 1 <= lens[s] <= MAX_BITS
    ensures IsCode(lens, lens[s], Cnt(lens, s, lens[s]))
    ensures Start(lens, lens[s]) + Cnt(lens, s, lens[s]) < |work|
    ensures work[Start(lens, lens[s]) + Cnt(lens, s, lens[s])] == s
  {
    SymbolIsCode(lens, s);
    assert SortedAt(lens, work, lens[s], Cnt(lens, s, lens[s]));
    var r := work[Start(lens, lens[s]) + Cnt(lens, s, lens[s])];
    if r < s {
      CntMono(lens, r, s, lens[s]);
    } else if s < r {
      CntMono(lens, s, r, lens[s]);
    }
  }

  lemma {:induction false} AllDecoded(T: seq<Entry>, t: CodeType, lens: seq<nat>, work: seq<nat>, leaves: seq<Entry>,
                                      root: nat, used: nat, max: nat)
    requires ValidLens(lens) && Sorted(lens, work) && LeavesOf(t, lens, work, leaves) && IsMax(lens, max)
    requires AllPlaced(T, lens, leaves, root, used, max, Total(lens, max))
    requires 1 <= root <= MAX_BITS && Pow2(root) <= used <= |T|
    ensures Decodes(T[..used], t, lens, root)
  {
    forall s: nat | s < |lens| && lens[s] != 0
      ensures DecodesSymbol(T[..used], t, lens, root, s)
    {
      SymbolAt(lens, work, s);
      assert lens[s] <= max || NoCode(lens, lens[s]);
      assert PlacedCode(T, lens, leaves, root, used, lens[s], Cnt(lens, s, lens[s]));
      OneDecoded(T, t, lens, work, leaves, root, used, s);
    }
  }

  lemma {:induction false} OneDecoded(T: seq<Entry>, t: CodeType, lens: seq<nat>, work: seq<nat>, leaves: seq<Entry>,
                                      root: nat, used: nat, s: nat)
    requires LeavesOf(t, lens, work, leaves) && s < |lens|
    requires Start(lens, lens[s]) + Cnt(lens, s, lens[s]) < |work|
    requires work[Start(lens, lens[s]) + Cnt(lens, s, lens[s])] == s
    requires PlacedCode(T, lens, leaves, root, used, lens[s], Cnt(lens, s, lens[s]))
    requires Pow2(root) <= used <= |T|
    ensures DecodesSymbol(T[..used], t, lens, root, s)
  {
    var k := Start(lens, lens[s]) + Cnt(lens, s, lens[s]);
    assert LeafOf(t, work[k], leaves[k]);
    PlacedInUsed(T, root, used, CodeString(lens, s), leaves[k]);
  }

  lemma {:induction false} OneMax(lens: seq<nat>, max: nat, j: nat)
    requires IsCode(lens, max, j) && IsMax(lens, 1)
    ensures max == 1
  {
    assert max <= 1 || NoCode(lens, max);
  }

  method LongestLength(lens: seq<nat>, count: seq<nat>) returns (max: nat)
    requires Counts(lens, count)
    ensures max == 0 ==> NoSymbols(lens)
    ensures max > 0 ==> IsMax(lens, max) && IsCode(lens, max, 0)
  {
    max := MAX_BITS;
    while max >= 1 && count[max] == 0
      invariant max <= MAX_BITS
      invariant forall b: nat :: max < b <= MAX_BITS ==> NoCode(lens, b)
    {
      max := max - 1;
    }
  }

  method ShortestLength(lens: seq<nat>, count: seq<nat>, max: nat) returns (min: nat)
    requires Counts(lens, count) && IsCode(lens, max, 0)
    ensures 1 <= min <= max && IsCode(lens, min, 0) && Gap(lens, 0, min)
  {
    min := 1;
    while min < max && count[min] == 0
      invariant 1 <= min <= max
      invariant forall b: nat :: 0 < b < min ==> NoCode(lens, b)
    {
      assert NoCode(lens, min);
      min := min + 1;
    }
  }

  lemma {:induction false} MakeLeaves(t: CodeType, lens: seq<nat>, work: seq<nat>) returns (leaves: seq<Entry>)
    requires |lens| <= MaxCodes(t)
    ensures LeavesOf(t, lens, work, leaves)
  {
    leaves := seq(|work|, k requires 0 <= k < |work| => if work[k] < MaxCodes(t) then
                    MakeEntry(t, work[k], 0) else INVALID);
  }

  /** Sorts the symbols and enters their codes. */
  method EnterSorted(t: CodeType, lens: seq<nat>, count: seq<nat>, table: array<Entry>, base: nat,
                     root: nat, min: nat, max: nat, limit: nat)
    returns (ok: bool, f: Fill)
    requires Plan(t, lens, count, root, min, max)
    requires Pow2(root) <= limit && base + limit <= table.Length
    modifies table
    ensures ok ==> f.used <= limit && Decodes(table[base..base + f.used], t, lens, root)
    ensures ok ==> f.huff == EndCode(lens, max)
    ensures max == root ==> ok && f.used == Pow2(root) && f.next == f.drop == 0 && f.len == max
    ensures Roomy(lens, root, limit) ==> ok
    ensures forall k :: 0 <= k < table.Length && !(base <= k < base + limit) ==> table[k] == old(table[k])
    ensures forall k :: 0 <= k < table.Length && !(base <= k < base + f.used) ==> table[k] == old(table[k])
  {
    var work := SortSymbols(lens, count);
    ghost var leaves := MakeLeaves(t, lens, work);
    ok, f := EnterCodes(t, lens, work, count, table, base, root, min, max, limit, leaves);
    if ok {
      TableDecodes(table, base, t, lens, work, leaves, root, f.used, max);
    }
  }

  /** Enters an acceptable, non-empty set of lengths. */
  method BuildCodes(t: CodeType, lens: seq<nat>, count: seq<nat>, table: array<Entry>, base: nat,
                    root: nat, min: nat, max: nat, limit: nat)
    returns (ok: bool, used: nat)
    requires Plan(t, lens, count, root, min, max) && !NoSymbols(lens) && (Complete(lens) || max == 1)
    requires Pow2(root) <= limit && base + limit <= table.Length
    modifies table
    ensures ok ==> used <= limit && Built(table[base..base + used], t, lens, root)
    ensures max == root || Roomy(lens, root, limit) ==> ok
    ensures forall k :: 0 <= k < table.Length && !(base <= k < base + limit) ==> table[k] == old(table[k])
    ensures forall k :: 0 <= k < table.Length && !(base <= k < base + used) ==> table[k] == old(table[k])
  {
    var f;
    ok, f := EnterSorted(t, lens, count, table, base, root, min, max, limit);
    used := f.used;
    if ok {
      LastCode(lens, max);
      if f.huff != 0 {
        MarkInvalid(table, base, t, lens, f, root);
      }
    }
  }

  /** Fills the one index that an incomplete code leaves. */
  method MarkInvalid(table: array<Entry>, base: nat, ghost t: CodeType, ghost lens: seq<nat>, f: Fill, ghost root: nat)
    requires base + f.used <= table.Length && ValidLens(lens) && IsMax(lens, 1)
    requires root == 1 && f.used == Pow2(1) && f.huff == 1 && f.next == f.drop == 0 && f.len == 1
    requires Total(lens, 1) == 1 && Decodes(table[base..base + f.used], t, lens, root)
    modifies table
    ensures Decodes(table[base..base + f.used], t, lens, root)
    ensures f.used == 2 && table[base..base + f.used][1] == INVALID
    ensures forall k :: 0 <= k < table.Length && k != base + 1 ==> table[k] == old(table[k])
  {
    assert Pow2(1) == 2;
    ghost var T := table[base..base + 2];
    table[base + f.next + f.huff] := Entry(64, f.len - f.drop, 0);
    ghost var T' := table[base..base + 2];
    assert T' == T[1 := INVALID];
    LoneCode(T, T', t, lens);
  }

  lemma {:induction false} LoneCode(T: seq<Entry>, T': seq<Entry>, t: CodeType, lens: seq<nat>)
    requires |T| == 2 && T' == T[1 := INVALID] && Decodes(T, t, lens, 1)
    requires ValidLens(lens) && Total(lens, 1) == 1 && IsMax(lens, 1)
    ensures Decodes(T', t, lens, 1)
  {
    assert Pow2(1) == 2;
    forall s: nat | s < |lens| && lens[s] != 0
      ensures DecodesSymbol(T', t, lens, 1, s)
    {
      assert DecodesSymbol(T, t, lens, 1, s);
      SymbolIsCode(lens, s);
      OneMax(lens, lens[s], Cnt(lens, s, lens[s]));
      var w := CodeString(lens, s);
      assert w == Big(0, 1) == [false];
      forall i | 0 <= i < Pow2(1) && w <= Unpack(i, 1)
        ensures i == 0
      {
        assert Unpack(i, 1)[0] == (i % 2 == 1);
      }
    }
  }

  /** The result for acceptable lengths: tables that decode every symbol, with the
      missing codes of an empty or lone-code set marked invalid. */
  ghost predicate Built(T: seq<Entry>, t: CodeType, lens: seq<nat>, root: nat) {
    if NoSymbols(lens) then T == [INVALID, INVALID] && root == 1
    else Decodes(T, t, lens, root) && (!Complete(lens) ==> |T| == 2 && root == 1 && T[1] == INVALID)
  }

  /** Builds the tables for the lengths `lens` at table[base..]. On success (ret 0) they
      take `used` entries and their root table has `root` index bits. */
  method Build(t: CodeType, lens: seq<nat>, table: array<Entry>, base: nat, bits: nat)
    returns (ret: int, used: nat, root: nat)
    requires ValidLens(lens) && |lens| <= MaxCodes(t) && 1 <= bits <= MAX_BITS
    requires t == CODES ==> forall i :: 0 <= i < |lens| ==> lens[i] <= bits
    requires base + Enough(t, bits) <= table.Length
    modifies table
    ensures ret == 0 || ret == 1 || ret == -1
    ensures ret == -1 <==> !Acceptable(t, lens)
    ensures t == CODES || EnoughKnown(t, lens, bits) ==> ret != 1
    ensures ret == 0 ==> used <= Enough(t, bits) && Built(table[base..base + used], t, lens, root)
    ensures ret == 0 && t == CODES && !NoSymbols(lens) ==> IsMax(lens, root)
    ensures ret == -1 ==> table[..] == old(table[..])
    ensures ret == 0 ==>
              forall k :: 0 <= k < table.Length && !(base <= k < base + used) ==> table[k] == old(table[k])
    ensures forall k :: 0 <= k < table.Length && !(base <= k < base + Enough(t, bits)) ==> table[k] == old(table[k])
  {
    var count := CountLengths(lens);
    var ok, min, max;
    ok, root, min, max := Examine(t, lens, count, bits);
    if max == 0 {
      EnoughForTwo(t, bits);
      MarkEmpty(table, base);
      ret, used, root := 0, 2, 1;
    } else if !ok {
      ret, used := -1, 0;
    } else {
      if t == CODES { EnoughForRoot(lens, bits, max); }
      if EnoughKnown(t, lens, bits) { EnoughRoom(t, lens, count, bits, root, min, max); }
      ret, used := BuildChecked(t, lens, count, table, base, Enough(t, bits), root, min, max);
    }
  }

  /** ENOUGH is known to be enough: for up to 286 literal/length and 30 distance symbols with the root sizes that
      inflate uses, and for codes that need no sub-table. */
  ghost predicate EnoughKnown(t: CodeType, lens: seq<nat>, bits: nat) {
    || (t == LENS && bits == 9 && |lens| <= 286)
    || (t == DISTS && bits == 6 && |lens| <= 30)
    || (t != CODES && bits <= 9 && forall i :: 0 <= i < |lens| ==> lens[i] <= bits)
  }

  lemma {:induction false} EnoughRoom(t: CodeType, lens: seq<nat>, count: seq<nat>, bits: nat, root: nat, min: nat,
                                      max: nat)
    requires EnoughKnown(t, lens, bits) && Plan(t, lens, count, root, min, max) && (Complete(lens) || max == 1)
    requires RootFor(bits, min, max, root) && bits >= 1
    ensures (max == root || Roomy(lens, root, Enough(t, bits))) && Pow2(root) <= Enough(t, bits)
  {
    SmallPowers();
    if max <= bits {
      Pow2Mono(max, 9);
    } else if forall i :: 0 <= i < |lens| ==> lens[i] <= bits {
      ShortLengths(lens, bits, max);
    } else {
      if t == LENS { EnoughLens(lens); } else { EnoughDists(lens); }
      if min > bits { SomeShort(lens, min, bits); }
    }
  }

  /** The root table has bits bits, unless all codes are shorter or all are longer. */
  ghost predicate RootFor(bits: nat, min: nat, max: nat, root: nat) {
    root == if bits >= max then max else if bits < min then min else bits
  }

  /** So few symbols cannot all have long codes. */
  lemma {:induction false} SomeShort(lens: seq<nat>, min: nat, bits: nat)
    requires Complete(lens) && Gap(lens, 0, min) && 2 <= bits < MAX_BITS && |lens| < Pow2(bits)
    ensures min <= bits
  {
    CompleteFits(lens);
    CodesBound(lens, bits);
    if min > bits {
      FewerLong(lens, 0, 0, bits);
      Exhausted(lens);
      if LongCodes(lens, bits, MAX_BITS) > 0 {
        FewShortManyLong(lens, bits);
      } else {
        LongSplit(lens, 0, bits, MAX_BITS);
        NoCodes(lens, MAX_BITS);
      }
    }
  }

  lemma {:induction false} NoCodes(lens: seq<nat>, b: nat)
    requires LongCodes(lens, 0, b) == 0
    ensures TakenSpace(lens, b) == 0 || b == 0
  {
    if b > 1 { NoCodes(lens, b - 1); }
  }

  /** Makes a table that forces an error. */
  method MarkEmpty(table: array<Entry>, base: nat)
    requires base + 2 <= table.Length
    modifies table
    ensures table[base..base + 2] == [INVALID, INVALID]
    ensures forall k :: 0 <= k < table.Length && !(base <= k < base + 2) ==> table[k] == old(table[k])
  {
    table[base], table[base + 1] := INVALID, INVALID;
  }

  lemma {:induction false} EnoughForTwo(t: CodeType, bits: nat)
    requires 1 <= bits
    ensures 2 <= Enough(t, bits)
  {
    Pow2Mono(1, bits);
    assert Pow2(1) == 2;
  }

  lemma {:induction false} EnoughForRoot(lens: seq<nat>, bits: nat, max: nat)
    requires forall i :: 0 <= i < |lens| ==> lens[i] <= bits
    requires IsCode(lens, max, 0)
    ensures max <= bits && Pow2(max) <= Enough(CODES, bits)
  {
    ShortLengths(lens, bits, max);
    Pow2Mono(max, bits);
  }

  /** Bounds the lengths and checks for an over-subscribed or incomplete set. */
  method Examine(t: CodeType, lens: seq<nat>, count: seq<nat>, bits: nat)
    returns (ok: bool, root: nat, min: nat, max: nat)
    requires ValidLens(lens) && |lens| <= MaxCodes(t) && Counts(lens, count) && 1 <= bits
    ensures ok <==> Acceptable(t, lens)
    ensures max == 0 <==> NoSymbols(lens)
    ensures max > 0 && ok ==> Plan(t, lens, count, root, min, max)
    ensures max > 0 && ok ==> (Complete(lens) || max == 1) && RootFor(bits, min, max, root)
  {
    max := LongestLength(lens, count);
    root := if bits > max then max else bits;
    if max == 0 {
      return true, 1, 0, 0;
    }
    assert !NoSymbols(lens) by { assert !NoCode(lens, max); }
    min := ShortestLength(lens, count, max);
    root := if root < min then min else root;
    var left := CheckLengths(lens, count);
    ok := !(left < 0 || (left > 0 && (t == CODES || max != 1)));
    if IsMax(lens, 1) { OneMax(lens, max, 0); }
  }

  /** What is done once the lengths have been found acceptable. */
  method BuildChecked(t: CodeType, lens: seq<nat>, count: seq<nat>, table: array<Entry>, base: nat,
                      limit: nat, root: nat, min: nat, max: nat)
    returns (ret: int, used: nat)
    requires Plan(t, lens, count, root, min, max) && !NoSymbols(lens) && (Complete(lens) || max == 1)
    requires t == CODES ==> root == max && Pow2(root) <= limit
    requires base + limit <= table.Length
    modifies table
    ensures ret == 0 || ret == 1
    ensures t == CODES || ((max == root || Roomy(lens, root, limit)) && Pow2(root) <= limit) ==> ret == 0
    ensures ret == 0 ==> used <= limit && Built(table[base..base + used], t, lens, root)
    ensures forall k :: 0 <= k < table.Length && !(base <= k < base + limit) ==> table[k] == old(table[k])
    ensures ret == 0 ==>
              forall k :: 0 <= k < table.Length && !(base <= k < base + used) ==> table[k] == old(table[k])
  {
    if t != CODES && Pow2(root) > limit {
      return 1, 0;
    }
    var ok;
    ok, used := BuildCodes(t, lens, count, table, base, root, min, max, limit);
    ret := if ok then 0 else 1;
  }

  lemma {:induction false} ShortLengths(lens: seq<nat>, bits: nat, max: nat)
    requires forall i :: 0 <= i < |lens| ==> lens[i] <= bits
    requires IsCode(lens, max, 0)
    ensures max <= bits
  {
    if max > bits { NoneSoLong(lens, |lens|, max); }
  }

  lemma {:induction false} NoneSoLong(lens: seq<nat>, n: nat, b: nat)
    requires n <= |lens| && forall i :: 0 <= i < |lens| ==> lens[i] < b
    ensures Cnt(lens, n, b) == 0
  {
    if n != 0 { NoneSoLong(lens, n - 1, b); }
  }

  // ----- looking codes up -----

  /** Looking up the string x ends, in one lookup or two, at the leaf, with n bits taken. */
  ghost predicate LooksUp(T: seq<Entry>, root: nat, x: seq<bool>, leaf: Entry, n: nat) {
    && root <= |x| && Pack(x[..root]) < |T|
    && var e := T[Pack(x[..root])];
    if IsLink(e) then
      && e.bits == root < n && root + e.op <= |x|
      && e.val + Pack(x[root..root + e.op]) < |T|
      && T[e.val + Pack(x[root..root + e.op])] == leaf.(bits := n - root)
    else e == leaf.(bits := n)
  }

  /** Any string that starts with a symbol's code leads to that symbol and its exact length. */
  lemma {:induction false} LookupFinds(T: seq<Entry>, t: CodeType, lens: seq<nat>, root: nat, s: nat, x: seq<bool>)
    requires Decodes(T, t, lens, root) && s < |lens| && lens[s] != 0
    requires CodeString(lens, s) <= x && |x| >= MAX_BITS
    ensures LooksUp(T, root, x, MakeEntry(t, s, 0), lens[s])
  {
    assert DecodesSymbol(T, t, lens, root, s);
    LeafIsNotLink(t, s, 0);
    PlacedLooksUp(T, root, CodeString(lens, s), MakeEntry(t, s, 0), x);
  }

  lemma {:induction false} PlacedLooksUp(T: seq<Entry>, root: nat, w: seq<bool>, leaf: Entry, x: seq<bool>)
    requires Placed(T, root, |T|, w, leaf) && w <= x && |x| >= MAX_BITS >= root && !IsLink(leaf)
    ensures LooksUp(T, root, x, leaf, |w|)
  {
    if |w| <= root {
      UnpackOfPack(x[..root]);
      assert w <= x[..root];
    } else {
      SubLooksUp(T, root, w, leaf, x);
    }
  }

  lemma {:induction false} SubLooksUp(T: seq<Entry>, root: nat, w: seq<bool>, leaf: Entry, x: seq<bool>)
    requires PlacedSub(T, root, |T|, w, leaf) && w <= x && |x| >= MAX_BITS >= root
    ensures LooksUp(T, root, x, leaf, |w|)
  {
    assert x[..root] == w[..root];
    var e := T[Pack(w[..root])];
    var y := x[root..root + e.op];
    UnpackOfPack(y);
    assert w[root..] <= y;
  }
}
