/** Reading what precedes a block body: the states TYPE, STORED, TABLE and LENLENS, and the tables
    that are built from the code lengths. */
module BlockHeaders {
  import opened Bits
  import opened Canonical
  import opened SubTables
  import opened InflateTable
  import opened Symbols
  import opened Lz77
  import opened Tokens
  import opened BitReader
  import opened BlockStates
  import opened Decoding
  import opened RunLengths
  import opened CodeLengths
  import opened Blocks
  import opened BlockEncoder

  // ----- the type -----

  /** State TYPEDO, when the last block has not been read. */
  method ReadType(input: seq<byte>, a: Acc) returns (ok: bool, a': Acc, last: bool, kind: nat)
    requires Good(input, a)
    ensures Good(input, a') && a'.next >= a.next
    ensures ok ==>
              kind < 4 && Unread(input, a) == TypeBits(kind, last) + Unread(input, a') && (a.bits < 8 ==> a'.bits < 8)
    ensures !ok ==> Unread(input, a') == Unread(input, a) && a'.next == |input| && a'.bits < 3
  {
    var v;
    ok, v, a' := TakeBits(input, a, 3);
    last, kind := v % 2 == 1, v / 2;
    SmallPowers();
  }

  /** A type and what follows it are read as they were sent. */
  lemma {:induction false} SameType(kind: nat, last: bool, u: seq<bool>, kind': nat, last': bool, v: seq<bool>)
    requires kind < 4 && kind' < 4 && TypeBits(kind, last) + u == TypeBits(kind', last') + v
    ensures kind == kind' && last == last' && u == v
  {
    SmallPowers();
    var x, y := 2 * kind + (if last then 1 else 0), 2 * kind' + (if last' then 1 else 0);
    SameNumber(x, u, y, v, 3);
  }

  // ----- stored blocks -----

  /** State STORED: BYTEBITS, then the length and its complement. */
  method ReadStored(input: seq<byte>, a: Acc) returns (ok: bool, a': Acc, length: nat, check: nat)
    requires Good(input, a) && a.bits < 32
    ensures Good(input, a') && a'.next >= a.next && length <= MAX_STORED && check <= MAX_STORED
    ensures ok ==> a'.bits == 0
    ensures ok ==> Unread(input, a) == Unpack(a.hold, a.bits % 8) + (Word(length) + (Word(check) + Unread(input, a')))
    ensures !ok ==> Unread(input, a) == Unpack(a.hold, a.bits % 8) + Unread(input, a')
    ensures !ok ==> a'.next == |input| && a'.bits < 32 && a'.bits % 8 == 0
  {
    LargePowers();
    ok, a', length, check := ReadWords(input, a, 16);
  }

  /** BYTEBITS, then two numbers of n bits when both are there. */
  method ReadWords(input: seq<byte>, a: Acc, n: nat) returns (ok: bool, a': Acc, lo: nat, hi: nat)
    requires Good(input, a) && a.bits < 2 * n <= HOLD_BITS && 2 * n % 8 == 0
    ensures Good(input, a') && a'.next >= a.next && lo < Pow2(n) && hi < Pow2(n)
    ensures ok ==> a'.bits == 0
    ensures ok ==>
              Unread(input, a) == Unpack(a.hold, a.bits % 8) + (Unpack(lo, n) + (Unpack(hi, n) + Unread(input, a')))
    ensures !ok ==> Unread(input, a) == Unpack(a.hold, a.bits % 8) + Unread(input, a')
    ensures !ok ==> a'.next == |input| && a'.bits < 2 * n && a'.bits % 8 == 0
  {
    a' := DropBits(input, a, a.bits % 8);
    lo, hi := 0, 0;
    ok, a' := NeedBits(input, a', 2 * n);
    if ok {
      WholeWords(a'.bits, n);
      a', lo, hi := TakeWords(input, a', n);
    }
  }

  lemma {:induction false} WholeWords(bits: nat, n: nat)
    requires bits % 8 == 0 && 2 * n % 8 == 0 && 2 * n <= bits < 2 * n + 8
    ensures bits == 2 * n
  {
  }

  /** hold & 0xffff, hold >> 16 and INITBITS, when exactly two words are held. */
  method TakeWords(input: seq<byte>, a: Acc, n: nat) returns (a': Acc, lo: nat, hi: nat)
    requires Good(input, a) && a.bits == 2 * n
    ensures Good(input, a') && a'.next == a.next && a'.bits == 0 && lo < Pow2(n) && hi < Pow2(n)
    ensures Unread(input, a) == Unpack(lo, n) + (Unpack(hi, n) + Unread(input, a'))
  {
    lo, hi := Low(a.hold, n), Shr(a.hold, n);
    ShrBound(a.hold, n, n);
    UnpackSplit(a.hold, n, n);
    UnpackLow(a.hold, n);
    a' := Acc(0, 0, a.next);
    TwoAndRest(Unpack(lo, n), Unpack(hi, n), Stream(input[a.next..]), Held(a'));
  }

  lemma {:induction false} TwoAndRest(x: seq<bool>, y: seq<bool>, z: seq<bool>, none: seq<bool>)
    requires none == []
    ensures (x + y) + z == x + (y + (none + z))
  {
  }

  /** The header of a stored block is read as it was sent. */
  lemma {:induction false} SameStored(x: nat, y: nat, u: seq<bool>, x': nat, y': nat, v: seq<bool>)
    requires x <= MAX_STORED && y <= MAX_STORED && x' <= MAX_STORED && y' <= MAX_STORED
    requires Word(x) + (Word(y) + u) == Word(x') + (Word(y') + v)
    ensures x == x' && y == y' && u == v
  {
    SameWord(x, Word(y) + u, x', Word(y') + v);
    SameWord(y, u, y', v);
  }

  lemma {:induction false} SameWord(x: nat, u: seq<bool>, y: nat, v: seq<bool>)
    requires x <= MAX_STORED && y <= MAX_STORED && Word(x) + u == Word(y) + v
    ensures x == y && u == v
  {
    LargePowers();
    SameNumber(x, u, y, v, 16);
  }

  // ----- counts -----

  /** State TABLE: the numbers of codes. */
  method ReadCounts(input: seq<byte>, a: Acc) returns (ok: bool, a': Acc, nlen: nat, ndist: nat, ncode: nat)
    requires Good(input, a)
    ensures Good(input, a') && a'.next >= a.next && 257 <= nlen <= 288 && 1 <= ndist <= 32 && 4 <= ncode <= 19
    ensures ok ==>
              Unread(input, a) == CountBits(nlen, ndist, ncode) + Unread(input, a') && (a.bits < 14 ==> a'.bits < 8)
    ensures !ok ==> Unread(input, a') == Unread(input, a) && a'.next == |input| && a'.bits < 14
  {
    nlen, ndist, ncode := 257, 1, 4;
    var n, d, c;
    ok, a', n, d, c := ReadThree(input, a, 5, 4);
    if ok {
      FiveFour(n, d, c);
      nlen, ndist, ncode := n + 257, d + 1, c + 4;
    }
  }

  lemma {:induction false} FiveFour(n: nat, d: nat, c: nat)
    requires n < Pow2(5) && d < Pow2(5) && c < Pow2(4)
    ensures n <= 31 && d <= 31 && c <= 15 && Fields(n, d, c, 5, 4) == CountBits(n + 257, d + 1, c + 4)
  {
    SmallPowers();
  }

  function Fields(x: nat, y: nat, z: nat, m: nat, n: nat): seq<bool> {
    Unpack(x, m) + Unpack(y, m) + Unpack(z, n)
  }

  /** Two numbers of m bits and one of n bits, once all of them are there. */
  method ReadThree(input: seq<byte>, a: Acc, m: nat, n: nat) returns (ok: bool, a': Acc, x: nat, y: nat, z: nat)
    requires Good(input, a) && 2 * m + n + 7 <= HOLD_BITS
    ensures Good(input, a') && a'.next >= a.next && x < Pow2(m) && y < Pow2(m) && z < Pow2(n)
    ensures ok ==> Unread(input, a) == Fields(x, y, z, m, n) + Unread(input, a')
    ensures ok && a.bits < 2 * m + n ==> a'.bits < 8
    ensures !ok ==> Unread(input, a') == Unread(input, a) && a'.next == |input| && a'.bits < 2 * m + n
  {
    x, y, z := 0, 0, 0;
    ok, a' := NeedBits(input, a, 2 * m + n);
    if ok {
      x, a' := TakeHeld(input, a', m);
      y, a' := TakeHeld(input, a', m);
      z, a' := TakeHeld(input, a', n);
      ThreeFields(Unpack(x, m), Unpack(y, m), Unpack(z, n), Unread(input, a'));
    }
  }

  /** BITS and DROPBITS of n held bits. */
  method TakeHeld(input: seq<byte>, a: Acc, n: nat) returns (v: nat, a': Acc)
    requires Good(input, a) && n <= a.bits && Holdable(a.bits, n)
    ensures Good(input, a') && a'.next == a.next && a'.bits == a.bits - n && v < Pow2(n)
    ensures Unread(input, a) == Unpack(v, n) + Unread(input, a')
  {
    var ok;
    ok, v, a' := TakeBits(input, a, n);
  }

  lemma {:induction false} ThreeFields(x: seq<bool>, y: seq<bool>, z: seq<bool>, u: seq<bool>)
    ensures x + (y + (z + u)) == (x + y + z) + u
  {
  }

  lemma {:induction false} SameCounts(n: nat, d: nat, c: nat, u: seq<bool>, n': nat, d': nat, c': nat, v: seq<bool>)
    requires 257 <= n <= 288 && 1 <= d <= 32 && 4 <= c <= 19 && 257 <= n' <= 288 && 1 <= d' <= 32 && 4 <= c' <= 19
    requires CountBits(n, d, c) + u == CountBits(n', d', c') + v
    ensures n == n' && d == d' && c == c' && u == v
  {
    SmallPowers();
    FiveFour(n - 257, d - 1, c - 4);
    FiveFour(n' - 257, d' - 1, c' - 4);
    SameThree(n - 257, d - 1, c - 4, u, n' - 257, d' - 1, c' - 4, v, 5, 4);
  }

  lemma {:induction false} SameThree(x: nat, y: nat, z: nat, u: seq<bool>, x': nat, y': nat, z': nat, v: seq<bool>,
                                     m: nat, n: nat)
    requires x < Pow2(m) && x' < Pow2(m) && y < Pow2(m) && y' < Pow2(m) && z < Pow2(n) && z' < Pow2(n)
    requires Fields(x, y, z, m, n) + u == Fields(x', y', z', m, n) + v
    ensures x == x' && y == y' && z == z' && u == v
  {
    ThreeFields(Unpack(x, m), Unpack(y, m), Unpack(z, n), u);
    ThreeFields(Unpack(x', m), Unpack(y', m), Unpack(z', n), v);
    SameNumber(x, Unpack(y, m) + (Unpack(z, n) + u), x', Unpack(y', m) + (Unpack(z', n) + v), m);
    SameNumber(y, Unpack(z, n) + u, y', Unpack(z', n) + v, m);
    SameNumber(z, u, z', v, n);
  }

  // ----- lengths of the code length code -----

  /** The lengths from the m-th to the n-th in the order of sending. */
  function BlLensFrom(bl: seq<nat>, m: nat, n: nat): seq<bool>
    requires n <= BL_CODES && |bl| == BL_CODES
    decreases n - m
  {
    if m >= n then [] else Unpack(bl[BL_ORDER[m]], 3) + BlLensFrom(bl, m + 1, n)
  }

  lemma {:induction false} BlLensSplit(bl: seq<nat>, m: nat, n: nat)
    requires m <= n <= BL_CODES && |bl| == BL_CODES
    ensures BlLens(bl, n) == BlLens(bl, m) + BlLensFrom(bl, m, n)
    decreases n - m
  {
    if m < n {
      BlLensSplit(bl, m + 1, n);
      Assoc(BlLens(bl, m), Unpack(bl[BL_ORDER[m]], 3), BlLensFrom(bl, m + 1, n));
    }
  }

  /** The first have lengths, in the order of sending, are those of bl. */
  ghost predicate BlAgree(lens: seq<nat>, bl: seq<nat>, have: nat) {
    |lens| == |bl| == BL_CODES && have <= BL_CODES && forall i :: 0 <= i < have ==> lens[BL_ORDER[i]] == bl[BL_ORDER[i]]
  }

  /** Where each code stands in the order of sending. */
  const BL_PLACE: seq<nat> := [3, 17, 15, 13, 11, 9, 7, 5, 4, 6, 8, 10, 12, 14, 16, 18, 0, 1, 2]

  lemma {:induction false} OrderPlace(i: nat)
    requires i < BL_CODES
    ensures BL_ORDER[i] < BL_CODES && BL_PLACE[BL_ORDER[i]] == i && BL_PLACE[i] < BL_CODES && BL_ORDER[BL_PLACE[i]] == i
  {
  }

  lemma {:induction false} BlAgreeMore(lens: seq<nat>, bl: seq<nat>, have: nat)
    requires have < BL_CODES && BlAgree(lens, bl, have)
    ensures BL_ORDER[have] < BL_CODES && BlAgree(lens[BL_ORDER[have] := bl[BL_ORDER[have]]], bl, have + 1)
  {
    OrderPlace(have);
    forall i | 0 <= i < have ensures BL_ORDER[i] != BL_ORDER[have] {
      OrderPlace(i);
    }
  }

  lemma {:induction false} BlAgreeAll(lens: seq<nat>, bl: seq<nat>)
    requires BlAgree(lens, bl, BL_CODES)
    ensures lens == bl
  {
    forall c | 0 <= c < BL_CODES ensures lens[c] == bl[c] {
      OrderPlace(c);
    }
  }

  /** Equal strings hold equal lengths. */
  lemma {:induction false} SameBlLens(bl: seq<nat>, u: seq<bool>, bl': seq<nat>, v: seq<bool>, n: nat)
    requires n <= BL_CODES && |bl| == |bl'| == BL_CODES && BlLens(bl, n) + u == BlLens(bl', n) + v
    requires forall c :: 0 <= c < BL_CODES ==> bl[c] < 8 && bl'[c] < 8
    ensures BlAgree(bl, bl', n) && u == v
    decreases n
  {
    if n == 0 {
      assert [] + u == u && [] + v == v;
    } else {
      var c, three := BL_ORDER[n - 1], 3;
      OrderPlace(n - 1);
      Assoc(BlLens(bl, n - 1), Unpack(bl[c], three), u);
      Assoc(BlLens(bl', n - 1), Unpack(bl'[c], three), v);
      SameBlLens(bl, Unpack(bl[c], three) + u, bl', Unpack(bl'[c], three) + v, n - 1);
      SmallPowers();
      SameNumber(bl[c], u, bl'[c], v, three);
    }
  }

  /** The bits sent depend only on the lengths sent. */
  lemma {:induction false} BlLensOf(bl: seq<nat>, bl': seq<nat>, n: nat)
    requires BlAgree(bl, bl', n)
    ensures BlLens(bl, n) == BlLens(bl', n)
  {
    if n != 0 { BlLensOf(bl, bl', n - 1); }
  }

  /** One more length. */
  lemma {:induction false} BlLensMore(lens: seq<nat>, have: nat, v: nat)
    requires have < BL_CODES && |lens| == BL_CODES
    ensures BL_ORDER[have] < BL_CODES
    ensures BlLens(lens[BL_ORDER[have] := v], have + 1) == BlLens(lens, have) + Unpack(v, 3)
  {
    OrderPlace(have);
    var lens' := lens[BL_ORDER[have] := v];
    BlAgreeMore(lens', lens', have);
    forall i | 0 <= i < have ensures lens'[BL_ORDER[i]] == lens[BL_ORDER[i]] { OrderPlace(i); }
    BlLensOf(lens', lens, have);
  }

  /** One turn of the first loop of state LENLENS. */
  method ReadBlLen(input: seq<byte>, a: Acc, lens: seq<nat>, have: nat)
    returns (ok: bool, a': Acc, lens': seq<nat>, ghost v: nat)
    requires Good(input, a) && have < BL_CODES && |lens| == BL_CODES
    ensures Good(input, a') && a'.next >= a.next && BL_ORDER[have] < BL_CODES
    ensures ok ==>
              v < 8 && Unread(input, a) == Unpack(v, 3) + Unread(input, a') && lens' == lens[BL_ORDER[have] := v]
              && (a.bits < 8 ==> a'.bits < 8)
    ensures !ok ==> lens' == lens && Unread(input, a') == Unread(input, a) && a'.next == |input| && a'.bits < 3
  {
    OrderPlace(have);
    SmallPowers();
    var x;
    ok, x, a' := TakeBits(input, a, 3);
    v := x;
    lens' := if ok then lens[BL_ORDER[have] := x] else lens;
  }

  /** The second loop of state LENLENS: the lengths that were not sent are cleared, the others kept. */
  method ClearBlLens(lens: seq<nat>, ncode: nat) returns (lens': seq<nat>)
    requires ncode <= BL_CODES && |lens| == BL_CODES && forall c :: 0 <= c < BL_CODES ==> lens[c] <= MAX_BL_BITS
    ensures BlAgree(lens', lens, ncode) && forall c :: 0 <= c < BL_CODES ==> lens'[c] <= MAX_BL_BITS
    ensures forall i :: ncode <= i < BL_CODES ==> lens'[BL_ORDER[i]] == 0
  {
    lens' := lens;
    for have := ncode to BL_CODES
      invariant BlAgree(lens', lens, ncode) && forall c :: 0 <= c < BL_CODES ==> lens'[c] <= MAX_BL_BITS
      invariant forall i :: ncode <= i < have ==> lens'[BL_ORDER[i]] == 0
    {
      BlKeep(lens', lens, ncode, have);
      lens' := lens'[BL_ORDER[have] := 0];
    }
  }

  lemma {:induction false} BlKeep(lens: seq<nat>, bl: seq<nat>, ncode: nat, have: nat)
    requires ncode <= have < BL_CODES && BlAgree(lens, bl, ncode)
    requires forall i :: ncode <= i < have ==> lens[BL_ORDER[i]] == 0
    ensures BL_ORDER[have] < BL_CODES && BlAgree(lens[BL_ORDER[have] := 0], bl, ncode)
    ensures forall i :: ncode <= i <= have ==> lens[BL_ORDER[have] := 0][BL_ORDER[i]] == 0
  {
    OrderPlace(have);
    forall i | 0 <= i < have ensures BL_ORDER[i] != BL_ORDER[have] { OrderPlace(i); }
  }

  // ----- tables -----

  /** The table of the code length code. */
  method BuildCodeTable(lens: seq<nat>) returns (ok: bool, T: seq<Entry>, root: nat)
    requires |lens| == BL_CODES && forall i :: 0 <= i < |lens| ==> lens[i] <= 7
    ensures ok <==> Acceptable(CODES, lens)
    ensures ok ==> CodeLengths.LengthTables(T, lens, root)
  {
    SmallPowers();
    var table := new Entry[ENOUGH_LENS + ENOUGH_DISTS](_ => INVALID);
    var ret, used;
    ret, used, root := Build(CODES, lens, table, 0, 7);
    ok := ret == 0;
    T := if ok then table[0..used] else [];
  }

  /** The end of state CODELENS: no tables without an end-of-block code, or for sets that are not acceptable. */
  method BuildTables(lens: seq<nat>, nlen: nat, ndist: nat) returns (ok: bool, k: Codes)
    requires ValidLens(lens) && 257 <= nlen <= 286 && 1 <= ndist <= 30 && |lens| == nlen + ndist
    ensures ok <==> lens[256] != 0 && Acceptable(LENS, lens[..nlen]) && Acceptable(DISTS, lens[nlen..])
    ensures ok ==> Ready(k, Lens(lens[..nlen], lens[nlen..]))
  {
    k := Codes([], 0, [], 0);
    if lens[256] == 0 {
      return false, k;
    }
    var table := new Entry[ENOUGH_LENS + ENOUGH_DISTS](_ => INVALID);
    var ret, used, lenbits := Build(LENS, lens[..nlen], table, 0, 9);
    if ret != 0 {
      return false, k;
    }
    var lencode := table[0..used];
    var ret2, used2, distbits := Build(DISTS, lens[nlen..], table, used, 6);
    if ret2 != 0 {
      return false, k;
    }
    k := Codes(lencode, lenbits, table[used..used + used2], distbits);
    ok := true;
  }
}
