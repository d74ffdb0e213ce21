/** inflate_fast: unchecked decoding of items while there is plenty of input and output. */
module InflateFast {
  import opened Bits
  import opened Canonical
  import opened InflateTable
  import opened Symbols
  import opened Lz77
  import opened Tokens
  import opened BitReader
  import opened BlockStates

  const MAX_INPUT := 6
  const MAX_HELD := 30

  lemma {:induction false} LowOfShr(v: nat, m: nat, n: nat)
    ensures Low(Shr(v, m), n) == Shr(Low(v, m + n), m)
  {
    if m != 0 {
      LowOfShr(v / 2, m - 1, n);
      assert Low(v, m + n) / 2 == Low(v / 2, m - 1 + n);
    }
  }

  /** Two bytes when fewer than 15 bits are held. */
  method PullTwo(input: seq<byte>, a: Acc) returns (a': Acc)
    requires Good(input, a) && (a.bits < 15 ==> a.next + 2 <= |input|)
    ensures Good(input, a') && Unread(input, a') == Unread(input, a)
    ensures if a.bits < 15 then a'.bits == a.bits + 16 && a'.next == a.next + 2 else a' == a
  {
    a' := a;
    if a.bits < 15 {
      a' := PullByte(input, a');
      a' := PullByte(input, a');
    }
  }

  /** One code, of which all bits are known to be held. */
  method FastCode(input: seq<byte>, a: Acc, T: seq<Entry>, root: nat, ghost t: CodeType, ghost lens: seq<nat>)
    returns (a': Acc, here: Entry, ghost w: seq<bool>)
    requires Good(input, a) && Tables(T, t, lens, root) && a.bits >= MAX_BITS
    ensures Good(input, a') && a'.next == a.next && a'.bits == a.bits - |w| && 1 <= |w| <= MAX_BITS
    ensures Decoded(t, lens, w, here) && Unread(input, a) == w + Unread(input, a')
  {
    AtRoot(T, t, lens, root, a);
    here := T[Low(a.hold, root)];
    HeldAhead(a, here.bits);
    a' := DropBits(input, a, here.bits);
    w := Unpack(a.hold, here.bits);
    if here.op != 0 && here.op / 16 == 0 {
      a', here, w := FastSub(input, a, a', T, root, here, t, lens);
    } else {
      here := here.(bits := 0);
    }
  }

  /** The second lookup, after the bits of the first have been dropped. */
  method FastSub(input: seq<byte>, ghost a: Acc, a1: Acc, T: seq<Entry>, root: nat, last: Entry, ghost t: CodeType,
                 ghost lens: seq<nat>)
    returns (a': Acc, here: Entry, ghost w: seq<bool>)
    requires Good(input, a) && Good(input, a1) && Tables(T, t, lens, root) && a.bits >= MAX_BITS
    requires LinkAt(T, root, a, last)
    requires a1 == Acc(Shr(a.hold, root), a.bits - root, a.next)
    requires Unread(input, a) == Unpack(a.hold, root) + Unread(input, a1)
    ensures Good(input, a') && a'.next == a.next && a'.bits == a.bits - |w| && 1 <= |w| <= MAX_BITS
    ensures Decoded(t, lens, w, here) && Unread(input, a) == w + Unread(input, a')
  {
    SubEntry(T, t, lens, root, a, last);
    here := T[last.val + Low(a1.hold, last.op)];
    w := Unpack(a.hold, root + here.bits);
    a' := DropBits(input, a1, here.bits);
    BothParts(a.hold, root, here.bits, Unread(input, a'));
    here := here.(bits := 0);
  }

  /** The entry found by the second lookup when the bits of the first have been dropped. */
  lemma {:induction false} SubEntry(T: seq<Entry>, t: CodeType, lens: seq<nat>, root: nat, a: Acc, last: Entry)
    requires Tables(T, t, lens, root) && LinkAt(T, root, a, last)
    ensures last.val + Low(Shr(a.hold, root), last.op) < |T|
    ensures var e := T[last.val + Low(Shr(a.hold, root), last.op)];
            && 1 <= root + e.bits <= MAX_BITS && Decoded(t, lens, Unpack(a.hold, root + e.bits), e.(bits := 0))
  {
    AtSub(T, t, lens, root, a, last);
    LowOfShr(a.hold, root, last.op);
    HeldAhead(a, root + T[last.val + Low(Shr(a.hold, root), last.op)].bits);
  }

  /** The bits of both lookups, together. */
  lemma {:induction false} BothParts(v: nat, m: nat, n: nat, u: seq<bool>)
    ensures Unpack(v, m) + (Unpack(Shr(v, m), n) + u) == Unpack(v, m + n) + u
  {
    UnpackSplit(v, m, n);
    Assoc(Unpack(v, m), Unpack(Shr(v, m), n), u);
  }

  /** The extra bits of a length: at most one byte is pulled for them. */
  method LengthExtra(input: seq<byte>, a: Acc, n: nat) returns (a': Acc, v: nat)
    requires Good(input, a) && n <= 8 && (a.bits < n ==> a.next < |input|)
    ensures Good(input, a') && v < Pow2(n) && Unread(input, a) == Unpack(v, n) + Unread(input, a')
    ensures if a.bits < n then a'.bits == a.bits + 8 - n && a'.next == a.next + 1 else
              a'.bits == a.bits - n && a'.next == a.next
  {
    a' := a;
    if a.bits < n {
      a' := PullByte(input, a');
    }
    a', v := Extra(input, a', n);
  }

  /** The low n bits, taken. */
  method Extra(input: seq<byte>, a: Acc, n: nat) returns (a': Acc, v: nat)
    requires Good(input, a) && n <= a.bits
    ensures Good(input, a') && v < Pow2(n) && Unread(input, a) == Unpack(v, n) + Unread(input, a')
    ensures a'.bits == a.bits - n && a'.next == a.next
  {
    v := Low(a.hold, n);
    UnpackLow(a.hold, n);
    a' := DropBits(input, a, n);
  }

  /** The extra bits of a distance: at most two bytes are pulled for them. */
  method DistExtra(input: seq<byte>, a: Acc, n: nat) returns (a': Acc, v: nat)
    requires Good(input, a) && n <= 16
    requires a.bits < n ==> a.next < |input|
    requires a.bits + 8 < n ==> a.next + 1 < |input|
    ensures Good(input, a') && v < Pow2(n) && Unread(input, a) == Unpack(v, n) + Unread(input, a')
    ensures if a.bits + 8 < n then a'.bits == a.bits + 16 - n && a'.next == a.next + 2
            else if a.bits < n then a'.bits == a.bits + 8 - n && a'.next == a.next + 1
            else a'.bits == a.bits - n && a'.next == a.next
  {
    a' := a;
    if a'.bits < n {
      a' := PullByte(input, a');
      if a'.bits < n {
        a' := PullByte(input, a');
      }
    }
    a', v := Extra(input, a', n);
  }

  datatype Fetched = Literal(b: byte) | Copy(len: nat, dist: nat) | EndOfBlock | Invalid

  /** What was fetched is what the bits taken stand for. */
  ghost predicate Fetches(r: Fetched, cur: Cur) {
    match r
    case Literal(b) => cur == AtItem(Lit(b))
    case Copy(len, dist) =>
        cur.AtItem? && cur.it.Pair? && len == LengthBase(cur.it.c) + cur.it.e && dist == DistBase(cur.it.d) + cur.it.f
    case EndOfBlock => cur.AtEnd?
    case Invalid => cur.BadLen? || cur.BadDist?
  }

  lemma {:induction false} KeptOn(g: Lens, input: seq<byte>, a: Acc, cur: Cur, a1: Acc, cur1: Cur, a2: Acc, cur2: Cur)
    requires Kept(g, input, a, cur, a1, cur1) && Kept(g, input, a1, cur1, a2, cur2)
    ensures Kept(g, input, a, cur, a2, cur2)
  {
  }

  /** The literal/length code of an item. */
  method FetchLength(k: Codes, ghost g: Lens, input: seq<byte>, a: Acc) returns (a': Acc, here: Entry, ghost cur: Cur)
    requires Ready(k, g) && Good(input, a) && a.bits >= MAX_BITS
    ensures Kept(g, input, a, AtLen, a', cur) && a'.next == a.next && a.bits - MAX_BITS <= a'.bits < a.bits
    ensures if here.op == 0 then here.val < 256 && cur == AtItem(Lit(here.val))
            else if Flag16(here.op) then
                cur.AtLenExt? && here.op % 16 == ExtraLength(cur.c) && here.val == LengthBase(cur.c)
            else if Flag32(here.op) then cur.AtEnd? else cur.BadLen?
  {
    ghost var w;
    a', here, w := FastCode(input, a, k.lencode, k.lenbits, LENS, g.ll);
    ghost var s := LengthEntry(g.ll, w, here);
    LengthFlags(g.ll, w, here);
    if here.op == 0 {
      cur := AtItem(Lit(here.val));
    } else if Flag16(here.op) {
      cur := AtLenExt(s - 257);
    } else if Flag32(here.op) {
      cur := AtEnd;
    } else {
      cur := BadLen(w);
    }
  }

  lemma {:induction false} LengthFlags(ll: seq<nat>, w: seq<bool>, here: Entry)
    requires Decoded(LENS, ll, w, here)
    ensures here.op != 0 ==> (Flag16(here.op) <==> !Flag64(here.op))
    ensures Flag16(here.op) ==> !Flag32(here.op)
  {
    if x: nat :| SymbolRead(LENS, ll, w, here, x) {
      if 257 <= x { LengthOpFlags(x - 257); }
    }
  }

  /** The distance code of an item. */
  method FetchDist(k: Codes, ghost g: Lens, input: seq<byte>, a: Acc, ghost cur: Cur)
    returns (a': Acc, here: Entry, ghost cur': Cur)
    requires Ready(k, g) && Good(input, a) && a.bits >= MAX_BITS && cur.AtDist? && Sensible(g, cur)
    ensures Kept(g, input, a, cur, a', cur') && a'.next == a.next && a.bits - MAX_BITS <= a'.bits < a.bits
    ensures if Flag16(here.op) then
              cur'.AtDistExt? && cur'.c == cur.c && cur'.e == cur.e && here.op % 16 == ExtraDist(cur'.d)
              && here.val == DistBase(cur'.d)
            else cur'.BadDist?
  {
    ghost var w;
    a', here, w := FastCode(input, a, k.distcode, k.distbits, DISTS, g.dl);
    ghost var d := DistEntry(g.dl, w, here);
    DistFlags(g.dl, w, here);
    if Flag16(here.op) {
      cur' := AtDistExt(cur.c, cur.e, d);
    } else {
      cur' := BadDist(cur.c, cur.e, w);
    }
    Assoc(Part(g, cur), w, Unread(input, a'));
  }

  lemma {:induction false} DistFlags(dl: seq<nat>, w: seq<bool>, here: Entry)
    requires Decoded(DISTS, dl, w, here)
    ensures Flag16(here.op) <==> !Flag64(here.op)
  {
    if x: nat :| SymbolRead(DISTS, dl, w, here, x) {
      DistOpFlags(x);
    }
  }

  /** The length of an item. */
  method FetchLengthExtra(ghost g: Lens, input: seq<byte>, a: Acc, here: Entry, ghost cur: Cur)
    returns (a': Acc, len: nat, ghost cur': Cur)
    requires Good(input, a) && cur.AtLenExt? && Sensible(g, cur) && here.op % 16 == ExtraLength(cur.c)
    requires here.val == LengthBase(cur.c)
    requires a.bits < ExtraLength(cur.c) ==> a.next < |input|
    ensures Kept(g, input, a, cur, a', cur') && cur'.AtDist? && len == LengthBase(cur'.c) + cur'.e
    ensures if a.bits < ExtraLength(cur.c) then a'.bits == a.bits + 8 - ExtraLength(cur.c) && a'.next == a.next + 1
            else a'.bits == a.bits - ExtraLength(cur.c) && a'.next == a.next
  {
    var v;
    a', v := LengthExtra(input, a, here.op % 16);
    len := here.val + v;
    cur' := AtDist(cur.c, v);
    Assoc(CodeString(g.ll, 257 + cur.c), Unpack(v, ExtraLength(cur.c)), Unread(input, a'));
  }

  /** The distance of an item. */
  method FetchDistExtra(ghost g: Lens, input: seq<byte>, a: Acc, here: Entry, ghost cur: Cur)
    returns (a': Acc, dist: nat, ghost cur': Cur)
    requires Good(input, a) && cur.AtDistExt? && Sensible(g, cur) && here.op % 16 == ExtraDist(cur.d)
    requires here.val == DistBase(cur.d)
    requires a.bits < ExtraDist(cur.d) ==> a.next < |input|
    requires a.bits + 8 < ExtraDist(cur.d) ==> a.next + 1 < |input|
    ensures Kept(g, input, a, cur, a', cur')
    ensures cur'.AtItem? && cur'.it.Pair? && cur'.it.c == cur.c && cur'.it.e == cur.e
    ensures dist == DistBase(cur'.it.d) + cur'.it.f
    ensures a'.bits <= a.bits || a'.bits <= 8
    ensures a'.next <= a.next + 2 && (a.bits + 8 >= ExtraDist(cur.d) ==> a'.next <= a.next + 1)
  {
    var v;
    a', v := DistExtra(input, a, here.op % 16);
    dist := here.val + v;
    cur' := AtItem(Pair(cur.c, cur.e, cur.d, v));
    PairKept(g, input, a, a', cur, v);
  }

  lemma {:induction false} ExtraBounds(c: nat, d: nat)
    requires c < LENGTH_CODES && d < D_CODES
    ensures ExtraLength(c) <= 5 && ExtraDist(d) <= 13
  {
  }

  /** Bytes that may have to be pulled for a distance when b bits are held before it. */
  function DistNeeds(b: nat): nat {
    if b >= 15 then 2 else if b >= 4 then 3 else 4
  }

  /** The distance of an item after its length. */
  method FetchRest(k: Codes, ghost g: Lens, input: seq<byte>, a: Acc, len: nat, ghost cur: Cur)
    returns (a': Acc, r: Fetched, ghost cur': Cur)
    requires Ready(k, g) && Good(input, a) && cur.AtDist? && Sensible(g, cur) && a.bits < MAX_HELD
    requires len == LengthBase(cur.c) + cur.e
    requires a.next + DistNeeds(a.bits) <= |input|
    ensures Kept(g, input, a, cur, a', cur') && Fetches(r, cur')
    ensures a'.next <= a.next + DistNeeds(a.bits) && a'.bits <= MAX_HELD
  {
    var here, dist;
    a' := PullTwo(input, a);
    a', here, cur' := FetchDist(k, g, input, a', cur);
    if Flag16(here.op) {
      ExtraBounds(0, cur'.d);
      ghost var a3, cur3 := a', cur';
      a', dist, cur' := FetchDistExtra(g, input, a', here, cur');
      KeptOn(g, input, a, cur, a3, cur3, a', cur');
      r := Copy(len, dist);
    } else {
      r := Invalid;
    }
  }

  /** The rest of an item after its length code. With at least one bit held after that
      code four more bytes are enough, else five. */
  method FetchPair(k: Codes, ghost g: Lens, input: seq<byte>, a: Acc, here: Entry, ghost cur: Cur)
    returns (a': Acc, r: Fetched, ghost cur': Cur)
    requires Ready(k, g) && Good(input, a) && cur.AtLenExt? && Sensible(g, cur) && a.bits < MAX_HELD
    requires here.op % 16 == ExtraLength(cur.c) && here.val == LengthBase(cur.c)
    requires a.next + (if a.bits >= 1 then 4 else 5) <= |input|
    ensures Kept(g, input, a, cur, a', cur') && Fetches(r, cur')
    ensures a'.next <= a.next + (if a.bits >= 1 then 4 else 5) && a'.bits <= MAX_HELD
  {
    ExtraBounds(cur.c, 0);
    var len;
    a', len, cur' := FetchLengthExtra(g, input, a, here, cur);
    ghost var a1, cur1 := a', cur';
    a', r, cur' := FetchRest(k, g, input, a', len, cur');
    KeptOn(g, input, a, cur, a1, cur1, a', cur');
  }

  /** Decodes one item without checking for input: six bytes are always enough. */
  method Fetch(k: Codes, ghost g: Lens, input: seq<byte>, a: Acc) returns (a': Acc, r: Fetched, ghost cur: Cur)
    requires Ready(k, g) && Good(input, a) && a.next + MAX_INPUT <= |input| && a.bits <= MAX_HELD
    ensures Kept(g, input, a, AtLen, a', cur) && Fetches(r, cur)
    ensures a'.next <= a.next + MAX_INPUT && a'.bits <= MAX_HELD
  {
    a' := PullTwo(input, a);
    var here;
    ghost var a1 := a';
    a', here, cur := FetchLength(k, g, input, a');
    if here.op == 0 {
      r := Literal(here.val);
    } else if Flag16(here.op) {
      ghost var a2, cur2 := a', cur;
      a', r, cur := FetchPair(k, g, input, a', here, cur);
      KeptOn(g, input, a1, AtLen, a2, cur2, a', cur);
    } else if Flag32(here.op) {
      r := EndOfBlock;
    } else {
      r := Invalid;
    }
  }
}
