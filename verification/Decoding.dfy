/** Bits determine items: what was decoded of a stream is what was encoded into it. */
module Decoding {
  import opened Bits
  import opened Canonical
  import opened SubTables
  import opened InflateTable
  import opened Symbols
  import opened Tokens
  import opened BitReader
  import opened BlockStates
  import opened BlockOutput

  ghost predicate Usable(lens: seq<nat>) {
    ValidLens(lens) && Fits(lens)
  }

  lemma {:induction false} Cancel(a: seq<bool>, x: seq<bool>, b: seq<bool>, y: seq<bool>)
    requires a + x == b + y && |a| == |b|
    ensures a == b && x == y
  {
    assert a == (a + x)[..|a|] && x == (a + x)[|a|..];
    assert b == (b + y)[..|b|] && y == (b + y)[|b|..];
  }

  lemma {:induction false} SameCode(lens: seq<nat>, s: nat, x: seq<bool>, t: nat, y: seq<bool>)
    requires Usable(lens) && HasCode(lens, s) && HasCode(lens, t)
    requires CodeString(lens, s) + x == CodeString(lens, t) + y
    ensures s == t && x == y
  {
    var a, b := CodeString(lens, s), CodeString(lens, t);
    PrefixesCompare(a, x, b, y);
    if a <= b {
      CodeStringsDiffer(lens, s, t);
    } else {
      CodeStringsDiffer(lens, t, s);
    }
    Cancel(a, x, b, y);
  }

  lemma {:induction false} PrefixesCompare(a: seq<bool>, x: seq<bool>, b: seq<bool>, y: seq<bool>)
    requires a + x == b + y
    ensures a <= b || b <= a
  {
    assert a <= a + x && b <= b + y;
    CommonExtension(a, b, a + x);
  }

  lemma {:induction false} SameNumber(x: nat, u: seq<bool>, y: nat, v: seq<bool>, n: nat)
    requires x < Pow2(n) && y < Pow2(n) && Unpack(x, n) + u == Unpack(y, n) + v
    ensures x == y && u == v
  {
    Cancel(Unpack(x, n), u, Unpack(y, n), v);
    PackOfUnpack(x, n);
    PackOfUnpack(y, n);
    LowSmall(x, n);
    LowSmall(y, n);
  }

  /** A code and its extra bits can be told from what follows. */
  lemma {:induction false} SameLengthField(ll: seq<nat>, c: nat, e: nat, u: seq<bool>, c': nat, e': nat, v: seq<bool>)
    requires Usable(ll) && HasCode(ll, 257 + c) && HasCode(ll, 257 + c') && e < Pow2(ExtraLength(c))
    requires e' < Pow2(ExtraLength(c'))
    requires LengthField(ll, c, e) + u == LengthField(ll, c', e') + v
    ensures c == c' && e == e' && u == v
  {
    var n, n' := ExtraLength(c), ExtraLength(c');
    Assoc(CodeString(ll, 257 + c), Unpack(e, n), u);
    Assoc(CodeString(ll, 257 + c'), Unpack(e', n'), v);
    SameCode(ll, 257 + c, Unpack(e, n) + u, 257 + c', Unpack(e', n') + v);
    SameNumber(e, u, e', v, n);
  }

  lemma {:induction false} SameDistField(dl: seq<nat>, d: nat, f: nat, u: seq<bool>, d': nat, f': nat, v: seq<bool>)
    requires Usable(dl) && HasCode(dl, d) && HasCode(dl, d') && f < Pow2(ExtraDist(d)) && f' < Pow2(ExtraDist(d'))
    requires DistField(dl, d, f) + u == DistField(dl, d', f') + v
    ensures d == d' && f == f' && u == v
  {
    var n, n' := ExtraDist(d), ExtraDist(d');
    Assoc(CodeString(dl, d), Unpack(f, n), u);
    Assoc(CodeString(dl, d'), Unpack(f', n'), v);
    SameCode(dl, d, Unpack(f, n) + u, d', Unpack(f', n') + v);
    SameNumber(f, u, f', v, n);
  }

  /** The bits after that code. */
  ghost function AfterLeading(g: Lens, it: Item): seq<bool>
    requires Codable(g.ll, g.dl, it)
  {
    match it
    case Lit(_) => []
    case Pair(c, e, d, f) => Unpack(e, ExtraLength(c)) + DistField(g.dl, d, f)
  }

  lemma {:induction false} ItemStarts(g: Lens, it: Item, u: seq<bool>)
    requires Codable(g.ll, g.dl, it)
    ensures HasCode(g.ll, LeadSymbol(it))
    ensures ItemBits(g.ll, g.dl, it) + u == CodeString(g.ll, LeadSymbol(it)) + (AfterLeading(g, it) + u)
  {
    match it
    case Lit(b) => assert [] + u == u;
    case Pair(c, e, d, f) =>
      var x, y, z := CodeString(g.ll, 257 + c), Unpack(e, ExtraLength(c)), DistField(g.dl, d, f);
      assert ((x + y) + z) + u == x + ((y + z) + u);
  }

  /** An item can be told from what follows. */
  lemma {:induction false} SameItem(g: Lens, it: Item, u: seq<bool>, it': Item, v: seq<bool>)
    requires Usable(g.ll) && Usable(g.dl) && Codable(g.ll, g.dl, it) && Codable(g.ll, g.dl, it')
    requires ItemBits(g.ll, g.dl, it) + u == ItemBits(g.ll, g.dl, it') + v
    ensures it == it' && u == v
  {
    ItemStarts(g, it, u);
    ItemStarts(g, it', v);
    SameCode(g.ll, LeadSymbol(it), AfterLeading(g, it) + u, LeadSymbol(it'), AfterLeading(g, it') + v);
    if it.Pair? && it'.Pair? {
      SamePair(g, it, u, it', v);
    } else {
      assert [] + u == u && [] + v == v;
    }
  }

  lemma {:induction false} SamePair(g: Lens, it: Item, u: seq<bool>, it': Item, v: seq<bool>)
    requires Usable(g.ll) && Usable(g.dl) && Codable(g.ll, g.dl, it) && Codable(g.ll, g.dl, it') && it.Pair?
    requires it'.Pair?
    requires ItemBits(g.ll, g.dl, it) + u == ItemBits(g.ll, g.dl, it') + v
    ensures it == it' && u == v
  {
    Assoc(LengthField(g.ll, it.c, it.e), DistField(g.dl, it.d, it.f), u);
    Assoc(LengthField(g.ll, it'.c, it'.e), DistField(g.dl, it'.d, it'.f), v);
    SameLengthField(g.ll, it.c, it.e, DistField(g.dl, it.d, it.f) + u, it'.c, it'.e, DistField(g.dl, it'.d, it'.f) + v);
    SameDistField(g.dl, it.d, it.f, u, it'.d, it'.f, v);
  }

  lemma {:induction false} SameItemBits(g: Lens, it: Item, w: seq<bool>, u: seq<bool>, it': Item, w': seq<bool>,
                                        v: seq<bool>)
    requires Usable(g.ll) && Usable(g.dl) && ItemBitsAre(g.ll, g.dl, it, w) && ItemBitsAre(g.ll, g.dl, it', w')
    requires w + u == w' + v
    ensures it == it' && u == v
  {
    SameItem(g, it, u, it', v);
  }

  /** Equal streams hold equal items as far as both go. */
  lemma {:induction false} SameItems(g: Lens, its: seq<Item>, u: seq<bool>, its': seq<Item>, v: seq<bool>, n: nat)
    requires Usable(g.ll) && Usable(g.dl) && AllCodable(g.ll, g.dl, its) && AllCodable(g.ll, g.dl, its')
    requires n <= |its| && n <= |its'| && Join(Parts(g.ll, g.dl, its), n) + u == Join(Parts(g.ll, g.dl, its'), n) + v
    ensures u == v && its[..n] == its'[..n]
    decreases n
  {
    PartsAre(g, its);
    PartsAre(g, its');
    SameParts(g, its, Parts(g.ll, g.dl, its), u, its', Parts(g.ll, g.dl, its'), v, n);
  }

  ghost predicate PartIs(g: Lens, its: seq<Item>, ps: seq<seq<bool>>, i: nat) {
    i < |its| && i < |ps| && ItemBitsAre(g.ll, g.dl, its[i], ps[i])
  }

  ghost predicate AreParts(g: Lens, its: seq<Item>, ps: seq<seq<bool>>) {
    |ps| == |its| && forall i {:trigger PartIs(g, its, ps, i)} :: 0 <= i < |its| ==> PartIs(g, its, ps, i)
  }

  lemma {:induction false} PartsAre(g: Lens, its: seq<Item>)
    requires AllCodable(g.ll, g.dl, its)
    ensures AreParts(g, its, Parts(g.ll, g.dl, its))
  {
    forall i | 0 <= i < |its|
      ensures PartIs(g, its, Parts(g.ll, g.dl, its), i)
    {
      PartAt(g.ll, g.dl, its, i);
    }
  }

  lemma {:induction false} SameParts(g: Lens, its: seq<Item>, ps: seq<seq<bool>>, u: seq<bool>, its': seq<Item>,
                                     ps': seq<seq<bool>>, v: seq<bool>, n: nat)
    requires Usable(g.ll) && Usable(g.dl) && AreParts(g, its, ps) && AreParts(g, its', ps')
    requires n <= |its| && n <= |its'| && Join(ps, n) + u == Join(ps', n) + v
    ensures u == v && forall i :: 0 <= i < n ==> its[i] == its'[i]
    decreases n
  {
    if n == 0 {
      assert [] + u == u && [] + v == v;
    } else {
      var k := n - 1;
      Assoc(Join(ps, k), ps[k], u);
      Assoc(Join(ps', k), ps'[k], v);
      SameParts(g, its, ps, ps[k] + u, its', ps', ps'[k] + v, k);
      assert PartIs(g, its, ps, k) && PartIs(g, its', ps', k);
      SameItemBits(g, its[k], ps[k], u, its'[k], ps'[k], v);
    }
  }

  // ----- a stream that starts with an encoded block -----

  /** The parts from n on, joined. */
  ghost function JoinFrom(parts: seq<seq<bool>>, n: nat): seq<bool>
    requires n <= |parts|
    decreases |parts| - n
  {
    if n == |parts| then [] else parts[n] + JoinFrom(parts, n + 1)
  }

  lemma {:induction false} JoinSplit(parts: seq<seq<bool>>, n: nat, u: seq<bool>)
    requires n <= |parts|
    ensures Join(parts, |parts|) + u == Join(parts, n) + (JoinFrom(parts, n) + u)
    decreases |parts| - n
  {
    if n == |parts| {
      assert [] + u == u;
    } else {
      JoinSplit(parts, n + 1, u);
      var v := JoinFrom(parts, n + 1);
      Assoc(Join(parts, n), parts[n], v + u);
      Assoc(parts[n], v, u);
    }
  }

  /** Both codes of a block are ones that inflate_table accepts, and the block can end. */
  ghost predicate CodesOk(g: Lens) {
    && Usable(g.ll) && Usable(g.dl) && Acceptable(LENS, g.ll) && Acceptable(DISTS, g.dl)
    && |g.ll| <= MaxCodes(LENS) && |g.dl| <= MaxCodes(DISTS) && HasCode(g.ll, END_BLOCK)
  }

  ghost predicate Encodable(g: Lens, its: seq<Item>) {
    CodesOk(g) && AllCodable(g.ll, g.dl, its)
  }

  /** What an encoded block and the bits after it look like from item n on. */
  ghost function ToCome(g: Lens, its: seq<Item>, rest: seq<bool>, n: nat): seq<bool>
    requires Encodable(g, its) && n <= |its|
  {
    JoinFrom(Parts(g.ll, g.dl, its), n) + (CodeString(g.ll, END_BLOCK) + rest)
  }

  /** The next code of the block and what follows it. */
  lemma {:induction false} NextCode(g: Lens, its: seq<Item>, rest: seq<bool>, n: nat) returns (s: nat, x: seq<bool>)
    requires Encodable(g, its) && n <= |its|
    ensures s == (if n < |its| then LeadSymbol(its[n]) else END_BLOCK) && s < 286 && HasCode(g.ll, s)
    ensures ToCome(g, its, rest, n) == CodeString(g.ll, s) + x
  {
    var e := CodeString(g.ll, END_BLOCK) + rest;
    if n == |its| {
      s, x := END_BLOCK, rest;
      assert [] + e == e;
    } else {
      var u := NextItem(g, its, rest, n);
      PartAt(g.ll, g.dl, its, n);
      ItemStarts(g, its[n], u);
      s, x := LeadSymbol(its[n]), AfterLeading(g, its[n]) + u;
    }
  }

  lemma {:induction false} NextItem(g: Lens, its: seq<Item>, rest: seq<bool>, n: nat) returns (u: seq<bool>)
    requires Encodable(g, its) && n < |its|
    ensures Codable(g.ll, g.dl, its[n]) && ToCome(g, its, rest, n) == ItemBits(g.ll, g.dl, its[n]) + u
  {
    var ps, e := Parts(g.ll, g.dl, its), CodeString(g.ll, END_BLOCK) + rest;
    u := JoinFrom(ps, n + 1) + e;
    PartAt(g.ll, g.dl, its, n);
    Assoc(ps[n], JoinFrom(ps, n + 1), e);
  }

  /** A code that stands for no symbol of the format is not the beginning of one that does. */
  lemma {:induction false} BadCodeAlone(t: CodeType, lens: seq<nat>, w: seq<bool>, v: seq<bool>, s: nat, x: seq<bool>)
    requires Usable(lens) && Acceptable(t, lens) && t != CODES && BadCode(t, lens, w)
    requires HasCode(lens, s) && s < if t == LENS then 286 else D_CODES
    ensures w + v != CodeString(lens, s) + x
  {
    if w + v == CodeString(lens, s) + x {
      var leaf :| Decoded(t, lens, w, leaf) && leaf.op >= 64 && leaf.op != 96;
      if r: nat :| SymbolRead(t, lens, w, leaf, r) {
        SameCode(lens, r, v, s, x);
        if t == LENS && 257 <= s { LengthOpFlags(s - 257); }
        if t == DISTS { DistOpFlags(s); }
      } else {
        LoneLength(lens, s);
        Cancel(w, v, CodeString(lens, s), x);
      }
    }
  }

  /** All codes of an acceptable code that is not complete have one bit. */
  lemma {:induction false} LoneLength(lens: seq<nat>, s: nat)
    requires ValidLens(lens) && HasCode(lens, s) && (NoSymbols(lens) || IsMax(lens, 1))
    ensures lens[s] == 1
  {
    HasSymbol(lens, s);
    SymbolIsCode(lens, s);
    assert lens[s] <= 1 || NoCode(lens, lens[s]);
  }

  /** The code with which the current item starts. */
  lemma {:induction false} CurStarts(g: Lens, cur: Cur, v: seq<bool>) returns (s: nat, y: seq<bool>)
    requires Sensible(g, cur) && !cur.AtLen? && !cur.BadLen?
    ensures HasCode(g.ll, s) && Part(g, cur) + v == CodeString(g.ll, s) + y
    ensures s == match cur
                 case AtItem(it) => LeadSymbol(it)
                 case AtEnd => END_BLOCK
                 case AtLenExt(c) => 257 + c
                 case AtDist(c, _) => 257 + c
                 case AtDistExt(c, _, _) => 257 + c
                 case BadDist(c, _, _) => 257 + c
                 case _ => s
  {
    match cur
    case AtItem(it) => ItemStarts(g, it, v); s, y := LeadSymbol(it), AfterLeading(g, it) + v;
    case AtEnd => s, y := END_BLOCK, v;
    case AtLenExt(c) => s, y := 257 + c, v;
    case AtDist(c, e) => s, y := 257 + c, Unpack(e, ExtraLength(c)) + v; Assoc(CodeString(g.ll, s),
          Unpack(e, ExtraLength(c)), v);
    case AtDistExt(c, e, d) => s, y := AfterLengthField(g, c, e, CodeString(g.dl, d), v);
    case BadDist(c, e, w) => s, y := AfterLengthField(g, c, e, w, v);
  }

  lemma {:induction false} AfterLengthField(g: Lens, c: nat, e: nat, w: seq<bool>, v: seq<bool>)
    returns (s: nat, y: seq<bool>)
    requires HasLengthField(g, c, e)
    ensures s == 257 + c && (LengthField(g.ll, c, e) + w) + v == CodeString(g.ll, s) + y
  {
    s := 257 + c;
    var x, z := CodeString(g.ll, s), Unpack(e, ExtraLength(c));
    y := z + (w + v);
    assert ((x + z) + w) + v == x + (z + (w + v));
  }

  /** What has been decoded agrees with the encoded items. */
  ghost predicate Agrees(p: Progress, its: seq<Item>) {
    && p.its <= its && !p.cur.BadLen? && !p.cur.BadDist?
    && (p.cur.AtEnd? ==> p.its == its)
    && (p.cur.AtItem? ==> |p.its| < |its| && p.cur.it == its[|p.its|])
  }

  /** However far a block was decoded, it was decoded right, and its end is found exactly. */
  lemma {:induction false} DecodesRight(g: Lens, p: Progress, v: seq<bool>, its: seq<Item>, rest: seq<bool>)
    requires Encodable(g, its) && Sane(g, p) && Taken(g, p) + v == BlockBits(g.ll, g.dl, its) + rest
    ensures Agrees(p, its) && Part(g, p.cur) + v == ToCome(g, its, rest, |p.its|)
    ensures p.cur.AtEnd? ==> v == rest
  {
    Assoc(BitsOf(g.ll, g.dl, p.its), Part(g, p.cur), v);
    Assoc(BitsOf(g.ll, g.dl, its), CodeString(g.ll, END_BLOCK), rest);
    NotPastEnd(g, p, v, its, rest);
    var n := |p.its|;
    JoinSplit(Parts(g.ll, g.dl, its), n, CodeString(g.ll, END_BLOCK) + rest);
    SameItems(g, p.its, Part(g, p.cur) + v, its, ToCome(g, its, rest, n), n);
    assert p.its == p.its[..n];
    CurAgrees(g, p, v, its, rest);
  }

  /** No more items are decoded than were encoded. */
  lemma {:induction false} NotPastEnd(g: Lens, p: Progress, v: seq<bool>, its: seq<Item>, rest: seq<bool>)
    requires Encodable(g, its) && Sane(g, p)
    requires BitsOf(g.ll, g.dl, p.its) + (Part(g, p.cur) + v) == BitsOf(g.ll, g.dl, its)
             + (CodeString(g.ll, END_BLOCK) + rest)
    ensures |p.its| <= |its|
  {
    var n, ps, u := |its|, Parts(g.ll, g.dl, p.its), Part(g, p.cur) + v;
    if |p.its| > n {
      JoinSplit(ps, n, u);
      SameItems(g, p.its, JoinFrom(ps, n) + u, its, CodeString(g.ll, END_BLOCK) + rest, n);
      PartAt(g.ll, g.dl, p.its, n);
      Assoc(ps[n], JoinFrom(ps, n + 1), u);
      ItemStarts(g, p.its[n], JoinFrom(ps, n + 1) + u);
      SameCode(g.ll, LeadSymbol(p.its[n]), AfterLeading(g, p.its[n]) + (JoinFrom(ps, n + 1) + u), END_BLOCK, rest);
    }
  }

  lemma {:induction false} CurAgrees(g: Lens, p: Progress, v: seq<bool>, its: seq<Item>, rest: seq<bool>)
    requires Encodable(g, its) && Sane(g, p) && p.its <= its && Part(g, p.cur) + v == ToCome(g, its, rest, |p.its|)
    ensures Agrees(p, its) && (p.cur.AtEnd? ==> v == rest)
  {
    var n := |p.its|;
    if !p.cur.AtLen? {
      var s, x := NextCode(g, its, rest, n);
      if p.cur.BadLen? { BadCodeAlone(LENS, g.ll, p.cur.w, v, s, x); }
      var s', y := CurStarts(g, p.cur, v);
      SameCode(g.ll, s, x, s', y);
      if n == |its| {
        assert p.its == its && p.cur.AtEnd?;
        assert Part(g, p.cur) + v == CodeString(g.ll, END_BLOCK)
            + rest by { assert [] + (CodeString(g.ll, END_BLOCK) + rest) == CodeString(g.ll, END_BLOCK) + rest; }
        SameCode(g.ll, END_BLOCK, v, END_BLOCK, rest);
      } else {
        var u := NextItem(g, its, rest, n);
        if p.cur.AtItem? {
          SameItem(g, p.cur.it, v, its[n], u);
        } else if p.cur.BadDist? {
          NoBadDist(g, p.cur, v, its[n], u);
        }
      }
    }
  }

  lemma {:induction false} NoBadDist(g: Lens, cur: Cur, v: seq<bool>, it: Item, u: seq<bool>)
    requires Usable(g.ll) && Usable(g.dl) && Acceptable(DISTS, g.dl) && cur.BadDist? && Sensible(g, cur)
    requires Codable(g.ll, g.dl, it) && it.Pair?
    ensures Part(g, cur) + v != ItemBits(g.ll, g.dl, it) + u
  {
    if Part(g, cur) + v == ItemBits(g.ll, g.dl, it) + u {
      Assoc(LengthField(g.ll, cur.c, cur.e), cur.w, v);
      SameLength(g, cur.c, cur.e, cur.w + v, it, u);
      Assoc(CodeString(g.dl, it.d), Unpack(it.f, ExtraDist(it.d)), u);
      BadCodeAlone(DISTS, g.dl, cur.w, v, it.d, Unpack(it.f, ExtraDist(it.d)) + u);
    }
  }

  lemma {:induction false} SameLength(g: Lens, c: nat, e: nat, x: seq<bool>, it: Item, u: seq<bool>)
    requires Usable(g.ll) && HasLengthField(g, c, e) && Codable(g.ll, g.dl, it) && it.Pair?
    requires LengthField(g.ll, c, e) + x == ItemBits(g.ll, g.dl, it) + u
    ensures c == it.c && e == it.e && x == DistField(g.dl, it.d, it.f) + u
  {
    Assoc(LengthField(g.ll, it.c, it.e), DistField(g.dl, it.d, it.f), u);
    SameLengthField(g.ll, c, e, x, it.c, it.e, DistField(g.dl, it.d, it.f) + u);
  }

  /** A decoder that was given all of a block does not wait for more input. */
  lemma {:induction false} NeverLacking(g: Lens, p: Progress, a: Acc, its: seq<Item>, rest: seq<bool>)
    requires Encodable(g, its) && Sane(g, p) && Taken(g, p) + Held(a) == BlockBits(g.ll, g.dl, its) + rest
    ensures !Lacking(g, a, p.cur)
  {
    DecodesRight(g, p, Held(a), its, rest);
    var n, v, cur := |p.its|, Held(a), p.cur;
    if cur.AtLen? {
      assert Part(g, cur) + v == v;
      var s, x := NextCode(g, its, rest, n);
      CodeIsWhole(LENS, g.ll, s, v, x);
    } else if cur.AtLenExt? || cur.AtDist? || cur.AtDistExt? {
      var s, x := NextCode(g, its, rest, n);
      var s', y := CurStarts(g, cur, v);
      SameCode(g.ll, s, x, s', y);
      var u := NextItem(g, its, rest, n);
      PairNotLacking(g, cur, a, its[n], u);
    }
  }

  lemma {:induction false} CodeIsWhole(t: CodeType, lens: seq<nat>, s: nat, v: seq<bool>, x: seq<bool>)
    requires HasCode(lens, s) && |lens| <= MaxCodes(t) && v == CodeString(lens, s) + x
    ensures !NoWholeCode(t, lens, v)
  {
    var w, leaf := CodeString(lens, s), MakeEntry(t, s, 0);
    assert SymbolRead(t, lens, w, leaf, s);
    assert Decoded(t, lens, w, leaf) && w <= v;
  }

  lemma {:induction false} PairNotLacking(g: Lens, cur: Cur, a: Acc, it: Item, u: seq<bool>)
    requires Usable(g.ll) && Usable(g.dl) && |g.dl| <= MaxCodes(DISTS)
    requires Sensible(g, cur) && (cur.AtLenExt? || cur.AtDist? || cur.AtDistExt?)
    requires Codable(g.ll, g.dl, it) && it.Pair? && Part(g, cur) + Held(a) == ItemBits(g.ll, g.dl, it) + u
    ensures !Lacking(g, a, cur)
  {
    if cur.AtLenExt? {
      LengthExtraThere(g, cur.c, Held(a), it, u);
    } else if cur.AtDist? {
      DistCodeThere(g, cur.c, cur.e, Held(a), it, u);
    } else {
      DistExtraThere(g, cur, Held(a), it, u);
    }
  }

  lemma {:induction false} LengthExtraThere(g: Lens, c: nat, v: seq<bool>, it: Item, u: seq<bool>)
    requires Usable(g.ll) && HasLength(g, c) && Codable(g.ll, g.dl, it) && it.Pair?
    requires CodeString(g.ll, 257 + c) + v == ItemBits(g.ll, g.dl, it) + u
    ensures |v| >= ExtraLength(c)
  {
    ItemStarts(g, it, u);
    SameCode(g.ll, 257 + c, v, 257 + it.c, AfterLeading(g, it) + u);
    assert |v| >= |Unpack(it.e, ExtraLength(it.c))|;
  }

  lemma {:induction false} DistCodeThere(g: Lens, c: nat, e: nat, v: seq<bool>, it: Item, u: seq<bool>)
    requires Usable(g.ll) && |g.dl| <= MaxCodes(DISTS) && HasLengthField(g, c, e) && Codable(g.ll, g.dl, it) && it.Pair?
    requires LengthField(g.ll, c, e) + v == ItemBits(g.ll, g.dl, it) + u
    ensures !NoWholeCode(DISTS, g.dl, v)
  {
    var x := Unpack(it.f, ExtraDist(it.d));
    SameLength(g, c, e, v, it, u);
    Assoc(CodeString(g.dl, it.d), x, u);
    CodeIsWhole(DISTS, g.dl, it.d, v, x + u);
  }

  lemma {:induction false} DistExtraThere(g: Lens, cur: Cur, v: seq<bool>, it: Item, u: seq<bool>)
    requires Usable(g.ll) && Usable(g.dl) && Sensible(g, cur) && cur.AtDistExt? && Codable(g.ll, g.dl, it) && it.Pair?
    requires Part(g, cur) + v == ItemBits(g.ll, g.dl, it) + u
    ensures |v| >= ExtraDist(cur.d)
  {
    var w, x := CodeString(g.dl, cur.d), Unpack(it.f, ExtraDist(it.d));
    Assoc(LengthField(g.ll, cur.c, cur.e), w, v);
    SameLength(g, cur.c, cur.e, w + v, it, u);
    Assoc(CodeString(g.dl, it.d), x, u);
    SameCode(g.dl, cur.d, v, it.d, x + u);
    assert |v| >= |x|;
  }
}
