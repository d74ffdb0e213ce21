/** The symbols of a block and the bits that compress_block sends for them
    (section 3.2.5 of RFC 1951). */
module Tokens {
  import opened Bits
  import opened Canonical
  import opened InflateTable
  import opened Symbols
  import opened CodeGen
  import opened BitWriter
  import opened Lz77

  const END_BLOCK := 256
  const L_CODES := 286

  /** A literal, or a length code c with extra bits e and a distance code d with extra bits f. */
  datatype Item = Lit(b: byte) | Pair(c: nat, e: nat, d: nat, f: nat)

  /** The code with which an item starts. */
  function LeadSymbol(it: Item): nat {
    match it case Lit(b) => b case Pair(c, _, _, _) => 257 + c
  }

  ghost predicate InRange(it: Item) {
    it.Pair? ==> it.c < LENGTH_CODES && it.e < Pow2(ExtraLength(it.c)) && it.d < D_CODES && it.f < Pow2(ExtraDist(it.d))
  }

  /** Whether both codes have the item's symbols. */
  ghost predicate Codable(ll: seq<nat>, dl: seq<nat>, it: Item) {
    && InRange(it)
    && match it
       case Lit(b) => HasCode(ll, b)
       case Pair(c, _, d, _) => HasCode(ll, 257 + c) && HasCode(dl, d)
  }

  predicate HasCode(lens: seq<nat>, s: nat) {
    s < |lens| && lens[s] != 0
  }

  /** A symbol's code and its extra bits. */
  function Field(lens: seq<nat>, s: nat, x: nat, extra: nat): seq<bool>
    requires s < |lens|
  {
    CodeString(lens, s) + Unpack(x, extra)
  }

  function LengthField(ll: seq<nat>, c: nat, e: nat): seq<bool>
    requires 257 + c < |ll|
  {
    Field(ll, 257 + c, e, ExtraLength(c))
  }

  function DistField(dl: seq<nat>, d: nat, f: nat): seq<bool>
    requires d < |dl|
  {
    Field(dl, d, f, ExtraDist(d))
  }

  ghost function ItemBits(ll: seq<nat>, dl: seq<nat>, it: Item): seq<bool>
    requires Codable(ll, dl, it)
  {
    match it
    case Lit(b) => CodeString(ll, b)
    case Pair(c, e, d, f) => LengthField(ll, c, e) + DistField(dl, d, f)
  }

  ghost predicate AllCodable(ll: seq<nat>, dl: seq<nat>, its: seq<Item>) {
    forall i {:trigger CodableAt(ll, dl, its, i)} :: 0 <= i < |its| ==> CodableAt(ll, dl, its, i)
  }

  ghost predicate CodableAt(ll: seq<nat>, dl: seq<nat>, its: seq<Item>, i: nat) {
    i < |its| && Codable(ll, dl, its[i])
  }

  /** The bits of item i. */
  ghost function BitsAt(ll: seq<nat>, dl: seq<nat>, its: seq<Item>, i: nat): seq<bool>
    requires AllCodable(ll, dl, its) && i < |its|
  {
    assert CodableAt(ll, dl, its, i);
    ItemBits(ll, dl, its[i])
  }

  ghost function Parts(ll: seq<nat>, dl: seq<nat>, its: seq<Item>): (parts: seq<seq<bool>>)
    requires AllCodable(ll, dl, its)
    ensures |parts| == |its|
  {
    seq(|its|, i requires 0 <= i < |its| => BitsAt(ll, dl, its, i))
  }

  ghost predicate ItemBitsAre(ll: seq<nat>, dl: seq<nat>, it: Item, w: seq<bool>) {
    Codable(ll, dl, it) && w == ItemBits(ll, dl, it)
  }

  lemma {:induction false} PartAt(ll: seq<nat>, dl: seq<nat>, its: seq<Item>, i: nat)
    requires AllCodable(ll, dl, its) && i < |its|
    ensures ItemBitsAre(ll, dl, its[i], Parts(ll, dl, its)[i])
  {
    assert CodableAt(ll, dl, its, i);
  }

  /** The first n parts, joined. */
  ghost function Join(parts: seq<seq<bool>>, n: nat): seq<bool>
    requires n <= |parts|
  {
    if n == 0 then [] else Join(parts, n - 1) + parts[n - 1]
  }

  ghost function BitsOf(ll: seq<nat>, dl: seq<nat>, its: seq<Item>): seq<bool>
    requires AllCodable(ll, dl, its)
  {
    Join(Parts(ll, dl, its), |its|)
  }

  /** A whole block body: its items and the end-of-block code. */
  ghost function BlockBits(ll: seq<nat>, dl: seq<nat>, its: seq<Item>): seq<bool>
    requires AllCodable(ll, dl, its) && END_BLOCK < |ll|
  {
    BitsOf(ll, dl, its) + CodeString(ll, END_BLOCK)
  }

  // ----- tokens as items -----

  ghost predicate ValidToken(t: Token) {
    t.dist <= 32768
  }

  /** The item that compress_block sends for a token. */
  function ItemOf(t: Token): Item {
    if t.dist == 0 then Lit(t.lc) else
    var c, d := LengthCode(t.lc), DistCode(t.dist - 1);
    Pair(c, Excess(t.lc + MIN_MATCH, LengthBase(c)), d, Excess(t.dist, DistBase(d)))
  }

  function Excess(x: nat, base: nat): nat {
    if x < base then 0 else x - base
  }

  /** The token that an item stands for. */
  function TokenOf(it: Item): Token {
    match it
    case Lit(b) => Token(0, b)
    case Pair(c, e, d, f) => Token(DistBase(d) + f, LengthByte(LengthBase(c) + e))
  }

  /** A match length as a byte. */
  function LengthByte(len: nat): byte {
    if MIN_MATCH <= len <= MAX_MATCH then len - MIN_MATCH else 0
  }

  lemma {:induction false} LengthRange(c: nat, e: nat)
    requires c < LENGTH_CODES && e < Pow2(ExtraLength(c))
    ensures MIN_MATCH <= LengthBase(c) && LengthBase(c) + e <= MAX_MATCH
  {
    SmallPowers();
  }

  lemma {:induction false} DistRange(d: nat, f: nat)
    requires d < D_CODES && f < Pow2(ExtraDist(d))
    ensures 1 <= DistBase(d) && DistBase(d) + f <= 32768
  {
    SmallPowers();
  }

  /** Every item stands for a token of the format. */
  lemma {:induction false} ItemToken(it: Item)
    requires InRange(it)
    ensures it.Pair? ==> TokenOf(it).lc + MIN_MATCH == LengthBase(it.c) + it.e
    ensures ValidToken(TokenOf(it)) && (TokenOf(it).dist == 0 <==> it.Lit?)
  {
    if it.Pair? {
      LengthRange(it.c, it.e);
      DistRange(it.d, it.f);
    }
  }

  /** The item sent for a token stands for that token. */
  lemma {:induction false} TokenItem(t: Token)
    requires ValidToken(t)
    ensures InRange(ItemOf(t))
    ensures TokenOf(ItemOf(t)) == t
  {
    if t.dist != 0 {
      LengthItem(t.lc);
      DistCodeCovers(t.dist - 1);
      ItemToken(ItemOf(t));
    }
  }

  lemma {:induction false} LengthItem(lc: byte)
    ensures var c := LengthCode(lc);
            c < LENGTH_CODES && LengthBase(c) <= lc + MIN_MATCH < LengthBase(c) + Pow2(ExtraLength(c))
  {
    if lc < 255 { LengthCodeCovers(lc); }
  }

  function ItemsOf(ts: seq<Token>): (its: seq<Item>)
    ensures Encoded(ts, its)
  {
    seq(|ts|, i requires 0 <= i < |ts| => ItemOf(ts[i]))
  }

  function TokensOf(its: seq<Item>): (ts: seq<Token>)
    ensures |ts| == |its|
  {
    seq(|its|, i requires 0 <= i < |its| => TokenOf(its[i]))
  }

  /** Items sent for tokens stand for those tokens. */
  lemma {:induction false} TokensItems(ts: seq<Token>)
    requires ValidTokens(ts)
    ensures TokensOf(ItemsOf(ts)) == ts
  {
    forall i | 0 <= i < |ts|
      ensures TokensOf(ItemsOf(ts))[i] == ts[i]
    {
      TokenItem(ts[i]);
    }
  }

  ghost predicate Encoded(ts: seq<Token>, its: seq<Item>) {
    |its| == |ts| && forall i :: 0 <= i < |ts| ==> its[i] == ItemOf(ts[i])
  }

  /** Whether both trees have codes for the token's symbols. */
  ghost predicate Sendable(ll: seq<nat>, dl: seq<nat>, t: Token) {
    ValidToken(t) && Codable(ll, dl, ItemOf(t))
  }

  // ----- sending -----

  /** Codes and lengths of a tree, as gen_codes leaves them. */
  datatype Tree = Tree(codes: seq<nat>, lens: seq<nat>)

  ghost predicate Coded(tree: Tree) {
    && |tree.codes| >= |tree.lens| && ValidLens(tree.lens)
    && forall n {:trigger CodeSet(tree.lens, tree.codes[n], n)} ::
         0 <= n < |tree.lens| && tree.lens[n] != 0 ==> CodeSet(tree.lens, tree.codes[n], n)
  }

  /** The tables that tr_static_init fills. */
  datatype StaticTables = StaticTables(lengthCode: seq<nat>, baseLength: seq<nat>, distCode: seq<nat>,
                                       baseDist: seq<nat>)

  ghost predicate Initialized(st: StaticTables) {
    && |st.lengthCode| == 256 && (forall lc :: 0 <= lc < 256 ==> st.lengthCode[lc] == LengthCode(lc))
    && |st.baseLength| == LENGTH_CODES && (forall c :: 0 <= c < 28 ==> st.baseLength[c] == LengthBase(c) - 3)
    && |st.distCode| == 512 && (forall d :: 0 <= d < 32768 ==> TableDistCode(st.distCode, d) == DistCode(d))
    && |st.baseDist| == D_CODES && (forall c :: 0 <= c < D_CODES ==> st.baseDist[c] == DistBase(c) - 1)
  }

  method TrStaticInit() returns (st: StaticTables)
    ensures Initialized(st)
  {
    var a, b := LengthTables();
    var c, d := DistTables();
    st := StaticTables(a, b, c, d);
  }

  method SendCode(w: Writer, c: nat, tree: Tree)
    requires w.Valid() && Coded(tree) && c < |tree.lens| && tree.lens[c] != 0
    modifies w
    ensures w.Valid() && w.Sent() == old(w.Sent()) + CodeString(tree.lens, c)
  {
    assert CodeSet(tree.lens, tree.codes[c], c);
    UnpackOfPack(CodeString(tree.lens, c));
    w.SendBits(tree.codes[c], tree.lens[c]);
  }

  /** Sends the extra bits of a code, the distance of x from its base. */
  method SendExtra(w: Writer, x: nat, base: nat, extra: nat)
    requires w.Valid() && base <= x < base + Pow2(extra) && extra <= BUF_SIZE
    modifies w
    ensures w.Valid() && w.Sent() == old(w.Sent()) + Unpack(x - base, extra)
  {
    if extra != 0 {
      w.SendBits(x - base, extra);
    } else {
      assert w.Sent() == w.Sent() + Unpack(x - base, 0);
    }
  }

  method SendLength(w: Writer, lc: byte, ltree: Tree, st: StaticTables)
    requires w.Valid() && Coded(ltree) && Initialized(st) && HasCode(ltree.lens, 257 + LengthCode(lc))
    modifies w
    ensures w.Valid()
    ensures w.Sent() == old(w.Sent()) + LengthField(ltree.lens, LengthCode(lc),
                                                    Excess(lc + MIN_MATCH, LengthBase(LengthCode(lc))))
  {
    ghost var s := w.Sent();
    var code := st.lengthCode[lc];
    SendCode(w, code + 256 + 1, ltree);
    LengthItem(lc);
    ghost var e := lc + MIN_MATCH - LengthBase(code);
    if code < 28 {
      SendExtra(w, lc, st.baseLength[code], ExtraLength(code));
    } else {
      assert w.Sent() == w.Sent() + Unpack(e, ExtraLength(code));
    }
    Assoc(s, CodeString(ltree.lens, 257 + code), Unpack(e, ExtraLength(code)));
  }

  method SendDist(w: Writer, dist: nat, dtree: Tree, st: StaticTables)
    requires w.Valid() && Coded(dtree) && Initialized(st) && 1 <= dist <= 32768
    requires HasCode(dtree.lens, DistCode(dist - 1))
    modifies w
    ensures w.Valid()
    ensures w.Sent() == old(w.Sent()) + DistField(dtree.lens, DistCode(dist - 1),
                                                  Excess(dist, DistBase(DistCode(dist - 1))))
  {
    ghost var s := w.Sent();
    var d := dist - 1;
    var code := TableDistCode(st.distCode, d);
    SendCode(w, code, dtree);
    DistCodeCovers(d);
    SendExtra(w, d, st.baseDist[code], ExtraDist(code));
    Assoc(s, CodeString(dtree.lens, code), Unpack(dist - DistBase(code), ExtraDist(code)));
  }

  method SendToken(w: Writer, t: Token, ltree: Tree, dtree: Tree, st: StaticTables)
    requires w.Valid() && Coded(ltree) && Coded(dtree) && Initialized(st) && Sendable(ltree.lens, dtree.lens, t)
    modifies w
    ensures w.Valid() && w.Sent() == old(w.Sent()) + ItemBits(ltree.lens, dtree.lens, ItemOf(t))
  {
    if t.dist == 0 {
      SendCode(w, t.lc, ltree);
    } else {
      ghost var s, it := w.Sent(), ItemOf(t);
      SendLength(w, t.lc, ltree, st);
      SendDist(w, t.dist, dtree, st);
      Assoc(s, LengthField(ltree.lens, it.c, it.e), DistField(dtree.lens, it.d, it.f));
    }
  }

  ghost predicate ValidTokens(ts: seq<Token>) {
    forall i :: 0 <= i < |ts| ==> ValidToken(ts[i])
  }

  /** Sends the tokens of the block, then the end-of-block code. */
  method CompressBlock(w: Writer, ts: seq<Token>, ltree: Tree, dtree: Tree, st: StaticTables)
    requires w.Valid() && Coded(ltree) && Coded(dtree) && Initialized(st) && HasCode(ltree.lens, END_BLOCK)
    requires ValidTokens(ts) && AllCodable(ltree.lens, dtree.lens, ItemsOf(ts))
    modifies w
    ensures w.Valid() && w.Sent() == old(w.Sent()) + BlockBits(ltree.lens, dtree.lens, ItemsOf(ts))
  {
    ghost var s := w.Sent();
    SendTokens(w, ts, ItemsOf(ts), ltree, dtree, st);
    SendCode(w, END_BLOCK, ltree);
    Assoc(s, BitsOf(ltree.lens, dtree.lens, ItemsOf(ts)), CodeString(ltree.lens, END_BLOCK));
  }

  method SendTokens(w: Writer, ts: seq<Token>, ghost its: seq<Item>, ltree: Tree, dtree: Tree, st: StaticTables)
    requires w.Valid() && Coded(ltree) && Coded(dtree) && Initialized(st)
    requires Encoded(ts, its) && ValidTokens(ts) && AllCodable(ltree.lens, dtree.lens, its)
    modifies w
    ensures w.Valid() && w.Sent() == old(w.Sent()) + BitsOf(ltree.lens, dtree.lens, its)
  {
    ghost var s := w.Sent();
    ghost var parts := Parts(ltree.lens, dtree.lens, its);
    var lx := 0;
    NothingSent(s, parts);
    while lx < |ts|
      invariant 0 <= lx <= |ts| && w.Valid()
      invariant SentSince(w.Sent(), s, parts, lx)
    {
      SendNext(w, ts, its, parts, lx, s, ltree, dtree, st);
      lx := lx + 1;
    }
  }

  /** After s the first n parts were sent. */
  ghost predicate SentSince(sent: seq<bool>, s: seq<bool>, parts: seq<seq<bool>>, n: nat) {
    n <= |parts| && sent == s + Join(parts, n)
  }

  lemma {:induction false} NothingSent(s: seq<bool>, parts: seq<seq<bool>>)
    ensures SentSince(s, s, parts, 0)
  {
  }

  method SendNext(w: Writer, ts: seq<Token>, ghost its: seq<Item>, ghost parts: seq<seq<bool>>, lx: nat,
                  ghost s: seq<bool>,
                  ltree: Tree, dtree: Tree, st: StaticTables)
    requires w.Valid() && Coded(ltree) && Coded(dtree) && Initialized(st)
    requires Encoded(ts, its) && ValidTokens(ts) && AllCodable(ltree.lens, dtree.lens, its)
    requires parts == Parts(ltree.lens, dtree.lens, its)
    requires lx < |ts| && SentSince(w.Sent(), s, parts, lx)
    modifies w
    ensures w.Valid() && SentSince(w.Sent(), s, parts, lx + 1)
  {
    PartAt(ltree.lens, dtree.lens, its, lx);
    SendToken(w, ts[lx], ltree, dtree, st);
    Assoc(s, Join(parts, lx), parts[lx]);
  }
}
