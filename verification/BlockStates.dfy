/** Decoding of a block body: the states LEN, LENEXT, DIST, DISTEXT, MATCH and LIT. */
module BlockStates {
  import opened Bits
  import opened Canonical
  import opened InflateTable
  import opened Symbols
  import opened Lz77
  import opened Tokens
  import opened BitReader

  /** The decoding tables of a block. */
  datatype Codes = Codes(lencode: seq<Entry>, lenbits: nat, distcode: seq<Entry>, distbits: nat)

  /** The code lengths they were built from. */
  datatype Lens = Lens(ll: seq<nat>, dl: seq<nat>)

  ghost predicate Ready(k: Codes, g: Lens) {
    Tables(k.lencode, LENS, g.ll, k.lenbits) && Tables(k.distcode, DISTS, g.dl, k.distbits)
  }

  datatype Mode = LEN | LENEXT | DIST | DISTEXT | MATCH | LIT | TYPE | BAD

  datatype State = State(mode: Mode, length: nat, offset: nat, extra: nat, was: nat)

  /** How far the current item has been read. */
  datatype Cur =
    | AtLen
    | AtLenExt(c: nat)
    | AtDist(c: nat, e: nat)
    | AtDistExt(c: nat, e: nat, d: nat)
    | AtItem(it: Item)
    | AtEnd
    | BadLen(w: seq<bool>)
    | BadDist(c: nat, e: nat, w: seq<bool>)

  ghost predicate HasLength(g: Lens, c: nat) {
    c < LENGTH_CODES && HasCode(g.ll, 257 + c)
  }

  ghost predicate HasLengthField(g: Lens, c: nat, e: nat) {
    HasLength(g, c) && e < Pow2(ExtraLength(c))
  }

  ghost predicate HasDist(g: Lens, d: nat) {
    d < D_CODES && HasCode(g.dl, d)
  }

  /** The bits w are a code that stands for no symbol of the format. */
  ghost predicate BadCode(t: CodeType, lens: seq<nat>, w: seq<bool>) {
    exists leaf :: Decoded(t, lens, w, leaf) && leaf.op >= 64 && leaf.op != 96
  }

  ghost predicate Sensible(g: Lens, cur: Cur) {
    match cur
    case AtLen => true
    case AtLenExt(c) => HasLength(g, c)
    case AtDist(c, e) => HasLengthField(g, c, e)
    case AtDistExt(c, e, d) => HasLengthField(g, c, e) && HasDist(g, d)
    case AtItem(it) => Codable(g.ll, g.dl, it)
    case AtEnd => HasCode(g.ll, END_BLOCK)
    case BadLen(w) => BadCode(LENS, g.ll, w)
    case BadDist(c, e, w) => HasLengthField(g, c, e) && BadCode(DISTS, g.dl, w)
  }

  /** The bits of the current item that have been taken. */
  ghost function Part(g: Lens, cur: Cur): seq<bool>
    requires Sensible(g, cur)
  {
    match cur
    case AtLen => []
    case AtLenExt(c) => CodeString(g.ll, 257 + c)
    case AtDist(c, e) => LengthField(g.ll, c, e)
    case AtDistExt(c, e, d) => LengthField(g.ll, c, e) + CodeString(g.dl, d)
    case AtItem(it) => ItemBits(g.ll, g.dl, it)
    case AtEnd => CodeString(g.ll, END_BLOCK)
    case BadLen(w) => w
    case BadDist(c, e, w) => LengthField(g.ll, c, e) + w
  }

  /** What the state's fields hold. */
  ghost predicate Holds(st: State, cur: Cur) {
    match st.mode
    case LEN => cur.AtLen?
    case LENEXT => cur.AtLenExt? && st.length == LengthBase(cur.c) && st.extra == ExtraLength(cur.c)
    case DIST => cur.AtDist? && st.was == st.length == LengthBase(cur.c) + cur.e
    case DISTEXT =>
        cur.AtDistExt? && st.was == st.length == LengthBase(cur.c) + cur.e && st.offset == DistBase(cur.d)
        && st.extra == ExtraDist(cur.d)
    case MATCH =>
        cur.AtItem? && cur.it.Pair? && st.was == LengthBase(cur.it.c) + cur.it.e
        && st.offset == DistBase(cur.it.d) + cur.it.f && 1 <= st.length <= st.was
    case LIT => cur.AtItem? && cur.it.Lit? && st.length == cur.it.b
    case TYPE => cur.AtEnd?
    case BAD => cur.BadLen? || cur.BadDist? || (cur.AtItem? && cur.it.Pair?)
  }

  /** The bits taken so far and those unread are the same as before. */
  ghost predicate Kept(g: Lens, input: seq<byte>, a: Acc, cur: Cur, a': Acc, cur': Cur) {
    && Good(input, a) && Good(input, a') && Sensible(g, cur) && Sensible(g, cur') && a'.next >= a.next
    && Part(g, cur) + Unread(input, a) == Part(g, cur') + Unread(input, a')
  }

  /** What is held does not complete the current field. */
  ghost predicate Lacking(g: Lens, a: Acc, cur: Cur) {
    match cur
    case AtLen => NoWholeCode(LENS, g.ll, Held(a))
    case AtLenExt(c) => a.bits < ExtraLength(c)
    case AtDist(_, _) => NoWholeCode(DISTS, g.dl, Held(a))
    case AtDistExt(_, _, d) => a.bits < ExtraDist(d)
    case _ => false
  }

  /** No more is held than the current field needs, up to a byte. */
  ghost predicate Tight(g: Lens, a: Acc, cur: Cur) {
    a.bits < 8 || Lacking(g, a, cur)
  }

  /** All input was pulled and what is held of it does not complete the current field. */
  ghost predicate Starved(g: Lens, input: seq<byte>, a: Acc, cur: Cur) {
    a.next == |input| && Lacking(g, a, cur)
  }

  predicate Reading(mode: Mode) {
    mode == LEN || mode == LENEXT || mode == DIST || mode == DISTEXT
  }

  /** How many states are ahead before the next bits or bytes are needed. */
  function Rank(mode: Mode): nat {
    if mode == LENEXT || mode == DISTEXT then 2 else if mode == TYPE || mode == BAD then 0 else 1
  }

  /** Bits were taken, or the state moved on without any. */
  ghost predicate Smaller(input: seq<byte>, a: Acc, mode: Mode, a': Acc, mode': Mode) {
    && a.next <= |input| && a'.next <= |input|
    && (|Unread(input, a')| < |Unread(input, a)|
       || (|Unread(input, a')| == |Unread(input, a)| && Rank(mode') < Rank(mode)))
  }

  /** A state was left with its field read, or kept for lack of input. */
  ghost predicate Stepped(g: Lens, input: seq<byte>, a: Acc, st: State, cur: Cur, go: bool, a': Acc, st': State,
                          cur': Cur) {
    && Kept(g, input, a, cur, a', cur') && Holds(st', cur')
    && (Tight(g, a, cur) ==> Tight(g, a', cur'))
    && (go ==>
          Smaller(input, a, st.mode, a', st'.mode) && (st'.mode == MATCH ==> st'.length == st'.was)
          && (st'.mode == BAD ==> !cur'.AtItem?))
    && (!go ==> st' == st && cur' == cur && Starved(g, input, a', cur'))
  }

  /** State LEN */
  method LenState(k: Codes, ghost g: Lens, input: seq<byte>, a: Acc, st: State)
    returns (go: bool, a': Acc, st': State, ghost cur: Cur)
    requires Ready(k, g) && Good(input, a) && st.mode == LEN
    ensures Stepped(g, input, a, st, AtLen, go, a', st', cur)
  {
    var here;
    ghost var w;
    go, a', here, w := ReadCode(input, a, k.lencode, k.lenbits, LENS, g.ll);
    st', cur := st, AtLen;
    if go {
      ghost var s := LengthEntry(g.ll, w, here);
      st', cur := LenEntry(g, here, st, w, s);
    }
  }

  ghost predicate CodeOf(lens: seq<nat>, w: seq<bool>, s: nat) {
    HasCode(lens, s) && w == CodeString(lens, s)
  }

  /** What a literal/length entry says. */
  ghost predicate LengthMeans(ll: seq<nat>, w: seq<bool>, here: Entry, s: nat) {
    if here.op == 0 then here.val == s < 256 && CodeOf(ll, w, s)
    else if Flag32(here.op) then s == END_BLOCK && CodeOf(ll, w, s)
    else if Flag64(here.op) then BadCode(LENS, ll, w)
    else 257 <= s < 286 && CodeOf(ll, w, s) && here.op % 16 == ExtraLength(s - 257) && here.val == LengthBase(s - 257)
  }

  /** op & 16 */
  predicate Flag16(op: nat) {
    op / 16 % 2 == 1
  }

  /** op & 32 */
  predicate Flag32(op: nat) {
    op / 32 % 2 == 1
  }

  /** op & 64 */
  predicate Flag64(op: nat) {
    op / 64 % 2 == 1
  }

  lemma {:induction false} LengthEntry(ll: seq<nat>, w: seq<bool>, here: Entry) returns (s: nat)
    requires Decoded(LENS, ll, w, here)
    ensures LengthMeans(ll, w, here, s)
  {
    s := 0;
    if x: nat :| SymbolRead(LENS, ll, w, here, x) {
      s := x;
      if 257 <= x { LengthOpFlags(x - 257); }
    }
  }

  lemma {:induction false} LengthOpFlags(c: nat)
    requires c < 31
    ensures var op := LengthOp(c);
            && op != 0 && !Flag32(op) && (Flag64(op) <==> c >= LENGTH_CODES) && (Flag16(op) <==> c < LENGTH_CODES)
            && (c < LENGTH_CODES ==> op == 16 + ExtraLength(c) && op % 16 == ExtraLength(c))
  {
  }

  /** What a literal/length entry leads to. */
  method LenEntry(ghost g: Lens, here: Entry, st: State, ghost w: seq<bool>, ghost s: nat)
    returns (st': State, ghost cur: Cur)
    requires LengthMeans(g.ll, w, here, s)
    ensures Sensible(g, cur) && Part(g, cur) == w && Holds(st', cur) && st'.mode != MATCH
    ensures (st'.mode == BAD ==> !cur.AtItem?)
  {
    st' := st.(length := here.val);
    if here.op == 0 {
      st' := st'.(mode := LIT);
      cur := AtItem(Lit(here.val));
    } else if Flag32(here.op) {
      st' := st'.(mode := TYPE);
      cur := AtEnd;
    } else if Flag64(here.op) {
      st' := st'.(mode := BAD);
      cur := BadLen(w);
    } else {
      st' := st'.(extra := here.op % 16, mode := LENEXT);
      cur := AtLenExt(s - 257);
    }
  }

  /** The extra bits of a length were taken. */
  lemma {:induction false} LengthKept(g: Lens, input: seq<byte>, a: Acc, a': Acc, cur: Cur, v: nat)
    requires Good(input, a) && Good(input, a') && a'.next >= a.next && cur.AtLenExt? && Sensible(g, cur)
    requires v < Pow2(ExtraLength(cur.c)) && Unread(input, a) == Unpack(v, ExtraLength(cur.c)) + Unread(input, a')
    ensures Kept(g, input, a, cur, a', AtDist(cur.c, v))
  {
    Assoc(CodeString(g.ll, 257 + cur.c), Unpack(v, ExtraLength(cur.c)), Unread(input, a'));
  }

  /** State LENEXT */
  method LenExtState(ghost g: Lens, input: seq<byte>, a: Acc, st: State, ghost cur: Cur)
    returns (go: bool, a': Acc, st': State, ghost cur': Cur)
    requires Good(input, a) && st.mode == LENEXT && Holds(st, cur) && Sensible(g, cur)
    ensures Stepped(g, input, a, st, cur, go, a', st', cur')
  {
    var v;
    go, v, a' := TakeBits(input, a, st.extra);
    st', cur' := st, cur;
    if go {
      st' := State(DIST, st.length + v, st.offset, st.extra, st.length + v);
      cur' := AtDist(cur.c, v);
      LengthKept(g, input, a, a', cur, v);
    }
  }

  /** What a distance entry says. */
  ghost predicate DistMeans(dl: seq<nat>, w: seq<bool>, here: Entry, d: nat) {
    if Flag64(here.op) then BadCode(DISTS, dl, w)
    else d < D_CODES && CodeOf(dl, w, d) && here.op % 16 == ExtraDist(d) && here.val == DistBase(d)
  }

  lemma {:induction false} DistEntry(dl: seq<nat>, w: seq<bool>, here: Entry) returns (d: nat)
    requires Decoded(DISTS, dl, w, here)
    ensures DistMeans(dl, w, here, d)
  {
    d := 0;
    if x: nat :| SymbolRead(DISTS, dl, w, here, x) {
      d := x;
      DistOpFlags(x);
    }
  }

  lemma {:induction false} DistOpFlags(d: nat)
    requires d < 32
    ensures var op := DistOp(d);
            && (Flag64(op) <==> d >= D_CODES) && (Flag16(op) <==> d < D_CODES)
            && (d < D_CODES ==> op == 16 + ExtraDist(d) && op % 16 == ExtraDist(d))
  {
  }

  /** State DIST */
  method DistState(k: Codes, ghost g: Lens, input: seq<byte>, a: Acc, st: State, ghost cur: Cur)
    returns (go: bool, a': Acc, st': State, ghost cur': Cur)
    requires Ready(k, g) && Good(input, a) && st.mode == DIST && Holds(st, cur) && Sensible(g, cur)
    ensures Stepped(g, input, a, st, cur, go, a', st', cur')
  {
    var here;
    ghost var w;
    go, a', here, w := ReadCode(input, a, k.distcode, k.distbits, DISTS, g.dl);
    st', cur' := st, cur;
    if go {
      ghost var d := DistEntry(g.dl, w, here);
      st', cur' := DistLeadsTo(g, here, st, cur, w, d);
      Assoc(Part(g, cur), w, Unread(input, a'));
    }
  }

  /** What a distance entry leads to. */
  method DistLeadsTo(ghost g: Lens, here: Entry, st: State, ghost cur: Cur, ghost w: seq<bool>, ghost d: nat)
    returns (st': State, ghost cur': Cur)
    requires DistMeans(g.dl, w, here, d) && st.mode == DIST && Holds(st, cur) && Sensible(g, cur)
    ensures Sensible(g, cur') && Part(g, cur') == Part(g, cur) + w && Holds(st', cur')
    ensures (cur'.AtDistExt? || cur'.BadDist?)
  {
    if Flag64(here.op) {
      st' := st.(mode := BAD);
      cur' := BadDist(cur.c, cur.e, w);
    } else {
      st' := st.(offset := here.val, extra := here.op % 16, mode := DISTEXT);
      cur' := AtDistExt(cur.c, cur.e, d);
    }
  }

  /** State DISTEXT */
  method DistExtState(ghost g: Lens, input: seq<byte>, a: Acc, st: State, ghost cur: Cur)
    returns (go: bool, a': Acc, st': State, ghost cur': Cur)
    requires Good(input, a) && st.mode == DISTEXT && Holds(st, cur) && Sensible(g, cur)
    ensures Stepped(g, input, a, st, cur, go, a', st', cur')
  {
    var v;
    go, v, a' := TakeBits(input, a, st.extra);
    st', cur' := st, cur;
    if go {
      st' := st.(offset := st.offset + v, mode := MATCH);
      cur' := AtItem(Pair(cur.c, cur.e, cur.d, v));
      LengthRange(cur.c, cur.e);
      PairKept(g, input, a, a', cur, v);
    }
  }

  /** The extra bits of a distance complete its item. */
  lemma {:induction false} PairKept(g: Lens, input: seq<byte>, a: Acc, a': Acc, cur: Cur, v: nat)
    requires Good(input, a) && Good(input, a') && a'.next >= a.next && cur.AtDistExt? && Sensible(g, cur)
    requires v < Pow2(ExtraDist(cur.d))
    requires Unread(input, a) == Unpack(v, ExtraDist(cur.d)) + Unread(input, a')
    ensures Kept(g, input, a, cur, a', AtItem(Pair(cur.c, cur.e, cur.d, v)))
  {
    Refield(LengthField(g.ll, cur.c, cur.e), CodeString(g.dl, cur.d), Unpack(v, ExtraDist(cur.d)), Unread(input, a'));
  }

  lemma {:induction false} Refield(a: seq<bool>, b: seq<bool>, c: seq<bool>, u: seq<bool>)
    ensures (a + b) + (c + u) == (a + (b + c)) + u
  {
  }
}
