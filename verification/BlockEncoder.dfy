/** The symbol buffer of a block and the sending of the whole block. */
module BlockEncoder {
  import opened Bits
  import opened Options
  import opened Canonical
  import opened CodeGen
  import opened BitWriter
  import opened Symbols
  import opened Lz77
  import opened Tokens
  import opened TreeBuilder
  import opened RunLengths
  import opened BlockSizes
  import opened StaticTrees
  import opened Blocks

  const MAX_LIT_BUFSIZE := 32768

  // ----- every symbol of a block has a code -----

  lemma {:induction false} FreqAt(its: seq<Item>, i: nat)
    requires i < |its| && InRange(its[i])
    ensures LeadSymbol(its[i]) < L_CODES && LitFreqs(its)[LeadSymbol(its[i])] >= 1
    ensures its[i].Pair? ==> its[i].d < D_CODES && DistFreqs(its)[its[i].d] >= 1
  {
    if i < |its| - 1 {
      FreqAt(its[..|its| - 1], i);
    }
  }

  lemma {:induction false} EndBlockUsed(its: seq<Item>)
    ensures LitFreqs(its)[END_BLOCK] >= 1
  {
    if its != [] { EndBlockUsed(its[..|its| - 1]); }
  }

  lemma {:induction false} TokensInRange(ts: seq<Token>)
    requires ValidTokens(ts)
    ensures forall i :: 0 <= i < |ts| ==> InRange(ItemsOf(ts)[i])
  {
    forall i | 0 <= i < |ts| ensures InRange(ItemsOf(ts)[i]) { TokenItem(ts[i]); }
  }

  lemma {:induction false} AllCoded(ts: seq<Token>, ll: seq<nat>, dl: seq<nat>)
    requires ValidTokens(ts)
    requires forall s :: 0 <= s < L_CODES && LitFreqs(ItemsOf(ts))[s] != 0 ==> HasCode(ll, s)
    requires forall d :: 0 <= d < D_CODES && DistFreqs(ItemsOf(ts))[d] != 0 ==> HasCode(dl, d)
    ensures AllCodable(ll, dl, ItemsOf(ts)) && HasCode(ll, END_BLOCK)
  {
    var its := ItemsOf(ts);
    TokensInRange(ts);
    forall i | 0 <= i < |its| ensures CodableAt(ll, dl, its, i) { FreqAt(its, i); }
    EndBlockUsed(its);
  }

  lemma {:induction false} StaticCoded(ts: seq<Token>)
    requires ValidTokens(ts)
    ensures AllCodable(StaticLit(), StaticDist(), ItemsOf(ts)) && HasCode(StaticLit(), END_BLOCK)
  {
    AllCoded(ts, StaticLit(), StaticDist());
  }

  lemma {:induction false} DynamicCoded(ts: seq<Token>, lfc: seq<nat>, ldl: seq<nat>, lmax: nat, dfc: seq<nat>,
                                        ddl: seq<nat>, dmax: nat)
    requires ValidTokens(ts)
    requires CodesFor(LitFreqs(ItemsOf(ts)), lfc, ldl, lmax, MAX_BITS)
    requires CodesFor(DistFreqs(ItemsOf(ts)), dfc, ddl, dmax, MAX_BITS)
    ensures AllCodable(ldl[..lmax + 1], ddl[..dmax + 1], ItemsOf(ts)) && HasCode(ldl[..lmax + 1], END_BLOCK)
    ensures Coded(Tree(lfc, ldl[..lmax + 1])) && Coded(Tree(dfc, ddl[..dmax + 1])) && 256 <= lmax < L_CODES
    ensures dmax < D_CODES && ldl[lmax] != 0 && ddl[dmax] != 0
  {
    AllCoded(ts, ldl[..lmax + 1], ddl[..dmax + 1]);
  }

  // ----- tallying -----

  lemma {:induction false} TallyOne(ts: seq<Token>, t: Token)
    requires ValidToken(t)
    ensures ItemsOf(ts + [t]) == ItemsOf(ts) + [ItemOf(t)] && InRange(ItemOf(t))
    ensures LeadSymbol(ItemOf(t)) < L_CODES && (ItemOf(t).Pair? ==> ItemOf(t).d < D_CODES)
    ensures LitFreqs(ItemsOf(ts + [t])) == Bumped(LitFreqs(ItemsOf(ts)), LeadSymbol(ItemOf(t)), true)
    ensures DistFreqs(ItemsOf(ts + [t])) == if t.dist == 0 then
              DistFreqs(ItemsOf(ts)) else Bumped(DistFreqs(ItemsOf(ts)), ItemOf(t).d, true)
  {
    TokenItem(t);
    assert ItemsOf(ts + [t]) == ItemsOf(ts) + [ItemOf(t)];
    FreqStep(ItemsOf(ts), ItemOf(t));
  }

  lemma {:induction false} MoreTokens(ts: seq<Token>, t: Token)
    requires ValidTokens(ts) && ValidToken(t)
    ensures ValidTokens(ts + [t])
  {
  }

  /** Counts one more use of a symbol. */
  method Bump(fc: array<nat>, s: nat, ghost freqs: seq<nat>)
    requires s < |freqs| && Holding(fc[..], freqs)
    modifies fc
    ensures Holding(fc[..], Bumped(freqs, s, true))
  {
    fc[s] := fc[s] + 1;
  }

  /** The symbols of a match. */
  method MatchSymbols(st: StaticTables, distance: nat, length: byte) returns (lc: nat, dc: nat)
    requires Initialized(st) && 1 <= distance <= 32768
    ensures lc == LeadSymbol(ItemOf(Token(distance, length))) && dc == ItemOf(Token(distance, length)).d
  {
    lc, dc := st.lengthCode[length] + 256 + 1, TableDistCode(st.distCode, distance - 1);
  }

  /** The symbols of the block in progress. */
  class Encoder {
    const t: Trees
    const litBufsize: nat
    const st: StaticTables
    const sl: Tree
    const sd: Tree
    var tokens: seq<Token>   // d_buf and l_buf, up to last_lit

    ghost predicate Valid()
      reads this, t.lfc, t.dfc, t.bfc, t.depth
    {
      && t.Shaped() && AllBytes(t.depth[..]) && Initialized(st) && 2 <= litBufsize <= MAX_LIT_BUFSIZE
      && sl.lens == StaticLit() && Coded(sl) && sd.lens == StaticDist() && Coded(sd)
      && |tokens| < litBufsize && ValidTokens(tokens)
      && Holding(t.lfc[..], LitFreqs(ItemsOf(tokens))) && Holding(t.dfc[..], DistFreqs(ItemsOf(tokens)))
      && forall c :: 0 <= c < BL_CODES ==> t.bfc[c] == 0
    }

    constructor (litBufsize: nat)
      requires 2 <= litBufsize <= MAX_LIT_BUFSIZE
      ensures Valid() && tokens == [] && fresh(t) && this.litBufsize == litBufsize
      ensures fresh(t.lfc) && fresh(t.ldl) && fresh(t.dfc) && fresh(t.ddl) && fresh(t.bfc) && fresh(t.bdl)
      ensures fresh(t.heap) && fresh(t.depth) && fresh(t.blCount)
    {
      this.litBufsize := litBufsize;
      tokens := [];
      t := new Trees();
      var tables := TrStaticInit();
      var ltree := StaticLitTree();
      var dtree := StaticDistTree();
      st, sl, sd := tables, ltree, dtree;
      new;
      InitBlock();
    }

    /** init_block */
    method InitBlock()
      requires t.Shaped()
      modifies this`tokens, t.lfc, t.dfc, t.bfc
      ensures tokens == [] && (forall c :: 0 <= c < BL_CODES ==> t.bfc[c] == 0)
      ensures Holding(t.lfc[..], LitFreqs(ItemsOf(tokens))) && Holding(t.dfc[..], DistFreqs(ItemsOf(tokens)))
    {
      for n := 0 to L_CODES invariant forall i :: 0 <= i < n ==> t.lfc[i] == 0 { t.lfc[n] := 0; }
      for n := 0 to D_CODES
        invariant (forall i :: 0 <= i < n ==> t.dfc[i] == 0) && forall i :: 0 <= i < L_CODES ==> t.lfc[i] == 0
      {
        t.dfc[n] := 0;
      }
      for n := 0 to BL_CODES
        invariant (forall i :: 0 <= i < n ==> t.bfc[i] == 0) && (forall i :: 0 <= i < D_CODES ==> t.dfc[i] == 0)
        invariant forall i :: 0 <= i < L_CODES ==> t.lfc[i] == 0
      {
        t.bfc[n] := 0;
      }
      t.lfc[END_BLOCK] := 1;
      tokens := [];
      assert ItemsOf(tokens) == [];
    }

    /** _tr_tally_lit */
    method TallyLit(c: byte) returns (flush: bool)
      requires Valid() && |tokens| < litBufsize - 1
      modifies this`tokens, t.lfc
      ensures Valid() && tokens == old(tokens) + [Token(0, c)] && (flush <==> |tokens| == litBufsize - 1)
    {
      TallyOne(tokens, Token(0, c));
      tokens := tokens + [Token(0, c)];
      Bump(t.lfc, c, LitFreqs(ItemsOf(old(tokens))));
      flush := |tokens| == litBufsize - 1;
    }

    /** _tr_tally_dist */
    method TallyDist(distance: nat, length: byte) returns (flush: bool)
      requires Valid() && |tokens| < litBufsize - 1 && 1 <= distance <= 32768
      modifies this`tokens, t.lfc, t.dfc
      ensures Valid() && tokens == old(tokens) + [Token(distance, length)] && (flush <==> |tokens| == litBufsize - 1)
    {
      TallyOne(tokens, Token(distance, length));
      MoreTokens(tokens, Token(distance, length));
      CountMatch(distance, length, LitFreqs(ItemsOf(tokens)), DistFreqs(ItemsOf(tokens)));
      tokens := tokens + [Token(distance, length)];
      flush := |tokens| == litBufsize - 1;
    }

    /** Counts the symbols of a match. */
    method CountMatch(distance: nat, length: byte, ghost lf: seq<nat>, ghost df: seq<nat>)
      requires t.Shaped() && Initialized(st) && 1 <= distance <= 32768 && Holding(t.lfc[..], lf)
      requires Holding(t.dfc[..], df)
      requires LeadSymbol(ItemOf(Token(distance, length))) < |lf| && ItemOf(Token(distance, length)).d < |df|
      modifies t.lfc, t.dfc
      ensures Holding(t.lfc[..], Bumped(lf, LeadSymbol(ItemOf(Token(distance, length))), true))
      ensures Holding(t.dfc[..], Bumped(df, ItemOf(Token(distance, length)).d, true))
    {
      var lc, dc := MatchSymbols(st, distance, length);
      Bump(t.lfc, lc, lf);
      Bump(t.dfc, dc, df);
    }

    /** The trees are built; optLen and staticLen are the sizes of the block in both forms, without its type. */
    ghost predicate Built(lmax: nat, dmax: nat, maxBl: nat, optLen: int, staticLen: int)
      reads this, t.lfc, t.ldl, t.dfc, t.ddl, t.bfc, t.bdl, t.depth
    {
      && t.Shaped() && AllBytes(t.depth[..]) && Initialized(st) && sl.lens == StaticLit() && Coded(sl)
      && sd.lens == StaticDist() && Coded(sd)
      && ValidTokens(tokens) && 256 <= lmax < L_CODES && dmax < D_CODES && t.ldl[lmax + 1] == GUARD
      && t.ddl[dmax + 1] == GUARD
      && Coded(Tree(t.lfc[..], t.ldl[..lmax + 1])) && Coded(Tree(t.dfc[..], t.ddl[..dmax + 1]))
      && BlTree(t.ldl[..lmax + 1], t.ddl[..dmax + 1], t.bfc[..], t.bdl[..BL_CODES], maxBl)
      && Encodes(StaticBlock, ItemsOf(tokens))
      && Encodes(DynamicBlock(t.ldl[..lmax + 1], t.ddl[..dmax + 1], t.bdl[..BL_CODES], maxBl + 1), ItemsOf(tokens))
      && staticLen + 3 == |BitsOfBlock(0, StaticBlock, false, ItemsOf(tokens))|
      && optLen + 3 == |BitsOfBlock(0, DynamicBlock(t.ldl[..lmax + 1], t.ddl[..dmax + 1], t.bdl[..BL_CODES], maxBl + 1),
                                    false, ItemsOf(tokens))|
    }

    /** Builds the literal/length, distance and bit length trees. */
    method BuildTrees() returns (lmax: nat, dmax: nat, maxBl: nat, optLen: int, staticLen: int)
      requires Valid()
      modifies t.lfc, t.ldl, t.dfc, t.ddl, t.bfc, t.bdl, t.heap, t.depth, t.blCount
      ensures Built(lmax, dmax, maxBl, optLen, staticLen)
    {
      ghost var its := ItemsOf(tokens);
      TokensInRange(tokens);
      FreqTotals(its);
      lmax, dmax, optLen, staticLen := t.BuildBody(LitFreqs(its), DistFreqs(its));
      ghost var ll, dl := t.ldl[..lmax + 1], t.ddl[..dmax + 1];
      assert t.ldl[..][..lmax + 1] == ll && t.ddl[..][..dmax + 1] == dl;
      DynamicCoded(tokens, t.lfc[..], t.ldl[..], lmax, t.dfc[..], t.ddl[..], dmax);
      assert ll[END_BLOCK] != 0;
      maxBl, optLen := t.BuildBl(lmax, dmax, optLen, ll, dl);
      Sizes(tokens, ll, dl, t.bfc[..], t.bdl[..BL_CODES], maxBl);
    }

    /** A block with the static trees. */
    method SendStatic(w: Writer, last: bool, ghost lmax: nat, ghost dmax: nat, ghost maxBl: nat, ghost optLen: int,
                      ghost staticLen: int)
      requires Built(lmax, dmax, maxBl, optLen, staticLen) && w.Valid()
      modifies w
      ensures w.Valid() && w.Sent() == old(w.Sent()) + BitsOfBlock(0, StaticBlock, last, ItemsOf(tokens))
    {
      ghost var s := w.Sent();
      SendType(w, STATIC_TREES, last);
      CompressBlock(w, tokens, sl, sd, st);
      Assoc(s, TypeBits(STATIC_TREES, last), BlockBits(StaticLit(), StaticDist(), ItemsOf(tokens)));
    }

    /** A block with its own trees. */
    method SendDynamic(w: Writer, last: bool, lmax: nat, dmax: nat, maxBl: nat, ghost optLen: int, ghost staticLen: int)
      requires Built(lmax, dmax, maxBl, optLen, staticLen) && w.Valid()
      modifies w
      ensures w.Valid()
      ensures w.Sent() == old(w.Sent()) + BitsOfBlock(0, DynamicBlock(t.ldl[..lmax + 1], t.ddl[..dmax + 1],
            t.bdl[..BL_CODES], maxBl + 1), last, ItemsOf(tokens))
    {
      ghost var s, its, ll, dl, bl := w.Sent(), ItemsOf(tokens), t.ldl[..lmax + 1], t.ddl[..dmax + 1],
          t.bdl[..BL_CODES];
      SendHeader(w, last, lmax, dmax, maxBl, ll, dl, bl);
      CompressBlock(w, tokens, Tree(t.lfc[..], t.ldl[..lmax + 1]), Tree(t.dfc[..], t.ddl[..dmax + 1]), st);
      JoinThree(s, TypeBits(DYN_TREES, last), HeaderBits(ll, dl, bl, maxBl + 1), BlockBits(ll, dl, its));
    }

    /** The type of a block with its own trees, and the trees. */
    method SendHeader(w: Writer, last: bool, lmax: nat, dmax: nat, maxBl: nat, ghost ll: seq<nat>, ghost dl: seq<nat>,
                      ghost bl: seq<nat>)
      requires t.Shaped() && w.Valid() && 256 <= lmax < L_CODES && dmax < D_CODES && ll == t.ldl[..lmax + 1]
      requires dl == t.ddl[..dmax + 1] && bl == t.bdl[..BL_CODES]
      requires t.ldl[lmax + 1] == GUARD && t.ddl[dmax + 1] == GUARD && ValidLens(ll) && ValidLens(dl)
      requires BlTree(ll, dl, t.bfc[..], bl, maxBl)
      modifies w
      ensures w.Valid() && w.Sent() == (old(w.Sent()) + TypeBits(DYN_TREES, last)) + HeaderBits(ll, dl, bl, maxBl + 1)
    {
      SendType(w, DYN_TREES, last);
      SendAllTrees(w, t, lmax + 1, dmax + 1, maxBl + 1, ll, dl, bl);
    }

    /** _tr_flush_block: builds the trees, picks the shortest form and sends it; after the last block the output is
        aligned on a byte boundary. The bits of a compressed block are three more than optLen or staticLen say; dyn is
        the block with its own trees, whether it is sent or not. */
    method FlushBlock(w: Writer, buf: Option<seq<byte>>, storedLen: nat, last: bool, fixed: bool)
      returns (block: Block, optLen: int, staticLen: int, ghost dyn: Block)
      requires Valid() && w.Valid() && (buf.Some? ==> |buf.value| == storedLen <= MAX_STORED)
      modifies w, this`tokens, t.lfc, t.ldl, t.dfc, t.ddl, t.bfc, t.bdl, t.heap, t.depth, t.blCount
      ensures Valid() && tokens == [] && w.Valid() && Encodes(block, ItemsOf(old(tokens))) && (last ==> w.biValid == 0)
      ensures w.Sent() == old(w.Sent()) + Closed(|old(w.Sent())|, BitsOfBlock(|old(w.Sent())|, block, last,
            ItemsOf(old(tokens))), last)
      ensures Sized(dyn, ItemsOf(old(tokens)), optLen, staticLen)
      ensures Picked(block, dyn, buf, storedLen, fixed, optLen, staticLen)
    {
      ghost var its, s := ItemsOf(tokens), w.Sent();
      var lmax, dmax, maxBl;
      lmax, dmax, maxBl, optLen, staticLen := BuildTrees();
      dyn := DynamicBlock(t.ldl[..lmax + 1], t.ddl[..dmax + 1], t.bdl[..BL_CODES], maxBl + 1);
      block := SendShortest(w, buf, storedLen, last, fixed, lmax, dmax, maxBl, optLen, staticLen);
      InitBlock();
      Close(w, last, s, BitsOfBlock(|s|, block, last, its));
    }

    /** Sends the block in its shortest form. */
    method SendShortest(w: Writer, buf: Option<seq<byte>>, storedLen: nat, last: bool, fixed: bool,
                        lmax: nat, dmax: nat, maxBl: nat, optLen: int, staticLen: int)
      returns (block: Block)
      requires Built(lmax, dmax, maxBl, optLen, staticLen) && w.Valid()
      requires buf.Some? ==> |buf.value| == storedLen <= MAX_STORED
      modifies w
      ensures w.Valid() && Encodes(block, ItemsOf(tokens))
      ensures Picked(block, DynamicBlock(t.ldl[..lmax + 1], t.ddl[..dmax + 1], t.bdl[..BL_CODES], maxBl + 1), buf,
                     storedLen, fixed, optLen, staticLen)
      ensures w.Sent() == old(w.Sent()) + BitsOfBlock(|old(w.Sent())|, block, last, ItemsOf(tokens))
    {
      var optLenb, staticLenb := InBytes(optLen), InBytes(staticLen);
      if staticLenb <= optLenb { optLenb := staticLenb; }
      if storedLen + 4 <= optLenb && buf.Some? {
        block := StoredBlock(buf.value);
        TrStoredBlock(w, buf.value, last);
      } else {
        block := SendCompressed(w, last, fixed || staticLenb == optLenb, lmax, dmax, maxBl, optLen, staticLen);
      }
    }

    /** Sends the block with the static trees or with its own. */
    method SendCompressed(w: Writer, last: bool, asStatic: bool, lmax: nat, dmax: nat, maxBl: nat, ghost optLen: int,
                          ghost staticLen: int) returns (block: Block)
      requires Built(lmax, dmax, maxBl, optLen, staticLen) && w.Valid()
      modifies w
      ensures w.Valid() && Encodes(block, ItemsOf(tokens))
      ensures block == if asStatic then StaticBlock
                       else DynamicBlock(t.ldl[..lmax + 1], t.ddl[..dmax + 1], t.bdl[..BL_CODES], maxBl + 1)
      ensures w.Sent() == old(w.Sent()) + BitsOfBlock(|old(w.Sent())|, block, last, ItemsOf(tokens))
    {
      if asStatic {
        block := StaticBlock;
        SendStatic(w, last, lmax, dmax, maxBl, optLen, staticLen);
      } else {
        block := DynamicBlock(t.ldl[..lmax + 1], t.ddl[..dmax + 1], t.bdl[..BL_CODES], maxBl + 1);
        SendDynamic(w, last, lmax, dmax, maxBl, optLen, staticLen);
      }
    }
  }

  /** The size of a compressed block in bytes, as the forms are compared: its type and other bits, rounded up. */
  function InBytes(len: int): int {
    (len + 3 + 7) / 8
  }

  /** The sizes of the block with the static trees and of dyn, the one with its own trees, without the type. */
  ghost predicate Sized(dyn: Block, its: seq<Item>, optLen: int, staticLen: int) {
    && dyn.DynamicBlock? && Encodes(dyn, its) && Encodes(StaticBlock, its)
    && |BitsOfBlock(0, dyn, false, its)| == 3 + optLen && |BitsOfBlock(0, StaticBlock, false, its)| == 3 + staticLen
  }

  /** Which form is sent. */
  ghost predicate Picked(block: Block, dyn: Block, buf: Option<seq<byte>>, storedLen: nat, fixed: bool, optLen: int,
                         staticLen: int) {
    && (block.StoredBlock? <==>
        buf.Some? && storedLen + 4 <= InBytes(optLen) && storedLen + 4 <= InBytes(staticLen))
    && (block.StoredBlock? ==> buf == Some(block.data))
    && (!block.StoredBlock? ==> block == if fixed || InBytes(staticLen) <= InBytes(optLen) then StaticBlock else dyn)
  }

  /** How many bits more than another form the one picked may have. */
  function Slack(block: Block): nat {
    match block case StoredBlock(_) => 17 case StaticBlock => 7 case DynamicBlock(_, _, _, _) => 0
  }

  /** No form has fewer bytes than the one picked, and only a few bits are lost by comparing bytes: at most seven if
      the static trees are used, and seventeen if the block is stored, whose padding is not counted. */
  lemma {:induction false} ShortestForm(pos: nat, block: Block, dyn: Block, buf: Option<seq<byte>>, storedLen: nat,
                                        last: bool, its: seq<Item>, optLen: int, staticLen: int)
    requires Sized(dyn, its, optLen, staticLen) && (buf.Some? ==> |buf.value| == storedLen <= MAX_STORED)
    requires Picked(block, dyn, buf, storedLen, false, optLen, staticLen)
    ensures Encodes(block, its)
    ensures var n := |BitsOfBlock(pos, block, last, its)|;
            && n <= |BitsOfBlock(pos, StaticBlock, last, its)| + Slack(block)
            && n <= |BitsOfBlock(pos, dyn, last, its)| + Slack(block)
            && (buf.Some? ==> n <= |BitsOfBlock(pos, StoredBlock(buf.value), last, its)|)
    ensures var n := if block.StoredBlock? then storedLen + 4 else if block.StaticBlock? then InBytes(staticLen)
                     else InBytes(optLen);
            n <= InBytes(staticLen) && n <= InBytes(optLen) && (buf.Some? ==> n <= storedLen + 4)
  {
    SizeAnywhere(pos, dyn, last, its);
    SizeAnywhere(pos, StaticBlock, last, its);
    if buf.Some? { StoredSize(pos, buf.value, last, its); }
  }

  /** The size of a compressed block depends neither on where it is sent nor on whether it is the last one. */
  lemma {:induction false} SizeAnywhere(pos: nat, b: Block, last: bool, its: seq<Item>)
    requires Encodes(b, its) && !b.StoredBlock?
    ensures |BitsOfBlock(pos, b, last, its)| == |BitsOfBlock(0, b, false, its)|
  {
  }

  lemma {:induction false} StoredSize(pos: nat, data: seq<byte>, last: bool, its: seq<Item>)
    requires |data| <= MAX_STORED
    ensures |BitsOfBlock(pos, StoredBlock(data), last, its)| == 3 + PadLen(pos + 3) + 8 * (|data| + 4)
  {
  }

  const STORED_BLOCK := 0

  /** The type of a block. */
  method SendType(w: Writer, kind: nat, last: bool)
    requires w.Valid() && kind <= 2
    modifies w
    ensures w.Valid() && w.Sent() == old(w.Sent()) + TypeBits(kind, last)
  {
    SmallPowers();
    w.SendBits(2 * kind + (if last then 1 else 0), 3);
  }

  /** _tr_stored_block */
  method TrStoredBlock(w: Writer, data: seq<byte>, last: bool)
    requires w.Valid() && |data| <= MAX_STORED
    modifies w
    ensures w.Valid()
    ensures w.Sent() == old(w.Sent()) + (TypeBits(STORED_BLOCK, last) + StoredBits(|old(w.Sent())| + 3, data))
  {
    ghost var s, t := w.Sent(), TypeBits(STORED_BLOCK, last);
    SendType(w, STORED_BLOCK, last);
    CopyBlock(w, data);
    Assoc(s, t, StoredBits(|s + t|, data));
  }

  /** copy_block, with the header. */
  method CopyBlock(w: Writer, data: seq<byte>)
    requires w.Valid() && |data| <= MAX_STORED
    modifies w
    ensures w.Valid() && w.Sent() == old(w.Sent()) + StoredBits(|old(w.Sent())|, data)
  {
    ghost var s := w.Sent();
    CopyHeader(w, |data|);
    CopyBytes(w, data);
    Assoc(s, StoredHead(|s|, |data|), Stream(data));
  }

  /** The header of a stored block, after its type. */
  method CopyHeader(w: Writer, len: nat)
    requires w.Valid() && len <= MAX_STORED
    modifies w
    ensures w.Valid() && w.biValid == 0 && w.Sent() == old(w.Sent()) + StoredHead(|old(w.Sent())|, len)
  {
    ghost var s := w.Sent();
    ghost var pad := w.BiWindup();
    PadTo(s, pad, w.pending, w.biBuf);
    PutWord(w, len);
    PutWord(w, MAX_STORED - len);
    JoinStored(s, Unpack(0, pad), Word(len), Word(MAX_STORED - len));
  }

  /** Bytes, when no bits are held. */
  method CopyBytes(w: Writer, data: seq<byte>)
    requires w.Valid() && w.biValid == 0
    modifies w
    ensures w.Valid() && w.Sent() == old(w.Sent()) + Stream(data)
  {
    ghost var h := w.Sent();
    NothingHeld(w.pending, w.biBuf);
    for i := 0 to |data|
      invariant w.Valid() && w.biValid == 0 && Stream(w.pending) == h + Stream(data[..i])
    {
      StreamOneMore(h, data, i, ByteBits(data[i]));
      w.PutByte(data[i]);
    }
    assert data[..|data|] == data;
    NothingHeld(w.pending, w.biBuf);
  }

  lemma {:induction false} StreamOneMore(h: seq<bool>, data: seq<byte>, i: nat, bits: seq<bool>)
    requires i < |data| && bits == ByteBits(data[i])
    ensures (h + Stream(data[..i])) + bits == h + Stream(data[..i + 1])
  {
    StreamSnoc(data[..i], data[i]);
    assert data[..i + 1] == data[..i] + [data[i]];
    Assoc(h, Stream(data[..i]), bits);
  }

  /** put_short, when no bits are held. */
  method PutWord(w: Writer, v: nat)
    requires w.Valid() && w.biValid == 0
    modifies w
    ensures w.Valid() && w.biValid == 0 && w.Sent() == old(w.Sent()) + Word(v)
  {
    NothingHeld(w.pending, w.biBuf);
    var lo, hi := Bytes(v);
    w.PutShort(lo, hi);
    NothingHeld(w.pending, w.biBuf);
  }

  /** The bits w are the 16 low bits of v. */
  ghost predicate IsWord(v: nat, w: seq<bool>) {
    |w| == 16 && forall n: nat {:trigger Unpack(v, n)} :: n == 16 ==> w == Unpack(v, n)
  }

  ghost function Word(v: nat): (w: seq<bool>)
    ensures IsWord(v, w)
  {
    assert IsWord(v, Unpack(v, 16));
    var w :| IsWord(v, w);
    w
  }

  lemma {:induction false} NothingHeld(pending: seq<byte>, buf: nat)
    ensures Stream(pending) + Unpack(buf, 0) == Stream(pending)
  {
  }

  /** Bits up to the next byte boundary. */
  function PadLen(pos: nat): nat {
    (8 - pos % 8) % 8
  }

  lemma {:induction false} PadTo(s: seq<bool>, pad: nat, pending: seq<byte>, buf: nat)
    requires pad < 8 && Stream(pending) + Unpack(buf, 0) == s + Unpack(0, pad)
    ensures pad == PadLen(|s|)
  {
    NothingHeld(pending, buf);
    assert 8 * |pending| == |s| + pad;
  }

  lemma {:induction false} JoinStored(s: seq<bool>, p: seq<bool>, a: seq<bool>, b: seq<bool>)
    ensures ((s + p) + a) + b == s + (p + (a + b))
  {
  }

  /** bi_windup after the last block. */
  method Close(w: Writer, last: bool, ghost s: seq<bool>, ghost bits: seq<bool>)
    requires w.Valid() && w.Sent() == s + bits
    modifies w
    ensures w.Valid() && w.Sent() == s + Closed(|s|, bits, last) && (last ==> w.biValid == 0)
  {
    if last {
      ghost var pad := w.BiWindup();
      PadTo(s + bits, pad, w.pending, w.biBuf);
      Assoc(s, bits, Unpack(0, pad));
    }
  }

  /** The bits of a block from position pos on, up to a byte boundary after the last one. */
  function Closed(pos: nat, bits: seq<bool>, last: bool): seq<bool> {
    if last then bits + Unpack(0, PadLen(pos + |bits|)) else bits
  }

  lemma {:induction false} JoinThree(s: seq<bool>, a: seq<bool>, b: seq<bool>, c: seq<bool>)
    ensures ((s + a) + b) + c == s + (a + (b + c))
  {
  }

  /** The trees of a block as sent. */
  datatype Block = StoredBlock(data: seq<byte>) | StaticBlock | DynamicBlock(ll: seq<nat>, dl: seq<nat>, bl: seq<nat>,
        blcodes: nat)

  function TypeBits(kind: nat, last: bool): (w: seq<bool>)
    ensures |w| == 3
  {
    Unpack(2 * kind + (if last then 1 else 0), 3)
  }

  /** Whether a block can code the items, with complete codes. */
  ghost predicate Encodes(b: Block, its: seq<Item>) {
    match b
    case StoredBlock(data) => |data| <= MAX_STORED
    case StaticBlock => AllCodable(StaticLit(), StaticDist(), its) && HasCode(StaticLit(), END_BLOCK)
    case DynamicBlock(ll, dl, bl, blcodes) =>
      && 257 <= |ll| <= L_CODES && 1 <= |dl| <= D_CODES && ValidLens(ll) && ValidLens(dl) && Complete(ll)
      && Complete(dl)
      && |bl| == BL_CODES && ValidLens(bl) && Complete(bl) && (forall c :: 0 <= c < BL_CODES ==> bl[c] <= MAX_BL_BITS)
      && 4 <= blcodes <= BL_CODES && (forall i :: blcodes <= i < BL_CODES ==> bl[BL_ORDER[i]] == 0)
      && bl[BL_ORDER[blcodes - 1]] != 0 && ll[|ll| - 1] != 0 && dl[|dl| - 1] != 0
      && OpsCodable(bl, Ops(ll) + Ops(dl)) && AllCodable(ll, dl, its) && HasCode(ll, END_BLOCK)
  }

  /** A stored block after its type, from position pos on: padding, the length, its complement and the data. */
  ghost function StoredBits(pos: nat, data: seq<byte>): seq<bool>
    requires |data| <= MAX_STORED
  {
    StoredHead(pos, |data|) + Stream(data)
  }

  /** Padding, a length and its complement. */
  ghost function StoredHead(pos: nat, len: nat): seq<bool>
    requires len <= MAX_STORED
  {
    Unpack(0, PadLen(pos)) + (Word(len) + Word(MAX_STORED - len))
  }

  /** All the bits of a block that is sent from position pos on. */
  ghost function BitsOfBlock(pos: nat, b: Block, last: bool, its: seq<Item>): seq<bool>
    requires Encodes(b, its)
  {
    match b
    case StoredBlock(data) => TypeBits(STORED_BLOCK, last) + StoredBits(pos + 3, data)
    case StaticBlock => TypeBits(STATIC_TREES, last) + BlockBits(StaticLit(), StaticDist(), its)
    case DynamicBlock(ll, dl, bl, blcodes) =>
        TypeBits(DYN_TREES, last) + (HeaderBits(ll, dl, bl, blcodes) + BlockBits(ll, dl, its))
  }

  /** The sizes computed while building the trees are those of the block in both forms. */
  lemma {:induction false} Sizes(ts: seq<Token>, ll: seq<nat>, dl: seq<nat>, bfc: seq<nat>, bl: seq<nat>, maxBl: nat)
    requires ValidTokens(ts) && BlTree(ll, dl, bfc, bl, maxBl) && 257 <= |ll| <= L_CODES && |dl| <= D_CODES
    requires ValidLens(ll) && ValidLens(dl)
    requires Complete(ll) && Complete(dl) && AllCodable(ll, dl, ItemsOf(ts)) && HasCode(ll, END_BLOCK)
    requires ll[|ll| - 1] != 0 && dl[|dl| - 1] != 0
    ensures Encodes(StaticBlock, ItemsOf(ts)) && Encodes(DynamicBlock(ll, dl, bl, maxBl + 1), ItemsOf(ts))
    ensures |BitsOfBlock(0, StaticBlock, false, ItemsOf(ts))| == 3
            + BodySize(StaticLit(), StaticDist(), LitFreqs(ItemsOf(ts)), DistFreqs(ItemsOf(ts)))
    ensures |BitsOfBlock(0, DynamicBlock(ll, dl, bl, maxBl + 1), false, ItemsOf(ts))| ==
            3 + BodySize(ll, dl, LitFreqs(ItemsOf(ts)), DistFreqs(ItemsOf(ts))) + |OpsBits(bl, Ops(ll) + Ops(dl))|
                + 3 * (maxBl + 1) + 14
  {
    StaticSize(ts);
    DynamicSize(ItemsOf(ts), ll, dl, bfc, bl, maxBl);
  }

  lemma {:induction false} StaticSize(ts: seq<Token>)
    requires ValidTokens(ts)
    ensures Encodes(StaticBlock, ItemsOf(ts))
    ensures |BitsOfBlock(0, StaticBlock, false, ItemsOf(ts))| == 3
            + BodySize(StaticLit(), StaticDist(), LitFreqs(ItemsOf(ts)), DistFreqs(ItemsOf(ts)))
  {
    StaticCoded(ts);
    BlockSize(StaticLit(), StaticDist(), ItemsOf(ts));
  }

  lemma {:induction false} DynamicSize(its: seq<Item>, ll: seq<nat>, dl: seq<nat>, bfc: seq<nat>, bl: seq<nat>,
                                       maxBl: nat)
    requires BlTree(ll, dl, bfc, bl, maxBl) && 257 <= |ll| <= L_CODES && |dl| <= D_CODES
    requires ValidLens(ll) && ValidLens(dl)
    requires Complete(ll) && Complete(dl) && AllCodable(ll, dl, its) && HasCode(ll, END_BLOCK)
    requires ll[|ll| - 1] != 0 && dl[|dl| - 1] != 0
    ensures Encodes(DynamicBlock(ll, dl, bl, maxBl + 1), its)
    ensures |BitsOfBlock(0, DynamicBlock(ll, dl, bl, maxBl + 1), false, its)| ==
            3 + BodySize(ll, dl, LitFreqs(its), DistFreqs(its)) + |OpsBits(bl, Ops(ll) + Ops(dl))| + 3 * (maxBl + 1)
                + 14
  {
    BlockSize(ll, dl, its);
  }
}
