/** How many bits inflate holds when it calls inflate_fast: any number that is short of the next code. */
module FastEntry {
  import opened Bits
  import opened Canonical
  import opened Lz77
  import opened Tokens
  import opened BitReader
  import opened BlockStates
  import opened BlockOutput
  import opened Decoding
  import opened Inflate
  import opened BlockRoundTrip
  import opened StaticTrees
  import opened FixedCodes

  /** The symbol whose code a block begins with. */
  function FirstLead(its: seq<Item>): nat {
    if its == [] then END_BLOCK else LeadSymbol(its[0])
  }

  /** Once anything was taken of a block, its first code was. */
  lemma {:induction false} TookFirstCode(g: Lens, p: Progress, v: seq<bool>, its: seq<Item>, rest: seq<bool>)
    requires Encodable(g, its) && Sane(g, p) && Taken(g, p) + v == BlockBits(g.ll, g.dl, its) + rest
    ensures HasCode(g.ll, FirstLead(its))
    ensures Taken(g, p) == [] || |Taken(g, p)| >= |CodeString(g.ll, FirstLead(its))|
    ensures Taken(g, p) == [] ==> p.its == [] && p.cur == AtLen
  {
    DecodesRight(g, p, v, its, rest);
    var s, x := NextCode(g, its, rest, 0);
    if p.its != [] {
      FirstPart(g, p.its);
    } else if p.cur != AtLen {
      var s', y := CurStarts(g, p.cur, v);
      SameCode(g.ll, s, x, s', y);
      var s'', z := CurStarts(g, p.cur, []);
      assert |Part(g, p.cur)| == |CodeString(g.ll, s)| + |z|;
    }
  }

  lemma {:induction false} FirstPart(g: Lens, its: seq<Item>)
    requires AllCodable(g.ll, g.dl, its) && its != []
    ensures HasCode(g.ll, LeadSymbol(its[0]))
    ensures |BitsOf(g.ll, g.dl, its)| >= |CodeString(g.ll, LeadSymbol(its[0]))| >= 1
  {
    var ps := Parts(g.ll, g.dl, its);
    JoinSplit(ps, 0, []);
    PartAt(g.ll, g.dl, its, 0);
    ItemStarts(g, its[0], []);
    assert |ps[0]| >= |CodeString(g.ll, LeadSymbol(its[0]))|;
    assert JoinFrom(ps, 0) == ps[0] + JoinFrom(ps, 1);
  }

  /** A call at the start of a block with less input than the first code is long returns with all of it held, in
      state LEN: if the next call brings enough input and space, inflate_fast begins with all these bits. */
  method HeldAtEntry(inf: Inflater, input: seq<byte>, put: array<byte>, ghost more: seq<bool>, ghost its: seq<Item>,
                     ghost rest: seq<bool>)
    returns (next: nat, pos: nat)
    requires Feeding(inf, its, rest, Stream(input) + more) && put != inf.win.window
    requires inf.p == Progress([], AtLen, 0) && HasCode(inf.lens.ll, FirstLead(its))
    requires inf.bits + 8 * |input| < |CodeString(inf.lens.ll, FirstLead(its))|
    modifies inf, inf.win, inf.win.window, put
    ensures Feeding(inf, its, rest, more) && next == |input|
    ensures FastGuard(inf.st.mode, 6, 258) && inf.bits == old(inf.bits) + 8 * |input|
  {
    next, pos := InflateEncoded(inf, input, put, more, its, rest);
    ghost var v := Stream(input[next..]) + more;
    Assoc(Taken(inf.lens, inf.p), Held(inf.Saved()), v);
    TookFirstCode(inf.lens, inf.p, Held(inf.Saved()) + v, its, rest);
    assert [] + more == more;
  }

  /** The code of literal 144 with the fixed codes: the first of nine bits. */
  lemma {:induction false} Code144(nine: nat)
    requires nine == 9
    ensures CodeString(StaticLit(), 144) == Big(400, nine)
  {
    var l := StaticLit();
    CountStatic(l, 144, nine);
    FirstStatic(l, nine);
  }

  lemma {:induction false} FirstStatic(l: seq<nat>, b: nat)
    requires l == StaticLit() && b <= 9
    ensures First(l, b) == if b <= 7 then 0 else if b == 8 then 48 else 400
  {
    if b > 1 {
      FirstStatic(l, b - 1);
      CountStatic(l, |l|, b - 1);
    }
  }

  /** A first call given the byte 0x13 of a block that begins with literal 144, whose fixed code has nine bits, leaves
      eight bits for inflate_fast to begin with. */
  method EightBitsHeld(wbits: nat, put: array<byte>) returns (inf: Inflater)
    requires 8 <= wbits <= 15
    modifies put
    ensures fresh(inf) && inf.Valid() && FastGuard(inf.st.mode, 6, 258) && inf.bits == 8
  {
    var k := FixedTables();
    inf := new Inflater(wbits, k, 0, 0, FixedLens());
    ghost var its := [Lit(144)];
    ghost var more := ExampleBlock(its, inf.win.window.Length);
    var next, pos := HeldAtEntry(inf, [0x13], put, more, its, []);
  }

  lemma {:induction false} ExampleBlock(its: seq<Item>, window: nat) returns (more: seq<bool>)
    requires its == [Lit(144)]
    ensures Encodable(FixedLens(), its) && WithinWindow([], TokensOf(its), window)
    ensures Stream([0x13]) + more == BlockBits(StaticLit(), FixedDist(), its)
    ensures |CodeString(StaticLit(), FirstLead(its))| == 9
  {
    assert HasCode(StaticLit(), 144);
    forall i | 0 <= i < |its| ensures CodableAt(StaticLit(), StaticDist(), its, i) {}
    StaticIsFixed(its);
    more := StartsWithByte(FixedLens(), its);
    ExpandsLiteral(TokensOf(its));
  }

  lemma {:induction false} ExpandsLiteral(ts: seq<Token>)
    requires ts == [Token(0, 144)]
    ensures Expandable([], ts)
  {
    assert ts[..0] == [];
  }

  lemma {:induction false} StartsWithByte(g: Lens, its: seq<Item>) returns (more: seq<bool>)
    requires g == FixedLens() && its == [Lit(144)] && AllCodable(g.ll, g.dl, its)
    ensures Stream([0x13]) + more == BlockBits(g.ll, g.dl, its)
  {
    Code144(9);
    PartAt(g.ll, g.dl, its, 0);
    var ps, bs := Parts(g.ll, g.dl, its), Stream([0x13]);
    assert Join(ps, 1) == [] + ps[0];
    FirstByte(bs);
    more := BlockBits(g.ll, g.dl, its)[8..];
    assert BlockBits(g.ll, g.dl, its)[..8] == ps[0][..8] == bs;
  }

  lemma {:induction false} FirstByte(bs: seq<bool>)
    requires bs == Stream([0x13])
    ensures bs == Big(400, 9)[..8]
  {
    StreamCons(0x13, []);
    BigPrefix(400, 8, 1);
    LeadingBits();
    ByteOfBits();
  }

  lemma {:induction false} LeadingBits()
    ensures Big(200, 8) == [true, true, false, false, true, false, false, false]
  {
    assert Big(12, 4) == [true, true, false, false];
    assert Big(25, 5) == Big(12, 4) + [true];
    assert Big(50, 6) == Big(25, 5) + [false];
    assert Big(100, 7) == Big(50, 6) + [false];
  }

  lemma {:induction false} ByteOfBits()
    ensures ByteBits(0x13) == [true, true, false, false, true, false, false, false]
  {
    assert Unpack(1, 4) == [true, false, false, false];
    assert Unpack(2, 5) == [false] + Unpack(1, 4);
    assert Unpack(4, 6) == [false] + Unpack(2, 5);
    assert Unpack(9, 7) == [true] + Unpack(4, 6);
  }
}
