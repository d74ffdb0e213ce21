/** An encoded block, given to inflate in any portions, gives back its tokens. */
module BlockRoundTrip {
  import opened Bits
  import opened Lz77
  import opened Tokens
  import opened BitReader
  import opened BlockStates
  import opened BlockOutput
  import opened Decoding
  import opened Window
  import opened Inflate

  /** All distances stay inside what precedes them and inside a window. */
  ghost predicate WithinWindow(start: seq<byte>, ts: seq<Token>, wsize: nat) {
    Expandable(start, ts) && forall i :: 0 <= i < |ts| ==> ts[i].dist <= wsize
  }

  /** The current match of a block that was encoded within the window is never too far back. */
  lemma {:induction false} NotTooFar(start: seq<byte>, its: seq<Item>, p: Progress, total: seq<byte>, prior: nat,
                                     pos: nat, wsize: nat, window: nat)
    requires WithinWindow(start, TokensOf(its), window) && Agrees(p, its) && p.cur.AtItem?
    requires Wrote(start, p, total) && |total| == prior + pos && (wsize == window || (wsize == 0 && prior == 0))
    ensures TokenOf(p.cur.it).dist <= pos + Min(prior, wsize)
  {
    var ts, n := TokensOf(its), |p.its|;
    assert TokensOf(p.its) == ts[..n];
    ExpandablePrefix(start, ts, n);
    assert ts[n] == TokenOf(p.cur.it);
  }

  /** The bits given to inf and those still to be given, v, are an encoded block and what follows it. */
  ghost predicate Feeding(inf: Inflater, its: seq<Item>, rest: seq<bool>, v: seq<bool>)
    reads inf, inf.win, inf.win.window
  {
    && inf.Valid() && inf.st.mode != BAD && Encodable(inf.lens, its)
    && WithinWindow(inf.start, TokensOf(its), inf.win.window.Length)
    && inf.Fed() + v == BlockBits(inf.lens.ll, inf.lens.dl, its) + rest
  }

  /** One call of inflate on a portion of such a stream: no error is reported, and the call returns before the
      end of the block only when the output is full or the input used up with more to come. */
  method InflateEncoded(inf: Inflater, input: seq<byte>, put: array<byte>, ghost more: seq<bool>, ghost its: seq<Item>,
                        ghost rest: seq<bool>)
    returns (next: nat, pos: nat)
    requires Feeding(inf, its, rest, Stream(input) + more) && inf.st.mode != TYPE && put != inf.win.window
    modifies inf, inf.win, inf.win.window, put
    ensures next <= |input| && pos <= put.Length && inf.start == old(inf.start) && inf.out == old(inf.out) + put[..pos]
    ensures Feeding(inf, its, rest, Stream(input[next..]) + more)
    ensures inf.codes == old(inf.codes) && inf.lens == old(inf.lens)
    ensures inf.Fed() == old(inf.Fed()) + Stream(input[..next])
    ensures inf.st.mode == TYPE || (pos == put.Length && (inf.st.mode == MATCH || inf.st.mode == LIT))
            || (next == |input| && more != [])
  {
    ghost var fed, prior, wsize := inf.Fed(), inf.out, inf.win.wsize;
    next, pos := inf.Inflate(input, put);
    Portion(fed, input, next, more);
    Outcome(inf.lens, inf.start, its, rest, inf.p, inf.Saved(), Stream(input[next..]) + more, inf.out, |prior|, pos,
            wsize, inf.win.window.Length);
  }

  /** At every return the items decoded are the first ones encoded; at the end of the block they are all of
      them, the output is their expansion, and exactly the block's bits have been taken. */
  lemma {:induction false} DecodedSoFar(inf: Inflater, its: seq<Item>, rest: seq<bool>, v: seq<bool>)
    requires Feeding(inf, its, rest, v)
    ensures inf.p.its <= its
    ensures inf.st.mode == TYPE ==>
              inf.p.its == its && inf.out == Expand(inf.start, TokensOf(its)) && Held(inf.Saved()) + v == rest
  {
    Assoc(Taken(inf.lens, inf.p), Held(inf.Saved()), v);
    DecodesRight(inf.lens, inf.p, Held(inf.Saved()) + v, its, rest);
  }

  /** What a point of the decoding of an encoded block means. */
  lemma {:induction false} Outcome(g: Lens, start: seq<byte>, its: seq<Item>, rest: seq<bool>, p: Progress, a: Acc,
                                   v: seq<bool>,
                total: seq<byte>, prior: nat, pos: nat, wsize: nat, window: nat)
    requires Encodable(g, its) && WithinWindow(start, TokensOf(its), window)
    requires Sane(g, p) && Wrote(start, p, total) && (Taken(g, p) + Held(a)) + v == BlockBits(g.ll, g.dl, its) + rest
    requires |total| == prior + pos && (wsize == window || (wsize == 0 && prior == 0))
    ensures Agrees(p, its)
    ensures p.cur.AtEnd? ==> Held(a) + v == rest && (p.part == 0 ==> total == Expand(start, TokensOf(its)))
    ensures p.cur.AtItem? ==> TokenOf(p.cur.it).dist <= pos + Min(prior, wsize)
    ensures v == [] ==> !Lacking(g, a, p.cur)
  {
    Assoc(Taken(g, p), Held(a), v);
    DecodesRight(g, p, Held(a) + v, its, rest);
    if p.cur.AtItem? {
      NotTooFar(start, its, p, total, prior, pos, wsize, window);
    }
    if v == [] {
      assert Held(a) + v == Held(a);
      NeverLacking(g, p, a, its, rest);
    }
  }

  lemma {:induction false} Portion(fed: seq<bool>, input: seq<byte>, next: nat, more: seq<bool>)
    requires next <= |input|
    ensures fed + (Stream(input) + more) == (fed + Stream(input[..next])) + (Stream(input[next..]) + more)
  {
    assert input == input[..next] + input[next..];
    StreamConcat(input[..next], input[next..]);
    Regroup4(fed, Stream(input[..next]), Stream(input[next..]), more);
  }

  lemma {:induction false} Regroup4(a: seq<bool>, b: seq<bool>, c: seq<bool>, d: seq<bool>)
    ensures a + ((b + c) + d) == (a + b) + (c + d)
  {
  }
}
