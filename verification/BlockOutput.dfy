/** What has been read and written of a block at any point of its decoding. */
module BlockOutput {
  import opened Bits
  import opened Canonical
  import opened InflateTable
  import opened Symbols
  import opened Lz77
  import opened Tokens
  import opened BitReader
  import opened BlockStates

  /** The items decoded and written, the current one, and how many of its bytes are written. */
  datatype Progress = Progress(its: seq<Item>, cur: Cur, part: nat)

  ghost predicate Sane(g: Lens, p: Progress) {
    AllCodable(g.ll, g.dl, p.its) && Sensible(g, p.cur)
  }

  /** The bits taken since the block began. */
  ghost function Taken(g: Lens, p: Progress): seq<bool>
    requires Sane(g, p)
  {
    BitsOf(g.ll, g.dl, p.its) + Part(g, p.cur)
  }

  /** The bits taken since the block began and those still to come. */
  ghost function AllBits(g: Lens, p: Progress, input: seq<byte>, a: Acc): seq<bool>
    requires Sane(g, p) && a.next <= |input|
  {
    BitsOf(g.ll, g.dl, p.its) + (Part(g, p.cur) + Unread(input, a))
  }

  /** After the history `start`, total is the expansion of the items, and of what part of the current one is written. */
  ghost predicate Wrote(start: seq<byte>, p: Progress, total: seq<byte>) {
    && Expandable(start, TokensOf(p.its))
    && var e := Expand(start, TokensOf(p.its));
    if p.part == 0 then total == e
    else && p.cur.AtItem? && p.cur.it.Pair? && 1 <= TokenOf(p.cur.it).dist <= |e|
         && total == Repeat(e, TokenOf(p.cur.it).dist, p.part)
  }

  lemma {:induction false} JoinPrefix(parts: seq<seq<bool>>, parts': seq<seq<bool>>, n: nat)
    requires n <= |parts| && parts <= parts'
    ensures Join(parts', n) == Join(parts, n)
  {
    if n != 0 { JoinPrefix(parts, parts', n - 1); }
  }

  lemma {:induction false} CodableSnoc(ll: seq<nat>, dl: seq<nat>, its: seq<Item>, it: Item)
    requires AllCodable(ll, dl, its) && Codable(ll, dl, it)
    ensures AllCodable(ll, dl, its + [it])
  {
    forall i | 0 <= i < |its| + 1
      ensures CodableAt(ll, dl, its + [it], i)
    {
      if i < |its| { assert CodableAt(ll, dl, its, i); }
    }
  }

  lemma {:induction false} BitsSnoc(ll: seq<nat>, dl: seq<nat>, its: seq<Item>, it: Item)
    requires AllCodable(ll, dl, its) && Codable(ll, dl, it)
    ensures AllCodable(ll, dl, its + [it])
    ensures BitsOf(ll, dl, its + [it]) == BitsOf(ll, dl, its) + ItemBits(ll, dl, it)
  {
    CodableSnoc(ll, dl, its, it);
    PartsSnoc(ll, dl, its, it);
    JoinPrefix(Parts(ll, dl, its), Parts(ll, dl, its + [it]), |its|);
  }

  lemma {:induction false} PartsSnoc(ll: seq<nat>, dl: seq<nat>, its: seq<Item>, it: Item)
    requires AllCodable(ll, dl, its) && Codable(ll, dl, it) && AllCodable(ll, dl, its + [it])
    ensures Parts(ll, dl, its + [it]) == Parts(ll, dl, its) + [ItemBits(ll, dl, it)]
  {
    var its' := its + [it];
    var ps, ps' := Parts(ll, dl, its) + [ItemBits(ll, dl, it)], Parts(ll, dl, its');
    forall i | 0 <= i < |its'|
      ensures ps'[i] == ps[i]
    {
      PartAt(ll, dl, its', i);
      if i < |its| { PartAt(ll, dl, its, i); }
    }
  }

  lemma {:induction false} TokensSnoc(its: seq<Item>, it: Item)
    ensures TokensOf(its + [it]) == TokensOf(its) + [TokenOf(it)]
  {
  }

  /** The current item becomes one of the finished ones. */
  ghost function Finished(p: Progress): Progress
    requires p.cur.AtItem?
  {
    Progress(p.its + [p.cur.it], AtLen, 0)
  }

  lemma {:induction false} FinishBits(g: Lens, p: Progress, input: seq<byte>, a: Acc)
    requires Sane(g, p) && p.cur.AtItem? && a.next <= |input|
    ensures Sane(g, Finished(p)) && AllBits(g, Finished(p), input, a) == AllBits(g, p, input, a)
  {
    BitsSnoc(g.ll, g.dl, p.its, p.cur.it);
    var b, w, u := BitsOf(g.ll, g.dl, p.its), ItemBits(g.ll, g.dl, p.cur.it), Unread(input, a);
    Assoc(b, w, u);
    assert [] + u == u;
  }

  /** A literal has been written. */
  lemma {:induction false} FinishLiteral(start: seq<byte>, p: Progress, total: seq<byte>)
    requires Wrote(start, p, total) && p.part == 0 && p.cur.AtItem? && p.cur.it.Lit?
    ensures Wrote(start, Finished(p), total + [p.cur.it.b])
  {
    TokensSnoc(p.its, p.cur.it);
    ExpandSnoc(start, TokensOf(p.its), TokenOf(p.cur.it));
  }

  /** More of a match has been written. */
  lemma {:induction false} WroteMore(start: seq<byte>, p: Progress, total: seq<byte>, dist: nat, n: nat)
    requires Wrote(start, p, total) && p.cur.AtItem? && p.cur.it.Pair? && TokenOf(p.cur.it).dist == dist
    requires 1 <= dist <= |total|
    ensures Wrote(start, p.(part := p.part + n), Repeat(total, dist, n))
  {
    if p.part != 0 {
      RepeatMore(Expand(start, TokensOf(p.its)), dist, p.part, n);
    }
  }

  /** A match has been written to its end. */
  lemma {:induction false} FinishMatch(start: seq<byte>, p: Progress, total: seq<byte>)
    requires Wrote(start, p, total) && p.cur.AtItem? && p.cur.it.Pair? && p.part == TokenOf(p.cur.it).lc + MIN_MATCH
    ensures Wrote(start, Finished(p), total)
  {
    TokensSnoc(p.its, p.cur.it);
    ExpandSnoc(start, TokensOf(p.its), TokenOf(p.cur.it));
  }
}
