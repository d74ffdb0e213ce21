/** LZ77 tokens and what they stand for: byte-by-byte, possibly overlapping copies. */
module Lz77 {
  import opened Bits

  const MIN_MATCH := 3
  const MAX_MATCH := 258

  /** The most bytes of a stored block. */
  const MAX_STORED := 0xffff

  /** One entry of d_buf and l_buf: a literal byte lc when dist is 0, else a match
      of length lc + 3 at that distance. */
  datatype Token = Token(dist: nat, lc: byte)

  /** The history h after copying n bytes, one at a time, from dist bytes back. */
  function Repeat(h: seq<byte>, dist: nat, n: nat): (r: seq<byte>)
    requires 1 <= dist <= |h|
    ensures |r| == |h| + n
  {
    if n == 0 then h else
    var g := Repeat(h, dist, n - 1);
    g + [g[|g| - dist]]
  }

  lemma {:induction false} RepeatExtends(h: seq<byte>, dist: nat, n: nat)
    requires 1 <= dist <= |h|
    ensures h <= Repeat(h, dist, n)
  {
    if n != 0 { RepeatExtends(h, dist, n - 1); }
  }

  lemma {:induction false} RepeatMore(h: seq<byte>, dist: nat, m: nat, n: nat)
    requires 1 <= dist <= |h|
    ensures Repeat(Repeat(h, dist, m), dist, n) == Repeat(h, dist, m + n)
  {
    if n != 0 { RepeatMore(h, dist, m, n - 1); }
  }

  /** Every byte of a copy repeats the byte dist before it. */
  lemma {:induction false} RepeatAt(h: seq<byte>, dist: nat, n: nat, i: nat)
    requires 1 <= dist <= |h| && |h| <= i < |h| + n
    ensures Repeat(h, dist, n)[i] == Repeat(h, dist, n)[i - dist]
  {
    if i < |h| + n - 1 { RepeatAt(h, dist, n - 1, i); }
  }

  /** Converse: a history whose last n bytes each repeat the byte dist before it is a copy. */
  lemma {:induction false} RepeatUnique(h: seq<byte>, dist: nat, n: nat, g: seq<byte>)
    requires 1 <= dist <= |h| && |g| == |h| + n && g[..|h|] == h
    requires forall i :: |h| <= i < |g| ==> g[i] == g[i - dist]
    ensures g == Repeat(h, dist, n)
  {
    if n == 0 {
      assert g == g[..|h|];
    } else {
      var g' := g[..|g| - 1];
      assert g'[..|h|] == g[..|h|];
      RepeatUnique(h, dist, n - 1, g');
      assert g == g' + [g[|g| - 1]];
    }
  }

  /** Whether the token's distance stays inside the history. */
  predicate InReach(h: seq<byte>, t: Token) {
    t.dist <= |h|
  }

  /** The history after one token. */
  function Apply(h: seq<byte>, t: Token): (r: seq<byte>)
    requires InReach(h, t)
    ensures |r| == |h| + TokenSize(t)
  {
    if t.dist == 0 then h + [t.lc] else Repeat(h, t.dist, t.lc + MIN_MATCH)
  }

  function TokenSize(t: Token): nat {
    if t.dist == 0 then 1 else t.lc + MIN_MATCH
  }

  /** Whether every token's distance stays inside what precedes it. */
  predicate Expandable(h: seq<byte>, ts: seq<Token>)
    decreases |ts|, 0
  {
    ts != [] ==> var n := |ts| - 1; Expandable(h, ts[..n]) && InReach(Expand(h, ts[..n]), ts[n])
  }

  /** The bytes that the tokens stand for, after the history h. */
  function Expand(h: seq<byte>, ts: seq<Token>): seq<byte>
    requires Expandable(h, ts)
    decreases |ts|, 1
  {
    if ts == [] then h else var n := |ts| - 1; Apply(Expand(h, ts[..n]), ts[n])
  }

  lemma {:induction false} ExpandSnoc(h: seq<byte>, ts: seq<Token>, t: Token)
    requires Expandable(h, ts) && InReach(Expand(h, ts), t)
    ensures Expandable(h, ts + [t]) && Expand(h, ts + [t]) == Apply(Expand(h, ts), t)
  {
    assert (ts + [t])[..|ts|] == ts;
  }

  lemma {:induction false} ExpandConcat(h: seq<byte>, a: seq<Token>, b: seq<Token>)
    requires Expandable(h, a) && Expandable(Expand(h, a), b)
    ensures Expandable(h, a + b) && Expand(h, a + b) == Expand(Expand(h, a), b)
  {
    if b == [] {
      assert a + b == a;
    } else {
      var n := |b| - 1;
      ExpandConcat(h, a, b[..n]);
      assert (a + b)[..|a| + n] == a + b[..n];
    }
  }

  /** Every prefix of expandable tokens is expandable, and the next token is in its reach. */
  lemma {:induction false} ExpandablePrefix(h: seq<byte>, ts: seq<Token>, n: nat)
    requires Expandable(h, ts) && n <= |ts|
    ensures Expandable(h, ts[..n]) && (n < |ts| ==> InReach(Expand(h, ts[..n]), ts[n]))
  {
    if n == |ts| {
      assert ts[..n] == ts;
    } else if n < |ts| - 1 {
      var m := |ts| - 1;
      ExpandablePrefix(h, ts[..m], n);
      assert ts[..m][..n] == ts[..n];
    }
  }

  lemma {:induction false} ExpandExtends(h: seq<byte>, ts: seq<Token>)
    requires Expandable(h, ts)
    ensures h <= Expand(h, ts)
  {
    if ts != [] {
      var n := |ts| - 1;
      ExpandExtends(h, ts[..n]);
      if ts[n].dist != 0 { RepeatExtends(Expand(h, ts[..n]), ts[n].dist, ts[n].lc + MIN_MATCH); }
    }
  }

  /** A part of a copy begins the whole copy. */
  lemma {:induction false} RepeatPart(h: seq<byte>, dist: nat, m: nat, n: nat)
    requires 1 <= dist <= |h| && m <= n
    ensures Repeat(h, dist, m) <= Repeat(h, dist, n)
  {
    RepeatMore(h, dist, m, n - m);
    RepeatExtends(Repeat(h, dist, m), dist, n - m);
  }

  /** What the first n tokens give, and the next one, begins what all give. */
  lemma {:induction false} ExpandWithin(h: seq<byte>, ts: seq<Token>, n: nat)
    requires Expandable(h, ts) && n <= |ts|
    ensures Expandable(h, ts[..n]) && Expand(h, ts[..n]) <= Expand(h, ts)
    ensures n < |ts| ==> InReach(Expand(h, ts[..n]), ts[n]) && Apply(Expand(h, ts[..n]), ts[n]) <= Expand(h, ts)
    decreases |ts| - n
  {
    ExpandablePrefix(h, ts, n);
    if n == |ts| {
      assert ts[..n] == ts;
    } else {
      ExpandWithin(h, ts, n + 1);
      assert ts[..n + 1] == ts[..n] + [ts[n]];
      ExpandSnoc(h, ts[..n], ts[n]);
      if ts[n].dist != 0 { RepeatExtends(Expand(h, ts[..n]), ts[n].dist, ts[n].lc + MIN_MATCH); }
    }
  }

  /** Each token stands for at most MAX_MATCH bytes. */
  lemma {:induction false} ExpandBound(h: seq<byte>, ts: seq<Token>)
    requires Expandable(h, ts)
    ensures |Expand(h, ts)| <= |h| + MAX_MATCH * |ts|
  {
    if ts != [] { ExpandBound(h, ts[..|ts| - 1]); }
  }

  /** Converse of ExpandConcat. */
  lemma {:induction false} ExpandSplit(h: seq<byte>, a: seq<Token>, b: seq<Token>)
    requires Expandable(h, a + b)
    ensures Expandable(h, a) && Expandable(Expand(h, a), b) && Expand(Expand(h, a), b) == Expand(h, a + b)
  {
    if b == [] {
      assert a + b == a;
    } else {
      var n := |b| - 1;
      assert (a + b)[..|a + b| - 1] == a + b[..n];
      ExpandSplit(h, a, b[..n]);
      assert b[..n] + [b[n]] == b;
    }
  }
}
