/** The sliding window of inflate and the copying of matches from it. */
module Window {
  import opened Bits
  import opened Lz77

  /** The last n bytes. */
  function Last(s: seq<byte>, n: nat): (r: seq<byte>)
    requires n <= |s|
    ensures |r| == n
  {
    s[|s| - n..]
  }

  /** A copy no longer than its distance reads only bytes that are already there. */
  lemma {:induction false} RepeatShort(h: seq<byte>, dist: nat, n: nat)
    requires n <= dist <= |h| && 1 <= dist
    ensures Repeat(h, dist, n) == h + h[|h| - dist..|h| - dist + n]
  {
    if n != 0 {
      RepeatShort(h, dist, n - 1);
      var k := |h| - dist;
      assert h[k..k + n] == h[k..k + n - 1] + [h[k + n - 1]];
    }
  }

  /** What precedes the reach of a copy does not matter. */
  lemma {:induction false} RepeatPrefix(p: seq<byte>, h: seq<byte>, dist: nat, n: nat)
    requires 1 <= dist <= |h|
    ensures Repeat(p + h, dist, n) == p + Repeat(h, dist, n)
  {
    if n != 0 {
      RepeatPrefix(p, h, dist, n - 1);
      var g := Repeat(h, dist, n - 1);
      assert (p + g)[|p + g| - dist] == g[|g| - dist];
    }
  }

  /** Only the first part of a partly filled window is in use. */
  ghost predicate Indices(wsize: nat, wnext: nat, whave: nat) {
    wnext <= whave <= wsize && if whave < wsize then wnext == whave else wnext < wsize
  }

  /** Where the byte that is `op` back lies in the window. */
  function RingIndex(wsize: nat, wnext: nat, op: nat): nat
    requires op <= wsize + wnext
  {
    if op > wnext then wsize + wnext - op else wnext - op
  }

  /** How many bytes lie side by side from there on. */
  function RingRun(wnext: nat, op: nat): nat {
    if op > wnext then op - wnext else op
  }

  /** The last whave bytes of out lie around the window, the newest before wnext. */
  ghost predicate Around(w: seq<byte>, wnext: nat, whave: nat, out: seq<byte>) {
    && Indices(|w|, wnext, whave) && whave <= |out|
    && forall k {:trigger RingIndex(|w|, wnext, k)} :: 1 <= k <= whave ==> w[RingIndex(|w|, wnext, k)] == out[|out| - k]
  }

  /** Side by side, from `at` on, w' holds c; elsewhere it is w. */
  ghost predicate Stored(w: seq<byte>, w': seq<byte>, at: nat, c: seq<byte>) {
    && |w'| == |w| && at + |c| <= |w|
    && forall i {:trigger w'[i]} :: 0 <= i < |w| ==> w'[i] == if at <= i < at + |c| then c[i - at] else w[i]
  }

  /** Storing without reaching the end of the window. */
  lemma {:induction false} StoredInside(w: seq<byte>, w': seq<byte>, wnext: nat, whave: nat, out: seq<byte>,
                                        c: seq<byte>)
    requires Around(w, wnext, whave, out) && |c| < |w| && Stored(w, w', wnext, c)
    ensures var n := wnext + |c|;
            Around(w', if n < |w| then n else 0, Min(whave + |c|, |w|), out + c)
  {
    var n := if wnext + |c| < |w| then wnext + |c| else 0;
    forall k | 1 <= k <= Min(whave + |c|, |w|)
      ensures w'[RingIndex(|w|, n, k)] == (out + c)[|out + c| - k]
    {
      if k > |c| { assert w[RingIndex(|w|, wnext, k - |c|)] == out[|out| - (k - |c|)]; }
    }
  }

  /** Storing up to the end of the window and then from its start. */
  lemma {:induction false} StoredAround(w: seq<byte>, v: seq<byte>, w': seq<byte>, wnext: nat, whave: nat,
                                        out: seq<byte>, c: seq<byte>, d: nat)
    requires Around(w, wnext, whave, out) && |c| < |w| && d < |c| && wnext + d == |w|
    requires Stored(w, v, wnext, c[..d]) && Stored(v, w', 0, c[d..])
    ensures Around(w', |c| - d, |w|, out + c)
  {
    var n := |c| - d;
    forall k | 1 <= k <= |w|
      ensures w'[RingIndex(|w|, n, k)] == (out + c)[|out + c| - k]
    {
      if k > |c| { assert w[RingIndex(|w|, wnext, k - |c|)] == out[|out| - (k - |c|)]; }
    }
  }

  lemma {:induction false} RingAt(w: seq<byte>, wnext: nat, whave: nat, out: seq<byte>, op: nat, n: nat)
    requires Around(w, wnext, whave, out) && 1 <= op <= whave && n <= RingRun(wnext, op)
    ensures var k := RingIndex(|w|, wnext, op);
            k + n <= |w| && w[k..k + n] == out[|out| - op..|out| - op + n]
  {
    var k := RingIndex(|w|, wnext, op);
    var x, y := w[k..k + n], out[|out| - op..|out| - op + n];
    forall i | 0 <= i < n
      ensures x[i] == y[i]
    {
      assert w[RingIndex(|w|, wnext, op - i)] == out[|out| - (op - i)];
    }
    assert x == y;
  }

  /** Read from wnext on and around, the window holds the last whave bytes. */
  lemma {:induction false} RingParts(w: seq<byte>, wnext: nat, whave: nat, out: seq<byte>)
    requires Around(w, wnext, whave, out)
    ensures w[wnext..whave] + w[..wnext] == Last(out, whave)
  {
    if wnext != 0 { RingAt(w, wnext, whave, out, wnext, wnext); }
    if whave != wnext { RingAt(w, wnext, whave, out, whave, whave - wnext); }
    var k := |out| - whave;
    assert out[k..] == out[k..k + (whave - wnext)] + out[|out| - wnext..];
  }

  /** Appending the bytes that lie dist back extends the copy. */
  lemma {:induction false} ChunkRepeats(prior: seq<byte>, b: seq<byte>, dist: nat, c: seq<byte>)
    requires |b| < dist <= |prior| + |b| && |c| <= dist - |b|
    requires c == prior[|prior| + |b| - dist..|prior| + |b| - dist + |c|]
    ensures prior + (b + c) == Repeat(prior + b, dist, |c|)
  {
    RepeatShort(prior + b, dist, |c|);
    Regrouped(prior, b, c, |prior| + |b| - dist);
  }

  lemma {:induction false} Regrouped(p: seq<byte>, b: seq<byte>, c: seq<byte>, k: nat)
    requires k + |c| <= |p|
    ensures (p + b)[k..k + |c|] == p[k..k + |c|] && (p + b) + c == p + (b + c)
  {
  }

  lemma {:induction false} RestRepeats(prior: seq<byte>, b: seq<byte>, x: seq<byte>, dist: nat, m: nat, k: nat)
    requires 1 <= dist <= |x| && dist <= |prior + b| && prior + x == Repeat(prior + b, dist, m)
    ensures prior + Repeat(x, dist, k) == Repeat(prior + b, dist, m + k)
  {
    RepeatPrefix(prior, x, dist, k);
    RepeatMore(prior + b, dist, m, k);
  }

  /** The output buffer has grown by n bytes; the rest of it is as before. */
  ghost predicate Grown(old_: seq<byte>, new_: seq<byte>, pos: nat, n: nat) {
    |new_| == |old_| && pos + n <= |old_| && new_[..pos] == old_[..pos] && new_[pos + n..] == old_[pos + n..]
  }

  lemma {:induction false} GrownOnce(s: seq<byte>, pos: nat, n: nat, x: byte, s': seq<byte>)
    requires pos + n < |s| && Grown(s, s', pos, n)
    ensures Grown(s, s'[pos + n := x], pos, n + 1)
    ensures s'[pos + n := x][..pos + (n + 1)] == s'[..pos + n] + [x]
  {
  }

  lemma {:induction false} GrownTwice(a: seq<byte>, b: seq<byte>, c: seq<byte>, pos: nat, m: nat, n: nat)
    requires m <= n && Grown(a, b, pos, m) && Grown(b, c, pos + m, n - m)
    ensures Grown(a, c, pos, n)
  {
    assert c[..pos] == c[..pos + m][..pos] == b[..pos + m][..pos] == b[..pos];
    assert c[pos + n..] == b[pos + n..] == b[pos + m..][n - m..] == a[pos + m..][n - m..];
  }

  /** Copies n bytes, at least one, within the output buffer from dist back, one at a time. */
  method CopyOutput(put: array<byte>, pos: nat, dist: nat, n: nat)
    requires 1 <= dist <= pos && pos + n <= put.Length && n >= 1
    modifies put
    ensures Grown(old(put[..]), put[..], pos, n) && put[..pos + n] == Repeat(old(put[..pos]), dist, n)
  {
    var i, from := 0, pos - dist;
    while i < n
      invariant 0 <= i <= n && from == pos + i - dist
      invariant Grown(old(put[..]), put[..], pos, i) && put[..pos + i] == Repeat(old(put[..pos]), dist, i)
    {
      GrownOnce(old(put[..]), pos, i, put[from], put[..]);
      put[pos + i] := put[from];
      i, from := i + 1, from + 1;
    }
  }

  /** The first i bytes of a copy from dist back are there. */
  ghost predicate Copied(before: seq<byte>, now: seq<byte>, pos: nat, dist: nat, i: nat) {
    Grown(before, now, pos, i) && 1 <= dist <= pos && now[..pos + i] == Repeat(before[..pos], dist, i)
  }

  /** One byte, copied from dist back. */
  method CopyByte(put: array<byte>, pos: nat, i: nat, dist: nat, ghost before: seq<byte>)
    requires Copied(before, put[..], pos, dist, i) && pos + i < put.Length
    modifies put
    ensures Copied(before, put[..], pos, dist, i + 1)
  {
    GrownOnce(before, pos, i, put[pos + i - dist], put[..]);
    put[pos + i] := put[pos + i - dist];
  }

  /** The same copy as CopyOutput, three bytes at a time. */
  method CopyOutputThrees(put: array<byte>, pos: nat, dist: nat, len: nat)
    requires 1 <= dist <= pos && pos + len <= put.Length
    modifies put
    ensures Grown(old(put[..]), put[..], pos, len) && put[..pos + len] == Repeat(old(put[..pos]), dist, len)
  {
    ghost var before := put[..];
    assert before[..pos] == put[..pos];
    var i, l := 0, len;
    while l > 2
      invariant 0 <= i && i + l == len
      invariant Copied(before, put[..], pos, dist, i)
    {
      CopyByte(put, pos, i, dist, before);
      CopyByte(put, pos, i + 1, dist, before);
      CopyByte(put, pos, i + 2, dist, before);
      i, l := i + 3, l - 3;
    }
    if l != 0 {
      CopyByte(put, pos, i, dist, before);
      if l > 1 {
        CopyByte(put, pos, i + 1, dist, before);
      }
    }
  }

  class SlidingWindow {
    const window: array<byte>
    var wsize: nat
    var whave: nat
    var wnext: nat

    ghost predicate Valid()
      reads this
    {
      && window.Length > 0
      && if wsize == 0 then whave == 0 && wnext == 0 else wsize == window.Length && Indices(wsize, wnext, whave)
    }

    /** The window holds the end of everything that was output. */
    ghost predicate Tracks(out: seq<byte>)
      reads this, window
    {
      && Valid() && whave == Min(|out|, wsize)
      && (wsize != 0 ==> Around(window[..], wnext, whave, out))
    }

    constructor (wbits: nat)
      requires 8 <= wbits <= 15
      ensures Tracks([]) && window.Length == Pow2(wbits) && fresh(window)
    {
      window := new byte[Pow2(wbits)](_ => 0);
      wsize, whave, wnext := 0, 0, 0;
    }

    /** Copies c to window[at..]. */
    method Store(c: seq<byte>, at: nat)
      requires at + |c| <= window.Length
      modifies window
      ensures Stored(old(window[..]), window[..], at, c)
    {
      forall i | 0 <= i < |c| {
        window[at + i] := c[i];
      }
    }

    /** Takes in the last `copy` bytes of the output buffer, which end at `end`. */
    method Update(buf: array<byte>, end: nat, copy: nat, ghost out: seq<byte>)
      requires Tracks(out) && buf != window && copy <= end <= buf.Length
      requires wsize == 0 ==> out == []
      modifies this, window
      ensures wsize == window.Length && Tracks(out + buf[end - copy..end])
    {
      if wsize == 0 {
        wsize, wnext, whave := window.Length, 0, 0;
      }
      if copy >= wsize {
        Store(buf[end - wsize..end], 0);
        wnext, whave := 0, wsize;
      } else {
        Slide(buf[end - copy..end], out);
      }
    }

    /** Takes in nothing, after a call without output. */
    method UpdateNothing(buf: array<byte>, ghost out: seq<byte>)
      requires Tracks(out) && buf != window
      modifies this, window
      ensures Tracks(out) && wsize == old(wsize)
    {
      if wsize != 0 {
        Update(buf, 0, 0, out);
        assert out + buf[0..0] == out;
      }
    }

    /** Takes in less than a window. */
    method Slide(c: seq<byte>, ghost out: seq<byte>)
      requires Valid() && wsize != 0 && |c| < wsize && whave == Min(|out|, wsize)
      requires Around(window[..], wnext, whave, out)
      modifies this, window
      ensures wsize == old(wsize) && Tracks(out + c)
    {
      ghost var w := window[..];
      var dist := Min(wsize - wnext, |c|);
      Store(c[..dist], wnext);
      if |c| - dist != 0 {
        ghost var v := window[..];
        Store(c[dist..], 0);
        StoredAround(w, v, window[..], wnext, whave, out, c, dist);
        wnext, whave := |c| - dist, wsize;
      } else {
        assert c[..dist] == c;
        StoredInside(w, window[..], wnext, whave, out, c);
        wnext := wnext + dist;
        if wnext == wsize { wnext := 0; }
        if whave < wsize { whave := whave + dist; }
      }
    }

    /** inflateGetDictionary */
    method GetDictionary(ghost out: seq<byte>) returns (dictionary: seq<byte>)
      requires Tracks(out)
      ensures dictionary == Last(out, whave)
    {
      dictionary := [];
      if whave != 0 {
        RingParts(window[..], wnext, whave, out);
        dictionary := window[..][wnext..whave] + window[..][..wnext];
      }
    }

    /** Copies n bytes, at least one, of the window to the output buffer. */
    method CopyWindow(put: array<byte>, pos: nat, from: nat, n: nat)
      requires put != window && from + n <= window.Length && pos + n <= put.Length && n >= 1
      modifies put
      ensures Grown(old(put[..]), put[..], pos, n) && put[..pos + n] == old(put[..pos]) + window[from..from + n]
    {
      var i := 0;
      while i < n
        invariant 0 <= i <= n
        invariant Grown(old(put[..]), put[..], pos, i) && put[..pos + i] == old(put[..pos]) + window[from..from + i]
      {
        GrownOnce(old(put[..]), pos, i, window[from + i], put[..]);
        put[pos + i] := window[from + i];
        i := i + 1;
      }
    }

    /** The copying of state MATCH: one run of bytes, as many as lie side by side, are
        wanted and fit, or the report that the distance is too far back. */
    method CopyMatch(put: array<byte>, pos: nat, left: nat, offset: nat, length: nat, ghost prior: seq<byte>)
      returns (bad: bool, n: nat)
      requires Tracks(prior) && put != window && pos + left <= put.Length && left >= 1 && length >= 1 && offset >= 1
      modifies put
      ensures bad <==> offset > pos + whave
      ensures bad ==> n == 0
      ensures !bad ==> 1 <= n <= length && n <= left && offset <= |prior| + pos
      ensures !bad ==> prior + put[..pos + n] == Repeat(prior + old(put[..pos]), offset, n)
      ensures Grown(old(put[..]), put[..], pos, n)
    {
      n := 0;
      bad := false;
      if offset > pos {
        n := offset - pos;
        if n > whave {
          return true, 0;
        }
        n := CopyFromWindow(put, pos, left, offset, length, prior);
      } else {
        n := Min(length, left);
        RepeatPrefix(prior, put[..pos], offset, n);
        CopyOutput(put, pos, offset, n);
      }
    }

    method CopyFromWindow(put: array<byte>, pos: nat, left: nat, offset: nat, length: nat, ghost prior: seq<byte>)
      returns (n: nat)
      requires Tracks(prior) && put != window && pos + left <= put.Length && left >= 1 && length >= 1
      requires pos < offset <= pos + whave
      modifies put
      ensures 1 <= n <= length && n <= left
      ensures prior + put[..pos + n] == Repeat(prior + old(put[..pos]), offset, n)
      ensures Grown(old(put[..]), put[..], pos, n)
    {
      var copy, from := offset - pos, 0;
      if copy > wnext {
        copy := copy - wnext;
        from := wsize - copy;
      } else {
        from := wnext - copy;
      }
      n := Min(Min(copy, length), left);
      CopyRun(put, pos, from, n, offset, prior);
    }

    /** One byte of the window. */
    method FetchByte(put: array<byte>, pos: nat, i: nat, from: nat, ghost before: seq<byte>)
      requires put != window && from + i < window.Length && pos + i < put.Length && Grown(before, put[..], pos, i)
      requires put[..pos + i] == before[..pos] + window[from..from + i]
      modifies put
      ensures Grown(before, put[..], pos, i + 1) && put[..pos + (i + 1)] == before[..pos] + window[from..from + (i + 1)]
    {
      GrownOnce(before, pos, i, window[from + i], put[..]);
      put[pos + i] := window[from + i];
    }

    /** The same copy as CopyWindow, three bytes at a time. */
    method CopyWindowThrees(put: array<byte>, pos: nat, from: nat, len: nat)
      requires put != window && from + len <= window.Length && pos + len <= put.Length
      modifies put
      ensures Grown(old(put[..]), put[..], pos, len) && put[..pos + len] == old(put[..pos]) + window[from..from + len]
    {
      ghost var before := put[..];
      assert before[..pos] == put[..pos] == put[..pos] + window[from..from];
      var i, l := 0, len;
      while l > 2
        invariant 0 <= i && i + l == len
        invariant Grown(before, put[..], pos, i) && put[..pos + i] == before[..pos] + window[from..from + i]
      {
        FetchByte(put, pos, i, from, before);
        FetchByte(put, pos, i + 1, from, before);
        FetchByte(put, pos, i + 2, from, before);
        i, l := i + 3, l - 3;
      }
      if l != 0 {
        FetchByte(put, pos, i, from, before);
        if l > 1 {
          FetchByte(put, pos, i + 1, from, before);
        }
      }
    }

    /** n bytes of the window, op back, copied to the output. */
    method CopyRun(put: array<byte>, pos: nat, from: nat, n: nat, dist: nat, ghost prior: seq<byte>)
      requires Tracks(prior) && put != window && pos + n <= put.Length && n >= 1
      requires pos < dist <= pos + whave && from == RingIndex(wsize, wnext, dist - pos)
      requires n <= RingRun(wnext, dist - pos)
      modifies put
      ensures prior + put[..pos + n] == Repeat(prior + old(put[..pos]), dist, n)
      ensures Grown(old(put[..]), put[..], pos, n)
    {
      RingAt(window[..], wnext, whave, prior, dist - pos, n);
      ChunkRepeats(prior, put[..pos], dist, window[..][from..from + n]);
      CopyWindow(put, pos, from, n);
    }

    /** The copying of inflate_fast: the whole match at once, from the end of the window,
        from its start and from the output, or the report that it is too far back. */
    method CopyFast(put: array<byte>, pos: nat, dist: nat, len: nat, ghost prior: seq<byte>) returns (bad: bool)
      requires Tracks(prior) && put != window && pos + len <= put.Length && len >= MIN_MATCH && dist >= 1
      modifies put
      ensures bad <==> dist > pos + whave
      ensures bad ==> put[..] == old(put[..])
      ensures !bad ==> dist <= |prior| + pos && prior + put[..pos + len] == Repeat(prior + old(put[..pos]), dist, len)
      ensures !bad ==> Grown(old(put[..]), put[..], pos, len)
    {
      bad := false;
      if dist > pos {
        var op := dist - pos;
        if op > whave {
          return true;
        }
        if wnext == 0 {
          SomeFromWindow(put, pos, wsize - op, op, dist, len, prior);
        } else if wnext < op {
          FromWrapped(put, pos, op, dist, len, prior);
        } else {
          SomeFromWindow(put, pos, wnext - op, op, dist, len, prior);
        }
      } else {
        RepeatPrefix(prior, put[..pos], dist, len);
        CopyOutputThrees(put, pos, dist, len);
      }
    }

    /** The op bytes up to wnext lie side by side; a longer match goes on in the output. */
    method SomeFromWindow(put: array<byte>, pos: nat, from: nat, op: nat, dist: nat, len: nat, ghost prior: seq<byte>)
      requires Tracks(prior) && put != window && pos + len <= put.Length && len >= 1
      requires 1 <= op <= whave && dist == pos + op && from == RingIndex(wsize, wnext, op) && RingRun(wnext, op) == op
      modifies put
      ensures prior + put[..pos + len] == Repeat(prior + old(put[..pos]), dist, len)
      ensures Grown(old(put[..]), put[..], pos, len)
    {
      if op < len {
        ghost var b, whole := put[..pos], put[..];
        CopyRun(put, pos, from, op, dist, prior);
        ghost var half := put[..];
        RestFromOutput(put, pos, op, dist, len, prior, b);
        GrownTwice(whole, half, put[..], pos, op, len);
      } else {
        LastFromWindow(put, pos, from, len, dist, prior);
      }
    }

    /** The rest of the match, in the output since the window is used up. */
    method RestFromOutput(put: array<byte>, pos: nat, m: nat, dist: nat, len: nat, ghost prior: seq<byte>,
                          ghost b: seq<byte>)
      requires put != window && m <= len && pos + len <= put.Length && 1 <= dist <= pos + m && |b| == pos
      requires dist <= |prior| + |b|
      requires prior + put[..pos + m] == Repeat(prior + b, dist, m)
      modifies put
      ensures prior + put[..pos + len] == Repeat(prior + b, dist, len)
      ensures Grown(old(put[..]), put[..], pos + m, len - m)
    {
      RestRepeats(prior, b, put[..pos + m], dist, m, len - m);
      CopyOutputThrees(put, pos + m, dist, len - m);
    }

    method LastFromWindow(put: array<byte>, pos: nat, from: nat, n: nat, dist: nat, ghost prior: seq<byte>)
      requires Tracks(prior) && put != window && pos + n <= put.Length
      requires pos < dist <= pos + whave && from == RingIndex(wsize, wnext, dist - pos)
      requires n <= RingRun(wnext, dist - pos)
      modifies put
      ensures prior + put[..pos + n] == Repeat(prior + old(put[..pos]), dist, n)
      ensures Grown(old(put[..]), put[..], pos, n)
    {
      RingAt(window[..], wnext, whave, prior, dist - pos, n);
      ChunkRepeats(prior, put[..pos], dist, window[..][from..from + n]);
      CopyWindowThrees(put, pos, from, n);
    }

    /** The match starts at the end of the window and may go on at its start. */
    method FromWrapped(put: array<byte>, pos: nat, op: nat, dist: nat, len: nat, ghost prior: seq<byte>)
      requires Tracks(prior) && put != window && pos + len <= put.Length && len >= 1
      requires 1 <= wnext < op <= whave && dist == pos + op
      modifies put
      ensures prior + put[..pos + len] == Repeat(prior + old(put[..pos]), dist, len)
      ensures Grown(old(put[..]), put[..], pos, len)
    {
      var from, op' := wsize + wnext - op, op - wnext;
      if op' < len {
        ghost var b, whole := put[..pos], put[..];
        CopyRun(put, pos, from, op', dist, prior);
        ghost var half := put[..];
        SomeFromWindow(put, pos + op', 0, wnext, dist, len - op', prior);
        RepeatMore(prior + b, dist, op', len - op');
        GrownTwice(whole, half, put[..], pos, op', len);
      } else {
        LastFromWindow(put, pos, from, len, dist, prior);
      }
    }
  }
}
