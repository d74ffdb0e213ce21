/** Codes held backwards: the number whose low bit is the first bit of the code. */
module BackwardCodes {
  import opened Bits
  import opened Canonical

  /** The string after w in counting order, wrapping to all zeros. */
  function Successor(w: seq<bool>): (r: seq<bool>)
    ensures |r| == |w|
  {
    if w == [] then []
    else
      var h := w[..|w| - 1];
      if w[|w| - 1] then Successor(h) + [false] else h + [true]
  }

  lemma {:induction false} SuccessorCounts(c: nat, n: nat)
    ensures Successor(Big(c, n)) == Big(c + 1, n)
  {
    if n != 0 {
      var w := Big(c, n);
      assert w[..n - 1] == Big(c / 2, n - 1) && w[n - 1] == (c % 2 == 1);
      SuccessorCounts(c / 2, n - 1);
      if c % 2 == 1 {
        assert (c + 1) / 2 == c / 2 + 1 && (c + 1) % 2 == 0;
      } else {
        assert (c + 1) / 2 == c / 2 && (c + 1) % 2 == 1;
      }
    }
  }

  lemma {:induction false} PackLast(h: seq<bool>, x: bool)
    ensures Pack(h + [x]) == if x then Pack(h) + Pow2(|h|) else Pack(h)
  {
    PackConcat(h, [x]);
    if x {
      assert Pack([true]) == 1;
      ShlOne(|h|);
    } else {
      assert Pack([false]) == 0;
      ShlZero(|h|);
    }
  }

  /** Appending zeros leaves the backward number alone. */
  lemma {:induction false} PackZeros(c: nat, n: nat, d: nat)
    ensures Pack(Big(Shl(c, d), n + d)) == Pack(Big(c, n))
  {
    if d != 0 {
      PackZeros(c, n, d - 1);
      PackLast(Big(Shl(c, d - 1), n + d - 1), false);
    }
  }

  lemma {:induction false} BitAt(w: seq<bool>, k: nat)
    requires k < |w|
    ensures (Shr(Pack(w), k) % 2 == 1) == w[k]
  {
    PackCut(w, k);
    FirstBit(w[k..]);
  }

  lemma {:induction false} FirstBit(w: seq<bool>)
    requires w != []
    ensures (Pack(w) % 2 == 1) == w[0]
  {
  }

  /** Backwards increment of a len-bit code: clear the ones at its end, set the
      bit before them. */
  method Increment(huff: nat, len: nat, ghost w: seq<bool>) returns (next: nat)
    requires |w| == len && huff == Pack(w)
    ensures next == Pack(Successor(w))
  {
    var k: nat := len;                      // the source's incr is 2^(k-1), or 0 when k is 0
    assert w[..k] == w;
    while k != 0 && Shr(huff, k - 1) % 2 == 1
      invariant k <= len
      invariant Pack(Successor(w)) == Pack(Successor(w[..k]))
    {
      BitAt(w, k - 1);
      StripOne(w, k);
      k := k - 1;
    }
    if k != 0 {
      BitAt(w, k - 1);
      PackCut(w, k - 1);
      assert w[..k][..k - 1] == w[..k - 1];
      PackLast(w[..k - 1], true);
      next := Low(huff, k - 1) + Pow2(k - 1);
    } else {
      next := 0;
    }
  }

  lemma {:induction false} StripOne(w: seq<bool>, k: nat)
    requires 1 <= k <= |w| && w[k - 1]
    ensures Pack(Successor(w[..k])) == Pack(Successor(w[..k - 1]))
  {
    assert w[..k][..k - 1] == w[..k - 1];
    PackLast(Successor(w[..k - 1]), false);
  }
}
