/** Canonical Huffman codes (section 3.2.2 of RFC 1951): the code strings that a
    list of code lengths stands for, and what makes them decodable. */
module Canonical {
  import opened Bits

  const MAX_BITS := 15

  /** How many of the first n symbols have length b. */
  function Cnt(lens: seq<nat>, n: nat, b: nat): nat
    requires n <= |lens|
  {
    if n == 0 then 0 else Cnt(lens, n - 1, b) + (if lens[n - 1] == b then 1 else 0)
  }

  function Total(lens: seq<nat>, b: nat): nat {
    Cnt(lens, |lens|, b)
  }

  lemma {:induction false} CntMono(lens: seq<nat>, m: nat, n: nat, b: nat)
    requires m <= n <= |lens|
    ensures Cnt(lens, m, b) <= Cnt(lens, n, b)
    ensures m < n && lens[m] == b ==> Cnt(lens, m, b) < Cnt(lens, n, b)
  {
    if m < n { CntMono(lens, m, n - 1, b); }
  }

  /** The smallest code of length b. */
  function First(lens: seq<nat>, b: nat): nat {
    if b <= 1 then 0 else 2 * (First(lens, b - 1) + Total(lens, b - 1))
  }

  /** No length is over-subscribed. */
  ghost predicate Fits(lens: seq<nat>) {
    forall b: nat :: 1 <= b <= MAX_BITS ==> FitsAt(lens, b)
  }

  ghost predicate FitsAt(lens: seq<nat>, b: nat) {
    First(lens, b) + Total(lens, b) <= Pow2(b)
  }

  /** The Kraft sum is exactly one. */
  ghost predicate Complete(lens: seq<nat>) {
    forall b: nat :: b == MAX_BITS ==> ExhaustedAt(lens, b)
  }

  ghost predicate ExhaustedAt(lens: seq<nat>, b: nat) {
    First(lens, b) + Total(lens, b) == Pow2(b)
  }

  ghost predicate ValidLens(lens: seq<nat>) {
    forall i :: 0 <= i < |lens| ==> lens[i] <= MAX_BITS
  }

  /** All codes of length up to b, extended to length b', precede those of length b'. */
  lemma {:induction false} FirstGrows(lens: seq<nat>, b: nat, b': nat)
    requires 1 <= b < b'
    ensures Shl(First(lens, b) + Total(lens, b), b' - b) <= First(lens, b')
  {
    if b + 1 < b' { FirstGrows(lens, b, b' - 1); }
  }

  lemma {:induction false} CompleteFits(lens: seq<nat>)
    requires Complete(lens)
    ensures Fits(lens)
  {
    var m: nat :| m == MAX_BITS;
    assert ExhaustedAt(lens, m);
    forall b: nat | 1 <= b <= MAX_BITS
      ensures FitsAt(lens, b)
    {
      ShorterFit(lens, b, m);
    }
  }

  lemma {:induction false} ShorterFit(lens: seq<nat>, b: nat, m: nat)
    requires 1 <= b <= m && ExhaustedAt(lens, m)
    ensures FitsAt(lens, b)
  {
    if b < m {
      FirstGrows(lens, b, m);
      ShlPow2(b, m - b);
      if First(lens, b) + Total(lens, b) > Pow2(b) {
        ShlMono(Pow2(b), First(lens, b) + Total(lens, b), m - b);
      }
    }
  }

  /** Numbers as bit strings, most significant bit first. */
  function Big(c: nat, n: nat): (bs: seq<bool>)
    ensures |bs| == n
  {
    if n == 0 then [] else Big(c / 2, n - 1) + [c % 2 == 1]
  }

  lemma {:induction false} BigInjective(c: nat, d: nat, n: nat)
    requires c < Pow2(n) && d < Pow2(n) && Big(c, n) == Big(d, n)
    ensures c == d
  {
    if n != 0 {
      assert Big(c, n)[..n - 1] == Big(c / 2, n - 1);
      assert Big(d, n)[..n - 1] == Big(d / 2, n - 1);
      assert Big(c, n)[n - 1] == (c % 2 == 1);
      BigInjective(c / 2, d / 2, n - 1);
    }
  }

  /** Dropping low bits of a number takes a prefix of its string. */
  lemma {:induction false} BigPrefix(c: nat, m: nat, d: nat)
    ensures Big(c, m + d)[..m] == Big(Shr(c, d), m)
  {
    if d != 0 {
      BigPrefix(c / 2, m, d - 1);
      assert Big(c, m + d)[..m] == Big(c / 2, m + d - 1)[..m];
    }
  }

  /** The j-th code string of length b. */
  function Str(lens: seq<nat>, b: nat, j: nat): (w: seq<bool>)
    ensures |w| == b
  {
    Big(First(lens, b) + j, b)
  }

  ghost predicate IsCode(lens: seq<nat>, b: nat, j: nat) {
    1 <= b <= MAX_BITS && j < Total(lens, b)
  }

  /** The code string of symbol s. */
  function CodeString(lens: seq<nat>, s: nat): (w: seq<bool>)
    requires s < |lens|
    ensures |w| == lens[s]
  {
    Str(lens, lens[s], Cnt(lens, s, lens[s]))
  }

  lemma {:induction false} SymbolIsCode(lens: seq<nat>, s: nat)
    requires s < |lens| && 1 <= lens[s] <= MAX_BITS
    ensures IsCode(lens, lens[s], Cnt(lens, s, lens[s]))
  {
    CntMono(lens, s, |lens|, lens[s]);
  }

  lemma {:induction false} CodeFits(lens: seq<nat>, b: nat, j: nat)
    requires Fits(lens) && IsCode(lens, b, j)
    ensures First(lens, b) + j < Pow2(b)
  {
    assert FitsAt(lens, b);
  }

  /** Cut to length b, a longer code is past all codes of length b. */
  lemma {:induction false} LongerCodesFollow(lens: seq<nat>, b: nat, d: nat, c: nat)
    requires 1 <= b && 1 <= d && First(lens, b + d) <= c < Pow2(b + d)
    ensures First(lens, b) + Total(lens, b) <= Shr(c, d) < Pow2(b)
  {
    var low := First(lens, b) + Total(lens, b);
    FirstGrows(lens, b, b + d);
    ShrMono(Shl(low, d), c, d);
    SplitUnique(0, low, d);
    ShrBound(c, d, b);
  }

  /** No code string is a prefix of another one. */
  lemma {:induction false} PrefixFree(lens: seq<nat>, b: nat, j: nat, b': nat, j': nat)
    requires Fits(lens) && IsCode(lens, b, j) && IsCode(lens, b', j')
    requires Str(lens, b, j) <= Str(lens, b', j')
    ensures b == b' && j == j'
  {
    CodeFits(lens, b, j);
    CodeFits(lens, b', j');
    var c, c' := First(lens, b) + j, First(lens, b') + j';
    if b == b' {
      BigInjective(c, c', b);
    } else {
      LongerCodesFollow(lens, b, b' - b, c');
      NotPrefix(c, b, b' - b, c');
    }
  }

  lemma {:induction false} NotPrefix(c: nat, b: nat, d: nat, c': nat)
    requires c < Shr(c', d) < Pow2(b)
    ensures Big(c', b + d)[..b] != Big(c, b)
  {
    BigPrefix(c', b, d);
    if Big(c, b) == Big(Shr(c', d), b) {
      BigInjective(c, Shr(c', d), b);
    }
  }

  /** Symbols with comparable code strings are equal. */
  lemma {:induction false} CodeStringsDiffer(lens: seq<nat>, s: nat, t: nat)
    requires Fits(lens) && s < |lens| && t < |lens|
    requires 1 <= lens[s] <= MAX_BITS && 1 <= lens[t] <= MAX_BITS
    requires CodeString(lens, s) <= CodeString(lens, t)
    ensures s == t
  {
    SymbolIsCode(lens, s);
    SymbolIsCode(lens, t);
    PrefixFree(lens, lens[s], Cnt(lens, s, lens[s]), lens[t], Cnt(lens, t, lens[t]));
    if s < t {
      CntMono(lens, s, t, lens[s]);
    } else if t < s {
      CntMono(lens, t, s, lens[s]);
    }
  }

  /** The number that a string, most significant bit first, stands for. */
  function Val(x: seq<bool>): (c: nat)
    ensures c < Pow2(|x|)
  {
    if x == [] then 0 else 2 * Val(x[..|x| - 1]) + (if x[|x| - 1] then 1 else 0)
  }

  lemma {:induction false} BigOfVal(x: seq<bool>)
    ensures Big(Val(x), |x|) == x
  {
    if x != [] {
      BigOfVal(x[..|x| - 1]);
      assert Val(x) / 2 == Val(x[..|x| - 1]);
    }
  }

  /** A string starts with a code, or is past all codes of up to its length. */
  lemma {:induction false} FindCode(lens: seq<nat>, x: seq<bool>) returns (found: bool, b: nat, j: nat)
    requires |x| <= MAX_BITS
    ensures found ==> IsCode(lens, b, j) && Str(lens, b, j) <= x
    ensures !found && x != [] ==> First(lens, |x|) + Total(lens, |x|) <= Val(x)
  {
    if x == [] {
      found, b, j := false, 0, 0;
    } else {
      var y := x[..|x| - 1];
      found, b, j := FindCode(lens, y);
      if !found && Val(x) < First(lens, |x|) + Total(lens, |x|) {
        assert First(lens, |x|) <= Val(x);
        found, b, j := true, |x|, Val(x) - First(lens, |x|);
        BigOfVal(x);
      }
    }
  }

  lemma {:induction false} SymbolOf(lens: seq<nat>, n: nat, b: nat, j: nat) returns (s: nat)
    requires n <= |lens| && j < Cnt(lens, n, b)
    ensures s < n && lens[s] == b && Cnt(lens, s, b) == j
  {
    if j < Cnt(lens, n - 1, b) {
      s := SymbolOf(lens, n - 1, b, j);
    } else {
      s := n - 1;
    }
  }

  /** With a complete code every string of MAX_BITS bits starts with a code. */
  lemma {:induction false} Covered(lens: seq<nat>, x: seq<bool>) returns (s: nat)
    requires Complete(lens) && |x| == MAX_BITS
    ensures s < |lens| && 1 <= lens[s] <= MAX_BITS && CodeString(lens, s) <= x
  {
    var found, b, j := FindCode(lens, x);
    assert ExhaustedAt(lens, |x|);
    s := SymbolOf(lens, |lens|, b, j);
  }
}
