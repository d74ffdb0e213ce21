/** Heights in a Huffman tree: merging low nodes first among equal weights makes the tree as low as an optimal one can
    be,
    and heights stay small because weights grow with them. */
module TreeHeights {
  import opened Bits
  import opened Sums
  import opened Huffman

  function Larger(a: nat, b: nat): nat {
    if a >= b then a else b
  }

  /** Among the lightest roots n and m are the lowest. */
  ghost predicate Lowest(R: set<nat>, w: seq<nat>, h: seq<nat>, n: nat, m: nat) {
    && n < |w| <= |h| && m < |w|
    && forall x {:trigger x in R} :: x in R ==>
         x < |w| && (w[x] == w[n] ==> h[n] <= h[x]) && (x != n && w[x] == w[m] ==> h[m] <= h[x])
  }

  /** h is the height of each node: 0 for a leaf, one more than that of its higher son for a father; and each merge
      takes
      the lowest of the lightest roots. */
  ghost predicate Heights(A: set<nat>, w: seq<nat>, h: seq<nat>, ms: seq<Merge>) {
    && (forall x {:trigger x in A} :: x in A ==> x < |h| && h[x] == 0)
    && forall i {:trigger HeightAt(A, w, h, ms, i)} :: 0 <= i < |ms| ==> HeightAt(A, w, h, ms, i)
  }

  ghost predicate HeightAt(A: set<nat>, w: seq<nat>, h: seq<nat>, ms: seq<Merge>, i: nat) {
    && i < |ms| && Lowest(Roots(A, ms, i), w, h, ms[i].n, ms[i].m)
    && ms[i].node < |h| && h[ms[i].node] == 1 + Larger(h[ms[i].n], h[ms[i].m])
  }

  /** One more merge. */
  lemma {:induction false} GrowHeights(A: set<nat>, elems: nat, w: seq<nat>, h: seq<nat>, ms: seq<Merge>, g: Merge,
                                       v: nat)
    requires Growing(A, elems, ms) && Heights(A, w, h, ms) && g.node == elems + |ms| < |w| <= |h|
    requires Lightest(Roots(A, ms, |ms|), w, g.n, g.m) && Lowest(Roots(A, ms, |ms|), w, h, g.n, g.m)
    ensures Heights(A, w[g.node := v], h[g.node := 1 + Larger(h[g.n], h[g.m])], ms + [g])
  {
    var ms', w', h' := ms + [g], w[g.node := v], h[g.node := 1 + Larger(h[g.n], h[g.m])];
    forall i | 0 <= i < |ms'| ensures HeightAt(A, w', h', ms', i) {
      RootsBelow(A, elems, ms, i);
      RootsPrefix(A, ms, g, i);
      if i < |ms| {
        assert HeightAt(A, w, h, ms, i) && FamilyAt(A, elems, ms, i);
      }
    }
  }

  // ----- heights are small -----

  /** The least weight of a tree of height k whose leaves weigh at least one: 1, 2, 3, 5, 8, ... */
  function Fib(k: nat): nat {
    if k == 0 then 1 else if k == 1 then 2 else Fib(k - 1) + Fib(k - 2)
  }

  lemma {:induction false} FibDoubles(k: nat)
    ensures Fib(k) <= Fib(k + 1) && 2 * Fib(k) <= Fib(k + 2)
  {
    if k != 0 { FibDoubles(k - 1); }
  }

  lemma {:induction false} FibPow(k: nat, j: nat)
    requires k >= 2 * j
    ensures Fib(k) >= Pow2(j)
  {
    if j == 0 {
      if k != 0 { FibPow(k - 1, 0); FibDoubles(k - 1); }
    } else {
      FibPow(k - 2, j - 1);
      FibDoubles(k - 2);
    }
  }

  /** Every root is at least as heavy as all sons so far. */
  lemma {:induction false} HeavierThanSons(A: set<nat>, elems: nat, w: seq<nat>, ms: seq<Merge>, i: nat, j: nat, x: nat)
    requires Growing(A, elems, ms) && Greedy(A, w, ms) && j < i <= |ms| && x in Roots(A, ms, i)
    ensures ms[j].n < |w| && ms[j].m < |w| && x < |w| && w[ms[j].n] <= w[x] && w[ms[j].m] <= w[x]
  {
    var g := ms[i - 1];
    assert GreedyAt(A, w, ms, i - 1) && GreedyAt(A, w, ms, j);
    assert g.n in Roots(A, ms, i - 1) && g.m in Roots(A, ms, i - 1);
    if j < i - 1 {
      HeavierThanSons(A, elems, w, ms, i - 1, j, if x == g.node then g.m else x);
    }
    LightestOrder(Roots(A, ms, j), w, ms[j].n, ms[j].m);
  }

  lemma {:induction false} LightestOrder(R: set<nat>, w: seq<nat>, n: nat, m: nat)
    requires Lightest(R, w, n, m)
    ensures w[n] <= w[m]
  {
    assert m in R;
  }

  ghost predicate HeavyEnough(w: seq<nat>, h: seq<nat>, x: nat) {
    x < |w| && x < |h| && w[x] >= Fib(h[x])
  }

  /** A node of height k weighs at least Fib(k). */
  lemma {:induction false} HeavyNodes(A: set<nat>, elems: nat, w: seq<nat>, h: seq<nat>, ms: seq<Merge>, i: nat, x: nat)
    requires Growing(A, elems, ms) && Greedy(A, w, ms) && Heights(A, w, h, ms) && i <= |ms|
    requires forall y {:trigger y in A} :: y in A ==> y < |w| && w[y] >= 1
    requires x in Roots(A, ms, i)
    ensures HeavyEnough(w, h, x)
    decreases i, 1
  {
    if i != 0 {
      if x == ms[i - 1].node {
        HeavyFather(A, elems, w, h, ms, i - 1);
      } else {
        HeavyNodes(A, elems, w, h, ms, i - 1, x);
      }
    }
  }

  lemma {:induction false} HeavyFather(A: set<nat>, elems: nat, w: seq<nat>, h: seq<nat>, ms: seq<Merge>, i: nat)
    requires Growing(A, elems, ms) && Greedy(A, w, ms) && Heights(A, w, h, ms) && i < |ms|
    requires forall y {:trigger y in A} :: y in A ==> y < |w| && w[y] >= 1
    ensures HeavyEnough(w, h, ms[i].node)
    decreases i + 1, 0
  {
    var g := ms[i];
    assert GreedyAt(A, w, ms, i) && HeightAt(A, w, h, ms, i) && FamilyAt(A, elems, ms, i);
    HeavyNodes(A, elems, w, h, ms, i, g.n);
    HeavyNodes(A, elems, w, h, ms, i, g.m);
    if h[g.n] >= h[g.m] {
      HeavyPair(A, elems, w, h, ms, i, g.n, g.m);
    } else {
      HeavyPair(A, elems, w, h, ms, i, g.m, g.n);
    }
  }

  /** Beside a root s of height k + 1 every other one weighs at least what a son of s does. */
  lemma {:induction false} HeavyPair(A: set<nat>, elems: nat, w: seq<nat>, h: seq<nat>, ms: seq<Merge>, i: nat, s: nat,
                                     t: nat)
    requires Growing(A, elems, ms) && Greedy(A, w, ms) && Heights(A, w, h, ms) && i < |ms|
    requires forall y {:trigger y in A} :: y in A ==> y < |w| && w[y] >= 1
    requires s in Roots(A, ms, i) && t in Roots(A, ms, i) && HeavyEnough(w, h, s) && HeavyEnough(w, h, t)
    ensures w[s] + w[t] >= Fib(h[s] + 1)
    decreases i, 2
  {
    if h[s] == 0 {
      FibPow(h[t], 0);
    } else {
      var j := Maker(A, elems, ms, i, s, h);
      assert HeightAt(A, w, h, ms, j) && FamilyAt(A, elems, ms, j);
      HeavyNodes(A, elems, w, h, ms, j, ms[j].n);
      HeavyNodes(A, elems, w, h, ms, j, ms[j].m);
      HeavierThanSons(A, elems, w, ms, i, j, t);
    }
  }

  /** The merge that made a root. */
  lemma {:induction false} Maker(A: set<nat>, elems: nat, ms: seq<Merge>, i: nat, s: nat, h: seq<nat>) returns (j: nat)
    requires Growing(A, elems, ms) && i <= |ms| && s in Roots(A, ms, i) && s < |h| && h[s] != 0
    requires forall x {:trigger x in A} :: x in A ==> x < |h| && h[x] == 0
    ensures j < i && ms[j].node == s
  {
    if i == 0 {
      assert false;
    } else if s == ms[i - 1].node {
      j := i - 1;
    } else {
      j := Maker(A, elems, ms, i - 1, s, h);
    }
  }

  /** While the roots weigh less than 2^16 together, none is as high as 32. */
  lemma {:induction false} HeightsSmall(A: set<nat>, elems: nat, w: seq<nat>, h: seq<nat>, ms: seq<Merge>, x: nat)
    requires Growing(A, elems, ms) && Greedy(A, w, ms) && Heights(A, w, h, ms) && x in Roots(A, ms, |ms|)
    requires forall y {:trigger y in A} :: y in A ==> y < |w| && w[y] >= 1
    requires Sum(Roots(A, ms, |ms|), w) < 0x10000
    ensures x < |h| && h[x] < 32
  {
    HeavyNodes(A, elems, w, h, ms, |ms|, x);
    SumToMember(Roots(A, ms, |ms|), w, |w|, x);
    LargePowers();
    if h[x] >= 32 { FibPow(h[x], 16); }
  }

  // ----- heights and depths -----

  /** No node of the tree reaches below the height of the root. */
  lemma {:induction false} HeightReaches(A: set<nat>, elems: nat, w: seq<nat>, h: seq<nat>, ms: seq<Merge>, root: nat,
                                         d: seq<nat>, i: nat, x: nat)
    requires Family(A, elems, ms, root) && Heights(A, w, h, ms) && elems + |ms| <= |d| == |w| <= |h|
    requires root < |d| && d[root] == 0 && Depths(ms, d, i) && i <= |ms| && x in Roots(A, ms, i)
    ensures x < |d| && d[x] + h[x] <= h[root]
    decreases |ms| - i
  {
    if i < |ms| {
      var g := ms[i];
      assert FamilyAt(A, elems, ms, i) && DepthAt(ms, d, i) && HeightAt(A, w, h, ms, i);
      HeightReaches(A, elems, w, h, ms, root, d, i + 1, if x == g.n || x == g.m then g.node else x);
    }
  }

  /** Some leaf is as deep as the root is high. */
  lemma {:induction false} HeightReached(A: set<nat>, elems: nat, w: seq<nat>, h: seq<nat>, ms: seq<Merge>, root: nat,
                                         d: seq<nat>, i: nat) returns (x: nat)
    requires Family(A, elems, ms, root) && Heights(A, w, h, ms) && elems + |ms| <= |d| == |w| <= |h|
    requires root < |d| && d[root] == 0 && Depths(ms, d, i) && i <= |ms|
    ensures x in Roots(A, ms, i) && x < |d| && d[x] + h[x] == h[root]
    decreases |ms| - i
  {
    if i == |ms| {
      x := root;
    } else {
      var g := ms[i];
      assert FamilyAt(A, elems, ms, i) && DepthAt(ms, d, i) && HeightAt(A, w, h, ms, i);
      x := HeightReached(A, elems, w, h, ms, root, d, i + 1);
      if x == g.node { x := if h[g.n] >= h[g.m] then g.n else g.m; }
    }
  }

  // ----- the least height -----

  /** Codes of these lengths for the roots make a tree no higher than H. */
  ghost predicate Within(R: set<nat>, l: seq<nat>, h: seq<nat>, H: nat) {
    forall x {:trigger x in R} :: x in R ==> x < |l| && x < |h| && l[x] + h[x] <= H
  }

  lemma {:induction false} WithinShorter(R: set<nat>, l: seq<nat>, l': seq<nat>, h: seq<nat>, H: nat)
    requires Within(R, l, h, H) && |l'| == |l| && forall x :: 0 <= x < |l| ==> l'[x] <= l[x]
    ensures Within(R, l', h, H)
  {
  }

  /** Swapping lengths in lengths that cost the least: the weights are equal, so the lower node may go down. */
  lemma {:induction false} SwapLow(R: set<nat>, w: seq<nat>, h: seq<nat>, l: seq<nat>, i: nat, x: nat, H: nat,
                                   least: int) returns (l': seq<nat>)
    requires |w| == |l| && i in R && x in R && i < |l| && x < |l| && KraftFits(R, l, l[x]) && w[i] <= w[x]
    requires l[i] < l[x] && Within(R, l, h, H) && (w[i] == w[x] ==> i < |h| && x < |h| && h[i] <= h[x])
    requires Cost(R, w, l) <= least && Minimal(R, w, least)
    ensures l' == l[i := l[x]][x := l[i]] && KraftFits(R, l', l[x]) && Cost(R, w, l') <= least && Within(R, l', h, H)
  {
    l' := SwapLengths(R, w, l, i, x);
    if w[i] < w[x] { SwapGains(R, w, l, i, x); }
  }

  /** Nothing that satisfies Kraft's inequality costs less. */
  ghost predicate Minimal(R: set<nat>, w: seq<nat>, least: int) {
    forall l: seq<nat>, B: nat {:trigger KraftFits(R, l, B)} :: |l| == |w| && KraftFits(R, l, B) ==>
      least <= Cost(R, w, l)
  }

  lemma {:induction false} SwapGains(R: set<nat>, w: seq<nat>, l: seq<nat>, i: nat, x: nat)
    requires |w| == |l| && i in R && x in R && i < |l| && x < |l| && i != x && w[i] < w[x] && l[i] < l[x]
    ensures Cost(R, w, l[i := l[x]][x := l[i]]) < Cost(R, w, l)
  {
    var l1 := l[i := l[x]];
    CostUpdate(R, w, l, i, l[x]);
    CostUpdate(R, w, l1, x, l[i]);
    ExchangeGains(w[i], w[x], l[i], l[x]);
  }

  lemma {:induction false} ExchangeGains(w1: nat, w2: nat, a: nat, b: nat)
    requires w1 < w2 && a < b
    ensures Times(w1, b) + Times(w2, a) < Times(w1, a) + Times(w2, b)
  {
    var d, e := w2 - w1, b - a;
    assert d * e >= 1;
    assert Times(w2, b) - Times(w2, a) - Times(w1, b) + Times(w1, a) == d * e;
  }

  /** The lengths that PairLongest makes are no longer than before. */
  lemma {:induction false} PairLow(R: set<nat>, w: seq<nat>, h: seq<nat>, l: seq<nat>, B: nat, H: nat)
    returns (l': seq<nat>, x: nat, y: nat)
    requires |w| == |l| && KraftFits(R, l, B) && |R| >= 2 && Within(R, l, h, H)
    ensures |l'| == |l| && Cost(R, w, l') <= Cost(R, w, l) && Within(R, l', h, H)
    ensures x in R && y in R && x != y && x < |l| && y < |l| && l'[x] == l'[y] >= 1 && KraftFits(R, l', l'[x])
  {
    l', x, y := PairLongest(R, w, l, B);
    WithinShorter(R, l, l', h, H);
  }

  /** The two lightest and lowest roots share the longest length, in a tree no higher. */
  lemma {:induction false} LowestLongest(R: set<nat>, w: seq<nat>, h: seq<nat>, l: seq<nat>, B: nat, n: nat, m: nat,
                                         H: nat, least: int)
    returns (l': seq<nat>)
    requires |w| == |l| && KraftFits(R, l, B) && Lightest(R, w, n, m) && Lowest(R, w, h, n, m) && Within(R, l, h, H)
    requires Cost(R, w, l) <= least && Minimal(R, w, least)
    ensures |l'| == |l| && Cost(R, w, l') <= least && l'[n] == l'[m] >= 1 && KraftFits(R, l', l'[n])
    ensures Within(R, l', h, H)
  {
    TwoMembers(R, n, m);
    var x, y;
    l', x, y := PairLow(R, w, h, l, B, H);
    assert n in R && m in R;
    var M := l'[x];
    if l'[n] < M {
      l' := SwapLow(R, w, h, l', n, x, H, least);
      x := y;
    } else if x == n {
      x := y;
    }
    assert l'[n] == M && l'[x] == M && x != n && x in R;
    if l'[m] < M {
      l' := SwapLow(R, w, h, l', m, x, H, least);
    }
  }

  /** The father reaches as far as its sons. */
  lemma {:induction false} WithinFather(R: set<nat>, w: seq<nat>, g: Merge, h: seq<nat>, l: seq<nat>, H: nat)
    requires MergeOk(R, w, g) && |w| == |l| && Within(R, l, h, H) && l[g.n] == l[g.m] >= 1
    requires g.node < |h| && g.n < |h| && g.m < |h| && h[g.node] == 1 + Larger(h[g.n], h[g.m])
    ensures Within(R - {g.n, g.m} + {g.node}, l[g.node := l[g.n] - 1], h, H)
  {
    assert g.n in R && g.m in R;
  }

  /** Lengths that satisfy Kraft's inequality and cost no more than the merges make no lower tree. */
  lemma {:induction false} LeastHeight(A: set<nat>, w: seq<nat>, h: seq<nat>, ms: seq<Merge>, root: nat, i: nat,
                                       l: seq<nat>, B: nat, H: nat)
    requires |w| == |l| && i <= |ms| && Greedy(A, w, ms) && Heights(A, w, h, ms) && Roots(A, ms, |ms|) == {root}
    requires KraftFits(Roots(A, ms, i), l, B) && Cost(Roots(A, ms, i), w, l) <= Merged(w, ms, i)
    requires Within(Roots(A, ms, i), l, h, H)
    ensures root < |h| && h[root] <= H
    decreases |ms| - i
  {
    if i == |ms| {
      assert root in Roots(A, ms, i);
    } else {
      assert GreedyAt(A, w, ms, i) && HeightAt(A, w, h, ms, i);
      var R, g, least := Roots(A, ms, i), ms[i], Merged(w, ms, i);
      forall k: seq<nat>, C: nat {:trigger KraftFits(R, k, C)} | |k| == |w| && KraftFits(R, k, C)
        ensures least <= Cost(R, w, k)
      {
        Optimal(A, w, ms, i, k, C);
      }
      var l' := LowestLongest(R, w, h, l, B, g.n, g.m, H, least);
      MergeLengths(R, w, g, l');
      WithinFather(R, w, g, h, l', H);
      LeastHeight(A, w, h, ms, root, i + 1, l'[g.node := l'[g.n] - 1], l'[g.n], H);
    }
  }
}
