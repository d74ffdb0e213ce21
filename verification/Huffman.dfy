/** Huffman trees as sequences of merges: lengths, Kraft sums, weighted totals and optimality. */
module Huffman {
  import opened Bits
  import opened Sums

  // ----- lengths, their Kraft sum and their weighted total -----

  /** 2^(B - x) */
  function Unit(B: nat, x: nat): nat {
    if x <= B then Pow2(B - x) else 0
  }

  function Units(B: nat, l: seq<nat>): (u: seq<int>)
    ensures |u| == |l| && forall i :: 0 <= i < |l| ==> u[i] == Unit(B, l[i])
  {
    seq(|l|, i requires 0 <= i < |l| => Unit(B, l[i]))
  }

  /** The Kraft sum of the lengths of A, in units of 2^-B. */
  function Kraft(A: set<nat>, B: nat, l: seq<nat>): int {
    Sum(A, Units(B, l))
  }

  function Times(w: nat, x: nat): nat {
    w * x
  }

  function Costs(w: seq<nat>, l: seq<nat>): (c: seq<int>)
    requires |w| == |l|
    ensures |c| == |l| && forall i :: 0 <= i < |l| ==> c[i] == Times(w[i], l[i])
  {
    seq(|l|, i requires 0 <= i < |l| => Times(w[i], l[i]))
  }

  /** The total of the lengths of A, weighted. */
  function Cost(A: set<nat>, w: seq<nat>, l: seq<nat>): int
    requires |w| == |l|
  {
    Sum(A, Costs(w, l))
  }

  ghost predicate Bounded(A: set<nat>, l: seq<nat>, B: nat) {
    forall i {:trigger i in A} :: i in A ==> i < |l| && l[i] <= B
  }

  /** The lengths of A are those of some prefix code. */
  ghost predicate KraftFits(A: set<nat>, l: seq<nat>, B: nat) {
    Bounded(A, l, B) && Kraft(A, B, l) <= Pow2(B)
  }

  lemma {:induction false} KraftUpdate(A: set<nat>, B: nat, l: seq<nat>, i: nat, x: nat)
    requires i in A && i < |l|
    ensures Kraft(A, B, l[i := x]) == Kraft(A, B, l) + Unit(B, x) - Unit(B, l[i])
  {
    assert Units(B, l[i := x]) == Units(B, l)[i := Unit(B, x)];
    SumUpdate(A, Units(B, l), i, Unit(B, x));
  }

  lemma {:induction false} CostUpdate(A: set<nat>, w: seq<nat>, l: seq<nat>, i: nat, x: nat)
    requires i in A && i < |l| && |w| == |l|
    ensures Cost(A, w, l[i := x]) == Cost(A, w, l) + Times(w[i], x) - Times(w[i], l[i])
  {
    assert Costs(w, l[i := x]) == Costs(w, l)[i := Times(w[i], x)];
    SumUpdate(A, Costs(w, l), i, Times(w[i], x));
  }

  lemma {:induction false} KraftDoubles(A: set<nat>, B: nat, l: seq<nat>, n: nat)
    requires n <= |l| && Bounded(A, l, B)
    ensures SumTo(A, Units(B + 1, l), n) == 2 * SumTo(A, Units(B, l), n)
  {
    if n != 0 { KraftDoubles(A, B, l, n - 1); }
  }

  /** The unit of a Kraft sum does not matter. */
  lemma {:induction false} Rescale(A: set<nat>, l: seq<nat>, B: nat, M: nat)
    requires Bounded(A, l, M) && M <= B
    ensures KraftFits(A, l, B) <==> KraftFits(A, l, M)
  {
    if M < B {
      Rescale(A, l, B - 1, M);
      KraftDoubles(A, B - 1, l, |l|);
      assert Bounded(A, l, B - 1);
    }
  }

  // ----- the exchange argument -----

  /** A longest member. */
  lemma {:induction false} Longest(A: set<nat>, l: seq<nat>, B: nat) returns (x: nat)
    requires Bounded(A, l, B) && A != {}
    ensures x in A && x < |l| && Bounded(A, l, l[x])
    decreases A
  {
    x :| x in A;
    var R := A - {x};
    if R != {} {
      var y := Longest(R, l, B);
      if l[y] > l[x] {
        assert forall i :: i in A ==> i == x || i in R;
        x := y;
      } else {
        assert forall i :: i in A ==> i == x || i in R;
      }
    } else {
      assert forall i :: i in A ==> i == x || i in R;
    }
  }

  /** Shorter members make up an even number of units. */
  lemma {:induction false} OthersEven(A: set<nat>, l: seq<nat>, x: nat)
    requires x in A && x < |l| && Bounded(A, l, l[x])
    requires forall y :: y in A && y != x ==> l[y] < l[x]
    ensures Sum(A - {x}, Units(l[x], l)) % 2 == 0
  {
    var M, u := l[x], Units(l[x], l);
    forall i | 0 <= i < |u| && i in A - {x}
      ensures u[i] % 2 == 0
    {
      assert i in A;
      UnitEven(M, l[i]);
    }
    SumToEven(A - {x}, u, |u|);
  }

  lemma {:induction false} UnitEven(M: nat, x: nat)
    requires x < M
    ensures Unit(M, x) % 2 == 0 && Unit(M, M) == 1 && Unit(M, M - 1) == 2 && Pow2(M) % 2 == 0
  {
    PowEven(M - x);
    PowEven(M);
  }

  lemma {:induction false} PowEven(n: nat)
    requires n >= 1
    ensures Pow2(n) % 2 == 0
  {
    TwiceEven(Pow2(n), Pow2(n - 1));
  }

  lemma {:induction false} TwiceEven(a: nat, b: nat)
    requires a == 2 * b
    ensures a % 2 == 0
  {
  }

  /** A lone longest member can be shortened. */
  lemma {:induction false} ShortenLone(A: set<nat>, l: seq<nat>, x: nat)
    requires x in A && x < |l| && KraftFits(A, l, l[x]) && l[x] >= 1
    requires forall y :: y in A && y != x ==> l[y] < l[x]
    ensures KraftFits(A, l[x := l[x] - 1], l[x])
  {
    var M := l[x];
    OthersEven(A, l, x);
    UnitEven(M, M - 1);
    SumRemove(A, Units(M, l), x);
    KraftUpdate(A, M, l, x, M - 1);
  }

  /** Two members cannot both have length zero. */
  lemma {:induction false} NotAllZero(A: set<nat>, l: seq<nat>, x: nat, y: nat)
    requires x in A && y in A && x != y && x < |l| && KraftFits(A, l, l[x])
    ensures l[x] >= 1
  {
    if l[x] == 0 {
      var u := Units(0, l);
      SumRemove(A, u, x);
      SumToMember(A - {x}, u, |u|, y);
    }
  }

  lemma {:induction false} Another(A: set<nat>, x: nat) returns (y: nat)
    requires x in A && |A| >= 2
    ensures y in A && y != x
  {
    assert |A - {x}| == |A| - 1;
    y :| y in A - {x};
  }

  /** Two members share the longest length, at no greater cost. */
  lemma {:induction false} PairLongest(A: set<nat>, w: seq<nat>, l: seq<nat>, B: nat)
    returns (l': seq<nat>, x: nat, y: nat)
    requires |w| == |l| && KraftFits(A, l, B) && |A| >= 2
    ensures |l'| == |l| && Cost(A, w, l') <= Cost(A, w, l) && (forall i :: 0 <= i < |l| ==> l'[i] <= l[i])
    ensures x in A && y in A && x != y && x < |l| && y < |l| && l'[x] == l'[y] >= 1 && KraftFits(A, l', l'[x])
    decreases Sum(A, l)
  {
    x := Longest(A, l, B);
    Rescale(A, l, B, l[x]);
    y := Another(A, x);
    NotAllZero(A, l, x, y);
    if z :| z in A && z != x && l[z] == l[x] {
      l', y := l, z;
    } else {
      ShortenLone(A, l, x);
      var l1, x1 := l[x := l[x] - 1], l[x];
      SumUpdate(A, l, x, l[x] - 1);
      SumToMember(A, l, |l|, x);
      CostUpdate(A, w, l, x, l[x] - 1);
      TimesMono(w[x], l[x] - 1, l[x]);
      l', x, y := PairLongest(A, w, l1, x1);
    }
  }

  lemma {:induction false} TimesMono(w: nat, x: nat, y: nat)
    requires x <= y
    ensures Times(w, x) <= Times(w, y)
  {
  }

  /** Giving the longer of two lengths to the lighter member costs no more. */
  lemma {:induction false} Exchange(w1: nat, w2: nat, a: nat, b: nat)
    requires w1 <= w2 && a <= b
    ensures Times(w1, b) + Times(w2, a) <= Times(w1, a) + Times(w2, b)
  {
    var d, e := w2 - w1, b - a;
    assert Times(w2, b) - Times(w2, a) - Times(w1, b) + Times(w1, a) == d * e;
  }

  /** Swaps the lengths of a light member i and a longest member x. */
  lemma {:induction false} SwapLengths(A: set<nat>, w: seq<nat>, l: seq<nat>, i: nat, x: nat) returns (l': seq<nat>)
    requires |w| == |l| && i in A && x in A && i < |l| && x < |l| && KraftFits(A, l, l[x]) && w[i] <= w[x]
    ensures l' == l[i := l[x]][x := l[i]] && KraftFits(A, l', l[x]) && Cost(A, w, l') <= Cost(A, w, l)
  {
    var M, l1 := l[x], l[i := l[x]];
    l' := l1[x := l[i]];
    assert i in A && l[i] <= M;
    KraftUpdate(A, M, l, i, M);
    KraftUpdate(A, M, l1, x, l[i]);
    CostUpdate(A, w, l, i, M);
    CostUpdate(A, w, l1, x, l[i]);
    Exchange(w[i], w[x], l[i], M);
  }

  /** The two lightest members of A. */
  ghost predicate Lightest(A: set<nat>, w: seq<nat>, n: nat, m: nat) {
    && n in A && m in A && n != m && n < |w| && m < |w|
    && (forall i {:trigger i in A} :: i in A ==> i < |w| && w[n] <= w[i] && (i != n ==> w[m] <= w[i]))
  }

  /** The two lightest members share the longest length, at no greater cost. */
  lemma {:induction false} LightestLongest(A: set<nat>, w: seq<nat>, l: seq<nat>, B: nat, n: nat, m: nat)
    returns (l': seq<nat>)
    requires |w| == |l| && KraftFits(A, l, B) && Lightest(A, w, n, m)
    ensures |l'| == |l| && Cost(A, w, l') <= Cost(A, w, l) && l'[n] == l'[m] >= 1 && KraftFits(A, l', l'[n])
  {
    TwoMembers(A, n, m);
    var x, y;
    l', x, y := PairLongest(A, w, l, B);
    assert n in A && m in A;
    var M := l'[x];
    if l'[n] < M {
      l' := SwapLengths(A, w, l', n, x);
      x := y;
    } else if x == n {
      x := y;
    }
    assert l'[n] == M && l'[x] == M && x != n && x in A;
    if l'[m] < M {
      l' := SwapLengths(A, w, l', m, x);
    }
  }

  lemma {:induction false} TwoMembers(A: set<nat>, n: nat, m: nat)
    requires n in A && m in A && n != m
    ensures |A| >= 2
  {
    assert {n, m} <= A;
    Subset({n, m}, A);
  }

  lemma {:induction false} Subset(a: set<nat>, b: set<nat>)
    requires a <= b
    ensures |a| <= |b|
  {
    assert b == a + (b - a);
  }

  // ----- merges -----

  /** The nodes n and m get the father `node`. */
  datatype Merge = Merge(n: nat, m: nat, node: nat)

  /** The nodes without a father after the first i merges. */
  ghost function Roots(A: set<nat>, ms: seq<Merge>, i: nat): set<nat>
    requires i <= |ms|
  {
    if i == 0 then A else Roots(A, ms, i - 1) - {ms[i - 1].n, ms[i - 1].m} + {ms[i - 1].node}
  }

  /** Each merge takes the two lightest roots and makes a new node of their joint weight. */
  ghost predicate Greedy(A: set<nat>, w: seq<nat>, ms: seq<Merge>) {
    forall i {:trigger GreedyAt(A, w, ms, i)} :: 0 <= i < |ms| ==> GreedyAt(A, w, ms, i)
  }

  ghost predicate GreedyAt(A: set<nat>, w: seq<nat>, ms: seq<Merge>, i: nat) {
    && i < |ms| && MergeOk(Roots(A, ms, i), w, ms[i])
  }

  ghost predicate MergeOk(R: set<nat>, w: seq<nat>, g: Merge) {
    Lightest(R, w, g.n, g.m) && g.node !in R && g.node < |w| && w[g.node] == w[g.n] + w[g.m]
  }

  /** The joint weights of the merges from i on. */
  function Merged(w: seq<nat>, ms: seq<Merge>, i: nat): nat
    requires i <= |ms|
    decreases |ms| - i
  {
    if i == |ms| || ms[i].node >= |w| then 0 else w[ms[i].node] + Merged(w, ms, i + 1)
  }

  /** One merge, seen from a code for the roots: the father gets the code of its sons, less one bit. */
  lemma {:induction false} MergeLengths(R: set<nat>, w: seq<nat>, g: Merge, l: seq<nat>)
    requires |w| == |l| && MergeOk(R, w, g) && l[g.n] == l[g.m] >= 1 && KraftFits(R, l, l[g.n])
    ensures var R', l' := R - {g.n, g.m} + {g.node}, l[g.node := l[g.n] - 1];
            KraftFits(R', l', l[g.n]) && Cost(R', w, l') == Cost(R, w, l) - w[g.node]
  {
    var R', M := R - {g.n, g.m} + {g.node}, l[g.n];
    var l' := l[g.node := M - 1];
    UnitEven(M, M - 1);
    SumMerge(R, Units(M, l), g.n, g.m, g.node, Unit(M, M - 1));
    assert Units(M, l') == Units(M, l)[g.node := Unit(M, M - 1)];
    SumMerge(R, Costs(w, l), g.n, g.m, g.node, Times(w[g.node], M - 1));
    assert Costs(w, l') == Costs(w, l)[g.node := Times(w[g.node], M - 1)];
    Distribute(w[g.n], w[g.m], M);
    forall i | i in R' ensures i < |l'| && l'[i] <= M {
      assert i == g.node || i in R;
    }
  }

  lemma {:induction false} Distribute(a: nat, b: nat, x: nat)
    requires x >= 1
    ensures Times(a, x) + Times(b, x) == Times(a + b, x - 1) + a + b
  {
  }

  /** No lengths that satisfy Kraft's inequality cost less than the merges. */
  lemma {:induction false} Optimal(A: set<nat>, w: seq<nat>, ms: seq<Merge>, i: nat, l: seq<nat>, B: nat)
    requires |w| == |l| && i <= |ms| && Greedy(A, w, ms) && KraftFits(Roots(A, ms, i), l, B)
    ensures Merged(w, ms, i) <= Cost(Roots(A, ms, i), w, l)
    decreases |ms| - i
  {
    if i == |ms| {
      SumToMember(Roots(A, ms, i), Costs(w, l), |l|, 0);
    } else {
      assert GreedyAt(A, w, ms, i);
      var R, g := Roots(A, ms, i), ms[i];
      var l' := LightestLongest(R, w, l, B, g.n, g.m);
      MergeLengths(R, w, g, l');
      Optimal(A, w, ms, i + 1, l'[g.node := l'[g.n] - 1], l'[g.n]);
    }
  }

  // ----- the tree that the merges make -----

  /** Merges of roots into new nodes, numbered from `elems` on, until `root` is left. */
  ghost predicate Family(A: set<nat>, elems: nat, ms: seq<Merge>, root: nat) {
    Growing(A, elems, ms) && Roots(A, ms, |ms|) == {root}
  }

  ghost predicate Growing(A: set<nat>, elems: nat, ms: seq<Merge>) {
    && (forall x {:trigger x in A} :: x in A ==> x < elems)
    && forall i {:trigger FamilyAt(A, elems, ms, i)} :: 0 <= i < |ms| ==> FamilyAt(A, elems, ms, i)
  }

  ghost predicate FamilyAt(A: set<nat>, elems: nat, ms: seq<Merge>, i: nat) {
    i < |ms| && ms[i].node == elems + i && ms[i].n != ms[i].m && ms[i].n in Roots(A, ms, i)
    && ms[i].m in Roots(A, ms, i)
  }

  lemma {:induction false} RootsBelow(A: set<nat>, elems: nat, ms: seq<Merge>, i: nat)
    requires Growing(A, elems, ms) && i <= |ms|
    ensures forall x {:trigger x in Roots(A, ms, i)} :: x in Roots(A, ms, i) ==> x < elems + i
  {
    if i != 0 {
      RootsBelow(A, elems, ms, i - 1);
      assert FamilyAt(A, elems, ms, i - 1);
    }
  }

  lemma {:induction false} RootsPrefix(A: set<nat>, ms: seq<Merge>, g: Merge, i: nat)
    requires i <= |ms|
    ensures Roots(A, ms + [g], i) == Roots(A, ms, i)
  {
    if i != 0 { RootsPrefix(A, ms, g, i - 1); }
  }

  /** A node that has a father is no root any more. */
  lemma {:induction false} SonsGone(A: set<nat>, elems: nat, ms: seq<Merge>, i: nat, j: nat)
    requires Growing(A, elems, ms) && i < j <= |ms|
    ensures ms[i].n !in Roots(A, ms, j) && ms[i].m !in Roots(A, ms, j)
  {
    RootsBelow(A, elems, ms, i);
    assert FamilyAt(A, elems, ms, i);
    assert FamilyAt(A, elems, ms, j - 1);
    if i < j - 1 { SonsGone(A, elems, ms, i, j - 1); }
  }

  /** One more merge, of the two lightest roots into the next node. */
  lemma {:induction false} GrowOne(A: set<nat>, elems: nat, w: seq<nat>, ms: seq<Merge>, g: Merge, v: nat)
    requires Growing(A, elems, ms) && Greedy(A, w, ms) && g.node == elems + |ms| < |w|
    requires Lightest(Roots(A, ms, |ms|), w, g.n, g.m) && v == w[g.n] + w[g.m]
    ensures Growing(A, elems, ms + [g]) && Greedy(A, w[g.node := v], ms + [g])
    ensures Roots(A, ms + [g], |ms| + 1) == Roots(A, ms, |ms|) - {g.n, g.m} + {g.node} && g.node !in Roots(A, ms, |ms|)
  {
    var ms', w' := ms + [g], w[g.node := v];
    RootsBelow(A, elems, ms, |ms|);
    RootsPrefix(A, ms, g, |ms|);
    forall i | 0 <= i < |ms'|
      ensures FamilyAt(A, elems, ms', i) && GreedyAt(A, w', ms', i)
    {
      RootsBelow(A, elems, ms, i);
      RootsPrefix(A, ms, g, i);
      if i < |ms| {
        assert FamilyAt(A, elems, ms, i) && GreedyAt(A, w, ms, i);
      }
    }
  }

  /** The nodes that are roots after i merges or are made by later ones. */
  ghost predicate Present(A: set<nat>, elems: nat, ms: seq<Merge>, i: nat, x: nat)
    requires i <= |ms|
  {
    x in Roots(A, ms, i) || elems + i <= x < elems + |ms|
  }

  /** Undoing a merge makes exactly its two sons present; their father was. */
  lemma {:induction false} Undo(A: set<nat>, elems: nat, ms: seq<Merge>, root: nat, i: nat)
    requires Family(A, elems, ms, root) && i < |ms|
    ensures var g := ms[i];
            && g.node == elems + i && g.n < g.node && g.m < g.node && g.n != g.m
            && Present(A, elems, ms, i + 1, g.node) && !Present(A, elems, ms, i + 1, g.n)
            && !Present(A, elems, ms, i + 1, g.m)
            && (forall x {:trigger Present(A, elems, ms, i, x)} ::
                  Present(A, elems, ms, i, x) <==> Present(A, elems, ms, i + 1, x) || x == g.n || x == g.m)
  {
    assert FamilyAt(A, elems, ms, i);
    RootsBelow(A, elems, ms, i);
  }

  /** The depths of a tree: 0 at the root, one more than its father's at every other node. */
  ghost predicate Depths(ms: seq<Merge>, d: seq<nat>, i: nat) {
    forall j {:trigger DepthAt(ms, d, j)} :: i <= j < |ms| ==> DepthAt(ms, d, j)
  }

  ghost predicate DepthAt(ms: seq<Merge>, d: seq<nat>, j: nat) {
    && j < |ms| && ms[j].n < |d| && ms[j].m < |d| && ms[j].node < |d|
    && d[ms[j].n] == d[ms[j].node] + 1 && d[ms[j].m] == d[ms[j].node] + 1
  }

  lemma {:induction false} DepthsExist(A: set<nat>, elems: nat, ms: seq<Merge>, root: nat, N: nat, i: nat)
    returns (d: seq<nat>)
    requires Family(A, elems, ms, root) && elems + |ms| <= N && i <= |ms| && root < N
    ensures |d| == N && d[root] == 0 && Depths(ms, d, i) && forall x :: 0 <= x < N ==> d[x] <= |ms| - i
    decreases |ms| - i
  {
    if i == |ms| {
      d := seq(N, _ => 0);
    } else {
      var e := DepthsExist(A, elems, ms, root, N, i + 1);
      Undo(A, elems, ms, root, i);
      var g := ms[i];
      RootPresent(A, elems, ms, root, i + 1);
      d := e[g.n := e[g.node] + 1][g.m := e[g.node] + 1];
      forall j | i <= j < |ms|
        ensures DepthAt(ms, d, j)
      {
        if j > i {
          assert DepthAt(ms, e, j);
          LaterPresent(A, elems, ms, root, i + 1, j);
        }
      }
    }
  }

  lemma {:induction false} RootPresent(A: set<nat>, elems: nat, ms: seq<Merge>, root: nat, i: nat)
    requires Family(A, elems, ms, root) && i <= |ms|
    ensures Present(A, elems, ms, i, root)
    decreases |ms| - i
  {
    if i < |ms| {
      RootPresent(A, elems, ms, root, i + 1);
      Undo(A, elems, ms, root, i);
    }
  }

  /** The nodes of later merges are present. */
  lemma {:induction false} LaterPresent(A: set<nat>, elems: nat, ms: seq<Merge>, root: nat, i: nat, j: nat)
    requires Family(A, elems, ms, root) && i <= j < |ms|
    ensures Present(A, elems, ms, i, ms[j].n) && Present(A, elems, ms, i, ms[j].m)
    ensures Present(A, elems, ms, i, ms[j].node)
    decreases j - i
  {
    Undo(A, elems, ms, root, i);
    if i < j {
      LaterPresent(A, elems, ms, root, i + 1, j);
    }
  }

  // ----- what its depths add up to -----

  /** Replacing the father by its sons. */
  lemma {:induction false} SumUndo(A: set<nat>, elems: nat, ms: seq<Merge>, root: nat, i: nat, f: seq<int>)
    requires Family(A, elems, ms, root) && i < |ms| && elems + |ms| <= |f|
    ensures var g := ms[i];
            && g.n < |f| && g.m < |f| && g.node < |f|
            && Sum(Roots(A, ms, i), f) == Sum(Roots(A, ms, i + 1), f) - f[g.node] + f[g.n] + f[g.m]
  {
    assert FamilyAt(A, elems, ms, i);
    RootsBelow(A, elems, ms, i);
    var g := ms[i];
    SumMerge(Roots(A, ms, i), f, g.n, g.m, g.node, f[g.node]);
    assert f[g.node := f[g.node]] == f;
  }

  /** Depths cut to at most L. */
  function Clip(d: seq<nat>, L: nat): (c: seq<nat>)
    ensures |c| == |d| && forall x :: 0 <= x < |d| ==> c[x] == Min(d[x], L)
  {
    seq(|d|, x requires 0 <= x < |d| => Min(d[x], L))
  }

  /** How many of the merges from i on have their father at depth L or more. */
  function Deep(ms: seq<Merge>, d: seq<nat>, L: nat, i: nat): nat
    requires i <= |ms|
    decreases |ms| - i
  {
    if i == |ms| then 0 else (if ms[i].node < |d| && d[ms[i].node] >= L then 1 else 0) + Deep(ms, d, L, i + 1)
  }

  /** Cutting the depths makes the Kraft sum exceed one by one unit for every merge below the cut. */
  lemma {:induction false} ClippedKraft(A: set<nat>, elems: nat, ms: seq<Merge>, root: nat, d: seq<nat>, L: nat, i: nat)
    requires Family(A, elems, ms, root) && elems + |ms| <= |d| && root < |d| && d[root] == 0 && Depths(ms, d, i)
    requires i <= |ms|
    ensures Kraft(Roots(A, ms, i), L, Clip(d, L)) == Pow2(L) + Deep(ms, d, L, i)
    decreases |ms| - i
  {
    var u := Units(L, Clip(d, L));
    if i == |ms| {
      SumSingle(u, root);
    } else {
      ClippedKraft(A, elems, ms, root, d, L, i + 1);
      SumUndo(A, elems, ms, root, i, u);
      assert DepthAt(ms, d, i);
      UnitSplit(L, d[ms[i].node]);
    }
  }

  lemma {:induction false} UnitSplit(L: nat, x: nat)
    ensures 2 * Unit(L, Min(x + 1, L)) == Unit(L, Min(x, L)) + if x >= L then 1 else 0
  {
    assert Unit(L, L) == 1;
  }

  /** The weighted total of the depths is the joint weight of the merges. */
  lemma {:induction false} DepthCost(A: set<nat>, elems: nat, ms: seq<Merge>, root: nat, w: seq<nat>, d: seq<nat>,
                                     i: nat)
    requires Family(A, elems, ms, root) && elems + |ms| <= |d| == |w| && root < |d| && d[root] == 0 && Depths(ms, d, i)
    requires i <= |ms|
    requires Greedy(A, w, ms)
    ensures Cost(Roots(A, ms, i), w, d) == Merged(w, ms, i)
    decreases |ms| - i
  {
    var c := Costs(w, d);
    if i == |ms| {
      SumSingle(c, root);
    } else {
      DepthCost(A, elems, ms, root, w, d, i + 1);
      SumUndo(A, elems, ms, root, i, c);
      assert DepthAt(ms, d, i) && GreedyAt(A, w, ms, i);
      var g := ms[i];
      Distribute(w[g.n], w[g.m], d[g.node] + 1);
    }
  }

  /** 1 for the nodes at depth L or more. */
  function Flags(d: seq<nat>, L: nat): (f: seq<int>)
    ensures |f| == |d| && forall x :: 0 <= x < |d| ==> f[x] == if d[x] >= L then 1 else 0
  {
    seq(|d|, x requires 0 <= x < |d| => if d[x] >= L then 1 else 0)
  }

  /** Below any merge at depth L there are more leaves than merges. */
  lemma {:induction false} LeavesBelow(A: set<nat>, elems: nat, ms: seq<Merge>, root: nat, d: seq<nat>, L: nat, i: nat)
    requires Family(A, elems, ms, root) && elems + |ms| <= |d| && root < |d| && d[root] == 0 && Depths(ms, d, i)
    requires i <= |ms| && L >= 1
    ensures var c := Sum(Roots(A, ms, i), Flags(d, L));
            (c == 0 && Deep(ms, d, L, i) == 0) || c >= Deep(ms, d, L, i) + 2
    decreases |ms| - i
  {
    var f := Flags(d, L);
    if i == |ms| {
      SumSingle(f, root);
    } else {
      LeavesBelow(A, elems, ms, root, d, L, i + 1);
      SumUndo(A, elems, ms, root, i, f);
      assert DepthAt(ms, d, i);
      Undo(A, elems, ms, root, i);
      FatherIsRoot(A, elems, ms, root, i);
      SumToMember(Roots(A, ms, i + 1), f, |f|, ms[i].node);
    }
  }

  lemma {:induction false} FatherIsRoot(A: set<nat>, elems: nat, ms: seq<Merge>, root: nat, i: nat)
    requires Family(A, elems, ms, root) && i < |ms|
    ensures ms[i].node in Roots(A, ms, i + 1)
  {
  }

  // ----- prefix codes -----

  /** No code string of A is a prefix of another one. */
  ghost predicate PrefixCode(A: set<nat>, c: seq<seq<bool>>) {
    && (forall i {:trigger i in A} :: i in A ==> i < |c|)
    && forall i, j :: i in A && j in A && i != j ==> !(c[i] <= c[j])
  }

  function Sizes(c: seq<seq<bool>>): (l: seq<nat>)
    ensures |l| == |c| && forall i :: 0 <= i < |c| ==> l[i] == |c[i]|
  {
    seq(|c|, i requires 0 <= i < |c| => |c[i]|)
  }

  /** Code strings without their first bit. */
  function Tails(c: seq<seq<bool>>): (t: seq<seq<bool>>)
    ensures |t| == |c| && forall i :: 0 <= i < |c| ==> t[i] == if c[i] == [] then [] else c[i][1..]
  {
    seq(|c|, i requires 0 <= i < |c| => if c[i] == [] then [] else c[i][1..])
  }

  /** Kraft's inequality: every prefix code satisfies it. */
  lemma {:induction false} PrefixCodeFits(A: set<nat>, c: seq<seq<bool>>, B: nat)
    requires PrefixCode(A, c) && Bounded(A, Sizes(c), B)
    ensures KraftFits(A, Sizes(c), B)
    decreases B, 1
  {
    var u := Units(B, Sizes(c));
    if i :| i in A && c[i] == [] {
      forall j | j in A ensures j == i { }
      assert A == {i};
      SumSingle(u, i);
    } else if B == 0 {
      assert A == {};
      SumToEmpty(u, |u|);
    } else {
      var P, Q := set i | i in A && !c[i][0], set i | i in A && c[i][0];
      SumToSplit(A, P, Q, u, |u|);
      HalfFits(A, P, c, B, false);
      HalfFits(A, Q, c, B, true);
    }
  }

  /** The codes that start with the same bit, without it, are a prefix code. */
  lemma {:induction false} HalfFits(A: set<nat>, P: set<nat>, c: seq<seq<bool>>, B: nat, b: bool)
    requires PrefixCode(A, c) && Bounded(A, Sizes(c), B) && B >= 1 && P <= A
    requires forall i {:trigger i in P} :: i in P ==> c[i] != [] && c[i][0] == b
    ensures Sum(P, Units(B, Sizes(c))) <= Pow2(B - 1)
    decreases B, 0
  {
    var t := Tails(c);
    forall i, j | i in P && j in P && i != j
      ensures !(t[i] <= t[j])
    {
      assert i in A && j in A && !(c[i] <= c[j]);
      assert c[i] == [b] + t[i] && c[j] == [b] + t[j];
    }
    PrefixCodeFits(P, t, B - 1);
    SumToSame(P, Units(B, Sizes(c)), Units(B - 1, Sizes(t)), |c|);
  }

  /** The depths of the tree cost no more than the lengths of any prefix code. */
  lemma {:induction false} BestPrefixCode(A: set<nat>, elems: nat, ms: seq<Merge>, root: nat, w: seq<nat>, d: seq<nat>,
                                          c: seq<seq<bool>>, B: nat)
    requires Family(A, elems, ms, root) && elems + |ms| <= |d| == |w| == |c| && root < |d| && d[root] == 0
    requires Depths(ms, d, 0)
    requires Greedy(A, w, ms) && PrefixCode(A, c) && Bounded(A, Sizes(c), B)
    ensures Cost(A, w, d) <= Cost(A, w, Sizes(c))
  {
    DepthCost(A, elems, ms, root, w, d, 0);
    PrefixCodeFits(A, c, B);
    Optimal(A, w, ms, 0, Sizes(c), B);
  }
}
