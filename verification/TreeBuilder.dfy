/** build_tree: the heap of symbols in use, merged two by two into a Huffman tree. */
module TreeBuilder {
  import opened Sums
  import opened Huffman
  import opened TreeHeights
  import opened Heap

  const MAX_TOTAL := 0x10000   // frequencies are 16-bit numbers

  /** The merges so far, n below m, are kept at the end of the heap array, the last one first. */
  ghost predicate Kept(heap: seq<nat>, ms: seq<Merge>) {
    && 2 * |ms| <= |heap|
    && forall i {:trigger KeptAt(heap, ms, i)} :: 0 <= i < |ms| ==> KeptAt(heap, ms, i)
  }

  ghost predicate KeptAt(heap: seq<nat>, ms: seq<Merge>, i: nat) {
    && i < |ms| && 2 * i + 2 <= |heap|
    && heap[|heap| - 1 - 2 * i] == ms[i].n && heap[|heap| - 2 - 2 * i] == ms[i].m
  }

  /** The sons of every merge know their father. */
  ghost predicate Dads(dl: seq<nat>, ms: seq<Merge>, upTo: nat) {
    forall i {:trigger DadAt(dl, ms, i)} :: 0 <= i < |ms| && i < upTo ==> DadAt(dl, ms, i)
  }

  ghost predicate DadAt(dl: seq<nat>, ms: seq<Merge>, i: nat) {
    i < |ms| && ms[i].n < |dl| && ms[i].m < |dl| && dl[ms[i].n] == ms[i].node && dl[ms[i].m] == ms[i].node
  }

  /** Sizes of the arrays, and room for every merge. */
  ghost predicate Room(A: set<nat>, elems: nat, fc: seq<nat>, dl: seq<nat>, depth: seq<nat>, heap: seq<nat>) {
    && |dl| == |fc| <= |depth| && 2 * elems <= |fc| && 2 * elems < |heap| && |A| <= elems
    && forall i :: 0 <= i < |depth| ==> depth[i] < 256
  }

  /** In the middle of the merging. */
  ghost predicate Merging(A: set<nat>, elems: nat, fc: seq<nat>, dl: seq<nat>, depth: seq<nat>, heap: seq<nat>,
                          heapLen: nat, ms: seq<Merge>, R: set<nat>) {
    && Room(A, elems, fc, dl, depth, heap) && Growing(A, elems, ms) && Greedy(A, fc, ms) && RootsAre(A, ms, R)
    && HeapOf(Keys(fc, depth), heap, heapLen, R) && heapLen + |ms| == |A|
    && Kept(heap, ms) && Dads(dl, ms, |ms|) && Sum(R, fc) < MAX_TOTAL && Heights(A, fc, depth, ms) && Weighty(A, fc)
  }

  ghost predicate Weighty(A: set<nat>, fc: seq<nat>) {
    forall x {:trigger x in A} :: x in A ==> x < |fc| && fc[x] >= 1
  }

  /** R are the nodes without a father after all the merges. */
  ghost predicate RootsAre(A: set<nat>, ms: seq<Merge>, R: set<nat>) {
    forall i {:trigger Roots(A, ms, i)} :: i == |ms| ==> R == Roots(A, ms, i)
  }

  /** pqremove */
  method PqRemove(heap: array<nat>, heapLen: nat, fc: array<nat>, depth: array<nat>, ghost R: set<nat>)
    returns (top: nat)
    requires heap != fc && heap != depth && depth.Length >= fc.Length
    requires (forall i :: 0 <= i < depth.Length ==> depth[i] < 256)
    requires HeapOf(Keys(fc[..], depth[..]), heap[..], heapLen, R) && heapLen >= 2
    modifies heap
    ensures top == old(heap[1]) && HeapOf(Keys(fc[..], depth[..]), heap[..], heapLen - 1, R - {top})
    ensures heap[..][heapLen..] == old(heap[..][heapLen..])
  {
    ghost var key, h := Keys(fc[..], depth[..]), heap[..];
    Removed(key, h, heapLen, R);
    top := heap[1];
    heap[1] := heap[heapLen];
    assert heap[..] == h[1 := h[heapLen]];
    PqDownHeap(heap, heapLen - 1, 1, fc, depth);
  }

  /** The node takes the first place of the heap. */
  method PqReplace(heap: array<nat>, heapLen: nat, fc: array<nat>, depth: array<nat>, node: nat, ghost R: set<nat>,
                   ghost R': set<nat>, ghost key: seq<nat>)
    requires heap != fc && heap != depth && depth.Length >= fc.Length
    requires (forall i :: 0 <= i < depth.Length ==> depth[i] < 256)
    requires HeapOf(key, heap[..], heapLen, R) && heapLen >= 1 && node !in R && node < |key| == fc.Length
    requires R' == R - {heap[1]} + {node}
    requires forall x :: 0 <= x < |key| && x != node ==> Keys(fc[..], depth[..])[x] == key[x]
    modifies heap
    ensures HeapOf(Keys(fc[..], depth[..]), heap[..], heapLen, R')
    ensures heap[..][heapLen + 1..] == old(heap[..][heapLen + 1..])
  {
    ghost var key', h := Keys(fc[..], depth[..]), heap[..];
    Replaced(key, key', h, heapLen, R, node);
    heap[1] := node;
    assert heap[..] == h[1 := node];
    PqDownHeap(heap, heapLen, 1, fc, depth);
  }

  /** The father of n and m. */
  method MakeFather(fc: array<nat>, dl: array<nat>, depth: array<nat>, n: nat, m: nat, node: nat)
    requires fc != dl && fc != depth && dl != depth && n < fc.Length == dl.Length <= depth.Length && m < fc.Length
    requires node < fc.Length
    requires n != node && m != node && fc[n] + fc[m] < MAX_TOTAL && depth[n] < 255 && depth[m] < 255
    modifies fc, dl, depth
    ensures fc[..] == old(fc[..])[node := old(fc[n]) + old(fc[m])]
    ensures dl[..] == old(dl[..])[n := node][m := node]
    ensures depth[..] == old(depth[..])[node := 1 + Larger(old(depth[n]), old(depth[m]))]
  {
    fc[node] := (fc[n] + fc[m]) % MAX_TOTAL;
    depth[node] := ((if depth[n] >= depth[m] then depth[n] else depth[m]) + 1) % 256;
    dl[n] := node;
    dl[m] := node;
  }

  lemma {:induction false} HeapFrame(key: seq<nat>, h: seq<nat>, h': seq<nat>, len: nat, R: set<nat>)
    requires HeapOf(key, h, len, R) && |h'| == |h| && h'[..len + 1] == h[..len + 1]
    ensures HeapOf(key, h', len, R)
  {
    assert forall i :: 0 <= i <= len ==> h'[i] == h'[..len + 1][i] == h[i];
    assert h'[1..len + 1] == h'[..len + 1][1..] == h[..len + 1][1..] == h[1..len + 1];
    forall p | 1 <= p <= len && p != 0
      ensures Dominates(key, h', len, p)
    {
      assert Dominates(key, h, len, p);
    }
  }

  /** The two nodes removed are the two lightest roots, and the lowest of these. */
  lemma {:induction false} LeastTwo(fc: seq<nat>, depth: seq<nat>, h: seq<nat>, len: nat, h': seq<nat>, R: set<nat>)
    requires |depth| >= |fc| && forall i :: 0 <= i < |depth| ==> depth[i] < 256
    requires HeapOf(Keys(fc, depth), h, len, R) && len >= 2 && HeapOf(Keys(fc, depth), h', len - 1, R - {h[1]})
    ensures Lightest(R, fc, h[1], h'[1]) && Lowest(R, fc, depth, h[1], h'[1])
  {
    var key, n, m := Keys(fc, depth), h[1], h'[1];
    IsMember(h, len, R, 1);
    IsMember(h', len - 1, R - {n}, 1);
    forall x | x in R
      ensures x < |fc| && fc[n] <= fc[x] && (x != n ==> fc[m] <= fc[x])
      ensures (fc[x] == fc[n] ==> depth[n] <= depth[x]) && (x != n && fc[x] == fc[m] ==> depth[m] <= depth[x])
    {
      FirstLeast(key, h, len, R, x);
      if x != n { FirstLeast(key, h', len - 1, R - {n}, x); }
    }
  }

  /** The heap array with the last two sons put in front of the earlier ones. */
  lemma {:induction false} KeptMore(heap: seq<nat>, heap': seq<nat>, ms: seq<Merge>, g: Merge)
    requires Kept(heap, ms) && |heap'| == |heap| && 2 * |ms| + 2 <= |heap|
    requires heap'[|heap| - 2 * |ms|..] == heap[|heap| - 2 * |ms|..]
    requires heap'[|heap| - 1 - 2 * |ms|] == g.n && heap'[|heap| - 2 - 2 * |ms|] == g.m
    ensures Kept(heap', ms + [g])
  {
    var k, ms' := |heap| - 2 * |ms|, ms + [g];
    forall i | 0 <= i < |ms'|
      ensures KeptAt(heap', ms', i)
    {
      if i < |ms| {
        assert KeptAt(heap, ms, i);
        assert heap'[k..][|heap| - 1 - 2 * i - k] == heap[k..][|heap| - 1 - 2 * i - k];
        assert heap'[k..][|heap| - 2 - 2 * i - k] == heap[k..][|heap| - 2 - 2 * i - k];
      }
    }
  }

  lemma {:induction false} DadsMore(A: set<nat>, elems: nat, dl: seq<nat>, ms: seq<Merge>, g: Merge, R: set<nat>)
    requires Growing(A, elems, ms) && RootsAre(A, ms, R) && Dads(dl, ms, |ms|) && g.n in R && g.m in R && g.n < |dl|
    requires g.m < |dl|
    ensures Dads(dl[g.n := g.node][g.m := g.node], ms + [g], |ms| + 1)
  {
    var dl', ms' := dl[g.n := g.node][g.m := g.node], ms + [g];
    assert R == Roots(A, ms, |ms|);
    forall i | 0 <= i < |ms'|
      ensures DadAt(dl', ms', i)
    {
      if i < |ms| {
        assert DadAt(dl, ms, i);
        SonsGone(A, elems, ms, i, |ms|);
      }
    }
  }

  lemma {:induction false} TotalKept(R: set<nat>, fc: seq<nat>, n: nat, m: nat, node: nat)
    requires n in R && m in R && n != m && node !in R && n < |fc| && m < |fc| && node < |fc|
    ensures Sum(R - {n, m} + {node}, fc[node := fc[n] + fc[m]]) == Sum(R, fc) && fc[n] + fc[m] <= Sum(R, fc)
  {
    SumMerge(R, fc, n, m, node, fc[n] + fc[m]);
    var f := fc[node := fc[n] + fc[m]];
    SumToMember(R - {n, m} + {node}, f, |f|, node);
  }

  /** Room for one more merge, and its father. */
  lemma {:induction false} MoreRoom(A: set<nat>, elems: nat, fc: seq<nat>, dl: seq<nat>, depth: seq<nat>,
                                    heap: seq<nat>, heapLen: nat, ms: seq<Merge>, R: set<nat>)
    requires Merging(A, elems, fc, dl, depth, heap, heapLen, ms, R) && heapLen >= 2
    ensures elems + |ms| < |fc| && heapLen + 2 < |heap| - 2 * |ms| && elems + |ms| !in R
  {
    assert R == Roots(A, ms, |ms|);
    RootsBelow(A, elems, ms, |ms|);
  }

  /** Takes the two least frequent nodes off the heap and keeps them at the end of the array. */
  method TakeTwo(heap: array<nat>, heapLen: nat, heapMax: nat, fc: array<nat>, depth: array<nat>, ghost R: set<nat>)
    returns (n: nat, m: nat)
    requires heap != fc && heap != depth && depth.Length >= fc.Length
    requires (forall i :: 0 <= i < depth.Length ==> depth[i] < 256)
    requires HeapOf(Keys(fc[..], depth[..]), heap[..], heapLen, R) && 2 <= heapLen
    requires heapLen + 2 < heapMax <= heap.Length
    modifies heap
    ensures Lightest(R, fc[..], n, m) && Lowest(R, fc[..], depth[..], n, m)
    ensures heap[1] == m && HeapOf(Keys(fc[..], depth[..]), heap[..], heapLen - 1, R - {n})
    ensures heap[..][heapMax..] == old(heap[..])[heapMax..] && heap[heapMax - 1] == n && heap[heapMax - 2] == m
  {
    ghost var h := heap[..];
    n := PqRemove(heap, heapLen, fc, depth, R);
    ghost var h1 := heap[..];
    LeastTwo(fc[..], depth[..], h, heapLen, h1, R);
    m := heap[1];
    heap[heapMax - 1] := n;
    heap[heapMax - 2] := m;
    HeapFrame(Keys(fc[..], depth[..]), h1, heap[..], heapLen - 1, R - {n});
    assert heap[..][heapMax..] == h1[heapMax..] == h1[heapLen..][heapMax - heapLen..]
        == h[heapLen..][heapMax - heapLen..];
  }

  ghost predicate Apart(heap: array<nat>, fc: array<nat>, dl: array<nat>, depth: array<nat>) {
    heap != fc && heap != dl && heap != depth && fc != dl && fc != depth && dl != depth
  }

  /** The nodes n and m have been taken off the heap h, which left h1. */
  ghost predicate HalfMerged(A: set<nat>, elems: nat, w: seq<nat>, d: seq<nat>, f: seq<nat>, h: seq<nat>, heapLen: nat,
                             ms: seq<Merge>, R: set<nat>,
                             n: nat, m: nat, h1: seq<nat>) {
    && Merging(A, elems, w, d, f, h, heapLen, ms, R) && Lightest(R, w, n, m) && Lowest(R, w, f, n, m) && heapLen >= 2
    && elems + |ms| < |w| && elems + |ms| !in R && |h1| == |h| && heapLen + 2 < |h| - 2 * |ms|
    && h1[1] == m && HeapOf(Keys(w, f), h1, heapLen - 1, R - {n})
    && h1[|h| - 2 * |ms|..] == h[|h| - 2 * |ms|..] && h1[|h| - 1 - 2 * |ms|] == n && h1[|h| - 2 - 2 * |ms|] == m
  }

  /** Makes the father of n and m and puts it into the heap in place of m. */
  method JoinTwo(heap: array<nat>, heapLen: nat, fc: array<nat>, dl: array<nat>, depth: array<nat>, n: nat, m: nat,
                 node: nat,
                 ghost R: set<nat>, ghost R': set<nat>)
    requires Apart(heap, fc, dl, depth) && n < fc.Length == dl.Length <= depth.Length && m < fc.Length
    requires node < fc.Length
    requires n != node && m != node && fc[n] + fc[m] < MAX_TOTAL && depth[n] < 32 && depth[m] < 32
    requires (forall i :: 0 <= i < depth.Length ==> depth[i] < 256)
    requires HeapOf(Keys(fc[..], depth[..]), heap[..], heapLen, R) && heapLen >= 1 && heap[1] == m && node !in R
    requires R' == R - {m} + {node}
    modifies heap, fc, dl, depth
    ensures Joined(old(fc[..]), old(dl[..]), old(depth[..]), old(heap[..]), heapLen, Merge(n, m, node), fc[..], dl[..],
                   depth[..],
                   heap[..], R', R)
  {
    ghost var key := Keys(fc[..], depth[..]);
    ghost var f := depth[..];
    MakeFather(fc, dl, depth, n, m, node);
    forall i | 0 <= i < depth.Length ensures depth[i] < 256 {
      assert depth[..][i] == f[node := 1 + Larger(f[n], f[m])][i];
    }
    PqReplace(heap, heapLen, fc, depth, node, R, R', key);
  }

  /** One merge. */
  method MergeOne(heap: array<nat>, heapLen: nat, heapMax: nat, fc: array<nat>, dl: array<nat>, depth: array<nat>,
                  node: nat,
                  ghost A: set<nat>, ghost elems: nat, ghost ms: seq<Merge>, ghost R: set<nat>)
    returns (ghost g: Merge, ghost R': set<nat>)
    requires Apart(heap, fc, dl, depth) && heapLen >= 2 && heapMax == heap.Length - 2 * |ms| && node == elems + |ms|
    requires Merging(A, elems, fc[..], dl[..], depth[..], heap[..], heapLen, ms, R)
    modifies heap, fc, dl, depth
    ensures Merging(A, elems, fc[..], dl[..], depth[..], heap[..], heapLen - 1, ms + [g], R')
    ensures node < fc.Length && fc[..] == old(fc[..])[node := fc[node]]
    ensures g.n < dl.Length && g.m < dl.Length && dl[..] == old(dl[..])[g.n := node][g.m := node]
  {
    ghost var w, d, h, f := fc[..], dl[..], heap[..], depth[..];
    MoreRoom(A, elems, w, d, f, h, heapLen, ms, R);
    var n, m := TakeTwo(heap, heapLen, heapMax, fc, depth, R);
    g := Merge(n, m, node);
    R' := FinishMerge(heap, heapLen, fc, dl, depth, n, m, node, A, elems, ms, R, h);
  }

  /** The second half of a merge, after n and m were taken off the heap h. */
  method FinishMerge(heap: array<nat>, heapLen: nat, fc: array<nat>, dl: array<nat>, depth: array<nat>, n: nat, m: nat,
                     node: nat,
                     ghost A: set<nat>, ghost elems: nat, ghost ms: seq<Merge>, ghost R: set<nat>, ghost h: seq<nat>)
    returns (ghost R': set<nat>)
    requires Apart(heap, fc, dl, depth) && node == elems + |ms|
    requires HalfMerged(A, elems, fc[..], dl[..], depth[..], h, heapLen, ms, R, n, m, heap[..])
    modifies heap, fc, dl, depth
    ensures Merging(A, elems, fc[..], dl[..], depth[..], heap[..], heapLen - 1, ms + [Merge(n, m, node)], R')
    ensures n < fc.Length && m < fc.Length && fc[..] == old(fc[..])[node := fc[node]]
    ensures dl[..] == old(dl[..])[n := node][m := node]
  {
    ghost var w, d, f, h1, g := fc[..], dl[..], depth[..], heap[..], Merge(n, m, node);
    JointFits(A, elems, ms, R, w, n, m, node);
    LowSons(A, elems, ms, R, w, f, n, m);
    R' := R - {n} - {m} + {node};
    JoinTwo(heap, heapLen - 1, fc, dl, depth, n, m, node, R - {n}, R');
    MergedOnce(A, elems, w, d, f, h, heapLen, ms, g, h1, R, fc[..], dl[..], depth[..], heap[..], R');
  }

  lemma {:induction false} JointFits(A: set<nat>, elems: nat, ms: seq<Merge>, R: set<nat>, w: seq<nat>, n: nat, m: nat,
                                     node: nat)
    requires Growing(A, elems, ms) && RootsAre(A, ms, R) && Lightest(R, w, n, m) && node == elems + |ms| < |w|
    requires node !in R && Sum(R, w) < MAX_TOTAL
    ensures n < node && m < node && w[n] + w[m] < MAX_TOTAL
  {
    assert R == Roots(A, ms, |ms|);
    RootsBelow(A, elems, ms, |ms|);
    TotalKept(R, w, n, m, node);
  }

  lemma {:induction false} LowSons(A: set<nat>, elems: nat, ms: seq<Merge>, R: set<nat>, w: seq<nat>, f: seq<nat>,
                                   n: nat, m: nat)
    requires Growing(A, elems, ms) && Greedy(A, w, ms) && Heights(A, w, f, ms) && RootsAre(A, ms, R) && Weighty(A, w)
    requires Lightest(R, w, n, m) && Sum(R, w) < MAX_TOTAL
    ensures n < |f| && f[n] < 32 && m < |f| && f[m] < 32
  {
    assert R == Roots(A, ms, |ms|);
    HeightsSmall(A, elems, w, f, ms, n);
    HeightsSmall(A, elems, w, f, ms, m);
  }

  /** The heights after a merge. */
  lemma {:induction false} NewHeights(A: set<nat>, elems: nat, w: seq<nat>, f: seq<nat>, ms: seq<Merge>, g: Merge,
                                      R: set<nat>)
    requires Growing(A, elems, ms) && g.node == elems + |ms| < |w| <= |f| && RootsAre(A, ms, R) && Weighty(A, w)
    requires Lightest(R, w, g.n, g.m) && Lowest(R, w, f, g.n, g.m) && Heights(A, w, f, ms)
    ensures var w', f' := w[g.node := w[g.n] + w[g.m]], f[g.node := 1 + Larger(f[g.n], f[g.m])];
            Heights(A, w', f', ms + [g]) && Weighty(A, w')
  {
    assert R == Roots(A, ms, |ms|);
    GrowHeights(A, elems, w, f, ms, g, w[g.n] + w[g.m]);
  }

  /** The roots after a merge. */
  lemma {:induction false} NewRoots(A: set<nat>, elems: nat, w: seq<nat>, ms: seq<Merge>, g: Merge, R: set<nat>,
                                    R': set<nat>)
    requires Growing(A, elems, ms) && Greedy(A, w, ms) && g.node == elems + |ms| < |w| && RootsAre(A, ms, R)
    requires Lightest(R, w, g.n, g.m)
    requires g.node !in R && R' == R - {g.n} - {g.m} + {g.node}
    ensures RootsAre(A, ms + [g], R')
    ensures Growing(A, elems, ms + [g]) && Greedy(A, w[g.node := w[g.n] + w[g.m]], ms + [g])
    ensures Sum(R', w[g.node := w[g.n] + w[g.m]]) == Sum(R, w)
  {
    assert R == Roots(A, ms, |ms|);
    GrowOne(A, elems, w, ms, g, w[g.n] + w[g.m]);
    TotalKept(R, w, g.n, g.m, g.node);
    assert R' == R - {g.n, g.m} + {g.node};
  }

  /** What the pieces of a merge add up to. */
  lemma {:induction false} MergedOnce(A: set<nat>, elems: nat, w: seq<nat>, d: seq<nat>, f: seq<nat>, h: seq<nat>,
                                      heapLen: nat, ms: seq<Merge>, g: Merge,
                   h1: seq<nat>, R: set<nat>, w': seq<nat>, d': seq<nat>, f': seq<nat>, h2: seq<nat>, R': set<nat>)
    requires HalfMerged(A, elems, w, d, f, h, heapLen, ms, R, g.n, g.m, h1) && g.node == elems + |ms|
    requires |f'| == |f| && Joined(w, d, f, h1, heapLen - 1, g, w', d', f', h2, R', R - {g.n})
    ensures Merging(A, elems, w', d', f', h2, heapLen - 1, ms + [g], R')
  {
    assert g.n in R && g.m in R;
    NewRoots(A, elems, w, ms, g, R, R');
    NewHeights(A, elems, w, f, ms, g, R);
    DadsMore(A, elems, d, ms, g, R);
    FarKept(h, h1, h2, heapLen, ms, g);
  }

  /** The father has been made and put into the heap. */
  ghost predicate Joined(w: seq<nat>, d: seq<nat>, f: seq<nat>, h: seq<nat>, len: nat, g: Merge, w': seq<nat>,
                         d': seq<nat>, f': seq<nat>, h': seq<nat>, R': set<nat>, R: set<nat>) {
    && g.node < |w| && g.n < |w| && g.m < |w| == |d| <= |f| == |f'| && len < |h| == |h'|
    && w' == w[g.node := w[g.n] + w[g.m]] && d' == d[g.n := g.node][g.m := g.node]
    && f' == f[g.node := 1 + Larger(f[g.n], f[g.m])] && (forall i :: 0 <= i < |f'| ==> f'[i] < 256)
    && R' == R - {g.m} + {g.node} && HeapOf(Keys(w', f'), h', len, R') && h'[len + 1..] == h[len + 1..]
  }

  lemma {:induction false} FarKept(h: seq<nat>, h1: seq<nat>, h2: seq<nat>, heapLen: nat, ms: seq<Merge>, g: Merge)
    requires |h1| == |h| == |h2| && Kept(h, ms) && heapLen + 2 < |h| - 2 * |ms|
    requires h1[|h| - 2 * |ms|..] == h[|h| - 2 * |ms|..] && h2[heapLen..] == h1[heapLen..]
    requires h1[|h| - 1 - 2 * |ms|] == g.n && h1[|h| - 2 - 2 * |ms|] == g.m
    ensures Kept(h2, ms + [g])
  {
    var k := |h| - 2 * |ms|;
    assert forall i :: heapLen <= i < |h| ==>
        h2[i] == h2[heapLen..][i - heapLen] == h1[heapLen..][i - heapLen] == h1[i];
    assert h2[k..] == h1[k..];
    KeptMore(h, h2, ms, g);
  }

  /** A son is a leaf in use or a node made before. */
  lemma {:induction false} SonsAreLeavesOrNodes(A: set<nat>, elems: nat, ms: seq<Merge>, g: Merge)
    requires Growing(A, elems, ms + [g])
    ensures (g.n in A || g.n >= elems) && (g.m in A || g.m >= elems)
  {
    assert FamilyAt(A, elems, ms + [g], |ms|);
    RootsFrom(A, elems, ms + [g], |ms|);
  }

  lemma {:induction false} RootsFrom(A: set<nat>, elems: nat, ms: seq<Merge>, i: nat)
    requires Growing(A, elems, ms) && i <= |ms|
    ensures forall x {:trigger x in Roots(A, ms, i)} :: x in Roots(A, ms, i) ==> x in A || x >= elems
  {
    if i != 0 {
      RootsFrom(A, elems, ms, i - 1);
      assert FamilyAt(A, elems, ms, i - 1);
    }
  }

  /** Merges until one root is left. */
  method MergeAll(heap: array<nat>, heapLen: nat, fc: array<nat>, dl: array<nat>, depth: array<nat>, elems: nat,
                  ghost A: set<nat>)
    returns (heapMax: nat, ghost ms: seq<Merge>, ghost R: set<nat>)
    requires Apart(heap, fc, dl, depth) && heapLen >= 2
    requires Merging(A, elems, fc[..], dl[..], depth[..], heap[..], heapLen, [], A)
    modifies heap, fc, dl, depth
    ensures Merging(A, elems, fc[..], dl[..], depth[..], heap[..], 1, ms, R) && heapMax == heap.Length - 2 * |ms|
    ensures forall x :: 0 <= x < elems ==> fc[x] == old(fc[x]) && (x !in A ==> dl[x] == old(dl[x]))
  {
    ms, R := [], A;
    heapMax := heap.Length;
    var node, len := elems, heapLen;
    while len >= 2
      invariant 1 <= len && heapMax == heap.Length - 2 * |ms| && node == elems + |ms|
      invariant Merging(A, elems, fc[..], dl[..], depth[..], heap[..], len, ms, R)
      invariant forall x :: 0 <= x < elems ==> fc[x] == old(fc[x]) && (x !in A ==> dl[x] == old(dl[x]))
    {
      ghost var g;
      g, R := MergeOne(heap, len, heapMax, fc, dl, depth, node, A, elems, ms, R);
      SonsAreLeavesOrNodes(A, elems, ms, g);
      ms, heapMax, node, len := ms + [g], heapMax - 2, node + 1, len - 1;
    }
  }

  // ----- the initial heap -----

  /** The symbols below n that are in use. */
  ghost function Used(fc: seq<nat>, n: nat): (A: set<nat>)
    requires n <= |fc|
    ensures forall x {:trigger x in A} :: x in A <==> 0 <= x < n && fc[x] != 0
  {
    if n == 0 then {} else if fc[n - 1] != 0 then Used(fc, n - 1) + {n - 1} else Used(fc, n - 1)
  }

  /** Positions 1 to len hold exactly the members of A, maxCode the greatest of them. */
  ghost predicate Collected(heap: seq<nat>, len: nat, A: set<nat>, maxCode: int) {
    && len < |heap| && |A| == len && multiset(heap[1..len + 1]) == multiset(A)
    && (if A == {} then maxCode == -1 else maxCode >= 0 && maxCode in A)
       && (forall x {:trigger x in A} :: x in A ==> x <= maxCode)
  }

  lemma {:induction false} CollectOne(heap: seq<nat>, len: nat, A: set<nat>, maxCode: int, n: nat, maxCode': int)
    requires Collected(heap, len, A, maxCode) && n !in A && len + 1 < |heap|
    requires (maxCode' == if n > maxCode then n else maxCode)
    ensures Collected(heap[len + 1 := n], len + 1, A + {n}, maxCode')
  {
    var h := heap[len + 1 := n];
    assert h[1..len + 2] == heap[1..len + 1] + [n];
    assert multiset(A + {n}) == multiset(A) + multiset{n};
  }

  ghost predicate AllBytes(depth: seq<nat>) {
    forall i :: 0 <= i < |depth| ==> depth[i] < 256
  }

  /** The depths fit bytes, and those of A are zero. */
  ghost predicate Flat(A: set<nat>, depth: seq<nat>) {
    AllBytes(depth) && forall x {:trigger x in A} :: x in A ==> x < |depth| && depth[x] == 0
  }

  /** One more node at the end of the heap. */
  method Enter(heap: array<nat>, depth: array<nat>, heapLen: nat, n: nat, ghost A: set<nat>, ghost maxCode: int,
               ghost maxCode': int)
    requires heap != depth && n < depth.Length && Flat(A, depth[..])
    requires Collected(heap[..], heapLen, A, maxCode) && n !in A && heapLen + 1 < heap.Length
    requires (maxCode' == if n > maxCode then n else maxCode)
    modifies heap, depth
    ensures Collected(heap[..], heapLen + 1, A + {n}, maxCode') && Flat(A + {n}, depth[..])
  {
    CollectOne(heap[..], heapLen, A, maxCode, n, maxCode');
    heap[heapLen + 1] := n;
    depth[n] := 0;
  }

  /** A symbol in use goes into the heap, another one gets length zero. */
  method CollectNode(heap: array<nat>, fc: array<nat>, dl: array<nat>, depth: array<nat>, n: nat, heapLen: nat,
                     ghost A: set<nat>, ghost maxCode: int)
    requires Apart(heap, fc, dl, depth) && n < fc.Length == dl.Length <= depth.Length && heapLen + 1 < heap.Length
    requires Collected(heap[..], heapLen, A, maxCode) && n !in A && maxCode < n && Flat(A, depth[..])
    requires Unused(fc[..], dl[..], n)
    modifies heap, dl, depth
    ensures if fc[n] != 0 then Collected(heap[..], heapLen + 1, A + {n}, n) && Flat(A + {n}, depth[..])
            else Collected(heap[..], heapLen, A, maxCode) && Flat(A, depth[..])
    ensures Unused(fc[..], dl[..], n + 1)
  {
    if fc[n] != 0 {
      Enter(heap, depth, heapLen, n, A, maxCode, n);
    } else {
      dl[n] := 0;
    }
  }

  /** The symbols in use go into the heap, the others get length zero. */
  method Collect(heap: array<nat>, fc: array<nat>, dl: array<nat>, depth: array<nat>, elems: nat)
    returns (heapLen: nat, maxCode: int)
    requires Apart(heap, fc, dl, depth) && elems <= fc.Length == dl.Length <= depth.Length && elems < heap.Length
    requires AllBytes(depth[..])
    modifies heap, dl, depth
    ensures Collected(heap[..], heapLen, Used(fc[..], elems), maxCode) && heapLen <= elems && maxCode < elems
    ensures Flat(Used(fc[..], elems), depth[..])
    ensures Unused(fc[..], dl[..], elems)
  {
    heapLen, maxCode := 0, -1;
    ghost var w := fc[..];
    ghost var A: set<nat> := {};
    var n := 0;
    while n < elems
      invariant heapLen <= n <= elems && fc[..] == w && UsedBelow(w, n, A) && Collected(heap[..], heapLen, A, maxCode)
      invariant maxCode < n && Flat(A, depth[..])
      invariant Unused(w, dl[..], n)
    {
      UsedStep(w, n, A);
      CollectNode(heap, fc, dl, depth, n, heapLen, A, maxCode);
      if fc[n] != 0 {
        heapLen, maxCode, A := heapLen + 1, n, A + {n};
      }
      n := n + 1;
    }
    assert A == Used(w, elems);
  }

  ghost predicate UsedBelow(fc: seq<nat>, n: nat, A: set<nat>) {
    n <= |fc| && forall m {:trigger Used(fc, m)} :: m == n ==> A == Used(fc, m)
  }

  lemma {:induction false} UsedStep(fc: seq<nat>, n: nat, A: set<nat>)
    requires n < |fc| && UsedBelow(fc, n, A)
    ensures n !in A && UsedBelow(fc, n + 1, if fc[n] != 0 then A + {n} else A)
  {
    assert A == Used(fc, n);
  }

  /** The symbols below n that are not in use have length zero. */
  ghost predicate Unused(fc: seq<nat>, dl: seq<nat>, n: nat) {
    n <= |fc| && |dl| == |fc| && forall x :: 0 <= x < n && fc[x] == 0 ==> dl[x] == 0
  }

  /** The frequencies with those of the forced codes set to one. */
  ghost predicate Forced(fc: seq<nat>, fc': seq<nat>, F: set<nat>) {
    |fc'| == |fc| && forall x :: 0 <= x < |fc| ==> fc'[x] == if x in F then 1 else fc[x]
  }

  /** The codes F have been forced into use besides those of A0, which makes A. */
  ghost predicate ForcedCodes(A0: set<nat>, F: set<nat>, A: set<nat>, len0: nat, len: nat) {
    A == A0 + F && A0 !! F && F <= {0, 1, 2} && len == len0 + |F| && (F != {} ==> len <= 2)
  }

  /** Forces codes into use, so that there are at least two. */
  method Force(heap: array<nat>, fc: array<nat>, depth: array<nat>, elems: nat, heapLen0: nat, maxCode0: int,
               stree: seq<nat>, optLen0: int, staticLen0: int, ghost A0: set<nat>)
    returns (heapLen: nat, maxCode: nat, optLen: int, staticLen: int, ghost F: set<nat>, ghost A: set<nat>)
    requires heap != fc && heap != depth && fc != depth && 3 <= elems <= fc.Length <= depth.Length
    requires elems < heap.Length && heapLen0 <= elems
    requires Collected(heap[..], heapLen0, A0, maxCode0) && (stree == [] || |stree| >= 3) && maxCode0 < elems
    requires Flat(A0, depth[..])
    modifies heap, fc, depth
    ensures Collected(heap[..], heapLen, A, maxCode) && 2 <= heapLen <= elems && maxCode < elems
    ensures ForcedCodes(A0, F, A, heapLen0, heapLen) && Forced(old(fc[..]), fc[..], F) && Flat(A, depth[..])
    ensures optLen == optLen0 - |F| && staticLen == staticLen0 - Sum(F, stree)
    ensures F == ForcedOf(heapLen0, maxCode0) && (2 in F <==> heapLen0 == 1 && maxCode0 == 1)
  {
    heapLen, optLen, staticLen, F, A := heapLen0, optLen0, staticLen0, {}, A0;
    ghost var before := fc[..];
    var max := maxCode0;
    SumToEmpty(stree, |stree|);
    while heapLen < 2
      invariant heapLen <= elems && max < elems && Collected(heap[..], heapLen, A, max) && Flat(A, depth[..])
      invariant ForcedCodes(A0, F, A, heapLen0, heapLen) && Forced(before, fc[..], F)
      invariant optLen == optLen0 - |F| && staticLen == staticLen0 - Sum(F, stree)
      invariant ForcedSoFar(heapLen0, maxCode0, heapLen, max, F)
    {
      ghost var max0 := max;
      var node;
      node, max := ForceNode(heap, fc, depth, heapLen, max, elems, heapLen0, stree, A0, F, A, before);
      ForcedNext(heapLen0, maxCode0, heapLen, max0, F);
      optLen := optLen - 1;
      if stree != [] {
        staticLen := staticLen - stree[node];
      }
      heapLen, F, A := heapLen + 1, F + {node}, A + {node};
    }
    ForcedEnd(heapLen0, maxCode0, heapLen, max, F);
    maxCode := max;
  }

  /** Forces one code into use. */
  method ForceNode(heap: array<nat>, fc: array<nat>, depth: array<nat>, heapLen: nat, max: int, elems: nat,
                   ghost heapLen0: nat, ghost stree: seq<nat>, ghost A0: set<nat>, ghost F: set<nat>, ghost A: set<nat>,
                   ghost before: seq<nat>)
    returns (node: nat, max': int)
    requires heap != fc && heap != depth && fc != depth && 3 <= elems <= fc.Length <= depth.Length
    requires elems < heap.Length && heapLen < 2 && max < elems && (stree == [] || |stree| >= 3)
    requires Collected(heap[..], heapLen, A, max) && Flat(A, depth[..])
    requires ForcedCodes(A0, F, A, heapLen0, heapLen) && Forced(before, fc[..], F)
    modifies heap, fc, depth
    ensures node == (if max < 2 then max + 1 else 0) && max' == (if max < 2 then node else max) && max' < elems
    ensures Collected(heap[..], heapLen + 1, A + {node}, max') && Flat(A + {node}, depth[..])
    ensures ForcedCodes(A0, F + {node}, A + {node}, heapLen0, heapLen + 1) && Forced(before, fc[..], F + {node})
    ensures |F + {node}| == |F| + 1 && node <= 2
    ensures Sum(F + {node}, stree) == Sum(F, stree) + if stree == [] then 0 else stree[node]
  {
    node := if max < 2 then max + 1 else 0;
    NewCode(A, heapLen, max, node);
    Enter(heap, depth, heapLen, node, A, max, if node > max then node else max);
    ForceOne(A0, F, A, heapLen0, heapLen, node, stree, before, fc[..]);
    fc[node] := 1;
    max' := if max < 2 then node else max;
  }

  /** The codes that are forced when len symbols are in use, the greatest being max: 0 and 1 when there are none,
      else the symbol after the only one if that is below 2, and else 0. */
  function ForcedOf(len: nat, max: int): set<nat> {
    if len >= 2 then {} else if len == 0 then {0, 1} else if max == 0 then {1} else if max == 1 then {2} else {0}
  }

  ghost predicate ForcedSoFar(len0: nat, max0: int, len: nat, max: int, F: set<nat>) {
    && (len0 == 0 <==> max0 == -1) && max0 >= -1
    && if len0 >= 2 then len == len0 && F == {}
       else if len0 == 1 then (len == 1 && F == {} && max == max0) || (len == 2 && F == ForcedOf(len0, max0))
       else (len == 0 && F == {} && max == -1) || (len == 1 && F == {0} && max == 0) || (len == 2 && F == {0, 1})
  }

  lemma {:induction false} ForcedNext(len0: nat, max0: int, len: nat, max: int, F: set<nat>)
    requires ForcedSoFar(len0, max0, len, max, F) && len < 2
    ensures max >= -1
    ensures var node: nat := if max < 2 then max + 1 else 0;
            ForcedSoFar(len0, max0, len + 1, if max < 2 then node else max, F + {node})
  {
  }

  lemma {:induction false} ForcedEnd(len0: nat, max0: int, len: nat, max: int, F: set<nat>)
    requires ForcedSoFar(len0, max0, len, max, F) && len >= 2
    ensures F == ForcedOf(len0, max0) && (2 in F <==> len0 == 1 && max0 == 1)
  {
  }

  lemma {:induction false} ForceOne(A0: set<nat>, F: set<nat>, A: set<nat>, len0: nat, len: nat, node: nat,
                                    stree: seq<nat>, fc0: seq<nat>, fc: seq<nat>)
    requires ForcedCodes(A0, F, A, len0, len) && len < 2 && node !in A && node <= 2 && (stree == [] || |stree| >= 3)
    requires Forced(fc0, fc, F) && node < |fc|
    ensures ForcedCodes(A0, F + {node}, A + {node}, len0, len + 1) && |F + {node}| == |F| + 1
    ensures Sum(F + {node}, stree) == Sum(F, stree) + if stree == [] then 0 else stree[node]
    ensures Forced(fc0, fc[node := 1], F + {node})
  {
    ForceSets(A0, F, A, node);
    ForceFreq(fc0, fc, F, node);
    if stree != [] { SumAdd(F, stree, node); }
  }

  lemma {:induction false} ForceSets(A0: set<nat>, F: set<nat>, A: set<nat>, node: nat)
    requires A == A0 + F && A0 !! F && F <= {0, 1, 2} && node !in A && node <= 2
    ensures A + {node} == A0 + (F + {node}) && A0 !! (F + {node}) && F + {node} <= {0, 1, 2} && node !in F
  {
  }

  lemma {:induction false} ForceFreq(fc0: seq<nat>, fc: seq<nat>, F: set<nat>, node: nat)
    requires Forced(fc0, fc, F) && node < |fc|
    ensures Forced(fc0, fc[node := 1], F + {node})
  {
  }

  lemma {:induction false} NewCode(A: set<nat>, len: nat, max: int, node: nat)
    requires |A| == len < 2 && node == (if max < 2 then max + 1 else 0)
    requires (if A == {} then max == -1 else max >= 0 && max in A)
    requires (forall x {:trigger x in A} :: x in A ==> x <= max)
    ensures node !in A && node <= 2
  {
    if max >= 2 && 0 in A {
      TwoMembers(A, 0, max);
    }
  }

  /** Establishes the heap, from the last node with sons to the first. */
  method Heapify(heap: array<nat>, heapLen: nat, fc: array<nat>, depth: array<nat>, ghost A: set<nat>)
    requires heap != fc && heap != depth && depth.Length >= fc.Length && AllBytes(depth[..]) && heapLen < heap.Length
    requires multiset(heap[1..heapLen + 1]) == multiset(A) && forall x {:trigger x in A} :: x in A ==> x < fc.Length
    modifies heap
    ensures HeapOf(Keys(fc[..], depth[..]), heap[..], heapLen, A)
  {
    ghost var key, h0 := Keys(fc[..], depth[..]), heap[..];
    MembersAreNodes(key, h0, heapLen, A);
    assert h0[1..heapLen + 1] == heap[1..heapLen + 1];
    var n := heapLen / 2;
    while n >= 1
      invariant 0 <= n <= heapLen / 2 && Nodes(key, heap[..], heapLen) && IsHeap(key, heap[..], heapLen, n + 1)
      invariant multiset(heap[..][1..heapLen + 1]) == multiset(A)
    {
      ghost var h := heap[..];
      SiftHeap(key, h, heapLen, n, n);
      SiftNodes(key, h, heapLen, n);
      PqDownHeap(heap, heapLen, n, fc, depth);
      n := n - 1;
    }
  }

  lemma {:induction false} MembersAreNodes(key: seq<nat>, h: seq<nat>, len: nat, A: set<nat>)
    requires len < |h| && multiset(h[1..len + 1]) == multiset(A) && forall x {:trigger x in A} :: x in A ==> x < |key|
    ensures Nodes(key, h, len)
  {
    forall i | 1 <= i <= len
      ensures h[i] < |key|
    {
      IsMember(h, len, A, i);
    }
  }
}
