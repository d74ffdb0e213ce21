/** The priority queue of build_tree: nodes ordered by frequency, then by depth. */
module Heap {

  /** Frequency and depth as one number. */
  function Key(freq: nat, depth: nat): nat {
    256 * freq + depth
  }

  /** The macro `smaller`. */
  function Smaller(freq: seq<nat>, depth: seq<nat>, n: nat, m: nat): bool
    requires n < |freq| && m < |freq| && |depth| >= |freq|
  {
    freq[n] < freq[m] || (freq[n] == freq[m] && depth[n] <= depth[m])
  }

  function Keys(freq: seq<nat>, depth: seq<nat>): (key: seq<nat>)
    requires |depth| >= |freq|
    ensures |key| == |freq| && forall i :: 0 <= i < |key| ==> key[i] == Key(freq[i], depth[i])
  {
    seq(|freq|, i requires 0 <= i < |freq| => Key(freq[i], depth[i]))
  }

  lemma {:induction false} SmallerKey(freq: seq<nat>, depth: seq<nat>, n: nat, m: nat)
    requires n < |freq| && m < |freq| && |depth| >= |freq| && depth[n] < 256 && depth[m] < 256
    ensures Smaller(freq, depth, n, m) <==> Keys(freq, depth)[n] <= Keys(freq, depth)[m]
  {
  }

  /** Positions 1 to len hold nodes that have a key. */
  ghost predicate Nodes(key: seq<nat>, h: seq<nat>, len: nat) {
    len < |h| && forall i {:trigger h[i]} :: 1 <= i <= len ==> h[i] < |key|
  }

  /** The node at p is no larger than its sons. */
  ghost predicate Dominates(key: seq<nat>, h: seq<nat>, len: nat, p: nat)
    requires Nodes(key, h, len) && 1 <= p <= len
  {
    && (2 * p <= len ==> key[h[p]] <= key[h[2 * p]])
    && (2 * p + 1 <= len ==> key[h[p]] <= key[h[2 * p + 1]])
  }

  /** The heap property from position lo on, except at k. */
  ghost predicate HeapBut(key: seq<nat>, h: seq<nat>, len: nat, lo: nat, k: nat)
    requires Nodes(key, h, len) && lo >= 1
  {
    forall p {:trigger Dominates(key, h, len, p)} :: lo <= p <= len && p != k ==> Dominates(key, h, len, p)
  }

  ghost predicate IsHeap(key: seq<nat>, h: seq<nat>, len: nat, lo: nat)
    requires Nodes(key, h, len) && lo >= 1
  {
    HeapBut(key, h, len, lo, 0)
  }

  /** The father of k is no larger than the sons of k. */
  ghost predicate GrandFather(key: seq<nat>, h: seq<nat>, len: nat, lo: nat, k: nat)
    requires Nodes(key, h, len) && 1 <= k <= len
  {
    forall p {:trigger Father(p, k)} :: lo <= p && 1 <= p && Father(p, k) ==>
      (2 * k <= len ==> key[h[p]] <= key[h[2 * k]]) && (2 * k + 1 <= len ==> key[h[p]] <= key[h[2 * k + 1]])
  }

  predicate Father(p: nat, k: nat) {
    k == 2 * p || k == 2 * p + 1
  }

  function Swap(h: seq<nat>, i: nat, j: nat): (r: seq<nat>)
    requires i < |h| && j < |h|
    ensures |r| == |h|
  {
    h[i := h[j]][j := h[i]]
  }

  /** The smaller son of k. */
  function Son(key: seq<nat>, h: seq<nat>, len: nat, k: nat): (j: nat)
    requires 1 <= k && 2 * k <= len < |h| && forall i :: 1 <= i <= len ==> h[i] < |key|
    ensures Father(k, j) && j <= len
  {
    if 2 * k < len && key[h[2 * k + 1]] <= key[h[2 * k]] then 2 * k + 1 else 2 * k
  }

  /** The node at k, moved down below all smaller ones. */
  function Sift(key: seq<nat>, h: seq<nat>, len: nat, k: nat): (r: seq<nat>)
    requires 1 <= k <= len < |h| && forall i :: 1 <= i <= len ==> h[i] < |key|
    ensures |r| == |h|
    decreases len - k
  {
    if 2 * k > len then h else
    var j := Son(key, h, len, k);
    if key[h[k]] <= key[h[j]] then h else Sift(key, Swap(h, k, j), len, j)
  }

  /** One exchange moves the place where the heap property may fail down. */
  lemma {:induction false} SwapDown(key: seq<nat>, h: seq<nat>, len: nat, lo: nat, k: nat, j: nat)
    requires Nodes(key, h, len) && 1 <= lo <= k <= len && 2 * k <= len && j == Son(key, h, len, k)
    requires key[h[j]] <= key[h[k]]
    requires HeapBut(key, h, len, lo, k) && GrandFather(key, h, len, lo, k)
    ensures Nodes(key, Swap(h, k, j), len) && HeapBut(key, Swap(h, k, j), len, lo, j)
    ensures GrandFather(key, Swap(h, k, j), len, lo, j)
  {
    var r := Swap(h, k, j);
    forall p | lo <= p <= len && p != j
      ensures Dominates(key, r, len, p)
    {
      if p != k {
        assert Dominates(key, h, len, p);
        assert Father(p, k) ==> key[h[p]] <= key[h[j]];
      }
    }
    forall p | lo <= p && 1 <= p && Father(p, j)
      ensures (2 * j <= len ==> key[r[p]] <= key[r[2 * j]]) && (2 * j + 1 <= len ==> key[r[p]] <= key[r[2 * j + 1]])
    {
      assert p == k;
      assert Dominates(key, h, len, j);
    }
  }

  /** Moving a node down restores the heap property and keeps the nodes. */
  lemma {:induction false} SiftHeap(key: seq<nat>, h: seq<nat>, len: nat, lo: nat, k: nat)
    requires Nodes(key, h, len) && 1 <= lo <= k <= len && HeapBut(key, h, len, lo, k) && GrandFather(key, h, len, lo, k)
    ensures Nodes(key, Sift(key, h, len, k), len) && IsHeap(key, Sift(key, h, len, k), len, lo)
    decreases len - k
  {
    if 2 * k <= len {
      var j := Son(key, h, len, k);
      if key[h[k]] <= key[h[j]] {
        assert Dominates(key, h, len, k);
      } else {
        SwapDown(key, h, len, lo, k, j);
        SiftHeap(key, Swap(h, k, j), len, lo, j);
      }
    } else {
      assert Dominates(key, h, len, k);
    }
  }

  /** The same nodes, outside the heap in the same places. */
  ghost predicate SameNodes(h: seq<nat>, r: seq<nat>, len: nat) {
    && |r| == |h| && len < |h| && multiset(r[1..len + 1]) == multiset(h[1..len + 1])
    && r[0] == h[0] && r[len + 1..] == h[len + 1..]
  }

  lemma {:induction false} SwapNodes(h: seq<nat>, len: nat, i: nat, j: nat)
    requires 1 <= i <= len < |h| && 1 <= j <= len
    ensures SameNodes(h, Swap(h, i, j), len)
  {
    var r := Swap(h, i, j);
    var a, b := h[1..len + 1], r[1..len + 1];
    assert b == a[i - 1 := a[j - 1]][j - 1 := a[i - 1]];
    assert r[len + 1..] == h[len + 1..];
  }

  lemma {:induction false} SiftNodes(key: seq<nat>, h: seq<nat>, len: nat, k: nat)
    requires Nodes(key, h, len) && 1 <= k <= len
    ensures SameNodes(h, Sift(key, h, len, k), len)
    decreases len - k
  {
    if 2 * k <= len {
      var j := Son(key, h, len, k);
      if key[h[k]] > key[h[j]] {
        SwapNodes(h, len, k, j);
        SiftNodes(key, Swap(h, k, j), len, j);
      }
    }
  }

  /** The first node of a heap is a smallest one. */
  lemma {:induction false} HeapMin(key: seq<nat>, h: seq<nat>, len: nat, i: nat)
    requires Nodes(key, h, len) && IsHeap(key, h, len, 1) && 1 <= i <= len
    ensures key[h[1]] <= key[h[i]]
  {
    if i > 1 {
      HeapMin(key, h, len, i / 2);
      assert Dominates(key, h, len, i / 2);
    }
  }

  /** The smaller son of the place k, and whether v is smaller than it. */
  method ChooseSon(h: array<nat>, heapLen: nat, k: nat, v: nat, freq: array<nat>, depth: array<nat>,
                   ghost key: seq<nat>) returns (j: nat, stop: bool)
    requires depth.Length >= freq.Length && 1 <= k && 2 * k <= heapLen < h.Length && v < freq.Length
    requires key == Keys(freq[..], depth[..])
    requires Nodes(key, h[..][k := v], heapLen) && forall i :: 0 <= i < depth.Length ==> depth[i] < 256
    ensures j == Son(key, h[..][k := v], heapLen, k) && h[j] < |key| && (stop <==> key[v] <= key[h[j]])
  {
    ghost var g := h[..][k := v];
    j := 2 * k;
    assert h[j] == g[j];
    if j < heapLen {
      assert h[j + 1] == g[j + 1];
      SmallerKey(freq[..], depth[..], h[j + 1], h[j]);
      if Smaller(freq[..], depth[..], h[j + 1], h[j]) {
        j := j + 1;
      }
    }
    SmallerKey(freq[..], depth[..], v, h[j]);
    stop := Smaller(freq[..], depth[..], v, h[j]);
  }

  /** pqdownheap */
  method PqDownHeap(heap: array<nat>, heapLen: nat, k: nat, freq: array<nat>, depth: array<nat>)
    requires heap != freq && heap != depth && depth.Length >= freq.Length && 1 <= k <= heapLen < heap.Length
    requires Nodes(freq[..], heap[..], heapLen) && forall i :: 0 <= i < depth.Length ==> depth[i] < 256
    modifies heap
    ensures heap[..] == Sift(Keys(freq[..], depth[..]), old(heap[..]), heapLen, k)
  {
    ghost var key := Keys(freq[..], depth[..]);
    var v, k', going := heap[k], k, true;
    ghost var g := heap[..];
    while going && 2 * k' <= heapLen
      invariant 1 <= k' <= heapLen && v < freq.Length && Nodes(key, g, heapLen) && heap[..][k' := v] == g
      invariant if going then Sift(key, g, heapLen, k') == Sift(key, old(heap[..]), heapLen, k) else
                  g == Sift(key, old(heap[..]), heapLen, k)
      decreases going, heapLen - k'
    {
      var j, stop := ChooseSon(heap, heapLen, k', v, freq, depth, key);
      if stop {
        going := false;
      } else {
        g := Swap(g, k', j);
        heap[k'] := heap[j];
        k' := j;
      }
    }
    heap[k'] := v;
  }

  // ----- the heap as a set of nodes -----

  /** A heap of exactly the nodes R. */
  ghost predicate HeapOf(key: seq<nat>, h: seq<nat>, len: nat, R: set<nat>) {
    Nodes(key, h, len) && IsHeap(key, h, len, 1) && multiset(h[1..len + 1]) == multiset(R)
  }

  lemma {:induction false} Member(h: seq<nat>, len: nat, R: set<nat>, x: nat) returns (i: nat)
    requires len < |h| && multiset(h[1..len + 1]) == multiset(R) && x in R
    ensures 1 <= i <= len && h[i] == x
  {
    var s := h[1..len + 1];
    assert x in multiset(s);
    var j :| 0 <= j < |s| && s[j] == x;
    i := j + 1;
  }

  lemma {:induction false} IsMember(h: seq<nat>, len: nat, R: set<nat>, i: nat)
    requires 1 <= i <= len < |h| && multiset(h[1..len + 1]) == multiset(R)
    ensures h[i] in R
  {
    assert h[1..len + 1][i - 1] == h[i];
    assert h[i] in multiset(h[1..len + 1]);
  }

  /** The first node is a smallest one. */
  lemma {:induction false} FirstLeast(key: seq<nat>, h: seq<nat>, len: nat, R: set<nat>, x: nat)
    requires HeapOf(key, h, len, R) && x in R
    ensures len >= 1 && h[1] in R && x < |key| && h[1] < |key| && key[h[1]] <= key[x]
  {
    var i := Member(h, len, R, x);
    IsMember(h, len, R, 1);
    HeapMin(key, h, len, i);
  }

  lemma {:induction false} HeapSize(key: seq<nat>, h: seq<nat>, len: nat, R: set<nat>)
    requires HeapOf(key, h, len, R)
    ensures |R| == len
  {
    assert |multiset(h[1..len + 1])| == len;
    assert |multiset(R)| == |R|;
  }

  /** pqremove: the last node takes the first place and is moved down. */
  lemma {:induction false} Removed(key: seq<nat>, h: seq<nat>, len: nat, R: set<nat>)
    requires HeapOf(key, h, len, R) && len >= 2
    ensures Nodes(key, h[1 := h[len]], len - 1)
    ensures HeapOf(key, Sift(key, h[1 := h[len]], len - 1, 1), len - 1, R - {h[1]})
    ensures Sift(key, h[1 := h[len]], len - 1, 1)[len..] == h[len..]
  {
    var g := h[1 := h[len]];
    IsMember(h, len, R, 1);
    var len' := len - 1;
    forall p | 1 <= p <= len' && p != 1
      ensures Dominates(key, g, len', p)
    {
      assert Dominates(key, h, len, p);
    }
    SiftHeap(key, g, len', 1, 1);
    SiftNodes(key, g, len', 1);
    WithoutFirst(h, len, R);
    assert g[len..] == h[len..];
  }

  lemma {:induction false} WithoutFirst(h: seq<nat>, len: nat, R: set<nat>)
    requires 2 <= len < |h| && multiset(h[1..len + 1]) == multiset(R)
    ensures multiset(h[1 := h[len]][1..len]) == multiset(R - {h[1]})
  {
    var s := h[2..len];
    assert h[1..len + 1] == [h[1]] + s + [h[len]];
    assert h[1 := h[len]][1..len] == [h[len]] + s;
    IsMember(h, len, R, 1);
    assert multiset(R - {h[1]}) == multiset(R) - multiset{h[1]};
  }

  /** A new node takes the place of the first one and is moved down. */
  lemma {:induction false} Replaced(key: seq<nat>, key': seq<nat>, h: seq<nat>, len: nat, R: set<nat>, node: nat)
    requires HeapOf(key, h, len, R) && len >= 1 && node !in R && node < |key'| && |key'| == |key|
    requires forall x :: 0 <= x < |key| && x != node ==> key'[x] == key[x]
    ensures Nodes(key', h[1 := node], len) && HeapOf(key', Sift(key', h[1 := node], len, 1), len, R - {h[1]} + {node})
    ensures Sift(key', h[1 := node], len, 1)[len + 1..] == h[len + 1..]
  {
    var g := h[1 := node];
    forall p | 1 <= p <= len && p != 1
      ensures Dominates(key', g, len, p)
    {
      assert Dominates(key, h, len, p);
      NotNode(h, len, R, node, p);
      if 2 * p <= len { NotNode(h, len, R, node, 2 * p); }
      if 2 * p + 1 <= len { NotNode(h, len, R, node, 2 * p + 1); }
    }
    SiftHeap(key', g, len, 1, 1);
    SiftNodes(key', g, len, 1);
    WithNewFirst(h, len, R, node);
    assert g[len + 1..] == h[len + 1..];
  }

  lemma {:induction false} NotNode(h: seq<nat>, len: nat, R: set<nat>, node: nat, p: nat)
    requires 1 <= p <= len < |h| && multiset(h[1..len + 1]) == multiset(R) && node !in R
    ensures h[p] != node
  {
    IsMember(h, len, R, p);
  }

  lemma {:induction false} WithNewFirst(h: seq<nat>, len: nat, R: set<nat>, node: nat)
    requires 1 <= len < |h| && multiset(h[1..len + 1]) == multiset(R) && node !in R
    ensures multiset(h[1 := node][1..len + 1]) == multiset(R - {h[1]} + {node})
  {
    var s := h[2..len + 1];
    assert h[1..len + 1] == [h[1]] + s;
    assert h[1 := node][1..len + 1] == [node] + s;
    IsMember(h, len, R, 1);
    assert multiset(R - {h[1]} + {node}) == multiset(R) - multiset{h[1]} + multiset{node};
  }
}
