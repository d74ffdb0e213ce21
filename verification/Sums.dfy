/** Sums over finite sets of indices. */
module Sums {

  /** The sum of f over the members of A below n. */
  function SumTo(A: set<nat>, f: seq<int>, n: nat): int
    requires n <= |f|
  {
    if n == 0 then 0 else SumTo(A, f, n - 1) + (if n - 1 in A then f[n - 1] else 0)
  }

  /** The sum of f over A. */
  function Sum(A: set<nat>, f: seq<int>): int {
    SumTo(A, f, |f|)
  }

  lemma {:induction false} SumToUpdate(A: set<nat>, f: seq<int>, n: nat, i: nat, v: int)
    requires n <= |f| && i < |f|
    ensures SumTo(A, f[i := v], n) == SumTo(A, f, n) + if i in A && i < n then v - f[i] else 0
  {
    if n != 0 { SumToUpdate(A, f, n - 1, i, v); }
  }

  lemma {:induction false} SumUpdate(A: set<nat>, f: seq<int>, i: nat, v: int)
    requires i < |f|
    ensures Sum(A, f[i := v]) == Sum(A, f) + if i in A then v - f[i] else 0
  {
    SumToUpdate(A, f, |f|, i, v);
  }

  lemma {:induction false} SumToAdd(A: set<nat>, f: seq<int>, n: nat, i: nat)
    requires n <= |f| && i < |f| && i !in A
    ensures SumTo(A + {i}, f, n) == SumTo(A, f, n) + if i < n then f[i] else 0
  {
    if n != 0 { SumToAdd(A, f, n - 1, i); }
  }

  lemma {:induction false} SumAdd(A: set<nat>, f: seq<int>, i: nat)
    requires i < |f| && i !in A
    ensures Sum(A + {i}, f) == Sum(A, f) + f[i]
  {
    SumToAdd(A, f, |f|, i);
  }

  lemma {:induction false} SumRemove(A: set<nat>, f: seq<int>, i: nat)
    requires i < |f| && i in A
    ensures Sum(A - {i}, f) == Sum(A, f) - f[i]
  {
    assert (A - {i}) + {i} == A;
    SumAdd(A - {i}, f, i);
  }

  /** Only the values on A matter. */
  lemma {:induction false} SumToSame(A: set<nat>, f: seq<int>, g: seq<int>, n: nat)
    requires n <= |f| && n <= |g| && forall i :: 0 <= i < n && i in A ==> f[i] == g[i]
    ensures SumTo(A, f, n) == SumTo(A, g, n)
  {
    if n != 0 { SumToSame(A, f, g, n - 1); }
  }

  lemma {:induction false} SumToBound(A: set<nat>, f: seq<int>, g: seq<int>, n: nat)
    requires n <= |f| && n <= |g| && forall i :: 0 <= i < n && i in A ==> f[i] <= g[i]
    ensures SumTo(A, f, n) <= SumTo(A, g, n)
  {
    if n != 0 { SumToBound(A, f, g, n - 1); }
  }

  /** A single member's value is at most the sum of values that are not negative. */
  lemma {:induction false} SumToMember(A: set<nat>, f: seq<int>, n: nat, i: nat)
    requires n <= |f| && forall j :: 0 <= j < n && j in A ==> f[j] >= 0
    ensures SumTo(A, f, n) >= 0 && (i < n && i in A ==> SumTo(A, f, n) >= f[i])
  {
    if n != 0 { SumToMember(A, f, n - 1, i); }
  }

  lemma {:induction false} SumToEmpty(f: seq<int>, n: nat)
    requires n <= |f|
    ensures SumTo({}, f, n) == 0
  {
    if n != 0 { SumToEmpty(f, n - 1); }
  }

  lemma {:induction false} SumSingle(f: seq<int>, i: nat)
    requires i < |f|
    ensures Sum({i}, f) == f[i]
  {
    SumToEmpty(f, |f|);
    assert {} + {i} == {i};
    SumAdd({}, f, i);
  }

  lemma {:induction false} SumToEven(A: set<nat>, f: seq<int>, n: nat)
    requires n <= |f| && forall i :: 0 <= i < n && i in A ==> f[i] % 2 == 0
    ensures SumTo(A, f, n) % 2 == 0
  {
    if n != 0 { SumToEven(A, f, n - 1); }
  }

  /** Two members are replaced by one. */
  lemma {:induction false} SumMerge(A: set<nat>, f: seq<int>, n: nat, m: nat, node: nat, v: int)
    requires n in A && m in A && n != m && node !in A && n < |f| && m < |f| && node < |f|
    ensures Sum(A - {n, m} + {node}, f[node := v]) == Sum(A, f) - f[n] - f[m] + v
  {
    var g := f[node := v];
    SumToSame(A, g, f, |f|);
    SumRemove(A, g, n);
    SumRemove(A - {n}, g, m);
    assert A - {n} - {m} == A - {n, m};
    SumAdd(A - {n, m}, g, node);
  }

  lemma {:induction false} SumToSplit(A: set<nat>, P: set<nat>, Q: set<nat>, f: seq<int>, n: nat)
    requires n <= |f| && A == P + Q && P !! Q
    ensures SumTo(A, f, n) == SumTo(P, f, n) + SumTo(Q, f, n)
  {
    if n != 0 { SumToSplit(A, P, Q, f, n - 1); }
  }
}
