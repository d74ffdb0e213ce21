/** The second pass of gen_bitlen is the best that can be done with the counts of lengths it is given. */
module Rearrangement {
  import opened Sums
  import opened Huffman
  import opened BitLengths

  /** Each length occurs as often in c as in l. */
  ghost predicate SameCounts(A: set<nat>, c: seq<nat>, l: seq<nat>) {
    forall b: nat {:trigger Having(c, b)} {:trigger Having(l, b)} :: Sum(A, Having(c, b)) == Sum(A, Having(l, b))
  }

  ghost predicate Inside(A: set<nat>, n: nat) {
    forall x {:trigger x in A} :: x in A ==> x < n
  }

  /** Some member has the length b if any is counted. */
  lemma {:induction false} SomeHas(A: set<nat>, l: seq<nat>, b: nat, n: nat) returns (z: nat)
    requires n <= |l| && SumTo(A, Having(l, b), n) > 0
    ensures z in A && z < n && l[z] == b
  {
    if n - 1 in A && l[n - 1] == b {
      z := n - 1;
    } else {
      z := SomeHas(A, l, b, n - 1);
    }
  }

  lemma {:induction false} IsCounted(A: set<nat>, l: seq<nat>, z: nat)
    requires z in A && z < |l|
    ensures Sum(A, Having(l, l[z])) > 0
  {
    SumToMember(A, Having(l, l[z]), |l|, z);
  }

  /** A member of the same length in the other assignment. */
  lemma {:induction false} Counterpart(A: set<nat>, c: seq<nat>, l: seq<nat>, x: nat) returns (z: nat)
    requires x in A && x < |c| == |l| && SameCounts(A, c, l)
    ensures z in A && z < |l| && l[z] == c[x]
  {
    IsCounted(A, c, x);
    z := SomeHas(A, l, c[x], |l|);
  }

  lemma {:induction false} LightestMember(A: set<nat>, w: seq<nat>) returns (y: nat)
    requires A != {} && Inside(A, |w|)
    ensures y in A && y < |w| && forall x {:trigger x in A} :: x in A ==> w[y] <= w[x]
    decreases A
  {
    y :| y in A;
    var R := A - {y};
    if R != {} {
      var z := LightestMember(R, w);
      assert forall x {:trigger x in A} :: x in A ==> x == y || x in R;
      if w[z] < w[y] { y := z; }
    } else {
      assert forall x {:trigger x in A} :: x in A ==> x == y || x in R;
    }
  }

  /** When lighter members have no shorter codes, some lightest member has a longest one. */
  lemma {:induction false} LightLong(A: set<nat>, w: seq<nat>, c: seq<nat>) returns (m: nat)
    requires A != {} && Inside(A, |w|) && |c| == |w| && LighterLonger(A, w, c)
    ensures m in A && m < |w| && forall x {:trigger x in A} :: x in A ==> w[m] <= w[x] && c[x] <= c[m]
  {
    var y := LightestMember(A, w);
    var x := Huffman.Longest(A, c, DepthBound(c));
    m := if c[y] == c[x] then y else x;
  }

  lemma {:induction false} HavingSet(A: set<nat>, l: seq<nat>, i: nat, v: nat, b: nat)
    requires i in A && i < |l|
    ensures Sum(A, Having(l[i := v], b)) ==
              Sum(A, Having(l, b)) + (if v == b then 1 else 0) - if l[i] == b then 1 else 0
  {
    assert Having(l[i := v], b) == Having(l, b)[i := if v == b then 1 else 0];
    SumUpdate(A, Having(l, b), i, if v == b then 1 else 0);
  }

  /** Exchanging two lengths keeps the counts. */
  lemma {:induction false} CountsSwapped(A: set<nat>, c: seq<nat>, l: seq<nat>, m: nat, z: nat)
    requires SameCounts(A, c, l) && m in A && z in A && m < |l| && z < |l|
    ensures SameCounts(A, c, l[m := l[z]][z := l[m]])
  {
    var l1 := l[m := l[z]];
    var l2 := l1[z := l[m]];
    forall b: nat ensures Sum(A, Having(c, b)) == Sum(A, Having(l2, b)) {
      HavingSet(A, l, m, l[z], b);
      HavingSet(A, l1, z, l[m], b);
    }
  }

  lemma {:induction false} CountsWithout(A: set<nat>, c: seq<nat>, l: seq<nat>, m: nat)
    requires SameCounts(A, c, l) && m in A && m < |c| == |l| && c[m] == l[m]
    ensures SameCounts(A - {m}, c, l)
  {
    forall b: nat ensures Sum(A - {m}, Having(c, b)) == Sum(A - {m}, Having(l, b)) {
      SumRemove(A, Having(c, b), m);
      SumRemove(A, Having(l, b), m);
    }
  }

  lemma {:induction false} CostSwapped(A: set<nat>, w: seq<nat>, l: seq<nat>, m: nat, z: nat)
    requires |w| == |l| && m in A && z in A && m < |l| && z < |l| && w[m] <= w[z] && l[m] <= l[z]
    ensures Cost(A, w, l[m := l[z]][z := l[m]]) <= Cost(A, w, l)
  {
    CostUpdate(A, w, l, m, l[z]);
    CostUpdate(A, w, l[m := l[z]], z, l[m]);
    Exchange(w[m], w[z], l[m], l[z]);
  }

  /** Of all ways to give out the same lengths, giving the longer ones to lighter members costs least. */
  lemma {:induction false} CheapestOrder(A: set<nat>, w: seq<nat>, c: seq<nat>, l: seq<nat>)
    requires |c| == |l| == |w| && Inside(A, |w|) && SameCounts(A, c, l) && LighterLonger(A, w, c)
    ensures Cost(A, w, c) <= Cost(A, w, l)
    decreases A
  {
    if A == {} {
      SumToEmpty(Costs(w, c), |w|);
      SumToEmpty(Costs(w, l), |w|);
    } else {
      var m := LightLong(A, w, c);
      var z := Counterpart(A, c, l, m);
      var x := Counterpart(A, l, c, m);
      assert c[x] <= c[m];
      var l' := l[m := l[z]][z := l[m]];
      CostSwapped(A, w, l, m, z);
      CountsSwapped(A, c, l, m, z);
      CountsWithout(A, c, l', m);
      CheapestOrder(A - {m}, w, c, l');
      SumRemove(A, Costs(w, c), m);
      SumRemove(A, Costs(w, l'), m);
    }
  }

  /** The lengths after the second pass cost least among all with the counts in bl. */
  lemma {:induction false} LengthsCheapest(A: set<nat>, w: seq<nat>, dl: seq<nat>, l: seq<nat>, bl: seq<nat>, L: nat)
    requires |dl| == |l| == |w| && Ordered(A, w, dl) && Counted(A, dl, bl, L) && Counted(A, l, bl, L)
    ensures Cost(A, w, dl) <= Cost(A, w, l)
  {
    assert LighterLonger(A, w, dl);
    forall b: nat ensures Sum(A, Having(dl, b)) == Sum(A, Having(l, b)) {
      if b < |bl| {
        assert CountIs(A, dl, bl, b) && CountIs(A, l, bl, b);
      } else {
        SumToZero(A, Having(dl, b), |dl|);
        SumToZero(A, Having(l, b), |l|);
      }
    }
    CheapestOrder(A, w, dl, l);
  }
}
