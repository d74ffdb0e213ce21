/** What scan_tree and send_tree make of each run of equal lengths. */
module RunForms {
  import opened Bits
  import opened Canonical
  import opened RunLengths

  /** r lengths of zero: 138 at a time, then the rest in one code if there are at least three. */
  function ZeroOps(r: nat): seq<Op> {
    if r >= 138 then [ManyZeros(138)] + ZeroOps(r - 138)
    else if r >= 11 then [ManyZeros(r)]
    else if r >= 3 then [Zeros(r)]
    else Ones(0, r)
  }

  /** r repetitions of the length v before: six at a time, then the rest in one code if there are at least three. */
  function AgainOps(v: nat, r: nat): seq<Op> {
    if r >= 6 then [Again(6)] + AgainOps(v, r - 6)
    else if r >= 3 then [Again(r)]
    else Ones(v, r)
  }

  function Ones(v: nat, r: nat): (ops: seq<Op>)
    ensures |ops| == r && forall i :: 0 <= i < r ==> ops[i] == One(v)
  {
    seq(r, _ => One(v))
  }

  /** The codes of a whole run of r lengths v: a length other than zero is sent once and then repeated. */
  function RunOps(v: nat, r: nat): seq<Op> {
    if v == 0 then ZeroOps(r) else if r == 0 then [] else [One(v)] + AgainOps(v, r - 1)
  }

  /** How many lengths from n on are the same. */
  function RunFrom(lens: seq<nat>, n: nat): (r: nat)
    requires n < |lens|
    ensures 1 <= r && n + r <= |lens|
    decreases |lens| - n
  {
    if n + 1 < |lens| && lens[n + 1] == lens[n] then 1 + RunFrom(lens, n + 1) else 1
  }

  /** These are all the same, and the next one is not. */
  lemma {:induction false} RunIs(lens: seq<nat>, n: nat, i: nat)
    requires n < |lens| && n <= i < n + RunFrom(lens, n)
    ensures lens[i] == lens[n] && (n + RunFrom(lens, n) < |lens| ==> lens[n + RunFrom(lens, n)] != lens[n])
    decreases |lens| - n
  {
    if RunFrom(lens, n) > 1 { RunIs(lens, n + 1, if i == n then n + 1 else i); }
  }

  /** The codes of all runs from n on. */
  function ByRuns(lens: seq<nat>, n: nat): seq<Op>
    requires n <= |lens|
    decreases |lens| - n
  {
    if n == |lens| then [] else var r := RunFrom(lens, n); RunOps(lens[n], r) + ByRuns(lens, n + r)
  }

  /** The codes for r lengths that are the rest of a run, of which some have been counted. */
  function RestOps(v: nat, run: Run, r: nat): seq<Op> {
    if v != 0 && run.prevlen == v then AgainOps(v, run.count + r) else RunOps(v, run.count + r)
  }

  /** The codes of a run in progress are those of all its lengths together. */
  lemma {:induction false} RunSent(lens: seq<nat>, n: nat, run: Run)
    requires ValidLens(lens) && n < |lens| && run == NewRun(run.prevlen, lens[n]).(count := run.count)
    requires run.count < run.maxCount
    ensures OpsFrom(lens, n, run) ==
              RestOps(lens[n], run, RunFrom(lens, n))
              + OpsFrom(lens, n + RunFrom(lens, n), AfterRun(lens, n + RunFrom(lens, n)))
    decreases |lens| - n
  {
    var v, count, r := lens[n], run.count + 1, RunFrom(lens, n);
    if r > 1 && count < run.maxCount {
      GoesOn(lens, n, run);
      RunSent(lens, n + 1, run.(count := count));
      SameRest(v, run, r);
    } else {
      IsSent(lens, n, run);
      if r > 1 {
        RunSent(lens, n + 1, NewRun(v, v));
        FullRun(v, run, r);
        Join(Emit(v, count, run.minCount, run.prevlen), RestOps(v, NewRun(v, v), r - 1),
             OpsFrom(lens, n + r, AfterRun(lens, n + r)));
      } else {
        LastOfRun(v, run);
      }
    }
  }

  lemma {:induction false} GoesOn(lens: seq<nat>, n: nat, run: Run)
    requires n < |lens| && RunFrom(lens, n) > 1 && run.count + 1 < run.maxCount
    ensures OpsFrom(lens, n, run) == OpsFrom(lens, n + 1, run.(count := run.count + 1))
    ensures RunFrom(lens, n + 1) == RunFrom(lens, n) - 1
  {
  }

  lemma {:induction false} IsSent(lens: seq<nat>, n: nat, run: Run)
    requires ValidLens(lens) && n < |lens| && run.count < run.maxCount
    requires RunFrom(lens, n) == 1 || run.count + 1 == run.maxCount
    ensures OpsFrom(lens, n, run) ==
              Emit(lens[n], run.count + 1, run.minCount, run.prevlen)
              + OpsFrom(lens, n + 1, NewRun(lens[n], NextLen(lens, n)))
    ensures RunFrom(lens, n) > 1 ==> RunFrom(lens, n + 1) == RunFrom(lens, n) - 1 && NextLen(lens, n) == lens[n]
  {
  }

  lemma {:induction false} SameRest(v: nat, run: Run, r: nat)
    requires r >= 1
    ensures RestOps(v, run.(count := run.count + 1), r - 1) == RestOps(v, run, r)
  {
  }

  /** The run that starts at n, after a different length or none. */
  function AfterRun(lens: seq<nat>, n: nat): Run
    requires n <= |lens|
  {
    NewRun(if n == 0 then -1 else lens[n - 1], if n < |lens| then lens[n] else GUARD)
  }

  lemma {:induction false} Join(a: seq<Op>, b: seq<Op>, c: seq<Op>)
    ensures a + (b + c) == (a + b) + c
  {
  }

  /** A run at its greatest count is sent, and the rest follows. */
  lemma {:induction false} FullRun(v: nat, run: Run, r: nat)
    requires run == NewRun(run.prevlen, v).(count := run.count) && run.count + 1 == run.maxCount && r >= 1
    ensures RestOps(v, run, r) == Emit(v, run.count + 1, run.minCount, run.prevlen) + RestOps(v, NewRun(v, v), r - 1)
  {
  }

  /** A run that ends is sent as a whole. */
  lemma {:induction false} LastOfRun(v: nat, run: Run)
    requires run == NewRun(run.prevlen, v).(count := run.count) && run.count < run.maxCount
    ensures RestOps(v, run, 1) == Emit(v, run.count + 1, run.minCount, run.prevlen)
  {
    var c := run.count + 1;
    if c < run.minCount && run.minCount == 4 { assert [One(v)] + Ones(v, c - 1) == Ones(v, c); }
    if c < run.minCount { assert Ones(v, c) == Emit(v, c, run.minCount, run.prevlen); }
    assert AgainOps(v, 0) == Ones(v, 0) == [] && ZeroOps(0) == Ones(0, 0) == [];
  }

  /** The codes sent for a tree are those of its runs, one after the other. */
  lemma {:induction false} OpsByRuns(lens: seq<nat>, n: nat)
    requires ValidLens(lens) && n <= |lens| && (0 < n < |lens| ==> lens[n - 1] != lens[n])
    ensures OpsFrom(lens, n, AfterRun(lens, n)) == ByRuns(lens, n)
    decreases |lens| - n
  {
    if n < |lens| {
      WholeRun(lens, n);
      RunIs(lens, n, n + RunFrom(lens, n) - 1);
      OpsByRuns(lens, n + RunFrom(lens, n));
    }
  }

  /** A run from its start on. */
  lemma {:induction false} WholeRun(lens: seq<nat>, n: nat)
    requires ValidLens(lens) && n < |lens| && (n > 0 ==> lens[n - 1] != lens[n])
    ensures var r := RunFrom(lens, n);
            OpsFrom(lens, n, AfterRun(lens, n)) == RunOps(lens[n], r) + OpsFrom(lens, n + r, AfterRun(lens, n + r))
  {
    RunSent(lens, n, AfterRun(lens, n));
  }

  /** So with all the codes of a tree. */
  lemma {:induction false} TreeByRuns(lens: seq<nat>)
    requires ValidLens(lens) && lens != []
    ensures Ops(lens) == ByRuns(lens, 0)
  {
    OpsByRuns(lens, 0);
  }
}
