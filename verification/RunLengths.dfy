/** Run-length codes for code lengths (section 3.2.7 of RFC 1951): scan_tree and send_tree. */
module RunLengths {
  import opened Options
  import opened Bits
  import opened Canonical
  import opened CodeGen
  import opened BitWriter
  import opened Tokens

  const REP_3_6 := 16
  const REPZ_3_10 := 17
  const REPZ_11_138 := 18
  const BL_CODES := 19
  const GUARD := 0xffff

  /** One code of the bit length alphabet with its repeat count: a length, the previous length
      3 to 6 times, 3 to 10 zeros, or 11 to 138 zeros. */
  datatype Op = One(len: nat) | Again(n: nat) | Zeros(n: nat) | ManyZeros(n: nat)

  ghost predicate ValidOp(op: Op) {
    match op
    case One(len) => len <= MAX_BITS
    case Again(n) => 3 <= n <= 6
    case Zeros(n) => 3 <= n <= 10
    case ManyZeros(n) => 11 <= n <= 138
  }

  function Code(op: Op): nat {
    match op case One(len) => len case Again(_) => REP_3_6 case Zeros(_) => REPZ_3_10 case ManyZeros(_) => REPZ_11_138
  }

  /** n copies of a length. */
  function Copies(len: nat, n: nat): (r: seq<nat>)
    ensures |r| == n && forall i :: 0 <= i < n ==> r[i] == len
  {
    seq(n, _ => len)
  }

  /** The lengths after one more code; none when there is no length to repeat. */
  function Decode(have: seq<nat>, op: Op): Option<seq<nat>> {
    match op
    case One(len) => Some(have + [len])
    case Again(n) => if have == [] then None else Some(have + Copies(have[|have| - 1], n))
    case Zeros(n) => Some(have + Copies(0, n))
    case ManyZeros(n) => Some(have + Copies(0, n))
  }

  function DecodeAll(have: seq<nat>, ops: seq<Op>): Option<seq<nat>>
    decreases |ops|
  {
    if ops == [] then Some(have) else
    match Decode(have, ops[0]) case None => None case Some(more) => DecodeAll(more, ops[1..])
  }

  lemma {:induction false} DecodeConcat(have: seq<nat>, a: seq<Op>, b: seq<Op>)
    ensures DecodeAll(have, a + b) == match DecodeAll(have, a) case None => None case Some(more) => DecodeAll(more, b)
    decreases |a|
  {
    if a == [] {
      assert a + b == b;
    } else {
      assert (a + b)[1..] == a[1..] + b;
      match Decode(have, a[0])
      case None =>
      case Some(more) => DecodeConcat(more, a[1..], b);
    }
  }

  // ----- the codes that are sent -----

  /** The run in progress: length before it, its count, and the counts at which to emit it. */
  datatype Run = Run(prevlen: int, count: nat, maxCount: nat, minCount: nat)

  /** The codes for `count` lengths curlen. */
  function Emit(curlen: nat, count: nat, minCount: nat, prevlen: int): seq<Op> {
    if count < minCount then seq(count, _ => One(curlen))
    else if curlen != 0 then
      if curlen != prevlen then if count == 0 then [] else [One(curlen), Again(count - 1)] else [Again(count)]
    else if count <= 10 then [Zeros(count)] else [ManyZeros(count)]
  }

  /** The run that starts after the length curlen with the length nextlen. */
  function NewRun(prevlen: int, nextlen: nat): Run {
    if nextlen == 0 then Run(prevlen, 0, 138, 3)
    else if prevlen == nextlen then Run(prevlen, 0, 6, 3)
    else Run(prevlen, 0, 7, 4)
  }

  /** The codes for the lengths from n on, with a run in progress. */
  function OpsFrom(lens: seq<nat>, n: nat, run: Run): seq<Op>
    requires n <= |lens|
    decreases |lens| - n
  {
    if n == |lens| then [] else
    var curlen, nextlen, count := lens[n], NextLen(lens, n), run.count + 1;
    if count < run.maxCount && curlen == nextlen then OpsFrom(lens, n + 1, run.(count := count))
    else Emit(curlen, count, run.minCount, run.prevlen) + OpsFrom(lens, n + 1, NewRun(curlen, nextlen))
  }

  function NextLen(lens: seq<nat>, n: nat): nat
    requires n < |lens|
  {
    if n + 1 < |lens| then lens[n + 1] else GUARD
  }

  /** All the codes for the lengths. */
  function Ops(lens: seq<nat>): seq<Op>
    requires lens != []
  {
    OpsFrom(lens, 0, NewRun(-1, lens[0]))
  }

  /** A run in progress at n: its lengths are equal and the counts are those of its start. */
  ghost predicate InRun(lens: seq<nat>, n: nat, run: Run) {
    && n <= |lens| && run.count <= n
    && (n < |lens| ==>
         && (forall i :: n - run.count <= i < n ==> lens[i] == lens[n])
         && run.prevlen == (if n == run.count then -1 else lens[n - run.count - 1])
         && run == NewRun(run.prevlen, lens[n]).(count := run.count)
         && run.count < run.maxCount)
    && (n == |lens| ==> run.count == 0)
  }

  lemma {:induction false} RunEmits(lens: seq<nat>, n: nat, run: Run)
    requires ValidLens(lens) && n < |lens| && InRun(lens, n, run)
    ensures var ops := Emit(lens[n], run.count + 1, run.minCount, run.prevlen);
            && DecodeAll(lens[..n - run.count], ops) == Some(lens[..n + 1])
            && AllValid(ops)
  {
    var count, curlen, have := run.count + 1, lens[n], lens[..n - run.count];
    assert lens[..n + 1] == have + Copies(curlen, count);
    var ops := Emit(curlen, count, run.minCount, run.prevlen);
    if count < run.minCount {
      OnesDecode(have, curlen, count, ops);
    } else if curlen != 0 && curlen != run.prevlen {
      var one := have + [curlen];
      assert one[|one| - 1] == curlen && one + Copies(curlen, count - 1) == have + Copies(curlen, count);
      assert ops == [One(curlen), Again(count - 1)];
      assert ops[1..] == [Again(count - 1)] && ops[1..][1..] == [];
      assert DecodeAll(one, ops[1..]) == DecodeAll(have + Copies(curlen, count), []);
    } else {
      assert ops[1..] == [];
    }
  }

  lemma {:induction false} OnesDecode(have: seq<nat>, len: nat, n: nat, ops: seq<Op>)
    requires |ops| == n && forall i :: 0 <= i < n ==> ops[i] == One(len)
    ensures DecodeAll(have, ops) == Some(have + Copies(len, n))
    decreases n
  {
    if n == 0 {
      assert have + Copies(len, 0) == have;
    } else {
      OnesDecode(have + [len], len, n - 1, ops[1..]);
      assert have + [len] + Copies(len, n - 1) == have + Copies(len, n);
    }
  }

  ghost predicate AllValid(ops: seq<Op>) {
    forall i :: 0 <= i < |ops| ==> ValidOp(ops[i])
  }

  /** The run at the next length, whether it goes on or starts anew. */
  lemma {:induction false} NextRun(lens: seq<nat>, n: nat, run: Run)
    requires ValidLens(lens) && n < |lens| && InRun(lens, n, run)
    ensures lens[n] == NextLen(lens, n) && run.count + 1 < run.maxCount
            ==> InRun(lens, n + 1, run.(count := run.count + 1))
    ensures InRun(lens, n + 1, NewRun(lens[n], NextLen(lens, n)))
  {
  }

  lemma {:induction false} EmitFirst(lens: seq<nat>, n: nat, run: Run, rest: seq<Op>)
    requires ValidLens(lens) && n < |lens| && InRun(lens, n, run) && DecodeAll(lens[..n + 1], rest) == Some(lens)
    requires AllValid(rest)
    ensures var ops := Emit(lens[n], run.count + 1, run.minCount, run.prevlen) + rest;
            DecodeAll(lens[..n - run.count], ops) == Some(lens) && AllValid(ops)
  {
    RunEmits(lens, n, run);
    DecodeConcat(lens[..n - run.count], Emit(lens[n], run.count + 1, run.minCount, run.prevlen), rest);
  }

  /** The codes sent from a run on decode to all the lengths. */
  lemma {:induction false} OpsDecode(lens: seq<nat>, n: nat, run: Run)
    requires ValidLens(lens) && InRun(lens, n, run)
    ensures DecodeAll(lens[..n - run.count], OpsFrom(lens, n, run)) == Some(lens) && AllValid(OpsFrom(lens, n, run))
    decreases |lens| - n
  {
    if n == |lens| {
      assert lens[..n] == lens;
    } else {
      NextRun(lens, n, run);
      var curlen, nextlen, count := lens[n], NextLen(lens, n), run.count + 1;
      if count < run.maxCount && curlen == nextlen {
        OpsDecode(lens, n + 1, run.(count := count));
      } else {
        var run' := NewRun(curlen, nextlen);
        OpsDecode(lens, n + 1, run');
        assert lens[..n + 1 - run'.count] == lens[..n + 1];
        EmitFirst(lens, n, run, OpsFrom(lens, n + 1, run'));
      }
    }
  }

  /** The codes of two trees, sent one after the other, decode to the lengths of both. */
  lemma {:induction false} TwoTrees(a: seq<nat>, b: seq<nat>)
    requires ValidLens(a) && ValidLens(b) && a != [] && b != []
    ensures DecodeAll([], Ops(a) + Ops(b)) == Some(a + b) && AllValid(Ops(a) + Ops(b))
  {
    OpsDecode(a, 0, NewRun(-1, a[0]));
    OpsDecode(b, 0, NewRun(-1, b[0]));
    DecodeConcat([], Ops(a), Ops(b));
    assert a[..0] == [] && b[..0] == [] && a + [] == a;
    DecodeAfter(a, [], Ops(b), b);
  }

  /** Codes that decode from nothing decode to the same lengths after others. */
  lemma {:induction false} DecodeAfter(pre: seq<nat>, have: seq<nat>, ops: seq<Op>, lens: seq<nat>)
    requires DecodeAll(have, ops) == Some(lens)
    ensures DecodeAll(pre + have, ops) == Some(pre + lens)
    decreases |ops|
  {
    if ops != [] {
      var more := Decode(have, ops[0]).value;
      DecodeOneAfter(pre, have, ops[0]);
      DecodeAfter(pre, more, ops[1..], lens);
    }
  }

  lemma {:induction false} DecodeOneAfter(pre: seq<nat>, have: seq<nat>, op: Op)
    requires Decode(have, op).Some?
    ensures Decode(pre + have, op) == Some(pre + Decode(have, op).value)
  {
    match op
    case One(len) => assert pre + have + [len] == pre + (have + [len]);
    case Again(n) =>
      var c := Copies(have[|have| - 1], n);
      assert (pre + have)[|pre + have| - 1] == have[|have| - 1];
      assert pre + have + c == pre + (have + c);
    case Zeros(n) => assert pre + have + Copies(0, n) == pre + (have + Copies(0, n));
    case ManyZeros(n) => assert pre + have + Copies(0, n) == pre + (have + Copies(0, n));
  }

  // ----- counting and sending them -----

  /** How often a code is used. */
  function Uses(ops: seq<Op>, c: nat): nat {
    if ops == [] then 0 else (if Code(ops[0]) == c then 1 else 0) + Uses(ops[1..], c)
  }

  lemma {:induction false} UsesConcat(a: seq<Op>, b: seq<Op>, c: nat)
    ensures Uses(a + b, c) == Uses(a, c) + Uses(b, c)
  {
    if a == [] {
      assert a + b == b;
    } else {
      assert (a + b)[1..] == a[1..] + b;
      UsesConcat(a[1..], b, c);
    }
  }

  lemma {:induction false} UsesOnes(ops: seq<Op>, len: nat, c: nat)
    requires forall i :: 0 <= i < |ops| ==> ops[i] == One(len)
    ensures Uses(ops, c) == if c == len then |ops| else 0
  {
    if ops != [] { UsesOnes(ops[1..], len, c); }
  }

  lemma {:induction false} UsesTwo(a: Op, b: Op, c: nat)
    ensures Uses([a], c) == (if Code(a) == c then 1 else 0)
    ensures Uses([a, b], c) == Uses([a], c) + Uses([b], c)
  {
    assert [a, b][1..] == [b] && [a][1..] == [] && [b][1..] == [];
  }

  /** What one run adds to the frequencies. */
  method CountRun(freq: array<nat>, curlen: nat, count: nat, minCount: nat, prevlen: int)
    requires freq.Length >= BL_CODES && curlen <= MAX_BITS && 1 <= count && minCount >= 3
    modifies freq
    ensures forall c :: 0 <= c < BL_CODES ==> freq[c] == old(freq[c]) + Uses(Emit(curlen, count, minCount, prevlen), c)
  {
    ghost var ops := Emit(curlen, count, minCount, prevlen);
    forall c | 0 <= c < BL_CODES
      ensures count < minCount ==> Uses(ops, c) == if c == curlen then count else 0
      ensures count >= minCount && curlen != 0
              ==> Uses(ops, c) == (if c == curlen && curlen != prevlen then 1 else 0) + (if c == REP_3_6 then 1 else 0)
      ensures count >= minCount && curlen == 0
              ==> Uses(ops, c) == if c == (if count <= 10 then REPZ_3_10 else REPZ_11_138) then 1 else 0
    {
      if count < minCount {
        UsesOnes(ops, curlen, c);
      } else {
        UsesTwo(One(curlen), Again(count - 1), c);
        UsesTwo(ops[0], ops[0], c);
        UsesTwo(Again(count - 1), ops[0], c);
      }
    }
    if count < minCount {
      freq[curlen] := freq[curlen] + count;
    } else if curlen != 0 {
      if curlen != prevlen {
        freq[curlen] := freq[curlen] + 1;
      }
      freq[REP_3_6] := freq[REP_3_6] + 1;
    } else if count <= 10 {
      freq[REPZ_3_10] := freq[REPZ_3_10] + 1;
    } else {
      freq[REPZ_11_138] := freq[REPZ_11_138] + 1;
    }
  }

  /** Every code is counted as often as the codes from a run on use it. */
  ghost predicate Counted(freq: seq<nat>, before: seq<nat>, ops: seq<Op>, rest: seq<Op>) {
    && |freq| >= BL_CODES && |before| >= BL_CODES
    && forall c {:trigger freq[c]} :: 0 <= c < BL_CODES ==> freq[c] + Uses(rest, c) == before[c] + Uses(ops, c)
  }

  /** scan_tree: adds the frequencies of the codes that send_tree will use, and sets the guard. */
  method ScanTree(tree: array<nat>, maxCode: nat, freq: array<nat>)
    requires maxCode + 1 < tree.Length && ValidLens(tree[..maxCode + 1]) && freq.Length >= BL_CODES && tree != freq
    modifies tree, freq
    ensures tree[..maxCode + 1] == old(tree[..maxCode + 1]) && tree[maxCode + 1] == GUARD
    ensures forall i :: maxCode + 1 < i < tree.Length ==> tree[i] == old(tree[i])
    ensures forall c :: 0 <= c < BL_CODES ==> freq[c] == old(freq[c]) + Uses(Ops(old(tree[..maxCode + 1])), c)
  {
    ghost var lens, before := tree[..maxCode + 1], freq[..];
    var nextlen, run := tree[0], NewRun(-1, tree[0]);
    tree[maxCode + 1] := GUARD;
    assert tree[..maxCode + 1] == lens;
    var n := 0;
    while n <= maxCode
      invariant n <= maxCode + 1 && tree[..maxCode + 1] == lens && tree[maxCode + 1] == GUARD && nextlen == tree[n]
      invariant forall i :: maxCode + 1 < i < tree.Length ==> tree[i] == old(tree[i])
      invariant InRun(lens, n, run) && Counted(freq[..], before, Ops(lens), OpsFrom(lens, n, run))
    {
      var curlen := nextlen;
      nextlen := tree[n + 1];
      NextRun(lens, n, run);
      n, run := ScanLength(freq, before, lens, n, curlen, nextlen, run);
    }
  }

  /** One turn of scan_tree's loop. */
  method ScanLength(freq: array<nat>, ghost before: seq<nat>, ghost lens: seq<nat>, n: nat, curlen: nat, nextlen: nat,
                    run: Run) returns (n': nat, run': Run)
    requires n < |lens| && ValidLens(lens) && freq.Length >= BL_CODES && curlen == lens[n]
    requires nextlen == NextLen(lens, n) && InRun(lens, n, run)
    requires Counted(freq[..], before, Ops(lens), OpsFrom(lens, n, run))
    modifies freq
    ensures n' == n + 1 && InRun(lens, n', run') && Counted(freq[..], before, Ops(lens), OpsFrom(lens, n', run'))
  {
    NextRun(lens, n, run);
    var count := run.count + 1;
    n' := n + 1;
    if count < run.maxCount && curlen == nextlen {
      run' := run.(count := count);
    } else {
      ghost var old_ := freq[..];
      CountRun(freq, curlen, count, run.minCount, run.prevlen);
      run' := NewRun(curlen, nextlen);
      CountedOn(old_, freq[..], before, Ops(lens), Emit(curlen, count, run.minCount, run.prevlen),
                OpsFrom(lens, n', run'));
    }
  }

  lemma {:induction false} CountedOn(freq: seq<nat>, freq': seq<nat>, before: seq<nat>, ops: seq<Op>, a: seq<Op>,
                                     b: seq<Op>)
    requires Counted(freq, before, ops, a + b) && |freq'| >= BL_CODES
    requires forall c :: 0 <= c < BL_CODES ==> freq'[c] == freq[c] + Uses(a, c)
    ensures Counted(freq', before, ops, b)
  {
    forall c | 0 <= c < BL_CODES
      ensures freq'[c] + Uses(b, c) == before[c] + Uses(ops, c)
    {
      UsesConcat(a, b, c);
      assert freq[c] + Uses(a + b, c) == before[c] + Uses(ops, c);
    }
  }

  /** The number of extra bits after a code. */
  function ExtraBits(c: nat): nat {
    if c == REP_3_6 then 2 else if c == REPZ_3_10 then 3 else if c == REPZ_11_138 then 7 else 0
  }

  /** The value of the extra bits. */
  function ExtraValue(op: Op): nat {
    match op
    case One(_) => 0
    case Again(n) => Excess(n, 3)
    case Zeros(n) => Excess(n, 3)
    case ManyZeros(n) => Excess(n, 11)
  }

  ghost predicate OpCodable(bl: seq<nat>, op: Op) {
    ValidOp(op) && HasCode(bl, Code(op))
  }

  ghost predicate OpsCodable(bl: seq<nat>, ops: seq<Op>) {
    forall i :: 0 <= i < |ops| ==> OpCodable(bl, ops[i])
  }

  function OpBits(bl: seq<nat>, op: Op): seq<bool> {
    if Code(op) < |bl| then CodeString(bl, Code(op)) + Unpack(ExtraValue(op), ExtraBits(Code(op))) else []
  }

  function OpsBits(bl: seq<nat>, ops: seq<Op>): seq<bool> {
    if ops == [] then [] else OpBits(bl, ops[0]) + OpsBits(bl, ops[1..])
  }

  lemma {:induction false} OpsBitsConcat(bl: seq<nat>, a: seq<Op>, b: seq<Op>)
    ensures OpsBits(bl, a + b) == OpsBits(bl, a) + OpsBits(bl, b)
  {
    if a == [] {
      assert a + b == b;
    } else {
      assert (a + b)[1..] == a[1..] + b;
      OpsBitsConcat(bl, a[1..], b);
      Assoc(OpBits(bl, a[0]), OpsBits(bl, a[1..]), OpsBits(bl, b));
    }
  }

  lemma {:induction false} ExtraFits(op: Op)
    requires ValidOp(op)
    ensures ExtraValue(op) < Pow2(ExtraBits(Code(op)))
  {
    assert Pow2(2) == 4 && Pow2(3) == 8;
    assert Pow2(7) == 2 * 2 * 2 * Pow2(4);
  }

  /** A code and its extra bits. */
  method SendOp(w: Writer, tree: Tree, op: Op)
    requires w.Valid() && Coded(tree) && OpCodable(tree.lens, op)
    modifies w
    ensures w.Valid() && w.Sent() == old(w.Sent()) + OpBits(tree.lens, op)
  {
    ghost var s := w.Sent();
    SendCode(w, Code(op), tree);
    ExtraFits(op);
    SendExtra(w, ExtraValue(op), 0, ExtraBits(Code(op)));
    Assoc(s, CodeString(tree.lens, Code(op)), Unpack(ExtraValue(op), ExtraBits(Code(op))));
  }

  /** The codes for one run. */
  method SendRun(w: Writer, tree: Tree, curlen: nat, count: nat, minCount: nat, prevlen: int)
    requires w.Valid() && Coded(tree) && count >= 1 && minCount >= 3
    requires OpsCodable(tree.lens, Emit(curlen, count, minCount, prevlen))
    modifies w
    ensures w.Valid() && w.Sent() == old(w.Sent()) + OpsBits(tree.lens, Emit(curlen, count, minCount, prevlen))
  {
    if count < minCount {
      SendOnes(w, tree, curlen, count);
    } else if curlen != 0 {
      ghost var ops := Emit(curlen, count, minCount, prevlen);
      if curlen != prevlen {
        assert OpCodable(tree.lens, ops[0]) && OpCodable(tree.lens, ops[1]);
        TwoOps(tree.lens, w.Sent(), One(curlen), Again(count - 1));
        SendOp(w, tree, One(curlen));
        SendOp(w, tree, Again(count - 1));
      } else {
        assert OpCodable(tree.lens, ops[0]);
        OneOp(tree.lens, Again(count));
        SendOp(w, tree, Again(count));
      }
    } else {
      var op := if count <= 10 then Zeros(count) else ManyZeros(count);
      assert Emit(curlen, count, minCount, prevlen)[0] == op;
      OneOp(tree.lens, op);
      SendOp(w, tree, op);
    }
  }

  lemma {:induction false} OneOp(bl: seq<nat>, op: Op)
    ensures OpsBits(bl, [op]) == OpBits(bl, op)
  {
    assert [op][1..] == [];
  }

  lemma {:induction false} TwoOps(bl: seq<nat>, s: seq<bool>, a: Op, b: Op)
    ensures (s + OpBits(bl, a)) + OpBits(bl, b) == s + OpsBits(bl, [a, b])
  {
    assert [a, b][1..] == [b];
    OneOp(bl, b);
    Assoc(s, OpBits(bl, a), OpBits(bl, b));
  }

  /** A length, count times. */
  method SendOnes(w: Writer, tree: Tree, curlen: nat, count: nat)
    requires w.Valid() && Coded(tree) && count >= 1 && OpsCodable(tree.lens, seq(count, _ => One(curlen)))
    modifies w
    ensures w.Valid() && w.Sent() == old(w.Sent()) + OpsBits(tree.lens, seq(count, _ => One(curlen)))
  {
    ghost var s := w.Sent();
    assert OpCodable(tree.lens, seq(count, _ => One(curlen))[0]);
    var left := count;
    OnesLeft(tree.lens, s, curlen, 0);
    while left != 0
      invariant left <= count && w.Valid() && w.Sent() == s + OpsBits(tree.lens, seq(count - left, _ => One(curlen)))
    {
      OnesLeft(tree.lens, s, curlen, count - left);
      SendOp(w, tree, One(curlen));
      left := left - 1;
    }
  }

  lemma {:induction false} OnesLeft(bl: seq<nat>, s: seq<bool>, len: nat, n: nat)
    ensures s + OpsBits(bl, seq(0, _ => One(len))) == s
    ensures (s + OpsBits(bl, seq(n, _ => One(len)))) + OpBits(bl, One(len)) == s
            + OpsBits(bl, seq(n + 1, _ => One(len)))
  {
    var a := seq(n, _ => One(len));
    assert seq(n + 1, _ => One(len)) == a + [One(len)];
    OpsBitsConcat(bl, a, [One(len)]);
    OneOp(bl, One(len));
    Assoc(s, OpsBits(bl, a), OpBits(bl, One(len)));
  }

  /** send_tree */
  method SendTree(w: Writer, blTree: Tree, tree: array<nat>, maxCode: nat)
    requires w.Valid() && Coded(blTree) && maxCode + 1 < tree.Length && tree[maxCode + 1] == GUARD
    requires ValidLens(tree[..maxCode + 1]) && OpsCodable(blTree.lens, Ops(tree[..maxCode + 1]))
    modifies w
    ensures w.Valid() && w.Sent() == old(w.Sent()) + OpsBits(blTree.lens, Ops(tree[..maxCode + 1]))
  {
    ghost var lens, s := tree[..maxCode + 1], w.Sent();
    var nextlen, run, n := tree[0], NewRun(-1, tree[0]), 0;
    while n <= maxCode
      invariant n <= maxCode + 1 && nextlen == tree[n]
      invariant SendingTree(w, blTree.lens, s, lens, n, run)
    {
      var curlen := nextlen;
      nextlen := tree[n + 1];
      run := SendLength(w, blTree, s, lens, n, curlen, nextlen, run);
      n := n + 1;
    }
    TreeSent(w.Sent(), blTree.lens, s + OpsBits(blTree.lens, Ops(lens)), lens, n, run);
  }

  /** At the end nothing remains to be sent. */
  lemma {:induction false} TreeSent(sent: seq<bool>, bl: seq<nat>, all: seq<bool>, lens: seq<nat>, n: nat, run: Run)
    requires n == |lens| && ValidLens(lens) && lens != [] && InRun(lens, n, run)
    requires sent + OpsBits(bl, OpsFrom(lens, n, run)) == all
    ensures sent == all
  {
    assert sent + [] == sent;
  }

  /** What has been sent and what remains to be sent are all the codes. */
  ghost predicate SendingTree(w: Writer, bl: seq<nat>, s: seq<bool>, lens: seq<nat>, n: nat, run: Run)
    reads w
  {
    && w.Valid() && lens != [] && ValidLens(lens) && InRun(lens, n, run) && OpsCodable(bl, OpsFrom(lens, n, run))
    && w.Sent() + OpsBits(bl, OpsFrom(lens, n, run)) == s + OpsBits(bl, Ops(lens))
  }

  /** One turn of send_tree's loop. */
  method SendLength(w: Writer, blTree: Tree, ghost s: seq<bool>, ghost lens: seq<nat>, ghost n: nat, curlen: nat,
                    nextlen: nat, run: Run) returns (run': Run)
    requires Coded(blTree) && n < |lens| && curlen == lens[n] && nextlen == NextLen(lens, n)
    requires SendingTree(w, blTree.lens, s, lens, n, run)
    modifies w
    ensures SendingTree(w, blTree.lens, s, lens, n + 1, run')
  {
    NextRun(lens, n, run);
    var count := run.count + 1;
    if count < run.maxCount && curlen == nextlen {
      run' := run.(count := count);
    } else {
      run' := NewRun(curlen, nextlen);
      ghost var a, b := Emit(curlen, count, run.minCount, run.prevlen), OpsFrom(lens, n + 1, run');
      OpsBitsConcat(blTree.lens, a, b);
      CodableParts(blTree.lens, a, b);
      Assoc(w.Sent(), OpsBits(blTree.lens, a), OpsBits(blTree.lens, b));
      SendRun(w, blTree, curlen, count, run.minCount, run.prevlen);
    }
  }

  lemma {:induction false} CodableParts(bl: seq<nat>, a: seq<Op>, b: seq<Op>)
    requires OpsCodable(bl, a + b)
    ensures OpsCodable(bl, a) && OpsCodable(bl, b)
  {
    var ab := a + b;
    forall i | 0 <= i < |a| ensures OpCodable(bl, a[i]) { assert a[i] == ab[i]; }
    forall i | 0 <= i < |b| ensures OpCodable(bl, b[i]) { assert b[i] == ab[|a| + i]; }
  }
}
