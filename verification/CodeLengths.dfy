/** The state CODELENS of inflate: code lengths read back from their run-length codes. */
module CodeLengths {
  import opened Bits
  import opened Canonical
  import opened SubTables
  import opened InflateTable
  import opened Tokens
  import opened BitReader
  import opened Options
  import opened RunLengths
  import opened Decoding

  /** Tables of the code length code, without sub-tables. */
  ghost predicate LengthTables(T: seq<Entry>, bl: seq<nat>, root: nat) {
    Tables(T, CODES, bl, root) && (NoSymbols(bl) || IsMax(bl, root))
  }

  lemma {:induction false} NoLinks(T: seq<Entry>, bl: seq<nat>, root: nat, a: Acc)
    requires LengthTables(T, bl, root)
    ensures Low(a.hold, root) < |T| && !IsLink(T[Low(a.hold, root)])
  {
    AtRoot(T, CODES, bl, root, a);
    var last := T[Low(a.hold, root)];
    if IsLink(last) && !NoSymbols(bl) {
      AtSub(T, CODES, bl, root, a, last);
      var e := T[last.val + SubIndex(a.hold, root, last.op)];
      var w := Ahead(a)[..root + e.bits];
      NoLongCode(bl, root, w, e.(bits := 0));
    }
  }

  lemma {:induction false} NoLongCode(bl: seq<nat>, root: nat, w: seq<bool>, leaf: Entry)
    requires ValidLens(bl) && IsMax(bl, root) && Decoded(CODES, bl, w, leaf)
    ensures |w| <= root
  {
    if s: nat :| SymbolRead(CODES, bl, w, leaf, s) {
      SymbolIsCode(bl, s);
      assert |w| <= root || NoCode(bl, |w|);
    }
  }

  /** What an entry of the code length code says. */
  ghost predicate Means(bl: seq<nat>, w: seq<bool>, here: Entry) {
    && here.val < BL_CODES && (Complete(bl) ==> HasCode(bl, here.val) && w == CodeString(bl, here.val))
    && (NoSymbols(bl) ==> here.val == 0)
  }

  lemma {:induction false} EntryMeans(bl: seq<nat>, w: seq<bool>, here: Entry)
    requires Decoded(CODES, bl, w, here.(bits := 0)) && ValidLens(bl)
    ensures Means(bl, w, here)
  {
    if s: nat :| SymbolRead(CODES, bl, w, here.(bits := 0), s) { HasSymbol(bl, s); }
  }

  /** The string v is the end of u. */
  ghost predicate EndsWith(u: seq<bool>, v: seq<bool>) {
    |v| <= |u| && u[|u| - |v|..] == v
  }

  lemma {:induction false} EndOf(u: seq<bool>, w: seq<bool>, v: seq<bool>)
    requires u == w + v
    ensures EndsWith(u, v)
  {
  }

  lemma {:induction false} EndOfEnd(u: seq<bool>, v: seq<bool>, w: seq<bool>)
    requires EndsWith(u, v) && EndsWith(v, w)
    ensures EndsWith(u, w)
  {
    assert u[|u| - |w|..] == u[|u| - |v|..][|v| - |w|..];
  }

  /** The operation that a code and its extra bits stand for. */
  function OpOf(val: nat, x: nat): Op {
    if val < 16 then One(val) else if val == 16 then Again(3 + x) else if val == 17 then
        Zeros(3 + x) else ManyZeros(11 + x)
  }

  lemma {:induction false} OpOfCode(val: nat, x: nat)
    requires val < BL_CODES && x < Pow2(ExtraBits(val))
    ensures ValidOp(OpOf(val, x)) && Code(OpOf(val, x)) == val && ExtraValue(OpOf(val, x)) == x
  {
    assert Pow2(2) == 4 && Pow2(3) == 8;
    assert Pow2(7) == 2 * 2 * 2 * Pow2(4);
  }

  lemma {:induction false} SameHeld(input: seq<byte>, a: Acc, a': Acc, n: nat)
    requires Good(input, a) && Good(input, a') && Unread(input, a) == Unread(input, a') && n <= a.bits && n <= a'.bits
    ensures Unpack(a.hold, n) == Unpack(a'.hold, n)
  {
    UnpackSplit(a.hold, n, a.bits - n);
    UnpackSplit(a'.hold, n, a'.bits - n);
    assert Unread(input, a)[..n] == Held(a)[..n] == Unpack(a.hold, n);
    assert Unread(input, a')[..n] == Held(a')[..n] == Unpack(a'.hold, n);
  }

  /** The first lookup; the bits of the code stay in the accumulator. */
  method PeekCode(input: seq<byte>, a: Acc, T: seq<Entry>, root: nat, ghost bl: seq<nat>)
    returns (ok: bool, a': Acc, here: Entry)
    requires Good(input, a) && LengthTables(T, bl, root)
    ensures Good(input, a') && Unread(input, a') == Unread(input, a) && a'.next >= a.next
    ensures ok ==> 1 <= here.bits <= a'.bits && here.bits <= MAX_BITS && Means(bl, Unpack(a'.hold, here.bits), here)
    ensures ok ==> a' == a || a'.bits < here.bits + 8
    ensures !ok ==> a'.next == |input| && NoWholeCode(CODES, bl, Held(a'))
  {
    ok, a', here := LookUpRoot(input, a, T, root, CODES, bl);
    if ok {
      AtRoot(T, CODES, bl, root, a');
      NoLinks(T, bl, root, a');
      HeldAhead(a', here.bits);
      EntryMeans(bl, Unpack(a'.hold, here.bits), here);
      if a' != a { OneByteAtMost(bl, a', here); }
    }
  }

  /** A code that was not held before the last byte was pulled ends in that byte. */
  lemma {:induction false} OneByteAtMost(bl: seq<nat>, a: Acc, here: Entry)
    requires here.bits <= a.bits && Decoded(CODES, bl, Unpack(a.hold, here.bits), here.(bits := 0))
    requires a.bits >= 8 && NoWholeCode(CODES, bl, Held(a)[..a.bits - 8])
    ensures a.bits < here.bits + 8
  {
    UnpackSplit(a.hold, here.bits, a.bits - here.bits);
    NotCut(Unpack(a.hold, here.bits), Held(a), a.bits - 8);
  }

  lemma {:induction false} NotCut(w: seq<bool>, u: seq<bool>, n: nat)
    requires w <= u && n <= |u| && !(w <= u[..n])
    ensures |w| > n
  {
  }

  /** None of the codes with their extra bits is there in full. */
  ghost predicate NoWholeOp(bl: seq<nat>, u: seq<bool>) {
    forall op :: OpCodable(bl, op) ==> !(OpBits(bl, op) <= u)
  }

  /** No more is held than a byte, or than a part of one code and its extra bits. */
  ghost predicate Snug(bl: seq<nat>, a: Acc) {
    a.bits < 8 || NoWholeOp(bl, Held(a))
  }

  /** One code and its extra bits: nothing is taken until all of it is there. */
  method ReadOp(input: seq<byte>, a: Acc, T: seq<Entry>, root: nat, ghost bl: seq<nat>)
    returns (ok: bool, a': Acc, op: Op)
    requires Good(input, a) && LengthTables(T, bl, root)
    ensures Good(input, a') && a'.next >= a.next
    ensures ok ==> ValidOp(op) && |Unread(input, a')| < |Unread(input, a)|
    ensures EndsWith(Unread(input, a), Unread(input, a')) && (NoSymbols(bl) ==> op == One(0))
    ensures ok && Complete(bl) ==> OpCodable(bl, op) && Unread(input, a) == OpBits(bl, op) + Unread(input, a')
    ensures !ok ==> Unread(input, a') == Unread(input, a) && a'.next == |input|
    ensures !ok && Complete(bl) && Fits(bl) ==> NoWholeOp(bl, Held(a'))
    ensures ok && Complete(bl) && Snug(bl, a) ==> a'.bits < 8
  {
    op := One(0);
    var here;
    ok, a', here := PeekCode(input, a, T, root, bl);
    if !ok {
      CodeMissing(bl, Held(a'));
      return;
    }
    var a1 := a';
    var n := ExtraBits(here.val);
    ok, a' := NeedBits(input, a1, here.bits + n);
    SameHeld(input, a1, a', if ok then here.bits else 0);
    if !ok {
      ExtraMissing(input, bl, a1, a', here);
      return;
    }
    a', op := TakeOp(input, a', here, bl);
    assert NoSymbols(bl) ==> here.val == 0 && ExtraBits(0) == 0;
    assert a1 == a && Complete(bl) && Snug(bl, a) && a.bits >= here.bits + n ==> a'.bits < 8;
  }

  method TakeOp(input: seq<byte>, a: Acc, here: Entry, ghost bl: seq<nat>) returns (a': Acc, op: Op)
    requires Good(input, a) && 1 <= here.bits && here.bits + ExtraBits(here.val) <= a.bits
    requires Means(bl, Unpack(a.hold, here.bits), here)
    ensures Good(input, a') && a'.next == a.next && ValidOp(op) && |Unread(input, a')| < |Unread(input, a)|
    ensures EndsWith(Unread(input, a), Unread(input, a')) && (here.val == 0 ==> op == One(0))
    ensures Complete(bl) ==> OpCodable(bl, op) && Unread(input, a) == OpBits(bl, op) + Unread(input, a')
    ensures a'.bits == a.bits - here.bits - ExtraBits(here.val) && (Complete(bl) ==> OpBits(bl, op) <= Held(a))
  {
    var n := ExtraBits(here.val);
    a' := DropBits(input, a, here.bits);
    var x := Low(a'.hold, n);
    ghost var b := a';
    UnpackLow(b.hold, n);
    a' := DropBits(input, a', n);
    OpOfCode(here.val, x);
    op := OpOf(here.val, x);
    Assoc(Unpack(a.hold, here.bits), Unpack(x, n), Unread(input, a'));
    EndOf(Unread(input, a), Unpack(a.hold, here.bits) + Unpack(x, n), Unread(input, a'));
  }

  lemma {:induction false} CodeMissing(bl: seq<nat>, u: seq<bool>)
    requires NoWholeCode(CODES, bl, u) && |bl| <= MaxCodes(CODES)
    ensures NoWholeOp(bl, u)
  {
    forall op | OpCodable(bl, op)
      ensures !(OpBits(bl, op) <= u)
    {
      var s := Code(op);
      var w, leaf := CodeString(bl, s), MakeEntry(CODES, s, 0);
      assert SymbolRead(CODES, bl, w, leaf, s);
      assert Decoded(CODES, bl, w, leaf);
      assert w <= OpBits(bl, op);
    }
  }

  lemma {:induction false} ExtraMissing(input: seq<byte>, bl: seq<nat>, a: Acc, a': Acc, here: Entry)
    requires Good(input, a) && Good(input, a') && Unread(input, a') == Unread(input, a)
    requires a.bits <= a'.bits < here.bits + ExtraBits(here.val)
    requires ValidLens(bl) && here.bits <= a.bits && Means(bl, Unpack(a.hold, here.bits), here)
    ensures Complete(bl) && Fits(bl) ==> NoWholeOp(bl, Held(a'))
  {
    if Complete(bl) && Fits(bl) {
      SameHeld(input, a, a', here.bits);
      var w, u := Unpack(a'.hold, here.bits), Held(a');
      UnpackSplit(a'.hold, here.bits, a'.bits - here.bits);
      assert w <= u;
      forall op | OpCodable(bl, op)
        ensures !(OpBits(bl, op) <= u)
      {
        if OpBits(bl, op) <= u {
          var c := CodeString(bl, Code(op));
          assert c <= OpBits(bl, op);
          assert c <= u;
          CommonExtension(c, w, u);
          OneOfTwo(bl, Code(op), here.val);
        }
      }
    }
  }

  lemma {:induction false} OneOfTwo(lens: seq<nat>, s: nat, t: nat)
    requires ValidLens(lens) && Fits(lens) && HasCode(lens, s) && HasCode(lens, t)
    requires Comparable(CodeString(lens, s), CodeString(lens, t))
    ensures s == t
  {
    if CodeString(lens, s) <= CodeString(lens, t) {
      CodeStringsDiffer(lens, s, t);
    } else {
      CodeStringsDiffer(lens, t, s);
    }
  }

  datatype Result = Done | Wait | Error

  /** How many lengths a code stands for. */
  function Size(op: Op): nat {
    match op case One(_) => 1 case Again(n) => n case Zeros(n) => n case ManyZeros(n) => n
  }

  /** The codes read so far give the lengths so far. */
  ghost predicate ReadSoFar(bl: seq<nat>, ops: seq<Op>, have: seq<nat>) {
    AllValid(ops) && (Complete(bl) ==> OpsCodable(bl, ops)) && DecodeAll([], ops) == Some(have)
  }

  /** The code op cannot be used after the lengths have. */
  ghost predicate BadRepeat(have: seq<nat>, op: Op, total: nat) {
    ValidOp(op) && (Decode(have, op).None? || |have| + Size(op) > total)
  }

  lemma {:induction false} DecodeSnoc(have: seq<nat>, ops: seq<Op>, more: seq<nat>, op: Op)
    requires DecodeAll(have, ops) == Some(more) && Decode(more, op).Some?
    ensures DecodeAll(have, ops + [op]) == Decode(more, op)
  {
    DecodeConcat(have, ops, [op]);
    assert [op][1..] == [];
  }

  /** One turn of the loop of state CODELENS. */
  method CodeLensStep(input: seq<byte>, a: Acc, T: seq<Entry>, root: nat, total: nat, have: seq<nat>,
                      ghost bl: seq<nat>, ghost ops: seq<Op>)
    returns (res: Result, a': Acc, have': seq<nat>, ghost op: Op)
    requires Good(input, a) && LengthTables(T, bl, root) && |have| < total && ReadSoFar(bl, ops, have)
    ensures Good(input, a') && a'.next >= a.next
    ensures res != Wait && Complete(bl) ==> OpCodable(bl, op) && Unread(input, a) == OpBits(bl, op) + Unread(input, a')
    ensures EndsWith(Unread(input, a), Unread(input, a')) && (res == Done && NoSymbols(bl) ==> have' == have + [0])
    ensures res == Done ==>
              ReadSoFar(bl, ops + [op], have') && |have| < |have'| <= total && |Unread(input, a')| < |Unread(input, a)|
    ensures res == Done && Complete(bl) && Snug(bl, a) ==> a'.bits < 8
    ensures res == Error ==> have' == have && BadRepeat(have, op, total)
    ensures res == Wait ==>
              have' == have && Unread(input, a') == Unread(input, a) && a'.next == |input|
              && (Complete(bl) && Fits(bl) ==> NoWholeOp(bl, Held(a')))
  {
    var ok, o;
    ok, a', o := ReadOp(input, a, T, root, bl);
    op, have' := o, have;
    if !ok {
      return Wait, a', have', op;
    }
    if o.One? {
      have' := have + [o.len];
    } else {
      if o.Again? && |have| == 0 {
        return Error, a', have', op;
      }
      var len, copy := if o.Again? then have[|have| - 1] else 0, Size(o);
      if |have| + copy > total {
        return Error, a', have', op;
      }
      have' := Append(have, len, copy);
    }
    DecodeSnoc([], ops, have, op);
    res := Done;
  }

  /** copy more lengths. */
  method Append(have: seq<nat>, len: nat, copy: nat) returns (have': seq<nat>)
    ensures have' == have + Copies(len, copy)
  {
    have' := have;
    var i := 0;
    while i < copy
      invariant 0 <= i <= copy && have' == have + Copies(len, i)
    {
      have' := have' + [len];
      i := i + 1;
    }
  }

  ghost predicate AllZero(lens: seq<nat>) {
    forall i :: 0 <= i < |lens| ==> lens[i] == 0
  }

  /** State CODELENS */
  method CodeLens(input: seq<byte>, a: Acc, T: seq<Entry>, root: nat, total: nat, have: seq<nat>, ghost bl: seq<nat>,
                  ghost ops: seq<Op>)
    returns (res: Result, a': Acc, have': seq<nat>, ghost ops': seq<Op>, ghost bad: Op)
    requires Good(input, a) && LengthTables(T, bl, root) && |have| <= total && ReadSoFar(bl, ops, have)
    ensures Good(input, a') && a'.next >= a.next && |have'| <= total && ReadSoFar(bl, ops', have')
    ensures Complete(bl) ==>
              OpsBits(bl, ops') + (if res == Error then OpBits(bl, bad) else []) + Unread(input, a') == OpsBits(bl, ops)
                  + Unread(input, a)
    ensures res == Done ==> |have'| == total
    ensures res == Error ==> |have'| < total && BadRepeat(have', bad, total) && (Complete(bl) ==> OpCodable(bl, bad))
    ensures res == Wait ==>
              |have'| < total && a'.next == |input| && (Complete(bl) && Fits(bl) ==> NoWholeOp(bl, Held(a')))
    ensures res == Done && |have| < total && Complete(bl) && Snug(bl, a) ==> a'.bits < 8
    ensures EndsWith(Unread(input, a), Unread(input, a')) && (NoSymbols(bl) && AllZero(have) ==> AllZero(have'))
  {
    a', have', ops', bad := a, have, ops, One(0);
    while |have'| < total
      invariant Good(input, a') && a'.next >= a.next && |have'| <= total && ReadSoFar(bl, ops', have')
      invariant Complete(bl) ==> OpsBits(bl, ops') + Unread(input, a') == OpsBits(bl, ops) + Unread(input, a)
      invariant Complete(bl) && Snug(bl, a) ==> a'.bits < 8 || (|have'| == |have| && Snug(bl, a'))
      invariant EndsWith(Unread(input, a), Unread(input, a')) && (NoSymbols(bl) && AllZero(have) ==> AllZero(have'))
      decreases |Unread(input, a')|
    {
      ghost var op, a1 := bad, a';
      res, a', have', op := CodeLensStep(input, a', T, root, total, have', bl, ops');
      EndOfEnd(Unread(input, a), Unread(input, a1), Unread(input, a'));
      if Complete(bl) && res != Wait { NextOp(bl, ops', op, Unread(input, a1), Unread(input, a')); }
      if res == Error {
        bad := op;
        return;
      }
      if res == Wait {
        assert OpsBits(bl, ops') + [] == OpsBits(bl, ops');
        return;
      }
      ops' := ops' + [op];
    }
    assert OpsBits(bl, ops') + [] == OpsBits(bl, ops');
    res := Done;
  }

  lemma {:induction false} NextOp(bl: seq<nat>, ops: seq<Op>, op: Op, u: seq<bool>, v: seq<bool>)
    requires u == OpBits(bl, op) + v
    ensures OpsBits(bl, ops) + OpBits(bl, op) + v == OpsBits(bl, ops) + u
    ensures OpsBits(bl, ops + [op]) + v == OpsBits(bl, ops) + u
  {
    OpsBitsConcat(bl, ops, [op]);
    OneOp(bl, op);
    Assoc(OpsBits(bl, ops), OpBits(bl, op), v);
  }

  // ----- what was sent is what is read -----

  lemma {:induction false} SameOp(bl: seq<nat>, a: Op, u: seq<bool>, b: Op, v: seq<bool>)
    requires Usable(bl) && OpCodable(bl, a) && OpCodable(bl, b) && OpBits(bl, a) + u == OpBits(bl, b) + v
    ensures a == b && u == v
  {
    var s, t := Code(a), Code(b);
    var x, y := Unpack(ExtraValue(a), ExtraBits(s)), Unpack(ExtraValue(b), ExtraBits(t));
    Assoc(CodeString(bl, s), x, u);
    Assoc(CodeString(bl, t), y, v);
    SameCode(bl, s, x + u, t, y + v);
    ExtraFits(a);
    ExtraFits(b);
    SameNumber(ExtraValue(a), u, ExtraValue(b), v, ExtraBits(s));
  }

  /** Equal streams hold equal codes as far as both go. */
  lemma {:induction false} SameOps(bl: seq<nat>, a: seq<Op>, u: seq<bool>, b: seq<Op>, v: seq<bool>)
    requires Usable(bl) && OpsCodable(bl, a) && OpsCodable(bl, b) && OpsBits(bl, a) + u == OpsBits(bl, b) + v
    ensures |a| <= |b| ==> a <= b && u == OpsBits(bl, b[|a|..]) + v
    ensures |b| <= |a| ==> b <= a
    decreases |a|
  {
    if a == [] {
      assert b[0..] == b && [] + u == u;
    } else if b != [] {
      assert OpCodable(bl, a[0]) && OpCodable(bl, b[0]);
      Assoc(OpBits(bl, a[0]), OpsBits(bl, a[1..]), u);
      Assoc(OpBits(bl, b[0]), OpsBits(bl, b[1..]), v);
      SameOp(bl, a[0], OpsBits(bl, a[1..]) + u, b[0], OpsBits(bl, b[1..]) + v);
      SameOps(bl, a[1..], u, b[1..], v);
      if |a| <= |b| { assert b[1..][|a| - 1..] == b[|a|..]; }
    }
  }

  /** Codes only add lengths, at least one each. */
  lemma {:induction false} DecodeGrows(have: seq<nat>, ops: seq<Op>, lens: seq<nat>)
    requires AllValid(ops) && DecodeAll(have, ops) == Some(lens)
    ensures have <= lens && |lens| >= |have| + |ops|
    decreases |ops|
  {
    if ops != [] {
      assert ValidOp(ops[0]);
      DecodeGrows(Decode(have, ops[0]).value, ops[1..], lens);
    }
  }

  /** The codes read are the first ones sent. */
  lemma {:induction false} OpsAgree(bl: seq<nat>, ops: seq<Op>, have: seq<nat>, v: seq<bool>, all: seq<Op>,
                                    lens: seq<nat>, rest: seq<bool>) returns (tail: seq<Op>)
    requires Usable(bl) && Complete(bl) && ReadSoFar(bl, ops, have) && OpsCodable(bl, all)
    requires DecodeAll([], all) == Some(lens)
    requires OpsBits(bl, ops) + v == OpsBits(bl, all) + rest && |have| <= |lens|
    ensures all == ops + tail && OpsCodable(bl, tail) && v == OpsBits(bl, tail) + rest
    ensures DecodeAll(have, tail) == Some(lens)
  {
    SameOps(bl, ops, v, all, rest);
    if |ops| > |all| { Longer(all, ops, lens, have); }
    tail := all[|ops|..];
    assert all == ops + tail;
    CodableParts(bl, ops, tail);
    DecodeConcat([], ops, tail);
  }

  /** The lengths read are the first ones sent, and the next code can be used. */
  lemma {:induction false} TailDecodes(bl: seq<nat>, have: seq<nat>, tail: seq<Op>, lens: seq<nat>)
    requires OpsCodable(bl, tail) && DecodeAll(have, tail) == Some(lens)
    ensures have <= lens && (|have| == |lens| ==> tail == [] && have == lens)
    ensures |have| < |lens| ==>
              tail != [] && OpCodable(bl, tail[0]) && Decode(have, tail[0]).Some? && |have| + Size(tail[0]) <= |lens|
  {
    AllCodableValid(bl, tail);
    DecodeGrows(have, tail, lens);
    if tail != [] {
      DecodeGrows(Decode(have, tail[0]).value, tail[1..], lens);
    }
  }

  lemma {:induction false} AllCodableValid(bl: seq<nat>, ops: seq<Op>)
    requires OpsCodable(bl, ops)
    ensures AllValid(ops)
  {
    forall i | 0 <= i < |ops| ensures ValidOp(ops[i]) { assert OpCodable(bl, ops[i]); }
  }

  lemma {:induction false} Longer(a: seq<Op>, b: seq<Op>, x: seq<nat>, y: seq<nat>)
    requires a <= b && |a| < |b| && AllValid(b) && DecodeAll([], a) == Some(x) && DecodeAll([], b) == Some(y)
    ensures |x| < |y|
  {
    assert b == a + b[|a|..];
    DecodeConcat([], a, b[|a|..]);
    DecodeGrows(x, b[|a|..], y);
  }

  /** The codes read, those unread and those of later portions are the codes sent for lens, and what follows them. */
  ghost predicate FeedingLengths(bl: seq<nat>, all: seq<Op>, lens: seq<nat>, rest: seq<bool>, ops: seq<Op>,
                                 have: seq<nat>, v: seq<bool>) {
    && Usable(bl) && Complete(bl) && OpsCodable(bl, all) && DecodeAll([], all) == Some(lens)
    && ReadSoFar(bl, ops, have) && |have| <= |lens| && OpsBits(bl, ops) + v == OpsBits(bl, all) + rest
  }

  /** State CODELENS on a portion of such a stream: no error is reported, and the lengths are read back exactly. */
  method CodeLensEncoded(input: seq<byte>, a: Acc, T: seq<Entry>, root: nat, have: seq<nat>, total: nat,
                         ghost bl: seq<nat>, ghost ops: seq<Op>,
                         ghost all: seq<Op>, ghost lens: seq<nat>, ghost more: seq<bool>, ghost rest: seq<bool>)
    returns (res: Result, a': Acc, have': seq<nat>, ghost ops': seq<Op>)
    requires Good(input, a) && LengthTables(T, bl, root) && total == |lens|
    requires FeedingLengths(bl, all, lens, rest, ops, have, Unread(input, a) + more)
    ensures Good(input, a') && a'.next >= a.next && res != Error && |Unread(input, a')| <= |Unread(input, a)|
    ensures FeedingLengths(bl, all, lens, rest, ops', have', Unread(input, a') + more) && have' <= lens
    ensures res == Done ==>
              have' == lens && Unread(input, a') + more == rest && (|have| < total && Snug(bl, a) ==> a'.bits < 8)
    ensures res == Wait ==> |have'| < total && a'.next == |input| && more != [] && Snug(bl, a')
  {
    ghost var bad;
    res, a', have', ops', bad := CodeLens(input, a, T, root, total, have, bl, ops);
    ghost var c := if res == Error then OpBits(bl, bad) else [];
    Shift(OpsBits(bl, ops), Unread(input, a), more, OpsBits(bl, ops'), c, Unread(input, a'));
    Conclude(input, bl, a', more, ops', have', all, lens, rest, res, bad, c);
  }

  /** What the end of a call means for the lengths sent. */
  lemma {:induction false} Conclude(input: seq<byte>, bl: seq<nat>, a: Acc, more: seq<bool>, ops: seq<Op>,
                                    have: seq<nat>, all: seq<Op>, lens: seq<nat>, rest: seq<bool>,
                 res: Result, bad: Op, c: seq<bool>)
    requires Good(input, a) && c == (if res == Error then OpBits(bl, bad) else [])
    requires FeedingLengths(bl, all, lens, rest, ops, have, c + (Unread(input, a) + more))
    requires res == Error ==> |have| < |lens| && BadRepeat(have, bad, |lens|) && OpCodable(bl, bad)
    requires res == Done ==> |have| == |lens|
    requires res == Wait ==> |have| < |lens| && a.next == |input| && NoWholeOp(bl, Held(a))
    ensures have <= lens && res != Error && c + (Unread(input, a) + more) == Unread(input, a) + more
    ensures (res == Done ==> have == lens && Unread(input, a) + more == rest) && (res == Wait ==> more != [])
  {
    var tail := OpsAgree(bl, ops, have, c + (Unread(input, a) + more), all, lens, rest);
    TailDecodes(bl, have, tail, lens);
    if res == Error {
      NotBad(bl, bad, Unread(input, a) + more, tail, rest);
    } else {
      NotStuck(input, bl, a, more, tail, rest);
    }
  }

  lemma {:induction false} NotStuck(input: seq<byte>, bl: seq<nat>, a: Acc, more: seq<bool>, tail: seq<Op>,
                                    rest: seq<bool>)
    requires Good(input, a) && [] + (Unread(input, a) + more) == OpsBits(bl, tail) + rest
    ensures tail == [] ==> Unread(input, a) + more == rest
    ensures a.next == |input| && more == [] && tail != [] && OpCodable(bl, tail[0]) ==> !NoWholeOp(bl, Held(a))
  {
    var v := Unread(input, a) + more;
    assert [] + v == v;
    if tail == [] {
      assert [] + rest == rest;
    } else if a.next == |input| && more == [] && OpCodable(bl, tail[0]) {
      assert v == Held(a);
      Assoc(OpBits(bl, tail[0]), OpsBits(bl, tail[1..]), rest);
      assert OpBits(bl, tail[0]) <= v;
    }
  }

  lemma {:induction false} Shift(a: seq<bool>, u: seq<bool>, more: seq<bool>, b: seq<bool>, c: seq<bool>, w: seq<bool>)
    requires b + c + w == a + u
    ensures b + (c + (w + more)) == a + (u + more)
  {
    assert b + (c + (w + more)) == (b + c + w) + more;
    assert a + (u + more) == (a + u) + more;
  }

  lemma {:induction false} NotBad(bl: seq<nat>, bad: Op, u: seq<bool>, tail: seq<Op>, rest: seq<bool>)
    requires Usable(bl) && OpCodable(bl, bad) && tail != [] && OpCodable(bl, tail[0])
    requires OpBits(bl, bad) + u == OpsBits(bl, tail) + rest
    ensures bad == tail[0]
  {
    Assoc(OpBits(bl, tail[0]), OpsBits(bl, tail[1..]), rest);
    SameOp(bl, bad, u, tail[0], OpsBits(bl, tail[1..]) + rest);
  }
}
