/** The bit accumulator of inflate and its table lookups. */
module BitReader {
  import opened Bits
  import opened Canonical
  import opened SubTables
  import opened InflateTable
  import BitWriter

  /** The registers hold, bits and next. */
  datatype Acc = Acc(hold: nat, bits: nat, next: nat)

  /** The least width of an unsigned long, which hold must not exceed. */
  const HOLD_BITS := 32

  ghost predicate Good(input: seq<byte>, a: Acc) {
    a.hold < Pow2(a.bits) && a.bits <= HOLD_BITS && a.next <= |input|
  }

  function Held(a: Acc): (bs: seq<bool>)
    ensures |bs| == a.bits
  {
    Unpack(a.hold, a.bits)
  }

  /** All bits not yet taken: those held and those of the input still to be pulled. */
  function Unread(input: seq<byte>, a: Acc): seq<bool>
    requires a.next <= |input|
  {
    Held(a) + Stream(input[a.next..])
  }

  lemma {:induction false} StreamCons(c: byte, b: seq<byte>)
    ensures Stream([c] + b) == ByteBits(c) + Stream(b)
  {
    StreamConcat([c], b);
    assert [c][..0] == [];
  }

  /** PULLBYTE, when there is input. */
  method PullByte(input: seq<byte>, a: Acc) returns (a': Acc)
    requires Good(input, a) && a.next < |input| && a.bits + 8 <= HOLD_BITS
    ensures Good(input, a') && Unread(input, a') == Unread(input, a)
    ensures a'.bits == a.bits + 8 && a'.next == a.next + 1
    ensures Held(a) == Held(a')[..a.bits]
  {
    var b := input[a.next];
    SmallPowers();
    a' := Acc(a.hold + Shl(b, a.bits), a.bits + 8, a.next + 1);
    AppendBound(a.hold, a.bits, b, 8);
    UnpackAppend(a.hold, a.bits, b, 8);
    Pulled(input, a.next, Held(a));
  }

  lemma {:induction false} Pulled(input: seq<byte>, k: nat, u: seq<bool>)
    requires k < |input|
    ensures u + Stream(input[k..]) == (u + ByteBits(input[k])) + Stream(input[k + 1..])
  {
    assert input[k..] == [input[k]] + input[k + 1..];
    StreamCons(input[k], input[k + 1..]);
    assert (u + ByteBits(input[k])) + Stream(input[k + 1..]) == u + (ByteBits(input[k]) + Stream(input[k + 1..]));
  }

  /** DROPBITS */
  method DropBits(input: seq<byte>, a: Acc, n: nat) returns (a': Acc)
    requires Good(input, a) && n <= a.bits
    ensures Good(input, a') && a' == Acc(Shr(a.hold, n), a.bits - n, a.next)
    ensures Unread(input, a) == Unpack(a.hold, n) + Unread(input, a')
    ensures Held(a) == Unpack(a.hold, n) + Held(a')
  {
    a' := Acc(Shr(a.hold, n), a.bits - n, a.next);
    ShrBound(a.hold, n, a.bits - n);
    UnpackSplit(a.hold, n, a.bits - n);
    Assoc(Unpack(a.hold, n), Held(a'), Stream(input[a.next..]));
  }

  /** While fewer than n bits are held, there is room for a byte. */
  predicate Holdable(bits: nat, n: nat) {
    n + 7 <= HOLD_BITS || (n <= HOLD_BITS && n % 8 == 0 && bits % 8 == 0)
  }

  lemma {:induction false} RoomForByte(bits: nat, bits': nat, n: nat)
    requires Holdable(bits, n) && bits' % 8 == bits % 8 && bits' < n
    ensures bits' + 8 <= HOLD_BITS
  {
  }

  /** NEEDBITS */
  method NeedBits(input: seq<byte>, a: Acc, n: nat) returns (ok: bool, a': Acc)
    requires Good(input, a) && Holdable(a.bits, n)
    ensures Good(input, a') && Unread(input, a') == Unread(input, a)
    ensures a'.bits == a.bits || a'.bits < n + 8
    ensures a'.next >= a.next && a'.bits >= a.bits
    ensures if ok then a'.bits >= n else a'.bits < n && a'.next == |input|
    ensures a.bits >= n ==> ok && a' == a
    ensures a'.bits % 8 == a.bits % 8
  {
    a' := a;
    while a'.bits < n
      invariant Pulling(input, a, a', n)
      decreases |input| - a'.next
    {
      if a'.next == |input| {
        return false, a';
      }
      a' := PullNext(input, a', a, n);
    }
    ok := true;
  }

  /** From a0 to a bytes were pulled while fewer than n bits were held. */
  ghost predicate Pulling(input: seq<byte>, a0: Acc, a: Acc, n: nat) {
    && a0.next <= |input| && Good(input, a) && Unread(input, a) == Unread(input, a0)
    && (a.bits == a0.bits || a.bits < n + 8) && a.next >= a0.next && a.bits >= a0.bits
    && (a.bits == a0.bits ==> a == a0) && a.bits % 8 == a0.bits % 8
  }

  method PullNext(input: seq<byte>, a: Acc, ghost a0: Acc, ghost n: nat) returns (a': Acc)
    requires Pulling(input, a0, a, n) && Holdable(a0.bits, n) && a.bits < n && a.next < |input|
    ensures Pulling(input, a0, a', n) && a'.next == a.next + 1
  {
    RoomForByte(a0.bits, a.bits, n);
    a' := PullByte(input, a);
  }

  /** NEEDBITS, BITS and DROPBITS of the same n. */
  method TakeBits(input: seq<byte>, a: Acc, n: nat) returns (ok: bool, v: nat, a': Acc)
    requires Good(input, a) && Holdable(a.bits, n)
    ensures Good(input, a') && a'.next >= a.next
    ensures ok ==>
              v < Pow2(n) && Unread(input, a) == Unpack(v, n) + Unread(input, a')
              && a'.bits <= if a.bits < n then 7 else a.bits - n
    ensures !ok ==> Unread(input, a') == Unread(input, a) && a'.next == |input| && a'.bits < n
    ensures a.bits >= n ==> ok && a'.bits == a.bits - n && a'.next == a.next
  {
    v := 0;
    ok, a' := NeedBits(input, a, n);
    if ok {
      v := Low(a'.hold, n);
      UnpackLow(a'.hold, n);
      a' := DropBits(input, a', n);
    }
  }

  // ----- what a lookup means -----

  const UNUSED := Entry(64, 0, 0)

  /** The bits w are exactly the code of s, whose table entry is leaf. */
  ghost predicate SymbolRead(t: CodeType, lens: seq<nat>, w: seq<bool>, leaf: Entry, s: nat) {
    s < |lens| <= MaxCodes(t) && lens[s] != 0 && w == CodeString(lens, s) && leaf == MakeEntry(t, s, 0)
  }

  /** The one bit w that an incomplete code leaves unused. */
  ghost predicate UnusedCode(lens: seq<nat>, w: seq<bool>) {
    |w| == 1 && !Complete(lens) && forall s {:trigger CodeString(lens, s)} ::
        0 <= s < |lens| && lens[s] != 0 ==> CodeString(lens, s) != w
  }

  ghost predicate Decoded(t: CodeType, lens: seq<nat>, w: seq<bool>, leaf: Entry) {
    || (exists s: nat :: SymbolRead(t, lens, w, leaf, s))
    || (leaf == UNUSED && UnusedCode(lens, w))
  }

  ghost predicate Tables(T: seq<Entry>, t: CodeType, lens: seq<nat>, root: nat) {
    && ValidLens(lens) && |lens| <= MaxCodes(t) && Acceptable(t, lens) && Built(T, t, lens, root)
  }

  /** Any string that starts with a code, used or not, leads to its entry and exact length. */
  lemma {:induction false} Leads(T: seq<Entry>, t: CodeType, lens: seq<nat>, root: nat, w: seq<bool>, leaf: Entry,
                                 x: seq<bool>)
    requires Tables(T, t, lens, root) && Decoded(t, lens, w, leaf) && w <= x && |x| >= MAX_BITS
    ensures LooksUp(T, root, x, leaf, |w|)
  {
    if s: nat :| SymbolRead(t, lens, w, leaf, s) {
      HasSymbol(lens, s);
      LookupFinds(T, t, lens, root, s, x);
    } else {
      LeadsUnused(T, t, lens, root, w, x);
    }
  }

  lemma {:induction false} HasSymbol(lens: seq<nat>, s: nat)
    requires ValidLens(lens) && s < |lens| && lens[s] != 0
    ensures !NoSymbols(lens)
  {
    SymbolIsCode(lens, s);
    assert !NoCode(lens, lens[s]);
  }

  lemma {:induction false} LeafBits(t: CodeType, lens: seq<nat>, w: seq<bool>, leaf: Entry)
    requires Decoded(t, lens, w, leaf)
    ensures leaf.bits == 0 && !IsLink(leaf)
  {
  }

  lemma {:induction false} LeadsUnused(T: seq<Entry>, t: CodeType, lens: seq<nat>, root: nat, w: seq<bool>,
                                       x: seq<bool>)
    requires Tables(T, t, lens, root) && UnusedCode(lens, w) && w <= x && |x| >= MAX_BITS
    ensures LooksUp(T, root, x, UNUSED, 1)
  {
    assert x[..1] == w == [w[0]];
    assert Pack([w[0]]) == if w[0] then 1 else 0;
    if !NoSymbols(lens) && !w[0] {
      var s := LoneSymbol(lens);
    }
  }

  /** An acceptable incomplete code is one symbol coded as a zero bit. */
  lemma {:induction false} LoneSymbol(lens: seq<nat>) returns (s: nat)
    requires ValidLens(lens) && IsMax(lens, 1) && !NoSymbols(lens)
    ensures s < |lens| && lens[s] == 1 && CodeString(lens, s) == [false]
  {
    var b: nat :| 1 <= b <= MAX_BITS && !NoCode(lens, b);
    assert b <= 1 || NoCode(lens, b);
    s := SymbolOf(lens, |lens|, 1, 0);
    assert Big(0, 1) == [false];
  }

  /** Every string starts with exactly one code, used or not. */
  lemma {:induction false} Starts(T: seq<Entry>, t: CodeType, lens: seq<nat>, root: nat, x: seq<bool>)
    returns (w: seq<bool>, leaf: Entry)
    requires Tables(T, t, lens, root) && |x| >= MAX_BITS
    ensures w <= x && 1 <= |w| <= MAX_BITS && Decoded(t, lens, w, leaf)
  {
    if Complete(lens) {
      var s := Covered(lens, x[..MAX_BITS]);
      w, leaf := CodeString(lens, s), MakeEntry(t, s, 0);
      assert SymbolRead(t, lens, w, leaf, s);
      assert w <= x;
    } else {
      w, leaf := x[..1], UNUSED;
      if s: nat :| s < |lens| && lens[s] != 0 && CodeString(lens, s) == w {
        leaf := MakeEntry(t, s, 0);
        assert SymbolRead(t, lens, w, leaf, s);
      } else {
        assert UnusedCode(lens, w);
      }
    }
  }

  /** None of the codes, used or not, is there in full. */
  ghost predicate NoWholeCode(t: CodeType, lens: seq<nat>, u: seq<bool>) {
    forall w, leaf {:trigger Decoded(t, lens, w, leaf)} :: Decoded(t, lens, w, leaf) ==> !(w <= u)
  }

  /** The lookup of the held bits, zero bits following them. */
  ghost function Ahead(a: Acc): (x: seq<bool>)
    ensures |x| == a.bits + MAX_BITS
  {
    Unpack(a.hold, a.bits + MAX_BITS)
  }

  lemma {:induction false} HeldAhead(a: Acc, n: nat)
    requires n <= a.bits + MAX_BITS
    ensures Held(a) == Ahead(a)[..a.bits]
    ensures Low(a.hold, n) == Pack(Ahead(a)[..n]) && Unpack(a.hold, n) == Ahead(a)[..n]
  {
    UnpackSplit(a.hold, a.bits, MAX_BITS);
    UnpackSplit(a.hold, n, a.bits + MAX_BITS - n);
    PackOfUnpack(a.hold, n);
  }

  /** An entry with n bits in all names the code at the start of x. */
  ghost predicate Names(t: CodeType, lens: seq<nat>, x: seq<bool>, e: Entry, n: nat) {
    1 <= n <= MAX_BITS && n <= |x| && !IsLink(e) && Decoded(t, lens, x[..n], e.(bits := 0))
  }

  /** Looking up any string ends at the code it starts with. */
  lemma {:induction false} Finds(T: seq<Entry>, t: CodeType, lens: seq<nat>, root: nat, x: seq<bool>)
    requires Tables(T, t, lens, root) && |x| >= MAX_BITS
    ensures 1 <= root <= MAX_BITS && Pack(x[..root]) < |T|
    ensures var e := T[Pack(x[..root])];
            if !IsLink(e) then Names(t, lens, x, e, e.bits)
            else && e.bits == root && root + e.op <= MAX_BITS && e.val + Pack(x[root..root + e.op]) < |T|
                 && var e' := T[e.val + Pack(x[root..root + e.op])];
                      e'.bits >= 1 && Names(t, lens, x, e', root + e'.bits)
  {
    var w, leaf := Starts(T, t, lens, root, x);
    Leads(T, t, lens, root, w, leaf, x);
    LeafBits(t, lens, w, leaf);
    LinkSize(T, t, lens, root, w, leaf, x);
    assert w == x[..|w|];
  }

  /** A lookup that needs more bits than are held says that no whole code is held. */
  lemma {:induction false} Short(T: seq<Entry>, t: CodeType, lens: seq<nat>, root: nat, x: seq<bool>, n: nat)
    requires Tables(T, t, lens, root) && |x| >= MAX_BITS && n <= |x| && root <= MAX_BITS && Pack(x[..root]) < |T|
    requires var e := T[Pack(x[..root])];
             if e.bits > n then true
             else
               && IsLink(e) && root + e.op <= |x| && e.val + Pack(x[root..root + e.op]) < |T|
               && root + T[e.val + Pack(x[root..root + e.op])].bits > n
    ensures NoWholeCode(t, lens, x[..n])
  {
    forall w, leaf | Decoded(t, lens, w, leaf)
      ensures !(w <= x[..n])
    {
      if w <= x[..n] {
        assert w <= x;
        Leads(T, t, lens, root, w, leaf, x);
      }
    }
  }

  lemma {:induction false} LinkSize(T: seq<Entry>, t: CodeType, lens: seq<nat>, root: nat, w: seq<bool>, leaf: Entry,
                                    x: seq<bool>)
    requires Tables(T, t, lens, root) && Decoded(t, lens, w, leaf) && w <= x && |x| >= MAX_BITS >= |w|
    requires root <= MAX_BITS
    requires Pack(x[..root]) < |T|
    ensures var e := T[Pack(x[..root])]; IsLink(e) ==> root + e.op <= MAX_BITS
  {
    var y := x[..MAX_BITS];
    assert y[..root] == x[..root];
    assert w <= y;
    Leads(T, t, lens, root, w, leaf, y);
  }

  /** The entry found by a first lookup of the held bits. */
  lemma {:induction false} AtRoot(T: seq<Entry>, t: CodeType, lens: seq<nat>, root: nat, a: Acc)
    requires Tables(T, t, lens, root)
    ensures 1 <= root <= MAX_BITS && Low(a.hold, root) < |T|
    ensures var e := T[Low(a.hold, root)];
            && (if IsLink(e) then e.bits == root && root + e.op <= MAX_BITS else Names(t, lens, Ahead(a), e, e.bits))
            && (e.bits > a.bits ==> NoWholeCode(t, lens, Held(a)))
  {
    var x := Ahead(a);
    Finds(T, t, lens, root, x);
    HeldAhead(a, root);
    if T[Low(a.hold, root)].bits > a.bits { Short(T, t, lens, root, x, a.bits); }
  }

  /** The index of a second lookup: the op bits of hold above its root low bits. */
  function SubIndex(hold: nat, root: nat, op: nat): nat {
    Shr(Low(hold, root + op), root)
  }

  lemma {:induction false} SubIndexAhead(a: Acc, root: nat, op: nat)
    requires root + op <= MAX_BITS
    ensures SubIndex(a.hold, root, op) == Pack(Ahead(a)[root..root + op])
  {
    var x := Ahead(a)[..root + op];
    HeldAhead(a, root + op);
    PackCut(x, root);
    assert x[root..] == Ahead(a)[root..root + op];
  }

  /** The entry found by a second lookup of the held bits. */
  lemma {:induction false} AtSub(T: seq<Entry>, t: CodeType, lens: seq<nat>, root: nat, a: Acc, last: Entry)
    requires Tables(T, t, lens, root) && Low(a.hold, root) < |T| && last == T[Low(a.hold, root)] && IsLink(last)
    ensures last.val + SubIndex(a.hold, root, last.op) < |T|
    ensures var e := T[last.val + SubIndex(a.hold, root, last.op)];
            && e.bits >= 1 && Names(t, lens, Ahead(a), e, root + e.bits)
            && (root + e.bits > a.bits ==> NoWholeCode(t, lens, Held(a)))
  {
    var x := Ahead(a);
    Finds(T, t, lens, root, x);
    HeldAhead(a, root);
    SubIndexAhead(a, root, last.op);
    if root + T[last.val + SubIndex(a.hold, root, last.op)].bits > a.bits { Short(T, t, lens, root, x, a.bits); }
  }

  lemma {:induction false} SameLow(a: Acc, a': Acc, root: nat)
    requires root <= a.bits <= a'.bits && Held(a) == Held(a')[..a.bits]
    ensures Low(a'.hold, root) == Low(a.hold, root)
  {
    UnpackSplit(a.hold, root, a.bits - root);
    UnpackSplit(a'.hold, root, a'.bits - root);
    PackOfUnpack(a.hold, root);
    PackOfUnpack(a'.hold, root);
    assert Unpack(a.hold, root) == Held(a)[..root] == Held(a')[..root] == Unpack(a'.hold, root);
  }

  /** First lookup: pulls bytes until the entry's bits are held. */
  method LookUpRoot(input: seq<byte>, a: Acc, T: seq<Entry>, root: nat, ghost t: CodeType, ghost lens: seq<nat>)
    returns (ok: bool, a': Acc, here: Entry)
    requires Good(input, a) && Tables(T, t, lens, root)
    ensures Good(input, a') && Unread(input, a') == Unread(input, a) && a'.next >= a.next && a'.bits >= a.bits
    ensures 1 <= root <= MAX_BITS && Low(a'.hold, root) < |T| && here == T[Low(a'.hold, root)]
    ensures ok ==> here.bits <= a'.bits && Minimal(t, lens, a, a')
    ensures !ok ==> a'.next == |input| && NoWholeCode(t, lens, Held(a'))
  {
    a' := a;
    AtRoot(T, t, lens, root, a');
    here := T[Low(a'.hold, root)];
    while here.bits > a'.bits
      invariant Good(input, a') && Unread(input, a') == Unread(input, a) && a'.next >= a.next && a'.bits >= a.bits
      invariant Minimal(t, lens, a, a')
      invariant Low(a'.hold, root) < |T| && here == T[Low(a'.hold, root)]
      decreases |input| - a'.next
    {
      AtRoot(T, t, lens, root, a');
      if a'.next == |input| {
        return false, a', here;
      }
      a' := PullByte(input, a');
      AtRoot(T, t, lens, root, a');
      here := T[Low(a'.hold, root)];
    }
    ok := true;
  }

  /** No byte was pulled while a whole code was held. */
  ghost predicate Minimal(t: CodeType, lens: seq<nat>, a: Acc, a': Acc) {
    a' == a || (a'.bits >= 8 && NoWholeCode(t, lens, Held(a')[..a'.bits - 8]))
  }

  /** From a0 to a only bytes were pulled, none while a whole code was held. */
  ghost predicate PulledTo(input: seq<byte>, a0: Acc, a: Acc, t: CodeType, lens: seq<nat>) {
    && Good(input, a0) && Good(input, a) && a.next >= a0.next && a.bits >= a0.bits
    && Unread(input, a) == Unread(input, a0) && Minimal(t, lens, a0, a)
  }

  /** The first lookup of the held bits gives last. */
  ghost predicate LinkAt(T: seq<Entry>, root: nat, a: Acc, last: Entry) {
    && root <= a.bits && last.bits == root && IsLink(last)
    && Low(a.hold, root) < |T| && last == T[Low(a.hold, root)]
  }

  /** The second lookup of the held bits gives here. */
  ghost predicate SubAt(t: CodeType, lens: seq<nat>, root: nat, a: Acc, here: Entry) {
    Names(t, lens, Ahead(a), here, root + here.bits) && (root + here.bits > a.bits ==> NoWholeCode(t, lens, Held(a)))
  }

  method LookUpSub(a: Acc, T: seq<Entry>, root: nat, last: Entry, ghost t: CodeType, ghost lens: seq<nat>)
    returns (here: Entry)
    requires Tables(T, t, lens, root) && LinkAt(T, root, a, last)
    ensures SubAt(t, lens, root, a, here)
  {
    AtSub(T, t, lens, root, a, last);
    here := T[last.val + SubIndex(a.hold, last.bits, last.op)];
  }

  method PullForSub(input: seq<byte>, a: Acc, T: seq<Entry>, root: nat, last: Entry, ghost a0: Acc, ghost t: CodeType,
                    ghost lens: seq<nat>)
    returns (a': Acc)
    requires PulledTo(input, a0, a, t, lens) && LinkAt(T, root, a, last) && NoWholeCode(t, lens, Held(a))
    requires a.next < |input| && a.bits < MAX_BITS
    ensures PulledTo(input, a0, a', t, lens) && LinkAt(T, root, a', last) && a'.next > a.next
  {
    a' := PullByte(input, a);
    SameLow(a, a', root);
  }

  /** Second lookup: pulls bytes until the code's bits are held. */
  method FollowLink(input: seq<byte>, a: Acc, T: seq<Entry>, root: nat, last: Entry, ghost a0: Acc, ghost t: CodeType,
                    ghost lens: seq<nat>)
    returns (ok: bool, a': Acc, here: Entry)
    requires Tables(T, t, lens, root) && PulledTo(input, a0, a, t, lens) && LinkAt(T, root, a, last)
    ensures PulledTo(input, a0, a', t, lens) && SubAt(t, lens, root, a', here)
    ensures if ok then root + here.bits <= a'.bits else a'.next == |input| && root + here.bits > a'.bits
  {
    a' := a;
    here := LookUpSub(a', T, root, last, t, lens);
    while last.bits + here.bits > a'.bits
      invariant PulledTo(input, a0, a', t, lens) && LinkAt(T, root, a', last) && SubAt(t, lens, root, a', here)
      decreases |input| - a'.next
    {
      if a'.next == |input| {
        return false, a', here;
      }
      a' := PullForSub(input, a', T, root, last, a0, t, lens);
      here := LookUpSub(a', T, root, last, t, lens);
    }
    ok := true;
  }

  /** Drops a whole code of n bits. */
  method DropCode(input: seq<byte>, a: Acc, here: Entry, n: nat, ghost a0: Acc, ghost t: CodeType, ghost lens: seq<nat>)
    returns (a': Acc, ghost w: seq<bool>)
    requires PulledTo(input, a0, a, t, lens) && Names(t, lens, Ahead(a), here, n) && n <= a.bits
    ensures Good(input, a') && a'.next >= a0.next && (a0.bits < 8 || NoWholeCode(t, lens, Held(a0)) ==> a'.bits < 8)
    ensures Decoded(t, lens, w, here.(bits := 0)) && w != [] && Unread(input, a0) == w + Unread(input, a')
  {
    w := Ahead(a)[..n];
    HeldAhead(a, n);
    a' := DropBits(input, a, n);
  }

  /** Reads one code: at most two lookups, then its bits are dropped. */
  method ReadCode(input: seq<byte>, a: Acc, T: seq<Entry>, root: nat, ghost t: CodeType, ghost lens: seq<nat>)
    returns (ok: bool, a': Acc, here: Entry, ghost w: seq<bool>)
    requires Good(input, a) && Tables(T, t, lens, root)
    ensures Good(input, a') && a'.next >= a.next
    ensures ok ==> Decoded(t, lens, w, here) && w != [] && Unread(input, a) == w + Unread(input, a')
    ensures ok && (a.bits < 8 || NoWholeCode(t, lens, Held(a))) ==> a'.bits < 8
    ensures !ok ==> Unread(input, a') == Unread(input, a) && a'.next == |input| && NoWholeCode(t, lens, Held(a'))
  {
    w := [];
    ok, a', here := LookUpRoot(input, a, T, root, t, lens);
    if !ok {
      return;
    }
    AtRoot(T, t, lens, root, a');
    var n := here.bits;
    if here.op != 0 && here.op / 16 == 0 {
      ok, a', here := FollowLink(input, a', T, root, here, a, t, lens);
      n := n + here.bits;
      if !ok {
        return;
      }
    }
    a', w := DropCode(input, a', here, n, a, t, lens);
    here := here.(bits := 0);
  }
}
