/** The bit buffer of the compressor: send_bits, bi_flush and bi_windup. */
module BitWriter {
  import opened Bits

  const BUF_SIZE := 16

  class Writer {
    var pending: seq<byte>
    var biBuf: nat
    var biValid: nat

    /** All bits above the last valid bit are zero. */
    ghost predicate Valid()
      reads this
    {
      biValid <= BUF_SIZE && biBuf < Pow2(biValid)
    }

    /** Every bit sent so far. */
    ghost function Sent(): seq<bool>
      reads this
    {
      Stream(pending) + Unpack(biBuf, biValid)
    }

    constructor ()
      ensures Valid() && Sent() == []
    {
      pending, biBuf, biValid := [], 0, 0;
    }

    method PutByte(c: byte)
      modifies this`pending
      ensures Stream(pending) == old(Stream(pending)) + ByteBits(c)
    {
      StreamSnoc(pending, c);
      pending := pending + [c];
    }

    /** Puts a 16-bit word, low byte first. */
    method PutShort(lo: byte, hi: byte)
      modifies this`pending
      ensures Stream(pending) == old(Stream(pending)) + (ByteBits(lo) + ByteBits(hi))
    {
      ghost var s := Stream(pending);
      PutByte(lo);
      PutByte(hi);
      assert (s + ByteBits(lo)) + ByteBits(hi) == s + (ByteBits(lo) + ByteBits(hi));
    }

    /** Sends the low `length` bits of value, least significant first. */
    method SendBits(value: nat, length: nat)
      requires Valid() && 1 <= length <= BUF_SIZE && value < Pow2(length)
      modifies this
      ensures Valid() && Sent() == old(Sent()) + Unpack(value, length)
    {
      if biValid > BUF_SIZE - length {
        Spill(value, length);
      } else {
        Keep(value, length);
      }
    }

    /** The bits that fit fill the buffer, which goes out; the others start a new one. */
    method Spill(value: nat, length: nat)
      requires Valid() && biValid > BUF_SIZE - length && length <= BUF_SIZE && value < Pow2(length)
      modifies this
      ensures Valid() && Sent() == old(Sent()) + Unpack(value, length)
    {
      ghost var s, a, b := Stream(pending), Unpack(biBuf, biValid), Unpack(value, length);
      var lo, hi, rest := SpillWord(biBuf, biValid, value, length);
      PutShort(lo, hi);
      biBuf, biValid := rest, biValid + length - BUF_SIZE;
      Regroup(s, a, b, ByteBits(lo) + ByteBits(hi), Unpack(biBuf, biValid));
    }

    method Keep(value: nat, length: nat)
      requires Valid() && biValid <= BUF_SIZE - length && value < Pow2(length)
      modifies this
      ensures Valid() && Sent() == old(Sent()) + Unpack(value, length)
    {
      ghost var s, a, b := Stream(pending), Unpack(biBuf, biValid), Unpack(value, length);
      var word := KeepWord(biBuf, biValid, BUF_SIZE, value, length);
      biBuf, biValid := word, biValid + length;
      assert s + (a + b) == (s + a) + b;
    }

    /** Moves whole bytes of the bit buffer to the output; at most 7 bits stay. */
    method BiFlush()
      requires Valid()
      modifies this
      ensures Valid() && biValid <= 7 && Sent() == old(Sent())
    {
      if biValid == 16 {
        var pad := FlushAll();
      } else if biValid >= 8 {
        FlushByte();
      }
    }

    /** Moves the first byte of the bit buffer to the output. */
    method FlushByte()
      requires Valid() && biValid >= 8
      modifies this
      ensures Valid() && biValid == old(biValid) - 8 && Sent() == old(Sent())
    {
      ghost var s := Stream(pending);
      var first, rest := FirstByte(biBuf, biValid);
      PutByte(first);
      biBuf, biValid := rest, biValid - 8;
      Assoc(s, ByteBits(first), Unpack(rest, biValid));
    }

    /** Flushes the bit buffer, padding with zero bits to a byte boundary. */
    method BiWindup() returns (ghost pad: nat)
      requires Valid()
      modifies this
      ensures Valid() && biValid == 0
      ensures pad < 8 && Sent() == old(Sent()) + Unpack(0, pad)
    {
      if biValid > 0 {
        pad := FlushAll();
      } else {
        pad := 0;
        assert Sent() == Sent() + Unpack(0, 0);
      }
    }

    /** Puts out the one or two bytes that hold the valid bits. */
    method FlushAll() returns (ghost pad: nat)
      requires Valid() && biValid > 0
      modifies this
      ensures Valid() && biValid == 0
      ensures pad == (if old(biValid) > 8 then 16 else 8) - old(biValid)
      ensures Sent() == old(Sent()) + Unpack(0, pad)
    {
      ghost var s, a := Stream(pending), Unpack(biBuf, biValid);
      if biValid > 8 {
        pad := 16 - biValid;
        var lo, hi := TwoBytes(biBuf, biValid);
        PutShort(lo, hi);
        biBuf, biValid := 0, 0;
        Regroup(s, a, Unpack(0, pad), ByteBits(lo) + ByteBits(hi), Unpack(0, 0));
      } else {
        pad := 8 - biValid;
        var b := OneByte(biBuf, biValid);
        PutByte(b);
        biBuf, biValid := 0, 0;
        Regroup(s, a, Unpack(0, pad), ByteBits(b), Unpack(0, 0));
      }
    }
  }

  lemma {:induction false} Regroup(s: seq<bool>, a: seq<bool>, b: seq<bool>, c: seq<bool>, d: seq<bool>)
    requires a + b == c + d
    ensures (s + a) + b == (s + c) + d
  {
    assert (s + a) + b == s + (a + b);
    assert (s + c) + d == s + (c + d);
  }

  /** The value or-ed in above the valid bits. */
  method Merge(buf: nat, valid: nat, value: nat) returns (x: nat)
    requires buf < Pow2(valid)
    ensures x == buf + Shl(value, valid)
  {
    OrIsPlus(buf, valid, value);
    x := BitOr(buf, Shl(value, valid));
  }

  method KeepWord(buf: nat, valid: nat, size: nat, value: nat, length: nat) returns (word: nat)
    requires valid + length <= size && buf < Pow2(valid) && value < Pow2(length)
    ensures word < Pow2(valid + length)
    ensures Unpack(word, valid + length) == Unpack(buf, valid) + Unpack(value, length)
  {
    var x := Merge(buf, valid, value);
    AppendBound(buf, valid, value, length);
    UnpackAppend(buf, valid, value, length);
    Pow2Mono(valid + length, size);
    LowSmall(x, size);
    word := Low(x, size);
  }

  /** The low byte and the byte above it. */
  method Bytes(x: nat) returns (lo: byte, hi: byte)
    ensures ByteBits(lo) + ByteBits(hi) == Unpack(x, BUF_SIZE)
  {
    SmallPowers();
    UnpackLow(x, BUF_SIZE);
    var w := Low(x, BUF_SIZE);
    UnpackSplit(w, 8, 8);
    UnpackLow(w, 8);
    ShrBound(w, 8, 8);
    lo, hi := Low(w, 8), Shr(w, 8);
  }

  /** 16 bits go out, the rest stay. */
  method SpillWord(buf: nat, valid: nat, value: nat, length: nat) returns (lo: byte, hi: byte, rest: nat)
    requires valid <= BUF_SIZE && length <= BUF_SIZE < valid + length && buf < Pow2(valid) && value < Pow2(length)
    ensures rest < Pow2(valid + length - BUF_SIZE)
    ensures Unpack(buf, valid) + Unpack(value, length) == (ByteBits(lo) + ByteBits(hi))
            + Unpack(rest, valid + length - BUF_SIZE)
  {
    var x := Merge(buf, valid, value);
    SpillBits(buf, valid, BUF_SIZE, value, length);
    lo, hi := Bytes(x);
    rest := Shr(value, BUF_SIZE - valid);
  }

  lemma {:induction false} SpillBits(v: nat, m: nat, size: nat, value: nat, length: nat)
    requires m <= size && length <= size < m + length && v < Pow2(m) && value < Pow2(length)
    ensures var x, r := v + Shl(value, m), m + length - size;
            && Unpack(v, m) + Unpack(value, length) == Unpack(x, size) + Unpack(Shr(value, size - m), r)
            && Shr(value, size - m) < Pow2(r)
  {
    var x, r := v + Shl(value, m), m + length - size;
    UnpackAppend(v, m, value, length);
    UnpackSplit(x, size, r);
    SplitUnique(v, value, m);
    ShrShr(x, m, size - m);
    ShrBound(value, size - m, r);
  }

  method FirstByte(v: nat, m: nat) returns (first: byte, rest: nat)
    requires 8 <= m && v < Pow2(m)
    ensures rest < Pow2(m - 8)
    ensures Unpack(v, m) == ByteBits(first) + Unpack(rest, m - 8)
  {
    SmallPowers();
    SplitLow(v, m, 8);
    first, rest := Low(v, 8), Shr(v, 8);
  }

  lemma {:induction false} SplitLow(v: nat, m: nat, n: nat)
    requires n <= m && v < Pow2(m)
    ensures Shr(v, n) < Pow2(m - n) && Unpack(v, m) == Unpack(Low(v, n), n) + Unpack(Shr(v, n), m - n)
  {
    ShrBound(v, n, m - n);
    UnpackSplit(v, n, m - n);
    UnpackLow(v, n);
  }

  method TwoBytes(v: nat, m: nat) returns (lo: byte, hi: byte)
    requires m <= BUF_SIZE && v < Pow2(m)
    ensures Unpack(v, m) + Unpack(0, BUF_SIZE - m) == (ByteBits(lo) + ByteBits(hi)) + Unpack(0, 0)
  {
    Padding(v, m, BUF_SIZE);
    lo, hi := Bytes(v);
  }

  method OneByte(v: nat, m: nat) returns (b: byte)
    requires m <= 8 && v < Pow2(m)
    ensures Unpack(v, m) + Unpack(0, 8 - m) == ByteBits(b) + Unpack(0, 0)
  {
    Padding(v, m, 8);
    UnpackLow(v, 8);
    SmallPowers();
    b := Low(v, 8);
  }

  lemma {:induction false} Padding(v: nat, m: nat, n: nat)
    requires m <= n && v < Pow2(m)
    ensures Unpack(v, m) + Unpack(0, n - m) == Unpack(v, n)
  {
    UnpackSplit(v, m, n - m);
    LowSmall(v, m);
  }
}
