/** Exclusive or of natural numbers. */
module Xor {
  import opened Bits

  /** Bitwise exclusive or of natural numbers, as C's `^` computes it. */
  function BitXor(a: nat, b: nat): nat
    decreases a + b
  {
    if a == 0 then b else if b == 0 then a else
    (if a % 2 != b % 2 then 1 else 0) + 2 * BitXor(a / 2, b / 2)
  }

  lemma {:induction false} LowXor(a: nat, b: nat, n: nat)
    ensures Low(BitXor(a, b), n) == BitXor(Low(a, n), Low(b, n))
  {
    if n != 0 {
      LowXor(a / 2, b / 2, n - 1);
      XorHalves(a, b);
      LowParts(a, n);
      LowParts(b, n);
      LowParts(BitXor(a, b), n);
      XorHalves(Low(a, n), Low(b, n));
      SameParts(Low(BitXor(a, b), n), BitXor(Low(a, n), Low(b, n)));
    }
  }

  lemma {:induction false} LowParts(a: nat, n: nat)
    requires n >= 1
    ensures Low(a, n) % 2 == a % 2 && Low(a, n) / 2 == Low(a / 2, n - 1)
  {
  }

  lemma {:induction false} SameParts(x: nat, y: nat)
    requires x % 2 == y % 2 && x / 2 == y / 2
    ensures x == y
  {
  }

  /** The bits of an exclusive or, one at a time. */
  lemma {:induction false} XorHalves(a: nat, b: nat)
    ensures BitXor(a, b) / 2 == BitXor(a / 2, b / 2) && BitXor(a, b) % 2 == if a % 2 != b % 2 then 1 else 0
  {
  }

  /** Exclusive or with the same number can be undone. */
  lemma {:induction false} XorCancel(x: nat, a: nat, b: nat)
    requires BitXor(x, a) == BitXor(x, b)
    ensures a == b
    decreases a + b
  {
    if a != b {
      XorHalves(x, a);
      XorHalves(x, b);
      XorCancel(x / 2, a / 2, b / 2);
    }
  }

  lemma {:induction false} XorComm(a: nat, b: nat)
    ensures BitXor(a, b) == BitXor(b, a)
    decreases a + b
  {
    if a != 0 && b != 0 { XorComm(a / 2, b / 2); }
  }

  lemma {:induction false} XorSelf(a: nat)
    ensures BitXor(a, a) == 0
  {
    if a != 0 { XorSelf(a / 2); }
  }

  lemma {:induction false} XorAssoc(a: nat, b: nat, c: nat)
    ensures BitXor(BitXor(a, b), c) == BitXor(a, BitXor(b, c))
    decreases a + b + c
  {
    if a != 0 && b != 0 && c != 0 {
      XorAssoc(a / 2, b / 2, c / 2);
      XorHalves(a, b);
      XorHalves(b, c);
      XorHalves(BitXor(a, b), c);
      XorHalves(a, BitXor(b, c));
      SameParts(BitXor(BitXor(a, b), c), BitXor(a, BitXor(b, c)));
    }
  }

  /** A common term cancels. */
  lemma {:induction false} XorCommon(p: nat, x: nat, y: nat)
    ensures BitXor(BitXor(p, x), BitXor(p, y)) == BitXor(x, y)
  {
    XorComm(p, x);
    XorAssoc(x, p, BitXor(p, y));
    XorAssoc(p, p, y);
    XorSelf(p);
  }

  lemma {:induction false} XorOut(p: nat, x: nat, y: nat)
    ensures BitXor(BitXor(p, x), y) == BitXor(p, BitXor(x, y)) && BitXor(x, BitXor(p, y)) == BitXor(p, BitXor(x, y))
  {
    XorAssoc(p, x, y);
    XorAssoc(x, p, y);
    XorComm(x, p);
    XorAssoc(p, x, y);
  }

  lemma {:induction false} XorBound(a: nat, b: nat, n: nat)
    requires a < Pow2(n) && b < Pow2(n)
    ensures BitXor(a, b) < Pow2(n)
    decreases n
  {
    if n != 0 && a != 0 && b != 0 { XorBound(a / 2, b / 2, n - 1); }
  }

  lemma {:induction false} ShrXor(a: nat, b: nat, n: nat)
    ensures Shr(BitXor(a, b), n) == BitXor(Shr(a, n), Shr(b, n))
  {
    if n != 0 {
      XorHalves(a, b);
      ShrXor(a / 2, b / 2, n - 1);
    }
  }

  /** Exclusive or with a number above the bits in use is addition. */
  lemma {:induction false} XorIsPlus(a: nat, k: nat, b: nat)
    requires a < Pow2(k)
    ensures BitXor(a, Shl(b, k)) == a + Shl(b, k)
  {
    if a != 0 && Shl(b, k) != 0 { XorIsPlus(a / 2, k - 1, b); }
  }
}
