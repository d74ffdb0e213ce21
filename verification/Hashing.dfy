/** The running hash of deflate: UPDATE_HASH over the last three bytes. */
module Hashing {
  import opened Bits
  import opened Xor

  /** The low bits of a shifted number depend on fewer bits of it. */
  lemma {:induction false} LowShlSame(a: nat, b: nat, s: nat, k: nat)
    requires Low(a, k) == Low(b, k)
    ensures Low(Shl(a, s), k + s) == Low(Shl(b, s), k + s)
  {
    LowShl(a, s, k);
    LowShl(b, s, k);
  }

  lemma {:induction false} LowFewer(a: nat, b: nat, k: nat, n: nat)
    requires Low(a, n) == Low(b, n) && k <= n
    ensures Low(a, k) == Low(b, k)
  {
    if k != 0 {
      assert a % 2 == b % 2;
      LowFewer(a / 2, b / 2, k - 1, n - 1);
    }
  }

  lemma {:induction false} LowLow(a: nat, k: nat, n: nat)
    requires k <= n
    ensures Low(Low(a, n), k) == Low(a, k)
  {
    if k != 0 { LowLow(a / 2, k - 1, n - 1); }
  }

  /** hash_bits and hash_shift. */
  datatype Config = Config(bits: nat, shift: nat)

  ghost predicate Proper(cfg: Config) {
    8 <= cfg.bits && 3 * cfg.shift >= cfg.bits
  }

  /** UPDATE_HASH */
  function Update(cfg: Config, h: nat, c: byte): (r: nat)
    ensures r < Pow2(cfg.bits)
  {
    Low(BitXor(Shl(h, cfg.shift), c), cfg.bits)
  }

  /** The hash of three bytes. */
  function Hash(cfg: Config, a: byte, b: byte, c: byte): (r: nat)
    ensures r < Pow2(cfg.bits)
  {
    Update(cfg, Update(cfg, a, b), c)
  }

  ghost predicate Agree(h: nat, g: nat, k: nat) {
    Low(h, k) == Low(g, k)
  }

  function Upper(cfg: Config, k: nat): nat {
    if k + cfg.shift <= cfg.bits then k + cfg.shift else cfg.bits
  }

  /** Every update makes more low bits independent of what came before. */
  lemma {:induction false} UpdateAgrees(cfg: Config, h: nat, g: nat, c: byte, k: nat)
    requires Agree(h, g, k)
    ensures Agree(Update(cfg, h, c), Update(cfg, g, c), Upper(cfg, k))
  {
    var n := Upper(cfg, k);
    var x, y := Shl(h, cfg.shift), Shl(g, cfg.shift);
    LowShlSame(h, g, cfg.shift, k);
    LowFewer(x, y, n, k + cfg.shift);
    LowLow(BitXor(x, c), n, cfg.bits);
    LowLow(BitXor(y, c), n, cfg.bits);
    LowXor(x, c, n);
    LowXor(y, c, n);
  }

  /** The running hash h stands for the two bytes a and b, whatever preceded them. */
  ghost predicate Rolls(cfg: Config, h: nat, a: byte, b: byte) {
    forall g {:trigger RollsFrom(cfg, h, a, b, g)} :: g == 0 ==> RollsFrom(cfg, h, a, b, g)
  }

  ghost predicate RollsFrom(cfg: Config, h: nat, a: byte, b: byte, g: nat) {
    Agree(h, Update(cfg, a, b), Upper(cfg, Upper(cfg, g)))
  }

  /** The hash of a byte and the next one, from scratch. */
  lemma {:induction false} RollsFresh(cfg: Config, a: byte, b: byte)
    ensures Rolls(cfg, Update(cfg, a, b), a, b)
  {
  }

  /** One more byte gives the hash of three bytes, and stands for the last two of them. */
  lemma {:induction false} RollsOn(cfg: Config, h: nat, a: byte, b: byte, c: byte)
    requires Proper(cfg) && Rolls(cfg, h, a, b)
    ensures Update(cfg, h, c) == Hash(cfg, a, b, c) && Rolls(cfg, Update(cfg, h, c), b, c)
  {
    assert RollsFrom(cfg, h, a, b, 0);
    var k := Upper(cfg, Upper(cfg, 0));
    UpdateAgrees(cfg, h, Update(cfg, a, b), c, k);
    LowSmall(Update(cfg, h, c), cfg.bits);
    LowSmall(Hash(cfg, a, b, c), cfg.bits);
    UpdateAgrees(cfg, Update(cfg, a, b), b, c, Upper(cfg, 0)) by {
      Restart(cfg, a, b);
    }
  }

  /** Two updates forget everything before. */
  lemma {:induction false} Restart(cfg: Config, a: nat, b: byte)
    requires 8 <= cfg.bits
    ensures Agree(Update(cfg, a, b), b, Upper(cfg, 0))
  {
    var n := Upper(cfg, 0);
    var x := Shl(a, cfg.shift);
    assert Low(a, 0) == Low(0, 0);
    LowShlSame(a, 0, cfg.shift, 0);
    LowFewer(x, Shl(0, cfg.shift), n, cfg.shift);
    ShlZero(cfg.shift);
    LowLow(BitXor(x, b), n, cfg.bits);
    LowXor(x, b, n);
    LowZero(n);
  }

  lemma {:induction false} LowZero(n: nat)
    ensures Low(0, n) == 0
  {
    if n != 0 { LowZero(n - 1); }
  }

  /** Strings with equal hashes and equal first two bytes have equal third bytes. */
  lemma {:induction false} ThirdByte(cfg: Config, a: byte, b: byte, c: byte, d: byte)
    requires Proper(cfg) && Hash(cfg, a, b, c) == Hash(cfg, a, b, d)
    ensures c == d
  {
    var x := Shl(Update(cfg, a, b), cfg.shift);
    LowXor(x, c, cfg.bits);
    LowXor(x, d, cfg.bits);
    SmallByte(c, cfg.bits);
    SmallByte(d, cfg.bits);
    XorCancel(Low(x, cfg.bits), c, d);
  }

  lemma {:induction false} SmallByte(c: byte, n: nat)
    requires n >= 8
    ensures Low(c, n) == c
  {
    assert Pow2(4) == 16;
    assert Pow2(8) == 16 * Pow2(4);
    Pow2Mono(8, n);
    LowSmall(c, n);
  }
}
