/** Unsigned machine integers and the bitwise operators the emulator applies to them.
    Bitwise AND, OR and XOR are defined bit by bit over naturals; the lemmas relate
    the masks the decoder uses to division and remainder by powers of two. */
module Bits {
  /** Rust `u8`. */
  type Byte = x: int | 0 <= x < 0x100
  /** Rust `u16`. */
  type U16 = x: int | 0 <= x < 0x1_0000

  function Pow2(k: nat): (r: nat)
    ensures r >= 1
  {
    if k == 0 then 1 else 2 * Pow2(k - 1)
  }

  lemma Pow2Values()
    ensures Pow2(1) == 2 && Pow2(4) == 16 && Pow2(7) == 128 && Pow2(8) == 256 && Pow2(12) == 4096
  {
    assert Pow2(4) == 16;
    assert Pow2(8) == 256;
  }

  /** `a & b` on unsigned integers. */
  function And(a: nat, b: nat): nat
  {
    if a == 0 || b == 0 then 0
    else 2 * And(a / 2, b / 2) + (if a % 2 == 1 && b % 2 == 1 then 1 else 0)
  }

  /** `a | b` on unsigned integers. */
  function Or(a: nat, b: nat): nat
  {
    if a == 0 then b
    else if b == 0 then a
    else 2 * Or(a / 2, b / 2) + (if a % 2 == 1 || b % 2 == 1 then 1 else 0)
  }

  /** `a ^ b` on unsigned integers. */
  function Xor(a: nat, b: nat): nat
  {
    if a == 0 && b == 0 then 0
    else 2 * Xor(a / 2, b / 2) + (if a % 2 != b % 2 then 1 else 0)
  }

  /** Quotient and remainder by 2 * p, computed from those by 2 and by p. */
  lemma DivModDouble(a: nat, p: nat)
    requires p > 0
    ensures a / (2 * p) == a / 2 / p
    ensures a % (2 * p) == 2 * (a / 2 % p) + a % 2
  {
    var q, r := a / 2, a % 2;
    var s, t := q / p, q % p;
    assert a == 2 * p * s + (2 * t + r);
    assert 0 <= 2 * t + r < 2 * p;
    DivModUnique(a, 2 * p, s, 2 * t + r);
  }

  lemma DivModUnique(a: int, d: int, s: int, u: int)
    requires d > 0 && 0 <= u < d && a == d * s + u
    ensures a / d == s && a % d == u
  {
    var s', u' := a / d, a % d;
    assert d * (s - s') == u' - u;
    if s > s' {
      MulAtLeast(d, s - s');
    } else if s < s' {
      MulAtLeast(d, s' - s);
    }
  }

  lemma {:induction false} MulAtLeast(d: int, k: int)
    requires d > 0 && k >= 1
    ensures d * k >= d
  {
    if k > 1 {
      MulAtLeast(d, k - 1);
      assert d * k == d * (k - 1) + d;
    }
  }

  /** Masking with the k lowest bits keeps the value modulo 2^k. */
  lemma {:induction false} AndLowMask(a: nat, k: nat)
    ensures And(a, Pow2(k) - 1) == a % Pow2(k)
  {
    if k == 0 {
      assert Pow2(k) == 1;
    } else if a != 0 {
      var p := Pow2(k - 1);
      assert Pow2(k) == 2 * p;
      AndMaskStep(a, p);
      AndLowMask(a / 2, k - 1);
      DivModDouble(a, p);
      assert And(a, 2 * p - 1) == a % (2 * p);
    }
  }

  /** One bit of a low mask: the lowest bit of a is kept and the rest is masked one bit lower. */
  lemma AndMaskStep(a: nat, p: nat)
    requires p >= 1
    ensures And(a, 2 * p - 1) == 2 * And(a / 2, p - 1) + a % 2
  {
    DivModUnique(2 * p - 1, 2, p - 1, 1);
  }

  /** `c << k` on unbounded naturals (nothing is shifted out). */
  function Shl(c: nat, k: nat): (r: nat)
    ensures r == c * Pow2(k)
  {
    if k == 0 then c else 2 * Shl(c, k - 1)
  }

  /** `a >> k`: the k lowest bits are shifted out. */
  function Shr(a: nat, k: nat): (r: nat)
    ensures r == a / Pow2(k)
  {
    if k == 0 then a
    else
      DivModDouble(a, Pow2(k - 1));
      Shr(a / 2, k - 1)
  }

  lemma AndDouble(a: nat, m: nat)
    ensures And(a, 2 * m) == 2 * And(a / 2, m)
  {
    if a != 0 && m != 0 {
      assert (2 * m) / 2 == m && (2 * m) % 2 == 0;
    }
  }

  /** Masking with c shifted left by lo bits extracts c's bits of a at the same place. */
  lemma {:induction false} AndShifted(a: nat, c: nat, lo: nat)
    ensures And(a, Shl(c, lo)) == Shl(And(Shr(a, lo), c), lo)
  {
    if lo > 0 {
      AndDouble(a, Shl(c, lo - 1));
      AndShifted(a / 2, c, lo - 1);
    }
  }

  /** Masking with a nibble of ones k bits up extracts the nibble of a at that place. */
  lemma NibbleMask(a: nat, k: nat)
    ensures And(a, Shl(15, k)) == a / Pow2(k) % 16 * Pow2(k)
  {
    Pow2Values();
    AndShifted(a, 15, k);
    AndLowMask(Shr(a, k), 4);
  }

  /** OR-ing bits below 2^k into a value shifted left by k bits is addition. */
  lemma {:induction false} OrDisjoint(a: nat, b: nat, k: nat)
    requires b < Pow2(k)
    ensures Or(Shl(a, k), b) == Shl(a, k) + b
  {
    if k > 0 {
      OrDisjoint(a, b / 2, k - 1);
    }
  }

  lemma {:induction false} AndBound(a: nat, b: nat)
    ensures And(a, b) <= a && And(a, b) <= b
  {
    if a != 0 && b != 0 {
      AndBound(a / 2, b / 2);
    }
  }

  lemma {:induction false} OrBounds(a: nat, b: nat, k: nat)
    requires a < Pow2(k) && b < Pow2(k)
    ensures a <= Or(a, b) && b <= Or(a, b) && Or(a, b) < Pow2(k)
  {
    if a != 0 && b != 0 {
      OrBounds(a / 2, b / 2, k - 1);
    }
  }

  lemma {:induction false} XorBound(a: nat, b: nat, k: nat)
    requires a < Pow2(k) && b < Pow2(k)
    ensures Xor(a, b) < Pow2(k)
  {
    if a != 0 || b != 0 {
      XorBound(a / 2, b / 2, k - 1);
    }
  }

  /** XOR-ing the same value twice gives back the original. */
  lemma {:induction false} XorCancel(a: nat, b: nat)
    ensures Xor(Xor(a, b), b) == a
  {
    if a != 0 || b != 0 {
      XorCancel(a / 2, b / 2);
      var c := Xor(a, b);
      assert c / 2 == Xor(a / 2, b / 2);
    }
  }

  /** A value ANDed or ORed with itself is itself; XORed with itself it is zero. */
  lemma {:induction false} SelfOperations(a: nat)
    ensures And(a, a) == a && Or(a, a) == a && Xor(a, a) == 0
  {
    if a != 0 {
      SelfOperations(a / 2);
    }
  }

  /** `a & b` on two bytes. */
  function AndByte(a: Byte, b: Byte): (r: Byte)
    ensures r <= a && r <= b
  {
    AndBound(a, b);
    And(a, b)
  }

  /** `a | b` on two bytes. */
  function OrByte(a: Byte, b: Byte): (r: Byte)
    ensures a <= r && b <= r
  {
    OrBounds(a, b, 8);
    Or(a, b)
  }

  /** `a ^ b` on two bytes. */
  function XorByte(a: Byte, b: Byte): (r: Byte)
    ensures Xor(r, b) == a
  {
    XorBound(a, b, 8);
    XorCancel(a, b);
    Xor(a, b)
  }

  /** `w.to_be_bytes()`: the high byte first, then the low byte. */
  function ToBeBytes(w: U16): (r: seq<Byte>)
    ensures |r| == 2 && 256 * (r[0] as int) + r[1] as int == w
  {
    [w / 256, w % 256]
  }

  /** `a.overflowing_add(b)` on `u8`: the wrapped sum and whether it wrapped. */
  function OverflowingAdd(a: Byte, b: Byte): (r: (Byte, bool))
    ensures r.0 + (if r.1 then 256 else 0) == a + b
  {
    ((a + b) % 256, a + b > 255)
  }

  /** `a.overflowing_sub(b)` on `u8`: the wrapped difference and whether it borrowed. */
  function OverflowingSub(a: Byte, b: Byte): (r: (Byte, bool))
    ensures r.0 - (if r.1 then 256 else 0) == a - b
  {
    ((a - b) % 256, a < b)
  }

  /** `(hi as u16) << 8 | lo as u16`: two bytes joined high byte first. */
  function JoinBytes(hi: Byte, lo: Byte): (w: U16)
    ensures w == 256 * hi + lo
    ensures ToBeBytes(w) == [hi, lo]
  {
    JoinBytesValue(hi, lo);
    Or(Shl(hi, 8) % 0x1_0000, lo)
  }

  lemma JoinBytesValue(hi: Byte, lo: Byte)
    ensures Or(Shl(hi, 8) % 0x1_0000, lo) == 256 * hi + lo
    ensures (256 * hi + lo) / 256 == hi && (256 * hi + lo) % 256 == lo
  {
    Pow2Values();
    var h: nat := hi;
    assert Shl(h, 8) == h * 256;
    assert Shl(h, 8) % 0x1_0000 == Shl(h, 8);
    OrDisjoint(h, lo, 8);
    DivModUnique(256 * h + lo, 256, h, lo);
  }
}
