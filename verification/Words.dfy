/** Bitwise operations of unsigned machine words, bit by bit, and what they are in arithmetic. */
module Words {
  import opened Modular

  function BitAnd(a: nat, b: nat): nat
    decreases a
  {
    if a == 0 || b == 0 then 0 else (a % 2) * (b % 2) + 2 * BitAnd(a / 2, b / 2)
  }

  function BitXor(a: nat, b: nat): nat
    decreases a + b
  {
    if a == 0 then b else if b == 0 then a
    else (if a % 2 != b % 2 then 1 else 0) + 2 * BitXor(a / 2, b / 2)
  }

  function ShiftRight(a: nat, d: nat): nat {
    if d == 0 then a else ShiftRight(a, d - 1) / 2
  }

  /** A right shift is a division by a power of two. */
  lemma {:induction false} ShiftRightIs(a: nat, d: nat)
    ensures ShiftRight(a, d) * Pow2(d) <= a < (ShiftRight(a, d) + 1) * Pow2(d)
  {
    if d > 0 {
      ShiftRightIs(a, d - 1);
      HalfStep(a, ShiftRight(a, d - 1), Pow2(d - 1));
    }
  }

  lemma HalfStep(a: nat, s: nat, q: nat)
    requires q > 0 && s * q <= a < (s + 1) * q
    ensures (s / 2) * (2 * q) <= a < (s / 2 + 1) * (2 * q)
  {
    var h := s / 2;
    MulMonotone(2 * h, s, q);
    MulMonotone(s + 1, 2 * h + 2, q);
    assert h * (2 * q) == (2 * h) * q;
    assert (h + 1) * (2 * q) == (2 * h + 2) * q;
  }

  lemma ShiftRightDiv(a: nat, d: nat, q: nat)
    requires q == Pow2(d)
    ensures ShiftRight(a, d) == a / q
  {
    hide ShiftRight, Pow2;
    ShiftRightIs(a, d);
    var h := ShiftRight(a, d);
    assert (h + 1) * q == h * q + q;
    QuotientIs(a, q, h);
  }

  lemma QuotientIs(a: nat, q: nat, h: nat)
    requires q > 0 && h * q <= a < h * q + q
    ensures a / q == h
  {
    var g := a / q;
    assert g * q <= a < g * q + q;
    if g < h {
      MulMonotone(g + 1, h, q);
    } else if h < g {
      MulMonotone(h + 1, g, q);
    }
  }

  /** A shift in a 32-bit word. */
  function ShiftLeft(a: nat, d: nat): nat {
    (a * Pow2(d)) % 0x1_0000_0000
  }

  lemma AndStep(a: nat, q: nat)
    requires q > 0
    ensures BitAnd(a, 2 * q - 1) == a % 2 + 2 * BitAnd(a / 2, q - 1)
  {
    assert (2 * q - 1) / 2 == q - 1 && (2 * q - 1) % 2 == 1;
  }

  /** The low m bits. */
  lemma {:induction false} AndMask(a: nat, m: nat)
    ensures BitAnd(a, Pow2(m) - 1) == a % Pow2(m)
  {
    hide BitAnd;
    if m == 0 {
      AndNone(a);
    } else {
      AndMask(a / 2, m - 1);
      AndStep(a, Pow2(m - 1));
      HalfMod(a, Pow2(m - 1));
    }
  }

  lemma AndNone(a: nat)
    ensures BitAnd(a, 0) == 0
  {
  }

  lemma HalfMod(a: nat, q: nat)
    requires q > 0
    ensures a % (2 * q) == a % 2 + 2 * ((a / 2) % q)
  {
    var h := a / 2;
    var u, v := h / q, h % q;
    assert h == u * q + v;
    assert a == u * (2 * q) + (a % 2 + 2 * v);
    ResIs(2 * q, a, u, a % 2 + 2 * v);
    ModIsRes(2 * q, a);
  }

  lemma ModIsRes(p: nat, x: int)
    requires p > 0
    ensures Res(p, x) == x % p
  {
  }

  /** Flipping m bits subtracts from 2^m - 1. */
  lemma {:induction false} XorMask(a: nat, m: nat)
    requires a < Pow2(m)
    ensures BitXor(Pow2(m) - 1, a) == Pow2(m) - 1 - a
  {
    if m > 0 && a > 0 {
      XorMask(a / 2, m - 1);
      var q := Pow2(m - 1);
      assert (2 * q - 1) / 2 == q - 1 && (2 * q - 1) % 2 == 1;
    }
  }

  /** A single low bit beside an even word is added. */
  lemma XorLowBit(b: nat, c: nat)
    requires b < 2
    ensures BitXor(b, 2 * c) == b + 2 * c
  {
    if b == 1 && c > 0 {
      assert (2 * c) % 2 == 0 && (2 * c) / 2 == c;
      assert BitXor(0, c) == c;
    }
  }

  lemma {:induction false} PowersOfTwo()
    ensures Pow2(1) == 2 && Pow2(12) == 0x1000 && Pow2(19) == 0x8_0000 && Pow2(31) == 0x8000_0000
  {
    Pow2Add(12, 12);
    Pow2Add(12, 7);
    Pow2Add(24, 7);
    assert Pow2(7) == 128;
    assert Pow2(12) == 4096;
  }
}
