/** Probabilistic truncation on the level of secrets: a sharing is written as its secret. */
module Truncation {
  import opened Modular
  import opened Words
  import opened Gfp
  import opened GfpScalars

  ghost predicate Bits(bits: seq<int>) {
    forall i :: 0 <= i < |bits| ==> bits[i] == 0 || bits[i] == 1
  }

  // ---------------------------------------------------------------- truncated random sharings

  /** The number of a row of bits, weighted with the powers of two modulo PR. */
  method DotPowers(bits: seq<int>) returns (r: nat)
    requires Bits(bits)
    ensures PR > 0 && r == Res(PR, Number(bits, |bits|))
  {
    hide Res, MultMod, Pow2, Number;
    PrimeField();
    r := 0;
    var coeff := 1;
    NumberNone(bits);
    for i := 0 to |bits|
      invariant Scalar(r) && r == Res(PR, Number(bits, i))
      invariant Scalar(coeff) && coeff == Res(PR, Pow2(i))
    {
      DotStep(bits, i, r, coeff);
      r := AddMod(r, MultMod(coeff, bits[i]));
      coeff := AddMod(coeff, coeff);
    }
  }

  lemma NumberNone(bits: seq<int>)
    ensures PR > 0 && Number(bits, 0) == 0 && Res(PR, 0) == 0 && Res(PR, Pow2(0)) == 1
  {
  }

  lemma DotStep(bits: seq<int>, i: nat, r: nat, coeff: nat)
    requires i < |bits| && (bits[i] == 0 || bits[i] == 1) && PR > 0
    requires r == Res(PR, Number(bits, i)) && coeff == Res(PR, Pow2(i))
    ensures Scalar(MultMod(coeff, bits[i]))
    ensures AddMod(r, MultMod(coeff, bits[i])) == Res(PR, Number(bits, i + 1))
    ensures AddMod(coeff, coeff) == Res(PR, Pow2(i + 1))
  {
    hide Res, MultMod;
    MultModIs(coeff, bits[i]);
    ResRes(PR, Number(bits, i));
    ResRes(PR, Pow2(i));
    ResRes(PR, coeff * bits[i]);
    ResMul(PR, coeff, bits[i], Pow2(i));
    assert Pow2(i) * bits[i] == bits[i] * Pow2(i);
    ResOps(PR, r, MultMod(coeff, bits[i]), Number(bits, i), bits[i] * Pow2(i));
    ResOps(PR, coeff, coeff, Pow2(i), Pow2(i));
  }

  /** The bits of r / 2^12 with the top bit repeated above them. */
  function Shifted(bits: seq<int>): (r: seq<int>)
    requires |bits| == BITS_LENGTH
    ensures |r| == BITS_LENGTH && (Bits(bits) ==> Bits(r))
  {
    bits[FIXED_PRECISION..] + seq(FIXED_PRECISION, _ => bits[BITS_LENGTH - 1])
  }

  /** r and its arithmetic shift, from the same random bits. */
  method GenerateTruncatedRandom(bits: seq<int>) returns (trunc: nat, r: nat, msb: nat)
    requires |bits| == BITS_LENGTH && Bits(bits)
    ensures PR > 0 && r == Res(PR, Number(bits, BITS_LENGTH)) && msb == bits[BITS_LENGTH - 1]
    ensures trunc == Res(PR, Number(bits, BITS_LENGTH) / 0x1000 - msb * CONST_GAP_IN_TRUNCATION)
  {
    hide Number, Res;
    var truncBits := bits[FIXED_PRECISION..];
    for i := INT_PRECISION to BITS_LENGTH
      invariant |truncBits| == i
      invariant truncBits == Shifted(bits)[..i]
    {
      truncBits := truncBits + [bits[BITS_LENGTH - 1]];
    }
    assert truncBits == Shifted(bits);
    trunc := DotPowers(truncBits);
    r := DotPowers(bits);
    msb := bits[BITS_LENGTH - 1];
    ShiftedNumber(bits);
  }

  lemma {:induction false} NumberConcat(a: seq<int>, b: seq<int>, m: nat)
    requires m <= |b|
    ensures Number(a + b, |a| + m) == Number(a, |a|) + Pow2(|a|) * Number(b, m)
  {
    hide Number, Pow2;
    if m == 0 {
      NumberPrefix(a, b, |a|);
      NumberNone(b);
    } else {
      NumberConcat(a, b, m - 1);
      Pow2Add(|a|, m - 1);
      NumberLast(a + b, |a| + m);
      NumberLast(b, m);
      ConcatStep(Pow2(|a|), Pow2(m - 1), Number(b, m - 1), b[m - 1]);
    }
  }

  lemma ConcatStep(p: int, q: int, n: int, v: int)
    ensures p * (n + v * q) == p * n + v * (p * q)
  {
    assert p * (n + v * q) == p * n + p * (v * q);
    assert p * (v * q) == v * (p * q);
  }

  lemma {:induction false} NumberPrefix(a: seq<int>, b: seq<int>, m: nat)
    requires m <= |a|
    ensures Number(a + b, m) == Number(a, m)
  {
    if m > 0 {
      NumberPrefix(a, b, m - 1);
    }
  }

  lemma {:induction false} NumberBound(bits: seq<int>, m: nat)
    requires m <= |bits| && Bits(bits)
    ensures 0 <= Number(bits, m) < Pow2(m)
  {
    if m > 0 {
      NumberBound(bits, m - 1);
    }
  }

  lemma {:induction false} NumberRepeat(bit: int, m: nat)
    ensures Number(seq(m, _ => bit), m) == bit * (Pow2(m) - 1)
  {
    if m > 0 {
      NumberRepeat(bit, m - 1);
      var s := seq(m, _ => bit);
      assert s == seq(m - 1, _ => bit) + [bit];
      NumberPrefix(seq(m - 1, _ => bit), [bit], m - 1);
      var q := Pow2(m - 1);
      assert bit * (2 * q - 1) == bit * (q - 1) + bit * q;
    }
  }

  /** The shifted bits stand for the shifted number, less the gap when the top bit is set. */
  lemma ShiftedNumber(bits: seq<int>)
    requires |bits| == BITS_LENGTH && Bits(bits)
    ensures PR > 0
    ensures 0 <= Number(bits, BITS_LENGTH) <= PR
    ensures bits[BITS_LENGTH - 1] == (if Number(bits, BITS_LENGTH) >= 0x4000_0000 then 1 else 0)
    ensures Res(PR, Number(Shifted(bits), BITS_LENGTH)) ==
      Res(PR, Number(bits, BITS_LENGTH) / 0x1000 - bits[BITS_LENGTH - 1] * CONST_GAP_IN_TRUNCATION)
  {
    hide Number, Res, Pow2;
    PowersOfTwo();
    var low, high, msb := bits[..12], bits[12..], bits[30];
    assert bits == low + high;
    NumberConcat(low, high, 19);
    NumberBound(low, 12);
    NumberBound(high, 19);
    NumberBound(bits, 31);
    NumberTop(bits);
    var h := Number(high, 19);
    assert Number(bits, 31) == Number(low, 12) + 0x1000 * h;
    var tail := seq(12, _ => msb);
    NumberConcat(high, tail, 12);
    NumberRepeat(msb, 12);
    assert Shifted(bits) == high + tail;
    assert Number(Shifted(bits), 31) == h + 0x8_0000 * (msb * 0xFFF);
    ResShift(PR, h + 0x8_0000 * (msb * 0xFFF), h - msb * CONST_GAP_IN_TRUNCATION, msb);
  }

  lemma NumberTop(bits: seq<int>)
    requires |bits| == BITS_LENGTH && Bits(bits)
    ensures bits[30] == if Number(bits, 31) >= 0x4000_0000 then 1 else 0
  {
    hide Number, Pow2;
    NumberBound(bits, 30);
    NumberLast(bits, 31);
    PowerThirty();
  }

  lemma NumberLast(bits: seq<int>, m: nat)
    requires 0 < m <= |bits|
    ensures Number(bits, m) == Number(bits, m - 1) + bits[m - 1] * Pow2(m - 1)
  {
  }

  lemma PowerThirty()
    ensures Pow2(30) == 0x4000_0000
  {
    PowersOfTwo();
    assert Pow2(31) == 2 * Pow2(30);
  }

  // ---------------------------------------------------------------- the protocol

  /** What truncation computes for the secret x and the random number r. */
  function TruncateValue(x: nat, r: nat): (t: nat)
    requires x < PR
    ensures t < PR
  {
    var msb := if r >= 0x4000_0000 then 1 else 0;
    var shown := TruncOf(Res(PR, x + r + CONST_ENCODE), FIXED_PRECISION);
    var overflow := if msb == 0 && IsNegative(shown) then 1 else 0;
    Res(PR, shown - (r / 0x1000 - msb * CONST_GAP_IN_TRUNCATION) + CONST_GAP_IN_TRUNCATION * overflow - CONST_DECODE)
  }

  class Share {
    var share: nat
    var secret: nat

    constructor (s: nat)
      ensures share == s && secret == 0
    {
      share, secret := s, 0;
    }

    ghost predicate Valid()
      reads this
    {
      Scalar(share)
    }

    /** Masks, opens, truncates the shown value and removes the truncated mask. */
    method Truncate(bits: seq<int>)
      requires Valid() && |bits| == BITS_LENGTH && Bits(bits)
      modifies this
      ensures Valid() && 0 <= Number(bits, BITS_LENGTH)
      ensures share == TruncateValue(old(share), Number(bits, BITS_LENGTH))
    {
      hide Res, Number, TruncOf, MultMod, AdditiveInverse, AddMod, SubMod, Msb, TruncateValue, IsNegative;
      PrimeField();
      var trunc, r, rMsb := GenerateTruncatedRandom(bits);
      ShiftedNumber(bits);
      ghost var x, n := share, Number(bits, BITS_LENGTH);
      share := AddMod(share, AddMod(r, CONST_ENCODE));
      OpenedValue(x, n);
      secret := share;
      TruncRange(secret, FIXED_PRECISION);
      secret := TruncOf(secret, FIXED_PRECISION);
      var isOverflow := MultMod(SubMod(1, rMsb), Msb(secret));
      OverflowValue(rMsb, secret);
      ResultValue(secret, n / 0x1000 - rMsb * CONST_GAP_IN_TRUNCATION, isOverflow);
      TruncateValueIs(x, n, rMsb, secret, isOverflow);
      share := SubMod(AddMod(SubMod(secret, trunc), MultMod(CONST_GAP_IN_TRUNCATION, isOverflow)), CONST_DECODE);
    }
  }

  lemma OpenedValue(x: nat, n: nat)
    requires Scalar(x) && PR > 0
    ensures AddMod(x, AddMod(Res(PR, n), CONST_ENCODE)) == Res(PR, x + n + CONST_ENCODE)
  {
    hide Res;
    ResRes(PR, n);
    ResOps(PR, Res(PR, n), CONST_ENCODE, n, CONST_ENCODE);
    ResRes(PR, n + CONST_ENCODE);
    ResOps(PR, x, Res(PR, n + CONST_ENCODE), x, n + CONST_ENCODE);
  }

  lemma TruncateValueIs(x: nat, n: nat, msb: nat, shown: nat, overflow: nat)
    requires Scalar(x) && PR > 0 && msb == (if n >= 0x4000_0000 then 1 else 0)
    requires shown == TruncOf(Res(PR, x + n + CONST_ENCODE), FIXED_PRECISION)
    requires overflow == if msb == 0 && IsNegative(shown) then 1 else 0
    ensures TruncateValue(x, n) ==
      Res(PR, shown - (n / 0x1000 - msb * CONST_GAP_IN_TRUNCATION) + CONST_GAP_IN_TRUNCATION * overflow - CONST_DECODE)
  {
    hide Res, TruncOf, IsNegative;
  }

  lemma OverflowValue(msb: nat, shown: nat)
    requires msb < 2
    ensures MultMod(SubMod(1, msb), Msb(shown)) == if msb == 0 && IsNegative(shown) then 1 else 0
  {
    hide Res, MultMod, AdditiveInverse;
    PrimeField();
    SubModIs(1, msb);
    ResSmall(PR, 1 - msb);
    MultModIs(SubMod(1, msb), Msb(shown));
    ResSmall(PR, (1 - msb) * Msb(shown));
  }

  lemma ResultValue(shown: nat, mask: int, overflow: nat)
    requires Scalar(shown) && overflow < 2
    ensures PR > 0
    ensures SubMod(AddMod(SubMod(shown, Res(PR, mask)), MultMod(CONST_GAP_IN_TRUNCATION, overflow)), CONST_DECODE) ==
      Res(PR, shown - mask + CONST_GAP_IN_TRUNCATION * overflow - CONST_DECODE)
  {
    hide Res, MultMod, AdditiveInverse, AddMod;
    PrimeField();
    var m := Res(PR, mask);
    SubModIs(shown, m);
    ResRes(PR, mask);
    ResOps(PR, shown, m, shown, mask);
    MultModIs(CONST_GAP_IN_TRUNCATION, overflow);
    var g := CONST_GAP_IN_TRUNCATION * overflow;
    ResRes(PR, shown - mask);
    ResRes(PR, g);
    ResOps(PR, Res(PR, shown - mask), Res(PR, g), shown - mask, g);
    AddModIs(Res(PR, shown - mask), Res(PR, g));
    ResRes(PR, shown - mask + g);
    SubModIs(Res(PR, shown - mask + g), CONST_DECODE);
    ResOps(PR, Res(PR, shown - mask + g), CONST_DECODE, shown - mask + g, CONST_DECODE);
  }

  lemma AddModIs(a: nat, b: nat)
    requires Scalar(a) && Scalar(b)
    ensures PR > 0 && AddMod(a, b) == Res(PR, a + b)
  {
  }

  // ---------------------------------------------------------------- the bound

  /** The element that stands for the integer a. */
  function Encoded(a: int): nat
    requires a < PR && 0 < a + PR
  {
    if a < 0 then a + PR else a
  }

  /** The result differs from floor(a / 2^12) by at most 1. */
  ghost predicate Close(a: int, r: nat)
    requires 0 <= a + MAX_POSITIVE && a <= MAX_POSITIVE
  {
    var e := Signed(TruncateValue(Encoded(a), r)) - a / 0x1000;
    -1 <= e <= 1
  }

  /** The shown value for the shifted secret a + 2^29 and the mask r. */
  lemma OpenedInteger(a: int, r: nat)
    requires 0 <= a + MAX_POSITIVE && a <= MAX_POSITIVE && r <= PR && 0 <= a + 0x2000_0000 + r
    ensures PR > 0
    ensures var c := a + 0x2000_0000 + r;
      Res(PR, Encoded(a) + r + CONST_ENCODE) == if c < PR then c else c - PR
  {
    var c := a + 0x2000_0000 + r;
    if a < 0 {
      ResShift(PR, Encoded(a) + r + CONST_ENCODE, c, 1);
    }
    if c < PR {
      ResSmall(PR, c);
    } else {
      ResIs(PR, c, 1, c - PR);
    }
  }

  /** The truncated shown value in arithmetic. */
  lemma TruncInteger(x: nat)
    requires x < PR
    ensures var t := TruncOf(x, FIXED_PRECISION);
      if x > MAX_POSITIVE then
        var q := (PR - x) / 0x1000;
        t == if q == 0 then 0 else PR - q
      else t == x / 0x1000
  {
    hide ShiftRight, AdditiveInverse, Pow2;
    PowersOfTwo();
    AdditiveInverseIs(x);
    ShiftRightDiv(x, 12, 0x1000);
    ShiftRightDiv(AdditiveInverse(x), 12, 0x1000);
    AdditiveInverseIs(ShiftRight(AdditiveInverse(x), 12));
  }

  /** A small integer is what its element stands for. */
  lemma SignedOf(t: int)
    requires t <= MAX_POSITIVE && 0 <= t + MAX_POSITIVE
    ensures PR > 0 && Signed(Res(PR, t)) == t
  {
    if t < 0 {
      ResIs(PR, t, -1, t + PR);
    } else {
      ResSmall(PR, t);
    }
  }

  /** The exact result for a in [-2^29, 2^29 - 2^12] and a mask r: the shown sum is cut and the cut mask taken
      off, one less when the sum wraps around. */
  lemma TruncationValue(a: int, r: nat)
    requires -0x2000_0000 <= a <= 0x2000_0000 - 0x1000 && r <= PR
    ensures Signed(TruncateValue(Encoded(a), r)) ==
      if a + 0x2000_0000 + r < PR then (a + r) / 0x1000 - r / 0x1000 else (a + r + 1) / 0x1000 - 1 - r / 0x1000
  {
    hide Res, TruncOf;
    OpenedInteger(a, r);
    var c := a + 0x2000_0000 + r;
    var x := if c < PR then c else c - PR;
    TruncInteger(x);
    var msb := if r >= 0x4000_0000 then 1 else 0;
    var t := TruncOf(x, FIXED_PRECISION);
    var overflow := if msb == 0 && IsNegative(t) then 1 else 0;
    var v := t - (r / 0x1000 - msb * CONST_GAP_IN_TRUNCATION) + CONST_GAP_IN_TRUNCATION * overflow - CONST_DECODE;
    var w := if IsNegative(t) then v - PR else v;
    TruncationArithmetic(a, r, x, t, w);
    SignedOf(w);
    if IsNegative(t) {
      ResShift(PR, v, w, 1);
    }
  }

  /** For every a in [-2^29, 2^29 - 2^12] and every mask the error is at most 1. */
  lemma TruncationBound(a: int, r: nat)
    requires -0x2000_0000 <= a <= 0x2000_0000 - 0x1000 && r <= PR
    ensures Close(a, r)
  {
    hide TruncateValue, Signed;
    TruncationValue(a, r);
  }

  lemma TruncationArithmetic(a: int, r: nat, x: nat, t: nat, w: int)
    requires -0x2000_0000 <= a <= 0x2000_0000 - 0x1000 && r <= PR
    requires var c := a + 0x2000_0000 + r; x == if c < PR then c else c - PR
    requires if x > MAX_POSITIVE then var q := (PR - x) / 0x1000; t == (if q == 0 then 0 else PR - q) else t == x / 0x1000
    requires var msb := if r >= 0x4000_0000 then 1 else 0;
      var overflow := if msb == 0 && IsNegative(t) then 1 else 0;
      w == (if IsNegative(t) then t - PR else t) - (r / 0x1000 - msb * CONST_GAP_IN_TRUNCATION) + CONST_GAP_IN_TRUNCATION * overflow - CONST_DECODE
    ensures w == if a + 0x2000_0000 + r < PR then (a + r) / 0x1000 - r / 0x1000 else (a + r + 1) / 0x1000 - 1 - r / 0x1000
    ensures w <= MAX_POSITIVE && 0 <= w + MAX_POSITIVE
  {
  }

  /** Beyond 2^29 - 2^12 some mask opens a value that the truncation takes for a small one. */
  lemma TruncationFails(a: int)
    requires 0x2000_0000 - 0x1000 < a <= MAX_POSITIVE
    ensures !Close(a, 0x3FFF_FFFF)
  {
    hide Res, TruncOf;
    var r := 0x3FFF_FFFF;
    OpenedInteger(a, r);
    var c := a + 0x2000_0000 + r;
    var x := if c < PR then c else c - PR;
    TruncInteger(x);
    var t := TruncOf(x, FIXED_PRECISION);
    assert t == if c < PR then 0 else x / 0x1000;
    SignedOf(t - r / 0x1000 - CONST_DECODE);
  }

  /** Below -2^29 some mask makes up for the missing sign, and its own sign is taken off besides. */
  lemma TruncationFailsBelow(a: int)
    requires 0 <= a + MAX_POSITIVE && a < -0x2000_0000
    ensures !Close(a, 0x4000_0000)
  {
    hide Res, TruncOf;
    var r := 0x4000_0000;
    OpenedInteger(a, r);
    var x := a + 0x2000_0000 + r;
    TruncInteger(x);
    SignedOf(x / 0x1000 - (r / 0x1000 - CONST_GAP_IN_TRUNCATION) - CONST_DECODE);
  }

  /** Of all signed values, exactly those in [-2^29, 2^29 - 2^12] are truncated within 1 for every
      mask. */
  lemma TruncationExact(a: int)
    requires 0 <= a + MAX_POSITIVE && a <= MAX_POSITIVE
    ensures (forall r: nat :: r <= PR ==> Close(a, r)) <==> -0x2000_0000 <= a <= 0x2000_0000 - 0x1000
  {
    hide Close;
    if a < -0x2000_0000 {
      TruncationFailsBelow(a);
    } else if a > 0x2000_0000 - 0x1000 {
      TruncationFails(a);
    } else {
      forall r: nat | r <= PR ensures Close(a, r) {
        TruncationBound(a, r);
      }
    }
  }
}
