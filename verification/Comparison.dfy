/** Random bits, signs by masked comparison, and the tournament maximum, on the level of secrets. */
module Comparison {
  import opened Modular
  import opened Words
  import opened Gfp
  import opened GfpScalars
  import opened Truncation
  import opened BitProtocols

  // ---------------------------------------------------------------- random bits

  /** r / sqrt(r^2) is 1 or -1, which (x + 1) / 2 turns into a bit. A zero aborts. */
  method GenerateRandomBits(r: seq<nat>) returns (ok: bool, bits: seq<nat>)
    requires IsPrime(PR) && |r| > 0 && Scalars(r)
    ensures ok <==> 0 !in r
    ensures ok ==> |bits| == |r| && forall i :: 0 <= i < |r| ==> bits[i] == if IsNegative(r[i]) then 0 else 1
  {
    hide Res, MultMod, IsPrime, SqrtOf, AddMod;
    PrimeField();
    var s := MultiplyCwise(r, r);
    forall i | 0 <= i < |r| ensures s[i] == 0 <==> r[i] == 0 {
      SquareZero(r[i]);
    }
    for i := 0 to |s|
      invariant forall j :: 0 <= j < i ==> s[j] != 0
    {
      if s[i] == 0 {
        return false, [];
      }
    }
    var roots := RootsOf(r, s);
    var inverses := InvertRow(roots);
    var half := MultiplicativeInverse(2);
    bits := [];
    for i := 0 to |r|
      invariant |bits| == i && forall j :: 0 <= j < i ==> bits[j] == if IsNegative(r[j]) then 0 else 1
    {
      BitValue(r[i], roots[i], inverses[i], half);
      bits := bits + [MultMod(AddMod(MultMod(r[i], inverses[i]), 1), half)];
    }
    ok := true;
  }

  lemma SquareZero(r: nat)
    requires IsPrime(PR) && Scalar(r)
    ensures MultMod(r, r) == 0 <==> r == 0
  {
    hide Res, MultMod, IsPrime;
    PrimeField();
    MultModIs(r, r);
    ResSmall(PR, r);
    if r == 0 {
      ResZero(PR, 0);
    } else {
      NonzeroProduct(r, r);
    }
  }

  /** The roots of the squares: the representatives of positive sign. */
  method RootsOf(r: seq<nat>, s: seq<nat>) returns (roots: seq<nat>)
    requires IsPrime(PR) && Scalars(r) && 0 !in r && |s| == |r| && s == Cwise(r, r) && Scalars(s) && 0 !in s
    ensures |roots| == |r| && Scalars(roots) && 0 !in roots
    ensures forall i :: 0 <= i < |r| ==> roots[i] == if IsNegative(r[i]) then PR - r[i] else r[i]
  {
    hide Res, MultMod, IsPrime, SqrtOf;
    PrimeField();
    roots := [];
    for i := 0 to |s|
      invariant |roots| == i && Scalars(roots) && 0 !in roots
      invariant forall j :: 0 <= j < i ==> roots[j] == if IsNegative(r[j]) then PR - r[j] else r[j]
    {
      MultModIs(r[i], r[i]);
      SqrtSquare(r[i]);
      var x := new GfpScalar(s[i]);
      x.Sqrt();
      roots := roots + [x.value];
    }
  }

  lemma BitValue(r: nat, root: nat, inv: nat, half: nat)
    requires IsPrime(PR) && Scalar(r) && r != 0 && Scalar(root) && Scalar(inv) && Scalar(half) && PR > 0
    requires root == (if IsNegative(r) then PR - r else r) && Res(PR, root * inv) == 1 && Res(PR, 2 * half) == 1
    ensures MultMod(AddMod(MultMod(r, inv), 1), half) == if IsNegative(r) then 0 else 1
  {
    hide Res, MultMod, IsPrime;
    MultModIs(r, inv);
    if IsNegative(r) {
      assert r * inv == PR * inv - (PR - r) * inv;
      ResShift(PR, r * inv, 0 - root * inv, inv);
      ResZero(PR, 0);
      ResSmall(PR, 1);
      ResOps(PR, 0, root * inv, 0, 1);
      ResIs(PR, -1, -1, PR - 1);
      AddModIs(PR - 1, 1);
      ResIs(PR, PR, 1, 0);
      MultModIs(0, half);
      assert 0 * half == 0;
    } else {
      AddModIs(1, 1);
      ResSmall(PR, 2);
      MultModIs(2, half);
    }
  }

  // ---------------------------------------------------------------- least significant bit, sign, ReLU

  /** The parity of x, from the opened sum of x and a random number known bit by bit. Whether the
      sum wrapped is decided by comparing with the negated sum; a sum of exactly PR is not seen. */
  method GetLSB(x: nat, rBits: seq<nat>, rb: seq<nat>, aux: seq<nat>) returns (lsb: nat)
    requires IsPrime(PR) && Scalar(x) && |rBits| == BITS_LENGTH && BitRow(rBits)
    requires |rb| == BITS_LENGTH && Scalars(rb) && Scalars(aux) && Correlated(rb, aux)
    ensures 0 <= Number(rBits, BITS_LENGTH) <= PR
    ensures lsb == if x + Number(rBits, BITS_LENGTH) == PR then 1 - x % 2 else x % 2
  {
    hide Res, MultMod, IsPrime, Number, AdditiveInverse, AddMod, BitOf, Correlated;
    PrimeField();
    BitsOfRow(rBits);
    var rField := DotPowers(rBits);
    ghost var n := Number(rBits, BITS_LENGTH);
    var rLSB := rBits[0];
    var mask := AddMod(x, rField);
    MaskValue(x, n);
    var maskLSB := mask % 2;
    XorValue(rLSB, maskLSB);
    var lsb0 := SubMod(AddMod(rLSB, maskLSB), MultMod(2, MultMod(rLSB, maskLSB)));
    AdditiveInverseIs(mask);
    WordFits(AdditiveInverse(mask));
    var maskBits := DecomposeBits(AdditiveInverse(mask), BITS_LENGTH);
    var complement := Complement(rBits);
    NegatedBits(mask, maskBits);
    ComplementNumber(rBits, complement, BITS_LENGTH);
    var wrap := LessThanUnsigned(complement, maskBits, rb, aux);
    XorValue(lsb0, wrap);
    lsb := SubMod(AddMod(lsb0, wrap), MultMod(2, MultMod(lsb0, wrap)));
    LowBit(rBits, BITS_LENGTH);
    WrapParity(x, n, mask, wrap);
  }

  lemma BitsOfRow(bits: seq<nat>)
    requires |bits| == BITS_LENGTH && BitRow(bits)
    ensures Bits(bits) && 0 <= Number(bits, BITS_LENGTH) <= PR
  {
    hide Number;
    PowersOfTwo();
    NumberBound(bits, BITS_LENGTH);
  }

  lemma MaskValue(x: nat, n: nat)
    requires Scalar(x) && n <= PR
    ensures PR > 0 && AddMod(x, Res(PR, n)) == if x + n >= PR then x + n - PR else x + n
  {
    hide Res;
    if n == PR {
      ResIs(PR, n, 1, 0);
    } else {
      ResSmall(PR, n);
    }
    AddModIs(x, Res(PR, n));
    var c := x + Res(PR, n);
    if c >= PR {
      ResIs(PR, c, 1, c - PR);
    } else {
      ResSmall(PR, c);
    }
  }

  lemma WordFits(x: nat)
    requires x < PR
    ensures x < Pow2(BITS_LENGTH)
  {
    PowersOfTwo();
  }

  lemma NegatedBits(mask: nat, bits: seq<nat>)
    requires Scalar(mask) && |bits| == BITS_LENGTH
    requires forall i :: 0 <= i < BITS_LENGTH ==> bits[i] == BitOf(AdditiveInverse(mask), i)
    ensures BitRow(bits) && Number(bits, BITS_LENGTH) == if mask == 0 then 0 else PR - mask
  {
    hide Number, AdditiveInverse, ShiftRight, Pow2;
    AdditiveInverseIs(mask);
    var y := AdditiveInverse(mask);
    NumberOfBits(y, bits, BITS_LENGTH);
    PowersOfTwo();
    ShiftRightDiv(y, BITS_LENGTH, 0x8000_0000);
  }

  lemma {:induction false} ComplementNumber(bits: seq<nat>, c: seq<nat>, m: nat)
    requires m <= |bits| == |c| && BitRow(bits) && forall i :: 0 <= i < |bits| ==> c[i] == 1 - bits[i]
    ensures Number(c, m) == Pow2(m) - 1 - Number(bits, m)
  {
    if m > 0 {
      ComplementNumber(bits, c, m - 1);
      var q, v := Pow2(m - 1), bits[m - 1];
      assert (1 - v) * q == q - v * q;
    }
  }

  /** The lowest bit is the parity. */
  lemma {:induction false} LowBit(bits: seq<nat>, m: nat)
    requires 0 < m <= |bits| && BitRow(bits)
    ensures Number(bits, m) % 2 == bits[0]
  {
    if m == 1 {
      assert Number(bits, 1) == Number(bits, 0) + bits[0] * Pow2(0);
    } else {
      LowBit(bits, m - 1);
      var q, v := Pow2(m - 2), bits[m - 1];
      assert Pow2(m - 1) == 2 * q;
      assert v * (2 * q) == 2 * (v * q);
    }
  }

  /** The wrap corrects the parity unless the sum is exactly PR. */
  lemma WrapParity(x: nat, n: nat, mask: nat, wrap: nat)
    requires Scalar(x) && n <= PR && mask == if x + n >= PR then x + n - PR else x + n
    requires wrap == if PR - n < (if mask == 0 then 0 else PR - mask) then 1 else 0
    ensures var l := if n % 2 != mask % 2 then 1 else 0;
      (if l != wrap then 1 else 0) == if x + n == PR then 1 - x % 2 else x % 2
  {
  }

  /** The sign bit: the parity of 2x. */
  method GetMSB(x: nat, rBits: seq<nat>, rb: seq<nat>, aux: seq<nat>) returns (msb: nat)
    requires IsPrime(PR) && Scalar(x) && |rBits| == BITS_LENGTH && BitRow(rBits)
    requires |rb| == BITS_LENGTH && Scalars(rb) && Scalars(aux) && Correlated(rb, aux)
    ensures msb < 2
    ensures msb == Msb(x) <==> Doubled(x) + Number(rBits, BITS_LENGTH) != PR
  {
    hide Res, MultMod, IsPrime, Number, Correlated;
    PrimeField();
    DoubledIs(x);
    msb := GetLSB(MultMod(2, x), rBits, rb, aux);
  }

  /** 2x as a field element. */
  function Doubled(x: nat): nat {
    if 2 * x >= PR then 2 * x - PR else 2 * x
  }

  lemma DoubledIs(x: nat)
    requires Scalar(x)
    ensures MultMod(2, x) == Doubled(x) < PR && Doubled(x) % 2 == Msb(x)
  {
    hide Res, MultMod;
    PrimeField();
    MultModIs(2, x);
    if 2 * x >= PR {
      ResIs(PR, 2 * x, 1, 2 * x - PR);
    } else {
      ResSmall(PR, 2 * x);
    }
  }

  /** 1 for nonnegative values and 0 for negative ones. */
  method DeltaReLU(x: nat, rBits: seq<nat>, rb: seq<nat>, aux: seq<nat>) returns (d: nat)
    requires IsPrime(PR) && Scalar(x) && |rBits| == BITS_LENGTH && BitRow(rBits)
    requires |rb| == BITS_LENGTH && Scalars(rb) && Scalars(aux) && Correlated(rb, aux)
    ensures d < 2
    ensures d == 1 - Msb(x) <==> Doubled(x) + Number(rBits, BITS_LENGTH) != PR
  {
    hide Res, IsPrime, Number, Correlated, AdditiveInverse;
    PrimeField();
    var msb := GetMSB(x, rBits, rb, aux);
    SubModIs(1, msb);
    ResSmall(PR, 1 - msb);
    d := SubMod(1, msb);
  }

  /** The signed maximum with zero, unless the mask hides the sign. */
  method ReLU(x: nat, rBits: seq<nat>, rb: seq<nat>, aux: seq<nat>) returns (y: nat)
    requires IsPrime(PR) && Scalar(x) && |rBits| == BITS_LENGTH && BitRow(rBits)
    requires |rb| == BITS_LENGTH && Scalars(rb) && Scalars(aux) && Correlated(rb, aux)
    ensures Scalar(y)
    ensures Doubled(x) + Number(rBits, BITS_LENGTH) != PR ==> Signed(y) == if Signed(x) > 0 then Signed(x) else 0
    ensures Doubled(x) + Number(rBits, BITS_LENGTH) == PR ==> Signed(y) == if Signed(x) < 0 then Signed(x) else 0
  {
    hide Res, IsPrime, Number, Correlated, MultMod;
    PrimeField();
    var d := DeltaReLU(x, rBits, rb, aux);
    MultModIs(x, d);
    assert x * 0 == 0 && x * 1 == x;
    ResSmall(PR, x);
    ResZero(PR, 0);
    y := MultMod(x, d);
  }
}
