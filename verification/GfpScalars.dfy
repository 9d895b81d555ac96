/** Scalar objects and vectors of scalars: powers, roots, truncation, batch inversion, bits. */
module GfpScalars {
  import opened Modular
  import opened Words
  import opened Gfp

  class GfpScalar {
    var value: nat

    ghost predicate Valid()
      reads this
    {
      Scalar(value)
    }

    constructor (v: nat)
      ensures value == v
    {
      value := v;
    }

    /** Square and multiply. */
    method Power(exp: nat)
      requires Valid()
      modifies this
      ensures Valid() && PR > 0 && value == Res(PR, Pow(old(value), exp))
    {
      hide Res, MultMod, Pow;
      PrimeField();
      var res := 1;
      var vPow := value;
      var e := exp;
      ghost var x := value;
      PowZero(x);
      ResSmall(PR, 1);
      while e != 0
        invariant Scalar(res) && Scalar(vPow)
        invariant Res(PR, res * Pow(vPow, e)) == Res(PR, Pow(x, exp))
      {
        PowerStep(res, vPow, e);
        if e % 2 == 1 {
          MultModIs(res, vPow);
          res := MultMod(res, vPow);
        }
        e := e / 2;
        MultModIs(vPow, vPow);
        vPow := MultMod(vPow, vPow);
      }
      PowZero(vPow);
      ResSmall(PR, res);
      value := res;
    }

    /** The root of positive sign; 0 is not allowed. */
    method Sqrt()
      requires Valid() && value > 0
      modifies this
      ensures Valid() && value == SqrtOf(old(value))
    {
      hide Res, AdditiveInverse, Pow;
      PrimeField();
      Power(SQRT_EXP);
      if value >= 1 && value < MID_PR {
        return;
      } else {
        AdditiveInverseIs(value);
        value := AdditiveInverse(value);
      }
    }

    /** Drops the low d bits, keeping the sign. */
    method Truncate(d: nat)
      requires Valid()
      modifies this
      ensures Valid() && value == TruncOf(old(value), d)
    {
      hide ShiftRight, BitXor, AdditiveInverse;
      TruncRange(value, d);
      if IsNegative(value) {
        value := AdditiveInverse(value);
        value := ShiftRight(value, d);
        value := AdditiveInverse(value);
      } else {
        value := ShiftRight(value, d);
      }
    }
  }

  lemma PowZero(x: int)
    ensures Pow(x, 0) == 1
  {
  }

  /** A power from the power with half the exponent. */
  lemma PowerHalves(v: int, e: nat)
    ensures var w := Pow(v, e / 2);
      Pow(v, e) == if e % 2 == 1 then (w * w) * v else w * w
  {
    hide Pow;
    var h := e / 2;
    PowAdd(v, h, h);
    if e % 2 == 1 {
      PowAdd(v, h + h, 1);
      PowOnce(v);
    }
  }

  /** The invariant res * v^e survives squaring v and halving e. */
  lemma PowerStep(res: nat, v: nat, e: nat)
    requires e > 0 && PR > 0
    ensures var r := if e % 2 == 1 then Res(PR, res * v) else res;
      Res(PR, r * Pow(Res(PR, v * v), e / 2)) == Res(PR, res * Pow(v, e))
  {
    hide Res, Pow;
    var w, u := Pow(v, e / 2), Pow(Res(PR, v * v), e / 2);
    ResRes(PR, v * v);
    PowRes(PR, Res(PR, v * v), v * v, e / 2);
    PowMulBase(v, v, e / 2);
    PowerHalves(v, e);
    if e % 2 == 1 {
      OddPower(res, v, w, u);
    } else {
      ResOps(PR, res, u, res, w * w);
    }
  }

  lemma OddPower(res: int, v: int, w: int, u: int)
    requires PR > 0 && Res(PR, u) == Res(PR, w * w)
    ensures Res(PR, Res(PR, res * v) * u) == Res(PR, res * ((w * w) * v))
  {
    hide Res;
    var q := w * w;
    ResRes(PR, res * v);
    ResOps(PR, Res(PR, res * v), u, res * v, q);
    assert (res * v) * q == res * (v * q);
    assert v * q == q * v;
  }

  lemma TruncRange(x: nat, d: nat)
    requires Scalar(x)
    ensures Scalar(TruncOf(x, d)) && AdditiveInverse(x) < PR
    ensures ShiftRight(AdditiveInverse(x), d) <= AdditiveInverse(x) && ShiftRight(x, d) <= x
  {
    hide ShiftRight, AdditiveInverse;
    AdditiveInverseIs(x);
    ShiftDown(x, d);
    ShiftDown(AdditiveInverse(x), d);
    AdditiveInverseIs(ShiftRight(AdditiveInverse(x), d));
  }

  lemma {:induction false} ShiftDown(x: nat, d: nat)
    ensures ShiftRight(x, d) <= x
  {
    if d > 0 {
      ShiftDown(x, d - 1);
    }
  }

  /** Truncation rounds the signed value toward zero. */
  lemma TruncSigned(x: nat, d: nat)
    requires Scalar(x)
    ensures var s := Signed(x);
      Signed(TruncOf(x, d)) == if s < 0 then -((0 - s) / Pow2(d)) else s / Pow2(d)
  {
    hide ShiftRight, AdditiveInverse, Pow2;
    TruncRange(x, d);
    AdditiveInverseIs(x);
    ShiftRightDiv(x, d, Pow2(d));
    ShiftRightDiv(AdditiveInverse(x), d, Pow2(d));
    AdditiveInverseIs(ShiftRight(AdditiveInverse(x), d));
  }

  // ---------------------------------------------------------------- batch inversion

  /** The product of the first m entries. */
  function Product(a: seq<int>, m: nat): int
    requires m <= |a|
  {
    if m == 0 then 1 else Product(a, m - 1) * a[m - 1]
  }

  /** Prefix products, in place of res. */
  method PrefixMult(a: array<nat>, res: array<nat>)
    requires a != res && a.Length == res.Length > 0 && forall i :: 0 <= i < a.Length ==> Scalar(a[i])
    modifies res
    ensures PR > 0 && forall i :: 0 <= i < a.Length ==> res[i] == Res(PR, Product(a[..], i + 1))
  {
    hide Res, MultMod, Product;
    PrimeField();
    ProductOne(a[..]);
    ResSmall(PR, a[0]);
    res[0] := a[0];
    for i := 1 to a.Length
      invariant forall j :: 0 <= j < i ==> res[j] == Res(PR, Product(a[..], j + 1))
    {
      ProductMore(a[..], i, res[i - 1]);
      res[i] := MultMod(res[i - 1], a[i]);
    }
  }

  lemma ProductOne(a: seq<nat>)
    requires |a| > 0
    ensures Product(a, 1) == a[0]
  {
    assert Product(a, 1) == Product(a, 0) * a[0];
  }

  lemma ProductMore(a: seq<nat>, i: nat, q: nat)
    requires i < |a| && Scalar(a[i]) && PR > 0 && q == Res(PR, Product(a, i))
    ensures MultMod(q, a[i]) == Res(PR, Product(a, i + 1))
  {
    hide Res, MultMod;
    MultModIs(q, a[i]);
    ResRes(PR, Product(a, i));
    ResMul(PR, q, a[i], Product(a, i));
  }

  /** Inverts every entry with a single inversion. If all entries are nonzero all are inverted;
      if one is zero every result is zero. */
  method BatchInversion(a: array<nat>, aInv: array<nat>)
    requires IsPrime(PR) && a != aInv && a.Length == aInv.Length > 0
    requires forall i :: 0 <= i < a.Length ==> Scalar(a[i])
    modifies aInv
    ensures PR > 0 && forall i :: 0 <= i < a.Length ==> Scalar(aInv[i])
    ensures 0 !in a[..] ==> forall i :: 0 <= i < a.Length ==> Res(PR, a[i] * aInv[i]) == 1
    ensures 0 in a[..] ==> forall i :: 0 <= i < a.Length ==> aInv[i] == 0
  {
    hide Res, MultMod, Product, Inv, IsPrime, InverseOf, EntryInverse;
    PrimeField();
    var n := a.Length;
    var prefix := new nat[n];
    PrefixMult(a, prefix);
    ghost var s := a[..];
    var last := MultiplicativeInverse(prefix[n - 1]);
    LastInverse(s, prefix[n - 1], last);
    var inv := SuffixInverses(a, last);
    FirstEntry(s, inv[0]);
    aInv[0] := inv[0];
    MultiplyEntries(prefix, inv, aInv, s);
    EntriesInverted(s, aInv[..]);
  }

  /** The remaining entries are products of a prefix and an inverted suffix. */
  method MultiplyEntries(prefix: array<nat>, inv: array<nat>, aInv: array<nat>, ghost s: seq<nat>)
    requires prefix.Length == inv.Length == aInv.Length == |s| > 0 && aInv != prefix && aInv != inv && PR > 0
    requires forall i :: 0 <= i < |s| ==> prefix[i] == Res(PR, Product(s, i + 1))
    requires forall i :: 1 <= i < |s| ==> Scalar(inv[i]) && InverseOf(s, i, inv[i])
    requires Scalar(aInv[0]) && EntryInverse(s, 0, aInv[0])
    modifies aInv
    ensures forall k :: 0 <= k < |s| ==> Scalar(aInv[k]) && EntryInverse(s, k, aInv[k])
  {
    hide Res, MultMod, Product, InverseOf, EntryInverse;
    for j := 1 to aInv.Length
      invariant forall k :: 0 <= k < j ==> Scalar(aInv[k]) && EntryInverse(s, k, aInv[k])
    {
      EntryStep(s, j, prefix[j - 1], inv[j]);
      aInv[j] := MultMod(prefix[j - 1], inv[j]);
    }
  }

  lemma EntriesInverted(s: seq<nat>, t: seq<nat>)
    requires |s| == |t| && forall k :: 0 <= k < |s| ==> EntryInverse(s, k, t[k])
    ensures PR > 0
    ensures 0 !in s ==> forall i :: 0 <= i < |s| ==> Res(PR, s[i] * t[i]) == 1
    ensures 0 in s ==> forall i :: 0 <= i < |s| ==> t[i] == 0
  {
    hide Res;
  }

  /** From the inverse of the whole product down to that of the first entry. */
  method SuffixInverses(a: array<nat>, last: nat) returns (inv: array<nat>)
    requires a.Length > 0 && forall i :: 0 <= i < a.Length ==> Scalar(a[i])
    requires Scalar(last) && InverseOf(a[..], a.Length - 1, last)
    ensures fresh(inv) && inv.Length == a.Length
    ensures forall j :: 0 <= j < a.Length ==> Scalar(inv[j]) && InverseOf(a[..], j, inv[j])
  {
    hide Res, MultMod, Product, InverseOf;
    var n := a.Length;
    ghost var s := a[..];
    inv := new nat[n];
    inv[n - 1] := last;
    var i := n - 1;
    while i >= 1
      invariant 0 <= i < n
      invariant forall j :: i <= j < n ==> Scalar(inv[j]) && InverseOf(s, j, inv[j])
    {
      InverseStep(s, i, inv[i]);
      inv[i - 1] := MultMod(inv[i], a[i]);
      i := i - 1;
    }
  }

  /** q inverts the product of the first j + 1 entries, or is zero when an entry is. */
  ghost predicate InverseOf(s: seq<nat>, j: nat, q: nat)
    requires j < |s|
  {
    PR > 0 && if 0 in s then q == 0 else Res(PR, Product(s, j + 1) * q) == 1
  }

  ghost predicate EntryInverse(s: seq<nat>, j: nat, q: nat)
    requires j < |s|
  {
    PR > 0 && if 0 in s then q == 0 else Res(PR, s[j] * q) == 1
  }

  lemma {:induction false} ProductZero(s: seq<nat>, m: nat)
    requires IsPrime(PR) && m <= |s| && forall i :: 0 <= i < |s| ==> Scalar(s[i])
    ensures PR > 0 && (Res(PR, Product(s, m)) == 0 <==> 0 in s[..m])
  {
    hide Res, IsPrime;
    PrimeField();
    if m == 0 {
      ResSmall(PR, 1);
    } else {
      ProductZero(s, m - 1);
      var p, x := Product(s, m - 1), s[m - 1];
      ResSmall(PR, x);
      if Res(PR, p * x) == 0 {
        Cancel(PR, p, x);
      }
      if Res(PR, p) == 0 {
        ResZeroMul(PR, p, x);
      }
      if x == 0 {
        ResZero(PR, 0);
      }
      assert s[..m] == s[..m - 1] + [x];
    }
  }

  lemma LastInverse(s: seq<nat>, p: nat, q: nat)
    requires IsPrime(PR) && |s| > 0 && (forall i :: 0 <= i < |s| ==> Scalar(s[i])) && PR > 0
    requires p == Res(PR, Product(s, |s|)) && q == Inv(PR, p)
    ensures InverseOf(s, |s| - 1, q)
  {
    hide Res, IsPrime, Product, ExtGcd;
    ProductZero(s, |s|);
    assert s[..|s|] == s;
    ResSmall(PR, p);
    if 0 !in s {
      InvMul(PR, p);
      ResRes(PR, Product(s, |s|));
      ResMul(PR, p, q, Product(s, |s|));
    }
  }

  lemma InverseStep(s: seq<nat>, i: nat, q: nat)
    requires 1 <= i < |s| && Scalar(q) && Scalar(s[i]) && InverseOf(s, i, q)
    ensures Scalar(MultMod(q, s[i])) && InverseOf(s, i - 1, MultMod(q, s[i]))
  {
    hide Res, MultMod;
    MultModIs(q, s[i]);
    var p, x := Product(s, i), s[i];
    if 0 in s {
      assert 0 * x == 0;
      ResZero(PR, 0);
    } else {
      ResRes(PR, q * x);
      ResMul(PR, Res(PR, q * x), p, q * x);
      assert p * (q * x) == (p * x) * q;
    }
  }

  lemma FirstEntry(s: seq<nat>, q: nat)
    requires |s| > 0 && InverseOf(s, 0, q)
    ensures EntryInverse(s, 0, q)
  {
    hide Res;
    ProductOne(s);
  }

  lemma EntryStep(s: seq<nat>, j: nat, p: nat, q: nat)
    requires 1 <= j < |s| && Scalar(q) && PR > 0 && p == Res(PR, Product(s, j)) && InverseOf(s, j, q)
    ensures Scalar(MultMod(p, q)) && EntryInverse(s, j, MultMod(p, q))
  {
    hide Res, MultMod;
    MultModIs(p, q);
    var u, x := Product(s, j), s[j];
    if 0 in s {
      assert p * 0 == 0;
      ResZero(PR, 0);
    } else {
      ResRes(PR, u);
      ResMul(PR, p, q, u);
      ResRes(PR, p * q);
      ResMul(PR, Res(PR, p * q), x, u * q);
      assert x * (u * q) == (u * x) * q;
      assert Res(PR, Res(PR, p * q)) == Res(PR, u * q);
    }
  }

  // ---------------------------------------------------------------- bits

  /** Bit i of x. */
  function BitOf(x: nat, i: nat): (r: nat)
    ensures r < 2
  {
    ShiftRight(x, i) % 2
  }

  /** The first m bits of a little-endian row as a number. */
  function Number(bits: seq<int>, m: nat): int
    requires m <= |bits|
  {
    if m == 0 then 0 else Number(bits, m - 1) + bits[m - 1] * Pow2(m - 1)
  }

  /** The bits of x, least significant first; unused positions are zero. */
  method DecomposeBits(x: nat, bitLength: nat) returns (res: seq<nat>)
    requires x < Pow2(bitLength)
    ensures |res| == bitLength && forall i :: 0 <= i < bitLength ==> res[i] == BitOf(x, i)
  {
    hide Pow2, ShiftRight;
    res := seq(bitLength, _ => 0);
    var idx: nat := 0;
    var y: nat := x;
    ShiftNone(x);
    while y != 0
      invariant |res| == bitLength && idx <= bitLength && y < Pow2(bitLength - idx)
      invariant forall i :: 0 <= i < idx ==> res[i] == BitOf(x, i)
      invariant forall i :: idx <= i < bitLength ==> res[i] == 0
      invariant y == ShiftRight(x, idx)
      decreases y
    {
      BitRoom(y, bitLength - idx);
      ShiftOnce(x, idx);
      res := res[idx := y % 2];
      idx := idx + 1;
      y := y / 2;
    }
    forall i | idx <= i < bitLength ensures res[i] == BitOf(x, i) {
      ShiftZero(x, idx, i);
    }
  }

  lemma BitRoom(y: nat, m: nat)
    requires 0 < y < Pow2(m)
    ensures m > 0 && y / 2 < Pow2(m - 1)
  {
  }

  lemma ShiftNone(x: nat)
    ensures ShiftRight(x, 0) == x
  {
  }

  lemma ShiftOnce(x: nat, i: nat)
    ensures ShiftRight(x, i + 1) == ShiftRight(x, i) / 2
  {
  }

  lemma {:induction false} ShiftZero(x: nat, i: nat, j: nat)
    requires ShiftRight(x, i) == 0 && i <= j
    ensures ShiftRight(x, j) == 0
  {
    if i < j {
      ShiftZero(x, i, j - 1);
    }
  }

  /** The bits make up the number. */
  lemma {:induction false} NumberOfBits(x: nat, bits: seq<int>, m: nat)
    requires m <= |bits| && forall i :: 0 <= i < m ==> bits[i] == BitOf(x, i)
    ensures x == Number(bits, m) + ShiftRight(x, m) * Pow2(m)
  {
    if m > 0 {
      NumberOfBits(x, bits, m - 1);
      HalfSum(ShiftRight(x, m - 1), Pow2(m - 1));
    }
  }

  lemma HalfSum(s: nat, q: nat)
    ensures s * q == (s % 2) * q + (s / 2) * (2 * q)
  {
    var h, r := s / 2, s % 2;
    assert s == 2 * h + r;
    assert (2 * h + r) * q == 2 * h * q + r * q;
    assert h * (2 * q) == 2 * h * q;
  }
}
