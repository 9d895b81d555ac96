/** Fermat's little theorem, by Pascal's triangle. */
module Fermat {
  import opened Modular
  import opened Poly

  /** Binomial coefficients. */
  function Choose(n: nat, k: nat): nat {
    if k == 0 then 1 else if n == 0 then 0 else Choose(n - 1, k - 1) + Choose(n - 1, k)
  }

  lemma {:induction false} ChooseAbove(n: nat, k: nat)
    requires k > n
    ensures Choose(n, k) == 0
  {
    if n > 0 {
      ChooseAbove(n - 1, k - 1);
      ChooseAbove(n - 1, k);
    }
  }

  lemma {:induction false} ChooseAll(n: nat)
    ensures Choose(n, n) == 1
  {
    if n > 0 {
      ChooseAll(n - 1);
      ChooseAbove(n - 1, n);
    }
  }

  /** k * C(n, k) == n * C(n - 1, k - 1). */
  lemma {:induction false} Absorb(n: nat, k: nat)
    requires n > 0 && k > 0
    ensures k * Choose(n, k) == n * Choose(n - 1, k - 1)
    decreases n
  {
    if n == 1 {
      if k > 1 {
        ChooseAbove(1, k);
        ChooseAbove(0, k - 1);
      }
    } else {
      var a, b := Choose(n - 1, k - 1), Choose(n - 1, k);
      Absorb(n - 1, k);
      if k > 1 {
        Absorb(n - 1, k - 1);
        var c, d := Choose(n - 2, k - 2), Choose(n - 2, k - 1);
        assert a == c + d;
        AbsorbStep(n, k, a, b, c, d);
      } else {
        assert a == 1 && Choose(n - 2, 0) == 1;
      }
    }
  }

  lemma AbsorbStep(n: int, k: int, a: int, b: int, c: int, d: int)
    requires a == c + d && k * b == (n - 1) * d && (k - 1) * a == (n - 1) * c
    ensures k * (a + b) == n * a
  {
    assert k * (a + b) == k * a + k * b;
    assert (k - 1) * a == k * a - a;
    assert (n - 1) * c + (n - 1) * d == (n - 1) * (c + d);
    assert (n - 1) * a == n * a - a;
  }

  /** A prime divides its inner binomial coefficients. */
  lemma ChoosePrime(p: nat, k: nat)
    requires IsPrime(p) && 0 < k < p
    ensures Res(p, Choose(p, k)) == 0
  {
    hide Res, Choose, IsPrime;
    PrimePositive(p);
    Absorb(p, k);
    var c, d := Choose(p, k), Choose(p - 1, k - 1);
    ResZero(p, d);
    assert p * d == d * p;
    Cancel(p, k, c);
    ResSmall(p, k);
  }

  /** Row n of Pascal's triangle. */
  function Row(n: nat): (r: seq<int>)
    ensures |r| == n + 1
  {
    seq(n + 1, k requires 0 <= k < n + 1 => Choose(n, k))
  }

  /** (x + 1)^n has the coefficients of row n. */
  lemma {:induction false} Binomial(n: nat, x: int)
    ensures Eval(Row(n), x) == Pow(x + 1, n)
  {
    hide Eval, Row, AddP, Pow;
    if n == 0 {
      FirstRow(x);
    } else {
      Binomial(n - 1, x);
      var r := Row(n - 1);
      PascalRow(n);
      EvalAdd(r, [0] + r, x);
      ShiftValue(r, x);
      PowNext(x + 1, n);
      assert (x + 1) * Pow(x + 1, n - 1) == x * Pow(x + 1, n - 1) + Pow(x + 1, n - 1);
    }
  }

  lemma FirstRow(x: int)
    ensures Eval(Row(0), x) == Pow(x + 1, 0)
  {
    assert Row(0) == [1] && [1][1..] == [];
    assert Eval([1], x) == 1 + x * Eval([1][1..], x);
  }

  /** Each row is the one above it added to itself, shifted. */
  lemma PascalRow(n: nat)
    requires n > 0
    ensures Row(n) == AddP(Row(n - 1), [0] + Row(n - 1))
  {
    var r := Row(n - 1);
    ChooseAbove(n - 1, n);
    forall k | 0 <= k < n + 1 ensures Row(n)[k] == AddP(r, [0] + r)[k] {
    }
  }

  lemma ShiftValue(r: seq<int>, x: int)
    ensures Eval([0] + r, x) == x * Eval(r, x)
  {
    assert ([0] + r)[1..] == r;
  }

  lemma PowNext(b: int, n: nat)
    requires n > 0
    ensures Pow(b, n) == b * Pow(b, n - 1)
  {
  }

  /** The first and last coefficients survive modulo p. */
  lemma FreshmanStep(p: nat, x: int)
    requires IsPrime(p)
    ensures p > 0 && Res(p, Pow(x + 1, p)) == Res(p, Pow(x, p) + 1)
  {
    hide Res, IsPrime;
    PrimePositive(p);
    Binomial(p, x);
    var r := Row(p);
    var ends := [1] + seq(p - 1, _ => 0) + [1];
    ChooseAll(p);
    forall k | 0 <= k < |r| ensures Res(p, r[k]) == Res(p, ends[k]) {
      if 0 < k < p {
        ChoosePrime(p, k);
        ResZero(p, 0);
      }
    }
    EvalRes(p, r, ends, x, x);
    EndsValue(p, x);
  }

  lemma EndsValue(p: nat, x: int)
    requires p > 0
    ensures Eval([1] + seq(p - 1, _ => 0) + [1], x) == Pow(x, p) + 1
  {
    var z := seq(p - 1, _ => 0);
    EvalConcat([1] + z, [1], x);
    EvalConcat([1], z, x);
    EvalZeros(z, x);
    assert [1][1..] == [];
    assert Eval([1], x) == 1 + x * 0;
    assert Pow(x, 1) * 0 == 0;
  }

  /** a^p is a, modulo p. */
  lemma {:induction false} FermatNat(p: nat, a: nat)
    requires IsPrime(p)
    ensures p > 0 && Res(p, Pow(a, p)) == Res(p, a)
  {
    hide Res, IsPrime;
    PrimePositive(p);
    if a == 0 {
      assert Pow(0, p) == 0 * Pow(0, p - 1);
    } else {
      FermatNat(p, a - 1);
      FreshmanStep(p, a - 1);
      ResOps(p, Pow(a - 1, p), 1, a - 1, 1);
    }
  }

  /** a^(p - 1) is 1 for every a that p does not divide. */
  lemma FermatUnit(p: nat, a: nat)
    requires IsPrime(p) && p > 0 && Res(p, a) != 0
    ensures Res(p, Pow(a, p - 1)) == 1
  {
    hide Res, IsPrime;
    PrimePositive(p);
    FermatNat(p, a);
    var q := Pow(a, p - 1);
    assert Pow(a, p) == a * q;
    ResSub(p, a * q, a);
    assert a * q - a == a * (q - 1);
    Cancel(p, a, q - 1);
    ResSub(p, q, 1);
    ResSmall(p, 1);
  }
}
