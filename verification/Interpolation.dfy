/** Interpolation through a truncated power series: with A the product of (x - x_i), the
    polynomial through (x_i, y_i) is A times the sum of -n_i / (x_i - x) expanded in powers
    of x, where n_i = y_i / A'(x_i); only the first d + 1 coefficients are needed. */
module Interpolation {
  import opened Modular
  import opened Poly

  /** The sum of ns[i] * ss[i]^e. */
  function SumPow(ns: seq<int>, ss: seq<int>, e: nat): int
    requires |ns| == |ss|
  {
    if ns == [] then 0 else ns[0] * Pow(ss[0], e) + SumPow(ns[1..], ss[1..], e)
  }

  /** The power series of the sum of n_i / (x - x_i), for ss the inverses of the x_i. */
  function Series(ns: seq<int>, ss: seq<int>, m: nat): (r: seq<int>)
    requires |ns| == |ss|
    ensures |r| == m
  {
    seq(m, k requires 0 <= k < m => -SumPow(ns, ss, k + 1))
  }

  /** Coefficient k of A times the series of a single 1 / (x - 1/s). */
  function ConvTail(a: seq<int>, s: int, k: int): int {
    if a == [] || k < 0 then 0 else -(a[0] * Pow(s, k + 1)) + ConvTail(a[1..], s, k - 1)
  }

  function SumTail(a: seq<int>, ns: seq<int>, ss: seq<int>, k: int): int
    requires |ns| == |ss|
  {
    if ns == [] then 0 else ns[0] * ConvTail(a, ss[0], k) + SumTail(a, ns[1..], ss[1..], k)
  }

  /** Coefficient k of the sum of n_i * A / (x - x_i). */
  function SumQuo(a: seq<int>, ns: seq<int>, xs: seq<int>, k: nat): int
    requires |ns| == |xs| && k < |a|
  {
    if ns == [] then 0 else ns[0] * Eval(a[k + 1..], xs[0]) + SumQuo(a, ns[1..], xs[1..], k)
  }

  /** The sum of n_i * A / (x - x_i). */
  function Interp(a: seq<int>, ns: seq<int>, xs: seq<int>): (r: seq<int>)
    requires |ns| == |xs| && |a| > 0
    ensures |r| == |a| - 1
  {
    seq(|a| - 1, k requires 0 <= k < |a| - 1 => SumQuo(a, ns, xs, k))
  }

  // ---------------------------------------------------------------- the series side

  lemma {:induction false} SumTailNone(a: seq<int>, ns: seq<int>, ss: seq<int>, k: int)
    requires |ns| == |ss| && (a == [] || k < 0)
    ensures SumTail(a, ns, ss, k) == 0
  {
    if ns != [] {
      SumTailNone(a, ns[1..], ss[1..], k);
      assert ns[0] * 0 == 0;
    }
  }

  lemma {:induction false} SumTailStep(a: seq<int>, ns: seq<int>, ss: seq<int>, k: nat)
    requires |ns| == |ss| && a != []
    ensures SumTail(a, ns, ss, k) == a[0] * -SumPow(ns, ss, k + 1) + SumTail(a[1..], ns, ss, k - 1)
  {
    if ns == [] {
      assert a[0] * 0 == 0;
    } else {
      SumTailStep(a, ns[1..], ss[1..], k);
      SumTailAlgebra(a[0], ns[0], Pow(ss[0], k + 1), ConvTail(a[1..], ss[0], k - 1),
                     SumPow(ns[1..], ss[1..], k + 1), SumTail(a[1..], ns[1..], ss[1..], k - 1));
    }
  }

  lemma SumTailAlgebra(a: int, n: int, s: int, c: int, p: int, t: int)
    ensures n * (-(a * s) + c) + (a * -p + t) == a * -(n * s + p) + (n * c + t)
  {
    assert n * (-(a * s) + c) == -(n * (a * s)) + n * c;
    assert n * (a * s) == a * (n * s);
    assert a * -(n * s + p) == -(a * (n * s)) - a * p;
  }

  lemma {:induction false} ConvAtSeries(a: seq<int>, ns: seq<int>, ss: seq<int>, m: nat, k: int)
    requires |ns| == |ss| && k < m
    ensures ConvAt(a, Series(ns, ss, m), k) == SumTail(a, ns, ss, k)
  {
    if a == [] || k < 0 {
      SumTailNone(a, ns, ss, k);
    } else {
      ConvAtSeries(a[1..], ns, ss, m, k - 1);
      SumTailStep(a, ns, ss, k);
      assert Coef(Series(ns, ss, m), k) == -SumPow(ns, ss, k + 1);
    }
  }

  lemma InversePowers(p: nat, r: int, s: int, e: nat)
    requires p >= 2 && Res(p, r * s) == 1
    ensures Res(p, Pow(r, e) * Pow(s, e)) == Res(p, 1)
  {
    hide *;
    PowMulBase(r, s, e);
    ResSmall(p, 1);
    PowRes(p, r * s, 1, e);
    PowOne(e);
  }

  lemma {:induction false} TailTimesPower(p: nat, a: seq<int>, r: int, s: int, k: nat)
    requires p >= 2 && Res(p, r * s) == 1 && k < |a|
    ensures Res(p, Pow(r, k + 1) * ConvTail(a, s, k)) == Res(p, -Eval(a[..k + 1], r))
  {
    hide *;
    InversePowers(p, r, s, k + 1);
    ConvTailStep(a, s, k);
    EvalStep(a[..k + 1], r);
    assert a[..k + 1][1..] == a[1..][..k];
    var c := ConvTail(a[1..], s, k - 1);
    if k == 0 {
      ConvTailNone(a[1..], s);
      EvalNone(r);
      assert a[1..][..0] == [];
      TailBase(p, a[0], Pow(r, 1), Pow(s, 1));
    } else {
      TailTimesPower(p, a[1..], r, s, k - 1);
      PowStep(r, k);
      TailStep(p, a[0], r, Pow(r, k), Pow(s, k + 1), c, Eval(a[1..][..k], r));
    }
  }

  lemma ConvTailStep(a: seq<int>, s: int, k: nat)
    requires a != []
    ensures ConvTail(a, s, k) == -(a[0] * Pow(s, k + 1)) + ConvTail(a[1..], s, k - 1)
  {
  }

  lemma ConvTailNone(a: seq<int>, s: int)
    ensures ConvTail(a, s, -1) == 0
  {
  }

  lemma EvalNone(x: int)
    ensures Eval([], x) == 0
  {
  }

  lemma PowStep(b: int, n: nat)
    ensures Pow(b, n + 1) == b * Pow(b, n)
  {
  }

  lemma TailBase(p: nat, a: int, r: int, s: int)
    requires p > 0 && Res(p, r * s) == Res(p, 1)
    ensures Res(p, r * -(a * s)) == Res(p, -a)
  {
    hide *;
    ResMul(p, r * s, -a, 1);
    assert r * -(a * s) == -a * (r * s);
  }

  lemma TailStep(p: nat, a: int, r: int, y: int, s: int, c: int, e: int)
    requires p > 0 && Res(p, (r * y) * s) == Res(p, 1) && Res(p, y * c) == Res(p, -e)
    ensures Res(p, (r * y) * (-(a * s) + c)) == Res(p, -(a + r * e))
  {
    hide *;
    TailBase(p, a, r * y, s);
    ResMul(p, y * c, r, -e);
    TailStepAlgebra(a, r, y, s, c, e);
    ResOps(p, (r * y) * -(a * s), r * (y * c), -a, r * -e);
  }

  lemma TailStepAlgebra(a: int, r: int, y: int, s: int, c: int, e: int)
    ensures (r * y) * (-(a * s) + c) == (r * y) * -(a * s) + r * (y * c)
    ensures -(a + r * e) == -a + r * -e
  {
    assert (r * y) * c == r * (y * c);
  }

  /** At a root r of A with inverse s, the coefficient is that of A / (x - r). */
  lemma TailIsQuotient(p: nat, a: seq<int>, r: int, s: int, k: nat)
    requires p >= 2 && Res(p, r * s) == 1 && k < |a|
    requires Res(p, Eval(a, r)) == 0
    ensures Res(p, ConvTail(a, s, k)) == Res(p, Eval(a[k + 1..], r))
  {
    hide *;
    TailTimesPower(p, a, r, s, k);
    assert a[..k + 1] + a[k + 1..] == a;
    EvalConcat(a[..k + 1], a[k + 1..], r);
    InversePowers(p, r, s, k + 1);
    TailCancel(p, Pow(r, k + 1), Pow(s, k + 1), ConvTail(a, s, k), Eval(a[..k + 1], r), Eval(a[k + 1..], r));
  }

  lemma TailCancel(p: nat, r: int, s: int, c: int, low: int, high: int)
    requires p > 0 && Res(p, r * s) == Res(p, 1)
    requires Res(p, r * c) == Res(p, -low) && Res(p, low + r * high) == 0
    ensures Res(p, c) == Res(p, high)
  {
    hide *;
    ResZero(p, 0);
    ResOps(p, low + r * high, low, 0, low);
    assert (low + r * high) - low == r * high && 0 - low == -low;
    ResMul(p, r * c, s, r * high);
    ResMul(p, r * s, c, 1);
    ResMul(p, r * s, high, 1);
    assert s * (r * c) == (r * s) * c && s * (r * high) == (r * s) * high;
    assert 1 * c == c && 1 * high == high;
  }

  lemma {:induction false} SumTailIsSumQuo(p: nat, a: seq<int>, ns: seq<int>, xs: seq<int>, ss: seq<int>, k: nat)
    requires p >= 2 && |ns| == |xs| == |ss| && k < |a|
    requires forall i :: 0 <= i < |xs| ==> Res(p, xs[i] * ss[i]) == 1
    requires AllRoots(p, a, xs)
    ensures Res(p, SumTail(a, ns, ss, k)) == Res(p, SumQuo(a, ns, xs, k))
  {
    hide Res, Eval, ConvTail;
    if ns != [] {
      SumTailIsSumQuo(p, a, ns[1..], xs[1..], ss[1..], k);
      TailIsQuotient(p, a, xs[0], ss[0], k);
      ResMul(p, ConvTail(a, ss[0], k), ns[0], Eval(a[k + 1..], xs[0]));
      ResOps(p, ns[0] * ConvTail(a, ss[0], k), SumTail(a, ns[1..], ss[1..], k),
             ns[0] * Eval(a[k + 1..], xs[0]), SumQuo(a, ns[1..], xs[1..], k));
    }
  }

  // ---------------------------------------------------------------- the values side

  lemma InterpStep(a: seq<int>, ns: seq<int>, xs: seq<int>)
    requires |ns| == |xs| > 0 && |a| > 0
    ensures Interp(a, ns, xs) == AddP(Scale(ns[0], Quo(a, xs[0])), Interp(a, ns[1..], xs[1..]))
  {
    hide Eval;
    var l, r := Interp(a, ns, xs), AddP(Scale(ns[0], Quo(a, xs[0])), Interp(a, ns[1..], xs[1..]));
    assert |l| == |r|;
    forall k | 0 <= k < |l| ensures l[k] == r[k] {
      assert Scale(ns[0], Quo(a, xs[0]))[k] == ns[0] * Eval(a[k + 1..], xs[0]);
    }
  }

  /** Away from every x_i the sum vanishes at a root of A. */
  lemma {:induction false} InterpOff(p: nat, a: seq<int>, ns: seq<int>, xs: seq<int>, x: int)
    requires IsPrime(p) && |ns| == |xs| && |a| > 0
    requires AllRoots(p, a, xs) && Res(p, Eval(a, x)) == 0
    requires forall i :: 0 <= i < |xs| ==> Res(p, x) != Res(p, xs[i])
    ensures Res(p, Eval(Interp(a, ns, xs), x)) == 0
  {
    hide Res, Eval, IsPrime, Interp;
    PrimePositive(p);
    ResZero(p, 0);
    if ns == [] {
      InterpNone(a, x);
    } else {
      InterpOff(p, a, ns[1..], xs[1..], x);
      InterpValue(a, ns, xs, x);
      QuoRoot(p, a, xs[0], x);
      ResZeroMul(p, Eval(Quo(a, xs[0]), x), ns[0]);
      ResOps(p, ns[0] * Eval(Quo(a, xs[0]), x), Eval(Interp(a, ns[1..], xs[1..]), x), 0, 0);
    }
  }

  lemma InterpNone(a: seq<int>, x: int)
    requires |a| > 0
    ensures Eval(Interp(a, [], []), x) == 0
  {
    EvalZeros(Interp(a, [], []), x);
  }

  lemma InterpValue(a: seq<int>, ns: seq<int>, xs: seq<int>, x: int)
    requires |ns| == |xs| > 0 && |a| > 0
    ensures Eval(Interp(a, ns, xs), x) == ns[0] * Eval(Quo(a, xs[0]), x) + Eval(Interp(a, ns[1..], xs[1..]), x)
  {
    hide *;
    InterpStep(a, ns, xs);
    EvalAdd(Scale(ns[0], Quo(a, xs[0])), Interp(a, ns[1..], xs[1..]), x);
    EvalScale(ns[0], Quo(a, xs[0]), x);
  }

  /** At x_j only its own term is left: n_j * A'(x_j). */
  lemma {:induction false} InterpOn(p: nat, a: seq<int>, ns: seq<int>, xs: seq<int>, j: nat)
    requires IsPrime(p) && |ns| == |xs| && |a| > 0 && j < |xs|
    requires AllRoots(p, a, xs) && DistinctRes(p, xs)
    ensures Res(p, Eval(Interp(a, ns, xs), xs[j])) == Res(p, ns[j] * Eval(Deriv(a), xs[j]))
  {
    hide Res, Eval, IsPrime, Interp;
    PrimePositive(p);
    InterpValue(a, ns, xs, xs[j]);
    ResZero(p, 0);
    var own, rest := ns[0] * Eval(Quo(a, xs[0]), xs[j]), Eval(Interp(a, ns[1..], xs[1..]), xs[j]);
    if j == 0 {
      QuoDeriv(a, xs[0]);
      InterpOff(p, a, ns[1..], xs[1..], xs[0]);
      ResOps(p, own, rest, own, 0);
    } else {
      InterpOn(p, a, ns[1..], xs[1..], j - 1);
      QuoRoot(p, a, xs[0], xs[j]);
      ResZeroMul(p, Eval(Quo(a, xs[0]), xs[j]), ns[0]);
      ResOps(p, own, rest, 0, rest);
    }
  }

  // ---------------------------------------------------------------- the vanishing polynomial

  /** A is, modulo p, the product of (x - x_i). */
  ghost predicate Vanishing(p: nat, a: seq<int>, xs: seq<int>)
    requires p > 0
  {
    |a| == |xs| + 1 && Reds(p, a) == Reds(p, ProdRoots(xs))
  }

  lemma VanishingRoots(p: nat, a: seq<int>, xs: seq<int>)
    requires p > 0 && Vanishing(p, a, xs)
    ensures AllRoots(p, a, xs)
  {
    hide Res, Eval, ProdRoots;
    forall i | 0 <= i < |xs| ensures Res(p, Eval(a, xs[i])) == 0 {
      var b := ProdRoots(xs);
      ProdRootsVanish(xs, i);
      forall k | 0 <= k < |a| ensures Res(p, a[k]) == Res(p, b[k]) { RedsAt(p, a, b, k); }
      EvalRes(p, a, b, xs[i], xs[i]);
      ResZero(p, 0);
    }
  }

  /** The roots are simple: the derivative does not vanish there. */
  lemma SimpleRoots(p: nat, a: seq<int>, xs: seq<int>, i: nat)
    requires IsPrime(p) && Vanishing(p, a, xs) && DistinctRes(p, xs) && i < |xs|
    ensures Res(p, Eval(Deriv(a), xs[i])) != 0
  {
    hide Res, Eval, ProdRoots, IsPrime, Quo;
    PrimePositive(p);
    VanishingRoots(p, a, xs);
    QuoDeriv(a, xs[i]);
    var q := Quo(a, xs[i]);
    if Res(p, Eval(q, xs[i])) == 0 {
      forall j | 0 <= j < |xs| ensures Res(p, Eval(q, xs[j])) == 0 {
        if j != i { QuoRoot(p, a, xs[i], xs[j]); }
      }
      ManyRoots(p, q, xs);
      QuoTop(a, xs[i]);
      ProdRootsMonic(xs);
      RedsAt(p, a, ProdRoots(xs), |xs|);
      ResSmall(p, 1);
      assert false;
    }
  }

  lemma QuoTop(a: seq<int>, r: int)
    requires |a| >= 2
    ensures Quo(a, r)[|a| - 2] == a[|a| - 1]
  {
    var t := a[|a| - 1..];
    assert t[1..] == [];
    assert Eval(t, r) == t[0] + r * 0;
  }

  // ---------------------------------------------------------------- fast interpolation

  /** The first |xs| coefficients of A times the series. */
  function FastInterp(p: nat, a: seq<int>, series: seq<int>): (r: seq<int>)
    requires p > 0 && |series| > 0
    ensures |r| == if |a| == 0 then 0 else |series|
  {
    if a == [] then [] else Reds(p, Conv(a, series))[..|series|]
  }

  lemma FastIsInterp(p: nat, a: seq<int>, ns: seq<int>, xs: seq<int>, ss: seq<int>, series: seq<int>)
    requires p >= 2 && |ns| == |xs| == |ss| == |series| > 0 && |a| == |xs| + 1
    requires forall i :: 0 <= i < |xs| ==> Res(p, xs[i] * ss[i]) == 1
    requires AllRoots(p, a, xs)
    requires Reds(p, series) == Reds(p, Series(ns, ss, |xs|))
    ensures FastInterp(p, a, series) == Reds(p, Interp(a, ns, xs))
  {
    hide Res, Eval, Conv, Series, SumQuo, SumTail, AllRoots;
    var l, r := FastInterp(p, a, series), Reds(p, Interp(a, ns, xs));
    ConvRes(p, a, series, a, Series(ns, ss, |xs|));
    forall k | 0 <= k < |l| ensures l[k] == r[k] {
      RedsAt(p, Conv(a, series), Conv(a, Series(ns, ss, |xs|)), k);
      ConvCoef(a, Series(ns, ss, |xs|), k);
      ConvAtSeries(a, ns, ss, |xs|, k);
      SumTailIsSumQuo(p, a, ns, xs, ss, k);
    }
  }

  /** The truncated product takes the prescribed values. */
  lemma FastInterpValues(p: nat, a: seq<int>, ys: seq<int>, ns: seq<int>, xs: seq<int>, ss: seq<int>, series: seq<int>, j: nat)
    requires IsPrime(p) && |ys| == |ns| == |xs| == |ss| == |series| && j < |xs|
    requires Vanishing(p, a, xs) && DistinctRes(p, xs)
    requires forall i :: 0 <= i < |xs| ==> Res(p, xs[i] * ss[i]) == 1
    requires forall i :: 0 <= i < |xs| ==> Res(p, ns[i]) == Res(p, ys[i] * Inv(p, Eval(Deriv(a), xs[i])))
    requires Reds(p, series) == Reds(p, Series(ns, ss, |xs|))
    ensures Res(p, Eval(FastInterp(p, a, series), xs[j])) == Res(p, ys[j])
  {
    hide Res, Eval, Vanishing, FastInterp, Interp, IsPrime, Inv, Series, AllRoots;
    PrimePositive(p);
    VanishingRoots(p, a, xs);
    VanishingSize(p, a, xs);
    FastIsInterp(p, a, ns, xs, ss, series);
    var c := Interp(a, ns, xs);
    RedsEval(p, c, xs[j]);
    InterpOn(p, a, ns, xs, j);
    SimpleRoots(p, a, xs, j);
    DivideBack(p, ns[j], ys[j], Eval(Deriv(a), xs[j]));
  }

  lemma VanishingSize(p: nat, a: seq<int>, xs: seq<int>)
    requires p > 0 && Vanishing(p, a, xs)
    ensures |a| == |xs| + 1
  {
  }

  lemma RedsEval(p: nat, c: seq<int>, x: int)
    requires p > 0
    ensures Res(p, Eval(Reds(p, c), x)) == Res(p, Eval(c, x))
  {
    hide Res, Eval;
    forall k | 0 <= k < |c| ensures Res(p, Reds(p, c)[k]) == Res(p, c[k]) { ResRes(p, c[k]); }
    EvalRes(p, Reds(p, c), c, x, x);
  }

  lemma DivideBack(p: nat, n: int, y: int, d: int)
    requires IsPrime(p) && Res(p, d) != 0 && Res(p, n) == Res(p, y * Inv(p, d))
    ensures Res(p, n * d) == Res(p, y)
  {
    hide *;
    PrimePositive(p);
    InvMul(p, d);
    ResSmall(p, 1);
    ResMul(p, n, d, y * Inv(p, d));
    ResMul(p, d * Inv(p, d), y, 1);
    assert (y * Inv(p, d)) * d == y * (d * Inv(p, d));
    assert y * 1 == y;
  }
}
