/** Lagrange interpolation as both code bases evaluate it, term by term, and the theorem that
    it evaluates the interpolating polynomial. */
module Lagrange {
  import opened Modular
  import opened Poly

  /** The product of (x - r). */
  function ProdEval(rs: seq<int>, x: int): int {
    if rs == [] then 1 else (x - rs[0]) * ProdEval(rs[1..], x)
  }

  /** The product of the inverses of (y - r). */
  function ProdInv(p: nat, rs: seq<int>, y: int): int
    requires p > 0
  {
    if rs == [] then 1 else Inv(p, y - rs[0]) * ProdInv(p, rs[1..], y)
  }

  /** The product over k < m, k != j, of (x - xs[k]) / (xs[j] - xs[k]). */
  function Basis(p: nat, xs: seq<int>, j: nat, x: int, m: nat): int
    requires p > 0 && j < |xs| && m <= |xs|
  {
    if m == 0 then 1
    else if m - 1 == j then Basis(p, xs, j, x, m - 1)
    else Basis(p, xs, j, x, m - 1) * ((x - xs[m - 1]) * Inv(p, xs[j] - xs[m - 1]))
  }

  /** The sum over j < m of ys[j] times the basis polynomial j at x. */
  function LagrangeSum(p: nat, xs: seq<int>, ys: seq<int>, x: int, m: nat): int
    requires p > 0 && |xs| == |ys| && m <= |xs|
  {
    if m == 0 then 0 else LagrangeSum(p, xs, ys, x, m - 1) + ys[m - 1] * Basis(p, xs, m - 1, x, |xs|)
  }

  /** xs[..m] without entry j. */
  function Others(xs: seq<int>, j: nat, m: nat): (r: seq<int>)
    requires m <= |xs|
    ensures |r| == if j < m then m - 1 else m
  {
    if m == 0 then [] else if m - 1 == j then Others(xs, j, m - 1) else Others(xs, j, m - 1) + [xs[m - 1]]
  }

  lemma {:induction false} ProdEvalAppend(rs: seq<int>, r: int, x: int)
    ensures ProdEval(rs + [r], x) == ProdEval(rs, x) * (x - r)
  {
    if rs == [] {
      assert [r][1..] == [];
      assert ([] + [r])[0] == r;
      assert ProdEval([r], x) == (x - r) * ProdEval([], x);
    } else {
      ProdEvalAppend(rs[1..], r, x);
      assert (rs + [r])[1..] == rs[1..] + [r];
      MulAssoc(x - rs[0], ProdEval(rs[1..], x), x - r);
    }
  }

  lemma {:induction false} ProdInvAppend(p: nat, rs: seq<int>, r: int, y: int)
    requires p > 0
    ensures ProdInv(p, rs + [r], y) == ProdInv(p, rs, y) * Inv(p, y - r)
  {
    hide Inv;
    if rs == [] {
      assert [r][1..] == [];
      assert ([] + [r])[0] == r;
      assert ProdInv(p, [r], y) == Inv(p, y - r) * ProdInv(p, [], y);
    } else {
      ProdInvAppend(p, rs[1..], r, y);
      assert (rs + [r])[1..] == rs[1..] + [r];
      MulAssoc(Inv(p, y - rs[0]), ProdInv(p, rs[1..], y), Inv(p, y - r));
    }
  }

  lemma {:induction false} BasisSplit(p: nat, xs: seq<int>, j: nat, x: int, m: nat)
    requires p > 0 && j < |xs| && m <= |xs|
    ensures Basis(p, xs, j, x, m) == ProdInv(p, Others(xs, j, m), xs[j]) * ProdEval(Others(xs, j, m), x)
  {
    hide Inv;
    if m > 0 {
      BasisSplit(p, xs, j, x, m - 1);
      if m - 1 != j {
        var o := Others(xs, j, m - 1);
        ProdEvalAppend(o, xs[m - 1], x);
        ProdInvAppend(p, o, xs[m - 1], xs[j]);
        MulSwap(ProdInv(p, o, xs[j]), Inv(p, xs[j] - xs[m - 1]), ProdEval(o, x), x - xs[m - 1]);
        BasisOrder(ProdInv(p, o, xs[j]), ProdEval(o, x), x - xs[m - 1], Inv(p, xs[j] - xs[m - 1]));
      }
    }
  }

  lemma BasisOrder(a: int, b: int, c: int, d: int)
    ensures (a * b) * (c * d) == (a * d) * (b * c)
  {
    MulSwap(a, b, c, d);
    MulSwap(a, d, b, c);
    assert (a * c) * (b * d) == (a * b) * (d * c) by {
      MulSwap(a, c, b, d);
      assert c * d == d * c;
    }
    assert c * d == d * c;
  }

  lemma {:induction false} EvalProdRoots(rs: seq<int>, x: int)
    ensures Eval(ProdRoots(rs), x) == ProdEval(rs, x)
  {
    if rs == [] {
      assert Eval([1], x) == 1 + x * Eval([1][1..], x);
      assert [1][1..] == [];
    } else {
      EvalProdRoots(rs[1..], x);
      var f := [-rs[0], 1];
      ProdRootsStep(rs);
      EvalConv(f, ProdRoots(rs[1..]), x);
      LinearValue(rs[0], x);
    }
  }

  lemma LinearValue(r: int, x: int)
    ensures Eval([-r, 1], x) == x - r
  {
    var f := [-r, 1];
    assert f[1..] == [1] && [1][1..] == [];
    assert Eval([1], x) == 1 + x * 0;
  }

  lemma {:induction false} ProdEvalZero(rs: seq<int>, x: int)
    requires x in rs
    ensures ProdEval(rs, x) == 0
  {
    if rs[0] == x {
      assert 0 * ProdEval(rs[1..], x) == 0;
    } else {
      assert x in rs[1..];
      ProdEvalZero(rs[1..], x);
    }
  }

  lemma {:induction false} ProdInvCancels(p: nat, rs: seq<int>, y: int)
    requires IsPrime(p)
    requires forall i :: 0 <= i < |rs| ==> Res(p, rs[i]) != Res(p, y)
    ensures p > 0
    ensures Res(p, ProdInv(p, rs, y) * ProdEval(rs, y)) == Res(p, 1)
  {
    PrimePositive(p);
    hide Res, Inv, IsPrime;
    if rs != [] {
      ProdInvCancels(p, rs[1..], y);
      CancelStep(p, y, rs[0], ProdInv(p, rs[1..], y), ProdEval(rs[1..], y));
    } else {
      assert ProdInv(p, [], y) * ProdEval([], y) == 1;
    }
  }

  lemma CancelStep(p: nat, y: int, r: int, b: int, e: int)
    requires IsPrime(p) && Res(p, r) != Res(p, y) && Res(p, b * e) == Res(p, 1)
    ensures Res(p, (Inv(p, y - r) * b) * ((y - r) * e)) == Res(p, 1)
  {
    hide *;
    PrimePositive(p);
    ResSub(p, y, r);
    InvMul(p, y - r);
    ResSmall(p, 1);
    MulSwap(Inv(p, y - r), b, y - r, e);
    assert Inv(p, y - r) * (y - r) == (y - r) * Inv(p, y - r);
    ResOps(p, (y - r) * Inv(p, y - r), b * e, 1, 1);
  }

  lemma {:induction false} OthersAt(xs: seq<int>, j: nat, m: nat, i: nat)
    requires m <= |xs|
    ensures i < m && i != j ==> xs[i] in Others(xs, j, m)
    ensures forall r :: r in Others(xs, j, m) ==> exists k :: 0 <= k < m && k != j && r == xs[k]
  {
    if m > 0 { OthersAt(xs, j, m - 1, i); }
  }

  // ---------------------------------------------------------------- the polynomial

  /** The coefficient form of the sum over j < m. */
  function LagrangePoly(p: nat, xs: seq<int>, ys: seq<int>, m: nat): (c: seq<int>)
    requires p > 0 && |xs| == |ys| > 0 && m <= |xs|
    ensures |c| == |xs|
  {
    if m == 0 then seq(|xs|, _ => 0)
    else AddP(LagrangePoly(p, xs, ys, m - 1),
              Scale(ys[m - 1] * ProdInv(p, Others(xs, m - 1, |xs|), xs[m - 1]), ProdRoots(Others(xs, m - 1, |xs|))))
  }

  lemma {:induction false} EvalLagrangePoly(p: nat, xs: seq<int>, ys: seq<int>, m: nat, x: int)
    requires p > 0 && |xs| == |ys| > 0 && m <= |xs|
    ensures Eval(LagrangePoly(p, xs, ys, m), x) == LagrangeSum(p, xs, ys, x, m)
  {
    hide Eval, ProdRoots, ProdInv, Basis, Others, ProdEval, AddP, Scale;
    if m == 0 {
      EvalZeros(LagrangePoly(p, xs, ys, 0), x);
    } else {
      EvalLagrangePoly(p, xs, ys, m - 1, x);
      var o, w := Others(xs, m - 1, |xs|), ProdInv(p, Others(xs, m - 1, |xs|), xs[m - 1]);
      EvalAdd(LagrangePoly(p, xs, ys, m - 1), Scale(ys[m - 1] * w, ProdRoots(o)), x);
      EvalScale(ys[m - 1] * w, ProdRoots(o), x);
      EvalProdRoots(o, x);
      BasisSplit(p, xs, m - 1, x, |xs|);
      MulAssoc(ys[m - 1], w, ProdEval(o, x));
    }
  }

  /** At xs[i] every basis polynomial but the i-th vanishes, and that one is 1. */
  lemma BasisAtPoint(p: nat, xs: seq<int>, j: nat, i: nat)
    requires IsPrime(p) && DistinctRes(p, xs) && j < |xs| && i < |xs|
    ensures Res(p, Basis(p, xs, j, xs[i], |xs|)) == Res(p, if i == j then 1 else 0)
  {
    PrimePositive(p);
    hide Res, IsPrime, ProdInv, ProdEval, Basis, Others;
    var o := Others(xs, j, |xs|);
    OthersAt(xs, j, |xs|, i);
    BasisSplit(p, xs, j, xs[i], |xs|);
    if i == j {
      forall k | 0 <= k < |o| ensures Res(p, o[k]) != Res(p, xs[j]) {
        assert o[k] in o;
      }
      ProdInvCancels(p, o, xs[j]);
    } else {
      ProdEvalZero(o, xs[i]);
      assert ProdInv(p, o, xs[j]) * 0 == 0;
    }
  }

  lemma {:induction false} LagrangeAtPoint(p: nat, xs: seq<int>, ys: seq<int>, i: nat, m: nat)
    requires IsPrime(p) && DistinctRes(p, xs) && |xs| == |ys| && i < |xs| && m <= |xs|
    ensures Res(p, LagrangeSum(p, xs, ys, xs[i], m)) == Res(p, if i < m then ys[i] else 0)
  {
    PrimePositive(p);
    hide Res, IsPrime, Basis;
    if m > 0 {
      LagrangeAtPoint(p, xs, ys, i, m - 1);
      BasisAtPoint(p, xs, m - 1, i);
      var b := Basis(p, xs, m - 1, xs[i], |xs|);
      var e := if i == m - 1 then 1 else 0;
      ResMul(p, b, ys[m - 1], e);
      ResOps(p, LagrangeSum(p, xs, ys, xs[i], m - 1), ys[m - 1] * b, if i < m - 1 then ys[i] else 0, ys[m - 1] * e);
    }
  }

  /** Interpolating the values of a polynomial with at most |xs| coefficients evaluates it. */
  lemma LagrangeExact(p: nat, xs: seq<int>, ys: seq<int>, c: seq<int>, x: int)
    requires IsPrime(p) && DistinctRes(p, xs) && |c| <= |xs| == |ys|
    requires forall i :: 0 <= i < |xs| ==> Res(p, Eval(c, xs[i])) == Res(p, ys[i])
    ensures p > 0
    ensures Res(p, LagrangeSum(p, xs, ys, x, |xs|)) == Res(p, Eval(c, x))
  {
    PrimePositive(p);
    hide Res, IsPrime, LagrangeSum, LagrangePoly, Eval;
    if |xs| > 0 {
      var t, d := LagrangePoly(p, xs, ys, |xs|), c + seq(|xs| - |c|, _ => 0);
      forall i | 0 <= i < |xs| ensures Res(p, Eval(t, xs[i])) == Res(p, Eval(d, xs[i])) {
        EvalLagrangePoly(p, xs, ys, |xs|, xs[i]);
        LagrangeAtPoint(p, xs, ys, i, |xs|);
        EvalPad(c, |xs| - |c|, xs[i]);
      }
      UniquePoly(p, t, d, xs);
      forall k | 0 <= k < |t| ensures Res(p, t[k]) == Res(p, d[k]) { RedsAt(p, t, d, k); }
      EvalRes(p, t, d, x, x);
      EvalLagrangePoly(p, xs, ys, |xs|, x);
      EvalPad(c, |xs| - |c|, x);
    } else {
      LagrangeNone(p, x);
    }
  }

  lemma LagrangeNone(p: nat, x: int)
    requires p > 0
    ensures LagrangeSum(p, [], [], x, 0) == 0 == Eval([], x)
  {
  }

  lemma {:induction false} BasisRes(p: nat, xs: seq<int>, j: nat, x: int, y: int, m: nat)
    requires p > 0 && j < |xs| && m <= |xs| && Res(p, x) == Res(p, y)
    ensures Res(p, Basis(p, xs, j, x, m)) == Res(p, Basis(p, xs, j, y, m))
  {
    hide Res, Inv;
    if m > 0 {
      BasisRes(p, xs, j, x, y, m - 1);
      if m - 1 != j {
        var i := Inv(p, xs[j] - xs[m - 1]);
        ResOps(p, x, xs[m - 1], y, xs[m - 1]);
        ResMul(p, x - xs[m - 1], i, y - xs[m - 1]);
        ResOps(p, Basis(p, xs, j, x, m - 1), (x - xs[m - 1]) * i, Basis(p, xs, j, y, m - 1), (y - xs[m - 1]) * i);
      }
    }
  }
}
