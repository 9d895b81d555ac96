/** Shamir sharings of n = 2t + 1 parties: Vandermonde sharing, Lagrange weights, dealing from
    agreed randomness, double random sharings and the reduction of the degree. */
module Shamir {
  import opened Modular
  import opened Poly
  import opened Lagrange
  import opened Gfp

  // ---------------------------------------------------------------- sharings

  /** The value at x. */
  ghost function At(c: seq<int>, x: int): (v: nat)
    ensures Scalar(v)
  {
    Res(PR, Eval(c, x))
  }

  /** The shares are the values at 1, ..., n of the polynomial c, which carries the secret at 0. */
  ghost predicate Carries(c: seq<int>, shares: seq<nat>, secret: int) {
    && PR > 0 && At(c, 0) == Res(PR, secret)
    && forall i :: 0 <= i < |shares| ==> shares[i] == At(c, i + 1)
  }

  /** A sharing of the secret of this degree. */
  ghost predicate IsSharing(shares: seq<nat>, secret: int, degree: nat) {
    exists c: seq<int> :: |c| == degree + 1 && Carries(c, shares, secret)
  }

  lemma Sum(a: seq<nat>, x: int, b: seq<nat>, y: int, degree: nat, s: seq<nat>)
    requires IsSharing(a, x, degree) && IsSharing(b, y, degree) && |a| == |b| == |s| && PR > 0
    requires forall i :: 0 <= i < |s| ==> s[i] == Res(PR, a[i] + b[i])
    ensures IsSharing(s, x + y, degree)
  {
    hide Res, Eval, AddP;
    var c: seq<int> :| |c| == degree + 1 && Carries(c, a, x);
    var d: seq<int> :| |d| == degree + 1 && Carries(d, b, y);
    var e := AddP(c, d);
    EvalAdd(c, d, 0);
    ResOps(PR, Eval(c, 0), Eval(d, 0), x, y);
    forall i | 0 <= i < |s| ensures s[i] == Res(PR, Eval(e, i + 1)) {
      EvalAdd(c, d, i + 1);
      ResReduced(PR, Eval(c, i + 1), Eval(d, i + 1));
    }
    assert Carries(e, s, x + y);
  }

  lemma Multiple(a: seq<nat>, x: int, k: int, degree: nat, s: seq<nat>)
    requires IsSharing(a, x, degree) && |a| == |s| && PR > 0
    requires forall i :: 0 <= i < |s| ==> s[i] == Res(PR, k * a[i])
    ensures IsSharing(s, k * x, degree)
  {
    hide Res, Eval, Scale;
    var c: seq<int> :| |c| == degree + 1 && Carries(c, a, x);
    EvalScale(k, c, 0);
    ResMul(PR, Eval(c, 0), k, x);
    forall i | 0 <= i < |s| ensures s[i] == Res(PR, Eval(Scale(k, c), i + 1)) {
      EvalScale(k, c, i + 1);
      ResRes(PR, Eval(c, i + 1));
      ResMul(PR, a[i], k, Eval(c, i + 1));
    }
    assert Carries(Scale(k, c), s, k * x);
  }

  /** A public value minus a sharing. */
  lemma Masked(a: seq<nat>, x: int, z: int, degree: nat, s: seq<nat>)
    requires IsSharing(a, x, degree) && |a| == |s| && PR > 0
    requires forall i :: 0 <= i < |s| ==> s[i] == Res(PR, z - a[i])
    ensures IsSharing(s, z - x, degree)
  {
    hide Res, Eval, Scale, AddP;
    var c: seq<int> :| |c| == degree + 1 && Carries(c, a, x);
    var e := AddP([z], Scale(-1, c));
    Constant(z, 0);
    EvalAdd([z], Scale(-1, c), 0);
    EvalScale(-1, c, 0);
    ResOps(PR, z, Eval(c, 0), z, x);
    forall i | 0 <= i < |s| ensures s[i] == Res(PR, Eval(e, i + 1)) {
      Constant(z, i + 1);
      EvalAdd([z], Scale(-1, c), i + 1);
      EvalScale(-1, c, i + 1);
      ResRes(PR, Eval(c, i + 1));
      ResOps(PR, z, a[i], z, Eval(c, i + 1));
    }
    assert Carries(e, s, z - x);
  }

  lemma Constant(z: int, x: int)
    ensures Eval([z], x) == z
  {
    assert [z][1..] == [];
    assert x * 0 == 0;
  }

  /** Products of shares share the product, with the degrees added. */
  lemma LocalProduct(a: seq<nat>, x: int, b: seq<nat>, y: int, degree: nat, s: seq<nat>)
    requires IsSharing(a, x, degree) && IsSharing(b, y, degree) && |a| == |b| == |s| && PR > 0
    requires forall i :: 0 <= i < |s| ==> s[i] == Res(PR, a[i] * b[i])
    ensures IsSharing(s, x * y, 2 * degree)
  {
    hide Res, Eval, Conv;
    var c: seq<int> :| |c| == degree + 1 && Carries(c, a, x);
    var d: seq<int> :| |d| == degree + 1 && Carries(d, b, y);
    var e := Conv(c, d);
    EvalConv(c, d, 0);
    ResOps(PR, Eval(c, 0), Eval(d, 0), x, y);
    forall i | 0 <= i < |s| ensures s[i] == Res(PR, Eval(e, i + 1)) {
      EvalConv(c, d, i + 1);
      ResReduced(PR, Eval(c, i + 1), Eval(d, i + 1));
    }
    assert Carries(e, s, x * y);
  }

  lemma SameSecret(s: seq<nat>, x: int, y: int, degree: nat)
    requires IsSharing(s, x, degree) && PR > 0 && Res(PR, x) == Res(PR, y)
    ensures IsSharing(s, y, degree)
  {
    hide Res, At;
    var c: seq<int> :| |c| == degree + 1 && Carries(c, s, x);
    assert Carries(c, s, y);
  }

  // ---------------------------------------------------------------- dot products

  function DotSum(w: seq<nat>, s: seq<nat>, m: nat): int
    requires m <= |w| && m <= |s|
  {
    if m == 0 then 0 else DotSum(w, s, m - 1) + w[m - 1] * s[m - 1]
  }

  ghost predicate Row(s: seq<nat>) {
    forall i :: 0 <= i < |s| ==> Scalar(s[i])
  }

  method Dot(w: seq<nat>, s: seq<nat>) returns (r: nat)
    requires |w| == |s| && Row(w) && Row(s)
    ensures PR > 0 && r == Res(PR, DotSum(w, s, |w|))
  {
    hide Res, MultMod;
    PrimeField();
    ResZero(PR, 0);
    r := 0;
    for i := 0 to |w|
      invariant r == Res(PR, DotSum(w, s, i))
    {
      MultModIs(w[i], s[i]);
      ResReduced(PR, DotSum(w, s, i), w[i] * s[i]);
      r := AddMod(r, MultMod(w[i], s[i]));
    }
  }

  // ---------------------------------------------------------------- Lagrange weights

  /** The weights with which the values at xs give the value at x. */
  ghost predicate IsWeights(w: seq<nat>, xs: seq<int>, x: int) {
    PR > 0 && |w| == |xs| && forall k :: 0 <= k < |w| ==> w[k] == Res(PR, Basis(PR, xs, k, x, |xs|))
  }

  ghost predicate Points(xs: seq<int>) {
    (forall i :: 0 <= i < |xs| ==> Scalar(xs[i])) && forall i, j :: 0 <= i < j < |xs| ==> xs[i] != xs[j]
  }

  lemma PointsDistinct(xs: seq<int>)
    requires Points(xs)
    ensures PR > 0 && DistinctRes(PR, xs)
  {
    hide Res;
    forall i, j | 0 <= i < j < |xs| ensures Res(PR, xs[i]) != Res(PR, xs[j]) {
      ResSmall(PR, xs[i]);
      ResSmall(PR, xs[j]);
    }
  }

  lemma {:induction false} WeightsSum(w: seq<nat>, xs: seq<int>, s: seq<nat>, x: int, m: nat)
    requires IsWeights(w, xs, x) && |s| == |xs| && m <= |xs|
    ensures Res(PR, DotSum(w, s, m)) == Res(PR, LagrangeSum(PR, xs, s, x, m))
  {
    hide Res, Basis;
    if m > 0 {
      WeightsSum(w, xs, s, x, m - 1);
      var b := Basis(PR, xs, m - 1, x, |xs|);
      ResRes(PR, b);
      ResMul(PR, w[m - 1], s[m - 1], b);
      ResOps(PR, DotSum(w, s, m - 1), w[m - 1] * s[m - 1], LagrangeSum(PR, xs, s, x, m - 1), s[m - 1] * b);
    }
  }

  /** Weighting the values of a polynomial of degree below |xs| gives its value at x. */
  lemma WeightsExact(w: seq<nat>, xs: seq<int>, s: seq<nat>, c: seq<int>, x: int)
    requires IsPrime(PR) && IsWeights(w, xs, x) && Points(xs) && |c| <= |xs| == |s|
    requires forall k :: 0 <= k < |xs| ==> s[k] == Res(PR, Eval(c, xs[k]))
    ensures Res(PR, DotSum(w, s, |w|)) == Res(PR, Eval(c, x))
  {
    hide Res, Eval, LagrangeSum, IsPrime, Basis;
    PointsDistinct(xs);
    forall k | 0 <= k < |xs| ensures Res(PR, Eval(c, xs[k])) == Res(PR, s[k]) {
      ResRes(PR, Eval(c, xs[k]));
    }
    LagrangeExact(PR, xs, s, c, x);
    WeightsSum(w, xs, s, x, |xs|);
  }

  /** One factor (a - x) / (a - b) as a field element, with the signs of both parts changed. */
  method Quotient(a: nat, x: nat, b: nat) returns (q: nat)
    requires IsPrime(PR) && Scalar(a) && Scalar(x) && Scalar(b) && a != b
    ensures PR > 0 && q == Res(PR, (x - a) * Inv(PR, b - a))
  {
    hide Res, Inv, IsPrime, AddMod, MultMod, AdditiveInverse;
    SubModIs(a, x);
    SubModIs(a, b);
    var i := MultiplicativeInverse(SubMod(a, b));
    MultModIs(SubMod(a, x), i);
    NegatedFraction(a - x, a - b, Res(PR, a - b), i, a, b);
    q := MultMod(SubMod(a, x), i);
    ResRes(PR, a - x);
    ResMul(PR, SubMod(a, x), i, a - x);
  }

  lemma NegatedFraction(u: int, v: int, vv: nat, i: nat, a: nat, b: nat)
    requires IsPrime(PR) && Scalar(a) && Scalar(b) && a != b && v == a - b
    requires PR > 0 && vv == Res(PR, v) && i == Inv(PR, vv)
    ensures Res(PR, u * i) == Res(PR, (0 - u) * Inv(PR, 0 - v))
  {
    hide Res, Inv, IsPrime;
    var z := Inv(PR, 0 - v);
    ResSmall(PR, a);
    ResSmall(PR, b);
    ResSub(PR, a, b);
    ResSub(PR, b, a);
    ResRes(PR, v);
    InvMul(PR, vv);
    InvMul(PR, 0 - v);
    ResMul(PR, vv, i, v);
    ResSub(PR, v * i, (0 - v) * z);
    assert v * i - (0 - v) * z == v * (i + z);
    Cancel(PR, v, i + z);
    ResZeroMul(PR, i + z, u);
    ResSub(PR, u * i, (0 - u) * z);
    assert u * i - (0 - u) * z == (i + z) * u;
  }

  lemma FactorStep(xs: seq<int>, k: nat, x: int, m: nat, f: nat, q: nat)
    requires k < |xs| && m < |xs| && m != k && PR > 0
    requires f == Res(PR, Basis(PR, xs, k, x, m)) && q == Res(PR, (x - xs[m]) * Inv(PR, xs[k] - xs[m]))
    ensures MultMod(f, q) == Res(PR, Basis(PR, xs, k, x, m + 1))
  {
    hide Res, Inv, MultMod;
    MultModIs(f, q);
    ResReduced(PR, Basis(PR, xs, k, x, m), (x - xs[m]) * Inv(PR, xs[k] - xs[m]));
  }

  lemma NoFactors(xs: seq<int>, k: nat, x: int)
    requires k < |xs|
    ensures PR > 0 && Res(PR, Basis(PR, xs, k, x, 0)) == 1
  {
    ResSmall(PR, 1);
  }

  lemma SkippedFactor(xs: seq<int>, k: nat, x: int)
    requires k < |xs|
    ensures PR > 0 && Basis(PR, xs, k, x, k + 1) == Basis(PR, xs, k, x, k)
  {
  }

  // ---------------------------------------------------------------- points

  /** The parties' points 1, ..., m. */
  function PartyPoints(m: nat): (xs: seq<int>)
    ensures |xs| == m
  {
    seq(m, i => i + 1)
  }

  /** 0, ..., m without e. */
  function Without(e: nat, m: nat): (xs: seq<int>)
    requires e <= m
    ensures |xs| == m
  {
    seq(m, i => if i < e then i else i + 1)
  }

  lemma PointsOf(m: nat, e: nat)
    requires e <= m < PR
    ensures Points(PartyPoints(m)) && Points(Without(e, m))
  {
  }

  // ---------------------------------------------------------------- the tables

  /** The power (i + 1)^(j + 1): a Vandermonde matrix without its column of ones. */
  ghost predicate IsVandermonde(v: seq<seq<nat>>, xSize: nat, ySize: nat) {
    PR > 0 && |v| == xSize && forall i :: 0 <= i < xSize ==>
      |v[i]| == ySize && forall j :: 0 <= j < ySize ==> v[i][j] == Res(PR, Pow(i + 1, j + 1))
  }

  method GetVandermonde(xSize: nat, ySize: nat) returns (v: seq<seq<nat>>)
    requires xSize < PR
    ensures IsVandermonde(v, xSize, ySize)
  {
    hide Res, MultMod, Pow;
    PrimeField();
    v := [];
    for i := 0 to xSize
      invariant IsVandermonde(v, i, ySize)
    {
      var prod, x := 1, i + 1;
      var row: seq<nat> := [];
      PowerNone(x);
      for j := 0 to ySize
        invariant |row| == j && prod == Res(PR, Pow(x, j))
        invariant forall k :: 0 <= k < j ==> row[k] == Res(PR, Pow(x, k + 1))
      {
        PowerMore(x, j, prod);
        prod := MultMod(prod, x);
        row := row + [prod];
      }
      v := v + [row];
    }
  }

  lemma PowerNone(x: int)
    ensures PR > 0 && Res(PR, Pow(x, 0)) == 1
  {
    ResSmall(PR, 1);
  }

  lemma PowerMore(x: nat, j: nat, prod: nat)
    requires Scalar(x) && PR > 0 && prod == Res(PR, Pow(x, j))
    ensures MultMod(prod, x) == Res(PR, Pow(x, j + 1))
  {
    hide Res, MultMod;
    MultModIs(prod, x);
    ResRes(PR, Pow(x, j));
    ResMul(PR, prod, x, Pow(x, j));
    assert Pow(x, j + 1) == x * Pow(x, j);
  }

  /** The weight of a party's share among the first degree + 1 shares. */
  method GetReconstructionFactor(point: nat, playerI: nat, degree: nat) returns (factor: nat)
    requires IsPrime(PR) && Scalar(point) && playerI <= degree && degree + 1 < PR
    ensures PR > 0 && factor == Res(PR, Basis(PR, PartyPoints(degree + 1), playerI, point, degree + 1))
  {
    hide Res, IsPrime, Basis, MultMod, Inv;
    ghost var xs := PartyPoints(degree + 1);
    factor := 1;
    NoFactors(xs, playerI, point);
    for offset := 0 to degree + 1
      invariant PR > 0 && factor == Res(PR, Basis(PR, xs, playerI, point, offset))
    {
      if playerI != offset {
        var q := Quotient(offset + 1, point, playerI + 1);
        FactorStep(xs, playerI, point, offset, factor, q);
        factor := MultMod(factor, q);
      } else {
        SkippedFactor(xs, playerI, point);
      }
    }
  }

  method GetReconstructionVector(point: nat, degree: nat) returns (w: seq<nat>)
    requires IsPrime(PR) && Scalar(point) && degree + 1 < PR
    ensures IsWeights(w, PartyPoints(degree + 1), point)
  {
    hide Res, IsPrime, Basis;
    PrimeField();
    w := [];
    for i := 0 to degree + 1
      invariant |w| == i
      invariant forall k :: 0 <= k < i ==> w[k] == Res(PR, Basis(PR, PartyPoints(degree + 1), k, point, degree + 1))
    {
      var f := GetReconstructionFactor(point, i, degree);
      w := w + [f];
    }
  }

  /** The weight of a share, or of the secret at 0, among the points 0, ..., degree + 1 without one. */
  method GetReconstructionFactorWithSecret(exceptPlayer: nat, point: nat, playerI: nat, degree: nat, ghost k: nat)
    returns (factor: nat)
    requires IsPrime(PR) && Scalar(point) && exceptPlayer <= degree + 1 < PR && k <= degree
    requires playerI == Without(exceptPlayer, degree + 1)[k]
    ensures PR > 0 && factor == Res(PR, Basis(PR, Without(exceptPlayer, degree + 1), k, point, degree + 1))
  {
    hide Res, IsPrime, Basis, MultMod, Inv;
    ghost var xs := Without(exceptPlayer, degree + 1);
    factor := 1;
    NoFactors(xs, k, point);
    for offset := 0 to degree + 2
      invariant PR > 0
      invariant factor == Res(PR, Basis(PR, xs, k, point, if offset <= exceptPlayer then offset else offset - 1))
    {
      if offset == exceptPlayer {
        continue;
      }
      ghost var m := if offset < exceptPlayer then offset else offset - 1;
      if playerI != offset {
        var q := Quotient(offset, point, playerI);
        FactorStep(xs, k, point, m, factor, q);
        factor := MultMod(factor, q);
      } else {
        SkippedFactor(xs, k, point);
      }
    }
  }

  method GetReconstructionVectorWithSecret(exceptPlayer: nat, point: nat, degree: nat) returns (w: seq<nat>)
    requires IsPrime(PR) && Scalar(point) && exceptPlayer <= degree + 1 < PR
    ensures IsWeights(w, Without(exceptPlayer, degree + 1), point)
  {
    hide Res, IsPrime, Basis;
    PrimeField();
    ghost var xs := Without(exceptPlayer, degree + 1);
    w := [];
    for i := 0 to degree + 2
      invariant |w| == if i <= exceptPlayer then i else i - 1
      invariant forall k :: 0 <= k < |w| ==> w[k] == Res(PR, Basis(PR, xs, k, point, degree + 1))
    {
      if i == exceptPlayer {
        continue;
      }
      var f := GetReconstructionFactorWithSecret(exceptPlayer, point, i, degree, |w|);
      w := w + [f];
    }
  }

  // ---------------------------------------------------------------- dealt polynomials

  /** Through ys at the points 0, ..., |ys| without e. */
  ghost function Through(e: nat, ys: seq<nat>): (c: seq<int>)
    requires e <= |ys| && |ys| > 0
    ensures |c| == |ys|
  {
    LagrangePoly(PR, Without(e, |ys|), ys, |ys|)
  }

  /** Of degree t, with the secret at 0 and agreed values at 2, ..., t + 1. */
  ghost function TPoly(secret: nat, prng: seq<nat>): (c: seq<int>)
    ensures |c| == |prng| + 1
  {
    Through(1, [secret] + prng)
  }

  /** Of degree 2t, with the secret at 0 and agreed values at 1, ..., 2t + 1 but the dealer's point. */
  ghost function DoublePoly(dealer: nat, secret: nat, prng: seq<nat>): (c: seq<int>)
    requires dealer <= |prng|
    ensures |c| == |prng| + 1
  {
    Through(dealer + 1, [secret] + prng)
  }

  /** The weighted sum. */
  ghost function Weighed(w: seq<nat>, s: seq<nat>): (v: nat)
    requires |w| == |s|
    ensures Scalar(v)
  {
    Res(PR, DotSum(w, s, |w|))
  }

  /** The polynomial through given values has them; weights compute its other values. */
  lemma Interpolated(e: nat, ys: seq<nat>)
    requires IsPrime(PR) && 0 < e <= |ys| < PR && Row(ys)
    ensures ys[0] == At(Through(e, ys), 0)
    ensures forall k :: 0 <= k < |ys| ==> ys[k] == At(Through(e, ys), if k < e then k else k + 1)
    ensures forall w, x :: IsWeights(w, Without(e, |ys|), x) ==> |w| == |ys| && Weighed(w, ys) == At(Through(e, ys), x)
  {
    hide Eval, Res, LagrangePoly, LagrangeSum, IsPrime, DotSum, IsWeights;
    var xs := Without(e, |ys|);
    PointsOf(|ys|, e);
    PointsDistinct(xs);
    forall k | 0 <= k < |ys| ensures ys[k] == At(Through(e, ys), if k < e then k else k + 1) {
      EvalLagrangePoly(PR, xs, ys, |xs|, xs[k]);
      LagrangeAtPoint(PR, xs, ys, k, |xs|);
      ResSmall(PR, ys[k]);
    }
    forall w, x | IsWeights(w, xs, x) ensures |w| == |ys| && Weighed(w, ys) == At(Through(e, ys), x) {
      WeightsLength(w, xs, x);
      EvalLagrangePoly(PR, xs, ys, |xs|, x);
      WeightsSum(w, xs, ys, x, |xs|);
    }
  }

  lemma WeightsLength(w: seq<nat>, xs: seq<int>, x: int)
    requires IsWeights(w, xs, x)
    ensures PR > 0 && |w| == |xs| && Row(w)
  {
    hide Res, Basis;
  }

  lemma TPolyValues(secret: nat, prng: seq<nat>)
    requires IsPrime(PR) && Scalar(secret) && Row(prng) && |prng| + 1 < PR
    ensures At(TPoly(secret, prng), 0) == secret
    ensures forall k :: 0 <= k < |prng| ==> prng[k] == At(TPoly(secret, prng), k + 2)
    ensures forall w, x :: IsWeights(w, Without(1, |prng| + 1), x) ==>
              Weighed(w, [secret] + prng) == At(TPoly(secret, prng), x)
  {
    hide At, Through, Weighed, IsWeights, IsPrime, TPoly;
    var ys := [secret] + prng;
    Interpolated(1, ys);
    TPolyIs(secret, prng);
    forall k | 0 <= k < |prng| ensures prng[k] == At(TPoly(secret, prng), k + 2) {
      assert ys[k + 1] == prng[k];
    }
  }

  lemma TPolyIs(secret: nat, prng: seq<nat>)
    ensures TPoly(secret, prng) == Through(1, [secret] + prng)
  {
    hide LagrangePoly;
  }

  lemma DoublePolyValues(dealer: nat, secret: nat, prng: seq<nat>)
    requires IsPrime(PR) && Scalar(secret) && Row(prng) && dealer <= |prng| && |prng| + 1 < PR
    ensures At(DoublePoly(dealer, secret, prng), 0) == secret
    ensures forall k :: 0 <= k < |prng| ==> prng[k] == At(DoublePoly(dealer, secret, prng), if k < dealer then k + 1 else k + 2)
    ensures forall w, x :: IsWeights(w, Without(dealer + 1, |prng| + 1), x) ==>
              Weighed(w, [secret] + prng) == At(DoublePoly(dealer, secret, prng), x)
  {
    hide At, Through, Weighed, IsWeights, IsPrime, DoublePoly;
    var ys := [secret] + prng;
    Interpolated(dealer + 1, ys);
    DoublePolyIs(dealer, secret, prng);
    forall k | 0 <= k < |prng|
      ensures prng[k] == At(DoublePoly(dealer, secret, prng), if k < dealer then k + 1 else k + 2)
    {
      assert ys[k + 1] == prng[k];
    }
  }

  lemma DoublePolyIs(dealer: nat, secret: nat, prng: seq<nat>)
    requires dealer <= |prng|
    ensures DoublePoly(dealer, secret, prng) == Through(dealer + 1, [secret] + prng)
  {
    hide LagrangePoly;
  }

  // ---------------------------------------------------------------- mixing the dealers' sharings

  function ShareOf(dealt: seq<seq<nat>>, i: nat, party: nat): nat {
    if i < |dealt| && party < |dealt[i]| then dealt[i][party] else 0
  }

  /** A party's shares from all dealers. */
  function Received(dealt: seq<seq<nat>>, party: nat): (r: seq<nat>)
    ensures |r| == |dealt|
  {
    seq(|dealt|, i requires 0 <= i => ShareOf(dealt, i, party))
  }

  ghost function Mixed(w: seq<nat>, dealt: seq<seq<nat>>, m: nat, n: nat): (r: seq<nat>)
    requires m <= |w| && m <= |dealt|
    ensures |r| == n
  {
    seq(n, party requires 0 <= party => MixedShare(w, dealt, m, party))
  }

  ghost function MixedShare(w: seq<nat>, dealt: seq<seq<nat>>, m: nat, party: nat): nat
    requires m <= |w| && m <= |dealt|
  {
    PrimeField();
    Res(PR, DotSum(w, Received(dealt, party), m))
  }

  /** A linear combination of sharings shares the combination of the secrets. */
  lemma {:induction false} MixIsSharing(w: seq<nat>, dealt: seq<seq<nat>>, secrets: seq<nat>, degree: nat, m: nat, n: nat)
    requires m <= |w| && m <= |dealt| == |secrets|
    requires forall i :: 0 <= i < m ==> |dealt[i]| == n && IsSharing(dealt[i], secrets[i], degree)
    ensures IsSharing(Mixed(w, dealt, m, n), DotSum(w, secrets, m), degree)
  {
    hide Res, IsSharing;
    PrimeField();
    if m == 0 {
      ZeroSharing(Mixed(w, dealt, 0, n), degree);
    } else {
      MixIsSharing(w, dealt, secrets, degree, m - 1, n);
      var a, b := Mixed(w, dealt, m - 1, n), seq(n, party requires 0 <= party < n => Res(PR, w[m - 1] * dealt[m - 1][party]));
      Multiple(dealt[m - 1], secrets[m - 1], w[m - 1], degree, b);
      forall party | 0 <= party < n ensures Mixed(w, dealt, m, n)[party] == Res(PR, a[party] + b[party]) {
        ResReduced(PR, DotSum(w, Received(dealt, party), m - 1), w[m - 1] * dealt[m - 1][party]);
      }
      Sum(a, DotSum(w, secrets, m - 1), b, w[m - 1] * secrets[m - 1], degree, Mixed(w, dealt, m, n));
    }
  }

  lemma ZeroSharing(s: seq<nat>, degree: nat)
    requires PR > 0 && forall i :: 0 <= i < |s| ==> s[i] == Res(PR, 0)
    ensures IsSharing(s, 0, degree)
  {
    hide Res, Eval;
    var c := seq(degree + 1, _ => 0);
    EvalZeros(c, 0);
    forall i | 0 <= i < |s| ensures s[i] == Res(PR, Eval(c, i + 1)) {
      EvalZeros(c, i + 1);
    }
    assert Carries(c, s, 0);
  }
}
