/** The secret sharing library under TurboPack and DN07: field elements modulo 2^61 - 1,
    polynomials held by their values, and sharings at the points 1, 2, ..., n with the
    secrets at 0, -1, -2, .... */
module Scl {
  import opened Modular
  import opened Poly
  import opened Lagrange

  const P61: nat := 0x1FFF_FFFF_FFFF_FFFF

  /** The field element of an integer. */
  function F(x: int): (r: int)
    ensures 0 <= r < P61
  {
    Res(P61, x)
  }

  /** A field division: multiplication by the inverse, and 0 for a zero divisor. */
  function Div(a: int, b: int): int {
    F(a * Inv(P61, b))
  }

  // ---------------------------------------------------------------- arithmetic of field elements

  /** Sums, differences and products depend on the field elements only. */
  lemma FOps(a: int, b: int, c: int, d: int)
    requires F(a) == F(c) && F(b) == F(d)
    ensures F(a + b) == F(c + d)
    ensures F(a - b) == F(c - d)
    ensures F(a * b) == F(c * d)
  {
    hide Res;
    ResOps(P61, a, b, c, d);
  }

  lemma FF(x: int)
    ensures F(F(x)) == F(x)
  {
    hide Res;
    ResRes(P61, x);
  }

  lemma FReduced(a: int, b: int)
    ensures F(F(a) + F(b)) == F(a + b)
    ensures F(F(a) - F(b)) == F(a - b)
    ensures F(F(a) * F(b)) == F(a * b)
  {
    hide *;
    FF(a);
    FF(b);
    FOps(F(a), F(b), a, b);
  }

  // ---------------------------------------------------------------- points

  /** The point of the j-th packed secret. */
  function Slot(j: int): int {
    -j
  }

  /** The points of k packed secrets: 0, -1, ..., -(k - 1). */
  function Slots(k: nat): (r: seq<int>)
    ensures |r| == k
  {
    seq(k, j => Slot(j))
  }

  /** The points of n shares: 1, ..., n. */
  function Naturals(n: nat): (r: seq<int>)
    ensures |r| == n
  {
    seq(n, i => i + 1)
  }

  /** Different integers less than P61 apart are different field elements. */
  lemma FDistinct(x: int, y: int)
    requires x != y && x - y < P61 && y - x < P61
    ensures F(x) != F(y)
  {
    hide Res;
    if x > y {
      ResSub(P61, x, y);
      ResSmall(P61, x - y);
    } else {
      ResSub(P61, y, x);
      ResSmall(P61, y - x);
    }
  }

  ghost predicate Distinct(xs: seq<int>) {
    forall i, j :: 0 <= i < j < |xs| ==> F(xs[i]) != F(xs[j])
  }

  lemma DistinctIs(xs: seq<int>)
    requires Distinct(xs)
    ensures P61 > 0 && DistinctRes(P61, xs)
  {
    hide Res;
  }

  lemma PointsDistinct(k: nat, m: nat)
    requires k + m <= P61
    ensures Distinct(Slots(k) + Naturals(m))
  {
    hide F;
    var xs := Slots(k) + Naturals(m);
    forall i, j | 0 <= i < j < |xs| ensures F(xs[i]) != F(xs[j]) {
      FDistinct(xs[i], xs[j]);
    }
  }

  lemma NaturalsDistinct(n: nat)
    requires n <= P61
    ensures Distinct(Naturals(n))
  {
    hide *;
    PointsDistinct(0, n);
    SlotsNone();
    assert [] + Naturals(n) == Naturals(n);
  }

  lemma SlotsNone()
    ensures Slots(0) == []
  {
  }

  lemma SlotsDistinct(k: nat)
    requires k <= P61
    ensures Distinct(Slots(k))
  {
    hide *;
    PointsDistinct(k, 0);
    NaturalsNone();
    assert Slots(k) + [] == Slots(k);
  }

  lemma NaturalsNone()
    ensures Naturals(0) == []
  {
  }

  /** One secret at -slot beside the first m shares. */
  lemma OnePointDistinct(slot: nat, m: nat)
    requires slot + m + 1 <= P61
    ensures Distinct([Slot(slot)] + Naturals(m))
  {
    hide F;
    var xs := [Slot(slot)] + Naturals(m);
    forall i, j | 0 <= i < j < |xs| ensures F(xs[i]) != F(xs[j]) {
      FDistinct(xs[i], xs[j]);
    }
  }

  // ---------------------------------------------------------------- polynomials by their values

  /** A polynomial given by its values mY at the points mX. */
  datatype EvPolynomial = EvPolynomial(mX: seq<int>, mY: seq<int>)

  ghost predicate Proper(f: EvPolynomial) {
    |f.mX| == |f.mY| > 0 && Distinct(f.mX)
  }

  /** Its coefficients, of degree below the number of points. */
  function Coefs(f: EvPolynomial): (c: seq<int>)
    requires |f.mX| == |f.mY| > 0
    ensures |c| == |f.mX|
  {
    LagrangePoly(P61, f.mX, f.mY, |f.mX|)
  }

  /** The value of the polynomial with coefficients c, as a field element. */
  function At(c: seq<int>, x: int): (r: int)
    ensures 0 <= r < P61
  {
    F(Eval(c, x))
  }

  lemma AtIs(c: seq<int>, x: int)
    ensures At(c, x) == F(Eval(c, x)) && F(At(c, x)) == At(c, x)
  {
    hide F;
    FF(Eval(c, x));
  }

  /** The polynomial takes its values. */
  lemma CoefsAtPoint(f: EvPolynomial, i: nat)
    requires IsPrime(P61) && Proper(f) && i < |f.mX|
    ensures At(Coefs(f), f.mX[i]) == F(f.mY[i])
  {
    hide Res, LagrangePoly, Eval, LagrangeSum;
    DistinctIs(f.mX);
    EvalLagrangePoly(P61, f.mX, f.mY, |f.mX|, f.mX[i]);
    LagrangeAtPoint(P61, f.mX, f.mY, i, |f.mX|);
  }

  /** Lagrange evaluation, term by term. */
  method Evaluate(f: EvPolynomial, x: int) returns (z: int)
    requires |f.mX| == |f.mY| > 0
    ensures z == At(Coefs(f), x)
  {
    hide *;
    z := F(0);
    SumNone(f, x);
    for j := 0 to |f.mX|
      invariant z == Partial(f, x, j)
    {
      var ell := F(1);
      ProductNone(f.mX, j, x);
      for m := 0 to |f.mX|
        invariant ell == Product(f.mX, j, x, m)
      {
        ProductStep(f.mX, j, x, m);
        if m == j {
          continue;
        }
        ell := F(ell * Div(F(x - f.mX[m]), F(f.mX[j] - f.mX[m])));
      }
      SumStep(f, x, j);
      z := F(z + F(f.mY[j] * ell));
    }
    SumIs(f, x);
  }

  /** The first m terms of the sum, as a field element. */
  function Partial(f: EvPolynomial, x: int, m: nat): int
    requires |f.mX| == |f.mY| && m <= |f.mX|
  {
    F(LagrangeSum(P61, f.mX, f.mY, x, m))
  }

  /** The first m factors of the j-th term, as a field element. */
  function Product(xs: seq<int>, j: nat, x: int, m: nat): int
    requires j < |xs| && m <= |xs|
  {
    F(Basis(P61, xs, j, x, m))
  }

  lemma SumNone(f: EvPolynomial, x: int)
    requires |f.mX| == |f.mY|
    ensures Partial(f, x, 0) == F(0)
  {
  }

  lemma SumStep(f: EvPolynomial, x: int, j: nat)
    requires |f.mX| == |f.mY| && j < |f.mX|
    ensures Partial(f, x, j + 1) == F(Partial(f, x, j) + F(f.mY[j] * Product(f.mX, j, x, |f.mX|)))
  {
    hide F, Basis;
    var b, s := Basis(P61, f.mX, j, x, |f.mX|), LagrangeSum(P61, f.mX, f.mY, x, j);
    FF(b);
    FF(s);
    FOps(f.mY[j], F(b), f.mY[j], b);
    FF(f.mY[j] * F(b));
    FOps(F(s), F(f.mY[j] * F(b)), s, f.mY[j] * b);
  }

  lemma SumIs(f: EvPolynomial, x: int)
    requires |f.mX| == |f.mY| > 0
    ensures Partial(f, x, |f.mX|) == At(Coefs(f), x)
  {
    hide F, LagrangePoly, LagrangeSum, Eval;
    EvalLagrangePoly(P61, f.mX, f.mY, |f.mX|, x);
  }

  lemma ProductNone(xs: seq<int>, j: nat, x: int)
    requires j < |xs|
    ensures Product(xs, j, x, 0) == F(1)
  {
  }

  lemma ProductStep(xs: seq<int>, j: nat, x: int, m: nat)
    requires j < |xs| && m < |xs|
    ensures Product(xs, j, x, m + 1) ==
      if m == j then Product(xs, j, x, m)
      else F(Product(xs, j, x, m) * Div(F(x - xs[m]), F(xs[j] - xs[m])))
  {
    hide F, Inv;
    var b, u, w := Basis(P61, xs, j, x, m), x - xs[m], xs[j] - xs[m];
    FF(u);
    FF(b);
    InvF(w);
    FOps(F(u), Inv(P61, w), u, Inv(P61, w));
    FF(u * Inv(P61, w));
    FOps(F(b), F(u * Inv(P61, w)), b, u * Inv(P61, w));
  }

  lemma InvF(w: int)
    ensures P61 > 0 && Inv(P61, F(w)) == Inv(P61, w)
  {
    hide Res, ExtGcd;
    ResRes(P61, w);
  }

  // ---------------------------------------------------------------- sharing

  /** The polynomial with given values at 0, -1, ... and random ones at 1, 2, ... up to the degree. */
  function Packed(secrets: seq<int>, degree: nat, rand: seq<int>): (f: EvPolynomial)
    requires 1 <= |secrets| <= degree + 1 && |rand| == degree + 1 - |secrets|
    ensures |f.mX| == |f.mY| == degree + 1
  {
    EvPolynomial(Slots(|secrets|) + Naturals(degree + 1 - |secrets|), secrets + rand)
  }

  method EvPolyFromSecretsAndDegree(secrets: seq<int>, degree: nat, rand: seq<int>) returns (f: EvPolynomial)
    requires 1 <= |secrets| <= degree + 1 && |rand| == degree + 1 - |secrets|
    ensures f == Packed(secrets, degree, rand)
  {
    var xPoints: seq<int> := [];
    for i := 0 to |secrets|
      invariant xPoints == Slots(i)
    {
      xPoints := xPoints + [Slot(i)];
    }
    for i := 0 to degree + 1 - |secrets|
      invariant xPoints == Slots(|secrets|) + Naturals(i)
    {
      xPoints := xPoints + [i + 1];
    }
    f := EvPolynomial(xPoints, secrets + rand);
  }

  /** The polynomial with one given value at -slot and random ones at 1, ..., degree. */
  function Single(secret: int, slot: nat, degree: nat, rand: seq<int>): (f: EvPolynomial)
    requires |rand| == degree
    ensures |f.mX| == |f.mY| == degree + 1
  {
    EvPolynomial([Slot(slot)] + Naturals(degree), [secret] + rand)
  }

  method EvPolyFromSecretAndPointAndDegree(secret: int, slot: nat, degree: nat, rand: seq<int>)
    returns (f: EvPolynomial)
    requires |rand| == degree
    ensures f == Single(secret, slot, degree, rand)
  {
    var xPoints := [Slot(slot)];
    for i := 0 to degree
      invariant xPoints == [Slot(slot)] + Naturals(i)
    {
      xPoints := xPoints + [i + 1];
    }
    f := EvPolynomial(xPoints, [secret] + rand);
  }

  /** The n shares of the polynomial with coefficients c. */
  function Shares(c: seq<int>, n: nat): (s: seq<int>)
    ensures |s| == n
  {
    seq(n, i => At(c, i + 1))
  }

  method SharesFromEvPoly(f: EvPolynomial, n: nat) returns (shares: seq<int>)
    requires |f.mX| == |f.mY| > 0
    ensures shares == Shares(Coefs(f), n)
  {
    hide At, Coefs;
    shares := [];
    for i := 0 to n
      invariant shares == Shares(Coefs(f), i)
    {
      var v := Evaluate(f, i + 1);
      shares := shares + [v];
    }
  }

  /** The polynomial of degree below n through n shares. */
  function FromShares(shares: seq<int>): (f: EvPolynomial)
    ensures |f.mX| == |f.mY| == |shares|
  {
    EvPolynomial(Naturals(|shares|), shares)
  }

  /** What reconstruction at one point returns. */
  function Rebuilt(shares: seq<int>, x: int): int
    requires |shares| > 0
  {
    At(Coefs(FromShares(shares)), x)
  }

  method SecretFromPointAndShares(x: int, shares: seq<int>) returns (secret: int)
    requires |shares| > 0
    ensures secret == Rebuilt(shares, x)
  {
    var xPoints: seq<int> := [];
    for i := 0 to |shares|
      invariant xPoints == Naturals(i)
    {
      xPoints := xPoints + [i + 1];
    }
    secret := Evaluate(EvPolynomial(xPoints, shares), x);
  }

  method SecretsFromSharesAndLength(shares: seq<int>, length: nat) returns (secrets: seq<int>)
    requires |shares| > 0
    ensures |secrets| == length
    ensures forall j :: 0 <= j < length ==> secrets[j] == Rebuilt(shares, Slot(j))
  {
    secrets := [];
    for j := 0 to length
      invariant |secrets| == j
      invariant forall i :: 0 <= i < j ==> secrets[i] == Rebuilt(shares, Slot(i))
    {
      var s := SecretFromPointAndShares(Slot(j), shares);
      secrets := secrets + [s];
    }
  }

  /** Any polynomial of small degree that takes the values agrees everywhere. */
  lemma CoefsUnique(f: EvPolynomial, c: seq<int>, x: int)
    requires IsPrime(P61) && Proper(f) && |c| <= |f.mX|
    requires forall i :: 0 <= i < |f.mX| ==> At(c, f.mX[i]) == F(f.mY[i])
    ensures At(Coefs(f), x) == At(c, x)
  {
    hide Res, LagrangePoly, LagrangeSum, Eval, IsPrime, Distinct;
    DistinctIs(f.mX);
    forall i | 0 <= i < |f.mX| ensures Res(P61, Eval(c, f.mX[i])) == Res(P61, f.mY[i]) {
      assert At(c, f.mX[i]) == F(f.mY[i]);
    }
    LagrangeExact(P61, f.mX, f.mY, c, x);
    EvalLagrangePoly(P61, f.mX, f.mY, |f.mX|, x);
  }

  /** Shares of a polynomial of degree below their number rebuild it at every point. */
  lemma RebuiltIs(c: seq<int>, shares: seq<int>, x: int)
    requires IsPrime(P61) && 0 < |shares| <= P61 && |c| <= |shares|
    requires forall i :: 0 <= i < |shares| ==> shares[i] == At(c, i + 1)
    ensures Rebuilt(shares, x) == At(c, x)
  {
    hide At, Coefs, IsPrime, Distinct, F;
    var f := FromShares(shares);
    NaturalsDistinct(|shares|);
    forall i | 0 <= i < |f.mX| ensures At(c, f.mX[i]) == F(f.mY[i]) {
      AtIs(c, i + 1);
    }
    CoefsUnique(f, c, x);
  }

  /** A packed sharing carries its secrets. */
  lemma PackedSecrets(secrets: seq<int>, degree: nat, rand: seq<int>, j: nat)
    requires IsPrime(P61) && 1 <= |secrets| <= degree + 1 <= P61 && |rand| == degree + 1 - |secrets| && j < |secrets|
    ensures At(Coefs(Packed(secrets, degree, rand)), Slot(j)) == F(secrets[j])
  {
    hide F, At, Coefs, IsPrime, Distinct;
    var f := Packed(secrets, degree, rand);
    PointsDistinct(|secrets|, degree + 1 - |secrets|);
    CoefsAtPoint(f, j);
    assert f.mX[j] == Slot(j) && f.mY[j] == secrets[j];
  }

  /** and its random values are its first shares. */
  lemma PackedShares(secrets: seq<int>, degree: nat, rand: seq<int>)
    requires IsPrime(P61) && 1 <= |secrets| <= degree + 1 <= P61
    requires |rand| == degree + 1 - |secrets|
    ensures forall i :: 0 <= i < |rand| ==> At(Coefs(Packed(secrets, degree, rand)), i + 1) == F(rand[i])
  {
    hide F, At, Coefs, IsPrime, Distinct;
    var f := Packed(secrets, degree, rand);
    PointsDistinct(|secrets|, degree + 1 - |secrets|);
    forall i | 0 <= i < |rand| ensures At(Coefs(f), i + 1) == F(rand[i]) {
      CoefsAtPoint(f, |secrets| + i);
      assert f.mX[|secrets| + i] == i + 1 && f.mY[|secrets| + i] == rand[i];
    }
  }

  /** A sharing of one secret carries it, and its random values are its first shares. */
  lemma SingleValues(secret: int, slot: nat, degree: nat, rand: seq<int>)
    requires IsPrime(P61) && slot + degree + 1 <= P61 && |rand| == degree
    ensures At(Coefs(Single(secret, slot, degree, rand)), Slot(slot)) == F(secret)
    ensures forall i :: 0 <= i < degree ==> At(Coefs(Single(secret, slot, degree, rand)), i + 1) == F(rand[i])
  {
    hide F, At, Coefs, IsPrime, Distinct;
    var f := Single(secret, slot, degree, rand);
    OnePointDistinct(slot, degree);
    CoefsAtPoint(f, 0);
    forall i | 0 <= i < degree ensures At(Coefs(f), i + 1) == F(rand[i]) {
      CoefsAtPoint(f, i + 1);
      assert f.mX[i + 1] == i + 1 && f.mY[i + 1] == rand[i];
    }
  }
}
