/** What packed sharing means: the points of the two half groups, the one polynomial
    through given values, the shares cut from it and the secrets read back from shares. */
module PackedSpec {
  import opened Modular
  import opened Poly
  import opened InverseFft
  import opened Interpolation

  datatype Error = NotEnoughPoints | WrongPoint | WrongNumberOfPoints | TooManySecrets | EmptyProduct | ProductTooLarge
                 | WrongField | TooManyParties

  datatype Result<+T> = Success(value: T) | Failure(error: Error)

  /** Exponent of the i-th evaluation point: the even powers of the generator come first. */
  function Pos(m: nat, i: nat): nat {
    if i < m then 2 * i else 2 * (i - m) + 1
  }

  /** All 2^q evaluation points, in storage order. */
  function Points(p: nat, g: int, q: nat): (r: seq<int>)
    requires p > 0 && q >= 1
    ensures |r| == Pow2(q) && Canon(p, r)
  {
    seq(Pow2(q), i requires 0 <= i < Pow2(q) => Res(p, Pow(g, Pos(Pow2(q - 1), i))))
  }

  /** Weight of the i-th point: its value divided by the derivative of the vanishing polynomial. */
  function Weights(p: nat, a: seq<int>, xs: seq<int>, ys: seq<int>): (r: seq<int>)
    requires p > 0 && |xs| == |ys|
    ensures |r| == |xs| && Canon(p, r)
  {
    seq(|xs|, i requires 0 <= i < |xs| => Res(p, ys[i] * Inv(p, Eval(Deriv(a), xs[i]))))
  }

  /** The polynomial with |xs| coefficients that takes the values ys at xs. */
  function PolyThrough(p: nat, xs: seq<int>, ys: seq<int>): (c: seq<int>)
    requires p > 0 && |xs| == |ys|
    ensures |c| == |xs| && Canon(p, c)
  {
    var a := ProdRoots(xs);
    Reds(p, Interp(a, Weights(p, a, xs, ys), xs))
  }

  function ShareValues(p: nat, roots: seq<int>, l: nat, d: nat, n: nat, defining: seq<int>): (r: seq<int>)
    requires p > 0 && |defining| == d + 1 <= |roots| && l + n <= |roots|
    ensures |r| == n && Canon(p, r)
  {
    Reds(p, seq(n, i requires 0 <= i < n => Eval(PolyThrough(p, roots[..d + 1], defining), roots[l + i])))
  }

  /** Points d+1, d+2, ... agree with the polynomial through the first d+1. */
  ghost predicate Consistent(p: nat, roots: seq<int>, l: nat, d: nat, pts: seq<int>)
    requires p > 0 && d + 1 <= |pts| && l + |pts| <= |roots|
  {
    forall j :: d + 1 <= j < |pts| ==>
      pts[j] == Res(p, Eval(PolyThrough(p, roots[l..l + d + 1], pts[..d + 1]), roots[l + j]))
  }

  ghost function Recover(p: nat, roots: seq<int>, l: nat, d: nat, pts: seq<int>): (r: Result<seq<int>>)
    requires p > 0 && l + |pts| <= |roots| && l + d + 1 <= |roots|
  {
    if |pts| < d + 1 then Failure(NotEnoughPoints)
    else if !Consistent(p, roots, l, d, pts) then Failure(WrongPoint)
    else Success(seq(l, i requires 0 <= i < l => Res(p, Eval(PolyThrough(p, roots[l..l + d + 1], pts[..d + 1]), roots[i]))))
  }

  // ---------------------------------------------------------------- the interpolating polynomial

  lemma VanishingSelf(p: nat, xs: seq<int>)
    requires p > 0
    ensures Vanishing(p, ProdRoots(xs), xs)
  {
    hide ProdRoots;
  }

  lemma PolyThroughValues(p: nat, xs: seq<int>, ys: seq<int>, j: nat)
    requires IsPrime(p) && |xs| == |ys| && j < |xs| && DistinctRes(p, xs)
    ensures Res(p, Eval(PolyThrough(p, xs, ys), xs[j])) == Res(p, ys[j])
  {
    hide Res, IsPrime, Eval, ProdRoots, Interp, Inv, Vanishing, Deriv;
    PrimePositive(p);
    var a := ProdRoots(xs);
    var ns := Weights(p, a, xs, ys);
    VanishingSelf(p, xs);
    VanishingRoots(p, a, xs);
    RedsEval(p, Interp(a, ns, xs), xs[j]);
    InterpOn(p, a, ns, xs, j);
    SimpleRoots(p, a, xs, j);
    ResRes(p, ys[j] * Inv(p, Eval(Deriv(a), xs[j])));
    DivideBack(p, ns[j], ys[j], Eval(Deriv(a), xs[j]));
  }

  /** Nothing else of that length takes these values. */
  lemma PolyThroughUnique(p: nat, xs: seq<int>, ys: seq<int>, c: seq<int>)
    requires IsPrime(p) && |xs| == |ys| == |c| && DistinctRes(p, xs)
    requires forall i :: 0 <= i < |xs| ==> Res(p, Eval(c, xs[i])) == Res(p, ys[i])
    ensures Reds(p, c) == PolyThrough(p, xs, ys)
  {
    hide Res, IsPrime, Eval, PolyThrough;
    PrimePositive(p);
    var t := PolyThrough(p, xs, ys);
    forall i | 0 <= i < |xs| ensures Res(p, Eval(c, xs[i])) == Res(p, Eval(t, xs[i])) {
      PolyThroughValues(p, xs, ys, i);
    }
    UniquePoly(p, c, t, xs);
    RedsCanon(p, t);
  }

  lemma SubDistinct(p: nat, xs: seq<int>, i: nat, j: nat)
    requires p > 0 && DistinctRes(p, xs) && i <= j <= |xs|
    ensures DistinctRes(p, xs[i..j])
  {
    hide Res;
  }

  // ---------------------------------------------------------------- the points

  lemma PosInjective(m: nat, i: nat, j: nat)
    requires i < 2 * m && j < 2 * m && i != j
    ensures Pos(m, i) != Pos(m, j) && Pos(m, i) < 2 * m
  {
  }

  lemma PointsDistinct(p: nat, g: int, q: nat)
    requires IsPrime(p) && HasOrder(p, g, q)
    ensures p > 0 && q >= 1 && DistinctRes(p, Points(p, g, q))
  {
    hide Res, IsPrime, HasOrder, Pow;
    OrderPositive(p, g, q);
    var m := Pow2(q - 1);
    assert Pow2(q) == 2 * m;
    var pts := Points(p, g, q);
    forall i, j | 0 <= i < j < |pts| ensures Res(p, pts[i]) != Res(p, pts[j]) {
      PosInjective(m, i, j);
      PosInjective(m, j, i);
      ResRes(p, Pow(g, Pos(m, i)));
      ResRes(p, Pow(g, Pos(m, j)));
      if Pos(m, i) < Pos(m, j) {
        RootsDistinct(p, g, q, Pos(m, i), Pos(m, j));
      } else {
        RootsDistinct(p, g, q, Pos(m, j), Pos(m, i));
      }
    }
  }

  // ---------------------------------------------------------------- main results on values

  /** The shares' defining values sit on the polynomial: share i with l + i <= d is defining[l + i]. */
  lemma SharesContainDefining(p: nat, roots: seq<int>, l: nat, d: nat, n: nat, defining: seq<int>, i: nat)
    requires IsPrime(p) && DistinctRes(p, roots) && Canon(p, defining)
    requires |defining| == d + 1 <= |roots| && l + n <= |roots| && i < n && l + i <= d
    ensures ShareValues(p, roots, l, d, n, defining)[i] == defining[l + i]
  {
    hide Res, IsPrime, Eval, PolyThrough;
    PrimePositive(p);
    SubDistinct(p, roots, 0, d + 1);
    PolyThroughValues(p, roots[..d + 1], defining, l + i);
    ResSmall(p, defining[l + i]);
  }

  /** A polynomial of d + 1 coefficients passes through every given point. */
  ghost predicate OnPolynomial(p: nat, roots: seq<int>, l: nat, d: nat, pts: seq<int>, c: seq<int>)
    requires p > 0 && l + |pts| <= |roots|
  {
    |c| == d + 1 && forall j :: 0 <= j < |pts| ==> Res(p, Eval(c, roots[l + j])) == Res(p, pts[j])
  }

  lemma PrefixOnPolynomial(p: nat, roots: seq<int>, l: nat, d: nat, pts: seq<int>, c: seq<int>)
    requires IsPrime(p) && DistinctRes(p, roots) && l + |pts| <= |roots| && d + 1 <= |pts|
    requires OnPolynomial(p, roots, l, d, pts, c)
    ensures Reds(p, c) == PolyThrough(p, roots[l..l + d + 1], pts[..d + 1])
  {
    hide Res, IsPrime, Eval, PolyThrough;
    PrimePositive(p);
    var xs, ys := roots[l..l + d + 1], pts[..d + 1];
    SubDistinct(p, roots, l, l + d + 1);
    forall i | 0 <= i < |xs| ensures Res(p, Eval(c, xs[i])) == Res(p, ys[i]) {
      assert xs[i] == roots[l + i] && ys[i] == pts[i];
    }
    PolyThroughUnique(p, xs, ys, c);
  }

  /** Recovery accepts exactly the point lists that lie on one polynomial of degree at most d,
      and then returns that polynomial's values at the secret points. */
  lemma RecoverAccepts(p: nat, roots: seq<int>, l: nat, d: nat, pts: seq<int>)
    requires IsPrime(p) && DistinctRes(p, roots) && l + |pts| <= |roots| && d + 1 <= |pts| && Canon(p, pts)
    ensures p > 0
    ensures Recover(p, roots, l, d, pts).Success? <==> exists c :: OnPolynomial(p, roots, l, d, pts, c)
    ensures forall c :: OnPolynomial(p, roots, l, d, pts, c) ==>
      Recover(p, roots, l, d, pts) == Success(seq(l, i requires 0 <= i < l => Res(p, Eval(c, roots[i]))))
  {
    hide Res, IsPrime, Eval, PolyThrough;
    PrimePositive(p);
    var t := PolyThrough(p, roots[l..l + d + 1], pts[..d + 1]);
    if Recover(p, roots, l, d, pts).Success? {
      ConsistentOn(p, roots, l, d, pts);
      assert OnPolynomial(p, roots, l, d, pts, t);
    }
    forall c | OnPolynomial(p, roots, l, d, pts, c)
      ensures Recover(p, roots, l, d, pts) == Success(seq(l, i requires 0 <= i < l => Res(p, Eval(c, roots[i]))))
    {
      PrefixOnPolynomial(p, roots, l, d, pts, c);
      forall x: int ensures Res(p, Eval(t, x)) == Res(p, Eval(c, x)) { RedsEval(p, c, x); }
      forall j | d + 1 <= j < |pts| ensures pts[j] == Res(p, Eval(t, roots[l + j])) { ResSmall(p, pts[j]); }
      var u := seq(l, i requires 0 <= i < l => Res(p, Eval(c, roots[i])));
      var v := seq(l, i requires 0 <= i < l => Res(p, Eval(t, roots[i])));
      assert u == v;
    }
  }

  lemma ConsistentOn(p: nat, roots: seq<int>, l: nat, d: nat, pts: seq<int>)
    requires IsPrime(p) && DistinctRes(p, roots) && l + |pts| <= |roots| && d + 1 <= |pts| && Canon(p, pts)
    requires p > 0 && Consistent(p, roots, l, d, pts)
    ensures OnPolynomial(p, roots, l, d, pts, PolyThrough(p, roots[l..l + d + 1], pts[..d + 1]))
  {
    hide Res, IsPrime, Eval, PolyThrough;
    var xs, ys := roots[l..l + d + 1], pts[..d + 1];
    var t := PolyThrough(p, xs, ys);
    SubDistinct(p, roots, l, l + d + 1);
    forall j | 0 <= j < |pts| ensures Res(p, Eval(t, roots[l + j])) == Res(p, pts[j]) {
      if j <= d {
        PolyThroughValues(p, xs, ys, j);
        assert xs[j] == roots[l + j] && ys[j] == pts[j];
      } else {
        ResSmall(p, pts[j]);
      }
    }
  }

  /** Sharing and recovering: any prefix of at least d + 1 shares gives back the secrets. */
  lemma RoundTrip(p: nat, roots: seq<int>, l: nat, d: nat, n: nat, secrets: seq<int>, rest: seq<int>, m: nat)
    requires IsPrime(p) && DistinctRes(p, roots) && Canon(p, roots)
    requires |secrets| == l && |secrets + rest| == d + 1 && d + 1 <= m <= n && l + n <= |roots|
    requires Canon(p, secrets)
    ensures p > 0
    ensures Recover(p, roots, l, d, ShareValues(p, roots, l, d, n, secrets + rest)[..m]) == Success(secrets)
  {
    hide Res, IsPrime, Eval, PolyThrough, Recover;
    PrimePositive(p);
    var c := PolyThrough(p, roots[..d + 1], secrets + rest);
    var pts := ShareValues(p, roots, l, d, n, secrets + rest)[..m];
    assert OnPolynomial(p, roots, l, d, pts, c) by {
      forall j | 0 <= j < |pts| ensures Res(p, Eval(c, roots[l + j])) == Res(p, pts[j]) {
        ResRes(p, Eval(c, roots[l + j]));
      }
    }
    RecoverAccepts(p, roots, l, d, pts);
    SubDistinct(p, roots, 0, d + 1);
    var u := seq(l, i requires 0 <= i < l => Res(p, Eval(c, roots[i])));
    forall i | 0 <= i < l ensures u[i] == secrets[i] {
      PolyThroughValues(p, roots[..d + 1], secrets + rest, i);
      ResSmall(p, secrets[i]);
    }
    assert u == secrets;
  }
}
