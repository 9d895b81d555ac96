/** The coefficients of the interpolation series are values of a sparse polynomial at inverse
    powers of the generator, so one transform computes them all. */
module SeriesFft {
  import opened Modular
  import opened Poly
  import opened Fft
  import opened InverseFft
  import opened Interpolation
  import opened PackedSpec

  /** The sum of ns[i] * z^(pos[i]). */
  function SumAt(ns: seq<int>, pos: seq<nat>, z: int): int
    requires |ns| == |pos|
  {
    if ns == [] then 0 else ns[0] * Pow(z, pos[0]) + SumAt(ns[1..], pos[1..], z)
  }

  ghost predicate Distinct(pos: seq<nat>) {
    forall i, j :: 0 <= i < j < |pos| ==> pos[i] != pos[j]
  }

  ghost predicate Below(pos: seq<nat>, w: nat) {
    forall i :: 0 <= i < |pos| ==> pos[i] < w
  }

  /** v holds ns at the positions pos and zero elsewhere. */
  ghost predicate Sparse(v: seq<int>, ns: seq<int>, pos: seq<nat>) {
    && |ns| == |pos|
    && (forall i :: 0 <= i < |pos| ==> pos[i] < |v| && v[pos[i]] == ns[i])
    && (forall t :: 0 <= t < |v| && t !in pos ==> v[t] == 0)
  }

  lemma {:induction false} EvalUpdate(c: seq<int>, i: nat, x: int, z: int)
    requires i < |c|
    ensures Eval(c[i := x], z) == Eval(c, z) + (x - c[i]) * Pow(z, i)
  {
    if i == 0 {
      assert c[0 := x][1..] == c[1..];
    } else {
      assert c[i := x][1..] == c[1..][i - 1 := x];
      EvalUpdate(c[1..], i - 1, x, z);
      UpdateAlgebra(z, Eval(c[1..], z), x - c[i], Pow(z, i - 1));
    }
  }

  lemma UpdateAlgebra(z: int, e: int, d: int, w: int)
    ensures z * (e + d * w) == z * e + d * (z * w)
  {
    assert z * (d * w) == d * (z * w);
  }

  lemma {:induction false} SparseEval(v: seq<int>, ns: seq<int>, pos: seq<nat>, z: int)
    requires Sparse(v, ns, pos) && Distinct(pos)
    ensures Eval(v, z) == SumAt(ns, pos, z)
    decreases |ns|
  {
    if ns == [] {
      EvalZeros(v, z);
    } else {
      var u := v[pos[0] := 0];
      forall t | 0 <= t < |u| && t !in pos[1..] ensures u[t] == 0 {
        if t != pos[0] { assert t !in pos; }
      }
      SparseEval(u, ns[1..], pos[1..], z);
      EvalUpdate(u, pos[0], ns[0], z);
      assert u[pos[0] := ns[0]] == v;
    }
  }

  // ---------------------------------------------------------------- exponents

  lemma InverseUnique(p: nat, u: int, a: int, b: int)
    requires p > 0 && Res(p, u * a) == Res(p, 1) && Res(p, u * b) == Res(p, 1)
    ensures Res(p, a) == Res(p, b)
  {
    hide *;
    ResMul(p, u * a, b, 1);
    ResMul(p, u * b, a, 1);
    assert b * (u * a) == a * (u * b);
    assert b * 1 == b && a * 1 == a;
  }

  /** (g^(W-e))^f and (g^(W-f))^e are the same inverse power. */
  lemma InversePowerSwap(p: nat, g: int, q: nat, e: nat, f: nat)
    requires HasOrder(p, g, q) && e <= Pow2(q) && f <= Pow2(q)
    ensures Res(p, Pow(Pow(g, Pow2(q) - e), f)) == Res(p, Pow(Pow(g, Pow2(q) - f), e))
  {
    hide *;
    OrderPositive(p, g, q);
    var w := Pow2(q);
    RootInverse(p, g, q, e);
    RootInverse(p, g, q, f);
    InversePowers(p, Pow(g, e), Pow(g, w - e), f);
    InversePowers(p, Pow(g, f), Pow(g, w - f), e);
    PowPow(g, e, f);
    PowPow(g, f, e);
    assert e * f == f * e;
    InverseUnique(p, Pow(g, e * f), Pow(Pow(g, w - e), f), Pow(Pow(g, w - f), e));
  }

  function InversePoints(g: int, w: nat, pos: seq<nat>): (ss: seq<int>)
    ensures |ss| == |pos|
  {
    seq(|pos|, i requires 0 <= i < |pos| => Pow(g, if pos[i] <= w then w - pos[i] else 0))
  }

  lemma {:induction false} SumAtIsSumPow(p: nat, g: int, q: nat, ns: seq<int>, pos: seq<nat>, f: nat)
    requires HasOrder(p, g, q) && |ns| == |pos| && f <= Pow2(q)
    requires Below(pos, Pow2(q))
    ensures Res(p, SumAt(ns, pos, Pow(g, Pow2(q) - f))) == Res(p, SumPow(ns, InversePoints(g, Pow2(q), pos), f))
  {
    hide Res, HasOrder, Pow, Pow2;
    OrderPositive(p, g, q);
    var w := Pow2(q);
    if ns != [] {
      SumAtIsSumPow(p, g, q, ns[1..], pos[1..], f);
      assert InversePoints(g, w, pos)[1..] == InversePoints(g, w, pos[1..]);
      InversePowerSwap(p, g, q, f, pos[0]);
      ResMul(p, Pow(Pow(g, w - f), pos[0]), ns[0], Pow(Pow(g, w - pos[0]), f));
      ResOps(p, ns[0] * Pow(Pow(g, w - f), pos[0]), SumAt(ns[1..], pos[1..], Pow(g, w - f)),
             ns[0] * Pow(Pow(g, w - pos[0]), f), SumPow(ns[1..], InversePoints(g, w, pos[1..]), f));
    }
  }

  /** What computeN leaves: negated values of v at g^-1, g^-2, ... */
  function NegatedInverseValues(p: nat, g: int, w: nat, v: seq<int>, m: nat): (r: seq<int>)
    requires p > 0 && m <= w
    ensures |r| == m && Canon(p, r)
  {
    seq(m, k requires 0 <= k < m => NegatedAt(p, g, w, v, k))
  }

  function NegatedAt(p: nat, g: int, w: nat, v: seq<int>, k: nat): (r: int)
    requires p > 0 && k < w
    ensures 0 <= r < p
  {
    Res(p, -Res(p, Eval(v, Pow(g, w - (k + 1)))))
  }

  lemma ValuesAreSeries(p: nat, g: int, q: nat, v: seq<int>, ns: seq<int>, pos: seq<nat>, m: nat)
    requires HasOrder(p, g, q) && m <= Pow2(q)
    requires Sparse(v, ns, pos) && Distinct(pos)
    requires Below(pos, Pow2(q))
    ensures Reds(p, NegatedInverseValues(p, g, Pow2(q), v, m)) == Reds(p, Series(ns, InversePoints(g, Pow2(q), pos), m))
  {
    hide Res, HasOrder, NegatedAt, SumPow, InversePoints, Pow2, Sparse, Distinct;
    OrderPositive(p, g, q);
    SparseSize(v, ns, pos);
    var w := Pow2(q);
    var l, r := NegatedInverseValues(p, g, w, v, m), Series(ns, InversePoints(g, w, pos), m);
    forall k | 0 <= k < m ensures Res(p, l[k]) == Res(p, r[k]) {
      ValueIsSeries(p, g, q, v, ns, pos, k);
    }
  }

  lemma ValueIsSeries(p: nat, g: int, q: nat, v: seq<int>, ns: seq<int>, pos: seq<nat>, k: nat)
    requires HasOrder(p, g, q) && k < Pow2(q)
    requires Sparse(v, ns, pos) && Distinct(pos)
    requires Below(pos, Pow2(q))
    ensures p > 0 && |ns| == |pos|
    ensures Res(p, NegatedAt(p, g, Pow2(q), v, k)) == Res(p, -SumPow(ns, InversePoints(g, Pow2(q), pos), k + 1))
  {
    hide *;
    OrderPositive(p, g, q);
    SparseSize(v, ns, pos);
    NegatedAtIs(p, g, Pow2(q), v, k);
    var z := Pow(g, Pow2(q) - (k + 1));
    SparseEval(v, ns, pos, z);
    SumAtIsSumPow(p, g, q, ns, pos, k + 1);
    NegateTwice(p, Eval(v, z), SumPow(ns, InversePoints(g, Pow2(q), pos), k + 1));
  }

  lemma NegatedAtIs(p: nat, g: int, w: nat, v: seq<int>, k: nat)
    requires p > 0 && k < w
    ensures NegatedAt(p, g, w, v, k) == Res(p, -Res(p, Eval(v, Pow(g, w - (k + 1)))))
  {
  }

  lemma NegateTwice(p: nat, a: int, b: int)
    requires p > 0 && Res(p, a) == Res(p, b)
    ensures Res(p, Res(p, -Res(p, a))) == Res(p, -b)
  {
    hide *;
    ResRes(p, a);
    ResRes(p, -Res(p, a));
    ResOps(p, 0, Res(p, a), 0, b);
    assert 0 - Res(p, a) == -Res(p, a) && 0 - b == -b;
  }

  // ---------------------------------------------------------------- products commute

  /** Products of bounded length commute modulo p: they agree at all the points. */
  lemma ConvCommutes(p: nat, a: seq<int>, b: seq<int>, pts: seq<int>)
    requires IsPrime(p) && DistinctRes(p, pts) && |a| > 0 && |b| > 0 && |a| + |b| - 1 <= |pts|
    ensures p > 0
    ensures Reds(p, Conv(a, b)) == Reds(p, Conv(b, a))
  {
    hide *;
    PrimePositive(p);
    forall x: int ensures Eval(Conv(a, b), x) == Eval(Conv(b, a), x) {
      EvalConv(a, b, x);
      EvalConv(b, a, x);
      assert Eval(a, x) * Eval(b, x) == Eval(b, x) * Eval(a, x);
    }
    UniquePoly(p, Conv(a, b), Conv(b, a), pts);
  }

  // ---------------------------------------------------------------- coefficients from points

  /** The points named by pos are the pos-th powers of g. */
  ghost predicate PowersAt(p: nat, g: int, xs: seq<int>, pos: seq<nat>)
    requires p > 0
  {
    |xs| == |pos| && forall i :: 0 <= i < |xs| ==> Res(p, xs[i]) == Res(p, Pow(g, pos[i]))
  }

  lemma PointsInvert(p: nat, g: int, q: nat, xs: seq<int>, pos: seq<nat>)
    requires HasOrder(p, g, q) && PowersAt(p, g, xs, pos)
    requires Below(pos, Pow2(q))
    ensures forall i :: 0 <= i < |xs| ==> Res(p, xs[i] * InversePoints(g, Pow2(q), pos)[i]) == 1
  {
    hide Res, HasOrder, Pow, Pow2;
    OrderPositive(p, g, q);
    var ss := InversePoints(g, Pow2(q), pos);
    forall i | 0 <= i < |xs| ensures Res(p, xs[i] * ss[i]) == 1 {
      RootInverse(p, g, q, pos[i]);
      ResMul(p, xs[i], ss[i], Pow(g, pos[i]));
    }
  }

  /** The truncated product of the series and the vanishing polynomial is the polynomial
      through the points. */
  lemma SeriesTimesVanishing(p: nat, g: int, q: nat, a: seq<int>, xs: seq<int>, ys: seq<int>,
                             ns: seq<int>, pos: seq<nat>, v: seq<int>, pts: seq<int>)
    requires IsPrime(p) && HasOrder(p, g, q)
    requires |xs| == |ys| == |ns| > 0 && |xs| <= Pow2(q)
    requires PowersAt(p, g, xs, pos) && Sparse(v, ns, pos) && Distinct(pos)
    requires Below(pos, Pow2(q))
    requires DistinctRes(p, xs) && Vanishing(p, a, xs)
    requires forall i :: 0 <= i < |xs| ==> Res(p, ns[i]) == Res(p, ys[i] * Inv(p, Eval(Deriv(a), xs[i])))
    requires DistinctRes(p, pts) && 2 * |xs| <= |pts|
    ensures p > 0
    ensures Reds(p, Conv(NegatedInverseValues(p, g, Pow2(q), v, |xs|), a))[..|xs|] == PolyThrough(p, xs, ys)
  {
    hide Res, IsPrime, HasOrder, Eval, Conv, PolyThrough, Series, InversePoints, NegatedInverseValues, Vanishing,
         FastInterp, PowersAt, Inv, Pow2, Deriv, Sparse, Distinct;
    PrimePositive(p);
    var series := NegatedInverseValues(p, g, Pow2(q), v, |xs|);
    SparseSize(v, ns, pos);
    ValuesAreSeries(p, g, q, v, ns, pos, |xs|);
    VanishingSize(p, a, xs);
    ConvCommutes(p, series, a, pts);
    PointsInvert(p, g, q, xs, pos);
    FastInterpIs(p, a, series);
    var c := FastInterp(p, a, series);
    forall j | 0 <= j < |xs| ensures Res(p, Eval(c, xs[j])) == Res(p, ys[j]) {
      FastInterpValues(p, a, ys, ns, xs, InversePoints(g, Pow2(q), pos), series, j);
    }
    PolyThroughUnique(p, xs, ys, c);
    RedsPrefix(p, Conv(a, series), |xs|);
  }

  lemma SparseSize(v: seq<int>, ns: seq<int>, pos: seq<nat>)
    requires Sparse(v, ns, pos)
    ensures |ns| == |pos|
  {
  }

  lemma FastInterpIs(p: nat, a: seq<int>, series: seq<int>)
    requires p > 0 && |series| > 0 && |a| > 0
    ensures FastInterp(p, a, series) == Reds(p, Conv(a, series))[..|series|]
  {
  }

  lemma RedsPrefix(p: nat, c: seq<int>, m: nat)
    requires p > 0 && m <= |c|
    ensures Reds(p, Reds(p, c)[..m]) == Reds(p, c)[..m]
  {
    hide Res;
    RedsReds(p, c);
    forall k | 0 <= k < m ensures Res(p, Reds(p, c)[k]) == Reds(p, c)[k] { ResRes(p, c[k]); }
  }

  // ---------------------------------------------------------------- the two point sets

  function Identity(m: nat): (r: seq<nat>)
    ensures |r| == m
  {
    seq(m, i requires 0 <= i < m => i)
  }

  /** Positions of the points l, ..., l + m - 1 among the powers of the generator. */
  function Positions(half: nat, l: nat, m: nat): (r: seq<nat>)
    ensures |r| == m
  {
    if m == 0 then [] else Positions(half, l, m - 1) + [Pos(half, l + m - 1)]
  }

  lemma {:induction false} PositionAt(half: nat, l: nat, m: nat, i: nat)
    requires i < m
    ensures Positions(half, l, m)[i] == Pos(half, l + i)
  {
    if i < m - 1 { PositionAt(half, l, m - 1, i); }
  }

  lemma SparseResize(v: seq<int>, ns: seq<int>, pos: seq<nat>, n: nat)
    requires Sparse(v, ns, pos) && |v| <= n
    ensures Sparse(Resize(v, n), ns, pos)
  {
    var w := Resize(v, n);
    forall t | 0 <= t < |w| && t !in pos ensures w[t] == 0 {
      if t < |v| { assert v[t] == 0; }
    }
  }

  lemma SparseStart(n: nat, ns: seq<int>, pos: seq<nat>)
    ensures Sparse(Resize([], n), ns[..0], pos[..0])
  {
  }

  lemma SparseStep(v: seq<int>, ns: seq<int>, pos: seq<nat>, i: nat)
    requires |ns| == |pos| && i < |ns| && pos[i] < |v| && Distinct(pos)
    requires Sparse(v, ns[..i], pos[..i])
    ensures Sparse(v[pos[i] := ns[i]], ns[..i + 1], pos[..i + 1])
  {
    var w := v[pos[i] := ns[i]];
    var p := pos[..i + 1];
    assert p == pos[..i] + [pos[i]];
    forall j | 0 <= j < |p| ensures p[j] < |w| && w[p[j]] == ns[j] {
      if j < i { assert pos[..i][j] == p[j]; }
    }
  }

  lemma SparsePrefix(ns: seq<int>)
    ensures Sparse(ns, ns, Identity(|ns|)) && Distinct(Identity(|ns|))
  {
    var pos := Identity(|ns|);
    forall t | 0 <= t < |ns| ensures t in pos {
      assert pos[t] == t;
    }
  }

  lemma PositionsDistinct(half: nat, l: nat, m: nat)
    requires l + m <= 2 * half
    ensures Distinct(Positions(half, l, m)) && Below(Positions(half, l, m), 2 * half)
  {
    hide Positions;
    forall i | 0 <= i < m ensures Positions(half, l, m)[i] == Pos(half, l + i) { PositionAt(half, l, m, i); }
  }

  lemma PointPower(p: nat, g: int, q: nat, i: nat)
    requires p > 0 && q >= 1 && i < Pow2(q)
    ensures Res(p, Points(p, g, q)[i]) == Res(p, Pow(g, Pos(Pow2(q - 1), i)))
  {
    hide Res, Pow;
    ResRes(p, Pow(g, Pos(Pow2(q - 1), i)));
  }

  lemma SharePowers(p: nat, g: int, q: nat, m: nat)
    requires p > 0 && q >= 1 && m <= Pow2(q - 1)
    ensures m <= Pow2(q)
    ensures PowersAt(p, Res(p, g * g), Points(p, g, q)[..m], Identity(m))
  {
    hide Res, Pow;
    var xs := Points(p, g, q)[..m];
    assert Pow2(q) == 2 * Pow2(q - 1);
    forall i | 0 <= i < m ensures Res(p, xs[i]) == Res(p, Pow(Res(p, g * g), Identity(m)[i])) {
      PointPower(p, g, q, i);
      SquarePower(p, g, i);
    }
  }

  lemma SquarePower(p: nat, g: int, i: nat)
    requires p > 0
    ensures Res(p, Pow(Res(p, g * g), i)) == Res(p, Pow(g, 2 * i))
  {
    hide Res;
    ResRes(p, g * g);
    PowRes(p, Res(p, g * g), g * g, i);
    assert Pow(g, 2) == g * (g * Pow(g, 0));
    PowPow(g, 2, i);
  }

  lemma RecoverPowers(p: nat, g: int, q: nat, l: nat, m: nat)
    requires p > 0 && q >= 1 && l + m <= Pow2(q)
    ensures PowersAt(p, g, Points(p, g, q)[l..l + m], Positions(Pow2(q - 1), l, m))
  {
    hide Res, Pow;
    var xs := Points(p, g, q)[l..l + m];
    forall i | 0 <= i < m ensures Res(p, xs[i]) == Res(p, Pow(g, Positions(Pow2(q - 1), l, m)[i])) {
      PositionAt(Pow2(q - 1), l, m, i);
      PointPower(p, g, q, l + i);
    }
  }

  /** A value of the transform at the position of a point is the polynomial's value there. */
  lemma DftAtPoint(p: nat, g: int, q: nat, c: seq<int>, j: nat)
    requires p > 0 && q >= 1 && |c| <= Pow2(q) && j < Pow2(q)
    ensures Pos(Pow2(q - 1), j) < Pow2(q)
    ensures Dft(p, g, Resize(c, Pow2(q)))[Pos(Pow2(q - 1), j)] == Res(p, Eval(c, Points(p, g, q)[j]))
  {
    hide Res, Pow, Eval, Dft, Resize;
    assert Pow2(q) == 2 * Pow2(q - 1);
    var e := Pos(Pow2(q - 1), j);
    DftAt(p, g, Resize(c, Pow2(q)), e);
    EvalResize(c, Pow2(q), Pow(g, e));
    PointPower(p, g, q, j);
    EvalRes(p, c, c, Pow(g, e), Points(p, g, q)[j]);
  }
}
