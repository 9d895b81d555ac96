/** The inverse transform (a forward transform read backwards and scaled), and products of
    polynomials through their values. */
module InverseFft {
  import opened Modular
  import opened Poly
  import opened Fft

  // ---------------------------------------------------------------- sums over roots of unity

  /** 1 + x + ... + x^(n-1). */
  function Geo(x: int, n: nat): int {
    if n == 0 then 0 else 1 + x * Geo(x, n - 1)
  }

  lemma {:induction false} GeoSum(x: int, n: nat)
    ensures (x - 1) * Geo(x, n) == Pow(x, n) - 1
  {
    if n > 0 {
      GeoSum(x, n - 1);
      GeoAlgebra(x, Geo(x, n - 1), Pow(x, n - 1));
    }
  }

  lemma GeoAlgebra(x: int, s: int, y: int)
    requires (x - 1) * s == y - 1
    ensures (x - 1) * (1 + x * s) == x * y - 1
  {
    assert (x - 1) * (x * s) == x * ((x - 1) * s);
    assert x * (y - 1) == x * y - x;
  }

  lemma {:induction false} GeoOne(p: nat, x: int, n: nat)
    requires p > 0 && Res(p, x) == Res(p, 1)
    ensures Res(p, Geo(x, n)) == Res(p, n)
  {
    hide Res;
    if n > 0 {
      GeoOne(p, x, n - 1);
      ResOps(p, x, Geo(x, n - 1), 1, n - 1);
      ResOps(p, 1, x * Geo(x, n - 1), 1, n - 1);
    }
  }

  /** The sum of the n-th powers of all roots of unity: N for n == N, otherwise 0. */
  lemma GeoRoot(p: nat, g: int, q: nat, j: nat)
    requires IsPrime(p) && HasOrder(p, g, q) && 0 < j < 2 * Pow2(q)
    ensures Res(p, Geo(Pow(g, j), Pow2(q))) == Res(p, if j == Pow2(q) then Pow2(q) else 0)
  {
    hide *;
    OrderPositive(p, g, q);
    var n := Pow2(q);
    var x := Pow(g, j);
    ResSmall(p, 1);
    if j == n {
      OrderCycle(p, g, q);
      GeoOne(p, x, n);
    } else {
      RootNotOne(p, g, q, j);
      FullTurn(p, g, q, j);
      GeoZero(p, x, n);
      ResZero(p, 0);
    }
  }

  lemma GeoZero(p: nat, x: int, n: nat)
    requires IsPrime(p) && Res(p, x) != Res(p, 1) && Res(p, Pow(x, n)) == Res(p, 1)
    ensures Res(p, Geo(x, n)) == 0
  {
    hide *;
    PrimePositive(p);
    GeoSum(x, n);
    ResSub(p, Pow(x, n), 1);
    Cancel(p, x - 1, Geo(x, n));
    ResSub(p, x, 1);
  }

  lemma RootNotOne(p: nat, g: int, q: nat, j: nat)
    requires HasOrder(p, g, q) && 0 < j < 2 * Pow2(q) && j != Pow2(q)
    ensures Res(p, Pow(g, j)) != Res(p, 1)
  {
    hide *;
    OrderPositive(p, g, q);
    ResSmall(p, 1);
    if j < Pow2(q) {
      OrderExact(p, g, q, j);
    } else {
      RootWrap(p, g, q, j - Pow2(q));
      OrderExact(p, g, q, j - Pow2(q));
    }
  }

  lemma RootWrap(p: nat, g: int, q: nat, i: nat)
    requires HasOrder(p, g, q)
    ensures Res(p, Pow(g, i + Pow2(q))) == Res(p, Pow(g, i))
  {
    hide *;
    OrderPositive(p, g, q);
    PowAdd(g, i, Pow2(q));
    OrderCycle(p, g, q);
    ResSmall(p, 1);
    ResMul(p, Pow(g, Pow2(q)), Pow(g, i), 1);
    assert Pow(g, i) * 1 == Pow(g, i);
  }

  lemma FullTurn(p: nat, g: int, q: nat, j: nat)
    requires HasOrder(p, g, q)
    ensures Res(p, Pow(Pow(g, j), Pow2(q))) == Res(p, 1)
  {
    hide *;
    OrderPositive(p, g, q);
    PowPow(g, j, Pow2(q));
    PowPow(g, Pow2(q), j);
    assert j * Pow2(q) == Pow2(q) * j;
    OrderCycle(p, g, q);
    ResSmall(p, 1);
    PowRes(p, Pow(g, Pow2(q)), 1, j);
    PowOne(j);
  }

  // ---------------------------------------------------------------- transforming twice

  /** The exact values of c at g^0, ..., g^(n-1). */
  function Values(c: seq<int>, g: int, n: nat): (r: seq<int>)
    ensures |r| == n
  {
    seq(n, k requires 0 <= k < n => Eval(c, Pow(g, k)))
  }

  /** Entry k multiplied by g^k. */
  function Twist(e: seq<int>, g: int): (r: seq<int>)
    ensures |r| == |e|
  {
    seq(|e|, k requires 0 <= k < |e| => Pow(g, k) * e[k])
  }

  lemma {:induction false} EvalTwist(e: seq<int>, g: int, y: int)
    ensures Eval(Twist(e, g), y) == Eval(e, g * y)
  {
    if e != [] {
      var t := e[1..];
      EvalTwist(t, g, y);
      TwistTail(e, g);
      EvalScale(g, Twist(t, g), y);
      assert Twist(e, g)[0] == e[0];
      assert y * (g * Eval(Twist(t, g), y)) == (g * y) * Eval(Twist(t, g), y);
    }
  }

  lemma TwistTail(e: seq<int>, g: int)
    requires e != []
    ensures Twist(e, g)[1..] == Scale(g, Twist(e[1..], g))
  {
    var l, r := Twist(e, g)[1..], Scale(g, Twist(e[1..], g));
    assert |l| == |r|;
    forall k | 0 <= k < |l| ensures l[k] == r[k] {
      assert Pow(g, k + 1) == g * Pow(g, k);
      MulAssoc(g, Pow(g, k), e[k + 1]);
    }
  }

  lemma {:induction false} EvalConst(t: int, n: nat, y: int)
    ensures Eval(seq(n, _ => t), y) == t * Geo(y, n)
  {
    if n > 0 {
      EvalConst(t, n - 1, y);
      var s: seq<int> := seq(n, _ => t);
      assert s[1..] == seq(n - 1, _ => t);
      assert t * (1 + y * Geo(y, n - 1)) == t + y * (t * Geo(y, n - 1)) by {
        assert t * (y * Geo(y, n - 1)) == y * (t * Geo(y, n - 1));
      }
    }
  }

  lemma ValuesSplit(c: seq<int>, g: int, n: nat)
    requires c != []
    ensures Values(c, g, n) == AddP(seq(n, _ => c[0]), Twist(Values(c[1..], g, n), g))
  {
    var l, r := Values(c, g, n), AddP(seq(n, _ => c[0]), Twist(Values(c[1..], g, n), g));
    assert |l| == |r|;
    forall k | 0 <= k < n ensures l[k] == r[k] {
      EvalStep(c, Pow(g, k));
    }
  }

  lemma DoubleEval(c: seq<int>, g: int, n: nat, y: int)
    requires c != []
    ensures Eval(Values(c, g, n), y) == c[0] * Geo(y, n) + Eval(Values(c[1..], g, n), g * y)
  {
    hide *;
    var s, t := seq(n, _ => c[0]), Twist(Values(c[1..], g, n), g);
    ValuesSplit(c, g, n);
    EvalAdd(s, t, y);
    EvalConst(c[0], n, y);
    EvalTwist(Values(c[1..], g, n), g, y);
  }

  /** The values of c, transformed again, are N times its coefficients in reverse. */
  lemma {:induction false} Spectral(p: nat, g: int, q: nat, c: seq<int>, j: nat)
    requires IsPrime(p) && HasOrder(p, g, q)
    requires 0 < j && j + |c| <= 2 * Pow2(q)
    ensures Res(p, Eval(Values(c, g, Pow2(q)), Pow(g, j))) == Res(p, Pow2(q) * Coef(c, Pow2(q) - j))
  {
    hide Res, IsPrime, HasOrder, Values, Eval, Geo, Pow2, Pow;
    OrderPositive(p, g, q);
    var n := Pow2(q);
    if c == [] {
      EvalZeros([], 0);
      ValuesNone(g, n, Pow(g, j));
      assert n * 0 == 0;
    } else {
      DoubleEval(c, g, n, Pow(g, j));
      PowNext(g, j);
      Spectral(p, g, q, c[1..], j + 1);
      GeoRoot(p, g, q, j);
      SpectralStep(p, c, n, j, Geo(Pow(g, j), n), Eval(Values(c[1..], g, n), Pow(g, j + 1)));
    }
  }

  lemma PowNext(g: int, j: nat)
    ensures Pow(g, j + 1) == g * Pow(g, j)
  {
  }

  lemma ValuesNone(g: int, n: nat, y: int)
    ensures Eval(Values([], g, n), y) == 0
  {
    EvalZeros(Values([], g, n), y);
  }

  lemma SpectralStep(p: nat, c: seq<int>, n: nat, j: nat, geo: int, rest: int)
    requires p > 0 && c != []
    requires Res(p, geo) == Res(p, if j == n then n else 0)
    requires Res(p, rest) == Res(p, n * Coef(c[1..], n - (j + 1)))
    ensures Res(p, c[0] * geo + rest) == Res(p, n * Coef(c, n - j))
  {
    hide Res;
    ResMul(p, geo, c[0], if j == n then n else 0);
    ResOps(p, c[0] * geo, rest, c[0] * (if j == n then n else 0), n * Coef(c[1..], n - (j + 1)));
    assert c[0] * n == n * c[0];
    assert c[0] * 0 == 0 && n * 0 == 0;
  }

  // ---------------------------------------------------------------- the inverse transform

  /** The index the inverse transform reads for output i: -i modulo n. */
  function Mirror(n: nat, i: nat): (r: nat)
    requires i < n
    ensures r < n
  {
    (n - i) % n
  }

  lemma MirrorIs(n: nat, i: nat)
    requires i < n
    ensures Mirror(n, i) == if i == 0 then 0 else n - i
  {
  }

  /** What the inverse transform leaves: mirrored entries scaled by 1/N, cut at end. */
  function InvDft(p: nat, g: int, v: seq<int>, end: nat): (r: seq<int>)
    requires p > 0 && end <= |v|
    ensures |r| == end && Canon(p, r)
  {
    seq(end, i requires 0 <= i < end => Res(p, Inv(p, |v|) * Dft(p, g, v)[Mirror(|v|, i)]))
  }

  lemma InvDftAt(p: nat, g: int, q: nat, c: seq<int>, i: nat)
    requires IsPrime(p) && HasOrder(p, g, q) && |c| == Pow2(q) && i < |c|
    ensures Res(p, Inv(p, |c|) * Dft(p, g, Dft(p, g, c))[Mirror(|c|, i)]) == Res(p, c[i])
  {
    hide *;
    OrderPositive(p, g, q);
    var n := Pow2(q);
    var u := Dft(p, g, c);
    var m := Mirror(n, i);
    MirrorIs(n, i);
    DftAt(p, g, u, m);
    DftIsValues(p, g, c, Pow(g, m));
    var j := n - i;
    MirrorPower(p, g, q, i);
    ValuesAt(p, Values(c, g, n), Pow(g, m), Pow(g, j));
    Spectral(p, g, q, c, j);
    CoefAt(c, i);
    Pow2Invertible(p, q);
    Unscale(p, n, c[i], Eval(u, Pow(g, m)), Dft(p, g, u)[m]);
  }

  lemma CoefAt(c: seq<int>, i: nat)
    requires i < |c|
    ensures Coef(c, i) == c[i]
  {
  }

  lemma DftAt(p: nat, g: int, v: seq<int>, j: nat)
    requires p > 0 && j < |v|
    ensures Dft(p, g, v)[j] == Res(p, Eval(v, Pow(g, j)))
  {
  }

  lemma DftIsValues(p: nat, g: int, c: seq<int>, y: int)
    requires p > 0
    ensures Res(p, Eval(Dft(p, g, c), y)) == Res(p, Eval(Values(c, g, |c|), y))
  {
    hide Res, Eval, Pow;
    var a, b := Dft(p, g, c), Values(c, g, |c|);
    forall k | 0 <= k < |a| ensures Res(p, a[k]) == Res(p, b[k]) {
      ResRes(p, b[k]);
    }
    EvalRes(p, a, b, y, y);
  }

  lemma ValuesAt(p: nat, v: seq<int>, y: int, z: int)
    requires p > 0 && Res(p, y) == Res(p, z)
    ensures Res(p, Eval(v, y)) == Res(p, Eval(v, z))
  {
    EvalRes(p, v, v, y, z);
  }

  lemma MirrorPower(p: nat, g: int, q: nat, i: nat)
    requires HasOrder(p, g, q) && i < Pow2(q)
    ensures Res(p, Pow(g, Mirror(Pow2(q), i))) == Res(p, Pow(g, Pow2(q) - i))
  {
    hide *;
    OrderPositive(p, g, q);
    MirrorIs(Pow2(q), i);
    if i == 0 { RootWrap(p, g, q, 0); }
  }

  lemma Unscale(p: nat, n: nat, x: int, e: int, u: int)
    requires IsPrime(p) && Res(p, n) != 0
    requires u == Res(p, e) && Res(p, e) == Res(p, n * x)
    ensures Res(p, Inv(p, n) * u) == Res(p, x)
  {
    hide *;
    PrimePositive(p);
    ResRes(p, e);
    ResMul(p, u, Inv(p, n), n * x);
    InvMul(p, n);
    ResSmall(p, 1);
    ResMul(p, n * Inv(p, n), x, 1);
    assert Inv(p, n) * (n * x) == (n * Inv(p, n)) * x;
    assert 1 * x == x;
  }

  /** The inverse transform undoes the transform, for every truncation length. */
  lemma InverseUndoes(p: nat, g: int, q: nat, c: seq<int>, end: nat)
    requires IsPrime(p) && HasOrder(p, g, q) && |c| == Pow2(q) && Canon(p, c) && end <= |c|
    ensures InvDft(p, g, Dft(p, g, c), end) == c[..end]
  {
    hide Res, IsPrime, HasOrder, Dft, Mirror;
    OrderPositive(p, g, q);
    var l := InvDft(p, g, Dft(p, g, c), end);
    forall i | 0 <= i < end ensures l[i] == c[i] {
      InvDftAt(p, g, q, c, i);
      ResSmall(p, c[i]);
    }
  }

  /** Output i of the inverse transform, from the transformed entries u. */
  function Mirrored(p: nat, nInv: int, u: seq<int>, i: nat): int
    requires p > 0 && i < |u|
  {
    Res(p, nInv * u[Mirror(|u|, i)])
  }

  lemma MirroredIs(p: nat, nInv: int, u: seq<int>, i: nat)
    requires p > 0 && i < |u|
    ensures (|u| - i) % |u| == if i == 0 then 0 else |u| - i
    ensures Mirrored(p, nInv, u, i) == Res(p, nInv * u[if i == 0 then 0 else |u| - i])
  {
  }

  /** The wanted prefix is short: it is read from the untouched upper half. */
  method ReadMirrored(p: nat, nInv: int, pts: FieldVector, end: nat)
    requires p > 0 && 2 * end < |pts.elems|
    modifies pts
    ensures |pts.elems| == |old(pts.elems)|
    ensures forall t :: 0 <= t < end ==> pts.elems[t] == Mirrored(p, nInv, old(pts.elems), t)
  {
    hide Res;
    ghost var u := pts.elems;
    var n := |pts.elems|;
    for i := 0 to end
      invariant |pts.elems| == n
      invariant forall t :: 0 <= t < i ==> pts.elems[t] == Mirrored(p, nInv, u, t)
      invariant forall t :: i <= t < n ==> pts.elems[t] == u[t]
      invariant 0 < i ==> pts.elems[0] == Mirrored(p, nInv, u, 0)
    {
      var newIdx := (n - i) % n;
      MirrorIs(n, i);
      pts.elems := pts.elems[i := Res(p, nInv * pts.elems[newIdx])];
    }
  }

  /** Otherwise the two halves change places, each entry scaled. */
  method ExchangeHalves(p: nat, nInv: int, pts: FieldVector, half: nat)
    requires p > 0 && half > 0 && |pts.elems| == 2 * half
    modifies pts
    ensures |pts.elems| == |old(pts.elems)|
    ensures forall t :: 0 <= t < |pts.elems| ==> pts.elems[t] == Mirrored(p, nInv, old(pts.elems), t)
  {
    hide *;
    ghost var u := pts.elems;
    var n := 2 * half;
    for i := 0 to half
      invariant |pts.elems| == n
      invariant forall t :: 0 <= t < i ==> pts.elems[t] == Mirrored(p, nInv, u, t)
      invariant forall t :: n - i < t < n ==> pts.elems[t] == Mirrored(p, nInv, u, t)
      invariant forall t :: i <= t <= n - i && t < n ==> pts.elems[t] == u[t]
    {
      var save := pts.elems[i];
      var newIdx := (n - i) % n;
      MirroredIs(p, nInv, u, i);
      MirroredIs(p, nInv, u, newIdx);
      pts.elems := pts.elems[i := Res(p, nInv * pts.elems[newIdx])];
      pts.elems := pts.elems[newIdx := Res(p, nInv * save)];
    }
    MirroredIs(p, nInv, u, half);
    assert u[half] * nInv == nInv * u[half];
    pts.elems := pts.elems[half := Res(p, pts.elems[half] * nInv)];
  }

  /** The inverse transform as the code runs it. */
  method InverseTransform(p: nat, gen: int, pts: FieldVector, pow: nat, end: nat)
    requires IsPrime(p) && HasOrder(p, gen, pow)
    requires |pts.elems| == Pow2(pow) && Canon(p, pts.elems) && end <= Pow2(pow)
    modifies pts
    ensures pts.elems == InvDft(p, gen, old(pts.elems), end)
  {
    hide Res, Inv, Dft, HasOrder, IsPrime, Mirror;
    OrderPositive(p, gen, pow);
    var half := Pow2(pow - 1);
    assert Pow2(pow) == 2 * half;
    Transform(p, gen, pts, pow);
    ghost var u := pts.elems;
    var nInv := Inv(p, Pow2(pow));
    if end < half {
      ReadMirrored(p, nInv, pts, end);
    } else {
      ExchangeHalves(p, nInv, pts, half);
    }
    pts.elems := pts.elems[..end];
  }

  // ---------------------------------------------------------------- products through values

  /** c padded with zeros (or cut) to length n. */
  function Resize(c: seq<int>, n: nat): (r: seq<int>)
    ensures |r| == n
  {
    seq(n, i => Coef(c, i))
  }

  lemma EvalResize(c: seq<int>, n: nat, x: int)
    requires |c| <= n
    ensures Eval(Resize(c, n), x) == Eval(c, x)
  {
    assert Resize(c, n) == c + seq(n - |c|, _ => 0);
    EvalPad(c, n - |c|, x);
  }

  /** The pointwise product of two transforms. */
  function Pointwise(p: nat, a: seq<int>, b: seq<int>): (r: seq<int>)
    requires p > 0 && |a| == |b|
    ensures |r| == |a| && Canon(p, r)
  {
    seq(|a|, i requires 0 <= i < |a| => Res(p, a[i] * b[i]))
  }

  lemma PointwiseIsProduct(p: nat, g: int, a: seq<int>, b: seq<int>, n: nat)
    requires p > 0 && |a| > 0 && |b| > 0 && |a| + |b| - 1 <= n
    ensures Pointwise(p, Dft(p, g, Resize(a, n)), Dft(p, g, Resize(b, n)))
         == Dft(p, g, Resize(Reds(p, Conv(a, b)), n))
  {
    hide Res, Eval, Conv, Pow;
    var c := Conv(a, b);
    var l := Pointwise(p, Dft(p, g, Resize(a, n)), Dft(p, g, Resize(b, n)));
    var r := Dft(p, g, Resize(Reds(p, c), n));
    forall j | 0 <= j < n ensures l[j] == r[j] {
      var x := Pow(g, j);
      EvalResize(a, n, x);
      EvalResize(b, n, x);
      EvalResize(Reds(p, c), n, x);
      ResReduced(p, Eval(a, x), Eval(b, x));
      EvalConv(a, b, x);
      forall k | 0 <= k < |c| ensures Res(p, Reds(p, c)[k]) == Res(p, c[k]) { ResRes(p, c[k]); }
      EvalRes(p, Reds(p, c), c, x, x);
    }
  }

  /** Transforming, multiplying pointwise and transforming back multiplies the polynomials. */
  lemma ProductByTransform(p: nat, g: int, q: nat, a: seq<int>, b: seq<int>)
    requires IsPrime(p) && HasOrder(p, g, q)
    requires |a| > 0 && |b| > 0 && |a| + |b| - 1 <= Pow2(q)
    ensures InvDft(p, g, Pointwise(p, Dft(p, g, Resize(a, Pow2(q))), Dft(p, g, Resize(b, Pow2(q)))), |a| + |b| - 1)
         == Reds(p, Conv(a, b))
  {
    hide *;
    OrderPositive(p, g, q);
    var n := Pow2(q);
    var ab := Reds(p, Conv(a, b));
    PointwiseIsProduct(p, g, a, b, n);
    ResizeCanon(p, ab, n);
    InverseUndoes(p, g, q, Resize(ab, n), |a| + |b| - 1);
    ResizePrefix(ab, n);
  }

  lemma ResizePrefix(c: seq<int>, n: nat)
    requires |c| <= n
    ensures Resize(c, n)[..|c|] == c
  {
  }

  lemma ResizeCanon(p: nat, c: seq<int>, n: nat)
    requires p > 0 && Canon(p, c)
    ensures Canon(p, Resize(c, n))
  {
  }
}
