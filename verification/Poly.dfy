/** Polynomials as coefficient sequences, constant term first, over the integers.
    Identities are exact; statements modulo p go through Res. */
module Poly {
  import opened Modular

  /** Horner evaluation. */
  function Eval(c: seq<int>, x: int): int {
    if c == [] then 0 else c[0] + x * Eval(c[1..], x)
  }

  function Coef(c: seq<int>, k: int): int {
    if 0 <= k < |c| then c[k] else 0
  }

  function AddP(a: seq<int>, b: seq<int>): (r: seq<int>)
    ensures |r| == if |a| < |b| then |b| else |a|
  {
    seq(if |a| < |b| then |b| else |a|, k => Coef(a, k) + Coef(b, k))
  }

  function Scale(t: int, a: seq<int>): (r: seq<int>)
    ensures |r| == |a|
  {
    seq(|a|, k requires 0 <= k < |a| => t * a[k])
  }

  /** The product of two polynomials. */
  function Conv(a: seq<int>, b: seq<int>): (r: seq<int>)
    requires |b| > 0
    ensures |r| == if |a| == 0 then 0 else |a| + |b| - 1
  {
    if a == [] then [] else AddP(Scale(a[0], b), [0] + Conv(a[1..], b))
  }

  /** The sum over i + j == k of a[i] * b[j], the textbook coefficient of a product. */
  function ConvAt(a: seq<int>, b: seq<int>, k: int): int {
    if a == [] || k < 0 then 0 else a[0] * Coef(b, k) + ConvAt(a[1..], b, k - 1)
  }

  function Even(c: seq<int>): (r: seq<int>)
    ensures |r| == (|c| + 1) / 2
  {
    seq((|c| + 1) / 2, i requires 0 <= i < (|c| + 1) / 2 => c[2 * i])
  }

  function Odd(c: seq<int>): (r: seq<int>)
    ensures |r| == |c| / 2
  {
    seq(|c| / 2, i requires 0 <= i < |c| / 2 => c[2 * i + 1])
  }

  /** Formal derivative. */
  function Deriv(a: seq<int>): (r: seq<int>)
    ensures |r| == if |a| == 0 then 0 else |a| - 1
  {
    seq(if |a| == 0 then 0 else |a| - 1, i requires 0 <= i < |a| - 1 => a[i + 1] * (i + 1))
  }

  /** Quotient of a by (x - r), the remainder being Eval(a, r). */
  function Quo(a: seq<int>, r: int): (q: seq<int>)
    ensures |q| == if |a| == 0 then 0 else |a| - 1
  {
    seq(if |a| == 0 then 0 else |a| - 1, k requires 0 <= k < |a| - 1 => Eval(a[k + 1..], r))
  }

  /** The monic polynomial with the given roots. */
  function ProdRoots(rs: seq<int>): (a: seq<int>)
    ensures |a| == |rs| + 1
  {
    if rs == [] then [1] else Conv([-rs[0], 1], ProdRoots(rs[1..]))
  }

  // ---------------------------------------------------------------- evaluation

  lemma EvalStep(c: seq<int>, x: int)
    requires |c| > 0
    ensures Eval(c, x) == c[0] + x * Eval(c[1..], x)
  {
  }

  lemma {:induction false} EvalRes(p: nat, a: seq<int>, b: seq<int>, x: int, y: int)
    requires p > 0 && |a| == |b| && Res(p, x) == Res(p, y)
    requires forall i :: 0 <= i < |a| ==> Res(p, a[i]) == Res(p, b[i])
    ensures Res(p, Eval(a, x)) == Res(p, Eval(b, y))
  {
    hide Res;
    if |a| > 0 {
      EvalRes(p, a[1..], b[1..], x, y);
      ResOps(p, x, Eval(a[1..], x), y, Eval(b[1..], y));
      ResOps(p, a[0], x * Eval(a[1..], x), b[0], y * Eval(b[1..], y));
    }
  }

  lemma {:induction false} EvalConcat(a: seq<int>, b: seq<int>, x: int)
    ensures Eval(a + b, x) == Eval(a, x) + Pow(x, |a|) * Eval(b, x)
  {
    if a == [] {
      assert a + b == b;
    } else {
      EvalConcat(a[1..], b, x);
      assert (a + b)[1..] == a[1..] + b;
      Distribute(x, Eval(a[1..], x), Pow(x, |a| - 1), Eval(b, x));
    }
  }

  lemma Distribute(x: int, u: int, v: int, w: int)
    ensures x * (u + v * w) == x * u + (x * v) * w
  {
    assert x * (u + v * w) == x * u + x * (v * w);
    assert x * (v * w) == (x * v) * w;
  }

  lemma {:induction false} EvalZeros(c: seq<int>, x: int)
    requires forall i :: 0 <= i < |c| ==> c[i] == 0
    ensures Eval(c, x) == 0
  {
    if c != [] { EvalZeros(c[1..], x); }
  }

  /** Padding with zeros does not change a polynomial's values. */
  lemma EvalPad(c: seq<int>, n: nat, x: int)
    ensures Eval(c + seq(n, _ => 0), x) == Eval(c, x)
  {
    EvalConcat(c, seq(n, _ => 0), x);
    EvalZeros(seq(n, _ => 0), x);
  }

  lemma {:induction false} EvalAdd(a: seq<int>, b: seq<int>, x: int)
    ensures Eval(AddP(a, b), x) == Eval(a, x) + Eval(b, x)
  {
    if a == [] {
      assert AddP(a, b) == b;
    } else if b == [] {
      assert AddP(a, b) == a;
    } else {
      EvalAdd(a[1..], b[1..], x);
      assert AddP(a, b)[1..] == AddP(a[1..], b[1..]);
      assert x * (Eval(a[1..], x) + Eval(b[1..], x)) == x * Eval(a[1..], x) + x * Eval(b[1..], x);
    }
  }

  lemma {:induction false} EvalScale(t: int, a: seq<int>, x: int)
    ensures Eval(Scale(t, a), x) == t * Eval(a, x)
  {
    if a != [] {
      EvalScale(t, a[1..], x);
      assert Scale(t, a)[1..] == Scale(t, a[1..]);
      Distribute(t, a[0], x, Eval(a[1..], x));
      assert x * (t * Eval(a[1..], x)) == (t * x) * Eval(a[1..], x);
    }
  }

  lemma {:induction false} EvalConv(a: seq<int>, b: seq<int>, x: int)
    requires |b| > 0
    ensures Eval(Conv(a, b), x) == Eval(a, x) * Eval(b, x)
  {
    if a != [] {
      EvalConv(a[1..], b, x);
      EvalAdd(Scale(a[0], b), [0] + Conv(a[1..], b), x);
      EvalScale(a[0], b, x);
      assert ([0] + Conv(a[1..], b))[1..] == Conv(a[1..], b);
      DistributeRight(a[0], x, Eval(a[1..], x), Eval(b, x));
    }
  }

  lemma DistributeRight(u: int, x: int, v: int, w: int)
    ensures (u + x * v) * w == u * w + x * (v * w)
  {
    assert (u + x * v) * w == u * w + (x * v) * w;
    assert (x * v) * w == x * (v * w);
  }

  /** Decimation: the radix-2 step of the transform. */
  lemma {:induction false} EvalSplit(c: seq<int>, x: int)
    ensures Eval(c, x) == Eval(Even(c), x * x) + x * Eval(Odd(c), x * x)
  {
    if c != [] {
      EvalSplit(c[1..], x);
      assert Even(c[1..]) == Odd(c);
      assert Odd(c[1..]) == Even(c)[1..];
      EvalStep(Even(c), x * x);
      Distribute(x, Eval(Odd(c), x * x), x, Eval(Even(c)[1..], x * x));
    }
  }

  // ---------------------------------------------------------------- products

  /** Conv has the textbook coefficients. */
  lemma {:induction false} ConvCoef(a: seq<int>, b: seq<int>, k: int)
    requires |b| > 0
    ensures Coef(Conv(a, b), k) == ConvAt(a, b, k)
  {
    if a != [] && k >= 0 {
      ConvCoef(a[1..], b, k - 1);
      var shifted := [0] + Conv(a[1..], b);
      assert Coef(shifted, k) == Coef(Conv(a[1..], b), k - 1);
      assert Coef(Scale(a[0], b), k) == a[0] * Coef(b, k);
    }
  }

  lemma {:induction false} ConvScale(t: int, a: seq<int>, b: seq<int>)
    requires |b| > 0
    ensures Conv(Scale(t, a), b) == Scale(t, Conv(a, b))
  {
    if a != [] {
      ConvScale(t, a[1..], b);
      assert Scale(t, a)[1..] == Scale(t, a[1..]);
      var u, v := Scale(a[0], b), [0] + Conv(a[1..], b);
      assert Scale(t * a[0], b) == Scale(t, u) by {
        forall k | 0 <= k < |b| ensures (t * a[0]) * b[k] == t * (a[0] * b[k]) {}
      }
      assert [0] + Scale(t, Conv(a[1..], b)) == Scale(t, v);
      ScaleAdd(t, u, v);
    }
  }

  lemma ScaleAdd(t: int, u: seq<int>, v: seq<int>)
    ensures AddP(Scale(t, u), Scale(t, v)) == Scale(t, AddP(u, v))
  {
    var l, r := AddP(Scale(t, u), Scale(t, v)), Scale(t, AddP(u, v));
    forall k | 0 <= k < |l| ensures l[k] == r[k] {
      assert t * (Coef(u, k) + Coef(v, k)) == t * Coef(u, k) + t * Coef(v, k);
    }
  }

  lemma AddSwap(s: seq<int>, t: seq<int>, u: seq<int>, v: seq<int>)
    ensures AddP(AddP(s, t), AddP(u, v)) == AddP(AddP(s, u), AddP(t, v))
  {
    var l, r := AddP(AddP(s, t), AddP(u, v)), AddP(AddP(s, u), AddP(t, v));
    assert |l| == |r|;
    forall k | 0 <= k < |l| ensures l[k] == r[k] {}
  }

  lemma {:induction false} ConvAdd(a: seq<int>, b: seq<int>, c: seq<int>)
    requires |c| > 0
    ensures Conv(AddP(a, b), c) == AddP(Conv(a, c), Conv(b, c))
  {
    if a == [] {
      assert AddP(a, b) == b && AddP(Conv(a, c), Conv(b, c)) == Conv(b, c);
    } else if b == [] {
      assert AddP(a, b) == a && AddP(Conv(a, c), Conv(b, c)) == Conv(a, c);
    } else {
      ConvAdd(a[1..], b[1..], c);
      var u, v := Conv(a[1..], c), Conv(b[1..], c);
      AddTail(a, b);
      ConvStep(a, c);
      ConvStep(b, c);
      ConvStep(AddP(a, b), c);
      ConvAddStep(a[0], b[0], u, v, c);
    }
  }

  lemma ConvAddStep(s: int, t: int, u: seq<int>, v: seq<int>, c: seq<int>)
    ensures AddP(Scale(s + t, c), [0] + AddP(u, v)) == AddP(AddP(Scale(s, c), [0] + u), AddP(Scale(t, c), [0] + v))
  {
    AddZeroHead(u, v);
    ScaleSum(s, t, c);
    AddSwap(Scale(s, c), Scale(t, c), [0] + u, [0] + v);
  }

  lemma ConvStep(a: seq<int>, b: seq<int>)
    requires |a| > 0 && |b| > 0
    ensures Conv(a, b) == AddP(Scale(a[0], b), [0] + Conv(a[1..], b))
  {
  }

  lemma AddTail(a: seq<int>, b: seq<int>)
    requires |a| > 0 && |b| > 0
    ensures AddP(a, b)[1..] == AddP(a[1..], b[1..]) && AddP(a, b)[0] == a[0] + b[0]
  {
  }

  lemma AddZeroHead(u: seq<int>, v: seq<int>)
    ensures [0] + AddP(u, v) == AddP([0] + u, [0] + v)
  {
  }

  lemma ConvOne(q: seq<int>)
    requires |q| > 0
    ensures Conv([1], q) == q
  {
    hide *;
    ConvStep([1], q);
    assert [1][1..] == [] && Conv([], q) == [];
    assert [0] + Conv([], q) == [0];
    AddOne(q);
  }

  lemma AddOne(q: seq<int>)
    requires |q| > 0
    ensures AddP(Scale(1, q), [0]) == q
  {
  }

  lemma ScaleSum(s: int, t: int, c: seq<int>)
    ensures Scale(s + t, c) == AddP(Scale(s, c), Scale(t, c))
  {
    var l, r := Scale(s + t, c), AddP(Scale(s, c), Scale(t, c));
    assert |l| == |r|;
    forall k | 0 <= k < |l| ensures l[k] == r[k] {
      assert (s + t) * c[k] == s * c[k] + t * c[k];
    }
  }

  lemma ConvShift(a: seq<int>, b: seq<int>)
    requires |a| > 0 && |b| > 0
    ensures Conv([0] + a, b) == [0] + Conv(a, b)
  {
    assert ([0] + a)[1..] == a;
    var l, r := AddP(Scale(0, b), [0] + Conv(a, b)), [0] + Conv(a, b);
    assert |l| == |r|;
    forall k | 0 <= k < |l| ensures l[k] == r[k] {}
  }

  lemma {:induction false} ConvAssoc(a: seq<int>, b: seq<int>, c: seq<int>)
    requires |b| > 0 && |c| > 0
    ensures Conv(Conv(a, b), c) == Conv(a, Conv(b, c))
  {
    if |a| == 1 {
      var z: seq<int> := [0];
      assert Conv(a[1..], b) == [] && Conv(a[1..], Conv(b, c)) == [];
      assert AddP(Scale(a[0], b), z + []) == Scale(a[0], b);
      assert AddP(Scale(a[0], Conv(b, c)), z + []) == Scale(a[0], Conv(b, c));
      ConvScale(a[0], b, c);
    } else if |a| > 1 {
      ConvAssoc(a[1..], b, c);
      ConvAdd(Scale(a[0], b), [0] + Conv(a[1..], b), c);
      ConvScale(a[0], b, c);
      ConvShift(Conv(a[1..], b), c);
    }
  }

  lemma {:induction false} ConvRes(p: nat, a: seq<int>, b: seq<int>, c: seq<int>, d: seq<int>)
    requires p > 0 && |a| == |c| && |b| == |d| > 0
    requires Reds(p, a) == Reds(p, c) && Reds(p, b) == Reds(p, d)
    ensures Reds(p, Conv(a, b)) == Reds(p, Conv(c, d))
  {
    hide Res;
    var l, r := Reds(p, Conv(a, b)), Reds(p, Conv(c, d));
    forall k | 0 <= k < |l| ensures l[k] == r[k] {
      ConvCoef(a, b, k);
      ConvCoef(c, d, k);
      ConvAtRes(p, a, b, c, d, k);
    }
  }

  lemma {:induction false} ConvAtRes(p: nat, a: seq<int>, b: seq<int>, c: seq<int>, d: seq<int>, k: int)
    requires p > 0 && |a| == |c| && |b| == |d|
    requires Reds(p, a) == Reds(p, c) && Reds(p, b) == Reds(p, d)
    ensures Res(p, ConvAt(a, b, k)) == Res(p, ConvAt(c, d, k))
    decreases |a|
  {
    hide Res;
    if a != [] && k >= 0 {
      RedsAt(p, a, c, 0);
      forall i | 0 <= i < |b| ensures Res(p, b[i]) == Res(p, d[i]) { RedsAt(p, b, d, i); }
      RedsTail(p, a, c);
      ConvAtRes(p, a[1..], b, c[1..], d, k - 1);
      ResOps(p, a[0], Coef(b, k), c[0], Coef(d, k));
      ResOps(p, a[0] * Coef(b, k), ConvAt(a[1..], b, k - 1), c[0] * Coef(d, k), ConvAt(c[1..], d, k - 1));
    }
  }

  lemma RedsAt(p: nat, a: seq<int>, b: seq<int>, i: int)
    requires p > 0 && Reds(p, a) == Reds(p, b) && 0 <= i < |a|
    ensures |a| == |b| && Res(p, a[i]) == Res(p, b[i])
  {
    hide Res;
    assert |Reds(p, a)| == |Reds(p, b)|;
    assert Reds(p, a)[i] == Reds(p, b)[i];
  }

  lemma RedsTail(p: nat, a: seq<int>, b: seq<int>)
    requires p > 0 && Reds(p, a) == Reds(p, b) && |a| > 0
    ensures |b| > 0 && Reds(p, a[1..]) == Reds(p, b[1..])
  {
    hide Res;
    assert |Reds(p, a)| == |Reds(p, b)|;
    assert Reds(p, a[1..]) == Reds(p, a)[1..];
    assert Reds(p, b[1..]) == Reds(p, b)[1..];
  }

  lemma RedsReds(p: nat, a: seq<int>)
    requires p > 0
    ensures Reds(p, Reds(p, a)) == Reds(p, a)
  {
    hide Res;
    forall i | 0 <= i < |a| ensures Res(p, Res(p, a[i])) == Res(p, a[i]) { ResRes(p, a[i]); }
  }

  lemma RedsCanon(p: nat, a: seq<int>)
    requires p > 0 && Canon(p, a)
    ensures Reds(p, a) == a
  {
    forall i | 0 <= i < |a| ensures Res(p, a[i]) == a[i] { ResSmall(p, a[i]); }
  }

  // ---------------------------------------------------------------- roots

  lemma ProdRootsNone()
    ensures ProdRoots([]) == [1]
  {
  }

  lemma ProdRootsStep(rs: seq<int>)
    requires |rs| > 0
    ensures ProdRoots(rs) == Conv([-rs[0], 1], ProdRoots(rs[1..]))
  {
  }

  lemma {:induction false} ProdRootsConcat(a: seq<int>, b: seq<int>)
    ensures ProdRoots(a + b) == Conv(ProdRoots(a), ProdRoots(b))
  {
    hide *;
    if a == [] {
      assert a + b == b;
      ConvOne(ProdRoots(b));
      ProdRootsNone();
    } else {
      ProdRootsConcat(a[1..], b);
      ProdRootsStep(a);
      ProdRootsStep(a + b);
      assert (a + b)[1..] == a[1..] + b && (a + b)[0] == a[0];
      ConvAssoc([-a[0], 1], ProdRoots(a[1..]), ProdRoots(b));
    }
  }

  lemma {:induction false} ProdRootsMonic(rs: seq<int>)
    ensures ProdRoots(rs)[|rs|] == 1
  {
    if rs != [] {
      ProdRootsMonic(rs[1..]);
      var q := ProdRoots(rs[1..]);
      var f := [-rs[0], 1];
      ConvCoef(f, q, |rs|);
      assert f[1..] == [1];
      assert ConvAt([1], q, |rs| - 1) == 1 * Coef(q, |rs| - 1) + ConvAt([], q, |rs| - 2) by {
        assert [1][1..] == [];
      }
      assert Coef(q, |rs|) == 0;
    }
  }

  lemma {:induction false} ProdRootsVanish(rs: seq<int>, i: nat)
    requires i < |rs|
    ensures Eval(ProdRoots(rs), rs[i]) == 0
  {
    var q, f := ProdRoots(rs[1..]), [-rs[0], 1];
    EvalConv(f, q, rs[i]);
    if i == 0 {
      assert f[1..] == [1] && [1][1..] == [];
      assert Eval([1], rs[0]) == 1 + rs[0] * Eval([], rs[0]);
      assert Eval(f, rs[0]) == -rs[0] + rs[0] * 1;
      assert 0 * Eval(q, rs[0]) == 0;
    } else {
      ProdRootsVanish(rs[1..], i - 1);
      assert Eval(f, rs[i]) * 0 == 0;
    }
  }

  lemma ConstantIs(a: seq<int>, x: int)
    requires |a| <= 1
    ensures Eval(a, x) == if |a| == 0 then 0 else a[0]
  {
    if |a| == 1 {
      assert a[1..] == [];
      assert Eval(a[1..], x) == 0;
      assert Eval(a, x) == a[0] + x * Eval(a[1..], x);
    }
  }

  lemma QuoConstant(a: seq<int>, r: int, x: int)
    requires |a| <= 1
    ensures Eval(a, x) - Eval(a, r) == (x - r) * Eval(Quo(a, r), x)
  {
    hide Eval, Quo;
    ConstantIs(a, x);
    ConstantIs(a, r);
    ConstantIs(Quo(a, r), x);
    assert (x - r) * 0 == 0;
  }

  /** Division by a linear factor, exactly. */
  lemma {:induction false} QuoSpec(a: seq<int>, r: int, x: int)
    ensures Eval(a, x) - Eval(a, r) == (x - r) * Eval(Quo(a, r), x)
  {
    hide Quo, Eval;
    if |a| <= 1 {
      QuoConstant(a, r, x);
    } else {
      var t := a[1..];
      QuoSpec(t, r, x);
      QuoTail(a, r);
      EvalStep(a, x);
      EvalStep(a, r);
      EvalStep(Quo(a, r), x);
      QuoAlgebra(x, r, Eval(t, x), Eval(t, r), Eval(Quo(t, r), x));
    }
  }

  lemma QuoTail(a: seq<int>, r: int)
    requires |a| > 1
    ensures Quo(a, r)[0] == Eval(a[1..], r)
    ensures Quo(a, r)[1..] == Quo(a[1..], r)
  {
    hide Eval;
    var l, q := Quo(a, r)[1..], Quo(a[1..], r);
    assert |l| == |q|;
    forall k | 0 <= k < |l| ensures l[k] == q[k] {
      assert l[k] == Quo(a, r)[k + 1] == Eval(a[k + 2..], r);
      assert q[k] == Eval(a[1..][k + 1..], r);
      assert a[k + 2..] == a[1..][k + 1..];
    }
  }

  lemma QuoAlgebra(x: int, r: int, u: int, v: int, w: int)
    requires u - v == (x - r) * w
    ensures x * u - r * v == (x - r) * (v + x * w)
  {
    assert (x - r) * (v + x * w) == (x - r) * v + (x - r) * (x * w);
    assert (x - r) * (x * w) == x * ((x - r) * w);
    assert x * (u - v) == x * u - x * v;
    assert (x - r) * v == x * v - r * v;
  }

  lemma DerivLength(a: seq<int>)
    ensures |Deriv(a)| == if |a| == 0 then 0 else |a| - 1
  {
  }

  lemma DerivTail(a: seq<int>)
    requires |a| > 1
    ensures Deriv(a) == AddP(a[1..], [0] + Deriv(a[1..]))
  {
    var sum := AddP(a[1..], [0] + Deriv(a[1..]));
    forall i | 0 <= i < |Deriv(a)| ensures Deriv(a)[i] == sum[i] {
      assert a[i + 1] * (i + 1) == a[i + 1] + a[i + 1] * i;
    }
  }

  /** At the root itself the quotient equals the derivative. */
  lemma {:induction false} QuoDeriv(a: seq<int>, r: int)
    ensures Eval(Quo(a, r), r) == Eval(Deriv(a), r)
  {
    hide Quo, Eval, Deriv, AddP;
    if |a| <= 1 {
      DerivLength(a);
      ConstantIs(Quo(a, r), r);
      ConstantIs(Deriv(a), r);
    } else {
      var t := a[1..];
      QuoDeriv(t, r);
      QuoTail(a, r);
      EvalStep(Quo(a, r), r);
      var s := [0] + Deriv(t);
      DerivTail(a);
      EvalAdd(t, s, r);
      assert s[1..] == Deriv(t);
      EvalStep(s, r);
    }
  }

  ghost predicate DistinctRes(p: nat, xs: seq<int>)
    requires p > 0
  {
    forall i, j :: 0 <= i < j < |xs| ==> Res(p, xs[i]) != Res(p, xs[j])
  }

  ghost predicate AllRoots(p: nat, c: seq<int>, xs: seq<int>)
    requires p > 0
  {
    forall i :: 0 <= i < |xs| ==> Res(p, Eval(c, xs[i])) == 0
  }

  ghost predicate AllZero(p: nat, c: seq<int>)
    requires p > 0
  {
    forall k :: 0 <= k < |c| ==> Res(p, c[k]) == 0
  }

  /** If r and x are two different roots of a then x is a root of a / (x - r). */
  lemma QuoRoot(p: nat, a: seq<int>, r: int, x: int)
    requires IsPrime(p)
    requires Res(p, Eval(a, r)) == 0 && Res(p, Eval(a, x)) == 0 && Res(p, x) != Res(p, r)
    ensures Res(p, Eval(Quo(a, r), x)) == 0
  {
    hide *;
    PrimePositive(p);
    QuoSpec(a, r, x);
    ResSub(p, Eval(a, x), Eval(a, r));
    Cancel(p, x - r, Eval(Quo(a, r), x));
    ResSub(p, x, r);
  }

  /** A polynomial with at least as many distinct roots as coefficients is zero. */
  lemma {:induction false} ManyRoots(p: nat, c: seq<int>, xs: seq<int>)
    requires IsPrime(p) && |xs| >= |c|
    requires DistinctRes(p, xs) && AllRoots(p, c, xs)
    ensures AllZero(p, c)
    decreases |c|
  {
    hide Res, IsPrime, Eval;
    PrimePositive(p);
    if |c| > 0 {
      var q, r := Quo(c, xs[0]), xs[0];
      forall i | 0 <= i < |xs[1..]| ensures Res(p, Eval(q, xs[1..][i])) == 0 {
        QuoRoot(p, c, r, xs[i + 1]);
      }
      ManyRoots(p, q, xs[1..]);
      QuoZero(p, c, r);
    }
  }

  /** If the quotient and the remainder vanish then so does the polynomial. */
  lemma QuoZero(p: nat, c: seq<int>, r: int)
    requires p > 0 && |c| > 0
    requires AllZero(p, Quo(c, r)) && Res(p, Eval(c, r)) == 0
    ensures AllZero(p, c)
  {
    hide Res, Eval;
    forall k | 0 <= k < |c| ensures Res(p, c[k]) == 0 {
      QuoZeroAt(p, c, r, k);
    }
  }

  lemma QuoZeroAt(p: nat, c: seq<int>, r: int, k: nat)
    requires p > 0 && k < |c|
    requires AllZero(p, Quo(c, r)) && Res(p, Eval(c, r)) == 0
    ensures Res(p, c[k]) == 0
  {
    hide Res, Eval;
    EvalStep(c[k..], r);
    assert c[k..][1..] == c[k + 1..];
    var u, v := Eval(c[k..], r), Eval(c[k + 1..], r);
    ResZero(p, 0);
    assert Res(p, u) == 0 by {
      if k == 0 { assert c[k..] == c; } else { assert u == Quo(c, r)[k - 1]; }
    }
    assert Res(p, v) == 0 by {
      if k + 1 == |c| { EvalZeros(c[k + 1..], r); } else { assert v == Quo(c, r)[k]; }
    }
    ResZeroMul(p, v, r);
    ResOps(p, u, r * v, 0, 0);
    assert u - r * v == c[k];
  }

  /** Two polynomials of at most n coefficients that agree at n distinct points
      have the same residues. */
  lemma UniquePoly(p: nat, a: seq<int>, b: seq<int>, xs: seq<int>)
    requires IsPrime(p) && |a| == |b| <= |xs| && DistinctRes(p, xs)
    requires forall i :: 0 <= i < |xs| ==> Res(p, Eval(a, xs[i])) == Res(p, Eval(b, xs[i]))
    ensures Reds(p, a) == Reds(p, b)
  {
    hide Res, IsPrime, Eval;
    PrimePositive(p);
    var c := AddP(a, Scale(-1, b));
    forall i | 0 <= i < |xs| ensures Res(p, Eval(c, xs[i])) == 0 {
      EvalAdd(a, Scale(-1, b), xs[i]);
      EvalScale(-1, b, xs[i]);
      ResSub(p, Eval(a, xs[i]), Eval(b, xs[i]));
    }
    ManyRoots(p, c, xs);
    forall k | 0 <= k < |a| ensures Res(p, a[k]) == Res(p, b[k]) {
      assert Coef(Scale(-1, b), k) == -b[k];
      assert c[k] == a[k] - b[k];
      ResSub(p, a[k], b[k]);
    }
  }
}
