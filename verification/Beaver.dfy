/** Beaver triples that follow affine changes of the factors: a product costs no communication once
    the masked factors are public. */
module Beaver {
  import opened Modular
  import opened Poly
  import opened Gfp
  import opened Shamir

  /** The sharings a, b and c hold all parties' shares; u and v are public. alpha and beta are the
      numbers that a and b share. */
  class BeaverTriple {
    var a: seq<nat>
    var b: seq<nat>
    var c: seq<nat>
    var u: nat
    var v: nat
    ghost var alpha: int
    ghost var beta: int
    ghost const t: nat

    ghost predicate Valid()
      reads this
    {
      && PR > 0 && |a| == |b| == |c| && Row(a) && Row(b) && Row(c) && Scalar(u) && Scalar(v)
      && IsSharing(a, alpha, t) && IsSharing(b, beta, t) && IsSharing(c, alpha * beta, t)
    }

    /** The first factor: u less what a shares. */
    ghost function X(): int
      requires PR > 0
      reads this
    {
      Res(PR, u - alpha)
    }

    ghost function Y(): int
      requires PR > 0
      reads this
    {
      Res(PR, v - beta)
    }

    constructor (a: seq<nat>, b: seq<nat>, c: seq<nat>, ghost alpha: int, ghost beta: int, ghost t: nat)
      requires PR > 0 && |a| == |b| == |c| && Row(a) && Row(b) && Row(c)
      requires IsSharing(a, alpha, t) && IsSharing(b, beta, t) && IsSharing(c, alpha * beta, t)
      ensures Valid() && X() == Res(PR, 0 - alpha) && Y() == Res(PR, 0 - beta)
      ensures this.a == a && this.b == b && this.c == c && this.t == t
    {
      this.a, this.b, this.c := a, b, c;
      u, v := 0, 0;
      this.alpha, this.beta, this.t := alpha, beta, t;
    }

    method XTimes(i: nat)
      requires Valid() && Scalar(i)
      modifies this
      ensures Valid() && X() == Res(PR, i * old(X())) && Y() == old(Y())
      ensures u == Res(PR, i * old(u)) && Scaled(i, old(a), a) && Scaled(i, old(c), c) && b == old(b) && v == old(v)
    {
      hide IsSharing, Res, MultMod;
      MultModIs(i, u);
      ScaledFactor(i, u, alpha);
      var a2 := ScaleRow(i, a, alpha, t);
      var c2 := ScaleRow(i, c, alpha * beta, t);
      assert i * (alpha * beta) == (i * alpha) * beta;
      u, a, c := MultMod(i, u), a2, c2;
      alpha := i * alpha;
    }

    method YTimes(k: nat)
      requires Valid() && Scalar(k)
      modifies this
      ensures Valid() && Y() == Res(PR, k * old(Y())) && X() == old(X())
      ensures v == Res(PR, k * old(v)) && Scaled(k, old(b), b) && Scaled(k, old(c), c) && a == old(a) && u == old(u)
    {
      hide IsSharing, Res, MultMod;
      MultModIs(k, v);
      ScaledFactor(k, v, beta);
      var b2 := ScaleRow(k, b, beta, t);
      var c2 := ScaleRow(k, c, alpha * beta, t);
      assert k * (alpha * beta) == alpha * (k * beta);
      v, b, c := MultMod(k, v), b2, c2;
      beta := k * beta;
    }

    method XPlus(j: nat)
      requires Valid() && Scalar(j)
      modifies this
      ensures Valid() && X() == Res(PR, old(X()) + j) && Y() == old(Y())
      ensures u == Res(PR, old(u) + j) && v == old(v) && a == old(a) && b == old(b) && c == old(c)
    {
      hide IsSharing, Res;
      ShiftedFactor(u, j, alpha);
      u := AddMod(u, j);
    }

    method YPlus(w: nat)
      requires Valid() && Scalar(w)
      modifies this
      ensures Valid() && Y() == Res(PR, old(Y()) + w) && X() == old(X())
      ensures v == Res(PR, old(v) + w) && u == old(u) && a == old(a) && b == old(b) && c == old(c)
    {
      hide IsSharing, Res;
      ShiftedFactor(v, w, beta);
      v := AddMod(v, w);
    }

    /** A sharing of the product, of the same degree, from local steps only. */
    method Mult() returns (res: seq<nat>)
      requires Valid()
      ensures |res| == |a| && IsSharing(res, X() * Y(), t)
      ensures forall p :: 0 <= p < |res| ==> res[p] == Res(PR, u * v - u * b[p] - v * a[p] + c[p])
    {
      hide IsSharing, Res, MultMod, SubMod, AddMod;
      res := [];
      for p := 0 to |a|
        invariant |res| == p
        invariant forall q :: 0 <= q < p ==> res[q] == Res(PR, u * v - u * b[q] - v * a[q] + c[q])
      {
        ProductShare(u, v, a[p], b[p], c[p]);
        res := res + [AddMod(SubMod(SubMod(MultMod(u, v), MultMod(u, b[p])), MultMod(v, a[p])), c[p])];
      }
      ProductIsShared(a, b, c, u, v, alpha, beta, res, t);
    }
  }

  ghost predicate Scaled(i: nat, s: seq<nat>, r: seq<nat>) {
    PR > 0 && |r| == |s| && forall p :: 0 <= p < |s| ==> r[p] == Res(PR, i * s[p])
  }

  method ScaleRow(i: nat, s: seq<nat>, ghost x: int, ghost t: nat) returns (r: seq<nat>)
    requires Scalar(i) && Row(s) && IsSharing(s, x, t)
    ensures |r| == |s| && Row(r) && IsSharing(r, i * x, t) && Scaled(i, s, r)
  {
    hide IsSharing, Res, MultMod;
    PrimeField();
    r := [];
    for p := 0 to |s|
      invariant |r| == p && forall q :: 0 <= q < p ==> r[q] == Res(PR, i * s[q])
    {
      MultModIs(i, s[p]);
      r := r + [MultMod(i, s[p])];
    }
    Multiple(s, x, i, t, r);
  }

  lemma ScaledFactor(i: nat, u: nat, alpha: int)
    requires PR > 0
    ensures Res(PR, Res(PR, i * u) - i * alpha) == Res(PR, i * Res(PR, u - alpha))
  {
    hide Res;
    ResRes(PR, i * u);
    ResOps(PR, Res(PR, i * u), i * alpha, i * u, i * alpha);
    ResRes(PR, u - alpha);
    ResMul(PR, Res(PR, u - alpha), i, u - alpha);
    assert i * (u - alpha) == i * u - i * alpha;
  }

  lemma ShiftedFactor(u: nat, j: nat, alpha: int)
    requires Scalar(u) && Scalar(j) && PR > 0
    ensures Res(PR, AddMod(u, j) - alpha) == Res(PR, Res(PR, u - alpha) + j)
  {
    hide Res, AddMod;
    ResRes(PR, u + j);
    ResOps(PR, AddMod(u, j), alpha, u + j, alpha);
    ResRes(PR, u - alpha);
    ResOps(PR, Res(PR, u - alpha), j, u - alpha, j);
  }

  lemma ProductShare(u: nat, v: nat, a: nat, b: nat, c: nat)
    requires Scalar(u) && Scalar(v) && Scalar(a) && Scalar(b) && Scalar(c) && PR > 0
    ensures AddMod(SubMod(SubMod(MultMod(u, v), MultMod(u, b)), MultMod(v, a)), c) == Res(PR, u * v - u * b - v * a + c)
  {
    hide Res, MultMod, SubMod, AddMod;
    MultModIs(u, v);
    MultModIs(u, b);
    MultModIs(v, a);
    SubModIs(MultMod(u, v), MultMod(u, b));
    ResReduced(PR, u * v, u * b);
    SubModIs(SubMod(MultMod(u, v), MultMod(u, b)), MultMod(v, a));
    ResReduced(PR, u * v - u * b, v * a);
    ResSmall(PR, c);
    ResReduced(PR, u * v - u * b - v * a, c);
  }

  lemma ProductIsShared(a: seq<nat>, b: seq<nat>, c: seq<nat>, u: nat, v: nat, alpha: int, beta: int, res: seq<nat>, t: nat)
    requires PR > 0 && |a| == |b| == |c| == |res|
    requires IsSharing(a, alpha, t) && IsSharing(b, beta, t) && IsSharing(c, alpha * beta, t)
    requires forall q :: 0 <= q < |res| ==> res[q] == Res(PR, u * v - u * b[q] - v * a[q] + c[q])
    ensures IsSharing(res, Res(PR, u - alpha) * Res(PR, v - beta), t)
  {
    hide IsSharing, Res;
    var n := |res|;
    var s1 := seq(n, q requires 0 <= q < n => Res(PR, u * b[q]));
    var s2 := seq(n, q requires 0 <= q < n => Res(PR, u * v - s1[q]));
    var s3 := seq(n, q requires 0 <= q < n => Res(PR, (0 - v) * a[q]));
    var s4 := seq(n, q requires 0 <= q < n => Res(PR, s2[q] + s3[q]));
    Multiple(b, beta, u, t, s1);
    Shamir.Masked(s1, u * beta, u * v, t, s2);
    Multiple(a, alpha, 0 - v, t, s3);
    Sum(s2, u * v - u * beta, s3, (0 - v) * alpha, t, s4);
    forall q | 0 <= q < n ensures res[q] == Res(PR, s4[q] + c[q]) {
      ResRes(PR, u * b[q]);
      ResOps(PR, u * v, s1[q], u * v, u * b[q]);
      ResReduced(PR, u * v - u * b[q], (0 - v) * a[q]);
      assert (0 - v) * a[q] == 0 - v * a[q];
      ResRes(PR, u * v - u * b[q] - v * a[q]);
      ResOps(PR, s4[q], c[q], u * v - u * b[q] - v * a[q], c[q]);
    }
    Sum(s4, u * v - u * beta + (0 - v) * alpha, c, alpha * beta, t, res);
    Factors(u, v, alpha, beta);
    ResReduced(PR, u - alpha, v - beta);
    SameSecret(res, u * v - u * beta + (0 - v) * alpha + alpha * beta, Res(PR, u - alpha) * Res(PR, v - beta), t);
  }

  lemma Factors(u: int, v: int, alpha: int, beta: int)
    ensures u * v - u * beta + (0 - v) * alpha + alpha * beta == (u - alpha) * (v - beta)
  {
    assert (u - alpha) * (v - beta) == u * v - u * beta - alpha * v + alpha * beta;
    assert (0 - v) * alpha == 0 - alpha * v;
  }
}
