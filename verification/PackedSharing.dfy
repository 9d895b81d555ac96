/** The algebra of packed sharings: what is true of shares at 1, ..., n is true of the secrets
    at 0, -1, ..., -(k - 1), as long as degrees stay below n. */
module PackedSharing {
  import opened Modular
  import opened Poly
  import opened Lagrange
  import opened Scl

  // ---------------------------------------------------------------- field operations on shares and polynomials

  function Add(a: int, b: int): int { F(a + b) }
  function Sub(a: int, b: int): int { F(a - b) }
  function Mul(a: int, b: int): int { F(a * b) }

  function SubP(a: seq<int>, b: seq<int>): (r: seq<int>)
    ensures |r| == if |a| < |b| then |b| else |a|
  {
    AddP(a, Scale(-1, b))
  }

  lemma AddF(a: int, b: int)
    ensures Add(F(a), F(b)) == F(a + b)
  {
    hide F;
    FReduced(a, b);
  }

  lemma SubF(a: int, b: int)
    ensures Sub(F(a), F(b)) == F(a - b)
  {
    hide F;
    FReduced(a, b);
  }

  lemma MulF(a: int, b: int)
    ensures Mul(F(a), F(b)) == F(a * b)
  {
    hide F;
    FReduced(a, b);
  }

  lemma AtAdd(a: seq<int>, b: seq<int>, x: int)
    ensures At(AddP(a, b), x) == Add(At(a, x), At(b, x))
  {
    hide F, Eval, AddP;
    EvalAdd(a, b, x);
    FReduced(Eval(a, x), Eval(b, x));
  }

  lemma AtSub(a: seq<int>, b: seq<int>, x: int)
    ensures At(SubP(a, b), x) == Sub(At(a, x), At(b, x))
  {
    hide F, Eval, AddP, Scale;
    EvalAdd(a, Scale(-1, b), x);
    EvalScale(-1, b, x);
    FReduced(Eval(a, x), Eval(b, x));
  }

  lemma AtMul(a: seq<int>, b: seq<int>, x: int)
    requires |b| > 0
    ensures At(Conv(a, b), x) == Mul(At(a, x), At(b, x))
  {
    hide F, Eval, Conv;
    EvalConv(a, b, x);
    FReduced(Eval(a, x), Eval(b, x));
  }

  lemma AtZero(x: int)
    ensures At([0], x) == F(0)
  {
    hide F;
    assert [0][1..] == [];
    assert Eval([0], x) == 0 + x * Eval([0][1..], x);
  }

  lemma AtConstant(a: int, x: int)
    ensures At([a], x) == F(a)
  {
    hide F;
    assert [a][1..] == [];
    assert Eval([a], x) == a + x * Eval([a][1..], x);
  }

  // ---------------------------------------------------------------- sums of products

  function Dot(e: seq<int>, v: seq<int>, m: nat): int
    requires m <= |e| && m <= |v|
  {
    if m == 0 then 0 else Dot(e, v, m - 1) + e[m - 1] * v[m - 1]
  }

  /** An accumulator of field elements holds the sum of products. */
  lemma DotStep(e: seq<int>, v: seq<int>, m: nat)
    requires m < |e| && m < |v|
    ensures F(Dot(e, v, m + 1)) == Add(F(Dot(e, v, m)), Mul(e[m], v[m]))
  {
    hide F;
    FReduced(Dot(e, v, m), e[m] * v[m]);
  }

  lemma DotNone(e: seq<int>, v: seq<int>)
    ensures Dot(e, v, 0) == 0
  {
  }

  ghost predicate SameF(a: seq<int>, b: seq<int>, m: nat) {
    m <= |a| && m <= |b| && forall i :: 0 <= i < m ==> F(a[i]) == F(b[i])
  }

  lemma {:induction false} DotSame(e: seq<int>, v: seq<int>, d: seq<int>, w: seq<int>, m: nat)
    requires SameF(e, d, m) && SameF(v, w, m)
    ensures F(Dot(e, v, m)) == F(Dot(d, w, m))
  {
    hide F;
    if m > 0 {
      DotSame(e, v, d, w, m - 1);
      FOps(e[m - 1], v[m - 1], d[m - 1], w[m - 1]);
      FOps(Dot(e, v, m - 1), e[m - 1] * v[m - 1], Dot(d, w, m - 1), d[m - 1] * w[m - 1]);
    }
  }

  /** A unit vector picks one entry. */
  lemma {:induction false} DotUnit(e: seq<int>, v: seq<int>, m: nat, j: nat)
    requires m <= |e| && m <= |v| && j < |v|
    requires forall i :: 0 <= i < m ==> F(e[i]) == F(if i == j then 1 else 0)
    ensures F(Dot(e, v, m)) == F(if j < m then v[j] else 0)
  {
    hide F;
    if m > 0 {
      DotUnit(e, v, m - 1, j);
      var u := if m - 1 == j then 1 else 0;
      FOps(e[m - 1], v[m - 1], u, v[m - 1]);
      FOps(Dot(e, v, m - 1), e[m - 1] * v[m - 1], if j < m - 1 then v[j] else 0, u * v[m - 1]);
    }
  }

  lemma {:induction false} DotZero(e: seq<int>, v: seq<int>, m: nat)
    requires m <= |e| && m <= |v| && forall i :: 0 <= i < m ==> F(v[i]) == F(0)
    ensures F(Dot(e, v, m)) == F(0)
  {
    hide F;
    if m > 0 {
      DotZero(e, v, m - 1);
      FOps(e[m - 1], v[m - 1], e[m - 1], 0);
      FOps(Dot(e, v, m - 1), e[m - 1] * v[m - 1], 0, e[m - 1] * 0);
    }
  }

  /** Nonempty coefficient lists of bounded length. */
  ghost predicate Lengths(cs: seq<seq<int>>, m: nat) {
    forall i :: 0 <= i < |cs| ==> 1 <= |cs[i]| <= m
  }

  /** The sum over i < m of us[i] * ws[i]. */
  function SumProd(us: seq<seq<int>>, ws: seq<seq<int>>, m: nat): (c: seq<int>)
    requires m <= |us| && m <= |ws|
    requires forall i :: 0 <= i < |ws| ==> |ws[i]| > 0
    ensures |c| > 0
  {
    if m == 0 then [0] else AddP(SumProd(us, ws, m - 1), Conv(us[m - 1], ws[m - 1]))
  }

  function Evals(cs: seq<seq<int>>, x: int): (r: seq<int>)
    ensures |r| == |cs|
  {
    seq(|cs|, i requires 0 <= i < |cs| => Eval(cs[i], x))
  }

  lemma {:induction false} SumProdLength(us: seq<seq<int>>, ws: seq<seq<int>>, m: nat, a: nat, b: nat)
    requires m <= |us| && m <= |ws| && Lengths(us, a) && Lengths(ws, b) && a > 0 && b > 0
    ensures |SumProd(us, ws, m)| <= a + b - 1
  {
    if m > 0 {
      SumProdLength(us, ws, m - 1, a, b);
    }
  }

  lemma {:induction false} SumProdAt(us: seq<seq<int>>, ws: seq<seq<int>>, m: nat, x: int)
    requires m <= |us| && m <= |ws|
    requires forall i :: 0 <= i < |ws| ==> |ws[i]| > 0
    ensures Eval(SumProd(us, ws, m), x) == Dot(Evals(us, x), Evals(ws, x), m)
  {
    hide Eval, AddP, Conv;
    if m > 0 {
      SumProdAt(us, ws, m - 1, x);
      EvalAdd(SumProd(us, ws, m - 1), Conv(us[m - 1], ws[m - 1]), x);
      EvalConv(us[m - 1], ws[m - 1], x);
    } else {
      assert SumProd(us, ws, 0) == [0];
      EvalZeros([0], x);
    }
  }

  /** Combining shares of us and ws gives shares of their sum of products. */
  lemma SumProdShare(us: seq<seq<int>>, ws: seq<seq<int>>, e: seq<int>, v: seq<int>, m: nat, x: int)
    requires m <= |us| && m <= |ws| && m <= |e| && m <= |v|
    requires forall i :: 0 <= i < |ws| ==> |ws[i]| > 0
    requires forall i :: 0 <= i < m ==> e[i] == At(us[i], x)
    requires forall i :: 0 <= i < m ==> v[i] == At(ws[i], x)
    ensures F(Dot(e, v, m)) == At(SumProd(us, ws, m), x)
  {
    hide F, Eval, SumProd, Dot;
    SumProdAt(us, ws, m, x);
    forall i | 0 <= i < m ensures F(e[i]) == F(Evals(us, x)[i]) && F(v[i]) == F(Evals(ws, x)[i]) {
      FF(Eval(us[i], x));
      FF(Eval(ws[i], x));
    }
    DotSame(e, v, Evals(us, x), Evals(ws, x), m);
  }

  /** The sum depends on the values of its terms only. */
  lemma SumProdSame(us: seq<seq<int>>, ws: seq<seq<int>>, m: nat, x: int, y: int)
    requires m <= |us| && m <= |ws|
    requires forall i :: 0 <= i < |ws| ==> |ws[i]| > 0
    requires forall i :: 0 <= i < m ==> At(us[i], x) == At(us[i], y)
    requires forall i :: 0 <= i < m ==> At(ws[i], x) == At(ws[i], y)
    ensures At(SumProd(us, ws, m), x) == At(SumProd(us, ws, m), y)
  {
    hide F, Eval, SumProd, Dot;
    SumProdAt(us, ws, m, x);
    SumProdAt(us, ws, m, y);
    forall i | 0 <= i < m
      ensures F(Evals(us, x)[i]) == F(Evals(us, y)[i]) && F(Evals(ws, x)[i]) == F(Evals(ws, y)[i])
    {
      assert At(us[i], x) == At(us[i], y) && At(ws[i], x) == At(ws[i], y);
    }
    DotSame(Evals(us, x), Evals(ws, x), Evals(us, y), Evals(ws, y), m);
  }

  lemma SumProdZero(us: seq<seq<int>>, ws: seq<seq<int>>, m: nat, x: int)
    requires m <= |us| && m <= |ws|
    requires forall i :: 0 <= i < |ws| ==> |ws[i]| > 0
    requires forall i :: 0 <= i < m ==> At(ws[i], x) == F(0)
    ensures At(SumProd(us, ws, m), x) == F(0)
  {
    hide F, Eval, SumProd, Dot;
    SumProdAt(us, ws, m, x);
    forall i | 0 <= i < m ensures F(Evals(ws, x)[i]) == F(0) {
      assert At(ws[i], x) == F(0);
    }
    DotZero(Evals(us, x), Evals(ws, x), m);
  }

  // ---------------------------------------------------------------- the unit vectors

  /** The polynomial of degree k - 1 that is 1 at slot i and 0 at the other slots. */
  function Unit(k: nat, i: nat): (c: seq<int>)
    requires i < k
    ensures |c| == k
  {
    var o := Others(Slots(k), i, k);
    Scale(ProdInv(P61, o, Slots(k)[i]), ProdRoots(o))
  }

  function Units(k: nat): (r: seq<seq<int>>)
    ensures |r| == k && Lengths(r, k)
  {
    seq(k, i requires 0 <= i < k => Unit(k, i))
  }

  lemma UnitEval(k: nat, i: nat, x: int)
    requires i < k
    ensures Eval(Unit(k, i), x) == Basis(P61, Slots(k), i, x, k)
  {
    hide Eval, Basis, ProdRoots, ProdInv, Others, ProdEval;
    var o := Others(Slots(k), i, k);
    EvalScale(ProdInv(P61, o, Slots(k)[i]), ProdRoots(o), x);
    EvalProdRoots(o, x);
    BasisSplit(P61, Slots(k), i, x, k);
  }

  lemma UnitAtSlot(k: nat, i: nat, j: nat)
    requires IsPrime(P61) && k <= P61 && i < k && j < k
    ensures At(Unit(k, i), Slot(j)) == F(if i == j then 1 else 0)
  {
    hide Res, Eval, Basis, IsPrime, Unit, Distinct;
    SlotsDistinct(k);
    DistinctIs(Slots(k));
    UnitEval(k, i, Slot(j));
    assert Slots(k)[j] == Slot(j);
    BasisAtPoint(P61, Slots(k), i, j);
  }

  /** Packing: k sharings become one whose j-th secret is the j-th secret of the j-th sharing. */
  function Pack(k: nat, ws: seq<seq<int>>): (c: seq<int>)
    requires |ws| == k && forall i :: 0 <= i < |ws| ==> |ws[i]| > 0
    ensures |c| > 0
  {
    SumProd(Units(k), ws, k)
  }

  lemma PackSlot(k: nat, ws: seq<seq<int>>, j: nat)
    requires IsPrime(P61) && k <= P61 && j < |ws| == k && forall i :: 0 <= i < |ws| ==> |ws[i]| > 0
    ensures At(Pack(k, ws), Slot(j)) == At(ws[j], Slot(j))
  {
    hide F, Eval, SumProd, Dot, Unit, IsPrime, Slot;
    var x := Slot(j);
    SumProdAt(Units(k), ws, k, x);
    forall i | 0 <= i < k ensures F(Evals(Units(k), x)[i]) == F(if i == j then 1 else 0) {
      UnitAtSlot(k, i, j);
      assert Units(k)[i] == Unit(k, i);
    }
    DotUnit(Evals(Units(k), x), Evals(ws, x), k, j);
  }

  lemma PackLength(k: nat, ws: seq<seq<int>>, d: nat)
    requires |ws| == k > 0 && Lengths(ws, d + 1)
    ensures |Pack(k, ws)| <= k + d
  {
    hide SumProd;
    SumProdLength(Units(k), ws, k, k, d + 1);
  }

  // ---------------------------------------------------------------- Vandermonde mixing

  /** The constant polynomials 0^s, 1^s, ..., (n - 1)^s. */
  function Powers(n: nat, s: nat): (r: seq<seq<int>>)
    ensures |r| == n && Lengths(r, 1)
  {
    seq(n, i requires 0 <= i < n => [Pow(i, s)])
  }

  /** The combination of the dealt polynomials with row weights i^s. */
  function Mix(cs: seq<seq<int>>, s: nat): (c: seq<int>)
    requires forall i :: 0 <= i < |cs| ==> |cs[i]| > 0
    ensures |c| > 0
  {
    SumProd(Powers(|cs|, s), cs, |cs|)
  }

  lemma MixLength(cs: seq<seq<int>>, s: nat, d: nat)
    requires Lengths(cs, d + 1)
    ensures |Mix(cs, s)| <= d + 1
  {
    hide SumProd;
    SumProdLength(Powers(|cs|, s), cs, |cs|, 1, d + 1);
  }

  lemma PowersAt(n: nat, s: nat, i: nat, x: int)
    requires i < n
    ensures At(Powers(n, s)[i], x) == F(Pow(i, s))
  {
    hide At, F, Pow;
    AtConstant(Pow(i, s), x);
  }

  /** Equal values of every dealt polynomial at two points stay equal. */
  lemma MixSame(cs: seq<seq<int>>, s: nat, x: int, y: int)
    requires forall i :: 0 <= i < |cs| ==> |cs[i]| > 0
    requires forall i :: 0 <= i < |cs| ==> At(cs[i], x) == At(cs[i], y)
    ensures At(Mix(cs, s), x) == At(Mix(cs, s), y)
  {
    hide At, SumProd, Powers;
    forall i | 0 <= i < |cs| ensures At(Powers(|cs|, s)[i], x) == At(Powers(|cs|, s)[i], y) {
      PowersAt(|cs|, s, i, x);
      PowersAt(|cs|, s, i, y);
    }
    SumProdSame(Powers(|cs|, s), cs, |cs|, x, y);
  }

  lemma MixZero(cs: seq<seq<int>>, s: nat, x: int)
    requires forall i :: 0 <= i < |cs| ==> |cs[i]| > 0
    requires forall i :: 0 <= i < |cs| ==> At(cs[i], x) == F(0)
    ensures At(Mix(cs, s), x) == F(0)
  {
    hide At, SumProd, Powers;
    SumProdZero(Powers(|cs|, s), cs, |cs|, x);
  }

  // ---------------------------------------------------------------- packed Beaver multiplication

  /** n = t + 2(k - 1) + 1 parties with t < n / 2, and room for all points. */
  predicate Sizes(n: nat, k: nat, t: nat) {
    k > 0 && n == t + 2 * (k - 1) + 1 && n > 2 * t && n + k <= P61
  }

  /** The secret at slot j of the opened mask minus the mask. */
  lemma UnmaskValue(l: int, r: int)
    ensures Sub(Add(F(l), F(r)), F(r)) == F(l)
  {
    hide F;
    FF(l + r);
    FF(l);
    FReduced(l, r);
    FReduced(l + r, r);
    assert l + r - r == l;
  }

  /** What each party computes for delta from the two opened values and its triple. */
  function DeltaShare(packedC: int, ra: int, rb: int, a: int, b: int, c: int, o: int): int {
    Add(packedC, Add(Add(Sub(Sub(Mul(ra, rb), Mul(ra, b)), Mul(rb, a)), c), o))
  }

  /** The same on polynomials. */
  function DeltaPoly(packedC: seq<int>, ra: seq<int>, rb: seq<int>, a: seq<int>, b: seq<int>, c: seq<int>, o: seq<int>)
    : (r: seq<int>)
    requires |ra| > 0 && |rb| > 0 && |a| > 0 && |b| > 0
    ensures |r| > 0
  {
    AddP(packedC, AddP(AddP(SubP(SubP(Conv(ra, rb), Conv(ra, b)), Conv(rb, a)), c), o))
  }

  lemma DeltaAt(packedC: seq<int>, ra: seq<int>, rb: seq<int>, a: seq<int>, b: seq<int>, c: seq<int>, o: seq<int>, x: int)
    requires |ra| > 0 && |rb| > 0 && |a| > 0 && |b| > 0
    ensures At(DeltaPoly(packedC, ra, rb, a, b, c, o), x) ==
      DeltaShare(At(packedC, x), At(ra, x), At(rb, x), At(a, x), At(b, x), At(c, x), At(o, x))
  {
    hide At, Add, Sub, Mul, AddP, SubP, Conv;
    AtMul(ra, rb, x);
    AtMul(ra, b, x);
    AtMul(rb, a, x);
    AtSub(Conv(ra, rb), Conv(ra, b), x);
    var u := SubP(Conv(ra, rb), Conv(ra, b));
    AtSub(u, Conv(rb, a), x);
    var w := SubP(u, Conv(rb, a));
    AtAdd(w, c, x);
    AtAdd(AddP(w, c), o, x);
    AtAdd(packedC, AddP(AddP(w, c), o), x);
  }

  /** At a slot with masks al and be, c == al * be and o == 0, the delta is la * lb - lc. */
  lemma DeltaValue(la: int, lb: int, lc: int, al: int, be: int)
    ensures DeltaShare(F(-lc), F(la + al), F(lb + be), F(al), F(be), F(al * be), F(0)) == F(la * lb - lc)
  {
    hide F, Add, Sub, Mul;
    var u, w := la + al, lb + be;
    var uw, ub, wa, ab := u * w, u * be, w * al, al * be;
    MulF(u, w);
    MulF(u, be);
    MulF(w, al);
    SubF(uw, ub);
    SubF(uw - ub, wa);
    AddF(uw - ub - wa, ab);
    AddF(uw - ub - wa + ab, 0);
    AddF(-lc, uw - ub - wa + ab);
    BeaverExpand(la, lb, al, be);
  }

  lemma BeaverExpand(la: int, lb: int, al: int, be: int)
    ensures (la + al) * (lb + be) - (la + al) * be - (lb + be) * al + al * be == la * lb
  {
    assert (la + al) * (lb + be) == la * lb + la * be + al * lb + al * be;
    assert (la + al) * be == la * be + al * be;
    assert (lb + be) * al == lb * al + be * al;
    assert be * al == al * be && lb * al == al * lb;
  }

  /** What each party sends for a product: mu_B * lambda_A + mu_A * lambda_B + mu_A * mu_B + delta. */
  function ProductShare(ma: int, mb: int, la: int, lb: int, d: int): int {
    Add(Add(Add(Mul(mb, la), Mul(ma, lb)), Mul(ma, mb)), d)
  }

  function ProductPoly(ma: seq<int>, mb: seq<int>, la: seq<int>, lb: seq<int>, d: seq<int>): (r: seq<int>)
    requires |la| > 0 && |lb| > 0 && |mb| > 0
    ensures |d| > 0 ==> |r| > 0
  {
    AddP(AddP(AddP(Conv(mb, la), Conv(ma, lb)), Conv(ma, mb)), d)
  }

  lemma ProductAt(ma: seq<int>, mb: seq<int>, la: seq<int>, lb: seq<int>, d: seq<int>, x: int)
    requires |la| > 0 && |lb| > 0 && |mb| > 0
    ensures At(ProductPoly(ma, mb, la, lb, d), x) == ProductShare(At(ma, x), At(mb, x), At(la, x), At(lb, x), At(d, x))
  {
    hide At, Add, Sub, Mul, AddP, Conv;
    AtMul(mb, la, x);
    AtMul(ma, lb, x);
    AtMul(ma, mb, x);
    AtAdd(Conv(mb, la), Conv(ma, lb), x);
    var u := AddP(Conv(mb, la), Conv(ma, lb));
    AtAdd(u, Conv(ma, mb), x);
    AtAdd(AddP(u, Conv(ma, mb)), d, x);
  }

  /** At a slot with mu = v - lambda the product is masked by lc. */
  lemma ProductValue(va: int, vb: int, la: int, lb: int, lc: int)
    ensures ProductShare(F(va - la), F(vb - lb), F(la), F(lb), F(la * lb - lc)) == F(va * vb - lc)
  {
    hide F, Add, Mul;
    var u, w, d := va - la, vb - lb, la * lb - lc;
    var wl, ul, uw := w * la, u * lb, u * w;
    MulF(w, la);
    MulF(u, lb);
    MulF(u, w);
    AddF(wl, ul);
    AddF(wl + ul, uw);
    AddF(wl + ul + uw, d);
    MaskedExpand(va, vb, la, lb);
  }

  lemma MaskedExpand(va: int, vb: int, la: int, lb: int)
    ensures (vb - lb) * la + (va - la) * lb + (va - la) * (vb - lb) + la * lb == va * vb
  {
    assert (vb - lb) * la == vb * la - lb * la;
    assert (va - la) * lb == va * lb - la * lb;
    assert (va - la) * (vb - lb) == va * vb - va * lb - la * vb + la * lb;
    assert lb * la == la * lb && vb * la == la * vb;
  }
}
