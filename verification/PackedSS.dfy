/** OptimizedPSS: packed Shamir sharing with points at the powers of a 2^q-th root of unity. */
module PackedSS {
  import opened Modular
  import opened Poly
  import opened Fft
  import opened InverseFft
  import opened Interpolation
  import opened PackedSpec
  import opened SeriesFft
  import opened Field14

  datatype Outcome = Pass | Fail(error: Error)

  /** The least m with x <= 2^m. */
  function CeilLog2(x: nat): (m: nat)
    requires x >= 1
    ensures x <= Pow2(m) && (m > 0 ==> Pow2(m - 1) < x)
  {
    if x == 1 then 0 else 1 + CeilLog2((x + 1) / 2)
  }

  // ---------------------------------------------------------------- products of polynomial lists

  /** The product of a list, and its number of coefficients. */
  function ProdList(polys: seq<seq<int>>): (r: seq<int>)
    requires forall i :: 0 <= i < |polys| ==> |polys[i]| > 0
    ensures |r| == ProdSize(polys)
  {
    if polys == [] then [1] else Conv(polys[0], ProdList(polys[1..]))
  }

  function ProdSize(polys: seq<seq<int>>): (n: nat)
    requires forall i :: 0 <= i < |polys| ==> |polys[i]| > 0
    ensures n >= 1
  {
    if polys == [] then 1 else |polys[0]| - 1 + ProdSize(polys[1..])
  }

  ghost predicate Nonempty(polys: seq<seq<int>>) {
    forall i :: 0 <= i < |polys| ==> |polys[i]| > 0
  }

  lemma {:induction false} ProdListConcat(a: seq<seq<int>>, b: seq<seq<int>>)
    requires Nonempty(a) && Nonempty(b)
    ensures Nonempty(a + b)
    ensures ProdList(a + b) == Conv(ProdList(a), ProdList(b))
    ensures ProdSize(a + b) == ProdSize(a) + ProdSize(b) - 1
  {
    if a == [] {
      assert a + b == b;
      ConvOne(ProdList(b));
    } else {
      assert (a + b)[1..] == a[1..] + b && (a + b)[0] == a[0];
      ProdListConcat(a[1..], b);
      ProdListStep(a);
      ProdListStep(a + b);
      ConvAssoc(a[0], ProdList(a[1..]), ProdList(b));
    }
  }

  lemma ProdListStep(polys: seq<seq<int>>)
    requires Nonempty(polys) && polys != []
    ensures ProdList(polys) == Conv(polys[0], ProdList(polys[1..]))
    ensures ProdSize(polys) == |polys[0]| - 1 + ProdSize(polys[1..])
  {
  }

  /** The factors multiplyRoots builds. */
  function Factors(p: nat, rs: seq<int>): (fs: seq<seq<int>>)
    requires p > 0
    ensures |fs| == |rs| && Nonempty(fs)
  {
    seq(|rs|, i requires 0 <= i < |rs| => [Res(p, -rs[i]), Res(p, 1)])
  }

  lemma {:induction false} FactorsProduct(p: nat, rs: seq<int>)
    requires p > 0
    ensures ProdSize(Factors(p, rs)) == |rs| + 1
    ensures Reds(p, ProdList(Factors(p, rs))) == Reds(p, ProdRoots(rs))
  {
    if rs != [] {
      FactorsProduct(p, rs[1..]);
      FactorsStep(p, rs);
      ProdListStep(Factors(p, rs));
      ProdRootsStep(rs);
      FactorReds(p, rs[0]);
      ConvRes(p, Factors(p, rs)[0], ProdList(Factors(p, rs[1..])), [-rs[0], 1], ProdRoots(rs[1..]));
    }
  }

  lemma FactorsStep(p: nat, rs: seq<int>)
    requires p > 0 && rs != []
    ensures Factors(p, rs)[0] == [Res(p, -rs[0]), Res(p, 1)]
    ensures Factors(p, rs)[1..] == Factors(p, rs[1..])
  {
  }

  lemma FactorReds(p: nat, r: int)
    requires p > 0
    ensures Reds(p, [Res(p, -r), Res(p, 1)]) == Reds(p, [-r, 1])
  {
    hide Res;
    ResRes(p, -r);
    ResRes(p, 1);
  }

  /** Subsequences of the evaluation points named by an index list. */
  function Select(roots: seq<int>, idx: seq<nat>): (r: seq<int>)
    requires forall i :: 0 <= i < |idx| ==> idx[i] < |roots|
    ensures |r| == |idx|
  {
    seq(|idx|, i requires 0 <= i < |idx| => roots[idx[i]])
  }

  // ---------------------------------------------------------------- the scheme

  /** a is the vanishing polynomial of xs, and invs inverts its derivative there. */
  ghost predicate Precomputed(xs: seq<int>, a: seq<int>, invs: seq<int>) {
    && Canon(FIELD, a) && Vanishing(FIELD, a, xs)
    && |invs| == |xs|
    && forall i :: 0 <= i < |xs| ==> invs[i] == Inv(FIELD, Eval(Deriv(a), xs[i]))
  }

  class OptimizedPSS {
    var l: nat
    var d: nat
    var n: nat
    var nearestPow: nat
    var generator: int
    var roots: seq<int>
    var aShare: FieldVector
    var aRecover: FieldVector
    var aPtsShare: seq<int>
    var aPtsRecover: seq<int>
    var secrets: seq<int>

    /** The parameters fit the domain and the points are in place. */
    ghost predicate Setup()
      reads this
    {
      && 1 <= l <= d < n && n + l <= Pow2(nearestPow) && nearestPow >= 2
      && 2 * (d + 1) <= Pow2(nearestPow)
      && HasOrder(FIELD, generator, nearestPow)
      && roots == Points(FIELD, generator, nearestPow)
    }

    /** Both precomputed polynomials are in place. */
    ghost predicate Valid()
      reads this, aShare, aRecover
    {
      && Setup() && aShare != aRecover
      && Canon(FIELD, secrets) && |secrets| <= l
      && Precomputed(roots[..d + 1], aShare.elems, aPtsShare)
      && Precomputed(roots[l..l + d + 1], aRecover.elems, aPtsRecover)
    }

    constructor (l: nat, d: nat, n: nat)
      requires IsPrime(FIELD)
      requires 1 <= l <= d < n && CeilLog2(n + l) <= 10
      requires 2 * (d + 1) <= Pow2(CeilLog2(n + l))
      ensures Valid() && fresh(aShare) && fresh(aRecover)
      ensures this.l == l && this.d == d && this.n == n && secrets == []
      ensures nearestPow == CeilLog2(n + l)
      ensures generator == GeneratorFor(nearestPow)
    {
      hide *;
      this.l, this.d, this.n := l, d, n;
      nearestPow := CeilLog2(n + l);
      generator := GeneratorFor(CeilLog2(n + l));
      secrets, roots, aPtsShare, aPtsRecover := [], [], [], [];
      aShare := new FieldVector([]);
      aRecover := new FieldVector([]);
      new;
      LeastPower(n + l, d);
      GeneratorOrder(nearestPow);
      FillRoots();
      SetupIs();
      PrecomputePolynomials();
      PrecomputeDerivatives();
      ValidIs();
    }

    /** The guarded construction: the field is fixed, and its group has at most 2^10 points. */
    static method Create(l: nat, d: nat, n: nat, fieldSize: int) returns (r: Result<OptimizedPSS>)
      requires IsPrime(FIELD) && 1 <= l <= d < n && 2 * (d + 1) <= Pow2(CeilLog2(n + l))
      ensures r.Failure? && r.error == WrongField <==> fieldSize != FIELD
      ensures r.Failure? && r.error == TooManyParties <==> fieldSize == FIELD && n + l > 1024
      ensures r.Success? <==> fieldSize == FIELD && n + l <= 1024
      ensures r.Success? ==>
        && fresh(r.value) && r.value.Valid() && r.value.secrets == []
        && r.value.l == l && r.value.d == d && r.value.n == n
        && r.value.nearestPow == CeilLog2(n + l) && r.value.generator == GeneratorFor(r.value.nearestPow)
    {
      hide *;
      if fieldSize != FIELD {
        return Failure(WrongField);
      }
      CeilLog2Ten(n + l);
      if CeilLog2(n + l) > 10 {
        return Failure(TooManyParties);
      }
      var pss := new OptimizedPSS(l, d, n);
      return Success(pss);
    }

    lemma SetupIs()
      requires 1 <= l <= d < n && n + l <= Pow2(nearestPow) && nearestPow >= 2
      requires 2 * (d + 1) <= Pow2(nearestPow)
      requires HasOrder(FIELD, generator, nearestPow)
      requires FIELD > 0 && roots == Points(FIELD, generator, nearestPow)
      ensures Setup()
    {
    }

    twostate lemma SetupKept()
      requires old(Setup())
      requires l == old(l) && d == old(d) && n == old(n) && nearestPow == old(nearestPow)
      requires generator == old(generator) && roots == old(roots)
      ensures Setup()
    {
    }

    lemma ValidIs()
      requires Setup() && aShare != aRecover && secrets == []
      requires d + 1 <= |roots| && l + d + 1 <= |roots|
      requires Precomputed(roots[..d + 1], aShare.elems, aPtsShare)
      requires Precomputed(roots[l..l + d + 1], aRecover.elems, aPtsRecover)
      ensures Valid()
    {
    }

    method FillRoots()
      requires FIELD > 0 && nearestPow >= 1 && Pow2(nearestPow) == 2 * Pow2(nearestPow - 1)
      modifies this`roots
      ensures roots == Points(FIELD, generator, nearestPow)
    {
      hide *;
      var halfPts := Pow2(nearestPow - 1);
      var h := Res(FIELD, Pow(generator, 2));
      ghost var pts := Points(FIELD, generator, nearestPow);
      roots := [];
      for i := 0 to halfPts
        invariant roots == pts[..i]
      {
        PointIs(generator, nearestPow, i);
        roots := roots + [Res(FIELD, Pow(h, i))];
      }
      for i := 0 to halfPts
        invariant roots == pts[..halfPts + i]
      {
        PointIs(generator, nearestPow, halfPts + i);
        roots := roots + [Res(FIELD, Pow(generator, 2 * i + 1))];
      }
    }

    /** The vanishing polynomials of the two point sets, sharing the factor they have in common. */
    method PrecomputePolynomials()
      requires IsPrime(FIELD) && Setup()
      modifies this`aShare, this`aRecover
      ensures Setup() && fresh(aShare) && fresh(aRecover) && aShare != aRecover
      ensures Canon(FIELD, aShare.elems) && Canon(FIELD, aRecover.elems)
      ensures d + 1 <= |roots| && l + d + 1 <= |roots|
      ensures aShare.elems == Reds(FIELD, ProdRoots(roots[..d + 1]))
      ensures aRecover.elems == Reds(FIELD, ProdRoots(roots[l..l + d + 1]))
    {
      hide *;
      SetupOrder();
      var shared := RootsVector(l, d + 1 - l);
      var share := RootsVector(0, l);
      JoinRoots(roots, l, d);
      MultiplyInto(share, shared, roots[..l], roots[l..d + 1]);
      var recover := RootsVector(d + 1, l);
      MultiplyInto(recover, shared, roots[d + 1..d + 1 + l], roots[l..d + 1]);
      PointsDistinct(FIELD, generator, nearestPow);
      SwapRoots(roots[d + 1..d + 1 + l], roots[l..d + 1], roots);
      aShare, aRecover := share, recover;
      SetupKept();
    }

    method RootsVector(from: nat, m: nat) returns (v: FieldVector)
      requires IsPrime(FIELD) && Setup() && m > 0 && from + m < |roots|
      ensures fresh(v) && v.elems == Reds(FIELD, ProdRoots(roots[from..from + m]))
    {
      hide *;
      SetupOrder();
      SelectRange(roots, from, m);
      var a := MultiplyRoots(Range(from, m));
      v := new FieldVector(a.value);
    }

    method MultiplyInto(a: FieldVector, b: FieldVector, ghost xs: seq<int>, ghost ys: seq<int>)
      requires IsPrime(FIELD) && Setup() && a != b && |xs| + |ys| < Pow2(nearestPow)
      requires a.elems == Reds(FIELD, ProdRoots(xs)) && b.elems == Reds(FIELD, ProdRoots(ys))
      modifies a, b
      ensures a.elems == Reds(FIELD, ProdRoots(xs + ys)) && b.elems == old(b.elems)
    {
      hide *;
      SetupOrder();
      ProductOfRoots(xs, ys);
      var done := PolyMult(a, b);
    }

    /** The derivatives at the points, from one transform each, and their inverses. */
    method PrecomputeDerivatives()
      requires IsPrime(FIELD) && Setup() && aShare != aRecover
      requires Canon(FIELD, aShare.elems) && Canon(FIELD, aRecover.elems)
      requires d + 1 <= |roots| && l + d + 1 <= |roots|
      requires aShare.elems == Reds(FIELD, ProdRoots(roots[..d + 1]))
      requires aRecover.elems == Reds(FIELD, ProdRoots(roots[l..l + d + 1]))
      modifies this`aPtsShare, this`aPtsRecover
      ensures Precomputed(roots[..d + 1], aShare.elems, aPtsShare)
      ensures Precomputed(roots[l..l + d + 1], aRecover.elems, aPtsRecover)
    {
      hide *;
      SetupOrder();
      var recoverValues := RecoverDerivatives();
      var shareValues := ShareDerivatives();
      PointsDistinct(FIELD, generator, nearestPow);
      DerivativesNonzero(roots, 0, d + 1, aShare.elems);
      DerivativesNonzero(roots, l, d + 1, aRecover.elems);
      aPtsShare, aPtsRecover := [], [];
      for i := 0 to d + 1
        invariant |aPtsShare| == |aPtsRecover| == i
        invariant forall t :: 0 <= t < i ==> aPtsShare[t] == Inv(FIELD, shareValues[t])
        invariant forall t :: 0 <= t < i ==> aPtsRecover[t] == Inv(FIELD, recoverValues[t])
      {
        assert shareValues[i] != 0 && recoverValues[i] != 0;
        aPtsShare := aPtsShare + [Inv(FIELD, shareValues[i])];
        aPtsRecover := aPtsRecover + [Inv(FIELD, recoverValues[i])];
      }
      PrecomputedIs(roots[..d + 1], aShare.elems, aPtsShare);
      PrecomputedIs(roots[l..l + d + 1], aRecover.elems, aPtsRecover);
    }

    method RecoverDerivatives() returns (vals: seq<int>)
      requires Setup() && l + d + 1 <= |roots| && |aRecover.elems| == d + 2
      ensures vals == DerivValues(aRecover.elems, roots[l..l + d + 1])
    {
      hide *;
      SetupOrder();
      var coeffs := DerivCoeffs(aRecover.elems);
      var copy := new FieldVector(coeffs);
      ResizeCanon(FIELD, coeffs, Pow2(nearestPow));
      PrepareCoeffs(copy, nearestPow);
      DFT(copy, nearestPow);
      ghost var u := copy.elems;
      ghost var all := DerivValues(aRecover.elems, roots[l..l + d + 1]);
      var half := Pow2(nearestPow - 1);
      var end := if l + d + 1 < half then d + 1 else half - l;
      vals := [];
      for i := 0 to end
        invariant copy.elems == u && vals == all[..i]
      {
        DerivValueAt(generator, nearestPow, roots, aRecover.elems, l, d + 1, i);
        vals := vals + [copy.elems[2 * (l + i)]];
      }
      for i := 0 to d + 1 - end
        invariant copy.elems == u && vals == all[..end + i]
      {
        DerivValueAt(generator, nearestPow, roots, aRecover.elems, l, d + 1, end + i);
        vals := vals + [copy.elems[2 * i + 1]];
      }
    }

    method ShareDerivatives() returns (vals: seq<int>)
      requires Setup() && d + 1 <= |roots| && |aShare.elems| == d + 2
      ensures vals == DerivValues(aShare.elems, roots[..d + 1])
    {
      hide *;
      SetupOrder();
      var coeffs := DerivCoeffs(aShare.elems);
      var inPlace := new FieldVector(coeffs);
      ResizeCanon(FIELD, coeffs, Pow2(nearestPow));
      PrepareCoeffs(inPlace, nearestPow);
      DFT(inPlace, nearestPow);
      ghost var u := inPlace.elems;
      ghost var all := DerivValues(aShare.elems, roots[0..0 + (d + 1)]);
      for i := 0 to d + 1
        invariant |inPlace.elems| == |u| && inPlace.elems[..i] == all[..i] && inPlace.elems[i..] == u[i..]
      {
        DerivValueAt(generator, nearestPow, roots, aShare.elems, 0, d + 1, i);
        assert inPlace.elems[2 * i] == inPlace.elems[i..][i];
        inPlace.elems := inPlace.elems[i := inPlace.elems[2 * i]];
      }
      assert roots[0..0 + (d + 1)] == roots[..d + 1];
      assert all[..d + 1] == all;
      vals := inPlace.elems[..d + 1];
    }

    method DerivCoeffs(a: seq<int>) returns (c: seq<int>)
      requires |a| == d + 2
      ensures c == Reds(FIELD, Deriv(a)) && Canon(FIELD, c)
    {
      hide Res;
      c := [];
      for i := 0 to d + 1
        invariant c == Reds(FIELD, Deriv(a))[..i]
      {
        c := c + [Res(FIELD, a[i + 1] * (i + 1))];
      }
    }

    /** The generator of the domain of size 2^pow. */
    function Gen(pow: nat): int
      reads this
    {
      if pow == nearestPow then generator else Res(FIELD, generator * generator)
    }

    lemma GenOrder(pow: nat)
      requires Setup() && (pow == nearestPow || pow == nearestPow - 1)
      ensures HasOrder(FIELD, Gen(pow), pow)
    {
      if pow != nearestPow { OrderSquare(FIELD, generator, nearestPow); }
    }

    method PrepareCoeffs(coeffs: FieldVector, pow: nat)
      modifies coeffs
      ensures coeffs.elems == Resize(old(coeffs.elems), Pow2(pow))
    {
      var total := Pow2(pow);
      coeffs.elems := Resize(coeffs.elems, total);
    }

    method DFT(coeffs: FieldVector, pow: nat)
      requires Setup() && (pow == nearestPow || pow == nearestPow - 1)
      requires |coeffs.elems| == Pow2(pow) && Canon(FIELD, coeffs.elems)
      modifies coeffs
      ensures coeffs.elems == Dft(FIELD, Gen(pow), old(coeffs.elems))
    {
      hide *;
      GenOrder(pow);
      Transform(FIELD, Gen(pow), coeffs, pow);
    }

    /** a becomes the product of a and b; b is padded, read and restored. */
    method PolyMult(a: FieldVector, b: FieldVector) returns (r: Outcome)
      requires IsPrime(FIELD) && Setup() && a != b
      requires |a.elems| > 0 && |b.elems| > 0 && Canon(FIELD, a.elems) && Canon(FIELD, b.elems)
      modifies a, b
      ensures r.Pass? <==> |old(a.elems)| + |old(b.elems)| - 1 <= Pow2(nearestPow)
      ensures r.Pass? ==> a.elems == Reds(FIELD, Conv(old(a.elems), old(b.elems)))
      ensures r.Fail? ==> a.elems == old(a.elems)
      ensures b.elems == old(b.elems)
    {
      ghost var a0, b0 := a.elems, b.elems;
      var numPts := |a.elems| + |b.elems| - 1;
      var total := Pow2(nearestPow);
      if total < numPts {
        return Fail(ProductTooLarge);
      }
      SetupOrder();
      hide *;
      PrepareCoeffs(a, nearestPow);
      ResizeCanon(FIELD, a0, total);
      DFT(a, nearestPow);
      var saveB := |b.elems|;
      if |b.elems| != total {
        PrepareCoeffs(b, nearestPow);
      }
      ResizeSame(b0);
      ResizeCanon(FIELD, b0, total);
      var c := PreserveTransform(FIELD, Gen(nearestPow), b, nearestPow);
      MultiplyPointwise(a, c);
      InverseTransform(FIELD, generator, a, nearestPow, numPts);
      ProductByTransform(FIELD, generator, nearestPow, a0, b0);
      b.elems := b.elems[..saveB];
      ResizePrefix(b0, total);
      return Pass;
    }

    method MultiplyPointwise(a: FieldVector, c: FieldVector)
      requires a != c && |a.elems| == |c.elems|
      modifies a
      ensures a.elems == Pointwise(FIELD, old(a.elems), c.elems)
    {
      hide Res;
      ghost var a0 := a.elems;
      for i := 0 to |a.elems|
        invariant |a.elems| == |a0|
        invariant forall t :: 0 <= t < i ==> a.elems[t] == Res(FIELD, a0[t] * c.elems[t])
        invariant forall t :: i <= t < |a0| ==> a.elems[t] == a0[t]
      {
        a.elems := a.elems[i := Res(FIELD, a.elems[i] * c.elems[i])];
      }
    }

    lemma SetupOrder()
      requires Setup()
      ensures FIELD >= 3 && nearestPow >= 2
      ensures HasOrder(FIELD, generator, nearestPow) && Gen(nearestPow) == generator
      ensures Pow2(nearestPow) == 2 * Pow2(nearestPow - 1) && |roots| == Pow2(nearestPow)
      ensures 1 <= l <= d < n && n + l <= |roots| && 2 * (d + 1) <= |roots| && Canon(FIELD, roots)
      ensures roots == Points(FIELD, generator, nearestPow)
    {
    }

    /** Divide and conquer product of a list of polynomials. */
    method MultPolyList(polys: seq<seq<int>>) returns (r: Result<seq<int>>)
      requires IsPrime(FIELD) && Setup() && Nonempty(polys)
      requires forall i :: 0 <= i < |polys| ==> Canon(FIELD, polys[i])
      ensures r.Success? <==> polys != [] && (|polys| == 1 || ProdSize(polys) <= Pow2(nearestPow))
      ensures r.Success? ==> r.value == Reds(FIELD, ProdList(polys))
      decreases |polys|
    {
      hide Conv, ProdList, ProdSize, Setup, IsPrime, Res;
      if |polys| == 1 {
        ProdListOne(polys);
        RedsCanon(FIELD, polys[0]);
        return Success(polys[0]);
      } else if |polys| == 2 {
        var a := new FieldVector(polys[0]);
        var b := new FieldVector(polys[1]);
        var done := PolyMult(a, b);
        ProdListTwo(polys);
        if done.Fail? { return Failure(done.error); }
        return Success(a.elems);
      } else if |polys| == 0 {
        return Failure(EmptyProduct);
      }
      var midPt := |polys| / 2;
      var rhs, lhs := polys[..midPt], polys[midPt..];
      assert rhs + lhs == polys;
      ProdListConcat(rhs, lhs);
      var rhsEval := MultPolyList(rhs);
      var lhsEval := MultPolyList(lhs);
      if rhsEval.Failure? { return rhsEval; }
      if lhsEval.Failure? { return lhsEval; }
      var a := new FieldVector(rhsEval.value);
      var b := new FieldVector(lhsEval.value);
      var done := PolyMult(a, b);
      if done.Fail? { return Failure(done.error); }
      RedsReds(FIELD, ProdList(rhs));
      RedsReds(FIELD, ProdList(lhs));
      ConvRes(FIELD, rhsEval.value, lhsEval.value, ProdList(rhs), ProdList(lhs));
      return Success(a.elems);
    }

    /** The product of (x - roots[i]) over an index list. */
    method MultiplyRoots(rootPos: seq<nat>) returns (r: Result<seq<int>>)
      requires IsPrime(FIELD) && Setup()
      requires forall i :: 0 <= i < |rootPos| ==> rootPos[i] < |roots|
      ensures r.Success? <==> rootPos != [] && (|rootPos| == 1 || |rootPos| + 1 <= Pow2(nearestPow))
      ensures r.Success? ==> r.value == Reds(FIELD, ProdRoots(Select(roots, rootPos)))
    {
      ghost var rs := Select(roots, rootPos);
      var listRoots: seq<seq<int>> := [];
      for i := 0 to |rootPos|
        invariant listRoots == Factors(FIELD, rs)[..i]
      {
        listRoots := listRoots + [[Res(FIELD, -roots[rootPos[i]]), Res(FIELD, 1)]];
      }
      assert listRoots == Factors(FIELD, rs);
      FactorsProduct(FIELD, rs);
      FactorsCanon(FIELD, rs);
      hide *;
      r := MultPolyList(listRoots);
    }

    // ------------------------------------------------------------ the series

    /** The first count entries become the negated entries of the reversed vector. */
    method NegateReversed(coeffs: FieldVector, count: nat)
      requires 2 * count <= |coeffs.elems|
      modifies coeffs
      ensures |coeffs.elems| == |old(coeffs.elems)|
      ensures coeffs.elems[..count] == NegRevs(old(coeffs.elems), count)
      ensures coeffs.elems[count..] == old(coeffs.elems)[count..]
    {
      hide NegRev;
      ghost var u := coeffs.elems;
      var w := |coeffs.elems|;
      for it := 0 to count
        invariant |coeffs.elems| == w
        invariant forall t :: 0 <= t < it ==> coeffs.elems[t] == NegRev(u, t)
        invariant forall t :: it <= t < w ==> coeffs.elems[t] == u[t]
      {
        var oneMoreInv := w - it - 1;
        NegRevIs(u, it);
        coeffs.elems := coeffs.elems[it := Res(FIELD, -coeffs.elems[oneMoreInv])];
      }
    }

    /** The same for half + needSaved entries: the entries of the lower half that the upper
        part still needs are saved before they are overwritten. */
    method NegateReversedLong(coeffs: FieldVector, half: nat, needSaved: nat)
      requires |coeffs.elems| == 2 * half && 0 < needSaved <= half
      modifies coeffs
      ensures |coeffs.elems| == |old(coeffs.elems)|
      ensures coeffs.elems[..half + needSaved] == NegRevs(old(coeffs.elems), half + needSaved)
    {
      hide NegRev;
      ghost var u := coeffs.elems;
      var needNothing := half - needSaved;
      NegateReversed(coeffs, needNothing);
      NegRevsAt(u, needNothing);
      ghost var v := coeffs.elems;
      assert v == NegRevs(u, needNothing) + u[needNothing..];
      var saveV := NegateSaving(coeffs, u, needNothing, needSaved);
      RestoreSaved(coeffs, u, saveV, half);
    }

    method NegateSaving(coeffs: FieldVector, ghost u: seq<int>, needNothing: nat, needSaved: nat) returns (saveV: seq<int>)
      requires |u| == 2 * (needNothing + needSaved) && coeffs.elems == NegRevs(u, needNothing) + u[needNothing..]
      modifies coeffs
      ensures coeffs.elems == NegRevs(u, needNothing + needSaved) + u[needNothing + needSaved..]
      ensures |saveV| == needSaved && forall t :: 0 <= t < needSaved ==> saveV[t] == u[needNothing + needSaved - t - 1]
    {
      hide NegRev, NegRevs;
      var w := |coeffs.elems|;
      saveV := [];
      for it := 0 to needSaved
        invariant coeffs.elems == NegRevs(u, needNothing + it) + u[needNothing + it..]
        invariant |saveV| == it && forall t :: 0 <= t < it ==> saveV[t] == u[needNothing + it - t - 1]
      {
        NegRevIs(u, needNothing + it);
        NegRevsStep(u, needNothing + it);
        saveV := [coeffs.elems[needNothing + it]] + saveV;
        coeffs.elems := coeffs.elems[needNothing + it := Res(FIELD, -coeffs.elems[w - (it + needNothing) - 1])];
      }
    }

    method RestoreSaved(coeffs: FieldVector, ghost u: seq<int>, saveV: seq<int>, half: nat)
      requires |u| == 2 * half && coeffs.elems == NegRevs(u, half) + u[half..]
      requires |saveV| <= half && forall t :: 0 <= t < |saveV| ==> saveV[t] == u[half - t - 1]
      modifies coeffs
      ensures |coeffs.elems| == |u| && coeffs.elems[..half + |saveV|] == NegRevs(u, half + |saveV|)
    {
      hide NegRev, NegRevs;
      for it := 0 to |saveV|
        invariant coeffs.elems == NegRevs(u, half + it) + u[half + it..]
      {
        NegRevIs(u, half + it);
        NegRevsStep(u, half + it);
        coeffs.elems := coeffs.elems[half + it := Res(FIELD, -saveV[it])];
      }
    }

    method ComputeN(coeffs: FieldVector, pow: nat)
      requires Setup() && (pow == nearestPow || pow == nearestPow - 1)
      requires Canon(FIELD, coeffs.elems)
      modifies coeffs
      ensures d + 1 <= Pow2(pow)
      ensures coeffs.elems == NegatedInverseValues(FIELD, Gen(pow), Pow2(pow), Resize(old(coeffs.elems), Pow2(pow)), d + 1)
    {
      hide *;
      SetupSizes(pow);
      ghost var v := Resize(coeffs.elems, Pow2(pow));
      ghost var g := Gen(pow);
      var half := Pow2(pow - 1);
      ResizeCanon(FIELD, coeffs.elems, Pow2(pow));
      PrepareCoeffs(coeffs, pow);
      DFT(coeffs, pow);
      var needSaved := d + 1 - half;
      if needSaved > 0 {
        NegateReversedLong(coeffs, half, needSaved);
      } else {
        NegateReversed(coeffs, d + 1);
      }
      coeffs.elems := coeffs.elems[..d + 1];
      NegatedIs(g, v, d + 1);
    }

    lemma SetupSizes(pow: nat)
      requires Setup() && (pow == nearestPow || pow == nearestPow - 1)
      ensures FIELD >= 3 && pow >= 1 && Pow2(pow) == 2 * Pow2(pow - 1)
      ensures 1 <= l <= d && d + 1 <= Pow2(pow)
    {
      SetupOrder();
    }

    // ------------------------------------------------------------ coefficients from points

    method ShareWeights(samplePoints: FieldVector) returns (nI: FieldVector)
      requires |samplePoints.elems| == |aPtsShare| == d + 1
      ensures fresh(nI) && nI.elems == Products(samplePoints.elems, aPtsShare)
    {
      hide Res;
      nI := new FieldVector([]);
      for i := 0 to d + 1
        invariant nI.elems == Products(samplePoints.elems, aPtsShare)[..i]
      {
        nI.elems := nI.elems + [samplePoints.elems[i]];
        nI.elems := nI.elems[i := Res(FIELD, nI.elems[i] * aPtsShare[i])];
      }
    }

    method FillEven(nI: FieldVector, ys: seq<int>, half: nat, end: nat)
      requires FIELD > 0 && |ys| == |aPtsRecover| == d + 1 && end <= d + 1 && l + end <= half
      requires |nI.elems| == 2 * (l + end) && Distinct(Positions(half, l, d + 1))
      requires Sparse(nI.elems, Products(ys, aPtsRecover)[..0], Positions(half, l, d + 1)[..0])
      modifies nI
      ensures |nI.elems| == |old(nI.elems)|
      ensures Sparse(nI.elems, Products(ys, aPtsRecover)[..end], Positions(half, l, d + 1)[..end])
    {
      hide *;
      ghost var ns, pos := Products(ys, aPtsRecover), Positions(half, l, d + 1);
      for i := 0 to end
        invariant |nI.elems| == 2 * (l + end)
        invariant Sparse(nI.elems, ns[..i], pos[..i])
      {
        PositionIs(half, l, d + 1, i, ys, aPtsRecover);
        SparseStep(nI.elems, ns, pos, i);
        nI.elems := nI.elems[2 * (l + i) := Res(FIELD, ys[i] * aPtsRecover[i])];
      }
    }

    method FillOdd(nI: FieldVector, ys: seq<int>, half: nat, end: nat)
      requires FIELD > 0 && |ys| == |aPtsRecover| == d + 1 && end <= d + 1 && l + d + 1 <= 2 * half
      requires end <= d ==> l + end == half
      requires |nI.elems| == 2 * (l + end) && Distinct(Positions(half, l, d + 1))
      requires Sparse(nI.elems, Products(ys, aPtsRecover)[..end], Positions(half, l, d + 1)[..end])
      modifies nI
      ensures |nI.elems| == |old(nI.elems)|
      ensures Sparse(nI.elems, Products(ys, aPtsRecover)[..d + 1], Positions(half, l, d + 1)[..d + 1])
    {
      hide *;
      ghost var ns, pos := Products(ys, aPtsRecover), Positions(half, l, d + 1);
      for i := 0 to d + 1 - end
        invariant |nI.elems| == 2 * (l + end)
        invariant Sparse(nI.elems, ns[..end + i], pos[..end + i])
      {
        PositionIs(half, l, d + 1, end + i, ys, aPtsRecover);
        SparseStep(nI.elems, ns, pos, end + i);
        nI.elems := nI.elems[2 * i + 1 := Res(FIELD, ys[i + end] * aPtsRecover[i + end])];
      }
    }

    /** The weights at the positions of points l, ..., l + d: even positions first, then the
        odd ones when the points run past the half group. */
    method RecoverWeights(samplePoints: FieldVector) returns (nI: FieldVector)
      requires Setup() && |samplePoints.elems| == |aPtsRecover| == d + 1
      ensures fresh(nI) && |nI.elems| <= Pow2(nearestPow) && Canon(FIELD, nI.elems)
      ensures Sparse(nI.elems, Products(samplePoints.elems, aPtsRecover), Positions(Pow2(nearestPow - 1), l, d + 1))
    {
      hide *;
      SetupOrder();
      var half := Pow2(nearestPow - 1);
      ghost var ns := Products(samplePoints.elems, aPtsRecover);
      ghost var pos := Positions(half, l, d + 1);
      PositionsDistinct(half, l, d + 1);
      var end := if l + d + 1 < half then d + 1 else half - l;
      nI := new FieldVector(Resize([], 2 * (l + end)));
      SparseStart(2 * (l + end), ns, pos);
      FillEven(nI, samplePoints.elems, half, end);
      FillOdd(nI, samplePoints.elems, half, end);
      assert ns[..d + 1] == ns && pos[..d + 1] == pos;
      SparseCanon(nI.elems, ns, pos);
    }

    /** Tables whose contents are back as they were leave the object valid. */
    twostate lemma ValidKept()
      requires old(Valid()) && unchanged(this)
      requires aShare.elems == old(aShare.elems) && aRecover.elems == old(aRecover.elems)
      ensures Valid()
    {
    }

    method PtToCoeff(samplePoints: FieldVector, pow: nat, isShare: bool) returns (r: Result<FieldVector>)
      requires IsPrime(FIELD) && Valid()
      requires samplePoints != aShare && samplePoints != aRecover && Canon(FIELD, samplePoints.elems)
      requires pow == if isShare then nearestPow - 1 else nearestPow
      modifies aShare, aRecover
      ensures l + d + 1 <= |roots|
      ensures aShare.elems == old(aShare.elems) && aRecover.elems == old(aRecover.elems) && Valid()
      ensures |samplePoints.elems| != d + 1 ==> r == Failure(WrongNumberOfPoints)
      ensures |samplePoints.elems| == d + 1 <==> r.Success?
      ensures |samplePoints.elems| == d + 1 ==> r.Success? && fresh(r.value)
      ensures r.Success? && isShare ==> r.value.elems == PolyThrough(FIELD, roots[..d + 1], samplePoints.elems)
      ensures r.Success? && !isShare ==> r.value.elems == PolyThrough(FIELD, roots[l..l + d + 1], samplePoints.elems)
    {
      hide *;
      ValidSizes();
      if |samplePoints.elems| != d + 1 {
        return Failure(WrongNumberOfPoints);
      }
      var nI: FieldVector;
      if isShare {
        nI := ShareCoeffs(samplePoints);
      } else {
        nI := RecoverCoeffs(samplePoints);
      }
      ValidKept();
      return Success(nI);
    }

    method ShareCoeffs(samplePoints: FieldVector) returns (nI: FieldVector)
      requires IsPrime(FIELD) && Valid()
      requires samplePoints != aShare && samplePoints != aRecover
      requires |samplePoints.elems| == d + 1
      modifies aShare
      ensures aShare.elems == old(aShare.elems)
      ensures d + 1 <= |roots| && fresh(nI) && nI.elems == PolyThrough(FIELD, roots[..d + 1], samplePoints.elems)
    {
      hide *;
      ValidSizes();
      SetupSizes(nearestPow - 1);
      nI := ShareWeights(samplePoints);
      ghost var ns := nI.elems;
      ComputeN(nI, nearestPow - 1);
      ghost var series := nI.elems;
      var done := PolyMult(nI, aShare);
      ShareCoefficients(generator, nearestPow, roots, d, aShare.elems, aPtsShare, samplePoints.elems, ns, series);
      nI.elems := nI.elems[..d + 1];
    }

    method RecoverCoeffs(samplePoints: FieldVector) returns (nI: FieldVector)
      requires IsPrime(FIELD) && Valid()
      requires samplePoints != aShare && samplePoints != aRecover
      requires |samplePoints.elems| == d + 1
      modifies aRecover
      ensures aRecover.elems == old(aRecover.elems)
      ensures l + d + 1 <= |roots| && fresh(nI) && nI.elems == PolyThrough(FIELD, roots[l..l + d + 1], samplePoints.elems)
    {
      hide *;
      ValidSizes();
      SetupSizes(nearestPow);
      nI := RecoverWeights(samplePoints);
      ghost var v := nI.elems;
      ComputeN(nI, nearestPow);
      ghost var series := nI.elems;
      var done := PolyMult(nI, aRecover);
      RecoverCoefficients(generator, nearestPow, roots, l, d, aRecover.elems, aPtsRecover, samplePoints.elems, v, series);
      nI.elems := nI.elems[..d + 1];
    }

    // ------------------------------------------------------------ sharing and recovering

    method SetSecrets(lsecrets: seq<int>) returns (r: Outcome)
      requires Valid() && Canon(FIELD, lsecrets)
      modifies this`secrets
      ensures Valid()
      ensures r.Pass? <==> |lsecrets| <= l
      ensures secrets == if r.Pass? then lsecrets else old(secrets)
    {
      hide HasOrder, Points, Precomputed, Canon;
      if |lsecrets| > l {
        return Fail(TooManySecrets);
      }
      secrets := lsecrets;
      return Pass;
    }

    /** Shares are cut from the polynomial through the secrets and rand. */
    method SecretShareValues(rand: seq<int>) returns (shares: seq<int>)
      requires IsPrime(FIELD) && Valid()
      requires |secrets| + |rand| == d + 1 && Canon(FIELD, rand)
      modifies aShare, aRecover
      ensures aShare.elems == old(aShare.elems) && aRecover.elems == old(aRecover.elems) && Valid()
      ensures d + 1 <= |roots| && l + n <= |roots|
      ensures shares == ShareValues(FIELD, roots, l, d, n, secrets + rand)
    {
      hide *;
      ValidSizes();
      var definPts := secrets;
      for i := 0 to d + 1 - |secrets|
        invariant definPts == secrets + rand[..i]
      {
        definPts := definPts + [rand[i]];
      }
      ghost var defining := secrets + rand;
      assert definPts == defining;
      CanonConcat(secrets, rand);
      var definVector := new FieldVector(definPts);
      shares := definPts[l..];
      var recovered := PtToCoeff(definVector, nearestPow - 1, true);
      var coeff := recovered.value;
      ghost var c := coeff.elems;
      ResizeCanon(FIELD, c, Pow2(nearestPow));
      PrepareCoeffs(coeff, nearestPow);
      DFT(coeff, nearestPow);
      SharePrefix(roots, l, d, n, defining);
      shares := CutShares(coeff, shares, defining);
      ValidKept();
    }

    /** The remaining shares, picked from the transform: first the even positions, then the odd. */
    method CutShares(coeff: FieldVector, first: seq<int>, ghost defining: seq<int>) returns (shares: seq<int>)
      requires Setup() && |defining| == d + 1 && d + 1 <= |roots| && l + n <= |roots|
      requires FIELD > 0
      requires coeff.elems == Dft(FIELD, generator, Resize(PolyThrough(FIELD, roots[..d + 1], defining), Pow2(nearestPow)))
      requires l <= d < n && first == ShareValues(FIELD, roots, l, d, n, defining)[..d + 1 - l]
      ensures shares == ShareValues(FIELD, roots, l, d, n, defining)
    {
      hide *;
      SetupOrder();
      ghost var all := ShareValues(FIELD, roots, l, d, n, defining);
      var half := Pow2(nearestPow - 1);
      var restOfPts := n - (d + 1 - l);
      var end := if restOfPts + d + 1 < half then restOfPts else half - (d + 1);
      shares := first;
      for i := 0 to end
        invariant shares == all[..d + 1 - l + i]
      {
        ShareAt(generator, nearestPow, roots, l, d, n, defining, d + 1 - l + i);
        shares := shares + [coeff.elems[2 * (d + 1 + i)]];
      }
      for i := 0 to restOfPts - end
        invariant shares == all[..d + 1 - l + end + i]
      {
        ShareAt(generator, nearestPow, roots, l, d, n, defining, d + 1 - l + end + i);
        shares := shares + [coeff.elems[2 * i + 1]];
      }
    }

    /** The secrets, from at least d + 1 shares; surplus shares are checked. */
    method RecoverSS(samplePoints: FieldVector) returns (r: Result<seq<int>>)
      requires IsPrime(FIELD) && Valid() && l + d + 1 <= Pow2(nearestPow - 1)
      requires samplePoints != aShare && samplePoints != aRecover
      requires Canon(FIELD, samplePoints.elems) && l + |samplePoints.elems| <= |roots|
      modifies samplePoints, aShare, aRecover
      ensures aShare.elems == old(aShare.elems) && aRecover.elems == old(aRecover.elems) && Valid()
      ensures l + d + 1 <= |roots|
      ensures samplePoints.elems == if |old(samplePoints.elems)| > d + 1 then old(samplePoints.elems)[..d + 1] else old(samplePoints.elems)
      ensures r == Recover(FIELD, roots, l, d, old(samplePoints.elems))
    {
      hide *;
      ValidSizes();
      ghost var pts := samplePoints.elems;
      if |samplePoints.elems| < d + 1 {
        RecoverTooFew(roots, l, d, pts);
        return Failure(NotEnoughPoints);
      }
      var checkPoints: seq<int> := [];
      var checkNum := |samplePoints.elems| - (d + 1);
      if checkNum > 0 {
        checkPoints := samplePoints.elems[d + 1..];
        samplePoints.elems := samplePoints.elems[..d + 1];
      }
      assert samplePoints.elems == pts[..d + 1];
      CanonPrefix(pts, d + 1);
      var recovered := PtToCoeff(samplePoints, nearestPow, false);
      ValidKept();
      var px := recovered.value;
      ghost var c := px.elems;
      ResizeCanon(FIELD, c, Pow2(nearestPow));
      PrepareCoeffs(px, nearestPow);
      DFT(px, nearestPow);
      var checked := CheckSurplus(px, checkPoints, c, pts);
      if checked.Fail? {
        RecoverInconsistent(roots, l, d, pts);
        return Failure(checked.error);
      }
      RecoverConsistent(roots, l, d, pts);
      KeepSecrets(px, c);
      return Success(px.elems);
    }

    /** Compares the surplus points with the transformed polynomial, first those in the half
        group, then those among the odd powers. */
    method CheckSurplus(px: FieldVector, checkPoints: seq<int>, ghost c: seq<int>, ghost pts: seq<int>) returns (r: Outcome)
      requires FIELD > 0 && Setup() && l + d + 1 <= Pow2(nearestPow - 1)
      requires |c| == d + 1 <= |pts| && l + |pts| <= |roots| && checkPoints == pts[d + 1..]
      requires px.elems == Dft(FIELD, generator, Resize(c, Pow2(nearestPow)))
      ensures r == Pass || r == Fail(WrongPoint)
      ensures r == Pass <==> SurplusMatches(roots, l, d, c, pts, |pts|)
    {
      hide *;
      SetupOrder();
      var half := Pow2(nearestPow - 1);
      var checkNum := |checkPoints|;
      var endOfFirstCheck := FirstChecks(half, l + d + 1, checkNum);
      SurplusStart(roots, l, d, c, pts);
      for i := 0 to endOfFirstCheck
        invariant SurplusMatches(roots, l, d, c, pts, d + 1 + i)
      {
        SurplusStep(generator, nearestPow, roots, l, d, c, pts, d + 1 + i);
        if px.elems[2 * (l + d + 1 + i)] != checkPoints[i] {
          return Fail(WrongPoint);
        }
      }
      var checkRest := OddChecks(half, l + d + 1, checkNum);
      var i := 0;
      while i < checkRest
        invariant 0 <= i && d + 1 + endOfFirstCheck + i <= |pts|
        invariant SurplusMatches(roots, l, d, c, pts, d + 1 + endOfFirstCheck + i)
        invariant checkRest > 0 ==> endOfFirstCheck + checkRest == checkNum && l + d + 1 + endOfFirstCheck == half
      {
        SurplusStep(generator, nearestPow, roots, l, d, c, pts, d + 1 + endOfFirstCheck + i);
        if px.elems[2 * i + 1] != checkPoints[endOfFirstCheck + i] {
          return Fail(WrongPoint);
        }
        i := i + 1;
      }
      return Pass;
    }

    /** The values at the first l points, which are the even positions. */
    method KeepSecrets(px: FieldVector, ghost c: seq<int>)
      requires FIELD > 0 && Setup() && |c| == d + 1
      requires px.elems == Dft(FIELD, generator, Resize(c, Pow2(nearestPow)))
      modifies px
      ensures l <= |roots| && px.elems == PointValues(roots, l, c)
    {
      hide *;
      SetupOrder();
      ghost var u := px.elems;
      for i := 0 to l
        invariant |px.elems| == |u|
        invariant px.elems[..i] == PointValues(roots, i, c)
        invariant px.elems[i..] == u[i..]
      {
        PointValuesStep(generator, nearestPow, roots, i, c);
        assert px.elems[2 * i] == px.elems[i..][i];
        px.elems := px.elems[i := px.elems[2 * i]];
      }
      px.elems := px.elems[..l];
    }

    /** Recovery reads surplus points only, however many there are, exactly when the first
        l + d + 1 points fit in the half group. */
    lemma RecoveryReads(count: nat)
      requires Valid()
      ensures nearestPow > 0
      ensures ReadsInside(Pow2(nearestPow - 1), l + d + 1, count) <==> l + d + 1 <= Pow2(nearestPow - 1)
    {
      SurplusLoopsInside(Pow2(nearestPow - 1), l + d + 1, count);
    }

    lemma ValidSizes()
      requires Valid()
      ensures FIELD >= 3 && Setup() && aShare != aRecover
      ensures 1 <= l <= d && l + d + 1 <= |roots| && d + 1 <= |roots| && 2 * (d + 1) <= Pow2(nearestPow) == |roots|
      ensures |aPtsShare| == |aPtsRecover| == d + 1 && |aShare.elems| == |aRecover.elems| == d + 2
      ensures Canon(FIELD, aShare.elems) && Canon(FIELD, aRecover.elems)
      ensures Precomputed(roots[..d + 1], aShare.elems, aPtsShare)
      ensures Precomputed(roots[l..l + d + 1], aRecover.elems, aPtsRecover)
      ensures HasOrder(FIELD, generator, nearestPow) && nearestPow >= 2 && roots == Points(FIELD, generator, nearestPow)
      ensures Gen(nearestPow) == generator && Gen(nearestPow - 1) == Res(FIELD, generator * generator)
      ensures d < n && l + n <= |roots| && Pow2(nearestPow) == 2 * Pow2(nearestPow - 1)
      ensures |secrets| <= l && Canon(FIELD, secrets) && (IsPrime(FIELD) ==> DistinctRes(FIELD, roots))
    {
      if IsPrime(FIELD) { PointsDistinct(FIELD, generator, nearestPow); }
    }
  }

  /** At most 1024 points are asked for exactly when ten doublings suffice. */
  lemma CeilLog2Ten(x: nat)
    requires x >= 1
    ensures CeilLog2(x) <= 10 <==> x <= 1024
  {
    var m := CeilLog2(x);
    assert Pow2(10) == 1024;
    if m <= 10 {
      Pow2Grows(m, 10);
    } else {
      Pow2Grows(10, m - 1);
    }
  }

  lemma {:induction false} Pow2Grows(a: nat, b: nat)
    requires a <= b
    ensures Pow2(a) <= Pow2(b)
  {
    if a < b {
      Pow2Grows(a, b - 1);
    }
  }

  /** How many surplus points the first loop of the check compares. */
  function FirstChecks(half: nat, first: nat, count: nat): (r: int)
    ensures r == if count + first < half then count else half - first
  {
    if count + first < half then count else half - first
  }

  /** How many the second loop compares. */
  function OddChecks(half: nat, first: nat, count: nat): (r: int)
    ensures r == count - (half - first)
  {
    count - (half - first)
  }

  /** Both loops read surplus points only: the second starts where the first ends. */
  ghost predicate ReadsInside(half: nat, first: nat, count: nat) {
    var even, odd := FirstChecks(half, first, count), OddChecks(half, first, count);
    && (forall i :: 0 <= i < even ==> Inside(i, count))
    && (forall i :: even <= i < even + odd ==> Inside(i, count))
  }

  predicate Inside(i: int, count: nat) {
    0 <= i < count
  }

  lemma SurplusLoopsInside(half: nat, first: nat, count: nat)
    ensures ReadsInside(half, first, count) <==> first <= half
  {
    if first > half {
      assert !Inside(FirstChecks(half, first, count), count);
    }
  }

  /** The constructor accepts parameters with which the check reads below zero, even when there are
      no surplus points. */
  method ReadsBelowZero() returns (p: OptimizedPSS)
    requires IsPrime(FIELD)
    ensures fresh(p) && p.Valid() && p.l == p.d == 2 && p.n == 3
    ensures !ReadsInside(Pow2(p.nearestPow - 1), p.l + p.d + 1, 0)
  {
    hide ReadsInside, OptimizedPSS.Valid;
    assert CeilLog2(5) == 3 && Pow2(3) == 8 && Pow2(2) == 4;
    p := new OptimizedPSS(2, 2, 3);
    SurplusLoopsInside(4, 5, 0);
  }

  lemma CanonConcat(a: seq<int>, b: seq<int>)
    requires Canon(FIELD, a) && Canon(FIELD, b)
    ensures Canon(FIELD, a + b)
  {
  }

  lemma CanonPrefix(a: seq<int>, m: nat)
    requires Canon(FIELD, a) && m <= |a|
    ensures Canon(FIELD, a[..m])
  {
  }

  lemma SharePrefix(roots: seq<int>, l: nat, d: nat, n: nat, defining: seq<int>)
    requires IsPrime(FIELD) && DistinctRes(FIELD, roots) && Canon(FIELD, defining)
    requires |defining| == d + 1 <= |roots| && l + n <= |roots| && l <= d < n
    ensures defining[l..] == ShareValues(FIELD, roots, l, d, n, defining)[..d + 1 - l]
  {
    hide ShareValues, Res;
    forall i | 0 <= i < d + 1 - l ensures defining[l + i] == ShareValues(FIELD, roots, l, d, n, defining)[i] {
      SharesContainDefining(FIELD, roots, l, d, n, defining, i);
    }
  }

  /** Share k is read from the transform at the position of point l + k. */
  lemma ShareAt(g: int, q: nat, roots: seq<int>, l: nat, d: nat, n: nat, defining: seq<int>, k: nat)
    requires FIELD > 0 && q >= 1 && roots == Points(FIELD, g, q)
    requires |defining| == d + 1 <= |roots| && l + n <= |roots| && k < n
    ensures var e := if l + k < Pow2(q - 1) then 2 * (l + k) else 2 * (l + k - Pow2(q - 1)) + 1;
            e < Pow2(q) && ShareValues(FIELD, roots, l, d, n, defining)[k]
              == Dft(FIELD, g, Resize(PolyThrough(FIELD, roots[..d + 1], defining), Pow2(q)))[e]
  {
    hide Res, PolyThrough, Dft, Points, Resize, Eval;
    DftAtPoint(FIELD, g, q, PolyThrough(FIELD, roots[..d + 1], defining), l + k);
  }

  /** The surplus points before number k lie on c. */
  ghost predicate SurplusMatches(roots: seq<int>, l: nat, d: nat, c: seq<int>, pts: seq<int>, k: nat)
    requires k <= |pts| && l + |pts| <= |roots|
  {
    forall j :: d + 1 <= j < k ==> pts[j] == Res(FIELD, Eval(c, roots[l + j]))
  }

  lemma SurplusStart(roots: seq<int>, l: nat, d: nat, c: seq<int>, pts: seq<int>)
    requires d + 1 <= |pts| && l + |pts| <= |roots|
    ensures SurplusMatches(roots, l, d, c, pts, d + 1)
  {
  }

  lemma SurplusStep(g: int, q: nat, roots: seq<int>, l: nat, d: nat, c: seq<int>, pts: seq<int>, k: nat)
    requires q >= 1 && roots == Points(FIELD, g, q) && |c| <= Pow2(q)
    requires d + 1 <= k < |pts| && l + |pts| <= |roots| && SurplusMatches(roots, l, d, c, pts, k)
    ensures var e := if l + k < Pow2(q - 1) then 2 * (l + k) else 2 * (l + k - Pow2(q - 1)) + 1;
            && FIELD > 0 && e < Pow2(q)
            && (SurplusMatches(roots, l, d, c, pts, k + 1) <==> Dft(FIELD, g, Resize(c, Pow2(q)))[e] == pts[k])
            && (Dft(FIELD, g, Resize(c, Pow2(q)))[e] != pts[k] ==> !SurplusMatches(roots, l, d, c, pts, |pts|))
  {
    hide Res, Dft, Points, Resize, Eval;
    DftAtPoint(FIELD, g, q, c, l + k);
  }

  lemma RecoverTooFew(roots: seq<int>, l: nat, d: nat, pts: seq<int>)
    requires FIELD > 0 && l + |pts| <= |roots| && l + d + 1 <= |roots| && |pts| < d + 1
    ensures Recover(FIELD, roots, l, d, pts) == Failure(NotEnoughPoints)
  {
  }

  lemma RecoverInconsistent(roots: seq<int>, l: nat, d: nat, pts: seq<int>)
    requires FIELD > 0 && l + |pts| <= |roots| && l + d + 1 <= |roots| && |pts| >= d + 1
    requires !SurplusMatches(roots, l, d, PolyThrough(FIELD, roots[l..l + d + 1], pts[..d + 1]), pts, |pts|)
    ensures Recover(FIELD, roots, l, d, pts) == Failure(WrongPoint)
  {
    hide Res, Eval, PolyThrough;
  }

  function PointValues(roots: seq<int>, m: nat, c: seq<int>): (r: seq<int>)
    requires m <= |roots|
    ensures |r| == m
  {
    seq(m, i requires 0 <= i < m => Res(FIELD, Eval(c, roots[i])))
  }

  lemma PointValuesStep(g: int, q: nat, roots: seq<int>, i: nat, c: seq<int>)
    requires q >= 1 && roots == Points(FIELD, g, q) && |c| <= Pow2(q) && i < Pow2(q - 1)
    ensures FIELD > 0 && 2 * i < Pow2(q) && i + 1 <= |roots|
    ensures PointValues(roots, i + 1, c) == PointValues(roots, i, c) + [Dft(FIELD, g, Resize(c, Pow2(q)))[2 * i]]
  {
    hide Res, Dft, Points, Resize, Eval;
    DftAtPoint(FIELD, g, q, c, i);
  }

  lemma RecoverConsistent(roots: seq<int>, l: nat, d: nat, pts: seq<int>)
    requires FIELD > 0 && l + |pts| <= |roots| && l + d + 1 <= |roots| && |pts| >= d + 1
    requires SurplusMatches(roots, l, d, PolyThrough(FIELD, roots[l..l + d + 1], pts[..d + 1]), pts, |pts|)
    ensures Recover(FIELD, roots, l, d, pts) == Success(PointValues(roots, l, PolyThrough(FIELD, roots[l..l + d + 1], pts[..d + 1])))
  {
    hide Res, Eval, PolyThrough;
  }

  lemma LeastPower(x: nat, d: nat)
    requires x >= 3
    ensures FIELD > 0 && CeilLog2(x) >= 2 && x <= Pow2(CeilLog2(x)) == 2 * Pow2(CeilLog2(x) - 1)
  {
    if CeilLog2(x) < 2 {
      assert Pow2(0) == 1 && Pow2(1) == 2;
    }
  }

  lemma PointIs(g: int, q: nat, i: nat)
    requires q >= 1 && i < Pow2(q)
    ensures FIELD > 0
    ensures Points(FIELD, g, q)[i] ==
      if i < Pow2(q - 1) then Res(FIELD, Pow(Res(FIELD, Pow(g, 2)), i)) else Res(FIELD, Pow(g, 2 * (i - Pow2(q - 1)) + 1))
  {
    hide Res;
    ResRes(FIELD, Pow(g, 2));
    PowRes(FIELD, Res(FIELD, Pow(g, 2)), Pow(g, 2), i);
    PowPow(g, 2, i);
  }

  /** The indices from, ..., from + m - 1. */
  function Range(from: nat, m: nat): (r: seq<nat>)
    ensures |r| == m
  {
    if m == 0 then [] else Range(from, m - 1) + [from + m - 1]
  }

  lemma {:induction false} RangeAt(from: nat, m: nat)
    ensures forall i :: 0 <= i < m ==> Range(from, m)[i] == from + i
  {
    if m > 0 { RangeAt(from, m - 1); }
  }

  lemma SelectRange(roots: seq<int>, from: nat, m: nat)
    requires from + m <= |roots|
    ensures forall i :: 0 <= i < |Range(from, m)| ==> Range(from, m)[i] < |roots|
    ensures Select(roots, Range(from, m)) == roots[from..from + m]
  {
    RangeAt(from, m);
  }

  lemma JoinRoots(roots: seq<int>, l: nat, d: nat)
    requires l <= d && l + d + 1 <= |roots|
    ensures roots[0..0 + l] == roots[..l] && roots[l..l + (d + 1 - l)] == roots[l..d + 1]
    ensures roots[..l] + roots[l..d + 1] == roots[..d + 1]
    ensures roots[l..d + 1] + roots[d + 1..d + 1 + l] == roots[l..l + d + 1]
  {
  }

  lemma ProductOfRoots(a: seq<int>, b: seq<int>)
    ensures FIELD > 0
    ensures Reds(FIELD, Conv(Reds(FIELD, ProdRoots(a)), Reds(FIELD, ProdRoots(b)))) == Reds(FIELD, ProdRoots(a + b))
  {
    hide Res, Conv, ProdRoots, Reds;
    ProdRootsConcat(a, b);
    RedsReds(FIELD, ProdRoots(a));
    RedsReds(FIELD, ProdRoots(b));
    ConvRes(FIELD, Reds(FIELD, ProdRoots(a)), Reds(FIELD, ProdRoots(b)), ProdRoots(a), ProdRoots(b));
  }

  lemma SwapRoots(a: seq<int>, b: seq<int>, pts: seq<int>)
    requires IsPrime(FIELD) && DistinctRes(FIELD, pts) && |a| + |b| + 1 <= |pts|
    ensures Reds(FIELD, ProdRoots(a + b)) == Reds(FIELD, ProdRoots(b + a))
  {
    hide *;
    ProdRootsConcat(a, b);
    ProdRootsConcat(b, a);
    ConvCommutes(FIELD, ProdRoots(a), ProdRoots(b), pts);
  }

  /** Values of the derivative at the points. */
  function DerivValues(a: seq<int>, xs: seq<int>): (r: seq<int>)
    ensures |r| == |xs|
  {
    seq(|xs|, i requires 0 <= i < |xs| => Res(FIELD, Eval(Deriv(a), xs[i])))
  }

  lemma DerivValueAt(g: int, q: nat, roots: seq<int>, a: seq<int>, from: nat, m: nat, i: nat)
    requires q >= 1 && roots == Points(FIELD, g, q) && 0 < |a| <= Pow2(q) && from + m <= |roots| && i < m
    ensures var e := if from + i < Pow2(q - 1) then 2 * (from + i) else 2 * (from + i - Pow2(q - 1)) + 1;
            && e < Pow2(q) && FIELD > 0
            && DerivValues(a, roots[from..from + m])[i] == Dft(FIELD, g, Resize(Reds(FIELD, Deriv(a)), Pow2(q)))[e]
  {
    hide Res, Dft, Points, Resize, Eval, Deriv, Reds;
    DftAtPoint(FIELD, g, q, Reds(FIELD, Deriv(a)), from + i);
    RedsEval(FIELD, Deriv(a), roots[from + i]);
  }

  lemma DerivativesNonzero(roots: seq<int>, from: nat, m: nat, a: seq<int>)
    requires IsPrime(FIELD) && DistinctRes(FIELD, roots) && from + m <= |roots|
    requires a == Reds(FIELD, ProdRoots(roots[from..from + m]))
    ensures Vanishing(FIELD, a, roots[from..from + m])
    ensures 0 !in DerivValues(a, roots[from..from + m])
  {
    hide Res, Eval, Deriv, ProdRoots, Reds, IsPrime;
    var xs := roots[from..from + m];
    RedsReds(FIELD, ProdRoots(xs));
    SubDistinct(FIELD, roots, from, from + m);
    forall i | 0 <= i < m ensures DerivValues(a, xs)[i] != 0 {
      SimpleRoots(FIELD, a, xs, i);
    }
  }

  lemma PrecomputedIs(xs: seq<int>, a: seq<int>, invs: seq<int>)
    requires Canon(FIELD, a) && Vanishing(FIELD, a, xs) && |invs| == |xs|
    requires forall t :: 0 <= t < |xs| ==> invs[t] == Inv(FIELD, DerivValues(a, xs)[t])
    ensures Precomputed(xs, a, invs)
  {
    hide Res, Eval, Deriv, Vanishing, Canon, Inv;
    forall i | 0 <= i < |xs| ensures invs[i] == Inv(FIELD, Eval(Deriv(a), xs[i])) {
      InvRes(Eval(Deriv(a), xs[i]));
    }
  }

  lemma InvRes(x: int)
    ensures FIELD > 0 && Inv(FIELD, Res(FIELD, x)) == Inv(FIELD, x)
  {
    hide Res, ExtGcd;
    ResRes(FIELD, x);
  }

  /** Entrywise field products. */
  function Products(a: seq<int>, b: seq<int>): (r: seq<int>)
    requires |a| == |b|
    ensures |r| == |a| && Canon(FIELD, r)
  {
    seq(|a|, i requires 0 <= i < |a| => Res(FIELD, a[i] * b[i]))
  }

  lemma PositionIs(half: nat, l: nat, m: nat, i: nat, ys: seq<int>, invs: seq<int>)
    requires i < m == |ys| == |invs|
    ensures Positions(half, l, m)[i] == if l + i < half then 2 * (l + i) else 2 * (l + i - half) + 1
    ensures Products(ys, invs)[i] == Res(FIELD, ys[i] * invs[i])
  {
    PositionAt(half, l, m, i);
  }

  lemma SparseCanon(v: seq<int>, ns: seq<int>, pos: seq<nat>)
    requires Sparse(v, ns, pos) && Canon(FIELD, ns)
    ensures Canon(FIELD, v)
  {
    forall t | 0 <= t < |v| ensures 0 <= v[t] < FIELD {
      if t in pos {
        var i :| 0 <= i < |pos| && pos[i] == t;
        assert v[t] == ns[i];
      }
    }
  }

  lemma WeightsMatch(xs: seq<int>, a: seq<int>, invs: seq<int>, ys: seq<int>)
    requires Precomputed(xs, a, invs) && |ys| == |xs|
    ensures forall i :: 0 <= i < |xs| ==>
      Res(FIELD, Products(ys, invs)[i]) == Res(FIELD, ys[i] * Inv(FIELD, Eval(Deriv(a), xs[i])))
  {
    hide Res, Eval, Inv;
    forall i | 0 <= i < |xs|
      ensures Res(FIELD, Products(ys, invs)[i]) == Res(FIELD, ys[i] * Inv(FIELD, Eval(Deriv(a), xs[i])))
    {
      ResRes(FIELD, ys[i] * invs[i]);
    }
  }

  lemma PrecomputedVanishing(xs: seq<int>, a: seq<int>, invs: seq<int>)
    requires Precomputed(xs, a, invs)
    ensures Vanishing(FIELD, a, xs) && |invs| == |xs|
  {
  }

  /** Points 0, ..., d in the half group. */
  lemma ShareCoefficients(g: int, q: nat, roots: seq<int>, d: nat, a: seq<int>, invs: seq<int>, ys: seq<int>,
                          ns: seq<int>, series: seq<int>)
    requires IsPrime(FIELD) && HasOrder(FIELD, g, q) && q >= 2 && roots == Points(FIELD, g, q) && 2 * (d + 1) <= |roots|
    requires Precomputed(roots[..d + 1], a, invs) && |ys| == |invs| == d + 1 && ns == Products(ys, invs)
    requires d + 1 <= Pow2(q - 1) && |a| == d + 2
    requires series == NegatedInverseValues(FIELD, Res(FIELD, g * g), Pow2(q - 1), Resize(ns, Pow2(q - 1)), d + 1)
    ensures Reds(FIELD, Conv(series, a))[..d + 1] == PolyThrough(FIELD, roots[..d + 1], ys)
  {
    hide *;
    Pow2Half(q);
    var xs := roots[..d + 1];
    PrecomputedVanishing(xs, a, invs);
    WeightsMatch(xs, a, invs, ys);
    OrderSquare(FIELD, g, q);
    SharePowers(FIELD, g, q, d + 1);
    SparsePrefix(ns);
    SparseResize(ns, ns, Identity(d + 1), Pow2(q - 1));
    IdentityBound(d + 1);
    BelowMore(Identity(d + 1), d + 1, Pow2(q - 1));
    PointsDistinct(FIELD, g, q);
    SubDistinct(FIELD, roots, 0, d + 1);
    SeriesTimesVanishing(FIELD, Res(FIELD, g * g), q - 1, a, xs, ys, ns, Identity(d + 1), Resize(ns, Pow2(q - 1)), roots);
  }

  lemma Pow2Half(q: nat)
    requires q >= 1
    ensures FIELD >= 3 && Pow2(q) == 2 * Pow2(q - 1)
  {
  }

  lemma BelowMore(pos: seq<nat>, v: nat, w: nat)
    requires Below(pos, v) && v <= w
    ensures Below(pos, w)
  {
  }

  lemma IdentityBound(m: nat)
    ensures Below(Identity(m), m)
  {
  }

  /** Points l, ..., l + d, wherever they fall. */
  lemma RecoverCoefficients(g: int, q: nat, roots: seq<int>, l: nat, d: nat, a: seq<int>, invs: seq<int>, ys: seq<int>,
                            v: seq<int>, series: seq<int>)
    requires IsPrime(FIELD) && HasOrder(FIELD, g, q) && q >= 2 && roots == Points(FIELD, g, q)
    requires 2 * (d + 1) <= |roots| && l + d + 1 <= |roots|
    requires Precomputed(roots[l..l + d + 1], a, invs) && |ys| == |invs| == d + 1
    requires |v| <= Pow2(q) && Sparse(v, Products(ys, invs), Positions(Pow2(q - 1), l, d + 1))
    requires d + 1 <= Pow2(q) && |a| == d + 2
    requires series == NegatedInverseValues(FIELD, g, Pow2(q), Resize(v, Pow2(q)), d + 1)
    ensures Reds(FIELD, Conv(series, a))[..d + 1] == PolyThrough(FIELD, roots[l..l + d + 1], ys)
  {
    hide *;
    Pow2Half(q);
    var xs := roots[l..l + d + 1];
    PrecomputedVanishing(xs, a, invs);
    WeightsMatch(xs, a, invs, ys);
    RecoverPowers(FIELD, g, q, l, d + 1);
    SparseResize(v, Products(ys, invs), Positions(Pow2(q - 1), l, d + 1), Pow2(q));
    PositionsDistinct(Pow2(q - 1), l, d + 1);
    PointsDistinct(FIELD, g, q);
    SubDistinct(FIELD, roots, l, l + d + 1);
    SeriesTimesVanishing(FIELD, g, q, a, xs, ys, Products(ys, invs), Positions(Pow2(q - 1), l, d + 1), Resize(v, Pow2(q)), roots);
  }

  /** Entry t of the negated reversal. */
  function NegRev(u: seq<int>, t: nat): int
    requires t < |u|
  {
    Res(FIELD, -u[|u| - t - 1])
  }

  function NegRevs(u: seq<int>, m: nat): (r: seq<int>)
    requires m <= |u|
    ensures |r| == m
  {
    seq(m, t requires 0 <= t < m => NegRev(u, t))
  }

  lemma NegRevIs(u: seq<int>, t: nat)
    requires t < |u|
    ensures FIELD > 0 && NegRev(u, t) == Res(FIELD, -u[|u| - t - 1])
  {
  }

  lemma NegRevsAt(u: seq<int>, m: nat)
    requires m <= |u|
    ensures forall t :: 0 <= t < m ==> NegRevs(u, m)[t] == NegRev(u, t)
  {
  }

  lemma NegRevsStep(u: seq<int>, m: nat)
    requires m < |u|
    ensures NegRevs(u, m + 1) == NegRevs(u, m) + [NegRev(u, m)]
  {
  }

  lemma NegatedIs(g: int, v: seq<int>, m: nat)
    requires m <= |v|
    ensures NegRevs(Dft(FIELD, g, v), m) == NegatedInverseValues(FIELD, g, |v|, v, m)
  {
    hide Res, NegatedAt, Dft;
    forall t | 0 <= t < m ensures NegRev(Dft(FIELD, g, v), t) == NegatedAt(FIELD, g, |v|, v, t) {
      DftAt(FIELD, g, v, |v| - t - 1);
      NegatedAtIs(FIELD, g, |v|, v, t);
    }
  }

  lemma FactorsCanon(p: nat, rs: seq<int>)
    requires p > 0
    ensures forall i :: 0 <= i < |rs| ==> Canon(p, Factors(p, rs)[i])
  {
  }

  lemma {:induction false} ConvOneRight(a: seq<int>)
    ensures Conv(a, [1]) == a
  {
    if a != [] {
      ConvOneRight(a[1..]);
      ConvStep(a, [1]);
      OneRightStep(a);
    }
  }

  lemma OneRightStep(a: seq<int>)
    requires a != []
    ensures AddP(Scale(a[0], [1]), [0] + a[1..]) == a
  {
  }

  lemma ProdListOne(polys: seq<seq<int>>)
    requires |polys| == 1 && Nonempty(polys)
    ensures ProdList(polys) == polys[0]
  {
    hide *;
    ProdListStep(polys);
    assert polys[1..] == [];
    ProdListNone();
    ConvOneRight(polys[0]);
  }

  lemma ProdListNone()
    ensures ProdList([]) == [1] && ProdSize([]) == 1
  {
  }

  lemma ProdListTwo(polys: seq<seq<int>>)
    requires |polys| == 2 && Nonempty(polys)
    ensures ProdList(polys) == Conv(polys[0], polys[1]) && ProdSize(polys) == |polys[0]| + |polys[1]| - 1
  {
    hide Conv;
    ProdListOne(polys[1..]);
    ProdListStep(polys[1..]);
    assert polys[1..][1..] == [];
    ProdListNone();
  }

  lemma ResizeSame(c: seq<int>)
    ensures Resize(c, |c|) == c
  {
  }

}
