/** The reference implementation: a hyper-invertible matrix of Lagrange coefficients, and
    sharing and recovery by matrix multiplication. */
module NaivePSS {
  import opened Modular
  import opened Poly
  import opened Interpolation
  import opened PackedSpec
  import opened Lagrange
  import opened Field14

  class HIM {
    const rows: nat
    const cols: nat
    var matrix: array2<int>

    constructor (m: nat, n: nat)
      ensures rows == m && cols == n && fresh(matrix)
      ensures matrix.Length0 == m && matrix.Length1 == n
    {
      rows, cols := m, n;
      matrix := new int[m, n];
    }

    /** Row i holds the Lagrange coefficients that take values at alpha to the value at beta[i]. */
    ghost predicate Filled(alpha: seq<int>, beta: seq<int>)
      reads this, matrix
    {
      && |alpha| == cols == matrix.Length1 && |beta| == rows == matrix.Length0
      && forall i, j :: 0 <= i < rows && 0 <= j < cols ==> Entry(alpha, j, beta[i], matrix[i, j])
    }

    method InitHIMByVectors(alpha: seq<int>, beta: seq<int>) returns (ok: bool)
      requires matrix.Length0 == rows && matrix.Length1 == cols
      modifies matrix
      ensures ok <==> |beta| == rows && |alpha| == cols
      ensures ok ==> Filled(alpha, beta)
      ensures !ok ==> unchanged(matrix)
    {
      if |beta| != rows || |alpha| != cols {
        return false;
      }
      hide Res, Inv, Basis;
      for i := 0 to rows
        invariant forall a, b :: 0 <= a < i && 0 <= b < cols ==> Entry(alpha, b, beta[a], matrix[a, b])
      {
        for j := 0 to cols
          invariant forall a, b :: 0 <= a < i && 0 <= b < cols ==> Entry(alpha, b, beta[a], matrix[a, b])
          invariant forall b :: 0 <= b < j ==> Entry(alpha, b, beta[i], matrix[i, b])
        {
          var lambda := Coefficient(alpha, j, beta[i]);
          matrix[i, j] := lambda;
        }
      }
      return true;
    }

    method Coefficient(alpha: seq<int>, j: nat, x: int) returns (lambda: int)
      requires j < |alpha|
      ensures Entry(alpha, j, x, lambda)
    {
      hide *;
      FieldPositive();
      lambda := Res(FIELD, 1);
      BasisNone(alpha, j, x);
      for k := 0 to |alpha|
        invariant lambda == Res(FIELD, Basis(FIELD, alpha, j, x, k))
      {
        BasisStep(alpha, j, x, k, lambda);
        if k == j {
          continue;
        }
        lambda := Res(FIELD, lambda * Divide(Res(FIELD, x - alpha[k]), Res(FIELD, alpha[j] - alpha[k])));
      }
      EntryIs(alpha, j, x, lambda);
    }

    /** The values at beta of the polynomial through (alpha, v). */
    method MatrixMult(v: seq<int>, ghost alpha: seq<int>, ghost beta: seq<int>) returns (answer: seq<int>)
      requires Filled(alpha, beta) && |v| == cols
      ensures |answer| == rows
      ensures forall i :: 0 <= i < rows ==> answer[i] == Res(FIELD, LagrangeSum(FIELD, alpha, v, beta[i], cols))
    {
      hide Res, LagrangeSum, Entry;
      FieldPositive();
      answer := [];
      for i := 0 to rows
        invariant |answer| == i
        invariant forall a :: 0 <= a < i ==> answer[a] == Res(FIELD, LagrangeSum(FIELD, alpha, v, beta[a], cols))
      {
        var sum := Res(FIELD, 0);
        SumNone(alpha, v, beta[i]);
        for j := 0 to cols
          invariant sum == Res(FIELD, LagrangeSum(FIELD, alpha, v, beta[i], j))
        {
          SumStep(alpha, v, beta[i], j, matrix[i, j], sum);
          sum := Res(FIELD, sum + Res(FIELD, matrix[i, j] * v[j]));
        }
        answer := answer + [sum];
      }
    }
  }

  lemma FieldPositive()
    ensures FIELD > 0
  {
  }

  function Divide(a: int, b: int): int {
    Res(FIELD, a * Inv(FIELD, b))
  }

  ghost predicate Entry(alpha: seq<int>, j: nat, x: int, e: int)
    requires j < |alpha|
  {
    e == Res(FIELD, Basis(FIELD, alpha, j, x, |alpha|))
  }

  lemma EntryIs(alpha: seq<int>, j: nat, x: int, e: int)
    requires j < |alpha|
    ensures FIELD > 0
    ensures Entry(alpha, j, x, e) <==> e == Res(FIELD, Basis(FIELD, alpha, j, x, |alpha|))
  {
  }

  lemma BasisNone(alpha: seq<int>, j: nat, x: int)
    requires j < |alpha|
    ensures FIELD > 0 && Basis(FIELD, alpha, j, x, 0) == 1
  {
  }

  lemma BasisStep(alpha: seq<int>, j: nat, x: int, k: nat, lambda: int)
    requires j < |alpha| && k < |alpha|
    requires FIELD > 0 && lambda == Res(FIELD, Basis(FIELD, alpha, j, x, k))
    ensures Res(FIELD, Basis(FIELD, alpha, j, x, k + 1)) ==
      if k == j then lambda
      else Res(FIELD, lambda * Divide(Res(FIELD, x - alpha[k]), Res(FIELD, alpha[j] - alpha[k])))
  {
    hide Res, ExtGcd;
    var b, u, w := Basis(FIELD, alpha, j, x, k), x - alpha[k], alpha[j] - alpha[k];
    ResRes(FIELD, u);
    ResRes(FIELD, w);
    ResRes(FIELD, b);
    assert Inv(FIELD, Res(FIELD, w)) == Inv(FIELD, w);
    ResMul(FIELD, Res(FIELD, u), Inv(FIELD, w), u);
    ResRes(FIELD, u * Inv(FIELD, w));
    ResOps(FIELD, lambda, Res(FIELD, u * Inv(FIELD, w)), b, u * Inv(FIELD, w));
  }

  lemma SumNone(alpha: seq<int>, v: seq<int>, x: int)
    requires |alpha| == |v|
    ensures FIELD > 0 && LagrangeSum(FIELD, alpha, v, x, 0) == 0
  {
  }

  lemma SumStep(alpha: seq<int>, v: seq<int>, x: int, j: nat, e: int, sum: int)
    requires |alpha| == |v| && j < |v| && Entry(alpha, j, x, e)
    requires FIELD > 0 && sum == Res(FIELD, LagrangeSum(FIELD, alpha, v, x, j))
    ensures Res(FIELD, LagrangeSum(FIELD, alpha, v, x, j + 1)) == Res(FIELD, sum + Res(FIELD, e * v[j]))
  {
    hide Res, Basis;
    var b := Basis(FIELD, alpha, j, x, |alpha|);
    ResRes(FIELD, b);
    ResMul(FIELD, e, v[j], b);
    ResRes(FIELD, e * v[j]);
    ResRes(FIELD, LagrangeSum(FIELD, alpha, v, x, j));
    assert b * v[j] == v[j] * b;
    ResOps(FIELD, sum, Res(FIELD, e * v[j]), LagrangeSum(FIELD, alpha, v, x, j), v[j] * b);
  }

  // ---------------------------------------------------------------- the matrix computes the same polynomial

  /** Interpolating by Lagrange gives the values of the polynomial the fast code computes. */
  lemma LagrangeIsPolyThrough(xs: seq<int>, ys: seq<int>, x: int)
    requires IsPrime(FIELD) && DistinctRes(FIELD, xs) && |xs| == |ys|
    ensures FIELD > 0
    ensures Res(FIELD, LagrangeSum(FIELD, xs, ys, x, |xs|)) == Res(FIELD, Eval(PolyThrough(FIELD, xs, ys), x))
  {
    hide Res, IsPrime, PolyThrough, LagrangeSum, Eval;
    forall i | 0 <= i < |xs| ensures Res(FIELD, Eval(PolyThrough(FIELD, xs, ys), xs[i])) == Res(FIELD, ys[i]) {
      PolyThroughValues(FIELD, xs, ys, i);
    }
    LagrangeExact(FIELD, xs, ys, PolyThrough(FIELD, xs, ys), x);
  }

  class PackedSecretShare {
    const l: nat
    const d: nat
    const n: nat
    var secrets: seq<int>
    var recoverMTX: HIM

    constructor (l: nat, d: nat, n: nat, mtx: HIM)
      ensures this.l == l && this.d == d && this.n == n && recoverMTX == mtx && secrets == []
    {
      this.l, this.d, this.n, recoverMTX, secrets := l, d, n, mtx, [];
    }

    method SetSecrets(secretVals: seq<int>) returns (ok: bool)
      modifies this`secrets
      ensures ok <==> |secretVals| <= l
      ensures secrets == if ok then secretVals else old(secrets)
    {
      if |secretVals| > l {
        return false;
      }
      secrets := secretVals;
      return true;
    }

    /** The d + 1 defining values: the secrets, zeros for missing secrets, then rand. */
    function Defining(rand: seq<int>): (r: seq<int>)
      requires l <= d && |rand| == d + 1 - l && |secrets| <= l
      reads this
      ensures |r| == d + 1
    {
      secrets + seq(l - |secrets|, _ => 0) + rand
    }

    lemma DefiningIs(rand: seq<int>)
      requires l <= d && |rand| == d + 1 - l && |secrets| <= l
      ensures Defining(rand) == secrets + seq(l - |secrets|, _ => 0) + rand
    {
    }

    /** Sharing by the matrix gives the shares of the polynomial through the defining values. */
    method SecretShareValues(packSS: HIM, rand: seq<int>, ghost roots: seq<int>) returns (ok: bool, shares: seq<int>)
      requires IsPrime(FIELD) && 1 <= l <= d < n && |rand| == d + 1 - l && |secrets| <= l
      requires Canon(FIELD, secrets) && Canon(FIELD, rand)
      requires DistinctRes(FIELD, roots) && n + l <= |roots|
      requires packSS.Filled(roots[..d + 1], roots[d + 1..n + l])
      ensures ok && shares == ShareValues(FIELD, roots, l, d, n, Defining(rand))
    {
      hide Res, PolyThrough, LagrangeSum, IsPrime, HIM.Filled;
      FieldPositive();
      ghost var def := Defining(rand);
      var yValues: seq<int> := [];
      for i := 0 to d + 1
        invariant yValues == def[..i]
      {
        if i < l && |secrets| > i {
          yValues := yValues + [secrets[i]];
        } else if i < l {
          yValues := yValues + [0];
        } else {
          yValues := yValues + [rand[i - l]];
        }
      }
      assert yValues == def;
      FilledSizes(packSS, roots[..d + 1], roots[d + 1..n + l]);
      assert packSS.cols == d + 1;
      var lastSharePts := packSS.MatrixMult(yValues, roots[..d + 1], roots[d + 1..n + l]);
      shares := yValues[l..] + lastSharePts;
      ok := |shares| == n;
      DefiningCanon(secrets, l, rand);
      NaiveShares(roots, l, d, n, def, lastSharePts);
    }

    /** Recovery by the matrix; surplus shares are compared with its lower rows. */
    method RecoverSS(allPoints: seq<int>, ghost roots: seq<int>) returns (r: Result<seq<int>>)
      requires IsPrime(FIELD) && 1 <= l <= d < n && d + 1 <= |allPoints| <= n
      requires DistinctRes(FIELD, roots) && n + l <= |roots| && Canon(FIELD, allPoints)
      requires recoverMTX.Filled(roots[l..l + d + 1], roots[..l] + roots[l + d + 1..n + l])
      modifies this`secrets
      ensures r == Recover(FIELD, roots, l, d, allPoints)
      ensures r.Success? ==> secrets == r.value
    {
      hide Res, PolyThrough, LagrangeSum, IsPrime, HIM.Filled;
      FieldPositive();
      var numPoints := |allPoints|;
      var samplePoints := allPoints[..d + 1];
      ghost var xs, beta := roots[l..l + d + 1], roots[..l] + roots[l + d + 1..n + l];
      FilledSizes(recoverMTX, xs, beta);
      var recoverPts := recoverMTX.MatrixMult(samplePoints, xs, beta);
      NaiveRecover(roots, l, d, n, samplePoints, recoverPts);
      for j := 0 to numPoints - (d + 1)
        invariant forall i :: d + 1 <= i < d + 1 + j ==>
          allPoints[i] == Res(FIELD, Eval(PolyThrough(FIELD, xs, samplePoints), roots[l + i]))
      {
        if recoverPts[l + j] != allPoints[1 + d + j] {
          ghost var next := d + 1 + j;
          assert recoverPts[l + j] == Res(FIELD, Eval(PolyThrough(FIELD, xs, samplePoints), roots[d + 1 + (l + j)]));
          assert allPoints[next] != Res(FIELD, Eval(PolyThrough(FIELD, xs, samplePoints), roots[l + next]));
          return Failure(WrongPoint);
        }
      }
      secrets := recoverPts[..l];
      return Success(secrets);
    }
  }

  lemma FilledSizes(h: HIM, alpha: seq<int>, beta: seq<int>)
    requires h.Filled(alpha, beta)
    ensures |alpha| == h.cols && |beta| == h.rows
  {
  }

  lemma DefiningCanon(secrets: seq<int>, l: nat, rand: seq<int>)
    requires Canon(FIELD, secrets) && Canon(FIELD, rand) && |secrets| <= l
    ensures Canon(FIELD, secrets + seq(l - |secrets|, _ => 0) + rand)
  {
  }

  lemma NaiveShares(roots: seq<int>, l: nat, d: nat, n: nat, def: seq<int>, last: seq<int>)
    requires IsPrime(FIELD) && 1 <= l <= d < n && DistinctRes(FIELD, roots) && n + l <= |roots|
    requires |def| == d + 1 && Canon(FIELD, def) && |last| == n + l - (d + 1)
    requires forall i :: 0 <= i < |last| ==>
      last[i] == Res(FIELD, LagrangeSum(FIELD, roots[..d + 1], def, roots[d + 1..n + l][i], d + 1))
    ensures def[l..] + last == ShareValues(FIELD, roots, l, d, n, def)
  {
    hide Res, PolyThrough, LagrangeSum, IsPrime, Eval;
    var all := ShareValues(FIELD, roots, l, d, n, def);
    SubDistinct(FIELD, roots, 0, d + 1);
    forall i | 0 <= i < n ensures (def[l..] + last)[i] == all[i] {
      if l + i <= d {
        SharesContainDefining(FIELD, roots, l, d, n, def, i);
      } else {
        assert roots[d + 1..n + l][i - (d + 1 - l)] == roots[l + i];
        LagrangeIsPolyThrough(roots[..d + 1], def, roots[l + i]);
      }
    }
  }

  lemma NaiveRecover(roots: seq<int>, l: nat, d: nat, n: nat, pts: seq<int>, values: seq<int>)
    requires IsPrime(FIELD) && 1 <= l <= d < n && DistinctRes(FIELD, roots) && n + l <= |roots|
    requires |pts| == d + 1 && |values| == n - 1 - d + l
    requires forall i :: 0 <= i < |values| ==>
      values[i] == Res(FIELD, LagrangeSum(FIELD, roots[l..l + d + 1], pts, (roots[..l] + roots[l + d + 1..n + l])[i], d + 1))
    ensures values[..l] == seq(l, i requires 0 <= i < l => Res(FIELD, Eval(PolyThrough(FIELD, roots[l..l + d + 1], pts), roots[i])))
    ensures forall i :: l <= i < |values| ==>
      values[i] == Res(FIELD, Eval(PolyThrough(FIELD, roots[l..l + d + 1], pts), roots[d + 1 + i]))
  {
    hide Res, PolyThrough, LagrangeSum, IsPrime, Eval;
    var xs, beta := roots[l..l + d + 1], roots[..l] + roots[l + d + 1..n + l];
    SubDistinct(FIELD, roots, l, l + d + 1);
    forall i | 0 <= i < |values| ensures values[i] == Res(FIELD, Eval(PolyThrough(FIELD, xs, pts), beta[i])) {
      LagrangeIsPolyThrough(xs, pts, beta[i]);
    }
    forall i | l <= i < |values|
      ensures values[i] == Res(FIELD, Eval(PolyThrough(FIELD, xs, pts), roots[d + 1 + i]))
    {
      assert beta[i] == roots[d + 1 + i];
    }
  }
}
