/** The fast scheme refines the simple one: both share alike and recover alike. */
module Refinement {
  import opened Modular
  import opened Fft
  import opened PackedSpec
  import opened Field14
  import opened PackedSS
  import opened NaivePSS

  /** The same n shares from the same d + 1 defining values, by transforms and by a matrix from the
      first d + 1 points to the other ones. Missing secrets are zeros. */
  method ShareBothWays(l: nat, d: nat, n: nat, secrets: seq<int>, rand: seq<int>) returns (fast: seq<int>, naive: seq<int>)
    requires IsPrime(FIELD) && 1 <= l <= d < n && CeilLog2(n + l) <= 10 && 2 * (d + 1) <= Pow2(CeilLog2(n + l))
    requires |secrets| <= l && |rand| == d + 1 - l && Canon(FIELD, secrets) && Canon(FIELD, rand)
    ensures |fast| == n && fast == naive
  {
    hide *;
    var missing := seq(l - |secrets|, _ => 0);
    var pss := new OptimizedPSS(l, d, n);
    var accepted := pss.SetSecrets(secrets);
    MissingCanon(l - |secrets|, rand);
    pss.ValidSizes();
    ghost var roots := pss.roots;
    var him := new HIM(n + l - (d + 1), d + 1);
    var filled := him.InitHIMByVectors(pss.roots[..d + 1], pss.roots[d + 1..n + l]);
    var mtx := new HIM(0, 0);
    var simple := new PackedSecretShare(l, d, n, mtx);
    var kept := simple.SetSecrets(secrets);
    var shared: bool;
    shared, naive := simple.SecretShareValues(him, rand, roots);
    simple.DefiningIs(rand);
    fast := pss.SecretShareValues(missing + rand);
    assert secrets + (missing + rand) == secrets + missing + rand;
    SharesLength(roots, l, d, n, secrets + missing + rand);
  }

  lemma MissingCanon(m: nat, rand: seq<int>)
    requires Canon(FIELD, rand)
    ensures Canon(FIELD, seq(m, _ => 0) + rand)
  {
  }

  lemma SharesLength(roots: seq<int>, l: nat, d: nat, n: nat, def: seq<int>)
    requires FIELD > 0 && |def| == d + 1 <= |roots| && l + n <= |roots|
    ensures |ShareValues(FIELD, roots, l, d, n, def)| == n
  {
    hide PolyThrough;
  }

  /** The same result, secrets or refusal, from the same d + 1 or more points. */
  method RecoverBothWays(l: nat, d: nat, n: nat, points: seq<int>)
    returns (fast: Result<seq<int>>, naive: Result<seq<int>>)
    requires IsPrime(FIELD) && 1 <= l <= d < n && CeilLog2(n + l) <= 10 && 2 * (l + d + 1) <= Pow2(CeilLog2(n + l))
    requires d + 1 <= |points| <= n && Canon(FIELD, points)
    ensures fast == naive
  {
    hide *;
    var pss := new OptimizedPSS(l, d, n);
    pss.ValidSizes();
    ghost var roots := pss.roots;
    var him := new HIM(n - 1 - d + l, d + 1);
    var filled := him.InitHIMByVectors(pss.roots[l..l + d + 1], pss.roots[..l] + pss.roots[l + d + 1..n + l]);
    var simple := new PackedSecretShare(l, d, n, him);
    naive := simple.RecoverSS(points, roots);
    var samples := new FieldVector(points);
    fast := pss.RecoverSS(samples);
  }
}
