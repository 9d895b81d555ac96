/** The parties of a run: dealing with agreed randomness, double random sharings, and the
    multiplication of sharings by degree reduction. The first party is the king. */
module DegreeReduction {
  import opened Modular
  import opened Poly
  import opened Gfp
  import opened Shamir

  /** A dealer's secret and the values all parties draw from the common generator. */
  datatype Draw = Draw(secret: nat, prngT: seq<nat>, prng2T: seq<nat>)

  ghost predicate DrawOk(d: Draw, t: nat) {
    Scalar(d.secret) && |d.prngT| == t && Row(d.prngT) && |d.prng2T| == 2 * t && Row(d.prng2T)
  }

  ghost predicate DrawsOk(row: seq<Draw>, size: nat, t: nat) {
    |row| == size && forall j :: 0 <= j < size ==> DrawOk(row[j], t)
  }

  /** All n parties' shares of one draw of a dealer: the values of its polynomial of degree t or 2t. */
  ghost function DealtShares(d: Draw, dealer: nat, n: nat, double: bool): (s: seq<nat>)
    requires dealer <= |d.prng2T|
    ensures |s| == n
  {
    seq(n, k requires 0 <= k => At(if double then DoublePoly(dealer, d.secret, d.prng2T) else TPoly(d.secret, d.prngT), k + 1))
  }

  /** Entry q of every party's queue. */
  function Column(queues: seq<seq<nat>>, q: nat): (s: seq<nat>)
    ensures |s| == |queues|
  {
    seq(|queues|, p requires 0 <= p => ShareOf(queues, p, q))
  }

  /** Entries 2q and 2q + 1 share the number with degrees t and 2t. */
  ghost predicate PairHolds(queues: seq<seq<nat>>, t: nat, q: nat, secret: int) {
    IsSharing(Column(queues, 2 * q), secret, t) && IsSharing(Column(queues, 2 * q + 1), secret, 2 * t)
  }

  ghost predicate PairOk(queues: seq<seq<nat>>, t: nat, q: nat) {
    exists secret: int :: PairHolds(queues, t, q, secret)
  }

  ghost predicate QueuesOk(queues: seq<seq<nat>>, t: nat, pairs: nat) {
    && |queues| == 2 * t + 1 && (forall p :: 0 <= p < |queues| ==> |queues[p]| == 2 * pairs)
    && forall q :: 0 <= q < pairs ==> PairOk(queues, t, q)
  }

  /** The point of row i of the table for degree t: t + 2, ..., 2t + 1, 1. */
  function RowPoint(t: nat, i: nat): nat {
    if i < t then t + 2 + i else 1
  }

  class ShareBase {
    const nPlayers: nat
    const threshold: nat
    var vandermondeT: seq<seq<nat>>
    var vandermonde2T: seq<seq<nat>>
    var vandermondeNT: seq<seq<nat>>
    var reconstructionVectorT: seq<nat>
    var reconstructionVector2T: seq<nat>
    var reconstructionWithSecret2T: seq<seq<nat>>
    var reconstructionWithSecretT: seq<seq<nat>>

    ghost predicate Valid()
      reads this
    {
      && IsPrime(PR) && nPlayers == 2 * threshold + 1 < PR
      && IsVandermonde(vandermondeT, nPlayers, threshold)
      && IsVandermonde(vandermonde2T, nPlayers, 2 * threshold)
      && IsVandermonde(vandermondeNT, nPlayers, nPlayers - threshold)
      && IsWeights(reconstructionVectorT, PartyPoints(threshold + 1), 0)
      && IsWeights(reconstructionVector2T, PartyPoints(2 * threshold + 1), 0)
      && |reconstructionWithSecret2T| == nPlayers
      && (forall i :: 0 <= i < nPlayers ==> IsWeights(reconstructionWithSecret2T[i], Without(i + 1, nPlayers), i + 1))
      && |reconstructionWithSecretT| == threshold + 1
      && (forall i :: 0 <= i <= threshold ==>
            IsWeights(reconstructionWithSecretT[i], Without(1, threshold + 1), RowPoint(threshold, i)))
    }

    constructor InitiateProtocol(n: nat, t: nat)
      requires IsPrime(PR) && n == 2 * t + 1 < PR
      ensures Valid() && nPlayers == n && threshold == t
    {
      hide IsWeights, IsVandermonde, IsPrime;
      nPlayers, threshold := n, t;
      new;
      vandermondeT := GetVandermonde(n, t);
      vandermonde2T := GetVandermonde(n, 2 * t);
      vandermondeNT := GetVandermonde(n, n - t);
      reconstructionVectorT := GetReconstructionVector(0, t);
      reconstructionVector2T := GetReconstructionVector(0, 2 * t);
      reconstructionWithSecret2T := InitWithSecret2T(n, t);
      reconstructionWithSecretT := InitWithSecretT(t);
    }

    /** Row i rebuilds the share of party i from the secret and all other shares. */
    static method InitWithSecret2T(n: nat, t: nat) returns (rows: seq<seq<nat>>)
      requires IsPrime(PR) && n == 2 * t + 1 < PR
      ensures |rows| == n && forall i :: 0 <= i < n ==> IsWeights(rows[i], Without(i + 1, n), i + 1)
    {
      hide IsWeights, IsPrime;
      rows := [];
      for i := 0 to n
        invariant |rows| == i && forall k :: 0 <= k < i ==> IsWeights(rows[k], Without(k + 1, n), k + 1)
      {
        var row := GetReconstructionVectorWithSecret(i + 1, i + 1, 2 * t);
        rows := rows + [row];
      }
    }

    /** From the secret and the shares at 2, ..., t + 1: the shares at t + 2, ..., 2t + 1, then at 1. */
    static method InitWithSecretT(t: nat) returns (rows: seq<seq<nat>>)
      requires IsPrime(PR) && 2 * t + 1 < PR
      ensures |rows| == t + 1 && forall i :: 0 <= i <= t ==> IsWeights(rows[i], Without(1, t + 1), RowPoint(t, i))
    {
      hide IsWeights, IsPrime;
      rows := [];
      for i := 0 to t
        invariant |rows| == i && forall k :: 0 <= k < i ==> IsWeights(rows[k], Without(1, t + 1), RowPoint(t, k))
      {
        var row := GetReconstructionVectorWithSecret(1, t + 2 + i, t);
        rows := rows + [row];
      }
      var last := GetReconstructionVectorWithSecret(1, 1, t);
      rows := rows + [last];
    }

    // -------------------------------------------------------------- sharing and reconstruction

    /** The Vandermonde sharing of a secret. */
    method CalculateSharing(secret: nat, degree: nat, randomCoeffs: seq<nat>) returns (sharing: seq<nat>)
      requires Valid() && Scalar(secret) && Row(randomCoeffs)
      requires (degree == threshold || degree == 2 * threshold) && |randomCoeffs| == degree
      ensures |sharing| == nPlayers && IsSharing(sharing, secret, degree)
      ensures forall k :: 0 <= k < nPlayers ==> sharing[k] == At([secret] + randomCoeffs, k + 1)
    {
      hide IsWeights, IsPrime, DotSum, Res, At;
      var vandermonde := if degree == threshold then vandermondeT else vandermonde2T;
      sharing := [];
      for i := 0 to nPlayers
        invariant |sharing| == i && forall k :: 0 <= k < i ==> sharing[k] == At([secret] + randomCoeffs, k + 1)
      {
        PowerRow(vandermonde, nPlayers, degree, i);
        var d := Dot(vandermonde[i], randomCoeffs);
        PowersEval(vandermonde[i], i + 1, secret, randomCoeffs);
        sharing := sharing + [AddMod(d, secret)];
      }
      SecretAtZero(secret, randomCoeffs);
      assert Carries([secret] + randomCoeffs, sharing, secret);
    }

    /** The king's reconstruction from the first degree + 1 shares. */
    method CalculateSecret(degree: nat, sharing: seq<nat>) returns (secret: nat)
      requires Valid() && (degree == threshold || degree == 2 * threshold) && |sharing| == nPlayers && Row(sharing)
      ensures Scalar(secret)
      ensures forall x: int :: IsSharing(sharing, x, degree) ==> PR > 0 && secret == Res(PR, x)
    {
      hide IsWeights, IsVandermonde, IsPrime, DotSum, Res, IsSharing;
      var reconstruction := if degree == threshold then reconstructionVectorT else reconstructionVector2T;
      WeightsLength(reconstruction, PartyPoints(degree + 1), 0);
      secret := Dot(reconstruction, sharing[..degree + 1]);
      forall x: int | IsSharing(sharing, x, degree) ensures PR > 0 && secret == Res(PR, x) {
        Recovered(reconstruction, sharing, x, degree);
      }
    }

    // -------------------------------------------------------------- dealing with agreed randomness

    /** The dealer's part for degree t: its own share and what it sends to the parties after the
        first t + 1, in turn, with the king last. */
    method DistributeT(me: nat, secret: nat, prng: seq<nat>) returns (share: nat, os: seq<nat>)
      requires Valid() && me < nPlayers && Scalar(secret) && |prng| == threshold && Row(prng)
      ensures share == At(TPoly(secret, prng), me + 1)
      ensures |os| == threshold + 1 && forall i :: 0 <= i <= threshold ==> os[i] == At(TPoly(secret, prng), RowPoint(threshold, i))
    {
      hide IsWeights, IsVandermonde, IsPrime, DotSum, At, TPoly, Weighed;
      TPolyValues(secret, prng);
      var material := [secret] + prng;
      os := [];
      for i := 0 to threshold + 1
        invariant |os| == i && forall k :: 0 <= k < i ==> os[k] == At(TPoly(secret, prng), RowPoint(threshold, k))
      {
        WeightsLength(reconstructionWithSecretT[i], Without(1, threshold + 1), RowPoint(threshold, i));
        var d := Dot(reconstructionWithSecretT[i], material);
        WeighedIs(reconstructionWithSecretT[i], material, d);
        os := os + [d];
      }
      if me >= 1 && me <= threshold {
        share := prng[me - 1];
      } else if me == 0 {
        share := os[threshold];
      } else {
        share := os[me - threshold - 1];
      }
    }

    /** Another party's part for degree t. */
    method GetT(me: nat, prng: seq<nat>, received: nat) returns (share: nat)
      requires |prng| == threshold
      ensures share == if 1 <= me <= threshold then prng[me - 1] else received
    {
      if me >= 1 && me <= threshold {
        share := prng[me - 1];
      } else {
        share := received;
      }
    }

    /** The dealer's part for degree 2t: nothing is sent. */
    method Distribute2T(me: nat, secret: nat, prng: seq<nat>) returns (share: nat)
      requires Valid() && me < nPlayers && Scalar(secret) && |prng| == 2 * threshold && Row(prng)
      ensures share == At(DoublePoly(me, secret, prng), me + 1)
    {
      hide IsWeights, IsVandermonde, IsPrime, DotSum, At, DoublePoly, Weighed;
      DoublePolyValues(me, secret, prng);
      var material := [secret] + prng;
      WeightsLength(reconstructionWithSecret2T[me], Without(me + 1, nPlayers), me + 1);
      share := Dot(reconstructionWithSecret2T[me], material);
      WeighedIs(reconstructionWithSecret2T[me], material, share);
    }

    /** Another party's part for degree 2t. */
    method Get2T(me: nat, playerNo: nat, prng: seq<nat>) returns (share: nat)
      requires me < nPlayers && me != playerNo && nPlayers == |prng| + 1 && playerNo < nPlayers
      ensures share == if me > playerNo then prng[me - 1] else prng[me]
    {
      if me > playerNo {
        share := prng[me - 1];
      } else {
        share := prng[me];
      }
    }

    /** Another party's shares, when the (t + 1 + i)-th party, modulo n, is sent message i. */
    method Receive(me: nat, playerNo: nat, d: Draw, os: seq<nat>) returns (share: nat, aux: nat)
      requires Valid() && me < nPlayers && playerNo < nPlayers && me != playerNo && DrawOk(d, threshold)
      requires |os| == threshold + 1 && forall i :: 0 <= i <= threshold ==> os[i] == At(TPoly(d.secret, d.prngT), RowPoint(threshold, i))
      ensures share == At(TPoly(d.secret, d.prngT), me + 1)
      ensures aux == At(DoublePoly(playerNo, d.secret, d.prng2T), me + 1)
    {
      hide IsWeights, IsVandermonde, IsPrime, At, TPoly, DoublePoly, Weighed, Res;
      TPolyValues(d.secret, d.prngT);
      DoublePolyValues(playerNo, d.secret, d.prng2T);
      var i := (me + nPlayers - threshold - 1) % nPlayers;
      MessageIndex(me, threshold, i);
      share := GetT(me, d.prngT, if i <= threshold then os[i] else 0);
      aux := Get2T(me, playerNo, d.prng2T);
    }

    /** All parties' shares when one of them deals a random secret with both degrees. */
    method InputFromRandomPRG(playerNo: nat, d: Draw) returns (shares: seq<nat>, auxShares: seq<nat>)
      requires Valid() && playerNo < nPlayers && DrawOk(d, threshold)
      ensures |shares| == |auxShares| == nPlayers
      ensures IsSharing(shares, d.secret, threshold) && IsSharing(auxShares, d.secret, 2 * threshold)
      ensures shares == DealtShares(d, playerNo, nPlayers, false) && auxShares == DealtShares(d, playerNo, nPlayers, true)
      ensures forall k :: 1 <= k <= threshold ==> shares[k] == d.prngT[k - 1]
      ensures forall k :: 0 <= k < nPlayers && k != playerNo ==> auxShares[k] == d.prng2T[if k < playerNo then k else k - 1]
    {
      hide IsWeights, IsVandermonde, IsPrime, At, TPoly, DoublePoly, Weighed, Res, IsSharing, DealtShares, RowPoint;
      var own, os := DistributeT(playerNo, d.secret, d.prngT);
      var ownAux := Distribute2T(playerNo, d.secret, d.prng2T);
      shares, auxShares := [], [];
      for me := 0 to nPlayers
        invariant |shares| == |auxShares| == me
        invariant forall k :: 0 <= k < me ==> shares[k] == At(TPoly(d.secret, d.prngT), k + 1)
        invariant forall k :: 0 <= k < me ==> auxShares[k] == At(DoublePoly(playerNo, d.secret, d.prng2T), k + 1)
      {
        var share, aux := own, ownAux;
        if me != playerNo {
          share, aux := Receive(me, playerNo, d, os);
        }
        shares, auxShares := shares + [share], auxShares + [aux];
      }
      Complete(d, playerNo, shares, auxShares);
    }

    lemma Complete(d: Draw, playerNo: nat, shares: seq<nat>, auxShares: seq<nat>)
      requires Valid() && playerNo < nPlayers && DrawOk(d, threshold) && |shares| == |auxShares| == nPlayers
      requires forall k :: 0 <= k < nPlayers ==> shares[k] == At(TPoly(d.secret, d.prngT), k + 1)
      requires forall k :: 0 <= k < nPlayers ==> auxShares[k] == At(DoublePoly(playerNo, d.secret, d.prng2T), k + 1)
      ensures IsSharing(shares, d.secret, threshold) && IsSharing(auxShares, d.secret, 2 * threshold)
      ensures shares == DealtShares(d, playerNo, nPlayers, false) && auxShares == DealtShares(d, playerNo, nPlayers, true)
      ensures forall k :: 1 <= k <= threshold ==> shares[k] == d.prngT[k - 1]
      ensures forall k :: 0 <= k < nPlayers && k != playerNo ==> auxShares[k] == d.prng2T[if k < playerNo then k else k - 1]
    {
      hide IsWeights, IsVandermonde, IsPrime, At, TPoly, DoublePoly, Weighed, Res, IsSharing, DealtShares;
      Agreed(d, playerNo, shares, auxShares, threshold);
      TPolyValues(d.secret, d.prngT);
      DoublePolyValues(playerNo, d.secret, d.prng2T);
      SharingFrom(TPoly(d.secret, d.prngT), shares, d.secret);
      SharingFrom(DoublePoly(playerNo, d.secret, d.prng2T), auxShares, d.secret);
    }
  }

  /** The agreed values are the shares of the parties that the dealer need not write to. */
  lemma Agreed(d: Draw, playerNo: nat, shares: seq<nat>, auxShares: seq<nat>, t: nat)
    requires IsPrime(PR) && DrawOk(d, t) && playerNo < 2 * t + 1 < PR && |shares| == |auxShares| == 2 * t + 1
    requires forall k :: 0 <= k < |shares| ==> shares[k] == At(TPoly(d.secret, d.prngT), k + 1)
    requires forall k :: 0 <= k < |auxShares| ==> auxShares[k] == At(DoublePoly(playerNo, d.secret, d.prng2T), k + 1)
    ensures shares == DealtShares(d, playerNo, 2 * t + 1, false) && auxShares == DealtShares(d, playerNo, 2 * t + 1, true)
    ensures forall k :: 1 <= k <= t ==> shares[k] == d.prngT[k - 1]
    ensures forall k :: 0 <= k < 2 * t + 1 && k != playerNo ==> auxShares[k] == d.prng2T[if k < playerNo then k else k - 1]
  {
    hide IsPrime, At, TPoly, DoublePoly, IsWeights, Weighed;
    TPolyValues(d.secret, d.prngT);
    DoublePolyValues(playerNo, d.secret, d.prng2T);
    forall k | 1 <= k <= t ensures shares[k] == d.prngT[k - 1] {
      assert d.prngT[k - 1] == At(TPoly(d.secret, d.prngT), (k - 1) + 2);
    }
    forall k | 0 <= k < 2 * t + 1 && k != playerNo ensures auxShares[k] == d.prng2T[if k < playerNo then k else k - 1] {
      var q := if k < playerNo then k else k - 1;
      assert d.prng2T[q] == At(DoublePoly(playerNo, d.secret, d.prng2T), if q < playerNo then q + 1 else q + 2);
    }
  }

  lemma MessageIndex(me: nat, t: nat, i: nat)
    requires me <= 2 * t && i == (me + t) % (2 * t + 1)
    ensures i == if me > t then me - t - 1 else me + t
    ensures i <= t <==> me == 0 || me > t
  {
    if me > t {
      assert me + t == (2 * t + 1) + (me - t - 1);
    }
  }

  lemma SharingFrom(c: seq<int>, shares: seq<nat>, secret: nat)
    requires |c| > 0 && Scalar(secret) && At(c, 0) == secret && forall k :: 0 <= k < |shares| ==> shares[k] == At(c, k + 1)
    ensures IsSharing(shares, secret, |c| - 1)
  {
    hide Res, At;
    PrimeField();
    ResSmall(PR, secret);
    assert Carries(c, shares, secret);
  }

  lemma WeighedIs(w: seq<nat>, s: seq<nat>, d: nat)
    requires |w| == |s| && PR > 0 && d == Res(PR, DotSum(w, s, |w|))
    ensures d == Weighed(w, s)
  {
  }

  lemma PowerRow(v: seq<seq<nat>>, xSize: nat, ySize: nat, i: nat)
    requires IsVandermonde(v, xSize, ySize) && i < xSize
    ensures |v[i]| == ySize && Row(v[i])
    ensures forall j :: 0 <= j < ySize ==> v[i][j] == Res(PR, Pow(i + 1, j + 1))
  {
    hide Res, Pow;
  }

  /** The constant and the weighted powers make up the polynomial's value. */
  lemma PowersEval(row: seq<nat>, x: nat, secret: nat, coeffs: seq<nat>)
    requires |row| == |coeffs| && Scalar(secret) && PR > 0
    requires forall j :: 0 <= j < |row| ==> row[j] == Res(PR, Pow(x, j + 1))
    ensures AddMod(Res(PR, DotSum(row, coeffs, |row|)), secret) == At([secret] + coeffs, x)
  {
    hide Res, Pow, DotSum, Eval;
    PowersSum(row, x, secret, coeffs, |row|);
    assert coeffs[..|row|] == coeffs;
    ResSmall(PR, secret);
    ResReduced(PR, DotSum(row, coeffs, |row|), secret);
    var v := Eval([secret] + coeffs, x);
    ResOps(PR, DotSum(row, coeffs, |row|), secret, v - secret, secret);
  }

  lemma {:induction false} PowersSum(row: seq<nat>, x: nat, secret: nat, coeffs: seq<nat>, m: nat)
    requires |row| == |coeffs| && m <= |row| && PR > 0
    requires forall j :: 0 <= j < |row| ==> row[j] == Res(PR, Pow(x, j + 1))
    ensures Res(PR, DotSum(row, coeffs, m)) == Res(PR, Eval([secret] + coeffs[..m], x) - secret)
  {
    hide Res, Pow, Eval;
    if m == 0 {
      assert [secret] + coeffs[..0] == [secret];
      Constant(secret, x);
    } else {
      PowersSum(row, x, secret, coeffs, m - 1);
      var c := [secret] + coeffs[..m - 1];
      assert [secret] + coeffs[..m] == c + [coeffs[m - 1]];
      EvalConcat(c, [coeffs[m - 1]], x);
      Constant(coeffs[m - 1], x);
      ResRes(PR, Pow(x, m));
      ResMul(PR, row[m - 1], coeffs[m - 1], Pow(x, m));
      ResOps(PR, DotSum(row, coeffs, m - 1), row[m - 1] * coeffs[m - 1], Eval(c, x) - secret, Pow(x, m) * coeffs[m - 1]);
    }
  }

  lemma SecretAtZero(secret: nat, coeffs: seq<nat>)
    requires Scalar(secret)
    ensures PR > 0 && At([secret] + coeffs, 0) == Res(PR, secret)
  {
    hide Res;
    assert Eval([secret] + coeffs, 0) == secret + 0 * Eval(([secret] + coeffs)[1..], 0);
  }

  lemma Recovered(w: seq<nat>, sharing: seq<nat>, x: int, degree: nat)
    requires IsPrime(PR) && degree + 1 <= |sharing| < PR && IsSharing(sharing, x, degree)
    requires IsWeights(w, PartyPoints(degree + 1), 0)
    ensures |w| == degree + 1 && Res(PR, DotSum(w, sharing[..degree + 1], |w|)) == Res(PR, x)
  {
    hide Res, Eval, IsPrime, DotSum;
    WeightsLength(w, PartyPoints(degree + 1), 0);
    PointsOf(degree + 1, 0);
    var c: seq<int> :| |c| == degree + 1 && Carries(c, sharing, x);
    WeightsExact(w, PartyPoints(degree + 1), sharing[..degree + 1], c, 0);
  }

  // ---------------------------------------------------------------- double random sharings

  lemma SharingRow(s: seq<nat>, x: int, degree: nat)
    requires IsSharing(s, x, degree)
    ensures Row(s)
  {
    hide At;
  }

  /** Column i of the matrix. */
  function MatrixColumn(v: seq<seq<nat>>, i: nat): (c: seq<nat>)
    ensures |c| == |v|
  {
    seq(|v|, r requires 0 <= r => ShareOf(v, r, i))
  }

  /** The sharings at position j of every dealer's row. */
  function Across(crude: seq<seq<seq<nat>>>, j: nat): (d: seq<seq<nat>>)
    ensures |d| == |crude|
  {
    seq(|crude|, i requires 0 <= i < |crude| => if j < |crude[i]| then crude[i][j] else [])
  }

  function SecretsAcross(draws: seq<seq<Draw>>, j: nat): (d: seq<nat>)
    ensures |d| == |draws|
  {
    seq(|draws|, i requires 0 <= i < |draws| => if j < |draws[i]| then draws[i][j].secret else 0)
  }

  /** Every dealer dealt a row of sharings of its secrets. */
  ghost predicate Dealt(crude: seq<seq<seq<nat>>>, draws: seq<seq<Draw>>, n: nat, size: nat, degree: nat) {
    |crude| <= |draws| && forall i :: 0 <= i < |crude| ==> DealtRow(crude[i], draws[i], n, size, degree)
  }

  ghost predicate DealtRow(row: seq<seq<nat>>, draws: seq<Draw>, n: nat, size: nat, degree: nat) {
    |row| == size <= |draws| && forall j :: 0 <= j < size ==> |row[j]| == n && IsSharing(row[j], draws[j].secret, degree)
  }

  /** The exact sharings that every dealer's draws prescribe. */
  ghost predicate DealtAs(crude: seq<seq<seq<nat>>>, draws: seq<seq<Draw>>, n: nat, size: nat, double: bool) {
    |crude| <= |draws| && forall i :: 0 <= i < |crude| ==> DealtRowAs(crude[i], draws[i], i, n, size, double)
  }

  ghost predicate DealtRowAs(row: seq<seq<nat>>, draws: seq<Draw>, dealer: nat, n: nat, size: nat, double: bool) {
    |row| == size <= |draws|
    && forall j :: 0 <= j < size ==> dealer <= |draws[j].prng2T| && row[j] == DealtShares(draws[j], dealer, n, double)
  }

  /** Party p's shares of the j-th draw of every dealer. */
  ghost function SharesAcross(draws: seq<seq<Draw>>, j: nat, p: nat, n: nat, double: bool): (r: seq<nat>)
    ensures |r| == |draws|
  {
    seq(|draws|, i requires 0 <= i < |draws| =>
      if j < |draws[i]| && i <= |draws[i][j].prng2T| && p < n then DealtShares(draws[i][j], i, n, double)[p] else 0)
  }

  /** 1^e s[0] + 2^e s[1] + ... over the first m entries. */
  ghost function PowerSum(s: seq<nat>, e: nat, m: nat): int
    requires m <= |s|
  {
    if m == 0 then 0 else PowerSum(s, e, m - 1) + Pow(m, e) * s[m - 1]
  }

  /** Pair at is made of the j-th draw of every dealer r, weighted with r^e: so are its number and all its shares. */
  ghost predicate Generated(queues: seq<seq<nat>>, draws: seq<seq<Draw>>, t: nat, at: nat, e: nat, j: nat) {
    var n := |draws|;
    && PairHolds(queues, t, at, PowerSum(SecretsAcross(draws, j), e, n))
    && forall p :: 0 <= p < n ==>
      && ShareOf(queues, p, 2 * at) == ResPR(PowerSum(SharesAcross(draws, j, p, n, false), e, n))
      && ShareOf(queues, p, 2 * at + 1) == ResPR(PowerSum(SharesAcross(draws, j, p, n, true), e, n))
  }

  /** The pairs from the given one on: for every row i of the matrix the pairs of all draws, weighted with r^(i + 1). */
  ghost predicate AllGenerated(queues: seq<seq<nat>>, draws: seq<seq<Draw>>, t: nat, pairs: nat, size: nat) {
    forall i: nat, j: nat :: i <= t && j < size ==> GeneratedAt(queues, draws, t, pairs, size, i, j)
  }

  ghost predicate GeneratedAt(queues: seq<seq<nat>>, draws: seq<seq<Draw>>, t: nat, pairs: nat, size: nat, i: nat, j: nat) {
    Generated(queues, draws, t, pairs + i * size + j, i + 1, j)
  }

  /** The same for the q-th new pair. */
  ghost predicate NewGenerated(queues: seq<seq<nat>>, draws: seq<seq<Draw>>, t: nat, pairs: nat, size: nat, q: nat)
    requires size > 0
  {
    Generated(queues, draws, t, pairs + q, q / size + 1, q % size)
  }

  lemma EveryPair(queues: seq<seq<nat>>, draws: seq<seq<Draw>>, t: nat, pairs: nat, size: nat)
    requires size > 0
    requires forall q: nat :: q < (t + 1) * size ==> NewGenerated(queues, draws, t, pairs, size, q)
    ensures AllGenerated(queues, draws, t, pairs, size)
  {
    hide Generated;
    forall i: nat, j: nat | i <= t && j < size ensures GeneratedAt(queues, draws, t, pairs, size, i, j) {
      PairNumber(i, j, size, i * size + j);
      PairInside(i, j, size, t);
      assert NewGenerated(queues, draws, t, pairs, size, i * size + j);
    }
  }

  ghost function ResPR(x: int): nat {
    PrimeField();
    Res(PR, x)
  }

  /** Weighting with a column of the Vandermonde matrix. */
  lemma {:induction false} ColumnSum(w: seq<nat>, s: seq<nat>, e: nat, m: nat)
    requires m <= |w| && m <= |s| && PR > 0 && forall r :: 0 <= r < m ==> w[r] == Res(PR, Pow(r + 1, e))
    ensures Res(PR, DotSum(w, s, m)) == Res(PR, PowerSum(s, e, m))
  {
    hide Res, Pow;
    if m > 0 {
      ColumnSum(w, s, e, m - 1);
      ResRes(PR, Pow(m, e));
      ResMul(PR, w[m - 1], s[m - 1], Pow(m, e));
      ResOps(PR, DotSum(w, s, m - 1), w[m - 1] * s[m - 1], PowerSum(s, e, m - 1), Pow(m, e) * s[m - 1]);
    }
  }

  lemma ColumnIs(v: seq<seq<nat>>, n: nat, ySize: nat, i: nat)
    requires IsVandermonde(v, n, ySize) && i < ySize && PR > 0
    ensures |v| == n && forall r :: 0 <= r < n ==> MatrixColumn(v, i)[r] == Res(PR, Pow(r + 1, i + 1))
  {
    hide Res, Pow, IsVandermonde;
    VandermondeSize(v, n, ySize);
    forall r | 0 <= r < n ensures MatrixColumn(v, i)[r] == Res(PR, Pow(r + 1, i + 1)) {
      PowerRow(v, n, ySize, r);
    }
  }

  lemma ReceivedAcross(crude: seq<seq<seq<nat>>>, draws: seq<seq<Draw>>, n: nat, size: nat, double: bool, j: nat, p: nat)
    requires DealtAs(crude, draws, n, size, double) && |crude| == |draws| && j < size && p < n
    ensures Received(Across(crude, j), p) == SharesAcross(draws, j, p, n, double)
  {
    hide DealtShares;
    var a, b := Received(Across(crude, j), p), SharesAcross(draws, j, p, n, double);
    forall i | 0 <= i < |draws| ensures a[i] == b[i] {
      assert DealtRowAs(crude[i], draws[i], i, n, size, double);
    }
  }

  /** What a party appends to its queue for pair q: its shares of the q-th extracted number. */
  ghost predicate PushedPair(pushed: seq<nat>, v: seq<seq<nat>>, crude: seq<seq<seq<nat>>>, aux: seq<seq<seq<nat>>>,
                             size: nat, party: nat, q: nat)
    requires size > 0 && |v| == |crude| == |aux| && 2 * q + 1 < |pushed|
  {
    && pushed[2 * q] == MixedShare(MatrixColumn(v, q / size), Across(crude, q % size), |v|, party)
    && pushed[2 * q + 1] == MixedShare(MatrixColumn(v, q / size), Across(aux, q % size), |v|, party)
  }

  class DoubleRandom {
    const players: ShareBase
    var queueReducedRandom: seq<seq<nat>>

    ghost predicate Valid()
      reads this, players
    {
      players.Valid() && |queueReducedRandom| == players.nPlayers && QueuesOk(queueReducedRandom, players.threshold, Pairs())
    }

    /** The pairs in store. */
    function Pairs(): nat
      reads this
    {
      if |queueReducedRandom| == 0 then 0 else |queueReducedRandom[0]| / 2
    }

    constructor (p: ShareBase)
      requires p.Valid()
      ensures Valid() && players == p && Pairs() == 0
    {
      players := p;
      queueReducedRandom := seq(p.nPlayers, _ => []);
    }

    /** Every party deals; the products with the Vandermonde matrix are queued by every party. */
    method GenerateReducedRandomSharingsPRG(bundleSize: nat, draws: seq<seq<Draw>>)
      requires Valid() && bundleSize > 0 && |draws| == players.nPlayers
      requires forall i :: 0 <= i < |draws| ==> DrawsOk(draws[i], bundleSize, players.threshold)
      modifies this
      ensures Valid() && Pairs() == old(Pairs()) + (players.threshold + 1) * bundleSize
      ensures forall p :: 0 <= p < players.nPlayers ==> old(queueReducedRandom)[p] <= queueReducedRandom[p]
      ensures forall q, x :: 0 <= q < old(Pairs()) && PairHolds(old(queueReducedRandom), players.threshold, q, x) ==>
        PairHolds(queueReducedRandom, players.threshold, q, x)
      ensures AllGenerated(queueReducedRandom, draws, players.threshold, old(Pairs()), bundleSize)
    {
      hide *;
      var crude, aux := DealAll(bundleSize, draws);
      ghost var was, pairs := queueReducedRandom, Pairs();
      ValidParts();
      var queues := ExtractAll(bundleSize, crude, aux, draws);
      GrownQueues(was, queues, crude, aux, draws, bundleSize, pairs, (players.threshold + 1) * bundleSize);
      queueReducedRandom := queues;
      Refilled(queues, pairs + (players.threshold + 1) * bundleSize);
      EveryPair(queues, draws, players.threshold, pairs, bundleSize);
    }

    lemma ValidParts()
      requires Valid()
      ensures players.Valid() && |queueReducedRandom| == players.nPlayers && QueuesOk(queueReducedRandom, players.threshold, Pairs())
    {
    }

    lemma Refilled(queues: seq<seq<nat>>, pairs: nat)
      requires players.Valid() && queueReducedRandom == queues && |queues| == players.nPlayers && QueuesOk(queues, players.threshold, pairs)
      ensures Valid() && Pairs() == pairs
    {
      hide PairOk;
    }

    /** Every party's queue after its products have been appended. */
    method ExtractAll(bundleSize: nat, crude: seq<seq<seq<nat>>>, aux: seq<seq<seq<nat>>>, ghost draws: seq<seq<Draw>>)
      returns (queues: seq<seq<nat>>)
      requires Valid() && bundleSize > 0 && |crude| == |aux| == |draws| == players.nPlayers
      requires Dealt(crude, draws, players.nPlayers, bundleSize, players.threshold)
      requires Dealt(aux, draws, players.nPlayers, bundleSize, 2 * players.threshold)
      ensures |queues| == players.nPlayers == |queueReducedRandom|
      ensures forall k :: 0 <= k < |queues| ==> QueueGrown(queueReducedRandom[k], queues[k], crude, aux, bundleSize, k, Pairs())
    {
      hide IsSharing, DealtRow, IsVandermonde, IsWeights, IsPrime, PushedPair, PairOk, QueueGrown;
      queues := [];
      for party := 0 to players.nPlayers
        invariant |queues| == party
        invariant forall k :: 0 <= k < party ==> QueueGrown(queueReducedRandom[k], queues[k], crude, aux, bundleSize, k, Pairs())
      {
        var pushed := Extract(party, bundleSize, crude, aux, draws);
        queues := queues + [queueReducedRandom[party] + pushed];
        Grown(queueReducedRandom[party], pushed, crude, aux, bundleSize, party, Pairs());
      }
    }

    ghost predicate QueueGrown(was: seq<nat>, queue: seq<nat>, crude: seq<seq<seq<nat>>>, aux: seq<seq<seq<nat>>>,
                               size: nat, party: nat, pairs: nat)
      reads players
    {
      && |was| == 2 * pairs && |queue| == 2 * (pairs + (players.threshold + 1) * size) && queue[..2 * pairs] == was
      && size > 0 && |players.vandermondeNT| == |crude| == |aux|
      && forall q :: 0 <= q < (players.threshold + 1) * size ==>
        PushedPair(queue[2 * pairs..], players.vandermondeNT, crude, aux, size, party, q)
    }

    lemma Grown(was: seq<nat>, pushed: seq<nat>, crude: seq<seq<seq<nat>>>, aux: seq<seq<seq<nat>>>, size: nat, party: nat, pairs: nat)
      requires |was| == 2 * pairs && |pushed| == 2 * ((players.threshold + 1) * size)
      requires size > 0 && |players.vandermondeNT| == |crude| == |aux|
      requires forall q :: 0 <= q < (players.threshold + 1) * size ==>
        PushedPair(pushed, players.vandermondeNT, crude, aux, size, party, q)
      ensures QueueGrown(was, was + pushed, crude, aux, size, party, pairs)
    {
      hide PushedPair;
      assert (was + pushed)[2 * pairs..] == pushed;
    }

    lemma GrownQueues(was: seq<seq<nat>>, queues: seq<seq<nat>>, crude: seq<seq<seq<nat>>>, aux: seq<seq<seq<nat>>>,
                      draws: seq<seq<Draw>>, size: nat, pairs: nat, count: nat)
      requires players.Valid() && QueuesOk(was, players.threshold, pairs) && |queues| == players.nPlayers == |was| && size > 0
      requires count == (players.threshold + 1) * size
      requires |crude| == |aux| == |draws| == players.nPlayers
      requires Dealt(crude, draws, players.nPlayers, size, players.threshold)
      requires Dealt(aux, draws, players.nPlayers, size, 2 * players.threshold)
      requires DealtAs(crude, draws, players.nPlayers, size, false) && DealtAs(aux, draws, players.nPlayers, size, true)
      requires forall k :: 0 <= k < |queues| ==> QueueGrown(was[k], queues[k], crude, aux, size, k, pairs)
      ensures QueuesOk(queues, players.threshold, pairs + count)
      ensures forall p :: 0 <= p < |queues| ==> was[p] <= queues[p]
      ensures forall q, x :: 0 <= q < pairs && PairHolds(was, players.threshold, q, x) ==> PairHolds(queues, players.threshold, q, x)
      ensures forall q: nat :: q < count ==> NewGenerated(queues, draws, players.threshold, pairs, size, q)
    {
      hide IsSharing, DealtRow, DealtRowAs, IsVandermonde, IsWeights, IsPrime, PushedPair, NewGenerated;
      var t := players.threshold;
      forall p | 0 <= p < |queues| ensures was[p] <= queues[p] {
        assert QueueGrown(was[p], queues[p], crude, aux, size, p, pairs);
      }
      forall q | 0 <= q < pairs ensures Column(queues, 2 * q) == Column(was, 2 * q) && Column(queues, 2 * q + 1) == Column(was, 2 * q + 1) {
        forall p | 0 <= p < |queues|
          ensures ShareOf(queues, p, 2 * q) == ShareOf(was, p, 2 * q)
          ensures ShareOf(queues, p, 2 * q + 1) == ShareOf(was, p, 2 * q + 1)
        {
          assert QueueGrown(was[p], queues[p], crude, aux, size, p, pairs);
          assert queues[p][..2 * pairs][2 * q] == was[p][2 * q] && queues[p][..2 * pairs][2 * q + 1] == was[p][2 * q + 1];
        }
      }
      forall q: nat | q < count ensures NewGenerated(queues, draws, t, pairs, size, q) {
        NewPair(was, queues, crude, aux, draws, size, pairs, q);
      }
      forall q | 0 <= q < pairs + count ensures PairOk(queues, t, q) {
        if q < pairs {
          assert PairOk(was, t, q);
          var x: int :| PairHolds(was, t, q, x);
          assert PairHolds(queues, t, q, x);
        } else {
          GeneratedOk(queues, draws, t, pairs, size, q - pairs);
        }
      }
    }

    lemma NewPair(was: seq<seq<nat>>, queues: seq<seq<nat>>, crude: seq<seq<seq<nat>>>, aux: seq<seq<seq<nat>>>,
                  draws: seq<seq<Draw>>, size: nat, pairs: nat, q: nat)
      requires players.Valid() && |queues| == players.nPlayers == |was| && size > 0 && q < (players.threshold + 1) * size
      requires |crude| == |aux| == |draws| == players.nPlayers
      requires Dealt(crude, draws, players.nPlayers, size, players.threshold)
      requires Dealt(aux, draws, players.nPlayers, size, 2 * players.threshold)
      requires DealtAs(crude, draws, players.nPlayers, size, false) && DealtAs(aux, draws, players.nPlayers, size, true)
      requires forall k :: 0 <= k < |queues| ==> QueueGrown(was[k], queues[k], crude, aux, size, k, pairs)
      ensures NewGenerated(queues, draws, players.threshold, pairs, size, q)
    {
      hide IsSharing, IsVandermonde, IsWeights, IsPrime, MixedShare, DotSum, PowerSum, DealtAs, SharesAcross, Res, ResPR;
      var t, n, v := players.threshold, players.nPlayers, players.vandermondeNT;
      var w, j := MatrixColumn(v, q / size), q % size;
      VandermondeRows();
      forall p | 0 <= p < n
        ensures ShareOf(queues, p, 2 * (pairs + q)) == MixedShare(w, Across(crude, j), n, p)
        ensures ShareOf(queues, p, 2 * (pairs + q) + 1) == MixedShare(w, Across(aux, j), n, p)
      {
        var u := queues[p][2 * pairs..];
        assert QueueGrown(was[p], queues[p], crude, aux, size, p, pairs);
        assert PushedPair(u, v, crude, aux, size, p, q);
        assert u[2 * q] == queues[p][2 * (pairs + q)] && u[2 * q + 1] == queues[p][2 * (pairs + q) + 1];
      }
      AcrossSharings(crude, draws, n, size, t, j);
      AcrossSharings(aux, draws, n, size, 2 * t, j);
      MixIsSharing(w, Across(crude, j), SecretsAcross(draws, j), t, n, n);
      MixIsSharing(w, Across(aux, j), SecretsAcross(draws, j), 2 * t, n, n);
      assert Column(queues, 2 * (pairs + q)) == Mixed(w, Across(crude, j), n, n);
      assert Column(queues, 2 * (pairs + q) + 1) == Mixed(w, Across(aux, j), n, n);
      RowNumber(q, size, t);
      NewNumber(w, draws, j, q / size, t, pairs + q, queues);
      forall p | 0 <= p < n
        ensures ShareOf(queues, p, 2 * (pairs + q)) == ResPR(PowerSum(SharesAcross(draws, j, p, n, false), q / size + 1, n))
        ensures ShareOf(queues, p, 2 * (pairs + q) + 1) == ResPR(PowerSum(SharesAcross(draws, j, p, n, true), q / size + 1, n))
      {
        NewShare(w, crude, draws, size, false, j, p, q / size, t);
        NewShare(w, aux, draws, size, true, j, p, q / size, t);
      }
    }

    /** The number is the weighted sum of the secrets. */
    lemma NewNumber(w: seq<nat>, draws: seq<seq<Draw>>, j: nat, i: nat, t: nat, at: nat, queues: seq<seq<nat>>)
      requires players.Valid() && |draws| == players.nPlayers && i <= t == players.threshold
      requires w == MatrixColumn(players.vandermondeNT, i) && |w| == |draws|
      requires PairHolds(queues, t, at, DotSum(w, SecretsAcross(draws, j), |draws|))
      ensures PairHolds(queues, t, at, PowerSum(SecretsAcross(draws, j), i + 1, |draws|))
    {
      hide IsSharing, IsVandermonde, IsWeights, IsPrime, DotSum, PowerSum, Res, Pow;
      PrimeField();
      var s, n := SecretsAcross(draws, j), |draws|;
      ColumnIs(players.vandermondeNT, n, t + 1, i);
      ColumnSum(w, s, i + 1, n);
      SameSecret(Column(queues, 2 * at), DotSum(w, s, n), PowerSum(s, i + 1, n), t);
      SameSecret(Column(queues, 2 * at + 1), DotSum(w, s, n), PowerSum(s, i + 1, n), 2 * t);
    }

    /** and so is every share. */
    lemma NewShare(w: seq<nat>, crude: seq<seq<seq<nat>>>, draws: seq<seq<Draw>>, size: nat, double: bool, j: nat, p: nat, i: nat, t: nat)
      requires players.Valid() && |crude| == |draws| == players.nPlayers && i <= t == players.threshold && j < size && p < players.nPlayers
      requires w == MatrixColumn(players.vandermondeNT, i) && |w| == |draws|
      requires DealtAs(crude, draws, players.nPlayers, size, double)
      ensures MixedShare(w, Across(crude, j), |draws|, p) ==
        ResPR(PowerSum(SharesAcross(draws, j, p, players.nPlayers, double), i + 1, |draws|))
    {
      hide IsVandermonde, IsWeights, IsPrime, DotSum, PowerSum, Res, Pow, DealtAs, SharesAcross;
      PrimeField();
      var n := |draws|;
      ColumnIs(players.vandermondeNT, n, t + 1, i);
      ReceivedAcross(crude, draws, n, size, double, j, p);
      ColumnSum(w, SharesAcross(draws, j, p, n, double), i + 1, n);
    }

    lemma VandermondeRows()
      requires players.Valid()
      ensures |players.vandermondeNT| == players.nPlayers
      ensures forall i :: 0 <= i < players.nPlayers ==> |players.vandermondeNT[i]| == players.threshold + 1 && Row(players.vandermondeNT[i])
    {
      hide IsWeights, IsPrime, IsVandermonde;
      VandermondeSize(players.vandermondeNT, players.nPlayers, players.threshold + 1);
      forall i | 0 <= i < players.nPlayers
        ensures |players.vandermondeNT[i]| == players.threshold + 1 && Row(players.vandermondeNT[i])
      {
        PowerRow(players.vandermondeNT, players.nPlayers, players.threshold + 1, i);
      }
    }

    /** Each party in turn deals a row of random secrets. */
    method DealAll(bundleSize: nat, draws: seq<seq<Draw>>) returns (crude: seq<seq<seq<nat>>>, aux: seq<seq<seq<nat>>>)
      requires Valid() && |draws| == players.nPlayers
      requires forall i :: 0 <= i < |draws| ==> DrawsOk(draws[i], bundleSize, players.threshold)
      ensures |crude| == |aux| == players.nPlayers
      ensures Dealt(crude, draws, players.nPlayers, bundleSize, players.threshold)
      ensures Dealt(aux, draws, players.nPlayers, bundleSize, 2 * players.threshold)
      ensures DealtAs(crude, draws, players.nPlayers, bundleSize, false) && DealtAs(aux, draws, players.nPlayers, bundleSize, true)
    {
      hide IsSharing, IsVandermonde, IsWeights, IsPrime, QueuesOk, DealtShares;
      var n, t := players.nPlayers, players.threshold;
      crude, aux := [], [];
      for i := 0 to n
        invariant |crude| == |aux| == i
        invariant Dealt(crude, draws, n, bundleSize, t) && Dealt(aux, draws, n, bundleSize, 2 * t)
        invariant DealtAs(crude, draws, n, bundleSize, false) && DealtAs(aux, draws, n, bundleSize, true)
      {
        var row: seq<seq<nat>>, auxRow: seq<seq<nat>> := [], [];
        for j := 0 to bundleSize
          invariant DealtRow(row, draws[i], n, j, t) && DealtRow(auxRow, draws[i], n, j, 2 * t)
          invariant DealtRowAs(row, draws[i], i, n, j, false) && DealtRowAs(auxRow, draws[i], i, n, j, true)
        {
          var s, a := players.InputFromRandomPRG(i, draws[i][j]);
          row, auxRow := row + [s], auxRow + [a];
        }
        crude, aux := crude + [row], aux + [auxRow];
      }
    }

    /** One party's products of the matrix with its shares, in the order they are queued. */
    method Extract(party: nat, bundleSize: nat, crude: seq<seq<seq<nat>>>, aux: seq<seq<seq<nat>>>, ghost draws: seq<seq<Draw>>)
      returns (pushed: seq<nat>)
      requires Valid() && bundleSize > 0 && party < players.nPlayers && |crude| == |aux| == |draws| == players.nPlayers
      requires Dealt(crude, draws, players.nPlayers, bundleSize, players.threshold)
      requires Dealt(aux, draws, players.nPlayers, bundleSize, 2 * players.threshold)
      ensures |players.vandermondeNT| == players.nPlayers && |pushed| == 2 * ((players.threshold + 1) * bundleSize)
      ensures forall q :: 0 <= q < (players.threshold + 1) * bundleSize ==>
        PushedPair(pushed, players.vandermondeNT, crude, aux, bundleSize, party, q)
    {
      hide IsSharing, IsVandermonde, IsWeights, IsPrime, QueuesOk, DotSum, MixedShare, Dealt;
      VandermondeRows();
      var v := players.vandermondeNT;
      pushed := [];
      ghost var q := 0;
      for i := 0 to players.threshold + 1
        invariant q == i * bundleSize && |pushed| == 2 * q
        invariant forall k :: 0 <= k < q ==> PushedPair(pushed, v, crude, aux, bundleSize, party, k)
      {
        var w := MatrixColumn(v, i);
        for j := 0 to bundleSize
          invariant q == i * bundleSize + j && |pushed| == 2 * q
          invariant forall k :: 0 <= k < q ==> PushedPair(pushed, v, crude, aux, bundleSize, party, k)
        {
          RowsReceived(crude, draws, players.nPlayers, bundleSize, players.threshold, j, party);
          RowsReceived(aux, draws, players.nPlayers, bundleSize, 2 * players.threshold, j, party);
          var x := Dot(w, Received(Across(crude, j), party));
          var y := Dot(w, Received(Across(aux, j), party));
          DotIsMixed(w, Across(crude, j), party, x);
          DotIsMixed(w, Across(aux, j), party, y);
          PairNumber(i, j, bundleSize, q);
          ghost var before := pushed;
          pushed := pushed + [x, y];
          forall k | 0 <= k < q ensures PushedPair(pushed, v, crude, aux, bundleSize, party, k) {
            assert PushedPair(before, v, crude, aux, bundleSize, party, k);
          }
          q := q + 1;
        }
        assert (i + 1) * bundleSize == i * bundleSize + bundleSize;
      }
    }
  
    /** Every party takes its shares of the pair in front. */
    method GetRandomPair() returns (r: seq<nat>, auxR: seq<nat>)
      requires Valid() && Pairs() > 0
      modifies this
      ensures Valid() && Pairs() == old(Pairs()) - 1 && |r| == |auxR| == players.nPlayers
      ensures exists secret: int :: IsSharing(r, secret, players.threshold) && IsSharing(auxR, secret, 2 * players.threshold)
      ensures r == Column(old(queueReducedRandom), 0) && auxR == Column(old(queueReducedRandom), 1)
      ensures TailOf(old(queueReducedRandom), queueReducedRandom)
      ensures forall q: nat, x :: q < Pairs() && PairHolds(old(queueReducedRandom), players.threshold, q + 1, x) ==>
        PairHolds(queueReducedRandom, players.threshold, q, x)
    {
      hide IsSharing, IsVandermonde, IsWeights, IsPrime;
      var n := players.nPlayers;
      ghost var was, pairs := queueReducedRandom, Pairs();
      r, auxR := [], [];
      var rest: seq<seq<nat>> := [];
      for p := 0 to n
        invariant |rest| == |r| == |auxR| == p && Valid() && queueReducedRandom == was
        invariant forall k :: 0 <= k < p ==> |was[k]| >= 2 && r[k] == was[k][0] && auxR[k] == was[k][1] && rest[k] == was[k][2..]
      {
        var queue := queueReducedRandom[p];
        r, auxR := r + [queue[0]], auxR + [queue[1]];
        rest := rest + [queue[2..]];
      }
      assert PairOk(was, players.threshold, 0);
      assert r == Column(was, 0) && auxR == Column(was, 1);
      QueuesTail(was, rest, players.threshold, pairs);
      queueReducedRandom := rest;
    }
  }

  lemma GeneratedOk(queues: seq<seq<nat>>, draws: seq<seq<Draw>>, t: nat, pairs: nat, size: nat, q: nat)
    requires size > 0 && NewGenerated(queues, draws, t, pairs, size, q)
    ensures PairOk(queues, t, pairs + q)
  {
    hide PairHolds;
  }

  lemma RowNumber(q: nat, size: nat, t: nat)
    requires size > 0 && q < (t + 1) * size
    ensures q / size <= t
  {
    if q / size > t {
      MulAtLeast(q / size, t + 1, size);
    }
  }

  lemma MulAtLeast(a: nat, b: nat, u: nat)
    requires a >= b
    ensures a * u >= b * u
  {
  }

  lemma PairInside(i: nat, j: nat, size: nat, t: nat)
    requires i <= t && j < size
    ensures i * size + j < (t + 1) * size
  {
    MulAtLeast(t + 1, i + 1, size);
    assert (i + 1) * size == i * size + size;
  }

  lemma QueuesTail(was: seq<seq<nat>>, rest: seq<seq<nat>>, t: nat, pairs: nat)
    requires QueuesOk(was, t, pairs) && pairs > 0 && |rest| == |was|
    requires forall k :: 0 <= k < |was| ==> |was[k]| >= 2 && rest[k] == was[k][2..]
    ensures QueuesOk(rest, t, pairs - 1) && TailOf(was, rest)
    ensures forall q: nat, x :: q < pairs - 1 && PairHolds(was, t, q + 1, x) ==> PairHolds(rest, t, q, x)
  {
    hide IsSharing;
    forall q | 0 <= q < pairs - 1
      ensures Column(rest, 2 * q) == Column(was, 2 * (q + 1)) && Column(rest, 2 * q + 1) == Column(was, 2 * (q + 1) + 1)
    {
    }
    forall q | 0 <= q < pairs - 1 ensures PairOk(rest, t, q) {
      assert PairOk(was, t, q + 1);
      var x: int :| PairHolds(was, t, q + 1, x);
      assert PairHolds(rest, t, q, x);
    }
  }

  lemma TailColumn(was: seq<seq<nat>>, rest: seq<seq<nat>>, t: nat, q: nat, x: int)
    requires TailOf(was, rest)
    ensures Column(rest, 2 * q) == Column(was, 2 * q + 2)
    ensures PairHolds(rest, t, q, x) <==> PairHolds(was, t, q + 1, x)
  {
    hide IsSharing;
    assert Column(rest, 2 * q) == Column(was, 2 * (q + 1));
    assert Column(rest, 2 * q + 1) == Column(was, 2 * (q + 1) + 1);
  }

  /** Every party has dropped the pair in front. */
  ghost predicate TailOf(was: seq<seq<nat>>, rest: seq<seq<nat>>) {
    |rest| == |was| && forall p :: 0 <= p < |was| ==> |was[p]| >= 2 && rest[p] == was[p][2..]
  }

  lemma VandermondeSize(v: seq<seq<nat>>, xSize: nat, ySize: nat)
    requires IsVandermonde(v, xSize, ySize)
    ensures |v| == xSize
  {
  }

  lemma PairNumber(i: nat, j: nat, size: nat, q: nat)
    requires j < size && q == i * size + j
    ensures q / size == i && q % size == j
  {
    var d := q / size - i;
    assert d * size == j - q % size;
    if d != 0 {
      MulLess(d, size);
    }
  }

  lemma DotIsMixed(w: seq<nat>, dealt: seq<seq<nat>>, party: nat, x: nat)
    requires |w| == |dealt| && PR > 0 && x == Res(PR, DotSum(w, Received(dealt, party), |w|))
    ensures x == MixedShare(w, dealt, |w|, party)
  {
  }

  lemma AcrossSharings(crude: seq<seq<seq<nat>>>, draws: seq<seq<Draw>>, n: nat, size: nat, degree: nat, j: nat)
    requires Dealt(crude, draws, n, size, degree) && |crude| == |draws| && j < size
    ensures var d, s := Across(crude, j), SecretsAcross(draws, j);
      forall i :: 0 <= i < |d| ==> |d[i]| == n && IsSharing(d[i], s[i], degree)
  {
    hide IsSharing;
  }

  lemma RowsReceived(crude: seq<seq<seq<nat>>>, draws: seq<seq<Draw>>, n: nat, size: nat, degree: nat, j: nat, party: nat)
    requires Dealt(crude, draws, n, size, degree) && |crude| == |draws| && j < size && party < n
    ensures Row(Received(Across(crude, j), party))
  {
    hide IsSharing;
    var d := Across(crude, j);
    AcrossSharings(crude, draws, n, size, degree, j);
    forall i | 0 <= i < |d| ensures Scalar(d[i][party]) {
      SharingRow(d[i], SecretsAcross(draws, j)[i], degree);
    }
  }

  // ---------------------------------------------------------------- multiplication

  /** All parties' shares of one number. */
  class Share {
    const store: DoubleRandom
    var share: seq<nat>
    var degree: nat

    ghost predicate Valid()
      reads this, store, store.players
    {
      store.Valid() && |share| == store.players.nPlayers && Row(share) && degree == store.players.threshold
    }

    constructor (s: DoubleRandom, shares: seq<nat>)
      requires s.Valid() && |shares| == s.players.nPlayers && Row(shares)
      ensures Valid() && store == s && share == shares
    {
      store, share, degree := s, shares, s.players.threshold;
    }

    /** A sharing of degree 2t becomes one of degree t of the same number, with a stored pair: the
        king opens the number masked with the pair's sharing of degree 2t, and everyone takes its
        share of degree t off. */
    method ReduceDegree()
      requires Valid() && store.Pairs() > 0
      modifies this, store
      ensures Valid() && store.Pairs() == old(store.Pairs()) - 1
      ensures forall x: int :: old(IsSharing(share, x, 2 * store.players.threshold)) ==> IsSharing(share, x, store.players.threshold)
      ensures TailOf(old(store.queueReducedRandom), store.queueReducedRandom)
      ensures forall x: int, m: int ::
        old(IsSharing(share, x, 2 * store.players.threshold)) && PairHolds(old(store.queueReducedRandom), store.players.threshold, 0, m) ==>
          Unmasked(share, x + m, Column(old(store.queueReducedRandom), 0))
    {
      hide IsSharing, IsVandermonde, IsWeights, IsPrime, QueuesOk, AddMod, SubMod, Res;
      var n := store.players.nPlayers;
      degree := 2 * degree;
      var r, auxR := store.GetRandomPair();
      ghost var secret: int :| IsSharing(r, secret, store.players.threshold) && IsSharing(auxR, secret, 2 * store.players.threshold);
      SharingRow(r, secret, store.players.threshold);
      SharingRow(auxR, secret, 2 * store.players.threshold);
      ghost var was := share;
      var sum := AddRows(share, auxR);
      var z := store.players.CalculateSecret(degree, sum);
      degree := degree / 2;
      share := MaskRow(z, r);
      forall x: int | IsSharing(was, x, 2 * store.players.threshold) ensures IsSharing(share, x, store.players.threshold) {
        Reduced(was, x, auxR, r, secret, sum, z, share, store.players.threshold);
      }
      forall x: int, m: int | IsSharing(was, x, 2 * store.players.threshold) && IsSharing(auxR, m, 2 * store.players.threshold)
        ensures Unmasked(share, x + m, r)
      {
        Sum(was, x, auxR, m, 2 * store.players.threshold, sum);
        OpenedAs(z, x + m, r, share);
      }
    }

    /** The product of two shared numbers, or the square of one when other is this share. */
    method Multiply(other: Share)
      requires Valid() && other.Valid() && store == other.store && store.Pairs() > 0
      modifies this, store
      ensures Valid() && store.Pairs() == old(store.Pairs()) - 1
      ensures forall x: int, y: int ::
        old(IsSharing(other.share, y, store.players.threshold)) && old(IsSharing(share, x, store.players.threshold)) ==>
          IsSharing(share, x * y, store.players.threshold)
      ensures TailOf(old(store.queueReducedRandom), store.queueReducedRandom)
      ensures forall x: int, y: int, m: int ::
        old(IsSharing(other.share, y, store.players.threshold)) && old(IsSharing(share, x, store.players.threshold))
        && PairHolds(old(store.queueReducedRandom), store.players.threshold, 0, m) ==>
          Unmasked(share, x * y + m, Column(old(store.queueReducedRandom), 0))
    {
      hide IsSharing, IsVandermonde, IsWeights, IsPrime, QueuesOk, MultMod, Res;
      ghost var a, b := share, other.share;
      share := MultiplyRows(share, other.share);
      forall x: int, y: int | IsSharing(a, x, degree) && IsSharing(b, y, degree)
        ensures IsSharing(share, x * y, 2 * degree)
      {
        LocalProduct(a, x, b, y, degree, share);
      }
      ReduceDegree();
    }
  }

  /** The shares are what was opened less a party's share of the mask. */
  ghost predicate Unmasked(share: seq<nat>, shown: int, r: seq<nat>) {
    |share| == |r| && forall p :: 0 <= p < |r| ==> share[p] == ResPR(shown - r[p])
  }

  lemma OpenedAs(z: nat, shown: int, r: seq<nat>, share: seq<nat>)
    requires PR > 0 && z == Res(PR, shown) && |share| == |r| && forall p :: 0 <= p < |r| ==> share[p] == Res(PR, z - r[p])
    ensures Unmasked(share, shown, r)
  {
    hide Res;
    forall p | 0 <= p < |r| ensures share[p] == ResPR(shown - r[p]) {
      ResRes(PR, shown);
      ResOps(PR, z, r[p], shown, r[p]);
    }
  }

  method AddRows(a: seq<nat>, b: seq<nat>) returns (s: seq<nat>)
    requires |a| == |b| && Row(a) && Row(b)
    ensures |s| == |a| && Row(s) && PR > 0 && forall i :: 0 <= i < |s| ==> s[i] == Res(PR, a[i] + b[i])
  {
    hide Res, AddMod;
    PrimeField();
    s := [];
    for i := 0 to |a|
      invariant |s| == i && forall k :: 0 <= k < i ==> s[k] == Res(PR, a[k] + b[k])
    {
      s := s + [AddMod(a[i], b[i])];
    }
  }

  method MaskRow(z: nat, r: seq<nat>) returns (s: seq<nat>)
    requires Scalar(z) && Row(r)
    ensures |s| == |r| && Row(s) && PR > 0 && forall i :: 0 <= i < |s| ==> s[i] == Res(PR, z - r[i])
  {
    hide Res, SubMod;
    PrimeField();
    s := [];
    for i := 0 to |r|
      invariant |s| == i && forall k :: 0 <= k < i ==> s[k] == Res(PR, z - r[k])
    {
      SubModIs(z, r[i]);
      s := s + [SubMod(z, r[i])];
    }
  }

  method MultiplyRows(a: seq<nat>, b: seq<nat>) returns (s: seq<nat>)
    requires |a| == |b| && Row(a) && Row(b)
    ensures |s| == |a| && Row(s) && PR > 0 && forall i :: 0 <= i < |s| ==> s[i] == Res(PR, a[i] * b[i])
  {
    hide Res, MultMod;
    PrimeField();
    s := [];
    for i := 0 to |a|
      invariant |s| == i && forall k :: 0 <= k < i ==> s[k] == Res(PR, a[k] * b[k])
    {
      MultModIs(a[i], b[i]);
      s := s + [MultMod(a[i], b[i])];
    }
  }

  lemma Reduced(was: seq<nat>, x: int, auxR: seq<nat>, r: seq<nat>, secret: int, sum: seq<nat>, z: nat, share: seq<nat>, t: nat)
    requires IsSharing(was, x, 2 * t) && IsSharing(auxR, secret, 2 * t) && IsSharing(r, secret, t) && PR > 0
    requires |was| == |auxR| == |sum| && |share| == |r|
    requires forall i :: 0 <= i < |sum| ==> sum[i] == Res(PR, was[i] + auxR[i])
    requires forall y: int :: IsSharing(sum, y, 2 * t) ==> z == Res(PR, y)
    requires forall i :: 0 <= i < |share| ==> share[i] == Res(PR, z - r[i])
    ensures IsSharing(share, x, t)
  {
    hide IsSharing, Res;
    Sum(was, x, auxR, secret, 2 * t, sum);
    Masked(r, secret, z, t, share);
    ResRes(PR, x + secret);
    ResOps(PR, z, secret, x + secret, secret);
    SameSecret(share, z - secret, x, t);
  }
}
