/** Two multiplications in one round: reducing the degree of the first product also prepares a triple
    for the second one. */
module FirstLayer {
  import opened Modular
  import opened Gfp
  import opened Shamir
  import opened DegreeReduction
  import opened Beaver

  /** A number shared with degree 2t is masked with a stored pair, opened to everyone, and shared with
      degree t. r shares the mask. */
  method OpenMasked(store: DoubleRandom, s: seq<nat>, ghost x: int)
    returns (z: nat, r: seq<nat>, reduced: seq<nat>, ghost mask: int)
    requires store.Valid() && store.Pairs() > 0 && |s| == store.players.nPlayers && Row(s)
    requires IsSharing(s, x, 2 * store.players.threshold)
    modifies store
    ensures store.Valid() && store.Pairs() == old(store.Pairs()) - 1
    ensures |r| == |reduced| == |s| && Row(r) && Row(reduced) && Scalar(z) && PR > 0
    ensures IsSharing(r, mask, store.players.threshold) && z == Res(PR, x + mask)
    ensures IsSharing(reduced, x, store.players.threshold)
    ensures r == Column(old(store.queueReducedRandom), 0) && TailOf(old(store.queueReducedRandom), store.queueReducedRandom)
    ensures PairHolds(old(store.queueReducedRandom), store.players.threshold, 0, mask) && Unmasked(reduced, x + mask, r)
  {
    hide IsSharing, IsVandermonde, IsWeights, IsPrime, QueuesOk, AddMod, SubMod, Res;
    ghost var t := store.players.threshold;
    var auxR: seq<nat>;
    r, auxR := store.GetRandomPair();
    mask :| IsSharing(r, mask, t) && IsSharing(auxR, mask, 2 * t);
    SharingRow(r, mask, t);
    SharingRow(auxR, mask, 2 * t);
    var sum := AddRows(s, auxR);
    Sum(s, x, auxR, mask, 2 * t, sum);
    z := store.players.CalculateSecret(2 * store.players.threshold, sum);
    reduced := MaskRow(z, r);
    Reduced(s, x, auxR, r, mask, sum, z, reduced, t);
    OpenedAs(z, x + mask, r, reduced);
  }

  /** What the two pairs in front, the shares of x and y and what is opened make of x and of the triple: the
      first pair masks x and shares the first factor, the second one masks the product of the factors. */
  ghost predicate Made(was: seq<seq<nat>>, t: nat, ys: seq<nat>, reduced: seq<nat>, a: seq<nat>, b: seq<nat>, c: seq<nat>, u: nat,
                       alpha: int, mask: int, x0: int, y0: int) {
    && a == Column(was, 0) && PairHolds(was, t, 0, alpha) && u == ResPR(x0 + alpha) && Unmasked(reduced, x0 + alpha, a)
    && |b| == |ys| && (forall p :: 0 <= p < |ys| ==> b[p] == ResPR((0 as int) - ys[p]))
    && PairHolds(was, t, 1, mask) && Unmasked(c, alpha * (0 - y0) + mask, Column(was, 2))
  }

  method MakeTriple(store: DoubleRandom, xs: seq<nat>, ys: seq<nat>, ghost x0: int, ghost y0: int)
    returns (reduced: seq<nat>, a: seq<nat>, b: seq<nat>, c: seq<nat>, u: nat, ghost alpha: int, ghost mask: int)
    requires store.Valid() && store.Pairs() > 1 && |xs| == |ys| == store.players.nPlayers && Row(xs) && Row(ys)
    requires IsSharing(xs, x0, 2 * store.players.threshold) && IsSharing(ys, y0, store.players.threshold)
    modifies store
    ensures store.Valid() && store.Pairs() == old(store.Pairs()) - 2
    ensures PR > 0 && |reduced| == |a| == |b| == |c| == |xs| && Row(reduced) && Row(a) && Row(b) && Row(c) && Scalar(u)
    ensures IsSharing(reduced, x0, store.players.threshold) && IsSharing(a, alpha, store.players.threshold)
    ensures IsSharing(b, 0 - y0, store.players.threshold) && IsSharing(c, alpha * (0 - y0), store.players.threshold)
    ensures u == Res(PR, x0 + alpha)
    ensures Made(old(store.queueReducedRandom), store.players.threshold, ys, reduced, a, b, c, u, alpha, mask, x0, y0)
  {
    hide IsSharing, DoubleRandom.Valid, MultMod, AdditiveInverse, Res, TailOf, PairHolds, Unmasked, Column, ShareBase.Valid;
    ghost var t, was := store.players.threshold, store.queueReducedRandom;
    StoreParts(store);
    b := NegateRow(ys);
    Shamir.Masked(ys, y0, 0, t, b);
    u, a, reduced, alpha := OpenMasked(store, xs, x0);
    ghost var middle := store.queueReducedRandom;
    var product := MultiplyRows(a, b);
    LocalProduct(a, alpha, b, 0 - y0, t, product);
    var f, r;
    f, r, c, mask := OpenMasked(store, product, alpha * (0 - y0));
    TailColumn(was, middle, t, 0, mask);
  }

  lemma StoreParts(store: DoubleRandom)
    requires store.Valid()
    ensures store.players.Valid()
  {
    hide QueuesOk, ShareBase.Valid;
  }

  /** The number x of degree 2t comes down to degree t; the triple holds x and y as its factors. Its
      parts are the stored sharing that masks x, the negated shares of y and their product, which is
      opened and masked like x. */
  method ReduceDegreeFirstLayer(x: Share, y: Share, triple: BeaverTriple, ghost x0: int, ghost y0: int) returns (ghost mask: int)
    requires x.Valid() && y.Valid() && x.store == y.store && x != y && x.store.Pairs() > 1
    requires triple.t == x.store.players.threshold
    requires IsSharing(x.share, x0, 2 * x.store.players.threshold) && IsSharing(y.share, y0, x.store.players.threshold)
    modifies x, x.store, triple
    ensures x.Valid() && x.store.Pairs() == old(x.store.Pairs()) - 2
    ensures IsSharing(x.share, x0, x.store.players.threshold) && |triple.a| == |x.share|
    ensures triple.Valid() && triple.X() == Res(PR, x0) && triple.Y() == Res(PR, y0)
    ensures triple.v == 0 && triple.beta == 0 - y0
    ensures Made(old(x.store.queueReducedRandom), triple.t, y.share, x.share, triple.a, triple.b, triple.c, triple.u, triple.alpha, mask, x0, y0)
  {
    hide IsSharing, DoubleRandom.Valid, Made, Res, ShareBase.Valid;
    ghost var alpha: int;
    var reduced, a, b, c: seq<nat>;
    var u: nat;
    reduced, a, b, c, u, alpha, mask := MakeTriple(x.store, x.share, y.share, x0, y0);
    FactorsAre(x0, y0, alpha, u);
    x.share := reduced;
    triple.a, triple.b, triple.c, triple.u, triple.v := a, b, c, u, 0;
    triple.alpha, triple.beta := alpha, 0 - y0;
  }

  /** The second product then needs local steps only. */
  method TwoLayerProduct(x: Share, y: Share, triple: BeaverTriple, ghost x0: int, ghost y0: int) returns (res: seq<nat>)
    requires x.Valid() && y.Valid() && x.store == y.store && x != y && x.store.Pairs() > 1
    requires triple.t == x.store.players.threshold
    requires IsSharing(x.share, x0, 2 * x.store.players.threshold) && IsSharing(y.share, y0, x.store.players.threshold)
    modifies x, x.store, triple
    ensures x.Valid() && IsSharing(x.share, x0, x.store.players.threshold)
    ensures |res| == |x.share| && IsSharing(res, x0 * y0, x.store.players.threshold)
  {
    hide IsSharing, IsVandermonde, IsWeights, IsPrime, QueuesOk, Res;
    ghost var mask := ReduceDegreeFirstLayer(x, y, triple, x0, y0);
    res := triple.Mult();
    ResReduced(PR, x0, y0);
    SameSecret(res, triple.X() * triple.Y(), x0 * y0, x.store.players.threshold);
  }

  /** Taking the mask off what was opened gives the factor. */
  lemma FactorsAre(x0: int, y0: int, sX: int, e: nat)
    requires PR > 0 && e == Res(PR, x0 + sX)
    ensures Res(PR, e - sX) == Res(PR, x0) && Res(PR, 0 - (0 - y0)) == Res(PR, y0)
  {
    hide Res;
    ResRes(PR, x0 + sX);
    ResOps(PR, e, sX, x0 + sX, sX);
  }

  method NegateRow(a: seq<nat>) returns (s: seq<nat>)
    requires Row(a)
    ensures |s| == |a| && Row(s) && PR > 0 && forall i :: 0 <= i < |s| ==> s[i] == Res(PR, (0 as int) - a[i])
  {
    hide Res, AdditiveInverse;
    PrimeField();
    s := [];
    for i := 0 to |a|
      invariant |s| == i && forall k :: 0 <= k < i ==> s[k] == Res(PR, (0 as int) - a[k])
    {
      AdditiveInverseIs(a[i]);
      s := s + [AdditiveInverse(a[i])];
    }
  }
}
