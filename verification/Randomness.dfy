/** Where every random value goes: the mixed sharings are the combinations of what all parties drew, and
    everything that is opened is masked with one of them. */
module Randomness {
  import opened Modular
  import opened Scl
  import opened Sequences
  import opened PackedSharing
  import opened Dealing
  import opened Circuits
  import opened Wiring
  import opened Preprocessing
  import opened Masking
  import opened Triples
  import opened TurboPack
  import opened Poly
  import Correlators

  /** 0^e vals[0] + 1^e vals[1] + ... over the first m values. */
  function Combination(vals: seq<int>, e: nat, m: nat): int
    requires m <= |vals|
  {
    if m == 0 then 0 else Combination(vals, e, m - 1) + Pow(m - 1, e) * vals[m - 1]
  }

  lemma {:induction false} CombinationIs(u: seq<int>, vals: seq<int>, e: nat, n: nat, m: nat)
    requires m <= n == |u| == |vals| && forall i :: 0 <= i < n ==> F(u[i]) == F(vals[i])
    ensures F(Dot(Weights(n, e), u, m)) == F(Combination(vals, e, m))
  {
    hide F, Pow;
    if m > 0 {
      CombinationIs(u, vals, e, n, m - 1);
      FF(Pow(m - 1, e));
      FOps(Weights(n, e)[m - 1], u[m - 1], Pow(m - 1, e), vals[m - 1]);
      FOps(Dot(Weights(n, e), u, m - 1), Weights(n, e)[m - 1] * u[m - 1], Combination(vals, e, m - 1), Pow(m - 1, e) * vals[m - 1]);
    }
  }

  /** If every dealer's q-th polynomial has a known value at x then so have the t + 1 sharings mixed from them. */
  lemma MixedFrom(deals: seq<seq<Coeffs>>, t: nat, m: nat, q: nat, e: nat, x: int, vals: seq<int>)
    requires Dealt(deals, m) && q < m && e <= t && |vals| == |deals|
    requires forall i :: 0 <= i < |deals| ==> q < |deals[i]| && At(deals[i][q], x) == F(vals[i])
    ensures q * (t + 1) + e < m * (t + 1)
    ensures At(MixBlocks(deals, t, m)[q * (t + 1) + e], x) == F(Combination(vals, e, |vals|))
  {
    hide At, F, MixBlocks, Weights, Dot, Combination;
    MixedAt(deals, t, m, q, e, x);
    var u := Msgs(Column(deals, q), x);
    forall i | 0 <= i < |deals| ensures F(u[i]) == F(vals[i]) {
      FF(vals[i]);
    }
    CombinationIs(u, vals, e, |vals|, |vals|);
  }

  // ---------------------------------------------------------------- messages of the dealers

  /** What party b is sent of individual sharings and of sharings of zero is what was drawn for it, for the first
      t and the first n - k parties. */
  lemma DealtMessages(n: nat, k: nat, t: nat, inds: seq<Draw>, zeros: seq<Draw>, b: nat, q: nat)
    requires IsPrime(P61) && Sizes(n, k, t) && RestLengths(inds, n - 2 * k + 1) && RestLengths(zeros, n - k)
    ensures b < t && q < |inds| ==> Msgs(IndDeals(n, k, t, inds), b + 1)[q] == F(inds[q].rest[b])
    ensures b < n - k && q < |zeros| ==> Msgs(ZeroDeals(n, k, t, zeros), b + 1)[q] == F(zeros[q].rest[b])
  {
    hide At, F, IsPrime, IndDeal, ZeroDeal;
    if b < t && q < |inds| {
      IndDealHolds(n, k, t, inds[q]);
    }
    if b < n - k && q < |zeros| {
      ZeroDealHolds(n, k, t, zeros[q]);
    }
  }

  /** The same for the sharings at one slot: of factors and masks for the first t parties, of the zeros that hide
      products for all but the last. */
  lemma DealtSlotMessages(n: nat, t: nat, slot: nat, factors: seq<Draw>, zeros: seq<Draw>, b: nat, q: nat)
    requires IsPrime(P61) && n > 0 && slot + n <= P61 && t < n && RestLengths(factors, t) && RestLengths(zeros, n - 1)
    ensures b < t && q < |factors| ==> Msgs(UnpackedDeals(t, slot, factors), b + 1)[q] == F(factors[q].rest[b])
    ensures b < n - 1 && q < |zeros| ==> Msgs(ZeroProdDeals(n, slot, zeros), b + 1)[q] == F(zeros[q].rest[b])
  {
    hide At, F, IsPrime, UnpackedDeal, ZeroProdDeal;
    if b < t && q < |factors| {
      UnpackedDealHolds(t, slot, factors[q]);
    }
    if b < n - 1 && q < |zeros| {
      ZeroProdDealHolds(n, slot, zeros[q]);
    }
  }

  // ---------------------------------------------------------------- TurboPack

  /** What all parties drew for block q: the secrets, and the values for party p. */
  function Secrets(rows: seq<seq<Draw>>, q: nat): (r: seq<int>)
    ensures |r| == |rows|
  {
    seq(|rows|, i requires 0 <= i < |rows| => if q < |rows[i]| then rows[i][q].secret else 0)
  }

  function Rests(rows: seq<seq<Draw>>, q: nat, p: nat): (r: seq<int>)
    ensures |r| == |rows|
  {
    seq(|rows|, i requires 0 <= i < |rows| => if q < |rows[i]| && p < |rows[i][q].rest| then rows[i][q].rest[p] else 0)
  }

  function IndRows(draws: seq<Draws>): (r: seq<seq<Draw>>)
    ensures |r| == |draws|
  {
    seq(|draws|, i requires 0 <= i < |draws| => draws[i].ind)
  }

  function SlotRows(draws: seq<Draws>, j: nat): (r: seq<seq<Draw>>)
    ensures |r| == |draws|
  {
    seq(|draws|, i requires 0 <= i < |draws| => if j < |draws[i].unpacked| then draws[i].unpacked[j] else [])
  }

  function ZeroRows(draws: seq<Draws>): (r: seq<seq<Draw>>)
    ensures |r| == |draws|
  {
    seq(|draws|, i requires 0 <= i < |draws| => draws[i].zero)
  }

  function ZeroSlotRows(draws: seq<Draws>, j: nat): (r: seq<seq<Draw>>)
    ensures |r| == |draws|
  {
    seq(|draws|, i requires 0 <= i < |draws| => if j < |draws[i].zeroProd| then draws[i].zeroProd[j] else [])
  }

  lemma OneOf(m: Amounts, draws: seq<Draws>, i: nat)
    requires AllDrawn(m, draws) && i < m.n
    ensures |draws| == m.n && Sizes(m.n, m.k, m.t) && Drawn(m.n, m.k, m.t, m.inds, m.mults, m.ios, draws[i])
  {
    hide Drawn;
  }

  lemma AllOf(m: Amounts, draws: seq<Draws>)
    requires AllDrawn(m, draws)
    ensures |draws| == m.n && Sizes(m.n, m.k, m.t)
  {
    hide Drawn;
  }

  /** Individual sharing q(t + 1) + e: its number in every slot, and the shares of the first t parties. */
  lemma IndNumbers(m: Amounts, draws: seq<Draws>, q: nat, e: nat, j: nat)
    requires IsPrime(P61) && AllDrawn(m, draws) && q < Blocks(m.inds, m.t) && e <= m.t && j < m.k
    ensures var z := q * (m.t + 1) + e;
      && z < |Inds(m, draws)| && At(Inds(m, draws)[z], Slot(j)) == F(Combination(Secrets(IndRows(draws), q), e, m.n))
      && forall p :: 0 <= p < m.t ==> At(Inds(m, draws)[z], p + 1) == F(Combination(Rests(IndRows(draws), q, p), e, m.n))
  {
    hide *;
    IndsIs(m, draws);
    var deals, b := IndAll(m, draws), Blocks(m.inds, m.t);
    MixedPlace(deals, m.t, b, q, e);
    IndColumn(m, draws, q, j);
    MixedFrom(deals, m.t, b, q, e, Slot(j), Secrets(IndRows(draws), q));
    forall p | 0 <= p < m.t
      ensures At(Inds(m, draws)[q * (m.t + 1) + e], p + 1) == F(Combination(Rests(IndRows(draws), q, p), e, m.n))
    {
      IndShares(m, draws, q, p);
      MixedFrom(deals, m.t, b, q, e, p + 1, Rests(IndRows(draws), q, p));
    }
  }

  lemma IndsIs(m: Amounts, draws: seq<Draws>)
    requires AllDrawn(m, draws)
    ensures |draws| == m.n && Dealt(IndAll(m, draws), Blocks(m.inds, m.t))
    ensures Inds(m, draws) == MixBlocks(IndAll(m, draws), m.t, Blocks(m.inds, m.t))
  {
    hide AllDrawn, IndAll, MixBlocks, Blocks;
    AllOf(m, draws);
    DealtAll(m, draws);
  }

  lemma IndColumn(m: Amounts, draws: seq<Draws>, q: nat, j: nat)
    requires IsPrime(P61) && AllDrawn(m, draws) && q < Blocks(m.inds, m.t) && j < m.k
    ensures var deals, vals := IndAll(m, draws), Secrets(IndRows(draws), q);
      |deals| == m.n && forall i :: 0 <= i < |deals| ==> q < |deals[i]| && At(deals[i][q], Slot(j)) == F(vals[i])
  {
    hide At, F, Slot, IsPrime, AllDrawn, Blocks, IndDeal;
    AllOf(m, draws);
    var deals, vals := IndAll(m, draws), Secrets(IndRows(draws), q);
    forall i | 0 <= i < |deals| ensures q < |deals[i]| && At(deals[i][q], Slot(j)) == F(vals[i]) {
      OneOf(m, draws, i);
      IndDealHolds(m.n, m.k, m.t, draws[i].ind[q]);
    }
  }

  lemma IndShares(m: Amounts, draws: seq<Draws>, q: nat, p: nat)
    requires IsPrime(P61) && AllDrawn(m, draws) && q < Blocks(m.inds, m.t) && p < m.t
    ensures var deals, vals := IndAll(m, draws), Rests(IndRows(draws), q, p);
      |deals| == m.n && forall i :: 0 <= i < |deals| ==> q < |deals[i]| && At(deals[i][q], p + 1) == F(vals[i])
  {
    hide At, F, Slot, IsPrime, AllDrawn, Blocks, IndDeal;
    AllOf(m, draws);
    var deals, vals := IndAll(m, draws), Rests(IndRows(draws), q, p);
    forall i | 0 <= i < |deals| ensures q < |deals[i]| && At(deals[i][q], p + 1) == F(vals[i]) {
      OneOf(m, draws, i);
      IndDealHolds(m.n, m.k, m.t, draws[i].ind[q]);
    }
  }

  /** Mixed sharing q(t + 1) + e at a slot: the first and the second factors and the masks are these in turn. */
  lemma SlotNumbers(m: Amounts, draws: seq<Draws>, j: nat, q: nat, e: nat)
    requires IsPrime(P61) && AllDrawn(m, draws) && q < Blocks(3 * m.mults, m.t) && e <= m.t && j < m.k
    ensures Dealt(UnpackedSlot(m, draws, j), Blocks(3 * m.mults, m.t))
    ensures var z, mixed := q * (m.t + 1) + e, MixBlocks(UnpackedSlot(m, draws, j), m.t, Blocks(3 * m.mults, m.t));
      && z < |mixed| && At(mixed[z], Slot(j)) == F(Combination(Secrets(SlotRows(draws, j), q), e, m.n))
      && forall p :: 0 <= p < m.t ==> At(mixed[z], p + 1) == F(Combination(Rests(SlotRows(draws, j), q, p), e, m.n))
  {
    hide *;
    SlotIs(m, draws, j);
    var deals, b := UnpackedSlot(m, draws, j), Blocks(3 * m.mults, m.t);
    MixedPlace(deals, m.t, b, q, e);
    SlotColumn(m, draws, j, q);
    MixedFrom(deals, m.t, b, q, e, Slot(j), Secrets(SlotRows(draws, j), q));
    forall p | 0 <= p < m.t
      ensures At(MixBlocks(deals, m.t, b)[q * (m.t + 1) + e], p + 1) == F(Combination(Rests(SlotRows(draws, j), q, p), e, m.n))
    {
      SlotShares(m, draws, j, q, p);
      MixedFrom(deals, m.t, b, q, e, p + 1, Rests(SlotRows(draws, j), q, p));
    }
  }

  lemma SlotIs(m: Amounts, draws: seq<Draws>, j: nat)
    requires AllDrawn(m, draws) && j < m.k
    ensures |draws| == m.n && Dealt(UnpackedSlot(m, draws, j), Blocks(3 * m.mults, m.t))
  {
    hide AllDrawn, UnpackedSlot, Blocks;
    AllOf(m, draws);
    Triples.UnpackedDealt(m, draws, j);
  }

  lemma SlotColumn(m: Amounts, draws: seq<Draws>, j: nat, q: nat)
    requires IsPrime(P61) && AllDrawn(m, draws) && q < Blocks(3 * m.mults, m.t) && j < m.k
    ensures var deals, vals := UnpackedSlot(m, draws, j), Secrets(SlotRows(draws, j), q);
      |deals| == m.n && forall i :: 0 <= i < |deals| ==> q < |deals[i]| && At(deals[i][q], Slot(j)) == F(vals[i])
  {
    hide At, F, Slot, IsPrime, AllDrawn, Blocks, UnpackedDeal;
    AllOf(m, draws);
    var deals, vals := UnpackedSlot(m, draws, j), Secrets(SlotRows(draws, j), q);
    forall i | 0 <= i < |deals| ensures q < |deals[i]| && At(deals[i][q], Slot(j)) == F(vals[i]) {
      OneOf(m, draws, i);
      UnpackedDealHolds(m.t, j, draws[i].unpacked[j][q]);
    }
  }

  lemma SlotShares(m: Amounts, draws: seq<Draws>, j: nat, q: nat, p: nat)
    requires IsPrime(P61) && AllDrawn(m, draws) && q < Blocks(3 * m.mults, m.t) && j < m.k && p < m.t
    ensures var deals, vals := UnpackedSlot(m, draws, j), Rests(SlotRows(draws, j), q, p);
      |deals| == m.n && forall i :: 0 <= i < |deals| ==> q < |deals[i]| && At(deals[i][q], p + 1) == F(vals[i])
  {
    hide At, F, Slot, IsPrime, AllDrawn, Blocks, UnpackedDeal;
    AllOf(m, draws);
    var deals, vals := UnpackedSlot(m, draws, j), Rests(SlotRows(draws, j), q, p);
    forall i | 0 <= i < |deals| ensures q < |deals[i]| && At(deals[i][q], p + 1) == F(vals[i]) {
      OneOf(m, draws, i);
      UnpackedDealHolds(m.t, j, draws[i].unpacked[j][q]);
    }
  }

  /** The sharings of zero: the shares of the first n - k parties. */
  lemma ZeroNumbers(m: Amounts, draws: seq<Draws>, q: nat, e: nat)
    requires IsPrime(P61) && AllDrawn(m, draws) && q < Blocks(3 * m.mults + m.ios, m.t) && e <= m.t
    ensures var z := q * (m.t + 1) + e;
      && z < |Zs(m, draws)|
      && forall p :: 0 <= p < m.n - m.k ==> At(Zs(m, draws)[z], p + 1) == F(Combination(Rests(ZeroRows(draws), q, p), e, m.n))
  {
    hide *;
    AllOf(m, draws);
    ZsIs(m, draws);
    var deals, b := ZeroAll(m, draws), Blocks(3 * m.mults + m.ios, m.t);
    MixedPlace(deals, m.t, b, q, e);
    forall p | 0 <= p < m.n - m.k
      ensures At(Zs(m, draws)[q * (m.t + 1) + e], p + 1) == F(Combination(Rests(ZeroRows(draws), q, p), e, m.n))
    {
      ZeroColumn(m, draws, q, p);
      MixedFrom(deals, m.t, b, q, e, p + 1, Rests(ZeroRows(draws), q, p));
    }
  }

  lemma ZsIs(m: Amounts, draws: seq<Draws>)
    requires AllDrawn(m, draws)
    ensures Dealt(ZeroAll(m, draws), Blocks(3 * m.mults + m.ios, m.t))
    ensures Zs(m, draws) == MixBlocks(ZeroAll(m, draws), m.t, Blocks(3 * m.mults + m.ios, m.t))
  {
    hide AllDrawn, ZeroAll, MixBlocks, Blocks;
    DealtAll(m, draws);
  }

  lemma ZeroColumn(m: Amounts, draws: seq<Draws>, q: nat, p: nat)
    requires IsPrime(P61) && AllDrawn(m, draws) && q < Blocks(3 * m.mults + m.ios, m.t) && p < m.n - m.k
    ensures var deals, vals := ZeroAll(m, draws), Rests(ZeroRows(draws), q, p);
      forall i :: 0 <= i < |deals| ==> q < |deals[i]| && At(deals[i][q], p + 1) == F(vals[i])
  {
    hide At, F, IsPrime, AllDrawn, Blocks, ZeroDeal;
    AllOf(m, draws);
    var deals, vals := ZeroAll(m, draws), Rests(ZeroRows(draws), q, p);
    forall i | 0 <= i < |deals| ensures q < |deals[i]| && At(deals[i][q], p + 1) == F(vals[i]) {
      OneOf(m, draws, i);
      ZeroDealHolds(m.n, m.k, m.t, draws[i].zero[q]);
    }
  }

  lemma MixedPlace(deals: seq<seq<Coeffs>>, t: nat, m: nat, q: nat, e: nat)
    requires Dealt(deals, m) && q < m && e <= t
    ensures q * (t + 1) + e < |MixBlocks(deals, t, m)|
  {
    hide MixBlocks;
    BlockBefore(q, m, t, e);
  }

  /** The sharings of zero that hide the products. */
  lemma ZeroProdNumbers(m: Amounts, draws: seq<Draws>, j: nat, q: nat, e: nat)
    requires IsPrime(P61) && AllDrawn(m, draws) && q < Blocks(m.mults, m.t) && e <= m.t && j < m.k
    ensures var z := q * (m.t + 1) + e;
      && z < |FzRow(m, draws, j)|
      && forall p :: 0 <= p < m.n - 1 ==> At(FzRow(m, draws, j)[z], p + 1) == F(Combination(Rests(ZeroSlotRows(draws, j), q, p), e, m.n))
  {
    hide *;
    FzIs(m, draws, j);
    var deals, b := ZeroProdSlot(m, draws, j), Blocks(m.mults, m.t);
    MixedPlace(deals, m.t, b, q, e);
    forall p | 0 <= p < m.n - 1
      ensures At(FzRow(m, draws, j)[q * (m.t + 1) + e], p + 1) == F(Combination(Rests(ZeroSlotRows(draws, j), q, p), e, m.n))
    {
      ZeroSlotShares(m, draws, j, q, p);
      MixedFrom(deals, m.t, b, q, e, p + 1, Rests(ZeroSlotRows(draws, j), q, p));
    }
  }

  lemma FzIs(m: Amounts, draws: seq<Draws>, j: nat)
    requires AllDrawn(m, draws) && j < m.k
    ensures |draws| == m.n && Dealt(ZeroProdSlot(m, draws, j), Blocks(m.mults, m.t))
    ensures FzRow(m, draws, j) == MixBlocks(ZeroProdSlot(m, draws, j), m.t, Blocks(m.mults, m.t))
  {
    hide AllDrawn, ZeroProdSlot, MixBlocks, Blocks;
    AllOf(m, draws);
    Triples.ZeroProdDealt(m, draws, j);
  }

  lemma ZeroSlotShares(m: Amounts, draws: seq<Draws>, j: nat, q: nat, p: nat)
    requires IsPrime(P61) && AllDrawn(m, draws) && q < Blocks(m.mults, m.t) && j < m.k && p < m.n - 1
    ensures var deals, vals := ZeroProdSlot(m, draws, j), Rests(ZeroSlotRows(draws, j), q, p);
      |deals| == m.n && forall i :: 0 <= i < |deals| ==> q < |deals[i]| && At(deals[i][q], p + 1) == F(vals[i])
  {
    hide At, F, Slot, IsPrime, AllDrawn, Blocks, ZeroProdDeal;
    AllOf(m, draws);
    var deals, vals := ZeroProdSlot(m, draws, j), Rests(ZeroSlotRows(draws, j), q, p);
    forall i | 0 <= i < |deals| ensures q < |deals[i]| && At(deals[i][q], p + 1) == F(vals[i]) {
      OneOf(m, draws, i);
      ZeroProdDealHolds(m.n, j, draws[i].zeroProd[j][q]);
    }
  }

  /** P1 learns of an input or a multiplication what its wire carries less the combination of what all parties drew
      for it. */
  lemma MaskedByAll(lay: Layout, t: nat, draws: seq<Draws>, inputs: seq<seq<int>>, q: nat, e: nat)
    requires ProperRun(lay, t, draws, inputs) && e <= t && q * (t + 1) + e < |Fresh(lay)|
    ensures var fi, g := FiOf(lay, t, draws), Fresh(lay)[q * (t + 1) + e];
      && g < |lay.gates|
      && Masked(lay, fi, inputs, g) == F(WireValue(lay, fi, inputs, g) - Combination(Secrets(IndRows(draws), q), e, lay.clients))
  {
    hide At, F, Slot, IsPrime, Combination, Blocks, Fresh, Mults, IOs, WireValue, Matches, WellFormed, Fa, Fb, Fc, Zs, Inds, PackAll;
    var m, z := AmountsOf(lay, t), q * (t + 1) + e;
    var fi := FiOf(lay, t, draws);
    SizeOk(lay);
    BlockOf(m.inds, t, q, e);
    IndNumbers(m, draws, q, e, 0);
    Correlators.FreshShare(lay, fi.ind, z, 0);
    var g := Fresh(lay)[z];
    var v, c := WireValue(lay, fi, inputs, g), Combination(Secrets(IndRows(draws), q), e, lay.clients);
    FF(c);
    FOps(v, F(c), v, c);
  }

  lemma BlockOf(inds: nat, t: nat, q: nat, e: nat)
    requires q * (t + 1) + e < inds
    ensures q < Blocks(inds, t)
  {
    hide Blocks;
    if q >= Blocks(inds, t) {
      AtLeast(q, Blocks(inds, t), t + 1);
    }
  }

  lemma AtLeast(a: nat, b: nat, u: nat)
    requires a >= b
    ensures a * u >= b * u
  {
  }

  /** P1 opens the product of two factors plus a mask. */
  lemma OpenedProduct(m: Amounts, draws: seq<Draws>, j: nat, q: nat)
    requires IsPrime(P61) && AllDrawn(m, draws) && j < m.k && q < m.mults
    ensures At(Prods(m, draws)[j][q], Slot(j)) ==
      F(At(Fa(m, draws)[j][q], Slot(j)) * At(Fb(m, draws)[j][q], Slot(j)) + At(Fm(m, draws)[j][q], Slot(j)))
  {
    hide At, Slot, Fa, Fb, Fm, FzRow, IsPrime, F, ProdPoly, AllDrawn;
    var x := Slot(j);
    var a, b, mask, z := Fa(m, draws)[j][q], Fb(m, draws)[j][q], Fm(m, draws)[j][q], FzRow(m, draws, j)[q];
    FzGood(m, draws, j);
    ProdPolyAt(a, b, mask, z, x);
    ProdShareIs(At(a, x), At(b, x), At(mask, x), F(0));
    FF(0);
    FOps(At(a, x) * At(b, x) + At(mask, x), F(0), At(a, x) * At(b, x) + At(mask, x), 0);
  }

  // ---------------------------------------------------------------- which number goes where

  /** Number z of a list of mixed sharings, and its share for party p: the combination of what was drawn for its block. */
  function Number(rows: seq<seq<Draw>>, z: nat, t: nat): int {
    Combination(Secrets(rows, z / (t + 1)), z % (t + 1), |rows|)
  }

  function NumberShare(rows: seq<seq<Draw>>, z: nat, t: nat, p: nat): int {
    Combination(Rests(rows, z / (t + 1), p), z % (t + 1), |rows|)
  }

  lemma BlockParts(z: nat, t: nat)
    ensures var q, e := z / (t + 1), z % (t + 1);
      q >= 0 && 0 <= e <= t && z == q * (t + 1) + e
  {
  }

  lemma SlotNumberAt(m: Amounts, draws: seq<Draws>, j: nat, z: nat)
    requires IsPrime(P61) && AllDrawn(m, draws) && z < 3 * m.mults && j < m.k
    ensures Dealt(UnpackedSlot(m, draws, j), Blocks(3 * m.mults, m.t))
    ensures var mixed := MixBlocks(UnpackedSlot(m, draws, j), m.t, Blocks(3 * m.mults, m.t));
      && z < |mixed| && At(mixed[z], Slot(j)) == F(Number(SlotRows(draws, j), z, m.t))
      && forall p :: 0 <= p < m.t ==> At(mixed[z], p + 1) == F(NumberShare(SlotRows(draws, j), z, m.t, p))
  {
    hide At, F, Slot, IsPrime, MixBlocks, Combination, AllDrawn, Blocks, UnpackedSlot, SlotRows, Secrets, Rests;
    AllOf(m, draws);
    BlockParts(z, m.t);
    BlockOf(3 * m.mults, m.t, z / (m.t + 1), z % (m.t + 1));
    SlotNumbers(m, draws, j, z / (m.t + 1), z % (m.t + 1));
  }

  /** The factors and the mask of triple q at slot j are numbers q, m + q and 2m + q of its sharings, for m triples. */
  lemma FactorNumbers(m: Amounts, draws: seq<Draws>, j: nat, q: nat)
    requires IsPrime(P61) && AllDrawn(m, draws) && q < m.mults && j < m.k
    ensures var a, b, mask, rows := Fa(m, draws)[j][q], Fb(m, draws)[j][q], Fm(m, draws)[j][q], SlotRows(draws, j);
      && At(a, Slot(j)) == F(Number(rows, q, m.t))
      && At(b, Slot(j)) == F(Number(rows, m.mults + q, m.t))
      && At(mask, Slot(j)) == F(Number(rows, 2 * m.mults + q, m.t))
      && forall p :: 0 <= p < m.t ==>
        && At(a, p + 1) == F(NumberShare(rows, q, m.t, p))
        && At(b, p + 1) == F(NumberShare(rows, m.mults + q, m.t, p))
        && At(mask, p + 1) == F(NumberShare(rows, 2 * m.mults + q, m.t, p))
  {
    hide At, F, Slot, IsPrime, MixBlocks, AllDrawn, Blocks, UnpackedSlot, SlotRows, Number, NumberShare;
    DealtAll(m, draws);
    SlotNumberAt(m, draws, j, q);
    SlotNumberAt(m, draws, j, m.mults + q);
    SlotNumberAt(m, draws, j, 2 * m.mults + q);
  }

  /** A triple: in slot j its factors are different numbers, and the third entry is their product. */
  lemma TripleNumbers(m: Amounts, draws: seq<Draws>, j: nat, q: nat)
    requires IsPrime(P61) && AllDrawn(m, draws) && q < m.mults && j < m.k
    ensures var fi, rows := Preprocessed(m, draws), SlotRows(draws, j);
      var a, b := Number(rows, q, m.t), Number(rows, m.mults + q, m.t);
      At(fi.a[q], Slot(j)) == F(a) && At(fi.b[q], Slot(j)) == F(b) && At(fi.c[q], Slot(j)) == F(a * b)
  {
    hide At, F, Slot, IsPrime, AllDrawn, Fa, Fb, Fc, Fm, PackAll, Inds, Zs, SlotRows, Number, NumberShare;
    AllOf(m, draws);
    forall i | 0 <= i < m.k ensures |Fa(m, draws)[i][q]| <= m.t + 1 && |Fb(m, draws)[i][q]| <= m.t + 1 {
      FactorLengths(m, draws, i);
    }
    PackAllIs(Fa(m, draws), m, q, j);
    PackAllIs(Fb(m, draws), m, q, j);
    FactorNumbers(m, draws, j, q);
    TripleAt(m, draws, q, j);
    var rows := SlotRows(draws, j);
    var a, b := Number(rows, q, m.t), Number(rows, m.mults + q, m.t);
    FF(a);
    FF(b);
    FOps(F(a), F(b), a, b);
  }

  lemma ZeroNumberAt(m: Amounts, draws: seq<Draws>, z: nat)
    requires IsPrime(P61) && AllDrawn(m, draws) && z < 3 * m.mults + m.ios
    ensures z < |Zs(m, draws)|
    ensures forall p :: 0 <= p < m.n - m.k ==> At(Zs(m, draws)[z], p + 1) == F(NumberShare(ZeroRows(draws), z, m.t, p))
  {
    hide At, F, IsPrime, Combination, AllDrawn, Blocks, Zs, ZeroRows, Rests;
    AllOf(m, draws);
    BlockParts(z, m.t);
    BlockOf(3 * m.mults + m.ios, m.t, z / (m.t + 1), z % (m.t + 1));
    ZeroNumbers(m, draws, z / (m.t + 1), z % (m.t + 1));
  }

  /** Triple q takes the sharings of zero q, m + q and 2m + q. */
  lemma TripleZeros(m: Amounts, draws: seq<Draws>, q: nat)
    requires IsPrime(P61) && AllDrawn(m, draws) && q < m.mults
    ensures var fi, rows := Preprocessed(m, draws), ZeroRows(draws);
      forall p :: 0 <= p < m.n - m.k ==>
        && At(fi.o1[q], p + 1) == F(NumberShare(rows, q, m.t, p))
        && At(fi.o2[q], p + 1) == F(NumberShare(rows, m.mults + q, m.t, p))
        && At(fi.o3[q], p + 1) == F(NumberShare(rows, 2 * m.mults + q, m.t, p))
  {
    hide At, F, IsPrime, AllDrawn, Fa, Fb, Fc, Fm, PackAll, Inds, Zs, ZeroRows, NumberShare;
    ZeroNumberAt(m, draws, q);
    ZeroNumberAt(m, draws, m.mults + q);
    ZeroNumberAt(m, draws, 2 * m.mults + q);
  }

  /** Batch x of inputs or outputs takes sharing of zero x when x < 2m, as one of the triples does, and sharing
      m + x after that. */
  lemma BatchZeros(m: Amounts, draws: seq<Draws>, x: nat)
    requires IsPrime(P61) && AllDrawn(m, draws) && x < 2 * m.mults + m.ios
    ensures var fi, z := Preprocessed(m, draws), if x < 2 * m.mults then x else m.mults + x;
      && x < |fi.io|
      && forall p :: 0 <= p < m.n - m.k ==> At(fi.io[x], p + 1) == F(NumberShare(ZeroRows(draws), z, m.t, p))
  {
    hide At, F, IsPrime, AllDrawn, Fa, Fb, Fc, Fm, PackAll, Inds, Zs, ZeroRows, NumberShare;
    ZeroNumberAt(m, draws, if x < 2 * m.mults then x else m.mults + x);
  }

  // ---------------------------------------------------------------- the local formulas in integers

  /** a b + mask + zero, for a product of factors. */
  lemma ProdShareIs(a: int, b: int, mask: int, zero: int)
    ensures ProdShare(a, b, mask, zero) == F(a * b + mask + zero)
  {
    hide F;
    FF(a * b);
    FOps(F(a * b), mask, a * b, mask);
    FF(a * b + mask);
    FOps(F(a * b + mask), zero, a * b + mask, zero);
  }

  /** The correction of a batch. */
  lemma DeltaShareIs(packedC: int, ra: int, rb: int, a: int, b: int, c: int, o: int)
    ensures DeltaShare(packedC, ra, rb, a, b, c, o) == F(packedC + ra * rb - ra * b - rb * a + c + o)
  {
    hide F, Add;
    DeltaInner(ra, rb, a, b);
    var e := ra * rb - ra * b - rb * a;
    DeltaOuter(packedC, e, c, o);
  }

  lemma DeltaInner(ra: int, rb: int, a: int, b: int)
    ensures Sub(Sub(Mul(ra, rb), Mul(ra, b)), Mul(rb, a)) == F(ra * rb - ra * b - rb * a)
  {
    hide F;
    var u, v, w := ra * rb, ra * b, rb * a;
    FReduced(u, v);
    FF(u - v);
    FF(w);
    FOps(F(u - v), F(w), u - v, w);
  }

  lemma DeltaOuter(packedC: int, e: int, c: int, o: int)
    ensures Add(packedC, Add(Add(F(e), c), o)) == F(packedC + e + c + o)
  {
    hide F;
    FF(e);
    FOps(F(e), c, e, c);
    FF(e + c);
    FOps(F(e + c), o, e + c, o);
    FF(e + c + o);
    FOps(packedC, F(e + c + o), packedC, e + c + o);
    assert packedC + (e + c + o) == packedC + e + c + o;
  }

  /** The share of a batch of products. */
  lemma ProductShareIs(ma: int, mb: int, la: int, lb: int, d: int)
    ensures ProductShare(ma, mb, la, lb, d) == F(mb * la + ma * lb + ma * mb + d)
  {
    hide F;
    var u, v, w := mb * la, ma * lb, ma * mb;
    FReduced(u, v);
    FF(u + v);
    FF(w);
    FOps(F(u + v), F(w), u + v, w);
    FF(u + v + w);
    FOps(F(u + v + w), d, u + v + w, d);
  }

  /** What a party sends of a batch: its share of the packed masks, of the factor, and of zero. */
  lemma MaskedShareIs(lay: Layout, fi: FIPolys, q: nat, x: int)
    requires Enough(lay, fi) && q < |fi.a|
    ensures MembersOf(lay, Lefts(lay, Mults(lay)[q])) && MembersOf(lay, Rights(lay, Mults(lay)[q])) && lay.batchSize > 0
    ensures var ls, rs := Lefts(lay, Mults(lay)[q]), Rights(lay, Mults(lay)[q]);
      && At(MaskedA(lay, fi, q), x) == F(At(Pack(|ls|, MemberPolys(lay, fi.ind, ls)), x) + At(fi.a[q], x) + At(fi.o1[q], x))
      && At(MaskedB(lay, fi, q), x) == F(At(Pack(|rs|, MemberPolys(lay, fi.ind, rs)), x) + At(fi.b[q], x) + At(fi.o2[q], x))
  {
    hide At, F, Fresh, Mults, IOs, WellFormed, Pack, MemberPolys, AddP, Lefts, Rights;
    SizeOk(lay);
    BatchOk(lay, fi, q);
    MaskedSum(Pack(|Mults(lay)[q]|, MemberPolys(lay, fi.ind, Lefts(lay, Mults(lay)[q]))), fi.a[q], fi.o1[q], x);
    MaskedSum(Pack(|Mults(lay)[q]|, MemberPolys(lay, fi.ind, Rights(lay, Mults(lay)[q]))), fi.b[q], fi.o2[q], x);
  }

  /** What a party keeps of a batch: its shares of both masks and of the correction, from the two reshared values. */
  lemma CorrectionIs(lay: Layout, fi: FIPolys, q: nat, x: int)
    requires Enough(lay, fi) && q < |fi.a|
    ensures MembersOf(lay, Mults(lay)[q]) && lay.batchSize > 0
    ensures var ms := Mults(lay)[q];
      var ra, rb := At(Reshared(MaskedA(lay, fi, q), lay.batchSize), x), At(Reshared(MaskedB(lay, fi, q), lay.batchSize), x);
      var packed, a, b := At(Pack(|ms|, MemberPolys(lay, fi.ind, ms)), x), At(fi.a[q], x), At(fi.b[q], x);
      && At(LambdaA(lay, fi, q), x) == F(ra - a) && At(LambdaB(lay, fi, q), x) == F(rb - b)
      && At(Delta(lay, fi, q), x) == F(ra * rb - ra * b - rb * a + At(fi.c[q], x) + At(fi.o3[q], x) - packed)
  {
    hide At, F, Fresh, Mults, IOs, WellFormed, Pack, MemberPolys, AddP, Lefts, Rights, SubP, Reshared, MaskedA, MaskedB, DeltaPoly, DeltaShare;
    SizeOk(lay);
    BatchOk(lay, fi, q);
    var ms, pa, pb := Mults(lay)[q], Reshared(MaskedA(lay, fi, q), lay.batchSize), Reshared(MaskedB(lay, fi, q), lay.batchSize);
    var p := Pack(|ms|, MemberPolys(lay, fi.ind, ms));
    var ra, rb, a, b, c, o := At(pa, x), At(pb, x), At(fi.a[q], x), At(fi.b[q], x), At(fi.c[q], x), At(fi.o3[q], x);
    AtSub(pa, fi.a[q], x);
    AtSub(pb, fi.b[q], x);
    NegatedAt(p, x);
    DeltaAt(SubP([0], p), pa, pb, fi.a[q], fi.b[q], fi.c[q], fi.o3[q], x);
    DeltaShareIs(F(-At(p, x)), ra, rb, a, b, c, o);
    var e := ra * rb - ra * b - rb * a + c + o;
    FF(-At(p, x));
    FOps(F(-At(p, x)), e, -At(p, x), e);
  }

  lemma NegatedAt(p: Coeffs, x: int)
    ensures At(SubP([0], p), x) == F(-At(p, x))
  {
    hide F, SubP, Eval;
    AtSub([0], p, x);
    ConstantIs([0], x);
    FF(0);
    FF(At(p, x));
    FOps(F(0), At(p, x), 0, At(p, x));
  }

  /** What a party sends to the owner of a batch of inputs or outputs. */
  lemma OwnerShareIs(lay: Layout, fi: FIPolys, b: nat, x: int)
    requires Enough(lay, fi) && b < |IOs(lay)|
    ensures lay.batchSize > 0 && MembersOf(lay, IOs(lay)[b].members) && b < |fi.io|
    ensures var ms := IOs(lay)[b].members;
      At(IOPoly(lay, fi, b), x) == F(At(Pack(|ms|, MemberPolys(lay, fi.ind, ms)), x) + At(fi.io[b], x))
  {
    hide At, F, Fresh, Mults, IOs, WellFormed, Pack, MemberPolys, AddP;
    SizeOk(lay);
    IOBatchOk(lay, b);
    var p := Pack(|IOs(lay)[b].members|, MemberPolys(lay, fi.ind, IOs(lay)[b].members));
    AtAdd(p, fi.io[b], x);
    FOps(At(p, x), At(fi.io[b], x), At(p, x), At(fi.io[b], x));
  }

  lemma MaskedSum(p: Coeffs, a: Coeffs, o: Coeffs, x: int)
    ensures At(AddP(p, AddP(a, o)), x) == F(At(p, x) + At(a, x) + At(o, x))
  {
    hide At, F, AddP;
    AtAdd(a, o, x);
    AtAdd(p, AddP(a, o), x);
    FF(At(a, x) + At(o, x));
    FOps(At(p, x), F(At(a, x) + At(o, x)), At(p, x), At(a, x) + At(o, x));
    assert At(p, x) + (At(a, x) + At(o, x)) == At(p, x) + At(a, x) + At(o, x);
  }
}
