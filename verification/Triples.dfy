/** Function-independent preprocessing as a whole: what all parties deal, what the mixing and
    the opened products leave, and why it is good. */
module Triples {
  import opened Modular
  import opened Poly
  import opened Scl
  import opened Sequences
  import opened PackedSharing
  import opened Dealing
  import opened Circuits
  import opened Wiring
  import opened Preprocessing

  /** The amounts a circuit needs, for n parties, batches of k and threshold t. */
  datatype Amounts = Amounts(n: nat, k: nat, t: nat, inds: nat, mults: nat, ios: nat)

  ghost predicate AllDrawn(m: Amounts, draws: seq<Draws>) {
    && Sizes(m.n, m.k, m.t) && |draws| == m.n
    && forall i :: 0 <= i < m.n ==> Drawn(m.n, m.k, m.t, m.inds, m.mults, m.ios, draws[i])
  }

  // ---------------------------------------------------------------- what everyone deals

  ghost function IndAll(m: Amounts, draws: seq<Draws>): (r: seq<seq<Coeffs>>)
    requires AllDrawn(m, draws)
    ensures |r| == m.n
  {
    seq(m.n, i requires 0 <= i < m.n => IndDeals(m.n, m.k, m.t, draws[i].ind))
  }

  ghost function UnpackedAll(m: Amounts, draws: seq<Draws>): (r: seq<seq<seq<Coeffs>>>)
    requires AllDrawn(m, draws)
    ensures |r| == m.k
  {
    seq(m.k, j requires 0 <= j < m.k => UnpackedSlot(m, draws, j))
  }

  ghost function UnpackedSlot(m: Amounts, draws: seq<Draws>, j: nat): (r: seq<seq<Coeffs>>)
    requires AllDrawn(m, draws) && j < m.k
    ensures |r| == m.n
  {
    seq(m.n, i requires 0 <= i < m.n => UnpackedDeals(m.t, j, draws[i].unpacked[j]))
  }

  ghost function ZeroAll(m: Amounts, draws: seq<Draws>): (r: seq<seq<Coeffs>>)
    requires AllDrawn(m, draws)
    ensures |r| == m.n
  {
    seq(m.n, i requires 0 <= i < m.n => ZeroDeals(m.n, m.k, m.t, draws[i].zero))
  }

  ghost function ZeroProdAll(m: Amounts, draws: seq<Draws>): (r: seq<seq<seq<Coeffs>>>)
    requires AllDrawn(m, draws)
    ensures |r| == m.k
  {
    seq(m.k, j requires 0 <= j < m.k => ZeroProdSlot(m, draws, j))
  }

  ghost function ZeroProdSlot(m: Amounts, draws: seq<Draws>, j: nat): (r: seq<seq<Coeffs>>)
    requires AllDrawn(m, draws) && j < m.k
    ensures |r| == m.n
  {
    seq(m.n, i requires 0 <= i < m.n => ZeroProdDeals(m.n, j, draws[i].zeroProd[j]))
  }

  lemma DealtAll(m: Amounts, draws: seq<Draws>)
    requires AllDrawn(m, draws)
    ensures DealtExactly(IndAll(m, draws), Blocks(m.inds, m.t))
    ensures DealtExactly(ZeroAll(m, draws), Blocks(3 * m.mults + m.ios, m.t))
    ensures RowsExactly(UnpackedAll(m, draws), m.n, Blocks(3 * m.mults, m.t))
    ensures RowsDealt(UnpackedAll(m, draws), Blocks(3 * m.mults, m.t))
    ensures RowsExactly(ZeroProdAll(m, draws), m.n, Blocks(m.mults, m.t))
    ensures RowsDealt(ZeroProdAll(m, draws), Blocks(m.mults, m.t))
  {
    hide Blocks, IndDeal, UnpackedDeal, ZeroDeal, ZeroProdDeal;
    forall j | 0 <= j < m.k ensures DealtExactly(UnpackedSlot(m, draws, j), Blocks(3 * m.mults, m.t)) {
      UnpackedDealt(m, draws, j);
    }
    forall j | 0 <= j < m.k ensures DealtExactly(ZeroProdSlot(m, draws, j), Blocks(m.mults, m.t)) {
      ZeroProdDealt(m, draws, j);
    }
  }

  lemma UnpackedDealt(m: Amounts, draws: seq<Draws>, j: nat)
    requires AllDrawn(m, draws) && j < m.k
    ensures DealtExactly(UnpackedSlot(m, draws, j), Blocks(3 * m.mults, m.t))
    ensures forall i :: 0 <= i < m.n ==> Lengths(UnpackedSlot(m, draws, j)[i], m.t + 1)
  {
    hide Blocks, UnpackedDeal;
  }

  lemma ZeroProdDealt(m: Amounts, draws: seq<Draws>, j: nat)
    requires AllDrawn(m, draws) && j < m.k
    ensures DealtExactly(ZeroProdSlot(m, draws, j), Blocks(m.mults, m.t))
    ensures forall i :: 0 <= i < m.n ==> Lengths(ZeroProdSlot(m, draws, j)[i], m.n)
  {
    hide Blocks, ZeroProdDeal;
  }

  // ---------------------------------------------------------------- what is left after mixing and multiplying

  ghost function Inds(m: Amounts, draws: seq<Draws>): (r: seq<Coeffs>)
    requires AllDrawn(m, draws)
    ensures |r| >= m.inds && Nonempty(r)
  {
    DealtAll(m, draws);
    MixBlocks(IndAll(m, draws), m.t, Blocks(m.inds, m.t))
  }

  ghost function Zs(m: Amounts, draws: seq<Draws>): (r: seq<Coeffs>)
    requires AllDrawn(m, draws)
    ensures |r| >= 3 * m.mults + m.ios && Nonempty(r)
  {
    DealtAll(m, draws);
    MixBlocks(ZeroAll(m, draws), m.t, Blocks(3 * m.mults + m.ios, m.t))
  }

  ghost function Fa(m: Amounts, draws: seq<Draws>): (r: seq<seq<Coeffs>>)
    requires AllDrawn(m, draws)
    ensures |r| == m.k && Grid(r, m.mults)
  {
    DealtAll(m, draws);
    FirstRows(UnpackedAll(m, draws), m.t, m.mults)
  }

  ghost function Fb(m: Amounts, draws: seq<Draws>): (r: seq<seq<Coeffs>>)
    requires AllDrawn(m, draws)
    ensures |r| == m.k && Grid(r, m.mults)
  {
    DealtAll(m, draws);
    SecondRows(UnpackedAll(m, draws), m.t, m.mults)
  }

  ghost function Fm(m: Amounts, draws: seq<Draws>): (r: seq<seq<Coeffs>>)
    requires AllDrawn(m, draws)
    ensures |r| == m.k && Grid(r, m.mults)
  {
    DealtAll(m, draws);
    MaskRows(UnpackedAll(m, draws), m.t, m.mults)
  }

  ghost function FzRow(m: Amounts, draws: seq<Draws>, j: nat): (r: seq<Coeffs>)
    requires AllDrawn(m, draws) && j < m.k
    ensures |r| >= m.mults && Nonempty(r)
  {
    ZeroProdDealt(m, draws, j);
    MixBlocks(ZeroProdSlot(m, draws, j), m.t, Blocks(m.mults, m.t))
  }

  ghost function Fz(m: Amounts, draws: seq<Draws>): (r: seq<seq<Coeffs>>)
    requires AllDrawn(m, draws)
    ensures |r| == m.k
  {
    seq(m.k, j requires 0 <= j < m.k => FzRow(m, draws, j))
  }

  /** The masked products that P1 opens, and what it returns. */
  ghost function Prods(m: Amounts, draws: seq<Draws>): (r: seq<seq<Coeffs>>)
    requires AllDrawn(m, draws)
    ensures |r| == m.k
  {
    seq(m.k, j requires 0 <= j < m.k =>
      ProdRow(Fa(m, draws)[j], Fb(m, draws)[j], Fm(m, draws)[j], FzRow(m, draws, j), m.mults))
  }

  ghost function Backs(m: Amounts, draws: seq<Draws>): (r: seq<seq<Coeffs>>)
    requires AllDrawn(m, draws)
    ensures |r| == m.k && Grid(r, m.mults)
  {
    ReturnedRows(Prods(m, draws), m.t)
  }

  ghost function Fc(m: Amounts, draws: seq<Draws>): (r: seq<seq<Coeffs>>)
    requires AllDrawn(m, draws)
    ensures |r| == m.k && Grid(r, m.mults)
  {
    SubRows(Backs(m, draws), Fm(m, draws), m.mults)
  }

  ghost function PackAll(rows: seq<seq<Coeffs>>, m: nat): (r: seq<Coeffs>)
    requires Grid(rows, m)
    ensures |r| == m && Nonempty(r)
  {
    seq(m, q requires 0 <= q < m => PackColumn(rows, m, q))
  }

  /** The whole function-independent preprocessing. */
  ghost function Preprocessed(m: Amounts, draws: seq<Draws>): (fi: FIPolys)
    requires AllDrawn(m, draws)
  {
    var zs := Zs(m, draws);
    FIPolys(Inds(m, draws), PackAll(Fa(m, draws), m.mults), PackAll(Fb(m, draws), m.mults), PackAll(Fc(m, draws), m.mults),
            zs[..m.mults], zs[m.mults..2 * m.mults], zs[2 * m.mults..3 * m.mults], zs[..2 * m.mults] + zs[3 * m.mults..])
  }

  // ---------------------------------------------------------------- why it is good

  /** Individual sharings: degree n - k, one secret in all slots. */
  lemma IndsGood(m: Amounts, draws: seq<Draws>)
    requires IsPrime(P61) && AllDrawn(m, draws)
    ensures Lengths(Inds(m, draws), m.n - m.k + 1) && Uniform(Inds(m, draws), m.k)
  {
    hide At, Slot, Blocks, IndDeal, IsPrime, MixBlocks;
    DealtAll(m, draws);
    var deals := IndAll(m, draws);
    IndLengths(m, draws);
    MixBlocksLengths(deals, m.t, Blocks(m.inds, m.t), m.n - m.k);
    forall z, j | 0 <= z < |Inds(m, draws)| && 0 <= j < m.k
      ensures At(Inds(m, draws)[z], Slot(j)) == At(Inds(m, draws)[z], Slot(0))
    {
      forall i, q | 0 <= i < |deals| && 0 <= q < |deals[i]|
        ensures At(deals[i][q], Slot(j)) == At(deals[i][q], Slot(0))
      {
        IndDealUniform(m, draws[i].ind[q], j);
      }
      MixBlocksSame(deals, m.t, Blocks(m.inds, m.t), Slot(j), Slot(0), z);
    }
  }

  lemma IndLengths(m: Amounts, draws: seq<Draws>)
    requires AllDrawn(m, draws)
    ensures forall i :: 0 <= i < m.n ==> Lengths(IndAll(m, draws)[i], m.n - m.k + 1)
  {
    hide Blocks, IndDeal;
  }

  lemma IndDealUniform(m: Amounts, d: Draw, j: nat)
    requires IsPrime(P61) && Sizes(m.n, m.k, m.t) && |d.rest| == m.n - 2 * m.k + 1 && j < m.k
    ensures At(IndDeal(m.n, m.k, m.t, d), Slot(j)) == At(IndDeal(m.n, m.k, m.t, d), Slot(0))
  {
    hide At, Slot, IsPrime, Coefs, Packed, F;
    var secrets := seq(m.k, _ => d.secret);
    PackedSecrets(secrets, m.n - m.k, d.rest, j);
    PackedSecrets(secrets, m.n - m.k, d.rest, 0);
    assert Coefs(Packed(secrets, m.n - m.k, d.rest)) == IndDeal(m.n, m.k, m.t, d);
  }

  /** Sharings of zero: zero in every slot, n shares determine them. */
  lemma ZsGood(m: Amounts, draws: seq<Draws>)
    requires IsPrime(P61) && AllDrawn(m, draws)
    ensures Lengths(Zs(m, draws), m.n) && ZeroInSlots(Zs(m, draws), m.k)
  {
    hide At, Slot, Blocks, ZeroDeal, IsPrime, MixBlocks, F;
    DealtAll(m, draws);
    var deals := ZeroAll(m, draws);
    var b := Blocks(3 * m.mults + m.ios, m.t);
    ZeroLengths(m, draws);
    MixBlocksLengths(deals, m.t, b, m.n - 1);
    forall z, j | 0 <= z < |Zs(m, draws)| && 0 <= j < m.k ensures At(Zs(m, draws)[z], Slot(j)) == F(0) {
      forall i, q | 0 <= i < |deals| && 0 <= q < |deals[i]| ensures At(deals[i][q], Slot(j)) == F(0) {
        ZeroDealZero(m, draws[i].zero[q], j);
      }
      MixBlocksZero(deals, m.t, b, Slot(j), z);
    }
  }

  lemma ZeroLengths(m: Amounts, draws: seq<Draws>)
    requires AllDrawn(m, draws)
    ensures forall i :: 0 <= i < m.n ==> Lengths(ZeroAll(m, draws)[i], m.n)
  {
    hide Blocks, ZeroDeal;
  }

  lemma ZeroDealZero(m: Amounts, d: Draw, j: nat)
    requires IsPrime(P61) && Sizes(m.n, m.k, m.t) && |d.rest| == m.n - m.k && j < m.k
    ensures At(ZeroDeal(m.n, m.k, m.t, d), Slot(j)) == F(0)
  {
    hide At, Slot, IsPrime, Coefs, Packed, F;
    var secrets := seq(m.k, _ => F(0));
    PackedSecrets(secrets, m.n - 1, d.rest, j);
    FF(0);
    assert Coefs(Packed(secrets, m.n - 1, d.rest)) == ZeroDeal(m.n, m.k, m.t, d);
  }

  /** Unpacked rows have degree t. */
  lemma FactorLengths(m: Amounts, draws: seq<Draws>, j: nat)
    requires AllDrawn(m, draws) && j < m.k
    ensures Lengths(Fa(m, draws)[j], m.t + 1) && Lengths(Fb(m, draws)[j], m.t + 1) && Lengths(Fm(m, draws)[j], m.t + 1)
  {
    hide Blocks, MixBlocks, UnpackedSlot;
    DealtAll(m, draws);
    UnpackedDealt(m, draws, j);
    MixBlocksLengths(UnpackedSlot(m, draws, j), m.t, Blocks(3 * m.mults, m.t), m.t);
  }

  /** The zero sharings for slot j vanish there, and n shares determine them. */
  lemma FzGood(m: Amounts, draws: seq<Draws>, j: nat)
    requires IsPrime(P61) && AllDrawn(m, draws) && j < m.k
    ensures Lengths(FzRow(m, draws, j), m.n)
    ensures forall q :: 0 <= q < |FzRow(m, draws, j)| ==> At(FzRow(m, draws, j)[q], Slot(j)) == F(0)
  {
    hide At, Slot, Blocks, ZeroProdDeal, IsPrime, MixBlocks, F;
    ZeroProdDealt(m, draws, j);
    var deals := ZeroProdSlot(m, draws, j);
    var b := Blocks(m.mults, m.t);
    MixBlocksLengths(deals, m.t, b, m.n - 1);
    forall z | 0 <= z < |FzRow(m, draws, j)| ensures At(FzRow(m, draws, j)[z], Slot(j)) == F(0) {
      forall i, q | 0 <= i < |deals| && 0 <= q < |deals[i]| ensures At(deals[i][q], Slot(j)) == F(0) {
        ZeroProdDealZero(m, draws[i].zeroProd[j][q], j);
      }
      MixBlocksZero(deals, m.t, b, Slot(j), z);
    }
  }

  lemma ZeroProdDealZero(m: Amounts, d: Draw, j: nat)
    requires IsPrime(P61) && Sizes(m.n, m.k, m.t) && |d.rest| == m.n - 1 && j < m.k
    ensures At(ZeroProdDeal(m.n, j, d), Slot(j)) == F(0)
  {
    hide At, Slot, IsPrime, Coefs, Single, F;
    SingleValues(F(0), j, m.n - 1, d.rest);
    FF(0);
  }

  /** Masked products have degree below n, so P1 opens them. */
  lemma ProdLengths(m: Amounts, draws: seq<Draws>, j: nat)
    requires IsPrime(P61) && AllDrawn(m, draws) && j < m.k
    ensures |Prods(m, draws)[j]| == m.mults && Lengths(Prods(m, draws)[j], m.n)
  {
    hide Fa, Fb, Fm, FzRow, IsPrime, AllDrawn, Conv, AddP;
    FactorLengths(m, draws, j);
    FzGood(m, draws, j);
    SizesHold(m, draws);
  }

  lemma SizesHold(m: Amounts, draws: seq<Draws>)
    requires AllDrawn(m, draws)
    ensures Sizes(m.n, m.k, m.t)
  {
  }

  /** The opened, unmasked product at slot j is the product of the factors there. */
  lemma ProductAtSlot(m: Amounts, draws: seq<Draws>, j: nat, q: nat)
    requires IsPrime(P61) && AllDrawn(m, draws) && j < m.k && q < m.mults
    ensures At(Fc(m, draws)[j][q], Slot(j)) == Mul(At(Fa(m, draws)[j][q], Slot(j)), At(Fb(m, draws)[j][q], Slot(j)))
    ensures |Fc(m, draws)[j][q]| <= m.t + 1
  {
    hide At, Slot, Fa, Fb, Fm, FzRow, IsPrime, F, Add, Sub, Mul, ProdPoly, Returned, SubP, AllDrawn;
    var x := Slot(j);
    var a, b, mask, z := Fa(m, draws)[j][q], Fb(m, draws)[j][q], Fm(m, draws)[j][q], FzRow(m, draws, j)[q];
    FzGood(m, draws, j);
    FactorLengths(m, draws, j);
    SizesHold(m, draws);
    var prod := ProdPoly(a, b, mask, z);
    assert Prods(m, draws)[j][q] == prod;
    assert Backs(m, draws)[j][q] == Returned(At(prod, x), j, m.t);
    ReturnedValue(At(prod, x), j, m.t);
    AtIs(prod, x);
    ProdPolyAt(a, b, mask, z, x);
    AtSub(Returned(At(prod, x), j, m.t), mask, x);
    AtIs(mask, x);
    MulCanon(At(a, x), At(b, x));
    AddZeroMask(Mul(At(a, x), At(b, x)), At(mask, x));
  }

  lemma MulCanon(a: int, b: int)
    ensures F(Mul(a, b)) == Mul(a, b)
  {
    hide F;
    FF(a * b);
  }

  lemma AddZeroMask(p: int, mask: int)
    requires F(p) == p && F(mask) == mask
    ensures Sub(Add(Add(p, mask), F(0)), mask) == p
  {
    hide F, Add, Sub;
    AddF(p, mask);
    AddF(p + mask, 0);
    SubF(p + mask + 0, mask);
    assert p + mask + 0 - mask == p;
  }

  /** Packed columns: degree n - k, and slot j carries row j. */
  lemma PackAllIs(rows: seq<seq<Coeffs>>, m: Amounts, q: nat, j: nat)
    requires IsPrime(P61) && Sizes(m.n, m.k, m.t) && |rows| == m.k && Grid(rows, m.mults) && q < m.mults && j < m.k
    requires forall i :: 0 <= i < m.k ==> |rows[i][q]| <= m.t + 1
    ensures |PackAll(rows, m.mults)[q]| <= m.n - m.k + 1
    ensures At(PackAll(rows, m.mults)[q], Slot(j)) == At(rows[j][q], Slot(j))
  {
    hide At, Slot, IsPrime, Pack;
    GridColumn(rows, m.mults, q);
    PackSlot(m.k, Column(rows, q), j);
    PackLength(m.k, Column(rows, q), m.t);
  }

  /** Triple q: degree n - k, a product in slot j. */
  lemma TripleAt(m: Amounts, draws: seq<Draws>, q: nat, j: nat)
    requires IsPrime(P61) && AllDrawn(m, draws) && q < m.mults && j < m.k
    ensures var fi := Preprocessed(m, draws);
            && |fi.a[q]| <= m.n - m.k + 1 && |fi.b[q]| <= m.n - m.k + 1 && |fi.c[q]| <= m.n - m.k + 1
            && At(fi.c[q], Slot(j)) == Mul(At(fi.a[q], Slot(j)), At(fi.b[q], Slot(j)))
  {
    hide At, Slot, Fa, Fb, Fc, IsPrime, F, Mul, AllDrawn, PackAll, Inds, Zs;
    SizesHold(m, draws);
    forall i | 0 <= i < m.k
      ensures |Fa(m, draws)[i][q]| <= m.t + 1 && |Fb(m, draws)[i][q]| <= m.t + 1 && |Fc(m, draws)[i][q]| <= m.t + 1
    {
      FactorLengths(m, draws, i);
      ProductAtSlot(m, draws, i, q);
    }
    PackAllIs(Fa(m, draws), m, q, j);
    PackAllIs(Fb(m, draws), m, q, j);
    PackAllIs(Fc(m, draws), m, q, j);
    ProductAtSlot(m, draws, j, q);
  }

  lemma TriplesGood(m: Amounts, draws: seq<Draws>)
    requires IsPrime(P61) && AllDrawn(m, draws)
    ensures var fi := Preprocessed(m, draws);
            && Lengths(fi.a, m.n - m.k + 1) && Lengths(fi.b, m.n - m.k + 1) && Lengths(fi.c, m.n - m.k + 1)
            && forall q, j :: 0 <= q < m.mults && 0 <= j < m.k ==>
              At(fi.c[q], Slot(j)) == Mul(At(fi.a[q], Slot(j)), At(fi.b[q], Slot(j)))
  {
    hide At, Slot, Fa, Fb, Fc, IsPrime, F, Mul, AllDrawn, PackAll, Inds, Zs;
    SizesHold(m, draws);
    var fi := Preprocessed(m, draws);
    forall q | 0 <= q < m.mults
      ensures |fi.a[q]| <= m.n - m.k + 1 && |fi.b[q]| <= m.n - m.k + 1 && |fi.c[q]| <= m.n - m.k + 1
    {
      TripleAt(m, draws, q, 0);
    }
    forall q, j | 0 <= q < m.mults && 0 <= j < m.k
      ensures At(fi.c[q], Slot(j)) == Mul(At(fi.a[q], Slot(j)), At(fi.b[q], Slot(j)))
    {
      TripleAt(m, draws, q, j);
    }
  }

  /** For every circuit and all randomness the preprocessing is enough and good. */
  lemma PreprocessedGood(lay: Layout, m: Amounts, draws: seq<Draws>)
    requires IsPrime(P61) && AllDrawn(m, draws) && WellFormed(lay) && lay.batchSize == m.k
    requires m.inds == |Fresh(lay)| && m.mults == |Mults(lay)| && m.ios == |IOs(lay)|
    ensures Enough(lay, Preprocessed(m, draws)) && GoodFI(lay, m.n, Preprocessed(m, draws))
  {
    hide At, Slot, Fa, Fb, Fc, IsPrime, F, Mul, AllDrawn, PackAll, Inds, Zs, Fresh, Mults, IOs, WellFormed;
    SizesHold(m, draws);
    IndsGood(m, draws);
    ZsGood(m, draws);
    TriplesGood(m, draws);
  }
}
