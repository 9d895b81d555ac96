/** What parties deal in the function-independent phase, and what a party obtains by mixing
    the dealt shares with the Vandermonde matrix. */
module Dealing {
  import opened Modular
  import opened Poly
  import opened Scl
  import opened Sequences
  import opened PackedSharing

  /** The coefficients of a dealt polynomial. */
  type Coeffs = seq<int>

  /** One random secret and the random values that complete its polynomial. */
  datatype Draw = Draw(secret: int, rest: seq<int>)

  /** Everything one party draws: per block, and for the unpacked sharings per slot and block. */
  datatype Draws = Draws(ind: seq<Draw>, unpacked: seq<seq<Draw>>, zero: seq<Draw>, zeroProd: seq<seq<Draw>>)

  /** Blocks of t + 1 sharings that make at least m sharings. */
  function Blocks(m: nat, t: nat): (r: nat)
    ensures m <= r * (t + 1) < m + (t + 1)
  {
    (m + (t + 1) - 1) / (t + 1)
  }

  /** The same random secret in every slot, degree n - k. */
  function IndDeal(n: nat, k: nat, t: nat, d: Draw): (c: Coeffs)
    requires Sizes(n, k, t) && |d.rest| == n - 2 * k + 1
    ensures |c| == n - k + 1
  {
    Coefs(Packed(seq(k, _ => d.secret), n - k, d.rest))
  }

  /** A random secret at one slot, degree t. */
  function UnpackedDeal(t: nat, slot: nat, d: Draw): (c: Coeffs)
    requires |d.rest| == t
    ensures |c| == t + 1
  {
    Coefs(Single(d.secret, slot, t, d.rest))
  }

  /** Zero in every slot, degree n - 1. */
  function ZeroDeal(n: nat, k: nat, t: nat, d: Draw): (c: Coeffs)
    requires Sizes(n, k, t) && |d.rest| == n - k
    ensures |c| == n
  {
    Coefs(Packed(seq(k, _ => F(0)), n - 1, d.rest))
  }

  /** Zero at one slot, degree n - 1. */
  function ZeroProdDeal(n: nat, slot: nat, d: Draw): (c: Coeffs)
    requires n > 0 && |d.rest| == n - 1
    ensures |c| == n
  {
    Coefs(Single(F(0), slot, n - 1, d.rest))
  }

  // What is dealt: the secret at its slots, and the drawn values as the shares of the first parties.

  lemma IndDealHolds(n: nat, k: nat, t: nat, d: Draw)
    requires IsPrime(P61) && Sizes(n, k, t) && |d.rest| == n - 2 * k + 1
    ensures forall j :: 0 <= j < k ==> At(IndDeal(n, k, t, d), Slot(j)) == F(d.secret)
    ensures forall p :: 0 <= p < |d.rest| ==> At(IndDeal(n, k, t, d), p + 1) == F(d.rest[p])
  {
    hide At, Slot, IsPrime, Coefs, Packed, F;
    var secrets := seq(k, _ => d.secret);
    PackedShares(secrets, n - k, d.rest);
    forall j | 0 <= j < k ensures At(IndDeal(n, k, t, d), Slot(j)) == F(d.secret) {
      PackedSecrets(secrets, n - k, d.rest, j);
    }
  }

  lemma ZeroDealHolds(n: nat, k: nat, t: nat, d: Draw)
    requires IsPrime(P61) && Sizes(n, k, t) && |d.rest| == n - k
    ensures forall j :: 0 <= j < k ==> At(ZeroDeal(n, k, t, d), Slot(j)) == F(0)
    ensures forall p :: 0 <= p < |d.rest| ==> At(ZeroDeal(n, k, t, d), p + 1) == F(d.rest[p])
  {
    hide At, Slot, IsPrime, Coefs, Packed, F;
    var secrets := seq(k, _ => F(0));
    PackedShares(secrets, n - 1, d.rest);
    FF(0);
    forall j | 0 <= j < k ensures At(ZeroDeal(n, k, t, d), Slot(j)) == F(0) {
      PackedSecrets(secrets, n - 1, d.rest, j);
    }
  }

  lemma UnpackedDealHolds(t: nat, slot: nat, d: Draw)
    requires IsPrime(P61) && |d.rest| == t && slot + t + 1 <= P61
    ensures At(UnpackedDeal(t, slot, d), Slot(slot)) == F(d.secret)
    ensures forall p :: 0 <= p < t ==> At(UnpackedDeal(t, slot, d), p + 1) == F(d.rest[p])
  {
    hide At, Slot, IsPrime, Coefs, Single, F;
    SingleValues(d.secret, slot, t, d.rest);
  }

  lemma ZeroProdDealHolds(n: nat, slot: nat, d: Draw)
    requires IsPrime(P61) && n > 0 && |d.rest| == n - 1 && slot + n <= P61
    ensures At(ZeroProdDeal(n, slot, d), Slot(slot)) == F(0)
    ensures forall p :: 0 <= p < n - 1 ==> At(ZeroProdDeal(n, slot, d), p + 1) == F(d.rest[p])
  {
    hide At, Slot, IsPrime, Coefs, Single, F;
    SingleValues(F(0), slot, n - 1, d.rest);
    FF(0);
  }

  ghost predicate RestLengths(ds: seq<Draw>, m: int) {
    forall q :: 0 <= q < |ds| ==> |ds[q].rest| == m
  }

  function IndDeals(n: nat, k: nat, t: nat, ds: seq<Draw>): (cs: seq<Coeffs>)
    requires Sizes(n, k, t) && RestLengths(ds, n - 2 * k + 1)
    ensures |cs| == |ds| && Lengths(cs, n - k + 1)
  {
    seq(|ds|, q requires 0 <= q < |ds| => IndDeal(n, k, t, ds[q]))
  }

  function UnpackedDeals(t: nat, slot: nat, ds: seq<Draw>): (cs: seq<Coeffs>)
    requires RestLengths(ds, t)
    ensures |cs| == |ds| && Lengths(cs, t + 1)
  {
    seq(|ds|, q requires 0 <= q < |ds| => UnpackedDeal(t, slot, ds[q]))
  }

  function ZeroDeals(n: nat, k: nat, t: nat, ds: seq<Draw>): (cs: seq<Coeffs>)
    requires Sizes(n, k, t) && RestLengths(ds, n - k)
    ensures |cs| == |ds| && Lengths(cs, n)
  {
    seq(|ds|, q requires 0 <= q < |ds| => ZeroDeal(n, k, t, ds[q]))
  }

  function ZeroProdDeals(n: nat, slot: nat, ds: seq<Draw>): (cs: seq<Coeffs>)
    requires n > 0 && RestLengths(ds, n - 1)
    ensures |cs| == |ds| && Lengths(cs, n)
  {
    seq(|ds|, q requires 0 <= q < |ds| => ZeroProdDeal(n, slot, ds[q]))
  }

  /** The draws one party makes for a circuit with the given amounts. */
  ghost predicate Drawn(n: nat, k: nat, t: nat, inds: nat, mults: nat, ios: nat, ds: Draws) {
    && |ds.ind| == Blocks(inds, t) && RestLengths(ds.ind, n - 2 * k + 1)
    && |ds.unpacked| == k
    && (forall j :: 0 <= j < k ==> |ds.unpacked[j]| == Blocks(3 * mults, t) && RestLengths(ds.unpacked[j], t))
    && |ds.zero| == Blocks(3 * mults + ios, t) && RestLengths(ds.zero, n - k)
    && |ds.zeroProd| == k
    && (forall j :: 0 <= j < k ==> |ds.zeroProd[j]| == Blocks(mults, t) && RestLengths(ds.zeroProd[j], n - 1))
  }

  function UnpackedRows(t: nat, rows: seq<seq<Draw>>): (r: seq<seq<Coeffs>>)
    requires forall j :: 0 <= j < |rows| ==> RestLengths(rows[j], t)
    ensures |r| == |rows|
  {
    seq(|rows|, j requires 0 <= j < |rows| => UnpackedDeals(t, j, rows[j]))
  }

  function ZeroProdRows(n: nat, rows: seq<seq<Draw>>): (r: seq<seq<Coeffs>>)
    requires n > 0 && forall j :: 0 <= j < |rows| ==> RestLengths(rows[j], n - 1)
    ensures |r| == |rows|
  {
    seq(|rows|, j requires 0 <= j < |rows| => ZeroProdDeals(n, j, rows[j]))
  }

  // ---------------------------------------------------------------- shares

  /** The shares at x of a list of polynomials. */
  function Msgs(cs: seq<Coeffs>, x: int): (r: seq<int>)
    ensures |r| == |cs|
  {
    seq(|cs|, q requires 0 <= q < |cs| => At(cs[q], x))
  }

  lemma MsgsConcat(a: seq<Coeffs>, b: seq<Coeffs>, x: int)
    ensures Msgs(a + b, x) == Msgs(a, x) + Msgs(b, x)
  {
    hide At;
  }

  lemma MsgsSlice(a: seq<Coeffs>, i: nat, j: nat, x: int)
    requires i <= j <= |a|
    ensures Msgs(a[i..j], x) == Msgs(a, x)[i..j]
  {
    hide At;
  }

  lemma MsgsOne(c: Coeffs, x: int)
    ensures Msgs([c], x) == [At(c, x)]
  {
    hide At;
  }

  lemma MsgsNone(x: int)
    ensures Msgs([], x) == []
  {
  }

  /** The next message in front of the others. */
  lemma MsgsNext(a: seq<Coeffs>, later: seq<Coeffs>, q: nat, x: int)
    requires q < |a|
    ensures Msgs(a[q..] + later, x) == [At(a[q], x)] + Msgs(a[q + 1..] + later, x)
  {
    hide At;
    assert a[q..] + later == [a[q]] + (a[q + 1..] + later);
    MsgsConcat([a[q]], a[q + 1..] + later, x);
  }

  lemma MsgsPair(c: Coeffs, d: Coeffs, ins: seq<Coeffs>, x: int)
    ensures Msgs([c, d] + ins, x) == [At(c, x), At(d, x)] + Msgs(ins, x)
  {
    hide At;
    assert [c, d] + ins == [c] + ([d] + ins);
    MsgsConcat([c], [d] + ins, x);
    MsgsConcat([d], ins, x);
  }

  /** One more message at the end. */
  lemma MsgsTake(done: seq<Coeffs>, a: seq<Coeffs>, q: nat, x: int)
    requires q < |a|
    ensures Msgs(done + a[..q + 1], x) == Msgs(done + a[..q], x) + [At(a[q], x)]
  {
    hide At;
    assert done + a[..q + 1] == (done + a[..q]) + [a[q]];
    MsgsConcat(done + a[..q], [a[q]], x);
  }

  // ---------------------------------------------------------------- mixing

  /** Row weights of the s-th output: 0^s, 1^s, ..., (n - 1)^s. */
  function Weights(n: nat, s: nat): (r: seq<int>)
    ensures |r| == n
  {
    seq(n, i requires 0 <= i < n => F(Pow(i, s)))
  }

  ghost predicate Nonempty(cs: seq<Coeffs>) {
    forall i :: 0 <= i < |cs| ==> |cs[i]| > 0
  }

  /** The t + 1 sharings made from one sharing of every party. */
  function MixBlock(cs: seq<Coeffs>, t: nat): (r: seq<Coeffs>)
    requires forall i :: 0 <= i < |cs| ==> |cs[i]| > 0
    ensures |r| == t + 1
  {
    seq(t + 1, s requires 0 <= s < t + 1 => Mix(cs, s))
  }

  /** The q-th polynomial of every party. */
  function Column(deals: seq<seq<Coeffs>>, q: nat): (r: seq<Coeffs>)
    requires forall i :: 0 <= i < |deals| ==> q < |deals[i]|
    ensures |r| == |deals|
  {
    seq(|deals|, i requires 0 <= i < |deals| => deals[i][q])
  }

  /** Every party dealt at least m polynomials, all nonempty. */
  ghost predicate Dealt(deals: seq<seq<Coeffs>>, m: nat) {
    forall i :: 0 <= i < |deals| ==> |deals[i]| >= m && forall q :: 0 <= q < |deals[i]| ==> |deals[i][q]| > 0
  }

  ghost predicate DealtExactly(deals: seq<seq<Coeffs>>, m: nat) {
    Dealt(deals, m) && forall i :: 0 <= i < |deals| ==> |deals[i]| == m
  }

  lemma ColumnPositive(deals: seq<seq<Coeffs>>, m: nat, q: nat)
    requires Dealt(deals, m) && q < m
    ensures forall i :: 0 <= i < |deals| ==> q < |deals[i]|
    ensures forall i :: 0 <= i < |Column(deals, q)| ==> |Column(deals, q)[i]| > 0
  {
  }

  /** The sharings made from the first m blocks. */
  ghost function MixBlocks(deals: seq<seq<Coeffs>>, t: nat, m: nat): (r: seq<Coeffs>)
    requires Dealt(deals, m)
    ensures |r| == m * (t + 1) && Nonempty(r)
  {
    if m == 0 then [] else
      ColumnPositive(deals, m, m - 1);
      MixBlocks(deals, t, m - 1) + MixBlock(Column(deals, m - 1), t)
  }

  /** Mixing keeps degrees. */
  lemma {:induction false} MixBlocksLengths(deals: seq<seq<Coeffs>>, t: nat, m: nat, d: nat)
    requires Dealt(deals, m) && forall i :: 0 <= i < |deals| ==> Lengths(deals[i], d + 1)
    ensures Lengths(MixBlocks(deals, t, m), d + 1)
  {
    if m > 0 {
      MixBlocksLengths(deals, t, m - 1, d);
      ColumnPositive(deals, m, m - 1);
      var cs := Column(deals, m - 1);
      forall s | 0 <= s < t + 1 ensures 1 <= |MixBlock(cs, t)[s]| <= d + 1 {
        MixLength(cs, s, d);
      }
    }
  }

  /** Mixing keeps equal values equal. */
  lemma {:induction false} MixBlocksSame(deals: seq<seq<Coeffs>>, t: nat, m: nat, x: int, y: int, z: nat)
    requires Dealt(deals, m) && z < m * (t + 1)
    requires forall i, q :: 0 <= i < |deals| && 0 <= q < |deals[i]| ==> At(deals[i][q], x) == At(deals[i][q], y)
    ensures At(MixBlocks(deals, t, m)[z], x) == At(MixBlocks(deals, t, m)[z], y)
  {
    hide At, Mix;
    var b := (m - 1) * (t + 1);
    assert m * (t + 1) == b + (t + 1);
    if z < b {
      MixBlocksSame(deals, t, m - 1, x, y, z);
    } else {
      ColumnPositive(deals, m, m - 1);
      MixSame(Column(deals, m - 1), z - b, x, y);
    }
  }

  /** Mixing keeps zeros. */
  lemma {:induction false} MixBlocksZero(deals: seq<seq<Coeffs>>, t: nat, m: nat, x: int, z: nat)
    requires Dealt(deals, m) && z < m * (t + 1)
    requires forall i, q :: 0 <= i < |deals| && 0 <= q < |deals[i]| ==> At(deals[i][q], x) == F(0)
    ensures At(MixBlocks(deals, t, m)[z], x) == F(0)
  {
    hide At, Mix, F;
    var b := (m - 1) * (t + 1);
    assert m * (t + 1) == b + (t + 1);
    if z < b {
      MixBlocksZero(deals, t, m - 1, x, z);
    } else {
      ColumnPositive(deals, m, m - 1);
      MixZero(Column(deals, m - 1), z - b, x);
    }
  }

  /** Weighting the received shares of one block gives the share of the mixed polynomial. */
  lemma MixShare(cs: seq<Coeffs>, recv: seq<int>, s: nat, x: int)
    requires forall i :: 0 <= i < |cs| ==> |cs[i]| > 0
    requires recv == Msgs(cs, x)
    ensures F(Dot(Weights(|cs|, s), recv, |cs|)) == At(Mix(cs, s), x)
  {
    hide At, F, SumProd, Dot, Pow, Powers;
    forall i | 0 <= i < |cs| ensures Weights(|cs|, s)[i] == At(Powers(|cs|, s)[i], x) {
      PowersAt(|cs|, s, i, x);
    }
    SumProdShare(Powers(|cs|, s), cs, Weights(|cs|, s), recv, |cs|, x);
  }

  /** What a mixed sharing carries at x, from the dealt ones. */
  lemma {:induction false} MixedAt(deals: seq<seq<Coeffs>>, t: nat, m: nat, q: nat, s: nat, x: int)
    requires Dealt(deals, m) && q < m && s <= t
    ensures q * (t + 1) + s < m * (t + 1) && forall i :: 0 <= i < |deals| ==> q < |deals[i]|
    ensures At(MixBlocks(deals, t, m)[q * (t + 1) + s], x) ==
      F(Dot(Weights(|deals|, s), Msgs(Column(deals, q), x), |deals|))
  {
    hide At, F, Mix, Dot, Weights;
    var start := (m - 1) * (t + 1);
    assert m * (t + 1) == start + (t + 1);
    ColumnPositive(deals, m, q);
    if q < m - 1 {
      BlockBefore(q, m - 1, t, s);
      MixedAt(deals, t, m - 1, q, s, x);
    } else {
      var cs := Column(deals, q);
      MixShare(cs, Msgs(cs, x), s, x);
      assert MixBlocks(deals, t, m)[start + s] == MixBlock(cs, t)[s];
    }
  }

  lemma BlockBefore(q: nat, m: nat, t: nat, s: nat)
    requires q < m && s <= t
    ensures q * (t + 1) + s < m * (t + 1)
  {
    assert (q + 1) * (t + 1) <= m * (t + 1);
  }

  // ---------------------------------------------------------------- what the unpacked rows become

  /** Everything party i deals in the given rows, in order. */
  function Sent(rows: seq<seq<seq<Coeffs>>>, i: nat): (r: seq<Coeffs>)
    requires forall r :: 0 <= r < |rows| ==> i < |rows[r]|
  {
    if rows == [] then [] else rows[0][i] + Sent(rows[1..], i)
  }

  /** What stands in every channel behind the first row. */
  function SentTails(rows: seq<seq<seq<Coeffs>>>, x: int, tail: seq<seq<int>>): (r: seq<seq<int>>)
    requires forall r :: 0 <= r < |rows| ==> |rows[r]| == |tail|
    ensures |r| == |tail|
  {
    seq(|tail|, i requires 0 <= i < |tail| => Msgs(Sent(rows, i), x) + tail[i])
  }

  lemma RowsStep(rows: seq<seq<seq<Coeffs>>>, x: int, tail: seq<seq<int>>)
    requires rows != [] && forall r :: 0 <= r < |rows| ==> |rows[r]| == |tail|
    ensures forall i :: 0 <= i < |tail| ==>
      Msgs(Sent(rows, i), x) + tail[i] == Msgs(rows[0][i], x) + SentTails(rows[1..], x, tail)[i]
  {
    hide At;
    forall i | 0 <= i < |tail|
      ensures Msgs(Sent(rows, i), x) + tail[i] == Msgs(rows[0][i], x) + SentTails(rows[1..], x, tail)[i]
    {
      MsgsConcat(rows[0][i], Sent(rows[1..], i), x);
    }
  }

  lemma RowsNone(x: int, tail: seq<seq<int>>)
    ensures forall i :: 0 <= i < |tail| ==> Msgs(Sent([], i), x) + tail[i] == tail[i]
  {
  }

  ghost function Mixed3(row: seq<seq<Coeffs>>, t: nat, m: nat): (r: seq<Coeffs>)
    requires Dealt(row, Blocks(3 * m, t))
    ensures |r| >= 3 * m && Nonempty(r)
  {
    MixBlocks(row, t, Blocks(3 * m, t))
  }

  /** The first factors, the second factors and the masks of one slot. */
  ghost function FirstFactors(row: seq<seq<Coeffs>>, t: nat, m: nat): (r: seq<Coeffs>)
    requires Dealt(row, Blocks(3 * m, t))
    ensures |r| == m && Nonempty(r)
  {
    Mixed3(row, t, m)[..m]
  }

  ghost function SecondFactors(row: seq<seq<Coeffs>>, t: nat, m: nat): (r: seq<Coeffs>)
    requires Dealt(row, Blocks(3 * m, t))
    ensures |r| == m && Nonempty(r)
  {
    Mixed3(row, t, m)[m..2 * m]
  }

  ghost function Masks(row: seq<seq<Coeffs>>, t: nat, m: nat): (r: seq<Coeffs>)
    requires Dealt(row, Blocks(3 * m, t))
    ensures |r| == m && Nonempty(r)
  {
    Mixed3(row, t, m)[2 * m..3 * m]
  }

  lemma MsgsParts(cs: seq<Coeffs>, m: nat, x: int)
    requires 3 * m <= |cs|
    ensures Msgs(cs[..m], x) == Msgs(cs, x)[..m]
    ensures Msgs(cs[m..2 * m], x) == Msgs(cs, x)[m..2 * m]
    ensures Msgs(cs[2 * m..3 * m], x) == Msgs(cs, x)[2 * m..3 * m]
  {
    hide At;
  }

  /** In every row every party dealt at least m polynomials. */
  ghost predicate RowsDealt(rows: seq<seq<seq<Coeffs>>>, m: nat) {
    forall j :: 0 <= j < |rows| ==> Dealt(rows[j], m)
  }

  /** In every row each of the n parties dealt exactly m polynomials. */
  ghost predicate RowsExactly(rows: seq<seq<seq<Coeffs>>>, n: nat, m: nat) {
    forall j :: 0 <= j < |rows| ==> |rows[j]| == n && DealtExactly(rows[j], m)
  }

  ghost function FirstRows(rows: seq<seq<seq<Coeffs>>>, t: nat, m: nat): (r: seq<seq<Coeffs>>)
    requires RowsDealt(rows, Blocks(3 * m, t))
    ensures |r| == |rows| && Grid(r, m)
  {
    seq(|rows|, j requires 0 <= j < |rows| => FirstFactors(rows[j], t, m))
  }

  ghost function SecondRows(rows: seq<seq<seq<Coeffs>>>, t: nat, m: nat): (r: seq<seq<Coeffs>>)
    requires RowsDealt(rows, Blocks(3 * m, t))
    ensures |r| == |rows| && Grid(r, m)
  {
    seq(|rows|, j requires 0 <= j < |rows| => SecondFactors(rows[j], t, m))
  }

  ghost function MaskRows(rows: seq<seq<seq<Coeffs>>>, t: nat, m: nat): (r: seq<seq<Coeffs>>)
    requires RowsDealt(rows, Blocks(3 * m, t))
    ensures |r| == |rows| && Grid(r, m)
  {
    seq(|rows|, j requires 0 <= j < |rows| => Masks(rows[j], t, m))
  }

  /** One row for every slot, m polynomials in each. */
  ghost predicate Grid(rows: seq<seq<Coeffs>>, m: nat) {
    forall j :: 0 <= j < |rows| ==> |rows[j]| == m && Nonempty(rows[j])
  }

  /** Entry q of every row, packed. */
  ghost function PackColumn(rows: seq<seq<Coeffs>>, m: nat, q: nat): (c: Coeffs)
    requires Grid(rows, m) && q < m
    ensures |c| > 0
  {
    Pack(|rows|, Column(rows, q))
  }

  lemma GridColumn(rows: seq<seq<Coeffs>>, m: nat, q: nat)
    requires Grid(rows, m) && q < m
    ensures |Column(rows, q)| == |rows| && Nonempty(Column(rows, q))
  {
  }

  lemma PackShare(k: nat, ws: seq<Coeffs>, e: seq<int>, v: seq<int>, x: int)
    requires |ws| == k && forall i :: 0 <= i < |ws| ==> |ws[i]| > 0
    requires e == Msgs(Units(k), x) && v == Msgs(ws, x)
    ensures F(Dot(e, v, k)) == At(Pack(k, ws), x)
  {
    hide At, F, SumProd, Dot, Unit;
    SumProdShare(Units(k), ws, e, v, k, x);
  }

  // ---------------------------------------------------------------- products of unpacked sharings

  /** The masked product of two factors at one slot. */
  function ProdPoly(a: Coeffs, b: Coeffs, mask: Coeffs, zero: Coeffs): (c: Coeffs)
    requires |a| > 0 && |b| > 0
    ensures |c| > 0
  {
    AddP(AddP(Conv(a, b), mask), zero)
  }

  function ProdShare(a: int, b: int, mask: int, zero: int): int {
    Add(Add(Mul(a, b), mask), zero)
  }

  lemma ProdPolyAt(a: Coeffs, b: Coeffs, mask: Coeffs, zero: Coeffs, x: int)
    requires |a| > 0 && |b| > 0
    ensures At(ProdPoly(a, b, mask, zero), x) == ProdShare(At(a, x), At(b, x), At(mask, x), At(zero, x))
  {
    hide At, Add, Mul, AddP, Conv;
    AtMul(a, b, x);
    AtAdd(Conv(a, b), mask, x);
    AtAdd(AddP(Conv(a, b), mask), zero, x);
  }

  /** Row j holds the masked products at slot j. */
  ghost function ProdRow(fa: seq<Coeffs>, fb: seq<Coeffs>, fm: seq<Coeffs>, fz: seq<Coeffs>, m: nat): (r: seq<Coeffs>)
    requires |fa| == |fb| == |fm| == m <= |fz| && Nonempty(fa) && Nonempty(fb)
    ensures |r| == m && Nonempty(r)
  {
    seq(m, q requires 0 <= q < m => ProdPoly(fa[q], fb[q], fm[q], fz[q]))
  }

  function Zeros(m: nat): (r: seq<int>)
    ensures |r| == m && forall i :: 0 <= i < m ==> r[i] == F(0)
  {
    seq(m, _ => F(0))
  }

  /** What P1 sends back: degree t, the opened value at the slot, zero for the first t parties. */
  function Returned(value: int, slot: nat, t: nat): (c: Coeffs)
    ensures |c| == t + 1
  {
    Coefs(Single(value, slot, t, Zeros(t)))
  }

  ghost function ReturnedRow(prods: seq<Coeffs>, slot: nat, t: nat): (r: seq<Coeffs>)
    ensures |r| == |prods| && Nonempty(r)
  {
    seq(|prods|, q requires 0 <= q < |prods| => Returned(At(prods[q], Slot(slot)), slot, t))
  }

  ghost function ReturnedRows(prods: seq<seq<Coeffs>>, t: nat): (r: seq<seq<Coeffs>>)
    ensures |r| == |prods|
  {
    seq(|prods|, j requires 0 <= j < |prods| => ReturnedRow(prods[j], j, t))
  }

  /** The first t parties need nothing from P1. */
  lemma ReturnedZero(value: int, slot: nat, t: nat, i: nat)
    requires IsPrime(P61) && slot + t + 1 <= P61 && i < t
    ensures At(Returned(value, slot, t), i + 1) == F(0)
  {
    hide At, F, Coefs, Single, IsPrime;
    SingleValues(value, slot, t, Zeros(t));
    assert Zeros(t)[i] == F(0);
    FF(0);
  }

  lemma ReturnedValue(value: int, slot: nat, t: nat)
    requires IsPrime(P61) && slot + t + 1 <= P61
    ensures At(Returned(value, slot, t), Slot(slot)) == F(value)
  {
    hide At, F, Coefs, Single, IsPrime;
    SingleValues(value, slot, t, Zeros(t));
  }

  /** Unmasking what came back. */
  ghost function SubRow(back: seq<Coeffs>, fm: seq<Coeffs>): (r: seq<Coeffs>)
    requires |back| == |fm| && Nonempty(back)
    ensures |r| == |back| && Nonempty(r)
  {
    seq(|back|, q requires 0 <= q < |back| => SubP(back[q], fm[q]))
  }

  ghost function SubRows(back: seq<seq<Coeffs>>, fm: seq<seq<Coeffs>>, m: nat): (r: seq<seq<Coeffs>>)
    requires |back| == |fm| && Grid(back, m) && Grid(fm, m)
    ensures |r| == |back| && Grid(r, m)
  {
    seq(|back|, j requires 0 <= j < |back| => SubRow(back[j], fm[j]))
  }
}
