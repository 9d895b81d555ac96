/** More than 2t + 1 parties. DN07 starts with them, but one product of two inputs can come out wrong:
    for every t and every n > 2t + 1 there are inputs and randomness for which it does. */
module Dn07Extra {
  import opened Modular
  import opened Poly
  import opened Scl
  import opened Sequences
  import opened PackedSharing
  import opened Dealing
  import opened Circuits
  import opened Ramps
  import opened Dn07Sharing
  import opened Dn07Dealing
  import opened Dn07Parties
  import opened Dn07
  import Parties

  // ---------------------------------------------------------------- the circuit and its inputs

  /** The first client multiplies its two inputs and obtains the product. */
  function ProductLayout(n: nat): Layout {
    Layout([InputGate(0), InputGate(0), MultGate(0, 1), OutputGate(0, 2)], n, 1, [[2]])
  }

  function ProductInputs(n: nat, t: nat): (r: seq<seq<int>>)
    ensures |r| == n
  {
    seq(n, c => if c == 0 then [t + 1, 1] else [])
  }

  lemma FourIds(gates: seq<Gate>, kind: Kind)
    requires |gates| == 4
    ensures Ids(gates, kind) == IfKind(gates, kind, 0) + IfKind(gates, kind, 1) + IfKind(gates, kind, 2) + IfKind(gates, kind, 3)
  {
    hide Ids, IfKind;
    IdsNone(kind);
    assert gates[..0] == [] && gates[..4] == gates;
    IdsLast(gates, kind, 0);
    IdsLast(gates, kind, 1);
    IdsLast(gates, kind, 2);
    IdsLast(gates, kind, 3);
    assert [] + IfKind(gates, kind, 0) == IfKind(gates, kind, 0);
  }

  lemma KindIds(n: nat, kind: Kind)
    ensures var gates := ProductLayout(n).gates;
      Ids(gates, kind) == (if Is(gates[0], kind) then [0] else []) + (if Is(gates[1], kind) then [1] else [])
                          + (if Is(gates[2], kind) then [2] else []) + (if Is(gates[3], kind) then [3] else [])
  {
    hide Ids, Is;
    FourIds(ProductLayout(n).gates, kind);
  }

  lemma ProductIds(n: nat)
    ensures var gates := ProductLayout(n).gates;
      && Ids(gates, AnyInput) == [0, 1] && Ids(gates, AnyMult) == [2] && Ids(gates, InputOf(0)) == [0, 1]
      && Ids(gates, OutputOf(0)) == [3] && forall c: nat :: c > 0 ==> Ids(gates, InputOf(c)) == []
  {
    hide Ids;
    KindIds(n, AnyInput);
    KindIds(n, AnyMult);
    KindIds(n, InputOf(0));
    KindIds(n, OutputOf(0));
    forall c: nat | c > 0 ensures Ids(ProductLayout(n).gates, InputOf(c)) == [] {
      KindIds(n, InputOf(c));
    }
  }

  lemma ProductProper(n: nat, t: nat)
    requires n > 0
    ensures WellFormed(ProductLayout(n)) && Layered(ProductLayout(n)) && Matches(ProductLayout(n), ProductInputs(n, t))
  {
    hide Ids;
    ProductIds(n);
    var lay := ProductLayout(n);
    assert lay.mults[1..] == [] && lay.mults[0] == [2];
    assert Flatten(lay.mults) == lay.mults[0] + Flatten(lay.mults[1..]);
    assert 0 in Ids(lay.gates, AnyInput) by { assert Ids(lay.gates, AnyInput)[0] == 0; }
    assert 1 in Ids(lay.gates, AnyInput) by { assert Ids(lay.gates, AnyInput)[1] == 1; }
  }

  lemma {:induction false} InputsListed(n: nat, c: nat)
    requires 0 < c
    ensures InputsOf(ProductLayout(n), c) == [0, 1]
  {
    hide Ids;
    ProductIds(n);
    if c > 1 {
      InputsListed(n, c - 1);
    } else {
      assert InputsOf(ProductLayout(n), 0) == [];
    }
  }

  /** The circuit's result. */
  lemma ProductClear(n: nat, t: nat)
    requires n > 0
    ensures WellFormed(ProductLayout(n)) && Matches(ProductLayout(n), ProductInputs(n, t))
    ensures Parties.ClearOutputs(ProductLayout(n), ProductInputs(n, t), 0) == [F(t + 1)]
  {
    hide Ids, F, Layered;
    ProductIds(n);
    ProductProper(n, t);
    var lay, inputs := ProductLayout(n), ProductInputs(n, t);
    var ids := Ids(lay.gates, InputOf(0));
    assert ids[0] == 0 && ids[1] == 1;
    assert Position(ids, 0) == 0 && Position(ids, 1) == 1;
    assert Clear(lay, inputs, 0) == F(t + 1) && Clear(lay, inputs, 1) == F(1);
    FF(t + 1);
    FF(1);
    FOps(F(t + 1), F(1), t + 1, 1);
    assert Clear(lay, inputs, 2) == F(F(t + 1) * F(1));
    assert Clear(lay, inputs, 3) == F(t + 1);
  }

  // ---------------------------------------------------------------- the randomness

  function NoDraw(k: nat): (d: Draw)
    ensures |d.rest| == k
  {
    Draw(0, Zeros(k))
  }

  /** The secret t + 1 with the shares 1, 0, ..., 0. */
  function RampDraw(t: nat): (d: Draw)
    ensures |d.rest| == t
  {
    Draw(t + 1, if t == 0 then [] else [1] + Zeros(t - 1))
  }

  /** Only the first party's first sharing is not zero. */
  function ExtraDraw(i: nat, t: nat): PartyDraws {
    PartyDraws(seq(Blocks(2, t), b => if i == 0 && b == 0 then RampDraw(t) else NoDraw(t)),
               seq(Blocks(1, t), _ => DoubleDraw(0, Zeros(t), Zeros(2 * t))))
  }

  function ExtraDraws(n: nat, t: nat): (r: seq<PartyDraws>)
    ensures |r| == n
  {
    seq(n, i requires 0 <= i => ExtraDraw(i, t))
  }

  lemma ExtraRests(i: nat, t: nat)
    ensures var d := ExtraDraw(i, t);
      RestLengths(d.rand, t) && RestLengths(Lows(d.double), t) && RestLengths(Highs(d.double), 2 * t)
  {
    hide F, Blocks;
    var d := ExtraDraw(i, t);
    forall q | 0 <= q < |d.rand| ensures |d.rand[q].rest| == t {
      assert d.rand[q] == if i == 0 && q == 0 then RampDraw(t) else NoDraw(t);
    }
    forall q | 0 <= q < |d.double| ensures |Lows(d.double)[q].rest| == t && |Highs(d.double)[q].rest| == 2 * t {
      assert d.double[q] == DoubleDraw(0, Zeros(t), Zeros(2 * t));
    }
  }

  lemma ExtraDrawn(n: nat, t: nat)
    requires n > 0
    ensures AllDrawn(ProductLayout(n), t, ExtraDraws(n, t))
  {
    hide Ids, Blocks, RestLengths, Lows, Highs, RampDraw, NoDraw, Zeros;
    ProductIds(n);
    forall i | 0 <= i < n ensures PartyDrawn(ProductLayout(n), t, ExtraDraws(n, t)[i]) {
      ExtraRests(i, t);
      assert ExtraDraws(n, t)[i] == ExtraDraw(i, t);
    }
  }

  // ---------------------------------------------------------------- what is dealt

  /** Dealing no secret with no random values deals the zero polynomial. */
  lemma NothingDealt(k: nat, d: Draw, x: int)
    requires IsPrime(P61) && k < P61 && |d.rest| == k && d == NoDraw(k)
    ensures At(UnpackedDeal(k, 0, d), x) == F(0)
  {
    hide F, IsPrime, Distinct, Coefs, At;
    var f := Single(0, 0, k, d.rest);
    OnePointDistinct(0, k);
    FF(0);
    ZeroValues(f, x);
  }

  lemma ZeroValues(f: EvPolynomial, x: int)
    requires IsPrime(P61) && Proper(f) && forall i :: 0 <= i < |f.mY| ==> F(f.mY[i]) == F(0)
    ensures At(Coefs(f), x) == F(0)
  {
    hide F, IsPrime, Distinct, Coefs, At;
    forall i | 0 <= i < |f.mX| ensures At([0], f.mX[i]) == F(f.mY[i]) {
      AtZero(f.mX[i]);
    }
    CoefsUnique(f, [0], x);
    AtZero(x);
  }

  /** The first sharing is the multiple of the product of the j - x, j = 2, ..., t + 1. */
  lemma RampDealt(t: nat, x: int)
    requires IsPrime(P61) && t + 1 < P61
    ensures At(UnpackedDeal(t, 0, RampDraw(t)), x) == At(Ramp(1, t + 1, 1), x)
  {
    hide F, IsPrime, Distinct, Coefs, At, Ramp;
    var d := RampDraw(t);
    var f := Single(t + 1, 0, t, d.rest);
    OnePointDistinct(0, t);
    RampValues(1, t + 1, 1);
    RampAtZero(t + 1);
    forall i | 0 <= i < |f.mX| ensures At(Ramp(1, t + 1, 1), f.mX[i]) == F(f.mY[i]) {
      if i == 0 {
        assert f.mX[i] == 0 && f.mY[i] == t + 1;
      } else {
        assert f.mX[i] == i && f.mY[i] == d.rest[i - 1];
        if i == 1 {
          assert d.rest[0] == 1;
        } else {
          assert d.rest[i - 1] == F(0);
          FF(0);
        }
      }
    }
    CoefsUnique(f, Ramp(1, t + 1, 1), x);
  }

  lemma RampAtZero(b: nat)
    requires IsPrime(P61) && 1 <= b < P61
    ensures At(Ramp(1, b, 1), 0) == F(b)
  {
    hide F, IsPrime, Ramp, Eval;
    RampValues(1, b, 1);
    RampRatio(1, b, 1);
    FF(1);
    FOps(F(1), b, 1, b);
    AtIs(Ramp(1, b, 1), 0);
  }

  lemma {:induction false} DotFirst(e: seq<int>, v: seq<int>, m: nat)
    requires 1 <= m <= |e| && m <= |v| && forall i :: 1 <= i < m ==> F(v[i]) == F(0)
    ensures F(Dot(e, v, m)) == F(e[0] * v[0])
  {
    hide F;
    if m > 1 {
      DotFirst(e, v, m - 1);
      FOps(e[m - 1], v[m - 1], e[m - 1], 0);
      FOps(Dot(e, v, m - 1), e[m - 1] * v[m - 1], e[0] * v[0], e[m - 1] * 0);
    } else {
      assert Dot(e, v, 1) == Dot(e, v, 0) + e[0] * v[0];
    }
  }

  /** If only the first party's first polynomial is not zero at x, it is the first one mixed, and
      the others are zero. */
  lemma {:induction false} OneDealer(deals: seq<seq<Coeffs>>, t: nat, m: nat, x: int, z: nat)
    requires Dealt(deals, m) && |deals| > 0 && z < m * (t + 1) && |deals[0]| > 0
    requires forall i, q :: 0 <= i < |deals| && 0 <= q < |deals[i]| && (i > 0 || q > 0) ==> At(deals[i][q], x) == F(0)
    ensures At(MixBlocks(deals, t, m)[z], x) == if z == 0 then At(deals[0][0], x) else F(0)
  {
    hide At, Mix, F, Weights;
    var b := (m - 1) * (t + 1);
    assert m * (t + 1) == b + (t + 1);
    if z < b {
      OneDealer(deals, t, m - 1, x, z);
    } else {
      ColumnPositive(deals, m, m - 1);
      var cs := Column(deals, m - 1);
      if m > 1 {
        assert b > 0 by { MulLess(m - 1, t + 1); }
        MixZero(cs, z - b, x);
      } else {
        FirstBlock(cs, z, x);
      }
    }
  }

  lemma FirstBlock(cs: seq<Coeffs>, z: nat, x: int)
    requires |cs| > 0 && Nonempty(cs) && forall i :: 0 < i < |cs| ==> At(cs[i], x) == F(0)
    ensures At(Mix(cs, z), x) == if z == 0 then At(cs[0], x) else F(0)
  {
    hide At, Mix, F, Dot;
    var e, v := Weights(|cs|, z), Msgs(cs, x);
    MixShare(cs, v, z, x);
    forall i | 1 <= i < |cs| ensures F(v[i]) == F(0) {
      FF(0);
    }
    DotFirst(e, v, |cs|);
    assert e[0] == F(Pow(0, z)) && v[0] == At(cs[0], x);
    FF(Pow(0, z));
    FOps(F(Pow(0, z)), v[0], Pow(0, z), v[0]);
    AtIs(cs[0], x);
    if z > 0 {
      assert Pow(0, z) == 0 * Pow(0, z - 1);
    }
  }

  // ---------------------------------------------------------------- the run

  ghost function ExtraSetup(n: nat, t: nat): Setup
    requires n > 0
  {
    ExtraDrawn(n, t);
    Setup(ProductLayout(n), t, PadsOf(ProductLayout(n), t, ExtraDraws(n, t)))
  }

  /** What the parties mix for the two inputs: the first has the shares 1, 0, ..., 0, the second
      nothing. */
  lemma RandValues(n: nat, t: nat, x: int)
    requires IsPrime(P61) && 2 * t < n < P61
    ensures |ExtraSetup(n, t).pads.rand| >= 2
    ensures At(ExtraSetup(n, t).pads.rand[0], x) == At(Ramp(1, t + 1, 1), x)
    ensures At(ExtraSetup(n, t).pads.rand[1], x) == F(0)
  {
    hide Ids, At, F, IsPrime, UnpackedDeal, Ramp, MixBlocks, RampDraw, NoDraw, Blocks;
    ProductIds(n);
    ExtraDrawn(n, t);
    var lay, draws := ProductLayout(n), ExtraDraws(n, t);
    var deals, m := RandAll(lay, t, draws), Blocks(2, t);
    forall i, q | 0 <= i < |deals| && 0 <= q < |deals[i]|
      ensures At(deals[i][q], x) == if i == 0 && q == 0 then At(Ramp(1, t + 1, 1), x) else F(0)
    {
      RandDealt(n, t, i, q);
      if i == 0 && q == 0 {
        RampDealt(t, x);
      } else {
        NothingDealt(t, NoDraw(t), x);
      }
    }
    assert m > 0 && |deals[0]| == m;
    OneDealer(deals, t, m, x, 0);
    OneDealer(deals, t, m, x, 1);
  }

  lemma RandDealt(n: nat, t: nat, i: nat, q: nat)
    requires n > 0 && i < n && q < Blocks(2, t)
    ensures AllDrawn(ProductLayout(n), t, ExtraDraws(n, t)) && |Ids(ProductLayout(n).gates, AnyInput)| == 2
    ensures q < |RandAll(ProductLayout(n), t, ExtraDraws(n, t))[i]|
    ensures RandAll(ProductLayout(n), t, ExtraDraws(n, t))[i][q] == UnpackedDeal(t, 0, if i == 0 && q == 0 then RampDraw(t) else NoDraw(t))
  {
    hide Ids, UnpackedDeal, RampDraw, NoDraw, Blocks;
    ProductIds(n);
    ExtraDrawn(n, t);
    var d := ExtraDraws(n, t)[i];
    assert d == ExtraDraw(i, t);
    assert d.rand[q] == if i == 0 && q == 0 then RampDraw(t) else NoDraw(t);
    assert RandDeals(t, d)[q] == UnpackedDeal(t, 0, d.rand[q]);
  }

  /** The pair for the multiplication shares nothing. */
  lemma PairValues(n: nat, t: nat, x: int)
    requires IsPrime(P61) && 2 * t < n < P61
    ensures |ExtraSetup(n, t).pads.low| >= 1 && |ExtraSetup(n, t).pads.high| >= 1
    ensures At(ExtraSetup(n, t).pads.low[0], x) == At(ExtraSetup(n, t).pads.high[0], x) == F(0)
  {
    hide Ids, At, F, IsPrime, UnpackedDeal, MixBlocks, NoDraw, Blocks;
    ProductIds(n);
    ExtraDrawn(n, t);
    var lay, draws, m := ProductLayout(n), ExtraDraws(n, t), Blocks(1, t);
    forall i, q | 0 <= i < n && 0 <= q < m
      ensures At(LowAll(lay, t, draws)[i][q], x) == F(0) && At(HighAll(lay, t, draws)[i][q], x) == F(0)
    {
      PairDealt(n, t, i, q);
      NothingDealt(t, NoDraw(t), x);
      NothingDealt(2 * t, NoDraw(2 * t), x);
    }
    assert m > 0;
    MixBlocksZero(LowAll(lay, t, draws), t, m, x, 0);
    MixBlocksZero(HighAll(lay, t, draws), t, m, x, 0);
  }

  lemma PairDealt(n: nat, t: nat, i: nat, q: nat)
    requires n > 0 && i < n && q < Blocks(1, t)
    ensures AllDrawn(ProductLayout(n), t, ExtraDraws(n, t)) && |Ids(ProductLayout(n).gates, AnyMult)| == 1
    ensures LowAll(ProductLayout(n), t, ExtraDraws(n, t))[i][q] == UnpackedDeal(t, 0, NoDraw(t))
    ensures HighAll(ProductLayout(n), t, ExtraDraws(n, t))[i][q] == UnpackedDeal(2 * t, 0, NoDraw(2 * t))
  {
    hide Ids, UnpackedDeal, Zeros, Blocks;
    ProductIds(n);
    ExtraDrawn(n, t);
    var d := ExtraDraws(n, t)[i];
    assert d == ExtraDraw(i, t);
    assert d.double[q] == DoubleDraw(0, Zeros(t), Zeros(2 * t));
    assert LowDeals(t, d)[q] == UnpackedDeal(t, 0, Lows(d.double)[q]);
    assert HighDeals(t, d)[q] == UnpackedDeal(2 * t, 0, Highs(d.double)[q]);
  }

  lemma ExtraGood(n: nat, t: nat)
    requires IsPrime(P61) && 2 * t < n < P61
    ensures Good(ExtraSetup(n, t)) && Matches(ExtraSetup(n, t).lay, ProductInputs(n, t)) && ExtraSetup(n, t).lay == ProductLayout(n)
    ensures ExtraSetup(n, t).lay.clients == n && ExtraSetup(n, t).t == t && |ProductLayout(n).gates| == 4
  {
    hide Ids, IsPrime, PadsOf, AllDrawn, WellFormed, Good, Matches, ProductInputs;
    ProductProper(n, t);
    ExtraDrawn(n, t);
    PadsGood(ProductLayout(n), t, ExtraDraws(n, t));
  }

  /** Which sharing belongs to which gate. */
  lemma ExtraPads(s: Setup, n: nat)
    requires n > 0 && Good(s) && s.lay == ProductLayout(n)
    ensures |s.pads.rand| >= 2 && RandOf(s, 0) == s.pads.rand[0] && RandOf(s, 1) == s.pads.rand[1]
    ensures |s.pads.low| > 0 && LowOf(s, 2) == s.pads.low[0] && |s.pads.high| > 0 && HighOf(s, 2) == s.pads.high[0]
  {
    hide Ids, At, WellFormed, InputsOf;
    ProductIds(n);
    InputsListed(n, n);
    var order := InputOrder(s.lay);
    assert order[0] == 0 && order[1] == 1 && MultOrder(s.lay)[0] == 2;
    assert Position(order, 0) == 0 && Position(order, 1) == 1 && Position(MultOrder(s.lay), 2) == 0;
  }

  /** The masked inputs: nothing is left of the first one, and the second is shared as it is. */
  lemma ExtraMasked(n: nat, t: nat)
    requires IsPrime(P61) && 2 * t < n < P61 && Good(ExtraSetup(n, t)) && Matches(ExtraSetup(n, t).lay, ProductInputs(n, t))
    ensures InputMasked(ExtraSetup(n, t), ProductInputs(n, t), 0) == F(0)
    ensures InputMasked(ExtraSetup(n, t), ProductInputs(n, t), 1) == F(1)
  {
    hide Ids, At, F, IsPrime, PadsOf, AllDrawn, WellFormed, Good, RandOf, Ramp;
    var s, inputs := ExtraSetup(n, t), ProductInputs(n, t);
    ProductIds(n);
    ExtraPads(s, n);
    RandValues(n, t, 0);
    RampAtZero(t + 1);
    var ids := Ids(s.lay.gates, InputOf(0));
    assert ids[0] == 0 && ids[1] == 1 && Position(ids, 0) == 0 && Position(ids, 1) == 1;
    GoodSize(s);
    assert InputValue(s.lay, inputs, 0) == t + 1 && InputValue(s.lay, inputs, 1) == 1;
    FF(t + 1);
    FF(0);
    FOps(t + 1, F(t + 1), t + 1, t + 1);
    FOps(1, F(0), 1, 0);
  }

  /** The shares of both inputs: the first t + 1 parties' shares are values at i + 1, the others keep
      their random shares. */
  lemma InputShares(n: nat, t: nat, x: int)
    requires IsPrime(P61) && 2 * t < n < P61 && Good(ExtraSetup(n, t)) && Matches(ExtraSetup(n, t).lay, ProductInputs(n, t))
    ensures At(GatePoly(ExtraSetup(n, t), ProductInputs(n, t), 0), x) == At(Ramp(1, t + 1, 1), x)
    ensures At(GatePoly(ExtraSetup(n, t), ProductInputs(n, t), 1), x) == At(ZeroedPoly(F(1), n, t), x)
    ensures LastShare(ExtraSetup(n, t), x, 0) == At(Ramp(1, t + 1, 1), x) && LastShare(ExtraSetup(n, t), x, 1) == F(0)
  {
    hide Ids, At, F, Add, AddP, IsPrime, PadsOf, AllDrawn, WellFormed, Good, RandOf, Ramp, InputMasked, ZeroedPoly;
    var s, inputs := ExtraSetup(n, t), ProductInputs(n, t);
    ExtraPads(s, n);
    RandValues(n, t, x);
    ExtraMasked(n, t);
    AtAdd(ZeroedPoly(F(0), n, t), RandOf(s, 0), x);
    AtAdd(ZeroedPoly(F(1), n, t), RandOf(s, 1), x);
    ZeroedNothing(n, t, x);
    Dn07Sharing.AddZero(Ramp(1, t + 1, 1), x);
    AddNothing(ZeroedPoly(F(1), n, t), x);
  }

  lemma AddNothing(c: Coeffs, x: int)
    ensures Add(At(c, x), F(0)) == At(c, x)
  {
    hide F;
    AtIs(c, x);
    FOps(At(c, x), F(0), At(c, x), 0) by { FF(0); }
  }

  lemma ZeroedNothing(n: nat, t: nat, x: int)
    requires IsPrime(P61) && t <= n < P61
    ensures At(ZeroedPoly(F(0), n, t), x) == F(0)
  {
    hide F, IsPrime, Coefs, At, Distinct;
    ZeroedProper(F(0), n, t);
    FF(0);
    ZeroValues(Zeroed(F(0), n, t), x);
  }

  // ---------------------------------------------------------------- the product

  /** The value at 1 of what has 1 at 0 and vanishes at the points of the last t parties. */
  lemma ZeroedAtOne(n: nat, t: nat)
    requires IsPrime(P61) && 2 * t < n < P61
    ensures F(At(ZeroedPoly(F(1), n, t), 1) * n) == F(n - t)
  {
    hide F, IsPrime, Coefs, At, Distinct, Ramp;
    var f, c := Zeroed(F(1), n, t), Ramp(n - t, n, 0);
    ZeroedProper(F(1), n, t);
    RampValues(n - t, n, 0);
    FF(0);
    FF(1);
    ZeroIsZero();
    forall i | 0 <= i < |f.mX| ensures At(c, f.mX[i]) == F(f.mY[i]) {
      if i > 0 {
        assert f.mX[i] == n - t + i && f.mY[i] == F(0);
      }
    }
    CoefsUnique(f, c, 1);
    RampRatio(n - t, n, 0);
    FOps(F(1), n - t, 1, n - t);
  }

  /** n shares, all zero but the first. */
  lemma OneShare(y: int, shares: seq<int>, n: nat)
    requires IsPrime(P61) && 0 < n < P61 && |shares| == n && shares[0] == F(y) && forall i :: 1 <= i < n ==> shares[i] == F(0)
    ensures Rebuilt(shares, 0) == F(y * n)
  {
    hide F, IsPrime, At, Rebuilt, Ramp, Eval;
    var r := Ramp(1, n, 1);
    var c := Scale(y, r);
    RampValues(1, n, 1);
    RampAtZero(n);
    forall i | 0 <= i < n ensures shares[i] == At(c, i + 1) {
      ScaledAt(y, r, i + 1);
      if i == 0 {
        FF(1);
        FOps(y, F(1), y, 1);
      } else {
        FOps(y, F(0), y, 0) by { FF(0); }
      }
    }
    RebuiltIs(c, shares, 0);
    ScaledAt(y, r, 0);
    FF(n);
    FOps(y, F(n), y, n);
  }

  lemma ScaledAt(y: int, c: Coeffs, x: int)
    ensures At(Scale(y, c), x) == F(y * At(c, x))
  {
    hide F, Eval;
    EvalScale(y, c, x);
    FF(Eval(c, x));
    FOps(y, F(Eval(c, x)), y, Eval(c, x));
  }

  /** P1 opens n - t. */
  lemma ExtraOpened(n: nat, t: nat)
    requires IsPrime(P61) && 2 * t < n < P61 && Good(ExtraSetup(n, t)) && Matches(ExtraSetup(n, t).lay, ProductInputs(n, t))
    ensures Opened(ExtraSetup(n, t), ProductInputs(n, t), 2) == F(n - t)
  {
    hide Ids, At, F, IsPrime, PadsOf, AllDrawn, WellFormed, Good, RandOf, HighOf, Ramp, InputMasked, ZeroedPoly, Rebuilt, MultProduct, LastProduct, Matches;
    var s, inputs := ExtraSetup(n, t), ProductInputs(n, t);
    var y := At(ZeroedPoly(F(1), n, t), 1);
    ExtraGood(n, t);
    forall i | 0 <= i < n ensures OpenShares(s, inputs, 2)[i] == if i == 0 then F(y) else F(0) {
      ExtraShare(n, t, i);
    }
    OneShare(y, OpenShares(s, inputs, 2), n);
    ZeroedAtOne(n, t);
  }

  lemma ExtraShare(n: nat, t: nat, i: nat)
    requires IsPrime(P61) && 2 * t < n < P61 && Good(ExtraSetup(n, t)) && Matches(ExtraSetup(n, t).lay, ProductInputs(n, t))
    requires i < n && ExtraSetup(n, t).lay == ProductLayout(n)
    ensures (if i <= t then At(MultProduct(ExtraSetup(n, t), ProductInputs(n, t), 2), i + 1) else LastProduct(ExtraSetup(n, t), i + 1, 2))
      == if i == 0 then F(At(ZeroedPoly(F(1), n, t), 1)) else F(0)
  {
    hide Ids, At, F, IsPrime, PadsOf, AllDrawn, WellFormed, Good, RandOf, HighOf, Ramp, InputMasked, ZeroedPoly, MultProduct, GatePoly, LastShare, Matches, ExtraSetup;
    var s, inputs := ExtraSetup(n, t), ProductInputs(n, t);
    ExtraPads(s, n);
    PairValues(n, t, i + 1);
    InputShares(n, t, i + 1);
    RampValues(1, t + 1, 1);
    MultProductAt(s, inputs, 2, i + 1);
    FF(0);
    if i == 0 {
      OneTimes(At(ZeroedPoly(F(1), n, t), 1));
    } else if i <= t {
      NothingTimes(At(ZeroedPoly(F(1), n, t), i + 1));
    } else {
      TimesNothing(At(Ramp(1, t + 1, 1), i + 1));
    }
  }

  lemma OneTimes(y: int)
    ensures Sub(Mul(F(1), y), F(0)) == F(y)
  {
    hide F;
    FF(1);
    FF(0);
    FOps(F(1), y, 1, y);
    FF(y);
    FOps(F(y), F(0), y, 0);
  }

  lemma NothingTimes(y: int)
    ensures Sub(Mul(F(0), y), F(0)) == F(0)
  {
    hide F;
    FF(0);
    FOps(F(0), y, 0, y);
    FOps(F(0), F(0), 0, 0);
  }

  lemma TimesNothing(y: int)
    ensures Sub(Mul(y, F(0)), F(0)) == F(0)
  {
    hide F;
    NothingTimes(y);
    assert y * F(0) == F(0) * y;
  }

  lemma ExtraCarried(n: nat, t: nat)
    requires IsPrime(P61) && 2 * t < n < P61 && Good(ExtraSetup(n, t)) && Matches(ExtraSetup(n, t).lay, ProductInputs(n, t))
    requires ExtraSetup(n, t).lay == ProductLayout(n) && ExtraSetup(n, t).t == t
    ensures Carried(ExtraSetup(n, t), ProductInputs(n, t), 3) == F(n - t)
  {
    hide Ids, At, F, IsPrime, WellFormed, Good, LowOf, ZeroedPoly, Opened, Matches, Add, AddP, ExtraSetup, ProductInputs;
    var s, inputs := ExtraSetup(n, t), ProductInputs(n, t);
    ExtraPads(s, n);
    ExtraOpened(n, t);
    PairValues(n, t, 0);
    AtAdd(ZeroedPoly(F(n - t), n, t), LowOf(s, 2), 0);
    ZeroedValue(F(n - t), n, t);
    FF(n - t);
    AddNothing(ZeroedPoly(F(n - t), n, t), 0);
    assert GatePoly(s, inputs, 3) == GatePoly(s, inputs, 2);
  }

  /** The first client obtains n - t instead of t + 1. */
  lemma ExtraRun(n: nat, t: nat)
    requires IsPrime(P61) && 2 * t < n < P61
    ensures ProperRun(ProductLayout(n), t, ExtraDraws(n, t), ProductInputs(n, t))
    ensures ClientOutputs(ProductLayout(n), t, ExtraDraws(n, t), ProductInputs(n, t), 0) == [F(n - t)]
    ensures Parties.ClearOutputs(ProductLayout(n), ProductInputs(n, t), 0) == [F(t + 1)]
  {
    hide Ids, F, IsPrime, PadsOf, AllDrawn, WellFormed, Good, Carried, Matches, Layered, Parties.ClearOutputs, ProductInputs, ExtraDraws;
    ProductProper(n, t);
    ProductClear(n, t);
    ProductIds(n);
    ExtraDrawn(n, t);
    ExtraGood(n, t);
    ExtraCarried(n, t);
    assert Ids(ProductLayout(n).gates, OutputOf(0)) == [3];
    assert RunOutputs(ExtraSetup(n, t), ProductInputs(n, t), 0) == [F(n - t)];
  }

  /** Every client obtains the cleartext outputs. */
  ghost predicate Right(lay: Layout, t: nat, draws: seq<PartyDraws>, inputs: seq<seq<int>>)
    requires ProperRun(lay, t, draws, inputs)
  {
    forall c :: 0 <= c < lay.clients ==> ClientOutputs(lay, t, draws, inputs, c) == Parties.ClearOutputs(lay, inputs, c)
  }

  lemma RightWhenExact(lay: Layout, t: nat, draws: seq<PartyDraws>, inputs: seq<seq<int>>)
    requires ProperRun(lay, t, draws, inputs) && lay.clients == 2 * t + 1
    ensures Right(lay, t, draws, inputs)
  {
    hide ClientOutputs, Parties.ClearOutputs, WellFormed, Matches, Layered, AllDrawn, IsPrime;
    forall c | 0 <= c < lay.clients ensures ClientOutputs(lay, t, draws, inputs, c) == Parties.ClearOutputs(lay, inputs, c) {
      ExactParties(lay, t, draws, inputs, c);
    }
  }

  lemma WrongWhenMore(n: nat, t: nat)
    requires IsPrime(P61) && 2 * t + 1 < n < P61
    ensures ProperRun(ProductLayout(n), t, ExtraDraws(n, t), ProductInputs(n, t))
    ensures !Right(ProductLayout(n), t, ExtraDraws(n, t), ProductInputs(n, t))
  {
    hide ProperRun, ClientOutputs, Parties.ClearOutputs, F, IsPrime;
    ExtraRun(n, t);
    FDistinct(n - t, t + 1);
    assert [F(n - t)][0] != [F(t + 1)][0];
  }

  /** Of all numbers of parties that the constructor accepts, exactly n = 2t + 1 gives the cleartext
      outputs for every layered circuit, all inputs and all randomness. */
  lemma ExactNumber(n: nat, t: nat)
    requires IsPrime(P61) && 2 * t < n < P61
    ensures (forall lay: Layout, draws, inputs :: lay.clients == n && ProperRun(lay, t, draws, inputs) ==> Right(lay, t, draws, inputs))
      <==> n == 2 * t + 1
  {
    hide ProperRun, Right, IsPrime;
    if n == 2 * t + 1 {
      forall lay: Layout, draws, inputs | lay.clients == n && ProperRun(lay, t, draws, inputs) ensures Right(lay, t, draws, inputs) {
        RightWhenExact(lay, t, draws, inputs);
      }
    } else {
      WrongWhenMore(n, t);
      assert ProductLayout(n).clients == n;
    }
  }
}
