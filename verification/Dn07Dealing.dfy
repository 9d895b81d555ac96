/** What the parties deal in the preprocessing of DN07, and the sharings mixed from it. */
module Dn07Dealing {
  import opened Modular
  import opened Poly
  import opened Scl
  import opened Sequences
  import opened PackedSharing
  import opened Dealing
  import opened Circuits
  import opened Dn07Sharing

  /** A random secret and the random values of its polynomials of degree t and 2t. */
  datatype DoubleDraw = DoubleDraw(secret: int, rest: seq<int>, restDouble: seq<int>)

  datatype PartyDraws = PartyDraws(rand: seq<Draw>, double: seq<DoubleDraw>)

  function Lows(ds: seq<DoubleDraw>): (r: seq<Draw>)
    ensures |r| == |ds|
  {
    seq(|ds|, q requires 0 <= q < |ds| => Draw(ds[q].secret, ds[q].rest))
  }

  function Highs(ds: seq<DoubleDraw>): (r: seq<Draw>)
    ensures |r| == |ds|
  {
    seq(|ds|, q requires 0 <= q < |ds| => Draw(ds[q].secret, ds[q].restDouble))
  }

  /** The draws of one party for a circuit. */
  ghost predicate PartyDrawn(lay: Layout, t: nat, d: PartyDraws) {
    && |d.rand| == Blocks(|Ids(lay.gates, AnyInput)|, t) && RestLengths(d.rand, t)
    && |d.double| == Blocks(|MultOrder(lay)|, t)
    && RestLengths(Lows(d.double), t) && RestLengths(Highs(d.double), 2 * t)
  }

  ghost predicate AllDrawn(lay: Layout, t: nat, draws: seq<PartyDraws>) {
    |draws| == lay.clients && forall i :: 0 <= i < |draws| ==> PartyDrawn(lay, t, draws[i])
  }

  /** Two lists in turn. */
  ghost function Alternate(a: seq<Coeffs>, b: seq<Coeffs>): (r: seq<Coeffs>)
    requires |a| == |b|
    ensures |r| == 2 * |a|
    ensures forall q :: 0 <= q < |a| ==> r[2 * q] == a[q] && r[2 * q + 1] == b[q]
  {
    seq(2 * |a|, q requires 0 <= q < 2 * |a| => if q % 2 == 0 then a[q / 2] else b[q / 2])
  }

  ghost function RandDeals(t: nat, d: PartyDraws): (r: seq<Coeffs>)
    requires RestLengths(d.rand, t)
    ensures |r| == |d.rand| && Lengths(r, t + 1)
  {
    UnpackedDeals(t, 0, d.rand)
  }

  ghost function LowDeals(t: nat, d: PartyDraws): (r: seq<Coeffs>)
    requires RestLengths(Lows(d.double), t)
    ensures |r| == |d.double| && Lengths(r, t + 1)
  {
    UnpackedDeals(t, 0, Lows(d.double))
  }

  ghost function HighDeals(t: nat, d: PartyDraws): (r: seq<Coeffs>)
    requires RestLengths(Highs(d.double), 2 * t)
    ensures |r| == |d.double| && Lengths(r, 2 * t + 1)
  {
    UnpackedDeals(2 * t, 0, Highs(d.double))
  }

  ghost function RandAll(lay: Layout, t: nat, draws: seq<PartyDraws>): (r: seq<seq<Coeffs>>)
    requires AllDrawn(lay, t, draws)
    ensures |r| == |draws| && DealtExactly(r, Blocks(|Ids(lay.gates, AnyInput)|, t))
  {
    seq(|draws|, i requires 0 <= i < |draws| => RandDeals(t, draws[i]))
  }

  ghost function LowAll(lay: Layout, t: nat, draws: seq<PartyDraws>): (r: seq<seq<Coeffs>>)
    requires AllDrawn(lay, t, draws)
    ensures |r| == |draws| && DealtExactly(r, Blocks(|MultOrder(lay)|, t))
  {
    seq(|draws|, i requires 0 <= i < |draws| => LowDeals(t, draws[i]))
  }

  ghost function HighAll(lay: Layout, t: nat, draws: seq<PartyDraws>): (r: seq<seq<Coeffs>>)
    requires AllDrawn(lay, t, draws)
    ensures |r| == |draws| && DealtExactly(r, Blocks(|MultOrder(lay)|, t))
  {
    seq(|draws|, i requires 0 <= i < |draws| => HighDeals(t, draws[i]))
  }

  /** The sharings that the parties obtain. */
  ghost function PadsOf(lay: Layout, t: nat, draws: seq<PartyDraws>): Pads
    requires AllDrawn(lay, t, draws)
  {
    Pads(MixBlocks(RandAll(lay, t, draws), t, Blocks(|Ids(lay.gates, AnyInput)|, t)),
         MixBlocks(LowAll(lay, t, draws), t, Blocks(|MultOrder(lay)|, t)),
         MixBlocks(HighAll(lay, t, draws), t, Blocks(|MultOrder(lay)|, t)))
  }

  // ---------------------------------------------------------------- their properties

  /** Mixing lists with equal values at x gives equal values at x. */
  lemma {:induction false} MixBlocksEqual(a: seq<seq<Coeffs>>, b: seq<seq<Coeffs>>, t: nat, m: nat, x: int, z: nat)
    requires Dealt(a, m) && Dealt(b, m) && |a| == |b| && z < m * (t + 1)
    requires forall i, q :: 0 <= i < |a| && 0 <= q < m ==> At(a[i][q], x) == At(b[i][q], x)
    ensures At(MixBlocks(a, t, m)[z], x) == At(MixBlocks(b, t, m)[z], x)
  {
    hide At, Mix, Weights;
    var start := (m - 1) * (t + 1);
    assert m * (t + 1) == start + (t + 1);
    ColumnPositive(a, m, m - 1);
    ColumnPositive(b, m, m - 1);
    if z < start {
      MixBlocksEqual(a, b, t, m - 1, x, z);
    } else {
      var u, v := Column(a, m - 1), Column(b, m - 1);
      assert Msgs(u, x) == Msgs(v, x);
      MixShare(u, Msgs(u, x), z - start, x);
      MixShare(v, Msgs(v, x), z - start, x);
    }
  }

  lemma SecretDealt(t: nat, d: Draw)
    requires IsPrime(P61) && |d.rest| == t && t + 1 <= P61
    ensures At(UnpackedDeal(t, 0, d), 0) == F(d.secret)
  {
    hide At, F, Coefs, Single, IsPrime;
    SingleValues(d.secret, 0, t, d.rest);
    assert Slot(0) == 0;
  }

  lemma SameSecrets(lay: Layout, t: nat, draws: seq<PartyDraws>, i: nat, q: nat)
    requires IsPrime(P61) && AllDrawn(lay, t, draws) && 2 * t + 1 <= P61 && i < |draws| && q < |draws[i].double|
    ensures At(LowAll(lay, t, draws)[i][q], 0) == At(HighAll(lay, t, draws)[i][q], 0)
  {
    hide At, F, UnpackedDeal, IsPrime, Blocks, Ids;
    SecretDealt(t, Lows(draws[i].double)[q]);
    SecretDealt(2 * t, Highs(draws[i].double)[q]);
  }

  /** There are as many inputs as the circuit counts. */
  lemma InputCount(lay: Layout)
    requires WellFormed(lay)
    ensures |InputOrder(lay)| == |Ids(lay.gates, AnyInput)|
  {
    var a, b := InputOrder(lay), Ids(lay.gates, AnyInput);
    forall i, j | 0 <= i < j < |a| ensures a[i] != a[j] {
      InputOnce(lay, lay.clients, i, j);
    }
    forall g ensures g in a <==> g in b {
      if g in b {
        InputListed(lay, lay.clients, b[Position(b, g)]);
      }
      if g in a {
        IdsComplete(lay.gates, AnyInput, a[Position(a, g)]);
      }
    }
    SameMembers(a, b);
  }

  ghost predicate Once(s: seq<nat>) {
    forall i, j :: 0 <= i < j < |s| ==> s[i] != s[j]
  }

  function Members(s: seq<nat>): set<nat> {
    set g | g in s
  }

  lemma SameMembers(a: seq<nat>, b: seq<nat>)
    requires Once(a) && Once(b) && forall g :: g in a <==> g in b
    ensures |a| == |b|
  {
    Cardinality(a);
    Cardinality(b);
    assert Members(a) == Members(b);
  }

  lemma {:induction false} Cardinality(s: seq<nat>)
    requires Once(s)
    ensures |Members(s)| == |s|
  {
    if s != [] {
      Cardinality(s[1..]);
      assert s[0] !in Members(s[1..]);
      assert Members(s) == {s[0]} + Members(s[1..]);
    }
  }

  /** The mixed sharings are what the circuit needs. */
  lemma PadsGood(lay: Layout, t: nat, draws: seq<PartyDraws>)
    requires IsPrime(P61) && WellFormed(lay) && 2 * t + 1 <= lay.clients < P61 && AllDrawn(lay, t, draws)
    ensures Good(Setup(lay, t, PadsOf(lay, t, draws)))
  {
    hide At, IsPrime, Ids, WellFormed, InputOrder, MixBlocks, UnpackedDeals, AllDrawn, LowDeals, HighDeals, RandDeals, Blocks;
    InputCount(lay);
    PadsLengths(lay, t, draws);
    var m := Blocks(|MultOrder(lay)|, t);
    DrawnSize(lay, t, draws);
    forall i, q | 0 <= i < |draws| && 0 <= q < m
      ensures At(LowAll(lay, t, draws)[i][q], 0) == At(HighAll(lay, t, draws)[i][q], 0)
    {
      SameSecrets(lay, t, draws, i, q);
    }
    var pads := PadsOf(lay, t, draws);
    forall z | 0 <= z < |pads.low| ensures At(pads.low[z], 0) == At(pads.high[z], 0) {
      MixBlocksEqual(LowAll(lay, t, draws), HighAll(lay, t, draws), t, m, 0, z);
    }
  }

  lemma DrawnSize(lay: Layout, t: nat, draws: seq<PartyDraws>)
    requires AllDrawn(lay, t, draws)
    ensures |draws| == lay.clients && forall i :: 0 <= i < |draws| ==> |draws[i].double| == Blocks(|MultOrder(lay)|, t)
  {
    hide Ids, Blocks;
  }

  lemma PadsLengths(lay: Layout, t: nat, draws: seq<PartyDraws>)
    requires AllDrawn(lay, t, draws)
    ensures var pads := PadsOf(lay, t, draws);
      && |pads.rand| >= |Ids(lay.gates, AnyInput)| && |pads.low| == |pads.high| >= |MultOrder(lay)|
      && Lengths(pads.rand, t + 1) && Lengths(pads.low, t + 1) && Lengths(pads.high, 2 * t + 1)
  {
    hide At, Ids, UnpackedDeals, Blocks;
    var b, m := Blocks(|Ids(lay.gates, AnyInput)|, t), Blocks(|MultOrder(lay)|, t);
    MixBlocksLengths(RandAll(lay, t, draws), t, b, t);
    MixBlocksLengths(LowAll(lay, t, draws), t, m, t);
    MixBlocksLengths(HighAll(lay, t, draws), t, m, 2 * t);
  }
}
