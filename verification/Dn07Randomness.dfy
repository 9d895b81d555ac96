/** Where the random values of DN07 go: every number that is shown is masked with a combination of what all
    parties drew. */
module Dn07Randomness {
  import opened Modular
  import opened Scl
  import opened Sequences
  import opened PackedSharing
  import opened Dealing
  import opened Circuits
  import opened Dn07Sharing
  import opened Dn07Dealing
  import opened Randomness

  function RandRows(draws: seq<PartyDraws>): (r: seq<seq<Draw>>)
    ensures |r| == |draws|
  {
    seq(|draws|, i requires 0 <= i < |draws| => draws[i].rand)
  }

  /** The draws for the pairs, of degree t or 2t. */
  function PairRows(draws: seq<PartyDraws>, double: bool): (r: seq<seq<Draw>>)
    ensures |r| == |draws|
  {
    seq(|draws|, i requires 0 <= i < |draws| => if double then Highs(draws[i].double) else Lows(draws[i].double))
  }

  lemma OneParty(lay: Layout, t: nat, draws: seq<PartyDraws>, i: nat)
    requires AllDrawn(lay, t, draws) && i < |draws|
    ensures |draws| == lay.clients && PartyDrawn(lay, t, draws[i])
  {
    hide PartyDrawn;
  }

  /** One column of dealt sharings with the secret at 0: its secrets and the drawn shares. */
  lemma ColumnHolds(deals: seq<seq<Coeffs>>, rows: seq<seq<Draw>>, degree: nat, t: nat, m: nat, q: nat, e: nat)
    requires IsPrime(P61) && degree + 1 <= P61 && |deals| == |rows| && Dealt(deals, m) && q < m && e <= t
    requires forall i :: 0 <= i < |rows| ==>
      q < |rows[i]| && q < |deals[i]| && |rows[i][q].rest| == degree && deals[i][q] == UnpackedDeal(degree, 0, rows[i][q])
    ensures var z, mixed := q * (t + 1) + e, MixBlocks(deals, t, m);
      && z < |mixed| && At(mixed[z], 0) == F(Combination(Secrets(rows, q), e, |rows|))
      && forall p :: 0 <= p < degree ==> At(mixed[z], p + 1) == F(Combination(Rests(rows, q, p), e, |rows|))
  {
    hide At, F, IsPrime, MixBlocks, Combination, UnpackedDeal;
    MixedPlace(deals, t, m, q, e);
    forall i | 0 <= i < |rows|
      ensures At(deals[i][q], 0) == F(Secrets(rows, q)[i])
      ensures forall p :: 0 <= p < degree ==> At(deals[i][q], p + 1) == F(Rests(rows, q, p)[i])
    {
      UnpackedDealHolds(degree, 0, rows[i][q]);
      assert Slot(0) == 0;
    }
    MixedFrom(deals, t, m, q, e, 0, Secrets(rows, q));
    forall p | 0 <= p < degree
      ensures At(MixBlocks(deals, t, m)[q * (t + 1) + e], p + 1) == F(Combination(Rests(rows, q, p), e, |rows|))
    {
      MixedFrom(deals, t, m, q, e, p + 1, Rests(rows, q, p));
    }
  }

  /** The random sharings for the inputs. */
  lemma RandNumbers(lay: Layout, t: nat, draws: seq<PartyDraws>, q: nat, e: nat)
    requires IsPrime(P61) && AllDrawn(lay, t, draws) && t + 1 <= P61 && q < Blocks(|Ids(lay.gates, AnyInput)|, t) && e <= t
    ensures var z, rand := q * (t + 1) + e, PadsOf(lay, t, draws).rand;
      && z < |rand| && At(rand[z], 0) == F(Combination(Secrets(RandRows(draws), q), e, |draws|))
      && forall p :: 0 <= p < t ==> At(rand[z], p + 1) == F(Combination(Rests(RandRows(draws), q, p), e, |draws|))
  {
    hide At, F, IsPrime, MixBlocks, Combination, UnpackedDeal, Ids, Blocks, AllDrawn, LowAll, HighAll;
    forall i | 0 <= i < |draws| ensures PartyDrawn(lay, t, draws[i]) {
      OneParty(lay, t, draws, i);
    }
    ColumnHolds(RandAll(lay, t, draws), RandRows(draws), t, t, Blocks(|Ids(lay.gates, AnyInput)|, t), q, e);
  }

  /** The pairs for the multiplications: one number with degrees t and 2t. */
  lemma PairNumbers(lay: Layout, t: nat, draws: seq<PartyDraws>, q: nat, e: nat)
    requires IsPrime(P61) && AllDrawn(lay, t, draws) && 2 * t + 1 <= P61 && q < Blocks(|MultOrder(lay)|, t) && e <= t
    ensures var z, pads, number := q * (t + 1) + e, PadsOf(lay, t, draws), F(Combination(Secrets(PairRows(draws, false), q), e, |draws|));
      && z < |pads.low| && z < |pads.high| && At(pads.low[z], 0) == number && At(pads.high[z], 0) == number
      && (forall p :: 0 <= p < t ==> At(pads.low[z], p + 1) == F(Combination(Rests(PairRows(draws, false), q, p), e, |draws|)))
      && forall p :: 0 <= p < 2 * t ==> At(pads.high[z], p + 1) == F(Combination(Rests(PairRows(draws, true), q, p), e, |draws|))
  {
    hide At, F, IsPrime, MixBlocks, Combination, UnpackedDeal, MultOrder, Blocks, AllDrawn, RandAll, Ids;
    forall i | 0 <= i < |draws| ensures PartyDrawn(lay, t, draws[i]) {
      OneParty(lay, t, draws, i);
    }
    var m := Blocks(|MultOrder(lay)|, t);
    ColumnHolds(LowAll(lay, t, draws), PairRows(draws, false), t, t, m, q, e);
    ColumnHolds(HighAll(lay, t, draws), PairRows(draws, true), 2 * t, t, m, q, e);
    assert Secrets(PairRows(draws, true), q) == Secrets(PairRows(draws, false), q);
  }

  /** The owner of an input shows everyone its value less the combination drawn for it. */
  lemma InputMaskedByAll(lay: Layout, t: nat, draws: seq<PartyDraws>, inputs: seq<seq<int>>, q: nat, e: nat)
    requires IsPrime(P61) && WellFormed(lay) && 2 * t + 1 <= lay.clients < P61 && AllDrawn(lay, t, draws) && Matches(lay, inputs)
    requires e <= t && q * (t + 1) + e < |InputOrder(lay)|
    ensures Good(Setup(lay, t, PadsOf(lay, t, draws)))
    ensures var s, g := Setup(lay, t, PadsOf(lay, t, draws)), InputOrder(lay)[q * (t + 1) + e];
      && g < |lay.gates| && lay.gates[g].InputGate?
      && InputMasked(s, inputs, g) == F(InputValue(lay, inputs, g) - Combination(Secrets(RandRows(draws), q), e, |draws|))
  {
    hide At, F, IsPrime, Combination, Blocks, Ids, WellFormed, AllDrawn, PadsOf, Good, Matches, InputValue, InputOrder;
    PadsGood(lay, t, draws);
    InputCount(lay);
    BlockOf(|Ids(lay.gates, AnyInput)|, t, q, e);
    RandNumbers(lay, t, draws, q, e);
    var s, z := Setup(lay, t, PadsOf(lay, t, draws)), q * (t + 1) + e;
    var g := InputOrder(lay)[z];
    OrderedInput(lay, z);
    InputPosition(lay, z);
    MaskTaken(s, g, z);
    var v, c := InputValue(lay, inputs, g), Combination(Secrets(RandRows(draws), q), e, |draws|);
    FF(c);
    FOps(v, F(c), v, c);
  }

  lemma OrderedInput(lay: Layout, z: nat)
    requires z < |InputOrder(lay)|
    ensures InputOrder(lay)[z] < |lay.gates| && lay.gates[InputOrder(lay)[z]].InputGate?
  {
    hide Ids;
  }

  lemma MaskTaken(s: Setup, g: nat, z: nat)
    requires Good(s) && g < |s.lay.gates| && s.lay.gates[g].InputGate? && z < |InputOrder(s.lay)|
    requires InputOrder(s.lay)[z] == g && Position(InputOrder(s.lay), g) == z
    ensures z < |s.pads.rand| && RandOf(s, g) == s.pads.rand[z]
  {
    hide Ids;
  }

  /** With n = 2t + 1, P1 opens the product of what the parents carry less the combination drawn for the gate. */
  lemma OpenedMaskedByAll(lay: Layout, t: nat, draws: seq<PartyDraws>, inputs: seq<seq<int>>, q: nat, e: nat)
    requires IsPrime(P61) && WellFormed(lay) && 2 * t + 1 == lay.clients < P61 && AllDrawn(lay, t, draws) && Matches(lay, inputs)
    requires e <= t && q * (t + 1) + e < |MultOrder(lay)|
    ensures Good(Setup(lay, t, PadsOf(lay, t, draws)))
    ensures var s, g := Setup(lay, t, PadsOf(lay, t, draws)), MultOrder(lay)[q * (t + 1) + e];
      && g < |lay.gates| && lay.gates[g].MultGate? && lay.gates[g].left < g && lay.gates[g].right < g
      && Opened(s, inputs, g) == F(Clear(lay, inputs, lay.gates[g].left) * Clear(lay, inputs, lay.gates[g].right)
                                   - Combination(Secrets(PairRows(draws, false), q), e, |draws|))
  {
    hide At, F, IsPrime, Combination, Blocks, Ids, WellFormed, AllDrawn, PadsOf, Good, Matches, Clear, MultOrder, GatePoly, Opened, MultProduct, HighOf;
    PadsGood(lay, t, draws);
    BlockOf(|MultOrder(lay)|, t, q, e);
    PairNumbers(lay, t, draws, q, e);
    var s, z := Setup(lay, t, PadsOf(lay, t, draws)), q * (t + 1) + e;
    var g := MultOrder(lay)[z];
    OrderedMult(s, z);
    var l, r := lay.gates[g].left, lay.gates[g].right;
    GateClear(s, inputs, l);
    GateClear(s, inputs, r);
    OpenedIs(s, inputs, g);
    MultProductAt(s, inputs, g, 0);
    var v, c := Clear(lay, inputs, l) * Clear(lay, inputs, r), Combination(Secrets(PairRows(draws, false), q), e, |draws|);
    FF(v);
    FF(c);
    FOps(F(v), F(c), v, c);
  }

  lemma OrderedMult(s: Setup, z: nat)
    requires Good(s) && z < |MultOrder(s.lay)|
    ensures var g := MultOrder(s.lay)[z];
      && g < |s.lay.gates| && s.lay.gates[g].MultGate? && s.lay.gates[g].left < g && s.lay.gates[g].right < g
      && z < |s.pads.high| && HighOf(s, g) == s.pads.high[z]
  {
    hide Ids;
    var g := MultOrder(s.lay)[z];
    assert Is(s.lay.gates[g], AnyMult);
    Parents(s, g);
    PositionUnique(MultOrder(s.lay), z);
  }
}
