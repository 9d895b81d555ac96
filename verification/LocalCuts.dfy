/** How far every party has come in the protocol when a message is due: the stages that lie behind it,
    and what they have brought it. */
module LocalCuts {
  import opened Modular
  import opened Circuits
  import opened Sequences
  import opened PackedSharing
  import opened Dealing
  import opened Wiring
  import opened Preprocessing
  import opened Masking
  import opened Triples
  import opened Schedules
  import opened TurboSchedules
  import opened TurboWires
  import opened LocalViews
  import TurboPack

  // ---------------------------------------------------------------- receipts of stages

  /** How often party i receives from a. */
  function StageRecvs(stages: seq<Stage>, n: nat, i: nat, a: nat): nat
    requires Wide(stages, n) && i < n
  {
    Recvs(Program(stages, i), a)
  }

  lemma RecvsConcat(x: seq<Stage>, y: seq<Stage>, n: nat, i: nat, a: nat)
    requires Wide(x, n) && Wide(y, n) && i < n
    ensures StageRecvs(x + y, n, i, a) == StageRecvs(x, n, i, a) + StageRecvs(y, n, i, a)
  {
    hide Program;
    ProgramConcat(x, y, n, i);
    SendsConcat(Program(x, i), Program(y, i), a);
  }

  lemma OneRecvs(st: Stage, n: nat, i: nat, a: nat)
    requires |st.peers| == n && i < n
    ensures StageRecvs([st], n, i, a) == if st.Receiving? then Count(st.peers[i], a) else 0
  {
    assert [st][..0] == [];
    assert Program([st], i) == Program([], i) + Ops(st, i) == Ops(st, i);
    OpsCount(st, i, a, |st.peers[i]|);
    assert Ops(st, i)[..|st.peers[i]|] == Ops(st, i) && st.peers[i][..|st.peers[i]|] == st.peers[i];
  }

  lemma NoStageRecvs(n: nat, i: nat, a: nat)
    requires i < n
    ensures StageRecvs([], n, i, a) == 0
  {
  }

  lemma {:induction false} RelaysRecvs(n: nat, m: nat, ins: seq<nat>, outs: seq<nat>, a: nat)
    requires n > 0
    ensures StageRecvs(Relays(n, m, ins, outs), n, 0, a) == Count(Times(m, ins), a)
  {
    hide Count, StageRecvs;
    if m == 0 {
      NoStageRecvs(n, 0, a);
      CountNone(a);
    } else {
      var front, st, give := Relays(n, m - 1, ins, outs), Receiving(OnlyP1(n, ins)), Sending(OnlyP1(n, outs));
      RelaysRecvs(n, m - 1, ins, outs, a);
      RecvsConcat(front + [st], [give], n, 0, a);
      RecvsConcat(front, [st], n, 0, a);
      OneRecvs(st, n, 0, a);
      OneRecvs(give, n, 0, a);
      CountConcat(Times(m - 1, ins), ins, a);
    }
  }

  // ---------------------------------------------------------------- prefixes of the protocol

  /** The phases before the c-th boundary: dealing, products, preparation, inputs, and then the layers
      one by one. */
  function Front(lay: Layout, t: nat, c: nat): (r: seq<Stage>)
    requires lay.batchSize > 0 && c <= 4 + |lay.mults|
    ensures Wide(r, lay.clients)
  {
    var n, m := lay.clients, |Mults(lay)|;
    if c == 0 then []
    else if c == 1 then DealingStages(n, TurboSchedules.Dealt(lay, t))
    else if c == 2 then Front(lay, t, 1) + Products(n, t, Factors(lay))
    else if c == 3 then Front(lay, t, 2) + Preparation(n, m, Owners(lay))
    else if c == 4 then Front(lay, t, 3) + Inputs(n, GateCounts(lay, true))
    else Front(lay, t, c - 1) + LayerStages(n, BatchCounts(lay)[c - 5])
  }

  /** The first part that lies behind the boundary. */
  function Boundary(c: nat): nat {
    if c == 0 then 0 else if c == 1 then 1 else if c == 2 then 3 else if c == 3 then 6 else 7 + 2 * (c - 4)
  }

  lemma {:induction false} FrontClosed(lay: Layout, t: nat, c: nat)
    requires WellFormed(lay) && lay.clients > 0 && lay.batchSize > 0 && c <= 4 + |lay.mults|
    ensures Closed(Front(lay, t, c), lay.clients)
  {
    hide Closed, DealingStages, Products, Preparation, Inputs, LayerStages, TurboSchedules.Dealt, Owners, GateCounts, BatchCounts, Mults, Ids, IOs, WellFormed;
    var n, m := lay.clients, |Mults(lay)|;
    OwnersBelow(lay);
    CountsAre(lay, 0, 0);
    NothingClosed(n);
    DealingClosed(n, TurboSchedules.Dealt(lay, t));
    if c > 1 {
      FrontClosed(lay, t, c - 1);
      ProductsClosed(n, t, Factors(lay));
      PreparationClosed(n, m, Owners(lay));
      InputsClosed(n, GateCounts(lay, true));
      if c == 2 {
        ClosedConcat(Front(lay, t, 1), Products(n, t, Factors(lay)), n);
      } else if c == 3 {
        ClosedConcat(Front(lay, t, 2), Preparation(n, m, Owners(lay)), n);
      } else if c == 4 {
        ClosedConcat(Front(lay, t, 3), Inputs(n, GateCounts(lay, true)), n);
      } else {
        LayerClosed(n, BatchCounts(lay)[c - 5]);
        ClosedConcat(Front(lay, t, c - 1), LayerStages(n, BatchCounts(lay)[c - 5]), n);
      }
    }
  }

  lemma OffsetStep(lay: Layout, t: nat, a: nat, i: nat, p: nat)
    requires lay.batchSize > 0
    ensures Offset(lay, t, a, i, p + 1) == Offset(lay, t, a, i, p) + PartLen(lay, t, a, i, PartAt(p, |lay.mults|))
    ensures Offset(lay, t, a, i, 0) == 0
  {
    hide PartLen;
  }

  /** Until a boundary, i sends to j what the parts before it put on the channel. */
  lemma {:induction false} FrontSends(lay: Layout, t: nat, c: nat, i: nat, j: nat)
    requires lay.batchSize > 0 && c <= 4 + |lay.mults| && i < lay.clients && j < lay.clients
    ensures StageSends(Front(lay, t, c), lay.clients, i, j) == Offset(lay, t, i, j, Boundary(c))
  {
    hide StageSends, Count, Mults, Ids, IOs, Owners, TurboSchedules.Dealt, BatchCounts, GateCounts, Layer, DealingStages, Products, Preparation, Inputs, LayerStages, Offset;
    var n, m := lay.clients, |Mults(lay)|;
    CountsAre(lay, i, j);
    OffsetStep(lay, t, i, j, 0);
    if c == 0 {
      NoStages(n, i, j);
    } else if c == 1 {
      DealingSends(n, TurboSchedules.Dealt(lay, t), i, j);
    } else {
      FrontSends(lay, t, c - 1, i, j);
      if c == 2 {
        StagesConcat(Front(lay, t, 1), Products(n, t, Factors(lay)), n, i, j);
        ProductsSends(n, t, Factors(lay), i, j);
        OffsetStep(lay, t, i, j, 1);
        OffsetStep(lay, t, i, j, 2);
      } else if c == 3 {
        StagesConcat(Front(lay, t, 2), Preparation(n, m, Owners(lay)), n, i, j);
        PreparationSends(n, m, Owners(lay), i, j);
        OffsetStep(lay, t, i, j, 3);
        OffsetStep(lay, t, i, j, 4);
        OffsetStep(lay, t, i, j, 5);
      } else if c == 4 {
        StagesConcat(Front(lay, t, 3), Inputs(n, GateCounts(lay, true)), n, i, j);
        InputsSends(n, GateCounts(lay, true), i, j);
        OffsetStep(lay, t, i, j, 6);
      } else {
        FrontLayerSends(lay, t, c - 5, i, j);
      }
    }
  }

  lemma FrontLayerSends(lay: Layout, t: nat, d: nat, i: nat, j: nat)
    requires lay.batchSize > 0 && d < |lay.mults| && i < lay.clients && j < lay.clients
    requires StageSends(Front(lay, t, 4 + d), lay.clients, i, j) == Offset(lay, t, i, j, 7 + 2 * d)
    ensures StageSends(Front(lay, t, 5 + d), lay.clients, i, j) == Offset(lay, t, i, j, 9 + 2 * d)
  {
    hide StageSends, Count, Mults, Ids, IOs, Owners, Layer, LayerStages, Offset, Front;
    var n, b := lay.clients, BatchCounts(lay)[d];
    FrontLayer(lay, t, d);
    StagesConcat(Front(lay, t, 4 + d), LayerStages(n, b), n, i, j);
    LayerSends(n, b, i, j);
    OffsetStep(lay, t, i, j, 7 + 2 * d);
    OffsetStep(lay, t, i, j, 8 + 2 * d);
    LayerPlaces(d, |lay.mults|);
  }

  lemma FrontLayer(lay: Layout, t: nat, d: nat)
    requires lay.batchSize > 0 && d < |lay.mults|
    ensures |BatchCounts(lay)| == |lay.mults| && BatchCounts(lay)[d] == |Layer(lay, d)|
    ensures Front(lay, t, 5 + d) == Front(lay, t, 4 + d) + LayerStages(lay.clients, BatchCounts(lay)[d])
  {
    hide Mults, IOs, Layer, LayerStages;
  }

  lemma LayerPlaces(d: nat, layers: nat)
    requires d < layers
    ensures PartAt(7 + 2 * d, layers) == Mus(d) && PartAt(8 + 2 * d, layers) == Replies(d)
  {
    PlaceIs(Mus(d), layers);
    PlaceIs(Replies(d), layers);
  }

  /** and it has received what the parts before it put on its channels. */
  lemma FrontRecvs(lay: Layout, t: nat, c: nat, i: nat, a: nat)
    requires WellFormed(lay) && lay.batchSize > 0 && c <= 4 + |lay.mults| && i < lay.clients && a < lay.clients
    ensures StageRecvs(Front(lay, t, c), lay.clients, i, a) == Offset(lay, t, a, i, Boundary(c))
  {
    hide Front, Offset, WellFormed, Program, Sends, Recvs, Held, Covered;
    FrontClosed(lay, t, c);
    FrontSends(lay, t, c, a, i);
    RecvsAre(Front(lay, t, c), lay.clients, i, a);
  }

  // ---------------------------------------------------------------- what lies behind a message

  /** Stages that are over when value x of a part is sent. */
  function Cut(lay: Layout, t: nat, part: Part, x: nat): (r: seq<Stage>)
    requires lay.batchSize > 0 && Occurs(part, |lay.mults|)
    ensures Wide(r, lay.clients)
  {
    var n, m := lay.clients, |Mults(lay)|;
    match part
    case Deals => []
    case ToOpen => Front(lay, t, 1)
    case BatchMasks => Front(lay, t, 1)
    case OwnerMasks => Front(lay, t, 1)
    case Opened => Front(lay, t, 1) + RelayCut(n, Times(Factors(lay), [0]), x, All(n), From(t, n))
    case Reshares => Front(lay, t, 2) + RelayCut(n, Times(m, [0] + [0]), x / 2, Twice(n), Twice(n))
    case Ins => Front(lay, t, 3)
    case Mus(d) => Front(lay, t, 4 + d)
    case Replies(d) => Front(lay, t, 4 + d) + LayerCut(n, BatchCounts(lay)[d])
    case Outs => Front(lay, t, 4 + |lay.mults|)
  }

  /** Everyone has sent, P1 has relayed x times and received once more. */
  function RelayCut(n: nat, sent: seq<nat>, x: nat, ins: seq<nat>, outs: seq<nat>): (r: seq<Stage>)
    ensures Wide(r, n)
  {
    [Sending(Everyone(n, sent))] + Relays(n, x, ins, outs) + [Receiving(OnlyP1(n, ins))]
  }

  /** P1 has sent, and everyone has received. */
  function LayerCut(n: nat, b: nat): (r: seq<Stage>)
    ensures Wide(r, n)
  {
    [Sending(OnlyP1(n, Times(b, Twice(n))))] + [Receiving(Everyone(n, Times(b, [0] + [0])))]
  }

  /** How much of the channels has come by then: whole parts, */
  function CutPlace(part: Part, layers: nat): nat {
    match part
    case Deals => 0
    case ToOpen => 1 case BatchMasks => 1 case OwnerMasks => 1 case Opened => 1
    case Reshares => 3 case Ins => 6
    case Mus(d) => 7 + 2 * d case Replies(d) => 8 + 2 * d
    case Outs => 7 + 2 * layers
  }

  /** and some values of the next part. */
  function CutMore(part: Part, x: nat): nat {
    match part
    case Opened => x + 1
    case Reshares => 2 * (x / 2) + 2
    case _ => 0
  }

  // ---------------------------------------------------------------- it is a prefix

  lemma {:induction false} RelaysSplit(n: nat, m: nat, x: nat, ins: seq<nat>, outs: seq<nat>) returns (rest: seq<Stage>)
    requires x < m
    ensures Wide(rest, n)
    ensures Relays(n, m, ins, outs) == Relays(n, x, ins, outs) + [Receiving(OnlyP1(n, ins))] + rest
  {
    var st, give := Receiving(OnlyP1(n, ins)), Sending(OnlyP1(n, outs));
    if x == m - 1 {
      rest := [give];
    } else {
      var before := RelaysSplit(n, m - 1, x, ins, outs);
      rest := before + [st] + [give];
      assert Relays(n, x, ins, outs) + [st] + before + [st] + [give] == Relays(n, x, ins, outs) + [st] + rest;
    }
  }

  lemma RelayCutIs(n: nat, sent: seq<nat>, m: nat, x: nat, ins: seq<nat>, outs: seq<nat>, after: seq<Stage>) returns (rest: seq<Stage>)
    requires x < m && Wide(after, n)
    ensures Wide(rest, n)
    ensures [Sending(Everyone(n, sent))] + Relays(n, m, ins, outs) + after == RelayCut(n, sent, x, ins, outs) + rest
  {
    hide Relays;
    var r := RelaysSplit(n, m, x, ins, outs);
    rest := r + after;
    var a, b, c := [Sending(Everyone(n, sent))], Relays(n, x, ins, outs), [Receiving(OnlyP1(n, ins))];
    assert a + (b + c + r) + after == a + b + c + (r + after);
  }

  lemma FrontSplit(lay: Layout, t: nat, c: nat, e: nat) returns (rest: seq<Stage>)
    requires lay.batchSize > 0 && c <= e <= 4 + |lay.mults|
    ensures Wide(rest, lay.clients) && Front(lay, t, e) == Front(lay, t, c) + rest
    decreases e
  {
    hide DealingStages, Products, Preparation, Inputs, LayerStages, TurboSchedules.Dealt, Owners, GateCounts, BatchCounts, Mults, Ids, IOs, Front;
    FrontNone(lay, t);
    if c == e {
      rest := [];
    } else if c == 0 {
      rest := Front(lay, t, e);
    } else {
      var before := FrontSplit(lay, t, c, e - 1);
      var last := FrontLast(lay, t, e);
      rest := before + last;
      assert Front(lay, t, c) + before + last == Front(lay, t, c) + rest;
    }
  }

  lemma FrontNone(lay: Layout, t: nat)
    requires lay.batchSize > 0
    ensures Front(lay, t, 0) == []
    ensures Front(lay, t, 1) == DealingStages(lay.clients, TurboSchedules.Dealt(lay, t))
    ensures Front(lay, t, 4) == DealingStages(lay.clients, TurboSchedules.Dealt(lay, t)) + Products(lay.clients, t, Factors(lay))
      + Preparation(lay.clients, |Mults(lay)|, Owners(lay)) + Inputs(lay.clients, GateCounts(lay, true))
  {
    hide DealingStages, Products, Preparation, Inputs, LayerStages, TurboSchedules.Dealt, Owners, GateCounts, BatchCounts, Mults, Ids, IOs;
    assert Front(lay, t, 3) == Front(lay, t, 2) + Preparation(lay.clients, |Mults(lay)|, Owners(lay));
  }

  lemma FrontLast(lay: Layout, t: nat, e: nat) returns (last: seq<Stage>)
    requires lay.batchSize > 0 && 1 < e <= 4 + |lay.mults|
    ensures Wide(last, lay.clients) && Front(lay, t, e) == Front(lay, t, e - 1) + last
    ensures e == 2 ==> last == Products(lay.clients, t, Factors(lay))
    ensures e == 3 ==> last == Preparation(lay.clients, |Mults(lay)|, Owners(lay))
    ensures e > 4 ==> e - 5 < |BatchCounts(lay)| && last == LayerStages(lay.clients, BatchCounts(lay)[e - 5])
  {
    hide DealingStages, Products, Preparation, Inputs, LayerStages, TurboSchedules.Dealt, Owners, GateCounts, Mults, Ids, IOs, Layer;
    var n, m := lay.clients, |Mults(lay)|;
    last := if e == 2 then Products(n, t, Factors(lay)) else if e == 3 then Preparation(n, m, Owners(lay))
      else if e == 4 then Inputs(n, GateCounts(lay, true)) else LayerStages(n, BatchCounts(lay)[e - 5]);
  }

  lemma {:induction false} FrontLayers(lay: Layout, t: nat, d: nat)
    requires lay.batchSize > 0 && d <= |lay.mults|
    ensures |BatchCounts(lay)| == |lay.mults|
    ensures Front(lay, t, 4 + d) == Front(lay, t, 4) + LayersStages(lay.clients, BatchCounts(lay)[..d])
  {
    hide DealingStages, Products, Preparation, Inputs, LayerStages, TurboSchedules.Dealt, Owners, GateCounts, Mults, Ids, IOs, Layer, BatchCounts, Front;
    CountsOf(lay);
    var n, bs := lay.clients, BatchCounts(lay);
    if d > 0 {
      FrontLayers(lay, t, d - 1);
      FrontLayer(lay, t, d - 1);
      assert bs[..d][..d - 1] == bs[..d - 1];
      assert Front(lay, t, 4) + LayersStages(n, bs[..d - 1]) + LayerStages(n, bs[d - 1])
        == Front(lay, t, 4) + (LayersStages(n, bs[..d - 1]) + LayerStages(n, bs[d - 1]));
    }
  }

  lemma CountsOf(lay: Layout)
    requires lay.batchSize > 0
    ensures |BatchCounts(lay)| == |lay.mults| && BatchCounts(lay)[..|lay.mults|] == BatchCounts(lay)
  {
    hide Layer;
  }

  /** The whole protocol is the last prefix and the outputs. */
  lemma WholeIs(lay: Layout, t: nat)
    requires lay.batchSize > 0
    ensures TurboStages(lay, t) == Front(lay, t, 4 + |lay.mults|) + Outputs(lay.clients, GateCounts(lay, false))
  {
    hide DealingStages, Products, Preparation, Inputs, LayersStages, TurboSchedules.Dealt, Owners, GateCounts, Mults, Ids, IOs, Layer, BatchCounts, Outputs, LayerStages, Front;
    FrontNone(lay, t);
    CountsOf(lay);
    FrontLayers(lay, t, |lay.mults|);
  }

  lemma CutIs(lay: Layout, t: nat, part: Part, x: nat) returns (rest: seq<Stage>)
    requires lay.batchSize > 0 && Occurs(part, |lay.mults|)
    requires part.Opened? ==> x < Factors(lay)
    requires part.Reshares? ==> x < 2 * |Mults(lay)|
    ensures Wide(rest, lay.clients) && TurboStages(lay, t) == Cut(lay, t, part, x) + rest
  {
    hide DealingStages, LayersStages, TurboSchedules.Dealt, Owners, GateCounts, Mults, Ids, IOs, Layer, BatchCounts, Outputs, LayerStages, Front, TurboStages, Times, Twice, From, All, RelayCut, Relays, LayerCut;
    WholeIs(lay, t);
    FrontNone(lay, t);
    var n, m := lay.clients, |Mults(lay)|;
    var c := FrontBefore(part, |lay.mults|);
    var outs := Outputs(n, GateCounts(lay, false));
    if part.Opened? || part.Reshares? || part.Replies? {
      var after := FrontSplit(lay, t, c + 1, 4 + |lay.mults|);
      var last := StepSplit(lay, t, part, x);
      rest := last + after + outs;
      assert Cut(lay, t, part, x) + last + after + outs == Cut(lay, t, part, x) + rest;
    } else {
      var after := FrontSplit(lay, t, c, 4 + |lay.mults|);
      rest := after + outs;
      assert Front(lay, t, c) + after + outs == Front(lay, t, c) + rest;
    }
  }

  /** The last boundary behind a message. */
  function FrontBefore(part: Part, layers: nat): nat {
    match part
    case Deals => 0
    case ToOpen => 1 case BatchMasks => 1 case OwnerMasks => 1 case Opened => 1
    case Reshares => 2 case Ins => 3
    case Mus(d) => 4 + d case Replies(d) => 4 + d
    case Outs => 4 + layers
  }

  /** The rest of the phase in which a message that is an answer is sent. */
  lemma StepSplit(lay: Layout, t: nat, part: Part, x: nat) returns (rest: seq<Stage>)
    requires lay.batchSize > 0 && Occurs(part, |lay.mults|) && (part.Opened? || part.Reshares? || part.Replies?)
    requires part.Opened? ==> x < Factors(lay)
    requires part.Reshares? ==> x < 2 * |Mults(lay)|
    ensures Wide(rest, lay.clients)
    ensures Front(lay, t, FrontBefore(part, |lay.mults|) + 1) == Cut(lay, t, part, x) + rest
  {
    hide DealingStages, LayersStages, TurboSchedules.Dealt, Owners, GateCounts, Mults, Ids, IOs, Layer, Outputs, Front, Times, Twice, From, All, RelayCut, Relays;
    var n, m := lay.clients, |Mults(lay)|;
    var last := FrontLast(lay, t, FrontBefore(part, |lay.mults|) + 1);
    match part {
      case Opened =>
        rest := RelayCutIs(n, Times(Factors(lay), [0]), Factors(lay), x, All(n), From(t, n),
          [Receiving(seq(n, i => if i >= t then Times(Factors(lay), [0]) else []))]);
        ConcatAssoc(Front(lay, t, 1), RelayCut(n, Times(Factors(lay), [0]), x, All(n), From(t, n)), rest);
      case Reshares =>
        var owners := Owners(lay);
        var after := [Sending(Everyone(n, owners))] + [Receiving(Everyone(n, Times(m, [0] + [0])))]
          + [Receiving(seq(n, c requires 0 <= c => Times(Count(owners, c), All(n))))];
        rest := RelayCutIs(n, Times(m, [0] + [0]), m, x / 2, Twice(n), Twice(n), after);
        ConcatAssoc(Front(lay, t, 2), RelayCut(n, Times(m, [0] + [0]), x / 2, Twice(n), Twice(n)), rest);
        assert last == [Sending(Everyone(n, Times(m, [0] + [0])))] + Relays(n, m, Twice(n), Twice(n)) + after;
      case Replies(d) =>
        var b := BatchCounts(lay)[d];
        rest := [Sending(Everyone(n, Times(b, [0])))] + [Receiving(OnlyP1(n, Times(b, All(n))))];
        assert LayerStages(n, b) == LayerCut(n, b) + rest;
        ConcatAssoc(Front(lay, t, 4 + d), LayerCut(n, b), rest);
      case _ =>
    }
  }

  // ---------------------------------------------------------------- counting behind a message

  lemma {:induction false} OffsetGrows(lay: Layout, t: nat, a: nat, i: nat, p: nat, q: nat)
    requires lay.batchSize > 0 && p <= q
    ensures Offset(lay, t, a, i, p) <= Offset(lay, t, a, i, q)
  {
    hide PartLen;
    if p < q {
      OffsetGrows(lay, t, a, i, p, q - 1);
    }
  }

  lemma RelayCutCounts(n: nat, m: nat, sent: seq<nat>, x: nat, ins: seq<nat>, outs: seq<nat>, i: nat, j: nat)
    requires i < n && j < n && n > 0
    ensures StageSends(RelayCut(n, sent, x, ins, outs), n, i, j) == Count(sent, j) + if i == 0 then Count(Times(x, outs), j) else 0
    ensures i == 0 ==> StageRecvs(RelayCut(n, sent, x, ins, outs), n, i, j) == Count(Times(x, ins), j) + Count(ins, j)
  {
    hide Count, Times, StageSends, StageRecvs, Relays;
    var a, b, c := Sending(Everyone(n, sent)), Relays(n, x, ins, outs), Receiving(OnlyP1(n, ins));
    StagesConcat([a] + b, [c], n, i, j);
    StagesConcat([a], b, n, i, j);
    OneStage(a, n, i, j);
    OneStage(c, n, i, j);
    RelaysSends(n, x, ins, outs, i, j);
    RecvsConcat([a] + b, [c], n, i, j);
    RecvsConcat([a], b, n, i, j);
    OneRecvs(a, n, i, j);
    OneRecvs(c, n, i, j);
    RelaysRecvs(n, x, ins, outs, j);
  }

  lemma LayerCutCounts(n: nat, b: nat, i: nat, j: nat)
    requires i < n && j < n && n > 0
    ensures StageSends(LayerCut(n, b), n, i, j) == if i == 0 then 2 * b else 0
    ensures StageRecvs(LayerCut(n, b), n, i, j) == if j == 0 then 2 * b else 0
  {
    hide Count, Times, StageSends, StageRecvs, Twice;
    var c, d := Sending(OnlyP1(n, Times(b, Twice(n)))), Receiving(Everyone(n, Times(b, [0] + [0])));
    StagesConcat([c], [d], n, i, j);
    OneStage(c, n, i, j);
    OneStage(d, n, i, j);
    RecvsConcat([c], [d], n, i, j);
    OneRecvs(c, n, i, j);
    OneRecvs(d, n, i, j);
    TwiceTimes(n, b);
    TwoTimes(n, b);
    CountNone(j);
  }

  /** Whoever sends a message has sent as much on that channel as the stages behind it. */
  lemma CutSends(lay: Layout, t: nat, i: nat, j: nat, part: Part, x: nat)
    requires lay.batchSize > 0 && i < lay.clients && j < lay.clients && Occurs(part, |lay.mults|)
    requires x < PartLen(lay, t, i, j, part)
    ensures StageSends(Cut(lay, t, part, x), lay.clients, i, j) <= Offset(lay, t, i, j, Place(part, |lay.mults|)) + x
  {
    hide StageSends, Count, Mults, Ids, IOs, Owners, TurboSchedules.Dealt, BatchCounts, Layer, Times, Twice, From, All, RelayCut, LayerCut, Front, Offset, DealingStages, Products, Preparation, Inputs, LayerStages;
    if part.Opened? || part.Reshares? || part.Replies? {
      AnswerSends(lay, t, i, j, part, x);
    } else {
      var c := FrontBefore(part, |lay.mults|);
      FrontNone(lay, t);
      FrontSends(lay, t, c, i, j);
      OffsetGrows(lay, t, i, j, Boundary(c), Place(part, |lay.mults|));
    }
  }

  lemma AnswerSends(lay: Layout, t: nat, i: nat, j: nat, part: Part, x: nat)
    requires lay.batchSize > 0 && i < lay.clients && j < lay.clients && Occurs(part, |lay.mults|)
    requires x < PartLen(lay, t, i, j, part) && (part.Opened? || part.Reshares? || part.Replies?)
    ensures StageSends(Cut(lay, t, part, x), lay.clients, i, j) <= Offset(lay, t, i, j, Place(part, |lay.mults|)) + x
  {
    hide StageSends, Count, Mults, Ids, IOs, Owners, TurboSchedules.Dealt, BatchCounts, Layer, Times, Twice, From, All, RelayCut, LayerCut, Front, Offset;
    var n, c := lay.clients, FrontBefore(part, |lay.mults|);
    FrontSends(lay, t, c, i, j);
    match part {
      case Opened =>
        StagesConcat(Front(lay, t, 1), RelayCut(n, Times(Factors(lay), [0]), x, All(n), From(t, n)), n, i, j);
        RelayCutCounts(n, Factors(lay), Times(Factors(lay), [0]), x, All(n), From(t, n), i, j);
        OneTimes(n, Factors(lay));
        CountTimes(x, From(t, n), j, n);
        CountFrom(t, n, j);
        OffsetStep(lay, t, i, j, 1);
      case Reshares =>
        StagesConcat(Front(lay, t, 2), RelayCut(n, Times(|Mults(lay)|, [0] + [0]), x / 2, Twice(n), Twice(n)), n, i, j);
        RelayCutCounts(n, |Mults(lay)|, Times(|Mults(lay)|, [0] + [0]), x / 2, Twice(n), Twice(n), i, j);
        TwoTimes(n, |Mults(lay)|);
        TwiceTimes(n, x / 2);
        OffsetStep(lay, t, i, j, 3);
      case Replies(d) =>
        BatchCount(lay, d);
        StagesConcat(Front(lay, t, 4 + d), LayerCut(n, BatchCounts(lay)[d]), n, i, j);
        LayerCutCounts(n, BatchCounts(lay)[d], i, j);
        OffsetStep(lay, t, i, j, 7 + 2 * d);
        LayerPlaces(d, |lay.mults|);
      case _ =>
    }
  }

  lemma BatchCount(lay: Layout, d: nat)
    requires lay.batchSize > 0 && d < |lay.mults|
    ensures |BatchCounts(lay)| == |lay.mults| && BatchCounts(lay)[d] == |Layer(lay, d)|
  {
    hide Layer;
  }

  /** The stages behind a message have brought its sender that much. */
  lemma CutRecvs(lay: Layout, t: nat, i: nat, a: nat, part: Part, x: nat)
    requires WellFormed(lay) && lay.batchSize > 0 && i < lay.clients && a < lay.clients && Occurs(part, |lay.mults|)
    requires part.Opened? || part.Reshares? ==> i == 0
    ensures StageRecvs(Cut(lay, t, part, x), lay.clients, i, a) ==
      Offset(lay, t, a, i, CutPlace(part, |lay.mults|)) + CutMore(part, x)
  {
    hide StageRecvs, Count, Mults, Ids, IOs, Owners, TurboSchedules.Dealt, BatchCounts, Layer, Times, Twice, From, All, RelayCut, LayerCut, Front, Offset, WellFormed, DealingStages, Products, Preparation, Inputs, LayerStages;
    var n, c := lay.clients, FrontBefore(part, |lay.mults|);
    FrontRecvs(lay, t, c, i, a);
    FrontNone(lay, t);
    match part {
      case Opened =>
        RecvsConcat(Front(lay, t, 1), RelayCut(n, Times(Factors(lay), [0]), x, All(n), From(t, n)), n, i, a);
        RelayCutCounts(n, Factors(lay), Times(Factors(lay), [0]), x, All(n), From(t, n), i, a);
        CountTimes(x, All(n), a, n);
        CountAll(n, a);
      case Reshares =>
        RecvsConcat(Front(lay, t, 2), RelayCut(n, Times(|Mults(lay)|, [0] + [0]), x / 2, Twice(n), Twice(n)), n, i, a);
        RelayCutCounts(n, |Mults(lay)|, Times(|Mults(lay)|, [0] + [0]), x / 2, Twice(n), Twice(n), i, a);
        TwiceTimes(n, x / 2);
        CountTwice(n, a);
      case Replies(d) =>
        BatchCount(lay, d);
        RecvsConcat(Front(lay, t, 4 + d), LayerCut(n, BatchCounts(lay)[d]), n, i, a);
        LayerCutCounts(n, BatchCounts(lay)[d], i, a);
        OffsetStep(lay, t, a, i, 7 + 2 * d);
        LayerPlaces(d, |lay.mults|);
      case _ =>
    }
  }

  // ---------------------------------------------------------------- what has come when a message is due

  /** A party that is about to send value x of a part to j has got what the stages behind that message
      have brought. */
  lemma DueReached(s: Game, i: nat, j: nat, p: nat, part: Part, x: nat, ops: seq<Op>)
    requires Played(s) && i < s.lay.clients && j < s.lay.clients && s.lay.batchSize > 0 && Occurs(part, |s.lay.mults|)
    requires ops == Program(TurboStages(s.lay, s.t), i) && p < |ops| && ops[p] == Send(j)
    requires x < PartLen(s.lay, s.t, i, j, part)
    requires Sends(ops[..p], j) == Offset(s.lay, s.t, i, j, Place(part, |s.lay.mults|)) + x
    ensures forall a: nat :: a < s.lay.clients ==>
      Offset(s.lay, s.t, a, i, CutPlace(part, |s.lay.mults|)) + CutMore(part, x) <= Recvs(ops[..p], a)
  {
    hide Program, Sends, Recvs, Offset, TurboStages, Cut, IsPrime, WellFormed, AllDrawn, Matches, GoodFI, Preprocessed, FullWire, Played, Fi, Mults, Ids, Layer, StageSends, StageRecvs;
    PlayedFacts(s);
    var lay, t, n := s.lay, s.t, s.lay.clients;
    var rest := CutIs(lay, t, part, x);
    CutSends(lay, t, i, j, part, x);
    forall a: nat | a < n
      ensures Offset(lay, t, a, i, CutPlace(part, |lay.mults|)) + CutMore(part, x) <= Recvs(ops[..p], a)
    {
      CutRecvs(lay, t, i, a, part, x);
      CutsMeet(Cut(lay, t, part, x), rest, n, i, p, a);
    }
  }

  lemma CutsMeet(front: seq<Stage>, back: seq<Stage>, n: nat, i: nat, p: nat, a: nat)
    requires Wide(front, n) && Wide(back, n) && i < n && p < |Program(front + back, i)| && Program(front + back, i)[p].Send?
    requires var ops := Program(front + back, i); StageSends(front, n, i, ops[p].to) <= Sends(ops[..p], ops[p].to)
    ensures StageRecvs(front, n, i, a) <= Recvs(Program(front + back, i)[..p], a)
  {
    PastPrefix(front, back, n, i, p, a);
  }
}
