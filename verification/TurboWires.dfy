/** What TurboPack sends over every channel, and that every interleaving of the steps of parties that
    send it delivers it. */
module TurboWires {
  import opened Modular
  import opened Scl
  import opened Circuits
  import opened Sequences
  import opened PackedSharing
  import opened Dealing
  import opened Wiring
  import opened Preprocessing
  import opened Masking
  import opened Triples
  import opened Schedules
  import opened TurboSchedules
  import Parties
  import TurboPack

  // ---------------------------------------------------------------- counting the sends of stages

  /** How often party i sends to j. */
  function StageSends(stages: seq<Stage>, n: nat, i: nat, j: nat): nat
    requires Wide(stages, n) && i < n
  {
    Sends(Program(stages, i), j)
  }

  lemma {:induction false} ProgramConcat(a: seq<Stage>, b: seq<Stage>, n: nat, i: nat)
    requires Wide(a, n) && Wide(b, n) && i < n
    ensures Program(a + b, i) == Program(a, i) + Program(b, i)
  {
    hide Ops, Program;
    if b == [] {
      assert a + b == a;
      EmptyProgram(b, i);
    } else {
      ProgramConcat(a, b[..|b| - 1], n, i);
      assert (a + b)[..|a + b| - 1] == a + b[..|b| - 1];
      LastStage(a + b, n, i);
      LastStage(b, n, i);
      ConcatAssoc(Program(a, i), Program(b[..|b| - 1], i), Ops(b[|b| - 1], i));
    }
  }

  lemma LastStage(stages: seq<Stage>, n: nat, i: nat)
    requires Wide(stages, n) && i < n && stages != []
    ensures Program(stages, i) == Program(stages[..|stages| - 1], i) + Ops(stages[|stages| - 1], i)
  {
    hide Ops;
  }

  lemma StagesConcat(a: seq<Stage>, b: seq<Stage>, n: nat, i: nat, j: nat)
    requires Wide(a, n) && Wide(b, n) && i < n
    ensures StageSends(a + b, n, i, j) == StageSends(a, n, i, j) + StageSends(b, n, i, j)
  {
    hide Program;
    ProgramConcat(a, b, n, i);
    SendsConcat(Program(a, i), Program(b, i), j);
  }

  lemma OneStage(st: Stage, n: nat, i: nat, j: nat)
    requires |st.peers| == n && i < n
    ensures StageSends([st], n, i, j) == if st.Sending? then Count(st.peers[i], j) else 0
  {
    assert [st][..0] == [];
    assert Program([st], i) == Program([], i) + Ops(st, i) == Ops(st, i);
    OpsCount(st, i, j, |st.peers[i]|);
    assert Ops(st, i)[..|st.peers[i]|] == Ops(st, i) && st.peers[i][..|st.peers[i]|] == st.peers[i];
  }

  lemma NoStages(n: nat, i: nat, j: nat)
    requires i < n
    ensures StageSends([], n, i, j) == 0
  {
  }

  lemma DealingSends(n: nat, m: nat, i: nat, j: nat)
    requires i < n && j < n
    ensures StageSends(DealingStages(n, m), n, i, j) == m
  {
    hide Count, Times, StageSends;
    var xs := Times(m, All(n));
    StagesConcat([Sending(Everyone(n, xs))], [Receiving(Everyone(n, xs))], n, i, j);
    OneStage(Sending(Everyone(n, xs)), n, i, j);
    OneStage(Receiving(Everyone(n, xs)), n, i, j);
    AllTimes(n, m);
  }

  lemma {:induction false} RelaysSends(n: nat, m: nat, ins: seq<nat>, outs: seq<nat>, i: nat, j: nat)
    requires i < n
    ensures StageSends(Relays(n, m, ins, outs), n, i, j) == if i == 0 then Count(Times(m, outs), j) else 0
  {
    hide Count, StageSends;
    if m == 0 {
      NoStages(n, i, j);
      CountNone(j);
    } else {
      RelaysSends(n, m - 1, ins, outs, i, j);
      StagesConcat(Relays(n, m - 1, ins, outs) + [Receiving(OnlyP1(n, ins))], [Sending(OnlyP1(n, outs))], n, i, j);
      StagesConcat(Relays(n, m - 1, ins, outs), [Receiving(OnlyP1(n, ins))], n, i, j);
      OneStage(Receiving(OnlyP1(n, ins)), n, i, j);
      OneStage(Sending(OnlyP1(n, outs)), n, i, j);
      CountConcat(Times(m - 1, outs), outs, j);
      CountNone(j);
    }
  }

  lemma ProductsSends(n: nat, t: nat, m: nat, i: nat, j: nat)
    requires i < n && j < n
    ensures StageSends(Products(n, t, m), n, i, j) == (if j == 0 then m else 0) + if i == 0 && j >= t then m else 0
  {
    hide Count, Times, StageSends, Relays, From, All;
    var a, b := Sending(Everyone(n, Times(m, [0]))), Receiving(seq(n, i => if i >= t then Times(m, [0]) else []));
    var relays := Relays(n, m, All(n), From(t, n));
    StagesConcat([a] + relays, [b], n, i, j);
    StagesConcat([a], relays, n, i, j);
    OneStage(a, n, i, j);
    OneStage(b, n, i, j);
    OneTimes(n, m);
    RelaysSends(n, m, All(n), From(t, n), i, j);
    CountTimes(m, From(t, n), j, n);
    CountFrom(t, n, j);
    assert m * 1 == m && m * 0 == 0;
  }

  lemma PreparationSends(n: nat, m: nat, owners: seq<nat>, i: nat, j: nat)
    requires i < n && j < n
    ensures StageSends(Preparation(n, m, owners), n, i, j) ==
      (if j == 0 then 2 * m else 0) + (if i == 0 then 2 * m else 0) + Count(owners, j)
  {
    hide Count, Times, StageSends, Relays, Twice, All;
    var a, relays, b := Sending(Everyone(n, Times(m, [0] + [0]))), Relays(n, m, Twice(n), Twice(n)), Sending(Everyone(n, owners));
    var c, d := Receiving(Everyone(n, Times(m, [0] + [0]))), Receiving(seq(n, c requires 0 <= c => Times(Count(owners, c), All(n))));
    StagesConcat([a] + relays + [b] + [c], [d], n, i, j);
    StagesConcat([a] + relays + [b], [c], n, i, j);
    StagesConcat([a] + relays, [b], n, i, j);
    StagesConcat([a], relays, n, i, j);
    OneStage(a, n, i, j);
    OneStage(b, n, i, j);
    OneStage(c, n, i, j);
    OneStage(d, n, i, j);
    TwoTimes(n, m);
    RelaysSends(n, m, Twice(n), Twice(n), i, j);
    TwiceTimes(n, m);
  }

  lemma InputsSends(n: nat, counts: seq<nat>, i: nat, j: nat)
    requires i < n && j < n && |counts| == n
    ensures StageSends(Inputs(n, counts), n, i, j) == if j == 0 then counts[i] else 0
  {
    hide Count, Times, StageSends, Clients;
    var a, b := Sending(Each(n, counts)), Receiving(OnlyP1(n, Clients(counts)));
    StagesConcat([a], [b], n, i, j);
    OneStage(a, n, i, j);
    OneStage(b, n, i, j);
    OneTimes(n, counts[i]);
  }

  lemma OutputsSends(n: nat, counts: seq<nat>, i: nat, j: nat)
    requires i < n && j < n && |counts| == n
    ensures StageSends(Outputs(n, counts), n, i, j) == if i == 0 then counts[j] else 0
  {
    hide Count, Times, StageSends, Clients;
    var a, b := Sending(OnlyP1(n, Clients(counts))), Receiving(Each(n, counts));
    StagesConcat([a], [b], n, i, j);
    OneStage(a, n, i, j);
    OneStage(b, n, i, j);
    CountClients(counts, j);
    CountNone(j);
  }

  lemma LayerSends(n: nat, b: nat, i: nat, j: nat)
    requires i < n && j < n
    ensures StageSends(LayerStages(n, b), n, i, j) == (if i == 0 then 2 * b else 0) + if j == 0 then b else 0
  {
    hide Count, Times, StageSends, Twice, All;
    var s1, s2 := Sending(OnlyP1(n, Times(b, Twice(n)))), Receiving(Everyone(n, Times(b, [0] + [0])));
    var s3, s4 := Sending(Everyone(n, Times(b, [0]))), Receiving(OnlyP1(n, Times(b, All(n))));
    StagesConcat([s1] + [s2] + [s3], [s4], n, i, j);
    StagesConcat([s1] + [s2], [s3], n, i, j);
    StagesConcat([s1], [s2], n, i, j);
    OneStage(s1, n, i, j);
    OneStage(s2, n, i, j);
    OneStage(s3, n, i, j);
    OneStage(s4, n, i, j);
    TwiceTimes(n, b);
    OneTimes(n, b);
    CountNone(j);
  }

  // ---------------------------------------------------------------- what goes over the channels

  /** The layers' messages from i to j. */
  ghost function LayersWire(lay: Layout, fi: FIPolys, inputs: seq<seq<int>>, d: nat, i: nat, j: nat): seq<int>
    requires Setting(lay, fi, inputs) && d <= |lay.mults|
  {
    if d == 0 then [] else
      LayersWire(lay, fi, inputs, d - 1, i, j)
        + ((if i == 0 then Msgs(MuList(lay, fi, inputs, d - 1), j + 1) else [])
           + if j == 0 then Msgs(ProductList(lay, fi, inputs, d - 1), i + 1) else [])
  }

  ghost function DealWire(m: Amounts, draws: seq<Draws>, i: nat, j: nat): seq<int>
    requires AllDrawn(m, draws) && i < |draws|
  {
    Msgs(TurboPack.Outbox(m, draws[i]), j + 1)
  }

  ghost function ProductsWire(m: Amounts, draws: seq<Draws>, i: nat, j: nat): seq<int>
    requires AllDrawn(m, draws)
  {
    (if j == 0 then Msgs(Flatten(Prods(m, draws)), i + 1) else [])
      + if i == 0 && j >= m.t then Msgs(Flatten(Backs(m, draws)), j + 1) else []
  }

  ghost function PreparationWire(lay: Layout, fi: FIPolys, i: nat, j: nat): seq<int>
    requires Enough(lay, fi)
  {
    (if j == 0 then Msgs(MaskList(lay, fi), i + 1) else []) + (if i == 0 then Msgs(ReshareList(lay, fi), j + 1) else [])
      + Msgs(Mine(IOs(lay), IOList(lay, fi), j), i + 1)
  }

  /** The gates of one party. */
  ghost function MaskedWire(lay: Layout, fi: FIPolys, inputs: seq<seq<int>>, input: bool, c: nat): (r: seq<int>)
    requires Setting(lay, fi, inputs)
    ensures |r| == |Ids(lay.gates, if input then InputOf(c) else OutputOf(c))|
  {
    Parties.MaskedOf(lay, fi, inputs, Ids(lay.gates, if input then InputOf(c) else OutputOf(c)))
  }

  /** Everything from party i to party j, in order: dealing, products, masks of batches, masked
      inputs, layers, and masked outputs. The parts are those in the contracts of the parties' phases. */
  ghost function TurboWire(lay: Layout, t: nat, draws: seq<Draws>, inputs: seq<seq<int>>): Wires
    requires TurboPack.ProperRun(lay, t, draws, inputs)
  {
    var m, fi := TurboPack.AmountsOf(lay, t), TurboPack.FiOf(lay, t, draws);
    (i: nat, j: nat) => if i < lay.clients then Wire(lay, m, draws, fi, inputs, i, j) else []
  }

  ghost function Wire(lay: Layout, m: Amounts, draws: seq<Draws>, fi: FIPolys, inputs: seq<seq<int>>, i: nat, j: nat): seq<int>
    requires AllDrawn(m, draws) && i < |draws| && Setting(lay, fi, inputs)
  {
    DealWire(m, draws, i, j) + ProductsWire(m, draws, i, j) + PreparationWire(lay, fi, i, j)
      + (if j == 0 then MaskedWire(lay, fi, inputs, true, i) else [])
      + LayersWire(lay, fi, inputs, |lay.mults|, i, j)
      + if i == 0 then MaskedWire(lay, fi, inputs, false, j) else []
  }

  lemma {:induction false} LayersWireLength(lay: Layout, fi: FIPolys, inputs: seq<seq<int>>, d: nat, i: nat, j: nat)
    requires Setting(lay, fi, inputs) && lay.batchSize > 0 && d <= |lay.mults| && i < lay.clients && j < lay.clients
    ensures |LayersWire(lay, fi, inputs, d, i, j)| == StageSends(LayersStages(lay.clients, BatchCounts(lay)[..d]), lay.clients, i, j)
  {
    hide StageSends, Setting, MuList, ProductList, Msgs, LayerStages, Layer;
    var n, bs := lay.clients, BatchCounts(lay);
    if d == 0 {
      NoStages(n, i, j);
    } else {
      LayersWireLength(lay, fi, inputs, d - 1, i, j);
      assert bs[..d][..d - 1] == bs[..d - 1];
      StagesConcat(LayersStages(n, bs[..d - 1]), LayerStages(n, bs[d - 1]), n, i, j);
      LayerSends(n, bs[d - 1], i, j);
    }
  }

  /** As many values go over every channel as the programs send. */
  lemma WireLength(lay: Layout, t: nat, draws: seq<Draws>, inputs: seq<seq<int>>, i: nat, j: nat)
    requires TurboPack.ProperRun(lay, t, draws, inputs) && i < lay.clients && j < lay.clients
    ensures lay.batchSize > 0 && |TurboWire(lay, t, draws, inputs)(i, j)| == StageSends(TurboStages(lay, t), lay.clients, i, j)
  {
    hide StageSends, IsPrime, WellFormed, AllDrawn, Matches, Msgs, Mults, IOs, Fresh, Ids, Preprocessed, Prods, Backs, MaskList, ReshareList, IOList, Mine,
      TurboSchedules.Dealt, DealingStages, Products, Preparation, Inputs, LayersStages, Outputs, LayersWire, Flatten, BatchCounts, GateCounts, Owners, TurboPack.Outbox, Count;
    SizeOk(lay);
    var n, m, fi := lay.clients, TurboPack.AmountsOf(lay, t), TurboPack.FiOf(lay, t, draws);
    var k := lay.batchSize * |Mults(lay)|;
    var a, b, c := DealingStages(n, TurboSchedules.Dealt(lay, t)), Products(n, t, k), Preparation(n, |Mults(lay)|, Owners(lay));
    var d, e, g := Inputs(n, GateCounts(lay, true)), LayersStages(n, BatchCounts(lay)), Outputs(n, GateCounts(lay, false));
    StagesConcat(a + b + c + d + e, g, n, i, j);
    StagesConcat(a + b + c + d, e, n, i, j);
    StagesConcat(a + b + c, d, n, i, j);
    StagesConcat(a + b, c, n, i, j);
    StagesConcat(a, b, n, i, j);
    DealingSends(n, TurboSchedules.Dealt(lay, t), i, j);
    ProductsSends(n, t, k, i, j);
    PreparationSends(n, |Mults(lay)|, Owners(lay), i, j);
    InputsSends(n, GateCounts(lay, true), i, j);
    OutputsSends(n, GateCounts(lay, false), i, j);
    LayersWireLength(lay, fi, inputs, |lay.mults|, i, j);
    DrawnOne(lay, t, draws, i);
    DealtAgrees(lay, t, draws[i]);
    ProductsAgree(lay, t, draws);
    PreparationAgrees(lay, fi, j);
    CountsAre(lay, i, j);
  }

  lemma DrawnOne(lay: Layout, t: nat, draws: seq<Draws>, i: nat)
    requires lay.batchSize > 0 && AllDrawn(TurboPack.AmountsOf(lay, t), draws) && i < lay.clients
    ensures |draws| == lay.clients
    ensures var m := TurboPack.AmountsOf(lay, t); Drawn(m.n, m.k, m.t, m.inds, m.mults, m.ios, draws[i])
  {
    hide Drawn, Mults, IOs, Fresh;
  }

  lemma CountsAre(lay: Layout, i: nat, j: nat)
    requires i < lay.clients && j < lay.clients && lay.batchSize > 0
    ensures GateCounts(lay, true)[i] == |Ids(lay.gates, InputOf(i))| && GateCounts(lay, false)[j] == |Ids(lay.gates, OutputOf(j))|
    ensures |BatchCounts(lay)| == |lay.mults| && BatchCounts(lay)[..|lay.mults|] == BatchCounts(lay)
  {
    hide Ids, Layer;
  }

  lemma {:induction false} PeersBelow(stages: seq<Stage>, n: nat, i: nat, p: nat)
    requires Sized(stages, n) && i < n && p < |Program(stages, i)|
    ensures Peer(Program(stages, i)[p]) < n
  {
    var front, last := stages[..|stages| - 1], stages[|stages| - 1];
    if p < |Program(front, i)| {
      PeersBelow(front, n, i, p);
      assert Program(stages, i)[p] == Program(front, i)[p];
    } else {
      assert Program(stages, i)[p] == Ops(last, i)[p - |Program(front, i)|];
    }
  }

  lemma TurboFits(lay: Layout, t: nat, draws: seq<Draws>, inputs: seq<seq<int>>)
    requires TurboPack.ProperRun(lay, t, draws, inputs)
    ensures lay.batchSize > 0 && lay.clients > 0
    ensures Fits(ProgramsOf(TurboStages(lay, t), lay.clients), TurboWire(lay, t, draws, inputs))
  {
    hide IsPrime, WellFormed, AllDrawn, Matches, Mults, IOs, Fresh, Ids, TurboStages, TurboWire, Program, Sends, Held;
    SizeOk(lay);
    TurboClosed(lay, t);
    var prog := ProgramsOf(TurboStages(lay, t), lay.clients);
    forall i, p | 0 <= i < |prog| && 0 <= p < |prog[i]| ensures Peer(prog[i][p]) < |prog| {
      PeersBelow(TurboStages(lay, t), lay.clients, i, p);
    }
    forall i: nat, j: nat | i < |prog| && j < |prog| ensures |TurboWire(lay, t, draws, inputs)(i, j)| == Sends(prog[i], j) {
      WireLength(lay, t, draws, inputs, i, j);
    }
  }

  /** What client c makes of what P1 has sent it: its masks added to the last values. */
  ghost function ClientView(lay: Layout, ind: seq<Coeffs>, sent: seq<int>, c: nat): (r: seq<int>)
    requires WellFormed(lay) && |Fresh(lay)| <= |ind| && Nonempty(ind)
  {
    var flat := Ids(lay.gates, OutputOf(c));
    seq(|flat|, j requires 0 <= j < |flat| =>
      if |flat| <= |sent| then Add(Lambda(lay, ind, flat[j]), sent[|sent| - |flat| + j]) else 0)
  }

  /** Every interleaving of honest parties: if the parties send what the phases prescribe on the receipts that the phases
      prescribe, then in every complete run, in whatever order they move, every channel carries
      exactly the messages of the lockstep run, all of them are taken, every party receives the same
      values in the same order, and every client ends with the outputs that the
      lockstep run returns. */
  lemma HonestInterleaving(lay: Layout, t: nat, draws: seq<Draws>, inputs: seq<seq<int>>, f: Values, sched: seq<nat>)
    requires TurboPack.ProperRun(lay, t, draws, inputs) && lay.clients > 0 && lay.batchSize > 0
    requires Honest(ProgramsOf(TurboStages(lay, t), lay.clients), f, TurboWire(lay, t, draws, inputs))
    requires CanRun(ProgramsOf(TurboStages(lay, t), lay.clients), f, Start(lay.clients), sched)
    requires Done(ProgramsOf(TurboStages(lay, t), lay.clients), Run(ProgramsOf(TurboStages(lay, t), lay.clients), f, Start(lay.clients), sched))
    ensures var prog, w := ProgramsOf(TurboStages(lay, t), lay.clients), TurboWire(lay, t, draws, inputs);
      var c := Run(prog, f, Start(lay.clients), sched);
      && (forall i: nat, j: nat :: i < lay.clients && j < lay.clients ==> Schedules.At(c, i, j) == Channel(w(i, j), |w(i, j)|))
      && (forall i :: 0 <= i < lay.clients ==> c.got[i] == Received(prog, w, i, |prog[i]|))
      && (forall i: nat :: i < lay.clients ==>
        ClientView(lay, TurboPack.FiOf(lay, t, draws).ind, Schedules.At(c, 0, i).sent, i) == Parties.WireOutputs(lay, TurboPack.FiOf(lay, t, draws), inputs, i))
  {
    hide TurboPack.ProperRun, TurboStages, TurboWire, Run, CanRun, Enabled, Done, Schedules.At, ProgramsOf, Fits, Honest, Received, TurboPack.FiOf, ClientView, Parties.WireOutputs;
    var prog, w := ProgramsOf(TurboStages(lay, t), lay.clients), TurboWire(lay, t, draws, inputs);
    TurboFits(lay, t, draws, inputs);
    WiresCarried(prog, f, w, sched);
    ProperShape(lay, t, draws, inputs);
    AnySchedule(lay, t, f, sched, sched);
    forall i: nat | i < lay.clients
      ensures ClientView(lay, TurboPack.FiOf(lay, t, draws).ind, w(0, i), i) == Parties.WireOutputs(lay, TurboPack.FiOf(lay, t, draws), inputs, i)
    {
      ViewIs(lay, t, draws, inputs, i);
    }
  }

  lemma ProperShape(lay: Layout, t: nat, draws: seq<Draws>, inputs: seq<seq<int>>)
    requires TurboPack.ProperRun(lay, t, draws, inputs)
    ensures WellFormed(lay) && Matches(lay, inputs) && IsPrime(P61)
    ensures AllDrawn(TurboPack.AmountsOf(lay, t), draws) && Enough(lay, TurboPack.FiOf(lay, t, draws))
    ensures Setting(lay, TurboPack.FiOf(lay, t, draws), inputs)
  {
    hide IsPrime, AllDrawn, Preprocessed;
  }

  lemma ViewIs(lay: Layout, t: nat, draws: seq<Draws>, inputs: seq<seq<int>>, c: nat)
    requires TurboPack.ProperRun(lay, t, draws, inputs) && c < lay.clients
    ensures ClientView(lay, TurboPack.FiOf(lay, t, draws).ind, TurboWire(lay, t, draws, inputs)(0, c), c) == Parties.WireOutputs(lay, TurboPack.FiOf(lay, t, draws), inputs, c)
  {
    hide *;
    ProperShape(lay, t, draws, inputs);
    WireEnds(lay, t, draws, inputs, c);
    ViewOf(lay, TurboPack.FiOf(lay, t, draws), inputs, TurboWire(lay, t, draws, inputs)(0, c), c);
  }

  lemma ViewOf(lay: Layout, fi: FIPolys, inputs: seq<seq<int>>, sent: seq<int>, c: nat)
    requires Setting(lay, fi, inputs)
    requires var tail := MaskedWire(lay, fi, inputs, false, c);
      |tail| <= |sent| && forall j :: 0 <= j < |tail| ==> sent[|sent| - |tail| + j] == tail[j]
    ensures ClientView(lay, fi.ind, sent, c) == Parties.WireOutputs(lay, fi, inputs, c)
  {
    hide WellFormed, Matches, Mults, IOs, Fresh, Ids, Lambda, Masked, WireValue, Add;
    var flat, tail := Ids(lay.gates, OutputOf(c)), MaskedWire(lay, fi, inputs, false, c);
    forall j | 0 <= j < |flat| ensures ClientView(lay, fi.ind, sent, c)[j] == Parties.WireOutputs(lay, fi, inputs, c)[j] {
      assert sent[|sent| - |flat| + j] == tail[j];
      Unmasked(lay, fi, inputs, flat[j]);
    }
  }

  /** The masked outputs come last. */
  lemma WireEnds(lay: Layout, t: nat, draws: seq<Draws>, inputs: seq<seq<int>>, c: nat)
    requires TurboPack.ProperRun(lay, t, draws, inputs) && c < lay.clients
    ensures Enough(lay, TurboPack.FiOf(lay, t, draws)) && Setting(lay, TurboPack.FiOf(lay, t, draws), inputs)
    ensures var sent, tail := TurboWire(lay, t, draws, inputs)(0, c), MaskedWire(lay, TurboPack.FiOf(lay, t, draws), inputs, false, c);
      |tail| <= |sent| && forall j :: 0 <= j < |tail| ==> sent[|sent| - |tail| + j] == tail[j]
  {
    hide IsPrime, WellFormed, AllDrawn, Matches, Mults, IOs, Fresh, Ids, TurboPack.FiOf, DealWire, ProductsWire, PreparationWire, LayersWire, MaskedWire;
    ProperShape(lay, t, draws, inputs);
    DrawnOne(lay, t, draws, 0);
    var m, fi := TurboPack.AmountsOf(lay, t), TurboPack.FiOf(lay, t, draws);
    var front := DealWire(m, draws, 0, c) + ProductsWire(m, draws, 0, c) + PreparationWire(lay, fi, 0, c)
      + (if c == 0 then MaskedWire(lay, fi, inputs, true, 0) else []) + LayersWire(lay, fi, inputs, |lay.mults|, 0, c);
    Ends(front, MaskedWire(lay, fi, inputs, false, c));
  }

  lemma Ends(front: seq<int>, tail: seq<int>)
    ensures forall j :: 0 <= j < |tail| ==> (front + tail)[|front + tail| - |tail| + j] == tail[j]
  {
  }
}
