/** The parties of TurboPack as functions of what they know: in whatever order they move, every
    client ends with the outputs of the lockstep run. */
module TurboLocal {
  import opened Modular
  import opened Scl
  import opened Circuits
  import opened Sequences
  import opened PackedSharing
  import opened Dealing
  import opened Wiring
  import opened Preprocessing
  import opened Masking
  import opened Triples
  import opened Schedules
  import opened TurboSchedules
  import opened TurboWires
  import opened LocalViews
  import opened LocalCuts
  import opened LocalShares
  import opened LocalMasks
  import opened LocalOnline
  import TurboPack
  import Parties

  /** Draws of the right amounts for a circuit. */
  ghost predicate OwnDraws(lay: Layout, t: nat, own: Draws)
    requires lay.batchSize > 0
  {
    var m := TurboPack.AmountsOf(lay, t);
    Sizes(m.n, m.k, m.t) && Drawn(m.n, m.k, m.t, m.inds, m.mults, m.ios, own)
  }

  /** Value x of a part, from the sender's draws, inputs and receipts, for party j. */
  ghost function PartMsg(v: View, own: Draws, inputs: seq<int>, j: nat, part: Part, x: nat): int
    requires WellFormed(v.lay) && v.lay.batchSize > 0 && v.lay.clients > 0 && OwnDraws(v.lay, v.t, own)
    requires Occurs(part, |v.lay.mults|)
  {
    match part
    case Deals => Entry(Msgs(TurboPack.Outbox(TurboPack.AmountsOf(v.lay, v.t), own), j + 1), x)
    case ToOpen => ToOpenMsg(v, x)
    case Opened => OpenedMsg(v, j, x)
    case BatchMasks => MaskMsg(v, x)
    case Reshares => PackedMsg(OpenedRow(v, BatchMasks, x), j)
    case OwnerMasks => OwnerMsg(v, j, x)
    case Ins => InputMsg(v, inputs, x)
    case Mus(d) => MuMsg(v, j, d, x)
    case Replies(d) => ReplyMsg(v, d, x)
    case Outs => OutputMsg(v, j, x)
  }

  /** It is what the lockstep run sends. */
  lemma PartMsgIs(s: Game, v: View, j: nat, part: Part, x: nat)
    requires Sees(s, v, CutPlace(part, |s.lay.mults|), CutMore(part, x)) && j < s.lay.clients
    requires Occurs(part, |s.lay.mults|) && x < PartLen(s.lay, s.t, v.id, j, part)
    requires WellFormed(s.lay) && Layered(s.lay)
    ensures s.lay.clients > 0 && v.id < |s.draws| && v.id < |s.inputs| && OwnDraws(s.lay, s.t, s.draws[v.id])
    ensures x < |PartWire(s, v.id, j, part)|
    ensures PartMsg(v, s.draws[v.id], s.inputs[v.id], j, part, x) == PartWire(s, v.id, j, part)[x]
  {
    hide IsPrime, GoodFI, FullWire, Played, Fi, Mults, IOs, Fresh, AllDrawn, Drawn, Reached, F, Sizes, Ids, Matches, Scl.At, WellFormed, Layered, Layer, Preprocessed,
      ToOpenMsg, OpenedMsg, MaskMsg, PackedMsg, OpenedRow, OwnerMsg, InputMsg, MuMsg, ReplyMsg, OutputMsg, TurboPack.Outbox, Flatten, Triples.Prods, Triples.Backs,
      MaskList, ReshareList, IOList, Mine, MuList, ProductList, Masked, PartLen;
    PlayedFacts(s);
    OwnDrawn(s, v.id);
    PartLength(s, v.id, j, part);
    PartLenIs(s, v.id, j, part, x);
    var p, r := CutPlace(part, |s.lay.mults|), CutMore(part, x);
    match part {
      case Deals =>
      case ToOpen => ToOpenIs(s, v, p, r, x);
      case Opened => OpenedIs(s, v, p, r, j, x);
      case BatchMasks => MaskMsgIs(s, v, p, r, x);
      case Reshares => ReshareMsgIs(s, v, p, r, j, x);
      case OwnerMasks => OwnerMsgIs(s, v, p, r, j, x);
      case Ins => InputMsgIs(s, v, p, r, x);
      case Mus(d) => MuMsgIs(s, v, p, r, j, d, x);
      case Replies(d) => ReplyMsgIs(s, v, p, r, d, x);
      case Outs => OutputMsgIs(s, v, p, r, j, x);
    }
  }

  lemma OwnDrawn(s: Game, i: nat)
    requires Played(s) && i < s.lay.clients
    ensures s.lay.batchSize > 0 && i < |s.draws| && OwnDraws(s.lay, s.t, s.draws[i])
  {
    hide IsPrime, WellFormed, Matches, Drawn, Mults, IOs, Fresh;
  }

  /** Who sends a part at all. */
  lemma PartLenIs(s: Game, i: nat, j: nat, part: Part, x: nat)
    requires s.lay.batchSize > 0 && x < PartLen(s.lay, s.t, i, j, part)
    ensures part.Opened? ==> i == 0 && j >= s.t && x < Factors(s.lay)
    ensures part.ToOpen? ==> j == 0 && x < Factors(s.lay)
    ensures part.BatchMasks? ==> j == 0 && x < 2 * |Mults(s.lay)|
    ensures part.Reshares? ==> i == 0 && x < 2 * |Mults(s.lay)|
    ensures part.Ins? ==> j == 0 && x < |Ids(s.lay.gates, InputOf(i))|
    ensures part.Mus? ==> i == 0 && part.d < |s.lay.mults| && x < 2 * |Layer(s.lay, part.d)|
    ensures part.Replies? ==> j == 0 && part.d < |s.lay.mults| && x < |Layer(s.lay, part.d)|
    ensures part.Outs? ==> i == 0 && x < |Ids(s.lay.gates, OutputOf(j))|
  {
    hide Mults, Ids, Layer, Owners, TurboSchedules.Dealt, Count;
  }

  // ---------------------------------------------------------------- parties

  /** What party i has received from each party when it is at step p. */
  function ViewAt(lay: Layout, t: nat, i: nat, ops: seq<Op>, got: seq<int>): View {
    View(lay, t, i, (a: nat) => FromParty(ops, got, a))
  }

  /** The q-th value that a party sends to j. */
  ghost function LocalSend(v: View, own: Draws, inputs: seq<int>, j: nat, q: nat): int
    requires WellFormed(v.lay) && v.lay.batchSize > 0 && v.lay.clients > 0 && OwnDraws(v.lay, v.t, own)
  {
    var layers := |v.lay.mults|;
    var place := PlaceOf(v.lay, v.t, v.id, j, q, 8 + 2 * layers);
    var part := PartAt(place, layers);
    PartMsg(v, own, inputs, j, part, q - Offset(v.lay, v.t, v.id, j, place))
  }

  /** What party i sends at step p of its program, from its own draws, its own inputs and what it has
      received so far. */
  ghost function LocalStep(lay: Layout, t: nat, i: nat, own: Draws, inputs: seq<int>, p: nat, got: seq<int>): int
    requires WellFormed(lay) && lay.batchSize > 0 && i < lay.clients && OwnDraws(lay, t, own)
  {
    var ops := Program(TurboStages(lay, t), i);
    if p >= |ops| || ops[p].Recv? then 0
    else LocalSend(ViewAt(lay, t, i, ops[..p], got), own, inputs, ops[p].to, Sends(ops[..p], ops[p].to))
  }

  /** All parties of a run. */
  ghost function LocalParties(s: Game): Values
    requires Played(s)
  {
    PlayedFacts(s);
    (i: nat, p: nat, got: seq<int>) =>
      if i < s.lay.clients then
        OwnDrawn(s, i);
        LocalStep(s.lay, s.t, i, s.draws[i], s.inputs[i], p, got)
      else 0
  }

  ghost function Progs(s: Game): (prog: Programs)
    requires Played(s)
    ensures |prog| == s.lay.clients
  {
    ProgramsOf(TurboStages(s.lay, s.t), s.lay.clients)
  }

  /** No party receives more than is sent. */
  lemma RecvsBounded(s: Game, i: nat, p: nat, a: nat)
    requires Played(s) && i < s.lay.clients && a < s.lay.clients && p <= |Progs(s)[i]|
    ensures Recvs(Progs(s)[i][..p], a) <= |FullWire(s)(a, i)| == Sends(Progs(s)[a], i) == Recvs(Progs(s)[i], a)
  {
    hide TurboStages, Program, Sends, Recvs, Held, WellFormed, IsPrime, AllDrawn, Matches, GoodFI, Preprocessed, TurboWire, Covered;
    PlayedFacts(s);
    TurboClosed(s.lay, s.t);
    HeldIs(TurboStages(s.lay, s.t), a, i);
    TurboWires.WireLength(s.lay, s.t, s.draws, s.inputs, a, i);
    SendsGrow(Progs(s)[i], p, |Progs(s)[i]|, a);
    assert Progs(s)[i][..|Progs(s)[i]|] == Progs(s)[i];
  }

  /** What the party finds among its receipts is a beginning of what was sent to it. */
  lemma BoxIs(s: Game, i: nat, p: nat, a: nat)
    requires Played(s) && i < s.lay.clients && a < s.lay.clients && p <= |Progs(s)[i]|
    ensures var box := ViewAt(s.lay, s.t, i, Progs(s)[i][..p], Received(Progs(s), FullWire(s), i, p)).box;
      box(a) <= FullWire(s)(a, i) && |box(a)| == Recvs(Progs(s)[i][..p], a)
  {
    hide Progs, Recvs, Received, FullWire, Played, FromParty;
    RecvsBounded(s, i, p, a);
    FromPartyIs(Progs(s), FullWire(s), i, p, a);
  }

  /** On the receipts of the run every party sends the messages of the run. */
  lemma LocalHonest(s: Game)
    requires Played(s) && WellFormed(s.lay) && Layered(s.lay)
    ensures Honest(Progs(s), LocalParties(s), FullWire(s))
  {
    hide Progs, Sends, Received, FullWire, Played, LocalParties, WellFormed, Layered;
    var prog: Programs := Progs(s);
    var w, f := FullWire(s), LocalParties(s);
    forall i: nat, p: nat | i < |prog| && p < |prog[i]| && prog[i][p].Send? ensures HonestAt(prog, f, w, i, p) {
      HonestStep(s, i, p);
    }
  }

  lemma HonestStep(s: Game, i: nat, p: nat)
    requires Played(s) && WellFormed(s.lay) && Layered(s.lay)
    requires i < s.lay.clients && p < |Progs(s)[i]| && Progs(s)[i][p].Send?
    ensures HonestAt(Progs(s), LocalParties(s), FullWire(s), i, p)
  {
    hide Progs, Sends, Received, FullWire, Played, WellFormed, Layered, LocalParties;
    var j := Progs(s)[i][p].to;
    var q := Sends(Progs(s)[i][..p], j);
    PeerIs(s, i, p);
    if q < |FullWire(s)(i, j)| {
      HonestSend(s, i, p, j, q);
    }
  }

  lemma HonestSend(s: Game, i: nat, p: nat, j: nat, q: nat)
    requires Played(s) && WellFormed(s.lay) && Layered(s.lay) && i < s.lay.clients && j < s.lay.clients
    requires p < |Progs(s)[i]| && Progs(s)[i][p] == Send(j) && q == Sends(Progs(s)[i][..p], j) < |FullWire(s)(i, j)|
    ensures LocalParties(s)(i, p, Received(Progs(s), FullWire(s), i, p)) == FullWire(s)(i, j)[q]
  {
    hide *;
    var layers, got := |s.lay.mults|, Received(Progs(s), FullWire(s), i, p);
    var place, part, x := Located(s, i, j, q);
    var v := DueSeen(s, i, p, part, x);
    PartMsgIs(s, v, j, part, x);
    WireAt(s, i, j, part, x);
    StepSends(s, i, p, got, place);
  }

  /** The part to which message q belongs. */
  lemma Located(s: Game, i: nat, j: nat, q: nat) returns (place: nat, part: Part, x: nat)
    requires Played(s) && i < s.lay.clients && j < s.lay.clients && q < |FullWire(s)(i, j)|
    ensures s.lay.batchSize > 0 && place == PlaceOf(s.lay, s.t, i, j, q, 8 + 2 * |s.lay.mults|) < 8 + 2 * |s.lay.mults|
    ensures part == PartAt(place, |s.lay.mults|) && Occurs(part, |s.lay.mults|) && Place(part, |s.lay.mults|) == place
    ensures x < PartLen(s.lay, s.t, i, j, part) && q == Offset(s.lay, s.t, i, j, place) + x
  {
    hide *;
    var layers := |s.lay.mults|;
    Batched(s);
    WireIsParts(s, i, j);
    JoinedLength(s, i, j, 8 + 2 * layers);
    place := PlaceOf(s.lay, s.t, i, j, q, 8 + 2 * layers);
    part, x := PartAt(place, layers), q - Offset(s.lay, s.t, i, j, place);
    PartOccurs(place, layers);
    OffsetStep(s.lay, s.t, i, j, place);
  }

  lemma Batched(s: Game)
    requires Played(s)
    ensures s.lay.batchSize > 0
  {
    hide TurboPack.ProperRun;
  }

  /** The receipts of a party that is about to send. */
  lemma DueSeen(s: Game, i: nat, p: nat, part: Part, x: nat) returns (v: View)
    requires Played(s) && i < s.lay.clients && p < |Progs(s)[i]| && Progs(s)[i][p].Send? && Progs(s)[i][p].to < s.lay.clients
    requires s.lay.batchSize > 0 && Occurs(part, |s.lay.mults|)
    requires x < PartLen(s.lay, s.t, i, Progs(s)[i][p].to, part)
    requires Sends(Progs(s)[i][..p], Progs(s)[i][p].to) == Offset(s.lay, s.t, i, Progs(s)[i][p].to, Place(part, |s.lay.mults|)) + x
    ensures v.id == i && v == ViewAt(s.lay, s.t, i, Progs(s)[i][..p], Received(Progs(s), FullWire(s), i, p))
    ensures Sees(s, v, CutPlace(part, |s.lay.mults|), CutMore(part, x))
  {
    hide Program, TurboStages, Sends, Recvs, Received, FullWire, Played, Offset, PartLen, FromParty, CutPlace, CutMore, Place, Occurs;
    v := ViewAt(s.lay, s.t, i, Progs(s)[i][..p], Received(Progs(s), FullWire(s), i, p));
    DueReached(s, i, Progs(s)[i][p].to, p, part, x, Progs(s)[i]);
    forall a: nat | a < s.lay.clients
      ensures v.box(a) <= FullWire(s)(a, i)
      ensures Offset(s.lay, s.t, a, i, CutPlace(part, |s.lay.mults|)) + CutMore(part, x) <= |v.box(a)|
    {
      BoxIs(s, i, p, a);
    }
  }

  /** A step of a party that sends. */
  lemma StepSends(s: Game, i: nat, p: nat, got: seq<int>, place: nat)
    requires Played(s) && i < s.lay.clients && p < |Progs(s)[i]| && Progs(s)[i][p].Send? && s.lay.batchSize > 0
    requires var j := Progs(s)[i][p].to;
      && place == PlaceOf(s.lay, s.t, i, j, Sends(Progs(s)[i][..p], j), 8 + 2 * |s.lay.mults|)
      && Occurs(PartAt(place, |s.lay.mults|), |s.lay.mults|)
    ensures WellFormed(s.lay) && s.lay.clients > 0 && i < |s.draws| && i < |s.inputs| && OwnDraws(s.lay, s.t, s.draws[i])
    ensures var j := Progs(s)[i][p].to;
      LocalParties(s)(i, p, got) == PartMsg(ViewAt(s.lay, s.t, i, Progs(s)[i][..p], got), s.draws[i], s.inputs[i], j,
        PartAt(place, |s.lay.mults|), Sends(Progs(s)[i][..p], j) - Offset(s.lay, s.t, i, j, place))
  {
    hide Program, TurboStages, Sends, Played, Offset, FromParty, PartMsg, PlaceOf, PartAt, OwnDraws, LocalParties, WellFormed, GoodFI, Preprocessed, IsPrime, AllDrawn, Matches;
    PlayedFacts(s);
    OwnDrawn(s, i);
    LocalPartyIs(s, i, p, got);
  }

  lemma PeerIs(s: Game, i: nat, p: nat)
    requires Played(s) && i < s.lay.clients && p < |Progs(s)[i]| && Progs(s)[i][p].Send?
    ensures Progs(s)[i][p].to < s.lay.clients
  {
    hide TurboStages, Program, WellFormed, IsPrime, AllDrawn, Matches, GoodFI, Preprocessed, Held;
    PlayedFacts(s);
    TurboClosed(s.lay, s.t);
    PeersBelow(TurboStages(s.lay, s.t), s.lay.clients, i, p);
  }

  lemma LocalPartyIs(s: Game, i: nat, p: nat, got: seq<int>)
    requires Played(s) && i < s.lay.clients
    ensures WellFormed(s.lay) && s.lay.batchSize > 0 && i < |s.draws| && i < |s.inputs| && OwnDraws(s.lay, s.t, s.draws[i])
    ensures LocalParties(s)(i, p, got) == LocalStep(s.lay, s.t, i, s.draws[i], s.inputs[i], p, got)
  {
    hide LocalStep, Played, WellFormed, IsPrime, AllDrawn, Matches, GoodFI, Preprocessed, OwnDraws;
    PlayedFacts(s);
    OwnDrawn(s, i);
  }

  // ---------------------------------------------------------------- every order of steps

  /** Without additions over output gates a client gets its cleartext outputs. */
  lemma ClientIsRight(s: Game, i: nat)
    requires Played(s) && PlainSums(s.lay.gates) && i < s.lay.clients
    ensures WellFormed(s.lay) && Matches(s.lay, s.inputs)
    ensures TurboPack.ClientOutputs(s.lay, s.t, s.draws, s.inputs, i) == Parties.ClearOutputs(s.lay, s.inputs, i)
  {
    hide PlainSums, IsPrime, AllDrawn, WellFormed, Matches, GoodFI, Preprocessed, Parties.WireOutputs, Parties.ClearOutputs;
    PlayedFacts(s);
    Parties.PlainOutputs(s.lay, Fi(s), s.inputs, i);
  }

  /** Parties that send what they compute from their own draws, their own inputs and what they have received,
      moving in any order: when all are done, every channel has carried exactly the messages of the
      lockstep run, all of them have been taken, every party has received the same values, and what every client
      computes from its own receipts is what the lockstep run gives it: its cleartext outputs, if no addition
      reads an output gate. */
  lemma EveryInterleaving(s: Game, sched: seq<nat>)
    requires Played(s) && WellFormed(s.lay) && Layered(s.lay)
    requires CanRun(Progs(s), LocalParties(s), Start(s.lay.clients), sched)
    requires Done(Progs(s), Run(Progs(s), LocalParties(s), Start(s.lay.clients), sched))
    ensures var c, w := Run(Progs(s), LocalParties(s), Start(s.lay.clients), sched), FullWire(s);
      && (forall i: nat, j: nat :: i < s.lay.clients && j < s.lay.clients ==> Schedules.At(c, i, j) == Channel(w(i, j), |w(i, j)|))
      && (forall i :: 0 <= i < s.lay.clients ==> c.got[i] == Received(Progs(s), w, i, |Progs(s)[i]|))
      && (forall i: nat :: i < s.lay.clients ==>
        var outputs := LocalOutputs(ViewAt(s.lay, s.t, i, Progs(s)[i], c.got[i]));
        && outputs == TurboPack.ClientOutputs(s.lay, s.t, s.draws, s.inputs, i)
        && (PlainSums(s.lay.gates) ==> outputs == Parties.ClearOutputs(s.lay, s.inputs, i)))
  {
    hide Played, Run, CanRun, Done, Schedules.At, Fits, Honest, Received, LocalParties, WellFormed, Layered, Program, TurboStages, TurboWire,
      LocalOutputs, TurboPack.ClientOutputs, FromParty, IsPrime, AllDrawn, Matches, GoodFI, Preprocessed, ClientView, PlainSums, Parties.ClearOutputs;
    PlayedFacts(s);
    LocalHonest(s);
    var f, c := LocalParties(s), Run(Progs(s), LocalParties(s), Start(s.lay.clients), sched);
    HonestInterleaving(s.lay, s.t, s.draws, s.inputs, f, sched);
    forall i: nat | i < s.lay.clients
      ensures var outputs := LocalOutputs(ViewAt(s.lay, s.t, i, Progs(s)[i], c.got[i]));
        && outputs == TurboPack.ClientOutputs(s.lay, s.t, s.draws, s.inputs, i)
        && (PlainSums(s.lay.gates) ==> outputs == Parties.ClearOutputs(s.lay, s.inputs, i))
    {
      EndView(s, i);
      if PlainSums(s.lay.gates) {
        ClientIsRight(s, i);
      }
    }
  }

  lemma EndView(s: Game, i: nat)
    requires Played(s) && i < s.lay.clients
    ensures s.lay.batchSize > 0
    ensures LocalOutputs(ViewAt(s.lay, s.t, i, Progs(s)[i], Received(Progs(s), FullWire(s), i, |Progs(s)[i]|))) ==
      TurboPack.ClientOutputs(s.lay, s.t, s.draws, s.inputs, i)
  {
    hide Received, LocalOutputs, FromParty, IsPrime, AllDrawn, Matches, GoodFI, Preprocessed, WellFormed, Parties.WireOutputs, FullWire, Offset, Progs, Recvs, Sends;
    PlayedFacts(s);
    var v := ViewAt(s.lay, s.t, i, Progs(s)[i], Received(Progs(s), FullWire(s), i, |Progs(s)[i]|));
    var total := 8 + 2 * |s.lay.mults|;
    assert Progs(s)[i][..|Progs(s)[i]|] == Progs(s)[i];
    forall a: nat | a < s.lay.clients ensures v.box(a) <= FullWire(s)(a, i) && Offset(s.lay, s.t, a, i, total) + 0 <= |v.box(a)| {
      BoxIs(s, i, |Progs(s)[i]|, a);
      RecvsBounded(s, i, |Progs(s)[i]|, a);
      WireIsParts(s, a, i);
      JoinedLength(s, a, i, total);
    }
    LocalOutputsAre(s, v);
  }
}
