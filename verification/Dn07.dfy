/** The DN07 baseline, end to end: more than 2t parties run preprocessing, the early messages of the
    parties after the first t + 1, and the online protocol. With n = 2t + 1 every client's outputs
    are the cleartext outputs. */
module Dn07 {
  import opened Modular
  import opened Scl
  import opened Sequences
  import opened PackedSharing
  import opened Dealing
  import opened Channels
  import opened Circuits
  import Parties
  import opened Correlators
  import opened Dn07Sharing
  import opened Dn07Dealing
  import opened Dn07Parties

  // ---------------------------------------------------------------- messages of a phase

  /** The first `sent` parties have sent their messages of a phase; those to the first `taken`
      parties have been received. */
  ghost predicate Under(net: Network, msg: (nat, nat) -> seq<int>, sent: nat, taken: nat)
    requires net.Valid()
    reads net.chan
  {
    forall a, b :: 0 <= a < net.parties && 0 <= b < net.parties ==>
      net.chan[a, b] == if a < sent && b >= taken then msg(a, b) else []
  }

  ghost predicate Quiet(net: Network)
    requires net.Valid()
    reads net.chan
  {
    forall a, b :: 0 <= a < net.parties && 0 <= b < net.parties ==> net.chan[a, b] == []
  }

  ghost function PrepMsg(lay: Layout, t: nat, draws: seq<PartyDraws>): (nat, nat) -> seq<int>
    requires AllDrawn(lay, t, draws)
  {
    (a: nat, b: nat) => if a < |draws| then Msgs(Outbox(t, draws[a]), b + 1) else []
  }

  ghost function EarlyMsg(s: Setup): (nat, nat) -> seq<int>
    requires Good(s)
  {
    (a: nat, b: nat) => if b == 0 && a > s.t then Row(MultOrder(s.lay), LastProductsAt(s, a + 1)) else []
  }

  ghost function RandomMsg(s: Setup): (nat, nat) -> seq<int>
    requires Good(s)
  {
    (a: nat, b: nat) => if a <= s.t then Row(Ids(s.lay.gates, InputOf(b)), RandAt(s, a + 1)) else []
  }

  ghost function MaskedMsg(s: Setup, inputs: seq<seq<int>>): (nat, nat) -> seq<int>
    requires Good(s) && Matches(s.lay, inputs)
  {
    (a: nat, b: nat) => if b <= s.t then Row(Ids(s.lay.gates, InputOf(a)), MaskedAt(s, inputs, b + 1)) else []
  }

  ghost function ProductMsg(s: Setup, inputs: seq<seq<int>>, layer: nat): (nat, nat) -> seq<int>
    requires Good(s) && Matches(s.lay, inputs) && layer < |s.lay.mults|
  {
    (a: nat, b: nat) => if b == 0 && a <= s.t then Row(s.lay.mults[layer], ProductsAt(s, inputs, a + 1)) else []
  }

  ghost function ReturnMsg(s: Setup, inputs: seq<seq<int>>, layer: nat): (nat, nat) -> seq<int>
    requires Good(s) && Matches(s.lay, inputs) && layer < |s.lay.mults|
  {
    (a: nat, b: nat) => if a == 0 && b <= s.t then Row(s.lay.mults[layer], ReturnedAt(s, inputs, b + 1)) else []
  }

  ghost function OutputMsg(s: Setup, inputs: seq<seq<int>>): (nat, nat) -> seq<int>
    requires Good(s) && Matches(s.lay, inputs)
  {
    (a: nat, b: nat) => if a <= s.t then Row(Ids(s.lay.gates, OutputOf(b)), GateAt(s, inputs, a + 1)) else []
  }

  // ---------------------------------------------------------------- parties

  /** Party i, in its place. */
  ghost predicate IsParty(p: DN07, i: nat, net: Network, s: Setup)
    reads p`vandermonde
  {
    p.id == i && p.net == net && p.lay == s.lay && p.t == s.t && p.n == net.parties && p.Of(s)
  }

  ghost predicate AllParties(ps: seq<DN07>, net: Network, s: Setup)
    reads ps
  {
    net.Valid() && net.parties == |ps| == s.lay.clients && forall i :: 0 <= i < |ps| ==> IsParty(ps[i], i, net, s)
  }

  lemma PartiesAre(ps: seq<DN07>, net: Network, s: Setup)
    requires AllParties(ps, net, s)
    ensures forall i :: 0 <= i < |ps| ==> ps[i].id == i && ps[i].net == net && ps[i].lay == s.lay && ps[i].t == s.t && ps[i].n == |ps|
    ensures forall i :: 0 <= i < |ps| ==> ps[i].Of(s)
    ensures forall i, j :: 0 <= i < j < |ps| ==> ps[i] != ps[j]
  {
    hide Good, DN07.Of;
  }

  /** Nothing has happened yet. */
  ghost predicate New(p: DN07)
    reads p
  {
    && p.rShrs == [] && p.dShrs == [] && p.mapInputs == map[] && p.mapMults == map[] && p.share == map[]
    && p.p1SharesToSend == [] && p.p1SharesFromLast == []
  }

  /** Preprocessing is done and assigned to gates. */
  ghost predicate Prepared(p: DN07, s: Setup)
    reads p`rShrs, p`dShrs, p`mapInputs, p`mapMults
  {
    p.HasPads(s.pads) && p.Mapped()
  }

  // ---------------------------------------------------------------- preprocessing

  method PrepSendOne(p: DN07, net: Network, draws: seq<PartyDraws>, ghost s: Setup)
    requires net.Valid() && IsParty(p, p.id, net, s) && AllDrawn(s.lay, s.t, draws) && p.id < |draws|
    requires Under(net, PrepMsg(s.lay, s.t, draws), p.id, 0)
    modifies net.chan
    ensures Under(net, PrepMsg(s.lay, s.t, draws), p.id + 1, 0)
  {
    hide Ids, Good, Msgs, Outbox, PartyDrawn, DN07.Of, DN07.Placed;
    p.OfSizes(s);
    p.PrepPartiesSend(draws[p.id]);
  }

  method PrepRecvOne(p: DN07, net: Network, ghost draws: seq<PartyDraws>, ghost s: Setup)
    requires net.Valid() && IsParty(p, p.id, net, s) && New(p) && AllDrawn(s.lay, s.t, draws) && s.pads == PadsOf(s.lay, s.t, draws)
    requires Under(net, PrepMsg(s.lay, s.t, draws), net.parties, p.id)
    modifies p`rShrs, p`dShrs, p`mapInputs, p`mapMults, net.chan
    ensures Under(net, PrepMsg(s.lay, s.t, draws), net.parties, p.id + 1)
    ensures Prepared(p, s)
  {
    hide Ids, Good, Msgs, Outbox, PartyDrawn, DN07.Of, DN07.Placed, PadsOf, DN07.HasPads, DN07.Mapped;
    p.OfSizes(s);
    p.PrepPartiesReceive(draws);
    p.FDMapPrepToGates();
  }

  method PrepSendAll(ps: seq<DN07>, net: Network, draws: seq<PartyDraws>, ghost s: Setup)
    requires AllParties(ps, net, s) && AllDrawn(s.lay, s.t, draws) && Quiet(net)
    modifies net.chan
    ensures Under(net, PrepMsg(s.lay, s.t, draws), |ps|, 0)
  {
    hide Ids, PrepMsg, IsParty, AllDrawn;
    PartiesAre(ps, net, s);
    DrawsSize(s, draws);
    for i := 0 to |ps|
      invariant Under(net, PrepMsg(s.lay, s.t, draws), i, 0)
    {
      PrepSendOne(ps[i], net, draws, s);
    }
  }

  /** Everyone deals, everyone mixes, and everyone assigns its sharings to gates. */
  method PrepAll(ps: seq<DN07>, net: Network, draws: seq<PartyDraws>, ghost s: Setup)
    requires AllParties(ps, net, s) && AllDrawn(s.lay, s.t, draws) && s.pads == PadsOf(s.lay, s.t, draws) && Quiet(net)
    requires forall i :: 0 <= i < |ps| ==> New(ps[i])
    modifies ps, net.chan
    ensures AllParties(ps, net, s) && Quiet(net)
    ensures forall i :: 0 <= i < |ps| ==> Prepared(ps[i], s)
    ensures forall i :: 0 <= i < |ps| ==> ps[i].share == map[] && ps[i].p1SharesToSend == [] && ps[i].p1SharesFromLast == []
  {
    hide Ids, PrepMsg, Prepared, IsParty, PadsOf, AllDrawn, Good;
    PartiesAre(ps, net, s);
    PrepSendAll(ps, net, draws, s);
    for i := 0 to |ps|
      invariant AllParties(ps, net, s) && Under(net, PrepMsg(s.lay, s.t, draws), |ps|, i)
      invariant forall j :: 0 <= j < i ==> Prepared(ps[j], s)
      invariant forall j :: 0 <= j < |ps| ==> ps[j].share == map[] && ps[j].p1SharesToSend == [] && ps[j].p1SharesFromLast == []
      invariant forall j :: i <= j < |ps| ==> New(ps[j])
    {
      PrepRecvOne(ps[i], net, draws, s);
    }
  }

  lemma DrawsSize(s: Setup, draws: seq<PartyDraws>)
    requires AllDrawn(s.lay, s.t, draws)
    ensures |draws| == s.lay.clients
  {
  }

  // ---------------------------------------------------------------- before the inputs

  /** P1 holds the early messages of the layers from d on, and nothing else is queued. */
  ghost predicate Stored(p: DN07, s: Setup, d: nat)
    requires Good(s) && d <= |s.lay.mults|
    reads p`p1SharesFromLast, p`p1SharesToSend
  {
    p.p1SharesToSend == [] && (p.id == 0 ==> p.p1SharesFromLast == LastColumns(s, Flatten(s.lay.mults[d..])))
  }

  method EarlySendOne(p: DN07, net: Network, ghost s: Setup)
    requires net.Valid() && IsParty(p, p.id, net, s) && Layered(s.lay) && Prepared(p, s) && p.share == map[]
    requires Under(net, EarlyMsg(s), p.id, 0)
    modifies p`share, net.chan
    ensures Under(net, EarlyMsg(s), p.id + 1, 0)
    ensures p.id <= s.t ==> p.share == map[]
    ensures p.id > s.t ==> p.SharesTrue(LastAt(s, p.id + 1))
  {
    hide Ids, Good, DN07.Of, DN07.Placed, DN07.HasPads, DN07.Mapped, Layered, Row, MultOrder, LastProductsAt, DN07.SharesTrue;
    p.OfSizes(s);
    p.FDMultPartiesSendP1(s);
  }

  method EarlyRecvOne(p: DN07, net: Network, ghost s: Setup)
    requires net.Valid() && IsParty(p, p.id, net, s) && p.p1SharesFromLast == [] && p.p1SharesToSend == []
    requires if p.id == 0 then Under(net, EarlyMsg(s), net.parties, 0) else Quiet(net)
    modifies p`p1SharesFromLast, net.chan
    ensures Quiet(net) && Good(s) && Stored(p, s, 0)
  {
    hide Ids, Good, DN07.Of, DN07.Placed, Row, MultOrder, LastProductsAt, LastColumns, Flatten;
    p.OfSizes(s);
    p.FDMultP1Receives(s);
    MultsFlat(s.lay);
    assert s.lay.mults[0..] == s.lay.mults;
  }

  method EarlySendAll(ps: seq<DN07>, net: Network, ghost s: Setup)
    requires AllParties(ps, net, s) && Good(s) && Layered(s.lay) && Quiet(net)
    requires forall i :: 0 <= i < |ps| ==> Prepared(ps[i], s) && ps[i].share == map[]
    modifies ps`share, net.chan
    ensures AllParties(ps, net, s) && Under(net, EarlyMsg(s), |ps|, 0)
    ensures forall i :: 0 <= i < |ps| ==> Prepared(ps[i], s)
    ensures forall i :: 0 <= i < |ps| && i <= s.t ==> ps[i].share == map[]
    ensures forall i :: 0 <= i < |ps| && i > s.t ==> ps[i].SharesTrue(LastAt(s, i + 1))
  {
    hide Ids, EarlyMsg, Prepared, IsParty, Good, Layered, DN07.SharesTrue, LastAt;
    PartiesAre(ps, net, s);
    for i := 0 to |ps|
      invariant AllParties(ps, net, s) && Under(net, EarlyMsg(s), i, 0)
      invariant forall j :: 0 <= j < |ps| ==> Prepared(ps[j], s)
      invariant forall j :: 0 <= j < |ps| && (j <= s.t || j >= i) ==> ps[j].share == map[]
      invariant forall j :: 0 <= j < i && j > s.t ==> ps[j].SharesTrue(LastAt(s, j + 1))
    {
      EarlySendOne(ps[i], net, s);
    }
  }

  method EarlyRecvAll(ps: seq<DN07>, net: Network, ghost s: Setup)
    requires AllParties(ps, net, s) && |ps| > 0 && Good(s) && Under(net, EarlyMsg(s), |ps|, 0)
    requires forall i :: 0 <= i < |ps| ==> ps[i].p1SharesToSend == [] && ps[i].p1SharesFromLast == []
    modifies ps`p1SharesFromLast, net.chan
    ensures AllParties(ps, net, s) && Quiet(net)
    ensures forall i :: 0 <= i < |ps| ==> Stored(ps[i], s, 0)
  {
    hide Ids, EarlyMsg, IsParty, Good, Stored;
    PartiesAre(ps, net, s);
    for i := 0 to |ps|
      invariant AllParties(ps, net, s) && if i == 0 then Under(net, EarlyMsg(s), |ps|, 0) else Quiet(net)
      invariant forall j :: i <= j < |ps| ==> ps[j].p1SharesToSend == [] && ps[j].p1SharesFromLast == []
      invariant forall j :: 0 <= j < i ==> Stored(ps[j], s, 0)
    {
      EarlyRecvOne(ps[i], net, s);
    }
  }

  /** The last t parties fix all their shares and messages; P1 stores the messages. No inputs are
      known yet. */
  method EarlyAll(ps: seq<DN07>, net: Network, ghost s: Setup)
    requires AllParties(ps, net, s) && |ps| > 0 && Good(s) && Layered(s.lay) && Quiet(net)
    requires forall i :: 0 <= i < |ps| ==> Prepared(ps[i], s) && ps[i].share == map[]
    requires forall i :: 0 <= i < |ps| ==> ps[i].p1SharesToSend == [] && ps[i].p1SharesFromLast == []
    modifies ps, net.chan
    ensures AllParties(ps, net, s) && Quiet(net)
    ensures forall i :: 0 <= i < |ps| ==> Prepared(ps[i], s) && Stored(ps[i], s, 0)
    ensures forall i :: 0 <= i < |ps| && i <= s.t ==> ps[i].share == map[]
    ensures forall i :: 0 <= i < |ps| && i > s.t ==> ps[i].SharesTrue(LastAt(s, i + 1))
  {
    hide Ids, EarlyMsg, Prepared, IsParty, Good, Layered, DN07.SharesTrue, Stored, LastAt;
    EarlySendAll(ps, net, s);
    EarlyRecvAll(ps, net, s);
  }

  // ---------------------------------------------------------------- inputs

  /** Shares of random numbers for the owners from r on, and shares of masked values of the others. */
  ghost predicate Sharing(net: Network, s: Setup, inputs: seq<seq<int>>, r: nat)
    requires net.Valid() && Good(s) && Matches(s.lay, inputs)
    reads net.chan
  {
    forall a, b :: 0 <= a < net.parties && 0 <= b < net.parties ==>
      net.chan[a, b] == (if b >= r then RandomMsg(s)(a, b) else []) + if a < r then MaskedMsg(s, inputs)(a, b) else []
  }

  method RandomSendOne(p: DN07, net: Network, ghost s: Setup)
    requires net.Valid() && IsParty(p, p.id, net, s) && Prepared(p, s) && Under(net, RandomMsg(s), p.id, 0)
    modifies net.chan
    ensures Under(net, RandomMsg(s), p.id + 1, 0)
  {
    hide Ids, Good, DN07.Of, DN07.Placed, DN07.HasPads, DN07.Mapped, Row, RandAt;
    p.OfSizes(s);
    p.InputPartiesSendOwners(s);
  }

  method OwnerOne(p: DN07, net: Network, ghost s: Setup, ghost inputs: seq<seq<int>>)
    requires IsPrime(P61) && net.Valid() && IsParty(p, p.id, net, s) && Matches(s.lay, inputs) && p.id < |inputs| && p.HasInputs(inputs[p.id])
    requires Sharing(net, s, inputs, p.id)
    modifies net.chan
    ensures Sharing(net, s, inputs, p.id + 1)
  {
    hide Ids, Good, DN07.Of, DN07.Placed, DN07.HasInputs, Row, RandAt, MaskedAt, IsPrime, Matches, DN07.Owning;
    p.OfSizes(s);
    ghost var r, n := p.id, net.parties;
    ghost var base := seq(n, b requires 0 <= b < n => if b >= r then RandomMsg(s)(r, b) else []);
    ghost var tail := seq(n, i requires 0 <= i < n => if i < r then MaskedMsg(s, inputs)(i, r) else []);
    OwningStart(p, net, s, inputs, base, tail);
    p.InputOwnersReceiveAndSendParties(s, inputs, base, tail);
    OwningDone(p, net, s, inputs, base, tail);
    forall a, b | 0 <= a < n && 0 <= b < n
      ensures net.chan[a, b] == (if b >= r + 1 then RandomMsg(s)(a, b) else []) + if a < r + 1 then MaskedMsg(s, inputs)(a, b) else []
    {
    }
  }

  lemma OwningStart(p: DN07, net: Network, s: Setup, inputs: seq<seq<int>>, base: seq<seq<int>>, tail: seq<seq<int>>)
    requires net.Valid() && Good(s) && Matches(s.lay, inputs) && p.net == net && p.n == net.parties && p.lay == s.lay && p.t == s.t && p.id < p.n
    requires |base| == |tail| == p.n && Sharing(net, s, inputs, p.id)
    requires forall b :: 0 <= b < p.n ==> base[b] == net.chan[p.id, b]
    requires forall i :: 0 <= i < p.n ==> tail[i] == if i < p.id then MaskedMsg(s, inputs)(i, p.id) else []
    ensures p.Owning(s, inputs, base, tail, 0, 0)
  {
    hide Ids, Good, Matches, RandAt, MaskedAt, Row;
    var flat := Ids(p.lay.gates, InputOf(p.id));
    assert flat[0..] == flat && flat[..0] == [];
    forall f: nat -> int ensures Row(flat[..0], f) == [] {
      RowAll(flat, f);
    }
  }

  lemma OwningDone(p: DN07, net: Network, s: Setup, inputs: seq<seq<int>>, base: seq<seq<int>>, tail: seq<seq<int>>)
    requires net.Valid() && Good(s) && Matches(s.lay, inputs) && p.net == net && p.n == net.parties && p.lay == s.lay && p.t == s.t && p.id < p.n
    requires |base| == |tail| == p.n
    requires p.Owning(s, inputs, base, tail, |Ids(p.lay.gates, InputOf(p.id))|, |Ids(p.lay.gates, InputOf(p.id))|)
    ensures forall i :: 0 <= i < p.n && i != p.id ==> net.chan[i, p.id] == tail[i]
    ensures forall b :: 0 <= b < p.n && b != p.id ==> net.chan[p.id, b] == base[b] + MaskedMsg(s, inputs)(p.id, b)
    ensures net.chan[p.id, p.id] == tail[p.id] + MaskedMsg(s, inputs)(p.id, p.id)
  {
    hide Ids, Good, Matches, RandAt, MaskedAt, Row;
    var flat := Ids(p.lay.gates, InputOf(p.id));
    assert flat[..|flat|] == flat;
    forall f: nat -> int ensures Row(flat[|flat|..], f) == [] {
      RowAll(flat, f);
    }
  }

  method InputRecvOne(p: DN07, net: Network, ghost s: Setup, ghost inputs: seq<seq<int>>)
    requires net.Valid() && IsParty(p, p.id, net, s) && Prepared(p, s) && Matches(s.lay, inputs)
    requires (p.id <= s.t ==> p.share == map[]) && Under(net, MaskedMsg(s, inputs), net.parties, p.id)
    modifies p`share, net.chan
    ensures Under(net, MaskedMsg(s, inputs), net.parties, p.id + 1) && p.Online(s, inputs, 0)
  {
    hide Ids, Good, DN07.Of, DN07.Placed, DN07.HasPads, DN07.Mapped, Row, MaskedAt, Matches, DN07.SharesTrue, Known, GateAt;
    p.OfSizes(s);
    p.InputPartiesReceive(s, inputs);
  }

  /** Random numbers are opened to the owners, and masked inputs shared. */
  method ShareInputs(ps: seq<DN07>, net: Network, ghost s: Setup, ghost inputs: seq<seq<int>>)
    requires IsPrime(P61) && AllParties(ps, net, s) && Matches(s.lay, inputs) && Quiet(net) && Good(s)
    requires forall i :: 0 <= i < |ps| ==> Prepared(ps[i], s) && ps[i].HasInputs(inputs[i])
    modifies net.chan
    ensures Under(net, MaskedMsg(s, inputs), |ps|, 0)
  {
    hide Ids, RandomMsg, MaskedMsg, Prepared, IsParty, Good, DN07.HasInputs, IsPrime;
    PartiesAre(ps, net, s);
    for i := 0 to |ps|
      invariant Under(net, RandomMsg(s), i, 0)
    {
      RandomSendOne(ps[i], net, s);
    }
    for i := 0 to |ps|
      invariant Sharing(net, s, inputs, i)
    {
      OwnerOne(ps[i], net, s, inputs);
    }
  }

  /** The inputs are shared. */
  method InputAll(ps: seq<DN07>, net: Network, ghost s: Setup, ghost inputs: seq<seq<int>>)
    requires IsPrime(P61) && AllParties(ps, net, s) && Matches(s.lay, inputs) && Quiet(net) && Good(s)
    requires forall i :: 0 <= i < |ps| ==> Prepared(ps[i], s) && Stored(ps[i], s, 0) && ps[i].HasInputs(inputs[i])
    requires forall i :: 0 <= i < |ps| && i <= s.t ==> ps[i].share == map[]
    modifies ps, net.chan
    ensures AllParties(ps, net, s) && Quiet(net)
    ensures forall i :: 0 <= i < |ps| ==> Prepared(ps[i], s) && Stored(ps[i], s, 0) && ps[i].Online(s, inputs, 0)
  {
    hide Ids, RandomMsg, MaskedMsg, Prepared, IsParty, Good, Stored, DN07.Online, DN07.HasInputs, IsPrime;
    PartiesAre(ps, net, s);
    ShareInputs(ps, net, s, inputs);
    for i := 0 to |ps|
      invariant AllParties(ps, net, s) && Under(net, MaskedMsg(s, inputs), |ps|, i)
      invariant forall j :: 0 <= j < |ps| ==> Prepared(ps[j], s) && Stored(ps[j], s, 0)
      invariant forall j :: i <= j < |ps| && j <= s.t ==> ps[j].share == map[]
      invariant forall j :: 0 <= j < i ==> ps[j].Online(s, inputs, 0)
    {
      InputRecvOne(ps[i], net, s, inputs);
    }
  }

  // ---------------------------------------------------------------- layers

  method ProductSendOne(p: DN07, net: Network, layer: nat, ghost s: Setup, ghost inputs: seq<seq<int>>)
    requires net.Valid() && IsParty(p, p.id, net, s) && Prepared(p, s) && Matches(s.lay, inputs) && Layered(s.lay) && layer < |s.lay.mults|
    requires p.Online(s, inputs, layer) && Under(net, ProductMsg(s, inputs, layer), p.id, 0)
    modifies p`share, net.chan
    ensures p.Online(s, inputs, layer) && Under(net, ProductMsg(s, inputs, layer), p.id + 1, 0)
  {
    hide Ids, Good, DN07.Of, DN07.Placed, DN07.HasPads, DN07.Mapped, Row, Matches, DN07.Online, ProductsAt, Layered;
    p.OfSizes(s);
    p.MultPartiesSendP1(layer, s, inputs);
  }

  method ReturnOne(p: DN07, net: Network, layer: nat, ghost s: Setup, ghost inputs: seq<seq<int>>)
    requires IsPrime(P61) && net.Valid() && IsParty(p, p.id, net, s) && Matches(s.lay, inputs) && Layered(s.lay) && layer < |s.lay.mults|
    requires Stored(p, s, layer)
    requires if p.id == 0 then Under(net, ProductMsg(s, inputs, layer), net.parties, 0) else Under(net, ReturnMsg(s, inputs, layer), net.parties, 0)
    modifies p`p1SharesFromLast, p`p1SharesToSend, net.chan
    ensures Stored(p, s, layer + 1) && Under(net, ReturnMsg(s, inputs, layer), net.parties, 0)
  {
    hide Ids, Good, DN07.Of, DN07.Placed, Row, Matches, ProductsAt, ReturnedAt, Layered, LastColumns, IsPrime, Flatten, DN07.Opening;
    p.OfSizes(s);
    if p.id == 0 {
      OpeningStart(p, net, layer, s, inputs);
    }
    p.MultP1ReceivesAndSendsParties(layer, s, inputs);
  }

  lemma OpeningStart(p: DN07, net: Network, layer: nat, s: Setup, inputs: seq<seq<int>>)
    requires net.Valid() && Good(s) && Matches(s.lay, inputs) && p.net == net && p.n == net.parties > 0 && p.lay == s.lay && p.t == s.t && p.id == 0
    requires layer < |s.lay.mults| && Stored(p, s, layer) && Under(net, ProductMsg(s, inputs, layer), net.parties, 0)
    ensures p.Opening(s, inputs, layer, 0)
  {
    hide Ids, Good, Row, Matches, ProductsAt, LastColumn, ReturnRow, Flatten;
    var gates := s.lay.mults[layer];
    assert gates[0..] == gates && gates[..0] == [];
    LayerRows(s.lay.mults, layer);
  }

  method ProductRecvOne(p: DN07, net: Network, layer: nat, ghost s: Setup, ghost inputs: seq<seq<int>>)
    requires net.Valid() && IsParty(p, p.id, net, s) && Prepared(p, s) && Matches(s.lay, inputs) && Layered(s.lay) && layer < |s.lay.mults|
    requires p.Online(s, inputs, layer) && Under(net, ReturnMsg(s, inputs, layer), net.parties, p.id)
    modifies p`share, net.chan
    ensures p.Online(s, inputs, layer + 1) && Under(net, ReturnMsg(s, inputs, layer), net.parties, p.id + 1)
  {
    hide Ids, Good, DN07.Of, DN07.Placed, DN07.HasPads, DN07.Mapped, Row, Matches, DN07.Online, ReturnedAt, Layered;
    p.OfSizes(s);
    p.MultPartiesReceive(layer, s, inputs);
  }

  /** P1 opens and returns. */
  method ReturnAll(ps: seq<DN07>, net: Network, layer: nat, ghost s: Setup, ghost inputs: seq<seq<int>>)
    requires IsPrime(P61) && AllParties(ps, net, s) && |ps| > 0 && Matches(s.lay, inputs) && Good(s) && Layered(s.lay)
    requires layer < |s.lay.mults| && Under(net, ProductMsg(s, inputs, layer), |ps|, 0)
    requires forall i :: 0 <= i < |ps| ==> Stored(ps[i], s, layer)
    modifies ps`p1SharesFromLast, ps`p1SharesToSend, net.chan
    ensures AllParties(ps, net, s) && Under(net, ReturnMsg(s, inputs, layer), |ps|, 0)
    ensures forall i :: 0 <= i < |ps| ==> Stored(ps[i], s, layer + 1)
  {
    hide Ids, ProductMsg, ReturnMsg, IsParty, Good, Stored, IsPrime, Layered;
    PartiesAre(ps, net, s);
    for i := 0 to |ps|
      invariant AllParties(ps, net, s)
      invariant if i == 0 then Under(net, ProductMsg(s, inputs, layer), |ps|, 0) else Under(net, ReturnMsg(s, inputs, layer), |ps|, 0)
      invariant forall j :: i <= j < |ps| ==> Stored(ps[j], s, layer)
      invariant forall j :: 0 <= j < i ==> Stored(ps[j], s, layer + 1)
    {
      ReturnOne(ps[i], net, layer, s, inputs);
    }
  }

  method LayerAll(ps: seq<DN07>, net: Network, layer: nat, ghost s: Setup, ghost inputs: seq<seq<int>>)
    requires IsPrime(P61) && AllParties(ps, net, s) && |ps| > 0 && Matches(s.lay, inputs) && Good(s) && Layered(s.lay) && Quiet(net)
    requires layer < |s.lay.mults|
    requires forall i :: 0 <= i < |ps| ==> Prepared(ps[i], s) && Stored(ps[i], s, layer) && ps[i].Online(s, inputs, layer)
    modifies ps, net.chan
    ensures AllParties(ps, net, s) && Quiet(net)
    ensures forall i :: 0 <= i < |ps| ==> Prepared(ps[i], s) && Stored(ps[i], s, layer + 1) && ps[i].Online(s, inputs, layer + 1)
  {
    hide Ids, ProductMsg, ReturnMsg, Prepared, IsParty, Good, Stored, DN07.Online, IsPrime, Layered;
    PartiesAre(ps, net, s);
    for i := 0 to |ps|
      invariant AllParties(ps, net, s) && Under(net, ProductMsg(s, inputs, layer), i, 0)
      invariant forall j :: 0 <= j < |ps| ==> Prepared(ps[j], s) && Stored(ps[j], s, layer) && ps[j].Online(s, inputs, layer)
    {
      ProductSendOne(ps[i], net, layer, s, inputs);
    }
    ReturnAll(ps, net, layer, s, inputs);
    for i := 0 to |ps|
      invariant AllParties(ps, net, s) && Under(net, ReturnMsg(s, inputs, layer), |ps|, i)
      invariant forall j :: 0 <= j < |ps| ==> Prepared(ps[j], s) && Stored(ps[j], s, layer + 1)
      invariant forall j :: i <= j < |ps| ==> ps[j].Online(s, inputs, layer)
      invariant forall j :: 0 <= j < i ==> ps[j].Online(s, inputs, layer + 1)
    {
      ProductRecvOne(ps[i], net, layer, s, inputs);
    }
  }

  // ---------------------------------------------------------------- outputs

  method OutputSendOne(p: DN07, net: Network, ghost s: Setup, ghost inputs: seq<seq<int>>)
    requires net.Valid() && IsParty(p, p.id, net, s) && Matches(s.lay, inputs)
    requires p.Online(s, inputs, |s.lay.mults|) && Under(net, OutputMsg(s, inputs), p.id, 0)
    modifies p`share, net.chan
    ensures Under(net, OutputMsg(s, inputs), p.id + 1, 0)
  {
    hide Ids, Good, DN07.Of, DN07.Placed, Row, Matches, DN07.Online, GateAt;
    p.OfSizes(s);
    p.OutputPartiesSendOwners(s, inputs);
  }

  method OutputRecvOne(p: DN07, net: Network, ghost s: Setup, ghost inputs: seq<seq<int>>)
    requires IsPrime(P61) && net.Valid() && IsParty(p, p.id, net, s) && Matches(s.lay, inputs)
    requires Under(net, OutputMsg(s, inputs), net.parties, p.id)
    modifies p`results, net.chan
    ensures Under(net, OutputMsg(s, inputs), net.parties, p.id + 1) && HasAll(p, s, inputs)
  {
    hide Ids, Good, DN07.Of, DN07.Placed, Row, Matches, GateAt, DN07.HasOutputs, IsPrime, WellFormed;
    p.OfSizes(s);
    assert Ids(s.lay.gates, OutputOf(p.id))[0..] == Ids(s.lay.gates, OutputOf(p.id));
    p.OutputOwnersReceive(s, inputs);
  }

  ghost predicate HasAll(p: DN07, s: Setup, inputs: seq<seq<int>>)
    requires Good(s) && Matches(s.lay, inputs)
    reads p`results
  {
    p.lay == s.lay && p.HasOutputs(s, inputs, |Ids(s.lay.gates, OutputOf(p.id))|)
  }

  method OutputAll(ps: seq<DN07>, net: Network, ghost s: Setup, ghost inputs: seq<seq<int>>)
    requires IsPrime(P61) && AllParties(ps, net, s) && Matches(s.lay, inputs) && Quiet(net) && Good(s)
    requires forall i :: 0 <= i < |ps| ==> ps[i].Online(s, inputs, |s.lay.mults|)
    modifies ps, net.chan
    ensures Quiet(net)
    ensures forall i :: 0 <= i < |ps| ==> HasAll(ps[i], s, inputs)
  {
    hide Ids, OutputMsg, IsParty, Good, DN07.Online, IsPrime, HasAll, WellFormed;
    PartiesAre(ps, net, s);
    GoodSize(s);
    for i := 0 to |ps|
      invariant AllParties(ps, net, s) && Under(net, OutputMsg(s, inputs), i, 0)
      invariant forall j :: i <= j < |ps| ==> ps[j].Online(s, inputs, |s.lay.mults|)
    {
      OutputSendOne(ps[i], net, s, inputs);
    }
    for i := 0 to |ps|
      invariant AllParties(ps, net, s) && Under(net, OutputMsg(s, inputs), |ps|, i)
      invariant forall j :: 0 <= j < i ==> HasAll(ps[j], s, inputs)
    {
      OutputRecvOne(ps[i], net, s, inputs);
    }
  }

  // ---------------------------------------------------------------- everything

  /** A run ends with the outputs of every client, or is refused. */
  datatype Run = Outputs(values: seq<seq<int>>) | TooFewParties | WrongInputs

  method CreateAll(lay: Layout, t: nat, net: Network) returns (ok: bool, ps: seq<DN07>)
    requires WellFormed(lay) && net.Valid() && net.parties == lay.clients > 0
    ensures ok <==> lay.clients > 2 * t
    ensures ok ==> |ps| == lay.clients && fresh(ps)
    ensures ok ==> forall i :: 0 <= i < |ps| ==> New(ps[i]) && ps[i].id == i && ps[i].net == net && ps[i].lay == lay && ps[i].t == t && ps[i].n == net.parties
    ensures ok ==> forall i :: 0 <= i < |ps| ==> ps[i].Placed()
  {
    hide WellFormed, VandermondeRow;
    ps := [];
    if lay.clients <= 2 * t {
      return false, [];
    }
    for i := 0 to lay.clients
      invariant |ps| == i && fresh(ps)
      invariant forall j :: 0 <= j < i ==> New(ps[j]) && ps[j].id == j && ps[j].net == net && ps[j].lay == lay && ps[j].t == t && ps[j].n == net.parties
      invariant forall j :: 0 <= j < i ==> ps[j].Placed()
    {
      var p := new DN07(lay, t, net, i);
      ps := ps + [p];
    }
    ok := true;
  }

  /** Every party sets its inputs; a party with the wrong number of inputs refuses. */
  method SetInputsAll(ps: seq<DN07>, net: Network, ghost s: Setup, inputs: seq<seq<int>>) returns (ok: bool)
    requires AllParties(ps, net, s) && |inputs| == |ps| && Good(s)
    requires forall i :: 0 <= i < |ps| ==> Prepared(ps[i], s) && Stored(ps[i], s, 0)
    requires forall i :: 0 <= i < |ps| && i <= s.t ==> ps[i].share == map[]
    modifies ps
    ensures ok <==> Matches(s.lay, inputs)
    ensures AllParties(ps, net, s) && forall i :: 0 <= i < |ps| ==> Prepared(ps[i], s) && Stored(ps[i], s, 0)
    ensures forall i :: 0 <= i < |ps| && i <= s.t ==> ps[i].share == map[]
    ensures ok ==> forall i :: 0 <= i < |ps| ==> ps[i].HasInputs(inputs[i])
  {
    hide Ids, IsParty, Prepared, Stored, DN07.HasInputs, Good;
    PartiesAre(ps, net, s);
    for i := 0 to |ps|
      invariant AllParties(ps, net, s)
      invariant forall j :: 0 <= j < |ps| ==> Prepared(ps[j], s) && Stored(ps[j], s, 0)
      invariant forall j :: 0 <= j < |ps| && j <= s.t ==> ps[j].share == map[]
      invariant forall j :: 0 <= j < i ==> |inputs[j]| == |Ids(s.lay.gates, InputOf(j))| && ps[j].HasInputs(inputs[j])
    {
      ok := ps[i].SetInputs(inputs[i]);
      if !ok {
        return false;
      }
    }
    ok := true;
  }

  /** The online protocol. */
  method RunProtocol(ps: seq<DN07>, net: Network, ghost s: Setup, ghost inputs: seq<seq<int>>)
    requires IsPrime(P61) && AllParties(ps, net, s) && |ps| > 0 && Matches(s.lay, inputs) && Good(s) && Layered(s.lay) && Quiet(net)
    requires forall i :: 0 <= i < |ps| ==> Prepared(ps[i], s) && Stored(ps[i], s, 0) && ps[i].HasInputs(inputs[i])
    requires forall i :: 0 <= i < |ps| && i <= s.t ==> ps[i].share == map[]
    modifies ps, net.chan
    ensures Quiet(net)
    ensures forall i :: 0 <= i < |ps| ==> HasAll(ps[i], s, inputs)
  {
    hide Ids, IsParty, Good, DN07.Online, IsPrime, HasAll, WellFormed, Prepared, Stored, DN07.HasInputs, Layered;
    PartiesAre(ps, net, s);
    InputAll(ps, net, s, inputs);
    for layer := 0 to |ps[0].lay.mults|
      invariant AllParties(ps, net, s) && Quiet(net)
      invariant forall i :: 0 <= i < |ps| ==> Prepared(ps[i], s) && Stored(ps[i], s, layer) && ps[i].Online(s, inputs, layer)
    {
      LayerAll(ps, net, layer, s, inputs);
    }
    OutputAll(ps, net, s, inputs);
  }

  /** DN07, end to end: for every layered circuit, all inputs and all randomness, every client's
      outputs are what the wires carry, and with n = 2t + 1 the cleartext outputs. Too few parties
      and a wrong number of inputs are refused. */
  method Execute(lay: Layout, t: nat, draws: seq<PartyDraws>, inputs: seq<seq<int>>) returns (r: Run)
    requires IsPrime(P61) && WellFormed(lay) && Layered(lay) && 0 < lay.clients < P61 && |inputs| == lay.clients
    requires lay.clients > 2 * t ==> AllDrawn(lay, t, draws)
    ensures r.TooFewParties? <==> lay.clients <= 2 * t
    ensures r.WrongInputs? <==> !r.TooFewParties? && !Matches(lay, inputs)
    ensures r.Outputs? ==> |r.values| == lay.clients && ProperRun(lay, t, draws, inputs)
    ensures r.Outputs? ==> forall c :: 0 <= c < lay.clients ==> r.values[c] == ClientOutputs(lay, t, draws, inputs, c)
    ensures r.Outputs? && lay.clients == 2 * t + 1 ==> forall c :: 0 <= c < lay.clients ==> r.values[c] == Parties.ClearOutputs(lay, inputs, c)
  {
    hide Ids, WellFormed, Layered, IsPrime, AllDrawn, PadsOf, IsParty, Good, Prepared, Stored, DN07.HasInputs, HasAll, DN07.Placed, Matches, DN07.Of;
    var net := new Network(lay.clients);
    var ok, ps := CreateAll(lay, t, net);
    if !ok {
      return TooFewParties;
    }
    ghost var s := Setup(lay, t, PadsOf(lay, t, draws));
    PadsGood(lay, t, draws);
    Placing(ps, net, s);
    PrepAll(ps, net, draws, s);
    EarlyAll(ps, net, s);
    ok := SetInputsAll(ps, net, s, inputs);
    if !ok {
      return WrongInputs;
    }
    RunProtocol(ps, net, s, inputs);
    var values := OutputsOf(ps, s, inputs);
    if lay.clients == 2 * t + 1 {
      forall c | 0 <= c < lay.clients ensures ClientOutputs(lay, t, draws, inputs, c) == Parties.ClearOutputs(lay, inputs, c) {
        ExactParties(lay, t, draws, inputs, c);
      }
    }
    return Outputs(values);
  }

  /** A run that is not refused. */
  ghost predicate ProperRun(lay: Layout, t: nat, draws: seq<PartyDraws>, inputs: seq<seq<int>>) {
    && IsPrime(P61) && WellFormed(lay) && Layered(lay) && 2 * t < lay.clients < P61
    && AllDrawn(lay, t, draws) && Matches(lay, inputs)
  }

  /** What client c obtains from a run. */
  ghost function ClientOutputs(lay: Layout, t: nat, draws: seq<PartyDraws>, inputs: seq<seq<int>>, c: nat): seq<int>
    requires ProperRun(lay, t, draws, inputs)
  {
    PadsGood(lay, t, draws);
    RunOutputs(Setup(lay, t, PadsOf(lay, t, draws)), inputs, c)
  }

  /** With n = 2t + 1 it is what the circuit computes. */
  lemma ExactParties(lay: Layout, t: nat, draws: seq<PartyDraws>, inputs: seq<seq<int>>, c: nat)
    requires ProperRun(lay, t, draws, inputs) && lay.clients == 2 * t + 1 && c < lay.clients
    ensures ClientOutputs(lay, t, draws, inputs, c) == Parties.ClearOutputs(lay, inputs, c)
  {
    hide Ids, WellFormed, Layered, IsPrime, AllDrawn, PadsOf, Good, Matches, Clear, At, GatePoly;
    PadsGood(lay, t, draws);
    var s := Setup(lay, t, PadsOf(lay, t, draws));
    var flat := Ids(lay.gates, OutputOf(c));
    forall j | 0 <= j < |flat| ensures RunOutputs(s, inputs, c)[j] == Parties.ClearOutputs(lay, inputs, c)[j] {
      GateClear(s, inputs, flat[j]);
    }
  }

  lemma Placing(ps: seq<DN07>, net: Network, s: Setup)
    requires Good(s) && net.Valid() && net.parties == |ps| == s.lay.clients
    requires forall i :: 0 <= i < |ps| ==> ps[i].id == i && ps[i].net == net && ps[i].lay == s.lay && ps[i].t == s.t && ps[i].n == net.parties
    requires forall i :: 0 <= i < |ps| ==> ps[i].Placed()
    ensures AllParties(ps, net, s)
  {
    hide Good, DN07.Placed;
  }

  method OutputsOf(ps: seq<DN07>, ghost s: Setup, ghost inputs: seq<seq<int>>) returns (values: seq<seq<int>>)
    requires Good(s) && Matches(s.lay, inputs) && |ps| == s.lay.clients
    requires forall i :: 0 <= i < |ps| ==> ps[i].id == i && HasAll(ps[i], s, inputs)
    ensures |values| == s.lay.clients && forall c :: 0 <= c < s.lay.clients ==> values[c] == RunOutputs(s, inputs, c)
  {
    hide Ids, Good, Matches, RunOutputs, DN07.HasOutputs;
    values := [];
    for i := 0 to |ps|
      invariant |values| == i && forall c :: 0 <= c < i ==> values[c] == RunOutputs(s, inputs, c)
    {
      var v := ps[i].GetOutputs(s, inputs);
      values := values + [v];
    }
  }
}
