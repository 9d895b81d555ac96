/** One party's copy of a circuit: its batches' preprocessing and the online protocol. */
module Parties {
  import opened Modular
  import opened Poly
  import opened Scl
  import opened Sequences
  import opened PackedSharing
  import opened Dealing
  import opened Channels
  import opened Circuits
  import opened Wiring
  import opened Preprocessing
  import opened Masking
  import opened Correlators

  /** One party's packed shares for a batch of multiplications. */
  datatype BatchShares = BatchShares(lambdaA: int, lambdaB: int, delta: int)

  class Party {
    const lay: Layout
    const corr: Correlator
    const net: Network
    const id: nat
    const n: nat
    var prep: seq<BatchShares>
    var lambda: map<nat, int>
    var mu: map<nat, int>
    var value: map<nat, int>
    var muShares: seq<(int, int)>

    constructor (lay: Layout, corr: Correlator)
      ensures this.lay == lay && this.corr == corr && net == corr.net && id == corr.id && n == corr.n
      ensures prep == [] && lambda == map[] && mu == map[] && value == map[] && muShares == []
    {
      this.lay, this.corr := lay, corr;
      this.net, this.id, this.n := corr.net, corr.id, corr.n;
      prep, lambda, mu, value, muShares := [], map[], map[], map[], [];
    }

    ghost predicate Placed() {
      && net == corr.net && id == corr.id && n == corr.n && corr.Placed()
      && corr.k == lay.batchSize && lay.clients == n
    }

    /** The correlator holds this party's shares of the function-independent preprocessing. */
    ghost predicate Holds(fi: FIPolys)
      reads corr
    {
      && Placed() && corr.Valid() && Enough(lay, fi) && GoodFI(lay, n, fi)
      && corr.Mapped(lay, fi.ind)
      && |corr.multPrep| == |fi.a| && (forall q :: 0 <= q < |fi.a| ==> corr.multPrep[q] == PrepShare(fi, q, id + 1))
      && corr.ioPrep == Msgs(fi.io, id + 1)
    }

    // -------------------------------------------------------------- function-dependent preprocessing

    method PrepMultPartiesSendP1(ghost fi: FIPolys)
      requires Holds(fi)
      modifies net.chan
      ensures net.chan[id, 0] == old(net.chan[id, 0]) + Msgs(MaskList(lay, fi), id + 1)
      ensures forall a, b :: 0 <= a < n && 0 <= b < n && (a, b) != (id, 0) ==> net.chan[a, b] == old(net.chan[a, b])
    {
      hide At, Fresh, MaskedPoly, Mults, IOs, WellFormed, MaskList, Msgs, Correlator.Mapped, GoodFI, Add;
      var batches := Mults(lay);
      SizeOk(lay);
      ghost var cs := MaskList(lay, fi);
      MsgsNone(id + 1);
      assert cs[..0] == [];
      for q := 0 to |batches|
        invariant net.chan[id, 0] == old(net.chan[id, 0]) + Msgs(cs[..2 * q], id + 1)
        invariant forall a, b :: 0 <= a < n && 0 <= b < n && (a, b) != (id, 0) ==> net.chan[a, b] == old(net.chan[a, b])
      {
        BatchOk(lay, fi, q);
        BatchSize(lay, fi, q);
        MaskListAt(lay, fi, q);
        corr.PrepMultPartiesSendP1(batches[q], corr.multPrep[q], lay, fi.ind, fi.a[q], fi.b[q], fi.o1[q], fi.o2[q]);
        MsgsTwo(cs, q, id + 1);
      }
      assert cs[..2 * |batches|] == cs;
    }

    method PrepMultP1ReceivesAndSends(ghost fi: FIPolys, ghost tail: seq<seq<int>>, ghost queued: seq<seq<int>>)
      requires IsPrime(P61) && Holds(fi)
      requires id == 0 ==> corr.Exchanging(MaskList(lay, fi), tail, queued, [], 0)
      modifies net.chan
      ensures id == 0 ==> corr.Exchanging([], tail, queued, ReshareList(lay, fi), 0)
      ensures id != 0 ==> forall a, b :: 0 <= a < n && 0 <= b < n ==> net.chan[a, b] == old(net.chan[a, b])
      ensures forall a, b :: 1 <= a < n && 1 <= b < n ==> net.chan[a, b] == old(net.chan[a, b])
    {
      hide At, Fresh, MaskedPoly, Mults, IOs, WellFormed, MaskList, ReshareList, Msgs, Correlator.Mapped, GoodFI, Add, Reshared, Correlator.Exchanging;
      var batches := Mults(lay);
      SizeOk(lay);
      ghost var ins, outs := MaskList(lay, fi), ReshareList(lay, fi);
      assert ins[0..] == ins && outs[..0] == [];
      for q := 0 to |batches|
        invariant id == 0 ==> corr.Exchanging(ins[2 * q..], tail, queued, outs[..2 * q], 0)
        invariant id != 0 ==> forall a, b :: 0 <= a < n && 0 <= b < n ==> net.chan[a, b] == old(net.chan[a, b])
        invariant forall a, b :: 1 <= a < n && 1 <= b < n ==> net.chan[a, b] == old(net.chan[a, b])
      {
        MaskListAt(lay, fi, q);
        MaskListLengths(lay, n, corr.threshold, fi, 2 * q);
        MaskListLengths(lay, n, corr.threshold, fi, 2 * q + 1);
        MsgsTwo(ins, q, 0);
        MsgsTwo(outs, q, 0);
        corr.PrepMultP1ReceivesAndSends(MaskedA(lay, fi, q), MaskedB(lay, fi, q), ins[2 * (q + 1)..], tail, queued, outs[..2 * q]);
      }
      assert ins[2 * |batches|..] == [] && outs[..2 * |batches|] == outs;
    }

    /** The first m batches are prepared. */
    ghost predicate Prepared(fi: FIPolys, m: nat)
      requires Enough(lay, fi) && m <= |fi.a|
      reads this`prep
    {
      |prep| == m && forall q :: 0 <= q < m ==> prep[q] == BatchShare(lay, fi, q, id + 1)
    }

    method PrepMultPartiesReceive(ghost fi: FIPolys, ghost tail: seq<int>)
      requires Holds(fi) && prep == []
      requires net.chan[0, id] == Msgs(ReshareList(lay, fi), id + 1) + tail
      modifies this`prep, net.chan
      ensures Prepared(fi, |fi.a|)
      ensures net.chan[0, id] == tail
      ensures forall a, b :: 0 <= a < n && 0 <= b < n && (a, b) != (0, id) ==> net.chan[a, b] == old(net.chan[a, b])
    {
      hide At, Fresh, MaskedPoly, Mults, IOs, WellFormed, ReshareList, Msgs, Correlator.Mapped, GoodFI, Add, Reshared, DeltaPoly, SubP, BatchShare, Pack, MemberPolys, MaskedA, MaskedB;
      var batches := Mults(lay);
      SizeOk(lay);
      ghost var cs := ReshareList(lay, fi);
      assert cs[0..] == cs;
      for q := 0 to |batches|
        invariant Prepared(fi, q)
        invariant net.chan[0, id] == Msgs(cs[2 * q..], id + 1) + tail
        invariant forall a, b :: 0 <= a < n && 0 <= b < n && (a, b) != (0, id) ==> net.chan[a, b] == old(net.chan[a, b])
      {
        BatchOk(lay, fi, q);
        BatchSize(lay, fi, q);
        MaskListAt(lay, fi, q);
        MsgsTwo(cs, q, id + 1);
        var la, lb, d := corr.PrepMultPartiesReceive(batches[q], corr.multPrep[q], lay, fi.ind,
          Reshared(MaskedA(lay, fi, q), lay.batchSize), Reshared(MaskedB(lay, fi, q), lay.batchSize),
          fi.a[q], fi.b[q], fi.c[q], fi.o3[q], Msgs(cs[2 * (q + 1)..], id + 1) + tail);
        BatchShareIs(lay, fi, q, id + 1, la, lb, d);
        prep := prep + [BatchShares(la, lb, d)];
      }
      assert cs[2 * |batches|..] == [];
      MsgsNone(id + 1);
    }

    /** Shares of the masks of all input and output batches, to their owners. */
    method PrepIOPartiesSendOwner(ghost fi: FIPolys)
      requires Holds(fi)
      modifies net.chan
      ensures forall c :: 0 <= c < n ==> net.chan[id, c] == old(net.chan[id, c]) + Msgs(Mine(IOs(lay), IOList(lay, fi), c), id + 1)
      ensures forall a, b :: 0 <= a < n && 0 <= b < n && a != id ==> net.chan[a, b] == old(net.chan[a, b])
    {
      hide At, Fresh, MaskedPoly, Mults, WellFormed, Msgs, Correlator.Mapped, GoodFI, Add, Mine, InputBatches, OutputBatches, IOs;
      var batches := IOs(lay);
      ghost var cs := IOList(lay, fi);
      forall c | 0 <= c < n ensures Msgs(Mine(batches[..0], cs[..0], c), id + 1) == [] {
        MineNone(batches, cs, c, id + 1);
      }
      for b := 0 to |batches|
        invariant forall c :: 0 <= c < n ==>
          net.chan[id, c] == old(net.chan[id, c]) + Msgs(Mine(batches[..b], cs[..b], c), id + 1)
        invariant forall a, b :: 0 <= a < n && 0 <= b < n && a != id ==> net.chan[a, b] == old(net.chan[a, b])
      {
        IOBatchOk(lay, b);
        IOShare(fi.io, b, id + 1);
        corr.PrepIOPartiesSendOwner(batches[b], corr.ioPrep[b], fi.io[b], lay, fi.ind);
        forall c | 0 <= c < n
          ensures Msgs(Mine(batches[..b + 1], cs[..b + 1], c), id + 1) ==
            Msgs(Mine(batches[..b], cs[..b], c), id + 1) + if batches[b].owner == c then [At(cs[b], id + 1)] else []
        {
          MineStep(batches, cs, b, c, id + 1);
        }
      }
      assert batches[..|batches|] == batches && cs[..|batches|] == cs;
    }

    /** This party knows the masks of its gates in the first m batches, and only true masks. */
    ghost predicate KnowsMasks(fi: FIPolys, m: nat)
      requires Enough(lay, fi) && m <= |IOs(lay)|
      reads this`lambda
    {
      forall b, i :: 0 <= b < m && 0 <= i < |IOs(lay)[b].members| && IOs(lay)[b].owner == id && IOs(lay)[b].members[i].Real? ==>
        KnowsMask(fi, IOs(lay)[b].members[i].id)
    }

    ghost predicate KnowsMask(fi: FIPolys, g: nat)
      requires Enough(lay, fi)
      reads this`lambda
    {
      g < |lay.gates| && g in lambda && lambda[g] == Lambda(lay, fi.ind, g)
    }

    /** Everyone's shares of the masks of this party's gates wait in front of tail. */
    ghost predicate MasksWaiting(fi: FIPolys, tail: seq<seq<int>>)
      requires Placed() && Enough(lay, fi)
      reads net.chan
    {
      && |tail| == n
      && forall i :: 0 <= i < n ==> net.chan[i, id] == Msgs(Mine(IOs(lay), IOList(lay, fi), id), i + 1) + tail[i]
    }

    /** Every owner opens the masks of its inputs and outputs. */
    method PrepIOOwnerReceives(ghost fi: FIPolys, ghost tail: seq<seq<int>>)
      requires IsPrime(P61) && Holds(fi)
      requires MasksWaiting(fi, tail)
      modifies this`lambda, net.chan
      ensures KnowsMasks(fi, |IOs(lay)|)
      ensures corr.Received(tail)
      ensures forall a, b :: 0 <= a < n && 0 <= b < n && b != id ==> net.chan[a, b] == old(net.chan[a, b])
    {
      hide At, Fresh, MaskedPoly, Mults, WellFormed, Msgs, Correlator.Mapped, GoodFI, Add, Mine, InputBatches, OutputBatches, IOs, IOPoly, Lambda, KnowsMask;
      var batches := IOs(lay);
      ghost var cs := IOList(lay, fi);
      assert batches[0..] == batches && cs[0..] == cs;
      for b := 0 to |batches|
        invariant KnowsMasks(fi, b)
        invariant forall i :: 0 <= i < n ==> net.chan[i, id] == Msgs(Mine(batches[b..], cs[b..], id), i + 1) + tail[i]
        invariant forall a, b :: 0 <= a < n && 0 <= b < n && b != id ==> net.chan[a, b] == old(net.chan[a, b])
      {
        IOPolyIs(lay, n, corr.threshold, fi, b);
        ghost var behind := seq(n, i requires 0 <= i < n => Msgs(Mine(batches[b + 1..], cs[b + 1..], id), i + 1) + tail[i]);
        forall i | 0 <= i < n
          ensures Msgs(Mine(batches[b..], cs[b..], id), i + 1) + tail[i] ==
            (if batches[b].owner == id then [At(cs[b], i + 1)] else []) + behind[i]
        {
          MineNext(batches, cs, b, id, i + 1);
        }
        if batches[b].owner == id {
          var secrets := corr.PrepIOOwnerReceives(cs[b], behind);
          SetLambdas(batches[b].members, secrets, fi);
        }
      }
      assert batches[|batches|..] == [] && cs[|batches|..] == [];
      forall i | 0 <= i < n ensures Msgs(Mine([], [], id), i + 1) + tail[i] == tail[i] {
        MineNone([], [], id, i + 1);
      }
    }

    /** The opened masks go to the gates of the batch; the padding gate keeps none. */
    method SetLambdas(ms: seq<Member>, secrets: seq<int>, ghost fi: FIPolys)
      requires Enough(lay, fi) && MembersOf(lay, ms) && |secrets| == |ms|
      requires forall j :: 0 <= j < |ms| ==> secrets[j] == MemberLambda(lay, fi.ind, ms[j])
      modifies this`lambda
      ensures forall j :: 0 <= j < |ms| && ms[j].Real? ==> KnowsMask(fi, ms[j].id)
      ensures forall g :: old(KnowsMask(fi, g)) ==> KnowsMask(fi, g)
    {
      hide At, Fresh, Mults, WellFormed, IOs, Lambda;
      for i := 0 to |ms|
        invariant forall j :: 0 <= j < i && ms[j].Real? ==> KnowsMask(fi, ms[j].id)
        invariant forall g :: old(KnowsMask(fi, g)) ==> KnowsMask(fi, g)
      {
        match ms[i] {
          case Real(g) =>
            lambda := lambda[g := secrets[i]];
          case Padding =>
        }
      }
    }

    // -------------------------------------------------------------- inputs

    /** One value for each of this party's input gates. */
    method SetInputs(inputs: seq<int>) returns (ok: bool)
      modifies this`value
      ensures ok <==> |inputs| == |Ids(lay.gates, InputOf(id))|
      ensures ok ==> HasInputs(inputs)
      ensures !ok ==> value == old(value)
    {
      hide Ids;
      var flat := Ids(lay.gates, InputOf(id));
      if |inputs| != |flat| {
        return false;
      }
      for i := 0 to |inputs|
        invariant forall j :: 0 <= j < i ==> flat[j] in value && value[flat[j]] == inputs[j]
      {
        value := value[flat[i] := inputs[i]];
      }
      return true;
    }

    ghost predicate HasInputs(inputs: seq<int>)
      reads this`value
    {
      var flat := Ids(lay.gates, InputOf(id));
      |inputs| == |flat| && forall i :: 0 <= i < |flat| ==> flat[i] in value && value[flat[i]] == inputs[i]
    }

    /** Every owner sends its masked inputs to P1. */
    method InputOwnerSendsP1(ghost fi: FIPolys, ghost inputs: seq<seq<int>>)
      requires Holds(fi) && Matches(lay, inputs) && HasInputs(inputs[id])
      requires forall g :: g in Ids(lay.gates, InputOf(id)) ==> KnowsMask(fi, g)
      modifies net.chan
      ensures net.chan[id, 0] == old(net.chan[id, 0]) + MaskedOf(lay, fi, inputs, Ids(lay.gates, InputOf(id)))
      ensures forall a, b :: 0 <= a < n && 0 <= b < n && (a, b) != (id, 0) ==> net.chan[a, b] == old(net.chan[a, b])
    {
      hide Ids, Masked, Lambda, WellFormed, Fresh, IOs, Mults, Correlator.Mapped, GoodFI, Sub;
      for client := 0 to lay.clients
        invariant net.chan[id, 0] == old(net.chan[id, 0]) +
          if client <= id then [] else MaskedOf(lay, fi, inputs, Ids(lay.gates, InputOf(id)))
        invariant forall a, b :: 0 <= a < n && 0 <= b < n && (a, b) != (id, 0) ==> net.chan[a, b] == old(net.chan[a, b])
      {
        if id == client {
          SendInputs(fi, inputs);
        }
      }
    }

    method SendInputs(ghost fi: FIPolys, ghost inputs: seq<seq<int>>)
      requires Holds(fi) && Matches(lay, inputs) && HasInputs(inputs[id])
      requires forall g :: g in Ids(lay.gates, InputOf(id)) ==> KnowsMask(fi, g)
      modifies net.chan
      ensures net.chan[id, 0] == old(net.chan[id, 0]) + MaskedOf(lay, fi, inputs, Ids(lay.gates, InputOf(id)))
      ensures forall a, b :: 0 <= a < n && 0 <= b < n && (a, b) != (id, 0) ==> net.chan[a, b] == old(net.chan[a, b])
    {
      hide Ids, Masked, Lambda, WellFormed, Fresh, IOs, Mults, Correlator.Mapped, GoodFI, Sub;
      var flat := Ids(lay.gates, InputOf(id));
      for i := 0 to |flat|
        invariant net.chan[id, 0] == old(net.chan[id, 0]) + MaskedOf(lay, fi, inputs, flat)[..i]
        invariant forall a, b :: 0 <= a < n && 0 <= b < n && (a, b) != (id, 0) ==> net.chan[a, b] == old(net.chan[a, b])
      {
        var gate := flat[i];
        assert KnowsMask(fi, gate);
        MaskedInput(lay, fi, inputs, id, i);
        net.Send(id, 0, Sub(value[gate], lambda[gate]));
      }
    }

    /** P1 knows true masked values only. */
    ghost predicate MuTrue(fi: FIPolys, inputs: seq<seq<int>>)
      requires Setting(lay, fi, inputs)
      reads this`mu
    {
      forall g :: g in mu ==> g < |lay.gates| && mu[g] == Masked(lay, fi, inputs, g)
    }

    /** The masked inputs of the clients from first on wait for P1, in front of tail. */
    ghost predicate InputsWaiting(fi: FIPolys, inputs: seq<seq<int>>, tail: seq<seq<int>>, first: nat)
      requires Placed() && n > 0 && Setting(lay, fi, inputs)
      reads net.chan
    {
      |tail| == n && forall c :: 0 <= c < n ==>
        net.chan[c, 0] == (if c >= first then MaskedOf(lay, fi, inputs, Ids(lay.gates, InputOf(c))) else []) + tail[c]
    }

    /** P1 receives the masked inputs, client by client. */
    method InputP1Receives(ghost fi: FIPolys, ghost inputs: seq<seq<int>>, ghost tail: seq<seq<int>>)
      requires Placed() && n > 0 && Setting(lay, fi, inputs) && MuTrue(fi, inputs)
      requires id == 0 ==> InputsWaiting(fi, inputs, tail, 0)
      modifies this`mu, net.chan
      ensures MuTrue(fi, inputs)
      ensures id == 0 ==> Known(lay, 0) <= mu.Keys && InputsWaiting(fi, inputs, tail, n)
      ensures id != 0 ==> mu == old(mu) && forall c :: 0 <= c < n ==> net.chan[c, 0] == old(net.chan[c, 0])
      ensures forall a, b :: 0 <= a < n && 1 <= b < n ==> net.chan[a, b] == old(net.chan[a, b])
    {
      if id == 0 {
        hide Ids, MuTrue, ClientsKnown, Known, InputsWaiting;
        NoClients();
        for client := 0 to lay.clients
          invariant MuTrue(fi, inputs)
          invariant ClientsKnown(client)
          invariant InputsWaiting(fi, inputs, tail, client)
          invariant forall a, b :: 0 <= a < n && 1 <= b < n ==> net.chan[a, b] == old(net.chan[a, b])
        {
          RecvClient(client, fi, inputs, tail);
        }
        InputsKnown();
      }
    }

    method RecvClient(client: nat, ghost fi: FIPolys, ghost inputs: seq<seq<int>>, ghost tail: seq<seq<int>>)
      requires Placed() && n > 0 && Setting(lay, fi, inputs) && MuTrue(fi, inputs) && client < n
      requires InputsWaiting(fi, inputs, tail, client) && ClientsKnown(client)
      modifies this`mu, net.chan
      ensures MuTrue(fi, inputs) && ClientsKnown(client + 1)
      ensures InputsWaiting(fi, inputs, tail, client + 1)
      ensures forall a, b :: 0 <= a < n && 1 <= b < n ==> net.chan[a, b] == old(net.chan[a, b])
    {
      hide Ids, MuTrue, HasMus, Setting, MaskedOf;
      RecvInputs(client, fi, inputs, tail[client]);
    }

    /** The inputs of the first m clients are known. */
    ghost predicate ClientsKnown(m: nat)
      reads this`mu
    {
      forall c :: 0 <= c < m ==> HasMus(Ids(lay.gates, InputOf(c)))
    }

    lemma NoClients()
      ensures ClientsKnown(0)
    {
    }

    lemma InputsKnown()
      requires WellFormed(lay) && ClientsKnown(lay.clients)
      ensures Known(lay, 0) <= mu.Keys
    {
      hide Ids, WellFormed;
      forall g | g in Known(lay, 0) ensures g in mu {
        InputHasOwner(lay, g);
        assert HasMus(Ids(lay.gates, InputOf(lay.gates[g].owner)));
      }
    }

    ghost predicate HasMus(gates: seq<nat>)
      reads this`mu
    {
      forall g :: g in gates ==> g in mu
    }

    method RecvInputs(client: nat, ghost fi: FIPolys, ghost inputs: seq<seq<int>>, ghost tail: seq<int>)
      requires Placed() && Setting(lay, fi, inputs) && MuTrue(fi, inputs) && client < n
      requires net.chan[client, 0] == MaskedOf(lay, fi, inputs, Ids(lay.gates, InputOf(client))) + tail
      modifies this`mu, net.chan
      ensures MuTrue(fi, inputs) && HasMus(Ids(lay.gates, InputOf(client)))
      ensures forall gates: seq<nat> :: old(HasMus(gates)) ==> HasMus(gates)
      ensures net.chan[client, 0] == tail
      ensures forall a, b :: 0 <= a < n && 0 <= b < n && (a, b) != (client, 0) ==> net.chan[a, b] == old(net.chan[a, b])
    {
      hide Ids, Masked, Lambda, WellFormed, Fresh, IOs, Mults;
      var flat := Ids(lay.gates, InputOf(client));
      for i := 0 to |flat|
        invariant MuTrue(fi, inputs)
        invariant forall j :: 0 <= j < i ==> flat[j] in mu
        invariant forall g :: g in old(mu) ==> g in mu
        invariant net.chan[client, 0] == MaskedOf(lay, fi, inputs, flat)[i..] + tail
        invariant forall a, b :: 0 <= a < n && 0 <= b < n && (a, b) != (client, 0) ==> net.chan[a, b] == old(net.chan[a, b])
      {
        var m := net.Recv(client, 0);
        mu := mu[flat[i] := m];
      }
    }

    // -------------------------------------------------------------- multiplications

    /** The masked value of a gate, memoised for additions and outputs. */
    method GetMu(g: nat, ghost fi: FIPolys, ghost inputs: seq<seq<int>>) returns (m: int)
      requires Setting(lay, fi, inputs) && MuTrue(fi, inputs) && g < |lay.gates| && Reachable(lay, mu.Keys, g)
      modifies this`mu
      ensures MuTrue(fi, inputs) && m == Masked(lay, fi, inputs, g)
      ensures old(mu.Keys) <= mu.Keys
      decreases g
    {
      hide Ids, Masked, Lambda, WellFormed, Fresh, IOs, Mults, Add, Matches;
      if g in mu {
        return mu[g];
      }
      MaskedSteps(lay, fi, inputs, g);
      match lay.gates[g] {
        case AddGate(l, r) =>
          ghost var known := mu.Keys;
          var a := GetMu(l, fi, inputs);
          ReachableMore(lay, known, mu.Keys, r);
          var b := GetMu(r, fi, inputs);
          m := Add(a, b);
        case OutputGate(_, s) =>
          m := GetMu(s, fi, inputs);
        case InputGate(_) =>
          assert false;
        case MultGate(_, _) =>
          assert false;
      }
      mu := mu[g := m];
    }

    method GetMemberMu(member: Member, ghost fi: FIPolys, ghost inputs: seq<seq<int>>) returns (m: int)
      requires Setting(lay, fi, inputs) && MuTrue(fi, inputs) && MemberOf(lay, member)
      requires member.Real? ==> Reachable(lay, mu.Keys, member.id)
      modifies this`mu
      ensures MuTrue(fi, inputs) && m == MemberMasked(lay, fi, inputs, member)
      ensures old(mu.Keys) <= mu.Keys
    {
      hide Ids, Masked, Lambda, WellFormed, Fresh, IOs, Mults, Reachable, Matches;
      match member {
        case Real(g) => m := GetMu(g, fi, inputs);
        case Padding => m := F(0);
      }
    }

    /** P1 has sent everyone its shares of the listed polynomials, behind what was queued before. */
    ghost predicate SentByP1(queued: seq<seq<int>>, cs: seq<Coeffs>)
      requires Placed() && n > 0
      reads net.chan
    {
      |queued| == n && forall b :: 0 <= b < n ==> net.chan[0, b] == queued[b] + Msgs(cs, b + 1)
    }

    /** P1 packs the masked values of both parents of every batch of a layer and shares them. */
    method MultP1Sends(layer: nat, ghost fi: FIPolys, ghost inputs: seq<seq<int>>, ghost queued: seq<seq<int>>)
      requires Placed() && n > 0 && Setting(lay, fi, inputs) && MuTrue(fi, inputs) && layer < |lay.mults|
      requires id == 0 ==> Layered(lay) && Known(lay, layer) <= mu.Keys && SentByP1(queued, [])
      modifies this`mu, net.chan
      ensures MuTrue(fi, inputs) && old(mu.Keys) <= mu.Keys
      ensures id == 0 ==> SentByP1(queued, MuList(lay, fi, inputs, layer))
      ensures id != 0 ==> forall b :: 0 <= b < n ==> net.chan[0, b] == old(net.chan[0, b])
      ensures forall a, b :: 1 <= a < n && 0 <= b < n ==> net.chan[a, b] == old(net.chan[a, b])
    {
      if id == 0 {
        hide Ids, WellFormed, Fresh, IOs, Mults, Known, Layered, Msgs, MuTrue, Layer, MuList, At, SentByP1;
        SizeOk(lay);
        var batches := Layer(lay, layer);
        ghost var cs := MuList(lay, fi, inputs, layer);
        assert cs[..0] == [];
        for q := 0 to |batches|
          invariant MuTrue(fi, inputs) && old(mu.Keys) <= mu.Keys
          invariant SentByP1(queued, cs[..2 * q])
          invariant forall a, b :: 1 <= a < n && 0 <= b < n ==> net.chan[a, b] == old(net.chan[a, b])
        {
          SendBatch(layer, q, fi, inputs, queued);
        }
        assert cs[..2 * |batches|] == cs;
      }
    }

    method SendBatch(layer: nat, q: nat, ghost fi: FIPolys, ghost inputs: seq<seq<int>>, ghost queued: seq<seq<int>>)
      requires Placed() && n > 0 && id == 0 && Setting(lay, fi, inputs) && MuTrue(fi, inputs)
      requires layer < |lay.mults| && q < |Layer(lay, layer)| && Layered(lay) && Known(lay, layer) <= mu.Keys
      requires SentByP1(queued, MuList(lay, fi, inputs, layer)[..2 * q])
      modifies this`mu, net.chan
      ensures MuTrue(fi, inputs) && old(mu.Keys) <= mu.Keys
      ensures SentByP1(queued, MuList(lay, fi, inputs, layer)[..2 * (q + 1)])
      ensures forall a, b :: 1 <= a < n && 0 <= b < n ==> net.chan[a, b] == old(net.chan[a, b])
    {
      hide Ids, WellFormed, Fresh, IOs, Mults, Known, Layered, MuTrue, Layer, MuList, MuPoly, At, Lefts, Rights, SentByP1;
      SizeOk(lay);
      MuListAt(lay, fi, inputs, layer, q);
      var ms := Layer(lay, layer)[q];
      var muAlpha, muBeta := GatherMus(layer, q, fi, inputs);
      var polyA := EvPolyFromSecretsAndDegree(muAlpha, |ms| - 1, []);
      var sharesA := SharesFromEvPoly(polyA, n);
      var polyB := EvPolyFromSecretsAndDegree(muBeta, |ms| - 1, []);
      var sharesB := SharesFromEvPoly(polyB, n);
      MuPolyIs(lay, fi, inputs, Lefts(lay, ms));
      MuPolyIs(lay, fi, inputs, Rights(lay, ms));
      SendTwo(sharesA, sharesB, MuList(lay, fi, inputs, layer), q, queued);
    }

    /** Two shares to every party. */
    method SendTwo(sharesA: seq<int>, sharesB: seq<int>, ghost cs: seq<Coeffs>, ghost q: nat, ghost queued: seq<seq<int>>)
      requires Placed() && n > 0 && id == 0 && |sharesA| == |sharesB| == n && 2 * q + 1 < |cs|
      requires sharesA == Shares(cs[2 * q], n) && sharesB == Shares(cs[2 * q + 1], n)
      requires SentByP1(queued, cs[..2 * q])
      modifies net.chan
      ensures SentByP1(queued, cs[..2 * (q + 1)])
      ensures forall a, b :: 1 <= a < n && 0 <= b < n ==> net.chan[a, b] == old(net.chan[a, b])
    {
      hide At, Msgs;
      for i := 0 to n
        invariant forall b :: 0 <= b < n ==>
          net.chan[0, b] == old(net.chan[0, b]) + if b < i then [sharesA[b], sharesB[b]] else []
        invariant forall a, b :: 1 <= a < n && 0 <= b < n ==> net.chan[a, b] == old(net.chan[a, b])
      {
        net.Send(0, i, sharesA[i]);
        net.Send(0, i, sharesB[i]);
      }
      forall b | 0 <= b < n ensures net.chan[0, b] == queued[b] + Msgs(cs[..2 * (q + 1)], b + 1) {
        MsgsTwo(cs, q, b + 1);
        assert sharesA[b] == At(cs[2 * q], b + 1) && sharesB[b] == At(cs[2 * q + 1], b + 1);
      }
    }

    /** The masked values of the parents, in the order of the batch. */
    method GatherMus(layer: nat, q: nat, ghost fi: FIPolys, ghost inputs: seq<seq<int>>)
      returns (muAlpha: seq<int>, muBeta: seq<int>)
      requires Setting(lay, fi, inputs) && MuTrue(fi, inputs)
      requires layer < |lay.mults| && q < |Layer(lay, layer)| && Layered(lay) && Known(lay, layer) <= mu.Keys
      modifies this`mu
      ensures MuTrue(fi, inputs) && old(mu.Keys) <= mu.Keys
      ensures var ms := Layer(lay, layer)[q];
        && MembersOf(lay, Lefts(lay, ms)) && MembersOf(lay, Rights(lay, ms))
        && muAlpha == Maskeds(lay, fi, inputs, Lefts(lay, ms)) && muBeta == Maskeds(lay, fi, inputs, Rights(lay, ms))
    {
      hide Ids, WellFormed, Fresh, IOs, Mults, Known, Layered, MuTrue, Layer, MemberMasked, Reachable;
      LayerBatch(lay, layer, q);
      var ms := Layer(lay, layer)[q];
      ghost var va, vb := Maskeds(lay, fi, inputs, Lefts(lay, ms)), Maskeds(lay, fi, inputs, Rights(lay, ms));
      muAlpha, muBeta := [], [];
      for i := 0 to |ms|
        invariant MuTrue(fi, inputs) && old(mu.Keys) <= mu.Keys
        invariant muAlpha == va[..i] && muBeta == vb[..i]
      {
        ParentsReachable(lay, layer, q, i);
        var l, r := LeftOf(lay, ms[i]), RightOf(lay, ms[i]);
        assert l == Lefts(lay, ms)[i] && r == Rights(lay, ms)[i];
        if ms[i].Real? {
          ReachableMore(lay, Known(lay, layer), mu.Keys, l.id);
        }
        var a := GetMemberMu(l, fi, inputs);
        if ms[i].Real? {
          ReachableMore(lay, Known(lay, layer), mu.Keys, r.id);
        }
        var b := GetMemberMu(r, fi, inputs);
        muAlpha, muBeta := muAlpha + [a], muBeta + [b];
      }
    }

    /** This party's shares of P1's sharings for the first m batches of a layer. */
    ghost predicate HasMuShares(fi: FIPolys, inputs: seq<seq<int>>, layer: nat, m: nat)
      requires Setting(lay, fi, inputs) && layer < |lay.mults| && m <= |Layer(lay, layer)|
      reads this`muShares
    {
      var cs := MuList(lay, fi, inputs, layer);
      |muShares| == m && forall q :: 0 <= q < m ==> muShares[q] == (At(cs[2 * q], id + 1), At(cs[2 * q + 1], id + 1))
    }

    method MultPartiesReceive(layer: nat, ghost fi: FIPolys, ghost inputs: seq<seq<int>>, ghost tail: seq<int>)
      requires Placed() && Setting(lay, fi, inputs) && layer < |lay.mults|
      requires net.chan[0, id] == Msgs(MuList(lay, fi, inputs, layer), id + 1) + tail
      modifies this`muShares, net.chan
      ensures HasMuShares(fi, inputs, layer, |Layer(lay, layer)|)
      ensures net.chan[0, id] == tail
      ensures forall a, b :: 0 <= a < n && 0 <= b < n && (a, b) != (0, id) ==> net.chan[a, b] == old(net.chan[a, b])
    {
      hide Ids, WellFormed, Fresh, IOs, Mults, Layer, MuList, At, Msgs;
      SizeOk(lay);
      var batches := Layer(lay, layer);
      ghost var cs := MuList(lay, fi, inputs, layer);
      muShares := [];
      assert cs[0..] == cs;
      for q := 0 to |batches|
        invariant HasMuShares(fi, inputs, layer, q)
        invariant net.chan[0, id] == Msgs(cs[2 * q..], id + 1) + tail
        invariant forall a, b :: 0 <= a < n && 0 <= b < n && (a, b) != (0, id) ==> net.chan[a, b] == old(net.chan[a, b])
      {
        MsgsTwo(cs, q, id + 1);
        var shrMuA := net.Recv(0, id);
        var shrMuB := net.Recv(0, id);
        muShares := muShares + [(shrMuA, shrMuB)];
      }
      assert cs[2 * |batches|..] == [];
      MsgsNone(id + 1);
    }

    /** The local combination of every batch, to P1. */
    method MultPartiesSend(layer: nat, ghost fi: FIPolys, ghost inputs: seq<seq<int>>)
      requires Placed() && Setting(lay, fi, inputs) && layer < |lay.mults|
      requires Prepared(fi, |fi.a|) && HasMuShares(fi, inputs, layer, |Layer(lay, layer)|)
      modifies net.chan
      ensures net.chan[id, 0] == old(net.chan[id, 0]) + Msgs(ProductList(lay, fi, inputs, layer), id + 1)
      ensures forall a, b :: 0 <= a < n && 0 <= b < n && (a, b) != (id, 0) ==> net.chan[a, b] == old(net.chan[a, b])
    {
      hide Ids, WellFormed, Fresh, IOs, Mults, Layer, MuList, At, ProductList, Msgs, HasMuShares, Prepared;
      SizeOk(lay);
      var batches := Layer(lay, layer);
      ghost var cs := ProductList(lay, fi, inputs, layer);
      MsgsNone(id + 1);
      assert [] + cs[..0] == [];
      for q := 0 to |batches|
        invariant net.chan[id, 0] == old(net.chan[id, 0]) + Msgs([] + cs[..q], id + 1)
        invariant forall a, b :: 0 <= a < n && 0 <= b < n && (a, b) != (id, 0) ==> net.chan[a, b] == old(net.chan[a, b])
      {
        MsgsTake([], cs, q, id + 1);
        SendProduct(layer, q, fi, inputs);
      }
      assert [] + cs[..|batches|] == cs;
    }

    method SendProduct(layer: nat, q: nat, ghost fi: FIPolys, ghost inputs: seq<seq<int>>)
      requires Placed() && Setting(lay, fi, inputs) && layer < |lay.mults| && q < |Layer(lay, layer)|
      requires Prepared(fi, |fi.a|) && HasMuShares(fi, inputs, layer, |Layer(lay, layer)|)
      modifies net.chan
      ensures net.chan[id, 0] == old(net.chan[id, 0]) + [At(ProductList(lay, fi, inputs, layer)[q], id + 1)]
      ensures forall a, b :: 0 <= a < n && 0 <= b < n && (a, b) != (id, 0) ==> net.chan[a, b] == old(net.chan[a, b])
    {
      hide Ids, WellFormed, Fresh, IOs, Mults, Layer, MuList, At, ProductList, ProductShare, Before, HasMuShares, Prepared;
      ProductShareIs(fi, inputs, layer, q);
      var at := prep[Before(lay, layer) + q];
      net.Send(id, 0, ProductShare(muShares[q].0, muShares[q].1, at.lambdaA, at.lambdaB, at.delta));
    }

    lemma ProductShareIs(fi: FIPolys, inputs: seq<seq<int>>, layer: nat, q: nat)
      requires Placed() && Setting(lay, fi, inputs) && layer < |lay.mults| && q < |Layer(lay, layer)|
      requires Prepared(fi, |fi.a|) && HasMuShares(fi, inputs, layer, |Layer(lay, layer)|)
      ensures lay.batchSize > 0 && Before(lay, layer) + q < |prep| && q < |muShares|
      ensures var at := prep[Before(lay, layer) + q];
        ProductShare(muShares[q].0, muShares[q].1, at.lambdaA, at.lambdaB, at.delta) ==
          At(ProductList(lay, fi, inputs, layer)[q], id + 1)
    {
      hide Ids, WellFormed, Fresh, IOs, Mults, Layer, At, MuPoly, LambdaA, LambdaB, Delta, ProductShare, ProductPoly, MuList, ProductList, Before, Lefts, Rights;
      SizeOk(lay);
      MuListAt(lay, fi, inputs, layer, q);
      ProductListAt(lay, fi, inputs, layer, q);
      var i := Before(lay, layer) + q;
      var ms := Layer(lay, layer)[q];
      LambdaPositive(lay, fi, i);
      assert prep[i] == BatchShare(lay, fi, i, id + 1);
      ProductAt(MuPoly(lay, fi, inputs, Lefts(lay, ms)), MuPoly(lay, fi, inputs, Rights(lay, ms)),
                LambdaA(lay, fi, i), LambdaB(lay, fi, i), Delta(lay, fi, i), id + 1);
    }

    /** Everyone's shares of the listed polynomials wait for P1, in front of tail. */
    ghost predicate ForP1(cs: seq<Coeffs>, tail: seq<seq<int>>)
      requires Placed() && n > 0
      reads net.chan
    {
      |tail| == n && forall i :: 0 <= i < n ==> net.chan[i, 0] == Msgs(cs, i + 1) + tail[i]
    }

    /** P1 opens every batch of products and learns the masked values of the layer. */
    method MultP1Receives(layer: nat, ghost fi: FIPolys, ghost inputs: seq<seq<int>>, ghost tail: seq<seq<int>>)
      requires IsPrime(P61) && Placed() && n > 0 && corr.Valid() && Setting(lay, fi, inputs) && GoodFI(lay, n, fi)
      requires MuTrue(fi, inputs) && layer < |lay.mults|
      requires id == 0 ==> Known(lay, layer) <= mu.Keys && ForP1(ProductList(lay, fi, inputs, layer), tail)
      modifies this`mu, net.chan
      ensures MuTrue(fi, inputs)
      ensures id == 0 ==> Known(lay, layer + 1) <= mu.Keys && ForP1([], tail)
      ensures id != 0 ==> mu == old(mu) && forall i :: 0 <= i < n ==> net.chan[i, 0] == old(net.chan[i, 0])
      ensures forall a, b :: 0 <= a < n && 1 <= b < n ==> net.chan[a, b] == old(net.chan[a, b])
    {
      if id == 0 {
        hide Ids, WellFormed, Fresh, IOs, Mults, Layer, At, ProductList, Msgs, IsPrime, GoodFI, MuTrue, Known, ForP1, LayerLearned;
        SizeOk(lay);
        var batches := Layer(lay, layer);
        ghost var cs := ProductList(lay, fi, inputs, layer);
        assert cs[0..] == cs;
        NoneLearned(layer);
        for q := 0 to |batches|
          invariant MuTrue(fi, inputs) && old(mu.Keys) <= mu.Keys
          invariant LayerLearned(layer, q)
          invariant ForP1(cs[q..], tail)
          invariant forall a, b :: 0 <= a < n && 1 <= b < n ==> net.chan[a, b] == old(net.chan[a, b])
        {
          var shares := TakeForP1(cs, q, tail);
          LearnBatch(layer, q, shares, fi, inputs);
        }
        assert cs[|batches|..] == [];
        LayerKnown(layer);
      }
    }

    method TakeForP1(ghost cs: seq<Coeffs>, ghost q: nat, ghost tail: seq<seq<int>>) returns (shares: seq<int>)
      requires Placed() && n > 0 && id == 0 && q < |cs| && ForP1(cs[q..], tail)
      modifies net.chan
      ensures |shares| == n && forall i :: 0 <= i < n ==> shares[i] == At(cs[q], i + 1)
      ensures ForP1(cs[q + 1..], tail)
      ensures forall a, b :: 0 <= a < n && 1 <= b < n ==> net.chan[a, b] == old(net.chan[a, b])
    {
      hide At, Msgs;
      forall i | 0 <= i < n
        ensures net.chan[i, 0] == [At(cs[q], i + 1)] + (Msgs(cs[q + 1..], i + 1) + tail[i])
      {
        MsgsNext(cs, [], q, i + 1);
        assert cs[q..] + [] == cs[q..] && cs[q + 1..] + [] == cs[q + 1..];
      }
      shares := corr.RecvFromAll();
    }

    lemma NoneLearned(layer: nat)
      requires lay.batchSize > 0 && layer < |lay.mults|
      ensures LayerLearned(layer, 0)
    {
    }

    /** The gates of the first m batches of a layer are learned. */
    ghost predicate LayerLearned(layer: nat, m: nat)
      requires lay.batchSize > 0 && layer < |lay.mults| && m <= |Layer(lay, layer)|
      reads this`mu
    {
      forall q, i :: 0 <= q < m && 0 <= i < |Layer(lay, layer)[q]| && Layer(lay, layer)[q][i].Real? ==>
        Layer(lay, layer)[q][i].id in mu
    }

    lemma LayerKnown(layer: nat)
      requires WellFormed(lay) && layer < |lay.mults| && Known(lay, layer) <= mu.Keys
      requires LayerLearned(layer, |Layer(lay, layer)|)
      ensures Known(lay, layer + 1) <= mu.Keys
    {
      hide Ids, Batches, Flatten;
      forall g | g in lay.mults[layer] ensures g in mu {
        var q, i := BatchCovers(lay.batchSize, lay.mults[layer], g);
        assert Layer(lay, layer)[q][i] == Real(g);
      }
    }

    method LearnBatch(layer: nat, q: nat, shares: seq<int>, ghost fi: FIPolys, ghost inputs: seq<seq<int>>)
      requires IsPrime(P61) && Placed() && corr.Valid() && Setting(lay, fi, inputs) && GoodFI(lay, n, fi)
      requires MuTrue(fi, inputs) && layer < |lay.mults| && q < |Layer(lay, layer)| && LayerLearned(layer, q)
      requires |shares| == n && forall i :: 0 <= i < n ==> shares[i] == At(ProductList(lay, fi, inputs, layer)[q], i + 1)
      modifies this`mu
      ensures MuTrue(fi, inputs) && old(mu.Keys) <= mu.Keys && LayerLearned(layer, q + 1)
    {
      hide Ids, WellFormed, Fresh, IOs, Mults, Layer, At, ProductList, ProductOf, IsPrime, GoodFI, Rebuilt, Masked, Slot, Before;
      LayerBatch(lay, layer, q);
      ProductListAt(lay, fi, inputs, layer, q);
      var ms := Layer(lay, layer)[q];
      ghost var c := ProductList(lay, fi, inputs, layer)[q];
      var muGamma := SecretsFromSharesAndLength(shares, |ms|);
      forall j | 0 <= j < |ms| ensures muGamma[j] == MemberMasked(lay, fi, inputs, ms[j]) {
        ProductIs(lay, n, corr.threshold, fi, inputs, Before(lay, layer) + q, j);
        RebuiltIs(c, shares, Slot(j));
      }
      for i := 0 to |ms|
        invariant MuTrue(fi, inputs) && old(mu.Keys) <= mu.Keys && LayerLearned(layer, q)
        invariant forall j :: 0 <= j < i && ms[j].Real? ==> ms[j].id in mu
      {
        match ms[i] {
          case Real(g) => mu := mu[g := muGamma[i]];
          case Padding =>
        }
      }
    }

    // -------------------------------------------------------------- outputs

    /** P1 has sent the masked outputs of the first m clients, behind what was queued before. */
    ghost predicate OutputsSent(fi: FIPolys, inputs: seq<seq<int>>, queued: seq<seq<int>>, m: nat)
      requires Placed() && n > 0 && Setting(lay, fi, inputs)
      reads net.chan
    {
      && |queued| == n
      && forall c :: 0 <= c < n ==>
        net.chan[0, c] == queued[c] + if c < m then MaskedOf(lay, fi, inputs, Ids(lay.gates, OutputOf(c))) else []
    }

    /** P1 sends the masked outputs to their owners. */
    method OutputP1SendsMu(ghost fi: FIPolys, ghost inputs: seq<seq<int>>, ghost queued: seq<seq<int>>)
      requires Placed() && n > 0 && Setting(lay, fi, inputs) && MuTrue(fi, inputs)
      requires id == 0 ==> Known(lay, |lay.mults|) <= mu.Keys && OutputsSent(fi, inputs, queued, 0)
      modifies this`mu, net.chan
      ensures MuTrue(fi, inputs)
      ensures id == 0 ==> OutputsSent(fi, inputs, queued, n)
      ensures id != 0 ==> forall c :: 0 <= c < n ==> net.chan[0, c] == old(net.chan[0, c])
      ensures forall a, b :: 1 <= a < n && 0 <= b < n ==> net.chan[a, b] == old(net.chan[a, b])
    {
      if id == 0 {
        hide Ids, WellFormed, Fresh, IOs, Mults, Known, MuTrue, MaskedOf, OutputsSent;
        for client := 0 to lay.clients
          invariant MuTrue(fi, inputs) && old(mu.Keys) <= mu.Keys
          invariant OutputsSent(fi, inputs, queued, client)
          invariant forall a, b :: 1 <= a < n && 0 <= b < n ==> net.chan[a, b] == old(net.chan[a, b])
        {
          SendClient(client, fi, inputs, queued);
        }
      }
    }

    method SendClient(client: nat, ghost fi: FIPolys, ghost inputs: seq<seq<int>>, ghost queued: seq<seq<int>>)
      requires Placed() && n > 0 && id == 0 && client < n && Setting(lay, fi, inputs) && MuTrue(fi, inputs)
      requires Known(lay, |lay.mults|) <= mu.Keys && OutputsSent(fi, inputs, queued, client)
      modifies this`mu, net.chan
      ensures MuTrue(fi, inputs) && old(mu.Keys) <= mu.Keys && OutputsSent(fi, inputs, queued, client + 1)
      ensures forall a, b :: 1 <= a < n && 0 <= b < n ==> net.chan[a, b] == old(net.chan[a, b])
    {
      hide Ids, WellFormed, Fresh, IOs, Mults, Known, MuTrue, MaskedOf;
      SendOutputs(client, fi, inputs);
    }

    method SendOutputs(client: nat, ghost fi: FIPolys, ghost inputs: seq<seq<int>>)
      requires Placed() && n > 0 && id == 0 && client < n && Setting(lay, fi, inputs) && MuTrue(fi, inputs)
      requires Known(lay, |lay.mults|) <= mu.Keys
      modifies this`mu, net.chan
      ensures MuTrue(fi, inputs) && old(mu.Keys) <= mu.Keys
      ensures net.chan[0, client] == old(net.chan[0, client]) + MaskedOf(lay, fi, inputs, Ids(lay.gates, OutputOf(client)))
      ensures forall a, b :: 0 <= a < n && 0 <= b < n && (a, b) != (0, client) ==> net.chan[a, b] == old(net.chan[a, b])
    {
      hide Ids, WellFormed, Fresh, IOs, Mults, Known, MuTrue, Masked, Reachable;
      var flat := Ids(lay.gates, OutputOf(client));
      for i := 0 to |flat|
        invariant MuTrue(fi, inputs) && old(mu.Keys) <= mu.Keys
        invariant net.chan[0, client] == old(net.chan[0, client]) + MaskedOf(lay, fi, inputs, flat)[..i]
        invariant forall a, b :: 0 <= a < n && 0 <= b < n && (a, b) != (0, client) ==> net.chan[a, b] == old(net.chan[a, b])
      {
        AllReachable(lay, flat[i]);
        ReachableMore(lay, Known(lay, |lay.mults|), mu.Keys, flat[i]);
        var m := GetMu(flat[i], fi, inputs);
        net.Send(0, client, m);
      }
    }

    /** The owner adds its mask: its outputs are what the wires carry. */
    method OutputOwnerReceivesMu(ghost fi: FIPolys, ghost inputs: seq<seq<int>>, ghost tail: seq<int>)
      requires Placed() && Setting(lay, fi, inputs)
      requires forall g :: g in Ids(lay.gates, OutputOf(id)) ==> KnowsMask(fi, g)
      requires net.chan[0, id] == MaskedOf(lay, fi, inputs, Ids(lay.gates, OutputOf(id))) + tail
      modifies this`value, net.chan
      ensures HasOutputs(fi, inputs)
      ensures net.chan[0, id] == tail
      ensures forall a, b :: 0 <= a < n && 0 <= b < n && (a, b) != (0, id) ==> net.chan[a, b] == old(net.chan[a, b])
    {
      hide Ids, WellFormed, Fresh, IOs, Mults, Masked, WireValue, Add, Lambda;
      var flat := Ids(lay.gates, OutputOf(id));
      for i := 0 to |flat|
        invariant forall j :: 0 <= j < i ==> flat[j] in value && value[flat[j]] == WireValue(lay, fi, inputs, flat[j])
        invariant net.chan[0, id] == MaskedOf(lay, fi, inputs, flat)[i..] + tail
        invariant forall a, b :: 0 <= a < n && 0 <= b < n && (a, b) != (0, id) ==> net.chan[a, b] == old(net.chan[a, b])
      {
        var m := net.Recv(0, id);
        assert KnowsMask(fi, flat[i]);
        Unmasked(lay, fi, inputs, flat[i]);
        value := value[flat[i] := Add(lambda[flat[i]], m)];
      }
    }

    /** This party's outputs have been computed. */
    ghost predicate HasOutputs(fi: FIPolys, inputs: seq<seq<int>>)
      requires Setting(lay, fi, inputs)
      reads this`value
    {
      var flat := Ids(lay.gates, OutputOf(id));
      forall j :: 0 <= j < |flat| ==> flat[j] in value && value[flat[j]] == WireValue(lay, fi, inputs, flat[j])
    }

    method GetOutputs(ghost fi: FIPolys, ghost inputs: seq<seq<int>>) returns (output: seq<int>)
      requires Setting(lay, fi, inputs) && HasOutputs(fi, inputs)
      ensures output == WireOutputs(lay, fi, inputs, id)
    {
      hide Ids, WellFormed, WireValue, Fresh, IOs, Mults;
      var flat := Ids(lay.gates, OutputOf(id));
      output := [];
      for i := 0 to |flat|
        invariant output == WireOutputs(lay, fi, inputs, id)[..i]
      {
        output := output + [value[flat[i]]];
      }
    }
  }

  function PrepShare(fi: FIPolys, q: nat, x: int): MultBatchFIPrep
    requires |fi.a| == |fi.b| == |fi.c| == |fi.o1| == |fi.o2| == |fi.o3| && q < |fi.a|
  {
    MultBatchFIPrep(At(fi.a[q], x), At(fi.b[q], x), At(fi.c[q], x), At(fi.o1[q], x), At(fi.o2[q], x), At(fi.o3[q], x))
  }

  lemma BatchSize(lay: Layout, fi: FIPolys, q: nat)
    requires Enough(lay, fi) && q < |fi.a|
    ensures lay.batchSize > 0 && |Mults(lay)[q]| == lay.batchSize
  {
    hide WellFormed, Mults, Fresh, IOs;
    SizeOk(lay);
    BatchOk(lay, fi, q);
  }

  /** The next two messages. */
  lemma MsgsTwo(cs: seq<Coeffs>, q: nat, x: int)
    requires 2 * q + 1 < |cs|
    ensures Msgs(cs[..2 * (q + 1)], x) == Msgs(cs[..2 * q], x) + [At(cs[2 * q], x), At(cs[2 * q + 1], x)]
    ensures Msgs(cs[2 * q..], x) == [At(cs[2 * q], x), At(cs[2 * q + 1], x)] + Msgs(cs[2 * (q + 1)..], x)
    ensures cs[2 * q..] == [cs[2 * q], cs[2 * q + 1]] + cs[2 * (q + 1)..]
    ensures cs[..2 * (q + 1)] == cs[..2 * q] + [cs[2 * q], cs[2 * q + 1]]
  {
    hide At;
    var c, d := cs[2 * q], cs[2 * q + 1];
    assert cs[2 * q..] == [c, d] + cs[2 * (q + 1)..];
    MsgsPair(c, d, cs[2 * (q + 1)..], x);
    assert cs[..2 * (q + 1)] == cs[..2 * q] + [c, d];
    MsgsConcat(cs[..2 * q], [c, d], x);
  }

  ghost function BatchShare(lay: Layout, fi: FIPolys, q: nat, x: int): BatchShares
    requires Enough(lay, fi) && q < |fi.a|
  {
    BatchShares(At(LambdaA(lay, fi, q), x), At(LambdaB(lay, fi, q), x), At(Delta(lay, fi, q), x))
  }

  lemma BatchShareIs(lay: Layout, fi: FIPolys, q: nat, x: int, la: int, lb: int, d: int)
    requires Enough(lay, fi) && q < |fi.a| && lay.batchSize > 0
    requires |Mults(lay)[q]| == lay.batchSize && MembersOf(lay, Mults(lay)[q])
    requires var k, ms := lay.batchSize, Mults(lay)[q];
             var ra, rb := Reshared(MaskedA(lay, fi, q), k), Reshared(MaskedB(lay, fi, q), k);
             && la == At(SubP(ra, fi.a[q]), x) && lb == At(SubP(rb, fi.b[q]), x)
             && d == At(DeltaPoly(SubP([0], Pack(k, MemberPolys(lay, fi.ind, ms))), ra, rb, fi.a[q], fi.b[q], fi.c[q], fi.o3[q]), x)
    ensures BatchShare(lay, fi, q, x) == BatchShares(la, lb, d)
  {
    hide At, Fresh, MaskedPoly, Mults, IOs, WellFormed, Reshared, DeltaPoly, SubP;
  }

  lemma MineNone(batches: seq<IOBatch>, cs: seq<Coeffs>, c: nat, x: int)
    ensures Msgs(Mine(batches[..0], cs[..0], c), x) == []
  {
  }

  lemma MineStep(batches: seq<IOBatch>, cs: seq<Coeffs>, b: nat, c: nat, x: int)
    requires |batches| == |cs| && b < |cs|
    ensures Msgs(Mine(batches[..b + 1], cs[..b + 1], c), x) ==
      Msgs(Mine(batches[..b], cs[..b], c), x) + if batches[b].owner == c then [At(cs[b], x)] else []
  {
    hide At, Mine, Msgs;
    assert batches[..b + 1] == batches[..b] + [batches[b]] && cs[..b + 1] == cs[..b] + [cs[b]];
    MineAppend(batches[..b], cs[..b], batches[b], cs[b], c);
    var m := Mine(batches[..b], cs[..b], c);
    if batches[b].owner == c {
      MsgsConcat(m, [cs[b]], x);
      MsgsOne(cs[b], x);
    } else {
      assert m + [] == m;
    }
  }

  lemma MineNext(batches: seq<IOBatch>, cs: seq<Coeffs>, b: nat, c: nat, x: int)
    requires |batches| == |cs| && b < |cs|
    ensures Msgs(Mine(batches[b..], cs[b..], c), x) ==
      (if batches[b].owner == c then [At(cs[b], x)] else []) + Msgs(Mine(batches[b + 1..], cs[b + 1..], c), x)
  {
    hide At, Msgs;
    assert batches[b..][1..] == batches[b + 1..] && cs[b..][1..] == cs[b + 1..];
    var m := Mine(batches[b + 1..], cs[b + 1..], c);
    if batches[b].owner == c {
      MsgsConcat([cs[b]], m, x);
      MsgsOne(cs[b], x);
    } else {
      assert [] + m == m;
    }
  }

  lemma IOShare(io: seq<Coeffs>, b: nat, x: int)
    requires b < |io|
    ensures Msgs(io, x)[b] == At(io[b], x)
  {
  }

  ghost function MaskedOf(lay: Layout, fi: FIPolys, inputs: seq<seq<int>>, gates: seq<nat>): (r: seq<int>)
    requires Setting(lay, fi, inputs) && forall i :: 0 <= i < |gates| ==> gates[i] < |lay.gates|
    ensures |r| == |gates|
  {
    seq(|gates|, i requires 0 <= i < |gates| => Masked(lay, fi, inputs, gates[i]))
  }

  lemma InputHasOwner(lay: Layout, g: nat)
    requires WellFormed(lay) && g in Known(lay, 0)
    ensures g < |lay.gates| && lay.gates[g].InputGate? && lay.gates[g].owner < lay.clients
    ensures g in Ids(lay.gates, InputOf(lay.gates[g].owner))
  {
    var i := Position(Ids(lay.gates, AnyInput), g);
    assert Is(lay.gates[g], AnyInput);
    IdsComplete(lay.gates, InputOf(lay.gates[g].owner), g);
  }

  lemma MuPolyIs(lay: Layout, fi: FIPolys, inputs: seq<seq<int>>, ms: seq<Member>)
    requires Setting(lay, fi, inputs) && MembersOf(lay, ms) && |ms| > 0
    ensures MuPoly(lay, fi, inputs, ms) == Coefs(Packed(Maskeds(lay, fi, inputs, ms), |ms| - 1, []))
  {
  }

  lemma LambdaPositive(lay: Layout, fi: FIPolys, q: nat)
    requires Enough(lay, fi) && q < |fi.a|
    ensures |LambdaA(lay, fi, q)| > 0 && |LambdaB(lay, fi, q)| > 0
  {
    hide Fresh, IOs, Mults, MaskedA, MaskedB, Reshared;
  }

  /** The cleartext outputs of client c. */
  ghost function ClearOutputs(lay: Layout, inputs: seq<seq<int>>, c: nat): (r: seq<int>)
    requires WellFormed(lay) && Matches(lay, inputs)
    ensures |r| == |Ids(lay.gates, OutputOf(c))|
  {
    var flat := Ids(lay.gates, OutputOf(c));
    seq(|flat|, i requires 0 <= i < |flat| => Clear(lay, inputs, flat[i]))
  }

  /** What the output wires of client c carry. */
  ghost function WireOutputs(lay: Layout, fi: FIPolys, inputs: seq<seq<int>>, c: nat): (r: seq<int>)
    requires Setting(lay, fi, inputs)
    ensures |r| == |Ids(lay.gates, OutputOf(c))|
  {
    var flat := Ids(lay.gates, OutputOf(c));
    seq(|flat|, i requires 0 <= i < |flat| => WireValue(lay, fi, inputs, flat[i]))
  }

  lemma PlainOutputs(lay: Layout, fi: FIPolys, inputs: seq<seq<int>>, c: nat)
    requires Setting(lay, fi, inputs) && PlainSums(lay.gates)
    ensures WireOutputs(lay, fi, inputs, c) == ClearOutputs(lay, inputs, c)
  {
    hide Ids, WellFormed, WireValue, Fresh, IOs, Mults, PlainSums, Clear;
    var flat := Ids(lay.gates, OutputOf(c));
    forall i | 0 <= i < |flat| ensures WireOutputs(lay, fi, inputs, c)[i] == ClearOutputs(lay, inputs, c)[i] {
      PlainWires(lay, fi, inputs, flat[i]);
    }
  }
}
