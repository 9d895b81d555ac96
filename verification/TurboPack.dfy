/** The whole protocol: n parties run all phases over the network, and every client's outputs
    are the cleartext outputs of the circuit. */
module TurboPack {
  import opened Modular
  import opened Scl
  import opened Sequences
  import opened PackedSharing
  import opened Dealing
  import opened Channels
  import opened Circuits
  import opened Wiring
  import opened Preprocessing
  import opened Masking
  import opened Triples
  import opened Correlators
  import opened Parties

  // ---------------------------------------------------------------- function-independent phase

  /** Party i's correlator, in its place. */
  ghost predicate InPlace(c: Correlator, i: nat, net: Network, m: Amounts)
    reads c
  {
    && c.net == net && c.id == i && c.n == m.n && c.k == m.k && c.threshold == m.t
    && c.inds == m.inds && c.mults == m.mults && c.ios == m.ios && c.Valid()
  }

  ghost predicate AllInPlace(cs: seq<Correlator>, net: Network, m: Amounts)
    reads cs
  {
    && |cs| == m.n && net.Valid() && net.parties == m.n
    && forall i :: 0 <= i < |cs| ==> cs[i].id == i && InPlace(cs[i], i, net, m)
  }

  /** Nothing is under way. */
  ghost predicate Silent(net: Network)
    requires net.Valid()
    reads net.chan
  {
    forall a, b :: 0 <= a < net.parties && 0 <= b < net.parties ==> net.chan[a, b] == []
  }

  /** Everything one party deals, in order. */
  ghost function Outbox(m: Amounts, d: Draws): (r: seq<Coeffs>)
    requires Sizes(m.n, m.k, m.t) && Drawn(m.n, m.k, m.t, m.inds, m.mults, m.ios, d)
  {
    IndDeals(m.n, m.k, m.t, d.ind) + Flatten(UnpackedRows(m.t, d.unpacked))
      + ZeroDeals(m.n, m.k, m.t, d.zero) + Flatten(ZeroProdRows(m.n, d.zeroProd))
  }

  lemma OutboxMsgs(m: Amounts, d: Draws, x: int)
    requires Sizes(m.n, m.k, m.t) && Drawn(m.n, m.k, m.t, m.inds, m.mults, m.ios, d)
    ensures Msgs(Outbox(m, d), x) == Msgs(IndDeals(m.n, m.k, m.t, d.ind), x) + Msgs(Flatten(UnpackedRows(m.t, d.unpacked)), x)
      + Msgs(ZeroDeals(m.n, m.k, m.t, d.zero), x) + Msgs(Flatten(ZeroProdRows(m.n, d.zeroProd)), x)
  {
    hide At, Msgs, IndDeals, UnpackedRows, ZeroDeals, ZeroProdRows, RestLengths, Blocks;
    var a, b := IndDeals(m.n, m.k, m.t, d.ind), Flatten(UnpackedRows(m.t, d.unpacked));
    var c, e := ZeroDeals(m.n, m.k, m.t, d.zero), Flatten(ZeroProdRows(m.n, d.zeroProd));
    MsgsConcat(a, b, x);
    MsgsConcat(a + b, c, x);
    MsgsConcat(a + b + c, e, x);
  }

  method FIPrepSend(c: Correlator, m: Amounts, draws: Draws)
    requires InPlace(c, c.id, c.net, m) && Drawn(m.n, m.k, m.t, m.inds, m.mults, m.ios, draws)
    modifies c.net.chan
    ensures forall b :: 0 <= b < m.n ==> c.net.chan[c.id, b] == old(c.net.chan[c.id, b]) + Msgs(Outbox(m, draws), b + 1)
    ensures forall a, b :: 0 <= a < m.n && 0 <= b < m.n && a != c.id ==> c.net.chan[a, b] == old(c.net.chan[a, b])
  {
    hide At, Msgs, IndDeals, UnpackedRows, ZeroDeals, ZeroProdRows, Blocks, Units, VandermondeRow, Outbox, RestLengths;
    c.GenIndShrsPartiesSend(draws.ind);
    c.GenUnpackedShrPartiesSend(draws.unpacked);
    c.GenZeroPartiesSend(draws.zero);
    c.GenZeroForProdPartiesSend(draws.zeroProd);
    forall b | 0 <= b < m.n ensures c.net.chan[c.id, b] == old(c.net.chan[c.id, b]) + Msgs(Outbox(m, draws), b + 1) {
      OutboxMsgs(m, draws, b + 1);
    }
  }

  lemma {:induction false} SentIsFlatten(rows: seq<seq<seq<Coeffs>>>, mine: seq<seq<Coeffs>>, i: nat)
    requires |rows| == |mine| && forall r :: 0 <= r < |rows| ==> i < |rows[r]| && rows[r][i] == mine[r]
    ensures Sent(rows, i) == Flatten(mine)
  {
    if rows != [] {
      SentIsFlatten(rows[1..], mine[1..], i);
    }
  }

  ghost predicate Blank(c: Correlator)
    reads c
  {
    && c.indShrs == [] && c.multPrep == [] && c.ioPrep == [] && c.mapIndShrs == map[]
    && c.unpackedA == [] && c.unpackedB == [] && c.unpackedMask == [] && c.zeroProd == []
  }

  /** Shares of the factors, masks and zeros of every slot. */
  ghost predicate Unpackeds(c: Correlator, m: Amounts, draws: seq<Draws>)
    requires AllDrawn(m, draws)
    reads c
  {
    && |c.unpackedA| == |c.unpackedB| == |c.unpackedMask| == |c.zeroProd| == m.k
    && (forall j :: 0 <= j < m.k ==> c.unpackedA[j] == Msgs(Fa(m, draws)[j], c.id + 1))
    && (forall j :: 0 <= j < m.k ==> c.unpackedB[j] == Msgs(Fb(m, draws)[j], c.id + 1))
    && (forall j :: 0 <= j < m.k ==> c.unpackedMask[j] == Msgs(Fm(m, draws)[j], c.id + 1))
    && (forall j :: 0 <= j < m.k ==> c.zeroProd[j] == Msgs(FzRow(m, draws, j), c.id + 1))
  }

  /** What a correlator holds: shares of everything, the products being there or not yet. */
  ghost predicate HasPrep(c: Correlator, m: Amounts, draws: seq<Draws>, products: bool)
    requires AllDrawn(m, draws)
    reads c
  {
    var fi := Preprocessed(m, draws);
    && c.indShrs == Msgs(fi.ind, c.id + 1) && c.ioPrep == Msgs(fi.io, c.id + 1)
    && |c.multPrep| == m.mults
    && forall q :: 0 <= q < m.mults ==>
      c.multPrep[q] == if products then PrepShare(fi, q, c.id + 1) else PrepShare(fi, q, c.id + 1).(mShrC := F(0))
  }

  /** What waits behind a row of sharings. */
  ghost function Behind(m: Amounts, draws: seq<Draws>, x: int, rows: nat): (r: seq<seq<int>>)
    requires AllDrawn(m, draws)
    ensures |r| == m.n
  {
    seq(m.n, i requires 0 <= i < m.n =>
      var zp := Msgs(Flatten(ZeroProdRows(m.n, draws[i].zeroProd)), x);
      var z := Msgs(ZeroDeals(m.n, m.k, m.t, draws[i].zero), x);
      var u := Msgs(Flatten(UnpackedRows(m.t, draws[i].unpacked)), x);
      if rows == 0 then [] else if rows == 1 then zp else if rows == 2 then z + zp else u + (z + zp))
  }

  lemma OutboxInRows(m: Amounts, draws: seq<Draws>, x: int, i: nat)
    requires AllDrawn(m, draws) && i < m.n
    ensures Msgs(Outbox(m, draws[i]), x) == Msgs(IndAll(m, draws)[i], x) + Behind(m, draws, x, 3)[i]
    ensures Behind(m, draws, x, 3)[i] == Msgs(Sent(UnpackedAll(m, draws), i), x) + Behind(m, draws, x, 2)[i]
    ensures Behind(m, draws, x, 2)[i] == Msgs(ZeroAll(m, draws)[i], x) + Behind(m, draws, x, 1)[i]
    ensures Behind(m, draws, x, 1)[i] == Msgs(Sent(ZeroProdAll(m, draws), i), x) + Behind(m, draws, x, 0)[i]
  {
    hide At, Msgs, IndDeals, UnpackedDeals, ZeroDeals, ZeroProdDeals, RestLengths, Blocks, Flatten, Outbox, Sent;
    OutboxMsgs(m, draws[i], x);
    SentIsFlatten(UnpackedAll(m, draws), UnpackedRows(m.t, draws[i].unpacked), i);
    SentIsFlatten(ZeroProdAll(m, draws), ZeroProdRows(m.n, draws[i].zeroProd), i);
  }

  lemma WaitingInd(c: Correlator, m: Amounts, draws: seq<Draws>)
    requires AllDrawn(m, draws) && InPlace(c, c.id, c.net, m)
    requires forall i :: 0 <= i < m.n ==> c.net.chan[i, c.id] == Msgs(Outbox(m, draws[i]), c.id + 1)
    ensures c.Waiting(IndAll(m, draws), Behind(m, draws, c.id + 1, 3))
  {
    hide Msgs, Outbox, IndAll, Behind, Drawn, Units, VandermondeRow;
    forall i | 0 <= i < m.n
      ensures c.net.chan[i, c.id] == Msgs(IndAll(m, draws)[i], c.id + 1) + Behind(m, draws, c.id + 1, 3)[i]
    {
      OutboxInRows(m, draws, c.id + 1, i);
    }
  }

  lemma WaitingUnpacked(c: Correlator, m: Amounts, draws: seq<Draws>)
    requires AllDrawn(m, draws) && InPlace(c, c.id, c.net, m) && c.Received(Behind(m, draws, c.id + 1, 3))
    requires RowsExactly(UnpackedAll(m, draws), m.n, Blocks(3 * m.mults, m.t))
    ensures c.RowsWaiting(UnpackedAll(m, draws), Behind(m, draws, c.id + 1, 2))
  {
    hide Msgs, Outbox, UnpackedAll, Behind, Drawn, Units, VandermondeRow, Sent, DealtExactly, Blocks;
    forall i | 0 <= i < m.n
      ensures c.net.chan[i, c.id] == Msgs(Sent(UnpackedAll(m, draws), i), c.id + 1) + Behind(m, draws, c.id + 1, 2)[i]
    {
      OutboxInRows(m, draws, c.id + 1, i);
    }
  }

  lemma WaitingZero(c: Correlator, m: Amounts, draws: seq<Draws>)
    requires AllDrawn(m, draws) && InPlace(c, c.id, c.net, m) && c.Received(Behind(m, draws, c.id + 1, 2))
    ensures c.Waiting(ZeroAll(m, draws), Behind(m, draws, c.id + 1, 1))
  {
    hide Msgs, Outbox, ZeroAll, Behind, Drawn, Units, VandermondeRow;
    forall i | 0 <= i < m.n
      ensures c.net.chan[i, c.id] == Msgs(ZeroAll(m, draws)[i], c.id + 1) + Behind(m, draws, c.id + 1, 1)[i]
    {
      OutboxInRows(m, draws, c.id + 1, i);
    }
  }

  lemma WaitingZeroProd(c: Correlator, m: Amounts, draws: seq<Draws>)
    requires AllDrawn(m, draws) && InPlace(c, c.id, c.net, m) && c.Received(Behind(m, draws, c.id + 1, 1))
    requires RowsExactly(ZeroProdAll(m, draws), m.n, Blocks(m.mults, m.t))
    ensures c.RowsWaiting(ZeroProdAll(m, draws), Behind(m, draws, c.id + 1, 0))
  {
    hide Msgs, Outbox, ZeroProdAll, Behind, Drawn, Units, VandermondeRow, Sent, DealtExactly, Blocks;
    forall i | 0 <= i < m.n
      ensures c.net.chan[i, c.id] == Msgs(Sent(ZeroProdAll(m, draws), i), c.id + 1) + Behind(m, draws, c.id + 1, 0)[i]
    {
      OutboxInRows(m, draws, c.id + 1, i);
    }
  }

  lemma NothingBehind(c: Correlator, m: Amounts, draws: seq<Draws>)
    requires AllDrawn(m, draws) && InPlace(c, c.id, c.net, m) && c.Received(Behind(m, draws, c.id + 1, 0))
    ensures forall i :: 0 <= i < m.n ==> c.net.chan[i, c.id] == []
  {
    hide Msgs, Drawn, Units, VandermondeRow;
  }

  /** Factors, then zeros: the batches hold everything but the products. */
  lemma BatchesMixed(m: Amounts, draws: seq<Draws>, before: seq<MultBatchFIPrep>, after: seq<MultBatchFIPrep>, x: int)
    requires AllDrawn(m, draws)
    requires Factors(before, Fa(m, draws), Fb(m, draws), m.mults, m.mults, x)
    requires ZerosSet(before, after, Msgs(Zs(m, draws), x), m.mults)
    ensures |after| == m.mults
    ensures forall q :: 0 <= q < m.mults ==>
      after[q] == PrepShare(Preprocessed(m, draws), q, x).(mShrC := F(0))
  {
    hide At, F, AllDrawn, Fa, Fb, Fc, Zs, Inds, PackColumn;
    var fi, zs := Preprocessed(m, draws), Zs(m, draws);
    forall q | 0 <= q < m.mults ensures after[q] == PrepShare(fi, q, x).(mShrC := F(0)) {
      assert fi.o1[q] == zs[q] && fi.o2[q] == zs[m.mults + q] && fi.o3[q] == zs[2 * m.mults + q];
      assert fi.a[q] == PackColumn(Fa(m, draws), m.mults, q) && fi.b[q] == PackColumn(Fb(m, draws), m.mults, q);
      var ms := Msgs(zs, x);
      assert ms[q] == At(zs[q], x) && ms[m.mults + q] == At(zs[m.mults + q], x) && ms[2 * m.mults + q] == At(zs[2 * m.mults + q], x);
      assert after[q] == before[q].(mShrO1 := ms[q], mShrO2 := ms[m.mults + q], mShrO3 := ms[2 * m.mults + q]);
      assert before[q] == MultBatchFIPrep(At(fi.a[q], x), At(fi.b[q], x), F(0), F(0), F(0), F(0));
    }
  }

  method FIPrepRecv(c: Correlator, ghost m: Amounts, ghost draws: seq<Draws>)
    requires AllDrawn(m, draws) && InPlace(c, c.id, c.net, m) && Blank(c)
    requires forall i :: 0 <= i < m.n ==> c.net.chan[i, c.id] == Msgs(Outbox(m, draws[i]), c.id + 1)
    modifies c`indShrs, c`multPrep, c`ioPrep, c`unpackedA, c`unpackedB, c`unpackedMask, c`zeroProd, c.net.chan
    ensures InPlace(c, c.id, c.net, m) && HasPrep(c, m, draws, false) && Unpackeds(c, m, draws)
    ensures c.mapIndShrs == map[]
    ensures forall i :: 0 <= i < m.n ==> c.net.chan[i, c.id] == []
    ensures forall a, b :: 0 <= a < m.n && 0 <= b < m.n && b != c.id ==> c.net.chan[a, b] == old(c.net.chan[a, b])
  {
    hide At, Msgs, Blocks, Outbox, IndAll, UnpackedAll, ZeroAll, ZeroProdAll, MixBlocks, FirstRows, SecondRows, MaskRows,
      AllDrawn, Behind, Correlator.Waiting, Correlator.RowsWaiting, Correlator.Received, Factors, ZerosSet, RowsExactly,
      RowsDealt, DealtExactly, Units, VandermondeRow, PrepShare, PackAll, Fc, Sizes;
    ghost var x := c.id + 1;
    SizesHold(m, draws);
    DealtAll(m, draws);
    WaitingInd(c, m, draws);
    c.GenIndShrsPartiesReceive(IndAll(m, draws), Behind(m, draws, x, 3));
    WaitingUnpacked(c, m, draws);
    c.GenUnpackedShrPartiesReceive(UnpackedAll(m, draws), Behind(m, draws, x, 2));
    ghost var before := c.multPrep;
    FactorsSize(before, Fa(m, draws), Fb(m, draws), m.mults, x);
    WaitingZero(c, m, draws);
    c.GenZeroPartiesReceive(ZeroAll(m, draws), Behind(m, draws, x, 1));
    BatchesMixed(m, draws, before, c.multPrep, x);
    WaitingZeroProd(c, m, draws);
    c.GenZeroForProdPartiesReceive(ZeroProdAll(m, draws), Behind(m, draws, x, 0));
    NothingBehind(c, m, draws);
    ZeroProdRowsAre(m, draws);
  }

  lemma FactorsSize(preps: seq<MultBatchFIPrep>, fa: seq<seq<Coeffs>>, fb: seq<seq<Coeffs>>, mults: nat, x: int)
    requires Grid(fa, mults) && Grid(fb, mults) && Factors(preps, fa, fb, mults, mults, x)
    ensures |preps| == mults
  {
  }

  lemma ZeroProdRowsAre(m: Amounts, draws: seq<Draws>)
    requires AllDrawn(m, draws) && RowsDealt(ZeroProdAll(m, draws), Blocks(m.mults, m.t))
    ensures forall j :: 0 <= j < m.k ==> MixBlocks(ZeroProdAll(m, draws)[j], m.t, Blocks(m.mults, m.t)) == FzRow(m, draws, j)
  {
    hide AllDrawn, MixBlocks, Blocks, ZeroProdSlot;
  }

  /** Everyone sends. */
  method FIPrepSendAll(cs: seq<Correlator>, net: Network, m: Amounts, draws: seq<Draws>)
    requires AllDrawn(m, draws) && AllInPlace(cs, net, m) && Silent(net)
    modifies net.chan
    ensures AllSent(net, m, draws, 0)
  {
    hide InPlace, Msgs, Outbox, AllDrawn;
    InPlaceNets(cs, net, m);
    for i := 0 to m.n
      invariant forall a, b :: 0 <= a < m.n && 0 <= b < m.n ==>
        net.chan[a, b] == if a < i then OutMsgs(m, draws, a, b + 1) else []
    {
      DrawnOne(m, draws, i);
      FIPrepSend(cs[i], m, draws[i]);
      OutMsgsIs(m, draws, i);
    }
  }

  /** The parties from first on have not yet received what everyone dealt. */
  ghost predicate AllSent(net: Network, m: Amounts, draws: seq<Draws>, first: nat)
    requires AllDrawn(m, draws) && net.Valid() && net.parties == m.n
    reads net.chan
  {
    forall a, b :: 0 <= a < m.n && 0 <= b < m.n ==>
      net.chan[a, b] == if b < first then [] else OutMsgs(m, draws, a, b + 1)
  }

  method FIPrepOne(c: Correlator, net: Network, ghost m: Amounts, ghost draws: seq<Draws>)
    requires AllDrawn(m, draws) && InPlace(c, c.id, net, m) && Blank(c)
    requires net.Valid() && net.parties == m.n && c.id < m.n && AllSent(net, m, draws, c.id)
    modifies c, net.chan
    ensures AllSent(net, m, draws, c.id + 1)
    ensures InPlace(c, c.id, net, m) && HasPrep(c, m, draws, false) && Unpackeds(c, m, draws) && c.mapIndShrs == map[]
  {
    hide Blank, HasPrep, Unpackeds, Msgs, Outbox, AllDrawn, Units, VandermondeRow;
    OutMsgsAll(m, draws, c.id + 1);
    FIPrepRecv(c, m, draws);
  }

  /** Everyone sends, then everyone receives and mixes. */
  method FIPrepAll(cs: seq<Correlator>, net: Network, m: Amounts, draws: seq<Draws>)
    requires AllDrawn(m, draws) && AllInPlace(cs, net, m) && Silent(net)
    requires forall i :: 0 <= i < m.n ==> Blank(cs[i])
    modifies cs, net.chan
    ensures AllInPlace(cs, net, m) && Silent(net)
    ensures forall i :: 0 <= i < m.n ==> HasPrep(cs[i], m, draws, false) && Unpackeds(cs[i], m, draws) && cs[i].mapIndShrs == map[]
  {
    hide InPlace, HasPrep, Unpackeds, OutMsgs, AllDrawn, Blank;
    FIPrepSendAll(cs, net, m, draws);
    for i := 0 to m.n
      invariant forall j :: 0 <= j < m.n ==> InPlace(cs[j], j, net, m)
      invariant forall j :: i <= j < m.n ==> Blank(cs[j])
      invariant forall j :: 0 <= j < i ==> HasPrep(cs[j], m, draws, false) && Unpackeds(cs[j], m, draws) && cs[j].mapIndShrs == map[]
      invariant AllSent(net, m, draws, i)
    {
      FIPrepOne(cs[i], net, m, draws);
    }
  }

  ghost function OutMsgs(m: Amounts, draws: seq<Draws>, i: nat, x: int): seq<int>
    requires AllDrawn(m, draws) && i < m.n
  {
    Msgs(Outbox(m, draws[i]), x)
  }

  lemma OutMsgsIs(m: Amounts, draws: seq<Draws>, i: nat)
    requires AllDrawn(m, draws) && i < m.n
    ensures forall x: int :: OutMsgs(m, draws, i, x) == Msgs(Outbox(m, draws[i]), x)
  {
    hide Msgs, Outbox;
  }

  lemma OutMsgsAll(m: Amounts, draws: seq<Draws>, x: int)
    requires AllDrawn(m, draws)
    ensures forall i :: 0 <= i < m.n ==> OutMsgs(m, draws, i, x) == Msgs(Outbox(m, draws[i]), x)
  {
    hide Msgs, Outbox;
  }

  lemma DrawnOne(m: Amounts, draws: seq<Draws>, i: nat)
    requires AllDrawn(m, draws) && i < m.n
    ensures Sizes(m.n, m.k, m.t) && i < |draws| && Drawn(m.n, m.k, m.t, m.inds, m.mults, m.ios, draws[i])
  {
  }

  lemma InPlaceNets(cs: seq<Correlator>, net: Network, m: Amounts)
    requires AllInPlace(cs, net, m)
    ensures forall i :: 0 <= i < m.n ==> cs[i].net == net && cs[i].n == m.n && cs[i].k == m.k && cs[i].mults == m.mults
  {
  }

  // ---------------------------------------------------------------- products

  ghost function NoTail(n: nat): (r: seq<seq<int>>)
    ensures |r| == n && forall i :: 0 <= i < n ==> r[i] == []
  {
    seq(n, _ => [])
  }

  /** Only P1's channel is filled: everyone's shares of the listed polynomials. */
  ghost predicate OnlyToP1(net: Network, cs: seq<Coeffs>, first: nat)
    requires net.Valid()
    reads net.chan
  {
    forall a, b :: 0 <= a < net.parties && 0 <= b < net.parties ==>
      net.chan[a, b] == if b == 0 && a < first then Msgs(cs, a + 1) else []
  }

  /** Only P1 has sent: shares of the listed polynomials to the parties from first on. */
  ghost predicate OnlyFromP1(net: Network, cs: seq<Coeffs>, first: nat)
    requires net.Valid()
    reads net.chan
  {
    forall a, b :: 0 <= a < net.parties && 0 <= b < net.parties ==>
      net.chan[a, b] == if a == 0 && b >= first then Msgs(cs, b + 1) else []
  }

  method ProdSendAll(cs: seq<Correlator>, net: Network, m: Amounts, ghost draws: seq<Draws>)
    requires AllDrawn(m, draws) && AllInPlace(cs, net, m) && Silent(net)
    requires forall i :: 0 <= i < m.n ==> Unpackeds(cs[i], m, draws)
    modifies net.chan
    ensures OnlyToP1(net, Flatten(Prods(m, draws)), m.n)
  {
    hide Unpackeds, Msgs, AllDrawn, Prods, Units, VandermondeRow, Flatten;
    InPlaceNets(cs, net, m);
    for i := 0 to m.n
      invariant OnlyToP1(net, Flatten(Prods(m, draws)), i)
    {
      ProdSendOne(cs[i], m, draws);
    }
  }

  method ProdSendOne(c: Correlator, m: Amounts, ghost draws: seq<Draws>)
    requires AllDrawn(m, draws) && InPlace(c, c.id, c.net, m) && Unpackeds(c, m, draws)
    modifies c.net.chan
    ensures c.net.chan[c.id, 0] == old(c.net.chan[c.id, 0]) + Msgs(Flatten(Prods(m, draws)), c.id + 1)
    ensures forall a, b :: 0 <= a < m.n && 0 <= b < m.n && (a, b) != (c.id, 0) ==> c.net.chan[a, b] == old(c.net.chan[a, b])
  {
    hide Msgs, AllDrawn, Units, VandermondeRow, Flatten, Fa, Fb, Fm, FzRow, ProdRow;
    c.GenProdPartiesSendP1(Fa(m, draws), Fb(m, draws), Fm(m, draws), Fz(m, draws), Prods(m, draws));
  }

  method ProdOpenOne(c: Correlator, net: Network, m: Amounts, ghost draws: seq<Draws>)
    requires IsPrime(P61) && AllDrawn(m, draws) && InPlace(c, c.id, net, m) && net.parties == m.n
    requires if c.id == 0 then OnlyToP1(net, Flatten(Prods(m, draws)), m.n) else OnlyFromP1(net, Flatten(Backs(m, draws)), m.t)
    modifies net.chan
    ensures OnlyFromP1(net, Flatten(Backs(m, draws)), m.t)
  {
    hide Msgs, AllDrawn, Units, VandermondeRow, Flatten, Prods, IsPrime, Lengths;
    SizesHold(m, draws);
    forall j | 0 <= j < m.k ensures |Prods(m, draws)[j]| == m.mults && Lengths(Prods(m, draws)[j], m.n) {
      ProdLengths(m, draws, j);
    }
    forall x: int ensures Msgs([], x) == [] { MsgsNone(x); }
    c.GenProdP1ReceivesAndSends(Prods(m, draws), NoTail(m.n), NoTail(m.n));
  }

  method ProdOpenAll(cs: seq<Correlator>, net: Network, m: Amounts, ghost draws: seq<Draws>)
    requires IsPrime(P61) && AllDrawn(m, draws) && AllInPlace(cs, net, m)
    requires OnlyToP1(net, Flatten(Prods(m, draws)), m.n)
    modifies net.chan
    ensures OnlyFromP1(net, Flatten(Backs(m, draws)), m.t)
  {
    hide AllDrawn, Flatten, Prods, Backs, IsPrime, OnlyToP1, OnlyFromP1, InPlace;
    InPlaceNets(cs, net, m);
    SizesHold(m, draws);
    for i := 0 to m.n
      invariant if i == 0 then OnlyToP1(net, Flatten(Prods(m, draws)), m.n) else OnlyFromP1(net, Flatten(Backs(m, draws)), m.t)
      invariant AllInPlace(cs, net, m)
    {
      ProdOpenOne(cs[i], net, m, draws);
    }
  }

  /** The parties from first on have not yet received what P1 returned. */
  ghost predicate BacksWaiting(net: Network, m: Amounts, back: seq<Coeffs>, first: nat)
    requires net.Valid()
    reads net.chan
  {
    OnlyFromP1(net, back, if first < m.t then m.t else first)
  }

  method ProdRecvOne(c: Correlator, net: Network, ghost m: Amounts, ghost draws: seq<Draws>)
    requires IsPrime(P61) && AllDrawn(m, draws) && InPlace(c, c.id, net, m) && net.Valid() && net.parties == m.n && c.id < m.n
    requires HasPrep(c, m, draws, false) && Unpackeds(c, m, draws) && BacksWaiting(net, m, Flatten(Backs(m, draws)), c.id)
    modifies c`multPrep, net.chan
    ensures BacksWaiting(net, m, Flatten(Backs(m, draws)), c.id + 1)
    ensures InPlace(c, c.id, net, m) && HasPrep(c, m, draws, true)
  {
    hide Msgs, AllDrawn, Units, VandermondeRow, Flatten, Prods, Backs, IsPrime, Fa, Fb, Fm, Fc, FzRow, PackAll, Zs, Inds, At, F;
    SizesHold(m, draws);
    if c.id < m.t {
      forall j, q | 0 <= j < m.k && 0 <= q < m.mults ensures At(Backs(m, draws)[j][q], c.id + 1) == F(0) {
        BackZero(m, draws, j, q, c.id);
      }
    }
    ghost var before := c.multPrep;
    c.GenProdPartiesReceive(Backs(m, draws), Fm(m, draws), []);
    TriplesHeld(m, draws, before, c.multPrep, c.id + 1);
  }

  lemma BackZero(m: Amounts, draws: seq<Draws>, j: nat, q: nat, i: nat)
    requires IsPrime(P61) && AllDrawn(m, draws) && j < m.k && q < m.mults && i < m.t
    ensures At(Backs(m, draws)[j][q], i + 1) == F(0)
  {
    hide At, F, IsPrime, AllDrawn, Fa, Fb, Fm, FzRow, Returned;
    SizesHold(m, draws);
    ReturnedZero(At(Prods(m, draws)[j][q], Slot(j)), j, m.t, i);
  }

  lemma TriplesHeld(m: Amounts, draws: seq<Draws>, before: seq<MultBatchFIPrep>, after: seq<MultBatchFIPrep>, x: int)
    requires AllDrawn(m, draws) && |before| == m.mults
    requires TriplesCompleted(before, after, SubRows(Backs(m, draws), Fm(m, draws), m.mults), m.mults, x)
    requires forall q :: 0 <= q < m.mults ==> before[q] == PrepShare(Preprocessed(m, draws), q, x).(mShrC := F(0))
    ensures |after| == m.mults
    ensures forall q :: 0 <= q < m.mults ==> after[q] == PrepShare(Preprocessed(m, draws), q, x)
  {
    hide At, F, AllDrawn, Fa, Fb, Fm, Backs, Zs, Inds, PackColumn;
    var fi := Preprocessed(m, draws);
    forall q | 0 <= q < m.mults ensures after[q] == PrepShare(fi, q, x) {
      assert fi.c[q] == PackColumn(Fc(m, draws), m.mults, q);
    }
  }

  /** Products: everyone sends, P1 opens and returns, everyone receives; all triples are complete. */
  method ProdAll(cs: seq<Correlator>, net: Network, m: Amounts, ghost draws: seq<Draws>)
    requires IsPrime(P61) && AllDrawn(m, draws) && AllInPlace(cs, net, m) && Silent(net)
    requires forall i :: 0 <= i < m.n ==> HasPrep(cs[i], m, draws, false) && Unpackeds(cs[i], m, draws)
    requires forall i :: 0 <= i < m.n ==> cs[i].mapIndShrs == map[]
    modifies cs, net.chan
    ensures AllInPlace(cs, net, m) && Silent(net)
    ensures forall i :: 0 <= i < m.n ==> HasPrep(cs[i], m, draws, true) && cs[i].mapIndShrs == map[]
  {
    hide InPlace, HasPrep, Unpackeds, AllDrawn, Flatten, Prods, Backs, IsPrime;
    ProdSendAll(cs, net, m, draws);
    ProdOpenAll(cs, net, m, draws);
    for i := 0 to m.n
      invariant forall j :: 0 <= j < m.n ==> InPlace(cs[j], j, net, m) && cs[j].mapIndShrs == map[]
      invariant forall j :: i <= j < m.n ==> HasPrep(cs[j], m, draws, false) && Unpackeds(cs[j], m, draws)
      invariant forall j :: 0 <= j < i ==> HasPrep(cs[j], m, draws, true)
      invariant BacksWaiting(net, m, Flatten(Backs(m, draws)), i)
    {
      ProdRecvOne(cs[i], net, m, draws);
    }
  }

  // ---------------------------------------------------------------- function-dependent phase

  /** Every party in its place, holding its part of the preprocessing. */
  ghost predicate Ready(ps: seq<Party>, net: Network, lay: Layout, fi: FIPolys)
    reads set p | p in ps :: p.corr
  {
    && net.Valid() && net.parties == |ps| == lay.clients
    && forall i :: 0 <= i < |ps| ==> PartyReady(ps[i], i, net, lay, fi)
  }

  ghost predicate PartyReady(p: Party, i: nat, net: Network, lay: Layout, fi: FIPolys)
    reads p.corr
  {
    p.id == i && p.net == net && p.lay == lay && p.n == net.parties && p.Holds(fi)
  }

  lemma ReadyOne(ps: seq<Party>, net: Network, lay: Layout, fi: FIPolys)
    requires Ready(ps, net, lay, fi)
    ensures forall i :: 0 <= i < |ps| ==> ps[i].id == i && ps[i].net == net && ps[i].lay == lay && ps[i].n == |ps| && ps[i].Placed()
    ensures forall i :: 0 <= i < |ps| ==> PartyReady(ps[i], i, net, lay, fi)
    ensures Enough(lay, fi) || |ps| == 0
  {
    hide Enough, GoodFI;
    if |ps| > 0 {
      assert PartyReady(ps[0], 0, net, lay, fi);
    }
  }

  method MultPrepAll(ps: seq<Party>, net: Network, lay: Layout, ghost fi: FIPolys)
    requires IsPrime(P61) && Ready(ps, net, lay, fi) && |ps| > 0 && Silent(net) && Enough(lay, fi)
    modifies net.chan
    ensures OnlyFromP1(net, ReshareList(lay, fi), 0)
  {
    hide Msgs, Enough, IsPrime, MaskList, ReshareList, Party.Holds, OnlyFromP1, OnlyToP1;
    MaskSendAll(ps, net, lay, fi);
    MaskRelayAll(ps, net, lay, fi);
  }

  method MaskSendAll(ps: seq<Party>, net: Network, lay: Layout, ghost fi: FIPolys)
    requires Ready(ps, net, lay, fi) && Silent(net) && Enough(lay, fi)
    modifies net.chan
    ensures OnlyToP1(net, MaskList(lay, fi), |ps|)
  {
    hide Msgs, Enough, IsPrime, MaskList, ReshareList, Party.Holds;
    ReadyOne(ps, net, lay, fi);
    for i := 0 to |ps|
      invariant OnlyToP1(net, MaskList(lay, fi), i)
    {
      ps[i].PrepMultPartiesSendP1(fi);
    }
  }

  method MaskRelayAll(ps: seq<Party>, net: Network, lay: Layout, ghost fi: FIPolys)
    requires IsPrime(P61) && Ready(ps, net, lay, fi) && |ps| > 0 && Enough(lay, fi)
    requires OnlyToP1(net, MaskList(lay, fi), |ps|)
    modifies net.chan
    ensures OnlyFromP1(net, ReshareList(lay, fi), 0)
  {
    hide Msgs, Enough, IsPrime, MaskList, ReshareList, Party.Holds;
    ReadyOne(ps, net, lay, fi);
    forall x: int ensures Msgs([], x) == [] { MsgsNone(x); }
    for i := 0 to |ps|
      invariant if i == 0 then OnlyToP1(net, MaskList(lay, fi), |ps|) else OnlyFromP1(net, ReshareList(lay, fi), 0)
    {
      ps[i].PrepMultP1ReceivesAndSends(fi, NoTail(|ps|), NoTail(|ps|));
    }
  }

  /** Reshared masks still wait for the parties from m on, and shares of the owners' masks have
      been sent by the parties below s and received by the owners below r. */
  ghost predicate Preparing(net: Network, lay: Layout, fi: FIPolys, s: nat, m: nat, r: nat)
    requires net.Valid() && Enough(lay, fi)
    reads net.chan
  {
    forall a, b :: 0 <= a < net.parties && 0 <= b < net.parties ==>
      net.chan[a, b] == (if a == 0 && b >= m then Msgs(ReshareList(lay, fi), b + 1) else [])
        + (if a < s && b >= r then Msgs(Mine(IOs(lay), IOList(lay, fi), b), a + 1) else [])
  }

  method IOSendAll(ps: seq<Party>, net: Network, lay: Layout, ghost fi: FIPolys)
    requires Ready(ps, net, lay, fi) && Enough(lay, fi)
    requires OnlyFromP1(net, ReshareList(lay, fi), 0)
    modifies net.chan
    ensures Preparing(net, lay, fi, |ps|, 0, 0)
  {
    hide Msgs, Enough, ReshareList, Party.Holds, IOList, Mine, IOs;
    ReadyOne(ps, net, lay, fi);
    for i := 0 to |ps|
      invariant Preparing(net, lay, fi, i, 0, 0)
    {
      ps[i].PrepIOPartiesSendOwner(fi);
    }
  }

  /** What a party knows after the function-dependent phase. */
  ghost predicate Prepped(p: Party, fi: FIPolys, masks: bool)
    requires Enough(p.lay, fi)
    reads p`prep, p`lambda
  {
    p.Prepared(fi, |fi.a|) && (masks ==> p.KnowsMasks(fi, |IOs(p.lay)|))
  }

  method MultRecvOne(p: Party, net: Network, ghost lay: Layout, ghost fi: FIPolys, ghost n: nat)
    requires Enough(lay, fi) && net.Valid() && PartyReady(p, p.id, net, lay, fi) && p.prep == [] && net.parties == n
    requires Preparing(net, lay, fi, n, p.id, 0)
    modifies p`prep, net.chan
    ensures Preparing(net, lay, fi, n, p.id + 1, 0) && Prepped(p, fi, false)
  {
    hide Msgs, Enough, ReshareList, Party.Holds, IOList, Mine, IOs, Party.Prepared;
    HoldsPlaced(p, fi);
    EnoughSize(lay, fi);
    p.PrepMultPartiesReceive(fi, if p.id < n then Msgs(Mine(IOs(lay), IOList(lay, fi), p.id), 1) else []);
  }

  lemma EnoughSize(lay: Layout, fi: FIPolys)
    requires Enough(lay, fi)
    ensures lay.batchSize > 0
  {
  }

  lemma HoldsPlaced(p: Party, fi: FIPolys)
    requires p.Holds(fi)
    ensures p.Placed() && p.n > 0
  {
  }

  method IORecvOne(p: Party, net: Network, ghost lay: Layout, ghost fi: FIPolys, ghost n: nat)
    requires IsPrime(P61) && Enough(lay, fi) && net.Valid() && PartyReady(p, p.id, net, lay, fi) && net.parties == n
    requires Preparing(net, lay, fi, n, n, p.id) && Prepped(p, fi, false)
    modifies p`lambda, net.chan
    ensures Preparing(net, lay, fi, n, n, p.id + 1) && Prepped(p, fi, true)
  {
    hide Msgs, Enough, ReshareList, Party.Holds, IOList, Mine, IOs, Party.Prepared, Party.KnowsMasks, IsPrime;
    HoldsPlaced(p, fi);
    p.PrepIOOwnerReceives(fi, NoTail(n));
  }

  /** The function-dependent phase: packed masks and corrections for every batch, and every
      owner's masks. */
  method FDPrepAll(ps: seq<Party>, net: Network, lay: Layout, ghost fi: FIPolys)
    requires IsPrime(P61) && Ready(ps, net, lay, fi) && |ps| > 0 && Silent(net) && Enough(lay, fi)
    requires forall i :: 0 <= i < |ps| ==> ps[i].prep == []
    requires forall i :: 0 <= i < |ps| ==> ps[i].mu == map[]
    modifies ps, net.chan
    ensures Silent(net)
    ensures forall i :: 0 <= i < |ps| ==> Prepped(ps[i], fi, true) && ps[i].mu == map[]
  {
    hide Msgs, Enough, ReshareList, IOList, Mine, IOs, Prepped, IsPrime, Party.Holds;
    ReadyOne(ps, net, lay, fi);
    MultPrepAll(ps, net, lay, fi);
    IOSendAll(ps, net, lay, fi);
    for i := 0 to |ps|
      invariant Preparing(net, lay, fi, |ps|, i, 0)
      invariant forall j :: 0 <= j < |ps| ==> ps[j].mu == map[]
      invariant forall j :: i <= j < |ps| ==> ps[j].prep == []
      invariant forall j :: 0 <= j < i ==> Prepped(ps[j], fi, false)
    {
      MultRecvOne(ps[i], net, lay, fi, |ps|);
    }
    for i := 0 to |ps|
      invariant Preparing(net, lay, fi, |ps|, |ps|, i)
      invariant forall j :: 0 <= j < |ps| ==> ps[j].mu == map[]
      invariant forall j :: i <= j < |ps| ==> Prepped(ps[j], fi, false)
      invariant forall j :: 0 <= j < i ==> Prepped(ps[j], fi, true)
    {
      IORecvOne(ps[i], net, lay, fi, |ps|);
    }
  }

  // ---------------------------------------------------------------- online phase

  /** Every gate of an owner is masked with a mask it knows. */
  lemma OwnMasks(p: Party, fi: FIPolys)
    requires p.Holds(fi) && Prepped(p, fi, true)
    ensures forall g :: g in Ids(p.lay.gates, InputOf(p.id)) ==> p.KnowsMask(fi, g)
    ensures forall g :: g in Ids(p.lay.gates, OutputOf(p.id)) ==> p.KnowsMask(fi, g)
  {
    hide Ids, Party.KnowsMask, Party.Prepared, WellFormed, InputBatches, OutputBatches, Fresh, GoodFI;
    SizeOk(p.lay);
    forall g | g in Ids(p.lay.gates, InputOf(p.id)) ensures p.KnowsMask(fi, g) {
      var b, i := InputCovered(p.lay, p.id, g);
      assert IOs(p.lay)[b].members[i] == Real(g);
    }
    forall g | g in Ids(p.lay.gates, OutputOf(p.id)) ensures p.KnowsMask(fi, g) {
      var b, i := OutputCovered(p.lay, p.id, g);
      assert IOs(p.lay)[b].members[i] == Real(g);
    }
  }

  /** A party during the online phase. P1 knows the masked values of the first d layers. */
  ghost predicate Online(p: Party, fi: FIPolys, inputs: seq<seq<int>>, d: nat)
    requires Setting(p.lay, fi, inputs) && d <= |p.lay.mults|
    reads p`prep, p`lambda, p`mu
  {
    && Prepped(p, fi, true) && p.MuTrue(fi, inputs)
    && (p.id == 0 ==> Known(p.lay, d) <= p.mu.Keys)
  }

  /** The masked inputs of the clients below s have been sent, those below r received. */
  ghost predicate InputsUnderWay(net: Network, lay: Layout, fi: FIPolys, inputs: seq<seq<int>>, s: nat)
    requires net.Valid() && Setting(lay, fi, inputs)
    reads net.chan
  {
    forall a, b :: 0 <= a < net.parties && 0 <= b < net.parties ==>
      net.chan[a, b] == if b == 0 && a < s then MaskedOf(lay, fi, inputs, Ids(lay.gates, InputOf(a))) else []
  }

  method InputSendOne(p: Party, net: Network, ghost lay: Layout, ghost fi: FIPolys, ghost inputs: seq<seq<int>>)
    requires Setting(lay, fi, inputs) && net.Valid() && PartyReady(p, p.id, net, lay, fi) && p.id < |inputs|
    requires Prepped(p, fi, true) && p.HasInputs(inputs[p.id]) && InputsUnderWay(net, lay, fi, inputs, p.id)
    modifies net.chan
    ensures InputsUnderWay(net, lay, fi, inputs, p.id + 1)
  {
    hide MaskedOf, Ids, Prepped, Party.HasInputs, Enough, GoodFI;
    OwnMasks(p, fi);
    p.InputOwnerSendsP1(fi, inputs);
  }

  method InputRecvOne(p: Party, net: Network, ghost lay: Layout, ghost fi: FIPolys, ghost inputs: seq<seq<int>>)
    requires Setting(lay, fi, inputs) && net.Valid() && PartyReady(p, p.id, net, lay, fi)
    requires Prepped(p, fi, true) && p.mu == map[]
    requires InputsUnderWay(net, lay, fi, inputs, if p.id == 0 then net.parties else 0)
    modifies p`mu, net.chan
    ensures Silent(net) && Online(p, fi, inputs, 0)
  {
    hide MaskedOf, Ids, Prepped, Enough, GoodFI, Known, Masked;
    HoldsPlaced(p, fi);
    p.InputP1Receives(fi, inputs, NoTail(net.parties));
  }

  /** Everyone sends its masked inputs; P1 receives them. */
  method InputAll(ps: seq<Party>, net: Network, lay: Layout, ghost fi: FIPolys, ghost inputs: seq<seq<int>>)
    requires Setting(lay, fi, inputs) && Ready(ps, net, lay, fi) && |ps| > 0 && Silent(net)
    requires forall i :: 0 <= i < |ps| ==> Prepped(ps[i], fi, true) && ps[i].mu == map[] && ps[i].HasInputs(inputs[i])
    modifies ps, net.chan
    ensures Silent(net)
    ensures forall i :: 0 <= i < |ps| ==> Online(ps[i], fi, inputs, 0)
  {
    hide MaskedOf, Ids, Prepped, Enough, Party.HasInputs, Party.Holds, Online;
    ReadyOne(ps, net, lay, fi);
    InputSendAll(ps, net, lay, fi, inputs);
    for i := 0 to |ps|
      invariant if i == 0 then InputsUnderWay(net, lay, fi, inputs, |ps|) else Silent(net)
      invariant forall j :: i <= j < |ps| ==> Prepped(ps[j], fi, true) && ps[j].mu == map[]
      invariant forall j :: 0 <= j < i ==> Online(ps[j], fi, inputs, 0)
    {
      InputRecvOne(ps[i], net, lay, fi, inputs);
    }
  }

  method InputSendAll(ps: seq<Party>, net: Network, lay: Layout, ghost fi: FIPolys, ghost inputs: seq<seq<int>>)
    requires Setting(lay, fi, inputs) && Ready(ps, net, lay, fi) && |ps| > 0 && Silent(net)
    requires forall i :: 0 <= i < |ps| ==> Prepped(ps[i], fi, true) && ps[i].HasInputs(inputs[i])
    modifies net.chan
    ensures InputsUnderWay(net, lay, fi, inputs, |ps|)
  {
    hide MaskedOf, Ids, Prepped, Enough, Party.HasInputs, Party.Holds;
    ReadyOne(ps, net, lay, fi);
    for i := 0 to |ps|
      invariant InputsUnderWay(net, lay, fi, inputs, i)
    {
      InputSendOne(ps[i], net, lay, fi, inputs);
    }
  }

  // ---------------------------------------------------------------- one layer

  method MultSendOne(p: Party, net: Network, layer: nat, ghost lay: Layout, ghost fi: FIPolys, ghost inputs: seq<seq<int>>)
    requires Setting(lay, fi, inputs) && Layered(lay) && net.Valid() && PartyReady(p, p.id, net, lay, fi) && layer < |lay.mults|
    requires Online(p, fi, inputs, layer)
    requires if p.id == 0 then Silent(net) else OnlyFromP1(net, MuList(lay, fi, inputs, layer), 0)
    modifies p`mu, net.chan
    ensures Online(p, fi, inputs, layer) && OnlyFromP1(net, MuList(lay, fi, inputs, layer), 0)
  {
    hide Ids, Prepped, Enough, GoodFI, Known, Masked, Msgs, MuList, Layered;
    HoldsPlaced(p, fi);
    forall x: int ensures Msgs([], x) == [] { MsgsNone(x); }
    p.MultP1Sends(layer, fi, inputs, NoTail(net.parties));
  }

  method MultRecvOneLayer(p: Party, net: Network, layer: nat, ghost lay: Layout, ghost fi: FIPolys, ghost inputs: seq<seq<int>>)
    requires Setting(lay, fi, inputs) && net.Valid() && PartyReady(p, p.id, net, lay, fi) && layer < |lay.mults|
    requires OnlyFromP1(net, MuList(lay, fi, inputs, layer), p.id)
    modifies p`muShares, net.chan
    ensures OnlyFromP1(net, MuList(lay, fi, inputs, layer), p.id + 1) && HasLayerShares(p, fi, inputs, layer)
  {
    hide Ids, Enough, GoodFI, Msgs, MuList;
    HoldsPlaced(p, fi);
    p.MultPartiesReceive(layer, fi, inputs, []);
  }

  ghost predicate HasLayerShares(p: Party, fi: FIPolys, inputs: seq<seq<int>>, layer: nat)
    requires Setting(p.lay, fi, inputs) && layer < |p.lay.mults|
    reads p`muShares
  {
    p.HasMuShares(fi, inputs, layer, |Layer(p.lay, layer)|)
  }

  method MultReplyOne(p: Party, net: Network, layer: nat, ghost lay: Layout, ghost fi: FIPolys, ghost inputs: seq<seq<int>>)
    requires Setting(lay, fi, inputs) && net.Valid() && PartyReady(p, p.id, net, lay, fi) && layer < |lay.mults|
    requires Online(p, fi, inputs, layer) && HasLayerShares(p, fi, inputs, layer)
    requires OnlyToP1(net, ProductList(lay, fi, inputs, layer), p.id)
    modifies net.chan
    ensures OnlyToP1(net, ProductList(lay, fi, inputs, layer), p.id + 1)
  {
    hide Ids, Enough, GoodFI, Msgs, ProductList, Party.HasMuShares, Party.Prepared, Known;
    HoldsPlaced(p, fi);
    p.MultPartiesSend(layer, fi, inputs);
  }

  method MultOpenOne(p: Party, net: Network, layer: nat, ghost lay: Layout, ghost fi: FIPolys, ghost inputs: seq<seq<int>>)
    requires IsPrime(P61) && Setting(lay, fi, inputs) && net.Valid() && PartyReady(p, p.id, net, lay, fi) && layer < |lay.mults|
    requires Online(p, fi, inputs, layer)
    requires if p.id == 0 then OnlyToP1(net, ProductList(lay, fi, inputs, layer), net.parties) else Silent(net)
    modifies p`mu, net.chan
    ensures Silent(net) && Online(p, fi, inputs, layer + 1)
  {
    hide Ids, Enough, GoodFI, Msgs, ProductList, Prepped, Known, IsPrime, Masked;
    HoldsPlaced(p, fi);
    forall x: int ensures Msgs([], x) == [] { MsgsNone(x); }
    p.MultP1Receives(layer, fi, inputs, NoTail(net.parties));
  }

  /** One layer of multiplications; the invariant mu = value - mask moves up one layer. */
  method LayerAll(ps: seq<Party>, net: Network, lay: Layout, layer: nat, ghost fi: FIPolys, ghost inputs: seq<seq<int>>)
    requires IsPrime(P61) && Setting(lay, fi, inputs) && Layered(lay) && Ready(ps, net, lay, fi) && |ps| > 0 && Silent(net)
    requires layer < |lay.mults| && forall i :: 0 <= i < |ps| ==> Online(ps[i], fi, inputs, layer)
    modifies ps, net.chan
    ensures Silent(net)
    ensures forall i :: 0 <= i < |ps| ==> Online(ps[i], fi, inputs, layer + 1)
  {
    hide Ids, Enough, MuList, ProductList, Online, HasLayerShares, Party.Holds, Layered, IsPrime, Msgs;
    ReadyOne(ps, net, lay, fi);
    for i := 0 to |ps|
      invariant if i == 0 then Silent(net) else OnlyFromP1(net, MuList(lay, fi, inputs, layer), 0)
      invariant forall j :: 0 <= j < |ps| ==> Online(ps[j], fi, inputs, layer)
    {
      MultSendOne(ps[i], net, layer, lay, fi, inputs);
    }
    for i := 0 to |ps|
      invariant OnlyFromP1(net, MuList(lay, fi, inputs, layer), i)
      invariant forall j :: 0 <= j < |ps| ==> Online(ps[j], fi, inputs, layer)
      invariant forall j :: 0 <= j < i ==> HasLayerShares(ps[j], fi, inputs, layer)
    {
      MultRecvOneLayer(ps[i], net, layer, lay, fi, inputs);
    }
    ReplyAll(ps, net, lay, layer, fi, inputs);
    for i := 0 to |ps|
      invariant if i == 0 then OnlyToP1(net, ProductList(lay, fi, inputs, layer), |ps|) else Silent(net)
      invariant forall j :: i <= j < |ps| ==> Online(ps[j], fi, inputs, layer)
      invariant forall j :: 0 <= j < i ==> Online(ps[j], fi, inputs, layer + 1)
    {
      MultOpenOne(ps[i], net, layer, lay, fi, inputs);
    }
  }

  method ReplyAll(ps: seq<Party>, net: Network, lay: Layout, layer: nat, ghost fi: FIPolys, ghost inputs: seq<seq<int>>)
    requires Setting(lay, fi, inputs) && Ready(ps, net, lay, fi) && |ps| > 0 && Silent(net) && layer < |lay.mults|
    requires forall i :: 0 <= i < |ps| ==> Online(ps[i], fi, inputs, layer) && HasLayerShares(ps[i], fi, inputs, layer)
    modifies net.chan
    ensures OnlyToP1(net, ProductList(lay, fi, inputs, layer), |ps|)
  {
    hide Ids, Enough, ProductList, Online, HasLayerShares, Party.Holds, Msgs;
    ReadyOne(ps, net, lay, fi);
    for i := 0 to |ps|
      invariant OnlyToP1(net, ProductList(lay, fi, inputs, layer), i)
    {
      MultReplyOne(ps[i], net, layer, lay, fi, inputs);
    }
  }

  // ---------------------------------------------------------------- outputs

  /** The masked outputs of the clients from r on are on their way from P1. */
  ghost predicate OutputsUnderWay(net: Network, lay: Layout, fi: FIPolys, inputs: seq<seq<int>>, r: nat)
    requires net.Valid() && Setting(lay, fi, inputs)
    reads net.chan
  {
    forall a, b :: 0 <= a < net.parties && 0 <= b < net.parties ==>
      net.chan[a, b] == if a == 0 && b >= r then MaskedOf(lay, fi, inputs, Ids(lay.gates, OutputOf(b))) else []
  }

  method OutputSendOne(p: Party, net: Network, ghost lay: Layout, ghost fi: FIPolys, ghost inputs: seq<seq<int>>)
    requires Setting(lay, fi, inputs) && net.Valid() && PartyReady(p, p.id, net, lay, fi)
    requires Online(p, fi, inputs, |lay.mults|)
    requires if p.id == 0 then Silent(net) else OutputsUnderWay(net, lay, fi, inputs, 0)
    modifies p`mu, net.chan
    ensures OutputsUnderWay(net, lay, fi, inputs, 0) && Prepped(p, fi, true)
  {
    hide Ids, Prepped, Enough, GoodFI, Known, Masked, MaskedOf;
    HoldsPlaced(p, fi);
    p.OutputP1SendsMu(fi, inputs, NoTail(net.parties));
  }

  method OutputRecvOne(p: Party, net: Network, ghost lay: Layout, ghost fi: FIPolys, ghost inputs: seq<seq<int>>)
    requires Setting(lay, fi, inputs) && net.Valid() && PartyReady(p, p.id, net, lay, fi)
    requires Prepped(p, fi, true) && OutputsUnderWay(net, lay, fi, inputs, p.id)
    modifies p`value, net.chan
    ensures OutputsUnderWay(net, lay, fi, inputs, p.id + 1) && p.HasOutputs(fi, inputs)
  {
    hide Ids, Prepped, Enough, GoodFI, Masked, MaskedOf;
    HoldsPlaced(p, fi);
    OwnMasks(p, fi);
    p.OutputOwnerReceivesMu(fi, inputs, []);
  }

  method OutputAll(ps: seq<Party>, net: Network, lay: Layout, ghost fi: FIPolys, ghost inputs: seq<seq<int>>)
    requires Setting(lay, fi, inputs) && Ready(ps, net, lay, fi) && |ps| > 0 && Silent(net)
    requires forall i :: 0 <= i < |ps| ==> Online(ps[i], fi, inputs, |lay.mults|)
    modifies ps, net.chan
    ensures Silent(net)
    ensures forall i :: 0 <= i < |ps| ==> ps[i].HasOutputs(fi, inputs)
  {
    hide Ids, WellFormed, Fresh, IOs, Mults, Online, Prepped, Party.Holds, MaskedOf, Party.HasOutputs;
    ReadyOne(ps, net, lay, fi);
    for i := 0 to |ps|
      invariant if i == 0 then Silent(net) else OutputsUnderWay(net, lay, fi, inputs, 0)
      invariant forall j :: i <= j < |ps| ==> Online(ps[j], fi, inputs, |lay.mults|)
      invariant forall j :: 0 <= j < i ==> Prepped(ps[j], fi, true)
    {
      OutputSendOne(ps[i], net, lay, fi, inputs);
    }
    for i := 0 to |ps|
      invariant OutputsUnderWay(net, lay, fi, inputs, i)
      invariant forall j :: i <= j < |ps| ==> Prepped(ps[j], fi, true)
      invariant forall j :: 0 <= j < i ==> ps[j].HasOutputs(fi, inputs)
    {
      OutputRecvOne(ps[i], net, lay, fi, inputs);
    }
  }

  /** The online protocol after the inputs are set: inputs, all layers, outputs. */
  method RunProtocol(ps: seq<Party>, net: Network, lay: Layout, ghost fi: FIPolys, ghost inputs: seq<seq<int>>)
    requires IsPrime(P61) && Setting(lay, fi, inputs) && Layered(lay) && Ready(ps, net, lay, fi) && |ps| > 0 && Silent(net)
    requires forall i :: 0 <= i < |ps| ==> Prepped(ps[i], fi, true) && ps[i].mu == map[] && ps[i].HasInputs(inputs[i])
    modifies ps, net.chan
    ensures Silent(net)
    ensures forall i :: 0 <= i < |ps| ==> ps[i].HasOutputs(fi, inputs)
  {
    hide Ids, WellFormed, Fresh, IOs, Mults, Online, Prepped, Party.Holds, Layered, IsPrime, Party.HasInputs, Party.HasOutputs;
    InputAll(ps, net, lay, fi, inputs);
    for layer := 0 to |lay.mults|
      invariant Silent(net)
      invariant forall i :: 0 <= i < |ps| ==> ps[i].lay == lay && Online(ps[i], fi, inputs, layer)
    {
      LayerAll(ps, net, lay, layer, fi, inputs);
    }
    OutputAll(ps, net, lay, fi, inputs);
  }

  // ---------------------------------------------------------------- everything

  /** A run ends with the outputs of every client, or is refused. */
  datatype Run = Outputs(values: seq<seq<int>>) | BadThreshold | WrongInputs

  function AmountsOf(lay: Layout, t: nat): Amounts
    requires lay.batchSize > 0
  {
    Amounts(lay.clients, lay.batchSize, t, |Fresh(lay)|, |Mults(lay)|, |IOs(lay)|)
  }

  /** Every party sets up its correlator; all refuse a wrong threshold. */
  method GenCorrelators(lay: Layout, t: nat, net: Network) returns (ok: bool, cs: seq<Correlator>)
    requires WellFormed(lay) && net.Valid() && net.parties == lay.clients > 0 && lay.clients + lay.batchSize <= P61
    ensures ok <==> Sizes(lay.clients, lay.batchSize, t)
    ensures ok ==> AllInPlace(cs, net, AmountsOf(lay, t)) && fresh(cs)
    ensures ok ==> forall i :: 0 <= i < |cs| ==> Blank(cs[i])
  {
    hide Fresh, Mults, IOs, InPlace, Blank, WellFormed;
    SizeOk(lay);
    cs := [];
    for i := 0 to lay.clients
      invariant |cs| == i && fresh(cs)
      invariant i > 0 ==> Sizes(lay.clients, lay.batchSize, t)
      invariant forall j :: 0 <= j < i ==> cs[j].id == j && InPlace(cs[j], j, net, AmountsOf(lay, t)) && Blank(cs[j])
    {
      var made, c := GenCorrelator(lay, t, net, i);
      if !made {
        return false, [];
      }
      cs := cs + [c];
    }
    ok := true;
  }

  method GenCorrelator(lay: Layout, t: nat, net: Network, i: nat) returns (ok: bool, c: Correlator)
    requires lay.batchSize > 0 && net.Valid() && net.parties == lay.clients && i < lay.clients
    requires lay.clients + lay.batchSize <= P61
    ensures fresh(c) && c.id == i
    ensures ok <==> Sizes(lay.clients, lay.batchSize, t)
    ensures ok ==> InPlace(c, i, net, AmountsOf(lay, t)) && Blank(c)
  {
    hide Fresh, Mults, IOs, Units, Msgs, VandermondeRow;
    c := new Correlator(|Fresh(lay)|, |Mults(lay)|, |IOs(lay)|, lay.batchSize, net, i);
    c.PrecomputeEi();
    ok := c.SetThreshold(t);
    if ok {
      c.PrecomputeVandermonde();
    }
  }

  /** Shares go to gates; the parties' circuits are ready. */
  method MapOne(c: Correlator, lay: Layout, m: Amounts, ghost draws: seq<Draws>) returns (p: Party)
    requires IsPrime(P61) && WellFormed(lay) && AllDrawn(m, draws) && m.k == lay.batchSize && m.n == lay.clients
    requires m.inds == |Fresh(lay)| && m.mults == |Mults(lay)| && m.ios == |IOs(lay)|
    requires InPlace(c, c.id, c.net, m) && c.net.Valid() && c.net.parties == m.n
    requires HasPrep(c, m, draws, true) && c.mapIndShrs == map[]
    modifies c`mapIndShrs
    ensures fresh(p) && p.corr == c && PartyReady(p, c.id, c.net, lay, Preprocessed(m, draws))
    ensures p.prep == [] && p.mu == map[]
  {
    hide Fresh, Mults, IOs, Units, Msgs, VandermondeRow, GoodFI, WellFormed, AllDrawn, PrepShare, IsPrime, Inds, Zs, PackAll, Fa, Fb, Fc, Correlator.Mapped;
    PreprocessedGood(lay, m, draws);
    c.PopulateIndvShrs(lay, Preprocessed(m, draws).ind);
    p := new Party(lay, c);
  }

  method MapCorrToCircuit(cs: seq<Correlator>, net: Network, lay: Layout, m: Amounts, ghost draws: seq<Draws>)
    returns (ps: seq<Party>)
    requires IsPrime(P61) && WellFormed(lay) && AllDrawn(m, draws) && m.k == lay.batchSize && m.n == lay.clients
    requires m.inds == |Fresh(lay)| && m.mults == |Mults(lay)| && m.ios == |IOs(lay)|
    requires AllInPlace(cs, net, m)
    requires forall i :: 0 <= i < m.n ==> HasPrep(cs[i], m, draws, true) && cs[i].mapIndShrs == map[]
    modifies cs
    ensures Ready(ps, net, lay, Preprocessed(m, draws)) && fresh(ps) && |ps| == m.n
    ensures forall i :: 0 <= i < |ps| ==> ps[i].prep == [] && ps[i].mu == map[]
  {
    hide Fresh, Mults, IOs, InPlace, WellFormed, HasPrep, IsPrime, PartyReady, AllDrawn;
    InPlaceNets(cs, net, m);
    ps := [];
    for i := 0 to m.n
      invariant |ps| == i && fresh(ps)
      invariant forall j :: i <= j < m.n ==> InPlace(cs[j], j, net, m) && HasPrep(cs[j], m, draws, true) && cs[j].mapIndShrs == map[]
      invariant forall j :: 0 <= j < i ==> ps[j].corr == cs[j] && PartyReady(ps[j], j, net, lay, Preprocessed(m, draws))
      invariant forall j :: 0 <= j < i ==> ps[j].prep == [] && ps[j].mu == map[]
    {
      var p := MapOne(cs[i], lay, m, draws);
      ps := ps + [p];
    }
  }

  /** Every party sets its inputs; a party with the wrong number of inputs refuses. */
  method SetInputsAll(ps: seq<Party>, net: Network, lay: Layout, ghost fi: FIPolys, inputs: seq<seq<int>>) returns (ok: bool)
    requires Ready(ps, net, lay, fi) && |inputs| == |ps| && Enough(lay, fi)
    requires forall i :: 0 <= i < |ps| ==> Prepped(ps[i], fi, true) && ps[i].mu == map[]
    modifies ps
    ensures ok <==> Matches(lay, inputs)
    ensures forall i :: 0 <= i < |ps| ==> Prepped(ps[i], fi, true) && ps[i].mu == map[]
    ensures ok ==> forall i :: 0 <= i < |ps| ==> ps[i].HasInputs(inputs[i])
  {
    hide Ids, WellFormed, Fresh, IOs, Mults, Prepped, Party.Holds, Party.HasInputs;
    ReadyOne(ps, net, lay, fi);
    for i := 0 to |ps|
      invariant forall j :: 0 <= j < i ==> |inputs[j]| == |Ids(lay.gates, InputOf(j))| && ps[j].HasInputs(inputs[j])
      invariant forall j :: 0 <= j < |ps| ==> Prepped(ps[j], fi, true) && ps[j].mu == map[]
    {
      ok := ps[i].SetInputs(inputs[i]);
      if !ok {
        return false;
      }
    }
    ok := true;
  }

  /** The preprocessing of a run. */
  ghost function FiOf(lay: Layout, t: nat, draws: seq<Draws>): (fi: FIPolys)
    requires IsPrime(P61) && WellFormed(lay) && AllDrawn(AmountsOf(lay, t), draws)
    ensures Enough(lay, fi)
  {
    PreprocessedGood(lay, AmountsOf(lay, t), draws);
    Preprocessed(AmountsOf(lay, t), draws)
  }

  /** A run that is not refused. */
  ghost predicate ProperRun(lay: Layout, t: nat, draws: seq<Draws>, inputs: seq<seq<int>>) {
    && IsPrime(P61) && WellFormed(lay) && Sizes(lay.clients, lay.batchSize, t)
    && AllDrawn(AmountsOf(lay, t), draws) && Matches(lay, inputs)
  }

  /** What client c gets in a run. */
  ghost function ClientOutputs(lay: Layout, t: nat, draws: seq<Draws>, inputs: seq<seq<int>>, c: nat): seq<int>
    requires ProperRun(lay, t, draws, inputs)
  {
    WireOutputs(lay, FiOf(lay, t, draws), inputs, c)
  }

  /** TurboPack, end to end: for every layered circuit, all inputs and all randomness, every client
      gets what its output wires carry, and that is the cleartext outputs when no addition reads an output
      gate. Runs with a wrong threshold or a wrong number of inputs, and only those, are refused. */
  method Execute(lay: Layout, t: nat, draws: seq<Draws>, inputs: seq<seq<int>>) returns (r: Run)
    requires IsPrime(P61) && WellFormed(lay) && Layered(lay)
    requires lay.clients > 0 && lay.clients + lay.batchSize <= P61 && |inputs| == lay.clients
    requires Sizes(lay.clients, lay.batchSize, t) ==> AllDrawn(AmountsOf(lay, t), draws)
    ensures r.BadThreshold? <==>
      lay.clients != t + 2 * (lay.batchSize - 1) + 1 || lay.clients <= 2 * t
    ensures r.WrongInputs? <==> !r.BadThreshold? && !Matches(lay, inputs)
    ensures r.Outputs? ==> |r.values| == lay.clients && ProperRun(lay, t, draws, inputs)
    ensures r.Outputs? ==> forall c :: 0 <= c < lay.clients ==> r.values[c] == ClientOutputs(lay, t, draws, inputs, c)
    ensures r.Outputs? && PlainSums(lay.gates) ==> forall c :: 0 <= c < lay.clients ==> r.values[c] == ClearOutputs(lay, inputs, c)
  {
    hide Ids, Fresh, IOs, Mults, Prepped, Party.Holds, Party.HasInputs, Party.HasOutputs, HasPrep, Unpackeds, Blank, AllDrawn,
      WellFormed, Layered, IsPrime, Ready, AllInPlace, Preprocessed, Matches, PlainSums, WireOutputs, ClearOutputs;
    SizeOk(lay);
    var net := new Network(lay.clients);
    var ok, cs := GenCorrelators(lay, t, net);
    if !ok {
      return BadThreshold;
    }
    var m := AmountsOf(lay, t);
    PlacesSize(cs, net, m);
    FIPrepAll(cs, net, m, draws);
    ProdAll(cs, net, m, draws);
    ghost var fi := FiOf(lay, t, draws);
    PreprocessedGood(lay, m, draws);
    var ps := MapCorrToCircuit(cs, net, lay, m, draws);
    FDPrepAll(ps, net, lay, fi);
    ok := SetInputsAll(ps, net, lay, fi, inputs);
    if !ok {
      return WrongInputs;
    }
    RunProtocol(ps, net, lay, fi, inputs);
    ReadyOne(ps, net, lay, fi);
    var values := OutputsOf(ps, net, lay, fi, inputs);
    if PlainSums(lay.gates) {
      forall c | 0 <= c < lay.clients ensures values[c] == ClearOutputs(lay, inputs, c) {
        PlainOutputs(lay, fi, inputs, c);
      }
    }
    return Outputs(values);
  }

  lemma PlacesSize(cs: seq<Correlator>, net: Network, m: Amounts)
    requires AllInPlace(cs, net, m)
    ensures |cs| == m.n
  {
  }

  method OutputsOf(ps: seq<Party>, net: Network, lay: Layout, ghost fi: FIPolys, ghost inputs: seq<seq<int>>)
    returns (values: seq<seq<int>>)
    requires Ready(ps, net, lay, fi) && Setting(lay, fi, inputs)
    requires forall i :: 0 <= i < |ps| ==> ps[i].lay == lay && ps[i].HasOutputs(fi, inputs)
    ensures |values| == lay.clients && forall c :: 0 <= c < lay.clients ==> values[c] == WireOutputs(lay, fi, inputs, c)
  {
    hide Ids, Party.Holds, Party.HasOutputs, WellFormed, Matches, Enough;
    ReadyOne(ps, net, lay, fi);
    values := [];
    for i := 0 to |ps|
      invariant |values| == i && forall c :: 0 <= c < i ==> values[c] == WireOutputs(lay, fi, inputs, c)
    {
      var v := ps[i].GetOutputs(fi, inputs);
      values := values + [v];
    }
  }
}
