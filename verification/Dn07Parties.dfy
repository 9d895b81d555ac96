/** One party of the DN07 baseline. The first t + 1 parties work online; the others fix all
    their shares and messages before there are inputs. */
module Dn07Parties {
  import opened Modular
  import opened Poly
  import opened Scl
  import opened Sequences
  import opened PackedSharing
  import opened Dealing
  import opened Channels
  import opened Circuits
  import opened Masking
  import opened Correlators
  import opened Dn07Sharing
  import opened Dn07Dealing

  /** Shares of one number with degrees t and 2t. */
  datatype DoubleShr = DoubleShr(shr: int, dshr: int)

  // ---------------------------------------------------------------- rows of messages

  /** One number for each of the listed gates. */
  ghost function Row(gates: seq<nat>, f: nat -> int): (r: seq<int>)
    ensures |r| == |gates|
  {
    seq(|gates|, i requires 0 <= i < |gates| => f(gates[i]))
  }

  lemma RowTake(gates: seq<nat>, f: nat -> int, q: nat)
    requires q < |gates|
    ensures Row(gates[..q + 1], f) == Row(gates[..q], f) + [f(gates[q])]
    ensures Row(gates[q..], f) == [f(gates[q])] + Row(gates[q + 1..], f)
  {
  }

  lemma RowAll(gates: seq<nat>, f: nat -> int)
    ensures gates[..|gates|] == gates && gates[0..] == gates
    ensures Row(gates[..0], f) == [] && Row(gates[|gates|..], f) == []
  {
  }

  lemma RowConcat(a: seq<nat>, b: seq<nat>, f: nat -> int)
    ensures Row(a + b, f) == Row(a, f) + Row(b, f)
  {
  }

  /** Shares at x of the random sharings of inputs. */
  ghost function RandAt(s: Setup, x: int): nat -> int
    requires Good(s)
  {
    (g: nat) => if g < |s.lay.gates| && s.lay.gates[g].InputGate? then At(RandOf(s, g), x) else 0
  }

  /** Shares at x of the masked inputs. */
  ghost function MaskedAt(s: Setup, inputs: seq<seq<int>>, x: int): nat -> int
    requires Good(s) && Matches(s.lay, inputs)
  {
    (g: nat) => if g < |s.lay.gates| && s.lay.gates[g].InputGate? then At(ZeroedPoly(InputMasked(s, inputs, g), s.lay.clients, s.t), x) else 0
  }

  /** Shares at x of the wires. */
  ghost function GateAt(s: Setup, inputs: seq<seq<int>>, x: int): nat -> int
    requires Good(s) && Matches(s.lay, inputs)
  {
    (g: nat) => if g < |s.lay.gates| then At(GatePoly(s, inputs, g), x) else 0
  }

  /** Shares at x of what is opened to P1. */
  ghost function ProductsAt(s: Setup, inputs: seq<seq<int>>, x: int): nat -> int
    requires Good(s) && Matches(s.lay, inputs)
  {
    (g: nat) => if g < |s.lay.gates| && s.lay.gates[g].MultGate? then At(MultProduct(s, inputs, g), x) else 0
  }

  /** Shares at x of what P1 returns. */
  ghost function ReturnedAt(s: Setup, inputs: seq<seq<int>>, x: int): nat -> int
    requires Good(s) && Matches(s.lay, inputs)
  {
    (g: nat) => if g < |s.lay.gates| && s.lay.gates[g].MultGate? then At(ZeroedPoly(Opened(s, inputs, g), s.lay.clients, s.t), x) else 0
  }

  /** The early shares of the parties after the first t + 1. */
  ghost function LastAt(s: Setup, x: int): nat -> int
    requires Good(s)
  {
    (g: nat) => if g < |s.lay.gates| then LastShare(s, x, g) else 0
  }

  ghost function LastProductsAt(s: Setup, x: int): nat -> int
    requires Good(s)
  {
    (g: nat) => if g < |s.lay.gates| && s.lay.gates[g].MultGate? then LastProduct(s, x, g) else 0
  }

  /** Their early messages for one gate. */
  ghost function LastColumn(s: Setup, g: nat): (r: seq<int>)
    requires Good(s)
    ensures |r| == s.lay.clients - s.t - 1
  {
    seq(s.lay.clients - s.t - 1, j requires 0 <= j < s.lay.clients - s.t - 1 => LastProductsAt(s, s.t + 1 + j + 1)(g))
  }

  ghost function LastColumns(s: Setup, gates: seq<nat>): (r: seq<seq<int>>)
    requires Good(s)
    ensures |r| == |gates|
  {
    seq(|gates|, i requires 0 <= i < |gates| => LastColumn(s, gates[i]))
  }

  /** Additions add and outputs copy. */
  ghost predicate Additive(lay: Layout, f: nat -> int) {
    forall g :: 0 <= g < |lay.gates| ==>
      && (lay.gates[g].AddGate? ==> f(g) == Add(f(lay.gates[g].left), f(lay.gates[g].right)))
      && (lay.gates[g].OutputGate? ==> f(g) == f(lay.gates[g].src))
  }

  lemma GateAdditive(s: Setup, inputs: seq<seq<int>>, x: int)
    requires Good(s) && Matches(s.lay, inputs)
    ensures Additive(s.lay, GateAt(s, inputs, x))
  {
    hide At, AddP, Add, Ids;
    forall g | 0 <= g < |s.lay.gates|
      ensures s.lay.gates[g].AddGate? ==> (
        GateAt(s, inputs, x)(g) == Add(GateAt(s, inputs, x)(s.lay.gates[g].left), GateAt(s, inputs, x)(s.lay.gates[g].right)))
      ensures s.lay.gates[g].OutputGate? ==> GateAt(s, inputs, x)(g) == GateAt(s, inputs, x)(s.lay.gates[g].src)
    {
      Parents(s, g);
      if s.lay.gates[g].AddGate? {
        AtAdd(GatePoly(s, inputs, s.lay.gates[g].left), GatePoly(s, inputs, s.lay.gates[g].right), x);
      }
    }
  }

  lemma LastAdditive(s: Setup, x: int)
    requires Good(s)
    ensures Additive(s.lay, LastAt(s, x))
  {
    hide At, Add, Ids;
    forall g | 0 <= g < |s.lay.gates|
      ensures s.lay.gates[g].AddGate? ==> (
        LastAt(s, x)(g) == Add(LastAt(s, x)(s.lay.gates[g].left), LastAt(s, x)(s.lay.gates[g].right)))
      ensures s.lay.gates[g].OutputGate? ==> LastAt(s, x)(g) == LastAt(s, x)(s.lay.gates[g].src)
    {
      Parents(s, g);
    }
  }

  // ---------------------------------------------------------------- the party

  class DN07 {
    const lay: Layout
    const t: nat
    const net: Network
    const id: nat
    const n: nat
    var vandermonde: seq<seq<int>>
    var rShrs: seq<int>
    var dShrs: seq<DoubleShr>
    var mapInputs: map<nat, nat>
    var mapMults: map<nat, nat>
    var share: map<nat, int>
    var value: map<nat, int>
    var results: map<nat, int>
    var p1SharesToSend: seq<seq<int>>
    var p1SharesFromLast: seq<seq<int>>

    constructor (lay: Layout, t: nat, net: Network, id: nat)
      requires net.Valid() && net.parties > 2 * t
      ensures this.lay == lay && this.t == t && this.net == net && this.id == id && n == net.parties
      ensures rShrs == [] && dShrs == [] && mapInputs == map[] && mapMults == map[] && share == map[]
      ensures value == map[] && results == map[] && p1SharesToSend == [] && p1SharesFromLast == []
      ensures |vandermonde| == n && forall j :: 0 <= j < n ==> vandermonde[j] == VandermondeRow(j, t + 1)
    {
      this.lay, this.t, this.net, this.id, this.n := lay, t, net, id, net.parties;
      rShrs, dShrs, mapInputs, mapMults, share := [], [], map[], map[], map[];
      value, results, p1SharesToSend, p1SharesFromLast := map[], map[], [], [];
      new;
      vandermonde := PrecomputeVandermonde(n, t);
    }

    static method PrecomputeVandermonde(parties: nat, t: nat) returns (v: seq<seq<int>>)
      ensures |v| == parties && forall j :: 0 <= j < parties ==> v[j] == VandermondeRow(j, t + 1)
    {
      hide *;
      v := [];
      for i := 0 to parties
        invariant |v| == i && forall j :: 0 <= j < i ==> v[j] == VandermondeRow(j, t + 1)
      {
        var row: seq<int> := [];
        var entry := F(1);
        PowerStart(i);
        for j := 0 to t + 1
          invariant row == VandermondeRow(i, j) && entry == F(Pow(i, j))
        {
          PowerStep(i, j);
          row := row + [entry];
          entry := F(entry * F(i));
        }
        v := v + [row];
      }
    }

    ghost predicate Placed()
      reads this`vandermonde
    {
      && net.Valid() && 2 * t + 1 <= n == net.parties == lay.clients && id < n && WellFormed(lay)
      && |vandermonde| == n && forall j :: 0 <= j < n ==> vandermonde[j] == VandermondeRow(j, t + 1)
    }

    ghost predicate Of(s: Setup)
      reads this`vandermonde
    {
      Placed() && s.lay == lay && s.t == t && Good(s)
    }

    lemma OfSizes(s: Setup)
      requires Of(s)
      ensures Placed() && net.Valid() && 2 * t + 1 <= n == net.parties == lay.clients && id < n && WellFormed(lay)
      ensures s.lay == lay && s.t == t && Good(s)
    {
      hide WellFormed, Good, VandermondeRow;
    }

    // -------------------------------------------------------------- sending and receiving

    /** The i-th share to party i. */
    method SendEach(shares: seq<int>)
      requires Placed() && |shares| <= n
      modifies net.chan
      ensures forall b :: 0 <= b < |shares| ==> net.chan[id, b] == old(net.chan[id, b]) + [shares[b]]
      ensures forall a, b :: 0 <= a < n && 0 <= b < n && (a != id || b >= |shares|) ==> net.chan[a, b] == old(net.chan[a, b])
    {
      hide WellFormed, VandermondeRow;
      for party := 0 to |shares|
        invariant forall b :: 0 <= b < party ==> net.chan[id, b] == old(net.chan[id, b]) + [shares[b]]
        invariant forall a, b :: 0 <= a < n && 0 <= b < n && (a != id || b >= party) ==> net.chan[a, b] == old(net.chan[a, b])
      {
        net.Send(id, party, shares[party]);
      }
    }

    /** One share from each of the parties lo, ..., hi - 1. */
    method RecvFrom(lo: nat, hi: nat) returns (recv: seq<int>)
      requires Placed() && lo <= hi <= n && forall i :: lo <= i < hi ==> net.chan[i, id] != []
      modifies net.chan
      ensures |recv| == hi - lo
      ensures forall i :: lo <= i < hi ==> recv[i - lo] == old(net.chan[i, id])[0]
      ensures forall i :: lo <= i < hi ==> net.chan[i, id] == old(net.chan[i, id])[1..]
      ensures forall a, b :: 0 <= a < n && 0 <= b < n && (b != id || a < lo || a >= hi) ==> net.chan[a, b] == old(net.chan[a, b])
    {
      hide WellFormed, VandermondeRow;
      recv := [];
      for party := lo to hi
        invariant |recv| == party - lo
        invariant forall i :: lo <= i < party ==> recv[i - lo] == old(net.chan[i, id])[0]
        invariant forall i :: lo <= i < party ==> net.chan[i, id] == old(net.chan[i, id])[1..]
        invariant forall a, b :: 0 <= a < n && 0 <= b < n && (b != id || a < lo || a >= party) ==> net.chan[a, b] == old(net.chan[a, b])
      {
        var buffer := net.Recv(party, id);
        recv := recv + [buffer];
      }
    }

    /** The value at 0. */
    method SecretFromShares(shares: seq<int>) returns (secret: int)
      requires |shares| > 0
      ensures secret == Rebuilt(shares, 0)
    {
      hide *;
      secret := SecretFromPointAndShares(0, shares);
    }

    /** The first t + 1 shares of a value, with zero shares for the last t parties. */
    method SharesOfZeroed(v: int) returns (shares: seq<int>)
      requires n > 2 * t
      ensures shares == Shares(ZeroedPoly(v, n, t), t + 1)
    {
      hide At, Coefs, F;
      var yPoints: seq<int> := [v];
      for i := n - t to n
        invariant yPoints == [v] + Zeros(i - (n - t))
      {
        yPoints := yPoints + [F(0)];
      }
      var xPoints: seq<int> := [F(0)];
      for i := n - t to n
        invariant xPoints == [F(0)] + LastPoints(n, t)[..i - (n - t)]
      {
        xPoints := xPoints + [i + 1];
      }
      assert LastPoints(n, t)[..t] == LastPoints(n, t);
      var poly := EvPolynomial(xPoints, yPoints);
      shares := SharesFromEvPoly(poly, t + 1);
    }

    // -------------------------------------------------------------- preprocessing

    /** This party has sent its shares of the listed polynomials to everyone. */
    ghost predicate ListSent(before: seq<int>, cs: seq<Coeffs>, b: nat)
      requires net.Valid() && id < net.parties && b < net.parties
      reads net.chan
    {
      net.chan[id, b] == before + Msgs(cs, b + 1)
    }

    method PrepPartiesSend(draws: PartyDraws)
      requires Placed() && PartyDrawn(lay, t, draws)
      modifies net.chan
      ensures forall b :: 0 <= b < n ==> ListSent(old(net.chan[id, b]), Outbox(t, draws), b)
      ensures forall a, b :: 0 <= a < n && 0 <= b < n && a != id ==> net.chan[a, b] == old(net.chan[a, b])
    {
      hide At, WellFormed, VandermondeRow, Blocks, Ids, Msgs, RandDeals, LowDeals, HighDeals, Alternate;
      PrepSendRandom(draws.rand, Blocks(|Ids(lay.gates, AnyInput)|, t), draws);
      PrepSendDouble(draws.double, Blocks(|MultOrder(lay)|, t), draws);
      forall b | 0 <= b < n ensures ListSent(old(net.chan[id, b]), Outbox(t, draws), b) {
        MsgsConcat(RandDeals(t, draws), Alternate(LowDeals(t, draws), HighDeals(t, draws)), b + 1);
      }
    }

    method PrepSendRandom(rand: seq<Draw>, nBlocks: nat, ghost draws: PartyDraws)
      requires Placed() && PartyDrawn(lay, t, draws) && rand == draws.rand && nBlocks == |rand|
      modifies net.chan
      ensures forall b :: 0 <= b < n ==> ListSent(old(net.chan[id, b]), RandDeals(t, draws), b)
      ensures forall a, b :: 0 <= a < n && 0 <= b < n && a != id ==> net.chan[a, b] == old(net.chan[a, b])
    {
      hide At, WellFormed, VandermondeRow, Coefs, Single, Blocks, Ids, Msgs, LowDeals, HighDeals;
      ghost var rs := RandDeals(t, draws);
      forall b | 0 <= b < n ensures ListSent(old(net.chan[id, b]), rs[..0], b) {
        MsgsNone(b + 1);
        assert rs[..0] == [];
      }
      for block := 0 to nBlocks
        invariant forall b :: 0 <= b < n ==> ListSent(old(net.chan[id, b]), rs[..block], b)
        invariant forall a, b :: 0 <= a < n && 0 <= b < n && a != id ==> net.chan[a, b] == old(net.chan[a, b])
      {
        var poly := EvPolyFromSecretAndPointAndDegree(rand[block].secret, 0, t, rand[block].rest);
        var shares := SharesFromEvPoly(poly, n);
        assert rs[block] == Coefs(poly);
        SendEach(shares);
        SentMore(rs, block);
      }
      assert rs[..nBlocks] == rs;
    }

    method PrepSendDouble(double: seq<DoubleDraw>, nBlocks: nat, ghost draws: PartyDraws)
      requires Placed() && PartyDrawn(lay, t, draws) && double == draws.double && nBlocks == |double|
      modifies net.chan
      ensures forall b :: 0 <= b < n ==>
        ListSent(old(net.chan[id, b]), Alternate(LowDeals(t, draws), HighDeals(t, draws)), b)
      ensures forall a, b :: 0 <= a < n && 0 <= b < n && a != id ==> net.chan[a, b] == old(net.chan[a, b])
    {
      hide At, WellFormed, VandermondeRow, Coefs, Single, Blocks, Ids, Msgs, LowDeals, HighDeals, Alternate, RandDeals, Lows, Highs;
      ghost var ds := Alternate(LowDeals(t, draws), HighDeals(t, draws));
      forall b | 0 <= b < n ensures ListSent(old(net.chan[id, b]), ds[..0], b) {
        MsgsNone(b + 1);
        assert ds[..0] == [];
      }
      for block := 0 to nBlocks
        invariant forall b :: 0 <= b < n ==> ListSent(old(net.chan[id, b]), ds[..2 * block], b)
        invariant forall a, b :: 0 <= a < n && 0 <= b < n && a != id ==> net.chan[a, b] == old(net.chan[a, b])
      {
        var d := double[block];
        DoubleRests(lay, t, draws, block);
        var poly := EvPolyFromSecretAndPointAndDegree(d.secret, 0, t, d.rest);
        var polyD := EvPolyFromSecretAndPointAndDegree(d.secret, 0, 2 * t, d.restDouble);
        var shares := SharesFromEvPoly(poly, n);
        var sharesD := SharesFromEvPoly(polyD, n);
        SendPairs(shares, sharesD);
        SentTwoMore(ds, block);
      }
      assert ds[..2 * nBlocks] == ds;
    }

    /** Two shares to every party. */
    method SendPairs(shares: seq<int>, sharesD: seq<int>)
      requires Placed() && |shares| == |sharesD| == n
      modifies net.chan
      ensures forall b :: 0 <= b < n ==> net.chan[id, b] == old(net.chan[id, b]) + [shares[b], sharesD[b]]
      ensures forall a, b :: 0 <= a < n && 0 <= b < n && a != id ==> net.chan[a, b] == old(net.chan[a, b])
    {
      hide WellFormed, VandermondeRow;
      for party := 0 to n
        invariant forall b :: 0 <= b < party ==> net.chan[id, b] == old(net.chan[id, b]) + [shares[b], sharesD[b]]
        invariant forall a, b :: 0 <= a < n && 0 <= b < n && (a != id || b >= party) ==> net.chan[a, b] == old(net.chan[a, b])
      {
        net.Send(id, party, shares[party]);
        net.Send(id, party, sharesD[party]);
      }
    }
  
    /** Two shares from every party. */
    method RecvPairs() returns (recv: seq<int>, recvD: seq<int>)
      requires Placed() && forall i :: 0 <= i < n ==> |net.chan[i, id]| >= 2
      modifies net.chan
      ensures |recv| == |recvD| == n
      ensures forall i :: 0 <= i < n ==> recv[i] == old(net.chan[i, id])[0] && recvD[i] == old(net.chan[i, id])[1]
      ensures forall i :: 0 <= i < n ==> net.chan[i, id] == old(net.chan[i, id])[2..]
      ensures forall a, b :: 0 <= a < n && 0 <= b < n && b != id ==> net.chan[a, b] == old(net.chan[a, b])
    {
      hide WellFormed, VandermondeRow;
      recv, recvD := [], [];
      for party := 0 to n
        invariant |recv| == |recvD| == party
        invariant forall i :: 0 <= i < party ==> recv[i] == old(net.chan[i, id])[0] && recvD[i] == old(net.chan[i, id])[1]
        invariant forall i :: 0 <= i < party ==> net.chan[i, id] == old(net.chan[i, id])[2..]
        invariant forall a, b :: 0 <= a < n && 0 <= b < n && (b != id || a >= party) ==> net.chan[a, b] == old(net.chan[a, b])
      {
        var buffer := net.Recv(party, id);
        recv := recv + [buffer];
        buffer := net.Recv(party, id);
        recvD := recvD + [buffer];
      }
    }

    /** The t + 1 combinations of the shares received in one block. */
    method MixReceived(recv: seq<int>, ghost cs: seq<Coeffs>) returns (out: seq<int>)
      requires Placed() && |cs| == n && recv == Msgs(cs, id + 1)
      requires forall i :: 0 <= i < |cs| ==> |cs[i]| > 0
      ensures out == Msgs(MixBlock(cs, t), id + 1)
    {
      hide F, At, Mix, Weights, Dot, WellFormed;
      out := [];
      for shrIdx := 0 to t + 1
        invariant out == Msgs(MixBlock(cs, t)[..shrIdx], id + 1)
      {
        var shr := F(0);
        DotNone(Weights(n, shrIdx), recv);
        for j := 0 to n
          invariant shr == F(Dot(Weights(n, shrIdx), recv, j))
        {
          DotStep(Weights(n, shrIdx), recv, j);
          WeightIs(n, shrIdx, j, t + 1);
          shr := Add(shr, Mul(vandermonde[j][shrIdx], recv[j]));
        }
        MixShare(cs, recv, shrIdx, id + 1);
        out := out + [shr];
      }
    }

    /** Everyone's shares of the listed polynomials wait for this party, in front of tail. */
    ghost predicate Waiting(deals: seq<seq<Coeffs>>, tail: seq<seq<int>>)
      requires net.Valid() && id < net.parties
      reads net.chan
    {
      && |deals| == |tail| == net.parties
      && forall i :: 0 <= i < net.parties ==> net.chan[i, id] == Msgs(deals[i], id + 1) + tail[i]
    }

    method PrepReceiveRandom(m: nat, ghost deals: seq<seq<Coeffs>>, ghost tail: seq<seq<int>>)
      requires Placed() && DealtExactly(deals, m) && Waiting(deals, tail) && rShrs == []
      modifies this`rShrs, net.chan
      ensures rShrs == Msgs(MixBlocks(deals, t, m), id + 1)
      ensures forall i :: 0 <= i < n ==> net.chan[i, id] == tail[i]
      ensures forall a, b :: 0 <= a < n && 0 <= b < n && b != id ==> net.chan[a, b] == old(net.chan[a, b])
    {
      hide At, MixBlock, VandermondeRow, WellFormed;
      for block := 0 to m
        invariant Dealt(deals, block)
        invariant rShrs == Msgs(MixBlocks(deals, t, block), id + 1)
        invariant forall i :: 0 <= i < n ==> net.chan[i, id] == Msgs(deals[i][block..], id + 1) + tail[i]
        invariant forall a, b :: 0 <= a < n && 0 <= b < n && b != id ==> net.chan[a, b] == old(net.chan[a, b])
      {
        ColumnPositive(deals, block + 1, block);
        ghost var cs := Column(deals, block);
        forall i | 0 <= i < n
          ensures net.chan[i, id] != [] && net.chan[i, id][0] == At(deals[i][block], id + 1)
          ensures net.chan[i, id][1..] == Msgs(deals[i][block + 1..], id + 1) + tail[i]
        {
          assert Msgs(deals[i][block..], id + 1)[0] == At(deals[i][block], id + 1);
        }
        var recv := RecvFrom(0, n);
        var shrs := MixReceived(recv, cs);
        MsgsConcat(MixBlocks(deals, t, block), MixBlock(cs, t), id + 1);
        rShrs := rShrs + shrs;
      }
    }

    /** Shares of two lists of polynomials, in pairs, wait for this party. */
    ghost predicate PairsWaiting(lows: seq<seq<Coeffs>>, highs: seq<seq<Coeffs>>, first: nat)
      requires net.Valid() && id < net.parties
      reads net.chan
    {
      && |lows| == |highs| == net.parties
      && forall i :: 0 <= i < net.parties ==> (
        |lows[i]| == |highs[i]| >= first && net.chan[i, id] == Msgs(Alternate(lows[i], highs[i])[2 * first..], id + 1))
    }

    ghost predicate HasDoubles(low: seq<Coeffs>, high: seq<Coeffs>)
      reads this`dShrs
    {
      |dShrs| == |low| == |high| && forall q :: 0 <= q < |low| ==> dShrs[q] == DoubleShr(At(low[q], id + 1), At(high[q], id + 1))
    }

    method PrepReceiveDouble(m: nat, ghost lows: seq<seq<Coeffs>>, ghost highs: seq<seq<Coeffs>>)
      requires Placed() && DealtExactly(lows, m) && DealtExactly(highs, m) && PairsWaiting(lows, highs, 0) && dShrs == []
      modifies this`dShrs, net.chan
      ensures HasDoubles(MixBlocks(lows, t, m), MixBlocks(highs, t, m))
      ensures forall i :: 0 <= i < n ==> net.chan[i, id] == []
      ensures forall a, b :: 0 <= a < n && 0 <= b < n && b != id ==> net.chan[a, b] == old(net.chan[a, b])
    {
      hide At, MixBlock, MixBlocks, VandermondeRow, WellFormed, Alternate, PairsWaiting, DealtExactly, HasDoubles, Placed;
      PlacedSizes();
      ExactDealt(lows, m, t);
      ExactDealt(highs, m, t);
      NoDoubles(lows, highs);
      for block := 0 to m
        invariant Dealt(lows, block) && Dealt(highs, block)
        invariant HasDoubles(MixBlocks(lows, t, block), MixBlocks(highs, t, block))
        invariant PairsWaiting(lows, highs, block)
        invariant forall a, b :: 0 <= a < n && 0 <= b < n && b != id ==> net.chan[a, b] == old(net.chan[a, b])
      {
        MixMore(lows, block, m, t);
        MixMore(highs, block, m, t);
        ReceivePair(block, m, lows, highs);
      }
      NoPairs(m, lows, highs);
    }

    lemma PlacedSizes()
      requires Placed()
      ensures net.Valid() && n == net.parties && id < n
    {
      hide VandermondeRow, WellFormed;
    }

    lemma NoDoubles(lows: seq<seq<Coeffs>>, highs: seq<seq<Coeffs>>)
      requires Dealt(lows, 0) && Dealt(highs, 0) && dShrs == []
      ensures HasDoubles(MixBlocks(lows, t, 0), MixBlocks(highs, t, 0))
    {
    }

    lemma NoPairs(m: nat, lows: seq<seq<Coeffs>>, highs: seq<seq<Coeffs>>)
      requires net.Valid() && id < net.parties && PairsWaiting(lows, highs, m) && DealtExactly(lows, m)
      ensures forall i :: 0 <= i < net.parties ==> net.chan[i, id] == []
    {
      hide At, Dealt;
      forall i | 0 <= i < net.parties ensures net.chan[i, id] == [] {
        assert net.chan[i, id] == Msgs(Alternate(lows[i], highs[i])[2 * m..], id + 1);
      }
    }

    /** One block of pairs, mixed. */
    method ReceivePair(block: nat, m: nat, ghost lows: seq<seq<Coeffs>>, ghost highs: seq<seq<Coeffs>>)
      requires Placed() && DealtExactly(lows, m) && DealtExactly(highs, m) && PairsWaiting(lows, highs, block) && block < m
      requires Dealt(lows, block) && Dealt(highs, block) && HasDoubles(MixBlocks(lows, t, block), MixBlocks(highs, t, block))
      requires Dealt(lows, block + 1) && Dealt(highs, block + 1)
      modifies this`dShrs, net.chan
      ensures HasDoubles(MixBlocks(lows, t, block + 1), MixBlocks(highs, t, block + 1))
      ensures PairsWaiting(lows, highs, block + 1)
      ensures forall a, b :: 0 <= a < n && 0 <= b < n && b != id ==> net.chan[a, b] == old(net.chan[a, b])
    {
      hide At, MixBlock, MixBlocks, VandermondeRow, WellFormed, Alternate, HasDoubles, Placed;
      PlacedSizes();
      MixMore(lows, block, m, t);
      MixMore(highs, block, m, t);
      ghost var cs, ds := Column(lows, block), Column(highs, block);
      forall i | 0 <= i < n
        ensures |net.chan[i, id]| >= 2 && net.chan[i, id][0] == At(lows[i][block], id + 1) && net.chan[i, id][1] == At(highs[i][block], id + 1)
        ensures net.chan[i, id][2..] == Msgs(Alternate(lows[i], highs[i])[2 * (block + 1)..], id + 1)
      {
        PairNext(lows[i], highs[i], block, id + 1);
      }
      var recv, recvD := RecvPairs();
      var shrs := MixReceived(recv, cs);
      var shrsD := MixReceived(recvD, ds);
      AppendDoubles(shrs, shrsD, MixBlocks(lows, t, block), MixBlock(cs, t), MixBlocks(highs, t, block), MixBlock(ds, t));
    }

    method AppendDoubles(shrs: seq<int>, shrsD: seq<int>, ghost low: seq<Coeffs>, ghost lowMore: seq<Coeffs>,
                         ghost high: seq<Coeffs>, ghost highMore: seq<Coeffs>)
      requires HasDoubles(low, high) && shrs == Msgs(lowMore, id + 1) && shrsD == Msgs(highMore, id + 1) && |shrs| == |shrsD|
      modifies this`dShrs
      ensures HasDoubles(low + lowMore, high + highMore)
    {
      hide At;
      for i := 0 to |shrs|
        invariant HasDoubles(low + lowMore[..i], high + highMore[..i])
      {
        dShrs := dShrs + [DoubleShr(shrs[i], shrsD[i])];
      }
      assert lowMore[..|shrs|] == lowMore && highMore[..|shrs|] == highMore;
    }

    ghost predicate HasPads(pads: Pads)
      reads this`rShrs, this`dShrs
    {
      rShrs == Msgs(pads.rand, id + 1) && HasDoubles(pads.low, pads.high)
    }

    method PrepPartiesReceive(ghost draws: seq<PartyDraws>)
      requires Placed() && AllDrawn(lay, t, draws) && rShrs == [] && dShrs == []
      requires forall i :: 0 <= i < n ==> net.chan[i, id] == Msgs(Outbox(t, draws[i]), id + 1)
      modifies this`rShrs, this`dShrs, net.chan
      ensures HasPads(PadsOf(lay, t, draws))
      ensures forall i :: 0 <= i < n ==> net.chan[i, id] == []
      ensures forall a, b :: 0 <= a < n && 0 <= b < n && b != id ==> net.chan[a, b] == old(net.chan[a, b])
    {
      hide At, MixBlocks, VandermondeRow, WellFormed, Ids, Blocks, Alternate, UnpackedDeals, Msgs, RandDeals, LowDeals, HighDeals,
        Lows, Highs;
      ghost var lows, highs := LowAll(lay, t, draws), HighAll(lay, t, draws);
      ghost var tail := seq(n, i requires 0 <= i < n => Msgs(Alternate(lows[i], highs[i]), id + 1));
      forall i | 0 <= i < n ensures net.chan[i, id] == Msgs(RandAll(lay, t, draws)[i], id + 1) + tail[i] {
        MsgsConcat(RandDeals(t, draws[i]), Alternate(LowDeals(t, draws[i]), HighDeals(t, draws[i])), id + 1);
      }
      PrepReceiveRandom(Blocks(|Ids(lay.gates, AnyInput)|, t), RandAll(lay, t, draws), tail);
      forall i | 0 <= i < n ensures net.chan[i, id] == Msgs(Alternate(lows[i], highs[i])[2 * 0..], id + 1) {
        assert Alternate(lows[i], highs[i])[2 * 0..] == Alternate(lows[i], highs[i]);
      }
      PrepReceiveDouble(Blocks(|MultOrder(lay)|, t), lows, highs);
    }

    // -------------------------------------------------------------- sharings go to gates

    ghost predicate Mapped()
      reads this`mapInputs, this`mapMults
    {
      && (forall g :: g in InputOrder(lay) ==> g in mapInputs && mapInputs[g] == Position(InputOrder(lay), g))
      && (forall g :: g in MultOrder(lay) ==> g in mapMults && mapMults[g] == Position(MultOrder(lay), g))
    }

    method FDMapPrepToGates()
      requires WellFormed(lay) && mapInputs == map[] && mapMults == map[]
      modifies this`mapInputs, this`mapMults
      ensures Mapped()
    {
      hide Ids, WellFormed;
      MultsFlat(lay);
      MapInputs();
      MapMults();
    }

    method MapInputs()
      requires mapInputs == map[]
      modifies this`mapInputs
      ensures forall g :: g in InputOrder(lay) ==> g in mapInputs && mapInputs[g] == Position(InputOrder(lay), g)
    {
      hide Ids, Position;
      var mCTRRandShrs := 0;
      for ownerId := 0 to lay.clients
        invariant mCTRRandShrs == |InputsOf(lay, ownerId)|
        invariant forall i :: 0 <= i < mCTRRandShrs ==> InputsOf(lay, ownerId)[i] in mapInputs && mapInputs[InputsOf(lay, ownerId)[i]] == i
      {
        var flat := Ids(lay.gates, InputOf(ownerId));
        ghost var all := InputsOf(lay, ownerId + 1);
        for i := 0 to |flat|
          invariant mCTRRandShrs == |InputsOf(lay, ownerId)| + i
          invariant forall k :: 0 <= k < mCTRRandShrs ==> all[k] in mapInputs && mapInputs[all[k]] == k
        {
          forall k | 0 <= k < mCTRRandShrs ensures all[k] != flat[i] {
            InputOnce(lay, ownerId + 1, k, mCTRRandShrs);
          }
          mapInputs := mapInputs[flat[i] := mCTRRandShrs];
          mCTRRandShrs := mCTRRandShrs + 1;
        }
      }
      forall g | g in InputOrder(lay) ensures g in mapInputs && mapInputs[g] == Position(InputOrder(lay), g) {
        var i: nat :| i < |InputOrder(lay)| && InputOrder(lay)[i] == g;
        InputPosition(lay, i);
      }
    }

    method MapMults()
      requires mapMults == map[] && Increasing(Flatten(lay.mults))
      modifies this`mapMults
      ensures forall g :: g in Flatten(lay.mults) ==> g in mapMults && mapMults[g] == Position(Flatten(lay.mults), g)
    {
      hide Ids, Position, Flatten;
      var mCTRDoubleShrs := 0;
      ghost var all := Flatten(lay.mults);
      FlattenNone<nat>();
      assert lay.mults[..0] == [];
      for layer := 0 to |lay.mults|
        invariant mCTRDoubleShrs == |Flatten(lay.mults[..layer])|
        invariant forall k :: 0 <= k < mCTRDoubleShrs <= |all| ==> all[k] in mapMults && mapMults[all[k]] == k
      {
        LayerRows(lay.mults, layer);
        for i := 0 to |lay.mults[layer]|
          invariant mCTRDoubleShrs == |Flatten(lay.mults[..layer])| + i
          invariant forall k :: 0 <= k < mCTRDoubleShrs <= |all| ==> all[k] in mapMults && mapMults[all[k]] == k
        {
          assert lay.mults[layer][i] == all[mCTRDoubleShrs];
          mapMults := mapMults[lay.mults[layer][i] := mCTRDoubleShrs];
          mCTRDoubleShrs := mCTRDoubleShrs + 1;
        }
      }
      assert lay.mults[..|lay.mults|] == lay.mults;
      forall g | g in all ensures g in mapMults && mapMults[g] == Position(all, g) {
        var i: nat :| i < |all| && all[i] == g;
        PositionUnique(all, i);
      }
    }
  
    /** This party's share of the random sharing of an input. */
    lemma RandShare(s: Setup, g: nat)
      requires Of(s) && HasPads(s.pads) && Mapped() && g in InputOrder(lay)
      ensures g in mapInputs && mapInputs[g] < |rShrs| && rShrs[mapInputs[g]] == RandAt(s, id + 1)(g)
      ensures g < |lay.gates| && lay.gates[g].InputGate?
    {
      hide At, Ids, VandermondeRow, WellFormed;
      var i := Position(InputOrder(lay), g);
      assert InputOrder(lay)[i] == g;
    }

    /** This party's shares for a multiplication. */
    lemma DoubleShare(s: Setup, g: nat)
      requires Of(s) && HasPads(s.pads) && Mapped() && g < |lay.gates| && lay.gates[g].MultGate?
      ensures g in mapMults && mapMults[g] < |dShrs|
      ensures dShrs[mapMults[g]] == DoubleShr(At(LowOf(s, g), id + 1), At(HighOf(s, g), id + 1))
    {
      hide At, Ids, VandermondeRow, WellFormed, InputOrder;
      IdsComplete(lay.gates, AnyMult, g);
    }

    // -------------------------------------------------------------- shares of gates

    /** The shares that are set are those of the given wires. */
    ghost predicate SharesTrue(f: nat -> int)
      reads this`share
    {
      forall g :: g in share ==> g < |lay.gates| && share[g] == f(g)
    }

    /** The share of a gate, memoised for additions and outputs. */
    method GetDn07Share(g: nat, ghost f: nat -> int) returns (shr: int)
      requires WellFormed(lay) && SharesTrue(f) && Additive(lay, f) && g < |lay.gates| && Reachable(lay, share.Keys, g)
      modifies this`share
      ensures SharesTrue(f) && shr == f(g) && old(share.Keys) <= share.Keys
      decreases g
    {
      hide Ids, Add;
      if g in share {
        return share[g];
      }
      match lay.gates[g] {
        case AddGate(l, r) =>
          ghost var known := share.Keys;
          var a := GetDn07Share(l, f);
          ReachableMore(lay, known, share.Keys, r);
          var b := GetDn07Share(r, f);
          shr := Add(a, b);
        case OutputGate(_, src) =>
          shr := GetDn07Share(src, f);
        case InputGate(_) =>
          assert false;
        case MultGate(_, _) =>
          assert false;
      }
      share := share[g := shr];
    }

    /** The product of the parents' shares minus the share of degree 2t. */
    method MaskedProduct(g: nat, ghost layer: nat, ghost s: Setup, ghost f: nat -> int) returns (shr: int)
      requires Of(s) && HasPads(s.pads) && Mapped() && Layered(lay) && layer < |lay.mults| && g in lay.mults[layer]
      requires SharesTrue(f) && Additive(lay, f) && Known(lay, layer) <= share.Keys
      modifies this`share
      ensures SharesTrue(f) && old(share.Keys) <= share.Keys
      ensures g < |lay.gates| && lay.gates[g].MultGate?
      ensures shr == Sub(Mul(f(lay.gates[g].left), f(lay.gates[g].right)), At(HighOf(s, g), id + 1))
    {
      hide Ids, At, Sub, Mul, VandermondeRow, HighOf, LowOf, SharesTrue, Additive, Known, Good;
      MultLayered(lay, layer, g);
      DoubleShare(s, g);
      ReachableMore(lay, Known(lay, layer), share.Keys, lay.gates[g].left);
      var l := GetDn07Share(lay.gates[g].left, f);
      ReachableMore(lay, Known(lay, layer), share.Keys, lay.gates[g].right);
      var r := GetDn07Share(lay.gates[g].right, f);
      shr := Sub(Mul(l, r), dShrs[mapMults[g]].dshr);
    }

    // -------------------------------------------------------------- the last t parties, before the inputs

    method SetInputShares(ghost s: Setup)
      requires Of(s) && HasPads(s.pads) && Mapped() && share == map[]
      modifies this`share
      ensures SharesTrue(LastAt(s, id + 1)) && Known(lay, 0) <= share.Keys
    {
      hide Ids, WellFormed, Mapped, HasPads, Good, Of, Placed, LastAt, Known, InputOrder;
      OfSizes(s);
      for ownerId := 0 to lay.clients
        invariant SharesTrue(LastAt(s, id + 1))
        invariant forall g :: g in InputsOf(lay, ownerId) ==> g in share
      {
        SetOwnerShares(ownerId, s);
      }
      AllInputs(lay, share.Keys);
    }

    method SetOwnerShares(ownerId: nat, ghost s: Setup)
      requires Of(s) && HasPads(s.pads) && Mapped() && ownerId < lay.clients && SharesTrue(LastAt(s, id + 1))
      modifies this`share
      ensures SharesTrue(LastAt(s, id + 1)) && old(share.Keys) <= share.Keys
      ensures forall g :: g in Ids(lay.gates, InputOf(ownerId)) ==> g in share
    {
      hide Ids, WellFormed, Mapped, HasPads, Good, Of, Placed, LastAt, RandAt, InputOrder, SharesTrue;
      OfSizes(s);
      var flat := Ids(lay.gates, InputOf(ownerId));
      for i := 0 to |flat|
        invariant SharesTrue(LastAt(s, id + 1)) && old(share.Keys) <= share.Keys
        invariant forall k :: 0 <= k < i ==> flat[k] in share
      {
        OwnInput(lay, ownerId, i);
        RandShare(s, flat[i]);
        LastInput(s, id + 1, flat[i]);
        SetShare(flat[i], rShrs[mapInputs[flat[i]]], LastAt(s, id + 1));
      }
    }

    method FDMultPartiesSendP1(ghost s: Setup)
      requires Of(s) && HasPads(s.pads) && Mapped() && Layered(lay) && share == map[]
      modifies this`share, net.chan
      ensures id >= t + 1 ==> SharesTrue(LastAt(s, id + 1))
      ensures id < t + 1 ==> share == map[]
      ensures net.chan[id, 0] == old(net.chan[id, 0]) + if id >= t + 1 then Row(MultOrder(lay), LastProductsAt(s, id + 1)) else []
      ensures forall a, b :: 0 <= a < n && 0 <= b < n && (a, b) != (id, 0) ==> net.chan[a, b] == old(net.chan[a, b])
    {
      hide Ids, WellFormed, Mapped, HasPads, Known, Good, LastAt, LastProductsAt, Layered, Row, Flatten, Of, Placed, SharesTrue, MultOrder;
      if id >= t + 1 {
        OfSizes(s);
        SetInputShares(s);
        SendAllLast(s);
        MultsFlat(lay);
      }
    }

    method SendAllLast(ghost s: Setup)
      requires Of(s) && HasPads(s.pads) && Mapped() && Layered(lay) && id >= t + 1
      requires SharesTrue(LastAt(s, id + 1)) && Known(lay, 0) <= share.Keys
      modifies this`share, net.chan
      ensures SharesTrue(LastAt(s, id + 1))
      ensures net.chan[id, 0] == old(net.chan[id, 0]) + Row(Flatten(lay.mults), LastProductsAt(s, id + 1))
      ensures forall a, b :: 0 <= a < n && 0 <= b < n && (a, b) != (id, 0) ==> net.chan[a, b] == old(net.chan[a, b])
    {
      hide Ids, WellFormed, Mapped, HasPads, Known, Good, LastAt, LastProductsAt, Layered, Row, Flatten, Of, Placed, SharesTrue, MultOrder;
      OfSizes(s);
      NoRows(lay.mults, LastProductsAt(s, id + 1));
      for layer := 0 to |lay.mults|
        invariant SharesTrue(LastAt(s, id + 1)) && Known(lay, layer) <= share.Keys
        invariant net.chan[id, 0] == old(net.chan[id, 0]) + Row(Flatten(lay.mults[..layer]), LastProductsAt(s, id + 1))
        invariant forall a, b :: 0 <= a < n && 0 <= b < n && (a, b) != (id, 0) ==> net.chan[a, b] == old(net.chan[a, b])
      {
        SendLast(layer, s);
        RowLayer(lay.mults, layer, LastProductsAt(s, id + 1));
      }
      assert lay.mults[..|lay.mults|] == lay.mults;
    }

    /** One layer of shares and messages. */
    method SendLast(layer: nat, ghost s: Setup)
      requires Of(s) && HasPads(s.pads) && Mapped() && Layered(lay) && layer < |lay.mults| && id >= t + 1
      requires SharesTrue(LastAt(s, id + 1)) && Known(lay, layer) <= share.Keys
      modifies this`share, net.chan
      ensures SharesTrue(LastAt(s, id + 1)) && Known(lay, layer + 1) <= share.Keys
      ensures net.chan[id, 0] == old(net.chan[id, 0]) + Row(lay.mults[layer], LastProductsAt(s, id + 1))
      ensures forall a, b :: 0 <= a < n && 0 <= b < n && (a, b) != (id, 0) ==> net.chan[a, b] == old(net.chan[a, b])
    {
      hide Ids, At, WellFormed, Mapped, HasPads, Good, LowOf, HighOf, Sub, Mul, Layered, SharesTrue, Row, Known, LastAt, LastProductsAt, Of, Placed,
        Additive, Reachable;
      OfSizes(s);
      var gates := lay.mults[layer];
      ghost var f := LastProductsAt(s, id + 1);
      LastAdditive(s, id + 1);
      RowAll(gates, f);
      for i := 0 to |gates|
        invariant SharesTrue(LastAt(s, id + 1)) && Known(lay, layer) <= share.Keys
        invariant forall k :: 0 <= k < i ==> gates[k] in share
        invariant net.chan[id, 0] == old(net.chan[id, 0]) + Row(gates[..i], f)
        invariant forall a, b :: 0 <= a < n && 0 <= b < n && (a, b) != (id, 0) ==> net.chan[a, b] == old(net.chan[a, b])
      {
        RowTake(gates, f, i);
        SendLastOne(gates[i], layer, s);
      }
      KnownLayer(lay, layer, share.Keys);
    }

    method SendLastOne(g: nat, ghost layer: nat, ghost s: Setup)
      requires Of(s) && HasPads(s.pads) && Mapped() && Layered(lay) && layer < |lay.mults| && id >= t + 1 && g in lay.mults[layer]
      requires n == net.parties && net.Valid() && id < n
      requires SharesTrue(LastAt(s, id + 1)) && Known(lay, layer) <= share.Keys && Additive(lay, LastAt(s, id + 1))
      modifies this`share, net.chan
      ensures SharesTrue(LastAt(s, id + 1)) && old(share.Keys) <= share.Keys && g in share
      ensures net.chan[id, 0] == old(net.chan[id, 0]) + [LastProductsAt(s, id + 1)(g)]
      ensures forall a, b :: 0 <= a < n && 0 <= b < n && (a, b) != (id, 0) ==> net.chan[a, b] == old(net.chan[a, b])
    {
      hide Ids, At, WellFormed, Mapped, HasPads, Good, LowOf, HighOf, Sub, Mul, Layered, SharesTrue, Known, LastAt, LastProductsAt, Of, Placed,
        Additive, Reachable;
      OfSizes(s);
      MultLayered(lay, layer, g);
      DoubleShare(s, g);
      LastMult(s, id + 1, g);
      SetShare(g, dShrs[mapMults[g]].shr, LastAt(s, id + 1));
      var shr := MaskedProduct(g, layer, s, LastAt(s, id + 1));
      net.Send(id, 0, shr);
    }

    method SetShare(g: nat, shr: int, ghost f: nat -> int)
      requires g < |lay.gates| && SharesTrue(f) && shr == f(g)
      modifies this`share
      ensures SharesTrue(f) && share.Keys == old(share.Keys) + {g}
    {
      share := share[g := shr];
    }

    /** P1 stores the early messages, gate by gate. */
    method FDMultP1Receives(ghost s: Setup)
      requires Of(s) && p1SharesFromLast == []
      requires id == 0 ==> forall i :: t + 1 <= i < n ==> net.chan[i, 0] == Row(MultOrder(lay), LastProductsAt(s, i + 1))
      modifies this`p1SharesFromLast, net.chan
      ensures id == 0 ==> p1SharesFromLast == LastColumns(s, MultOrder(lay))
      ensures id == 0 ==> forall i :: t + 1 <= i < n ==> net.chan[i, 0] == []
      ensures id != 0 ==> forall i :: 0 <= i < n ==> net.chan[i, 0] == old(net.chan[i, 0])
      ensures id != 0 ==> p1SharesFromLast == []
      ensures forall a, b :: 0 <= a < n && 0 <= b < n && (b != 0 || a <= t) ==> net.chan[a, b] == old(net.chan[a, b])
    {
      if id == 0 {
        hide Ids, WellFormed, Good, Flatten, Of, Placed, MultOrder, LastWaiting, LastColumns, Row, LastProductsAt;
        OfSizes(s);
        MultsFlat(lay);
        NoRows(lay.mults, LastProductsAt(s, 0));
        LastStart(s);
        for layer := 0 to |lay.mults|
          invariant LastWaiting(s, |Flatten(lay.mults[..layer])|)
          invariant forall a, b :: 0 <= a < n && 0 <= b < n && (b != 0 || a <= t) ==> net.chan[a, b] == old(net.chan[a, b])
        {
          StoreLayer(layer, s);
        }
        assert lay.mults[..|lay.mults|] == lay.mults;
        LastDone(s);
      }
    }

    method StoreLayer(layer: nat, ghost s: Setup)
      requires Of(s) && n == net.parties && id == 0 && layer < |lay.mults| && LastWaiting(s, |Flatten(lay.mults[..layer])|)
      modifies this`p1SharesFromLast, net.chan
      ensures LastWaiting(s, |Flatten(lay.mults[..layer + 1])|)
      ensures forall a, b :: 0 <= a < n && 0 <= b < n && (b != 0 || a <= t) ==> net.chan[a, b] == old(net.chan[a, b])
    {
      hide Ids, WellFormed, Good, Flatten, Of, Placed, MultOrder, LastWaiting;
      OfSizes(s);
      MultsFlat(lay);
      LayerRows(lay.mults, layer);
      for j := 0 to |lay.mults[layer]|
        invariant LastWaiting(s, |Flatten(lay.mults[..layer])| + j)
        invariant forall a, b :: 0 <= a < n && 0 <= b < n && (b != 0 || a <= t) ==> net.chan[a, b] == old(net.chan[a, b])
      {
        StoreColumn(|Flatten(lay.mults[..layer])| + j, s);
      }
    }

    /** The early messages for the first q gates are stored, the others wait. */
    ghost predicate LastWaiting(s: Setup, q: nat)
      requires Good(s) && net.Valid() && n == net.parties && n > 0 && lay == s.lay
      reads this`p1SharesFromLast, net.chan
    {
      && q <= |MultOrder(lay)| && p1SharesFromLast == LastColumns(s, MultOrder(lay)[..q])
      && forall i :: t + 1 <= i < n ==> net.chan[i, 0] == Row(MultOrder(lay)[q..], LastProductsAt(s, i + 1))
    }

    method StoreColumn(ghost q: nat, ghost s: Setup)
      requires Of(s) && n == net.parties && id == 0 && q < |MultOrder(lay)| && LastWaiting(s, q)
      modifies this`p1SharesFromLast, net.chan
      ensures LastWaiting(s, q + 1)
      ensures forall a, b :: 0 <= a < n && 0 <= b < n && (b != 0 || a <= t) ==> net.chan[a, b] == old(net.chan[a, b])
    {
      hide Ids, WellFormed, Good, LastProductsAt, Row, Of, Placed;
      OfSizes(s);
      ghost var all := MultOrder(lay);
      forall i | t + 1 <= i < n
        ensures net.chan[i, 0] == [LastProductsAt(s, i + 1)(all[q])] + Row(all[q + 1..], LastProductsAt(s, i + 1))
      {
        RowTake(all, LastProductsAt(s, i + 1), q);
      }
      label Before:
      var sharesFromLast := RecvFrom(t + 1, n);
      forall j | 0 <= j < n - t - 1 ensures sharesFromLast[j] == LastColumn(s, all[q])[j] {
        var i := t + 1 + j;
        assert sharesFromLast[i - (t + 1)] == old@Before(net.chan[i, id])[0] == LastProductsAt(s, i + 1)(all[q]);
      }
      assert sharesFromLast == LastColumn(s, all[q]);
      p1SharesFromLast := p1SharesFromLast + [sharesFromLast];
      assert all[..q + 1] == all[..q] + [all[q]];
    }

    lemma LastStart(s: Setup)
      requires Good(s) && net.Valid() && n == net.parties && n > 0 && lay == s.lay && p1SharesFromLast == []
      requires forall i :: t + 1 <= i < n ==> net.chan[i, 0] == Row(MultOrder(lay), LastProductsAt(s, i + 1))
      ensures LastWaiting(s, 0)
    {
      hide Ids, Good, LastProductsAt, Row;
      assert MultOrder(lay)[0..] == MultOrder(lay) && MultOrder(lay)[..0] == [];
    }

    lemma LastDone(s: Setup)
      requires Good(s) && net.Valid() && n == net.parties && n > 0 && lay == s.lay && LastWaiting(s, |MultOrder(lay)|)
      ensures p1SharesFromLast == LastColumns(s, MultOrder(lay))
      ensures forall i :: t + 1 <= i < n ==> net.chan[i, 0] == []
    {
      hide Ids, Good, LastProductsAt;
      var all := MultOrder(lay);
      assert all[..|all|] == all;
      forall i | t + 1 <= i < n ensures net.chan[i, 0] == [] {
        RowAll(all, LastProductsAt(s, i + 1));
      }
    }
  
    // -------------------------------------------------------------- inputs

    /** One value for each of this party's input gates. */
    method SetInputs(inputs: seq<int>) returns (ok: bool)
      modifies this`value
      ensures ok <==> |inputs| == |Ids(lay.gates, InputOf(id))|
      ensures ok ==> HasInputs(inputs)
    {
      hide Ids;
      var flat := Ids(lay.gates, InputOf(id));
      if |inputs| != |flat| {
        return false;
      }
      for i := 0 to |inputs|
        invariant forall j :: 0 <= j < i ==> flat[j] in value && value[flat[j]] == inputs[j]
      {
        value := value[flat[i] := inputs[i]];
      }
      return true;
    }

    ghost predicate HasInputs(inputs: seq<int>)
      reads this`value
    {
      var flat := Ids(lay.gates, InputOf(id));
      |inputs| == |flat| && forall i :: 0 <= i < |flat| ==> flat[i] in value && value[flat[i]] == inputs[i]
    }

    /** The first t + 1 parties send their shares of the random numbers to the owners. */
    method InputPartiesSendOwners(ghost s: Setup)
      requires Of(s) && HasPads(s.pads) && Mapped()
      modifies net.chan
      ensures forall c :: 0 <= c < n ==>
        net.chan[id, c] == old(net.chan[id, c]) + if id < t + 1 then Row(Ids(lay.gates, InputOf(c)), RandAt(s, id + 1)) else []
      ensures forall a, b :: 0 <= a < n && 0 <= b < n && a != id ==> net.chan[a, b] == old(net.chan[a, b])
    {
      hide Ids, WellFormed, Mapped, HasPads, Good, Of, Placed, RandAt, Row;
      OfSizes(s);
      for ownerId := 0 to lay.clients
        invariant forall c :: 0 <= c < n ==>
          net.chan[id, c] == old(net.chan[id, c]) + if id < t + 1 && c < ownerId then Row(Ids(lay.gates, InputOf(c)), RandAt(s, id + 1)) else []
        invariant forall a, b :: 0 <= a < n && 0 <= b < n && a != id ==> net.chan[a, b] == old(net.chan[a, b])
      {
        SendOwner(ownerId, s);
      }
    }

    method SendOwner(ownerId: nat, ghost s: Setup)
      requires Of(s) && HasPads(s.pads) && Mapped() && ownerId < lay.clients
      modifies net.chan
      ensures ownerId < n && net.parties == n && id < n
      ensures net.chan[id, ownerId] == old(net.chan[id, ownerId]) + if id < t + 1 then Row(Ids(lay.gates, InputOf(ownerId)), RandAt(s, id + 1)) else []
      ensures forall a, b :: 0 <= a < n && 0 <= b < n && (a, b) != (id, ownerId) ==> net.chan[a, b] == old(net.chan[a, b])
    {
      hide Ids, WellFormed, Mapped, HasPads, Good, Of, Placed, RandAt, Row, InputOrder;
      OfSizes(s);
      ghost var f := RandAt(s, id + 1);
      var flat := Ids(lay.gates, InputOf(ownerId));
      RowAll(flat, f);
      for i := 0 to |flat|
        invariant net.chan[id, ownerId] == old(net.chan[id, ownerId]) + if id < t + 1 then Row(flat[..i], f) else []
        invariant forall a, b :: 0 <= a < n && 0 <= b < n && (a, b) != (id, ownerId) ==> net.chan[a, b] == old(net.chan[a, b])
      {
        if id < t + 1 {
          OwnInput(lay, ownerId, i);
          RandShare(s, flat[i]);
          RowTake(flat, f, i);
          net.Send(id, ownerId, rShrs[mapInputs[flat[i]]]);
        }
      }
    }

    /** What waits for an owner from party i, after the random shares of q inputs have been taken
        and shares of r masked inputs sent. */
    ghost function OwnColumn(s: Setup, inputs: seq<seq<int>>, tail: seq<seq<int>>, q: nat, r: nat, i: nat): seq<int>
      requires Good(s) && Matches(s.lay, inputs) && i < |tail|
      requires q <= |Ids(lay.gates, InputOf(id))| && r <= |Ids(lay.gates, InputOf(id))|
    {
      var flat := Ids(lay.gates, InputOf(id));
      (if i <= t then Row(flat[q..], RandAt(s, i + 1)) else [])
        + (tail[i] + if i == id && id <= t then Row(flat[..r], MaskedAt(s, inputs, id + 1)) else [])
    }

    /** The owner has taken the random shares of its first q inputs and sent shares of r masked
        values. base is what it had sent before, tail what waits behind. */
    ghost predicate Owning(s: Setup, inputs: seq<seq<int>>, base: seq<seq<int>>, tail: seq<seq<int>>, q: nat, r: nat)
      requires Good(s) && Matches(s.lay, inputs) && net.Valid() && n == net.parties && id < n && lay == s.lay
      requires q <= |Ids(lay.gates, InputOf(id))| && r <= |Ids(lay.gates, InputOf(id))|
      reads net.chan
    {
      && |base| == |tail| == n
      && (forall i :: 0 <= i < n ==> net.chan[i, id] == OwnColumn(s, inputs, tail, q, r, i))
      && (forall b :: 0 <= b < n && b != id ==> (
        net.chan[id, b] == base[b] + if b <= t then Row(Ids(lay.gates, InputOf(id))[..r], MaskedAt(s, inputs, b + 1)) else []))
    }

    lemma ColumnHead(s: Setup, inputs: seq<seq<int>>, tail: seq<seq<int>>, q: nat, r: nat, i: nat)
      requires Good(s) && Matches(s.lay, inputs) && i < |tail| && i <= t
      requires q < |Ids(lay.gates, InputOf(id))| && r <= |Ids(lay.gates, InputOf(id))|
      ensures OwnColumn(s, inputs, tail, q, r, i) ==
        [RandAt(s, i + 1)(Ids(lay.gates, InputOf(id))[q])] + OwnColumn(s, inputs, tail, q + 1, r, i)
    {
      hide Ids, Good, Matches, RandAt, MaskedAt, Row;
      var flat := Ids(lay.gates, InputOf(id));
      RowTake(flat, RandAt(s, i + 1), q);
      ConcatAssoc([RandAt(s, i + 1)(flat[q])], Row(flat[q + 1..], RandAt(s, i + 1)),
        tail[i] + if i == id && id <= t then Row(flat[..r], MaskedAt(s, inputs, id + 1)) else []);
    }

    lemma OwnColumnGrows(s: Setup, inputs: seq<seq<int>>, tail: seq<seq<int>>, q: nat, r: nat)
      requires Good(s) && Matches(s.lay, inputs) && id < |tail| && id <= t
      requires q <= |Ids(lay.gates, InputOf(id))| && r < |Ids(lay.gates, InputOf(id))|
      ensures OwnColumn(s, inputs, tail, q, r + 1, id) ==
        OwnColumn(s, inputs, tail, q, r, id) + [MaskedAt(s, inputs, id + 1)(Ids(lay.gates, InputOf(id))[r])]
    {
      hide Ids, Good, Matches, RandAt, MaskedAt, Row;
      var flat := Ids(lay.gates, InputOf(id));
      var f := MaskedAt(s, inputs, id + 1);
      RowTake(flat, f, r);
      ConcatAssoc(tail[id], Row(flat[..r], f), [f(flat[r])]);
      ConcatAssoc(Row(flat[q..], RandAt(s, id + 1)), tail[id] + Row(flat[..r], f), [f(flat[r])]);
    }

    method InputOwnersReceiveAndSendParties(ghost s: Setup, ghost inputs: seq<seq<int>>, ghost base: seq<seq<int>>, ghost tail: seq<seq<int>>)
      requires IsPrime(P61) && Of(s) && Matches(s.lay, inputs) && n == net.parties && HasInputs(inputs[id])
      requires Owning(s, inputs, base, tail, 0, 0)
      modifies net.chan
      ensures Owning(s, inputs, base, tail, |Ids(lay.gates, InputOf(id))|, |Ids(lay.gates, InputOf(id))|)
      ensures forall a, b :: 0 <= a < n && 0 <= b < n && a != id && b != id ==> net.chan[a, b] == old(net.chan[a, b])
    {
      hide Ids, WellFormed, Good, Of, Placed, Owning, IsPrime, HasInputs, Matches;
      OfSizes(s);
      var flat := Ids(lay.gates, InputOf(id));
      for i := 0 to |flat|
        invariant Owning(s, inputs, base, tail, i, i)
        invariant forall a, b :: 0 <= a < n && 0 <= b < n && a != id && b != id ==> net.chan[a, b] == old(net.chan[a, b])
      {
        ShareInput(i, s, inputs, base, tail);
      }
    }

    method ShareInput(i: nat, ghost s: Setup, ghost inputs: seq<seq<int>>, ghost base: seq<seq<int>>, ghost tail: seq<seq<int>>)
      requires IsPrime(P61) && Of(s) && Matches(s.lay, inputs) && n == net.parties && HasInputs(inputs[id])
      requires i < |Ids(lay.gates, InputOf(id))| && Owning(s, inputs, base, tail, i, i)
      modifies net.chan
      ensures Owning(s, inputs, base, tail, i + 1, i + 1)
      ensures forall a, b :: 0 <= a < n && 0 <= b < n && a != id && b != id ==> net.chan[a, b] == old(net.chan[a, b])
    {
      hide Ids, WellFormed, Good, Of, Placed, IsPrime, Matches, RandAt, MaskedAt, Row, At, Coefs, ZeroedPoly, Rebuilt, Owning;
      OfSizes(s);
      var flat := Ids(lay.gates, InputOf(id));
      var g := flat[i];
      OwnInput(lay, id, i);
      var recvShares := TakeRandom(i, s, inputs, base, tail);
      MaskRebuilt(s, g, recvShares);
      var mask := SecretFromShares(recvShares);
      InputIs(s, inputs, id, i);
      var masked := Sub(value[g], mask);
      var sharesToSend := SharesOfZeroed(masked);
      MaskedShares(s, inputs, g, sharesToSend);
      SendMasked(i, sharesToSend, s, inputs, base, tail);
    }

    method TakeRandom(q: nat, ghost s: Setup, ghost inputs: seq<seq<int>>, ghost base: seq<seq<int>>, ghost tail: seq<seq<int>>)
      returns (recvShares: seq<int>)
      requires Of(s) && Matches(s.lay, inputs) && n == net.parties
      requires q < |Ids(lay.gates, InputOf(id))| && Owning(s, inputs, base, tail, q, q)
      modifies net.chan
      ensures Owning(s, inputs, base, tail, q + 1, q)
      ensures |recvShares| == t + 1 && forall i :: 0 <= i <= t ==> recvShares[i] == RandAt(s, i + 1)(Ids(lay.gates, InputOf(id))[q])
      ensures forall a, b :: 0 <= a < n && 0 <= b < n && a != id && b != id ==> net.chan[a, b] == old(net.chan[a, b])
    {
      hide Ids, WellFormed, Good, Of, Placed, Matches, RandAt, MaskedAt, Row, OwnColumn;
      OfSizes(s);
      forall i | 0 <= i <= t
        ensures net.chan[i, id] == [RandAt(s, i + 1)(Ids(lay.gates, InputOf(id))[q])] + OwnColumn(s, inputs, tail, q + 1, q, i)
      {
        ColumnHead(s, inputs, tail, q, q, i);
      }
      label Before:
      recvShares := RecvFrom(0, t + 1);
      forall i | 0 <= i <= t ensures recvShares[i] == RandAt(s, i + 1)(Ids(lay.gates, InputOf(id))[q]) {
        assert recvShares[i - 0] == old@Before(net.chan[i, id])[0];
      }
      forall i | 0 <= i < n ensures net.chan[i, id] == OwnColumn(s, inputs, tail, q + 1, q, i) {
        if i > t {
          ColumnSame(s, inputs, tail, q, q, i);
        }
      }
    }

    lemma ColumnSame(s: Setup, inputs: seq<seq<int>>, tail: seq<seq<int>>, q: nat, r: nat, i: nat)
      requires Good(s) && Matches(s.lay, inputs) && t < i < |tail|
      requires q < |Ids(lay.gates, InputOf(id))| && r < |Ids(lay.gates, InputOf(id))|
      ensures OwnColumn(s, inputs, tail, q, r, i) == OwnColumn(s, inputs, tail, q + 1, r, i)
    {
      hide Ids, Good, Matches, RandAt, MaskedAt, Row;
    }

    lemma ColumnSameSent(s: Setup, inputs: seq<seq<int>>, tail: seq<seq<int>>, q: nat, r: nat, i: nat)
      requires Good(s) && Matches(s.lay, inputs) && i < |tail| && (i != id || id > t)
      requires q <= |Ids(lay.gates, InputOf(id))| && r < |Ids(lay.gates, InputOf(id))|
      ensures OwnColumn(s, inputs, tail, q, r + 1, i) == OwnColumn(s, inputs, tail, q, r, i)
    {
      hide Ids, Good, Matches, RandAt, MaskedAt, Row;
    }

    method SendMasked(ghost q: nat, shares: seq<int>, ghost s: Setup, ghost inputs: seq<seq<int>>, ghost base: seq<seq<int>>,
                      ghost tail: seq<seq<int>>)
      requires Of(s) && Matches(s.lay, inputs) && n == net.parties
      requires q < |Ids(lay.gates, InputOf(id))| && Owning(s, inputs, base, tail, q + 1, q)
      requires |shares| == t + 1 && forall i :: 0 <= i <= t ==> shares[i] == MaskedAt(s, inputs, i + 1)(Ids(lay.gates, InputOf(id))[q])
      modifies net.chan
      ensures Owning(s, inputs, base, tail, q + 1, q + 1)
      ensures forall a, b :: 0 <= a < n && 0 <= b < n && a != id && b != id ==> net.chan[a, b] == old(net.chan[a, b])
    {
      hide Ids, WellFormed, Good, Of, Placed, Matches, RandAt, MaskedAt, Row, OwnColumn;
      OfSizes(s);
      ghost var flat := Ids(lay.gates, InputOf(id));
      forall b | 0 <= b <= t
        ensures Row(flat[..q + 1], MaskedAt(s, inputs, b + 1)) == Row(flat[..q], MaskedAt(s, inputs, b + 1)) + [shares[b]]
      {
        RowTake(flat, MaskedAt(s, inputs, b + 1), q);
      }
      SendEach(shares);
      forall i | 0 <= i < n ensures net.chan[i, id] == OwnColumn(s, inputs, tail, q + 1, q + 1, i) {
        if i == id && id <= t {
          OwnColumnGrows(s, inputs, tail, q + 1, q);
        } else {
          ColumnSameSent(s, inputs, tail, q + 1, q, i);
        }
      }
    }

    /** The masked inputs of the owners from first on wait for this party. */
    ghost predicate InputsComing(s: Setup, inputs: seq<seq<int>>, first: nat)
      requires Good(s) && Matches(s.lay, inputs) && net.Valid() && id < net.parties
      reads net.chan
    {
      forall c :: 0 <= c < net.parties ==>
        net.chan[c, id] == if id <= t && c >= first then Row(Ids(lay.gates, InputOf(c)), MaskedAt(s, inputs, id + 1)) else []
    }

    /** The first t + 1 parties add their shares of the masked value and of the random number. */
    method InputPartiesReceive(ghost s: Setup, ghost inputs: seq<seq<int>>)
      requires Of(s) && Matches(s.lay, inputs) && HasPads(s.pads) && Mapped() && n == net.parties
      requires (id <= t ==> share == map[]) && InputsComing(s, inputs, 0)
      modifies this`share, net.chan
      ensures id <= t ==> SharesTrue(GateAt(s, inputs, id + 1)) && Known(lay, 0) <= share.Keys
      ensures id > t ==> share == old(share)
      ensures forall c :: 0 <= c < n ==> net.chan[c, id] == []
      ensures forall a, b :: 0 <= a < n && 0 <= b < n && b != id ==> net.chan[a, b] == old(net.chan[a, b])
    {
      hide Ids, WellFormed, Mapped, HasPads, Good, Of, Placed, MaskedAt, GateAt, Row, Known, Matches, SharesTrue;
      if id <= t {
        OfSizes(s);
        NothingTrue(GateAt(s, inputs, id + 1));
        ReceiveInputs(s, inputs);
        AllInputs(lay, share.Keys);
      }
    }

    lemma NothingTrue(f: nat -> int)
      requires share == map[]
      ensures SharesTrue(f)
    {
    }

    /** The inputs of the first c owners have shares. */
    ghost predicate HasOwners(c: nat)
      reads this`share
    {
      forall g :: g in InputsOf(lay, c) ==> g in share
    }

    method ReceiveInputs(ghost s: Setup, ghost inputs: seq<seq<int>>)
      requires Of(s) && Matches(s.lay, inputs) && HasPads(s.pads) && Mapped() && n == net.parties && id <= t
      requires SharesTrue(GateAt(s, inputs, id + 1)) && InputsComing(s, inputs, 0)
      modifies this`share, net.chan
      ensures SharesTrue(GateAt(s, inputs, id + 1)) && HasOwners(n)
      ensures InputsComing(s, inputs, n)
      ensures forall a, b :: 0 <= a < n && 0 <= b < n && b != id ==> net.chan[a, b] == old(net.chan[a, b])
    {
      hide Ids, WellFormed, Mapped, HasPads, Good, Of, Placed, MaskedAt, GateAt, Row, Matches, SharesTrue, InputsComing, HasOwners;
      OfSizes(s);
      NoOwners();
      for ownerId := 0 to lay.clients
        invariant SharesTrue(GateAt(s, inputs, id + 1)) && InputsComing(s, inputs, ownerId)
        invariant HasOwners(ownerId)
        invariant forall a, b :: 0 <= a < n && 0 <= b < n && b != id ==> net.chan[a, b] == old(net.chan[a, b])
      {
        ReceiveOwner(ownerId, s, inputs);
      }
    }

    lemma NoOwners()
      ensures HasOwners(0)
    {
    }

    method ReceiveOwner(ownerId: nat, ghost s: Setup, ghost inputs: seq<seq<int>>)
      requires Of(s) && Matches(s.lay, inputs) && HasPads(s.pads) && Mapped() && n == net.parties && ownerId < n && id <= t
      requires SharesTrue(GateAt(s, inputs, id + 1)) && InputsComing(s, inputs, ownerId) && HasOwners(ownerId)
      modifies this`share, net.chan
      ensures SharesTrue(GateAt(s, inputs, id + 1)) && InputsComing(s, inputs, ownerId + 1) && HasOwners(ownerId + 1)
      ensures forall a, b :: 0 <= a < n && 0 <= b < n && b != id ==> net.chan[a, b] == old(net.chan[a, b])
    {
      hide Ids, WellFormed, Mapped, HasPads, Good, Of, Placed, MaskedAt, GateAt, Row, Matches, SharesTrue;
      OfSizes(s);
      ReceiveMasked(ownerId, s, inputs);
    }

    method ReceiveMasked(ownerId: nat, ghost s: Setup, ghost inputs: seq<seq<int>>)
      requires Of(s) && Matches(s.lay, inputs) && HasPads(s.pads) && Mapped() && n == net.parties && ownerId < n
      requires SharesTrue(GateAt(s, inputs, id + 1))
      requires net.chan[ownerId, id] == Row(Ids(lay.gates, InputOf(ownerId)), MaskedAt(s, inputs, id + 1))
      modifies this`share, net.chan
      ensures SharesTrue(GateAt(s, inputs, id + 1)) && old(share.Keys) <= share.Keys
      ensures forall g :: g in Ids(lay.gates, InputOf(ownerId)) ==> g in share
      ensures net.chan[ownerId, id] == []
      ensures forall a, b :: 0 <= a < n && 0 <= b < n && (a, b) != (ownerId, id) ==> net.chan[a, b] == old(net.chan[a, b])
    {
      hide Ids, WellFormed, Mapped, HasPads, Good, Of, Placed, MaskedAt, GateAt, RandAt, Row, SharesTrue, InputOrder, Add;
      OfSizes(s);
      ghost var f := MaskedAt(s, inputs, id + 1);
      var flat := Ids(lay.gates, InputOf(ownerId));
      RowAll(flat, f);
      for i := 0 to |flat|
        invariant SharesTrue(GateAt(s, inputs, id + 1)) && old(share.Keys) <= share.Keys
        invariant forall k :: 0 <= k < i ==> flat[k] in share
        invariant net.chan[ownerId, id] == Row(flat[i..], f)
        invariant forall a, b :: 0 <= a < n && 0 <= b < n && (a, b) != (ownerId, id) ==> net.chan[a, b] == old(net.chan[a, b])
      {
        RowTake(flat, f, i);
        var shareOfMasked := net.Recv(ownerId, id);
        OwnInput(lay, ownerId, i);
        RandShare(s, flat[i]);
        InputShareIs(s, inputs, id + 1, flat[i]);
        SetShare(flat[i], Add(shareOfMasked, rShrs[mapInputs[flat[i]]]), GateAt(s, inputs, id + 1));
      }
    }
  
    // -------------------------------------------------------------- multiplications

    /** A party of the first t + 1 holds true shares of all inputs and of the first d layers. */
    ghost predicate Online(s: Setup, inputs: seq<seq<int>>, d: nat)
      requires Good(s) && Matches(s.lay, inputs) && d <= |lay.mults|
      reads this`share
    {
      id <= t ==> SharesTrue(GateAt(s, inputs, id + 1)) && Known(lay, d) <= share.Keys
    }

    /** Masked products of a layer, to P1. */
    method MultPartiesSendP1(layer: nat, ghost s: Setup, ghost inputs: seq<seq<int>>)
      requires Of(s) && Matches(s.lay, inputs) && HasPads(s.pads) && Mapped() && Layered(lay) && layer < |lay.mults| && n == net.parties && n > 0
      requires Online(s, inputs, layer)
      modifies this`share, net.chan
      ensures Online(s, inputs, layer)
      ensures net.chan[id, 0] == old(net.chan[id, 0]) + if id <= t then Row(lay.mults[layer], ProductsAt(s, inputs, id + 1)) else []
      ensures forall a, b :: 0 <= a < n && 0 <= b < n && (a, b) != (id, 0) ==> net.chan[a, b] == old(net.chan[a, b])
    {
      hide Ids, WellFormed, Mapped, HasPads, Good, Of, Placed, GateAt, ProductsAt, Row, Known, Matches, SharesTrue, Layered;
      if id <= t {
        OfSizes(s);
        SendProducts(layer, s, inputs);
      }
    }

    method SendProducts(layer: nat, ghost s: Setup, ghost inputs: seq<seq<int>>)
      requires Of(s) && Matches(s.lay, inputs) && HasPads(s.pads) && Mapped() && Layered(lay) && layer < |lay.mults| && n == net.parties && n > 0
      requires SharesTrue(GateAt(s, inputs, id + 1)) && Known(lay, layer) <= share.Keys
      modifies this`share, net.chan
      ensures SharesTrue(GateAt(s, inputs, id + 1)) && old(share.Keys) <= share.Keys
      ensures net.chan[id, 0] == old(net.chan[id, 0]) + Row(lay.mults[layer], ProductsAt(s, inputs, id + 1))
      ensures forall a, b :: 0 <= a < n && 0 <= b < n && (a, b) != (id, 0) ==> net.chan[a, b] == old(net.chan[a, b])
    {
      hide Ids, At, WellFormed, Mapped, HasPads, Good, Of, Placed, GateAt, ProductsAt, Row, Known, Matches, SharesTrue, Layered, Additive, HighOf, Sub, Mul, Reachable;
      OfSizes(s);
      GateAdditive(s, inputs, id + 1);
      var gates := lay.mults[layer];
      ghost var f := ProductsAt(s, inputs, id + 1);
      RowAll(gates, f);
      for i := 0 to |gates|
        invariant SharesTrue(GateAt(s, inputs, id + 1)) && old(share.Keys) <= share.Keys
        invariant net.chan[id, 0] == old(net.chan[id, 0]) + Row(gates[..i], f)
        invariant forall a, b :: 0 <= a < n && 0 <= b < n && (a, b) != (id, 0) ==> net.chan[a, b] == old(net.chan[a, b])
      {
        var shr := MaskedProduct(gates[i], layer, s, GateAt(s, inputs, id + 1));
        ProductShareIs(s, inputs, id + 1, gates[i]);
        RowTake(gates, f, i);
        net.Send(id, 0, shr);
      }
    }

    /** P1 has opened the first q products of a layer: what it returns is queued, and the other
        messages, early and late, wait. */
    ghost predicate Opening(s: Setup, inputs: seq<seq<int>>, layer: nat, q: nat)
      requires Good(s) && Matches(s.lay, inputs) && net.Valid() && n == net.parties && n > 0 && lay == s.lay
      requires layer < |lay.mults| && q <= |lay.mults[layer]|
      reads this`p1SharesFromLast, this`p1SharesToSend, net.chan
    {
      && p1SharesToSend == ReturnRows(s, inputs, lay.mults[layer][..q])
      && p1SharesFromLast == LastColumns(s, lay.mults[layer][q..] + Flatten(lay.mults[layer + 1..]))
      && forall i :: 0 <= i < n ==> net.chan[i, 0] == if i <= t then Row(lay.mults[layer][q..], ProductsAt(s, inputs, i + 1)) else []
    }

    method MultP1Receives(layer: nat, ghost s: Setup, ghost inputs: seq<seq<int>>)
      requires IsPrime(P61) && Of(s) && Matches(s.lay, inputs) && Layered(lay) && layer < |lay.mults| && n == net.parties
      requires id == 0 ==> Opening(s, inputs, layer, 0)
      modifies this`p1SharesFromLast, this`p1SharesToSend, net.chan
      ensures id == 0 ==> Opening(s, inputs, layer, |lay.mults[layer]|)
      ensures id != 0 ==> forall a, b :: 0 <= a < n && 0 <= b < n ==> net.chan[a, b] == old(net.chan[a, b])
      ensures id != 0 ==> p1SharesFromLast == old(p1SharesFromLast) && p1SharesToSend == old(p1SharesToSend)
      ensures forall a, b :: 0 <= a < n && 1 <= b < n ==> net.chan[a, b] == old(net.chan[a, b])
    {
      hide Ids, WellFormed, Good, Of, Placed, Opening, IsPrime, Layered, Matches;
      if id == 0 {
        OfSizes(s);
        for i := 0 to |lay.mults[layer]|
          invariant Opening(s, inputs, layer, i)
          invariant forall a, b :: 0 <= a < n && 1 <= b < n ==> net.chan[a, b] == old(net.chan[a, b])
        {
          OpenProduct(layer, i, s, inputs);
        }
      }
    }

    method OpenProduct(ghost layer: nat, ghost q: nat, ghost s: Setup, ghost inputs: seq<seq<int>>)
      requires IsPrime(P61) && Of(s) && Matches(s.lay, inputs) && Layered(lay) && layer < |lay.mults| && n == net.parties && id == 0
      requires q < |lay.mults[layer]| && Opening(s, inputs, layer, q)
      modifies this`p1SharesFromLast, this`p1SharesToSend, net.chan
      ensures Opening(s, inputs, layer, q + 1)
      ensures forall a, b :: 0 <= a < n && 1 <= b < n ==> net.chan[a, b] == old(net.chan[a, b])
    {
      hide Ids, At, WellFormed, Good, Of, Placed, IsPrime, Layered, Matches, ProductsAt, Row, LastColumn, ZeroedPoly, Rebuilt, Flatten, Reachable, Known;
      OfSizes(s);
      ghost var gates := lay.mults[layer];
      ghost var g := gates[q];
      MultLayered(lay, layer, g);
      ghost var later := gates[q + 1..] + Flatten(lay.mults[layer + 1..]);
      assert gates[q..] + Flatten(lay.mults[layer + 1..]) == [g] + later;
      assert gates[..q + 1] == gates[..q] + [g];
      forall i | 0 <= i <= t
        ensures net.chan[i, id] == [ProductsAt(s, inputs, i + 1)(g)] + Row(gates[q + 1..], ProductsAt(s, inputs, i + 1))
      {
        RowTake(gates, ProductsAt(s, inputs, i + 1), q);
      }
      label Before:
      var shares := RecvFrom(0, t + 1);
      forall i | 0 <= i <= t ensures shares[i] == ProductsAt(s, inputs, i + 1)(g) {
        assert shares[i - 0] == old@Before(net.chan[i, id])[0];
      }
      var sharesFromLast := p1SharesFromLast[0];
      p1SharesFromLast := p1SharesFromLast[1..];
      shares := AppendLast(shares, sharesFromLast);
      ProductRebuilt(s, inputs, g, shares);
      var secret := SecretFromShares(shares);
      var sharesToSend := SharesOfZeroed(secret);
      p1SharesToSend := p1SharesToSend + [sharesToSend];
    }

    /** The early shares behind the late ones. */
    method AppendLast(shares: seq<int>, sharesFromLast: seq<int>) returns (all: seq<int>)
      requires n > 2 * t && |shares| == t + 1 && |sharesFromLast| == n - t - 1
      ensures all == shares + sharesFromLast
    {
      all := shares;
      for i := t + 1 to n
        invariant all == shares + sharesFromLast[..i - (t + 1)]
      {
        all := all + [sharesFromLast[i - (t + 1)]];
      }
      assert sharesFromLast[..n - t - 1] == sharesFromLast;
    }

    /** P1 returns shares of the opened products. */
    method MultP1SendsParties(layer: nat, ghost s: Setup, ghost inputs: seq<seq<int>>)
      requires Of(s) && Matches(s.lay, inputs) && Layered(lay) && layer < |lay.mults| && n == net.parties && n > 0
      requires id == 0 ==> p1SharesToSend == ReturnRows(s, inputs, lay.mults[layer])
      modifies this`p1SharesToSend, net.chan
      ensures id == 0 ==> p1SharesToSend == []
      ensures id != 0 ==> p1SharesToSend == old(p1SharesToSend)
      ensures forall b :: 0 <= b < n ==>
        net.chan[0, b] == old(net.chan[0, b]) + if id == 0 && b <= t then Row(lay.mults[layer], ReturnedAt(s, inputs, b + 1)) else []
      ensures forall a, b :: 1 <= a < n && 0 <= b < n ==> net.chan[a, b] == old(net.chan[a, b])
    {
      hide Ids, At, WellFormed, Good, Of, Placed, Layered, Matches, ReturnedAt, Row, ReturnRow, Flatten;
      if id == 0 {
        OfSizes(s);
        var gates := lay.mults[layer];
        forall f: nat -> int ensures Row(gates[..0], f) == [] && gates[0..] == gates && gates[..|gates|] == gates { RowAll(gates, f); }
        for q := 0 to |gates|
          invariant p1SharesToSend == ReturnRows(s, inputs, gates[q..])
          invariant forall b :: 0 <= b < n ==>
            net.chan[0, b] == old(net.chan[0, b]) + if b <= t then Row(gates[..q], ReturnedAt(s, inputs, b + 1)) else []
          invariant forall a, b :: 1 <= a < n && 0 <= b < n ==> net.chan[a, b] == old(net.chan[a, b])
        {
          MultLayered(lay, layer, gates[q]);
          ReturnRowIs(s, inputs, gates[q]);
          forall x: int ensures Row(gates[..q + 1], ReturnedAt(s, inputs, x)) == Row(gates[..q], ReturnedAt(s, inputs, x)) + [ReturnedAt(s, inputs, x)(gates[q])] {
            RowTake(gates, ReturnedAt(s, inputs, x), q);
          }
          assert gates[q..][0] == gates[q] && gates[q..][1..] == gates[q + 1..];
          SendEach(p1SharesToSend[0]);
          p1SharesToSend := p1SharesToSend[1..];
        }
      }
    }

    method MultP1ReceivesAndSendsParties(layer: nat, ghost s: Setup, ghost inputs: seq<seq<int>>)
      requires IsPrime(P61) && Of(s) && Matches(s.lay, inputs) && Layered(lay) && layer < |lay.mults| && n == net.parties && n > 0
      requires id == 0 ==> Opening(s, inputs, layer, 0) && forall b :: 0 <= b < n ==> b > 0 ==> net.chan[0, b] == []
      modifies this`p1SharesFromLast, this`p1SharesToSend, net.chan
      ensures id == 0 ==> p1SharesToSend == [] && p1SharesFromLast == LastColumns(s, Flatten(lay.mults[layer + 1..]))
      ensures id == 0 ==> forall b :: 0 <= b < n ==>
        net.chan[0, b] == if b <= t then Row(lay.mults[layer], ReturnedAt(s, inputs, b + 1)) else []
      ensures id == 0 ==> forall a :: 1 <= a < n ==> net.chan[a, 0] == []
      ensures id != 0 ==> forall a, b :: 0 <= a < n && 0 <= b < n ==> net.chan[a, b] == old(net.chan[a, b])
      ensures forall a, b :: 1 <= a < n && 1 <= b < n ==> net.chan[a, b] == old(net.chan[a, b])
      ensures id != 0 ==> p1SharesFromLast == old(p1SharesFromLast) && p1SharesToSend == old(p1SharesToSend)
    {
      hide Ids, At, WellFormed, Good, Of, Placed, Layered, Matches, ReturnedAt, Row, ReturnRow, Flatten, IsPrime, Opening, LastColumns, ReturnRows;
      OfSizes(s);
      MultP1Receives(layer, s, inputs);
      if id == 0 {
        Opened(s, inputs, layer);
      }
      MultP1SendsParties(layer, s, inputs);
    }

    lemma Opened(s: Setup, inputs: seq<seq<int>>, layer: nat)
      requires Good(s) && Matches(s.lay, inputs) && net.Valid() && n == net.parties && n > 0 && lay == s.lay && layer < |lay.mults|
      requires Opening(s, inputs, layer, |lay.mults[layer]|)
      ensures p1SharesToSend == ReturnRows(s, inputs, lay.mults[layer])
      ensures p1SharesFromLast == LastColumns(s, Flatten(lay.mults[layer + 1..]))
      ensures forall i :: 0 <= i < n ==> net.chan[i, 0] == []
    {
      hide Ids, Good, Matches, ProductsAt, ReturnRow, Flatten, LastColumn;
      var gates := lay.mults[layer];
      assert gates[..|gates|] == gates && gates[|gates|..] == [];
      assert [] + Flatten(lay.mults[layer + 1..]) == Flatten(lay.mults[layer + 1..]);
    }

    /** The shares of the layer's products. */
    method MultPartiesReceive(layer: nat, ghost s: Setup, ghost inputs: seq<seq<int>>)
      requires Of(s) && Matches(s.lay, inputs) && HasPads(s.pads) && Mapped() && Layered(lay) && layer < |lay.mults| && n == net.parties && n > 0
      requires Online(s, inputs, layer)
      requires net.chan[0, id] == if id <= t then Row(lay.mults[layer], ReturnedAt(s, inputs, id + 1)) else []
      modifies this`share, net.chan
      ensures Online(s, inputs, layer + 1)
      ensures net.chan[0, id] == []
      ensures forall a, b :: 0 <= a < n && 0 <= b < n && (a, b) != (0, id) ==> net.chan[a, b] == old(net.chan[a, b])
    {
      hide Ids, WellFormed, Mapped, HasPads, Good, Of, Placed, GateAt, ReturnedAt, Row, Known, Matches, SharesTrue, Layered;
      if id <= t {
        OfSizes(s);
        ReceiveProducts(layer, s, inputs);
        KnownLayer(lay, layer, share.Keys);
      }
    }

    method ReceiveProducts(layer: nat, ghost s: Setup, ghost inputs: seq<seq<int>>)
      requires Of(s) && Matches(s.lay, inputs) && HasPads(s.pads) && Mapped() && Layered(lay) && layer < |lay.mults| && n == net.parties && n > 0
      requires SharesTrue(GateAt(s, inputs, id + 1))
      requires net.chan[0, id] == Row(lay.mults[layer], ReturnedAt(s, inputs, id + 1))
      modifies this`share, net.chan
      ensures SharesTrue(GateAt(s, inputs, id + 1)) && old(share.Keys) <= share.Keys
      ensures forall k :: 0 <= k < |lay.mults[layer]| ==> lay.mults[layer][k] in share
      ensures net.chan[0, id] == []
      ensures forall a, b :: 0 <= a < n && 0 <= b < n && (a, b) != (0, id) ==> net.chan[a, b] == old(net.chan[a, b])
    {
      hide Ids, At, WellFormed, Mapped, HasPads, Good, Of, Placed, GateAt, ReturnedAt, Row, Known, Matches, SharesTrue, Layered, LowOf, HighOf, Add, Reachable;
      OfSizes(s);
      var gates := lay.mults[layer];
      ghost var f := ReturnedAt(s, inputs, id + 1);
      RowAll(gates, f);
      for i := 0 to |gates|
        invariant SharesTrue(GateAt(s, inputs, id + 1)) && old(share.Keys) <= share.Keys
        invariant forall k :: 0 <= k < i ==> gates[k] in share
        invariant net.chan[0, id] == Row(gates[i..], f)
        invariant forall a, b :: 0 <= a < n && 0 <= b < n && (a, b) != (0, id) ==> net.chan[a, b] == old(net.chan[a, b])
      {
        RowTake(gates, f, i);
        var masked := net.Recv(0, id);
        MultLayered(lay, layer, gates[i]);
        DoubleShare(s, gates[i]);
        MultShareIs(s, inputs, id + 1, gates[i]);
        SetShare(gates[i], Add(masked, dShrs[mapMults[gates[i]]].shr), GateAt(s, inputs, id + 1));
      }
    }

    // -------------------------------------------------------------- outputs

    /** The first t + 1 parties send their shares of the outputs to the owners. */
    method OutputPartiesSendOwners(ghost s: Setup, ghost inputs: seq<seq<int>>)
      requires Of(s) && Matches(s.lay, inputs) && n == net.parties && Online(s, inputs, |lay.mults|)
      modifies this`share, net.chan
      ensures Online(s, inputs, |lay.mults|)
      ensures forall c :: 0 <= c < n ==>
        net.chan[id, c] == old(net.chan[id, c]) + if id <= t then Row(Ids(lay.gates, OutputOf(c)), GateAt(s, inputs, id + 1)) else []
      ensures forall a, b :: 0 <= a < n && 0 <= b < n && a != id ==> net.chan[a, b] == old(net.chan[a, b])
    {
      hide Ids, WellFormed, Good, Of, Placed, GateAt, Row, Known, Matches, SharesTrue;
      if id <= t {
        OfSizes(s);
        for ownerId := 0 to lay.clients
          invariant Online(s, inputs, |lay.mults|)
          invariant forall c :: 0 <= c < n ==>
            net.chan[id, c] == old(net.chan[id, c]) + if c < ownerId then Row(Ids(lay.gates, OutputOf(c)), GateAt(s, inputs, id + 1)) else []
          invariant forall a, b :: 0 <= a < n && 0 <= b < n && a != id ==> net.chan[a, b] == old(net.chan[a, b])
        {
          SendOutputs(ownerId, s, inputs);
        }
      }
    }

    method SendOutputs(ownerId: nat, ghost s: Setup, ghost inputs: seq<seq<int>>)
      requires Of(s) && Matches(s.lay, inputs) && n == net.parties && ownerId < n && id < n
      requires SharesTrue(GateAt(s, inputs, id + 1)) && Known(lay, |lay.mults|) <= share.Keys
      modifies this`share, net.chan
      ensures SharesTrue(GateAt(s, inputs, id + 1)) && old(share.Keys) <= share.Keys
      ensures net.chan[id, ownerId] == old(net.chan[id, ownerId]) + Row(Ids(lay.gates, OutputOf(ownerId)), GateAt(s, inputs, id + 1))
      ensures forall a, b :: 0 <= a < n && 0 <= b < n && (a, b) != (id, ownerId) ==> net.chan[a, b] == old(net.chan[a, b])
    {
      hide Ids, WellFormed, Good, Of, Placed, GateAt, Row, Known, Matches, SharesTrue, Additive, Reachable;
      OfSizes(s);
      GateAdditive(s, inputs, id + 1);
      var flat := Ids(lay.gates, OutputOf(ownerId));
      ghost var f := GateAt(s, inputs, id + 1);
      RowAll(flat, f);
      for i := 0 to |flat|
        invariant SharesTrue(f) && old(share.Keys) <= share.Keys
        invariant net.chan[id, ownerId] == old(net.chan[id, ownerId]) + Row(flat[..i], f)
        invariant forall a, b :: 0 <= a < n && 0 <= b < n && (a, b) != (id, ownerId) ==> net.chan[a, b] == old(net.chan[a, b])
      {
        AllReachable(lay, flat[i]);
        ReachableMore(lay, Known(lay, |lay.mults|), share.Keys, flat[i]);
        var shr := GetDn07Share(flat[i], f);
        RowTake(flat, f, i);
        net.Send(id, ownerId, shr);
      }
    }

    /** Everyone's shares of the outputs from the q-th on wait for this party. */
    ghost predicate OutputsComing(s: Setup, inputs: seq<seq<int>>, q: nat)
      requires Good(s) && Matches(s.lay, inputs) && net.Valid() && n == net.parties && id < n && q <= |Ids(lay.gates, OutputOf(id))|
      reads net.chan
    {
      forall i :: 0 <= i < n ==>
        net.chan[i, id] == if i <= t then Row(Ids(lay.gates, OutputOf(id))[q..], GateAt(s, inputs, i + 1)) else []
    }

    /** The first q outputs have been computed. */
    ghost predicate HasOutputs(s: Setup, inputs: seq<seq<int>>, q: nat)
      requires Good(s) && Matches(s.lay, inputs) && lay == s.lay && q <= |Ids(lay.gates, OutputOf(id))|
      reads this`results
    {
      forall j :: 0 <= j < q ==>
        Ids(lay.gates, OutputOf(id))[j] in results && results[Ids(lay.gates, OutputOf(id))[j]] == Carried(s, inputs, Ids(lay.gates, OutputOf(id))[j])
    }

    method OutputOwnersReceive(ghost s: Setup, ghost inputs: seq<seq<int>>)
      requires IsPrime(P61) && Of(s) && Matches(s.lay, inputs) && n == net.parties && OutputsComing(s, inputs, 0)
      modifies this`results, net.chan
      ensures HasOutputs(s, inputs, |Ids(lay.gates, OutputOf(id))|)
      ensures forall i :: 0 <= i < n ==> net.chan[i, id] == []
      ensures forall a, b :: 0 <= a < n && 0 <= b < n && b != id ==> net.chan[a, b] == old(net.chan[a, b])
    {
      hide Ids, WellFormed, Good, Of, Placed, GateAt, Matches, Carried, IsPrime, Rebuilt, OutputsComing;
      OfSizes(s);
      var flat := Ids(lay.gates, OutputOf(id));
      for q := 0 to |flat|
        invariant HasOutputs(s, inputs, q) && OutputsComing(s, inputs, q)
        invariant forall a, b :: 0 <= a < n && 0 <= b < n && b != id ==> net.chan[a, b] == old(net.chan[a, b])
      {
        var recvShares := TakeOutput(q, s, inputs);
        OutputRebuilt(s, inputs, flat[q], recvShares);
        var result := SecretFromShares(recvShares);
        results := results[flat[q] := result];
      }
      NoneComing(s, inputs);
    }

    method TakeOutput(ghost q: nat, ghost s: Setup, ghost inputs: seq<seq<int>>) returns (recvShares: seq<int>)
      requires Of(s) && Matches(s.lay, inputs) && n == net.parties && q < |Ids(lay.gates, OutputOf(id))| && OutputsComing(s, inputs, q)
      modifies net.chan
      ensures OutputsComing(s, inputs, q + 1)
      ensures |recvShares| == t + 1 && forall i :: 0 <= i <= t ==> recvShares[i] == GateAt(s, inputs, i + 1)(Ids(lay.gates, OutputOf(id))[q])
      ensures forall a, b :: 0 <= a < n && 0 <= b < n && b != id ==> net.chan[a, b] == old(net.chan[a, b])
    {
      hide Ids, WellFormed, Good, Of, Placed, GateAt, Matches, Row;
      OfSizes(s);
      ghost var flat := Ids(lay.gates, OutputOf(id));
      forall i | 0 <= i <= t
        ensures net.chan[i, id] == [GateAt(s, inputs, i + 1)(flat[q])] + Row(flat[q + 1..], GateAt(s, inputs, i + 1))
      {
        RowTake(flat, GateAt(s, inputs, i + 1), q);
      }
      label Before:
      recvShares := RecvFrom(0, t + 1);
      forall i | 0 <= i <= t ensures recvShares[i] == GateAt(s, inputs, i + 1)(flat[q]) {
        assert recvShares[i - 0] == old@Before(net.chan[i, id])[0];
      }
    }

    lemma NoneComing(s: Setup, inputs: seq<seq<int>>)
      requires Good(s) && Matches(s.lay, inputs) && net.Valid() && n == net.parties && id < n
      requires OutputsComing(s, inputs, |Ids(lay.gates, OutputOf(id))|)
      ensures forall i :: 0 <= i < n ==> net.chan[i, id] == []
    {
      hide Ids, Good, GateAt, Matches;
    }

    /** All outputs of this party. */
    method GetOutputs(ghost s: Setup, ghost inputs: seq<seq<int>>) returns (output: seq<int>)
      requires Good(s) && Matches(s.lay, inputs) && lay == s.lay && HasOutputs(s, inputs, |Ids(lay.gates, OutputOf(id))|)
      ensures output == RunOutputs(s, inputs, id)
    {
      hide Ids, Good, Carried, Matches;
      var flat := Ids(lay.gates, OutputOf(id));
      output := [];
      for i := 0 to |flat|
        invariant |output| == i && forall j :: 0 <= j < i ==> output[j] == Carried(s, inputs, flat[j])
      {
        output := output + [results[flat[i]]];
      }
    }
  }

  /** What P1 returns for one gate. */
  ghost function ReturnRow(s: Setup, inputs: seq<seq<int>>, g: nat): seq<int>
    requires Good(s) && Matches(s.lay, inputs)
  {
    if g < |s.lay.gates| && s.lay.gates[g].MultGate? then Shares(ZeroedPoly(Opened(s, inputs, g), s.lay.clients, s.t), s.t + 1) else []
  }

  ghost function ReturnRows(s: Setup, inputs: seq<seq<int>>, gates: seq<nat>): (r: seq<seq<int>>)
    requires Good(s) && Matches(s.lay, inputs)
    ensures |r| == |gates|
  {
    seq(|gates|, i requires 0 <= i < |gates| => ReturnRow(s, inputs, gates[i]))
  }

  lemma ReturnRowIs(s: Setup, inputs: seq<seq<int>>, g: nat)
    requires Good(s) && Matches(s.lay, inputs) && g < |s.lay.gates| && s.lay.gates[g].MultGate?
    ensures |ReturnRow(s, inputs, g)| == s.t + 1
    ensures forall b :: 0 <= b <= s.t ==> ReturnRow(s, inputs, g)[b] == ReturnedAt(s, inputs, b + 1)(g)
  {
    hide At, ZeroedPoly, Opened, Ids, Good, Matches, WellFormed;
    var c := ZeroedPoly(Opened(s, inputs, g), s.lay.clients, s.t);
    SharesAt(c, s.t + 1);
    forall b | 0 <= b <= s.t ensures ReturnRow(s, inputs, g)[b] == ReturnedAt(s, inputs, b + 1)(g) {
      assert ReturnedAt(s, inputs, b + 1)(g) == At(c, b + 1);
    }
  }

  lemma SharesAt(c: Coeffs, n: nat)
    ensures |Shares(c, n)| == n && forall i :: 0 <= i < n ==> Shares(c, n)[i] == At(c, i + 1)
  {
    hide At;
  }

  lemma ProductShareIs(s: Setup, inputs: seq<seq<int>>, x: int, g: nat)
    requires Good(s) && Matches(s.lay, inputs) && g < |s.lay.gates| && s.lay.gates[g].MultGate?
    ensures s.lay.gates[g].left < |s.lay.gates| && s.lay.gates[g].right < |s.lay.gates|
    ensures ProductsAt(s, inputs, x)(g) ==
      Sub(Mul(GateAt(s, inputs, x)(s.lay.gates[g].left), GateAt(s, inputs, x)(s.lay.gates[g].right)), At(HighOf(s, g), x))
  {
    hide At, Ids, HighOf, Sub, Mul, GatePoly, MultProduct;
    MultProductAt(s, inputs, g, x);
  }

  lemma LateShare(s: Setup, inputs: seq<seq<int>>, x: int, g: nat)
    requires Good(s) && Matches(s.lay, inputs) && g < |s.lay.gates| && s.lay.gates[g].MultGate?
    ensures ProductsAt(s, inputs, x)(g) == At(MultProduct(s, inputs, g), x)
  {
    hide At, Ids, MultProduct;
  }

  /** P1 opens from late and early shares. */
  lemma ProductRebuilt(s: Setup, inputs: seq<seq<int>>, g: nat, shares: seq<int>)
    requires Good(s) && Matches(s.lay, inputs) && g < |s.lay.gates| && s.lay.gates[g].MultGate?
    requires |shares| == s.lay.clients && shares[s.t + 1..] == LastColumn(s, g)
    requires forall i :: 0 <= i <= s.t ==> shares[i] == ProductsAt(s, inputs, i + 1)(g)
    ensures Rebuilt(shares, 0) == Opened(s, inputs, g)
    ensures Shares(ZeroedPoly(Rebuilt(shares, 0), s.lay.clients, s.t), s.t + 1) == ReturnRow(s, inputs, g)
  {
    hide At, Ids, MultProduct, Rebuilt, Matches, ZeroedPoly, LastColumn, ProductsAt, Good, GatePoly, LastProduct;
    GoodSize(s);
    forall i | 0 <= i < |shares| ensures shares[i] == OpenShares(s, inputs, g)[i] {
      if i > s.t {
        EarlyShare(s, g, i - s.t - 1);
        assert shares[i] == shares[s.t + 1..][i - s.t - 1];
      } else {
        LateShare(s, inputs, i + 1, g);
      }
    }
    assert shares == OpenShares(s, inputs, g);
  }

  lemma EarlyShare(s: Setup, g: nat, j: nat)
    requires Good(s) && g < |s.lay.gates| && s.lay.gates[g].MultGate? && j < s.lay.clients - s.t - 1
    ensures LastColumn(s, g)[j] == LastProduct(s, s.t + 1 + j + 1, g)
  {
    hide Ids, LastProduct, Good;
    assert LastProductsAt(s, s.t + 1 + j + 1)(g) == LastProduct(s, s.t + 1 + j + 1, g);
  }

  lemma MultShareIs(s: Setup, inputs: seq<seq<int>>, x: int, g: nat)
    requires Good(s) && Matches(s.lay, inputs) && g < |s.lay.gates| && s.lay.gates[g].MultGate?
    ensures GateAt(s, inputs, x)(g) == Add(ReturnedAt(s, inputs, x)(g), At(LowOf(s, g), x))
  {
    hide At, ZeroedPoly, Opened, Ids, LowOf, Add, AddP;
    AtAdd(ZeroedPoly(Opened(s, inputs, g), s.lay.clients, s.t), LowOf(s, g), x);
  }

  /** What a wire carries. */
  ghost function Carried(s: Setup, inputs: seq<seq<int>>, g: nat): int
    requires Good(s) && Matches(s.lay, inputs) && g < |s.lay.gates|
  {
    At(GatePoly(s, inputs, g), 0)
  }

  /** The outputs of client c. */
  ghost function RunOutputs(s: Setup, inputs: seq<seq<int>>, c: nat): (r: seq<int>)
    requires Good(s) && Matches(s.lay, inputs)
    ensures |r| == |Ids(s.lay.gates, OutputOf(c))|
  {
    var flat := Ids(s.lay.gates, OutputOf(c));
    seq(|flat|, j requires 0 <= j < |flat| => Carried(s, inputs, flat[j]))
  }

  /** The first t + 1 shares of a wire give what it carries. */
  lemma OutputRebuilt(s: Setup, inputs: seq<seq<int>>, g: nat, shares: seq<int>)
    requires IsPrime(P61) && Good(s) && Matches(s.lay, inputs) && g < |s.lay.gates| && |shares| == s.t + 1
    requires forall i :: 0 <= i <= s.t ==> shares[i] == GateAt(s, inputs, i + 1)(g)
    ensures Rebuilt(shares, 0) == Carried(s, inputs, g)
  {
    hide At, Ids, IsPrime, GatePoly, Rebuilt, Matches;
    GoodSize(s);
    RebuiltIs(GatePoly(s, inputs, g), shares, 0);
  }

  /** The random number opened to its owner. */
  lemma MaskRebuilt(s: Setup, g: nat, shares: seq<int>)
    requires IsPrime(P61) && Good(s) && g < |s.lay.gates| && s.lay.gates[g].InputGate? && |shares| == s.t + 1
    requires forall i :: 0 <= i < |shares| ==> shares[i] == RandAt(s, i + 1)(g)
    ensures Rebuilt(shares, 0) == At(RandOf(s, g), 0)
  {
    hide At, IsPrime, RandOf, Ids, Rebuilt;
    GoodSize(s);
    RebuiltIs(RandOf(s, g), shares, 0);
  }

  /** The i-th value of an owner. */
  lemma InputIs(s: Setup, inputs: seq<seq<int>>, c: nat, i: nat)
    requires Good(s) && Matches(s.lay, inputs) && c < s.lay.clients && i < |Ids(s.lay.gates, InputOf(c))|
    ensures var g := Ids(s.lay.gates, InputOf(c))[i];
      && g < |s.lay.gates| && s.lay.gates[g].InputGate?
      && InputMasked(s, inputs, g) == Sub(inputs[c][i], At(RandOf(s, g), 0))
  {
    hide At, Sub, RandOf;
    var g := Ids(s.lay.gates, InputOf(c))[i];
    assert Is(s.lay.gates[g], InputOf(c));
    PositionUnique(Ids(s.lay.gates, InputOf(c)), i);
  }

  lemma MaskedShares(s: Setup, inputs: seq<seq<int>>, g: nat, shares: seq<int>)
    requires Good(s) && Matches(s.lay, inputs) && g < |s.lay.gates| && s.lay.gates[g].InputGate?
    requires shares == Shares(ZeroedPoly(InputMasked(s, inputs, g), s.lay.clients, s.t), s.t + 1)
    ensures |shares| == s.t + 1 && forall i :: 0 <= i < |shares| ==> shares[i] == MaskedAt(s, inputs, i + 1)(g)
  {
    hide At, ZeroedPoly, InputMasked, Ids;
  }

  lemma InputShareIs(s: Setup, inputs: seq<seq<int>>, x: int, g: nat)
    requires Good(s) && Matches(s.lay, inputs) && g < |s.lay.gates| && s.lay.gates[g].InputGate?
    ensures GateAt(s, inputs, x)(g) == Add(MaskedAt(s, inputs, x)(g), RandAt(s, x)(g))
  {
    hide At, ZeroedPoly, InputMasked, Ids, RandOf, Add, AddP;
    AtAdd(ZeroedPoly(InputMasked(s, inputs, g), s.lay.clients, s.t), RandOf(s, g), x);
  }

  lemma RowLayer(rows: seq<seq<nat>>, d: nat, f: nat -> int)
    requires d < |rows|
    ensures Row(Flatten(rows[..d + 1]), f) == Row(Flatten(rows[..d]), f) + Row(rows[d], f)
  {
    hide Flatten, Row;
    LayerRows(rows, d);
    RowConcat(Flatten(rows[..d]), rows[d], f);
  }

  lemma NoRows(rows: seq<seq<nat>>, f: nat -> int)
    ensures Flatten(rows[..0]) == [] && Row(Flatten(rows[..0]), f) == []
  {
  }

  /** The i-th input of an owner. */
  lemma OwnInput(lay: Layout, c: nat, i: nat)
    requires c < lay.clients && i < |Ids(lay.gates, InputOf(c))|
    ensures var g := Ids(lay.gates, InputOf(c))[i];
      g in InputOrder(lay) && g < |lay.gates| && lay.gates[g] == InputGate(c)
  {
    var g := Ids(lay.gates, InputOf(c))[i];
    assert Is(lay.gates[g], InputOf(c));
    InputListed(lay, lay.clients, g);
  }

  lemma LastInput(s: Setup, x: int, g: nat)
    requires Good(s) && g < |s.lay.gates| && s.lay.gates[g].InputGate?
    ensures LastAt(s, x)(g) == RandAt(s, x)(g)
  {
    hide At, RandOf, Ids;
  }

  lemma AllInputs(lay: Layout, known: set<nat>)
    requires forall g :: g in InputsOf(lay, lay.clients) ==> g in known
    requires WellFormed(lay)
    ensures Known(lay, 0) <= known
  {
    hide Ids;
    forall g | g in Known(lay, 0) ensures g in known {
      var i: nat :| i < |Ids(lay.gates, AnyInput)| && Ids(lay.gates, AnyInput)[i] == g;
      InputListed(lay, lay.clients, g);
    }
  }

  lemma KnownLayer(lay: Layout, layer: nat, known: set<nat>)
    requires layer < |lay.mults| && Known(lay, layer) <= known && forall k :: 0 <= k < |lay.mults[layer]| ==> lay.mults[layer][k] in known
    ensures Known(lay, layer + 1) <= known
  {
    hide Ids;
  }

  lemma MultLayered(lay: Layout, layer: nat, g: nat)
    requires WellFormed(lay) && Layered(lay) && layer < |lay.mults| && g in lay.mults[layer]
    ensures g < |lay.gates| && lay.gates[g].MultGate? && lay.gates[g].left < |lay.gates| && lay.gates[g].right < |lay.gates|
    ensures Reachable(lay, Known(lay, layer), lay.gates[g].left) && Reachable(lay, Known(lay, layer), lay.gates[g].right)
  {
    hide Ids, Known, Reachable, Flatten;
    var i: nat :| i < |lay.mults[layer]| && lay.mults[layer][i] == g;
  }

  lemma LastMult(s: Setup, x: int, g: nat)
    requires Good(s) && g < |s.lay.gates| && s.lay.gates[g].MultGate?
    ensures s.lay.gates[g].left < |s.lay.gates| && s.lay.gates[g].right < |s.lay.gates|
    ensures LastAt(s, x)(g) == At(LowOf(s, g), x)
    ensures LastProductsAt(s, x)(g) ==
      Sub(Mul(LastAt(s, x)(s.lay.gates[g].left), LastAt(s, x)(s.lay.gates[g].right)), At(HighOf(s, g), x))
  {
    hide At, Ids, LowOf, HighOf, Sub, Mul;
    Parents(s, g);
  }

  lemma MultsFlat(lay: Layout)
    requires WellFormed(lay)
    ensures Flatten(lay.mults) == MultOrder(lay) && Increasing(Flatten(lay.mults))
  {
    hide Flatten;
  }

  /** Where a layer stands among all multiplications. */
  lemma LayerRows(rows: seq<seq<nat>>, d: nat)
    requires d < |rows|
    ensures Flatten(rows) == Flatten(rows[..d]) + rows[d] + Flatten(rows[d + 1..])
    ensures Flatten(rows[..d + 1]) == Flatten(rows[..d]) + rows[d]
    ensures Flatten(rows[d..]) == rows[d] + Flatten(rows[d + 1..])
  {
    hide Flatten;
    FlattenAppend(rows[..d], rows[d]);
    assert rows[..d + 1] == rows[..d] + [rows[d]];
    FlattenHead(rows[d..]);
    assert rows[d..][1..] == rows[d + 1..];
    FlattenConcat(rows[..d], rows[d..]);
    assert rows == rows[..d] + rows[d..];
    ConcatAssoc(Flatten(rows[..d]), rows[d], Flatten(rows[d + 1..]));
  }

  lemma ExactDealt(deals: seq<seq<Coeffs>>, m: nat, t: nat)
    requires DealtExactly(deals, m)
    ensures Dealt(deals, 0)
  {
  }

  lemma MixMore(deals: seq<seq<Coeffs>>, block: nat, m: nat, t: nat)
    requires DealtExactly(deals, m) && block < m
    ensures Dealt(deals, block) && Dealt(deals, block + 1)
    ensures (forall i :: 0 <= i < |deals| ==> block < |deals[i]|) && forall i :: 0 <= i < |deals| ==> |Column(deals, block)[i]| > 0
    ensures MixBlocks(deals, t, block + 1) == MixBlocks(deals, t, block) + MixBlock(Column(deals, block), t)
  {
    hide MixBlock;
    ColumnPositive(deals, block + 1, block);
  }

  lemma AfterTwo(u: int, v: int, rest: seq<int>)
    ensures var m := [u, v] + rest; |m| >= 2 && m[0] == u && m[1] == v && m[2..] == rest
  {
  }

  lemma PairNext(low: seq<Coeffs>, high: seq<Coeffs>, q: nat, x: int)
    requires q < |low| == |high|
    ensures var m := Msgs(Alternate(low, high)[2 * q..], x);
      |m| >= 2 && m[0] == At(low[q], x) && m[1] == At(high[q], x) && m[2..] == Msgs(Alternate(low, high)[2 * (q + 1)..], x)
  {
    hide At, Alternate, Msgs;
    var ds := Alternate(low, high);
    assert ds[2 * q..] == [low[q], high[q]] + ds[2 * (q + 1)..];
    MsgsPair(low[q], high[q], ds[2 * (q + 1)..], x);
    AfterTwo(At(low[q], x), At(high[q], x), Msgs(ds[2 * (q + 1)..], x));
  }

  /** Everything one party deals, in order. */
  ghost function Outbox(t: nat, draws: PartyDraws): (r: seq<Coeffs>)
    requires RestLengths(draws.rand, t) && RestLengths(Lows(draws.double), t) && RestLengths(Highs(draws.double), 2 * t)
  {
    RandDeals(t, draws) + Alternate(LowDeals(t, draws), HighDeals(t, draws))
  }

  lemma SentMore(cs: seq<Coeffs>, q: nat)
    requires q < |cs|
    ensures forall x: int :: Msgs(cs[..q + 1], x) == Msgs(cs[..q], x) + [At(cs[q], x)]
  {
    hide At;
    forall x: int ensures Msgs(cs[..q + 1], x) == Msgs(cs[..q], x) + [At(cs[q], x)] {
      assert cs[..q + 1] == cs[..q] + [cs[q]];
      MsgsConcat(cs[..q], [cs[q]], x);
    }
  }

  lemma SentTwoMore(ds: seq<Coeffs>, q: nat)
    requires 2 * q + 1 < |ds|
    ensures forall x: int :: Msgs(ds[..2 * (q + 1)], x) == Msgs(ds[..2 * q], x) + [At(ds[2 * q], x), At(ds[2 * q + 1], x)]
  {
    hide At;
    forall x: int ensures Msgs(ds[..2 * (q + 1)], x) == Msgs(ds[..2 * q], x) + [At(ds[2 * q], x), At(ds[2 * q + 1], x)] {
      assert ds[..2 * (q + 1)] == ds[..2 * q] + [ds[2 * q], ds[2 * q + 1]];
      MsgsConcat(ds[..2 * q], [ds[2 * q], ds[2 * q + 1]], x);
    }
  }

  /** One pair of dealt polynomials. */
  lemma DoubleRests(lay: Layout, t: nat, draws: PartyDraws, q: nat)
    requires PartyDrawn(lay, t, draws) && q < |draws.double|
    ensures |draws.double[q].rest| == t && |draws.double[q].restDouble| == 2 * t
    ensures var d, ds := draws.double[q], Alternate(LowDeals(t, draws), HighDeals(t, draws));
      ds[2 * q] == Coefs(Single(d.secret, 0, t, d.rest)) && ds[2 * q + 1] == Coefs(Single(d.secret, 0, 2 * t, d.restDouble))
  {
    hide Ids, Blocks, Coefs, Single;
    assert Lows(draws.double)[q].rest == draws.double[q].rest && Highs(draws.double)[q].rest == draws.double[q].restDouble;
    assert UnpackedDeals(t, 0, Lows(draws.double))[q] == UnpackedDeal(t, 0, Lows(draws.double)[q]);
    assert UnpackedDeals(2 * t, 0, Highs(draws.double))[q] == UnpackedDeal(2 * t, 0, Highs(draws.double)[q]);
  }
}
