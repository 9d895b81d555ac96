/** One party's correlator: function-independent preprocessing over the network, and what it
    contributes to every batch of a circuit. */
module Correlators {
  import opened Modular
  import opened Poly
  import opened Scl
  import opened Sequences
  import opened PackedSharing
  import opened Dealing
  import opened Channels
  import opened Circuits
  import opened Wiring
  import opened Preprocessing

  /** One party's part of a packed triple and of three sharings of zero. */
  datatype MultBatchFIPrep = MultBatchFIPrep(mShrA: int, mShrB: int, mShrC: int, mShrO1: int, mShrO2: int, mShrO3: int)

  class Correlator {
    const net: Network
    const id: nat
    const n: nat
    const k: nat
    const inds: nat
    const mults: nat
    const ios: nat
    var threshold: nat
    var sharesOfEi: seq<int>
    var vandermonde: seq<seq<int>>
    var indShrs: seq<int>
    var multPrep: seq<MultBatchFIPrep>
    var ioPrep: seq<int>
    var unpackedA: seq<seq<int>>
    var unpackedB: seq<seq<int>>
    var unpackedMask: seq<seq<int>>
    var zeroProd: seq<seq<int>>
    var mapIndShrs: map<nat, int>

    constructor (inds: nat, mults: nat, ios: nat, batchSize: nat, net: Network, id: nat)
      ensures this.inds == inds && this.mults == mults && this.ios == ios && k == batchSize
      ensures this.net == net && this.id == id && n == net.parties
      ensures sharesOfEi == [] && vandermonde == [] && indShrs == [] && multPrep == [] && ioPrep == []
      ensures unpackedA == [] && unpackedB == [] && unpackedMask == [] && zeroProd == [] && mapIndShrs == map[]
    {
      this.inds, this.mults, this.ios, this.k := inds, mults, ios, batchSize;
      this.net, this.id, this.n := net, id, net.parties;
      threshold := 0;
      sharesOfEi, vandermonde, indShrs, multPrep, ioPrep := [], [], [], [], [];
      unpackedA, unpackedB, unpackedMask, zeroProd, mapIndShrs := [], [], [], [], map[];
    }

    ghost predicate Placed() {
      net.Valid() && n == net.parties && id < n
    }

    ghost predicate Valid()
      reads this
    {
      && Placed() && Sizes(n, k, threshold)
      && sharesOfEi == Msgs(Units(k), id + 1)
      && |vandermonde| == n && forall j :: 0 <= j < n ==> vandermonde[j] == VandermondeRow(j, threshold + 1)
    }

    /** The shares of the unit vectors, each a product of quotients. */
    method PrecomputeEi()
      requires Placed() && sharesOfEi == []
      modifies this`sharesOfEi
      ensures sharesOfEi == Msgs(Units(k), id + 1)
    {
      hide *;
      UnitSharesNone(k, id + 1);
      for i := 0 to k
        invariant sharesOfEi == UnitShares(k, id + 1, i)
      {
        var shr := F(1);
        ProductNone(Slots(k), i, id + 1);
        for j := 0 to k
          invariant sharesOfEi == UnitShares(k, id + 1, i)
          invariant shr == Product(Slots(k), i, id + 1, j)
        {
          ProductStep(Slots(k), i, id + 1, j);
          if j == i {
            continue;
          }
          SlotDifferences(k, i, j, id + 1);
          shr := F(shr * Div(F(F(id + 1) + F(j)), F(F(j) - F(i))));
        }
        UnitSharesStep(k, id + 1, i);
        sharesOfEi := sharesOfEi + [shr];
      }
      UnitSharesAll(k, id + 1);
    }

    /** The number of parties is fixed by the threshold and the batch size. */
    method SetThreshold(t: nat) returns (ok: bool)
      requires k > 0
      modifies this`threshold
      ensures ok <==> n == t + 2 * (k - 1) + 1 && n > 2 * t
      ensures threshold == if ok then t else old(threshold)
    {
      if n != t + 2 * (k - 1) + 1 {
        return false;
      }
      if n <= 2 * t {
        return false;
      }
      threshold := t;
      return true;
    }

    method PrecomputeVandermonde()
      requires vandermonde == []
      modifies this`vandermonde
      ensures |vandermonde| == n
      ensures forall j :: 0 <= j < n ==> vandermonde[j] == VandermondeRow(j, threshold + 1)
    {
      hide *;
      for i := 0 to n
        invariant |vandermonde| == i
        invariant forall j :: 0 <= j < i ==> vandermonde[j] == VandermondeRow(j, threshold + 1)
      {
        var row: seq<int> := [];
        var entry := F(1);
        PowerStart(i);
        for j := 0 to threshold + 1
          invariant |vandermonde| == i
          invariant forall j :: 0 <= j < i ==> vandermonde[j] == VandermondeRow(j, threshold + 1)
          invariant row == VandermondeRow(i, j)
          invariant entry == F(Pow(i, j))
        {
          PowerStep(i, j);
          row := row + [entry];
          entry := F(entry * F(i));
        }
        vandermonde := vandermonde + [row];
      }
    }

    // -------------------------------------------------------------- sending and receiving

    /** One share to every party. */
    method SendToAll(shares: seq<int>)
      requires Placed() && |shares| == n
      modifies net.chan
      ensures forall b :: 0 <= b < n ==> net.chan[id, b] == old(net.chan[id, b]) + [shares[b]]
      ensures forall a, b :: 0 <= a < n && 0 <= b < n && a != id ==> net.chan[a, b] == old(net.chan[a, b])
    {
      for party := 0 to n
        invariant forall b :: 0 <= b < party ==> net.chan[id, b] == old(net.chan[id, b]) + [shares[b]]
        invariant forall b :: party <= b < n ==> net.chan[id, b] == old(net.chan[id, b])
        invariant forall a, b :: 0 <= a < n && 0 <= b < n && a != id ==> net.chan[a, b] == old(net.chan[a, b])
      {
        net.Send(id, party, shares[party]);
      }
    }

    /** One share from every party. */
    method RecvFromAll() returns (recv: seq<int>)
      requires Placed() && forall i :: 0 <= i < n ==> net.chan[i, id] != []
      modifies net.chan
      ensures |recv| == n
      ensures forall i :: 0 <= i < n ==> recv[i] == old(net.chan[i, id])[0]
      ensures forall i :: 0 <= i < n ==> net.chan[i, id] == old(net.chan[i, id])[1..]
      ensures forall a, b :: 0 <= a < n && 0 <= b < n && b != id ==> net.chan[a, b] == old(net.chan[a, b])
    {
      recv := [];
      for party := 0 to n
        invariant |recv| == party
        invariant forall i :: 0 <= i < party ==> recv[i] == old(net.chan[i, id])[0]
        invariant forall i :: 0 <= i < party ==> net.chan[i, id] == old(net.chan[i, id])[1..]
        invariant forall i :: party <= i < n ==> net.chan[i, id] == old(net.chan[i, id])
        invariant forall a, b :: 0 <= a < n && 0 <= b < n && b != id ==> net.chan[a, b] == old(net.chan[a, b])
      {
        var buffer := net.Recv(party, id);
        recv := recv + [buffer];
      }
    }

    /** Shares of a list of polynomials, to every party. */
    ghost predicate ListSent(before: seq<int>, cs: seq<Coeffs>, b: nat)
      requires Placed() && b < n
      reads net.chan
    {
      net.chan[id, b] == before + Msgs(cs, b + 1)
    }

    method GenIndShrsPartiesSend(draws: seq<Draw>)
      requires Valid() && |draws| == Blocks(inds, threshold) && RestLengths(draws, n - 2 * k + 1)
      modifies net.chan
      ensures forall b :: 0 <= b < n ==> ListSent(old(net.chan[id, b]), IndDeals(n, k, threshold, draws), b)
      ensures forall a, b :: 0 <= a < n && 0 <= b < n && a != id ==> net.chan[a, b] == old(net.chan[a, b])
    {
      hide Coefs, Packed, Blocks, F, At, VandermondeRow, Units;
      ghost var cs := IndDeals(n, k, threshold, draws);
      for block := 0 to Blocks(inds, threshold)
        invariant forall b :: 0 <= b < n ==> ListSent(old(net.chan[id, b]), cs[..block], b)
        invariant forall a, b :: 0 <= a < n && 0 <= b < n && a != id ==> net.chan[a, b] == old(net.chan[a, b])
      {
        var secrets := seq(k, _ => draws[block].secret);
        var poly := EvPolyFromSecretsAndDegree(secrets, n - k, draws[block].rest);
        var shares := SharesFromEvPoly(poly, n);
        assert cs[block] == Coefs(poly);
        SendToAll(shares);
        assert cs[..block + 1] == cs[..block] + [cs[block]];
      }
      assert cs[..|cs|] == cs;
    }

    method GenUnpackedShrPartiesSend(draws: seq<seq<Draw>>)
      requires Valid() && |draws| == k
      requires forall j :: 0 <= j < k ==> |draws[j]| == Blocks(3 * mults, threshold) && RestLengths(draws[j], threshold)
      modifies net.chan
      ensures forall b :: 0 <= b < n ==> ListSent(old(net.chan[id, b]), Flatten(UnpackedRows(threshold, draws)), b)
      ensures forall a, b :: 0 <= a < n && 0 <= b < n && a != id ==> net.chan[a, b] == old(net.chan[a, b])
    {
      hide Coefs, Single, Blocks, F, At, VandermondeRow, Units, Flatten;
      ghost var rows := UnpackedRows(threshold, draws);
      FlattenNone<Coeffs>();
      for packIdx := 0 to k
        invariant forall b :: 0 <= b < n ==> ListSent(old(net.chan[id, b]), Flatten(rows[..packIdx]), b)
        invariant forall a, b :: 0 <= a < n && 0 <= b < n && a != id ==> net.chan[a, b] == old(net.chan[a, b])
      {
        ghost var cs := rows[packIdx];
        for block := 0 to Blocks(3 * mults, threshold)
          invariant forall b :: 0 <= b < n ==> ListSent(old(net.chan[id, b]), Flatten(rows[..packIdx]) + cs[..block], b)
          invariant forall a, b :: 0 <= a < n && 0 <= b < n && a != id ==> net.chan[a, b] == old(net.chan[a, b])
        {
          var draw := draws[packIdx][block];
          var poly := EvPolyFromSecretAndPointAndDegree(draw.secret, packIdx, threshold, draw.rest);
          var shares := SharesFromEvPoly(poly, n);
          assert cs[block] == Coefs(poly);
          SendToAll(shares);
          assert Flatten(rows[..packIdx]) + cs[..block + 1] == (Flatten(rows[..packIdx]) + cs[..block]) + [cs[block]];
        }
        assert cs[..|cs|] == cs;
        FlattenAppend(rows[..packIdx], cs);
        assert rows[..packIdx + 1] == rows[..packIdx] + [cs];
      }
      assert rows[..k] == rows;
    }

    method GenZeroPartiesSend(draws: seq<Draw>)
      requires Valid() && |draws| == Blocks(3 * mults + ios, threshold) && RestLengths(draws, n - k)
      modifies net.chan
      ensures forall b :: 0 <= b < n ==> ListSent(old(net.chan[id, b]), ZeroDeals(n, k, threshold, draws), b)
      ensures forall a, b :: 0 <= a < n && 0 <= b < n && a != id ==> net.chan[a, b] == old(net.chan[a, b])
    {
      hide Coefs, Packed, Blocks, F, At, VandermondeRow, Units;
      ghost var cs := ZeroDeals(n, k, threshold, draws);
      for block := 0 to Blocks(3 * mults + ios, threshold)
        invariant forall b :: 0 <= b < n ==> ListSent(old(net.chan[id, b]), cs[..block], b)
        invariant forall a, b :: 0 <= a < n && 0 <= b < n && a != id ==> net.chan[a, b] == old(net.chan[a, b])
      {
        var secrets := seq(k, _ => F(0));
        var poly := EvPolyFromSecretsAndDegree(secrets, n - 1, draws[block].rest);
        var shares := SharesFromEvPoly(poly, n);
        assert cs[block] == Coefs(poly);
        SendToAll(shares);
        assert cs[..block + 1] == cs[..block] + [cs[block]];
      }
      assert cs[..|cs|] == cs;
    }

    method GenZeroForProdPartiesSend(draws: seq<seq<Draw>>)
      requires Valid() && |draws| == k
      requires forall j :: 0 <= j < k ==> |draws[j]| == Blocks(mults, threshold) && RestLengths(draws[j], n - 1)
      modifies net.chan
      ensures forall b :: 0 <= b < n ==> ListSent(old(net.chan[id, b]), Flatten(ZeroProdRows(n, draws)), b)
      ensures forall a, b :: 0 <= a < n && 0 <= b < n && a != id ==> net.chan[a, b] == old(net.chan[a, b])
    {
      hide Coefs, Single, Blocks, F, At, VandermondeRow, Units, Flatten;
      ghost var rows := ZeroProdRows(n, draws);
      FlattenNone<Coeffs>();
      for packIdx := 0 to k
        invariant forall b :: 0 <= b < n ==> ListSent(old(net.chan[id, b]), Flatten(rows[..packIdx]), b)
        invariant forall a, b :: 0 <= a < n && 0 <= b < n && a != id ==> net.chan[a, b] == old(net.chan[a, b])
      {
        ghost var cs := rows[packIdx];
        for block := 0 to Blocks(mults, threshold)
          invariant forall b :: 0 <= b < n ==> ListSent(old(net.chan[id, b]), Flatten(rows[..packIdx]) + cs[..block], b)
          invariant forall a, b :: 0 <= a < n && 0 <= b < n && a != id ==> net.chan[a, b] == old(net.chan[a, b])
        {
          var poly := EvPolyFromSecretAndPointAndDegree(F(0), packIdx, n - 1, draws[packIdx][block].rest);
          var shares := SharesFromEvPoly(poly, n);
          assert cs[block] == Coefs(poly);
          SendToAll(shares);
          assert Flatten(rows[..packIdx]) + cs[..block + 1] == (Flatten(rows[..packIdx]) + cs[..block]) + [cs[block]];
        }
        assert cs[..|cs|] == cs;
        FlattenAppend(rows[..packIdx], cs);
        assert rows[..packIdx + 1] == rows[..packIdx] + [cs];
      }
      assert rows[..k] == rows;
    }

    // -------------------------------------------------------------- mixing

    /** The t + 1 combinations of the shares received in one block. */
    method MixReceived(recv: seq<int>, ghost cs: seq<Coeffs>) returns (out: seq<int>)
      requires Valid() && |cs| == n && recv == Msgs(cs, id + 1)
      requires forall i :: 0 <= i < |cs| ==> |cs[i]| > 0
      ensures out == Msgs(MixBlock(cs, threshold), id + 1)
    {
      hide F, At, Mix, Units, Weights, Dot;
      out := [];
      for shrIdx := 0 to threshold + 1
        invariant out == Msgs(MixBlock(cs, threshold)[..shrIdx], id + 1)
      {
        var shr := F(0);
        DotNone(Weights(n, shrIdx), recv);
        for j := 0 to n
          invariant shr == F(Dot(Weights(n, shrIdx), recv, j))
        {
          DotStep(Weights(n, shrIdx), recv, j);
          WeightIs(n, shrIdx, j, threshold + 1);
          shr := Add(shr, Mul(vandermonde[j][shrIdx], recv[j]));
        }
        MixShare(cs, recv, shrIdx, id + 1);
        out := out + [shr];
      }
    }

    /** Everyone's shares of the listed polynomials wait for this party, in front of tail. */
    ghost predicate Waiting(deals: seq<seq<Coeffs>>, tail: seq<seq<int>>)
      requires Placed()
      reads net.chan
    {
      && |deals| == |tail| == n
      && forall i :: 0 <= i < n ==> net.chan[i, id] == Msgs(deals[i], id + 1) + tail[i]
    }

    ghost predicate Received(tail: seq<seq<int>>)
      requires Placed()
      reads net.chan
    {
      |tail| == n && forall i :: 0 <= i < n ==> net.chan[i, id] == tail[i]
    }

    /** The sharings mixed from m blocks received from every party. */
    method RecvBlocks(m: nat, ghost deals: seq<seq<Coeffs>>, ghost tail: seq<seq<int>>) returns (out: seq<int>)
      requires Valid() && DealtExactly(deals, m) && Waiting(deals, tail)
      modifies net.chan
      ensures out == Msgs(MixBlocks(deals, threshold, m), id + 1)
      ensures Received(tail)
      ensures forall a, b :: 0 <= a < n && 0 <= b < n && b != id ==> net.chan[a, b] == old(net.chan[a, b])
    {
      hide At, MixBlock, Units, VandermondeRow;
      out := [];
      for block := 0 to m
        invariant Dealt(deals, block)
        invariant out == Msgs(MixBlocks(deals, threshold, block), id + 1)
        invariant forall i :: 0 <= i < n ==> net.chan[i, id] == Msgs(deals[i][block..], id + 1) + tail[i]
        invariant forall a, b :: 0 <= a < n && 0 <= b < n && b != id ==> net.chan[a, b] == old(net.chan[a, b])
      {
        ColumnPositive(deals, block + 1, block);
        ghost var cs := Column(deals, block);
        forall i | 0 <= i < n
          ensures net.chan[i, id] != [] && net.chan[i, id][0] == At(deals[i][block], id + 1)
          ensures net.chan[i, id][1..] == Msgs(deals[i][block + 1..], id + 1) + tail[i]
        {
          assert Msgs(deals[i][block..], id + 1)[0] == At(deals[i][block], id + 1);
        }
        var recv := RecvFromAll();
        var shrs := MixReceived(recv, cs);
        MsgsConcat(MixBlocks(deals, threshold, block), MixBlock(cs, threshold), id + 1);
        out := out + shrs;
      }
    }

    method GenIndShrsPartiesReceive(ghost deals: seq<seq<Coeffs>>, ghost tail: seq<seq<int>>)
      requires Valid() && indShrs == [] && DealtExactly(deals, Blocks(inds, threshold)) && Waiting(deals, tail)
      modifies this`indShrs, net.chan
      ensures indShrs == Msgs(MixBlocks(deals, threshold, Blocks(inds, threshold)), id + 1)
      ensures Received(tail)
      ensures forall a, b :: 0 <= a < n && 0 <= b < n && b != id ==> net.chan[a, b] == old(net.chan[a, b])
    {
      hide At, MixBlocks, Units, VandermondeRow, Blocks, Waiting, Received;
      indShrs := RecvBlocks(Blocks(inds, threshold), deals, tail);
    }

    /** Rows of sharings wait for this party, row after row, in front of tail. */
    ghost predicate RowsWaiting(rows: seq<seq<seq<Coeffs>>>, tail: seq<seq<int>>)
      requires Placed()
      reads net.chan
    {
      && |tail| == n && (forall r :: 0 <= r < |rows| ==> |rows[r]| == n)
      && forall i :: 0 <= i < n ==> net.chan[i, id] == Msgs(Sent(rows, i), id + 1) + tail[i]
    }

    /** The mixed shares of one slot go to the first factor, the second factor and the mask, in turn. */
    method SplitUnpacked(mixed: seq<int>) returns (a: seq<int>, b: seq<int>, mask: seq<int>)
      requires 3 * mults <= |mixed|
      ensures a == mixed[..mults] && b == mixed[mults..2 * mults] && mask == mixed[2 * mults..3 * mults]
    {
      a, b, mask := [], [], [];
      for ctr := 0 to |mixed|
        invariant a == mixed[..if ctr < mults then ctr else mults]
        invariant b == if ctr < mults then [] else mixed[mults..if ctr < 2 * mults then ctr else 2 * mults]
        invariant mask == if ctr < 2 * mults then [] else mixed[2 * mults..if ctr < 3 * mults then ctr else 3 * mults]
      {
        var shr := mixed[ctr];
        if ctr < mults {
          a := a + [shr];
        }
        if mults <= ctr && ctr < 2 * mults {
          b := b + [shr];
        }
        if 2 * mults <= ctr && ctr < 3 * mults {
          mask := mask + [shr];
        }
      }
    }

    /** The unpacked shares of the first m slots have been stored. */
    ghost predicate Unpacked(rows: seq<seq<seq<Coeffs>>>, m: nat)
      requires RowsDealt(rows, Blocks(3 * mults, threshold))
      reads this
    {
      && |unpackedA| == |unpackedB| == |unpackedMask| == m <= |rows|
      && (forall j :: 0 <= j < m ==> unpackedA[j] == Msgs(FirstRows(rows, threshold, mults)[j], id + 1))
      && (forall j :: 0 <= j < m ==> unpackedB[j] == Msgs(SecondRows(rows, threshold, mults)[j], id + 1))
      && (forall j :: 0 <= j < m ==> unpackedMask[j] == Msgs(MaskRows(rows, threshold, mults)[j], id + 1))
    }

    method GenUnpackedShrPartiesReceive(ghost rows: seq<seq<seq<Coeffs>>>, ghost tail: seq<seq<int>>)
      requires Valid() && unpackedA == [] && unpackedB == [] && unpackedMask == [] && multPrep == []
      requires |rows| == k && RowsExactly(rows, n, Blocks(3 * mults, threshold)) && RowsDealt(rows, Blocks(3 * mults, threshold))
      requires RowsWaiting(rows, tail)
      modifies this`unpackedA, this`unpackedB, this`unpackedMask, this`multPrep, net.chan
      ensures Unpacked(rows, k)
      ensures Factors(multPrep, FirstRows(rows, threshold, mults), SecondRows(rows, threshold, mults), mults, mults, id + 1)
      ensures Received(tail)
      ensures forall a, b :: 0 <= a < n && 0 <= b < n && b != id ==> net.chan[a, b] == old(net.chan[a, b])
    {
      hide *;
      RecvUnpacked(rows, tail);
      PackFactors(rows);
    }

    /** One row of unpacked shares. */
    method RecvUnpackedRow(ghost row: seq<seq<Coeffs>>, ghost behind: seq<seq<int>>)
      requires Valid() && DealtExactly(row, Blocks(3 * mults, threshold)) && Waiting(row, behind)
      modifies this`unpackedA, this`unpackedB, this`unpackedMask, net.chan
      ensures unpackedA == old(unpackedA) + [Msgs(FirstFactors(row, threshold, mults), id + 1)]
      ensures unpackedB == old(unpackedB) + [Msgs(SecondFactors(row, threshold, mults), id + 1)]
      ensures unpackedMask == old(unpackedMask) + [Msgs(Masks(row, threshold, mults), id + 1)]
      ensures Received(behind)
      ensures forall a, b :: 0 <= a < n && 0 <= b < n && b != id ==> net.chan[a, b] == old(net.chan[a, b])
    {
      hide At, MixBlocks, Units, VandermondeRow, Blocks, F, FirstFactors, SecondFactors, Masks;
      var mixed := RecvBlocks(Blocks(3 * mults, threshold), row, behind);
      RowParts(row, threshold, mults, id + 1);
      var a, b, mask := SplitUnpacked(mixed);
      unpackedA, unpackedB, unpackedMask := unpackedA + [a], unpackedB + [b], unpackedMask + [mask];
    }

    method RecvUnpacked(ghost rows: seq<seq<seq<Coeffs>>>, ghost tail: seq<seq<int>>)
      requires Valid() && unpackedA == [] && unpackedB == [] && unpackedMask == []
      requires |rows| == k && RowsExactly(rows, n, Blocks(3 * mults, threshold)) && RowsDealt(rows, Blocks(3 * mults, threshold))
      requires RowsWaiting(rows, tail)
      modifies this`unpackedA, this`unpackedB, this`unpackedMask, net.chan
      ensures Valid() && Unpacked(rows, k) && Received(tail)
      ensures forall a, b :: 0 <= a < n && 0 <= b < n && b != id ==> net.chan[a, b] == old(net.chan[a, b])
    {
      hide At, MixBlocks, Units, VandermondeRow, Blocks, F, Sent, FirstFactors, SecondFactors, Masks;
      for packIdx := 0 to k
        invariant Unpacked(rows, packIdx)
        invariant RowsWaiting(rows[packIdx..], tail)
        invariant forall a, b :: 0 <= a < n && 0 <= b < n && b != id ==> net.chan[a, b] == old(net.chan[a, b])
      {
        ghost var behind := SentTails(rows[packIdx + 1..], id + 1, tail);
        RowsStep(rows[packIdx..], id + 1, tail);
        assert rows[packIdx..][1..] == rows[packIdx + 1..];
        RecvUnpackedRow(rows[packIdx], behind);
      }
      RowsNone(id + 1, tail);
    }

    /** The shares of the packed factors of every batch. */
    method PackFactors(ghost rows: seq<seq<seq<Coeffs>>>)
      requires Valid() && multPrep == [] && |rows| == k
      requires RowsDealt(rows, Blocks(3 * mults, threshold)) && Unpacked(rows, k)
      modifies this`multPrep
      ensures Valid() && Unpacked(rows, k)
      ensures Factors(multPrep, FirstRows(rows, threshold, mults), SecondRows(rows, threshold, mults), mults, mults, id + 1)
    {
      hide At, Units, VandermondeRow, Blocks, F, FirstRows, SecondRows, MaskRows, PackColumn;
      ghost var fa, fb := FirstRows(rows, threshold, mults), SecondRows(rows, threshold, mults);
      for i := 0 to mults
        invariant Factors(multPrep, fa, fb, mults, i, id + 1)
      {
        var data := PackBatch(i, fa, fb);
        multPrep := multPrep + [data];
      }
    }

    method PackBatch(i: nat, ghost fa: seq<seq<Coeffs>>, ghost fb: seq<seq<Coeffs>>) returns (data: MultBatchFIPrep)
      requires Valid() && i < mults && Grid(fa, mults) && Grid(fb, mults)
      requires |fa| == |fb| == |unpackedA| == |unpackedB| == k
      requires forall j :: 0 <= j < k ==> unpackedA[j] == Msgs(fa[j], id + 1)
      requires forall j :: 0 <= j < k ==> unpackedB[j] == Msgs(fb[j], id + 1)
      ensures data ==
        MultBatchFIPrep(At(PackColumn(fa, mults, i), id + 1), At(PackColumn(fb, mults, i), id + 1), F(0), F(0), F(0), F(0))
    {
      hide At, Units, VandermondeRow, F, Pack, Dot, Add, Mul;
      GridColumn(fa, mults, i);
      GridColumn(fb, mults, i);
      ghost var ua, ub := Msgs(Column(fa, i), id + 1), Msgs(Column(fb, i), id + 1);
      data := MultBatchFIPrep(F(0), F(0), F(0), F(0), F(0), F(0));
      DotNone(sharesOfEi, ua);
      DotNone(sharesOfEi, ub);
      for packIdx := 0 to k
        invariant data == MultBatchFIPrep(F(Dot(sharesOfEi, ua, packIdx)), F(Dot(sharesOfEi, ub, packIdx)), F(0), F(0), F(0), F(0))
      {
        DotStep(sharesOfEi, ua, packIdx);
        DotStep(sharesOfEi, ub, packIdx);
        assert unpackedA[packIdx][i] == ua[packIdx] && unpackedB[packIdx][i] == ub[packIdx];
        data := data.(mShrA := Add(data.mShrA, Mul(sharesOfEi[packIdx], unpackedA[packIdx][i])),
                      mShrB := Add(data.mShrB, Mul(sharesOfEi[packIdx], unpackedB[packIdx][i])));
      }
      PackShare(k, Column(fa, i), sharesOfEi, ua, id + 1);
      PackShare(k, Column(fb, i), sharesOfEi, ub, id + 1);
    }

    // -------------------------------------------------------------- sharings of zero

    /** Sharings of zero: one third of the batches' masks each, and the rest, together with
        everything before the last third, for input and output batches. */
    method GenZeroPartiesReceive(ghost deals: seq<seq<Coeffs>>, ghost tail: seq<seq<int>>)
      requires Valid() && ioPrep == [] && |multPrep| == mults
      requires DealtExactly(deals, Blocks(3 * mults + ios, threshold)) && Waiting(deals, tail)
      modifies this`multPrep, this`ioPrep, net.chan
      ensures var zs := MixBlocks(deals, threshold, Blocks(3 * mults + ios, threshold));
              && 3 * mults + ios <= |zs|
              && ZerosSet(old(multPrep), multPrep, Msgs(zs, id + 1), mults)
              && ioPrep == Msgs(zs[..2 * mults] + zs[3 * mults..], id + 1)
      ensures Received(tail)
      ensures forall a, b :: 0 <= a < n && 0 <= b < n && b != id ==> net.chan[a, b] == old(net.chan[a, b])
    {
      hide At, MixBlocks, Units, VandermondeRow, Blocks, Waiting, Received, F;
      ghost var zs := MixBlocks(deals, threshold, Blocks(3 * mults + ios, threshold));
      var mixed := RecvBlocks(Blocks(3 * mults + ios, threshold), deals, tail);
      StoreZeros(mixed);
      MsgsSlice(zs, 0, 2 * mults, id + 1);
      MsgsSlice(zs, 3 * mults, |zs|, id + 1);
      MsgsConcat(zs[..2 * mults], zs[3 * mults..], id + 1);
    }

    method StoreZeros(mixed: seq<int>)
      requires 3 * mults <= |mixed| && |multPrep| == mults && ioPrep == []
      modifies this`multPrep, this`ioPrep
      ensures ZerosSet(old(multPrep), multPrep, mixed, mults)
      ensures ioPrep == mixed[..2 * mults] + mixed[3 * mults..]
    {
      hide Stored, Kept;
      StoredStart(multPrep, mixed, mults);
      KeptEnds(mixed, mults);
      for ctr := 0 to |mixed|
        invariant |multPrep| == mults
        invariant forall q :: 0 <= q < mults ==> multPrep[q] == Stored(old(multPrep)[q], mixed, mults, q, ctr)
        invariant ioPrep == Kept(mixed, mults, ctr)
      {
        StoredStep(old(multPrep), mixed, mults, ctr);
        KeptStep(mixed, mults, ctr);
        StoreZero(ctr, mixed[ctr]);
      }
      StoredAll(old(multPrep), mixed, mults);
    }

    method StoreZero(ctr: nat, shr: int)
      requires |multPrep| == mults
      modifies this`multPrep, this`ioPrep
      ensures |multPrep| == mults
      ensures forall q :: 0 <= q < mults ==>
        multPrep[q] ==
          if q == ctr then old(multPrep)[q].(mShrO1 := shr)
          else if mults + q == ctr then old(multPrep)[q].(mShrO2 := shr)
          else if 2 * mults + q == ctr then old(multPrep)[q].(mShrO3 := shr) else old(multPrep)[q]
      ensures ioPrep == if 2 * mults <= ctr < 3 * mults then old(ioPrep) else old(ioPrep) + [shr]
    {
      if ctr < mults {
        multPrep := multPrep[ctr := multPrep[ctr].(mShrO1 := shr)];
      }
      if mults <= ctr && ctr < 2 * mults {
        multPrep := multPrep[ctr - mults := multPrep[ctr - mults].(mShrO2 := shr)];
      }
      if 2 * mults <= ctr && ctr < 3 * mults {
        multPrep := multPrep[ctr - 2 * mults := multPrep[ctr - 2 * mults].(mShrO3 := shr)];
      } else {
        ioPrep := ioPrep + [shr];
      }
    }

    method GenZeroForProdPartiesReceive(ghost rows: seq<seq<seq<Coeffs>>>, ghost tail: seq<seq<int>>)
      requires Valid() && zeroProd == []
      requires |rows| == k && RowsExactly(rows, n, Blocks(mults, threshold)) && RowsDealt(rows, Blocks(mults, threshold))
      requires RowsWaiting(rows, tail)
      modifies this`zeroProd, net.chan
      ensures |zeroProd| == k
      ensures forall j :: 0 <= j < k ==> zeroProd[j] == Msgs(MixBlocks(rows[j], threshold, Blocks(mults, threshold)), id + 1)
      ensures Received(tail)
      ensures forall a, b :: 0 <= a < n && 0 <= b < n && b != id ==> net.chan[a, b] == old(net.chan[a, b])
    {
      hide At, MixBlocks, Units, VandermondeRow, Blocks, F, Sent;
      for packIdx := 0 to k
        invariant |zeroProd| == packIdx
        invariant forall j :: 0 <= j < packIdx ==> zeroProd[j] == Msgs(MixBlocks(rows[j], threshold, Blocks(mults, threshold)), id + 1)
        invariant RowsWaiting(rows[packIdx..], tail)
        invariant forall a, b :: 0 <= a < n && 0 <= b < n && b != id ==> net.chan[a, b] == old(net.chan[a, b])
      {
        ghost var behind := SentTails(rows[packIdx + 1..], id + 1, tail);
        RowsStep(rows[packIdx..], id + 1, tail);
        assert rows[packIdx..][1..] == rows[packIdx + 1..];
        var mixed := RecvBlocks(Blocks(mults, threshold), rows[packIdx], behind);
        zeroProd := zeroProd + [mixed];
      }
      RowsNone(id + 1, tail);
    }

    // -------------------------------------------------------------- products

    /** Masked shares of the products, to P1. */
    method GenProdPartiesSendP1(ghost fa: seq<seq<Coeffs>>, ghost fb: seq<seq<Coeffs>>, ghost fm: seq<seq<Coeffs>>,
                                ghost fz: seq<seq<Coeffs>>, ghost prods: seq<seq<Coeffs>>)
      requires Valid() && |fa| == |fb| == |fm| == |fz| == |prods| == k && Grid(fa, mults) && Grid(fb, mults) && Grid(fm, mults)
      requires |unpackedA| == |unpackedB| == |unpackedMask| == |zeroProd| == k
      requires forall j :: 0 <= j < k ==> unpackedA[j] == Msgs(fa[j], id + 1)
      requires forall j :: 0 <= j < k ==> unpackedB[j] == Msgs(fb[j], id + 1)
      requires forall j :: 0 <= j < k ==> unpackedMask[j] == Msgs(fm[j], id + 1)
      requires forall j :: 0 <= j < k ==> mults <= |fz[j]| && zeroProd[j] == Msgs(fz[j], id + 1)
      requires forall j :: 0 <= j < k ==> prods[j] == ProdRow(fa[j], fb[j], fm[j], fz[j], mults)
      modifies net.chan
      ensures net.chan[id, 0] == old(net.chan[id, 0]) + Msgs(Flatten(prods), id + 1)
      ensures forall a, b :: 0 <= a < n && 0 <= b < n && (a, b) != (id, 0) ==> net.chan[a, b] == old(net.chan[a, b])
    {
      hide At, Units, VandermondeRow, F, ProdPoly, ProdShare, Flatten;
      FlattenNone<Coeffs>();
      for packIdx := 0 to k
        invariant net.chan[id, 0] == old(net.chan[id, 0]) + Msgs(Flatten(prods[..packIdx]), id + 1)
        invariant forall a, b :: 0 <= a < n && 0 <= b < n && (a, b) != (id, 0) ==> net.chan[a, b] == old(net.chan[a, b])
      {
        ghost var done := Flatten(prods[..packIdx]);
        for batch := 0 to mults
          invariant net.chan[id, 0] == old(net.chan[id, 0]) + Msgs(done + prods[packIdx][..batch], id + 1)
          invariant forall a, b :: 0 <= a < n && 0 <= b < n && (a, b) != (id, 0) ==> net.chan[a, b] == old(net.chan[a, b])
        {
          var share := ProdShare(unpackedA[packIdx][batch], unpackedB[packIdx][batch],
                                 unpackedMask[packIdx][batch], zeroProd[packIdx][batch]);
          ProdPolyAt(fa[packIdx][batch], fb[packIdx][batch], fm[packIdx][batch], fz[packIdx][batch], id + 1);
          assert share == At(prods[packIdx][batch], id + 1);
          net.Send(id, 0, share);
          assert done + prods[packIdx][..batch + 1] == (done + prods[packIdx][..batch]) + [prods[packIdx][batch]];
        }
        assert prods[packIdx][..mults] == prods[packIdx];
        FlattenAppend(prods[..packIdx], prods[packIdx]);
        assert prods[..packIdx + 1] == prods[..packIdx] + [prods[packIdx]];
      }
      assert prods[..k] == prods;
    }

    /** P1 in the middle of an exchange: shares of ins still wait in front of tail, and shares
        of outs have been sent to the parties from first on, behind what was queued before. */
    ghost predicate Exchanging(ins: seq<Coeffs>, tail: seq<seq<int>>, queued: seq<seq<int>>, outs: seq<Coeffs>, first: nat)
      requires Placed()
      reads net.chan
    {
      && |tail| == |queued| == n
      && (forall a :: 1 <= a < n ==> net.chan[a, 0] == Msgs(ins, a + 1) + tail[a])
      && (forall b :: 1 <= b < n ==> net.chan[0, b] == queued[b] + if b >= first then Msgs(outs, b + 1) else [])
      && net.chan[0, 0] == Msgs(ins, 1) + tail[0] + if first == 0 then Msgs(outs, 1) else []
    }

    /** P1 takes everyone's share of the next polynomial. */
    method TakeShares(ghost c: Coeffs, ghost ins: seq<Coeffs>, ghost tail: seq<seq<int>>, ghost queued: seq<seq<int>>,
                      ghost outs: seq<Coeffs>, ghost first: nat)
      returns (recv: seq<int>)
      requires Placed() && id == 0 && Exchanging([c] + ins, tail, queued, outs, first)
      modifies net.chan
      ensures |recv| == n && forall i :: 0 <= i < n ==> recv[i] == At(c, i + 1)
      ensures Exchanging(ins, tail, queued, outs, first)
      ensures forall a, b :: 1 <= a < n && 1 <= b < n ==> net.chan[a, b] == old(net.chan[a, b])
    {
      hide At;
      forall x: int ensures Msgs([c] + ins, x) == [At(c, x)] + Msgs(ins, x) {
        MsgsConcat([c], ins, x);
        MsgsOne(c, x);
      }
      recv := RecvFromAll();
    }

    /** P1 sends shares of one polynomial to the parties from first on. */
    method SendFrom(shares: seq<int>, ghost r: Coeffs, ghost ins: seq<Coeffs>, ghost tail: seq<seq<int>>,
                    ghost queued: seq<seq<int>>, ghost outs: seq<Coeffs>, first: nat)
      requires Placed() && id == 0 && Exchanging(ins, tail, queued, outs, first)
      requires |shares| == n && (forall b :: 0 <= b < n ==> shares[b] == At(r, b + 1)) && first <= n
      modifies net.chan
      ensures Exchanging(ins, tail, queued, outs + [r], first)
      ensures forall a, b :: 1 <= a < n && 1 <= b < n ==> net.chan[a, b] == old(net.chan[a, b])
    {
      hide At;
      for i := first to n
        invariant forall b :: 0 <= b < n ==>
          net.chan[0, b] == old(net.chan[0, b]) + if first <= b < i then [shares[b]] else []
        invariant forall a, b :: 1 <= a < n && 0 <= b < n ==> net.chan[a, b] == old(net.chan[a, b])
      {
        net.Send(0, i, shares[i]);
      }
      forall x: int ensures Msgs(outs + [r], x) == Msgs(outs, x) + [At(r, x)] {
        MsgsConcat(outs, [r], x);
        MsgsOne(r, x);
      }
    }

    /** P1 opens one masked product and returns it in a sharing that is zero for the first t parties. */
    method OpenProduct(packIdx: nat, ghost c: Coeffs, ghost ins: seq<Coeffs>, ghost tail: seq<seq<int>>,
                       ghost queued: seq<seq<int>>, ghost outs: seq<Coeffs>)
      requires IsPrime(P61) && Valid() && id == 0 && packIdx < k && |c| <= n
      requires Exchanging([c] + ins, tail, queued, outs, threshold)
      modifies net.chan
      ensures Exchanging(ins, tail, queued, outs + [Returned(At(c, Slot(packIdx)), packIdx, threshold)], threshold)
      ensures forall a, b :: 1 <= a < n && 1 <= b < n ==> net.chan[a, b] == old(net.chan[a, b])
    {
      hide At, Units, VandermondeRow, F, Slot, Coefs, Rebuilt, IsPrime, Exchanging;
      var recvShares := TakeShares(c, ins, tail, queued, outs, threshold);
      RebuiltIs(c, recvShares, Slot(packIdx));
      var secret := SecretFromPointAndShares(Slot(packIdx), recvShares);
      var yPoints := [secret];
      var xPoints := [Slot(packIdx)];
      for i := 1 to threshold + 1
        invariant yPoints == [secret] + Zeros(i - 1)
        invariant xPoints == [Slot(packIdx)] + Naturals(i - 1)
      {
        yPoints := yPoints + [F(0)];
        xPoints := xPoints + [i];
      }
      var poly := EvPolynomial(xPoints, yPoints);
      var sharesToSend := SharesFromEvPoly(poly, n);
      SendFrom(sharesToSend, Returned(secret, packIdx, threshold), ins, tail, queued, outs, threshold);
    }

    method GenProdP1ReceivesAndSends(ghost prods: seq<seq<Coeffs>>, ghost tail: seq<seq<int>>, ghost queued: seq<seq<int>>)
      requires IsPrime(P61) && Valid() && |prods| == k
      requires forall j :: 0 <= j < k ==> |prods[j]| == mults && Lengths(prods[j], n)
      requires id == 0 ==> Exchanging(Flatten(prods), tail, queued, [], threshold)
      modifies net.chan
      ensures id != 0 ==> forall a, b :: 0 <= a < n && 0 <= b < n ==> net.chan[a, b] == old(net.chan[a, b])
      ensures id == 0 ==> Exchanging([], tail, queued, Flatten(ReturnedRows(prods, threshold)), threshold)
      ensures forall a, b :: 1 <= a < n && 1 <= b < n ==> net.chan[a, b] == old(net.chan[a, b])
    {
      if id == 0 {
        hide At, Units, VandermondeRow, F, ReturnedRow, IsPrime, Flatten, Exchanging, Lengths;
        ghost var back := ReturnedRows(prods, threshold);
        FlattenNone<Coeffs>();
        assert prods[0..] == prods && back[..0] == [];
        for packIdx := 0 to k
          invariant Exchanging(Flatten(prods[packIdx..]), tail, queued, Flatten(back[..packIdx]), threshold)
          invariant forall a, b :: 1 <= a < n && 1 <= b < n ==> net.chan[a, b] == old(net.chan[a, b])
        {
          FlattenHead(prods[packIdx..]);
          assert prods[packIdx..][1..] == prods[packIdx + 1..];
          OpenRow(packIdx, prods[packIdx], Flatten(prods[packIdx + 1..]), tail, queued, Flatten(back[..packIdx]));
          FlattenAppend(back[..packIdx], back[packIdx]);
          assert back[..packIdx + 1] == back[..packIdx] + [back[packIdx]];
        }
        assert back[..k] == back && prods[k..] == [];
      }
    }

    method OpenRow(packIdx: nat, ghost row: seq<Coeffs>, ghost later: seq<Coeffs>, ghost tail: seq<seq<int>>,
                   ghost queued: seq<seq<int>>, ghost done: seq<Coeffs>)
      requires IsPrime(P61) && Valid() && id == 0 && packIdx < k && |row| == mults && Lengths(row, n)
      requires Exchanging(row + later, tail, queued, done, threshold)
      modifies net.chan
      ensures Exchanging(later, tail, queued, done + ReturnedRow(row, packIdx, threshold), threshold)
      ensures forall a, b :: 1 <= a < n && 1 <= b < n ==> net.chan[a, b] == old(net.chan[a, b])
    {
      hide At, Units, VandermondeRow, F, Slot, Returned, IsPrime, Exchanging;
      ghost var back := ReturnedRow(row, packIdx, threshold);
      assert row[0..] + later == row + later && done + back[..0] == done;
      for batch := 0 to mults
        invariant Exchanging(row[batch..] + later, tail, queued, done + back[..batch], threshold)
        invariant forall a, b :: 1 <= a < n && 1 <= b < n ==> net.chan[a, b] == old(net.chan[a, b])
      {
        assert row[batch..] + later == [row[batch]] + (row[batch + 1..] + later);
        assert done + back[..batch + 1] == (done + back[..batch]) + [back[batch]];
        OpenProduct(packIdx, row[batch], row[batch + 1..] + later, tail, queued, done + back[..batch]);
      }
      assert row[mults..] + later == later && back[..mults] == back;
    }

    /** Removing the masks gives shares of the products; packing them completes the triples. */
    method GenProdPartiesReceive(ghost back: seq<seq<Coeffs>>, ghost fm: seq<seq<Coeffs>>, ghost tail: seq<int>)
      requires Valid() && |back| == |fm| == |unpackedMask| == k && Grid(back, mults) && Grid(fm, mults)
      requires forall j :: 0 <= j < k ==> unpackedMask[j] == Msgs(fm[j], id + 1)
      requires |multPrep| == mults && forall q :: 0 <= q < mults ==> multPrep[q].mShrC == F(0)
      requires id >= threshold ==> net.chan[0, id] == Msgs(Flatten(back), id + 1) + tail
      requires id < threshold ==> forall j, q :: 0 <= j < k && 0 <= q < mults ==> At(back[j][q], id + 1) == F(0)
      modifies this`multPrep, net.chan
      ensures TriplesCompleted(old(multPrep), multPrep, SubRows(back, fm, mults), mults, id + 1)
      ensures net.chan[0, id] == if id >= threshold then tail else old(net.chan[0, id])
      ensures forall a, b :: 0 <= a < n && 0 <= b < n && (a, b) != (0, id) ==> net.chan[a, b] == old(net.chan[a, b])
    {
      hide At, Units, VandermondeRow, F, Flatten, SubRows, PackColumn;
      var sharesProd := RecvProducts(back, fm, tail);
      CompleteTriples(sharesProd, SubRows(back, fm, mults));
    }

    method CompleteTriples(sharesProd: seq<seq<int>>, ghost prods: seq<seq<Coeffs>>)
      requires Valid() && |multPrep| == mults && |sharesProd| == |prods| == k && Grid(prods, mults)
      requires forall q :: 0 <= q < mults ==> multPrep[q].mShrC == F(0)
      requires forall j :: 0 <= j < k ==> sharesProd[j] == Msgs(prods[j], id + 1)
      modifies this`multPrep
      ensures TriplesCompleted(old(multPrep), multPrep, prods, mults, id + 1)
    {
      hide At, Units, VandermondeRow, F, Msgs, PackColumn;
      for i := 0 to mults
        invariant |multPrep| == mults
        invariant forall q :: 0 <= q < i ==>
          multPrep[q] == old(multPrep)[q].(mShrC := At(PackColumn(prods, mults, q), id + 1))
        invariant forall q :: i <= q < mults ==> multPrep[q] == old(multPrep)[q]
      {
        var c := PackProducts(i, sharesProd, prods, multPrep[i].mShrC);
        multPrep := multPrep[i := multPrep[i].(mShrC := c)];
      }
    }

    method RecvProducts(ghost back: seq<seq<Coeffs>>, ghost fm: seq<seq<Coeffs>>, ghost tail: seq<int>)
      returns (sharesProd: seq<seq<int>>)
      requires Valid() && |back| == |fm| == |unpackedMask| == k && Grid(back, mults) && Grid(fm, mults)
      requires forall j :: 0 <= j < k ==> unpackedMask[j] == Msgs(fm[j], id + 1)
      requires id >= threshold ==> net.chan[0, id] == Msgs(Flatten(back), id + 1) + tail
      requires id < threshold ==> forall j, q :: 0 <= j < k && 0 <= q < mults ==> At(back[j][q], id + 1) == F(0)
      modifies net.chan
      ensures |sharesProd| == k
      ensures forall j :: 0 <= j < k ==> sharesProd[j] == Msgs(SubRows(back, fm, mults)[j], id + 1)
      ensures net.chan[0, id] == if id >= threshold then tail else old(net.chan[0, id])
      ensures forall a, b :: 0 <= a < n && 0 <= b < n && (a, b) != (0, id) ==> net.chan[a, b] == old(net.chan[a, b])
    {
      hide At, Units, VandermondeRow, F, Flatten, SubRow;
      ghost var prods := SubRows(back, fm, mults);
      sharesProd := [];
      assert back[0..] == back;
      for packIdx := 0 to k
        invariant |sharesProd| == packIdx
        invariant forall j :: 0 <= j < packIdx ==> sharesProd[j] == Msgs(prods[j], id + 1)
        invariant net.chan[0, id] == if id >= threshold then Msgs(Flatten(back[packIdx..]), id + 1) + tail else old(net.chan[0, id])
        invariant forall a, b :: 0 <= a < n && 0 <= b < n && (a, b) != (0, id) ==> net.chan[a, b] == old(net.chan[a, b])
      {
        FlattenHead(back[packIdx..]);
        assert back[packIdx..][1..] == back[packIdx + 1..];
        var row := RecvProductRow(packIdx, back[packIdx], fm[packIdx], Flatten(back[packIdx + 1..]), tail);
        sharesProd := sharesProd + [row];
      }
      assert back[k..] == [];
      FlattenNone<Coeffs>();
      assert Msgs([], id + 1) + tail == tail;
    }

    method RecvProductRow(packIdx: nat, ghost back: seq<Coeffs>, ghost fm: seq<Coeffs>, ghost later: seq<Coeffs>, ghost tail: seq<int>)
      returns (row: seq<int>)
      requires Valid() && packIdx < |unpackedMask| && |back| == |fm| == mults && Nonempty(back)
      requires unpackedMask[packIdx] == Msgs(fm, id + 1)
      requires id >= threshold ==> net.chan[0, id] == Msgs(back + later, id + 1) + tail
      requires id < threshold ==> forall q :: 0 <= q < mults ==> At(back[q], id + 1) == F(0)
      modifies net.chan
      ensures row == Msgs(SubRow(back, fm), id + 1)
      ensures net.chan[0, id] == if id >= threshold then Msgs(later, id + 1) + tail else old(net.chan[0, id])
      ensures forall a, b :: 0 <= a < n && 0 <= b < n && (a, b) != (0, id) ==> net.chan[a, b] == old(net.chan[a, b])
    {
      hide At, Units, VandermondeRow, F, Sub, SubRow, Msgs, Rest;
      ghost var cs, x := SubRow(back, fm), id + 1;
      row := [];
      MsgsEnds(cs, x);
      RestEnds(back, later, tail, x);
      for batch := 0 to mults
        invariant row == Msgs(cs[..batch], x)
        invariant net.chan[0, id] == if id >= threshold then Rest(back, later, tail, batch, x) else old(net.chan[0, id])
        invariant forall a, b :: 0 <= a < n && 0 <= b < n && (a, b) != (0, id) ==> net.chan[a, b] == old(net.chan[a, b])
      {
        RestStep(back, later, tail, batch, x);
        var recv: int;
        if id >= threshold {
          recv := net.Recv(0, id);
        } else {
          recv := F(0);
        }
        SubRowAt(back, fm, batch, x);
        MsgsGrow(cs, batch, x);
        row := row + [Sub(recv, unpackedMask[packIdx][batch])];
      }
    }

    method PackProducts(i: nat, sharesProd: seq<seq<int>>, ghost prods: seq<seq<Coeffs>>, start: int) returns (c: int)
      requires Valid() && i < mults && Grid(prods, mults) && |prods| == |sharesProd| == k && start == F(0)
      requires forall j :: 0 <= j < k ==> sharesProd[j] == Msgs(prods[j], id + 1)
      ensures c == At(PackColumn(prods, mults, i), id + 1)
    {
      hide At, Units, VandermondeRow, F, Pack, Dot, Add, Mul;
      GridColumn(prods, mults, i);
      ghost var u := Msgs(Column(prods, i), id + 1);
      c := start;
      DotNone(sharesOfEi, u);
      for packIdx := 0 to k
        invariant c == F(Dot(sharesOfEi, u, packIdx))
      {
        DotStep(sharesOfEi, u, packIdx);
        assert sharesProd[packIdx][i] == u[packIdx];
        c := Add(c, Mul(sharesOfEi[packIdx], sharesProd[packIdx][i]));
      }
      PackShare(k, Column(prods, i), sharesOfEi, u, id + 1);
    }

    // -------------------------------------------------------------- assigning shares to gates

    /** Gate g has its share of its wire. */
    ghost predicate HasShare(lay: Layout, ind: seq<Coeffs>, g: nat)
      requires WellFormed(lay) && |Fresh(lay)| <= |ind| && Nonempty(ind)
      reads this
    {
      g < |lay.gates| && g in mapIndShrs && mapIndShrs[g] == At(WirePoly(lay, ind, g), id + 1)
    }

    ghost predicate Mapped(lay: Layout, ind: seq<Coeffs>)
      requires WellFormed(lay) && |Fresh(lay)| <= |ind| && Nonempty(ind)
      reads this
    {
      forall g :: 0 <= g < |lay.gates| ==> HasShare(lay, ind, g)
    }

    /** No output gate has a share yet: reading one gives 0. */
    ghost predicate OutputsBlank(lay: Layout)
      reads this
    {
      forall g :: 0 <= g < |lay.gates| && lay.gates[g].OutputGate? && g in mapIndShrs ==> mapIndShrs[g] == F(0)
    }

    /** The fresh gates take the individual shares in turn; then additions and then outputs follow
        their parents, so that an output which an addition reads has no share yet. */
    method PopulateIndvShrs(lay: Layout, ghost ind: seq<Coeffs>)
      requires WellFormed(lay) && |Fresh(lay)| <= |ind| && Nonempty(ind) && indShrs == Msgs(ind, id + 1)
      requires mapIndShrs == map[]
      modifies this`mapIndShrs
      ensures Mapped(lay, ind)
    {
      hide At, Ids, Is;
      PopulateFresh(lay, ind);
      PopulateAdds(lay, ind);
      PopulateOutputs(lay, ind);
      forall g | 0 <= g < |lay.gates| ensures HasShare(lay, ind, g) {
        GateKinds(lay, g);
      }
    }

    /** The next fresh gate takes the next individual share. */
    method PopulateNext(gate: nat, ctr: nat, ghost lay: Layout, ghost ind: seq<Coeffs>)
      requires WellFormed(lay) && |Fresh(lay)| <= |ind| && Nonempty(ind) && indShrs == Msgs(ind, id + 1)
      requires ctr < |Fresh(lay)| && gate == Fresh(lay)[ctr]
      modifies this`mapIndShrs
      ensures HasShare(lay, ind, Fresh(lay)[ctr])
      ensures forall g :: old(HasShare(lay, ind, g)) ==> HasShare(lay, ind, g)
      ensures old(OutputsBlank(lay)) ==> OutputsBlank(lay)
    {
      hide At, Fresh, WirePoly, WellFormed, Msgs, F;
      FreshShare(lay, ind, ctr, id + 1);
      FreshKind(lay, ctr);
      mapIndShrs := mapIndShrs[gate := indShrs[ctr]];
    }

    method PopulateFresh(lay: Layout, ghost ind: seq<Coeffs>)
      requires WellFormed(lay) && |Fresh(lay)| <= |ind| && Nonempty(ind) && indShrs == Msgs(ind, id + 1)
      requires mapIndShrs == map[]
      modifies this`mapIndShrs
      ensures OutputsBlank(lay)
      ensures forall g :: g in Fresh(lay) ==> HasShare(lay, ind, g)
    {
      hide At, Ids, Is, Flatten, HasShare, WellFormed, Msgs, Nonempty, OutputsBlank;
      NothingMapped(lay);
      var inputGates := Ids(lay.gates, AnyInput);
      var ctr := 0;
      for i := 0 to |inputGates|
        invariant ctr == i && OutputsBlank(lay)
        invariant forall j :: 0 <= j < ctr ==> HasShare(lay, ind, Fresh(lay)[j])
      {
        PopulateNext(inputGates[i], ctr, lay, ind);
        ctr := ctr + 1;
      }
      FlattenNone<nat>();
      assert lay.mults[..0] == [];
      for layer := 0 to |lay.mults|
        invariant ctr == |inputGates| + |Flatten(lay.mults[..layer])| <= |Fresh(lay)| && OutputsBlank(lay)
        invariant forall j :: 0 <= j < ctr ==> HasShare(lay, ind, Fresh(lay)[j])
      {
        LayerPlace(lay, layer);
        ctr := PopulateLayer(layer, ctr, lay, ind);
      }
      FreshCount(lay);
    }

    lemma NothingMapped(lay: Layout)
      requires mapIndShrs == map[]
      ensures OutputsBlank(lay)
    {
    }

    method PopulateLayer(layer: nat, from: nat, lay: Layout, ghost ind: seq<Coeffs>) returns (ctr: nat)
      requires WellFormed(lay) && |Fresh(lay)| <= |ind| && Nonempty(ind) && indShrs == Msgs(ind, id + 1)
      requires layer < |lay.mults| && from + |lay.mults[layer]| <= |Fresh(lay)|
      requires forall i :: 0 <= i < |lay.mults[layer]| ==> Fresh(lay)[from + i] == lay.mults[layer][i]
      requires forall j :: 0 <= j < from ==> HasShare(lay, ind, Fresh(lay)[j])
      requires OutputsBlank(lay)
      modifies this`mapIndShrs
      ensures ctr == from + |lay.mults[layer]| && OutputsBlank(lay)
      ensures forall j :: 0 <= j < ctr ==> HasShare(lay, ind, Fresh(lay)[j])
    {
      hide At, Fresh, HasShare, WellFormed, Msgs, Nonempty, OutputsBlank;
      var row := lay.mults[layer];
      ctr := from;
      for i := 0 to |row|
        invariant ctr == from + i && OutputsBlank(lay)
        invariant forall j :: 0 <= j < ctr ==> HasShare(lay, ind, Fresh(lay)[j])
      {
        assert Fresh(lay)[from + i] == lay.mults[layer][i];
        PopulateNext(row[i], ctr, lay, ind);
        ctr := ctr + 1;
      }
    }

    method PopulateAdds(lay: Layout, ghost ind: seq<Coeffs>)
      requires WellFormed(lay) && |Fresh(lay)| <= |ind| && Nonempty(ind) && OutputsBlank(lay)
      requires forall g :: g in Fresh(lay) ==> HasShare(lay, ind, g)
      modifies this`mapIndShrs
      ensures forall g :: g in Fresh(lay) ==> HasShare(lay, ind, g)
      ensures forall g :: g in Ids(lay.gates, AnyAdd) ==> HasShare(lay, ind, g)
    {
      hide At, Ids, Fresh, AddP, WellFormed, HasShare, OutputsBlank;
      var adds := Ids(lay.gates, AnyAdd);
      for i := 0 to |adds|
        invariant forall g :: g in Fresh(lay) ==> HasShare(lay, ind, g)
        invariant forall j :: 0 <= j < i ==> HasShare(lay, ind, adds[j])
        invariant OutputsBlank(lay)
      {
        PopulateAdd(lay, i, ind);
      }
    }

    /** The share of a gate; a gate without one gets 0. */
    method ShareOf(g: nat) returns (shr: int)
      modifies this`mapIndShrs
      ensures mapIndShrs == if g in old(mapIndShrs) then old(mapIndShrs) else old(mapIndShrs)[g := F(0)]
      ensures shr == mapIndShrs[g]
    {
      if g !in mapIndShrs {
        mapIndShrs := mapIndShrs[g := F(0)];
      }
      shr := mapIndShrs[g];
    }

    /** The share that an addition takes from a parent. */
    method ParentShare(lay: Layout, i: nat, parent: nat, ghost ind: seq<Coeffs>) returns (shr: int)
      requires WellFormed(lay) && |Fresh(lay)| <= |ind| && Nonempty(ind) && i < |Ids(lay.gates, AnyAdd)|
      requires parent == lay.gates[Ids(lay.gates, AnyAdd)[i]].left || parent == lay.gates[Ids(lay.gates, AnyAdd)[i]].right
      requires forall g :: g in Fresh(lay) ==> HasShare(lay, ind, g)
      requires forall j :: 0 <= j < i ==> HasShare(lay, ind, Ids(lay.gates, AnyAdd)[j])
      requires OutputsBlank(lay)
      modifies this`mapIndShrs
      ensures parent < |lay.gates| && shr == At(TermPoly(lay, ind, parent), id + 1)
      ensures OutputsBlank(lay)
      ensures forall g :: old(HasShare(lay, ind, g)) ==> HasShare(lay, ind, g)
    {
      hide At, Ids, Fresh, WirePoly, F, TermPoly;
      ParentDone(lay, i, parent);
      TermIs(lay, ind, parent, id + 1);
      if !lay.gates[parent].OutputGate? {
        assert HasShare(lay, ind, parent);
      }
      shr := ShareOf(parent);
    }

    method PopulateAdd(lay: Layout, i: nat, ghost ind: seq<Coeffs>)
      requires WellFormed(lay) && |Fresh(lay)| <= |ind| && Nonempty(ind) && i < |Ids(lay.gates, AnyAdd)|
      requires forall g :: g in Fresh(lay) ==> HasShare(lay, ind, g)
      requires forall j :: 0 <= j < i ==> HasShare(lay, ind, Ids(lay.gates, AnyAdd)[j])
      requires OutputsBlank(lay)
      modifies this`mapIndShrs
      ensures HasShare(lay, ind, Ids(lay.gates, AnyAdd)[i]) && OutputsBlank(lay)
      ensures forall g :: old(HasShare(lay, ind, g)) ==> HasShare(lay, ind, g)
    {
      hide At, Ids, Fresh, AddP, WirePoly, TermPoly, F;
      var gate := Ids(lay.gates, AnyAdd)[i];
      assert Is(lay.gates[gate], AnyAdd);
      var l, r := lay.gates[gate].left, lay.gates[gate].right;
      var a := ParentShare(lay, i, l, ind);
      var b := ParentShare(lay, i, r, ind);
      SumPoly(lay, ind, gate);
      AtAdd(TermPoly(lay, ind, l), TermPoly(lay, ind, r), id + 1);
      mapIndShrs := mapIndShrs[gate := Add(a, b)];
    }

    method PopulateOutputs(lay: Layout, ghost ind: seq<Coeffs>)
      requires WellFormed(lay) && |Fresh(lay)| <= |ind| && Nonempty(ind)
      requires forall g :: g in Fresh(lay) ==> HasShare(lay, ind, g)
      requires forall g :: g in Ids(lay.gates, AnyAdd) ==> HasShare(lay, ind, g)
      modifies this`mapIndShrs
      ensures forall g :: g in Fresh(lay) ==> HasShare(lay, ind, g)
      ensures forall g :: g in Ids(lay.gates, AnyAdd) ==> HasShare(lay, ind, g)
      ensures forall g :: g in Ids(lay.gates, AnyOutput) ==> HasShare(lay, ind, g)
    {
      hide At, Ids, Fresh, AddP;
      var outputs := Ids(lay.gates, AnyOutput);
      for i := 0 to |outputs|
        invariant forall g :: g in Fresh(lay) ==> HasShare(lay, ind, g)
        invariant forall g :: g in Ids(lay.gates, AnyAdd) ==> HasShare(lay, ind, g)
        invariant forall j :: 0 <= j < i ==> HasShare(lay, ind, outputs[j])
      {
        var gate := outputs[i];
        var src := lay.gates[gate].src;
        SourceDone(lay, i);
        assert HasShare(lay, ind, src);
        mapIndShrs := mapIndShrs[gate := mapIndShrs[src]];
      }
    }

    /** The share of a member of a batch; a gate without a share reads as zero. */
    function MemberShare(m: Member): int
      reads this
    {
      if m.Real? && m.id in mapIndShrs then mapIndShrs[m.id] else F(0)
    }

    lemma MemberShareIs(lay: Layout, ind: seq<Coeffs>, ms: seq<Member>, i: nat)
      requires WellFormed(lay) && |Fresh(lay)| <= |ind| && Nonempty(ind) && MembersOf(lay, ms) && i < |ms|
      requires Mapped(lay, ind)
      ensures MemberShare(ms[i]) == Msgs(MemberPolys(lay, ind, ms), id + 1)[i]
    {
      hide At, Fresh, WirePoly;
      match ms[i] {
        case Real(g) => assert HasShare(lay, ind, g);
        case Padding => AtZero(id + 1);
      }
    }

    /** The packed share of the masks of a batch. */
    method PackedShare(ms: seq<Member>, ghost lay: Layout, ghost ind: seq<Coeffs>) returns (shr: int)
      requires Valid() && WellFormed(lay) && |Fresh(lay)| <= |ind| && Nonempty(ind) && Mapped(lay, ind)
      requires MembersOf(lay, ms) && |ms| == k
      ensures shr == At(Pack(k, MemberPolys(lay, ind, ms)), id + 1)
    {
      hide At, Units, VandermondeRow, F, Pack, Dot, Add, Mul, Fresh, MemberShare, MemberPolys, Mapped, Msgs, WellFormed, MembersOf;
      ghost var ws := MemberPolys(lay, ind, ms);
      ghost var u := Msgs(ws, id + 1);
      shr := F(0);
      DotNone(sharesOfEi, u);
      for i := 0 to k
        invariant shr == F(Dot(sharesOfEi, u, i))
      {
        DotStep(sharesOfEi, u, i);
        MemberShareIs(lay, ind, ms, i);
        shr := Add(shr, Mul(sharesOfEi[i], MemberShare(ms[i])));
      }
      PackShare(k, ws, sharesOfEi, u, id + 1);
    }

    // -------------------------------------------------------------- function-dependent preprocessing

    /** A share of the batch's masks, to its owner. */
    method PrepIOPartiesSendOwner(batch: IOBatch, zeroShare: int, ghost zero: Coeffs, ghost lay: Layout, ghost ind: seq<Coeffs>)
      requires Valid() && WellFormed(lay) && |Fresh(lay)| <= |ind| && Nonempty(ind) && Mapped(lay, ind)
      requires MembersOf(lay, batch.members) && |batch.members| == k && batch.owner < n
      requires zeroShare == At(zero, id + 1)
      modifies net.chan
      ensures net.chan[id, batch.owner] ==
        old(net.chan[id, batch.owner]) + [At(MaskedPoly(lay, ind, batch.members, zero), id + 1)]
      ensures forall a, b :: 0 <= a < n && 0 <= b < n && (a, b) != (id, batch.owner) ==> net.chan[a, b] == old(net.chan[a, b])
    {
      hide At, Units, VandermondeRow, F, Pack, Add, Fresh, MemberPolys, Mapped, AddP;
      var shr := PackedShare(batch.members, lay, ind);
      AtAdd(Pack(k, MemberPolys(lay, ind, batch.members)), zero, id + 1);
      net.Send(id, batch.owner, Add(shr, zeroShare));
    }

    /** Everyone's share of c waits for this party, in front of tail. */
    ghost predicate OneWaiting(c: Coeffs, tail: seq<seq<int>>)
      requires Placed()
      reads net.chan
    {
      |tail| == n && forall i :: 0 <= i < n ==> net.chan[i, id] == [At(c, i + 1)] + tail[i]
    }

    /** The owner opens a batch. */
    method PrepIOOwnerReceives(ghost c: Coeffs, ghost tail: seq<seq<int>>) returns (secrets: seq<int>)
      requires IsPrime(P61) && Valid() && |c| <= n && OneWaiting(c, tail)
      modifies net.chan
      ensures |secrets| == k && forall j :: 0 <= j < k ==> secrets[j] == At(c, Slot(j))
      ensures Received(tail)
      ensures forall a, b :: 0 <= a < n && 0 <= b < n && b != id ==> net.chan[a, b] == old(net.chan[a, b])
    {
      hide At, Units, VandermondeRow, F, Slot, IsPrime, Rebuilt;
      var recvShares := RecvFromAll();
      secrets := SecretsFromSharesAndLength(recvShares, k);
      forall j | 0 <= j < k ensures secrets[j] == At(c, Slot(j)) {
        RebuiltIs(c, recvShares, Slot(j));
      }
    }

    /** Masked shares of the parents' masks, to P1. */
    method PrepMultPartiesSendP1(ms: seq<Member>, prep: MultBatchFIPrep, lay: Layout, ghost ind: seq<Coeffs>,
                                 ghost a: Coeffs, ghost b: Coeffs, ghost o1: Coeffs, ghost o2: Coeffs)
      requires Valid() && WellFormed(lay) && |Fresh(lay)| <= |ind| && Nonempty(ind) && Mapped(lay, ind)
      requires MembersOf(lay, Lefts(lay, ms)) && MembersOf(lay, Rights(lay, ms)) && |ms| == k
      requires prep.mShrA == At(a, id + 1) && prep.mShrB == At(b, id + 1)
      requires prep.mShrO1 == At(o1, id + 1) && prep.mShrO2 == At(o2, id + 1)
      modifies net.chan
      ensures net.chan[id, 0] == old(net.chan[id, 0]) +
        [At(MaskedPoly(lay, ind, Lefts(lay, ms), AddP(a, o1)), id + 1), At(MaskedPoly(lay, ind, Rights(lay, ms), AddP(b, o2)), id + 1)]
      ensures forall a, b :: 0 <= a < n && 0 <= b < n && (a, b) != (id, 0) ==> net.chan[a, b] == old(net.chan[a, b])
    {
      hide At, Units, VandermondeRow, F, Pack, Add, Fresh, MemberPolys, Mapped, AddP, Lefts, Rights;
      var shrA := PackedShare(Lefts(lay, ms), lay, ind);
      var shrB := PackedShare(Rights(lay, ms), lay, ind);
      AtAdd(a, o1, id + 1);
      AtAdd(b, o2, id + 1);
      AtAdd(Pack(k, MemberPolys(lay, ind, Lefts(lay, ms))), AddP(a, o1), id + 1);
      AtAdd(Pack(k, MemberPolys(lay, ind, Rights(lay, ms))), AddP(b, o2), id + 1);
      net.Send(id, 0, Add(shrA, Add(prep.mShrA, prep.mShrO1)));
      net.Send(id, 0, Add(shrB, Add(prep.mShrB, prep.mShrO2)));
    }

    /** P1 opens both masked batches and shares them again with degree k - 1. */
    method PrepMultP1ReceivesAndSends(ghost ca: Coeffs, ghost cb: Coeffs, ghost ins: seq<Coeffs>, ghost tail: seq<seq<int>>,
                                      ghost queued: seq<seq<int>>, ghost outs: seq<Coeffs>)
      requires IsPrime(P61) && Valid() && |ca| <= n && |cb| <= n
      requires id == 0 ==> Exchanging([ca, cb] + ins, tail, queued, outs, 0)
      modifies net.chan
      ensures id == 0 ==> Exchanging(ins, tail, queued, outs + [Reshared(ca, k), Reshared(cb, k)], 0)
      ensures id != 0 ==> forall a, b :: 0 <= a < n && 0 <= b < n ==> net.chan[a, b] == old(net.chan[a, b])
      ensures forall a, b :: 1 <= a < n && 1 <= b < n ==> net.chan[a, b] == old(net.chan[a, b])
    {
      if id == 0 {
        hide At, Units, VandermondeRow, F, Reshared, IsPrime, Exchanging;
        var recvA, recvB := TakePairs(ca, cb, ins, tail, queued, outs);
        var newA := Reshare(recvA, ca);
        var newB := Reshare(recvB, cb);
        SendPairs(newA, newB, Reshared(ca, k), Reshared(cb, k), ins, tail, queued, outs);
      }
    }

    /** Opens a packed sharing and deals its secrets again with degree k - 1. */
    method Reshare(recv: seq<int>, ghost c: Coeffs) returns (shares: seq<int>)
      requires IsPrime(P61) && Valid() && |c| <= n && |recv| == n
      requires forall i :: 0 <= i < n ==> recv[i] == At(c, i + 1)
      ensures |shares| == n && forall b :: 0 <= b < n ==> shares[b] == At(Reshared(c, k), b + 1)
    {
      hide At, Units, VandermondeRow, F, Slot, IsPrime, Rebuilt, Coefs, Packed;
      var secrets := SecretsFromSharesAndLength(recv, k);
      forall j | 0 <= j < k ensures secrets[j] == At(c, Slot(j)) {
        RebuiltIs(c, recv, Slot(j));
      }
      assert secrets == SlotValues(c, k);
      var poly := EvPolyFromSecretsAndDegree(secrets, k - 1, []);
      shares := SharesFromEvPoly(poly, n);
    }

    /** P1 takes two shares from every party. */
    method TakePairs(ghost ca: Coeffs, ghost cb: Coeffs, ghost ins: seq<Coeffs>, ghost tail: seq<seq<int>>,
                     ghost queued: seq<seq<int>>, ghost outs: seq<Coeffs>)
      returns (recvA: seq<int>, recvB: seq<int>)
      requires Placed() && id == 0 && Exchanging([ca, cb] + ins, tail, queued, outs, 0)
      modifies net.chan
      ensures |recvA| == |recvB| == n
      ensures forall i :: 0 <= i < n ==> recvA[i] == At(ca, i + 1)
      ensures forall i :: 0 <= i < n ==> recvB[i] == At(cb, i + 1)
      ensures Exchanging(ins, tail, queued, outs, 0)
      ensures forall a, b :: 1 <= a < n && 1 <= b < n ==> net.chan[a, b] == old(net.chan[a, b])
    {
      hide At, Msgs;
      forall x: int ensures Msgs([ca, cb] + ins, x) == [At(ca, x), At(cb, x)] + Msgs(ins, x) {
        MsgsPair(ca, cb, ins, x);
      }
      recvA, recvB := RecvPairs();
    }

    /** Two shares from every party, one after the other. */
    method RecvPairs() returns (recvA: seq<int>, recvB: seq<int>)
      requires Placed() && forall i :: 0 <= i < n ==> |net.chan[i, id]| >= 2
      modifies net.chan
      ensures |recvA| == |recvB| == n
      ensures forall i :: 0 <= i < n ==> recvA[i] == old(net.chan[i, id])[0]
      ensures forall i :: 0 <= i < n ==> recvB[i] == old(net.chan[i, id])[1]
      ensures forall i :: 0 <= i < n ==> net.chan[i, id] == old(net.chan[i, id])[2..]
      ensures forall a, b :: 0 <= a < n && 0 <= b < n && b != id ==> net.chan[a, b] == old(net.chan[a, b])
    {
      recvA, recvB := [], [];
      for i := 0 to n
        invariant |recvA| == |recvB| == i
        invariant forall j :: 0 <= j < i ==> recvA[j] == old(net.chan[j, id])[0]
        invariant forall j :: 0 <= j < i ==> recvB[j] == old(net.chan[j, id])[1]
        invariant forall j :: 0 <= j < i ==> net.chan[j, id] == old(net.chan[j, id])[2..]
        invariant forall j :: i <= j < n ==> net.chan[j, id] == old(net.chan[j, id])
        invariant forall a, b :: 0 <= a < n && 0 <= b < n && b != id ==> net.chan[a, b] == old(net.chan[a, b])
      {
        var bufferA := net.Recv(i, id);
        recvA := recvA + [bufferA];
        var bufferB := net.Recv(i, id);
        recvB := recvB + [bufferB];
      }
    }

    /** P1 sends two shares to every party. */
    method SendPairs(newA: seq<int>, newB: seq<int>, ghost ra: Coeffs, ghost rb: Coeffs, ghost ins: seq<Coeffs>,
                     ghost tail: seq<seq<int>>, ghost queued: seq<seq<int>>, ghost outs: seq<Coeffs>)
      requires Placed() && id == 0 && Exchanging(ins, tail, queued, outs, 0)
      requires |newA| == |newB| == n
      requires forall b :: 0 <= b < n ==> newA[b] == At(ra, b + 1)
      requires forall b :: 0 <= b < n ==> newB[b] == At(rb, b + 1)
      modifies net.chan
      ensures Exchanging(ins, tail, queued, outs + [ra, rb], 0)
      ensures forall a, b :: 1 <= a < n && 1 <= b < n ==> net.chan[a, b] == old(net.chan[a, b])
    {
      hide At;
      for i := 0 to n
        invariant forall b :: 0 <= b < n ==>
          net.chan[0, b] == old(net.chan[0, b]) + if b < i then [newA[b], newB[b]] else []
        invariant forall a, b :: 1 <= a < n && 0 <= b < n ==> net.chan[a, b] == old(net.chan[a, b])
      {
        net.Send(0, i, newA[i]);
        net.Send(0, i, newB[i]);
      }
      forall x: int ensures Msgs(outs + [ra, rb], x) == Msgs(outs, x) + [At(ra, x), At(rb, x)] {
        MsgsConcat(outs, [ra, rb], x);
      }
    }

    /** Unmasking: shares of both masks and of delta. */
    method PrepMultPartiesReceive(ms: seq<Member>, prep: MultBatchFIPrep, ghost lay: Layout, ghost ind: seq<Coeffs>,
                                  ghost ra: Coeffs, ghost rb: Coeffs, ghost a: Coeffs, ghost b: Coeffs, ghost c: Coeffs,
                                  ghost o3: Coeffs, ghost tail: seq<int>)
      returns (lambdaA: int, lambdaB: int, delta: int)
      requires Valid() && WellFormed(lay) && |Fresh(lay)| <= |ind| && Nonempty(ind) && Mapped(lay, ind)
      requires MembersOf(lay, ms) && |ms| == k && |ra| > 0 && |rb| > 0 && |a| > 0 && |b| > 0
      requires prep.mShrA == At(a, id + 1) && prep.mShrB == At(b, id + 1) && prep.mShrC == At(c, id + 1)
      requires prep.mShrO3 == At(o3, id + 1)
      requires net.chan[0, id] == [At(ra, id + 1), At(rb, id + 1)] + tail
      modifies net.chan
      ensures lambdaA == At(SubP(ra, a), id + 1) && lambdaB == At(SubP(rb, b), id + 1)
      ensures delta == At(DeltaPoly(SubP([0], Pack(k, MemberPolys(lay, ind, ms))), ra, rb, a, b, c, o3), id + 1)
      ensures net.chan[0, id] == tail
      ensures forall a, b :: 0 <= a < n && 0 <= b < n && (a, b) != (0, id) ==> net.chan[a, b] == old(net.chan[a, b])
    {
      hide At, Units, VandermondeRow, F, Pack, Add, Mul, Fresh, MemberPolys, Mapped, SubP, DeltaPoly, DeltaShare, Msgs, WellFormed;
      var recvA := net.Recv(0, id);
      var recvB := net.Recv(0, id);
      AtSub(ra, a, id + 1);
      AtSub(rb, b, id + 1);
      lambdaA := Sub(recvA, prep.mShrA);
      lambdaB := Sub(recvB, prep.mShrB);
      var shr := NegatedPackedShare(ms, lay, ind);
      delta := DeltaShare(shr, recvA, recvB, prep.mShrA, prep.mShrB, prep.mShrC, prep.mShrO3);
      DeltaAt(SubP([0], Pack(k, MemberPolys(lay, ind, ms))), ra, rb, a, b, c, o3, id + 1);
    }

    method NegatedPackedShare(ms: seq<Member>, ghost lay: Layout, ghost ind: seq<Coeffs>) returns (shr: int)
      requires Valid() && WellFormed(lay) && |Fresh(lay)| <= |ind| && Nonempty(ind) && Mapped(lay, ind)
      requires MembersOf(lay, ms) && |ms| == k
      ensures shr == At(SubP([0], Pack(k, MemberPolys(lay, ind, ms))), id + 1)
    {
      hide At, Units, VandermondeRow, F, Pack, Dot, Sub, Mul, Fresh, MemberShare, MemberPolys, Mapped, SubP, Msgs, WellFormed, MembersOf;
      ghost var ws := MemberPolys(lay, ind, ms);
      ghost var u := Msgs(ws, id + 1);
      shr := F(0);
      DotNone(sharesOfEi, u);
      for i := 0 to k
        invariant shr == F(0 - Dot(sharesOfEi, u, i))
      {
        NegatedStep(sharesOfEi, u, i);
        MemberShareIs(lay, ind, ms, i);
        shr := Sub(shr, Mul(sharesOfEi[i], MemberShare(ms[i])));
      }
      PackShare(k, ws, sharesOfEi, u, id + 1);
      AtSub([0], Pack(k, ws), id + 1);
      AtZero(id + 1);
      SubF(0, Dot(sharesOfEi, u, k));
    }
  }

  /** The first m batches hold shares of their packed factors, and zeros. */
  ghost predicate Factors(preps: seq<MultBatchFIPrep>, fa: seq<seq<Coeffs>>, fb: seq<seq<Coeffs>>, mults: nat, m: nat, x: int)
    requires Grid(fa, mults) && Grid(fb, mults) && m <= mults
  {
    && |preps| == m
    && forall q :: 0 <= q < m ==>
      preps[q] == MultBatchFIPrep(At(PackColumn(fa, mults, q), x), At(PackColumn(fb, mults, q), x), F(0), F(0), F(0), F(0))
  }

  /** Every triple has got its product; the rest of it is kept. */
  ghost predicate TriplesCompleted(before: seq<MultBatchFIPrep>, after: seq<MultBatchFIPrep>, prods: seq<seq<Coeffs>>, mults: nat, x: int)
    requires |before| == mults && Grid(prods, mults)
  {
    && |after| == mults
    && forall q :: 0 <= q < mults ==> after[q] == before[q].(mShrC := At(PackColumn(prods, mults, q), x))
  }

  lemma FreshShare(lay: Layout, ind: seq<Coeffs>, i: nat, x: int)
    requires WellFormed(lay) && |Fresh(lay)| <= |ind| && Nonempty(ind) && i < |Fresh(lay)|
    ensures Fresh(lay)[i] < |lay.gates| && WirePoly(lay, ind, Fresh(lay)[i]) == ind[i]
    ensures Msgs(ind, x)[i] == At(WirePoly(lay, ind, Fresh(lay)[i]), x)
  {
    hide At;
    var g := Fresh(lay)[i];
    FreshPosition(lay, i);
    var a := Ids(lay.gates, AnyInput);
    if i < |a| {
      assert Is(lay.gates[a[i]], AnyInput);
    } else {
      assert Is(lay.gates[Ids(lay.gates, AnyMult)[i - |a|]], AnyMult);
    }
  }

  /** Where the gates of a layer stand among the fresh gates. */
  lemma LayerPlace(lay: Layout, layer: nat)
    requires WellFormed(lay) && layer < |lay.mults|
    ensures var from := |Ids(lay.gates, AnyInput)| + |Flatten(lay.mults[..layer])|;
            && |Flatten(lay.mults[..layer + 1])| == |Flatten(lay.mults[..layer])| + |lay.mults[layer]|
            && from + |lay.mults[layer]| <= |Fresh(lay)|
            && forall i :: 0 <= i < |lay.mults[layer]| ==> Fresh(lay)[from + i] == lay.mults[layer][i]
  {
    hide Ids;
    var m := lay.mults;
    FlattenAppend(m[..layer], m[layer]);
    assert m[..layer + 1] == m[..layer] + [m[layer]];
    FlattenConcat(m[..layer + 1], m[layer + 1..]);
    assert m == m[..layer + 1] + m[layer + 1..];
    assert Flatten(m) == Flatten(m[..layer]) + m[layer] + Flatten(m[layer + 1..]);
  }

  lemma FreshCount(lay: Layout)
    requires WellFormed(lay)
    ensures |Ids(lay.gates, AnyInput)| + |Flatten(lay.mults[..|lay.mults|])| == |Fresh(lay)|
  {
    assert lay.mults[..|lay.mults|] == lay.mults;
  }

  /** A gate is fresh, an addition or an output. */
  lemma GateKinds(lay: Layout, g: nat)
    requires g < |lay.gates|
    ensures g in Fresh(lay) || g in Ids(lay.gates, AnyAdd) || g in Ids(lay.gates, AnyOutput)
    ensures !lay.gates[g].OutputGate? ==> g in Fresh(lay) || g in Ids(lay.gates, AnyAdd)
  {
    hide Ids;
    match lay.gates[g] {
      case InputGate(_) => FreshHas(lay, g);
      case MultGate(_, _) => FreshHas(lay, g);
      case AddGate(_, _) => IdsComplete(lay.gates, AnyAdd, g);
      case OutputGate(_, _) => IdsComplete(lay.gates, AnyOutput, g);
    }
  }

  lemma FreshKind(lay: Layout, i: nat)
    requires i < |Fresh(lay)|
    ensures Fresh(lay)[i] < |lay.gates| && !lay.gates[Fresh(lay)[i]].OutputGate?
  {
    hide Ids;
    var a, b := Ids(lay.gates, AnyInput), Ids(lay.gates, AnyMult);
    if i < |a| {
      assert Is(lay.gates[a[i]], AnyInput);
    } else {
      assert Is(lay.gates[b[i - |a|]], AnyMult);
    }
  }

  /** The parents of the i-th addition are outputs, fresh gates or earlier additions. */
  lemma ParentDone(lay: Layout, i: nat, parent: nat)
    requires WellFormed(lay) && i < |Ids(lay.gates, AnyAdd)|
    requires parent == lay.gates[Ids(lay.gates, AnyAdd)[i]].left || parent == lay.gates[Ids(lay.gates, AnyAdd)[i]].right
    ensures parent < |lay.gates|
    ensures lay.gates[parent].OutputGate? || parent in Fresh(lay) || exists j :: 0 <= j < i && Ids(lay.gates, AnyAdd)[j] == parent
  {
    hide Ids, WellFormed, Fresh;
    var adds := Ids(lay.gates, AnyAdd);
    var g := adds[i];
    assert Is(lay.gates[g], AnyAdd);
    AddParents(lay, g);
    GateKinds(lay, parent);
    if !lay.gates[parent].OutputGate? && parent !in Fresh(lay) {
      var j := Position(adds, parent);
      assert adds[j] == parent < g;
      assert j < i;
    }
  }

  /** The source of the i-th output is an earlier output, a fresh gate or an addition. */
  lemma SourceDone(lay: Layout, i: nat)
    requires WellFormed(lay) && i < |Ids(lay.gates, AnyOutput)|
    ensures var g := Ids(lay.gates, AnyOutput)[i];
      && g < |lay.gates| && lay.gates[g].OutputGate? && lay.gates[g].src < |lay.gates|
      && (lay.gates[g].src in Fresh(lay) || lay.gates[g].src in Ids(lay.gates, AnyAdd)
          || exists j :: 0 <= j < i && Ids(lay.gates, AnyOutput)[j] == lay.gates[g].src)
  {
    hide Ids, Fresh, Flatten;
    var outputs := Ids(lay.gates, AnyOutput);
    var g := outputs[i];
    assert Is(lay.gates[g], AnyOutput);
    var src := lay.gates[g].src;
    GateKinds(lay, src);
    if src in outputs {
      var j := Position(outputs, src);
      assert outputs[j] == src < g;
      assert j < i;
    }
  }

  lemma AddParents(lay: Layout, g: nat)
    requires WellFormed(lay) && g < |lay.gates| && lay.gates[g].AddGate?
    ensures lay.gates[g].left < g && lay.gates[g].right < g
  {
    hide Ids, Flatten;
  }

  /** The three masks of every batch come from the mixed zeros; the triples are kept. */
  ghost predicate ZerosSet(before: seq<MultBatchFIPrep>, after: seq<MultBatchFIPrep>, mixed: seq<int>, mults: nat)
    requires |before| == mults && 3 * mults <= |mixed|
  {
    && |after| == mults
    && forall q :: 0 <= q < mults ==>
      after[q] == before[q].(mShrO1 := mixed[q], mShrO2 := mixed[mults + q], mShrO3 := mixed[2 * mults + q])
  }

  /** The shares of zero that go to input and output batches, of the first ctr ones. */
  function Kept(mixed: seq<int>, mults: nat, ctr: nat): seq<int>
    requires 3 * mults <= |mixed| && ctr <= |mixed|
  {
    mixed[..if ctr < 2 * mults then ctr else 2 * mults] + if ctr < 3 * mults then [] else mixed[3 * mults..ctr]
  }

  lemma KeptStep(mixed: seq<int>, mults: nat, ctr: nat)
    requires 3 * mults <= |mixed| && ctr < |mixed|
    ensures Kept(mixed, mults, ctr + 1) == Kept(mixed, mults, ctr) + if 2 * mults <= ctr < 3 * mults then [] else [mixed[ctr]]
  {
  }

  lemma KeptEnds(mixed: seq<int>, mults: nat)
    requires 3 * mults <= |mixed|
    ensures Kept(mixed, mults, 0) == [] && Kept(mixed, mults, |mixed|) == mixed[..2 * mults] + mixed[3 * mults..]
  {
  }

  /** Batch q after the first ctr zeros have been handed out. */
  function Stored(prep: MultBatchFIPrep, mixed: seq<int>, mults: nat, q: nat, ctr: nat): MultBatchFIPrep
    requires q < mults && 3 * mults <= |mixed|
  {
    prep.(mShrO1 := if q < ctr then mixed[q] else prep.mShrO1,
          mShrO2 := if mults + q < ctr then mixed[mults + q] else prep.mShrO2,
          mShrO3 := if 2 * mults + q < ctr then mixed[2 * mults + q] else prep.mShrO3)
  }

  lemma StoredStart(preps: seq<MultBatchFIPrep>, mixed: seq<int>, mults: nat)
    requires |preps| == mults && 3 * mults <= |mixed|
    ensures forall q :: 0 <= q < mults ==> Stored(preps[q], mixed, mults, q, 0) == preps[q]
  {
  }

  lemma StoredAll(preps: seq<MultBatchFIPrep>, mixed: seq<int>, mults: nat)
    requires |preps| == mults && 3 * mults <= |mixed|
    ensures forall q :: 0 <= q < mults ==>
      Stored(preps[q], mixed, mults, q, |mixed|) ==
        preps[q].(mShrO1 := mixed[q], mShrO2 := mixed[mults + q], mShrO3 := mixed[2 * mults + q])
  {
  }

  lemma StoredStep(preps: seq<MultBatchFIPrep>, mixed: seq<int>, mults: nat, ctr: nat)
    requires |preps| == mults && 3 * mults <= |mixed| && ctr < |mixed|
    ensures forall q :: 0 <= q < mults ==>
      Stored(preps[q], mixed, mults, q, ctr + 1) ==
        var s := Stored(preps[q], mixed, mults, q, ctr);
        if q == ctr then s.(mShrO1 := mixed[ctr])
        else if mults + q == ctr then s.(mShrO2 := mixed[ctr])
        else if 2 * mults + q == ctr then s.(mShrO3 := mixed[ctr]) else s
  {
  }

  /** Powers of i as field elements. */
  function VandermondeRow(i: nat, m: nat): (r: seq<int>)
    ensures |r| == m
  {
    seq(m, s requires 0 <= s < m => F(Pow(i, s)))
  }

  function UnitShares(k: nat, x: int, m: nat): (r: seq<int>)
    requires m <= k
    ensures |r| == m
  {
    seq(m, i requires 0 <= i < m => Product(Slots(k), i, x, k))
  }

  lemma UnitSharesNone(k: nat, x: int)
    ensures UnitShares(k, x, 0) == []
  {
  }

  lemma UnitSharesStep(k: nat, x: int, i: nat)
    requires i < k
    ensures UnitShares(k, x, i + 1) == UnitShares(k, x, i) + [Product(Slots(k), i, x, k)]
  {
    hide Product;
  }

  lemma UnitSharesAll(k: nat, x: int)
    ensures UnitShares(k, x, k) == Msgs(Units(k), x)
  {
    hide F, Unit;
    forall i | 0 <= i < k ensures UnitShares(k, x, k)[i] == Msgs(Units(k), x)[i] {
      UnitEval(k, i, x);
    }
  }

  /** x + j and j - i are the differences from slot j. */
  lemma SlotDifferences(k: nat, i: nat, j: nat, x: int)
    requires i < k && j < k
    ensures F(F(x) + F(j)) == F(x - Slots(k)[j])
    ensures F(F(j) - F(i)) == F(Slots(k)[i] - Slots(k)[j])
  {
    hide F;
    FReduced(x, j);
    FReduced(j, i);
  }

  lemma PowerStart(i: nat)
    ensures F(Pow(i, 0)) == F(1) && VandermondeRow(i, 0) == []
  {
  }

  lemma PowerStep(i: nat, j: nat)
    ensures VandermondeRow(i, j + 1) == VandermondeRow(i, j) + [F(Pow(i, j))]
    ensures F(Pow(i, j + 1)) == F(F(Pow(i, j)) * F(i))
  {
    hide F;
    FReduced(Pow(i, j), i);
    assert i * Pow(i, j) == Pow(i, j) * i;
  }

  lemma WeightIs(n: nat, s: nat, j: nat, m: nat)
    requires j < n && s < m
    ensures Weights(n, s)[j] == VandermondeRow(j, m)[s]
  {
  }

  lemma RowParts(row: seq<seq<Coeffs>>, t: nat, m: nat, x: int)
    requires Dealt(row, Blocks(3 * m, t))
    ensures var out := Msgs(MixBlocks(row, t, Blocks(3 * m, t)), x);
            && 3 * m <= |out|
            && out[..m] == Msgs(FirstFactors(row, t, m), x)
            && out[m..2 * m] == Msgs(SecondFactors(row, t, m), x)
            && out[2 * m..3 * m] == Msgs(Masks(row, t, m), x)
  {
    hide At, MixBlocks, Blocks;
    MsgsParts(MixBlocks(row, t, Blocks(3 * m, t)), m, x);
  }

  lemma MsgsGrow(cs: seq<Coeffs>, q: nat, x: int)
    requires q < |cs|
    ensures Msgs(cs[..q + 1], x) == Msgs(cs[..q], x) + [At(cs[q], x)]
  {
    hide At;
    assert cs[..q + 1] == cs[..q] + [cs[q]];
    MsgsConcat(cs[..q], [cs[q]], x);
  }

  lemma MsgsEnds(cs: seq<Coeffs>, x: int)
    ensures Msgs(cs[..0], x) == [] && cs[..|cs|] == cs
  {
  }

  /** What waits from the q-th polynomial on. */
  function Rest(back: seq<Coeffs>, later: seq<Coeffs>, tail: seq<int>, q: nat, x: int): seq<int>
    requires q <= |back|
  {
    Msgs(back[q..] + later, x) + tail
  }

  lemma RestStep(back: seq<Coeffs>, later: seq<Coeffs>, tail: seq<int>, q: nat, x: int)
    requires q < |back|
    ensures Rest(back, later, tail, q, x) == [At(back[q], x)] + Rest(back, later, tail, q + 1, x)
  {
    hide At, Msgs;
    MsgsNext(back, later, q, x);
    ConcatAssoc([At(back[q], x)], Msgs(back[q + 1..] + later, x), tail);
  }

  lemma RestEnds(back: seq<Coeffs>, later: seq<Coeffs>, tail: seq<int>, x: int)
    ensures Rest(back, later, tail, 0, x) == Msgs(back + later, x) + tail
    ensures Rest(back, later, tail, |back|, x) == Msgs(later, x) + tail
  {
    hide Msgs;
    assert back[0..] + later == back + later && back[|back|..] + later == later;
  }

  lemma SubRowAt(back: seq<Coeffs>, fm: seq<Coeffs>, q: nat, x: int)
    requires |back| == |fm| && Nonempty(back) && q < |back|
    ensures At(SubRow(back, fm)[q], x) == Sub(At(back[q], x), Msgs(fm, x)[q])
  {
    hide At, Sub;
    AtSub(back[q], fm[q], x);
  }

  lemma NegatedStep(e: seq<int>, v: seq<int>, m: nat)
    requires m < |e| && m < |v|
    ensures F(0 - Dot(e, v, m + 1)) == Sub(F(0 - Dot(e, v, m)), Mul(e[m], v[m]))
  {
    hide F;
    FReduced(0 - Dot(e, v, m), e[m] * v[m]);
  }
}
