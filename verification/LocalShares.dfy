/** What a party computes from its own receipts in the preprocessing: its shares, the products through
    P1, and the masks of its gates. */
module LocalShares {
  import opened Modular
  import opened Poly
  import opened Scl
  import opened Sequences
  import opened PackedSharing
  import opened Dealing
  import opened Circuits
  import opened Wiring
  import opened Preprocessing
  import opened Masking
  import opened Triples
  import opened LocalViews
  import TurboPack

  /** What party id knows of the protocol besides its own draws and inputs: circuit, threshold and receipts. */
  datatype View = View(lay: Layout, t: nat, id: nat, box: Inbox)

  /** It has received the first p parts of the run, and r more values from everyone. */
  ghost predicate Sees(s: Game, v: View, p: nat, r: nat) {
    Played(s) && s.lay.batchSize > 0 && v.lay == s.lay && v.t == s.t && v.id < s.lay.clients && Reached(s, v.id, v.box, p, r)
  }

  /** The x-th value of a part from every party. */
  function Row(v: View, part: Part, x: nat): (r: seq<int>)
    requires v.lay.batchSize > 0
    ensures |r| == v.lay.clients
  {
    seq(v.lay.clients, a requires 0 <= a => Got(v.lay, v.t, v.id, v.box, a, part, x))
  }

  // ---------------------------------------------------------------- mixing

  /** The z-th mixed share of what everyone dealt from one place on. */
  function MixGot(v: View, from: nat, z: nat): int
    requires v.lay.batchSize > 0
  {
    var n := v.lay.clients;
    F(Dot(Weights(n, z % (v.t + 1)), Row(v, Deals, from + z / (v.t + 1)), n))
  }

  /** The places where the individual sharings, the factors and masks of a slot, the zeros, and the
      zeros of the products of a slot are dealt. */
  function UnpackedFrom(lay: Layout, t: nat, j: nat): nat
    requires lay.batchSize > 0
  {
    Blocks(|Fresh(lay)|, t) + j * Blocks(3 * |Mults(lay)|, t)
  }

  function ZeroFrom(lay: Layout, t: nat): nat
    requires lay.batchSize > 0
  {
    UnpackedFrom(lay, t, lay.batchSize)
  }

  function ZeroProdFrom(lay: Layout, t: nat, j: nat): nat
    requires lay.batchSize > 0
  {
    ZeroFrom(lay, t) + Blocks(3 * |Mults(lay)| + |IOs(lay)|, t) + j * Blocks(|Mults(lay)|, t)
  }

  lemma {:induction false} FlattenAt<T>(rows: seq<seq<T>>, m: nat, j: nat, q: nat)
    requires j < |rows| && q < m && forall i :: 0 <= i < |rows| ==> |rows[i]| == m
    ensures j * m + q < |Flatten(rows)| == |rows| * m && Flatten(rows)[j * m + q] == rows[j][q]
  {
    var rest := rows[1..];
    assert |rows| * m == m + |rest| * m;
    if j > 0 {
      assert j * m == m + (j - 1) * m;
      FlattenAt(rest, m, j - 1, q);
    } else {
      RowsLength(rest, m);
    }
  }

  lemma {:induction false} RowsLength<T>(rows: seq<seq<T>>, m: nat)
    requires forall i :: 0 <= i < |rows| ==> |rows[i]| == m
    ensures |Flatten(rows)| == |rows| * m
  {
    if rows != [] {
      RowsLength(rows[1..], m);
      assert |rows| * m == m + |rows[1..]| * m;
    }
  }

  lemma InRows<T>(pre: seq<T>, rows: seq<seq<T>>, post: seq<T>, m: nat, j: nat, q: nat)
    requires j < |rows| && q < m && forall i :: 0 <= i < |rows| ==> |rows[i]| == m
    ensures var all := pre + Flatten(rows) + post;
      |pre| + j * m + q < |all| && all[|pre| + j * m + q] == rows[j][q]
  {
    hide Flatten;
    FlattenAt(rows, m, j, q);
    var f := Flatten(rows);
    assert (pre + f + post)[|pre| + (j * m + q)] == f[j * m + q];
  }

  /** What party a dealt at one place, as a share of party i. */
  ghost predicate DealtThere(s: Game, a: nat, x: nat, c: Coeffs)
    requires Played(s)
  {
    PlayedFacts(s);
    a < s.lay.clients && x < |TurboPack.Outbox(Am(s), s.draws[a])| && TurboPack.Outbox(Am(s), s.draws[a])[x] == c
  }

  lemma OutboxParts(s: Game, a: nat)
    requires Played(s) && a < s.lay.clients
    ensures s.lay.batchSize > 0 && AllDrawn(Am(s), s.draws) && a < |s.draws|
    ensures var m, d := Am(s), s.draws[a];
      && Sizes(m.n, m.k, m.t) && Drawn(m.n, m.k, m.t, m.inds, m.mults, m.ios, d)
      && TurboPack.Outbox(m, d) == IndDeals(m.n, m.k, m.t, d.ind) + Flatten(UnpackedRows(m.t, d.unpacked))
        + (ZeroDeals(m.n, m.k, m.t, d.zero) + Flatten(ZeroProdRows(m.n, d.zeroProd)))
      && |IndDeals(m.n, m.k, m.t, d.ind)| == Blocks(m.inds, m.t) && |Flatten(UnpackedRows(m.t, d.unpacked))| == m.k * Blocks(3 * m.mults, m.t)
      && |ZeroDeals(m.n, m.k, m.t, d.zero)| == Blocks(3 * m.mults + m.ios, m.t)
  {
    hide IsPrime, WellFormed, Matches, GoodFI, Preprocessed, FullWire, Played, Fi, Mults, IOs, Fresh, Blocks, IndDeals, ZeroDeals, UnpackedDeals, ZeroProdDeals, RestLengths, Flatten;
    PlayedFacts(s);
    var m, d := Am(s), s.draws[a];
    RowsLength(UnpackedRows(m.t, d.unpacked), Blocks(3 * m.mults, m.t));
    var i, u, z, w := IndDeals(m.n, m.k, m.t, d.ind), Flatten(UnpackedRows(m.t, d.unpacked)), ZeroDeals(m.n, m.k, m.t, d.zero), Flatten(ZeroProdRows(m.n, d.zeroProd));
    assert i + u + z + w == i + u + (z + w);
  }

  /** Where the dealt sharings stand among everything that party a deals. */
  lemma IndPlace(s: Game, a: nat, q: nat)
    requires Played(s) && a < s.lay.clients && s.lay.batchSize > 0 && AllDrawn(Am(s), s.draws) && q < Blocks(Am(s).inds, s.t)
    ensures q < |IndAll(Am(s), s.draws)[a]| && DealtThere(s, a, q, IndAll(Am(s), s.draws)[a][q])
  {
    hide Played, AllDrawn, Drawn, Mults, IOs, Fresh, Blocks, IndDeals, ZeroDeals, UnpackedRows, ZeroProdRows, Flatten, TurboPack.Outbox;
    OutboxParts(s, a);
  }

  lemma ZeroPlace(s: Game, a: nat, q: nat)
    requires Played(s) && a < s.lay.clients && s.lay.batchSize > 0 && AllDrawn(Am(s), s.draws)
    requires q < Blocks(3 * Am(s).mults + Am(s).ios, s.t)
    ensures q < |ZeroAll(Am(s), s.draws)[a]| && DealtThere(s, a, ZeroFrom(s.lay, s.t) + q, ZeroAll(Am(s), s.draws)[a][q])
  {
    hide Played, AllDrawn, Drawn, Mults, IOs, Fresh, Blocks, IndDeals, ZeroDeals, UnpackedRows, ZeroProdRows, Flatten, TurboPack.Outbox;
    OutboxParts(s, a);
  }

  lemma UnpackedPlace(s: Game, a: nat, j: nat, q: nat)
    requires Played(s) && a < s.lay.clients && s.lay.batchSize > 0 && AllDrawn(Am(s), s.draws)
    requires j < s.lay.batchSize && q < Blocks(3 * Am(s).mults, s.t)
    ensures q < |UnpackedSlot(Am(s), s.draws, j)[a]|
    ensures DealtThere(s, a, UnpackedFrom(s.lay, s.t, j) + q, UnpackedSlot(Am(s), s.draws, j)[a][q])
  {
    hide Played, AllDrawn, Mults, IOs, Fresh, Blocks, IndDeals, ZeroDeals, UnpackedDeals, ZeroProdRows, Flatten, TurboPack.Outbox, RestLengths;
    OutboxParts(s, a);
    var m, d := Am(s), s.draws[a];
    InRows(IndDeals(m.n, m.k, m.t, d.ind), UnpackedRows(m.t, d.unpacked),
      ZeroDeals(m.n, m.k, m.t, d.zero) + Flatten(ZeroProdRows(m.n, d.zeroProd)), Blocks(3 * m.mults, m.t), j, q);
  }

  lemma ZeroProdPlace(s: Game, a: nat, j: nat, q: nat)
    requires Played(s) && a < s.lay.clients && s.lay.batchSize > 0 && AllDrawn(Am(s), s.draws)
    requires j < s.lay.batchSize && q < Blocks(Am(s).mults, s.t)
    ensures q < |ZeroProdSlot(Am(s), s.draws, j)[a]|
    ensures DealtThere(s, a, ZeroProdFrom(s.lay, s.t, j) + q, ZeroProdSlot(Am(s), s.draws, j)[a][q])
  {
    hide Played, AllDrawn, Mults, IOs, Fresh, Blocks, IndDeals, ZeroDeals, UnpackedRows, ZeroProdDeals, Flatten, TurboPack.Outbox, RestLengths;
    OutboxParts(s, a);
    var m, d := Am(s), s.draws[a];
    var i, u, z := IndDeals(m.n, m.k, m.t, d.ind), Flatten(UnpackedRows(m.t, d.unpacked)), ZeroDeals(m.n, m.k, m.t, d.zero);
    var rows := ZeroProdRows(m.n, d.zeroProd);
    InRows(i + u + z, rows, [], Blocks(m.mults, m.t), j, q);
    assert i + u + z + Flatten(rows) + [] == i + u + (z + Flatten(rows));
  }

  /** Mixing what was received gives the share of the mixed sharing. */
  lemma MixGotIs(s: Game, v: View, p: nat, r: nat, deals: seq<seq<Coeffs>>, m: nat, from: nat, z: nat)
    requires Sees(s, v, p, r) && p >= 1
    requires |deals| == s.lay.clients && Dealt(deals, m) && z < m * (s.t + 1)
    requires forall a, q :: 0 <= a < s.lay.clients && 0 <= q < m ==> DealtThere(s, a, from + q, deals[a][q])
    ensures MixGot(v, from, z) == At(MixBlocks(deals, s.t, m)[z], v.id + 1)
  {
    hide Played, Mults, IOs, Fresh, At, F, Weights, Dot, Offset, Got, Reached, MixBlocks, DealtThere, Row;
    var n, q, e := s.lay.clients, z / (s.t + 1), z % (s.t + 1);
    Quotients(z, s.t + 1, m);
    MixedAt(deals, s.t, m, q, e, v.id + 1);
    MixRow(s, v, p, r, deals, m, from, q);
  }

  lemma MixRow(s: Game, v: View, p: nat, r: nat, deals: seq<seq<Coeffs>>, m: nat, from: nat, q: nat)
    requires Sees(s, v, p, r) && p >= 1 && q < m
    requires |deals| == s.lay.clients && Dealt(deals, m)
    requires forall a, q :: 0 <= a < s.lay.clients && 0 <= q < m ==> DealtThere(s, a, from + q, deals[a][q])
    ensures Row(v, Deals, from + q) == Msgs(Column(deals, q), v.id + 1)
  {
    hide Played, Mults, IOs, Fresh, At, Offset, Got, Reached, DealtThere;
    var got, col := Row(v, Deals, from + q), Msgs(Column(deals, q), v.id + 1);
    forall a | 0 <= a < s.lay.clients ensures got[a] == col[a] {
      DealtGot(s, v, p, r, a, from + q, deals[a][q]);
    }
  }

  lemma Quotients(z: nat, u: nat, m: nat)
    requires u > 0 && z < m * u
    ensures z / u < m && z == (z / u) * u + z % u
  {
    if z / u >= m {
      Largest(z / u, m, u);
    }
  }

  lemma Largest(a: nat, b: nat, u: nat)
    requires a >= b
    ensures a * u >= b * u
  {
  }

  lemma DealtGot(s: Game, v: View, p: nat, r: nat, a: nat, x: nat, c: Coeffs)
    requires Sees(s, v, p, r) && p >= 1 && a < s.lay.clients && DealtThere(s, a, x, c)
    ensures Got(v.lay, v.t, v.id, v.box, a, Deals, x) == At(c, v.id + 1)
  {
    hide IsPrime, WellFormed, Matches, GoodFI, Preprocessed, FullWire, Played, Fi, Mults, IOs, Fresh, Drawn, TurboPack.Outbox, At, Offset, Got, Reached;
    PlayedFacts(s);
    PartLength(s, a, v.id, Deals);
    GotIs(s, v.id, v.box, p, r, a, Deals, x);
  }

  // ---------------------------------------------------------------- the mixed shares

  function IndShare(v: View, f: nat): int
    requires v.lay.batchSize > 0
  {
    MixGot(v, 0, f)
  }

  function ZeroShare(v: View, z: nat): int
    requires v.lay.batchSize > 0
  {
    MixGot(v, ZeroFrom(v.lay, v.t), z)
  }

  /** Factors and masks at a slot: the first factors, the second factors, the masks. */
  function SlotShare(v: View, j: nat, z: nat): int
    requires v.lay.batchSize > 0
  {
    MixGot(v, UnpackedFrom(v.lay, v.t, j), z)
  }

  function ZeroProdShare(v: View, j: nat, q: nat): int
    requires v.lay.batchSize > 0
  {
    MixGot(v, ZeroProdFrom(v.lay, v.t, j), q)
  }

  /** Blocks hold at least as much as is asked for. */
  lemma EnoughBlocks(m: nat, t: nat, z: nat)
    requires z < m
    ensures z < Blocks(m, t) * (t + 1)
  {
    hide Blocks;
  }

  lemma IndShareIs(s: Game, v: View, p: nat, r: nat, f: nat)
    requires Sees(s, v, p, r) && p >= 1 && f < |Fresh(s.lay)|
    ensures f < |Fi(s).ind| && IndShare(v, f) == At(Fi(s).ind[f], v.id + 1)
  {
    hide IsPrime, WellFormed, Matches, GoodFI, FullWire, Played, Fi, Mults, IOs, Fresh, Blocks, AllDrawn, Drawn, At, Reached, MixGot, MixBlocks, IndAll, DealtThere, PackAll, Fa, Fb, Fc, Zs;
    PlayedFacts(s);
    var m, deals := Am(s), IndAll(Am(s), s.draws);
    DealtAll(m, s.draws);
    EnoughBlocks(m.inds, m.t, f);
    forall a, q | 0 <= a < s.lay.clients && 0 <= q < Blocks(m.inds, m.t) ensures DealtThere(s, a, 0 + q, deals[a][q]) {
      IndPlace(s, a, q);
    }
    MixGotIs(s, v, p, r, deals, Blocks(m.inds, m.t), 0, f);
  }

  lemma ZeroShareIs(s: Game, v: View, p: nat, r: nat, z: nat)
    requires Sees(s, v, p, r) && p >= 1 && z < 3 * |Mults(s.lay)| + |IOs(s.lay)|
    ensures AllDrawn(Am(s), s.draws) && z < |Zs(Am(s), s.draws)| && ZeroShare(v, z) == At(Zs(Am(s), s.draws)[z], v.id + 1)
  {
    hide IsPrime, WellFormed, Matches, GoodFI, FullWire, Played, Fi, Mults, IOs, Fresh, Blocks, AllDrawn, Drawn, At, Reached, MixGot, MixBlocks, ZeroAll, DealtThere, ZeroFrom, Preprocessed;
    PlayedFacts(s);
    var m, deals := Am(s), ZeroAll(Am(s), s.draws);
    DealtAll(m, s.draws);
    EnoughBlocks(3 * m.mults + m.ios, m.t, z);
    forall a, q | 0 <= a < s.lay.clients && 0 <= q < Blocks(3 * m.mults + m.ios, m.t)
      ensures DealtThere(s, a, ZeroFrom(s.lay, s.t) + q, deals[a][q])
    {
      ZeroPlace(s, a, q);
    }
    MixGotIs(s, v, p, r, deals, Blocks(3 * m.mults + m.ios, m.t), ZeroFrom(s.lay, s.t), z);
  }

  lemma SlotShareIs(s: Game, v: View, p: nat, r: nat, j: nat, q: nat)
    requires Sees(s, v, p, r) && p >= 1 && j < s.lay.batchSize && q < |Mults(s.lay)|
    ensures AllDrawn(Am(s), s.draws)
    ensures SlotShare(v, j, q) == At(Fa(Am(s), s.draws)[j][q], v.id + 1)
    ensures SlotShare(v, j, |Mults(s.lay)| + q) == At(Fb(Am(s), s.draws)[j][q], v.id + 1)
    ensures SlotShare(v, j, 2 * |Mults(s.lay)| + q) == At(Fm(Am(s), s.draws)[j][q], v.id + 1)
  {
    hide IsPrime, WellFormed, Matches, GoodFI, FullWire, Played, Fi, Mults, IOs, Fresh, Blocks, AllDrawn, Drawn, At, Reached, MixGot, MixBlocks, UnpackedSlot, DealtThere, UnpackedFrom, Preprocessed, Sizes;
    PlayedFacts(s);
    var m, deals := Am(s), UnpackedSlot(Am(s), s.draws, j);
    DealtAll(m, s.draws);
    UnpackedDealt(m, s.draws, j);
    assert UnpackedAll(m, s.draws)[j] == deals;
    forall a, q | 0 <= a < s.lay.clients && 0 <= q < Blocks(3 * m.mults, m.t)
      ensures DealtThere(s, a, UnpackedFrom(s.lay, s.t, j) + q, deals[a][q])
    {
      UnpackedPlace(s, a, j, q);
    }
    SlotMixed(s, v, p, r, deals, j, q);
    SlotMixed(s, v, p, r, deals, j, m.mults + q);
    SlotMixed(s, v, p, r, deals, j, 2 * m.mults + q);
  }

  lemma SlotMixed(s: Game, v: View, p: nat, r: nat, deals: seq<seq<Coeffs>>, j: nat, z: nat)
    requires Sees(s, v, p, r) && p >= 1 && z < 3 * |Mults(s.lay)| && |deals| == s.lay.clients
    requires Dealt(deals, Blocks(3 * |Mults(s.lay)|, s.t))
    requires forall a, q :: 0 <= a < s.lay.clients && 0 <= q < Blocks(3 * |Mults(s.lay)|, s.t) ==>
      DealtThere(s, a, UnpackedFrom(s.lay, s.t, j) + q, deals[a][q])
    ensures z < |Mixed3(deals, s.t, |Mults(s.lay)|)|
    ensures SlotShare(v, j, z) == At(Mixed3(deals, s.t, |Mults(s.lay)|)[z], v.id + 1)
  {
    hide Played, Mults, IOs, Fresh, Blocks, At, Reached, MixGot, MixBlocks, DealtThere, UnpackedFrom;
    EnoughBlocks(3 * |Mults(s.lay)|, s.t, z);
    MixGotIs(s, v, p, r, deals, Blocks(3 * |Mults(s.lay)|, s.t), UnpackedFrom(s.lay, s.t, j), z);
  }

  lemma ZeroProdShareIs(s: Game, v: View, p: nat, r: nat, j: nat, q: nat)
    requires Sees(s, v, p, r) && p >= 1 && j < s.lay.batchSize && q < |Mults(s.lay)|
    ensures AllDrawn(Am(s), s.draws) && q < |FzRow(Am(s), s.draws, j)|
    ensures ZeroProdShare(v, j, q) == At(FzRow(Am(s), s.draws, j)[q], v.id + 1)
  {
    hide IsPrime, WellFormed, Matches, GoodFI, FullWire, Played, Fi, Mults, IOs, Fresh, Blocks, AllDrawn, Drawn, At, Reached, MixGot, MixBlocks, ZeroProdSlot, DealtThere, ZeroProdFrom, Preprocessed, Sizes;
    PlayedFacts(s);
    var m, deals := Am(s), ZeroProdSlot(Am(s), s.draws, j);
    ZeroProdDealt(m, s.draws, j);
    EnoughBlocks(m.mults, m.t, q);
    forall a, q | 0 <= a < s.lay.clients && 0 <= q < Blocks(m.mults, m.t)
      ensures DealtThere(s, a, ZeroProdFrom(s.lay, s.t, j) + q, deals[a][q])
    {
      ZeroProdPlace(s, a, j, q);
    }
    MixGotIs(s, v, p, r, deals, Blocks(m.mults, m.t), ZeroProdFrom(s.lay, s.t, j), q);
  }

  // ---------------------------------------------------------------- products through P1

  /** The masked product at one slot, in the order of slots and batches. */
  function ToOpenMsg(v: View, z: nat): int
    requires v.lay.batchSize > 0
  {
    var m := |Mults(v.lay)|;
    if m == 0 then 0 else
      var j, q := z / m, z % m;
      ProdShare(SlotShare(v, j, q), SlotShare(v, j, m + q), SlotShare(v, j, 2 * m + q), ZeroProdShare(v, j, q))
  }

  /** The masked product z as a polynomial. */
  lemma FactorPlace(s: Game, z: nat) returns (m: nat, j: nat, q: nat)
    requires Played(s) && s.lay.batchSize > 0 && AllDrawn(Am(s), s.draws) && z < Factors(s.lay)
    ensures m == |Mults(s.lay)| && m > 0 && j == z / m && q == z % m && j < s.lay.batchSize && q < m
    ensures var prods, backs := Triples.Prods(Am(s), s.draws), Triples.Backs(Am(s), s.draws);
      && z < |Flatten(prods)| && z < |Flatten(backs)| && q < |prods[j]| && q < |backs[j]|
      && Flatten(prods)[z] == prods[j][q] && Flatten(backs)[z] == backs[j][q]
  {
    hide *;
    var k;
    m, k := FactorRows(s, z);
    j, q := z / m, z % m;
    var prods, backs := Triples.Prods(Am(s), s.draws), Triples.Backs(Am(s), s.draws);
    Quotients(z, m, k);
    FlattenAt(prods, m, j, q);
    FlattenAt(backs, m, j, q);
  }

  lemma FactorRows(s: Game, z: nat) returns (m: nat, k: nat)
    requires Played(s) && s.lay.batchSize > 0 && AllDrawn(Am(s), s.draws) && z < Factors(s.lay)
    ensures m == |Mults(s.lay)| && k == s.lay.batchSize && 0 < m && z < k * m
    ensures var prods, backs := Triples.Prods(Am(s), s.draws), Triples.Backs(Am(s), s.draws);
      |prods| == |backs| == k && forall j :: 0 <= j < k ==> |prods[j]| == |backs[j]| == m
  {
    hide Played, Mults, Fresh, IOs, AllDrawn, Flatten, ProdPoly, Fa, Fb, Fm, FzRow, Dealing.Returned;
    m, k := |Mults(s.lay)|, s.lay.batchSize;
    if m == 0 {
      NoFactors(k);
    }
  }

  lemma NoFactors(k: nat)
    ensures k * 0 == 0
  {
  }

  lemma ToOpenIs(s: Game, v: View, p: nat, r: nat, z: nat)
    requires Sees(s, v, p, r) && p >= 1 && z < Factors(s.lay)
    ensures AllDrawn(Am(s), s.draws) && z < |Flatten(Triples.Prods(Am(s), s.draws))|
    ensures ToOpenMsg(v, z) == At(Flatten(Triples.Prods(Am(s), s.draws))[z], v.id + 1)
  {
    hide IsPrime, WellFormed, Matches, GoodFI, FullWire, Played, Fi, Mults, IOs, Fresh, AllDrawn, At, Reached, SlotShare, ZeroProdShare, Preprocessed, Fa, Fb, Fm, FzRow, Flatten, Sizes, ProdPoly, ProdShare;
    PlayedFacts(s);
    var m, j, q := FactorPlace(s, z);
    SlotShareIs(s, v, p, r, j, q);
    ZeroProdShareIs(s, v, p, r, j, q);
    ProdPolyAt(Fa(Am(s), s.draws)[j][q], Fb(Am(s), s.draws)[j][q], Fm(Am(s), s.draws)[j][q], FzRow(Am(s), s.draws, j)[q], v.id + 1);
  }

  /** What P1 returns to party c for product z. */
  function OpenedMsg(v: View, c: nat, z: nat): int
    requires v.lay.batchSize > 0 && v.lay.clients > 0
  {
    var m := |Mults(v.lay)|;
    if m == 0 then 0 else OpenedShare(v, c, z, z / m)
  }

  function OpenedShare(v: View, c: nat, z: nat, j: nat): int
    requires v.lay.batchSize > 0 && v.lay.clients > 0
  {
    var shares := Row(v, ToOpen, z);
    ReturnedShare(Rebuilt(shares, Slot(j)), j, v.t, c)
  }

  function ReturnedShare(value: int, j: nat, t: nat, c: nat): int {
    At(Returned(value, j, t), c + 1)
  }

  lemma OpenedIs(s: Game, v: View, p: nat, r: nat, c: nat, z: nat)
    requires Sees(s, v, p, r) && v.id == 0 && z < Factors(s.lay) && (p > 1 || (p == 1 && z < r))
    ensures AllDrawn(Am(s), s.draws) && z < |Flatten(Triples.Backs(Am(s), s.draws))| && s.lay.clients > 0
    ensures OpenedMsg(v, c, z) == At(Flatten(Triples.Backs(Am(s), s.draws))[z], c + 1)
  {
    hide IsPrime, WellFormed, Matches, GoodFI, FullWire, Played, Fi, Mults, IOs, Fresh, AllDrawn, At, Reached, Preprocessed, Flatten, Sizes, Triples.Prods, Rebuilt, Returned, Slot, Row, Lengths;
    PlayedFacts(s);
    var m, j, q := FactorPlace(s, z);
    var prod := Triples.Prods(Am(s), s.draws)[j][q];
    OpenRow(s, v, p, r, z);
    ProdLengths(Am(s), s.draws, j);
    LengthAt(Triples.Prods(Am(s), s.draws)[j], Am(s).n, q);
    PartiesFit(s);
    RebuiltIs(prod, Row(v, ToOpen, z), Slot(j));
    BackAt(Triples.Prods(Am(s), s.draws), s.t, j, q);
  }

  lemma LengthAt(cs: seq<Coeffs>, n: nat, q: nat)
    requires Lengths(cs, n) && q < |cs|
    ensures |cs[q]| <= n
  {
  }

  lemma PartiesFit(s: Game)
    requires Played(s)
    ensures s.lay.clients + s.lay.batchSize <= P61 && 0 < s.lay.clients && s.t < s.lay.clients
  {
    hide IsPrime, WellFormed, Matches, AllDrawn;
  }

  lemma BackAt(prods: seq<seq<Coeffs>>, t: nat, j: nat, q: nat)
    requires j < |prods| && q < |prods[j]|
    ensures q < |ReturnedRows(prods, t)[j]| && ReturnedRows(prods, t)[j][q] == Returned(At(prods[j][q], Slot(j)), j, t)
  {
    hide Returned, At;
  }

  lemma OpenRow(s: Game, v: View, p: nat, r: nat, z: nat)
    requires Sees(s, v, p, r) && v.id == 0 && z < Factors(s.lay) && (p > 1 || (p == 1 && z < r))
    ensures AllDrawn(Am(s), s.draws) && z < |Flatten(Triples.Prods(Am(s), s.draws))|
    ensures forall a :: 0 <= a < s.lay.clients ==> Row(v, ToOpen, z)[a] == At(Flatten(Triples.Prods(Am(s), s.draws))[z], a + 1)
  {
    hide IsPrime, WellFormed, Matches, GoodFI, FullWire, Played, Fi, Mults, IOs, Fresh, AllDrawn, At, Reached, Preprocessed, Flatten, Sizes, Triples.Prods, Got, Offset;
    PlayedFacts(s);
    var m, j, q := FactorPlace(s, z);
    forall a | 0 <= a < s.lay.clients ensures Row(v, ToOpen, z)[a] == At(Flatten(Triples.Prods(Am(s), s.draws))[z], a + 1) {
      GotIs(s, v.id, v.box, p, r, a, ToOpen, z);
    }
  }

  // ---------------------------------------------------------------- triples

  /** The share of the opened product: the first t parties get nothing back. */
  function ProductShareAt(v: View, j: nat, q: nat): int
    requires v.lay.batchSize > 0
  {
    var m := |Mults(v.lay)|;
    Sub(if v.id < v.t then F(0) else Got(v.lay, v.t, v.id, v.box, 0, Opened, j * m + q), SlotShare(v, j, 2 * m + q))
  }

  lemma ProductShareAtIs(s: Game, v: View, p: nat, r: nat, j: nat, q: nat)
    requires Sees(s, v, p, r) && p >= 3 && j < s.lay.batchSize && q < |Mults(s.lay)|
    ensures AllDrawn(Am(s), s.draws)
    ensures ProductShareAt(v, j, q) == At(Fc(Am(s), s.draws)[j][q], v.id + 1)
  {
    hide IsPrime, WellFormed, Matches, GoodFI, FullWire, Played, Fi, Mults, IOs, Fresh, AllDrawn, At, Reached, Preprocessed, Flatten, Triples.Prods, Got, Offset, Fm, SlotShare, Returned, F, SubP, Slot;
    PlayedFacts(s);
    var m, prods := |Mults(s.lay)|, Triples.Prods(Am(s), s.draws);
    var z := j * m + q;
    Together(j, q, m, s.lay.batchSize);
    var m2, j2, q2 := FactorPlace(s, z);
    SlotShareIs(s, v, p, r, j, q);
    BackAt(prods, s.t, j, q);
    var back, mask := Triples.Backs(Am(s), s.draws)[j][q], Fm(Am(s), s.draws)[j][q];
    AtSub(back, mask, v.id + 1);
    if v.id < s.t {
      ReturnedZero(At(prods[j][q], Slot(j)), j, s.t, v.id);
    } else {
      GotIs(s, v.id, v.box, p, r, 0, Opened, z);
    }
  }

  lemma Together(j: nat, q: nat, m: nat, k: nat)
    requires q < m && j < k
    ensures j * m + q < k * m && (j * m + q) / m == j && (j * m + q) % m == q
  {
    assert (j + 1) * m <= k * m;
    DivMod(j, q, m);
  }

  lemma DivMod(j: nat, q: nat, m: nat)
    requires q < m
    ensures (j * m + q) / m == j && (j * m + q) % m == q
  {
    Quotients(j * m + q, m, j + 1);
    var a := (j * m + q) / m;
    if a < j {
      Largest(j, a + 1, m);
    }
  }

  /** Shares of the slots, packed. */
  function PackedRow(v: View, row: seq<int>): int
    requires v.lay.batchSize <= |row|
  {
    F(Dot(Msgs(Units(v.lay.batchSize), v.id + 1), row, v.lay.batchSize))
  }

  function TripleA(v: View, q: nat): int
    requires v.lay.batchSize > 0
  {
    PackedRow(v, seq(v.lay.batchSize, j requires 0 <= j => SlotShare(v, j, q)))
  }

  function TripleB(v: View, q: nat): int
    requires v.lay.batchSize > 0
  {
    PackedRow(v, seq(v.lay.batchSize, j requires 0 <= j => SlotShare(v, j, |Mults(v.lay)| + q)))
  }

  function TripleC(v: View, q: nat): int
    requires v.lay.batchSize > 0
  {
    PackedRow(v, seq(v.lay.batchSize, j requires 0 <= j => ProductShareAt(v, j, q)))
  }

  lemma PackedRowIs(v: View, row: seq<int>, rows: seq<seq<Coeffs>>, m: nat, q: nat)
    requires |row| == |rows| == v.lay.batchSize && Grid(rows, m) && q < m
    requires forall j :: 0 <= j < |rows| ==> row[j] == At(rows[j][q], v.id + 1)
    ensures PackedRow(v, row) == At(PackColumn(rows, m, q), v.id + 1)
  {
    hide At, F, Dot, Units, Pack;
    GridColumn(rows, m, q);
    var ws := Column(rows, q);
    assert row == Msgs(ws, v.id + 1);
    PackShare(v.lay.batchSize, ws, Msgs(Units(v.lay.batchSize), v.id + 1), row, v.id + 1);
  }

  lemma TripleIs(s: Game, v: View, p: nat, r: nat, q: nat)
    requires Sees(s, v, p, r) && p >= 1 && q < |Mults(s.lay)|
    ensures q < |Fi(s).a| == |Fi(s).b| == |Fi(s).c|
    ensures TripleA(v, q) == At(Fi(s).a[q], v.id + 1) && TripleB(v, q) == At(Fi(s).b[q], v.id + 1)
    ensures p >= 3 ==> TripleC(v, q) == At(Fi(s).c[q], v.id + 1)
  {
    hide IsPrime, WellFormed, Matches, GoodFI, FullWire, Played, Fi, Mults, IOs, Fresh, AllDrawn, At, Reached, Fa, Fb, Fc, Zs, Inds, SlotShare, ProductShareAt, PackedRow, PackColumn, Sizes;
    PlayedFacts(s);
    var k, m, x := s.lay.batchSize, |Mults(s.lay)|, v.id + 1;
    var a, b, c := Fa(Am(s), s.draws), Fb(Am(s), s.draws), Fc(Am(s), s.draws);
    forall j | 0 <= j < k
      ensures SlotShare(v, j, q) == At(a[j][q], x) && SlotShare(v, j, m + q) == At(b[j][q], x)
      ensures p >= 3 ==> ProductShareAt(v, j, q) == At(c[j][q], x)
    {
      SlotShareIs(s, v, p, r, j, q);
      if p >= 3 {
        ProductShareAtIs(s, v, p, r, j, q);
      }
    }
    PackedRowIs(v, seq(k, j requires 0 <= j => SlotShare(v, j, q)), a, m, q);
    PackedRowIs(v, seq(k, j requires 0 <= j => SlotShare(v, j, m + q)), b, m, q);
    if p >= 3 {
      PackedRowIs(v, seq(k, j requires 0 <= j => ProductShareAt(v, j, q)), c, m, q);
    }
  }
}
