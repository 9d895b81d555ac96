/** What a party computes from its own receipts in the online phase: masked inputs, P1's masked values
    of wires, the shares of products, and the outputs of a client. */
module LocalOnline {
  import opened Modular
  import opened Poly
  import opened Scl
  import opened Sequences
  import opened PackedSharing
  import opened Dealing
  import opened Circuits
  import opened Wiring
  import opened Preprocessing
  import opened Masking
  import opened Triples
  import opened LocalViews
  import opened LocalShares
  import opened LocalMasks
  import TurboPack
  import Parties

  // ---------------------------------------------------------------- inputs

  /** The x-th input of a client, less its mask. */
  function InputMsg(v: View, inputs: seq<int>, x: nat): int
    requires v.lay.batchSize > 0 && v.lay.clients > 0
  {
    var own := Ids(v.lay.gates, InputOf(v.id));
    if x < |own| then Sub(Entry(inputs, x), OwnMask(v, own[x])) else 0
  }

  lemma InputMsgIs(s: Game, v: View, p: nat, r: nat, x: nat)
    requires Sees(s, v, p, r) && p >= 6 && x < |Ids(s.lay.gates, InputOf(v.id))| && s.lay.clients > 0
    ensures v.id < |s.inputs| && Ids(s.lay.gates, InputOf(v.id))[x] < |s.lay.gates|
    ensures InputMsg(v, s.inputs[v.id], x) == Masked(s.lay, Fi(s), s.inputs, Ids(s.lay.gates, InputOf(v.id))[x])
  {
    hide IsPrime, GoodFI, FullWire, Played, Fi, Mults, IOs, Fresh, AllDrawn, Reached, F, Sizes, WellFormed, Preprocessed, Ids, OwnMask, Lambda, Masked;
    PlayedFacts(s);
    var own := Ids(s.lay.gates, InputOf(v.id));
    OwnMaskIs(s, v, p, r, own[x]);
    MaskedInput(s.lay, Fi(s), s.inputs, v.id, x);
  }

  // ---------------------------------------------------------------- masked values at P1

  /** The first layer in which a gate stands. */
  function LayerOf(mults: seq<seq<nat>>, g: nat): (d: nat)
    ensures d <= |mults| && (d < |mults| ==> g in mults[d])
  {
    if mults == [] then 0 else if g in mults[0] then 0 else 1 + LayerOf(mults[1..], g)
  }

  lemma {:induction false} LayerOfFirst(mults: seq<seq<nat>>, g: nat, d: nat)
    requires d < |mults| && g in mults[d]
    ensures LayerOf(mults, g) <= d
  {
    if d > 0 {
      LayerOfFirst(mults[1..], g, d - 1);
    }
  }

  /** A known multiplication stands in an earlier layer. */
  lemma {:induction false} KnownLayer(lay: Layout, d: nat, g: nat)
    requires d <= |lay.mults| && g in Known(lay, d) && g < |lay.gates| && lay.gates[g].MultGate?
    ensures LayerOf(lay.mults, g) < d
  {
    hide Ids;
    if d == 0 {
      NotInput(lay, g);
    } else if g in Known(lay, d - 1) {
      KnownLayer(lay, d - 1, g);
    } else {
      LayerOfFirst(lay.mults, g, d - 1);
    }
  }

  lemma NotInput(lay: Layout, g: nat)
    requires g < |lay.gates| && lay.gates[g].MultGate?
    ensures g !in Known(lay, 0)
  {
    if g in Ids(lay.gates, AnyInput) {
      InputKind(lay, g);
    }
  }

  lemma InputKind(lay: Layout, g: nat)
    requires g in Ids(lay.gates, AnyInput)
    ensures g < |lay.gates| && lay.gates[g].InputGate?
  {
    var i := Position(Ids(lay.gates, AnyInput), g);
    assert Is(lay.gates[g], AnyInput);
  }

  /** P1's masked value of gate g. */
  function MuOf(v: View, g: nat): int
    requires WellFormed(v.lay) && v.lay.batchSize > 0 && v.lay.clients > 0 && g < |v.lay.gates|
    decreases g
  {
    match v.lay.gates[g]
    case InputGate(c) =>
      IdsComplete(v.lay.gates, InputOf(c), g);
      Got(v.lay, v.t, v.id, v.box, c, Ins, Position(Ids(v.lay.gates, InputOf(c)), g))
    case MultGate(_, _) =>
      var d := LayerOf(v.lay.mults, g);
      if d == |v.lay.mults| then 0 else
        var at := Position(v.lay.mults[d], g);
        Rebuilt(Row(v, Replies(d), at / v.lay.batchSize), Slot(at % v.lay.batchSize))
    case AddGate(l, r) => Add(MuOf(v, l), MuOf(v, r))
    case OutputGate(_, src) => MuOf(v, src)
  }

  lemma {:induction false} BatchAt(k: nat, flat: seq<nat>, x: nat)
    requires k > 0 && x < |flat|
    ensures x / k < |Batches(k, flat)| && Batches(k, flat)[x / k][x % k] == Real(flat[x])
  {
    if |flat| <= k {
      SmallDiv(x, k);
    } else if x < k {
      SmallDiv(x, k);
    } else {
      BatchAt(k, flat[k..], x - k);
      StepDiv(x, k);
    }
  }

  lemma SmallDiv(x: nat, k: nat)
    requires x <= k && k > 0
    ensures x < k ==> x / k == 0 && x % k == x
  {
  }

  lemma StepDiv(x: nat, k: nat)
    requires x >= k > 0
    ensures x / k == (x - k) / k + 1 && x % k == (x - k) % k
  {
    var q, e := (x - k) / k, (x - k) % k;
    assert (q + 1) * k + e == x;
    DivMod(q + 1, e, k);
  }

  /** P1 knows the masked value of every gate that is reached before a layer. */
  lemma {:induction false} MuOfIs(s: Game, v: View, p: nat, r: nat, d: nat, g: nat)
    requires Sees(s, v, p, r) && v.id == 0 && p >= 7 + 2 * d && d <= |s.lay.mults| && g < |s.lay.gates| && s.lay.clients > 0
    requires WellFormed(s.lay) && Reachable(s.lay, Known(s.lay, d), g)
    ensures MuOf(v, g) == Masked(s.lay, Fi(s), s.inputs, g)
    decreases g
  {
    hide IsPrime, GoodFI, FullWire, Played, Fi, Mults, IOs, Fresh, AllDrawn, Reached, F, Sizes, WellFormed, Preprocessed, Ids, Lambda, Masked, Add, Known, Rebuilt, Row, Got, Matches, LayerOf;
    PlayedFacts(s);
    ParentsExist(s.lay, g);
    MaskedSteps(s.lay, Fi(s), s.inputs, g);
    match s.lay.gates[g] {
      case InputGate(c) => MuInput(s, v, p, r, g);
      case MultGate(_, _) =>
        KnownLayer(s.lay, d, g);
        MuProduct(s, v, p, r, g);
      case AddGate(a, b) =>
        MuOfIs(s, v, p, r, d, a);
        MuOfIs(s, v, p, r, d, b);
      case OutputGate(_, src) => MuOfIs(s, v, p, r, d, src);
    }
  }

  lemma MuInput(s: Game, v: View, p: nat, r: nat, g: nat)
    requires Sees(s, v, p, r) && v.id == 0 && p >= 7 && g < |s.lay.gates| && s.lay.gates[g].InputGate? && s.lay.clients > 0
    requires WellFormed(s.lay)
    ensures MuOf(v, g) == Masked(s.lay, Fi(s), s.inputs, g)
  {
    hide IsPrime, GoodFI, FullWire, Played, Fi, Mults, IOs, Fresh, AllDrawn, Reached, F, Sizes, Preprocessed, Ids, Lambda, Masked, Got, Matches;
    PlayedFacts(s);
    var c := s.lay.gates[g].owner;
    IdsComplete(s.lay.gates, InputOf(c), g);
    var x := Position(Ids(s.lay.gates, InputOf(c)), g);
    GotIs(s, v.id, v.box, p, r, c, Ins, x);
  }

  lemma ReplyRow(s: Game, v: View, p: nat, r: nat, d: nat, b: nat)
    requires Sees(s, v, p, r) && v.id == 0 && d < |s.lay.mults| && p >= 9 + 2 * d && b < |Layer(s.lay, d)|
    ensures b < |ProductList(s.lay, Fi(s), s.inputs, d)|
    ensures forall a :: 0 <= a < s.lay.clients ==>
      Row(v, Replies(d), b)[a] == At(ProductList(s.lay, Fi(s), s.inputs, d)[b], a + 1)
  {
    hide IsPrime, GoodFI, FullWire, Played, Fi, Mults, IOs, Fresh, AllDrawn, Reached, F, Sizes, Preprocessed, Ids, Got, Matches, ProductList, At, Layer, Offset, WellFormed;
    PlayedFacts(s);
    forall a | 0 <= a < s.lay.clients
      ensures Row(v, Replies(d), b)[a] == At(ProductList(s.lay, Fi(s), s.inputs, d)[b], a + 1)
    {
      GotIs(s, v.id, v.box, p, r, a, Replies(d), b);
    }
  }

  lemma MuProduct(s: Game, v: View, p: nat, r: nat, g: nat)
    requires Sees(s, v, p, r) && v.id == 0 && g < |s.lay.gates| && s.lay.gates[g].MultGate? && s.lay.clients > 0
    requires WellFormed(s.lay) && LayerOf(s.lay.mults, g) < |s.lay.mults| && p >= 9 + 2 * LayerOf(s.lay.mults, g)
    ensures MuOf(v, g) == Masked(s.lay, Fi(s), s.inputs, g)
  {
    hide IsPrime, GoodFI, FullWire, Played, Fi, Mults, IOs, Fresh, AllDrawn, Reached, F, Sizes, WellFormed, Preprocessed, Ids, Masked, Got, Matches, ProductList, At, Rebuilt, Slot, Row, LayerOf, Batches, ProductOf;
    PlayedFacts(s);
    PartiesFit(s);
    var k, d := s.lay.batchSize, LayerOf(s.lay.mults, g);
    var at := Position(s.lay.mults[d], g);
    var b, j := at / k, at % k;
    BatchAt(k, s.lay.mults[d], at);
    ProductListAt(s.lay, Fi(s), s.inputs, d, b);
    ProductIs(s.lay, s.lay.clients, s.t, Fi(s), s.inputs, Before(s.lay, d) + b, j);
    ReplyRow(s, v, p, r, d, b);
    RebuiltIs(ProductList(s.lay, Fi(s), s.inputs, d)[b], Row(v, Replies(d), b), Slot(j));
  }

  // ---------------------------------------------------------------- layers

  function MemberMu(v: View, m: Member): int
    requires WellFormed(v.lay) && v.lay.batchSize > 0 && v.lay.clients > 0
  {
    if m.Real? && m.id < |v.lay.gates| then MuOf(v, m.id) else F(0)
  }

  /** P1's masked values of the left or the right parents of a batch. */
  function SideMus(v: View, d: nat, z: nat): (r: seq<int>)
    requires WellFormed(v.lay) && v.lay.batchSize > 0 && v.lay.clients > 0 && d < |v.lay.mults| && z / 2 < |Layer(v.lay, d)|
    ensures |r| == v.lay.batchSize
  {
    var ms := Layer(v.lay, d)[z / 2];
    var side := if z % 2 == 0 then Lefts(v.lay, ms) else Rights(v.lay, ms);
    seq(|ms|, i requires 0 <= i < |ms| => MemberMu(v, side[i]))
  }

  lemma SideMusAre(s: Game, v: View, p: nat, r: nat, d: nat, z: nat)
    requires Sees(s, v, p, r) && v.id == 0 && d < |s.lay.mults| && p >= 7 + 2 * d && z / 2 < |Layer(s.lay, d)| && s.lay.clients > 0
    requires WellFormed(s.lay) && Layered(s.lay)
    ensures var ms := Layer(s.lay, d)[z / 2];
      && MembersOf(s.lay, Lefts(s.lay, ms)) && MembersOf(s.lay, Rights(s.lay, ms))
      && SideMus(v, d, z) == Maskeds(s.lay, Fi(s), s.inputs, if z % 2 == 0 then Lefts(s.lay, ms) else Rights(s.lay, ms))
  {
    hide IsPrime, GoodFI, FullWire, Played, Fi, Mults, IOs, Fresh, AllDrawn, Reached, F, Sizes, WellFormed, Preprocessed, Ids, Masked, Matches, Layer, Layered, MuOf, Known, Reachable;
    PlayedFacts(s);
    LayerBatch(s.lay, d, z / 2);
    var ms := Layer(s.lay, d)[z / 2];
    var side := if z % 2 == 0 then Lefts(s.lay, ms) else Rights(s.lay, ms);
    forall i | 0 <= i < |ms| ensures MemberMu(v, side[i]) == MemberMasked(s.lay, Fi(s), s.inputs, side[i]) {
      ParentsReachable(s.lay, d, z / 2, i);
      if ms[i].Real? {
        MuOfIs(s, v, p, r, d, side[i].id);
      }
    }
  }

  /** P1's share of them for party c. */
  function MuMsg(v: View, c: nat, d: nat, z: nat): int
    requires WellFormed(v.lay) && v.lay.batchSize > 0 && v.lay.clients > 0 && d < |v.lay.mults|
  {
    if z / 2 < |Layer(v.lay, d)| then PackedMsg(SideMus(v, d, z), c) else 0
  }

  lemma MuMsgIs(s: Game, v: View, p: nat, r: nat, c: nat, d: nat, z: nat)
    requires Sees(s, v, p, r) && v.id == 0 && d < |s.lay.mults| && p >= 7 + 2 * d && z < 2 * |Layer(s.lay, d)| && s.lay.clients > 0
    requires WellFormed(s.lay) && Layered(s.lay)
    ensures z < |MuList(s.lay, Fi(s), s.inputs, d)| && MuMsg(v, c, d, z) == At(MuList(s.lay, Fi(s), s.inputs, d)[z], c + 1)
  {
    hide IsPrime, GoodFI, FullWire, Played, Fi, Mults, IOs, Fresh, AllDrawn, Reached, F, Sizes, WellFormed, Preprocessed, Ids, Masked, Matches, Layer, Layered, SideMus, At, Maskeds, Coefs, Packed, MuList, Lefts, Rights;
    PlayedFacts(s);
    SideMusAre(s, v, p, r, d, z);
    MuListAt(s.lay, Fi(s), s.inputs, d, z / 2);
    assert z == 2 * (z / 2) + z % 2;
    MuSide(s, d, z);
  }

  lemma MuSide(s: Game, d: nat, z: nat)
    requires Played(s) && d < |s.lay.mults| && z / 2 < |Layer(s.lay, d)| && s.lay.batchSize > 0
    requires var ms := Layer(s.lay, d)[z / 2]; MembersOf(s.lay, Lefts(s.lay, ms)) && MembersOf(s.lay, Rights(s.lay, ms))
    ensures var ms := Layer(s.lay, d)[z / 2];
      var side := if z % 2 == 0 then Lefts(s.lay, ms) else Rights(s.lay, ms);
      |side| == s.lay.batchSize && MuPoly(s.lay, Fi(s), s.inputs, side) == Coefs(Packed(Maskeds(s.lay, Fi(s), s.inputs, side), |side| - 1, []))
  {
    hide IsPrime, GoodFI, FullWire, Played, Fi, Mults, IOs, Fresh, AllDrawn, Sizes, Preprocessed, Ids, Masked, Matches, Maskeds, Coefs, Packed, MembersOf;
    PlayedFacts(s);
    LayerBatch(s.lay, d, z / 2);
  }

  /** The share of the product of a batch: what P1 sent twice, and the preparation. */
  function ReplyMsg(v: View, d: nat, b: nat): int
    requires WellFormed(v.lay) && v.lay.batchSize > 0 && d < |v.lay.mults|
  {
    var q := Before(v.lay, d) + b;
    if q >= |Mults(v.lay)| then 0 else
      ProductShare(Got(v.lay, v.t, v.id, v.box, 0, Mus(d), 2 * b), Got(v.lay, v.t, v.id, v.box, 0, Mus(d), 2 * b + 1),
        Sub(Returned(v, 2 * q), TripleA(v, q)), Sub(Returned(v, 2 * q + 1), TripleB(v, q)), DeltaOf(v, q))
  }

  /** What P1 dealt again. */
  function Returned(v: View, z: nat): int
    requires v.lay.batchSize > 0
  {
    Got(v.lay, v.t, v.id, v.box, 0, Reshares, z)
  }

  function DeltaOf(v: View, q: nat): int
    requires WellFormed(v.lay) && v.lay.batchSize > 0 && q < |Mults(v.lay)|
  {
    DeltaShare(Sub(F(0), BatchShare(v, Mults(v.lay)[q])), Returned(v, 2 * q), Returned(v, 2 * q + 1),
      TripleA(v, q), TripleB(v, q), TripleC(v, q), ZeroShare(v, 2 * |Mults(v.lay)| + q))
  }

  lemma ReturnedIs(s: Game, v: View, p: nat, r: nat, z: nat)
    requires Sees(s, v, p, r) && p >= 6 && z < 2 * |Mults(s.lay)|
    ensures z < |ReshareList(s.lay, Fi(s))| && Returned(v, z) == At(ReshareList(s.lay, Fi(s))[z], v.id + 1)
  {
    hide IsPrime, GoodFI, FullWire, Played, Fi, Mults, IOs, Fresh, AllDrawn, Reached, F, Sizes, Preprocessed, Ids, Got, Matches, At, WellFormed, Reshared, MaskList;
    PlayedFacts(s);
    GotIs(s, v.id, v.box, p, r, 0, Reshares, z);
  }

  lemma PreparedIs(s: Game, v: View, p: nat, r: nat, q: nat)
    requires Sees(s, v, p, r) && p >= 6 && q < |Mults(s.lay)| && WellFormed(s.lay)
    ensures q < |Fi(s).a|
    ensures Sub(Returned(v, 2 * q), TripleA(v, q)) == At(LambdaA(s.lay, Fi(s), q), v.id + 1)
    ensures Sub(Returned(v, 2 * q + 1), TripleB(v, q)) == At(LambdaB(s.lay, Fi(s), q), v.id + 1)
    ensures DeltaOf(v, q) == At(Delta(s.lay, Fi(s), q), v.id + 1)
  {
    hide IsPrime, GoodFI, FullWire, Played, Fi, Mults, IOs, Fresh, AllDrawn, Reached, F, Sizes, Ids, Matches, At, WellFormed, Reshared, MaskList, Returned, TripleA, TripleB, TripleC, ZeroShare, BatchShare, SubP, DeltaPoly, Pack, MemberPolys, Inds, Fa, Fb, Fc, PackAll, Zs, DeltaShare, MaskedA, MaskedB;
    PlayedFacts(s);
    var fi, k, x, m := Fi(s), s.lay.batchSize, v.id + 1, |Mults(s.lay)|;
    BatchOk(s.lay, fi, q);
    Parties.BatchSize(s.lay, fi, q);
    MaskListAt(s.lay, fi, q);
    ReturnedIs(s, v, p, r, 2 * q);
    ReturnedIs(s, v, p, r, 2 * q + 1);
    TripleIs(s, v, p, r, q);
    ZeroShareIs(s, v, p, r, 2 * m + q);
    var ms := Mults(s.lay)[q];
    BatchShareIs(s, v, p, r, ms);
    var ra, rb, pack := Reshared(MaskedA(s.lay, fi, q), k), Reshared(MaskedB(s.lay, fi, q), k), Pack(|ms|, MemberPolys(s.lay, fi.ind, ms));
    AtSub(ra, fi.a[q], x);
    AtSub(rb, fi.b[q], x);
    AtSub([0], pack, x);
    AtZero(x);
    DeltaAt(SubP([0], pack), ra, rb, fi.a[q], fi.b[q], fi.c[q], fi.o3[q], x);
  }

  lemma ReplyMsgIs(s: Game, v: View, p: nat, r: nat, d: nat, b: nat)
    requires Sees(s, v, p, r) && d < |s.lay.mults| && p >= 8 + 2 * d && b < |Layer(s.lay, d)| && WellFormed(s.lay)
    ensures b < |ProductList(s.lay, Fi(s), s.inputs, d)|
    ensures ReplyMsg(v, d, b) == At(ProductList(s.lay, Fi(s), s.inputs, d)[b], v.id + 1)
  {
    hide IsPrime, GoodFI, FullWire, Played, Fi, Mults, IOs, Fresh, AllDrawn, Reached, F, Sizes, Ids, Matches, At, WellFormed, Layer, MuList, ProductList, Returned, TripleA, TripleB, DeltaOf, LambdaA, LambdaB, Delta, MuPoly, ProductPoly, ProductShare, Preprocessed, Lefts, Rights, Before;
    PlayedFacts(s);
    var q, x := Before(s.lay, d) + b, v.id + 1;
    MuListAt(s.lay, Fi(s), s.inputs, d, b);
    ProductListAt(s.lay, Fi(s), s.inputs, d, b);
    PreparedIs(s, v, p, r, q);
    MuGot(s, v, p, r, d, 2 * b);
    MuGot(s, v, p, r, d, 2 * b + 1);
    var ms := Layer(s.lay, d)[b];
    Parties.LambdaPositive(s.lay, Fi(s), q);
    ProductAt(MuPoly(s.lay, Fi(s), s.inputs, Lefts(s.lay, ms)), MuPoly(s.lay, Fi(s), s.inputs, Rights(s.lay, ms)),
      LambdaA(s.lay, Fi(s), q), LambdaB(s.lay, Fi(s), q), Delta(s.lay, Fi(s), q), x);
  }

  lemma MuGot(s: Game, v: View, p: nat, r: nat, d: nat, z: nat)
    requires Sees(s, v, p, r) && d < |s.lay.mults| && p >= 8 + 2 * d && z < 2 * |Layer(s.lay, d)|
    ensures z < |MuList(s.lay, Fi(s), s.inputs, d)|
    ensures Got(v.lay, v.t, v.id, v.box, 0, Mus(d), z) == At(MuList(s.lay, Fi(s), s.inputs, d)[z], v.id + 1)
  {
    hide IsPrime, GoodFI, FullWire, Played, Fi, Mults, IOs, Fresh, AllDrawn, Reached, F, Sizes, Preprocessed, Ids, Got, Matches, At, WellFormed, MuList, Layer;
    PlayedFacts(s);
    GotIs(s, v.id, v.box, p, r, 0, Mus(d), z);
  }

  // ---------------------------------------------------------------- outputs

  /** P1's masked value of the x-th output of client c. */
  function OutputMsg(v: View, c: nat, x: nat): int
    requires WellFormed(v.lay) && v.lay.batchSize > 0 && v.lay.clients > 0
  {
    var flat := Ids(v.lay.gates, OutputOf(c));
    if x < |flat| then MuOf(v, flat[x]) else 0
  }

  lemma OutputMsgIs(s: Game, v: View, p: nat, r: nat, c: nat, x: nat)
    requires Sees(s, v, p, r) && v.id == 0 && p >= 7 + 2 * |s.lay.mults| && x < |Ids(s.lay.gates, OutputOf(c))| && s.lay.clients > 0
    requires WellFormed(s.lay)
    ensures Ids(s.lay.gates, OutputOf(c))[x] < |s.lay.gates|
    ensures OutputMsg(v, c, x) == Masked(s.lay, Fi(s), s.inputs, Ids(s.lay.gates, OutputOf(c))[x])
  {
    hide IsPrime, GoodFI, FullWire, Played, Fi, Mults, IOs, Fresh, AllDrawn, Reached, F, Sizes, WellFormed, Preprocessed, Ids, Masked, Matches, MuOf, Known, Reachable;
    var g := Ids(s.lay.gates, OutputOf(c))[x];
    AllReachable(s.lay, g);
    MuOfIs(s, v, p, r, |s.lay.mults|, g);
  }

  /** What a client that has received everything returns. */
  function LocalOutputs(v: View): (r: seq<int>)
    requires v.lay.batchSize > 0 && v.lay.clients > 0
    ensures |r| == |Ids(v.lay.gates, OutputOf(v.id))|
  {
    var flat := Ids(v.lay.gates, OutputOf(v.id));
    seq(|flat|, x requires 0 <= x < |flat| => Add(OwnMask(v, flat[x]), Got(v.lay, v.t, v.id, v.box, 0, Outs, x)))
  }

  lemma LocalOutputsAre(s: Game, v: View)
    requires Sees(s, v, 8 + 2 * |s.lay.mults|, 0) && s.lay.clients > 0
    ensures LocalOutputs(v) == Parties.WireOutputs(s.lay, Fi(s), s.inputs, v.id)
  {
    hide IsPrime, GoodFI, FullWire, Played, Fi, Mults, IOs, Fresh, AllDrawn, Reached, F, Sizes, WellFormed, Preprocessed, Ids, Masked, Matches, WireValue, OwnMask, Got, Lambda, Add;
    PlayedFacts(s);
    var flat, last := Ids(s.lay.gates, OutputOf(v.id)), 8 + 2 * |s.lay.mults|;
    forall x | 0 <= x < |flat| ensures LocalOutputs(v)[x] == Parties.WireOutputs(s.lay, Fi(s), s.inputs, v.id)[x] {
      OwnMaskIs(s, v, last, 0, flat[x]);
      GotIs(s, v.id, v.box, last, 0, 0, Outs, x);
      Unmasked(s.lay, Fi(s), s.inputs, flat[x]);
    }
  }
}
