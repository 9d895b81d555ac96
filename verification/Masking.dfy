/** Masked values: P1 learns value - mask of every wire, and a batch of products of masked
    values is opened as a batch of masked products. */
module Masking {
  import opened Modular
  import opened Poly
  import opened Scl
  import opened Sequences
  import opened PackedSharing
  import opened Dealing
  import opened Circuits
  import opened Wiring
  import opened Preprocessing

  ghost predicate Setting(lay: Layout, fi: FIPolys, inputs: seq<seq<int>>) {
    Enough(lay, fi) && Matches(lay, inputs)
  }

  /** The value that the wire of gate g carries in a run, shared as a mask and a masked value. An
      addition that reads an output gate misses the mask of the output. */
  ghost function WireValue(lay: Layout, fi: FIPolys, inputs: seq<seq<int>>, g: nat): (r: int)
    requires Setting(lay, fi, inputs) && g < |lay.gates|
    ensures 0 <= r < P61
    decreases g
  {
    match lay.gates[g]
    case InputGate(c) =>
      IdsComplete(lay.gates, InputOf(c), g);
      F(inputs[c][Position(Ids(lay.gates, InputOf(c)), g)])
    case AddGate(l, r) => F(Summand(lay, fi, l, WireValue(lay, fi, inputs, l)) + Summand(lay, fi, r, WireValue(lay, fi, inputs, r)))
    case MultGate(l, r) => F(WireValue(lay, fi, inputs, l) * WireValue(lay, fi, inputs, r))
    case OutputGate(_, s) => WireValue(lay, fi, inputs, s)
  }

  /** What an addition takes from a parent that carries v. */
  ghost function Summand(lay: Layout, fi: FIPolys, g: nat, v: int): int
    requires Enough(lay, fi) && g < |lay.gates|
  {
    if lay.gates[g].OutputGate? then v - Lambda(lay, fi.ind, g) else v
  }

  /** When no addition reads an output gate, every wire carries its cleartext value. */
  lemma {:induction false} PlainWires(lay: Layout, fi: FIPolys, inputs: seq<seq<int>>, g: nat)
    requires Setting(lay, fi, inputs) && PlainSums(lay.gates) && g < |lay.gates|
    ensures WireValue(lay, fi, inputs, g) == Clear(lay, inputs, g)
    decreases g
  {
    hide F, Lambda, Fresh, Ids, IOs, Mults;
    match lay.gates[g] {
      case InputGate(c) =>
      case AddGate(l, r) =>
        PlainWires(lay, fi, inputs, l);
        PlainWires(lay, fi, inputs, r);
      case MultGate(l, r) =>
        PlainWires(lay, fi, inputs, l);
        PlainWires(lay, fi, inputs, r);
      case OutputGate(_, s) => PlainWires(lay, fi, inputs, s);
    }
  }

  /** What P1 may learn about gate g: what its wire carries minus its mask. */
  ghost function Masked(lay: Layout, fi: FIPolys, inputs: seq<seq<int>>, g: nat): (r: int)
    requires Setting(lay, fi, inputs) && g < |lay.gates|
  {
    Sub(WireValue(lay, fi, inputs, g), Lambda(lay, fi.ind, g))
  }

  lemma ParentsExist(lay: Layout, g: nat)
    requires WellFormed(lay) && g < |lay.gates|
    ensures lay.gates[g].AddGate? ==> lay.gates[g].left < g && lay.gates[g].right < g
    ensures lay.gates[g].OutputGate? ==> lay.gates[g].src < g
  {
  }

  lemma WireSteps(lay: Layout, fi: FIPolys, inputs: seq<seq<int>>, g: nat)
    requires Setting(lay, fi, inputs) && g < |lay.gates|
    ensures lay.gates[g].AddGate? ==>
      && lay.gates[g].left < g && lay.gates[g].right < g
      && WireValue(lay, fi, inputs, g) ==
          F(Summand(lay, fi, lay.gates[g].left, WireValue(lay, fi, inputs, lay.gates[g].left))
            + Summand(lay, fi, lay.gates[g].right, WireValue(lay, fi, inputs, lay.gates[g].right)))
    ensures lay.gates[g].OutputGate? ==>
      lay.gates[g].src < g && WireValue(lay, fi, inputs, g) == WireValue(lay, fi, inputs, lay.gates[g].src)
  {
    hide F, Ids, Matches, Lambda, Fresh, IOs, Mults, Summand;
  }

  /** The masked values of additions and outputs, from those of their parents. */
  lemma MaskedSteps(lay: Layout, fi: FIPolys, inputs: seq<seq<int>>, g: nat)
    requires Setting(lay, fi, inputs) && g < |lay.gates|
    ensures lay.gates[g].AddGate? ==>
      (lay.gates[g].left < g && lay.gates[g].right < g
      && Masked(lay, fi, inputs, g) ==
        Add(Masked(lay, fi, inputs, lay.gates[g].left), Masked(lay, fi, inputs, lay.gates[g].right)))
    ensures lay.gates[g].OutputGate? ==>
      lay.gates[g].src < g && Masked(lay, fi, inputs, g) == Masked(lay, fi, inputs, lay.gates[g].src)
  {
    hide F, Lambda, Fresh, Ids, IOs, Mults, WireValue, WellFormed, Matches, Add, Sub, Summand, Term;
    ParentsExist(lay, g);
    LambdaSteps(lay, fi.ind, g);
    WireSteps(lay, fi, inputs, g);
    if lay.gates[g].AddGate? {
      var l, r := lay.gates[g].left, lay.gates[g].right;
      var v, w := WireValue(lay, fi, inputs, l), WireValue(lay, fi, inputs, r);
      SumOfMasked(Summand(lay, fi, l, v), Summand(lay, fi, r, w), Term(lay, fi.ind, l), Term(lay, fi.ind, r));
      SummandMasked(lay, fi, l, v);
      SummandMasked(lay, fi, r, w);
    }
  }

  /** An addition takes the masked value of each parent, whatever mask it counts. */
  lemma SummandMasked(lay: Layout, fi: FIPolys, g: nat, v: int)
    requires Enough(lay, fi) && g < |lay.gates|
    ensures Sub(Summand(lay, fi, g, v), Term(lay, fi.ind, g)) == Sub(v, Lambda(lay, fi.ind, g))
  {
    hide F, Lambda, Fresh, Ids, IOs, Mults;
    var l := Lambda(lay, fi.ind, g);
    FF(0);
    FOps(v - l, F(0), v - l, 0);
  }

  lemma SumOfMasked(v: int, w: int, l: int, r: int)
    ensures Sub(F(v + w), Add(l, r)) == Add(Sub(v, l), Sub(w, r))
  {
    hide F;
    FReduced(v + w, l + r);
    FReduced(v - l, w - r);
    assert v + w - (l + r) == v - l + (w - r);
  }

  /** A mask added back to a masked value gives the value. */
  lemma Unmasked(lay: Layout, fi: FIPolys, inputs: seq<seq<int>>, g: nat)
    requires Setting(lay, fi, inputs) && g < |lay.gates|
    ensures Add(Lambda(lay, fi.ind, g), Masked(lay, fi, inputs, g)) == WireValue(lay, fi, inputs, g)
  {
    hide F, Lambda, Fresh, Ids, IOs, Mults, WireValue;
    var v, l := WireValue(lay, fi, inputs, g), Lambda(lay, fi.ind, g);
    WireCanon(lay, fi, inputs, g);
    FF(v - l);
    FOps(l, F(v - l), l, v - l);
    assert l + (v - l) == v;
  }

  lemma WireCanon(lay: Layout, fi: FIPolys, inputs: seq<seq<int>>, g: nat)
    requires Setting(lay, fi, inputs) && g < |lay.gates|
    ensures F(WireValue(lay, fi, inputs, g)) == WireValue(lay, fi, inputs, g)
  {
    hide Ids, WireValue, Fresh, IOs, Mults;
    ResSmall(P61, WireValue(lay, fi, inputs, g));
  }

  lemma WireInput(lay: Layout, fi: FIPolys, inputs: seq<seq<int>>, c: nat, i: nat)
    requires Setting(lay, fi, inputs) && c < lay.clients && i < |Ids(lay.gates, InputOf(c))|
    ensures WireValue(lay, fi, inputs, Ids(lay.gates, InputOf(c))[i]) == F(inputs[c][i])
  {
    hide F, Ids, Fresh, IOs, Mults;
    var flat := Ids(lay.gates, InputOf(c));
    assert Is(lay.gates[flat[i]], InputOf(c));
    PositionUnique(flat, i);
  }

  /** The owner of an input sends its value minus its mask. */
  lemma MaskedInput(lay: Layout, fi: FIPolys, inputs: seq<seq<int>>, c: nat, i: nat)
    requires Setting(lay, fi, inputs) && c < lay.clients && i < |Ids(lay.gates, InputOf(c))|
    ensures var g := Ids(lay.gates, InputOf(c))[i];
            Sub(inputs[c][i], Lambda(lay, fi.ind, g)) == Masked(lay, fi, inputs, g)
  {
    hide F, Lambda, Fresh, IOs, Mults, WireValue, Ids;
    var g := Ids(lay.gates, InputOf(c))[i];
    WireInput(lay, fi, inputs, c, i);
    var v, l := inputs[c][i], Lambda(lay, fi.ind, g);
    FF(v);
    FOps(F(v), l, v, l);
  }

  ghost function MemberMasked(lay: Layout, fi: FIPolys, inputs: seq<seq<int>>, m: Member): int
    requires Setting(lay, fi, inputs) && MemberOf(lay, m)
  {
    match m case Real(g) => Masked(lay, fi, inputs, g) case Padding => F(0)
  }

  ghost function MemberValue(lay: Layout, fi: FIPolys, inputs: seq<seq<int>>, m: Member): int
    requires Setting(lay, fi, inputs) && MemberOf(lay, m)
  {
    match m case Real(g) => WireValue(lay, fi, inputs, g) case Padding => F(0)
  }

  lemma MemberMaskedIs(lay: Layout, fi: FIPolys, inputs: seq<seq<int>>, m: Member)
    requires Setting(lay, fi, inputs) && MemberOf(lay, m)
    ensures MemberMasked(lay, fi, inputs, m) == F(MemberValue(lay, fi, inputs, m) - MemberLambda(lay, fi.ind, m))
  {
    hide F, Lambda, Fresh, Ids, IOs, Mults, WireValue;
    FReduced(0, 0);
  }

  ghost function Maskeds(lay: Layout, fi: FIPolys, inputs: seq<seq<int>>, ms: seq<Member>): (r: seq<int>)
    requires Setting(lay, fi, inputs) && MembersOf(lay, ms)
    ensures |r| == |ms|
  {
    seq(|ms|, i requires 0 <= i < |ms| => MemberMasked(lay, fi, inputs, ms[i]))
  }

  /** P1's packed sharing of the masked values of a batch, degree k - 1. */
  ghost function MuPoly(lay: Layout, fi: FIPolys, inputs: seq<seq<int>>, ms: seq<Member>): (c: Coeffs)
    requires Setting(lay, fi, inputs) && MembersOf(lay, ms) && |ms| > 0
    ensures |c| == |ms|
  {
    Coefs(Packed(Maskeds(lay, fi, inputs, ms), |ms| - 1, []))
  }

  lemma MuPolyValue(lay: Layout, fi: FIPolys, inputs: seq<seq<int>>, ms: seq<Member>, j: nat)
    requires IsPrime(P61) && Setting(lay, fi, inputs) && MembersOf(lay, ms) && j < |ms| <= P61
    ensures At(MuPoly(lay, fi, inputs, ms), Slot(j)) ==
      F(MemberValue(lay, fi, inputs, ms[j]) - MemberLambda(lay, fi.ind, ms[j]))
  {
    hide F, Coefs, Packed, IsPrime, MemberMasked, MemberValue, MemberLambda, Fresh, Ids, IOs, Mults, At, Slot;
    PackedSecrets(Maskeds(lay, fi, inputs, ms), |ms| - 1, [], j);
    MemberMaskedIs(lay, fi, inputs, ms[j]);
    FF(MemberValue(lay, fi, inputs, ms[j]) - MemberLambda(lay, fi.ind, ms[j]));
  }

  /** What the parties' shares of a batch of products lie on. */
  ghost function ProductOf(lay: Layout, fi: FIPolys, inputs: seq<seq<int>>, q: nat): (c: Coeffs)
    requires Setting(lay, fi, inputs) && q < |fi.a|
    ensures |c| > 0
  {
    BatchOk(lay, fi, q);
    SizeOk(lay);
    var ms := Mults(lay)[q];
    ProductPoly(MuPoly(lay, fi, inputs, Lefts(lay, ms)), MuPoly(lay, fi, inputs, Rights(lay, ms)),
                LambdaA(lay, fi, q), LambdaB(lay, fi, q), Delta(lay, fi, q))
  }

  /** Opening a batch of products: n shares determine it, and its slots are the masked values
      of the multiplication gates. */
  lemma ProductIs(lay: Layout, n: nat, t: nat, fi: FIPolys, inputs: seq<seq<int>>, q: nat, j: nat)
    requires IsPrime(P61) && Setting(lay, fi, inputs) && Sizes(n, lay.batchSize, t) && GoodFI(lay, n, fi)
    requires q < |fi.a| && j < lay.batchSize
    ensures |Mults(lay)[q]| == lay.batchSize && MembersOf(lay, Mults(lay)[q])
    ensures |ProductOf(lay, fi, inputs, q)| <= n
    ensures At(ProductOf(lay, fi, inputs, q), Slot(j)) == MemberMasked(lay, fi, inputs, Mults(lay)[q][j])
  {
    hide At, Slot, Fresh, IsPrime, F, MuPoly, LambdaA, LambdaB, Delta, ProductPoly, ProductShare, Ids, IOs, Mults, WireValue, Lambda, WellFormed, MemberMasked, MemberValue, MemberLambda, GoodFI;
    BatchOk(lay, fi, q);
    SizeOk(lay);
    var ms, x := Mults(lay)[q], Slot(j);
    var ls, rs := Lefts(lay, ms), Rights(lay, ms);
    LambdasAre(lay, n, t, fi, q, j);
    DeltaIs(lay, n, t, fi, q, j);
    var ma, mb := MuPoly(lay, fi, inputs, ls), MuPoly(lay, fi, inputs, rs);
    ProductLength(ma, mb, LambdaA(lay, fi, q), LambdaB(lay, fi, q), Delta(lay, fi, q), n, lay.batchSize);
    ProductAt(ma, mb, LambdaA(lay, fi, q), LambdaB(lay, fi, q), Delta(lay, fi, q), x);
    MuPolyValue(lay, fi, inputs, ls, j);
    MuPolyValue(lay, fi, inputs, rs, j);
    var va, vb := MemberValue(lay, fi, inputs, ls[j]), MemberValue(lay, fi, inputs, rs[j]);
    var la, lb := MemberLambda(lay, fi.ind, ls[j]), MemberLambda(lay, fi.ind, rs[j]);
    MemberLambdaCanon(lay, fi.ind, ls[j]);
    MemberLambdaCanon(lay, fi.ind, rs[j]);
    ProductValue(va, vb, la, lb, MemberLambda(lay, fi.ind, ms[j]));
    ProductOnWire(lay, fi, inputs, ms, j);
  }

  lemma ProductLength(ma: Coeffs, mb: Coeffs, la: Coeffs, lb: Coeffs, d: Coeffs, n: nat, k: nat)
    requires 0 < k && 2 * k - 1 <= n && |ma| == |mb| == k && 1 <= |la| <= n - k + 1 && 1 <= |lb| <= n - k + 1 && |d| <= n
    ensures |ProductPoly(ma, mb, la, lb, d)| <= n
  {
    hide Conv, AddP;
  }

  /** The product of the parents' values minus the mask is the masked value. */
  lemma ProductOnWire(lay: Layout, fi: FIPolys, inputs: seq<seq<int>>, ms: seq<Member>, j: nat)
    requires Setting(lay, fi, inputs) && MultBatch(lay, ms) && j < |ms|
    ensures MembersOf(lay, ms) && MembersOf(lay, Lefts(lay, ms)) && MembersOf(lay, Rights(lay, ms))
    ensures F(MemberValue(lay, fi, inputs, Lefts(lay, ms)[j]) * MemberValue(lay, fi, inputs, Rights(lay, ms)[j])
              - MemberLambda(lay, fi.ind, ms[j])) == MemberMasked(lay, fi, inputs, ms[j])
  {
    hide F, Fresh, Ids, IOs, Mults, Lambda;
    BatchParents(lay, ms);
    match ms[j] {
      case Real(g) =>
        var l, r := lay.gates[g].left, lay.gates[g].right;
        var p, m := WireValue(lay, fi, inputs, l) * WireValue(lay, fi, inputs, r), Lambda(lay, fi.ind, g);
        FF(p);
        FOps(F(p), m, p, m);
      case Padding =>
        var z := F(0);
        FF(0);
        FOps(z, z, 0, 0);
        FOps(z * z, z, 0, 0);
    }
  }

  // ---------------------------------------------------------------- one layer

  /** The batches of layer d. */
  function Layer(lay: Layout, d: nat): seq<seq<Member>>
    requires lay.batchSize > 0 && d < |lay.mults|
  {
    Batches(lay.batchSize, lay.mults[d])
  }

  /** How many batches come before layer d. */
  function Before(lay: Layout, d: nat): nat
    requires lay.batchSize > 0 && d <= |lay.mults|
  {
    |MultBatches(lay, d)|
  }

  lemma LayerBatch(lay: Layout, d: nat, b: nat)
    requires WellFormed(lay) && d < |lay.mults| && b < |Layer(lay, d)|
    ensures Before(lay, d) + b < |Mults(lay)| && Mults(lay)[Before(lay, d) + b] == Layer(lay, d)[b]
    ensures |Layer(lay, d)[b]| == lay.batchSize > 0 && MultBatch(lay, Layer(lay, d)[b]) && MembersOf(lay, Layer(lay, d)[b])
    ensures MembersOf(lay, Lefts(lay, Layer(lay, d)[b])) && MembersOf(lay, Rights(lay, Layer(lay, d)[b]))
  {
    hide WellFormed, Batches, MultBatch, MembersOf;
    SizeOk(lay);
    MultBatchOf(lay, d, b);
    BatchParents(lay, Layer(lay, d)[b]);
    LaterBatches(lay, d, |lay.mults|, b);
    BatchWidth(lay, d, b);
  }

  lemma BatchWidth(lay: Layout, d: nat, b: nat)
    requires WellFormed(lay) && d < |lay.mults| && b < |Layer(lay, d)|
    ensures |Layer(lay, d)[b]| == lay.batchSize
  {
  }

  lemma {:induction false} LaterBatches(lay: Layout, d: nat, e: nat, b: nat)
    requires lay.batchSize > 0 && d < e <= |lay.mults| && b < |Layer(lay, d)|
    ensures Before(lay, d) + b < |MultBatches(lay, e)| && MultBatches(lay, e)[Before(lay, d) + b] == Layer(lay, d)[b]
  {
    hide Batches;
    if d + 1 < e {
      LaterBatches(lay, d, e - 1, b);
    }
  }

  /** P1's sharings for layer d: left and right masked values of every batch. */
  ghost function MuList(lay: Layout, fi: FIPolys, inputs: seq<seq<int>>, d: nat): (r: seq<Coeffs>)
    requires Setting(lay, fi, inputs) && d < |lay.mults|
    ensures |r| == 2 * |Layer(lay, d)|
  {
    seq(2 * |Layer(lay, d)|, z requires 0 <= z < 2 * |Layer(lay, d)| =>
      LayerBatch(lay, d, z / 2);
      MuPoly(lay, fi, inputs, if z % 2 == 0 then Lefts(lay, Layer(lay, d)[z / 2]) else Rights(lay, Layer(lay, d)[z / 2])))
  }

  lemma MuListAt(lay: Layout, fi: FIPolys, inputs: seq<seq<int>>, d: nat, b: nat)
    requires Setting(lay, fi, inputs) && d < |lay.mults| && b < |Layer(lay, d)|
    ensures |Layer(lay, d)[b]| > 0
    ensures MembersOf(lay, Lefts(lay, Layer(lay, d)[b])) && MembersOf(lay, Rights(lay, Layer(lay, d)[b]))
    ensures MuList(lay, fi, inputs, d)[2 * b] == MuPoly(lay, fi, inputs, Lefts(lay, Layer(lay, d)[b]))
    ensures MuList(lay, fi, inputs, d)[2 * b + 1] == MuPoly(lay, fi, inputs, Rights(lay, Layer(lay, d)[b]))
  {
    hide MuPoly, Lefts, Rights, WellFormed, Fresh, IOs, Mults, Layer, MembersOf, MultBatch;
    LayerBatch(lay, d, b);
    assert (2 * b) % 2 == 0 && (2 * b) / 2 == b && (2 * b + 1) % 2 == 1 && (2 * b + 1) / 2 == b;
  }

  /** The parties' sharings of the products of layer d. */
  ghost function ProductList(lay: Layout, fi: FIPolys, inputs: seq<seq<int>>, d: nat): (r: seq<Coeffs>)
    requires Setting(lay, fi, inputs) && d < |lay.mults|
    ensures |r| == |Layer(lay, d)|
  {
    seq(|Layer(lay, d)|, b requires 0 <= b < |Layer(lay, d)| =>
      LayerBatch(lay, d, b);
      ProductOf(lay, fi, inputs, Before(lay, d) + b))
  }

  lemma ProductListAt(lay: Layout, fi: FIPolys, inputs: seq<seq<int>>, d: nat, b: nat)
    requires Setting(lay, fi, inputs) && d < |lay.mults| && b < |Layer(lay, d)|
    ensures Before(lay, d) + b < |fi.a| && Mults(lay)[Before(lay, d) + b] == Layer(lay, d)[b]
    ensures ProductList(lay, fi, inputs, d)[b] == ProductOf(lay, fi, inputs, Before(lay, d) + b)
  {
    hide ProductOf, WellFormed, Fresh, IOs, MultBatch, MembersOf;
    LayerBatch(lay, d, b);
  }

  // ---------------------------------------------------------------- what is known before a layer

  lemma ReachableMore(lay: Layout, known: set<nat>, more: set<nat>, g: nat)
    requires WellFormed(lay) && g < |lay.gates| && known <= more && Reachable(lay, known, g)
    ensures Reachable(lay, more, g)
    decreases g
  {
    match lay.gates[g] {
      case InputGate(_) =>
      case MultGate(_, _) =>
      case AddGate(l, r) => ReachableMore(lay, known, more, l); ReachableMore(lay, known, more, r);
      case OutputGate(_, s) => ReachableMore(lay, known, more, s);
    }
  }

  /** The parents of a batch of layer d reach inputs and earlier layers only. */
  lemma ParentsReachable(lay: Layout, d: nat, b: nat, i: nat)
    requires WellFormed(lay) && Layered(lay) && d < |lay.mults| && b < |Layer(lay, d)| && i < lay.batchSize
    ensures var m := Layer(lay, d)[b][i];
            m.Real? ==>
              (m.id < |lay.gates| && lay.gates[m.id].MultGate?
              && lay.gates[m.id].left < |lay.gates| && lay.gates[m.id].right < |lay.gates|
              && Reachable(lay, Known(lay, d), lay.gates[m.id].left) && Reachable(lay, Known(lay, d), lay.gates[m.id].right))
  {
    hide Batches, Reachable, Ids, Known;
    var m := Layer(lay, d)[b][i];
    if m.Real? {
      BatchMembers(lay.batchSize, lay.mults[d], b, i);
      var at := Position(lay.mults[d], m.id);
      assert lay.mults[d][at] == m.id;
    }
  }

  /** Once all layers are known every gate is reachable. */
  lemma AllReachable(lay: Layout, g: nat)
    requires WellFormed(lay) && g < |lay.gates|
    ensures Reachable(lay, Known(lay, |lay.mults|), g)
    decreases g
  {
    hide Ids;
    match lay.gates[g] {
      case InputGate(_) =>
        IdsComplete(lay.gates, AnyInput, g);
        KnownInputs(lay, |lay.mults|, g);
      case MultGate(_, _) =>
        IdsComplete(lay.gates, AnyMult, g);
        assert lay.mults[..|lay.mults|] == lay.mults;
        KnownMults(lay, |lay.mults|, g);
      case AddGate(l, r) => AllReachable(lay, l); AllReachable(lay, r);
      case OutputGate(_, s) => AllReachable(lay, s);
    }
  }

  lemma {:induction false} KnownInputs(lay: Layout, d: nat, g: nat)
    requires d <= |lay.mults| && g in Ids(lay.gates, AnyInput)
    ensures g in Known(lay, d)
  {
    hide Ids;
    if d > 0 {
      KnownInputs(lay, d - 1, g);
    }
  }

  lemma {:induction false} KnownMults(lay: Layout, d: nat, g: nat)
    requires d <= |lay.mults| && g in Flatten(lay.mults[..d])
    ensures g in Known(lay, d)
  {
    hide Ids, Flatten;
    if d > 0 {
      FlattenAppend(lay.mults[..d - 1], lay.mults[d - 1]);
      assert lay.mults[..d] == lay.mults[..d - 1] + [lay.mults[d - 1]];
      if g in Flatten(lay.mults[..d - 1]) {
        KnownMults(lay, d - 1, g);
      }
    } else {
      FlattenNone<nat>();
    }
  }
}
