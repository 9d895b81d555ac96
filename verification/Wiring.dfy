/** The sharings that the wires of a circuit get from the individual sharings, and the batches
    of a circuit in the order in which preprocessing is assigned to them. */
module Wiring {
  import opened Modular
  import opened Poly
  import opened Scl
  import opened Sequences
  import opened PackedSharing
  import opened Dealing
  import opened Circuits

  /** Gates that get an individual sharing of their own: inputs, then multiplications. */
  function Fresh(lay: Layout): (r: seq<nat>) {
    Ids(lay.gates, AnyInput) + Ids(lay.gates, AnyMult)
  }

  lemma FreshHas(lay: Layout, g: nat)
    requires g < |lay.gates| && (lay.gates[g].InputGate? || lay.gates[g].MultGate?)
    ensures g in Fresh(lay)
  {
    if lay.gates[g].InputGate? {
      IdsComplete(lay.gates, AnyInput, g);
    } else {
      IdsComplete(lay.gates, AnyMult, g);
    }
  }

  /** A gate has one place among the fresh gates. */
  lemma FreshPosition(lay: Layout, i: nat)
    requires i < |Fresh(lay)|
    ensures Position(Fresh(lay), Fresh(lay)[i]) == i
  {
    var a, b, r := Ids(lay.gates, AnyInput), Ids(lay.gates, AnyMult), Position(Fresh(lay), Fresh(lay)[i]);
    if r >= |a| && i >= |a| {
      assert b[r - |a|] == b[i - |a|];
    }
  }

  /** The individual sharing on the output wire of a gate. Additions get theirs before outputs do:
      an output that an addition reads still counts as 0. */
  ghost function WirePoly(lay: Layout, ind: seq<Coeffs>, g: nat): (c: Coeffs)
    requires WellFormed(lay) && |Fresh(lay)| <= |ind| && Nonempty(ind) && g < |lay.gates|
    ensures |c| > 0
    decreases g
  {
    match lay.gates[g]
    case InputGate(_) => FreshHas(lay, g); ind[Position(Fresh(lay), g)]
    case MultGate(_, _) => FreshHas(lay, g); ind[Position(Fresh(lay), g)]
    case AddGate(l, r) =>
      AddP(if lay.gates[l].OutputGate? then [0] else WirePoly(lay, ind, l),
           if lay.gates[r].OutputGate? then [0] else WirePoly(lay, ind, r))
    case OutputGate(_, s) => WirePoly(lay, ind, s)
  }

  /** What an addition takes from a parent. */
  ghost function TermPoly(lay: Layout, ind: seq<Coeffs>, g: nat): (c: Coeffs)
    requires WellFormed(lay) && |Fresh(lay)| <= |ind| && Nonempty(ind) && g < |lay.gates|
    ensures |c| > 0
  {
    if lay.gates[g].OutputGate? then [0] else WirePoly(lay, ind, g)
  }

  lemma SumPoly(lay: Layout, ind: seq<Coeffs>, g: nat)
    requires WellFormed(lay) && |Fresh(lay)| <= |ind| && Nonempty(ind) && g < |lay.gates| && lay.gates[g].AddGate?
    ensures lay.gates[g].left < g && lay.gates[g].right < g
    ensures WirePoly(lay, ind, g) == AddP(TermPoly(lay, ind, lay.gates[g].left), TermPoly(lay, ind, lay.gates[g].right))
  {
    hide Fresh, AddP;
  }

  /** The mask of a gate. */
  ghost function Lambda(lay: Layout, ind: seq<Coeffs>, g: nat): (r: int)
    requires WellFormed(lay) && |Fresh(lay)| <= |ind| && Nonempty(ind) && g < |lay.gates|
  {
    At(WirePoly(lay, ind, g), Slot(0))
  }

  /** The mask that an addition counts for a parent. */
  ghost function Term(lay: Layout, ind: seq<Coeffs>, g: nat): (r: int)
    requires WellFormed(lay) && |Fresh(lay)| <= |ind| && Nonempty(ind) && g < |lay.gates|
  {
    if lay.gates[g].OutputGate? then F(0) else Lambda(lay, ind, g)
  }

  lemma TermIs(lay: Layout, ind: seq<Coeffs>, g: nat, x: int)
    requires WellFormed(lay) && |Fresh(lay)| <= |ind| && Nonempty(ind) && g < |lay.gates|
    ensures At(TermPoly(lay, ind, g), x) == if lay.gates[g].OutputGate? then F(0) else At(WirePoly(lay, ind, g), x)
    ensures At(TermPoly(lay, ind, g), Slot(0)) == Term(lay, ind, g)
  {
    hide At, Slot, Fresh, WirePoly;
    AtZero(x);
    AtZero(Slot(0));
  }

  /** Every individual sharing has one secret in all k slots. */
  ghost predicate Uniform(ind: seq<Coeffs>, k: nat) {
    forall i, j :: 0 <= i < |ind| && 0 <= j < k ==> At(ind[i], Slot(j)) == At(ind[i], Slot(0))
  }

  lemma {:induction false} WireUniform(lay: Layout, ind: seq<Coeffs>, g: nat, j: nat)
    requires WellFormed(lay) && |Fresh(lay)| <= |ind| && Nonempty(ind) && g < |lay.gates|
    requires Uniform(ind, lay.batchSize) && j < lay.batchSize
    ensures At(WirePoly(lay, ind, g), Slot(j)) == Lambda(lay, ind, g)
    decreases g
  {
    hide At, Slot, Fresh, AddP;
    match lay.gates[g] {
      case InputGate(_) => FreshHas(lay, g);
      case MultGate(_, _) => FreshHas(lay, g);
      case AddGate(l, r) =>
        WireUniform(lay, ind, l, j);
        WireUniform(lay, ind, r, j);
        SumPoly(lay, ind, g);
        TermIs(lay, ind, l, Slot(j));
        TermIs(lay, ind, r, Slot(j));
        AtAdd(TermPoly(lay, ind, l), TermPoly(lay, ind, r), Slot(j));
        AtAdd(TermPoly(lay, ind, l), TermPoly(lay, ind, r), Slot(0));
      case OutputGate(_, s) => WireUniform(lay, ind, s, j);
    }
  }

  lemma {:induction false} WireLength(lay: Layout, ind: seq<Coeffs>, g: nat, m: nat)
    requires WellFormed(lay) && |Fresh(lay)| <= |ind| && Nonempty(ind) && g < |lay.gates|
    requires Lengths(ind, m)
    ensures |WirePoly(lay, ind, g)| <= m
    decreases g
  {
    hide Fresh;
    match lay.gates[g] {
      case InputGate(_) => FreshHas(lay, g);
      case MultGate(_, _) => FreshHas(lay, g);
      case AddGate(l, r) =>
        WireLength(lay, ind, l, m);
        WireLength(lay, ind, r, m);
      case OutputGate(_, s) => WireLength(lay, ind, s, m);
    }
  }

  /** The masks of additions and outputs follow those of their parents. */
  lemma LambdaSteps(lay: Layout, ind: seq<Coeffs>, g: nat)
    requires WellFormed(lay) && |Fresh(lay)| <= |ind| && Nonempty(ind) && g < |lay.gates|
    ensures lay.gates[g].AddGate? ==>
      && lay.gates[g].left < g && lay.gates[g].right < g
      && Lambda(lay, ind, g) == Add(Term(lay, ind, lay.gates[g].left), Term(lay, ind, lay.gates[g].right))
    ensures lay.gates[g].OutputGate? ==> Lambda(lay, ind, g) == Lambda(lay, ind, lay.gates[g].src)
  {
    hide At, Slot, Fresh, AddP;
    if lay.gates[g].AddGate? {
      var l, r := lay.gates[g].left, lay.gates[g].right;
      SumPoly(lay, ind, g);
      TermIs(lay, ind, l, Slot(0));
      TermIs(lay, ind, r, Slot(0));
      AtAdd(TermPoly(lay, ind, l), TermPoly(lay, ind, r), Slot(0));
    }
  }

  // ---------------------------------------------------------------- members of batches

  ghost predicate MemberOf(lay: Layout, m: Member) {
    m.Real? ==> m.id < |lay.gates|
  }

  ghost function MemberPoly(lay: Layout, ind: seq<Coeffs>, m: Member): (c: Coeffs)
    requires WellFormed(lay) && |Fresh(lay)| <= |ind| && Nonempty(ind) && MemberOf(lay, m)
    ensures |c| > 0
  {
    match m case Real(g) => WirePoly(lay, ind, g) case Padding => [0]
  }

  ghost function MemberLambda(lay: Layout, ind: seq<Coeffs>, m: Member): int
    requires WellFormed(lay) && |Fresh(lay)| <= |ind| && Nonempty(ind) && MemberOf(lay, m)
  {
    match m case Real(g) => Lambda(lay, ind, g) case Padding => F(0)
  }

  ghost predicate MembersOf(lay: Layout, ms: seq<Member>) {
    forall i :: 0 <= i < |ms| ==> MemberOf(lay, ms[i])
  }

  ghost function MemberPolys(lay: Layout, ind: seq<Coeffs>, ms: seq<Member>): (r: seq<Coeffs>)
    requires WellFormed(lay) && |Fresh(lay)| <= |ind| && Nonempty(ind) && MembersOf(lay, ms)
    ensures |r| == |ms| && Nonempty(r)
  {
    seq(|ms|, i requires 0 <= i < |ms| => MemberPoly(lay, ind, ms[i]))
  }

  /** Packing the wires of a batch packs their masks. */
  lemma PackedMasks(lay: Layout, ind: seq<Coeffs>, ms: seq<Member>, j: nat)
    requires IsPrime(P61) && WellFormed(lay) && |Fresh(lay)| <= |ind| && Nonempty(ind) && MembersOf(lay, ms)
    requires Uniform(ind, lay.batchSize) && j < |ms| == lay.batchSize <= P61
    ensures At(Pack(|ms|, MemberPolys(lay, ind, ms)), Slot(j)) == MemberLambda(lay, ind, ms[j])
  {
    hide At, Slot, Fresh, Pack, IsPrime, WirePoly, F;
    PackSlot(|ms|, MemberPolys(lay, ind, ms), j);
    match ms[j] {
      case Real(g) => WireUniform(lay, ind, g, j);
      case Padding => AtZero(Slot(j));
    }
  }

  lemma PackedMasksLength(lay: Layout, ind: seq<Coeffs>, ms: seq<Member>, d: nat)
    requires WellFormed(lay) && |Fresh(lay)| <= |ind| && Nonempty(ind) && MembersOf(lay, ms)
    requires Lengths(ind, d + 1) && |ms| == lay.batchSize
    ensures |Pack(|ms|, MemberPolys(lay, ind, ms))| <= |ms| + d
  {
    hide Fresh, Pack, WirePoly;
    forall i | 0 <= i < |ms| ensures |MemberPolys(lay, ind, ms)[i]| <= d + 1 {
      match ms[i] {
        case Real(g) => WireLength(lay, ind, g, d + 1);
        case Padding =>
      }
    }
    PackLength(|ms|, MemberPolys(lay, ind, ms), d);
  }

  // ---------------------------------------------------------------- batches in order

  /** The left and the right parents of a batch of multiplications; padding is its own parent. */
  function LeftOf(lay: Layout, m: Member): Member {
    if m.Real? && m.id < |lay.gates| && lay.gates[m.id].MultGate? then Real(lay.gates[m.id].left) else Padding
  }

  function RightOf(lay: Layout, m: Member): Member {
    if m.Real? && m.id < |lay.gates| && lay.gates[m.id].MultGate? then Real(lay.gates[m.id].right) else Padding
  }

  function Lefts(lay: Layout, ms: seq<Member>): (r: seq<Member>)
    ensures |r| == |ms|
  {
    seq(|ms|, i requires 0 <= i < |ms| => LeftOf(lay, ms[i]))
  }

  function Rights(lay: Layout, ms: seq<Member>): (r: seq<Member>)
    ensures |r| == |ms|
  {
    seq(|ms|, i requires 0 <= i < |ms| => RightOf(lay, ms[i]))
  }

  /** A batch of inputs or outputs and the client that owns it. */
  datatype IOBatch = IOBatch(owner: nat, members: seq<Member>)

  function Owned(owner: nat, batches: seq<seq<Member>>): (r: seq<IOBatch>)
    ensures |r| == |batches| && forall b :: 0 <= b < |r| ==> r[b] == IOBatch(owner, batches[b])
  {
    seq(|batches|, b requires 0 <= b < |batches| => IOBatch(owner, batches[b]))
  }

  /** The input batches of the first c clients. */
  function InputBatches(lay: Layout, c: nat): (r: seq<IOBatch>)
    requires lay.batchSize > 0
  {
    if c == 0 then []
    else InputBatches(lay, c - 1) + Owned(c - 1, Batches(lay.batchSize, Ids(lay.gates, InputOf(c - 1))))
  }

  function OutputBatches(lay: Layout, c: nat): (r: seq<IOBatch>)
    requires lay.batchSize > 0
  {
    if c == 0 then []
    else OutputBatches(lay, c - 1) + Owned(c - 1, Batches(lay.batchSize, Ids(lay.gates, OutputOf(c - 1))))
  }

  /** The multiplication batches of the first d layers. */
  function MultBatches(lay: Layout, d: nat): (r: seq<seq<Member>>)
    requires lay.batchSize > 0 && d <= |lay.mults|
  {
    if d == 0 then [] else MultBatches(lay, d - 1) + Batches(lay.batchSize, lay.mults[d - 1])
  }

  /** Batches hold gates of their own kind and owner. */
  ghost predicate InputBatch(lay: Layout, b: IOBatch) {
    && |b.members| == lay.batchSize && b.owner < lay.clients
    && forall i :: 0 <= i < |b.members| ==>
      b.members[i].Real? ==> b.members[i].id < |lay.gates| && lay.gates[b.members[i].id] == InputGate(b.owner)
  }

  ghost predicate OutputBatch(lay: Layout, b: IOBatch) {
    && |b.members| == lay.batchSize && b.owner < lay.clients
    && forall i :: 0 <= i < |b.members| ==>
      b.members[i].Real? ==>
        b.members[i].id < |lay.gates| && lay.gates[b.members[i].id].OutputGate? && lay.gates[b.members[i].id].owner == b.owner
  }

  ghost predicate MultBatch(lay: Layout, ms: seq<Member>) {
    && |ms| == lay.batchSize
    && forall i :: 0 <= i < |ms| ==> ms[i].Real? ==> ms[i].id < |lay.gates| && lay.gates[ms[i].id].MultGate?
  }

  lemma InputBatchOf(lay: Layout, c: nat, b: nat)
    requires WellFormed(lay) && c < lay.clients && b < |Batches(lay.batchSize, Ids(lay.gates, InputOf(c)))|
    ensures InputBatch(lay, IOBatch(c, Batches(lay.batchSize, Ids(lay.gates, InputOf(c)))[b]))
  {
    hide Batches, Ids;
    var flat := Ids(lay.gates, InputOf(c));
    var ms := Batches(lay.batchSize, flat)[b];
    forall i | 0 <= i < |ms| && ms[i].Real?
      ensures ms[i].id < |lay.gates| && lay.gates[ms[i].id] == InputGate(c)
    {
      BatchMembers(lay.batchSize, flat, b, i);
    }
  }

  lemma {:induction false} InputBatchesAre(lay: Layout, c: nat, b: nat)
    requires WellFormed(lay) && c <= lay.clients && b < |InputBatches(lay, c)|
    ensures InputBatch(lay, InputBatches(lay, c)[b])
  {
    hide InputBatch, Batches, Ids;
    var before := InputBatches(lay, c - 1);
    if b < |before| {
      InputBatchesAre(lay, c - 1, b);
    } else {
      InputBatchOf(lay, c - 1, b - |before|);
    }
  }

  lemma OutputBatchOf(lay: Layout, c: nat, b: nat)
    requires WellFormed(lay) && c < lay.clients && b < |Batches(lay.batchSize, Ids(lay.gates, OutputOf(c)))|
    ensures OutputBatch(lay, IOBatch(c, Batches(lay.batchSize, Ids(lay.gates, OutputOf(c)))[b]))
  {
    hide Batches, Ids;
    var flat := Ids(lay.gates, OutputOf(c));
    var ms := Batches(lay.batchSize, flat)[b];
    forall i | 0 <= i < |ms| && ms[i].Real?
      ensures ms[i].id < |lay.gates| && lay.gates[ms[i].id].OutputGate? && lay.gates[ms[i].id].owner == c
    {
      BatchMembers(lay.batchSize, flat, b, i);
    }
  }

  lemma {:induction false} OutputBatchesAre(lay: Layout, c: nat, b: nat)
    requires WellFormed(lay) && c <= lay.clients && b < |OutputBatches(lay, c)|
    ensures OutputBatch(lay, OutputBatches(lay, c)[b])
  {
    hide OutputBatch, Batches, Ids;
    var before := OutputBatches(lay, c - 1);
    if b < |before| {
      OutputBatchesAre(lay, c - 1, b);
    } else {
      OutputBatchOf(lay, c - 1, b - |before|);
    }
  }

  lemma LayerGates(lay: Layout, d: nat, g: nat)
    requires WellFormed(lay) && d < |lay.mults| && g in lay.mults[d]
    ensures g < |lay.gates| && lay.gates[g].MultGate?
  {
    InFlatten(lay.mults, d, g);
    var i := Position(Ids(lay.gates, AnyMult), g);
    assert Is(lay.gates[g], AnyMult);
  }

  lemma {:induction false} InFlatten(rows: seq<seq<nat>>, d: nat, g: nat)
    requires d < |rows| && g in rows[d]
    ensures g in Flatten(rows)
  {
    if d > 0 {
      InFlatten(rows[1..], d - 1, g);
    }
  }

  lemma MultBatchOf(lay: Layout, d: nat, b: nat)
    requires WellFormed(lay) && d < |lay.mults| && b < |Batches(lay.batchSize, lay.mults[d])|
    ensures MultBatch(lay, Batches(lay.batchSize, lay.mults[d])[b])
  {
    hide Batches, Ids;
    var flat := lay.mults[d];
    var ms := Batches(lay.batchSize, flat)[b];
    forall i | 0 <= i < |ms| && ms[i].Real? ensures ms[i].id < |lay.gates| && lay.gates[ms[i].id].MultGate? {
      BatchMembers(lay.batchSize, flat, b, i);
      LayerGates(lay, d, ms[i].id);
    }
  }

  lemma {:induction false} MultBatchesAre(lay: Layout, d: nat, b: nat)
    requires WellFormed(lay) && d <= |lay.mults| && b < |MultBatches(lay, d)|
    ensures MultBatch(lay, MultBatches(lay, d)[b])
  {
    hide MultBatch, Batches, Ids;
    var before := MultBatches(lay, d - 1);
    if b < |before| {
      MultBatchesAre(lay, d - 1, b);
    } else {
      MultBatchOf(lay, d - 1, b - |before|);
    }
  }

  lemma BatchParents(lay: Layout, ms: seq<Member>)
    requires WellFormed(lay) && MultBatch(lay, ms)
    ensures MembersOf(lay, ms) && MembersOf(lay, Lefts(lay, ms)) && MembersOf(lay, Rights(lay, ms))
  {
  }

  // ---------------------------------------------------------------- masked wires

  /** The packed masks of a batch, rerandomised by a sharing of zero. */
  ghost function MaskedPoly(lay: Layout, ind: seq<Coeffs>, ms: seq<Member>, zero: Coeffs): (c: Coeffs)
    requires WellFormed(lay) && |Fresh(lay)| <= |ind| && Nonempty(ind) && MembersOf(lay, ms)
    ensures |c| > 0
  {
    AddP(Pack(|ms|, MemberPolys(lay, ind, ms)), zero)
  }

  /** A batch of masks to the owner: the masks are the secrets, and n shares determine them. */
  lemma MaskedPolyIs(lay: Layout, ind: seq<Coeffs>, ms: seq<Member>, zero: Coeffs, n: nat, t: nat)
    requires IsPrime(P61) && WellFormed(lay) && |Fresh(lay)| <= |ind| && Nonempty(ind) && MembersOf(lay, ms)
    requires Uniform(ind, lay.batchSize) && |ms| == lay.batchSize && Sizes(n, lay.batchSize, t)
    requires Lengths(ind, n - lay.batchSize + 1) && |zero| <= n
    requires forall j :: 0 <= j < |ms| ==> At(zero, Slot(j)) == F(0)
    ensures |MaskedPoly(lay, ind, ms, zero)| <= n
    ensures forall j :: 0 <= j < |ms| ==> At(MaskedPoly(lay, ind, ms, zero), Slot(j)) == MemberLambda(lay, ind, ms[j])
  {
    hide At, Slot, Fresh, Pack, IsPrime, WirePoly, F, MemberLambda, MemberPolys, AddP;
    var k := lay.batchSize;
    PackedMasksLength(lay, ind, ms, n - k);
    forall j | 0 <= j < k
      ensures At(MaskedPoly(lay, ind, ms, zero), Slot(j)) == MemberLambda(lay, ind, ms[j])
    {
      PackedMasks(lay, ind, ms, j);
      AtAdd(Pack(k, MemberPolys(lay, ind, ms)), zero, Slot(j));
      AddZero(Pack(k, MemberPolys(lay, ind, ms)), Slot(j));
    }
  }

  lemma AddZero(c: Coeffs, x: int)
    ensures Add(At(c, x), F(0)) == At(c, x)
  {
    hide F;
    FReduced(Poly.Eval(c, x), 0);
  }

  // ---------------------------------------------------------------- what one owner gets

  /** The entries that belong to client c. */
  function Mine<T>(owners: seq<IOBatch>, cs: seq<T>, c: nat): (r: seq<T>)
    requires |owners| == |cs|
  {
    if owners == [] then []
    else (if owners[0].owner == c then [cs[0]] else []) + Mine(owners[1..], cs[1..], c)
  }

  lemma {:induction false} MineAppend<T>(owners: seq<IOBatch>, cs: seq<T>, o: IOBatch, d: T, c: nat)
    requires |owners| == |cs|
    ensures Mine(owners + [o], cs + [d], c) == Mine(owners, cs, c) + if o.owner == c then [d] else []
  {
    if owners == [] {
      assert [o][1..] == [] && [d][1..] == [];
      assert Mine([o], [d], c) == (if o.owner == c then [d] else []) + Mine([], [], c);
      assert owners + [o] == [o] && cs + [d] == [d];
    } else {
      MineAppend(owners[1..], cs[1..], o, d, c);
      assert (owners + [o])[1..] == owners[1..] + [o] && (cs + [d])[1..] == cs[1..] + [d];
    }
  }

  // ---------------------------------------------------------------- every gate is in a batch of its owner

  lemma {:induction false} InputBatchAt(lay: Layout, c: nat, upto: nat, b: nat)
    requires lay.batchSize > 0 && c < upto && b < |Batches(lay.batchSize, Ids(lay.gates, InputOf(c)))|
    ensures |InputBatches(lay, c)| + b < |InputBatches(lay, upto)|
    ensures InputBatches(lay, upto)[|InputBatches(lay, c)| + b] ==
      IOBatch(c, Batches(lay.batchSize, Ids(lay.gates, InputOf(c)))[b])
  {
    hide Batches, Ids;
    if c + 1 < upto {
      InputBatchAt(lay, c, upto - 1, b);
    }
  }

  lemma {:induction false} OutputBatchAt(lay: Layout, c: nat, upto: nat, b: nat)
    requires lay.batchSize > 0 && c < upto && b < |Batches(lay.batchSize, Ids(lay.gates, OutputOf(c)))|
    ensures |OutputBatches(lay, c)| + b < |OutputBatches(lay, upto)|
    ensures OutputBatches(lay, upto)[|OutputBatches(lay, c)| + b] ==
      IOBatch(c, Batches(lay.batchSize, Ids(lay.gates, OutputOf(c)))[b])
  {
    hide Batches, Ids;
    if c + 1 < upto {
      OutputBatchAt(lay, c, upto - 1, b);
    }
  }

  /** Every input of client c is in a batch that c owns. */
  lemma InputCovered(lay: Layout, c: nat, g: nat) returns (b: nat, i: nat)
    requires lay.batchSize > 0 && c < lay.clients && g in Ids(lay.gates, InputOf(c))
    ensures var all := InputBatches(lay, lay.clients) + OutputBatches(lay, lay.clients);
            b < |all| && all[b].owner == c && i < |all[b].members| && all[b].members[i] == Real(g)
  {
    hide Batches, Ids, InputBatches, OutputBatches;
    var at, j := BatchCovers(lay.batchSize, Ids(lay.gates, InputOf(c)), g);
    InputBatchAt(lay, c, lay.clients, at);
    b, i := |InputBatches(lay, c)| + at, j;
  }

  /** Every output of client c is in a batch that c owns. */
  lemma OutputCovered(lay: Layout, c: nat, g: nat) returns (b: nat, i: nat)
    requires lay.batchSize > 0 && c < lay.clients && g in Ids(lay.gates, OutputOf(c))
    ensures var all := InputBatches(lay, lay.clients) + OutputBatches(lay, lay.clients);
            b < |all| && all[b].owner == c && i < |all[b].members| && all[b].members[i] == Real(g)
  {
    hide Batches, Ids, InputBatches, OutputBatches;
    var at, j := BatchCovers(lay.batchSize, Ids(lay.gates, OutputOf(c)), g);
    OutputBatchAt(lay, c, lay.clients, at);
    b, i := |InputBatches(lay, lay.clients)| + (|OutputBatches(lay, c)| + at), j;
  }
}
