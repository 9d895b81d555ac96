/** The sharings that preprocessing leaves with the parties, as polynomials, and what they
    carry in every slot. */
module Preprocessing {
  import opened Modular
  import opened Poly
  import opened Scl
  import opened Sequences
  import opened PackedSharing
  import opened Dealing
  import opened Circuits
  import opened Wiring

  /** Function-independent preprocessing: individual sharings, packed triples with their three
      sharings of zero, and sharings of zero for inputs and outputs. */
  datatype FIPolys = FIPolys(ind: seq<Coeffs>, a: seq<Coeffs>, b: seq<Coeffs>, c: seq<Coeffs>,
                             o1: seq<Coeffs>, o2: seq<Coeffs>, o3: seq<Coeffs>, io: seq<Coeffs>)

  function Mults(lay: Layout): seq<seq<Member>>
    requires lay.batchSize > 0
  {
    MultBatches(lay, |lay.mults|)
  }

  /** The input batches of all clients, then their output batches. */
  function IOs(lay: Layout): seq<IOBatch>
    requires lay.batchSize > 0
  {
    InputBatches(lay, lay.clients) + OutputBatches(lay, lay.clients)
  }

  ghost predicate Enough(lay: Layout, fi: FIPolys) {
    && WellFormed(lay) && |Fresh(lay)| <= |fi.ind| && Nonempty(fi.ind)
    && |fi.a| == |fi.b| == |fi.c| == |fi.o1| == |fi.o2| == |fi.o3| == |Mults(lay)|
    && Nonempty(fi.a) && Nonempty(fi.b)
    && |IOs(lay)| <= |fi.io|
  }

  /** All of it has the right degrees and the right secrets. */
  ghost predicate GoodFI(lay: Layout, n: nat, fi: FIPolys)
    requires Enough(lay, fi) && lay.batchSize <= n
  {
    var k := lay.batchSize;
    && Lengths(fi.ind, n - k + 1) && Uniform(fi.ind, k)
    && Lengths(fi.a, n - k + 1) && Lengths(fi.b, n - k + 1) && Lengths(fi.c, n - k + 1)
    && Lengths(fi.o1, n) && Lengths(fi.o2, n) && Lengths(fi.o3, n) && Lengths(fi.io, n)
    && (forall q, j :: 0 <= q < |fi.a| && 0 <= j < k ==>
          At(fi.c[q], Slot(j)) == Mul(At(fi.a[q], Slot(j)), At(fi.b[q], Slot(j))))
    && ZeroInSlots(fi.o1, k) && ZeroInSlots(fi.o2, k) && ZeroInSlots(fi.o3, k) && ZeroInSlots(fi.io, k)
  }

  ghost predicate ZeroInSlots(cs: seq<Coeffs>, k: nat) {
    forall q, j :: 0 <= q < |cs| && 0 <= j < k ==> At(cs[q], Slot(j)) == F(0)
  }

  // ---------------------------------------------------------------- function-dependent preprocessing

  lemma BatchOk(lay: Layout, fi: FIPolys, q: nat)
    requires Enough(lay, fi) && q < |fi.a|
    ensures MultBatch(lay, Mults(lay)[q]) && MembersOf(lay, Mults(lay)[q])
    ensures MembersOf(lay, Lefts(lay, Mults(lay)[q])) && MembersOf(lay, Rights(lay, Mults(lay)[q]))
  {
    hide MultBatch, Fresh, MembersOf, MultBatches, WellFormed;
    SizeOk(lay);
    MultBatchesAre(lay, |lay.mults|, q);
    BatchParents(lay, Mults(lay)[q]);
  }

  lemma SizeOk(lay: Layout)
    requires WellFormed(lay)
    ensures lay.batchSize > 0
  {
  }

  lemma IOBatchOk(lay: Layout, b: nat)
    requires WellFormed(lay) && b < |IOs(lay)|
    ensures |IOs(lay)[b].members| == lay.batchSize && IOs(lay)[b].owner < lay.clients && MembersOf(lay, IOs(lay)[b].members)
    ensures InputBatch(lay, IOs(lay)[b]) || OutputBatch(lay, IOs(lay)[b])
  {
    hide WellFormed, InputBatches, OutputBatches;
    SizeOk(lay);
    var m := |InputBatches(lay, lay.clients)|;
    if b < m {
      InputBatchesAre(lay, lay.clients, b);
    } else {
      OutputBatchesAre(lay, lay.clients, b - m);
    }
  }

  /** The masked left and right masks of batch q, as sent to P1. */
  ghost function MaskedA(lay: Layout, fi: FIPolys, q: nat): (c: Coeffs)
    requires Enough(lay, fi) && q < |fi.a|
    ensures |c| > 0
  {
    BatchOk(lay, fi, q);
    MaskedPoly(lay, fi.ind, Lefts(lay, Mults(lay)[q]), AddP(fi.a[q], fi.o1[q]))
  }

  ghost function MaskedB(lay: Layout, fi: FIPolys, q: nat): (c: Coeffs)
    requires Enough(lay, fi) && q < |fi.a|
    ensures |c| > 0
  {
    BatchOk(lay, fi, q);
    MaskedPoly(lay, fi.ind, Rights(lay, Mults(lay)[q]), AddP(fi.b[q], fi.o2[q]))
  }

  /** Everything sent to P1 for multiplications, and everything P1 returns. */
  ghost function MaskList(lay: Layout, fi: FIPolys): (r: seq<Coeffs>)
    requires Enough(lay, fi)
    ensures |r| == 2 * |fi.a|
  {
    seq(2 * |fi.a|, z requires 0 <= z < 2 * |fi.a| => if z % 2 == 0 then MaskedA(lay, fi, z / 2) else MaskedB(lay, fi, z / 2))
  }

  ghost function ReshareList(lay: Layout, fi: FIPolys): (r: seq<Coeffs>)
    requires Enough(lay, fi)
    ensures |r| == 2 * |fi.a|
  {
    SizeOk(lay);
    seq(2 * |fi.a|, z requires 0 <= z < 2 * |fi.a| => Reshared(MaskList(lay, fi)[z], lay.batchSize))
  }

  lemma MaskListAt(lay: Layout, fi: FIPolys, q: nat)
    requires Enough(lay, fi) && q < |fi.a|
    ensures lay.batchSize > 0
    ensures MaskList(lay, fi)[2 * q] == MaskedA(lay, fi, q) && MaskList(lay, fi)[2 * q + 1] == MaskedB(lay, fi, q)
    ensures ReshareList(lay, fi)[2 * q] == Reshared(MaskedA(lay, fi, q), lay.batchSize)
    ensures ReshareList(lay, fi)[2 * q + 1] == Reshared(MaskedB(lay, fi, q), lay.batchSize)
  {
    hide Reshared, MaskedA, MaskedB, WellFormed, Fresh, IOs, Mults;
    SizeOk(lay);
    assert (2 * q) % 2 == 0 && (2 * q) / 2 == q && (2 * q + 1) % 2 == 1 && (2 * q + 1) / 2 == q;
  }

  function SlotValues(c: Coeffs, k: nat): (r: seq<int>)
    ensures |r| == k
  {
    seq(k, j requires 0 <= j < k => At(c, Slot(j)))
  }

  /** The same secrets in a sharing of degree k - 1. */
  function Reshared(c: Coeffs, k: nat): (r: Coeffs)
    requires k > 0
    ensures |r| == k
  {
    Coefs(Packed(SlotValues(c, k), k - 1, []))
  }

  lemma ResharedValue(c: Coeffs, k: nat, j: nat)
    requires IsPrime(P61) && j < k <= P61
    ensures At(Reshared(c, k), Slot(j)) == At(c, Slot(j))
  {
    hide F, Coefs, Packed, IsPrime;
    PackedSecrets(SlotValues(c, k), k - 1, [], j);
    AtIs(c, Slot(j));
  }

  /** What the parties hold for batch q: both masks, and the masked-product correction. */
  ghost function LambdaA(lay: Layout, fi: FIPolys, q: nat): (c: Coeffs)
    requires Enough(lay, fi) && q < |fi.a|
  {
    SizeOk(lay);
    SubP(Reshared(MaskedA(lay, fi, q), lay.batchSize), fi.a[q])
  }

  ghost function LambdaB(lay: Layout, fi: FIPolys, q: nat): (c: Coeffs)
    requires Enough(lay, fi) && q < |fi.a|
  {
    SizeOk(lay);
    SubP(Reshared(MaskedB(lay, fi, q), lay.batchSize), fi.b[q])
  }

  ghost function Delta(lay: Layout, fi: FIPolys, q: nat): (c: Coeffs)
    requires Enough(lay, fi) && q < |fi.a|
    ensures |c| > 0
  {
    SizeOk(lay);
    BatchOk(lay, fi, q);
    var k, ms := lay.batchSize, Mults(lay)[q];
    DeltaPoly(SubP([0], Pack(|ms|, MemberPolys(lay, fi.ind, ms))), Reshared(MaskedA(lay, fi, q), k),
              Reshared(MaskedB(lay, fi, q), k), fi.a[q], fi.b[q], fi.c[q], fi.o3[q])
  }

  /** The batch's mask sharings sent to its owner. */
  ghost function IOPoly(lay: Layout, fi: FIPolys, b: nat): (c: Coeffs)
    requires Enough(lay, fi) && b < |IOs(lay)|
  {
    IOBatchOk(lay, b);
    MaskedPoly(lay, fi.ind, IOs(lay)[b].members, fi.io[b])
  }

  ghost function IOList(lay: Layout, fi: FIPolys): (r: seq<Coeffs>)
    requires Enough(lay, fi)
    ensures |r| == |IOs(lay)|
  {
    seq(|IOs(lay)|, b requires 0 <= b < |IOs(lay)| => IOPoly(lay, fi, b))
  }

  // ---------------------------------------------------------------- what the sharings carry

  /** A mask plus a triple's factor, opened and dealt again, is that sum in every slot. */
  lemma MaskedIs(lay: Layout, n: nat, t: nat, ind: seq<Coeffs>, ms: seq<Member>, a: Coeffs, o: Coeffs)
    requires IsPrime(P61) && WellFormed(lay) && |Fresh(lay)| <= |ind| && Nonempty(ind) && MembersOf(lay, ms)
    requires |ms| == lay.batchSize && Sizes(n, lay.batchSize, t) && Uniform(ind, lay.batchSize)
    requires Lengths(ind, n - lay.batchSize + 1) && |a| <= n && |o| <= n
    requires forall j :: 0 <= j < lay.batchSize ==> At(o, Slot(j)) == F(0)
    ensures |MaskedPoly(lay, ind, ms, AddP(a, o))| <= n
    ensures forall j :: 0 <= j < lay.batchSize ==>
      At(MaskedPoly(lay, ind, ms, AddP(a, o)), Slot(j)) == Add(MemberLambda(lay, ind, ms[j]), At(a, Slot(j)))
  {
    hide At, Slot, Fresh, Pack, IsPrime, WirePoly, F, MemberLambda, MemberPolys, AddP, Add;
    var k := lay.batchSize;
    PackedMasksLength(lay, ind, ms, n - k);
    forall j | 0 <= j < k
      ensures At(MaskedPoly(lay, ind, ms, AddP(a, o)), Slot(j)) == Add(MemberLambda(lay, ind, ms[j]), At(a, Slot(j)))
    {
      PackedMasks(lay, ind, ms, j);
      AtAdd(Pack(k, MemberPolys(lay, ind, ms)), AddP(a, o), Slot(j));
      AtAdd(a, o, Slot(j));
      AddZero(a, Slot(j));
    }
  }

  /** Removing the factor leaves the mask: the sharing of degree n - k carries it. */
  lemma LambdaIs(lay: Layout, n: nat, t: nat, ind: seq<Coeffs>, ms: seq<Member>, a: Coeffs, o: Coeffs)
    requires IsPrime(P61) && WellFormed(lay) && |Fresh(lay)| <= |ind| && Nonempty(ind) && MembersOf(lay, ms)
    requires |ms| == lay.batchSize && Sizes(n, lay.batchSize, t) && Uniform(ind, lay.batchSize)
    requires Lengths(ind, n - lay.batchSize + 1) && |a| <= n - lay.batchSize + 1 && |o| <= n
    requires forall j :: 0 <= j < lay.batchSize ==> At(o, Slot(j)) == F(0)
    ensures var r := Reshared(MaskedPoly(lay, ind, ms, AddP(a, o)), lay.batchSize);
            && 1 <= |SubP(r, a)| <= n - lay.batchSize + 1
            && forall j :: 0 <= j < lay.batchSize ==>
              && At(SubP(r, a), Slot(j)) == MemberLambda(lay, ind, ms[j])
              && At(r, Slot(j)) == Add(MemberLambda(lay, ind, ms[j]), At(a, Slot(j)))
  {
    hide At, Slot, Fresh, Pack, IsPrime, WirePoly, F, MemberLambda, MemberPolys, AddP, Add, Sub, Reshared, MaskedPoly, Uniform, Lengths, WellFormed;
    SizeOk(lay);
    var k := lay.batchSize;
    var m := MaskedPoly(lay, ind, ms, AddP(a, o));
    var r := Reshared(m, k);
    MaskedIs(lay, n, t, ind, ms, a, o);
    forall j | 0 <= j < k
      ensures At(SubP(r, a), Slot(j)) == MemberLambda(lay, ind, ms[j])
      ensures At(r, Slot(j)) == Add(MemberLambda(lay, ind, ms[j]), At(a, Slot(j)))
    {
      ResharedValue(m, k, j);
      AtSub(r, a, Slot(j));
      MemberLambdaCanon(lay, ind, ms[j]);
      AtIs(a, Slot(j));
      UnmaskValue(MemberLambda(lay, ind, ms[j]), At(a, Slot(j)));
    }
  }

  lemma MemberLambdaCanon(lay: Layout, ind: seq<Coeffs>, m: Member)
    requires WellFormed(lay) && |Fresh(lay)| <= |ind| && Nonempty(ind) && MemberOf(lay, m)
    ensures F(MemberLambda(lay, ind, m)) == MemberLambda(lay, ind, m)
  {
    hide F, Fresh, WirePoly, WellFormed, Nonempty;
    match m {
      case Real(g) => AtIs(WirePoly(lay, ind, g), Slot(0));
      case Padding => FF(0);
    }
  }

  /** The correction of a batch carries lambda_A * lambda_B - lambda_C in every slot, and n
      shares determine it. */
  lemma DeltaIs(lay: Layout, n: nat, t: nat, fi: FIPolys, q: nat, j: nat)
    requires IsPrime(P61) && Enough(lay, fi) && Sizes(n, lay.batchSize, t) && GoodFI(lay, n, fi) && q < |fi.a|
    requires j < lay.batchSize
    ensures |Delta(lay, fi, q)| <= n
    ensures MultBatch(lay, Mults(lay)[q]) && MembersOf(lay, Lefts(lay, Mults(lay)[q]))
    ensures MembersOf(lay, Rights(lay, Mults(lay)[q])) && MembersOf(lay, Mults(lay)[q])
    ensures var ms := Mults(lay)[q];
            At(Delta(lay, fi, q), Slot(j)) ==
              F(MemberLambda(lay, fi.ind, Lefts(lay, ms)[j]) * MemberLambda(lay, fi.ind, Rights(lay, ms)[j])
                - MemberLambda(lay, fi.ind, ms[j]))
  {
    hide At, Slot, Fresh, Pack, IsPrime, F, MemberLambda, MemberPolys, MaskedPoly, Reshared, DeltaShare, DeltaPoly, Add, Sub, Mul, Mults,
      WellFormed, Uniform, IOs;
    BatchOk(lay, fi, q);
    var k, ms, x := lay.batchSize, Mults(lay)[q], Slot(j);
    var la, lb, lc := MemberLambda(lay, fi.ind, Lefts(lay, ms)[j]), MemberLambda(lay, fi.ind, Rights(lay, ms)[j]),
      MemberLambda(lay, fi.ind, ms[j]);
    var p, ra, rb := Pack(|ms|, MemberPolys(lay, fi.ind, ms)), Reshared(MaskedA(lay, fi, q), k), Reshared(MaskedB(lay, fi, q), k);
    DeltaParts(lay, n, t, fi, q, j);
    DeltaLength(SubP([0], p), ra, rb, fi.a[q], fi.b[q], fi.c[q], fi.o3[q], n, k);
    DeltaAt(SubP([0], p), ra, rb, fi.a[q], fi.b[q], fi.c[q], fi.o3[q], x);
    AtIs(fi.a[q], x);
    AtIs(fi.b[q], x);
    DeltaOf(la, lb, lc, At(fi.a[q], x), At(fi.b[q], x));
  }

  /** The parts of the correction, slot by slot. */
  lemma DeltaParts(lay: Layout, n: nat, t: nat, fi: FIPolys, q: nat, j: nat)
    requires IsPrime(P61) && Enough(lay, fi) && Sizes(n, lay.batchSize, t) && GoodFI(lay, n, fi) && q < |fi.a|
    requires j < lay.batchSize
    ensures MultBatch(lay, Mults(lay)[q]) && MembersOf(lay, Lefts(lay, Mults(lay)[q]))
    ensures MembersOf(lay, Rights(lay, Mults(lay)[q])) && MembersOf(lay, Mults(lay)[q])
    ensures var ms, k, x := Mults(lay)[q], lay.batchSize, Slot(j);
            var p := Pack(|ms|, MemberPolys(lay, fi.ind, ms));
            && |p| <= n
            && At(SubP([0], p), x) == Sub(F(0), MemberLambda(lay, fi.ind, ms[j]))
            && At(Reshared(MaskedA(lay, fi, q), k), x) == Add(MemberLambda(lay, fi.ind, Lefts(lay, ms)[j]), At(fi.a[q], x))
            && At(Reshared(MaskedB(lay, fi, q), k), x) == Add(MemberLambda(lay, fi.ind, Rights(lay, ms)[j]), At(fi.b[q], x))
            && At(fi.c[q], x) == Mul(At(fi.a[q], x), At(fi.b[q], x))
            && At(fi.o3[q], x) == F(0)
            && F(MemberLambda(lay, fi.ind, Lefts(lay, ms)[j])) == MemberLambda(lay, fi.ind, Lefts(lay, ms)[j])
            && F(MemberLambda(lay, fi.ind, Rights(lay, ms)[j])) == MemberLambda(lay, fi.ind, Rights(lay, ms)[j])
            && F(MemberLambda(lay, fi.ind, ms[j])) == MemberLambda(lay, fi.ind, ms[j])
  {
    hide At, Slot, Fresh, Pack, IsPrime, F, MemberLambda, MemberPolys, MaskedPoly, Reshared, Add, Sub, Mul, SubP, Mults, WellFormed, Uniform, IOs;
    BatchOk(lay, fi, q);
    var k, ms, x := lay.batchSize, Mults(lay)[q], Slot(j);
    SizeOk(lay);
    PackedMasks(lay, fi.ind, ms, j);
    PackedMasksLength(lay, fi.ind, ms, n - k);
    AtSub([0], Pack(|ms|, MemberPolys(lay, fi.ind, ms)), x);
    AtZero(x);
    LambdaIs(lay, n, t, fi.ind, Lefts(lay, ms), fi.a[q], fi.o1[q]);
    LambdaIs(lay, n, t, fi.ind, Rights(lay, ms), fi.b[q], fi.o2[q]);
    MemberLambdaCanon(lay, fi.ind, Lefts(lay, ms)[j]);
    MemberLambdaCanon(lay, fi.ind, Rights(lay, ms)[j]);
    MemberLambdaCanon(lay, fi.ind, ms[j]);
  }

  lemma DeltaLength(p: Coeffs, ra: Coeffs, rb: Coeffs, a: Coeffs, b: Coeffs, c: Coeffs, o: Coeffs, n: nat, k: nat)
    requires 0 < k && 2 * k - 1 <= n && |p| <= n && |ra| == |rb| == k
    requires 1 <= |a| <= n - k + 1 && 1 <= |b| <= n - k + 1 && |c| <= n - k + 1 && |o| <= n
    ensures |DeltaPoly(p, ra, rb, a, b, c, o)| <= n
  {
    hide Conv, AddP, SubP;
  }

  lemma DeltaOf(la: int, lb: int, lc: int, al: int, be: int)
    requires F(la) == la && F(lb) == lb && F(lc) == lc && F(al) == al && F(be) == be
    ensures DeltaShare(Sub(F(0), lc), Add(la, al), Add(lb, be), al, be, Mul(al, be), F(0)) == F(la * lb - lc)
  {
    hide F, Add, Sub, Mul, DeltaShare;
    SubF(0, lc);
    AddF(la, al);
    AddF(lb, be);
    MulF(al, be);
    assert 0 - lc == -lc;
    DeltaValue(la, lb, lc, al, be);
  }

  /** Both packed masks of a batch: degree n - k, the parents' masks in every slot. */
  lemma LambdasAre(lay: Layout, n: nat, t: nat, fi: FIPolys, q: nat, j: nat)
    requires IsPrime(P61) && Enough(lay, fi) && Sizes(n, lay.batchSize, t) && GoodFI(lay, n, fi) && q < |fi.a|
    requires j < lay.batchSize
    ensures 1 <= |LambdaA(lay, fi, q)| <= n - lay.batchSize + 1 && 1 <= |LambdaB(lay, fi, q)| <= n - lay.batchSize + 1
    ensures MultBatch(lay, Mults(lay)[q]) && MembersOf(lay, Lefts(lay, Mults(lay)[q]))
    ensures MembersOf(lay, Rights(lay, Mults(lay)[q]))
    ensures At(LambdaA(lay, fi, q), Slot(j)) == MemberLambda(lay, fi.ind, Lefts(lay, Mults(lay)[q])[j])
    ensures At(LambdaB(lay, fi, q), Slot(j)) == MemberLambda(lay, fi.ind, Rights(lay, Mults(lay)[q])[j])
  {
    hide At, Slot, Fresh, Pack, IsPrime, F, MemberLambda, MemberPolys, MaskedPoly, Reshared, Add, Sub, Mul, SubP, Mults, WellFormed, Uniform, IOs;
    SizeOk(lay);
    BatchOk(lay, fi, q);
    LambdaIs(lay, n, t, fi.ind, Lefts(lay, Mults(lay)[q]), fi.a[q], fi.o1[q]);
    LambdaIs(lay, n, t, fi.ind, Rights(lay, Mults(lay)[q]), fi.b[q], fi.o2[q]);
  }

  /** The masked sums are of degree below n, so P1 opens them. */
  lemma MaskListLengths(lay: Layout, n: nat, t: nat, fi: FIPolys, z: nat)
    requires IsPrime(P61) && Enough(lay, fi) && Sizes(n, lay.batchSize, t) && GoodFI(lay, n, fi) && z < 2 * |fi.a|
    ensures |MaskList(lay, fi)[z]| <= n
  {
    hide At, Slot, Fresh, Pack, IsPrime, F, MemberLambda, MemberPolys, MaskedPoly, Add, Mults, WellFormed, Uniform, IOs;
    SizeOk(lay);
    var q := z / 2;
    BatchOk(lay, fi, q);
    MaskedIs(lay, n, t, fi.ind, Lefts(lay, Mults(lay)[q]), fi.a[q], fi.o1[q]);
    MaskedIs(lay, n, t, fi.ind, Rights(lay, Mults(lay)[q]), fi.b[q], fi.o2[q]);
  }

  /** An owner opens the masks of its gates. */
  lemma IOPolyIs(lay: Layout, n: nat, t: nat, fi: FIPolys, b: nat)
    requires IsPrime(P61) && Enough(lay, fi) && Sizes(n, lay.batchSize, t) && GoodFI(lay, n, fi) && b < |IOs(lay)|
    ensures |IOs(lay)[b].members| == lay.batchSize && MembersOf(lay, IOs(lay)[b].members)
    ensures |IOPoly(lay, fi, b)| <= n
    ensures forall j :: 0 <= j < lay.batchSize ==>
      At(IOPoly(lay, fi, b), Slot(j)) == MemberLambda(lay, fi.ind, IOs(lay)[b].members[j])
  {
    hide At, Slot, Fresh, Pack, IsPrime, F, MemberLambda, MemberPolys, MaskedPoly, Mults, WellFormed, Uniform, IOs;
    SizeOk(lay);
    IOBatchOk(lay, b);
    MaskedPolyIs(lay, fi.ind, IOs(lay)[b].members, fi.io[b], n, t);
  }
}
