/** What a party computes from its own receipts about the masks of wires: its shares of them, what P1 deals
    again, and the masks of its own gates. */
module LocalMasks {
  import opened Modular
  import opened Poly
  import opened Scl
  import opened Sequences
  import opened PackedSharing
  import opened Dealing
  import opened Circuits
  import opened Wiring
  import opened Preprocessing
  import opened Masking
  import opened Triples
  import opened LocalViews
  import opened LocalShares
  import TurboPack
  import Parties

  // ---------------------------------------------------------------- shares of wires

  /** The share of the mask of gate g, from the individual shares. */
  function WireShare(v: View, g: nat): int
    requires WellFormed(v.lay) && v.lay.batchSize > 0 && g < |v.lay.gates|
    decreases g
  {
    match v.lay.gates[g]
    case InputGate(_) => FreshHas(v.lay, g); IndShare(v, Position(Fresh(v.lay), g))
    case MultGate(_, _) => FreshHas(v.lay, g); IndShare(v, Position(Fresh(v.lay), g))
    case AddGate(l, r) =>
      Add(if v.lay.gates[l].OutputGate? then F(0) else WireShare(v, l), if v.lay.gates[r].OutputGate? then F(0) else WireShare(v, r))
    case OutputGate(_, src) => WireShare(v, src)
  }

  lemma {:induction false} WireShareIs(s: Game, v: View, p: nat, r: nat, g: nat)
    requires Sees(s, v, p, r) && p >= 1 && g < |s.lay.gates|
    ensures WellFormed(s.lay) && Enough(s.lay, Fi(s))
    ensures WireShare(v, g) == At(WirePoly(s.lay, Fi(s).ind, g), v.id + 1)
    decreases g
  {
    hide IsPrime, Matches, GoodFI, FullWire, Played, Fi, Mults, IOs, Fresh, AllDrawn, At, Reached, IndShare, F, Preprocessed, Sizes, AddP, TermPoly, Add;
    PlayedFacts(s);
    var ind, x := Fi(s).ind, v.id + 1;
    match s.lay.gates[g] {
      case InputGate(_) =>
        FreshHas(s.lay, g);
        IndShareIs(s, v, p, r, Position(Fresh(s.lay), g));
      case MultGate(_, _) =>
        FreshHas(s.lay, g);
        IndShareIs(s, v, p, r, Position(Fresh(s.lay), g));
      case OutputGate(_, src) =>
        WireShareIs(s, v, p, r, src);
      case AddGate(a, b) =>
        WireShareIs(s, v, p, r, a);
        WireShareIs(s, v, p, r, b);
        SumPoly(s.lay, ind, g);
        TermIs(s.lay, ind, a, x);
        TermIs(s.lay, ind, b, x);
        AtAdd(TermPoly(s.lay, ind, a), TermPoly(s.lay, ind, b), x);
    }
  }

  function MemberShare(v: View, m: Member): int
    requires WellFormed(v.lay) && v.lay.batchSize > 0
  {
    if m.Real? && m.id < |v.lay.gates| then WireShare(v, m.id) else F(0)
  }

  /** The packed share of the masks of a batch. */
  function BatchShare(v: View, ms: seq<Member>): int
    requires WellFormed(v.lay) && v.lay.batchSize > 0
  {
    if |ms| != v.lay.batchSize then 0 else PackedRow(v, seq(|ms|, i requires 0 <= i < |ms| => MemberShare(v, ms[i])))
  }

  lemma BatchShareIs(s: Game, v: View, p: nat, r: nat, ms: seq<Member>)
    requires Sees(s, v, p, r) && p >= 1 && |ms| == s.lay.batchSize && MembersOf(s.lay, ms)
    ensures WellFormed(s.lay) && Enough(s.lay, Fi(s))
    ensures BatchShare(v, ms) == At(Pack(|ms|, MemberPolys(s.lay, Fi(s).ind, ms)), v.id + 1)
  {
    hide IsPrime, Matches, GoodFI, FullWire, Played, Fi, Mults, IOs, Fresh, AllDrawn, At, Reached, F, Preprocessed, Sizes, WireShare, WirePoly, Dot, Units, WellFormed, Pack;
    PlayedFacts(s);
    var polys, row, x := MemberPolys(s.lay, Fi(s).ind, ms), seq(|ms|, i requires 0 <= i < |ms| => MemberShare(v, ms[i])), v.id + 1;
    forall i | 0 <= i < |ms| ensures row[i] == At(polys[i], x) {
      match ms[i] {
        case Real(g) => WireShareIs(s, v, p, r, g);
        case Padding => AtZero(x);
      }
    }
    assert row == Msgs(polys, x);
    PackShare(|ms|, polys, Msgs(Units(|ms|), x), row, x);
  }

  // ---------------------------------------------------------------- batches of multiplications

  /** The packed masks of one side of a batch, plus a factor and a zero. */
  function MaskMsg(v: View, z: nat): int
    requires WellFormed(v.lay) && v.lay.batchSize > 0
  {
    var m, q := |Mults(v.lay)|, z / 2;
    if q >= m then 0
    else if z % 2 == 0 then Add(BatchShare(v, Lefts(v.lay, Mults(v.lay)[q])), Add(TripleA(v, q), ZeroShare(v, q)))
    else Add(BatchShare(v, Rights(v.lay, Mults(v.lay)[q])), Add(TripleB(v, q), ZeroShare(v, m + q)))
  }

  lemma MaskMsgIs(s: Game, v: View, p: nat, r: nat, z: nat)
    requires Sees(s, v, p, r) && p >= 1 && z < 2 * |Mults(s.lay)|
    ensures z < |MaskList(s.lay, Fi(s))| && WellFormed(s.lay)
    ensures MaskMsg(v, z) == At(MaskList(s.lay, Fi(s))[z], v.id + 1)
  {
    hide IsPrime, Matches, GoodFI, FullWire, Played, Fi, Mults, IOs, Fresh, AllDrawn, At, Reached, F, Sizes, WellFormed, BatchShare, TripleA, TripleB, ZeroShare, Add, AddP, Pack, MemberPolys, Inds, Zs, Fa, Fb, Fc, Lefts, Rights, PackAll;
    PlayedFacts(s);
    var fi, q, x := Fi(s), z / 2, v.id + 1;
    BatchOk(s.lay, fi, q);
    Parties.BatchSize(s.lay, fi, q);
    TripleIs(s, v, p, r, q);
    if z % 2 == 0 {
      ZeroShareIs(s, v, p, r, q);
      SideIs(s, v, p, r, Lefts(s.lay, Mults(s.lay)[q]), fi.a[q], fi.o1[q]);
    } else {
      ZeroShareIs(s, v, p, r, |Mults(s.lay)| + q);
      SideIs(s, v, p, r, Rights(s.lay, Mults(s.lay)[q]), fi.b[q], fi.o2[q]);
    }
  }

  lemma SideIs(s: Game, v: View, p: nat, r: nat, ms: seq<Member>, a: Coeffs, o: Coeffs)
    requires Sees(s, v, p, r) && p >= 1 && |ms| == s.lay.batchSize && MembersOf(s.lay, ms)
    ensures WellFormed(s.lay) && Enough(s.lay, Fi(s))
    ensures Add(BatchShare(v, ms), Add(At(a, v.id + 1), At(o, v.id + 1))) == At(MaskedPoly(s.lay, Fi(s).ind, ms, AddP(a, o)), v.id + 1)
  {
    hide IsPrime, Matches, GoodFI, FullWire, Played, Fi, Mults, IOs, Fresh, AllDrawn, At, Reached, F, Sizes, WellFormed, BatchShare, Add, AddP, Pack, MemberPolys, Preprocessed;
    PlayedFacts(s);
    BatchShareIs(s, v, p, r, ms);
    AtAdd(a, o, v.id + 1);
    AtAdd(Pack(|ms|, MemberPolys(s.lay, Fi(s).ind, ms)), AddP(a, o), v.id + 1);
  }

  /** What P1 opens from one row of received values. */
  function OpenedRow(v: View, part: Part, z: nat): (r: seq<int>)
    requires v.lay.batchSize > 0 && v.lay.clients > 0
    ensures |r| == v.lay.batchSize
  {
    seq(v.lay.batchSize, j requires 0 <= j => Rebuilt(Row(v, part, z), Slot(j)))
  }

  /** A share of the same values, dealt again with degree k - 1. */
  function PackedMsg(values: seq<int>, c: nat): int
    requires |values| > 0
  {
    At(Coefs(Packed(values, |values| - 1, [])), c + 1)
  }

  /** Shares of one polynomial from everyone open its values at the slots. */
  lemma OpenedRowIs(s: Game, v: View, part: Part, z: nat, c: Coeffs)
    requires Played(s) && v.lay == s.lay && |c| <= s.lay.clients && s.lay.batchSize > 0 && s.lay.clients > 0
    requires forall a :: 0 <= a < s.lay.clients ==> Row(v, part, z)[a] == At(c, a + 1)
    ensures OpenedRow(v, part, z) == SlotValues(c, s.lay.batchSize)
  {
    hide IsPrime, Matches, GoodFI, FullWire, Played, Fi, Mults, IOs, Fresh, AllDrawn, At, F, Sizes, WellFormed, Preprocessed, Row, Rebuilt, Slot;
    PlayedFacts(s);
    PartiesFit(s);
    forall j | 0 <= j < s.lay.batchSize ensures OpenedRow(v, part, z)[j] == SlotValues(c, s.lay.batchSize)[j] {
      RebuiltIs(c, Row(v, part, z), Slot(j));
    }
  }

  lemma ReshareMsgIs(s: Game, v: View, p: nat, r: nat, c: nat, z: nat)
    requires Sees(s, v, p, r) && v.id == 0 && z < 2 * |Mults(s.lay)| && (p > 3 || (p == 3 && z < r)) && s.lay.clients > 0
    ensures z < |ReshareList(s.lay, Fi(s))|
    ensures PackedMsg(OpenedRow(v, BatchMasks, z), c) == At(ReshareList(s.lay, Fi(s))[z], c + 1)
  {
    hide IsPrime, Matches, FullWire, Played, Fi, Mults, IOs, Fresh, AllDrawn, At, Reached, F, WellFormed, Preprocessed, Row, OpenedRow, Coefs, Packed, MaskedA, MaskedB, GoodFI, Sizes;
    PlayedFacts(s);
    var poly := MaskList(s.lay, Fi(s))[z];
    MaskListLengths(s.lay, s.lay.clients, s.t, Fi(s), z);
    MaskRow(s, v, p, r, z);
    OpenedRowIs(s, v, BatchMasks, z, poly);
  }

  lemma MaskRow(s: Game, v: View, p: nat, r: nat, z: nat)
    requires Sees(s, v, p, r) && v.id == 0 && z < 2 * |Mults(s.lay)| && (p > 3 || (p == 3 && z < r))
    ensures z < |MaskList(s.lay, Fi(s))|
    ensures forall a :: 0 <= a < s.lay.clients ==> Row(v, BatchMasks, z)[a] == At(MaskList(s.lay, Fi(s))[z], a + 1)
  {
    hide IsPrime, Matches, FullWire, Played, Fi, Mults, IOs, Fresh, AllDrawn, At, Reached, F, WellFormed, Preprocessed, Got, Offset, MaskedA, MaskedB, GoodFI, Sizes;
    PlayedFacts(s);
    forall a | 0 <= a < s.lay.clients ensures Row(v, BatchMasks, z)[a] == At(MaskList(s.lay, Fi(s))[z], a + 1) {
      GotIs(s, v.id, v.box, p, r, a, BatchMasks, z);
    }
  }

  // ---------------------------------------------------------------- masks for the owners

  /** The zero that belongs to an input or output batch. */
  function ZeroOf(lay: Layout, b: nat): nat
    requires lay.batchSize > 0
  {
    if b < 2 * |Mults(lay)| then b else |Mults(lay)| + b
  }

  /** This party's shares of the masks of all input and output batches. */
  function OwnerShares(v: View): (r: seq<int>)
    requires WellFormed(v.lay) && v.lay.batchSize > 0
    ensures |r| == |IOs(v.lay)|
  {
    seq(|IOs(v.lay)|, b requires 0 <= b < |IOs(v.lay)| =>
      Add(BatchShare(v, IOs(v.lay)[b].members), ZeroShare(v, ZeroOf(v.lay, b))))
  }

  /** The x-th of them that goes to party c. */
  function OwnerMsg(v: View, c: nat, x: nat): int
    requires WellFormed(v.lay) && v.lay.batchSize > 0
  {
    Entry(Mine(IOs(v.lay), OwnerShares(v), c), x)
  }

  lemma OwnerSharesAre(s: Game, v: View, p: nat, r: nat)
    requires Sees(s, v, p, r) && p >= 1
    ensures WellFormed(s.lay) && OwnerShares(v) == Msgs(IOList(s.lay, Fi(s)), v.id + 1)
  {
    hide IsPrime, Matches, GoodFI, FullWire, Played, Fi, Mults, IOs, Fresh, AllDrawn, At, Reached, F, Sizes, WellFormed, BatchShare, ZeroShare, Add, Preprocessed, IOPoly;
    PlayedFacts(s);
    forall b | 0 <= b < |IOs(s.lay)| ensures OwnerShares(v)[b] == At(IOPoly(s.lay, Fi(s), b), v.id + 1) {
      OwnerShareIs(s, v, p, r, b);
    }
  }

  lemma OwnerShareIs(s: Game, v: View, p: nat, r: nat, b: nat)
    requires Sees(s, v, p, r) && p >= 1 && b < |IOs(s.lay)|
    ensures WellFormed(s.lay)
    ensures Add(BatchShare(v, IOs(s.lay)[b].members), ZeroShare(v, ZeroOf(s.lay, b))) == At(IOPoly(s.lay, Fi(s), b), v.id + 1)
  {
    hide IsPrime, Matches, GoodFI, FullWire, Played, Fi, Mults, IOs, Fresh, AllDrawn, At, Reached, F, Sizes, WellFormed, BatchShare, ZeroShare, Add, AddP, Pack, MemberPolys, Inds, Fa, Fb, Fc, PackAll, Zs;
    PlayedFacts(s);
    IOBatchOk(s.lay, b);
    var ms := IOs(s.lay)[b].members;
    BatchShareIs(s, v, p, r, ms);
    ZeroShareIs(s, v, p, r, ZeroOf(s.lay, b));
    AtAdd(Pack(|ms|, MemberPolys(s.lay, Fi(s).ind, ms)), Fi(s).io[b], v.id + 1);
  }

  lemma {:induction false} MineMsgs(owners: seq<IOBatch>, cs: seq<Coeffs>, c: nat, x: int)
    requires |owners| == |cs|
    ensures Mine(owners, Msgs(cs, x), c) == Msgs(Mine(owners, cs, c), x)
  {
    hide At;
    if owners != [] {
      MineMsgs(owners[1..], cs[1..], c, x);
      assert Msgs(cs, x)[1..] == Msgs(cs[1..], x);
      if owners[0].owner == c {
        MsgsConcat([cs[0]], Mine(owners[1..], cs[1..], c), x);
        MsgsOne(cs[0], x);
      } else {
        assert [] + Mine(owners[1..], cs[1..], c) == Mine(owners[1..], cs[1..], c);
      }
    }
  }

  lemma OwnerMsgIs(s: Game, v: View, p: nat, r: nat, c: nat, x: nat)
    requires Sees(s, v, p, r) && p >= 1 && x < |Mine(IOs(s.lay), IOList(s.lay, Fi(s)), c)|
    ensures WellFormed(s.lay)
    ensures OwnerMsg(v, c, x) == At(Mine(IOs(s.lay), IOList(s.lay, Fi(s)), c)[x], v.id + 1)
  {
    hide IsPrime, Matches, GoodFI, FullWire, Played, Fi, Mults, IOs, Fresh, AllDrawn, At, Reached, F, Sizes, WellFormed, Preprocessed, IOList, OwnerShares, Mine;
    PlayedFacts(s);
    OwnerSharesAre(s, v, p, r);
    MineMsgs(IOs(s.lay), IOList(s.lay, Fi(s)), c, v.id + 1);
  }

  /** The members of the batches of party c. */
  function OwnBatches(lay: Layout, c: nat): seq<seq<Member>>
    requires lay.batchSize > 0
  {
    Mine(IOs(lay), MembersList(IOs(lay)), c)
  }

  function MembersList(batches: seq<IOBatch>): (r: seq<seq<Member>>)
    ensures |r| == |batches|
  {
    seq(|batches|, b requires 0 <= b < |batches| => batches[b].members)
  }

  /** The first row and place where a gate stands, or a row behind the last. */
  function FindRow(rows: seq<seq<Member>>, g: nat): (x: nat)
    ensures x <= |rows| && (x < |rows| ==> Real(g) in rows[x])
  {
    if rows == [] then 0 else if Real(g) in rows[0] then 0 else 1 + FindRow(rows[1..], g)
  }

  lemma {:induction false} FindRowFinds(rows: seq<seq<Member>>, g: nat, x: nat)
    requires x < |rows| && Real(g) in rows[x]
    ensures FindRow(rows, g) < |rows|
  {
    if x > 0 {
      FindRowFinds(rows[1..], g, x - 1);
    }
  }

  /** Entries of two lists that stand beside each other still do for one owner. */
  lemma {:induction false} MineBeside<T, U>(owners: seq<IOBatch>, cs: seq<T>, ds: seq<U>, c: nat, x: nat) returns (b: nat)
    requires |owners| == |cs| == |ds| && x < |Mine(owners, cs, c)|
    ensures |Mine(owners, ds, c)| == |Mine(owners, cs, c)|
    ensures b < |owners| && owners[b].owner == c && Mine(owners, cs, c)[x] == cs[b] && Mine(owners, ds, c)[x] == ds[b]
  {
    if owners[0].owner == c && x == 0 {
      b := 0;
      if |Mine(owners[1..], cs[1..], c)| > 0 {
        var e := MineBeside(owners[1..], cs[1..], ds[1..], c, 0);
      } else {
        MineNothing(owners[1..], cs[1..], ds[1..], c);
      }
    } else {
      var y := if owners[0].owner == c then x - 1 else x;
      b := MineBeside(owners[1..], cs[1..], ds[1..], c, y);
      b := b + 1;
    }
  }

  lemma {:induction false} MineNothing<T, U>(owners: seq<IOBatch>, cs: seq<T>, ds: seq<U>, c: nat)
    requires |owners| == |cs| == |ds| && |Mine(owners, cs, c)| == 0
    ensures |Mine(owners, ds, c)| == 0
  {
    if owners != [] {
      MineNothing(owners[1..], cs[1..], ds[1..], c);
    }
  }

  /** Whatever an owner has is in its list. */
  lemma {:induction false} MineHas<T>(owners: seq<IOBatch>, cs: seq<T>, c: nat, b: nat) returns (x: nat)
    requires |owners| == |cs| && b < |owners| && owners[b].owner == c
    ensures x < |Mine(owners, cs, c)| && Mine(owners, cs, c)[x] == cs[b]
  {
    if b == 0 {
      x := 0;
    } else {
      x := MineHas(owners[1..], cs[1..], c, b - 1);
      x := x + if owners[0].owner == c then 1 else 0;
    }
  }

  /** The mask of one of the party's own gates, opened. */
  function OwnMask(v: View, g: nat): int
    requires v.lay.batchSize > 0 && v.lay.clients > 0
  {
    var rows := OwnBatches(v.lay, v.id);
    var x := FindRow(rows, g);
    if x < |rows| then Rebuilt(Row(v, OwnerMasks, x), Slot(Position(rows[x], Real(g)))) else 0
  }

  lemma OwnMaskIs(s: Game, v: View, p: nat, r: nat, g: nat)
    requires Sees(s, v, p, r) && p >= 6 && s.lay.clients > 0
    requires g in Ids(s.lay.gates, InputOf(v.id)) || g in Ids(s.lay.gates, OutputOf(v.id))
    ensures g < |s.lay.gates| && WellFormed(s.lay) && Enough(s.lay, Fi(s))
    ensures OwnMask(v, g) == Lambda(s.lay, Fi(s).ind, g)
  {
    hide IsPrime, Matches, GoodFI, FullWire, Played, Fi, Mults, IOs, Fresh, AllDrawn, At, Reached, F, Sizes, WellFormed, Preprocessed, Row, Rebuilt, Slot, IOPoly, Ids, Mine, Lambda, IOList;
    PlayedFacts(s);
    PartiesFit(s);
    var rows, x, b := FoundRow(s, v.id, g);
    var ms := IOs(s.lay)[b].members;
    var j, poly := Position(ms, Real(g)), Mine(IOs(s.lay), IOList(s.lay, Fi(s)), v.id)[x];
    IOBatchOk(s.lay, b);
    IOPolyIs(s.lay, s.lay.clients, s.t, Fi(s), b);
    OwnerRow(s, v, p, r, x);
    RebuiltIs(poly, Row(v, OwnerMasks, x), Slot(j));
  }

  /** Where one of the party's gates stands among its own batches. */
  lemma FoundRow(s: Game, c: nat, g: nat) returns (rows: seq<seq<Member>>, x: nat, b: nat)
    requires Played(s) && c < s.lay.clients && s.lay.batchSize > 0
    requires g in Ids(s.lay.gates, InputOf(c)) || g in Ids(s.lay.gates, OutputOf(c))
    ensures g < |s.lay.gates| && rows == OwnBatches(s.lay, c) && x == FindRow(rows, g) < |rows|
    ensures x < |Mine(IOs(s.lay), IOList(s.lay, Fi(s)), c)| && b < |IOs(s.lay)| && rows[x] == IOs(s.lay)[b].members
    ensures Mine(IOs(s.lay), IOList(s.lay, Fi(s)), c)[x] == IOPoly(s.lay, Fi(s), b)
  {
    hide IsPrime, Matches, GoodFI, FullWire, Played, Fi, Mults, Fresh, AllDrawn, Sizes, WellFormed, Preprocessed, IOPoly, Ids, Mine, InputBatches, OutputBatches;
    PlayedFacts(s);
    var all := IOs(s.lay);
    var at, i;
    if g in Ids(s.lay.gates, InputOf(c)) {
      at, i := InputCovered(s.lay, c, g);
    } else {
      at, i := OutputCovered(s.lay, c, g);
    }
    IOBatchOk(s.lay, at);
    assert MemberOf(s.lay, all[at].members[i]);
    rows := OwnBatches(s.lay, c);
    var y := MineHas(all, MembersList(all), c, at);
    FindRowFinds(rows, g, y);
    x := FindRow(rows, g);
    b := MineBeside(all, MembersList(all), IOList(s.lay, Fi(s)), c, x);
  }

  lemma OwnerRow(s: Game, v: View, p: nat, r: nat, x: nat)
    requires Sees(s, v, p, r) && p >= 6 && x < |Mine(IOs(s.lay), IOList(s.lay, Fi(s)), v.id)|
    ensures forall a :: 0 <= a < s.lay.clients ==>
      Row(v, OwnerMasks, x)[a] == At(Mine(IOs(s.lay), IOList(s.lay, Fi(s)), v.id)[x], a + 1)
  {
    hide IsPrime, Matches, FullWire, Played, Fi, Mults, IOs, Fresh, AllDrawn, At, Reached, F, WellFormed, Preprocessed, Got, Offset, GoodFI, Sizes, IOList, Mine, PartLen;
    PlayedFacts(s);
    forall a | 0 <= a < s.lay.clients
      ensures Row(v, OwnerMasks, x)[a] == At(Mine(IOs(s.lay), IOList(s.lay, Fi(s)), v.id)[x], a + 1)
    {
      PartLength(s, a, v.id, OwnerMasks);
      GotIs(s, v.id, v.box, p, r, a, OwnerMasks, x);
    }
  }
}
