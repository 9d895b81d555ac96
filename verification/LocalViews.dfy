/** What a party finds on each of its channels: the parts of the protocol in order, where each part
    begins, and how much of it has arrived when the party is about to send. */
module LocalViews {
  import opened Modular
  import opened Scl
  import opened Circuits
  import opened Sequences
  import opened PackedSharing
  import opened Dealing
  import opened Wiring
  import opened Preprocessing
  import opened Masking
  import opened Triples
  import opened Schedules
  import opened TurboSchedules
  import opened TurboWires
  import Parties
  import TurboPack

  // ---------------------------------------------------------------- parts of a channel

  /** Dealt sharings, masked products and their return, masked masks and their return, masks for the
      owners, masked inputs, the two directions of every layer, and masked outputs. */
  datatype Part = Deals | ToOpen | Opened | BatchMasks | Reshares | OwnerMasks | Ins | Mus(d: nat) | Replies(d: nat) | Outs

  function PartAt(p: nat, layers: nat): Part {
    if p == 0 then Deals else if p == 1 then ToOpen else if p == 2 then Opened else if p == 3 then BatchMasks
    else if p == 4 then Reshares else if p == 5 then OwnerMasks else if p == 6 then Ins
    else if p >= 7 + 2 * layers then Outs
    else if p % 2 == 1 then Mus((p - 7) / 2) else Replies((p - 8) / 2)
  }

  function Place(part: Part, layers: nat): nat {
    match part
    case Deals => 0 case ToOpen => 1 case Opened => 2 case BatchMasks => 3
    case Reshares => 4 case OwnerMasks => 5 case Ins => 6
    case Mus(d) => 7 + 2 * d case Replies(d) => 8 + 2 * d
    case Outs => 7 + 2 * layers
  }

  predicate Occurs(part: Part, layers: nat) {
    (part.Mus? ==> part.d < layers) && (part.Replies? ==> part.d < layers)
  }

  lemma PlaceIs(part: Part, layers: nat)
    requires Occurs(part, layers)
    ensures PartAt(Place(part, layers), layers) == part && Place(part, layers) < 8 + 2 * layers
  {
  }

  lemma PartOccurs(p: nat, layers: nat)
    requires p < 8 + 2 * layers
    ensures Occurs(PartAt(p, layers), layers) && Place(PartAt(p, layers), layers) == p
  {
  }

  /** How many products of factors there are. */
  function Factors(lay: Layout): nat
    requires lay.batchSize > 0
  {
    lay.batchSize * |Mults(lay)|
  }

  /** How much one part puts on the channel from a to i. */
  function PartLen(lay: Layout, t: nat, a: nat, i: nat, part: Part): nat
    requires lay.batchSize > 0
  {
    match part
    case Deals => TurboSchedules.Dealt(lay, t)
    case ToOpen => if i == 0 then Factors(lay) else 0
    case Opened => if a == 0 && i >= t then Factors(lay) else 0
    case BatchMasks => if i == 0 then 2 * |Mults(lay)| else 0
    case Reshares => if a == 0 then 2 * |Mults(lay)| else 0
    case OwnerMasks => Count(Owners(lay), i)
    case Ins => if i == 0 then |Ids(lay.gates, InputOf(a))| else 0
    case Mus(d) => if a == 0 && d < |lay.mults| then 2 * |Layer(lay, d)| else 0
    case Replies(d) => if i == 0 && d < |lay.mults| then |Layer(lay, d)| else 0
    case Outs => if a == 0 then |Ids(lay.gates, OutputOf(i))| else 0
  }

  /** Where the p-th part begins. */
  function Offset(lay: Layout, t: nat, a: nat, i: nat, p: nat): nat
    requires lay.batchSize > 0
  {
    if p == 0 then 0 else Offset(lay, t, a, i, p - 1) + PartLen(lay, t, a, i, PartAt(p - 1, |lay.mults|))
  }

  // ---------------------------------------------------------------- a channel is its parts

  /** A run of the protocol: circuit, threshold, everyone's draws and everyone's inputs. */
  datatype Game = Game(lay: Layout, t: nat, draws: seq<Draws>, inputs: seq<seq<int>>)

  ghost predicate Played(s: Game) {
    TurboPack.ProperRun(s.lay, s.t, s.draws, s.inputs) && s.lay.batchSize > 0 && s.lay.clients > 0
  }

  ghost function Fi(s: Game): (fi: FIPolys)
    requires Played(s)
    ensures Enough(s.lay, fi) && Setting(s.lay, fi, s.inputs)
  {
    TurboPack.FiOf(s.lay, s.t, s.draws)
  }

  function Am(s: Game): Amounts
    requires s.lay.batchSize > 0
  {
    TurboPack.AmountsOf(s.lay, s.t)
  }

  ghost function FullWire(s: Game): Wires
    requires Played(s)
  {
    TurboWire(s.lay, s.t, s.draws, s.inputs)
  }

  lemma PlayedFacts(s: Game)
    requires Played(s)
    ensures s.lay.batchSize > 0 && s.lay.clients > 0 && WellFormed(s.lay) && Matches(s.lay, s.inputs) && IsPrime(P61)
    ensures AllDrawn(Am(s), s.draws) && |s.draws| == s.lay.clients && |s.inputs| == s.lay.clients
    ensures Sizes(s.lay.clients, s.lay.batchSize, s.t)
    ensures Fi(s) == Preprocessed(Am(s), s.draws) && GoodFI(s.lay, s.lay.clients, Fi(s))
    ensures FullWire(s) == TurboWire(s.lay, s.t, s.draws, s.inputs)
  {
    hide IsPrime, WellFormed, Mults, IOs, Fresh, GoodFI, Preprocessed, Drawn, TurboWire;
    PreprocessedGood(s.lay, Am(s), s.draws);
  }

  /** What one part puts on the channel from a to i. */
  ghost function PartWire(s: Game, a: nat, i: nat, part: Part): seq<int>
    requires Played(s) && a < s.lay.clients
  {
    PlayedFacts(s);
    match part
    case Deals => DealWire(Am(s), s.draws, a, i)
    case ToOpen => if i == 0 then Msgs(Flatten(Triples.Prods(Am(s), s.draws)), a + 1) else []
    case Opened => if a == 0 && i >= s.t then Msgs(Flatten(Triples.Backs(Am(s), s.draws)), i + 1) else []
    case BatchMasks => if i == 0 then Msgs(MaskList(s.lay, Fi(s)), a + 1) else []
    case Reshares => if a == 0 then Msgs(ReshareList(s.lay, Fi(s)), i + 1) else []
    case OwnerMasks => Msgs(Mine(IOs(s.lay), IOList(s.lay, Fi(s)), i), a + 1)
    case Ins => if i == 0 then MaskedWire(s.lay, Fi(s), s.inputs, true, a) else []
    case Mus(d) => if a == 0 && d < |s.lay.mults| then Msgs(MuList(s.lay, Fi(s), s.inputs, d), i + 1) else []
    case Replies(d) => if i == 0 && d < |s.lay.mults| then Msgs(ProductList(s.lay, Fi(s), s.inputs, d), a + 1) else []
    case Outs => if a == 0 then MaskedWire(s.lay, Fi(s), s.inputs, false, i) else []
  }

  /** The first p parts. */
  ghost function Joined(s: Game, a: nat, i: nat, p: nat): (r: seq<int>)
    requires Played(s) && a < s.lay.clients
  {
    if p == 0 then [] else Joined(s, a, i, p - 1) + PartWire(s, a, i, PartAt(p - 1, |s.lay.mults|))
  }

  lemma JoinedStep(s: Game, a: nat, i: nat, p: nat)
    requires Played(s) && a < s.lay.clients
    ensures Joined(s, a, i, p + 1) == Joined(s, a, i, p) + PartWire(s, a, i, PartAt(p, |s.lay.mults|))
    ensures Joined(s, a, i, 0) == []
  {
    hide PartWire, PartAt, Played;
  }

  lemma PartLength(s: Game, a: nat, i: nat, part: Part)
    requires Played(s) && a < s.lay.clients && i < s.lay.clients
    ensures |PartWire(s, a, i, part)| == PartLen(s.lay, s.t, a, i, part)
  {
    hide WellFormed, AllDrawn, Matches, Msgs, Mults, IOs, Fresh, Ids, Preprocessed, Triples.Prods, Triples.Backs, MaskList, ReshareList, IOList, Mine,
      TurboSchedules.Dealt, Owners, Flatten, TurboPack.Outbox, Count, Layer, MuList, ProductList, IsPrime, Played, Fi, GoodFI;
    PlayedFacts(s);
    DrawnOne(s.lay, s.t, s.draws, a);
    DealtAgrees(s.lay, s.t, s.draws[a]);
    ProductsAgree(s.lay, s.t, s.draws);
    PreparationAgrees(s.lay, Fi(s), i);
  }

  lemma {:induction false} JoinedLength(s: Game, a: nat, i: nat, p: nat)
    requires Played(s) && a < s.lay.clients && i < s.lay.clients
    ensures |Joined(s, a, i, p)| == Offset(s.lay, s.t, a, i, p)
  {
    hide PartWire, PartAt, Played, PartLen;
    if p > 0 {
      JoinedLength(s, a, i, p - 1);
      PartLength(s, a, i, PartAt(p - 1, |s.lay.mults|));
    }
  }

  lemma Regroup(a: seq<int>, b: seq<int>, c: seq<int>, d: seq<int>, e: seq<int>, f: seq<int>, g: seq<int>)
    ensures [] + a + b + c + d + e + f + g == a + (b + c) + (d + e + f) + g
  {
  }

  lemma FirstParts(s: Game, a: nat, i: nat)
    requires Played(s) && a < s.lay.clients
    ensures AllDrawn(Am(s), s.draws) && a < |s.draws|
    ensures Joined(s, a, i, 7) ==
        DealWire(Am(s), s.draws, a, i) + ProductsWire(Am(s), s.draws, a, i) + PreparationWire(s.lay, Fi(s), a, i)
          + if i == 0 then MaskedWire(s.lay, Fi(s), s.inputs, true, a) else []
  {
    hide DealWire, Msgs, MaskedWire, MaskList, ReshareList, IOList, Mine, Mults, IOs, Triples.Prods, Triples.Backs,
      Joined, AllDrawn, Enough, Setting, Matches, IsPrime, WellFormed, Flatten, Played, Fi, GoodFI, Preprocessed, Fresh;
    PlayedFacts(s);
    JoinedStep(s, a, i, 0);
    JoinedStep(s, a, i, 1);
    JoinedStep(s, a, i, 2);
    JoinedStep(s, a, i, 3);
    JoinedStep(s, a, i, 4);
    JoinedStep(s, a, i, 5);
    JoinedStep(s, a, i, 6);
    Regroup(PartWire(s, a, i, Deals), PartWire(s, a, i, ToOpen), PartWire(s, a, i, Opened), PartWire(s, a, i, BatchMasks),
            PartWire(s, a, i, Reshares), PartWire(s, a, i, OwnerMasks), PartWire(s, a, i, Ins));
  }

  lemma {:induction false} LayerParts(s: Game, a: nat, i: nat, d: nat)
    requires Played(s) && a < s.lay.clients && d <= |s.lay.mults|
    ensures Joined(s, a, i, 7 + 2 * d) == Joined(s, a, i, 7) + LayersWire(s.lay, Fi(s), s.inputs, d, a, i)
  {
    hide Joined, Played, Fi, Setting, PartWire, PartAt, LayersWire;
    if d == 0 {
      NoLayers(s, a, i);
    } else {
      LayerParts(s, a, i, d - 1);
      JoinedStep(s, a, i, 5 + 2 * d);
      JoinedStep(s, a, i, 6 + 2 * d);
      LayerNext(s, a, i, d);
      var x, l := Joined(s, a, i, 7), LayersWire(s.lay, Fi(s), s.inputs, d - 1, a, i);
      var mu, re := PartWire(s, a, i, Mus(d - 1)), PartWire(s, a, i, Replies(d - 1));
      assert x + l + mu + re == x + (l + (mu + re));
    }
  }

  lemma NoLayers(s: Game, a: nat, i: nat)
    requires Played(s)
    ensures LayersWire(s.lay, Fi(s), s.inputs, 0, a, i) == []
  {
    hide Played, Fi, Setting, Msgs, MuList, ProductList;
  }

  lemma LayerNext(s: Game, a: nat, i: nat, d: nat)
    requires Played(s) && a < s.lay.clients && 0 < d <= |s.lay.mults|
    ensures PartAt(5 + 2 * d, |s.lay.mults|) == Mus(d - 1) && PartAt(6 + 2 * d, |s.lay.mults|) == Replies(d - 1)
    ensures LayersWire(s.lay, Fi(s), s.inputs, d, a, i) ==
      LayersWire(s.lay, Fi(s), s.inputs, d - 1, a, i) + (PartWire(s, a, i, Mus(d - 1)) + PartWire(s, a, i, Replies(d - 1)))
  {
    hide Played, Fi, Setting, Msgs, MuList, ProductList;
    PlaceIs(Mus(d - 1), |s.lay.mults|);
    PlaceIs(Replies(d - 1), |s.lay.mults|);
  }

  lemma WireIsParts(s: Game, a: nat, i: nat)
    requires Played(s) && a < s.lay.clients
    ensures FullWire(s)(a, i) == Joined(s, a, i, 8 + 2 * |s.lay.mults|)
  {
    hide DealWire, ProductsWire, PreparationWire, MaskedWire, LayersWire, Joined, Played, Fi, IsPrime, WellFormed, AllDrawn, Matches, GoodFI, Preprocessed, Mults, IOs, Fresh;
    PlayedFacts(s);
    FirstParts(s, a, i);
    LayerParts(s, a, i, |s.lay.mults|);
    JoinedStep(s, a, i, 7 + 2 * |s.lay.mults|);
  }

  // ---------------------------------------------------------------- reading a part

  /** Everything that has come from each party. */
  type Inbox = nat -> seq<int>

  function Entry(xs: seq<int>, k: nat): int {
    if k < |xs| then xs[k] else 0
  }

  /** The x-th value of a part from a. */
  function Got(lay: Layout, t: nat, i: nat, box: Inbox, a: nat, part: Part, x: nat): int
    requires lay.batchSize > 0
  {
    Entry(box(a), Offset(lay, t, a, i, Place(part, |lay.mults|)) + x)
  }

  /** Party i has got the first p parts from everyone, and r more values. */
  ghost predicate Reached(s: Game, i: nat, box: Inbox, p: nat, r: nat)
    requires Played(s)
  {
    forall a: nat :: a < s.lay.clients ==> box(a) <= FullWire(s)(a, i) && Offset(s.lay, s.t, a, i, p) + r <= |box(a)|
  }

  lemma {:induction false} JoinedPrefix(s: Game, a: nat, i: nat, p: nat, q: nat)
    requires Played(s) && a < s.lay.clients && i < s.lay.clients && p <= q
    ensures Joined(s, a, i, p) <= Joined(s, a, i, q) && Offset(s.lay, s.t, a, i, p) <= Offset(s.lay, s.t, a, i, q)
  {
    hide PartWire, PartAt, Played, PartLen;
    if p < q {
      JoinedPrefix(s, a, i, p, q - 1);
    }
  }

  /** The values of a part stand on the channel from its offset on. */
  lemma WireAt(s: Game, a: nat, i: nat, part: Part, x: nat)
    requires Played(s) && i < s.lay.clients && a < s.lay.clients && s.lay.batchSize > 0
    requires Occurs(part, |s.lay.mults|) && x < PartLen(s.lay, s.t, a, i, part)
    ensures x < |PartWire(s, a, i, part)|
    ensures var at := Place(part, |s.lay.mults|);
      && Offset(s.lay, s.t, a, i, at) + x < Offset(s.lay, s.t, a, i, at + 1)
      && Offset(s.lay, s.t, a, i, at) + x < |FullWire(s)(a, i)|
      && FullWire(s)(a, i)[Offset(s.lay, s.t, a, i, at) + x] == PartWire(s, a, i, part)[x]
  {
    hide PartWire, PartAt, Played, PartLen, Joined, Offset, FullWire, WellFormed, Matches, IsPrime, AllDrawn, GoodFI, Preprocessed;
    var at := Place(part, |s.lay.mults|);
    PlaceIs(part, |s.lay.mults|);
    PartLength(s, a, i, part);
    JoinedStep(s, a, i, at);
    JoinedLength(s, a, i, at);
    JoinedLength(s, a, i, at + 1);
    JoinedPrefix(s, a, i, at + 1, 8 + 2 * |s.lay.mults|);
    WireIsParts(s, a, i);
    var k := Offset(s.lay, s.t, a, i, at) + x;
    assert FullWire(s)(a, i)[k] == Joined(s, a, i, at + 1)[k];
  }

  /** What is read is what was sent. */
  lemma GotIs(s: Game, i: nat, box: Inbox, p: nat, r: nat, a: nat, part: Part, x: nat)
    requires Played(s) && i < s.lay.clients && a < s.lay.clients && Reached(s, i, box, p, r)
    requires Occurs(part, |s.lay.mults|) && x < PartLen(s.lay, s.t, a, i, part)
    requires Place(part, |s.lay.mults|) < p || (Place(part, |s.lay.mults|) == p && x < r)
    ensures x < |PartWire(s, a, i, part)|
    ensures Got(s.lay, s.t, i, box, a, part, x) == PartWire(s, a, i, part)[x]
  {
    hide *;
    ReachedOne(s, i, box, p, r, a);
    var at := Place(part, |s.lay.mults|);
    WireAt(s, a, i, part, x);
    if at < p {
      JoinedPrefix(s, a, i, at + 1, p);
    }
    GotThere(s, i, box, a, part, x);
  }

  lemma ReachedOne(s: Game, i: nat, box: Inbox, p: nat, r: nat, a: nat)
    requires Played(s) && a < s.lay.clients && Reached(s, i, box, p, r)
    ensures s.lay.batchSize > 0 && box(a) <= FullWire(s)(a, i) && Offset(s.lay, s.t, a, i, p) + r <= |box(a)|
  {
    hide FullWire, Offset, TurboPack.ProperRun;
  }

  lemma GotThere(s: Game, i: nat, box: Inbox, a: nat, part: Part, x: nat)
    requires Played(s) && s.lay.batchSize > 0 && box(a) <= FullWire(s)(a, i)
    requires Offset(s.lay, s.t, a, i, Place(part, |s.lay.mults|)) + x < |box(a)|
    ensures Got(s.lay, s.t, i, box, a, part, x) == FullWire(s)(a, i)[Offset(s.lay, s.t, a, i, Place(part, |s.lay.mults|)) + x]
  {
    hide FullWire, Offset, Played, Place;
  }

  // ---------------------------------------------------------------- where a message belongs

  /** The part to which the q-th value on the channel belongs, among the first p parts. */
  function PlaceOf(lay: Layout, t: nat, a: nat, i: nat, q: nat, p: nat): (r: nat)
    requires lay.batchSize > 0
    ensures Offset(lay, t, a, i, r) <= q && r <= p
    ensures q < Offset(lay, t, a, i, p) ==> r < p && q < Offset(lay, t, a, i, r + 1)
  {
    if p == 0 then 0
    else if Offset(lay, t, a, i, p - 1) <= q then (if Offset(lay, t, a, i, p) <= q then p else p - 1)
    else PlaceOf(lay, t, a, i, q, p - 1)
  }

  /** The receipts from a among what a party has received. */
  function FromParty(ops: seq<Op>, got: seq<int>, a: nat): seq<int>
    decreases |ops|
  {
    if ops == [] then []
    else
      match ops[|ops| - 1]
      case Send(_) => FromParty(ops[..|ops| - 1], got, a)
      case Recv(j) =>
        if got == [] then []
        else FromParty(ops[..|ops| - 1], got[..|got| - 1], a) + if j == a then [got[|got| - 1]] else []
  }

  lemma {:induction false} FromPartyIs(prog: Programs, w: Wires, i: nat, p: nat, a: nat)
    requires i < |prog| && p <= |prog[i]| && Recvs(prog[i][..p], a) <= |w(a, i)|
    ensures FromParty(prog[i][..p], Received(prog, w, i, p), a) == w(a, i)[..Recvs(prog[i][..p], a)]
  {
    hide Recvs;
    if p == 0 {
      NoRecvs(a);
    } else {
      var ops := prog[i][..p];
      assert ops[..|ops| - 1] == prog[i][..p - 1] && ops[|ops| - 1] == prog[i][p - 1];
      Schedules.OneMore(prog[i], p - 1, a);
      FromPartyIs(prog, w, i, p - 1, a);
      ReceivedStep(prog, w, i, p - 1);
      match prog[i][p - 1] {
        case Send(_) =>
          assert Received(prog, w, i, p) == Received(prog, w, i, p - 1);
        case Recv(j) =>
          var before, all := Received(prog, w, i, p - 1), Received(prog, w, i, p);
          assert all[..|all| - 1] == before;
      }
    }
  }

  lemma NoRecvs(a: nat)
    ensures Recvs([], a) == 0
  {
  }

  // ---------------------------------------------------------------- how far a party has come

  /** What has come when the stages of a prefix are done. */
  lemma RecvsAre(stages: seq<Stage>, n: nat, i: nat, a: nat)
    requires Wide(stages, n) && i < n && a < n
    ensures Recvs(Program(stages, i), a) == StageSends(stages, n, a, i) - Held(stages, a, i)
  {
    hide Program, Held, Sends, Recvs;
    HeldIs(stages, a, i);
  }

  /** A party that sends the q-th value to j has done the stages that send at most q values to j. */
  lemma PastPrefix(front: seq<Stage>, back: seq<Stage>, n: nat, i: nat, p: nat, a: nat)
    requires Wide(front, n) && Wide(back, n) && i < n && p < |Program(front + back, i)| && Program(front + back, i)[p].Send?
    requires var ops := Program(front + back, i); StageSends(front, n, i, ops[p].to) <= Sends(ops[..p], ops[p].to)
    ensures Recvs(Program(front, i), a) <= Recvs(Program(front + back, i)[..p], a)
  {
    hide Program, Sends, Recvs;
    var ops, m := Program(front + back, i), |Program(front, i)|;
    ProgramConcat(front, back, n, i);
    assert ops[..m] == Program(front, i);
    if p < m {
      var j := ops[p].to;
      Schedules.OneMore(ops, p, j);
      SendsGrow(ops, p + 1, m, j);
      assert false;
    }
    SendsGrow(ops, m, p, a);
  }
}
