/** Additions that read output gates: when the mapping of masks assigns 0 to such a parent, and
    exactly for which circuits every wire still carries its cleartext value. */
module OutputSums {
  import opened Modular
  import opened Poly
  import opened Scl
  import opened Sequences
  import opened PackedSharing
  import opened Dealing
  import opened Circuits
  import opened Wiring
  import opened Preprocessing
  import opened Masking
  import opened Triples
  import opened Parties
  import opened TurboPack
  import Building

  // ---------------------------------------------------------------- masks as sums of fresh masks

  /** How often the mask of the f-th fresh gate counts in the mask of gate g. */
  function Paths(gates: seq<Gate>, firsts: seq<nat>, g: nat, f: nat): nat
    requires g < |gates|
    decreases g
  {
    match gates[g]
    case InputGate(_) => if f < |firsts| && firsts[f] == g then 1 else 0
    case MultGate(_, _) => if f < |firsts| && firsts[f] == g then 1 else 0
    case AddGate(l, r) =>
      (if l < g && !gates[l].OutputGate? then Paths(gates, firsts, l, f) else 0)
      + (if r < g && !gates[r].OutputGate? then Paths(gates, firsts, r, f) else 0)
    case OutputGate(_, s) => if s < g then Paths(gates, firsts, s, f) else 0
  }

  /** How often it is missing in an addition that reads outputs. */
  function Missing(gates: seq<Gate>, firsts: seq<nat>, g: nat, f: nat): nat
    requires g < |gates| && gates[g].AddGate?
  {
    var l, r := gates[g].left, gates[g].right;
    (if l < g && gates[l].OutputGate? then Paths(gates, firsts, l, f) else 0)
    + (if r < g && gates[r].OutputGate? then Paths(gates, firsts, r, f) else 0)
  }

  /** In each of the first m gates that is an addition, whatever is missing is a multiple of the modulus. */
  ghost predicate BalancedBelow(lay: Layout, m: nat) {
    forall g: nat, f: nat :: g < m && g < |lay.gates| && lay.gates[g].AddGate? && f < |Fresh(lay)| ==>
      F(Missing(lay.gates, Fresh(lay), g, f)) == 0
  }

  ghost predicate Balanced(lay: Layout) {
    BalancedBelow(lay, |lay.gates|)
  }

  /** Nothing is missing when no addition reads an output. */
  lemma PlainIsBalanced(lay: Layout)
    requires PlainSums(lay.gates)
    ensures Balanced(lay)
  {
    hide Fresh, Paths;
    ResSmall(P61, 0);
  }

  function PathRow(gates: seq<Gate>, firsts: seq<nat>, g: nat): (r: seq<int>)
    requires g < |gates|
    ensures |r| == |firsts|
  {
    seq(|firsts|, f requires 0 <= f => Paths(gates, firsts, g, f))
  }

  function MissingRow(gates: seq<Gate>, firsts: seq<nat>, g: nat): (r: seq<int>)
    requires g < |gates| && gates[g].AddGate?
    ensures |r| == |firsts|
  {
    seq(|firsts|, f requires 0 <= f => Missing(gates, firsts, g, f))
  }

  /** The masks of the fresh gates. */
  ghost function FreshMasks(lay: Layout, ind: seq<Coeffs>): (r: seq<int>)
    requires |Fresh(lay)| <= |ind|
    ensures |r| == |Fresh(lay)|
  {
    seq(|Fresh(lay)|, f requires 0 <= f < |Fresh(lay)| => At(ind[f], Slot(0)))
  }

  lemma {:induction false} DotAdd(a: seq<int>, b: seq<int>, c: seq<int>, v: seq<int>, m: nat)
    requires m <= |a| == |b| == |c| == |v| && forall i :: 0 <= i < |a| ==> c[i] == a[i] + b[i]
    ensures Dot(c, v, m) == Dot(a, v, m) + Dot(b, v, m)
  {
    if m > 0 {
      DotAdd(a, b, c, v, m - 1);
      Spread(a[m - 1], b[m - 1], v[m - 1]);
    }
  }

  lemma Spread(a: int, b: int, v: int)
    ensures (a + b) * v == a * v + b * v
  {
  }

  lemma {:induction false} DotNothing(e: seq<int>, v: seq<int>, m: nat)
    requires m <= |e| && m <= |v| && forall i :: 0 <= i < m ==> F(e[i]) == F(0)
    ensures F(Dot(e, v, m)) == F(0)
  {
    hide F;
    if m > 0 {
      DotNothing(e, v, m - 1);
      FOps(e[m - 1], v[m - 1], 0, v[m - 1]);
      FOps(Dot(e, v, m - 1), e[m - 1] * v[m - 1], 0, 0 * v[m - 1]);
    }
  }

  /** The mask of every gate is the sum of the masks that it counts. */
  lemma {:induction false} MaskIsSum(lay: Layout, ind: seq<Coeffs>, g: nat)
    requires WellFormed(lay) && |Fresh(lay)| <= |ind| && Nonempty(ind) && g < |lay.gates|
    ensures Lambda(lay, ind, g) == F(Dot(PathRow(lay.gates, Fresh(lay), g), FreshMasks(lay, ind), |Fresh(lay)|))
    decreases g
  {
    hide F, At, Slot, Fresh, Dot, Term, AddP;
    LambdaSteps(lay, ind, g);
    ParentsExist(lay, g);
    var firsts, v, m := Fresh(lay), FreshMasks(lay, ind), |Fresh(lay)|;
    match lay.gates[g] {
      case InputGate(_) => FreshIsSum(lay, ind, g);
      case MultGate(_, _) => FreshIsSum(lay, ind, g);
      case OutputGate(_, s) =>
        MaskIsSum(lay, ind, s);
        assert PathRow(lay.gates, firsts, g) == PathRow(lay.gates, firsts, s);
      case AddGate(l, r) =>
        MaskIsSum(lay, ind, l);
        MaskIsSum(lay, ind, r);
        TermIsSum(lay, ind, l);
        TermIsSum(lay, ind, r);
        var a, b := TermRow(lay.gates, firsts, l), TermRow(lay.gates, firsts, r);
        DotAdd(a, b, PathRow(lay.gates, firsts, g), v, m);
        FReduced(Dot(a, v, m), Dot(b, v, m));
    }
  }

  lemma FreshIsSum(lay: Layout, ind: seq<Coeffs>, g: nat)
    requires WellFormed(lay) && |Fresh(lay)| <= |ind| && Nonempty(ind) && g < |lay.gates|
    requires lay.gates[g].InputGate? || lay.gates[g].MultGate?
    ensures Lambda(lay, ind, g) == F(Dot(PathRow(lay.gates, Fresh(lay), g), FreshMasks(lay, ind), |Fresh(lay)|))
  {
    hide F, At, Slot, Fresh, Dot, WellFormed;
    var firsts, v, m := Fresh(lay), FreshMasks(lay, ind), |Fresh(lay)|;
    var row := PathRow(lay.gates, firsts, g);
    FreshHas(lay, g);
    var j := Position(firsts, g);
    forall i | 0 <= i < m ensures row[i] == if i == j then 1 else 0 {
      FreshPosition(lay, i);
    }
    DotUnit(row, v, m, j);
    AtIs(ind[j], Slot(0));
  }

  /** What an addition counts of a parent, and what it misses. */
  function TermRow(gates: seq<Gate>, firsts: seq<nat>, g: nat): (r: seq<int>)
    requires g < |gates|
    ensures |r| == |firsts|
  {
    seq(|firsts|, f requires 0 <= f => if gates[g].OutputGate? then 0 else Paths(gates, firsts, g, f))
  }

  function LostRow(gates: seq<Gate>, firsts: seq<nat>, g: nat): (r: seq<int>)
    requires g < |gates|
    ensures |r| == |firsts|
  {
    seq(|firsts|, f requires 0 <= f => if gates[g].OutputGate? then Paths(gates, firsts, g, f) else 0)
  }

  lemma TermIsSum(lay: Layout, ind: seq<Coeffs>, g: nat)
    requires WellFormed(lay) && |Fresh(lay)| <= |ind| && Nonempty(ind) && g < |lay.gates|
    requires Lambda(lay, ind, g) == F(Dot(PathRow(lay.gates, Fresh(lay), g), FreshMasks(lay, ind), |Fresh(lay)|))
    ensures Term(lay, ind, g) == F(Dot(TermRow(lay.gates, Fresh(lay), g), FreshMasks(lay, ind), |Fresh(lay)|))
    ensures (if lay.gates[g].OutputGate? then Lambda(lay, ind, g) else F(0)) ==
      F(Dot(LostRow(lay.gates, Fresh(lay), g), FreshMasks(lay, ind), |Fresh(lay)|))
  {
    hide F, At, Slot, Fresh, Dot, WellFormed, Lambda, Paths;
    var firsts, v, m := Fresh(lay), FreshMasks(lay, ind), |Fresh(lay)|;
    if lay.gates[g].OutputGate? {
      DotNothing(TermRow(lay.gates, firsts, g), v, m);
      assert LostRow(lay.gates, firsts, g) == PathRow(lay.gates, firsts, g);
    } else {
      DotNothing(LostRow(lay.gates, firsts, g), v, m);
      assert TermRow(lay.gates, firsts, g) == PathRow(lay.gates, firsts, g);
    }
  }

  // ---------------------------------------------------------------- the error of one addition

  /** An addition of right values is off by the masks of the outputs that it reads. */
  lemma AdditionError(lay: Layout, fi: FIPolys, inputs: seq<seq<int>>, g: nat)
    requires Setting(lay, fi, inputs) && g < |lay.gates| && lay.gates[g].AddGate?
    requires forall h :: 0 <= h < g ==> WireValue(lay, fi, inputs, h) == Clear(lay, inputs, h)
    ensures WireValue(lay, fi, inputs, g) ==
      Sub(Clear(lay, inputs, g), Dot(MissingRow(lay.gates, Fresh(lay), g), FreshMasks(lay, fi.ind), |Fresh(lay)|))
  {
    hide F, At, Slot, Fresh, Dot, Lambda, Paths, Clear, WireValue, IOs, Mults, Ids, Matches;
    WireSteps(lay, fi, inputs, g);
    ClearSum(lay, inputs, g);
    var l, r := lay.gates[g].left, lay.gates[g].right;
    var firsts, v, m := Fresh(lay), FreshMasks(lay, fi.ind), |Fresh(lay)|;
    MaskIsSum(lay, fi.ind, l);
    MaskIsSum(lay, fi.ind, r);
    TermIsSum(lay, fi.ind, l);
    TermIsSum(lay, fi.ind, r);
    var a, b := LostRow(lay.gates, firsts, l), LostRow(lay.gates, firsts, r);
    DotAdd(a, b, MissingRow(lay.gates, firsts, g), v, m);
    var x, y := Clear(lay, inputs, l), Clear(lay, inputs, r);
    Lose(Summand(lay, fi, l, x), x, Dot(a, v, m));
    Lose(Summand(lay, fi, r, y), y, Dot(b, v, m));
    SumLost(Summand(lay, fi, l, x), Summand(lay, fi, r, y), x, y, Dot(a, v, m), Dot(b, v, m));
  }

  lemma Lose(s: int, x: int, d: int)
    requires s == x - F(d) || (s == x && F(d) == F(0))
    ensures F(s) == F(x - d)
  {
    hide F;
    FF(d);
    if s == x - F(d) {
      FOps(x, F(d), x, d);
    } else {
      FOps(x, d, x, 0);
    }
  }

  lemma SumLost(s: int, u: int, x: int, y: int, d: int, e: int)
    requires F(s) == F(x - d) && F(u) == F(y - e)
    ensures F(s + u) == Sub(F(x + y), d + e)
  {
    hide F;
    FOps(s, u, x - d, y - e);
    FF(x + y);
    FOps(F(x + y), d + e, x + y, d + e);
    assert x - d + (y - e) == x + y - (d + e);
  }

  lemma ClearSum(lay: Layout, inputs: seq<seq<int>>, g: nat)
    requires WellFormed(lay) && Matches(lay, inputs) && g < |lay.gates| && lay.gates[g].AddGate?
    ensures lay.gates[g].left < g && lay.gates[g].right < g
    ensures Clear(lay, inputs, g) == F(Clear(lay, inputs, lay.gates[g].left) + Clear(lay, inputs, lay.gates[g].right))
  {
    hide F, Ids, Matches;
  }

  /** As long as nothing is missing, every wire carries its cleartext value. */
  lemma {:induction false} BalancedWires(lay: Layout, fi: FIPolys, inputs: seq<seq<int>>, m: nat)
    requires Setting(lay, fi, inputs) && m <= |lay.gates| && BalancedBelow(lay, m)
    ensures forall g :: 0 <= g < m ==> WireValue(lay, fi, inputs, g) == Clear(lay, inputs, g)
  {
    hide F, Fresh, Dot, Paths, Clear, WireValue, IOs, Mults, Ids, Matches, FreshMasks;
    if m > 0 {
      BalancedWires(lay, fi, inputs, m - 1);
      var g := m - 1;
      if lay.gates[g].AddGate? {
        var row, v, n := MissingRow(lay.gates, Fresh(lay), g), FreshMasks(lay, fi.ind), |Fresh(lay)|;
        FNone();
        DotNothing(row, v, n);
        AdditionError(lay, fi, inputs, g);
        var c := Clear(lay, inputs, g);
        FOps(c, Dot(row, v, n), c, 0);
        ClearCanon(lay, inputs, g);
      } else {
        OtherWire(lay, fi, inputs, g);
      }
    }
  }

  lemma Canonical(c: int)
    requires 0 <= c < P61
    ensures F(c) == c
  {
    ResSmall(P61, c);
  }

  lemma FNone()
    ensures F(0) == 0
  {
    ResSmall(P61, 0);
  }

  lemma ClearCanon(lay: Layout, inputs: seq<seq<int>>, g: nat)
    requires WellFormed(lay) && Matches(lay, inputs) && g < |lay.gates|
    ensures F(Clear(lay, inputs, g)) == Clear(lay, inputs, g)
  {
    hide Ids, Clear, Matches;
    ResSmall(P61, Clear(lay, inputs, g));
  }

  lemma OtherWire(lay: Layout, fi: FIPolys, inputs: seq<seq<int>>, g: nat)
    requires Setting(lay, fi, inputs) && g < |lay.gates| && !lay.gates[g].AddGate?
    requires forall h :: 0 <= h < g ==> WireValue(lay, fi, inputs, h) == Clear(lay, inputs, h)
    ensures WireValue(lay, fi, inputs, g) == Clear(lay, inputs, g)
  {
    hide F, Fresh, IOs, Mults, Ids;
  }

  // ---------------------------------------------------------------- randomness that shows the error

  /** The first addition that misses something. */
  lemma {:induction false} FirstMissing(lay: Layout, m: nat) returns (g: nat, f: nat)
    requires m <= |lay.gates| && !BalancedBelow(lay, m)
    ensures g < m && BalancedBelow(lay, g) && lay.gates[g].AddGate?
    ensures f < |Fresh(lay)| && F(Missing(lay.gates, Fresh(lay), g, f)) != 0
  {
    hide F, Fresh, Missing;
    if !BalancedBelow(lay, m - 1) {
      g, f := FirstMissing(lay, m - 1);
    } else {
      g := m - 1;
      f :| lay.gates[g].AddGate? && f < |Fresh(lay)| && F(Missing(lay.gates, Fresh(lay), g, f)) != 0;
    }
  }

  function Naughts(m: nat): (r: seq<nat>)
    ensures |r| == m + 1 && forall i :: 0 <= i <= m ==> r[i] == i
  {
    seq(m + 1, i requires 0 <= i => i)
  }

  /** A polynomial of degree at most t that is not zero is not zero at one of 0, ..., t. */
  lemma SomePoint(c: seq<int>, t: nat, k: nat) returns (i: nat)
    requires IsPrime(P61) && |c| <= t + 1 <= P61 && k < |c| && F(c[k]) != 0
    ensures i <= t && F(Eval(c, i)) != 0
  {
    hide Res, Eval, IsPrime;
    if forall i :: 0 <= i <= t ==> F(Eval(c, i)) == 0 {
      var xs := Naughts(t);
      forall i, j | 0 <= i < j < |xs| ensures Res(P61, xs[i]) != Res(P61, xs[j]) {
        ResSmall(P61, i);
        ResSmall(P61, j);
      }
      ManyRoots(P61, c, xs);
      assert false;
    }
    i :| 0 <= i <= t && F(Eval(c, i)) != 0;
  }

  /** Secrets 0, but 1 in one place, and nothing but 0 beside them. */
  function OneDrawing(count: nat, rest: nat, place: int): (r: seq<Draw>)
    ensures |r| == count && forall q :: 0 <= q < count ==> r[q] == Draw(if q == place then 1 else 0, Zeros(rest))
  {
    seq(count, q requires 0 <= q => Draw(if q == place then 1 else 0, Zeros(rest)))
  }

  function NoDrawings(rows: nat, count: nat, rest: nat): (r: seq<seq<Draw>>)
    ensures |r| == rows && forall j :: 0 <= j < rows ==> r[j] == OneDrawing(count, rest, -1)
  {
    seq(rows, _ => OneDrawing(count, rest, -1))
  }

  /** One party's draws: the secret 1 in one block of individual sharings; everything else is 0. */
  function OneParty(m: Amounts, place: int): Draws
    requires Sizes(m.n, m.k, m.t)
  {
    Draws(OneDrawing(Blocks(m.inds, m.t), m.n - 2 * m.k + 1, place),
          NoDrawings(m.k, Blocks(3 * m.mults, m.t), m.t),
          OneDrawing(Blocks(3 * m.mults + m.ios, m.t), m.n - m.k, -1),
          NoDrawings(m.k, Blocks(m.mults, m.t), m.n - 1))
  }

  /** The dealer has a secret for one block, the others have none. */
  function OneDraws(m: Amounts, dealer: nat, block: nat): (r: seq<Draws>)
    requires Sizes(m.n, m.k, m.t)
    ensures |r| == m.n && forall p :: 0 <= p < m.n ==> r[p] == OneParty(m, if p == dealer then block else -1)
  {
    seq(m.n, p requires 0 <= p => OneParty(m, if p == dealer then block else -1))
  }

  lemma OneDrawn(m: Amounts, dealer: nat, block: nat)
    requires Sizes(m.n, m.k, m.t)
    ensures AllDrawn(m, OneDraws(m, dealer, block))
  {
    hide Blocks, Zeros, OneDrawing, NoDrawings, OneDraws;
  }

  /** With these draws the masks of one block are the powers of the dealer, and all others are 0. */
  lemma OneMask(m: Amounts, dealer: nat, block: nat, q: nat, s: nat)
    requires IsPrime(P61) && Sizes(m.n, m.k, m.t) && dealer < m.n && q < Blocks(m.inds, m.t) && s <= m.t
    ensures AllDrawn(m, OneDraws(m, dealer, block)) && q * (m.t + 1) + s < |Inds(m, OneDraws(m, dealer, block))|
    ensures F(At(Inds(m, OneDraws(m, dealer, block))[q * (m.t + 1) + s], Slot(0))) == F(if q == block then Pow(dealer, s) else 0)
  {
    hide *;
    var draws := OneDraws(m, dealer, block);
    OneDrawn(m, dealer, block);
    IndsAre(m, draws);
    var deals := IndAll(m, draws);
    MixedAt(deals, m.t, Blocks(m.inds, m.t), q, s, Slot(0));
    DealtLess(deals, Blocks(m.inds, m.t), q + 1);
    var u := OneColumn(m, dealer, block, q);
    OneDot(u, Weights(m.n, s), m.n, dealer, q == block, s);
  }

  lemma IndsAre(m: Amounts, draws: seq<Draws>)
    requires AllDrawn(m, draws)
    ensures Dealt(IndAll(m, draws), Blocks(m.inds, m.t)) && Inds(m, draws) == MixBlocks(IndAll(m, draws), m.t, Blocks(m.inds, m.t))
  {
    hide AllDrawn, IndAll, MixBlocks, Blocks;
    DealtAll(m, draws);
  }

  lemma DealtLess(deals: seq<seq<Coeffs>>, m: nat, q: nat)
    requires Dealt(deals, m) && q <= m
    ensures Dealt(deals, q)
  {
  }

  /** The dealt values of one block. */
  lemma OneColumn(m: Amounts, dealer: nat, block: nat, q: nat) returns (u: seq<int>)
    requires IsPrime(P61) && Sizes(m.n, m.k, m.t) && dealer < m.n && q < Blocks(m.inds, m.t)
    requires AllDrawn(m, OneDraws(m, dealer, block)) && Dealt(IndAll(m, OneDraws(m, dealer, block)), q + 1)
    ensures u == Msgs(Column(IndAll(m, OneDraws(m, dealer, block)), q), Slot(0)) && |u| == m.n
    ensures forall i :: 0 <= i < m.n ==> F(u[i]) == F(if q == block && i == dealer then 1 else 0)
  {
    hide At, F, Slot, IsPrime, Blocks, IndDeal, Zeros;
    var draws := OneDraws(m, dealer, block);
    u := Msgs(Column(IndAll(m, draws), q), Slot(0));
    forall i | 0 <= i < m.n ensures F(u[i]) == F(if q == block && i == dealer then 1 else 0) {
      IndDealHolds(m.n, m.k, m.t, draws[i].ind[q]);
      FF(draws[i].ind[q].secret);
    }
  }

  /** Weighting a unit vector with powers, or nothing. */
  lemma OneDot(u: seq<int>, w: seq<int>, n: nat, dealer: nat, here: bool, s: nat)
    requires |u| == n && w == Weights(n, s) && dealer < n
    requires forall i :: 0 <= i < n ==> F(u[i]) == F(if here && i == dealer then 1 else 0)
    ensures F(F(Dot(w, u, n))) == F(if here then Pow(dealer, s) else 0)
  {
    hide F, Dot, Pow;
    FF(Dot(w, u, n));
    if here {
      DotFlip(w, u, n);
      DotUnit(u, w, n, dealer);
      FF(Pow(dealer, s));
    } else {
      DotZero(w, u, n);
    }
  }

  lemma {:induction false} DotFlip(e: seq<int>, v: seq<int>, m: nat)
    requires m <= |e| && m <= |v|
    ensures Dot(e, v, m) == Dot(v, e, m)
  {
    if m > 0 {
      DotFlip(e, v, m - 1);
    }
  }

  /** Weighting a row with the powers of x in one place evaluates a part of the row at x. */
  lemma {:induction false} DotIsEval(row: seq<int>, v: seq<int>, from: nat, end: nat, x: int, m: nat)
    requires from <= end <= |row| == |v| && m <= |row|
    requires forall j :: 0 <= j < |row| ==> F(v[j]) == F(if from <= j < end then Pow(x, j - from) else 0)
    ensures F(Dot(row, v, m)) == F(if m <= from then 0 else Eval(row[from..if m <= end then m else end], x))
  {
    hide F, Pow, Eval;
    if m > 0 {
      DotIsEval(row, v, from, end, x, m - 1);
      var j := m - 1;
      var e := if from <= j < end then Pow(x, j - from) else 0;
      FOps(row[j], v[j], row[j], e);
      var before := if j <= from then 0 else Eval(row[from..if j <= end then j else end], x);
      FOps(Dot(row, v, j), row[j] * v[j], before, row[j] * e);
      if from <= j < end {
        OneMore(row, from, j, x);
      } else if j == from {
        EvalZeros(row[from..end], x);
      }
    }
  }

  lemma OneMore(row: seq<int>, from: nat, j: nat, x: int)
    requires from <= j < |row|
    ensures Eval(row[from..j + 1], x) == Eval(row[from..j], x) + row[j] * Pow(x, j - from)
    ensures j == from ==> Eval(row[from..j], x) == 0
  {
    var c := row[from..j];
    assert row[from..j + 1] == c + [row[j]];
    EvalConcat(c, [row[j]], x);
    assert [row[j]][1..] == [];
    assert Eval([row[j]], x) == row[j] + x * Eval([row[j]][1..], x);
  }

  // ---------------------------------------------------------------- one more output

  /** The circuit with one more output, for the first client, on the wire of gate g. */
  function Watched(lay: Layout, g: nat): (r: Layout)
    ensures r.clients == lay.clients && r.batchSize == lay.batchSize && r.mults == lay.mults
    ensures r.gates == lay.gates + [OutputGate(0, g)]
  {
    lay.(gates := lay.gates + [OutputGate(0, g)])
  }

  /** It has the same inputs and multiplications. */
  lemma WatchedIs(lay: Layout, g: nat)
    requires WellFormed(lay) && lay.clients > 0 && g < |lay.gates|
    ensures WellFormed(Watched(lay, g)) && Fresh(Watched(lay, g)) == Fresh(lay)
    ensures Ids(Watched(lay, g).gates, OutputOf(0)) == Ids(lay.gates, OutputOf(0)) + [|lay.gates|]
    ensures Ids(Watched(lay, g).gates, AnyInput) == Ids(lay.gates, AnyInput)
  {
    hide Ids;
    Building.AppendKinds(lay.gates, OutputGate(0, g));
  }

  lemma {:induction false} WatchedReach(lay: Layout, g: nat, known: set<nat>, h: nat)
    requires WellFormed(lay) && WellFormed(Watched(lay, g)) && h < |lay.gates| && Reachable(lay, known, h)
    ensures Reachable(Watched(lay, g), known, h)
    decreases h
  {
    match lay.gates[h] {
      case InputGate(_) =>
      case MultGate(_, _) =>
      case AddGate(l, r) => WatchedReach(lay, g, known, l); WatchedReach(lay, g, known, r);
      case OutputGate(_, s) => WatchedReach(lay, g, known, s);
    }
  }

  lemma {:induction false} WatchedKnown(lay: Layout, g: nat, d: nat)
    requires Ids(Watched(lay, g).gates, AnyInput) == Ids(lay.gates, AnyInput) && d <= |lay.mults|
    ensures Known(Watched(lay, g), d) == Known(lay, d)
  {
    hide Ids;
    if d > 0 {
      WatchedKnown(lay, g, d - 1);
    }
  }

  lemma WatchedLayered(lay: Layout, g: nat)
    requires WellFormed(lay) && Layered(lay) && lay.clients > 0 && g < |lay.gates|
    ensures WellFormed(Watched(lay, g)) && Layered(Watched(lay, g))
  {
    hide Ids, Known, Reachable;
    WatchedIs(lay, g);
    var more := Watched(lay, g);
    forall d, i | 0 <= d < |more.mults| && 0 <= i < |more.mults[d]|
      ensures var h := more.mults[d][i];
        && h < |more.gates| && more.gates[h].MultGate?
        && Reachable(more, Known(more, d), more.gates[h].left) && Reachable(more, Known(more, d), more.gates[h].right)
    {
      var h := lay.mults[d][i];
      WatchedKnown(lay, g, d);
      ParentsBelow(lay, h);
      WatchedReach(lay, g, Known(lay, d), lay.gates[h].left);
      WatchedReach(lay, g, Known(lay, d), lay.gates[h].right);
    }
  }

  lemma ParentsBelow(lay: Layout, h: nat)
    requires WellFormed(lay) && h < |lay.gates| && lay.gates[h].MultGate?
    ensures lay.gates[h].left < h && lay.gates[h].right < h
  {
  }

  lemma {:induction false} WatchedPaths(gates: seq<Gate>, x: Gate, firsts: seq<nat>, g: nat, f: nat)
    requires g < |gates|
    ensures Paths(gates + [x], firsts, g, f) == Paths(gates, firsts, g, f)
    decreases g
  {
    match gates[g] {
      case InputGate(_) =>
      case MultGate(_, _) =>
      case AddGate(l, r) =>
        if l < g { WatchedPaths(gates, x, firsts, l, f); }
        if r < g { WatchedPaths(gates, x, firsts, r, f); }
      case OutputGate(_, s) =>
        if s < g { WatchedPaths(gates, x, firsts, s, f); }
    }
  }

  lemma WatchedMissing(lay: Layout, g: nat, h: nat, f: nat)
    requires h < |lay.gates| && lay.gates[h].AddGate? && Fresh(Watched(lay, g)) == Fresh(lay)
    ensures Missing(Watched(lay, g).gates, Fresh(lay), h, f) == Missing(lay.gates, Fresh(lay), h, f)
  {
    hide Fresh, Paths;
    var l, r := lay.gates[h].left, lay.gates[h].right;
    if l < h { WatchedPaths(lay.gates, OutputGate(0, g), Fresh(lay), l, f); }
    if r < h { WatchedPaths(lay.gates, OutputGate(0, g), Fresh(lay), r, f); }
  }

  lemma WatchedBalanced(lay: Layout, g: nat, m: nat)
    requires Fresh(Watched(lay, g)) == Fresh(lay) && BalancedBelow(lay, m) && m <= |lay.gates|
    ensures BalancedBelow(Watched(lay, g), m) && (m == |lay.gates| ==> Balanced(Watched(lay, g)))
  {
    hide Fresh, Missing, F;
    var more := Watched(lay, g);
    forall h: nat, f: nat | h < |more.gates| && more.gates[h].AddGate? && f < |Fresh(lay)| && (h < m || m == |lay.gates|)
      ensures F(Missing(more.gates, Fresh(lay), h, f)) == 0
    {
      WatchedMissing(lay, g, h, f);
    }
  }

  // ---------------------------------------------------------------- the exact condition

  /** Every run that is not refused gives every client its cleartext outputs. */
  ghost predicate Right(lay: Layout, t: nat) {
    forall draws, inputs :: ProperRun(lay, t, draws, inputs) ==> RightRun(lay, t, draws, inputs)
  }

  ghost predicate RightRun(lay: Layout, t: nat, draws: seq<Draws>, inputs: seq<seq<int>>)
    requires ProperRun(lay, t, draws, inputs)
  {
    forall c :: 0 <= c < lay.clients ==> ClientOutputs(lay, t, draws, inputs, c) == ClearOutputs(lay, inputs, c)
  }

  lemma BalancedRight(lay: Layout, t: nat)
    requires Balanced(lay)
    ensures Right(lay, t)
  {
    hide Ids, IsPrime, WellFormed, AllDrawn, Matches, FiOf, Clear, WireValue, Fresh, IOs, Mults;
    forall draws, inputs | ProperRun(lay, t, draws, inputs) ensures RightRun(lay, t, draws, inputs) {
      var fi := FiOf(lay, t, draws);
      BalancedWires(lay, fi, inputs, |lay.gates|);
      forall c | 0 <= c < lay.clients ensures ClientOutputs(lay, t, draws, inputs, c) == ClearOutputs(lay, inputs, c) {
        var flat := Ids(lay.gates, OutputOf(c));
        forall i | 0 <= i < |flat| ensures WireOutputs(lay, fi, inputs, c)[i] == ClearOutputs(lay, inputs, c)[i] {
          assert WireValue(lay, fi, inputs, flat[i]) == Clear(lay, inputs, flat[i]);
        }
      }
    }
  }

  /** As many zeros as every client has inputs. */
  function NoInputs(lay: Layout): (r: seq<seq<int>>)
    ensures Matches(lay, r)
  {
    seq(lay.clients, c requires 0 <= c => Zeros(|Ids(lay.gates, InputOf(c))|))
  }

  /** Where an addition misses something, an output on it is wrong in some run. */
  lemma MissingShows(lay: Layout, t: nat, g: nat, f: nat) returns (draws: seq<Draws>)
    requires IsPrime(P61) && WellFormed(lay) && Sizes(lay.clients, lay.batchSize, t) && lay.clients + lay.batchSize <= P61
    requires g < |lay.gates| && BalancedBelow(lay, g) && lay.gates[g].AddGate?
    requires f < |Fresh(lay)| && F(Missing(lay.gates, Fresh(lay), g, f)) != 0
    ensures ProperRun(lay, t, draws, NoInputs(lay))
    ensures WireValue(lay, FiOf(lay, t, draws), NoInputs(lay), g) != Clear(lay, NoInputs(lay), g)
  {
    hide *;
    draws := MissingSum(lay, t, g, f);
    var inputs := NoInputs(lay);
    IsProper(lay, t, draws, inputs);
    var fi := FiOf(lay, t, draws);
    var row, v := MissingRow(lay.gates, Fresh(lay), g), FreshMasks(lay, fi.ind);
    BalancedWires(lay, fi, inputs, g);
    AdditionError(lay, fi, inputs, g);
    if WireValue(lay, fi, inputs, g) == Clear(lay, inputs, g) {
      NothingLost(Clear(lay, inputs, g), Dot(row, v, |row|));
    }
  }

  lemma IsProper(lay: Layout, t: nat, draws: seq<Draws>, inputs: seq<seq<int>>)
    requires IsPrime(P61) && WellFormed(lay) && Sizes(lay.clients, lay.batchSize, t)
    requires AllDrawn(AmountsOf(lay, t), draws) && Matches(lay, inputs)
    ensures ProperRun(lay, t, draws, inputs) && Setting(lay, FiOf(lay, t, draws), inputs)
    ensures FiOf(lay, t, draws).ind == Inds(AmountsOf(lay, t), draws)
  {
    hide IsPrime, WellFormed, AllDrawn, Matches, Fresh, IOs, Mults, Inds, Fa, Fb, Fc, Zs, PackAll;
  }

  /** Some draws make the sum of what an addition misses differ from 0. */
  lemma MissingSum(lay: Layout, t: nat, g: nat, f: nat) returns (draws: seq<Draws>)
    requires IsPrime(P61) && WellFormed(lay) && Sizes(lay.clients, lay.batchSize, t) && lay.clients + lay.batchSize <= P61
    requires g < |lay.gates| && lay.gates[g].AddGate?
    requires f < |Fresh(lay)| && F(Missing(lay.gates, Fresh(lay), g, f)) != 0
    ensures AllDrawn(AmountsOf(lay, t), draws) && |Fresh(lay)| <= |Inds(AmountsOf(lay, t), draws)|
    ensures F(Dot(MissingRow(lay.gates, Fresh(lay), g), FreshMasks(lay, Inds(AmountsOf(lay, t), draws)), |Fresh(lay)|)) != 0
  {
    hide *;
    var m := AmountsIs(lay, t);
    var row, q := MissingRow(lay.gates, Fresh(lay), g), f / (t + 1);
    MissingRowAt(lay.gates, Fresh(lay), g, f);
    var from := q * (t + 1);
    Divided(f, t + 1, f + 1, f + 1);
    var end := if from + t + 1 <= |row| then from + t + 1 else |row|;
    var c := row[from..end];
    assert c[f - from] == row[f];
    var dealer := SomePoint(c, t, f - from);
    draws := OneDraws(m, dealer, q);
    OneDrawn(m, dealer, q);
    var v := FreshMasks(lay, Inds(m, draws));
    forall j | 0 <= j < |row| ensures F(v[j]) == F(if from <= j < end then Pow(dealer, j - from) else 0) {
      MaskAt(m, dealer, q, j);
      FreshMaskAt(lay, Inds(m, draws), j);
    }
    DotIsEval(row, v, from, end, dealer, |row|);
  }

  lemma AmountsIs(lay: Layout, t: nat) returns (m: Amounts)
    requires WellFormed(lay) && Sizes(lay.clients, lay.batchSize, t)
    ensures lay.batchSize > 0 && m == AmountsOf(lay, t) && m.n == lay.clients && m.k == lay.batchSize && m.t == t
    ensures m.inds == |Fresh(lay)| && t < m.n && t + 1 <= P61
  {
    hide Fresh, Mults, IOs, Ids;
    SizeOk(lay);
    m := AmountsOf(lay, t);
  }

  lemma MissingRowAt(gates: seq<Gate>, firsts: seq<nat>, g: nat, f: nat)
    requires g < |gates| && gates[g].AddGate? && f < |firsts|
    ensures MissingRow(gates, firsts, g)[f] == Missing(gates, firsts, g, f)
  {
    hide Missing;
  }

  lemma FreshMaskAt(lay: Layout, ind: seq<Coeffs>, j: nat)
    requires |Fresh(lay)| <= |ind| && j < |Fresh(lay)|
    ensures FreshMasks(lay, ind)[j] == At(ind[j], Slot(0))
  {
    hide Fresh, At, Slot;
  }

  lemma MaskAt(m: Amounts, dealer: nat, block: nat, j: nat)
    requires IsPrime(P61) && Sizes(m.n, m.k, m.t) && dealer < m.n && j < m.inds
    ensures AllDrawn(m, OneDraws(m, dealer, block)) && j < |Inds(m, OneDraws(m, dealer, block))|
    ensures var from := block * (m.t + 1);
      F(At(Inds(m, OneDraws(m, dealer, block))[j], Slot(0))) == F(if from <= j < from + m.t + 1 then Pow(dealer, j - from) else 0)
  {
    hide *;
    var q, s := j / (m.t + 1), j % (m.t + 1);
    Divided(j, m.t + 1, Blocks(m.inds, m.t), m.inds);
    OneMask(m, dealer, block, q, s);
    InBlock(j, m.t + 1, q, s, block);
  }

  lemma InBlock(j: nat, u: nat, q: nat, s: nat, block: nat)
    requires j == q * u + s && s < u
    ensures block * u <= j < block * u + u <==> q == block
  {
    if q < block {
      BlockBefore(q, block, u - 1, s);
    } else if q > block {
      BlockBefore(block, q, u - 1, u - 1);
    }
  }

  lemma Quotient(q: nat, u: nat, r: nat, b: nat)
    requires q * u + r < b * u
    ensures q < b
  {
  }

  lemma Divided(j: nat, u: nat, b: nat, m: nat)
    requires 0 < u && j < m <= b * u
    ensures j == (j / u) * u + j % u && j / u < b
  {
    Quotient(j / u, u, j % u, b);
  }

  lemma NothingLost(c: int, d: int)
    requires Sub(c, d) == c
    ensures F(d) == 0
  {
    hide F;
    FNone();
    FF(c - d);
    FOps(c, c - d, c, c);
    assert c - (c - d) == d;
  }

  /** Whatever wire is made an output, for all inputs and all randomness the outputs are right, if and
      only if no addition misses the mask of an output: for every addition and every input or multiplication
      the number of ways in which its mask is missing is a multiple of the modulus. Nothing is missing when no
      addition reads an output gate. */
  lemma OutputSumsExact(lay: Layout, t: nat)
    requires IsPrime(P61) && WellFormed(lay) && Layered(lay)
    requires Sizes(lay.clients, lay.batchSize, t) && lay.clients + lay.batchSize <= P61
    ensures forall g: nat :: g < |lay.gates| ==> WellFormed(Watched(lay, g)) && Layered(Watched(lay, g))
    ensures (forall g: nat :: g < |lay.gates| ==> Right(Watched(lay, g), t)) <==> Balanced(lay)
    ensures Balanced(lay) ==> Right(lay, t)
    ensures PlainSums(lay.gates) ==> Balanced(lay)
  {
    hide IsPrime, WellFormed, Layered, Fresh, Right, Missing, F, BalancedBelow, PlainSums;
    forall g: nat | g < |lay.gates| ensures WellFormed(Watched(lay, g)) && Layered(Watched(lay, g)) {
      PartiesExist(lay.clients, lay.batchSize, t);
      WatchedLayered(lay, g);
    }
    if PlainSums(lay.gates) {
      PlainIsBalanced(lay);
    }
    if Balanced(lay) {
      BalancedRight(lay, t);
      forall g: nat | g < |lay.gates| ensures Right(Watched(lay, g), t) {
        WatchedIs(lay, g);
        WatchedBalanced(lay, g, |lay.gates|);
        BalancedRight(Watched(lay, g), t);
      }
    } else {
      var g, f := FirstMissing(lay, |lay.gates|);
      WrongWatched(lay, t, g, f);
    }
  }

  lemma PartiesExist(n: nat, k: nat, t: nat)
    requires Sizes(n, k, t)
    ensures n > 0 && k > 0
  {
  }

  lemma WrongWatched(lay: Layout, t: nat, g: nat, f: nat)
    requires IsPrime(P61) && WellFormed(lay) && Sizes(lay.clients, lay.batchSize, t) && lay.clients + lay.batchSize <= P61
    requires g < |lay.gates| && BalancedBelow(lay, g) && lay.gates[g].AddGate?
    requires f < |Fresh(lay)| && F(Missing(lay.gates, Fresh(lay), g, f)) != 0
    ensures !Right(Watched(lay, g), t)
  {
    hide Ids, IsPrime, WellFormed, AllDrawn, Matches, Clear, WireValue, Fresh, IOs, Mults, F, Missing, NoInputs, FiOf, BalancedBelow;
    var more := Watched(lay, g);
    WatchedIs(lay, g);
    WatchedBalanced(lay, g, g);
    WatchedMissing(lay, g, g, f);
    var draws := MissingShows(more, t, g, f);
    var inputs, fi := NoInputs(more), FiOf(more, t, draws);
    OutputSteps(more, fi, inputs, |lay.gates|);
    var last := |Ids(lay.gates, OutputOf(0))|;
    assert Ids(more.gates, OutputOf(0))[last] == |lay.gates|;
    assert WireOutputs(more, fi, inputs, 0)[last] != ClearOutputs(more, inputs, 0)[last];
    assert !RightRun(more, t, draws, inputs);
  }

  lemma OutputSteps(lay: Layout, fi: FIPolys, inputs: seq<seq<int>>, g: nat)
    requires Setting(lay, fi, inputs) && g < |lay.gates| && lay.gates[g].OutputGate?
    ensures lay.gates[g].src < g
    ensures WireValue(lay, fi, inputs, g) == WireValue(lay, fi, inputs, lay.gates[g].src)
    ensures Clear(lay, inputs, g) == Clear(lay, inputs, lay.gates[g].src)
  {
    hide F, Fresh, IOs, Mults, Ids;
  }

  /** An input, an output on it, and the sum of the two. */
  function DoubledInput(n: nat, k: nat): Layout {
    Layout([InputGate(0), OutputGate(0, 0), AddGate(0, 1)], n, k, [])
  }

  lemma ThreeIds(gates: seq<Gate>, kind: Kind)
    requires |gates| == 3
    ensures Ids(gates, kind) == IfKind(gates, kind, 0) + IfKind(gates, kind, 1) + IfKind(gates, kind, 2)
  {
    hide Ids, IfKind;
    IdsNone(kind);
    assert gates[..0] == [] && gates[..3] == gates;
    IdsLast(gates, kind, 0);
    IdsLast(gates, kind, 1);
    IdsLast(gates, kind, 2);
    assert [] + IfKind(gates, kind, 0) == IfKind(gates, kind, 0);
  }

  lemma DoubledIds(n: nat, k: nat)
    ensures Ids(DoubledInput(n, k).gates, AnyInput) == [0] && Ids(DoubledInput(n, k).gates, AnyMult) == []
  {
    hide Ids;
    ThreeIds(DoubledInput(n, k).gates, AnyInput);
    ThreeIds(DoubledInput(n, k).gates, AnyMult);
  }

  lemma DoubledInputIs(n: nat, k: nat)
    requires 0 < n && 0 < k
    ensures WellFormed(DoubledInput(n, k)) && Layered(DoubledInput(n, k)) && Fresh(DoubledInput(n, k)) == [0]
  {
    hide Ids, Flatten, Reachable, Known;
    DoubledIds(n, k);
    FlattenNone<nat>();
  }

  lemma DoubledBefore(n: nat, k: nat)
    ensures BalancedBelow(DoubledInput(n, k), 2)
  {
    hide Fresh, Missing, F;
  }

  /** With an output on the sum this circuit is wrong for any number of parties and any batch size. */
  lemma DoubledInputWrong(n: nat, k: nat, t: nat)
    requires IsPrime(P61) && Sizes(n, k, t) && n + k <= P61
    ensures WellFormed(DoubledInput(n, k)) && Layered(DoubledInput(n, k))
    ensures !Right(Watched(DoubledInput(n, k), 2), t)
  {
    hide IsPrime, Right, F, Watched, WellFormed, Layered, Fresh, BalancedBelow;
    var lay := DoubledInput(n, k);
    DoubledInputIs(n, k);
    DoubledBefore(n, k);
    assert Paths(lay.gates, [0], 0, 0) == 1;
    assert Missing(lay.gates, [0], 2, 0) == 1;
    Canonical(1);
    WrongWatched(lay, t, 2, 0);
  }
}
