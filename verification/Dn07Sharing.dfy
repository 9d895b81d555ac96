/** The sharings of the DN07 baseline, for any n > 2t parties: every wire carries a polynomial of
    degree t, and the parties after the first t + 1 fix their shares before there are inputs. With
    n = 2t + 1 the polynomial has the wire's value at 0. */
module Dn07Sharing {
  import opened Modular
  import opened Poly
  import opened Scl
  import opened Sequences
  import opened PackedSharing
  import opened Dealing
  import opened Circuits

  /** Random sharings for the inputs, and pairs of sharings of one number with degrees t and 2t
      for the multiplications. */
  datatype Pads = Pads(rand: seq<Coeffs>, low: seq<Coeffs>, high: seq<Coeffs>)

  datatype Setup = Setup(lay: Layout, t: nat, pads: Pads)

  // ---------------------------------------------------------------- the order of the inputs

  /** The input gates of the first c clients, client by client. */
  function InputsOf(lay: Layout, c: nat): (r: seq<nat>)
    ensures forall i :: 0 <= i < |r| ==> r[i] < |lay.gates| && lay.gates[r[i]].InputGate? && lay.gates[r[i]].owner < c
  {
    if c == 0 then [] else InputsOf(lay, c - 1) + Ids(lay.gates, InputOf(c - 1))
  }

  function InputOrder(lay: Layout): seq<nat> {
    InputsOf(lay, lay.clients)
  }

  function MultOrder(lay: Layout): seq<nat> {
    Ids(lay.gates, AnyMult)
  }

  lemma {:induction false} InputListed(lay: Layout, c: nat, g: nat)
    requires g < |lay.gates| && lay.gates[g].InputGate? && lay.gates[g].owner < c
    ensures g in InputsOf(lay, c)
  {
    hide Ids;
    if lay.gates[g].owner == c - 1 {
      IdsComplete(lay.gates, InputOf(c - 1), g);
    } else {
      InputListed(lay, c - 1, g);
    }
  }

  /** No gate is listed twice. */
  lemma {:induction false} InputOnce(lay: Layout, c: nat, i: nat, j: nat)
    requires i < j < |InputsOf(lay, c)|
    ensures InputsOf(lay, c)[i] != InputsOf(lay, c)[j]
  {
    var a, b := InputsOf(lay, c - 1), Ids(lay.gates, InputOf(c - 1));
    if j < |a| {
      InputOnce(lay, c - 1, i, j);
    } else if i >= |a| {
      assert b[i - |a|] < b[j - |a|];
    } else {
      assert Is(lay.gates[b[j - |a|]], InputOf(c - 1));
    }
  }

  lemma InputPosition(lay: Layout, i: nat)
    requires i < |InputOrder(lay)|
    ensures Position(InputOrder(lay), InputOrder(lay)[i]) == i
  {
    var r := Position(InputOrder(lay), InputOrder(lay)[i]);
    if r < i {
      InputOnce(lay, lay.clients, r, i);
    } else if i < r {
      InputOnce(lay, lay.clients, i, r);
    }
  }

  // ---------------------------------------------------------------- polynomials with zeros

  /** The points of the last t of n parties. */
  function LastPoints(n: nat, t: nat): (r: seq<int>)
    ensures |r| == t
  {
    seq(t, i => n - t + i + 1)
  }

  /** A given value at 0 and zero shares for the last t parties. */
  function Zeroed(value: int, n: nat, t: nat): (f: EvPolynomial)
    ensures |f.mX| == |f.mY| == t + 1
  {
    EvPolynomial([F(0)] + LastPoints(n, t), [value] + Zeros(t))
  }

  function ZeroedPoly(value: int, n: nat, t: nat): (c: Coeffs)
    ensures |c| == t + 1
  {
    Coefs(Zeroed(value, n, t))
  }

  lemma ZeroedProper(value: int, n: nat, t: nat)
    requires t <= n < P61
    ensures Proper(Zeroed(value, n, t))
  {
    hide F;
    var xs := Zeroed(value, n, t).mX;
    FF(0);
    forall i, j | 0 <= i < j < |xs| ensures F(xs[i]) != F(xs[j]) {
      if i == 0 {
        FDistinct(0, xs[j]);
      } else {
        FDistinct(xs[i], xs[j]);
      }
    }
  }

  lemma ZeroedValue(value: int, n: nat, t: nat)
    requires IsPrime(P61) && t <= n < P61
    ensures At(ZeroedPoly(value, n, t), 0) == F(value)
    ensures forall x: int :: n - t + 1 <= x <= n ==> At(ZeroedPoly(value, n, t), x) == F(0)
  {
    hide Coefs, IsPrime, Distinct;
    var f := Zeroed(value, n, t);
    ZeroedProper(value, n, t);
    CoefsAtPoint(f, 0);
    assert f.mX[0] == 0 by { ZeroIsZero(); }
    forall x: int | n - t + 1 <= x <= n ensures At(ZeroedPoly(value, n, t), x) == F(0) {
      CoefsAtPoint(f, x - (n - t));
      assert f.mX[x - (n - t)] == x && f.mY[x - (n - t)] == F(0);
      FF(0);
    }
  }

  lemma ZeroIsZero()
    ensures F(0) == 0
  {
    ResZero(P61, 0);
  }

  // ---------------------------------------------------------------- the wires

  ghost predicate Good(s: Setup) {
    && WellFormed(s.lay) && 2 * s.t + 1 <= s.lay.clients < P61
    && |s.pads.rand| >= |InputOrder(s.lay)| && |s.pads.low| == |s.pads.high| >= |MultOrder(s.lay)|
    && Lengths(s.pads.rand, s.t + 1) && Lengths(s.pads.low, s.t + 1) && Lengths(s.pads.high, 2 * s.t + 1)
    && forall i :: 0 <= i < |s.pads.low| ==> At(s.pads.low[i], 0) == At(s.pads.high[i], 0)
  }

  /** The random sharing of an input gate. */
  ghost function RandOf(s: Setup, g: nat): (c: Coeffs)
    requires Good(s) && g < |s.lay.gates| && s.lay.gates[g].InputGate?
    ensures 1 <= |c| <= s.t + 1
  {
    InputListed(s.lay, s.lay.clients, g);
    s.pads.rand[Position(InputOrder(s.lay), g)]
  }

  ghost function LowOf(s: Setup, g: nat): (c: Coeffs)
    requires Good(s) && g < |s.lay.gates| && s.lay.gates[g].MultGate?
    ensures 1 <= |c| <= s.t + 1
  {
    IdsComplete(s.lay.gates, AnyMult, g);
    s.pads.low[Position(MultOrder(s.lay), g)]
  }

  ghost function HighOf(s: Setup, g: nat): (c: Coeffs)
    requires Good(s) && g < |s.lay.gates| && s.lay.gates[g].MultGate?
    ensures 1 <= |c| <= 2 * s.t + 1 && At(c, 0) == At(LowOf(s, g), 0)
  {
    IdsComplete(s.lay.gates, AnyMult, g);
    s.pads.high[Position(MultOrder(s.lay), g)]
  }

  /** The value of an input gate. */
  ghost function InputValue(lay: Layout, inputs: seq<seq<int>>, g: nat): int
    requires WellFormed(lay) && Matches(lay, inputs) && g < |lay.gates| && lay.gates[g].InputGate?
  {
    var c := lay.gates[g].owner;
    IdsComplete(lay.gates, InputOf(c), g);
    inputs[c][Position(Ids(lay.gates, InputOf(c)), g)]
  }

  /** What the owner of an input shares: its value minus the random number. */
  ghost function InputMasked(s: Setup, inputs: seq<seq<int>>, g: nat): int
    requires Good(s) && Matches(s.lay, inputs) && g < |s.lay.gates| && s.lay.gates[g].InputGate?
  {
    Sub(InputValue(s.lay, inputs, g), At(RandOf(s, g), 0))
  }

  /** The sharing on the output wire of a gate. */
  ghost function GatePoly(s: Setup, inputs: seq<seq<int>>, g: nat): (c: Coeffs)
    requires Good(s) && Matches(s.lay, inputs) && g < |s.lay.gates|
    ensures 1 <= |c| <= s.t + 1
    decreases g, 3
  {
    match s.lay.gates[g]
    case InputGate(_) => AddP(ZeroedPoly(InputMasked(s, inputs, g), s.lay.clients, s.t), RandOf(s, g))
    case MultGate(_, _) => AddP(ZeroedPoly(Opened(s, inputs, g), s.lay.clients, s.t), LowOf(s, g))
    case AddGate(l, r) => AddP(GatePoly(s, inputs, l), GatePoly(s, inputs, r))
    case OutputGate(_, src) => GatePoly(s, inputs, src)
  }

  /** What P1 has for a multiplication: shares of the masked product from the first t + 1 parties, and
      what the others sent before there were inputs. */
  ghost function OpenShares(s: Setup, inputs: seq<seq<int>>, g: nat): (r: seq<int>)
    requires Good(s) && Matches(s.lay, inputs) && g < |s.lay.gates| && s.lay.gates[g].MultGate?
    ensures |r| == s.lay.clients
    decreases g, 1
  {
    var product := MultProduct(s, inputs, g);
    seq(s.lay.clients, i requires 0 <= i < s.lay.clients => if i <= s.t then At(product, i + 1) else LastProduct(s, i + 1, g))
  }

  /** What P1 opens. */
  ghost function Opened(s: Setup, inputs: seq<seq<int>>, g: nat): int
    requires Good(s) && Matches(s.lay, inputs) && g < |s.lay.gates| && s.lay.gates[g].MultGate?
    decreases g, 2
  {
    Rebuilt(OpenShares(s, inputs, g), 0)
  }

  /** What the first t + 1 parties hold of a masked product, with degree 2t. */
  ghost function MultProduct(s: Setup, inputs: seq<seq<int>>, g: nat): (c: Coeffs)
    requires Good(s) && Matches(s.lay, inputs) && g < |s.lay.gates| && s.lay.gates[g].MultGate?
    ensures 1 <= |c| <= 2 * s.t + 1
    decreases g, 0
  {
    SubP(Conv(GatePoly(s, inputs, s.lay.gates[g].left), GatePoly(s, inputs, s.lay.gates[g].right)), HighOf(s, g))
  }

  /** The order of a gate and its parents. */
  lemma Parents(s: Setup, g: nat)
    requires Good(s) && g < |s.lay.gates|
    ensures s.lay.gates[g].AddGate? ==> s.lay.gates[g].left < g && s.lay.gates[g].right < g
    ensures s.lay.gates[g].MultGate? ==> s.lay.gates[g].left < g && s.lay.gates[g].right < g
    ensures s.lay.gates[g].OutputGate? ==> s.lay.gates[g].src < g
  {
    hide Ids;
  }

  /** With n = 2t + 1 every wire carries its cleartext value. */
  lemma {:induction false} GateClear(s: Setup, inputs: seq<seq<int>>, g: nat)
    requires IsPrime(P61) && Good(s) && Matches(s.lay, inputs) && g < |s.lay.gates| && s.lay.clients == 2 * s.t + 1
    ensures At(GatePoly(s, inputs, g), 0) == Clear(s.lay, inputs, g)
    decreases g
  {
    hide *;
    GoodSize(s);
    Parents(s, g);
    match s.lay.gates[g] {
      case InputGate(_) =>
        InputClear(s, inputs, g);
      case MultGate(l, r) =>
        GateClear(s, inputs, l);
        GateClear(s, inputs, r);
        MultClear(s, inputs, g);
      case AddGate(l, r) =>
        GateClear(s, inputs, l);
        GateClear(s, inputs, r);
        AddClear(s, inputs, g);
      case OutputGate(_, src) =>
        GateClear(s, inputs, src);
        OutputClear(s, inputs, g);
    }
  }

  lemma InputClear(s: Setup, inputs: seq<seq<int>>, g: nat)
    requires IsPrime(P61) && Good(s) && Matches(s.lay, inputs) && g < |s.lay.gates| && s.lay.gates[g].InputGate?
    ensures At(GatePoly(s, inputs, g), 0) == Clear(s.lay, inputs, g)
  {
    hide At, F, IsPrime, Add, Sub, AddP, ZeroedPoly, RandOf, Ids;
    GoodSize(s);
    var rand := RandOf(s, g);
    ZeroedValue(InputMasked(s, inputs, g), s.lay.clients, s.t);
    AtAdd(ZeroedPoly(InputMasked(s, inputs, g), s.lay.clients, s.t), rand, 0);
    Unmask(InputValue(s.lay, inputs, g), At(rand, 0));
  }

  lemma MultClear(s: Setup, inputs: seq<seq<int>>, g: nat)
    requires IsPrime(P61) && Good(s) && Matches(s.lay, inputs) && g < |s.lay.gates| && s.lay.gates[g].MultGate?
    requires s.lay.clients == 2 * s.t + 1 && s.lay.gates[g].left < g && s.lay.gates[g].right < g
    requires At(GatePoly(s, inputs, s.lay.gates[g].left), 0) == Clear(s.lay, inputs, s.lay.gates[g].left)
    requires At(GatePoly(s, inputs, s.lay.gates[g].right), 0) == Clear(s.lay, inputs, s.lay.gates[g].right)
    ensures At(GatePoly(s, inputs, g), 0) == Clear(s.lay, inputs, g)
  {
    hide At, F, IsPrime, Add, Sub, Mul, AddP, ZeroedPoly, HighOf, LowOf, MultProduct, Opened, Ids;
    GoodSize(s);
    OpenedIs(s, inputs, g);
    var product, low := MultProduct(s, inputs, g), LowOf(s, g);
    var a, b := Clear(s.lay, inputs, s.lay.gates[g].left), Clear(s.lay, inputs, s.lay.gates[g].right);
    ZeroedValue(At(product, 0), s.lay.clients, s.t);
    AtAdd(ZeroedPoly(At(product, 0), s.lay.clients, s.t), low, 0);
    MultProductAt(s, inputs, g, 0);
    Unmask(Mul(a, b), At(low, 0));
    ProductReduced(a, b);
  }

  lemma AddClear(s: Setup, inputs: seq<seq<int>>, g: nat)
    requires Good(s) && Matches(s.lay, inputs) && g < |s.lay.gates| && s.lay.gates[g].AddGate?
    requires s.lay.gates[g].left < g && s.lay.gates[g].right < g
    requires At(GatePoly(s, inputs, s.lay.gates[g].left), 0) == Clear(s.lay, inputs, s.lay.gates[g].left)
    requires At(GatePoly(s, inputs, s.lay.gates[g].right), 0) == Clear(s.lay, inputs, s.lay.gates[g].right)
    ensures At(GatePoly(s, inputs, g), 0) == Clear(s.lay, inputs, g)
  {
    hide At, F, Add, AddP, Ids;
    AtAdd(GatePoly(s, inputs, s.lay.gates[g].left), GatePoly(s, inputs, s.lay.gates[g].right), 0);
    SumReduced(Clear(s.lay, inputs, s.lay.gates[g].left), Clear(s.lay, inputs, s.lay.gates[g].right));
  }

  lemma OutputClear(s: Setup, inputs: seq<seq<int>>, g: nat)
    requires Good(s) && Matches(s.lay, inputs) && g < |s.lay.gates| && s.lay.gates[g].OutputGate?
    requires s.lay.gates[g].src < g
    requires At(GatePoly(s, inputs, s.lay.gates[g].src), 0) == Clear(s.lay, inputs, s.lay.gates[g].src)
    ensures At(GatePoly(s, inputs, g), 0) == Clear(s.lay, inputs, g)
  {
    hide At, Ids;
  }

  lemma GoodSize(s: Setup)
    requires Good(s)
    ensures WellFormed(s.lay) && 2 * s.t + 1 <= s.lay.clients < P61
  {
  }

  lemma Unmask(v: int, m: int)
    ensures Add(F(Sub(v, m)), m) == F(v)
  {
    hide F;
    FF(v - m);
    FF(F(v - m));
    FOps(F(F(v - m)), m, v - m, m);
  }

  lemma ProductReduced(a: int, b: int)
    ensures F(Mul(a, b)) == Mul(a, b) == F(a * b)
  {
    hide F;
    FF(a * b);
  }

  lemma SumReduced(a: int, b: int)
    ensures Add(a, b) == F(a + b)
  {
  }

  /** A party's part of what is opened is computed from its shares. */
  lemma MultProductAt(s: Setup, inputs: seq<seq<int>>, g: nat, x: int)
    requires Good(s) && Matches(s.lay, inputs) && g < |s.lay.gates| && s.lay.gates[g].MultGate?
    ensures s.lay.gates[g].left < g && s.lay.gates[g].right < g
    ensures At(MultProduct(s, inputs, g), x) ==
      Sub(Mul(At(GatePoly(s, inputs, s.lay.gates[g].left), x), At(GatePoly(s, inputs, s.lay.gates[g].right), x)), At(HighOf(s, g), x))
  {
    hide At, F, Conv, SubP, Sub, Mul, GatePoly;
    var a, b := GatePoly(s, inputs, s.lay.gates[g].left), GatePoly(s, inputs, s.lay.gates[g].right);
    AtSub(Conv(a, b), HighOf(s, g), x);
    AtMul(a, b, x);
  }

  // ---------------------------------------------------------------- the parties after the first t + 1

  /** The share of a gate that such a party fixes before there are inputs. */
  ghost function LastShare(s: Setup, x: int, g: nat): int
    requires Good(s) && g < |s.lay.gates|
    decreases g
  {
    match s.lay.gates[g]
    case InputGate(_) => At(RandOf(s, g), x)
    case MultGate(_, _) => At(LowOf(s, g), x)
    case AddGate(l, r) => Add(LastShare(s, x, l), LastShare(s, x, r))
    case OutputGate(_, src) => LastShare(s, x, src)
  }

  /** Whatever the inputs turn out to be, for the last t parties it is a share of the gate's sharing. */
  lemma {:induction false} LastShareIs(s: Setup, inputs: seq<seq<int>>, p: nat, g: nat)
    requires IsPrime(P61) && Good(s) && Matches(s.lay, inputs) && g < |s.lay.gates|
    requires s.lay.clients - s.t <= p < s.lay.clients
    ensures At(GatePoly(s, inputs, g), p + 1) == LastShare(s, p + 1, g)
    decreases g
  {
    hide *;
    GoodSize(s);
    Parents(s, g);
    match s.lay.gates[g] {
      case InputGate(_) =>
        FreshLast(s, inputs, p, g);
      case MultGate(_, _) =>
        FreshLast(s, inputs, p, g);
      case AddGate(l, r) =>
        LastShareIs(s, inputs, p, l);
        LastShareIs(s, inputs, p, r);
        AddLast(s, inputs, p + 1, g);
      case OutputGate(_, src) =>
        LastShareIs(s, inputs, p, src);
        OutputLast(s, inputs, p + 1, g);
    }
  }

  lemma FreshLast(s: Setup, inputs: seq<seq<int>>, p: nat, g: nat)
    requires IsPrime(P61) && Good(s) && Matches(s.lay, inputs) && g < |s.lay.gates|
    requires s.lay.clients - s.t <= p < s.lay.clients
    requires s.lay.gates[g].InputGate? || s.lay.gates[g].MultGate?
    ensures At(GatePoly(s, inputs, g), p + 1) == LastShare(s, p + 1, g)
  {
    hide At, IsPrime, AddP, ZeroedPoly, RandOf, LowOf, Opened, InputMasked, Ids;
    GoodSize(s);
    if s.lay.gates[g].InputGate? {
      ZeroedShare(InputMasked(s, inputs, g), RandOf(s, g), s.lay.clients, s.t, p + 1);
    } else {
      ZeroedShare(Opened(s, inputs, g), LowOf(s, g), s.lay.clients, s.t, p + 1);
    }
  }

  lemma AddLast(s: Setup, inputs: seq<seq<int>>, x: int, g: nat)
    requires Good(s) && Matches(s.lay, inputs) && g < |s.lay.gates| && s.lay.gates[g].AddGate?
    requires s.lay.gates[g].left < g && s.lay.gates[g].right < g
    requires At(GatePoly(s, inputs, s.lay.gates[g].left), x) == LastShare(s, x, s.lay.gates[g].left)
    requires At(GatePoly(s, inputs, s.lay.gates[g].right), x) == LastShare(s, x, s.lay.gates[g].right)
    ensures At(GatePoly(s, inputs, g), x) == LastShare(s, x, g)
  {
    hide At, Add, AddP, Ids;
    AtAdd(GatePoly(s, inputs, s.lay.gates[g].left), GatePoly(s, inputs, s.lay.gates[g].right), x);
  }

  lemma OutputLast(s: Setup, inputs: seq<seq<int>>, x: int, g: nat)
    requires Good(s) && Matches(s.lay, inputs) && g < |s.lay.gates| && s.lay.gates[g].OutputGate? && s.lay.gates[g].src < g
    requires At(GatePoly(s, inputs, s.lay.gates[g].src), x) == LastShare(s, x, s.lay.gates[g].src)
    ensures At(GatePoly(s, inputs, g), x) == LastShare(s, x, g)
  {
    hide At, Ids;
  }

  lemma ZeroedShare(value: int, c: Coeffs, n: nat, t: nat, x: int)
    requires IsPrime(P61) && t <= n < P61 && n - t + 1 <= x <= n
    ensures At(AddP(ZeroedPoly(value, n, t), c), x) == At(c, x)
  {
    hide At, F, IsPrime, AddP, ZeroedPoly, Add;
    ZeroedValue(value, n, t);
    AtAdd(ZeroedPoly(value, n, t), c, x);
    AddZero(c, x);
  }

  lemma AddZero(c: Coeffs, x: int)
    ensures Add(F(0), At(c, x)) == At(c, x)
  {
    hide F;
    AtIs(c, x);
    ZeroIsZero();
  }

  /** What a party after the first t + 1 sends to P1 for a multiplication. */
  ghost function LastProduct(s: Setup, x: int, g: nat): int
    requires Good(s) && g < |s.lay.gates| && s.lay.gates[g].MultGate?
  {
    Sub(Mul(LastShare(s, x, s.lay.gates[g].left), LastShare(s, x, s.lay.gates[g].right)), At(HighOf(s, g), x))
  }

  lemma LastProductIs(s: Setup, inputs: seq<seq<int>>, p: nat, g: nat)
    requires IsPrime(P61) && Good(s) && Matches(s.lay, inputs) && g < |s.lay.gates| && s.lay.gates[g].MultGate?
    requires s.lay.clients - s.t <= p < s.lay.clients
    ensures At(MultProduct(s, inputs, g), p + 1) == LastProduct(s, p + 1, g)
  {
    hide At, IsPrime, Sub, Mul, Good, GatePoly, LastShare, MultProduct;
    MultProductAt(s, inputs, g, p + 1);
    LastShareIs(s, inputs, p, s.lay.gates[g].left);
    LastShareIs(s, inputs, p, s.lay.gates[g].right);
  }

  /** With n = 2t + 1 all shares are shares of the product, and P1 opens it. */
  lemma OpenedIs(s: Setup, inputs: seq<seq<int>>, g: nat)
    requires IsPrime(P61) && Good(s) && Matches(s.lay, inputs) && g < |s.lay.gates| && s.lay.gates[g].MultGate?
    requires s.lay.clients == 2 * s.t + 1
    ensures Opened(s, inputs, g) == At(MultProduct(s, inputs, g), 0)
  {
    hide At, IsPrime, Ids, Good, Matches, GatePoly, MultProduct, Rebuilt, OpenShares;
    GoodSize(s);
    forall i | 0 <= i < s.lay.clients ensures OpenShares(s, inputs, g)[i] == At(MultProduct(s, inputs, g), i + 1) {
      OpenShareIs(s, inputs, g, i);
    }
    RebuiltIs(MultProduct(s, inputs, g), OpenShares(s, inputs, g), 0);
  }

  lemma OpenShareIs(s: Setup, inputs: seq<seq<int>>, g: nat, i: nat)
    requires IsPrime(P61) && Good(s) && Matches(s.lay, inputs) && g < |s.lay.gates| && s.lay.gates[g].MultGate?
    requires s.lay.clients == 2 * s.t + 1 && i < s.lay.clients
    ensures OpenShares(s, inputs, g)[i] == At(MultProduct(s, inputs, g), i + 1)
  {
    hide At, IsPrime, Ids, Good, Matches, GatePoly, MultProduct, LastProduct, HighOf, LastShare;
    if i > s.t {
      LastProductIs(s, inputs, i, g);
    }
  }
}
