/** The radix-2 transform of PackedSS.hpp: an in-place pass that reorders by bit reversal
    while it forms the first butterflies, followed by log-many butterfly stages. */
module Fft {
  import opened Modular
  import opened Poly

  /** A resizable vector of field elements, updated in place by its users. */
  class FieldVector {
    var elems: seq<int>

    constructor (s: seq<int>)
      ensures elems == s
    {
      elems := s;
    }
  }

  /** What the transform computes: the values of the input polynomial at gen^0, gen^1, ... */
  function Dft(p: nat, gen: int, c: seq<int>): (r: seq<int>)
    requires p > 0
    ensures |r| == |c| && Canon(p, r)
  {
    seq(|c|, j requires 0 <= j < |c| => Res(p, Eval(c, Pow(gen, j))))
  }

  // ---------------------------------------------------------------- bit reversal

  /** The low w bits of k in reverse order. */
  function BitRev(k: nat, w: nat): (r: nat)
    ensures r < Pow2(w)
  {
    if w == 0 then 0 else (k % 2) * Pow2(w - 1) + BitRev(k / 2, w - 1)
  }

  lemma {:induction false} BitRevHigh(k: nat, w: nat, t: nat)
    requires k < Pow2(w) && t < 2
    ensures BitRev(k + t * Pow2(w), w + 1) == 2 * BitRev(k, w) + t
  {
    if w == 0 {
      assert k + t * Pow2(w) == t && BitRev(t, 1) == (t % 2) * Pow2(0) + BitRev(t / 2, 0);
    } else {
      hide BitRev, Pow2;
      Pow2Double(w - 1);
      BitRevHigh(k / 2, w - 1, t);
      BitRevHighStep(k, t, Pow2(w - 1));
      BitRevStep(k, w);
      BitRevStep(k + t * Pow2(w), w + 1);
    }
  }

  lemma BitRevStep(k: nat, w: nat)
    requires w > 0
    ensures BitRev(k, w) == (if k % 2 == 1 then Pow2(w - 1) else 0) + BitRev(k / 2, w - 1)
  {
    assert 0 * Pow2(w - 1) == 0 && 1 * Pow2(w - 1) == Pow2(w - 1);
  }

  lemma BitRevHighStep(k: nat, t: nat, h: nat)
    requires t < 2
    ensures (k + t * (2 * h)) % 2 == k % 2 && (k + t * (2 * h)) / 2 == k / 2 + t * h
  {
    if t == 0 {
      assert 0 * (2 * h) == 0 && 0 * h == 0;
    } else {
      assert 1 * (2 * h) == 2 * h && 1 * h == h;
    }
  }

  /** Reversing twice gives back the index, so the first pass visits every index once. */
  lemma {:induction false} BitRevInvolution(k: nat, w: nat)
    requires k < Pow2(w)
    ensures BitRev(BitRev(k, w), w) == k
  {
    if w > 0 {
      assert Pow2(w) == 2 * Pow2(w - 1);
      BitRevInvolution(k / 2, w - 1);
      BitRevHigh(BitRev(k / 2, w - 1), w - 1, k % 2);
    }
  }

  lemma BitRevZero(w: nat)
    ensures BitRev(0, w) == 0
  {
    if w > 0 { BitRevZero(w - 1); }
  }

  lemma BitRevEven(k: nat, w: nat)
    requires w > 0 && k % 2 == 0
    ensures BitRev(k, w) == BitRev(k / 2, w - 1) < Pow2(w - 1)
    ensures BitRev(k + 1, w) == BitRev(k, w) + Pow2(w - 1)
  {
    assert (k + 1) / 2 == k / 2;
    assert 0 * Pow2(w - 1) == 0;
  }

  lemma BitRevOdd(k: nat, w: nat)
    requires w > 0 && k % 2 == 1
    ensures BitRev(k, w) == Pow2(w - 1) + BitRev(k / 2, w - 1)
    ensures BitRev(k + 1, w) == BitRev(k / 2 + 1, w - 1)
  {
    assert (k + 1) / 2 == k / 2 + 1;
    assert (k + 1) % 2 == 0 && 0 * Pow2(w - 1) == 0;
  }

  /** Bit ind of an index, and the test the loop makes on it. */
  lemma TopBit(x: nat, ind: nat)
    requires x < Pow2(ind + 1)
    ensures (x / Pow2(ind)) % 2 == if x >= Pow2(ind) then 1 else 0
  {
    var h := Pow2(ind);
    assert Pow2(ind + 1) == 2 * h;
    if x >= h {
      DivIs(x, h, 1, x - h);
    } else {
      DivIs(x, h, 0, x);
    }
  }

  lemma DivIs(x: nat, h: nat, q: nat, r: nat)
    requires h > 0 && r < h && x == q * h + r
    ensures x / h == q
  {
    var q' := x / h;
    assert x == q' * h + x % h;
    assert (q' - q) * h == r - x % h;
    if q' != q { MulLess(q' - q, h); }
  }

  /** Steps a bit-reversed counter: a carry travels from the top bit downwards. */
  method ReverseAdd(itr: nat, pow: nat, ghost k: nat) returns (r: nat)
    requires pow >= 2 && itr == BitRev(k, pow - 1) && k + 1 < Pow2(pow - 1)
    ensures r == BitRev(k + 1, pow - 1)
  {
    r := itr;
    var ind: nat := pow - 2;
    ghost var j: nat := k;
    TopBit(r, ind);
    while (r / Pow2(ind)) % 2 + 1 == 2
      invariant 0 <= ind <= pow - 2
      invariant j + 1 < Pow2(ind + 1)
      invariant r == BitRev(j, ind + 1)
      invariant BitRev(k + 1, pow - 1) == BitRev(j + 1, ind + 1)
      invariant (r / Pow2(ind)) % 2 == if r >= Pow2(ind) then 1 else 0
      decreases ind
    {
      if j % 2 == 0 { BitRevEven(j, ind + 1); }
      BitRevOdd(j, ind + 1);
      assert Pow2(ind + 1) == 2 * Pow2(ind);
      assert Pow2(0) == 1;
      r := r - Pow2(ind);
      ind := ind - 1;
      j := j / 2;
      TopBit(r, ind);
    }
    if j % 2 == 1 { BitRevOdd(j, ind + 1); }
    BitRevEven(j, ind + 1);
    r := r + Pow2(ind);
  }

  // ---------------------------------------------------------------- decimation

  /** The subsequence of c whose transform occupies block b after the stages below depth d:
      every 2^d-th entry, starting at the bit reversal of b. */
  function Dec(c: seq<int>, d: nat, b: nat): seq<int> {
    if d == 0 then c
    else if b % 2 == 0 then Even(Dec(c, d - 1, b / 2))
    else Odd(Dec(c, d - 1, b / 2))
  }

  /** Where entry t of Dec(c, d, b) sits in c. */
  function DecPos(b: nat, d: nat, t: nat): nat {
    t * Pow2(d) + BitRev(b, d)
  }

  lemma DecPosStep(b: nat, d: nat, t: nat)
    requires d > 0
    ensures DecPos(b / 2, d - 1, 2 * t + b % 2) == DecPos(b, d, t)
  {
    DecPosAlgebra(t, b % 2, Pow2(d - 1));
  }

  lemma DecPosAlgebra(t: nat, v: nat, h: nat)
    ensures (2 * t + v) * h == t * (2 * h) + v * h
  {
  }

  lemma DecPosBound(b: nat, d: nat, e: nat, t: nat)
    requires t < Pow2(e)
    ensures DecPos(b, d, t) < Pow2(d + e)
  {
    hide BitRev;
    Pow2Add(e, d);
    MulMonotone(t + 1, Pow2(e), Pow2(d));
    assert (t + 1) * Pow2(d) == t * Pow2(d) + Pow2(d);
  }

  lemma {:induction false} DecIndex(c: seq<int>, d: nat, e: nat, b: nat, t: nat)
    requires |c| == Pow2(d + e) && t < Pow2(e)
    ensures |Dec(c, d, b)| == Pow2(e)
    ensures DecPos(b, d, t) < |c|
    ensures Dec(c, d, b)[t] == c[DecPos(b, d, t)]
  {
    hide DecPos, Even, Odd, BitRev;
    DecPosBound(b, d, e, t);
    if d > 0 {
      var s := 2 * t + b % 2;
      DecIndex(c, d - 1, e + 1, b / 2, s);
      DecPosStep(b, d, t);
      HalfAt(Dec(c, d - 1, b / 2), b % 2, Pow2(e), t);
    } else {
      DecPosZero(b, t);
    }
  }

  lemma HalfAt(c: seq<int>, v: nat, m: nat, t: nat)
    requires |c| == 2 * m && v < 2 && t < m
    ensures |Even(c)| == |Odd(c)| == m
    ensures (if v == 0 then Even(c) else Odd(c))[t] == c[2 * t + v]
  {
  }

  lemma DecPosZero(b: nat, t: nat)
    ensures DecPos(b, 0, t) == t
  {
    assert t * Pow2(0) == t;
  }

  // ---------------------------------------------------------------- butterflies

  /** Position r of block b, for blocks of length 2 * step. */
  function At(b: nat, r: nat, step: nat): nat {
    b * (2 * step) + r
  }

  lemma AtBound(b: nat, r: nat, step: nat, nb: nat)
    requires b < nb && r < step
    ensures At(b, r, step) + step < nb * (2 * step)
  {
    MulMonotone(b + 1, nb, 2 * step);
    assert (b + 1) * (2 * step) == b * (2 * step) + 2 * step;
  }

  lemma AtInjective(b: nat, r: nat, b': nat, r': nat, step: nat)
    requires r < step && r' < step && (b != b' || r != r')
    ensures At(b, r, step) != At(b', r', step)
    ensures At(b, r, step) != At(b', r', step) + step
  {
    var w := 2 * step;
    assert b * w - b' * w == (b - b') * w;
    if b != b' { MulLess(b - b', w); }
  }

  function Lo(p: nat, a: int, b: int, f: int): int
    requires p > 0
  {
    Res(p, a + f * b)
  }

  function Hi(p: nat, a: int, b: int, f: int): int
    requires p > 0
  {
    Res(p, a - f * b)
  }

  /** The butterflies (b, r) with r < k, and those with r == k and b < done, have been
      applied to was; the other entries are as before. */
  ghost predicate Partial(p: nat, was: seq<int>, now: seq<int>, step: nat, nb: nat, stride: int, k: nat, done: nat)
    requires p > 0
  {
    && |was| == |now| == nb * (2 * step)
    && forall b: nat, r: nat {:trigger At(b, r, step)} :: b < nb && r < step ==>
         var u := At(b, r, step);
         && u + step < |was|
         && if r < k || (r == k && b < done)
            then now[u] == Lo(p, was[u], was[u + step], Pow(stride, r))
              && now[u + step] == Hi(p, was[u], was[u + step], Pow(stride, r))
            else now[u] == was[u] && now[u + step] == was[u + step]
  }

  lemma PartialStart(p: nat, was: seq<int>, step: nat, nb: nat, stride: int)
    requires p > 0 && |was| == nb * (2 * step)
    ensures Partial(p, was, was, step, nb, stride, 0, 0)
  {
    forall b: nat, r: nat | b < nb && r < step
      ensures At(b, r, step) + step < |was|
    {
      AtBound(b, r, step, nb);
    }
  }

  lemma PartialStep(p: nat, was: seq<int>, now: seq<int>, next: seq<int>, step: nat, nb: nat, stride: int, k: nat, done: nat)
    requires p > 0 && k < step && done < nb
    requires Partial(p, was, now, step, nb, stride, k, done)
    requires |next| == |now|
    requires At(done, k, step) + step < |now|
    requires next == now[At(done, k, step) + step := Hi(p, now[At(done, k, step)], now[At(done, k, step) + step], Pow(stride, k))]
                        [At(done, k, step) := Lo(p, now[At(done, k, step)], now[At(done, k, step) + step], Pow(stride, k))]
    ensures Partial(p, was, next, step, nb, stride, k, done + 1)
  {
    hide Lo, Hi, Pow, At;
    forall b: nat, r: nat | b < nb && r < step
      ensures var u := At(b, r, step);
         && u + step < |was|
         && if r < k || (r == k && b < done + 1)
            then next[u] == Lo(p, was[u], was[u + step], Pow(stride, r))
              && next[u + step] == Hi(p, was[u], was[u + step], Pow(stride, r))
            else next[u] == was[u] && next[u + step] == was[u + step]
    {
      var u := At(b, r, step);
      if b != done || r != k {
        AtInjective(b, r, done, k, step);
        AtInjective(done, k, b, r, step);
      }
    }
  }

  lemma PartialNextColumn(p: nat, was: seq<int>, now: seq<int>, step: nat, nb: nat, stride: int, k: nat)
    requires p > 0
    requires Partial(p, was, now, step, nb, stride, k, nb)
    ensures Partial(p, was, now, step, nb, stride, k + 1, 0)
  {
    hide Lo, Hi, Pow, At;
  }

  /** After the stages below i: block b holds the transform of its subsequence. */
  ghost predicate Stage(p: nat, gen: int, c: seq<int>, pow: nat, i: nat, a: seq<int>)
    requires p > 0
  {
    && 1 <= i <= pow
    && |c| == |a| == Pow2(pow)
    && forall b: nat, r: nat :: b < Pow2(pow - i) && r < Pow2(i) ==> StageCell(p, gen, c, pow, i, a, b, r)
  }

  ghost predicate StageCell(p: nat, gen: int, c: seq<int>, pow: nat, i: nat, a: seq<int>, b: nat, r: nat)
    requires p > 0 && i <= pow
  {
    && Cell(b, r, Pow2(i)) < |a|
    && a[Cell(b, r, Pow2(i))] == Value(p, gen, Dec(c, pow - i, b), Pow2(pow - i) * r)
  }

  function Cell(b: nat, r: nat, size: nat): nat {
    b * size + r
  }

  function Value(p: nat, gen: int, s: seq<int>, e: nat): int
    requires p > 0
  {
    Res(p, Eval(s, Pow(gen, e)))
  }

  /** One butterfly computes two values of the merged polynomial. */
  lemma Butterfly(p: nat, gen: int, pow: nat, i: nat, c: seq<int>, r: nat)
    requires 1 <= i < pow && HasOrder(p, gen, pow) && r < Pow2(i)
    ensures var d := Pow2(pow - i - 1);
            var e, o := Value(p, gen, Even(c), Pow2(pow - i) * r), Value(p, gen, Odd(c), Pow2(pow - i) * r);
            && Lo(p, e, o, Pow(Res(p, Pow(gen, d)), r)) == Value(p, gen, c, d * r)
            && Hi(p, e, o, Pow(Res(p, Pow(gen, d)), r)) == Value(p, gen, c, d * (r + Pow2(i)))
  {
    hide *;
    OrderPositive(p, gen, pow);
    var d := Pow2(pow - i - 1);
    var f := Pow(Res(p, Pow(gen, d)), r);
    StrideRes(p, gen, d, r);
    Pow2Double(pow - i - 1);
    Pow2Add(pow - i - 1, i);
    Exponents(d, Pow2(pow - i), r, Pow2(i), Pow2(pow - 1));
    SplitLow(p, gen, c, d * r, f);
    HalfTurn(p, gen, pow, d * r);
    SplitHigh(p, gen, c, d * r, d * (r + Pow2(i)), f);
  }

  lemma Exponents(d: nat, d2: nat, r: nat, s: nat, h: nat)
    requires d2 == 2 * d && h == d * s
    ensures d * r >= 0 && d2 * r == 2 * (d * r) && d * (r + s) == d * r + h
  {
  }

  lemma Pow2Double(n: nat)
    ensures Pow2(n + 1) == 2 * Pow2(n)
  {
  }

  lemma SplitLow(p: nat, gen: int, c: seq<int>, e: nat, f: int)
    requires p > 0 && Res(p, f) == Res(p, Pow(gen, e))
    ensures Lo(p, Value(p, gen, Even(c), 2 * e), Value(p, gen, Odd(c), 2 * e), f) == Value(p, gen, c, e)
  {
    hide Res, Pow, Eval, Even, Odd, Lo;
    PowAdd(gen, e, e);
    ButterflyLow(p, c, Pow(gen, e), f);
  }

  lemma SplitHigh(p: nat, gen: int, c: seq<int>, e: nat, e': nat, f: int)
    requires p > 0 && Res(p, f) == Res(p, Pow(gen, e)) && Res(p, Pow(gen, e')) == Res(p, -Pow(gen, e))
    ensures Hi(p, Value(p, gen, Even(c), 2 * e), Value(p, gen, Odd(c), 2 * e), f) == Value(p, gen, c, e')
  {
    hide Res, Pow, Eval, Even, Odd, Hi;
    PowAdd(gen, e, e);
    ButterflyHigh(p, c, Pow(gen, e), Pow(gen, e'), f);
  }

  lemma StrideRes(p: nat, gen: int, d: nat, r: nat)
    requires p > 0
    ensures Res(p, Pow(Res(p, Pow(gen, d)), r)) == Res(p, Pow(gen, d * r))
  {
    hide *;
    ResRes(p, Pow(gen, d));
    PowRes(p, Res(p, Pow(gen, d)), Pow(gen, d), r);
    PowPow(gen, d, r);
  }

  lemma HalfTurn(p: nat, gen: int, pow: nat, e: nat)
    requires HasOrder(p, gen, pow)
    ensures Res(p, Pow(gen, e + Pow2(pow - 1))) == Res(p, -Pow(gen, e))
  {
    hide Res, Pow;
    PowAdd(gen, e, Pow2(pow - 1));
    ResMul(p, Pow(gen, Pow2(pow - 1)), Pow(gen, e), -1);
    assert Pow(gen, e) * -1 == -Pow(gen, e);
  }

  lemma ButterflyLow(p: nat, c: seq<int>, z: int, f: int)
    requires p > 0 && Res(p, f) == Res(p, z)
    ensures Lo(p, Res(p, Eval(Even(c), z * z)), Res(p, Eval(Odd(c), z * z)), f) == Res(p, Eval(c, z))
  {
    hide Res, Eval, Even, Odd;
    var e, o := Eval(Even(c), z * z), Eval(Odd(c), z * z);
    EvalSplit(c, z);
    ResRes(p, e);
    ResRes(p, o);
    ResOps(p, f, Res(p, o), z, o);
    ResOps(p, Res(p, e), f * Res(p, o), e, z * o);
  }

  lemma ButterflyHigh(p: nat, c: seq<int>, z: int, y: int, f: int)
    requires p > 0 && Res(p, f) == Res(p, z) && Res(p, y) == Res(p, -z)
    ensures Hi(p, Res(p, Eval(Even(c), z * z)), Res(p, Eval(Odd(c), z * z)), f) == Res(p, Eval(c, y))
  {
    hide Res, Eval, Even, Odd;
    var e, o := Eval(Even(c), z * z), Eval(Odd(c), z * z);
    forall i | 0 <= i < |c| ensures Res(p, c[i]) == Res(p, c[i]) {}
    EvalRes(p, c, c, y, -z);
    EvalSplit(c, -z);
    assert (-z) * (-z) == z * z;
    assert (-z) * o == -(z * o);
    ResRes(p, e);
    ResRes(p, o);
    ResOps(p, f, Res(p, o), z, o);
    ResOps(p, Res(p, e), f * Res(p, o), e, z * o);
  }

  lemma BlockIndex(b: nat, r: nat, step: nat)
    ensures At(b, r, step) == Cell(b, r, 2 * step) == Cell(2 * b, r, step)
    ensures At(b, r, step) + step == Cell(b, r + step, 2 * step) == Cell(2 * b + 1, r, step)
  {
    assert b * (2 * step) == (2 * b) * step;
    assert (2 * b + 1) * step == (2 * b) * step + step;
  }

  lemma DecChildren(c: seq<int>, d: nat, b: nat)
    ensures Dec(c, d + 1, 2 * b) == Even(Dec(c, d, b))
    ensures Dec(c, d + 1, 2 * b + 1) == Odd(Dec(c, d, b))
  {
    hide Even, Odd;
    assert (2 * b) / 2 == b && (2 * b) % 2 == 0;
    assert (2 * b + 1) / 2 == b && (2 * b + 1) % 2 == 1;
  }

  lemma StageAt(p: nat, gen: int, c: seq<int>, pow: nat, i: nat, a: seq<int>, b: nat, r: nat)
    requires p > 0 && Stage(p, gen, c, pow, i, a)
    requires b < Pow2(pow - i) && r < Pow2(i)
    ensures Cell(b, r, Pow2(i)) < |a|
    ensures a[Cell(b, r, Pow2(i))] == Value(p, gen, Dec(c, pow - i, b), Pow2(pow - i) * r)
  {
    assert StageCell(p, gen, c, pow, i, a, b, r);
  }

  lemma StageStepAt(p: nat, gen: int, c: seq<int>, pow: nat, i: nat, was: seq<int>, now: seq<int>, b: nat, r: nat)
    requires 1 <= i < pow && HasOrder(p, gen, pow)
    requires b < Pow2(pow - i - 1) && r < Pow2(i)
    requires Stage(p, gen, c, pow, i, was)
    requires Partial(p, was, now, Pow2(i), Pow2(pow - i - 1), Res(p, Pow(gen, Pow2(pow - i - 1))), Pow2(i), 0)
    ensures At(b, r, Pow2(i)) + Pow2(i) < |now|
    ensures now[At(b, r, Pow2(i))] == Value(p, gen, Dec(c, pow - i - 1, b), Pow2(pow - i - 1) * r)
    ensures now[At(b, r, Pow2(i)) + Pow2(i)] == Value(p, gen, Dec(c, pow - i - 1, b), Pow2(pow - i - 1) * (r + Pow2(i)))
  {
    hide Res, Pow, Dec, Value, Stage, Lo, Hi, At, Cell;
    var step := Pow2(i);
    assert Pow2(pow - i) == 2 * Pow2(pow - i - 1);
    StageAt(p, gen, c, pow, i, was, 2 * b, r);
    StageAt(p, gen, c, pow, i, was, 2 * b + 1, r);
    BlockIndex(b, r, step);
    DecChildren(c, pow - i - 1, b);
    Butterfly(p, gen, pow, i, Dec(c, pow - i - 1, b), r);
  }

  lemma StageStep(p: nat, gen: int, c: seq<int>, pow: nat, i: nat, was: seq<int>, now: seq<int>)
    requires 1 <= i < pow && HasOrder(p, gen, pow)
    requires Stage(p, gen, c, pow, i, was)
    requires Partial(p, was, now, Pow2(i), Pow2(pow - i - 1), Res(p, Pow(gen, Pow2(pow - i - 1))), Pow2(i), 0)
    ensures Stage(p, gen, c, pow, i + 1, now)
  {
    hide Res, Pow, Dec, Value, Cell, At;
    assert Pow2(i + 1) == 2 * Pow2(i);
    var next := i + 1;
    forall b: nat, r: nat | b < Pow2(pow - next) && r < Pow2(next)
      ensures StageCell(p, gen, c, pow, next, now, b, r)
    {
      var s := if r < Pow2(i) then r else r - Pow2(i);
      StageStepAt(p, gen, c, pow, i, was, now, b, s);
      BlockIndex(b, s, Pow2(i));
    }
  }

  /** The pass that reorders and forms the butterflies of stage 0. */
  ghost predicate FirstPass(p: nat, c: seq<int>, pow: nat, k: nat, a: seq<int>)
    requires p > 0 && pow >= 1
  {
    && |c| == |a| == Pow2(pow)
    && k <= Pow2(pow - 1)
    && forall t: nat :: t < k ==> PassCell(p, c, pow, a, t)
  }

  ghost predicate PassCell(p: nat, c: seq<int>, pow: nat, a: seq<int>, t: nat)
    requires p > 0 && pow >= 1 && |c| == Pow2(pow)
  {
    2 * t + 1 < |a| && a[2 * t] == Sum(p, c, pow, t) && a[2 * t + 1] == Dif(p, c, pow, t)
  }

  function Sum(p: nat, c: seq<int>, pow: nat, t: nat): int
    requires p > 0 && pow >= 1 && |c| == Pow2(pow)
  {
    assert Pow2(pow) == 2 * Pow2(pow - 1);
    Res(p, c[BitRev(t, pow - 1)] + c[BitRev(t, pow - 1) + Pow2(pow - 1)])
  }

  function Dif(p: nat, c: seq<int>, pow: nat, t: nat): int
    requires p > 0 && pow >= 1 && |c| == Pow2(pow)
  {
    assert Pow2(pow) == 2 * Pow2(pow - 1);
    Res(p, c[BitRev(t, pow - 1)] - c[BitRev(t, pow - 1) + Pow2(pow - 1)])
  }

  lemma EvalTwo(s: seq<int>, z: int)
    requires |s| == 2
    ensures Eval(s, z) == s[0] + z * s[1]
  {
    assert s[1..][1..] == [];
    assert Eval(s[1..], z) == s[1] + z * 0;
  }

  lemma StageInit(p: nat, gen: int, c: seq<int>, pow: nat, a: seq<int>)
    requires HasOrder(p, gen, pow)
    requires FirstPass(p, c, pow, Pow2(pow - 1), a)
    ensures Stage(p, gen, c, pow, 1, a)
  {
    hide FirstPass, PassCell, StageCell;
    assert Pow2(1) == 2 * Pow2(0);
    FirstPassSize(p, c, pow, a);
    forall t: nat | t < Pow2(pow - 1) ensures PassCell(p, c, pow, a, t) { FirstPassAt(p, c, pow, a, t); }
    forall b: nat, r: nat | b < Pow2(pow - 1) && r < Pow2(1)
      ensures StageCell(p, gen, c, pow, 1, a, b, r)
    {
      assert PassCell(p, c, pow, a, b);
      StageInitAt(p, gen, c, pow, a, b, r);
    }
  }

  lemma FirstPassAt(p: nat, c: seq<int>, pow: nat, a: seq<int>, t: nat)
    requires p > 0 && pow >= 1 && FirstPass(p, c, pow, Pow2(pow - 1), a) && t < Pow2(pow - 1)
    ensures |c| == Pow2(pow) && PassCell(p, c, pow, a, t)
  {
  }

  lemma FirstPassSize(p: nat, c: seq<int>, pow: nat, a: seq<int>)
    requires p > 0 && pow >= 1 && FirstPass(p, c, pow, Pow2(pow - 1), a)
    ensures |c| == |a| == Pow2(pow)
  {
  }

  lemma StageInitAt(p: nat, gen: int, c: seq<int>, pow: nat, a: seq<int>, b: nat, r: nat)
    requires HasOrder(p, gen, pow)
    requires |c| == Pow2(pow) && PassCell(p, c, pow, a, b)
    requires r < 2
    ensures StageCell(p, gen, c, pow, 1, a, b, r)
  {
    hide *;
    OrderHalf(p, gen, pow);
    var s := Dec(c, pow - 1, b);
    DecPair(c, pow, b);
    PassCellIs(p, c, pow, a, b, s);
    EndPoints(p, gen, Pow2(pow - 1), s);
    if r == 0 {
      StageCellIs(p, gen, c, pow, a, b, 0);
    } else {
      StageCellIs(p, gen, c, pow, a, b, 1);
    }
  }

  lemma OrderHalf(p: nat, gen: int, pow: nat)
    requires HasOrder(p, gen, pow)
    ensures p >= 3 && pow >= 1 && Res(p, Pow(gen, Pow2(pow - 1))) == Res(p, -1)
  {
  }

  lemma PassCellIs(p: nat, c: seq<int>, pow: nat, a: seq<int>, b: nat, s: seq<int>)
    requires p > 0 && pow >= 1 && |c| == Pow2(pow) && PassCell(p, c, pow, a, b)
    requires |s| == 2 && BitRev(b, pow - 1) + Pow2(pow - 1) < |c|
    requires s[0] == c[BitRev(b, pow - 1)] && s[1] == c[BitRev(b, pow - 1) + Pow2(pow - 1)]
    ensures 2 * b + 1 < |a| && a[2 * b] == Res(p, s[0] + s[1]) && a[2 * b + 1] == Res(p, s[0] - s[1])
  {
    hide Res;
  }

  lemma StageCellIs(p: nat, gen: int, c: seq<int>, pow: nat, a: seq<int>, b: nat, r: nat)
    requires p > 0 && pow >= 1 && r < 2 && 2 * b + 1 < |a|
    requires a[2 * b + r] == Value(p, gen, Dec(c, pow - 1, b), if r == 0 then 0 else Pow2(pow - 1))
    ensures StageCell(p, gen, c, pow, 1, a, b, r)
  {
    hide Value, Dec;
    assert Pow2(1) == 2 * Pow2(0);
    assert Pow2(pow - 1) * r == if r == 0 then 0 else Pow2(pow - 1);
    assert Cell(b, r, 2) == 2 * b + r;
  }

  lemma DecPair(c: seq<int>, pow: nat, b: nat)
    requires pow >= 1 && |c| == Pow2(pow)
    ensures |Dec(c, pow - 1, b)| == 2 && BitRev(b, pow - 1) + Pow2(pow - 1) < |c|
    ensures Dec(c, pow - 1, b)[0] == c[BitRev(b, pow - 1)]
    ensures Dec(c, pow - 1, b)[1] == c[BitRev(b, pow - 1) + Pow2(pow - 1)]
  {
    hide Dec;
    var h := Pow2(pow - 1);
    DecIndex(c, pow - 1, 1, b, 0);
    DecIndex(c, pow - 1, 1, b, 1);
    assert 0 * h == 0 && 1 * h == h;
    assert Pow2(1) == 2 * Pow2(0);
  }

  lemma EndPoints(p: nat, gen: int, h: nat, s: seq<int>)
    requires p > 0 && |s| == 2 && Res(p, Pow(gen, h)) == Res(p, -1)
    ensures Value(p, gen, s, 0) == Res(p, s[0] + s[1])
    ensures Value(p, gen, s, h) == Res(p, s[0] - s[1])
  {
    hide Res, Eval;
    EvalTwo(s, Pow(gen, 0));
    EvalTwo(s, Pow(gen, h));
    assert Pow(gen, 0) * s[1] == s[1];
    ResMul(p, Pow(gen, h), s[1], -1);
    ResOps(p, s[0], Pow(gen, h) * s[1], s[0], -s[1]);
  }

  lemma StageFinal(p: nat, gen: int, c: seq<int>, pow: nat, a: seq<int>)
    requires p > 0 && Stage(p, gen, c, pow, pow, a)
    ensures a == Dft(p, gen, c)
  {
    hide Res, Pow, Eval;
    assert Pow2(0) == 1;
    assert Dec(c, 0, 0) == c;
    forall r: nat | r < |a| ensures a[r] == Res(p, Eval(c, Pow(gen, r))) {
      StageAt(p, gen, c, pow, pow, a, 0, r);
      assert Cell(0, r, Pow2(pow)) == r;
      assert Pow2(0) * r == r;
    }
  }

  // ---------------------------------------------------------------- the transforms

  /** The stages after the first pass; both transforms run them. */
  method Butterflies(p: nat, gen: int, v: FieldVector, pow: nat, ghost c: seq<int>)
    requires HasOrder(p, gen, pow)
    requires Stage(p, gen, c, pow, 1, v.elems)
    modifies v
    ensures v.elems == Dft(p, gen, c)
  {
    var orderGr := Pow2(pow);
    for i := 1 to pow
      invariant Stage(p, gen, c, pow, i, v.elems)
    {
      var step := Pow2(i);
      var jmp := 2 * step;
      ghost var nb := Pow2(pow - i - 1);
      var stride := Res(p, Pow(gen, orderGr / Pow2(i + 1)));
      var factor := Res(p, 1);
      ghost var was := v.elems;
      StageGeometry(pow, i);
      PartialStart(p, was, step, nb, stride);
      for k := 0 to step
        invariant factor == Res(p, Pow(stride, k))
        invariant Partial(p, was, v.elems, step, nb, stride, k, 0)
      {
        StageColumn(p, v, step, jmp, factor, k, orderGr, was, nb, stride);
        PartialNextColumn(p, was, v.elems, step, nb, stride, k);
        ResReduced(p, stride, Pow(stride, k));
        ResRes(p, Pow(gen, orderGr / Pow2(i + 1)));
        factor := Res(p, factor * stride);
        NextFactor(p, stride, k);
      }
      StageStep(p, gen, c, pow, i, was, v.elems);
    }
    StageFinal(p, gen, c, pow, v.elems);
  }

  lemma NextFactor(p: nat, stride: int, k: nat)
    requires p > 0
    ensures Res(p, Res(p, Pow(stride, k)) * stride) == Res(p, Pow(stride, k + 1))
  {
    hide Res;
    ResRes(p, Pow(stride, k));
    ResMul(p, Res(p, Pow(stride, k)), stride, Pow(stride, k));
    assert Pow(stride, k + 1) == stride * Pow(stride, k);
  }

  lemma StageGeometry(pow: nat, i: nat)
    requires i < pow
    ensures Pow2(pow) / Pow2(i + 1) == Pow2(pow - i - 1)
    ensures Pow2(pow) == Pow2(pow - i - 1) * (2 * Pow2(i))
  {
    Pow2Add(pow - i - 1, i + 1);
    DivIs(Pow2(pow), Pow2(i + 1), Pow2(pow - i - 1), 0);
  }

  /** The butterflies with twiddle index k in every block. */
  method StageColumn(p: nat, v: FieldVector, step: nat, jmp: nat, factor: int, k: nat, orderGr: nat,
                     ghost was: seq<int>, ghost nb: nat, ghost stride: int)
    requires p > 0 && k < step && jmp == 2 * step && orderGr == nb * (2 * step)
    requires factor == Res(p, Pow(stride, k))
    requires Partial(p, was, v.elems, step, nb, stride, k, 0)
    modifies v
    ensures Partial(p, was, v.elems, step, nb, stride, k, nb)
  {
    hide Res, Pow, Partial;
    var base := k;
    ghost var done: nat := 0;
    while base < orderGr
      invariant base == done * jmp + k
      invariant done <= nb
      invariant Partial(p, was, v.elems, step, nb, stride, k, done)
      decreases nb - done
    {
      ColumnProgress(done, k, step, nb);
      PartialSize(p, was, v.elems, step, nb, stride, k, done);
      ghost var now := v.elems;
      var y := Res(p, factor * v.elems[base + step]);
      ButterflyOps(p, v.elems[base], v.elems[base + step], Pow(stride, k));
      v.elems := v.elems[base + step := Res(p, v.elems[base] - y)];
      v.elems := v.elems[base := Res(p, v.elems[base] + y)];
      PartialStep(p, was, now, v.elems, step, nb, stride, k, done);
      base := base + jmp;
      assert (done + 1) * jmp == done * jmp + jmp;
      done := done + 1;
    }
    if done < nb { AtBound(done, k, step, nb); }
  }

  lemma PartialSize(p: nat, was: seq<int>, now: seq<int>, step: nat, nb: nat, stride: int, k: nat, done: nat)
    requires p > 0 && Partial(p, was, now, step, nb, stride, k, done)
    ensures |was| == |now| == nb * (2 * step)
  {
  }

  lemma ColumnProgress(done: nat, k: nat, step: nat, nb: nat)
    requires k < step && done <= nb && done * (2 * step) + k < nb * (2 * step)
    ensures done < nb && At(done, k, step) + step < nb * (2 * step)
  {
    if done < nb { AtBound(done, k, step, nb); }
  }

  lemma ButterflyOps(p: nat, a: int, b: int, f: int)
    requires p > 0
    ensures Res(p, a - Res(p, Res(p, f) * b)) == Hi(p, a, b, f)
    ensures Res(p, a + Res(p, Res(p, f) * b)) == Lo(p, a, b, f)
  {
    hide Res;
    ResRes(p, f);
    ResMul(p, Res(p, f), b, f);
    var y := Res(p, f) * b;
    ResRes(p, y);
    ResOps(p, a, Res(p, y), a, f * b);
  }

  lemma FirstPassStep(p: nat, c: seq<int>, pow: nat, k: nat, a: seq<int>, next: seq<int>)
    requires p > 0 && pow >= 1 && k < Pow2(pow - 1) && FirstPass(p, c, pow, k, a)
    requires 2 * k + 1 < |a|
    requires next == a[2 * k := Sum(p, c, pow, k)][2 * k + 1 := Dif(p, c, pow, k)]
    ensures FirstPass(p, c, pow, k + 1, next)
  {
    hide Sum, Dif;
    forall t: nat | t < k + 1 ensures PassCell(p, c, pow, next, t) {
      if t < k { assert PassCell(p, c, pow, a, t); }
    }
  }

  lemma BitRevBound(k: nat, pow: nat)
    requires pow >= 1
    ensures BitRev(k, pow - 1) + Pow2(pow - 1) < Pow2(pow)
  {
  }

  /** The first butterfly at the overwritten pair kd, kd + 1: operands already overwritten
      are taken from the scratch copy, the others from the vector. */
  method FirstButterfly(p: nat, coeffs: FieldVector, scratch: array<int>, kd: nat, base: nat, step: nat, ghost c: seq<int>)
    requires p > 0 && |coeffs.elems| == |c| == scratch.Length == 2 * step
    requires kd % 2 == 0 && kd + 1 < |c| && base + step < |c|
    requires forall t :: 0 <= t < kd ==> scratch[t] == c[t]
    requires forall t :: kd <= t < |c| ==> coeffs.elems[t] == c[t]
    modifies coeffs, scratch
    ensures forall t :: 0 <= t < kd + 2 ==> scratch[t] == c[t]
    ensures coeffs.elems == old(coeffs.elems)[kd := Res(p, c[base] + c[base + step])][kd + 1 := Res(p, c[base] - c[base + step])]
  {
    scratch[kd] := coeffs.elems[kd];
    scratch[kd + 1] := coeffs.elems[kd + 1];
    if kd >= base + step {
      coeffs.elems := coeffs.elems[kd := Res(p, scratch[base] + scratch[base + step])];
      coeffs.elems := coeffs.elems[kd + 1 := Res(p, scratch[base] - scratch[base + step])];
    } else if kd >= base {
      coeffs.elems := coeffs.elems[kd := Res(p, scratch[base] + coeffs.elems[base + step])];
      coeffs.elems := coeffs.elems[kd + 1 := Res(p, scratch[base] - coeffs.elems[base + step])];
    } else {
      coeffs.elems := coeffs.elems[kd := Res(p, coeffs.elems[base] + coeffs.elems[base + step])];
      coeffs.elems := coeffs.elems[kd + 1 := Res(p, coeffs.elems[base] - coeffs.elems[base + step])];
    }
  }

  /** In-place transform: position j ends up holding the input polynomial at gen^j. */
  method Transform(p: nat, gen: int, coeffs: FieldVector, pow: nat)
    requires p >= 3 && (pow == 0 || HasOrder(p, gen, pow))
    requires |coeffs.elems| == Pow2(pow) && Canon(p, coeffs.elems)
    modifies coeffs
    ensures coeffs.elems == Dft(p, gen, old(coeffs.elems))
  {
    ghost var c := coeffs.elems;
    if pow == 0 {
      TransformOne(p, gen, c);
      return;
    } else if pow == 1 {
      var save := coeffs.elems[0];
      coeffs.elems := coeffs.elems[0 := Res(p, coeffs.elems[0] + coeffs.elems[1])];
      coeffs.elems := coeffs.elems[1 := Res(p, save - coeffs.elems[1])];
      assert BitRev(0, 0) == 0 && Pow2(0) == 1;
      StageInit(p, gen, c, 1, coeffs.elems);
      StageFinal(p, gen, c, 1, coeffs.elems);
      return;
    }
    FirstStage(p, coeffs, pow);
    StageInit(p, gen, c, pow, coeffs.elems);
    Butterflies(p, gen, coeffs, pow, c);
  }

  /** One round of the first pass. */
  method FirstRound(p: nat, coeffs: FieldVector, scratch: array<int>, pow: nat, base: nat, step: nat, k: nat, ghost c: seq<int>)
    requires p > 0 && pow >= 2 && step == Pow2(pow - 1) && k < step && base == BitRev(k, pow - 1)
    requires |coeffs.elems| == |c| == scratch.Length == 2 * step && FirstPass(p, c, pow, k, coeffs.elems)
    requires forall t :: 0 <= t < 2 * k ==> scratch[t] == c[t]
    requires forall t :: 2 * k <= t < |c| ==> coeffs.elems[t] == c[t]
    modifies coeffs, scratch
    ensures |coeffs.elems| == |c| && FirstPass(p, c, pow, k + 1, coeffs.elems)
    ensures forall t :: 0 <= t < 2 * (k + 1) ==> scratch[t] == c[t]
    ensures forall t :: 2 * (k + 1) <= t < |c| ==> coeffs.elems[t] == c[t]
  {
    hide Res, PassCell, FirstPass;
    ghost var before := coeffs.elems;
    BitRevBound(k, pow);
    FirstButterfly(p, coeffs, scratch, 2 * k, base, step, c);
    FirstPassStep(p, c, pow, k, before, coeffs.elems);
  }

  /** The first pass of the in-place transform: pairs are overwritten from the front while
      the original entries they displace are kept in a scratch array. */
  method FirstStage(p: nat, coeffs: FieldVector, pow: nat)
    requires p > 0 && pow >= 2 && |coeffs.elems| == Pow2(pow)
    modifies coeffs
    ensures FirstPass(p, old(coeffs.elems), pow, Pow2(pow - 1), coeffs.elems)
  {
    hide Res, PassCell;
    ghost var c := coeffs.elems;
    var step := Pow2(pow - 1);
    assert Pow2(pow) == 2 * step;
    var scratch := new int[Pow2(pow)];
    var base := 0;
    BitRevZero(pow - 1);
    for k := 0 to step
      invariant |coeffs.elems| == Pow2(pow)
      invariant FirstPass(p, c, pow, k, coeffs.elems)
      invariant forall t :: 0 <= t < 2 * k ==> scratch[t] == c[t]
      invariant forall t :: 2 * k <= t < |c| ==> coeffs.elems[t] == c[t]
      invariant k < step ==> base == BitRev(k, pow - 1)
    {
      FirstRound(p, coeffs, scratch, pow, base, step, k, c);
      if k + 1 < step {
        base := ReverseAdd(base, pow, k);
      }
    }
  }

  lemma TransformOne(p: nat, gen: int, c: seq<int>)
    requires p > 0 && |c| == Pow2(0) && Canon(p, c)
    ensures c == Dft(p, gen, c)
  {
    assert c[1..] == [];
    var z := Pow(gen, 0);
    assert Eval(c, z) == c[0] + z * 0;
    ResSmall(p, c[0]);
  }

  /** The same transform into a new vector, leaving the input alone. */
  method PreserveTransform(p: nat, gen: int, coeffs: FieldVector, pow: nat) returns (out: FieldVector)
    requires p >= 3 && (pow == 0 || HasOrder(p, gen, pow))
    requires |coeffs.elems| == Pow2(pow) && Canon(p, coeffs.elems)
    ensures fresh(out)
    ensures out.elems == Dft(p, gen, coeffs.elems)
  {
    var orderGr := Pow2(pow);
    ghost var c := coeffs.elems;
    out := new FieldVector(seq(orderGr, _ => 0));
    if pow == 0 {
      out.elems := out.elems[0 := coeffs.elems[0]];
      TransformOne(p, gen, c);
      assert out.elems == c;
      return;
    } else if pow == 1 {
      out.elems := out.elems[0 := Res(p, coeffs.elems[0] + coeffs.elems[1])];
      out.elems := out.elems[1 := Res(p, coeffs.elems[0] - coeffs.elems[1])];
      assert BitRev(0, 0) == 0 && Pow2(0) == 1;
      StageInit(p, gen, c, 1, out.elems);
      StageFinal(p, gen, c, 1, out.elems);
      return;
    }
    var step := Pow2(pow - 1);
    assert Pow2(pow) == 2 * step;
    var base := 0;
    BitRevZero(pow - 1);
    for k := 0 to step
      invariant coeffs.elems == c
      invariant FirstPass(p, c, pow, k, out.elems)
      invariant k < step ==> base == BitRev(k, pow - 1)
    {
      var kd := 2 * k;
      ghost var before := out.elems;
      out.elems := out.elems[kd := Res(p, coeffs.elems[base] + coeffs.elems[base + step])];
      out.elems := out.elems[kd + 1 := Res(p, coeffs.elems[base] - coeffs.elems[base + step])];
      FirstPassStep(p, c, pow, k, before, out.elems);
      if k + 1 < step {
        base := ReverseAdd(base, pow, k);
      }
    }
    StageInit(p, gen, c, pow, out.elems);
    Butterflies(p, gen, out, pow, c);
  }
}
