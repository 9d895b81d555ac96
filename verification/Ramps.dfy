/** Polynomials that vanish on a run of consecutive points. */
module Ramps {
  import opened Modular
  import opened Poly
  import opened Scl

  /** The product of j - x over the points j = a + 1, ..., b. */
  function Gap(a: nat, b: nat): (c: seq<int>)
    requires a <= b
    ensures |c| == b - a + 1
    decreases b
  {
    if a == b then [1] else Conv(Gap(a, b - 1), [b as int, -1])
  }

  lemma GapStep(a: nat, b: nat, x: int)
    requires a < b
    ensures Eval(Gap(a, b), x) == Eval(Gap(a, b - 1), x) * (b - x)
  {
    hide Eval, Conv;
    EvalConv(Gap(a, b - 1), [b as int, -1], x);
    LineIs(b, x);
  }

  lemma LineIs(b: int, x: int)
    ensures Eval([b, -1], x) == b - x && Eval([1], x) == 1
  {
    assert [b, -1][1..] == [-1] && [-1][1..] == [] && [1][1..] == [];
    assert Eval([-1], x) == -1 + x * Eval([], x);
    assert Eval([b, -1], x) == b + x * Eval([-1], x);
    assert x * -1 == -x;
  }

  lemma {:induction false} GapVanishes(a: nat, b: nat, x: int)
    requires a < x <= b
    ensures Eval(Gap(a, b), x) == 0
  {
    hide Eval, Gap;
    GapStep(a, b, x);
    if x < b {
      GapVanishes(a, b - 1, x);
    }
  }

  /** Its values at 0 and 1 are as a and b. */
  lemma {:induction false} GapRatio(a: nat, b: nat)
    requires a <= b
    ensures Eval(Gap(a, b), 1) * b == Eval(Gap(a, b), 0) * a
    decreases b
  {
    if a == b {
      LineIs(0, 0);
      LineIs(0, 1);
    } else {
      hide Eval, Gap;
      GapRatio(a, b - 1);
      GapStep(a, b, 0);
      GapStep(a, b, 1);
      RatioStep(Eval(Gap(a, b - 1), 0), Eval(Gap(a, b - 1), 1), a, b);
    }
  }

  lemma RatioStep(e0: int, e1: int, a: int, b: int)
    requires e1 * (b - 1) == e0 * a
    ensures (e1 * (b - 1)) * b == (e0 * (b - 0)) * a
  {
    assert (e0 * b) * a == (e0 * a) * b;
  }

  /** It does not vanish before the run. */
  lemma {:induction false} GapNonzero(a: nat, b: nat, x: nat)
    requires IsPrime(P61) && x <= a <= b < P61
    ensures F(Eval(Gap(a, b), x)) != 0
    decreases b
  {
    if a == b {
      LineIs(0, x);
      ResSmall(P61, 1);
    } else {
      hide Eval, Gap, IsPrime;
      GapNonzero(a, b - 1, x);
      GapStep(a, b, x);
      ResSmall(P61, b - x);
      if F(Eval(Gap(a, b), x)) == 0 {
        Cancel(P61, Eval(Gap(a, b - 1), x), b - x);
      }
    }
  }

  /** The multiple of Gap(a, b) with the value 1 at x. */
  function Ramp(a: nat, b: nat, x: nat): (c: seq<int>)
    requires a <= b
    ensures |c| == b - a + 1
  {
    Scale(Inv(P61, Eval(Gap(a, b), x)), Gap(a, b))
  }

  lemma RampValues(a: nat, b: nat, x: nat)
    requires IsPrime(P61) && x <= a <= b < P61
    ensures At(Ramp(a, b, x), x) == F(1)
    ensures forall y: int :: a < y <= b ==> At(Ramp(a, b, x), y) == F(0)
  {
    hide Eval, Gap, IsPrime, Inv, Res;
    var e := Eval(Gap(a, b), x);
    GapNonzero(a, b, x);
    InvMul(P61, e);
    EvalScale(Inv(P61, e), Gap(a, b), x);
    assert e * Inv(P61, e) == Inv(P61, e) * e;
    ResSmall(P61, 1);
    forall y: int | a < y <= b ensures At(Ramp(a, b, x), y) == F(0) {
      GapVanishes(a, b, y);
      EvalScale(Inv(P61, e), Gap(a, b), y);
      assert Inv(P61, e) * 0 == 0;
    }
  }

  /** The values at 0 and 1 are as a and b. */
  lemma RampRatio(a: nat, b: nat, x: nat)
    requires a <= b
    ensures F(At(Ramp(a, b, x), 1) * b) == F(At(Ramp(a, b, x), 0) * a)
  {
    hide Eval, Gap, F, Inv;
    var w, e0, e1 := Inv(P61, Eval(Gap(a, b), x)), Eval(Gap(a, b), 0), Eval(Gap(a, b), 1);
    EvalScale(w, Gap(a, b), 0);
    EvalScale(w, Gap(a, b), 1);
    GapRatio(a, b);
    FF(w * e0);
    FF(w * e1);
    FOps(F(w * e1), b, w * e1, b);
    FOps(F(w * e0), a, w * e0, a);
    Reassociate(w, e0, e1, a, b);
  }

  lemma Reassociate(w: int, e0: int, e1: int, a: int, b: int)
    requires e1 * b == e0 * a
    ensures (w * e1) * b == (w * e0) * a
  {
    assert (w * e1) * b == w * (e1 * b);
    assert (w * e0) * a == w * (e0 * a);
  }
}
