/** Arithmetic modulo p. A field element is held as its canonical residue, an int in [0, p);
    specifications speak about plain integers and compare them through their residues. */
module Modular {

  function Res(p: nat, x: int): (r: int)
    requires p > 0
    ensures 0 <= r < p
  {
    x % p
  }

  function Pow(b: int, e: nat): int {
    if e == 0 then 1 else b * Pow(b, e - 1)
  }

  function Pow2(q: nat): (r: nat)
    ensures r > 0
  {
    if q == 0 then 1 else 2 * Pow2(q - 1)
  }

  ghost predicate IsPrime(p: nat) {
    p >= 2 && forall d :: 2 <= d < p ==> p % d != 0
  }

  /** Every entry is a canonical residue. */
  ghost predicate Canon(p: nat, s: seq<int>) {
    forall i :: 0 <= i < |s| ==> 0 <= s[i] < p
  }

  /** Entrywise residues. */
  function Reds(p: nat, s: seq<int>): (r: seq<int>)
    requires p > 0
    ensures |r| == |s|
    ensures Canon(p, r)
  {
    seq(|s|, i requires 0 <= i < |s| => Res(p, s[i]))
  }

  // ---------------------------------------------------------------- residues

  lemma MulLess(k: int, p: int)
    requires k != 0 && p >= 0
    ensures k * p >= p || k * p <= -p
  {
    if k > 0 {
      MulMonotone(1, k, p);
    } else {
      MulMonotone(k, -1, p);
    }
  }

  lemma MulMonotone(a: int, b: int, p: int)
    requires a <= b && p >= 0
    ensures a * p <= b * p
  {
    assert b * p - a * p == (b - a) * p;
  }

  /** The residue is the only remainder in [0, p). */
  lemma ResIs(p: nat, x: int, k: int, r: int)
    requires p > 0 && 0 <= r < p && x == k * p + r
    ensures Res(p, x) == r
  {
    var q := x / p;
    assert x == q * p + x % p;
    assert (q - k) * p == r - x % p;
    if q != k {
      MulLess(q - k, p);
    }
  }

  lemma ResQuotient(p: nat, x: int) returns (k: int)
    requires p > 0
    ensures x == k * p + Res(p, x)
  {
    k := x / p;
  }

  lemma ResSmall(p: nat, x: int)
    requires 0 <= x < p
    ensures Res(p, x) == x
  {
    ResIs(p, x, 0, x);
  }

  lemma ResRes(p: nat, x: int)
    requires p > 0
    ensures Res(p, Res(p, x)) == Res(p, x)
  {
    hide *;
    ResSmall(p, Res(p, x));
  }

  lemma ResShift(p: nat, x: int, y: int, k: int)
    requires p > 0 && x == y + k * p
    ensures Res(p, x) == Res(p, y)
  {
    hide *;
    var j := ResQuotient(p, y);
    assert x == (j + k) * p + Res(p, y);
    ResIs(p, x, j + k, Res(p, y));
  }

  lemma ResDiff(p: nat, x: int, y: int) returns (k: int)
    requires p > 0 && Res(p, x) == Res(p, y)
    ensures x == y + k * p
  {
    hide *;
    var i := ResQuotient(p, x);
    var j := ResQuotient(p, y);
    k := i - j;
    assert (i - j) * p == i * p - j * p;
  }

  /** Congruence: residues of sums, differences and products depend on the residues only. */
  lemma ResOps(p: nat, a: int, b: int, c: int, d: int)
    requires p > 0 && Res(p, a) == Res(p, c) && Res(p, b) == Res(p, d)
    ensures Res(p, a + b) == Res(p, c + d)
    ensures Res(p, a - b) == Res(p, c - d)
    ensures Res(p, a * b) == Res(p, c * d)
  {
    hide *;
    var i := ResDiff(p, a, c);
    var j := ResDiff(p, b, d);
    assert (i + j) * p == i * p + j * p;
    assert (i - j) * p == i * p - j * p;
    ResShift(p, a + b, c + d, i + j);
    ResShift(p, a - b, c - d, i - j);
    var x, y := i * p, j * p;
    assert (c + x) * (d + y) == c * d + c * y + x * d + x * y;
    assert c * y == (c * j) * p;
    assert x * d == (i * d) * p;
    assert x * y == (i * j * p) * p;
    assert c * y + x * d + x * y == (c * j + i * d + i * j * p) * p;
    ResShift(p, a * b, c * d, c * j + i * d + i * j * p);
  }

  /** The same with operands already reduced, as the code computes. */
  lemma ResReduced(p: nat, a: int, b: int)
    requires p > 0
    ensures Res(p, Res(p, a) + Res(p, b)) == Res(p, a + b)
    ensures Res(p, Res(p, a) - Res(p, b)) == Res(p, a - b)
    ensures Res(p, Res(p, a) * Res(p, b)) == Res(p, a * b)
  {
    hide *;
    ResRes(p, a);
    ResRes(p, b);
    ResOps(p, Res(p, a), Res(p, b), a, b);
  }

  lemma ResMul(p: nat, a: int, b: int, c: int)
    requires p > 0 && Res(p, a) == Res(p, c)
    ensures Res(p, a * b) == Res(p, c * b)
    ensures Res(p, b * a) == Res(p, b * c)
  {
    hide *;
    ResOps(p, a, b, c, b);
    assert b * a == a * b && b * c == c * b;
  }

  lemma ResZero(p: nat, a: int)
    requires p > 0
    ensures Res(p, 0) == 0
    ensures Res(p, a * p) == 0
  {
    ResIs(p, 0, 0, 0);
    ResIs(p, a * p, a, 0);
  }

  lemma ResZeroMul(p: nat, a: int, b: int)
    requires p > 0 && Res(p, a) == 0
    ensures Res(p, a * b) == 0 && Res(p, b * a) == 0
  {
    hide *;
    ResZero(p, 0);
    ResMul(p, a, b, 0);
    assert 0 * b == 0;
    assert a * b == b * a;
  }

  /** Two numbers have the same residue exactly when their difference has residue 0. */
  lemma ResSub(p: nat, a: int, b: int)
    requires p > 0
    ensures Res(p, a) == Res(p, b) <==> Res(p, a - b) == 0
  {
    hide *;
    ResZero(p, 0);
    if Res(p, a) == Res(p, b) {
      ResOps(p, a, b, b, b);
      assert b - b == 0;
    }
    if Res(p, a - b) == 0 {
      ResOps(p, a - b, b, 0, b);
      assert (a - b) + b == a && 0 + b == b;
    }
  }

  // ---------------------------------------------------------------- inverses

  datatype Gcd = Gcd(g: int, x: int, y: int)

  lemma BezoutStep(a: int, b: int, q: int, x: int, y: int)
    ensures b * x + (a - b * q) * y == a * y + b * (x - q * y)
  {
    assert (a - b * q) * y == a * y - (b * q) * y;
    assert (b * q) * y == b * (q * y);
    assert b * (x - q * y) == b * x - b * (q * y);
  }

  /** Extended Euclid: g divides both arguments and g = a*x + b*y. */
  function ExtGcd(a: nat, b: nat): (r: Gcd)
    requires a > 0 || b > 0
    ensures r.g > 0
    ensures r.g == a * r.x + b * r.y
    decreases b
  {
    if b == 0 then Gcd(a, 1, 0)
    else
      var q := a / b;
      var r := ExtGcd(b, a % b);
      BezoutStep(a, b, q, r.x, r.y);
      Gcd(r.g, r.y, r.x - q * r.y)
  }

  function MultipleOf(i: int, g: int): int {
    i * g
  }

  ghost predicate Divides(g: int, a: int) {
    exists i :: a == MultipleOf(i, g)
  }

  lemma {:induction false} ExtGcdDivides(a: nat, b: nat)
    requires a > 0 || b > 0
    ensures Divides(ExtGcd(a, b).g, a) && Divides(ExtGcd(a, b).g, b)
    decreases b
  {
    hide ExtGcd, MultipleOf;
    if b == 0 {
      ExtGcdEnd(a);
    } else {
      ExtGcdDivides(b, a % b);
      ExtGcdStep(a, b);
      CombineMultiples(a, b, ExtGcd(a, b).g);
    }
  }

  lemma ExtGcdEnd(a: nat)
    requires a > 0
    ensures Divides(ExtGcd(a, 0).g, a) && Divides(ExtGcd(a, 0).g, 0)
  {
    assert a == MultipleOf(1, a) && 0 == MultipleOf(0, a);
  }

  lemma ExtGcdStep(a: nat, b: nat)
    requires b > 0
    ensures ExtGcd(a, b).g == ExtGcd(b, a % b).g
  {
  }

  lemma CombineMultiples(a: nat, b: nat, g: int)
    requires b > 0 && Divides(g, b) && Divides(g, a % b)
    ensures Divides(g, a)
  {
    var q := a / b;
    var k: int :| b == MultipleOf(k, g);
    var m: int :| a % b == MultipleOf(m, g);
    hide *;
    assert a == q * b + a % b;
    SumOfMultiples(q, k, m, g);
    assert MultipleOf(k, g) == k * g && MultipleOf(m, g) == m * g && MultipleOf(q * k + m, g) == (q * k + m) * g;
  }

  lemma SumOfMultiples(q: int, k: int, m: int, g: int)
    ensures (q * k + m) * g == q * (k * g) + m * g
  {
    assert q * (k * g) == (q * k) * g;
  }

  /** The multiplicative inverse, 0 for a multiple of p. */
  function Inv(p: nat, a: int): (r: int)
    requires p > 0
    ensures 0 <= r < p
  {
    if Res(p, a) == 0 then 0 else Res(p, ExtGcd(p, Res(p, a)).y)
  }

  lemma DivisorOfPrime(p: nat, g: int, i: int)
    requires IsPrime(p) && 0 < g < p && p == i * g
    ensures g == 1
  {
    if g >= 2 {
      ResIs(g, p, i, 0);
      assert false;
    }
  }

  lemma InvMul(p: nat, a: int)
    requires IsPrime(p) && Res(p, a) != 0
    ensures Res(p, a * Inv(p, a)) == 1
    ensures Res(p, Inv(p, a)) != 0
  {
    var b := Res(p, a);
    hide Res, ExtGcd;
    var e := ExtGcd(p, b);
    ExtGcdDivides(p, b);
    var i: int :| p == MultipleOf(i, e.g);
    var j: int :| b == MultipleOf(j, e.g);
    DivisorAtMost(b, j, e.g);
    DivisorOfPrime(p, e.g, i);
    InverseFromBezout(p, a, e.x, e.y);
  }

  lemma DivisorAtMost(b: int, j: int, g: int)
    requires b > 0 && g > 0 && b == j * g
    ensures g <= b
  {
    if j <= 0 {
      MulMonotone(j, 0, g);
    } else {
      MulMonotone(1, j, g);
    }
  }

  lemma InverseFromBezout(p: nat, a: int, x: int, y: int)
    requires p >= 2 && p * x + Res(p, a) * y == 1
    ensures Res(p, a * Res(p, y)) == 1
    ensures Res(p, Res(p, y)) != 0
  {
    hide *;
    assert p * x == x * p;
    ResShift(p, 1, Res(p, a) * y, x);
    ResSmall(p, 1);
    ResRes(p, a);
    ResRes(p, y);
    ResOps(p, a, Res(p, y), Res(p, a), y);
    if Res(p, Res(p, y)) == 0 {
      ResZeroMul(p, Res(p, y), a);
    }
  }

  /** Z_p has no zero divisors. */
  lemma Cancel(p: nat, a: int, b: int)
    requires IsPrime(p)
    requires Res(p, a * b) == 0
    ensures Res(p, a) == 0 || Res(p, b) == 0
  {
    hide *;
    PrimePositive(p);
    if Res(p, a) != 0 {
      InvMul(p, a);
      var i := Inv(p, a);
      ResZeroMul(p, a * b, i);
      ResSmall(p, 1);
      ResMul(p, a * i, b, 1);
      assert (a * b) * i == (a * i) * b;
      assert 1 * b == b;
    }
  }

  lemma PrimePositive(p: nat)
    requires IsPrime(p)
    ensures p >= 2
  {
  }

  // ---------------------------------------------------------------- powers

  lemma MulAssoc(a: int, b: int, c: int)
    ensures a * (b * c) == (a * b) * c
  {
  }

  lemma {:induction false} PowAdd(b: int, m: nat, n: nat)
    ensures Pow(b, m + n) == Pow(b, m) * Pow(b, n)
  {
    if m > 0 {
      PowAdd(b, m - 1, n);
      MulAssoc(b, Pow(b, m - 1), Pow(b, n));
    }
  }

  lemma {:induction false} PowPow(b: int, m: nat, n: nat)
    ensures 0 <= m * n
    ensures Pow(Pow(b, m), n) == Pow(b, m * n)
  {
    if n > 0 {
      PowPow(b, m, n - 1);
      assert m * n == m + m * (n - 1);
      PowAdd(b, m, m * (n - 1));
    } else {
      assert m * n == 0;
    }
  }

  lemma {:induction false} PowOne(n: nat)
    ensures Pow(1, n) == 1
  {
    if n > 0 { PowOne(n - 1); }
  }

  lemma {:induction false} PowMulBase(a: int, b: int, n: nat)
    ensures Pow(a * b, n) == Pow(a, n) * Pow(b, n)
  {
    if n > 0 {
      PowMulBase(a, b, n - 1);
      MulSwap(a, b, Pow(a, n - 1), Pow(b, n - 1));
    }
  }

  lemma MulSwap(a: int, b: int, x: int, y: int)
    ensures (a * b) * (x * y) == (a * x) * (b * y)
  {
    assert (a * b) * (x * y) == a * (b * (x * y));
    assert b * (x * y) == x * (b * y);
    assert a * (x * (b * y)) == (a * x) * (b * y);
  }

  lemma {:induction false} PowRes(p: nat, a: int, b: int, n: nat)
    requires p > 0 && Res(p, a) == Res(p, b)
    ensures Res(p, Pow(a, n)) == Res(p, Pow(b, n))
  {
    hide Res;
    if n > 0 {
      PowRes(p, a, b, n - 1);
      ResOps(p, a, Pow(a, n - 1), b, Pow(b, n - 1));
    }
  }

  lemma {:induction false} Pow2Add(m: nat, n: nat)
    ensures Pow2(m + n) == Pow2(m) * Pow2(n)
  {
    if m > 0 {
      Pow2Add(m - 1, n);
      MulAssoc(2, Pow2(m - 1), Pow2(n));
    }
  }

  lemma {:induction false} Pow2Is(n: nat)
    ensures Pow(2, n) == Pow2(n)
  {
    if n > 0 { Pow2Is(n - 1); }
  }

  // ------------------------------------------------- roots of unity of order 2^q

  /** g has order exactly 2^q modulo p: its 2^(q-1)-th power is -1. */
  ghost predicate HasOrder(p: nat, g: int, q: nat) {
    p >= 3 && q >= 1 && Res(p, Pow(g, Pow2(q - 1))) == Res(p, -1)
  }

  lemma MinusOne(p: nat)
    requires p >= 3
    ensures Res(p, 1) == 1 && Res(p, -1) == p - 1
  {
    ResIs(p, 1, 0, 1);
    ResIs(p, -1, -1, p - 1);
  }

  lemma {:induction false} OddPowerOfMinusOne(k: nat)
    ensures Pow(-1, 2 * k + 1) == -1
  {
    if k > 0 {
      OddPowerOfMinusOne(k - 1);
      assert Pow(-1, 2 * k + 1) == -1 * (-1 * Pow(-1, 2 * k - 1));
    }
  }

  lemma OrderSquare(p: nat, g: int, q: nat)
    requires HasOrder(p, g, q) && q >= 2
    ensures HasOrder(p, g * g, q - 1)
    ensures HasOrder(p, Res(p, g * g), q - 1)
  {
    hide Res;
    PowPow(g, 2, Pow2(q - 2));
    assert Pow(g, 2) == g * g by {
      assert Pow(g, 2) == g * (g * Pow(g, 0));
    }
    ResRes(p, g * g);
    PowRes(p, Res(p, g * g), g * g, Pow2(q - 2));
  }

  lemma OrderCycle(p: nat, g: int, q: nat)
    requires HasOrder(p, g, q)
    ensures Res(p, Pow(g, Pow2(q))) == 1
  {
    hide Res;
    assert Pow2(q) == Pow2(q - 1) + Pow2(q - 1);
    SquareOfMinusOne(p, g, Pow2(q - 1));
  }

  lemma SquareOfMinusOne(p: nat, g: int, h: nat)
    requires p >= 3 && Res(p, Pow(g, h)) == Res(p, -1)
    ensures Res(p, Pow(g, h + h)) == 1
  {
    hide *;
    PowAdd(g, h, h);
    ResOps(p, Pow(g, h), Pow(g, h), -1, -1);
    ResSmall(p, 1);
  }

  /** No smaller positive power is 1. */
  lemma {:induction false} OrderExact(p: nat, g: int, q: nat, m: nat)
    requires HasOrder(p, g, q) && 0 < m < Pow2(q)
    ensures Res(p, Pow(g, m)) != 1
    decreases q
  {
    hide Res;
    MinusOne(p);
    if m % 2 == 1 {
      if Res(p, Pow(g, m)) == 1 {
        var h := Pow2(q - 1);
        PowRes(p, Pow(g, m), 1, h);
        PowOne(h);
        PowPow(g, m, h);
        PowPow(g, h, m);
        assert m * h == h * m;
        PowRes(p, Pow(g, h), -1, m);
        OddPowerOfMinusOne(m / 2);
        assert false;
      }
    } else {
      assert Pow2(1) == 2 * Pow2(0);
      assert q >= 2;
      OrderSquare(p, g, q);
      OrderExact(p, g * g, q - 1, m / 2);
      PowPow(g, 2, m / 2);
      assert Pow(g, 2) == g * g by {
        assert Pow(g, 2) == g * (g * Pow(g, 0));
      }
    }
  }

  /** Powers below the order are invertible and pairwise distinct. */
  lemma RootsDistinct(p: nat, g: int, q: nat, i: nat, j: nat)
    requires IsPrime(p) && HasOrder(p, g, q) && i < j < Pow2(q)
    ensures Res(p, Pow(g, i)) != Res(p, Pow(g, j))
  {
    hide *;
    PrimePositive(p);
    OrderExact(p, g, q, j - i);
    ResSmall(p, 1);
    PowAdd(g, i, j - i);
    RootNonzero(p, g, q, i);
    if Res(p, Pow(g, i)) == Res(p, Pow(g, j)) {
      CancelOne(p, Pow(g, i), Pow(g, j - i));
    }
  }

  lemma CancelOne(p: nat, x: int, y: int)
    requires IsPrime(p) && Res(p, x) != 0 && Res(p, x * y) == Res(p, x)
    ensures Res(p, y) == Res(p, 1)
  {
    hide *;
    PrimePositive(p);
    ResSub(p, x * y, x);
    assert x * y - x == x * (y - 1);
    Cancel(p, x, y - 1);
    ResSub(p, y, 1);
  }

  lemma RootNonzero(p: nat, g: int, q: nat, i: nat)
    requires HasOrder(p, g, q) && i <= Pow2(q)
    ensures Res(p, Pow(g, i)) != 0
  {
    hide *;
    OrderPositive(p, g, q);
    RootInverse(p, g, q, i);
    if Res(p, Pow(g, i)) == 0 {
      ResZeroMul(p, Pow(g, i), Pow(g, Pow2(q) - i));
    }
  }

  lemma OrderPositive(p: nat, g: int, q: nat)
    requires HasOrder(p, g, q)
    ensures p >= 3 && q >= 1
  {
  }

  lemma RootInverse(p: nat, g: int, q: nat, i: nat)
    requires HasOrder(p, g, q) && i <= Pow2(q)
    ensures Res(p, Pow(g, i) * Pow(g, Pow2(q) - i)) == 1
  {
    hide *;
    OrderPositive(p, g, q);
    PowAdd(g, i, Pow2(q) - i);
    OrderCycle(p, g, q);
  }

  lemma Pow2Invertible(p: nat, q: nat)
    requires IsPrime(p) && p >= 3
    ensures Res(p, Pow2(q)) != 0
  {
    hide Res, IsPrime;
    if q == 0 {
      MinusOne(p);
    } else {
      Pow2Invertible(p, q - 1);
      if Res(p, Pow2(q)) == 0 {
        Cancel(p, 2, Pow2(q - 1));
        ResSmall(p, 2);
        assert false;
      }
    }
  }
}
