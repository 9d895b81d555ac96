/** Scalars modulo the Mersenne prime 2^31 - 1, in 32-bit words. */
module Gfp {
  import opened Modular
  import opened Words
  import opened Fermat

  const PR: nat := 0x7FFF_FFFF
  const WORD: nat := 0x1_0000_0000
  const MERSENNE_PRIME_EXP: nat := 31
  const FIXED_PRECISION: nat := 12
  const BITS_LENGTH: nat := 31
  const INT_PRECISION: nat := BITS_LENGTH - FIXED_PRECISION
  /** PR >> 1. */
  const MAX_POSITIVE: nat := 0x3FFF_FFFF
  /** ((PR - 1) >> 1) + 1. */
  const MID_PR: nat := 0x4000_0000
  /** (PR + 1) >> 2. */
  const SQRT_EXP: nat := 0x2000_0000
  const CONST_TWO_INVERSE: nat := 0x4000_0000
  const CONST_GAP_IN_TRUNCATION: nat := 0x7_FFFF
  const CONST_ENCODE: nat := 0x2000_0000
  const CONST_DECODE: nat := 0x2_0000

  lemma Constants()
    ensures PR > 0 && PR == Pow2(31) - 1 && WORD == 2 * Pow2(31)
    ensures MAX_POSITIVE == ShiftRight(PR, 1) && MID_PR == ShiftRight(PR - 1, 1) + 1 && SQRT_EXP == ShiftRight(PR + 1, 2)
    ensures CONST_GAP_IN_TRUNCATION == Pow2(INT_PRECISION) - 1
    ensures CONST_ENCODE == Pow2(BITS_LENGTH - 2) && CONST_DECODE == Pow2(BITS_LENGTH - 2 - FIXED_PRECISION)
    ensures Res(PR, 2 * CONST_TWO_INVERSE) == 1
  {
    PowersOfTwo();
    Pow2Add(12, 17);
    Pow2Add(12, 5);
    assert Pow2(5) == 32 && Pow2(2) == 4;
    assert Pow2(17) == 0x2_0000;
    assert Pow2(29) == 0x2000_0000;
  }

  lemma PrimeField()
    ensures PR > 0 && PR == Pow2(31) - 1
  {
    PowersOfTwo();
  }

  /** An element: a canonical residue. */
  predicate Scalar(a: int) {
    0 <= a < PR
  }

  // ---------------------------------------------------------------- words

  /** Addition wraps in the word, then one subtraction reduces. */
  function AddMod(a: nat, b: nat): (r: nat)
    ensures a <= PR && b < PR ==> r == Res(PR, a + b)
  {
    var ret := (a + b) % WORD;
    if ret >= PR then (ret - PR) % WORD else ret
  }

  /** The double-word product is split at bit 31: the low part and the high part, which the two
      machine words of the product hold in pieces, are added. */
  function MultMod(a: nat, b: nat): nat {
    var product := a * b;
    var e, c := product % WORD, (product / WORD) % WORD;
    var ret := (BitAnd(e, PR) + BitXor(ShiftRight(e, MERSENNE_PRIME_EXP), ShiftLeft(c, 1))) % WORD;
    if ret >= PR then ret - PR else ret
  }

  lemma MultModIs(a: nat, b: nat)
    requires a <= PR && b <= PR
    ensures MultMod(a, b) == Res(PR, a * b)
  {
    hide BitAnd, BitXor, Res, Pow2, ShiftRight, ShiftLeft;
    ProductBound(a, b);
    var product := a * b;
    WordSplit(product);
    MultModOf(a, b, product);
    MersenneFold(product, product % 0x8000_0000, product / 0x8000_0000);
  }

  /** The product, its pieces named. */
  lemma MultModOf(a: nat, b: nat, product: nat)
    requires product == a * b
    requires BitAnd(product % WORD, PR) == product % 0x8000_0000
    requires BitXor(ShiftRight(product % WORD, MERSENNE_PRIME_EXP), ShiftLeft((product / WORD) % WORD, 1)) == product / 0x8000_0000
    requires product % 0x8000_0000 + product / 0x8000_0000 < WORD
    ensures var s := product % 0x8000_0000 + product / 0x8000_0000;
      MultMod(a, b) == if s >= PR then s - PR else s
  {
    hide BitAnd, BitXor, Res, Pow2, ShiftRight, ShiftLeft;
  }

  /** The two words of a product hold its low 31 bits and the rest. */
  lemma WordSplit(product: nat)
    requires product < 0x4000_0000 * WORD
    ensures var e, c := product % WORD, (product / WORD) % WORD;
      && BitAnd(e, PR) == product % 0x8000_0000
      && BitXor(ShiftRight(e, MERSENNE_PRIME_EXP), ShiftLeft(c, 1)) == product / 0x8000_0000
  {
    hide BitAnd, BitXor, Pow2;
    PowersOfTwo();
    hide ShiftRight;
    var e, c := product % WORD, product / WORD;
    AndMask(e, 31);
    ShiftRightDiv(e, 31, 0x8000_0000);
    XorLowBit(e / 0x8000_0000, c);
    ShiftLeftOne(c);
  }

  lemma ShiftLeftOne(c: nat)
    requires c < 0x4000_0000
    ensures ShiftLeft(c, 1) == 2 * c
  {
    PowersOfTwo();
  }

  lemma ProductBound(a: nat, b: nat)
    requires a <= PR && b <= PR
    ensures a * b <= PR * PR < 0x4000_0000 * WORD
  {
    MulMonotone(a, PR, b);
    MulMonotone(b, PR, PR);
    assert PR * b == b * PR;
  }

  /** 2^31 is 1 modulo 2^31 - 1. */
  lemma MersenneFold(x: nat, low: nat, high: nat)
    requires x == high * 0x8000_0000 + low && low < 0x8000_0000 && x <= PR * PR
    ensures PR > 0 && high <= PR && low + high < WORD
    ensures Res(PR, x) == if low + high >= PR then low + high - PR else low + high
  {
    hide Res;
    var s := low + high;
    assert x == high * PR + s;
    assert s < 2 * PR;
    if s >= PR {
      assert x == (high + 1) * PR + (s - PR);
      ResIs(PR, x, high + 1, s - PR);
    } else {
      ResIs(PR, x, high, s);
    }
  }

  /** Reduction of any word. */
  function ModPrime(x: nat): nat {
    var i := (BitAnd(x, PR) + ShiftRight(x, MERSENNE_PRIME_EXP)) % WORD;
    if i >= PR then i - PR else i
  }

  lemma ModPrimeIs(x: nat)
    requires x < WORD
    ensures ModPrime(x) == Res(PR, x)
  {
    hide BitAnd, Res, Pow2, ShiftRight;
    PowersOfTwo();
    AndMask(x, 31);
    ShiftRightDiv(x, 31, 0x8000_0000);
    MersenneFold(x, x % 0x8000_0000, x / 0x8000_0000);
  }

  /** Zero is its own inverse; other elements have their bits flipped. */
  function AdditiveInverse(x: nat): nat {
    if x == 0 then 0 else BitXor(PR, x)
  }

  lemma AdditiveInverseIs(x: nat)
    requires x < PR
    ensures AdditiveInverse(x) == Res(PR, 0 - x)
    ensures AdditiveInverse(x) == if x == 0 then 0 else PR - x
  {
    hide BitXor, Res, Pow2;
    PowersOfTwo();
    XorMask(x, 31);
    if x == 0 {
      ResIs(PR, 0, 0, 0);
    } else {
      ResIs(PR, 0 - x, -1, PR - x);
    }
  }

  function SubMod(a: nat, b: nat): nat {
    AddMod(a, AdditiveInverse(b))
  }

  lemma SubModIs(a: nat, b: nat)
    requires a < PR && b < PR
    ensures SubMod(a, b) == Res(PR, a - b)
  {
    hide BitXor, AdditiveInverse, Res, Pow2;
    AdditiveInverseIs(b);
    ResSmall(PR, a);
    ResRes(PR, 0 - b);
    ResOps(PR, a, AdditiveInverse(b), a, 0 - b);
    assert a + (0 - b) == a - b;
  }

  // ---------------------------------------------------------------- inverses

  /** The extended Euclidean algorithm with its coefficients kept modulo PR. */
  method ExtendGcd(a: nat, b: nat) returns (x: nat, y: nat)
    requires a <= PR && b <= PR && (a > 0 || b > 0)
    ensures Scalar(x) && Scalar(y) && PR > 0
    ensures b == 0 ==> x == 1 && y == 0
    ensures Res(PR, a * x + b * y) == Res(PR, ExtGcd(a, b).g)
    decreases b
  {
    hide MultMod, AddMod, AdditiveInverse, Res, ExtGcd;
    PrimeField();
    if b == 0 {
      GcdBase(a);
      return 1, 0;
    }
    QuotientBound(a, b);
    var q: nat := a / b;
    y, x := ExtendGcd(b, a % b);
    GcdUpdate(a, b, q, a % b, x, y);
    var tmp := MultMod(q, x);
    y := AddMod(y, AdditiveInverse(tmp));
  }

  lemma GcdUpdate(a: nat, b: nat, q: nat, r: nat, x: nat, y: nat)
    requires 0 < b && a <= PR && b <= PR && Scalar(x) && Scalar(y) && PR > 0
    requires a == q * b + r && q <= a && ExtGcd(a, b).g == ExtGcd(b, r).g
    requires Res(PR, b * y + r * x) == Res(PR, ExtGcd(b, r).g)
    ensures var z := AddMod(y, AdditiveInverse(MultMod(q, x)));
      Scalar(z) && Res(PR, a * x + b * z) == Res(PR, ExtGcd(a, b).g)
  {
    hide MultMod, AddMod, AdditiveInverse, Res, ExtGcd;
    MultModIs(q, x);
    GcdStep(a, b, q, r, x, y);
    SubModIs(y, MultMod(q, x));
  }

  lemma GcdBase(a: nat)
    requires a > 0
    ensures ExtGcd(a, 0).g == a && a * 1 + 0 * 0 == a
  {
  }

  lemma QuotientBound(a: nat, b: nat)
    requires b > 0
    ensures 0 <= a / b <= a && a == a / b * b + a % b
    ensures ExtGcd(a, b).g == ExtGcd(b, a % b).g
  {
    hide ExtGcd;
    ExtGcdStep(a, b);
    MulMonotone(1, b, a / b);
    assert b * (a / b) == a / b * b;
  }

  lemma GcdStep(a: nat, b: nat, q: nat, r: nat, x: int, y: int)
    requires b > 0 && PR > 0 && a == q * b + r
    ensures var z := Res(PR, y - Res(PR, q * x));
      Res(PR, a * x + b * z) == Res(PR, b * y + r * x)
  {
    hide Res;
    ResRes(PR, q * x);
    ResOps(PR, y, Res(PR, q * x), y, q * x);
    var z := Res(PR, y - Res(PR, q * x));
    ResRes(PR, y - Res(PR, q * x));
    ResMul(PR, z, b, y - q * x);
    assert b * z == z * b;
    ResOps(PR, a * x, b * z, a * x, b * (y - q * x));
    GcdAlgebra(a, b, q, r, x, y);
  }

  lemma GcdAlgebra(a: int, b: int, q: int, r: int, x: int, y: int)
    requires a == q * b + r
    ensures a * x + b * (y - q * x) == b * y + r * x
  {
    assert a * x == (q * b) * x + r * x;
    assert b * (y - q * x) == b * y - b * (q * x);
    assert (q * b) * x == b * (q * x);
  }

  /** The inverse; the inverse of 0 is 0. */
  method MultiplicativeInverse(it: nat) returns (y: nat)
    requires IsPrime(PR) && it < PR
    ensures Scalar(y) && PR > 0 && y == Inv(PR, it)
    ensures it != 0 ==> Res(PR, it * y) == 1
  {
    hide Res, ExtGcd, Inv, IsPrime;
    PrimeField();
    var x;
    x, y := ExtendGcd(PR, it);
    if it == 0 {
      InverseOfZero();
    } else {
      InverseFound(it, x, y);
    }
  }

  lemma InverseOfZero()
    ensures PR > 0 && Inv(PR, 0) == 0
  {
    hide ExtGcd;
    ResZero(PR, 0);
  }

  lemma InverseFound(it: nat, x: nat, y: nat)
    requires IsPrime(PR) && 0 < it < PR && Scalar(x) && Scalar(y)
    requires PR > 0 && Res(PR, PR * x + it * y) == Res(PR, ExtGcd(PR, it).g)
    ensures Res(PR, it * y) == 1 && y == Inv(PR, it)
  {
    hide Res, ExtGcd, IsPrime;
    ResSmall(PR, it);
    ExtGcdDivides(PR, it);
    var i: int :| PR == MultipleOf(i, ExtGcd(PR, it).g);
    var j: int :| it == MultipleOf(j, ExtGcd(PR, it).g);
    var g := ExtGcd(PR, it).g;
    DivisorAtMost(it, j, g);
    DivisorOfPrime(PR, g, i);
    ResShift(PR, PR * x + it * y, it * y, x);
    ResSmall(PR, 1);
    InverseUnique(it, y);
  }

  lemma InverseUnique(it: nat, y: nat)
    requires IsPrime(PR) && 0 < it < PR && Scalar(y) && PR > 0 && Res(PR, it * y) == 1
    ensures y == Inv(PR, it)
  {
    hide Res, ExtGcd, IsPrime;
    ResSmall(PR, it);
    InvMul(PR, it);
    var z := Inv(PR, it);
    ResSub(PR, it * y, it * z);
    assert it * y - it * z == it * (y - z);
    Cancel(PR, it, y - z);
    ResSub(PR, y, z);
    ResSmall(PR, y);
    ResSmall(PR, z);
  }

  // ---------------------------------------------------------------- signs and roots

  /** Elements above MAX_POSITIVE stand for negative numbers. */
  predicate IsNegative(x: nat) {
    x > MAX_POSITIVE
  }

  function Signed(x: nat): (r: int) {
    if IsNegative(x) then x - PR else x
  }

  function Msb(x: nat): nat {
    if IsNegative(x) then 1 else 0
  }

  /** The candidate for a root: x^((PR + 1) / 4). */
  ghost function RootPower(x: nat): (r: nat)
    ensures r < PR
  {
    Res(PR, Pow(x, SQRT_EXP))
  }

  /** The candidate brought into 1, ..., (PR - 1) / 2. */
  ghost function SqrtOf(x: nat): (r: nat)
    ensures r < PR
  {
    var c := RootPower(x);
    if 1 <= c < MID_PR then c else if c == 0 then 0 else PR - c
  }

  /** The half power of a nonzero element is 1 or -1. */
  lemma HalfPower(r: nat)
    requires IsPrime(PR) && PR > 0 && Res(PR, r) != 0
    ensures Res(PR, Pow(r, MAX_POSITIVE)) == 1 || Res(PR, Pow(r, MAX_POSITIVE)) == PR - 1
  {
    hide Res, Pow, IsPrime;
    FermatUnit(PR, r);
    var h := Pow(r, MAX_POSITIVE);
    PowAdd(r, MAX_POSITIVE, MAX_POSITIVE);
    assert PR - 1 == MAX_POSITIVE + MAX_POSITIVE;
    ResSmall(PR, 1);
    ResSub(PR, h * h, 1);
    assert h * h - 1 == (h - 1) * (h + 1);
    Cancel(PR, h - 1, h + 1);
    if Res(PR, h - 1) == 0 {
      ResSub(PR, h, 1);
    } else {
      ResSub(PR, h, -1);
      ResIs(PR, -1, -1, PR - 1);
    }
  }

  lemma PowOnce(x: int)
    ensures Pow(x, 1) == x
  {
    assert Pow(x, 1) == x * Pow(x, 0);
  }

  /** For a square the candidate is one of its two roots. */
  lemma RootOfSquare(r: nat)
    requires IsPrime(PR) && 0 < r < PR
    ensures PR > 0
    ensures RootPower(Res(PR, r * r)) == r || RootPower(Res(PR, r * r)) == PR - r
  {
    hide Res, Pow, IsPrime;
    PrimeField();
    ResSmall(PR, r);
    ResRes(PR, r * r);
    PowRes(PR, Res(PR, r * r), r * r, SQRT_EXP);
    SquarePower(r);
    HalfPower(r);
    var h := Pow(r, MAX_POSITIVE);
    if Res(PR, h) == 1 {
      ResSmall(PR, 1);
      ResMul(PR, h, r, 1);
    } else {
      ResIs(PR, -1, -1, PR - 1);
      ResMul(PR, h, r, -1);
      ResIs(PR, 0 - r, -1, PR - r);
      assert -1 * r == 0 - r;
    }
  }

  /** The root of a square is the square's root of positive sign. */
  lemma SqrtSquare(r: nat)
    requires IsPrime(PR) && 0 < r < PR
    ensures PR > 0
    ensures 1 <= SqrtOf(Res(PR, r * r)) <= MAX_POSITIVE
    ensures SqrtOf(Res(PR, r * r)) == if IsNegative(r) then PR - r else r
  {
    hide Res, Pow, IsPrime, RootPower;
    RootOfSquare(r);
  }

  /** (r^2)^((PR + 1) / 4) is r^((PR - 1) / 2) * r. */
  lemma SquarePower(r: nat)
    ensures Pow(r * r, SQRT_EXP) == Pow(r, MAX_POSITIVE) * r
  {
    hide Pow;
    PowMulBase(r, r, SQRT_EXP);
    PowAdd(r, SQRT_EXP, SQRT_EXP);
    PowAdd(r, MAX_POSITIVE, 1);
    PowOnce(r);
    assert SQRT_EXP + SQRT_EXP == MAX_POSITIVE + 1;
  }

  /** The square of the root is x exactly when x is a square. */
  lemma SqrtExact(x: nat)
    requires IsPrime(PR) && 0 < x < PR
    ensures PR > 0
    ensures Res(PR, SqrtOf(x) * SqrtOf(x)) == x <==> exists r: nat :: 0 < r < PR && Square(r) == x
  {
    hide Res, Pow, IsPrime, SqrtOf;
    PrimeField();
    var s := SqrtOf(x);
    if Res(PR, s * s) == x {
      if s == 0 {
        ResZero(PR, 0);
      }
      assert Square(s) == x;
    }
    if r: nat :| 0 < r < PR && Square(r) == x {
      SqrtSquare(r);
      if IsNegative(r) {
        ResShift(PR, (PR - r) * (PR - r), r * r, PR - 2 * r);
        assert (PR - r) * (PR - r) == r * r + (PR - 2 * r) * PR;
      }
    }
  }

  function Square(r: nat): int {
    Res(PR, r * r)
  }

  /** Truncation toward zero of the signed value. */
  function TruncOf(x: nat, d: nat): (r: nat)
    requires x < PR
  {
    if IsNegative(x) then AdditiveInverse(ShiftRight(AdditiveInverse(x), d)) else ShiftRight(x, d)
  }
}
