/** Constant-round products and comparison of bit rows, on the level of secrets. A bundle is
    modelled by one of its rows. */
module BitProtocols {
  import opened Modular
  import opened Words
  import opened Gfp
  import opened GfpScalars
  import opened Truncation

  ghost predicate Scalars(s: seq<nat>) {
    forall i :: 0 <= i < |s| ==> Scalar(s[i])
  }

  // ---------------------------------------------------------------- correlated randomness

  /** Entrywise products. */
  function Cwise(a: seq<nat>, b: seq<nat>): (r: seq<nat>)
    requires |a| == |b|
    ensures |r| == |a|
  {
    seq(|a|, i requires 0 <= i < |a| => MultMod(a[i], b[i]))
  }

  lemma CwiseScalars(a: seq<nat>, b: seq<nat>)
    requires |a| == |b| && Scalars(a) && Scalars(b)
    ensures Scalars(Cwise(a, b))
  {
    hide Res, MultMod;
    forall i | 0 <= i < |a| ensures Scalar(Cwise(a, b)[i]) {
      MultModIs(a[i], b[i]);
    }
  }

  method MultiplyCwise(a: seq<nat>, b: seq<nat>) returns (r: seq<nat>)
    requires |a| == |b| && Scalars(a) && Scalars(b)
    ensures r == Cwise(a, b) && Scalars(r)
  {
    hide MultMod;
    r := [];
    for i := 0 to |a|
      invariant r == Cwise(a, b)[..i]
    {
      r := r + [MultMod(a[i], b[i])];
    }
    CwiseScalars(a, b);
  }

  /** The pairs (b[i], b[i - 1] / b[i]), from the random rows b and b'. */
  method GenerateUnboundedRandom(b: seq<nat>, bPrime: seq<nat>) returns (aux: seq<nat>)
    requires IsPrime(PR) && |b| == |bPrime| > 0 && Scalars(b) && Scalars(bPrime)
    ensures |aux| == |b| && Scalars(aux)
    ensures 0 !in b && 0 !in bPrime ==> Correlated(b, aux)
    ensures 0 in b || 0 in bPrime ==> forall i :: 0 <= i < |aux| ==> aux[i] == 0
  {
    hide Cwise, IsPrime;
    var n := |b|;
    var prod := MultiplyCwise(b, bPrime);
    var x := MultiplyCwise(b[..n - 1], bPrime[1..]);
    var shifted := [bPrime[0]] + x;
    var inverses := InvertRow(prod);
    aux := MultiplyCwise(inverses, shifted);
    if 0 !in b && 0 !in bPrime {
      PairsCorrelated(b, bPrime, inverses, shifted, aux);
    } else {
      ZeroProduct(b, bPrime);
      ZeroRatios(inverses, shifted);
    }
  }

  lemma ZeroProduct(b: seq<nat>, c: seq<nat>)
    requires |b| == |c| && Scalars(b) && Scalars(c) && (0 in b || 0 in c)
    ensures 0 in Cwise(b, c)
  {
    hide Res, MultMod;
    PrimeField();
    var j :| 0 <= j < |b| && (b[j] == 0 || c[j] == 0);
    MultModIs(b[j], c[j]);
    assert b[j] * c[j] == 0;
    ResZero(PR, 0);
    assert Cwise(b, c)[j] == 0;
  }

  lemma ZeroRatios(inverses: seq<nat>, shifted: seq<nat>)
    requires |inverses| == |shifted| && Scalars(shifted) && forall i :: 0 <= i < |inverses| ==> inverses[i] == 0
    ensures forall i :: 0 <= i < |inverses| ==> Cwise(inverses, shifted)[i] == 0
  {
    hide Res, MultMod;
    PrimeField();
    ResZero(PR, 0);
    forall i | 0 <= i < |inverses| ensures Cwise(inverses, shifted)[i] == 0 {
      MultModIs(0, shifted[i]);
      assert 0 * shifted[i] == 0;
    }
  }

  /** Batch inversion of a row. */
  method InvertRow(row: seq<nat>) returns (inverses: seq<nat>)
    requires IsPrime(PR) && |row| > 0 && Scalars(row)
    ensures |inverses| == |row| && Scalars(inverses)
    ensures 0 !in row ==> Inverted(row, inverses)
    ensures 0 in row ==> forall i :: 0 <= i < |row| ==> inverses[i] == 0
  {
    hide Res, IsPrime;
    var a := new nat[|row|](i requires 0 <= i < |row| => row[i]);
    assert a[..] == row;
    var inv := new nat[|row|];
    BatchInversion(a, inv);
    inverses := inv[..];
  }

  ghost predicate Inverted(row: seq<nat>, inverses: seq<nat>) {
    PR > 0 && |row| == |inverses| && forall i :: 0 <= i < |row| ==> Res(PR, row[i] * inverses[i]) == 1
  }

  /** b[i] * aux[i] is b[i - 1], and 1 at the start. */
  ghost predicate Correlated(b: seq<nat>, aux: seq<nat>) {
    PR > 0 && |b| == |aux|
    && forall i :: 0 <= i < |b| ==> Res(PR, b[i] * aux[i]) == PrevOf(b, i)
  }

  function PrevOf(b: seq<nat>, i: nat): nat
    requires i <= |b|
  {
    if i == 0 then 1 else b[i - 1]
  }

  lemma PairsCorrelated(b: seq<nat>, c: seq<nat>, inv: seq<nat>, shifted: seq<nat>, aux: seq<nat>)
    requires IsPrime(PR) && |b| == |c| == |inv| == |shifted| > 0
    requires Scalars(b) && Scalars(c) && Scalars(inv) && Scalars(shifted) && 0 !in b && 0 !in c
    requires shifted == [c[0]] + Cwise(b[..|b| - 1], c[1..])
    requires 0 !in Cwise(b, c) ==> Inverted(Cwise(b, c), inv)
    requires aux == Cwise(inv, shifted)
    ensures Correlated(b, aux)
  {
    hide Res, MultMod, IsPrime;
    PrimeField();
    forall j | 0 <= j < |b| ensures Cwise(b, c)[j] != 0 {
      NonzeroProduct(b[j], c[j]);
    }
    forall i | 0 <= i < |b| ensures Res(PR, b[i] * aux[i]) == PrevOf(b, i) {
      PairValue(PrevOf(b, i), b[i], c[i], Cwise(b, c)[i], inv[i], shifted[i], i == 0);
    }
  }

  lemma NonzeroProduct(b: nat, c: nat)
    requires IsPrime(PR) && Scalar(b) && Scalar(c) && b != 0 && c != 0
    ensures MultMod(b, c) != 0
  {
    hide Res, MultMod, IsPrime;
    PrimeField();
    MultModIs(b, c);
    ResSmall(PR, b);
    ResSmall(PR, c);
    if MultMod(b, c) == 0 {
      Cancel(PR, b, c);
    }
  }

  lemma PairValue(before: nat, b: nat, c: nat, prod: nat, inv: nat, shifted: nat, first: bool)
    requires PR > 0 && Scalar(before) && Scalar(b) && Scalar(c) && Scalar(inv) && Scalar(shifted)
    requires prod == MultMod(b, c) && Res(PR, prod * inv) == 1
    requires if first then before == 1 && shifted == c else shifted == MultMod(before, c)
    ensures Res(PR, b * MultMod(inv, shifted)) == before
  {
    hide Res, MultMod;
    MultModIs(b, c);
    MultModIs(before, c);
    MultModIs(inv, shifted);
    assert 1 * c == c;
    if first { ResSmall(PR, c); }
    ResRes(PR, before * c);
    ResRes(PR, inv * shifted);
    ResOps(PR, inv, shifted, inv, before * c);
    ResOps(PR, b, MultMod(inv, shifted), b, inv * (before * c));
    PairAlgebra(b, inv, before, c);
    ResRes(PR, b * c);
    ResMul(PR, prod, inv, b * c);
    ResSmall(PR, 1);
    ResMul(PR, (b * c) * inv, before, 1);
    ResSmall(PR, before);
    assert 1 * before == before;
  }

  lemma PairAlgebra(b: int, inv: int, before: int, c: int)
    ensures b * (inv * (before * c)) == ((b * c) * inv) * before
  {
    var u := before * c;
    assert b * (inv * u) == (b * inv) * u;
    assert (b * inv) * (before * c) == ((b * inv) * c) * before;
    assert (b * inv) * c == (b * c) * inv;
  }

  // ---------------------------------------------------------------- constant-round products

  /** All prefix products of a row of scalars, as field elements. */
  function Prefixes(s: seq<nat>): (r: seq<nat>)
    requires PR > 0
    ensures |r| == |s|
  {
    seq(|s|, i requires 0 <= i < |s| => Res(PR, Product(s, i + 1)))
  }

  /** Masks every factor with the ratio of neighbouring random values, opens the masked factors
      and unmasks their prefix products. */
  method UnboundedPrefixMult(shares: seq<nat>, b: seq<nat>, aux: seq<nat>) returns (res: seq<nat>)
    requires IsPrime(PR) && |shares| == |b| > 0 && Scalars(shares) && Scalars(b) && Scalars(aux) && Correlated(b, aux)
    ensures PR > 0 && res == Prefixes(shares)
  {
    hide Res, IsPrime, Cwise, MultMod, Prefixes;
    PrimeField();
    CorrelatedSize(b, aux);
    var secrets := MultiplyCwise(shares, aux);
    ghost var opened0 := secrets;
    var i := 1;
    OpenedStart(shares, b, aux, opened0);
    while i < |b|
      invariant 1 <= i <= |b| && |secrets| == |b|
      invariant forall j :: 0 <= j < i ==> Scalar(secrets[j]) && Masked(shares, b, j, secrets[j])
      invariant forall j :: i <= j < |b| ==> secrets[j] == opened0[j]
    {
      OpenedStep(shares, b, aux, opened0, i, secrets[i - 1]);
      secrets := secrets[i := MultMod(secrets[i], secrets[i - 1])];
      i := i + 1;
    }
    res := [];
    for j := 0 to |b|
      invariant res == Prefixes(shares)[..j]
    {
      Unmask(shares, b, j, secrets[j]);
      res := res + [MultMod(secrets[j], b[j])];
    }
  }

  lemma CorrelatedSize(b: seq<nat>, aux: seq<nat>)
    requires Correlated(b, aux)
    ensures |aux| == |b|
  {
  }

  /** q is the product of the first j + 1 factors divided by b[j]. */
  ghost predicate Masked(shares: seq<nat>, b: seq<nat>, j: nat, q: nat)
    requires j < |shares| == |b|
  {
    PR > 0 && Res(PR, q * b[j]) == Res(PR, Product(shares, j + 1))
  }

  lemma OpenedStart(shares: seq<nat>, b: seq<nat>, aux: seq<nat>, first: seq<nat>)
    requires |shares| == |b| == |aux| > 0 && Scalars(shares) && Scalars(b) && Scalars(aux) && Correlated(b, aux)
    requires first == Cwise(shares, aux)
    ensures Masked(shares, b, 0, first[0])
  {
    hide Res, MultMod;
    MultModIs(shares[0], aux[0]);
    ProductOne(shares);
    ResRes(PR, shares[0] * aux[0]);
    ResMul(PR, first[0], b[0], shares[0] * aux[0]);
    assert (shares[0] * aux[0]) * b[0] == shares[0] * (b[0] * aux[0]);
    ResSmall(PR, 1);
    ResMul(PR, b[0] * aux[0], shares[0], 1);
  }

  lemma OpenedStep(shares: seq<nat>, b: seq<nat>, aux: seq<nat>, first: seq<nat>, i: nat, q: nat)
    requires |shares| == |b| == |aux| && Scalars(shares) && Scalars(b) && Scalars(aux) && Correlated(b, aux)
    requires first == Cwise(shares, aux) && 1 <= i < |b| && Scalar(q) && Masked(shares, b, i - 1, q)
    ensures Scalar(MultMod(first[i], q)) && Masked(shares, b, i, MultMod(first[i], q))
  {
    hide Res, MultMod;
    var x, a, c, p := shares[i], aux[i], b[i], Product(shares, i);
    MultModIs(x, a);
    MultModIs(first[i], q);
    ProductNext(shares, i);
    MaskStep(x, a, c, b[i - 1], q, p, first[i], MultMod(first[i], q));
  }

  lemma ProductNext(s: seq<nat>, i: nat)
    requires i < |s|
    ensures Product(s, i + 1) == Product(s, i) * s[i]
  {
  }

  /** (x * a) * q * c == (q * before) * x, because c * a is before. */
  lemma MaskStep(x: nat, a: nat, c: nat, before: nat, q: nat, p: int, f: nat, g: nat)
    requires PR > 0 && Res(PR, c * a) == before && Scalar(before) && Res(PR, q * before) == Res(PR, p)
    requires f == Res(PR, x * a) && g == Res(PR, f * q)
    ensures Res(PR, g * c) == Res(PR, p * x)
  {
    hide Res;
    ResRes(PR, f * q);
    ResMul(PR, g, c, f * q);
    ResRes(PR, x * a);
    ResMul(PR, f, q * c, x * a);
    FourProduct(f, q, c, x, a);
    ResSmall(PR, before);
    ResMul(PR, c * a, x * q, before);
    ResMul(PR, q * before, x, p);
    assert before * (x * q) == (q * before) * x;
  }

  lemma FourProduct(f: int, q: int, c: int, x: int, a: int)
    ensures (f * q) * c == f * (q * c)
    ensures (x * a) * (q * c) == (c * a) * (x * q)
  {
    assert (f * q) * c == f * (q * c);
    MulSwap(x, a, q, c);
    assert (x * q) * (a * c) == (a * c) * (x * q);
    assert a * c == c * a;
  }

  lemma Unmask(shares: seq<nat>, b: seq<nat>, j: nat, q: nat)
    requires j < |shares| == |b| && Scalar(q) && Scalars(b) && PR > 0 && Masked(shares, b, j, q)
    ensures MultMod(q, b[j]) == Prefixes(shares)[j]
  {
    hide Res, MultMod, Product;
    MultModIs(q, b[j]);
  }

  function Reverse(s: seq<nat>): (r: seq<nat>)
    ensures |r| == |s|
  {
    seq(|s|, i requires 0 <= i < |s| => s[|s| - 1 - i])
  }

  /** All postfix products, through the reversed row. */
  method UnboundedPostfixMult(shares: seq<nat>, b: seq<nat>, aux: seq<nat>) returns (res: seq<nat>)
    requires IsPrime(PR) && |shares| == |b| > 0 && Scalars(shares) && Scalars(b) && Scalars(aux) && Correlated(b, aux)
    ensures PR > 0 && res == Reverse(Prefixes(Reverse(shares)))
  {
    hide Res, IsPrime, Prefixes;
    var reversed := Reverse(shares);
    var r := UnboundedPrefixMult(reversed, b, aux);
    res := Reverse(r);
  }

  // ---------------------------------------------------------------- postfix OR

  ghost predicate BitRow(s: seq<nat>) {
    forall i :: 0 <= i < |s| ==> s[i] < 2
  }

  /** Some entry from position i on is 1. */
  ghost predicate AnyFrom(s: seq<nat>, i: nat) {
    exists j :: i <= j < |s| && s[j] == 1
  }

  /** One minus each bit. */
  method Complement(s: seq<nat>) returns (r: seq<nat>)
    requires BitRow(s)
    ensures |r| == |s| && BitRow(r) && Scalars(r) && forall i :: 0 <= i < |s| ==> r[i] == 1 - s[i]
  {
    hide Res;
    PrimeField();
    r := [];
    for i := 0 to |s|
      invariant |r| == i && forall j :: 0 <= j < i ==> r[j] == 1 - s[j]
    {
      SubModIs(1, s[i]);
      ResSmall(PR, 1 - s[i]);
      r := r + [SubMod(1, s[i])];
    }
  }

  /** Position i of the result is the OR of all entries from i on. */
  method PostfixOr(s: seq<nat>, b: seq<nat>, aux: seq<nat>) returns (res: seq<nat>)
    requires IsPrime(PR) && |s| == |b| > 0 && BitRow(s) && Scalars(b) && Scalars(aux) && Correlated(b, aux)
    ensures |res| == |s| && BitRow(res)
    ensures forall i :: 0 <= i < |s| ==> (res[i] == 1 <==> AnyFrom(s, i))
  {
    hide Res, IsPrime, Prefixes, AnyFrom;
    PrimeField();
    var mapped := Complement(s);
    var prod := UnboundedPostfixMult(mapped, b, aux);
    forall i | 0 <= i < |s| ensures prod[i] == if AnyFrom(s, i) then 0 else 1 {
      PostfixValue(s, mapped, i);
    }
    res := Complement(prod);
  }

  lemma PostfixValue(s: seq<nat>, mapped: seq<nat>, i: nat)
    requires i < |s| == |mapped| && BitRow(s) && forall j :: 0 <= j < |s| ==> mapped[j] == 1 - s[j]
    ensures PR > 0 && Reverse(Prefixes(Reverse(mapped)))[i] == if AnyFrom(s, i) then 0 else 1
  {
    hide Product;
    var n := |s|;
    ProductBits(s, mapped, n - i);
    assert Reverse(Prefixes(Reverse(mapped)))[i] == Res(PR, Product(Reverse(mapped), n - i));
  }

  lemma {:induction false} ProductBits(s: seq<nat>, mapped: seq<nat>, m: nat)
    requires m <= |s| == |mapped| && BitRow(s) && forall j :: 0 <= j < |s| ==> mapped[j] == 1 - s[j]
    ensures Product(Reverse(mapped), m) == if AnyFrom(s, |s| - m) then 0 else 1
  {
    if m > 0 {
      ProductBits(s, mapped, m - 1);
      var i := |s| - m;
      assert Reverse(mapped)[m - 1] == 1 - s[i];
      if s[i] == 1 {
        assert AnyFrom(s, i);
      } else {
        assert AnyFrom(s, i) <==> AnyFrom(s, i + 1);
      }
    }
  }

  // ---------------------------------------------------------------- comparison

  /** A bit of a row, 0 beyond its end. */
  function At(s: seq<nat>, i: nat): nat {
    if i < |s| then s[i] else 0
  }

  /** The exclusive or of two rows of any lengths; the rest of the longer one is kept. */
  method BitwiseXor(a: seq<nat>, b: seq<nat>) returns (res: seq<nat>)
    requires BitRow(a) && BitRow(b)
    ensures |res| == if |a| < |b| then |b| else |a|
    ensures BitRow(res) && forall i :: 0 <= i < |res| ==> (res[i] == 1 <==> At(a, i) != At(b, i))
    decreases if |b| < |a| then 1 else 0
  {
    hide Res, MultMod;
    if |b| < |a| {
      res := BitwiseXor(b, a);
      return;
    }
    PrimeField();
    res := [];
    for i := 0 to |a|
      invariant |res| == i && BitRow(res)
      invariant forall j :: 0 <= j < i ==> (res[j] == 1 <==> At(a, j) != At(b, j))
    {
      XorValue(a[i], b[i]);
      res := res + [SubMod(AddMod(a[i], b[i]), MultMod(2, MultMod(a[i], b[i])))];
    }
    for i := |a| to |b|
      invariant |res| == i && BitRow(res)
      invariant forall j :: 0 <= j < i ==> (res[j] == 1 <==> At(a, j) != At(b, j))
    {
      res := res + [b[i]];
    }
  }

  lemma XorValue(a: nat, b: nat)
    requires a < 2 && b < 2
    ensures SubMod(AddMod(a, b), MultMod(2, MultMod(a, b))) == if a != b then 1 else 0
  {
    hide Res, MultMod, AdditiveInverse;
    PrimeField();
    MultModIs(a, b);
    ResSmall(PR, a * b);
    MultModIs(2, a * b);
    ResSmall(PR, 2 * (a * b));
    ResSmall(PR, a + b);
    SubModIs(a + b, 2 * (a * b));
    ResSmall(PR, a + b - 2 * (a * b));
  }

  /** The differences of neighbouring postfix ORs: one at the highest difference, zero elsewhere. */
  method Deltas(or: seq<nat>) returns (delta: seq<nat>)
    requires |or| > 0 && BitRow(or) && forall i :: 0 <= i < |or| - 1 ==> or[i + 1] <= or[i]
    ensures |delta| == |or|
    ensures forall i :: 0 <= i < |or| ==> delta[i] == or[i] - At(or, i + 1)
  {
    hide Res;
    PrimeField();
    var len := |or|;
    delta := [];
    for i := 0 to len - 1
      invariant |delta| == i && forall j :: 0 <= j < i ==> delta[j] == or[j] - At(or, j + 1)
    {
      SubModIs(or[i], or[i + 1]);
      ResSmall(PR, or[i] - or[i + 1]);
      delta := delta + [SubMod(or[i], or[i + 1])];
    }
    delta := delta + [or[len - 1]];
  }

  /** Whether the number of a is below that of b, on bit rows of any lengths. */
  method LessThanUnsigned(a: seq<nat>, b: seq<nat>, rb: seq<nat>, aux: seq<nat>) returns (res: nat)
    requires IsPrime(PR) && BitRow(a) && BitRow(b) && Scalars(rb) && Scalars(aux) && Correlated(rb, aux)
    requires |rb| == (if |a| < |b| then |b| else |a|) && |rb| > 0
    ensures res == if Number(a, |a|) < Number(b, |b|) then 1 else 0
  {
    hide Res, IsPrime, MultMod, AddMod, AnyFrom, Number, Postfixes, DeltaSum, At;
    PrimeField();
    var xor := BitwiseXor(a, b);
    var or := PostfixOr(xor, rb, aux);
    OrDecreases(xor, or);
    var delta := Deltas(or);
    PostfixesIs(xor, or, delta);
    res := 0;
    SumStart(delta, b);
    for i := 0 to |b|
      invariant Scalar(res) && res == DeltaSum(delta, b, i)
    {
      DeltaBits(xor, or, delta, b, i);
      res := AddMod(res, MultMod(delta[i], b[i]));
    }
    ComparisonIs(a, b, xor, or, delta);
  }

  lemma OrDecreases(xor: seq<nat>, or: seq<nat>)
    requires |or| == |xor| && BitRow(or) && forall i :: 0 <= i < |or| ==> (or[i] == 1 <==> AnyFrom(xor, i))
    ensures forall i :: 0 <= i < |or| - 1 ==> or[i + 1] <= or[i]
  {
    hide AnyFrom;
    forall i | 0 <= i < |or| - 1 ensures or[i + 1] <= or[i] {
      AnyFromMore(xor, i);
    }
  }

  lemma PostfixesIs(xor: seq<nat>, or: seq<nat>, delta: seq<nat>)
    requires |or| == |xor| == |delta| && BitRow(or) && BitRow(xor)
    requires forall i :: 0 <= i < |or| ==> (or[i] == 1 <==> AnyFrom(xor, i))
    requires forall i :: 0 <= i < |or| ==> delta[i] == or[i] - At(or, i + 1)
    ensures Postfixes(xor, or, delta)
  {
  }

  lemma AnyFromMore(s: seq<nat>, i: nat)
    ensures AnyFrom(s, i + 1) ==> AnyFrom(s, i)
  {
  }

  /** The sum over i < m of delta[i] * b[i]. */
  function DeltaSum(delta: seq<nat>, b: seq<nat>, m: nat): nat {
    if m == 0 then 0 else DeltaSum(delta, b, m - 1) + At(delta, m - 1) * At(b, m - 1)
  }

  lemma SumStart(delta: seq<nat>, b: seq<nat>)
    ensures DeltaSum(delta, b, 0) == 0
  {
  }

  ghost predicate Postfixes(xor: seq<nat>, or: seq<nat>, delta: seq<nat>) {
    && |or| == |xor| == |delta| && BitRow(or) && BitRow(xor)
    && (forall i :: 0 <= i < |or| ==> (or[i] == 1 <==> AnyFrom(xor, i)))
    && forall i :: 0 <= i < |or| ==> delta[i] == or[i] - At(or, i + 1)
  }

  lemma DeltaBits(xor: seq<nat>, or: seq<nat>, delta: seq<nat>, b: seq<nat>, i: nat)
    requires Postfixes(xor, or, delta) && BitRow(b) && i < |b| <= |xor|
    ensures Scalar(DeltaSum(delta, b, i)) && Scalar(DeltaSum(delta, b, i + 1)) && delta[i] < 2
    ensures AddMod(DeltaSum(delta, b, i), MultMod(delta[i], b[i])) == DeltaSum(delta, b, i + 1)
  {
    hide Res, MultMod, AnyFrom, AddMod;
    PrimeField();
    DeltaSmall(xor, or, delta, b, i);
    DeltaSmall(xor, or, delta, b, i + 1);
    MultModIs(delta[i], b[i]);
    ResSmall(PR, delta[i] * b[i]);
    AddModIs(DeltaSum(delta, b, i), delta[i] * b[i]);
    ResSmall(PR, DeltaSum(delta, b, i + 1));
  }

  /** The partial sum is at most 1: zero once a difference lies above. */
  lemma {:induction false} DeltaSmall(xor: seq<nat>, or: seq<nat>, delta: seq<nat>, b: seq<nat>, m: nat)
    requires Postfixes(xor, or, delta) && BitRow(b) && m <= |xor|
    ensures DeltaSum(delta, b, m) <= 1 && (AnyFrom(xor, m) ==> DeltaSum(delta, b, m) == 0)
  {
    if m > 0 {
      DeltaSmall(xor, or, delta, b, m - 1);
      AnyFromMore(xor, m - 1);
      AboveIs(xor, or, m);
      var d, v := delta[m - 1], At(b, m - 1);
      assert d == or[m - 1] - At(or, m);
      assert d == 0 || (d == 1 && AnyFrom(xor, m - 1));
      assert 0 * v == 0 && 1 * v == v;
    }
  }

  lemma AboveIs(xor: seq<nat>, or: seq<nat>, m: nat)
    requires m <= |or| == |xor| && BitRow(or) && forall i :: 0 <= i < |or| ==> (or[i] == 1 <==> AnyFrom(xor, i))
    ensures At(or, m) == 1 <==> AnyFrom(xor, m)
  {
  }

  /** Comparison from the top bit down. */
  function Less(a: seq<nat>, b: seq<nat>, m: nat): bool {
    if m == 0 then false
    else if At(a, m - 1) != At(b, m - 1) then At(b, m - 1) == 1
    else Less(a, b, m - 1)
  }

  /** The number of the first m bits, padded with zeros. */
  function Padded(s: seq<nat>, m: nat): nat {
    if m == 0 then 0 else Padded(s, m - 1) + At(s, m - 1) * Pow2(m - 1)
  }

  lemma {:induction false} PaddedBound(s: seq<nat>, m: nat)
    requires BitRow(s)
    ensures Padded(s, m) < Pow2(m)
  {
    if m > 0 {
      PaddedBound(s, m - 1);
      BitTimes(At(s, m - 1), Pow2(m - 1));
    }
  }

  lemma BitTimes(v: nat, q: nat)
    requires v < 2
    ensures v * q == if v == 1 then q else 0
  {
    if v == 0 {
      assert 0 * q == 0;
    }
  }

  lemma {:induction false} PaddedIs(s: seq<nat>, m: nat)
    requires m >= |s|
    ensures Padded(s, m) == Padded(s, |s|)
  {
    if m > |s| {
      PaddedIs(s, m - 1);
      assert 0 * Pow2(m - 1) == 0;
    }
  }

  lemma {:induction false} PaddedNumber(s: seq<nat>, m: nat)
    requires m <= |s|
    ensures Padded(s, m) == Number(s, m)
  {
    if m > 0 {
      PaddedNumber(s, m - 1);
    }
  }

  lemma {:induction false} LessIs(a: seq<nat>, b: seq<nat>, m: nat)
    requires BitRow(a) && BitRow(b)
    ensures Less(a, b, m) <==> Padded(a, m) < Padded(b, m)
  {
    if m > 0 {
      LessIs(a, b, m - 1);
      PaddedBound(a, m - 1);
      PaddedBound(b, m - 1);
      BitTimes(At(a, m - 1), Pow2(m - 1));
      BitTimes(At(b, m - 1), Pow2(m - 1));
    }
  }

  /** The sum picks the bit of b at the highest difference. */
  lemma {:induction false} DeltaSumIs(a: seq<nat>, b: seq<nat>, xor: seq<nat>, or: seq<nat>, delta: seq<nat>, m: nat)
    requires Postfixes(xor, or, delta) && BitRow(a) && BitRow(b) && m <= |xor|
    requires forall i :: 0 <= i < |xor| ==> (xor[i] == 1 <==> At(a, i) != At(b, i))
    ensures DeltaSum(delta, b, m) == if AnyFrom(xor, m) then 0 else if Less(a, b, m) then 1 else 0
  {
    hide AnyFrom, DeltaSum, Less, Postfixes;
    LessAt(a, b, m);
    DeltaSumAt(xor, or, delta, b, m);
    if m > 0 {
      DeltaSumIs(a, b, xor, or, delta, m - 1);
      AnyFromHead(xor, m - 1);
      DeltaIs(xor, or, delta, m - 1);
      BitTimes(delta[m - 1], At(b, m - 1));
    }
  }

  lemma LessAt(a: seq<nat>, b: seq<nat>, m: nat)
    ensures Less(a, b, m) == if m == 0 then false else if At(a, m - 1) != At(b, m - 1) then At(b, m - 1) == 1 else Less(a, b, m - 1)
  {
  }

  lemma DeltaSumAt(xor: seq<nat>, or: seq<nat>, delta: seq<nat>, b: seq<nat>, m: nat)
    requires Postfixes(xor, or, delta) && m <= |xor|
    ensures |delta| == |xor| && DeltaSum(delta, b, m) == if m == 0 then 0 else DeltaSum(delta, b, m - 1) + delta[m - 1] * At(b, m - 1)
  {
    hide AnyFrom;
  }

  lemma AnyFromHead(s: seq<nat>, i: nat)
    requires i < |s|
    ensures AnyFrom(s, i) <==> s[i] == 1 || AnyFrom(s, i + 1)
  {
  }

  /** The difference marks the last place where the rows differ. */
  lemma DeltaIs(xor: seq<nat>, or: seq<nat>, delta: seq<nat>, i: nat)
    requires Postfixes(xor, or, delta) && i < |xor|
    ensures delta[i] < 2 && (delta[i] == 1 <==> xor[i] == 1 && !AnyFrom(xor, i + 1))
  {
    hide AnyFrom;
    AboveIs(xor, or, i + 1);
    AnyFromHead(xor, i);
  }

  lemma {:induction false} DeltaSumRest(delta: seq<nat>, b: seq<nat>, m: nat)
    requires m >= |b|
    ensures DeltaSum(delta, b, m) == DeltaSum(delta, b, |b|)
  {
    if m > |b| {
      DeltaSumRest(delta, b, m - 1);
      assert At(delta, m - 1) * 0 == 0;
    }
  }

  lemma ComparisonIs(a: seq<nat>, b: seq<nat>, xor: seq<nat>, or: seq<nat>, delta: seq<nat>)
    requires Postfixes(xor, or, delta) && BitRow(a) && BitRow(b)
    requires |xor| == if |a| < |b| then |b| else |a|
    requires forall i :: 0 <= i < |xor| ==> (xor[i] == 1 <==> At(a, i) != At(b, i))
    ensures DeltaSum(delta, b, |b|) == if Number(a, |a|) < Number(b, |b|) then 1 else 0
  {
    hide Number, Padded, DeltaSum, Less;
    var n := |xor|;
    DeltaSumIs(a, b, xor, or, delta, n);
    DeltaSumRest(delta, b, n);
    LessIs(a, b, n);
    PaddedIs(a, n);
    PaddedIs(b, n);
    PaddedNumber(a, |a|);
    PaddedNumber(b, |b|);
    assert !AnyFrom(xor, n);
  }
}
