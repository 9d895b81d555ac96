/** The prime field of the packed scheme: 14 generates a subgroup of every order 2^m, m <= 10. */
module Field14 {
  import opened Modular
  import Fft

  const FIELD: nat := 3193032821761

  /** 14^e has residue r. */
  ghost predicate Power(e: nat, r: int) {
    Res(FIELD, Pow(14, e)) == r
  }

  lemma Double(e: nat, r: int, q: int, s: int)
    requires Power(e, r) && r * r == q * FIELD + s && 0 <= s < FIELD
    ensures Power(2 * e, s)
  {
    hide Res, Pow;
    PowAdd(14, e, e);
    ResReduced(FIELD, Pow(14, e), Pow(14, e));
    ResIs(FIELD, r * r, q, s);
  }

  lemma DoubleTimes(e: nat, r: int, q: int, s: int, u: int, t: int)
    requires Power(e, r) && r * r == q * FIELD + s && 0 <= s < FIELD
    requires 14 * s == u * FIELD + t && 0 <= t < FIELD
    ensures Power(2 * e + 1, t)
  {
    hide Res;
    Double(e, r, q, s);
    assert Pow(14, 2 * e + 1) == 14 * Pow(14, 2 * e);
    ResRes(FIELD, Pow(14, 2 * e));
    ResMul(FIELD, s, 14, Pow(14, 2 * e));
    ResIs(FIELD, 14 * s, u, t);
  }

  lemma PowerOne()
    ensures Power(1, 14)
  {
    assert Pow(14, 1) == 14 * Pow(14, 0);
    ResIs(FIELD, 14, 0, 14);
  }

  lemma PowersA()
    ensures Power(23789, 3120388437475)
  {
    PowerOne();
    Double(1, 14, 0, 196);
    DoubleTimes(2, 196, 0, 38416, 0, 537824);
    DoubleTimes(5, 537824, 0, 289254654976, 1, 856532347903);
    DoubleTimes(11, 856532347903, 229765149297, 2088473045392, 9, 501327239639);
    Double(23, 501327239639, 78711687362, 1002830565839);
    Double(46, 1002830565839, 314957346171, 2224694946790);
    DoubleTimes(92, 2224694946790, 1550020899422, 3009097381958, 13, 617936664519);
    DoubleTimes(185, 617936664519, 119587158251, 297370001350, 1, 970147197139);
    DoubleTimes(371, 970147197139, 294762264171, 2068290360190, 9, 218769646811);
    Double(743, 218769646811, 14988934044, 106845538237);
    DoubleTimes(1486, 106845538237, 3575274567, 1915881615682, 8, 1278080045460);
    DoubleTimes(2973, 1278080045460, 511579020256, 1292210020784, 5, 2125776182171);
    Double(5947, 2125776182171, 1415245200703, 1099707375258);
    DoubleTimes(11894, 1099707375258, 378748474790, 450958661374, 1, 3120388437475);
  }

  lemma PowersB()
    ensures Power(389774514, 2127854438810)
  {
    PowersA();
    DoubleTimes(23789, 3120388437475, 3049396778626, 2591751895239, 11, 1161165493975);
    DoubleTimes(47579, 1161165493975, 422264780746, 2515398686919, 11, 92220577495);
    DoubleTimes(95159, 92220577495, 2663497492, 877193951613, 3, 2701616857299);
    DoubleTimes(190319, 2701616857299, 2285831073799, 727725435362, 3, 609057629785);
    Double(380639, 609057629785, 116175190518, 1010807884027);
    Double(761278, 1010807884027, 319988122717, 2073425692092);
    DoubleTimes(1522556, 2073425692092, 1346398343082, 1735757929062, 7, 1949381254541);
    Double(3045113, 1949381254541, 1190118450915, 890410759366);
    DoubleTimes(6090226, 890410759366, 248300397976, 1050183566220, 4, 1930438640036);
    DoubleTimes(12180453, 1930438640036, 1167101483438, 555034586978, 2, 1384418574170);
    Double(24360907, 1384418574170, 600249009482, 1340086251098);
    Double(48721814, 1340086251098, 562421766585, 3182855549419);
    DoubleTimes(97443628, 3182855549419, 3172710715475, 2823891786086, 12, 1218091144072);
    Double(194887257, 1218091144072, 464682362534, 2127854438810);
  }

  lemma PowersTop()
    ensures Power(3118196115, 2280254066972)
  {
    PowersB();
    Double(389774514, 2127854438810, 1418013771078, 2277003387742);
    DoubleTimes(779549028, 2277003387742, 1623767971457, 2065179382787, 9, 175215963169);
    DoubleTimes(1559098057, 175215963169, 9614881983, 162875290498, 0, 2280254066972);
  }

  lemma PowersC()
    ensures Power(1596516410880, 3193032821760)
  {
    PowersTop();
    Double(3118196115, 2280254066972, 1628407504773, 224995483531);
    Double(6236392230, 224995483531, 15854195817, 3041539454224);
    Double(12472784460, 3041539454224, 2897233685966, 187866336050);
    Double(24945568920, 187866336050, 11053365934, 2654598312726);
    Double(49891137840, 2654598312726, 2206958899358, 100542221638);
    Double(99782275680, 100542221638, 3165873605, 1592895884639);
    Double(199564551360, 1592895884639, 794641784452, 1896499100349);
    Double(399129102720, 1896499100349, 1126424010775, 325053447026);
    Double(798258205440, 325053447026, 33090716356, 3193032821760);
  }

  /** The generator the scheme picks for the subgroup of order 2^m. */
  function GeneratorFor(m: nat): int {
    Res(FIELD, Pow(14, Quotient(FIELD - 1, Pow2(m))))
  }

  function Quotient(a: nat, b: nat): nat
    requires b > 0
  {
    a / b
  }

  /** The field's multiplicative order is a multiple of 2^10. */
  lemma GeneratorOrder(m: nat)
    requires 1 <= m <= 10
    ensures (FIELD - 1) % Pow2(m) == 0
    ensures HasOrder(FIELD, GeneratorFor(m), m)
  {
    hide Res, Pow;
    PowersC();
    var e := 3118196115 * Pow2(10 - m);
    assert Pow2(10) == 1024 by { assert Pow2(5) == 32; Pow2Add(5, 5); }
    Pow2Add(m, 10 - m);
    OrderExponents(e, Pow2(m), Pow2(10 - m), Pow2(m - 1));
    PowPow(14, e, Pow2(m - 1));
    ResRes(FIELD, Pow(14, e));
    PowRes(FIELD, Res(FIELD, Pow(14, e)), Pow(14, e), Pow2(m - 1));
    MinusOne(FIELD);
  }

  lemma OrderExponents(e: nat, w: nat, v: nat, h: nat)
    requires w * v == 1024 && w == 2 * h && w > 0 && e == 3118196115 * v
    ensures (FIELD - 1) / w == e && (FIELD - 1) % w == 0 && e * h == 1596516410880
  {
    assert e * w == 3118196115 * (w * v);
    assert e * w == 2 * (e * h);
    ResIs(w, FIELD - 1, e, 0);
    Fft.DivIs(FIELD - 1, w, e, 0);
  }

  /** The generator of the largest subgroup, and each smaller one is the square of the next: with this
      the hard-coded field and 14 fix every generator. */
  lemma GeneratorValues(m: nat)
    requires 1 <= m < 10
    ensures GeneratorFor(10) == 2280254066972
    ensures GeneratorFor(m) == Res(FIELD, GeneratorFor(m + 1) * GeneratorFor(m + 1))
  {
    hide Res, Pow;
    PowersTop();
    assert Pow2(10) == 1024 by { assert Pow2(5) == 32; Pow2Add(5, 5); }
    Pow2Add(10, 0);
    OrderExponents(3118196115, Pow2(10), 1, Pow2(9));
    var w := Pow2(m);
    Pow2Add(m, 10 - m);
    Pow2Add(m + 1, 9 - m);
    var e := 3118196115 * Pow2(9 - m);
    OrderExponents(2 * e, w, Pow2(10 - m), Pow2(m - 1));
    OrderExponents(e, Pow2(m + 1), Pow2(9 - m), w);
    PowAdd(14, e, e);
    ResReduced(FIELD, Pow(14, e), Pow(14, e));
  }
}
