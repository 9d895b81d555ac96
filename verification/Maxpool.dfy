/** The tournament maximum of a row with its one-hot index. */
module Maxpool {
  import opened Modular
  import opened Words
  import opened Gfp
  import opened BitProtocols
  import opened GfpScalars
  import opened Comparison

  /** Up to this row length the block size, a signed 32-bit shift, does not overflow. */
  const MAX_COLUMNS: nat := 0x4000_0000

  /** What one comparison takes from the stores of random sharings. */
  datatype Mask = Mask(rBits: seq<nat>, rb: seq<nat>, aux: seq<nat>)

  ghost predicate MaskOk(m: Mask) {
    && |m.rBits| == BITS_LENGTH && BitRow(m.rBits)
    && |m.rb| == BITS_LENGTH && Scalars(m.rb) && Scalars(m.aux) && Correlated(m.rb, m.aux)
  }

  /** The mask does not hide the sign of x. */
  ghost predicate Shows(x: nat, m: Mask)
    requires MaskOk(m)
  {
    Doubled(x) + Number(m.rBits, BITS_LENGTH) != PR
  }

  // ---------------------------------------------------------------- the leftmost maximum

  /** The leftmost maximum of v[lo..hi], as signed numbers. */
  function ArgMax(v: seq<nat>, lo: nat, hi: nat): (k: nat)
    requires lo < hi <= |v|
    ensures lo <= k < hi
    ensures forall j :: lo <= j < hi ==> Signed(v[j]) <= Signed(v[k])
    ensures forall j :: lo <= j < k ==> Signed(v[j]) < Signed(v[k])
  {
    if hi == lo + 1 then lo else
      var k := ArgMax(v, lo, hi - 1);
      if Signed(v[hi - 1]) > Signed(v[k]) then hi - 1 else k
  }

  lemma LeftmostUnique(v: seq<nat>, lo: nat, hi: nat, k: nat)
    requires lo < hi <= |v| && lo <= k < hi
    requires forall j :: lo <= j < hi ==> Signed(v[j]) <= Signed(v[k])
    requires forall j :: lo <= j < k ==> Signed(v[j]) < Signed(v[k])
    ensures k == ArgMax(v, lo, hi)
  {
    hide Signed;
    var a := ArgMax(v, lo, hi);
    assert Signed(v[a]) <= Signed(v[k]) && Signed(v[k]) <= Signed(v[a]);
  }

  lemma ArgMaxJoin(v: seq<nat>, lo: nat, mid: nat, hi: nat)
    requires lo < mid < hi <= |v|
    ensures var a, b := ArgMax(v, lo, mid), ArgMax(v, mid, hi);
      ArgMax(v, lo, hi) == if Signed(v[a]) >= Signed(v[b]) then a else b
  {
    hide Signed;
    var a, b := ArgMax(v, lo, mid), ArgMax(v, mid, hi);
    var k := if Signed(v[a]) >= Signed(v[b]) then a else b;
    forall j | lo <= j < hi ensures Signed(v[j]) <= Signed(v[k]) && (j < k ==> Signed(v[j]) < Signed(v[k])) {
      if j < mid {
        assert Signed(v[j]) <= Signed(v[a]);
      } else {
        assert Signed(v[j]) <= Signed(v[b]);
      }
    }
    LeftmostUnique(v, lo, hi, k);
  }

  // ---------------------------------------------------------------- blocks

  /** One-hot at k on lo, ..., hi - 1. */
  predicate OneHot(idx: seq<nat>, lo: nat, hi: nat, k: nat)
    requires hi <= |idx|
  {
    forall j :: lo <= j < hi ==> idx[j] == if j == k then 1 else 0
  }

  function Upper(i: nat, size: nat, n: nat): nat {
    if (i + 1) * size > n then n else (i + 1) * size
  }

  predicate BlockOk(origin: seq<nat>, idx: seq<nat>, lo: nat, hi: nat, top: nat) {
    lo < hi <= |origin| == |idx| && top == origin[ArgMax(origin, lo, hi)] && OneHot(idx, lo, hi, ArgMax(origin, lo, hi))
  }

  /** So many columns of blocks of this size cover the row, the last one not empty. */
  predicate Shape(cols: nat, size: nat, n: nat) {
    cols > 0 && size > 0 && (cols - 1) * size < n <= cols * size
  }

  /** Column i holds the maximum of block i and the index row is one-hot in each block. */
  predicate BlocksOk(origin: seq<nat>, idx: seq<nat>, cols: seq<nat>, size: nat) {
    && Shape(|cols|, size, |origin|)
    && forall i :: 0 <= i < |cols| ==> BlockOk(origin, idx, i * size, Upper(i, size, |origin|), cols[i])
  }

  /** Differences of the row's entries do not overflow. */
  ghost predicate Spread(v: seq<nat>) {
    Scalars(v) && forall i, j :: 0 <= i < |v| && 0 <= j < |v| ==> Signed(v[i]) - Signed(v[j]) <= MAX_POSITIVE
  }

  lemma SpreadOfSmall(v: seq<nat>)
    requires Scalars(v) && forall i :: 0 <= i < |v| ==> -0x1FFF_FFFF <= Signed(v[i]) <= 0x1FFF_FFFF
    ensures Spread(v)
  {
    hide Signed;
  }

  lemma SignOfDifference(a: nat, b: nat)
    requires Scalar(a) && Scalar(b)
    requires Signed(a) - Signed(b) <= MAX_POSITIVE && Signed(b) - Signed(a) <= MAX_POSITIVE
    ensures Scalar(SubMod(a, b)) && 1 - Msb(SubMod(a, b)) == if Signed(a) >= Signed(b) then 1 else 0
  {
    hide Res, AdditiveInverse, AddMod;
    PrimeField();
    SubModIs(a, b);
    if Signed(a) >= Signed(b) {
      ResIs(PR, a - b, if a >= b then 0 else -1, Signed(a) - Signed(b));
    } else {
      ResIs(PR, a - b, if a >= b then 0 else -1, Signed(a) - Signed(b) + PR);
    }
  }

  lemma Choice(c: nat, a: nat, b: nat)
    requires Scalar(a) && Scalar(b) && c < 2
    ensures AddMod(MultMod(c, a), MultMod(SubMod(1, c), b)) == if c == 1 then a else b
    ensures SubMod(1, c) == 1 - c
    ensures MultMod(c, a) == (if c == 1 then a else 0) && MultMod(1 - c, b) == if c == 1 then 0 else b
  {
    hide Res, AdditiveInverse, MultMod;
    PrimeField();
    SubModIs(1, c);
    ResSmall(PR, 1 - c);
    MultModIs(c, a);
    MultModIs(1 - c, b);
    assert 0 * a == 0 && 1 * a == a && 0 * b == 0 && 1 * b == b;
    ResSmall(PR, a);
    ResSmall(PR, b);
    ResZero(PR, 0);
  }

  // ---------------------------------------------------------------- one round

  /** What comparing x with y gives. */
  ghost predicate Compared(x: nat, y: nat, m: Mask, c: nat)
    requires Scalar(x) && Scalar(y) && MaskOk(m)
  {
    && c < 2 && Scalar(SubMod(x, y)) && (c == 1 - Msb(SubMod(x, y)) <==> Shows(SubMod(x, y), m))
  }

  method CompareTwo(x: nat, y: nat, m: Mask) returns (c: nat)
    requires IsPrime(PR) && Scalar(x) && Scalar(y) && MaskOk(m)
    ensures Compared(x, y, m, c)
  {
    hide Res, IsPrime, Correlated, AddMod, AdditiveInverse, Msb, Number, BitRow;
    PrimeField();
    SubModIs(x, y);
    c := DeltaReLU(SubMod(x, y), m.rBits, m.rb, m.aux);
  }

  /** Each left column against its right neighbour. */
  method CompareColumns(cols: seq<nat>, masks: seq<Mask>) returns (cond: seq<nat>)
    requires IsPrime(PR) && Scalars(cols) && |masks| >= |cols| / 2 && forall m :: m in masks ==> MaskOk(m)
    ensures |cond| == |cols| / 2
    ensures forall i :: 0 <= i < |cond| ==> cond[i] < 2 && Scalar(SubMod(cols[2 * i], cols[2 * i + 1]))
    ensures forall i :: 0 <= i < |cond| ==> (
      cond[i] == 1 - Msb(SubMod(cols[2 * i], cols[2 * i + 1])) <==> Shows(SubMod(cols[2 * i], cols[2 * i + 1]), masks[i]))
  {
    hide IsPrime, MaskOk, SubMod, Msb, Shows, Compared;
    cond := [];
    for i := 0 to |cols| / 2
      invariant |cond| == i
      invariant forall k :: 0 <= k < i ==> MaskOk(masks[k]) && Compared(cols[2 * k], cols[2 * k + 1], masks[k], cond[k])
    {
      assert masks[i] in masks;
      var d := CompareTwo(cols[2 * i], cols[2 * i + 1], masks[i]);
      cond := cond + [d];
    }
    forall i | 0 <= i < |cond|
      ensures cond[i] < 2 && Scalar(SubMod(cols[2 * i], cols[2 * i + 1]))
      ensures cond[i] == 1 - Msb(SubMod(cols[2 * i], cols[2 * i + 1])) <==> Shows(SubMod(cols[2 * i], cols[2 * i + 1]), masks[i])
    {
      ComparedIs(cols[2 * i], cols[2 * i + 1], masks[i], cond[i]);
    }
  }

  lemma ComparedIs(x: nat, y: nat, m: Mask, c: nat)
    requires Scalar(x) && Scalar(y) && MaskOk(m) && Compared(x, y, m, c)
    ensures c < 2 && Scalar(SubMod(x, y)) && (c == 1 - Msb(SubMod(x, y)) <==> Shows(SubMod(x, y), m))
  {
    hide MaskOk, SubMod, Msb, Shows;
  }

  /** A stretch of the index row times c. */
  method Scale(idx: array<nat>, start: nat, size: nat, c: nat)
    requires start + size <= idx.Length && c < 2 && forall j :: start <= j < start + size ==> Scalar(idx[j])
    modifies idx
    ensures forall j :: 0 <= j < idx.Length ==> idx[j] == if start <= j < start + size && c == 0 then 0 else old(idx[j])
  {
    hide MultMod, AddMod, SubMod;
    for k := 0 to size
      invariant forall j :: 0 <= j < idx.Length ==> idx[j] == if start <= j < start + k && c == 0 then 0 else old(idx[j])
    {
      Choice(c, idx[start + k], 0);
      idx[start + k] := MultMod(c, idx[start + k]);
    }
  }

  /** Two neighbouring blocks joined. */
  lemma JoinBlocks(origin: seq<nat>, was: seq<nat>, idx: seq<nat>, lo: nat, mid: nat, hi: nat, a: nat, b: nat, c: nat)
    requires BlockOk(origin, was, lo, mid, a) && BlockOk(origin, was, mid, hi, b) && |idx| == |was|
    requires c == if Signed(a) >= Signed(b) then 1 else 0
    requires forall j :: lo <= j < mid ==> idx[j] == if c == 0 then 0 else was[j]
    requires forall j :: mid <= j < hi ==> idx[j] == if c == 1 then 0 else was[j]
    ensures BlockOk(origin, idx, lo, hi, if c == 1 then a else b)
  {
    hide Signed, ArgMax;
    ArgMaxJoin(origin, lo, mid, hi);
  }

  lemma BlockKept(origin: seq<nat>, was: seq<nat>, idx: seq<nat>, lo: nat, hi: nat, top: nat)
    requires BlockOk(origin, was, lo, hi, top) && |idx| == |was| && forall j :: lo <= j < hi ==> idx[j] == was[j]
    ensures BlockOk(origin, idx, lo, hi, top)
  {
    hide ArgMax;
  }

  /** Where the two halves of a joined block lie, and the size of a cut right half. */
  lemma Halves(i: nat, size: nat, cols: nat, n: nat)
    requires Shape(cols, size, n) && 2 * i + 1 < cols
    ensures 2 * i * size == i * (2 * size) && Upper(2 * i, size, n) == i * (2 * size) + size == (2 * i + 1) * size
    ensures Upper(2 * i + 1, size, n) == Upper(i, 2 * size, n)
    ensures var start := i * (2 * size);
      start + size < n && Upper(i, 2 * size, n) == start + size + if start + 2 * size > n then n - start - size else size
  {
    MulMonotone(2 * i + 1, cols - 1, size);
    assert (2 * i + 1) * size == i * (2 * size) + size;
    assert (2 * i + 2) * size == (i + 1) * (2 * size) == i * (2 * size) + 2 * size;
  }

  /** The column left over when the count is odd. */
  lemma OddBlock(size: nat, cols: nat, n: nat)
    requires Shape(cols, size, n) && cols % 2 == 1
    ensures (cols - 1) * size == cols / 2 * (2 * size) && Upper(cols - 1, size, n) == Upper(cols / 2, 2 * size, n) == n
  {
    assert (cols - 1) * size == cols / 2 * (2 * size);
    assert (cols / 2 + 1) * (2 * size) == (cols + 1) * size == cols * size + size;
  }

  lemma HalfCount(size: nat, cols: nat, n: nat)
    requires Shape(cols, size, n) && cols > 1
    ensures Shape(cols / 2 + cols % 2, 2 * size, n)
  {
    var y := cols / 2 + cols % 2;
    assert (y - 1) * (2 * size) == (2 * y - 2) * size && y * (2 * size) == 2 * y * size;
    MulMonotone(2 * y - 2, cols - 1, size);
    MulMonotone(cols, 2 * y, size);
  }

  lemma BlocksApart(i: nat, k: nat, size: nat, n: nat)
    requires i < k && size > 0
    ensures Upper(i, size, n) <= k * size
  {
    MulMonotone(i + 1, k, size);
  }

  /** The winner of each pair, and the index row cleared in the losing half: the first halves of
      the pairs up to i are done. */
  ghost predicate RoundOk(origin: seq<nat>, was: seq<nat>, idx: seq<nat>, cols: seq<nat>, tops: seq<nat>, size: nat) {
    && |idx| == |was| == |origin| && 2 * |tops| <= |cols| && Scalars(tops)
    && (forall k :: 0 <= k < |tops| ==> BlockOk(origin, idx, k * (2 * size), Upper(k, 2 * size, |origin|), tops[k]))
    && (forall j :: |tops| * (2 * size) <= j < |idx| ==> idx[j] == was[j])
  }

  lemma RoundStep(origin: seq<nat>, was: seq<nat>, before: seq<nat>, idx: seq<nat>, cols: seq<nat>, tops: seq<nat>, size: nat, c: nat)
    requires BlocksOk(origin, was, cols, size) && Scalars(cols) && RoundOk(origin, was, before, cols, tops, size)
    requires 2 * |tops| + 1 < |cols| && |idx| == |before|
    requires c == if Signed(cols[2 * |tops|]) >= Signed(cols[2 * |tops| + 1]) then 1 else 0
    requires var start, stop := |tops| * (2 * size), Upper(|tops|, 2 * size, |origin|);
      forall j :: 0 <= j < |idx| ==> (
        idx[j] == if start <= j < start + size && c == 0 then 0 else if start + size <= j < stop && c == 1 then 0 else before[j])
    ensures RoundOk(origin, was, idx, cols, tops + [if c == 1 then cols[2 * |tops|] else cols[2 * |tops| + 1]], size)
  {
    hide Signed, ArgMax, BlockOk, Upper;
    var i, n := |tops|, |origin|;
    var start, stop := i * (2 * size), Upper(i, 2 * size, n);
    Halves(i, size, |cols|, n);
    assert BlockOk(origin, was, 2 * i * size, Upper(2 * i, size, n), cols[2 * i]);
    assert BlockOk(origin, was, (2 * i + 1) * size, Upper(2 * i + 1, size, n), cols[2 * i + 1]);
    JoinBlocks(origin, was, idx, start, start + size, stop, cols[2 * i], cols[2 * i + 1], c);
    forall k | 0 <= k < i ensures BlockOk(origin, idx, k * (2 * size), Upper(k, 2 * size, n), tops[k]) {
      BlocksApart(k, i, 2 * size, n);
      BlockKept(origin, before, idx, k * (2 * size), Upper(k, 2 * size, n), tops[k]);
    }
    assert (i + 1) * (2 * size) == start + 2 * size;
    StopBelow(i, 2 * size, n);
  }

  lemma StopBelow(i: nat, size: nat, n: nat)
    ensures Upper(i, size, n) <= (i + 1) * size && Upper(i, size, n) <= n
  {
  }

  /** After the last pair, with the odd column carried over. */
  lemma RoundDone(origin: seq<nat>, was: seq<nat>, idx: seq<nat>, cols: seq<nat>, tops: seq<nat>, size: nat)
    requires BlocksOk(origin, was, cols, size) && Scalars(cols) && RoundOk(origin, was, idx, cols, tops, size)
    requires |cols| > 1 && |tops| == |cols| / 2
    ensures BlocksOk(origin, idx, if |cols| % 2 == 1 then tops + [cols[|cols| - 1]] else tops, 2 * size)
  {
    hide Signed, ArgMax, BlockOk, Upper;
    var n := |origin|;
    HalfCount(size, |cols|, n);
    if |cols| % 2 == 1 {
      OddBlock(size, |cols|, n);
      BlockKept(origin, was, idx, (|cols| - 1) * size, n, cols[|cols| - 1]);
    }
  }

  // ---------------------------------------------------------------- the tournament

  /** The signs the comparisons return are right for these columns. */
  ghost predicate Decided(cols: seq<nat>, cond: seq<nat>) {
    && |cond| == |cols| / 2
    && forall i :: 0 <= i < |cond| ==> cond[i] == if Signed(cols[2 * i]) >= Signed(cols[2 * i + 1]) then 1 else 0
  }

  lemma Decide(origin: seq<nat>, idx: seq<nat>, cols: seq<nat>, size: nat, cond: seq<nat>)
    requires Spread(origin) && BlocksOk(origin, idx, cols, size) && |cond| == |cols| / 2
    requires forall i :: 0 <= i < |cond| ==> cond[i] == 1 - Msb(SubMod(cols[2 * i], cols[2 * i + 1]))
    ensures Scalars(cols) && Decided(cols, cond)
  {
    hide Signed, ArgMax, OneHot, Msb, SubMod, Upper;
    TopsFromOrigin(origin, idx, cols, size);
    forall i | 0 <= i < |cond| ensures cond[i] == if Signed(cols[2 * i]) >= Signed(cols[2 * i + 1]) then 1 else 0 {
      var a, b := cols[2 * i], cols[2 * i + 1];
      assert a in origin && b in origin;
      SignOfDifference(a, b);
    }
  }

  lemma TopsFromOrigin(origin: seq<nat>, idx: seq<nat>, cols: seq<nat>, size: nat)
    requires Scalars(origin) && BlocksOk(origin, idx, cols, size)
    ensures Scalars(cols) && forall i :: 0 <= i < |cols| ==> cols[i] in origin
  {
    hide ArgMax, OneHot, Upper;
    forall i | 0 <= i < |cols| ensures Scalar(cols[i]) && cols[i] in origin {
      assert BlockOk(origin, idx, i * size, Upper(i, size, |origin|), cols[i]);
    }
  }

  /** Each pair's larger column, the left one when they are equal; the odd column goes through. */
  function Winners(cols: seq<nat>): (w: seq<nat>) {
    seq(|cols| / 2 + |cols| % 2, i requires 0 <= i < |cols| / 2 + |cols| % 2 => Winner(cols, i))
  }

  function Winner(cols: seq<nat>, i: nat): nat
    requires 2 * i < |cols|
  {
    if 2 * i + 1 < |cols| && Signed(cols[2 * i]) < Signed(cols[2 * i + 1]) then cols[2 * i + 1] else cols[2 * i]
  }

  /** No comparison of the tournament is hidden by its mask. */
  ghost predicate Shown(cols: seq<nat>, masks: seq<Mask>)
    requires |masks| + 1 >= |cols| && forall m :: m in masks ==> MaskOk(m)
    decreases |cols|
  {
    |cols| <= 1 || (
      && (forall i :: 0 <= i < |cols| / 2 ==> ShowsPair(cols, i, masks[i]))
      && Shown(Winners(cols), masks[|cols| / 2..]))
  }

  ghost predicate ShowsPair(cols: seq<nat>, i: nat, m: Mask)
    requires 2 * i + 1 < |cols| && MaskOk(m)
  {
    Shows(SubMod(cols[2 * i], cols[2 * i + 1]), m)
  }

  /** One pair: the winner, and the index row cleared in the losing half. */
  method PlayPair(cols: seq<nat>, i: nat, c: nat, blkSize: nat, maxIdx: array<nat>) returns (winner: nat)
    requires Scalars(cols) && 2 * i + 1 < |cols| && c < 2
    requires blkSize % 2 == 0 && Shape(|cols|, blkSize / 2, maxIdx.Length)
    requires forall j :: 0 <= j < maxIdx.Length ==> maxIdx[j] < 2
    modifies maxIdx
    ensures winner == if c == 1 then cols[2 * i] else cols[2 * i + 1]
    ensures var start, stop := i * blkSize, Upper(i, blkSize, maxIdx.Length);
      forall j :: 0 <= j < maxIdx.Length ==> (
        maxIdx[j] == if start <= j < start + blkSize / 2 && c == 0 then 0
          else if start + blkSize / 2 <= j < stop && c == 1 then 0 else old(maxIdx[j]))
  {
    hide AddMod, MultMod, SubMod, Upper, Shape;
    PairShape(|cols|, blkSize / 2, maxIdx.Length, i);
    Choice(c, cols[2 * i], cols[2 * i + 1]);
    winner := AddMod(MultMod(c, cols[2 * i]), MultMod(SubMod(1, c), cols[2 * i + 1]));
    var start, leftBlkSize := i * blkSize, blkSize / 2;
    var rightBlkSize := if start + blkSize > maxIdx.Length then maxIdx.Length - start - leftBlkSize else leftBlkSize;
    Scale(maxIdx, start, leftBlkSize, c);
    Scale(maxIdx, start + leftBlkSize, rightBlkSize, SubMod(1, c));
  }

  /** The winners of the pairs; the index row is multiplied by the results of the comparisons. */
  method Round(depth: nat, cols: seq<nat>, origin: seq<nat>, maxIdx: array<nat>, cond: seq<nat>) returns (tops: seq<nat>)
    requires 1 <= depth && Shape(|cols|, Pow2(depth - 1), |origin|) && |cols| > 1 && maxIdx.Length == |origin| <= MAX_COLUMNS
    requires Scalars(cols) && |cond| == |cols| / 2 && forall i :: 0 <= i < |cond| ==> cond[i] < 2
    requires forall j :: 0 <= j < maxIdx.Length ==> maxIdx[j] < 2
    modifies maxIdx
    ensures |tops| == |cols| / 2 + |cols| % 2 && Scalars(tops) && Shape(|tops|, Pow2(depth), |origin|)
    ensures forall j :: 0 <= j < maxIdx.Length ==> maxIdx[j] < 2
    ensures Decided(cols, cond) ==> tops == Winners(cols)
    ensures Decided(cols, cond) && old(BlocksOk(origin, maxIdx[..], cols, Pow2(depth - 1))) ==>
              BlocksOk(origin, maxIdx[..], tops, Pow2(depth))
  {
    hide Signed, ArgMax, BlocksOk, RoundOk, Pow2, Shape, Decided, Winner, Upper;
    ghost var was := maxIdx[..];
    ghost var good := Decided(cols, cond) && BlocksOk(origin, was, cols, Pow2(depth - 1));
    var blkSize := ShiftLeft(1, depth);
    SizeBelow(|cols|, Pow2(depth - 1), |origin|);
    HalfBlock(depth);
    tops := [];
    if good {
      RoundStart(origin, was, cols, blkSize / 2);
    }
    for i := 0 to |cols| / 2
      invariant |tops| == i && Scalars(tops) && (good ==> RoundOk(origin, was, maxIdx[..], cols, tops, blkSize / 2))
      invariant Decided(cols, cond) ==> forall k :: 0 <= k < i ==> tops[k] == Winner(cols, k)
      invariant forall j :: 0 <= j < maxIdx.Length ==> maxIdx[j] < 2
    {
      ghost var before := maxIdx[..];
      var c := cond[i];
      var winner := PlayPair(cols, i, c, blkSize, maxIdx);
      tops := tops + [winner];
      if Decided(cols, cond) {
        DecidedAt(cols, cond, i);
      }
      if good {
        RoundStep(origin, was, before, maxIdx[..], cols, tops[..i], blkSize / 2, c);
        assert tops == tops[..i] + [if c == 1 then cols[2 * i] else cols[2 * i + 1]];
      }
    }
    if good {
      RoundDone(origin, was, maxIdx[..], cols, tops, blkSize / 2);
    }
    HalfCount(blkSize / 2, |cols|, |origin|);
    if Decided(cols, cond) {
      AllWinners(cols, tops);
    }
    if |cols| % 2 == 1 {
      tops := tops + [cols[|cols| - 1]];
    }
  }

  lemma AllWinners(cols: seq<nat>, tops: seq<nat>)
    requires |tops| == |cols| / 2 && forall k :: 0 <= k < |tops| ==> tops[k] == Winner(cols, k)
    ensures Winners(cols) == if |cols| % 2 == 1 then tops + [cols[|cols| - 1]] else tops
  {
    hide Signed;
  }

  lemma DecidedAt(cols: seq<nat>, cond: seq<nat>, i: nat)
    requires Decided(cols, cond) && i < |cond|
    ensures cond[i] == (if Signed(cols[2 * i]) >= Signed(cols[2 * i + 1]) then 1 else 0)
    ensures Winner(cols, i) == if cond[i] == 1 then cols[2 * i] else cols[2 * i + 1]
  {
  }

  lemma HalfBlock(depth: nat)
    requires 1 <= depth && Pow2(depth - 1) < MAX_COLUMNS
    ensures ShiftLeft(1, depth) == Pow2(depth) == 2 * Pow2(depth - 1) && ShiftLeft(1, depth) / 2 == Pow2(depth - 1) > 0
  {
  }

  lemma SizeBelow(cols: nat, size: nat, n: nat)
    requires Shape(cols, size, n) && cols > 1
    ensures size < n
  {
    MulMonotone(1, cols - 1, size);
  }

  lemma RoundStart(origin: seq<nat>, was: seq<nat>, cols: seq<nat>, size: nat)
    requires BlocksOk(origin, was, cols, size)
    ensures RoundOk(origin, was, was, cols, [], size)
  {
    hide ArgMax;
    assert BlockOk(origin, was, 0 * size, Upper(0, size, |origin|), cols[0]);
  }

  lemma PairShape(cols: nat, size: nat, n: nat, i: nat)
    requires Shape(cols, size, n) && 2 * i + 1 < cols
    ensures var start := i * (2 * size); start + size < n && size > 0
    ensures var start := i * (2 * size);
      Upper(i, 2 * size, n) == start + size + if start + 2 * size > n then n - start - size else size
  {
    Halves(i, size, cols, n);
  }

  /** The maximum of a row of shares and, from an index row of ones, the one-hot position of the
      leftmost maximum, in ceil(log2) rounds. */
  method HierMaxpoolRowwise(depth: nat, cols: seq<nat>, origin: seq<nat>, maxIdx: array<nat>, masks: seq<Mask>)
    returns (top: nat)
    requires IsPrime(PR) && 1 <= depth && |cols| > 0 && Shape(|cols|, Pow2(depth - 1), |origin|) && maxIdx.Length == |origin| <= MAX_COLUMNS
    requires Scalars(cols) && |masks| + 1 >= |cols| && forall m :: m in masks ==> MaskOk(m)
    requires forall j :: 0 <= j < maxIdx.Length ==> maxIdx[j] < 2
    modifies maxIdx
    ensures Spread(origin) && Shown(cols, masks) && old(BlocksOk(origin, maxIdx[..], cols, Pow2(depth - 1))) ==>
              BlockOk(origin, maxIdx[..], 0, |origin|, top)
    decreases |cols|
  {
    hide Signed, ArgMax, BlocksOk, AddMod, MultMod, SubMod, Pow2, Shape, BlockOk, MaskOk, Spread, Decided, Shows, Msb, IsPrime, Winners;
    ghost var good := Spread(origin) && Shown(cols, masks) && BlocksOk(origin, maxIdx[..], cols, Pow2(depth - 1));
    var ySize := |cols| / 2 + |cols| % 2;
    if |cols| == 1 {
      if good {
        Single(origin, maxIdx[..], cols, Pow2(depth - 1));
      }
      return cols[0];
    }
    var cond := CompareColumns(cols, masks);
    if good {
      forall i | 0 <= i < |cond| ensures cond[i] == 1 - Msb(SubMod(cols[2 * i], cols[2 * i + 1])) {
        assert ShowsPair(cols, i, masks[i]);
      }
      Decide(origin, maxIdx[..], cols, Pow2(depth - 1), cond);
    }
    var maxBundle := Round(depth, cols, origin, maxIdx, cond);
    if ySize == 1 {
      if good {
        Single(origin, maxIdx[..], maxBundle, Pow2(depth));
      }
      return maxBundle[0];
    }
    top := HierMaxpoolRowwise(depth + 1, maxBundle, origin, maxIdx, masks[|cols| / 2..]);
  }

  lemma Single(origin: seq<nat>, idx: seq<nat>, cols: seq<nat>, size: nat)
    requires BlocksOk(origin, idx, cols, size) && |cols| == 1
    ensures BlockOk(origin, idx, 0, |origin|, cols[0])
  {
    hide ArgMax;
    assert BlockOk(origin, idx, 0 * size, Upper(0, size, |origin|), cols[0]);
  }

  /** The call its users make. */
  method MaxpoolRow(row: seq<nat>, maxIdx: array<nat>, masks: seq<Mask>) returns (top: nat)
    requires IsPrime(PR) && 0 < |row| == maxIdx.Length <= MAX_COLUMNS && Spread(row)
    requires |masks| + 1 >= |row| && (forall m :: m in masks ==> MaskOk(m)) && Shown(row, masks)
    requires forall j :: 0 <= j < maxIdx.Length ==> maxIdx[j] == 1
    modifies maxIdx
    ensures exists k :: (
      && 0 <= k < |row| && top == row[k]
      && (forall j :: 0 <= j < |row| ==> Signed(row[j]) <= Signed(top))
      && (forall j :: 0 <= j < k ==> Signed(row[j]) < Signed(top))
      && (forall j :: 0 <= j < |row| ==> maxIdx[j] == if j == k then 1 else 0))
  {
    hide Signed, MaskOk, Shown, IsPrime, BlocksOk;
    FirstBlocks(row, maxIdx[..]);
    top := HierMaxpoolRowwise(1, row, row, maxIdx, masks);
    ghost var k := ArgMax(row, 0, |row|);
    assert forall j :: 0 <= j < |row| ==> maxIdx[..][j] == if j == k then 1 else 0;
  }

  lemma FirstBlocks(row: seq<nat>, idx: seq<nat>)
    requires 0 < |row| == |idx| && forall j :: 0 <= j < |idx| ==> idx[j] == 1
    ensures BlocksOk(row, idx, row, Pow2(0)) && Shape(|row|, Pow2(0), |row|)
  {
    hide Signed;
    forall i | 0 <= i < |row| ensures BlockOk(row, idx, i * 1, Upper(i, 1, |row|), row[i]) {
      assert i * 1 == i && (i + 1) * 1 == i + 1;
    }
  }
}
