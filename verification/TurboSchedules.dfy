/** The communication pattern of TurboPack, stage by stage, and its independence of the schedule. */
module TurboSchedules {
  import opened Circuits
  import opened Sequences
  import opened Wiring
  import opened Masking
  import opened Preprocessing
  import opened PackedSharing
  import opened Dealing
  import opened Schedules
  import opened Triples
  import Parties
  import TurboPack

  // ---------------------------------------------------------------- lists of parties

  function All(n: nat): seq<nat> {
    if n == 0 then [] else All(n - 1) + [n - 1]
  }

  /** Every party twice in turn. */
  function Twice(n: nat): seq<nat> {
    if n == 0 then [] else Twice(n - 1) + [n - 1] + [n - 1]
  }

  /** The parties t, ..., n - 1. */
  function From(t: nat, n: nat): seq<nat> {
    if n <= t then [] else From(t, n - 1) + [n - 1]
  }

  function Times(m: nat, xs: seq<nat>): seq<nat> {
    if m == 0 then [] else Times(m - 1, xs) + xs
  }

  /** Every client as often as it has gates. */
  function Clients(counts: seq<nat>): seq<nat> {
    if counts == [] then [] else Clients(counts[..|counts| - 1]) + Times(counts[|counts| - 1], [|counts| - 1])
  }

  ghost predicate Below(xs: seq<nat>, n: nat) {
    forall q :: 0 <= q < |xs| ==> xs[q] < n
  }

  lemma {:induction false} CountConcat(a: seq<nat>, b: seq<nat>, x: nat)
    ensures Count(a + b, x) == Count(a, x) + Count(b, x)
  {
    if b == [] {
      assert a + b == a;
    } else {
      CountConcat(a, b[..|b| - 1], x);
      assert (a + b)[..|a + b| - 1] == a + b[..|b| - 1];
    }
  }

  lemma CountOne(y: nat, x: nat)
    ensures Count([y], x) == if x == y then 1 else 0
  {
  }

  lemma {:induction false} CountAll(n: nat, x: nat)
    ensures Count(All(n), x) == (if x < n then 1 else 0) && Below(All(n), n)
  {
    if n > 0 {
      CountAll(n - 1, x);
      CountConcat(All(n - 1), [n - 1], x);
      CountOne(n - 1, x);
    }
  }

  lemma {:induction false} CountTwice(n: nat, x: nat)
    ensures Count(Twice(n), x) == (if x < n then 2 else 0) && Below(Twice(n), n)
  {
    hide Count;
    if n > 0 {
      CountTwice(n - 1, x);
      CountConcat(Twice(n - 1), [n - 1], x);
      CountConcat(Twice(n - 1) + [n - 1], [n - 1], x);
      CountOne(n - 1, x);
    } else {
      CountNone(x);
    }
  }

  lemma CountNone(x: nat)
    ensures Count([], x) == 0
  {
  }

  lemma {:induction false} CountFrom(t: nat, n: nat, x: nat)
    ensures Count(From(t, n), x) == (if t <= x < n then 1 else 0) && Below(From(t, n), n)
  {
    if n > t {
      CountFrom(t, n - 1, x);
      CountConcat(From(t, n - 1), [n - 1], x);
      CountOne(n - 1, x);
    }
  }

  lemma {:induction false} CountTimes(m: nat, xs: seq<nat>, x: nat, n: nat)
    ensures Count(Times(m, xs), x) == m * Count(xs, x)
    ensures Below(xs, n) ==> Below(Times(m, xs), n)
  {
    if m > 0 {
      CountTimes(m - 1, xs, x, n);
      CountConcat(Times(m - 1, xs), xs, x);
      assert m * Count(xs, x) == (m - 1) * Count(xs, x) + Count(xs, x);
    }
  }

  lemma {:induction false} CountClients(counts: seq<nat>, x: nat)
    ensures Count(Clients(counts), x) == (if x < |counts| then counts[x] else 0) && Below(Clients(counts), |counts|)
  {
    hide Count, Times;
    if counts != [] {
      var c := |counts| - 1;
      CountClients(counts[..c], x);
      CountTimes(counts[c], [c], x, c + 1);
      CountOne(c, x);
      CountConcat(Clients(counts[..c]), Times(counts[c], [c]), x);
      assert counts[c] * 1 == counts[c] && counts[c] * 0 == 0;
    } else {
      CountNone(x);
    }
  }

  // ---------------------------------------------------------------- stages

  predicate Wide(stages: seq<Stage>, n: nat) {
    forall p :: 0 <= p < |stages| ==> |stages[p].peers| == n
  }

  function Everyone(n: nat, xs: seq<nat>): (r: seq<seq<nat>>)
    ensures |r| == n
  {
    seq(n, _ => xs)
  }

  function OnlyP1(n: nat, xs: seq<nat>): (r: seq<seq<nat>>)
    ensures |r| == n
  {
    seq(n, i => if i == 0 then xs else [])
  }

  function Each(n: nat, counts: seq<nat>): (r: seq<seq<nat>>)
    requires |counts| == n
    ensures |r| == n
  {
    seq(n, i requires 0 <= i < n => Times(counts[i], [0]))
  }

  /** P1 takes from the listed parties and sends to the listed parties, m times. */
  function Relays(n: nat, m: nat, ins: seq<nat>, outs: seq<nat>): (r: seq<Stage>)
    ensures Wide(r, n)
  {
    if m == 0 then [] else Relays(n, m - 1, ins, outs) + [Receiving(OnlyP1(n, ins))] + [Sending(OnlyP1(n, outs))]
  }

  /** Everyone deals m sharings, and everyone receives. */
  function DealingStages(n: nat, m: nat): (r: seq<Stage>)
    ensures Wide(r, n)
  {
    [Sending(Everyone(n, Times(m, All(n))))] + [Receiving(Everyone(n, Times(m, All(n))))]
  }

  /** Products through P1; the first t parties need nothing back. */
  function Products(n: nat, t: nat, m: nat): (r: seq<Stage>)
    ensures Wide(r, n)
  {
    [Sending(Everyone(n, Times(m, [0])))] + Relays(n, m, All(n), From(t, n))
      + [Receiving(seq(n, i => if i >= t then Times(m, [0]) else []))]
  }

  /** Masks of m batches through P1, and masks of the owners' batches. */
  function Preparation(n: nat, m: nat, owners: seq<nat>): (r: seq<Stage>)
    ensures Wide(r, n)
  {
    [Sending(Everyone(n, Times(m, [0] + [0])))] + Relays(n, m, Twice(n), Twice(n))
      + [Sending(Everyone(n, owners))] + [Receiving(Everyone(n, Times(m, [0] + [0])))]
      + [Receiving(seq(n, c requires 0 <= c => Times(Count(owners, c), All(n))))]
  }

  function Inputs(n: nat, counts: seq<nat>): (r: seq<Stage>)
    requires |counts| == n
    ensures Wide(r, n)
  {
    [Sending(Each(n, counts))] + [Receiving(OnlyP1(n, Clients(counts)))]
  }

  /** One layer of b batches. */
  function LayerStages(n: nat, b: nat): (r: seq<Stage>)
    ensures Wide(r, n)
  {
    [Sending(OnlyP1(n, Times(b, Twice(n))))] + [Receiving(Everyone(n, Times(b, [0] + [0])))]
      + [Sending(Everyone(n, Times(b, [0])))] + [Receiving(OnlyP1(n, Times(b, All(n))))]
  }

  function LayersStages(n: nat, bs: seq<nat>): (r: seq<Stage>)
    ensures Wide(r, n)
  {
    if bs == [] then [] else LayersStages(n, bs[..|bs| - 1]) + LayerStages(n, bs[|bs| - 1])
  }

  function Outputs(n: nat, counts: seq<nat>): (r: seq<Stage>)
    requires |counts| == n
    ensures Wide(r, n)
  {
    [Sending(OnlyP1(n, Clients(counts)))] + [Receiving(Each(n, counts))]
  }

  // ---------------------------------------------------------------- closed lists of stages

  /** What a stage adds to the channel from i to j. */
  function Delta(st: Stage, i: nat, j: nat): int
    requires i < |st.peers| && j < |st.peers|
  {
    if st.Sending? then Count(st.peers[i], j) else 0 - Count(st.peers[j], i)
  }

  ghost predicate StageSized(st: Stage, n: nat) {
    |st.peers| == n && forall i :: 0 <= i < n ==> Below(st.peers[i], n)
  }

  /** One more stage. */
  lemma Extend(a: seq<Stage>, st: Stage, n: nat)
    requires Covered(a, n) && StageSized(st, n)
    requires forall i, j :: 0 <= i < n && 0 <= j < n ==> Held(a, i, j) + Delta(st, i, j) >= 0
    ensures Covered(a + [st], n)
    ensures forall i, j :: 0 <= i < n && 0 <= j < n ==> Held(a + [st], i, j) == Held(a, i, j) + Delta(st, i, j)
  {
    hide Count, Held;
    var b := a + [st];
    assert Sized(b, n);
    forall i, j | 0 <= i < n && 0 <= j < n ensures Held(b, i, j) == Held(a, i, j) + Delta(st, i, j) {
      HeldLast(a, st, i, j);
    }
    forall p, i, j | 0 <= p <= |b| && 0 <= i < n && 0 <= j < n ensures Held(b[..p], i, j) >= 0 {
      if p <= |a| {
        assert b[..p] == a[..p];
      } else {
        assert b[..p] == b;
      }
    }
  }

  lemma HeldLast(a: seq<Stage>, st: Stage, i: nat, j: nat)
    requires forall p :: 0 <= p < |a| ==> i < |a[p].peers| && j < |a[p].peers|
    requires i < |st.peers| && j < |st.peers|
    ensures Held(a + [st], i, j) == Held(a, i, j) + Delta(st, i, j)
  {
    assert (a + [st])[..|a|] == a;
  }

  ghost predicate Closed(a: seq<Stage>, n: nat) {
    Covered(a, n) && Settled(a, n)
  }

  lemma {:induction false} HeldConcat(a: seq<Stage>, b: seq<Stage>, i: nat, j: nat)
    requires forall p :: 0 <= p < |a| ==> i < |a[p].peers| && j < |a[p].peers|
    requires forall p :: 0 <= p < |b| ==> i < |b[p].peers| && j < |b[p].peers|
    ensures Held(a + b, i, j) == Held(a, i, j) + Held(b, i, j)
  {
    hide Count;
    if b == [] {
      assert a + b == a;
    } else {
      HeldConcat(a, b[..|b| - 1], i, j);
      assert (a + b)[..|a + b| - 1] == a + b[..|b| - 1];
    }
  }

  lemma ClosedConcat(a: seq<Stage>, b: seq<Stage>, n: nat)
    requires Closed(a, n) && Closed(b, n)
    ensures Closed(a + b, n)
  {
    hide Count, Held;
    var c := a + b;
    forall p, i, j | 0 <= p <= |c| && 0 <= i < n && 0 <= j < n ensures Held(c[..p], i, j) >= 0 {
      if p <= |a| {
        assert c[..p] == a[..p];
      } else {
        assert c[..p] == a + b[..p - |a|];
        HeldConcat(a, b[..p - |a|], i, j);
      }
    }
    forall i, j | 0 <= i < n && 0 <= j < n ensures Held(c, i, j) == 0 {
      HeldConcat(a, b, i, j);
    }
  }

  lemma NothingClosed(n: nat)
    ensures Closed([], n)
  {
  }

  // ---------------------------------------------------------------- every phase is closed

  lemma EveryoneSized(n: nat, xs: seq<nat>)
    requires Below(xs, n)
    ensures StageSized(Sending(Everyone(n, xs)), n) && StageSized(Receiving(Everyone(n, xs)), n)
    ensures StageSized(Sending(OnlyP1(n, xs)), n) && StageSized(Receiving(OnlyP1(n, xs)), n)
  {
  }

  lemma AllTimes(n: nat, m: nat)
    ensures Below(Times(m, All(n)), n) && forall x :: 0 <= x < n ==> Count(Times(m, All(n)), x) == m
  {
    hide Count, Times, All;
    CountAll(n, 0);
    CountTimes(m, All(n), 0, n);
    forall x | 0 <= x < n ensures Count(Times(m, All(n)), x) == m {
      CountAll(n, x);
      CountTimes(m, All(n), x, n);
    }
  }

  lemma TwiceTimes(n: nat, m: nat)
    ensures Below(Times(m, Twice(n)), n) && forall x :: 0 <= x < n ==> Count(Times(m, Twice(n)), x) == 2 * m
  {
    hide Count, Times, Twice;
    CountTwice(n, 0);
    CountTimes(m, Twice(n), 0, n);
    forall x | 0 <= x < n ensures Count(Times(m, Twice(n)), x) == 2 * m {
      CountTwice(n, x);
      CountTimes(m, Twice(n), x, n);
    }
  }

  /** P1, m times. */
  lemma OneTimes(n: nat, m: nat)
    requires n > 0
    ensures Below(Times(m, [0]), n) && forall x: nat :: Count(Times(m, [0]), x) == if x == 0 then m else 0
  {
    hide Count, Times;
    CountTimes(m, [0], 0, n);
    forall x: nat ensures Count(Times(m, [0]), x) == if x == 0 then m else 0 {
      CountOne(0, x);
      CountTimes(m, [0], x, n);
      assert m * 1 == m && m * 0 == 0;
    }
  }

  /** P1, 2m times. */
  lemma TwoTimes(n: nat, m: nat)
    requires n > 0
    ensures Below(Times(m, [0] + [0]), n) && forall x: nat :: Count(Times(m, [0] + [0]), x) == if x == 0 then 2 * m else 0
  {
    hide Count, Times;
    CountTimes(m, [0] + [0], 0, n);
    forall x: nat ensures Count(Times(m, [0] + [0]), x) == if x == 0 then 2 * m else 0 {
      CountOne(0, x);
      CountConcat([0], [0], x);
      CountTimes(m, [0] + [0], x, n);
      assert m * 2 == 2 * m && m * 0 == 0;
    }
  }

  lemma HeldNone(n: nat)
    ensures Covered([], n) && forall i, j :: 0 <= i < n && 0 <= j < n ==> Held([], i, j) == 0
  {
  }

  /** The first stage of a phase. */
  lemma First(st: Stage, n: nat)
    requires StageSized(st, n) && st.Sending?
    ensures Covered([st], n) && forall i, j :: 0 <= i < n && 0 <= j < n ==> Held([st], i, j) == Count(st.peers[i], j)
  {
    hide Count, Held;
    HeldNone(n);
    assert [] + [st] == [st];
    Extend([], st, n);
  }

  lemma DealingClosed(n: nat, m: nat)
    ensures Closed(DealingStages(n, m), n)
  {
    hide Count, Held, Times, All;
    var xs := Times(m, All(n));
    AllTimes(n, m);
    EveryoneSized(n, xs);
    First(Sending(Everyone(n, xs)), n);
    Extend([Sending(Everyone(n, xs))], Receiving(Everyone(n, xs)), n);
  }

  function Scaled(r: nat, x: nat): nat {
    r * x
  }

  lemma ScaledStep(r: nat, x: nat)
    ensures r > 0 ==> Scaled(r, x) == Scaled(r - 1, x) + x
    ensures Scaled(0, x) == 0
  {
    if r > 0 {
      assert r * x == (r - 1) * x + x;
    }
  }

  /** Everyone has sent a messages to P1 for each of m items, and P1 has relayed r items. */
  ghost predicate Relayed(stages: seq<Stage>, n: nat, left: nat, r: nat, a: nat, outs: seq<nat>)
  {
    && Covered(stages, n)
    && forall i, j :: 0 <= i < n && 0 <= j < n ==> (
      Held(stages, i, j) == (if j == 0 then Scaled(left, a) else 0) + if i == 0 then Scaled(r, Count(outs, j)) else 0)
  }

  lemma {:induction false} RelaysCovered(n: nat, m: nat, r: nat, pre: seq<nat>, ins: seq<nat>, outs: seq<nat>, a: nat)
    requires r <= m && Below(pre, n) && Below(ins, n) && Below(outs, n)
    requires forall x :: 0 <= x < n ==> Count(pre, x) == (if x == 0 then Scaled(m, a) else 0) && Count(ins, x) == a
    ensures Relayed([Sending(Everyone(n, pre))] + Relays(n, r, ins, outs), n, m - r, r, a, outs)
  {
    hide Count, Held, Scaled, Relayed;
    var first := [Sending(Everyone(n, pre))];
    if r == 0 {
      assert first + Relays(n, 0, ins, outs) == first;
      RelayFirst(n, m, pre, a, outs);
    } else {
      RelaysCovered(n, m, r - 1, pre, ins, outs, a);
      var s := first + Relays(n, r - 1, ins, outs);
      RelayStep(s, n, m - r, r, a, ins, outs);
      assert first + Relays(n, r, ins, outs) == s + [Receiving(OnlyP1(n, ins))] + [Sending(OnlyP1(n, outs))];
    }
  }

  lemma RelayFirst(n: nat, m: nat, pre: seq<nat>, a: nat, outs: seq<nat>)
    requires Below(pre, n) && forall x :: 0 <= x < n ==> Count(pre, x) == if x == 0 then Scaled(m, a) else 0
    ensures Relayed([Sending(Everyone(n, pre))], n, m, 0, a, outs)
  {
    hide Count, Held, Scaled;
    EveryoneSized(n, pre);
    First(Sending(Everyone(n, pre)), n);
    forall j: nat ensures Scaled(0, Count(outs, j)) == 0 {
      ScaledStep(0, Count(outs, j));
    }
  }

  lemma RelayStep(s: seq<Stage>, n: nat, left: nat, r: nat, a: nat, ins: seq<nat>, outs: seq<nat>)
    requires r > 0 && Relayed(s, n, left + 1, r - 1, a, outs) && Below(ins, n) && Below(outs, n)
    requires forall x :: 0 <= x < n ==> Count(ins, x) == a
    ensures Relayed(s + [Receiving(OnlyP1(n, ins))] + [Sending(OnlyP1(n, outs))], n, left, r, a, outs)
  {
    hide Count, Held, Scaled;
    EveryoneSized(n, ins);
    EveryoneSized(n, outs);
    NoCount();
    ScaledStep(left + 1, a);
    forall j: nat ensures Scaled(r, Count(outs, j)) == Scaled(r - 1, Count(outs, j)) + Count(outs, j) {
      ScaledStep(r, Count(outs, j));
    }
    Extend(s, Receiving(OnlyP1(n, ins)), n);
    Extend(s + [Receiving(OnlyP1(n, ins))], Sending(OnlyP1(n, outs)), n);
  }

  lemma NoCount()
    ensures forall x: nat :: Count([], x) == 0
  {
  }

  lemma ProductsClosed(n: nat, t: nat, m: nat)
    requires n > 0
    ensures Closed(Products(n, t, m), n)
  {
    hide Count, Held, Times, All, From, Relays;
    OneTimes(n, m);
    CountAll(n, 0);
    CountFrom(t, n, 0);
    forall x | 0 <= x < n ensures Count(All(n), x) == 1 && Count(From(t, n), x) == if t <= x then 1 else 0 {
      CountAll(n, x);
      CountFrom(t, n, x);
    }
    RelaysCovered(n, m, m, Times(m, [0]), All(n), From(t, n), 1);
    NoCount();
    var last := Receiving(seq(n, i => if i >= t then Times(m, [0]) else []));
    Extend([Sending(Everyone(n, Times(m, [0])))] + Relays(n, m, All(n), From(t, n)), last, n);
  }

  lemma PreparationClosed(n: nat, m: nat, owners: seq<nat>)
    requires n > 0 && Below(owners, n)
    ensures Closed(Preparation(n, m, owners), n)
  {
    hide Count, Held, Times, All, Twice, Relays;
    TwoTimes(n, m);
    CountTwice(n, 0);
    forall x | 0 <= x < n ensures Count(Twice(n), x) == 2 {
      CountTwice(n, x);
    }
    RelaysCovered(n, m, m, Times(m, [0] + [0]), Twice(n), Twice(n), 2);
    NoCount();
    var s := [Sending(Everyone(n, Times(m, [0] + [0])))] + Relays(n, m, Twice(n), Twice(n));
    var give, take := Sending(Everyone(n, owners)), Receiving(Everyone(n, Times(m, [0] + [0])));
    var last := Receiving(seq(n, c requires 0 <= c => Times(Count(owners, c), All(n))));
    forall c | 0 <= c < n
      ensures Below(last.peers[c], n) && forall x :: 0 <= x < n ==> Count(last.peers[c], x) == Count(owners, c)
    {
      AllTimes(n, Count(owners, c));
    }
    EveryoneSized(n, owners);
    EveryoneSized(n, Times(m, [0] + [0]));
    Extend(s, give, n);
    Extend(s + [give], take, n);
    Extend(s + [give] + [take], last, n);
    assert Preparation(n, m, owners) == s + [give] + [take] + [last];
  }

  lemma EachSized(n: nat, counts: seq<nat>)
    requires n > 0 && |counts| == n
    ensures StageSized(Sending(Each(n, counts)), n) && StageSized(Receiving(Each(n, counts)), n)
    ensures forall i, x :: 0 <= i < n && 0 <= x < n ==> Count(Each(n, counts)[i], x) == if x == 0 then counts[i] else 0
    ensures Below(Clients(counts), n) && forall x :: 0 <= x < n ==> Count(Clients(counts), x) == counts[x]
  {
    hide Count, Times, Clients;
    forall i | 0 <= i < n
      ensures Below(Times(counts[i], [0]), n) && forall x: nat :: Count(Times(counts[i], [0]), x) == if x == 0 then counts[i] else 0
    {
      OneTimes(n, counts[i]);
    }
    CountClients(counts, 0);
    forall x | 0 <= x < n ensures Count(Clients(counts), x) == counts[x] {
      CountClients(counts, x);
    }
  }

  lemma InputsClosed(n: nat, counts: seq<nat>)
    requires n > 0 && |counts| == n
    ensures Closed(Inputs(n, counts), n) && Closed(Outputs(n, counts), n)
  {
    hide Count, Held, Times, Clients;
    EachSized(n, counts);
    EveryoneSized(n, Clients(counts));
    NoCount();
    First(Sending(Each(n, counts)), n);
    Extend([Sending(Each(n, counts))], Receiving(OnlyP1(n, Clients(counts))), n);
    First(Sending(OnlyP1(n, Clients(counts))), n);
    Extend([Sending(OnlyP1(n, Clients(counts)))], Receiving(Each(n, counts)), n);
  }

  lemma LayerClosed(n: nat, b: nat)
    requires n > 0
    ensures Closed(LayerStages(n, b), n)
  {
    hide Count, Held, Times, All, Twice;
    TwiceTimes(n, b);
    TwoTimes(n, b);
    OneTimes(n, b);
    AllTimes(n, b);
    NoCount();
    EveryoneSized(n, Times(b, Twice(n)));
    EveryoneSized(n, Times(b, [0] + [0]));
    EveryoneSized(n, Times(b, [0]));
    EveryoneSized(n, Times(b, All(n)));
    var s1, s2 := Sending(OnlyP1(n, Times(b, Twice(n)))), Receiving(Everyone(n, Times(b, [0] + [0])));
    var s3, s4 := Sending(Everyone(n, Times(b, [0]))), Receiving(OnlyP1(n, Times(b, All(n))));
    First(s1, n);
    Extend([s1], s2, n);
    Extend([s1] + [s2], s3, n);
    Extend([s1] + [s2] + [s3], s4, n);
  }

  lemma {:induction false} LayersClosed(n: nat, bs: seq<nat>)
    requires n > 0
    ensures Closed(LayersStages(n, bs), n)
  {
    hide Closed, LayerStages;
    if bs == [] {
      NothingClosed(n);
    } else {
      LayersClosed(n, bs[..|bs| - 1]);
      LayerClosed(n, bs[|bs| - 1]);
      ClosedConcat(LayersStages(n, bs[..|bs| - 1]), LayerStages(n, bs[|bs| - 1]), n);
    }
  }

  // ---------------------------------------------------------------- the protocol

  /** How many sharings a party deals. */
  function Dealt(lay: Layout, t: nat): nat
    requires lay.batchSize > 0
  {
    var k, m := lay.batchSize, |Mults(lay)|;
    Blocks(|Fresh(lay)|, t) + k * Blocks(3 * m, t) + Blocks(3 * m + |IOs(lay)|, t) + k * Blocks(m, t)
  }

  function Owners(lay: Layout): (r: seq<nat>)
    requires lay.batchSize > 0
    ensures |r| == |IOs(lay)|
  {
    OwnersOf(IOs(lay))
  }

  function OwnersOf(batches: seq<IOBatch>): (r: seq<nat>)
    ensures |r| == |batches|
  {
    seq(|batches|, b requires 0 <= b < |batches| => batches[b].owner)
  }

  function GateCounts(lay: Layout, input: bool): (r: seq<nat>)
    ensures |r| == lay.clients
  {
    seq(lay.clients, c requires 0 <= c => |Ids(lay.gates, if input then InputOf(c) else OutputOf(c))|)
  }

  function BatchCounts(lay: Layout): seq<nat>
    requires lay.batchSize > 0
  {
    seq(|lay.mults|, d requires 0 <= d < |lay.mults| => |Layer(lay, d)|)
  }

  /** Everything every party sends and receives in a run for a circuit, in program order. */
  function TurboStages(lay: Layout, t: nat): (r: seq<Stage>)
    requires lay.batchSize > 0
    ensures Wide(r, lay.clients)
  {
    var n, m := lay.clients, |Mults(lay)|;
    DealingStages(n, Dealt(lay, t)) + Products(n, t, lay.batchSize * m) + Preparation(n, m, Owners(lay))
      + Inputs(n, GateCounts(lay, true)) + LayersStages(n, BatchCounts(lay)) + Outputs(n, GateCounts(lay, false))
  }

  lemma TurboClosed(lay: Layout, t: nat)
    requires WellFormed(lay) && lay.clients > 0
    ensures Closed(TurboStages(lay, t), lay.clients)
  {
    hide Closed, DealingStages, Products, Preparation, Inputs, LayersStages, Outputs, Dealt, Owners, GateCounts, BatchCounts, Mults, Ids, Blocks, IOs;
    var n, m := lay.clients, |Mults(lay)|;
    OwnersBelow(lay);
    DealingClosed(n, Dealt(lay, t));
    ProductsClosed(n, t, lay.batchSize * m);
    PreparationClosed(n, m, Owners(lay));
    InputsClosed(n, GateCounts(lay, true));
    InputsClosed(n, GateCounts(lay, false));
    LayersClosed(n, BatchCounts(lay));
    var a := DealingStages(n, Dealt(lay, t)) + Products(n, t, lay.batchSize * m);
    ClosedConcat(DealingStages(n, Dealt(lay, t)), Products(n, t, lay.batchSize * m), n);
    ClosedConcat(a, Preparation(n, m, Owners(lay)), n);
    var b := a + Preparation(n, m, Owners(lay));
    ClosedConcat(b, Inputs(n, GateCounts(lay, true)), n);
    ClosedConcat(b + Inputs(n, GateCounts(lay, true)), LayersStages(n, BatchCounts(lay)), n);
    ClosedConcat(b + Inputs(n, GateCounts(lay, true)) + LayersStages(n, BatchCounts(lay)), Outputs(n, GateCounts(lay, false)), n);
  }

  lemma OwnersBelow(lay: Layout)
    requires WellFormed(lay)
    ensures Below(Owners(lay), lay.clients)
  {
    hide WellFormed;
    SizeOk(lay);
    forall b | 0 <= b < |IOs(lay)| ensures IOs(lay)[b].owner < lay.clients {
      IOBatchOk(lay, b);
    }
  }

  /** For every circuit, whatever the parties compute from what they have received: every run of
      the protocol can go on until all parties are done, all complete runs have the same length and
      end in the same state, and then every channel is empty, each receipt having taken what the
      matching send put in. */
  lemma AnySchedule(lay: Layout, t: nat, f: Values, one: seq<nat>, two: seq<nat>)
    requires WellFormed(lay) && lay.clients > 0
    requires CanRun(ProgramsOf(TurboStages(lay, t), lay.clients), f, Start(lay.clients), one)
    requires CanRun(ProgramsOf(TurboStages(lay, t), lay.clients), f, Start(lay.clients), two)
    ensures var prog := ProgramsOf(TurboStages(lay, t), lay.clients);
      var c, d := Run(prog, f, Start(lay.clients), one), Run(prog, f, Start(lay.clients), two);
      && (!Done(prog, c) ==> exists k :: Enabled(prog, c, k))
      && (Done(prog, c) && Done(prog, d) ==> c == d && |one| == |two|)
      && (Done(prog, c) ==> |two| <= |one|)
      && (Done(prog, c) ==> forall i: nat, j: nat :: i < lay.clients && j < lay.clients ==> At(c, i, j).taken == |At(c, i, j).sent|)
  {
    hide TurboStages, Run, CanRun, Enabled, Done, At, ProgramsOf;
    TurboClosed(lay, t);
    ScheduleIndependence(TurboStages(lay, t), lay.clients, f, one, two);
  }

  /** And the lockstep order of the parties' phases, or any other, does run to the end. */
  lemma SomeSchedule(lay: Layout, t: nat, f: Values) returns (full: seq<nat>)
    requires WellFormed(lay) && lay.clients > 0
    ensures var prog := ProgramsOf(TurboStages(lay, t), lay.clients);
      CanRun(prog, f, Start(lay.clients), full) && Done(prog, Run(prog, f, Start(lay.clients), full))
  {
    hide TurboStages, Run, CanRun, Enabled, Held, Program, ChannelOk;
    TurboClosed(lay, t);
    var n, prog := lay.clients, ProgramsOf(TurboStages(lay, t), lay.clients);
    StartConsistent(prog);
    full := Complete(TurboStages(lay, t), n, f, Start(n));
    RunConsistent(prog, f, Start(n), full);
    StuckIsDone(TurboStages(lay, t), n, Run(prog, f, Start(n), full));
  }

  // ---------------------------------------------------------------- the same messages

  lemma {:induction false} FlattenLength<T>(rows: seq<seq<T>>, m: nat)
    requires forall j :: 0 <= j < |rows| ==> |rows[j]| == m
    ensures |Flatten(rows)| == |rows| * m
  {
    if rows != [] {
      FlattenLength(rows[1..], m);
      assert |rows| * m == m + |rows[1..]| * m;
    }
  }

  lemma {:induction false} MineLength(batches: seq<IOBatch>, cs: seq<Coeffs>, c: nat)
    requires |batches| == |cs|
    ensures |Mine(batches, cs, c)| == Count(OwnersOf(batches), c)
  {
    if batches != [] {
      var last := |batches| - 1;
      MineLength(batches[..last], cs[..last], c);
      assert batches == batches[..last] + [batches[last]] && cs == cs[..last] + [cs[last]];
      MineAppend(batches[..last], cs[..last], batches[last], cs[last], c);
      assert OwnersOf(batches)[..last] == OwnersOf(batches[..last]);
    }
  }

  /** The pattern has as many messages on every channel as the parties of the protocol exchange:
      when dealing, */
  lemma DealtAgrees(lay: Layout, t: nat, d: Draws)
    requires WellFormed(lay) && Sizes(lay.clients, lay.batchSize, t)
    requires var m := TurboPack.AmountsOf(lay, t); Drawn(m.n, m.k, m.t, m.inds, m.mults, m.ios, d)
    ensures |TurboPack.Outbox(TurboPack.AmountsOf(lay, t), d)| == Dealt(lay, t)
  {
    hide WellFormed, Mults, IOs, Fresh, Blocks, RestLengths, UnpackedDeals, ZeroProdDeals, Flatten;
    SizeOk(lay);
    var m := TurboPack.AmountsOf(lay, t);
    FlattenLength(UnpackedRows(t, d.unpacked), Blocks(3 * m.mults, t));
    FlattenLength(ZeroProdRows(m.n, d.zeroProd), Blocks(m.mults, t));
  }

  /** for the products, */
  lemma ProductsAgree(lay: Layout, t: nat, draws: seq<Draws>)
    requires WellFormed(lay) && AllDrawn(TurboPack.AmountsOf(lay, t), draws)
    ensures var m := TurboPack.AmountsOf(lay, t);
      |Flatten(Prods(m, draws))| == |Flatten(Backs(m, draws))| == lay.batchSize * |Mults(lay)|
  {
    hide WellFormed, Mults, IOs, Fresh, Flatten, ProdRow, Fa, Fb, Fm, FzRow, AllDrawn;
    SizeOk(lay);
    var m := TurboPack.AmountsOf(lay, t);
    FlattenLength(Prods(m, draws), m.mults);
    FlattenLength(Backs(m, draws), m.mults);
  }

  /** for the masks of batches, */
  lemma PreparationAgrees(lay: Layout, fi: FIPolys, i: nat)
    requires Enough(lay, fi)
    ensures |MaskList(lay, fi)| == |ReshareList(lay, fi)| == 2 * |Mults(lay)|
    ensures |Mine(IOs(lay), IOList(lay, fi), i)| == Count(Owners(lay), i)
  {
    hide WellFormed, Mults, IOs, Fresh, MaskList, ReshareList, IOList, Mine;
    SizeOk(lay);
    MineLength(IOs(lay), IOList(lay, fi), i);
  }

  /** and online. */
  lemma OnlineAgrees(lay: Layout, fi: FIPolys, inputs: seq<seq<int>>, i: nat, d: nat)
    requires Setting(lay, fi, inputs) && i < lay.clients && d < |lay.mults|
    ensures |Parties.MaskedOf(lay, fi, inputs, Ids(lay.gates, InputOf(i)))| == GateCounts(lay, true)[i]
    ensures |MuList(lay, fi, inputs, d)| == 2 * BatchCounts(lay)[d] && |ProductList(lay, fi, inputs, d)| == BatchCounts(lay)[d]
    ensures |Parties.MaskedOf(lay, fi, inputs, Ids(lay.gates, OutputOf(i)))| == GateCounts(lay, false)[i]
  {
    hide WellFormed, Mults, IOs, Fresh, Ids, Layer, MuList, ProductList, Matches;
  }
}
