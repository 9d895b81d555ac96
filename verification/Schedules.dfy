/** Parties that run at their own pace over first-in first-out channels: no run gets stuck, and
    every complete run ends in the same state. */
module Schedules {

  datatype Op = Send(to: nat) | Recv(from: nat)

  /** A channel: everything sent on it, in order, and how much of that has been taken. */
  datatype Channel = Channel(sent: seq<int>, taken: nat)

  /** Where every party stands in its program, what it has received, and the channels. */
  datatype Config = Config(pc: seq<nat>, got: seq<seq<int>>, chan: map<(nat, nat), Channel>)

  /** The value that party i sends at a step may be any function of what it has received. */
  type Values = (nat, nat, seq<int>) -> int

  type Programs = seq<seq<Op>>

  predicate Shaped(prog: Programs, c: Config) {
    |c.pc| == |c.got| == |prog| && forall i :: 0 <= i < |prog| ==> c.pc[i] <= |prog[i]|
  }

  function At(c: Config, i: nat, j: nat): Channel {
    if (i, j) in c.chan then c.chan[(i, j)] else Channel([], 0)
  }

  /** A party can move unless it is done or waits for a channel with nothing in it. */
  predicate Enabled(prog: Programs, c: Config, i: nat)
    requires Shaped(prog, c)
  {
    && i < |prog| && c.pc[i] < |prog[i]|
    && match prog[i][c.pc[i]]
       case Send(_) => true
       case Recv(j) => At(c, j, i).taken < |At(c, j, i).sent|
  }

  /** One step of party i. */
  function Step(prog: Programs, f: Values, c: Config, i: nat): (d: Config)
    requires Shaped(prog, c) && Enabled(prog, c, i)
    ensures Shaped(prog, d)
  {
    match prog[i][c.pc[i]]
    case Send(j) =>
      var ch := At(c, i, j);
      Config(c.pc[i := c.pc[i] + 1], c.got, c.chan[(i, j) := ch.(sent := ch.sent + [f(i, c.pc[i], c.got[i])])])
    case Recv(j) =>
      var ch := At(c, j, i);
      Config(c.pc[i := c.pc[i] + 1], c.got[i := c.got[i] + [ch.sent[ch.taken]]], c.chan[(j, i) := ch.(taken := ch.taken + 1)])
  }

  function Start(n: nat): Config {
    Config(seq(n, _ => 0), seq(n, _ => []), map[])
  }

  // ---------------------------------------------------------------- runs

  /** The parties of a schedule can make their steps in this order. */
  predicate CanRun(prog: Programs, f: Values, c: Config, sched: seq<nat>)
    requires Shaped(prog, c)
    decreases |sched|
  {
    sched == [] || (Enabled(prog, c, sched[0]) && CanRun(prog, f, Step(prog, f, c, sched[0]), sched[1..]))
  }

  function Run(prog: Programs, f: Values, c: Config, sched: seq<nat>): (d: Config)
    requires Shaped(prog, c) && CanRun(prog, f, c, sched)
    ensures Shaped(prog, d)
    decreases |sched|
  {
    if sched == [] then c else Run(prog, f, Step(prog, f, c, sched[0]), sched[1..])
  }

  /** No party can move. */
  ghost predicate Stuck(prog: Programs, c: Config)
    requires Shaped(prog, c)
  {
    forall i: nat :: !Enabled(prog, c, i)
  }

  lemma StillEnabled(prog: Programs, f: Values, c: Config, i: nat, j: nat)
    requires Shaped(prog, c) && Enabled(prog, c, i) && Enabled(prog, c, j) && i != j
    ensures Enabled(prog, Step(prog, f, c, i), j)
  {
    var d := Step(prog, f, c, i);
    assert d.pc[j] == c.pc[j];
  }

  /** Steps of different parties commute. */
  lemma Diamond(prog: Programs, f: Values, c: Config, i: nat, j: nat)
    requires Shaped(prog, c) && Enabled(prog, c, i) && Enabled(prog, c, j) && i != j
    ensures Enabled(prog, Step(prog, f, c, i), j) && Enabled(prog, Step(prog, f, c, j), i)
    ensures Step(prog, f, Step(prog, f, c, i), j) == Step(prog, f, Step(prog, f, c, j), i)
  {
    StillEnabled(prog, f, c, i, j);
    StillEnabled(prog, f, c, j, i);
    var d, e := Step(prog, f, Step(prog, f, c, i), j), Step(prog, f, Step(prog, f, c, j), i);
    assert d.pc == e.pc;
    assert d.got == e.got;
    assert d.chan == e.chan;
  }

  /** If a complete run exists, an enabled party moves in it, and its first move can come first. */
  lemma {:induction false} MoveFirst(prog: Programs, f: Values, c: Config, sched: seq<nat>, j: nat) returns (rest: seq<nat>)
    requires Shaped(prog, c) && CanRun(prog, f, c, sched) && Stuck(prog, Run(prog, f, c, sched)) && Enabled(prog, c, j)
    ensures |rest| + 1 == |sched|
    ensures CanRun(prog, f, Step(prog, f, c, j), rest) && Run(prog, f, Step(prog, f, c, j), rest) == Run(prog, f, c, sched)
    decreases |sched|
  {
    hide Step, Enabled;
    if sched == [] {
      assert false;
      rest := [];
    } else if sched[0] == j {
      rest := sched[1..];
    } else {
      var i := sched[0];
      Diamond(prog, f, c, i, j);
      var later := MoveFirst(prog, f, Step(prog, f, c, i), sched[1..], j);
      rest := [i] + later;
      assert rest[0] == i && rest[1..] == later;
    }
  }

  /** Every run is a part of a complete run that ends where the given one ends. */
  lemma {:induction false} Confluence(prog: Programs, f: Values, c: Config, full: seq<nat>, sched: seq<nat>) returns (rest: seq<nat>)
    requires Shaped(prog, c) && CanRun(prog, f, c, full) && Stuck(prog, Run(prog, f, c, full)) && CanRun(prog, f, c, sched)
    ensures |sched| + |rest| == |full|
    ensures CanRun(prog, f, Run(prog, f, c, sched), rest)
    ensures Run(prog, f, Run(prog, f, c, sched), rest) == Run(prog, f, c, full)
    decreases |sched|
  {
    hide Step, Enabled, Stuck;
    if sched == [] {
      rest := full;
    } else {
      var later := MoveFirst(prog, f, c, full, sched[0]);
      rest := Confluence(prog, f, Step(prog, f, c, sched[0]), later, sched[1..]);
    }
  }

  // ---------------------------------------------------------------- programs in stages

  /** In a stage every party only sends, or only receives; peers[i] lists the other ends, in order. */
  datatype Stage = Sending(peers: seq<seq<nat>>) | Receiving(peers: seq<seq<nat>>)

  function Ops(st: Stage, i: nat): (r: seq<Op>)
    requires i < |st.peers|
    ensures |r| == |st.peers[i]|
  {
    seq(|st.peers[i]|, q requires 0 <= q < |st.peers[i]| => if st.Sending? then Send(st.peers[i][q]) else Recv(st.peers[i][q]))
  }

  ghost predicate Sized(stages: seq<Stage>, n: nat) {
    forall p :: 0 <= p < |stages| ==> |stages[p].peers| == n && forall i, q :: 0 <= i < n && 0 <= q < |stages[p].peers[i]| ==> stages[p].peers[i][q] < n
  }

  /** The program of party i. */
  function Program(stages: seq<Stage>, i: nat): (r: seq<Op>)
    requires forall p :: 0 <= p < |stages| ==> i < |stages[p].peers|
  {
    if stages == [] then [] else Program(stages[..|stages| - 1], i) + Ops(stages[|stages| - 1], i)
  }

  function ProgramsOf(stages: seq<Stage>, n: nat): (r: Programs)
    requires forall p :: 0 <= p < |stages| ==> |stages[p].peers| == n
    ensures |r| == n
  {
    seq(n, i requires 0 <= i < n => Program(stages, i))
  }

  function Count(s: seq<nat>, x: nat): nat {
    if s == [] then 0 else Count(s[..|s| - 1], x) + if s[|s| - 1] == x then 1 else 0
  }

  /** How many of the operations send to j. */
  function Sends(ops: seq<Op>, j: nat): nat {
    if ops == [] then 0 else Sends(ops[..|ops| - 1], j) + if ops[|ops| - 1] == Send(j) then 1 else 0
  }

  function Recvs(ops: seq<Op>, j: nat): nat {
    if ops == [] then 0 else Recvs(ops[..|ops| - 1], j) + if ops[|ops| - 1] == Recv(j) then 1 else 0
  }

  /** What the channel from i to j holds after the stages: everything sent less everything taken. */
  function Held(stages: seq<Stage>, i: nat, j: nat): int
    requires forall p :: 0 <= p < |stages| ==> i < |stages[p].peers| && j < |stages[p].peers|
  {
    if stages == [] then 0 else
      var last := stages[|stages| - 1];
      Held(stages[..|stages| - 1], i, j) + if last.Sending? then Count(last.peers[i], j) else 0 - Count(last.peers[j], i)
  }

  /** After no stage has more been taken from a channel than was sent on it. */
  ghost predicate Covered(stages: seq<Stage>, n: nat) {
    Sized(stages, n) && forall p, i, j :: 0 <= p <= |stages| && 0 <= i < n && 0 <= j < n ==> Held(stages[..p], i, j) >= 0
  }

  /** In the end everything has been taken. */
  ghost predicate Settled(stages: seq<Stage>, n: nat) {
    Sized(stages, n) && forall i, j :: 0 <= i < n && 0 <= j < n ==> Held(stages, i, j) == 0
  }

  lemma {:induction false} SendsConcat(a: seq<Op>, b: seq<Op>, j: nat)
    ensures Sends(a + b, j) == Sends(a, j) + Sends(b, j)
    ensures Recvs(a + b, j) == Recvs(a, j) + Recvs(b, j)
  {
    if b == [] {
      assert a + b == a;
    } else {
      SendsConcat(a, b[..|b| - 1], j);
      assert (a + b)[..|a + b| - 1] == a + b[..|b| - 1];
    }
  }

  lemma {:induction false} OpsCount(st: Stage, i: nat, j: nat, m: nat)
    requires i < |st.peers| && m <= |st.peers[i]|
    ensures Sends(Ops(st, i)[..m], j) == if st.Sending? then Count(st.peers[i][..m], j) else 0
    ensures Recvs(Ops(st, i)[..m], j) == if st.Sending? then 0 else Count(st.peers[i][..m], j)
  {
    if m > 0 {
      OpsCount(st, i, j, m - 1);
      assert Ops(st, i)[..m][..m - 1] == Ops(st, i)[..m - 1];
      assert st.peers[i][..m][..m - 1] == st.peers[i][..m - 1];
    }
  }

  /** Sends of i to j less receipts of j from i, over whole programs. */
  lemma {:induction false} HeldIs(stages: seq<Stage>, i: nat, j: nat)
    requires forall p :: 0 <= p < |stages| ==> i < |stages[p].peers| && j < |stages[p].peers|
    ensures Held(stages, i, j) == Sends(Program(stages, i), j) - Recvs(Program(stages, j), i)
  {
    if stages != [] {
      var front, last := stages[..|stages| - 1], stages[|stages| - 1];
      HeldIs(front, i, j);
      SendsConcat(Program(front, i), Ops(last, i), j);
      SendsConcat(Program(front, j), Ops(last, j), i);
      OpsCount(last, i, j, |last.peers[i]|);
      OpsCount(last, j, i, |last.peers[j]|);
      assert Ops(last, i)[..|last.peers[i]|] == Ops(last, i) && Ops(last, j)[..|last.peers[j]|] == Ops(last, j);
      assert last.peers[i][..|last.peers[i]|] == last.peers[i] && last.peers[j][..|last.peers[j]|] == last.peers[j];
    }
  }

  // ---------------------------------------------------------------- no run gets stuck

  /** The channels hold what the programs have sent and taken so far. */
  ghost predicate Consistent(prog: Programs, c: Config) {
    Shaped(prog, c) && forall i, j :: 0 <= i < |prog| && 0 <= j < |prog| ==> ChannelOk(prog, c, i, j)
  }

  ghost predicate ChannelOk(prog: Programs, c: Config, i: nat, j: nat)
    requires Shaped(prog, c) && i < |prog| && j < |prog|
  {
    |At(c, i, j).sent| == Sends(prog[i][..c.pc[i]], j) && At(c, i, j).taken == Recvs(prog[j][..c.pc[j]], i)
  }

  lemma StartConsistent(prog: Programs)
    ensures Consistent(prog, Start(|prog|))
  {
  }

  lemma OneMore(ops: seq<Op>, q: nat, j: nat)
    requires q < |ops|
    ensures Sends(ops[..q + 1], j) == Sends(ops[..q], j) + if ops[q] == Send(j) then 1 else 0
    ensures Recvs(ops[..q + 1], j) == Recvs(ops[..q], j) + if ops[q] == Recv(j) then 1 else 0
  {
    assert ops[..q + 1][..q] == ops[..q];
  }

  lemma StepConsistent(prog: Programs, f: Values, c: Config, i: nat)
    requires Consistent(prog, c) && Enabled(prog, c, i)
    ensures Consistent(prog, Step(prog, f, c, i))
  {
    hide Sends, Recvs;
    var d := Step(prog, f, c, i);
    forall a, b | 0 <= a < |prog| && 0 <= b < |prog| ensures ChannelOk(prog, d, a, b) {
      assert ChannelOk(prog, c, a, b);
      OneMore(prog[i], c.pc[i], a);
      OneMore(prog[i], c.pc[i], b);
    }
  }

  lemma {:induction false} RunConsistent(prog: Programs, f: Values, c: Config, sched: seq<nat>)
    requires Consistent(prog, c) && CanRun(prog, f, c, sched)
    ensures Consistent(prog, Run(prog, f, c, sched))
    decreases |sched|
  {
    hide Step, Enabled, ChannelOk;
    if sched != [] {
      StepConsistent(prog, f, c, sched[0]);
      RunConsistent(prog, f, Step(prog, f, c, sched[0]), sched[1..]);
    }
  }

  lemma {:induction false} SendsGrow(ops: seq<Op>, p: nat, q: nat, j: nat)
    requires p <= q <= |ops|
    ensures Sends(ops[..p], j) <= Sends(ops[..q], j) && Recvs(ops[..p], j) <= Recvs(ops[..q], j)
  {
    if p < q {
      SendsGrow(ops, p, q - 1, j);
      OneMore(ops, q - 1, j);
    }
  }

  lemma {:induction false} CountGrows(s: seq<nat>, p: nat, q: nat, x: nat)
    requires p <= q <= |s|
    ensures Count(s[..p], x) <= Count(s[..q], x)
    ensures p < q && s[p] == x ==> Count(s[..p], x) < Count(s[..q], x)
  {
    if p < q {
      CountGrows(s, p, q - 1, x);
      assert s[..q][..q - 1] == s[..q - 1];
    }
  }

  /** The stages so far are the beginning of the program. */
  lemma {:induction false} ProgramPrefix(stages: seq<Stage>, p: nat, i: nat)
    requires p <= |stages| && forall q :: 0 <= q < |stages| ==> i < |stages[q].peers|
    ensures |Program(stages[..p], i)| <= |Program(stages, i)|
    ensures Program(stages, i)[..|Program(stages[..p], i)|] == Program(stages[..p], i)
  {
    if p < |stages| {
      var front := stages[..|stages| - 1];
      ProgramPrefix(front, p, i);
      assert front[..p] == stages[..p];
    } else {
      assert stages[..p] == stages;
    }
  }

  /** One stage after the stages before it. */
  lemma ProgramStage(stages: seq<Stage>, p: nat, i: nat)
    requires p < |stages| && forall q :: 0 <= q < |stages| ==> i < |stages[q].peers|
    ensures Program(stages[..p + 1], i) == Program(stages[..p], i) + Ops(stages[p], i)
  {
    assert stages[..p + 1][..p] == stages[..p];
  }

  lemma HeldStage(stages: seq<Stage>, p: nat, i: nat, j: nat)
    requires p < |stages| && forall q :: 0 <= q < |stages| ==> i < |stages[q].peers| && j < |stages[q].peers|
    ensures Held(stages[..p + 1], i, j) == Held(stages[..p], i, j)
      + if stages[p].Sending? then Count(stages[p].peers[i], j) else 0 - Count(stages[p].peers[j], i)
  {
    assert stages[..p + 1][..p] == stages[..p];
  }

  /** A party that is in stage p while no party is before that stage can move. */
  lemma StageMoves(stages: seq<Stage>, n: nat, c: Config, p: nat, i: nat)
    requires Covered(stages, n) && Consistent(ProgramsOf(stages, n), c) && p < |stages| && i < n
    requires forall j :: 0 <= j < n ==> c.pc[j] >= |Program(stages[..p], j)|
    requires c.pc[i] < |Program(stages[..p + 1], i)|
    ensures Enabled(ProgramsOf(stages, n), c, i)
  {
    hide Program, Held, Ops, Sends, Recvs, Count;
    var prog := ProgramsOf(stages, n);
    ProgramPrefix(stages, p + 1, i);
    ProgramPrefix(stages, p, i);
    ProgramStage(stages, p, i);
    var base := |Program(stages[..p], i)|;
    var q := c.pc[i] - base;
    assert prog[i][c.pc[i]] == prog[i][..|Program(stages[..p + 1], i)|][c.pc[i]] == Ops(stages[p], i)[q];
    if stages[p].Receiving? {
      var j := stages[p].peers[i][q];
      OpAt(stages[p], i, q);
      assert ChannelOk(prog, c, j, i);
      ReceiptCovered(stages, n, p, i, j, q);
      ProgramPrefix(stages, p, j);
      SendsGrow(prog[j], |Program(stages[..p], j)|, c.pc[j], i);
      assert prog[i][..c.pc[i]] == prog[i][..|Program(stages[..p + 1], i)|][..c.pc[i]] == Program(stages[..p], i) + Ops(stages[p], i)[..q];
    } else {
      OpAt(stages[p], i, q);
    }
  }

  lemma OpAt(st: Stage, i: nat, q: nat)
    requires i < |st.peers| && q < |st.peers[i]|
    ensures Ops(st, i)[q] == if st.Sending? then Send(st.peers[i][q]) else Recv(st.peers[i][q])
  {
  }

  /** Fewer receipts than sends when the q-th receipt of a stage is due. */
  lemma ReceiptCovered(stages: seq<Stage>, n: nat, p: nat, i: nat, j: nat, q: nat)
    requires Covered(stages, n) && p < |stages| && i < n && stages[p].Receiving?
    requires q < |stages[p].peers[i]| && stages[p].peers[i][q] == j
    ensures j < n
    ensures Recvs(Program(stages[..p], i) + Ops(stages[p], i)[..q], j) < Sends(Program(stages[..p], j), i)
  {
    hide Program, Held, Ops, Sends, Recvs, Count;
    var peers := stages[p].peers[i];
    SendsConcat(Program(stages[..p], i), Ops(stages[p], i)[..q], j);
    OpsCount(stages[p], i, j, q);
    CountGrows(peers, q, |peers|, j);
    assert peers[..|peers|] == peers;
    HeldIs(stages[..p], j, i);
    HeldStage(stages, p, j, i);
    assert Held(stages[..p + 1], j, i) >= 0;
  }

  /** As long as some party is not done with the first p stages, some party can move. */
  lemma {:induction false} SomeMoves(stages: seq<Stage>, n: nat, c: Config, p: nat, i: nat) returns (k: nat)
    requires Covered(stages, n) && Consistent(ProgramsOf(stages, n), c) && p <= |stages| && i < n
    requires c.pc[i] < |Program(stages[..p], i)|
    ensures Enabled(ProgramsOf(stages, n), c, k)
  {
    hide Program, Held, ChannelOk, Enabled;
    k := i;
    EmptyProgram(stages, i);
    if p == 0 {
      assert false;
    } else if j: nat :| j < n && c.pc[j] < |Program(stages[..p - 1], j)| {
      k := SomeMoves(stages, n, c, p - 1, j);
    } else {
      forall j | 0 <= j < n ensures c.pc[j] >= |Program(stages[..p - 1], j)| {}
      StageMoves(stages, n, c, p - 1, i);
    }
  }

  lemma EmptyProgram(stages: seq<Stage>, i: nat)
    ensures Program(stages[..0], i) == []
  {
  }

  /** All parties are at the end of their programs. */
  ghost predicate Done(prog: Programs, c: Config)
    requires Shaped(prog, c)
  {
    forall i :: 0 <= i < |prog| ==> c.pc[i] == |prog[i]|
  }

  lemma StuckIsDone(stages: seq<Stage>, n: nat, c: Config)
    requires Covered(stages, n) && Consistent(ProgramsOf(stages, n), c)
    ensures Stuck(ProgramsOf(stages, n), c) <==> Done(ProgramsOf(stages, n), c)
  {
    hide Program, Held, ChannelOk;
    var prog := ProgramsOf(stages, n);
    assert stages[..|stages|] == stages;
    if i: nat :| i < n && c.pc[i] < |prog[i]| {
      var k := SomeMoves(stages, n, c, |stages|, i);
    }
  }

  /** Done parties leave nothing behind: on every channel everything sent has been taken. */
  lemma DoneIsEmpty(stages: seq<Stage>, n: nat, c: Config, i: nat, j: nat)
    requires Sized(stages, n) && Settled(stages, n) && Consistent(ProgramsOf(stages, n), c) && Done(ProgramsOf(stages, n), c) && i < n && j < n
    ensures At(c, i, j).taken == |At(c, i, j).sent| == Sends(Program(stages, i), j)
  {
    hide Program, Held, Sends, Recvs;
    var prog := ProgramsOf(stages, n);
    HeldIs(stages, i, j);
    assert ChannelOk(prog, c, i, j);
    assert prog[i][..|prog[i]|] == prog[i] && prog[j][..|prog[j]|] == prog[j];
  }

  // ---------------------------------------------------------------- a complete run

  ghost function Left(prog: Programs, c: Config, m: nat): nat
    requires Shaped(prog, c) && m <= |prog|
  {
    if m == 0 then 0 else Left(prog, c, m - 1) + |prog[m - 1]| - c.pc[m - 1]
  }

  lemma {:induction false} StepLeft(prog: Programs, f: Values, c: Config, i: nat, m: nat)
    requires Shaped(prog, c) && Enabled(prog, c, i) && m <= |prog|
    ensures Left(prog, Step(prog, f, c, i), m) == Left(prog, c, m) - if i < m then 1 else 0
  {
    if m > 0 {
      StepLeft(prog, f, c, i, m - 1);
    }
  }

  /** Some run is complete. */
  lemma {:induction false} Complete(stages: seq<Stage>, n: nat, f: Values, c: Config) returns (full: seq<nat>)
    requires Covered(stages, n) && Consistent(ProgramsOf(stages, n), c)
    ensures CanRun(ProgramsOf(stages, n), f, c, full) && Stuck(ProgramsOf(stages, n), Run(ProgramsOf(stages, n), f, c, full))
    decreases Left(ProgramsOf(stages, n), c, n)
  {
    hide Program, Held, ChannelOk, Step, Enabled, Left;
    var prog := ProgramsOf(stages, n);
    if k: nat :| Enabled(prog, c, k) {
      EnabledParty(prog, c, k);
      StepLeft(prog, f, c, k, n);
      StepConsistent(prog, f, c, k);
      var rest := Complete(stages, n, f, Step(prog, f, c, k));
      full := [k] + rest;
      assert full[0] == k && full[1..] == rest;
    } else {
      full := [];
    }
  }

  lemma EnabledParty(prog: Programs, c: Config, k: nat)
    requires Shaped(prog, c) && Enabled(prog, c, k)
    ensures k < |prog|
  {
  }

  /** Schedule independence: whatever the parties compute, every run from the start can go on until
      all parties are done, and all runs in which all parties are done end in the same state, with
      everything taken from every channel. */
  lemma ScheduleIndependence(stages: seq<Stage>, n: nat, f: Values, one: seq<nat>, two: seq<nat>)
    requires Covered(stages, n) && Settled(stages, n)
    requires CanRun(ProgramsOf(stages, n), f, Start(n), one) && CanRun(ProgramsOf(stages, n), f, Start(n), two)
    ensures var prog := ProgramsOf(stages, n);
      var c, d := Run(prog, f, Start(n), one), Run(prog, f, Start(n), two);
      && (!Done(prog, c) ==> exists k :: Enabled(prog, c, k))
      && (Done(prog, c) && Done(prog, d) ==> c == d && |one| == |two|)
      && (Done(prog, c) ==> |two| <= |one|)
      && (Done(prog, c) ==> forall i: nat, j: nat :: i < n && j < n ==> At(c, i, j).taken == |At(c, i, j).sent|)
  {
    hide Program, Held, ChannelOk, Step, Enabled, At, CanRun, Run;
    var prog := ProgramsOf(stages, n);
    StartConsistent(prog);
    var c, d := Run(prog, f, Start(n), one), Run(prog, f, Start(n), two);
    RunConsistent(prog, f, Start(n), one);
    RunConsistent(prog, f, Start(n), two);
    StuckIsDone(stages, n, c);
    StuckIsDone(stages, n, d);
    if Done(prog, c) {
      var rest := Confluence(prog, f, Start(n), one, two);
      if Done(prog, d) {
        NothingAfter(prog, f, d, rest);
      }
      forall i: nat, j: nat | i < n && j < n ensures At(c, i, j).taken == |At(c, i, j).sent| {
        DoneIsEmpty(stages, n, c, i, j);
      }
    }
  }

  lemma NothingAfter(prog: Programs, f: Values, c: Config, rest: seq<nat>)
    requires Shaped(prog, c) && Stuck(prog, c) && CanRun(prog, f, c, rest)
    ensures rest == [] && Run(prog, f, c, rest) == c
  {
  }

  // ---------------------------------------------------------------- what is sent and received

  /** What goes over every channel, in order. */
  type Wires = (nat, nat) -> seq<int>

  /** What party i has received after its first p operations, if every channel carries w. */
  ghost function Received(prog: Programs, w: Wires, i: nat, p: nat): (r: seq<int>)
    requires i < |prog| && p <= |prog[i]|
  {
    if p == 0 then [] else
      Received(prog, w, i, p - 1) +
        match prog[i][p - 1]
        case Send(_) => []
        case Recv(j) => var q := Recvs(prog[i][..p - 1], j); [if q < |w(j, i)| then w(j, i)[q] else 0]
  }

  /** Peers are parties, and as many values go over a channel as are sent. */
  ghost predicate Fits(prog: Programs, w: Wires) {
    && (forall i, p :: 0 <= i < |prog| && 0 <= p < |prog[i]| ==> Peer(prog[i][p]) < |prog|)
    && (forall i: nat, j: nat :: i < |prog| && j < |prog| ==> |w(i, j)| == Sends(prog[i], j))
  }

  function Peer(op: Op): nat {
    match op
    case Send(j) => j
    case Recv(j) => j
  }

  /** From the receipts of w so far, a party sends the next value of w. */
  ghost predicate Honest(prog: Programs, f: Values, w: Wires) {
    forall i: nat, p: nat :: i < |prog| && p < |prog[i]| && prog[i][p].Send? ==> HonestAt(prog, f, w, i, p)
  }

  ghost predicate HonestAt(prog: Programs, f: Values, w: Wires, i: nat, p: nat)
    requires i < |prog| && p < |prog[i]| && prog[i][p].Send?
  {
    var j := prog[i][p].to;
    var q := Sends(prog[i][..p], j);
    q < |w(i, j)| ==> f(i, p, Received(prog, w, i, p)) == w(i, j)[q]
  }

  /** Every channel has carried a part of w, and every party has received what belongs to its step. */
  ghost predicate Follows(prog: Programs, w: Wires, c: Config)
    requires Shaped(prog, c)
  {
    && (forall i :: 0 <= i < |prog| ==> c.got[i] == Received(prog, w, i, c.pc[i]))
    && (forall i: nat, j: nat :: i < |prog| && j < |prog| ==> At(c, i, j).sent <= w(i, j))
  }

  lemma StepFollows(prog: Programs, f: Values, w: Wires, c: Config, i: nat)
    requires Consistent(prog, c) && Enabled(prog, c, i) && Fits(prog, w) && Honest(prog, f, w) && Follows(prog, w, c)
    ensures Follows(prog, w, Step(prog, f, c, i))
  {
    hide Sends, Recvs, Received;
    var d := Step(prog, f, c, i);
    var p, j := c.pc[i], Peer(prog[i][c.pc[i]]);
    assert ChannelOk(prog, c, i, j) && ChannelOk(prog, c, j, i);
    ReceivedStep(prog, w, i, p);
    if prog[i][p].Send? {
      OneMore(prog[i], p, j);
      SendsGrow(prog[i], p + 1, |prog[i]|, j);
      assert prog[i][..|prog[i]|] == prog[i];
      assert HonestAt(prog, f, w, i, p);
    }
  }

  lemma ReceivedStep(prog: Programs, w: Wires, i: nat, p: nat)
    requires i < |prog| && p < |prog[i]|
    ensures Received(prog, w, i, p + 1) == Received(prog, w, i, p) +
      match prog[i][p]
      case Send(_) => []
      case Recv(j) => var q := Recvs(prog[i][..p], j); [if q < |w(j, i)| then w(j, i)[q] else 0]
  {
  }

  lemma {:induction false} RunFollows(prog: Programs, f: Values, w: Wires, c: Config, sched: seq<nat>)
    requires Consistent(prog, c) && CanRun(prog, f, c, sched) && Fits(prog, w) && Honest(prog, f, w) && Follows(prog, w, c)
    ensures Follows(prog, w, Run(prog, f, c, sched))
    decreases |sched|
  {
    hide Step, Enabled, ChannelOk, Follows, Fits, Honest;
    if sched != [] {
      StepConsistent(prog, f, c, sched[0]);
      StepFollows(prog, f, w, c, sched[0]);
      RunFollows(prog, f, w, Step(prog, f, c, sched[0]), sched[1..]);
    }
  }

  /** In every complete run, in whatever order the parties move, every channel carries exactly w, and
      every party has received exactly what w prescribes. */
  lemma WiresCarried(prog: Programs, f: Values, w: Wires, sched: seq<nat>)
    requires Fits(prog, w) && Honest(prog, f, w)
    requires CanRun(prog, f, Start(|prog|), sched) && Done(prog, Run(prog, f, Start(|prog|), sched))
    ensures var c := Run(prog, f, Start(|prog|), sched);
      && (forall i: nat, j: nat :: i < |prog| && j < |prog| ==> At(c, i, j).sent == w(i, j))
      && (forall i :: 0 <= i < |prog| ==> c.got[i] == Received(prog, w, i, |prog[i]|))
  {
    hide Run, CanRun, Sends, Recvs, Honest, Received;
    StartConsistent(prog);
    StartFollows(prog, w);
    RunConsistent(prog, f, Start(|prog|), sched);
    RunFollows(prog, f, w, Start(|prog|), sched);
    var c := Run(prog, f, Start(|prog|), sched);
    forall i: nat, j: nat | i < |prog| && j < |prog| ensures At(c, i, j).sent == w(i, j) {
      assert ChannelOk(prog, c, i, j);
      assert prog[i][..|prog[i]|] == prog[i];
    }
  }

  lemma StartFollows(prog: Programs, w: Wires)
    ensures Follows(prog, w, Start(|prog|))
  {
  }
}
