/** Layered arithmetic circuits: gates in creation order, packed into batches, and their
    cleartext evaluation. */
module Circuits {
  import opened Scl
  import opened Sequences

  /** A gate names its parents by their creation order. */
  datatype Gate =
    | InputGate(owner: nat)
    | AddGate(left: nat, right: nat)
    | MultGate(left: nat, right: nat)
    | OutputGate(owner: nat, src: nat)

  datatype Kind = AnyInput | AnyAdd | AnyMult | AnyOutput | InputOf(client: nat) | OutputOf(client: nat)

  predicate Is(g: Gate, kind: Kind) {
    match kind
    case AnyInput => g.InputGate?
    case AnyAdd => g.AddGate?
    case AnyMult => g.MultGate?
    case AnyOutput => g.OutputGate?
    case InputOf(c) => g == InputGate(c)
    case OutputOf(c) => g.OutputGate? && g.owner == c
  }

  /** The gates of one kind, in creation order. */
  function Ids(gates: seq<Gate>, kind: Kind): (r: seq<nat>)
    ensures Increasing(r)
    ensures forall i :: 0 <= i < |r| ==> r[i] < |gates| && Is(gates[r[i]], kind)
  {
    if gates == [] then [] else
      var last := |gates| - 1;
      Ids(gates[..last], kind) + if Is(gates[last], kind) then [last] else []
  }

  lemma {:induction false} IdsComplete(gates: seq<Gate>, kind: Kind, g: nat)
    requires g < |gates| && Is(gates[g], kind)
    ensures g in Ids(gates, kind)
  {
    var last := |gates| - 1;
    if g < last {
      IdsComplete(gates[..last], kind, g);
    }
  }

  /** Gate by gate. */
  lemma IdsLast(gates: seq<Gate>, kind: Kind, m: nat)
    requires m < |gates|
    ensures Ids(gates[..m + 1], kind) == Ids(gates[..m], kind) + IfKind(gates, kind, m)
  {
    assert gates[..m + 1][..m] == gates[..m];
  }

  function IfKind(gates: seq<Gate>, kind: Kind, g: nat): seq<nat>
    requires g < |gates|
  {
    if Is(gates[g], kind) then [g] else []
  }

  lemma IdsNone(kind: Kind)
    ensures Ids([], kind) == []
  {
  }

  /** A member of a batch: a gate, or the shared padding gate. */
  datatype Member = Real(id: nat) | Padding

  /** Full batches of k members, the last one padded; there is always at least one batch. */
  function Batches(k: nat, flat: seq<nat>): (r: seq<seq<Member>>)
    requires k > 0
    ensures |r| > 0 && forall b :: 0 <= b < |r| ==> |r[b]| == k
  {
    if |flat| <= k then [seq(k, i => if 0 <= i < |flat| then Real(flat[i]) else Padding)]
    else [seq(k, i requires 0 <= i < k => Real(flat[i]))] + Batches(k, flat[k..])
  }

  /** Batches hold the given gates and nothing else. */
  lemma {:induction false} BatchMembers(k: nat, flat: seq<nat>, b: nat, i: nat)
    requires k > 0 && b < |Batches(k, flat)| && i < k
    ensures Batches(k, flat)[b][i].Real? ==> Batches(k, flat)[b][i].id in flat
  {
    if |flat| > k && b > 0 {
      BatchMembers(k, flat[k..], b - 1, i);
      assert Batches(k, flat)[b] == Batches(k, flat[k..])[b - 1];
    }
  }

  /** Every given gate is in some batch. */
  lemma {:induction false} BatchCovers(k: nat, flat: seq<nat>, x: nat) returns (b: nat, i: nat)
    requires k > 0 && x in flat
    ensures b < |Batches(k, flat)| && i < k && Batches(k, flat)[b][i] == Real(x)
  {
    var at := Position(flat, x);
    if at < k {
      b, i := 0, at;
    } else {
      assert flat[k..][at - k] == x;
      b, i := BatchCovers(k, flat[k..], x);
      b := b + 1;
      assert Batches(k, flat)[b] == Batches(k, flat[k..])[b - 1];
    }
  }

  /** A closed circuit: its gates, its clients, the size of a batch, and its multiplication
      gates by layer. */
  datatype Layout = Layout(gates: seq<Gate>, clients: nat, batchSize: nat, mults: seq<seq<nat>>)

  /** Parents come before their gate; owners are clients. */
  ghost predicate Ordered(gates: seq<Gate>, clients: nat) {
    forall g :: 0 <= g < |gates| ==>
      match gates[g]
      case InputGate(c) => c < clients
      case AddGate(l, r) => l < g && r < g
      case MultGate(l, r) => l < g && r < g
      case OutputGate(c, s) => c < clients && s < g
  }

  /** No addition reads an output gate. */
  ghost predicate PlainSums(gates: seq<Gate>) {
    forall g :: 0 <= g < |gates| && gates[g].AddGate? ==> IsWire(gates, gates[g].left) && IsWire(gates, gates[g].right)
  }

  predicate IsWire(gates: seq<Gate>, g: nat) {
    g < |gates| && !gates[g].OutputGate?
  }

  ghost predicate WellFormed(lay: Layout) {
    && lay.batchSize > 0 && Ordered(lay.gates, lay.clients)
    && Flatten(lay.mults) == Ids(lay.gates, AnyMult)
  }

  // ---------------------------------------------------------------- cleartext evaluation

  /** The inputs of every client, one for each of its input gates. */
  ghost predicate Matches(lay: Layout, inputs: seq<seq<int>>) {
    && |inputs| == lay.clients
    && forall c :: 0 <= c < lay.clients ==> |inputs[c]| == |Ids(lay.gates, InputOf(c))|
  }

  /** The value of a gate when the circuit is evaluated in the clear. */
  ghost function Clear(lay: Layout, inputs: seq<seq<int>>, g: nat): (r: int)
    requires WellFormed(lay) && Matches(lay, inputs) && g < |lay.gates|
    ensures 0 <= r < P61
    decreases g
  {
    match lay.gates[g]
    case InputGate(c) =>
      IdsComplete(lay.gates, InputOf(c), g);
      F(inputs[c][Position(Ids(lay.gates, InputOf(c)), g)])
    case AddGate(l, r) => F(Clear(lay, inputs, l) + Clear(lay, inputs, r))
    case MultGate(l, r) => F(Clear(lay, inputs, l) * Clear(lay, inputs, r))
    case OutputGate(_, s) => Clear(lay, inputs, s)
  }

  // ---------------------------------------------------------------- layers

  /** Every input and multiplication gate that g reaches through additions is in known. */
  ghost predicate Reachable(lay: Layout, known: set<nat>, g: nat)
    requires WellFormed(lay) && g < |lay.gates|
    decreases g
  {
    match lay.gates[g]
    case InputGate(_) => g in known
    case MultGate(_, _) => g in known
    case AddGate(l, r) => Reachable(lay, known, l) && Reachable(lay, known, r)
    case OutputGate(_, s) => Reachable(lay, known, s)
  }

  /** The inputs and the multiplications of the first d layers. */
  function Known(lay: Layout, d: nat): (r: set<nat>)
    requires d <= |lay.mults|
  {
    if d == 0 then set g | g in Ids(lay.gates, AnyInput)
    else
      var row := lay.mults[d - 1];
      Known(lay, d - 1) + set g | g in row
  }

  /** Multiplications depend on earlier layers only. */
  ghost predicate Layered(lay: Layout)
    requires WellFormed(lay)
  {
    forall d, i :: 0 <= d < |lay.mults| && 0 <= i < |lay.mults[d]| ==>
      var g := lay.mults[d][i];
      && g < |lay.gates| && lay.gates[g].MultGate?
      && Reachable(lay, Known(lay, d), lay.gates[g].left)
      && Reachable(lay, Known(lay, d), lay.gates[g].right)
  }
}
