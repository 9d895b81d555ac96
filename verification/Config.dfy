/** Synthetic layered circuits, and what their layers look like. */
module Config {
  import opened Scl
  import opened Sequences
  import opened Circuits
  import opened Wiring
  import opened Masking
  import opened Building

  datatype CircuitConfig = CircuitConfig(inpGates: seq<nat>, outGates: seq<nat>, nParties: nat, width: nat, depth: nat, batchSize: nat)

  /** The four refusals, the refusal of a full batch, a division by zero, a read outside the
      list of layers, and the circuit. */
  datatype Built =
    | Built(circuit: Circuit)
    | WrongInputLength
    | WrongOutputLength
    | WidthNotMultiple
    | OddInputs
    | NoRoom
    | DividesByZero
    | ReadsOutside

  function Sum(s: seq<nat>): nat {
    if s == [] then 0 else Sum(s[..|s| - 1]) + s[|s| - 1]
  }

  lemma SumStep(s: seq<nat>, i: nat)
    requires i < |s|
    ensures Sum(s[..i + 1]) == Sum(s[..i]) + s[i]
  {
    assert s[..i + 1][..i] == s[..i];
  }

  // ---------------------------------------------------------------- the shape of a layer

  /** A gate that a layer may read: an input in the first layer, a gate of the layer before otherwise. */
  ghost predicate Source(gates: seq<Gate>, first: bool, prev: seq<nat>, x: nat) {
    x < |gates| && if first then gates[x].InputGate? else x in prev
  }

  /** A source, or a sum of two. */
  ghost predicate Simple(gates: seq<Gate>, first: bool, prev: seq<nat>, x: nat) {
    || Source(gates, first, prev, x)
    || (x < |gates| && gates[x].AddGate? && Source(gates, first, prev, gates[x].left) && Source(gates, first, prev, gates[x].right))
  }

  ghost predicate SimpleGate(gates: seq<Gate>, first: bool, prev: seq<nat>, g: nat) {
    && g < |gates| && gates[g].MultGate?
    && Simple(gates, first, prev, gates[g].left) && Simple(gates, first, prev, gates[g].right)
  }

  ghost predicate SimpleRow(gates: seq<Gate>, first: bool, prev: seq<nat>, row: seq<nat>) {
    forall i :: 0 <= i < |row| ==> SimpleGate(gates, first, prev, row[i])
  }

  /** The layer before layer d. */
  function Prev(mults: seq<seq<nat>>, d: nat): seq<nat>
    requires d <= |mults|
  {
    if d == 0 then [] else mults[d - 1]
  }

  /** Every layer reads the one before it; each has w gates. */
  ghost predicate SimpleLayers(gates: seq<Gate>, mults: seq<seq<nat>>, w: nat) {
    forall d :: 0 <= d < |mults| ==>
      |mults[d]| == w && SimpleRow(gates, d == 0, Prev(mults, d), mults[d])
  }

  lemma SimpleRowMore(gates: seq<Gate>, more: seq<Gate>, first: bool, prev: seq<nat>, row: seq<nat>)
    requires SimpleRow(gates, first, prev, row) && gates <= more
    ensures SimpleRow(more, first, prev, row)
  {
  }

  lemma SimpleLayersMore(gates: seq<Gate>, more: seq<Gate>, mults: seq<seq<nat>>, w: nat)
    requires SimpleLayers(gates, mults, w) && gates <= more
    ensures SimpleLayers(more, mults, w)
  {
    hide SimpleRow;
    forall d | 0 <= d < |mults| ensures SimpleRow(more, d == 0, Prev(mults, d), mults[d]) {
      SimpleRowMore(gates, more, d == 0, Prev(mults, d), mults[d]);
    }
  }

  /** Such circuits are layered. */
  lemma SimpleIsLayered(lay: Layout, w: nat)
    requires WellFormed(lay) && SimpleLayers(lay.gates, lay.mults, w)
    ensures Layered(lay)
  {
    hide Ids, Known, Reachable, SimpleGate, SimpleRow;
    forall d, i | 0 <= d < |lay.mults| && 0 <= i < |lay.mults[d]|
      ensures var g := lay.mults[d][i];
        && g < |lay.gates| && lay.gates[g].MultGate?
        && lay.gates[g].left < |lay.gates| && lay.gates[g].right < |lay.gates|
        && Reachable(lay, Known(lay, d), lay.gates[g].left) && Reachable(lay, Known(lay, d), lay.gates[g].right)
    {
      SimpleReachable(lay, w, d, i);
    }
  }

  lemma SimpleReachable(lay: Layout, w: nat, d: nat, i: nat)
    requires WellFormed(lay) && SimpleLayers(lay.gates, lay.mults, w) && d < |lay.mults| && i < |lay.mults[d]|
    ensures var g := lay.mults[d][i];
      && g < |lay.gates| && lay.gates[g].MultGate?
      && lay.gates[g].left < |lay.gates| && lay.gates[g].right < |lay.gates|
      && Reachable(lay, Known(lay, d), lay.gates[g].left) && Reachable(lay, Known(lay, d), lay.gates[g].right)
  {
    hide Ids, Known, WellFormed, Reachable;
    var prev := Prev(lay.mults, d);
    var g := lay.mults[d][i];
    assert SimpleGate(lay.gates, d == 0, prev, g);
    SimpleParent(lay, d, lay.gates[g].left);
    SimpleParent(lay, d, lay.gates[g].right);
  }

  lemma SimpleParent(lay: Layout, d: nat, x: nat)
    requires WellFormed(lay) && d < |lay.mults|
    requires Simple(lay.gates, d == 0, Prev(lay.mults, d), x)
    ensures x < |lay.gates| && Reachable(lay, Known(lay, d), x)
  {
    hide Ids, Known;
    var prev := Prev(lay.mults, d);
    if Source(lay.gates, d == 0, prev, x) {
      SourceKnown(lay, d, x);
    } else {
      SourceKnown(lay, d, lay.gates[x].left);
      SourceKnown(lay, d, lay.gates[x].right);
    }
  }

  lemma SourceKnown(lay: Layout, d: nat, x: nat)
    requires WellFormed(lay) && d < |lay.mults|
    requires Source(lay.gates, d == 0, Prev(lay.mults, d), x)
    ensures x < |lay.gates| && Reachable(lay, Known(lay, d), x)
  {
    hide Ids;
    if d == 0 {
      IdsComplete(lay.gates, AnyInput, x);
    } else {
      LayerGates(lay, d - 1, x);
      assert x in Known(lay, d);
    }
  }

  // ---------------------------------------------------------------- what the gates read

  /** The k-th source of a layer: the first layer goes round the inputs. */
  function SourceAt(sources: seq<nat>, first: bool, k: nat): nat {
    var at := if first && |sources| > 0 then k % |sources| else k;
    if at < |sources| then sources[at] else 0
  }

  /** Pair i of a row: the sum of two sources and its products with each of them, made one after the other. */
  ghost predicate PairAt(gates: seq<Gate>, row: seq<nat>, i: nat, x: nat, y: nat) {
    && 2 * i + 1 < |row| && 0 < row[2 * i] && row[2 * i + 1] == row[2 * i] + 1 < |gates|
    && gates[row[2 * i] - 1] == AddGate(x, y)
    && gates[row[2 * i]] == MultGate(x, row[2 * i] - 1) && gates[row[2 * i + 1]] == MultGate(y, row[2 * i] - 1)
  }

  /** The pairs of a row over consecutive sources. */
  ghost predicate PairRow(gates: seq<Gate>, sources: seq<nat>, first: bool, row: seq<nat>) {
    forall i: nat :: 2 * i + 1 < |row| ==> PairAt(gates, row, i, SourceAt(sources, first, 2 * i), SourceAt(sources, first, 2 * i + 1))
  }

  /** The first layer reads the inputs in order, every later one the layer before it. */
  ghost predicate PairLayers(gates: seq<Gate>, inputs: seq<nat>, mults: seq<seq<nat>>) {
    forall d :: 0 <= d < |mults| ==> PairRow(gates, SourcesOf(inputs, mults, d), d == 0, mults[d])
  }

  function SourcesOf(inputs: seq<nat>, mults: seq<seq<nat>>, d: nat): seq<nat>
    requires d < |mults|
  {
    if d == 0 then inputs else mults[d - 1]
  }

  lemma PairRowMore(gates: seq<Gate>, more: seq<Gate>, sources: seq<nat>, first: bool, row: seq<nat>)
    requires PairRow(gates, sources, first, row) && gates <= more
    ensures PairRow(more, sources, first, row)
  {
    hide SourceAt;
    forall i: nat | 2 * i + 1 < |row|
      ensures PairAt(more, row, i, SourceAt(sources, first, 2 * i), SourceAt(sources, first, 2 * i + 1))
    {
      assert PairAt(gates, row, i, SourceAt(sources, first, 2 * i), SourceAt(sources, first, 2 * i + 1));
    }
  }

  lemma PairLayersMore(gates: seq<Gate>, more: seq<Gate>, inputs: seq<nat>, mults: seq<seq<nat>>)
    requires PairLayers(gates, inputs, mults) && gates <= more
    ensures PairLayers(more, inputs, mults)
  {
    hide PairRow;
    forall d | 0 <= d < |mults| ensures PairRow(more, SourcesOf(inputs, mults, d), d == 0, mults[d]) {
      PairRowMore(gates, more, SourcesOf(inputs, mults, d), d == 0, mults[d]);
    }
  }

  /** One more pair at the end of a row. */
  lemma PairAppended(gates: seq<Gate>, sources: seq<nat>, first: bool, row: seq<nat>, i: nat)
    requires PairRow(gates, sources, first, row) && |row| == 2 * i
    ensures var x, y := SourceAt(sources, first, 2 * i), SourceAt(sources, first, 2 * i + 1);
      var n := |gates|;
      PairRow(gates + [AddGate(x, y), MultGate(x, n), MultGate(y, n)], sources, first, row + [n + 1, n + 2])
  {
    hide SourceAt;
    var x, y, n := SourceAt(sources, first, 2 * i), SourceAt(sources, first, 2 * i + 1), |gates|;
    var more := gates + [AddGate(x, y), MultGate(x, n), MultGate(y, n)];
    PairRowMore(gates, more, sources, first, row);
    var long := row + [n + 1, n + 2];
    forall k: nat | 2 * k + 1 < |long|
      ensures PairAt(more, long, k, SourceAt(sources, first, 2 * k), SourceAt(sources, first, 2 * k + 1))
    {
      if k < i {
        assert PairAt(more, row, k, SourceAt(sources, first, 2 * k), SourceAt(sources, first, 2 * k + 1));
      } else {
        assert k == i;
      }
    }
  }

  /** One gate for every entry of a list of counts, owner by owner, from a gate on: owner c has counts[c] of them. */
  ghost predicate Listed(counts: seq<nat>, c: nat, j: nat, at: nat) {
    c < |counts| && j < counts[c] && at == Sum(counts[..c]) + j
  }

  /** The inputs are the first gates, client by client. */
  ghost predicate InputsFirst(gates: seq<Gate>, inpGates: seq<nat>, m: nat) {
    forall c: nat, j: nat, at: nat :: Listed(inpGates, c, j, at) && at < m ==> at < |gates| && gates[at] == InputGate(c)
  }

  /** The outputs go round a row, client by client. */
  ghost predicate OutputsRound(gates: seq<Gate>, outputs: seq<nat>, outGates: seq<nat>, row: seq<nat>, m: nat) {
    && |outputs| == m
    && forall c: nat, j: nat, at: nat :: Listed(outGates, c, j, at) && at < m ==>
      && |row| > 0 && outputs[at] < |gates| && gates[outputs[at]] == OutputGate(c, row[at % |row|])
  }

  // ---------------------------------------------------------------- building

  /** One pair of multiplications over two sources and their sum. */
  method MultPair(circuit: Circuit, x: nat, y: nat, ghost first: bool, ghost prev: seq<nat>)
    requires circuit.Valid() && circuit.stage == Growing && |circuit.flatMults| > 0
    requires Source(circuit.gates, first, prev, x) && Source(circuit.gates, first, prev, y)
    requires PlainSums(circuit.gates) && IsWire(circuit.gates, x) && IsWire(circuit.gates, y)
    requires SimpleRow(circuit.gates, first, prev, circuit.flatMults[|circuit.flatMults| - 1])
    modifies circuit`gates, circuit`multLayers, circuit`flatMults, circuit`size
    ensures circuit.Valid() && old(circuit.gates) <= circuit.gates && PlainSums(circuit.gates)
    ensures |circuit.flatMults| == |old(circuit.flatMults)|
    ensures var last := |circuit.flatMults| - 1;
      && circuit.flatMults[..last] == old(circuit.flatMults)[..last]
      && |circuit.flatMults[last]| == |old(circuit.flatMults)[last]| + 2
      && SimpleRow(circuit.gates, first, prev, circuit.flatMults[last])
    ensures circuit.gates == old(circuit.gates) + [AddGate(x, y), MultGate(x, |old(circuit.gates)|), MultGate(y, |old(circuit.gates)|)]
    ensures circuit.flatMults[|circuit.flatMults| - 1] ==
      old(circuit.flatMults)[|circuit.flatMults| - 1] + [|old(circuit.gates)| + 1, |old(circuit.gates)| + 2]
    ensures SameEnds(old(circuit.gates), circuit.gates)
  {
    hide Circuit.Valid, Ids;
    ghost var gates := circuit.gates;
    ghost var last := |circuit.flatMults| - 1;
    ghost var row := circuit.flatMults[last];
    AppendKinds(gates, AddGate(x, y));
    var add := circuit.Add(x, y);
    ghost var gates1 := circuit.gates;
    AppendKinds(gates1, MultGate(x, add));
    var g1 := circuit.Mult(x, add);
    ghost var gates2 := circuit.gates;
    AppendKinds(gates2, MultGate(y, add));
    var g2 := circuit.Mult(y, add);
    SimpleRowMore(gates, circuit.gates, first, prev, row);
    assert circuit.flatMults[last] == row + [g1, g2];
  }

  /** What building a layer leaves alone. */
  ghost predicate SameEnds(before: seq<Gate>, after: seq<Gate>) {
    && before <= after && PlainSums(after)
    && Ids(after, AnyInput) == Ids(before, AnyInput) && Ids(after, AnyOutput) == Ids(before, AnyOutput)
    && (forall c :: Ids(after, InputOf(c)) == Ids(before, InputOf(c)))
    && (forall c :: Ids(after, OutputOf(c)) == Ids(before, OutputOf(c)))
  }

  /** Pairs over consecutive sources; the first layer goes round the inputs. */
  method FillLayer(circuit: Circuit, sources: seq<nat>, pairs: nat, first: bool, ghost prev: seq<nat>)
    requires circuit.Valid() && circuit.stage == Growing && |circuit.flatMults| > 0
    requires circuit.flatMults[|circuit.flatMults| - 1] == []
    requires first ==> |sources| > 0
    requires !first ==> 2 * pairs <= |sources|
    requires PlainSums(circuit.gates)
    requires forall i :: 0 <= i < |sources| ==>
      Source(circuit.gates, first, prev, sources[i]) && IsWire(circuit.gates, sources[i])
    modifies circuit`gates, circuit`multLayers, circuit`flatMults, circuit`size
    ensures circuit.Valid() && SameEnds(old(circuit.gates), circuit.gates)
    ensures |circuit.flatMults| == |old(circuit.flatMults)|
    ensures var last := |circuit.flatMults| - 1;
      && circuit.flatMults[..last] == old(circuit.flatMults)[..last]
      && |circuit.flatMults[last]| == 2 * pairs
      && SimpleRow(circuit.gates, first, prev, circuit.flatMults[last])
      && PairRow(circuit.gates, sources, first, circuit.flatMults[last])
  {
    hide Circuit.Valid, Ids, Simple, PairRow;
    ghost var last := |circuit.flatMults| - 1;
    NoPairs(circuit.gates, sources, first);
    for i := 0 to pairs
      invariant circuit.Valid() && circuit.stage == Growing && SameEnds(old(circuit.gates), circuit.gates)
      invariant |circuit.flatMults| == |old(circuit.flatMults)|
      invariant circuit.flatMults[..last] == old(circuit.flatMults)[..last]
      invariant |circuit.flatMults[last]| == 2 * i
      invariant SimpleRow(circuit.gates, first, prev, circuit.flatMults[last])
      invariant PairRow(circuit.gates, sources, first, circuit.flatMults[last])
    {
      var x := if first then sources[(2 * i) % |sources|] else sources[2 * i];
      var y := if first then sources[(2 * i + 1) % |sources|] else sources[2 * i + 1];
      PairAppended(circuit.gates, sources, first, circuit.flatMults[last], i);
      MultPair(circuit, x, y, first, prev);
    }
  }

  lemma NoPairs(gates: seq<Gate>, sources: seq<nat>, first: bool)
    ensures PairRow(gates, sources, first, [])
  {
  }

  /** Input gates, client by client. */
  method AddInputs(circuit: Circuit, inpGates: seq<nat>)
    requires circuit.Valid() && circuit.gates == [] && !circuit.inputsClosed && |inpGates| == circuit.clients
    modifies circuit`gates, circuit`inputLayers, circuit`flatInputs, circuit`inputGates
    ensures circuit.Valid() && PlainSums(circuit.gates)
    ensures |circuit.gates| == |circuit.inputGates| == Sum(inpGates) && InputsFirst(circuit.gates, inpGates, Sum(inpGates))
    ensures forall k :: 0 <= k < |circuit.inputGates| ==> circuit.inputGates[k] == k
    ensures Ids(circuit.gates, AnyOutput) == []
    ensures |Ids(circuit.gates, AnyInput)| == Sum(inpGates)
    ensures forall c :: 0 <= c < |inpGates| ==> |Ids(circuit.gates, InputOf(c))| == inpGates[c]
    ensures forall c :: Ids(circuit.gates, OutputOf(c)) == []
  {
    hide Circuit.Valid, Ids, Sum, InputsFirst;
    NoIds();
    SumNone(inpGates);
    StartInputs(circuit, inpGates);
    for i := 0 to |inpGates|
      invariant circuit.Valid() && !circuit.inputsClosed && PlainSums(circuit.gates)
      invariant OnlyInputs(circuit, inpGates, Sum(inpGates[..i]))
      invariant |Ids(circuit.gates, AnyInput)| == Sum(inpGates[..i])
      invariant forall c :: 0 <= c < |inpGates| ==> |Ids(circuit.gates, InputOf(c))| == if c < i then inpGates[c] else 0
      invariant forall c :: Ids(circuit.gates, OutputOf(c)) == []
    {
      for j := 0 to inpGates[i]
        invariant circuit.Valid() && !circuit.inputsClosed && PlainSums(circuit.gates)
        invariant OnlyInputs(circuit, inpGates, Sum(inpGates[..i]) + j)
        invariant |Ids(circuit.gates, AnyInput)| == Sum(inpGates[..i]) + j
        invariant forall c :: 0 <= c < |inpGates| ==>
          |Ids(circuit.gates, InputOf(c))| == if c < i then inpGates[c] else if c == i then j else 0
        invariant forall c :: Ids(circuit.gates, OutputOf(c)) == []
      {
        AppendKinds(circuit.gates, InputGate(i));
        InputsAppend(circuit.gates, inpGates, i, j);
        var gate := circuit.Input(i);
      }
      SumStep(inpGates, i);
    }
    assert inpGates[..|inpGates|] == inpGates;
  }

  /** As many gates as inputs, in order. */
  ghost predicate OnlyInputs(circuit: Circuit, inpGates: seq<nat>, m: nat)
    reads circuit`gates, circuit`inputGates
  {
    && |circuit.gates| == |circuit.inputGates| == m && InputsFirst(circuit.gates, inpGates, m)
    && (forall k :: 0 <= k < m ==> circuit.inputGates[k] == k) && Ids(circuit.gates, AnyOutput) == []
  }

  lemma StartInputs(circuit: Circuit, inpGates: seq<nat>)
    requires circuit.Valid() && circuit.gates == []
    ensures OnlyInputs(circuit, inpGates, 0)
  {
    hide Sum;
  }

  lemma {:induction false} SumGrows(s: seq<nat>, c: nat, i: nat)
    requires c < i <= |s|
    ensures Sum(s[..c]) + s[c] <= Sum(s[..i])
  {
    hide Sum;
    SumStep(s, i - 1);
    if c < i - 1 {
      SumGrows(s, c, i - 1);
    }
  }

  /** A place belongs to one owner. */
  lemma ListedOnce(counts: seq<nat>, c: nat, j: nat, i: nat, k: nat, at: nat)
    requires Listed(counts, c, j, at) && Listed(counts, i, k, at)
    ensures c == i && j == k
  {
    hide Sum;
    if c < i {
      SumGrows(counts, c, i);
    } else if i < c {
      SumGrows(counts, i, c);
    }
  }

  lemma InputsAppend(gates: seq<Gate>, inpGates: seq<nat>, i: nat, k: nat)
    requires i < |inpGates| && k < inpGates[i] && |gates| == Sum(inpGates[..i]) + k && InputsFirst(gates, inpGates, |gates|)
    ensures InputsFirst(gates + [InputGate(i)], inpGates, |gates| + 1)
  {
    hide Sum, Listed;
    var at0 := |gates|;
    assert Listed(inpGates, i, k, at0) by { ListedIs(inpGates, i, k); }
    forall c: nat, j: nat, at: nat | Listed(inpGates, c, j, at) && at < at0 + 1
      ensures at < at0 + 1 && (gates + [InputGate(i)])[at] == InputGate(c)
    {
      if at == at0 {
        ListedOnce(inpGates, c, j, i, k, at);
      }
    }
  }

  lemma ListedIs(counts: seq<nat>, c: nat, j: nat)
    requires c < |counts| && j < counts[c]
    ensures Listed(counts, c, j, Sum(counts[..c]) + j)
  {
  }

  lemma OutputsAppend(gates: seq<Gate>, outputs: seq<nat>, outGates: seq<nat>, row: seq<nat>, i: nat, k: nat, m: nat)
    requires i < |outGates| && k < outGates[i] && m == Sum(outGates[..i]) + k && |row| > 0
    requires OutputsRound(gates, outputs, outGates, row, m)
    ensures OutputsRound(gates + [OutputGate(i, row[m % |row|])], outputs + [|gates|], outGates, row, m + 1)
  {
    hide Sum, Listed;
    assert Listed(outGates, i, k, m) by { ListedIs(outGates, i, k); }
    var more, list := gates + [OutputGate(i, row[m % |row|])], outputs + [|gates|];
    forall c: nat, j: nat, at: nat | Listed(outGates, c, j, at) && at < m + 1
      ensures list[at] < |more| && more[list[at]] == OutputGate(c, row[at % |row|])
    {
      if at == m {
        ListedOnce(outGates, c, j, i, k, at);
      }
    }
  }

  lemma NoOutputs(gates: seq<Gate>, outGates: seq<nat>, row: seq<nat>)
    ensures OutputsRound(gates, [], outGates, row, 0)
  {
  }

  lemma NoIds()
    ensures forall kind: Kind :: Ids([], kind) == []
  {
  }

  lemma SumNone(s: seq<nat>)
    ensures Sum(s[..0]) == 0
  {
  }

  ghost predicate Readable(gates: seq<Gate>, row: seq<nat>) {
    forall i :: 0 <= i < |row| ==> row[i] < |gates|
  }

  /** What happens when gate ctr of a layer is fetched for an output, modulo the width. */
  datatype Fetch = Fetched | ByZero | Outside

  /** Output gates, client by client, over the last layer in turn: the first output fails when
      the width is 0, and when there is no last layer. */
  method AddOutputs(circuit: Circuit, config: CircuitConfig) returns (r: Fetch)
    requires circuit.Valid() && circuit.stage == Finished && !circuit.isClosed && |config.outGates| == circuit.clients
    requires |circuit.flatMults| > config.depth
    requires config.depth > 0 ==> |circuit.flatMults[config.depth - 1]| == config.width
    requires PlainSums(circuit.gates)
    requires config.depth > 0 ==> Readable(circuit.gates, circuit.flatMults[config.depth - 1])
    requires forall c :: Ids(circuit.gates, OutputOf(c)) == []
    requires Ids(circuit.gates, AnyOutput) == []
    modifies circuit`gates, circuit`outputLayers, circuit`flatOutputs
    ensures r == FetchOf(config)
    ensures Ids(circuit.gates, AnyInput) == Ids(old(circuit.gates), AnyInput)
    ensures r.Fetched? ==>
      OutputsRound(circuit.gates, Ids(circuit.gates, AnyOutput), config.outGates, ReadRow(circuit.flatMults, config.depth), Sum(config.outGates))
    ensures circuit.Valid() && old(circuit.gates) <= circuit.gates && PlainSums(circuit.gates)
    ensures forall c :: Ids(circuit.gates, InputOf(c)) == Ids(old(circuit.gates), InputOf(c))
    ensures r.Fetched? ==> forall c :: 0 <= c < |config.outGates| ==> |Ids(circuit.gates, OutputOf(c))| == config.outGates[c]
  {
    hide Circuit.Valid, Ids, Sum, OutputsRound;
    var ctr, outGates := 0, config.outGates;
    ghost var row := ReadRow(circuit.flatMults, config.depth);
    SumNone(outGates);
    NoOutputs(circuit.gates, outGates, row);
    for i := 0 to |outGates|
      invariant circuit.Valid() && !circuit.isClosed && old(circuit.gates) <= circuit.gates && PlainSums(circuit.gates)
      invariant forall c :: Ids(circuit.gates, InputOf(c)) == Ids(old(circuit.gates), InputOf(c))
      invariant forall c :: 0 <= c < |outGates| ==> |Ids(circuit.gates, OutputOf(c))| == if c < i then outGates[c] else 0
      invariant Sum(outGates[..i]) > 0 ==> FetchOf(config).Fetched?
      invariant ctr == Sum(outGates[..i]) && OutputsRound(circuit.gates, Ids(circuit.gates, AnyOutput), outGates, row, ctr)
      invariant Ids(circuit.gates, AnyInput) == Ids(old(circuit.gates), AnyInput)
    {
      SumPositive(outGates, i);
      SumStep(outGates, i);
      for j := 0 to outGates[i]
        invariant circuit.Valid() && !circuit.isClosed && old(circuit.gates) <= circuit.gates && PlainSums(circuit.gates)
        invariant forall c :: Ids(circuit.gates, InputOf(c)) == Ids(old(circuit.gates), InputOf(c))
        invariant forall c :: 0 <= c < |outGates| ==>
          |Ids(circuit.gates, OutputOf(c))| == if c < i then outGates[c] else if c == i then j else 0
        invariant j > 0 ==> FetchOf(config).Fetched?
        invariant ctr == Sum(outGates[..i]) + j && OutputsRound(circuit.gates, Ids(circuit.gates, AnyOutput), outGates, row, ctr)
        invariant Ids(circuit.gates, AnyInput) == Ids(old(circuit.gates), AnyInput)
      {
        if config.width == 0 {
          return ByZero;
        }
        var at := ctr % config.width;
        if config.depth == 0 {
          return Outside;
        }
        var x := circuit.flatMults[config.depth - 1][at];
        AppendKinds(circuit.gates, OutputGate(i, x));
        OutputsAppend(circuit.gates, Ids(circuit.gates, AnyOutput), outGates, row, i, j, ctr);
        var gate := circuit.Output(i, x);
        ctr := ctr + 1;
      }
    }
    assert outGates[..|outGates|] == outGates;
    return Fetched;
  }

  /** The last layer, which the outputs read. */
  function ReadRow(mults: seq<seq<nat>>, depth: nat): seq<nat> {
    if 0 < depth <= |mults| then mults[depth - 1] else []
  }

  /** Whether outputs find gates to read. */
  function FetchOf(config: CircuitConfig): Fetch {
    if Sum(config.outGates) == 0 then Fetched
    else if config.width == 0 then ByZero
    else if config.depth == 0 then Outside
    else Fetched
  }

  lemma {:induction false} SumPositive(s: seq<nat>, i: nat)
    requires i < |s|
    ensures s[i] <= Sum(s)
  {
    if i < |s| - 1 {
      SumPositive(s[..|s| - 1], i);
    }
  }

  /** All layers: the first over the inputs, each later one over the layer before. */
  method FillLayers(circuit: Circuit, pairs: nat, depth: nat)
    requires circuit.Valid() && circuit.stage == Growing && circuit.flatMults == [[]] && |circuit.inputGates| > 0
    requires PlainSums(circuit.gates)
    modifies circuit`gates, circuit`multLayers, circuit`flatMults, circuit`size, circuit`width
    ensures circuit.Valid() && SameEnds(old(circuit.gates), circuit.gates)
    ensures |circuit.flatMults| == if depth == 0 then 1 else depth
    ensures SimpleLayers(circuit.gates, circuit.flatMults, 2 * pairs)
    ensures PairLayers(circuit.gates, circuit.inputGates, circuit.flatMults)
  {
    hide Circuit.Valid, SimpleRow, Source, PairRow;
    InputSources(circuit);
    FillLayer(circuit, circuit.inputGates, pairs, true, []);
    for d := 1 to if depth == 0 then 1 else depth
      invariant circuit.Valid() && circuit.stage == Growing && SameEnds(old(circuit.gates), circuit.gates)
      invariant |circuit.flatMults| == d
      invariant SimpleLayers(circuit.gates, circuit.flatMults, 2 * pairs)
      invariant PairLayers(circuit.gates, circuit.inputGates, circuit.flatMults)
    {
      NextLayer(circuit, pairs, d);
    }
  }

  method NextLayer(circuit: Circuit, pairs: nat, d: nat)
    requires circuit.Valid() && circuit.stage == Growing && |circuit.flatMults| == d > 0 && PlainSums(circuit.gates)
    requires SimpleLayers(circuit.gates, circuit.flatMults, 2 * pairs)
    requires PairLayers(circuit.gates, circuit.inputGates, circuit.flatMults)
    modifies circuit`gates, circuit`multLayers, circuit`flatMults, circuit`size, circuit`width
    ensures circuit.Valid() && SameEnds(old(circuit.gates), circuit.gates)
    ensures |circuit.flatMults| == d + 1
    ensures SimpleLayers(circuit.gates, circuit.flatMults, 2 * pairs)
    ensures PairLayers(circuit.gates, circuit.inputGates, circuit.flatMults)
  {
    hide Circuit.Valid, SimpleRow, Source, Ids, SimpleLayers, PairLayers, PairRow;
    ghost var before := circuit.flatMults;
    circuit.NewLayer();
    var prev := circuit.flatMults[d - 1];
    LayerSources(circuit.gates, before, 2 * pairs, d - 1);
    RowReadable(circuit.gates, before, 2 * pairs, d - 1);
    FillLayer(circuit, prev, pairs, false, prev);
    SimpleLayersMore(old(circuit.gates), circuit.gates, before, 2 * pairs);
    assert circuit.flatMults == before + [circuit.flatMults[d]];
    LayerAdded(circuit.gates, before, circuit.flatMults[d], 2 * pairs);
    PairLayersMore(old(circuit.gates), circuit.gates, circuit.inputGates, before);
    PairLayerAdded(circuit.gates, circuit.inputGates, before, circuit.flatMults[d]);
  }

  lemma LayerAdded(gates: seq<Gate>, mults: seq<seq<nat>>, row: seq<nat>, w: nat)
    requires SimpleLayers(gates, mults, w) && |mults| > 0 && |row| == w && SimpleRow(gates, false, mults[|mults| - 1], row)
    ensures SimpleLayers(gates, mults + [row], w)
  {
    hide SimpleRow, Prev;
    forall d | 0 <= d < |mults + [row]|
      ensures |(mults + [row])[d]| == w && SimpleRow(gates, d == 0, Prev(mults + [row], d), (mults + [row])[d])
    {
      PrevAppend(mults, row, d);
      if d < |mults| {
        assert SimpleRow(gates, d == 0, Prev(mults, d), mults[d]);
      }
    }
  }

  lemma PairLayerAdded(gates: seq<Gate>, inputs: seq<nat>, mults: seq<seq<nat>>, row: seq<nat>)
    requires PairLayers(gates, inputs, mults) && |mults| > 0 && PairRow(gates, mults[|mults| - 1], false, row)
    ensures PairLayers(gates, inputs, mults + [row])
  {
    hide PairRow, SourcesOf;
    forall d | 0 <= d < |mults + [row]|
      ensures PairRow(gates, SourcesOf(inputs, mults + [row], d), d == 0, (mults + [row])[d])
    {
      SourcesAppend(inputs, mults, row, d);
      if d < |mults| {
        assert PairRow(gates, SourcesOf(inputs, mults, d), d == 0, mults[d]);
      }
    }
  }

  lemma SourcesAppend(inputs: seq<nat>, mults: seq<seq<nat>>, row: seq<nat>, d: nat)
    requires d <= |mults| && |mults| > 0
    ensures SourcesOf(inputs, mults + [row], d) == if d < |mults| then SourcesOf(inputs, mults, d) else mults[|mults| - 1]
    ensures (mults + [row])[d] == if d < |mults| then mults[d] else row
  {
  }

  lemma PrevAppend(mults: seq<seq<nat>>, row: seq<nat>, d: nat)
    requires d <= |mults| && |mults| > 0
    ensures Prev(mults + [row], d) == if d < |mults| then Prev(mults, d) else mults[|mults| - 1]
    ensures (mults + [row])[d] == if d < |mults| then mults[d] else row
  {
  }

  lemma InputSources(circuit: Circuit)
    requires circuit.Valid()
    ensures forall i :: 0 <= i < |circuit.inputGates| ==>
      Source(circuit.gates, true, [], circuit.inputGates[i]) && IsWire(circuit.gates, circuit.inputGates[i])
  {
    hide Ids;
    forall i | 0 <= i < |circuit.inputGates|
      ensures Source(circuit.gates, true, [], circuit.inputGates[i]) && IsWire(circuit.gates, circuit.inputGates[i])
    {
      assert Is(circuit.gates[circuit.inputGates[i]], AnyInput);
    }
  }

  lemma LayerSources(gates: seq<Gate>, mults: seq<seq<nat>>, w: nat, d: nat)
    requires SimpleLayers(gates, mults, w) && d < |mults|
    ensures forall i :: 0 <= i < |mults[d]| ==>
      Source(gates, false, mults[d], mults[d][i]) && IsWire(gates, mults[d][i])
  {
    hide Simple;
    forall i | 0 <= i < |mults[d]|
      ensures Source(gates, false, mults[d], mults[d][i]) && IsWire(gates, mults[d][i])
    {
      assert SimpleGate(gates, d == 0, Prev(mults, d), mults[d][i]);
    }
  }

  /** A closed, layered circuit with the requested gates and layers. */
  ghost predicate Synthetic(circuit: Circuit, config: CircuitConfig)
    requires |config.inpGates| == |config.outGates| == config.nParties
    reads circuit
  {
    && circuit.Valid() && circuit.stage == Finished && circuit.inputsClosed && circuit.isClosed
    && circuit.clients == config.nParties && circuit.batchSize == config.batchSize
    && |circuit.multLayers| <= |circuit.flatMults|
    && WellFormed(circuit.Shape()) && Layered(circuit.Shape()) && PlainSums(circuit.gates)
    && |circuit.Shape().mults| == (if config.depth == 0 then 1 else config.depth)
    && (forall d :: 0 <= d < |circuit.Shape().mults| ==> |circuit.Shape().mults[d]| == config.width)
    && (forall c :: 0 <= c < config.nParties ==> |Ids(circuit.gates, InputOf(c))| == config.inpGates[c])
    && (forall c :: 0 <= c < config.nParties ==> |Ids(circuit.gates, OutputOf(c))| == config.outGates[c])
    && InputsFirst(circuit.gates, config.inpGates, Sum(config.inpGates))
    && |Ids(circuit.gates, AnyInput)| == Sum(config.inpGates) && InOrder(Ids(circuit.gates, AnyInput))
    && PairLayers(circuit.gates, Ids(circuit.gates, AnyInput), circuit.Shape().mults)
    && OutputsRound(circuit.gates, Ids(circuit.gates, AnyOutput), config.outGates, ReadRow(circuit.Shape().mults, config.depth), Sum(config.outGates))
  }

  ghost predicate InOrder(ids: seq<nat>) {
    forall k :: 0 <= k < |ids| ==> ids[k] == k
  }

  lemma InputsFirstMore(gates: seq<Gate>, more: seq<Gate>, inpGates: seq<nat>, m: nat)
    requires InputsFirst(gates, inpGates, m) && gates <= more
    ensures InputsFirst(more, inpGates, m)
  {
    hide Listed;
  }

  lemma SyntheticIs(circuit: Circuit, config: CircuitConfig, gates: seq<Gate>, mults: seq<seq<nat>>)
    requires |config.inpGates| == |config.outGates| == config.nParties
    requires circuit.Valid() && circuit.stage == Finished && circuit.inputsClosed && circuit.isClosed
    requires circuit.clients == config.nParties && circuit.batchSize == config.batchSize
    requires circuit.flatMults == mults + [[]] && |mults| == if config.depth == 0 then 1 else config.depth
    requires InputsFirst(gates, config.inpGates, Sum(config.inpGates))
    requires |Ids(circuit.gates, AnyInput)| == Sum(config.inpGates) && InOrder(Ids(circuit.gates, AnyInput))
    requires PairLayers(gates, Ids(circuit.gates, AnyInput), mults)
    requires OutputsRound(circuit.gates, Ids(circuit.gates, AnyOutput), config.outGates, ReadRow(mults, config.depth), Sum(config.outGates))
    requires PlainSums(circuit.gates) && gates <= circuit.gates && SimpleLayers(gates, mults, config.width)
    requires forall c :: 0 <= c < config.nParties ==> |Ids(circuit.gates, InputOf(c))| == config.inpGates[c]
    requires forall c :: 0 <= c < config.nParties ==> |Ids(circuit.gates, OutputOf(c))| == config.outGates[c]
    ensures Synthetic(circuit, config)
  {
    hide Circuit.Valid, Ids, SimpleRow, PairLayers, InputsFirst, OutputsRound, Sum;
    InputsFirstMore(gates, circuit.gates, config.inpGates, Sum(config.inpGates));
    PairLayersMore(gates, circuit.gates, Ids(circuit.gates, AnyInput), mults);
    circuit.FinishedShape();
    LayerCount(circuit);
    SimpleLayersMore(gates, circuit.gates, mults, config.width);
    assert circuit.Shape().mults == mults;
    SimpleIsLayered(circuit.Shape(), config.width);
  }

  lemma LayerCount(circuit: Circuit)
    requires circuit.Valid() && circuit.stage == Finished
    ensures |circuit.flatMults| == |circuit.multLayers| + 1
  {
  }

  /** One number of inputs and one of outputs for every party. */
  predicate Lengths(config: CircuitConfig) {
    |config.inpGates| == |config.outGates| == config.nParties
  }

  /** The width is a multiple of the number of inputs. */
  predicate Divides(config: CircuitConfig) {
    Sum(config.inpGates) > 0 && config.width % Sum(config.inpGates) == 0
  }

  /** A configuration that passes all tests. */
  predicate Passes(config: CircuitConfig) {
    Lengths(config) && Divides(config) && Sum(config.inpGates) % 2 == 0
  }

  /** Inputs, layers and outputs. */
  method Assemble(config: CircuitConfig, nInputs: nat) returns (r: Built)
    requires Passes(config) && config.batchSize > 0 && nInputs == Sum(config.inpGates)
    ensures r.Built? <==> FetchOf(config).Fetched?
    ensures r.DividesByZero? <==> FetchOf(config).ByZero?
    ensures r.ReadsOutside? <==> FetchOf(config).Outside?
    ensures r.Built? ==> fresh(r.circuit) && Synthetic(r.circuit, config)
  {
    hide Circuit.Valid, Ids, Sum, SimpleRow, SimpleLayers, Synthetic, FetchOf, PairLayers, InputsFirst, OutputsRound, InOrder, PlainSums, Readable, ReadRow;
    var circuit := BuildLayers(config, nInputs);
    ghost var gates, mults := circuit.gates, circuit.flatMults;
    circuit.LastLayer();
    if config.depth > 0 {
      RowReadable(gates, mults, config.width, config.depth - 1);
    }
    ReadRowSame(mults, config.depth);
    var fetched := AddOutputs(circuit, config);
    match fetched {
      case ByZero => return DividesByZero;
      case Outside => return ReadsOutside;
      case Fetched =>
    }
    circuit.CloseOutputs();
    SyntheticIs(circuit, config, gates, mults);
    return Built(circuit);
  }

  /** The inputs and all layers; the last layer is still open. */
  method BuildLayers(config: CircuitConfig, nInputs: nat) returns (circuit: Circuit)
    requires Passes(config) && config.batchSize > 0 && nInputs == Sum(config.inpGates)
    ensures fresh(circuit) && circuit.Valid() && circuit.stage == Growing && circuit.inputsClosed && !circuit.isClosed
    ensures circuit.clients == config.nParties && circuit.batchSize == config.batchSize && PlainSums(circuit.gates)
    ensures |circuit.flatMults| == if config.depth == 0 then 1 else config.depth
    ensures SimpleLayers(circuit.gates, circuit.flatMults, config.width)
    ensures PairLayers(circuit.gates, Ids(circuit.gates, AnyInput), circuit.flatMults)
    ensures InputsFirst(circuit.gates, config.inpGates, Sum(config.inpGates))
    ensures |Ids(circuit.gates, AnyInput)| == Sum(config.inpGates) && InOrder(Ids(circuit.gates, AnyInput))
    ensures Ids(circuit.gates, AnyOutput) == [] && forall c :: Ids(circuit.gates, OutputOf(c)) == []
    ensures forall c :: 0 <= c < config.nParties ==> |Ids(circuit.gates, InputOf(c))| == config.inpGates[c]
  {
    hide Circuit.Valid, Ids, Sum, SimpleRow, SimpleLayers, PairLayers, InputsFirst, PlainSums;
    circuit := new Circuit(config.nParties, config.batchSize);
    AddInputs(circuit, config.inpGates);
    circuit.CloseInputs();
    EvenWidth(config.width, nInputs);
    InputsAre(circuit);
    ghost var inputs := circuit.gates;
    FillLayers(circuit, config.width / 2, config.depth);
    InputsAre(circuit);
    InputsFirstMore(inputs, circuit.gates, config.inpGates, nInputs);
  }

  /** Closing the last layer leaves it where it is. */
  lemma ReadRowSame(mults: seq<seq<nat>>, depth: nat)
    requires depth <= |mults|
    ensures ReadRow(mults + [[]], depth) == ReadRow(mults, depth)
  {
  }

  /** The synthetic circuit: refused by four tests, in this order, and by a batch size of 0 when
      the first input is added; otherwise closed, layered and of the requested size. Without inputs the
      test of the width divides by zero, and so does the first output of a circuit of width 0; in a
      circuit of depth 0 the first output reads the gates of layer -1. */
  method FromConfig(config: CircuitConfig) returns (r: Built)
    ensures r.WrongInputLength? <==> |config.inpGates| != config.nParties
    ensures r.WrongOutputLength? <==> |config.inpGates| == config.nParties != |config.outGates|
    ensures r.DividesByZero? <==>
      (Lengths(config)
      && (Sum(config.inpGates) == 0 || (Passes(config) && config.batchSize > 0 && Sum(config.outGates) > 0 && config.width == 0)))
    ensures r.WidthNotMultiple? <==> Lengths(config) && Sum(config.inpGates) > 0 && config.width % Sum(config.inpGates) != 0
    ensures r.OddInputs? <==> Lengths(config) && Divides(config) && Sum(config.inpGates) % 2 == 1
    ensures r.NoRoom? <==> Passes(config) && config.batchSize == 0
    ensures r.ReadsOutside? <==>
      (Passes(config) && config.batchSize > 0 && Sum(config.outGates) > 0 && config.width > 0 && config.depth == 0)
    ensures r.Built? <==>
      (Passes(config) && config.batchSize > 0 && (Sum(config.outGates) > 0 ==> config.width > 0 && config.depth > 0))
    ensures r.Built? ==> fresh(r.circuit) && Synthetic(r.circuit, config)
  {
    hide Circuit.Valid, Ids, Sum, SimpleRow, SimpleLayers, Synthetic;
    var nInputs := Sum(config.inpGates);
    if config.nParties != |config.inpGates| {
      return WrongInputLength;
    }
    if config.nParties != |config.outGates| {
      return WrongOutputLength;
    }
    if nInputs == 0 {
      return DividesByZero;
    }
    if config.width % nInputs != 0 {
      return WidthNotMultiple;
    }
    if nInputs % 2 != 0 {
      return OddInputs;
    }
    if config.batchSize == 0 {
      // The layer of the first input's owner, with one empty batch.
      var ok, layer := AppendToLayer(config.batchSize, [[]], 0, []);
      if !ok {
        return NoRoom;
      }
    }
    r := Assemble(config, nInputs);
  }

  lemma InputsAre(circuit: Circuit)
    requires circuit.Valid()
    ensures circuit.inputGates == Ids(circuit.gates, AnyInput)
  {
    hide Ids;
  }

  lemma RowReadable(gates: seq<Gate>, mults: seq<seq<nat>>, w: nat, d: nat)
    requires SimpleLayers(gates, mults, w) && d < |mults|
    ensures |mults[d]| == w && Readable(gates, mults[d])
  {
    hide Simple;
    forall i | 0 <= i < |mults[d]| ensures mults[d][i] < |gates| {
      assert SimpleGate(gates, d == 0, Prev(mults, d), mults[d][i]);
    }
  }

  lemma EvenWidth(width: nat, inputs: nat)
    requires inputs > 0 && width % inputs == 0 && inputs % 2 == 0
    ensures 2 * (width / 2) == width
  {
    var h, q := inputs / 2, width / inputs;
    assert width == q * inputs;
    assert q * (2 * h) == 2 * (q * h);
  }
}
