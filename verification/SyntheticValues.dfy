/** What the synthetic circuits compute: rows of products, each pair made of a pair of the row before. */
module SyntheticValues {
  import opened Modular
  import opened Scl
  import opened Sequences
  import opened Circuits
  import opened Wiring
  import opened Building
  import opened Config
  import Parties
  import Cleartext

  // ---------------------------------------------------------------- the meaning

  /** The k-th value that a layer reads: the first layer goes round the inputs. */
  function ValueAt(vals: seq<int>, first: bool, k: nat): int {
    var at := if first && |vals| > 0 then k % |vals| else k;
    if at < |vals| then vals[at] else 0
  }

  /** x (x + y) and y (x + y) for every pair of values. */
  function RowAfter(vals: seq<int>, first: bool, width: nat): (r: seq<int>)
    ensures |r| == width
  {
    seq(width, k requires 0 <= k =>
      var x, y := ValueAt(vals, first, 2 * (k / 2)), ValueAt(vals, first, 2 * (k / 2) + 1);
      F((if k % 2 == 0 then x else y) * F(x + y)))
  }

  /** The values of layer d, from all inputs in the order of the clients. */
  function RowValues(inputs: seq<int>, width: nat, d: nat): (r: seq<int>)
    ensures |r| == width
  {
    if d == 0 then RowAfter(inputs, true, width) else RowAfter(RowValues(inputs, width, d - 1), false, width)
  }

  function Elements(inputs: seq<int>): (r: seq<int>)
    ensures |r| == |inputs|
  {
    seq(|inputs|, k requires 0 <= k < |inputs| => F(inputs[k]))
  }

  // ---------------------------------------------------------------- lists of gates

  lemma {:induction false} Behind(s: seq<nat>, w: seq<nat>, j: nat)
    requires Increasing(s) && Increasing(w) && j < |w| && forall k :: 0 <= k < |w| ==> w[k] in s
    ensures j <= Position(s, w[j])
  {
    if j > 0 {
      Behind(s, w, j - 1);
      var p, q := Position(s, w[j - 1]), Position(s, w[j]);
      assert s[p] < s[q];
      assert p < q;
    }
  }

  lemma {:induction false} Ahead(s: seq<nat>, w: seq<nat>, j: nat)
    requires Increasing(s) && Increasing(w) && |s| == |w| && j < |w| && forall k :: 0 <= k < |w| ==> w[k] in s
    ensures Position(s, w[j]) <= j
    decreases |w| - j
  {
    if j + 1 < |w| {
      Ahead(s, w, j + 1);
      var p, q := Position(s, w[j]), Position(s, w[j + 1]);
      assert s[p] < s[q];
      assert p < q;
    }
  }

  /** Increasing lists of one length, one inside the other, are equal. */
  lemma SameList(s: seq<nat>, w: seq<nat>)
    requires Increasing(s) && Increasing(w) && |s| == |w| && forall k :: 0 <= k < |w| ==> w[k] in s
    ensures s == w
  {
    forall j | 0 <= j < |w| ensures s[j] == w[j] {
      Behind(s, w, j);
      Ahead(s, w, j);
    }
  }

  /** The inputs of a client are consecutive gates. */
  lemma ClientInputs(gates: seq<Gate>, inpGates: seq<nat>, c: nat)
    requires InputsFirst(gates, inpGates, Sum(inpGates)) && c < |inpGates| && |Ids(gates, InputOf(c))| == inpGates[c]
    ensures forall j :: 0 <= j < inpGates[c] ==> Ids(gates, InputOf(c))[j] == Sum(inpGates[..c]) + j < Sum(inpGates)
  {
    hide Ids, Sum, InputsFirst;
    var base, m := Sum(inpGates[..c]), inpGates[c];
    var w := seq(m, j requires 0 <= j => base + j);
    forall j | 0 <= j < m ensures w[j] in Ids(gates, InputOf(c)) && w[j] < Sum(inpGates) {
      PlaceBelow(inpGates, c, j);
      InputThere(gates, inpGates, c, j);
      IdsComplete(gates, InputOf(c), w[j]);
    }
    SameList(Ids(gates, InputOf(c)), w);
  }

  lemma InputThere(gates: seq<Gate>, inpGates: seq<nat>, c: nat, j: nat)
    requires InputsFirst(gates, inpGates, Sum(inpGates)) && c < |inpGates| && j < inpGates[c] && Sum(inpGates[..c]) + j < Sum(inpGates)
    ensures Sum(inpGates[..c]) + j < |gates| && gates[Sum(inpGates[..c]) + j] == InputGate(c)
  {
    hide Sum, Listed;
    ListedIs(inpGates, c, j);
  }

  lemma PlaceBelow(counts: seq<nat>, c: nat, j: nat)
    requires c < |counts| && j < counts[c]
    ensures Sum(counts[..c]) + j < Sum(counts)
  {
    hide Sum;
    SumGrows(counts, c, |counts|);
    assert counts[..|counts|] == counts;
  }

  /** The outputs of a client stand together among all outputs. */
  lemma ClientOutput(gates: seq<Gate>, outGates: seq<nat>, row: seq<nat>, c: nat)
    requires OutputsRound(gates, Ids(gates, AnyOutput), outGates, row, Sum(outGates))
    requires c < |outGates| && |Ids(gates, OutputOf(c))| == outGates[c]
    ensures forall j :: 0 <= j < outGates[c] ==>
      && |row| > 0 && Sum(outGates[..c]) + j < Sum(outGates)
      && Ids(gates, OutputOf(c))[j] < |gates|
      && gates[Ids(gates, OutputOf(c))[j]] == OutputGate(c, row[(Sum(outGates[..c]) + j) % |row|])
  {
    hide Ids, Sum, OutputsRound;
    var base, m, all := Sum(outGates[..c]), outGates[c], Ids(gates, AnyOutput);
    OutputCount(gates, all, outGates, row);
    SumGrows(outGates, c, |outGates|);
    assert outGates[..|outGates|] == outGates;
    var w := all[base..base + m];
    forall j | 0 <= j < m
      ensures |row| > 0 && w[j] < |gates| && gates[w[j]] == OutputGate(c, row[(base + j) % |row|]) && w[j] in Ids(gates, OutputOf(c))
    {
      PlaceBelow(outGates, c, j);
      OutputThere(gates, all, outGates, row, c, j);
      IdsComplete(gates, OutputOf(c), w[j]);
    }
    SameList(Ids(gates, OutputOf(c)), w);
  }

  lemma OutputCount(gates: seq<Gate>, outputs: seq<nat>, outGates: seq<nat>, row: seq<nat>)
    requires OutputsRound(gates, outputs, outGates, row, Sum(outGates))
    ensures |outputs| == Sum(outGates)
  {
    hide Sum, Listed;
  }

  lemma OutputThere(gates: seq<Gate>, outputs: seq<nat>, outGates: seq<nat>, row: seq<nat>, c: nat, j: nat)
    requires OutputsRound(gates, outputs, outGates, row, Sum(outGates)) && c < |outGates| && j < outGates[c]
    requires Sum(outGates[..c]) + j < Sum(outGates)
    ensures |outputs| == Sum(outGates) && |row| > 0 && outputs[Sum(outGates[..c]) + j] < |gates|
    ensures gates[outputs[Sum(outGates[..c]) + j]] == OutputGate(c, row[(Sum(outGates[..c]) + j) % |row|])
  {
    hide Sum, Listed;
    ListedIs(outGates, c, j);
  }

  // ---------------------------------------------------------------- values

  /** The two products of a pair. */
  lemma PairValues(lay: Layout, inputs: seq<seq<int>>, row: seq<nat>, i: nat, x: nat, y: nat)
    requires WellFormed(lay) && Matches(lay, inputs) && PairAt(lay.gates, row, i, x, y)
    ensures x < |lay.gates| && y < |lay.gates|
    ensures var u, w := Clear(lay, inputs, x), Clear(lay, inputs, y);
      Clear(lay, inputs, row[2 * i]) == F(u * F(u + w)) && Clear(lay, inputs, row[2 * i + 1]) == F(w * F(u + w))
  {
    hide F, Clear, Matches, Ids;
    Cleartext.ClearGate(lay, inputs, row[2 * i] - 1);
    Cleartext.ClearGate(lay, inputs, row[2 * i]);
    Cleartext.ClearGate(lay, inputs, row[2 * i + 1]);
  }

  /** The gates of a list carry the values. */
  ghost predicate Carry(lay: Layout, inputs: seq<seq<int>>, gates: seq<nat>, vals: seq<int>)
    requires WellFormed(lay) && Matches(lay, inputs)
  {
    |gates| == |vals| && forall k :: 0 <= k < |gates| ==> gates[k] < |lay.gates| && Clear(lay, inputs, gates[k]) == vals[k]
  }

  lemma RowCarries(lay: Layout, inputs: seq<seq<int>>, sources: seq<nat>, vals: seq<int>, first: bool, row: seq<nat>)
    requires WellFormed(lay) && Matches(lay, inputs) && Carry(lay, inputs, sources, vals) && PairRow(lay.gates, sources, first, row)
    requires |row| % 2 == 0 && (|row| > 0 ==> |sources| > 0) && (!first ==> |row| <= |sources|)
    ensures Carry(lay, inputs, row, RowAfter(vals, first, |row|))
  {
    hide F, Clear, Matches, WellFormed, PairRow, RowAfter;
    var after := RowAfter(vals, first, |row|);
    forall k | 0 <= k < |row| ensures row[k] < |lay.gates| && Clear(lay, inputs, row[k]) == after[k] {
      GateCarries(lay, inputs, sources, vals, first, row, k);
    }
  }

  lemma GateCarries(lay: Layout, inputs: seq<seq<int>>, sources: seq<nat>, vals: seq<int>, first: bool, row: seq<nat>, k: nat)
    requires WellFormed(lay) && Matches(lay, inputs) && Carry(lay, inputs, sources, vals) && PairRow(lay.gates, sources, first, row)
    requires |row| % 2 == 0 && |sources| > 0 && (!first ==> |row| <= |sources|) && k < |row|
    ensures row[k] < |lay.gates| && Clear(lay, inputs, row[k]) == RowAfter(vals, first, |row|)[k]
  {
    hide *;
    var i := k / 2;
    assert k == 2 * i + k % 2 && 2 * i + 1 < |row|;
    PairThere(lay.gates, sources, first, row, i);
    var x, y := SourceAt(sources, first, 2 * i), SourceAt(sources, first, 2 * i + 1);
    PairPlace(lay.gates, row, i, x, y);
    PairValues(lay, inputs, row, i, x, y);
    SourceCarries(lay, inputs, sources, vals, first, 2 * i);
    SourceCarries(lay, inputs, sources, vals, first, 2 * i + 1);
    RowAfterAt(vals, first, |row|, k);
  }

  lemma PairThere(gates: seq<Gate>, sources: seq<nat>, first: bool, row: seq<nat>, i: nat)
    requires PairRow(gates, sources, first, row) && 2 * i + 1 < |row|
    ensures PairAt(gates, row, i, SourceAt(sources, first, 2 * i), SourceAt(sources, first, 2 * i + 1))
  {
    hide PairAt, SourceAt;
  }

  lemma RowAfterAt(vals: seq<int>, first: bool, width: nat, k: nat)
    requires k < width
    ensures var x, y := ValueAt(vals, first, 2 * (k / 2)), ValueAt(vals, first, 2 * (k / 2) + 1);
      RowAfter(vals, first, width)[k] == F((if k % 2 == 0 then x else y) * F(x + y))
  {
    hide F, ValueAt;
  }

  lemma PairPlace(gates: seq<Gate>, row: seq<nat>, i: nat, x: nat, y: nat)
    requires PairAt(gates, row, i, x, y)
    ensures 2 * i + 1 < |row| && row[2 * i] < |gates| && row[2 * i + 1] < |gates|
  {
  }

  lemma SourceCarries(lay: Layout, inputs: seq<seq<int>>, sources: seq<nat>, vals: seq<int>, first: bool, k: nat)
    requires WellFormed(lay) && Matches(lay, inputs) && Carry(lay, inputs, sources, vals) && |sources| > 0 && (!first ==> k < |sources|)
    ensures SourceAt(sources, first, k) < |lay.gates| && Clear(lay, inputs, SourceAt(sources, first, k)) == ValueAt(vals, first, k)
  {
    hide Clear, Matches, WellFormed;
  }

  /** Layer d of a synthetic circuit carries the values of row d. */
  lemma {:induction false} LayerCarries(lay: Layout, inputs: seq<seq<int>>, ids: seq<nat>, vals: seq<int>, width: nat, d: nat)
    requires WellFormed(lay) && Matches(lay, inputs) && Carry(lay, inputs, ids, vals) && |ids| > 0 && width % 2 == 0
    requires PairLayers(lay.gates, ids, lay.mults) && d < |lay.mults| && forall e :: 0 <= e < |lay.mults| ==> |lay.mults[e]| == width
    ensures Carry(lay, inputs, lay.mults[d], RowValues(vals, width, d))
  {
    hide Clear, Matches, WellFormed, PairRow, Carry, RowAfter;
    assert PairRow(lay.gates, SourcesOf(ids, lay.mults, d), d == 0, lay.mults[d]);
    if d > 0 {
      LayerCarries(lay, inputs, ids, vals, width, d - 1);
      RowCarries(lay, inputs, lay.mults[d - 1], RowValues(vals, width, d - 1), false, lay.mults[d]);
    } else {
      RowCarries(lay, inputs, ids, vals, true, lay.mults[0]);
    }
  }

  lemma {:induction false} FlattenPlace(rows: seq<seq<int>>, counts: seq<nat>, c: nat, j: nat)
    requires |rows| == |counts| && (forall i :: 0 <= i < |rows| ==> |rows[i]| == counts[i]) && c < |rows| && j < counts[c]
    ensures |Flatten(rows)| == Sum(counts) && Sum(counts[..c]) + j < |Flatten(rows)| && Flatten(rows)[Sum(counts[..c]) + j] == rows[c][j]
  {
    hide Flatten;
    var last := |rows| - 1;
    FlattenAppend(rows[..last], rows[last]);
    assert rows == rows[..last] + [rows[last]];
    FlattenSum(rows[..last], counts[..last]);
    if c < last {
      FlattenPlace(rows[..last], counts[..last], c, j);
      assert counts[..last][..c] == counts[..c];
    }
  }

  lemma {:induction false} FlattenSum(rows: seq<seq<int>>, counts: seq<nat>)
    requires |rows| == |counts| && forall i :: 0 <= i < |rows| ==> |rows[i]| == counts[i]
    ensures |Flatten(rows)| == Sum(counts)
  {
    hide Flatten;
    if rows == [] {
      FlattenNone<int>();
    } else {
      var last := |rows| - 1;
      FlattenAppend(rows[..last], rows[last]);
      assert rows == rows[..last] + [rows[last]];
      FlattenSum(rows[..last], counts[..last]);
    }
  }

  // ---------------------------------------------------------------- the whole circuit

  /** The inputs carry what the clients put in, client by client. */
  lemma InputsCarry(lay: Layout, inpGates: seq<nat>, inputs: seq<seq<int>>)
    requires WellFormed(lay) && Matches(lay, inputs) && |inpGates| == lay.clients
    requires InputsFirst(lay.gates, inpGates, Sum(inpGates)) && |Ids(lay.gates, AnyInput)| == Sum(inpGates) && InOrder(Ids(lay.gates, AnyInput))
    requires forall c :: 0 <= c < lay.clients ==> |Ids(lay.gates, InputOf(c))| == inpGates[c]
    ensures Carry(lay, inputs, Ids(lay.gates, AnyInput), Elements(Flatten(inputs)))
  {
    hide F, Clear, WellFormed, Ids, Flatten, Sum, InputsFirst;
    FlattenSum(inputs, inpGates);
    forall k | 0 <= k < Sum(inpGates)
      ensures k < |lay.gates| && Clear(lay, inputs, k) == Elements(Flatten(inputs))[k]
    {
      var c, j := PlaceOwner(inpGates, k);
      InputCarries(lay, inpGates, inputs, c, j);
    }
  }

  lemma {:induction false} PlaceOwner(counts: seq<nat>, k: nat) returns (c: nat, j: nat)
    requires k < Sum(counts)
    ensures c < |counts| && j < counts[c] && k == Sum(counts[..c]) + j
  {
    var last := |counts| - 1;
    if k >= Sum(counts[..last]) {
      c, j := last, k - Sum(counts[..last]);
    } else {
      c, j := PlaceOwner(counts[..last], k);
      assert counts[..last][..c] == counts[..c];
    }
  }

  lemma InputCarries(lay: Layout, inpGates: seq<nat>, inputs: seq<seq<int>>, c: nat, j: nat)
    requires WellFormed(lay) && Matches(lay, inputs) && |inpGates| == lay.clients && c < lay.clients && j < inpGates[c]
    requires InputsFirst(lay.gates, inpGates, Sum(inpGates))
    requires forall c :: 0 <= c < lay.clients ==> |Ids(lay.gates, InputOf(c))| == inpGates[c]
    ensures var k := Sum(inpGates[..c]) + j;
      k < |lay.gates| && k < |Flatten(inputs)| && Clear(lay, inputs, k) == F(Flatten(inputs)[k])
  {
    hide F, Clear, WellFormed, Ids, Flatten, Sum, InputsFirst;
    ClientInputs(lay.gates, inpGates, c);
    FlattenPlace(inputs, inpGates, c, j);
    Cleartext.ClearInput(lay, inputs, c, j);
  }

  /** For every configuration that is built: output j of client c, counted over all clients, is entry j modulo the
      width of the last row of values. */
  lemma SyntheticMeaning(circuit: Circuit, config: CircuitConfig, inputs: seq<seq<int>>, c: nat, j: nat)
    requires Passes(config) && FetchOf(config).Fetched? && Synthetic(circuit, config)
    requires Matches(circuit.Shape(), inputs) && c < config.nParties && j < config.outGates[c]
    ensures config.width > 0 && config.depth > 0 && j < |Parties.ClearOutputs(circuit.Shape(), inputs, c)|
    ensures Parties.ClearOutputs(circuit.Shape(), inputs, c)[j] ==
      RowValues(Elements(Flatten(inputs)), config.width, config.depth - 1)[(Sum(config.outGates[..c]) + j) % config.width]
  {
    hide F, Clear, WellFormed, Ids, Flatten, Sum, InputsFirst, OutputsRound, PairLayers, Circuit.Valid, RowValues, Carry, Layered, PlainSums, InOrder, Matches;
    var lay := circuit.Shape();
    var vals := Elements(Flatten(inputs));
    PlaceBelow(config.outGates, c, j);
    InputsCarry(lay, config.inpGates, inputs);
    EvenWidth(config.width, Sum(config.inpGates));
    LayerCarries(lay, inputs, Ids(lay.gates, AnyInput), vals, config.width, config.depth - 1);
    var row := lay.mults[config.depth - 1];
    ClientOutput(lay.gates, config.outGates, row, c);
    var g, at := Ids(lay.gates, OutputOf(c))[j], (Sum(config.outGates[..c]) + j) % config.width;
    Cleartext.ClearGate(lay, inputs, g);
    CarriedAt(lay, inputs, row, RowValues(vals, config.width, config.depth - 1), at);
  }

  lemma CarriedAt(lay: Layout, inputs: seq<seq<int>>, gates: seq<nat>, vals: seq<int>, k: nat)
    requires WellFormed(lay) && Matches(lay, inputs) && Carry(lay, inputs, gates, vals) && k < |gates|
    ensures |vals| == |gates| && gates[k] < |lay.gates| && Clear(lay, inputs, gates[k]) == vals[k]
  {
    hide Clear, WellFormed, Matches;
  }
}
