/** Cleartext evaluation with memoised gates, and the protocol compared with it. */
module Cleartext {
  import opened Modular
  import opened Scl
  import opened Sequences
  import opened PackedSharing
  import opened Circuits
  import opened Wiring
  import opened Dealing
  import opened Masking
  import opened Triples
  import opened Parties
  import opened Building
  import opened TurboPack

  /** The clear values that gates remember. */
  class Evaluation {
    const lay: Layout
    var clear: map<nat, int>

    constructor (lay: Layout)
      ensures this.lay == lay && clear == map[]
    {
      this.lay, clear := lay, map[];
    }

    /** Every remembered value is the value of its gate. */
    ghost predicate ClearTrue(inputs: seq<seq<int>>)
      requires WellFormed(lay) && Matches(lay, inputs)
      reads this
    {
      forall g :: g in clear ==> g < |lay.gates| && clear[g] == Clear(lay, inputs, g)
    }

    ghost predicate InputsKnown(c: nat)
      reads this
    {
      forall g :: 0 <= g < |lay.gates| && lay.gates[g].InputGate? && lay.gates[g].owner < c ==> g in clear
    }

    /** One value for every input gate of every client. */
    method SetClearInputs(inputsPerClient: seq<seq<int>>) returns (ok: bool)
      requires WellFormed(lay) && clear == map[]
      modifies this`clear
      ensures ok <==> Matches(lay, inputsPerClient)
      ensures ok ==> ClearTrue(inputsPerClient) && InputsKnown(lay.clients)
    {
      hide Ids, Clear, WellFormed;
      if |inputsPerClient| != lay.clients {
        return false;
      }
      ghost var all := Matches(lay, inputsPerClient);
      for i := 0 to lay.clients
        invariant all ==> ClearTrue(inputsPerClient) && InputsKnown(i)
        invariant forall c :: 0 <= c < i ==> |inputsPerClient[c]| == |Ids(lay.gates, InputOf(c))|
      {
        var flat := Ids(lay.gates, InputOf(i));
        if |inputsPerClient[i]| != |flat| {
          return false;
        }
        for j := 0 to |inputsPerClient[i]|
          invariant all ==> ClearTrue(inputsPerClient) && InputsKnown(i)
          invariant forall m :: 0 <= m < j ==> flat[m] in clear
        {
          if all {
            ClearInput(lay, inputsPerClient, i, j);
          }
          clear := clear[flat[j] := F(inputsPerClient[i][j])];
        }
        InputsStep(i);
      }
      ok := true;
    }

    lemma InputsStep(c: nat)
      ensures (forall i :: 0 <= i < |Ids(lay.gates, InputOf(c))| ==> Ids(lay.gates, InputOf(c))[i] in clear) && InputsKnown(c)
        ==> InputsKnown(c + 1)
    {
      hide Ids;
      forall g | 0 <= g < |lay.gates| && lay.gates[g] == InputGate(c) ensures g in Ids(lay.gates, InputOf(c)) {
        IdsComplete(lay.gates, InputOf(c), g);
      }
    }

    method GetClear(g: nat, ghost inputs: seq<seq<int>>) returns (v: int)
      requires WellFormed(lay) && Matches(lay, inputs) && ClearTrue(inputs) && InputsKnown(lay.clients) && g < |lay.gates|
      modifies this`clear
      ensures v == Clear(lay, inputs, g) && ClearTrue(inputs) && InputsKnown(lay.clients)
      decreases g
    {
      hide Ids, Matches, Clear, WellFormed;
      if g in clear {
        return clear[g];
      }
      ClearGate(lay, inputs, g);
      match lay.gates[g] {
        case AddGate(l, r) =>
          var a := GetClear(l, inputs);
          var b := GetClear(r, inputs);
          v := F(a + b);
        case MultGate(l, r) =>
          var a := GetClear(l, inputs);
          var b := GetClear(r, inputs);
          v := F(a * b);
        case OutputGate(_, s) =>
          v := GetClear(s, inputs);
        case InputGate(_) =>
          assert false;
      }
      clear := clear[g := v];
    }

    method GetClearOutputs(ghost inputs: seq<seq<int>>) returns (output: seq<seq<int>>)
      requires WellFormed(lay) && Matches(lay, inputs) && ClearTrue(inputs) && InputsKnown(lay.clients)
      modifies this`clear
      ensures |output| == lay.clients && forall c :: 0 <= c < lay.clients ==> output[c] == ClearOutputs(lay, inputs, c)
    {
      hide Ids, Clear, WellFormed;
      output := [];
      for i := 0 to lay.clients
        invariant ClearTrue(inputs) && InputsKnown(lay.clients)
        invariant |output| == i && forall c :: 0 <= c < i ==> output[c] == ClearOutputs(lay, inputs, c)
      {
        var flat := Ids(lay.gates, OutputOf(i));
        var row: seq<int> := [];
        for j := 0 to |flat|
          invariant ClearTrue(inputs) && InputsKnown(lay.clients)
          invariant row == ClearOutputs(lay, inputs, i)[..j]
        {
          var v := GetClear(flat[j], inputs);
          row := row + [v];
        }
        output := output + [row];
      }
    }
  }

  /** The comparison at the end of an experiment, for every closed layered circuit in which no
      addition reads an output gate: a run that is not refused gives every client exactly what the
      evaluation in the clear gives. */
  method Compare(circuit: Circuit, t: nat, draws: seq<Draws>, inputs: seq<seq<int>>)
    returns (r: Run, result: seq<seq<int>>)
    requires IsPrime(P61) && circuit.Valid() && circuit.stage == Finished && circuit.inputsClosed && circuit.isClosed
    requires WellFormed(circuit.Shape()) && Layered(circuit.Shape())
    requires circuit.clients > 0 && circuit.clients + circuit.batchSize <= P61 && |inputs| == circuit.clients
    requires Sizes(circuit.clients, circuit.batchSize, t) ==> AllDrawn(AmountsOf(circuit.Shape(), t), draws)
    ensures r.Outputs? <==> Sizes(circuit.clients, circuit.batchSize, t) && Matches(circuit.Shape(), inputs)
    ensures r.Outputs? && PlainSums(circuit.gates) ==> r.values == result
  {
    hide Ids, WellFormed, Layered, AllDrawn, Circuit.Valid, Matches, Evaluation.ClearTrue, Evaluation.InputsKnown, PlainSums;
    circuit.FinishedShape();
    ghost var lay := circuit.Shape();
    var layout := Layout(circuit.gates, circuit.clients, circuit.batchSize, circuit.flatMults[..|circuit.multLayers|]);
    assert layout == lay;
    var eval := new Evaluation(layout);
    var ok := eval.SetClearInputs(inputs);
    result := [];
    if ok {
      result := eval.GetClearOutputs(inputs);
    }
    r := Execute(layout, t, draws, inputs);
  }

  /** How a gate's value follows from its parents. */
  lemma ClearGate(lay: Layout, inputs: seq<seq<int>>, g: nat)
    requires WellFormed(lay) && Matches(lay, inputs) && g < |lay.gates|
    ensures lay.gates[g].AddGate? ==>
      (lay.gates[g].left < g && lay.gates[g].right < g
      && Clear(lay, inputs, g) == F(Clear(lay, inputs, lay.gates[g].left) + Clear(lay, inputs, lay.gates[g].right)))
    ensures lay.gates[g].MultGate? ==>
      (lay.gates[g].left < g && lay.gates[g].right < g
      && Clear(lay, inputs, g) == F(Clear(lay, inputs, lay.gates[g].left) * Clear(lay, inputs, lay.gates[g].right)))
    ensures lay.gates[g].OutputGate? ==>
      lay.gates[g].src < g && Clear(lay, inputs, g) == Clear(lay, inputs, lay.gates[g].src)
    ensures lay.gates[g].InputGate? ==> lay.gates[g].owner < lay.clients
  {
    hide Ids, F, Matches;
  }

  lemma ClearInput(lay: Layout, inputs: seq<seq<int>>, c: nat, i: nat)
    requires WellFormed(lay) && Matches(lay, inputs) && c < lay.clients && i < |Ids(lay.gates, InputOf(c))|
    ensures Clear(lay, inputs, Ids(lay.gates, InputOf(c))[i]) == F(inputs[c][i])
  {
    hide F, Ids;
    var flat := Ids(lay.gates, InputOf(c));
    assert Is(lay.gates[flat[i]], InputOf(c));
    PositionUnique(flat, i);
  }
}
