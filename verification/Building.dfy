/** Building circuits gate by gate: batches grow, layers are closed with padding, and the
    synthetic circuits are layered. */
module Building {
  import opened Scl
  import opened Sequences
  import opened Circuits
  import opened Wiring
  import opened Masking

  // ---------------------------------------------------------------- growing batches

  function Reals(ids: seq<nat>): (r: seq<Member>)
    ensures |r| == |ids|
  {
    seq(|ids|, i requires 0 <= i < |ids| => Real(ids[i]))
  }

  function Pads(m: nat): (r: seq<Member>)
    ensures |r| == m
  {
    seq(m, _ => Padding)
  }

  /** The batches of an open layer: all but the last are full. */
  function Open(k: nat, flat: seq<nat>): (r: seq<seq<Member>>)
    requires k > 0
    ensures |r| > 0 && |r[|r| - 1]| <= k
  {
    if |flat| <= k then [Reals(flat)] else [Reals(flat[..k])] + Open(k, flat[k..])
  }

  /** A new gate goes to the last batch if it has room, and to a new batch otherwise. */
  lemma {:induction false} OpenAppend(k: nat, flat: seq<nat>, x: nat)
    requires k > 0
    ensures var o := Open(k, flat);
            var last := o[|o| - 1];
            Open(k, flat + [x]) == if |last| < k then o[..|o| - 1] + [last + [Real(x)]] else o + [[Real(x)]]
  {
    var o := Open(k, flat);
    if |flat| < k {
      assert Reals(flat + [x]) == Reals(flat) + [Real(x)];
    } else if |flat| == k {
      OpenFull(k, flat, x);
    } else {
      OpenAppend(k, flat[k..], x);
      assert (flat + [x])[..k] == flat[..k] && (flat + [x])[k..] == flat[k..] + [x];
    }
  }

  lemma OpenFull(k: nat, flat: seq<nat>, x: nat)
    requires |flat| == k > 0
    ensures Open(k, flat) == [Reals(flat)] && Open(k, flat + [x]) == [Reals(flat)] + [[Real(x)]]
  {
    assert (flat + [x])[..k] == flat && (flat + [x])[k..] == [x];
    assert Reals([x]) == [Real(x)];
    assert Open(k, [x]) == [Reals([x])];
  }

  /** Padding the last batch closes the layer. */
  lemma {:induction false} ClosePads(k: nat, flat: seq<nat>)
    requires k > 0
    ensures var o := Open(k, flat);
            var last := o[|o| - 1];
            Batches(k, flat) == o[..|o| - 1] + [last + Pads(k - |last|)]
  {
    if |flat| <= k {
      assert Batches(k, flat)[0] == Reals(flat) + Pads(k - |flat|);
    } else {
      ClosePads(k, flat[k..]);
      assert seq(k, i requires 0 <= i < k => Real(flat[i])) == Reals(flat[..k]);
    }
  }

  /** Appending to a batch; a batch of k members takes no more. */
  method AppendToBatch(k: nat, batch: seq<Member>, gate: nat) returns (ok: bool, r: seq<Member>)
    ensures ok <==> |batch| != k
    ensures r == if ok then batch + [Real(gate)] else batch
  {
    if |batch| == k {
      return false, batch;
    }
    return true, batch + [Real(gate)];
  }

  /** The batches of an open layer for which any batch size has been given. */
  function Opened(k: nat, flat: seq<nat>): (r: seq<seq<Member>>)
    ensures |r| > 0
  {
    if k == 0 then [[]] else Open(k, flat)
  }

  /** Appending to a layer; with batches of size 0 there is never room. */
  method AppendToLayer(k: nat, batches: seq<seq<Member>>, gate: nat, ghost flat: seq<nat>)
    returns (ok: bool, r: seq<seq<Member>>)
    requires batches == Opened(k, flat)
    ensures ok <==> k > 0
    ensures ok ==> r == Open(k, flat + [gate])
    ensures !ok ==> r == batches
  {
    if k > 0 {
      OpenAppend(k, flat, gate);
    }
    var last := batches[|batches| - 1];
    if |last| < k {
      ok, last := AppendToBatch(k, last, gate);
      r := batches[..|batches| - 1] + [last];
    } else {
      var batch;
      ok, batch := AppendToBatch(k, [], gate);
      assert [] + [Real(gate)] == [Real(gate)];
      r := if ok then batches + [batch] else batches;
    }
  }

  /** Padding gates fill the last batch. */
  method CloseLayer(k: nat, batches: seq<seq<Member>>, ghost flat: seq<nat>) returns (r: seq<seq<Member>>)
    requires k > 0 && batches == Open(k, flat)
    ensures r == Batches(k, flat)
  {
    var last := batches[|batches| - 1];
    ghost var start := last;
    while |last| < k
      invariant |start| <= |last| <= k && last == start + Pads(|last| - |start|)
    {
      last := last + [Padding];
    }
    ClosePads(k, flat);
    r := batches[..|batches| - 1] + [last];
  }

  // ---------------------------------------------------------------- gates in creation order

  lemma IdsAppend(gates: seq<Gate>, g: Gate, kind: Kind)
    ensures Ids(gates + [g], kind) == Ids(gates, kind) + if Is(g, kind) then [|gates|] else []
  {
    assert (gates + [g])[..|gates|] == gates;
  }

  /** All layers but the last are closed; with the last closed no layer is open. */
  datatype Stage = Growing | Finished

  class Circuit {
    const clients: nat
    const batchSize: nat
    var gates: seq<Gate>
    var inputLayers: seq<seq<seq<Member>>>
    var outputLayers: seq<seq<seq<Member>>>
    var multLayers: seq<seq<seq<Member>>>
    var flatInputs: seq<seq<nat>>
    var flatOutputs: seq<seq<nat>>
    var flatMults: seq<seq<nat>>
    var inputGates: seq<nat>
    var size: nat
    var width: nat
    var inputsClosed: bool
    var isClosed: bool
    var stage: Stage

    ghost predicate Valid()
      reads this
    {
      && batchSize > 0 && Ordered(gates, clients)
      && inputGates == Ids(gates, AnyInput)
      && |flatInputs| == |inputLayers| == |flatOutputs| == |outputLayers| == clients
      && (forall c :: 0 <= c < clients ==> flatInputs[c] == Ids(gates, InputOf(c)))
      && (forall c :: 0 <= c < clients ==> flatOutputs[c] == Ids(gates, OutputOf(c)))
      && (forall c :: 0 <= c < clients ==> LayerHolds(inputLayers[c], flatInputs[c], inputsClosed))
      && (forall c :: 0 <= c < clients ==> LayerHolds(outputLayers[c], flatOutputs[c], isClosed))
      && MultsHold(Ids(gates, AnyMult))
    }

    ghost predicate LayerHolds(batches: seq<seq<Member>>, flat: seq<nat>, closed: bool) {
      batchSize > 0 && batches == if closed then Batches(batchSize, flat) else Open(batchSize, flat)
    }

    /** Every multiplication is in one layer, in creation order; closed layers are padded. */
    ghost predicate MultsHold(ids: seq<nat>)
      reads this`flatMults, this`multLayers, this`size, this`stage
    {
      && Flatten(flatMults) == ids && size == |ids|
      && |multLayers| > 0
      && |flatMults| == |multLayers| + (if stage == Finished then 1 else 0)
      && (stage == Finished ==> flatMults[|multLayers|] == [])
      && (forall d :: 0 <= d < |multLayers| ==>
            LayerHolds(multLayers[d], flatMults[d], stage == Finished || d + 1 < |multLayers|))
    }

    /** The circuit as a value. */
    ghost function Shape(): Layout
      requires |multLayers| <= |flatMults|
      reads this
    {
      Layout(gates, clients, batchSize, flatMults[..|multLayers|])
    }

    constructor (nClients: nat, k: nat)
      requires k > 0
      ensures Valid() && clients == nClients && batchSize == k && gates == [] && flatMults == [[]]
      ensures stage == Growing && !inputsClosed && !isClosed && size == 0 && width == 0
    {
      clients, batchSize := nClients, k;
      gates, inputGates, size, width := [], [], 0, 0;
      inputLayers := seq(nClients, _ => [[]]);
      outputLayers := seq(nClients, _ => [[]]);
      flatInputs := seq(nClients, _ => []);
      flatOutputs := seq(nClients, _ => []);
      multLayers := [[[]]];
      flatMults := [[]];
      inputsClosed, isClosed, stage := false, false, Growing;
      new;
      assert Open(k, []) == [[]] by { assert Reals([]) == []; }
      assert Flatten<nat>([[]]) == [] by { FlattenHead<nat>([[]]); FlattenNone<nat>(); }
    }

    /** An input gate of one client. */
    method Input(owner: nat) returns (gate: nat)
      requires Valid() && owner < clients && !inputsClosed
      modifies this`gates, this`inputLayers, this`flatInputs, this`inputGates
      ensures Valid() && gate == |old(gates)| && gates == old(gates) + [InputGate(owner)] && inputGates == old(inputGates) + [gate]
    {
      hide Open, Batches, Ids, Flatten, Ordered;
      AppendKinds(gates, InputGate(owner));
      OrderedAppend(gates, clients, InputGate(owner));
      gate := |gates|;
      var ok, layer := AppendToLayer(batchSize, inputLayers[owner], gate, flatInputs[owner]);
      inputLayers := inputLayers[owner := layer];
      flatInputs := flatInputs[owner := flatInputs[owner] + [gate]];
      inputGates := inputGates + [gate];
      gates := gates + [InputGate(owner)];
    }

    /** An output gate of one client. */
    method Output(owner: nat, src: nat) returns (gate: nat)
      requires Valid() && owner < clients && !isClosed && src < |gates|
      modifies this`gates, this`outputLayers, this`flatOutputs
      ensures Valid() && gate == |old(gates)| && gates == old(gates) + [OutputGate(owner, src)]
    {
      hide Open, Batches, Ids, Flatten, Ordered;
      AppendKinds(gates, OutputGate(owner, src));
      OrderedAppend(gates, clients, OutputGate(owner, src));
      gate := |gates|;
      var ok, layer := AppendToLayer(batchSize, outputLayers[owner], gate, flatOutputs[owner]);
      outputLayers := outputLayers[owner := layer];
      flatOutputs := flatOutputs[owner := flatOutputs[owner] + [gate]];
      gates := gates + [OutputGate(owner, src)];
    }

    method Add(left: nat, right: nat) returns (gate: nat)
      requires Valid() && left < |gates| && right < |gates|
      modifies this`gates
      ensures Valid() && gate == |old(gates)| && gates == old(gates) + [AddGate(left, right)]
    {
      hide Open, Batches, Ids, Flatten, Ordered;
      AppendKinds(gates, AddGate(left, right));
      OrderedAppend(gates, clients, AddGate(left, right));
      gate := |gates|;
      gates := gates + [AddGate(left, right)];
    }

    /** A multiplication goes to the current layer. */
    method Mult(left: nat, right: nat) returns (gate: nat)
      requires Valid() && stage == Growing
      requires left < |gates| && right < |gates|
      modifies this`gates, this`multLayers, this`flatMults, this`size
      ensures Valid() && gate == |old(gates)| && gates == old(gates) + [MultGate(left, right)]
      ensures flatMults == old(flatMults)[..|old(flatMults)| - 1] + [old(flatMults)[|old(flatMults)| - 1] + [gate]]
    {
      hide Open, Batches, Ids, Flatten, Ordered;
      AppendKinds(gates, MultGate(left, right));
      OrderedAppend(gates, clients, MultGate(left, right));
      hide MultsHold;
      gate := |gates|;
      PushMult(gate, Ids(gates, AnyMult));
      gates := gates + [MultGate(left, right)];
    }

    method PushMult(gate: nat, ghost ids: seq<nat>)
      requires batchSize > 0 && MultsHold(ids) && stage == Growing
      modifies this`multLayers, this`flatMults, this`size
      ensures MultsHold(ids + [gate]) && |old(flatMults)| > 0
      ensures flatMults == old(flatMults)[..|old(flatMults)| - 1] + [old(flatMults)[|old(flatMults)| - 1] + [gate]]
    {
      hide Open, Batches, Flatten;
      var last := |multLayers| - 1;
      var ok, layer := AppendToLayer(batchSize, multLayers[last], gate, flatMults[last]);
      multLayers := multLayers[..last] + [layer];
      FlattenLast(flatMults, gate);
      flatMults := flatMults[..last] + [flatMults[last] + [gate]];
      size := size + 1;
    }

    /** Closes the current layer and opens the next one. */
    method NewLayer()
      requires Valid() && stage == Growing
      modifies this`multLayers, this`flatMults, this`width
      ensures Valid() && flatMults == old(flatMults) + [[]]
      ensures width == if old(width) < |old(flatMults)[|old(flatMults)| - 1]| then |old(flatMults)[|old(flatMults)| - 1]| else old(width)
    {
      hide Open, Batches, Ids, Flatten;
      var last := |flatMults| - 1;
      if width < |flatMults[last]| {
        width := |flatMults[last]|;
      }
      FlattenAppend(flatMults, []);
      flatMults := flatMults + [[]];
      var layer := CloseLayer(batchSize, multLayers[last], flatMults[last]);
      OpenNone(batchSize);
      multLayers := multLayers[..last] + [layer] + [[[]]];
    }

    /** Closes the current layer; no layer is open afterwards. */
    method LastLayer()
      requires Valid() && stage == Growing
      modifies this`multLayers, this`flatMults, this`width, this`stage
      ensures Valid() && stage == Finished && flatMults == old(flatMults) + [[]]
      ensures width == if old(width) < |old(flatMults)[|old(flatMults)| - 1]| then |old(flatMults)[|old(flatMults)| - 1]| else old(width)
    {
      hide Open, Batches, Ids, Flatten, Ordered;
      var last := |flatMults| - 1;
      if width < |flatMults[last]| {
        width := |flatMults[last]|;
      }
      FlattenAppend(flatMults, []);
      flatMults := flatMults + [[]];
      var layer := CloseLayer(batchSize, multLayers[last], flatMults[last]);
      multLayers := multLayers[..last] + [layer];
      stage := Finished;
    }

    /** Pads the input batches of every client. */
    method CloseInputs()
      requires Valid() && !inputsClosed
      modifies this`inputLayers, this`inputsClosed
      ensures Valid() && inputsClosed
    {
      hide Open, Batches, Ids, Flatten;
      for c := 0 to clients
        invariant |inputLayers| == clients && !inputsClosed
        invariant forall i :: 0 <= i < clients ==> LayerHolds(inputLayers[i], flatInputs[i], i < c)
      {
        var layer := CloseLayer(batchSize, inputLayers[c], flatInputs[c]);
        inputLayers := inputLayers[c := layer];
      }
      inputsClosed := true;
    }

    /** Pads the output batches of every client; the circuit is closed. */
    method CloseOutputs()
      requires Valid() && !isClosed
      modifies this`outputLayers, this`isClosed
      ensures Valid() && isClosed
    {
      hide Open, Batches, Ids, Flatten;
      for c := 0 to clients
        invariant |outputLayers| == clients && !isClosed
        invariant forall i :: 0 <= i < clients ==> LayerHolds(outputLayers[i], flatOutputs[i], i < c)
      {
        var layer := CloseLayer(batchSize, outputLayers[c], flatOutputs[c]);
        outputLayers := outputLayers[c := layer];
      }
      isClosed := true;
    }

    /** A finished circuit is a well-formed layout, and its batches are the layout's. */
    lemma FinishedShape()
      requires Valid() && stage == Finished
      ensures |multLayers| <= |flatMults| && WellFormed(Shape())
      ensures forall d :: 0 <= d < |multLayers| ==> multLayers[d] == Batches(batchSize, Shape().mults[d])
      ensures inputsClosed ==> forall c :: 0 <= c < clients ==> inputLayers[c] == Batches(batchSize, Ids(gates, InputOf(c)))
      ensures isClosed ==> forall c :: 0 <= c < clients ==> outputLayers[c] == Batches(batchSize, Ids(gates, OutputOf(c)))
    {
      hide Open, Batches, Ids, Flatten;
      var m := |multLayers|;
      FlattenAppend(flatMults[..m], flatMults[m]);
      assert flatMults == flatMults[..m] + [flatMults[m]];
      assert Flatten(flatMults[..m]) + [] == Flatten(flatMults[..m]);
    }
  }

  lemma OpenNone(k: nat)
    requires k > 0
    ensures Open(k, []) == [[]]
  {
    assert Reals([]) == [];
  }

  lemma FlattenLast(rows: seq<seq<nat>>, x: nat)
    requires |rows| > 0
    ensures Flatten(rows[..|rows| - 1] + [rows[|rows| - 1] + [x]]) == Flatten(rows) + [x]
  {
    hide Flatten;
    var m := |rows| - 1;
    FlattenAppend(rows[..m], rows[m]);
    FlattenAppend(rows[..m], rows[m] + [x]);
    assert rows[..m] + [rows[m]] == rows;
    ConcatAssoc(Flatten(rows[..m]), rows[m], [x]);
  }

  predicate Fits(gates: seq<Gate>, clients: nat, g: Gate) {
    match g
    case InputGate(c) => c < clients
    case AddGate(l, r) => l < |gates| && r < |gates|
    case MultGate(l, r) => l < |gates| && r < |gates|
    case OutputGate(c, s) => c < clients && s < |gates|
  }

  lemma OrderedAppend(gates: seq<Gate>, clients: nat, g: Gate)
    requires Ordered(gates, clients) && Fits(gates, clients, g)
    ensures Ordered(gates + [g], clients)
  {
  }

  /** Where a new gate is listed. */
  lemma AppendKinds(gates: seq<Gate>, g: Gate)
    ensures forall kind: Kind :: Ids(gates + [g], kind) == Ids(gates, kind) + if Is(g, kind) then [|gates|] else []
  {
    hide Ids;
    forall kind: Kind ensures Ids(gates + [g], kind) == Ids(gates, kind) + if Is(g, kind) then [|gates|] else [] {
      IdsAppend(gates, g, kind);
    }
  }
}
