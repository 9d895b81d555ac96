/** First-in first-out channels between every ordered pair of parties. */
module Channels {

  class Network {
    const parties: nat
    const chan: array2<seq<int>>

    ghost predicate Valid() {
      chan.Length0 == parties && chan.Length1 == parties
    }

    constructor (n: nat)
      ensures Valid() && parties == n && fresh(chan)
      ensures forall i, j :: 0 <= i < n && 0 <= j < n ==> chan[i, j] == []
    {
      parties := n;
      chan := new seq<int>[n, n]((_, _) => []);
    }

    /** Party i sends v to party j. */
    method Send(i: nat, j: nat, v: int)
      requires Valid() && i < parties && j < parties
      modifies chan
      ensures chan[i, j] == old(chan[i, j]) + [v]
      ensures forall a, b :: 0 <= a < parties && 0 <= b < parties && (a, b) != (i, j) ==> chan[a, b] == old(chan[a, b])
    {
      chan[i, j] := chan[i, j] + [v];
    }

    /** Party j receives from party i; the channel must hold something. */
    method Recv(i: nat, j: nat) returns (v: int)
      requires Valid() && i < parties && j < parties && chan[i, j] != []
      modifies chan
      ensures v == old(chan[i, j])[0] && chan[i, j] == old(chan[i, j])[1..]
      ensures forall a, b :: 0 <= a < parties && 0 <= b < parties && (a, b) != (i, j) ==> chan[a, b] == old(chan[a, b])
    {
      v := chan[i, j][0];
      chan[i, j] := chan[i, j][1..];
    }
  }
}
