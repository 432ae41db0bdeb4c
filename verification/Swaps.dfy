/** Exchanging two tiles, the step every shuffle is made of. */
module Swaps {
  import opened Tiles

  function Swap(ts: seq<TileId>, i: nat, j: nat): (r: seq<TileId>)
    requires i < |ts| && j < |ts|
    ensures |r| == |ts| && multiset(r) == multiset(ts)
  {
    ts[i := ts[j]][j := ts[i]]
  }

  method SwapAt(ts: array<TileId>, i: nat, j: nat)
    requires i < ts.Length && j < ts.Length
    modifies ts
    ensures ts[..] == Swap(old(ts[..]), i, j)
  {
    ts[i], ts[j] := ts[j], ts[i];
  }
}
