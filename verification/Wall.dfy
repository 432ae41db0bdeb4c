/** Geometry of the wall: which index each dead-wall draw takes, and what a set of indices holds. */
module Wall {
  import opened Tiles

  /** Wall index taken by the k-th draw from the back: top of each two-tile stack first, then the bottom. */
  function DeadIndex(n: nat, k: nat): int {
    var stackOffset := (k / 2) * 2;
    if k % 2 == 1 then n - 1 - stackOffset else n - 2 - stackOffset
  }

  /** Stack by stack from the back, an even draw takes the top and an odd one the bottom. */
  lemma DeadIndexClosed(n: nat, k: nat)
    ensures DeadIndex(n, k) == if k % 2 == 0 then n - 2 - k else n - k
  {
  }

  /** The indices the first d dead-wall draws have passed: a tail of the wall, minus one bottom tile when d is odd. */
  predicate Consumed(n: nat, d: nat, i: int) {
    if d % 2 == 0 then n - d <= i < n
    else i == n - 1 - d || n - d < i < n
  }

  /** The closed form is the set the draw order enumerates, and no index comes up twice. */
  lemma ConsumedIsDrawOrder(n: nat, d: nat, i: int)
    ensures Consumed(n, d, i) <==> exists k: nat | k < d :: DeadIndex(n, k) == i
    ensures forall j: nat, k: nat | j < k < d :: DeadIndex(n, j) != DeadIndex(n, k)
  {
    if Consumed(n, d, i) {
      var k: nat := if (n - 1 - i) % 2 == 0 then n - i else n - 2 - i;
      assert k < d && DeadIndex(n, k) == i;
    }
  }

  /** The engine's scan over all past dead-wall draws. */
  method IsTileConsumedByDeadWall(n: nat, d: nat, target: int) returns (consumed: bool)
    ensures consumed <==> Consumed(n, d, target)
  {
    for k := 0 to d
      invariant !Consumed(n, k, target)
    {
      var stackOffset := (k / 2) * 2;
      var drawIndex: int;
      if k % 2 == 1 {
        drawIndex := n - 1 - stackOffset;
      } else {
        drawIndex := n - 2 - stackOffset;
      }
      if drawIndex == target {
        ConsumedIsDrawOrder(n, d, target);
        assert DeadIndex(n, k) == target;
        return true;
      }
    }
    return false;
  }

  /** The tiles lying at the indices of S from lo on. */
  ghost function TilesAt(wall: seq<TileId>, S: set<int>, lo: nat): multiset<TileId>
    requires lo <= |wall|
    decreases |wall| - lo
  {
    if lo == |wall| then multiset{}
    else (if lo in S then multiset{wall[lo]} else multiset{}) + TilesAt(wall, S, lo + 1)
  }

  lemma {:induction false} TilesAtRemove(wall: seq<TileId>, S: set<int>, i: int, lo: nat)
    requires lo <= |wall|
    requires i in S && i < |wall|
    ensures TilesAt(wall, S, lo) == TilesAt(wall, S - {i}, lo) + (if i >= lo then multiset{wall[i]} else multiset{})
    decreases |wall| - lo
  {
    if lo < |wall| {
      TilesAtRemove(wall, S, i, lo + 1);
    }
  }

  lemma {:induction false} TilesAtSuffix(wall: seq<TileId>, S: set<int>, lo: nat)
    requires lo <= |wall| && forall i | lo <= i < |wall| :: i in S
    ensures TilesAt(wall, S, lo) == multiset(wall[lo..])
    decreases |wall| - lo
  {
    if lo < |wall| {
      TilesAtSuffix(wall, S, lo + 1);
      assert wall[lo..] == [wall[lo]] + wall[lo + 1..];
    }
  }

  lemma {:induction false} TilesAtSkip(wall: seq<TileId>, S: set<int>, lo: nat, from: nat)
    requires lo <= from <= |wall| && forall i | lo <= i < from :: i !in S
    ensures TilesAt(wall, S, lo) == TilesAt(wall, S, from)
    decreases from - lo
  {
    if lo < from {
      TilesAtSkip(wall, S, lo + 1, from);
    }
  }

  lemma {:induction false} TilesAtSplit(wall: seq<TileId>, big: set<int>, small: set<int>, lo: nat)
    requires lo <= |wall| && small <= big
    ensures TilesAt(wall, big, lo) == TilesAt(wall, small, lo) + TilesAt(wall, big - small, lo)
    decreases |wall| - lo
  {
    if lo < |wall| {
      TilesAtSplit(wall, big, small, lo + 1);
    }
  }
}
