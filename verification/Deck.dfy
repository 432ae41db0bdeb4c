/** The full set in id order, and its shuffle by a fixed block of random words. */
module Deck {
  import opened Tiles
  import opened HandSteps
  import opened HandStart
  import opened Swaps

  type Word = w: int | 0 <= w < 0x1_0000_0000

  const RND_WORDS := 144

  /** A tile as the rule engine builds it. */
  datatype Tile = Tile(id: nat, suit: Suit, value: nat)

  /** The built set is in id order and each tile has the face its id stands for. */
  predicate InIdOrder(wall: seq<Tile>) {
    forall i | 0 <= i < |wall| :: i < TILES && wall[i] == Tile(i, FaceOf(i).suit, FaceOf(i).value)
  }

  method AppendCopies(wall: seq<Tile>, suit: Suit, values: nat, copies: nat) returns (r: seq<Tile>)
    requires copies > 0 && InIdOrder(wall) && |wall| + values * copies <= TILES
    requires forall v: nat, i: nat | 1 <= v <= values && i < copies :: FaceAt(|wall|, copies, suit, v, i)
    ensures InIdOrder(r) && |r| == |wall| + values * copies
  {
    r := wall;
    var v := 1;
    while v <= values
      invariant 1 <= v <= values + 1 && InIdOrder(r) && |r| == |wall| + (v - 1) * copies
    {
      var i := 0;
      while i < copies
        invariant 0 <= i <= copies && InIdOrder(r) && |r| == |wall| + (v - 1) * copies + i
      {
        assert FaceAt(|wall|, copies, suit, v, i);
        Within(v, values, copies, i);
        r := r + [Tile(|r|, suit, v)];
        i := i + 1;
      }
      assert v * copies == (v - 1) * copies + copies;
      v := v + 1;
    }
  }

  lemma Within(v: nat, values: nat, copies: nat, i: nat)
    requires 1 <= v <= values && i < copies
    ensures (v - 1) * copies + i < values * copies
  {
    assert v * copies <= values * copies;
    assert v * copies == (v - 1) * copies + copies;
  }

  /** Copy i of value v in a run of a suit that starts at id from. */
  predicate FaceAt(from: nat, copies: nat, suit: Suit, v: nat, i: nat) {
    var id := from + (v - 1) * copies + i;
    0 <= id < TILES ==> FaceOf(id) == Face(suit, v)
  }

  /** Sou, man and pin in fours, the seven honours in fours, the eight flowers once. */
  method GetInitialWall() returns (wall: seq<Tile>)
    ensures |wall| == TILES && InIdOrder(wall)
  {
    wall := AppendCopies([], Sou, 9, 4);
    wall := AppendCopies(wall, Man, 9, 4);
    wall := AppendCopies(wall, Pin, 9, 4);
    wall := AppendCopies(wall, Jihai, 7, 4);
    wall := AppendCopies(wall, Flower, 8, 1);
  }

  // ---- The shuffle ----

  /** Which of the positions from k on step k takes. */
  function Choice(rnd: seq<Word>, n: nat, k: nat): (c: nat)
    requires k < |rnd| && k < n
    ensures c < n - k
  {
    rnd[k] % (n - k)
  }

  /** The first i steps: step k swaps position k with one at or after it. */
  function ShuffledBy(s: seq<TileId>, rnd: seq<Word>, i: nat): (r: seq<TileId>)
    requires i <= |rnd| && i <= |s|
    ensures |r| == |s| && multiset(r) == multiset(s)
  {
    if i == 0 then s
    else Swap(ShuffledBy(s, rnd, i - 1), i - 1, i - 1 + Choice(rnd, |s|, i - 1))
  }

  function Shuffled(s: seq<TileId>, rnd: seq<Word>): (r: seq<TileId>)
    requires 0 < |s| <= |rnd|
    ensures |r| == |s| && multiset(r) == multiset(s)
  {
    ShuffledBy(s, rnd, |s| - 1)
  }

  /** Step k alone settles position k: every later step leaves it as it is. */
  lemma {:induction false} SettledStays(s: seq<TileId>, rnd: seq<Word>, i: nat, j: nat)
    requires i <= j <= |s| - 1 && j <= |rnd|
    ensures ShuffledBy(s, rnd, j)[..i] == ShuffledBy(s, rnd, i)[..i]
    decreases j
  {
    hide Swap, Choice;
    if i < j {
      SettledStays(s, rnd, i, j - 1);
      SwapAfter(ShuffledBy(s, rnd, j - 1), i, j - 1, j - 1 + Choice(rnd, |s|, j - 1));
    }
  }

  lemma SwapAfter(ts: seq<TileId>, i: nat, a: nat, b: nat)
    requires i <= a <= b < |ts|
    ensures Swap(ts, a, b)[..i] == ts[..i] && Swap(ts, a, b)[a] == ts[b]
  {
  }

  /** The k-th tile of the shuffled wall is one of those not yet placed, picked by the k-th word. */
  lemma EachWordPicks(s: seq<TileId>, rnd: seq<Word>, k: nat)
    requires k < |s| - 1 && |s| <= |rnd|
    ensures Shuffled(s, rnd)[k] == ShuffledBy(s, rnd, k)[k + Choice(rnd, |s|, k)]
    ensures Shuffled(s, rnd)[..k] == ShuffledBy(s, rnd, k)[..k]
  {
    ShuffledIs(s, rnd);
    hide Swap, Choice, ShuffledBy, Shuffled;
    SettledStays(s, rnd, k + 1, |s| - 1);
    SettledStays(s, rnd, k, |s| - 1);
    NextStep(s, rnd, k);
    assert Shuffled(s, rnd)[k] == Shuffled(s, rnd)[..k + 1][k];
    SwapAfter(ShuffledBy(s, rnd, k), k, k, k + Choice(rnd, |s|, k));
  }

  // ---- Every order of the wall comes up, each for its own choices ----

  predicate AgreeBelow(s: seq<TileId>, rnd: seq<Word>, rnd': seq<Word>, i: nat)
    requires i <= |s| <= |rnd| && |s| <= |rnd'|
  {
    forall k: nat | k < i :: Choice(rnd', |s|, k) == Choice(rnd, |s|, k)
  }

  lemma {:induction false} SameChoicesSameWall(s: seq<TileId>, rnd: seq<Word>, rnd': seq<Word>, i: nat)
    requires i <= |s| - 1 && |s| <= |rnd| && |s| <= |rnd'|
    requires AgreeBelow(s, rnd, rnd', i)
    ensures ShuffledBy(s, rnd', i) == ShuffledBy(s, rnd, i)
  {
    hide Swap, Choice;
    if i > 0 {
      SameChoicesSameWall(s, rnd, rnd', i - 1);
      assert Choice(rnd', |s|, i - 1) == Choice(rnd, |s|, i - 1);
    }
  }

  lemma DistinctPositions(ts: seq<TileId>, i: nat, j: nat)
    requires Distinct(ts) && i < |ts| && j < |ts| && ts[i] == ts[j]
    ensures i == j
  {
    if i < j {
      TwiceCounted(ts, i, j);
    } else if j < i {
      TwiceCounted(ts, j, i);
    }
  }

  lemma SameChoiceAt(s: seq<TileId>, rnd: seq<Word>, rnd': seq<Word>, k: nat)
    requires Distinct(s) && k < |s| - 1 && |s| <= |rnd| && |s| <= |rnd'|
    requires Shuffled(s, rnd') == Shuffled(s, rnd) && ShuffledBy(s, rnd', k) == ShuffledBy(s, rnd, k)
    ensures Choice(rnd', |s|, k) == Choice(rnd, |s|, k)
  {
    hide ShuffledBy, Shuffled, Choice, Distinct;
    var ts := ShuffledBy(s, rnd, k);
    StillDistinct(s, ts);
    EachWordPicks(s, rnd, k);
    EachWordPicks(s, rnd', k);
    DistinctPositions(ts, k + Choice(rnd, |s|, k), k + Choice(rnd', |s|, k));
  }

  lemma StillDistinct(s: seq<TileId>, ts: seq<TileId>)
    requires Distinct(s) && multiset(ts) == multiset(s)
    ensures Distinct(ts)
  {
  }

  /** Choosing alike below i, one wall allows no other choice at i. */
  lemma {:induction false} SameWallSameChoices(s: seq<TileId>, rnd: seq<Word>, rnd': seq<Word>, i: nat)
    requires Distinct(s) && |s| <= |rnd| && |s| <= |rnd'| && i <= |s| - 1
    requires Shuffled(s, rnd') == Shuffled(s, rnd)
    ensures AgreeBelow(s, rnd, rnd', i)
  {
    hide ShuffledBy, Shuffled, Choice, Distinct;
    if i > 0 {
      SameWallSameChoices(s, rnd, rnd', i - 1);
      SameChoicesSameWall(s, rnd, rnd', i - 1);
      SameChoiceAt(s, rnd, rnd', i - 1);
    }
  }

  /** Two blocks of words shuffle alike exactly when they make the same choice at every position. */
  lemma ChoicesSeparateWalls(s: seq<TileId>, rnd: seq<Word>, rnd': seq<Word>)
    requires Distinct(s) && 0 < |s| <= |rnd| && |s| <= |rnd'|
    ensures Shuffled(s, rnd') == Shuffled(s, rnd) <==> forall k: nat | k < |s| - 1 :: rnd'[k] % (|s| - k) == rnd[k] % (|s| - k)
  {
    hide ShuffledBy, Shuffled;
    forall k: nat | k < |s| - 1 ensures Choice(rnd, |s|, k) == rnd[k] % (|s| - k) && Choice(rnd', |s|, k) == rnd'[k] % (|s| - k) {
    }
    if Shuffled(s, rnd') == Shuffled(s, rnd) {
      SameWallSameChoices(s, rnd, rnd', |s| - 1);
    } else if AgreeBelow(s, rnd, rnd', |s| - 1) {
      SameChoicesSameWall(s, rnd, rnd', |s| - 1);
      ShuffledIs(s, rnd);
      ShuffledIs(s, rnd');
      assert false;
    }
  }

  lemma ShuffledIs(s: seq<TileId>, rnd: seq<Word>)
    requires 0 < |s| <= |rnd|
    ensures Shuffled(s, rnd) == ShuffledBy(s, rnd, |s| - 1)
  {
    hide ShuffledBy;
  }

  /** One more word brings one more tile of t into place. */
  lemma WordFor(s: seq<TileId>, t: seq<TileId>, k: nat, rest: seq<Word>) returns (rnd: seq<Word>)
    requires multiset(t) == multiset(s) && |t| == |s| <= |rest| && |s| <= RND_WORDS && k < |s| - 1 && ShuffledBy(s, rest, k)[..k] == t[..k]
    ensures |rnd| == |rest| && ShuffledBy(s, rnd, k + 1)[..k + 1] == t[..k + 1]
  {
    hide ShuffledBy, Choice;
    var ts := ShuffledBy(s, rest, k);
    var j := StillToPlace(ts, t, k);
    rnd := WordPicking(s, rest, k, j - k);
    NextStep(s, rnd, k);
    SwapAfter(ts, k, k, j);
    hide Swap;
    assert t[..k + 1] == t[..k] + [t[k]];
    assert ShuffledBy(s, rnd, k + 1)[..k + 1] == ShuffledBy(s, rnd, k + 1)[..k] + [ShuffledBy(s, rnd, k + 1)[k]];
  }

  lemma WordPicking(s: seq<TileId>, rest: seq<Word>, k: nat, c: nat) returns (rnd: seq<Word>)
    requires |s| <= |rest| && |s| <= RND_WORDS && k + c < |s| && k < |s| - 1
    ensures |rnd| == |rest| && Choice(rnd, |s|, k) == c && ShuffledBy(s, rnd, k) == ShuffledBy(s, rest, k)
  {
    rnd := rest[k := c];
    ChoiceIs(rnd, |s|, k, c);
    hide Choice;
    forall m: nat | m < k ensures Choice(rnd, |s|, m) == Choice(rest, |s|, m) {
      SameWordSameChoice(rest, rnd, |s|, m);
    }
    SameChoicesSameWall(s, rest, rnd, k);
  }

  /** The words so far bring the first i tiles of t into place. */
  lemma {:induction false} WordsFor(s: seq<TileId>, t: seq<TileId>, i: nat) returns (rnd: seq<Word>)
    requires multiset(t) == multiset(s) && |t| == |s| && 0 < |s| <= RND_WORDS && i <= |s| - 1
    ensures |rnd| == RND_WORDS && ShuffledBy(s, rnd, i)[..i] == t[..i]
  {
    if i == 0 {
      rnd := seq(RND_WORDS, _ => 0);
    } else {
      hide ShuffledBy;
      rnd := WordsFor(s, t, i - 1);
      rnd := WordFor(s, t, i - 1, rnd);
    }
  }

  lemma NextStep(s: seq<TileId>, rnd: seq<Word>, k: nat)
    requires k < |rnd| && k < |s|
    ensures ShuffledBy(s, rnd, k + 1) == Swap(ShuffledBy(s, rnd, k), k, k + Choice(rnd, |s|, k))
  {
    hide Swap, Choice;
  }

  lemma ChoiceIs(rnd: seq<Word>, n: nat, k: nat, c: nat)
    requires k < |rnd| && k < n && c < n - k && rnd[k] == c
    ensures Choice(rnd, n, k) == c
  {
  }

  lemma SameWordSameChoice(rnd: seq<Word>, rnd': seq<Word>, n: nat, k: nat)
    requires k < |rnd| && k < |rnd'| && k < n && rnd[k] == rnd'[k]
    ensures Choice(rnd, n, k) == Choice(rnd', n, k)
  {
  }

  lemma StillToPlace(ts: seq<TileId>, t: seq<TileId>, k: nat) returns (j: nat)
    requires multiset(ts) == multiset(t) && k < |t| == |ts| && ts[..k] == t[..k]
    ensures k <= j < |ts| && ts[j] == t[k]
  {
    assert ts == ts[..k] + ts[k..] && t == t[..k] + t[k..];
    assert multiset(ts[k..]) == multiset(t[k..]) by { SameRest(multiset(t[..k]), multiset(ts[k..]), multiset(t[k..])); }
    assert t[k..][0] in multiset(ts[k..]);
    var i :| 0 <= i < |ts[k..]| && ts[k..][i] == t[k];
    j := k + i;
  }

  lemma SameRest(front: multiset<TileId>, a: multiset<TileId>, b: multiset<TileId>)
    requires front + a == front + b
    ensures a == b
  {
    assert a == (front + a) - front;
  }

  /** Every order of the tiles is the shuffle of some block of words. */
  lemma EveryOrderComesUp(s: seq<TileId>, t: seq<TileId>)
    requires multiset(t) == multiset(s) && 0 < |s| <= RND_WORDS
    ensures exists rnd: seq<Word> :: |rnd| == RND_WORDS && Shuffled(s, rnd) == t
  {
    hide ShuffledBy, Swap, Choice;
    assert |multiset(s)| == |s| && |multiset(t)| == |t|;
    var last := |s| - 1;
    var rnd := WordsFor(s, t, last);
    var ts := ShuffledBy(s, rnd, last);
    var j := StillToPlace(ts, t, last);
    assert ts == ts[..last] + [ts[last]] && t == t[..last] + [t[last]];
    assert Shuffled(s, rnd) == t;
  }

  method ShuffleWithRnd(wall: array<TileId>, rnd: seq<Word>)
    requires wall.Length == 144 || wall.Length == 136 || wall.Length == 108
    requires |rnd| == RND_WORDS
    modifies wall
    ensures wall[..] == Shuffled(old(wall[..]), rnd)
  {
    hide Swap;
    var n := wall.Length;
    for i := 0 to n - 1
      invariant wall[..] == ShuffledBy(old(wall[..]), rnd, i)
    {
      var swapIdx := i + rnd[i] % (n - i);
      SwapAt(wall, i, swapIdx);
    }
  }

  function Ids(n: nat): (ids: seq<TileId>)
    requires n <= TILES
    ensures |ids| == n && forall i | 0 <= i < n :: ids[i] == i
  {
    seq(n, i requires 0 <= i < n => i)
  }

  lemma {:induction false} IdsAreDistinct(n: nat)
    requires n <= TILES
    ensures Distinct(Ids(n))
  {
    if n > 0 {
      IdsAreDistinct(n - 1);
      assert Ids(n) == Ids(n - 1) + [n - 1];
      assert n - 1 !in Ids(n - 1);
    }
  }

  /** A wall shuffled from the initial set, tile ids in the order they will be drawn. */
  method ShuffledWall(rnd: seq<Word>) returns (wall: seq<TileId>)
    requires |rnd| == RND_WORDS
    ensures wall == Shuffled(Ids(TILES), rnd) && FullWall(wall)
  {
    hide Shuffled, InIdOrder;
    var initial := GetInitialWall();
    var indices := new TileId[TILES](i requires 0 <= i < TILES => i);
    ghost var ids: seq<TileId> := indices[..];
    assert ids == Ids(TILES);
    IdsAreDistinct(TILES);
    ShuffleWithRnd(indices, rnd);
    wall := [];
    for i := 0 to TILES
      invariant |wall| == i && wall == indices[..i]
      invariant indices[..] == Shuffled(ids, rnd)
    {
      IdOf(initial, indices[i]);
      var tile := initial[indices[i]];
      wall := wall + [tile.id];
    }
    assert wall == indices[..] == Shuffled(Ids(TILES), rnd);
    assert multiset(wall) == multiset(Ids(TILES));
  }

  lemma IdOf(initial: seq<Tile>, t: TileId)
    requires |initial| == TILES && InIdOrder(initial)
    ensures initial[t].id == t
  {
  }
}
