/** The 144 physical tiles and their faces. A tile is its id; the id fixes the suit and value. */
module Tiles {

  const TILES := 144
  const FIRST_FLOWER := 136

  type TileId = t: int | 0 <= t < TILES

  datatype Suit = Man | Pin | Sou | Jihai | Flower

  datatype Face = Face(suit: Suit, value: nat)

  /** Suit and value of a tile id: sou, man, pin, honours in fours, then eight single flowers. */
  function FaceOf(t: TileId): Face {
    if t < 36 then Face(Sou, t / 4 + 1)
    else if t < 72 then Face(Man, (t - 36) / 4 + 1)
    else if t < 108 then Face(Pin, (t - 72) / 4 + 1)
    else if t < FIRST_FLOWER then Face(Jihai, (t - 108) / 4 + 1)
    else Face(Flower, t - FIRST_FLOWER + 1)
  }

  predicate IsFlower(t: TileId) {
    FaceOf(t).suit == Flower
  }

  /** Position of a face in the 42-face space shared with the observation encoder. */
  function FaceIndex42(f: Face): int {
    match f.suit
    case Man => if 1 <= f.value <= 9 then f.value - 1 else -1
    case Pin => if 1 <= f.value <= 9 then 9 + f.value - 1 else -1
    case Sou => if 1 <= f.value <= 9 then 18 + f.value - 1 else -1
    case Jihai => if 1 <= f.value <= 7 then 27 + f.value - 1 else -1
    case Flower => if 1 <= f.value <= 8 then 34 + f.value - 1 else -1
  }

  /** The face index of a tile, as logged in public events. */
  function FaceCode(t: TileId): (code: int)
    ensures 0 <= code < 42
    ensures code >= 34 <==> IsFlower(t)
  {
    FaceIndex42(FaceOf(t))
  }

  /** Two tiles share a face code exactly when they are copies of one face, so the code loses nothing. */
  lemma FaceCodeSeparatesFaces(a: TileId, b: TileId)
    ensures FaceCode(a) == FaceCode(b) <==> FaceOf(a) == FaceOf(b)
    ensures FaceOf(a) == FaceOf(b) <==> a == b || (!IsFlower(a) && !IsFlower(b) && a / 4 == b / 4)
  {
  }

  /** Five different tiles never share a face. */
  lemma FiveCopiesImpossible(cs: seq<TileId>)
    requires |cs| == 5
    requires forall i, j | 0 <= i < j < 5 :: cs[i] != cs[j]
    ensures exists i | 0 < i < 5 :: FaceOf(cs[i]) != FaceOf(cs[0])
  {
    if forall i | 0 < i < 5 :: FaceOf(cs[i]) == FaceOf(cs[0]) {
      forall i, j | 0 <= i < j < 5 ensures cs[i] % 4 != cs[j] % 4 {
        FaceCodeSeparatesFaces(cs[i], cs[j]);
      }
      PigeonHole(cs[0] % 4, cs[1] % 4, cs[2] % 4, cs[3] % 4, cs[4] % 4);
      assert false;
    }
  }

  lemma PigeonHole(a: int, b: int, c: int, d: int, e: int)
    requires 0 <= a < 4 && 0 <= b < 4 && 0 <= c < 4 && 0 <= d < 4 && 0 <= e < 4
    ensures a == b || a == c || a == d || a == e || b == c || b == d || b == e || c == d || c == e || d == e
  {
  }

  lemma SubsetCardinality<T>(small: set<T>, big: set<T>)
    requires small <= big
    ensures |small| <= |big|
  {
    assert big == small + (big - small);
  }
}
