/** The claims the Fenghua rule engine offers on a discard meet what the hand's invariant asks of a rule engine. */
module Fenghua {
  import opened Tiles
  import opened Hand
  import opened HandSteps

  /** The tiles of a hand with the given face, in hand order. */
  function Matching(hand: seq<TileId>, face: Face): (ms: seq<TileId>)
    ensures multiset(ms) <= multiset(hand)
    ensures forall t | t in ms :: FaceOf(t) == face
  {
    if hand == [] then []
    else
      assert hand == [hand[0]] + hand[1..];
      (if FaceOf(hand[0]) == face then [hand[0]] else []) + Matching(hand[1..], face)
  }

  predicate Holds(hand: seq<TileId>, suit: Suit, value: int) {
    exists t | t in hand :: FaceOf(t).suit == suit && FaceOf(t).value == value
  }

  /** The last tile of a hand with the given suit and value. */
  function LastOf(hand: seq<TileId>, suit: Suit, value: int): (found: Option<TileId>)
    ensures found.Some? ==> found.value in hand && FaceOf(found.value).suit == suit && FaceOf(found.value).value == value
    ensures found.None? ==> !Holds(hand, suit, value)
    decreases |hand|
  {
    if hand == [] then None
    else
      var last := hand[|hand| - 1];
      if FaceOf(last).suit == suit && FaceOf(last).value == value then Some(last) else LastOf(hand[..|hand| - 1], suit, value)
  }

  function ChiiWith(a: Option<TileId>, b: Option<TileId>): seq<Claim> {
    if a.Some? && b.Some? then [Chii([a.value, b.value])] else []
  }

  /** The up to three sequences a discard completes, lowest first. */
  function Sequences(hand: seq<TileId>, face: Face): seq<Claim> {
    var minus2, minus1 := LastOf(hand, face.suit, face.value - 2), LastOf(hand, face.suit, face.value - 1);
    var plus1, plus2 := LastOf(hand, face.suit, face.value + 1), LastOf(hand, face.suit, face.value + 2);
    ChiiWith(minus2, minus1) + ChiiWith(minus1, plus1) + ChiiWith(plus1, plus2)
  }

  /** Ron if the hand wins, a direct kan on exactly three copies, a pon on two or more, and the up to three sequences
      when the seat to the left discarded. */
  function Interrupts(wins: (Table, Seat, Option<TileId>) -> bool, table: Table, discard: TileId, seat: Seat): seq<Claim> {
    var hand := table.players[seat].closedHand;
    var face := FaceOf(discard);
    var same := Matching(hand, face);
    var ron := if wins(table, seat, Some(discard)) then [Ron] else [];
    var kan := if |same| == 3 then [Kan(same)] else [];
    var pon := if |same| >= 2 then [Pon(same[..2])] else [];
    var chii := if (seat + 3) % 4 == table.active && face.suit != Jihai then Sequences(hand, face) else [];
    ron + kan + pon + chii
  }

  function FenghuaRules(wins: (Table, Seat, Option<TileId>) -> bool): Rules {
    Rules((table: Table, t: TileId, seat: Seat) => Interrupts(wins, table, t, seat), wins)
  }

  lemma TwoInHand(hand: seq<TileId>, a: TileId, b: TileId)
    requires a in hand && b in hand && a != b
    ensures multiset([a, b]) <= multiset(hand)
  {
  }

  lemma PairOfMatching(hand: seq<TileId>, face: Face)
    requires |Matching(hand, face)| >= 2
    ensures multiset(Matching(hand, face)[..2]) <= multiset(hand)
  {
    var same := Matching(hand, face);
    assert same == same[..2] + same[2..];
  }

  /** Whatever counts as a win, every claim offered can be taken: its tiles are in the hand, and of the right number. */
  lemma FenghuaRulesAreOk(wins: (Table, Seat, Option<TileId>) -> bool)
    ensures RulesOk(FenghuaRules(wins))
  {
    var r := FenghuaRules(wins);
    forall table: Table, t: TileId, seat: Seat, c | c in r.interrupts(table, t, seat)
      ensures ClaimFits(table.players[seat].closedHand, c)
    {
      OfferedClaimFitsHand(wins, table, t, seat, c);
    }
  }

  lemma OfferedClaimFitsHand(wins: (Table, Seat, Option<TileId>) -> bool, table: Table, discard: TileId, seat: Seat, c: Claim)
    requires c in Interrupts(wins, table, discard, seat)
    ensures ClaimFits(table.players[seat].closedHand, c)
  {
    hide LastOf, Matching, Sequences, ClaimFits;
    var hand := table.players[seat].closedHand;
    var same := Matching(hand, FaceOf(discard));
    if c in Sequences(hand, FaceOf(discard)) {
      SequencesFit(hand, FaceOf(discard), c);
    } else {
      SetsFit(hand, same, c);
      if |same| >= 2 {
        PairOfMatching(hand, FaceOf(discard));
      }
    }
  }

  lemma SequencesFit(hand: seq<TileId>, face: Face, c: Claim)
    requires c in Sequences(hand, face)
    ensures ClaimFits(hand, c)
  {
    hide LastOf;
    var a, b := c.tiles[0], c.tiles[1];
    assert FaceOf(a).value < FaceOf(b).value;
    TwoInHand(hand, a, b);
    assert c.tiles == [a, b];
  }

  lemma SetsFit(hand: seq<TileId>, same: seq<TileId>, c: Claim)
    requires multiset(same) <= multiset(hand)
    ensures c == Ron ==> ClaimFits(hand, c)
    ensures |same| == 3 && c == Kan(same) ==> ClaimFits(hand, c)
    ensures |same| >= 2 && multiset(same[..2]) <= multiset(hand) && c == Pon(same[..2]) ==> ClaimFits(hand, c)
  {
  }

  // ---- What exactly is offered ----

  /** The places in a hand where a face lies. */
  function Places(hand: seq<TileId>, face: Face): set<nat> {
    set i: nat | i < |hand| && FaceOf(hand[i]) == face
  }

  lemma {:induction false} MatchingFrom(hand: seq<TileId>, face: Face, i: nat)
    requires i <= |hand|
    ensures |Matching(hand[i..], face)| == |set j: nat | i <= j < |hand| && FaceOf(hand[j]) == face|
    decreases |hand| - i
  {
    hide FaceOf;
    var here := set j: nat | i <= j < |hand| && FaceOf(hand[j]) == face;
    if i < |hand| {
      MatchingFrom(hand, face, i + 1);
      var later := set j: nat | i + 1 <= j < |hand| && FaceOf(hand[j]) == face;
      assert hand[i..][1..] == hand[i + 1..];
      assert here == if FaceOf(hand[i]) == face then later + {i} else later;
    } else {
      assert here == {};
    }
  }

  lemma MatchingCounts(hand: seq<TileId>, face: Face)
    ensures |Matching(hand, face)| == |Places(hand, face)|
  {
    hide Matching;
    MatchingFrom(hand, face, 0);
    assert hand[0..] == hand;
    assert Places(hand, face) == set j: nat | 0 <= j < |hand| && FaceOf(hand[j]) == face;
  }

  /** A sequence with the discard from two tiles of its suit with these values. */
  predicate Completes(face: Face, low: int, high: int) {
    (low, high) == (face.value - 2, face.value - 1) || (low, high) == (face.value - 1, face.value + 1)
    || (low, high) == (face.value + 1, face.value + 2)
  }

  /** A chii of two tiles with these values is among the claims. */
  ghost predicate OffersChii(claims: seq<Claim>, suit: Suit, low: int, high: int) {
    exists a: TileId, b: TileId :: Chii([a, b]) in claims
                                   && FaceOf(a).suit == suit && FaceOf(b).suit == suit && FaceOf(a).value == low && FaceOf(b).value == high
  }

  lemma SequencesExact(hand: seq<TileId>, face: Face, low: int, high: int)
    ensures OffersChii(Sequences(hand, face), face.suit, low, high) <==>
              Completes(face, low, high) && Holds(hand, face.suit, low) && Holds(hand, face.suit, high)
  {
    hide LastOf, FaceOf;
    var claims := Sequences(hand, face);
    var first, second := LastOf(hand, face.suit, low), LastOf(hand, face.suit, high);
    if Completes(face, low, high) && Holds(hand, face.suit, low) && Holds(hand, face.suit, high) {
      assert Chii([first.value, second.value]) in claims;
    }
  }

  /** Exactly what a seat may call: ron if it wins; kan with three copies in its hand, no more and no fewer; pon with at least
      two; and from the seat on its left, except for honours, every chii its hand completes. */
  lemma OffersExactly(wins: (Table, Seat, Option<TileId>) -> bool, table: Table, discard: TileId, seat: Seat)
    ensures var hand, face, claims := table.players[seat].closedHand, FaceOf(discard), FenghuaRules(wins).interrupts(table, discard, seat);
            && (Ron in claims <==> wins(table, seat, Some(discard)))
            && ((exists tiles :: Kan(tiles) in claims) <==> |Places(hand, face)| == 3)
            && ((exists tiles :: Pon(tiles) in claims) <==> |Places(hand, face)| >= 2)
            && (forall tiles | Kan(tiles) in claims || Pon(tiles) in claims :: forall t | t in tiles :: FaceOf(t) == face)
            && (forall low, high ::
                  OffersChii(claims, face.suit, low, high) <==>
                    && (if seat == 0 then table.active == 3 else table.active == seat - 1) && face.suit != Jihai
                    && Completes(face, low, high) && Holds(hand, face.suit, low) && Holds(hand, face.suit, high))
  {
    hide Matching, Sequences, FaceOf, Places, Completes, Holds, Interrupts, OffersChii;
    SetsExact(wins, table, discard, seat);
    forall low, high
      ensures OffersChii(Interrupts(wins, table, discard, seat), FaceOf(discard).suit, low, high) <==>
                && (if seat == 0 then table.active == 3 else table.active == seat - 1) && FaceOf(discard).suit != Jihai
                && Completes(FaceOf(discard), low, high)
                && Holds(table.players[seat].closedHand, FaceOf(discard).suit, low)
                && Holds(table.players[seat].closedHand, FaceOf(discard).suit, high)
    {
      ChiisExact(wins, table, discard, seat, low, high);
    }
  }

  lemma SetsExact(wins: (Table, Seat, Option<TileId>) -> bool, table: Table, discard: TileId, seat: Seat)
    ensures var hand, face, claims := table.players[seat].closedHand, FaceOf(discard), Interrupts(wins, table, discard, seat);
            && (Ron in claims <==> wins(table, seat, Some(discard)))
            && ((exists tiles :: Kan(tiles) in claims) <==> |Places(hand, face)| == 3)
            && ((exists tiles :: Pon(tiles) in claims) <==> |Places(hand, face)| >= 2)
            && (forall tiles | Kan(tiles) in claims || Pon(tiles) in claims :: forall t | t in tiles :: FaceOf(t) == face)
  {
    hide Matching, Sequences, FaceOf, Places;
    var hand, face := table.players[seat].closedHand, FaceOf(discard);
    var same := Matching(hand, face);
    var claims := Interrupts(wins, table, discard, seat);
    MatchingCounts(hand, face);
    OnlyChiis(hand, face);
    if |same| == 3 {
      assert Kan(same) in claims;
    }
    if |same| >= 2 {
      assert Pon(same[..2]) in claims;
    }
  }

  lemma ChiisExact(wins: (Table, Seat, Option<TileId>) -> bool, table: Table, discard: TileId, seat: Seat, low: int, high: int)
    ensures var hand, face, claims := table.players[seat].closedHand, FaceOf(discard), Interrupts(wins, table, discard, seat);
            OffersChii(claims, face.suit, low, high) <==>
              && (if seat == 0 then table.active == 3 else table.active == seat - 1) && face.suit != Jihai
              && Completes(face, low, high) && Holds(hand, face.suit, low) && Holds(hand, face.suit, high)
  {
    hide Matching, Sequences, FaceOf, Completes, Holds, OffersChii;
    var hand, face := table.players[seat].closedHand, FaceOf(discard);
    var claims := Interrupts(wins, table, discard, seat);
    SequencesExact(hand, face, low, high);
    if (seat + 3) % 4 == table.active && face.suit != Jihai {
      SameChiis(claims, Sequences(hand, face), face.suit, low, high);
    } else {
      SameChiis(claims, [], face.suit, low, high);
    }
  }

  lemma SameChiis(claims: seq<Claim>, others: seq<Claim>, suit: Suit, low: int, high: int)
    requires forall c: Claim | c.Chii? :: c in claims <==> c in others
    ensures OffersChii(claims, suit, low, high) <==> OffersChii(others, suit, low, high)
    ensures others == [] ==> !OffersChii(others, suit, low, high)
  {
  }

  lemma OnlyChiis(hand: seq<TileId>, face: Face)
    ensures forall c | c in Sequences(hand, face) :: c.Chii?
  {
    hide LastOf;
  }
}
