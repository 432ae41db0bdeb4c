/** A dealt hand satisfies the invariant: dealing, the initial flower replacement and the dealer's first draw. */
module HandStart {
  import opened Tiles
  import opened Wall
  import opened Hand
  import opened HandInvariant
  import opened HandSteps

  /** A shuffled full set: all 144 ids, each once. */
  ghost predicate FullWall(wall: seq<TileId>) {
    |wall| == TILES && Distinct(wall)
  }

  /** The tiles in the order of their ids. */
  function OrderedWall(): (wall: seq<TileId>)
    ensures |wall| == TILES && forall i | 0 <= i < TILES :: wall[i] == i
  {
    seq(TILES, i requires 0 <= i < TILES => i)
  }

  lemma OrderedWallIsFull()
    ensures FullWall(OrderedWall())
  {
    forall t ensures multiset(OrderedWall())[t] <= 1 {
      OccursOnce(OrderedWall(), t);
    }
  }

  lemma {:induction false} OccursOnce(ts: seq<TileId>, t: TileId)
    requires forall i, j | 0 <= i < j < |ts| :: ts[i] != ts[j]
    ensures multiset(ts)[t] <= 1
  {
    if ts != [] {
      var last, rest := ts[|ts| - 1], ts[..|ts| - 1];
      assert ts == rest + [last];
      OccursOnce(rest, t);
      assert last !in rest;
    }
  }

  // ---- The deal ----

  lemma DealtHandsAreThePrefix(wall: seq<TileId>)
    requires |wall| >= 52
    ensures multiset(DealtHand(wall, 0)) + multiset(DealtHand(wall, 1)) + multiset(DealtHand(wall, 2)) + multiset(DealtHand(wall, 3))
         == multiset(wall[..52])
  {
    var r0 := wall[0..4] + wall[4..8] + wall[8..12] + wall[12..16];
    var r1 := wall[16..20] + wall[20..24] + wall[24..28] + wall[28..32];
    var r2 := wall[32..36] + wall[36..40] + wall[40..44] + wall[44..48];
    var r3 := [wall[48]] + [wall[49]] + [wall[50]] + [wall[51]];
    assert wall[..52] == r0 + r1 + r2 + r3;
    Interleave(multiset(wall[0..4]), multiset(wall[4..8]), multiset(wall[8..12]), multiset(wall[12..16]),
               multiset(wall[16..20]), multiset(wall[20..24]), multiset(wall[24..28]), multiset(wall[28..32]),
               multiset(wall[32..36]), multiset(wall[36..40]), multiset(wall[40..44]), multiset(wall[44..48]),
               multiset([wall[48]]), multiset([wall[49]]), multiset([wall[50]]), multiset([wall[51]]));
  }

  lemma Interleave(a0: multiset<TileId>, a1: multiset<TileId>, a2: multiset<TileId>, a3: multiset<TileId>,
                   b0: multiset<TileId>, b1: multiset<TileId>, b2: multiset<TileId>, b3: multiset<TileId>,
                   c0: multiset<TileId>, c1: multiset<TileId>, c2: multiset<TileId>, c3: multiset<TileId>,
                   d0: multiset<TileId>, d1: multiset<TileId>, d2: multiset<TileId>, d3: multiset<TileId>)
    ensures (a0 + b0 + c0 + d0) + (a1 + b1 + c1 + d1) + (a2 + b2 + c2 + d2) + (a3 + b3 + c3 + d3)
         == (a0 + a1 + a2 + a3) + (b0 + b1 + b2 + b3) + (c0 + c1 + c2 + c3) + (d0 + d1 + d2 + d3)
  {
  }

  /** Four tiles at a time go round the table three times, then one each: where in the wall a dealt tile comes from. */
  lemma DealGoesRound(wall: seq<TileId>, q: Seat, k: nat)
    requires |wall| >= 52 && k < 13
    ensures |DealtHand(wall, q)| == 13
    ensures DealtHand(wall, q)[k] == wall[if k < 12 then 16 * (k / 4) + 4 * q + k % 4 else 48 + q]
  {
    assert k < 4 || 4 <= k < 8 || 8 <= k < 12 || k == 12;
  }

  /** A plain indicator makes its own face wild; a flower makes the three other flowers of its four wild. */
  lemma WildFacesExact(indicator: TileId, t: TileId)
    ensures FaceOf(t) in WildFaces(indicator) <==>
              if IsFlower(indicator) then IsFlower(t) && t != indicator && (t < 140 <==> indicator < 140)
              else FaceOf(t) == FaceOf(indicator)
  {
  }

  ghost function Range(lo: int, hi: int): (r: set<int>)
    requires lo <= hi
    ensures forall i :: i in r <==> lo <= i < hi
    ensures |r| == hi - lo
    decreases hi - lo
  {
    if lo == hi then {} else Range(lo, hi - 1) + {hi - 1}
  }

  lemma DealHidden(w: WallState)
    requires WallLaid(w) && w.wallIndex == 52 && w.deadWallIndex == 0 && w.haiteiDraw == -1 && w.boundary >= 52
    ensures Hidden(w) == multiset(w.tiles[52..]) && |Undrawn(w)| == |w.tiles| - 53
  {
    var all := Range(52, |w.tiles|);
    assert Undrawn(w) == all - {w.indicator};
    TilesAtSkip(w.tiles, all, 0, 52);
    TilesAtSuffix(w.tiles, all, 52);
    TilesAtRemove(w.tiles, all, w.indicator, 0);
  }

  lemma DealKeeps(wall: seq<TileId>, diceSum: nat, isHaitei: bool)
    requires |wall| >= 52 + 2 * diceSum && |wall| % 2 == 0 && diceSum >= 1
    ensures var s := Deal(wall, diceSum, isHaitei);
            CoreInv(s) && Sized(s, {}) && s.result.None? && Measure(s) == EventBudget(|wall|)
  {
    hide Undrawn, WangpaiUndrawn, Hidden, PlayerTiles, Placed;
    var s := Deal(wall, diceSum, isHaitei);
    DealHidden(s.w);
    DealPlaced(wall);
    assert wall == wall[..52] + wall[52..];
  }

  lemma DealPlaced(wall: seq<TileId>)
    requires |wall| >= 52
    ensures Placed([DealtPlayer(wall, 0), DealtPlayer(wall, 1), DealtPlayer(wall, 2), DealtPlayer(wall, 3)]) == multiset(wall[..52])
  {
    hide DealtHand;
    DealtHandsAreThePrefix(wall);
    forall q: Seat ensures PlayerTiles(DealtPlayer(wall, q)) == multiset(DealtHand(wall, q)) {
    }
    hide PlayerTiles;
  }

  // ---- Initial flowers ----

  function FlowersLaid(s: State): nat {
    |s.players[0].flowerMelds| + |s.players[1].flowerMelds| + |s.players[2].flowerMelds| + |s.players[3].flowerMelds|
  }

  ghost predicate OnlyFlowersLaid(s: State) {
    forall q: Seat, t | t in s.players[q].flowerMelds :: IsFlower(t)
  }

  ghost function Members(ts: seq<TileId>): set<TileId> {
    set t | t in ts
  }

  lemma DistinctRange(ts: seq<TileId>)
    requires forall t :: multiset(ts)[t] <= 1
    requires forall t | t in ts :: IsFlower(t)
    ensures |ts| <= 8
  {
    DistinctSize(ts);
    assert Members(ts) <= {136, 137, 138, 139, 140, 141, 142, 143};
    SubsetCardinality(Members(ts), {136, 137, 138, 139, 140, 141, 142, 143});
  }

  lemma {:induction false} DistinctSize(ts: seq<TileId>)
    requires forall t :: multiset(ts)[t] <= 1
    ensures |Members(ts)| == |ts|
  {
    if ts != [] {
      var last, rest := ts[|ts| - 1], ts[..|ts| - 1];
      assert ts == rest + [last];
      forall t ensures multiset(rest)[t] <= 1 {
        assert multiset(ts)[t] == multiset(rest)[t] + multiset([last])[t];
      }
      DistinctSize(rest);
      assert multiset(ts)[last] == multiset(rest)[last] + 1;
      assert last !in rest;
      assert Members(ts) == Members(rest) + {last};
    }
  }

  /** There are eight flowers, so at most eight can have been laid down. */
  lemma AtMostEightFlowers(s: State)
    requires CoreInv(s) && Distinct(s.w.tiles) && OnlyFlowersLaid(s)
    ensures FlowersLaid(s) <= 8
  {
    hide Undrawn, WangpaiUndrawn, Hidden, WonTile, WallLaid;
    var laid := s.players[0].flowerMelds + s.players[1].flowerMelds + s.players[2].flowerMelds + s.players[3].flowerMelds;
    forall t ensures multiset(laid)[t] <= 1 {
      assert multiset(laid)[t] <= Placed(s.players)[t];
      assert Placed(s.players)[t] <= Total(s.players, s.result, s.w)[t] by {
        hide Placed;
      }
      assert multiset(s.w.tiles)[t] <= 1;
    }
    DistinctRange(laid);
  }

  /** Early in a hand the back of the wall is far from the front. */
  ghost predicate Early(s: State) {
    && CoreInv(s) && FullWall(s.w.tiles) && OnlyFlowersLaid(s)
    && s.w.wallIndex <= 53 && s.w.boundary >= 120 && s.w.haiteiDraw == -1
    && s.w.deadWallIndex <= 2 * FlowersLaid(s)
  }

  lemma EarlyTarget(w: WallState)
    requires WallLaid(w) && |w.tiles| == TILES && w.wallIndex <= 54 && w.boundary >= 120 && w.deadWallIndex <= 14
    ensures Undrawn(w) != {}
    ensures var (k, target) := DeadTarget(|w.tiles|, w.wallIndex, w.indicator, w.deadWallIndex);
            target.Some? && k <= w.deadWallIndex + 2
  {
    assert 60 in Undrawn(w);
    var idx := DeadIndex(TILES, w.deadWallIndex);
    if idx == w.indicator {
      assert DeadTarget(TILES, w.wallIndex, w.indicator, w.deadWallIndex)
          == DeadTarget(TILES, w.wallIndex, w.indicator, w.deadWallIndex + 1);
    }
  }

  function LayInitialFlower(s: State, seat: Seat, f: TileId): State {
    var p := s.players[seat];
    SetPlayer(s, seat, p.(closedHand := RemoveFirst(p.closedHand, f), flowerMelds := p.flowerMelds + [f]))
  }

  lemma LayInitialFlowerKeeps(s: State, seat: Seat, f: TileId)
    requires Early(s) && f in s.players[seat].closedHand && IsFlower(f)
    ensures var s' := LayInitialFlower(s, seat, f);
            && CoreInv(s') && OnlyFlowersLaid(s') && FlowersLaid(s') == FlowersLaid(s) + 1 <= 8
            && s'.w == s.w && s'.wallCount == s.wallCount && Measure(s') == Measure(s) - 1 && s'.events == s.events
  {
    hide Undrawn, WangpaiUndrawn, Total, WallLaid, Placed;
    var s' := LayInitialFlower(s, seat, f);
    assert PlayerTiles(s'.players[seat]) == PlayerTiles(s.players[seat]);
    PlacedSame(s.players, seat, s'.players[seat]);
    MeldsStayNonempty(s, s', seat);
    Rebalanced(s, s');
    AtMostEightFlowers(s');
    assert seat == 0 || seat == 1 || seat == 2 || seat == 3;
  }

  lemma SetDrawnKeeps(s: State, seat: Seat, drawn: Option<TileId>)
    requires CoreInv(s)
    ensures var s' := SetPlayer(s, seat, s.players[seat].(drawn := drawn));
            CoreInv(s') && Measure(s') == Measure(s)
  {
    hide Undrawn, WangpaiUndrawn, Total, WallLaid, Placed;
    var s' := SetPlayer(s, seat, s.players[seat].(drawn := drawn));
    PlacedSame(s.players, seat, s'.players[seat]);
    Rebalanced(s, s');
  }

  /** One replacement: the state after laying flower f down, drawing from w' at idx and leaving the drawn mark alone. */
  function Replaced(s: State, seat: Seat, f: TileId, w': WallState, idx: nat): State
    requires idx < |w'.tiles|
  {
    var s1 := LayInitialFlower(s, seat, f);
    var s3 := LogEvent(TakeTile(s1.(w := w'), seat, idx), PublicEvent(FlowerEvent, seat, FaceCode(f), -1, false, false));
    SetPlayer(s3, seat, s3.players[seat].(drawn := s.players[seat].drawn))
  }

  lemma ReplacedKeeps(s: State, seat: Seat, f: TileId, w': WallState, idx: nat)
    requires Early(s) && f in s.players[seat].closedHand && IsFlower(f)
    requires WallLaid(w') && w' == s.w.(deadWallIndex := w'.deadWallIndex) && w'.deadWallIndex <= s.w.deadWallIndex + 2
    requires idx < |s.w.tiles| && idx in Undrawn(s.w) && Undrawn(w') == Undrawn(s.w) - {idx}
    ensures var s' := Replaced(s, seat, f, w', idx);
            Early(s') && Measure(s') < Measure(s) && OtherHandsSame(s, s', seat) && forall q: Seat :: Size(s'.players[q]) == Size(s.players[q])
  {
    hide Undrawn, WangpaiUndrawn, Total, Placed, Conserved, WallLaid, Measure, RemoveFirst;
    var s1 := LayInitialFlower(s, seat, f);
    var e := PublicEvent(FlowerEvent, seat, FaceCode(f), -1, false, false);
    LayInitialFlowerKeeps(s, seat, f);
    TakeTileKeeps(s1, w', seat, idx, e);
    SetDrawnKeeps(LogEvent(TakeTile(s1.(w := w'), seat, idx), e), seat, s.players[seat].drawn);
  }

  /** Each dealt flower is laid down and replaced: the hand keeps its size and no flower is left in it. */
  lemma InitialFlowersOfKeeps(s: State, seat: Seat)
    requires Early(s)
    ensures var s' := InitialFlowersOf(s, seat);
            && Early(s') && OtherHandsSame(s, s', seat) && FlowerOf(s', seat).None?
            && (forall q: Seat :: Size(s'.players[q]) == Size(s.players[q]))
    decreases Measure(s)
  {
    hide Undrawn, WangpaiUndrawn, CoreInv, FlowersLaid, OnlyFlowersLaid, TakeTile, Measure;
    match FlowerOf(s, seat)
    case None =>
    case Some(f) =>
      LayInitialFlowerKeeps(s, seat, f);
      EarlyHasTiles(s);
      DeadTargetGivesOne(s.w);
      DeadTargetIsUndrawn(s.w);
      var (k, target) := DeadTarget(|s.w.tiles|, s.w.wallIndex, s.w.indicator, s.w.deadWallIndex);
      var w' := s.w.(deadWallIndex := k);
      ReplacedKeeps(s, seat, f, w', target.value);
      InitialFlowersOfUnfolds(s, seat, f);
      InitialFlowersOfKeeps(Replaced(s, seat, f, w', target.value), seat);
  }

  lemma EarlyHasTiles(s: State)
    requires Early(s) && FlowersLaid(s) <= 7
    ensures WallLaid(s.w) && Undrawn(s.w) != {} && s.wallCount > 0
    ensures var (k, target) := DeadTarget(|s.w.tiles|, s.w.wallIndex, s.w.indicator, s.w.deadWallIndex);
            target.Some? && k <= s.w.deadWallIndex + 2
  {
    hide Undrawn, WangpaiUndrawn, Conserved, FlowersLaid, DeadTarget;
    EarlyTarget(s.w);
  }

  lemma InitialFlowersOfUnfolds(s: State, seat: Seat, f: TileId)
    requires FlowerOf(s, seat) == Some(f) && s.wallCount > 0
    ensures var (k, target) := DeadTarget(|s.w.tiles|, s.w.wallIndex, s.w.indicator, s.w.deadWallIndex);
            target.Some? ==> InitialFlowersOf(s, seat) == InitialFlowersOf(Replaced(s, seat, f, s.w.(deadWallIndex := k), target.value), seat)
  {
    hide FirstRevealable, WangpaiUndrawn, DeadTarget;
  }

  lemma DealIsEarly(wall: seq<TileId>, diceSum: nat, isHaitei: bool)
    requires FullWall(wall) && 2 <= diceSum <= 12
    ensures Early(Deal(wall, diceSum, isHaitei))
  {
    hide CoreInv;
    DealKeeps(wall, diceSum, isHaitei);
  }

  lemma InitialFlowersStep(s: State, seat: Seat, unchecked: set<Seat>)
    requires Early(s) && Sized(s, {}) && NoFlowersBut(s, unchecked)
    ensures var s' := InitialFlowersOf(s, seat);
            Early(s') && Sized(s', {}) && NoFlowersBut(s', unchecked - {seat})
  {
    hide Early, InitialFlowersOf;
    InitialFlowersOfKeeps(s, seat);
    var s' := InitialFlowersOf(s, seat);
    forall q: Seat, t | q !in unchecked - {seat} && t in s'.players[q].closedHand ensures !Revealable(s', t) {
      if q != seat {
        assert t in s.players[q].closedHand && !Revealable(s, t);
      }
    }
  }

  lemma InitialFlowersKeeps(s: State, dealer: Seat)
    requires Early(s) && Sized(s, {})
    ensures var s' := InitialFlowers(s, dealer);
            && Early(s') && Sized(s', {}) && NoFlowersBut(s', {}) && s'.result == s.result && s'.w.wallIndex == s.w.wallIndex
  {
    hide Early, InitialFlowersOf, Sized;
    var a, b, c, d := dealer, Next(dealer), Next(Next(dealer)), Next(Next(Next(dealer)));
    InitialFlowersStep(s, a, {0, 1, 2, 3});
    var s1 := InitialFlowersOf(s, a);
    InitialFlowersStep(s1, b, {0, 1, 2, 3} - {a});
    var s2 := InitialFlowersOf(s1, b);
    InitialFlowersStep(s2, c, {0, 1, 2, 3} - {a} - {b});
    var s3 := InitialFlowersOf(s2, c);
    InitialFlowersStep(s3, d, {0, 1, 2, 3} - {a} - {b} - {c});
    assert {0, 1, 2, 3} - {a} - {b} - {c} - {d} == {};
  }

  lemma NoInitialFlowersLeft(s: State, dealer: Seat)
    requires forall q: Seat :: FlowerOf(s, q).None?
    ensures InitialFlowers(s, dealer) == s
  {
  }

  lemma FirstDrawKeeps(s: State, dealer: Seat)
    requires Early(s) && s.w.wallIndex == 52 && s.phase == PlayerTurn && s.active == dealer && s.result.None?
    requires Sized(s, {}) && NoFlowersBut(s, {})
    ensures var s' := SystemDraw(s, dealer);
            Inv(s') && (s'.phase == PlayerTurn ==> s'.players[dealer].offer == TurnOffer)
  {
    hide Undrawn, WangpaiUndrawn, Total, Placed, Sized, NoFlowersBut, Conserved, AutoReveal, FlowersLaid;
    AtMostEightFlowers(s);
    assert SkipConsumed(|s.w.tiles|, s.w.deadWallIndex, s.w.boundary, 52) == 52;
    SkipGivesUpNothing(s.w, 52);
    FrontDrawKeeps(s, dealer, 52);
  }

  /** Start of every hand: whatever the shuffle, the dice, the dealer and a stale haitei flag, the invariant holds. */
  lemma StartHandKeeps(wall: seq<TileId>, dealer: Seat, diceSum: nat, isHaitei: bool)
    requires FullWall(wall) && 2 <= diceSum <= 12
    ensures Inv(StartHand(wall, dealer, diceSum, isHaitei))
  {
    hide Early, InitialFlowers, SystemDraw, Sized, NoFlowersBut, CoreInv;
    var s0 := Deal(wall, diceSum, isHaitei);
    DealIsEarly(wall, diceSum, isHaitei);
    DealKeeps(wall, diceSum, isHaitei);
    InitialFlowersKeeps(s0, dealer);
    var s1 := InitialFlowers(s0, dealer);
    var s1' := s1.(phase := PlayerTurn, active := dealer);
    SamePlayers(s1, s1');
    EarlyTable(s1, s1');
    FirstDrawKeeps(s1', dealer);
    var s2 := SystemDraw(s1', dealer);
    FirstDrawClears(s1', dealer);
    NoInitialFlowersLeft(s2, dealer);
    OfferKeeps(s2, dealer, TurnOffer);
    OfferSizes(s2, dealer, TurnOffer);
  }

  lemma EarlyTable(s: State, s': State)
    requires Early(s) && s' == s.(phase := s'.phase, active := s'.active)
    ensures Early(s') && s'.w.wallIndex <= s'.w.boundary <= |s'.w.tiles|
  {
    hide Total, Undrawn, WangpaiUndrawn, Placed, FullWall;
    Rebalanced(s, s');
  }

  lemma FirstDrawClears(s: State, dealer: Seat)
    requires s.w.wallIndex <= s.w.boundary <= |s.w.tiles| && NoFlowersBut(s, {})
    ensures forall q: Seat :: FlowerOf(SystemDraw(s, dealer), q).None?
  {
    hide SystemDraw;
    var s' := SystemDraw(s, dealer);
    forall q: Seat ensures FlowerOf(s', q).None? {
      assert FlowerOf(s, q).None?;
      assert q != dealer ==> forall t | t in s'.players[q].closedHand :: !Revealable(s, t);
    }
  }
}
