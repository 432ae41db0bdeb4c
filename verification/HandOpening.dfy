/** Every hand opens with a decision of the dealer: the deal, its flowers and the first draw never exhaust the wall. */
module HandOpening {
  import opened Tiles
  import opened Wall
  import opened Hand
  import opened HandInvariant
  import opened HandSteps
  import opened HandStart

  /** Nothing but the flowers laid down has moved the back of the wall, with room for slack more steps. */
  ghost predicate Roomy(s: State, slack: nat) {
    && FullWall(s.w.tiles) && OnlyFlowersLaid(s)
    && s.w.wallIndex <= 54 && s.w.boundary >= 120 && s.w.haiteiDraw == -1
    && s.w.deadWallIndex + slack <= 2 * FlowersLaid(s)
  }

  lemma SameFlowers(s: State, s': State, slack: nat)
    requires forall q: Seat :: s'.players[q].flowerMelds == s.players[q].flowerMelds
    requires s'.w == s.w && Roomy(s, slack)
    ensures Roomy(s', slack)
  {
    hide FullWall;
  }

  lemma LaidOneMore(s: State, seat: Seat, f: TileId)
    requires Roomy(s, 0) && FlowerOf(s, seat) == Some(f)
    ensures Roomy(MoveFlower(s, seat, f), 2)
  {
    hide FullWall, FaceCode, RemoveFirst;
    var s' := MoveFlower(s, seat, f);
    assert seat == 0 || seat == 1 || seat == 2 || seat == 3;
    assert FlowersLaid(s') == FlowersLaid(s) + 1;
  }

  lemma DrawnOneMore(s: State, seat: Seat, k: nat, idx: nat, e: PublicEvent)
    requires Roomy(s, 2) && k <= s.w.deadWallIndex + 2 && idx < |s.w.tiles|
    ensures Roomy(LogEvent(TakeTile(s.(w := s.w.(deadWallIndex := k)), seat, idx), e), 0)
  {
    hide FullWall, WangpaiUndrawn;
    var s' := LogEvent(TakeTile(s.(w := s.w.(deadWallIndex := k)), seat, idx), e);
    assert forall q: Seat :: s'.players[q].flowerMelds == s.players[q].flowerMelds;
  }

  /** A replacement this early finds its tile. */
  lemma EarlyDrawGoesOn(s: State, seat: Seat)
    requires CoreInv(s) && Roomy(s, 2) && s.phase == PlayerTurn
    ensures var s' := DeadWallDraw(s, seat); s'.phase == PlayerTurn && CoreInv(s') && Roomy(s', 0)
    decreases Measure(s), 0
  {
    hide Total, Placed, Hidden, WonTile, Undrawn, WangpaiUndrawn, Conserved, MeldsNonempty, FlowersLaid, OnlyFlowersLaid, AutoReveal, FaceCode, DeadTarget, EventBudget;
    FewFlowers(s);
    EarlyTarget(s.w);
    DeadTargetGivesOne(s.w);
    DeadTargetIsUndrawn(s.w);
    var (k, target) := DeadTarget(|s.w.tiles|, s.w.wallIndex, s.w.indicator, s.w.deadWallIndex);
    var e := DrawEventOf(seat, s.w.tiles[target.value], false);
    TakeTileKeeps(s, s.w.(deadWallIndex := k), seat, target.value, e);
    DrawnOneMore(s, seat, k, target.value, e);
    EarlyRevealGoesOn(LogEvent(TakeTile(s.(w := s.w.(deadWallIndex := k)), seat, target.value), e), seat);
  }

  lemma FewFlowers(s: State)
    requires CoreInv(s) && Roomy(s, 2)
    ensures WallLaid(s.w) && |s.w.tiles| == TILES && s.w.deadWallIndex <= 14 && s.wallCount == |Undrawn(s.w)|
  {
    hide Total, Placed, Hidden, WonTile, Undrawn, WangpaiUndrawn, Conserved, MeldsNonempty, FlowersLaid;
    AtMostEightFlowers(s);
  }

  lemma EarlyRevealGoesOn(s: State, seat: Seat)
    requires CoreInv(s) && Roomy(s, 0) && s.phase == PlayerTurn
    ensures var s' := AutoReveal(s, seat); s'.phase == PlayerTurn && CoreInv(s') && Roomy(s', 0)
    decreases Measure(s), 1
  {
    hide CoreInv, Roomy, DeadWallDraw, FirstRevealable, MoveFlower;
    var flower := FlowerOf(s, seat);
    if flower.Some? {
      LaidOneMore(s, seat, flower.value);
      MoveFlowerKeeps(s, seat, flower.value);
      var s1 := MoveFlower(s, seat, flower.value);
      LayingKeepsPhase(s, seat, flower.value);
      EarlyDrawGoesOn(s1, seat);
      var s2 := DeadWallDraw(s1, seat);
      assert ResumeTurn(s2) == s2;
      EarlyRevealGoesOn(s2, seat);
    } else {
      OfferKeeps(s, seat, TurnOffer);
      SameFlowers(s, SetOffer(s, seat, TurnOffer), 0);
    }
  }

  lemma LayingKeepsPhase(s: State, seat: Seat, f: TileId)
    requires f in s.players[seat].closedHand
    ensures MoveFlower(s, seat, f).phase == s.phase
  {
  }

  /** So does the draw that opens one of the first two turns. */
  lemma EarlyTurnGoesOn(s: State, seat: Seat)
    requires CoreInv(s) && Roomy(s, 0) && 52 <= s.w.wallIndex <= 53 && s.phase == PlayerTurn
    ensures s.w.wallIndex <= s.w.boundary <= |s.w.tiles|
    ensures var s' := SystemDraw(s, seat); s'.phase == PlayerTurn && CoreInv(s') && Roomy(s', 0) && s'.w.wallIndex == s.w.wallIndex + 1
  {
    hide Total, Placed, Hidden, WonTile, Undrawn, WangpaiUndrawn, Conserved, MeldsNonempty, AutoReveal, FaceCode, EventBudget, FlowersLaid, OnlyFlowersLaid;
    AtMostEightFlowers(s);
    var f := s.w.wallIndex;
    assert SkipConsumed(|s.w.tiles|, s.w.deadWallIndex, s.w.boundary, f) == f;
    SkipGivesUpNothing(s.w, f);
    var e := DrawEventOf(seat, s.w.tiles[f], false);
    TakeTileKeeps(s, s.w.(wallIndex := f + 1), seat, f, e);
    FrontDrawIsRoomy(s, seat, e);
    EarlyRevealGoesOn(LogEvent(TakeTile(s.(w := s.w.(wallIndex := f + 1)), seat, f), e), seat);
  }

  lemma FrontDrawIsRoomy(s: State, seat: Seat, e: PublicEvent)
    requires Roomy(s, 0) && s.w.wallIndex <= 53 && s.w.wallIndex < |s.w.tiles|
    ensures Roomy(LogEvent(TakeTile(s.(w := s.w.(wallIndex := s.w.wallIndex + 1)), seat, s.w.wallIndex), e), 0)
  {
    hide FullWall, WangpaiUndrawn;
    var s' := LogEvent(TakeTile(s.(w := s.w.(wallIndex := s.w.wallIndex + 1)), seat, s.w.wallIndex), e);
    assert forall q: Seat :: s'.players[q].flowerMelds == s.players[q].flowerMelds;
  }

  lemma SystemDrawKeepsActive(s: State, seat: Seat)
    requires s.w.wallIndex <= s.w.boundary <= |s.w.tiles|
    ensures SystemDraw(s, seat).active == s.active
  {
    hide AutoReveal, WangpaiUndrawn, FaceCode;
  }

  /** Whatever the shuffle, the dice, the dealer and the flag left over: a started hand waits for the dealer's turn. */
  lemma HandsOpenWithATurn(wall: seq<TileId>, dealer: Seat, diceSum: nat, isHaitei: bool)
    requires FullWall(wall) && 2 <= diceSum <= 12
    ensures var s := StartHand(wall, dealer, diceSum, isHaitei);
            s.phase == PlayerTurn && s.active == dealer && s.players[dealer].offer == TurnOffer && Roomy(s, 0) && s.w.wallIndex == 53
  {
    hide Early, InitialFlowers, SystemDraw, Sized, NoFlowersBut, CoreInv, OnlyFlowersLaid, FlowersLaid;
    var s0 := Deal(wall, diceSum, isHaitei);
    DealIsEarly(wall, diceSum, isHaitei);
    DealKeeps(wall, diceSum, isHaitei);
    InitialFlowersKeeps(s0, dealer);
    var s1 := InitialFlowers(s0, dealer);
    var s1' := s1.(phase := PlayerTurn, active := dealer);
    EarlyTable(s1, s1');
    EarlyIsRoomy(s1');
    EarlyTurnGoesOn(s1', dealer);
    SystemDrawKeepsActive(s1', dealer);
    var s2 := SystemDraw(s1', dealer);
    SamePlayers(s1, s1');
    FirstDrawClears(s1', dealer);
    NoInitialFlowersLeft(s2, dealer);
    SameFlowers(s2, SetOffer(s2, dealer, TurnOffer), 0);
  }

  lemma EarlyIsRoomy(s: State)
    requires Early(s)
    ensures CoreInv(s) && Roomy(s, 0)
  {
    hide CoreInv, FullWall, OnlyFlowersLaid, FlowersLaid;
  }
}
