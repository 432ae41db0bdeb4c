/** The haitei flag a tsumo leaves up, and what it does to the first discard of the next hand. */
module StaleFlag {
  import opened Tiles
  import opened Wall
  import opened Hand
  import opened HandInvariant
  import opened HandSteps
  import opened HandStart
  import opened HandOpening
  import opened HandRuns
  import opened HandLimits

  /** Nobody may ron the tile the seat to act is about to discard. */
  ghost predicate NobodyRons(r: Rules, s: State, t: TileId) {
    forall q: Seat | q != s.active :: Ron !in r.interrupts(TableOf(DiscardTile(s, s.active, t)), t, q)
  }

  ghost predicate NobodyClaims(r: Rules, s: State, t: TileId) {
    forall q: Seat | q != s.active :: r.interrupts(TableOf(DiscardTile(s, s.active, t)), t, q) == []
  }

  /** Under the flag a discard ends the hand in a draw exactly when nobody may ron it, whatever else could be called. */
  lemma DiscardUnderTheFlag(r: Rules, s: State, t: TileId)
    requires s.w.wallIndex <= s.w.boundary <= |s.w.tiles| && t in s.players[s.active].closedHand && s.isHaitei && s.phase == PlayerTurn
    ensures var s' := HandleDiscard(r, s, s.active, t).0;
            if NobodyRons(r, s, t) then s'.phase == RoundEnd && s'.result == Some(Exhausted) && s'.wallCount == s.wallCount && !s'.isHaitei
            else s'.phase == WaitDiscards && s'.isHaitei
  {
    hide SystemDraw, TableOf, DiscardTile, ClaimOfferFor, MustAnswer;
    var s1 := DiscardTile(s, s.active, t);
    DiscardKeepsFlowers(s, s.active, t);
    forall q: Seat ensures MustAnswer(ClaimOfferFor(r, s1, t, s.active, q)) <==> q != s.active && Ron in r.interrupts(TableOf(s1), t, q) {
      OnlyRonsAreOffered(r, s1, t, s.active, q);
    }
  }

  lemma OnlyRonsAreOffered(r: Rules, s: State, t: TileId, discarder: Seat, q: Seat)
    requires s.isHaitei
    ensures MustAnswer(ClaimOfferFor(r, s, t, discarder, q)) <==> q != discarder && Ron in r.interrupts(TableOf(s), t, q)
  {
    hide TableOf;
    var rons := ClaimsFor(r, s, t, q);
    if rons != [] {
      assert rons[0] in r.interrupts(TableOf(s), t, q);
    }
  }

  lemma UnclaimedUnder(r: Rules, s: State, t: TileId)
    requires NobodyClaims(r, s, t)
    ensures NobodyRons(r, s, t)
  {
    hide TableOf, DiscardTile;
  }

  /** After its first discard a hand whose flag is down goes on. */
  lemma FlagDownGoesOn(r: Rules, s: State, t: TileId)
    requires RulesOk(r) && Inv(s) && Roomy(s, 0) && s.w.wallIndex == 53 && s.phase == PlayerTurn && !s.isHaitei
    requires s.players[s.active].offer == TurnOffer && t in s.players[s.active].closedHand && NobodyClaims(r, s, t)
    requires s.w.boundary <= |s.w.tiles|
    ensures var s' := HandleDiscard(r, s, s.active, t).0; s'.phase == PlayerTurn && s'.active == Next(s.active)
  {
    hide CoreInv, TurnInv, RulesOk, SystemDraw, TableOf, FullWall, OnlyFlowersLaid, FlowersLaid, DiscardTile;
    var seat := s.active;
    var s1 := DiscardTile(s, seat, t);
    DiscardTileKeeps(s, seat, t);
    OfferClaimsKeeps(r, s1, t, seat);
    var s2 := OfferClaims(r, s1, t, seat);
    assert forall q: Seat | q != seat :: ClaimsFor(r, s1, t, q) == [];
    DiscardKeepsFlowers(s, seat, t);
    var s3 := s2.(active := Next(s2.active), phase := PlayerTurn, activeDiscard := None);
    SameTable(s2, s3);
    SameFlowers(s, s3, 0);
    EarlyTurnGoesOn(s3, Next(s2.active));
    SystemDrawKeepsActive(s3, Next(s2.active));
  }

  lemma DiscardKeepsFlowers(s: State, seat: Seat, t: TileId)
    ensures var s' := DiscardTile(s, seat, t);
            && s'.w == s.w && s'.wallCount == s.wallCount && s'.active == s.active && s'.isHaitei == s.isHaitei && s'.phase == s.phase
            && forall q: Seat :: s'.players[q].flowerMelds == s.players[q].flowerMelds
  {
  }

  lemma SameTable(s: State, s': State)
    requires CoreInv(s) && s' == s.(active := s'.active, phase := s'.phase, activeDiscard := s'.activeDiscard)
    ensures CoreInv(s')
  {
    hide Total, Undrawn, WangpaiUndrawn, Placed;
    Rebalanced(s, s');
  }

  /** The first discard of any hand, if nobody claims it: the flag left behind by the hand before decides whether the hand
      ends there and then, with its whole wall still to be drawn. */
  lemma FirstDiscardExact(r: Rules, wall: seq<TileId>, dealer: Seat, diceSum: nat, isHaitei: bool, t: TileId)
    requires RulesOk(r) && FullWall(wall) && 2 <= diceSum <= 12
    requires var s := StartHand(wall, dealer, diceSum, isHaitei);
             t in s.players[dealer].closedHand && NobodyClaims(r, s, t)
    ensures var s := StartHand(wall, dealer, diceSum, isHaitei);
            var s' := After(r, s, OnTurn(dealer, Discard(t)));
            && Offered(r, s, OnTurn(dealer, Discard(t))) && HaiteiGuard(s, OnTurn(dealer, Discard(t)))
            && (isHaitei ==> s'.phase == RoundEnd && s'.result == Some(Exhausted) && s'.wallCount >= 66)
            && (!isHaitei ==> s'.phase == PlayerTurn && s'.active == Next(dealer))
  {
    hide StartHand, CoreInv, TurnInv, RulesOk, HandleDiscard, NobodyClaims, NobodyRons, OnlyFlowersLaid, FlowersLaid;
    var s := StartHand(wall, dealer, diceSum, isHaitei);
    var input := OnTurn(dealer, Discard(t));
    StartHandKeeps(wall, dealer, diceSum, isHaitei);
    HandsOpenWithATurn(wall, dealer, diceSum, isHaitei);
    StartWall(wall, dealer, diceSum, isHaitei);
    OfferedIsDefined(r, s, input);
    UnclaimedUnder(r, s, t);
    WallIsFull(s);
    if isHaitei {
      DiscardUnderTheFlag(r, s, t);
    } else {
      FlagDownGoesOn(r, s, t);
    }
  }

  lemma WallIsFull(s: State)
    requires CoreInv(s) && Roomy(s, 0)
    ensures s.wallCount >= 66
  {
    hide Total, Undrawn, WangpaiUndrawn, Conserved, MeldsNonempty, FlowersLaid, OnlyFlowersLaid, Range;
    AtMostEightFlowers(s);
    LiveWallIsThere(s.w);
    SubsetCardinality(Range(54, 120), Undrawn(s.w));
  }

  lemma LiveWallIsThere(w: WallState)
    requires WallLaid(w) && |w.tiles| == TILES && w.wallIndex <= 54 && w.boundary >= 120 && w.deadWallIndex <= 16 && w.haiteiDraw == -1
    ensures Range(54, 120) <= Undrawn(w)
  {
    hide Consumed, Range;
    forall i | 54 <= i < 120 ensures i in Undrawn(w) {
      NotTakenYet(w.deadWallIndex, i);
    }
  }

  lemma NotTakenYet(k: nat, i: nat)
    requires k <= 16 && i < 120
    ensures !Consumed(TILES, k, i)
  {
  }

  // ---- Across two hands ----

  /** A seat that accepts haitei and wins on it ends the hand with the flag up; only a plain flower takes it down. */
  lemma HaiteiTsumoLeavesTheFlag(r: Rules, s: State)
    requires RulesOk(r) && Inv(s) && s.phase == PlayerTurn && s.players[s.active].offer == HaiteiOffer && s.w.haiteiDraw == -1
    ensures Offered(r, s, OnTurn(s.active, AcceptHaitei)) && FindHaitei(s.w).Some?
    ensures var s1 := After(r, s, OnTurn(s.active, AcceptHaitei));
            && (s1.isHaitei <==> !Revealable(s, s.w.tiles[FindHaitei(s.w).value]))
            && (s1.isHaitei && r.wins(TableOf(s1), s.active, None) ==>
                  && Offered(r, s1, OnTurn(s.active, Tsumo))
                  && var s2 := After(r, s1, OnTurn(s.active, Tsumo));
                     s2.phase == RoundEnd && s2.result.Some? && s2.result.value.TsumoWin? && s2.isHaitei)
  {
    hide Inv, RulesOk, StepDefined, Step, Revealable, TableOf, FindHaitei;
    AcceptedHaitei(s);
    AcceptIsAStep(r, s);
    var s1 := HaiteiAccept(s, s.active).0;
    hide HaiteiAccept;
    assert s1.isHaitei ==> s1.phase == PlayerTurn && s1.active == s.active && s1.players[s.active].offer == TurnOffer;
    if s1.isHaitei && r.wins(TableOf(s1), s.active, None) {
      TsumoIsAStep(r, s1);
      TsumoEnds(r, s1, s.active);
    }
  }

  lemma AcceptIsAStep(r: Rules, s: State)
    requires RulesOk(r) && Inv(s) && s.phase == PlayerTurn && s.players[s.active].offer == HaiteiOffer && s.w.haiteiDraw == -1
    ensures Offered(r, s, OnTurn(s.active, AcceptHaitei)) && Inv(HaiteiAccept(s, s.active).0)
    ensures After(r, s, OnTurn(s.active, AcceptHaitei)) == HaiteiAccept(s, s.active).0
  {
    hide Inv, HaiteiAccept;
    OfferedIsDefined(r, s, OnTurn(s.active, AcceptHaitei));
    HaiteiAcceptKeeps(s, s.active);
  }

  lemma TsumoIsAStep(r: Rules, s: State)
    requires Inv(s) && s.phase == PlayerTurn && s.players[s.active].offer == TurnOffer && r.wins(TableOf(s), s.active, None)
    ensures Offered(r, s, OnTurn(s.active, Tsumo))
    ensures After(r, s, OnTurn(s.active, Tsumo)) == HandleTsumo(r, s, s.active).0
  {
    hide Inv, HandleTsumo, TableOf;
    OfferedIsDefined(r, s, OnTurn(s.active, Tsumo));
  }

  lemma AcceptedHaitei(s: State)
    requires Inv(s) && s.phase == PlayerTurn && s.players[s.active].offer == HaiteiOffer && s.w.haiteiDraw == -1
    ensures FindHaitei(s.w).Some?
    ensures var s1 := HaiteiAccept(s, s.active).0;
            && (s1.isHaitei <==> !Revealable(s, s.w.tiles[FindHaitei(s.w).value]))
            && (s1.isHaitei ==> s1.phase == PlayerTurn && s1.active == s.active && s1.players[s.active].offer == TurnOffer)
  {
    hide CoreInv, Sized, AutoReveal, WangpaiUndrawn, FaceCode;
    var seat := s.active;
    var idx := FindHaitei(s.w).value;
    var s1 := LogEvent(TakeTile(s.(w := s.w.(haiteiDraw := idx)), seat, idx), DrawEventOf(seat, s.w.tiles[idx], true));
    assert s1.players[seat].closedHand == s.players[seat].closedHand + [s.w.tiles[idx]];
    assert s.w.tiles[idx] in s1.players[seat].closedHand;
    forall t | t in s1.players[seat].closedHand && Revealable(s1, t) ensures t == s.w.tiles[idx] {
      assert t in s.players[seat].closedHand ==> !Revealable(s, t);
    }
  }

  lemma TsumoEnds(r: Rules, s: State, seat: Seat)
    requires r.wins(TableOf(s), seat, None)
    ensures var s' := HandleTsumo(r, s, seat).0;
            s'.phase == RoundEnd && s'.result.Some? && s'.result.value.TsumoWin? && s'.isHaitei == s.isHaitei
  {
    hide TableOf;
  }

  /** Two hands in a row: haitei accepted and won on, then a fresh wall, whatever the dealer and the dice. The first
      discard of the new hand, if nobody claims it, ends that hand in a draw. */
  lemma HaiteiTsumoCutsTheNextHandShort(r: Rules, s: State, wall: seq<TileId>, dealer: Seat, diceSum: nat, t: TileId)
    requires RulesOk(r) && Inv(s) && s.phase == PlayerTurn && s.players[s.active].offer == HaiteiOffer && s.w.haiteiDraw == -1
    requires var s1 := After(r, s, OnTurn(s.active, AcceptHaitei)); s1.isHaitei && r.wins(TableOf(s1), s.active, None)
    requires FullWall(wall) && 2 <= diceSum <= 12
    requires var s2 := After(r, After(r, s, OnTurn(s.active, AcceptHaitei)), OnTurn(s.active, Tsumo));
             var next := StartHand(wall, dealer, diceSum, s2.isHaitei);
             t in next.players[dealer].closedHand && NobodyClaims(r, next, t)
    ensures var s2 := After(r, After(r, s, OnTurn(s.active, AcceptHaitei)), OnTurn(s.active, Tsumo));
            var next := StartHand(wall, dealer, diceSum, s2.isHaitei);
            var s' := After(r, next, OnTurn(dealer, Discard(t)));
            && s2.phase == RoundEnd && Offered(r, next, OnTurn(dealer, Discard(t)))
            && s'.phase == RoundEnd && s'.result == Some(Exhausted) && s'.wallCount >= 66
  {
    hide StartHand, Inv, RulesOk, Offered, StepDefined, Step, NobodyClaims, TableOf, FullWall;
    HaiteiTsumoLeavesTheFlag(r, s);
    FirstDiscardExact(r, wall, dealer, diceSum, true, t);
  }
}
