/** How a hand ends: who wins it, on what, from whom, and when it is drawn. */
module HandOutcomes {
  import opened Tiles
  import opened Wall
  import opened Hand
  import opened HandInvariant
  import opened HandSteps
  import opened HandLimits
  import opened EngineLaws
  import opened ClaimWindow

  // ---- Supplementary draws only ever draw a hand ----

  /** A draw leaves the result alone or draws the hand. */
  predicate DrawnAtMost(s: State, s': State) {
    s'.result == s.result || s'.result == Some(Exhausted)
  }

  lemma {:induction false} DeadWallDrawResult(s: State, seat: Seat)
    ensures DrawnAtMost(s, DeadWallDraw(s, seat))
    decreases Measure(s), 0
  {
    hide AutoReveal, FaceCode, WangpaiUndrawn, Measure;
    var (k, target) := DeadTarget(|s.w.tiles|, s.w.wallIndex, s.w.indicator, s.w.deadWallIndex);
    if s.wallCount > 0 && target.Some? {
      var drawn := LogEvent(TakeTile(s.(w := s.w.(deadWallIndex := k)), seat, target.value),
                            DrawEventOf(seat, s.w.tiles[target.value], false));
      DrawLowersMeasure(s, s.w.(deadWallIndex := k), seat, target.value, DrawEventOf(seat, s.w.tiles[target.value], false));
      AutoRevealResult(drawn, seat);
    }
  }

  lemma DrawLowersMeasure(s: State, w': WallState, seat: Seat, idx: nat, e: PublicEvent)
    requires idx < |w'.tiles| && s.wallCount > 0
    ensures Measure(LogEvent(TakeTile(s.(w := w'), seat, idx), e)) < Measure(s)
  {
    hide WangpaiUndrawn;
    assert seat == 0 || seat == 1 || seat == 2 || seat == 3;
  }

  lemma {:induction false} AutoRevealResult(s: State, seat: Seat)
    ensures DrawnAtMost(s, AutoReveal(s, seat))
    decreases Measure(s), 1
  {
    hide DeadWallDraw, FaceCode, Measure;
    var flower := FlowerOf(s, seat);
    if flower.Some? {
      var s1 := MoveFlower(s, seat, flower.value);
      DeadWallDrawResult(s1, seat);
      SameMeasure(DeadWallDraw(s1, seat));
      AutoRevealResult(ResumeTurn(DeadWallDraw(s1, seat)), seat);
    }
  }

  lemma SameMeasure(s: State)
    ensures Measure(ResumeTurn(s)) == Measure(s)
  {
  }

  lemma SystemDrawResult(s: State, seat: Seat)
    requires s.w.wallIndex <= s.w.boundary <= |s.w.tiles|
    ensures DrawnAtMost(s, SystemDraw(s, seat))
  {
    hide AutoReveal, FaceCode, WangpaiUndrawn;
    var f := SkipConsumed(|s.w.tiles|, s.w.deadWallIndex, s.w.boundary, s.w.wallIndex);
    if f < s.w.boundary {
      AutoRevealResult(LogEvent(TakeTile(s.(w := s.w.(wallIndex := f + 1)), seat, f), DrawEventOf(seat, s.w.tiles[f], false)), seat);
    }
  }

  lemma NextTurnResult(s: State)
    requires s.w.wallIndex <= s.w.boundary <= |s.w.tiles|
    ensures DrawnAtMost(s, NextTurn(s))
  {
    SystemDrawResult(s.(active := Next(s.active), phase := PlayerTurn, activeDiscard := None), Next(s.active));
  }

  // ---- Wins ----

  /** The queue with a message's answer in it. */
  function Answers(s: State, input: Input): map<Seat, Claim>
    requires input.InWindow?
  {
    s.queue[input.seat := input.claim]
  }

  /** A ron: the message answers a window; the winner's own answer is Ron, no lower seat's is, and its hand wins on the open
      discard, which it takes from the seat that made it. */
  ghost predicate RonIsEarned(r: Rules, s: State, input: Input, won: Result)
    requires won.RonWin?
  {
    && input.InWindow? && s.phase == WaitDiscards
    && won.winner in Answers(s, input) && Answers(s, input)[won.winner] == Ron
    && (forall q: Seat | q in Answers(s, input) && q < won.winner :: Answers(s, input)[q] != Ron)
    && won.discarder == s.active && s.activeDiscard == Some(won.ronTile)
    && r.wins(TableOf(s), won.winner, s.activeDiscard)
  }

  /** A self-drawn win: the seat to act declared it itself, its hand wins, and the winning tile is the one it drew. */
  ghost predicate TsumoIsEarned(r: Rules, s: State, input: Input, won: Result)
    requires won.TsumoWin?
  {
    && input == OnTurn(won.winner, Tsumo) && s.phase == PlayerTurn && won.winner == s.active
    && r.wins(TableOf(s), won.winner, None)
    && (won.winTile.Some? <==> s.players[won.winner].drawn.Some? && s.players[won.winner].drawn.value in s.players[won.winner].closedHand)
    && (won.winTile.Some? ==> won.winTile == s.players[won.winner].drawn)
  }

  lemma KanResult(s: State, seat: Seat, tiles: seq<TileId>, isKan: bool)
    requires tiles != [] && (isKan ==> MeldsNonempty(s))
    ensures DrawnAtMost(s, HandleKongOrFlower(s, seat, tiles, isKan).0)
  {
    hide DeadWallDraw, MeldsNonempty, FaceCode, MatchingPon;
    var (rest, ok) := RemoveEach(s.players[seat].closedHand, tiles);
    if ok {
      DeadWallDrawResult(if isKan then DeclareKan(s, seat, tiles, rest) else LayFlowers(s, seat, tiles, rest), seat);
    }
  }

  lemma AcceptResult(s: State, seat: Seat)
    ensures DrawnAtMost(s, HaiteiAccept(s, seat).0)
  {
    hide AutoReveal, FaceCode, WangpaiUndrawn;
    var target := FindHaitei(s.w);
    if target.Some? {
      var s1 := LogEvent(TakeTile(s.(w := s.w.(haiteiDraw := target.value)), seat, target.value),
                         DrawEventOf(seat, s.w.tiles[target.value], true));
      AutoRevealResult(s1.(isHaitei := false), seat);
    }
  }

  lemma DiscardResult(r: Rules, s: State, seat: Seat, t: TileId)
    requires s.w.wallIndex <= s.w.boundary <= |s.w.tiles|
    ensures DrawnAtMost(s, HandleDiscard(r, s, seat, t).0)
  {
    hide NextTurn, ClaimOfferFor, FaceCode, RemoveFirst;
    if t in s.players[seat].closedHand {
      NextTurnResult(OfferClaims(r, DiscardTile(s, seat, t), t, seat));
    }
  }

  lemma MeldResult(s: State, winner: Seat, c: Claim)
    requires s.activeDiscard.Some? && (c.Chii? || c.Pon? || c.Kan?)
    ensures DrawnAtMost(s, ApplyMeld(s, winner, c))
  {
    hide AutoReveal, DeadWallDraw, RemovePresent, FaceCode, DropLast;
    var s1 := TakeDiscard(s, winner, c);
    DeadWallDrawResult(s1, winner);
    AutoRevealResult(s1.(phase := PlayerTurn), winner);
  }

  lemma NoRonBelow(queue: map<Seat, Claim>)
    ensures var best := BestBid(queue, 4);
            best.Some? ==> forall q: Seat | q in queue && q < best.value :: queue[q] != Ron
  {
    hide BestBid;
    var best := BestBid(queue, 4);
    forall q: Seat | best.Some? && q in queue && q < best.value ensures queue[q] != Ron {
      assert BidWeight(queue, q) < BidWeight(queue, best.value);
    }
  }

  lemma ResolveResult(r: Rules, s: State, input: Input, queued: State)
    requires s.phase == WaitDiscards && s.result.None? && s.activeDiscard.Some? && s.w.wallIndex <= s.w.boundary <= |s.w.tiles|
    requires input.InWindow? && queued == s.(queue := Answers(s, input))
    ensures var s' := Resolve(r, queued);
            s'.result.Some? && s'.result.value.RonWin? ==> RonIsEarned(r, s, input, s'.result.value)
    ensures var s' := Resolve(r, queued); s'.result.Some? ==> !s'.result.value.TsumoWin?
  {
    hide NextTurn, ApplyMeld, DropLast;
    assert TableOf(queued) == TableOf(s);
    hide TableOf;
    NextTurnResult(queued);
    var best := BestBid(queued.queue, 4);
    NoRonBelow(queued.queue);
    if best.Some? && !queued.queue[best.value].Ron? {
      MeldResult(queued, best.value, queued.queue[best.value]);
    }
  }

  /** Whatever the message, offered or not, a hand without a result can only get one the winner earned. */
  lemma WinsAreEarned(r: Rules, s: State, input: Input)
    requires StepDefined(s, input) && s.result.None?
    ensures var s' := Step(r, s, input).0;
            && (s'.result.Some? && s'.result.value.RonWin? ==> RonIsEarned(r, s, input, s'.result.value))
            && (s'.result.Some? && s'.result.value.TsumoWin? ==> TsumoIsEarned(r, s, input, s'.result.value))
  {
    hide HandleDiscard, HandleKongOrFlower, HaiteiAccept, Resolve, MeldsNonempty, TableOf, RonIsEarned, Expected;
    match input
    case OnTurn(seat, action) =>
      match action {
        case AcceptHaitei => AcceptResult(s, seat);
        case Discard(t) => DiscardResult(r, s, seat, t);
        case SelfKan(tiles) => KanResult(s, seat, tiles, true);
        case FlowerReveal(tiles) => KanResult(s, seat, tiles, false);
        case _ =>
      }
    case InWindow(seat, c) =>
      if s.phase == WaitDiscards {
        ResolveResult(r, s, input, s.(queue := s.queue[seat := c]));
      }
  }

  /** In a hand as it is played the winner of a ron is not the seat that discarded. */
  lemma RonIsFromAnother(r: Rules, s: State, input: Input, won: Result)
    requires Inv(s) && Offered(r, s, input) && won.RonWin? && RonIsEarned(r, s, input, won)
    ensures won.winner != won.discarder
  {
    hide CoreInv, Distinct, Sized, NoFlowersBut, TableOf;
  }

  // ---- Draws ----

  /** If the hand was drawn, nothing is left hidden but at most the tile the front pointer is at. */
  ghost predicate Dry(s: State) {
    s.result == Some(Exhausted) ==> Undrawn(s.w) <= {s.w.wallIndex as int}
  }

  /** The back of the wall has met the front: only the bottom tile of a stack whose top is gone may be left. */
  lemma BackMeetsFront(w: WallState)
    requires WallLaid(w)
    ensures var (k, target) := DeadTarget(|w.tiles|, w.wallIndex, w.indicator, w.deadWallIndex);
            target.None? ==> Undrawn(w.(deadWallIndex := k)) <= {w.wallIndex as int}
  {
    var n, d := |w.tiles|, w.deadWallIndex;
    DeadIndexClosed(n, d);
    DeadIndexClosed(n, d + 1);
    if w.wallIndex <= DeadIndex(n, d) == w.indicator {
      assert DeadTarget(n, w.wallIndex, w.indicator, d) == DeadTarget(n, w.wallIndex, w.indicator, d + 1);
    }
  }

  lemma DrawIsDry(s: State, seat: Seat)
    requires Books(s) && Dry(s)
    ensures Dry(DeadWallDraw(s, seat))
    decreases Measure(s), 0
  {
    hide Total, Undrawn, WangpaiUndrawn, Placed;
    if s.wallCount == 0 {
      NoneHidden(s.w);
    } else {
      var (k, target) := DeadTarget(|s.w.tiles|, s.w.wallIndex, s.w.indicator, s.w.deadWallIndex);
      var w' := s.w.(deadWallIndex := k);
      BackMeetsFront(s.w);
      DeadTargetGivesOne(s.w);
      DeadTargetIsUndrawn(s.w);
      if target.Some? {
        var e := DrawEventOf(seat, s.w.tiles[target.value], false);
        TakeTileKeeps(s, w', seat, target.value, e);
        RevealIsDry(LogEvent(TakeTile(s.(w := w'), seat, target.value), e), seat);
      }
    }
  }

  lemma NoneHidden(w: WallState)
    ensures |Undrawn(w)| == 0 ==> Undrawn(w) == {}
  {
    hide Undrawn;
  }

  lemma RevealIsDry(s: State, seat: Seat)
    requires Books(s) && Dry(s)
    ensures Dry(AutoReveal(s, seat))
    decreases Measure(s), 1
  {
    hide Total, Undrawn, WangpaiUndrawn, WallLaid, Placed;
    match FlowerOf(s, seat)
    case None =>
    case Some(f) =>
      MoveFlowerKeeps(s, seat, f);
      var s1 := MoveFlower(s, seat, f);
      DrawIsDry(s1, seat);
      DrawKeepsBooks(s1, seat);
      var s2 := DeadWallDraw(s1, seat);
      FlagsKeep(s2, ResumeTurn(s2));
      RevealIsDry(ResumeTurn(s2), seat);
  }

  /** The wall has nothing left that the hand could go on with: at most one front tile, or only tiles of the wangpai other
      than haitei. */
  ghost predicate Spent(w: WallState) {
    Undrawn(w) <= {w.wallIndex as int} || forall i | i in Undrawn(w) :: i > w.indicator + 1
  }

  lemma NextTurnSpent(s: State)
    requires CoreInv(s) && s.result.None?
    requires s.w.wallIndex <= s.w.boundary <= |s.w.tiles|
    ensures NextTurn(s).result.None? || Spent(NextTurn(s).w)
  {
    hide Total, Placed, SystemDraw, Distinct, Undrawn, WangpaiUndrawn, Consumed, AutoReveal, SkipConsumed;
    var s1 := s.(active := Next(s.active), phase := PlayerTurn, activeDiscard := None);
    FlagsKeep(s, s1);
    SystemDrawSpent(s1, s1.active);
  }

  lemma SystemDrawSpent(s: State, seat: Seat)
    requires CoreInv(s) && s.result.None? && s.w.wallIndex <= s.w.boundary <= |s.w.tiles|
    ensures SystemDraw(s, seat).result.None? || Spent(SystemDraw(s, seat).w)
  {
    hide CoreInv, SystemDraw, AutoReveal, TakeTile, LogEvent, SkipConsumed, FindHaitei, Spent, Conclude, SetOffer;
    var f := SkipConsumed(|s.w.tiles|, s.w.deadWallIndex, s.w.boundary, s.w.wallIndex);
    CoreIsLaid(s);
    SystemDrawCases(s, seat);
    SkipGivesUpNothing(s.w, f);
    if f < s.w.boundary {
      FrontDrawSpent(s, seat, f);
    } else {
      EndsOfTheFront(s.(w := s.w.(wallIndex := f)), seat);
      if FindHaitei(s.w.(wallIndex := f)).None? {
        OnlyTheBackIsLeft(s.w.(wallIndex := f));
      }
    }
  }

  lemma EndsOfTheFront(s: State, seat: Seat)
    ensures Conclude(s, Exhausted).w == s.w
    ensures SetOffer(s.(isHaitei := true), seat, HaiteiOffer).result == s.result
  {
  }

  lemma FrontDrawSpent(s: State, seat: Seat, f: nat)
    requires CoreInv(s) && s.result.None? && f in Undrawn(s.w) && f < |s.w.tiles| && WallLaid(s.w.(wallIndex := f + 1))
    requires Undrawn(s.w.(wallIndex := f + 1)) == Undrawn(s.w) - {f}
    ensures var s' := AutoReveal(LogEvent(TakeTile(s.(w := s.w.(wallIndex := f + 1)), seat, f), DrawEventOf(seat, s.w.tiles[f], false)), seat);
            s'.result.None? || Spent(s'.w)
  {
    hide CoreInv, Undrawn, WangpaiUndrawn, AutoReveal, FaceCode, WallLaid;
    var e := DrawEventOf(seat, s.w.tiles[f], false);
    var s1 := LogEvent(TakeTile(s.(w := s.w.(wallIndex := f + 1)), seat, f), e);
    TakeTileKeeps(s, s.w.(wallIndex := f + 1), seat, f, e);
    RevealIsDry(s1, seat);
    AutoRevealResult(s1, seat);
  }

  lemma OnlyTheBackIsLeft(w: WallState)
    requires WallLaid(w) && w.wallIndex == w.boundary && FindHaitei(w).None?
    ensures Spent(w)
  {
  }

  lemma KanSpent(s: State, seat: Seat, tiles: seq<TileId>)
    requires Books(s) && s.result.None? && tiles != [] && MeldsNonempty(s) && multiset(tiles) <= multiset(s.players[seat].closedHand)
    ensures var s' := HandleKongOrFlower(s, seat, tiles, true).0; s'.result.None? || Spent(s'.w)
  {
    hide CoreInv, MeldsNonempty, DeadWallDraw, Laid, Undrawn, HandleKongOrFlower;
    var s1 := Laid(s, seat, tiles, true);
    DeclarationIs(s, seat, tiles, true);
    LaidKeepsBooks(s, seat, tiles, true);
    LaidFrame(s, seat, tiles, true);
    DrawIsDry(s1, seat);
    DeadWallDrawResult(s1, seat);
  }

  lemma AcceptSpent(s: State)
    requires Inv(s) && s.phase == PlayerTurn && s.players[s.active].offer == HaiteiOffer && s.w.haiteiDraw == -1
    ensures var s' := HaiteiAccept(s, s.active).0; s'.result.None? || Spent(s'.w)
  {
    hide CoreInv, Undrawn, WangpaiUndrawn, Sized, NoFlowersBut, AutoReveal, Distinct, FirstRevealable, FaceCode;
    CoreIsLaid(s);
    HaiteiIsUndrawn(s.w);
    var idx := s.w.indicator + 1;
    var e := DrawEventOf(s.active, s.w.tiles[idx], true);
    var s1 := LogEvent(TakeTile(s.(w := s.w.(haiteiDraw := idx)), s.active, idx), e);
    TakeTileKeeps(s, s.w.(haiteiDraw := idx), s.active, idx, e);
    FlagsKeep(s1, s1.(isHaitei := false));
    if FlowerOf(s1, s.active).Some? {
      RevealIsDry(s1.(isHaitei := false), s.active);
      AutoRevealResult(s1.(isHaitei := false), s.active);
    }
  }

  lemma MeldSpent(s: State, winner: Seat, c: Claim)
    requires CoreInv(s) && Distinct(s.w.tiles) && s.phase == WaitDiscards && WindowOpen(s)
    requires winner != s.active && !c.Ron? && ClaimFits(s.players[winner].closedHand, c)
    ensures var s' := ApplyMeld(s, winner, c); s'.result.None? || Spent(s'.w)
  {
    hide CoreInv, Distinct, Sized, NoFlowersBut, TakeDiscard, DeadWallDraw, AutoReveal, ClaimFits, OffersFit, QueueFits, Undrawn;
    CoreHasMelds(s);
    ClaimTiles(s.players[winner].closedHand, c);
    TakeDiscardFrame(s, winner, c);
    TakeDiscardKeeps(s, winner, c);
    var s1 := TakeDiscard(s, winner, c);
    if c.Kan? {
      DrawIsDry(s1, winner);
      DeadWallDrawResult(s1, winner);
    } else {
      FlagsKeep(s1, s1.(phase := PlayerTurn));
      RevealIsDry(s1.(phase := PlayerTurn), winner);
      AutoRevealResult(s1.(phase := PlayerTurn), winner);
    }
  }

  lemma ResolveSpent(r: Rules, s: State)
    requires CoreInv(s) && Distinct(s.w.tiles) && s.phase == WaitDiscards && WindowOpen(s)
    requires s.w.wallIndex <= s.w.boundary <= |s.w.tiles|
    ensures var s' := Resolve(r, s); s'.result == Some(Exhausted) ==> Spent(s'.w)
  {
    hide CoreInv, Distinct, Sized, NoFlowersBut, NextTurn, ApplyMeld, TableOf, OffersFit, QueueFits, Spent;
    NextTurnSpent(s);
    var best := BestBid(s.queue, 4);
    if best.Some? {
      OfferedClaimFits(s, best.value);
      if !s.queue[best.value].Ron? {
        MeldSpent(s, best.value, s.queue[best.value]);
      }
    }
  }

  lemma ClaimSpent(r: Rules, s: State, seat: Seat, c: Claim)
    requires Inv(s) && s.phase == WaitDiscards && Offered(r, s, InWindow(seat, c))
    requires s.activeDiscard.Some? && s.w.wallIndex <= s.w.boundary <= |s.w.tiles|
    ensures var s' := HandleClaim(r, s, seat, c).0; s'.result == Some(Exhausted) ==> Spent(s'.w)
  {
    hide CoreInv, Distinct, Sized, NoFlowersBut, Resolve, Spent;
    var s1 := s.(queue := s.queue[seat := c]);
    FlagsKeep(s, s1);
    assert WindowOpen(s1) by { AnswerKeepsWindow(r, s, seat, c); }
    hide WindowOpen;
    ResolveSpent(r, s1);
  }

  lemma AnswerKeepsWindow(r: Rules, s: State, seat: Seat, c: Claim)
    requires WindowOpen(s) && s.phase == WaitDiscards && Offered(r, s, InWindow(seat, c))
    ensures WindowOpen(s.(queue := s.queue[seat := c]))
  {
    hide Sized, NoFlowersBut;
    SamePlayers(s, s.(queue := s.queue[seat := c]));
  }

  lemma DiscardSpent(r: Rules, s: State, t: TileId)
    requires RulesOk(r) && Inv(s) && Offered(r, s, OnTurn(s.active, Discard(t)))
    requires s.w.wallIndex <= s.w.boundary <= |s.w.tiles|
    ensures var s' := HandleDiscard(r, s, s.active, t).0; s'.result == Some(Exhausted) ==> s.isHaitei || Spent(s'.w)
  {
    hide CoreInv, Distinct, Sized, NoFlowersBut, NextTurn, RulesOk, ClaimOfferFor, Spent;
    DiscardTileKeeps(s, s.active, t);
    var s1 := DiscardTile(s, s.active, t);
    OfferClaimsKeeps(r, s1, t, s.active);
    NextTurnSpent(OfferClaims(r, s1, t, s.active));
  }

  /** Why a hand as it is played ends: by a ron or a self-drawn win that was earned, by haitei being refused or discarded with
      nobody to ron it, or because the wall is spent. */
  lemma EveryEndHasItsReason(r: Rules, s: State, input: Input)
    requires RulesOk(r) && Inv(s) && Offered(r, s, input) && HaiteiGuard(s, input) && After(r, s, input).phase == RoundEnd
    ensures var s' := After(r, s, input);
            && s.result.None? && s'.result.Some?
            && match s'.result.value
               case RonWin(winner, discarder, _) => RonIsEarned(r, s, input, s'.result.value) && winner != discarder
               case TsumoWin(_, _) => TsumoIsEarned(r, s, input, s'.result.value)
               case Exhausted =>
                 (input.OnTurn? && (input.action == RefuseHaitei || (input.action.Discard? && s.isHaitei))) || Spent(s'.w)
  {
    hide CoreInv, Distinct, NoFlowersBut, Sized, RulesOk, HandleDiscard, HandleKongOrFlower, HaiteiAccept, HandleClaim, TableOf,
      RonIsEarned, TsumoIsEarned, Spent;
    StepKeeps(r, s, input);
    EndedHandsHaveResults(r, s, input);
    WinsAreEarned(r, s, input);
    var s' := After(r, s, input);
    if s'.result.Some? && s'.result.value.RonWin? {
      RonIsFromAnother(r, s, input, s'.result.value);
    }
    match input
    case OnTurn(seat, action) =>
      match action {
        case AcceptHaitei => AcceptSpent(s);
        case Discard(t) => DiscardSpent(r, s, t);
        case SelfKan(tiles) =>
          TurnBooks(s);
          KanSpent(s, seat, tiles);
        case _ =>
      }
    case InWindow(seat, c) => ClaimSpent(r, s, seat, c);
  }

  lemma TurnBooks(s: State)
    requires Inv(s) && s.phase == PlayerTurn
    ensures Books(s) && s.result.None?
  {
    hide CoreInv, Distinct, NoFlowersBut, Sized;
  }
}
