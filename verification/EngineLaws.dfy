/** Two laws the learning layer's drivers rely on, proved of the engine: a closed window is left, an ended hand has a result. */
module EngineLaws {
  import opened Tiles
  import opened Wall
  import opened Hand
  import opened HandSteps

  predicate EndHasResult(s: State) {
    s.phase == RoundEnd ==> s.result.Some?
  }

  lemma {:induction false} DeadWallDrawHasResult(s: State, seat: Seat)
    requires EndHasResult(s)
    ensures EndHasResult(DeadWallDraw(s, seat))
    decreases Measure(s), 0
  {
    hide AutoReveal, FaceCode, WangpaiUndrawn;
    var (k, target) := DeadTarget(|s.w.tiles|, s.w.wallIndex, s.w.indicator, s.w.deadWallIndex);
    if s.wallCount > 0 && target.Some? {
      var drawn := LogEvent(TakeTile(s.(w := s.w.(deadWallIndex := k)), seat, target.value),
                            DrawEventOf(seat, s.w.tiles[target.value], false));
      assert seat == 0 || seat == 1 || seat == 2 || seat == 3;
      AutoRevealHasResult(drawn, seat);
    }
  }

  lemma {:induction false} AutoRevealHasResult(s: State, seat: Seat)
    requires EndHasResult(s)
    ensures EndHasResult(AutoReveal(s, seat))
    decreases Measure(s), 1
  {
    hide DeadWallDraw, FaceCode;
    var flower := FlowerOf(s, seat);
    if flower.Some? {
      DeadWallDrawHasResult(MoveFlower(s, seat, flower.value), seat);
      AutoRevealHasResult(ResumeTurn(DeadWallDraw(MoveFlower(s, seat, flower.value), seat)), seat);
    }
  }

  lemma SystemDrawHasResult(s: State, seat: Seat)
    requires EndHasResult(s) && s.w.wallIndex <= s.w.boundary <= |s.w.tiles|
    ensures EndHasResult(SystemDraw(s, seat))
  {
    hide AutoReveal, FaceCode, WangpaiUndrawn;
    var f := SkipConsumed(|s.w.tiles|, s.w.deadWallIndex, s.w.boundary, s.w.wallIndex);
    if f < s.w.boundary {
      AutoRevealHasResult(LogEvent(TakeTile(s.(w := s.w.(wallIndex := f + 1)), seat, f), DrawEventOf(seat, s.w.tiles[f], false)), seat);
    }
  }

  /** Closing a window always leaves it, whatever was queued. */
  lemma ResolveLeavesTheWindow(r: Rules, s: State)
    requires s.activeDiscard.Some? && s.w.wallIndex <= s.w.boundary <= |s.w.tiles|
    ensures Resolve(r, s).phase != WaitDiscards
    ensures EndHasResult(s) ==> EndHasResult(Resolve(r, s))
  {
    hide SystemDraw, AutoReveal, DeadWallDraw, BestBid, TakeDiscard;
    var best := BestBid(s.queue, 4);
    SystemDrawHasResult(s.(active := Next(s.active), phase := PlayerTurn, activeDiscard := None), Next(s.active));
    if best.Some? && !s.queue[best.value].Ron? {
      var s1 := TakeDiscard(s, best.value, s.queue[best.value]);
      TakeDiscardKeepsPhase(s, best.value, s.queue[best.value]);
      if EndHasResult(s) {
        DeadWallDrawHasResult(s1, best.value);
      }
      AutoRevealHasResult(s1.(phase := PlayerTurn), best.value);
    }
  }

  lemma TakeDiscardKeepsPhase(s: State, winner: Seat, c: Claim)
    requires s.activeDiscard.Some? && (c.Chii? || c.Pon? || c.Kan?)
    ensures TakeDiscard(s, winner, c).phase == s.phase && TakeDiscard(s, winner, c).result == s.result
  {
    hide RemovePresent, FaceCode, DropLast;
  }

  /** Every message keeps it: a hand that has ended has a result. */
  lemma EndedHandsHaveResults(r: Rules, s: State, input: Input)
    requires StepDefined(s, input) && EndHasResult(s)
    ensures EndHasResult(Step(r, s, input).0)
  {
    hide Resolve, Expected, TableOf, MeldsNonempty, HandleDiscard, HandleKongOrFlower, HaiteiAccept;
    match input
    case OnTurn(seat, action) =>
      match action {
        case AcceptHaitei => AcceptHasResult(s, seat);
        case Discard(t) => DiscardHasResult(r, s, seat, t);
        case SelfKan(tiles) => KanHasResult(s, seat, tiles, true);
        case FlowerReveal(tiles) => KanHasResult(s, seat, tiles, false);
        case _ =>
      }
    case InWindow(seat, claim) =>
      if s.phase == WaitDiscards {
        ResolveLeavesTheWindow(r, s.(queue := s.queue[seat := claim]));
      }
  }

  lemma AcceptHasResult(s: State, seat: Seat)
    requires EndHasResult(s)
    ensures EndHasResult(HaiteiAccept(s, seat).0)
  {
    hide AutoReveal, FaceCode, WangpaiUndrawn;
    var target := FindHaitei(s.w);
    if target.Some? {
      var s1 := LogEvent(TakeTile(s.(w := s.w.(haiteiDraw := target.value)), seat, target.value),
                         DrawEventOf(seat, s.w.tiles[target.value], true));
      AutoRevealHasResult(s1.(isHaitei := false), seat);
    }
  }

  lemma DiscardHasResult(r: Rules, s: State, seat: Seat, t: TileId)
    requires EndHasResult(s) && s.w.wallIndex <= s.w.boundary <= |s.w.tiles|
    ensures EndHasResult(HandleDiscard(r, s, seat, t).0)
  {
    hide SystemDraw, Expected, ClaimOfferFor, FaceCode;
    if t in s.players[seat].closedHand {
      var s2 := OfferClaims(r, DiscardTile(s, seat, t), t, seat);
      SystemDrawHasResult(s2.(active := Next(s2.active), phase := PlayerTurn, activeDiscard := None), Next(s2.active));
    }
  }

  lemma KanHasResult(s: State, seat: Seat, tiles: seq<TileId>, isKan: bool)
    requires EndHasResult(s) && tiles != [] && (isKan ==> MeldsNonempty(s))
    ensures EndHasResult(HandleKongOrFlower(s, seat, tiles, isKan).0)
  {
    hide DeadWallDraw, FaceCode, MeldsNonempty, MatchingPon;
    var (rest, ok) := RemoveEach(s.players[seat].closedHand, tiles);
    if ok {
      DeadWallDrawHasResult(if isKan then DeclareKan(s, seat, tiles, rest) else LayFlowers(s, seat, tiles, rest), seat);
    }
  }
}
