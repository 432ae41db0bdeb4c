/** Every action a seat is offered keeps the invariant of a hand; so does every run of such actions. */
module HandSteps {
  import opened Tiles
  import opened Wall
  import opened Hand
  import opened HandInvariant

  // ---- What a rule engine promises and what may be fed ----

  /** A claim's own tiles lie in the claimer's hand and have the right number for the meld. */
  ghost predicate ClaimFits(hand: seq<TileId>, c: Claim) {
    match c
    case Pass => false
    case Ron => true
    case Chii(tiles) => |tiles| == 2 && multiset(tiles) <= multiset(hand)
    case Pon(tiles) => |tiles| == 2 && multiset(tiles) <= multiset(hand)
    case Kan(tiles) => |tiles| == 3 && multiset(tiles) <= multiset(hand)
  }

  ghost predicate RulesOk(r: Rules) {
    forall table: Table, t: TileId, seat: Seat, c | c in r.interrupts(table, t, seat) ::
      ClaimFits(table.players[seat].closedHand, c)
  }

  /** No id occurs twice in the wall. */
  ghost predicate Distinct(wall: seq<TileId>) {
    forall t :: multiset(wall)[t] <= 1
  }

  ghost predicate SameFaces(tiles: seq<TileId>) {
    forall i | 0 <= i < |tiles| :: FaceOf(tiles[i]) == FaceOf(tiles[0])
  }

  /** The two self-drawn kans of the turn menu: four of a face from the hand, or one tile onto an own pon. */
  ghost predicate KanOffered(p: Player, tiles: seq<TileId>) {
    && multiset(tiles) <= multiset(p.closedHand)
    && ((|tiles| == 4 && SameFaces(tiles))
        || (|tiles| == 1 && exists m | m in p.openMelds && m.tiles != [] :: m.kind == PonMeld && FaceOf(m.tiles[0]) == FaceOf(tiles[0])))
  }

  datatype Input = OnTurn(seat: Seat, action: Action) | InWindow(seat: Seat, claim: Claim)

  /** What the engine's code presupposes when a message arrives; elsewhere it would index or dereference nothing. */
  ghost predicate StepDefined(s: State, input: Input) {
    && s.w.wallIndex <= s.w.boundary <= |s.w.tiles| && MeldsNonempty(s)
    && (s.phase == WaitDiscards ==> s.activeDiscard.Some?)
    && (input.OnTurn? && (input.action.SelfKan? || input.action.FlowerReveal?) ==> input.action.tiles != [])
  }

  /** One message to the engine, and whether the engine accepted it. */
  function Step(r: Rules, s: State, input: Input): (State, bool)
    requires StepDefined(s, input)
  {
    match s.phase
    case PlayerTurn =>
      if input.OnTurn? && input.seat == s.active then HandleTurn(r, s, input.seat, input.action) else (s, false)
    case WaitDiscards =>
      if input.InWindow? then HandleClaim(r, s, input.seat, input.claim) else (s, false)
    case RoundEnd => (s, false)
  }

  /** The state after a message; one the engine's code is not defined for changes nothing. */
  ghost function After(r: Rules, s: State, input: Input): State {
    if StepDefined(s, input) then Step(r, s, input).0 else s
  }

  /** The message was on offer to its sender; a claim is answered once. */
  ghost predicate Offered(r: Rules, s: State, input: Input) {
    match input
    case OnTurn(seat, action) =>
      && s.phase == PlayerTurn && seat == s.active
      && var p := s.players[seat];
      (match p.offer
       case HaiteiOffer => action == AcceptHaitei || action == RefuseHaitei
       case TurnOffer =>
         (match action
          case Discard(t) => t in p.closedHand
          case SelfKan(tiles) => KanOffered(p, tiles)
          case Tsumo => r.wins(TableOf(s), seat, None)
          case _ => false)
       case _ => false)
    case InWindow(seat, c) =>
      && s.phase == WaitDiscards && seat !in s.queue && MustAnswer(s.players[seat].offer)
      && s.players[seat].offer.ClaimOffer?
      && (c == Pass || c in s.players[seat].offer.claims)
  }

  /** The one guard the engine lacks: the haitei tile is accepted only while it is still in the wall. */
  predicate HaiteiGuard(s: State, input: Input) {
    input.OnTurn? && input.action == AcceptHaitei ==> s.w.haiteiDraw == -1
  }

  // ---- The invariant between two messages ----

  ghost predicate TurnInv(s: State) {
    && s.result.None? && NoFlowersBut(s, {})
    && (match s.players[s.active].offer
        case TurnOffer => Sized(s, {s.active})
        case HaiteiOffer => Sized(s, {}) && s.isHaitei && FindHaitei(s.w).Some? && s.w.wallIndex == s.w.boundary
        case _ => false)
  }

  ghost predicate OffersFit(s: State) {
    forall q: Seat ::
      if q == s.active then s.players[q].offer == NoOffer
      else s.players[q].offer.ClaimOffer?
           && forall c | c in s.players[q].offer.claims :: ClaimFits(s.players[q].closedHand, c)
  }

  ghost predicate QueueFits(s: State) {
    forall q | q in s.queue ::
      && MustAnswer(s.players[q].offer) && s.players[q].offer.ClaimOffer?
      && (s.queue[q] == Pass || s.queue[q] in s.players[q].offer.claims)
  }

  ghost predicate DiscardOpen(s: State) {
    && s.activeDiscard.Some?
    && var pile := s.players[s.active].discards;
       pile != [] && pile[|pile| - 1] == s.activeDiscard.value
  }

  /** A claim window, whether or not its last answer is in. */
  ghost predicate WindowOpen(s: State) {
    && s.result.None? && NoFlowersBut(s, {}) && Sized(s, {})
    && DiscardOpen(s) && OffersFit(s) && QueueFits(s)
  }

  ghost predicate Inv(s: State) {
    && CoreInv(s) && Distinct(s.w.tiles)
    && (s.phase == PlayerTurn ==> TurnInv(s))
    && (s.phase == WaitDiscards ==> WindowOpen(s) && |s.queue| < Expected(s))
  }

  // ---- System draws ----

  lemma SystemDrawKeeps(s: State, seat: Seat)
    requires CoreInv(s) && Distinct(s.w.tiles) && s.result.None? && s.phase == PlayerTurn && s.active == seat
    requires Sized(s, {}) && NoFlowersBut(s, {})
    ensures Inv(SystemDraw(s, seat)) && Measure(SystemDraw(s, seat)) <= Measure(s)
  {
    hide CoreInv, Undrawn, WangpaiUndrawn, NoFlowersBut, AutoReveal, Distinct, TakeTile, SkipConsumed, Consumed;
    CoreIsLaid(s);
    var f := SkipConsumed(|s.w.tiles|, s.w.deadWallIndex, s.w.boundary, s.w.wallIndex);
    var w' := s.w.(wallIndex := f);
    SkipGivesUpNothing(s.w, f);
    if f >= s.w.boundary {
      PointersMove(s, w');
      SamePlayers(s, s.(w := w'));
      if FindHaitei(w').None? {
        ExhaustedKeeps(s.(w := w'));
      } else {
        OfferHaiteiKeeps(s.(w := w'), seat);
      }
    } else {
      FrontDrawKeeps(s, seat, f);
    }
  }

  lemma OfferHaiteiKeeps(s: State, seat: Seat)
    requires CoreInv(s) && Distinct(s.w.tiles) && s.result.None? && s.phase == PlayerTurn && s.active == seat
    requires Sized(s, {}) && NoFlowersBut(s, {}) && FindHaitei(s.w).Some? && s.w.wallIndex == s.w.boundary
    ensures var s' := SetOffer(s.(isHaitei := true), seat, HaiteiOffer);
            Inv(s') && Measure(s') == Measure(s)
  {
    hide Total, Undrawn, WangpaiUndrawn, Sized, NoFlowersBut, Placed, Distinct, WallLaid;
    var s1 := s.(isHaitei := true);
    Rebalanced(s, s1);
    SamePlayers(s, s1);
    OfferKeeps(s1, seat, HaiteiOffer);
    OfferSizes(s1, seat, HaiteiOffer);
  }

  lemma FrontDrawKeeps(s: State, seat: Seat, f: nat)
    requires CoreInv(s) && Distinct(s.w.tiles) && s.result.None? && s.phase == PlayerTurn && s.active == seat
    requires Sized(s, {}) && NoFlowersBut(s, {})
    requires f in Undrawn(s.w) && f < |s.w.tiles| && WallLaid(s.w.(wallIndex := f + 1))
    requires Undrawn(s.w.(wallIndex := f + 1)) == Undrawn(s.w) - {f}
    ensures var s' := AutoReveal(LogEvent(TakeTile(s.(w := s.w.(wallIndex := f + 1)), seat, f), DrawEventOf(seat, s.w.tiles[f], false)), seat);
            Inv(s') && Measure(s') < Measure(s) && (s'.phase == PlayerTurn ==> s'.players[seat].offer == TurnOffer)
  {
    hide Total, Undrawn, WangpaiUndrawn, Sized, NoFlowersBut, Placed, AutoReveal, Distinct, WallLaid;
    var e := DrawEventOf(seat, s.w.tiles[f], false);
    TakeTileKeeps(s, s.w.(wallIndex := f + 1), seat, f, e);
    NoFlowersWeaken(s, {seat});
    TakeTileSizes(s, s.w.(wallIndex := f + 1), seat, f, e);
    AutoRevealKeeps(LogEvent(TakeTile(s.(w := s.w.(wallIndex := f + 1)), seat, f), e), seat);
  }

  lemma SkipGivesUpNothing(w: WallState, f: nat)
    requires WallLaid(w) && f == SkipConsumed(|w.tiles|, w.deadWallIndex, w.boundary, w.wallIndex)
    ensures WallLaid(w.(wallIndex := f))
    ensures Undrawn(w.(wallIndex := f)) == Undrawn(w) && WangpaiUndrawn(w.(wallIndex := f)) == WangpaiUndrawn(w)
    ensures f < w.boundary ==> WallLaid(w.(wallIndex := f + 1))
    ensures f < w.boundary ==> f in Undrawn(w) && Undrawn(w.(wallIndex := f + 1)) == Undrawn(w) - {f}
  {
  }

  lemma NoFlowersWeaken(s: State, seats: set<Seat>)
    requires NoFlowersBut(s, {})
    ensures NoFlowersBut(s, seats)
  {
  }

  lemma OfferKeeps(s: State, seat: Seat, offer: Offer)
    requires CoreInv(s)
    ensures CoreInv(SetOffer(s, seat, offer))
  {
    hide Total, Undrawn, WangpaiUndrawn, WallLaid, Placed;
    OffersHoldNoTiles(s.players, SetOffer(s, seat, offer).players);
    Rebalanced(s, SetOffer(s, seat, offer));
  }

  /** Changing what is on offer moves no tile. */
  lemma OfferSizes(s: State, seat: Seat, offer: Offer)
    ensures var s' := SetOffer(s, seat, offer);
            && (forall seats :: Sized(s, seats) ==> Sized(s', seats))
            && (forall seats :: NoFlowersBut(s, seats) ==> NoFlowersBut(s', seats))
  {
    SameHands(s, SetOffer(s, seat, offer));
  }

  lemma SameHands(s: State, s': State)
    requires s'.wild == s.wild
    requires forall q: Seat :: s'.players[q].closedHand == s.players[q].closedHand && |s'.players[q].openMelds| == |s.players[q].openMelds|
    ensures forall seats :: Sized(s, seats) ==> Sized(s', seats)
    ensures forall seats :: NoFlowersBut(s, seats) ==> NoFlowersBut(s', seats)
  {
    forall seats | NoFlowersBut(s, seats) ensures NoFlowersBut(s', seats) {
      forall q: Seat, t | q !in seats && t in s'.players[q].closedHand ensures !Revealable(s', t) {
        assert t in s.players[q].closedHand && !Revealable(s, t);
      }
    }
  }

  lemma NextTurnKeeps(s: State)
    requires CoreInv(s) && Distinct(s.w.tiles) && s.result.None? && Sized(s, {}) && NoFlowersBut(s, {})
    ensures Inv(NextTurn(s)) && Rank(NextTurn(s)) <= 1 + 4 * Measure(s) && NextTurn(s).phase != WaitDiscards
  {
    hide Total, Undrawn, WangpaiUndrawn, Placed, SystemDraw, Distinct;
    var s' := s.(active := Next(s.active), phase := PlayerTurn, activeDiscard := None);
    SamePlayers(s, s');
    Rebalanced(s, s');
    SystemDrawKeeps(s', s'.active);
  }

  // ---- Turn actions ----

  /** A haitei offer that has not been taken yet gives up one hidden position, the one under the indicator. */
  lemma HaiteiIsUndrawn(w: WallState)
    requires WallLaid(w) && FindHaitei(w).Some? && w.wallIndex == w.boundary && w.haiteiDraw == -1
    ensures var w' := w.(haiteiDraw := w.indicator + 1);
            WallLaid(w') && w.indicator + 1 in Undrawn(w) && Undrawn(w') == Undrawn(w) - {w.indicator + 1}
  {
  }

  lemma CoreIsLaid(s: State)
    requires CoreInv(s)
    ensures WallLaid(s.w)
  {
  }

  lemma HaiteiAcceptKeeps(s: State, seat: Seat)
    requires Inv(s) && s.phase == PlayerTurn && seat == s.active && s.players[seat].offer == HaiteiOffer
    requires s.w.haiteiDraw == -1
    ensures Inv(HaiteiAccept(s, seat).0) && HaiteiAccept(s, seat).1 && Rank(HaiteiAccept(s, seat).0) < Rank(s)
  {
    hide CoreInv, Undrawn, WangpaiUndrawn, Sized, NoFlowersBut, AutoReveal, Distinct, Measure, FirstRevealable;
    CoreIsLaid(s);
    var idx := s.w.indicator + 1;
    var w' := s.w.(haiteiDraw := idx);
    HaiteiIsUndrawn(s.w);
    var e := DrawEventOf(seat, s.w.tiles[idx], true);
    TakeTileKeeps(s, w', seat, idx, e);
    NoFlowersWeaken(s, {seat});
    TakeTileSizes(s, w', seat, idx, e);
    var s1 := LogEvent(TakeTile(s.(w := w'), seat, idx), e);
    if FlowerOf(s1, seat).Some? {
      FlagsKeep(s1, s1.(isHaitei := false));
      AutoRevealKeeps(s1.(isHaitei := false), seat);
    } else {
      ShowMenuKeeps(s1, seat);
    }
  }

  lemma HaiteiRefuseKeeps(s: State)
    requires Inv(s) && s.phase == PlayerTurn
    ensures Inv(HaiteiRefuse(s)) && Rank(HaiteiRefuse(s)) < Rank(s)
  {
    hide Total, Undrawn, WangpaiUndrawn, Sized, NoFlowersBut, Placed, Distinct, WallLaid;
    Rebalanced(s, s.(isHaitei := false));
    ExhaustedKeeps(s.(isHaitei := false));
  }

  lemma DiscardTileKeeps(s: State, seat: Seat, t: TileId)
    requires Inv(s) && s.phase == PlayerTurn && seat == s.active && s.players[seat].offer == TurnOffer
    requires t in s.players[seat].closedHand
    ensures var s' := DiscardTile(s, seat, t);
            CoreInv(s') && Sized(s', {}) && NoFlowersBut(s', {}) && DiscardOpen(s') && Measure(s') == Measure(s) - 1
  {
    hide Total, Counted, Placed, PlayerTiles, Distinct, WallLaid, NoFlowersBut, Measure, RemoveFirst;
    var s' := DiscardTile(s, seat, t);
    DiscardMovesTile(s.players[seat], t);
    PlacedSame(s.players, seat, s'.players[seat]);
    MeasureOne(s, s', seat);
    Rebalanced(s, s');
    FlowersShrink(s, s');
  }

  lemma DiscardMovesTile(p: Player, t: TileId)
    requires t in p.closedHand
    ensures PlayerTiles(p.(closedHand := RemoveFirst(p.closedHand, t), discards := p.discards + [t], drawn := None)) == PlayerTiles(p)
  {
  }

  lemma OfferClaimsKeeps(r: Rules, s: State, t: TileId, discarder: Seat)
    requires CoreInv(s) && RulesOk(r)
    ensures var s' := OfferClaims(r, s, t, discarder);
            && CoreInv(s') && Measure(s') == Measure(s)
            && (Sized(s, {}) ==> Sized(s', {})) && (NoFlowersBut(s, {}) ==> NoFlowersBut(s', {}))
            && (forall q: Seat :: if q == discarder then s'.players[q].offer == NoOffer
                else s'.players[q].offer.ClaimOffer?
                     && forall c | c in s'.players[q].offer.claims :: ClaimFits(s'.players[q].closedHand, c))
  {
    hide Total, Undrawn, WangpaiUndrawn, Placed, WallLaid, Sized, NoFlowersBut;
    var s' := OfferClaims(r, s, t, discarder);
    OffersHoldNoTiles(s.players, s'.players);
    Rebalanced(s, s');
    SameHands(s, s');
    forall q: Seat | q != discarder
      ensures forall c | c in s'.players[q].offer.claims :: ClaimFits(s'.players[q].closedHand, c)
    {
      forall c | c in s'.players[q].offer.claims ensures ClaimFits(s'.players[q].closedHand, c) {
        assert c in r.interrupts(TableOf(s), t, q);
      }
    }
  }

  lemma HandleDiscardKeeps(r: Rules, s: State, seat: Seat, t: TileId)
    requires RulesOk(r) && Inv(s) && s.phase == PlayerTurn && seat == s.active && s.players[seat].offer == TurnOffer
    requires t in s.players[seat].closedHand
    ensures Inv(HandleDiscard(r, s, seat, t).0) && HandleDiscard(r, s, seat, t).1
    ensures Rank(HandleDiscard(r, s, seat, t).0) < Rank(s)
  {
    hide Total, Undrawn, WangpaiUndrawn, Placed, WallLaid, Sized, NoFlowersBut, Distinct, RulesOk, SystemDraw, ClaimOfferFor;
    DiscardTileKeeps(s, seat, t);
    var s1 := DiscardTile(s, seat, t);
    OfferClaimsKeeps(r, s1, t, seat);
    var s2 := OfferClaims(r, s1, t, seat);
    if Expected(s2) > 0 {
      var s3 := s2.(phase := WaitDiscards, queue := map[]);
      SamePlayers(s2, s3);
      Rebalanced(s2, s3);
    } else if s.isHaitei {
      Rebalanced(s2, s2.(isHaitei := false));
      ExhaustedKeeps(s2.(isHaitei := false));
    } else {
      NextTurnKeeps(s2);
    }
  }

  lemma HandleTsumoKeeps(r: Rules, s: State, seat: Seat)
    requires Inv(s) && s.phase == PlayerTurn && r.wins(TableOf(s), seat, None)
    ensures Inv(HandleTsumo(r, s, seat).0) && HandleTsumo(r, s, seat).1 && Rank(HandleTsumo(r, s, seat).0) < Rank(s)
  {
    hide Total, Undrawn, WangpaiUndrawn, Placed, WallLaid, Sized, NoFlowersBut, Distinct;
    var s' := HandleTsumo(r, s, seat).0;
    OffersHoldNoTiles(s.players, s'.players);
    Rebalanced(s, s');
  }

  // ---- Self-drawn kans ----

  /** Distinct tiles are held once: no seat has a tile both in its hand and in a meld. */
  lemma HeldOnce(s: State, seat: Seat, t: TileId)
    requires CoreInv(s) && Distinct(s.w.tiles)
    ensures multiset(s.players[seat].closedHand)[t] + MeldTiles(s.players[seat].openMelds)[t] <= 1
  {
    hide Undrawn, WangpaiUndrawn, Hidden, WonTile, WallLaid;
    assert PlayerTiles(s.players[seat])[t] <= Placed(s.players)[t] by {
      hide PlayerTiles;
      assert seat == 0 || seat == 1 || seat == 2 || seat == 3;
    }
    assert Placed(s.players)[t] <= Total(s.players, s.result, s.w)[t] by {
      hide Placed;
    }
    assert multiset(s.w.tiles)[t] <= 1;
  }

  lemma TwiceCounted(tiles: seq<TileId>, j: nat, k: nat)
    requires j < k < |tiles|
    ensures tiles[j] == tiles[k] ==> multiset(tiles)[tiles[j]] >= 2
  {
    assert tiles == tiles[..k] + [tiles[k]] + tiles[k + 1..];
    assert tiles[j] in tiles[..k];
  }

  /** Four of a face in the hand leave no copy for a pon, so a closed kan is never mistaken for an upgrade. */
  lemma ClosedKanHasNoPon(s: State, seat: Seat, tiles: seq<TileId>, i: nat)
    requires CoreInv(s) && Distinct(s.w.tiles)
    requires |tiles| == 4 && SameFaces(tiles) && multiset(tiles) <= multiset(s.players[seat].closedHand)
    requires i < |s.players[seat].openMelds|
    ensures FaceOf(s.players[seat].openMelds[i].tiles[0]) != FaceOf(tiles[0])
  {
    hide Total, Undrawn, WangpaiUndrawn, WallLaid, Distinct;
    var p := s.players[seat];
    var m := p.openMelds[i];
    assert m in p.openMelds;
    forall j, k | 0 <= j < k < 4 ensures tiles[j] != tiles[k] {
      HeldOnce(s, seat, tiles[j]);
      TwiceCounted(tiles, j, k);
    }
    var t := m.tiles[0];
    HeldOnce(s, seat, t);
    MeldTilesSplit(p.openMelds, i);
    assert t in multiset(m.tiles);
    forall j | 0 <= j < 4 ensures tiles[j] != t {
      assert tiles[j] in multiset(tiles);
    }
    FiveCopiesImpossible(tiles + [t]);
    assert (tiles + [t])[0] == tiles[0] && (tiles + [t])[4] == t;
  }

  lemma DeclareKanMovesTiles(s: State, seat: Seat, tiles: seq<TileId>)
    requires tiles != [] && MeldsNonempty(s) && multiset(tiles) <= multiset(s.players[seat].closedHand)
    ensures var s' := DeclareKan(s, seat, tiles, RemoveEach(s.players[seat].closedHand, tiles).0);
            PlayerTiles(s'.players[seat]) == PlayerTiles(s.players[seat])
  {
    var p := s.players[seat];
    var rest := RemoveEach(p.closedHand, tiles).0;
    var i := MatchingPon(p.openMelds, FaceOf(tiles[0]));
    var p' := DeclareKan(s, seat, tiles, rest).players[seat];
    if i < |p.openMelds| {
      MeldTilesUpdate(p.openMelds, i, p'.openMelds[i]);
      Regroup(multiset(p.closedHand), multiset(rest), multiset(tiles), multiset(p.openMelds[i].tiles),
              MeldTiles(p.openMelds), MeldTiles(p'.openMelds));
    } else {
      MeldTilesAppend(p.openMelds, Meld(KanMeld, tiles, 0, None, None));
      Regroup(multiset(p.closedHand), multiset(rest), multiset(tiles), multiset{}, MeldTiles(p.openMelds), MeldTiles(p'.openMelds));
    }
  }

  lemma Regroup(hand: multiset<TileId>, rest: multiset<TileId>, tiles: multiset<TileId>, pon: multiset<TileId>,
                melds: multiset<TileId>, melds': multiset<TileId>)
    requires hand == rest + tiles && melds' + pon == melds + (pon + tiles)
    ensures rest + melds' == hand + melds
  {
    assert melds' == (melds' + pon) - pon == (melds + (pon + tiles)) - pon == melds + tiles;
  }

  lemma DeclareKanSizes(s: State, seat: Seat, tiles: seq<TileId>)
    requires Inv(s) && s.phase == PlayerTurn && seat == s.active && s.players[seat].offer == TurnOffer
    requires KanOffered(s.players[seat], tiles)
    ensures Sized(DeclareKan(s, seat, tiles, RemoveEach(s.players[seat].closedHand, tiles).0), {})
  {
    hide Total, Undrawn, WangpaiUndrawn, WallLaid, Distinct, NoFlowersBut;
    var p := s.players[seat];
    var i := MatchingPon(p.openMelds, FaceOf(tiles[0]));
    if i < |p.openMelds| && |tiles| == 4 {
      ClosedKanHasNoPon(s, seat, tiles, i);
    }
  }

  lemma DeclareKanKeeps(s: State, seat: Seat, tiles: seq<TileId>)
    requires Inv(s) && s.phase == PlayerTurn && seat == s.active && s.players[seat].offer == TurnOffer
    requires KanOffered(s.players[seat], tiles)
    ensures DrawDue(DeclareKan(s, seat, tiles, RemoveEach(s.players[seat].closedHand, tiles).0), seat)
  {
    hide Total, Undrawn, WangpaiUndrawn, WallLaid, Placed, PlayerTiles, Distinct, Sized, DeclareKan, NoFlowersBut;
    var s' := DeclareKan(s, seat, tiles, RemoveEach(s.players[seat].closedHand, tiles).0);
    DeclareKanFrame(s, seat, tiles);
    DeclareKanSizes(s, seat, tiles);
    DeclareKanMovesTiles(s, seat, tiles);
    PlacedSame(s.players, seat, s'.players[seat]);
    Rebalanced(s, s');
    FlowersShrink(s, s');
  }

  lemma FlowersShrink(s: State, s': State)
    requires NoFlowersBut(s, {}) && s'.wild == s.wild
    requires forall q: Seat, t | t in s'.players[q].closedHand :: t in s.players[q].closedHand
    ensures forall seats :: NoFlowersBut(s', seats)
  {
    forall seats: set<Seat>, q: Seat, t | q !in seats && t in s'.players[q].closedHand ensures !Revealable(s', t) {
      assert t in s.players[q].closedHand && !Revealable(s, t);
    }
  }

  lemma MeldsStayNonempty(s: State, s': State, seat: Seat)
    requires MeldsNonempty(s)
    requires forall q: Seat | q != seat :: s'.players[q].openMelds == s.players[q].openMelds
    requires forall m | m in s'.players[seat].openMelds :: m in s.players[seat].openMelds || m.tiles != []
    ensures MeldsNonempty(s')
  {
  }

  lemma SelfKanKeeps(r: Rules, s: State, seat: Seat, tiles: seq<TileId>)
    requires Inv(s) && s.phase == PlayerTurn && seat == s.active && s.players[seat].offer == TurnOffer
    requires KanOffered(s.players[seat], tiles)
    ensures Inv(HandleKongOrFlower(s, seat, tiles, true).0) && HandleKongOrFlower(s, seat, tiles, true).1
    ensures Rank(HandleKongOrFlower(s, seat, tiles, true).0) < Rank(s)
  {
    hide CoreInv, Distinct, Sized, NoFlowersBut, DeclareKan, DeadWallDraw, Measure, FaceOf;
    CoreHasMelds(s);
    var s1 := DeclareKan(s, seat, tiles, RemoveEach(s.players[seat].closedHand, tiles).0);
    DeclareKanFrame(s, seat, tiles);
    DeclareKanKeeps(s, seat, tiles);
    DeadWallDrawKeeps(s1, seat);
    ResumeTurnKeeps(s1, DeadWallDraw(s1, seat), seat);
    FlagsKeep(DeadWallDraw(s1, seat), ResumeTurn(DeadWallDraw(s1, seat)));
  }

  lemma DeclareKanFrame(s: State, seat: Seat, tiles: seq<TileId>)
    requires tiles != [] && MeldsNonempty(s) && multiset(tiles) <= multiset(s.players[seat].closedHand)
    ensures var s' := DeclareKan(s, seat, tiles, RemoveEach(s.players[seat].closedHand, tiles).0);
            && s' == s.(players := s.players[seat := s'.players[seat]], events := s'.events)
            && |s'.events| == |s.events| + 1 && Measure(s') <= Measure(s) - 1
            && MeldsNonempty(s')
            && forall q: Seat, t | t in s'.players[q].closedHand :: t in s.players[q].closedHand
  {
    hide Measure, RemoveEach, FaceCode;
    var rest := RemoveEach(s.players[seat].closedHand, tiles).0;
    var s' := DeclareKan(s, seat, tiles, rest);
    DeclareKanShape(s, seat, tiles, rest);
    MeldsStayNonempty(s, s', seat);
    MeasureOne(s, s', seat);
  }

  lemma DeclareKanShape(s: State, seat: Seat, tiles: seq<TileId>, rest: seq<TileId>)
    requires tiles != [] && MeldsNonempty(s)
    ensures var s' := DeclareKan(s, seat, tiles, rest);
            && s' == s.(players := s.players[seat := s'.players[seat]], events := s'.events)
            && |s'.events| == |s.events| + 1 && s'.players[seat].closedHand == rest
            && forall m | m in s'.players[seat].openMelds :: m in s.players[seat].openMelds || m.tiles != []
  {
    hide FaceCode, MatchingPon;
  }

  // ---- Claim windows ----

  lemma OfferedClaimFits(s: State, q: Seat)
    requires OffersFit(s) && QueueFits(s) && q in s.queue
    ensures q != s.active && (s.queue[q] == Pass || ClaimFits(s.players[q].closedHand, s.queue[q]))
  {
  }

  lemma RemovePresentFits(hand: seq<TileId>, tiles: seq<TileId>)
    requires multiset(tiles) <= multiset(hand)
    ensures |RemovePresent(hand, tiles)| == |hand| - |tiles|
    ensures multiset(hand) == multiset(RemovePresent(hand, tiles)) + multiset(tiles)
  {
  }

  lemma ClaimerGains(p: Player, p': Player, tiles: seq<TileId>, t: TileId, m: Meld)
    requires multiset(tiles) <= multiset(p.closedHand) && m.tiles == tiles + [t]
    requires p' == p.(closedHand := RemovePresent(p.closedHand, tiles), openMelds := p.openMelds + [m], drawn := p'.drawn)
    ensures PlayerTiles(p') == PlayerTiles(p) + multiset{t}
  {
    RemovePresentFits(p.closedHand, tiles);
    MeldTilesAppend(p.openMelds, m);
    assert multiset(m.tiles) == multiset(tiles) + multiset{t};
    MeldGrows(multiset(p'.closedHand), multiset(tiles), MeldTiles(p.openMelds), multiset{t}, multiset(p.discards), multiset(p.flowerMelds));
  }

  lemma MeldGrows(rest: multiset<TileId>, tiles: multiset<TileId>, melds: multiset<TileId>, t: multiset<TileId>,
                  pile: multiset<TileId>, flowers: multiset<TileId>)
    ensures rest + (melds + (tiles + t)) + pile + flowers == (rest + tiles) + melds + pile + flowers + t
  {
  }

  lemma PileLoses(d: Player, d': Player, t: TileId)
    requires d.discards != [] && d.discards[|d.discards| - 1] == t && d' == d.(discards := DropLast(d.discards))
    ensures PlayerTiles(d) == PlayerTiles(d') + multiset{t}
  {
    assert d.discards == DropLast(d.discards) + [t];
    var hand, melds, pile, flowers := multiset(d.closedHand), MeldTiles(d.openMelds), multiset(d'.discards), multiset(d.flowerMelds);
    assert hand + melds + (pile + multiset{t}) + flowers == hand + melds + pile + flowers + multiset{t};
  }

  /** The claimed tile moves from the pile to the meld; nothing else moves. */
  lemma TakeDiscardMovesTiles(s: State, winner: Seat, c: Claim)
    requires winner != s.active && DiscardOpen(s) && !c.Ron? && ClaimFits(s.players[winner].closedHand, c)
    ensures Placed(TakeDiscard(s, winner, c).players) == Placed(s.players)
  {
    hide PlayerTiles, Placed;
    var s' := TakeDiscard(s, winner, c);
    var t := s.activeDiscard.value;
    var p, p' := s.players[winner], s'.players[winner];
    var d, d' := s.players[s.active], s'.players[s.active];
    var ps1 := s.players[winner := p'];
    assert s'.players == ps1[s.active := d'];
    ClaimerGains(p, p', c.tiles, t, p'.openMelds[|p.openMelds|]);
    PileLoses(d, d', t);
    PlacedSet(s.players, winner, p');
    PlacedSet(ps1, s.active, d');
    Exchange(Placed(s.players), Placed(ps1), Placed(s'.players), PlayerTiles(p), PlayerTiles(d'), multiset{t});
  }

  lemma Exchange(all: multiset<TileId>, mid: multiset<TileId>, all': multiset<TileId>,
                 p: multiset<TileId>, d': multiset<TileId>, t: multiset<TileId>)
    requires mid + p == all + (p + t) && all' + (d' + t) == mid + d'
    ensures all' == all
  {
    assert mid == (mid + p) - p == (all + (p + t)) - p == all + t;
    assert all' + t == (all' + (d' + t)) - d' == (mid + d') - d' == mid;
    assert all' == (all' + t) - t == (all + t) - t == all;
  }

  /** Only one hand changes length. */
  lemma MeasureOne(s: State, s': State, seat: Seat)
    requires s'.wallCount == s.wallCount
    requires forall q: Seat | q != seat :: |s'.players[q].closedHand| == |s.players[q].closedHand|
    ensures Measure(s') - |s'.players[seat].closedHand| == Measure(s) - |s.players[seat].closedHand|
  {
    assert seat == 0 || seat == 1 || seat == 2 || seat == 3;
  }

  lemma TakeDiscardFrame(s: State, winner: Seat, c: Claim)
    requires winner != s.active && DiscardOpen(s) && !c.Ron? && ClaimFits(s.players[winner].closedHand, c) && MeldsNonempty(s)
    ensures var s' := TakeDiscard(s, winner, c);
            && s' == s.(players := s'.players, events := s'.events, active := winner, activeDiscard := None)
            && |s'.events| == |s.events| + 1 && Measure(s') <= Measure(s) - 1
            && MeldsNonempty(s')
            && (forall q: Seat, t | t in s'.players[q].closedHand :: t in s.players[q].closedHand)
  {
    hide Measure, ClaimFits, RemovePresent, FaceCode, ClaimEventKind, ClaimMeldKind;
    ClaimTiles(s.players[winner].closedHand, c);
    var s' := TakeDiscard(s, winner, c);
    RemovePresentFits(s.players[winner].closedHand, c.tiles);
    MeasureOne(s, s', winner);
    MeldsStayNonempty(s, s', winner);
  }

  lemma ClaimTiles(hand: seq<TileId>, c: Claim)
    requires ClaimFits(hand, c) && !c.Ron?
    ensures (c.Chii? || c.Pon? || c.Kan?) && |c.tiles| == (if c.Kan? then 3 else 2) && multiset(c.tiles) <= multiset(hand)
  {
  }

  lemma TakeDiscardSizes(s: State, winner: Seat, c: Claim)
    requires winner != s.active && DiscardOpen(s) && !c.Ron? && ClaimFits(s.players[winner].closedHand, c) && Sized(s, {})
    ensures Sized(TakeDiscard(s, winner, c), if c.Kan? then {} else {winner})
  {
    hide RemovePresent, FaceCode, ClaimEventKind, ClaimMeldKind, DropLast;
    RemovePresentFits(s.players[winner].closedHand, c.tiles);
  }

  lemma TakeDiscardKeeps(s: State, winner: Seat, c: Claim)
    requires CoreInv(s) && s.result.None? && Sized(s, {}) && NoFlowersBut(s, {}) && DiscardOpen(s)
    requires winner != s.active && !c.Ron? && ClaimFits(s.players[winner].closedHand, c)
    ensures var s' := TakeDiscard(s, winner, c);
            CoreInv(s') && s'.result.None? && Sized(s', if c.Kan? then {} else {winner}) && NoFlowersBut(s', {winner})
  {
    hide Total, Undrawn, WangpaiUndrawn, WallLaid, Placed, PlayerTiles, Sized, NoFlowersBut, TakeDiscard;
    var s' := TakeDiscard(s, winner, c);
    TakeDiscardFrame(s, winner, c);
    TakeDiscardSizes(s, winner, c);
    TakeDiscardMovesTiles(s, winner, c);
    Rebalanced(s, s');
    FlowersShrink(s, s');
  }

  lemma CoreHasMelds(s: State)
    requires CoreInv(s)
    ensures MeldsNonempty(s)
  {
  }

  lemma ApplyMeldKeeps(s: State, winner: Seat, c: Claim)
    requires CoreInv(s) && Distinct(s.w.tiles) && s.phase == WaitDiscards && WindowOpen(s)
    requires winner != s.active && !c.Ron? && ClaimFits(s.players[winner].closedHand, c)
    ensures Inv(ApplyMeld(s, winner, c).(queue := map[])) && Rank(ApplyMeld(s, winner, c).(queue := map[])) <= 1 + 4 * Measure(s)
  {
    hide CoreInv, Distinct, Sized, NoFlowersBut, TakeDiscard, DeadWallDraw, AutoReveal, ClaimFits, OffersFit, QueueFits, Measure;
    CoreHasMelds(s);
    ClaimTiles(s.players[winner].closedHand, c);
    TakeDiscardFrame(s, winner, c);
    TakeDiscardKeeps(s, winner, c);
    var s1 := TakeDiscard(s, winner, c);
    var s2 := ApplyMeld(s, winner, c);
    if c.Kan? {
      DeadWallDrawKeeps(s1, winner);
      ResumeTurnKeeps(s1, DeadWallDraw(s1, winner), winner);
      FlagsKeep(DeadWallDraw(s1, winner), s2);
    } else {
      FlagsKeep(s1, s1.(phase := PlayerTurn));
      AutoRevealKeeps(s1.(phase := PlayerTurn), winner);
    }
    FlagsKeep(s2, s2.(queue := map[]));
  }

  lemma ApplyRonKeeps(s: State, winner: Seat)
    requires CoreInv(s) && Distinct(s.w.tiles) && s.phase == WaitDiscards && WindowOpen(s)
    ensures Inv(ApplyRon(s, winner).(queue := map[])) && ApplyRon(s, winner).phase == RoundEnd
  {
    hide Total, Undrawn, WangpaiUndrawn, WallLaid, Distinct, Sized, NoFlowersBut, Placed, PlayerTiles;
    var s' := ApplyRon(s, winner);
    var d := s.players[s.active];
    var d' := d.(discards := DropLast(d.discards));
    var t := s.activeDiscard.value;
    var ps := s.players[s.active := d'];
    PlacedSet(s.players, s.active, d');
    OffersHoldNoTiles(ps, s'.players);
    PileLoses(d, d', t);
    RonTakesTile(Placed(s.players), Placed(ps), PlayerTiles(d'), multiset{t});
    Rebalanced(s, s');
    Rebalanced(s', s'.(queue := map[]));
  }

  lemma RonTakesTile(all: multiset<TileId>, all': multiset<TileId>, d': multiset<TileId>, t: multiset<TileId>)
    requires all' + (d' + t) == all + d'
    ensures all' + t == all
  {
    assert all' + t == (all' + (d' + t)) - d' == (all + d') - d' == all;
  }

  lemma ResolveKeeps(r: Rules, s: State)
    requires CoreInv(s) && Distinct(s.w.tiles) && s.phase == WaitDiscards && WindowOpen(s)
    ensures Inv(Resolve(r, s)) && Rank(Resolve(r, s)) <= 1 + 4 * Measure(s)
  {
    hide Total, Undrawn, WangpaiUndrawn, WallLaid, Placed, Distinct, Sized, NoFlowersBut, ApplyMeld, ApplyRon, NextTurn, OffersFit, QueueFits;
    var best := BestBid(s.queue, 4);
    if best.Some? {
      OfferedClaimFits(s, best.value);
      var c := s.queue[best.value];
      if c.Ron? {
        if r.wins(TableOf(s), best.value, s.activeDiscard) {
          ApplyRonKeeps(s, best.value);
        } else {
          NextTurnKeeps(s);
        }
      } else {
        ApplyMeldKeeps(s, best.value, c);
      }
    } else {
      NextTurnKeeps(s);
    }
  }

  lemma HandleClaimKeeps(r: Rules, s: State, seat: Seat, c: Claim)
    requires Inv(s) && Offered(r, s, InWindow(seat, c))
    ensures HandleClaim(r, s, seat, c).1 && Inv(HandleClaim(r, s, seat, c).0)
    ensures Rank(HandleClaim(r, s, seat, c).0) < Rank(s)
  {
    hide Total, Undrawn, WangpaiUndrawn, WallLaid, Placed, Distinct, Sized, NoFlowersBut, Resolve;
    assert c != Pass ==> OffersType(s.players[seat].offer, c) by {
      assert c in s.players[seat].offer.claims ==> SameType(c, c);
    }
    var s1 := s.(queue := s.queue[seat := c]);
    assert |s1.queue| == |s.queue| + 1;
    Rebalanced(s, s1);
    SamePlayers(s, s1);
    assert OffersFit(s1) && QueueFits(s1);
    AtMostThreeAnswer(s);
    if |s1.queue| >= Expected(s1) {
      ResolveKeeps(r, s1);
    }
  }

  lemma AtMostThreeAnswer(s: State)
    requires s.players[s.active].offer == NoOffer
    ensures Expected(s) <= 3
  {
    assert s.active == 0 || s.active == 1 || s.active == 2 || s.active == 3;
  }

  // ---- Steps and runs ----

  lemma OfferedIsDefined(r: Rules, s: State, input: Input)
    requires Inv(s) && Offered(r, s, input)
    ensures StepDefined(s, input)
  {
    hide Conserved, Undrawn, WangpaiUndrawn, Sized, NoFlowersBut, Distinct, OffersFit, QueueFits;
  }

  /** Every offered message is accepted, keeps the invariant and brings the end of the hand nearer. */
  lemma StepKeeps(r: Rules, s: State, input: Input)
    requires RulesOk(r) && Inv(s) && Offered(r, s, input) && HaiteiGuard(s, input)
    ensures StepDefined(s, input) && After(r, s, input) == Step(r, s, input).0
    ensures Step(r, s, input).1 && Inv(Step(r, s, input).0) && Rank(Step(r, s, input).0) < Rank(s)
  {
    hide Total, Undrawn, WangpaiUndrawn, WallLaid, Placed, Distinct, Sized, NoFlowersBut, RulesOk, HandleClaim, HaiteiAccept, HaiteiRefuse,
      HandleDiscard, HandleKongOrFlower, HandleTsumo;
    OfferedIsDefined(r, s, input);
    match input
    case OnTurn(seat, action) =>
      match action {
        case AcceptHaitei => HaiteiAcceptKeeps(s, seat);
        case RefuseHaitei => HaiteiRefuseKeeps(s);
        case Discard(t) => HandleDiscardKeeps(r, s, seat, t);
        case SelfKan(tiles) => SelfKanKeeps(r, s, seat, tiles);
        case FlowerReveal(_) =>
        case Tsumo => HandleTsumoKeeps(r, s, seat);
      }
    case InWindow(seat, c) => HandleClaimKeeps(r, s, seat, c);
  }
}
