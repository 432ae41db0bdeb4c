/** Where the engine does not guard itself: the exact conditions under which those paths keep the invariant. */
module HandLimits {
  import opened Tiles
  import opened Wall
  import opened Hand
  import opened HandInvariant
  import opened HandSteps

  // ---- Haitei offered twice ----

  /** Tiles on the table and in the wall never become fewer by supplementary draws, whatever the counters say. */
  lemma SupplementNeverLoses(s: State, seat: Seat)
    requires WallLaid(s.w) && NoRon(s)
    ensures var s' := DeadWallDraw(s, seat);
            WallLaid(s'.w) && NoRon(s') && Total(s.players, s.result, s.w) <= Total(s'.players, s'.result, s'.w)
    decreases Measure(s), 0
  {
    hide Total, Undrawn, Placed, WangpaiUndrawn;
    if s.wallCount == 0 {
      ConcludeKeepsTotal(s);
    } else {
      var (k, target) := DeadTarget(|s.w.tiles|, s.w.wallIndex, s.w.indicator, s.w.deadWallIndex);
      var w' := s.w.(deadWallIndex := k);
      DeadTargetGivesOne(s.w);
      match target
      case None =>
        PointerKeepsTotal(s, w');
        ConcludeKeepsTotal(s.(w := w'));
      case Some(idx) =>
        var s2 := LogEvent(TakeTile(s.(w := w'), seat, idx), DrawEventOf(seat, s.w.tiles[idx], false));
        TakeTileNeverLoses(s, w', seat, idx);
        RevealNeverLoses(s2, seat);
    }
  }

  lemma RevealNeverLoses(s: State, seat: Seat)
    requires WallLaid(s.w) && NoRon(s)
    ensures var s' := AutoReveal(s, seat);
            WallLaid(s'.w) && NoRon(s') && Total(s.players, s.result, s.w) <= Total(s'.players, s'.result, s'.w)
    decreases Measure(s), 1
  {
    hide Undrawn, Placed, WangpaiUndrawn, Hidden;
    match FlowerOf(s, seat)
    case None =>
      OffersHoldNoTiles(s.players, SetOffer(s, seat, TurnOffer).players);
    case Some(f) =>
      var s1 := MoveFlower(s, seat, f);
      assert PlayerTiles(s1.players[seat]) == PlayerTiles(s.players[seat]);
      PlacedSame(s.players, seat, s1.players[seat]);
      SupplementNeverLoses(s1, seat);
      RevealNeverLoses(ResumeTurn(DeadWallDraw(s1, seat)), seat);
  }

  lemma ConcludeKeepsTotal(s: State)
    requires WallLaid(s.w) && NoRon(s)
    ensures var s' := Conclude(s, Exhausted); Total(s'.players, s'.result, s'.w) == Total(s.players, s.result, s.w)
  {
    hide Undrawn, Placed, WangpaiUndrawn, Hidden;
    OffersHoldNoTiles(s.players, Conclude(s, Exhausted).players);
  }

  lemma PointerKeepsTotal(s: State, w': WallState)
    requires WallLaid(s.w) && WallLaid(w') && w'.tiles == s.w.tiles && w'.indicator == s.w.indicator && Undrawn(w') == Undrawn(s.w)
    ensures Total(s.players, s.result, w') == Total(s.players, s.result, s.w)
  {
    hide Undrawn, Placed;
  }

  lemma TakeTileNeverLoses(s: State, w': WallState, seat: Seat, idx: nat)
    requires WallLaid(s.w) && WallLaid(w') && w'.tiles == s.w.tiles && w'.indicator == s.w.indicator
    requires idx < |s.w.tiles| && Undrawn(w') == Undrawn(s.w) - {idx}
    ensures var s' := TakeTile(s.(w := w'), seat, idx);
            && Total(s.players, s.result, s.w) <= Total(s'.players, s'.result, s'.w)
            && (idx !in Undrawn(s.w) ==> Total(s'.players, s'.result, s'.w) == Total(s.players, s.result, s.w) + multiset{s.w.tiles[idx]})
  {
    hide Undrawn, Placed, WangpaiUndrawn, WonTile, WallLaid;
    var s' := TakeTile(s.(w := w'), seat, idx);
    HandGains(s.players, seat, s.w.tiles[idx], Some(s.w.tiles[idx]));
    if idx in Undrawn(s.w) {
      HiddenLess(s.w, w', idx);
      hide Hidden;
      TotalShifts(s.players, s'.players, s.result, s.w, w', s.w.tiles[idx]);
    } else {
      assert Undrawn(w') == Undrawn(s.w);
      assert Hidden(w') == Hidden(s.w);
      hide Hidden;
    }
  }

  /** The tiles in play are not those of the wall any more. */
  ghost predicate Overfull(s: State) {
    WallLaid(s.w) && Total(s.players, s.result, s.w) != multiset(s.w.tiles)
  }

  /** Accepting haitei is sound exactly while its tile is still in the wall. The engine does not check this. */
  lemma HaiteiAcceptExact(s: State)
    requires Inv(s) && s.phase == PlayerTurn && s.players[s.active].offer == HaiteiOffer
    ensures HaiteiAccept(s, s.active).1
    ensures Inv(HaiteiAccept(s, s.active).0) <==> s.w.haiteiDraw == -1
    ensures Overfull(HaiteiAccept(s, s.active).0) <==> s.w.haiteiDraw != -1
  {
    hide Inv, HaiteiAccept;
    AcceptIsTaken(s);
    InvConserves(HaiteiAccept(s, s.active).0);
    if s.w.haiteiDraw == -1 {
      HaiteiAcceptKeeps(s, s.active);
    } else {
      SecondAcceptOverfills(s);
    }
  }

  lemma AcceptIsTaken(s: State)
    requires Inv(s) && s.phase == PlayerTurn && s.players[s.active].offer == HaiteiOffer
    ensures HaiteiAccept(s, s.active).1 && WallLaid(s.w) && NoRon(s) && Total(s.players, s.result, s.w) == multiset(s.w.tiles)
  {
    hide Undrawn, Placed, WangpaiUndrawn, WonTile, Hidden, Total, NoFlowersBut, Sized, AutoReveal, TakeTile;
  }

  lemma InvConserves(s: State)
    ensures Inv(s) ==> !Overfull(s)
  {
    hide Undrawn, Placed, WangpaiUndrawn, WonTile, Hidden, Total, NoFlowersBut, Sized;
  }

  lemma SecondAcceptOverfills(s: State)
    requires WallLaid(s.w) && Total(s.players, s.result, s.w) == multiset(s.w.tiles)
    requires s.w.haiteiDraw != -1 && HaiteiAccept(s, s.active).1 && NoRon(s)
    ensures Overfull(HaiteiAccept(s, s.active).0)
  {
    hide Undrawn, Placed, WangpaiUndrawn, WonTile, Hidden, Total, AutoReveal;
    var seat := s.active;
    var idx := s.w.indicator + 1;
    assert s.w.(haiteiDraw := idx) == s.w;
    HaiteiNotUndrawn(s.w);
    TakeTileNeverLoses(s, s.w, seat, idx);
    var s1 := LogEvent(TakeTile(s, seat, idx), DrawEventOf(seat, s.w.tiles[idx], true));
    var s' := HaiteiAccept(s, seat).0;
    if FlowerOf(s1, seat).Some? {
      RevealNeverLoses(s1.(isHaitei := false), seat);
    } else {
      OfferKeepsTotal(s1, seat, TurnOffer);
    }
    TooMany(multiset(s.w.tiles), s.w.tiles[idx], Total(s'.players, s'.result, s'.w));
  }

  lemma TooMany(all: multiset<TileId>, t: TileId, total: multiset<TileId>)
    requires all + multiset{t} <= total
    ensures total != all
  {
    assert (all + multiset{t})[t] <= total[t];
  }

  lemma HaiteiNotUndrawn(w: WallState)
    requires WallLaid(w) && w.haiteiDraw != -1
    ensures w.haiteiDraw == w.indicator + 1 < |w.tiles| && w.indicator + 1 !in Undrawn(w) && Undrawn(w) - {w.indicator + 1} == Undrawn(w)
  {
  }

  lemma OfferKeepsTotal(s: State, seat: Seat, offer: Offer)
    requires WallLaid(s.w)
    ensures var s' := SetOffer(s, seat, offer); Total(s'.players, s'.result, s'.w) == Total(s.players, s.result, s.w)
  {
    hide Undrawn, Placed, WangpaiUndrawn, Hidden;
    OffersHoldNoTiles(s.players, SetOffer(s, seat, offer).players);
  }

  /** Declining a ron on the haitei discard offers the haitei tile, already drawn, to the next seat. */
  lemma DeclinedRonOffersHaiteiAgain(r: Rules, s: State, seat: Seat)
    requires RulesOk(r) && Inv(s) && s.phase == WaitDiscards && Offered(r, s, InWindow(seat, Pass))
    requires |s.queue| + 1 == Expected(s) && forall q | q in s.queue :: s.queue[q] == Pass
    requires s.w.haiteiDraw != -1 && FindHaitei(s.w).Some?
    ensures var s' := After(r, s, InWindow(seat, Pass));
            && Inv(s') && s'.phase == PlayerTurn && s'.active == Next(s.active)
            && s'.players[s'.active].offer == HaiteiOffer && s'.w.haiteiDraw != -1
            && Offered(r, s', OnTurn(s'.active, AcceptHaitei))
            && Overfull(After(r, s', OnTurn(s'.active, AcceptHaitei)))
  {
    hide Inv, HandleClaim, NextTurn, HaiteiAccept, Overfull;
    StepKeeps(r, s, InWindow(seat, Pass));
    WindowFacts(r, s, seat);
    PassesResolveToNextTurn(r, s, seat);
    NextTurnOffersHaitei(s.(queue := s.queue[seat := Pass]));
    var s' := After(r, s, InWindow(seat, Pass));
    OfferedIsDefined(r, s', OnTurn(s'.active, AcceptHaitei));
    HaiteiAcceptExact(s');
  }

  lemma WindowFacts(r: Rules, s: State, seat: Seat)
    requires Inv(s) && s.phase == WaitDiscards && Offered(r, s, InWindow(seat, Pass))
    ensures s.activeDiscard.Some? && s.w.wallIndex <= s.w.boundary <= |s.w.tiles| && seat != s.active
    ensures s.w.haiteiDraw != -1 ==> s.w.wallIndex == s.w.boundary < |s.w.tiles|
  {
    hide Undrawn, WangpaiUndrawn, Conserved, NoFlowersBut, Sized, Distinct;
  }

  lemma PassesResolveToNextTurn(r: Rules, s: State, seat: Seat)
    requires s.phase == WaitDiscards && s.activeDiscard.Some? && s.w.wallIndex <= s.w.boundary <= |s.w.tiles|
    requires seat != s.active && seat !in s.queue && |s.queue| + 1 == Expected(s)
    requires forall q | q in s.queue :: s.queue[q] == Pass
    ensures HandleClaim(r, s, seat, Pass).0 == NextTurn(s.(queue := s.queue[seat := Pass]))
  {
    hide NextTurn, ApplyMeld, ApplyRon;
    var s1 := s.(queue := s.queue[seat := Pass]);
    assert BestBid(s1.queue, 4).None?;
  }

  lemma NextTurnOffersHaitei(s: State)
    requires s.w.wallIndex == s.w.boundary < |s.w.tiles| && FindHaitei(s.w).Some?
    ensures var s' := NextTurn(s);
            && s'.phase == PlayerTurn && s'.active == Next(s.active) && s'.players[s'.active].offer == HaiteiOffer && s'.w == s.w
  {
    assert SkipConsumed(|s.w.tiles|, s.w.deadWallIndex, s.w.boundary, s.w.wallIndex) == s.w.boundary;
    assert s.w.(wallIndex := s.w.boundary) == s.w;
  }

  // ---- Kans refused half way ----

  /** A refused kan keeps the tiles on the table exactly when its very first tile is missing: any tile found before the
      missing one has left the hand for good. */
  lemma RefusedKanExact(s: State, seat: Seat, tiles: seq<TileId>, isKan: bool)
    requires CoreInv(s) && tiles != [] && !HandleKongOrFlower(s, seat, tiles, isKan).1
    ensures CoreInv(HandleKongOrFlower(s, seat, tiles, isKan).0) <==> tiles[0] !in s.players[seat].closedHand
  {
    hide Undrawn, WangpaiUndrawn, WonTile, Hidden, WallLaid, PlayerTiles, Placed, Measure;
    var p := s.players[seat];
    var rest := RemoveEach(p.closedHand, tiles).0;
    var s' := HandleKongOrFlower(s, seat, tiles, isKan).0;
    var p' := p.(closedHand := rest);
    assert s' == SetPlayer(s, seat, p');
    if tiles[0] in p.closedHand {
      assert RemoveEach(p.closedHand, tiles) == RemoveEach(RemoveFirst(p.closedHand, tiles[0]), tiles[1..]);
      PlacedSet(s.players, seat, p');
      LostTiles(p, rest);
      assert Placed(s'.players) != Placed(s.players) by {
        OnlyThatSeat(Placed(s.players), PlayerTiles(p), Placed(s'.players), PlayerTiles(p'));
      }
      Different(Placed(s'.players), Placed(s.players), WonTile(s.result), Hidden(s.w));
      assert !Conserved(s');
    } else {
      assert p' == p && s.players[seat := p] == s.players;
      assert s' == s;
    }
  }

  lemma OnlyThatSeat(all: multiset<TileId>, p: multiset<TileId>, all': multiset<TileId>, p': multiset<TileId>)
    requires all' + p == all + p' && p != p'
    ensures all' != all
  {
    assert p == (all' + p) - all';
    assert p' == (all + p') - all;
  }

  lemma LostTiles(p: Player, rest: seq<TileId>)
    requires |rest| < |p.closedHand|
    ensures PlayerTiles(p.(closedHand := rest)) != PlayerTiles(p)
  {
    assert |PlayerTiles(p.(closedHand := rest))| == |rest| + |MeldTiles(p.openMelds)| + |p.discards| + |p.flowerMelds|;
    assert |PlayerTiles(p)| == |p.closedHand| + |MeldTiles(p.openMelds)| + |p.discards| + |p.flowerMelds|;
  }

  lemma Different(a: multiset<TileId>, b: multiset<TileId>, won: multiset<TileId>, hidden: multiset<TileId>)
    requires a != b
    ensures a + won + hidden != b + won + hidden
  {
    assert (a + won + hidden) - hidden - won == a;
    assert (b + won + hidden) - hidden - won == b;
  }

  // ---- Declarations the menu does not offer ----

  ghost predicate Books(s: State) {
    CoreInv(s) && NoRon(s)
  }

  /** A seat that was to hold n tiles, melds counted, holds one more after its draw, unless the hand is over. */
  ghost predicate DrewOne(s: State, s': State, seat: Seat) {
    && Books(s') && (s.phase == RoundEnd ==> s'.phase == RoundEnd)
    && (s'.phase != RoundEnd ==> Size(s'.players[seat]) == Size(s.players[seat]) + 1 && s'.players[seat].offer == TurnOffer)
  }

  ghost predicate ShowedMenu(s: State, s': State, seat: Seat) {
    && Books(s') && (s.phase == RoundEnd ==> s'.phase == RoundEnd)
    && (s'.phase != RoundEnd ==> Size(s'.players[seat]) == Size(s.players[seat]) && s'.players[seat].offer == TurnOffer)
  }

  /** However many tiles the seat holds, a supplementary draw keeps the books and adds one tile to its hand. */
  lemma DrawKeepsBooks(s: State, seat: Seat)
    requires Books(s)
    ensures DrewOne(s, DeadWallDraw(s, seat), seat)
    decreases Measure(s), 0
  {
    hide Total, Undrawn, WangpaiUndrawn, Placed;
    if s.wallCount == 0 {
      ExhaustedKeeps(s);
    } else {
      var (k, target) := DeadTarget(|s.w.tiles|, s.w.wallIndex, s.w.indicator, s.w.deadWallIndex);
      var w' := s.w.(deadWallIndex := k);
      DeadTargetGivesOne(s.w);
      DeadTargetIsUndrawn(s.w);
      match target
      case None =>
        PointersMove(s, w');
        ExhaustedKeeps(s.(w := w'));
      case Some(idx) =>
        var e := DrawEventOf(seat, s.w.tiles[idx], false);
        TakeTileKeeps(s, w', seat, idx, e);
        RevealKeepsBooks(LogEvent(TakeTile(s.(w := w'), seat, idx), e), seat);
    }
  }

  lemma RevealKeepsBooks(s: State, seat: Seat)
    requires Books(s)
    ensures ShowedMenu(s, AutoReveal(s, seat), seat)
    decreases Measure(s), 1
  {
    hide Total, Undrawn, WangpaiUndrawn, WallLaid, Placed;
    match FlowerOf(s, seat)
    case None =>
      MenuKeepsBooks(s, seat);
    case Some(f) =>
      MoveFlowerKeeps(s, seat, f);
      var s1 := MoveFlower(s, seat, f);
      assert Size(s1.players[seat]) == Size(s.players[seat]) - 1;
      DrawKeepsBooks(s1, seat);
      var s2 := DeadWallDraw(s1, seat);
      FlagsKeep(s2, ResumeTurn(s2));
      RevealKeepsBooks(ResumeTurn(s2), seat);
  }

  lemma MenuKeepsBooks(s: State, seat: Seat)
    requires Books(s)
    ensures ShowedMenu(s, SetOffer(s, seat, TurnOffer), seat)
  {
    hide Total, Undrawn, WangpaiUndrawn, WallLaid, Placed;
    OfferKeeps(s, seat, TurnOffer);
  }

  /** The tiles leave the hand and lie on the table. */
  function Laid(s: State, seat: Seat, tiles: seq<TileId>, isKan: bool): State
    requires tiles != [] && (isKan ==> MeldsNonempty(s))
  {
    var rest := RemoveEach(s.players[seat].closedHand, tiles).0;
    if isKan then DeclareKan(s, seat, tiles, rest) else LayFlowers(s, seat, tiles, rest)
  }

  /** How many tiles a declaration takes from the hand when it is a proper one: four for a kan of its own, else one. */
  function Takes(s: State, seat: Seat, tiles: seq<TileId>, isKan: bool): (n: nat)
    requires tiles != [] && MeldsNonempty(s)
    ensures n == 1 || n == 4
  {
    var melds := s.players[seat].openMelds;
    if isKan && MatchingPon(melds, FaceOf(tiles[0])) == |melds| then 4 else 1
  }

  lemma LaidKeepsBooks(s: State, seat: Seat, tiles: seq<TileId>, isKan: bool)
    requires tiles != [] && MeldsNonempty(s) && multiset(tiles) <= multiset(s.players[seat].closedHand)
    ensures var s' := Laid(s, seat, tiles, isKan);
            && (Books(s) ==> Books(s'))
            && Size(s'.players[seat]) == Size(s.players[seat]) - |tiles| + (if Takes(s, seat, tiles, isKan) == 4 then 3 else 0)
  {
    hide Total, Undrawn, WangpaiUndrawn, WallLaid, Placed, PlayerTiles;
    LaidFrame(s, seat, tiles, isKan);
    var s' := Laid(s, seat, tiles, isKan);
    if isKan {
      DeclareKanFrame(s, seat, tiles);
      DeclareKanMovesTiles(s, seat, tiles);
    } else {
      LayFlowersFrame(s, seat, tiles);
    }
    if Books(s) {
      PlacedSame(s.players, seat, s'.players[seat]);
      Rebalanced(s, s');
    }
  }

  lemma LaidFrame(s: State, seat: Seat, tiles: seq<TileId>, isKan: bool)
    requires tiles != [] && MeldsNonempty(s) && multiset(tiles) <= multiset(s.players[seat].closedHand)
    ensures var s' := Laid(s, seat, tiles, isKan);
            && s' == s.(players := s.players[seat := s'.players[seat]], events := s'.events)
            && forall q: Seat, t | t in s'.players[q].closedHand :: t in s.players[q].closedHand
  {
    hide RemoveEach, FaceCode, MeldsNonempty;
    if isKan {
      DeclareKanFrame(s, seat, tiles);
    }
  }

  lemma LayFlowersFrame(s: State, seat: Seat, tiles: seq<TileId>)
    requires tiles != [] && MeldsNonempty(s) && multiset(tiles) <= multiset(s.players[seat].closedHand)
    ensures var s' := LayFlowers(s, seat, tiles, RemoveEach(s.players[seat].closedHand, tiles).0);
            && PlayerTiles(s'.players[seat]) == PlayerTiles(s.players[seat]) && MeldsNonempty(s')
            && |s'.events| == |s.events| + 1 && Measure(s') <= Measure(s) - 1
  {
    hide FaceCode;
    var p := s.players[seat];
    var rest := RemoveEach(p.closedHand, tiles).0;
    var s' := LayFlowers(s, seat, tiles, rest);
    assert multiset(p.flowerMelds + tiles) == multiset(p.flowerMelds) + multiset(tiles);
    assert multiset(rest) + MeldTiles(p.openMelds) + multiset(p.discards) + (multiset(p.flowerMelds) + multiset(tiles))
        == (multiset(rest) + multiset(tiles)) + MeldTiles(p.openMelds) + multiset(p.discards) + multiset(p.flowerMelds);
    MeldsStayNonempty(s, s', seat);
    MeasureOne(s, s', seat);
  }

  /** The engine checks of a declared kan or flower only that its tiles are in the hand. On a turn, one that is accepted keeps
      the invariant exactly when the hand ends on the draw it calls for, or the number of tiles is the proper one; their
      faces do not matter. */
  lemma AcceptedDeclarationExact(s: State, seat: Seat, tiles: seq<TileId>, isKan: bool)
    requires Inv(s) && s.phase == PlayerTurn && seat == s.active && s.players[seat].offer == TurnOffer
    requires tiles != [] && MeldsNonempty(s)
    ensures HandleKongOrFlower(s, seat, tiles, isKan).1 <==> multiset(tiles) <= multiset(s.players[seat].closedHand)
    ensures multiset(tiles) <= multiset(s.players[seat].closedHand) ==>
              var s' := HandleKongOrFlower(s, seat, tiles, isKan).0;
              Inv(s') <==> s'.phase == RoundEnd || |tiles| == Takes(s, seat, tiles, isKan)
  {
    AcceptsWhatIsHeld(s, seat, tiles, isKan);
    hide Inv, Books, Takes, MeldsNonempty, Size, HandleKongOrFlower;
    if multiset(tiles) <= multiset(s.players[seat].closedHand) {
      var s' := HandleKongOrFlower(s, seat, tiles, isKan).0;
      DeclarationDraws(s, seat, tiles, isKan);
      OverIsSound(s, s');
      TurnSize(s);
      if |tiles| == Takes(s, seat, tiles, isKan) {
        ProperDeclarationKeeps(s, seat, tiles, isKan);
      } else if s'.phase == PlayerTurn && Inv(s') {
        TurnSize(s');
        assert false;
      }
    }
  }

  lemma AcceptsWhatIsHeld(s: State, seat: Seat, tiles: seq<TileId>, isKan: bool)
    requires tiles != [] && MeldsNonempty(s)
    ensures HandleKongOrFlower(s, seat, tiles, isKan).1 <==> multiset(tiles) <= multiset(s.players[seat].closedHand)
  {
    hide DeadWallDraw, DeclareKan, LayFlowers, MeldsNonempty;
  }

  lemma TurnSize(s: State)
    requires Inv(s) && s.phase == PlayerTurn && s.players[s.active].offer == TurnOffer
    ensures Books(s) && Distinct(s.w.tiles) && Size(s.players[s.active]) == 14
  {
    hide CoreInv, Distinct, NoFlowersBut, Size;
  }

  /** A hand that is over only has to keep its books. */
  lemma OverIsSound(s: State, s': State)
    requires Inv(s) && Books(s') && s'.w.tiles == s.w.tiles
    ensures s'.phase == RoundEnd ==> Inv(s')
  {
    hide CoreInv, Distinct, TurnInv, WindowOpen;
  }

  lemma DeclarationDraws(s: State, seat: Seat, tiles: seq<TileId>, isKan: bool)
    requires Inv(s) && s.phase == PlayerTurn && s.players[s.active].offer == TurnOffer && seat == s.active
    requires tiles != [] && MeldsNonempty(s) && multiset(tiles) <= multiset(s.players[seat].closedHand)
    ensures var s' := HandleKongOrFlower(s, seat, tiles, isKan).0;
            && Books(s') && s'.w.tiles == s.w.tiles && s'.active == seat && (s'.phase == RoundEnd || s'.phase == PlayerTurn)
            && (s'.phase != RoundEnd ==>
                  && s'.players[seat].offer == TurnOffer
                  && Size(s'.players[seat]) == Size(s.players[seat]) - |tiles| + (if Takes(s, seat, tiles, isKan) == 4 then 4 else 1))
  {
    TurnSize(s);
    hide Inv, CoreInv, DeadWallDraw, Laid, Takes, MeldsNonempty, Size, HandleKongOrFlower;
    var s1 := Laid(s, seat, tiles, isKan);
    var s2 := DeadWallDraw(s1, seat);
    LaidKeepsBooks(s, seat, tiles, isKan);
    LaidFrame(s, seat, tiles, isKan);
    DrawKeepsBooks(s1, seat);
    FlagsKeep(s2, ResumeTurn(s2));
    DeclarationIs(s, seat, tiles, isKan);
  }

  lemma ProperDeclarationKeeps(s: State, seat: Seat, tiles: seq<TileId>, isKan: bool)
    requires Inv(s) && s.phase == PlayerTurn && s.players[s.active].offer == TurnOffer && seat == s.active
    requires tiles != [] && MeldsNonempty(s) && multiset(tiles) <= multiset(s.players[seat].closedHand)
    requires |tiles| == Takes(s, seat, tiles, isKan)
    ensures Inv(HandleKongOrFlower(s, seat, tiles, isKan).0)
  {
    hide CoreInv, Distinct, NoFlowersBut, DeadWallDraw, Laid, Takes, MeldsNonempty, Size, HandleKongOrFlower;
    var s1 := Laid(s, seat, tiles, isKan);
    LaidKeepsBooks(s, seat, tiles, isKan);
    LaidFrame(s, seat, tiles, isKan);
    FlowersShrink(s, s1);
    DeadWallDrawKeeps(s1, seat);
    ResumeTurnKeeps(s1, DeadWallDraw(s1, seat), seat);
    DeclarationIs(s, seat, tiles, isKan);
  }

  lemma DeclarationIs(s: State, seat: Seat, tiles: seq<TileId>, isKan: bool)
    requires tiles != [] && MeldsNonempty(s) && multiset(tiles) <= multiset(s.players[seat].closedHand)
    ensures HandleKongOrFlower(s, seat, tiles, isKan).0 == ResumeTurn(DeadWallDraw(Laid(s, seat, tiles, isKan), seat))
  {
    hide DeadWallDraw, DeclareKan, LayFlowers;
  }
}
