/** The engine's Game object: fields updated in place, each method proved against the hand's specification functions. */
module GameObject {
  import opened Tiles
  import opened Wall
  import opened Hand
  import opened HandInvariant
  import HandSteps

  class Game {
    const rules: Rules
    var wall: array<TileId>
    var wallIndex: nat
    var deadWallIndex: nat
    var wangpaiBoundary: nat
    var wildIndicatorIndex: nat
    var haiteiDrawIndex: int
    var wallCount: nat
    var wangpaiTilesLeft: nat
    var players: Players
    var wildTiles: seq<Face>
    var phase: Phase
    var activePlayer: Seat
    var isHaitei: bool
    var activeDiscard: Option<TileId>
    var interruptQueue: map<Seat, Claim>
    var publicEvents: seq<PublicEvent>
    var roundResult: Option<Result>

    ghost function Pointers(): WallState
      reads this, wall
    {
      WallState(wall[..], wallIndex, deadWallIndex, wangpaiBoundary, wildIndicatorIndex, haiteiDrawIndex)
    }

    /** The state of the hand this object represents. */
    ghost function View(): State
      reads this, wall
    {
      State(Pointers(), wallCount, wangpaiTilesLeft, players, wildTiles, phase, activePlayer, isHaitei,
            activeDiscard, interruptQueue, publicEvents, roundResult)
    }

    /** A fresh match: no tiles dealt yet. */
    constructor (r: Rules)
      ensures rules == r && phase == RoundEnd && !isHaitei && fresh(wall) && haiteiDrawIndex == -1
    {
      rules := r;
      wall := new TileId[0];
      wallIndex, deadWallIndex, wangpaiBoundary, wildIndicatorIndex, haiteiDrawIndex := 0, 0, 0, 0, -1;
      wallCount, wangpaiTilesLeft := 0, 0;
      players := [EMPTY_PLAYER, EMPTY_PLAYER, EMPTY_PLAYER, EMPTY_PLAYER];
      wildTiles, phase, activePlayer, isHaitei := [], RoundEnd, 0, false;
      activeDiscard, interruptQueue, publicEvents, roundResult := None, map[], [], None;
    }

    /** The struct copy of a branch, over a wall array of its own. */
    constructor Branch(g: Game, copied: array<TileId>)
      requires copied[..] == g.wall[..]
      ensures rules == g.rules && wall == copied && View() == g.View()
    {
      rules := g.rules;
      wall := copied;
      wallIndex, deadWallIndex := g.wallIndex, g.deadWallIndex;
      wangpaiBoundary, wildIndicatorIndex, haiteiDrawIndex := g.wangpaiBoundary, g.wildIndicatorIndex, g.haiteiDrawIndex;
      wallCount, wangpaiTilesLeft := g.wallCount, g.wangpaiTilesLeft;
      players, wildTiles, phase, activePlayer, isHaitei := g.players, g.wildTiles, g.phase, g.activePlayer, g.isHaitei;
      activeDiscard, interruptQueue := g.activeDiscard, g.interruptQueue;
      publicEvents, roundResult := g.publicEvents, g.roundResult;
    }

    // ---- Reading the wall ----

    method UpdateWangpaiTilesLeft()
      modifies this`wangpaiTilesLeft
      ensures wangpaiTilesLeft == |WangpaiUndrawn(Pointers())|
    {
      var remaining := 0;
      var idx := wangpaiBoundary;
      ghost var seen: set<int> := {};
      while idx < wall.Length
        invariant wangpaiBoundary <= idx
        invariant seen == set i | i in WangpaiUndrawn(Pointers()) && i < idx
        invariant remaining == |seen|
      {
        var consumed := IsTileConsumedByDeadWall(wall.Length, deadWallIndex, idx);
        if !(idx == wildIndicatorIndex || idx == haiteiDrawIndex) && !consumed {
          remaining := remaining + 1;
          seen := seen + {idx};
        }
        idx := idx + 1;
      }
      assert seen == WangpaiUndrawn(Pointers());
      wangpaiTilesLeft := remaining;
    }

    /** The hidden positions in ascending order, each once. */
    method UndrawnWallIndices() returns (out: seq<nat>)
      ensures forall i: int :: i in out <==> i in Undrawn(Pointers())
      ensures forall i, j | 0 <= i < j < |out| :: out[i] < out[j]
      ensures |out| == |Undrawn(Pointers())|
    {
      hide Consumed;
      out := [];
      var idx := wallIndex;
      while idx < wall.Length
        invariant wallIndex <= idx
        invariant forall i: int :: i in out <==> i in Undrawn(Pointers()) && i < idx
        invariant forall i, j | 0 <= i < j < |out| :: out[i] < out[j]
      {
        var consumed := IsTileConsumedByDeadWall(wall.Length, deadWallIndex, idx);
        if idx != wildIndicatorIndex && !consumed && !(haiteiDrawIndex >= 0 && idx == haiteiDrawIndex) {
          assert forall i | 0 <= i < |out| :: out[i] in out;
          out := out + [idx];
        }
        idx := idx + 1;
      }
      AscendingSize(out);
      assert Positions(out) == Undrawn(Pointers());
    }

    static ghost function Positions(out: seq<nat>): set<int> {
      set i: int | i in out
    }

    static lemma {:induction false} AscendingSize(out: seq<nat>)
      requires forall i, j | 0 <= i < j < |out| :: out[i] < out[j]
      ensures |out| == |Positions(out)|
    {
      if out != [] {
        var last, rest := out[|out| - 1], out[..|out| - 1];
        assert out == rest + [last];
        AscendingSize(rest);
        assert Positions(out) == Positions(rest) + {last} && last !in Positions(rest);
      }
    }

    method FindHaiteiIndex() returns (r: Option<nat>)
      ensures r == FindHaitei(Pointers())
    {
      var haiteiIdx := wildIndicatorIndex + 1;
      if haiteiIdx < wall.Length {
        var consumed := IsTileConsumedByDeadWall(wall.Length, deadWallIndex, haiteiIdx);
        if !consumed {
          return Some(haiteiIdx);
        }
      }
      return None;
    }

    method FindRevealableFlowerTile(seat: Seat) returns (r: Option<TileId>)
      ensures r == FlowerOf(View(), seat)
    {
      var hand := players[seat].closedHand;
      var i := 0;
      while i < |hand|
        invariant 0 <= i <= |hand|
        invariant FirstRevealable(View(), hand[i..]) == FlowerOf(View(), seat)
      {
        assert hand[i..][1..] == hand[i + 1..];
        if IsFlower(hand[i]) && FaceOf(hand[i]) !in wildTiles {
          return Some(hand[i]);
        }
        i := i + 1;
      }
      return None;
    }

    /** Cuts the first tile with the id out of a hand. */
    method CutFromHand(hand: seq<TileId>, t: TileId) returns (rest: seq<TileId>, found: bool)
      ensures rest == RemoveFirst(hand, t) && found == (t in hand)
    {
      var i := 0;
      while i < |hand|
        invariant 0 <= i <= |hand|
        invariant t !in hand[..i]
      {
        if hand[i] == t {
          RemoveFirstAt(hand, t, i);
          return hand[..i] + hand[i + 1..], true;
        }
        i := i + 1;
      }
      assert hand == hand[..i];
      return hand, false;
    }

    static lemma {:induction false} RemoveFirstAt(hand: seq<TileId>, t: TileId, i: nat)
      requires i < |hand| && hand[i] == t && t !in hand[..i]
      ensures RemoveFirst(hand, t) == hand[..i] + hand[i + 1..]
    {
      if i > 0 {
        assert hand[0] == hand[..i][0];
        assert hand[1..][..i - 1] == hand[..i][1..];
        RemoveFirstAt(hand[1..], t, i - 1);
        assert hand[1..][i..] == hand[i + 1..];
      }
    }

    // ---- Ends of a hand ----

    /** Phase and result are set, every menu is cleared. */
    method ConcludeRound(result: Result)
      modifies this
      ensures wall == old(wall) && View() == Conclude(old(View()), result)
    {
      phase := RoundEnd;
      roundResult := Some(result);
      ClearAllOffers();
    }

    method ClearAllOffers()
      modifies this`players
      ensures View() == ClearOffers(old(View()))
    {
      var i := 0;
      while i < 4
        invariant 0 <= i <= 4
        invariant forall q: Seat :: players[q] == if q < i then old(players)[q].(offer := NoOffer) else old(players)[q]
      {
        players := players[i := players[i].(offer := NoOffer)];
        i := i + 1;
      }
      assert players == ClearOffers(old(View())).players;
    }

    method SetValidActions(seat: Seat, offer: Offer)
      modifies this`players
      ensures View() == SetOffer(old(View()), seat, offer)
    {
      players := players[seat := players[seat].(offer := offer)];
    }

    // ---- Draws ----

    /** Puts wall tile idx into the seat's hand; the caller has moved the wall pointers. */
    method Draw(seat: Seat, idx: nat, haitei: bool)
      requires idx < wall.Length
      modifies this
      ensures wall == old(wall)
      ensures View() == LogEvent(TakeTile(old(View()), seat, idx), DrawEventOf(seat, old(wall[idx]), haitei))
    {
      var drawnTile := wall[idx];
      var player := players[seat];
      players := players[seat := player.(closedHand := player.closedHand + [drawnTile], drawn := Some(drawnTile))];
      wallCount := Dec32(wallCount);
      UpdateWangpaiTilesLeft();
      publicEvents := publicEvents + [PublicEvent(DrawEvent, seat, FaceCode(drawnTile), -1, false, haitei)];
    }

    method ExecuteDeadWallDraw(seat: Seat)
      modifies this
      ensures wall == old(wall) && View() == DeadWallDraw(old(View()), seat)
      decreases Measure(View()), 2
    {
      hide DeadTarget, TakeTile, AutoReveal, Conclude, Measure;
      if wallCount == 0 {
        ConcludeRound(Exhausted);
        return;
      }
      ghost var s := View();
      var target := NextFromBack();
      if target == None {
        ConcludeRound(Exhausted);
        return;
      }
      DrawMeasure(s, deadWallIndex, seat, target.value);
      Draw(seat, target.value, false);
      AutoRevealFlowers(seat);
    }

    static lemma DrawMeasure(s: State, k: nat, seat: Seat, idx: nat)
      requires s.wallCount > 0 && idx < |s.w.tiles|
      ensures forall e :: Measure(LogEvent(TakeTile(s.(w := s.w.(deadWallIndex := k)), seat, idx), e)) < Measure(s)
    {
      assert seat == 0 || seat == 1 || seat == 2 || seat == 3;
    }

    /** The next wall index from the back, top before bottom; the face-up indicator is stepped over. */
    method NextFromBack() returns (target: Option<nat>)
      modifies this`deadWallIndex
      ensures (deadWallIndex, target) == old(DeadTarget(wall.Length, wallIndex, wildIndicatorIndex, deadWallIndex))
    {
      ghost var goal := DeadTarget(wall.Length, wallIndex, wildIndicatorIndex, deadWallIndex);
      while true
        invariant DeadTarget(wall.Length, wallIndex, wildIndicatorIndex, deadWallIndex) == goal
        decreases wall.Length + 1 - deadWallIndex
      {
        var k := deadWallIndex;
        var stackOffset := (k / 2) * 2;
        var drawIndex: int;
        if k % 2 == 1 {
          drawIndex := wall.Length - 1 - stackOffset;
        } else {
          drawIndex := wall.Length - 2 - stackOffset;
        }
        if drawIndex < wallIndex {
          return None;
        }
        deadWallIndex := deadWallIndex + 1;
        if drawIndex != wildIndicatorIndex {
          return Some(drawIndex);
        }
      }
    }

    /** Reveals the seat's flowers one after the other, then shows the turn menu. */
    method AutoRevealFlowers(seat: Seat)
      modifies this
      ensures wall == old(wall) && View() == AutoReveal(old(View()), seat)
      decreases Measure(View()), 1
    {
      hide DeadWallDraw, HandleKongOrFlower, MoveFlower, ResumeTurn, FirstRevealable, Measure, SetOffer;
      ghost var goal := AutoReveal(View(), seat);
      while true
        invariant wall == old(wall) && AutoReveal(View(), seat) == goal
        invariant Measure(View()) <= Measure(old(View()))
        decreases Measure(View())
      {
        var flower := FindRevealableFlowerTile(seat);
        if flower == None {
          SetValidActions(seat, TurnOffer);
          return;
        }
        RevealIsKong(View(), seat, flower.value);
        var _ := HandleKongOrFlowerReveal(seat, [flower.value], false);
      }
    }

    static lemma RevealIsKong(s: State, seat: Seat, f: TileId)
      requires f in s.players[seat].closedHand
      ensures var s' := ResumeTurn(DeadWallDraw(MoveFlower(s, seat, f), seat));
              HandleKongOrFlower(s, seat, [f], false) == (s', true) && Measure(s') < Measure(s)
    {
      hide DeadWallDraw;
      assert RemoveEach(s.players[seat].closedHand, [f]) == (RemoveFirst(s.players[seat].closedHand, f), true);
    }

    /** A self-drawn kan or a flower: melds the tiles, then takes the supplementary tile. */
    method HandleKongOrFlowerReveal(seat: Seat, tiles: seq<TileId>, isKan: bool) returns (ok: bool)
      requires tiles != [] && (isKan ==> MeldsNonempty(View()))
      modifies this
      ensures wall == old(wall) && (View(), ok) == HandleKongOrFlower(old(View()), seat, tiles, isKan)
      decreases Measure(View()), 0
    {
      hide DeadWallDraw, AutoReveal, DeclareKan, LayFlowers, ResumeTurn, Measure, MeldsNonempty;
      ghost var s := View();
      ok := TakeFromHand(seat, tiles);
      if !ok {
        return;
      }
      MeldingIgnoresHand(s, seat, tiles, players[seat].closedHand, isKan);
      MeldingShrinksHands(s, seat, tiles, isKan);
      if isKan {
        MeldKan(seat, tiles);
      } else {
        MeldFlowers(seat, tiles);
      }
      ExecuteDeadWallDraw(seat);
      Resume();
    }

    method Resume()
      modifies this`phase
      ensures View() == ResumeTurn(old(View()))
    {
      if phase != RoundEnd {
        phase := PlayerTurn;
      }
    }

    method MeldFlowers(seat: Seat, tiles: seq<TileId>)
      requires tiles != []
      modifies this
      ensures wall == old(wall) && View() == LayFlowers(old(View()), seat, tiles, old(players)[seat].closedHand)
    {
      players := players[seat := players[seat].(flowerMelds := players[seat].flowerMelds + tiles)];
      publicEvents := publicEvents + [PublicEvent(FlowerEvent, seat, FaceCode(tiles[0]), -1, false, false)];
    }

    /** Cuts the tiles out of the hand one by one; stops at the first missing one, leaving the cuts made so far. */
    method TakeFromHand(seat: Seat, tiles: seq<TileId>) returns (ok: bool)
      modifies this`players
      ensures players == old(players)[seat := old(players)[seat].(closedHand := RemoveEach(old(players)[seat].closedHand, tiles).0)]
      ensures ok == RemoveEach(old(players)[seat].closedHand, tiles).1
    {
      hide RemoveFirst;
      var hand := players[seat].closedHand;
      ghost var goal := RemoveEach(hand, tiles);
      var i := 0;
      while i < |tiles|
        invariant 0 <= i <= |tiles|
        invariant players == old(players)[seat := old(players)[seat].(closedHand := hand)]
        invariant RemoveEach(hand, tiles[i..]) == goal
      {
        var rest, found := CutFromHand(hand, tiles[i]);
        if !found {
          return false;
        }
        assert tiles[i..][1..] == tiles[i + 1..];
        hand := rest;
        players := players[seat := players[seat].(closedHand := hand)];
        i := i + 1;
      }
      return true;
    }

    static lemma MeldingIgnoresHand(s: State, seat: Seat, tiles: seq<TileId>, rest: seq<TileId>, isKan: bool)
      requires tiles != [] && (isKan ==> MeldsNonempty(s))
      ensures var s1 := SetPlayer(s, seat, s.players[seat].(closedHand := rest));
              && (isKan ==> MeldsNonempty(s1) && DeclareKan(s1, seat, tiles, rest) == DeclareKan(s, seat, tiles, rest))
              && LayFlowers(s1, seat, tiles, rest) == LayFlowers(s, seat, tiles, rest)
    {
    }

    static lemma MeldingShrinksHands(s: State, seat: Seat, tiles: seq<TileId>, isKan: bool)
      requires tiles != [] && (isKan ==> MeldsNonempty(s)) && RemoveEach(s.players[seat].closedHand, tiles).1
      ensures var rest := RemoveEach(s.players[seat].closedHand, tiles).0;
              Measure(if isKan then DeclareKan(s, seat, tiles, rest) else LayFlowers(s, seat, tiles, rest)) < Measure(s)
    {
      hide Measure, FaceCode;
      var rest := RemoveEach(s.players[seat].closedHand, tiles).0;
      if isKan {
        HandSteps.DeclareKanShape(s, seat, tiles, rest);
        HandSteps.MeasureOne(s, DeclareKan(s, seat, tiles, rest), seat);
      } else {
        HandSteps.MeasureOne(s, LayFlowers(s, seat, tiles, rest), seat);
      }
    }

    /** Stacks the tiles on the first pon of their face, or lays them down as a closed kan. */
    method MeldKan(seat: Seat, tiles: seq<TileId>)
      requires tiles != [] && MeldsNonempty(View())
      modifies this
      ensures wall == old(wall)
      ensures View() == DeclareKan(old(View()), seat, tiles, old(players)[seat].closedHand)
    {
      var melds := players[seat].openMelds;
      var face := FaceOf(tiles[0]);
      var i := 0;
      while i < |melds|
        invariant 0 <= i <= |melds|
        invariant forall j | 0 <= j < i :: !(melds[j].kind == PonMeld && FaceOf(melds[j].tiles[0]) == face)
      {
        var m := melds[i];
        assert m in melds;
        if m.kind == PonMeld && FaceOf(m.tiles[0]) == face {
          var m' := m.(kind := KanMeld, tiles := m.tiles + tiles, added := Some(tiles[0]));
          players := players[seat := players[seat].(openMelds := melds[i := m'])];
          publicEvents := publicEvents + [PublicEvent(KanUpgradeEvent, seat, FaceCode(tiles[0]), -1, false, false)];
          return;
        }
        i := i + 1;
      }
      players := players[seat := players[seat].(openMelds := melds + [Meld(KanMeld, tiles, 0, None, None)])];
      publicEvents := publicEvents + [PublicEvent(KanClosedEvent, seat, FaceCode(tiles[0]), -1, false, false)];
    }

    /** Moves the front past tiles that supplementary draws have already taken. */
    method SkipConsumedTiles()
      requires wallIndex <= wangpaiBoundary
      modifies this`wallIndex
      ensures wallIndex == SkipConsumed(wall.Length, deadWallIndex, wangpaiBoundary, old(wallIndex))
    {
      hide Consumed;
      while wallIndex < wangpaiBoundary
        invariant wallIndex <= wangpaiBoundary
        invariant SkipConsumed(wall.Length, deadWallIndex, wangpaiBoundary, wallIndex)
               == SkipConsumed(wall.Length, deadWallIndex, wangpaiBoundary, old(wallIndex))
      {
        var consumed := IsTileConsumedByDeadWall(wall.Length, deadWallIndex, wallIndex);
        if !consumed {
          break;
        }
        wallIndex := wallIndex + 1;
      }
    }

    method ExecuteSystemDraw(seat: Seat)
      requires wallIndex <= wangpaiBoundary <= wall.Length
      modifies this
      ensures wall == old(wall) && View() == SystemDraw(old(View()), seat)
    {
      hide AutoReveal, TakeTile, Conclude, SetOffer, Undrawn, WangpaiUndrawn, Consumed, SkipConsumed;
      ghost var s := View();
      SkipConsumedTiles();
      assert View() == s.(w := s.w.(wallIndex := wallIndex));
      if wallIndex >= wangpaiBoundary {
        var haiteiIdx := FindHaiteiIndex();
        if haiteiIdx == None {
          ConcludeRound(Exhausted);
          return;
        }
        isHaitei := true;
        SetValidActions(seat, HaiteiOffer);
        return;
      }
      wallIndex := wallIndex + 1;
      Draw(seat, wallIndex - 1, false);
      AutoRevealFlowers(seat);
    }

    // ---- Turn actions ----

    method HandleHaiteiAccept(seat: Seat) returns (ok: bool)
      modifies this
      ensures wall == old(wall) && (View(), ok) == HaiteiAccept(old(View()), seat)
    {
      hide AutoReveal, TakeTile, SetOffer, FirstRevealable, DrawEventOf;
      var haiteiIdx := FindHaiteiIndex();
      if haiteiIdx == None {
        return false;
      }
      haiteiDrawIndex := haiteiIdx.value;
      Draw(seat, haiteiIdx.value, true);
      var flower := FindRevealableFlowerTile(seat);
      if flower != None {
        isHaitei := false;
        AutoRevealFlowers(seat);
      } else {
        SetValidActions(seat, TurnOffer);
      }
      return true;
    }

    method HandleHaiteiRefuse()
      modifies this
      ensures wall == old(wall) && View() == HaiteiRefuse(old(View()))
    {
      isHaitei := false;
      ConcludeRound(Exhausted);
    }

    /** What the rule engine is shown. */
    method RuleView() returns (table: Table)
      ensures table == TableOf(View())
    {
      table := Table([players[0].(offer := NoOffer), players[1].(offer := NoOffer),
                      players[2].(offer := NoOffer), players[3].(offer := NoOffer)],
                     wildTiles, phase, activePlayer, isHaitei, activeDiscard, wallCount, wangpaiTilesLeft);
    }

    method OfferTo(ghost s: State, table: Table, tile: TileId, discarder: Seat, seat: Seat) returns (offer: Offer)
      requires table == TableOf(s) && isHaitei == s.isHaitei
      ensures offer == ClaimOfferFor(rules, s, tile, discarder, seat)
    {
      if seat == discarder {
        return NoOffer;
      }
      var claims := rules.interrupts(table, tile, seat);
      if isHaitei {
        claims := RonOnly(claims);
      }
      return ClaimOffer(claims);
    }

    /** Shows every seat but the discarder its claims; tells whether anyone has one. */
    method OfferInterrupts(seat: Seat, tile: TileId) returns (anyoneCanAct: bool)
      modifies this`players
      ensures View() == OfferClaims(rules, old(View()), tile, seat)
      ensures anyoneCanAct <==> Expected(View()) > 0
    {
      hide TableOf, ClaimOfferFor;
      ghost var s := View();
      var table := RuleView();
      anyoneCanAct := false;
      var q := 0;
      while q < 4
        invariant 0 <= q <= 4
        invariant forall p: Seat | p < q :: players[p] == s.players[p].(offer := ClaimOfferFor(rules, s, tile, seat, p))
        invariant forall p: Seat | p >= q :: players[p] == s.players[p]
        invariant anyoneCanAct <==> exists p: Seat | p < q :: MustAnswer(players[p].offer)
      {
        var offer := OfferTo(s, table, tile, seat, q);
        players := players[q := players[q].(offer := offer)];
        assert players[q].offer == offer;
        if MustAnswer(offer) {
          anyoneCanAct := true;
        }
        q := q + 1;
      }
      assert players == OfferClaims(rules, s, tile, seat).players;
    }

    method HandleDiscard(seat: Seat, tile: TileId) returns (ok: bool)
      requires wallIndex <= wangpaiBoundary <= wall.Length
      modifies this
      ensures wall == old(wall) && (View(), ok) == Hand.HandleDiscard(rules, old(View()), seat, tile)
    {
      hide NextTurn, OfferClaims, Conclude, Expected, DiscardTile;
      ghost var s := View();
      ok := MoveToPile(seat, tile);
      if !ok {
        return;
      }
      var anyone := OfferInterrupts(seat, tile);
      if anyone {
        phase := WaitDiscards;
        interruptQueue := map[];
      } else if isHaitei {
        isHaitei := false;
        ConcludeRound(Exhausted);
      } else {
        AdvanceTurn();
      }
    }

    /** Moves the tile from the hand to the discard pile and makes it the open discard. */
    method MoveToPile(seat: Seat, tile: TileId) returns (ok: bool)
      modifies this
      ensures wall == old(wall) && ok == (tile in old(players)[seat].closedHand)
      ensures View() == if ok then DiscardTile(old(View()), seat, tile) else old(View())
      ensures wallIndex == old(wallIndex) && wangpaiBoundary == old(wangpaiBoundary) && isHaitei == old(isHaitei)
    {
      hide FaceCode;
      var hand, found := CutFromHand(players[seat].closedHand, tile);
      if !found {
        return false;
      }
      var player := players[seat];
      players := players[seat := player.(closedHand := hand, discards := player.discards + [tile], drawn := None)];
      publicEvents := publicEvents + [PublicEvent(DiscardEvent, seat, FaceCode(tile), -1, player.drawn == Some(tile), false)];
      activeDiscard := Some(tile);
      return true;
    }

    /** Nobody took the discard. */
    method AdvanceTurn()
      requires wallIndex <= wangpaiBoundary <= wall.Length
      modifies this
      ensures wall == old(wall) && View() == NextTurn(old(View()))
    {
      hide SystemDraw;
      ghost var s := View();
      activePlayer := (activePlayer + 1) % 4;
      phase := PlayerTurn;
      activeDiscard := None;
      assert View() == s.(active := Next(s.active), phase := PlayerTurn, activeDiscard := None);
      ExecuteSystemDraw(activePlayer);
    }

    method HandleTsumo(seat: Seat) returns (ok: bool)
      modifies this
      ensures wall == old(wall) && (View(), ok) == Hand.HandleTsumo(rules, old(View()), seat)
    {
      hide Conclude;
      var player := players[seat];
      var table := RuleView();
      if !rules.wins(table, seat, None) {
        return false;
      }
      var winTile: Option<TileId> := None;
      if player.drawn != None && player.drawn.value in player.closedHand {
        winTile := player.drawn;
      }
      ConcludeRound(TsumoWin(seat, winTile));
      return true;
    }

    // ---- Claim windows ----

    /** Ron over kan over pon over chii; among equals the lowest seat. */
    method ResolveInterruptPriority() returns (best: Option<Seat>)
      ensures best == BestBid(interruptQueue, 4)
      ensures best.Some? ==> best.value in interruptQueue && Weight(interruptQueue[best.value]) > 0
    {
      best := None;
      var highest := 0;
      var seat: nat := 0;
      while seat < 4
        invariant 0 <= seat <= 4
        invariant best == BestBid(interruptQueue, seat)
        invariant highest == if best.Some? then BidWeight(interruptQueue, best.value) else 0
      {
        if seat in interruptQueue && Weight(interruptQueue[seat]) > highest {
          highest := Weight(interruptQueue[seat]);
          best := Some(seat);
        }
        seat := seat + 1;
      }
    }

    /** Lays the claimed meld down and takes the discard out of the discarder's pile. */
    method ClaimDiscard(winner: Seat, c: Claim)
      requires activeDiscard.Some? && (c.Chii? || c.Pon? || c.Kan?)
      modifies this
      ensures wall == old(wall) && View() == TakeDiscard(old(View()), winner, c)
    {
      hide LayClaim;
      var discarder := activePlayer;
      LayClaimFrame(View(), winner, c);
      LayClaimedMeld(winner, c);
      PopDiscard(discarder);
      activePlayer := winner;
      activeDiscard := None;
    }

    static lemma LayClaimFrame(s: State, winner: Seat, c: Claim)
      requires s.activeDiscard.Some? && (c.Chii? || c.Pon? || c.Kan?)
      ensures LayClaim(s, winner, c).active == s.active
    {
    }

    static lemma LayClaimTouches(s: State, winner: Seat, c: Claim)
      requires s.activeDiscard.Some? && (c.Chii? || c.Pon? || c.Kan?)
      ensures var t := s.activeDiscard.value;
              var p := s.players[winner];
              var meld := Meld(ClaimMeldKind(c), c.tiles + [t], (s.active + 4 - winner) % 4, Some(t), None);
              LayClaim(s, winner, c) == s.(
                players := s.players[winner := p.(closedHand := RemovePresent(p.closedHand, c.tiles), openMelds := p.openMelds + [meld], drawn := None)],
                events := s.events + [PublicEvent(ClaimEventKind(c), winner, FaceCode(t), s.active, false, false)])
    {
      hide FaceCode, RemovePresent, ClaimMeldKind, ClaimEventKind;
    }

    method LayClaimedMeld(winner: Seat, c: Claim)
      requires activeDiscard.Some? && (c.Chii? || c.Pon? || c.Kan?)
      modifies this`players, this`publicEvents
      ensures View() == LayClaim(old(View()), winner, c)
    {
      hide FaceCode, RemovePresent, ClaimMeldKind, ClaimEventKind, LayClaim;
      LayClaimTouches(View(), winner, c);
      var t := activeDiscard.value;
      var player := players[winner];
      var hand := CutEach(player.closedHand, c.tiles);
      var meld := Meld(ClaimMeldKind(c), c.tiles + [t], (activePlayer + 4 - winner) % 4, Some(t), None);
      players := players[winner := player.(closedHand := hand, openMelds := player.openMelds + [meld], drawn := None)];
      publicEvents := publicEvents + [PublicEvent(ClaimEventKind(c), winner, FaceCode(t), activePlayer, false, false)];
    }

    method CutEach(hand: seq<TileId>, tiles: seq<TileId>) returns (rest: seq<TileId>)
      ensures rest == RemovePresent(hand, tiles)
    {
      rest := hand;
      var i := 0;
      while i < |tiles|
        invariant 0 <= i <= |tiles|
        invariant RemovePresent(rest, tiles[i..]) == RemovePresent(hand, tiles)
      {
        assert tiles[i..][1..] == tiles[i + 1..];
        var cut, _ := CutFromHand(rest, tiles[i]);
        rest := cut;
        i := i + 1;
      }
    }

    method PopDiscard(seat: Seat)
      modifies this`players
      ensures players == old(players)[seat := old(players)[seat].(discards := DropLast(old(players)[seat].discards))]
    {
      var pile := players[seat].discards;
      if |pile| > 0 {
        players := players[seat := players[seat].(discards := pile[..|pile| - 1])];
      }
    }

    method ResolveInterrupts()
      requires activeDiscard.Some? && wallIndex <= wangpaiBoundary <= wall.Length
      modifies this
      ensures wall == old(wall) && View() == Resolve(rules, old(View()))
    {
      hide NextTurn, ApplyMeld, ApplyRon, BestBid, TableOf;
      var best := ResolveInterruptPriority();
      if best == None {
        AdvanceTurn();
        return;
      }
      var winner := best.value;
      var c := interruptQueue[winner];
      if c == Ron {
        var wins := ClaimWins(winner);
        if !wins {
          AdvanceTurn();
          return;
        }
        ConcludeRon(winner);
      } else {
        ClaimMeld(winner, c);
      }
      interruptQueue := map[];
    }

    method ConcludeRon(winner: Seat)
      requires activeDiscard.Some?
      modifies this
      ensures wall == old(wall) && View() == ApplyRon(old(View()), winner)
    {
      hide Conclude;
      var result := RonWin(winner, activePlayer, activeDiscard.value);
      PopDiscard(activePlayer);
      ConcludeRound(result);
    }

    method ClaimMeld(winner: Seat, c: Claim)
      requires activeDiscard.Some? && (c.Chii? || c.Pon? || c.Kan?)
      modifies this
      ensures wall == old(wall) && View() == ApplyMeld(old(View()), winner, c)
    {
      hide TakeDiscard, DeadWallDraw, AutoReveal, ResumeTurn;
      ClaimDiscard(winner, c);
      if c.Kan? {
        ExecuteDeadWallDraw(winner);
        Resume();
      } else {
        phase := PlayerTurn;
        AutoRevealFlowers(winner);
      }
    }

    method ClaimWins(winner: Seat) returns (wins: bool)
      ensures wins == rules.wins(TableOf(View()), winner, activeDiscard)
    {
      var table := RuleView();
      wins := rules.wins(table, winner, activeDiscard);
    }

    method HandleInterruptAction(seat: Seat, c: Claim) returns (ok: bool)
      requires activeDiscard.Some? && wallIndex <= wangpaiBoundary <= wall.Length
      modifies this
      ensures wall == old(wall) && (View(), ok) == HandleClaim(rules, old(View()), seat, c)
    {
      hide Resolve;
      if seat == activePlayer {
        return false;
      }
      var offered := OffersActionType(players[seat].offer, c);
      if c != Pass && !offered {
        return false;
      }
      interruptQueue := interruptQueue[seat := c];
      var expectedResponses := 0;
      var q := 0;
      while q < 4
        invariant 0 <= q <= 4
        invariant expectedResponses == ExpectedBefore(players, q)
      {
        if MustAnswer(players[q].offer) {
          expectedResponses := expectedResponses + 1;
        }
        q := q + 1;
      }
      assert ExpectedBefore(players, 2) == ExpectedBefore(players, 1) + (if MustAnswer(players[1].offer) then 1 else 0);
      if |interruptQueue| >= expectedResponses {
        ResolveInterrupts();
      }
      return true;
    }

    static function ExpectedBefore(ps: Players, n: nat): nat
      requires n <= 4
    {
      if n == 0 then 0 else ExpectedBefore(ps, n - 1) + (if MustAnswer(ps[n - 1].offer) then 1 else 0)
    }

    method OffersActionType(offer: Offer, c: Claim) returns (r: bool)
      ensures r == OffersType(offer, c)
    {
      if !offer.ClaimOffer? {
        return false;
      }
      var i := 0;
      while i < |offer.claims|
        invariant 0 <= i <= |offer.claims|
        invariant forall o | o in offer.claims[..i] :: !SameType(o, c)
      {
        if Weight(offer.claims[i]) == Weight(c) {
          assert SameType(offer.claims[i], c);
          return true;
        }
        i := i + 1;
      }
      assert offer.claims[..i] == offer.claims;
      return false;
    }

    // ---- The entry point ----

    method ProcessPlayerAction(input: HandSteps.Input) returns (ok: bool)
      requires HandSteps.StepDefined(View(), input)
      modifies this
      ensures wall == old(wall) && (View(), ok) == HandSteps.Step(rules, old(View()), input)
    {
      hide HaiteiAccept, HaiteiRefuse, Hand.HandleDiscard, HandleKongOrFlower, Hand.HandleTsumo, HandleClaim, MeldsNonempty;
      match phase
      case PlayerTurn =>
        if !input.OnTurn? || input.seat != activePlayer {
          return false;
        }
        match input.action {
          case AcceptHaitei => ok := HandleHaiteiAccept(input.seat);
          case RefuseHaitei =>
            HandleHaiteiRefuse();
            ok := true;
          case Discard(t) => ok := HandleDiscard(input.seat, t);
          case SelfKan(tiles) => ok := HandleKongOrFlowerReveal(input.seat, tiles, true);
          case FlowerReveal(tiles) => ok := HandleKongOrFlowerReveal(input.seat, tiles, false);
          case Tsumo => ok := HandleTsumo(input.seat);
        }
      case WaitDiscards =>
        if !input.InWindow? {
          return false;
        }
        ok := HandleInterruptAction(input.seat, input.claim);
      case RoundEnd =>
        return false;
    }

    // ---- Starting a hand ----

    /** Deals a shuffled wall: three rounds of four tiles and one more each, then the wangpai and its indicator. */
    method DealTiles(shuffled: seq<TileId>, diceSum: nat)
      requires |shuffled| >= 52 + 2 * diceSum && diceSum >= 1
      modifies this
      ensures fresh(wall) && View() == Deal(shuffled, diceSum, old(isHaitei))
    {
      hide Deal, DealtPlayer, WildFaces, WangpaiUndrawn;
      DealtState(shuffled, diceSum, isHaitei);
      BuildWall(shuffled, |shuffled| - 2 * diceSum);
      players := DealHands(shuffled);
      wallCount := |shuffled| - wallIndex - 1;
      UpdateWangpaiTilesLeft();
      ResetTable();
    }

    /** The table before the first action of a hand; the haitei flag is left as the last hand left it. */
    method ResetTable()
      requires wildIndicatorIndex < wall.Length
      modifies this`wildTiles, this`phase, this`activePlayer, this`activeDiscard, this`interruptQueue, this`publicEvents, this`roundResult
      ensures wildTiles == WildFaces(wall[wildIndicatorIndex]) && phase == PlayerTurn && activePlayer == 0 && activeDiscard == None
      ensures interruptQueue == map[] && publicEvents == [] && roundResult == None
    {
      hide WildFaces;
      wildTiles := WildFaces(wall[wildIndicatorIndex]);
      phase, activePlayer, activeDiscard, interruptQueue, publicEvents, roundResult := PlayerTurn, 0, None, map[], [], None;
    }

    static lemma DealtState(shuffled: seq<TileId>, diceSum: nat, isHaitei: bool)
      requires |shuffled| >= 52 + 2 * diceSum && diceSum >= 1
      ensures var b: nat := |shuffled| - 2 * diceSum;
              var w := WallState(shuffled, 52, 0, b, b, -1);
              Deal(shuffled, diceSum, isHaitei)
              == State(w, |shuffled| - 53, |WangpaiUndrawn(w)|,
                       [DealtPlayer(shuffled, 0), DealtPlayer(shuffled, 1), DealtPlayer(shuffled, 2), DealtPlayer(shuffled, 3)],
                       WildFaces(shuffled[b]), PlayerTurn, 0, isHaitei, None, map[], [], None)
    {
    }

    /** Sets the wall up with its pointers as they stand after dealing 52 tiles. */
    method BuildWall(shuffled: seq<TileId>, boundary: nat)
      modifies this
      ensures fresh(wall) && Pointers() == WallState(shuffled, 52, 0, boundary, boundary, -1)
      ensures isHaitei == old(isHaitei)
    {
      wall := new TileId[|shuffled|](i requires 0 <= i < |shuffled| => shuffled[i]);
      assert wall[..] == shuffled;
      wallIndex, deadWallIndex, haiteiDrawIndex := 52, 0, -1;
      wangpaiBoundary, wildIndicatorIndex := boundary, boundary;
    }

    static method DealHands(shuffled: seq<TileId>) returns (dealt: Players)
      requires |shuffled| >= 52
      ensures dealt == [DealtPlayer(shuffled, 0), DealtPlayer(shuffled, 1), DealtPlayer(shuffled, 2), DealtPlayer(shuffled, 3)]
    {
      hide DealtHand, DealtRounds;
      var hands := DealRoundsOfFour(shuffled);
      var seats: seq<Player> := [];
      var dealIndex := 48;
      while dealIndex < 52
        invariant 48 <= dealIndex <= 52 && |seats| == dealIndex - 48
        invariant forall q: Seat | q < dealIndex - 48 :: seats[q] == DealtPlayer(shuffled, q)
      {
        var seat: Seat := dealIndex - 48;
        DealtRoundsAreAll(shuffled, seat);
        seats := seats + [EMPTY_PLAYER.(closedHand := hands[seat] + [shuffled[dealIndex]])];
        dealIndex := dealIndex + 1;
      }
      dealt := seats;
    }

    static method DealRoundsOfFour(shuffled: seq<TileId>) returns (hands: seq<seq<TileId>>)
      requires |shuffled| >= 48
      ensures |hands| == 4 && forall q: Seat :: hands[q] == DealtRounds(shuffled, q, 3)
    {
      hands := [[], [], [], []];
      var dealIndex := 0;
      var round := 0;
      while round < 3
        invariant 0 <= round <= 3 && dealIndex == 16 * round && |hands| == 4
        invariant forall q: Seat :: hands[q] == DealtRounds(shuffled, q, round)
      {
        var seat := 0;
        while seat < 4
          invariant 0 <= seat <= 4 && dealIndex == 16 * round + 4 * seat && |hands| == 4
          invariant forall q: Seat | q < seat :: hands[q] == DealtRounds(shuffled, q, round + 1)
          invariant forall q: Seat | q >= seat :: hands[q] == DealtRounds(shuffled, q, round)
        {
          hands := hands[seat := hands[seat] + shuffled[dealIndex..dealIndex + 4]];
          dealIndex := dealIndex + 4;
          seat := seat + 1;
        }
        round := round + 1;
      }
    }

    /** What the first rounds of four have given a seat. */
    static function DealtRounds(tiles: seq<TileId>, seat: Seat, rounds: nat): seq<TileId>
      requires |tiles| >= 48 && rounds <= 3
    {
      if rounds == 0 then []
      else DealtRounds(tiles, seat, rounds - 1) + tiles[16 * (rounds - 1) + 4 * seat..16 * (rounds - 1) + 4 * seat + 4]
    }

    static lemma DealtRoundsAreAll(tiles: seq<TileId>, seat: Seat)
      requires |tiles| >= 52
      ensures DealtRounds(tiles, seat, 3) + [tiles[48 + seat]] == DealtHand(tiles, seat)
    {
      assert DealtRounds(tiles, seat, 1) == tiles[4 * seat..4 * seat + 4];
      assert DealtRounds(tiles, seat, 2) == tiles[4 * seat..4 * seat + 4] + tiles[16 + 4 * seat..16 + 4 * seat + 4];
    }

    /** Separates one seat's dealt flowers, replacing each from the back of the wall. */
    method RevealInitialFlowersOf(seat: Seat)
      modifies this
      ensures wall == old(wall) && View() == InitialFlowersOf(old(View()), seat)
    {
      ghost var goal := InitialFlowersOf(View(), seat);
      while true
        invariant wall == old(wall) && InitialFlowersOf(View(), seat) == goal
        decreases Measure(View())
      {
        var flower := FindRevealableFlowerTile(seat);
        if flower == None {
          return;
        }
        ghost var s := View();
        var replaced := ReplaceInitialFlower(seat, flower.value);
        if !replaced {
          return;
        }
      }
    }

    /** Lays one dealt flower down and draws its replacement; tells whether the wall had one. */
    method ReplaceInitialFlower(seat: Seat, f: TileId) returns (replaced: bool)
      requires FlowerOf(View(), seat) == Some(f)
      modifies this
      ensures wall == old(wall)
      ensures replaced ==> InitialFlowersOf(View(), seat) == InitialFlowersOf(old(View()), seat) && Measure(View()) < Measure(old(View()))
      ensures !replaced ==> View() == InitialFlowersOf(old(View()), seat)
    {
      hide FirstRevealable, TakeTile, Undrawn, WangpaiUndrawn, FaceCode, Measure, DeadTarget;
      ghost var s := View();
      var player := players[seat];
      var hand, _ := CutFromHand(player.closedHand, f);
      players := players[seat := player.(closedHand := hand, flowerMelds := player.flowerMelds + [f])];
      if wallCount == 0 {
        return false;
      }
      var target := NextFromBack();
      if target == None {
        return false;
      }
      publicEvents := publicEvents + [PublicEvent(FlowerEvent, seat, FaceCode(f), -1, false, false)];
      TakeReplacement(seat, target.value);
      ReplacementMeasure(s, View(), seat);
      return true;
    }

    static lemma ReplacementMeasure(s: State, s': State, seat: Seat)
      requires s.wallCount > 0 && s'.wallCount == Dec32(s.wallCount)
      requires |s'.players[seat].closedHand| == |s.players[seat].closedHand|
      requires forall q: Seat | q != seat :: s'.players[q] == s.players[q]
      ensures Measure(s') < Measure(s)
    {
      assert seat == 0 || seat == 1 || seat == 2 || seat == 3;
    }

    /** A replacement tile before play begins: it is not marked as drawn. */
    method TakeReplacement(seat: Seat, idx: nat)
      requires idx < wall.Length
      modifies this
      ensures wall == old(wall)
      ensures var s := TakeTile(old(View()), seat, idx);
              View() == SetPlayer(s, seat, s.players[seat].(drawn := old(players)[seat].drawn))
      ensures wallCount == Dec32(old(wallCount)) && |players[seat].closedHand| == |old(players)[seat].closedHand| + 1
      ensures forall q: Seat | q != seat :: players[q] == old(players)[q]
    {
      var player := players[seat];
      players := players[seat := player.(closedHand := player.closedHand + [wall[idx]])];
      wallCount := Dec32(wallCount);
      UpdateWangpaiTilesLeft();
    }

    method RevealInitialFlowers(dealer: Seat)
      modifies this
      ensures wall == old(wall) && View() == InitialFlowers(old(View()), dealer)
    {
      hide InitialFlowersOf;
      RevealInitialFlowersOf(dealer);
      RevealInitialFlowersOf((dealer + 1) % 4);
      RevealInitialFlowersOf((dealer + 2) % 4);
      RevealInitialFlowersOf((dealer + 3) % 4);
    }

    /** A new hand from a shuffled wall, up to the dealer's first decision. */
    method StartRound(shuffled: seq<TileId>, dealer: Seat, diceSum: nat)
      requires |shuffled| >= 52 + 2 * diceSum && diceSum >= 1
      modifies this
      ensures fresh(wall) && View() == StartHand(shuffled, dealer, diceSum, old(isHaitei))
    {
      hide InitialFlowers, SystemDraw, Deal;
      DealtGeometry(shuffled, diceSum, isHaitei, dealer);
      DealTiles(shuffled, diceSum);
      RevealInitialFlowers(dealer);
      phase := PlayerTurn;
      activePlayer := dealer;
      ExecuteSystemDraw(dealer);
      RevealInitialFlowers(dealer);
      SetValidActions(dealer, TurnOffer);
    }

    static lemma DealtGeometry(shuffled: seq<TileId>, diceSum: nat, isHaitei: bool, dealer: Seat)
      requires |shuffled| >= 52 + 2 * diceSum && diceSum >= 1
      ensures var w := InitialFlowers(Deal(shuffled, diceSum, isHaitei), dealer).w;
              w.wallIndex <= w.boundary <= |w.tiles|
    {
      hide InitialFlowersOf;
    }
  }
}
