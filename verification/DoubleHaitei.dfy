/** A dealt hand in which messages on offer put one tile in play twice. */
module DoubleHaitei {
  import opened Tiles
  import opened Wall
  import opened Hand
  import opened HandInvariant
  import opened HandSteps
  import opened HandStart
  import opened HandOpening
  import opened HandRuns
  import opened HandLimits

  /** A rule engine that lets only the next seat call, and only ron, and only on the haitei discard. */
  ghost predicate OnlyLateRon(r: Rules) {
    forall table: Table, t: TileId, seat: Seat ::
      r.interrupts(table, t, seat) == if table.isHaitei && seat == Next(table.active) then [Ron] else []
  }

  /** No flower is dealt, drawn from the front or lies under the indicator. */
  ghost predicate LateFlowers(wall: seq<TileId>, diceSum: nat) {
    forall i: nat | i < |wall| && i <= |wall| - 2 * diceSum + 1 :: !IsFlower(wall[i])
  }

  /** The play goes by offered messages from the deal, no tile in play twice so far; then haitei is on offer once more, and
      accepting it puts the tile on the table a second time. */
  ghost predicate DoublesATile(r: Rules, wall: seq<TileId>, diceSum: nat, states: seq<State>, inputs: seq<Input>) {
    && PlayedHand(r, wall, diceSum, states, inputs)
    && var s := states[|inputs|];
       && Inv(s) && s.phase == PlayerTurn
       && Offered(r, s, OnTurn(s.active, AcceptHaitei))
       && Overfull(After(r, s, OnTurn(s.active, AcceptHaitei)))
  }

  /** A turn of a hand without claims, kans or flowers so far. */
  ghost predicate Calm(wall: seq<TileId>, diceSum: nat, s: State) {
    && FullWall(wall) && 2 <= diceSum <= 12 && LateFlowers(wall, diceSum)
    && Inv(s) && s.phase == PlayerTurn && s.players[s.active].offer == TurnOffer && !s.isHaitei
    && s.w.tiles == wall && s.w.boundary == TILES - 2 * diceSum && s.w.deadWallIndex == 0 && s.w.haiteiDraw == -1
  }

  /** The same with the live wall used up and haitei on offer, taken already or not. */
  ghost predicate AtHaitei(wall: seq<TileId>, diceSum: nat, s: State) {
    && FullWall(wall) && 2 <= diceSum <= 12 && LateFlowers(wall, diceSum)
    && Inv(s) && s.phase == PlayerTurn && s.isHaitei
    && s.w.tiles == wall && s.w.boundary == TILES - 2 * diceSum && s.w.deadWallIndex == 0
    && s.players[s.active].offer == if s.w.haiteiDraw == -1 then HaiteiOffer else TurnOffer
  }

  lemma LateRonIsOk(r: Rules)
    requires OnlyLateRon(r)
    ensures RulesOk(r)
  {
  }

  /** The seat to act holds a tile it can discard. */
  lemma HasATile(s: State)
    requires Inv(s) && s.phase == PlayerTurn && s.players[s.active].offer == TurnOffer
    ensures s.players[s.active].closedHand != []
  {
    hide CoreInv, NoFlowersBut;
  }

  function FirstTile(s: State): Input
    requires s.players[s.active].closedHand != []
  {
    OnTurn(s.active, Discard(s.players[s.active].closedHand[0]))
  }

  /** Without supplementary draws nothing but the front and the haitei tile is consumed. */
  lemma NothingConsumed(n: nat)
    ensures forall i :: !Consumed(n, 0, i)
  {
  }

  lemma NoFlowerHeld(s: State, seat: Seat, t: TileId)
    requires NoFlowersBut(s, {}) && !IsFlower(t)
    ensures forall s': State | s'.wild == s.wild && s'.players[seat].closedHand == s.players[seat].closedHand + [t] :: FlowerOf(s', seat).None?
  {
    forall s': State | s'.wild == s.wild && s'.players[seat].closedHand == s.players[seat].closedHand + [t] ensures FlowerOf(s', seat).None? {
      forall x | x in s'.players[seat].closedHand ensures !Revealable(s', x) {
        assert x in s.players[seat].closedHand ==> !Revealable(s, x);
      }
    }
  }

  /** The draw that opens a turn takes the next front tile, or offers haitei when there is none. */
  lemma PlainDraw(s: State, seat: Seat)
    requires s.w.wallIndex <= s.w.boundary && s.w.boundary + 2 <= |s.w.tiles| && s.w.deadWallIndex == 0 && s.w.indicator == s.w.boundary
    requires NoFlowersBut(s, {}) && !IsFlower(s.w.tiles[s.w.wallIndex])
    ensures var s' := SystemDraw(s, seat);
            && s'.phase == s.phase && s'.active == s.active && s'.w.haiteiDraw == s.w.haiteiDraw && s'.w.deadWallIndex == 0
            && s'.w.tiles == s.w.tiles && s'.w.boundary == s.w.boundary
            && (if s.w.wallIndex < s.w.boundary
                then s'.players[seat].offer == TurnOffer && s'.w.wallIndex == s.w.wallIndex + 1 && s'.isHaitei == s.isHaitei
                else s'.players[seat].offer == HaiteiOffer && s'.w == s.w && s'.isHaitei)
  {
    hide NoFlowersBut, WangpaiUndrawn, Consumed, FirstRevealable, IsFlower;
    NothingConsumed(|s.w.tiles|);
    NoFlowerHeld(s, seat, s.w.tiles[s.w.wallIndex]);
    assert SkipConsumed(|s.w.tiles|, 0, s.w.boundary, s.w.wallIndex) == s.w.wallIndex;
    assert s.w.(wallIndex := s.w.wallIndex) == s.w;
  }

  /** With the flag down nobody is offered anything, so a discard passes the turn. */
  lemma QuietDiscard(r: Rules, s: State, t: TileId)
    requires OnlyLateRon(r) && s.w.wallIndex <= s.w.boundary <= |s.w.tiles| && t in s.players[s.active].closedHand && !s.isHaitei
    ensures HandleDiscard(r, s, s.active, t).0 == NextTurn(OfferClaims(r, DiscardTile(s, s.active, t), t, s.active))
  {
    hide NextTurn;
  }

  lemma CalmDiscard(r: Rules, wall: seq<TileId>, diceSum: nat, s: State)
    requires OnlyLateRon(r) && Calm(wall, diceSum, s) && s.players[s.active].closedHand != []
    ensures Offered(r, s, FirstTile(s)) && HaiteiGuard(s, FirstTile(s))
    ensures var s' := After(r, s, FirstTile(s));
            if s.w.wallIndex < s.w.boundary then Calm(wall, diceSum, s') && s'.w.wallIndex == s.w.wallIndex + 1
            else AtHaitei(wall, diceSum, s') && s'.w.haiteiDraw == -1
  {
    hide OnlyLateRon, RulesOk, CoreInv, TurnInv, NoFlowersBut, SystemDraw, OfferClaims, DiscardTile, Distinct;
    var seat, t := s.active, s.players[s.active].closedHand[0];
    LateRonIsOk(r);
    StepKeeps(r, s, FirstTile(s));
    OfferedIsDefined(r, s, FirstTile(s));
    DiscardTileKeeps(s, seat, t);
    var s1 := DiscardTile(s, seat, t);
    OfferClaimsKeeps(r, s1, t, seat);
    var s2 := OfferClaims(r, s1, t, seat);
    ClaimsTouchNoWall(r, s, seat, t);
    QuietDiscard(r, s, t);
    CoreIsLaid(s);
    var s3 := s2.(active := Next(s2.active), phase := PlayerTurn, activeDiscard := None);
    SameFlowerless(s2, s3);
    PlainDraw(s3, Next(s2.active));
  }

  lemma SameFlowerless(s: State, s': State)
    requires NoFlowersBut(s, {}) && s'.wild == s.wild && s'.players == s.players
    ensures NoFlowersBut(s', {})
  {
    SameHands(s, s');
  }

  lemma ClaimsTouchNoWall(r: Rules, s: State, seat: Seat, t: TileId)
    ensures var s' := OfferClaims(r, DiscardTile(s, seat, t), t, seat);
            s'.w == s.w && s'.active == s.active && s'.isHaitei == s.isHaitei && s'.phase == s.phase
  {
    hide RemoveFirst, ClaimOfferFor, FaceCode;
  }

  lemma CalmStart(wall: seq<TileId>, dealer: Seat, diceSum: nat)
    requires FullWall(wall) && 2 <= diceSum <= 12 && LateFlowers(wall, diceSum)
    ensures Calm(wall, diceSum, StartHand(wall, dealer, diceSum, false))
  {
    hide Distinct, CoreInv, TurnInv, InitialFlowersOf, SystemDraw, WildFaces, Roomy;
    StartHandKeeps(wall, dealer, diceSum, false);
    HandsOpenWithATurn(wall, dealer, diceSum, false);
    StartWall(wall, dealer, diceSum, false);
    var s0 := Deal(wall, diceSum, false);
    DealHasNoFlower(wall, diceSum);
    NoInitialFlowersLeft(s0, dealer);
    var s1 := s0.(phase := PlayerTurn, active := dealer);
    NoFlowersAnywhere(s1);
    PlainDraw(s1, dealer);
    FirstDrawClears(s1, dealer);
    NoInitialFlowersLeft(SystemDraw(s1, dealer), dealer);
  }

  lemma DealHasNoFlower(wall: seq<TileId>, diceSum: nat)
    requires |wall| == TILES && 2 <= diceSum <= 12 && LateFlowers(wall, diceSum)
    ensures forall q: Seat :: FlowerOf(Deal(wall, diceSum, false), q).None?
    ensures forall q: Seat, t | t in Deal(wall, diceSum, false).players[q].closedHand :: !IsFlower(t)
  {
    hide IsFlower, WildFaces, DealtHand, Revealable, WangpaiUndrawn;
    var s := Deal(wall, diceSum, false);
    forall q: Seat ensures s.players[q].closedHand == DealtHand(wall, q) {
    }
    forall q: Seat, t | t in s.players[q].closedHand ensures !IsFlower(t) {
      DealtFromTheFront(wall, q, t);
    }
    forall q: Seat ensures FlowerOf(s, q).None? {
      forall t | t in s.players[q].closedHand ensures !Revealable(s, t) {
        NotRevealable(s, t);
      }
    }
  }

  lemma NotRevealable(s: State, t: TileId)
    requires !IsFlower(t)
    ensures !Revealable(s, t)
  {
  }

  lemma DealtFromTheFront(wall: seq<TileId>, q: Seat, t: TileId)
    requires |wall| >= 52 && t in DealtHand(wall, q)
    ensures exists i: nat :: i < 52 && wall[i] == t
  {
    var j :| 0 <= j < 13 && DealtHand(wall, q)[j] == t;
    var i := if j < 12 then 16 * (j / 4) + 4 * q + j % 4 else 48 + q;
    assert wall[i] == t;
  }

  lemma NoFlowersAnywhere(s: State)
    requires forall q: Seat, t | t in s.players[q].closedHand :: !IsFlower(t)
    ensures NoFlowersBut(s, {})
  {
    hide IsFlower;
  }

  /** The seat to act holds the tile it drew. */
  predicate HeldDrawn(s: State) {
    var p := s.players[s.active];
    p.drawn.Some? && p.drawn.value in p.closedHand
  }

  function DrawnTile(s: State): Input
    requires HeldDrawn(s)
  {
    OnTurn(s.active, Discard(s.players[s.active].drawn.value))
  }

  lemma AcceptsHaitei(r: Rules, wall: seq<TileId>, diceSum: nat, s: State)
    requires RulesOk(r) && AtHaitei(wall, diceSum, s) && s.w.haiteiDraw == -1
    ensures var accept := OnTurn(s.active, AcceptHaitei);
            && Offered(r, s, accept) && HaiteiGuard(s, accept)
            && AtHaitei(wall, diceSum, After(r, s, accept)) && After(r, s, accept).w.haiteiDraw != -1
            && After(r, s, accept).active == s.active && HeldDrawn(After(r, s, accept))
  {
    hide RulesOk, CoreInv, Sized, NoFlowersBut, Distinct, WangpaiUndrawn, FirstRevealable, FaceCode, IsFlower;
    var accept := OnTurn(s.active, AcceptHaitei);
    StepKeeps(r, s, accept);
    OfferedIsDefined(r, s, accept);
    CoreIsLaid(s);
    NoFlowerHeld(s, s.active, s.w.tiles[s.w.indicator + 1]);
  }

  /** The haitei discard may be called for ron by the next seat and by nobody else. */
  lemma HaiteiDiscard(r: Rules, wall: seq<TileId>, diceSum: nat, s: State)
    requires OnlyLateRon(r) && AtHaitei(wall, diceSum, s) && s.w.haiteiDraw != -1 && HeldDrawn(s)
    ensures Offered(r, s, DrawnTile(s)) && HaiteiGuard(s, DrawnTile(s))
    ensures var s' := After(r, s, DrawnTile(s));
            && Inv(s') && s'.phase == WaitDiscards && s'.w == s.w
            && Offered(r, s', InWindow(Next(s'.active), Pass)) && Expected(s') == 1 && s'.queue == map[]
  {
    hide RulesOk, CoreInv, TurnInv, Distinct, SystemDraw;
    LateRonIsOk(r);
    StepKeeps(r, s, DrawnTile(s));
    OfferedIsDefined(r, s, DrawnTile(s));
    OneMayRon(r, s, s.players[s.active].drawn.value);
  }

  lemma OneMayRon(r: Rules, s: State, t: TileId)
    requires OnlyLateRon(r) && s.isHaitei && s.w.wallIndex <= s.w.boundary <= |s.w.tiles| && t in s.players[s.active].closedHand
    ensures var s' := HandleDiscard(r, s, s.active, t).0;
            && s'.phase == WaitDiscards && s'.w == s.w && s'.active == s.active && s'.queue == map[]
            && s'.players[Next(s'.active)].offer == ClaimOffer([Ron]) && Expected(s') == 1
  {
    hide SystemDraw, RemoveFirst, FaceCode;
    var s1 := DiscardTile(s, s.active, t);
    forall q: Seat | q != s.active ensures ClaimOfferFor(r, s1, t, s.active, q) == ClaimOffer(if q == Next(s.active) then [Ron] else []) {
      assert r.interrupts(TableOf(s1), t, q) == if q == Next(s.active) then [Ron] else [];
      assert RonOnly([Ron]) == [Ron] && RonOnly([]) == [];
    }
  }

  // ---- The play ----

  lemma PlayCons(r: Rules, s: State, input: Input, states: seq<State>, inputs: seq<Input>)
    requires Play(r, states, inputs) && Offered(r, s, input) && HaiteiGuard(s, input) && states[0] == After(r, s, input)
    ensures Play(r, [s] + states, [input] + inputs) && |states| == |inputs| + 1
  {
    hide Offered, HaiteiGuard, After;
    var all, ins := [s] + states, [input] + inputs;
    forall i | 0 <= i < |ins| ensures Offered(r, all[i], ins[i]) && HaiteiGuard(all[i], ins[i]) && all[i + 1] == After(r, all[i], ins[i]) {
      if i > 0 {
        assert ins[i] == inputs[i - 1] && all[i] == states[i - 1] && all[i + 1] == states[i - 1 + 1];
      }
    }
  }

  lemma PlaySnoc(r: Rules, states: seq<State>, inputs: seq<Input>, input: Input)
    requires Play(r, states, inputs) && Offered(r, states[|inputs|], input) && HaiteiGuard(states[|inputs|], input)
    ensures Play(r, states + [After(r, states[|inputs|], input)], inputs + [input])
  {
    hide Offered, HaiteiGuard, After;
    var all, ins := states + [After(r, states[|inputs|], input)], inputs + [input];
    forall i | 0 <= i < |ins| ensures Offered(r, all[i], ins[i]) && HaiteiGuard(all[i], ins[i]) && all[i + 1] == After(r, all[i], ins[i]) {
      if i < |inputs| {
        assert ins[i] == inputs[i];
      }
    }
  }

  lemma PlayNothing(r: Rules, s: State)
    ensures Play(r, [s], [])
  {
  }

  /** Discard upon discard the live wall runs out. */
  lemma {:induction false} PlaysToHaitei(r: Rules, wall: seq<TileId>, diceSum: nat, s: State) returns (states: seq<State>, inputs: seq<Input>)
    requires OnlyLateRon(r) && Calm(wall, diceSum, s)
    ensures Play(r, states, inputs) && |states| == |inputs| + 1 && states[0] == s
    ensures AtHaitei(wall, diceSum, states[|inputs|]) && states[|inputs|].w.haiteiDraw == -1
    decreases TILES - s.w.wallIndex
  {
    hide OnlyLateRon, Calm, AtHaitei, After, Offered, HaiteiGuard, FirstTile, Play;
    CalmIsLaid(wall, diceSum, s);
    CalmDiscard(r, wall, diceSum, s);
    var s' := After(r, s, FirstTile(s));
    if s.w.wallIndex < s.w.boundary {
      states, inputs := PlaysToHaitei(r, wall, diceSum, s');
    } else {
      states, inputs := [s'], [];
      PlayNothing(r, s');
    }
    PlayCons(r, s, FirstTile(s), states, inputs);
    states, inputs := [s] + states, [FirstTile(s)] + inputs;
  }

  lemma CalmIsLaid(wall: seq<TileId>, diceSum: nat, s: State)
    requires Calm(wall, diceSum, s)
    ensures s.w.boundary <= TILES && s.players[s.active].closedHand != []
  {
    hide Inv, FullWall, LateFlowers;
    HasATile(s);
  }

  /** Haitei is taken, discarded, passed over by the one seat that may ron it, and offered again to that seat. */
  lemma HaiteiComesBack(r: Rules, wall: seq<TileId>, diceSum: nat, states: seq<State>, inputs: seq<Input>)
      returns (states': seq<State>, inputs': seq<Input>)
    requires OnlyLateRon(r) && Play(r, states, inputs)
    requires AtHaitei(wall, diceSum, states[|inputs|]) && states[|inputs|].w.haiteiDraw == -1
    ensures Play(r, states', inputs') && states'[0] == states[0]
    ensures var s := states'[|inputs'|];
            && Inv(s) && s.phase == PlayerTurn && Offered(r, s, OnTurn(s.active, AcceptHaitei))
            && Overfull(After(r, s, OnTurn(s.active, AcceptHaitei)))
  {
    LateRonIsOk(r);
    var s := states[|inputs|];
    var accept := OnTurn(s.active, AcceptHaitei);
    AcceptsHaitei(r, wall, diceSum, s);
    var s1 := After(r, s, accept);
    var discard := DrawnTile(s1);
    HaiteiDiscard(r, wall, diceSum, s1);
    var s2 := After(r, s1, discard);
    var pass := InWindow(Next(s2.active), Pass);
    HaiteiIsThere(wall, diceSum, s1);
    DeclinedRonOffersHaiteiAgain(r, s2, Next(s2.active));
    assert HaiteiGuard(s2, pass);
    hide After, Offered, HaiteiGuard, AtHaitei, Inv, Overfull, OnlyLateRon, RulesOk;
    PlaySnoc(r, states, inputs, accept);
    PlaySnoc(r, states + [s1], inputs + [accept], discard);
    PlaySnoc(r, states + [s1] + [s2], inputs + [accept] + [discard], pass);
    states' := states + [s1] + [s2] + [After(r, s2, pass)];
    inputs' := inputs + [accept] + [discard] + [pass];
  }

  lemma HaiteiIsThere(wall: seq<TileId>, diceSum: nat, s: State)
    requires AtHaitei(wall, diceSum, s)
    ensures FindHaitei(s.w).Some?
  {
    hide CoreInv, TurnInv, Distinct, LateFlowers;
    CoreIsLaid(s);
    NothingConsumed(|s.w.tiles|);
  }

  /** From the deal of a full wall whose flowers lie at the back, whatever the dice, offered messages lead to a state in which
      the tile accepted as haitei is on offer again. */
  lemma OfferedMessagesCanDuplicateATile(r: Rules, wall: seq<TileId>, diceSum: nat)
    requires OnlyLateRon(r) && FullWall(wall) && 2 <= diceSum <= 12 && LateFlowers(wall, diceSum)
    ensures exists states, inputs :: DoublesATile(r, wall, diceSum, states, inputs)
  {
    LateRonIsOk(r);
    var s := StartHand(wall, 0, diceSum, false);
    CalmStart(wall, 0, diceSum);
    assert DealtFrom(wall, diceSum, s);
    hide OnlyLateRon, RulesOk, FullWall, LateFlowers, DealtFrom, Calm, AtHaitei, Play, Inv, Offered, Overfull, After;
    var states, inputs := PlaysToHaitei(r, wall, diceSum, s);
    states, inputs := HaiteiComesBack(r, wall, diceSum, states, inputs);
    assert forall x | x in states[..1] :: x == s;
    assert DoublesATile(r, wall, diceSum, states, inputs);
  }

  /** There are such rule engines and such walls: the tiles in order of their ids, cut by a double six. */
  lemma SuchHandsExist()
    ensures exists r, wall :: OnlyLateRon(r) && FullWall(wall) && LateFlowers(wall, 12)
  {
    var r := Rules((table: Table, t, seat) => if table.isHaitei && seat == Next(table.active) then [Ron] else [], (_, _, _) => false);
    OrderedWallIsFull();
    assert OnlyLateRon(r) && FullWall(OrderedWall()) && LateFlowers(OrderedWall(), 12);
  }
}
