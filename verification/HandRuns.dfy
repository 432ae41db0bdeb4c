/** The main results about whole hands, and the exact conditions under which the engine's unguarded paths are sound. */
module HandRuns {
  import opened Tiles
  import opened Wall
  import opened Hand
  import opened HandInvariant
  import opened HandSteps
  import opened HandStart

  // ---- Runs ----

  /** states are what the engine goes through on the inputs; each was on offer, and haitei is taken at most once. */
  ghost predicate Play(r: Rules, states: seq<State>, inputs: seq<Input>) {
    && |states| == |inputs| + 1
    && forall i {:trigger inputs[i]} | 0 <= i < |inputs| ::
         && Offered(r, states[i], inputs[i]) && HaiteiGuard(states[i], inputs[i])
         && states[i + 1] == After(r, states[i], inputs[i])
  }

  /** A hand dealt from the wall to some dealer, whatever haitei flag the hand before left behind. */
  ghost predicate DealtFrom(wall: seq<TileId>, diceSum: nat, s: State)
    requires |wall| >= 52 + 2 * diceSum && diceSum >= 1
  {
    exists dealer, isHaitei :: s == StartHand(wall, dealer, diceSum, isHaitei)
  }

  /** A play that begins with the deal of a shuffled wall. */
  ghost predicate PlayedHand(r: Rules, wall: seq<TileId>, diceSum: nat, states: seq<State>, inputs: seq<Input>) {
    && RulesOk(r) && FullWall(wall) && 2 <= diceSum <= 12
    && |states| == |inputs| + 1 && Play(r, states, inputs)
    && forall s | s in states[..1] :: DealtFrom(wall, diceSum, s)
  }

  lemma FirstIsDealt(r: Rules, wall: seq<TileId>, diceSum: nat, states: seq<State>, inputs: seq<Input>)
    requires PlayedHand(r, wall, diceSum, states, inputs)
    ensures DealtFrom(wall, diceSum, states[0])
  {
    hide DealtFrom, Play;
    assert states[0] in states[..1];
  }

  lemma {:induction false} PlayKeeps(r: Rules, states: seq<State>, inputs: seq<Input>, i: nat)
    requires RulesOk(r) && Play(r, states, inputs) && Inv(states[0]) && i <= |inputs|
    ensures Inv(states[i]) && i + Rank(states[i]) <= Rank(states[0])
  {
    if i > 0 {
      PlayKeeps(r, states, inputs, i - 1);
      StepKeeps(r, states[i - 1], inputs[i - 1]);
      assert states[i - 1 + 1] == After(r, states[i - 1], inputs[i - 1]);
    }
  }

  lemma PlayedHandKeeps(r: Rules, wall: seq<TileId>, diceSum: nat, states: seq<State>, inputs: seq<Input>, i: nat)
    requires PlayedHand(r, wall, diceSum, states, inputs) && i <= |inputs|
    ensures Inv(states[0]) && Inv(states[i])
  {
    hide Inv, StartHand;
    FirstIsDealt(r, wall, diceSum, states, inputs);
    var dealer, isHaitei :| states[0] == StartHand(wall, dealer, diceSum, isHaitei);
    StartHandKeeps(wall, dealer, diceSum, isHaitei);
    PlayKeeps(r, states, inputs, i);
  }

  // ---- Pointers only move on ----

  ghost predicate Later(w: WallState, w': WallState) {
    && w'.tiles == w.tiles && w'.boundary == w.boundary && w'.indicator == w.indicator
    && w'.wallIndex >= w.wallIndex && w'.deadWallIndex >= w.deadWallIndex
    && (w'.haiteiDraw == w.haiteiDraw || w.haiteiDraw == -1)
  }

  lemma LaterShrinks(w: WallState, w': WallState)
    requires Later(w, w') && WallLaid(w)
    ensures Undrawn(w') <= Undrawn(w)
  {
  }

  lemma KanIsLater(s: State, seat: Seat, tiles: seq<TileId>, isKan: bool)
    requires tiles != [] && MeldsNonempty(s)
    ensures Later(s.w, HandleKongOrFlower(s, seat, tiles, isKan).0.w)
  {
    hide DeadWallDraw, MeldsNonempty, RemoveEach, FaceCode;
  }

  lemma MeldIsLater(s: State, winner: Seat, c: Claim)
    requires s.activeDiscard.Some? && (c.Chii? || c.Pon? || c.Kan?)
    ensures Later(s.w, ApplyMeld(s, winner, c).w)
  {
    hide AutoReveal, DeadWallDraw, RemovePresent, FaceCode, DropLast;
  }

  lemma ResolveIsLater(r: Rules, s: State)
    requires s.activeDiscard.Some? && s.w.wallIndex <= s.w.boundary <= |s.w.tiles|
    ensures Later(s.w, Resolve(r, s).w)
  {
    hide SystemDraw, TableOf, BestBid, ApplyMeld, DropLast;
    var best := BestBid(s.queue, 4);
    if best.Some? && !s.queue[best.value].Ron? {
      MeldIsLater(s, best.value, s.queue[best.value]);
    }
  }

  lemma DiscardIsLater(r: Rules, s: State, seat: Seat, t: TileId)
    requires s.w.wallIndex <= s.w.boundary <= |s.w.tiles|
    ensures Later(s.w, HandleDiscard(r, s, seat, t).0.w)
  {
    hide SystemDraw, ClaimOfferFor, Expected;
  }

  lemma StepIsLater(r: Rules, s: State, input: Input)
    requires StepDefined(s, input) && HaiteiGuard(s, input)
    ensures Later(s.w, Step(r, s, input).0.w)
  {
    hide AutoReveal, Resolve, HandleDiscard, HandleKongOrFlower, TableOf, MeldsNonempty, Expected;
    match input
    case OnTurn(seat, action) =>
      match action {
        case Discard(t) => DiscardIsLater(r, s, seat, t);
        case SelfKan(tiles) => KanIsLater(s, seat, tiles, true);
        case FlowerReveal(tiles) => KanIsLater(s, seat, tiles, false);
        case _ =>
      }
    case InWindow(seat, c) =>
      if s.activeDiscard.Some? {
        ResolveIsLater(r, s.(queue := s.queue[seat := c]));
      }
  }

  lemma {:induction false} PlayIsLater(r: Rules, states: seq<State>, inputs: seq<Input>, i: nat, j: nat)
    requires RulesOk(r) && Play(r, states, inputs) && Inv(states[0]) && i <= j <= |inputs|
    ensures Later(states[i].w, states[j].w)
    decreases j
  {
    hide Inv, Offered, Step, StepDefined, Later, HaiteiGuard, RulesOk, Rank;
    if i < j {
      PlayIsLater(r, states, inputs, i, j - 1);
      PlayKeeps(r, states, inputs, j - 1);
      StepKeeps(r, states[j - 1], inputs[j - 1]);
      StepIsLater(r, states[j - 1], inputs[j - 1]);
      assert states[j - 1 + 1] == After(r, states[j - 1], inputs[j - 1]);
      LaterTransitive(states[i].w, states[j - 1].w, states[j].w);
    } else {
      LaterReflexive(states[i].w);
    }
  }

  lemma LaterTransitive(a: WallState, b: WallState, c: WallState)
    requires Later(a, b) && Later(b, c)
    ensures Later(a, c)
  {
  }

  lemma LaterReflexive(a: WallState)
    ensures Later(a, a)
  {
  }

  lemma StartWall(wall: seq<TileId>, dealer: Seat, diceSum: nat, isHaitei: bool)
    requires FullWall(wall) && 2 <= diceSum <= 12
    ensures var s := StartHand(wall, dealer, diceSum, isHaitei);
            s.w.tiles == wall && s.w.boundary == TILES - 2 * diceSum && s.phase != WaitDiscards && s.isHaitei == isHaitei
  {
    hide InitialFlowersOf, SystemDraw, CoreInv, FlowersLaid, OnlyFlowersLaid, Sized, NoFlowersBut, DealtPlayer, WildFaces;
    var s0 := Deal(wall, diceSum, isHaitei);
    DealIsEarly(wall, diceSum, isHaitei);
    DealKeeps(wall, diceSum, isHaitei);
    InitialFlowersKeeps(s0, dealer);
    var s1 := InitialFlowers(s0, dealer);
    EarlyFront(s1);
    FirstDrawKeepsFlag(s1.(phase := PlayerTurn, active := dealer), dealer);
  }

  lemma EarlyFront(s: State)
    requires Early(s)
    ensures s.w.boundary <= |s.w.tiles| && !Consumed(|s.w.tiles|, s.w.deadWallIndex, 52)
  {
    AtMostEightFlowers(s);
  }

  lemma FirstDrawKeepsFlag(s: State, seat: Seat)
    requires s.w.wallIndex == 52 < s.w.boundary <= |s.w.tiles| && !Consumed(|s.w.tiles|, s.w.deadWallIndex, 52)
    ensures SystemDraw(s, seat).isHaitei == s.isHaitei
  {
    hide AutoReveal;
    assert SkipConsumed(|s.w.tiles|, s.w.deadWallIndex, s.w.boundary, 52) == 52;
  }

  lemma PlayedHandWall(r: Rules, wall: seq<TileId>, diceSum: nat, states: seq<State>, inputs: seq<Input>, i: nat)
    requires PlayedHand(r, wall, diceSum, states, inputs) && i <= |inputs|
    ensures states[i].w.tiles == wall && states[0].phase != WaitDiscards
  {
    hide Inv, StartHand;
    FirstIsDealt(r, wall, diceSum, states, inputs);
    var dealer, isHaitei :| states[0] == StartHand(wall, dealer, diceSum, isHaitei);
    StartWall(wall, dealer, diceSum, isHaitei);
    StartHandKeeps(wall, dealer, diceSum, isHaitei);
    PlayIsLater(r, states, inputs, 0, i);
  }

  // ---- Main results ----

  /** From any shuffle, after any messages: hands, melds, piles, flowers, the ron tile, the undrawn wall and the
      indicator are the initial wall, tile for tile. */
  lemma TilesAreConserved(r: Rules, wall: seq<TileId>, diceSum: nat, states: seq<State>, inputs: seq<Input>, i: nat)
    requires PlayedHand(r, wall, diceSum, states, inputs) && i <= |inputs|
    ensures WallLaid(states[i].w)
    ensures Placed(states[i].players) + WonTile(states[i].result) + Hidden(states[i].w) == multiset(wall)
  {
    hide Play, Placed, Hidden, WonTile, WallLaid, Undrawn, WangpaiUndrawn, StartHand;
    PlayedHandKeeps(r, wall, diceSum, states, inputs, i);
    PlayedHandWall(r, wall, diceSum, states, inputs, i);
  }

  /** The wall positions given up between two states. */
  ghost function Dispensed(w: WallState, w': WallState): set<int> {
    Undrawn(w) - Undrawn(w')
  }

  /** Front draws, dead-wall draws and haitei never give the same position out twice, and every position given out
      shows up as its tile on the table. */
  lemma NoPositionTwice(r: Rules, wall: seq<TileId>, diceSum: nat, states: seq<State>, inputs: seq<Input>, i: nat, j: nat)
    requires PlayedHand(r, wall, diceSum, states, inputs) && i < j < |inputs|
    ensures Dispensed(states[i].w, states[i + 1].w) !! Dispensed(states[j].w, states[j + 1].w)
    ensures Placed(states[i + 1].players) + WonTile(states[i + 1].result)
         == Placed(states[i].players) + WonTile(states[i].result) + TilesAt(wall, Dispensed(states[i].w, states[i + 1].w), 0)
  {
    hide Placed, WonTile, StartHand, Offered, Step, StepDefined, HaiteiGuard, RulesOk, Inv, Undrawn, Later, WallLaid;
    PlayedHandKeeps(r, wall, diceSum, states, inputs, i);
    PlayIsLater(r, states, inputs, i + 1, j);
    PlayIsLater(r, states, inputs, i, i + 1);
    TilesAreConserved(r, wall, diceSum, states, inputs, i);
    TilesAreConserved(r, wall, diceSum, states, inputs, i + 1);
    PlayedHandWall(r, wall, diceSum, states, inputs, i);
    PlayedHandWall(r, wall, diceSum, states, inputs, i + 1);
    LaterShrinks(states[i + 1].w, states[j].w);
    LaterShrinks(states[i].w, states[i + 1].w);
    LaterIndicator(states[i].w, states[i + 1].w);
    TilesAtSplit(wall, Undrawn(states[i].w), Undrawn(states[i + 1].w), 0);
    Cancel(Placed(states[i].players) + WonTile(states[i].result), Placed(states[i + 1].players) + WonTile(states[i + 1].result),
           TilesAt(wall, Undrawn(states[i + 1].w), 0), TilesAt(wall, Dispensed(states[i].w, states[i + 1].w), 0),
           multiset{wall[states[i].w.indicator]}, multiset(wall));
  }

  lemma LaterIndicator(w: WallState, w': WallState)
    requires Later(w, w') && WallLaid(w)
    ensures w'.indicator == w.indicator < |w.tiles|
  {
  }

  lemma Cancel(table: multiset<TileId>, table': multiset<TileId>, left: multiset<TileId>, given: multiset<TileId>,
               indicator: multiset<TileId>, all: multiset<TileId>)
    requires table + ((left + given) + indicator) == all && table' + (left + indicator) == all
    ensures table' == table + given
  {
    assert table' == all - (left + indicator) == (table + given + (left + indicator)) - (left + indicator);
  }

  /** In every reachable state the public counters are the numbers of hidden positions, in all and in the wangpai. */
  lemma CountersAreExact(r: Rules, wall: seq<TileId>, diceSum: nat, states: seq<State>, inputs: seq<Input>, i: nat)
    requires PlayedHand(r, wall, diceSum, states, inputs) && i <= |inputs|
    ensures states[i].wallCount == |Undrawn(states[i].w)|
    ensures states[i].wangpaiLeft == |set p | p in Undrawn(states[i].w) && p >= states[i].w.boundary|
  {
    hide Play, StartHand, Undrawn, WangpaiUndrawn;
    PlayedHandKeeps(r, wall, diceSum, states, inputs, i);
    WangpaiIsPartOfUndrawn(states[i].w);
  }

  /** The hand-size law: fourteen for the seat that must act, thirteen while it decides on haitei and for everyone else. */
  lemma HandSizeLaw(r: Rules, wall: seq<TileId>, diceSum: nat, states: seq<State>, inputs: seq<Input>, i: nat, seat: Seat)
    requires PlayedHand(r, wall, diceSum, states, inputs) && i <= |inputs| && states[i].phase != RoundEnd
    ensures var s := states[i];
            |s.players[seat].closedHand| + 3 * |s.players[seat].openMelds|
            == if s.phase == PlayerTurn && seat == s.active && s.players[seat].offer != HaiteiOffer then 14 else 13
    ensures forall t | t in states[i].players[seat].closedHand :: IsFlower(t) ==> FaceOf(t) in states[i].wild
  {
    hide Play, StartHand, CoreInv, Distinct;
    PlayedHandKeeps(r, wall, diceSum, states, inputs, i);
    assert Size(states[i].players[seat]) == |states[i].players[seat].closedHand| + 3 * |states[i].players[seat].openMelds|;
    forall t | t in states[i].players[seat].closedHand ensures IsFlower(t) ==> FaceOf(t) in states[i].wild {
      assert !Revealable(states[i], t);
    }
  }

  /** Every hand ends: at most 937 messages are accepted, and at most 234 public events are logged. */
  lemma HandsAreFinite(r: Rules, wall: seq<TileId>, diceSum: nat, states: seq<State>, inputs: seq<Input>)
    requires PlayedHand(r, wall, diceSum, states, inputs)
    ensures |inputs| <= 937
    ensures forall i | 0 <= i < |states| :: |states[i].events| <= 234
  {
    hide StartHand, Counted, Conserved, Distinct, TurnInv, WindowOpen, Offered, Step, StepDefined;
    PlayedHandKeeps(r, wall, diceSum, states, inputs, 0);
    PlayedHandWall(r, wall, diceSum, states, inputs, 0);
    PlayKeeps(r, states, inputs, |inputs|);
    RankIsNatural(states[|inputs|]);
    forall i | 0 <= i < |states| ensures |states[i].events| <= 234 {
      PlayedHandKeeps(r, wall, diceSum, states, inputs, i);
      PlayedHandWall(r, wall, diceSum, states, inputs, i);
    }
  }

  lemma RankIsNatural(s: State)
    requires Inv(s)
    ensures Rank(s) >= 0
  {
    hide CoreInv, Distinct, QueueFits, Sized, NoFlowersBut;
    if s.phase == WaitDiscards {
      AtMostThreeAnswer(s);
    }
  }

  /** While a hand is not over, some message is on offer, so it cannot get stuck before its end. */
  lemma HandsDoNotStick(r: Rules, s: State)
    requires Inv(s) && s.phase != RoundEnd
    ensures exists input :: Offered(r, s, input) && HaiteiGuard(s, input)
  {
    hide CoreInv, Distinct, NoFlowersBut;
    if s.phase == PlayerTurn {
      var p := s.players[s.active];
      if p.offer == HaiteiOffer {
        assert Offered(r, s, OnTurn(s.active, RefuseHaitei)) && HaiteiGuard(s, OnTurn(s.active, RefuseHaitei));
      } else if p.closedHand != [] {
        assert Offered(r, s, OnTurn(s.active, Discard(p.closedHand[0]))) && HaiteiGuard(s, OnTurn(s.active, Discard(p.closedHand[0])));
      } else {
        assert false;
      }
    } else {
      UnansweredSeat(s);
      var q: Seat :| q !in s.queue && MustAnswer(s.players[q].offer);
      assert Offered(r, s, InWindow(q, Pass)) && HaiteiGuard(s, InWindow(q, Pass));
    }
  }

  /** Fewer answers than seats to answer leave one of them to wait for. */
  lemma UnansweredSeat(s: State)
    requires WindowOpen(s) && |s.queue| < Expected(s)
    ensures exists q: Seat :: q !in s.queue && MustAnswer(s.players[q].offer)
  {
    var due := Due(s);
    ExpectedIsCardinality(s);
    if due <= s.queue.Keys {
      SubsetCardinality(due, s.queue.Keys);
      assert false;
    }
  }

  ghost function Due(s: State): set<Seat> {
    DueBelow(s, 4)
  }

  ghost function DueBelow(s: State, n: nat): set<Seat> {
    set q: Seat | q < n && MustAnswer(s.players[q].offer)
  }

  lemma DueStep(s: State, q: Seat)
    ensures |DueBelow(s, q + 1)| == |DueBelow(s, q)| + (if MustAnswer(s.players[q].offer) then 1 else 0)
  {
    assert DueBelow(s, q + 1) == DueBelow(s, q) + (if MustAnswer(s.players[q].offer) then {q} else {});
  }

  lemma ExpectedIsCardinality(s: State)
    ensures Expected(s) == |Due(s)|
  {
    assert |DueBelow(s, 0)| == 0;
    hide DueBelow, MustAnswer;
    DueStep(s, 0);
    DueStep(s, 1);
    DueStep(s, 2);
    DueStep(s, 3);
  }
}
