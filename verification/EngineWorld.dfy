/** The hand engine as the world the learning layer drives: hands, deals, payouts and the end of a match. */
module EngineWorld {
  import opened Tiles
  import opened Hand
  import opened HandInvariant
  import opened HandSteps
  import opened HandStart
  import opened HandOpening
  import opened HandRuns
  import opened EngineLaws
  import opened Driver
  import RlEnv

  /** What a hand is dealt from. */
  datatype Cut = Cut(wall: seq<TileId>, dealer: Seat, diceSum: nat)

  type Deal = c: Cut | FullWall(c.wall) && 2 <= c.diceSum <= 12 ghost witness AnyCut()

  ghost function AnyCut(): (c: Cut)
    ensures FullWall(c.wall) && 2 <= c.diceSum <= 12
  {
    OrderedWallIsFull();
    Cut(OrderedWall(), 0, 2)
  }

  datatype Play = Play(hand: State, number: nat, scores: Scores, past: seq<Result>)

  /** A match at a moment when the engine waits for a message: the hand in play, its number, the scores, and the results of
      the hands before. */
  type Match = m: Play | Fits(m.hand) ghost witness AnyPlay()

  ghost predicate Fits(s: State) {
    Inv(s) && EndHasResult(s)
  }

  ghost function NewHand(c: Deal, isHaitei: bool): (s: State)
    ensures Fits(s) && s.phase == PlayerTurn
  {
    StartHandKeeps(c.wall, c.dealer, c.diceSum, isHaitei);
    HandsOpenWithATurn(c.wall, c.dealer, c.diceSum, isHaitei);
    StartHand(c.wall, c.dealer, c.diceSum, isHaitei)
  }

  ghost function AnyPlay(): (m: Play)
    ensures Fits(m.hand)
  {
    var c := AnyCut();
    Play(NewHand(c, false), 1, ZERO, [])
  }

  /** A match ends when somebody is bust or the last hand has been played. */
  datatype Cap = Cap(bust: int, maxHands: nat)

  /** The rule engine and its payouts, the match mode, and where action ids and walls come from. */
  datatype Engine = Engine(
    rules: Rules,
    pays: State -> Scores,
    chongci: bool,
    cap: Option<Cap>,
    catalog: (State, Seat, nat) -> Option<Input>,
    deals: Play -> Deal)

  predicate MatchEnds(cap: Option<Cap>, number: nat, scores: Scores) {
    cap.Some? && ((exists q: Seat :: scores[q] <= cap.value.bust) || (cap.value.maxHands > 0 && number >= cap.value.maxHands))
  }

  function PhaseIn(e: Engine, m: Play): MatchPhase {
    match m.hand.phase
    case PlayerTurn => InTurn
    case WaitDiscards => Window
    case RoundEnd => if MatchEnds(e.cap, m.number, m.scores) then MatchOver else HandOver
  }

  /** Who has a menu; in a window, who has not answered yet either. */
  function DeskOf(e: Engine, m: Play): Desk {
    Desk(PhaseIn(e, m), m.hand.active,
         set q: Seat | q < 4 && MustAnswer(m.hand.players[q].offer) && (m.hand.phase == WaitDiscards ==> q !in m.hand.queue))
  }

  /** The id stands for a message on offer to the seat. */
  ghost predicate Decodes(e: Engine, m: Play, seat: Seat, action: nat) {
    var input := e.catalog(m.hand, seat, action);
    input.Some? && input.value.seat == seat && Offered(e.rules, m.hand, input.value) && HaiteiGuard(m.hand, input.value)
  }

  /** The match after its hand moved to the given state; a hand that ends pays. */
  function Moved(e: Engine, m: Play, hand: State): Play {
    Play(hand, m.number, if hand.phase == RoundEnd && m.hand.phase != RoundEnd then Plus(m.scores, e.pays(hand)) else m.scores, m.past)
  }

  ghost function Played(e: Engine, m: Match, seat: Seat, action: nat): (r: (Match, bool))
    requires RulesOk(e.rules)
    ensures r.1 == Decodes(e, m, seat, action) && r.0.number == m.number && r.0.past == m.past
    ensures r.0.scores == Moved(e, m, r.0.hand).scores
  {
    if Decodes(e, m, seat, action) then
      var input := e.catalog(m.hand, seat, action).value;
      OfferedIsDefined(e.rules, m.hand, input);
      StepKeeps(e.rules, m.hand, input);
      EndedHandsHaveResults(e.rules, m.hand, input);
      (Moved(e, m, After(e.rules, m.hand, input)), true)
    else (m, false)
  }

  /** Closing a window the drivers find nobody to wait for in. */
  ghost function Resolved(e: Engine, m: Match): (m': Match)
    requires RulesOk(e.rules)
    ensures m'.hand.phase != WaitDiscards && m'.number == m.number && m'.past == m.past && m'.scores == Moved(e, m, m'.hand).scores
  {
    if m.hand.phase != WaitDiscards then m
    else
      WindowIsDefined(m.hand);
      ResolveKeeps(e.rules, m.hand);
      ResolveLeavesTheWindow(e.rules, m.hand);
      Moved(e, m, Resolve(e.rules, m.hand))
  }

  lemma WindowIsDefined(s: State)
    requires Inv(s) && s.phase == WaitDiscards
    ensures s.activeDiscard.Some? && s.w.wallIndex <= s.w.boundary <= |s.w.tiles|
  {
    hide Conserved, Undrawn, WangpaiUndrawn, Sized, NoFlowersBut, Distinct, OffersFit, QueueFits;
  }

  function PastAfter(m: Play): seq<Result> {
    if m.hand.result.Some? then m.past + [m.hand.result.value] else m.past
  }

  /** All four seats ready: the next hand, with the haitei flag as it was left. */
  ghost function NextHand(e: Engine, m: Match): (m': Match)
    ensures m'.hand.phase == PlayerTurn && m'.number == m.number + 1 && m'.scores == m.scores
    ensures m'.past == PastAfter(m)
  {
    hide Fits, NewHand, FullWall, PastAfter;
    Play(NewHand(e.deals(m), m.hand.isHaitei), m.number + 1, m.scores, PastAfter(m))
  }

  ghost function Readied(e: Engine, m: Match): (r: (Match, bool))
    ensures r.1 == (PhaseIn(e, m) == HandOver)
    ensures r.1 ==> r.0.hand.phase == PlayerTurn && r.0.number == m.number + 1 && r.0.scores == m.scores
    ensures r.1 ==> r.0.past == PastAfter(m)
    ensures !r.1 ==> r.0 == m
  {
    hide Fits, NextHand, MatchEnds, PastAfter;
    if PhaseIn(e, m) == HandOver then (NextHand(e, m), true) else (m, false)
  }

  ghost function Calls(e: Engine): World<Match>
    requires RulesOk(e.rules)
  {
    World(e.chongci,
          (m: Match) => DeskOf(e, m),
          (m: Match) => m.number,
          (m: Match, seat, action) => Decodes(e, m, seat, action),
          (m: Match, seat, action) => Played(e, m, seat, action),
          (m: Match) => Resolved(e, m),
          (m: Match) => Readied(e, m),
          (m: Match) => m.hand.result,
          (m: Match) => m.past,
          (m: Match) => m.scores,
          (m: Match) => if m.hand.phase == RoundEnd then e.pays(m.hand) else ZERO)
  }

  /** What the drivers see of a match. */
  lemma WorldIs(e: Engine, m: Match)
    requires RulesOk(e.rules)
    ensures var w := Calls(e);
            && w.chongci == e.chongci && w.desk(m) == DeskOf(e, m) && PhaseOf(w, m) == PhaseIn(e, m) && w.scores(m) == m.scores
            && (RlEnv.Over(PhaseIn(e, m)) <==> m.hand.phase == RoundEnd) && (m.hand.phase == PlayerTurn ==> PhaseIn(e, m) == InTurn)
            && (forall seat: Seat, a: nat :: w.play(m, seat, a) == Played(e, m, seat, a))
            && (forall seat: Seat, a: nat :: w.decodes(m, seat, a) == Decodes(e, m, seat, a))
            && w.resolve(m) == Resolved(e, m) && w.ready(m) == Readied(e, m)
  {
    hide Fits, Played, Resolved, Readied, Decodes, RulesOk, MatchEnds;
  }

  lemma EndedMatchesHaveResults(m: Match)
    ensures m.hand.phase == RoundEnd ==> m.hand.result.Some?
  {
    hide Inv;
  }

  /** The engine meets every law the drivers of the learning layer rely on. */
  lemma EngineIsLawful(e: Engine)
    requires RulesOk(e.rules)
    ensures Lawful(Calls(e))
  {
    hide Fits, Played, Resolved, Readied, Decodes, Moved, RulesOk, MatchEnds;
    forall m: Match ensures m.hand.phase == RoundEnd ==> m.hand.result.Some? {
      EndedMatchesHaveResults(m);
    }
  }

  ghost function WorldOf(e: Engine): (w: World<Match>)
    requires RulesOk(e.rules)
    ensures w == Calls(e) && Lawful(w)
  {
    EngineIsLawful(e);
    Calls(e)
  }

  /** Uncapped, a hand scores as classic play expects: nothing until it ends, then its payouts. */
  lemma EngineScoresClassically(e: Engine)
    requires RulesOk(e.rules) && e.cap.None?
    ensures RlEnv.ClassicScoring(WorldOf(e))
  {
    hide Fits, Played, Resolved, Decodes, RulesOk, Plus, Lawful;
  }

  /** So the classic rewards of any episode on the engine sum to the change of its scores, with no premise on scoring left. */
  lemma ClassicEpisodesPayTheScoreChange(e: Engine, s: RlEnv.Setup<Match>, m: Match, actions: seq<nat>)
    requires RulesOk(e.rules) && e.cap.None? && !e.chongci && s.world == WorldOf(e) && s.maxDecisions > 0
    requires m.hand.phase != RoundEnd
    ensures var (env, log) := RlEnv.Run(s, m, actions);
            && (env.game.hand.phase != RoundEnd ==> RlEnv.Total(log) == ZERO)
            && (log[|log| - 1].Response? ==> Plus(m.scores, RlEnv.Total(log)) == env.game.scores)
  {
    hide Fits, RlEnv.Run, RlEnv.Total, RlEnv.ClassicScoring, Lawful, RulesOk, Plus, Calls, PhaseIn;
    EngineScoresClassically(e);
    WorldIs(e, m);
    RlEnv.ClassicRewardsTelescope(s, m, actions);
    WorldIs(e, RlEnv.Run(s, m, actions).0.game);
  }

  /** Until a hand is over the engine waits for somebody. */
  lemma SomebodyMayAct(e: Engine, m: Match)
    requires m.hand.phase != RoundEnd
    ensures SeatOf(DeskOf(e, m), EVERYONE).Some?
  {
    hide Fits, FirstSeat, MatchEnds;
    OpenSeat(m.hand);
    var q: Seat :| IsOpen(m.hand, q);
    assert MayAct(DeskOf(e, m), q) && q in EVERYONE;
  }

  predicate IsOpen(s: State, q: Seat) {
    MustAnswer(s.players[q].offer) && match s.phase
      case PlayerTurn => q == s.active
      case WaitDiscards => q != s.active && q !in s.queue
      case RoundEnd => false
  }

  lemma OpenSeat(s: State)
    requires Fits(s) && s.phase != RoundEnd
    ensures exists q: Seat :: IsOpen(s, q)
  {
    hide CoreInv, Distinct, NoFlowersBut, Sized;
    if s.phase == PlayerTurn {
      assert IsOpen(s, s.active);
    } else {
      UnansweredSeat(s);
      var q: Seat :| q !in s.queue && MustAnswer(s.players[q].offer);
      assert IsOpen(s, q);
    }
  }

  /** A heuristic that answers with something on offer whenever it is asked. */
  ghost predicate PicksFromTheMenu(e: Engine, choose: (Match, Seat) -> Option<nat>) {
    forall m: Match, q: Seat | MayAct(DeskOf(e, m), q) :: choose(m, q).Some? && Decodes(e, m, q, choose(m, q).value)
  }

  /** With such a heuristic in the other seats, driving the engine to the next decision never fails, and unless the episode
      is over some learning seat is to act. */
  lemma {:induction false} DrivingNeverFails(e: Engine, s: RlEnv.Setup<Match>, env: RlEnv.Env<Match>)
    requires RulesOk(e.rules) && s.world == WorldOf(e) && s.maxDecisions > 0
    requires s.autoPlay && PicksFromTheMenu(e, s.choose)
    ensures var r := RlEnv.Advance(s, env);
            r.answer.Response? && (r.answer.terminated || r.answer.truncated || SeatOf(DeskOf(e, r.env.game), s.learning).Some?)
    decreases if env.decisionCount < s.maxDecisions then s.maxDecisions - env.decisionCount else 0, Driver.Rank(PhaseOf(s.world, env.game))
  {
    hide Fits, Played, Resolved, Readied, Decodes, RulesOk, SeatOf, Delta, DeskOf, Calls, Lawful, PhaseIn;
    var w, g := s.world, env.game;
    WorldIs(e, g);
    if PhaseOf(w, g) == MatchOver {
    } else if PhaseOf(w, g) == HandOver {
      if w.chongci {
        assert w.ready(g).1;
        WorldIs(e, w.ready(g).0);
        DrivingNeverFails(e, s, env.(pending := if RoundOutcome(w, g).Some? then RoundOutcome(w, g) else env.pending, game := w.ready(g).0));
      }
    } else if env.decisionCount < s.maxDecisions && SeatOf(w.desk(g), s.learning).None? {
      SomebodyMayAct(e, g);
      if SeatOf(w.desk(g), RlEnv.Others(s.learning)).Some? {
        DrivingNeverFails(e, s, RlEnv.HeuristicMove(s, env).0);
      }
    }
  }

  /** So a step of an episode fails in two cases only: no learning seat is to act, or the id is not on that seat's menu. */
  lemma StepFailsExactly(e: Engine, s: RlEnv.Setup<Match>, env: RlEnv.Env<Match>, action: nat)
    requires RulesOk(e.rules) && s.world == WorldOf(e) && s.maxDecisions > 0
    requires s.autoPlay && PicksFromTheMenu(e, s.choose)
    ensures var seat := SeatOf(DeskOf(e, env.game), s.learning);
            RlEnv.Stepped(s, env, action).answer.Failed? <==> seat.None? || !Decodes(e, env.game, seat.value, action)
  {
    hide Fits, Played, Resolved, Readied, Decodes, RulesOk, SeatOf, DeskOf, Calls, Lawful, PhaseIn, RlEnv.Advance, PicksFromTheMenu;
    var seat := SeatOf(DeskOf(e, env.game), s.learning);
    WorldIs(e, env.game);
    if seat.Some? && Decodes(e, env.game, seat.value, action) {
      DrivingNeverFails(e, s, env.(game := Played(e, env.game, seat.value, action).0, decisionCount := env.decisionCount + 1));
    }
  }
}
