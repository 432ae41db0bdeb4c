/** The learning environment over a match: rewards that telescope and outcomes attributed to the right hand, once. */
module RlEnv {
  import opened Hand
  import opened Driver

  /** maxDecisions is never zero after normalisation. choose is the heuristic's move, if it has one. */
  datatype Setup<!G> = Setup(world: World<G>, learning: set<Seat>, autoPlay: bool, maxDecisions: nat, choose: (G, Seat) -> Option<nat>)

  datatype Env<G> = Env(game: G, decisionCount: nat, lastScores: Scores, pending: Option<Finished>)

  datatype Answer =
    | Failed
    | Response(rewards: Scores, terminated: bool, truncated: bool, outcome: Option<Finished>, hand: nat)

  datatype Advanced<G> = Advanced(env: Env<G>, answer: Answer)

  predicate Over(p: MatchPhase) {
    p == HandOver || p == MatchOver
  }

  function Others(learning: set<Seat>): set<Seat> {
    EVERYONE - learning
  }

  /** Rewards since the last answer, and the pending outcome, delivered once. */
  function Decide<G>(w: World<G>, e: Env<G>, truncated: bool): Advanced<G> {
    Advanced(e.(lastScores := w.scores(e.game), pending := None),
             Response(Delta(w.scores(e.game), e.lastScores), false, truncated, e.pending, w.hand(e.game)))
  }

  /** The match is over: the outcome is that of the hand that ended it. */
  function Finish<G>(w: World<G>, e: Env<G>): Advanced<G> {
    var live := RoundOutcome(w, e.game);
    Advanced(e.(lastScores := w.scores(e.game), pending := None),
             Response(Delta(w.scores(e.game), e.lastScores), true, false, if live.Some? then live else e.pending, w.hand(e.game)))
  }

  function HeuristicMove<G>(s: Setup<G>, e: Env<G>): (r: (Env<G>, bool))
    ensures r.1 ==> r.0.decisionCount == e.decisionCount + 1
  {
    var seat := SeatOf(s.world.desk(e.game), Others(s.learning));
    if seat.None? || s.choose(e.game, seat.value).None? then (e, false)
    else
      var (next, ok) := s.world.play(e.game, seat.value, s.choose(e.game, seat.value).value);
      (e.(game := next, decisionCount := e.decisionCount + 1), ok)
  }

  /** Drives the match to the next decision of a learning seat, or to its end. */
  function Advance<G(!new)>(s: Setup<G>, e: Env<G>): Advanced<G>
    requires Lawful(s.world) && s.maxDecisions > 0
    decreases if e.decisionCount < s.maxDecisions then s.maxDecisions - e.decisionCount else 0, Rank(PhaseOf(s.world, e.game))
  {
    var w, g := s.world, e.game;
    if PhaseOf(w, g) == MatchOver then Finish(w, e)
    else if PhaseOf(w, g) == HandOver then
      if !w.chongci then Advanced(e, Response(w.payouts(g), true, false, RoundOutcome(w, g), w.hand(g)))
      else
        var held := e.(pending := if RoundOutcome(w, g).Some? then RoundOutcome(w, g) else e.pending, game := w.ready(g).0);
        if !w.ready(g).1 then Advanced(held, Failed) else Advance(s, held)
    else if e.decisionCount >= s.maxDecisions then Decide(w, e, true)
    else if SeatOf(w.desk(g), s.learning).Some? then Decide(w, e, false)
    else if s.autoPlay && SeatOf(w.desk(g), Others(s.learning)).Some? then
      var (moved, ok) := HeuristicMove(s, e);
      if !ok then Advanced(moved, Failed) else Advance(s, moved)
    else if PhaseOf(w, g) == Window && SeatOf(w.desk(g), EVERYONE).None? then Advance(s, e.(game := w.resolve(g)))
    else Advanced(e, Failed)
  }

  function Stepped<G(!new)>(s: Setup<G>, e: Env<G>, action: nat): Advanced<G>
    requires Lawful(s.world) && s.maxDecisions > 0
  {
    var seat := SeatOf(s.world.desk(e.game), s.learning);
    if seat.None? || !s.world.decodes(e.game, seat.value, action) then Advanced(e, Failed)
    else
      var (next, ok) := s.world.play(e.game, seat.value, action);
      var moved := e.(game := next, decisionCount := e.decisionCount + 1);
      if ok then Advance(s, moved) else Advanced(moved, Failed)
  }

  /** A new match, driven to its first decision. */
  function Reset<G(!new)>(s: Setup<G>, g: G): Advanced<G>
    requires Lawful(s.world) && s.maxDecisions > 0
  {
    Advance(s, Env(g, 0, s.world.scores(g), None))
  }

  /** A reset and any sequence of steps, with every answer. */
  function Run<G(!new)>(s: Setup<G>, g: G, actions: seq<nat>): (Env<G>, seq<Answer>)
    requires Lawful(s.world) && s.maxDecisions > 0
    decreases |actions|
  {
    if actions == [] then
      var r := Reset(s, g);
      (r.env, [r.answer])
    else
      var (e, log) := Run(s, g, actions[..|actions| - 1]);
      var r := Stepped(s, e, actions[|actions| - 1]);
      (r.env, log + [r.answer])
  }

  // ---- Rewards ----

  function RewardOf(a: Answer): Scores {
    if a.Response? then a.rewards else ZERO
  }

  function Total(log: seq<Answer>): Scores {
    if log == [] then ZERO else Plus(Total(log[..|log| - 1]), RewardOf(log[|log| - 1]))
  }

  /** How a classic hand scores: nothing until it ends, then its payouts. */
  ghost predicate ClassicScoring<G(!new)>(w: World<G>) {
    && (forall g, q, a :: !Over(PhaseOf(w, g)) ==> Scored(w, g, w.play(g, q, a).0))
    && (forall g :: PhaseOf(w, g) == Window ==> Scored(w, g, w.resolve(g)))
    && (forall g :: PhaseOf(w, g) != MatchOver)
  }

  predicate Scored<G>(w: World<G>, g: G, g': G) {
    w.scores(g') == if Over(PhaseOf(w, g')) then Plus(w.scores(g), w.payouts(g')) else w.scores(g)
  }

  /** What one answer does to the running sum. */
  predicate Telescopes<G>(w: World<G>, e: Env<G>, r: Advanced<G>) {
    && r.env.lastScores == Plus(e.lastScores, RewardOf(r.answer))
    && (r.answer.Response? ==> r.env.lastScores == w.scores(r.env.game))
  }

  lemma {:induction false} ChongciAdvance<G(!new)>(s: Setup<G>, e: Env<G>)
    requires Lawful(s.world) && s.maxDecisions > 0 && s.world.chongci
    ensures Telescopes(s.world, e, Advance(s, e))
    decreases if e.decisionCount < s.maxDecisions then s.maxDecisions - e.decisionCount else 0, Rank(PhaseOf(s.world, e.game))
  {
    hide SeatOf, Delta, Plus;
    var w, g := s.world, e.game;
    DeltaPlus(w.scores(g), e.lastScores);
    DeltaPlus(e.lastScores, e.lastScores);
    if PhaseOf(w, g) == MatchOver {
    } else if PhaseOf(w, g) == HandOver {
      if w.ready(g).1 {
        ChongciAdvance(s, e.(pending := if RoundOutcome(w, g).Some? then RoundOutcome(w, g) else e.pending, game := w.ready(g).0));
      }
    } else if e.decisionCount < s.maxDecisions && SeatOf(w.desk(g), s.learning).None? {
      if s.autoPlay && SeatOf(w.desk(g), Others(s.learning)).Some? {
        if HeuristicMove(s, e).1 {
          ChongciAdvance(s, HeuristicMove(s, e).0);
        }
      } else if PhaseOf(w, g) == Window && SeatOf(w.desk(g), EVERYONE).None? {
        ChongciAdvance(s, e.(game := w.resolve(g)));
      }
    }
  }

  lemma ChongciStep<G(!new)>(s: Setup<G>, e: Env<G>, action: nat)
    requires Lawful(s.world) && s.maxDecisions > 0 && s.world.chongci
    ensures Telescopes(s.world, e, Stepped(s, e, action))
  {
    hide Lawful, SeatOf, Advance;
    DeltaPlus(e.lastScores, e.lastScores);
    var seat := SeatOf(s.world.desk(e.game), s.learning);
    if seat.Some? {
      ChongciAdvance(s, e.(game := s.world.play(e.game, seat.value, action).0, decisionCount := e.decisionCount + 1));
    }
  }

  /** Chongci: after any run the rewards handed out sum to the scores as of the last answer minus the starting scores, and
      that answer's scores are the current ones. */
  lemma {:induction false} RewardsTelescope<G(!new)>(s: Setup<G>, g: G, actions: seq<nat>)
    requires Lawful(s.world) && s.maxDecisions > 0 && s.world.chongci
    ensures var (e, log) := Run(s, g, actions);
            && Plus(s.world.scores(g), Total(log)) == e.lastScores
            && (log[|log| - 1].Response? ==> Plus(s.world.scores(g), Total(log)) == s.world.scores(e.game))
    decreases |actions|
  {
    hide Lawful, Advance, Stepped, Plus;
    var start := s.world.scores(g);
    if actions == [] {
      ChongciAdvance(s, Env(g, 0, start, None));
      TotalGrows([], Reset(s, g).answer);
      DeltaPlus(start, start);
      PlusIsAssociative(start, ZERO, RewardOf(Reset(s, g).answer));
    } else {
      var last := |actions| - 1;
      RewardsTelescope(s, g, actions[..last]);
      var (e, log) := Run(s, g, actions[..last]);
      ChongciStep(s, e, actions[last]);
      TotalGrows(log, Stepped(s, e, actions[last]).answer);
      PlusIsAssociative(start, Total(log), RewardOf(Stepped(s, e, actions[last]).answer));
    }
  }

  lemma TotalGrows(log: seq<Answer>, a: Answer)
    ensures Total(log + [a]) == Plus(Total(log), RewardOf(a)) && (log + [a])[|log + [a]| - 1] == a
  {
    assert (log + [a])[..|log|] == log;
  }

  /** Classic, while the hand lasts: nothing has been paid and nothing rewarded; its end pays what it rewards. */
  ghost predicate ClassicLevel<G>(w: World<G>, start: Scores, e: Env<G>) {
    e.lastScores == start && (!Over(PhaseOf(w, e.game)) ==> w.scores(e.game) == start)
  }

  ghost predicate ClassicAnswer<G>(w: World<G>, start: Scores, r: Advanced<G>) {
    && ClassicLevel(w, start, r.env)
    && (r.answer.Response? ==>
          && r.answer.terminated == Over(PhaseOf(w, r.env.game))
          && Plus(start, r.answer.rewards) == w.scores(r.env.game)
          && (!r.answer.terminated ==> r.answer.rewards == ZERO))
  }

  lemma {:induction false} ClassicAdvance<G(!new)>(s: Setup<G>, e: Env<G>, start: Scores)
    requires Lawful(s.world) && s.maxDecisions > 0 && !s.world.chongci && ClassicScoring(s.world)
    requires ClassicLevel(s.world, start, e)
    requires Over(PhaseOf(s.world, e.game)) ==> s.world.scores(e.game) == Plus(start, s.world.payouts(e.game))
    ensures ClassicAnswer(s.world, start, Advance(s, e))
    decreases if e.decisionCount < s.maxDecisions then s.maxDecisions - e.decisionCount else 0, Rank(PhaseOf(s.world, e.game))
  {
    hide SeatOf, Delta, Plus, Lawful;
    var w, g := s.world, e.game;
    DeltaPlus(start, start);
    NoMatchEnd(w, g);
    if !Over(PhaseOf(w, g)) && e.decisionCount < s.maxDecisions && SeatOf(w.desk(g), s.learning).None? {
      if s.autoPlay && SeatOf(w.desk(g), Others(s.learning)).Some? {
        if HeuristicMove(s, e).1 {
          ClassicAdvance(s, HeuristicMove(s, e).0, start);
        }
      } else if PhaseOf(w, g) == Window && SeatOf(w.desk(g), EVERYONE).None? {
        LawfulResolve(w, g);
        ClassicAdvance(s, e.(game := w.resolve(g)), start);
      }
    }
  }

  lemma NoMatchEnd<G(!new)>(w: World<G>, g: G)
    requires ClassicScoring(w)
    ensures PhaseOf(w, g) != MatchOver
  {
  }

  lemma LawfulResolve<G(!new)>(w: World<G>, g: G)
    requires Lawful(w) && PhaseOf(w, g) == Window
    ensures PhaseOf(w, w.resolve(g)) != Window
  {
  }

  lemma ClassicStep<G(!new)>(s: Setup<G>, e: Env<G>, start: Scores, action: nat)
    requires Lawful(s.world) && s.maxDecisions > 0 && !s.world.chongci && ClassicScoring(s.world)
    requires ClassicLevel(s.world, start, e)
    ensures ClassicAnswer(s.world, start, Stepped(s, e, action))
    ensures Over(PhaseOf(s.world, e.game)) ==> Stepped(s, e, action) == Advanced(e, Failed)
  {
    hide Lawful, Advance, Plus;
    var seat := SeatOf(s.world.desk(e.game), s.learning);
    if seat.Some? {
      var next := s.world.play(e.game, seat.value, action).0;
      assert Scored(s.world, e.game, next);
      ClassicAdvance(s, e.(game := next, decisionCount := e.decisionCount + 1), start);
    }
  }

  /** Classic: every answer before the end rewards nothing, and the terminal one rewards exactly the change of the scores, so
      the rewards again sum to current minus starting scores at every answer. */
  lemma {:induction false} ClassicRewardsTelescope<G(!new)>(s: Setup<G>, g: G, actions: seq<nat>)
    requires Lawful(s.world) && s.maxDecisions > 0 && !s.world.chongci && ClassicScoring(s.world) && !Over(PhaseOf(s.world, g))
    ensures var (e, log) := Run(s, g, actions);
            && ClassicLevel(s.world, s.world.scores(g), e)
            && (!Over(PhaseOf(s.world, e.game)) ==> Total(log) == ZERO)
            && (log[|log| - 1].Response? ==> Plus(s.world.scores(g), Total(log)) == s.world.scores(e.game))
    decreases |actions|
  {
    hide Lawful, Advance, Stepped, Plus, ClassicScoring;
    var start := s.world.scores(g);
    DeltaPlus(start, start);
    if actions == [] {
      ClassicAdvance(s, Env(g, 0, start, None), start);
      TotalGrows([], Reset(s, g).answer);
      ZeroPlus(RewardOf(Reset(s, g).answer));
    } else {
      var last := |actions| - 1;
      ClassicRewardsTelescope(s, g, actions[..last]);
      var (e, log) := Run(s, g, actions[..last]);
      ClassicStep(s, e, start, actions[last]);
      TotalGrows(log, Stepped(s, e, actions[last]).answer);
      ZeroPlus(RewardOf(Stepped(s, e, actions[last]).answer));
    }
  }

  lemma ZeroPlus(a: Scores)
    ensures Plus(ZERO, a) == a
  {
  }

  // ---- Outcomes ----

  /** A pending outcome is that of the hand just before the one being played. */
  ghost predicate PendingIsLatest<G>(w: World<G>, e: Env<G>) {
    e.pending.Some? ==> e.pending.value.hand <= w.hand(e.game)
                        && (!Over(PhaseOf(w, e.game)) ==> e.pending.value.hand + 1 == w.hand(e.game))
  }

  /** Hand numbers of delivered outcomes so far are below this. */
  ghost predicate NotYet<G>(w: World<G>, e: Env<G>, floor: nat) {
    && floor <= w.hand(e.game)
    && (e.pending.Some? ==> floor <= e.pending.value.hand)
  }

  /** An answer's outcome: at a decision or truncation the last finished hand's, at the end the ending hand's. */
  predicate OutcomeRight(a: Answer) {
    a.Response? && a.outcome.Some? ==> a.outcome.value.hand + (if a.terminated then 0 else 1) == a.hand
  }

  function Floor(a: Answer, floor: nat): nat {
    if a.Response? && a.outcome.Some? then a.outcome.value.hand + 1 else floor
  }

  ghost predicate Attributes<G>(w: World<G>, floor: nat, r: Advanced<G>) {
    && OutcomeRight(r.answer) && PendingIsLatest(w, r.env)
    && (r.answer.Response? && r.answer.outcome.Some? ==> floor <= r.answer.outcome.value.hand)
    && (r.answer.Response? ==> r.answer.terminated == Over(PhaseOf(w, r.env.game)))
    && (r.answer.Response? && !r.answer.terminated ==> NotYet(w, r.env, Floor(r.answer, floor)))
    && (!r.answer.Response? ==> NotYet(w, r.env, floor))
  }

  lemma {:induction false} AdvanceAttributes<G(!new)>(s: Setup<G>, e: Env<G>, floor: nat)
    requires Lawful(s.world) && s.maxDecisions > 0 && PendingIsLatest(s.world, e) && NotYet(s.world, e, floor)
    ensures Attributes(s.world, floor, Advance(s, e))
    decreases if e.decisionCount < s.maxDecisions then s.maxDecisions - e.decisionCount else 0, Rank(PhaseOf(s.world, e.game))
  {
    hide SeatOf, Delta;
    var w, g := s.world, e.game;
    if PhaseOf(w, g) == MatchOver {
    } else if PhaseOf(w, g) == HandOver {
      if w.chongci && w.ready(g).1 {
        AdvanceAttributes(s, e.(pending := RoundOutcome(w, g), game := w.ready(g).0), floor);
      }
    } else if e.decisionCount < s.maxDecisions && SeatOf(w.desk(g), s.learning).None? {
      if s.autoPlay && SeatOf(w.desk(g), Others(s.learning)).Some? {
        if HeuristicMove(s, e).1 {
          AdvanceAttributes(s, HeuristicMove(s, e).0, floor);
        }
      } else if PhaseOf(w, g) == Window && SeatOf(w.desk(g), EVERYONE).None? {
        AdvanceAttributes(s, e.(game := w.resolve(g)), floor);
      }
    }
  }

  lemma StepAttributes<G(!new)>(s: Setup<G>, e: Env<G>, action: nat, floor: nat)
    requires Lawful(s.world) && s.maxDecisions > 0 && PendingIsLatest(s.world, e)
    requires !Over(PhaseOf(s.world, e.game)) ==> NotYet(s.world, e, floor)
    ensures Over(PhaseOf(s.world, e.game)) ==> Stepped(s, e, action) == Advanced(e, Failed)
    ensures !Over(PhaseOf(s.world, e.game)) ==> Attributes(s.world, floor, Stepped(s, e, action))
  {
    hide Advance;
    var seat := SeatOf(s.world.desk(e.game), s.learning);
    if seat.Some? {
      var moved := e.(game := s.world.play(e.game, seat.value, action).0, decisionCount := e.decisionCount + 1);
      assert PendingIsLatest(s.world, moved) && NotYet(s.world, moved, floor);
      AdvanceAttributes(s, moved, floor);
    }
  }

  function FloorOf(log: seq<Answer>): nat {
    if log == [] then 0 else Floor(log[|log| - 1], FloorOf(log[..|log| - 1]))
  }

  predicate EndSeen(log: seq<Answer>) {
    log != [] && ((log[|log| - 1].Response? && log[|log| - 1].terminated) || EndSeen(log[..|log| - 1]))
  }

  /** Each answer against those before it: right hand, a later hand than any outcome before, nothing after the end. */
  ghost predicate AnswerKeeps(before: seq<Answer>, a: Answer) {
    && OutcomeRight(a)
    && (a.Response? && a.outcome.Some? ==> FloorOf(before) <= a.outcome.value.hand)
    && (EndSeen(before) ==> a.Failed?)
  }

  ghost predicate LogKeeps(log: seq<Answer>) {
    forall i | 0 <= i < |log| :: AnswerKeeps(log[..i], log[i])
  }

  ghost predicate Tracks<G>(w: World<G>, e: Env<G>, log: seq<Answer>) {
    && PendingIsLatest(w, e)
    && (!EndSeen(log) ==> NotYet(w, e, FloorOf(log)))
    && (EndSeen(log) ==> Over(PhaseOf(w, e.game)))
  }

  lemma Grown(log: seq<Answer>, a: Answer)
    ensures FloorOf(log + [a]) == Floor(a, FloorOf(log))
    ensures EndSeen(log + [a]) == ((a.Response? && a.terminated) || EndSeen(log))
    ensures LogKeeps(log) && AnswerKeeps(log, a) ==> LogKeeps(log + [a])
  {
    hide AnswerKeeps;
    assert (log + [a])[..|log|] == log;
    assert forall i | 0 <= i < |log| :: (log + [a])[..i] == log[..i];
  }

  lemma {:induction false} RunAttributes<G(!new)>(s: Setup<G>, g: G, actions: seq<nat>)
    requires Lawful(s.world) && s.maxDecisions > 0
    ensures var (e, log) := Run(s, g, actions); LogKeeps(log) && Tracks(s.world, e, log)
    decreases |actions|
  {
    hide Lawful, Advance, Stepped, LogKeeps, FloorOf, EndSeen;
    if actions == [] {
      AdvanceAttributes(s, Env(g, 0, s.world.scores(g), None), 0);
      NothingYet();
      Grown([], Reset(s, g).answer);
      assert [] + [Reset(s, g).answer] == [Reset(s, g).answer];
    } else {
      var last := |actions| - 1;
      RunAttributes(s, g, actions[..last]);
      var (e, log) := Run(s, g, actions[..last]);
      StepAttributes(s, e, actions[last], FloorOf(log));
      Grown(log, Stepped(s, e, actions[last]).answer);
    }
  }

  lemma NothingYet()
    ensures FloorOf([]) == 0 && !EndSeen([]) && LogKeeps([])
  {
  }

  lemma {:induction false} FloorIsAbove(log: seq<Answer>, i: nat)
    requires LogKeeps(log) && i < |log| && log[i].Response? && log[i].outcome.Some?
    ensures log[i].outcome.value.hand < FloorOf(log)
    decreases |log|
  {
    var last := |log| - 1;
    var front := log[..last];
    assert AnswerKeeps(log[..last], log[last]);
    if i < last {
      assert forall j | 0 <= j < last :: front[..j] == log[..j] && front[j] == log[j];
      assert LogKeeps(front) by {
        forall j | 0 <= j < last ensures AnswerKeeps(front[..j], front[j]) {
          assert AnswerKeeps(log[..j], log[j]);
        }
      }
      FloorIsAbove(front, i);
    }
  }

  /** Over any run no hand's outcome is delivered twice: the hands of delivered outcomes strictly increase; a non-terminal
      one is the latest finished hand's and the terminal one the ending hand's; nothing is answered after the end. */
  lemma OutcomesAreAttributedOnce<G(!new)>(s: Setup<G>, g: G, actions: seq<nat>)
    requires Lawful(s.world) && s.maxDecisions > 0
    ensures var log := Run(s, g, actions).1;
            && (forall i | 0 <= i < |log| :: OutcomeRight(log[i]))
            && (forall i, j | 0 <= i < j < |log| && log[i].Response? && log[i].outcome.Some? && log[j].Response? && log[j].outcome.Some? ::
                  log[i].outcome.value.hand < log[j].outcome.value.hand)
            && (forall i, j | 0 <= i < j < |log| && log[i].Response? && log[i].terminated :: log[j].Failed?)
  {
    hide Lawful, Run, FloorOf, EndSeen;
    RunAttributes(s, g, actions);
    var log := Run(s, g, actions).1;
    forall i, j | 0 <= i < j < |log| && log[i].Response?
      ensures log[i].outcome.Some? && log[j].Response? && log[j].outcome.Some? ==> log[i].outcome.value.hand < log[j].outcome.value.hand
      ensures log[i].terminated ==> log[j].Failed?
    {
      assert AnswerKeeps(log[..j], log[j]);
      assert log[..j][i] == log[i];
      PrefixKeeps(log, j);
      if log[i].outcome.Some? {
        FloorIsAbove(log[..j], i);
      }
      if log[i].terminated {
        EndStaysSeen(log[..j], i);
      }
    }
    forall i | 0 <= i < |log| ensures OutcomeRight(log[i]) {
      assert AnswerKeeps(log[..i], log[i]);
    }
  }

  lemma PrefixKeeps(log: seq<Answer>, j: nat)
    requires LogKeeps(log) && j <= |log|
    ensures LogKeeps(log[..j])
  {
    hide AnswerKeeps;
    forall i | 0 <= i < j ensures AnswerKeeps(log[..j][..i], log[..j][i]) {
      assert log[..j][..i] == log[..i];
    }
  }

  lemma {:induction false} EndStaysSeen(log: seq<Answer>, i: nat)
    requires i < |log| && log[i].Response? && log[i].terminated
    ensures EndSeen(log)
    decreases |log|
  {
    if i < |log| - 1 {
      EndStaysSeen(log[..|log| - 1], i);
    }
  }

  // ---- No outcome is lost ----

  /** Since an answer in hand prev, an outcome is pending exactly if a hand has been left, and it is that of the last one. */
  ghost predicate Owes<G>(w: World<G>, e: Env<G>, prev: nat) {
    && prev <= w.hand(e.game)
    && (e.pending.Some? <==> w.hand(e.game) > prev)
    && (e.pending.Some? ==> IsOfLastHand(w, e.game, e.pending.value))
  }

  /** What an answer says of the game it leaves behind, when the answer before it was given in hand prev: the hand in play;
      whether it is over; if not, whether the decisions are used up, and otherwise that a learning seat is to act; and the
      outcome of the hand that has ended, or of the last hand left since that answer, if any was. */
  ghost predicate AnswerDescribes<G>(s: Setup<G>, prev: nat, r: Advanced<G>) {
    var w, g := s.world, r.env.game;
    match r.answer
    case Response(rewards, terminated, truncated, outcome, hand) =>
      && hand == w.hand(g) && terminated == Over(PhaseOf(w, g))
      && truncated == (!terminated && r.env.decisionCount >= s.maxDecisions)
      && (!terminated && !truncated ==> SeatOf(w.desk(g), s.learning).Some?)
      && (if terminated then outcome.Some? && IsOfThisHand(w, g, outcome.value)
          else (outcome.Some? <==> hand > prev) && (outcome.Some? ==> IsOfLastHand(w, g, outcome.value)) && Owes(w, r.env, hand))
    case Failed => PhaseOf(w, g) == HandOver || Owes(w, r.env, prev)
  }

  lemma EndHasOutcome<G(!new)>(w: World<G>, g: G)
    requires Lawful(w) && Over(PhaseOf(w, g))
    ensures RoundOutcome(w, g).Some? && IsOfThisHand(w, g, RoundOutcome(w, g).value)
  {
  }

  lemma ReadyOwes<G(!new)>(w: World<G>, e: Env<G>, prev: nat)
    requires Lawful(w) && PhaseOf(w, e.game) == HandOver && Owes(w, e, prev)
    ensures w.ready(e.game).1 ==>
              Owes(w, e.(pending := RoundOutcome(w, e.game), game := w.ready(e.game).0), prev)
              && PhaseOf(w, w.ready(e.game).0) == InTurn
    ensures !w.ready(e.game).1 ==> PhaseOf(w, w.ready(e.game).0) == HandOver
  {
    EndHasOutcome(w, e.game);
    assert w.ready(e.game).1 ==> LeavesBehind(w.past(e.game), w.result(e.game), w.past(w.ready(e.game).0));
  }

  lemma SameHandOwes<G>(w: World<G>, e: Env<G>, e': Env<G>, prev: nat)
    requires Owes(w, e, prev) && e'.pending == e.pending && w.hand(e'.game) == w.hand(e.game) && w.past(e'.game) == w.past(e.game)
    ensures Owes(w, e', prev)
  {
  }

  lemma MoveOwes<G(!new)>(s: Setup<G>, e: Env<G>, prev: nat)
    requires Lawful(s.world) && Owes(s.world, e, prev)
    ensures Owes(s.world, HeuristicMove(s, e).0, prev)
    ensures Owes(s.world, e.(game := s.world.resolve(e.game)), prev)
  {
    hide SeatOf;
    SameHandOwes(s.world, e, HeuristicMove(s, e).0, prev);
    SameHandOwes(s.world, e, e.(game := s.world.resolve(e.game)), prev);
  }

  lemma DecideDescribes<G>(s: Setup<G>, e: Env<G>, truncated: bool, prev: nat)
    requires Owes(s.world, e, prev) && !Over(PhaseOf(s.world, e.game)) && truncated == (e.decisionCount >= s.maxDecisions)
    requires !truncated ==> SeatOf(s.world.desk(e.game), s.learning).Some?
    ensures AnswerDescribes(s, prev, Decide(s.world, e, truncated))
  {
    hide SeatOf, Delta;
  }

  lemma {:induction false} AdvanceDescribes<G(!new)>(s: Setup<G>, e: Env<G>, prev: nat)
    requires Lawful(s.world) && s.maxDecisions > 0 && Owes(s.world, e, prev)
    ensures AnswerDescribes(s, prev, Advance(s, e))
    decreases if e.decisionCount < s.maxDecisions then s.maxDecisions - e.decisionCount else 0, Rank(PhaseOf(s.world, e.game))
  {
    hide SeatOf, Delta, Lawful, Owes, IsOfLastHand, IsOfThisHand, HeuristicMove, RoundOutcome, Decide;
    var w, g := s.world, e.game;
    if Over(PhaseOf(w, g)) {
      EndHasOutcome(w, g);
      if PhaseOf(w, g) == HandOver {
        ReadyOwes(w, e, prev);
        if w.chongci && w.ready(g).1 {
          AdvanceDescribes(s, e.(pending := RoundOutcome(w, g), game := w.ready(g).0), prev);
        }
      }
    } else {
      MoveOwes(s, e, prev);
      if e.decisionCount >= s.maxDecisions || SeatOf(w.desk(g), s.learning).Some? {
        DecideDescribes(s, e, e.decisionCount >= s.maxDecisions, prev);
      } else if s.autoPlay && SeatOf(w.desk(g), Others(s.learning)).Some? {
        if HeuristicMove(s, e).1 {
          AdvanceDescribes(s, HeuristicMove(s, e).0, prev);
        }
      } else if PhaseOf(w, g) == Window && SeatOf(w.desk(g), EVERYONE).None? {
        LawfulResolve(w, g);
        AdvanceDescribes(s, e.(game := w.resolve(g)), prev);
      }
    }
  }

  /** One step of the environment: it fails and changes nothing unless a learning seat is to act and the id decodes;
      otherwise it counts one decision of that seat and its answer describes the game it leads to. */
  lemma StepDescribes<G(!new)>(s: Setup<G>, e: Env<G>, action: nat, prev: nat)
    requires Lawful(s.world) && s.maxDecisions > 0
    requires PhaseOf(s.world, e.game) == HandOver || PhaseOf(s.world, e.game) == MatchOver || Owes(s.world, e, prev)
    ensures var seat := SeatOf(s.world.desk(e.game), s.learning);
            var r := Stepped(s, e, action);
            if seat.None? || !s.world.decodes(e.game, seat.value, action) then r == Advanced(e, Failed)
            else AnswerDescribes(s, prev, r) && r.env.decisionCount > e.decisionCount
  {
    hide Lawful, Advance, SeatOf, IsOfLastHand, IsOfThisHand;
    var seat := SeatOf(s.world.desk(e.game), s.learning);
    if seat.Some? && s.world.decodes(e.game, seat.value, action) {
      var moved := e.(game := s.world.play(e.game, seat.value, action).0, decisionCount := e.decisionCount + 1);
      PlayedOwes(s.world, e, moved, seat.value, action, prev);
      AdvanceDescribes(s, moved, prev);
      CountGrows(s, moved);
    }
  }

  lemma PlayedOwes<G(!new)>(w: World<G>, e: Env<G>, e': Env<G>, seat: Seat, action: nat, prev: nat)
    requires Lawful(w) && Owes(w, e, prev) && e' == e.(game := w.play(e.game, seat, action).0, decisionCount := e'.decisionCount)
    ensures Owes(w, e', prev)
  {
    SameHandOwes(w, e, e', prev);
  }

  lemma {:induction false} CountGrows<G(!new)>(s: Setup<G>, e: Env<G>)
    requires Lawful(s.world) && s.maxDecisions > 0
    ensures Advance(s, e).env.decisionCount >= e.decisionCount
    decreases if e.decisionCount < s.maxDecisions then s.maxDecisions - e.decisionCount else 0, Rank(PhaseOf(s.world, e.game))
  {
    hide SeatOf, Delta, RoundOutcome;
    var w, g := s.world, e.game;
    if PhaseOf(w, g) == HandOver {
      if w.chongci && w.ready(g).1 {
        CountGrows(s, e.(pending := if RoundOutcome(w, g).Some? then RoundOutcome(w, g) else e.pending, game := w.ready(g).0));
      }
    } else if PhaseOf(w, g) != MatchOver && e.decisionCount < s.maxDecisions && SeatOf(w.desk(g), s.learning).None? {
      if s.autoPlay && SeatOf(w.desk(g), Others(s.learning)).Some? {
        if HeuristicMove(s, e).1 {
          CountGrows(s, HeuristicMove(s, e).0);
        }
      } else if PhaseOf(w, g) == Window && SeatOf(w.desk(g), EVERYONE).None? {
        CountGrows(s, e.(game := w.resolve(g)));
      }
    }
  }

  /** The hand of the last answer, or the one the run started in. */
  function LastHand(log: seq<Answer>, start: nat): nat {
    if log == [] then start
    else if log[|log| - 1].Response? then log[|log| - 1].hand
    else LastHand(log[..|log| - 1], start)
  }

  predicate OutcomeIsDue(before: seq<Answer>, start: nat, a: Answer) {
    a.Response? ==>
      && (a.terminated ==> a.outcome.Some? && a.outcome.value.hand == a.hand)
      && (!a.terminated ==> (a.outcome.Some? <==> a.hand > LastHand(before, start)))
      && (!a.terminated && a.outcome.Some? ==> a.outcome.value.hand + 1 == a.hand)
  }

  /** Where a run has come: the last answer's outcome is the very result of its hand, and what is owed fits the log. */
  ghost predicate Kept<G>(w: World<G>, e: Env<G>, log: seq<Answer>, start: nat) {
    && (forall i | 0 <= i < |log| :: OutcomeIsDue(log[..i], start, log[i]))
    && (Over(PhaseOf(w, e.game)) || Owes(w, e, LastHand(log, start)))
  }

  lemma Appended<G>(s: Setup<G>, log: seq<Answer>, start: nat, r: Advanced<G>)
    requires forall i | 0 <= i < |log| :: OutcomeIsDue(log[..i], start, log[i])
    requires AnswerDescribes(s, LastHand(log, start), r)
    ensures Kept(s.world, r.env, log + [r.answer], start)
  {
    hide SeatOf, OutcomeIsDue, Owes;
    AnswerIsDue(s, log, start, r);
    LogWith(log, r.answer, start);
    assert forall i | 0 <= i < |log| :: (log + [r.answer])[..i] == log[..i];
  }

  lemma AnswerIsDue<G>(s: Setup<G>, log: seq<Answer>, start: nat, r: Advanced<G>)
    requires AnswerDescribes(s, LastHand(log, start), r)
    ensures OutcomeIsDue(log, start, r.answer)
  {
    hide SeatOf, Owes;
  }

  lemma LogWith(log: seq<Answer>, a: Answer, start: nat)
    ensures LastHand(log + [a], start) == if a.Response? then a.hand else LastHand(log, start)
    ensures (log + [a])[..|log|] == log && (log + [a])[|log|] == a
  {
    assert (log + [a])[..|log|] == log;
  }

  /** Over any run no outcome is lost or late: an answer that does not end the episode has one if and only if a hand was left
      since the answer before it, and then it is the last such hand's; one that ends it has that of the hand in play. The
      outcome of the latest answer is the very result its hand ended with. */
  lemma {:induction false} NoOutcomeIsLost<G(!new)>(s: Setup<G>, g: G, actions: seq<nat>)
    requires Lawful(s.world) && s.maxDecisions > 0
    ensures var (e, log) := Run(s, g, actions);
            && Kept(s.world, e, log, s.world.hand(g))
            && var a := log[|log| - 1];
               a.Response? && a.outcome.Some? ==>
                 if a.terminated then IsOfThisHand(s.world, e.game, a.outcome.value) else IsOfLastHand(s.world, e.game, a.outcome.value)
    decreases |actions|
  {
    hide Lawful, Advance, Stepped, IsOfLastHand, IsOfThisHand, OutcomeIsDue;
    var start := s.world.hand(g);
    if actions == [] {
      AdvanceDescribes(s, Env(g, 0, s.world.scores(g), None), start);
      Appended(s, [], start, Reset(s, g));
      assert [] + [Reset(s, g).answer] == [Reset(s, g).answer];
    } else {
      var last := |actions| - 1;
      NoOutcomeIsLost(s, g, actions[..last]);
      var (e, log) := Run(s, g, actions[..last]);
      StepDescribes(s, e, actions[last], LastHand(log, start));
      var r := Stepped(s, e, actions[last]);
      if r == Advanced(e, Failed) {
        FailureKeeps(s.world, e, log, start);
      } else {
        Appended(s, log, start, r);
      }
    }
  }

  lemma FailureKeeps<G>(w: World<G>, e: Env<G>, log: seq<Answer>, start: nat)
    requires Kept(w, e, log, start)
    ensures Kept(w, e, log + [Failed], start)
  {
    hide OutcomeIsDue, Owes;
    assert OutcomeIsDue(log, start, Failed) by { FailureIsFine(log, start); }
    LogWith(log, Failed, start);
    assert forall i | 0 <= i < |log| :: (log + [Failed])[..i] == log[..i];
  }

  lemma FailureIsFine(log: seq<Answer>, start: nat)
    ensures OutcomeIsDue(log, start, Failed)
  {
  }

  // ---- The environment object ----

  class LearningEnv<G(!new)> {
    const setup: Setup<G>
    var game: G
    var decisionCount: nat
    var lastScores: Scores
    var pendingRoundOutcome: Option<Finished>

    ghost function Now(): Env<G>
      reads this
    {
      Env(game, decisionCount, lastScores, pendingRoundOutcome)
    }

    constructor (setup: Setup<G>, g: G)
      ensures this.setup == setup && Now() == Env(g, 0, setup.world.scores(g), None)
    {
      this.setup, game := setup, g;
      decisionCount, lastScores, pendingRoundOutcome := 0, setup.world.scores(g), None;
    }

    method ScoreDeltaReward() returns (delta: Scores)
      modifies this`lastScores
      ensures delta == Delta(setup.world.scores(game), old(lastScores)) && lastScores == setup.world.scores(game)
    {
      var cur := setup.world.scores(game);
      delta := Delta(cur, lastScores);
      lastScores := cur;
    }

    method TakePendingRoundOutcome() returns (outcome: Option<Finished>)
      modifies this`pendingRoundOutcome
      ensures outcome == old(pendingRoundOutcome) && pendingRoundOutcome.None?
    {
      outcome := pendingRoundOutcome;
      pendingRoundOutcome := None;
    }

    method AnswerNow(truncated: bool) returns (answer: Answer)
      modifies this`lastScores, this`pendingRoundOutcome
      ensures Advanced(Now(), answer) == Decide(setup.world, old(Now()), truncated)
    {
      hide Delta;
      var rewards := ScoreDeltaReward();
      var outcome := TakePendingRoundOutcome();
      answer := Response(rewards, false, truncated, outcome, setup.world.hand(game));
    }

    method AnswerAtMatchEnd() returns (answer: Answer)
      modifies this`lastScores, this`pendingRoundOutcome
      ensures Advanced(Now(), answer) == Finish(setup.world, old(Now()))
    {
      hide Delta;
      var outcome := RoundOutcome(setup.world, game);
      if outcome.None? {
        outcome := pendingRoundOutcome;
      }
      pendingRoundOutcome := None;
      var rewards := ScoreDeltaReward();
      answer := Response(rewards, true, false, outcome, setup.world.hand(game));
    }

    /** The heuristic plays for the first waiting seat that is not learning. */
    method PlayHeuristic(seat: Seat) returns (ok: bool)
      requires SeatOf(setup.world.desk(game), Others(setup.learning)) == Some(seat)
      modifies this`game, this`decisionCount
      ensures (Now(), ok) == HeuristicMove(setup, old(Now()))
    {
      var action := setup.choose(game, seat);
      if action.None? {
        return false;
      }
      decisionCount := decisionCount + 1;
      var (next, played) := setup.world.play(game, seat, action.value);
      game := next;
      ok := played;
    }

    method AdvanceToDecision() returns (answer: Answer)
      requires Lawful(setup.world) && setup.maxDecisions > 0
      modifies this
      ensures Advanced(Now(), answer) == Advance(setup, old(Now()))
    {
      hide Lawful, Delta, SeatOf, Decide, Finish, HeuristicMove, Others;
      var w := setup.world;
      while true
        invariant Advance(setup, Now()) == Advance(setup, old(Now()))
        decreases if decisionCount < setup.maxDecisions then setup.maxDecisions - decisionCount else 0, Rank(w.desk(game).phase)
      {
        var phase := w.desk(game).phase;
        if phase == MatchOver {
          answer := AnswerAtMatchEnd();
          return;
        }
        if phase == HandOver {
          if !w.chongci {
            return Response(w.payouts(game), true, false, RoundOutcome(w, game), w.hand(game));
          }
          ReadyLeavesTheEnd(w, game);
          var outcome := RoundOutcome(w, game);
          if outcome.Some? {
            pendingRoundOutcome := outcome;
          }
          var (next, ok) := w.ready(game);
          game := next;
          if !ok {
            return Failed;
          }
          continue;
        }
        if decisionCount >= setup.maxDecisions {
          answer := AnswerNow(true);
          return;
        }
        var learner := CurrentSeat(w.desk(game), setup.learning);
        if learner.Some? {
          answer := AnswerNow(false);
          return;
        }
        var other := CurrentSeat(w.desk(game), Others(setup.learning));
        if setup.autoPlay && other.Some? {
          MovesAreCounted(setup, Now());
          var ok := PlayHeuristic(other.value);
          if !ok {
            return Failed;
          }
          continue;
        }
        var anyone := CurrentSeat(w.desk(game), EVERYONE);
        if phase != Window || anyone.Some? {
          return Failed;
        }
        LawfulResolve(w, game);
        game := w.resolve(game);
      }
    }

    static lemma MovesAreCounted(s: Setup<G>, e: Env<G>)
      ensures HeuristicMove(s, e).1 ==> HeuristicMove(s, e).0.decisionCount == e.decisionCount + 1
    {
    }

    static lemma ReadyLeavesTheEnd(w: World<G>, g: G)
      requires Lawful(w) && PhaseOf(w, g) == HandOver
      ensures w.ready(g).1 ==> Rank(PhaseOf(w, w.ready(g).0)) < Rank(PhaseOf(w, g))
    {
    }

    method Step(action: nat) returns (answer: Answer)
      requires Lawful(setup.world) && setup.maxDecisions > 0
      modifies this
      ensures Advanced(Now(), answer) == Stepped(setup, old(Now()), action)
    {
      hide Lawful, SeatOf, Advance;
      var w := setup.world;
      var seat := CurrentSeat(w.desk(game), setup.learning);
      if seat.None? {
        return Failed;
      }
      if !w.decodes(game, seat.value, action) {
        return Failed;
      }
      decisionCount := decisionCount + 1;
      var (next, ok) := w.play(game, seat.value, action);
      game := next;
      if !ok {
        return Failed;
      }
      answer := AdvanceToDecision();
    }
  }

  /** A reset and a sequence of steps on an object give the answers the run theorems speak of. */
  method PlayEpisode<G(!new)>(setup: Setup<G>, g: G, actions: seq<nat>) returns (log: seq<Answer>)
    requires Lawful(setup.world) && setup.maxDecisions > 0
    ensures log == Run(setup, g, actions).1
  {
    hide Lawful, Advance, Stepped;
    var env := new LearningEnv(setup, g);
    var first := env.AdvanceToDecision();
    log := [first];
    assert actions[..0] == [];
    for k := 0 to |actions|
      invariant fresh(env) && env.setup == setup
      invariant (env.Now(), log) == Run(setup, g, actions[..k])
    {
      assert actions[..k + 1][..k] == actions[..k];
      var answer := env.Step(actions[k]);
      log := log + [answer];
    }
    assert actions[..|actions|] == actions;
  }
}
