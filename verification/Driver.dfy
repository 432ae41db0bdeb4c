/** What the reinforcement-learning layer sees of a match: its phase, who may act, and the calls it makes on the engine. */
module Driver {
  import opened Hand

  datatype MatchPhase = InTurn | Window | HandOver | MatchOver

  /** Seats that have a menu and have not queued an answer yet. */
  datatype Desk = Desk(phase: MatchPhase, active: Seat, open: set<Seat>)

  /** A finished hand: its number in the match and how it ended. */
  datatype Finished = Finished(hand: nat, result: Result)

  type Scores = s: seq<int> | |s| == 4 witness [0, 0, 0, 0]

  /** The engine's entry points. A call that fails may still have changed the game. past is what the statements below know
      of the hands already left behind: their results in order. */
  datatype World<!G> = World(
    chongci: bool,
    desk: G -> Desk,
    hand: G -> nat,
    decodes: (G, Seat, nat) -> bool,
    play: (G, Seat, nat) -> (G, bool),
    resolve: G -> G,
    ready: G -> (G, bool),
    result: G -> Option<Result>,
    past: G -> seq<Result>,
    scores: G -> Scores,
    payouts: G -> Scores)

  function PhaseOf<G>(w: World<G>, g: G): MatchPhase {
    w.desk(g).phase
  }

  /** The outcome of the hand that has just ended, if the game still holds it. */
  function RoundOutcome<G>(w: World<G>, g: G): Option<Finished> {
    if w.result(g).None? then None else Some(Finished(w.hand(g), w.result(g).value))
  }

  predicate MayAct(d: Desk, seat: Seat) {
    match d.phase
    case InTurn => seat == d.active && seat in d.open
    case Window => seat != d.active && seat in d.open
    case _ => false
  }

  /** The lowest seat of the group from q on that the match waits for. */
  function FirstSeat(d: Desk, group: set<Seat>, q: nat): (r: Option<Seat>)
    requires q <= 4
    ensures r.Some? ==> q <= r.value && MayAct(d, r.value) && r.value in group
    ensures r.Some? ==> forall s: Seat | q <= s < r.value && s in group :: !MayAct(d, s)
    ensures r.None? ==> forall s: Seat | q <= s && s in group :: !MayAct(d, s)
    decreases 4 - q
  {
    if q == 4 then None
    else if MayAct(d, q) && q in group then Some(q)
    else FirstSeat(d, group, q + 1)
  }

  function SeatOf(d: Desk, group: set<Seat>): (r: Option<Seat>)
    ensures r.Some? ==> MayAct(d, r.value) && r.value in group && forall s: Seat | s < r.value && s in group :: !MayAct(d, s)
    ensures r.None? ==> forall s: Seat | s in group :: !MayAct(d, s)
  {
    FirstSeat(d, group, 0)
  }

  const EVERYONE: set<Seat> := {0, 1, 2, 3}

  method CurrentSeat(d: Desk, group: set<Seat>) returns (r: Option<Seat>)
    ensures r == SeatOf(d, group)
  {
    if d.phase == InTurn {
      var seat := d.active;
      if seat in d.open && seat in group {
        return Some(seat);
      }
    } else if d.phase == Window {
      var seat := 0;
      while seat < 4
        invariant 0 <= seat <= 4 && FirstSeat(d, group, seat) == SeatOf(d, group)
      {
        if seat != d.active && seat in d.open && seat in group {
          return Some(seat);
        }
        seat := seat + 1;
      }
    }
    return None;
  }

  /** The seats still to pass before the driver stops or reaches a decision. */
  function Rank(p: MatchPhase): nat {
    match p
    case Window => 2
    case HandOver => 1
    case _ => 0
  }

  /** How the engine moves between phases: closing a window leaves it, a new hand starts with a turn, a finished hand has
      a result until the next one starts, and only starting a hand changes its number and leaves its result behind. */
  ghost predicate Lawful<G(!new)>(w: World<G>) {
    && (forall g :: PhaseOf(w, g) == Window ==> PhaseOf(w, w.resolve(g)) != Window)
    && (forall g :: PhaseOf(w, g) == HandOver && w.ready(g).1 ==> PhaseOf(w, w.ready(g).0) == InTurn)
    && (forall g :: PhaseOf(w, g) == HandOver || PhaseOf(w, g) == MatchOver ==> w.result(g).Some?)
    && (forall g, s, a :: w.hand(w.play(g, s, a).0) == w.hand(g))
    && (forall g :: w.hand(w.resolve(g)) == w.hand(g))
    && (forall g :: w.ready(g).1 ==> w.hand(w.ready(g).0) == w.hand(g) + 1)
    && (forall g :: !w.ready(g).1 ==> w.hand(w.ready(g).0) == w.hand(g) && PhaseOf(w, w.ready(g).0) == PhaseOf(w, g))
    && (forall g, s, a :: w.past(w.play(g, s, a).0) == w.past(g))
    && (forall g :: w.past(w.resolve(g)) == w.past(g))
    && (forall g :: PhaseOf(w, g) == HandOver && w.ready(g).1 ==> LeavesBehind(w.past(g), w.result(g), w.past(w.ready(g).0)))
  }

  predicate LeavesBehind(before: seq<Result>, result: Option<Result>, after: seq<Result>) {
    result.Some? && after == before + [result.value]
  }

  /** The outcome of the hand before the present one, by its number and the result it left behind. */
  predicate IsOfLastHand<G>(w: World<G>, g: G, f: Finished) {
    f.hand + 1 == w.hand(g) && w.past(g) != [] && f.result == w.past(g)[|w.past(g)| - 1]
  }

  predicate IsOfThisHand<G>(w: World<G>, g: G, f: Finished) {
    f.hand == w.hand(g) && w.result(g) == Some(f.result)
  }

  function Delta(now: Scores, before: Scores): Scores {
    [now[0] - before[0], now[1] - before[1], now[2] - before[2], now[3] - before[3]]
  }

  function Plus(a: Scores, b: Scores): Scores {
    [a[0] + b[0], a[1] + b[1], a[2] + b[2], a[3] + b[3]]
  }

  const ZERO: Scores := [0, 0, 0, 0]

  lemma DeltaPlus(a: Scores, b: Scores)
    ensures Plus(b, Delta(a, b)) == a && Delta(a, a) == ZERO && Plus(a, ZERO) == a
  {
  }

  lemma PlusIsAssociative(a: Scores, b: Scores, c: Scores)
    ensures Plus(Plus(a, b), c) == Plus(a, Plus(b, c))
  {
  }
}
