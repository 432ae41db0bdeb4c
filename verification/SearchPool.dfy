/** One clone of a search pool: which rows it surfaces, when it bootstraps, and when it stops. */
module SearchPool {
  import opened Hand
  import opened Driver

  /** The root seat and the per-clone decision cap of a pool (zero for none). */
  datatype Setup<!G> = Setup(world: World<G>, root: Seat, maxDec: nat)

  datatype Clone<G> = Clone(
    game: G,
    decisions: nat,
    done: bool,
    rootApplied: bool,
    awaiting: bool,
    pending: Option<Finished>,
    lastScores: Scores)

  /** What a clone answers. A row carries the observation of one seat's decision. */
  datatype Answer =
    | Skipped
    | Failed
    | Row(seat: Seat, rewards: Scores, outcome: Option<Finished>, truncated: bool)
    | Terminated(rewards: Scores, outcome: Option<Finished>)

  /** The move a step played, if it played one, its answer, and the last hand boundary it crossed. */
  datatype Entry = Entry(played: Option<Seat>, answer: Answer, crossed: Option<Finished>, decisions: nat)

  datatype Command = ActionId(id: nat) | ResetSeed | Skip

  datatype Advanced<G> = Advanced(clone: Clone<G>, answer: Answer, crossed: Option<Finished>)

  function HardCap(maxDec: nat): nat {
    2 * maxDec + 16
  }

  /** The row of the seat the match waits for: a bootstrap row, a truncation row, or an ordinary one. */
  function Surface<G>(p: Setup<G>, c: Clone<G>, seat: Seat, crossed: Option<Finished>): Advanced<G> {
    var rewards := Delta(p.world.scores(c.game), c.lastScores);
    var seen := c.(lastScores := p.world.scores(c.game));
    if seat == p.root && c.awaiting then
      Advanced(seen.(awaiting := false, pending := None), Row(seat, rewards, c.pending, false), crossed)
    else if seat == p.root && p.maxDec > 0 && c.decisions >= p.maxDec then
      Advanced(seen, Row(seat, rewards, None, true), crossed)
    else Advanced(seen, Row(seat, rewards, None, false), crossed)
  }

  function Ended<G>(p: Setup<G>, c: Clone<G>, crossed: Option<Finished>): Advanced<G> {
    var outcome := if c.pending.Some? then c.pending else RoundOutcome(p.world, c.game);
    Advanced(c.(lastScores := p.world.scores(c.game)),
             Terminated(Delta(p.world.scores(c.game), c.lastScores), outcome), crossed)
  }

  /** Drives a clone to the next row it surfaces. */
  function Advance<G(!new)>(p: Setup<G>, c: Clone<G>, crossed: Option<Finished>): (r: Advanced<G>)
    requires Lawful(p.world)
    decreases Rank(PhaseOf(p.world, c.game))
  {
    var w, g := p.world, c.game;
    if PhaseOf(w, g) == MatchOver then Ended(p, c, crossed)
    else if PhaseOf(w, g) == HandOver then
      if !w.chongci then Advanced(c, Terminated(w.payouts(g), RoundOutcome(w, g)), crossed)
      else
        var armed := c.(pending := RoundOutcome(w, g), awaiting := true, game := w.ready(g).0);
        if !w.ready(g).1 then Advanced(armed, Failed, RoundOutcome(w, g))
        else Advance(p, armed, RoundOutcome(w, g))
    else if p.maxDec > 0 && c.decisions >= HardCap(p.maxDec) then Advanced(c, Failed, crossed)
    else
      var seat := SeatOf(w.desk(g), EVERYONE);
      if seat.Some? then Surface(p, c, seat.value, crossed)
      else if PhaseOf(w, g) == Window then Advance(p, c.(game := w.resolve(g)), crossed)
      else Advanced(c, Failed, crossed)
  }

  predicate Final(a: Answer) {
    a.Terminated? || (a.Row? && (a.truncated || a.outcome.Some?))
  }

  function Stepped<G(!new)>(p: Setup<G>, c: Clone<G>, id: nat): (Clone<G>, Entry)
    requires Lawful(p.world)
  {
    var w := p.world;
    var acting := SeatOf(w.desk(c.game), EVERYONE);
    if c.rootApplied && acting.None? then (c, Entry(None, Failed, None, c.decisions))
    else
      var seat := if c.rootApplied then acting.value else p.root;
      if !w.decodes(c.game, seat, id) then (c, Entry(None, Failed, None, c.decisions))
      else
        var c1 := c.(rootApplied := true, decisions := c.decisions + 1);
        var (next, ok) := w.play(c.game, seat, id);
        if !ok then (c1.(game := next), Entry(Some(seat), Failed, None, c1.decisions))
        else
          var r := Advance(p, c1.(game := next), None);
          (r.clone.(done := r.clone.done || Final(r.answer)), Entry(Some(seat), r.answer, r.crossed, c1.decisions))
  }

  function Commanded<G(!new)>(p: Setup<G>, c: Clone<G>, cmd: Command): (Clone<G>, Entry)
    requires Lawful(p.world)
  {
    match cmd
    case ResetSeed => (c, Entry(None, Failed, None, c.decisions))
    case Skip => (c, Entry(None, Skipped, None, c.decisions))
    case ActionId(id) => if c.done then (c, Entry(None, Skipped, None, c.decisions)) else Stepped(p, c, id)
  }

  /** A clone's whole life: every command in order, with everything it answered. */
  function Run<G(!new)>(p: Setup<G>, c: Clone<G>, cmds: seq<Command>): (Clone<G>, seq<Entry>)
    requires Lawful(p.world)
    decreases |cmds|
  {
    if cmds == [] then (c, [])
    else
      var (c1, log) := Run(p, c, cmds[..|cmds| - 1]);
      var (c2, e) := Commanded(p, c1, cmds[|cmds| - 1]);
      (c2, log + [e])
  }

  function Opened<G>(p: Setup<G>, g: G): Clone<G> {
    Clone(g, 0, false, false, false, None, p.world.scores(g))
  }

  // ---- The contract ----

  predicate Bootstrap(a: Answer) {
    a.Row? && a.outcome.Some?
  }

  predicate RootRow(p: Seat, a: Answer) {
    a.Row? && a.seat == p
  }

  /** The outcome of the last hand that ended, and whether the root seat has been asked since. */
  function LastCrossing(log: seq<Entry>): Option<Finished> {
    if log == [] then None
    else if log[|log| - 1].crossed.Some? then log[|log| - 1].crossed
    else LastCrossing(log[..|log| - 1])
  }

  /** A boundary was crossed and no row of the root seat has been surfaced since. */
  predicate RootOwed(root: Seat, log: seq<Entry>) {
    if log == [] then false
    else
      var e := log[|log| - 1];
      !RootRow(root, e.answer) && (e.crossed.Some? || RootOwed(root, log[..|log| - 1]))
  }

  predicate FinalSeen(log: seq<Entry>) {
    log != [] && (Final(log[|log| - 1].answer) || FinalSeen(log[..|log| - 1]))
  }

  predicate MoveSeen(log: seq<Entry>) {
    log != [] && (log[|log| - 1].played.Some? || MoveSeen(log[..|log| - 1]))
  }

  function Moves(log: seq<Entry>): nat {
    if log == [] then 0 else Moves(log[..|log| - 1]) + if log[|log| - 1].played.Some? then 1 else 0
  }

  /** A non-terminal row with an outcome is the root seat's first own decision since the last hand boundary and carries
      that hand's outcome; and every such decision is surfaced that way. */
  predicate BootstrapsRight(root: Seat, before: seq<Entry>, e: Entry) {
    var owed := if e.crossed.Some? then e.crossed else if RootOwed(root, before) then LastCrossing(before) else None;
    && (Bootstrap(e.answer) <==> RootRow(root, e.answer) && owed.Some?)
    && (Bootstrap(e.answer) ==> e.answer.outcome == owed && !e.answer.truncated)
  }

  /** What one entry may be, given the entries before it. */
  predicate EntryKeeps(root: Seat, maxDec: nat, before: seq<Entry>, e: Entry) {
    && BootstrapsRight(root, before, e)
    // a row is truncated exactly when it is a root decision at or past the cap and no bootstrap row
    && (e.answer.Row? ==> (e.answer.truncated <==> e.answer.seat == root && !Bootstrap(e.answer) && maxDec > 0 && e.decisions >= maxDec))
    // decisions counts the moves played, this one included
    && e.decisions == Moves(before) + (if e.played.Some? then 1 else 0)
    // the first move played is the root seat's
    && (e.played.Some? && !MoveSeen(before) ==> e.played == Some(root))
    // past the hard cap only terminal answers and errors come back
    && (e.played.Some? && maxDec > 0 && e.decisions >= 2 * maxDec + 16 ==> e.answer.Terminated? || e.answer.Failed?)
    // nothing is played after a final answer
    && (FinalSeen(before) ==> e.played.None? && e.crossed.None? && (e.answer.Skipped? || e.answer.Failed?))
  }

  ghost predicate LogKeeps(root: Seat, maxDec: nat, log: seq<Entry>) {
    forall i | 0 <= i < |log| :: EntryKeeps(root, maxDec, log[..i], log[i])
  }

  /** How the clone's fields mirror its log. */
  ghost predicate Mirrors<G>(p: Setup<G>, c: Clone<G>, log: seq<Entry>) {
    && (c.awaiting <==> c.pending.Some?)
    && (c.awaiting <==> RootOwed(p.root, log))
    && (c.awaiting ==> c.pending == LastCrossing(log))
    && (c.done <==> FinalSeen(log))
    && (c.rootApplied <==> MoveSeen(log))
    && c.decisions == Moves(log)
  }

  /** One drive of the clone, whatever it starts from. */
  predicate DriveKeeps<G>(p: Setup<G>, c: Clone<G>, r: Advanced<G>) {
    var owed := if r.crossed.Some? then r.crossed else c.pending;
    && r.clone.decisions == c.decisions && r.clone.rootApplied == c.rootApplied && r.clone.done == c.done
    && !r.answer.Skipped?
    && (Bootstrap(r.answer) <==> RootRow(p.root, r.answer) && owed.Some?)
    && (Bootstrap(r.answer) ==> r.answer.outcome == owed && !r.answer.truncated)
    && r.clone.pending == (if RootRow(p.root, r.answer) then None else owed)
    && (r.clone.awaiting <==> r.clone.pending.Some?)
    && (r.answer.Row? ==>
          (r.answer.truncated <==> r.answer.seat == p.root && !Bootstrap(r.answer) && p.maxDec > 0 && c.decisions >= p.maxDec))
    && (p.maxDec > 0 && c.decisions >= HardCap(p.maxDec) ==> r.answer.Terminated? || r.answer.Failed?)
  }

  predicate Armed<G>(c: Clone<G>, crossed: Option<Finished>) {
    (c.awaiting <==> c.pending.Some?) && (crossed.Some? ==> c.pending == crossed)
  }

  lemma SurfaceKeeps<G>(p: Setup<G>, c: Clone<G>, seat: Seat, crossed: Option<Finished>)
    requires Armed(c, crossed) && !(p.maxDec > 0 && c.decisions >= HardCap(p.maxDec))
    ensures DriveKeeps(p, c, Surface(p, c, seat, crossed)) && Surface(p, c, seat, crossed).crossed == crossed
  {
    hide Delta;
  }

  lemma StopKeeps<G>(p: Setup<G>, c: Clone<G>, crossed: Option<Finished>, rewards: Scores, outcome: Option<Finished>)
    requires Armed(c, crossed)
    ensures DriveKeeps(p, c, Ended(p, c, crossed)) && Ended(p, c, crossed).crossed == crossed
    ensures DriveKeeps(p, c, Advanced(c, Failed, crossed))
    ensures DriveKeeps(p, c, Advanced(c, Terminated(rewards, outcome), crossed))
  {
    hide Delta;
  }

  /** Crossing a boundary first, then driving on. */
  lemma CrossingKeeps<G>(p: Setup<G>, c: Clone<G>, armed: Clone<G>, r: Advanced<G>)
    requires armed == c.(pending := armed.pending, awaiting := true, game := armed.game) && r.crossed.Some?
    requires DriveKeeps(p, armed, r)
    ensures DriveKeeps(p, c, r)
  {
  }

  lemma {:induction false} AdvanceKeeps<G(!new)>(p: Setup<G>, c: Clone<G>, crossed: Option<Finished>)
    requires Lawful(p.world) && Armed(c, crossed)
    ensures DriveKeeps(p, c, Advance(p, c, crossed))
    ensures crossed.Some? ==> Advance(p, c, crossed).crossed.Some?
    decreases Rank(PhaseOf(p.world, c.game))
  {
    hide Delta, SeatOf, Surface, DriveKeeps, Ended;
    var w, g := p.world, c.game;
    StopKeeps(p, c, crossed, w.payouts(g), RoundOutcome(w, g));
    if PhaseOf(w, g) == HandOver {
      var armed := c.(pending := RoundOutcome(w, g), awaiting := true, game := w.ready(g).0);
      StopKeeps(p, armed, RoundOutcome(w, g), ZERO, None);
      if w.chongci {
        if w.ready(g).1 {
          AdvanceKeeps(p, armed, RoundOutcome(w, g));
        }
        CrossingKeeps(p, c, armed, Advance(p, c, crossed));
      }
    } else if PhaseOf(w, g) == InTurn || PhaseOf(w, g) == Window {
      var seat := SeatOf(w.desk(g), EVERYONE);
      if !(p.maxDec > 0 && c.decisions >= HardCap(p.maxDec)) {
        if seat.Some? {
          SurfaceKeeps(p, c, seat.value, crossed);
        } else if PhaseOf(w, g) == Window {
          AdvanceKeeps(p, c.(game := w.resolve(g)), crossed);
          ResolvedKeeps(p, c, c.(game := w.resolve(g)), Advance(p, c, crossed));
        }
      }
    }
  }

  lemma ResolvedKeeps<G>(p: Setup<G>, c: Clone<G>, c': Clone<G>, r: Advanced<G>)
    requires c' == c.(game := c'.game) && DriveKeeps(p, c', r)
    ensures DriveKeeps(p, c, r)
  {
  }

  lemma Extended(root: Seat, log: seq<Entry>, e: Entry)
    ensures LastCrossing(log + [e]) == if e.crossed.Some? then e.crossed else LastCrossing(log)
    ensures RootOwed(root, log + [e]) == (!RootRow(root, e.answer) && (e.crossed.Some? || RootOwed(root, log)))
    ensures FinalSeen(log + [e]) == (Final(e.answer) || FinalSeen(log)) && MoveSeen(log + [e]) == (e.played.Some? || MoveSeen(log))
    ensures Moves(log + [e]) == Moves(log) + if e.played.Some? then 1 else 0
  {
    assert (log + [e])[..|log|] == log;
  }

  lemma StepKeeps<G(!new)>(p: Setup<G>, c: Clone<G>, log: seq<Entry>, cmd: Command)
    requires Lawful(p.world) && Mirrors(p, c, log)
    ensures var (c', e) := Commanded(p, c, cmd);
            EntryKeeps(p.root, p.maxDec, log, e) && Mirrors(p, c', log + [e])
  {
    hide Advance, Lawful, RootOwed, LastCrossing, FinalSeen, MoveSeen, Moves, SeatOf;
    var (c', e) := Commanded(p, c, cmd);
    Extended(p.root, log, e);
    if cmd.ActionId? && !c.done && e.played.Some? && p.world.play(c.game, e.played.value, cmd.id).1 {
      var c1 := c.(rootApplied := true, decisions := c.decisions + 1, game := p.world.play(c.game, e.played.value, cmd.id).0);
      AdvanceKeeps(p, c1, None);
    }
  }

  lemma {:induction false} RunKeeps<G(!new)>(p: Setup<G>, g: G, cmds: seq<Command>)
    requires Lawful(p.world)
    ensures var (c, log) := Run(p, Opened(p, g), cmds);
            Mirrors(p, c, log) && LogKeeps(p.root, p.maxDec, log)
    decreases |cmds|
  {
    if cmds != [] {
      hide Mirrors, EntryKeeps, Lawful, Commanded, Opened;
      var last := |cmds| - 1;
      var (c1, log) := Run(p, Opened(p, g), cmds[..last]);
      RunKeeps(p, g, cmds[..last]);
      StepKeeps(p, c1, log, cmds[last]);
      LogGrows(p.root, p.maxDec, log, Commanded(p, c1, cmds[last]).1);
    }
  }

  lemma LogGrows(root: Seat, maxDec: nat, log: seq<Entry>, e: Entry)
    requires LogKeeps(root, maxDec, log) && EntryKeeps(root, maxDec, log, e)
    ensures LogKeeps(root, maxDec, log + [e])
  {
    hide EntryKeeps;
    assert forall i | 0 <= i < |log| :: (log + [e])[..i] == log[..i];
    assert (log + [e])[..|log|] == log;
  }

  // ---- What the answers say of the game ----

  /** A pending outcome is that of the hand just left. */
  ghost predicate PendingIsLatest<G>(w: World<G>, c: Clone<G>) {
    c.pending.Some? && (PhaseOf(w, c.game) == InTurn || PhaseOf(w, c.game) == Window) ==> IsOfLastHand(w, c.game, c.pending.value)
  }

  /** Where a drive that answered has stopped: a row is the decision the game waits for, with the rewards since the last
      answer and, on a bootstrap row, the outcome of the hand just left; a terminal answer comes when the match is over, or in
      classic play the hand; and a drive fails only at the hard cap, between hands, or with nobody to act. */
  predicate DriveStops<G>(p: Setup<G>, c: Clone<G>, r: Advanced<G>) {
    var w, g := p.world, r.clone.game;
    match r.answer
    case Skipped => false
    case Row(seat, rewards, outcome, _) =>
      && (PhaseOf(w, g) == InTurn || PhaseOf(w, g) == Window) && SeatOf(w.desk(g), EVERYONE) == Some(seat)
      && Plus(c.lastScores, rewards) == w.scores(g) == r.clone.lastScores
      && (outcome.Some? ==> IsOfLastHand(w, g, outcome.value))
    case Terminated(rewards, outcome) =>
      if PhaseOf(w, g) == MatchOver then
        && Plus(c.lastScores, rewards) == w.scores(g) == r.clone.lastScores
        && outcome.Some? && (if r.clone.pending.Some? then outcome == r.clone.pending else IsOfThisHand(w, g, outcome.value))
      else
        && PhaseOf(w, g) == HandOver && !w.chongci && rewards == w.payouts(g) && r.clone.lastScores == c.lastScores
        && outcome.Some? && IsOfThisHand(w, g, outcome.value)
    case Failed =>
      && r.clone.lastScores == c.lastScores
      && (match PhaseOf(w, g)
          case MatchOver => false
          case HandOver => w.chongci
          case _ => (p.maxDec > 0 && c.decisions >= 2 * p.maxDec + 16) || SeatOf(w.desk(g), EVERYONE).None?)
  }

  lemma HasResult<G(!new)>(w: World<G>, g: G)
    requires Lawful(w) && (PhaseOf(w, g) == HandOver || PhaseOf(w, g) == MatchOver)
    ensures RoundOutcome(w, g).Some? && IsOfThisHand(w, g, RoundOutcome(w, g).value)
  {
  }

  lemma ReadyIsLatest<G(!new)>(w: World<G>, g: G)
    requires Lawful(w) && PhaseOf(w, g) == HandOver
    ensures w.ready(g).1 ==> PhaseOf(w, w.ready(g).0) == InTurn && IsOfLastHand(w, w.ready(g).0, RoundOutcome(w, g).value)
    ensures !w.ready(g).1 ==> PhaseOf(w, w.ready(g).0) == HandOver
  {
    HasResult(w, g);
    assert w.ready(g).1 ==> LeavesBehind(w.past(g), w.result(g), w.past(w.ready(g).0));
  }

  lemma ResolveKeepsHand<G(!new)>(w: World<G>, g: G)
    requires Lawful(w)
    ensures w.hand(w.resolve(g)) == w.hand(g) && w.past(w.resolve(g)) == w.past(g)
    ensures PhaseOf(w, g) == Window ==> PhaseOf(w, w.resolve(g)) != Window
  {
  }

  lemma PlayKeepsHand<G(!new)>(w: World<G>, g: G, seat: Seat, id: nat)
    requires Lawful(w)
    ensures w.hand(w.play(g, seat, id).0) == w.hand(g) && w.past(w.play(g, seat, id).0) == w.past(g)
  {
  }

  lemma SurfaceStops<G>(p: Setup<G>, c: Clone<G>, seat: Seat, crossed: Option<Finished>)
    requires PendingIsLatest(p.world, c) && (PhaseOf(p.world, c.game) == InTurn || PhaseOf(p.world, c.game) == Window)
    requires SeatOf(p.world.desk(c.game), EVERYONE) == Some(seat)
    ensures var r := Surface(p, c, seat, crossed);
            DriveStops(p, c, r) && PendingIsLatest(p.world, r.clone) && r.clone.rootApplied == c.rootApplied
  {
    hide Delta, Plus, SeatOf, IsOfLastHand;
    DeltaPlus(p.world.scores(c.game), c.lastScores);
  }

  lemma EndStops<G(!new)>(p: Setup<G>, c: Clone<G>, crossed: Option<Finished>)
    requires Lawful(p.world) && PendingIsLatest(p.world, c)
    ensures PhaseOf(p.world, c.game) == MatchOver ==> DriveStops(p, c, Ended(p, c, crossed)) && PendingIsLatest(p.world, Ended(p, c, crossed).clone)
    ensures PhaseOf(p.world, c.game) == HandOver && !p.world.chongci ==>
              DriveStops(p, c, Advanced(c, Terminated(p.world.payouts(c.game), RoundOutcome(p.world, c.game)), crossed))
  {
    DeltaPlus(p.world.scores(c.game), c.lastScores);
    var w, g := p.world, c.game;
    if PhaseOf(w, g) == HandOver || PhaseOf(w, g) == MatchOver {
      HasResult(w, g);
    }
    hide Delta, Plus, SeatOf, Lawful, IsOfLastHand, IsOfThisHand, RoundOutcome;
  }

  lemma SeatStops<G>(p: Setup<G>, c: Clone<G>, crossed: Option<Finished>)
    requires PendingIsLatest(p.world, c) && (PhaseOf(p.world, c.game) == InTurn || PhaseOf(p.world, c.game) == Window)
    ensures var seat := SeatOf(p.world.desk(c.game), EVERYONE);
            seat.Some? ==> var r := Surface(p, c, seat.value, crossed);
                           DriveStops(p, c, r) && PendingIsLatest(p.world, r.clone) && r.clone.rootApplied == c.rootApplied
  {
    hide SeatOf, Surface;
    var seat := SeatOf(p.world.desk(c.game), EVERYONE);
    if seat.Some? {
      SurfaceStops(p, c, seat.value, crossed);
    }
  }

  lemma {:induction false} AdvanceStops<G(!new)>(p: Setup<G>, c: Clone<G>, crossed: Option<Finished>)
    requires Lawful(p.world) && PendingIsLatest(p.world, c)
    ensures var r := Advance(p, c, crossed);
            DriveStops(p, c, r) && PendingIsLatest(p.world, r.clone) && r.clone.rootApplied == c.rootApplied
    decreases Rank(PhaseOf(p.world, c.game))
  {
    hide Delta, Plus, SeatOf, Lawful, IsOfLastHand, IsOfThisHand, Surface, RoundOutcome;
    var w, g := p.world, c.game;
    EndStops(p, c, crossed);
    match PhaseOf(w, g)
    case MatchOver =>
    case HandOver =>
      ReadyIsLatest(w, g);
      if w.chongci && w.ready(g).1 {
        var armed := c.(pending := RoundOutcome(w, g), awaiting := true, game := w.ready(g).0);
        AdvanceStops(p, armed, RoundOutcome(w, g));
        SameStart(p, c, armed, Advance(p, c, crossed));
      }
    case InTurn =>
      SeatStops(p, c, crossed);
    case Window =>
      SeatStops(p, c, crossed);
      if !(p.maxDec > 0 && c.decisions >= HardCap(p.maxDec)) && SeatOf(w.desk(g), EVERYONE).None? {
        ResolveKeepsHand(w, g);
        ResolvedIsLatest(w, c);
        var closed := c.(game := w.resolve(g));
        AdvanceStops(p, closed, crossed);
        SameStart(p, c, closed, Advance(p, closed, crossed));
      }
  }

  lemma SameStart<G>(p: Setup<G>, c: Clone<G>, c': Clone<G>, r: Advanced<G>)
    requires DriveStops(p, c', r) && c'.lastScores == c.lastScores && c'.decisions == c.decisions
    ensures DriveStops(p, c, r)
  {
    hide Plus, SeatOf, IsOfLastHand, IsOfThisHand;
  }

  lemma ResolvedIsLatest<G(!new)>(w: World<G>, c: Clone<G>)
    requires Lawful(w) && PendingIsLatest(w, c) && PhaseOf(w, c.game) == Window
    ensures PendingIsLatest(w, c.(game := w.resolve(c.game)))
  {
    ResolveKeepsHand(w, c.game);
  }

  predicate Rooted<G>(c: Clone<G>) {
    c.rootApplied || c.pending.None?
  }

  lemma PlayedIsLatest<G(!new)>(p: Setup<G>, c: Clone<G>, c1: Clone<G>, seat: Seat, id: nat)
    requires Lawful(p.world) && PendingIsLatest(p.world, c) && Rooted(c) && c1.pending == c.pending
    requires c.rootApplied ==> SeatOf(p.world.desk(c.game), EVERYONE) == Some(seat)
    requires c1.game == p.world.play(c.game, seat, id).0
    ensures PendingIsLatest(p.world, c1)
  {
    PlayKeepsHand(p.world, c.game, seat, id);
  }

  /** One command of a search clone: what it plays is an action of the seat the game waits for (of the root seat, the first
      time), and its answer describes the game it leads to. */
  lemma StepStops<G(!new)>(p: Setup<G>, c: Clone<G>, cmd: Command)
    requires Lawful(p.world) && PendingIsLatest(p.world, c) && Rooted(c)
    ensures var (c', e) := Commanded(p, c, cmd);
            && PendingIsLatest(p.world, c') && Rooted(c')
            && (e.played.Some? ==>
                  && cmd.ActionId? && p.world.decodes(c.game, e.played.value, cmd.id)
                  && e.played == (if c.rootApplied then SeatOf(p.world.desk(c.game), EVERYONE) else Some(p.root))
                  && (!p.world.play(c.game, e.played.value, cmd.id).1 ==> e.answer.Failed?)
                  && (p.world.play(c.game, e.played.value, cmd.id).1 ==>
                        DriveStops(p, c.(decisions := c.decisions + 1), Advanced(c', e.answer, e.crossed))))
            && (e.played.None? ==> c' == c && (e.answer.Failed? || e.answer.Skipped?))
            && (e.answer.Failed? ==> c'.lastScores == c.lastScores)
  {
    hide Advance, Lawful, SeatOf, Plus, IsOfLastHand, PendingIsLatest;
    var (c', e) := Commanded(p, c, cmd);
    if e.played.Some? {
      var (next, ok) := p.world.play(c.game, e.played.value, cmd.id);
      var c1 := c.(rootApplied := true, decisions := c.decisions + 1, game := next);
      PlayedIsLatest(p, c, c1, e.played.value, cmd.id);
      if ok {
        var r := Advance(p, c1, None);
        AdvanceStops(p, c1, None);
        SameStart(p, c.(decisions := c.decisions + 1), c1, r);
        DoneDoesNotMatter(p.world, r.clone, c');
      }
    }
  }

  lemma DoneDoesNotMatter<G>(w: World<G>, c: Clone<G>, c': Clone<G>)
    requires PendingIsLatest(w, c) && c'.game == c.game && c'.pending == c.pending
    ensures PendingIsLatest(w, c')
  {
  }

  function RewardOf(a: Answer): Scores {
    match a
    case Row(_, rewards, _, _) => rewards
    case Terminated(rewards, _) => rewards
    case _ => ZERO
  }

  function Total(log: seq<Entry>): Scores {
    if log == [] then ZERO else Plus(Total(log[..|log| - 1]), RewardOf(log[|log| - 1].answer))
  }

  lemma TotalGrows(log: seq<Entry>, e: Entry)
    ensures Total(log + [e]) == Plus(Total(log), RewardOf(e.answer))
  {
    assert (log + [e])[..|log|] == log;
  }

  /** Chongci: over every life of a clone the rewards it handed out sum to the scores as of its last answer minus those it
      was opened with; after a row or a terminal answer these are the scores of its game. */
  lemma {:induction false} RewardsTelescope<G(!new)>(p: Setup<G>, g: G, cmds: seq<Command>)
    requires Lawful(p.world) && p.world.chongci
    ensures var (c, log) := Run(p, Opened(p, g), cmds);
            && PendingIsLatest(p.world, c) && Rooted(c)
            && Plus(p.world.scores(g), Total(log)) == c.lastScores
            && (log != [] && (log[|log| - 1].answer.Row? || log[|log| - 1].answer.Terminated?) ==>
                  Plus(p.world.scores(g), Total(log)) == p.world.scores(c.game))
    decreases |cmds|
  {
    hide Lawful, Commanded, Plus, PendingIsLatest, Total;
    var start := p.world.scores(g);
    DeltaPlus(start, start);
    if cmds == [] {
      NothingPending(p, g);
    } else {
      var last := |cmds| - 1;
      RewardsTelescope(p, g, cmds[..last]);
      var (c, log) := Run(p, Opened(p, g), cmds[..last]);
      StepStops(p, c, cmds[last]);
      var e := Commanded(p, c, cmds[last]).1;
      TotalGrows(log, e);
      DeltaPlus(c.lastScores, c.lastScores);
      PlusIsAssociative(start, Total(log), RewardOf(e.answer));
      assert (log + [e])[|log|] == e;
    }
  }

  lemma NothingPending<G>(p: Setup<G>, g: G)
    ensures PendingIsLatest(p.world, Opened(p, g)) && Total([]) == ZERO
  {
  }

  /** The clone as the pool keeps it, its fields updated in place by each command. */
  class SearchClone<G(!new)> {
    const setup: Setup<G>
    var game: G
    var decisions: nat
    var done: bool
    var rootApplied: bool
    var awaitingBootstrap: bool
    var pendingOutcome: Option<Finished>
    var lastScores: Scores

    ghost function Now(): Clone<G>
      reads this
    {
      Clone(game, decisions, done, rootApplied, awaitingBootstrap, pendingOutcome, lastScores)
    }

    constructor (setup: Setup<G>, g: G)
      ensures this.setup == setup && Now() == Opened(setup, g)
    {
      this.setup, game := setup, g;
      decisions, done, rootApplied, awaitingBootstrap, pendingOutcome := 0, false, false, false, None;
      lastScores := setup.world.scores(g);
    }

    method ScoreDeltaReward() returns (delta: Scores)
      modifies this`lastScores
      ensures delta == Delta(setup.world.scores(game), old(lastScores)) && lastScores == setup.world.scores(game)
    {
      var cur := setup.world.scores(game);
      delta := Delta(cur, lastScores);
      lastScores := cur;
    }

    method AdvanceClone() returns (answer: Answer, ghost crossed: Option<Finished>)
      requires Lawful(setup.world)
      modifies this
      ensures Advanced(Now(), answer, crossed) == Advance(setup, old(Now()), None)
    {
      hide Lawful, Delta, SeatOf, Surface, Ended;
      var w := setup.world;
      crossed := None;
      ghost var start := Now();
      while true
        invariant Advance(setup, Now(), crossed) == Advance(setup, start, None)
        decreases Rank(PhaseOf(w, game))
      {
        var phase := w.desk(game).phase;
        if phase == MatchOver {
          answer := EndRollout();
          return;
        }
        if phase == HandOver {
          if !w.chongci {
            return Terminated(w.payouts(game), RoundOutcome(w, game)), crossed;
          }
          ReadyLeavesTheEnd(w, game);
          pendingOutcome := RoundOutcome(w, game);
          crossed := pendingOutcome;
          awaitingBootstrap := true;
          var (next, ok) := w.ready(game);
          game := next;
          if !ok {
            return Failed, crossed;
          }
          continue;
        }
        if setup.maxDec > 0 && decisions >= HardCap(setup.maxDec) {
          return Failed, crossed;
        }
        var seat := CurrentSeat(w.desk(game), EVERYONE);
        if seat.Some? {
          answer := SurfaceRow(seat.value);
          return;
        }
        if phase != Window {
          return Failed, crossed;
        }
        ResolveLeavesTheWindow(w, game);
        game := w.resolve(game);
      }
    }

    static lemma ReadyLeavesTheEnd(w: World<G>, g: G)
      requires Lawful(w) && PhaseOf(w, g) == HandOver
      ensures w.ready(g).1 ==> Rank(PhaseOf(w, w.ready(g).0)) < Rank(PhaseOf(w, g))
    {
    }

    static lemma ResolveLeavesTheWindow(w: World<G>, g: G)
      requires Lawful(w) && PhaseOf(w, g) == Window
      ensures Rank(PhaseOf(w, w.resolve(g))) < Rank(PhaseOf(w, g))
    {
    }

    method EndRollout() returns (answer: Answer)
      modifies this`lastScores
      ensures forall crossed :: Advanced(Now(), answer, crossed) == Ended(setup, old(Now()), crossed)
    {
      hide Delta;
      var outcome := pendingOutcome;
      if outcome.None? {
        outcome := RoundOutcome(setup.world, game);
      }
      var rewards := ScoreDeltaReward();
      answer := Terminated(rewards, outcome);
    }

    method SurfaceRow(seat: Seat) returns (answer: Answer)
      modifies this`lastScores, this`awaitingBootstrap, this`pendingOutcome
      ensures forall crossed :: Advanced(Now(), answer, crossed) == Surface(setup, old(Now()), seat, crossed)
    {
      hide Delta;
      var isRoot := seat == setup.root;
      var rewards := ScoreDeltaReward();
      if isRoot && awaitingBootstrap {
        var outcome := pendingOutcome;
        awaitingBootstrap := false;
        pendingOutcome := None;
        return Row(seat, rewards, outcome, false);
      }
      if isRoot && setup.maxDec > 0 && decisions >= setup.maxDec {
        return Row(seat, rewards, None, true);
      }
      return Row(seat, rewards, None, false);
    }

    method StepClone(id: nat) returns (answer: Answer, ghost entry: Entry)
      requires Lawful(setup.world) && !done
      modifies this
      ensures entry.answer == answer && (Now(), entry) == Stepped(setup, old(Now()), id)
    {
      hide Lawful, Advance, SeatOf;
      var w := setup.world;
      var acting := CurrentSeat(w.desk(game), EVERYONE);
      var seat := setup.root;
      if rootApplied {
        if acting.None? {
          return Failed, Entry(None, Failed, None, decisions);
        }
        seat := acting.value;
      }
      if !w.decodes(game, seat, id) {
        return Failed, Entry(None, Failed, None, decisions);
      }
      rootApplied := true;
      decisions := decisions + 1;
      var (next, ok) := w.play(game, seat, id);
      game := next;
      if !ok {
        return Failed, Entry(Some(seat), Failed, None, decisions);
      }
      ghost var crossed;
      ghost var made := decisions;
      answer, crossed := AdvanceClone();
      if Final(answer) {
        done := true;
      }
      entry := Entry(Some(seat), answer, crossed, made);
    }

    /** One command of a round; the answers of a whole life are those the contract speaks of. */
    method StepOne(cmd: Command) returns (answer: Answer, ghost entry: Entry)
      requires Lawful(setup.world)
      modifies this
      ensures entry.answer == answer && (Now(), entry) == Commanded(setup, old(Now()), cmd)
    {
      hide Stepped, Lawful;
      match cmd
      case ResetSeed => return Failed, Entry(None, Failed, None, decisions);
      case Skip => return Skipped, Entry(None, Skipped, None, decisions);
      case ActionId(id) =>
        if done {
          return Skipped, Entry(None, Skipped, None, decisions);
        }
        answer, entry := StepClone(id);
    }
  }

  lemma {:induction false} FinalStaysSeen(log: seq<Entry>, i: nat)
    requires i < |log| && Final(log[i].answer)
    ensures FinalSeen(log)
    decreases |log|
  {
    if i < |log| - 1 {
      FinalStaysSeen(log[..|log| - 1], i);
    }
  }

  /** The bootstrap contract over every life of a clone: each entry is as EntryKeeps says; the clone awaits a bootstrap row
      exactly while an outcome is pending; and at most one answer is final, so there is at most one bootstrap row. */
  lemma BootstrapContract<G(!new)>(p: Setup<G>, g: G, cmds: seq<Command>)
    requires Lawful(p.world)
    ensures var (c, log) := Run(p, Opened(p, g), cmds);
            && LogKeeps(p.root, p.maxDec, log)
            && (c.awaiting <==> c.pending.Some?)
            && (forall i, j | 0 <= i < j < |log| && Final(log[i].answer) :: !Final(log[j].answer) && log[j].played.None?)
  {
    hide Run, Lawful, Opened, RootOwed, LastCrossing, FinalSeen, MoveSeen, Moves, BootstrapsRight;
    RunKeeps(p, g, cmds);
    var log := Run(p, Opened(p, g), cmds).1;
    forall i, j | 0 <= i < j < |log| && Final(log[i].answer) ensures !Final(log[j].answer) && log[j].played.None? {
      assert EntryKeeps(p.root, p.maxDec, log[..j], log[j]);
      assert log[..j][i] == log[i];
      FinalStaysSeen(log[..j], i);
    }
  }
}
