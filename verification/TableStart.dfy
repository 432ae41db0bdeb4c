/** Starting a private table with its lock released during the warm-up, under every interleaving. */
module TableStart {
  import opened Hand
  import opened PrivateTables

  /** What a seat contributes to the signature; names are not part of it. */
  datatype SeatSign = SeatSign(kind: nat, user: nat, difficulty: Difficulty, agent: string)

  function SignOf(c: SeatConfig): SeatSign {
    match c
    case Unset => SeatSign(0, 0, Easy, "")
    case Empty => SeatSign(1, 0, Easy, "")
    case Human(user, _) => SeatSign(2, user, Easy, "")
    case Bot(difficulty, agent) => SeatSign(3, 0, difficulty, agent)
  }

  function Signature(seats: Seats): seq<SeatSign> {
    [SignOf(seats[0]), SignOf(seats[1]), SignOf(seats[2]), SignOf(seats[3])]
  }

  /** The agents a table's learned bots play, an unnamed one standing for the default. */
  function AgentsOf(signs: seq<SeatSign>, fallback: string): set<string> {
    set c | c in signs && c.kind == 3 && c.difficulty == Rl :: if c.agent == "" then fallback else c.agent
  }

  /** One Start call. While it is building or has a match row it holds the table lock; policies are named by numbers. */
  datatype Attempt =
    | Begun(byHost: bool)
    | Warming(signs: seq<SeatSign>, warmed: set<string>)
    | Building(signs: seq<SeatSign>, warmed: set<string>, built: set<nat>, next: nat)
    | Persisted(signs: seq<SeatSign>, warmed: set<string>, built: set<nat>)
    | Registered(signs: seq<SeatSign>, warmed: set<string>)
    | Started(signs: seq<SeatSign>, warmed: set<string>)
    | Refused

  /** A live room and the policies it will close. */
  datatype Room = Room(attempt: nat, policies: set<nat>)

  /** alive and closed are the policies alive and closed so far; rows holds the starts with a match row. */
  datatype Server = Server(
    fallback: string,
    seats: Seats,
    started: Option<nat>,
    holder: Option<nat>,
    attempts: seq<Attempt>,
    draining: bool,
    room: Option<Room>,
    rows: set<nat>,
    made: nat,
    alive: set<nat>,
    closed: set<nat>)

  datatype Step =
    | Prepare(a: nat)
    | Warm(a: nat, agent: string, ok: bool)
    | Relock(a: nat)
    | BuildSeat(a: nat, ok: bool)
    | Persist(a: nat, ok: bool)
    | Register(a: nat)
    | Publish(a: nat)
    | Join(user: nat, name: string)
    | Configure(seat: nat, kind: SeatKind, difficulty: Difficulty, agent: string)
    | Drain
    | Shutdown

  function Set(s: Server, a: nat, t: Attempt): Server
    requires a < |s.attempts|
  {
    s.(attempts := s.attempts[a := t])
  }

  predicate Startable(s: Server, t: Attempt) {
    s.started.None? && (t.Begun? ==> t.byHost) && Full(s.seats)
  }

  /** Gives up under the lock: whatever was built is closed and the lock released. */
  function Abort(s: Server, a: nat, built: set<nat>): Server
    requires a < |s.attempts|
  {
    Set(s, a, Refused).(holder := None, alive := s.alive - built, closed := s.closed + built)
  }

  /** A seat of a start in progress: nothing for a human, a new policy for a bot, a refusal otherwise. */
  function BuildNext(s: Server, a: nat, ok: bool): Server
    requires a < |s.attempts| && s.attempts[a].Building? && s.attempts[a].next < 4
  {
    var t := s.attempts[a];
    var c := s.seats[t.next];
    if c.Human? then Set(s, a, t.(next := t.next + 1))
    else if c.Bot? && ok then
      Set(s, a, t.(built := t.built + {s.made}, next := t.next + 1)).(made := s.made + 1, alive := s.alive + {s.made})
    else Abort(s, a, t.built)
  }

  function StartStep(s: Server, a: nat, step: Step): Option<Server>
    requires a < |s.attempts|
  {
    var t := s.attempts[a];
    match step
    case Prepare(_) =>
      if !t.Begun? || s.holder.Some? then None
      else if !Startable(s, t) then Some(Set(s, a, Refused))
      else Some(Set(s, a, Warming(Signature(s.seats), {})))
    case Warm(_, agent, ok) =>
      if !t.Warming? || agent !in AgentsOf(t.signs, s.fallback) then None
      else if !ok then Some(Set(s, a, Refused))
      else Some(Set(s, a, Warming(t.signs, t.warmed + {agent})))
    case Relock(_) =>
      if !t.Warming? || s.holder.Some? || !(AgentsOf(t.signs, s.fallback) <= t.warmed) then None
      else if !Startable(s, t) || Signature(s.seats) != t.signs then Some(Set(s, a, Refused))
      else Some(Set(s, a, Building(t.signs, t.warmed, {}, 0)).(holder := Some(a)))
    case BuildSeat(_, ok) =>
      if !t.Building? || t.next >= 4 then None else Some(BuildNext(s, a, ok))
    case Persist(_, ok) =>
      if !t.Building? || t.next < 4 then None
      else if !ok then Some(Abort(s, a, t.built))
      else Some(Set(s, a, Persisted(t.signs, t.warmed, t.built)).(rows := s.rows + {a}))
    case Register(_) =>
      if !t.Persisted? then None
      else if s.draining then Some(Abort(s, a, t.built).(rows := s.rows - {a}))
      else Some(Set(s, a, Registered(t.signs, t.warmed)).(room := Some(Room(a, t.built))))
    case Publish(_) =>
      if !t.Registered? then None
      else Some(Set(s, a, Started(t.signs, t.warmed)).(started := Some(a), holder := None))
    case _ => None
  }

  function Next(s: Server, step: Step): Option<Server> {
    match step
    case Join(user, name) =>
      if s.holder.Some? || s.started.Some? then None
      else
        var (seats, got) := Claimed(s.seats, user, name);
        Some(s.(seats := if got.Some? then Normalized(seats) else seats))
    case Configure(seat, kind, difficulty, agent) =>
      if s.holder.Some? || s.started.Some? then None
      else Some(s.(seats := SeatSet(s.seats, seat, kind, difficulty, agent).0))
    case Drain => Some(s.(draining := true))
    case Shutdown =>
      if s.room.None? then None
      else Some(s.(room := None, alive := s.alive - s.room.value.policies, closed := s.closed + s.room.value.policies))
    case _ => if step.a < |s.attempts| then StartStep(s, step.a, step) else None
  }

  predicate Run(s: Server, steps: seq<Step>, s': Server)
    decreases |steps|
  {
    if steps == [] then s' == s
    else
      var next := Next(s, steps[0]);
      next.Some? && Run(next.value, steps[1..], s')
  }

  /** A table as it was created, with any number of Start calls on the way, some by the host. */
  predicate Fresh(s: Server) {
    && s.started.None? && s.holder.None? && !s.draining && s.room.None? && s.rows == {}
    && s.made == 0 && s.alive == {} && s.closed == {}
    && forall a | 0 <= a < |s.attempts| :: s.attempts[a].Begun?
  }

  // ---- Invariant ----

  predicate UnderLock(t: Attempt) {
    t.Building? || t.Persisted? || t.Registered?
  }

  function BuiltBy(t: Attempt): set<nat> {
    if t.Building? || t.Persisted? then t.built else {}
  }

  /** Policies a start in progress still has to answer for. */
  function InHand(s: Server): set<nat> {
    if s.holder.Some? && s.holder.value < |s.attempts| then BuiltBy(s.attempts[s.holder.value]) else {}
  }

  function Owned(s: Server): set<nat> {
    if s.room.Some? then s.room.value.policies else {}
  }

  /** The lock has the one holder it says; from re-locking on the seats are those the warm-up was computed from. */
  predicate AttemptFits(t: Attempt, a: nat, holder: Option<nat>, started: Option<nat>, seats: Seats, fallback: string) {
    && (UnderLock(t) <==> holder == Some(a))
    && (t.Started? <==> started == Some(a))
    && (UnderLock(t) || t.Started? ==> t.signs == Signature(seats) && AgentsOf(t.signs, fallback) <= t.warmed && Full(seats))
  }

  ghost predicate LockFits(s: Server) {
    && (forall a: nat | a < |s.attempts| :: AttemptFits(s.attempts[a], a, s.holder, s.started, s.seats, s.fallback))
    && (s.holder.Some? ==> s.holder.value < |s.attempts|)
    && (s.started.Some? ==> s.holder.None? && s.started.value < |s.attempts|)
  }

  ghost predicate RoomFits(s: Server) {
    && (s.room.Some? ==> s.room.value.attempt < |s.attempts|
                         && (s.attempts[s.room.value.attempt].Registered? || s.attempts[s.room.value.attempt].Started?))
    && (forall a: nat :: a in s.rows <==> a < |s.attempts| && (s.attempts[a].Persisted? || s.attempts[a].Registered? || s.attempts[a].Started?))
  }

  /** Every policy ever built is alive in exactly one owner's hands or closed. */
  ghost predicate PoliciesFit(s: Server) {
    && InHand(s) !! Owned(s) && s.alive == InHand(s) + Owned(s) && s.alive !! s.closed
    && (forall p: nat :: p in s.alive || p in s.closed <==> p < s.made)
  }

  ghost predicate Inv(s: Server) {
    LockFits(s) && RoomFits(s) && PoliciesFit(s)
  }

  /** The server after attempt a moved: nobody else's attempt changed, and the lock went between a and nobody. */
  predicate Moved(s: Server, s': Server, a: nat)
    requires a < |s.attempts|
  {
    && s'.seats == s.seats && s'.fallback == s.fallback && |s'.attempts| == |s.attempts|
    && s'.attempts == s.attempts[a := s'.attempts[a]]
    && (s'.holder == s.holder || (s.holder.None? && s'.holder == Some(a)) || (s.holder == Some(a) && s'.holder.None?))
    && (s'.started == s.started || (s.started.None? && s'.started == Some(a)))
  }

  lemma StepMoves(s: Server, a: nat, step: Step)
    requires LockFits(s) && a < |s.attempts| && StartStep(s, a, step).Some?
    ensures var s' := StartStep(s, a, step).value;
            && Moved(s, s', a) && AttemptFits(s'.attempts[a], a, s'.holder, s'.started, s.seats, s.fallback)
            && (s'.started.Some? ==> s'.holder.None?)
  {
    hide Signature, AgentsOf, Full, BuildNext;
    var s' := StartStep(s, a, step).value;
    assert AttemptFits(s.attempts[a], a, s.holder, s.started, s.seats, s.fallback);
    if step.BuildSeat? {
      BuildMoves(s, a, step.ok);
    }
  }

  lemma BuildMoves(s: Server, a: nat, ok: bool)
    requires LockFits(s) && a < |s.attempts| && s.attempts[a].Building? && s.attempts[a].next < 4
    ensures var s' := BuildNext(s, a, ok);
            Moved(s, s', a) && AttemptFits(s'.attempts[a], a, s'.holder, s'.started, s.seats, s.fallback) && s'.started == s.started
  {
    hide Signature, AgentsOf, Full;
    assert AttemptFits(s.attempts[a], a, s.holder, s.started, s.seats, s.fallback);
  }

  lemma OthersFit(t: Attempt, b: nat, a: nat, s: Server, s': Server)
    requires b != a && a < |s.attempts| && Moved(s, s', a) && AttemptFits(t, b, s.holder, s.started, s.seats, s.fallback)
    ensures AttemptFits(t, b, s'.holder, s'.started, s'.seats, s'.fallback)
  {
    hide Signature, AgentsOf, Full;
  }

  lemma StartStepKeepsLock(s: Server, a: nat, step: Step)
    requires LockFits(s) && a < |s.attempts| && StartStep(s, a, step).Some?
    ensures LockFits(StartStep(s, a, step).value)
  {
    hide StartStep, AttemptFits;
    var s' := StartStep(s, a, step).value;
    StepMoves(s, a, step);
    forall b: nat | b < |s.attempts| ensures AttemptFits(s'.attempts[b], b, s'.holder, s'.started, s'.seats, s'.fallback) {
      if b != a {
        OthersFit(s.attempts[b], b, a, s, s');
      }
    }
  }

  lemma StartStepKeepsRoom(s: Server, a: nat, step: Step)
    requires LockFits(s) && RoomFits(s) && a < |s.attempts| && StartStep(s, a, step).Some?
    ensures RoomFits(StartStep(s, a, step).value)
  {
    hide Signature, AgentsOf, Full, AttemptFits;
    var s' := StartStep(s, a, step).value;
    StepMoves(s, a, step);
    if s.room.Some? {
      RoomIsOfTheStart(s, a);
    }
    assert forall b: nat | b < |s.attempts| && b != a :: s'.attempts[b] == s.attempts[b];
  }

  /** A registered room belongs to the start that holds the lock, or to the one that succeeded. */
  lemma RoomIsOfTheStart(s: Server, a: nat)
    requires LockFits(s) && RoomFits(s) && s.room.Some? && a < |s.attempts|
    ensures !s.attempts[a].Building? && !s.attempts[a].Persisted?
  {
    var b := s.room.value.attempt;
    assert AttemptFits(s.attempts[b], b, s.holder, s.started, s.seats, s.fallback);
    assert AttemptFits(s.attempts[a], a, s.holder, s.started, s.seats, s.fallback);
  }

  /** What a step does to the policies: a start in hand may gain a new one, give them to its room, or close them. */
  lemma StartStepKeepsPolicies(s: Server, a: nat, step: Step)
    requires Inv(s) && a < |s.attempts| && StartStep(s, a, step).Some?
    ensures PoliciesFit(StartStep(s, a, step).value)
  {
    hide Signature, AgentsOf, Full, RoomFits;
    var t := s.attempts[a];
    var s' := StartStep(s, a, step).value;
    assert AttemptFits(t, a, s.holder, s.started, s.seats, s.fallback);
    if UnderLock(t) {
      assert InHand(s) == BuiltBy(t);
      if t.Persisted? {
        assert s.room.None? by { NoRoomYet(s, a); }
      }
      HeldStepKeepsPolicies(s, a, step);
    } else {
      StepMoves(s, a, step);
      assert s'.alive == s.alive && s'.closed == s.closed && s'.made == s.made && s'.room == s.room;
      assert InHand(s') == InHand(s) by { SameHand(s, s', a); }
    }
  }

  lemma SameHand(s: Server, s': Server, a: nat)
    requires LockFits(s) && a < |s.attempts| && !UnderLock(s.attempts[a]) && Moved(s, s', a)
    requires s'.holder == Some(a) ==> BuiltBy(s'.attempts[a]) == {}
    ensures InHand(s') == InHand(s)
  {
    assert AttemptFits(s.attempts[a], a, s.holder, s.started, s.seats, s.fallback);
  }

  lemma HeldStepKeepsPolicies(s: Server, a: nat, step: Step)
    requires PoliciesFit(s) && a < |s.attempts| && StartStep(s, a, step).Some?
    requires UnderLock(s.attempts[a]) && s.holder == Some(a) && (s.attempts[a].Persisted? ==> s.room.None?)
    ensures PoliciesFit(StartStep(s, a, step).value)
  {
    hide Signature, AgentsOf, Full, Owned;
    var s' := StartStep(s, a, step).value;
    assert s'.room == s.room ==> Owned(s') == Owned(s) by { SameOwner(s, s'); }
    if step.Register? && !s.draining {
      assert Owned(s) == {} && Owned(s') == s.attempts[a].built by { NewOwner(s, s'); }
    }
  }

  lemma SameOwner(s: Server, s': Server)
    ensures s'.room == s.room ==> Owned(s') == Owned(s)
  {
  }

  lemma NewOwner(s: Server, s': Server)
    requires s.room.None? && s'.room.Some?
    ensures Owned(s) == {} && Owned(s') == s'.room.value.policies
  {
  }

  lemma NoRoomYet(s: Server, a: nat)
    requires Inv(s) && a < |s.attempts| && s.attempts[a].Persisted?
    ensures s.room.None?
  {
    if s.room.Some? {
      RoomIsOfTheStart(s, a);
    }
  }

  lemma SeatChangeKeeps(s: Server, seats: Seats)
    requires Inv(s) && s.holder.None? && s.started.None?
    ensures Inv(s.(seats := seats))
  {
    var s' := s.(seats := seats);
    assert InHand(s') == InHand(s) && Owned(s') == Owned(s);
    forall a: nat | a < |s.attempts| ensures AttemptFits(s.attempts[a], a, s.holder, s.started, seats, s.fallback) {
      assert AttemptFits(s.attempts[a], a, s.holder, s.started, s.seats, s.fallback);
    }
  }

  lemma StepKeeps(s: Server, step: Step)
    requires Inv(s) && Next(s, step).Some?
    ensures Inv(Next(s, step).value)
  {
    hide StartStep, LockFits, RoomFits, PoliciesFit;
    match step {
      case Join(user, name) =>
        var (seats, got) := Claimed(s.seats, user, name);
        SeatChangeKeeps(s, if got.Some? then Normalized(seats) else seats);
      case Configure(seat, kind, difficulty, agent) => SeatChangeKeeps(s, SeatSet(s.seats, seat, kind, difficulty, agent).0);
      case Drain => DrainKeeps(s);
      case Shutdown => ShutdownKeeps(s);
      case _ =>
        StartStepKeepsLock(s, step.a, step);
        StartStepKeepsRoom(s, step.a, step);
        StartStepKeepsPolicies(s, step.a, step);
    }
  }

  lemma DrainKeeps(s: Server)
    requires Inv(s)
    ensures Inv(s.(draining := true))
  {
    var s' := s.(draining := true);
    assert InHand(s') == InHand(s) && Owned(s') == Owned(s);
  }

  lemma ShutdownKeeps(s: Server)
    requires Inv(s) && s.room.Some?
    ensures Inv(s.(room := None, alive := s.alive - s.room.value.policies, closed := s.closed + s.room.value.policies))
  {
    var s' := s.(room := None, alive := s.alive - s.room.value.policies, closed := s.closed + s.room.value.policies);
    assert InHand(s') == InHand(s);
  }

  lemma {:induction false} RunKeeps(s: Server, steps: seq<Step>, s': Server)
    requires Inv(s) && Run(s, steps, s')
    ensures Inv(s')
    decreases |steps|
  {
    if steps != [] {
      hide Inv, Next;
      StepKeeps(s, steps[0]);
      RunKeeps(Next(s, steps[0]).value, steps[1..], s');
    }
  }

  // ---- Draining ----

  /** The start has a room in the server. */
  predicate Up(t: Attempt) {
    t.Registered? || t.Started?
  }

  /** Nothing came up between s and s': the same room or none, and no start up that was not up before. */
  ghost predicate NothingNew(s: Server, s': Server) {
    && s'.draining && |s'.attempts| == |s.attempts|
    && (s'.room == s.room || s'.room.None?)
    && (forall a: nat | a < |s.attempts| && Up(s'.attempts[a]) :: Up(s.attempts[a]))
  }

  lemma DrainingStep(s: Server, step: Step)
    requires s.draining && Next(s, step).Some?
    ensures NothingNew(s, Next(s, step).value)
  {
    hide Signature, AgentsOf, Full, Claimed, SeatSet, Normalized;
  }

  /** From the moment draining is set, whatever is on the way then, no start registers a room any more: a room or a start
      that is up later was up at that moment. */
  lemma {:induction false} NothingComesUpWhileDraining(s: Server, steps: seq<Step>, s': Server)
    requires s.draining && Run(s, steps, s')
    ensures NothingNew(s, s')
    decreases |steps|
  {
    if steps != [] {
      hide Next;
      DrainingStep(s, steps[0]);
      NothingComesUpWhileDraining(Next(s, steps[0]).value, steps[1..], s');
    }
  }

  /** Hence a table whose start was not up when draining was set is never started, and every start then on the way that
      reaches its end is refused with all it built closed and its match row gone. */
  lemma DrainRefusesLateStarts(s: Server, before: seq<Step>, s1: Server, after: seq<Step>, s2: Server)
    requires Fresh(s) && Run(s, before, s1) && s1.draining && Run(s1, after, s2)
    requires forall a: nat | a < |s1.attempts| :: !Up(s1.attempts[a])
    ensures s2.started.None? && s2.room.None?
    ensures s2.holder.None? ==> s2.rows == {} && s2.alive == {} && forall p: nat :: p in s2.closed <==> p < s2.made
  {
    hide Run;
    RunKeeps(s, before, s1);
    RunKeeps(s1, after, s2);
    NothingComesUpWhileDraining(s1, after, s2);
    forall a: nat | a < |s2.attempts| ensures s2.started != Some(a) {
      assert AttemptFits(s2.attempts[a], a, s2.holder, s2.started, s2.seats, s2.fallback);
    }
    forall a: nat | a < |s2.attempts| && s2.holder.None? ensures !UnderLock(s2.attempts[a]) {
      assert AttemptFits(s2.attempts[a], a, s2.holder, s2.started, s2.seats, s2.fallback);
    }
  }

  /** Any interleaving of starts, joins, seat changes, shutdowns and drain: the table is started at most once, with the seats
      its warm-up was computed from and every agent of those seats warmed; and every policy built is in the hands of the
      start in progress, owned by the registered room, or closed. */
  lemma StartIsSafe(s: Server, steps: seq<Step>, s': Server)
    requires Fresh(s) && Run(s, steps, s')
    ensures forall a: nat, b: nat | a < b < |s'.attempts| && s'.attempts[a].Started? :: !s'.attempts[b].Started?
    ensures forall a: nat | a < |s'.attempts| && s'.attempts[a].Started? ::
              && s'.started == Some(a) && s'.attempts[a].signs == Signature(s'.seats) && Full(s'.seats)
              && forall q: Seat | s'.seats[q].Bot? && s'.seats[q].difficulty == Rl ::
                   (if s'.seats[q].agent == "" then s'.fallback else s'.seats[q].agent) in s'.attempts[a].warmed
    ensures forall p: nat | p < s'.made :: p in InHand(s') || p in Owned(s') || p in s'.closed
    ensures InHand(s') !! Owned(s') !! s'.closed
    ensures s'.holder.None? ==> s'.alive == Owned(s')
    ensures s'.holder.None? ==> s'.rows == if s'.started.Some? then {s'.started.value} else {}
  {
    assert Inv(s);
    RunKeeps(s, steps, s');
    EveryAgentIsNamed(s'.seats, s'.fallback);
    hide AgentsOf, Signature;
    forall a: nat | a < |s'.attempts| ensures s'.attempts[a].Started? <==> s'.started == Some(a) {
      assert AttemptFits(s'.attempts[a], a, s'.holder, s'.started, s'.seats, s'.fallback);
    }
  }

  lemma EveryAgentIsNamed(seats: Seats, fallback: string)
    ensures forall q: Seat | seats[q].Bot? && seats[q].difficulty == Rl ::
              (if seats[q].agent == "" then fallback else seats[q].agent) in AgentsOf(Signature(seats), fallback)
  {
    forall q: Seat | seats[q].Bot? && seats[q].difficulty == Rl
      ensures (if seats[q].agent == "" then fallback else seats[q].agent) in AgentsOf(Signature(seats), fallback)
    {
      assert Signature(seats)[q] == SignOf(seats[q]) && Signature(seats)[q] in Signature(seats);
    }
  }

  /** Two configurations have one signature exactly when each seat has the same human, or the same bot, or is as empty. */
  lemma SignatureSeparates(seats: Seats, seats': Seats)
    ensures Signature(seats') == Signature(seats) <==>
              forall q: Seat ::
                if seats[q].Human? then seats'[q].Human? && seats'[q].user == seats[q].user else seats'[q] == seats[q]
  {
    if Signature(seats') == Signature(seats) {
      forall q: Seat
        ensures if seats[q].Human? then seats'[q].Human? && seats'[q].user == seats[q].user else seats'[q] == seats[q]
      {
        assert Signature(seats)[q] == SignOf(seats[q]) && Signature(seats')[q] == SignOf(seats'[q]);
      }
    } else {
      var q: Seat :| SignOf(seats'[q]) != SignOf(seats[q]);
    }
  }

  // ---- Who starts, and with what ----

  predicate NeverStarts(t: Attempt) {
    t == Begun(false) || t.Refused?
  }

  lemma {:induction false} OnlyTheHostStarts(s: Server, steps: seq<Step>, s': Server, a: nat)
    requires Run(s, steps, s') && a < |s.attempts| && NeverStarts(s.attempts[a])
    ensures a < |s'.attempts| && NeverStarts(s'.attempts[a])
    decreases |steps|
  {
    if steps != [] {
      hide Next;
      StepStartsNobodyElse(s, steps[0], a);
      OnlyTheHostStarts(Next(s, steps[0]).value, steps[1..], s', a);
    }
  }

  lemma StepStartsNobodyElse(s: Server, step: Step, a: nat)
    requires Next(s, step).Some? && a < |s.attempts| && NeverStarts(s.attempts[a])
    ensures a < |Next(s, step).value.attempts| && NeverStarts(Next(s, step).value.attempts[a])
  {
    hide Signature, AgentsOf, Full, Claimed, SeatSet, Normalized;
  }

  function BotsBelow(seats: Seats, n: nat): nat
    requires n <= 4
  {
    if n == 0 then 0 else BotsBelow(seats, n - 1) + if seats[n - 1].Bot? then 1 else 0
  }

  predicate BuiltFits(t: Attempt, seats: Seats) {
    && (t.Building? ==> t.next <= 4 && |t.built| == BotsBelow(seats, t.next))
    && (t.Persisted? ==> |t.built| == BotsBelow(seats, 4))
  }

  /** Every start in hand has built one policy for each bot seat it has come past, and the room has one for each bot. */
  ghost predicate OnePolicyEach(s: Server) {
    && (forall a: nat | a < |s.attempts| :: BuiltFits(s.attempts[a], s.seats))
    && (s.room.Some? ==> |s.room.value.policies| == BotsBelow(s.seats, 4))
  }

  lemma BuildKeepsOneEach(s: Server, a: nat, ok: bool)
    requires a < |s.attempts| && s.attempts[a].Building? && s.attempts[a].next < 4 && BuiltFits(s.attempts[a], s.seats)
    requires s.made !in s.attempts[a].built
    ensures BuiltFits(BuildNext(s, a, ok).attempts[a], s.seats) && BuildNext(s, a, ok).room == s.room
  {
  }

  lemma NewPolicyIsNew(s: Server, a: nat)
    requires Inv(s) && a < |s.attempts| && UnderLock(s.attempts[a])
    ensures s.made !in BuiltBy(s.attempts[a])
  {
    hide RoomFits;
    assert AttemptFits(s.attempts[a], a, s.holder, s.started, s.seats, s.fallback);
    assert InHand(s) == BuiltBy(s.attempts[a]);
  }

  lemma StepBuildsOneEach(s: Server, a: nat, step: Step)
    requires a < |s.attempts| && StartStep(s, a, step).Some? && BuiltFits(s.attempts[a], s.seats) && s.made !in BuiltBy(s.attempts[a])
    requires s.room.Some? ==> |s.room.value.policies| == BotsBelow(s.seats, 4)
    ensures var s' := StartStep(s, a, step).value;
            && a < |s'.attempts| && BuiltFits(s'.attempts[a], s.seats)
            && (s'.room.Some? ==> |s'.room.value.policies| == BotsBelow(s.seats, 4))
  {
    hide BuildNext, Signature, AgentsOf, Full, BotsBelow;
    assert BotsBelow(s.seats, 0) == 0 by { NoBotsYet(s.seats); }
    if step.BuildSeat? {
      BuildIsOneStep(s, a, step.ok);
      BuildKeepsOneEach(s, a, step.ok);
    }
  }

  lemma NoBotsYet(seats: Seats)
    ensures BotsBelow(seats, 0) == 0
  {
  }

  lemma BuildIsOneStep(s: Server, a: nat, ok: bool)
    requires a < |s.attempts| && s.attempts[a].Building? && s.attempts[a].next < 4
    ensures |BuildNext(s, a, ok).attempts| == |s.attempts| && BuildNext(s, a, ok).room == s.room
  {
  }

  lemma StartStepKeepsOneEach(s: Server, a: nat, step: Step)
    requires Inv(s) && OnePolicyEach(s) && a < |s.attempts| && StartStep(s, a, step).Some?
    ensures OnePolicyEach(StartStep(s, a, step).value)
  {
    var s' := StartStep(s, a, step).value;
    assert BuiltFits(s.attempts[a], s.seats);
    if UnderLock(s.attempts[a]) {
      NewPolicyIsNew(s, a);
    }
    StepMoves(s, a, step);
    StepBuildsOneEach(s, a, step);
    hide StartStep, Inv, BotsBelow, BuiltFits;
    forall b: nat | b < |s'.attempts| ensures BuiltFits(s'.attempts[b], s'.seats) {
      assert BuiltFits(s.attempts[b], s.seats);
    }
  }

  lemma StepKeepsOneEach(s: Server, step: Step)
    requires Inv(s) && OnePolicyEach(s) && Next(s, step).Some?
    ensures OnePolicyEach(Next(s, step).value)
  {
    hide StartStep, BuiltFits;
    match step {
      case Join(_, _) => SeatsMoveFreely(s, Next(s, step).value);
      case Configure(_, _, _, _) => SeatsMoveFreely(s, Next(s, step).value);
      case Drain =>
      case Shutdown =>
      case _ => StartStepKeepsOneEach(s, step.a, step);
    }
  }

  lemma SeatsMoveFreely(s: Server, s': Server)
    requires Inv(s) && s.holder.None? && s.started.None? && s' == s.(seats := s'.seats)
    ensures OnePolicyEach(s')
  {
    forall a: nat | a < |s.attempts| ensures BuiltFits(s'.attempts[a], s'.seats) && !Up(s.attempts[a]) {
      assert AttemptFits(s.attempts[a], a, s.holder, s.started, s.seats, s.fallback);
    }
  }

  lemma {:induction false} RunKeepsOneEach(s: Server, steps: seq<Step>, s': Server)
    requires Inv(s) && OnePolicyEach(s) && Run(s, steps, s')
    ensures OnePolicyEach(s')
    decreases |steps|
  {
    if steps != [] {
      hide Inv, Next, OnePolicyEach;
      StepKeeps(s, steps[0]);
      StepKeepsOneEach(s, steps[0]);
      RunKeepsOneEach(Next(s, steps[0]).value, steps[1..], s');
    }
  }

  /** In every interleaving a start that is not the host's never gets anywhere, and a room, as long as it is open, has one
      policy for each bot seat. */
  lemma StartsAreTheHosts(s: Server, steps: seq<Step>, s': Server)
    requires Fresh(s) && Run(s, steps, s')
    ensures forall a: nat | a < |s.attempts| && s.attempts[a] == Begun(false) :: a < |s'.attempts| && NeverStarts(s'.attempts[a])
    ensures s'.room.Some? ==> |s'.room.value.policies| == BotsBelow(s'.seats, 4)
  {
    hide Run;
    assert Inv(s) && OnePolicyEach(s);
    RunKeepsOneEach(s, steps, s');
    forall a: nat | a < |s.attempts| && s.attempts[a] == Begun(false) ensures a < |s'.attempts| && NeverStarts(s'.attempts[a]) {
      OnlyTheHostStarts(s, steps, s', a);
    }
  }

  // ---- A start nobody disturbs ----

  lemma {:induction false} RunOn(s: Server, xs: seq<Step>, m: Server, ys: seq<Step>, s': Server)
    requires Run(s, xs, m) && Run(m, ys, s')
    ensures Run(s, xs + ys, s')
    decreases |xs|
  {
    hide Next;
    if xs == [] {
      assert xs + ys == ys;
    } else {
      assert (xs + ys)[0] == xs[0] && (xs + ys)[1..] == xs[1..] + ys;
      RunOn(Next(s, xs[0]).value, xs[1..], m, ys, s');
    }
  }

  lemma OneStep(s: Server, step: Step)
    requires Next(s, step).Some?
    ensures Run(s, [step], Next(s, step).value)
  {
    hide Next;
    assert [step][1..] == [];
  }

  lemma {:induction false} WarmsAll(s: Server, a: nat, todo: set<string>) returns (steps: seq<Step>, s': Server)
    requires a < |s.attempts| && s.attempts[a].Warming? && todo <= AgentsOf(s.attempts[a].signs, s.fallback)
    ensures Run(s, steps, s') && s' == Set(s, a, Warming(s.attempts[a].signs, s.attempts[a].warmed + todo))
    decreases |todo|
  {
    hide AgentsOf;
    if todo == {} {
      steps, s' := [], s;
      assert s.attempts[a].warmed + todo == s.attempts[a].warmed;
    } else {
      var agent :| agent in todo;
      var step := Warm(a, agent, true);
      var m := Next(s, step).value;
      OneStep(s, step);
      steps, s' := WarmsAll(m, a, todo - {agent});
      RunOn(s, [step], m, steps, s');
      steps := [step] + steps;
      assert s.attempts[a].warmed + {agent} + (todo - {agent}) == s.attempts[a].warmed + todo;
    }
  }

  lemma {:induction false} BuildsAll(s: Server, a: nat) returns (steps: seq<Step>, s': Server)
    requires a < |s.attempts| && s.attempts[a].Building? && s.attempts[a].next <= 4 && Full(s.seats)
    ensures Run(s, steps, s') && a < |s'.attempts| && s'.attempts[a].Building? && s'.attempts[a].next == 4
    ensures s'.draining == s.draining
    decreases 4 - s.attempts[a].next
  {
    if s.attempts[a].next == 4 {
      steps, s' := [], s;
    } else {
      var step := BuildSeat(a, true);
      var m := Next(s, step).value;
      var q: Seat := s.attempts[a].next;
      assert !Vacant(s.seats[q]);
      OneStep(s, step);
      steps, s' := BuildsAll(m, a);
      RunOn(s, [step], m, steps, s');
      steps := [step] + steps;
    }
  }

  /** A host who starts a full table without anybody interfering gets it started, with a room. */
  lemma UndisturbedStartSucceeds(s: Server, a: nat)
    requires Fresh(s) && a < |s.attempts| && s.attempts[a] == Begun(true) && Full(s.seats)
    ensures exists steps, s' :: Run(s, steps, s') && s'.started == Some(a) && s'.room.Some?
  {
    hide Run, AgentsOf, Signature;
    var prepare := Prepare(a);
    var s1 := Next(s, prepare).value;
    OneStep(s, prepare);
    var todo := AgentsOf(s1.attempts[a].signs, s.fallback);
    var warms, s2 := WarmsAll(s1, a, todo);
    RunOn(s, [prepare], s1, warms, s2);
    var relock := Relock(a);
    assert {} + todo == todo;
    var s3 := Next(s2, relock).value;
    OneStep(s2, relock);
    RunOn(s, [prepare] + warms, s2, [relock], s3);
    var builds, s4 := BuildsAll(s3, a);
    RunOn(s, [prepare] + warms + [relock], s3, builds, s4);
    var s5 := EndsStart(s4, a);
    var ends := [Persist(a, true), Register(a), Publish(a)];
    RunOn(s, [prepare] + warms + [relock] + builds, s4, ends, s5);
    assert Run(s, [prepare] + warms + [relock] + builds + ends, s5);
  }

  lemma EndsStart(s: Server, a: nat) returns (s': Server)
    requires a < |s.attempts| && s.attempts[a].Building? && s.attempts[a].next == 4 && !s.draining
    ensures Run(s, [Persist(a, true), Register(a), Publish(a)], s') && s'.started == Some(a) && s'.room.Some?
  {
    var s1 := Next(s, Persist(a, true)).value;
    var s2 := Next(s1, Register(a)).value;
    s' := Next(s2, Publish(a)).value;
    OneStep(s, Persist(a, true));
    OneStep(s1, Register(a));
    OneStep(s2, Publish(a));
    hide Next;
    RunOn(s, [Persist(a, true)], s1, [Register(a)], s2);
    RunOn(s, [Persist(a, true)] + [Register(a)], s2, [Publish(a)], s');
    assert [Persist(a, true)] + [Register(a)] + [Publish(a)] == [Persist(a, true), Register(a), Publish(a)];
  }
}
