/** The shadow policy's queue, worker and shutdown as interleaved steps of any number of callers and closers. */
module Shadow {
  import opened Hand

  /** A mirroring call: first check, clone, read lock, second check, send or drop, unlock. The flag tells whether the call
      passed the locked check. */
  datatype Caller = Calling | Cloned | Holding | Passed | Leaving(passed: bool) | Left(passed: bool)

  /** A Close call. One of them runs the shutdown section: lock, mark, close the queue, close the stop signal, unlock. */
  datatype Closer = Arriving | InOnce | Locked | Marked | QueueShut | StopShut | Waiting | Returned

  datatype Once = Fresh | Running | Finished

  datatype Worker = AtTop | Choosing | Evaluating(job: nat) | Judged(job: nat) | Discarding | Exited

  /** A job is named by the call that made it. Counters are kept beside the sets of jobs they count. */
  datatype Mirror = Mirror(
    capacity: nat,
    callers: seq<Caller>,
    closers: seq<Closer>,
    once: Once,
    worker: Worker,
    queue: seq<nat>,
    closed: bool,
    queueClosed: bool,
    stopClosed: bool,
    decided: set<nat>,
    discarded: set<nat>,
    refused: set<nat>,
    decisions: nat,
    dropped: nat,
    agreements: nat,
    errors: nat)

  datatype Verdict = Agrees | Differs | Errs

  datatype Step =
    | CallerMoves(i: nat)
    | CloserMoves(c: nat)
    | LookAtStop
    | TakeJob
    | SeeQueueClosed
    | SeeStop
    | Judge(verdict: Verdict)
    | Count
    | DiscardOne
    | DiscardEnd

  predicate Reading(c: Caller) {
    c.Holding? || c.Passed? || c.Leaving?
  }

  predicate Writing(c: Closer) {
    c.Locked? || c.Marked? || c.QueueShut? || c.StopShut?
  }

  predicate Readers(s: Mirror) {
    exists i | 0 <= i < |s.callers| :: Reading(s.callers[i])
  }

  predicate Writer(s: Mirror) {
    exists c | 0 <= c < |s.closers| :: Writing(s.closers[c])
  }

  function SetCaller(s: Mirror, i: nat, c: Caller): Mirror
    requires i < |s.callers|
  {
    s.(callers := s.callers[i := c])
  }

  function SetCloser(s: Mirror, i: nat, c: Closer): Mirror
    requires i < |s.closers|
  {
    s.(closers := s.closers[i := c])
  }

  /** What the next atomic step of a call does; nothing while it is blocked or over. */
  function MoveCaller(s: Mirror, i: nat): Option<Mirror>
    requires i < |s.callers|
  {
    match s.callers[i]
    case Calling => Some(SetCaller(s, i, if s.closed then Left(false) else Cloned))
    case Cloned => if Writer(s) then None else Some(SetCaller(s, i, Holding))
    case Holding => Some(SetCaller(s, i, if s.closed then Leaving(false) else Passed))
    case Passed =>
      if |s.queue| < s.capacity then Some(SetCaller(s, i, Leaving(true)).(queue := s.queue + [i]))
      else Some(SetCaller(s, i, Leaving(true)).(refused := s.refused + {i}, dropped := s.dropped + 1))
    case Leaving(passed) => Some(SetCaller(s, i, Left(passed)))
    case Left(_) => None
  }

  function MoveCloser(s: Mirror, c: nat): Option<Mirror>
    requires c < |s.closers|
  {
    match s.closers[c]
    case Arriving =>
      if s.once == Fresh then Some(SetCloser(s, c, InOnce).(once := Running))
      else if s.once == Finished then Some(SetCloser(s, c, Waiting))
      else None
    case InOnce => if Readers(s) || Writer(s) then None else Some(SetCloser(s, c, Locked))
    case Locked => Some(SetCloser(s, c, Marked).(closed := true))
    case Marked => Some(SetCloser(s, c, QueueShut).(queueClosed := true))
    case QueueShut => Some(SetCloser(s, c, StopShut).(stopClosed := true))
    case StopShut => Some(SetCloser(s, c, Waiting).(once := Finished))
    case Waiting => if s.worker == Exited then Some(SetCloser(s, c, Returned)) else None
    case Returned => None
  }

  /** One step of the whole system, or nothing when it cannot be taken. */
  function Next(s: Mirror, step: Step): Option<Mirror> {
    match step
    case CallerMoves(i) => if i < |s.callers| then MoveCaller(s, i) else None
    case CloserMoves(c) => if c < |s.closers| then MoveCloser(s, c) else None
    case LookAtStop => if s.worker == AtTop then Some(s.(worker := if s.stopClosed then Discarding else Choosing)) else None
    case TakeJob =>
      if s.worker == Choosing && s.queue != [] then Some(s.(worker := Evaluating(s.queue[0]), queue := s.queue[1..])) else None
    case SeeQueueClosed => if s.worker == Choosing && s.queue == [] && s.queueClosed then Some(s.(worker := Exited)) else None
    case SeeStop => if s.worker == Choosing && s.stopClosed then Some(s.(worker := Discarding)) else None
    case Judge(v) =>
      if s.worker.Evaluating? then
        Some(s.(worker := Judged(s.worker.job),
                agreements := s.agreements + (if v == Agrees then 1 else 0), errors := s.errors + (if v == Errs then 1 else 0)))
      else None
    case Count =>
      if s.worker.Judged? then Some(s.(worker := AtTop, decided := s.decided + {s.worker.job}, decisions := s.decisions + 1)) else None
    case DiscardOne =>
      if s.worker == Discarding && s.queue != [] then
        Some(s.(queue := s.queue[1..], discarded := s.discarded + {s.queue[0]}, dropped := s.dropped + 1))
      else None
    case DiscardEnd => if s.worker == Discarding && s.queue == [] then Some(s.(worker := Exited)) else None
  }

  function Start(capacity: nat, callers: nat, closers: nat): Mirror {
    Mirror(capacity, seq(callers, _ => Calling), seq(closers, _ => Arriving), Fresh, AtTop, [], false, false, false, {}, {}, {}, 0, 0, 0, 0)
  }

  /** Any interleaving: each step is one that can be taken where it stands. */
  predicate Run(s: Mirror, steps: seq<Step>, s': Mirror)
    decreases |steps|
  {
    if steps == [] then s' == s
    else
      var next := Next(s, steps[0]);
      next.Some? && Run(next.value, steps[1..], s')
  }

  // ---- Locks and flags ----

  predicate InSection(c: Closer) {
    c.InOnce? || Writing(c)
  }

  /** The shutdown section runs once, and its position fixes the flags. */
  ghost predicate FlagsFit(s: Mirror) {
    && (forall b, c | 0 <= b < c < |s.closers| && InSection(s.closers[b]) :: !InSection(s.closers[c]))
    && (forall c | 0 <= c < |s.closers| && InSection(s.closers[c]) ::
          && s.once == Running
          && (s.closed <==> !s.closers[c].InOnce? && !s.closers[c].Locked?)
          && (s.queueClosed <==> s.closers[c].QueueShut? || s.closers[c].StopShut?)
          && (s.stopClosed <==> s.closers[c].StopShut?))
    && (forall c | 0 <= c < |s.closers| && (s.closers[c].Waiting? || s.closers[c].Returned?) :: s.once == Finished)
    && (forall c | 0 <= c < |s.closers| && s.closers[c].Returned? :: s.worker == Exited)
    && (s.once == Running ==> exists c | 0 <= c < |s.closers| :: InSection(s.closers[c]))
    && (s.once == Finished ==> s.closed && s.queueClosed && s.stopClosed)
    && (s.once == Fresh ==> !s.closed && !s.queueClosed && !s.stopClosed)
  }

  /** No caller holds the read lock while the section is locked; who passed the check did so before closing. */
  ghost predicate LockFits(s: Mirror) {
    && !(Readers(s) && Writer(s))
    && (forall i | 0 <= i < |s.callers| && s.callers[i].Passed? :: !s.closed)
  }

  ghost predicate WorkerFits(s: Mirror) {
    && (s.worker == Discarding ==> s.stopClosed)
    && (s.worker == Exited ==> s.queueClosed && s.queue == [])
    && |s.queue| <= s.capacity
    && s.agreements + s.errors <= s.decisions + (if s.worker.Judged? then 1 else 0)
  }

  // ---- Jobs ----

  predicate PassedCheck(c: Caller) {
    (c.Leaving? || c.Left?) && c.passed
  }

  predicate Distinct(queue: seq<nat>) {
    forall i, j | 0 <= i < j < |queue| :: queue[i] != queue[j]
  }

  function InFlight(w: Worker): set<nat> {
    if w.Evaluating? || w.Judged? then {w.job} else {}
  }

  function Queued(queue: seq<nat>): set<nat> {
    set j | j in queue
  }

  function PassedSet(callers: seq<Caller>): set<nat> {
    set i: nat | i < |callers| && PassedCheck(callers[i])
  }

  /** The jobs are split into those queued, in the worker's hands, decided, discarded and refused. */
  ghost predicate Parts(q: set<nat>, f: set<nat>, d: set<nat>, x: set<nat>, r: set<nat>, all: set<nat>) {
    && (forall j | j in q :: j !in f && j !in d && j !in x && j !in r)
    && (forall j | j in f :: j !in d && j !in x && j !in r)
    && (forall j | j in d :: j !in x && j !in r)
    && (forall j | j in x :: j !in r)
    && (forall j: nat :: j in all <==> j in q || j in f || j in d || j in x || j in r)
  }

  lemma Arrives(q: set<nat>, f: set<nat>, d: set<nat>, x: set<nat>, r: set<nat>, all: set<nat>, j: nat)
    requires Parts(q, f, d, x, r, all) && j !in all
    ensures Parts(q + {j}, f, d, x, r, all + {j})
    ensures Parts(q, f, d, x, r + {j}, all + {j}) && j !in r
  {
  }

  lemma Taken(q: set<nat>, d: set<nat>, x: set<nat>, r: set<nat>, all: set<nat>, j: nat)
    requires Parts(q + {j}, {}, d, x, r, all) && j !in q
    ensures Parts(q, {j}, d, x, r, all)
  {
  }

  lemma Counted(q: set<nat>, d: set<nat>, x: set<nat>, r: set<nat>, all: set<nat>, j: nat)
    requires Parts(q, {j}, d, x, r, all)
    ensures Parts(q, {}, d + {j}, x, r, all) && j !in d
  {
  }

  lemma ThrownAway(q: set<nat>, f: set<nat>, d: set<nat>, x: set<nat>, r: set<nat>, all: set<nat>, j: nat)
    requires Parts(q + {j}, f, d, x, r, all) && j !in q
    ensures Parts(q, f, d, x + {j}, r, all) && j !in x
  {
  }

  /** Every job is in exactly one place, and the counters count them. */
  ghost predicate JobsOk(queue: seq<nat>, f: set<nat>, d: set<nat>, x: set<nat>, r: set<nat>, all: set<nat>, decisions: nat, dropped: nat) {
    Distinct(queue) && Parts(Queued(queue), f, d, x, r, all) && decisions == |d| && dropped == |x| + |r|
  }

  ghost predicate JobsFit(s: Mirror) {
    JobsOk(s.queue, InFlight(s.worker), s.decided, s.discarded, s.refused, PassedSet(s.callers), s.decisions, s.dropped)
  }

  lemma OneMore(a: set<nat>, j: nat)
    requires j !in a
    ensures |a + {j}| == |a| + 1
  {
  }

  lemma JobSent(queue: seq<nat>, f: set<nat>, d: set<nat>, x: set<nat>, r: set<nat>, all: set<nat>, n: nat, m: nat, i: nat)
    requires JobsOk(queue, f, d, x, r, all, n, m) && i !in all
    ensures JobsOk(queue + [i], f, d, x, r, all + {i}, n, m)
    ensures JobsOk(queue, f, d, x, r + {i}, all + {i}, n, m + 1)
  {
    assert i !in Queued(queue);
    hide Queued, Parts, Distinct;
    Arrives(Queued(queue), f, d, x, r, all, i);
    QueueTail(queue, i);
    OneMore(r, i);
  }

  lemma JobTaken(queue: seq<nat>, d: set<nat>, x: set<nat>, r: set<nat>, all: set<nat>, n: nat, m: nat)
    requires queue != [] && JobsOk(queue, {}, d, x, r, all, n, m)
    ensures JobsOk(queue[1..], {queue[0]}, d, x, r, all, n, m)
    ensures JobsOk(queue[1..], {}, d, x + {queue[0]}, r, all, n, m + 1)
  {
    hide Queued, Parts, Distinct;
    QueueHead(queue);
    Taken(Queued(queue[1..]), d, x, r, all, queue[0]);
    ThrownAway(Queued(queue[1..]), {}, d, x, r, all, queue[0]);
    OneMore(x, queue[0]);
  }

  lemma JobCounted(queue: seq<nat>, d: set<nat>, x: set<nat>, r: set<nat>, all: set<nat>, n: nat, m: nat, j: nat)
    requires JobsOk(queue, {j}, d, x, r, all, n, m)
    ensures JobsOk(queue, {}, d + {j}, x, r, all, n + 1, m)
  {
    hide Queued, Parts, Distinct;
    Counted(Queued(queue), d, x, r, all, j);
    OneMore(d, j);
  }

  lemma QueueTail(queue: seq<nat>, i: nat)
    ensures Queued(queue + [i]) == Queued(queue) + {i}
    ensures i !in Queued(queue) && Distinct(queue) ==> Distinct(queue + [i])
  {
  }

  lemma QueueHead(queue: seq<nat>)
    requires queue != [] && Distinct(queue)
    ensures Queued(queue) == Queued(queue[1..]) + {queue[0]} && queue[0] !in Queued(queue[1..]) && Distinct(queue[1..])
  {
    assert queue == [queue[0]] + queue[1..];
  }

  ghost predicate Inv(s: Mirror) {
    FlagsFit(s) && LockFits(s) && WorkerFits(s) && JobsFit(s)
  }

  lemma StartFits(capacity: nat, callers: nat, closers: nat)
    ensures Inv(Start(capacity, callers, closers))
  {
    assert PassedSet(Start(capacity, callers, closers).callers) == {};
  }

  // ---- Steps of a caller ----

  lemma PassedGrows(callers: seq<Caller>, i: nat, c: Caller)
    requires i < |callers| && !PassedCheck(callers[i])
    ensures PassedSet(callers[i := c]) == PassedSet(callers) + if PassedCheck(c) then {i} else {}
    ensures i !in PassedSet(callers)
  {
  }

  lemma StillPassed(callers: seq<Caller>, i: nat, c: Caller)
    requires i < |callers| && PassedCheck(callers[i]) == PassedCheck(c)
    ensures PassedSet(callers[i := c]) == PassedSet(callers)
  {
  }

  lemma CallerKeepsLocks(s: Mirror, i: nat)
    requires FlagsFit(s) && LockFits(s) && i < |s.callers| && MoveCaller(s, i).Some?
    ensures FlagsFit(MoveCaller(s, i).value) && LockFits(MoveCaller(s, i).value)
  {
    var s' := MoveCaller(s, i).value;
    assert s'.closers == s.closers && Writer(s') == Writer(s);
    if Readers(s') && !Readers(s) {
      assert s.callers[i].Cloned?;
    }
  }

  lemma CallerKeepsJobs(s: Mirror, i: nat)
    requires JobsFit(s) && WorkerFits(s) && i < |s.callers| && MoveCaller(s, i).Some? && (s.callers[i].Passed? ==> !s.queueClosed)
    ensures JobsFit(MoveCaller(s, i).value) && WorkerFits(MoveCaller(s, i).value)
  {
    hide JobsOk, PassedSet;
    if s.callers[i].Passed? {
      PassedGrows(s.callers, i, Leaving(true));
      JobSent(s.queue, InFlight(s.worker), s.decided, s.discarded, s.refused, PassedSet(s.callers), s.decisions, s.dropped, i);
    } else {
      StillPassed(s.callers, i, MoveCaller(s, i).value.callers[i]);
    }
  }

  // ---- Steps of a closer ----

  lemma CloserKeeps(s: Mirror, c: nat)
    requires Inv(s) && c < |s.closers| && MoveCloser(s, c).Some?
    ensures Inv(MoveCloser(s, c).value)
  {
    hide JobsFit;
    var s' := MoveCloser(s, c).value;
    CloserKeepsFlags(s, c);
    CloserKeepsLocks(s, c);
    assert JobsFit(s') by { SameJobs(s, s'); }
  }

  lemma SameJobs(s: Mirror, s': Mirror)
    requires JobsFit(s) && s'.callers == s.callers && s'.queue == s.queue && s'.worker == s.worker && s'.decided == s.decided
    requires s'.discarded == s.discarded && s'.refused == s.refused && s'.decisions == s.decisions && s'.dropped == s.dropped
    ensures JobsFit(s')
  {
  }

  lemma CloserKeepsFlags(s: Mirror, c: nat)
    requires FlagsFit(s) && c < |s.closers| && MoveCloser(s, c).Some?
    ensures FlagsFit(MoveCloser(s, c).value)
  {
    var s' := MoveCloser(s, c).value;
    assert forall b | 0 <= b < |s.closers| && b != c :: s'.closers[b] == s.closers[b];
    assert s'.once == Running ==> InSection(s'.closers[c]);
  }

  lemma CloserKeepsLocks(s: Mirror, c: nat)
    requires FlagsFit(s) && LockFits(s) && c < |s.closers| && MoveCloser(s, c).Some?
    ensures LockFits(MoveCloser(s, c).value)
  {
    var s' := MoveCloser(s, c).value;
    assert Readers(s') == Readers(s);
    if Writing(s.closers[c]) {
      assert Writer(s) && !Readers(s);
    } else if Writer(s') && !Writer(s) {
      var b :| 0 <= b < |s'.closers| && Writing(s'.closers[b]);
      assert b == c;
    }
  }

  // ---- Steps of the worker ----

  lemma WorkerKeeps(s: Mirror, step: Step)
    requires Inv(s) && !step.CallerMoves? && !step.CloserMoves? && Next(s, step).Some?
    ensures Inv(Next(s, step).value)
  {
    hide FlagsFit, LockFits, WorkerFits, JobsFit;
    WorkerKeepsLocks(s, step);
    WorkerKeepsJobs(s, step);
  }

  lemma WorkerKeepsLocks(s: Mirror, step: Step)
    requires FlagsFit(s) && LockFits(s) && WorkerFits(s) && !step.CallerMoves? && !step.CloserMoves? && Next(s, step).Some?
    ensures var s' := Next(s, step).value; FlagsFit(s') && LockFits(s') && WorkerFits(s')
  {
    hide Writing, Reading;
    var s' := Next(s, step).value;
    assert s'.callers == s.callers && s'.closers == s.closers && s'.once == s.once;
    assert Readers(s') == Readers(s) && Writer(s') == Writer(s);
    if s.once == Running {
      var c :| 0 <= c < |s.closers| && InSection(s.closers[c]);
      assert InSection(s'.closers[c]) && (s.stopClosed ==> s.queueClosed);
    }
  }

  lemma WorkerKeepsJobs(s: Mirror, step: Step)
    requires JobsFit(s) && !step.CallerMoves? && !step.CloserMoves? && Next(s, step).Some?
    ensures JobsFit(Next(s, step).value)
  {
    hide JobsOk, PassedSet;
    var all := PassedSet(s.callers);
    if step == Count {
      JobCounted(s.queue, s.decided, s.discarded, s.refused, all, s.decisions, s.dropped, s.worker.job);
    } else if step == TakeJob || step == DiscardOne {
      JobTaken(s.queue, s.decided, s.discarded, s.refused, all, s.decisions, s.dropped);
    }
  }

  // ---- Runs ----

  lemma StepKeeps(s: Mirror, step: Step)
    requires Inv(s) && Next(s, step).Some?
    ensures Inv(Next(s, step).value)
  {
    hide FlagsFit, LockFits, WorkerFits, JobsFit, MoveCaller, MoveCloser;
    match step {
      case CallerMoves(i) =>
        NoSendAfterClose(s);
        CallerKeepsLocks(s, i);
        CallerKeepsJobs(s, i);
      case CloserMoves(c) => CloserKeeps(s, c);
      case _ => WorkerKeeps(s, step);
    }
  }

  lemma {:induction false} RunKeeps(s: Mirror, steps: seq<Step>, s': Mirror)
    requires Inv(s) && Run(s, steps, s')
    ensures Inv(s')
    decreases |steps|
  {
    if steps != [] {
      hide Inv;
      StepKeeps(s, steps[0]);
      RunKeeps(Next(s, steps[0]).value, steps[1..], s');
    }
  }

  /** A call that is about to send finds the queue open. */
  lemma NoSendAfterClose(s: Mirror)
    requires Inv(s)
    ensures forall i | 0 <= i < |s.callers| && s.callers[i].Passed? :: !s.queueClosed
  {
    hide JobsFit;
    if s.once == Running {
      var c :| 0 <= c < |s.closers| && InSection(s.closers[c]);
      assert s.queueClosed ==> s.closed;
    }
  }

  /** In every interleaving: no call sends on a closed queue; a worker that has left leaves an empty, closed queue; the queue
      never exceeds its capacity. */
  lemma ShutdownIsSafe(capacity: nat, callers: nat, closers: nat, steps: seq<Step>, s: Mirror)
    requires Run(Start(capacity, callers, closers), steps, s)
    ensures forall i | 0 <= i < |s.callers| && s.callers[i].Passed? :: !s.queueClosed
    ensures s.worker == Exited ==> s.queue == [] && s.queueClosed
    ensures |s.queue| <= s.capacity
  {
    StartFits(capacity, callers, closers);
    RunKeeps(Start(capacity, callers, closers), steps, s);
    NoSendAfterClose(s);
  }

  /** Once any Close has returned, each call that passed the locked check has been counted exactly once: as a decision, as
      refused by a full queue, or as discarded at shutdown; and no other call can pass any more. */
  lemma ClosedCountsAreFinal(capacity: nat, callers: nat, closers: nat, steps: seq<Step>, s: Mirror, c: nat)
    requires Run(Start(capacity, callers, closers), steps, s) && c < |s.closers| && s.closers[c] == Returned
    ensures s.decided !! s.discarded !! s.refused
    ensures PassedSet(s.callers) == s.decided + s.discarded + s.refused
    ensures s.decisions + s.dropped == |PassedSet(s.callers)|
    ensures s.agreements + s.errors <= s.decisions
    ensures s.closed && forall i | 0 <= i < |s.callers| :: !s.callers[i].Passed?
  {
    StartFits(capacity, callers, closers);
    RunKeeps(Start(capacity, callers, closers), steps, s);
    NoSendAfterClose(s);
    assert s.once == Finished && s.worker == Exited && s.queue == [];
    assert PassedSet(s.callers) == s.decided + s.discarded + s.refused;
    ThreeParts(s.decided, s.discarded, s.refused);
  }

  lemma ThreeParts(a: set<nat>, b: set<nat>, c: set<nat>)
    requires a !! b !! c
    ensures |a + b + c| == |a| + |b| + |c|
  {
  }

  // ---- Close always gets through ----

  ghost predicate CanMove(s: Mirror) {
    exists step :: Next(s, step).Some?
  }

  lemma CallerCanMove(s: Mirror, i: nat)
    requires LockFits(s) && i < |s.callers| && Reading(s.callers[i])
    ensures CanMove(s)
  {
    assert Next(s, CallerMoves(i)).Some?;
  }

  lemma WorkerCanMove(s: Mirror)
    requires s.worker != Exited && s.stopClosed
    ensures CanMove(s)
  {
    match s.worker
    case AtTop => assert Next(s, LookAtStop).Some?;
    case Choosing => assert Next(s, SeeStop).Some?;
    case Evaluating(_) => assert Next(s, Judge(Differs)).Some?;
    case Judged(_) => assert Next(s, Count).Some?;
    case Discarding =>
      if s.queue == [] {
        assert Next(s, DiscardEnd).Some?;
      } else {
        assert Next(s, DiscardOne).Some?;
      }
  }

  lemma SectionCanMove(s: Mirror, c: nat)
    requires FlagsFit(s) && LockFits(s) && c < |s.closers| && InSection(s.closers[c])
    ensures CanMove(s)
  {
    if s.closers[c].InOnce? && Readers(s) {
      var i :| 0 <= i < |s.callers| && Reading(s.callers[i]);
      CallerCanMove(s, i);
    } else {
      if Writer(s) {
        var b :| 0 <= b < |s.closers| && Writing(s.closers[b]);
        assert InSection(s.closers[b]) && b == c;
      }
      assert Next(s, CloserMoves(c)).Some?;
    }
  }

  /** While some Close has not returned, somebody can take a step. */
  lemma CloseNeverSticks(capacity: nat, callers: nat, closers: nat, steps: seq<Step>, s: Mirror, c: nat)
    requires Run(Start(capacity, callers, closers), steps, s) && c < |s.closers| && s.closers[c] != Returned
    ensures exists step :: Next(s, step).Some?
  {
    hide JobsFit, WorkerFits;
    StartFits(capacity, callers, closers);
    RunKeeps(Start(capacity, callers, closers), steps, s);
    if InSection(s.closers[c]) {
      SectionCanMove(s, c);
    } else if s.once == Running {
      var b :| 0 <= b < |s.closers| && InSection(s.closers[b]);
      SectionCanMove(s, b);
    } else if s.closers[c].Waiting? && s.worker != Exited {
      WorkerCanMove(s);
    } else {
      assert Next(s, CloserMoves(c)).Some?;
    }
    assert CanMove(s);
  }

  // ---- And comes to an end ----

  function CallerWork(c: Caller): nat {
    match c
    case Calling => 9
    case Cloned => 8
    case Holding => 7
    case Passed => 6
    case Leaving(_) => 1
    case Left(_) => 0
  }

  function CloserWork(c: Closer): nat {
    match c
    case Arriving => 7
    case InOnce => 6
    case Locked => 5
    case Marked => 4
    case QueueShut => 3
    case StopShut => 2
    case Waiting => 1
    case Returned => 0
  }

  function WorkerWork(w: Worker): nat {
    match w
    case Evaluating(_) => 5
    case Judged(_) => 4
    case AtTop => 3
    case Choosing => 2
    case Discarding => 1
    case Exited => 0
  }

  function CallersWork(callers: seq<Caller>): nat {
    if callers == [] then 0 else CallersWork(callers[..|callers| - 1]) + CallerWork(callers[|callers| - 1])
  }

  function ClosersWork(closers: seq<Closer>): nat {
    if closers == [] then 0 else ClosersWork(closers[..|closers| - 1]) + CloserWork(closers[|closers| - 1])
  }

  /** What all participants together can still do; a queued job is worth the turn of the worker it will take. */
  function Work(s: Mirror): nat {
    CallersWork(s.callers) + ClosersWork(s.closers) + WorkerWork(s.worker) + 4 * |s.queue|
  }

  lemma {:induction false} CallerWorks(callers: seq<Caller>, i: nat, c: Caller)
    requires i < |callers|
    ensures CallersWork(callers[i := c]) + CallerWork(callers[i]) == CallersWork(callers) + CallerWork(c)
    decreases |callers|
  {
    var last := |callers| - 1;
    var callers' := callers[i := c];
    if i < last {
      CallerWorks(callers[..last], i, c);
      assert callers'[..last] == callers[..last][i := c];
    } else {
      assert callers'[..last] == callers[..last];
    }
  }

  lemma {:induction false} CloserWorks(closers: seq<Closer>, i: nat, c: Closer)
    requires i < |closers|
    ensures ClosersWork(closers[i := c]) + CloserWork(closers[i]) == ClosersWork(closers) + CloserWork(c)
    decreases |closers|
  {
    var last := |closers| - 1;
    var closers' := closers[i := c];
    if i < last {
      CloserWorks(closers[..last], i, c);
      assert closers'[..last] == closers[..last][i := c];
    } else {
      assert closers'[..last] == closers[..last];
    }
  }

  lemma CallerStepWorks(s: Mirror, i: nat)
    requires i < |s.callers| && MoveCaller(s, i).Some?
    ensures Work(MoveCaller(s, i).value) < Work(s) && MoveCaller(s, i).value.closers == s.closers
  {
    var s' := MoveCaller(s, i).value;
    assert s'.callers == s.callers[i := s'.callers[i]];
    assert CallerWork(s'.callers[i]) + 4 * |s'.queue| < CallerWork(s.callers[i]) + 4 * |s.queue|;
    assert s'.closers == s.closers && s'.worker == s.worker;
    hide CallersWork, ClosersWork, CallerWork, MoveCaller;
    CallerWorks(s.callers, i, s'.callers[i]);
  }

  lemma CloserStepWorks(s: Mirror, c: nat)
    requires c < |s.closers| && MoveCloser(s, c).Some?
    ensures Work(MoveCloser(s, c).value) < Work(s) && |MoveCloser(s, c).value.closers| == |s.closers|
  {
    var s' := MoveCloser(s, c).value;
    CloserStepOnly(s, c);
    hide CallersWork, ClosersWork, CloserWork, MoveCloser;
    CloserWorks(s.closers, c, s'.closers[c]);
  }

  lemma CloserStepOnly(s: Mirror, c: nat)
    requires c < |s.closers| && MoveCloser(s, c).Some?
    ensures var s' := MoveCloser(s, c).value;
            && s'.callers == s.callers && s'.worker == s.worker && s'.queue == s.queue
            && |s'.closers| == |s.closers| && s'.closers == s.closers[c := s'.closers[c]] && CloserWork(s'.closers[c]) < CloserWork(s.closers[c])
  {
    hide Readers, Writer, SetCloser;
    forall x ensures SetCloser(s, c, x) == s.(closers := s.closers[c := x]) {
      SetsOnly(s, c, x);
    }
    match s.closers[c] {
      case Arriving =>
      case InOnce =>
      case Locked =>
      case Marked =>
      case QueueShut =>
      case StopShut =>
      case Waiting =>
    }
  }

  lemma SetsOnly(s: Mirror, c: nat, x: Closer)
    requires c < |s.closers|
    ensures SetCloser(s, c, x) == s.(closers := s.closers[c := x])
  {
  }

  lemma StepWorks(s: Mirror, step: Step)
    requires Next(s, step).Some?
    ensures Work(Next(s, step).value) < Work(s) && |Next(s, step).value.closers| == |s.closers|
  {
    hide CallersWork, ClosersWork, MoveCaller, MoveCloser, CallerWork, CloserWork;
    match step {
      case CallerMoves(i) => CallerStepWorks(s, i);
      case CloserMoves(c) => CloserStepWorks(s, c);
      case _ =>
        hide Work;
        assert Work(Next(s, step).value) < Work(s) by { WorkerStepWorks(s, step); }
    }
  }

  lemma WorkerStepWorks(s: Mirror, step: Step)
    requires !step.CallerMoves? && !step.CloserMoves? && Next(s, step).Some?
    ensures Work(Next(s, step).value) < Work(s)
  {
    hide CallersWork, ClosersWork;
  }

  lemma {:induction false} RunWorks(s: Mirror, steps: seq<Step>, s': Mirror)
    requires Run(s, steps, s')
    ensures |steps| + Work(s') <= Work(s) && |s'.closers| == |s.closers|
    decreases |steps|
  {
    if steps != [] {
      hide Work, Next;
      StepWorks(s, steps[0]);
      RunWorks(Next(s, steps[0]).value, steps[1..], s');
    }
  }

  lemma {:induction false} StartWork(callers: nat, closers: nat)
    ensures CallersWork(seq(callers, _ => Calling)) == 9 * callers
    ensures ClosersWork(seq(closers, _ => Arriving)) == 7 * closers
    decreases callers + closers
  {
    if callers > 0 {
      StartWork(callers - 1, 0);
      assert seq(callers, _ => Calling)[..callers - 1] == seq(callers - 1, _ => Calling);
    }
    if closers > 0 {
      StartWork(0, closers - 1);
      assert seq(closers, _ => Arriving)[..closers - 1] == seq(closers - 1, _ => Arriving);
    }
  }

  /** No interleaving goes on for ever, and one that cannot go on has every Close returned: whatever the order in which
      steps are taken, every Close gets through. */
  lemma EveryCloseReturns(capacity: nat, callers: nat, closers: nat, steps: seq<Step>, s: Mirror)
    requires Run(Start(capacity, callers, closers), steps, s)
    ensures |steps| <= 9 * callers + 7 * closers + 3
    ensures |s.closers| == closers
    ensures (forall step :: Next(s, step).None?) ==> forall c: nat | c < closers :: s.closers[c] == Returned
  {
    hide Next, Run;
    StartWork(callers, closers);
    RunWorks(Start(capacity, callers, closers), steps, s);
    if forall step :: Next(s, step).None? {
      forall c: nat | c < closers ensures s.closers[c] == Returned {
        if s.closers[c] != Returned {
          CloseNeverSticks(capacity, callers, closers, steps, s, c);
          assert false;
        }
      }
    }
  }

  // ---- What becomes of the jobs ----

  predicate Sends(s: Mirror, step: Step) {
    step.CallerMoves? && step.i < |s.callers| && s.callers[step.i] == Passed && |s.queue| < s.capacity
  }

  predicate Serves(s: Mirror, step: Step) {
    (step == TakeJob || step == DiscardOne) && s.queue != []
  }

  /** The jobs sent in a run, in order. */
  function Sent(s: Mirror, steps: seq<Step>): seq<nat>
    decreases |steps|
  {
    if steps == [] || Next(s, steps[0]).None? then []
    else (if Sends(s, steps[0]) then [steps[0].i] else []) + Sent(Next(s, steps[0]).value, steps[1..])
  }

  /** The jobs the worker took off the queue, in order. */
  function Served(s: Mirror, steps: seq<Step>): seq<nat>
    decreases |steps|
  {
    if steps == [] || Next(s, steps[0]).None? then []
    else (if Serves(s, steps[0]) then [s.queue[0]] else []) + Served(Next(s, steps[0]).value, steps[1..])
  }

  lemma QueueStep(s: Mirror, step: Step)
    requires Next(s, step).Some?
    ensures var s' := Next(s, step).value;
            s'.queue == if Sends(s, step) then s.queue + [step.i] else if Serves(s, step) then s.queue[1..] else s.queue
    ensures !(Sends(s, step) && Serves(s, step))
  {
    hide Readers, Writer;
  }

  /** First in, first out: the jobs served and those still queued are the jobs sent, in the order they were sent. */
  lemma {:induction false} JobsAreServedInOrder(s: Mirror, steps: seq<Step>, s': Mirror)
    requires Run(s, steps, s')
    ensures s.queue + Sent(s, steps) == Served(s, steps) + s'.queue
    decreases |steps|
  {
    if steps != [] {
      hide Next, Sends, Serves;
      var next := Next(s, steps[0]).value;
      QueueStep(s, steps[0]);
      ServesSomething(s, steps[0]);
      JobsAreServedInOrder(next, steps[1..], s');
      Spliced(s.queue, next.queue, if Sends(s, steps[0]) then [steps[0].i] else [], if Serves(s, steps[0]) then [s.queue[0]] else [],
              Sent(next, steps[1..]), Served(next, steps[1..]), s'.queue);
    }
  }

  lemma Spliced(queue: seq<nat>, next: seq<nat>, sent: seq<nat>, served: seq<nat>, sentLater: seq<nat>, servedLater: seq<nat>, last: seq<nat>)
    requires queue + sent == served + next && next + sentLater == servedLater + last
    ensures queue + (sent + sentLater) == (served + servedLater) + last
  {
    assert queue + (sent + sentLater) == (queue + sent) + sentLater == served + (next + sentLater);
  }

  lemma ServesSomething(s: Mirror, step: Step)
    ensures Serves(s, step) ==> s.queue != []
    ensures Sends(s, step) ==> step.CallerMoves?
  {
  }

  function Judgments(steps: seq<Step>, v: Verdict): nat {
    if steps == [] then 0 else (if steps[0] == Judge(v) then 1 else 0) + Judgments(steps[1..], v)
  }

  /** A job is refused only when the queue is full, and discarded only after the stop signal; every verdict is counted. */
  ghost predicate Accounted(s: Mirror, s': Mirror, step: Step) {
    && (s'.refused != s.refused ==> |s.queue| >= s.capacity)
    && (s'.discarded != s.discarded ==> s.worker == Discarding)
    && s'.agreements == s.agreements + (if step == Judge(Agrees) then 1 else 0)
    && s'.errors == s.errors + (if step == Judge(Errs) then 1 else 0)
    && |s'.callers| == |s.callers| && s'.capacity == s.capacity && (s.stopClosed ==> s'.stopClosed)
  }

  lemma CallerAccounts(s: Mirror, i: nat)
    requires i < |s.callers| && MoveCaller(s, i).Some?
    ensures Accounted(s, MoveCaller(s, i).value, CallerMoves(i))
  {
    hide Readers, Writer;
  }

  lemma CloserAccounts(s: Mirror, c: nat)
    requires c < |s.closers| && MoveCloser(s, c).Some?
    ensures Accounted(s, MoveCloser(s, c).value, CloserMoves(c))
  {
    hide Readers, Writer, SetCloser;
    forall x ensures SetCloser(s, c, x) == s.(closers := s.closers[c := x]) {
      SetsOnly(s, c, x);
    }
    match s.closers[c] {
      case Arriving =>
      case InOnce =>
      case Locked =>
      case Marked =>
      case QueueShut =>
      case StopShut =>
      case Waiting =>
    }
  }

  lemma StepAccounts(s: Mirror, step: Step)
    requires Next(s, step).Some?
    ensures Accounted(s, Next(s, step).value, step)
  {
    hide MoveCaller, MoveCloser;
    match step {
      case CallerMoves(i) => CallerAccounts(s, i);
      case CloserMoves(c) => CloserAccounts(s, c);
      case _ =>
    }
  }

  lemma RoomForAll(s: Mirror, i: nat)
    requires Inv(s) && i < |s.callers| && s.callers[i].Passed?
    ensures |s.queue| < |s.callers|
  {
    hide FlagsFit, LockFits, WorkerFits;
    DistinctSize(s.queue);
    var all := PassedSet(s.callers);
    assert Queued(s.queue) <= all - {i} + {};
    Within(all + {i}, |s.callers|);
    SubsetSize(Queued(s.queue), all);
    assert i !in all;
    OneMore(all, i);
  }

  lemma {:induction false} DistinctSize(queue: seq<nat>)
    requires Distinct(queue)
    ensures |Queued(queue)| == |queue|
  {
    if queue != [] {
      QueueHead(queue);
      DistinctSize(queue[1..]);
    }
  }

  lemma SubsetSize(small: set<nat>, big: set<nat>)
    requires small <= big
    ensures |small| <= |big|
  {
    assert big == small + (big - small);
  }

  lemma {:induction false} Within(s: set<nat>, n: nat)
    requires forall x | x in s :: x < n
    ensures |s| <= n
  {
    if n > 0 {
      Within(s - {n - 1}, n - 1);
      if n - 1 in s {
        assert s == (s - {n - 1}) + {n - 1};
      } else {
        assert s == s - {n - 1};
      }
    } else {
      assert s == {};
    }
  }

  lemma {:induction false} NothingIsRefused(s: Mirror, steps: seq<Step>, s': Mirror)
    requires Inv(s) && Run(s, steps, s') && s.refused == {} && |s.callers| <= s.capacity
    ensures s'.refused == {}
    decreases |steps|
  {
    if steps != [] {
      hide Inv, Next;
      var next := Next(s, steps[0]).value;
      StepAccounts(s, steps[0]);
      StepKeeps(s, steps[0]);
      RefusedWithReason(s, steps[0]);
      NothingIsRefused(next, steps[1..], s');
    }
  }

  lemma RefusedWithReason(s: Mirror, step: Step)
    requires Inv(s) && Next(s, step).Some? && |s.callers| <= s.capacity
    ensures Next(s, step).value.refused == s.refused
  {
    hide Inv, Readers, Writer;
    if step.CallerMoves? && s.callers[step.i].Passed? {
      RoomForAll(s, step.i);
    }
  }

  lemma DiscardingIsStopped(s: Mirror)
    requires Inv(s)
    ensures s.worker == Discarding ==> s.stopClosed
  {
    hide FlagsFit, LockFits, JobsFit;
  }

  lemma {:induction false} RunAccounts(s: Mirror, steps: seq<Step>, s': Mirror)
    requires Inv(s) && Run(s, steps, s') && (s.discarded == {} || s.stopClosed)
    ensures s'.discarded == {} || s'.stopClosed
    ensures s'.agreements == s.agreements + Judgments(steps, Agrees) && s'.errors == s.errors + Judgments(steps, Errs)
    decreases |steps|
  {
    if steps != [] {
      hide Inv, Next;
      var next := Next(s, steps[0]).value;
      StepAccounts(s, steps[0]);
      StepKeeps(s, steps[0]);
      DiscardingIsStopped(s);
      RunAccounts(next, steps[1..], s');
    }
  }

  /** No job is lost without a reason: with room for every call none is ever refused, before the stop signal none is discarded,
      and the agreement and error counts are the verdicts given. */
  lemma NothingIsLostWithoutReason(capacity: nat, callers: nat, closers: nat, steps: seq<Step>, s: Mirror)
    requires Run(Start(capacity, callers, closers), steps, s)
    ensures callers <= capacity ==> s.refused == {}
    ensures s.discarded == {} || s.stopClosed
    ensures s.agreements == Judgments(steps, Agrees) && s.errors == Judgments(steps, Errs)
  {
    hide Run, Inv;
    var start := Start(capacity, callers, closers);
    StartFits(capacity, callers, closers);
    RunAccounts(start, steps, s);
    if callers <= capacity {
      NothingIsRefused(start, steps, s);
    }
  }
}
