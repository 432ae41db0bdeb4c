/** Pool commands applied by workers that share a counter: every schedule gives what one command after another would. */
module WorkSharing {
  import opened Hand

  /** One command for one slot. */
  datatype Command<C> = Command(slot: nat, body: C)

  /** What applying a command does to its slot's environment, and what it reports. */
  datatype Outcome<E, R> = Outcome(env: E, report: R)

  type Apply<!E, !C, !R> = (nat, E, C) -> Outcome<E, R>

  /** A worker is about to fetch the counter, holds an index it fetched, or has left. */
  datatype Worker = Ready | Holding(i: nat) | Left

  datatype Pool<E, R> = Pool(envs: seq<E>, next: nat, workers: seq<Worker>, results: seq<Option<(nat, R)>>)

  // ---- Validation ----

  datatype Fault = OutOfRange(slot: nat) | Duplicate(slot: nat)

  predicate SlotTaken<C>(commands: seq<Command<C>>, slot: nat) {
    exists j | 0 <= j < |commands| :: commands[j].slot == slot
  }

  function Validate<C>(commands: seq<Command<C>>, slots: nat): (fault: Option<Fault>)
    ensures fault.None? <==> WellAddressed(commands, slots)
    decreases |commands|
  {
    if commands == [] then None
    else
      var front, c := commands[..|commands| - 1], commands[|commands| - 1];
      var earlier := Validate(front, slots);
      if earlier.Some? then earlier
      else if c.slot >= slots then Some(OutOfRange(c.slot))
      else if SlotTaken(front, c.slot) then Some(Duplicate(c.slot))
      else None
  }

  /** Every slot is in range and addressed at most once. */
  predicate WellAddressed<C>(commands: seq<Command<C>>, slots: nat) {
    && (forall i | 0 <= i < |commands| :: commands[i].slot < slots)
    && (forall i, j | 0 <= i < j < |commands| :: commands[i].slot != commands[j].slot)
  }

  // ---- The machine ----

  function Start<E, R>(envs: seq<E>, commands: nat, workers: nat): Pool<E, R> {
    Pool(envs, 0, seq(workers, _ => Ready), seq(commands, _ => None))
  }

  /** One step of worker w: an atomic fetch-and-add, or the application of the command it holds. */
  function Step<E, C, R>(apply: Apply<E, C, R>, commands: seq<Command<C>>, p: Pool<E, R>, w: nat): Pool<E, R>
    requires |p.results| == |commands|
  {
    if w >= |p.workers| then p
    else
      match p.workers[w]
      case Left => p
      case Ready =>
        p.(next := p.next + 1, workers := p.workers[w := if p.next >= |commands| then Left else Holding(p.next)])
      case Holding(i) =>
        if i >= |commands| || commands[i].slot >= |p.envs| then p
        else
          var c := commands[i];
          var o := apply(c.slot, p.envs[c.slot], c.body);
          p.(envs := p.envs[c.slot := o.env], results := p.results[i := Some((c.slot, o.report))], workers := p.workers[w := Ready])
  }

  function Run<E, C, R>(apply: Apply<E, C, R>, commands: seq<Command<C>>, p: Pool<E, R>, schedule: seq<nat>): (p': Pool<E, R>)
    requires |p.results| == |commands|
    ensures |p'.results| == |commands|
    decreases |schedule|
  {
    if schedule == [] then p
    else
      Step(apply, commands, Run(apply, commands, p, schedule[..|schedule| - 1]), schedule[|schedule| - 1])
  }

  predicate Finished<E, R>(p: Pool<E, R>) {
    forall w | 0 <= w < |p.workers| :: p.workers[w] == Left
  }

  // ---- What each command should have done ----

  function Owed<E, C, R>(apply: Apply<E, C, R>, envs: seq<E>, c: Command<C>): Outcome<E, R>
    requires c.slot < |envs|
  {
    apply(c.slot, envs[c.slot], c.body)
  }

  predicate Held<E, R>(p: Pool<E, R>, i: nat) {
    exists w | 0 <= w < |p.workers| :: p.workers[w] == Holding(i)
  }

  /** The index was handed out and its command has been applied. */
  predicate Done<E, R>(p: Pool<E, R>, i: nat) {
    i < p.next && !Held(p, i)
  }

  /** Between any two steps: an index below the counter is held by exactly one worker or done, and each slot shows the
      effect of its command exactly when that command is done. */
  ghost predicate Shared<E, C, R>(apply: Apply<E, C, R>, commands: seq<Command<C>>, envs: seq<E>, p: Pool<E, R>) {
    && WellAddressed(commands, |envs|) && |p.envs| == |envs| && |p.results| == |commands|
    && (forall w | 0 <= w < |p.workers| && p.workers[w].Holding? :: p.workers[w].i < p.next && p.workers[w].i < |commands|)
    && (forall v, w | 0 <= v < w < |p.workers| && p.workers[v].Holding? :: p.workers[w] != p.workers[v])
    && (forall w | 0 <= w < |p.workers| && p.workers[w].Left? :: p.next >= |commands|)
    && (forall i: nat | i < |commands| ::
          && (Done(p, i) ==> p.results[i] == Some((commands[i].slot, Owed(apply, envs, commands[i]).report))
                             && p.envs[commands[i].slot] == Owed(apply, envs, commands[i]).env)
          && (!Done(p, i) ==> p.results[i] == None && p.envs[commands[i].slot] == envs[commands[i].slot]))
    && (forall s: nat | s < |envs| && !SlotTaken(commands, s) :: p.envs[s] == envs[s])
  }

  lemma StartIsShared<E, C, R>(apply: Apply<E, C, R>, commands: seq<Command<C>>, envs: seq<E>, workers: nat)
    requires WellAddressed(commands, |envs|)
    ensures Shared(apply, commands, envs, Start(envs, |commands|, workers))
  {
  }

  lemma FetchKeeps<E, C, R>(apply: Apply<E, C, R>, commands: seq<Command<C>>, envs: seq<E>, p: Pool<E, R>, w: nat)
    requires WellAddressed(commands, |envs|) && Shared(apply, commands, envs, p) && w < |p.workers| && p.workers[w].Ready?
    ensures Shared(apply, commands, envs, Step(apply, commands, p, w))
  {
    hide Owed, SlotTaken;
    var p' := Step(apply, commands, p, w);
    forall i: nat | i < |commands| ensures Done(p', i) <==> Done(p, i) {
      if i == p.next {
        assert p'.workers[w] == Holding(i);
      } else if Held(p, i) {
        var v :| 0 <= v < |p.workers| && p.workers[v] == Holding(i);
        assert p'.workers[v] == Holding(i);
      } else {
        assert forall v | 0 <= v < |p.workers| && v != w :: p'.workers[v] == p.workers[v];
      }
    }
  }

  lemma ApplyKeeps<E, C, R>(apply: Apply<E, C, R>, commands: seq<Command<C>>, envs: seq<E>, p: Pool<E, R>, w: nat)
    requires WellAddressed(commands, |envs|) && Shared(apply, commands, envs, p) && w < |p.workers| && p.workers[w].Holding?
    ensures Shared(apply, commands, envs, Step(apply, commands, p, w))
  {
    var p' := Step(apply, commands, p, w);
    var i := p.workers[w].i;
    assert Held(p, i);
    forall j: nat | j < |commands| ensures Done(p', j) <==> Done(p, j) || j == i {
      if j != i && Held(p, j) {
        var v :| 0 <= v < |p.workers| && p.workers[v] == Holding(j);
        assert p'.workers[v] == Holding(j);
      } else {
        assert forall v | 0 <= v < |p.workers| && v != w :: p'.workers[v] == p.workers[v];
      }
    }
    assert SlotTaken(commands, commands[i].slot);
  }

  lemma {:induction false} RunKeeps<E, C, R>(apply: Apply<E, C, R>, commands: seq<Command<C>>, envs: seq<E>, p: Pool<E, R>, schedule: seq<nat>)
    requires WellAddressed(commands, |envs|) && Shared(apply, commands, envs, p)
    ensures Shared(apply, commands, envs, Run(apply, commands, p, schedule))
    decreases |schedule|
  {
    if schedule != [] {
      hide Shared;
      RunKeeps(apply, commands, envs, p, schedule[..|schedule| - 1]);
      var q := Run(apply, commands, p, schedule[..|schedule| - 1]);
      var w := schedule[|schedule| - 1];
      if w < |q.workers| && q.workers[w].Ready? {
        FetchKeeps(apply, commands, envs, q, w);
      } else if w < |q.workers| && q.workers[w].Holding? {
        ApplyKeeps(apply, commands, envs, q, w);
      }
    }
  }

  // ---- The sequential reference ----

  /** The commands one after another. */
  function InOrder<E, C, R>(apply: Apply<E, C, R>, commands: seq<Command<C>>, envs: seq<E>): (r: (seq<E>, seq<(nat, R)>))
    requires forall i | 0 <= i < |commands| :: commands[i].slot < |envs|
    ensures |r.0| == |envs| && |r.1| == |commands|
    decreases |commands|
  {
    if commands == [] then (envs, [])
    else
      var (envs', reports) := InOrder(apply, commands[..|commands| - 1], envs);
      var c := commands[|commands| - 1];
      var o := apply(c.slot, envs'[c.slot], c.body);
      (envs'[c.slot := o.env], reports + [(c.slot, o.report)])
  }

  lemma {:induction false} InOrderOwes<E, C, R>(apply: Apply<E, C, R>, commands: seq<Command<C>>, envs: seq<E>)
    requires WellAddressed(commands, |envs|)
    ensures var (envs', reports) := InOrder(apply, commands, envs);
            && (forall i: nat | i < |commands| :: reports[i] == (commands[i].slot, Owed(apply, envs, commands[i]).report)
                                                  && envs'[commands[i].slot] == Owed(apply, envs, commands[i]).env)
            && (forall s: nat | s < |envs| && !SlotTaken(commands, s) :: envs'[s] == envs[s])
    decreases |commands|
  {
    if commands != [] {
      var last := |commands| - 1;
      var front := commands[..last];
      InOrderOwes(apply, front, envs);
      assert forall s: nat :: SlotTaken(commands, s) <==> SlotTaken(front, s) || s == commands[last].slot by {
        forall s: nat ensures SlotTaken(commands, s) <==> SlotTaken(front, s) || s == commands[last].slot {
          TakenGrows(commands, s);
        }
      }
      assert !SlotTaken(front, commands[last].slot);
    }
  }

  lemma TakenGrows<C>(commands: seq<Command<C>>, s: nat)
    requires commands != []
    ensures SlotTaken(commands, s) <==> SlotTaken(commands[..|commands| - 1], s) || s == commands[|commands| - 1].slot
  {
    var front := commands[..|commands| - 1];
    if SlotTaken(front, s) {
      var j :| 0 <= j < |front| && front[j].slot == s;
      assert commands[j].slot == s;
    }
    if SlotTaken(commands, s) && s != commands[|commands| - 1].slot {
      var j :| 0 <= j < |commands| && commands[j].slot == s;
      assert front[j].slot == s;
    }
  }

  /** The results as they are returned: the reports in the order of the command list before sorting. */
  function Reports<E, R>(p: Pool<E, R>): (r: seq<(nat, R)>)
    requires forall i | 0 <= i < |p.results| :: p.results[i].Some?
    ensures |r| == |p.results| && forall i | 0 <= i < |r| :: p.results[i] == Some(r[i])
  {
    seq(|p.results|, i requires 0 <= i < |p.results| => p.results[i].value)
  }

  /** Once all workers have left, whatever the schedule and however many there were (at least one), every command has been
      applied exactly once and the pool is where applying them in list order would leave it. */
  lemma AnyScheduleIsInOrder<E, C, R>(apply: Apply<E, C, R>, commands: seq<Command<C>>, envs: seq<E>, workers: nat, schedule: seq<nat>)
    requires WellAddressed(commands, |envs|) && workers > 0
    requires Finished(Run(apply, commands, Start(envs, |commands|, workers), schedule))
    ensures var p := Run(apply, commands, Start(envs, |commands|, workers), schedule);
            && (forall i | 0 <= i < |p.results| :: p.results[i].Some?)
            && (p.envs, Reports(p)) == InOrder(apply, commands, envs)
  {
    var p := Run(apply, commands, Start(envs, |commands|, workers), schedule);
    StartIsShared(apply, commands, envs, workers);
    RunKeeps(apply, commands, envs, Start(envs, |commands|, workers), schedule);
    WorkersStay(apply, commands, Start<E, R>(envs, |commands|, workers), schedule);
    assert p.workers[0] == Left;
    InOrderOwes(apply, commands, envs);
    var (envs', reports) := InOrder(apply, commands, envs);
    forall i: nat | i < |commands| ensures Done(p, i) {
    }
    forall s: nat | s < |envs| ensures p.envs[s] == envs'[s] {
      if SlotTaken(commands, s) {
        var j :| 0 <= j < |commands| && commands[j].slot == s;
        assert Done(p, j);
      }
    }
    assert forall i | 0 <= i < |p.results| :: Done(p, i) && p.results[i].Some?;
    assert Reports(p) == reports;
    assert p.envs == envs';
  }

  lemma {:induction false} WorkersStay<E, C, R>(apply: Apply<E, C, R>, commands: seq<Command<C>>, p: Pool<E, R>, schedule: seq<nat>)
    requires |p.results| == |commands|
    ensures |Run(apply, commands, p, schedule).workers| == |p.workers|
    decreases |schedule|
  {
    if schedule != [] {
      WorkersStay(apply, commands, p, schedule[..|schedule| - 1]);
    }
  }

  // ---- Every worker gets to its end ----

  /** How often the schedule has a worker move. */
  function Turns(schedule: seq<nat>, w: nat): nat {
    if schedule == [] then 0
    else Turns(schedule[..|schedule| - 1], w) + if schedule[|schedule| - 1] == w then 1 else 0
  }

  /** The turns worker w can still use: two for every index not handed out, and those to finish what it holds. */
  function TurnsLeft<E, R>(p: Pool<E, R>, w: nat): (n: nat)
    requires w < |p.workers|
    ensures p.workers[w] != Left ==> n > 0
  {
    (if p.next < |p.results| then 2 * (|p.results| - p.next) else 0)
    + match p.workers[w] case Left => 0 case Ready => 1 case Holding(_) => 2
  }

  lemma TurnIsUsed<E, C, R>(apply: Apply<E, C, R>, commands: seq<Command<C>>, envs: seq<E>, p: Pool<E, R>, v: nat, w: nat)
    requires WellAddressed(commands, |envs|) && Shared(apply, commands, envs, p) && w < |p.workers|
    ensures var p' := Step(apply, commands, p, v);
            && |p'.workers| == |p.workers| && (p.workers[w] == Left ==> p'.workers[w] == Left)
            && (p'.workers[w] != Left ==> TurnsLeft(p', w) + (if v == w then 1 else 0) <= TurnsLeft(p, w))
  {
  }

  lemma {:induction false} TurnsAreUsed<E, C, R>(apply: Apply<E, C, R>, commands: seq<Command<C>>, envs: seq<E>, workers: nat, schedule: seq<nat>, w: nat)
    requires WellAddressed(commands, |envs|) && w < workers
    ensures var p := Run(apply, commands, Start(envs, |commands|, workers), schedule);
            && |p.workers| == workers
            && (p.workers[w] != Left ==> Turns(schedule, w) + TurnsLeft(p, w) <= 2 * |commands| + 1)
    decreases |schedule|
  {
    hide Shared;
    if schedule != [] {
      var start := Start<E, R>(envs, |commands|, workers);
      var front, v := schedule[..|schedule| - 1], schedule[|schedule| - 1];
      TurnsAreUsed(apply, commands, envs, workers, front, w);
      StartIsShared(apply, commands, envs, workers);
      RunKeeps(apply, commands, envs, start, front);
      TurnIsUsed(apply, commands, envs, Run(apply, commands, start, front), v, w);
    }
  }

  /** Any schedule that gives every worker one turn more than twice the number of commands ends with all of them gone, and
      so with the pool where applying the commands in list order would leave it. */
  lemma FairSchedulesFinish<E, C, R>(apply: Apply<E, C, R>, commands: seq<Command<C>>, envs: seq<E>, workers: nat, schedule: seq<nat>)
    requires WellAddressed(commands, |envs|) && workers > 0
    requires forall w: nat | w < workers :: Turns(schedule, w) > 2 * |commands|
    ensures var p := Run(apply, commands, Start(envs, |commands|, workers), schedule);
            && Finished(p) && (forall i | 0 <= i < |p.results| :: p.results[i].Some?)
            && (p.envs, Reports(p)) == InOrder(apply, commands, envs)
  {
    hide Run;
    var p := Run(apply, commands, Start(envs, |commands|, workers), schedule);
    TurnsAreUsed(apply, commands, envs, workers, schedule, 0);
    forall w: nat | w < |p.workers| ensures p.workers[w] == Left {
      TurnsAreUsed(apply, commands, envs, workers, schedule, w);
    }
    AnyScheduleIsInOrder(apply, commands, envs, workers, schedule);
  }

  // ---- Slot order ----

  predicate DistinctSlots<R>(rs: seq<(nat, R)>) {
    forall i, j | 0 <= i < j < |rs| :: rs[i].0 != rs[j].0
  }

  predicate SlotAscending<R>(rs: seq<(nat, R)>) {
    forall i, j | 0 <= i < j < |rs| :: rs[i].0 < rs[j].0
  }

  function InsertBySlot<R(!new)>(rs: seq<(nat, R)>, t: (nat, R)): (r: seq<(nat, R)>)
    requires SlotAscending(rs) && forall x | x in rs :: x.0 != t.0
    ensures SlotAscending(r) && |r| == |rs| + 1 && forall x :: x in r <==> x in rs || x == t
    ensures r[0] == if rs == [] || t.0 < rs[0].0 then t else rs[0]
  {
    if rs == [] || t.0 < rs[0].0 then [t] + rs
    else
      assert rs == [rs[0]] + rs[1..];
      assert rs[0].0 != t.0;
      [rs[0]] + InsertBySlot(rs[1..], t)
  }

  function SortBySlot<R(!new)>(rs: seq<(nat, R)>): (r: seq<(nat, R)>)
    requires DistinctSlots(rs)
    ensures SlotAscending(r) && |r| == |rs| && forall x :: x in r <==> x in rs
    decreases |rs|
  {
    if rs == [] then []
    else
      assert rs == rs[..|rs| - 1] + [rs[|rs| - 1]];
      InsertBySlot(SortBySlot(rs[..|rs| - 1]), rs[|rs| - 1])
  }

  lemma {:induction false} SlotOrderIsUnique<R(!new)>(a: seq<(nat, R)>, b: seq<(nat, R)>)
    requires SlotAscending(a) && SlotAscending(b) && |a| == |b| && forall x :: x in a <==> x in b
    ensures a == b
    decreases |a|
  {
    if |a| > 0 {
      assert a[0] in b && b[0] in a;
      assert a[0] == b[0];
      forall x ensures x in a[1..] <==> x in b[1..] {
        NotFirst(a, x);
        NotFirst(b, x);
      }
      SlotOrderIsUnique(a[1..], b[1..]);
      assert a == [a[0]] + a[1..] && b == [b[0]] + b[1..];
    }
  }

  lemma NotFirst<R(!new)>(a: seq<(nat, R)>, x: (nat, R))
    requires SlotAscending(a) && a != []
    ensures x in a[1..] <==> x in a && x != a[0]
  {
    assert a == [a[0]] + a[1..];
  }

  lemma ReportsAre<E, C(!new), R(!new)>(apply: Apply<E, C, R>, commands: seq<Command<C>>, envs: seq<E>)
    requires WellAddressed(commands, |envs|)
    ensures var reports := InOrder(apply, commands, envs).1;
            DistinctSlots(reports)
            && forall x :: x in reports <==> exists c :: c in commands && x == (c.slot, Owed(apply, envs, c).report)
  {
    InOrderOwes(apply, commands, envs);
    var reports := InOrder(apply, commands, envs).1;
    forall c | c in commands ensures (c.slot, Owed(apply, envs, c).report) in reports {
      var i :| 0 <= i < |commands| && commands[i] == c;
      assert reports[i] in reports;
    }
    forall x | x in reports ensures exists c :: c in commands && x == (c.slot, Owed(apply, envs, c).report) {
      var i :| 0 <= i < |reports| && reports[i] == x;
      assert commands[i] in commands;
    }
  }

  /** A round's answer depends on the commands alone: list order, number of workers and schedule make no difference to the
      environments left behind or to the slot-ordered results. */
  lemma RoundsAreOrderIndependent<E, C(!new), R(!new)>(apply: Apply<E, C, R>, envs: seq<E>, commands: seq<Command<C>>, commands': seq<Command<C>>,
                                           workers: nat, workers': nat, schedule: seq<nat>, schedule': seq<nat>)
    requires WellAddressed(commands, |envs|) && WellAddressed(commands', |envs|) && workers > 0 && workers' > 0
    requires |commands| == |commands'| && forall c :: c in commands <==> c in commands'
    requires Finished(Run(apply, commands, Start(envs, |commands|, workers), schedule))
    requires Finished(Run(apply, commands', Start(envs, |commands'|, workers'), schedule'))
    ensures var p := Run(apply, commands, Start(envs, |commands|, workers), schedule);
            var p' := Run(apply, commands', Start(envs, |commands'|, workers'), schedule');
            && (forall i | 0 <= i < |p.results| :: p.results[i].Some?) && (forall i | 0 <= i < |p'.results| :: p'.results[i].Some?)
            && DistinctSlots(Reports(p)) && DistinctSlots(Reports(p'))
            && p'.envs == p.envs && SortBySlot(Reports(p')) == SortBySlot(Reports(p))
  {
    hide Run, SortBySlot;
    AnyScheduleIsInOrder(apply, commands, envs, workers, schedule);
    AnyScheduleIsInOrder(apply, commands', envs, workers', schedule');
    ReportsAre(apply, commands, envs);
    ReportsAre(apply, commands', envs);
    SlotOrderIsUnique(SortBySlot(InOrder(apply, commands, envs).1), SortBySlot(InOrder(apply, commands', envs).1));
    InOrderOwes(apply, commands, envs);
    InOrderOwes(apply, commands', envs);
    SameEnvs(apply, commands, commands', envs);
  }

  lemma SameEnvs<E, C(!new), R>(apply: Apply<E, C, R>, commands: seq<Command<C>>, commands': seq<Command<C>>, envs: seq<E>)
    requires WellAddressed(commands, |envs|) && WellAddressed(commands', |envs|) && forall c :: c in commands <==> c in commands'
    ensures InOrder(apply, commands', envs).0 == InOrder(apply, commands, envs).0
  {
    InOrderOwes(apply, commands, envs);
    InOrderOwes(apply, commands', envs);
    var left, right := InOrder(apply, commands, envs).0, InOrder(apply, commands', envs).0;
    forall s: nat | s < |envs| ensures right[s] == left[s] {
      if SlotTaken(commands, s) {
        var j :| 0 <= j < |commands| && commands[j].slot == s;
        assert commands[j] in commands';
        var k :| 0 <= k < |commands'| && commands'[k] == commands[j];
        assert commands'[k].slot == s;
      } else {
        TakenIn(commands, s);
        TakenIn(commands', s);
      }
    }
  }

  lemma TakenIn<C(!new)>(commands: seq<Command<C>>, s: nat)
    ensures SlotTaken(commands, s) <==> exists c :: c in commands && c.slot == s
  {
    if SlotTaken(commands, s) {
      var j :| 0 <= j < |commands| && commands[j].slot == s;
      assert commands[j] in commands;
    }
  }
}
