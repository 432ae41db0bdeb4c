/** The recorder of supervision rows: which hand a row goes to, also when its action has just ended that hand. */
module TraceRecorder {
  import opened Hand
  import opened TraceMatcher

  /** Rows with their index in the hand, and the hand's result once it is closed. */
  datatype Round = Round(rows: seq<(nat, Row)>, result: Option<Result>)

  datatype Log = Log(rounds: seq<Round>, current: Option<Round>)

  const EMPTY_LOG := Log([], None)

  datatype Op = StartRound | EndRound(result: Result) | RecordDecision(row: Row)

  function Added(r: Round, row: Row): Round {
    r.(rows := r.rows + [(|r.rows|, row)])
  }

  /** A row goes to the open hand, else to the hand closed last; before any hand it is dropped. */
  function Recorded(l: Log, row: Row): Log {
    if l.current.Some? then l.(current := Some(Added(l.current.value, row)))
    else if l.rounds == [] then l
    else l.(rounds := l.rounds[|l.rounds| - 1 := Added(l.rounds[|l.rounds| - 1], row)])
  }

  function Ended(l: Log, result: Result): Log {
    if l.current.None? then l else Log(l.rounds + [l.current.value.(result := Some(result))], None)
  }

  function Apply(l: Log, op: Op): Log {
    match op
    case StartRound => l.(current := Some(Round([], None)))
    case EndRound(result) => Ended(l, result)
    case RecordDecision(row) => Recorded(l, row)
  }

  /** What is persisted at any moment: the closed hands and, without a result, the open one. */
  function Snapshot(l: Log): seq<Round> {
    if l.current.None? then l.rounds else l.rounds + [l.current.value.(result := None)]
  }

  /** The row of the action that ended a hand lands where it would have landed before the hand was closed. */
  lemma LateRowsAreNotLost(l: Log, row: Row, result: Result)
    requires l.current.Some?
    ensures Recorded(Ended(l, result), row) == Ended(Recorded(l, row), result)
  {
    var closed := l.rounds + [l.current.value.(result := Some(result))];
    assert closed[|closed| - 1 := Added(closed[|closed| - 1], row)] == l.rounds + [Added(l.current.value, row).(result := Some(result))];
  }

  function RowsOf(r: Round): seq<Row> {
    seq(|r.rows|, i requires 0 <= i < |r.rows| => r.rows[i].1)
  }

  function AllRecorded(rounds: seq<Round>): seq<Row> {
    if rounds == [] then [] else AllRecorded(rounds[..|rounds| - 1]) + RowsOf(rounds[|rounds| - 1])
  }

  /** The rows fed, in order. */
  function Fed(ops: seq<Op>): seq<Row> {
    if ops == [] then []
    else
      var last := ops[|ops| - 1];
      Fed(ops[..|ops| - 1]) + if last.RecordDecision? then [last.row] else []
  }

  function After(ops: seq<Op>): Log {
    if ops == [] then EMPTY_LOG else Apply(After(ops[..|ops| - 1]), ops[|ops| - 1])
  }

  /** As the engine drives it: rows come only once a hand has started, and a hand starts only when none is open. */
  predicate Driven(ops: seq<Op>) {
    if ops == [] then true
    else
      var before := After(ops[..|ops| - 1]);
      && Driven(ops[..|ops| - 1])
      && (ops[|ops| - 1].RecordDecision? ==> before.current.Some? || before.rounds != [])
      && (ops[|ops| - 1].StartRound? ==> before.current.None?)
  }

  ghost predicate Indexed(rounds: seq<Round>) {
    forall k, i | 0 <= k < |rounds| && 0 <= i < |rounds[k].rows| :: rounds[k].rows[i].0 == i
  }

  lemma LastRound(rounds: seq<Round>, r: Round)
    ensures AllRecorded(rounds + [r]) == AllRecorded(rounds) + RowsOf(r)
  {
    assert (rounds + [r])[..|rounds|] == rounds;
  }

  lemma RowAdded(r: Round, row: Row)
    ensures RowsOf(Added(r, row)) == RowsOf(r) + [row]
  {
  }

  lemma SameRows(r: Round, result: Option<Result>)
    ensures RowsOf(r.(result := result)) == RowsOf(r)
  {
  }

  lemma RecordedGoesLast(l: Log, row: Row)
    requires l.current.Some? || l.rounds != []
    ensures AllRecorded(Snapshot(Recorded(l, row))) == AllRecorded(Snapshot(l)) + [row]
  {
    hide AllRecorded, RowsOf;
    if l.current.Some? {
      var r := l.current.value;
      LastRound(l.rounds, r.(result := None));
      LastRound(l.rounds, Added(r, row).(result := None));
      SameRows(r, None);
      SameRows(Added(r, row), None);
      RowAdded(r, row);
    } else {
      var last := |l.rounds| - 1;
      var front, r := l.rounds[..last], l.rounds[last];
      assert l.rounds == front + [r] && Recorded(l, row).rounds == front + [Added(r, row)];
      LastRound(front, r);
      LastRound(front, Added(r, row));
      RowAdded(r, row);
    }
  }

  lemma RecordedIsIndexed(l: Log, row: Row)
    requires (l.current.Some? || l.rounds != []) && Indexed(Snapshot(l))
    ensures Indexed(Snapshot(Recorded(l, row)))
  {
    var before, after := Snapshot(l), Snapshot(Recorded(l, row));
    var last := |before| - 1;
    assert after == before[last := Added(before[last], row)];
  }

  /** At every moment of a recorded match the snapshot holds exactly the rows fed, in order, each numbered by its place in
      its hand. */
  lemma {:induction false} RecorderKeepsEveryRow(ops: seq<Op>)
    requires Driven(ops)
    ensures AllRecorded(Snapshot(After(ops))) == Fed(ops) && Indexed(Snapshot(After(ops)))
    decreases |ops|
  {
    if ops != [] {
      hide Recorded, Indexed;
      var before, op := After(ops[..|ops| - 1]), ops[|ops| - 1];
      RecorderKeepsEveryRow(ops[..|ops| - 1]);
      match op {
        case RecordDecision(row) =>
          RecordedGoesLast(before, row);
          RecordedIsIndexed(before, row);
        case StartRound =>
          LastRound(before.rounds, Round([], None));
          NewRoundIndexed(before.rounds);
        case EndRound(result) =>
          if before.current.Some? {
            ClosedSame(before, result);
          }
      }
    }
  }

  lemma NewRoundIndexed(rounds: seq<Round>)
    requires Indexed(rounds)
    ensures Indexed(rounds + [Round([], None)])
  {
  }

  lemma ClosedSame(l: Log, result: Result)
    requires l.current.Some? && Indexed(Snapshot(l))
    ensures AllRecorded(Snapshot(Ended(l, result))) == AllRecorded(Snapshot(l)) && Indexed(Snapshot(Ended(l, result)))
  {
    var r := l.current.value;
    LastRound(l.rounds, r.(result := Some(result)));
    LastRound(l.rounds, r.(result := None));
    SameRows(r, Some(result));
    SameRows(r, None);
    hide RowsOf, AllRecorded;
    assert Snapshot(l)[|l.rounds|] == r.(result := None);
    forall k | 0 <= k <= |l.rounds| ensures Snapshot(Ended(l, result))[k].rows == Snapshot(l)[k].rows {
    }
  }

  class PaipuRecorder {
    var rounds: seq<Round>
    var currentRound: Option<Round>

    ghost function Now(): Log
      reads this
    {
      Log(rounds, currentRound)
    }

    constructor ()
      ensures Now() == EMPTY_LOG
    {
      rounds, currentRound := [], None;
    }

    method StartRound()
      modifies this`currentRound
      ensures Now() == Apply(old(Now()), Op.StartRound)
    {
      currentRound := Some(Round([], None));
    }

    method EndRound(result: Result)
      modifies this
      ensures Now() == Ended(old(Now()), result)
    {
      if currentRound.None? {
        return;
      }
      var round := currentRound.value.(result := Some(result));
      rounds := rounds + [round];
      currentRound := None;
    }

    method RecordDecision(row: Row)
      modifies this
      ensures Now() == Recorded(old(Now()), row)
    {
      if currentRound.Some? {
        var target := currentRound.value;
        currentRound := Some(target.(rows := target.rows + [(|target.rows|, row)]));
        return;
      }
      if |rounds| == 0 {
        return;
      }
      var target := rounds[|rounds| - 1];
      rounds := rounds[|rounds| - 1 := target.(rows := target.rows + [(|target.rows|, row)])];
    }

    method TakeSnapshot() returns (snap: seq<Round>)
      ensures snap == Snapshot(Now())
    {
      snap := rounds;
      if currentRound.Some? {
        var partial := currentRound.value.(result := None);
        snap := snap + [partial];
      }
    }
  }
}
