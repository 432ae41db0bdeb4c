/** Matching the recorded supervision rows of a hand with the decision points a replay reconstructs. */
module TraceMatcher {
  import opened Hand

  const MAX_LOOKAHEAD := 2

  /** A recorded decision: chosen action id (-1 when it could not be encoded) and the legal ids seen at the time. */
  datatype Row = Row(seat: Seat, chosen: int, legalIds: seq<int>, legalIdsError: bool)

  /** A reconstructed decision: its legal ids in ascending order, and the id fed to the engine when it is explicit. */
  datatype Point = Point(seat: Seat, legal: seq<int>, want: Option<int>)

  predicate ChosenIsLegal(row: Row, p: Point) {
    row.chosen == -1 || row.chosen in p.legal
  }

  /** Both checks a matched row must pass. */
  predicate RowFits(row: Row, p: Point) {
    && ChosenIsLegal(row, p)
    && (p.want.Some? && row.chosen != -1 ==> row.chosen == p.want.value)
    && (row.legalIdsError || row.legalIds == p.legal)
  }

  /** How far the cross-check has come; matched is empty until the first point. */
  datatype Progress = Progress(cursor: nat, matched: seq<bool>, multiOption: nat, unmatchedExplicit: nat)

  const START := Progress(0, [], 0, 0)

  /** The oldest unmatched row from c on. */
  function Advance(matched: seq<bool>, c: nat): (r: nat)
    ensures c <= r && (c <= |matched| ==> r <= |matched|)
    ensures forall i | c <= i < r :: i < |matched| && matched[i]
    ensures r < |matched| ==> !matched[r]
    decreases |matched| - c
  {
    if c < |matched| && matched[c] then Advance(matched, c + 1) else c
  }

  predicate Candidate(rows: seq<Row>, matched: seq<bool>, p: Point, i: nat)
    requires i < |rows| == |matched|
  {
    !matched[i] && rows[i].seat == p.seat && ChosenIsLegal(rows[i], p)
  }

  /** The first row in [i, limit) this point may take. */
  function Scan(rows: seq<Row>, matched: seq<bool>, p: Point, i: nat, limit: nat): (r: Option<nat>)
    requires limit <= |rows| == |matched|
    ensures r.Some? ==> i <= r.value < limit && Candidate(rows, matched, p, r.value)
    ensures r.Some? ==> forall j | i <= j < r.value :: !Candidate(rows, matched, p, j)
    ensures r.None? ==> forall j | i <= j < limit :: !Candidate(rows, matched, p, j)
    decreases limit - i
  {
    if i >= limit then None
    else if Candidate(rows, matched, p, i) then Some(i)
    else Scan(rows, matched, p, i + 1, limit)
  }

  function NoneMatched(n: nat): (m: seq<bool>)
    ensures |m| == n && forall i | 0 <= i < n :: !m[i]
  {
    seq(n, _ => false)
  }

  function Fresh(rows: seq<Row>, matched: seq<bool>): (m: seq<bool>)
    requires |matched| == 0 || |matched| == |rows|
    ensures |m| == |rows|
  {
    if matched == [] then NoneMatched(|rows|) else matched
  }

  predicate Sized(rows: seq<Row>, t: Progress) {
    && (|t.matched| == 0 || |t.matched| == |rows|)
    && t.cursor <= |t.matched|
  }

  /** One point checked: the new progress, the row it took, and whether that row passed. */
  datatype Check = Check(next: Progress, row: Option<nat>, ok: bool)

  function NoRow(t: Progress, p: Point): Check {
    Check(if p.want.Some? then t.(unmatchedExplicit := t.unmatchedExplicit + 1) else t, None, true)
  }

  function Limit(rows: seq<Row>, c: nat): (limit: nat)
    ensures limit <= |rows| && limit <= c + 1 + MAX_LOOKAHEAD
    ensures limit == |rows| || limit == c + 1 + MAX_LOOKAHEAD
  {
    if c + 1 + MAX_LOOKAHEAD > |rows| then |rows| else c + 1 + MAX_LOOKAHEAD
  }

  function CrossCheck(rows: seq<Row>, t: Progress, p: Point): (c: Check)
    requires Sized(rows, t)
    ensures Sized(rows, c.next)
  {
    var t1 := if |p.legal| > 1 then t.(multiOption := t.multiOption + 1) else t;
    if rows == [] then Check(t1, None, true)
    else
      var m := Fresh(rows, t.matched);
      var c := Advance(m, t.cursor);
      var t2 := t1.(matched := m, cursor := c);
      if c >= |rows| then NoRow(t2, p)
      else if rows[c].seat == p.seat then
        var m' := m[c := true];
        Check(t2.(matched := m', cursor := Advance(m', c)), Some(c), RowFits(rows[c], p))
      else
        match Scan(rows, m, p, c + 1, Limit(rows, c))
        case None => NoRow(t2, p)
        case Some(i) => Check(t2.(matched := m[i := true]), Some(i), RowFits(rows[i], p))
  }

  /** A whole hand's points in replay order; rows taken, point by point, and whether every taken row passed. */
  function Replay(rows: seq<Row>, t: Progress, points: seq<Point>): (r: (Progress, seq<Option<nat>>, bool))
    requires Sized(rows, t)
    ensures Sized(rows, r.0) && |r.1| <= |points| && (r.2 ==> |r.1| == |points|)
    decreases |points|
  {
    if points == [] then (t, [], true)
    else
      var c := CrossCheck(rows, t, points[0]);
      if !c.ok then (c.next, [c.row], false)
      else
        var (t', taken, ok) := Replay(rows, c.next, points[1..]);
        (t', [c.row] + taken, ok)
  }

  /** The verdict at the end of a hand. */
  predicate Consumed(version: nat, rows: seq<Row>, t: Progress)
    requires Sized(rows, t)
  {
    && !(version >= 2 && t.unmatchedExplicit > 0)
    && if rows == [] then !(version >= 2 && t.multiOption > 0)
       else forall i | 0 <= i < |rows| :: Fresh(rows, t.matched)[i]
  }

  predicate Accepted(version: nat, rows: seq<Row>, points: seq<Point>) {
    var (t, _, ok) := Replay(rows, START, points);
    ok && Consumed(version, rows, t)
  }

  function Taken(rows: seq<Row>, points: seq<Point>): seq<Option<nat>> {
    Replay(rows, START, points).1
  }

  // ---- Soundness ----

  /** Rows taken by these points, given that the marked rows were taken before: right seat, both checks passed, each row
      once, and never more than two rows past the oldest row still open at that moment. */
  ghost predicate SoundMatch(rows: seq<Row>, marked: seq<bool>, points: seq<Point>, taken: seq<Option<nat>>) {
    && |taken| == |points| && |marked| == |rows|
    && (forall k | 0 <= k < |taken| && taken[k].Some? ::
          taken[k].value < |rows| && rows[taken[k].value].seat == points[k].seat && RowFits(rows[taken[k].value], points[k])
          && !marked[taken[k].value])
    && (forall k, l | 0 <= k < l < |taken| && taken[k].Some? :: taken[l] != taken[k])
    && (forall k, j: nat | 0 <= k < |taken| && taken[k].Some? && j + MAX_LOOKAHEAD < taken[k].value :: marked[j] || Some(j) in taken[..k])
  }

  ghost predicate Covered(marked: seq<bool>, taken: seq<Option<nat>>, marked': seq<bool>) {
    |marked'| == |marked| && forall i: nat | i < |marked| :: marked'[i] <==> marked[i] || Some(i) in taken
  }

  /** Everything before the cursor has been matched. */
  predicate CursorBehind(rows: seq<Row>, t: Progress)
    requires Sized(rows, t)
  {
    forall i | 0 <= i < t.cursor :: t.matched[i]
  }

  lemma StepIsSound(rows: seq<Row>, t: Progress, p: Point)
    requires Sized(rows, t) && CursorBehind(rows, t) && rows != []
    ensures var c := CrossCheck(rows, t, p);
            && CursorBehind(rows, c.next) && c.next.matched != []
            && var m := Fresh(rows, t.matched);
               match c.row
               case None => c.ok && c.next.matched == m
               case Some(i) =>
                 && i < |rows| && !m[i] && rows[i].seat == p.seat && c.ok == RowFits(rows[i], p)
                 && c.next.matched == m[i := true]
                 && forall j | 0 <= j < i - MAX_LOOKAHEAD :: m[j]
    ensures CrossCheck(rows, t, p).next.unmatchedExplicit
         == t.unmatchedExplicit + if p.want.Some? && CrossCheck(rows, t, p).row.None? then 1 else 0
  {
  }

  lemma SoundCons(rows: seq<Row>, m: seq<bool>, p: Point, row: Option<nat>, points: seq<Point>, taken: seq<Option<nat>>)
    requires |m| == |rows| && (row.Some? ==> row.value < |rows| && !m[row.value] && rows[row.value].seat == p.seat && RowFits(rows[row.value], p))
    requires row.Some? ==> forall j | 0 <= j < row.value - MAX_LOOKAHEAD :: m[j]
    requires SoundMatch(rows, if row.Some? then m[row.value := true] else m, points, taken)
    ensures SoundMatch(rows, m, [p] + points, [row] + taken)
  {
    hide RowFits;
    var m1 := if row.Some? then m[row.value := true] else m;
    var all := [row] + taken;
    assert forall k | 0 < k < |all| :: all[k] == taken[k - 1] && ([p] + points)[k] == points[k - 1];
    forall k, j: nat | 0 <= k < |all| && all[k].Some? && j + MAX_LOOKAHEAD < all[k].value ensures m[j] || Some(j) in all[..k] {
      if k > 0 {
        assert m1[j] || Some(j) in taken[..k - 1];
        TakenSoFar(row, taken, k, j);
      }
    }
  }

  lemma TakenSoFar(row: Option<nat>, taken: seq<Option<nat>>, k: nat, j: nat)
    requires 0 < k <= |taken| + 1
    ensures Some(j) in ([row] + taken)[..k] <==> row == Some(j) || Some(j) in taken[..k - 1]
  {
    assert ([row] + taken)[..k] == [row] + taken[..k - 1];
  }

  lemma {:induction false} ReplayIsSound(rows: seq<Row>, t: Progress, points: seq<Point>)
    requires Sized(rows, t) && CursorBehind(rows, t) && rows != [] && Replay(rows, t, points).2
    ensures var (t', taken, _) := Replay(rows, t, points);
            && SoundMatch(rows, Fresh(rows, t.matched), points, taken)
            && Covered(Fresh(rows, t.matched), taken, Fresh(rows, t'.matched))
    decreases |points|
  {
    if points == [] {
    } else {
      hide CrossCheck, SoundMatch, Covered, RowFits;
      var c := CrossCheck(rows, t, points[0]);
      StepIsSound(rows, t, points[0]);
      ReplayIsSound(rows, c.next, points[1..]);
      var (t', taken, _) := Replay(rows, c.next, points[1..]);
      SoundCons(rows, Fresh(rows, t.matched), points[0], c.row, points[1..], taken);
      CoveredCons(Fresh(rows, t.matched), c.row, c.next.matched, taken, Fresh(rows, t'.matched));
      assert points == [points[0]] + points[1..];
    }
  }

  lemma CoveredCons(m: seq<bool>, row: Option<nat>, m1: seq<bool>, taken: seq<Option<nat>>, m': seq<bool>)
    requires (row.Some? ==> row.value < |m|) && m1 == (if row.Some? then m[row.value := true] else m) && Covered(m1, taken, m')
    ensures Covered(m, [row] + taken, m')
  {
    forall i: nat | i < |m| ensures m'[i] <==> m[i] || Some(i) in [row] + taken {
      assert m1[i] <==> m[i] || row == Some(i);
    }
  }

  lemma {:induction false} MissingRowsAreCounted(rows: seq<Row>, t: Progress, points: seq<Point>)
    requires Sized(rows, t) && CursorBehind(rows, t) && rows != [] && Replay(rows, t, points).2
    ensures var (t', taken, _) := Replay(rows, t, points);
            && t'.unmatchedExplicit >= t.unmatchedExplicit
            && (t'.unmatchedExplicit == t.unmatchedExplicit <==> forall k | 0 <= k < |points| && points[k].want.Some? :: taken[k].Some?)
    decreases |points|
  {
    if points != [] {
      hide CrossCheck, RowFits;
      var c := CrossCheck(rows, t, points[0]);
      StepIsSound(rows, t, points[0]);
      MissingRowsAreCounted(rows, c.next, points[1..]);
      var taken := Replay(rows, c.next, points[1..]).1;
      assert forall k | 0 < k < |points| :: points[k] == points[1..][k - 1] && ([c.row] + taken)[k] == taken[k - 1];
      assert forall k | 0 <= k < |points| - 1 :: points[1..][k] == points[k + 1] && ([c.row] + taken)[k + 1] == taken[k];
    }
  }

  /** What a matched row and its point have in common. */
  predicate Agrees(row: Row, p: Point) {
    && row.seat == p.seat
    && (row.chosen == -1 || row.chosen in p.legal)
    && (row.chosen == -1 || p.want.None? || row.chosen == p.want.value)
    && (row.legalIdsError || row.legalIds == p.legal)
  }

  /** An accepted hand: every row was matched exactly once, to a point of its own seat whose legal set and choice agree
      with it; every explicit decision found its row; no match reached more than two rows past the oldest open one. With
      no rows at all, a version 2 hand is accepted only if nobody had a choice. */
  lemma AcceptedTracesAreSound(version: nat, rows: seq<Row>, points: seq<Point>)
    requires Accepted(version, rows, points)
    ensures rows != [] ==>
              && SoundMatch(rows, NoneMatched(|rows|), points, Taken(rows, points))
              && (forall i: nat | i < |rows| :: Some(i) in Taken(rows, points))
              && (forall k | 0 <= k < |points| && Taken(rows, points)[k].Some? :: Agrees(rows[Taken(rows, points)[k].value], points[k]))
              && (version >= 2 ==> forall k | 0 <= k < |points| && points[k].want.Some? :: Taken(rows, points)[k].Some?)
    ensures rows == [] && version >= 2 ==> forall p | p in points :: |p.legal| <= 1
  {
    if rows != [] {
      ReplayIsSound(rows, START, points);
      MissingRowsAreCounted(rows, START, points);
    } else {
      EmptyTraceCounts(START, points);
    }
  }

  lemma {:induction false} EmptyTraceCounts(t: Progress, points: seq<Point>)
    requires Sized([], t)
    ensures var (t', _, ok) := Replay([], t, points);
            && ok && t'.unmatchedExplicit == t.unmatchedExplicit && t'.multiOption >= t.multiOption
            && (t'.multiOption == t.multiOption <==> forall p | p in points :: |p.legal| <= 1)
    decreases |points|
  {
    if points != [] {
      EmptyTraceCounts(CrossCheck([], t, points[0]).next, points[1..]);
      assert points == [points[0]] + points[1..];
    }
  }

  // ---- Completeness ----

  /** A turn, or a claim window: its points in the replayer's order, and its rows in the order the seats answered. */
  datatype Block = Block(points: seq<Point>, rows: seq<Row>)

  predicate Answered(b: Block, p: Point) {
    exists i | 0 <= i < |b.rows| :: b.rows[i].seat == p.seat
  }

  /** A row as the recorder writes it at a decision: an encoded choice is one of those that were legal and, where the replay
      knows it, the one it feeds; and the legal set, if it could be listed, is that of the moment. */
  predicate TellsTruth(row: Row, p: Point) {
    && (row.chosen != -1 ==> row.chosen in p.legal && (p.want.Some? ==> p.want.value == row.chosen))
    && (!row.legalIdsError ==> row.legalIds == p.legal)
  }

  lemma TruthFits(row: Row, p: Point)
    requires TellsTruth(row, p)
    ensures RowFits(row, p)
  {
  }

  /** A genuine block: at most three seats, each deciding once; each row is some seat's own and tells the truth; every
      explicit decision has its row, while a seat that let the window run out has none. */
  ghost predicate Genuine(b: Block) {
    && |b.rows| <= 3
    && (forall k, l | 0 <= k < l < |b.points| :: b.points[k].seat != b.points[l].seat)
    && (forall i, j | 0 <= i < j < |b.rows| :: b.rows[i].seat != b.rows[j].seat)
    && (forall i | 0 <= i < |b.rows| :: exists k | 0 <= k < |b.points| :: b.points[k].seat == b.rows[i].seat)
    && (forall i, k | 0 <= i < |b.rows| && 0 <= k < |b.points| && b.points[k].seat == b.rows[i].seat :: TellsTruth(b.rows[i], b.points[k]))
    && (forall k | 0 <= k < |b.points| && b.points[k].want.Some? :: Answered(b, b.points[k]))
  }

  function AllPoints(bs: seq<Block>): seq<Point> {
    if bs == [] then [] else bs[0].points + AllPoints(bs[1..])
  }

  function AllRows(bs: seq<Block>): seq<Row> {
    if bs == [] then [] else bs[0].rows + AllRows(bs[1..])
  }

  predicate Later(b: Block, k: nat, seat: Seat) {
    exists l | k <= l < |b.points| :: b.points[l].seat == seat
  }

  /** The block's oldest row from i on that a point from k on still has to match, or the end of the block. */
  function OldestOpen(b: Block, k: nat, i: nat): (o: nat)
    requires i <= |b.rows|
    ensures i <= o <= |b.rows|
    ensures forall j | i <= j < o :: !Later(b, k, b.rows[j].seat)
    ensures o < |b.rows| ==> Later(b, k, b.rows[o].seat)
    decreases |b.rows| - i
  {
    if i == |b.rows| || Later(b, k, b.rows[i].seat) then i else OldestOpen(b, k, i + 1)
  }

  /** Whether the k-th point of the block, left without a row, is given the j-th row after the block: it must be within
      reach of the oldest open row, and pass the legality gate unless it is the oldest open row itself. */
  predicate Mistaken(b: Block, k: nat, later: seq<Row>, j: nat)
    requires k < |b.points| && j < |later|
  {
    && later[j].seat == b.points[k].seat
    && |b.rows| + j <= OldestOpen(b, k, 0) + 2
    && (|b.rows| + j == OldestOpen(b, k, 0) || ChosenIsLegal(later[j], b.points[k]))
  }

  predicate PointUndisturbed(b: Block, k: nat, later: seq<Row>)
    requires k < |b.points|
  {
    Answered(b, b.points[k]) || forall j: nat | j < |later| :: !Mistaken(b, k, later, j)
  }

  /** Every row the k-th point could be given by mistake shows that it is not that point's. */
  predicate PointTellsApart(b: Block, k: nat, later: seq<Row>)
    requires k < |b.points|
  {
    Answered(b, b.points[k]) || forall j: nat | j < |later| && Mistaken(b, k, later, j) :: !RowFits(later[j], b.points[k])
  }

  /** No silent seat of these blocks is given a row of a later one; tail is what follows the blocks. */
  ghost predicate Undisturbed(bs: seq<Block>, tail: seq<Row>) {
    bs != [] ==>
      && (forall k: nat | k < |bs[0].points| :: PointUndisturbed(bs[0], k, AllRows(bs[1..]) + tail))
      && Undisturbed(bs[1..], tail)
  }

  ghost predicate ToldApart(bs: seq<Block>, tail: seq<Row>) {
    bs != [] ==>
      && (forall k: nat | k < |bs[0].points| :: PointTellsApart(bs[0], k, AllRows(bs[1..]) + tail))
      && ToldApart(bs[1..], tail)
  }

  ghost predicate AllGenuine(bs: seq<Block>) {
    forall b | b in bs :: Genuine(b)
  }

  /** Inside a block that starts at row a: earlier rows matched, later ones not, and the block's own open rows are
      exactly those of the points still to come. */
  ghost predicate MidBlock(rows: seq<Row>, t: Progress, a: nat, b: Block, k: nat) {
    && Sized(rows, t) && CursorBehind(rows, t) && k <= |b.points| && rows != []
    && a + |b.rows| <= |rows| && b.rows == rows[a..a + |b.rows|]
    && t.cursor <= a + |b.rows| && t.unmatchedExplicit == 0
    && var m := Fresh(rows, t.matched);
       && (forall i | 0 <= i < a :: m[i])
       && (forall i | a + |b.rows| <= i < |rows| :: !m[i])
       && (forall i | a <= i < a + |b.rows| :: !m[i] <==> Later(b, k, rows[i].seat))
  }

  lemma TakesTheOnlyRow(rows: seq<Row>, t: Progress, p: Point, x: nat)
    requires Sized(rows, t) && CursorBehind(rows, t) && x < |rows|
    requires var m := Fresh(rows, t.matched);
             !m[x] && (forall j | 0 <= j < x - MAX_LOOKAHEAD :: m[j]) && (forall j | 0 <= j < x && !m[j] :: rows[j].seat != p.seat)
    requires rows[x].seat == p.seat && RowFits(rows[x], p)
    ensures CrossCheck(rows, t, p).row == Some(x) && CrossCheck(rows, t, p).ok
  {
    var m := Fresh(rows, t.matched);
    var c := Advance(m, t.cursor);
    assert x - MAX_LOOKAHEAD <= c <= x;
    if c < x {
      assert Candidate(rows, m, p, x);
    }
  }

  lemma OwnRow(rows: seq<Row>, a: nat, b: Block, k: nat) returns (x: nat)
    requires Genuine(b) && k < |b.points| && Answered(b, b.points[k])
    requires a + |b.rows| <= |rows| && b.rows == rows[a..a + |b.rows|]
    ensures a <= x < a + |b.rows| && rows[x].seat == b.points[k].seat && RowFits(rows[x], b.points[k])
    ensures forall j | a <= j < a + |b.rows| :: rows[j].seat == b.points[k].seat <==> j == x
  {
    var i :| 0 <= i < |b.rows| && b.rows[i].seat == b.points[k].seat;
    x := a + i;
    assert rows[x] == b.rows[i];
    TruthFits(rows[x], b.points[k]);
    forall j | a <= j < a + |b.rows| && j != x ensures rows[j].seat != b.points[k].seat {
      assert rows[j] == b.rows[j - a];
    }
  }

  lemma NoOwnRow(rows: seq<Row>, a: nat, b: Block, k: nat)
    requires k < |b.points| && !Answered(b, b.points[k])
    requires a + |b.rows| <= |rows| && b.rows == rows[a..a + |b.rows|]
    ensures forall j | a <= j < a + |b.rows| :: rows[j].seat != b.points[k].seat
  {
    forall j | a <= j < a + |b.rows| ensures rows[j].seat != b.points[k].seat {
      assert rows[j] == b.rows[j - a];
    }
  }

  lemma CursorIsOldestOpen(rows: seq<Row>, t: Progress, a: nat, b: Block, k: nat)
    requires MidBlock(rows, t, a, b, k)
    ensures Advance(Fresh(rows, t.matched), t.cursor) == a + OldestOpen(b, k, 0)
  {
    hide Later, OldestOpen;
    var m := Fresh(rows, t.matched);
    var c, o := Advance(m, t.cursor), OldestOpen(b, k, 0);
    var end := a + |b.rows|;
    assert forall j | 0 <= j < |b.rows| :: rows[a + j] == b.rows[j] && (!m[a + j] <==> Later(b, k, b.rows[j].seat));
    assert end < |rows| ==> !m[end];
    assert a <= c <= end;
    assert c <= a + o;
    assert c < end ==> Later(b, k, b.rows[c - a].seat) by {
      assert c < end ==> rows[a + (c - a)] == b.rows[c - a];
    }
  }

  lemma OwnRowsAreNear(rows: seq<Row>, t: Progress, p: Point)
    requires Sized(rows, t) && rows != []
    ensures var m := Fresh(rows, t.matched);
            var c := Advance(m, t.cursor);
            match CrossCheck(rows, t, p).row
            case None => forall j | c <= j < |rows| && j <= c + MAX_LOOKAHEAD :: rows[j].seat != p.seat || (j > c && (m[j] || !ChosenIsLegal(rows[j], p)))
            case Some(i) => c <= i < |rows| && i <= c + MAX_LOOKAHEAD && !m[i] && rows[i].seat == p.seat && (i == c || ChosenIsLegal(rows[i], p))
                            && CrossCheck(rows, t, p).ok == RowFits(rows[i], p)
  {
    hide RowFits, ChosenIsLegal;
    var m := Fresh(rows, t.matched);
    var c := Advance(m, t.cursor);
    if c < |rows| && rows[c].seat != p.seat {
      var limit := Limit(rows, c);
      forall j | c < j < |rows| && j <= c + MAX_LOOKAHEAD && Scan(rows, m, p, c + 1, limit).None?
        ensures rows[j].seat != p.seat || m[j] || !ChosenIsLegal(rows[j], p)
      {
        assert !Candidate(rows, m, p, j);
      }
    }
  }

  /** A silent seat's point takes a row exactly when the trace gives it one by mistake. */
  lemma SilentPoint(rows: seq<Row>, t: Progress, a: nat, b: Block, k: nat)
    requires Genuine(b) && MidBlock(rows, t, a, b, k) && k < |b.points| && !Answered(b, b.points[k])
    ensures var later := rows[a + |b.rows|..];
            match CrossCheck(rows, t, b.points[k]).row
            case None => PointUndisturbed(b, k, later)
            case Some(x) => x >= a + |b.rows| && x < |rows| && Mistaken(b, k, later, x - (a + |b.rows|))
                            && CrossCheck(rows, t, b.points[k]).ok == RowFits(rows[x], b.points[k])
  {
    hide CrossCheck, RowFits, ChosenIsLegal, Genuine, OldestOpen;
    var p, end := b.points[k], a + |b.rows|;
    var later := rows[end..];
    var m := Fresh(rows, t.matched);
    CursorIsOldestOpen(rows, t, a, b, k);
    OwnRowsAreNear(rows, t, p);
    NoOwnRow(rows, a, b, k);
    assert forall j | end <= j < |rows| :: later[j - end] == rows[j] && !m[j];
    match CrossCheck(rows, t, p).row
    case None =>
      forall j: nat | j < |later| ensures !Mistaken(b, k, later, j) {
        assert later[j] == rows[end + j];
      }
    case Some(x) =>
      assert x >= end;
      assert later[x - end] == rows[x];
  }

  lemma PointMovesOn(rows: seq<Row>, t: Progress, a: nat, b: Block, k: nat)
    requires Genuine(b) && MidBlock(rows, t, a, b, k) && k < |b.points|
    requires PointUndisturbed(b, k, rows[a + |b.rows|..])
    ensures CrossCheck(rows, t, b.points[k]).ok && MidBlock(rows, CrossCheck(rows, t, b.points[k]).next, a, b, k + 1)
  {
    hide CrossCheck, RowFits, Answered, Mistaken;
    var p := b.points[k];
    var c := CrossCheck(rows, t, p);
    StepIsSound(rows, t, p);
    if Answered(b, p) {
      var x := OwnRow(rows, a, b, k);
      assert Later(b, k, p.seat);
      TakesTheOnlyRow(rows, t, p, x);
      assert forall j | a <= j < a + |b.rows| :: rows[j].seat == p.seat <==> j == x;
      MidMoves(rows, t, c.next, a, b, k, Some(x));
    } else {
      SilentPoint(rows, t, a, b, k);
      NoOwnRow(rows, a, b, k);
      MidMoves(rows, t, c.next, a, b, k, None);
    }
  }

  lemma PointIsRefused(rows: seq<Row>, t: Progress, a: nat, b: Block, k: nat)
    requires Genuine(b) && MidBlock(rows, t, a, b, k) && k < |b.points|
    requires !PointUndisturbed(b, k, rows[a + |b.rows|..]) && PointTellsApart(b, k, rows[a + |b.rows|..])
    ensures !CrossCheck(rows, t, b.points[k]).ok
  {
    hide CrossCheck, RowFits, Answered, Mistaken, Genuine;
    SilentPoint(rows, t, a, b, k);
  }

  lemma LaterOrNow(b: Block, k: nat, seat: Seat)
    requires Genuine(b) && k < |b.points|
    ensures Later(b, k + 1, seat) <==> Later(b, k, seat) && b.points[k].seat != seat
  {
  }

  lemma MidMoves(rows: seq<Row>, t: Progress, t': Progress, a: nat, b: Block, k: nat, taken: Option<nat>)
    requires Genuine(b) && MidBlock(rows, t, a, b, k) && k < |b.points|
    requires forall j | a <= j < a + |b.rows| :: rows[j].seat == b.points[k].seat <==> taken == Some(j)
    requires taken.Some? ==> a <= taken.value < a + |b.rows|
    requires Sized(rows, t') && CursorBehind(rows, t') && t'.unmatchedExplicit == 0
    requires t'.matched == if taken.Some? then Fresh(rows, t.matched)[taken.value := true] else Fresh(rows, t.matched)
    ensures MidBlock(rows, t', a, b, k + 1)
  {
    hide RowFits, Genuine, Later;
    assert Fresh(rows, t'.matched) == t'.matched;
    var end := a + |b.rows|;
    if end < |rows| {
      assert !t'.matched[end];
    }
    forall j | a <= j < end ensures !t'.matched[j] <==> Later(b, k + 1, rows[j].seat) {
      LaterOrNow(b, k, rows[j].seat);
    }
  }

  lemma {:induction false} ReplaySplits(rows: seq<Row>, t: Progress, ps: seq<Point>, qs: seq<Point>)
    requires Sized(rows, t) && Replay(rows, t, ps).2
    ensures Replay(rows, t, ps + qs).0 == Replay(rows, Replay(rows, t, ps).0, qs).0
    ensures Replay(rows, t, ps + qs).2 == Replay(rows, Replay(rows, t, ps).0, qs).2
    decreases |ps|
  {
    if ps == [] {
      assert ps + qs == qs;
    } else {
      assert (ps + qs)[1..] == ps[1..] + qs;
      ReplaySplits(rows, CrossCheck(rows, t, ps[0]).next, ps[1..], qs);
    }
  }

  lemma {:induction false} ReplayStops(rows: seq<Row>, t: Progress, ps: seq<Point>, qs: seq<Point>)
    requires Sized(rows, t) && !Replay(rows, t, ps).2
    ensures !Replay(rows, t, ps + qs).2
    decreases |ps|
  {
    assert (ps + qs)[1..] == ps[1..] + qs;
    if CrossCheck(rows, t, ps[0]).ok {
      ReplayStops(rows, CrossCheck(rows, t, ps[0]).next, ps[1..], qs);
    }
  }

  lemma {:induction false} BlockIsMatched(rows: seq<Row>, t: Progress, a: nat, b: Block, k: nat, later: seq<Row>)
    requires Genuine(b) && MidBlock(rows, t, a, b, k) && later == rows[a + |b.rows|..]
    requires forall l: nat | k <= l < |b.points| :: PointUndisturbed(b, l, later)
    ensures Replay(rows, t, b.points[k..]).2 && MidBlock(rows, Replay(rows, t, b.points[k..]).0, a, b, |b.points|)
    decreases |b.points| - k
  {
    hide CrossCheck, MidBlock, Genuine, PointUndisturbed;
    MidIsSized(rows, t, a, b, k);
    if k < |b.points| {
      PointMovesOn(rows, t, a, b, k);
      BlockIsMatched(rows, CrossCheck(rows, t, b.points[k]).next, a, b, k + 1, later);
      assert b.points[k..][1..] == b.points[k + 1..];
    }
  }

  lemma {:induction false} BlockIsRefused(rows: seq<Row>, t: Progress, a: nat, b: Block, k: nat, l: nat, later: seq<Row>)
    requires Genuine(b) && MidBlock(rows, t, a, b, k) && k <= l < |b.points| && later == rows[a + |b.rows|..]
    requires !PointUndisturbed(b, l, later)
    requires forall i: nat | k <= i < |b.points| :: PointTellsApart(b, i, later)
    ensures !Replay(rows, t, b.points[k..]).2
    decreases l - k
  {
    hide CrossCheck, MidBlock, Genuine, PointUndisturbed, PointTellsApart;
    MidIsSized(rows, t, a, b, k);
    if PointUndisturbed(b, k, later) {
      PointMovesOn(rows, t, a, b, k);
      BlockIsRefused(rows, CrossCheck(rows, t, b.points[k]).next, a, b, k + 1, l, later);
      assert b.points[k..][1..] == b.points[k + 1..];
    } else {
      PointIsRefused(rows, t, a, b, k);
    }
  }

  lemma MidIsSized(rows: seq<Row>, t: Progress, a: nat, b: Block, k: nat)
    requires MidBlock(rows, t, a, b, k)
    ensures Sized(rows, t) && k <= |b.points|
  {
  }

  /** Between blocks: the rows before a are matched and the others are not. */
  ghost predicate AtBoundary(rows: seq<Row>, t: Progress, a: nat) {
    && Sized(rows, t) && CursorBehind(rows, t) && rows != [] && a <= |rows| && t.cursor <= a && t.unmatchedExplicit == 0
    && forall i | 0 <= i < |rows| :: Fresh(rows, t.matched)[i] <==> i < a
  }

  lemma BlockBegins(rows: seq<Row>, t: Progress, a: nat, b: Block)
    requires AtBoundary(rows, t, a) && Genuine(b) && a + |b.rows| <= |rows| && b.rows == rows[a..a + |b.rows|]
    ensures MidBlock(rows, t, a, b, 0)
  {
    hide RowFits;
    forall i | a <= i < a + |b.rows| ensures Later(b, 0, rows[i].seat) {
      assert rows[i] == b.rows[i - a];
    }
  }

  lemma BlockEnds(rows: seq<Row>, t: Progress, a: nat, b: Block)
    requires MidBlock(rows, t, a, b, |b.points|)
    ensures AtBoundary(rows, t, a + |b.rows|)
  {
  }

  lemma FirstBlock(rows: seq<Row>, a: nat, bs: seq<Block>, tail: seq<Row>)
    requires bs != [] && a <= |rows| && rows[a..] == AllRows(bs) + tail
    ensures var end := a + |bs[0].rows|;
            end <= |rows| && rows[a..end] == bs[0].rows && rows[end..] == AllRows(bs[1..]) + tail
  {
    var first, rest := bs[0].rows, AllRows(bs[1..]) + tail;
    RowsUnfold(bs, tail);
    hide AllRows;
    CutAt(rows, a, first, rest);
  }

  lemma RowsUnfold(bs: seq<Block>, tail: seq<Row>)
    requires bs != []
    ensures AllRows(bs) + tail == bs[0].rows + (AllRows(bs[1..]) + tail)
  {
    var rest := AllRows(bs[1..]);
    assert AllRows(bs) == bs[0].rows + rest;
    hide AllRows;
    Regrouped(bs[0].rows, rest, tail);
  }

  lemma Regrouped(a: seq<Row>, b: seq<Row>, c: seq<Row>)
    ensures (a + b) + c == a + (b + c)
  {
  }

  lemma CutAt(rows: seq<Row>, a: nat, first: seq<Row>, rest: seq<Row>)
    requires a <= |rows| && rows[a..] == first + rest
    ensures a + |first| <= |rows| && rows[a..a + |first|] == first && rows[a + |first|..] == rest
  {
    assert rows[a..a + |first|] == rows[a..][..|first|];
    assert rows[a + |first|..] == rows[a..][|first|..];
  }

  lemma {:induction false} BlocksAreMatched(rows: seq<Row>, t: Progress, a: nat, bs: seq<Block>, tail: seq<Row>)
    requires AtBoundary(rows, t, a) && rows[a..] == AllRows(bs) + tail && AllGenuine(bs) && Undisturbed(bs, tail)
    ensures Replay(rows, t, AllPoints(bs)).2 && AtBoundary(rows, Replay(rows, t, AllPoints(bs)).0, |rows| - |tail|)
    decreases |bs|
  {
    hide CrossCheck, MidBlock, Genuine, PointUndisturbed;
    if bs != [] {
      var b := bs[0];
      FirstBlock(rows, a, bs, tail);
      BlockBegins(rows, t, a, b);
      BlockIsMatched(rows, t, a, b, 0, AllRows(bs[1..]) + tail);
      assert b.points[0..] == b.points;
      var t1 := Replay(rows, t, b.points).0;
      BlockEnds(rows, t1, a, b);
      BlocksAreMatched(rows, t1, a + |b.rows|, bs[1..], tail);
      ReplaySplits(rows, t, b.points, AllPoints(bs[1..]));
    }
  }

  lemma {:induction false} BlocksAreRefused(rows: seq<Row>, t: Progress, a: nat, bs: seq<Block>, tail: seq<Row>)
    requires AtBoundary(rows, t, a) && rows[a..] == AllRows(bs) + tail && AllGenuine(bs)
    requires ToldApart(bs, tail) && !Undisturbed(bs, tail)
    ensures !Replay(rows, t, AllPoints(bs)).2
    decreases |bs|
  {
    hide CrossCheck, MidBlock, Genuine, PointUndisturbed, PointTellsApart;
    var b := bs[0];
    FirstBlock(rows, a, bs, tail);
    var later := AllRows(bs[1..]) + tail;
    BlockBegins(rows, t, a, b);
    assert b.points[0..] == b.points;
    if l: nat :| l < |b.points| && !PointUndisturbed(b, l, later) {
      BlockIsRefused(rows, t, a, b, 0, l, later);
      ReplayStops(rows, t, b.points, AllPoints(bs[1..]));
    } else {
      BlockIsMatched(rows, t, a, b, 0, later);
      var t1 := Replay(rows, t, b.points).0;
      BlockEnds(rows, t1, a, b);
      BlocksAreRefused(rows, t1, a + |b.rows|, bs[1..], tail);
      ReplaySplits(rows, t, b.points, AllPoints(bs[1..]));
    }
  }

  /** A genuine trace is accepted whatever order the seats of each window answered in, as long as no silent seat is given
      a later row by mistake. An empty trace is accepted exactly when nobody had a choice. */
  lemma GenuineTracesAreAccepted(version: nat, bs: seq<Block>)
    requires AllGenuine(bs) && Undisturbed(bs, [])
    ensures AllRows(bs) != [] ==> Accepted(version, AllRows(bs), AllPoints(bs))
    ensures AllRows(bs) == [] ==>
              (Accepted(version, AllRows(bs), AllPoints(bs)) <==> version < 2 || forall p | p in AllPoints(bs) :: |p.legal| <= 1)
  {
    var rows := AllRows(bs);
    if rows != [] {
      BlocksAreMatched(rows, START, 0, bs, []);
    } else {
      EmptyTraceCounts(START, AllPoints(bs));
    }
  }

  /** Once a silent seat is given a row that does not fit it, the hand is refused, whatever rows and decisions follow. In
      particular when its seat moves next, with all the rows of the window matched: that row is not gated. */
  lemma DisturbedTracesAreRefused(version: nat, bs: seq<Block>, tail: seq<Row>, more: seq<Point>)
    requires AllGenuine(bs) && ToldApart(bs, tail) && !Undisturbed(bs, tail)
    ensures !Accepted(version, AllRows(bs) + tail, AllPoints(bs) + more)
  {
    hide Genuine, PointUndisturbed, PointTellsApart;
    var rows := AllRows(bs) + tail;
    DisturbedHasRows(bs, tail);
    BlocksAreRefused(rows, START, 0, bs, tail);
    ReplayStops(rows, START, AllPoints(bs), more);
  }

  lemma {:induction false} DisturbedHasRows(bs: seq<Block>, tail: seq<Row>)
    requires !Undisturbed(bs, tail)
    ensures AllRows(bs) + tail != []
    decreases |bs|
  {
    hide Mistaken, Answered;
    if Undisturbed(bs[1..], tail) {
      var k: nat :| k < |bs[0].points| && !PointUndisturbed(bs[0], k, AllRows(bs[1..]) + tail);
    } else {
      DisturbedHasRows(bs[1..], tail);
    }
  }

  /** When no row a silent seat could be given looks like its own, a genuine trace with rows is accepted if and only if no
      silent seat is given one. */
  lemma GenuineTracesExact(version: nat, bs: seq<Block>)
    requires AllGenuine(bs) && ToldApart(bs, []) && AllRows(bs) != []
    ensures Accepted(version, AllRows(bs), AllPoints(bs)) <==> Undisturbed(bs, [])
  {
    hide Genuine, PointUndisturbed, PointTellsApart, Accepted;
    assert AllRows(bs) + [] == AllRows(bs) && AllPoints(bs) + [] == AllPoints(bs);
    if Undisturbed(bs, []) {
      GenuineTracesAreAccepted(version, bs);
    } else {
      DisturbedTracesAreRefused(version, bs, [], []);
    }
  }

  const SLEPT_THROUGH := Block([Point(1, [5, 7], None)], [])
  const MOVED_NEXT := Block([Point(1, [3], Some(3))], [Row(1, 3, [3], false)])

  lemma SleeperIsGenuine()
    ensures Genuine(SLEPT_THROUGH) && Genuine(MOVED_NEXT)
  {
    assert MOVED_NEXT.points[0].seat == MOVED_NEXT.rows[0].seat;
    assert Answered(MOVED_NEXT, MOVED_NEXT.points[0]);
  }

  lemma SleeperIsDisturbed()
    ensures !PointUndisturbed(SLEPT_THROUGH, 0, MOVED_NEXT.rows) && PointTellsApart(SLEPT_THROUGH, 0, MOVED_NEXT.rows)
    ensures PointUndisturbed(MOVED_NEXT, 0, []) && PointTellsApart(MOVED_NEXT, 0, [])
  {
    assert Mistaken(SLEPT_THROUGH, 0, MOVED_NEXT.rows, 0);
  }

  /** It does happen: a seat lets a window run out and then takes its turn. */
  lemma SilentSeatCanBreakAGenuineTrace(version: nat)
    ensures var bs := [SLEPT_THROUGH, MOVED_NEXT];
            AllGenuine(bs) && !Accepted(version, AllRows(bs), AllPoints(bs))
  {
    var bs := [SLEPT_THROUGH, MOVED_NEXT];
    assert bs[1..] == [MOVED_NEXT] && [MOVED_NEXT][1..] == [];
    assert AllRows(bs[1..]) + [] == MOVED_NEXT.rows && AllRows([]) + [] == [];
    SleeperIsGenuine();
    SleeperIsDisturbed();
    hide Genuine, PointUndisturbed, PointTellsApart, Accepted;
    assert ToldApart([MOVED_NEXT], []);
    assert ToldApart(bs, []);
    assert !Undisturbed(bs, []);
    GenuineTracesExact(version, bs);
  }

  /** When every seat answered, there is nobody to disturb. */
  lemma {:induction false} AnsweredTracesAreUndisturbed(bs: seq<Block>, tail: seq<Row>)
    requires forall b | b in bs :: forall p | p in b.points :: Answered(b, p)
    ensures Undisturbed(bs, tail) && ToldApart(bs, tail)
    decreases |bs|
  {
    if bs != [] {
      AnsweredTracesAreUndisturbed(bs[1..], tail);
    }
  }

  // ---- The replayer's fields, updated in place ----

  class RoundReplayer {
    const version: nat
    const rows: seq<Row>
    var traceCursor: nat
    var traceMatched: seq<bool>
    var multiOptionPoints: nat
    var unmatchedExplicit: nat
    var matchedRow: Option<nat>

    ghost function Now(): Progress
      reads this
    {
      Progress(traceCursor, traceMatched, multiOptionPoints, unmatchedExplicit)
    }

    ghost predicate Valid()
      reads this
    {
      Sized(rows, Now())
    }

    constructor (version: nat, rows: seq<Row>)
      ensures this.version == version && this.rows == rows && Now() == START && Valid()
    {
      this.version, this.rows := version, rows;
      traceCursor, traceMatched, multiOptionPoints, unmatchedExplicit := 0, [], 0, 0;
      matchedRow := None;
    }

    method AdvanceTraceCursor()
      modifies this`traceCursor
      ensures traceCursor == Advance(traceMatched, old(traceCursor))
    {
      while traceCursor < |traceMatched| && traceMatched[traceCursor]
        invariant Advance(traceMatched, traceCursor) == Advance(traceMatched, old(traceCursor))
      {
        traceCursor := traceCursor + 1;
      }
    }

    method NoTraceRowForPoint(want: Option<int>)
      modifies this`unmatchedExplicit
      ensures unmatchedExplicit == old(unmatchedExplicit) + if want.Some? then 1 else 0
    {
      if want.Some? {
        unmatchedExplicit := unmatchedExplicit + 1;
      }
    }

    method CrossCheckDecision(p: Point) returns (ok: bool)
      requires Valid()
      modifies this
      ensures Valid() && Check(Now(), matchedRow, ok) == CrossCheck(rows, old(Now()), p)
    {
      hide Advance, Scan, RowFits, Limit, Fresh;
      matchedRow := None;
      if |p.legal| > 1 {
        multiOptionPoints := multiOptionPoints + 1;
      }
      if |rows| == 0 {
        return true;
      }
      EnsureMarks();
      AdvanceTraceCursor();
      if traceCursor >= |rows| {
        NoTraceRowForPoint(p.want);
        return true;
      }
      if rows[traceCursor].seat == p.seat {
        ok := TakeCursorRow(p);
      } else {
        ok := ScanAhead(p);
      }
    }

    /** Allocates the marks at the first point that needs them. */
    method EnsureMarks()
      modifies this`traceMatched
      ensures traceMatched == Fresh(rows, old(traceMatched))
      requires Valid()
    {
      if traceMatched == [] {
        traceMatched := NoneMatched(|rows|);
      }
    }

    method TakeCursorRow(p: Point) returns (ok: bool)
      requires traceCursor < |rows| == |traceMatched|
      modifies this`traceMatched, this`traceCursor, this`matchedRow
      ensures matchedRow == Some(old(traceCursor)) && traceMatched == old(traceMatched)[old(traceCursor) := true]
      ensures traceCursor == Advance(traceMatched, old(traceCursor)) && ok == RowFits(rows[old(traceCursor)], p)
    {
      var row := traceCursor;
      matchedRow := Some(row);
      traceMatched := traceMatched[row := true];
      AdvanceTraceCursor();
      ok := RowFits(rows[row], p);
    }

    /** Looks a little past the cursor for a row of this seat. */
    method ScanAhead(p: Point) returns (ok: bool)
      requires Valid() && traceCursor < |rows| == |traceMatched| && matchedRow == None
      modifies this
      ensures traceCursor == old(traceCursor) && multiOptionPoints == old(multiOptionPoints)
      ensures matchedRow == Scan(rows, old(traceMatched), p, traceCursor + 1, Limit(rows, traceCursor))
      ensures traceMatched == if matchedRow.Some? then old(traceMatched)[matchedRow.value := true] else old(traceMatched)
      ensures unmatchedExplicit == old(unmatchedExplicit) + if matchedRow.None? && p.want.Some? then 1 else 0
      ensures ok == (matchedRow.Some? ==> RowFits(rows[matchedRow.value], p))
    {
      var limit := Limit(rows, traceCursor);
      var i := traceCursor + 1;
      while i < limit
        invariant traceCursor < i
        invariant Scan(rows, traceMatched, p, i, limit) == Scan(rows, traceMatched, p, traceCursor + 1, limit)
      {
        if !traceMatched[i] && rows[i].seat == p.seat && ChosenIsLegal(rows[i], p) {
          matchedRow := Some(i);
          traceMatched := traceMatched[i := true];
          return RowFits(rows[i], p);
        }
        i := i + 1;
      }
      NoTraceRowForPoint(p.want);
      return true;
    }

    method VerifyTraceConsumed() returns (ok: bool)
      requires Valid()
      modifies this`traceMatched
      ensures Valid() && ok == Consumed(version, rows, old(Now()))
    {
      if version >= 2 && unmatchedExplicit > 0 {
        return false;
      }
      if |rows| == 0 {
        return !(version >= 2 && multiOptionPoints > 0);
      }
      EnsureMarks();
      var matched := traceMatched;
      var unmatched := 0;
      var i := 0;
      while i < |rows|
        invariant 0 <= i <= |rows| && unmatched >= 0
        invariant unmatched == 0 <==> forall j | 0 <= j < i :: matched[j]
      {
        if !matched[i] {
          unmatched := unmatched + 1;
        }
        i := i + 1;
      }
      return unmatched == 0;
    }
  }

  /** A hand replayed point by point through the object gets exactly the verdict the theorems speak of. */
  method VerifyRound(version: nat, rows: seq<Row>, points: seq<Point>) returns (ok: bool)
    ensures ok == Accepted(version, rows, points)
  {
    hide CrossCheck, Consumed;
    var r := new RoundReplayer(version, rows);
    var k := 0;
    assert points[0..] == points;
    while k < |points|
      invariant 0 <= k <= |points| && r.Valid() && r.rows == rows && r.version == version && fresh(r)
      invariant Replay(rows, r.Now(), points[k..]).0 == Replay(rows, START, points).0
      invariant Replay(rows, r.Now(), points[k..]).2 == Replay(rows, START, points).2
    {
      assert points[k..][1..] == points[k + 1..];
      ok := r.CrossCheckDecision(points[k]);
      if !ok {
        return;
      }
      k := k + 1;
    }
    ok := r.VerifyTraceConsumed();
  }
}
