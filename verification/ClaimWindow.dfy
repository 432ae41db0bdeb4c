/** A claim window closes in the same state whatever the order of its answers, and so does the replayer's version of it. */
module ClaimWindow {
  import opened Tiles
  import opened Hand
  import opened HandInvariant
  import opened HandSteps
  import opened HandRuns

  /** Feeds one answer per seat in the given order. */
  function Feed(r: Rules, s: State, order: seq<Seat>, answers: map<Seat, Claim>): State
    requires s.w.wallIndex <= s.w.boundary <= |s.w.tiles|
    requires forall q | q in order :: q in answers
    decreases |order|
  {
    if order == [] || s.activeDiscard.None? then s
    else
      var s1 := HandleClaim(r, s, order[0], answers[order[0]]).0;
      if s1.w.wallIndex <= s1.w.boundary <= |s1.w.tiles| then Feed(r, s1, order[1..], answers) else s1
  }

  /** A fresh window together with one acceptable answer for every seat it waits for. */
  ghost predicate Answered(s: State, answers: map<Seat, Claim>) {
    && s.phase == WaitDiscards && s.activeDiscard.Some? && s.queue == map[]
    && s.w.wallIndex <= s.w.boundary <= |s.w.tiles| && s.players[s.active].offer == NoOffer
    && answers.Keys == Due(s)
    && forall q | q in answers :: answers[q] == Pass || OffersType(s.players[q].offer, answers[q])
  }

  ghost predicate OrderOf(order: seq<Seat>, seats: set<Seat>) {
    && (forall q :: q in order <==> q in seats)
    && forall i, j | 0 <= i < j < |order| :: order[i] != order[j]
  }

  ghost function Heard(order: seq<Seat>, answers: map<Seat, Claim>, n: nat): map<Seat, Claim>
    requires n <= |order| && forall q | q in order :: q in answers
  {
    map q | q in order[..n] :: answers[q]
  }

  lemma {:induction false} OrderSize(order: seq<Seat>, seats: set<Seat>)
    requires OrderOf(order, seats)
    ensures |order| == |seats|
  {
    if order != [] {
      var last, rest := order[|order| - 1], order[..|order| - 1];
      assert order == rest + [last];
      OrderSize(rest, seats - {last});
    } else {
      assert forall q :: q in seats ==> q in order;
      assert seats == {};
    }
  }

  /** n answers are in and the window is still open, or the last one has closed it. */
  lemma {:induction false} FeedFrom(r: Rules, s: State, order: seq<Seat>, answers: map<Seat, Claim>, n: nat)
    requires Answered(s, answers) && OrderOf(order, Due(s)) && n < |order|
    ensures Feed(r, s.(queue := Heard(order, answers, n)), order[n..], answers) == Resolve(r, s.(queue := answers))
    decreases |order| - n
  {
    hide Resolve, HandleClaim, Expected, Feed, Heard, Due, OffersType;
    var heard, heard' := Heard(order, answers, n), Heard(order, answers, n + 1);
    var q := order[n];
    HeardGrows(order, answers, n);
    HeardSize(order, answers, n + 1);
    OrderSize(order, Due(s));
    ExpectedIsCardinality(s);
    OneAnswer(r, s, heard, q, answers[q]);
    FeedUnfolds(r, s.(queue := heard), order, answers, n);
    if n + 1 == |order| {
      AllHeard(order, answers);
    } else {
      FeedFrom(r, s, order, answers, n + 1);
    }
  }

  lemma FeedUnfolds(r: Rules, s: State, order: seq<Seat>, answers: map<Seat, Claim>, n: nat)
    requires s.activeDiscard.Some? && s.w.wallIndex <= s.w.boundary <= |s.w.tiles|
    requires n < |order| && forall q | q in order :: q in answers
    ensures var s1 := HandleClaim(r, s, order[n], answers[order[n]]).0;
            && (s1.w.wallIndex <= s1.w.boundary <= |s1.w.tiles| ==>
                Feed(r, s, order[n..], answers) == Feed(r, s1, order[n + 1..], answers))
            && (n + 1 == |order| ==> Feed(r, s, order[n..], answers) == s1)
  {
    hide HandleClaim;
    assert order[n..][0] == order[n] && order[n..][1..] == order[n + 1..];
  }

  lemma HeardGrows(order: seq<Seat>, answers: map<Seat, Claim>, n: nat)
    requires n < |order| && forall q | q in order :: q in answers
    ensures Heard(order, answers, n + 1) == Heard(order, answers, n)[order[n] := answers[order[n]]]
  {
    assert order[..n + 1] == order[..n] + [order[n]];
  }

  lemma AllHeard(order: seq<Seat>, answers: map<Seat, Claim>)
    requires OrderOf(order, answers.Keys)
    ensures Heard(order, answers, |order|) == answers && order[|order|..] == []
  {
    assert order[..|order|] == order;
  }

  lemma OneAnswer(r: Rules, s: State, heard: map<Seat, Claim>, q: Seat, c: Claim)
    requires s.activeDiscard.Some? && s.w.wallIndex <= s.w.boundary <= |s.w.tiles|
    requires q in Due(s) && s.players[s.active].offer == NoOffer && (c == Pass || OffersType(s.players[q].offer, c))
    ensures var s1 := s.(queue := heard[q := c]);
            HandleClaim(r, s.(queue := heard), q, c).0 == if |s1.queue| >= Expected(s) then Resolve(r, s1) else s1
  {
    hide Resolve;
    DueIsNotActive(s, q);
  }

  lemma DueIsNotActive(s: State, q: Seat)
    requires q in Due(s) && s.players[s.active].offer == NoOffer
    ensures q != s.active
  {
  }

  lemma {:induction false} HeardSize(order: seq<Seat>, answers: map<Seat, Claim>, n: nat)
    requires n <= |order| && forall q | q in order :: q in answers
    requires forall i, j | 0 <= i < j < |order| :: order[i] != order[j]
    ensures |Heard(order, answers, n)| == n
  {
    if n > 0 {
      HeardSize(order, answers, n - 1);
      HeardGrows(order, answers, n - 1);
      assert order[n - 1] !in Heard(order, answers, n - 1);
    }
  }

  /** Whatever order the answers arrive in, the window closes in the same state. */
  lemma WindowIsConfluent(r: Rules, s: State, order: seq<Seat>, order': seq<Seat>, answers: map<Seat, Claim>)
    requires Answered(s, answers) && OrderOf(order, Due(s)) && OrderOf(order', Due(s)) && Due(s) != {}
    ensures Feed(r, s, order, answers) == Feed(r, s, order', answers) == Resolve(r, s.(queue := answers))
  {
    OrderSize(order, Due(s));
    OrderSize(order', Due(s));
    assert order[0..] == order && order'[0..] == order';
    assert Heard(order, answers, 0) == map[] && Heard(order', answers, 0) == map[];
    assert s.(queue := map[]) == s;
    FeedFrom(r, s, order, answers, 0);
    FeedFrom(r, s, order', answers, 0);
  }

  // ---- The queue matters only through its best bid ----

  lemma DeadWallDrawIgnoresQueue(s: State, seat: Seat, queue: map<Seat, Claim>)
    ensures DeadWallDraw(s.(queue := queue), seat) == DeadWallDraw(s, seat).(queue := queue)
    decreases Measure(s), 0
  {
    hide TakeTile, AutoReveal, FaceCode, Measure;
    var (k, target) := DeadTarget(|s.w.tiles|, s.w.wallIndex, s.w.indicator, s.w.deadWallIndex);
    if s.wallCount > 0 && target.Some? {
      var idx := target.value;
      var w' := s.w.(deadWallIndex := k);
      var e := DrawEventOf(seat, s.w.tiles[idx], false);
      DrawShrinks(s, w', seat, idx);
      TakeTileIgnoresQueue(s, w', seat, idx, e, queue);
      AutoRevealIgnoresQueue(LogEvent(TakeTile(s.(w := w'), seat, idx), e), seat, queue);
    }
  }

  lemma TakeTileIgnoresQueue(s: State, w': WallState, seat: Seat, idx: nat, e: PublicEvent, queue: map<Seat, Claim>)
    requires idx < |w'.tiles|
    ensures LogEvent(TakeTile(s.(w := w', queue := queue), seat, idx), e)
         == LogEvent(TakeTile(s.(w := w'), seat, idx), e).(queue := queue)
  {
  }

  lemma DrawShrinks(s: State, w': WallState, seat: Seat, idx: nat)
    requires s.wallCount > 0 && idx < |w'.tiles|
    ensures forall e :: Measure(LogEvent(TakeTile(s.(w := w'), seat, idx), e)) < Measure(s)
  {
    assert seat == 0 || seat == 1 || seat == 2 || seat == 3;
  }

  lemma AutoRevealIgnoresQueue(s: State, seat: Seat, queue: map<Seat, Claim>)
    ensures AutoReveal(s.(queue := queue), seat) == AutoReveal(s, seat).(queue := queue)
    decreases Measure(s), 1
  {
    hide DeadWallDraw, TakeTile;
    FlowerIgnoresQueue(s, s.players[seat].closedHand, queue);
    match FlowerOf(s, seat)
    case None =>
    case Some(f) =>
      var s1 := MoveFlower(s, seat, f);
      DeadWallDrawIgnoresQueue(s1, seat, queue);
      AutoRevealIgnoresQueue(ResumeTurn(DeadWallDraw(s1, seat)), seat, queue);
  }

  lemma {:induction false} FlowerIgnoresQueue(s: State, hand: seq<TileId>, queue: map<Seat, Claim>)
    ensures FirstRevealable(s.(queue := queue), hand) == FirstRevealable(s, hand)
  {
    if hand != [] {
      FlowerIgnoresQueue(s, hand[1..], queue);
    }
  }

  lemma NextTurnIgnoresQueue(s: State, queue: map<Seat, Claim>)
    requires s.w.wallIndex <= s.w.boundary <= |s.w.tiles|
    ensures NextTurn(s.(queue := queue)) == NextTurn(s).(queue := queue)
  {
    hide SystemDraw;
    SystemDrawIgnoresQueue(s.(active := Next(s.active), phase := PlayerTurn, activeDiscard := None), Next(s.active), queue);
  }

  lemma SystemDrawIgnoresQueue(s: State, seat: Seat, queue: map<Seat, Claim>)
    requires s.w.wallIndex <= s.w.boundary <= |s.w.tiles|
    ensures SystemDraw(s.(queue := queue), seat) == SystemDraw(s, seat).(queue := queue)
  {
    hide SystemDraw, AutoReveal, TakeTile, DrawEventOf, LogEvent, SkipConsumed, FindHaitei, Conclude, SetOffer;
    SystemDrawCases(s, seat);
    SystemDrawCases(s.(queue := queue), seat);
    var f := SkipConsumed(|s.w.tiles|, s.w.deadWallIndex, s.w.boundary, s.w.wallIndex);
    if f < s.w.boundary {
      var w' := s.w.(wallIndex := f + 1);
      var e := DrawEventOf(seat, s.w.tiles[f], false);
      TakeTileIgnoresQueue(s, w', seat, f, e, queue);
      AutoRevealIgnoresQueue(LogEvent(TakeTile(s.(w := w'), seat, f), e), seat, queue);
    } else {
      EndsIgnoreQueue(s.(w := s.w.(wallIndex := f)), seat, queue);
    }
  }

  lemma SystemDrawCases(s: State, seat: Seat)
    requires s.w.wallIndex <= s.w.boundary <= |s.w.tiles|
    ensures var f := SkipConsumed(|s.w.tiles|, s.w.deadWallIndex, s.w.boundary, s.w.wallIndex);
            SystemDraw(s, seat) ==
            if f < s.w.boundary then
              AutoReveal(LogEvent(TakeTile(s.(w := s.w.(wallIndex := f + 1)), seat, f), DrawEventOf(seat, s.w.tiles[f], false)), seat)
            else if FindHaitei(s.w.(wallIndex := f)).None? then Conclude(s.(w := s.w.(wallIndex := f)), Exhausted)
            else SetOffer(s.(w := s.w.(wallIndex := f)).(isHaitei := true), seat, HaiteiOffer)
  {
    hide AutoReveal, TakeTile, DrawEventOf, LogEvent, SkipConsumed, FindHaitei, Conclude, SetOffer;
  }

  lemma EndsIgnoreQueue(s: State, seat: Seat, queue: map<Seat, Claim>)
    ensures Conclude(s.(queue := queue), Exhausted) == Conclude(s, Exhausted).(queue := queue)
    ensures SetOffer(s.(isHaitei := true, queue := queue), seat, HaiteiOffer)
         == SetOffer(s.(isHaitei := true), seat, HaiteiOffer).(queue := queue)
  {
  }

  lemma ApplyMeldIgnoresQueue(s: State, winner: Seat, c: Claim, queue: map<Seat, Claim>)
    requires s.activeDiscard.Some? && (c.Chii? || c.Pon? || c.Kan?)
    ensures ApplyMeld(s.(queue := queue), winner, c).(queue := map[]) == ApplyMeld(s, winner, c).(queue := map[])
  {
    hide AutoReveal, DeadWallDraw, TakeDiscard;
    var s1 := TakeDiscard(s, winner, c);
    TakeDiscardIgnoresQueue(s, winner, c, queue);
    DeadWallDrawIgnoresQueue(s1, winner, queue);
    AutoRevealIgnoresQueue(s1.(phase := PlayerTurn), winner, queue);
  }

  lemma TakeDiscardIgnoresQueue(s: State, winner: Seat, c: Claim, queue: map<Seat, Claim>)
    requires s.activeDiscard.Some? && (c.Chii? || c.Pon? || c.Kan?)
    ensures TakeDiscard(s.(queue := queue), winner, c) == TakeDiscard(s, winner, c).(queue := queue)
  {
    hide RemovePresent, FaceCode, DropLast, ClaimEventKind, ClaimMeldKind;
  }

  /** Two queues with the same best bid close the window alike, but for answers left lying in the queue. */
  lemma OnlyTheBestBidCounts(r: Rules, s: State, queue: map<Seat, Claim>)
    requires s.activeDiscard.Some? && s.w.wallIndex <= s.w.boundary <= |s.w.tiles|
    requires BestBid(queue, 4) == BestBid(s.queue, 4)
    requires forall q: Seat | BestBid(queue, 4) == Some(q) :: queue[q] == s.queue[q]
    ensures Resolve(r, s.(queue := queue)).(queue := map[]) == Resolve(r, s).(queue := map[])
  {
    hide NextTurn, ApplyMeld, BestBid;
    var best := BestBid(queue, 4);
    NextTurnIgnoresQueue(s, queue);
    if best.Some? && !queue[best.value].Ron? {
      BidsAreClaims(queue);
      ApplyMeldIgnoresQueue(s, best.value, queue[best.value], queue);
    }
  }

  lemma BidsAreClaims(queue: map<Seat, Claim>)
    ensures BestBid(queue, 4).Some? ==> queue[BestBid(queue, 4).value] != Pass
  {
  }

  // ---- The replayer ----

  /** What the replayer feeds: the winning call, and a pass for every other seat, whether it bid, passed or stayed silent. */
  ghost function ReplayAnswers(s: State, queue: map<Seat, Claim>): map<Seat, Claim> {
    map q | q in Due(s) :: if BestBid(queue, 4) == Some(q) then queue[q] else Pass
  }

  /** However the live window ended - all answers in, or the timer with some seats silent - feeding the winning call and
      passes, in any order, ends it in the same state. */
  lemma ReplayerAgrees(r: Rules, s: State, queue: map<Seat, Claim>, order: seq<Seat>)
    requires Answered(s, ReplayAnswers(s, queue)) && OrderOf(order, Due(s)) && Due(s) != {}
    requires queue.Keys <= Due(s)
    ensures Feed(r, s, order, ReplayAnswers(s, queue)).(queue := map[]) == Resolve(r, s.(queue := queue)).(queue := map[])
  {
    hide Resolve, Feed, BestBid;
    var replay := ReplayAnswers(s, queue);
    WindowIsConfluent(r, s, order, order, replay);
    SameBestBid(s, queue);
    OnlyTheBestBidCounts(r, s.(queue := queue), replay);
    assert s.(queue := queue).(queue := replay) == s.(queue := replay);
  }

  lemma SameBestBid(s: State, queue: map<Seat, Claim>)
    requires queue.Keys <= Due(s)
    ensures BestBid(ReplayAnswers(s, queue), 4) == BestBid(queue, 4)
    ensures forall q: Seat | BestBid(queue, 4) == Some(q) :: ReplayAnswers(s, queue)[q] == queue[q]
  {
    var replay := ReplayAnswers(s, queue);
    var best := BestBid(queue, 4);
    forall q: Seat ensures BidWeight(replay, q) == if best == Some(q) then BidWeight(queue, q) else 0 {
    }
    BestBidIsUnique(replay, best);
  }

  /** The seat BestBid describes is the only one its contract allows. */
  lemma BestBidIsUnique(queue: map<Seat, Claim>, best: Option<Seat>)
    requires best.None? ==> forall t: Seat :: BidWeight(queue, t) == 0
    requires best.Some? ==> BidWeight(queue, best.value) > 0
    requires best.Some? ==> forall t: Seat :: BidWeight(queue, t) <= BidWeight(queue, best.value)
    requires best.Some? ==> forall t: Seat | t < best.value :: BidWeight(queue, t) < BidWeight(queue, best.value)
    ensures BestBid(queue, 4) == best
  {
  }
}
