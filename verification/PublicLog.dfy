/** The public event log tells the whole public table: every pile, meld and flower can be read off it. */
module PublicLog {
  import opened Tiles
  import opened Wall
  import opened Hand
  import opened HandInvariant
  import opened HandSteps
  import opened HandStart
  import opened HandRuns
  import opened HandOutcomes
  import opened ClaimWindow
  import opened TurnsAndClaims

  // ---- Reading the log ----

  predicate IsCall(e: PublicEvent) {
    e.kind == ChiiEvent || e.kind == PonEvent || e.kind == KanOpenEvent
  }

  /** A seat's pile as told: its discards, less each one that was called. */
  function PileOf(events: seq<PublicEvent>, q: Seat): seq<int> {
    if events == [] then []
    else
      var e, before := events[|events| - 1], PileOf(events[..|events| - 1], q);
      if e.kind == DiscardEvent && e.seat == q then before + [e.face]
      else if IsCall(e) && e.fromSeat == q && before != [] then before[..|before| - 1]
      else before
  }

  function FlowersOf(events: seq<PublicEvent>, q: Seat): seq<int> {
    if events == [] then []
    else
      var e, before := events[|events| - 1], FlowersOf(events[..|events| - 1], q);
      if e.kind == FlowerEvent && e.seat == q then before + [e.face] else before
  }

  /** A meld as told: what it was when it was laid down, the called face or that of a closed kan, and who was called from. */
  datatype ToldMeld = ToldMeld(kind: MeldKind, face: int, from: int)

  function LaidKind(k: EventKind): MeldKind {
    match k
    case ChiiEvent => ChiiMeld
    case PonEvent => PonMeld
    case _ => KanMeld
  }

  function MeldsOf(events: seq<PublicEvent>, q: Seat): seq<ToldMeld> {
    if events == [] then []
    else
      var e, before := events[|events| - 1], MeldsOf(events[..|events| - 1], q);
      if (IsCall(e) || e.kind == KanClosedEvent) && e.seat == q then before + [ToldMeld(LaidKind(e.kind), e.face, e.fromSeat)]
      else before
  }

  // ---- What it must tell ----

  function Codes(ts: seq<TileId>): (cs: seq<int>)
    ensures |cs| == |ts|
  {
    seq(|ts|, i requires 0 <= i < |ts| => FaceCode(ts[i]))
  }

  /** A told meld is this meld of seat q; a pon may have become a kan since. */
  predicate Tells(q: Seat, told: ToldMeld, m: Meld) {
    && (m.kind == told.kind || (told.kind == PonMeld && m.kind == KanMeld && m.added.Some?))
    && (told.from >= 0 ==> m.called.Some? && told.face == FaceCode(m.called.value) && (q + m.direction) % 4 == told.from)
    && (told.from < 0 ==> m.called.None? && m.tiles != [] && told.face == FaceCode(m.tiles[0]))
  }

  predicate TellsMelds(q: Seat, told: seq<ToldMeld>, melds: seq<Meld>) {
    |told| == |melds| && forall i | 0 <= i < |told| :: Tells(q, told[i], melds[i])
  }

  /** A seat's pile, with the tile that was ronned off it. */
  function FullPile(s: State, q: Seat): seq<int> {
    Codes(s.players[q].discards)
    + if s.result.Some? && s.result.value.RonWin? && s.result.value.discarder == q then [FaceCode(s.result.value.ronTile)] else []
  }

  ghost predicate SeatTold(s: State, q: Seat) {
    && PileOf(s.events, q) == FullPile(s, q)
    && FlowersOf(s.events, q) == Codes(s.players[q].flowerMelds)
    && TellsMelds(q, MeldsOf(s.events, q), s.players[q].openMelds)
  }

  ghost predicate LogTells(s: State) {
    forall q: Seat :: SeatTold(s, q)
  }

  // ---- Events ----

  lemma Told(events: seq<PublicEvent>, e: PublicEvent, q: Seat)
    ensures var pile := PileOf(events, q);
            PileOf(events + [e], q) == if e.kind == DiscardEvent && e.seat == q then pile + [e.face]
                                       else if IsCall(e) && e.fromSeat == q && pile != [] then pile[..|pile| - 1] else pile
    ensures FlowersOf(events + [e], q) == if e.kind == FlowerEvent && e.seat == q then FlowersOf(events, q) + [e.face] else FlowersOf(events, q)
    ensures MeldsOf(events + [e], q)
         == if (IsCall(e) || e.kind == KanClosedEvent) && e.seat == q then MeldsOf(events, q) + [ToldMeld(LaidKind(e.kind), e.face, e.fromSeat)]
            else MeldsOf(events, q)
  {
    assert (events + [e])[..|events|] == events;
  }

  lemma CodesGrow(ts: seq<TileId>, t: TileId)
    ensures Codes(ts + [t]) == Codes(ts) + [FaceCode(t)]
    ensures ts != [] ==> Codes(ts[..|ts| - 1]) == Codes(ts)[..|ts| - 1]
  {
  }

  /** Nothing public but the log changed, and the log only by draws. */
  ghost predicate SamePublic(s: State, s': State) {
    && forall q: Seat ::
         && s'.players[q].discards == s.players[q].discards && s'.players[q].flowerMelds == s.players[q].flowerMelds
         && s'.players[q].openMelds == s.players[q].openMelds
  }

  lemma SameLog(s: State, s': State)
    requires LogTells(s) && NoRon(s) && NoRon(s') && SamePublic(s, s') && s'.events == s.events
    ensures LogTells(s')
  {
    hide PileOf, FlowersOf, MeldsOf, Codes, TellsMelds;
    forall q: Seat ensures SeatTold(s', q) {
      assert SeatTold(s, q);
    }
  }

  lemma DrawLogged(s: State, s': State, e: PublicEvent)
    requires LogTells(s) && NoRon(s) && NoRon(s') && SamePublic(s, s') && s'.events == s.events + [e]
    requires e.kind == DrawEvent || e.kind == KanUpgradeEvent
    ensures LogTells(s')
  {
    hide PileOf, FlowersOf, MeldsOf, Codes, TellsMelds;
    forall q: Seat ensures SeatTold(s', q) {
      assert SeatTold(s, q);
      Told(s.events, e, q);
    }
  }

  lemma DrawTold(s: State, w': WallState, seat: Seat, idx: nat, haitei: bool)
    requires LogTells(s) && NoRon(s) && idx < |w'.tiles|
    ensures var s' := LogEvent(TakeTile(s.(w := w'), seat, idx), DrawEventOf(seat, w'.tiles[idx], haitei)); LogTells(s') && NoRon(s')
  {
    hide LogTells, WangpaiUndrawn, FaceCode;
    DrawLogged(s, LogEvent(TakeTile(s.(w := w'), seat, idx), DrawEventOf(seat, w'.tiles[idx], haitei)), DrawEventOf(seat, w'.tiles[idx], haitei));
  }

  lemma FlowerTold(s: State, s': State, seat: Seat, f: TileId, e: PublicEvent)
    requires LogTells(s) && NoRon(s) && s'.result == s.result && s'.events == s.events + [e]
    requires e.kind == FlowerEvent && e.seat == seat && e.face == FaceCode(f)
    requires forall q: Seat :: s'.players[q].discards == s.players[q].discards && s'.players[q].openMelds == s.players[q].openMelds
    requires forall q: Seat :: s'.players[q].flowerMelds == if q == seat then s.players[q].flowerMelds + [f] else s.players[q].flowerMelds
    ensures LogTells(s')
  {
    hide PileOf, FlowersOf, MeldsOf, TellsMelds, FaceCode, Codes;
    forall q: Seat ensures SeatTold(s', q) {
      assert SeatTold(s, q);
      Told(s.events, e, q);
      CodesGrow(s.players[q].flowerMelds, f);
    }
  }

  // ---- Draws and reveals ----

  lemma {:induction false} DeadWallDrawTold(s: State, seat: Seat)
    requires LogTells(s) && NoRon(s)
    ensures LogTells(DeadWallDraw(s, seat)) && NoRon(DeadWallDraw(s, seat))
    decreases Measure(s), 0
  {
    hide AutoReveal, FaceCode, WangpaiUndrawn, Measure, LogTells;
    var (k, target) := DeadTarget(|s.w.tiles|, s.w.wallIndex, s.w.indicator, s.w.deadWallIndex);
    var w' := s.w.(deadWallIndex := k);
    SameLog(s, Conclude(s, Exhausted));
    SameLog(s, Conclude(s.(w := w'), Exhausted));
    if s.wallCount > 0 && target.Some? {
      DrawTold(s, w', seat, target.value, false);
      DrawLowersMeasure(s, w', seat, target.value, DrawEventOf(seat, s.w.tiles[target.value], false));
      AutoRevealTold(LogEvent(TakeTile(s.(w := w'), seat, target.value), DrawEventOf(seat, s.w.tiles[target.value], false)), seat);
    }
  }

  lemma {:induction false} AutoRevealTold(s: State, seat: Seat)
    requires LogTells(s) && NoRon(s)
    ensures LogTells(AutoReveal(s, seat)) && NoRon(AutoReveal(s, seat))
    decreases Measure(s), 1
  {
    hide DeadWallDraw, FaceCode, Measure, FirstRevealable, LogTells, RemoveFirst;
    var flower := FlowerOf(s, seat);
    if flower.Some? {
      var s1 := MoveFlower(s, seat, flower.value);
      FlowerTold(s, s1, seat, flower.value, PublicEvent(FlowerEvent, seat, FaceCode(flower.value), -1, false, false));
      DeadWallDrawTold(s1, seat);
      var s2 := DeadWallDraw(s1, seat);
      SameMeasure(s2);
      SameLog(s2, ResumeTurn(s2));
      AutoRevealTold(ResumeTurn(s2), seat);
    } else {
      SameLog(s, SetOffer(s, seat, TurnOffer));
    }
  }

  lemma SystemDrawTold(s: State, seat: Seat)
    requires LogTells(s) && NoRon(s) && s.w.wallIndex <= s.w.boundary <= |s.w.tiles|
    ensures LogTells(SystemDraw(s, seat)) && NoRon(SystemDraw(s, seat))
  {
    hide SystemDraw, AutoReveal, TakeTile, DrawEventOf, LogEvent, SkipConsumed, FindHaitei, LogTells, Conclude, SetOffer;
    SystemDrawCases(s, seat);
    var f := SkipConsumed(|s.w.tiles|, s.w.deadWallIndex, s.w.boundary, s.w.wallIndex);
    if f < s.w.boundary {
      var w' := s.w.(wallIndex := f + 1);
      DrawTold(s, w', seat, f, false);
      AutoRevealTold(LogEvent(TakeTile(s.(w := w'), seat, f), DrawEventOf(seat, s.w.tiles[f], false)), seat);
    } else {
      FrontIsOut(s, s.w.(wallIndex := f), seat);
    }
  }

  lemma FrontIsOut(s: State, w': WallState, seat: Seat)
    requires LogTells(s) && NoRon(s)
    ensures var s1 := s.(w := w');
            && LogTells(Conclude(s1, Exhausted)) && NoRon(Conclude(s1, Exhausted))
            && LogTells(SetOffer(s1.(isHaitei := true), seat, HaiteiOffer)) && NoRon(SetOffer(s1.(isHaitei := true), seat, HaiteiOffer))
  {
    hide LogTells;
    SameLog(s, Conclude(s.(w := w'), Exhausted));
    SameLog(s, SetOffer(s.(w := w').(isHaitei := true), seat, HaiteiOffer));
  }

  lemma NextTurnTold(s: State)
    requires LogTells(s) && NoRon(s) && s.w.wallIndex <= s.w.boundary <= |s.w.tiles|
    ensures LogTells(NextTurn(s)) && NoRon(NextTurn(s))
  {
    hide SystemDraw, LogTells;
    var s1 := s.(active := Next(s.active), phase := PlayerTurn, activeDiscard := None);
    SameLog(s, s1);
    SystemDrawTold(s1, s1.active);
  }

  // ---- Messages ----

  lemma DiscardTold(s: State, t: TileId)
    requires LogTells(s) && NoRon(s) && t in s.players[s.active].closedHand
    ensures LogTells(DiscardTile(s, s.active, t)) && NoRon(DiscardTile(s, s.active, t))
  {
    hide PileOf, FlowersOf, MeldsOf, TellsMelds, FaceCode, Codes, RemoveFirst;
    var s' := DiscardTile(s, s.active, t);
    var e := s'.events[|s.events|];
    forall q: Seat ensures SeatTold(s', q) {
      assert SeatTold(s, q);
      Told(s.events, e, q);
      CodesGrow(s.players[q].discards, t);
    }
  }

  lemma HandleDiscardTold(r: Rules, s: State, t: TileId)
    requires LogTells(s) && NoRon(s) && t in s.players[s.active].closedHand && s.w.wallIndex <= s.w.boundary <= |s.w.tiles|
    ensures LogTells(HandleDiscard(r, s, s.active, t).0)
  {
    hide LogTells, NextTurn, DiscardTile, ClaimOfferFor;
    DiscardTold(s, t);
    var s1 := DiscardTile(s, s.active, t);
    assert s1.w == s.w by { DiscardFrame(s, t); }
    var s2 := OfferClaims(r, s1, t, s.active);
    SameLog(s1, s2);
    SameLog(s2, s2.(phase := WaitDiscards, queue := map[]));
    SameLog(s2, Conclude(s2.(isHaitei := false), Exhausted));
    NextTurnTold(s2);
  }

  lemma DiscardFrame(s: State, t: TileId)
    ensures DiscardTile(s, s.active, t).w == s.w
  {
  }

  lemma AcceptTold(s: State, seat: Seat)
    requires LogTells(s) && NoRon(s)
    ensures LogTells(HaiteiAccept(s, seat).0)
  {
    hide AutoReveal, FaceCode, WangpaiUndrawn, LogTells;
    var target := FindHaitei(s.w);
    if target.Some? {
      var w' := s.w.(haiteiDraw := target.value);
      DrawTold(s, w', seat, target.value, true);
      var s1 := LogEvent(TakeTile(s.(w := w'), seat, target.value), DrawEventOf(seat, s.w.tiles[target.value], true));
      SameLog(s1, s1.(isHaitei := false));
      SameLog(s1, SetOffer(s1, seat, TurnOffer));
      AutoRevealTold(s1.(isHaitei := false), seat);
    }
  }

  lemma MeldAdded(q: Seat, told: seq<ToldMeld>, melds: seq<Meld>, one: ToldMeld, m: Meld)
    requires TellsMelds(q, told, melds) && Tells(q, one, m)
    ensures TellsMelds(q, told + [one], melds + [m])
  {
    hide Tells;
  }

  lemma PonGrown(q: Seat, told: seq<ToldMeld>, melds: seq<Meld>, i: nat, tiles: seq<TileId>)
    requires TellsMelds(q, told, melds) && i < |melds| && melds[i].kind == PonMeld && melds[i].tiles != [] && tiles != []
    ensures TellsMelds(q, told, melds[i := melds[i].(kind := KanMeld, tiles := melds[i].tiles + tiles, added := Some(tiles[0]))])
  {
    assert Tells(q, told[i], melds[i]);
  }

  lemma DeclareKanTold(s: State, seat: Seat, tiles: seq<TileId>, rest: seq<TileId>)
    requires LogTells(s) && NoRon(s) && tiles != [] && MeldsNonempty(s)
    ensures LogTells(DeclareKan(s, seat, tiles, rest)) && NoRon(DeclareKan(s, seat, tiles, rest))
  {
    hide PileOf, FlowersOf, MeldsOf, TellsMelds, FaceCode, Codes, MatchingPon;
    var s' := DeclareKan(s, seat, tiles, rest);
    var e := s'.events[|s.events|];
    var melds := s.players[seat].openMelds;
    var i := MatchingPon(melds, FaceOf(tiles[0]));
    assert SeatTold(s, seat);
    if i < |melds| {
      assert melds[i] in melds;
      PonGrown(seat, MeldsOf(s.events, seat), melds, i, tiles);
    } else {
      MeldAdded(seat, MeldsOf(s.events, seat), melds, ToldMeld(KanMeld, FaceCode(tiles[0]), -1), Meld(KanMeld, tiles, 0, None, None));
    }
    forall q: Seat ensures SeatTold(s', q) {
      assert SeatTold(s, q);
      Told(s.events, e, q);
    }
  }

  lemma SelfKanTold(s: State, tiles: seq<TileId>)
    requires LogTells(s) && NoRon(s) && tiles != [] && MeldsNonempty(s) && multiset(tiles) <= multiset(s.players[s.active].closedHand)
    ensures LogTells(HandleKongOrFlower(s, s.active, tiles, true).0)
  {
    hide LogTells, DeadWallDraw, DeclareKan, MeldsNonempty;
    var rest := RemoveEach(s.players[s.active].closedHand, tiles).0;
    DeclareKanTold(s, s.active, tiles, rest);
    var s1 := DeclareKan(s, s.active, tiles, rest);
    DeadWallDrawTold(s1, s.active);
    SameLog(DeadWallDraw(s1, s.active), ResumeTurn(DeadWallDraw(s1, s.active)));
  }

  lemma WayBack(q: Seat, of: Seat)
    ensures (q + (of + 4 - q) % 4) % 4 == of
  {
  }

  lemma TakeDiscardTold(s: State, q: Seat, c: Claim)
    requires LogTells(s) && NoRon(s) && DiscardOpen(s) && q != s.active && (c.Chii? || c.Pon? || c.Kan?)
    ensures LogTells(TakeDiscard(s, q, c)) && NoRon(TakeDiscard(s, q, c))
  {
    hide SeatTold, TakeDiscard;
    TakeDiscardLogs(s, q, c);
    forall p: Seat ensures SeatTold(TakeDiscard(s, q, c), p) {
      TakeDiscardSeat(s, q, c, p);
    }
  }

  lemma TakeDiscardLogs(s: State, q: Seat, c: Claim)
    requires q != s.active && s.activeDiscard.Some? && (c.Chii? || c.Pon? || c.Kan?)
    ensures var s' := TakeDiscard(s, q, c);
            && s'.events == s.events + [PublicEvent(ClaimEventKind(c), q, FaceCode(s.activeDiscard.value), s.active, false, false)]
            && s'.result == s.result
            && forall p: Seat :: s'.players[p].flowerMelds == s.players[p].flowerMelds
  {
    hide FaceCode, RemovePresent, DropLast, ClaimEventKind, ClaimMeldKind;
  }

  lemma TakeDiscardSeat(s: State, q: Seat, c: Claim, p: Seat)
    requires SeatTold(s, p) && NoRon(s) && DiscardOpen(s) && q != s.active && (c.Chii? || c.Pon? || c.Kan?)
    ensures SeatTold(TakeDiscard(s, q, c), p)
  {
    hide PileOf, FlowersOf, MeldsOf, TellsMelds, FaceCode, Codes, TakeDiscard, LayClaim, DropLast;
    var t := s.activeDiscard.value;
    var e := PublicEvent(ClaimEventKind(c), q, FaceCode(t), s.active, false, false);
    TakeDiscardLogs(s, q, c);
    TakeDiscardIs(s, q, c);
    ClaimLays(s, q, c);
    Told(s.events, e, p);
    DropLastIs(s.players[s.active].discards);
    CodesGrow(s.players[s.active].discards, t);
    if p == q {
      var meld := Meld(if c.Chii? then ChiiMeld else if c.Pon? then PonMeld else KanMeld, c.tiles + [t], (s.active + 4 - q) % 4, Some(t), None);
      WayBack(q, s.active);
      MeldAdded(q, MeldsOf(s.events, q), s.players[q].openMelds, ToldMeld(LaidKind(e.kind), FaceCode(t), s.active), meld);
    }
  }

  lemma RonTold(s: State, q: Seat)
    requires LogTells(s) && NoRon(s) && DiscardOpen(s)
    ensures LogTells(ApplyRon(s, q).(queue := map[]))
  {
    hide PileOf, FlowersOf, MeldsOf, TellsMelds, FaceCode, Codes, DropLast;
    var s' := ApplyRon(s, q).(queue := map[]);
    var pile := s.players[s.active].discards;
    DropLastIs(pile);
    CodesGrow(DropLast(pile), s.activeDiscard.value);
    assert pile == DropLast(pile) + [s.activeDiscard.value];
    forall p: Seat ensures SeatTold(s', p) {
      assert SeatTold(s, p);
    }
  }

  lemma ApplyMeldTold(s: State, q: Seat, c: Claim)
    requires LogTells(s) && NoRon(s) && DiscardOpen(s) && q != s.active && (c.Chii? || c.Pon? || c.Kan?)
    ensures LogTells(ApplyMeld(s, q, c)) && NoRon(ApplyMeld(s, q, c))
  {
    hide LogTells, TakeDiscard, DeadWallDraw, AutoReveal;
    TakeDiscardTold(s, q, c);
    var s1 := TakeDiscard(s, q, c);
    DeadWallDrawTold(s1, q);
    SameLog(DeadWallDraw(s1, q), ResumeTurn(DeadWallDraw(s1, q)));
    SameLog(s1, s1.(phase := PlayerTurn));
    AutoRevealTold(s1.(phase := PlayerTurn), q);
  }

  lemma ResolveTold(r: Rules, s: State)
    requires LogTells(s) && WindowOpen(s) && s.w.wallIndex <= s.w.boundary <= |s.w.tiles|
    ensures LogTells(Resolve(r, s))
  {
    hide LogTells, NextTurn, ApplyMeld, ApplyRon, Sized, NoFlowersBut, TableOf, OffersFit, QueueFits;
    NextTurnTold(s);
    RonTold(s, 0);
    var best := BestBid(s.queue, 4);
    if best.Some? {
      OfferedClaimFits(s, best.value);
      RonTold(s, best.value);
      if !s.queue[best.value].Ron? {
        ApplyMeldTold(s, best.value, s.queue[best.value]);
        SameLog(ApplyMeld(s, best.value, s.queue[best.value]), ApplyMeld(s, best.value, s.queue[best.value]).(queue := map[]));
      }
    }
  }

  lemma ClaimTold(r: Rules, s: State, seat: Seat, c: Claim)
    requires LogTells(s) && Inv(s) && s.phase == WaitDiscards && Offered(r, s, InWindow(seat, c))
    requires s.activeDiscard.Some? && s.w.wallIndex <= s.w.boundary <= |s.w.tiles|
    ensures LogTells(HandleClaim(r, s, seat, c).0)
  {
    hide LogTells, CoreInv, Distinct, Sized, NoFlowersBut, Resolve;
    var s1 := s.(queue := s.queue[seat := c]);
    SameLog(s, s1);
    assert WindowOpen(s1) by { AnswerKeepsWindow(r, s, seat, c); }
    hide WindowOpen;
    ResolveTold(r, s1);
  }

  lemma StepTold(r: Rules, s: State, input: Input)
    requires RulesOk(r) && Inv(s) && LogTells(s) && Offered(r, s, input)
    ensures LogTells(After(r, s, input))
  {
    hide CoreInv, Distinct, NoFlowersBut, Sized, RulesOk, LogTells, HandleDiscard, HandleKongOrFlower, HaiteiAccept, HandleClaim, TableOf, WindowOpen;
    OfferedIsDefined(r, s, input);
    OpenHandsHaveNoResult(s);
    match input
    case OnTurn(seat, action) =>
      match action {
        case AcceptHaitei => AcceptTold(s, seat);
        case RefuseHaitei => SameLog(s, HaiteiRefuse(s));
        case Discard(t) => HandleDiscardTold(r, s, t);
        case SelfKan(tiles) => SelfKanTold(s, tiles);
        case Tsumo => TsumoTold(r, s, seat);
        case _ =>
      }
    case InWindow(seat, c) => ClaimTold(r, s, seat, c);
  }

  lemma OpenHandsHaveNoResult(s: State)
    requires Inv(s) && s.phase != RoundEnd
    ensures NoRon(s)
  {
    hide CoreInv, Distinct, NoFlowersBut, Sized, DiscardOpen, OffersFit, QueueFits;
  }

  lemma TsumoTold(r: Rules, s: State, seat: Seat)
    requires LogTells(s) && NoRon(s)
    ensures LogTells(HandleTsumo(r, s, seat).0)
  {
    hide PileOf, FlowersOf, MeldsOf, TellsMelds, Codes, TableOf;
    var s' := HandleTsumo(r, s, seat).0;
    forall q: Seat ensures SeatTold(s', q) {
      assert SeatTold(s, q);
    }
  }

  // ---- The start of a hand ----

  lemma DealTold(wall: seq<TileId>, diceSum: nat, isHaitei: bool)
    requires |wall| >= 52 + 2 * diceSum && diceSum >= 1
    ensures LogTells(Deal(wall, diceSum, isHaitei)) && NoRon(Deal(wall, diceSum, isHaitei))
  {
    hide WangpaiUndrawn, WildFaces, DealtHand;
  }

  lemma {:induction false} InitialFlowersTold(s: State, seat: Seat)
    requires Early(s) && LogTells(s) && NoRon(s)
    ensures LogTells(InitialFlowersOf(s, seat)) && NoRon(InitialFlowersOf(s, seat))
    decreases Measure(s)
  {
    hide Undrawn, WangpaiUndrawn, CoreInv, FlowersLaid, OnlyFlowersLaid, TakeTile, Measure, LogTells;
    match FlowerOf(s, seat)
    case None =>
    case Some(f) =>
      LayInitialFlowerKeeps(s, seat, f);
      EarlyHasTiles(s);
      DeadTargetGivesOne(s.w);
      DeadTargetIsUndrawn(s.w);
      var (k, target) := DeadTarget(|s.w.tiles|, s.w.wallIndex, s.w.indicator, s.w.deadWallIndex);
      var w' := s.w.(deadWallIndex := k);
      ReplacedKeeps(s, seat, f, w', target.value);
      InitialFlowersOfUnfolds(s, seat, f);
      ReplacedTold(s, seat, f, w', target.value);
      InitialFlowersTold(Replaced(s, seat, f, w', target.value), seat);
  }

  lemma ReplacedTold(s: State, seat: Seat, f: TileId, w': WallState, idx: nat)
    requires LogTells(s) && NoRon(s) && idx < |w'.tiles|
    ensures LogTells(Replaced(s, seat, f, w', idx)) && NoRon(Replaced(s, seat, f, w', idx))
  {
    hide LogTells, WangpaiUndrawn, FaceCode, RemoveFirst;
    FlowerTold(s, Replaced(s, seat, f, w', idx), seat, f, PublicEvent(FlowerEvent, seat, FaceCode(f), -1, false, false));
  }

  lemma StartTold(wall: seq<TileId>, dealer: Seat, diceSum: nat, isHaitei: bool)
    requires FullWall(wall) && 2 <= diceSum <= 12
    ensures LogTells(StartHand(wall, dealer, diceSum, isHaitei))
  {
    hide Early, InitialFlowersOf, SystemDraw, Sized, NoFlowersBut, CoreInv, LogTells;
    var s0 := Deal(wall, diceSum, isHaitei);
    DealIsEarly(wall, diceSum, isHaitei);
    DealKeeps(wall, diceSum, isHaitei);
    DealTold(wall, diceSum, isHaitei);
    AllInitialFlowersTold(s0, dealer);
    InitialFlowersKeeps(s0, dealer);
    var s1 := InitialFlowers(s0, dealer);
    var s1' := s1.(phase := PlayerTurn, active := dealer);
    SamePlayers(s1, s1');
    EarlyTable(s1, s1');
    SameLog(s1, s1');
    SystemDrawTold(s1', dealer);
    var s2 := SystemDraw(s1', dealer);
    FirstDrawClears(s1', dealer);
    NoInitialFlowersLeft(s2, dealer);
    SameLog(s2, SetOffer(s2, dealer, TurnOffer));
  }

  lemma AllInitialFlowersTold(s: State, dealer: Seat)
    requires Early(s) && LogTells(s) && NoRon(s)
    ensures LogTells(InitialFlowers(s, dealer)) && NoRon(InitialFlowers(s, dealer))
  {
    hide Early, InitialFlowersOf, LogTells;
    var a, b, c, d := dealer, Next(dealer), Next(Next(dealer)), Next(Next(Next(dealer)));
    InitialFlowersTold(s, a);
    InitialFlowersOfKeeps(s, a);
    var s1 := InitialFlowersOf(s, a);
    InitialFlowersTold(s1, b);
    InitialFlowersOfKeeps(s1, b);
    var s2 := InitialFlowersOf(s1, b);
    InitialFlowersTold(s2, c);
    InitialFlowersOfKeeps(s2, c);
    InitialFlowersTold(InitialFlowersOf(s2, c), d);
  }

  // ---- The main result ----

  /** In every state a hand comes to by offered messages the log tells the table: each seat's pile is its logged discards less
      those logged as called, up to the tile of a ron; its flowers are those logged; and its melds are those logged, in order,
      with their kinds, called faces and callees. */
  lemma {:induction false} LogTellsTheTable(r: Rules, wall: seq<TileId>, diceSum: nat, states: seq<State>, inputs: seq<Input>, i: nat)
    requires PlayedHand(r, wall, diceSum, states, inputs) && i <= |inputs|
    ensures LogTells(states[i])
  {
    hide LogTells, Inv, StartHand, Offered, HaiteiGuard, After;
    if i == 0 {
      FirstIsDealt(r, wall, diceSum, states, inputs);
      var dealer, isHaitei :| states[0] == StartHand(wall, dealer, diceSum, isHaitei);
      StartTold(wall, dealer, diceSum, isHaitei);
    } else {
      LogTellsTheTable(r, wall, diceSum, states, inputs, i - 1);
      PlayedHandKeeps(r, wall, diceSum, states, inputs, i - 1);
      StepTold(r, states[i - 1], inputs[i - 1]);
      assert states[i - 1 + 1] == After(r, states[i - 1], inputs[i - 1]);
    }
  }
}
