/** What a discard, a call and a draw do at the table, told without the functions that do it. */
module TurnsAndClaims {
  import opened Tiles
  import opened Wall
  import opened Hand
  import opened HandInvariant
  import opened HandSteps
  import opened HandOutcomes
  import opened ClaimWindow
  import opened EngineLaws

  // ---- Draws touch no meld and no pile ----

  predicate TableKept(s: State, s': State) {
    && s'.active == s.active && s'.activeDiscard == s.activeDiscard
    && forall q: Seat :: s'.players[q].openMelds == s.players[q].openMelds && s'.players[q].discards == s.players[q].discards
  }

  lemma {:induction false} DeadWallDrawKeepsTable(s: State, seat: Seat)
    ensures TableKept(s, DeadWallDraw(s, seat))
    decreases Measure(s), 0
  {
    hide AutoReveal, FaceCode, WangpaiUndrawn, Measure;
    var (k, target) := DeadTarget(|s.w.tiles|, s.w.wallIndex, s.w.indicator, s.w.deadWallIndex);
    if s.wallCount > 0 && target.Some? {
      var e := DrawEventOf(seat, s.w.tiles[target.value], false);
      DrawLowersMeasure(s, s.w.(deadWallIndex := k), seat, target.value, e);
      AutoRevealKeepsTable(LogEvent(TakeTile(s.(w := s.w.(deadWallIndex := k)), seat, target.value), e), seat);
    }
  }

  lemma {:induction false} AutoRevealKeepsTable(s: State, seat: Seat)
    ensures TableKept(s, AutoReveal(s, seat))
    decreases Measure(s), 1
  {
    hide DeadWallDraw, FaceCode, Measure, FirstRevealable;
    var flower := FlowerOf(s, seat);
    if flower.Some? {
      var s1 := MoveFlower(s, seat, flower.value);
      LayingKeepsTable(s, seat, flower.value);
      DeadWallDrawKeepsTable(s1, seat);
      SameMeasure(DeadWallDraw(s1, seat));
      AutoRevealKeepsTable(ResumeTurn(DeadWallDraw(s1, seat)), seat);
    }
  }

  lemma LayingKeepsTable(s: State, seat: Seat, f: TileId)
    requires f in s.players[seat].closedHand
    ensures TableKept(s, MoveFlower(s, seat, f))
  {
    hide RemoveFirst, FaceCode;
  }

  lemma SystemDrawKeepsTable(s: State, seat: Seat)
    requires s.w.wallIndex <= s.w.boundary <= |s.w.tiles|
    ensures TableKept(s, SystemDraw(s, seat))
  {
    hide SystemDraw, AutoReveal, TakeTile, DrawEventOf, LogEvent, SkipConsumed, FindHaitei;
    SystemDrawCases(s, seat);
    var f := SkipConsumed(|s.w.tiles|, s.w.deadWallIndex, s.w.boundary, s.w.wallIndex);
    if f < s.w.boundary {
      var w', e := s.w.(wallIndex := f + 1), DrawEventOf(seat, s.w.tiles[f], false);
      TakingKeepsTable(s, w', seat, f, e);
      AutoRevealKeepsTable(LogEvent(TakeTile(s.(w := w'), seat, f), e), seat);
    }
  }

  lemma TakingKeepsTable(s: State, w': WallState, seat: Seat, idx: nat, e: PublicEvent)
    requires idx < |w'.tiles|
    ensures TableKept(s, LogEvent(TakeTile(s.(w := w'), seat, idx), e))
  {
    hide WangpaiUndrawn;
  }

  // ---- The draw that opens a turn ----

  /** The first position of the live wall still to be drawn from the front. */
  ghost predicate IsFront(w: WallState, i: nat) {
    && i < w.boundary && i in Undrawn(w)
    && forall j | w.wallIndex <= j < i :: j !in Undrawn(w)
  }

  lemma FrontIsUnique(w: WallState, i: nat)
    requires WallLaid(w) && w.haiteiDraw == -1 && IsFront(w, i)
    ensures SkipConsumed(|w.tiles|, w.deadWallIndex, w.boundary, w.wallIndex) == i
  {
    SkippedAreGone(w);
    TwoFronts(w, SkipConsumed(|w.tiles|, w.deadWallIndex, w.boundary, w.wallIndex), i);
  }

  lemma TwoFronts(w: WallState, i: nat, j: nat)
    ensures IsFront(w, i) && IsFront(w, j) ==> i == j
    ensures i == w.boundary && IsFront(w, j) ==> j < i
  {
    hide Consumed;
  }

  /** A turn opens with the front tile of the live wall, marked as drawn; a plain flower is not kept. Only when no front tile
      is left is the tile under the indicator offered as haitei, or the hand drawn if that is gone too. */
  lemma TurnOpensWithTheFrontTile(s: State, seat: Seat)
    requires WallLaid(s.w) && s.w.haiteiDraw == -1 && NoFlowersBut(s, {}) && s.phase == PlayerTurn
    ensures forall i: nat | IsFront(s.w, i) ::
              var p' := SystemDraw(s, seat).players[seat];
              !Revealable(s, s.w.tiles[i]) ==>
                && p'.closedHand == s.players[seat].closedHand + [s.w.tiles[i]] && p'.drawn == Some(s.w.tiles[i])
                && p'.offer == TurnOffer && SystemDraw(s, seat).w.wallIndex == i + 1
                && SystemDraw(s, seat).events == s.events + [PublicEvent(DrawEvent, seat, FaceCode(s.w.tiles[i]), -1, false, false)]
    ensures (forall i: nat :: !IsFront(s.w, i)) ==>
              var s' := SystemDraw(s, seat);
              && (forall q: Seat :: s'.players[q].closedHand == s.players[q].closedHand)
              && (if s.w.indicator + 1 in Undrawn(s.w) then s'.isHaitei && s'.players[seat].offer == HaiteiOffer && s'.phase == PlayerTurn
                  else s'.phase == RoundEnd && s'.result == Some(Exhausted))
  {
    hide NoFlowersBut, SystemDraw, AutoReveal, TakeTile, SkipConsumed, IsFlower, Consumed, Undrawn, WangpaiUndrawn;
    var f := SkipConsumed(|s.w.tiles|, s.w.deadWallIndex, s.w.boundary, s.w.wallIndex);
    SkippedAreGone(s.w);
    SystemDrawCases(s, seat);
    if f < s.w.boundary {
      if !Revealable(s, s.w.tiles[f]) {
        FrontDrawDoes(s, seat, f);
      }
      forall i: nat | IsFront(s.w, i) ensures i == f {
        FrontIsUnique(s.w, i);
      }
      hide IsFront;
    }
  }

  lemma FrontDrawDoes(s: State, seat: Seat, f: nat)
    requires f < |s.w.tiles| && NoFlowersBut(s, {}) && !Revealable(s, s.w.tiles[f])
    ensures var s' := AutoReveal(LogEvent(TakeTile(s.(w := s.w.(wallIndex := f + 1)), seat, f), DrawEventOf(seat, s.w.tiles[f], false)), seat);
            && s'.players[seat].closedHand == s.players[seat].closedHand + [s.w.tiles[f]] && s'.players[seat].drawn == Some(s.w.tiles[f])
            && s'.players[seat].offer == TurnOffer && s'.w.wallIndex == f + 1
            && s'.events == s.events + [PublicEvent(DrawEvent, seat, FaceCode(s.w.tiles[f]), -1, false, false)]
  {
    hide NoFlowersBut, WangpaiUndrawn, FirstRevealable, IsFlower, FaceCode;
    NothingToReveal(s, seat, s.w.tiles[f]);
  }

  lemma SkippedAreGone(w: WallState)
    requires WallLaid(w) && w.haiteiDraw == -1
    ensures var f := SkipConsumed(|w.tiles|, w.deadWallIndex, w.boundary, w.wallIndex);
            && (f < w.boundary ==> IsFront(w, f))
            && (f == w.boundary ==> forall j: nat :: !IsFront(w, j))
            && (w.indicator + 1 in Undrawn(w) <==> !Consumed(|w.tiles|, w.deadWallIndex, w.indicator + 1))
  {
  }

  lemma NothingToReveal(s: State, seat: Seat, t: TileId)
    requires NoFlowersBut(s, {}) && !Revealable(s, t)
    ensures forall s': State | s'.wild == s.wild && s'.players[seat].closedHand == s.players[seat].closedHand + [t] :: FlowerOf(s', seat).None?
  {
    forall s': State | s'.wild == s.wild && s'.players[seat].closedHand == s.players[seat].closedHand + [t] ensures FlowerOf(s', seat).None? {
      forall x | x in s'.players[seat].closedHand ensures !Revealable(s', x) {
        assert x in s.players[seat].closedHand ==> !Revealable(s, x);
      }
    }
  }

  // ---- Discards ----

  /** The seat to the right of another. */
  predicate ToTheRight(q: Seat, of: Seat) {
    q == if of == 3 then 0 else of + 1
  }

  /** The turn has passed on with nobody having taken the discard. */
  predicate TurnPassed(s: State, s': State) {
    && ToTheRight(s'.active, s.active) && s'.activeDiscard.None? && s'.phase != WaitDiscards
    && forall q: Seat :: s'.players[q].openMelds == s.players[q].openMelds && s'.players[q].discards == s.players[q].discards
  }

  lemma NextTurnPasses(s: State)
    requires s.w.wallIndex <= s.w.boundary <= |s.w.tiles|
    ensures TurnPassed(s, NextTurn(s))
  {
    hide SystemDraw;
    SystemDrawKeepsTable(s.(active := Next(s.active), phase := PlayerTurn, activeDiscard := None), Next(s.active));
  }

  /** What seat q may call on the tile the seat to act is about to discard; under haitei only ron. */
  ghost predicate MayCall(r: Rules, s: State, t: TileId, q: Seat, c: Claim) {
    q != s.active && c in r.interrupts(TableOf(DiscardTile(s, s.active, t)), t, q) && (s.isHaitei ==> c.Ron?)
  }

  /** A discard moves its tile from the hand to the end of the pile. If anybody may call it, a window opens in which every
      seat but the discarder is offered exactly its calls; if not, the hand is drawn under haitei and otherwise the turn
      passes to the right. */
  lemma DiscardDoes(r: Rules, s: State, t: TileId)
    requires RulesOk(r) && Inv(s) && Offered(r, s, OnTurn(s.active, Discard(t)))
    ensures var s' := After(r, s, OnTurn(s.active, Discard(t)));
            var p, p' := s.players[s.active], s'.players[s.active];
            && p'.discards == p.discards + [t] && p'.openMelds == p.openMelds
            && multiset(p.closedHand) == multiset(p'.closedHand) + multiset{t}
            && (if exists q: Seat, c :: MayCall(r, s, t, q, c) then
                  && s'.phase == WaitDiscards && s'.active == s.active && s'.activeDiscard == Some(t) && s'.queue == map[]
                  && s'.players[s.active].offer == NoOffer && p'.drawn.None?
                  && s'.events == s.events + [PublicEvent(DiscardEvent, s.active, FaceCode(t), -1, p.drawn == Some(t), false)]
                  && forall q: Seat | q != s.active ::
                       s'.players[q].offer.ClaimOffer? && forall c :: c in s'.players[q].offer.claims <==> MayCall(r, s, t, q, c)
                else if s.isHaitei then s'.phase == RoundEnd && s'.result == Some(Exhausted)
                else ToTheRight(s'.active, s.active) && s'.phase != WaitDiscards && s'.activeDiscard.None?)
  {
    hide RulesOk, CoreInv, TurnInv, Distinct, NextTurn, TableOf, DiscardTile, ClaimOfferFor, OfferClaims;
    OfferedIsDefined(r, s, OnTurn(s.active, Discard(t)));
    var s1 := DiscardTile(s, s.active, t);
    var s2 := OfferClaims(r, s1, t, s.active);
    DiscardMoves(s, t);
    ClaimsOffered(r, s, t);
    NextTurnPasses(s2);
    NextTurnKeepsHand(s2, s.active);
    ExpectedIsAnyone(s2);
    if exists q: Seat, c :: MayCall(r, s, t, q, c) {
      var q: Seat, c :| MayCall(r, s, t, q, c);
      assert c in s2.players[q].offer.claims;
    } else {
      forall q: Seat ensures !MustAnswer(s2.players[q].offer) {
        assert q != s.active ==> forall c :: c in s2.players[q].offer.claims <==> MayCall(r, s, t, q, c);
        EmptyMenu(s2.players[q].offer);
      }
    }
  }

  lemma DiscardMoves(s: State, t: TileId)
    requires t in s.players[s.active].closedHand
    ensures var s1 := DiscardTile(s, s.active, t);
            var p, p1 := s.players[s.active], s1.players[s.active];
            && p1.discards == p.discards + [t] && p1.openMelds == p.openMelds && s1.activeDiscard == Some(t) && p1.drawn.None?
            && s1.events == s.events + [PublicEvent(DiscardEvent, s.active, FaceCode(t), -1, p.drawn == Some(t), false)]
            && multiset(p.closedHand) == multiset(p1.closedHand) + multiset{t}
            && s1.w == s.w && s1.isHaitei == s.isHaitei && s1.active == s.active && s1.phase == s.phase
  {
    hide FaceCode;
  }

  lemma ClaimsOffered(r: Rules, s: State, t: TileId)
    requires t in s.players[s.active].closedHand
    ensures var s1 := DiscardTile(s, s.active, t);
            var s2 := OfferClaims(r, s1, t, s.active);
            && s2 == s1.(players := s2.players)
            && (forall q: Seat :: s2.players[q] == s1.players[q].(offer := s2.players[q].offer))
            && s2.players[s.active].offer == NoOffer
            && forall q: Seat | q != s.active ::
                 s2.players[q].offer.ClaimOffer? && forall c :: c in s2.players[q].offer.claims <==> MayCall(r, s, t, q, c)
  {
    hide TableOf, DiscardTile;
    DiscardMoves(s, t);
  }

  lemma EmptyMenu(offer: Offer)
    ensures offer.ClaimOffer? && (forall c :: c !in offer.claims) ==> !MustAnswer(offer)
  {
    if offer.ClaimOffer? && offer.claims != [] {
      assert offer.claims[0] in offer.claims;
    }
  }

  lemma ExpectedIsAnyone(s: State)
    ensures Expected(s) > 0 <==> exists q: Seat :: MustAnswer(s.players[q].offer)
  {
    hide MustAnswer;
    if exists q: Seat :: MustAnswer(s.players[q].offer) {
      var q: Seat :| MustAnswer(s.players[q].offer);
      assert q == 0 || q == 1 || q == 2 || q == 3;
    }
  }

  lemma NextTurnKeepsHand(s: State, q: Seat)
    requires s.w.wallIndex <= s.w.boundary <= |s.w.tiles|
    ensures q != Next(s.active) ==> NextTurn(s).players[q].closedHand == s.players[q].closedHand
  {
    hide SystemDraw;
  }

  // ---- Calls ----

  /** Seat q takes the open discard with its answer: a new meld of the answer's kind, with the discard last and marked as
      called, pointing q's way to the discarder; the discard leaves its pile, no other meld or pile changes, and q is to act. */
  ghost predicate Took(s: State, s': State, q: Seat, tiles: seq<TileId>, kind: MeldKind) {
    && s.activeDiscard.Some? && s.players[s.active].discards != []
    && s'.active == q && s'.activeDiscard.None? && s'.phase != WaitDiscards
    && (exists way: nat :: way < 4 && (q + way) % 4 == s.active
          && s'.players[q].openMelds
             == s.players[q].openMelds + [Meld(kind, tiles + [s.activeDiscard.value], way, s.activeDiscard, None)])
    && (forall p: Seat | p != q :: s'.players[p].openMelds == s.players[p].openMelds)
    && (forall p: Seat | p != s.active :: s'.players[p].discards == s.players[p].discards)
    && s'.players[s.active].discards == s.players[s.active].discards[..|s.players[s.active].discards| - 1]
  }

  lemma DropLastIs(ts: seq<TileId>)
    requires ts != []
    ensures DropLast(ts) == ts[..|ts| - 1]
  {
  }

  lemma TakeDiscardTakes(s: State, q: Seat, c: Claim)
    requires q != s.active && s.players[s.active].discards != [] && s.activeDiscard.Some? && (c.Chii? || c.Pon? || c.Kan?)
    ensures Took(s, TakeDiscard(s, q, c).(phase := PlayerTurn), q, c.tiles, if c.Chii? then ChiiMeld else if c.Pon? then PonMeld else KanMeld)
  {
    hide TakeDiscard, LayClaim;
    DropLastIs(s.players[s.active].discards);
    TakeDiscardIs(s, q, c);
    ClaimLays(s, q, c);
    var way: nat := (s.active + 4 - q) % 4;
    assert way < 4 && (q + way) % 4 == s.active;
  }

  lemma ClaimLays(s: State, q: Seat, c: Claim)
    requires s.activeDiscard.Some? && (c.Chii? || c.Pon? || c.Kan?)
    ensures var s1 := LayClaim(s, q, c);
            && s1.players[q].discards == s.players[q].discards && s1.phase == s.phase
            && s1.players[q].openMelds == s.players[q].openMelds
               + [Meld(if c.Chii? then ChiiMeld else if c.Pon? then PonMeld else KanMeld,
                       c.tiles + [s.activeDiscard.value], (s.active + 4 - q) % 4, s.activeDiscard, None)]
            && forall p: Seat | p != q :: s1.players[p] == s.players[p]
  {
    hide RemovePresent, FaceCode;
  }

  lemma TakeDiscardIs(s: State, q: Seat, c: Claim)
    requires q != s.active && s.activeDiscard.Some? && (c.Chii? || c.Pon? || c.Kan?)
    ensures var s1, s' := LayClaim(s, q, c), TakeDiscard(s, q, c);
            && s'.active == q && s'.activeDiscard.None?
            && s'.players[s.active] == s1.players[s.active].(discards := DropLast(s1.players[s.active].discards))
            && forall p: Seat | p != s.active :: s'.players[p] == s1.players[p]
  {
    hide RemovePresent, FaceCode, DropLast;
  }

  lemma MeldTakes(s: State, q: Seat, c: Claim)
    requires q != s.active && s.players[s.active].discards != [] && s.activeDiscard.Some? && (c.Chii? || c.Pon? || c.Kan?)
    requires ApplyMeld(s, q, c).phase != WaitDiscards
    ensures Took(s, ApplyMeld(s, q, c), q, c.tiles, if c.Chii? then ChiiMeld else if c.Pon? then PonMeld else KanMeld)
  {
    hide TakeDiscard, DeadWallDraw, AutoReveal;
    TakeDiscardTakes(s, q, c);
    var s1 := TakeDiscard(s, q, c);
    DeadWallDrawKeepsTable(s1, q);
    AutoRevealKeepsTable(s1.(phase := PlayerTurn), q);
  }

  /** Ron beats kan, kan beats pon, pon beats chii, and all of them beat a pass. */
  predicate Beats(a: Claim, b: Claim) {
    match a
    case Ron => !b.Ron?
    case Kan(_) => b.Pon? || b.Chii? || b.Pass?
    case Pon(_) => b.Chii? || b.Pass?
    case Chii(_) => b.Pass?
    case Pass => false
  }

  /** The seat whose answer nobody beats, the lowest of those with an equal one. */
  predicate Leads(answers: map<Seat, Claim>, q: Seat) {
    && q in answers && answers[q] != Pass
    && (forall p: Seat | p in answers :: !Beats(answers[p], answers[q]))
    && (forall p: Seat | p in answers && p < q :: Beats(answers[q], answers[p]))
  }

  lemma BeatsIsHeavier(a: Claim, b: Claim)
    ensures Beats(a, b) <==> Weight(a) > Weight(b)
  {
  }

  lemma LeaderIsBest(answers: map<Seat, Claim>, q: Seat)
    requires Leads(answers, q)
    ensures BestBid(answers, 4) == Some(q)
  {
    hide BestBid, Beats, Weight;
    var best := BestBid(answers, 4);
    WeighsSomething(answers[q]);
    assert BidWeight(answers, q) > 0;
    if best.Some? {
      BeatsIsHeavier(answers[q], answers[best.value]);
      BeatsIsHeavier(answers[best.value], answers[q]);
    }
  }

  lemma WeighsSomething(c: Claim)
    ensures Weight(c) > 0 <==> c != Pass
  {
  }

  lemma BestLeads(answers: map<Seat, Claim>)
    ensures var best := BestBid(answers, 4);
            if best.Some? then Leads(answers, best.value) else forall q | q in answers :: answers[q] == Pass
  {
    hide BestBid, Beats, Weight;
    var best := BestBid(answers, 4);
    forall q: Seat | q in answers
      ensures if best.Some? then !Beats(answers[q], answers[best.value]) && (q < best.value ==> Beats(answers[best.value], answers[q]))
              else answers[q] == Pass
    {
      WeighsSomething(answers[q]);
      assert BidWeight(answers, q) == Weight(answers[q]);
      if best.Some? {
        BeatsIsHeavier(answers[q], answers[best.value]);
        BeatsIsHeavier(answers[best.value], answers[q]);
      }
    }
    if best.Some? {
      WeighsSomething(answers[best.value]);
    }
  }

  lemma WindowFacts(r: Rules, s: State, seat: Seat, c: Claim)
    requires Inv(s) && s.phase == WaitDiscards && Offered(r, s, InWindow(seat, c)) && |s.queue| + 1 == Expected(s)
    ensures StepDefined(s, InWindow(seat, c)) && s.activeDiscard.Some? && s.result.None? && s.players[s.active].discards != []
    ensures forall q | q in Answers(s, InWindow(seat, c)) :: q != s.active
    ensures After(r, s, InWindow(seat, c)) == Resolve(r, s.(queue := Answers(s, InWindow(seat, c))))
  {
    hide CoreInv, Distinct, Sized, NoFlowersBut, Resolve;
    OfferedIsDefined(r, s, InWindow(seat, c));
    assert |s.queue[seat := c]| == |s.queue| + 1;
    assert c != Pass ==> OffersType(s.players[seat].offer, c) by {
      assert c in s.players[seat].offer.claims ==> SameType(c, c);
    }
  }

  /** What the leader of a closed window gets. */
  ghost predicate LeaderGets(r: Rules, s: State, s': State, q: Seat, c: Claim) {
    match c
    case Ron =>
      if r.wins(TableOf(s), q, s.activeDiscard) then
        s.activeDiscard.Some? && s'.phase == RoundEnd && s'.result == Some(RonWin(q, s.active, s.activeDiscard.value))
      else TurnPassed(s, s')
    case Kan(tiles) => Took(s, s', q, tiles, KanMeld)
    case Pon(tiles) => Took(s, s', q, tiles, PonMeld)
    case Chii(tiles) => Took(s, s', q, tiles, ChiiMeld)
    case Pass => false
  }

  lemma ResolveGives(r: Rules, s: State, answers: map<Seat, Claim>)
    requires s.activeDiscard.Some? && s.w.wallIndex <= s.w.boundary <= |s.w.tiles| && s.players[s.active].discards != []
    requires forall q | q in answers :: q != s.active
    requires Resolve(r, s.(queue := answers)).phase != WaitDiscards
    ensures var best := BestBid(answers, 4);
            var s' := Resolve(r, s.(queue := answers));
            if best.Some? then LeaderGets(r, s, s', best.value, answers[best.value]) else TurnPassed(s, s')
  {
    hide NextTurn, ApplyMeld, BestBid, Took, DropLast;
    var s1 := s.(queue := answers);
    assert TableOf(s1) == TableOf(s);
    hide TableOf;
    NextTurnPasses(s1);
    var best := BestBid(answers, 4);
    if best.Some? && !answers[best.value].Ron? {
      MeldTakes(s1, best.value, answers[best.value]);
      QueueDoesNotMatter(s, s1, ApplyMeld(s1, best.value, answers[best.value]), best.value, answers[best.value].tiles);
    }
  }

  lemma QueueDoesNotMatter(s: State, s1: State, s2: State, q: Seat, tiles: seq<TileId>)
    requires s1 == s.(queue := s1.queue)
    ensures forall kind :: Took(s1, s2, q, tiles, kind) ==> Took(s, s2.(queue := map[]), q, tiles, kind)
  {
  }

  /** The answer that closes a window. Somebody leads unless all passed, and then the turn passes. A leading ron that wins ends
      the hand, one that does not lets the turn pass, and any other leader takes the discard. */
  lemma ClaimsAreRanked(r: Rules, s: State, seat: Seat, c: Claim)
    requires Inv(s) && s.phase == WaitDiscards && Offered(r, s, InWindow(seat, c)) && |s.queue| + 1 == Expected(s)
    ensures var answers, s' := Answers(s, InWindow(seat, c)), After(r, s, InWindow(seat, c));
            && (forall q: Seat | Leads(answers, q) :: LeaderGets(r, s, s', q, answers[q]))
            && ((forall q: Seat :: !Leads(answers, q)) <==> forall q | q in answers :: answers[q] == Pass)
            && ((forall q | q in answers :: answers[q] == Pass) ==> TurnPassed(s, s'))
  {
    var answers := Answers(s, InWindow(seat, c));
    WindowFacts(r, s, seat, c);
    hide Inv, Step, StepDefined, Offered, LeaderGets, TurnPassed, Beats;
    ResolveLeavesTheWindow(r, s.(queue := answers));
    ResolveGives(r, s, answers);
    BestLeads(answers);
    forall q: Seat | Leads(answers, q) ensures BestBid(answers, 4) == Some(q) {
      LeaderIsBest(answers, q);
    }
    hide Resolve, BestBid;
  }

  /** A chii or pon is paid from the caller's hand, which then holds no drawn tile; the caller must discard. */
  lemma ChiiAndPonArePaid(s: State, q: Seat, c: Claim)
    requires s.activeDiscard.Some? && (c.Chii? || c.Pon?) && q != s.active && NoFlowersBut(s, {})
    requires multiset(c.tiles) <= multiset(s.players[q].closedHand)
    ensures var p, p' := s.players[q], ApplyMeld(s, q, c).players[q];
            multiset(p.closedHand) == multiset(p'.closedHand) + multiset(c.tiles) && p'.drawn.None? && p'.offer == TurnOffer
  {
    hide NoFlowersBut, FaceCode, DropLast, RemovePresent, FirstRevealable, Revealable;
    var s1 := TakeDiscard(s, q, c).(phase := PlayerTurn);
    RemovePresentFits(s.players[q].closedHand, c.tiles);
    forall t | t in s1.players[q].closedHand ensures !Revealable(s1, t) {
      StillNoFlower(s, s1, q, t);
    }
    assert FlowerOf(s1, q).None?;
  }

  lemma StillNoFlower(s: State, s1: State, q: Seat, t: TileId)
    requires NoFlowersBut(s, {}) && s1.wild == s.wild && t in s.players[q].closedHand
    ensures !Revealable(s1, t)
  {
    assert !Revealable(s, t);
  }

  // ---- Kans on one's own turn ----

  /** Four tiles make a closed meld of their own; one turns the first pon of its face into a kan. */
  ghost predicate KanLaid(melds: seq<Meld>, melds': seq<Meld>, tiles: seq<TileId>) {
    && (|tiles| == 4 ==> melds' == melds + [Meld(KanMeld, tiles, 0, None, None)])
    && (|tiles| == 1 ==>
          exists i | 0 <= i < |melds| ::
            && IsPonOf(melds[i], tiles[0]) && (forall j | 0 <= j < i :: !IsPonOf(melds[j], tiles[0]))
            && melds' == melds[i := melds[i].(kind := KanMeld, tiles := melds[i].tiles + tiles, added := Some(tiles[0]))])
  }

  /** An offered kan of four lies down as a closed meld of its own; an offered single tile turns the first pon of its face into
      a kan, on top of what was called. No other meld changes and no pile. */
  lemma SelfKanDoes(r: Rules, s: State, tiles: seq<TileId>)
    requires Inv(s) && Offered(r, s, OnTurn(s.active, SelfKan(tiles)))
    ensures var s' := After(r, s, OnTurn(s.active, SelfKan(tiles)));
            var melds, melds' := s.players[s.active].openMelds, s'.players[s.active].openMelds;
            && (forall q: Seat :: s'.players[q].discards == s.players[q].discards)
            && (forall q: Seat | q != s.active :: s'.players[q].openMelds == s.players[q].openMelds)
            && s'.active == s.active
            && KanLaid(melds, melds', tiles)
  {
    KanIsOffered(r, s, tiles);
    KanStands(s, tiles);
    hide Inv, Offered, MeldsNonempty, HandleKongOrFlower, KanLaid, KanOffered;
  }

  lemma KanStands(s: State, tiles: seq<TileId>)
    requires Inv(s) && MeldsNonempty(s) && tiles != [] && KanOffered(s.players[s.active], tiles)
    requires multiset(tiles) <= multiset(s.players[s.active].closedHand)
    ensures var s' := HandleKongOrFlower(s, s.active, tiles, true).0;
            && (forall q: Seat :: s'.players[q].discards == s.players[q].discards)
            && (forall q: Seat | q != s.active :: s'.players[q].openMelds == s.players[q].openMelds)
            && s'.active == s.active && KanLaid(s.players[s.active].openMelds, s'.players[s.active].openMelds, tiles)
  {
    PonIsThere(s, tiles);
    hide Inv, DeadWallDraw, DeclareKan, MatchingPon, MeldsNonempty, HandleKongOrFlower, KanLaid, KanOffered, RemoveEach, IsPonOf, ResumeTurn;
    var rest := RemoveEach(s.players[s.active].closedHand, tiles).0;
    var s1 := DeclareKan(s, s.active, tiles, rest);
    KanHandled(s, s.active, tiles);
    DeclareKanDoes(s, s.active, tiles, rest);
    DeadWallDrawKeepsTable(s1, s.active);
    ResumingKeepsTable(DeadWallDraw(s1, s.active));
    KanIsLaid(s.players[s.active].openMelds, s1.players[s.active].openMelds, tiles, MatchingPon(s.players[s.active].openMelds, FaceOf(tiles[0])));
  }

  lemma ResumingKeepsTable(s: State)
    ensures TableKept(s, ResumeTurn(s))
  {
  }

  lemma KanIsLaid(melds: seq<Meld>, melds': seq<Meld>, tiles: seq<TileId>, i: nat)
    requires tiles != [] && i <= |melds| && (|tiles| == 1 ==> i < |melds| && IsPonOf(melds[i], tiles[0])) && (|tiles| == 4 ==> i == |melds|)
    requires forall j | 0 <= j < i :: !IsPonOf(melds[j], tiles[0])
    requires if i < |melds| then melds' == melds[i := melds[i].(kind := KanMeld, tiles := melds[i].tiles + tiles, added := Some(tiles[0]))]
             else melds' == melds + [Meld(KanMeld, tiles, 0, None, None)]
    ensures KanLaid(melds, melds', tiles)
  {
  }

  lemma KanIsOffered(r: Rules, s: State, tiles: seq<TileId>)
    requires Inv(s) && Offered(r, s, OnTurn(s.active, SelfKan(tiles)))
    ensures StepDefined(s, OnTurn(s.active, SelfKan(tiles))) && MeldsNonempty(s) && s.phase == PlayerTurn
    ensures tiles != [] && multiset(tiles) <= multiset(s.players[s.active].closedHand) && KanOffered(s.players[s.active], tiles)
  {
    hide CoreInv, Distinct, NoFlowersBut, Sized, MeldsNonempty;
    OfferedIsDefined(r, s, OnTurn(s.active, SelfKan(tiles)));
  }

  lemma KanHandled(s: State, seat: Seat, tiles: seq<TileId>)
    requires tiles != [] && MeldsNonempty(s) && multiset(tiles) <= multiset(s.players[seat].closedHand)
    ensures var s1 := DeclareKan(s, seat, tiles, RemoveEach(s.players[seat].closedHand, tiles).0);
            HandleKongOrFlower(s, seat, tiles, true).0 == ResumeTurn(DeadWallDraw(s1, seat))
  {
    hide DeadWallDraw, DeclareKan, MeldsNonempty;
  }

  predicate IsPonOf(m: Meld, t: TileId) {
    m.kind == PonMeld && m.tiles != [] && FaceOf(m.tiles[0]) == FaceOf(t)
  }

  lemma PonIsThere(s: State, tiles: seq<TileId>)
    requires Inv(s) && KanOffered(s.players[s.active], tiles) && MeldsNonempty(s)
    ensures var melds := s.players[s.active].openMelds;
            var i := MatchingPon(melds, FaceOf(tiles[0]));
            && (|tiles| == 1 ==> i < |melds| && IsPonOf(melds[i], tiles[0])) && (|tiles| == 4 ==> i == |melds|)
            && (forall j | 0 <= j < i :: !IsPonOf(melds[j], tiles[0]))
  {
    hide CoreInv, TurnInv, WindowOpen, Distinct, MatchingPon;
    var melds := s.players[s.active].openMelds;
    var i := MatchingPon(melds, FaceOf(tiles[0]));
    if |tiles| == 4 && i < |melds| {
      assert CoreInv(s) && Distinct(s.w.tiles);
      ClosedKanHasNoPon(s, s.active, tiles, i);
    }
  }

  lemma DeclareKanDoes(s: State, seat: Seat, tiles: seq<TileId>, rest: seq<TileId>)
    requires tiles != [] && MeldsNonempty(s)
    ensures var s' := DeclareKan(s, seat, tiles, rest);
            var melds, melds' := s.players[seat].openMelds, s'.players[seat].openMelds;
            var i := MatchingPon(melds, FaceOf(tiles[0]));
            && s'.active == s.active
            && (forall q: Seat :: s'.players[q].discards == s.players[q].discards)
            && (forall q: Seat | q != seat :: s'.players[q].openMelds == s.players[q].openMelds)
            && (if i < |melds| then melds' == melds[i := melds[i].(kind := KanMeld, tiles := melds[i].tiles + tiles, added := Some(tiles[0]))]
                else melds' == melds + [Meld(KanMeld, tiles, 0, None, None)])
  {
    hide FaceCode, MatchingPon;
  }

  // ---- Haitei ----

  /** Taking haitei adds the tile under the indicator to the hand, logged as haitei; refusing it draws the hand. */
  lemma HaiteiDoes(r: Rules, s: State)
    requires RulesOk(r) && Inv(s) && s.phase == PlayerTurn && s.players[s.active].offer == HaiteiOffer
    ensures var t := s.w.tiles[s.w.indicator + 1];
            var s' := After(r, s, OnTurn(s.active, AcceptHaitei));
            !Revealable(s, t) ==>
              && s'.players[s.active].closedHand == s.players[s.active].closedHand + [t] && s'.players[s.active].drawn == Some(t)
              && s'.players[s.active].offer == TurnOffer && s'.isHaitei && s'.w.haiteiDraw == s.w.indicator + 1
              && s'.events == s.events + [PublicEvent(DrawEvent, s.active, FaceCode(t), -1, false, true)]
    ensures var s' := After(r, s, OnTurn(s.active, RefuseHaitei));
            && s'.phase == RoundEnd && s'.result == Some(Exhausted) && !s'.isHaitei
            && forall q: Seat :: s'.players[q].closedHand == s.players[q].closedHand
  {
    HaiteiIsOpen(s);
    hide Inv, RulesOk, HaiteiAccept, HaiteiRefuse, Revealable, FaceCode;
    OfferedIsDefined(r, s, OnTurn(s.active, AcceptHaitei));
    OfferedIsDefined(r, s, OnTurn(s.active, RefuseHaitei));
    HaiteiRefused(s);
    if !Revealable(s, s.w.tiles[s.w.indicator + 1]) {
      HaiteiTaken(s);
    }
  }

  lemma HaiteiIsOpen(s: State)
    requires Inv(s) && s.phase == PlayerTurn && s.players[s.active].offer == HaiteiOffer
    ensures s.isHaitei && FindHaitei(s.w).Some? && NoFlowersBut(s, {})
  {
    hide CoreInv, Distinct, Sized, NoFlowersBut;
  }

  lemma HaiteiTaken(s: State)
    requires s.isHaitei && FindHaitei(s.w).Some? && NoFlowersBut(s, {}) && !Revealable(s, s.w.tiles[s.w.indicator + 1])
    ensures var t, s' := s.w.tiles[s.w.indicator + 1], HaiteiAccept(s, s.active).0;
            && s'.players[s.active].closedHand == s.players[s.active].closedHand + [t] && s'.players[s.active].drawn == Some(t)
            && s'.players[s.active].offer == TurnOffer && s'.isHaitei && s'.w.haiteiDraw == s.w.indicator + 1
            && s'.events == s.events + [PublicEvent(DrawEvent, s.active, FaceCode(t), -1, false, true)]
  {
    hide NoFlowersBut, WangpaiUndrawn, FirstRevealable, IsFlower, FaceCode, Consumed;
    NothingToReveal(s, s.active, s.w.tiles[s.w.indicator + 1]);
  }

  lemma HaiteiRefused(s: State)
    ensures var s' := HaiteiRefuse(s);
            && s'.phase == RoundEnd && s'.result == Some(Exhausted) && !s'.isHaitei
            && forall q: Seat :: s'.players[q].closedHand == s.players[q].closedHand
  {
  }

  // ---- What the engine accepts ----

  predicate SameCall(a: Claim, b: Claim) {
    (a.Pass? && b.Pass?) || (a.Ron? && b.Ron?) || (a.Chii? && b.Chii?) || (a.Pon? && b.Pon?) || (a.Kan? && b.Kan?)
  }

  /** A message is accepted exactly when it comes at its time from its seat and passes the one check made on it. */
  ghost predicate IsAccepted(r: Rules, s: State, input: Input) {
    match input
    case OnTurn(seat, action) =>
      && s.phase == PlayerTurn && seat == s.active
      && (match action
          case AcceptHaitei => s.w.indicator + 1 < |s.w.tiles| && !Consumed(|s.w.tiles|, s.w.deadWallIndex, s.w.indicator + 1)
          case RefuseHaitei => true
          case Discard(t) => t in s.players[seat].closedHand
          case SelfKan(tiles) => multiset(tiles) <= multiset(s.players[seat].closedHand)
          case FlowerReveal(tiles) => multiset(tiles) <= multiset(s.players[seat].closedHand)
          case Tsumo => r.wins(TableOf(s), seat, None))
    case InWindow(seat, c) =>
      && s.phase == WaitDiscards && seat != s.active
      && (c.Pass? || (s.players[seat].offer.ClaimOffer? && exists o | o in s.players[seat].offer.claims :: SameCall(o, c)))
  }

  /** Offered or not: what is accepted, and that a refusal changes nothing unless it is of a declared kan or flower. */
  lemma AcceptsExactly(r: Rules, s: State, input: Input)
    requires StepDefined(s, input)
    ensures Step(r, s, input).1 <==> IsAccepted(r, s, input)
    ensures !Step(r, s, input).1 && !(input.OnTurn? && (input.action.SelfKan? || input.action.FlowerReveal?)) ==> Step(r, s, input).0 == s
  {
    hide AutoReveal, SystemDraw, DeadWallDraw, Resolve, MeldsNonempty, TableOf, Expected, DeclareKan, LayFlowers, Consumed, NextTurn, OfferClaims, DiscardTile;
    if input.InWindow? {
      forall o: Claim ensures SameType(o, input.claim) <==> SameCall(o, input.claim) {
      }
    }
  }
}
