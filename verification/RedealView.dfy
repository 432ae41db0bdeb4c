/** A re-deal keeps the acting seat's view, moves only unseen tiles, and offers claims that fit. */
module RedealView {
  import opened Tiles
  import opened Wall
  import opened Hand
  import opened HandInvariant
  import opened HandSteps
  import opened HandRuns
  import opened Redeal
  import opened Events

  // ---- Tiles ----

  lemma {:induction false} SlotsHold(w: WallState, i: nat)
    requires i <= |w.tiles|
    ensures TilesAt(w.tiles, Undrawn(w), i) == multiset(TilesOf(w.tiles, UndrawnFrom(w, i)))
    decreases |w.tiles| - i
  {
    hide Undrawn;
    if i < |w.tiles| {
      SlotsHold(w, i + 1);
      if i in Undrawn(w) {
        TilesOfCons(w.tiles, i, UndrawnFrom(w, i + 1));
      } else {
        assert UndrawnFrom(w, i) == UndrawnFrom(w, i + 1);
      }
    }
  }

  lemma TilesOfCons(tiles: seq<TileId>, i: nat, slots: seq<nat>)
    requires i < |tiles| && SlotsBetween(slots, i + 1, |tiles|)
    ensures multiset(TilesOf(tiles, [i] + slots)) == multiset{tiles[i]} + multiset(TilesOf(tiles, slots))
  {
    assert TilesOf(tiles, [i] + slots) == [tiles[i]] + TilesOf(tiles, slots);
  }

  lemma DealtHand(s: State, acting: Seat, pool: seq<TileId>, q: Seat)
    requires |pool| == |Pool(s, acting)|
    ensures OppHand(DealBack(s, acting, pool), acting, q) == pool[Offset(s, acting, q)..Offset(s, acting, q + 1)]
  {
    hide Pool, PutTiles, DrawnPos;
    assert q == 0 || q == 1 || q == 2 || q == 3;
  }

  lemma DealtWall(s: State, acting: Seat, pool: seq<TileId>)
    requires |pool| == |Pool(s, acting)|
    ensures var w' := DealBack(s, acting, pool).w;
            WallSlots(w') == WallSlots(s.w) && TilesOf(w'.tiles, WallSlots(w')) == pool[Offset(s, acting, 4)..]
  {
    hide Undrawn, NewPlayer, Offset;
    SlotsSame(s.w, DealBack(s, acting, pool).w.tiles, 0);
  }

  /** After dealing back, the pool read off the new state is the pool that was dealt. */
  lemma DealtPoolIsThere(s: State, acting: Seat, pool: seq<TileId>)
    requires |pool| == |Pool(s, acting)|
    ensures Pool(DealBack(s, acting, pool), acting) == pool
  {
    hide DealBack, OppHand, TilesOf, WallSlots;
    DealtHand(s, acting, pool, 0);
    DealtHand(s, acting, pool, 1);
    DealtHand(s, acting, pool, 2);
    DealtHand(s, acting, pool, 3);
    DealtWall(s, acting, pool);
    FourCuts(pool, Offset(s, acting, 1), Offset(s, acting, 2), Offset(s, acting, 3), Offset(s, acting, 4));
  }

  lemma FourCuts(pool: seq<TileId>, a: nat, b: nat, c: nat, d: nat)
    requires a <= b <= c <= d <= |pool|
    ensures pool[0..a] + pool[a..b] + pool[b..c] + pool[c..d] + pool[d..] == pool
  {
  }

  /** What the opponents' other tiles come to: melds, piles and flowers, and everything the acting seat holds. */
  ghost function Fixed(s: State, acting: Seat, q: Seat): multiset<TileId> {
    var p := s.players[q];
    (if q == acting then multiset(p.closedHand) else multiset{})
    + MeldTiles(p.openMelds) + multiset(p.discards) + multiset(p.flowerMelds)
  }

  lemma PlayerIsFixedPlusHand(s: State, acting: Seat, q: Seat)
    ensures PlayerTiles(s.players[q]) == Fixed(s, acting, q) + multiset(OppHand(s, acting, q))
  {
  }

  lemma TotalIsFixedPlusPool(s: State, acting: Seat)
    requires WallLaid(s.w) && s.w.indicator < |s.w.tiles|
    ensures Total(s.players, s.result, s.w)
         == (Fixed(s, acting, 0) + Fixed(s, acting, 1) + Fixed(s, acting, 2) + Fixed(s, acting, 3)
             + WonTile(s.result) + multiset{s.w.tiles[s.w.indicator]}) + multiset(Pool(s, acting))
  {
    hide Undrawn, WonTile, PlayerTiles, Fixed, OppHand, TilesOf, WallSlots, WallLaid;
    PlayerIsFixedPlusHand(s, acting, 0);
    PlayerIsFixedPlusHand(s, acting, 1);
    PlayerIsFixedPlusHand(s, acting, 2);
    PlayerIsFixedPlusHand(s, acting, 3);
    HiddenIsPooled(s.w);
    var h0, h1, h2, h3 := multiset(OppHand(s, acting, 0)), multiset(OppHand(s, acting, 1)), multiset(OppHand(s, acting, 2)), multiset(OppHand(s, acting, 3));
    var wall := multiset(TilesOf(s.w.tiles, WallSlots(s.w)));
    assert multiset(Pool(s, acting)) == h0 + h1 + h2 + h3 + wall;
    Gather(Fixed(s, acting, 0), Fixed(s, acting, 1), Fixed(s, acting, 2), Fixed(s, acting, 3), h0, h1, h2, h3, WonTile(s.result), wall,
           multiset{s.w.tiles[s.w.indicator]});
  }

  lemma HiddenIsPooled(w: WallState)
    requires WallLaid(w)
    ensures Hidden(w) == multiset(TilesOf(w.tiles, WallSlots(w))) + multiset{w.tiles[w.indicator]}
  {
    SlotsHold(w, 0);
  }

  lemma Gather(f0: multiset<TileId>, f1: multiset<TileId>, f2: multiset<TileId>, f3: multiset<TileId>,
               h0: multiset<TileId>, h1: multiset<TileId>, h2: multiset<TileId>, h3: multiset<TileId>,
               won: multiset<TileId>, wall: multiset<TileId>, top: multiset<TileId>)
    ensures ((f0 + h0) + (f1 + h1) + (f2 + h2) + (f3 + h3)) + won + (wall + top)
         == (f0 + f1 + f2 + f3 + won + top) + (h0 + h1 + h2 + h3 + wall)
  {
  }

  // ---- What a re-deal keeps ----

  /** Another seat keeps what is public, the size of its hand, and a drawn tile that is in that hand. */
  predicate RivalKept(p: Player, p': Player) {
    && |p'.closedHand| == |p.closedHand| && p'.openMelds == p.openMelds
    && p'.discards == p.discards && p'.flowerMelds == p.flowerMelds
    && DrawnStays(p, p')
  }

  /** The drawn mark stays at its place in the hand. */
  predicate DrawnStays(p: Player, p': Player)
    requires |p'.closedHand| == |p.closedHand|
  {
    && (p.drawn.Some? && p.drawn.value in p.closedHand ==>
          exists k | 0 <= k < |p.closedHand| :: p.closedHand[k] == p.drawn.value && p'.drawn == Some(p'.closedHand[k]))
    && (p.drawn.None? ==> p'.drawn.None?)
  }

  lemma DrawnMoves(p: Player, p': Player)
    requires |p'.closedHand| == |p.closedHand|
    requires var pos := DrawnPos(p.closedHand, p.drawn); p'.drawn == if pos.Some? then Some(p'.closedHand[pos.value]) else p.drawn
    ensures DrawnStays(p, p')
  {
    DrawnIsFound(p.closedHand, p.drawn);
    hide DrawnPos;
  }

  /** Everything the acting seat sees is as it was; only opponents' hands and undrawn positions have new tiles. */
  ghost predicate ViewKept(s: State, s': State, acting: Seat) {
    && (forall q: Seat :: if q == acting then s'.players[q] == s.players[q] else RivalKept(s.players[q], s'.players[q]))
    && |s'.w.tiles| == |s.w.tiles| && s'.w == s.w.(tiles := s'.w.tiles)
    && (forall i | 0 <= i < |s.w.tiles| && i !in Undrawn(s.w) :: s'.w.tiles[i] == s.w.tiles[i])
    && s'.wallCount == s.wallCount && s'.wangpaiLeft == s.wangpaiLeft && s'.wild == s.wild && s'.phase == s.phase
    && s'.active == s.active && s'.isHaitei == s.isHaitei && s'.activeDiscard == s.activeDiscard && s'.result == s.result
    && s'.queue == map[]
    && (forall window: nat :: History(s'.events, acting, window) == History(s.events, acting, window))
  }

  /** A seat's menu in an open window: what the rules let it call with its present hand, under haitei only ron. */
  ghost predicate MenuIsExact(r: Rules, s: State, q: Seat) {
    && s.activeDiscard.Some? && s.players[q].offer.ClaimOffer?
    && forall c :: c in s.players[q].offer.claims <==>
                   c in r.interrupts(TableOf(s), s.activeDiscard.value, q) && (s.isHaitei ==> c.Ron?)
  }

  /** The menus after a re-deal: in an open window exactly the claims of the new hands, all of which they can pay, for every
      seat but the discarder; nothing for anyone else. */
  ghost predicate MenusFresh(r: Rules, s': State, acting: Seat) {
    forall q: Seat | q != acting ::
      if WindowIsOpen(s') && q != s'.active
      then MenuIsExact(r, s', q) && forall c | c in s'.players[q].offer.claims :: ClaimFits(s'.players[q].closedHand, c)
      else s'.players[q].offer == NoOffer
  }

  /** No draw of another seat is left with its face in the log. */
  ghost predicate DrawsErased(events: seq<PublicEvent>, acting: Seat) {
    forall e | e in events && e.kind == DrawEvent && e.seat != acting :: e.face == -1
  }

  lemma MaskedHistorySame(events: seq<PublicEvent>, acting: Seat, window: nat)
    ensures History(MaskEvents(events, acting), acting, window) == History(events, acting, window)
  {
    forall i | 0 <= i < |events| ensures PackEvent(MaskEvents(events, acting)[i], acting) == PackEvent(events[i], acting) {
    }
  }

  lemma DealtViewKept(s: State, acting: Seat, pool: seq<TileId>, q: Seat, offer: Offer)
    requires |pool| == |Pool(s, acting)|
    ensures var p, p' := s.players[q], DealBack(s, acting, pool).players[q].(offer := offer);
            if q == acting then p' == p.(offer := offer) else RivalKept(p, p')
  {
    hide Pool, PutTiles, Offset, NewHand, DrawnPos, DrawnStays, WallSlots;
    var p, p' := s.players[q], DealBack(s, acting, pool).players[q].(offer := offer);
    if q != acting {
      DrawnMoves(p, p');
    }
  }

  lemma DrawnIsFound(hand: seq<TileId>, drawn: Option<TileId>)
    ensures DrawnPos(hand, drawn).Some? <==> drawn.Some? && drawn.value in hand
  {
  }

  lemma FinishFrame(r: Rules, t: State, acting: Seat)
    ensures var t' := Finish(r, t, acting);
            && t' == t.(players := t'.players, events := MaskEvents(t.events, acting))
            && (forall q: Seat :: t'.players[q] == t.players[q].(offer := FreshOffer(r, t, acting, q)))
  {
    hide FreshOffer;
  }

  lemma DealtAndFinishedKeepsView(r: Rules, s: State, acting: Seat, pool: seq<TileId>)
    requires |pool| == |Pool(s, acting)|
    ensures ViewKept(s, Finish(r, DealBack(s, acting, pool), acting), acting)
  {
    hide Undrawn, Pool, DealBack, Finish, FreshOffer, History, RivalKept;
    var t := DealBack(s, acting, pool);
    var s' := Finish(r, t, acting);
    FinishFrame(r, t, acting);
    OwnMenuKept(r, t, acting);
    DealtTableKept(s, acting, pool);
    forall q: Seat
      ensures if q == acting then s'.players[q] == s.players[q] else RivalKept(s.players[q], s'.players[q])
    {
      DealtViewKept(s, acting, pool, q, FreshOffer(r, t, acting, q));
      DealtViewKept(s, acting, pool, q, t.players[q].offer);
      assert s'.players[q] == t.players[q].(offer := FreshOffer(r, t, acting, q));
    }
    forall window: nat ensures History(s'.events, acting, window) == History(s.events, acting, window) {
      MaskedHistorySame(s.events, acting, window);
    }
  }

  lemma DealtTableKept(s: State, acting: Seat, pool: seq<TileId>)
    requires |pool| == |Pool(s, acting)|
    ensures var t := DealBack(s, acting, pool);
            && t == s.(players := t.players, w := t.w, queue := map[])
            && t.players[acting] == s.players[acting]
            && |t.w.tiles| == |s.w.tiles| && t.w == s.w.(tiles := t.w.tiles)
            && (forall i | 0 <= i < |s.w.tiles| && i !in Undrawn(s.w) :: t.w.tiles[i] == s.w.tiles[i])
  {
    hide Undrawn, Pool, Offset;
  }

  lemma OwnMenuKept(r: Rules, t: State, acting: Seat)
    ensures FreshOffer(r, t, acting, acting) == t.players[acting].offer
  {
  }

  lemma FreshMenusFit(r: Rules, t: State, acting: Seat)
    requires RulesOk(r)
    ensures MenusFresh(r, Finish(r, t, acting), acting) && DrawsErased(Finish(r, t, acting).events, acting)
  {
    hide Finish, RulesOk, RonOnly, TableOf;
    var s' := Finish(r, t, acting);
    FinishFrame(r, t, acting);
    TableIgnoresMenus(t, s');
    forall q: Seat | q != acting && WindowIsOpen(t) && q != t.active
      ensures MenuIsExact(r, s', q) && forall c | c in s'.players[q].offer.claims :: ClaimFits(s'.players[q].closedHand, c)
    {
      ClaimsExactly(r, t, q);
      forall c | c in s'.players[q].offer.claims ensures ClaimFits(s'.players[q].closedHand, c) {
        OfferedByRules(r, t, q, c);
      }
    }
    ErasedByMask(t.events, acting);
  }

  lemma TableIgnoresMenus(t: State, s': State)
    requires s' == t.(players := s'.players, events := s'.events)
    requires forall q: Seat :: s'.players[q].(offer := NoOffer) == t.players[q].(offer := NoOffer)
    ensures TableOf(s') == TableOf(t)
  {
  }

  lemma ClaimsExactly(r: Rules, t: State, q: Seat)
    requires t.activeDiscard.Some?
    ensures forall c :: c in ClaimsFor(r, t, t.activeDiscard.value, q) <==>
                        c in r.interrupts(TableOf(t), t.activeDiscard.value, q) && (t.isHaitei ==> c.Ron?)
  {
    hide TableOf;
  }

  lemma ErasedByMask(events: seq<PublicEvent>, acting: Seat)
    ensures DrawsErased(MaskEvents(events, acting), acting)
  {
  }

  lemma OfferedByRules(r: Rules, t: State, q: Seat, c: Claim)
    requires RulesOk(r) && t.activeDiscard.Some? && c in ClaimsFor(r, t, t.activeDiscard.value, q)
    ensures ClaimFits(t.players[q].closedHand, c)
  {
    assert c in r.interrupts(TableOf(t), t.activeDiscard.value, q);
  }

  lemma DealtConserves(r: Rules, s: State, acting: Seat, pool: seq<TileId>)
    requires WallLaid(s.w) && s.w.indicator < |s.w.tiles|
    requires |pool| == |Pool(s, acting)| && multiset(pool) == multiset(Pool(s, acting))
    ensures var s' := Finish(r, DealBack(s, acting, pool), acting);
            WallLaid(s'.w) && Total(s'.players, s'.result, s'.w) == Total(s.players, s.result, s.w)
            && Undrawn(s'.w) == Undrawn(s.w) && WangpaiUndrawn(s'.w) == WangpaiUndrawn(s.w)
  {
    hide Pool, Offset, Finish, NewPlayer, FreshOffer, Fixed, Placed, Total, Hidden;
    var t := DealBack(s, acting, pool);
    var s' := Finish(r, t, acting);
    UndrawnIgnoresTiles(s.w, t.w.tiles);
    FinishFrame(r, t, acting);
    OffersHoldNoTiles(t.players, s'.players);
    assert Total(s'.players, s'.result, s'.w) == Total(t.players, t.result, t.w) by {
      TotalSame(t.players, s'.players, t.result, s'.result, t.w);
    }
    TotalIsFixedPlusPool(s, acting);
    TotalIsFixedPlusPool(t, acting);
    DealtPoolIsThere(s, acting, pool);
    forall q: Seat ensures Fixed(t, acting, q) == Fixed(s, acting, q) {
      DealtFixed(s, acting, pool, q);
    }
  }

  lemma DealtFixed(s: State, acting: Seat, pool: seq<TileId>, q: Seat)
    requires |pool| == |Pool(s, acting)|
    ensures Fixed(DealBack(s, acting, pool), acting, q) == Fixed(s, acting, q)
  {
    hide Pool, Offset, PutTiles, NewHand;
  }

  /** The search variant: the view is kept, menus are fresh, and hands, wall and indicator hold the same tiles together. */
  lemma RedealKeepsView(r: Rules, s: State, acting: Seat, rng: Rng)
    requires RulesOk(r) && WallLaid(s.w)
    ensures var s' := RedealUnseen(r, s, acting, rng);
            && ViewKept(s, s', acting) && MenusFresh(r, s', acting) && DrawsErased(s'.events, acting) && multiset(Pool(s', acting)) == multiset(Pool(s, acting))
            && WallLaid(s'.w) && Total(s'.players, s'.result, s'.w) == Total(s.players, s.result, s.w)
            && Undrawn(s'.w) == Undrawn(s.w) && WangpaiUndrawn(s'.w) == WangpaiUndrawn(s.w)
  {
    hide ViewKept, MenusFresh, WallLaid, Total, Undrawn, WangpaiUndrawn, Pool, DealBack, Finish, Shuffled;
    LaidHasIndicator(s.w);
    var pool := Shuffled(Pool(s, acting), FirstPicks(rng, |Pool(s, acting)|));
    DealtAndFinishedKeepsView(r, s, acting, pool);
    FreshMenusFit(r, DealBack(s, acting, pool), acting);
    DealtConserves(r, s, acting, pool);
    DealtPoolIsThere(s, acting, pool);
    FinishKeepsPool(r, DealBack(s, acting, pool), acting);
  }

  lemma LaidHasIndicator(w: WallState)
    requires WallLaid(w)
    ensures w.indicator < |w.tiles|
  {
  }

  lemma FinishKeepsPool(r: Rules, t: State, acting: Seat)
    ensures Pool(Finish(r, t, acting), acting) == Pool(t, acting)
  {
    hide Finish, FreshOffer, Undrawn;
    FinishFrame(r, t, acting);
  }

  /** The review variant does the same, and no opponent is left holding a flower that would have been revealed. It is
      refused exactly when fewer playable tiles are unseen than the opponents hold. */
  lemma ReviewRedealKeepsView(r: Rules, s: State, acting: Seat, rng: Rng)
    requires RulesOk(r) && WallLaid(s.w)
    ensures var (s', ok) := RedealUnseenForReview(r, s, acting, rng);
            && (ok <==> |Eligible(s, Pool(s, acting))| >= Offset(s, acting, 4))
            && (!ok ==> s' == s)
            && (ok ==> ViewKept(s, s', acting) && MenusFresh(r, s', acting) && DrawsErased(s'.events, acting) && multiset(Pool(s', acting)) == multiset(Pool(s, acting))
                       && WallLaid(s'.w) && Total(s'.players, s'.result, s'.w) == Total(s.players, s.result, s.w)
                       && forall q: Seat, t | q != acting && t in s'.players[q].closedHand :: !Revealable(s', t))
  {
    hide ViewKept, MenusFresh, WallLaid, Total, Undrawn, WangpaiUndrawn, Pool, DealBack, Finish, ReviewOrder, Eligible, Offset, ReviewPool;
    LaidHasIndicator(s.w);
    var pool := ReviewOrder(s, acting, rng);
    var slots := Offset(s, acting, 4);
    EligibleCount(s, pool, Pool(s, acting));
    if slots <= |Eligible(s, pool)| {
      var dealt := ReviewPool(s, pool, slots, SecondPicks(rng, |pool|, |pool| - slots));
      DealtAndFinishedKeepsView(r, s, acting, dealt);
      FreshMenusFit(r, DealBack(s, acting, dealt), acting);
      DealtConserves(r, s, acting, dealt);
      DealtPoolIsThere(s, acting, dealt);
      FinishKeepsPool(r, DealBack(s, acting, dealt), acting);
      ReviewHandsArePlayable(r, s, acting, pool, slots, SecondPicks(rng, |pool|, |pool| - slots));
    }
  }

  /** How many tiles are playable depends on which tiles there are, not on their order. */
  lemma EligibleCount(s: State, a: seq<TileId>, b: seq<TileId>)
    requires multiset(a) == multiset(b)
    ensures |Eligible(s, a)| == |Eligible(s, b)|
  {
    assert |multiset(a)| == |a| && |multiset(b)| == |b|;
    EligibleAt(s, a);
    EligibleAt(s, b);
    assert multiset(Eligible(s, a)) == multiset(Eligible(s, b));
    assert |multiset(Eligible(s, a))| == |Eligible(s, a)| && |multiset(Eligible(s, b))| == |Eligible(s, b)|;
  }

  lemma {:induction false} EligibleAt(s: State, pool: seq<TileId>)
    ensures forall t :: multiset(Eligible(s, pool))[t] == if Revealable(s, t) then 0 else multiset(pool)[t]
  {
    if pool != [] {
      EligibleAt(s, pool[1..]);
      assert pool == [pool[0]] + pool[1..];
    }
  }

  lemma ReviewHandsArePlayable(r: Rules, s: State, acting: Seat, pool: seq<TileId>, slots: nat, picks: nat -> nat)
    requires |pool| == |Pool(s, acting)| && slots == Offset(s, acting, 4) <= |Eligible(s, pool)|
    ensures var s' := Finish(r, DealBack(s, acting, ReviewPool(s, pool, slots, picks)), acting);
            forall q: Seat, t | q != acting && t in s'.players[q].closedHand :: !Revealable(s', t)
  {
    hide Pool, Finish, FreshOffer, DealBack, ReviewPool, Eligible, Offset, Revealable;
    var dealt := ReviewPool(s, pool, slots, picks);
    var t0 := DealBack(s, acting, dealt);
    var s' := Finish(r, t0, acting);
    FinishFrame(r, t0, acting);
    DealtWild(s, acting, dealt);
    forall q: Seat, t | q != acting && t in s'.players[q].closedHand ensures !Revealable(s', t) {
      SameWild(s, t0, s', t);
      DealtHand(s, acting, dealt, q);
      OffsetGrows(s, acting, q);
      assert t in dealt[Offset(s, acting, q)..Offset(s, acting, q + 1)];
      PlayableBelow(s, pool, slots, picks, Offset(s, acting, q), Offset(s, acting, q + 1), t);
    }
  }

  lemma SameWild(s: State, t0: State, s': State, t: TileId)
    requires t0.wild == s.wild && s'.wild == t0.wild
    ensures Revealable(s', t) == Revealable(s, t)
  {
  }

  lemma OffsetGrows(s: State, acting: Seat, q: Seat)
    ensures Offset(s, acting, q) <= Offset(s, acting, q + 1) <= Offset(s, acting, 4)
  {
    hide OppHand;
  }

  lemma PlayableBelow(s: State, pool: seq<TileId>, slots: nat, picks: nat -> nat, from: nat, to: nat, t: TileId)
    requires slots <= |Eligible(s, pool)| && from <= to <= slots
    requires t in ReviewPool(s, pool, slots, picks)[from..to]
    ensures !Revealable(s, t)
  {
    hide Eligible, Shuffled, Revealable;
    var dealt := ReviewPool(s, pool, slots, picks);
    var k :| 0 <= k < to - from && dealt[from..to][k] == t;
    assert dealt[from + k] == Eligible(s, pool)[from + k];
  }

  lemma DealtWild(s: State, acting: Seat, pool: seq<TileId>)
    requires |pool| == |Pool(s, acting)|
    ensures DealBack(s, acting, pool).wild == s.wild
  {
  }
}
