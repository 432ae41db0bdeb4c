/** The review re-deal depends on nothing the acting seat cannot see, except which tiles are unseen. */
module RedealPrivacy {
  import opened Tiles
  import opened Hand
  import opened Redeal
  import opened Events

  /** An opponent's public side: hand length, melds, piles, and where in the hand a drawn tile sits. */
  ghost predicate SameOpponent(p: Player, p': Player) {
    && |p'.closedHand| == |p.closedHand| && p'.openMelds == p.openMelds
    && p'.discards == p.discards && p'.flowerMelds == p.flowerMelds
    && DrawnPos(p'.closedHand, p'.drawn) == DrawnPos(p.closedHand, p.drawn)
    && (DrawnPos(p.closedHand, p.drawn).None? ==> p'.drawn == p.drawn)
  }

  /** Two games one seat cannot tell apart, with the same tiles unseen. Hidden hands, the order of the hidden wall,
      queued answers, opponents' menus and the faces of their draws may all differ. */
  ghost predicate SeenAlike(s: State, s': State, acting: Seat) {
    && |s'.w.tiles| == |s.w.tiles| && s'.w == s.w.(tiles := s'.w.tiles)
    && (s.w.indicator < |s.w.tiles| ==> s'.w.tiles[s.w.indicator] == s.w.tiles[s.w.indicator])
    && s'.wallCount == s.wallCount && s'.wangpaiLeft == s.wangpaiLeft && s'.wild == s.wild
    && s'.phase == s.phase && s'.active == s.active && s'.isHaitei == s.isHaitei
    && s'.activeDiscard == s.activeDiscard && s'.result == s.result
    && s'.players[acting] == s.players[acting]
    && (forall q: Seat | q != acting :: SameOpponent(s.players[q], s'.players[q]))
    && |s'.events| == |s.events|
    && (forall i | 0 <= i < |s.events| :: MaskEvent(s'.events[i], acting) == MaskEvent(s.events[i], acting))
    && multiset(Pool(s', acting)) == multiset(Pool(s, acting))
  }

  // ---- A sorted pool is a canonical one ----

  lemma {:induction false} FirstIsLeast(ts: seq<TileId>, t: TileId)
    requires Ascending(ts) && t in ts
    ensures ts[0] <= t
  {
    if ts[0] != t {
      assert ts == [ts[0]] + ts[1..];
      FirstIsLeast(ts[1..], t);
    }
  }

  lemma {:induction false} AscendingIsUnique(a: seq<TileId>, b: seq<TileId>)
    requires Ascending(a) && Ascending(b) && multiset(a) == multiset(b)
    ensures a == b
    decreases |a|
  {
    assert |multiset(a)| == |a| && |multiset(b)| == |b|;
    if a != [] {
      SameFirst(a, b);
      assert Ascending(a[1..]) && Ascending(b[1..]);
      AscendingIsUnique(a[1..], b[1..]);
      assert a == [a[0]] + a[1..] && b == [b[0]] + b[1..];
    }
  }

  lemma SameFirst(a: seq<TileId>, b: seq<TileId>)
    requires a != [] && b != [] && Ascending(a) && Ascending(b) && multiset(a) == multiset(b)
    ensures a[0] == b[0] && multiset(a[1..]) == multiset(b[1..])
  {
    assert a[0] in multiset(b) && b[0] in multiset(a);
    FirstIsLeast(b, a[0]);
    FirstIsLeast(a, b[0]);
    Tail(a);
    Tail(b);
  }

  lemma Tail(ts: seq<TileId>)
    requires ts != []
    ensures multiset(ts[1..]) == multiset(ts) - multiset{ts[0]}
  {
    assert ts == [ts[0]] + ts[1..];
  }

  lemma {:induction false} PlayableSame(s: State, s': State, pool: seq<TileId>)
    requires s'.wild == s.wild
    ensures Eligible(s', pool) == Eligible(s, pool) && Flowers(s', pool) == Flowers(s, pool)
  {
    if pool != [] {
      PlayableSame(s, s', pool[1..]);
    }
  }

  // ---- Dealing the same pool into two games that look alike ----

  lemma PoolShape(s: State, s': State, acting: Seat)
    requires SeenAlike(s, s', acting)
    ensures WallSlots(s'.w) == WallSlots(s.w)
    ensures forall q: nat | q <= 4 :: Offset(s', acting, q) == Offset(s, acting, q)
    ensures |Pool(s', acting)| == |Pool(s, acting)|
  {
    hide Undrawn;
    SlotsSame(s.w, s'.w.tiles, 0);
    forall q: Seat ensures |OppHand(s', acting, q)| == |OppHand(s, acting, q)| {
    }
  }

  lemma DealBackAlike(s: State, s': State, acting: Seat, pool: seq<TileId>)
    requires SeenAlike(s, s', acting) && |pool| == |Pool(s, acting)| == |Pool(s', acting)|
    ensures var t, t' := DealBack(s, acting, pool), DealBack(s', acting, pool);
            && (forall q: Seat :: t'.players[q].(offer := NoOffer) == t.players[q].(offer := NoOffer))
            && t'.players[acting] == t.players[acting]
            && t'.w == t.w.(tiles := t'.w.tiles)
            && (forall i | 0 <= i < |t.w.tiles| && (i in Undrawn(t.w) || i == t.w.indicator) :: t'.w.tiles[i] == t.w.tiles[i])
  {
    hide Undrawn, PutTiles, NewPlayer;
    PoolShape(s, s', acting);
    var t, t' := DealBack(s, acting, pool), DealBack(s', acting, pool);
    forall q: Seat ensures t'.players[q].(offer := NoOffer) == t.players[q].(offer := NoOffer) {
      NewPlayerAlike(s, s', acting, pool, q);
    }
    NewPlayerAlike(s, s', acting, pool, acting);
    WallAlike(s.w, s'.w, pool[Offset(s, acting, 4)..]);
    UndrawnIgnoresTiles(s.w, t.w.tiles);
  }

  lemma NewPlayerAlike(s: State, s': State, acting: Seat, pool: seq<TileId>, q: Seat)
    requires |pool| == |Pool(s, acting)| == |Pool(s', acting)|
    requires q == acting ==> s'.players[q] == s.players[q]
    requires q != acting ==> SameOpponent(s.players[q], s'.players[q])
    requires forall k: nat | k <= 4 :: Offset(s', acting, k) == Offset(s, acting, k)
    ensures NewPlayer(s', acting, pool, q).(offer := NoOffer) == NewPlayer(s, acting, pool, q).(offer := NoOffer)
    ensures q == acting ==> NewPlayer(s', acting, pool, q) == NewPlayer(s, acting, pool, q)
  {
    hide Pool, Offset, DrawnPos;
  }

  lemma WallAlike(w: WallState, w': WallState, values: seq<TileId>)
    requires |w'.tiles| == |w.tiles| && w' == w.(tiles := w'.tiles) && WallSlots(w') == WallSlots(w) && |values| == |WallSlots(w)|
    requires w.indicator < |w.tiles| ==> w'.tiles[w.indicator] == w.tiles[w.indicator]
    ensures var ts, ts' := PutTiles(w.tiles, WallSlots(w), values), PutTiles(w'.tiles, WallSlots(w), values);
            forall i | 0 <= i < |w.tiles| && (i in Undrawn(w) || i == w.indicator) :: ts'[i] == ts[i]
  {
    var slots := WallSlots(w);
    var ts, ts' := PutTiles(w.tiles, slots, values), PutTiles(w'.tiles, slots, values);
    forall i | 0 <= i < |w.tiles| && (i in Undrawn(w) || i == w.indicator) ensures ts'[i] == ts[i] {
      if i in slots {
        var k :| 0 <= k < |slots| && slots[k] == i;
        assert ts[slots[k]] == values[k] && ts'[slots[k]] == values[k];
      }
    }
  }

  /** The one thing left to differ: positions already drawn, which nothing reads again. */
  ghost predicate SameBut(t: State, t': State) {
    && t' == t.(w := t.w.(tiles := t'.w.tiles)) && |t'.w.tiles| == |t.w.tiles|
    && forall i | 0 <= i < |t.w.tiles| && (i in Undrawn(t.w) || i == t.w.indicator) :: t'.w.tiles[i] == t.w.tiles[i]
  }

  lemma FinishAlike(r: Rules, t: State, t': State, acting: Seat)
    requires forall q: Seat :: t'.players[q].(offer := NoOffer) == t.players[q].(offer := NoOffer)
    requires t'.players[acting] == t.players[acting]
    requires t' == t.(w := t'.w, players := t'.players, events := t'.events)
    requires |t'.events| == |t.events| && forall i | 0 <= i < |t.events| :: MaskEvent(t'.events[i], acting) == MaskEvent(t.events[i], acting)
    ensures Finish(r, t', acting) == Finish(r, t, acting).(w := t'.w)
  {
    assert TableOf(t') == TableOf(t);
    hide TableOf;
    forall q: Seat ensures t'.players[q].(offer := FreshOffer(r, t', acting, q)) == t.players[q].(offer := FreshOffer(r, t, acting, q)) {
      assert t'.players[q].(offer := NoOffer) == t.players[q].(offer := NoOffer);
    }
    assert MaskEvents(t'.events, acting) == MaskEvents(t.events, acting);
  }

  /** Non-interference: games that look alike to the acting seat and hide the same tiles are re-dealt alike from the same
      seed - opponents' hands, the undrawn wall, every menu, the queue and the log - or are both refused. */
  lemma ReviewRedealIsNonInterfering(r: Rules, s: State, s': State, acting: Seat, rng: Rng)
    requires SeenAlike(s, s', acting)
    ensures RedealUnseenForReview(r, s', acting, rng).1 == RedealUnseenForReview(r, s, acting, rng).1
    ensures RedealUnseenForReview(r, s, acting, rng).1 ==>
              SameBut(RedealUnseenForReview(r, s, acting, rng).0, RedealUnseenForReview(r, s', acting, rng).0)
  {
    hide Undrawn, Pool, Offset, Finish, DealBack, ReviewPool, ReviewOrder, SameOpponent;
    PoolShape(s, s', acting);
    SameReviewOrder(s, s', acting, rng);
    var pool := ReviewOrder(s, acting, rng);
    var slots := Offset(s, acting, 4);
    PlayableSame(s, s', pool);
    if slots <= |Eligible(s, pool)| {
      var picks := SecondPicks(rng, |pool|, |pool| - slots);
      var dealt := ReviewPool(s, pool, slots, picks);
      SameReviewPool(s, s', pool, slots, picks);
      AfterDeal(r, s, s', acting, dealt);
    }
  }

  lemma SameReviewOrder(s: State, s': State, acting: Seat, rng: Rng)
    requires multiset(Pool(s', acting)) == multiset(Pool(s, acting))
    ensures ReviewOrder(s', acting, rng) == ReviewOrder(s, acting, rng)
  {
    hide Pool, SortById, Shuffled;
    AscendingIsUnique(SortById(Pool(s', acting)), SortById(Pool(s, acting)));
  }

  lemma SameReviewPool(s: State, s': State, pool: seq<TileId>, slots: nat, picks: nat -> nat)
    requires s'.wild == s.wild && slots <= |Eligible(s, pool)|
    ensures slots <= |Eligible(s', pool)| && ReviewPool(s', pool, slots, picks) == ReviewPool(s, pool, slots, picks)
  {
    PlayableSame(s, s', pool);
  }

  lemma AfterDeal(r: Rules, s: State, s': State, acting: Seat, dealt: seq<TileId>)
    requires SeenAlike(s, s', acting) && |dealt| == |Pool(s, acting)| == |Pool(s', acting)|
    ensures SameBut(Finish(r, DealBack(s, acting, dealt), acting), Finish(r, DealBack(s', acting, dealt), acting))
  {
    hide Undrawn, Pool, Offset, Finish, SameOpponent, PutTiles, NewPlayer;
    DealBackAlike(s, s', acting, dealt);
    var t, t' := DealBack(s, acting, dealt), DealBack(s', acting, dealt);
    FinishAlike(r, t, t', acting);
    FinishKeepsWall(r, t, acting);
  }

  lemma FinishKeepsWall(r: Rules, t: State, acting: Seat)
    ensures Finish(r, t, acting).w == t.w
  {
  }
}
