/** The re-deal and the branch copy on Game objects: arrays and hands overwritten in place, proved equal to the functions. */
module RedealGame {
  import opened Tiles
  import opened Wall
  import opened Hand
  import opened GameObject
  import opened Redeal
  import opened Swaps

  // ---- The branch copy ----

  /** A copy that shares no mutable storage with the original. */
  method CloneForBranch(g: Game) returns (c: Game)
    ensures fresh(c) && fresh(c.wall) && c.rules == g.rules && c.View() == g.View()
  {
    var copied := CloneWall(g.wall);
    c := new Game.Branch(g, copied);
  }

  method CloneWall(wall: array<TileId>) returns (copied: array<TileId>)
    ensures fresh(copied) && copied[..] == wall[..]
  {
    copied := new TileId[wall.Length];
    for i := 0 to wall.Length
      invariant copied[..i] == wall[..i]
    {
      copied[i] := wall[i];
    }
    assert copied[..] == copied[..wall.Length] && wall[..] == wall[..wall.Length];
  }

  // ---- Shuffling ----

  /** The in-place shuffle: from the last position down, each swapped with one at or below it. */
  method Shuffle(pool: array<TileId>, pick: nat -> nat)
    modifies pool
    ensures pool[..] == Shuffled(old(pool[..]), pick)
  {
    hide Swap;
    if pool.Length == 0 {
      return;
    }
    var i := pool.Length - 1;
    while i > 0
      invariant 0 <= i < pool.Length
      invariant ShuffleFrom(pool[..], pick, i) == Shuffled(old(pool[..]), pick)
    {
      var j := pick(i) % (i + 1);
      SwapAt(pool, i, j);
      i := i - 1;
    }
  }

  method ShuffledCopy(tiles: seq<TileId>, pick: nat -> nat) returns (r: seq<TileId>)
    ensures r == Shuffled(tiles, pick)
  {
    var a := new TileId[|tiles|](i requires 0 <= i < |tiles| => tiles[i]);
    assert a[..] == tiles;
    Shuffle(a, pick);
    r := a[..];
  }

  // ---- Collecting the pool ----

  /** Two ascending lists of the same positions are the same list. */
  lemma {:induction false} AscendingSlotsAreUnique(a: seq<nat>, b: seq<nat>)
    requires forall i, j | 0 <= i < j < |a| :: a[i] < a[j]
    requires forall i, j | 0 <= i < j < |b| :: b[i] < b[j]
    requires forall x: int :: x in a <==> x in b
    ensures a == b
    decreases |a|
  {
    EmptyHasNone(a);
    EmptyHasNone(b);
    if a != [] {
      assert a[0] in b;
      assert b[0] in a;
      assert a[0] == b[0];
      forall x: int ensures x in a[1..] <==> x in b[1..] {
        RestOf(a, x);
        RestOf(b, x);
      }
      AscendingSlotsAreUnique(a[1..], b[1..]);
      assert a == [a[0]] + a[1..] && b == [b[0]] + b[1..];
    }
  }

  lemma EmptyHasNone(a: seq<nat>)
    ensures a == [] <==> forall x: int :: x !in a
  {
    if a != [] {
      assert a[0] in a;
    }
  }

  lemma RestOf(a: seq<nat>, x: int)
    requires a != [] && forall i, j | 0 <= i < j < |a| :: a[i] < a[j]
    ensures x in a[1..] <==> x in a && x != a[0]
  {
    assert a == [a[0]] + a[1..];
  }

  method CollectHands(g: Game, acting: Seat) returns (pool: seq<TileId>)
    ensures pool == OppHand(g.View(), acting, 0) + OppHand(g.View(), acting, 1) + OppHand(g.View(), acting, 2) + OppHand(g.View(), acting, 3)
  {
    hide OppHand;
    pool := [];
    var q := 0;
    ghost var s := g.View();
    while q < 4
      invariant 0 <= q <= 4
      invariant pool == if q == 0 then [] else if q == 1 then OppHand(s, acting, 0)
                        else if q == 2 then OppHand(s, acting, 0) + OppHand(s, acting, 1)
                        else if q == 3 then OppHand(s, acting, 0) + OppHand(s, acting, 1) + OppHand(s, acting, 2)
                        else OppHand(s, acting, 0) + OppHand(s, acting, 1) + OppHand(s, acting, 2) + OppHand(s, acting, 3)
    {
      var hand := if q == acting then [] else g.players[q].closedHand;
      assert hand == OppHand(s, acting, q) by { HandIs(s, acting, q); }
      pool := pool + hand;
      q := q + 1;
    }
  }

  lemma HandIs(s: State, acting: Seat, q: Seat)
    ensures OppHand(s, acting, q) == if q == acting then [] else s.players[q].closedHand
  {
  }

  method CollectUnseen(g: Game, acting: Seat) returns (pool: seq<TileId>, wallIdx: seq<nat>)
    ensures pool == Pool(g.View(), acting) && wallIdx == WallSlots(g.View().w)
  {
    hide OppHand, Undrawn, UndrawnFrom;
    pool := CollectHands(g, acting);
    wallIdx := g.UndrawnWallIndices();
    AscendingSlotsAreUnique(wallIdx, WallSlots(g.Pointers()));
    ghost var hands := pool;
    var i := 0;
    while i < |wallIdx|
      invariant 0 <= i <= |wallIdx|
      invariant pool == hands + TilesOf(g.wall[..], wallIdx)[..i]
    {
      pool := pool + [g.wall[wallIdx[i]]];
      i := i + 1;
    }
  }

  // ---- Dealing back ----

  method FindDrawn(hand: seq<TileId>, drawn: Option<TileId>) returns (pos: Option<nat>)
    ensures pos == DrawnPos(hand, drawn)
  {
    if drawn.None? {
      return None;
    }
    var i := 0;
    while i < |hand|
      invariant 0 <= i <= |hand|
      invariant DrawnPos(hand, drawn) == Shifted(DrawnPos(hand[i..], drawn), i)
    {
      if hand[i] == drawn.value {
        return Some(i);
      }
      assert hand[i..][1..] == hand[i + 1..];
      i := i + 1;
    }
    return None;
  }

  function Shifted(pos: Option<nat>, n: nat): Option<nat> {
    if pos.None? then None else Some(pos.value + n)
  }

  /** One opponent's slots, refilled from position k of the pool. */
  method RefillHand(p: Player, pool: seq<TileId>, k: nat) returns (p': Player)
    requires k + |p.closedHand| <= |pool|
    ensures p' == Refilled(p, pool[k..k + |p.closedHand|])
  {
    var drawnPos := FindDrawn(p.closedHand, p.drawn);
    var hand := p.closedHand;
    var pos := 0;
    while pos < |hand|
      invariant 0 <= pos <= |hand| == |p.closedHand|
      invariant hand[..pos] == pool[k..k + pos]
    {
      hand := hand[pos := pool[k + pos]];
      pos := pos + 1;
    }
    p' := p.(closedHand := hand);
    if drawnPos.Some? {
      p' := p'.(drawn := Some(hand[drawnPos.value]));
    }
  }

  function Refilled(p: Player, hand: seq<TileId>): Player
    requires |hand| == |p.closedHand|
  {
    var pos := DrawnPos(p.closedHand, p.drawn);
    p.(closedHand := hand, drawn := if pos.Some? then Some(hand[pos.value]) else p.drawn)
  }

  lemma NewPlayerIsRefilled(s: State, acting: Seat, pool: seq<TileId>, q: Seat)
    requires |pool| == |Pool(s, acting)|
    ensures Offset(s, acting, q + 1) == Offset(s, acting, q) + |OppHand(s, acting, q)| <= |pool|
    ensures NewPlayer(s, acting, pool, q)
         == if q == acting then s.players[q]
            else Refilled(s.players[q], pool[Offset(s, acting, q)..Offset(s, acting, q) + |s.players[q].closedHand|])
  {
    hide DrawnPos, Pool;
  }

  method DealHandsBack(g: Game, acting: Seat, pool: seq<TileId>) returns (k: nat)
    requires |pool| == |Pool(g.View(), acting)|
    modifies g`players
    ensures k == Offset(old(g.View()), acting, 4)
    ensures forall q: Seat :: g.players[q] == NewPlayer(old(g.View()), acting, pool, q)
  {
    hide Pool, NewPlayer, Offset, Refilled;
    ghost var s := g.View();
    k := 0;
    NoOffset(s, acting);
    var q := 0;
    while q < 4
      invariant 0 <= q <= 4 && k == Offset(s, acting, q)
      invariant forall p: Seat | p < q :: g.players[p] == NewPlayer(s, acting, pool, p)
      invariant forall p: Seat | p >= q :: g.players[p] == s.players[p]
    {
      NewPlayerIsRefilled(s, acting, pool, q);
      if q != acting {
        var p := RefillHand(g.players[q], pool, k);
        k := k + |g.players[q].closedHand|;
        g.players := g.players[q := p];
      }
      q := q + 1;
    }
  }

  lemma NoOffset(s: State, acting: Seat)
    ensures Offset(s, acting, 0) == 0
  {
  }

  method DealWallBack(g: Game, wallIdx: seq<nat>, pool: seq<TileId>, k: nat)
    requires SlotsBetween(wallIdx, 0, g.wall.Length) && k + |wallIdx| == |pool|
    modifies g.wall
    ensures g.wall[..] == PutTiles(old(g.wall[..]), wallIdx, pool[k..])
  {
    hide SlotsBetween;
    ghost var tiles := g.wall[..];
    var i := 0;
    Prefix(wallIdx, 0, g.wall.Length);
    while i < |wallIdx|
      invariant 0 <= i <= |wallIdx| && SlotsBetween(wallIdx[..i], 0, |tiles|)
      invariant g.wall[..] == PutTiles(tiles, wallIdx[..i], pool[k..][..i])
    {
      Prefix(wallIdx, i + 1, g.wall.Length);
      ghost var before := g.wall[..];
      g.wall[wallIdx[i]] := pool[k + i];
      assert g.wall[..] == before[wallIdx[i] := pool[k..][i]];
      assert wallIdx[..i + 1][..i] == wallIdx[..i] && pool[k..][..i + 1][..i] == pool[k..][..i];
      i := i + 1;
    }
    assert wallIdx[..i] == wallIdx && pool[k..][..i] == pool[k..];
  }

  lemma Prefix(us: seq<nat>, i: nat, n: nat)
    requires SlotsBetween(us, 0, n) && i <= |us|
    ensures SlotsBetween(us[..i], 0, n) && (i > 0 ==> us[i - 1] < n)
  {
  }

  // ---- Menus and log ----

  lemma WithoutMenus(s: State, players: Players)
    requires forall q: Seat :: players[q].(offer := NoOffer) == s.players[q].(offer := NoOffer)
    ensures TableOf(s.(players := players)) == TableOf(s)
  {
  }

  method RefreshMenus(g: Game, acting: Seat)
    modifies g`players
    ensures g.View() == RefreshOffers(g.rules, old(g.View()), acting)
  {
    hide TableOf, RonOnly, FreshOffer;
    ghost var s := g.View();
    var openWindow := g.phase == WaitDiscards && g.activeDiscard.Some?;
    var q := 0;
    while q < 4
      invariant 0 <= q <= 4
      invariant forall p: Seat | p < q :: g.players[p] == s.players[p].(offer := FreshOffer(g.rules, s, acting, p))
      invariant forall p: Seat | p >= q :: g.players[p] == s.players[p]
    {
      if q != acting {
        WithoutMenus(s, g.players);
        assert s.(players := g.players) == g.View();
        var offer := RefreshedMenu(g, s, acting, openWindow, q);
        g.players := g.players[q := g.players[q].(offer := offer)];
      } else {
        assert FreshOffer(g.rules, s, acting, q) == s.players[q].offer by { OwnMenu(g.rules, s, q); }
      }
      q := q + 1;
    }
  }

  method RefreshedMenu(g: Game, ghost s: State, acting: Seat, openWindow: bool, q: Seat) returns (offer: Offer)
    requires q != acting && s == g.View().(players := s.players) && TableOf(g.View()) == TableOf(s) && openWindow == WindowIsOpen(s)
    ensures offer == FreshOffer(g.rules, s, acting, q)
  {
    hide TableOf, RonOnly;
    offer := NoOffer;
    if openWindow && q != g.activePlayer {
      var table := g.RuleView();
      var claims := g.rules.interrupts(table, g.activeDiscard.value, q);
      if g.isHaitei {
        claims := RonOnly(claims);
      }
      offer := ClaimOffer(claims);
    }
  }

  lemma OwnMenu(r: Rules, s: State, q: Seat)
    ensures FreshOffer(r, s, q, q) == s.players[q].offer
  {
  }

  method MaskLog(g: Game, acting: Seat)
    modifies g`publicEvents
    ensures g.publicEvents == MaskEvents(old(g.publicEvents), acting)
  {
    ghost var events := g.publicEvents;
    var i := 0;
    while i < |g.publicEvents|
      invariant 0 <= i <= |g.publicEvents| == |events|
      invariant forall j | 0 <= j < i :: g.publicEvents[j] == MaskEvent(events[j], acting)
      invariant forall j | i <= j < |events| :: g.publicEvents[j] == events[j]
    {
      var e := g.publicEvents[i];
      if e.kind == DrawEvent && e.seat != acting {
        g.publicEvents := g.publicEvents[i := e.(face := -1)];
      }
      i := i + 1;
    }
  }

  // ---- Both variants ----

  method PartitionPlayable(g: Game, pool: seq<TileId>) returns (eligible: seq<TileId>, flowers: seq<TileId>)
    ensures eligible == Eligible(g.View(), pool) && flowers == Flowers(g.View(), pool)
  {
    hide Eligible, Flowers, IsFlower, FaceOf;
    ghost var s := g.View();
    eligible, flowers := [], [];
    assert pool[0..] == pool;
    var i := 0;
    while i < |pool|
      invariant 0 <= i <= |pool|
      invariant eligible + Eligible(s, pool[i..]) == Eligible(s, pool)
      invariant flowers + Flowers(s, pool[i..]) == Flowers(s, pool)
    {
      PartitionStep(s, pool, i, eligible, flowers);
      if IsFlower(pool[i]) && FaceOf(pool[i]) !in g.wildTiles {
        flowers := flowers + [pool[i]];
      } else {
        eligible := eligible + [pool[i]];
      }
      i := i + 1;
    }
    PartitionEnds(s, pool[i..]);
  }

  lemma PartitionStep(s: State, pool: seq<TileId>, i: nat, eligible: seq<TileId>, flowers: seq<TileId>)
    requires i < |pool|
    ensures eligible + Eligible(s, pool[i..]) == (if Revealable(s, pool[i]) then eligible else eligible + [pool[i]]) + Eligible(s, pool[i + 1..])
    ensures flowers + Flowers(s, pool[i..]) == (if Revealable(s, pool[i]) then flowers + [pool[i]] else flowers) + Flowers(s, pool[i + 1..])
  {
    assert pool[i..][1..] == pool[i + 1..];
  }

  lemma PartitionEnds(s: State, pool: seq<TileId>)
    requires pool == []
    ensures Eligible(s, pool) == [] && Flowers(s, pool) == []
  {
  }

  method DealAndFinish(g: Game, acting: Seat, pool: seq<TileId>, wallIdx: seq<nat>)
    requires |pool| == |Pool(g.View(), acting)| && wallIdx == WallSlots(g.View().w)
    modifies g, g.wall
    ensures g.wall == old(g.wall) && g.View() == Finish(g.rules, DealBack(old(g.View()), acting, pool), acting)
  {
    hide Pool, Offset, NewPlayer, PutTiles, WallSlots, FreshOffer;
    ghost var s := g.View();
    PoolSplits(s, acting);
    var k := DealHandsBack(g, acting, pool);
    DealWallBack(g, wallIdx, pool, k);
    g.interruptQueue := map[];
    assert g.players == DealBack(s, acting, pool).players;
    assert g.View() == DealBack(s, acting, pool);
    RefreshMenus(g, acting);
    MaskLog(g, acting);
  }

  lemma PoolSplits(s: State, acting: Seat)
    ensures |Pool(s, acting)| == Offset(s, acting, 4) + |WallSlots(s.w)|
    ensures SlotsBetween(WallSlots(s.w), 0, |s.w.tiles|)
  {
  }

  /** The search variant. */
  method RedealUnseen(g: Game, acting: Seat, rng: Rng)
    modifies g, g.wall
    ensures g.wall == old(g.wall) && g.View() == Redeal.RedealUnseen(g.rules, old(g.View()), acting, rng)
  {
    hide Pool, DealBack, Finish, WallSlots, ShuffleFrom;
    var pool, wallIdx := CollectUnseen(g, acting);
    pool := ShuffledCopy(pool, FirstPicks(rng, |pool|));
    DealAndFinish(g, acting, pool, wallIdx);
  }

  method HandSlots(g: Game, acting: Seat) returns (slots: nat)
    ensures slots == Offset(g.View(), acting, 4)
  {
    hide OppHand;
    ghost var s := g.View();
    slots := 0;
    var q := 0;
    while q < 4
      invariant 0 <= q <= 4 && slots == Offset(s, acting, q)
    {
      HandIs(s, acting, q);
      if q != acting {
        slots := slots + |g.players[q].closedHand|;
      }
      q := q + 1;
    }
  }

  /** The review variant: nothing changes when it is refused. */
  method RedealUnseenForReview(g: Game, acting: Seat, rng: Rng) returns (ok: bool)
    modifies g, g.wall
    ensures g.wall == old(g.wall) && (g.View(), ok) == Redeal.RedealUnseenForReview(g.rules, old(g.View()), acting, rng)
  {
    hide Pool, DealBack, Finish, WallSlots, Shuffled, Eligible, Flowers, Offset, SortById, SlotsBetween, IsFlower, FaceOf;
    var pool, wallIdx := CollectUnseen(g, acting);
    pool := SortById(pool);
    pool := ShuffledCopy(pool, FirstPicks(rng, |pool|));
    var eligible, flowers := PartitionPlayable(g, pool);
    var slots := HandSlots(g, acting);
    if |eligible| < slots {
      return false;
    }
    PoolSplits(g.View(), acting);
    var wallPool := ShuffledCopy(eligible[slots..] + flowers, SecondPicks(rng, |pool|, |pool| - slots));
    DealAndFinish(g, acting, eligible[..slots] + wallPool, wallIdx);
    return true;
  }

  /** Search determinization: the branch is re-dealt and the live game does not change. */
  method BranchAndRedeal(live: Game, acting: Seat, rng: Rng) returns (branch: Game)
    ensures fresh(branch) && branch.View() == Redeal.RedealUnseen(live.rules, live.View(), acting, rng)
  {
    hide Redeal.RedealUnseen;
    branch := CloneForBranch(live);
    RedealUnseen(branch, acting, rng);
  }
}
