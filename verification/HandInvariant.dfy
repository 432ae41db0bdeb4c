/** What every operation of a hand keeps: tiles, counters, sizes, flowers and the event budget. */
module HandInvariant {
  import opened Tiles
  import opened Wall
  import opened Hand

  // ---- Where the tiles are ----

  ghost function MeldTiles(melds: seq<Meld>): multiset<TileId> {
    if melds == [] then multiset{} else multiset(melds[0].tiles) + MeldTiles(melds[1..])
  }

  ghost function PlayerTiles(p: Player): multiset<TileId> {
    multiset(p.closedHand) + MeldTiles(p.openMelds) + multiset(p.discards) + multiset(p.flowerMelds)
  }

  ghost function Placed(ps: Players): multiset<TileId> {
    PlayerTiles(ps[0]) + PlayerTiles(ps[1]) + PlayerTiles(ps[2]) + PlayerTiles(ps[3])
  }

  /** A discard won by ron lies in no pile: it is the result's win tile. */
  ghost function WonTile(result: Option<Result>): multiset<TileId> {
    if result.Some? && result.value.RonWin? then multiset{result.value.ronTile} else multiset{}
  }

  /** The undrawn wall and the indicator. */
  ghost function Hidden(w: WallState): multiset<TileId>
    requires WallLaid(w)
  {
    TilesAt(w.tiles, Undrawn(w), 0) + multiset{w.tiles[w.indicator]}
  }

  lemma PlacedSet(ps: Players, seat: Seat, p: Player)
    ensures Placed(ps[seat := p]) + PlayerTiles(ps[seat]) == Placed(ps) + PlayerTiles(p)
  {
    hide PlayerTiles;
    assert seat == 0 || seat == 1 || seat == 2 || seat == 3;
  }

  lemma PlacedSame(ps: Players, seat: Seat, p: Player)
    requires PlayerTiles(p) == PlayerTiles(ps[seat])
    ensures Placed(ps[seat := p]) == Placed(ps)
  {
    hide PlayerTiles;
    assert seat == 0 || seat == 1 || seat == 2 || seat == 3;
  }

  lemma OffersHoldNoTiles(ps: Players, qs: Players)
    requires forall q: Seat :: qs[q].(offer := ps[q].offer) == ps[q]
    ensures Placed(qs) == Placed(ps)
  {
    forall q: Seat ensures PlayerTiles(qs[q]) == PlayerTiles(ps[q]) {
      assert qs[q].(offer := ps[q].offer) == ps[q];
    }
  }

  lemma {:induction false} MeldTilesSplit(melds: seq<Meld>, i: nat)
    requires i < |melds|
    ensures MeldTiles(melds) == MeldTiles(melds[..i]) + multiset(melds[i].tiles) + MeldTiles(melds[i + 1..])
  {
    if i > 0 {
      MeldTilesSplit(melds[1..], i - 1);
      assert melds[..i][1..] == melds[1..][..i - 1];
      assert melds[1..][i..] == melds[i + 1..];
    }
  }

  lemma MeldTilesAppend(melds: seq<Meld>, m: Meld)
    ensures MeldTiles(melds + [m]) == MeldTiles(melds) + multiset(m.tiles)
  {
    MeldTilesSplit(melds + [m], |melds|);
    assert (melds + [m])[..|melds|] == melds;
  }

  lemma MeldTilesUpdate(melds: seq<Meld>, i: nat, m: Meld)
    requires i < |melds|
    ensures MeldTiles(melds[i := m]) + multiset(melds[i].tiles) == MeldTiles(melds) + multiset(m.tiles)
  {
    MeldTilesSplit(melds, i);
    MeldTilesSplit(melds[i := m], i);
    assert melds[i := m][..i] == melds[..i] && melds[i := m][i + 1..] == melds[i + 1..];
  }

  // ---- The invariant ----

  /** The public counters count the hidden positions. */
  ghost predicate Counted(w: WallState, wallCount: nat, wangpaiLeft: nat) {
    WallLaid(w) && wallCount == |Undrawn(w)| && wangpaiLeft == |WangpaiUndrawn(w)|
  }

  /** Hands, melds, piles, flowers, the ron tile, the undrawn wall and the indicator, counted together. */
  ghost function Total(players: Players, result: Option<Result>, w: WallState): multiset<TileId>
    requires WallLaid(w)
  {
    Placed(players) + WonTile(result) + Hidden(w)
  }

  /** Together they are the initial wall. */
  ghost predicate Conserved(s: State)
    requires WallLaid(s.w)
  {
    Total(s.players, s.result, s.w) == multiset(s.w.tiles)
  }

  /** The most events a hand from a wall of n tiles can log. */
  function EventBudget(n: nat): int {
    2 * (n - 53) + 52
  }

  /** What holds at every point of a hand, also inside an operation and after the end. */
  ghost predicate CoreInv(s: State) {
    && Counted(s.w, s.wallCount, s.wangpaiLeft)
    && Conserved(s)
    && |s.events| + Measure(s) <= EventBudget(|s.w.tiles|)
    && MeldsNonempty(s)
  }

  /** Strictly falls on every accepted message: four per unit of measure, less the answers already queued. */
  function Rank(s: State): int {
    match s.phase
    case PlayerTurn => 1 + 4 * Measure(s)
    case WaitDiscards => 1 + 4 * Measure(s) + 3 - |s.queue|
    case RoundEnd => 0
  }

  function Size(p: Player): nat {
    |p.closedHand| + 3 * |p.openMelds|
  }

  /** The hand-size law with up as the seats holding a fourteenth tile. */
  ghost predicate Sized(s: State, up: set<Seat>) {
    forall q: Seat :: Size(s.players[q]) == if q in up then 14 else 13
  }

  ghost predicate NoFlowersBut(s: State, seats: set<Seat>) {
    forall q: Seat, t | q !in seats && t in s.players[q].closedHand :: !Revealable(s, t)
  }

  // ---- Wall positions ----

  lemma WangpaiIsPartOfUndrawn(w: WallState)
    requires WallLaid(w)
    ensures WangpaiUndrawn(w) == set i | i in Undrawn(w) && i >= w.boundary
  {
  }

  /** A step back through the wall hides at most the one position it hands out; the indicator it steps over was not hidden. */
  lemma DeadTargetGivesOne(w: WallState)
    requires WallLaid(w)
    ensures var (k, target) := DeadTarget(|w.tiles|, w.wallIndex, w.indicator, w.deadWallIndex);
            var w' := w.(deadWallIndex := k);
            && WallLaid(w')
            && Undrawn(w') == (if target.Some? then Undrawn(w) - {target.value} else Undrawn(w))
            && (target.None? ==> WangpaiUndrawn(w') == WangpaiUndrawn(w))
            && (target.Some? ==> target.value != w.indicator && !Consumed(|w.tiles|, w.deadWallIndex, target.value))
  {
    var n, d := |w.tiles|, w.deadWallIndex;
    ConsumedGrows(n, d);
    if w.wallIndex <= DeadIndex(n, d) == w.indicator {
      ConsumedGrows(n, d + 1);
      assert DeadTarget(n, w.wallIndex, w.indicator, d + 1) == (d + 2, Some(DeadIndex(n, d) + 1));
    }
    hide DeadIndex, Consumed;
  }

  lemma ConsumedGrows(n: nat, d: nat)
    requires n % 2 == 0
    ensures forall i :: Consumed(n, d + 1, i) <==> Consumed(n, d, i) || i == DeadIndex(n, d)
    ensures DeadIndex(n, d) < n && !Consumed(n, d, DeadIndex(n, d))
    ensures d % 2 == 0 ==> DeadIndex(n, d + 1) == DeadIndex(n, d) + 1
    ensures DeadIndex(n, d) % 2 == d % 2
  {
    hide DeadIndex;
    DeadIndexClosed(n, d);
    DeadIndexClosed(n, d + 1);
    NextParity(n, d);
    forall i ensures Consumed(n, d + 1, i) <==> Consumed(n, d, i) || i == DeadIndex(n, d) {
      OneMoreConsumed(n, d, i);
    }
  }

  lemma OneMoreConsumed(n: nat, d: nat, i: int)
    requires n % 2 == 0
    ensures Consumed(n, d + 1, i) <==> Consumed(n, d, i) || i == if d % 2 == 0 then n - 2 - d else n - d
  {
    NextParity(n, d);
  }

  lemma NextParity(n: nat, d: nat)
    requires n % 2 == 0
    ensures (d + 1) % 2 == 1 - d % 2
    ensures (n - 2 - d) % 2 == d % 2 && (n - d) % 2 == d % 2
  {
    var a, b := n / 2, d / 2;
    assert n == 2 * a && d == 2 * b + d % 2;
    if d % 2 == 0 {
      assert n - 2 - d == 2 * (a - 1 - b) && n - d == 2 * (a - b);
    } else {
      assert n - 2 - d == 2 * (a - 2 - b) + 1 && n - d == 2 * (a - 1 - b) + 1;
    }
  }

  /** With tiles left, the next position from the back is a hidden one. */
  lemma DeadTargetIsUndrawn(w: WallState)
    requires WallLaid(w) && Undrawn(w) != {}
    ensures var (k, target) := DeadTarget(|w.tiles|, w.wallIndex, w.indicator, w.deadWallIndex);
            target.Some? ==> target.value in Undrawn(w)
  {
    var (k, target) := DeadTarget(|w.tiles|, w.wallIndex, w.indicator, w.deadWallIndex);
    DeadTargetGivesOne(w);
    if target.Some? && target.value == w.haiteiDraw {
      BottomComesLast(w);
    }
  }

  /** When the bottom of the indicator's stack comes up, everything behind it is gone. */
  lemma BottomComesLast(w: WallState)
    requires WallLaid(w)
    requires DeadTarget(|w.tiles|, w.wallIndex, w.indicator, w.deadWallIndex).1 == Some(w.indicator + 1)
    ensures forall i | w.indicator + 1 < i < |w.tiles| :: Consumed(|w.tiles|, w.deadWallIndex, i)
  {
    var n, d := |w.tiles|, w.deadWallIndex;
    if DeadIndex(n, d) == w.indicator {
      assert DeadTarget(n, w.wallIndex, w.indicator, d + 1) == (d + 2, Some(DeadIndex(n, d) + 1));
    }
  }

  /** The hidden tiles after position idx has been given up. */
  lemma HiddenLess(w: WallState, w': WallState, idx: nat)
    requires WallLaid(w) && WallLaid(w') && w'.tiles == w.tiles && w'.indicator == w.indicator
    requires idx < |w.tiles| && idx in Undrawn(w) && Undrawn(w') == Undrawn(w) - {idx}
    ensures Hidden(w) == Hidden(w') + multiset{w.tiles[idx]}
    ensures |Undrawn(w')| == |Undrawn(w)| - 1
  {
    hide Undrawn;
    TilesAtRemove(w.tiles, Undrawn(w), idx, 0);
    var rest, t, top := TilesAt(w.tiles, Undrawn(w'), 0), multiset{w.tiles[idx]}, multiset{w.tiles[w.indicator]};
    assert rest + t + top == rest + top + t;
  }

  lemma HandGains(ps: Players, seat: Seat, t: TileId, drawn: Option<TileId>)
    ensures var p' := ps[seat].(closedHand := ps[seat].closedHand + [t], drawn := drawn);
            Placed(ps[seat := p']) == Placed(ps) + multiset{t}
  {
    hide PlayerTiles, Placed;
    var p' := ps[seat].(closedHand := ps[seat].closedHand + [t], drawn := drawn);
    PlacedSet(ps, seat, p');
    PlayerGains(ps[seat], t, drawn);
    Transfer(Placed(ps), PlayerTiles(ps[seat]), Placed(ps[seat := p']), multiset{t});
  }

  lemma PlayerGains(p: Player, t: TileId, drawn: Option<TileId>)
    ensures PlayerTiles(p.(closedHand := p.closedHand + [t], drawn := drawn)) == PlayerTiles(p) + multiset{t}
  {
    hide MeldTiles;
    var hand, melds, pile, flowers := multiset(p.closedHand), MeldTiles(p.openMelds), multiset(p.discards), multiset(p.flowerMelds);
    assert (hand + multiset{t}) + melds + pile + flowers == hand + melds + pile + flowers + multiset{t};
    assert multiset(p.closedHand + [t]) == hand + multiset{t};
  }

  lemma Transfer(all: multiset<TileId>, p: multiset<TileId>, all': multiset<TileId>, t: multiset<TileId>)
    requires all' + p == all + (p + t)
    ensures all' == all + t
  {
    assert all' == (all' + p) - p == (all + (p + t)) - p;
  }

  lemma TotalShifts(ps: Players, ps': Players, result: Option<Result>, w: WallState, w': WallState, t: TileId)
    requires WallLaid(w) && WallLaid(w')
    requires Placed(ps') == Placed(ps) + multiset{t} && Hidden(w) == Hidden(w') + multiset{t}
    ensures Total(ps', result, w') == Total(ps, result, w)
  {
    hide Placed, Hidden, WonTile, WallLaid;
  }

  lemma TotalSame(ps: Players, ps': Players, result: Option<Result>, result': Option<Result>, w: WallState)
    requires WallLaid(w)
    requires Placed(ps') + WonTile(result') == Placed(ps) + WonTile(result)
    ensures Total(ps', result', w) == Total(ps, result, w)
  {
    hide Placed, Hidden, WonTile, WallLaid;
  }

  /** Moving a hidden tile into a hand keeps the books; w' is the wall with its pointers advanced past idx. */
  lemma TakeTileKeeps(s: State, w': WallState, seat: Seat, idx: nat, e: PublicEvent)
    requires CoreInv(s)
    requires WallLaid(w') && w'.tiles == s.w.tiles && w'.indicator == s.w.indicator
    requires idx in Undrawn(s.w) && idx < |s.w.tiles| && Undrawn(w') == Undrawn(s.w) - {idx}
    ensures var s' := LogEvent(TakeTile(s.(w := w'), seat, idx), e);
            CoreInv(s') && Measure(s') == Measure(s) - 1
  {
    hide Total, Placed, Hidden, Undrawn, WangpaiUndrawn, WallLaid;
    HiddenLess(s.w, w', idx);
    HandGains(s.players, seat, s.w.tiles[idx], Some(s.w.tiles[idx]));
    var s' := LogEvent(TakeTile(s.(w := w'), seat, idx), e);
    TotalShifts(s.players, s'.players, s.result, s.w, w', s.w.tiles[idx]);
    assert seat == 0 || seat == 1 || seat == 2 || seat == 3;
  }

  /** Updates that leave the wall alone only have to balance what the players hold. */
  lemma Rebalanced(s: State, s': State)
    requires CoreInv(s)
    requires s'.w == s.w && s'.wallCount == s.wallCount && s'.wangpaiLeft == s.wangpaiLeft
    requires Placed(s'.players) + WonTile(s'.result) == Placed(s.players) + WonTile(s.result)
    requires |s'.events| + Measure(s') <= |s.events| + Measure(s)
    requires MeldsNonempty(s')
    ensures CoreInv(s')
  {
    TotalSame(s.players, s'.players, s.result, s'.result, s.w);
  }

  /** Phase, turn, flags, window and queue can change without touching the books. */
  lemma FlagsKeep(s: State, s': State)
    requires s' == s.(phase := s'.phase, active := s'.active, isHaitei := s'.isHaitei, activeDiscard := s'.activeDiscard, queue := s'.queue)
    ensures CoreInv(s) ==> CoreInv(s')
    ensures Measure(s') == Measure(s)
    ensures forall seats :: Sized(s, seats) ==> Sized(s', seats)
    ensures forall seats :: NoFlowersBut(s, seats) ==> NoFlowersBut(s', seats)
  {
    hide Total, Undrawn, WangpaiUndrawn, WallLaid, Placed;
    if CoreInv(s) {
      Rebalanced(s, s');
    }
    SamePlayers(s, s');
  }

  predicate NoRon(s: State) {
    s.result.None? || s.result.value.Exhausted?
  }

  lemma ExhaustedKeeps(s: State)
    requires CoreInv(s) && NoRon(s)
    ensures CoreInv(Conclude(s, Exhausted)) && Measure(Conclude(s, Exhausted)) == Measure(s)
  {
    hide Total, Placed, PlayerTiles, Undrawn, WangpaiUndrawn, WallLaid;
    OffersHoldNoTiles(s.players, ClearOffers(s).players);
    Rebalanced(s, Conclude(s, Exhausted));
  }

  /** Pointers that move without giving up a hidden position change nothing that counts. */
  lemma PointersMove(s: State, w': WallState)
    requires CoreInv(s) && WallLaid(w') && w'.tiles == s.w.tiles && w'.indicator == s.w.indicator
    requires Undrawn(w') == Undrawn(s.w) && WangpaiUndrawn(w') == WangpaiUndrawn(s.w)
    ensures CoreInv(s.(w := w'))
  {
    hide Undrawn, WangpaiUndrawn, WallLaid, Placed;
  }

  // ---- Flowers and supplementary draws ----

  lemma MoveFlowerKeeps(s: State, seat: Seat, f: TileId)
    requires CoreInv(s) && f in s.players[seat].closedHand
    ensures CoreInv(MoveFlower(s, seat, f))
  {
    hide FaceCode, Placed, WallLaid, Undrawn, WangpaiUndrawn;
    var s' := MoveFlower(s, seat, f);
    FlowerTilesSame(s.players[seat], f);
    PlacedSame(s.players, seat, s'.players[seat]);
    hide Total;
    Rebalanced(s, s');
  }

  lemma FlowerTilesSame(p: Player, f: TileId)
    requires f in p.closedHand
    ensures PlayerTiles(p.(closedHand := RemoveFirst(p.closedHand, f), flowerMelds := p.flowerMelds + [f])) == PlayerTiles(p)
  {
  }

  /** What a settled turn of the seat looks like, unless the hand is over. */
  ghost predicate TurnReady(s: State, seat: Seat) {
    s.phase != RoundEnd ==>
      s.result.None? && Sized(s, {seat}) && NoFlowersBut(s, {}) && s.players[seat].offer == TurnOffer
  }

  /** The state in which a supplementary draw is due: the seat is one tile short of a turn. */
  ghost predicate DrawDue(s: State, seat: Seat) {
    CoreInv(s) && NoRon(s)
    && (s.phase != RoundEnd ==> s.result.None? && Sized(s, {}) && NoFlowersBut(s, {seat}))
  }

  /** The state in which the seat has drawn but not yet laid down its flowers. */
  ghost predicate RevealDue(s: State, seat: Seat) {
    CoreInv(s) && NoRon(s)
    && (s.phase != RoundEnd ==> s.result.None? && Sized(s, {seat}) && NoFlowersBut(s, {seat}))
  }

  ghost predicate Settled(s: State, s': State, seat: Seat) {
    CoreInv(s') && NoRon(s') && TurnReady(s', seat) && (s.phase == RoundEnd ==> s'.phase == RoundEnd)
  }

  lemma MoveFlowerSizes(s: State, seat: Seat, f: TileId)
    requires f in s.players[seat].closedHand && Sized(s, {seat}) && NoFlowersBut(s, {seat})
    ensures Sized(MoveFlower(s, seat, f), {}) && NoFlowersBut(MoveFlower(s, seat, f), {seat})
  {
    var s' := MoveFlower(s, seat, f);
    forall q: Seat, t | q !in {seat} && t in s'.players[q].closedHand ensures !Revealable(s', t) {
      assert s'.players[q] == s.players[q] && !Revealable(s, t);
    }
  }

  lemma TakeTileSizes(s: State, w': WallState, seat: Seat, idx: nat, e: PublicEvent)
    requires idx < |w'.tiles| && Sized(s, {}) && NoFlowersBut(s, {seat})
    ensures var s' := LogEvent(TakeTile(s.(w := w'), seat, idx), e);
            Sized(s', {seat}) && NoFlowersBut(s', {seat})
  {
    var s' := LogEvent(TakeTile(s.(w := w'), seat, idx), e);
    forall q: Seat, t | q !in {seat} && t in s'.players[q].closedHand ensures !Revealable(s', t) {
      assert s'.players[q] == s.players[q] && !Revealable(s, t);
    }
  }

  lemma ShowMenuKeeps(s: State, seat: Seat)
    requires RevealDue(s, seat) && FlowerOf(s, seat).None?
    ensures Settled(s, SetOffer(s, seat, TurnOffer), seat) && Measure(SetOffer(s, seat, TurnOffer)) == Measure(s)
  {
    hide Total, Undrawn, WangpaiUndrawn, WallLaid, Placed;
    var s' := SetOffer(s, seat, TurnOffer);
    OffersHoldNoTiles(s.players, s'.players);
    Rebalanced(s, s');
    forall q: Seat, t | t in s'.players[q].closedHand && s.phase != RoundEnd ensures !Revealable(s', t) {
      assert t in s.players[q].closedHand && !Revealable(s, t);
    }
  }

  lemma ResumeTurnKeeps(s: State, s': State, seat: Seat)
    requires Settled(s, s', seat)
    ensures RevealDue(ResumeTurn(s'), seat) && Settled(s, ResumeTurn(s'), seat)
  {
    hide Total, Undrawn, WangpaiUndrawn, WallLaid, Placed;
    Rebalanced(s', ResumeTurn(s'));
    SamePlayers(s', ResumeTurn(s'));
  }

  /** Sizes and flowers depend on the players and the wild faces only. */
  lemma SamePlayers(s: State, s': State)
    requires s'.players == s.players && s'.wild == s.wild
    ensures forall seats :: Sized(s, seats) ==> Sized(s', seats)
    ensures forall seats :: NoFlowersBut(s, seats) ==> NoFlowersBut(s', seats)
  {
    forall seats | NoFlowersBut(s, seats) ensures NoFlowersBut(s', seats) {
      forall q: Seat, t | q !in seats && t in s'.players[q].closedHand ensures !Revealable(s', t) {
        assert t in s.players[q].closedHand && !Revealable(s, t);
      }
    }
  }

  lemma DeadWallDrawKeeps(s: State, seat: Seat)
    requires DrawDue(s, seat)
    ensures Settled(s, DeadWallDraw(s, seat), seat)
    decreases Measure(s), 0
  {
    hide Total, Undrawn, WangpaiUndrawn, Sized, NoFlowersBut, Placed;
    if s.wallCount == 0 {
      ExhaustedKeeps(s);
    } else {
      var (k, target) := DeadTarget(|s.w.tiles|, s.w.wallIndex, s.w.indicator, s.w.deadWallIndex);
      var w' := s.w.(deadWallIndex := k);
      DeadTargetGivesOne(s.w);
      DeadTargetIsUndrawn(s.w);
      match target
      case None =>
        PointersMove(s, w');
        ExhaustedKeeps(s.(w := w'));
      case Some(idx) =>
        var e := DrawEventOf(seat, s.w.tiles[idx], false);
        TakeTileKeeps(s, w', seat, idx, e);
        if s.phase != RoundEnd {
          TakeTileSizes(s, w', seat, idx, e);
        }
        AutoRevealKeeps(LogEvent(TakeTile(s.(w := w'), seat, idx), e), seat);
    }
  }

  lemma AutoRevealKeeps(s: State, seat: Seat)
    requires RevealDue(s, seat)
    ensures Settled(s, AutoReveal(s, seat), seat)
    decreases Measure(s), 1
  {
    hide Total, Undrawn, WangpaiUndrawn, WallLaid, Sized, NoFlowersBut, Placed;
    match FlowerOf(s, seat)
    case None =>
      ShowMenuKeeps(s, seat);
    case Some(f) =>
      MoveFlowerKeeps(s, seat, f);
      var s1 := MoveFlower(s, seat, f);
      if s.phase != RoundEnd {
        MoveFlowerSizes(s, seat, f);
      }
      DeadWallDrawKeeps(s1, seat);
      var s2 := DeadWallDraw(s1, seat);
      ResumeTurnKeeps(s, s2, seat);
      AutoRevealKeeps(ResumeTurn(s2), seat);
  }
}
