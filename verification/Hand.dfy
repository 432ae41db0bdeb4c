/** One hand of the game as a state machine over values: every engine operation as a function of the old state. */
module Hand {
  import opened Tiles
  import opened Wall

  datatype Option<+T> = None | Some(value: T)

  type Seat = s: nat | s < 4

  /** An answer in a claim window. */
  datatype Claim = Pass | Ron | Chii(tiles: seq<TileId>) | Pon(tiles: seq<TileId>) | Kan(tiles: seq<TileId>)

  /** An action of the seat whose turn it is. */
  datatype Action =
    | AcceptHaitei
    | RefuseHaitei
    | Discard(tile: TileId)
    | SelfKan(tiles: seq<TileId>)
    | FlowerReveal(tiles: seq<TileId>)
    | Tsumo

  datatype MeldKind = ChiiMeld | PonMeld | KanMeld

  datatype Meld = Meld(kind: MeldKind, tiles: seq<TileId>, direction: nat, called: Option<TileId>, added: Option<TileId>)

  /** What a seat may do now. HaiteiOffer is the accept/refuse pair; TurnOffer is the rule engine's turn menu. */
  datatype Offer = NoOffer | HaiteiOffer | TurnOffer | ClaimOffer(claims: seq<Claim>)

  datatype Player = Player(
    closedHand: seq<TileId>,
    openMelds: seq<Meld>,
    discards: seq<TileId>,
    flowerMelds: seq<TileId>,
    drawn: Option<TileId>,
    offer: Offer)

  datatype EventKind = DrawEvent | DiscardEvent | ChiiEvent | PonEvent | KanOpenEvent | KanClosedEvent | KanUpgradeEvent | FlowerEvent

  /** A face code, or -1 for none; a seat, or -1 for none. */
  type FaceSlot = f: int | -1 <= f < 42
  type SeatSlot = q: int | -1 <= q < 4

  datatype PublicEvent = PublicEvent(kind: EventKind, seat: Seat, face: FaceSlot, fromSeat: SeatSlot, tsumogiri: bool, haitei: bool)

  datatype Phase = PlayerTurn | WaitDiscards | RoundEnd

  datatype Result = Exhausted | TsumoWin(winner: Seat, winTile: Option<TileId>) | RonWin(winner: Seat, discarder: Seat, ronTile: TileId)

  type Players = ps: seq<Player> | |ps| == 4 witness [EMPTY_PLAYER, EMPTY_PLAYER, EMPTY_PLAYER, EMPTY_PLAYER]

  const EMPTY_PLAYER := Player([], [], [], [], None, NoOffer)

  /** The wall and its pointers: front, back, wangpai boundary, indicator, and the haitei position once drawn (else -1). */
  datatype WallState = WallState(
    tiles: seq<TileId>,
    wallIndex: nat,
    deadWallIndex: nat,
    boundary: nat,
    indicator: nat,
    haiteiDraw: int)

  datatype State = State(
    w: WallState,
    wallCount: nat,
    wangpaiLeft: nat,
    players: Players,
    wild: seq<Face>,
    phase: Phase,
    active: Seat,
    isHaitei: bool,
    activeDiscard: Option<TileId>,
    queue: map<Seat, Claim>,
    events: seq<PublicEvent>,
    result: Option<Result>)

  /** The public table, the only part of the state a rule engine is shown. */
  datatype Table = Table(
    players: Players,
    wild: seq<Face>,
    phase: Phase,
    active: Seat,
    isHaitei: bool,
    activeDiscard: Option<TileId>,
    wallCount: nat,
    wangpaiLeft: nat)

  /** A rule engine: the claims it offers a seat on a discard, and whether a seat's hand wins. */
  datatype Rules = Rules(
    interrupts: (Table, TileId, Seat) -> seq<Claim>,
    wins: (Table, Seat, Option<TileId>) -> bool)

  function TableOf(s: State): Table {
    Table([s.players[0].(offer := NoOffer), s.players[1].(offer := NoOffer),
           s.players[2].(offer := NoOffer), s.players[3].(offer := NoOffer)],
          s.wild, s.phase, s.active, s.isHaitei, s.activeDiscard, s.wallCount, s.wangpaiLeft)
  }

  // ---- Well-formed walls ----

  /** The geometry a deal establishes and every operation keeps. */
  ghost predicate WallLaid(w: WallState) {
    && |w.tiles| % 2 == 0 && w.boundary % 2 == 0
    && w.wallIndex <= w.boundary && w.boundary + 2 <= |w.tiles|
    && w.indicator == w.boundary
    && (w.haiteiDraw == -1 || (w.haiteiDraw == w.boundary + 1 && w.wallIndex == w.boundary))
  }

  /** Wall positions still hidden: not drawn from the front, from the back or as haitei, and not the indicator. */
  function Undrawn(w: WallState): set<int> {
    set i | w.wallIndex <= i < |w.tiles|
            && i != w.indicator && i != w.haiteiDraw && !Consumed(|w.tiles|, w.deadWallIndex, i)
  }

  /** The hidden positions inside the wangpai, counted without looking at the front pointer. */
  function WangpaiUndrawn(w: WallState): set<int> {
    set i | w.boundary <= i < |w.tiles|
            && i != w.indicator && i != w.haiteiDraw && !Consumed(|w.tiles|, w.deadWallIndex, i)
  }

  // ---- Small updates ----

  function Dec32(w: nat): nat {
    if w == 0 then 0xFFFF_FFFF else w - 1
  }

  /** A hand without its first tile of the given id. */
  function RemoveFirst(hand: seq<TileId>, t: TileId): (rest: seq<TileId>)
    ensures t in hand ==> multiset(hand) == multiset(rest) + multiset{t} && |rest| == |hand| - 1
    ensures t !in hand ==> rest == hand
    ensures forall x | x in rest :: x in hand
  {
    if hand == [] then []
    else if hand[0] == t then
      assert hand == [hand[0]] + hand[1..];
      hand[1..]
    else
      assert hand == [hand[0]] + hand[1..];
      [hand[0]] + RemoveFirst(hand[1..], t)
  }

  lemma OneLess(hand: multiset<TileId>, less: multiset<TileId>, tiles: multiset<TileId>, rest: multiset<TileId>, t: TileId)
    requires hand == less + multiset{t} && tiles == multiset{t} + rest
    ensures rest <= less <==> tiles <= hand
    ensures forall left :: less == left + rest ==> hand == left + tiles
  {
    assert rest == tiles - multiset{t} && less == hand - multiset{t};
  }

  /** Removes the tiles in order and stops at the first one missing; the earlier ones stay removed. */
  function RemoveEach(hand: seq<TileId>, tiles: seq<TileId>): (r: (seq<TileId>, bool))
    ensures r.1 <==> multiset(tiles) <= multiset(hand)
    ensures r.1 ==> multiset(hand) == multiset(r.0) + multiset(tiles) && |r.0| == |hand| - |tiles|
    ensures |r.0| <= |hand|
    ensures forall x | x in r.0 :: x in hand
    decreases |tiles|
  {
    if tiles == [] then (hand, true)
    else
      assert tiles == [tiles[0]] + tiles[1..];
      assert multiset(tiles) == multiset{tiles[0]} + multiset(tiles[1..]);
      if tiles[0] in hand then
        var less := RemoveFirst(hand, tiles[0]);
        OneLess(multiset(hand), multiset(less), multiset(tiles), multiset(tiles[1..]), tiles[0]);
        RemoveEach(less, tiles[1..])
      else
        assert tiles[0] in multiset(tiles) && tiles[0] !in multiset(hand);
        (hand, false)
  }

  /** Removes each of the tiles that the hand has. */
  function RemovePresent(hand: seq<TileId>, tiles: seq<TileId>): (rest: seq<TileId>)
    ensures |rest| <= |hand|
    ensures forall x | x in rest :: x in hand
    ensures RemoveEach(hand, tiles).1 ==> rest == RemoveEach(hand, tiles).0
    decreases |tiles|
  {
    if tiles == [] then hand else RemovePresent(RemoveFirst(hand, tiles[0]), tiles[1..])
  }

  function SetPlayer(s: State, seat: Seat, p: Player): State {
    s.(players := s.players[seat := p])
  }

  function SetOffer(s: State, seat: Seat, offer: Offer): State {
    SetPlayer(s, seat, s.players[seat].(offer := offer))
  }

  function ClearOffers(s: State): State {
    s.(players := [s.players[0].(offer := NoOffer), s.players[1].(offer := NoOffer),
                   s.players[2].(offer := NoOffer), s.players[3].(offer := NoOffer)])
  }

  function LogEvent(s: State, e: PublicEvent): State {
    s.(events := s.events + [e])
  }

  /** Ends the hand with the given result and nothing left on offer. */
  function Conclude(s: State, result: Result): State {
    ClearOffers(s.(phase := RoundEnd, result := Some(result)))
  }

  function IsWildFlower(s: State, t: TileId): bool {
    IsFlower(t) && FaceOf(t) in s.wild
  }

  predicate Revealable(s: State, t: TileId) {
    IsFlower(t) && !IsWildFlower(s, t)
  }

  /** The first flower in a hand that is not wild. */
  function FirstRevealable(s: State, hand: seq<TileId>): (found: Option<TileId>)
    ensures found.Some? ==> found.value in hand && Revealable(s, found.value)
    ensures found.None? ==> forall t | t in hand :: !Revealable(s, t)
  {
    if hand == [] then None
    else if Revealable(s, hand[0]) then Some(hand[0])
    else FirstRevealable(s, hand[1..])
  }

  function FlowerOf(s: State, seat: Seat): Option<TileId> {
    FirstRevealable(s, s.players[seat].closedHand)
  }

  /** What falls on every tile-moving step: each draw costs one, each tile leaving a hand costs one. */
  function Measure(s: State): nat {
    2 * s.wallCount + |s.players[0].closedHand| + |s.players[1].closedHand| + |s.players[2].closedHand| + |s.players[3].closedHand|
  }

  // ---- Drawing ----

  /** Moves wall tile idx into the seat's hand; all pointers have been advanced already. */
  function TakeTile(s: State, seat: Seat, idx: nat): State
    requires idx < |s.w.tiles|
  {
    var p := s.players[seat];
    var s1 := SetPlayer(s, seat, p.(closedHand := p.closedHand + [s.w.tiles[idx]], drawn := Some(s.w.tiles[idx])));
    s1.(wallCount := Dec32(s.wallCount), wangpaiLeft := |WangpaiUndrawn(s.w)|)
  }

  /** The next index from the back, skipping the indicator, or nothing once the back has met the front. */
  function DeadTarget(n: nat, wallIndex: nat, indicator: nat, k: nat): (r: (nat, Option<nat>))
    ensures r.1.Some? ==> wallIndex <= r.1.value < n
    ensures r.0 >= k
    decreases n + 1 - k
  {
    var idx := DeadIndex(n, k);
    if idx < wallIndex then (k, None)
    else if idx == indicator then DeadTarget(n, wallIndex, indicator, k + 1)
    else (k + 1, Some(idx))
  }

  /** What an operation may not touch: the wall, its geometry, and how the round is set up. */
  ghost predicate SameRound(s: State, s': State) {
    && s'.w == s.w.(deadWallIndex := s'.w.deadWallIndex) && s'.w.deadWallIndex >= s.w.deadWallIndex
    && s'.wild == s.wild
    && s'.active == s.active && s'.isHaitei == s.isHaitei && s'.queue == s.queue && s'.activeDiscard == s.activeDiscard
    && (s'.phase == s.phase || s'.phase == PlayerTurn || s'.phase == RoundEnd)
  }

  ghost predicate OtherHandsSame(s: State, s': State, seat: Seat) {
    forall q: Seat | q != seat :: s'.players[q].closedHand == s.players[q].closedHand
  }

  function DrawEventOf(seat: Seat, t: TileId, haitei: bool): PublicEvent {
    PublicEvent(DrawEvent, seat, FaceCode(t), -1, false, haitei)
  }

  /** Supplementary draw from the back of the wall; it ends the hand in a draw when no tile is left there. */
  function DeadWallDraw(s: State, seat: Seat): (s': State)
    ensures SameRound(s, s') && OtherHandsSame(s, s', seat)
    ensures Measure(s') <= Measure(s)
    decreases Measure(s), 0
  {
    if s.wallCount == 0 then Conclude(s, Exhausted)
    else
      var (k, target) := DeadTarget(|s.w.tiles|, s.w.wallIndex, s.w.indicator, s.w.deadWallIndex);
      var s1 := s.(w := s.w.(deadWallIndex := k));
      match target
      case None => Conclude(s1, Exhausted)
      case Some(idx) =>
        var s2 := LogEvent(TakeTile(s1, seat, idx), DrawEventOf(seat, s.w.tiles[idx], false));
        AutoReveal(s2, seat)
  }

  /** Reveals the seat's flowers one by one until none is left, then shows the turn menu. */
  function AutoReveal(s: State, seat: Seat): (s': State)
    ensures SameRound(s, s') && OtherHandsSame(s, s', seat)
    ensures FlowerOf(s', seat).None?
    ensures Measure(s') <= Measure(s)
    decreases Measure(s), 1
  {
    match FlowerOf(s, seat)
    case None => SetOffer(s, seat, TurnOffer)
    case Some(f) =>
      var s1 := MoveFlower(s, seat, f);
      var s2 := DeadWallDraw(s1, seat);
      AutoReveal(ResumeTurn(s2), seat)
  }

  /** Lays a flower down. */
  function MoveFlower(s: State, seat: Seat, f: TileId): (s': State)
    requires f in s.players[seat].closedHand
    ensures SameRound(s, s') && OtherHandsSame(s, s', seat) && Measure(s') == Measure(s) - 1
  {
    var p := s.players[seat];
    LogEvent(SetPlayer(s, seat, p.(closedHand := RemoveFirst(p.closedHand, f), flowerMelds := p.flowerMelds + [f])),
             PublicEvent(FlowerEvent, seat, FaceCode(f), -1, false, false))
  }

  /** After a supplementary draw the turn goes on, unless the draw ended the hand. */
  function ResumeTurn(s: State): State {
    if s.phase == RoundEnd then s else s.(phase := PlayerTurn)
  }

  /** The front pointer moved past tiles that dead-wall draws have taken out of the live wall. */
  function SkipConsumed(n: nat, d: nat, boundary: nat, i: nat): (j: nat)
    requires i <= boundary
    ensures i <= j <= boundary
    ensures j < boundary ==> !Consumed(n, d, j)
    ensures forall x | i <= x < j :: Consumed(n, d, x)
    decreases boundary - i
  {
    if i < boundary && Consumed(n, d, i) then SkipConsumed(n, d, boundary, i + 1) else i
  }

  /** The last drawable tile: the one under the indicator, unless a dead-wall draw has taken it. */
  function FindHaitei(w: WallState): (r: Option<nat>)
    ensures r.Some? ==> r.value == w.indicator + 1 < |w.tiles|
  {
    if w.indicator + 1 < |w.tiles| && !Consumed(|w.tiles|, w.deadWallIndex, w.indicator + 1)
    then Some(w.indicator + 1) else None
  }

  /** The draw that opens a turn. */
  function SystemDraw(s: State, seat: Seat): (s': State)
    requires s.w.wallIndex <= s.w.boundary <= |s.w.tiles|
    ensures s'.w == s.w.(wallIndex := s'.w.wallIndex, deadWallIndex := s'.w.deadWallIndex) && s'.wild == s.wild
    ensures s'.w.wallIndex >= s.w.wallIndex && s'.w.deadWallIndex >= s.w.deadWallIndex
    ensures OtherHandsSame(s, s', seat) && (FlowerOf(s, seat).None? ==> FlowerOf(s', seat).None?)
    ensures s'.phase == s.phase || s'.phase == PlayerTurn || s'.phase == RoundEnd
  {
    var f := SkipConsumed(|s.w.tiles|, s.w.deadWallIndex, s.w.boundary, s.w.wallIndex);
    var s1 := s.(w := s.w.(wallIndex := f));
    if f >= s.w.boundary then
      if FindHaitei(s1.w).None? then Conclude(s1, Exhausted)
      else SetOffer(s1.(isHaitei := true), seat, HaiteiOffer)
    else
      AutoReveal(LogEvent(TakeTile(s.(w := s.w.(wallIndex := f + 1)), seat, f), DrawEventOf(seat, s.w.tiles[f], false)), seat)
  }

  // ---- Turn actions; the flag says whether the engine accepted the action ----

  function HaiteiAccept(s: State, seat: Seat): (State, bool) {
    match FindHaitei(s.w)
    case None => (s, false)
    case Some(idx) =>
      var s1 := LogEvent(TakeTile(s.(w := s.w.(haiteiDraw := idx)), seat, idx), DrawEventOf(seat, s.w.tiles[idx], true));
      if FlowerOf(s1, seat).Some? then (AutoReveal(s1.(isHaitei := false), seat), true)
      else (SetOffer(s1, seat, TurnOffer), true)
  }

  function HaiteiRefuse(s: State): State {
    Conclude(s.(isHaitei := false), Exhausted)
  }

  function RonOnly(claims: seq<Claim>): (r: seq<Claim>)
    ensures forall c | c in r :: c.Ron? && c in claims
    ensures forall c | c in claims && c.Ron? :: c in r
  {
    if claims == [] then []
    else (if claims[0].Ron? then [claims[0]] else []) + RonOnly(claims[1..])
  }

  function ClaimsFor(r: Rules, s: State, t: TileId, seat: Seat): seq<Claim> {
    var claims := r.interrupts(TableOf(s), t, seat);
    if s.isHaitei then RonOnly(claims) else claims
  }

  function ClaimOfferFor(r: Rules, s: State, t: TileId, discarder: Seat, seat: Seat): Offer {
    if seat == discarder then NoOffer else ClaimOffer(ClaimsFor(r, s, t, seat))
  }

  /** Offers every seat but the discarder its claims on the discarded tile. */
  function OfferClaims(r: Rules, s: State, t: TileId, discarder: Seat): State {
    s.(players := [s.players[0].(offer := ClaimOfferFor(r, s, t, discarder, 0)),
                   s.players[1].(offer := ClaimOfferFor(r, s, t, discarder, 1)),
                   s.players[2].(offer := ClaimOfferFor(r, s, t, discarder, 2)),
                   s.players[3].(offer := ClaimOfferFor(r, s, t, discarder, 3))])
  }

  /** A seat with a non-empty menu; the window waits for it. */
  predicate MustAnswer(offer: Offer) {
    !offer.NoOffer? && (offer.ClaimOffer? ==> offer.claims != [])
  }

  function Expected(s: State): nat {
    (if MustAnswer(s.players[0].offer) then 1 else 0) + (if MustAnswer(s.players[1].offer) then 1 else 0)
    + (if MustAnswer(s.players[2].offer) then 1 else 0) + (if MustAnswer(s.players[3].offer) then 1 else 0)
  }

  function Next(seat: Seat): Seat {
    (seat + 1) % 4
  }

  /** Nobody took the discard: the next seat draws. */
  function NextTurn(s: State): State
    requires s.w.wallIndex <= s.w.boundary <= |s.w.tiles|
  {
    SystemDraw(s.(active := Next(s.active), phase := PlayerTurn, activeDiscard := None), Next(s.active))
  }

  function DiscardTile(s: State, seat: Seat, t: TileId): State {
    var p := s.players[seat];
    var s1 := SetPlayer(s, seat, p.(closedHand := RemoveFirst(p.closedHand, t), discards := p.discards + [t], drawn := None));
    LogEvent(s1, PublicEvent(DiscardEvent, seat, FaceCode(t), -1, p.drawn == Some(t), false)).(activeDiscard := Some(t))
  }

  function HandleDiscard(r: Rules, s: State, seat: Seat, t: TileId): (State, bool)
    requires s.w.wallIndex <= s.w.boundary <= |s.w.tiles|
  {
    if t !in s.players[seat].closedHand then (s, false)
    else
      var s1 := DiscardTile(s, seat, t);
      var s2 := OfferClaims(r, s1, t, seat);
      if Expected(s2) > 0 then (s2.(phase := WaitDiscards, queue := map[]), true)
      else if s.isHaitei then (Conclude(s2.(isHaitei := false), Exhausted), true)
      else (NextTurn(s2), true)
  }

  /** The pon a declared kan extends: the first one of the same face. */
  function MatchingPon(melds: seq<Meld>, face: Face): (i: nat)
    requires forall m | m in melds :: m.tiles != []
    ensures i <= |melds|
    ensures i < |melds| ==> melds[i].kind == PonMeld && FaceOf(melds[i].tiles[0]) == face
    ensures forall j | 0 <= j < i :: !(melds[j].kind == PonMeld && FaceOf(melds[j].tiles[0]) == face)
  {
    if melds == [] then 0
    else if melds[0].kind == PonMeld && FaceOf(melds[0].tiles[0]) == face then 0
    else
      var i := MatchingPon(melds[1..], face);
      assert i < |melds| - 1 ==> melds[1..][i] == melds[i + 1];
      assert forall j | 0 < j < i + 1 :: melds[j] == melds[1..][j - 1];
      i + 1
  }

  ghost predicate MeldsNonempty(s: State) {
    forall seat: Seat, m | m in s.players[seat].openMelds :: m.tiles != []
  }

  /** Turns the taken tiles into a kan: stacked on a matching pon, or laid down as a closed kan. */
  function DeclareKan(s: State, seat: Seat, tiles: seq<TileId>, rest: seq<TileId>): State
    requires tiles != [] && MeldsNonempty(s)
  {
    var p := s.players[seat];
    var i := MatchingPon(p.openMelds, FaceOf(tiles[0]));
    if i < |p.openMelds| then
      var m := p.openMelds[i];
      var m' := m.(kind := KanMeld, tiles := m.tiles + tiles, added := Some(tiles[0]));
      LogEvent(SetPlayer(s, seat, p.(closedHand := rest, openMelds := p.openMelds[i := m'])),
               PublicEvent(KanUpgradeEvent, seat, FaceCode(tiles[0]), -1, false, false))
    else
      LogEvent(SetPlayer(s, seat, p.(closedHand := rest, openMelds := p.openMelds + [Meld(KanMeld, tiles, 0, None, None)])),
               PublicEvent(KanClosedEvent, seat, FaceCode(tiles[0]), -1, false, false))
  }

  function LayFlowers(s: State, seat: Seat, tiles: seq<TileId>, rest: seq<TileId>): State
    requires tiles != []
  {
    var p := s.players[seat];
    LogEvent(SetPlayer(s, seat, p.(closedHand := rest, flowerMelds := p.flowerMelds + tiles)),
             PublicEvent(FlowerEvent, seat, FaceCode(tiles[0]), -1, false, false))
  }

  /** A kan or flower declared on one's own turn. A missing tile is refused only after the tiles before it have left the hand. */
  function HandleKongOrFlower(s: State, seat: Seat, tiles: seq<TileId>, isKan: bool): (State, bool)
    requires tiles != [] && (isKan ==> MeldsNonempty(s))
  {
    var p := s.players[seat];
    var (rest, ok) := RemoveEach(p.closedHand, tiles);
    if !ok then (SetPlayer(s, seat, p.(closedHand := rest)), false)
    else
      var s1 := if isKan then DeclareKan(s, seat, tiles, rest) else LayFlowers(s, seat, tiles, rest);
      (ResumeTurn(DeadWallDraw(s1, seat)), true)
  }

  function HandleTsumo(r: Rules, s: State, seat: Seat): (State, bool) {
    var p := s.players[seat];
    if !r.wins(TableOf(s), seat, None) then (s, false)
    else
      var winTile := if p.drawn.Some? && p.drawn.value in p.closedHand then p.drawn else None;
      (Conclude(s, TsumoWin(seat, winTile)), true)
  }

  function HandleTurn(r: Rules, s: State, seat: Seat, a: Action): (State, bool)
    requires s.w.wallIndex <= s.w.boundary <= |s.w.tiles| && MeldsNonempty(s)
    requires (a.SelfKan? || a.FlowerReveal?) ==> a.tiles != []
  {
    match a
    case AcceptHaitei => HaiteiAccept(s, seat)
    case RefuseHaitei => (HaiteiRefuse(s), true)
    case Discard(t) => HandleDiscard(r, s, seat, t)
    case SelfKan(tiles) => HandleKongOrFlower(s, seat, tiles, true)
    case FlowerReveal(tiles) => HandleKongOrFlower(s, seat, tiles, false)
    case Tsumo => HandleTsumo(r, s, seat)
  }

  // ---- Claim windows ----

  function Weight(c: Claim): nat {
    match c
    case Pass => 0
    case Chii(_) => 1
    case Pon(_) => 2
    case Kan(_) => 3
    case Ron => 4
  }

  function BidWeight(queue: map<Seat, Claim>, seat: Seat): nat {
    if seat in queue then Weight(queue[seat]) else 0
  }

  /** The best bid among the first n seats; the lowest seat wins a tie. */
  function BestBid(queue: map<Seat, Claim>, n: nat): (best: Option<Seat>)
    requires n <= 4
    ensures best.None? ==> forall t: Seat | t < n :: BidWeight(queue, t) == 0
    ensures best.Some? ==>
      && best.value < n && best.value in queue && BidWeight(queue, best.value) > 0
      && (forall t: Seat | t < n :: BidWeight(queue, t) <= BidWeight(queue, best.value))
      && (forall t: Seat | t < best.value :: BidWeight(queue, t) < BidWeight(queue, best.value))
  {
    if n == 0 then None
    else
      var best := BestBid(queue, n - 1);
      var highest := if best.Some? then BidWeight(queue, best.value) else 0;
      if BidWeight(queue, n - 1) > highest then Some(n - 1) else best
  }

  function DropLast(discards: seq<TileId>): seq<TileId> {
    if discards == [] then [] else discards[..|discards| - 1]
  }

  function ClaimEventKind(c: Claim): EventKind {
    match c
    case Chii(_) => ChiiEvent
    case Pon(_) => PonEvent
    case _ => KanOpenEvent
  }

  function ClaimMeldKind(c: Claim): MeldKind {
    match c
    case Chii(_) => ChiiMeld
    case Pon(_) => PonMeld
    case _ => KanMeld
  }

  /** The winner's part of a chii, pon or direct kan. */
  function LayClaim(s: State, winner: Seat, c: Claim): State
    requires s.activeDiscard.Some? && (c.Chii? || c.Pon? || c.Kan?)
  {
    var t := s.activeDiscard.value;
    var p := s.players[winner];
    var meld := Meld(ClaimMeldKind(c), c.tiles + [t], (s.active + 4 - winner) % 4, Some(t), None);
    var p1 := p.(closedHand := RemovePresent(p.closedHand, c.tiles), openMelds := p.openMelds + [meld], drawn := None);
    LogEvent(SetPlayer(s, winner, p1), PublicEvent(ClaimEventKind(c), winner, FaceCode(t), s.active, false, false))
  }

  /** Chii, pon or direct kan: the meld is laid down, the discard leaves its pile, the winner has the turn. */
  function TakeDiscard(s: State, winner: Seat, c: Claim): State
    requires s.activeDiscard.Some? && (c.Chii? || c.Pon? || c.Kan?)
  {
    var s1 := LayClaim(s, winner, c);
    var d := s1.players[s.active];
    SetPlayer(s1, s.active, d.(discards := DropLast(d.discards))).(active := winner, activeDiscard := None)
  }

  function ApplyRon(s: State, winner: Seat): State
    requires s.activeDiscard.Some?
  {
    var d := s.players[s.active];
    Conclude(SetPlayer(s, s.active, d.(discards := DropLast(d.discards))), RonWin(winner, s.active, s.activeDiscard.value))
  }

  function ApplyMeld(s: State, winner: Seat, c: Claim): State
    requires s.activeDiscard.Some? && (c.Chii? || c.Pon? || c.Kan?)
  {
    var s1 := TakeDiscard(s, winner, c);
    if c.Kan? then ResumeTurn(DeadWallDraw(s1, winner))
    else AutoReveal(s1.(phase := PlayerTurn), winner)
  }

  /** Closes the window with the answers queued so far. */
  function Resolve(r: Rules, s: State): State
    requires s.activeDiscard.Some? && s.w.wallIndex <= s.w.boundary <= |s.w.tiles|
  {
    var best := BestBid(s.queue, 4);
    if best.None? then NextTurn(s)
    else
      var winner := best.value;
      var c := s.queue[winner];
      if c.Ron? then
        if r.wins(TableOf(s), winner, s.activeDiscard) then ApplyRon(s, winner).(queue := map[]) else NextTurn(s)
      else ApplyMeld(s, winner, c).(queue := map[])
  }

  predicate SameType(a: Claim, b: Claim) {
    Weight(a) == Weight(b)
  }

  predicate OffersType(offer: Offer, c: Claim) {
    offer.ClaimOffer? && exists o | o in offer.claims :: SameType(o, c)
  }

  function HandleClaim(r: Rules, s: State, seat: Seat, c: Claim): (State, bool)
    requires s.activeDiscard.Some? && s.w.wallIndex <= s.w.boundary <= |s.w.tiles|
  {
    if seat == s.active then (s, false)
    else if c != Pass && !OffersType(s.players[seat].offer, c) then (s, false)
    else
      var s1 := s.(queue := s.queue[seat := c]);
      if |s1.queue| >= Expected(s1) then (Resolve(r, s1), true) else (s1, true)
  }

  // ---- Dealing ----

  /** The thirteen tiles of a seat: three rounds of four, then one. */
  function DealtHand(wall: seq<TileId>, seat: Seat): seq<TileId>
    requires |wall| >= 52
  {
    wall[4 * seat..4 * seat + 4] + wall[16 + 4 * seat..20 + 4 * seat] + wall[32 + 4 * seat..36 + 4 * seat] + [wall[48 + seat]]
  }

  function DealtPlayer(wall: seq<TileId>, seat: Seat): Player
    requires |wall| >= 52
  {
    EMPTY_PLAYER.(closedHand := DealtHand(wall, seat))
  }

  /** A flower indicator makes the rest of its group of four wild; any other makes its own face wild. */
  function WildFaces(indicator: TileId): seq<Face> {
    if !IsFlower(indicator) then [FaceOf(indicator)]
    else if FaceOf(indicator).value <= 4 then FlowersExcept(1, FaceOf(indicator).value)
    else FlowersExcept(5, FaceOf(indicator).value)
  }

  function FlowersExcept(first: nat, value: nat): seq<Face> {
    (if value == first then [] else [Face(Flower, first)])
    + (if value == first + 1 then [] else [Face(Flower, first + 1)])
    + (if value == first + 2 then [] else [Face(Flower, first + 2)])
    + (if value == first + 3 then [] else [Face(Flower, first + 3)])
  }

  /** A shuffled wall dealt out, the wangpai cut off by the dice. The haitei flag is carried over from the hand before. */
  function Deal(wall: seq<TileId>, diceSum: nat, isHaitei: bool): State
    requires |wall| >= 52 + 2 * diceSum && diceSum >= 1
  {
    var boundary := |wall| - 2 * diceSum;
    var s := State(WallState(wall, 52, 0, boundary, boundary, -1), |wall| - 53, 0,
                   [DealtPlayer(wall, 0), DealtPlayer(wall, 1), DealtPlayer(wall, 2), DealtPlayer(wall, 3)],
                   WildFaces(wall[boundary]), PlayerTurn, 0, isHaitei, None, map[], [], None);
    s.(wangpaiLeft := |WangpaiUndrawn(s.w)|)
  }

  /** Separates one seat's dealt flowers, each replaced from the back of the wall while it has tiles. */
  function InitialFlowersOf(s: State, seat: Seat): (s': State)
    ensures SameRound(s, s') && s'.phase == s.phase && s'.result == s.result
    decreases Measure(s)
  {
    match FlowerOf(s, seat)
    case None => s
    case Some(f) =>
      var p := s.players[seat];
      var s1 := SetPlayer(s, seat, p.(closedHand := RemoveFirst(p.closedHand, f), flowerMelds := p.flowerMelds + [f]));
      if s.wallCount == 0 then s1
      else
        var (k, target) := DeadTarget(|s.w.tiles|, s.w.wallIndex, s.w.indicator, s.w.deadWallIndex);
        var s2 := s1.(w := s.w.(deadWallIndex := k));
        match target
        case None => s2
        case Some(idx) =>
          var s3 := LogEvent(s2, PublicEvent(FlowerEvent, seat, FaceCode(f), -1, false, false));
          var s4 := TakeTile(s3, seat, idx);
          InitialFlowersOf(SetPlayer(s4, seat, s4.players[seat].(drawn := p.drawn)), seat)
  }

  function InitialFlowers(s: State, dealer: Seat): State {
    InitialFlowersOf(InitialFlowersOf(InitialFlowersOf(InitialFlowersOf(s, dealer), Next(dealer)), Next(Next(dealer))), Next(Next(Next(dealer))))
  }

  /** A new hand up to the dealer's first decision. */
  function StartHand(wall: seq<TileId>, dealer: Seat, diceSum: nat, isHaitei: bool): State
    requires |wall| >= 52 + 2 * diceSum && diceSum >= 1
  {
    var s1 := InitialFlowers(Deal(wall, diceSum, isHaitei), dealer);
    var s2 := SystemDraw(s1.(phase := PlayerTurn, active := dealer), dealer);
    SetOffer(InitialFlowers(s2, dealer), dealer, TurnOffer)
  }
}
