/** Re-dealing everything a seat cannot see, as functions of the game state. */
module Redeal {
  import opened Tiles
  import opened Hand
  import opened Swaps

  // ---- Random choices ----

  /** The choices of one seeded source: which element each shuffle step swaps with. They may depend on how many
      elements were shuffled before, and on nothing else. */
  datatype Rng = Rng(first: (nat, nat) -> nat, second: (nat, nat, nat) -> nat)

  /** Which of the positions up to i step i takes. */
  function Below(pick: nat -> nat, i: nat): (c: nat)
    ensures c <= i
  {
    pick(i) % (i + 1)
  }

  /** Steps from position i down to 1, each swapping with a position at or below it. */
  function ShuffleFrom(pool: seq<TileId>, pick: nat -> nat, i: nat): (r: seq<TileId>)
    requires i < |pool| || i == 0
    ensures |r| == |pool| && multiset(r) == multiset(pool)
    decreases i
  {
    if i == 0 then pool else ShuffleFrom(Swap(pool, i, Below(pick, i)), pick, i - 1)
  }

  function Shuffled(pool: seq<TileId>, pick: nat -> nat): (r: seq<TileId>)
    ensures |r| == |pool| && multiset(r) == multiset(pool)
  {
    if pool == [] then pool else ShuffleFrom(pool, pick, |pool| - 1)
  }

  // ---- The canonical order ----

  predicate Ascending(ts: seq<TileId>) {
    forall i | 0 < i < |ts| :: ts[i - 1] <= ts[i]
  }

  function Insert(ts: seq<TileId>, t: TileId): (r: seq<TileId>)
    requires Ascending(ts)
    ensures Ascending(r) && multiset(r) == multiset(ts) + multiset{t} && |r| == |ts| + 1
    ensures r[0] == if ts == [] || t <= ts[0] then t else ts[0]
  {
    if ts == [] || t <= ts[0] then [t] + ts
    else
      assert ts == [ts[0]] + ts[1..];
      [ts[0]] + Insert(ts[1..], t)
  }

  function SortById(ts: seq<TileId>): (r: seq<TileId>)
    ensures Ascending(r) && multiset(r) == multiset(ts) && |r| == |ts|
  {
    if ts == [] then []
    else
      assert ts == ts[..|ts| - 1] + [ts[|ts| - 1]];
      Insert(SortById(ts[..|ts| - 1]), ts[|ts| - 1])
  }

  // ---- Slots and pool ----

  /** Ascending positions between i and n. */
  predicate SlotsBetween(us: seq<nat>, i: nat, n: nat) {
    && (forall a | 0 <= a < |us| :: i <= us[a] < n)
    && forall a, b | 0 <= a < b < |us| :: us[a] < us[b]
  }

  /** The undrawn positions from i on, ascending. */
  function UndrawnFrom(w: WallState, i: nat): (us: seq<nat>)
    ensures SlotsBetween(us, i, |w.tiles|)
    ensures forall u: nat :: u in us <==> u in Undrawn(w) && u >= i
    decreases |w.tiles| - i
  {
    if i >= |w.tiles| then []
    else (if i in Undrawn(w) then [i] else []) + UndrawnFrom(w, i + 1)
  }

  function WallSlots(w: WallState): (us: seq<nat>)
    ensures SlotsBetween(us, 0, |w.tiles|)
    ensures forall u: nat :: u in us <==> u in Undrawn(w)
  {
    UndrawnFrom(w, 0)
  }

  lemma UndrawnIgnoresTiles(w: WallState, tiles: seq<TileId>)
    requires |tiles| == |w.tiles|
    ensures Undrawn(w.(tiles := tiles)) == Undrawn(w) && WangpaiUndrawn(w.(tiles := tiles)) == WangpaiUndrawn(w)
  {
  }

  lemma {:induction false} SlotsSame(w: WallState, tiles: seq<TileId>, i: nat)
    requires |tiles| == |w.tiles|
    ensures UndrawnFrom(w.(tiles := tiles), i) == UndrawnFrom(w, i)
    decreases |w.tiles| - i
  {
    UndrawnIgnoresTiles(w, tiles);
    if i < |w.tiles| {
      SlotsSame(w, tiles, i + 1);
    }
  }

  function OppHand(s: State, acting: Seat, q: Seat): seq<TileId> {
    if q == acting then [] else s.players[q].closedHand
  }

  /** How many pooled hand slots the seats before q hold. */
  function Offset(s: State, acting: Seat, q: nat): nat
    requires q <= 4
  {
    (if q > 0 then |OppHand(s, acting, 0)| else 0) + (if q > 1 then |OppHand(s, acting, 1)| else 0)
    + (if q > 2 then |OppHand(s, acting, 2)| else 0) + (if q > 3 then |OppHand(s, acting, 3)| else 0)
  }

  function TilesOf(tiles: seq<TileId>, slots: seq<nat>): (ts: seq<TileId>)
    requires SlotsBetween(slots, 0, |tiles|)
    ensures |ts| == |slots|
  {
    seq(|slots|, k requires 0 <= k < |slots| => tiles[slots[k]])
  }

  /** Opponents' hands by seat, then the undrawn wall. */
  function Pool(s: State, acting: Seat): (pool: seq<TileId>)
    ensures |pool| == Offset(s, acting, 4) + |WallSlots(s.w)|
  {
    OppHand(s, acting, 0) + OppHand(s, acting, 1) + OppHand(s, acting, 2) + OppHand(s, acting, 3)
    + TilesOf(s.w.tiles, WallSlots(s.w))
  }

  // ---- Dealing back ----

  /** The position of the drawn tile in a hand, if it is there. */
  function DrawnPos(hand: seq<TileId>, drawn: Option<TileId>): (pos: Option<nat>)
    ensures pos.Some? ==> pos.value < |hand| && drawn == Some(hand[pos.value])
    ensures pos.None? && drawn.Some? ==> drawn.value !in hand
  {
    if drawn.None? || hand == [] then None
    else if hand[0] == drawn.value then Some(0)
    else
      var rest := DrawnPos(hand[1..], drawn);
      if rest.None? then None else Some(rest.value + 1)
  }

  /** Writes the values to the slots; the rest of the wall stays as it is. */
  function PutTiles(tiles: seq<TileId>, slots: seq<nat>, values: seq<TileId>): (r: seq<TileId>)
    requires |slots| == |values| && SlotsBetween(slots, 0, |tiles|)
    ensures |r| == |tiles|
    ensures forall k | 0 <= k < |slots| :: r[slots[k]] == values[k]
    ensures forall i | 0 <= i < |tiles| && i !in slots :: r[i] == tiles[i]
    decreases |slots|
  {
    if slots == [] then tiles
    else
      var last := |slots| - 1;
      assert slots == slots[..last] + [slots[last]];
      PutTiles(tiles, slots[..last], values[..last])[slots[last] := values[last]]
  }

  function NewHand(s: State, acting: Seat, pool: seq<TileId>, q: Seat): (hand: seq<TileId>)
    requires |pool| == |Pool(s, acting)|
    ensures |hand| == |s.players[q].closedHand|
  {
    if q == acting then s.players[q].closedHand
    else
      pool[Offset(s, acting, q)..Offset(s, acting, q + 1)]
  }

  function NewPlayer(s: State, acting: Seat, pool: seq<TileId>, q: Seat): Player
    requires |pool| == |Pool(s, acting)|
  {
    var p := s.players[q];
    if q == acting then p
    else
      var hand := NewHand(s, acting, pool, q);
      var pos := DrawnPos(p.closedHand, p.drawn);
      p.(closedHand := hand, drawn := if pos.Some? then Some(hand[pos.value]) else p.drawn)
  }

  /** Hands and wall filled from the pool in slot order; queued answers are dropped. */
  function DealBack(s: State, acting: Seat, pool: seq<TileId>): State
    requires |pool| == |Pool(s, acting)|
  {
    s.(players := [NewPlayer(s, acting, pool, 0), NewPlayer(s, acting, pool, 1),
                   NewPlayer(s, acting, pool, 2), NewPlayer(s, acting, pool, 3)],
       w := s.w.(tiles := PutTiles(s.w.tiles, WallSlots(s.w), pool[Offset(s, acting, 4)..])),
       queue := map[])
  }

  predicate WindowIsOpen(s: State) {
    s.phase == WaitDiscards && s.activeDiscard.Some?
  }

  /** The menu of a seat after the re-deal: claims recomputed in an open window, nothing otherwise. */
  function FreshOffer(r: Rules, s: State, acting: Seat, q: Seat): Offer {
    if q == acting then s.players[q].offer
    else if !WindowIsOpen(s) || q == s.active then NoOffer
    else ClaimOffer(ClaimsFor(r, s, s.activeDiscard.value, q))
  }

  function RefreshOffers(r: Rules, s: State, acting: Seat): State {
    s.(players := [s.players[0].(offer := FreshOffer(r, s, acting, 0)), s.players[1].(offer := FreshOffer(r, s, acting, 1)),
                   s.players[2].(offer := FreshOffer(r, s, acting, 2)), s.players[3].(offer := FreshOffer(r, s, acting, 3))])
  }

  /** The faces of the other seats' draws are erased from the log. */
  function MaskEvent(e: PublicEvent, acting: Seat): PublicEvent {
    if e.kind == DrawEvent && e.seat != acting then e.(face := -1) else e
  }

  function MaskEvents(events: seq<PublicEvent>, acting: Seat): (r: seq<PublicEvent>)
    ensures |r| == |events| && forall i | 0 <= i < |r| :: r[i] == MaskEvent(events[i], acting)
  {
    seq(|events|, i requires 0 <= i < |events| => MaskEvent(events[i], acting))
  }

  function Finish(r: Rules, s: State, acting: Seat): State {
    var s1 := RefreshOffers(r, s, acting);
    s1.(events := MaskEvents(s.events, acting))
  }

  // ---- Both variants ----

  /** Tiles a concealed hand may hold after automatic reveals. */
  function Eligible(s: State, pool: seq<TileId>): (r: seq<TileId>)
    ensures forall t | t in r :: !Revealable(s, t)
    ensures |r| <= |pool|
  {
    if pool == [] then []
    else (if Revealable(s, pool[0]) then [] else [pool[0]]) + Eligible(s, pool[1..])
  }

  function Flowers(s: State, pool: seq<TileId>): (r: seq<TileId>)
    ensures |r| + |Eligible(s, pool)| == |pool|
    ensures multiset(r) + multiset(Eligible(s, pool)) == multiset(pool)
  {
    if pool == [] then []
    else
      assert pool == [pool[0]] + pool[1..];
      (if Revealable(s, pool[0]) then [pool[0]] else []) + Flowers(s, pool[1..])
  }

  /** The review variant's pool: hands from the playable tiles, the wall from the leftovers shuffled again. */
  function ReviewPool(s: State, pool: seq<TileId>, slots: nat, pick: nat -> nat): (r: seq<TileId>)
    requires slots <= |Eligible(s, pool)|
    ensures |r| == |pool| && multiset(r) == multiset(pool)
  {
    var eligible := Eligible(s, pool);
    var flowers := Flowers(s, pool);
    assert eligible == eligible[..slots] + eligible[slots..];
    eligible[..slots] + Shuffled(eligible[slots..] + flowers, pick)
  }

  function FirstPicks(rng: Rng, n: nat): nat -> nat {
    i => rng.first(n, i)
  }

  function SecondPicks(rng: Rng, n: nat, m: nat): nat -> nat {
    i => rng.second(n, m, i)
  }

  function RedealUnseen(r: Rules, s: State, acting: Seat, rng: Rng): State {
    var pool := Pool(s, acting);
    Finish(r, DealBack(s, acting, Shuffled(pool, FirstPicks(rng, |pool|))), acting)
  }

  /** The unseen tiles in canonical order, shuffled. */
  function ReviewOrder(s: State, acting: Seat, rng: Rng): (pool: seq<TileId>)
    ensures |pool| == |Pool(s, acting)| && multiset(pool) == multiset(Pool(s, acting))
  {
    var sorted := SortById(Pool(s, acting));
    Shuffled(sorted, FirstPicks(rng, |sorted|))
  }

  /** The review variant sorts first and refuses when too few playable tiles are unseen. */
  function RedealUnseenForReview(r: Rules, s: State, acting: Seat, rng: Rng): (State, bool) {
    var pool := ReviewOrder(s, acting, rng);
    var slots := Offset(s, acting, 4);
    if |Eligible(s, pool)| < slots then (s, false)
    else (Finish(r, DealBack(s, acting, ReviewPool(s, pool, slots, SecondPicks(rng, |pool|, |pool| - slots))), acting), true)
  }
}
