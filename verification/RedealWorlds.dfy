/** Every world the acting seat cannot rule out is the outcome of some re-deal. */
module RedealWorlds {
  import opened Tiles
  import opened Hand
  import opened HandInvariant
  import opened HandSteps
  import opened Swaps
  import opened Redeal
  import opened RedealView

  function PickOf(picks: seq<nat>): nat -> nat {
    (i: nat) => if i < |picks| then picks[i] else 0
  }

  lemma {:induction false} SamePicksSameOrder(pool: seq<TileId>, p: nat -> nat, p': nat -> nat, i: nat)
    requires i < |pool| && forall k: nat | k <= i :: Below(p', k) == Below(p, k)
    ensures ShuffleFrom(pool, p', i) == ShuffleFrom(pool, p, i)
    decreases i
  {
    hide Below, Swap;
    if i > 0 {
      SamePicksSameOrder(Swap(pool, i, Below(p, i)), p, p', i - 1);
    }
  }

  lemma BelowIs(picks: seq<nat>, i: nat)
    requires i < |picks| && picks[i] <= i
    ensures Below(PickOf(picks), i) == picks[i]
  {
  }

  lemma BelowSame(picks: seq<nat>, picks': seq<nat>, k: nat)
    requires k < |picks| && k < |picks'| && picks[k] == picks'[k]
    ensures Below(PickOf(picks), k) == Below(PickOf(picks'), k)
  {
  }

  lemma SwapInto(ts: seq<TileId>, i: nat, j: nat)
    requires j <= i < |ts|
    ensures Swap(ts, i, j)[i] == ts[j] && Swap(ts, i, j)[i + 1..] == ts[i + 1..]
  {
  }

  /** Among the positions not settled yet there is one that holds the tile wanted at i. */
  lemma Unsettled(ts: seq<TileId>, t: seq<TileId>, i: nat) returns (j: nat)
    requires multiset(ts) == multiset(t) && i < |t| == |ts| && ts[i + 1..] == t[i + 1..]
    ensures j <= i && ts[j] == t[i]
  {
    assert ts == ts[..i + 1] + ts[i + 1..] && t == t[..i + 1] + t[i + 1..];
    var front, front' := multiset(ts[..i + 1]), multiset(t[..i + 1]);
    assert front == (front + multiset(ts[i + 1..])) - multiset(ts[i + 1..]);
    assert front' == (front' + multiset(t[i + 1..])) - multiset(t[i + 1..]);
    assert t[..i + 1][i] in front;
    j :| 0 <= j < i + 1 && ts[..i + 1][j] == t[i];
  }

  /** Choices that bring the tiles up to i into the order wanted. */
  lemma {:induction false} PicksFor(ts: seq<TileId>, t: seq<TileId>, i: nat) returns (picks: seq<nat>)
    requires multiset(ts) == multiset(t) && i < |t| == |ts| && ts[i + 1..] == t[i + 1..]
    ensures |picks| == i + 1 && ShuffleFrom(ts, PickOf(picks), i) == t
    decreases i
  {
    hide Below, Swap;
    var j := Unsettled(ts, t, i);
    if i == 0 {
      assert ts == [ts[0]] + ts[1..] && t == [t[0]] + t[1..];
      picks := [0];
    } else {
      var ts' := Swap(ts, i, j);
      SwapInto(ts, i, j);
      assert ts'[i..] == [ts'[i]] + ts'[i + 1..] && t[i..] == [t[i]] + t[i + 1..];
      var rest := PicksFor(ts', t, i - 1);
      picks := rest + [j];
      BelowIs(picks, i);
      forall k: nat | k <= i - 1 ensures Below(PickOf(picks), k) == Below(PickOf(rest), k) {
        BelowSame(picks, rest, k);
      }
      SamePicksSameOrder(ts', PickOf(rest), PickOf(picks), i - 1);
    }
  }

  lemma EveryOrderComesUp(ts: seq<TileId>, t: seq<TileId>) returns (picks: seq<nat>)
    requires multiset(ts) == multiset(t)
    ensures Shuffled(ts, PickOf(picks)) == t
  {
    assert |multiset(ts)| == |ts| && |multiset(t)| == |t|;
    hide ShuffleFrom;
    if ts == [] {
      picks := [];
    } else {
      assert ts[|ts| - 1 + 1..] == [] == t[|ts| - 1 + 1..];
      picks := PicksFor(ts, t, |ts| - 1);
    }
  }

  /** The search re-deal can give the unseen slots any arrangement of the unseen tiles. */
  lemma EveryWorldComesUp(r: Rules, s: State, acting: Seat, world: seq<TileId>)
    requires multiset(world) == multiset(Pool(s, acting))
    ensures exists rng :: Pool(RedealUnseen(r, s, acting, rng), acting) == world
  {
    hide Pool, Shuffled, DealBack, Finish;
    assert |multiset(world)| == |world| && |multiset(Pool(s, acting))| == |Pool(s, acting)|;
    var picks := EveryOrderComesUp(Pool(s, acting), world);
    var rng := Rng((n, i) => PickOf(picks)(i), (n, m, i) => 0);
    FirstPicksAre(rng, |world|, picks);
    SamePicks(Pool(s, acting), FirstPicks(rng, |world|), PickOf(picks));
    DealtPoolIsThere(s, acting, world);
    FinishKeepsPool(r, DealBack(s, acting, world), acting);
    assert Pool(RedealUnseen(r, s, acting, rng), acting) == world;
  }

  lemma FirstPicksAre(rng: Rng, n: nat, picks: seq<nat>)
    requires forall i: nat :: rng.first(n, i) == PickOf(picks)(i)
    ensures forall i: nat :: FirstPicks(rng, n)(i) == PickOf(picks)(i)
  {
  }

  lemma SecondPicksAre(rng: Rng, n: nat, m: nat, picks: seq<nat>)
    requires forall i: nat :: rng.second(n, m, i) == PickOf(picks)(i)
    ensures forall i: nat :: SecondPicks(rng, n, m)(i) == PickOf(picks)(i)
  {
  }

  lemma SamePicks(ts: seq<TileId>, p: nat -> nat, p': nat -> nat)
    requires forall i: nat :: p(i) == p'(i)
    ensures Shuffled(ts, p) == Shuffled(ts, p')
  {
    if ts != [] {
      SamePicksSameOrder(ts, p, p', |ts| - 1);
    }
  }

  lemma {:induction false} PlayableFirst(s: State, world: seq<TileId>, slots: nat)
    requires slots <= |world| && forall k | 0 <= k < slots :: !Revealable(s, world[k])
    ensures |Eligible(s, world)| >= slots && Eligible(s, world)[..slots] == world[..slots]
    decreases slots
  {
    hide Revealable;
    if slots > 0 {
      assert forall k | 0 <= k < slots - 1 :: world[1..][k] == world[k + 1];
      PlayableFirst(s, world[1..], slots - 1);
      assert world[..slots] == [world[0]] + world[1..][..slots - 1];
    }
  }

  /** The review re-deal can give them any arrangement in which no opponent holds a flower it would have revealed. */
  lemma EveryPlayableWorldComesUp(r: Rules, s: State, acting: Seat, world: seq<TileId>)
    requires multiset(world) == multiset(Pool(s, acting)) && |world| == |Pool(s, acting)|
    requires forall k | 0 <= k < Offset(s, acting, 4) :: !Revealable(s, world[k])
    ensures exists rng ::
              RedealUnseenForReview(r, s, acting, rng).1 && Pool(RedealUnseenForReview(r, s, acting, rng).0, acting) == world
  {
    hide Pool, Shuffled, DealBack, Finish, Eligible, Flowers, SortById, Revealable, Offset;
    var slots := Offset(s, acting, 4);
    var first := EveryOrderComesUp(SortById(Pool(s, acting)), world);
    PlayableFirst(s, world, slots);
    var eligible, flowers := Eligible(s, world), Flowers(s, world);
    LeftoversMatch(eligible, flowers, world, slots);
    var second := EveryOrderComesUp(eligible[slots..] + flowers, world[slots..]);
    var rng := Rng((n, i) => PickOf(first)(i), (n, m, i) => PickOf(second)(i));
    FirstPicksAre(rng, |world|, first);
    SamePicks(SortById(Pool(s, acting)), FirstPicks(rng, |world|), PickOf(first));
    SecondPicksAre(rng, |world|, |world| - slots, second);
    SamePicks(eligible[slots..] + flowers, SecondPicks(rng, |world|, |world| - slots), PickOf(second));
    assert world == world[..slots] + world[slots..];
    assert ReviewOrder(s, acting, rng) == world;
    assert ReviewPool(s, world, slots, SecondPicks(rng, |world|, |world| - slots)) == world;
    DealtPoolIsThere(s, acting, world);
    FinishKeepsPool(r, DealBack(s, acting, world), acting);
    assert RedealUnseenForReview(r, s, acting, rng).1 && Pool(RedealUnseenForReview(r, s, acting, rng).0, acting) == world;
  }

  lemma LeftoversMatch(eligible: seq<TileId>, flowers: seq<TileId>, world: seq<TileId>, slots: nat)
    requires slots <= |eligible| && slots <= |world| && eligible[..slots] == world[..slots]
    requires multiset(flowers) + multiset(eligible) == multiset(world)
    ensures multiset(eligible[slots..] + flowers) == multiset(world[slots..])
  {
    assert eligible == eligible[..slots] + eligible[slots..] && world == world[..slots] + world[slots..];
    var front, rest := multiset(world[..slots]), multiset(eligible[slots..] + flowers);
    assert front + rest == front + multiset(world[slots..]);
    assert rest == (front + rest) - front;
  }
}
