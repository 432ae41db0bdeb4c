/** READY between hands: the wall seed of the next hand is set exactly once, just before the last READY. */
module NextRound {
  import opened Hand
  import opened Seeds

  datatype MatchPhase = InHand | HandEnded | MatchEnded

  /** The hand number a derived seed is for; the counter itself is 32 bits wide. */
  function NextHand(handNum: bv32): bv64 {
    handNum as bv64 + 1
  }

  function SeedOfHand(baseSeed: bv64, handNum: bv32): seq<bv32> {
    SeedWords(DeriveHandSeed(baseSeed, NextHand(handNum)))
  }

  lemma NextHandSeparates(g: bv32, h: bv32)
    ensures NextHand(g) == NextHand(h) <==> g == h
  {
  }

  /** The hands that follow two different hand numbers are dealt from different seeds. */
  lemma HandsOfAMatchDiffer(baseSeed: bv64, g: bv32, h: bv32)
    ensures SeedOfHand(baseSeed, g) == SeedOfHand(baseSeed, h) <==> g == h
  {
    hide SeedWords, DeriveHandSeed, NextHand;
    NextHandSeparates(g, h);
    DistinctHandsGetDistinctSeeds(baseSeed, NextHand(g), NextHand(h));
  }

  /** A deal: the number of the hand and the seed it was forced to use, if any. */
  datatype DealRecord = DealRecord(handNum: bv32, seed: Option<seq<bv32>>)

  class Match {
    const chongci: bool
    var phase: MatchPhase
    var playerReady: seq<bool>
    var handNum: bv32
    var wallSeedOverride: Option<seq<bv32>>
    ghost var seedsSet: nat
    ghost var deals: seq<DealRecord>

    /** Between hands four flags wait, and not all are up. */
    ghost predicate Valid()
      reads this
    {
      phase == HandEnded ==> |playerReady| == 4 && exists q: Seat :: !ReadyAt(playerReady, q)
    }

    constructor (chongci: bool)
      ensures this.chongci == chongci && phase == InHand && handNum == 1 && wallSeedOverride == None
      ensures Valid() && seedsSet == 0 && deals == []
    {
      this.chongci := chongci;
      phase, playerReady, handNum, wallSeedOverride := InHand, [], 1, None;
      seedsSet, deals := 0, [];
    }

    /** The end of a hand arms the four flags, or ends the match. */
    method FinalizeRoundEnd(capHit: bool)
      modifies this`phase, this`playerReady
      ensures Valid() && phase == (if capHit then MatchEnded else HandEnded)
      ensures !capHit ==> playerReady == [false, false, false, false]
      ensures capHit ==> playerReady == old(playerReady)
    {
      if capHit {
        phase := MatchEnded;
      } else {
        phase, playerReady := HandEnded, [false, false, false, false];
        assert !ReadyAt(playerReady, 0);
      }
    }

    method SetWallSeed(seed: seq<bv32>)
      modifies this`wallSeedOverride, this`seedsSet
      ensures wallSeedOverride == Some(seed) && seedsSet == old(seedsSet) + 1
    {
      wallSeedOverride := Some(seed);
      seedsSet := seedsSet + 1;
    }

    /** The deal consumes a forced seed. */
    method StartNextRound()
      modifies this
      ensures phase == InHand && playerReady == [] && handNum == old(handNum) + 1 && wallSeedOverride == None
      ensures seedsSet == old(seedsSet) && deals == old(deals) + [DealRecord(handNum, old(wallSeedOverride))]
    {
      handNum := handNum + 1;
      playerReady := [];
      deals := deals + [DealRecord(handNum, wallSeedOverride)];
      wallSeedOverride := None;
      phase := InHand;
    }

    method AllReady() returns (all: bool)
      ensures all <==> forall i: nat | i < |playerReady| :: ReadyAt(playerReady, i)
    {
      all := true;
      for i := 0 to |playerReady|
        invariant all <==> forall j: nat | j < i :: ReadyAt(playerReady, j)
      {
        assert ReadyAt(playerReady, i) == playerReady[i];
        if !playerReady[i] {
          all := false;
        }
      }
    }

    method HandleReadyAction(seat: Seat) returns (ok: bool)
      requires Valid()
      modifies this
      ensures Valid() && ok == (old(phase) != MatchEnded && seat < |old(playerReady)|)
      ensures !ok || old(playerReady)[seat] ==> Unchanged(old(phase), old(playerReady), old(handNum), old(wallSeedOverride), old(seedsSet), old(deals))
      ensures ok && !old(playerReady)[seat] && old(phase) == HandEnded ==>
                if OthersReady(old(playerReady), seat) then
                  phase == InHand && handNum == old(handNum) + 1 && wallSeedOverride == None && seedsSet == old(seedsSet)
                  && deals == old(deals) + [DealRecord(handNum, old(wallSeedOverride))]
                else Unchanged(HandEnded, old(playerReady)[seat := true], old(handNum), old(wallSeedOverride), old(seedsSet), old(deals))
    {
      if phase == MatchEnded || seat >= |playerReady| {
        return false;
      }
      if playerReady[seat] {
        return true;
      }
      OneMoreReady(playerReady, seat);
      hide ReadyAt, OthersReady;
      playerReady := playerReady[seat := true];
      var all := AllReady();
      if all {
        StartNextRound();
      }
      return true;
    }

    static lemma OneMoreReady(ready: seq<bool>, seat: Seat)
      requires seat < |ready|
      ensures var ready' := ready[seat := true];
              |ready| == 4 ==>
                && ((forall i: nat | i < |ready'| :: ReadyAt(ready', i)) <==> OthersReady(ready, seat))
                && (!OthersReady(ready, seat) ==> exists q: Seat :: !ReadyAt(ready', q))
    {
      var ready' := ready[seat := true];
      assert forall i: nat | i < |ready| :: ReadyAt(ready', i) <==> i == seat || ReadyAt(ready, i);
      if |ready| == 4 && !OthersReady(ready, seat) {
        var q: Seat :| q != seat && !ReadyAt(ready, q);
        assert !ReadyAt(ready', q);
      } else if |ready| == 4 {
        forall i: nat | i < 4 ensures ReadyAt(ready', i) {
          var q: Seat := i;
          assert q != seat ==> ReadyAt(ready, q);
        }
      }
    }

    ghost predicate Unchanged(p: MatchPhase, ready: seq<bool>, h: bv32, seed: Option<seq<bv32>>, n: nat, ds: seq<DealRecord>)
      reads this
    {
      phase == p && playerReady == ready && handNum == h && wallSeedOverride == seed && seedsSet == n && deals == ds
    }

    static predicate ReadyAt(ready: seq<bool>, q: nat) {
      q < |ready| && ready[q]
    }

    static predicate OthersReady(ready: seq<bool>, seat: Seat) {
      forall q: Seat | q != seat :: ReadyAt(ready, q)
    }

    method IsFinalReadyBeforeNextRound(seat: Seat) returns (last: bool)
      ensures last <==> chongci && OthersReady(playerReady, seat)
    {
      if !chongci {
        return false;
      }
      for other := 0 to 4
        invariant forall q: Seat | q < other && q != seat :: ReadyAt(playerReady, q)
      {
        if other != seat && (|playerReady| <= other || !playerReady[other]) {
          assert !ReadyAt(playerReady, other);
          return false;
        }
        assert other != seat ==> ReadyAt(playerReady, other);
      }
      return true;
    }

    ghost predicate NextDealt(baseSeed: bv64, h: bv32, seed: Option<seq<bv32>>, n: nat, ds: seq<DealRecord>)
      reads this
    {
      && phase == InHand && handNum == h + 1
      && seedsSet == n + (if chongci then 1 else 0)
      && deals == ds + [DealRecord(handNum, if chongci then Some(SeedOfHand(baseSeed, h)) else seed)]
    }

    method DerivedSeed(baseSeed: bv64) returns (words: seq<bv32>)
      ensures words == SeedOfHand(baseSeed, handNum)
    {
      hide SeedWords, DeriveHandSeed, NextHand;
      var seed := SeedFromUint64(DeriveHandSeed(baseSeed, NextHand(handNum)));
      words := seed[..];
    }

    /** One seat's READY, if it is still missing; before the last one the seed is set. */
    method ReadySeat(seat: Seat, baseSeed: bv64)
      requires Valid() && phase == HandEnded
      modifies this
      ensures Valid()
      ensures if OthersReady(old(playerReady), seat)
              then NextDealt(baseSeed, old(handNum), old(wallSeedOverride), old(seedsSet), old(deals))
              else Unchanged(HandEnded, old(playerReady)[seat := true], old(handNum), old(wallSeedOverride), old(seedsSet), old(deals))
    {
      hide SeedOfHand;
      assert playerReady[seat] ==> ReadyAt(playerReady, seat);
      if playerReady[seat] {
        return;
      }
      var last := IsFinalReadyBeforeNextRound(seat);
      if last {
        var seed := DerivedSeed(baseSeed);
        SetWallSeed(seed);
      }
      var _ := HandleReadyAction(seat);
    }

    /** All missing READYs at once. In a chongci match the next hand is dealt from the seed derived for it, set once;
        otherwise no seed is set. Outside the pause between hands nothing happens. */
    method ReadyAllPlayersForNextRound(baseSeed: bv64)
      requires Valid()
      modifies this
      ensures Valid()
      ensures old(phase) != HandEnded ==> Unchanged(old(phase), old(playerReady), old(handNum), old(wallSeedOverride), old(seedsSet), old(deals))
      ensures old(phase) == HandEnded ==> NextDealt(baseSeed, old(handNum), old(wallSeedOverride), old(seedsSet), old(deals))
    {
      hide SeedOfHand, OthersReady;
      ghost var ready := playerReady;
      var seat := 0;
      while seat < 4
        invariant 0 <= seat <= 4 && Valid()
        invariant old(phase) != HandEnded ==> Unchanged(old(phase), old(playerReady), old(handNum), old(wallSeedOverride), old(seedsSet), old(deals))
        invariant old(phase) == HandEnded ==>
                    || NextDealt(baseSeed, old(handNum), old(wallSeedOverride), old(seedsSet), old(deals))
                    || (Unchanged(HandEnded, ready, old(handNum), old(wallSeedOverride), old(seedsSet), old(deals))
                        && forall q: Seat | q < seat :: ready[q])
      {
        if phase != HandEnded {
          return;
        }
        ready := ready[seat := true];
        ReadySeat(seat, baseSeed);
        seat := seat + 1;
      }
    }
  }
}
