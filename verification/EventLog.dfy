/** The configured history window against the events a hand can log. */
module EventLog {
  import opened Tiles
  import opened Hand
  import opened HandSteps
  import opened HandRuns
  import opened Events

  /** At the largest window a hand is never truncated: an observer's history has every event logged so far, in order. */
  lemma WindowNeverTruncates(r: Rules, wall: seq<TileId>, diceSum: nat, states: seq<State>, inputs: seq<Input>, i: nat, observer: Seat)
    requires PlayedHand(r, wall, diceSum, states, inputs) && i < |states|
    ensures var out := History(states[i].events, observer, MAX_WINDOW);
            |out| == |states[i].events| && forall k | 0 <= k < |out| :: out[k] == PackEvent(states[i].events[k], observer)
  {
    hide PlayedHand, PackEvent;
    HandsAreFinite(r, wall, diceSum, states, inputs);
  }
}
