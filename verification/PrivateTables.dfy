/** The waiting room of a private table: who sits where while it is being set up. */
module PrivateTables {
  import opened Hand

  datatype Difficulty = Easy | Medium | Hard | Rl

  datatype SeatConfig =
    | Unset
    | Empty
    | Human(user: nat, name: string)
    | Bot(difficulty: Difficulty, agent: string)

  /** What a host asks a seat to become. */
  datatype SeatKind = ToEmpty | ToBot | Unsupported

  type Seats = s: seq<SeatConfig> | |s| == 4 witness [Unset, Unset, Unset, Unset]

  predicate Vacant(c: SeatConfig) {
    c.Unset? || c.Empty?
  }

  predicate Seated(seats: Seats, user: nat, q: nat)
    requires q < 4
  {
    seats[q].Human? && seats[q].user == user
  }

  /** No user holds two seats. */
  ghost predicate OneSeatEach(seats: Seats) {
    forall p: Seat, q: Seat | p < q && seats[p].Human? && seats[q].Human? :: seats[p].user != seats[q].user
  }

  /** The first seat from q on with the property, if any. */
  function FirstHeldBy(seats: Seats, user: nat, q: nat): (r: Option<Seat>)
    requires q <= 4
    ensures r.Some? ==> q <= r.value && Seated(seats, user, r.value)
    ensures r.None? ==> forall p: Seat | q <= p :: !Seated(seats, user, p)
    decreases 4 - q
  {
    if q == 4 then None else if Seated(seats, user, q) then Some(q) else FirstHeldBy(seats, user, q + 1)
  }

  function FirstVacant(seats: Seats, q: nat): (r: Option<Seat>)
    requires q <= 4
    ensures r.Some? ==> q <= r.value && Vacant(seats[r.value]) && forall p: Seat | q <= p < r.value :: !Vacant(seats[p])
    ensures r.None? ==> forall p: Seat | q <= p :: !Vacant(seats[p])
    decreases 4 - q
  {
    if q == 4 then None else if Vacant(seats[q]) then Some(q) else FirstVacant(seats, q + 1)
  }

  /** Taking a seat: the one already held, else the lowest vacant one, else none. */
  function Claimed(seats: Seats, user: nat, name: string): (Seats, Option<Seat>) {
    var held := FirstHeldBy(seats, user, 0);
    if held.Some? then (seats, held)
    else
      var free := FirstVacant(seats, 0);
      if free.None? then (seats, None) else (seats[free.value := Human(user, name)], free)
  }

  function SeatSet(seats: Seats, seat: nat, kind: SeatKind, difficulty: Difficulty, agent: string): (Seats, bool) {
    if seat > 3 || seats[seat].Human? || kind == Unsupported then (seats, false)
    else if kind == ToEmpty then (seats[seat := Empty], true)
    else (seats[seat := Bot(difficulty, if difficulty == Rl then agent else "")], true)
  }

  function Normalized(seats: Seats): (r: Seats)
    ensures forall q: Seat :: r[q] == if seats[q].Unset? then Empty else seats[q]
  {
    [if seats[0].Unset? then Empty else seats[0], if seats[1].Unset? then Empty else seats[1],
     if seats[2].Unset? then Empty else seats[2], if seats[3].Unset? then Empty else seats[3]]
  }

  predicate Full(seats: Seats) {
    forall q: Seat :: !Vacant(seats[q])
  }

  /** Claims and host changes keep one seat per user and never take a seat from a human. A claim gives the seat already held,
      else the lowest vacant one, and claiming again changes nothing; a host change is made unless a human sits there or the
      kind is unknown, and only a learned bot keeps an agent. */
  lemma SeatingIsSafe(seats: Seats, user: nat, name: string, seat: nat, kind: SeatKind, difficulty: Difficulty, agent: string)
    requires OneSeatEach(seats)
    ensures var (after, got) := Claimed(seats, user, name);
            && OneSeatEach(after) && (got.Some? <==> exists q: Seat :: Seated(after, user, q))
            && (got.Some? ==> Seated(after, user, got.value))
            && (forall q: Seat | seats[q].Human? :: after[q] == seats[q])
            && (got.Some? ==> Claimed(after, user, name) == (after, got))
            && (if exists q: Seat :: Seated(seats, user, q) then got.Some? && after == seats
                else if Full(seats) then got.None? && after == seats
                else got.Some? && after == seats[got.value := Human(user, name)]
                     && Vacant(seats[got.value]) && forall q: Seat | q < got.value :: !Vacant(seats[q]))
    ensures var (after, ok) := SeatSet(seats, seat, kind, difficulty, agent);
            && OneSeatEach(after) && (forall q: Seat | seats[q].Human? || q != seat :: after[q] == seats[q])
            && (ok <==> seat < 4 && !seats[seat].Human? && kind != Unsupported)
            && (ok ==> after[seat] == if kind == ToEmpty then Empty else Bot(difficulty, if difficulty == Rl then agent else ""))
            && (!ok ==> after == seats)
  {
    var (after, got) := Claimed(seats, user, name);
    if got.Some? {
      assert FirstHeldBy(after, user, 0) == got by {
        HeldOnce(after, user, got.value, 0);
      }
    }
  }

  lemma {:induction false} HeldOnce(seats: Seats, user: nat, seat: Seat, q: nat)
    requires OneSeatEach(seats) && Seated(seats, user, seat) && q <= seat
    ensures FirstHeldBy(seats, user, q) == Some(seat)
    decreases 4 - q
  {
    if q < seat {
      HeldOnce(seats, user, seat, q + 1);
    }
  }

  class PrivateTable {
    const seats: array<SeatConfig>

    ghost predicate Valid()
      reads this
    {
      seats.Length == 4
    }

    constructor ()
      ensures Valid() && fresh(seats) && seats[..] == [Unset, Unset, Unset, Unset]
    {
      seats := new SeatConfig[4](_ => Unset);
    }

    method ClaimNextHumanSeat(user: nat, name: string) returns (seat: Option<Seat>)
      requires Valid()
      modifies seats
      ensures (seats[..], seat) == Claimed(old(seats[..]), user, name)
    {
      ghost var before := seats[..];
      for i := 0 to 4
        invariant FirstHeldBy(before, user, i) == FirstHeldBy(before, user, 0)
        invariant seats[..] == before
      {
        if seats[i].Human? && seats[i].user == user {
          return Some(i);
        }
      }
      for i := 0 to 4
        invariant FirstVacant(before, i) == FirstVacant(before, 0)
        invariant seats[..] == before
      {
        if seats[i].Unset? || seats[i].Empty? {
          seats[i] := Human(user, name);
          return Some(i);
        }
      }
      return None;
    }

    method SetSeat(seat: nat, kind: SeatKind, difficulty: Difficulty, agent: string) returns (ok: bool)
      requires Valid()
      modifies seats
      ensures (seats[..], ok) == SeatSet(old(seats[..]), seat, kind, difficulty, agent)
    {
      if seat > 3 {
        return false;
      }
      if seats[seat].Human? {
        return false;
      }
      match kind
      case ToEmpty =>
        seats[seat] := Empty;
        return true;
      case ToBot =>
        seats[seat] := Bot(difficulty, if difficulty != Rl then "" else agent);
        return true;
      case Unsupported =>
        return false;
    }

    method CanStart() returns (ok: bool)
      requires Valid()
      ensures ok == Full(seats[..])
    {
      for i := 0 to 4
        invariant forall q: Seat | q < i :: !Vacant(seats[q])
      {
        if seats[i].Unset? || seats[i].Empty? {
          return false;
        }
      }
      return true;
    }

    method Normalize()
      requires Valid()
      modifies seats
      ensures seats[..] == Normalized(old(seats[..]))
    {
      ghost var before := seats[..];
      for i := 0 to 4
        invariant forall q: Seat | q < i :: seats[q] == if before[q].Unset? then Empty else before[q]
        invariant forall q: Seat | q >= i :: seats[q] == before[q]
      {
        if seats[i].Unset? {
          seats[i] := Empty;
        }
      }
    }
  }
}
