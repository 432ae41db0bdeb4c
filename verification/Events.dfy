/** The public event log as one observer sees it: packing, masking and the history window. */
module Events {
  import opened Tiles
  import opened Hand

  const FACE_UNKNOWN := 63
  const MAX_WINDOW := 512

  function RelativeSeat(observer: Seat, seat: int): (rel: int)
    requires 0 <= seat < 4
    ensures 0 <= rel < 4 && (observer + rel) % 4 == seat
  {
    (seat + 4 - observer) % 4
  }

  function KindCode(k: EventKind): (code: nat)
    ensures code < 8
  {
    match k
    case DrawEvent => 0
    case DiscardEvent => 1
    case ChiiEvent => 2
    case PonEvent => 3
    case KanOpenEvent => 4
    case KanClosedEvent => 5
    case KanUpgradeEvent => 6
    case FlowerEvent => 7
  }

  /** The face an observer may see: never that of another seat's draw. */
  function VisibleFace(e: PublicEvent, observer: Seat): (face: int)
    ensures 0 <= face < 64
  {
    if e.kind == DrawEvent && e.seat != observer then FACE_UNKNOWN
    else if e.face >= 0 then e.face
    else FACE_UNKNOWN
  }

  /** The packed word: kind in bits 0-3, seat in 4-5, face in 6-11, from-seat in 12-13, the two flags above. */
  function PackEvent(e: PublicEvent, observer: Seat): (word: nat)
    ensures word < 0x1_0000
  {
    KindCode(e.kind)
    + 16 * RelativeSeat(observer, e.seat)
    + 64 * VisibleFace(e, observer)
    + 4096 * (if e.fromSeat >= 0 then RelativeSeat(observer, e.fromSeat) else 0)
    + 16384 * (if e.tsumogiri then 1 else 0)
    + 32768 * (if e.haitei then 1 else 0)
  }

  /** Two events pack alike for an observer exactly when they agree on everything that observer may see. A missing
      from-seat reads like the observer's own, which never occurs together with one on an equal call. */
  lemma PackSeparatesVisible(a: PublicEvent, b: PublicEvent, observer: Seat)
    ensures PackEvent(a, observer) == PackEvent(b, observer) <==>
      && a.kind == b.kind && a.seat == b.seat && VisibleFace(a, observer) == VisibleFace(b, observer)
      && FromOrSelf(a, observer) == FromOrSelf(b, observer)
      && a.tsumogiri == b.tsumogiri && a.haitei == b.haitei
  {
    hide KindCode, RelativeSeat, VisibleFace, FromOrSelf, PackEvent;
    SeatsSeparate(observer, a.seat, b.seat);
    SeatsSeparate(observer, FromOrSelf(a, observer), FromOrSelf(b, observer));
    KindsSeparate(a.kind, b.kind);
    PackAsDigits(a, observer);
    PackAsDigits(b, observer);
    if PackEvent(a, observer) == PackEvent(b, observer) {
      Digits(KindCode(a.kind), RelativeSeat(observer, a.seat), VisibleFace(a, observer), RelativeSeat(observer, FromOrSelf(a, observer)),
             Bit(a.tsumogiri), Bit(a.haitei),
             KindCode(b.kind), RelativeSeat(observer, b.seat), VisibleFace(b, observer), RelativeSeat(observer, FromOrSelf(b, observer)),
             Bit(b.tsumogiri), Bit(b.haitei));
    }
  }

  /** The kinds in the order of their wire numbers. */
  const KINDS := [DrawEvent, DiscardEvent, ChiiEvent, PonEvent, KanOpenEvent, KanClosedEvent, KanUpgradeEvent, FlowerEvent]

  predicate IsKind(k: EventKind, code: int) {
    0 <= code < 8 && KINDS[code] == k
  }

  lemma KindIs(k: EventKind)
    ensures IsKind(k, KindCode(k))
  {
  }

  /** Where each part lies in the word. */
  lemma PackLayout(e: PublicEvent, observer: Seat)
    ensures var word := PackEvent(e, observer);
            && IsKind(e.kind, word % 16)
            && (observer + word / 16 % 4) % 4 == e.seat
            && word / 64 % 64 == (if e.face >= 0 && (e.kind == DrawEvent ==> e.seat == observer) then e.face else 63)
            && (e.fromSeat >= 0 ==> (observer + word / 4096 % 4) % 4 == e.fromSeat)
            && (word / 16384 % 2 == 1 <==> e.tsumogiri) && (word / 32768 == 1 <==> e.haitei)
  {
    KindIs(e.kind);
    hide RelativeSeat, KindCode, PackEvent, IsKind;
    PackAsDigits(e, observer);
    ReadDigits(KindCode(e.kind), RelativeSeat(observer, e.seat), VisibleFace(e, observer), RelativeSeat(observer, FromOrSelf(e, observer)),
               Bit(e.tsumogiri), Bit(e.haitei));
  }

  lemma ReadDigits(k: int, s: int, f: int, r: int, t: int, h: int)
    requires 0 <= k < 16 && 0 <= s < 4 && 0 <= f < 64 && 0 <= r < 4 && 0 <= t < 2 && 0 <= h < 2
    ensures var w := k + 16 * s + 64 * f + 4096 * r + 16384 * t + 32768 * h;
            w % 16 == k && w / 16 % 4 == s && w / 64 % 64 == f && w / 4096 % 4 == r && w / 16384 % 2 == t && w / 32768 == h
  {
    var w := k + 16 * s + 64 * f + 4096 * r + 16384 * t + 32768 * h;
    assert w / 16 == s + 4 * f + 256 * r + 1024 * t + 2048 * h;
    assert w / 64 == f + 64 * r + 256 * t + 512 * h;
    assert w / 4096 == r + 4 * t + 8 * h;
    assert w / 16384 == t + 2 * h;
  }

  function Bit(b: bool): nat {
    if b then 1 else 0
  }

  lemma PackAsDigits(e: PublicEvent, observer: Seat)
    ensures PackEvent(e, observer)
         == KindCode(e.kind) + 16 * RelativeSeat(observer, e.seat) + 64 * VisibleFace(e, observer)
            + 4096 * RelativeSeat(observer, FromOrSelf(e, observer)) + 16384 * Bit(e.tsumogiri) + 32768 * Bit(e.haitei)
  {
    SelfIsZero(observer);
  }

  function FromOrSelf(e: PublicEvent, observer: Seat): Seat {
    if e.fromSeat >= 0 then e.fromSeat else observer
  }

  lemma SelfIsZero(observer: Seat)
    ensures RelativeSeat(observer, observer) == 0
  {
  }

  lemma SeatsSeparate(observer: Seat, a: Seat, b: Seat)
    ensures RelativeSeat(observer, a) == RelativeSeat(observer, b) <==> a == b
  {
  }

  lemma KindsSeparate(a: EventKind, b: EventKind)
    ensures KindCode(a) == KindCode(b) <==> a == b
  {
  }

  /** Fields that do not overlap can be read back from their sum. */
  lemma Digits(k: int, s: int, f: int, r: int, t: int, h: int, k': int, s': int, f': int, r': int, t': int, h': int)
    requires 0 <= k < 16 && 0 <= s < 4 && 0 <= f < 64 && 0 <= r < 4 && 0 <= t < 2 && 0 <= h < 2
    requires 0 <= k' < 16 && 0 <= s' < 4 && 0 <= f' < 64 && 0 <= r' < 4 && 0 <= t' < 2 && 0 <= h' < 2
    requires k + 16 * s + 64 * f + 4096 * r + 16384 * t + 32768 * h == k' + 16 * s' + 64 * f' + 4096 * r' + 16384 * t' + 32768 * h'
    ensures k == k' && s == s' && f == f' && r == r' && t == t' && h == h'
  {
  }

  /** The newest window events of the log, packed for an observer, oldest first. */
  function History(events: seq<PublicEvent>, observer: Seat, window: nat): (out: seq<int>)
    ensures |out| == if |events| <= window then |events| else window
    ensures forall i | 0 <= i < |out| :: out[i] == PackEvent(events[|events| - |out| + i], observer)
  {
    var start := if |events| > window then |events| - window else 0;
    seq(|events| - start, i requires 0 <= i < |events| - start => PackEvent(events[start + i], observer))
  }

  method RenderEventHistory(events: seq<PublicEvent>, observer: Seat, window: nat) returns (out: seq<int>)
    ensures out == History(events, observer, window)
  {
    out := [];
    if window == 0 || |events| == 0 {
      return;
    }
    var start := 0;
    if |events| > window {
      start := |events| - window;
    }
    for i := start to |events|
      invariant |out| == i - start
      invariant forall j | 0 <= j < |out| :: out[j] == PackEvent(events[start + j], observer)
    {
      out := out + [PackEvent(events[i], observer)];
    }
  }
}
