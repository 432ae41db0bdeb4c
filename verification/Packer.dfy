/** Packing observation rows: parallel workers writing at offsets into reused buffers, against one append after another. */
module Packer {
  type Byte = b: int | 0 <= b < 256
  type Word = w: int | 0 <= w < 0x1_0000_0000

  /** One observation; floats are their 32-bit patterns. */
  datatype Observation = Observation(
    channels: Word,
    height: Word,
    width: Word,
    actionSpace: Word,
    window: nat,
    planes: seq<Word>,
    scalars: seq<Word>,
    mask: seq<Byte>,
    events: seq<Word>)

  datatype Header = Header(channels: Word, height: Word, width: Word, scalarCount: nat, actionSpace: Word, window: nat)

  datatype Response = Response(
    header: Header,
    planes: seq<Byte>,
    scalars: seq<Byte>,
    masks: seq<Byte>,
    counts: seq<Byte>,
    events: seq<Byte>)

  const EMPTY := Response(Header(0, 0, 0, 0, 0, 0), [], [], [], [], [])

  function Le32(w: Word): (bytes: seq<Byte>)
    ensures |bytes| == 4
  {
    [w % 256, w / 256 % 256, w / 256 / 256 % 256, w / 256 / 256 / 256]
  }

  lemma Le32Separates(v: Word, w: Word)
    ensures Le32(v) == Le32(w) <==> v == w
  {
    if Le32(v) == Le32(w) {
      assert v / 256 / 256 / 256 == Le32(v)[3] == Le32(w)[3] == w / 256 / 256 / 256;
      assert v / 256 / 256 % 256 == Le32(v)[2] == Le32(w)[2] == w / 256 / 256 % 256;
      assert v / 256 % 256 == Le32(v)[1] == Le32(w)[1] == w / 256 % 256;
      assert v % 256 == Le32(v)[0] == Le32(w)[0] == w % 256;
    }
  }

  function WordsLe(ws: seq<Word>): (bytes: seq<Byte>)
    ensures |bytes| == 4 * |ws|
    decreases |ws|
  {
    if ws == [] then [] else WordsLe(ws[..|ws| - 1]) + Le32(ws[|ws| - 1])
  }

  function Zeros(n: nat): (bytes: seq<Byte>)
    ensures |bytes| == n && forall i | 0 <= i < n :: bytes[i] == 0
  {
    seq(n, _ => 0)
  }

  // ---- The simple form: append row after row ----

  function HeaderOf(o: Observation): Header {
    Header(o.channels, o.height, o.width, |o.scalars|, o.actionSpace, o.window)
  }

  /** A row of the event buffer: the events, padded with zeros up to the window. */
  function EventRow(events: seq<Word>, window: nat): seq<Byte> {
    WordsLe(events) + Zeros(if window > |events| then 4 * (window - |events|) else 0)
  }

  function CountOf(o: Observation): Word {
    |o.events| % 0x1_0000_0000
  }

  function AppendObservationRow(r: Response, o: Observation): Response {
    var header := if r.header.channels == 0 then HeaderOf(o) else r.header;
    Response(header,
             r.planes + WordsLe(o.planes), r.scalars + WordsLe(o.scalars), r.masks + o.mask,
             if header.window > 0 then r.counts + Le32(CountOf(o)) else r.counts,
             if header.window > 0 then r.events + EventRow(o.events, header.window) else r.events)
  }

  function AppendAll(rows: seq<Observation>): Response
    decreases |rows|
  {
    if rows == [] then EMPTY else AppendObservationRow(AppendAll(rows[..|rows| - 1]), rows[|rows| - 1])
  }

  // ---- Chunks, one per row and buffer ----

  type Chunks = seq<seq<Byte>>

  function Flat(chunks: Chunks): (bytes: seq<Byte>)
    decreases |chunks|
  {
    if chunks == [] then [] else Flat(chunks[..|chunks| - 1]) + chunks[|chunks| - 1]
  }

  function PlaneChunks(rows: seq<Observation>): (c: Chunks)
    ensures |c| == |rows|
  {
    seq(|rows|, i requires 0 <= i < |rows| => WordsLe(rows[i].planes))
  }

  function ScalarChunks(rows: seq<Observation>): (c: Chunks)
    ensures |c| == |rows|
  {
    seq(|rows|, i requires 0 <= i < |rows| => WordsLe(rows[i].scalars))
  }

  function MaskChunks(rows: seq<Observation>): (c: Chunks)
    ensures |c| == |rows|
  {
    seq(|rows|, i requires 0 <= i < |rows| => rows[i].mask)
  }

  function CountChunks(rows: seq<Observation>): (c: Chunks)
    ensures |c| == |rows|
  {
    seq(|rows|, i requires 0 <= i < |rows| => Le32(CountOf(rows[i])))
  }

  function EventChunks(rows: seq<Observation>, window: nat): (c: Chunks)
    ensures |c| == |rows|
  {
    seq(|rows|, i requires 0 <= i < |rows| => EventRow(rows[i].events, window))
  }

  /** What the packer builds: the first row's header and window throughout. */
  function Packed(rows: seq<Observation>): Response {
    if rows == [] then EMPTY
    else
      var window := rows[0].window;
      Response(HeaderOf(rows[0]), Flat(PlaneChunks(rows)), Flat(ScalarChunks(rows)), Flat(MaskChunks(rows)),
               if window > 0 then Flat(CountChunks(rows)) else [],
               if window > 0 then Flat(EventChunks(rows, window)) else [])
  }

  // ---- Packed equals appended ----

  /** The appender takes its header from the first row with channels, or from the last row when none has any. */
  function SeedRow(rows: seq<Observation>): (i: nat)
    requires rows != []
    ensures i < |rows| && (rows[i].channels != 0 || i == |rows| - 1)
    ensures forall j | 0 <= j < i :: rows[j].channels == 0
    decreases |rows|
  {
    var last := |rows| - 1;
    if last == 0 then 0
    else
      var i := SeedRow(rows[..last]);
      if rows[i].channels != 0 then i else last
  }

  lemma {:induction false} AppendedHeader(rows: seq<Observation>)
    requires rows != []
    ensures AppendAll(rows).header == HeaderOf(rows[SeedRow(rows)])
    decreases |rows|
  {
    var last := |rows| - 1;
    if last > 0 {
      AppendedHeader(rows[..last]);
    } else {
      assert rows[..last] == [];
    }
  }

  lemma OneMoreChunk(rows: seq<Observation>, window: nat)
    requires rows != []
    ensures var front, o := rows[..|rows| - 1], rows[|rows| - 1];
            && Flat(PlaneChunks(rows)) == Flat(PlaneChunks(front)) + WordsLe(o.planes)
            && Flat(ScalarChunks(rows)) == Flat(ScalarChunks(front)) + WordsLe(o.scalars)
            && Flat(MaskChunks(rows)) == Flat(MaskChunks(front)) + o.mask
            && Flat(CountChunks(rows)) == Flat(CountChunks(front)) + Le32(CountOf(o))
            && Flat(EventChunks(rows, window)) == Flat(EventChunks(front, window)) + EventRow(o.events, window)
  {
    hide WordsLe, EventRow, Le32;
    var last := |rows| - 1;
    assert PlaneChunks(rows)[..last] == PlaneChunks(rows[..last]);
    assert ScalarChunks(rows)[..last] == ScalarChunks(rows[..last]);
    assert MaskChunks(rows)[..last] == MaskChunks(rows[..last]);
    assert CountChunks(rows)[..last] == CountChunks(rows[..last]);
    assert EventChunks(rows, window)[..last] == EventChunks(rows[..last], window);
  }

  /** No row up to the one that seeds the appender has a header of its own. */
  predicate SeededAlike(rows: seq<Observation>) {
    rows != [] ==> forall j | 0 <= j <= SeedRow(rows) :: HeaderOf(rows[j]) == HeaderOf(rows[0])
  }

  lemma SeededAlikeFront(rows: seq<Observation>)
    requires |rows| > 1 && SeededAlike(rows)
    ensures SeededAlike(rows[..|rows| - 1])
  {
    var front := rows[..|rows| - 1];
    assert SeedRow(front) <= SeedRow(rows);
    forall j | 0 <= j <= SeedRow(front) ensures HeaderOf(front[j]) == HeaderOf(front[0]) {
      assert front[j] == rows[j];
    }
  }

  lemma {:induction false} PackedIsAppended(rows: seq<Observation>)
    requires SeededAlike(rows)
    ensures Packed(rows) == AppendAll(rows)
    decreases |rows|
  {
    if rows != [] {
      hide HeaderOf, WordsLe, EventRow, Le32;
      var last := |rows| - 1;
      var window := rows[0].window;
      OneMoreChunk(rows, window);
      HeaderFields(rows[0]);
      AppendedHeader(rows);
      if last == 0 {
        assert rows[..last] == [];
      } else {
        SeededAlikeFront(rows);
        PackedIsAppended(rows[..last]);
        AppendedHeader(rows[..last]);
        HeaderFields(rows[last]);
      }
    }
  }

  lemma HeaderFields(o: Observation)
    ensures HeaderOf(o).window == o.window && HeaderOf(o).channels == o.channels
  {
  }

  /** When the first row has channels, as every encoded observation does, packing and appending agree whatever the other
      rows are. Without, they agree on the header exactly when the row that seeds the appender has the first row's. */
  lemma PackedMeetsAppended(rows: seq<Observation>)
    requires rows != []
    ensures rows[0].channels != 0 ==> Packed(rows) == AppendAll(rows)
    ensures Packed(rows).header == AppendAll(rows).header <==> HeaderOf(rows[SeedRow(rows)]) == HeaderOf(rows[0])
  {
    hide AppendAll, Flat, HeaderOf;
    AppendedHeader(rows);
    if rows[0].channels != 0 {
      assert SeedRow(rows) == 0;
      PackedIsAppended(rows);
    }
  }

  // ---- Offsets ----

  function Lengths(chunks: Chunks, i: nat): (off: nat)
    requires i <= |chunks|
  {
    if i == 0 then 0 else Lengths(chunks, i - 1) + |chunks[i - 1]|
  }

  lemma {:induction false} LengthsGrow(chunks: Chunks, i: nat, j: nat)
    requires i <= j <= |chunks|
    ensures Lengths(chunks, i) <= Lengths(chunks, j)
    decreases j - i
  {
    if i < j {
      LengthsGrow(chunks, i, j - 1);
    }
  }

  lemma {:induction false} LengthsPrefix(chunks: Chunks, n: nat, i: nat)
    requires i <= n <= |chunks|
    ensures Lengths(chunks[..n], i) == Lengths(chunks, i)
  {
    if i > 0 {
      LengthsPrefix(chunks, n, i - 1);
    }
  }

  lemma LengthsStep(chunks: Chunks, i: nat)
    requires i < |chunks|
    ensures Lengths(chunks, i + 1) == Lengths(chunks, i) + |chunks[i]|
  {
  }

  /** Rows' spans do not overlap, whichever worker writes them. */
  lemma SpansAreDisjoint(chunks: Chunks, i: nat, j: nat)
    requires i < j < |chunks|
    ensures Lengths(chunks, i) + |chunks[i]| <= Lengths(chunks, j) && Lengths(chunks, j) + |chunks[j]| <= Lengths(chunks, |chunks|)
  {
    hide Lengths;
    LengthsStep(chunks, i);
    LengthsStep(chunks, j);
    LengthsGrow(chunks, i + 1, j);
    LengthsGrow(chunks, j + 1, |chunks|);
  }

  /** Row i's span of the buffer holds row i's chunk. */
  predicate SpanHolds(bytes: seq<Byte>, chunks: Chunks, i: nat)
    requires i < |chunks| && |bytes| >= Lengths(chunks, |chunks|)
  {
    LengthsGrow(chunks, i + 1, |chunks|);
    bytes[Lengths(chunks, i)..Lengths(chunks, i) + |chunks[i]|] == chunks[i]
  }

  lemma {:induction false} SpansMakeFlat(bytes: seq<Byte>, chunks: Chunks)
    requires |bytes| >= Lengths(chunks, |chunks|)
    requires forall i: nat | i < |chunks| :: SpanHolds(bytes, chunks, i)
    ensures bytes[..Lengths(chunks, |chunks|)] == Flat(chunks)
    decreases |chunks|
  {
    if chunks != [] {
      var last := |chunks| - 1;
      var front := chunks[..last];
      var off := Lengths(chunks, last);
      LengthsPrefix(chunks, last, last);
      forall i: nat | i < last ensures SpanHolds(bytes, front, i) {
        LengthsPrefix(chunks, last, i);
        assert SpanHolds(bytes, chunks, i);
      }
      SpansMakeFlat(bytes, front);
      assert SpanHolds(bytes, chunks, last);
      assert bytes[..off + |chunks[last]|] == bytes[..off] + bytes[off..off + |chunks[last]|];
    }
  }

  // ---- Reading a response back ----

  /** The little-endian word at a byte offset. */
  function WordAt(bytes: seq<Byte>, off: nat): nat
    requires off + 4 <= |bytes|
  {
    var b0: int, b1: int, b2: int, b3: int := bytes[off], bytes[off + 1], bytes[off + 2], bytes[off + 3];
    b0 + 0x100 * b1 + 0x1_0000 * b2 + 0x100_0000 * b3
  }

  lemma Le32ReadsBack(w: Word)
    ensures WordAt(Le32(w), 0) == w
  {
    assert w == w % 256 + 256 * (w / 256);
    assert w / 256 == w / 256 % 256 + 256 * (w / 256 / 256);
    assert w / 256 / 256 == w / 256 / 256 % 256 + 256 * (w / 256 / 256 / 256);
  }

  lemma {:induction false} WordsReadBack(ws: seq<Word>, k: nat)
    requires k < |ws|
    ensures WordAt(WordsLe(ws), 4 * k) == ws[k]
    decreases |ws|
  {
    var last := |ws| - 1;
    var front := WordsLe(ws[..last]);
    assert WordsLe(ws) == front + Le32(ws[last]);
    hide WordsLe;
    if k == last {
      Le32ReadsBack(ws[last]);
      Shifted(front, Le32(ws[last]), 0);
    } else {
      WordsReadBack(ws[..last], k);
    }
  }

  lemma Shifted(front: seq<Byte>, bytes: seq<Byte>, off: nat)
    requires off + 4 <= |bytes|
    ensures WordAt(front + bytes, |front| + off) == WordAt(bytes, off)
  {
  }

  lemma InSpan(bytes: seq<Byte>, from: nat, to: nat, off: nat)
    requires from <= to <= |bytes| && off + 4 <= to - from
    ensures WordAt(bytes, from + off) == WordAt(bytes[from..to], off)
  {
  }

  /** Chunk i of a flattened list lies where the lengths before it say. */
  lemma {:induction false} FlatHolds(chunks: Chunks, i: nat)
    requires i < |chunks|
    ensures |Flat(chunks)| == Lengths(chunks, |chunks|)
    ensures Lengths(chunks, i) + |chunks[i]| <= |Flat(chunks)|
    ensures Flat(chunks)[Lengths(chunks, i)..Lengths(chunks, i) + |chunks[i]|] == chunks[i]
    decreases |chunks|
  {
    var last := |chunks| - 1;
    var front := chunks[..last];
    LengthsPrefix(chunks, last, last);
    if last == 0 {
      assert Flat(front) == [] && Flat(chunks) == chunks[0];
    } else {
      FlatHolds(front, if i < last then i else 0);
      if i < last {
        LengthsPrefix(chunks, last, i);
        assert Flat(chunks)[..|Flat(front)|] == Flat(front);
      }
    }
  }

  lemma {:induction false} EvenLengths(chunks: Chunks, n: nat, i: nat)
    requires i <= |chunks| && forall c | c in chunks :: |c| == n
    ensures Lengths(chunks, i) == i * n
  {
    if i > 0 {
      EvenLengths(chunks, n, i - 1);
      assert chunks[i - 1] in chunks;
      assert i * n == (i - 1) * n + n;
    }
  }

  /** Where entry k of row i lies when every row has n. */
  function Place(n: nat, i: nat, k: nat): nat {
    i * n + k
  }

  /** Row i of a buffer of equal rows of words. */
  lemma WordRows(chunks: Chunks, n: nat, i: nat, ws: seq<Word>, k: nat)
    requires i < |chunks| && (forall c | c in chunks :: |c| == 4 * n) && WordsLe(ws) <= chunks[i] && k < |ws| <= n
    ensures |Flat(chunks)| == 4 * n * |chunks| && 4 * Place(n, i, k) + 4 <= |Flat(chunks)|
    ensures WordAt(Flat(chunks), 4 * Place(n, i, k)) == ws[k]
  {
    hide Flat, WordsLe, Lengths;
    FlatHolds(chunks, i);
    EvenLengths(chunks, 4 * n, i);
    EvenLengths(chunks, 4 * n, |chunks|);
    Scaled(n, i);
    Scaled(n, |chunks|);
    assert |chunks[i]| == 4 * n by { assert chunks[i] in chunks; }
    var from := Lengths(chunks, i);
    InSpan(Flat(chunks), from, from + 4 * n, 4 * k);
    WordsReadBack(ws, k);
    InSpan(chunks[i], 0, 4 * |ws|, 4 * k);
  }

  lemma Scaled(n: nat, i: nat)
    ensures i * (4 * n) == 4 * (i * n) == 4 * n * i
  {
  }

  /** Rows as they are encoded: of one shape, with no more events than the window has room for. */
  predicate OneShape(rows: seq<Observation>) {
    && rows != [] && rows[0].window < 0x1_0000_0000
    && forall o | o in rows ::
         && |o.planes| == |rows[0].planes| && |o.scalars| == |rows[0].scalars| && |o.mask| == |rows[0].mask|
         && (rows[0].window > 0 ==> |o.events| <= rows[0].window)
  }

  /** The header of a response is the first row's shape, and from the flat buffers every row reads back: its planes, scalars
      and mask, and with a history window its event count and events, zeros after them. */
  lemma PackedReadsBack(rows: seq<Observation>, i: nat)
    requires OneShape(rows) && i < |rows|
    ensures var r, o, first := Packed(rows), rows[i], rows[0];
            && r.header.channels == first.channels && r.header.height == first.height && r.header.width == first.width
            && r.header.scalarCount == |first.scalars| && r.header.actionSpace == first.actionSpace && r.header.window == first.window
            && ReadsWords(r.planes, |first.planes|, i, o.planes) && ReadsWords(r.scalars, |first.scalars|, i, o.scalars)
            && ReadsBytes(r.masks, |first.mask|, i, o.mask)
            && (first.window > 0 ==>
                  && ReadsWords(r.counts, 1, i, [|o.events|])
                  && ReadsWords(r.events, first.window, i, o.events + Padding(first.window - |o.events|)))
  {
    hide Flat, WordsLe, Lengths, Le32, PlaneChunks, ScalarChunks, MaskChunks, CountChunks, EventChunks;
    var window := rows[0].window;
    assert rows[i] in rows;
    PlanesRead(rows, i);
    MasksRead(rows, i);
    if window > 0 {
      EventsRead(rows, i);
    }
  }

  function Padding(n: int): (ws: seq<Word>)
    ensures |ws| == if n > 0 then n else 0
  {
    seq(if n > 0 then n else 0, _ => 0)
  }

  predicate ReadsWords(bytes: seq<Byte>, n: nat, i: nat, ws: seq<Word>) {
    |ws| == n && forall k: nat | k < n :: 4 * Place(n, i, k) + 4 <= |bytes| && WordAt(bytes, 4 * Place(n, i, k)) == ws[k]
  }

  predicate ReadsBytes(bytes: seq<Byte>, n: nat, i: nat, bs: seq<Byte>) {
    |bs| == n && forall k: nat | k < n :: Place(n, i, k) < |bytes| && bytes[Place(n, i, k)] == bs[k]
  }

  lemma RowReads(chunks: Chunks, n: nat, i: nat, ws: seq<Word>)
    requires i < |chunks| && (forall c | c in chunks :: |c| == 4 * n) && chunks[i] == WordsLe(ws)
    ensures ReadsWords(Flat(chunks), n, i, ws)
  {
    assert chunks[i] in chunks;
    hide Flat, WordsLe, WordAt, Place;
    forall k: nat | k < n ensures 4 * Place(n, i, k) + 4 <= |Flat(chunks)| && WordAt(Flat(chunks), 4 * Place(n, i, k)) == ws[k] {
      WordRows(chunks, n, i, ws, k);
    }
  }

  lemma PlanesRead(rows: seq<Observation>, i: nat)
    requires OneShape(rows) && i < |rows|
    ensures ReadsWords(Flat(PlaneChunks(rows)), |rows[0].planes|, i, rows[i].planes)
    ensures ReadsWords(Flat(ScalarChunks(rows)), |rows[0].scalars|, i, rows[i].scalars)
  {
    hide Flat, WordsLe, ReadsWords;
    RowReads(PlaneChunks(rows), |rows[0].planes|, i, rows[i].planes);
    RowReads(ScalarChunks(rows), |rows[0].scalars|, i, rows[i].scalars);
  }

  lemma MasksRead(rows: seq<Observation>, i: nat)
    requires OneShape(rows) && i < |rows|
    ensures ReadsBytes(Flat(MaskChunks(rows)), |rows[0].mask|, i, rows[i].mask)
  {
    hide Flat, Lengths;
    var chunks, n := MaskChunks(rows), |rows[0].mask|;
    assert rows[i] in rows;
    FlatHolds(chunks, i);
    EvenLengths(chunks, n, i);
    forall k: nat | k < n ensures Place(n, i, k) < |Flat(chunks)| && Flat(chunks)[Place(n, i, k)] == rows[i].mask[k] {
      assert Flat(chunks)[i * n..i * n + n][k] == chunks[i][k];
    }
  }

  lemma EventsRead(rows: seq<Observation>, i: nat)
    requires OneShape(rows) && i < |rows| && rows[0].window > 0
    ensures ReadsWords(Flat(CountChunks(rows)), 1, i, [|rows[i].events|])
    ensures var window := rows[0].window;
            ReadsWords(Flat(EventChunks(rows, window)), window, i, rows[i].events + Padding(window - |rows[i].events|))
  {
    hide Flat, WordsLe, Le32, ReadsWords, EventRow;
    var window, o := rows[0].window, rows[i];
    forall o | o in rows
      ensures WordsLe([|o.events|]) == Le32(CountOf(o)) && EventRow(o.events, window) == WordsLe(o.events + Padding(window - |o.events|))
    {
      CountIsWord(o);
      PaddedRow(o.events, window);
    }
    assert o in rows;
    RowReads(CountChunks(rows), 1, i, [|o.events|]);
    RowReads(EventChunks(rows, window), window, i, o.events + Padding(window - |o.events|));
  }

  lemma CountIsWord(o: Observation)
    requires |o.events| < 0x1_0000_0000
    ensures WordsLe([|o.events|]) == Le32(CountOf(o))
  {
    hide Le32;
    assert [|o.events|][..0] == [];
    assert WordsLe([]) == [];
  }

  /** Padding with zero bytes is padding with zero words. */
  lemma PaddedRow(events: seq<Word>, window: nat)
    requires |events| <= window
    ensures EventRow(events, window) == WordsLe(events + Padding(window - |events|))
  {
    WordsLeSplit(events, Padding(window - |events|));
    ZeroWords(window - |events|);
  }

  lemma {:induction false} WordsLeSplit(a: seq<Word>, b: seq<Word>)
    ensures WordsLe(a + b) == WordsLe(a) + WordsLe(b)
    decreases |b|
  {
    if b == [] {
      assert a + b == a;
    } else {
      WordsLeSplit(a, b[..|b| - 1]);
      assert (a + b)[..|a + b| - 1] == a + b[..|b| - 1];
    }
  }

  lemma {:induction false} ZeroWords(n: nat)
    ensures WordsLe(Padding(n)) == Zeros(4 * n)
  {
    if n > 0 {
      ZeroWords(n - 1);
      assert Padding(n)[..n - 1] == Padding(n - 1);
      assert Le32(0) == Zeros(4);
    }
  }

  // ---- Worker ranges ----

  function RangeStart(w: nat, n: nat, workers: nat): nat
    requires workers > 0
  {
    w * n / workers
  }

  lemma AtLeastOnce(d: nat, k: int)
    requires d > 0
    ensures k >= 1 ==> d * k >= d
  {
  }

  lemma QuotientOrder(d: nat, q: int, r: int, q': int, r': int)
    requires 0 <= r && r' < d && d * q + r <= d * q' + r'
    ensures q <= q'
  {
    AtLeastOnce(d, q - q');
    assert d * (q - q') == d * q - d * q';
  }

  lemma DivMonotone(a: nat, b: nat, d: nat)
    requires a <= b && d > 0
    ensures a / d <= b / d
  {
    QuotientOrder(d, a / d, a % d, b / d, b % d);
  }

  lemma RangesGrow(v: nat, w: nat, n: nat, workers: nat)
    requires v <= w && workers > 0
    ensures RangeStart(v, n, workers) <= RangeStart(w, n, workers)
  {
    assert v * n <= w * n;
    DivMonotone(v * n, w * n, workers);
  }

  lemma RangesEnd(n: nat, workers: nat)
    requires workers > 0
    ensures RangeStart(0, n, workers) == 0 && RangeStart(workers, n, workers) == n
  {
    DivisionUndoes(n, workers);
  }

  lemma DivisionUndoes(n: nat, d: nat)
    requires d > 0
    ensures d * n / d == n
  {
    var x := d * n;
    assert x == d * (x / d) + x % d;
    QuotientOrder(d, x / d, x % d, n, 0);
    QuotientOrder(d, n, 0, x / d, x % d);
  }

  /** Every row lies in the range of exactly one worker. */
  lemma {:induction false} RangesPartition(i: nat, n: nat, workers: nat, upTo: nat) returns (w: nat)
    requires workers > 0 && upTo <= workers && i < RangeStart(upTo, n, workers)
    ensures w < upTo && RangeStart(w, n, workers) <= i < RangeStart(w + 1, n, workers)
    ensures forall v: nat | v != w :: !(RangeStart(v, n, workers) <= i < RangeStart(v + 1, n, workers))
    decreases upTo
  {
    RangesEnd(n, workers);
    if RangeStart(upTo - 1, n, workers) <= i {
      w := upTo - 1;
      forall v: nat | v != w ensures !(RangeStart(v, n, workers) <= i < RangeStart(v + 1, n, workers)) {
        if v < w {
          RangesGrow(v + 1, w, n, workers);
        } else {
          RangesGrow(w + 1, v, n, workers);
        }
      }
    } else {
      w := RangesPartition(i, n, workers, upTo - 1);
    }
  }

  // ---- The packer itself ----

  class Scratch {
    var planes: array<Byte>
    var scalars: array<Byte>
    var masks: array<Byte>
    var counts: array<Byte>
    var events: array<Byte>

    /** Five buffers of any length and any stale contents, no two the same. */
    ghost predicate Valid()
      reads this
    {
      && planes != scalars && planes != masks && planes != counts && planes != events
      && scalars != masks && scalars != counts && scalars != events
      && masks != counts && masks != events && counts != events
    }

    ghost function Buffers(): set<object>
      reads this
    {
      {planes, scalars, masks, counts, events}
    }

    constructor ()
      ensures Valid() && fresh(Buffers())
    {
      planes := new Byte[0];
      scalars := new Byte[0];
      masks := new Byte[0];
      counts := new Byte[0];
      events := new Byte[0];
    }
  }

  /** The buffer, or a new one when it is too small. */
  method Sized(buf: array<Byte>, n: nat) returns (r: array<Byte>)
    ensures r.Length >= n && (r == buf || fresh(r)) && (buf.Length >= n ==> r == buf)
  {
    r := buf;
    if buf.Length < n {
      r := new Byte[n];
    }
  }

  lemma WordsLeGrow(ws: seq<Word>, i: nat)
    requires i < |ws|
    ensures WordsLe(ws[..i + 1]) == WordsLe(ws[..i]) + Le32(ws[i])
  {
    assert ws[..i + 1][..i] == ws[..i];
  }

  method PutWords(dst: array<Byte>, off: nat, ws: seq<Word>)
    requires off + 4 * |ws| <= dst.Length
    modifies dst
    ensures dst[off..off + 4 * |ws|] == WordsLe(ws)
    ensures forall i | 0 <= i < dst.Length && !(off <= i < off + 4 * |ws|) :: dst[i] == old(dst[i])
  {
    hide WordsLe;
    var i := 0;
    assert ws[..0] == [] && WordsLe([]) == [];
    while i < |ws|
      invariant 0 <= i <= |ws|
      invariant dst[off..off + 4 * i] == WordsLe(ws[..i])
      invariant forall j | 0 <= j < dst.Length && !(off <= j < off + 4 * i) :: dst[j] == old(dst[j])
    {
      WordsLeGrow(ws, i);
      PutWord(dst, off, off + 4 * i, ws[i]);
      i := i + 1;
    }
    assert ws[..i] == ws;
  }

  method PutWord(dst: array<Byte>, ghost from: nat, off: nat, w: Word)
    requires from <= off && off + 4 <= dst.Length
    modifies dst
    ensures dst[from..off + 4] == old(dst[from..off]) + Le32(w)
    ensures forall i | 0 <= i < dst.Length && !(off <= i < off + 4) :: dst[i] == old(dst[i])
  {
    dst[off], dst[off + 1], dst[off + 2], dst[off + 3] := w % 256, w / 256 % 256, w / 256 / 256 % 256, w / 256 / 256 / 256;
  }

  method PutBytes(dst: array<Byte>, off: nat, bytes: seq<Byte>)
    requires off + |bytes| <= dst.Length
    modifies dst
    ensures dst[off..off + |bytes|] == bytes
    ensures forall i | 0 <= i < dst.Length && !(off <= i < off + |bytes|) :: dst[i] == old(dst[i])
  {
    for i := 0 to |bytes|
      invariant dst[off..off + i] == bytes[..i]
      invariant forall j | 0 <= j < dst.Length && !(off <= j < off + i) :: dst[j] == old(dst[j])
    {
      dst[off + i] := bytes[i];
    }
  }

  method Clear(dst: array<Byte>, n: nat)
    requires n <= dst.Length
    modifies dst
    ensures forall i | 0 <= i < n :: dst[i] == 0
  {
    for i := 0 to n
      invariant forall j | 0 <= j < i :: dst[j] == 0
    {
      dst[i] := 0;
    }
  }

  // ---- One lane: a buffer being filled row by row ----

  ghost predicate LaneHolds(bytes: seq<Byte>, chunks: Chunks, done: set<nat>) {
    && |bytes| >= Lengths(chunks, |chunks|)
    && forall i: nat | i < |chunks| && i in done :: SpanHolds(bytes, chunks, i)
  }

  predicate SpanZero(bytes: seq<Byte>, chunks: Chunks, i: nat)
    requires i < |chunks| && |bytes| >= Lengths(chunks, |chunks|)
  {
    LengthsGrow(chunks, i + 1, |chunks|);
    forall k | Lengths(chunks, i) <= k < Lengths(chunks, i) + |chunks[i]| :: bytes[k] == 0
  }

  ghost predicate RestZero(bytes: seq<Byte>, chunks: Chunks, done: set<nat>) {
    && |bytes| >= Lengths(chunks, |chunks|)
    && forall i: nat | i < |chunks| && i !in done :: SpanZero(bytes, chunks, i)
  }

  lemma SpansApart(chunks: Chunks, i: nat, j: nat)
    requires i < |chunks| && j < |chunks| && i != j
    ensures Lengths(chunks, j) + |chunks[j]| <= Lengths(chunks, |chunks|)
    ensures Lengths(chunks, j) + |chunks[j]| <= Lengths(chunks, i) || Lengths(chunks, i) + |chunks[i]| <= Lengths(chunks, j)
  {
    hide Lengths;
    LengthsStep(chunks, j);
    LengthsGrow(chunks, j + 1, |chunks|);
    if i < j {
      SpansAreDisjoint(chunks, i, j);
    } else {
      SpansAreDisjoint(chunks, j, i);
    }
  }

  lemma LaneStep(before: seq<Byte>, after: seq<Byte>, chunks: Chunks, done: set<nat>, i: nat)
    requires i < |chunks| && |after| == |before| && LaneHolds(before, chunks, done)
    requires SpanHolds(after, chunks, i)
    requires forall k | 0 <= k < |before| && !(Lengths(chunks, i) <= k < Lengths(chunks, i) + |chunks[i]|) :: after[k] == before[k]
    ensures LaneHolds(after, chunks, done + {i})
  {
    hide Lengths;
    forall j: nat | j < |chunks| && j in done && j != i ensures SpanHolds(after, chunks, j) {
      assert SpanHolds(before, chunks, j);
      SpansApart(chunks, i, j);
    }
  }

  lemma ZeroStep(before: seq<Byte>, after: seq<Byte>, chunks: Chunks, done: set<nat>, i: nat)
    requires i < |chunks| && |after| == |before| && RestZero(before, chunks, done)
    requires forall k | 0 <= k < |before| && !(Lengths(chunks, i) <= k < Lengths(chunks, i) + |chunks[i]|) :: after[k] == before[k]
    ensures RestZero(after, chunks, done + {i})
  {
    hide Lengths;
    forall j: nat | j < |chunks| && j !in done + {i} ensures SpanZero(after, chunks, j) {
      assert SpanZero(before, chunks, j);
      SpansApart(chunks, i, j);
    }
  }

  /** Writing the events over a zeroed span leaves the padding in place. */
  lemma EventSpan(before: seq<Byte>, after: seq<Byte>, chunks: Chunks, i: nat, events: seq<Word>, window: nat)
    requires i < |chunks| && chunks[i] == EventRow(events, window) && |after| == |before| >= Lengths(chunks, |chunks|)
    requires SpanZero(before, chunks, i)
    requires Lengths(chunks, i) + 4 * |events| <= |after|
    requires after[Lengths(chunks, i)..Lengths(chunks, i) + 4 * |events|] == WordsLe(events)
    requires forall k | 0 <= k < |before| && !(Lengths(chunks, i) <= k < Lengths(chunks, i) + 4 * |events|) :: after[k] == before[k]
    ensures SpanHolds(after, chunks, i)
  {
    hide WordsLe, Lengths;
    LengthsGrow(chunks, i + 1, |chunks|);
    LengthsStep(chunks, i);
    var off, used := Lengths(chunks, i), 4 * |events|;
    var pad := if window > |events| then 4 * (window - |events|) else 0;
    assert chunks[i] == WordsLe(events) + Zeros(pad);
    StillZero(before, after, off + used, pad);
    assert after[off..off + used + pad] == after[off..off + used] + after[off + used..off + used + pad];
  }

  lemma StillZero(before: seq<Byte>, after: seq<Byte>, from: nat, n: nat)
    requires |after| == |before| && from + n <= |before|
    requires forall k | from <= k < from + n :: before[k] == 0 && after[k] == before[k]
    ensures after[from..from + n] == Zeros(n)
  {
  }

  // ---- The job ----

  /** Where the first n rows, and the one after them, start in one buffer. */
  ghost predicate StartsOf(off: seq<nat>, chunks: Chunks, n: nat)
    requires n <= |chunks|
  {
    |off| == n + 1 && forall i: nat | i <= n :: off[i] == Lengths(chunks, i)
  }

  ghost predicate OffsetsOf(off: seq<nat>, chunks: Chunks) {
    StartsOf(off, chunks, |chunks|)
  }

  lemma NextStart(off: seq<nat>, chunks: Chunks, n: nat)
    requires n < |chunks| && StartsOf(off, chunks, n)
    ensures StartsOf(off + [off[n] + |chunks[n]|], chunks, n + 1)
  {
  }

  method Offsets(rows: seq<Observation>) returns (planeOff: seq<nat>, scalarOff: seq<nat>, maskOff: seq<nat>, eventOff: seq<nat>)
    requires rows != []
    ensures OffsetsOf(planeOff, PlaneChunks(rows)) && OffsetsOf(scalarOff, ScalarChunks(rows)) && OffsetsOf(maskOff, MaskChunks(rows))
    ensures rows[0].window > 0 ==> OffsetsOf(eventOff, EventChunks(rows, rows[0].window))
  {
    hide WordsLe, StartsOf;
    var window := rows[0].window;
    planeOff, scalarOff, maskOff, eventOff := [0], [0], [0], [0];
    FirstStart(PlaneChunks(rows));
    FirstStart(ScalarChunks(rows));
    FirstStart(MaskChunks(rows));
    FirstStart(EventChunks(rows, window));
    for i := 0 to |rows|
      invariant |planeOff| == |scalarOff| == |maskOff| == |eventOff| == i + 1
      invariant StartsOf(planeOff, PlaneChunks(rows), i) && StartsOf(scalarOff, ScalarChunks(rows), i) && StartsOf(maskOff, MaskChunks(rows), i)
      invariant window > 0 ==> StartsOf(eventOff, EventChunks(rows, window), i)
    {
      NextStart(planeOff, PlaneChunks(rows), i);
      NextStart(scalarOff, ScalarChunks(rows), i);
      NextStart(maskOff, MaskChunks(rows), i);
      if window > 0 {
        NextStart(eventOff, EventChunks(rows, window), i);
      }
      var o := rows[i];
      planeOff := planeOff + [planeOff[i] + 4 * |o.planes|];
      scalarOff := scalarOff + [scalarOff[i] + 4 * |o.scalars|];
      maskOff := maskOff + [maskOff[i] + |o.mask|];
      eventOff := eventOff + [if window > 0 then eventOff[i] + 4 * (if window > |o.events| then window else |o.events|) else eventOff[i]];
    }
  }

  lemma FirstStart(chunks: Chunks)
    ensures StartsOf([0], chunks, 0)
  {
  }

  lemma {:induction false} CountLengths(rows: seq<Observation>, i: nat)
    requires i <= |rows|
    ensures Lengths(CountChunks(rows), i) == 4 * i
  {
    if i > 0 {
      CountLengths(rows, i - 1);
    }
  }

  lemma RangeIsDone(done: set<nat>, pos: seq<nat>, n: nat)
    requires |pos| > 0 && ProgressIs(done, pos, n) && forall w: nat | w < |pos| :: pos[w] == RangeStart(w + 1, n, |pos|)
    ensures forall i: nat | i < n :: i in done
  {
    hide RangeStart;
    forall i: nat | i < n ensures i in done {
      RangesEnd(n, |pos|);
      var w := RangesPartition(i, n, |pos|, |pos|);
      assert HasDone(pos, n, w, i);
    }
  }

  predicate HasDone(pos: seq<nat>, n: nat, w: nat, i: nat)
    requires w < |pos|
  {
    RangeStart(w, n, |pos|) <= i < pos[w]
  }

  /** Each worker is somewhere in its own range; the rows done are those the workers have passed. */
  ghost predicate ProgressIs(done: set<nat>, pos: seq<nat>, n: nat) {
    && |pos| > 0
    && (forall w: nat | w < |pos| :: RangeStart(w, n, |pos|) <= pos[w] <= RangeStart(w + 1, n, |pos|))
    && (forall i: nat :: i in done <==> exists w: nat | w < |pos| :: HasDone(pos, n, w, i))
  }

  lemma ProgressStep(done: set<nat>, pos: seq<nat>, n: nat, w: nat)
    requires ProgressIs(done, pos, n) && w < |pos| && pos[w] < RangeStart(w + 1, n, |pos|)
    ensures pos[w] < n && pos[w] !in done && ProgressIs(done + {pos[w]}, pos[w := pos[w] + 1], n)
  {
    hide RangeStart;
    var i := pos[w];
    RangesEnd(n, |pos|);
    RangesGrow(w + 1, |pos|, n, |pos|);
    var owner := RangesPartition(i, n, |pos|, |pos|);
    assert owner == w;
    forall v: nat | v < |pos| ensures !HasDone(pos, n, v, i) {
      assert pos[v] <= RangeStart(v + 1, n, |pos|);
    }
    var pos' := pos[w := i + 1];
    forall j: nat ensures j in done + {i} <==> exists v: nat | v < |pos'| :: HasDone(pos', n, v, j) {
      if j == i {
        assert HasDone(pos', n, w, i);
      } else {
        assert forall v: nat | v < |pos| :: HasDone(pos', n, v, j) <==> HasDone(pos, n, v, j);
      }
    }
  }

  class Job {
    const rows: seq<Observation>
    const window: nat
    const planes: array<Byte>
    const scalars: array<Byte>
    const masks: array<Byte>
    const counts: array<Byte>
    const events: array<Byte>
    const planeOff: seq<nat>
    const scalarOff: seq<nat>
    const maskOff: seq<nat>
    const eventOff: seq<nat>
    const pos: array<nat>
    ghost var done: set<nat>

    ghost function Buffers(): set<object> {
      {planes, scalars, masks, counts, events}
    }

    ghost predicate Laid() {
      && planes != scalars && planes != masks && planes != counts && planes != events
      && scalars != masks && scalars != counts && scalars != events
      && masks != counts && masks != events && counts != events
      && OffsetsOf(planeOff, PlaneChunks(rows)) && OffsetsOf(scalarOff, ScalarChunks(rows)) && OffsetsOf(maskOff, MaskChunks(rows))
      && (window > 0 ==> OffsetsOf(eventOff, EventChunks(rows, window)))
      && pos.Length > 0 && rows != []
    }

    /** The rows the workers have passed are in place in every buffer; the others' event spans are still zero. */
    ghost predicate Valid()
      reads this, Buffers(), pos
    {
      && Laid() && ProgressIs(done, pos[..], |rows|)
      && LaneHolds(planes[..], PlaneChunks(rows), done)
      && LaneHolds(scalars[..], ScalarChunks(rows), done)
      && LaneHolds(masks[..], MaskChunks(rows), done)
      && (window > 0 ==>
            && LaneHolds(counts[..], CountChunks(rows), done)
            && LaneHolds(events[..], EventChunks(rows, window), done)
            && RestZero(events[..], EventChunks(rows, window), done))
    }

    /** One worker writes its next row into all buffers. */
    method WriteNextRow(w: nat)
      requires Valid() && w < pos.Length && pos[w] < RangeStart(w + 1, |rows|, pos.Length)
      modifies this`done, pos, Buffers()
      ensures Valid() && pos[..] == old(pos[..])[w := old(pos[w]) + 1]
    {
      hide LaneHolds, RestZero, WordsLe, Lengths, ProgressIs, RangeStart;
      var i := pos[w];
      ProgressStep(done, pos[..], |rows|, w);
      WriteFloats(i);
      if window > 0 {
        WriteEvents(i);
      }
      done := done + {i};
      pos[w] := i + 1;
      assert pos[..] == old(pos[..])[w := i + 1];
    }

    method WriteFloats(i: nat)
      requires Laid() && i < |rows|
      requires LaneHolds(planes[..], PlaneChunks(rows), done) && LaneHolds(scalars[..], ScalarChunks(rows), done)
      requires LaneHolds(masks[..], MaskChunks(rows), done)
      modifies planes, scalars, masks
      ensures LaneHolds(planes[..], PlaneChunks(rows), done + {i}) && LaneHolds(scalars[..], ScalarChunks(rows), done + {i})
      ensures LaneHolds(masks[..], MaskChunks(rows), done + {i})
    {
      hide WordsLe, Lengths, LaneHolds;
      WriteLane(planes, PlaneChunks(rows), done, i, planeOff[i], rows[i].planes);
      WriteLane(scalars, ScalarChunks(rows), done, i, scalarOff[i], rows[i].scalars);
      LaneFits(masks[..], MaskChunks(rows), done, i);
      ghost var before := masks[..];
      PutBytes(masks, maskOff[i], rows[i].mask);
      LaneStep(before, masks[..], MaskChunks(rows), done, i);
    }

    static method WriteLane(dst: array<Byte>, ghost chunks: Chunks, ghost done: set<nat>, ghost i: nat, off: nat, ws: seq<Word>)
      requires i < |chunks| && chunks[i] == WordsLe(ws) && off == Lengths(chunks, i) && LaneHolds(dst[..], chunks, done)
      modifies dst
      ensures LaneHolds(dst[..], chunks, done + {i})
    {
      hide WordsLe, Lengths, LaneHolds;
      LaneFits(dst[..], chunks, done, i);
      ghost var before := dst[..];
      PutWords(dst, off, ws);
      LaneStep(before, dst[..], chunks, done, i);
    }

    static lemma LaneFits(bytes: seq<Byte>, chunks: Chunks, done: set<nat>, i: nat)
      requires LaneHolds(bytes, chunks, done) && i < |chunks|
      ensures Lengths(chunks, i) + |chunks[i]| <= Lengths(chunks, |chunks|) <= |bytes|
    {
      LengthsGrow(chunks, i + 1, |chunks|);
    }

    method WriteEvents(i: nat)
      requires Laid() && i < |rows| && window > 0 && i !in done
      requires LaneHolds(counts[..], CountChunks(rows), done) && LaneHolds(events[..], EventChunks(rows, window), done)
      requires RestZero(events[..], EventChunks(rows, window), done)
      modifies counts, events
      ensures LaneHolds(counts[..], CountChunks(rows), done + {i}) && LaneHolds(events[..], EventChunks(rows, window), done + {i})
      ensures RestZero(events[..], EventChunks(rows, window), done + {i})
    {
      hide WordsLe, Lengths, LaneHolds;
      CountLengths(rows, i);
      LaneFits(counts[..], CountChunks(rows), done, i);
      ghost var countsBefore := counts[..];
      PutWord(counts, 4 * i, 4 * i, CountOf(rows[i]));
      LaneStep(countsBefore, counts[..], CountChunks(rows), done, i);

      ghost var chunks := EventChunks(rows, window);
      LaneFits(events[..], chunks, done, i);
      ghost var before := events[..];
      PutWords(events, eventOff[i], rows[i].events);
      EventSpan(before, events[..], chunks, i, rows[i].events, window);
      LaneStep(before, events[..], chunks, done, i);
      ZeroStep(before, events[..], chunks, done, i);
    }

    constructor (rows: seq<Observation>, workers: nat, planes: array<Byte>, scalars: array<Byte>, masks: array<Byte>,
                 counts: array<Byte>, events: array<Byte>,
                 planeOff: seq<nat>, scalarOff: seq<nat>, maskOff: seq<nat>, eventOff: seq<nat>)
      requires rows != [] && workers > 0
      requires planes != scalars && planes != masks && planes != counts && planes != events
      requires scalars != masks && scalars != counts && scalars != events
      requires masks != counts && masks != events && counts != events
      requires OffsetsOf(planeOff, PlaneChunks(rows)) && planes.Length >= planeOff[|rows|]
      requires OffsetsOf(scalarOff, ScalarChunks(rows)) && scalars.Length >= scalarOff[|rows|]
      requires OffsetsOf(maskOff, MaskChunks(rows)) && masks.Length >= maskOff[|rows|]
      requires rows[0].window > 0 ==>
                 && OffsetsOf(eventOff, EventChunks(rows, rows[0].window))
                 && counts.Length >= 4 * |rows| && events.Length >= eventOff[|rows|]
                 && forall k | 0 <= k < eventOff[|rows|] :: events[k] == 0
      ensures this.rows == rows && window == rows[0].window && fresh(pos) && pos.Length == workers
      ensures this.planes == planes && this.scalars == scalars && this.masks == masks && this.counts == counts && this.events == events
      ensures Valid()
    {
      this.rows, this.window := rows, rows[0].window;
      this.planes, this.scalars, this.masks, this.counts, this.events := planes, scalars, masks, counts, events;
      this.planeOff, this.scalarOff, this.maskOff, this.eventOff := planeOff, scalarOff, maskOff, eventOff;
      pos := new nat[workers](w => RangeStart(w, |rows|, workers));
      done := {};
      new;
      ProgressStarts(pos[..], |rows|);
      if window > 0 {
        CountLengths(rows, |rows|);
        StartsZero(events[..], EventChunks(rows, window));
      }
    }

    static lemma ProgressStarts(pos: seq<nat>, n: nat)
      requires |pos| > 0 && forall w: nat | w < |pos| :: pos[w] == RangeStart(w, n, |pos|)
      ensures ProgressIs({}, pos, n)
    {
      hide RangeStart;
      forall w: nat | w < |pos| ensures pos[w] <= RangeStart(w + 1, n, |pos|) {
        RangesGrow(w, w + 1, n, |pos|);
      }
    }

    static lemma StartsZero(bytes: seq<Byte>, chunks: Chunks)
      requires |bytes| >= Lengths(chunks, |chunks|) && forall k | 0 <= k < Lengths(chunks, |chunks|) :: bytes[k] == 0
      ensures RestZero(bytes, chunks, {})
    {
      hide Lengths;
      forall i: nat | i < |chunks| ensures SpanZero(bytes, chunks, i) {
        LengthsStep(chunks, i);
        LengthsGrow(chunks, i + 1, |chunks|);
      }
    }

    /** Runs the workers: first interleaved as the schedule says, then each to its end. */
    method Run(schedule: seq<nat>)
      requires Valid()
      modifies this`done, pos, Buffers()
      ensures Valid() && forall i: nat | i < |rows| :: i in done
    {
      hide LaneHolds, RestZero, ProgressIs;
      for k := 0 to |schedule|
        invariant Valid()
      {
        var w := schedule[k] % pos.Length;
        if pos[w] < RangeStart(w + 1, |rows|, pos.Length) {
          WriteNextRow(w);
        }
      }
      var w := 0;
      while w < pos.Length
        invariant w <= pos.Length && Valid()
        invariant forall v: nat | v < w :: pos[v] == RangeStart(v + 1, |rows|, pos.Length)
      {
        StaysInRange(done, pos[..], |rows|, w);
        while pos[w] < RangeStart(w + 1, |rows|, pos.Length)
          invariant Valid() && pos[w] <= RangeStart(w + 1, |rows|, pos.Length)
          invariant forall v: nat | v < w :: pos[v] == RangeStart(v + 1, |rows|, pos.Length)
        {
          WriteNextRow(w);
        }
        w := w + 1;
      }
      RangeIsDone(done, pos[..], |rows|);
    }

    /** What the filled buffers hold, once every row is done. */
    method Collect() returns (r: Response)
      requires Valid() && window == rows[0].window && forall i: nat | i < |rows| :: i in done
      ensures r == Packed(rows)
    {
      hide Flat, LaneHolds, RestZero, Lengths, HeaderOf, ProgressIs, WordsLe, EventRow, Le32;
      var n := |rows|;
      var planeBytes := Lane(planes, planeOff[n], PlaneChunks(rows), done);
      var scalarBytes := Lane(scalars, scalarOff[n], ScalarChunks(rows), done);
      var maskBytes := Lane(masks, maskOff[n], MaskChunks(rows), done);
      r := Response(HeaderOf(rows[0]), planeBytes, scalarBytes, maskBytes, [], []);
      if window > 0 {
        CountLengths(rows, n);
        var countBytes := Lane(counts, 4 * n, CountChunks(rows), done);
        var eventBytes := Lane(events, eventOff[n], EventChunks(rows, window), done);
        r := r.(counts := countBytes, events := eventBytes);
      }
    }

    static method Lane(buffer: array<Byte>, n: nat, ghost chunks: Chunks, ghost done: set<nat>) returns (bytes: seq<Byte>)
      requires LaneHolds(buffer[..], chunks, done) && (forall i: nat | i < |chunks| :: i in done) && n == Lengths(chunks, |chunks|)
      ensures bytes == Flat(chunks)
    {
      hide Flat, LaneHolds, Lengths;
      LaneIsFlat(buffer[..], chunks, done, n);
      bytes := buffer[..n];
    }

    static lemma StaysInRange(done: set<nat>, pos: seq<nat>, n: nat, w: nat)
      requires ProgressIs(done, pos, n) && w < |pos|
      ensures pos[w] <= RangeStart(w + 1, n, |pos|)
    {
    }
  }

  lemma LaneIsFlat(bytes: seq<Byte>, chunks: Chunks, done: set<nat>, n: nat)
    requires LaneHolds(bytes, chunks, done) && (forall i: nat | i < |chunks| :: i in done) && n == Lengths(chunks, |chunks|)
    ensures n <= |bytes| && bytes[..n] == Flat(chunks)
  {
    SpansMakeFlat(bytes, chunks);
  }

  /** Whatever the buffers held, however many workers there are and however they interleave, the bytes are those of the
      simple form's chunks. */
  method PackObservationRows(rows: seq<Observation>, scratch: Scratch, procs: nat, schedule: seq<nat>) returns (r: Response)
    requires scratch.Valid() && procs > 0
    modifies scratch, scratch.Buffers()
    ensures r == Packed(rows) && (rows == [] || rows[0].channels != 0 ==> r == AppendAll(rows))
    ensures scratch.Valid() && fresh(scratch.Buffers() - old(scratch.Buffers()))
  {
    hide Packed, AppendAll, PlaneChunks, ScalarChunks, MaskChunks, EventChunks, OffsetsOf;
    if |rows| == 0 {
      NothingToPack();
      return EMPTY;
    }
    var window := rows[0].window;
    var n := |rows|;
    var planeOff, scalarOff, maskOff, eventOff := Offsets(rows);
    SizesAreThere(planeOff, PlaneChunks(rows));
    SizesAreThere(scalarOff, ScalarChunks(rows));
    SizesAreThere(maskOff, MaskChunks(rows));
    if window > 0 {
      SizesAreThere(eventOff, EventChunks(rows, window));
    }
    ChunksPerRow(rows, window);
    SizeBuffers(scratch, planeOff[n], scalarOff[n], maskOff[n], if window > 0 then 4 * n else 0, if window > 0 then eventOff[n] else 0);
    if window > 0 {
      Clear(scratch.events, eventOff[n]);
    }
    r := FillBuffers(rows, scratch, if n < procs then n else procs, schedule, planeOff, scalarOff, maskOff, eventOff);
    PackedMeetsAppended(rows);
  }

  lemma NothingToPack()
    ensures Packed([]) == AppendAll([]) == EMPTY
  {
  }

  lemma SizesAreThere(off: seq<nat>, chunks: Chunks)
    requires OffsetsOf(off, chunks)
    ensures |off| == |chunks| + 1
  {
  }

  lemma ChunksPerRow(rows: seq<Observation>, window: nat)
    ensures |PlaneChunks(rows)| == |ScalarChunks(rows)| == |MaskChunks(rows)| == |EventChunks(rows, window)| == |rows|
  {
  }

  /** The workers' part: the buffers are large enough and the event buffer is clear. */
  method FillBuffers(rows: seq<Observation>, scratch: Scratch, workers: nat, schedule: seq<nat>,
                     planeOff: seq<nat>, scalarOff: seq<nat>, maskOff: seq<nat>, eventOff: seq<nat>) returns (r: Response)
    requires scratch.Valid() && rows != [] && workers > 0
    requires |planeOff| == |scalarOff| == |maskOff| == |rows| + 1
    requires OffsetsOf(planeOff, PlaneChunks(rows)) && scratch.planes.Length >= planeOff[|rows|]
    requires OffsetsOf(scalarOff, ScalarChunks(rows)) && scratch.scalars.Length >= scalarOff[|rows|]
    requires OffsetsOf(maskOff, MaskChunks(rows)) && scratch.masks.Length >= maskOff[|rows|]
    requires rows[0].window > 0 ==>
               && |eventOff| == |rows| + 1 && OffsetsOf(eventOff, EventChunks(rows, rows[0].window))
               && scratch.counts.Length >= 4 * |rows| && scratch.events.Length >= eventOff[|rows|]
               && forall k | 0 <= k < eventOff[|rows|] :: scratch.events[k] == 0
    modifies scratch.Buffers()
    ensures r == Packed(rows)
  {
    hide Packed, LaneHolds, RestZero, ProgressIs, OffsetsOf, PlaneChunks, ScalarChunks, MaskChunks, EventChunks;
    var job := new Job(rows, workers, scratch.planes, scratch.scalars, scratch.masks, scratch.counts, scratch.events,
                       planeOff, scalarOff, maskOff, eventOff);
    job.Run(schedule);
    r := job.Collect();
  }

  method SizeBuffers(scratch: Scratch, planes: nat, scalars: nat, masks: nat, counts: nat, events: nat)
    requires scratch.Valid()
    modifies scratch
    ensures scratch.Valid() && fresh(scratch.Buffers() - old(scratch.Buffers()))
    ensures scratch.planes.Length >= planes && scratch.scalars.Length >= scalars && scratch.masks.Length >= masks
    ensures scratch.counts.Length >= counts && scratch.events.Length >= events
  {
    var p := Sized(scratch.planes, planes);
    var s := Sized(scratch.scalars, scalars);
    var m := Sized(scratch.masks, masks);
    var c := Sized(scratch.counts, counts);
    var e := Sized(scratch.events, events);
    scratch.planes, scratch.scalars, scratch.masks, scratch.counts, scratch.events := p, s, m, c, e;
  }
}
