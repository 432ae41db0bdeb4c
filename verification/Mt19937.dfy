/** The generator behind every wall: seeding, block regeneration in place, and the recurrence they implement. */
module Mt19937 {
  import Hand

  const N := 624
  const M := 397
  const MATRIX_A: bv32 := 0x9908b0df
  const UPPER_MASK: bv32 := 0x80000000
  const LOWER_MASK: bv32 := 0x7fffffff

  // ---- The recurrence of section 26.5.3.2 [rand.eng.mers] of ISO C++11 ----

  function Joined(hi: bv32, lo: bv32): bv32 {
    (hi & UPPER_MASK) | (lo & LOWER_MASK)
  }

  function Mag01(y: bv32): bv32 {
    if y & 1 == 0 then 0 else MATRIX_A
  }

  function NextWord(far: bv32, hi: bv32, lo: bv32): bv32 {
    var y := Joined(hi, lo);
    far ^ (y >> 1) ^ Mag01(y)
  }

  type Words = s: seq<bv32> | |s| == N witness seq(N, _ => 0)

  /** The infinite sequence that starts with the seeded state. */
  function X(seed: Words, k: nat): bv32 {
    if k < N then seed[k] else NextWord(X(seed, k - N + M), X(seed, k - N), X(seed, k - N + 1))
  }

  lemma Recurrence(seed: Words, k: nat)
    ensures X(seed, k + 624) == NextWord(X(seed, k + 397), X(seed, k), X(seed, k + 1))
  {
  }

  function Temper(y: bv32): bv32 {
    Last(Third(Second(First(y))))
  }

  function First(y: bv32): bv32 { y ^ (y >> 11) }
  function Second(y: bv32): bv32 { y ^ ((y << 7) & 0x9d2c5680) }
  function Third(y: bv32): bv32 { y ^ ((y << 15) & 0xefc60000) }
  function Last(y: bv32): bv32 { y ^ (y >> 18) }

  function UndoFirst(z: bv32): bv32 { z ^ (z >> 11) ^ (z >> 22) }
  function UndoLast(z: bv32): bv32 { z ^ (z >> 18) }

  lemma FirstIs(y: bv32)
    ensures First(y) == y ^ (y >> 11)
  {
  }

  lemma UndoFirstAt(y: bv32)
    ensures UndoFirst(y ^ (y >> 11)) == y
  {
  }

  lemma FirstUndone(y: bv32)
    ensures UndoFirst(First(y)) == y
  {
    hide First, UndoFirst;
    FirstIs(y);
    UndoFirstAt(y);
  }

  lemma SecondSeparates(x: bv32, y: bv32)
    ensures Second(x) == Second(y) <==> x == y
  {
  }

  lemma ThirdSeparates(x: bv32, y: bv32)
    ensures Third(x) == Third(y) <==> x == y
  {
  }

  lemma LastIs(y: bv32)
    ensures Last(y) == y ^ (y >> 18)
  {
  }

  lemma UndoLastAt(y: bv32)
    ensures UndoLast(y ^ (y >> 18)) == y
  {
  }

  lemma LastUndone(y: bv32)
    ensures UndoLast(Last(y)) == y
  {
    hide Last, UndoLast;
    LastIs(y);
    UndoLastAt(y);
  }

  /** Tempering loses nothing: two outputs are equal exactly when the words behind them are. */
  lemma TemperSeparates(x: bv32, y: bv32)
    ensures Temper(x) == Temper(y) <==> x == y
  {
    hide First, Second, Third, Last, UndoFirst, UndoLast;
    FirstUndone(x);
    FirstUndone(y);
    SecondSeparates(First(x), First(y));
    ThirdSeparates(Second(First(x)), Second(First(y)));
    LastUndone(Third(Second(First(x))));
    LastUndone(Third(Second(First(y))));
  }

  // ---- Seeding ----

  function Scrambled(x: bv32): bv32 {
    x ^ (x >> 30)
  }

  function Truncated(i: nat): bv32 {
    (i % 0x1_0000_0000) as bv32
  }

  function FillWord(prev: bv32, i: nat): bv32 {
    1812433253 * Scrambled(prev) + Truncated(i)
  }

  function KeyWord(word: bv32, prev: bv32, key: bv32, j: nat): bv32 {
    (word ^ (Scrambled(prev) * 1664525)) + key + Truncated(j)
  }

  function IndexWord(word: bv32, prev: bv32, i: nat): bv32 {
    (word ^ (Scrambled(prev) * 1566083941)) - Truncated(i)
  }

  /** The linear fill from one word. */
  function Filled(s: bv32, i: nat): bv32 {
    if i == 0 then s else FillWord(Filled(s, i - 1), i)
  }

  function FilledState(s: bv32): Words {
    seq(N, i requires 0 <= i < N => Filled(s, i))
  }

  /** Mixing position: the state, the next index to mix, and the next key word. */
  datatype Mixing = Mixing(mt: Words, i: nat, j: nat)

  predicate InMix(s: Mixing, keys: nat) {
    1 <= s.i < N && s.j < keys
  }

  function Wrapped(mt: Words, i: nat): (r: (Words, nat))
    requires 1 <= i < N
    ensures 1 <= r.1 < N
  {
    if i + 1 >= N then (mt[0 := mt[N - 1]], 1) else (mt, i + 1)
  }

  function MixKey(s: Mixing, key: seq<bv32>): (s': Mixing)
    requires InMix(s, |key|)
    ensures InMix(s', |key|)
  {
    var word := KeyWord(s.mt[s.i], s.mt[s.i - 1], key[s.j], s.j);
    var (mt, i) := Wrapped(s.mt[s.i := word], s.i);
    Mixing(mt, i, if s.j + 1 >= |key| then 0 else s.j + 1)
  }

  function MixKeys(s: Mixing, key: seq<bv32>, steps: nat): (s': Mixing)
    requires InMix(s, |key|)
    ensures InMix(s', |key|)
  {
    if steps == 0 then s else MixKey(MixKeys(s, key, steps - 1), key)
  }

  function MixIndex(mt: Words, i: nat): (r: (Words, nat))
    requires 1 <= i < N
    ensures 1 <= r.1 < N
  {
    var word := IndexWord(mt[i], mt[i - 1], i);
    Wrapped(mt[i := word], i)
  }

  function MixIndices(mt: Words, i: nat, steps: nat): (r: (Words, nat))
    requires 1 <= i < N
    ensures 1 <= r.1 < N
  {
    if steps == 0 then (mt, i)
    else
      var (mt', i') := MixIndices(mt, i, steps - 1);
      MixIndex(mt', i')
  }

  /** The state a key array seeds. */
  function KeyedState(key: seq<bv32>): Words
    requires key != []
  {
    var s := MixKeys(Mixing(FilledState(19650218), 1, 0), key, if |key| > N then |key| else N);
    MixIndices(s.mt, s.i, N - 1).0[0 := 0x80000000]
  }

  // ---- The state never degenerates ----

  /** The bits the recurrence still reads: the top bit of x(k) and the 623 words after it. */
  ghost predicate WindowIsZero(seed: Words, k: nat) {
    X(seed, k) & UPPER_MASK == 0 && forall i | k < i < k + N :: X(seed, i) == 0
  }

  lemma ZeroComesFromZero(far: bv32, hi: bv32, lo: bv32)
    requires far == 0 && NextWord(far, hi, lo) == 0
    ensures hi & UPPER_MASK == 0 && lo & LOWER_MASK == 0
  {
  }

  lemma BothHalves(x: bv32)
    requires x & UPPER_MASK == 0 && x & LOWER_MASK == 0
    ensures x == 0
  {
  }

  lemma {:induction false} ZeroWindowGoesBack(seed: Words, k: nat)
    requires WindowIsZero(seed, k + 1)
    ensures WindowIsZero(seed, k)
  {
    hide X, NextWord;
    Recurrence(seed, k);
    assert X(seed, k + M) == 0 && X(seed, k + N) == 0;
    ZeroComesFromZero(X(seed, k + M), X(seed, k), X(seed, k + 1));
    BothHalves(X(seed, k + 1));
  }

  lemma {:induction false} ZeroWindowReachesTheSeed(seed: Words, k: nat)
    requires WindowIsZero(seed, k)
    ensures WindowIsZero(seed, 0)
  {
    if k > 0 {
      ZeroWindowGoesBack(seed, k - 1);
      ZeroWindowReachesTheSeed(seed, k - 1);
    }
  }

  /** Whatever key seeded it, the generator never falls into the all-zero state, in which it would stay. */
  lemma KeyedStateNeverDegenerates(key: seq<bv32>, k: nat)
    requires key != []
    ensures !WindowIsZero(KeyedState(key), k)
  {
    hide KeyedState;
    if WindowIsZero(KeyedState(key), k) {
      ZeroWindowReachesTheSeed(KeyedState(key), k);
      TopBitIsSet(key);
    }
  }

  lemma TopBitIsSet(key: seq<bv32>)
    requires key != []
    ensures X(KeyedState(key), 0) == 0x80000000
  {
    hide MixKeys, MixIndices;
  }

  // ---- Worked words ----

  /** Steps of the run from the default seed 5489, by which the constants can be told from others: the fill, two words of the
      recurrence that follow an odd and an even word, and the first two outputs. */
  lemma DefaultSeedWords()
    ensures FillWord(5489, 1) == 1301868182 && FillWord(1301868182, 2) == 2938499221
    ensures NextWord(3183906156, 5489, 1301868182) == 2601187879 && NextWord(1728556020, 1301868182, 2938499221) == 3919438689
    ensures Temper(2601187879) == 3499211612 && Temper(3919438689) == 581869302
  {
    hide FillWord, NextWord, Temper;
    FillSteps();
    RecurrenceSteps();
    TemperSteps();
  }

  lemma FillSteps()
    ensures FillWord(5489, 1) == 1301868182 && FillWord(1301868182, 2) == 2938499221
  {
    assert Truncated(1) == 1 && Truncated(2) == 2;
  }

  lemma RecurrenceSteps()
    ensures NextWord(3183906156, 5489, 1301868182) == 2601187879 && NextWord(1728556020, 1301868182, 2938499221) == 3919438689
  {
  }

  lemma TemperSteps()
    ensures Temper(2601187879) == 3499211612 && Temper(3919438689) == 581869302
  {
  }

  /** One step of each mixing pass. */
  lemma MixingSteps()
    ensures KeyWord(1301868182, 5489, 0x12345678, 3) == 2135050406 && IndexWord(1301868182, 5489, 7) == 974929404
  {
    assert Truncated(3) == 3 && Truncated(7) == 7;
  }

  // ---- The generator object ----

  class MT19937 {
    var mt: array<bv32>
    var mti: nat
    ghost var origin: seq<bv32>
    ghost var drawn: nat

    /** After drawn outputs the array is the block of the sequence they came from, with mti of it used. */
    ghost predicate Valid()
      reads this, mt
    {
      && mt.Length == N && |origin| == N
      && if mti == N + 1 then drawn == 0 && origin == FilledState(5489)
         else
           && mti <= N && N + drawn >= mti
           && (forall i: nat | i < N :: mt[i] == X(origin, N + drawn - mti + i))
    }

    constructor ()
      ensures Valid() && fresh(mt) && origin == FilledState(5489) && drawn == 0
    {
      mt := new bv32[N](_ => 0);
      mti := N + 1;
      origin, drawn := FilledState(5489), 0;
    }

    method Seed(s: bv32)
      requires mt.Length == N
      modifies this, mt
      ensures mt == old(mt) && Valid() && mt[..] == origin == FilledState(s) && drawn == 0 && mti == N
    {
      hide Filled, FillWord;
      mt[0] := s;
      FilledStart(s);
      mti := 1;
      while mti < N
        invariant 1 <= mti <= N && mt == old(mt)
        invariant forall i: nat | i < mti :: mt[i] == Filled(s, i)
      {
        FilledNext(s, mti);
        mt[mti] := FillWord(mt[mti - 1], mti);
        mti := mti + 1;
      }
      origin, drawn := FilledState(s), 0;
    }

    static lemma FilledStart(s: bv32)
      ensures Filled(s, 0) == s
    {
    }

    static lemma FilledNext(s: bv32, i: nat)
      requires i > 0
      ensures Filled(s, i) == FillWord(Filled(s, i - 1), i)
    {
      hide FillWord;
    }

    method SeedSlice(initKey: seq<bv32>)
      requires mt.Length == N && initKey != []
      modifies this, mt
      ensures mt == old(mt) && Valid() && mt[..] == origin == KeyedState(initKey) && drawn == 0 && mti == N
    {
      hide FilledState, MixKeys, MixIndices, Filled, X;
      Seed(19650218);
      var i := MixKeyRounds(initKey, if |initKey| > N then |initKey| else N);
      MixIndexRounds(i);
      mt[0] := 0x80000000;
      mti := N;
      origin, drawn := mt[..], 0;
      StartsWithState(origin, mt[..]);
    }

    method MixKeyRounds(key: seq<bv32>, rounds: nat) returns (i: nat)
      requires mt.Length == N && key != []
      modifies mt
      ensures var s := MixKeys(Mixing(old(mt[..]), 1, 0), key, rounds); mt[..] == s.mt && i == s.i
    {
      hide MixKey;
      var j: nat := 0;
      i := 1;
      ghost var start := Mixing(mt[..], 1, 0);
      for k := 0 to rounds
        invariant InMix(Mixing(mt[..], i, j), |key|) && Mixing(mt[..], i, j) == MixKeys(start, key, k)
      {
        i, j := MixKeyStep(i, j, key);
      }
    }

    method MixIndexRounds(from: nat)
      requires mt.Length == N && 1 <= from < N
      modifies mt
      ensures mt[..] == MixIndices(old(mt[..]), from, N - 1).0
    {
      hide MixIndex;
      var i := from;
      ghost var start := mt[..];
      for k := 0 to N - 1
        invariant 1 <= i < N && (mt[..], i) == MixIndices(start, from, k)
      {
        i := MixIndexStep(i);
      }
    }

    method MixKeyStep(i: nat, j: nat, key: seq<bv32>) returns (i': nat, j': nat)
      requires mt.Length == N && 1 <= i < N && j < |key|
      modifies mt
      ensures InMix(Mixing(mt[..], i', j'), |key|) && Mixing(mt[..], i', j') == MixKey(Mixing(old(mt[..]), i, j), key)
    {
      hide KeyWord;
      mt[i] := KeyWord(mt[i], mt[i - 1], key[j], j);
      i', j' := i + 1, j + 1;
      if i' >= N {
        mt[0] := mt[N - 1];
        i' := 1;
      }
      if j' >= |key| {
        j' := 0;
      }
    }

    method MixIndexStep(i: nat) returns (i': nat)
      requires mt.Length == N && 1 <= i < N
      modifies mt
      ensures 1 <= i' < N && (mt[..], i') == MixIndex(old(mt[..]), i)
    {
      hide IndexWord;
      mt[i] := IndexWord(mt[i], mt[i - 1], i);
      i' := i + 1;
      if i' >= N {
        mt[0] := mt[N - 1];
        i' := 1;
      }
    }

    /** Replaces the whole block by the next one, overwriting each word after its last use. */
    method Regenerate()
      requires Valid() && mti == N
      modifies this`mti, mt
      ensures Valid() && mti == 0
    {
      hide X, NextWord;
      ghost var base := drawn;
      var kk := 0;
      while kk < N - M
        invariant 0 <= kk <= N - M
        invariant forall i: nat | i < kk :: mt[i] == X(origin, base + N + i)
        invariant forall i: nat | kk <= i < N :: mt[i] == X(origin, base + i)
      {
        Recurrence(origin, base + kk);
        mt[kk] := NextWord(mt[kk + M], mt[kk], mt[kk + 1]);
        kk := kk + 1;
      }
      while kk < N - 1
        invariant N - M <= kk <= N - 1
        invariant forall i: nat | i < kk :: mt[i] == X(origin, base + N + i)
        invariant forall i: nat | kk <= i < N :: mt[i] == X(origin, base + i)
      {
        Recurrence(origin, base + kk);
        mt[kk] := NextWord(mt[kk + M - N], mt[kk], mt[kk + 1]);
        kk := kk + 1;
      }
      Recurrence(origin, base + N - 1);
      mt[N - 1] := NextWord(mt[M - 1], mt[N - 1], mt[0]);
      mti := 0;
    }

    /** The k-th output after seeding is the tempering of x(k + 624), across any number of blocks. */
    method GenU32() returns (y: bv32)
      requires Valid()
      modifies this, mt
      ensures Valid() && mt == old(mt) && origin == old(origin) && drawn == old(drawn) + 1
      ensures y == Temper(X(origin, N + old(drawn)))
    {
      hide X, FilledState, Temper;
      if mti >= N {
        if mti == N + 1 {
          Seed(5489);
          StartsWithState(origin, mt[..]);
        }
        Regenerate();
      }
      y := mt[mti];
      mti := mti + 1;
      drawn := drawn + 1;
      y := Temper(y);
    }

    static lemma StartsWithState(origin: Words, mt: Words)
      requires mt == origin
      ensures forall i: nat | i < N :: mt[i] == X(origin, i)
    {
    }
  }

  method MTFromSeed(seed: seq<bv32>) returns (mt: MT19937)
    requires seed != []
    ensures fresh(mt) && fresh(mt.mt) && mt.Valid() && mt.origin == KeyedState(seed) && mt.drawn == 0
  {
    mt := new MT19937();
    mt.SeedSlice(seed);
  }

  /** The next words of a generator that has already given some, as the wall's random source reads them. */
  method Source(mt: MT19937, count: nat) returns (src: seq<bv32>)
    requires mt.Valid()
    modifies mt, mt.mt
    ensures mt.Valid() && mt.mt == old(mt.mt) && mt.origin == old(mt.origin) && mt.drawn == old(mt.drawn) + count
    ensures |src| == count && forall k: nat | k < count :: src[k] == Temper(X(mt.origin, N + old(mt.drawn) + k))
  {
    hide X, Temper;
    src := [];
    for k := 0 to count
      invariant mt.Valid() && mt.mt == old(mt.mt) && mt.origin == old(mt.origin) && mt.drawn == old(mt.drawn) + k
      invariant |src| == k && forall i: nat | i < k :: src[i] == Temper(X(mt.origin, N + old(mt.drawn) + i))
    {
      var y := mt.GenU32();
      src := src + [y];
    }
  }

  const SRC_LEN := 288

  /** The n-th word of the generator a hand's seed array starts. */
  function Output(seed: seq<bv32>, n: nat): bv32
    requires seed != []
  {
    Temper(X(KeyedState(seed), N + n))
  }

  function Dealer(y: bv32): (seat: int)
    ensures 0 <= seat < 4
  {
    (y as int) % 4
  }

  function Die(y: bv32): (pips: int)
    ensures 1 <= pips <= 6
  {
    (y as int) % 6 + 1
  }

  /** Everything a deal draws at random, from one generator: the dealer unless one is set, the words behind the shuffle, and
      the two dice. A dealer that is rolled takes the first word and shifts the rest by one. */
  method DealRolls(seed: seq<bv32>, nextDealer: Hand.Option<nat>) returns (dealer: int, src: seq<bv32>, d1: int, d2: int)
    requires seed != []
    ensures var n := if nextDealer.Some? then 0 else 1;
            && dealer == (if nextDealer.Some? then nextDealer.value else Dealer(Output(seed, 0)))
            && |src| == SRC_LEN && (forall k: nat | k < SRC_LEN :: src[k] == Output(seed, n + k))
            && d1 == Die(Output(seed, n + SRC_LEN)) && d2 == Die(Output(seed, n + SRC_LEN + 1)) && 2 <= d1 + d2 <= 12
  {
    hide X, KeyedState, Temper, Dealer, Die;
    var mt := MTFromSeed(seed);
    var y: bv32;
    if nextDealer.Some? {
      dealer := nextDealer.value;
    } else {
      y := mt.GenU32();
      dealer := Dealer(y);
    }
    src := Source(mt, SRC_LEN);
    y := mt.GenU32();
    d1 := Die(y);
    y := mt.GenU32();
    d2 := Die(y);
  }
}
