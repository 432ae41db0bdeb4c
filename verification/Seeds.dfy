/** From a match seed and a hand number to the seed words of a hand's wall. */
module Seeds {
  const WORDS := 624

  // ---- The mix is a bijection ----

  function Xor30(z: bv64): bv64 { z ^ (z >> 30) }
  function Xor27(z: bv64): bv64 { z ^ (z >> 27) }
  function Xor31(z: bv64): bv64 { z ^ (z >> 31) }
  function Times1(z: bv64): bv64 { z * 0xbf58476d1ce4e5b9 }
  function Times2(z: bv64): bv64 { z * 0x94d049bb133111eb }

  function Mix(z: bv64): bv64 {
    Xor31(Times2(Xor27(Times1(Xor30(z)))))
  }

  function UndoXor30(z: bv64): bv64 { z ^ (z >> 30) ^ (z >> 60) }
  function UndoXor27(z: bv64): bv64 { z ^ (z >> 27) ^ (z >> 54) }
  function UndoXor31(z: bv64): bv64 { z ^ (z >> 31) ^ (z >> 62) }
  function UndoTimes1(z: bv64): bv64 { z * 0x96de1b173f119089 }
  function UndoTimes2(z: bv64): bv64 { z * 0x319642b2d24d8ec3 }

  function Unmix(z: bv64): bv64 {
    UndoXor30(UndoTimes1(UndoXor27(UndoTimes2(UndoXor31(z)))))
  }

  lemma StepsAre(z: bv64)
    ensures Xor30(z) == z ^ (z >> 30) && Xor27(z) == z ^ (z >> 27) && Xor31(z) == z ^ (z >> 31)
    ensures Times1(z) == z * 0xbf58476d1ce4e5b9 && Times2(z) == z * 0x94d049bb133111eb
  {
  }

  lemma UndoXor30At(z: bv64)
    ensures UndoXor30(z ^ (z >> 30)) == z
  {
  }

  lemma UndoXor27At(z: bv64)
    ensures UndoXor27(z ^ (z >> 27)) == z
  {
  }

  lemma UndoXor31At(z: bv64)
    ensures UndoXor31(z ^ (z >> 31)) == z
  {
  }

  lemma UndoTimes1At(z: bv64)
    ensures UndoTimes1(z * 0xbf58476d1ce4e5b9) == z
  {
  }

  lemma UndoTimes2At(z: bv64)
    ensures UndoTimes2(z * 0x94d049bb133111eb) == z
  {
  }

  lemma StepsUndone(z: bv64)
    ensures UndoXor30(Xor30(z)) == z && UndoXor27(Xor27(z)) == z && UndoXor31(Xor31(z)) == z
    ensures UndoTimes1(Times1(z)) == z && UndoTimes2(Times2(z)) == z
  {
    hide Xor30, Xor27, Xor31, Times1, Times2, UndoXor30, UndoXor27, UndoXor31, UndoTimes1, UndoTimes2;
    StepsAre(z);
    UndoXor30At(z);
    UndoXor27At(z);
    UndoXor31At(z);
    UndoTimes1At(z);
    UndoTimes2At(z);
  }

  lemma Unmixed(z: bv64)
    ensures Unmix(Mix(z)) == z
  {
    hide Xor30, Xor27, Xor31, Times1, Times2, UndoXor30, UndoXor27, UndoXor31, UndoTimes1, UndoTimes2;
    StepsUndone(z);
    StepsUndone(Xor30(z));
    StepsUndone(Times1(Xor30(z)));
    StepsUndone(Xor27(Times1(Xor30(z))));
    StepsUndone(Times2(Xor27(Times1(Xor30(z)))));
  }

  lemma MixSeparates(x: bv64, y: bv64)
    ensures Mix(x) == Mix(y) <==> x == y
  {
    hide Mix, Unmix;
    Unmixed(x);
    Unmixed(y);
  }

  // ---- Hand seeds ----

  function Offset(baseSeed: bv64, hand: bv64): bv64 {
    baseSeed + 0x9e3779b97f4a7c15 * (hand + 1)
  }

  function UndoOffset(baseSeed: bv64, z: bv64): bv64 {
    (z - baseSeed) * 0xf1de83e19937733d - 1
  }

  lemma UndoOffsetAt(baseSeed: bv64, hand: bv64)
    ensures UndoOffset(baseSeed, baseSeed + 0x9e3779b97f4a7c15 * (hand + 1)) == hand
  {
  }

  lemma OffsetIs(baseSeed: bv64, hand: bv64)
    ensures Offset(baseSeed, hand) == baseSeed + 0x9e3779b97f4a7c15 * (hand + 1)
  {
  }

  lemma OffsetSeparates(baseSeed: bv64, g: bv64, h: bv64)
    ensures Offset(baseSeed, g) == Offset(baseSeed, h) <==> g == h
  {
    hide Offset, UndoOffset;
    OffsetIs(baseSeed, g);
    OffsetIs(baseSeed, h);
    UndoOffsetAt(baseSeed, g);
    UndoOffsetAt(baseSeed, h);
  }

  function DeriveHandSeed(baseSeed: bv64, hand: bv64): bv64 {
    Mix(Offset(baseSeed, hand))
  }

  // ---- Seed words ----

  function LowWord(z: bv64): bv32 {
    (z & 0xFFFF_FFFF) as bv32
  }

  function HighWord(z: bv64): bv32 {
    (z >> 32) as bv32
  }

  lemma WordsSeparate(y: bv64, z: bv64)
    ensures LowWord(y) == LowWord(z) && HighWord(y) == HighWord(z) <==> y == z
  {
  }

  function Bump(z: bv64): bv64 { z + 0x9e3779b97f4a7c15 }
  function UndoBump(z: bv64): bv64 { z - 0x9e3779b97f4a7c15 }

  lemma BumpIs(z: bv64)
    ensures Bump(z) == z + 0x9e3779b97f4a7c15
  {
  }

  lemma UndoBumpAt(z: bv64)
    ensures UndoBump(z + 0x9e3779b97f4a7c15) == z
  {
  }

  lemma BumpUndone(z: bv64)
    ensures UndoBump(Bump(z)) == z
  {
    hide Bump, UndoBump;
    BumpIs(z);
    UndoBumpAt(z);
  }

  /** The counter after i steps. */
  function Counter(value: bv64, i: nat): bv64 {
    if i == 0 then value else Bump(Counter(value, i - 1))
  }

  /** Word pair i of the expanded seed: both halves of the mixed counter. */
  function SeedWord(value: bv64, i: nat): bv32 {
    var z := Mix(Counter(value, i / 2 + 1));
    if i % 2 == 0 then LowWord(z) else HighWord(z)
  }

  function SeedWords(value: bv64): (seed: seq<bv32>)
    ensures |seed| == WORDS
  {
    seq(WORDS, i requires 0 <= i < WORDS => SeedWord(value, i))
  }

  /** One generator step: the counter moves on and its mix is the output. */
  method SplitMix64(state: bv64) returns (next: bv64, word: bv64)
    ensures next == Bump(state) && word == Mix(Bump(state))
  {
    next := Bump(state);
    word := Mix(next);
  }

  /** The first output of the generator started at zero, by which its constants can be told from others; it is also the seed
      derived for hand zero of match zero, and its low half comes first. */
  lemma FirstOutputOfZero()
    ensures DeriveHandSeed(0, 0) == 0xe220a8397b1dcdaf
    ensures SeedWord(0, 0) == 0x7b1dcdaf && SeedWord(0, 1) == 0xe220a839
  {
    assert Bump(0) == 0x9e3779b97f4a7c15 && Offset(0, 0) == 0x9e3779b97f4a7c15;
    assert Mix(0x9e3779b97f4a7c15) == 0xe220a8397b1dcdaf;
    hide Mix;
    assert Counter(0, 1) == Bump(Counter(0, 0)) && Counter(0, 0) == 0;
  }

  method SeedFromUint64(value: bv64) returns (seed: array<bv32>)
    ensures fresh(seed) && seed[..] == SeedWords(value)
  {
    hide Mix, LowWord, HighWord, Bump;
    seed := new bv32[WORDS];
    var state := value;
    var i := 0;
    while i < WORDS
      invariant 0 <= i <= WORDS && i % 2 == 0
      invariant state == Counter(value, i / 2)
      invariant forall k: nat | k < i :: seed[k] == SeedWord(value, k)
    {
      var word: bv64;
      state, word := SplitMix64(state);
      NextCounter(value, i / 2);
      seed[i] := LowWord(word);
      if i + 1 < WORDS {
        seed[i + 1] := HighWord(word);
      }
      i := i + 2;
    }
  }

  lemma NextCounter(value: bv64, i: nat)
    ensures Counter(value, i + 1) == Bump(Counter(value, i))
  {
    hide Bump;
  }

  lemma CounterSeparates(v: bv64, w: bv64)
    ensures Counter(v, 1) == Counter(w, 1) <==> v == w
  {
    hide Bump, UndoBump;
    assert Counter(v, 1) == Bump(v) && Counter(w, 1) == Bump(w);
    BumpUndone(v);
    BumpUndone(w);
  }

  /** Already the first two words tell any two seed values apart. */
  lemma SeedWordsSeparate(v: bv64, w: bv64)
    ensures SeedWords(v) == SeedWords(w) <==> v == w
  {
    hide Mix, LowWord, HighWord, Counter;
    if SeedWords(v) == SeedWords(w) {
      assert SeedWords(v)[0] == SeedWords(w)[0] && SeedWords(v)[1] == SeedWords(w)[1];
      WordsSeparate(Mix(Counter(v, 1)), Mix(Counter(w, 1)));
      MixSeparates(Counter(v, 1), Counter(w, 1));
      CounterSeparates(v, w);
    }
  }

  /** Distinct hands of a match get distinct 624-word seeds, whatever the match seed. */
  lemma DistinctHandsGetDistinctSeeds(baseSeed: bv64, g: bv64, h: bv64)
    ensures SeedWords(DeriveHandSeed(baseSeed, g)) == SeedWords(DeriveHandSeed(baseSeed, h)) <==> g == h
  {
    hide SeedWords, Mix, Offset;
    SeedWordsSeparate(DeriveHandSeed(baseSeed, g), DeriveHandSeed(baseSeed, h));
    MixSeparates(Offset(baseSeed, g), Offset(baseSeed, h));
    OffsetSeparates(baseSeed, g, h);
  }
}
