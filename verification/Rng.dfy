/** The xorshift64* generator that the plugin repeats in three places. */
module Rng {
  import opened Prelude

  function FoldRight12(x: bv64): bv64 {
    x ^ (x >> 12)
  }

  function FoldLeft25(x: bv64): bv64 {
    x ^ (x << 25)
  }

  function FoldRight27(x: bv64): bv64 {
    x ^ (x >> 27)
  }

  function Shuffle(x: bv64): bv64 {
    FoldRight27(FoldLeft25(FoldRight12(x)))
  }

  // SimpleRand and NextRand replace a zero state; NextSample relies on never having one.
  const FALLBACK_STATE: bv64 := 0x9E37_79B9_7F4A_7C15

  function Seeded(state: bv64): bv64 {
    if state == 0 then FALLBACK_STATE else state
  }

  function Output(x: bv64): uint64 {
    (x * 0x2545_F491_4F6C_DD1D) as int
  }

  lemma FoldRight12NonZero(x: bv64)
    ensures FoldRight12(x) == 0 <==> x == 0
  {
  }

  lemma FoldLeft25NonZero(x: bv64)
    ensures FoldLeft25(x) == 0 <==> x == 0
  {
  }

  lemma FoldRight27NonZero(x: bv64)
    ensures FoldRight27(x) == 0 <==> x == 0
  {
  }

  // Where two states lead, and what is drawn from the state 2.
  lemma ShuffleExamples()
    ensures Shuffle(1) == 0x0200_0001
    ensures Shuffle(0x8000_0000_0000_0000) == 0x8008_0010_0100_0000
    ensures Output(2) == 0x4A8B_E922_9ED9_BA3A
  {
  }

  // The three steps are invertible, so only zero leads to zero.
  lemma ShuffleKeepsNonZero(x: bv64)
    ensures Shuffle(x) == 0 <==> x == 0
  {
    hide FoldRight12, FoldLeft25, FoldRight27;
    FoldRight12NonZero(x);
    FoldLeft25NonZero(FoldRight12(x));
    FoldRight27NonZero(FoldLeft25(FoldRight12(x)));
  }
}
