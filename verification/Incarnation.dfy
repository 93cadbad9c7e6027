/** The 64-bit lifetime counter: when two adoptions can carry the same stamp. */
module Incarnation {
  import opened Prelude
  import opened Manager

  // The number of values a stamp can take.
  const CYCLE: nat := TWO_64 - 1

  // The counter after n adoptions.
  function StampAfter(seed: uint64, n: nat): uint64 {
    if n == 0 then seed else NextIncarnation(StampAfter(seed, n - 1))
  }

  lemma {:induction false} StampClosedForm(seed: uint64, n: nat)
    requires n > 0
    ensures StampAfter(seed, n) == (seed + n - 1) % CYCLE + 1
  {
    if n == 1 {
      assert StampAfter(seed, 0) == seed;
      Successor(seed);
    } else {
      StampClosedForm(seed, n - 1);
      Successor(seed + n - 1);
      assert StampAfter(seed, n - 1) == Residue(seed + n - 1);
    }
  }

  // The non-zero stamp that stands for a number of steps from zero.
  function Residue(m: nat): uint64 {
    if m == 0 then 0 else (m - 1) % CYCLE + 1
  }

  lemma Successor(m: nat)
    ensures m > 0 ==> NextIncarnation(Residue(m)) == m % CYCLE + 1
    ensures m < TWO_64 ==> NextIncarnation(m) == m % CYCLE + 1
  {
    if m > 0 {
      var k := m - 1;
      assert (k + 1) % CYCLE == if k % CYCLE == CYCLE - 1 then 0 else k % CYCLE + 1;
    }
  }

  // Stamps are never zero, and the stamps of two adoptions agree exactly when the adoptions lie
  // a multiple of 2^64 - 1 apart.
  lemma StampsAgree(seed: uint64, i: nat, j: nat)
    requires 0 < i <= j
    ensures StampAfter(seed, i) != 0 && StampAfter(seed, j) != 0
    ensures StampAfter(seed, i) == StampAfter(seed, j) <==> (j - i) % CYCLE == 0
  {
    StampClosedForm(seed, i);
    StampClosedForm(seed, j);
    SameRemainder(seed + i - 1, seed + j - 1);
  }

  lemma SameRemainder(a: nat, b: nat)
    requires a <= b
    ensures a % CYCLE == b % CYCLE <==> (b - a) % CYCLE == 0
  {
    var q := (b - a) / CYCLE;
    AddCycles(a % CYCLE, a / CYCLE);
    AddCycles(a % CYCLE + (b - a) % CYCLE, a / CYCLE + q);
    if a % CYCLE + (b - a) % CYCLE >= CYCLE {
      AddCycles(a % CYCLE + (b - a) % CYCLE - CYCLE, a / CYCLE + q + 1);
    }
  }

  lemma AddCycles(r: nat, q: int)
    ensures r < CYCLE ==> (r + q * CYCLE) % CYCLE == r
  {
  }

  // Any 2^64 - 1 adoptions in a row have distinct stamps, whatever the counter started from; the
  // next one repeats the first.
  lemma FreshForOneCycle(seed: uint64, first: nat)
    requires first > 0
    ensures forall i, j :: first <= i < j < first + CYCLE ==> StampAfter(seed, i) != StampAfter(seed, j)
    ensures StampAfter(seed, first + CYCLE) == StampAfter(seed, first)
  {
    forall i, j | first <= i < j < first + CYCLE ensures StampAfter(seed, i) != StampAfter(seed, j) {
      StampsAgree(seed, i, j);
    }
    StampsAgree(seed, first, first + CYCLE);
  }
}
