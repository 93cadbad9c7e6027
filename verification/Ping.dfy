/** The simulated ping: jittered samples, the 64-tick window with its running sum, and the value
    published every 32 ticks. */
module Ping {
  import opened Prelude
  import opened Rng

  const WINDOW_TICKS: nat := 64
  const WRITE_EVERY_TICKS: nat := 32

  function Sum(s: seq<int>): int {
    if s == [] then 0 else Sum(s[..|s| - 1]) + s[|s| - 1]
  }

  // The samples a window shows after the whole history: the last 64, or all of them.
  function Window(history: seq<int>): (w: seq<int>)
    ensures |w| == if |history| < WINDOW_TICKS then |history| else WINDOW_TICKS
  {
    if |history| < WINDOW_TICKS then history else history[|history| - WINDOW_TICKS..]
  }

  // The code's division, which truncates towards zero.
  function Quotient(a: int, n: nat): int
    requires n > 0
  {
    if a >= 0 then a / n else -(-a / n)
  }

  function Average(history: seq<int>): int
    requires history != []
  {
    Quotient(Sum(Window(history)), |Window(history)|)
  }

  ghost predicate AllIn(s: seq<int>, low: int, high: int) {
    forall k :: 0 <= k < |s| ==> low <= s[k] <= high
  }

  lemma {:induction false} SumWithoutFirst(s: seq<int>)
    requires s != []
    ensures Sum(s) == s[0] + Sum(s[1..])
  {
    if |s| > 1 {
      SumWithoutFirst(s[..|s| - 1]);
      assert s[..|s| - 1][1..] == s[1..][..|s| - 2];
    }
  }

  // A new sample enters the window; past 64 samples, the one recorded 64 ticks ago leaves it.
  lemma SumSlides(history: seq<int>, x: int)
    ensures Sum(Window(history + [x])) ==
            Sum(Window(history)) + x - (if |history| < WINDOW_TICKS then 0 else history[|history| - WINDOW_TICKS])
  {
    var after := history + [x];
    if |history| < WINDOW_TICKS {
      if |after| == WINDOW_TICKS { assert Window(after) == after; }
      assert after[..|after| - 1] == history;
    } else {
      var wide := history[|history| - WINDOW_TICKS..] + [x];
      assert wide[1..] == Window(after);
      assert wide[..|wide| - 1] == Window(history);
      SumWithoutFirst(wide);
    }
  }

  lemma {:induction false} SumInRange(s: seq<int>, low: int, high: int)
    requires AllIn(s, low, high)
    ensures |s| * low <= Sum(s) <= |s| * high
  {
    if s != [] {
      var n := |s| - 1;
      SumInRange(s[..n], low, high);
      assert |s| * low == n * low + low && |s| * high == n * high + high;
    }
  }

  lemma NextMultiple(a: int, b: int, n: nat)
    requires a < b
    ensures a * n + n <= b * n
  {
    assert (b - a - 1) * n >= 0;
  }

  lemma DivideBounds(s: int, n: nat, low: int, high: int)
    requires n > 0 && n * low <= s <= n * high
    ensures low <= s / n <= high
  {
    assert s == s / n * n + s % n;
    if s / n < low {
      NextMultiple(s / n, low, n);
    }
    if high < s / n {
      NextMultiple(high, s / n, n);
    }
  }

  lemma QuotientBounds(s: int, n: nat, low: int, high: int)
    requires n > 0 && n * low <= s <= n * high
    ensures low <= Quotient(s, n) <= high
  {
    if s >= 0 {
      DivideBounds(s, n, low, high);
    } else {
      assert n * -high == -(n * high) && n * -low == -(n * low);
      DivideBounds(-s, n, -high, -low);
    }
  }

  // The average of samples from a range is in that range.
  lemma AverageInRange(history: seq<int>, low: int, high: int)
    requires history != [] && AllIn(history, low, high)
    ensures low <= Average(history) <= high
  {
    var w := Window(history);
    SumInRange(w, low, high);
    QuotientBounds(Sum(w), |w|, low, high);
  }

  // The ring buffer after the whole history.
  ghost function Ring(history: seq<int>): (r: seq<int>)
    ensures |r| == WINDOW_TICKS
  {
    if history == [] then seq(WINDOW_TICKS, i => 0)
    else
      var n := |history| - 1;
      Ring(history[..n])[n % WINDOW_TICKS := history[n]]
  }

  lemma NearbyTicksDiffer(t: nat, u: nat)
    requires t < u < t + WINDOW_TICKS
    ensures t % WINDOW_TICKS != u % WINDOW_TICKS
  {
  }

  // The ring holds the last 64 samples, each at its tick modulo 64.
  lemma {:induction false} RingHolds(history: seq<int>, t: nat)
    requires |history| - WINDOW_TICKS <= t < |history|
    ensures Ring(history)[t % WINDOW_TICKS] == history[t]
  {
    var n := |history| - 1;
    if t < n {
      RingHolds(history[..n], t);
      NearbyTicksDiffer(t, n);
    }
  }

  lemma {:induction false} RingStartsZero(history: seq<int>, k: nat)
    requires |history| <= k < WINDOW_TICKS
    ensures Ring(history)[k] == 0
  {
    if history != [] {
      RingStartsZero(history[..|history| - 1], k);
    }
  }

  // The sample that the next one replaces.
  lemma OldestSample(history: seq<int>)
    ensures Ring(history)[|history| % WINDOW_TICKS] ==
            if |history| < WINDOW_TICKS then 0 else history[|history| - WINDOW_TICKS]
  {
    var n := |history|;
    hide Ring;
    if n < WINDOW_TICKS {
      RingStartsZero(history, n);
    } else {
      assert (n - WINDOW_TICKS) % WINDOW_TICKS == n % WINDOW_TICKS;
      RingHolds(history, n - WINDOW_TICKS);
    }
  }

  // What recording one more sample does to the window, the ring and the running sum.
  lemma Recorded(history: seq<int>, x: int)
    ensures var n, after := |history|, history + [x];
            && Ring(after) == Ring(history)[n % WINDOW_TICKS := x]
            && Sum(Window(after)) == Sum(Window(history)) + x - Ring(history)[n % WINDOW_TICKS]
            && |Window(after)| == (if |Window(history)| < WINDOW_TICKS then |Window(history)| + 1 else WINDOW_TICKS)
  {
    OldestSample(history);
    SumSlides(history, x);
    assert (history + [x])[..|history|] == history;
  }

  // What the slot shows after the given samples: its baseline at first, and from the 32nd tick on
  // the average at the last multiple of 32.
  function Shown(history: seq<int>, baseline: int): int {
    if |history| < WRITE_EVERY_TICKS then baseline
    else Average(history[..|history| - |history| % WRITE_EVERY_TICKS])
  }

  // In numbers: nothing new is shown before the 32nd sample; then, as of the last multiple of 32, the
  // average of all samples, or of the last 64.
  lemma ShownInNumbers(history: seq<int>, baseline: int)
    ensures var n := |history| - |history| % 32;
            Shown(history, baseline) ==
              if n == 0 then baseline
              else if n < 64 then Quotient(Sum(history[..n]), n)
              else Quotient(Sum(history[n - 64..n]), 64)
  {
    var n := |history| - |history| % 32;
    if n >= 64 {
      assert history[..n][n - 64..] == history[n - 64..n];
    }
  }

  lemma ShownInRange(history: seq<int>, baseline: int, low: int, high: int)
    requires low <= baseline <= high && AllIn(history, low, high)
    ensures low <= Shown(history, baseline) <= high
  {
    if |history| >= WRITE_EVERY_TICKS {
      AverageInRange(history[..|history| - |history| % WRITE_EVERY_TICKS], low, high);
    }
  }

  class PingDisplay {
    const samples: array<int>
    var idx: nat
    var sum: int
    var filled: nat
    var ticksSinceWrite: nat
    var lastWritten: int
    ghost var history: seq<int>

    ghost predicate Valid()
      reads this, samples
    {
      && samples.Length == WINDOW_TICKS
      && idx == |history| % WINDOW_TICKS
      && filled == |Window(history)|
      && sum == Sum(Window(history))
      && samples[..] == Ring(history)
    }

    constructor ()
      ensures Valid() && fresh(samples) && history == [] && ticksSinceWrite == 0 && lastWritten == 0
    {
      samples := new int[WINDOW_TICKS](i => 0);
      idx, sum, filled, ticksSinceWrite, lastWritten := 0, 0, 0, 0, 0;
      history := [];
    }

    method RecordSample(latencyMs: int)
      requires Valid()
      modifies this, samples
      ensures Valid() && history == old(history) + [latencyMs]
      ensures ticksSinceWrite == old(ticksSinceWrite) && lastWritten == old(lastWritten)
    {
      Recorded(history, latencyMs);
      hide Sum, Ring, Window;
      var oldest := samples[idx];
      samples[idx] := latencyMs;
      sum := sum + latencyMs - oldest;
      idx := (idx + 1) % WINDOW_TICKS;
      if filled < WINDOW_TICKS {
        filled := filled + 1;
      }
      history := history + [latencyMs];
    }

    method CurrentAverage() returns (average: int)
      requires Valid()
      ensures average == if history == [] then 0 else Average(history)
    {
      if filled == 0 {
        return 0;
      }
      return Quotient(sum, filled);
    }

    method MaybeProduce() returns (produced: int)
      requires Valid()
      modifies this`ticksSinceWrite, this`lastWritten
      ensures Valid()
      ensures ticksSinceWrite == if old(ticksSinceWrite) + 1 < WRITE_EVERY_TICKS then old(ticksSinceWrite) + 1 else 0
      ensures
        var due := old(ticksSinceWrite) + 1 >= WRITE_EVERY_TICKS && history != [] &&
                   Average(history) != old(lastWritten);
        && produced == (if due then Average(history) else -1)
        && lastWritten == (if due then Average(history) else old(lastWritten))
    {
      ticksSinceWrite := ticksSinceWrite + 1;
      if ticksSinceWrite < WRITE_EVERY_TICKS {
        return -1;
      }
      ticksSinceWrite := 0;
      if filled == 0 {
        return -1;
      }
      var average := CurrentAverage();
      if average == lastWritten {
        return -1;
      }
      lastWritten := average;
      return average;
    }

    method Reset()
      requires Valid()
      modifies this, samples
      ensures Valid() && history == [] && ticksSinceWrite == 0 && lastWritten == 0
    {
      forall i | 0 <= i < WINDOW_TICKS {
        samples[i] := 0;
      }
      idx, sum, filled, ticksSinceWrite := 0, 0, 0, 0;
      lastWritten := 0;
      history := [];
    }
  }

  // One tick moves what is shown exactly at multiples of 32.
  lemma ShownStep(history: seq<int>, x: int, baseline: int)
    ensures var after := history + [x];
            Shown(after, baseline) ==
              if |after| % WRITE_EVERY_TICKS == 0 then Average(after) else Shown(history, baseline)
  {
    var after := history + [x];
    var n := |after| - |after| % WRITE_EVERY_TICKS;
    if |after| % WRITE_EVERY_TICKS == 0 {
      assert after[..n] == after;
    } else {
      assert |history| - |history| % WRITE_EVERY_TICKS == n;
      assert after[..n] == history[..n];
    }
  }

  // Ten per cent of the baseline, rounded up.
  function Span(baseline: int): int {
    (baseline + 9) / 10
  }

  function Clamp(v: int, low: int, high: int): int {
    var w := if v < low then low else v;
    if w > high then high else w
  }

  function Sample(baseline: nat, low: int, high: int, r: uint64): int {
    Clamp(baseline + r % (2 * Span(baseline) + 1) - Span(baseline), low, high)
  }

  // Clamping to a range that holds the baseline cannot push a sample away from the baseline.
  lemma SampleInBounds(baseline: nat, low: int, high: int, r: uint64)
    requires low <= baseline <= high
    ensures low <= Sample(baseline, low, high, r) <= high
    ensures -Span(baseline) <= Sample(baseline, low, high, r) - baseline <= Span(baseline)
  {
    var width := 2 * Span(baseline) + 1;
    assert 0 <= r % width < width;
  }

  // What a draw gives: the baseline plus the draw's remainder, from a tenth below the baseline to a tenth
  // above it, or the end of the range that this lies beyond.
  lemma SampleFollowsDraw(baseline: nat, low: int, high: int, r: uint64)
    requires low <= baseline <= high
    ensures var tenth := (baseline + 9) / 10;
            var drawn := baseline - tenth + r % (2 * tenth + 1);
            && (low <= drawn <= high ==> Sample(baseline, low, high, r) == drawn)
            && (drawn < low ==> Sample(baseline, low, high, r) == low)
            && (drawn > high ==> Sample(baseline, low, high, r) == high)
  {
  }

  // Every value of the range within a tenth of the baseline is drawn by some number.
  lemma EverySampleOccurs(baseline: nat, low: int, high: int, v: int) returns (r: uint64)
    requires InRange(baseline, low, high)
    requires low <= v <= high && -((baseline + 9) / 10) <= v - baseline <= (baseline + 9) / 10
    ensures Sample(baseline, low, high, r) == v
  {
    r := v - baseline + (baseline + 9) / 10;
    SampleFollowsDraw(baseline, low, high, r);
    SmallRemainder(r, 2 * ((baseline + 9) / 10) + 1);
    hide Sample;
  }

  lemma SmallRemainder(r: nat, width: nat)
    requires r < width
    ensures r % width == r
  {
  }

  // The configured range and a baseline inside it.
  ghost predicate InRange(baseline: int, low: int, high: int) {
    1 <= low <= baseline <= high <= 999
  }

  // The generator's first state, which is never zero.
  function Mixed(clock: bv64, baseline: nat): (state: bv64)
    requires baseline <= 999
    ensures state != 0
  {
    var mixed := clock ^ ((baseline as bv64) * 0x9E37_79B9_7F4A_7C15) ^ 0xA076_1D64_78BD_642F;
    if mixed == 0 then 0xDEAD_BEEF_CAFE_BABE else mixed
  }

  class PingJitter {
    const baseline: nat
    const minimum: int
    const maximum: int
    var state: bv64

    ghost predicate Valid()
      reads this
    {
      InRange(baseline, minimum, maximum) && state != 0
    }

    // `clock` is the time at construction.
    constructor (clock: bv64, baseline: nat, minimum: int, maximum: int)
      requires InRange(baseline, minimum, maximum)
      ensures Valid() && this.baseline == baseline && this.minimum == minimum && this.maximum == maximum
      ensures state == Mixed(clock, baseline)
    {
      this.baseline, this.minimum, this.maximum := baseline, minimum, maximum;
      state := Mixed(clock, baseline);
    }

    method NextSample() returns (v: int)
      requires Valid()
      modifies this`state
      ensures Valid() && state == Shuffle(old(state))
      ensures v == Sample(baseline, minimum, maximum, Output(state))
      ensures minimum <= v <= maximum && -Span(baseline) <= v - baseline <= Span(baseline)
    {
      ShuffleKeepsNonZero(state);
      hide Shuffle, Output;
      state := Shuffle(state);
      var r := Output(state);
      SampleInBounds(baseline, minimum, maximum, r);
      var span := Span(baseline);
      var delta := r % (2 * span + 1) - span;
      v := baseline + delta;
      if v < minimum { v := minimum; }
      if v > maximum { v := maximum; }
    }
  }

  // What the published ping, the tick counter and the last written value have to do with the
  // samples recorded since adoption.
  ghost predicate UpToDate(history: seq<int>, ticks: nat, lastWritten: int, ping: int, baseline: int, low: int,
                           high: int) {
    && AllIn(history, low, high)
    && ticks == |history| % WRITE_EVERY_TICKS
    && ping == Shown(history, baseline)
    && lastWritten == (if |history| < WRITE_EVERY_TICKS then 0 else ping)
  }

  lemma TickKeepsUpToDate(history: seq<int>, x: int, ticks: nat, lastWritten: int, ping: int, baseline: int,
                          low: int, high: int)
    requires InRange(baseline, low, high) && low <= x <= high
    requires UpToDate(history, ticks, lastWritten, ping, baseline, low, high)
    ensures var after := history + [x];
            var average := Average(after);
            var due := ticks + 1 >= WRITE_EVERY_TICKS && average != lastWritten;
            && average >= 0
            && UpToDate(after, if ticks + 1 < WRITE_EVERY_TICKS then ticks + 1 else 0,
                        if due then average else lastWritten, if due then average else ping, baseline, low, high)
  {
    hide Average, Shown;
    ShownStep(history, x, baseline);
    AverageInRange(history + [x], low, high);
  }

  // The ping part of a managed slot.
  class PingSlot {
    const display: PingDisplay
    const low: int
    const high: int
    const enabled: bool
    var jitter: PingJitter?
    var managed: bool
    var ping: int

    ghost predicate Valid()
      reads this, display, display.samples, jitter
    {
      && 1 <= low <= high <= 999
      && display.Valid()
      && (managed ==>
            && jitter != null && jitter.Valid() && jitter.minimum == low && jitter.maximum == high
            && (if enabled
                then UpToDate(display.history, display.ticksSinceWrite, display.lastWritten, ping, jitter.baseline,
                              low, high)
                else display.history == [] && ping == 0))
    }

    constructor (low: int, high: int, enabled: bool)
      requires 1 <= low <= high <= 999
      ensures Valid() && !managed && fresh(display) && fresh(display.samples)
      ensures this.low == low && this.high == high && this.enabled == enabled
    {
      this.low, this.high, this.enabled := low, high, enabled;
      display := new PingDisplay();
      jitter, managed, ping := null, false, 0;
    }

    // ClearSlot
    method Clear()
      requires Valid()
      modifies this, display, display.samples
      ensures Valid() && !managed && ping == 0
      ensures display.history == [] && display.ticksSinceWrite == 0 && display.lastWritten == 0
    {
      managed, ping := false, 0;
      display.Reset();
    }

    // AdoptSlot: `seed` is the generator's state after the draw, `clock` the time.
    method Adopt(seed: bv64, clock: bv64)
      requires Valid()
      modifies this, display, display.samples
      ensures Valid() && managed && display.history == [] && fresh(jitter)
      ensures jitter.baseline == low + Output(seed) % (high - low + 1)
      ensures ping == if enabled then jitter.baseline else 0
    {
      hide Output, Ring, Sum, Window, Average;
      Clear();
      var range := high - low + 1;
      var baseline: nat := low + Output(seed) % range;
      assert InRange(baseline, low, high);
      jitter := new PingJitter(clock, baseline, low, high);
      managed := true;
      ping := if enabled then baseline else 0;
    }

    // One slot's turn in OnTick: after any number of ticks the slot shows the average of its last
    // 64 samples at the last multiple of 32, also when that average was not written again.
    method OnTick()
      requires Valid()
      modifies this`ping, display, display.samples, jitter
      ensures Valid() && managed == old(managed)
      ensures !managed || !enabled ==>
                ping == old(ping) && display.history == old(display.history) &&
                (jitter != null ==> jitter.state == old(jitter.state))
      ensures managed && enabled ==>
        && jitter == old(jitter) && jitter.state == Shuffle(old(jitter.state))
        && display.history == old(display.history) + [Sample(jitter.baseline, low, high, Output(jitter.state))]
        && ping == Shown(display.history, jitter.baseline)
        && low <= ping <= high
    {
      if !managed || !enabled {
        return;
      }
      hide Shown, Average, Sample, UpToDate, Shuffle, Output, Sum, Ring, Window, Span;
      var sample := jitter.NextSample();
      ShowSample(sample);
    }

    // The sample is recorded, and the average shown if it is due.
    method ShowSample(sample: int)
      requires Valid() && managed && enabled && low <= sample <= high
      modifies this`ping, display, display.samples
      ensures Valid()
      ensures display.history == old(display.history) + [sample]
      ensures ping == Shown(display.history, jitter.baseline) && low <= ping <= high
    {
      hide Shown, Average, UpToDate, Sum, Ring, Window;
      ghost var before, last, shown := display.history, display.lastWritten, ping;
      TickKeepsUpToDate(before, sample, display.ticksSinceWrite, last, shown, jitter.baseline, low, high);
      display.RecordSample(sample);
      var produced := display.MaybeProduce();
      if produced >= 0 {
        ping := produced;
      }
      UpToDateInRange(display.history, display.ticksSinceWrite, display.lastWritten, ping, jitter.baseline, low, high);
    }
  }

  lemma UpToDateInRange(history: seq<int>, ticks: nat, lastWritten: int, ping: int, baseline: int, low: int, high: int)
    requires InRange(baseline, low, high) && UpToDate(history, ticks, lastWritten, ping, baseline, low, high)
    ensures ping == Shown(history, baseline) && low <= ping <= high
  {
    ShownInRange(history, baseline, low, high);
  }
}
