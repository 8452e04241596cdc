/**
 The mains monitor (src/safety/power_safety.c): debounced falling edges go into a
 ring buffer, a timer drains them into a mean frequency, and a check gives a verdict.
 Times are 32-bit milliseconds and differences of them wrap.
 */
module PowerSafety {
  import opened CInt
  import opened Arith

  const DEBOUNCE_MS := 8
  const TOLERANCE_HZ := 3
  const MAX_SAMPLES := 60
  const RING_SAMPLES := 120
  const UPTODATE_MS := 1000

  datatype Verdict = Ok | Stale | SamplingError | AbnormalFrequency

  datatype Monitor = Monitor(last: u32, updated: u32, freq: u8, missing: int, ring: seq<u32>)

  const INITIAL_MONITOR := Monitor(0, 0, 0, 0, [])

  function Since(now: u32, before: u32): u32 {
    Wrap32(now - before)
  }

  /** The frequency of one interval, as the 8-bit value the code keeps. */
  function IntervalFreq(older: u32, newer: u32): u8 {
    var diff := Since(newer, older);
    (if diff == 0 then 0 else 1000 / diff) % 0x100
  }

  function FreqSum(ring: seq<u32>): nat {
    if |ring| < 2 then 0
    else FreqSum(ring[..|ring| - 1]) + IntervalFreq(ring[|ring| - 2], ring[|ring| - 1])
  }

  /** Division to one decimal place, then rounding. */
  function Mean(sum: nat, n: nat): nat
    requires n > 0
  {
    (sum * 10 / n + 5) / 10
  }

  /** `calc_freq`: the sum over the intervals, divided by the number of edges, rounded. */
  function MeanFreq(ring: seq<u32>): u8 {
    if ring == [] then 0 else Mean(FreqSum(ring), |ring|) % 0x100
  }

  /** The least and the greatest frequency as `calc_freq` keeps them: they start anew while the sum is 0. */
  function Extremes(ring: seq<u32>): (u8, u8) {
    if |ring| < 2 then (0, 0)
    else
      var init, f := ring[..|ring| - 1], IntervalFreq(ring[|ring| - 2], ring[|ring| - 1]);
      var (lo, hi) := Extremes(init);
      if FreqSum(init) == 0 then (f, f) else (if f < lo then f else lo, if f > hi then f else hi)
  }

  /** `on_gpio_event` */
  function Edged(m: Monitor, t: u32): Monitor {
    if Since(t, m.last) < DEBOUNCE_MS then m
    else m.(last := t, ring := (if |m.ring| >= RING_SAMPLES then m.ring[1..] else m.ring) + [t])
  }

  /** The clock as one tick reads it: for the age of the frequency, for that of the last edge, for the new stamp. */
  datatype Reads = Reads(age: u32, pulse: u32, stamp: u32)

  function Refreshed(m: Monitor, now: u32): Monitor {
    if Since(now, m.updated) < 2 * UPTODATE_MS then m else m.(freq := 0)
  }

  /** The tick drains the buffer and sets the frequency. */
  predicate Drains(m: Monitor, now: Reads) {
    Since(now.pulse, m.last) < UPTODATE_MS && MAX_SAMPLES - |m.ring| <= TOLERANCE_HZ
  }

  /** `process_samples` */
  function Ticked(m: Monitor, now: Reads): Monitor {
    if Drains(m, now) then m.(freq := MeanFreq(m.ring), ring := [], updated := now.stamp, missing := 0)
    else if Since(now.pulse, m.last) < UPTODATE_MS then Refreshed(m, now.age).(missing := MAX_SAMPLES - |m.ring|)
    else Refreshed(m, now.age)
  }

  /** `check` */
  function Check(m: Monitor, expected: int, now: u32): Verdict {
    if Since(now, m.updated) >= 2 * UPTODATE_MS then Stale
    else if m.missing > TOLERANCE_HZ then SamplingError
    else if m.freq < expected - TOLERANCE_HZ || m.freq > expected + TOLERANCE_HZ then AbnormalFrequency
    else Ok
  }

  datatype Event = Edge(t: u32) | Tick(now: Reads)

  function Apply(m: Monitor, e: Event): Monitor {
    match e
    case Edge(t) => Edged(m, t)
    case Tick(now) => Ticked(m, now)
  }

  function Run(events: seq<Event>): Monitor {
    if events == [] then INITIAL_MONITOR else Apply(Run(events[..|events| - 1]), events[|events| - 1])
  }

  /** An edge counts exactly from 8 ms after the last that did, and the newest 120 are kept. */
  lemma EdgeCounts(events: seq<Event>, t: u32)
    ensures var m, n := Run(events), Run(events + [Edge(t)]);
            if Since(t, m.last) < 8 then n == m
            else
              && n.last == t && n.updated == m.updated && n.freq == m.freq && n.missing == m.missing
              && |n.ring| == (if |m.ring| < 120 then |m.ring| + 1 else 120)
              && n.ring == (m.ring + [t])[|m.ring| + 1 - |n.ring|..]
  {
    RunSnoc(events, Edge(t));
    RunKeepsInv(events);
  }

  // ---------- edges are spaced ----------

  /** Consecutive edges are at least the debounce time apart, and the newest is the remembered one. */
  ghost predicate Inv(m: Monitor) {
    && |m.ring| <= RING_SAMPLES
    && (forall i :: 0 < i < |m.ring| ==> Since(m.ring[i], m.ring[i - 1]) >= DEBOUNCE_MS)
    && (m.ring != [] ==> m.ring[|m.ring| - 1] == m.last)
  }

  lemma ApplyKeepsInv(m: Monitor, e: Event)
    requires Inv(m)
    ensures Inv(Apply(m, e))
  {
  }

  lemma {:induction false} RunKeepsInv(events: seq<Event>)
    ensures Inv(Run(events))
  {
    if events == [] {
    } else {
      RunKeepsInv(events[..|events| - 1]);
      ApplyKeepsInv(Run(events[..|events| - 1]), events[|events| - 1]);
    }
  }

  lemma SpacedFreq(older: u32, newer: u32)
    requires Since(newer, older) >= DEBOUNCE_MS
    ensures IntervalFreq(older, newer) == 1000 / Since(newer, older) <= 125
  {
    QuotientAtMost(Since(newer, older), 125, 1000);
  }

  lemma SpacedMean(m: Monitor)
    requires Inv(m) && m.ring != []
    ensures MeanFreq(m.ring) == Mean(FreqSum(m.ring), |m.ring|) <= 125
  {
    hide IntervalFreq, Mean;
    forall i | 0 < i < |m.ring|
      ensures IntervalFreq(m.ring[i - 1], m.ring[i]) <= 125
    {
      SpacedFreq(m.ring[i - 1], m.ring[i]);
    }
    SumAtMost(m.ring, 125);
    MeanAtMost(FreqSum(m.ring), |m.ring|, 125);
  }

  /** In every run no interval's frequency is truncated to 8 bits, nor is their mean. */
  lemma NothingTruncated(events: seq<Event>, i: nat)
    requires 0 < i < |Run(events).ring|
    ensures var ring := Run(events).ring;
            && Since(ring[i], ring[i - 1]) >= DEBOUNCE_MS
            && IntervalFreq(ring[i - 1], ring[i]) == 1000 / Since(ring[i], ring[i - 1])
            && MeanFreq(ring) == Mean(FreqSum(ring), |ring|)
  {
    var m := Run(events);
    RunKeepsInv(events);
    SpacedFreq(m.ring[i - 1], m.ring[i]);
    SpacedMean(m);
  }

  lemma {:induction false} SumAtMost(ring: seq<u32>, hi: nat)
    requires ring != []
    requires forall i :: 0 < i < |ring| ==> IntervalFreq(ring[i - 1], ring[i]) <= hi
    ensures FreqSum(ring) <= (|ring| - 1) * hi
  {
    if |ring| > 1 {
      SumAtMost(ring[..|ring| - 1], hi);
      Successor(|ring| - 2, hi);
    }
  }

  lemma {:induction false} SumAtLeast(ring: seq<u32>, lo: nat)
    requires ring != []
    requires forall i :: 0 < i < |ring| ==> lo <= IntervalFreq(ring[i - 1], ring[i])
    ensures (|ring| - 1) * lo <= FreqSum(ring)
  {
    if |ring| > 1 {
      SumAtLeast(ring[..|ring| - 1], lo);
      Successor(|ring| - 2, lo);
    }
  }

  /** An interval of the buffer that has the frequency `f`. */
  ghost predicate HasInterval(ring: seq<u32>, f: u8) {
    exists i :: 0 < i < |ring| && IntervalFreq(ring[i - 1], ring[i]) == f
  }

  /**
   Both extremes are frequencies of intervals, and no interval exceeds the greatest. None is below
   the least either, if the first interval has a frequency other than 0.
   */
  lemma {:induction false} ExtremesBound(ring: seq<u32>, i: nat)
    requires 0 < i < |ring|
    ensures var (lo, hi) := Extremes(ring);
            && HasInterval(ring, lo) && HasInterval(ring, hi) && IntervalFreq(ring[i - 1], ring[i]) <= hi
            && (IntervalFreq(ring[0], ring[1]) > 0 ==> lo <= IntervalFreq(ring[i - 1], ring[i]) && FreqSum(ring) > 0)
            && (FreqSum(ring) == 0 ==> IntervalFreq(ring[i - 1], ring[i]) == 0)
    decreases |ring|
  {
    hide IntervalFreq;
    var last, init := |ring| - 1, ring[..|ring| - 1];
    assert HasInterval(ring, IntervalFreq(ring[last - 1], ring[last]));
    if |ring| > 2 {
      ExtremesBound(init, if i < last then i else last - 1);
      KeepsIntervals(ring, Extremes(init).0);
      KeepsIntervals(ring, Extremes(init).1);
    }
  }

  lemma KeepsIntervals(ring: seq<u32>, f: u8)
    requires |ring| > 0 && HasInterval(ring[..|ring| - 1], f)
    ensures HasInterval(ring, f)
  {
    hide IntervalFreq;
    var init := ring[..|ring| - 1];
    var i :| 0 < i < |init| && IntervalFreq(init[i - 1], init[i]) == f;
    assert ring[i - 1] == init[i - 1] && ring[i] == init[i];
  }

  lemma MeanAtMost(sum: nat, n: nat, hi: nat)
    requires n > 0 && sum <= (n - 1) * hi
    ensures Mean(sum, n) <= hi
  {
    assert (n - 1) * hi == n * hi - hi;
    assert n * (10 * hi) == 10 * (n * hi);
    QuotientAtMost(n, 10 * hi, sum * 10);
  }

  // ---------- what OK means ----------

  /** The tick at `i` drained at least 57 edges, and their mean is the frequency `freq`. */
  ghost predicate DrainedAt(events: seq<Event>, i: nat, freq: u8) {
    && i < |events| && events[i].Tick?
    && Drains(Run(events[..i]), events[i].now)
    && freq == MeanFreq(Run(events[..i]).ring)
  }

  /** A frequency other than 0 comes from the tick that set the time of the last update. */
  lemma {:induction false} FreqHasSource(events: seq<Event>) returns (i: nat)
    requires Run(events).freq != 0
    ensures DrainedAt(events, i, Run(events).freq)
    ensures events[i].now.stamp == Run(events).updated
  {
    var n := |events| - 1;
    var before, e := Run(events[..n]), events[n];
    if e.Tick? && Drains(before, e.now) {
      i := n;
    } else {
      i := FreqHasSource(events[..n]);
      assert events[..n][..i] == events[..i];
    }
  }

  /**
   A verdict of OK, for an expected frequency above the tolerance, means that a timer tick of
   the run, less than 2 s ago, drained at least 57 edges whose computed mean is in the band.
   */
  lemma OkMeansMeasured(events: seq<Event>, expected: int, now: u32) returns (i: nat)
    requires expected > TOLERANCE_HZ && Check(Run(events), expected, now) == Ok
    ensures i < |events| && events[i].Tick? && Since(now, events[i].now.stamp) < 2 * UPTODATE_MS
    ensures var edges := Run(events[..i]).ring;
            && |edges| >= MAX_SAMPLES - TOLERANCE_HZ
            && expected - TOLERANCE_HZ <= MeanFreq(edges) <= expected + TOLERANCE_HZ
  {
    i := FreqHasSource(events);
  }

  // ---------- steady mains ----------

  /** Consecutive edges are `near` to `far` milliseconds apart. */
  ghost predicate SpacedBetween(ring: seq<u32>, near: nat, far: nat) {
    forall i :: 0 < i < |ring| ==> near <= Since(ring[i], ring[i - 1]) <= far
  }

  lemma SteadyInterval(older: u32, newer: u32, near: nat, far: nat)
    requires DEBOUNCE_MS <= near <= Since(newer, older) <= far
    ensures 1000 / far <= IntervalFreq(older, newer) <= 1000 / near
  {
    hide IntervalFreq, Since;
    SpacedFreq(older, newer);
    QuotientAntitone(1000, near, Since(newer, older));
    QuotientAntitone(1000, Since(newer, older), far);
  }

  lemma SteadySum(ring: seq<u32>, near: nat, far: nat)
    requires ring != [] && DEBOUNCE_MS <= near <= far && SpacedBetween(ring, near, far)
    ensures (|ring| - 1) * (1000 / far) <= FreqSum(ring) <= (|ring| - 1) * (1000 / near)
  {
    hide IntervalFreq, Since, FreqSum;
    forall i | 0 < i < |ring|
      ensures 1000 / far <= IntervalFreq(ring[i - 1], ring[i]) <= 1000 / near
    {
      SteadyInterval(ring[i - 1], ring[i], near, far);
    }
    SumAtMost(ring, 1000 / near);
    SumAtLeast(ring, 1000 / far);
  }

  lemma MeanAtLeast(sum: nat, n: nat, lo: nat)
    requires 0 < n && 2 * lo <= 3 * n && (n - 1) * lo <= sum
    ensures lo - 1 <= Mean(sum, n)
  {
    assert (n - 1) * lo == n * lo - lo;
    if lo > 1 {
      assert n * (10 * lo - 15) == 10 * (n * lo) - 15 * n;
      QuotientAtLeast(n, 10 * lo - 15, sum * 10);
    }
  }

  /** 57 or more steady edges compute to their frequency, or to 1 Hz less, as one interval too many is divided by. */
  lemma SteadyMean(ring: seq<u32>, near: nat, far: nat)
    requires |ring| >= MAX_SAMPLES - TOLERANCE_HZ
    requires DEBOUNCE_MS <= near <= far && far >= 12 && SpacedBetween(ring, near, far)
    ensures 1000 / far - 1 <= MeanFreq(ring) <= 1000 / near
  {
    hide FreqSum, Mean;
    SteadySum(ring, near, far);
    QuotientAtMost(far, 83, 1000);
    QuotientAtMost(near, 125, 1000);
    MeanAtLeast(FreqSum(ring), |ring|, 1000 / far);
    MeanAtMost(FreqSum(ring), |ring|, 1000 / near);
  }

  /** The spacing belongs to a frequency that the verdict accepts when it computes it. */
  predicate InBand(near: nat, far: nat, expected: int) {
    && DEBOUNCE_MS <= near <= far && far >= 12
    && expected - TOLERANCE_HZ <= 1000 / far - 1
    && 1000 / near <= expected + TOLERANCE_HZ
  }

  lemma MainsBands()
    ensures InBand(16, 17, 60) && InBand(19, 20, 50)
  {
    assert 1000 / 16 == 62 && 1000 / 17 == 58 && 1000 / 19 == 52 && 1000 / 20 == 50;
  }

  /** 57 or more edges at 60 Hz, 16 to 17 ms apart, compute to 57..62 Hz. */
  lemma SixtyHertzMean(ring: seq<u32>)
    requires |ring| >= MAX_SAMPLES - TOLERANCE_HZ && SpacedBetween(ring, 16, 17)
    ensures 57 <= MeanFreq(ring) <= 62
  {
    MainsBands();
    SteadyMean(ring, 16, 17);
  }

  /**
   A tick that sees steady mains of the expected frequency makes the verdict OK for the next two
   seconds when it finds 57 edges, and drains them. Otherwise it keeps them, and the verdict is a
   sampling error until the last measurement is two seconds old.
   */
  lemma AcceptedIffEnoughEdges(m: Monitor, now: Reads, later: u32, near: nat, far: nat, expected: int)
    requires InBand(near, far, expected) && SpacedBetween(m.ring, near, far) && Since(now.pulse, m.last) < UPTODATE_MS
    ensures var enough := |m.ring| >= MAX_SAMPLES - TOLERANCE_HZ;
            && Check(Ticked(m, now), expected, later) ==
               (if Since(later, if enough then now.stamp else m.updated) >= 2000 then Stale
                else if enough then Ok else SamplingError)
            && Ticked(m, now).ring == if enough then [] else m.ring
  {
    hide MeanFreq, Since;
    if |m.ring| >= MAX_SAMPLES - TOLERANCE_HZ {
      SteadyMean(m.ring, near, far);
    }
  }

  // ---------- a run of mains that is slower than 57 Hz ----------

  /** The edges between two ticks, and the later tick. */
  datatype Period = Period(edges: seq<u32>, tick: Reads)

  function Edges(ts: seq<u32>): seq<Event> {
    if ts == [] then [] else Edges(ts[..|ts| - 1]) + [Edge(ts[|ts| - 1])]
  }

  function EventsOf(periods: seq<Period>): seq<Event> {
    if periods == [] then []
    else
      var p := periods[|periods| - 1];
      EventsOf(periods[..|periods| - 1]) + Edges(p.edges) + [Tick(p.tick)]
  }

  function Fed(m: Monitor, ts: seq<u32>): Monitor {
    if ts == [] then m else Edged(Fed(m, ts[..|ts| - 1]), ts[|ts| - 1])
  }

  function Lived(m: Monitor, periods: seq<Period>): Monitor {
    if periods == [] then m
    else
      var p := periods[|periods| - 1];
      Ticked(Fed(Lived(m, periods[..|periods| - 1]), p.edges), p.tick)
  }

  lemma RunSnoc(events: seq<Event>, e: Event)
    ensures Run(events + [e]) == Apply(Run(events), e)
  {
    assert (events + [e])[..|events|] == events;
  }

  lemma {:induction false} RunEdges(events: seq<Event>, ts: seq<u32>)
    ensures Run(events + Edges(ts)) == Fed(Run(events), ts)
  {
    if ts == [] {
      assert events + Edges(ts) == events;
    } else {
      var init, t := ts[..|ts| - 1], ts[|ts| - 1];
      RunEdges(events, init);
      assert events + Edges(ts) == (events + Edges(init)) + [Edge(t)];
      RunSnoc(events + Edges(init), Edge(t));
    }
  }

  lemma {:induction false} RunPeriods(events: seq<Event>, periods: seq<Period>)
    ensures Run(events + EventsOf(periods)) == Lived(Run(events), periods)
  {
    hide Edges, Run, Fed, Ticked;
    if periods == [] {
      assert events + EventsOf(periods) == events;
    } else {
      var init, p := periods[..|periods| - 1], periods[|periods| - 1];
      RunPeriods(events, init);
      RunEdges(events + EventsOf(init), p.edges);
      assert events + EventsOf(periods) == events + EventsOf(init) + Edges(p.edges) + [Tick(p.tick)];
      RunSnoc(events + EventsOf(init) + Edges(p.edges), Tick(p.tick));
    }
  }

  function LastEdge(before: u32, periods: seq<Period>): u32 {
    if periods == [] || periods[|periods| - 1].edges == [] then before
    else var edges := periods[|periods| - 1].edges; edges[|edges| - 1]
  }

  /** 29 to 56 steady edges and a tick less than a second after the last. */
  ghost predicate SlowPeriod(p: Period, near: nat, far: nat) {
    && 29 <= |p.edges| <= 56 && SpacedBetween(p.edges, near, far)
    && Since(p.tick.pulse, p.edges[|p.edges| - 1]) < UPTODATE_MS
  }

  /**
   Steady mains with 29 to 56 edges between two ticks, as 50 Hz and one tick per second give.
   The edge before the first period is only known to be past its debounce time.
   */
  ghost predicate Slow(before: u32, periods: seq<Period>, near: nat, far: nat) {
    periods == [] ||
    var init, p := periods[..|periods| - 1], periods[|periods| - 1];
    && Slow(before, init, near, far) && SlowPeriod(p, near, far)
    && var gap := Since(p.edges[0], LastEdge(before, init));
       if init == [] then DEBOUNCE_MS <= gap else near <= gap <= far
  }

  lemma {:induction false} FedRing(m: Monitor, ts: seq<u32>)
    requires ts != [] && |m.ring| + |ts| <= RING_SAMPLES && Since(ts[0], m.last) >= DEBOUNCE_MS
    requires forall i :: 0 < i < |ts| ==> Since(ts[i], ts[i - 1]) >= DEBOUNCE_MS
    ensures Fed(m, ts) == m.(last := ts[|ts| - 1], ring := m.ring + ts)
  {
    hide Since;
    var init := ts[..|ts| - 1];
    if init == [] {
      assert Fed(m, init) == m;
    } else {
      FedRing(m, init);
      assert m.ring + init + [ts[|ts| - 1]] == m.ring + ts;
    }
  }

  /** The edges that the last tick finds: those of its period, after those of the one before if that was refused. */
  function Found(periods: seq<Period>): seq<u32>
    requires periods != []
  {
    if |periods| % 2 == 0 then periods[|periods| - 2].edges + periods[|periods| - 1].edges
    else periods[|periods| - 1].edges
  }

  lemma FoundSplit(periods: seq<Period>)
    requires periods != []
    ensures var init, p := periods[..|periods| - 1], periods[|periods| - 1];
            Found(periods) == (if |init| % 2 == 0 then [] else init[|init| - 1].edges) + p.edges
  {
    var n := |periods|;
    var init, p := periods[..n - 1], periods[n - 1];
    assert |init| == n - 1;
    if n % 2 == 0 {
      assert init[n - 2] == periods[n - 2];
    } else {
      assert [] + p.edges == p.edges;
    }
  }

  lemma FoundSpaced(before: u32, periods: seq<Period>, near: nat, far: nat)
    requires Slow(before, periods, near, far) && periods != []
    ensures SpacedBetween(Found(periods), near, far)
    ensures |Found(periods)| >= MAX_SAMPLES - TOLERANCE_HZ <==> |periods| % 2 == 0
  {
    hide Since, SpacedBetween;
    if |periods| % 2 == 0 {
      SpacedConcat(periods[|periods| - 2].edges, periods[|periods| - 1].edges, near, far);
    }
  }

  lemma SpacedConcat(a: seq<u32>, b: seq<u32>, near: nat, far: nat)
    requires a != [] && b != [] && SpacedBetween(a, near, far) && SpacedBetween(b, near, far)
    requires near <= Since(b[0], a[|a| - 1]) <= far
    ensures SpacedBetween(a + b, near, far)
  {
    hide Since;
    forall i | 0 < i < |a + b|
      ensures near <= Since((a + b)[i], (a + b)[i - 1]) <= far
    {
      if i > |a| {
        assert (a + b)[i] == b[i - |a|] && (a + b)[i - 1] == b[i - |a| - 1];
      }
    }
  }

  /** A tick keeps the edges that are too few, so every second tick finds enough. */
  lemma {:induction false} SlowRing(m: Monitor, periods: seq<Period>, near: nat, far: nat)
    requires DEBOUNCE_MS <= near && m.ring == [] && Slow(m.last, periods, near, far)
    ensures var n := Lived(m, periods);
            && n.last == LastEdge(m.last, periods)
            && n.ring == if |periods| % 2 == 0 then [] else periods[|periods| - 1].edges
    decreases |periods|, 1
  {
    hide Since, MeanFreq;
    if periods == [] {
    } else {
      BeforeTick(m, periods, near, far);
      FoundSpaced(m.last, periods, near, far);
    }
  }

  lemma SlowLast(before: u32, periods: seq<Period>, near: nat, far: nat)
    requires DEBOUNCE_MS <= near && periods != [] && Slow(before, periods, near, far)
    ensures var init, p := periods[..|periods| - 1], periods[|periods| - 1];
            && Slow(before, init, near, far)
            && 29 <= |p.edges| <= 56 && (init != [] ==> |init[|init| - 1].edges| <= 56)
            && Since(p.tick.pulse, p.edges[|p.edges| - 1]) < UPTODATE_MS
            && Since(p.edges[0], LastEdge(before, init)) >= DEBOUNCE_MS
            && forall i :: 0 < i < |p.edges| ==> Since(p.edges[i], p.edges[i - 1]) >= DEBOUNCE_MS
  {
    hide Since, LastEdge;
  }

  lemma {:induction false} BeforeTick(m: Monitor, periods: seq<Period>, near: nat, far: nat)
    requires DEBOUNCE_MS <= near && m.ring == [] && periods != [] && Slow(m.last, periods, near, far)
    ensures var init, p := periods[..|periods| - 1], periods[|periods| - 1];
            var f := Fed(Lived(m, init), p.edges);
            f.last == p.edges[|p.edges| - 1] && f.ring == Found(periods)
    decreases |periods|, 0
  {
    hide Since, Lived, Fed, Slow, LastEdge, SpacedBetween, Found;
    var init, p := periods[..|periods| - 1], periods[|periods| - 1];
    SlowLast(m.last, periods, near, far);
    SlowRing(m, init, near, far);
    FedRing(Lived(m, init), p.edges);
    FoundSplit(periods);
  }

  lemma {:induction false} FedKeeps(m: Monitor, ts: seq<u32>)
    ensures Fed(m, ts).updated == m.updated
  {
    hide Since;
    if ts == [] {
    } else {
      FedKeeps(m, ts[..|ts| - 1]);
    }
  }

  /** When the frequency was last measured before the last tick: by every even tick. */
  function LastStamp(before: u32, periods: seq<Period>): u32 {
    var n := |periods| / 2 * 2;
    if n == 0 then before else periods[n - 1].tick.stamp
  }

  lemma {:induction false} SlowStamp(m: Monitor, periods: seq<Period>, near: nat, far: nat)
    requires DEBOUNCE_MS <= near && m.ring == [] && Slow(m.last, periods, near, far)
    ensures Lived(m, periods).updated == LastStamp(m.updated, periods)
  {
    hide Since, MeanFreq, Fed, SpacedBetween;
    if periods == [] {
    } else {
      var init, p := periods[..|periods| - 1], periods[|periods| - 1];
      SlowStamp(m, init, near, far);
      BeforeTick(m, periods, near, far);
      FoundSpaced(m.last, periods, near, far);
      FedKeeps(Lived(m, init), p.edges);
    }
  }

  /**
   So mains of the expected frequency with 29 to 56 edges between two ticks is accepted by every
   even tick, and every odd one gives a sampling error, for as long as it lasts.
   */
  lemma SlowMainsAlternates(events: seq<Event>, periods: seq<Period>, later: u32, near: nat, far: nat, expected: int)
    requires Run(events).ring == [] && periods != [] && InBand(near, far, expected)
    requires Slow(Run(events).last, periods, near, far)
    ensures Check(Run(events + EventsOf(periods)), expected, later) ==
            if Since(later, LastStamp(Run(events).updated, periods)) >= 2000 then Stale
            else if |periods| % 2 == 0 then Ok else SamplingError
  {
    hide Check, Ticked, Since, SpacedBetween, Run, EventsOf, Fed, Slow, Found, LastStamp;
    var m, p, init := Run(events), periods[|periods| - 1], periods[..|periods| - 1];
    RunPeriods(events, periods);
    SlowLast(m.last, periods, near, far);
    BeforeTick(m, periods, near, far);
    FoundSpaced(m.last, periods, near, far);
    SlowStamp(m, init, near, far);
    FedKeeps(Lived(m, init), p.edges);
    StampStep(m.updated, periods);
    AcceptedIffEnoughEdges(Fed(Lived(m, init), p.edges), p.tick, later, near, far, expected);
  }

  lemma StampStep(before: u32, periods: seq<Period>)
    requires periods != []
    ensures LastStamp(before, periods) ==
            if |periods| % 2 == 0 then periods[|periods| - 1].tick.stamp
            else LastStamp(before, periods[..|periods| - 1])
  {
  }

  /** `n` seconds of 50 Hz after boot: an edge every 20 ms, a tick every second, on the 32-bit clock. */
  function FiftyHertz(n: nat): seq<Period> {
    if n == 0 then []
    else FiftyHertz(n - 1) + [Second(n - 1)]
  }

  function Second(k: nat): Period {
    var now := Wrap32(1000 * (k + 1));
    Period(seq(50, i => Wrap32(1000 * k + 20 * (i + 1))), Reads(now, now, now))
  }

  lemma Later(t: nat, ms: u32)
    ensures Since(Wrap32(t + ms), Wrap32(t)) == ms
  {
    assert t == U32_RANGE * (t / U32_RANGE) + Wrap32(t);
    assert t + ms == U32_RANGE * ((t + ms) / U32_RANGE) + Wrap32(t + ms);
  }

  lemma {:induction false} FiftyHertzIsSlow(n: nat)
    ensures |FiftyHertz(n)| == n && Slow(0, FiftyHertz(n), 19, 20)
    ensures LastEdge(0, FiftyHertz(n)) == Wrap32(1000 * n)
  {
    assert Slow(0, [], 19, 20) && LastEdge(0, []) == Wrap32(0);
    hide Since, Slow, LastEdge, SpacedBetween;
    if n == 0 {
    } else {
      FiftyHertzIsSlow(n - 1);
      SecondIsSlow(n - 1);
      SlowSnoc(FiftyHertz(n - 1), Second(n - 1));
    }
  }

  lemma SlowSnoc(init: seq<Period>, p: Period)
    requires Slow(0, init, 19, 20) && SlowPeriod(p, 19, 20) && Since(p.edges[0], LastEdge(0, init)) == 20
    ensures Slow(0, init + [p], 19, 20) && LastEdge(0, init + [p]) == p.edges[|p.edges| - 1]
  {
    hide Since, SpacedBetween;
    assert (init + [p])[..|init|] == init;
  }

  lemma SecondIsSlow(k: nat)
    ensures var p := Second(k);
            && SlowPeriod(p, 19, 20) && p.edges[49] == p.tick.pulse == p.tick.stamp == Wrap32(1000 * (k + 1))
            && Since(p.edges[0], Wrap32(1000 * k)) == 20
  {
    hide Since, Wrap32;
    var p := Second(k);
    forall i | 0 < i < 50
      ensures Since(p.edges[i], p.edges[i - 1]) == 20
    {
      Later(1000 * k + 20 * i, 20);
    }
    Later(1000 * (k + 1), 0);
    Later(1000 * k, 20);
  }

  lemma FiftyHertzStamp(n: nat)
    requires n > 0
    ensures LastStamp(0, FiftyHertz(n)) == Wrap32(1000 * (n / 2 * 2))
  {
    FiftyHertzIsSlow(n);
    if n > 1 {
      FiftyHertzAt(n, n / 2 * 2 - 1);
    }
  }

  lemma {:induction false} FiftyHertzAt(n: nat, k: nat)
    requires k < n
    ensures |FiftyHertz(n)| == n && FiftyHertz(n)[k] == Second(k)
  {
    hide Second;
    if n == 1 {
      assert FiftyHertz(0) == [];
    } else {
      FiftyHertzAt(n - 1, if k < n - 1 then k else 0);
    }
  }

  /**
   50 Hz mains from boot on. After every even second the verdict is OK and after every odd one a
   sampling error, until the last even second, or boot, is two seconds ago.
   */
  lemma FiftyHertzAlternates(n: nat, later: u32)
    requires n > 0
    ensures Check(Run(EventsOf(FiftyHertz(n))), 50, later) ==
            if Since(later, Wrap32(1000 * (n / 2 * 2))) >= 2000 then Stale
            else if n % 2 == 0 then Ok else SamplingError
  {
    hide Check, Since, Slow, LastStamp;
    FiftyHertzIsSlow(n);
    FiftyHertzStamp(n);
    MainsBands();
    SlowMainsAlternates([], FiftyHertz(n), later, 19, 20, 50);
    assert [] + EventsOf(FiftyHertz(n)) == EventsOf(FiftyHertz(n));
  }

  // ---------- the object ----------

  class PowerMonitor {
    const expected: int
    var last: u32
    var updated: u32
    var freq: u8
    var missing: int
    var ring: seq<u32>

    constructor (expected: int)
      ensures this.expected == expected && View() == INITIAL_MONITOR
    {
      this.expected := expected;
      last, updated, freq, missing, ring := 0, 0, 0, 0, [];
    }

    function View(): Monitor
      reads this
    {
      Monitor(last, updated, freq, missing, ring)
    }

    method OnGpioEvent(t: u32)
      modifies this`last, this`ring
      ensures View() == Edged(old(View()), t)
    {
      if Since(t, last) < DEBOUNCE_MS {
        return;
      }
      last := t;
      if |ring| >= RING_SAMPLES {
        ring := ring[1..];
      }
      ring := ring + [t];
    }

    /** `calc_freq` reads the buffer empty. */
    method CalcFreq() returns (min: u8, max: u8, avg: u8)
      modifies this`ring
      ensures avg == MeanFreq(old(ring)) && ring == []
      ensures (min, max) == Extremes(old(ring))
    {
      min, max := 0, 0;
      var n, sum, i, older := |ring|, 0, 0, 0;
      while i < n
        invariant 0 <= i <= n && ring == old(ring)[i..]
        invariant i > 0 ==> older == old(ring)[i - 1]
        invariant sum == FreqSum(old(ring)[..i])
        invariant (min, max) == Extremes(old(ring)[..i])
      {
        var newer := ring[0];
        ring := ring[1..];
        assert old(ring)[..i + 1][..i] == old(ring)[..i];
        if i > 0 {
          var freq := IntervalFreq(older, newer);
          if sum == 0 {
            min, max := freq, freq;
          } else {
            min := if freq < min then freq else min;
            max := if freq > max then freq else max;
          }
          sum := sum + freq;
        }
        older := newer;
        i := i + 1;
      }
      assert old(ring)[..n] == old(ring);
      avg := if n > 0 then Mean(sum, n) % 0x100 else 0;
    }

    method ProcessSamples(now: Reads)
      modifies this
      ensures View() == Ticked(old(View()), now)
    {
      if Since(now.age, updated) >= 2 * UPTODATE_MS {
        freq := 0;
      }
      if Since(now.pulse, last) >= UPTODATE_MS {
        return;
      }
      missing := MAX_SAMPLES - |ring|;
      if missing > TOLERANCE_HZ {
        return;
      }
      var _, _, avg := CalcFreq();
      freq := avg;
      updated := now.stamp;
      missing := 0;
    }
  }
}
