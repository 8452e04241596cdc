/** The pilot status with its hysteresis, and the rotating snapshots for readers (src/pilot.c). */
module PilotStatus {
  import opened CInt
  import opened Common
  import opened PilotLevel
  import opened PilotMeasure

  datatype Boundary = Boundary(a: u16, b: u16, c: u16, d: u16, e: u16)

  datatype Boundaries = Boundaries(upward: Boundary, downward: Boundary)

  /** The two measured levels that decide the status. */
  datatype Reading = Reading(high: u16, low: u16)

  /** `evaluate_status` */
  function Evaluate(r: Reading, lim: Boundary): Status {
    if r.low > lim.e then StatusE
    else if r.high > lim.a then StatusA
    else if r.high > lim.b then StatusB
    else if r.high > lim.c then StatusC
    else if r.high > lim.d then StatusD
    else StatusF
  }

  /** A status that would rise must pass the upward boundaries. */
  function NextStatus(b: Boundaries, prev: Status, r: Reading): Status {
    var down := Evaluate(r, b.downward);
    if Volts(down) > Volts(prev) then Evaluate(r, b.upward) else down
  }

  predicate Ordered(lim: Boundary) {
    lim.a > lim.b > lim.c > lim.d
  }

  /** Repeating a reading never changes the status again. */
  ghost predicate Settles(b: Boundaries) {
    forall prev: Status, r: Reading ::
      NextStatus(b, NextStatus(b, prev, r), r) == NextStatus(b, prev, r)
  }

  /** What the boundaries must satisfy for that. */
  predicate Hysteretic(b: Boundaries) {
    && b.downward.a <= b.upward.a
    && b.downward.b <= b.upward.b
    && b.downward.c <= b.upward.c
    && b.upward.e <= b.downward.e
  }

  lemma SettlesIffHysteretic(b: Boundaries)
    requires Ordered(b.upward) && Ordered(b.downward)
    ensures Settles(b) <==> Hysteretic(b)
  {
    if !Hysteretic(b) {
      var r := if b.downward.a > b.upward.a then Reading(b.downward.a, 0)
               else if b.downward.b > b.upward.b then Reading(b.downward.b, 0)
               else if b.downward.c > b.upward.c then Reading(b.downward.c, 0)
               else Reading(b.upward.c, b.upward.e);
      assert NextStatus(b, NextStatus(b, StatusF, r), r) != NextStatus(b, StatusF, r);
    }
  }

  /** Two readings on the same side of every boundary. */
  predicate SameBand(b: Boundaries, r: Reading, s: Reading) {
    && (r.high > b.upward.a <==> s.high > b.upward.a) && (r.high > b.downward.a <==> s.high > b.downward.a)
    && (r.high > b.upward.b <==> s.high > b.upward.b) && (r.high > b.downward.b <==> s.high > b.downward.b)
    && (r.high > b.upward.c <==> s.high > b.upward.c) && (r.high > b.downward.c <==> s.high > b.downward.c)
    && (r.high > b.upward.d <==> s.high > b.upward.d) && (r.high > b.downward.d <==> s.high > b.downward.d)
    && (r.low > b.upward.e <==> s.low > b.upward.e) && (r.low > b.downward.e <==> s.low > b.downward.e)
  }

  function StatusAfter(b: Boundaries, prev: Status, rs: seq<Reading>): Status {
    if rs == [] then prev else NextStatus(b, StatusAfter(b, prev, rs[..|rs| - 1]), rs[|rs| - 1])
  }

  /** Readings that stay in one band change the status at most once, with the first of them. */
  lemma {:induction false} OneBandOneChange(b: Boundaries, prev: Status, rs: seq<Reading>)
    requires Ordered(b.upward) && Ordered(b.downward) && Hysteretic(b)
    requires rs != [] && forall i :: 0 <= i < |rs| ==> SameBand(b, rs[0], rs[i])
    ensures StatusAfter(b, prev, rs) == NextStatus(b, prev, rs[0])
  {
    var init := rs[..|rs| - 1];
    if init == [] {
      assert StatusAfter(b, prev, init) == prev;
    } else {
      OneBandOneChange(b, prev, init);
      SettlesIffHysteretic(b);
      assert NextStatus(b, NextStatus(b, prev, rs[0]), rs[0]) == NextStatus(b, prev, rs[0]);
    }
  }

  /** Bands that are ordered and apart: each boundary's band lies above the next one's. */
  predicate Disjoint(b: Boundaries) {
    && b.downward.a <= b.upward.a
    && b.upward.b < b.downward.a && b.downward.b <= b.upward.b
    && b.upward.c < b.downward.b && b.downward.c <= b.upward.c
    && b.upward.d < b.downward.c && b.downward.d <= b.upward.d
    && b.upward.e == b.downward.e
  }

  /**
   The one boundary set that decides from a previous status: the upward limit of every status
   above it, the downward limit of the others.
   */
  function Effective(b: Boundaries, prev: Status): Boundary {
    Boundary(if Volts(prev) >= Volts(StatusA) then b.downward.a else b.upward.a,
             if Volts(prev) >= Volts(StatusB) then b.downward.b else b.upward.b,
             if Volts(prev) >= Volts(StatusC) then b.downward.c else b.upward.c,
             if Volts(prev) >= Volts(StatusD) then b.downward.d else b.upward.d,
             if Volts(prev) >= Volts(StatusE) then b.downward.e else b.upward.e)
  }

  /** The bands do not overlap and no downward limit exceeds its upward one. */
  predicate Banded(b: Boundaries) {
    && b.downward.a <= b.upward.a
    && b.upward.b <= b.downward.a && b.downward.b <= b.upward.b
    && b.upward.c <= b.downward.b && b.downward.c <= b.upward.c
    && b.upward.d <= b.downward.c && b.downward.d <= b.upward.d
    && b.downward.e <= b.upward.e
  }

  /** Evaluating downward and then, on a rise, upward is evaluating once. */
  ghost predicate DecidesOnce(b: Boundaries) {
    forall prev: Status, r: Reading :: NextStatus(b, prev, r) == Evaluate(r, Effective(b, prev))
  }

  /** That is so exactly for bands that do not overlap. */
  lemma DecidesOnceIffBanded(b: Boundaries)
    requires Ordered(b.upward) && Ordered(b.downward)
    ensures DecidesOnce(b) <==> Banded(b)
  {
    if !Banded(b) {
      var prev, r := NotOnce(b);
      assert NextStatus(b, prev, r) != Evaluate(r, Effective(b, prev));
    }
  }

  /** A reading just over the limit that is out of place, from a status next to it. */
  lemma NotOnce(b: Boundaries) returns (prev: Status, r: Reading)
    requires Ordered(b.upward) && Ordered(b.downward) && !Banded(b)
    ensures NextStatus(b, prev, r) != Evaluate(r, Effective(b, prev))
  {
    var up, down := b.upward, b.downward;
    if down.e > up.e {
      prev, r := StatusD, Reading(down.b, down.e);
    } else if down.a > up.a {
      prev, r := StatusB, Reading(down.a, 0);
    } else if down.b > up.b {
      prev, r := StatusC, Reading(down.b, 0);
    } else if down.c > up.c {
      prev, r := StatusD, Reading(down.c, 0);
    } else if down.d > up.d {
      prev, r := StatusF, Reading(down.d, 0);
    } else if up.b > down.a {
      prev, r := StatusB, Reading(up.b, 0);
    } else if up.c > down.b {
      prev, r := StatusC, Reading(up.c, 0);
    } else {
      prev, r := StatusD, Reading(up.d, 0);
    }
  }

  /** The two statuses that a band separates. */
  predicate Separates(b: Boundaries, high: u16, above: Status, below: Status) {
    || (above == StatusA && below == StatusB && b.downward.a < high <= b.upward.a)
    || (above == StatusB && below == StatusC && b.downward.b < high <= b.upward.b)
    || (above == StatusC && below == StatusD && b.downward.c < high <= b.upward.c)
    || (above == StatusD && below == StatusF && b.downward.d < high <= b.upward.d)
  }

  /** Within a band both of its statuses are held, and every other status moves to one of them. */
  lemma BandHoldsStatus(b: Boundaries, prev: Status, r: Reading, above: Status, below: Status)
    requires Disjoint(b) && Separates(b, r.high, above, below) && r.low <= b.downward.e
    ensures NextStatus(b, above, r) == above && NextStatus(b, below, r) == below
    ensures NextStatus(b, prev, r) == if Volts(prev) >= Volts(above) then above else below
  {
  }

  const DEFAULT_BOUNDARIES := Boundaries(Boundary(3038, 2718, 2397, 2076, 767), Boundary(2985, 2644, 2344, 2022, 767))

  lemma DefaultsAreDisjoint()
    ensures Disjoint(DEFAULT_BOUNDARIES) && Hysteretic(DEFAULT_BOUNDARIES)
    ensures Ordered(DEFAULT_BOUNDARIES.upward) && Ordered(DEFAULT_BOUNDARIES.downward)
  {
  }

  /** `mv` lies within 1 mV of the line through 1996 mV at 1 V and 3038 mV at 10.75 V, at `q` quarters of a volt. */
  predicate OnLine(mv: u16, q: int) {
    -39 <= 39 * mv - (39 * 1996 + 1042 * (q - 4)) <= 39
  }

  /** The default boundaries are those of the voltages that are given for them, but for 7.25 V, which is 20 mV low. */
  lemma DefaultsOnLine()
    ensures var up, down := DEFAULT_BOUNDARIES.upward, DEFAULT_BOUNDARIES.downward;
            && OnLine(up.a, 43) && OnLine(up.b, 31) && OnLine(up.c, 19) && OnLine(up.d, 7) && OnLine(up.e, -42)
            && OnLine(down.a, 41) && OnLine(down.c, 17) && OnLine(down.d, 5) && OnLine(down.e, -42)
            && !OnLine(down.b, 29) && OnLine(down.b + 20, 29)
  {
  }

  /** So with the default boundaries readings in one band change the status at most once. */
  lemma DefaultsChangeOnce(prev: Status, rs: seq<Reading>)
    requires rs != [] && forall i :: 0 <= i < |rs| ==> SameBand(DEFAULT_BOUNDARIES, rs[0], rs[i])
    ensures StatusAfter(DEFAULT_BOUNDARIES, prev, rs) == NextStatus(DEFAULT_BOUNDARIES, prev, rs[0])
  {
    DefaultsAreDisjoint();
    OneBandOneChange(DEFAULT_BOUNDARIES, prev, rs);
  }

  // ---------- snapshots ----------

  const MAX_WAVEFORMS := 3

  /** `saved` are the snapshot buffers, `cached` the index of the published one or -1. */
  datatype Pilot = Pilot(saved: seq<Waveform>, cached: int, status: Status)

  predicate WellFormed(p: Pilot) {
    |p.saved| == MAX_WAVEFORMS && -1 <= p.cached < MAX_WAVEFORMS
  }

  /** `get_next_cache` */
  function NextCache(cached: int): nat {
    if 0 <= cached < MAX_WAVEFORMS then (cached + 1) % MAX_WAVEFORMS else 0
  }

  function ReadingOf(w: Waveform): Reading {
    Reading(w.highsMax, w.lowsMin)
  }

  /** `on_timeout`: a measurement, or none when the converter fails or the previous job still runs. */
  function Ticked(b: Boundaries, p: Pilot, measured: Option<Waveform>): Pilot
    requires WellFormed(p)
  {
    match measured
    case None => p
    case Some(w) =>
      var next := NextCache(p.cached);
      Pilot(p.saved[next := w], next, NextStatus(b, p.status, ReadingOf(w)))
  }

  function Run(b: Boundaries, p: Pilot, ticks: seq<Option<Waveform>>): (q: Pilot)
    requires WellFormed(p)
    ensures WellFormed(q)
    decreases |ticks|
  {
    if ticks == [] then p else Run(b, Ticked(b, p, ticks[0]), ticks[1..])
  }

  /** How many measurements a run publishes. */
  function Published(ticks: seq<Option<Waveform>>): nat {
    if ticks == [] then 0 else (if ticks[0].Some? then 1 else 0) + Published(ticks[1..])
  }

  /** After `n` publications the index has moved `n` places round, and the `n` buffers after it are overwritten. */
  lemma {:induction false} Rotates(b: Boundaries, p: Pilot, ticks: seq<Option<Waveform>>, k: nat)
    requires WellFormed(p) && p.cached >= 0 && k < MAX_WAVEFORMS
    ensures var q := Run(b, p, ticks);
            && q.cached == (p.cached + Published(ticks)) % MAX_WAVEFORMS
            && ((k - p.cached - 1) % MAX_WAVEFORMS >= Published(ticks) ==> q.saved[k] == p.saved[k])
    decreases |ticks|
  {
    if ticks == [] {
    } else {
      var q := Ticked(b, p, ticks[0]);
      Rotates(b, q, ticks[1..], k);
    }
  }

  /** From boot the buffers are taken in turn, starting with the first. */
  lemma RotatesFromBoot(b: Boundaries, p: Pilot, ticks: seq<Option<Waveform>>)
    requires WellFormed(p) && p.cached == -1
    ensures Run(b, p, ticks).cached == if Published(ticks) == 0 then -1 else (Published(ticks) - 1) % 3
    decreases |ticks|
  {
    if ticks == [] {
    } else if ticks[0].None? {
      RotatesFromBoot(b, p, ticks[1..]);
    } else {
      Rotates(b, Ticked(b, p, ticks[0]), ticks[1..], 0);
    }
  }

  /** A published snapshot is left alone by the next two publications, and the third takes its buffer. */
  lemma SnapshotSurvivesTwo(b: Boundaries, p: Pilot, ticks: seq<Option<Waveform>>)
    requires WellFormed(p) && p.cached >= 0
    ensures var q := Run(b, p, ticks);
            && (Published(ticks) <= 2 ==> q.saved[p.cached] == p.saved[p.cached])
            && (Published(ticks) == 3 ==> q.cached == p.cached)
  {
    Rotates(b, p, ticks, p.cached);
  }

  /** There is a snapshot whenever the status is known. */
  predicate HasSnapshot(p: Pilot) {
    p.cached >= 0 || p.status == StatusUnknown
  }

  lemma {:induction false} SnapshotUnlessUnknown(b: Boundaries, p: Pilot, ticks: seq<Option<Waveform>>)
    requires WellFormed(p) && HasSnapshot(p)
    ensures HasSnapshot(Run(b, p, ticks))
    decreases |ticks|
  {
    if ticks == [] {
    } else {
      SnapshotUnlessUnknown(b, Ticked(b, p, ticks[0]), ticks[1..]);
    }
  }

  // ---------- the object ----------

  class PilotMonitor {
    const boundaries: Boundaries
    const noise: u16
    const maxTransition: u16
    const saved: array<Waveform>
    var cached: int
    var status: Status

    constructor (boundaries: Boundaries, noise: u16, maxTransition: u16)
      ensures fresh(saved) && Ok() && cached == -1 && status == StatusUnknown
      ensures this.boundaries == boundaries
    {
      this.boundaries, this.noise, this.maxTransition := boundaries, noise, maxTransition;
      saved := new Waveform[MAX_WAVEFORMS](_ => Waveform(0, 0, 0, 0, 0, 0, 0, 0));
      cached, status := -1, StatusUnknown;
    }

    function View(): Pilot
      reads this, saved
    {
      Pilot(saved[..], cached, status)
    }

    ghost predicate Ok()
      reads this, saved
    {
      WellFormed(View()) && HasSnapshot(View())
    }

    method GetNextCache() returns (next: nat)
      requires Ok()
      ensures next == NextCache(cached) && next < MAX_WAVEFORMS
    {
      for i := 0 to MAX_WAVEFORMS
        invariant cached < 0 || cached >= i
      {
        if cached == i {
          return (i + 1) % MAX_WAVEFORMS;
        }
      }
      next := 0;
    }

    /** `is_anomaly` against the published snapshot, which must be there. */
    predicate IsAnomaly(w: Waveform)
      reads this, saved
      requires 0 <= cached < saved.Length
    {
      var was := saved[cached];
      || w.highsMax - was.highsMax > noise
      || was.highsMax - w.highsMax > noise
      || w.highsOutliers >= maxTransition
      || w.lowsOutliers >= maxTransition
    }

    /** The callback gets the new status if it changed; an anomaly is looked for only if it did not. */
    method OnTimeout(measured: Option<Waveform>) returns (notified: Option<Status>, anomaly: bool)
      requires Ok()
      modifies this, saved
      ensures Ok() && View() == Ticked(boundaries, old(View()), measured)
      ensures notified == (if status == old(status) then None else Some(status))
      ensures anomaly <==>
              && measured.Some? && status == old(status)
              && var w, was := measured.value, old(saved[cached]);
                 || w.highsMax > was.highsMax + noise || was.highsMax > w.highsMax + noise
                 || w.highsOutliers >= maxTransition || w.lowsOutliers >= maxTransition
    {
      notified, anomaly := None, false;
      if measured.Some? {
        var w := measured.value;
        var newStatus := Evaluate(ReadingOf(w), boundaries.downward);
        if Volts(newStatus) > Volts(status) {
          newStatus := Evaluate(ReadingOf(w), boundaries.upward);
        }
        if newStatus == status {
          anomaly := IsAnomaly(w);
        }
        var next := GetNextCache();
        saved[next] := w;
        cached := next;
        if status != newStatus {
          status := newStatus;
          notified := Some(newStatus);
        }
      }
    }
  }
}
