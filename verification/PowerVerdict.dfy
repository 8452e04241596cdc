/** What each verdict of the mains monitor means, told from the edges and ticks of the run. */
module PowerVerdict {
  import opened CInt
  import opened Common
  import opened PowerSafety

  /** The tick at `i` comes less than a second after the last edge. */
  ghost predicate LiveAt(events: seq<Event>, i: nat) {
    i < |events| && events[i].Tick? && Since(events[i].now.pulse, Run(events[..i]).last) < 1000
  }

  /** How many edges the event at `i` finds in the buffer. */
  ghost function EdgesAt(events: seq<Event>, i: nat): nat
    requires i <= |events|
  {
    |Run(events[..i]).ring|
  }

  /** The last tick with a live pulse. */
  ghost function LastLive(events: seq<Event>): (i: Option<nat>)
    ensures i.Some? ==> i.value < |events|
  {
    if events == [] then None
    else if LiveAt(events, |events| - 1) then Some(|events| - 1)
    else LastLive(events[..|events| - 1])
  }

  /** The last tick that had a live pulse and found at least 57 edges. */
  ghost function LastDrain(events: seq<Event>): (i: Option<nat>)
    ensures i.Some? ==> i.value < |events|
  {
    if events == [] then None
    else
      var n := |events| - 1;
      if LiveAt(events, n) && EdgesAt(events, n) >= 57 then Some(n) else LastDrain(events[..n])
  }

  lemma {:induction false} LastWithin(events: seq<Event>)
    ensures LastLive(events).Some? ==> LiveAt(events, LastLive(events).value)
    ensures LastDrain(events).Some? ==>
              LiveAt(events, LastDrain(events).value) && EdgesAt(events, LastDrain(events).value) >= 57
  {
    if events == [] {
    } else {
      var init := events[..|events| - 1];
      LastWithin(init);
      assert forall i :: 0 <= i < |init| ==> init[..i] == events[..i] && init[i] == events[i];
    }
  }

  /** When the frequency was last measured; boot counts as a time. */
  ghost function Measured(events: seq<Event>): u32 {
    LastWithin(events);
    if LastDrain(events).Some? then events[LastDrain(events).value].now.stamp else 0
  }

  /** A tick since then found it 2 s old. */
  ghost predicate Lapsed(events: seq<Event>) {
    if events == [] then true
    else
      var n := |events| - 1;
      if LastDrain(events) == Some(n) then false
      else
        || Lapsed(events[..n])
        || (events[n].Tick? && Since(events[n].now.age, Measured(events[..n])) >= 2000)
  }

  /** The frequency measured by the last draining tick, 0 without one or once it has lapsed. */
  ghost function Frequency(events: seq<Event>): u8 {
    LastWithin(events);
    if Lapsed(events) || LastDrain(events).None? then 0 else MeanFreq(Run(events[..LastDrain(events).value]).ring)
  }

  /** The last tick with a live pulse found fewer than 57 edges. */
  ghost predicate FewEdges(events: seq<Event>) {
    LastLive(events).Some? && EdgesAt(events, LastLive(events).value) < 57
  }

  /** The monitor remembers just this of the run. */
  ghost predicate Remembered(events: seq<Event>) {
    var m := Run(events);
    m.updated == Measured(events) && m.freq == Frequency(events) && (m.missing > 3 <==> FewEdges(events))
  }

  /** What one event does to it. */
  lemma EventDoes(events: seq<Event>, n: nat)
    requires |events| == n + 1
    ensures var was, m, e := Run(events[..n]), Run(events), events[n];
            var drains := LiveAt(events, n) && |was.ring| >= 57;
            && m.updated == (if drains then e.now.stamp else was.updated)
            && m.freq == (if drains then MeanFreq(was.ring)
                          else if e.Tick? && Since(e.now.age, was.updated) >= 2000 then 0 else was.freq)
            && (drains ==> m.missing == 0)
            && (m.missing > 3 <==> if LiveAt(events, n) then |was.ring| < 57 else was.missing > 3)
  {
    hide MeanFreq, Since;
  }

  lemma {:induction false} Remembers(events: seq<Event>)
    ensures Remembered(events)
  {
    if events == [] {
    } else {
      Remembers(events[..|events| - 1]);
      RemembersStep(events, |events| - 1);
    }
  }

  lemma RemembersStep(events: seq<Event>, n: nat)
    requires |events| == n + 1 && Remembered(events[..n])
    ensures Remembered(events)
  {
    hide MeanFreq, Since, Run, LiveAt;
    var init := events[..n];
    EventDoes(events, n);
    LastWithin(events);
    LastWithin(init);
    if LastLive(init).Some? {
      assert init[..LastLive(init).value] == events[..LastLive(init).value];
    }
    if LastDrain(init).Some? {
      assert init[..LastDrain(init).value] == events[..LastDrain(init).value];
      assert init[LastDrain(init).value] == events[LastDrain(init).value];
    }
  }

  /**
   In every run the verdict is STALE exactly when the last measurement, or boot, is 2 s ago; else
   SAMPLING_ERROR exactly when the last tick with a live pulse found fewer than 57 edges; else
   ABNORMAL_FREQUENCY exactly when the measured frequency is more than 3 Hz off; else OK.
   */
  lemma VerdictMeans(events: seq<Event>, expected: int, now: u32)
    ensures var verdict := Check(Run(events), expected, now);
            var stale := Since(now, Measured(events)) >= 2000;
            var few := FewEdges(events);
            var off := Frequency(events) < expected - 3 || Frequency(events) > expected + 3;
            && (verdict == Stale <==> stale)
            && (verdict == SamplingError <==> !stale && few)
            && (verdict == AbnormalFrequency <==> !stale && !few && off)
            && (verdict == Ok <==> !stale && !few && !off)
  {
    hide Run, Since, Measured, Frequency, FewEdges;
    Remembers(events);
  }
}
