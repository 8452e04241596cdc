/**
 Traces in which an opening and a closing kind of event take turns.
 The predicates follow a trace with one remembered bit; the lemmas restate
 them as what an observer of the whole trace sees.
 */
module Alternation {

  /** The bit after a trace: true when the last opening or closing event opened. */
  ghost function Level<T>(open: bool, trace: seq<T>, on: T -> bool, off: T -> bool): bool
    decreases |trace|
  {
    if trace == [] then open else Level(Next(open, trace[0], on, off), trace[1..], on, off)
  }

  ghost function Next<T>(open: bool, event: T, on: T -> bool, off: T -> bool): bool {
    if on(event) then true else if off(event) then false else open
  }

  /** An opening event is seen only while closed. */
  ghost predicate OpensWhenClosed<T>(open: bool, trace: seq<T>, on: T -> bool, off: T -> bool)
    decreases |trace|
  {
    trace == [] ||
    (&& (on(trace[0]) ==> !open)
     && OpensWhenClosed(Next(open, trace[0], on, off), trace[1..], on, off))
  }

  /** A closing event is seen only while open. */
  ghost predicate ClosesWhenOpen<T>(open: bool, trace: seq<T>, on: T -> bool, off: T -> bool)
    decreases |trace|
  {
    trace == [] ||
    (&& (off(trace[0]) ==> open && !on(trace[0]))
     && ClosesWhenOpen(Next(open, trace[0], on, off), trace[1..], on, off))
  }

  ghost predicate Alternates<T>(open: bool, trace: seq<T>, on: T -> bool, off: T -> bool) {
    OpensWhenClosed(open, trace, on, off) && ClosesWhenOpen(open, trace, on, off)
  }

  /** Between two opening events there is a closing one. */
  lemma {:induction false} ClosedBetweenOpens<T>(
      open: bool, trace: seq<T>, on: T -> bool, off: T -> bool, i: nat, j: nat)
    requires OpensWhenClosed(open, trace, on, off)
    requires i < j < |trace| && on(trace[i]) && on(trace[j])
    ensures exists k :: i < k < j && off(trace[k])
    decreases |trace|
  {
    if i == 0 {
      var k := ClosedBefore(trace[1..], on, off, j - 1);
      assert trace[k + 1] == trace[1..][k];
    } else {
      ClosedBetweenOpens(Next(open, trace[0], on, off), trace[1..], on, off, i - 1, j - 1);
      var k :| i - 1 < k < j - 1 && off(trace[1..][k]);
      assert trace[k + 1] == trace[1..][k];
    }
  }

  lemma {:induction false} ClosedBefore<T>(trace: seq<T>, on: T -> bool, off: T -> bool, j: nat) returns (k: nat)
    requires OpensWhenClosed(true, trace, on, off)
    requires j < |trace| && on(trace[j])
    ensures k < j && off(trace[k])
  {
    if off(trace[0]) {
      k := 0;
    } else {
      k := ClosedBefore(trace[1..], on, off, j - 1);
      k := k + 1;
    }
  }

  /** Before every closing event there is an opening one, with no closing event in between. */
  lemma {:induction false} OpenedBeforeClose<T>(trace: seq<T>, on: T -> bool, off: T -> bool, j: nat) returns (k: nat)
    requires ClosesWhenOpen(false, trace, on, off)
    requires j < |trace| && off(trace[j])
    ensures k < j && on(trace[k])
    ensures forall m :: k < m < j ==> !off(trace[m])
  {
    var open := false;
    k := 0;
    var i := 0;
    while i < j
      invariant 0 <= i <= j
      invariant ClosesWhenOpen(open, trace[i..], on, off)
      invariant open ==> k < i && on(trace[k]) && forall m :: k < m < i ==> !off(trace[m])
    {
      assert trace[i..][0] == trace[i] && trace[i..][1..] == trace[i + 1..];
      if on(trace[i]) {
        k := i;
      }
      open := Next(open, trace[i], on, off);
      i := i + 1;
    }
    assert trace[j..][0] == trace[j];
  }
}
