/** The control pilot and the relay behind IEC 61851-1 states (src/iec61851.c). */
module Iec61851 {
  import opened CInt
  import opened PilotLevel

  const K := 1000

  datatype State = A | B | C | D | E | F

  // ---------- duty and current, Tables A.7 and A.8 of IEC 61851-1 ----------

  function DutyToMilliampere(duty: u8): (mA: u32) {
    if duty > 97 then 0
    else if duty > 96 then 80 * K
    else if duty > 85 then (duty - 64) * 25 * K / 10
    else if duty >= 10 then duty * 6 * K / 10
    else if duty >= 8 then 6 * K
    else 0
  }

  function MilliampereToDuty(mA: u32): (duty: u8) {
    if mA > 80 * K then 96
    else if mA >= 55 * K then mA * 10 / K / 25 + 64
    else if mA >= 6 * K then mA * 10 / 6 / K
    else 100
  }

  /**
   The decoding as Table A.8 has it: nothing outside 8 to 97 percent, 6 A up to 10 percent, 0.6 A a
   percent up to 85, a step of 4 A, 2.5 A a percent up to 96, and 80 A there and at 97.
   */
  lemma DecodedCurrent(duty: u8)
    ensures DutyToMilliampere(duty) > 0 <==> 8 <= duty <= 97
    ensures 8 <= duty <= 10 ==> DutyToMilliampere(duty) == 6000
    ensures 10 <= duty < 85 ==> DutyToMilliampere(duty + 1) == DutyToMilliampere(duty) + 600
    ensures DutyToMilliampere(86) == DutyToMilliampere(85) + 4000
    ensures 86 <= duty < 96 ==> DutyToMilliampere(duty + 1) == DutyToMilliampere(duty) + 2500
    ensures 96 <= duty <= 97 ==> DutyToMilliampere(duty) == 80000
  {
  }

  /** The requests that fall between the two branches of the encoding. */
  predicate InGap(mA: u32) {
    51600 <= mA < 55 * K
  }

  /** `duty` is the largest PWM duty whose advertised current stays within the request. */
  ghost predicate IsBestDuty(duty: u8, mA: u32) {
    && 10 <= duty <= 96
    && DutyToMilliampere(duty) <= mA
    && forall d: u8 :: 10 <= d <= 96 && DutyToMilliampere(d) <= mA ==> d <= duty
  }

  /** From 6 A up, the encoding picks the best duty exactly outside the gap. */
  lemma BestDutyIffOutsideGap(mA: u32)
    requires mA >= 6 * K
    ensures IsBestDuty(MilliampereToDuty(mA), mA) <==> !InGap(mA)
  {
    var duty := MilliampereToDuty(mA);
    if InGap(mA) {
      assert duty >= 86 && DutyToMilliampere(duty) >= 55 * K;
    } else {
      forall d: u8 | 10 <= d <= 96 && DutyToMilliampere(d) <= mA
        ensures d <= duty
      {
        if mA >= 55 * K && d > 85 && mA <= 80 * K {
          assert (d - 64) * 2500 <= mA;
        }
      }
    }
  }

  /** What the pilot advertises for a request exceeds the request exactly in the gap. */
  lemma AdvertisesAtMostIffOutsideGap(mA: u32)
    ensures DutyToMilliampere(MilliampereToDuty(mA)) <= mA <==> !InGap(mA)
  {
    if mA >= 6 * K {
      BestDutyIffOutsideGap(mA);
    }
  }

  /** Decoding and encoding again gives the duty back exactly on 10..96 and on the steady 100. */
  lemma DutyRoundTrip(duty: u8)
    ensures MilliampereToDuty(DutyToMilliampere(duty)) == duty <==> 10 <= duty <= 96 || duty == 100
  {
    if 86 <= duty <= 96 {
      assert DutyToMilliampere(duty) == (duty - 64) * 2500;
    } else if 10 <= duty <= 85 {
      assert DutyToMilliampere(duty) == duty * 600;
    }
  }

  /** No request switches the pilot off, and a request below 6 A gives no PWM. */
  lemma EncodedDutyRange(mA: u32)
    ensures mA >= 6 * K ==> 10 <= MilliampereToDuty(mA) <= 96
    ensures mA < 6 * K ==> MilliampereToDuty(mA) == 100
  {
  }

  // ---------- the port: pilot output, relay, and their shadow copies ----------

  /**
   `dutySet` is the duty the pilot was last given and `relayOn` the relay output;
   `target` and `supplying` are the copies that `struct iec61851` keeps of them.
   */
  datatype Port = Port(dutySet: u8, target: u8, relayOn: bool, supplying: bool)

  const INITIAL_PORT := Port(0, 0, false, false)

  function WithPilot(p: Port, pct: u8): Port {
    p.(dutySet := pct, target := pct)
  }

  function WithPower(p: Port, on: bool): Port {
    p.(relayOn := on, supplying := on)
  }

  /** `iec61851_state`: a pilot that is switched off is state F whatever it measures. */
  function DerivedState(p: Port, status: Status): State {
    if p.dutySet == 0 then F
    else match status
         case StatusA => A
         case StatusB => B
         case StatusC => C
         case StatusD => D
         case StatusE => E
         case StatusF => F
         case StatusUnknown => F
  }

  class ControlPort {
    var dutySet: u8
    var target: u8
    var relayOn: bool
    var supplying: bool

    constructor ()
      ensures View() == INITIAL_PORT
    {
      dutySet, target, relayOn, supplying := 0, 0, false, false;
    }

    function View(): Port
      reads this
    {
      Port(dutySet, target, relayOn, supplying)
    }

    method SetPilot(pct: u8)
      modifies this
      ensures View() == WithPilot(old(View()), pct)
    {
      dutySet := pct;
      target := pct;
    }

    method SetCurrent(mA: u32)
      modifies this
      ensures View() == WithPilot(old(View()), MilliampereToDuty(mA))
    {
      SetPilot(MilliampereToDuty(mA));
    }

    method SetStateF()
      modifies this
      ensures View() == WithPilot(old(View()), 0)
    {
      SetPilot(0);
    }

    method StartPowerSupply()
      modifies this
      ensures View() == WithPower(old(View()), true)
    {
      relayOn := true;
      supplying := true;
    }

    method StopPowerSupply()
      modifies this
      ensures View() == WithPower(old(View()), false)
    {
      relayOn := false;
      supplying := false;
    }
  }
}
