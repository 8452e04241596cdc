/**
 The free-charging connector (src/charger/free/free_connector.c over
 src/charger/connector.c): a transition table that drives the control pilot
 and the relay from the pilot measurement and the safety verdicts.
 */
module FreeConnector {
  import opened CInt
  import opened Iec61851
  import opened PilotLevel

  const INITIAL_STABILIZATION_SEC := 2
  const EV_RESPONSE_TIMEOUT_SEC := 6

  /** One sampling of everything outside the connector. */
  datatype Inputs = Inputs(
    status: Status, measuredDuty: u8,
    inputPowerOk: bool, outputPowerOk: bool, emergencyStop: bool,
    now: int, uptime: int)

  datatype Error = NoError | EvSide | EvseSide | EmergencyStop

  datatype Event = Plugged | Unplugged | ChargingStarted | ChargingEnded | Errored | Recovered | Enabled

  datatype Connector = Connector(
    state: State, port: Port, lastChange: int, error: Error, enabled: bool)

  const INITIAL_CONNECTOR := Connector(E, INITIAL_PORT, 0, NoError, false)

  predicate IsCharging(s: State) {
    s == C || s == D
  }

  // ---------- guards ----------

  datatype Guard =
    | IsInitial | IsState(x: State) | IsState2(x: State) | IsEvseError | IsRecovered

  function CurrentState(c: Connector, r: Inputs): State {
    DerivedState(c.port, r.status)
  }

  /** `connector_is_evse_error` */
  predicate EvseError(c: Connector, r: Inputs) {
    || c.port.target == 0
    || (!r.inputPowerOk && r.uptime > INITIAL_STABILIZATION_SEC)
    || r.emergencyStop
    || (IsCharging(c.state) && !r.outputPowerOk && r.now - c.lastChange > INITIAL_STABILIZATION_SEC)
    || CurrentState(c, r) == F
    || CurrentState(c, r) == E
  }

  /** `is_recovered`: the elapsed time is an unsigned 32-bit difference. */
  predicate RecoveryDue(c: Connector, r: Inputs) {
    && r.inputPowerOk
    && !r.emergencyStop
    && Wrap32(r.now - c.lastChange) >= EV_RESPONSE_TIMEOUT_SEC
  }

  predicate Holds(g: Guard, c: Connector, r: Inputs) {
    match g
    case IsInitial => c.state == E && c.port.target == 0 && r.measuredDuty == 0
    case IsState(x) => CurrentState(c, r) == x
    case IsState2(x) => CurrentState(c, r) == x && 0 < c.port.target < 100
    case IsEvseError => EvseError(c, r)
    case IsRecovered => RecoveryDue(c, r)
  }

  // ---------- actions ----------

  datatype Action =
    | Nothing | StopPwm | StartPwm | SupplyPower | StopPower | StopAll
    | Unexpected | FailEvse | FailEv

  /** The connector after an action; `max` is the configured maximum current. */
  function Perform(a: Action, c: Connector, max: u32, r: Inputs): Connector {
    match a
    case Nothing => c
    case StopPwm => c.(port := WithPilot(c.port, MilliampereToDuty(0)))
    case StartPwm => c.(port := WithPilot(c.port, MilliampereToDuty(max)))
    case SupplyPower => c.(port := if c.port.supplying then c.port else WithPower(c.port, true))
    case StopPower => c.(port := PowerStopped(c.port))
    case StopAll => c.(port := WithPilot(PowerStopped(c.port), MilliampereToDuty(0)))
    case Unexpected => c.(port := WithPilot(c.port, 0), error := EvseSide)
    case FailEvse =>
      c.(port := WithPilot(PowerStopped(c.port), 0), error := if r.emergencyStop then EmergencyStop else EvseSide)
    case FailEv => c.(port := WithPilot(PowerStopped(c.port), 0), error := EvSide)
  }

  function PowerStopped(p: Port): Port {
    if p.supplying then WithPower(p, false) else p
  }

  // ---------- the table ----------

  datatype Row = Row(from: State, guard: Guard, action: Action, to: State)

  const TRANSITIONS: seq<Row> := [
    Row(E, IsInitial, StopPwm, A),

    Row(A, IsState(B), StartPwm, B),
    Row(A, IsState(C), Unexpected, F),
    Row(A, IsState(D), Unexpected, F),
    Row(A, IsState(E), Unexpected, F),
    Row(A, IsEvseError, FailEvse, F),

    Row(B, IsState(A), StopPwm, A),
    Row(B, IsState2(C), SupplyPower, C),
    Row(B, IsState2(D), SupplyPower, D),
    Row(B, IsState(E), FailEv, F),
    Row(B, IsEvseError, FailEvse, F),

    Row(C, IsState(A), StopAll, A),
    Row(C, IsState(B), StopPower, B),
    Row(C, IsState(D), Nothing, D),
    Row(C, IsState(E), FailEv, F),
    Row(C, IsEvseError, FailEvse, F),

    Row(D, IsState(A), StopAll, A),
    Row(D, IsState(B), StopPower, B),
    Row(D, IsState(C), Nothing, C),
    Row(D, IsState(E), FailEv, F),
    Row(D, IsEvseError, FailEvse, F),

    Row(F, IsState(A), Unexpected, F),
    Row(F, IsState(B), Unexpected, F),
    Row(F, IsState(C), Unexpected, F),
    Row(F, IsState(D), Unexpected, F),
    Row(F, IsState(E), Unexpected, F),
    Row(F, IsRecovered, StopPwm, A)
  ]

  const ROWS := 27

  /**
   The samplings of one step. The world may move between two guards, so the guard
   of row `i` sees sampling `i`; the action and the state-change callback see the last.
   */
  type Readings = r: seq<Inputs> | |r| == ROWS + 1
    witness seq(ROWS + 1, _ => Inputs(StatusA, 0, true, true, false, 0, 0))

  /** A step during which nothing outside changes. */
  function Frozen(r: Inputs): Readings {
    seq(ROWS + 1, _ => r)
  }

  predicate Fires(c: Connector, rs: Readings, i: nat)
    requires i < ROWS
  {
    TRANSITIONS[i].from == c.state && Holds(TRANSITIONS[i].guard, c, rs[i])
  }

  /** `fsm_step` scans the table in order and takes the first row that fires. */
  function FirstRow(c: Connector, rs: Readings, i: nat): (row: nat)
    requires i <= ROWS
    ensures i <= row <= ROWS
    ensures row < ROWS ==> Fires(c, rs, row)
    ensures forall j :: i <= j < row ==> !Fires(c, rs, j)
    decreases ROWS - i
  {
    if i == ROWS || Fires(c, rs, i) then i else FirstRow(c, rs, i + 1)
  }

  /** `get_event_from_state_change` */
  function EventsOf(from: State, to: State): set<Event> {
    match (from, to)
    case (A, B) => {Plugged}
    case (A, F) => {Errored}
    case (B, A) => {Unplugged}
    case (B, C) => {ChargingStarted}
    case (B, D) => {ChargingStarted}
    case (B, F) => {Errored}
    case (C, A) => {ChargingEnded, Unplugged}
    case (C, B) => {ChargingEnded}
    case (C, E) => {ChargingEnded, Errored}
    case (C, F) => {ChargingEnded, Errored}
    case (D, A) => {ChargingEnded, Unplugged}
    case (D, B) => {ChargingEnded}
    case (D, E) => {ChargingEnded, Errored}
    case (D, F) => {ChargingEnded, Errored}
    case (E, F) => {Errored}
    case (F, A) => {Recovered}
    case (F, B) => {Recovered, Plugged}
    case _ => {}
  }

  /** Runs a row's action, moves to its state, and notes the time if the state is new. */
  function TakeRow(c: Connector, max: u32, row: Row, r: Inputs): Connector {
    var acted := Perform(row.action, c, max, r).(state := row.to);
    if row.to == c.state then acted else acted.(lastChange := r.now)
  }

  function Step(c: Connector, max: u32, rs: Readings): (Connector, set<Event>) {
    var i := FirstRow(c, rs, 0);
    if i == ROWS then (c, {})
    else (TakeRow(c, max, TRANSITIONS[i], rs[ROWS]), EventsOf(c.state, TRANSITIONS[i].to))
  }

  // ---------- the connector's interface ----------

  datatype Op = Enable(now: int) | Disable | Process(readings: Readings)

  function Apply(c: Connector, max: u32, op: Op): (Connector, set<Event>) {
    match op
    case Enable(now) => (c.(lastChange := now, enabled := true), {Event.Enabled})
    case Disable => (c.(enabled := false), {})
    case Process(rs) => if c.enabled then Step(c, max, rs) else (c, {})
  }

  function Run(c: Connector, max: u32, ops: seq<Op>): Connector
    decreases |ops|
  {
    if ops == [] then c else Run(Apply(c, max, ops[0]).0, max, ops[1..])
  }

  /** The notifications of a run, one (possibly empty) set per operation. */
  function Events(c: Connector, max: u32, ops: seq<Op>): seq<set<Event>>
    decreases |ops|
  {
    if ops == [] then []
    else var (next, events) := Apply(c, max, ops[0]); [events] + Events(next, max, ops[1..])
  }

  // ---------- the object ----------

  class FreeCharger {
    const port: ControlPort
    const max: u32
    var state: State
    var lastChange: int
    var error: Error
    var enabled: bool

    constructor (port: ControlPort, max: u32)
      requires port.View() == INITIAL_PORT
      ensures this.port == port && this.max == max
      ensures View() == INITIAL_CONNECTOR
    {
      this.port, this.max := port, max;
      state, lastChange, error, enabled := E, 0, NoError, false;
    }

    function View(): Connector
      reads this, port
    {
      Connector(state, port.View(), lastChange, error, enabled)
    }

    method StopPowerIfOn()
      modifies port
      ensures View() == old(View()).(port := PowerStopped(old(port.View())))
    {
      if port.supplying {
        port.StopPowerSupply();
      }
    }

    method Act(a: Action, r: Inputs)
      modifies this, port
      ensures View() == Perform(a, old(View()), max, r)
    {
      match a
      case Nothing =>
      case StopPwm => port.SetCurrent(0);
      case StartPwm => port.SetCurrent(max);
      case SupplyPower =>
        if !port.supplying {
          port.StartPowerSupply();
        }
      case StopPower => StopPowerIfOn();
      case StopAll =>
        StopPowerIfOn();
        port.SetCurrent(0);
      case Unexpected =>
        port.SetStateF();
        error := EvseSide;
      case FailEvse =>
        StopPowerIfOn();
        port.SetStateF();
        error := if r.emergencyStop then EmergencyStop else EvseSide;
      case FailEv =>
        StopPowerIfOn();
        port.SetStateF();
        error := EvSide;
    }

    /** The table scan of `fsm_step`. */
    method FindRow(rs: Readings) returns (i: nat)
      ensures i == FirstRow(View(), rs, 0)
    {
      i := 0;
      while i < ROWS && !Fires(View(), rs, i)
        invariant i <= ROWS
        invariant FirstRow(View(), rs, 0) == FirstRow(View(), rs, i)
      {
        i := i + 1;
      }
    }

    /** `process`: one step of the table, and the events handed to the callback. */
    method ProcessStep(rs: Readings) returns (events: set<Event>)
      modifies this, port
      ensures (View(), events) == Step(old(View()), max, rs)
    {
      events := {};
      var i := FindRow(rs);
      if i < ROWS {
        var row, from := TRANSITIONS[i], state;
        Act(row.action, rs[ROWS]);
        state := row.to;
        if row.to != from {
          lastChange := rs[ROWS].now;
        }
        events := EventsOf(from, row.to);
      }
    }

    /** `connector_enable`, `connector_disable` and `connector_process`. */
    method Call(op: Op) returns (events: set<Event>)
      modifies this, port
      ensures (View(), events) == Apply(old(View()), max, op)
    {
      events := {};
      match op
      case Enable(now) =>
        events := {Event.Enabled};
        lastChange := now;
        enabled := true;
      case Disable => enabled := false;
      case Process(rs) =>
        if enabled {
          events := ProcessStep(rs);
        }
    }
  }
}
