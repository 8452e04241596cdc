/** What one step of the free-charging connector does, told from the readings and without the table. */
module FreeConnectorSteps {
  import opened CInt
  import opened Iec61851
  import opened PilotLevel
  import opened FreeConnector
  import opened FreeConnectorSafety

  /** An emergency stop, bad input power after 2 s of uptime, or bad output power more than 2 s into charging. */
  predicate StationFault(c: Connector, r: Inputs) {
    || r.emergencyStop
    || (!r.inputPowerOk && r.uptime > 2)
    || ((c.state == C || c.state == D) && !r.outputPowerOk && r.now - c.lastChange > 2)
  }

  /** The vehicle's reading decides first; the station's faults count only where it asks for no move. */
  function NextState(c: Connector, max: u32, r: Inputs): State {
    var stay := if StationFault(c, r) then F else c.state;
    match (c.state, r.status)
    case (E, _) => if r.measuredDuty == 0 then A else E
    case (F, _) => if r.inputPowerOk && !r.emergencyStop && (r.now - c.lastChange) % 0x1_0000_0000 >= 6 then A else F
    case (A, StatusA) => stay
    case (A, StatusB) => B
    case (A, _) => F
    case (_, StatusA) => A
    case (_, StatusB) => if c.state == B then stay else B
    case (_, StatusC) => if c.state == C || (c.state == B && max < 6000) then stay else C
    case (_, StatusD) => if c.state == D || (c.state == B && max < 6000) then stay else D
    case (_, _) => F
  }

  /** Who is to blame when F is entered. */
  function NextError(c: Connector, r: Inputs, next: State): Error {
    if next != F || c.state == F then c.error
    else if c.state != A && r.status == StatusE then EvSide
    else if r.emergencyStop && !(c.state == A && r.status in {StatusC, StatusD, StatusE}) then EmergencyStop
    else EvseSide
  }

  /** Pilot and relay of a state. */
  function PortOf(s: State, max: u32): Port {
    var duty := DutyOf(s, max);
    Port(duty, duty, s == C || s == D, s == C || s == D)
  }

  /** What is notified of a move. */
  ghost predicate Notified(events: set<Event>, from: State, to: State) {
    && (Plugged in events <==> from == A && to == B)
    && (Unplugged in events <==> (from == B || from == C || from == D) && to == A)
    && (ChargingStarted in events <==> from == B && (to == C || to == D))
    && (ChargingEnded in events <==> (from == C || from == D) && to != C && to != D)
    && (Errored in events <==> from != F && to == F)
    && (Recovered in events <==> from == F && to != F)
    && Event.Enabled !in events
  }

  /** The first row that fires, or none, among the rows of the state. */
  lemma TakesNone(c: Connector, rs: Readings)
    requires forall j :: RowsFrom(c.state).0 <= j < RowsFrom(c.state).1 ==> !Fires(c, rs, j)
    ensures FirstRow(c, rs, 0) == ROWS
  {
    var i := FirstRow(c, rs, 0);
    if i < ROWS {
      TableShape(i);
    }
  }

  lemma Takes(c: Connector, rs: Readings, k: nat)
    requires RowsFrom(c.state).0 <= k <= RowsFrom(c.state).1
    requires forall j :: RowsFrom(c.state).0 <= j < k ==> !Fires(c, rs, j)
    requires k < RowsFrom(c.state).1 ==> Fires(c, rs, k)
    ensures FirstRow(c, rs, 0) == if k < RowsFrom(c.state).1 then k else ROWS
  {
    if k < RowsFrom(c.state).1 {
      TakesRow(c, rs, k);
    } else {
      TakesNone(c, rs);
    }
  }

  /** The row that a step takes, or none. */
  function RowOf(c: Connector, max: u32, r: Inputs): nat {
    var first := RowsFrom(c.state).0;
    var stay := if StationFault(c, r) then RowsFrom(c.state).1 - 1 else ROWS;
    match (c.state, r.status)
    case (E, _) => if r.measuredDuty == 0 then 0 else ROWS
    case (F, _) => if NextState(c, max, r) == A then ROWS - 1 else ROWS
    case (A, StatusA) => stay
    case (_, StatusA) => first
    case (A, StatusB) => first
    case (B, StatusB) => stay
    case (_, StatusB) => first + 1
    case (A, StatusC) => first + 1
    case (B, StatusC) => if max >= 6000 then first + 1 else stay
    case (C, StatusC) => stay
    case (D, StatusC) => first + 2
    case (B, StatusD) => if max >= 6000 then first + 2 else stay
    case (D, StatusD) => stay
    case (_, StatusD) => first + 2
    case (_, StatusE) => first + 3
    case (_, _) => first + 4
  }

  lemma RowFromE(c: Connector, max: u32, r: Inputs)
    requires Inv(c, max) && c.state == E
    ensures FirstRow(c, Frozen(r), 0) == RowOf(c, max, r)
  {
    var k := RowOf(c, max, r);
    Takes(c, Frozen(r), if k == ROWS then RowsFrom(c.state).1 else k);
  }

  lemma RowFromA(c: Connector, max: u32, r: Inputs)
    requires Inv(c, max) && c.state == A
    ensures FirstRow(c, Frozen(r), 0) == RowOf(c, max, r)
  {
    var k := RowOf(c, max, r);
    Takes(c, Frozen(r), if k == ROWS then RowsFrom(c.state).1 else k);
  }

  lemma RowFromB(c: Connector, max: u32, r: Inputs)
    requires Inv(c, max) && c.state == B
    ensures FirstRow(c, Frozen(r), 0) == RowOf(c, max, r)
  {
    EncodedDutyRange(max);
    var k := RowOf(c, max, r);
    Takes(c, Frozen(r), if k == ROWS then RowsFrom(c.state).1 else k);
  }

  lemma RowFromC(c: Connector, max: u32, r: Inputs)
    requires Inv(c, max) && c.state == C
    ensures FirstRow(c, Frozen(r), 0) == RowOf(c, max, r)
  {
    EncodedDutyRange(max);
    var k := RowOf(c, max, r);
    Takes(c, Frozen(r), if k == ROWS then RowsFrom(c.state).1 else k);
  }

  lemma RowFromD(c: Connector, max: u32, r: Inputs)
    requires Inv(c, max) && c.state == D
    ensures FirstRow(c, Frozen(r), 0) == RowOf(c, max, r)
  {
    EncodedDutyRange(max);
    var k := RowOf(c, max, r);
    Takes(c, Frozen(r), if k == ROWS then RowsFrom(c.state).1 else k);
  }

  lemma RowFromF(c: Connector, max: u32, r: Inputs)
    requires Inv(c, max) && c.state == F
    ensures FirstRow(c, Frozen(r), 0) == RowOf(c, max, r)
  {
    var k := RowOf(c, max, r);
    Takes(c, Frozen(r), if k == ROWS then RowsFrom(c.state).1 else k);
  }

  lemma RowTaken(c: Connector, max: u32, r: Inputs)
    requires Inv(c, max)
    ensures FirstRow(c, Frozen(r), 0) == RowOf(c, max, r)
  {
    hide FirstRow, RowOf, Inv;
    match c.state
    case A => RowFromA(c, max, r);
    case B => RowFromB(c, max, r);
    case C => RowFromC(c, max, r);
    case D => RowFromD(c, max, r);
    case E => RowFromE(c, max, r);
    case F => RowFromF(c, max, r);
  }

  /** Where that row leads, and whom it blames. */
  lemma RowLeads(c: Connector, max: u32, r: Inputs)
    ensures var k, next := RowOf(c, max, r), NextState(c, max, r);
            if k >= ROWS then k == ROWS && next == c.state
            else && TRANSITIONS[k].to == next
                 && TRANSITIONS[k].action in Actions(c, r, next)
  {
    hide StationFault;
    match c.state
    case A =>
    case B =>
    case C =>
    case D =>
    case E =>
    case F =>
  }

  /** The actions by which a move may be made, as far as they blame someone. */
  function Actions(c: Connector, r: Inputs, next: State): set<Action> {
    if next != F || c.state == F then {Nothing, StopPwm, StartPwm, SupplyPower, StopPower, StopAll}
    else if c.state == A && r.status in {StatusC, StatusD, StatusE} then {Unexpected}
    else if r.status == StatusE then {FailEv}
    else {FailEvse}
  }

  lemma ActionBlames(c: Connector, max: u32, r: Inputs, next: State, a: Action)
    requires a in Actions(c, r, next)
    ensures Perform(a, c, max, r).error == NextError(c, r, next)
  {
  }

  lemma NextFrom(c: Connector, max: u32, r: Inputs)
    requires Inv(c, max)
    ensures Step(c, max, Frozen(r)).0.state == NextState(c, max, r)
    ensures Step(c, max, Frozen(r)).0.error == NextError(c, r, NextState(c, max, r))
  {
    hide FirstRow, RowOf, NextState, Actions, Perform;
    var k := RowOf(c, max, r);
    RowTaken(c, max, r);
    RowLeads(c, max, r);
    if k < ROWS {
      ActionBlames(c, max, r, NextState(c, max, r), TRANSITIONS[k].action);
    }
  }

  /** A step stamps the time exactly when it changes the state, and tells the move. */
  lemma StepTells(c: Connector, max: u32, rs: Readings)
    ensures var (next, events) := Step(c, max, rs);
            && next.enabled == c.enabled
            && next.lastChange == (if next.state == c.state then c.lastChange else rs[ROWS].now)
            && Notified(events, c.state, next.state)
  {
    hide FirstRow, EventsOf, IsMove, Perform, Notified;
    var i := FirstRow(c, rs, 0);
    if i < ROWS {
      TableShape(i);
      MoveNotified(TRANSITIONS[i]);
      PerformKeeps(TRANSITIONS[i].action, c, max, rs[ROWS]);
    } else {
      NothingNotified(c.state);
    }
  }

  lemma PerformKeeps(a: Action, c: Connector, max: u32, r: Inputs)
    ensures var p := Perform(a, c, max, r); p.enabled == c.enabled && p.lastChange == c.lastChange
  {
  }

  lemma NothingNotified(s: State)
    ensures Notified({}, s, s)
  {
  }

  lemma MoveNotified(row: Row)
    requires IsMove(row)
    ensures Notified(EventsOf(row.from, row.to), row.from, row.to)
  {
  }

  /**
   The whole effect of a step of any run in which every guard sees the same readings: state, pilot,
   relay, time stamp, error and notifications. A disabled connector does nothing.
   */
  lemma StepExactly(max: u32, ops: seq<Op>, r: Inputs)
    ensures var c := Run(INITIAL_CONNECTOR, max, ops);
            var (n, events) := Apply(c, max, Process(Frozen(r)));
            if !c.enabled then n == c && events == {}
            else
              var next := NextState(c, max, r);
              && n == Connector(next, PortOf(next, max), if next == c.state then c.lastChange else r.now,
                                NextError(c, r, next), true)
              && Notified(events, c.state, next)
  {
    hide Step, NextState, NextError, Notified;
    var c := Run(INITIAL_CONNECTOR, max, ops);
    RunKeepsInv(INITIAL_CONNECTOR, max, ops);
    if c.enabled {
      ApplyKeepsInv(c, max, Process(Frozen(r)));
      NextFrom(c, max, r);
      StepTells(c, max, Frozen(r));
    }
  }

  /** So charging goes on under good readings, and bad output power ends it, with the relay open, after 2 s. */
  lemma OutputPowerEndsCharging(max: u32, ops: seq<Op>, r: Inputs)
    requires var c := Run(INITIAL_CONNECTOR, max, ops);
             c.enabled && IsCharging(c.state) && Asked(r.status) == c.state
    requires r.inputPowerOk && !r.emergencyStop
    ensures var c := Run(INITIAL_CONNECTOR, max, ops);
            var n := Apply(c, max, Process(Frozen(r))).0;
            if !r.outputPowerOk && r.now - c.lastChange > 2 then n.state == F && !n.port.relayOn
            else n == c
  {
    hide Step, Notified;
    StepExactly(max, ops, r);
    RunKeepsInv(INITIAL_CONNECTOR, max, ops);
  }

  /** Enabling starts the time anew and is notified; disabling stops the steps. Nothing else is touched. */
  lemma SwitchingExactly(max: u32, ops: seq<Op>, now: int, r: Inputs)
    ensures var c := Run(INITIAL_CONNECTOR, max, ops);
            var on, off := Apply(c, max, Enable(now)), Apply(c, max, Disable);
            && on == (Connector(c.state, PortOf(c.state, max), now, c.error, true), {Event.Enabled})
            && off == (Connector(c.state, PortOf(c.state, max), c.lastChange, c.error, false), {})
            && Apply(off.0, max, Process(Frozen(r))) == (off.0, {})
  {
    RunKeepsInv(INITIAL_CONNECTOR, max, ops);
  }
}
