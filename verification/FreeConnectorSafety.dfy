/** What holds in every run of the free-charging connector. */
module FreeConnectorSafety {
  import opened CInt
  import opened Iec61851
  import opened PilotLevel
  import opened FreeConnector
  import opened Alternation

  // ---------- power and duty are functions of the state ----------

  function DutyOf(s: State, max: u32): u8 {
    match s
    case A => 100
    case B => MilliampereToDuty(max)
    case C => MilliampereToDuty(max)
    case D => MilliampereToDuty(max)
    case E => 0
    case F => 0
  }

  ghost predicate Inv(c: Connector, max: u32) {
    && c.port.dutySet == c.port.target == DutyOf(c.state, max)
    && c.port.relayOn == c.port.supplying == IsCharging(c.state)
    && (IsCharging(c.state) ==> max >= 6 * K)
  }

  /** The moves of the table, and by which actions they are made. */
  predicate IsMove(row: Row) {
    match (row.from, row.to)
    case (E, A) => row.action == StopPwm
    case (A, B) => row.action == StartPwm
    case (A, F) => row.action == Unexpected || row.action == FailEvse
    case (B, A) => row.action == StopPwm
    case (B, C) => row.action == SupplyPower && row.guard == IsState2(C)
    case (B, D) => row.action == SupplyPower && row.guard == IsState2(D)
    case (B, F) => row.action == FailEv || row.action == FailEvse
    case (C, A) => row.action == StopAll
    case (C, B) => row.action == StopPower
    case (C, D) => row.action == Nothing
    case (C, F) => row.action == FailEv || row.action == FailEvse
    case (D, A) => row.action == StopAll
    case (D, B) => row.action == StopPower
    case (D, C) => row.action == Nothing
    case (D, F) => row.action == FailEv || row.action == FailEvse
    case (F, F) => row.action == Unexpected && row.guard.IsState? && row.guard.x != F
    case (F, A) => row.action == StopPwm && row.guard == IsRecovered
    case _ => false
  }

  /** The rows that leave a state lie together. */
  function RowsFrom(s: State): (nat, nat) {
    match s
    case E => (0, 1)
    case A => (1, 6)
    case B => (6, 11)
    case C => (11, 16)
    case D => (16, 21)
    case F => (21, 27)
  }

  lemma TableShape(i: nat)
    requires i < ROWS
    ensures IsMove(TRANSITIONS[i])
    ensures RowsFrom(TRANSITIONS[i].from).0 <= i < RowsFrom(TRANSITIONS[i].from).1
  {
    if i < 6 {
    } else if i < 11 {
    } else if i < 16 {
    } else if i < 21 {
    } else {
    }
  }

  /** Every row keeps the invariant, whatever the world does between the guards of a step. */
  lemma RowKeepsInv(c: Connector, max: u32, rs: Readings, i: nat, r: Inputs)
    requires Inv(c, max) && i < ROWS && Fires(c, rs, i)
    ensures Inv(TakeRow(c, max, TRANSITIONS[i], r), max)
  {
    TableShape(i);
    MoveKeepsInv(c, max, TRANSITIONS[i], rs[i], r);
  }

  lemma MoveKeepsInv(c: Connector, max: u32, row: Row, seen: Inputs, r: Inputs)
    requires Inv(c, max) && IsMove(row) && row.from == c.state && Holds(row.guard, c, seen)
    ensures Inv(TakeRow(c, max, row, r), max)
  {
    EncodedDutyRange(max);
    EncodedDutyRange(0);
  }

  lemma ApplyKeepsInv(c: Connector, max: u32, op: Op)
    requires Inv(c, max)
    ensures Inv(Apply(c, max, op).0, max)
  {
    if op.Process? && c.enabled {
      var i := FirstRow(c, op.readings, 0);
      if i < ROWS {
        RowKeepsInv(c, max, op.readings, i, op.readings[ROWS]);
      }
    }
  }

  lemma {:induction false} RunKeepsInv(c: Connector, max: u32, ops: seq<Op>)
    requires Inv(c, max)
    ensures Inv(Run(c, max, ops), max)
    decreases |ops|
  {
    if ops == [] {
    } else {
      ApplyKeepsInv(c, max, ops[0]);
      RunKeepsInv(Apply(c, max, ops[0]).0, max, ops[1..]);
    }
  }

  /**
   In every run the relay is closed exactly in C and D, the duty is the one of the
   state, nothing below 6 A ever closes the relay, and a closed relay advertises
   more than the configured maximum exactly for a maximum in the encoding gap.
   */
  lemma PowerFollowsState(max: u32, ops: seq<Op>)
    ensures var c := Run(INITIAL_CONNECTOR, max, ops);
            && (c.port.relayOn <==> IsCharging(c.state))
            && c.port.dutySet == DutyOf(c.state, max)
            && (max < 6 * K ==> !c.port.relayOn)
            && (c.port.relayOn ==> (DutyToMilliampere(c.port.dutySet) <= max <==> !InGap(max)))
  {
    RunKeepsInv(INITIAL_CONNECTOR, max, ops);
    AdvertisesAtMostIffOutsideGap(max);
  }

  // ---------- notifications take turns ----------

  predicate Starts(events: set<Event>) { ChargingStarted in events }
  predicate Ends(events: set<Event>) { ChargingEnded in events }
  predicate Fails(events: set<Event>) { Errored in events }
  predicate Recovers(events: set<Event>) { Recovered in events }

  /** One operation's notifications tell how power and fault changed. */
  lemma EventsTellChange(c: Connector, max: u32, op: Op)
    ensures var (next, events) := Apply(c, max, op);
            && (Starts(events) <==> !IsCharging(c.state) && IsCharging(next.state))
            && (Ends(events) <==> IsCharging(c.state) && !IsCharging(next.state))
            && (Fails(events) <==> c.state != F && next.state == F)
            && (Recovers(events) <==> c.state == F && next.state != F)
  {
    if op.Process? && c.enabled && FirstRow(c, op.readings, 0) < ROWS {
      var row := TRANSITIONS[FirstRow(c, op.readings, 0)];
      TableShape(FirstRow(c, op.readings, 0));
      MoveEvents(row);
    }
  }

  lemma MoveEvents(row: Row)
    requires IsMove(row)
    ensures var events := EventsOf(row.from, row.to);
            && (Starts(events) <==> !IsCharging(row.from) && IsCharging(row.to))
            && (Ends(events) <==> IsCharging(row.from) && !IsCharging(row.to))
            && (Fails(events) <==> row.from != F && row.to == F)
            && (Recovers(events) <==> row.from == F && row.to != F)
  {
  }

  lemma {:induction false} EventsAlternate(c: Connector, max: u32, ops: seq<Op>)
    ensures var trace := Events(c, max, ops);
            var last := Run(c, max, ops).state;
            && Alternates(IsCharging(c.state), trace, Starts, Ends)
            && Level(IsCharging(c.state), trace, Starts, Ends) == IsCharging(last)
            && Alternates(c.state == F, trace, Fails, Recovers)
            && Level(c.state == F, trace, Fails, Recovers) == (last == F)
    decreases |ops|
  {
    if ops == [] {
    } else {
      var (next, events) := Apply(c, max, ops[0]);
      EventsTellChange(c, max, ops[0]);
      EventsAlternate(next, max, ops[1..]);
      var rest := Events(next, max, ops[1..]);
      assert Events(c, max, ops) == [events] + rest;
      assert ([events] + rest)[1..] == rest;
    }
  }

  /**
   CHARGING_STARTED and CHARGING_ENDED strictly alternate and their last one tells
   the relay; ERROR and ERROR_RECOVERY strictly alternate and their last one tells F.
   */
  lemma NotificationsTrackPower(max: u32, ops: seq<Op>)
    ensures var trace := Events(INITIAL_CONNECTOR, max, ops);
            var c := Run(INITIAL_CONNECTOR, max, ops);
            && Alternates(false, trace, Starts, Ends)
            && Level(false, trace, Starts, Ends) == c.port.relayOn
            && Alternates(false, trace, Fails, Recovers)
            && Level(false, trace, Fails, Recovers) == (c.state == F)
  {
    EventsAlternate(INITIAL_CONNECTOR, max, ops);
    RunKeepsInv(INITIAL_CONNECTOR, max, ops);
  }

  /** As an observer sees it: two starts of charging have an end between them, and so for faults. */
  lemma EndBetweenStarts(max: u32, ops: seq<Op>, i: nat, j: nat)
    requires i < j < |Events(INITIAL_CONNECTOR, max, ops)|
    ensures var trace := Events(INITIAL_CONNECTOR, max, ops);
            && (Starts(trace[i]) && Starts(trace[j]) ==> exists k :: i < k < j && Ends(trace[k]))
            && (Fails(trace[i]) && Fails(trace[j]) ==> exists k :: i < k < j && Recovers(trace[k]))
  {
    EventsAlternate(INITIAL_CONNECTOR, max, ops);
    var trace := Events(INITIAL_CONNECTOR, max, ops);
    if Starts(trace[i]) && Starts(trace[j]) {
      ClosedBetweenOpens(false, trace, Starts, Ends, i, j);
    }
    if Fails(trace[i]) && Fails(trace[j]) {
      ClosedBetweenOpens(false, trace, Fails, Recovers, i, j);
    }
  }

  /** And every end of charging, or recovery, has its start, or fault, before it and since the last one. */
  lemma StartBeforeEnd(max: u32, ops: seq<Op>, j: nat)
    requires j < |Events(INITIAL_CONNECTOR, max, ops)|
    ensures var trace := Events(INITIAL_CONNECTOR, max, ops);
            && (Ends(trace[j]) ==>
                  exists k :: 0 <= k < j && Starts(trace[k]) && forall m :: k < m < j ==> !Ends(trace[m]))
            && (Recovers(trace[j]) ==>
                  exists k :: 0 <= k < j && Fails(trace[k]) && forall m :: k < m < j ==> !Recovers(trace[m]))
  {
    EventsAlternate(INITIAL_CONNECTOR, max, ops);
    var trace := Events(INITIAL_CONNECTOR, max, ops);
    if Ends(trace[j]) {
      var _ := OpenedBeforeClose(trace, Starts, Ends, j);
    }
    if Recovers(trace[j]) {
      var _ := OpenedBeforeClose(trace, Fails, Recovers, j);
    }
  }

  // ---------- leaving F ----------

  /** In a reachable F the five rows that expect another pilot state cannot fire. */
  lemma UnexpectedRowsNeverFire(max: u32, ops: seq<Op>, rs: Readings, i: nat)
    requires Run(INITIAL_CONNECTOR, max, ops).state == F
    requires i < ROWS && Fires(Run(INITIAL_CONNECTOR, max, ops), rs, i)
    ensures TRANSITIONS[i].guard == IsRecovered && TRANSITIONS[i].to == A
  {
    RunKeepsInv(INITIAL_CONNECTOR, max, ops);
    TableShape(i);
  }

  lemma StepInFault(c: Connector, max: u32, rs: Readings)
    requires Inv(c, max) && c.state == F
    ensures if RecoveryDue(c, rs[ROWS - 1])
            then Step(c, max, rs).0.state == A
            else Step(c, max, rs).0 == c
  {
    assert TRANSITIONS[ROWS - 1] == Row(F, IsRecovered, StopPwm, A);
    var i := FirstRow(c, rs, 0);
    if i < ROWS {
      TableShape(i);
    }
    if RecoveryDue(c, rs[ROWS - 1]) {
      TakesRow(c, rs, ROWS - 1);
    }
  }

  /** The clock never reads earlier than `since`, nor earlier than it read before. */
  ghost predicate ClockFrom(since: int, ops: seq<Op>)
    decreases |ops|
  {
    ops == [] ||
    match ops[0]
    case Enable(now) => since <= now && ClockFrom(now, ops[1..])
    case Disable => ClockFrom(since, ops[1..])
    case Process(rs) =>
      && since <= rs[0].now
      && (forall i, j :: 0 <= i < j <= ROWS ==> rs[i].now <= rs[j].now)
      && ClockFrom(rs[ROWS].now, ops[1..])
  }

  lemma {:induction false} ClockFromEarlier(since: int, later: int, ops: seq<Op>)
    requires since <= later && ClockFrom(later, ops)
    ensures ClockFrom(since, ops)
    decreases |ops|
  {
    if ops != [] && ops[0].Disable? {
      ClockFromEarlier(since, later, ops[1..]);
    }
  }

  /**
   On a clock that does not go back, a connector that entered F at `c.lastChange`
   and is out of it after some further operations has been there for 6 seconds:
   the clock read at the leaving step is at least that much later.
   */
  lemma {:induction false} FaultLastsSixSeconds(c: Connector, max: u32, ops: seq<Op>) returns (n: nat)
    requires Inv(c, max) && c.state == F && ClockFrom(c.lastChange, ops)
    requires Run(c, max, ops).state != F
    ensures n < |ops| && ops[n].Process?
    ensures Run(c, max, ops[..n]).state == F && Run(c, max, ops[..n + 1]).state == A
    ensures ops[n].readings[ROWS - 1].now >= c.lastChange + EV_RESPONSE_TIMEOUT_SEC
    decreases |ops|
  {
    var op := ops[0];
    var next := Apply(c, max, op).0;
    OpInFault(c, max, op);
    if next.state == F {
      ClockGoesOn(c.lastChange, ops);
      n := FaultLastsSixSeconds(next, max, ops[1..]);
      RunPrefix(c, max, ops, n);
      RunPrefix(c, max, ops, n + 1);
      assert ops[n + 1] == ops[1..][n];
      n := n + 1;
    } else {
      n := 0;
      RunPrefix(c, max, ops, 0);
      ClockWithin(c.lastChange, ops);
      RecoveryTakesSixSeconds(c, op.readings[ROWS - 1]);
    }
  }

  lemma RecoveryTakesSixSeconds(c: Connector, r: Inputs)
    requires RecoveryDue(c, r) && c.lastChange <= r.now
    ensures r.now >= c.lastChange + EV_RESPONSE_TIMEOUT_SEC
  {
    ElapsedAtMostTrue(r.now, c.lastChange);
  }

  lemma ClockGoesOn(since: int, ops: seq<Op>)
    requires ops != [] && ClockFrom(since, ops)
    ensures if ops[0].Enable? then since <= ops[0].now && ClockFrom(ops[0].now, ops[1..])
            else ClockFrom(since, ops[1..])
  {
    if ops[0].Process? {
      ClockWithin(since, ops);
      ClockFromEarlier(since, ops[0].readings[ROWS].now, ops[1..]);
    }
  }

  lemma ClockWithin(since: int, ops: seq<Op>)
    requires ops != [] && ops[0].Process? && ClockFrom(since, ops)
    ensures forall i :: 0 <= i <= ROWS ==> since <= ops[0].readings[i].now
  {
    var rs := ops[0].readings;
    forall i | 0 <= i <= ROWS
      ensures since <= rs[i].now
    {
      assert i > 0 ==> rs[0].now <= rs[i].now;
    }
  }

  lemma RunPrefix(c: Connector, max: u32, ops: seq<Op>, n: nat)
    requires n < |ops|
    ensures Run(c, max, ops[..n + 1]) == Run(Apply(c, max, ops[0]).0, max, ops[1..][..n])
  {
    assert ops[..n + 1] == [ops[0]] + ops[1..][..n];
    RunCons(c, max, ops[0], ops[1..][..n]);
  }

  lemma RunCons(c: Connector, max: u32, op: Op, ops: seq<Op>)
    ensures Run(c, max, [op] + ops) == Run(Apply(c, max, op).0, max, ops)
  {
    assert ([op] + ops)[1..] == ops;
  }

  lemma OpInFault(c: Connector, max: u32, op: Op)
    requires Inv(c, max) && c.state == F
    ensures var next := Apply(c, max, op).0;
            if op.Process? && c.enabled && RecoveryDue(c, op.readings[ROWS - 1])
            then next.state == A
            else next.state == F && Inv(next, max) && next.lastChange == if op.Enable? then op.now else c.lastChange
  {
    if op.Process? && c.enabled {
      StepInFault(c, max, op.readings);
    }
  }

  /** Entering F stamps the time, so the six seconds count from the step that reported the fault. */
  lemma FaultIsStamped(c: Connector, max: u32, rs: Readings)
    requires c.state != F && Step(c, max, rs).0.state == F
    ensures Step(c, max, rs).0.lastChange == rs[ROWS].now
  {
  }

  /** In every run: a step that enters F and a later one that leaves it are at least 6 s apart on their clock. */
  lemma FaultStaysSixSeconds(max: u32, ops: seq<Op>, entry: Readings, later: seq<Op>) returns (n: nat)
    requires var c := Run(INITIAL_CONNECTOR, max, ops);
             && c.enabled && c.state != F
             && Step(c, max, entry).0.state == F
             && ClockFrom(entry[ROWS].now, later)
             && Run(Step(c, max, entry).0, max, later).state != F
    ensures n < |later| && later[n].Process?
    ensures Run(Step(Run(INITIAL_CONNECTOR, max, ops), max, entry).0, max, later[..n + 1]).state == A
    ensures later[n].readings[ROWS - 1].now >= entry[ROWS].now + EV_RESPONSE_TIMEOUT_SEC
  {
    var c := Run(INITIAL_CONNECTOR, max, ops);
    RunKeepsInv(INITIAL_CONNECTOR, max, ops);
    ApplyKeepsInv(c, max, Process(entry));
    FaultIsStamped(c, max, entry);
    n := FaultLastsSixSeconds(Step(c, max, entry).0, max, later);
  }

  /** The clock went back, and not by within six seconds of a whole turn of 32 bits. */
  predicate WentBack(now: int, before: int) {
    now < before && 0 < (before - now) % U32_RANGE <= U32_RANGE - EV_RESPONSE_TIMEOUT_SEC
  }

  /** The unsigned elapsed time makes recovery due before its six seconds exactly when the clock went back. */
  lemma EarlyRecoveryIff(c: Connector, r: Inputs)
    ensures RecoveryDue(c, r) && r.now < c.lastChange + EV_RESPONSE_TIMEOUT_SEC <==>
            r.inputPowerOk && !r.emergencyStop && WentBack(r.now, c.lastChange)
  {
    var diff := r.now - c.lastChange;
    if diff < 0 {
      var turns, rest := -diff / U32_RANGE, -diff % U32_RANGE;
      assert -diff == U32_RANGE * turns + rest;
      assert Wrap32(diff) == if rest == 0 then 0 else U32_RANGE - rest;
    }
  }

  /** So a step of any run leaves F early exactly on such a clock, with the power good and no emergency stop. */
  lemma LeavesFaultEarlyIff(max: u32, ops: seq<Op>, rs: Readings)
    requires var c := Run(INITIAL_CONNECTOR, max, ops); c.enabled && c.state == F
    ensures var c, r := Run(INITIAL_CONNECTOR, max, ops), rs[ROWS - 1];
            && Apply(c, max, Process(rs)).0.state != F
            && r.now < c.lastChange + EV_RESPONSE_TIMEOUT_SEC
            <==>
            r.inputPowerOk && !r.emergencyStop && WentBack(r.now, c.lastChange)
  {
    var c := Run(INITIAL_CONNECTOR, max, ops);
    RunKeepsInv(INITIAL_CONNECTOR, max, ops);
    StepInFault(c, max, rs);
    EarlyRecoveryIff(c, rs[ROWS - 1]);
  }

  // ---------- response to a fault ----------

  predicate Faulty(r: Inputs) {
    r.emergencyStop || (!r.inputPowerOk && r.uptime > INITIAL_STABILIZATION_SEC)
  }

  /** The reading asks for an ordinary move, and the table looks at ordinary moves first. */
  predicate MoveComesFirst(s: State, max: u32, status: Status) {
    match s
    case A => status == StatusB
    case B => status == StatusA || (max >= 6 * K && (status == StatusC || status == StatusD))
    case C => status == StatusA || status == StatusB || status == StatusD
    case D => status == StatusA || status == StatusB || status == StatusC
    case _ => false
  }

  /** The state a reading asks for. */
  function Asked(status: Status): State {
    match status
    case StatusA => A
    case StatusB => B
    case StatusC => C
    case StatusD => D
    case _ => F
  }

  /** Every sampling of the step sees a fault, and all of them the same pilot reading. */
  ghost predicate FaultSeen(rs: Readings, status: Status) {
    forall i :: 0 <= i <= ROWS ==> Faulty(rs[i]) && rs[i].status == status
  }

  /** One step on a fault reaches F exactly when the reading asks for no ordinary move. */
  lemma FaultStep(c: Connector, max: u32, rs: Readings, status: Status)
    requires Inv(c, max) && c.state != E && c.state != F && FaultSeen(rs, status)
    ensures Step(c, max, rs).0.state == if MoveComesFirst(c.state, max, status) then Asked(status) else F
  {
    match c.state
    case A => FaultStepFromA(c, max, rs, status);
    case B => FaultStepFromB(c, max, rs, status);
    case C => FaultStepFromC(c, max, rs, status);
    case D => FaultStepFromD(c, max, rs, status);
  }

  lemma FaultStepFromA(c: Connector, max: u32, rs: Readings, status: Status)
    requires Inv(c, max) && c.state == A && FaultSeen(rs, status)
    ensures Step(c, max, rs).0.state == if status == StatusB then B else F
  {
    TakesRow(c, rs, if status == StatusB then 1 else if status == StatusC then 2
                    else if status == StatusD then 3 else if status == StatusE then 4 else 5);
  }

  lemma FaultStepFromB(c: Connector, max: u32, rs: Readings, status: Status)
    requires Inv(c, max) && c.state == B && FaultSeen(rs, status)
    ensures Step(c, max, rs).0.state == if MoveComesFirst(B, max, status) then Asked(status) else F
  {
    EncodedDutyRange(max);
    var pwm := max >= 6 * K;
    TakesRow(c, rs, if status == StatusA then 6 else if status == StatusC && pwm then 7
                    else if status == StatusD && pwm then 8 else if status == StatusE then 9 else 10);
  }

  lemma FaultStepFromC(c: Connector, max: u32, rs: Readings, status: Status)
    requires Inv(c, max) && c.state == C && FaultSeen(rs, status)
    ensures Step(c, max, rs).0.state == if MoveComesFirst(C, max, status) then Asked(status) else F
  {
    EncodedDutyRange(max);
    TakesRow(c, rs, if status == StatusA then 11 else if status == StatusB then 12
                    else if status == StatusD then 13 else if status == StatusE then 14 else 15);
  }

  lemma FaultStepFromD(c: Connector, max: u32, rs: Readings, status: Status)
    requires Inv(c, max) && c.state == D && FaultSeen(rs, status)
    ensures Step(c, max, rs).0.state == if MoveComesFirst(D, max, status) then Asked(status) else F
  {
    EncodedDutyRange(max);
    TakesRow(c, rs, if status == StatusA then 16 else if status == StatusB then 17
                    else if status == StatusC then 18 else if status == StatusE then 19 else 20);
  }

  lemma TakesRow(c: Connector, rs: Readings, k: nat)
    requires k < ROWS && Fires(c, rs, k)
    requires forall j :: RowsFrom(c.state).0 <= j < k ==> !Fires(c, rs, j)
    ensures FirstRow(c, rs, 0) == k
  {
    TableShape(FirstRow(c, rs, 0));
  }

  lemma FaultyStepOnce(c: Connector, max: u32, rs: Readings, status: Status) returns (next: Connector)
    requires Inv(c, max) && c.enabled && c.state != E && FaultSeen(rs, status)
    ensures next == Apply(c, max, Process(rs)).0
    ensures Inv(next, max) && next.enabled
    ensures next.state == if MoveComesFirst(c.state, max, status) then Asked(status) else F
  {
    next := Apply(c, max, Process(rs)).0;
    ApplyKeepsInv(c, max, Process(rs));
    if c.state == F {
      StepInFault(c, max, rs);
    } else {
      FaultStep(c, max, rs, status);
    }
  }

  /** F is held while every sampling sees a fault, however the pilot reading changes. */
  lemma {:induction false} FaultIsHeld(c: Connector, max: u32, steps: seq<Readings>)
    requires Inv(c, max) && c.state == F
    requires forall i, j :: 0 <= i < |steps| && 0 <= j <= ROWS ==> Faulty(steps[i][j])
    ensures Run(c, max, seq(|steps|, i requires 0 <= i < |steps| => Process(steps[i]))) == c
    decreases |steps|
  {
    var ops := seq(|steps|, i requires 0 <= i < |steps| => Process(steps[i]));
    if steps == [] {
    } else {
      StepInFault(c, max, steps[0]);
      var rest := steps[1..];
      FaultIsHeld(c, max, rest);
      assert ops[1..] == seq(|rest|, i requires 0 <= i < |rest| => Process(rest[i]));
    }
  }

  /** One step is not enough: a fault closes the relay exactly when it is seen in B as the vehicle asks for power. */
  lemma FaultEnergisesIff(max: u32, ops: seq<Op>, rs: Readings, status: Status)
    requires Run(INITIAL_CONNECTOR, max, ops).enabled && FaultSeen(rs, status)
    ensures var c := Run(INITIAL_CONNECTOR, max, ops);
            !c.port.relayOn && Apply(c, max, Process(rs)).0.port.relayOn <==>
            c.state == B && max >= 6 * K && (status == StatusC || status == StatusD)
  {
    var c := Run(INITIAL_CONNECTOR, max, ops);
    RunKeepsInv(INITIAL_CONNECTOR, max, ops);
    if c.state == E {
      StepFromInitial(c, max, rs);
      ApplyKeepsInv(c, max, Process(rs));
    } else {
      var next := FaultyStepOnce(c, max, rs, status);
    }
  }

  lemma StepFromInitial(c: Connector, max: u32, rs: Readings)
    requires c.state == E
    ensures Step(c, max, rs).0.state == E || Step(c, max, rs).0.state == A
  {
    if FirstRow(c, rs, 0) < ROWS {
      TableShape(FirstRow(c, rs, 0));
    }
  }

  /** B is reached: enable, leave the initial state, plug in. */
  lemma PluggingInReachesB(max: u32, now: int) returns (ops: seq<Op>)
    ensures var c := Run(INITIAL_CONNECTOR, max, ops); c.enabled && c.state == B
  {
    var idle := Inputs(StatusA, 0, true, true, false, now, 0);
    var plugged := idle.(status := StatusB);
    var op1, op2, op3 := Enable(now), Process(Frozen(idle)), Process(Frozen(plugged));
    ops := [op1, op2, op3];
    var c1 := Apply(INITIAL_CONNECTOR, max, op1).0;
    TakesRow(c1, Frozen(idle), 0);
    var c2 := Apply(c1, max, op2).0;
    TakesRow(c2, Frozen(plugged), 1);
    var c3 := Apply(c2, max, op3).0;
    RunCons(INITIAL_CONNECTOR, max, op1, [op2, op3]);
    RunCons(c1, max, op2, [op3]);
    RunCons(c2, max, op3, []);
    assert ops == [op1] + [op2, op3] && [op2, op3] == [op2] + [op3] && [op3] == [op3] + [];
  }

  /** Every reading of a sequence asks for an ordinary move from where the one before led. */
  predicate KeepsMoving(s: State, max: u32, readings: seq<Status>)
    decreases |readings|
  {
    readings == [] || (MoveComesFirst(s, max, readings[0]) && KeepsMoving(Asked(readings[0]), max, readings[1..]))
  }

  /** The operations are steps that see a fault, each with one pilot reading. */
  ghost predicate FaultySteps(ops: seq<Op>, readings: seq<Status>) {
    && |ops| == |readings|
    && forall i :: 0 <= i < |ops| ==> ops[i].Process? && FaultSeen(ops[i].readings, readings[i])
  }

  /** Any number of faulty steps avoids F exactly when every reading asks for an ordinary move. */
  lemma {:induction false} FaultAvoidedIff(c: Connector, max: u32, ops: seq<Op>, readings: seq<Status>)
    requires Inv(c, max) && c.enabled && c.state != E && FaultySteps(ops, readings)
    ensures Run(c, max, ops).state != F <==> c.state != F && KeepsMoving(c.state, max, readings)
    decreases |ops|
  {
    hide FaultSeen, Apply;
    if ops == [] {
    } else {
      var next := FaultyStepOnce(c, max, ops[0].readings, readings[0]);
      FaultAvoidedIff(next, max, ops[1..], readings[1..]);
    }
  }

  /**
   Bounded response: from every reachable state but E, two steps on a fault end in F, with the
   relay open, exactly when the readings do not ask for two moves in a row. One reading never does.
   */
  lemma FaultWithinTwoSteps(max: u32, ops: seq<Op>, two: seq<Op>, first: Status, second: Status)
    requires var c := Run(INITIAL_CONNECTOR, max, ops); c.enabled && c.state != E
    requires FaultySteps(two, [first, second])
    ensures var c := Run(INITIAL_CONNECTOR, max, ops);
            var last := Run(c, max, two);
            && (last.state != F <==>
                MoveComesFirst(c.state, max, first) && MoveComesFirst(Asked(first), max, second))
            && (first == second ==> last.state == F)
            && (last.state == F ==> !last.port.relayOn)
  {
    hide FaultySteps, Run;
    var c := Run(INITIAL_CONNECTOR, max, ops);
    RunKeepsInv(INITIAL_CONNECTOR, max, ops);
    RunKeepsInv(c, max, two);
    FaultAvoidedIff(c, max, two, [first, second]);
    assert [first, second][1..] == [second] && [second][1..] == [];
    assert KeepsMoving(Asked(first), max, [second]) <==> MoveComesFirst(Asked(first), max, second);
  }

  /** `n` readings that change every time between 9 V and 6 V. */
  function Toggling(toC: bool, n: nat): seq<Status>
    decreases n
  {
    if n == 0 then [] else [if toC then StatusC else StatusB] + Toggling(!toC, n - 1)
  }

  /** So no number of steps is enough: while the reading keeps changing F is never reached. */
  lemma {:induction false} TogglingNeverFaults(c: Connector, max: u32, ops: seq<Op>)
    requires Inv(c, max) && c.enabled && (c.state == B || c.state == C) && max >= 6 * K
    requires FaultySteps(ops, Toggling(c.state == B, |ops|))
    ensures Run(c, max, ops).state != F
  {
    TogglingMoves(c.state == B, max, |ops|);
    FaultAvoidedIff(c, max, ops, Toggling(c.state == B, |ops|));
  }

  lemma {:induction false} TogglingMoves(toC: bool, max: u32, n: nat)
    requires max >= 6 * K
    ensures KeepsMoving(if toC then B else C, max, Toggling(toC, n))
    decreases n
  {
    if n == 0 {
    } else {
      TogglingMoves(!toC, max, n - 1);
      assert Toggling(toC, n)[1..] == Toggling(!toC, n - 1);
    }
  }
}
