/**
 The network manager's interface machine (src/net/netmgr.c): seven states that
 drive one network interface against an environment that may answer anything.
 */
module NetManager {
  import opened CInt

  type NetState = s: int | 0 <= s <= 6
  const S0: NetState := 0 // off
  const S1: NetState := 1 // initializing
  const S2: NetState := 2 // initialized or disabled
  const S3: NetState := 3 // enabling
  const S4: NetState := 4 // enabled
  const S5: NetState := 5 // connecting
  const S6: NetState := 6 // connected

  const CONNECT_TIMEOUT_MS := 10000
  const REENABLE_DELAY_MS := 1000
  const MAX_RETRY := 200

  datatype NetifEvent = Started | Stopped | LinkUp | LinkDown | IpAcquired | Other

  /** What the manager reports outside (`netmgr_state_t`). */
  datatype External = Off | Exhausted | Initialized | Disabled | Enabled | Disconnected | Connected

  /** The calls made on the interface that open or close something. */
  datatype Call = Init | Enable | Connect | Disconnect | Disable | Deinit

  /** The interface's entry, with the manager's switch and the ping timer, which is started and enabled apart. */
  datatype Entry = Entry(
    state: NetState, event: NetifEvent, restart: bool, errors: nat, external: External, changed: u32,
    enabled: bool, timerStarted: bool, timerEnabled: bool)

  const INITIAL_ENTRY := Entry(S0, Other, false, 0, Off, 0, false, false, false)

  /** Everything one step asks of the world: retry policy, clock, requests and call results. */
  datatype Env = Env(
    exhausted: bool, exhaustedAfter: bool, first: bool, backoff: u32, now: u32,
    pingRequested: bool, taskQueued: bool,
    initFails: bool, enableFails: bool, connectFails: bool, disconnectFails: bool, pingFails: bool)

  // ---------- guards ----------

  datatype Guard = IsError | ToS0 | ToS1 | ToS2 | ToS3 | ToS4 | ToS5 | ToS6 | PingRequested | TaskRequested

  function Elapsed(e: Entry, env: Env): u32 {
    Wrap32(env.now - e.changed)
  }

  predicate Broken(e: Entry, env: Env) {
    e.enabled && (env.exhausted || e.errors >= MAX_RETRY)
  }

  predicate Holds(g: Guard, e: Entry, env: Env) {
    var timeout := Elapsed(e, env) >= CONNECT_TIMEOUT_MS;
    match g
    case IsError => Broken(e, env)
    case ToS0 => !e.enabled || e.restart || env.exhausted || (e.state == S1 && timeout)
    case ToS1 => e.enabled && !Broken(e, env)
    case ToS2 => e.state == S1 || (e.state == S3 && timeout) || e.errors != 0
    case ToS3 => Elapsed(e, env) >= REENABLE_DELAY_MS
    case ToS4 =>
      || e.state == S3
      || (e.state == S5 && (timeout || e.event == LinkDown))
      || (e.state == S6 && e.event != IpAcquired)
    case ToS5 => env.first || Elapsed(e, env) >= env.backoff
    case ToS6 => e.event == IpAcquired
    case PingRequested => env.pingRequested
    case TaskRequested => env.taskQueued
  }

  // ---------- actions ----------

  datatype Action = DoOn | DoOff | DoEnable | DoDisable | DoConnect | DoDisconnect | DoConnected | DoPing | DoNothing

  function Failed(e: Entry, fails: bool): Entry {
    if fails then e.(errors := e.errors + 1) else e
  }

  function Disconnecting(e: Entry, env: Env): Entry {
    Failed(if e.state == S6 then e.(timerStarted := false) else e, env.disconnectFails)
  }

  function Disabling(e: Entry, env: Env): Entry {
    if e.state >= S5 then Disconnecting(e, env) else e
  }

  function Perform(a: Action, e: Entry, env: Env): Entry {
    match a
    case DoOn => if env.initFails then e.(restart := true, errors := e.errors + 1) else e
    case DoOff => (if e.state >= S3 then Disabling(e, env) else e).(restart := false)
    case DoEnable => if env.enableFails then e.(restart := true, errors := e.errors + 1) else e.(errors := 0)
    case DoDisable => Disabling(e, env)
    case DoConnect => Failed(e, env.connectFails)
    case DoDisconnect => Disconnecting(e, env)
    case DoConnected => e.(timerStarted := true)
    case DoPing => Failed(e, env.pingFails)
    case DoNothing => e
  }

  function DisableCalls(from: NetState): seq<Call> {
    (if from >= S5 then [Disconnect] else []) + [Disable]
  }

  /** The interface calls an action makes, failing or not. */
  function CallsOf(a: Action, from: NetState): seq<Call> {
    match a
    case DoOn => [Init]
    case DoOff => (if from >= S3 then DisableCalls(from) else []) + [Deinit]
    case DoEnable => [Call.Enable]
    case DoDisable => DisableCalls(from)
    case DoConnect => [Connect]
    case DoDisconnect => [Disconnect]
    case _ => []
  }

  // ---------- the table ----------

  datatype Row = Row(from: NetState, guard: Guard, action: Action, to: NetState)

  const TRANSITIONS: seq<Row> := [
    Row(S0, ToS1, DoOn, S1),
    Row(S0, IsError, DoNothing, S0),

    Row(S1, ToS0, DoOff, S0),
    Row(S1, ToS2, DoNothing, S2),

    Row(S2, ToS0, DoOff, S0),
    Row(S2, ToS3, DoEnable, S3),

    Row(S3, ToS0, DoOff, S0),
    Row(S3, ToS2, DoDisable, S2),
    Row(S3, ToS4, DoNothing, S4),

    Row(S4, ToS0, DoOff, S0),
    Row(S4, ToS2, DoDisable, S2),
    Row(S4, ToS5, DoConnect, S5),

    Row(S5, ToS0, DoOff, S0),
    Row(S5, ToS2, DoDisable, S2),
    Row(S5, ToS4, DoDisconnect, S4),
    Row(S5, ToS6, DoConnected, S6),

    Row(S6, ToS0, DoOff, S0),
    Row(S6, ToS2, DoDisable, S2),
    Row(S6, ToS4, DoDisconnect, S4),
    Row(S6, PingRequested, DoPing, S6),
    Row(S6, TaskRequested, DoNothing, S6)
  ]

  const ROWS := 21

  predicate Fires(e: Entry, env: Env, i: nat)
    requires i < ROWS
  {
    TRANSITIONS[i].from == e.state && Holds(TRANSITIONS[i].guard, e, env)
  }

  function FirstRow(e: Entry, env: Env, i: nat): (row: nat)
    requires i <= ROWS
    ensures i <= row <= ROWS
    ensures row < ROWS ==> Fires(e, env, row)
    ensures forall j :: i <= j < row ==> !Fires(e, env, j)
    decreases ROWS - i
  {
    if i == ROWS || Fires(e, env, i) then i else FirstRow(e, env, i + 1)
  }

  /** `get_event_from_state` */
  function ExternalOf(next: NetState, prev: NetState, exhausted: bool): External {
    if next == S0 then (if exhausted then Exhausted else Off)
    else if next == S1 then Off
    else if next == S2 then (if prev > S2 then External.Disabled else Initialized)
    else if next == S3 then Initialized
    else if next == S4 then (if prev > S4 then Disconnected else External.Enabled)
    else if next == S5 then External.Enabled
    else Connected
  }

  /** What `on_state_change` dispatches to the callbacks. */
  function NotesOf(next: NetState, prev: NetState, was: External, now: External): seq<External> {
    if now == was then [] else
    (if next < prev && prev >= S6 then [Disconnected] else [])
    + (if next < prev && prev >= S4 then [External.Disabled] else [])
    + [now]
  }

  /** A step's effect: the entry, the interface calls in order, the notifications in order. */
  datatype Outcome = Outcome(entry: Entry, calls: seq<Call>, notes: seq<External>)

  function TakeRow(e: Entry, env: Env, row: Row): Outcome {
    var acted := Perform(row.action, e, env).(state := row.to);
    var calls := CallsOf(row.action, e.state);
    if row.to == e.state then Outcome(acted, calls, [])
    else
      var external := ExternalOf(row.to, e.state, env.exhaustedAfter);
      Outcome(acted.(changed := env.now, external := external), calls,
              NotesOf(row.to, e.state, e.external, external))
  }

  function Step(e: Entry, env: Env): Outcome {
    var i := FirstRow(e, env, 0);
    if i == ROWS then Outcome(e, [], []) else TakeRow(e, env, TRANSITIONS[i])
  }

  /** `netmgr_connected`, which looks at the last event only. */
  predicate SaysConnected(e: Entry) {
    e.event == IpAcquired
  }

  /** A queued interface event, a `netmgr_enable` or `netmgr_disable` call, or a step of the machine. */
  datatype Op = Arrives(event: NetifEvent) | SwitchOn | SwitchOff | Steps(env: Env)

  function Apply(e: Entry, op: Op): Outcome {
    match op
    case Arrives(event) =>
      Outcome(if event == Other then e.(event := event, restart := true) else e.(event := event), [], [])
    case SwitchOn => Outcome(e.(errors := 0, enabled := true, timerEnabled := true), [], [])
    case SwitchOff => Outcome(e.(enabled := false, timerEnabled := false), [], [])
    case Steps(env) => Step(e, env)
  }

  function Run(e: Entry, ops: seq<Op>): Outcome
    decreases |ops|
  {
    if ops == [] then Outcome(e, [], []) else
    var one := Apply(e, ops[0]);
    var rest := Run(one.entry, ops[1..]);
    Outcome(rest.entry, one.calls + rest.calls, one.notes + rest.notes)
  }

  // ---------- the object ----------

  class NetEntry {
    var state: NetState
    var event: NetifEvent
    var restart: bool
    var errors: nat
    var external: External
    var changed: u32
    var enabled: bool
    var timerStarted: bool
    var timerEnabled: bool

    constructor ()
      ensures View() == INITIAL_ENTRY
    {
      state, event, restart, errors, external, changed := S0, Other, false, 0, Off, 0;
      enabled, timerStarted, timerEnabled := false, false, false;
    }

    function View(): Entry
      reads this
    {
      Entry(state, event, restart, errors, external, changed, enabled, timerStarted, timerEnabled)
    }

    method DoDisconnect(env: Env) returns (calls: seq<Call>)
      modifies this
      ensures View() == Disconnecting(old(View()), env)
      ensures calls == [Disconnect]
    {
      calls := [Disconnect];
      if state == S6 {
        timerStarted := false;
      }
      if env.disconnectFails {
        errors := errors + 1;
      }
    }

    method DoDisable(env: Env) returns (calls: seq<Call>)
      modifies this
      ensures View() == Disabling(old(View()), env)
      ensures calls == DisableCalls(old(state))
    {
      calls := [];
      if state >= S5 {
        calls := DoDisconnect(env);
      }
      calls := calls + [Disable];
    }

    method DoOff(env: Env) returns (calls: seq<Call>)
      modifies this
      ensures View() == Perform(Action.DoOff, old(View()), env)
      ensures calls == CallsOf(Action.DoOff, old(state))
    {
      calls := [];
      if state >= S3 {
        calls := DoDisable(env);
      }
      calls := calls + [Deinit];
      restart := false;
    }

    method Act(a: Action, env: Env) returns (calls: seq<Call>)
      modifies this
      ensures View() == Perform(a, old(View()), env)
      ensures calls == CallsOf(a, old(state))
    {
      calls := [];
      match a
      case DoOn =>
        calls := [Init];
        if env.initFails {
          restart := true;
          errors := errors + 1;
        }
      case DoOff => calls := DoOff(env);
      case DoEnable =>
        calls := [Call.Enable];
        if env.enableFails {
          restart := true;
          errors := errors + 1;
        } else {
          errors := 0;
        }
      case DoDisable => calls := DoDisable(env);
      case DoConnect =>
        calls := [Connect];
        if env.connectFails {
          errors := errors + 1;
        }
      case DoDisconnect => calls := DoDisconnect(env);
      case DoConnected => timerStarted := true;
      case DoPing =>
        if env.pingFails {
          errors := errors + 1;
        }
      case DoNothing =>
    }

    /** The table scan of `fsm_step`. */
    method FindRow(env: Env) returns (i: nat)
      ensures i == FirstRow(View(), env, 0)
    {
      i := 0;
      while i < ROWS && !Fires(View(), env, i)
        invariant i <= ROWS
        invariant FirstRow(View(), env, 0) == FirstRow(View(), env, i)
      {
        i := i + 1;
      }
    }

    /** The row's action, the new state, and `on_state_change` if it differs. */
    method Enter(row: Row, env: Env) returns (calls: seq<Call>, notes: seq<External>)
      modifies this
      ensures Outcome(View(), calls, notes) == TakeRow(old(View()), env, row)
    {
      notes := [];
      var prev, was := state, external;
      calls := Act(row.action, env);
      state := row.to;
      if row.to != prev {
        changed := env.now;
        external := ExternalOf(row.to, prev, env.exhaustedAfter);
        notes := NotesOf(row.to, prev, was, external);
      }
    }

    method StepOnce(env: Env) returns (calls: seq<Call>, notes: seq<External>)
      modifies this
      ensures Outcome(View(), calls, notes) == Step(old(View()), env)
    {
      calls, notes := [], [];
      var i := FindRow(env);
      if i < ROWS {
        calls, notes := Enter(TRANSITIONS[i], env);
      }
    }

    /** `process_event`, `netmgr_enable`, `netmgr_disable` and `process`. */
    method Handle(op: Op) returns (calls: seq<Call>, notes: seq<External>)
      modifies this
      ensures Outcome(View(), calls, notes) == Apply(old(View()), op)
    {
      calls, notes := [], [];
      match op
      case Arrives(e) =>
        if e == Other {
          restart := true;
        }
        event := e;
      case SwitchOn =>
        errors := 0;
        enabled := true;
        timerEnabled := true;
      case SwitchOff =>
        timerEnabled := false;
        enabled := false;
      case Steps(env) => calls, notes := StepOnce(env);
    }
  }
}
