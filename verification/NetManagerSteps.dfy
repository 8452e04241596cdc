/** What one step of the network manager does, told from the entry and the environment and without the table. */
module NetManagerSteps {
  import opened CInt
  import opened Common
  import opened NetManager
  import opened NetManagerSafety

  predicate CalledOff(e: Entry, env: Env) {
    !e.enabled || e.restart || env.exhausted
  }

  /**
   Off at once when called off. Otherwise one state up when its time has come, and down on an
   error, on 10 s without success, or when the link or the address is gone.
   */
  function NextState(e: Entry, env: Env): NetState {
    var elapsed := (env.now - e.changed) % 0x1_0000_0000;
    if e.state == S0 then (if e.enabled && !env.exhausted && e.errors < 200 then S1 else S0)
    else if CalledOff(e, env) then S0
    else if e.state == S1 then (if elapsed >= 10000 then S0 else S2)
    else if e.state == S2 then (if elapsed >= 1000 then S3 else S2)
    else if e.errors > 0 then S2
    else if e.state == S3 then (if elapsed >= 10000 then S2 else S4)
    else if e.state == S4 then (if env.first || elapsed >= env.backoff then S5 else S4)
    else if e.state == S5 then
      if elapsed >= 10000 || e.event == LinkDown then S4 else if e.event == IpAcquired then S6 else S5
    else if e.event == IpAcquired then S6 else S4
  }

  /** Failed calls and pings are counted, and a successful enabling forgets them. */
  function NextErrors(e: Entry, env: Env, next: NetState): nat {
    if e.state == S2 && next == S3 && !env.enableFails then 0
    else
      var failed :=
        || (e.state == S0 && next == S1 && env.initFails)
        || (e.state == S2 && next == S3 && env.enableFails)
        || (e.state == S4 && next == S5 && env.connectFails)
        || (e.state >= S5 && next < e.state && env.disconnectFails)
        || (e.state == S6 && next == S6 && env.pingRequested && env.pingFails);
      if failed then e.errors + 1 else e.errors
  }

  /** A failed bring-up asks for a restart, and going off is one. */
  predicate NextRestart(e: Entry, env: Env, next: NetState) {
    if next == S0 && e.state != S0 then false
    else
      || e.restart
      || (e.state == S0 && next == S1 && env.initFails)
      || (e.state == S2 && next == S3 && env.enableFails)
  }

  function OffState(env: Env): External {
    if env.exhaustedAfter then Exhausted else Off
  }

  function NextExternal(e: Entry, env: Env, next: NetState): External {
    if next == e.state then e.external
    else if next == S0 then OffState(env)
    else if next == S1 then Off
    else if next == S2 then (if e.state == S1 then Initialized else External.Disabled)
    else if next == S3 then Initialized
    else if next == S4 then (if e.state == S3 then External.Enabled else Disconnected)
    else if next == S5 then External.Enabled
    else Connected
  }

  /** What is opened on the way up, and what is closed, innermost first, on the way down. */
  function CallsFor(from: NetState, to: NetState): seq<Call> {
    if from == S0 && to == S1 then [Init]
    else if from == S2 && to == S3 then [Call.Enable]
    else if from == S4 && to == S5 then [Connect]
    else if to >= from then []
    else if to == S4 then [Disconnect]
    else if to == S2 then (if from >= S5 then [Disconnect, Disable] else [Disable])
    else if from >= S5 then [Disconnect, Disable, Deinit]
    else if from >= S3 then [Disable, Deinit]
    else [Deinit]
  }

  /** The external states that a state of the machine may have. */
  ghost predicate Reported(e: Entry) {
    if e.state == S0 then e.external == Off || e.external == Exhausted
    else if e.state == S1 then e.external == Off
    else if e.state == S2 then e.external == Initialized || e.external == External.Disabled
    else if e.state == S3 then e.external == Initialized
    else if e.state == S4 then e.external == External.Enabled || e.external == Disconnected
    else if e.state == S5 then e.external == External.Enabled
    else e.external == Connected
  }

  /** The notifications of a move, in order. */
  function NotesFor(e: Entry, env: Env, to: NetState): seq<External> {
    var off := OffState(env);
    if to == e.state then []
    else if to == S1 then (if e.external == Exhausted then [Off] else [])
    else if to == S3 then (if e.external == External.Disabled then [Initialized] else [])
    else if to == S5 then (if e.external == Disconnected then [External.Enabled] else [])
    else if to == S6 then [Connected]
    else if to == S4 then
      if e.state == S3 then [External.Enabled]
      else if e.state == S5 then [External.Disabled, Disconnected]
      else [Disconnected, External.Disabled, Disconnected]
    else if to == S2 then
      if e.state == S1 then [Initialized]
      else if e.state == S3 then [External.Disabled]
      else if e.state <= S5 then [External.Disabled, External.Disabled]
      else [Disconnected, External.Disabled, External.Disabled]
    else if e.state == S1 then (if off == Off then [] else [off])
    else if e.state <= S3 then [off]
    else if e.state <= S5 then [External.Disabled, off]
    else [Disconnected, External.Disabled, off]
  }

  /** The entry after a step. */
  function NextEntry(e: Entry, env: Env): Entry {
    var next := NextState(e, env);
    Entry(next, e.event, NextRestart(e, env, next), NextErrors(e, env, next), NextExternal(e, env, next),
          if next == e.state then e.changed else env.now, e.enabled, next == S6, e.enabled)
  }

  lemma ChoiceLeads(e: Entry, env: Env)
    ensures var choice := Choice(e, env);
            NextState(e, env) == if choice.None? then e.state else choice.value.to
    ensures Choice(e, env).Some? ==> Choice(e, env).value.from == e.state && IsMove(Choice(e, env).value)
  {
  }

  /** On a stay nothing is done but a ping. */
  lemma StayDoes(e: Entry, env: Env)
    requires NextState(e, env) == e.state
    ensures var choice := Choice(e, env);
            choice.Some? ==>
              choice.value.action == if e.state == S6 && env.pingRequested then DoPing else DoNothing
    ensures Choice(e, env).None? && e.state == S6 ==> !env.pingRequested
  {
  }

  /** The call of an action that may fail. */
  predicate CallFails(a: Action, e: Entry, env: Env) {
    match a
    case DoOn => env.initFails
    case DoEnable => env.enableFails
    case DoConnect => env.connectFails
    case DoPing => env.pingFails
    case DoDisconnect => env.disconnectFails
    case DoDisable => e.state >= S5 && env.disconnectFails
    case DoOff => e.state >= S5 && env.disconnectFails
    case _ => false
  }

  lemma PerformCounts(a: Action, e: Entry, env: Env)
    ensures var p, fails := Perform(a, e, env), CallFails(a, e, env);
            && p.errors == (if fails then e.errors + 1 else if a == DoEnable then 0 else e.errors)
            && (p.restart <==> a != DoOff && (e.restart || (fails && (a == DoOn || a == DoEnable))))
  {
    match a
    case DoOff =>
    case DoDisable =>
    case DoDisconnect =>
    case _ =>
  }

  /** What a row of the table changes, by its fields. */
  lemma RowCounts(e: Entry, env: Env, row: Row)
    requires IsMove(row) && row.from == e.state
    requires row.to == e.state ==> row.action == if e.state == S6 && env.pingRequested then DoPing else DoNothing
    ensures var p := Perform(row.action, e, env);
            && p.errors == NextErrors(e, env, row.to) && (p.restart <==> NextRestart(e, env, row.to))
  {
    hide Perform;
    PerformCounts(row.action, e, env);
  }

  lemma RowCalls(row: Row)
    requires IsMove(row)
    ensures CallsOf(row.action, row.from) == CallsFor(row.from, row.to)
  {
  }

  lemma RowReports(e: Entry, env: Env, row: Row)
    requires Reported(e) && IsMove(row) && row.from == e.state != row.to
    ensures var external := ExternalOf(row.to, e.state, env.exhaustedAfter);
            && external == NextExternal(e, env, row.to)
            && NotesOf(row.to, e.state, e.external, external) == NotesFor(e, env, row.to)
            && Reported(e.(state := row.to, external := external))
  {
    if row.to < e.state {
      DownReports(e, env, row);
    }
  }

  lemma DownReports(e: Entry, env: Env, row: Row)
    requires Reported(e) && IsMove(row) && row.from == e.state && row.to < e.state
    ensures var external := ExternalOf(row.to, e.state, env.exhaustedAfter);
            && external == NextExternal(e, env, row.to)
            && NotesOf(row.to, e.state, e.external, external) == NotesFor(e, env, row.to)
  {
    if row.to == S0 {
    } else if row.to == S2 {
    } else {
    }
  }

  lemma PerformKeeps(a: Action, e: Entry, env: Env)
    ensures var p := Perform(a, e, env);
            p.enabled == e.enabled && p.timerEnabled == e.timerEnabled && p.changed == e.changed && p.event == e.event
    ensures Perform(a, e, env).external == e.external
  {
    hide Disabling, Disconnecting;
    DisconnectingKeeps(e, env);
  }

  lemma DisconnectingKeeps(e: Entry, env: Env)
    ensures var p := Disconnecting(e, env);
            && p.enabled == e.enabled && p.timerEnabled == e.timerEnabled && p.changed == e.changed
            && p.event == e.event && p.external == e.external
    ensures var p := Disabling(e, env);
            && p.enabled == e.enabled && p.timerEnabled == e.timerEnabled && p.changed == e.changed
            && p.event == e.event && p.external == e.external
  {
  }

  /** A row that is taken has the outcome told by its states. */
  lemma RowDoes(e: Entry, env: Env, row: Row)
    requires Inv(e) && Reported(e) && IsMove(row) && row.from == e.state && row.to == NextState(e, env)
    requires row.to == e.state ==> row.action == if e.state == S6 && env.pingRequested then DoPing else DoNothing
    ensures TakeRow(e, env, row) == Outcome(NextEntry(e, env), CallsFor(e.state, row.to), NotesFor(e, env, row.to))
    ensures Reported(NextEntry(e, env))
  {
    hide Perform, CallsOf, ExternalOf, NotesOf, IsMove, NextErrors, NextRestart, CallsFor;
    RowCounts(e, env, row);
    RowCalls(row);
    PerformKeeps(row.action, e, env);
    RowKeepsInv(e, env, row);
    if row.to != e.state {
      RowReports(e, env, row);
    }
  }

  lemma StepDoes(e: Entry, env: Env)
    requires Inv(e) && Reported(e)
    ensures Step(e, env) == Outcome(NextEntry(e, env), CallsFor(e.state, NextState(e, env)),
                                    NotesFor(e, env, NextState(e, env)))
    ensures Reported(NextEntry(e, env))
  {
    hide Step, TakeRow, Choice, IsMove, NextState, CallsFor, NotesFor;
    StepTakesChoice(e, env);
    ChoiceLeads(e, env);
    if NextState(e, env) == e.state {
      StayDoes(e, env);
    }
    if Choice(e, env).Some? {
      RowDoes(e, env, Choice(e, env).value);
    } else {
      StaysAsIs(e, env);
    }
  }

  lemma StaysAsIs(e: Entry, env: Env)
    requires Inv(e) && NextState(e, env) == e.state && (e.state == S6 ==> !env.pingRequested)
    ensures NextEntry(e, env) == e && CallsFor(e.state, e.state) == [] && NotesFor(e, env, e.state) == []
  {
    hide NextState;
  }

  lemma ApplyReported(e: Entry, op: Op)
    requires Inv(e) && Reported(e)
    ensures Reported(Apply(e, op).entry)
  {
    hide Step;
    if op.Steps? {
      StepDoes(e, op.env);
    }
  }

  lemma {:induction false} RunReported(e: Entry, ops: seq<Op>)
    requires Inv(e) && Reported(e)
    ensures Reported(Run(e, ops).entry)
    decreases |ops|
  {
    hide Apply;
    if ops == [] {
    } else {
      ApplyKeepsInv(e, ops[0]);
      ApplyReported(e, ops[0]);
      RunReported(Apply(e, ops[0]).entry, ops[1..]);
    }
  }

  /** The whole effect of a step of any run: state, counters, external state, calls and notifications. */
  lemma StepExactly(ops: seq<Op>, env: Env)
    ensures var e := Run(INITIAL_ENTRY, ops).entry;
            var next := NextState(e, env);
            Step(e, env) == Outcome(NextEntry(e, env), CallsFor(e.state, next), NotesFor(e, env, next))
  {
    hide Run, Step, NextState, NextEntry;
    RunKeepsInv(INITIAL_ENTRY, ops);
    RunReported(INITIAL_ENTRY, ops);
    StepDoes(Run(INITIAL_ENTRY, ops).entry, env);
  }

  /** So connect is called exactly from S4, when nothing calls it off or down and the retry is due. */
  lemma ConnectCalledIff(ops: seq<Op>, env: Env)
    ensures var e := Run(INITIAL_ENTRY, ops).entry;
            Connect in Step(e, env).calls <==>
            && e.state == S4 && e.enabled && !e.restart && !env.exhausted && e.errors == 0
            && (env.first || Wrap32(env.now - e.changed) >= env.backoff)
  {
    hide Run, Step;
    StepExactly(ops, env);
  }

  /** What a request does to the entry, and to nothing else of it. */
  ghost predicate Requests(e: Entry, op: Op, n: Entry) {
    match op
    case Arrives(event) => n == e.(event := event, restart := e.restart || event == Other)
    case SwitchOn => n == e.(errors := 0, enabled := true, timerEnabled := true)
    case SwitchOff => n == e.(enabled := false, timerEnabled := false)
    case Steps(_) => false
  }

  /**
   Between steps nothing is called or notified. An event of an unknown kind and switching off close
   everything in the next step, and switching on brings an interface up in it whatever errors there were.
   */
  lemma RequestsTakeEffect(ops: seq<Op>, op: Op, env: Env)
    requires !op.Steps?
    ensures var o := Apply(Run(INITIAL_ENTRY, ops).entry, op);
            Requests(Run(INITIAL_ENTRY, ops).entry, op, o.entry) && o.calls == [] && o.notes == []
    ensures var e := Run(INITIAL_ENTRY, ops + [op]).entry;
            && (op == Arrives(Other) || op == SwitchOff ==> e.state != S0 ==> Step(e, env).entry.state == S0)
            && (op == SwitchOn && e.state == S0 && !env.exhausted ==> Step(e, env).entry.state == S1)
  {
    hide Run, Step;
    RunSnoc(INITIAL_ENTRY, ops, op);
    StepExactly(ops + [op], env);
  }
}
