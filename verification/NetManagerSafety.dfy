/** What holds in every run of the network manager. */
module NetManagerSafety {
  import opened CInt
  import opened Common
  import opened NetManager
  import opened Alternation

  // ---------- nesting of the interface calls ----------

  /** How many of init, enable and connect are open in a state. */
  function DepthOf(s: NetState): nat {
    if s == S0 then 0 else if s <= S2 then 1 else if s <= S4 then 2 else 3
  }

  /** The depth after a call, or -1 if the call is out of place. */
  function DepthAfter(depth: int, call: Call): int {
    match call
    case Init => if depth == 0 then 1 else -1
    case Enable => if depth == 1 then 2 else -1
    case Connect => if depth == 2 then 3 else -1
    case Disconnect => if depth == 3 then 2 else -1
    case Disable => if depth == 2 then 1 else -1
    case Deinit => if depth == 1 then 0 else -1
  }

  function Depth(depth: int, calls: seq<Call>): int
    decreases |calls|
  {
    if calls == [] then depth else Depth(DepthAfter(depth, calls[0]), calls[1..])
  }

  lemma {:induction false} DepthConcat(depth: int, a: seq<Call>, b: seq<Call>)
    ensures Depth(depth, a + b) == Depth(Depth(depth, a), b)
    decreases |a|
  {
    if a == [] {
      assert a + b == b;
    } else {
      assert (a + b)[1..] == a[1..] + b;
      DepthConcat(DepthAfter(depth, a[0]), a[1..], b);
    }
  }

  /** The external state, the ping timer and the open calls are functions of the state. */
  ghost predicate Inv(e: Entry) {
    && (e.external == Connected <==> e.state == S6)
    && (e.timerStarted <==> e.state == S6)
    && e.timerEnabled == e.enabled
  }

  /** The moves of the table, and by which actions they are made. */
  predicate IsMove(row: Row) {
    if row.to == row.from then row.action == DoNothing || row.action == DoPing
    else if row.to == S0 then row.action == DoOff
    else if row.to == S2 && row.from > S2 then row.action == DoDisable
    else if row.to == S4 && row.from > S4 then row.action == DoDisconnect
    else && row.to == row.from + 1
         && row.action == (if row.from == S0 then DoOn else if row.from == S2 then DoEnable
                           else if row.from == S4 then DoConnect else if row.from == S5 then DoConnected else DoNothing)
  }

  /** The first row that leaves a state; it turns the interface off, or on from S0. */
  function FirstFrom(s: NetState): nat {
    if s <= S3 then 2 * s else if s == S4 then 9 else if s == S5 then 12 else 16
  }

  lemma TableShape(i: nat)
    requires i < ROWS
    ensures IsMove(TRANSITIONS[i])
    ensures var from := TRANSITIONS[i].from;
            FirstFrom(from) <= i < if from == S6 then ROWS else FirstFrom(from + 1)
  {
    if i < 6 {
    } else if i < 12 {
    } else {
    }
  }

  /** The table as a list of decisions: the row a step takes, if any. */
  function Choice(e: Entry, env: Env): Option<Row> {
    if e.state == S0 then
      if Holds(ToS1, e, env) then Some(Row(S0, ToS1, DoOn, S1))
      else if Holds(IsError, e, env) then Some(Row(S0, IsError, DoNothing, S0)) else None
    else if Holds(ToS0, e, env) then Some(Row(e.state, ToS0, DoOff, S0))
    else if Holds(ToS2, e, env) && e.state != S2 then
      Some(Row(e.state, ToS2, if e.state == S1 then DoNothing else Action.DoDisable, S2))
    else if e.state == S2 then (if Holds(ToS3, e, env) then Some(Row(S2, ToS3, DoEnable, S3)) else None)
    else if e.state == S4 then (if Holds(ToS5, e, env) then Some(Row(S4, ToS5, DoConnect, S5)) else None)
    else if Holds(ToS4, e, env) && e.state > S2 then
      Some(Row(e.state, ToS4, if e.state == S3 then DoNothing else Action.DoDisconnect, S4))
    else if e.state == S5 then (if Holds(ToS6, e, env) then Some(Row(S5, ToS6, DoConnected, S6)) else None)
    else if e.state == S6 then
      if Holds(PingRequested, e, env) then Some(Row(S6, PingRequested, DoPing, S6))
      else if Holds(TaskRequested, e, env) then Some(Row(S6, TaskRequested, DoNothing, S6)) else None
    else None
  }

  /** A step does what the choice says. */
  ghost predicate Takes(e: Entry, env: Env) {
    var choice := Choice(e, env);
    Step(e, env) == if choice.None? then Outcome(e, [], []) else TakeRow(e, env, choice.value)
  }

  lemma StepTakesChoice(e: Entry, env: Env)
    ensures Takes(e, env)
  {
    hide Takes, FirstRow, Holds;
    if e.state <= S2 {
      TakesLow(e, env);
    } else if e.state <= S4 {
      TakesMiddle(e, env);
    } else {
      TakesHigh(e, env);
    }
  }

  lemma TakesLow(e: Entry, env: Env)
    requires e.state <= S2
    ensures Takes(e, env)
  {
    hide FirstRow, TakeRow;
    RowInRange(e, env);
    assert e.state == S0 ==> (Fires(e, env, 0) <==> Holds(ToS1, e, env))
                             && (Fires(e, env, 1) <==> Holds(IsError, e, env));
    assert e.state == S1 ==> (Fires(e, env, 2) <==> Holds(ToS0, e, env))
                             && (Fires(e, env, 3) <==> Holds(ToS2, e, env));
    assert e.state == S2 ==> (Fires(e, env, 4) <==> Holds(ToS0, e, env))
                             && (Fires(e, env, 5) <==> Holds(ToS3, e, env));
  }

  lemma TakesMiddle(e: Entry, env: Env)
    requires e.state == S3 || e.state == S4
    ensures Takes(e, env)
  {
    hide FirstRow, TakeRow;
    RowInRange(e, env);
    assert e.state == S3 ==> (Fires(e, env, 6) <==> Holds(ToS0, e, env))
                             && (Fires(e, env, 7) <==> Holds(ToS2, e, env));
    assert e.state == S3 ==> (Fires(e, env, 8) <==> Holds(ToS4, e, env));
    assert e.state == S4 ==> (Fires(e, env, 9) <==> Holds(ToS0, e, env))
                             && (Fires(e, env, 10) <==> Holds(ToS2, e, env));
    assert e.state == S4 ==> (Fires(e, env, 11) <==> Holds(ToS5, e, env));
  }

  lemma TakesHigh(e: Entry, env: Env)
    requires e.state == S5 || e.state == S6
    ensures Takes(e, env)
  {
    hide FirstRow, TakeRow;
    RowInRange(e, env);
    assert e.state == S5 ==> (Fires(e, env, 12) <==> Holds(ToS0, e, env))
                             && (Fires(e, env, 13) <==> Holds(ToS2, e, env));
    assert e.state == S5 ==> (Fires(e, env, 14) <==> Holds(ToS4, e, env))
                             && (Fires(e, env, 15) <==> Holds(ToS6, e, env));
    assert e.state == S6 ==> (Fires(e, env, 16) <==> Holds(ToS0, e, env))
                             && (Fires(e, env, 17) <==> Holds(ToS2, e, env));
    assert e.state == S6 ==> (Fires(e, env, 18) <==> Holds(ToS4, e, env))
                             && (Fires(e, env, 19) <==> Holds(PingRequested, e, env));
    assert e.state == S6 ==> (Fires(e, env, 20) <==> Holds(TaskRequested, e, env));
  }

  lemma RowInRange(e: Entry, env: Env)
    ensures var i := FirstRow(e, env, 0);
            i < ROWS ==> FirstFrom(e.state) <= i < (if e.state == S6 then ROWS else FirstFrom(e.state + 1))
  {
    hide FirstRow;
    var i := FirstRow(e, env, 0);
    if i < ROWS {
      TableShape(i);
    }
  }

  lemma RowKeepsInv(e: Entry, env: Env, row: Row)
    requires Inv(e) && IsMove(row) && row.from == e.state
    ensures var o := TakeRow(e, env, row);
            && Inv(o.entry)
            && Depth(DepthOf(e.state), o.calls) == DepthOf(o.entry.state)
  {
    var calls := CallsOf(row.action, e.state);
    CallsDepth(row.action, e.state);
  }

  /** Closing actions unwind exactly what the state holds open, innermost first. */
  lemma CallsDepth(a: Action, from: NetState)
    ensures a == DoOn && from == S0 ==> Depth(0, CallsOf(a, from)) == 1
    ensures a == DoEnable && from == S2 ==> Depth(1, CallsOf(a, from)) == 2
    ensures a == DoConnect && from == S4 ==> Depth(2, CallsOf(a, from)) == 3
    ensures a == DoDisconnect && from > S4 ==> Depth(3, CallsOf(a, from)) == 2
    ensures a == DoDisable && from > S2 ==> Depth(DepthOf(from), CallsOf(a, from)) == 1
    ensures a == DoOff && from > S0 ==> Depth(DepthOf(from), CallsOf(a, from)) == 0
    ensures a == DoNothing || a == DoPing || a == DoConnected ==> CallsOf(a, from) == []
  {
    var calls := CallsOf(a, from);
    if |calls| > 0 {
      assert calls == [calls[0]] + calls[1..];
      DepthConcat(DepthOf(from), [calls[0]], calls[1..]);
      if |calls| > 1 {
        DepthConcat(DepthAfter(DepthOf(from), calls[0]), [calls[1]], calls[2..]);
        assert calls[1..] == [calls[1]] + calls[2..];
      }
    }
  }

  lemma ApplyKeepsInv(e: Entry, op: Op)
    requires Inv(e)
    ensures var o := Apply(e, op);
            && Inv(o.entry)
            && Depth(DepthOf(e.state), o.calls) == DepthOf(o.entry.state)
  {
    if op.Steps? {
      var i := FirstRow(e, op.env, 0);
      if i < ROWS {
        TableShape(i);
        RowKeepsInv(e, op.env, TRANSITIONS[i]);
      }
    }
  }

  lemma {:induction false} RunKeepsInv(e: Entry, ops: seq<Op>)
    requires Inv(e)
    ensures var o := Run(e, ops);
            && Inv(o.entry)
            && Depth(DepthOf(e.state), o.calls) == DepthOf(o.entry.state)
    decreases |ops|
  {
    if ops == [] {
    } else {
      var one := Apply(e, ops[0]);
      ApplyKeepsInv(e, ops[0]);
      RunKeepsInv(one.entry, ops[1..]);
      DepthConcat(DepthOf(e.state), one.calls, Run(one.entry, ops[1..]).calls);
    }
  }

  // ---------- the language of interface calls ----------

  /** `(connect disconnect)` n times. */
  function Pairs(n: nat): seq<Call> {
    if n == 0 then [] else Pairs(n - 1) + [Connect, Disconnect]
  }

  /** `(enable (connect disconnect)* disable)*`, one number per enabled session. */
  function Sessions(ns: seq<nat>): seq<Call> {
    if ns == [] then [] else Sessions(ns[..|ns| - 1]) + [Call.Enable] + Pairs(ns[|ns| - 1]) + [Disable]
  }

  /** `(init (enable (connect disconnect)* disable)* deinit)*` */
  function Word(t: seq<seq<nat>>): seq<Call> {
    if t == [] then [] else Word(t[..|t| - 1]) + [Init] + Sessions(t[|t| - 1]) + [Deinit]
  }

  /** The part of a word that is read when `depth` calls are open. */
  function Partial(t: seq<seq<nat>>, ns: seq<nat>, n: nat, depth: int): seq<Call> {
    if depth <= 0 then Word(t)
    else if depth == 1 then Word(t) + [Init] + Sessions(ns)
    else if depth == 2 then Word(t) + [Init] + Sessions(ns) + [Call.Enable] + Pairs(n)
    else Word(t) + [Init] + Sessions(ns) + [Call.Enable] + Pairs(n) + [Connect]
  }

  lemma DepthSnoc(depth: int, calls: seq<Call>, call: Call)
    ensures Depth(depth, calls + [call]) == DepthAfter(Depth(depth, calls), call)
  {
    DepthConcat(depth, calls, [call]);
  }

  /** A call in place extends the part of the word that was read. */
  lemma Extend(t: seq<seq<nat>>, ns: seq<nat>, n: nat, depth: int, call: Call)
      returns (t': seq<seq<nat>>, ns': seq<nat>, n': nat)
    requires 0 <= depth <= 3 && DepthAfter(depth, call) != -1
    ensures Partial(t, ns, n, depth) + [call] == Partial(t', ns', n', DepthAfter(depth, call))
  {
    t', ns', n' := t, ns, n;
    match call
    case Init => ns' := [];
    case Enable => n' := 0;
    case Connect =>
    case Disconnect =>
      n' := n + 1;
      assert Pairs(n + 1) == Pairs(n) + [Connect, Disconnect];
      assert Partial(t, ns, n, 3) + [call] == Word(t) + [Init] + Sessions(ns) + [Call.Enable] + Pairs(n + 1);
    case Disable =>
      ns' := ns + [n];
      assert ns'[..|ns'| - 1] == ns;
      assert Partial(t, ns, n, 2) + [call] == Word(t) + [Init] + Sessions(ns');
    case Deinit =>
      t' := t + [ns];
      assert t'[..|t'| - 1] == t;
  }

  /** A trace that never goes out of place is what has been read of some word. */
  lemma {:induction false} Parse(calls: seq<Call>) returns (t: seq<seq<nat>>, ns: seq<nat>, n: nat)
    requires Depth(0, calls) != -1
    ensures 0 <= Depth(0, calls) <= 3
    ensures calls == Partial(t, ns, n, Depth(0, calls))
    decreases |calls|
  {
    if calls == [] {
      t, ns, n := [], [], 0;
    } else {
      var before, call := calls[..|calls| - 1], calls[|calls| - 1];
      assert calls == before + [call];
      DepthSnoc(0, before, call);
      t, ns, n := Parse(before);
      t, ns, n := Extend(t, ns, n, Depth(0, before), call);
    }
  }

  /** Any such part can be completed to a word, and is one when nothing is open. */
  lemma Complete(t: seq<seq<nat>>, ns: seq<nat>, n: nat, depth: int) returns (whole: seq<seq<nat>>)
    requires 0 <= depth <= 3
    ensures Partial(t, ns, n, depth) <= Word(whole)
    ensures depth == 0 ==> Partial(t, ns, n, depth) == Word(whole)
    decreases depth
  {
    if depth == 0 {
      whole := t;
    } else {
      var closing := if depth == 1 then Deinit else if depth == 2 then Disable else Disconnect;
      var t', ns', n' := Extend(t, ns, n, depth, closing);
      whole := Complete(t', ns', n', depth - 1);
    }
  }

  /**
   In every run the interface calls are a prefix of
   `(init (enable (connect disconnect)* disable)* deinit)*`, and all of a word when
   the machine is off; init is open exactly from S1 up, enable from S3, connect from S5.
   */
  lemma CallsAreNested(ops: seq<Op>) returns (word: seq<seq<nat>>)
    ensures var o := Run(INITIAL_ENTRY, ops);
            && o.calls <= Word(word)
            && (o.entry.state == S0 ==> o.calls == Word(word))
            && Depth(0, o.calls) == DepthOf(o.entry.state)
  {
    RunKeepsInv(INITIAL_ENTRY, ops);
    var o := Run(INITIAL_ENTRY, ops);
    var t, ns, n := Parse(o.calls);
    word := Complete(t, ns, n, Depth(0, o.calls));
  }

  // ---------- notifications ----------

  /**
   In every run CONNECTED is reported, and the ping timer is started, exactly in S6. The timer is
   enabled exactly while the manager is, and once that is switched off the next step stops the timer.
   */
  lemma ConnectedExactlyInS6(ops: seq<Op>, env: Env)
    ensures var e := Run(INITIAL_ENTRY, ops).entry;
            && (e.external == Connected <==> e.state == S6)
            && (e.timerStarted <==> e.state == S6)
            && (e.timerEnabled <==> e.enabled)
            && (!e.timerEnabled ==> !Step(e, env).entry.timerStarted)
  {
    var e := Run(INITIAL_ENTRY, ops).entry;
    RunKeepsInv(INITIAL_ENTRY, ops);
    ApplyKeepsInv(e, Steps(env));
    if !e.enabled && e.state != S0 {
      OffFirst(e, env);
    } else if !e.enabled {
      StaysOff(e, env);
    }
  }

  lemma StaysOff(e: Entry, env: Env)
    requires e.state == S0 && !e.enabled
    ensures Step(e, env).entry == e
  {
    StepTakesChoice(e, env);
  }

  predicate Up(note: External) { note == Connected }
  predicate Down(note: External) { note == Disconnected }

  lemma {:induction false} LevelConcat(open: bool, a: seq<External>, b: seq<External>)
    ensures Level(open, a + b, Up, Down) == Level(Level(open, a, Up, Down), b, Up, Down)
    ensures OpensWhenClosed(open, a + b, Up, Down) <==>
            OpensWhenClosed(open, a, Up, Down) && OpensWhenClosed(Level(open, a, Up, Down), b, Up, Down)
    decreases |a|
  {
    if a == [] {
      assert a + b == b;
    } else {
      assert (a + b)[1..] == a[1..] + b;
      LevelConcat(Next(open, a[0], Up, Down), a[1..], b);
    }
  }

  lemma RowNotes(e: Entry, env: Env, row: Row)
    requires Inv(e) && IsMove(row) && row.from == e.state
    ensures var o := TakeRow(e, env, row);
            && OpensWhenClosed(e.state == S6, o.notes, Up, Down)
            && Level(e.state == S6, o.notes, Up, Down) == (o.entry.state == S6)
  {
    var was, next := e.state == S6, TakeRow(e, env, row).entry;
    if row.to != row.from && next.external != e.external {
      var down := if row.to < e.state && e.state >= S6 then [Disconnected] else [];
      var disabled := if row.to < e.state && e.state >= S4 then [External.Disabled] else [];
      LevelConcat(was, down, disabled);
      LevelConcat(was, down + disabled, [next.external]);
    }
  }

  lemma ApplyNotes(e: Entry, op: Op)
    requires Inv(e)
    ensures var o := Apply(e, op);
            && OpensWhenClosed(e.state == S6, o.notes, Up, Down)
            && Level(e.state == S6, o.notes, Up, Down) == (o.entry.state == S6)
  {
    if op.Steps? && FirstRow(e, op.env, 0) < ROWS {
      TableShape(FirstRow(e, op.env, 0));
      RowNotes(e, op.env, TRANSITIONS[FirstRow(e, op.env, 0)]);
    }
  }

  lemma {:induction false} RunNotes(e: Entry, ops: seq<Op>)
    requires Inv(e)
    ensures var o := Run(e, ops);
            && OpensWhenClosed(e.state == S6, o.notes, Up, Down)
            && Level(e.state == S6, o.notes, Up, Down) == (o.entry.state == S6)
    decreases |ops|
  {
    if ops == [] {
    } else {
      var one := Apply(e, ops[0]);
      ApplyKeepsInv(e, ops[0]);
      ApplyNotes(e, ops[0]);
      RunNotes(one.entry, ops[1..]);
      LevelConcat(e.state == S6, one.notes, Run(one.entry, ops[1..]).notes);
    }
  }

  /** Two CONNECTED notifications of a run have a DISCONNECTED between them. */
  lemma DisconnectedBetween(ops: seq<Op>, i: nat, j: nat)
    requires var notes := Run(INITIAL_ENTRY, ops).notes; i < j < |notes| && Up(notes[i]) && Up(notes[j])
    ensures exists k :: i < k < j && Down(Run(INITIAL_ENTRY, ops).notes[k])
  {
    RunNotes(INITIAL_ENTRY, ops);
    ClosedBetweenOpens(false, Run(INITIAL_ENTRY, ops).notes, Up, Down, i, j);
  }

  // ---------- restart ----------

  lemma OffFirst(e: Entry, env: Env)
    requires e.state != S0 && (e.restart || !e.enabled || env.exhausted)
    ensures Step(e, env).entry.state == S0 && !Step(e, env).entry.restart
  {
    hide Step, CallsOf, NotesOf;
    StepTakesChoice(e, env);
  }

  /** A failed bring-up, a switch-off or an exhausted retry tears everything down in one step. */
  lemma TeardownInOneStep(ops: seq<Op>, env: Env)
    requires var e := Run(INITIAL_ENTRY, ops).entry;
             e.state != S0 && (e.restart || !e.enabled || env.exhausted)
    ensures var o := Run(INITIAL_ENTRY, ops);
            var off := Step(o.entry, env);
            && off.entry.state == S0
            && !off.entry.restart && !off.entry.timerStarted
            && Depth(0, o.calls + off.calls) == 0
  {
    RunKeepsInv(INITIAL_ENTRY, ops);
    var o := Run(INITIAL_ENTRY, ops);
    var e := o.entry;
    ApplyKeepsInv(e, Steps(env));
    DepthConcat(0, o.calls, Step(e, env).calls);
    OffFirst(e, env);
  }

  // ---------- when a connection is reported ----------

  /** From S5 a step reports CONNECTED exactly when the last event is an address and nothing calls for going down. */
  lemma ReportsConnectedIff(e: Entry, env: Env)
    requires Inv(e) && e.state == S5
    ensures Connected in Step(e, env).notes <==>
            && e.event == IpAcquired
            && e.enabled && !e.restart && !env.exhausted && e.errors == 0
            && Elapsed(e, env) < CONNECT_TIMEOUT_MS
    ensures Connected in Step(e, env).notes <==> Step(e, env).entry.state == S6
  {
    hide Step, TakeRow;
    StepTakesChoice(e, env);
    if Choice(e, env).Some? {
      NotesTellS6(e, env, Choice(e, env).value);
    }
  }

  lemma NotesTellS6(e: Entry, env: Env, row: Row)
    requires Inv(e) && IsMove(row) && row.from == e.state == S5
    ensures Connected in TakeRow(e, env, row).notes <==> row.to == S6
    ensures TakeRow(e, env, row).entry.state == row.to
  {
  }

  /** The last interface event of a run, or none. */
  function LastEvent(ops: seq<Op>): NetifEvent {
    if ops == [] then Other
    else if ops[|ops| - 1].Arrives? then ops[|ops| - 1].event
    else LastEvent(ops[..|ops| - 1])
  }

  lemma {:induction false} RunSnoc(e: Entry, ops: seq<Op>, op: Op)
    ensures Run(e, ops + [op]).entry == Apply(Run(e, ops).entry, op).entry
    decreases |ops|
  {
    if ops == [] {
      assert [op][1..] == [] && ops + [op] == [op];
    } else {
      assert (ops + [op])[1..] == ops[1..] + [op];
      RunSnoc(Apply(e, ops[0]).entry, ops[1..], op);
    }
  }

  lemma {:induction false} EventIsLast(ops: seq<Op>)
    ensures Run(INITIAL_ENTRY, ops).entry.event == LastEvent(ops)
  {
    hide Apply;
    if ops == [] {
    } else {
      var init, op := ops[..|ops| - 1], ops[|ops| - 1];
      EventIsLast(init);
      assert ops == init + [op];
      RunSnoc(INITIAL_ENTRY, init, op);
      EventAfter(Run(INITIAL_ENTRY, init).entry, op);
    }
  }

  lemma EventAfter(e: Entry, op: Op)
    ensures Apply(e, op).entry.event == if op.Arrives? then op.event else e.event
  {
    hide FirstRow, TakeRow;
    if op.Steps? && FirstRow(e, op.env, 0) < ROWS {
      RowKeepsEvent(e, op.env, TRANSITIONS[FirstRow(e, op.env, 0)]);
    }
  }

  lemma RowKeepsEvent(e: Entry, env: Env, row: Row)
    ensures TakeRow(e, env, row).entry.event == e.event
  {
    hide CallsOf, NotesOf, ExternalOf, Perform;
    PerformKeepsEvent(row.action, e, env);
  }

  lemma PerformKeepsEvent(a: Action, e: Entry, env: Env)
    ensures Perform(a, e, env).event == e.event
  {
    hide Disabling, Disconnecting;
    DisconnectingKeepsEvent(e, env);
  }

  lemma DisconnectingKeepsEvent(e: Entry, env: Env)
    ensures Disconnecting(e, env).event == Disabling(e, env).event == e.event
  {
  }

  /**
   A connect call whose next step reports CONNECTED although no event arrived in between: this
   happens exactly when an address was the last event before the call, the call succeeded, and
   nothing called for going down. The event is never cleared, so it may belong to an earlier connection.
   */
  lemma ConnectedWithoutAnswerIff(ops: seq<Op>, env: Env, next: Env)
    requires Connect in Step(Run(INITIAL_ENTRY, ops).entry, env).calls
    ensures var e := Run(INITIAL_ENTRY, ops).entry;
            Connected in Step(Step(e, env).entry, next).notes <==>
            && LastEvent(ops) == IpAcquired && !env.connectFails
            && !next.exhausted && Wrap32(next.now - env.now) < CONNECT_TIMEOUT_MS
  {
    hide Step, Run, LastEvent;
    var e := Run(INITIAL_ENTRY, ops).entry;
    RunKeepsInv(INITIAL_ENTRY, ops);
    EventIsLast(ops);
    ConnectStep(e, env);
    ApplyKeepsInv(e, Steps(env));
    ReportsConnectedIff(Step(e, env).entry, next);
  }

  lemma ConnectStep(e: Entry, env: Env)
    requires Inv(e) && Connect in Step(e, env).calls
    ensures e.enabled && !e.restart && e.errors == 0
    ensures Step(e, env).entry ==
            Failed(e, env.connectFails).(state := S5, changed := env.now, external := External.Enabled)
  {
    hide Step;
    StepTakesChoice(e, env);
    var row := Choice(e, env).value;
    ConnectCalled(row.action, e.state);
  }

  lemma ConnectCalled(a: Action, from: NetState)
    ensures Connect in CallsOf(a, from) <==> a == DoConnect
  {
  }

  // ---------- a run in which that happens ----------

  /** A step in which every call succeeds and nothing else is asked for. */
  function Quiet(now: u32): Env {
    Env(false, false, true, 0, now, false, false, false, false, false, false, false)
  }

  /** A quiet step goes up one state, when it is time for it. */
  lemma Rises(e: Entry, now: u32) returns (next: Entry)
    requires e.state < S6 && e.enabled && !e.restart && e.errors == 0
    requires var elapsed := Wrap32(now - e.changed);
             elapsed < CONNECT_TIMEOUT_MS && (e.state == S2 ==> elapsed >= REENABLE_DELAY_MS)
    requires e.state == S5 ==> e.event == IpAcquired
    ensures next == Apply(e, Steps(Quiet(now))).entry
    ensures next.state == e.state + 1 && next.changed == now && next.event == e.event
    ensures next.enabled && !next.restart && next.errors == 0
    ensures e.state == S4 ==> Connect in Step(e, Quiet(now)).calls
  {
    hide Step;
    StepTakesChoice(e, Quiet(now));
    next := Step(e, Quiet(now)).entry;
  }

  /** A failed ping is counted, and the next step drops from S6 to S2; the event stays. */
  lemma PingFails(e: Entry, env: Env) returns (next: Entry)
    requires e.state == S6 && e.enabled && !e.restart && e.errors == 0 && e.event == IpAcquired
    requires env == Quiet(env.now).(pingRequested := true, pingFails := true)
    ensures next == Apply(e, Steps(env)).entry == e.(errors := 1)
  {
    hide Step;
    StepTakesChoice(e, env);
    next := Step(e, env).entry;
  }

  lemma ErrorDrops(e: Entry, env: Env) returns (next: Entry)
    requires e.state == S6 && e.enabled && !e.restart && e.errors > 0 && !env.exhausted
    ensures next == Apply(e, Steps(env)).entry
    ensures next.state == S2 && next.changed == env.now && next.event == e.event && next.enabled && !next.restart
  {
    hide Step;
    StepTakesChoice(e, env);
    next := Step(e, env).entry;
  }

  /** Enabling again forgets the errors. */
  lemma ReenableClears(e: Entry, now: u32) returns (next: Entry)
    requires e.state == S2 && e.enabled && !e.restart && Wrap32(now - e.changed) >= REENABLE_DELAY_MS
    ensures next == Apply(e, Steps(Quiet(now))).entry
    ensures next.state == S3 && next.changed == now && next.event == e.event
    ensures next.enabled && !next.restart && next.errors == 0
  {
    hide Step;
    StepTakesChoice(e, Quiet(now));
    next := Step(e, Quiet(now)).entry;
  }

  lemma Extended(ops: seq<Op>, op: Op) returns (more: seq<Op>)
    ensures more == ops + [op]
    ensures Run(INITIAL_ENTRY, more).entry == Apply(Run(INITIAL_ENTRY, ops).entry, op).entry
  {
    more := ops + [op];
    RunSnoc(INITIAL_ENTRY, ops, op);
  }

  /** A first connection, up to S6 with its address. */
  lemma FirstConnection() returns (ops: seq<Op>, e: Entry)
    ensures e == Run(INITIAL_ENTRY, ops).entry
    ensures e.state == S6 && e.enabled && !e.restart && e.errors == 0 && e.changed == 1000 && e.event == IpAcquired
  {
    hide Run, Step;
    assert Run(INITIAL_ENTRY, []).entry == INITIAL_ENTRY by { RunEmpty(); }
    ops := Extended([], SwitchOn);
    e := INITIAL_ENTRY.(enabled := true, timerEnabled := true);
    e := Rises(e, 0);
    ops := Extended(ops, Steps(Quiet(0)));
    e := Rises(e, 0);
    ops := Extended(ops, Steps(Quiet(0)));
    e := Rises(e, 1000);
    ops := Extended(ops, Steps(Quiet(1000)));
    e := Rises(e, 1000);
    ops := Extended(ops, Steps(Quiet(1000)));
    e := Rises(e, 1000);
    ops := Extended(ops, Steps(Quiet(1000)));
    ops := Extended(ops, Arrives(IpAcquired));
    e := Rises(e.(event := IpAcquired), 1000);
    ops := Extended(ops, Steps(Quiet(1000)));
  }

  lemma RunEmpty()
    ensures Run(INITIAL_ENTRY, []).entry == INITIAL_ENTRY
  {
  }

  /**
   A run in which the address of one connection is taken for the next: `first` connects, `later`
   loses the connection to a failed ping and holds no event, and the connect call after it is answered at once.
   */
  lemma StaleAddressReached() returns (first: seq<Op>, later: seq<Op>, now: u32)
    ensures Run(INITIAL_ENTRY, first).entry.state == S6 && forall i :: 0 <= i < |later| ==> later[i].Steps?
    ensures var e := Run(INITIAL_ENTRY, first + later).entry;
            && Connect in Step(e, Quiet(now)).calls
            && Connected in Step(Step(e, Quiet(now)).entry, Quiet(now)).notes
  {
    hide Run, Step, LastEvent;
    now := 2000;
    var e, ping, up := INITIAL_ENTRY, Quiet(1000).(pingRequested := true, pingFails := true), Quiet(2000);
    first, e := FirstConnection();
    later := [Steps(ping), Steps(ping), Steps(up), Steps(up)];
    e := PingFails(e, ping);
    var ops := Extended(first, Steps(ping));
    e := ErrorDrops(e, ping);
    ops := Extended(ops, Steps(ping));
    e := ReenableClears(e, 2000);
    ops := Extended(ops, Steps(up));
    e := Rises(e, 2000);
    ops := Extended(ops, Steps(up));
    assert ops == first + later;
    var connecting := Rises(e, 2000);
    EventIsLast(ops);
    ConnectedWithoutAnswerIff(ops, up, up);
  }

  // ---------- the two ways to ask for the connection ----------

  /** Nothing calls a machine in S5 or S6 down when an address is the last event. */
  predicate StaysUp(e: Entry, env: Env) {
    && e.state >= S5 && e.enabled && !e.restart && !env.exhausted && e.errors == 0
    && (e.state == S5 ==> Elapsed(e, env) < CONNECT_TIMEOUT_MS)
  }

  /**
   After a step of any run `netmgr_connected` tells whether an address was the last event. It is true
   whenever the external state is CONNECTED, and the two agree exactly when no address was the last
   event, or the step found the machine connecting or connected and nothing called it down.
   */
  lemma ConnectedAnswersAgreeIff(ops: seq<Op>, env: Env)
    ensures var b := Run(INITIAL_ENTRY, ops).entry;
            var e := Step(b, env).entry;
            && (SaysConnected(e) <==> LastEvent(ops) == IpAcquired)
            && (e.external == Connected ==> SaysConnected(e))
            && ((SaysConnected(e) <==> e.external == Connected) <==>
                (LastEvent(ops) == IpAcquired ==> StaysUp(b, env)))
  {
    hide Step, Run, LastEvent;
    var b := Run(INITIAL_ENTRY, ops).entry;
    EventIsLast(ops);
    RunKeepsInv(INITIAL_ENTRY, ops);
    ApplyKeepsInv(b, Steps(env));
    EventAfter(b, Steps(env));
    StepTakesChoice(b, env);
    ChoiceReachesS6Iff(b, env);
  }

  lemma ChoiceReachesS6Iff(e: Entry, env: Env)
    ensures var next := if Choice(e, env).None? then e.state else Choice(e, env).value.to;
            next == S6 <==> e.event == IpAcquired && StaysUp(e, env)
  {
  }

  /** Both ways to disagree: the address outlives a connection lost to a ping, the link goes before a step sees it. */
  lemma ConnectedAnswersDisagree() returns (stale: seq<Op>, lost: seq<Op>)
    ensures var e := Run(INITIAL_ENTRY, stale).entry; SaysConnected(e) && e.external != Connected && e.state == S2
    ensures var e := Run(INITIAL_ENTRY, lost).entry; !SaysConnected(e) && e.external == Connected
  {
    hide Run, Step;
    var ping := Quiet(1000).(pingRequested := true, pingFails := true);
    var first, e := FirstConnection();
    lost := Extended(first, Arrives(LinkDown));
    RunKeepsInv(INITIAL_ENTRY, first);
    e := PingFails(e, ping);
    stale := Extended(first, Steps(ping));
    e := ErrorDrops(e, ping);
    stale := Extended(stale, Steps(ping));
    RunKeepsInv(INITIAL_ENTRY, stale);
  }
}
