/** What one call of the firmware updater does, told from the request, the clock and the answers of the world. */
module UpdaterSteps {
  import opened Common
  import opened Updater
  import opened UpdaterSafety

  /** The request is gone and nothing is buffered. */
  function Closed(u: Updater): Updater {
    u.(date := None, dfu := None, ring := [])
  }

  /** A download under way goes on while it is in progress, no chunk has failed, and 300 s have not passed. */
  predicate GoesOn(u: Updater, d: Updater, env: Env) {
    env.result == -115 && d.error == 0 && env.now - u.started < 300
  }

  /** The end of a download: installed, refused by the commit, late, or failed. */
  function Ended(u: Updater, d: Updater, env: Env): Outcome
    requires u.dfu.Some?
  {
    var h, late := u.dfu.value, env.now - u.started >= 300;
    if !late && env.result == 0 && d.error == 0 && env.finishOk then
      if env.commitOk then
        Outcome(Closed(d), [Finish(h), Commit(h), Delete(h)],
                [Downloaded, StartInstalling, Installed, RebootRequired], 11)
      else
        Outcome(Closed(d), [Finish(h), Commit(h), Abort(h), Delete(h)],
                [Downloaded, StartInstalling, ErrorInstalling], 9)
    else if late || env.result == -110 then Outcome(Closed(d), [Finish(h), Abort(h), Delete(h)], [ErrorTimeout], 6)
    else Outcome(Closed(d), [Finish(h), Abort(h), Delete(h)], [ErrorDownloading], 4)
  }

  /** The start of a request whose date has come: both preparations must succeed. */
  function Begun(u: Updater, env: Env): Outcome {
    var h := u.handles;
    if !env.newOk then Outcome(Closed(u), [], [ErrorPreparing], 1)
    else if !env.prepareOk then
      Outcome(Closed(u).(handles := h + 1, flash := []), [New(h), Delete(h)], [ErrorPreparing], 1)
    else
      Outcome(u.(dfu := Some(h), handles := h + 1, flash := [], started := env.now), [New(h)], [StartDownloading], -11)
  }

  /** What `updater_process` does, and returns. */
  function ProcessOutcome(headerSize: nat, u: Updater, env: Env): Outcome {
    if u.date.None? then Outcome(u, [], [], 0)
    else if u.dfu.None? then (if env.now < u.date.value then Outcome(u, [], [], -11) else Begun(u, env))
    else
      var d := Delivered(headerSize, u, env.chunks);
      if GoesOn(u, d, env) then Outcome(d, [], [], -11) else Ended(u, d, env)
  }

  /** The whole effect of a processing call of any run: state, DFU calls, notifications and return value. */
  lemma ProcessExactly(headerSize: nat, ops: seq<Op>, env: Env)
    ensures var u := Run(headerSize, INITIAL_UPDATER, ops).updater;
            Processed(headerSize, u, env) == ProcessOutcome(headerSize, u, env)
  {
    hide Run, Delivered;
    var _ := RunSessions(headerSize, INITIAL_UPDATER, ops);
    EndsSo(Run(headerSize, INITIAL_UPDATER, ops).updater, headerSize, env);
  }

  lemma EndsSo(u: Updater, headerSize: nat, env: Env)
    requires Inv(u)
    ensures Processed(headerSize, u, env) == ProcessOutcome(headerSize, u, env)
  {
    hide Delivered;
    DeliveredKeeps(headerSize, u, env.chunks);
  }

  /** A session is kept exactly while its download goes on, and then nothing is called or notified. */
  lemma SessionKeptIff(headerSize: nat, ops: seq<Op>, env: Env)
    requires IsUpdating(Run(headerSize, INITIAL_UPDATER, ops).updater)
    ensures var u := Run(headerSize, INITIAL_UPDATER, ops).updater;
            var d, o := Delivered(headerSize, u, env.chunks), Processed(headerSize, u, env);
            && (IsUpdating(o.updater) <==> env.result == -115 && d.error == 0 && env.now - u.started < 300)
            && (IsUpdating(o.updater) ==> o == Outcome(d, [], [], -11))
  {
    hide Run, Delivered;
    ProcessExactly(headerSize, ops, env);
    DeliveredKeeps(headerSize, Run(headerSize, INITIAL_UPDATER, ops).updater, env.chunks);
  }

  /** From no session one is started exactly for a request whose date has come and that both preparations accept. */
  lemma SessionStartsIff(headerSize: nat, ops: seq<Op>, env: Env)
    requires !IsUpdating(Run(headerSize, INITIAL_UPDATER, ops).updater)
    ensures var u := Run(headerSize, INITIAL_UPDATER, ops).updater;
            var n := Processed(headerSize, u, env).updater;
            && (IsUpdating(n) <==> u.date.Some? && u.date.value <= env.now && env.newOk && env.prepareOk)
            && (IsUpdating(n) ==>
                  n.started == env.now && n.flash == [] && n.ring == [] && n.error == 0 && n.written == 0)
  {
    hide Run;
    var _ := RunSessions(headerSize, INITIAL_UPDATER, ops);
    ProcessExactly(headerSize, ops, env);
  }

  /** After 300 s a session ends without a commit, as timed out. */
  lemma LateNeverCommits(headerSize: nat, ops: seq<Op>, env: Env)
    requires var u := Run(headerSize, INITIAL_UPDATER, ops).updater; IsUpdating(u) && env.now - u.started >= 300
    ensures var u := Run(headerSize, INITIAL_UPDATER, ops).updater;
            var o := Processed(headerSize, u, env);
            && !IsUpdating(o.updater) && o.notes == [ErrorTimeout] && forall h :: Commit(h) !in o.calls
  {
    hide Run, Delivered;
    ProcessExactly(headerSize, ops, env);
  }

  /** A request without a session under way replaces whatever was pending; its date decides when it starts. */
  lemma RequestTakesEffect(headerSize: nat, ops: seq<Op>, date: Option<int>, env: Env)
    ensures var u := Run(headerSize, INITIAL_UPDATER, ops).updater;
            var o := Requested(u, date);
            && o.ret == (if date.None? then -22 else if IsUpdating(u) then -16 else 0)
            && (o.ret == 0 ==>
                  var n := Processed(headerSize, o.updater, env);
                  IsUpdating(n.updater) <==> date.value <= env.now && env.newOk && env.prepareOk)
            && (o.ret != 0 ==> o.updater == u)
  {
    hide Run, Delivered;
    var u := Run(headerSize, INITIAL_UPDATER, ops).updater;
    var _ := RunSessions(headerSize, INITIAL_UPDATER, ops);
    var o := Requested(u, date);
    if o.ret == 0 {
      EndsSo(o.updater, headerSize, env);
    }
  }
}
