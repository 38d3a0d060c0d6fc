/** The polling loop over the recovering inverter: what the retries of recovery.go mean to the command pipeline, and
    what they leave the availability at. */
module Service {
  import opened Basics
  import opened Registers
  import CommandPipeline
  import Inverter
  import Polling
  import PollingCalls
  import PollingRuns
  import Scheduler
  import opened Recovery

  /** An operation the polling loop runs with recovery. Reads, clock writes and the first connect are alike here:
      their errors never are command rejections. */
  datatype Call = WriteCall(key: string, value: Value) | OtherCall

  function ErrorOf(e: Inverter.WriteError): Error {
    match e
    case Rejected => Error(false, true)
    case LinkFailure(fatal) => Error(fatal, false)
    case Undecodable => PLAIN
    case Interrupted => PLAIN
  }

  function Reported(r: Result<Value, Inverter.WriteError>): Outcome {
    match r
    case Ok(_) => Success
    case Err(e) => Failure(ErrorOf(e))
  }

  predicate Rejects(o: Outcome) {
    o.Failure? && o.error.rejected
  }

  /** The outcome of some attempt to write the value, on some device over some link. */
  ghost predicate IsWriteReply(rows: map<string, Definition>, key: string, value: Value, o: Outcome) {
    exists s: Inverter.InverterState, link: Inverter.Link ::
      Inverter.InImage(rows, |s.image|) && o == Reported(Inverter.WriteOutcome(rows, s, key, value, link).1)
  }

  /** The script answers for the call: each attempt is an attempt of that call, and only WriteConfig makes
      rejections. */
  ghost predicate Performs(w: World, rows: map<string, Definition>, call: Call) {
    && (forall n: nat :: !Rejects(w.sleep(n)) && !Rejects(w.connect(n)) && !Rejects(w.reset(n)))
    && forall n: nat ::
         match call
         case WriteCall(key, value) => IsWriteReply(rows, key, value, w.operate(n))
         case OtherCall => !Rejects(w.operate(n))
  }

  predicate IsRejected(rows: map<string, Definition>, call: Call) {
    call.WriteCall? && Inverter.Accept(rows, call.key, call.value).None?
  }

  /** Every attempt of a call is rejected or none is, and a rejection is not fatal. */
  lemma {:induction false} AttemptsAgree(w: World, rows: map<string, Definition>, call: Call, n: nat)
    requires Performs(w, rows, call)
    ensures Rejects(w.operate(n)) <==> IsRejected(rows, call)
    ensures Rejects(w.operate(n)) ==> !w.operate(n).error.fatal
  {
    if call.WriteCall? {
      assert IsWriteReply(rows, call.key, call.value, w.operate(n));
      var s: Inverter.InverterState, link: Inverter.Link :|
        Inverter.InImage(rows, |s.image|)
        && w.operate(n) == Reported(Inverter.WriteOutcome(rows, s, call.key, call.value, link).1);
      Inverter.RejectionIsStable(rows, s, call.key, call.value, link);
    }
  }

  lemma {:induction false} RoundRejectsNothing(w: World, c: Config, rows: map<string, Definition>, call: Call,
                                               log: Log, attempt: nat, delay: Int64, last: Outcome)
    requires Performs(w, rows, call) && !IsRejected(rows, call) && !Rejects(last) && attempt >= 1
    ensures !Rejects(Reconnect(w, c, log, attempt, delay, last).1)
    decreases c.attempts + 1 - attempt
  {
    if attempt <= c.attempts && w.sleep(|log| + 1).Success? {
      var rested := log + [Closed, Slept(delay, w.sleep(|log| + 1))];
      var connected := w.connect(|rested|);
      var linked := rested + [Connected(connected)];
      if connected.Failure? {
        RoundRejectsNothing(w, c, rows, call, linked, attempt + 1, NextDelay(c, delay), connected);
      } else {
        var operated := w.operate(|linked|);
        AttemptsAgree(w, rows, call, |linked|);
        if operated.Failure? && operated.error.fatal {
          var tried := linked + [Operated(operated)];
          RoundRejectsNothing(w, c, rows, call, tried, attempt + 1, NextDelay(c, delay), operated);
        }
      }
    }
  }

  /** A call with recovery ends in a rejection exactly when the command is one the register table rejects. In
      particular a write that was accepted once and retried during recovery never turns into a rejection. */
  lemma {:induction false} RejectionSurvivesRecovery(w: World, c: Config, rows: map<string, Definition>, call: Call,
                                                     lastReset: Option<int>, log: Log)
    requires Performs(w, rows, call)
    ensures Rejects(Execute(w, c, lastReset, log).outcome) <==> IsRejected(rows, call)
  {
    var first := w.operate(|log|);
    AttemptsAgree(w, rows, call, |log|);
    if first.Failure? && first.error.fatal {
      var told := Notify(w, log + [Operated(first)], false);
      RoundRejectsNothing(w, c, rows, call, told, 1, c.initial, Success);
      var retried := FirstRound(w, c, log).0;
      var requested := retried + [ResetRequested(w.clock(|retried|), w.reset(|retried|))];
      RoundRejectsNothing(w, c, rows, call, requested, 1, c.initial, Success);
    }
  }

  // ---- The command pipeline over recovery ---------------------------------------------------------------------

  /** How the drain reads the error of WriteConfig. */
  function ReplyOf(o: Outcome): CommandPipeline.Reply {
    if o.Success? then CommandPipeline.Acknowledged
    else if o.error.rejected then CommandPipeline.Refused
    else CommandPipeline.Broken
  }

  function Recovered(w: World, c: Config, r: CallResult): CallResult {
    Execute(w, c, r.lastReset, r.log)
  }

  /** The drain over the recovering inverter: each write that is not skipped is a call with recovery. */
  function DrainWith(c: Config, worlds: nat -> World, r: CallResult, batch: seq<CommandPipeline.Command>,
                     pending: map<string, Value>): (CommandPipeline.Drained, CallResult)
  {
    if batch == [] then (CommandPipeline.Drained([], pending, false, false), r)
    else
      var n := |batch| - 1;
      var (d, before) := DrainWith(c, worlds, r, batch[..n], pending);
      if d.broken || CommandPipeline.IsPending(d.pending, batch[n]) then (d, before)
      else
        var after := Recovered(worlds(n), c, before);
        (CommandPipeline.DrainOne(d, batch[n], ReplyOf(after.outcome)), after)
  }

  /** The replies that drain gets. */
  function WriterWith(c: Config, worlds: nat -> World, r: CallResult, batch: seq<CommandPipeline.Command>,
                      pending: map<string, Value>): CommandPipeline.Writer
  {
    (n: nat, cmd: CommandPipeline.Command) =>
      if n < |batch| then ReplyOf(Recovered(worlds(n), c, DrainWith(c, worlds, r, batch[..n], pending).1).outcome)
      else CommandPipeline.Refused
  }

  lemma {:induction false} DrainWithIsDrain(c: Config, worlds: nat -> World, r: CallResult,
                                            batch: seq<CommandPipeline.Command>, pending: map<string, Value>,
                                            writer: CommandPipeline.Writer, m: nat)
    requires writer == WriterWith(c, worlds, r, batch, pending) && m <= |batch|
    ensures DrainWith(c, worlds, r, batch[..m], pending).0 == CommandPipeline.Drain(batch[..m], pending, writer)
  {
    if m > 0 {
      DrainWithIsDrain(c, worlds, r, batch, pending, writer, m - 1);
      assert batch[..m][..m - 1] == batch[..m - 1];
    }
  }

  /** That writer is faithful: it rejects the commands of the batch that the table rejects and no other, whatever the
      link does. */
  lemma {:induction false} RecoveredWriterIsFaithful(c: Config, rows: map<string, Definition>, worlds: nat -> World,
                                                     r: CallResult, batch: seq<CommandPipeline.Command>,
                                                     pending: map<string, Value>)
    requires forall n | 0 <= n < |batch| :: Performs(worlds(n), rows, WriteCall(batch[n].key, batch[n].value))
    ensures CommandPipeline.Faithful(rows, WriterWith(c, worlds, r, batch, pending), batch)
  {
    forall n | 0 <= n < |batch|
      ensures WriterWith(c, worlds, r, batch, pending)(n, batch[n]) == CommandPipeline.Refused
         <==> Inverter.Accept(rows, batch[n].key, batch[n].value).None?
    {
      var before := DrainWith(c, worlds, r, batch[..n], pending).1;
      var call := WriteCall(batch[n].key, batch[n].value);
      RejectionSurvivesRecovery(worlds(n), c, rows, call, before.lastReset, before.log);
    }
  }

  // ---- Standing availability ----------------------------------------------------------------------------------

  /** Nothing has been said about the inverter, or last that it is available. */
  ghost predicate Standing(log: Log) {
    LastNotified(log) != Some(false)
  }

  /** The loop ended on a call that said "unavailable" exactly if it failed fatally. */
  ghost predicate EndedBy(r: CallResult) {
    r.outcome.Failure? && (Standing(r.log) <==> !r.outcome.error.fatal)
  }

  /** A call that succeeds or is rejected leaves the availability standing; any other ends the loop, having said
      "unavailable" exactly if it failed fatally. */
  lemma {:induction false} CallKeepsStanding(w: World, c: Config, rows: map<string, Definition>, call: Call,
                                             r: CallResult)
    requires c.attempts >= 1 && Performs(w, rows, call) && w.hasSink && Standing(r.log)
    ensures var after := Recovered(w, c, r);
      if ReplyOf(after.outcome) == CommandPipeline.Broken then EndedBy(after) else Standing(after.log)
  {
    ExecuteOutcome(w, c, r.lastReset, r.log);
    RejectionSurvivesRecovery(w, c, rows, call, r.lastReset, r.log);
    AttemptsAgree(w, rows, call, |r.log|);
  }

  lemma {:induction false} DrainKeepsStanding(c: Config, rows: map<string, Definition>, worlds: nat -> World,
                                              r: CallResult, batch: seq<CommandPipeline.Command>,
                                              pending: map<string, Value>)
    requires c.attempts >= 1 && Standing(r.log) && WritesServed(rows, worlds, batch)
    ensures var (d, after) := DrainWith(c, worlds, r, batch, pending);
      if d.broken then EndedBy(after) else Standing(after.log)
  {
    if batch != [] {
      var n := |batch| - 1;
      DrainKeepsStanding(c, rows, worlds, r, batch[..n], pending);
      var (d, before) := DrainWith(c, worlds, r, batch[..n], pending);
      if !d.broken && !CommandPipeline.IsPending(d.pending, batch[n]) {
        assert Performs(worlds(n), rows, WriteCall(batch[n].key, batch[n].value)) && worlds(n).hasSink;
        WriteKeepsStanding(worlds(n), c, rows, batch[n], d, before);
      }
    }
  }

  lemma {:induction false} WriteKeepsStanding(w: World, c: Config, rows: map<string, Definition>,
                                              cmd: CommandPipeline.Command, d: CommandPipeline.Drained,
                                              r: CallResult)
    requires c.attempts >= 1 && Performs(w, rows, WriteCall(cmd.key, cmd.value)) && w.hasSink && Standing(r.log)
    requires !d.broken && !CommandPipeline.IsPending(d.pending, cmd)
    ensures var after := Recovered(w, c, r);
      if CommandPipeline.DrainOne(d, cmd, ReplyOf(after.outcome)).broken then EndedBy(after) else Standing(after.log)
  {
    CallKeepsStanding(w, c, rows, WriteCall(cmd.key, cmd.value), r);
  }

  ghost predicate WritesServed(rows: map<string, Definition>, worlds: nat -> World,
                               batch: seq<CommandPipeline.Command>) {
    forall n | 0 <= n < |batch| ::
      Performs(worlds(n), rows, WriteCall(batch[n].key, batch[n].value)) && worlds(n).hasSink
  }

  // ---- One iteration of the polling loop ----------------------------------------------------------------------

  /** What the recovering inverter meets in one iteration, call by call, and the rest of the surroundings. */
  datatype Links = Links(
    write: nat -> World, config: World, sync: World, status: World,
    jumped: bool, writeTime: nat, configTime: nat, syncTime: nat, statusTime: nat,
    visits: seq<Polling.Visit>, ending: Polling.Ending)

  ghost predicate Served(rows: map<string, Definition>, links: Links, batch: seq<CommandPipeline.Command>) {
    && WritesServed(rows, links.write, batch)
    && Performs(links.config, rows, OtherCall) && links.config.hasSink
    && Performs(links.sync, rows, OtherCall) && links.sync.hasSink
    && Performs(links.status, rows, OtherCall) && links.status.hasSink
  }

  /** A call that is made only if it is due. */
  function IfDue(due: bool, w: World, c: Config, r: CallResult): CallResult {
    if due then Recovered(w, c, r) else r
  }

  predicate Went(due: bool, r: CallResult) {
    due ==> r.outcome.Success?
  }

  /** The calls of one iteration, from where the loop stands: the result of the last one, and the surroundings they
      make for runPending. */
  datatype Calls = Calls(
    drained: CommandPipeline.Drained, written: CallResult, polled: CallResult, synced: CallResult,
    finished: CallResult, around: Polling.Surroundings)

  function CallsOf(looked: Scheduler.State, settings: Scheduler.Settings, queue: seq<CommandPipeline.Command>,
                   pending: map<string, Value>, c: Config, links: Links, r: CallResult): Calls
  {
    var batch := CommandPipeline.Coalesce(queue);
    var (d, written) := DrainWith(c, links.write, r, batch, pending);
    var (polled, synced, finished, ok) :=
      CallsAfter(Polling.WriteSteps(looked, d.wrote, d.broken, links.writeTime), settings, c, links, written);
    Calls(d, written, polled, synced, finished,
          Polling.Surroundings(WriterWith(c, links.write, r, batch, pending), links.writeTime, ok.0, links.configTime,
                               links.jumped, ok.1, links.syncTime, ok.2, links.statusTime, links.visits, links.ending))
  }

  function LastResult(s: Scheduler.State, calls: Calls, r: CallResult): CallResult {
    if Polling.Looked(s).loop.pc == Scheduler.Waiting then r
    else if calls.drained.broken then calls.written
    else if !calls.around.configOk then calls.polled
    else if !calls.around.syncOk then calls.synced
    else calls.finished
  }

  lemma {:induction false} OtherCallKeepsStanding(w: World, c: Config, rows: map<string, Definition>, due: bool,
                                                  r: CallResult)
    requires c.attempts >= 1 && Performs(w, rows, OtherCall) && w.hasSink && Standing(r.log)
    ensures var after := IfDue(due, w, c, r);
      if Went(due, after) then Standing(after.log) else EndedBy(after)
  {
    if due {
      CallKeepsStanding(w, c, rows, OtherCall, r);
      RejectionSurvivesRecovery(w, c, rows, OtherCall, r.lastReset, r.log);
    }
  }

  /** The calls of an iteration, in order, up to the first that ends it. */
  lemma {:induction false} CallsKeepStanding(looked: Scheduler.State, settings: Scheduler.Settings,
                                             queue: seq<CommandPipeline.Command>, pending: map<string, Value>,
                                             c: Config, rows: map<string, Definition>, links: Links, r: CallResult)
    requires c.attempts >= 1 && Standing(r.log) && Served(rows, links, CommandPipeline.Coalesce(queue))
    ensures var calls := CallsOf(looked, settings, queue, pending, c, links, r);
      if calls.drained.broken then EndedBy(calls.written)
      else if !calls.around.configOk then EndedBy(calls.polled)
      else if !calls.around.syncOk then EndedBy(calls.synced)
      else if !calls.around.statusOk then EndedBy(calls.finished)
      else Standing(calls.finished.log)
  {
    var batch := CommandPipeline.Coalesce(queue);
    DrainKeepsStanding(c, rows, links.write, r, batch, pending);
    var (d, written) := DrainWith(c, links.write, r, batch, pending);
    if !d.broken {
      var s := Polling.WriteSteps(looked, d.wrote, false, links.writeTime);
      AfterDrainKeepsStanding(s, settings, c, rows, links, written);
    }
  }

  /** The calls after the drain. */
  function CallsAfter(s: Scheduler.State, settings: Scheduler.Settings, c: Config, links: Links, r: CallResult)
    : (CallResult, CallResult, CallResult, (bool, bool, bool))
  {
    var polled := IfDue(s.loop.l.configDue, links.config, c, r);
    var configOk := Went(s.loop.l.configDue, polled);
    var s2 := Polling.WatchSteps(Polling.ReadSteps(s, settings, configOk, links.configTime), links.jumped);
    var synced := IfDue(s2.loop.l.timeSyncDue, links.sync, c, polled);
    var syncOk := Went(s2.loop.l.timeSyncDue, synced);
    var s3 := Polling.SyncSteps(s2, syncOk, links.syncTime);
    var finished := IfDue(s3.loop.l.statusDue, links.status, c, synced);
    (polled, synced, finished, (configOk, syncOk, Went(s3.loop.l.statusDue, finished)))
  }

  lemma {:induction false} AfterDrainKeepsStanding(s: Scheduler.State, settings: Scheduler.Settings, c: Config,
                                                   rows: map<string, Definition>, links: Links, r: CallResult)
    requires c.attempts >= 1 && Standing(r.log) && Served(rows, links, [])
    ensures var (polled, synced, finished, ok) := CallsAfter(s, settings, c, links, r);
      if !ok.0 then EndedBy(polled)
      else if !ok.1 then EndedBy(synced)
      else if !ok.2 then EndedBy(finished)
      else Standing(finished.log)
  {
    OtherCallKeepsStanding(links.config, c, rows, s.loop.l.configDue, r);
    var (polled, synced, finished, ok) := CallsAfter(s, settings, c, links, r);
    var s2 := Polling.WatchSteps(Polling.ReadSteps(s, settings, ok.0, links.configTime), links.jumped);
    if ok.0 {
      OtherCallKeepsStanding(links.sync, c, rows, s2.loop.l.timeSyncDue, polled);
      if ok.1 {
        var s3 := Polling.SyncSteps(s2, ok.1, links.syncTime);
        OtherCallKeepsStanding(links.status, c, rows, s3.loop.l.statusDue, synced);
      }
    }
  }

  // ---- Runs of the loop ---------------------------------------------------------------------------------------

  /** One call of runPending, from any state the polling service may be in by then. */
  datatype Pass = Pass(
    s: Scheduler.State, queue: seq<CommandPipeline.Command>, pending: map<string, Value>, links: Links)

  ghost predicate Proper(rows: map<string, Definition>, p: Pass) {
    p.s.sh.queued == |p.queue| && Served(rows, p.links, CommandPipeline.Coalesce(p.queue))
  }

  function HoldingOf(p: Pass): Polling.Holding {
    Polling.Holding(p.s, p.queue, p.pending, [])
  }

  function CallsIn(settings: Scheduler.Settings, c: Config, p: Pass, r: CallResult): Calls {
    CallsOf(Polling.Looked(p.s), settings, p.queue, p.pending, c, p.links, r)
  }

  function AfterPass(settings: Scheduler.Settings, c: Config, p: Pass, r: CallResult): (Polling.Outcome, CallResult)
  {
    var calls := CallsIn(settings, c, p, r);
    (Polling.OneCall(HoldingOf(p), settings, calls.around).1, LastResult(p.s, calls, r))
  }

  /** The surroundings the calls make are the ones runPending's drain meets. */
  lemma {:induction false} CallsMakeTheDrain(settings: Scheduler.Settings, c: Config, p: Pass, r: CallResult)
    ensures var calls := CallsIn(settings, c, p, r);
      calls.drained == CommandPipeline.Drain(CommandPipeline.Coalesce(p.queue), p.pending, calls.around.writer)
  {
    var batch := CommandPipeline.Coalesce(p.queue);
    var writer := WriterWith(c, p.links.write, r, batch, p.pending);
    DrainWithIsDrain(c, p.links.write, r, batch, p.pending, writer, |batch|);
    assert batch[..|batch|] == batch;
  }

  /** The writes leave the loop where runPending's plan has it. */
  lemma {:induction false} DrainGoesToPlan(settings: Scheduler.Settings, c: Config, p: Pass, r: CallResult)
    requires PollingCalls.Begins(HoldingOf(p)) && !PollingCalls.NothingToDo(HoldingOf(p))
    ensures var calls := CallsIn(settings, c, p, r);
      !calls.drained.broken ==>
        PollingCalls.HasWritten(
          p.s, calls.drained, calls.around,
          Polling.WriteSteps(Polling.Looked(p.s), calls.drained.wrote, false, calls.around.writeTime))
  {
    var calls := CallsIn(settings, c, p, r);
    PollingCalls.LookFindsWork(p.s);
    CallsMakeTheDrain(settings, c, p, r);
    CommandPipeline.WroteMeansIssued(CommandPipeline.Coalesce(p.queue), p.pending, calls.around.writer);
    PollingCalls.EmptyQueueWritesNothing(HoldingOf(p), calls.around.writer);
    PollingCalls.WritesGoToPlan(p.s, Polling.Looked(p.s), settings, calls.drained, calls.around);
  }

  /** And the reads and the clock write are made over recovery exactly when runPending makes them, in its order: each
      from where the one before it left the log, up to the first that fails. */
  lemma {:induction false} CallsGoToPlan(settings: Scheduler.Settings, c: Config, p: Pass, r: CallResult)
    requires PollingCalls.Begins(HoldingOf(p)) && !PollingCalls.NothingToDo(HoldingOf(p))
    ensures var calls := CallsIn(settings, c, p, r);
      !calls.drained.broken ==> CallsFollow(c, p, calls, PollingCalls.PlanOf(p.s, calls.drained, calls.around))
  {
    DrainGoesToPlan(settings, c, p, r);
    var calls := CallsIn(settings, c, p, r);
    if !calls.drained.broken {
      var written := Polling.WriteSteps(Polling.Looked(p.s), calls.drained.wrote, false, calls.around.writeTime);
      CallsAfterGoToPlan(settings, c, p, written, calls.written, calls.drained, calls.around);
    }
  }

  lemma {:induction false} CallsAfterGoToPlan(settings: Scheduler.Settings, c: Config, p: Pass, s: Scheduler.State,
                                              r: CallResult, d: CommandPipeline.Drained, w: Polling.Surroundings)
    requires PollingCalls.HasWritten(p.s, d, w, s)
    requires var (_, _, _, ok) := CallsAfter(s, settings, c, p.links, r);
      && (w.configOk, w.syncOk, w.statusOk) == ok && w.jumped == p.links.jumped
      && w.configTime == p.links.configTime && w.syncTime == p.links.syncTime
    ensures var (polled, synced, finished, _) := CallsAfter(s, settings, c, p.links, r);
      CallsFollow(c, p, Calls(d, r, polled, synced, finished, w), PollingCalls.PlanOf(p.s, d, w))
  {
    PollingCalls.ReadGoesToPlan(p.s, s, settings, d, w);
    if w.configOk {
      var read := Polling.ReadSteps(s, settings, true, w.configTime);
      PollingCalls.WatchGoesToPlan(p.s, read, settings, d, w);
    }
  }

  ghost predicate CallsFollow(c: Config, p: Pass, calls: Calls, plan: PollingCalls.Plan) {
    && calls.polled == IfDue(plan.polls, p.links.config, c, calls.written)
    && calls.around.configOk == Went(plan.polls, calls.polled)
    && (calls.around.configOk ==>
          && calls.synced == IfDue(plan.syncs, p.links.sync, c, calls.polled)
          && calls.around.syncOk == Went(plan.syncs, calls.synced)
          && (calls.around.syncOk ==>
                && calls.finished == IfDue(PollingCalls.StatusDue(p.s), p.links.status, c, calls.synced)
                && calls.around.statusOk == Went(PollingCalls.StatusDue(p.s), calls.finished)))
  }

  lemma {:induction false} TailFails(s: Scheduler.State, settings: Scheduler.Settings, c: Config, links: Links,
                                     r: CallResult, w: Polling.Surroundings)
    requires s.loop.pc == Scheduler.AtConfig
    requires var (_, _, _, ok) := CallsAfter(s, settings, c, links, r);
      && (w.configOk, w.syncOk, w.statusOk) == ok && w.configTime == links.configTime && w.syncTime == links.syncTime
      && w.jumped == links.jumped
    ensures Polling.PollAndSync(s, settings, w).1.Fails? <==> !(w.configOk && w.syncOk && w.statusOk)
  {
    var read := Polling.ReadSteps(s, settings, w.configOk, w.configTime);
    assert read.loop.pc == Scheduler.Stopped <==> !w.configOk;
    if w.configOk {
      TailEnds(read, settings, w);
    }
  }

  lemma {:induction false} TailEnds(s: Scheduler.State, settings: Scheduler.Settings, w: Polling.Surroundings)
    requires s.loop.pc == Scheduler.AtWatchdog
    requires var watched := Polling.WatchSteps(s, w.jumped);
      && (!watched.loop.l.timeSyncDue ==> w.syncOk)
      && (!Polling.SyncSteps(watched, w.syncOk, w.syncTime).loop.l.statusDue ==> w.statusOk)
    ensures Polling.SyncAndFinish(s, settings, w).1.Fails? <==> !(w.syncOk && w.statusOk)
  {
  }

  /** runPending fails exactly when a call it makes ends it. */
  lemma {:induction false} PassFails(settings: Scheduler.Settings, c: Config, p: Pass, r: CallResult)
    requires p.s.sh.queued == |p.queue|
    ensures var calls := CallsIn(settings, c, p, r);
      AfterPass(settings, c, p, r).0.Fails?
      <==> && Polling.Looked(p.s).loop.pc != Scheduler.Waiting
           && !(!calls.drained.broken && calls.around.configOk && calls.around.syncOk && calls.around.statusOk)
  {
    PollingRuns.LookedStands(p.s);
    CallsMakeTheDrain(settings, c, p, r);
    var looked := Polling.Looked(p.s);
    var calls := CallsIn(settings, c, p, r);
    var written := Polling.WriteSteps(looked, calls.drained.wrote, calls.drained.broken, p.links.writeTime);
    if looked.loop.pc != Scheduler.Waiting {
      WorkFails(looked, settings, calls, written);
      if !calls.drained.broken {
        TailFails(written, settings, c, p.links, calls.written, calls.around);
      }
    }
  }

  lemma {:induction false} WorkFails(looked: Scheduler.State, settings: Scheduler.Settings, calls: Calls,
                                     written: Scheduler.State)
    requires looked.loop.pc == Scheduler.AtCommands && (calls.drained.broken ==> looked.loop.l.commandsDue)
    requires written == Polling.WriteSteps(looked, calls.drained.wrote, calls.drained.broken, calls.around.writeTime)
    ensures !calls.drained.broken ==> written.loop.pc == Scheduler.AtConfig
    ensures Polling.DoWork(looked, settings, calls.drained, calls.around).1.Fails?
       <==> calls.drained.broken || Polling.PollAndSync(written, settings, calls.around).1.Fails?
  {
  }

  /** An iteration that does not fail leaves the availability standing; one that fails ends the loop, having said
      "unavailable" exactly if the call that ended it failed fatally. */
  lemma {:induction false} PassKeepsStanding(settings: Scheduler.Settings, c: Config, rows: map<string, Definition>,
                                             p: Pass, r: CallResult)
    requires c.attempts >= 1 && Standing(r.log) && Proper(rows, p)
    ensures var (outcome, after) := AfterPass(settings, c, p, r);
      if outcome.Fails? then EndedBy(after) else Standing(after.log)
  {
    CallsKeepStanding(Polling.Looked(p.s), settings, p.queue, p.pending, c, rows, p.links, r);
    PassFails(settings, c, p, r);
  }

  /** An iteration that goes on, from one result to the next. */
  ghost predicate GoesOn(settings: Scheduler.Settings, c: Config, p: Pass, r: CallResult, after: CallResult) {
    AfterPass(settings, c, p, r).1 == after && !Polling.Ends(AfterPass(settings, c, p, r).0)
  }

  /** The results between the iterations of a loop that has gone on so far. */
  ghost predicate IsLoop(settings: Scheduler.Settings, c: Config, rows: map<string, Definition>, passes: seq<Pass>,
                         results: seq<CallResult>)
  {
    && |results| == |passes| + 1
    && forall i {:trigger passes[i]} | 0 <= i < |passes| ::
         Proper(rows, passes[i]) && GoesOn(settings, c, passes[i], results[i], results[i + 1])
  }

  /** Whenever the polling loop goes on to another iteration, the last availability notification, if any, is
      "available": whatever happened on the link, whatever was queued, and whatever state other goroutines left the
      service in before each iteration. */
  lemma {:induction false} StandingAvailability(settings: Scheduler.Settings, c: Config,
                                                rows: map<string, Definition>, passes: seq<Pass>,
                                                results: seq<CallResult>, n: nat)
    requires c.attempts >= 1 && IsLoop(settings, c, rows, passes, results) && n < |results|
    requires Standing(results[0].log)
    ensures Standing(results[n].log)
  {
    if n > 0 {
      StandingAvailability(settings, c, rows, passes, results, n - 1);
      IterationKeepsStanding(settings, c, rows, passes, results, n - 1);
    }
  }

  lemma {:induction false} IterationKeepsStanding(settings: Scheduler.Settings, c: Config,
                                                  rows: map<string, Definition>, passes: seq<Pass>,
                                                  results: seq<CallResult>, i: nat)
    requires c.attempts >= 1 && IsLoop(settings, c, rows, passes, results) && i < |passes| && Standing(results[i].log)
    ensures Standing(results[i + 1].log)
  {
    PassKeepsStanding(settings, c, rows, passes[i], results[i]);
  }

  /** The service starts its loops after a first connect, also with recovery, that succeeded. */
  lemma {:induction false} StandingAtStart(c: Config, rows: map<string, Definition>, w: World)
    requires c.attempts >= 1 && Performs(w, rows, OtherCall) && w.hasSink
    requires Execute(w, c, None, []).outcome.Success?
    ensures Standing(Execute(w, c, None, []).log)
  {
    OtherCallKeepsStanding(w, c, rows, true, CallResult([], None, Success));
  }
}
