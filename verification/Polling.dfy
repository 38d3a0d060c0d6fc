/** The polling service of polling.go as an object. Its methods are proved to make exactly the steps of the Scheduler
    transition system, and its drain to do what the CommandPipeline functions say. */
module Polling {
  import opened Basics
  import opened Registers
  import opened CommandPipeline
  import opened Scheduler

  /** What another goroutine does to the service, or time passing. */
  datatype Visit = Switches(enabled: bool) | AsksSync | Queues(command: Command) | Passes(time: nat)

  /** What ends the wait of a loop with nothing to do. */
  datatype Ending = ContextDone | Token | Timer(late: nat)

  /** What happens around one call of runPending: the answers of the inverter and the watchdog, how long the inverter
      calls take, and, if the call waits, who visits meanwhile and what ends the wait. */
  datatype Surroundings = Surroundings(
    writer: Writer, writeTime: nat,
    configOk: bool, configTime: nat,
    jumped: bool,
    syncOk: bool, syncTime: nat,
    statusOk: bool, statusTime: nat,
    visits: seq<Visit>, ending: Ending)

  /** runPending sleeps with its timer set to a time, or completes an iteration, or returns an error: its context's if
      that is cancelled while it waits, otherwise that of a call it made. */
  datatype Outcome = Sleeps(wait: int) | Completes | Cancelled | Fails

  /** The earliest of the deadlines that are set; None stands for the zero time. */
  function Earliest(deadlines: seq<Option<int>>): Option<int> {
    if deadlines == [] then None
    else
      var rest := Earliest(deadlines[..|deadlines| - 1]);
      match deadlines[|deadlines| - 1]
      case None => rest
      case Some(d) => if rest.None? || d < rest.value then Some(d) else rest
  }

  method EarliestDeadline(deadlines: seq<Option<int>>) returns (earliest: Option<int>)
    ensures earliest == Earliest(deadlines)
  {
    earliest := None;
    for index := 0 to |deadlines|
      invariant earliest == Earliest(deadlines[..index])
    {
      assert deadlines[..index + 1][..index] == deadlines[..index];
      var deadline := deadlines[index];
      if deadline.Some? && (earliest.None? || deadline.value < earliest.value) {
        earliest := deadline;
      }
    }
    assert deadlines[..|deadlines|] == deadlines;
  }

  /** The result is one of the deadlines that are set and no later than any of them. */
  lemma {:induction false} EarliestIsLeast(deadlines: seq<Option<int>>)
    ensures Earliest(deadlines).Some? ==> Earliest(deadlines) in deadlines
    ensures forall i | 0 <= i < |deadlines| && deadlines[i].Some? ::
              Earliest(deadlines).Some? && Earliest(deadlines).value <= deadlines[i].value
  {
    if deadlines != [] {
      EarliestIsLeast(deadlines[..|deadlines| - 1]);
    }
  }

  lemma {:induction false} EarliestIsNext(d: Deadlines, enabled: bool)
    ensures var config := if enabled then Some(d.config) else None;
      var status := if enabled then Some(d.status) else None;
      Earliest([config, status, Some(d.watchdog), Some(d.timeSync)]) == Some(NextDeadline(d, enabled))
  {
    var config := if enabled then Some(d.config) else None;
    var status := if enabled then Some(d.status) else None;
    var all := [config, status, Some(d.watchdog), Some(d.timeSync)];
    EarliestIsLeast(all);
    assert all[2] == Some(d.watchdog) && all[3] == Some(d.timeSync);
    if enabled {
      assert all[0] == Some(d.config) && all[1] == Some(d.status);
    }
  }

  class PollingService {
    const settings: Settings
    var now: int                      // what now() answers
    var commands: seq<Command>
    var pendingWrites: map<string, Value>
    var latestCommands: map<string, Command>
    var commandOrder: seq<string>
    var commandBatch: seq<Command>
    var timeSyncRequests: bool
    var wake: bool
    var pollingEnabled: bool
    var pollingVersion: nat
    var observedVersion: nat
    var configDeadline: int
    var statusDeadline: int
    var watchdogDeadline: int
    var timeSyncDeadline: int
    var locals: Locals                // the local variables of runPending

    ghost var state: State            // where the service stands in the transition system
    ghost var issued: seq<Command>    // the acknowledged writes, in order

    /** The fields hold what the state says. */
    ghost predicate Valid()
      reads this
    {
      FieldsAgree() && state.sh.queued == |commands|
    }

    /** All but the queue. */
    ghost predicate FieldsAgree()
      reads `state, `now, `timeSyncRequests, `wake, `pollingEnabled, `pollingVersion, `observedVersion, `locals,
            `configDeadline, `statusDeadline, `watchdogDeadline, `timeSyncDeadline
    {
      && state.sh.clock == now
      && state.sh.syncToken == timeSyncRequests && state.sh.wake == wake
      && state.sh.enabled == pollingEnabled && state.sh.version == pollingVersion
      && state.sh.setter == Idle
      && state.loop.l == locals && state.loop.observed == observedVersion
      && state.loop.deadlines == Deadlines(configDeadline, statusDeadline, watchdogDeadline, timeSyncDeadline)
    }

    /** The state, the queue, the pending and the acknowledged writes. */
    ghost function Held(): Holding
      reads this
    {
      Holding(state, commands, pendingWrites, issued)
    }

    /** NewPollingService and Start. */
    constructor (settings: Settings, now: int)
      ensures Valid() && this.settings == settings && state == Started(now)
      ensures commands == [] && pendingWrites == map[] && issued == []
    {
      this.settings, this.now := settings, now;
      commands, pendingWrites, latestCommands, commandOrder, commandBatch := [], map[], map[], [], [];
      timeSyncRequests, wake, pollingEnabled, pollingVersion, observedVersion := false, false, false, 0, 0;
      configDeadline, statusDeadline, watchdogDeadline, timeSyncDeadline := now, now, now + WATCHDOG_INTERVAL, now;
      locals := Locals(now, false, 0, false, false, false, false, false);
      state, issued := Started(now), [];
    }

    /** A send on a channel of capacity one that never blocks. */
    method SignalWake()
      modifies this`wake
      ensures wake
    {
      wake := true;
    }

    /** SetPollingEnabled, as the MQTT service calls it when its connection comes or goes: swap, count a rise,
        signal. */
    method SetPollingEnabled(enabled: bool)
      requires Valid()
      modifies `pollingEnabled, `pollingVersion, `wake, `state
      ensures Valid() && state == SetSteps(old(state), enabled)
      ensures pollingEnabled == enabled && wake
      ensures pollingVersion == old(pollingVersion) + if enabled && !old(pollingEnabled) then 1 else 0
    {
      var wasEnabled := pollingEnabled;
      pollingEnabled := enabled;
      if enabled && !wasEnabled {
        pollingVersion := pollingVersion + 1;
      }
      SignalWake();
      state := SetSteps(state, enabled);
    }

    method RequestTimeSync()
      requires Valid()
      modifies `timeSyncRequests, `wake, `state
      ensures Valid() && state == RequestSteps(old(state)) && timeSyncRequests && wake
    {
      RaiseTimeSync();
      state := RequestSteps(state);
    }

    /** The channel operations of RequestTimeSync. */
    method RaiseTimeSync()
      modifies `timeSyncRequests, `wake
      ensures timeSyncRequests && wake
    {
      timeSyncRequests := true;
      SignalWake();
    }

    /** A full queue refuses the command and changes nothing. */
    method QueueConfigWrite(key: string, value: Value) returns (ok: bool)
      requires Valid()
      modifies `commands, `wake, `state
      ensures Valid() && (ok <==> |old(commands)| < COMMAND_QUEUE_SIZE)
      ensures commands == if ok then old(commands) + [Command(key, value)] else old(commands)
      ensures state == (if ok then EnqueueSteps(old(state)) else old(state)) && wake == (ok || old(wake))
    {
      if |commands| >= COMMAND_QUEUE_SIZE {
        return false;
      }
      commands := commands + [Command(key, value)];
      SignalWake();
      state := EnqueueSteps(state);
      ok := true;
    }

    /** takeLatestConfigCommands: empty the queue into a map of latest commands and the order of their keys. */
    method TakeLatestConfigCommands() returns (batch: seq<Command>)
      modifies this`commands, this`latestCommands, this`commandOrder, this`commandBatch
      ensures commands == [] && batch == Coalesce(old(commands))
    {
      var count := |commands|;
      if count == 0 {
        return [];
      }
      latestCommands, commandOrder, commandBatch := map[], [], [];
      ghost var queued := commands;
      for taken := 0 to count
        invariant commands == queued[taken..]
        invariant latestCommands == LatestByKey(queued[..taken]) && commandOrder == FirstKeys(queued[..taken])
        invariant commandBatch == []
      {
        var command := commands[0];
        commands := commands[1..];
        assert queued[..taken + 1][..taken] == queued[..taken];
        SameKeys(queued[..taken]);
        if command.key !in latestCommands {
          commandOrder := commandOrder + [command.key];
        }
        latestCommands := latestCommands[command.key := command];
      }
      assert queued[..count] == queued;
      SameKeys(queued);
      for index := 0 to |commandOrder|
        invariant commandOrder == FirstKeys(queued) && latestCommands == LatestByKey(queued) && commands == []
        invariant |commandBatch| == index && forall i | 0 <= i < index :: commandBatch[i] == Coalesce(queued)[i]
      {
        commandBatch := commandBatch + [latestCommands[commandOrder[index]]];
      }
      batch := commandBatch;
    }

    /** The writes acknowledged since an earlier point. */
    ghost function NewlyIssued(earlier: seq<Command>): seq<Command>
      reads `issued
    {
      if |earlier| <= |issued| then issued[|earlier|..] else []
    }

    /** drainCommands. */
    method DrainCommands(writer: Writer) returns (wroteConfig: bool, broken: bool)
      modifies this`commands, this`latestCommands, this`commandOrder, this`commandBatch, this`pendingWrites, this`issued
      ensures commands == []
      ensures var d := DrainOf(old(Held()), writer);
        pendingWrites == d.pending && issued == old(issued) + d.issued && wroteConfig == d.wrote && broken == d.broken
    {
      var batch := TakeLatestConfigCommands();
      wroteConfig, broken := WriteBatch(batch, writer);
    }

    /** The loop of drainCommands over the batch taken. */
    method WriteBatch(batch: seq<Command>, writer: Writer) returns (wroteConfig: bool, broken: bool)
      modifies `pendingWrites, `issued
      ensures Drain(batch, old(pendingWrites), writer)
           == Drained(NewlyIssued(old(issued)), pendingWrites, wroteConfig, broken)
      ensures issued == old(issued) + NewlyIssued(old(issued))
    {
      wroteConfig, broken := false, false;
      for index := 0 to |batch|
        invariant issued == old(issued) + NewlyIssued(old(issued))
        invariant Drain(batch[..index], old(pendingWrites), writer)
               == Drained(NewlyIssued(old(issued)), pendingWrites, wroteConfig, false)
      {
        var command := batch[index];
        assert batch[..index + 1][..index] == batch[..index];
        if command.key in pendingWrites && pendingWrites[command.key] == command.value {
          continue;
        }
        match writer(index, command)
        case Refused =>
        case Broken =>
          BrokenStays(batch, old(pendingWrites), writer, index + 1);
          return wroteConfig, true;
        case Acknowledged =>
          wroteConfig := true;
          pendingWrites := pendingWrites[command.key := command.value];
          issued := issued + [command];
      }
      assert batch[..|batch|] == batch;
    }

    /** Run, for as many rounds as are given: other goroutines visit, the context is checked, runPending is called. */
    method Run(rounds: seq<Round>) returns (outcome: Outcome)
      requires Valid() && state.loop.pc == Top
      modifies this
      ensures Valid() && (Held(), outcome) == RunRounds(old(Held()), settings, rounds)
    {
      for i := 0 to |rounds|
        invariant Valid() && state.loop.pc == Top
        invariant RunRounds(old(Held()), settings, rounds) == RunRounds(Held(), settings, rounds[i..])
      {
        assert rounds[i..][1..] == rounds[i + 1..];
        outcome := DoRound(rounds[i]);
        if Ends(outcome) {
          return outcome;
        }
      }
      outcome := Completes;
    }

    method DoRound(round: Round) returns (outcome: Outcome)
      requires Valid() && state.loop.pc == Top
      modifies this
      ensures Valid() && (Held(), outcome) == OneRound(old(Held()), settings, round)
      ensures Ends(outcome) || state.loop.pc == Top
    {
      ReceiveAll(round.visits);
      if round.cancelled {
        state := Stop(state);
        return Cancelled;
      }
      outcome := RunPending(round.around);
    }

    /** One call of runPending. */
    method RunPending(w: Surroundings) returns (outcome: Outcome)
      requires Valid() && state.loop.pc == Top
      modifies `observedVersion, `commands, `latestCommands, `commandOrder, `commandBatch, `pendingWrites, `issued,
               `now, `configDeadline, `statusDeadline, `watchdogDeadline, `timeSyncDeadline,
               `timeSyncRequests, `wake, `pollingEnabled, `pollingVersion, `locals, `state
      ensures Valid() && (Ends(outcome) || state.loop.pc == Top)
      ensures (Held(), outcome) == OneCall(old(Held()), settings, w)
    {
      Open();
      if WorkDue(locals) {
        outcome := Work(w);
      } else {
        outcome := Wait(w);
      }
    }

    /** The wait of a loop with nothing to do. */
    method Wait(w: Surroundings) returns (outcome: Outcome)
      requires Valid() && state.loop.pc == Waiting
      modifies `commands, `now, `timeSyncRequests, `wake, `pollingEnabled, `pollingVersion, `state
      ensures Valid() && (outcome.Sleeps? ==> state.loop.pc == Top) && !outcome.Completes?
      ensures (Held(), outcome) == WaitingCall(old(Held()), w)
    {
      var wait := UntilDeadline();
      ReceiveAll(w.visits);
      SelectOne(w.ending);
      outcome := if w.ending.ContextDone? then Cancelled else Sleeps(wait);
    }

    /** The select itself. */
    method SelectOne(ending: Ending)
      requires Valid()
      modifies `now, `wake, `state
      ensures Valid() && state == EndWait(old(state), ending) && (!ending.ContextDone? ==> state.loop.pc == Top)
      ensures wake == (old(wake) && !ending.Token?) && (ending.Token? && old(wake) ==> now == old(now))
    {
      if ending.Token? && wake {
        wake := false;
      } else if !ending.ContextDone? {
        var wait := UntilDeadline();
        now := Max(now, locals.now + wait) + if ending.Timer? then ending.late else 0;
      }
      state := EndWait(state, ending);
    }

    method ReceiveAll(visits: seq<Visit>)
      requires Valid()
      modifies `commands, `now, `timeSyncRequests, `wake, `pollingEnabled, `pollingVersion, `state
      ensures Valid() && state == Visited(old(state), visits) && commands == QueueAfter(old(commands), visits)
      ensures state.loop == old(state).loop
    {
      for i := 0 to |visits|
        invariant Valid() && state == Visited(old(state), visits[..i])
        invariant commands == QueueAfter(old(commands), visits[..i]) && state.loop == old(state).loop
      {
        assert visits[..i + 1][..i] == visits[..i];
        Receive(visits[i]);
      }
      assert visits[..|visits|] == visits;
    }

    method Receive(visit: Visit)
      requires Valid()
      modifies `commands, `now, `timeSyncRequests, `wake, `pollingEnabled, `pollingVersion, `state
      ensures Valid() && state == VisitSteps(old(state), visit) && commands == QueueVisit(old(commands), visit)
      ensures state.loop == old(state).loop
    {
      match visit
      case Switches(enabled) => SetPollingEnabled(enabled);
      case AsksSync => RequestTimeSync();
      case Queues(command) => var _ := QueueConfigWrite(command.key, command.value);
      case Passes(time) =>
        now := now + time;
        state := VisitSteps(state, visit);
    }

    /** Find out what is due. */
    method Open()
      requires Valid() && state.loop.pc == Top
      modifies `observedVersion, `timeSyncRequests, `locals, `state
      ensures Valid() && Held() == old(Held()).(s := Looked(old(state)))
      ensures state.loop.pc == if WorkDue(locals) then AtCommands else Waiting
      ensures locals.commandsDue <==> commands != []
    {
      Look();
      TakeRequest();
    }

    /** The opening of runPending: read the clock, the switch, the version and the queue. */
    method Look()
      requires Valid() && state.loop.pc == Top
      modifies `observedVersion, `locals, `state
      ensures Valid() && state == LookSteps(old(state)) && state.loop.pc == Selecting
    {
      var configDue := pollingEnabled && configDeadline <= now;
      var watchdogDue := watchdogDeadline <= now;
      var timeSyncDue := timeSyncDeadline <= now;
      var statusDue := pollingEnabled && statusDeadline <= now;
      if pollingEnabled && pollingVersion != observedVersion {
        configDue, statusDue := true, true;
        observedVersion := pollingVersion;
      }
      locals :=
        Locals(now, pollingEnabled, pollingVersion, |commands| > 0, configDue, watchdogDue, timeSyncDue, statusDue);
      state := LookSteps(state);
    }

    /** Take a time-sync request if there is one, and decide whether to work or to wait. */
    method TakeRequest()
      requires Valid() && state.loop.pc == Selecting
      modifies `timeSyncRequests, `locals, `state
      ensures Valid() && state == TakeRequestSteps(old(state))
      ensures state.loop.pc == (if WorkDue(locals) then AtCommands else Waiting)
      ensures locals.commandsDue == old(locals.commandsDue)
    {
      if timeSyncRequests {
        timeSyncRequests := false;
        locals := locals.(timeSyncDue := true);
      }
      state := TakeRequestSteps(state);
    }

    method UntilDeadline() returns (wait: int)
      requires Valid()
      ensures wait == TimeLeft(state.loop)
    {
      var config := if locals.enabled then Some(configDeadline) else None;
      var status := if locals.enabled then Some(statusDeadline) else None;
      var next := EarliestDeadline([config, status, Some(watchdogDeadline), Some(timeSyncDeadline)]);
      EarliestIsNext(state.loop.deadlines, locals.enabled);
      wait := next.value - locals.now;
    }

    /** The rest of runPending once there is work. */
    method Work(w: Surroundings) returns (outcome: Outcome)
      requires Valid() && state.loop.pc == AtCommands && (locals.commandsDue <==> commands != [])
      modifies `commands, `latestCommands, `commandOrder, `commandBatch, `pendingWrites, `issued,
               `now, `configDeadline, `statusDeadline, `watchdogDeadline, `timeSyncDeadline,
               `timeSyncRequests, `wake, `locals, `state
      ensures Valid() && (Held(), outcome) == WorkingCall(old(Held()), settings, w)
      ensures outcome.Fails? || (outcome.Completes? && state.loop.pc == Top)
    {
      outcome := DoPhases(w);
    }

    method DoPhases(w: Surroundings) returns (outcome: Outcome)
      requires Valid() && state.loop.pc == AtCommands && (locals.commandsDue <==> commands != [])
      modifies `commands, `latestCommands, `commandOrder, `commandBatch, `pendingWrites, `issued,
               `now, `configDeadline, `statusDeadline, `watchdogDeadline, `timeSyncDeadline,
               `timeSyncRequests, `wake, `locals, `state
      ensures Valid() && (state, outcome) == DoWork(old(state), settings, DrainOf(old(Held()), w.writer), w)
      ensures outcome.Fails? || (outcome.Completes? && state.loop.pc == Top)
      ensures commands == [] && issued == old(issued) + DrainOf(old(Held()), w.writer).issued
      ensures pendingWrites == Remaining(old(state), DrainOf(old(Held()), w.writer), w)
    {
      var ok := WritePhase(w);
      if !ok { return Fails; }
      outcome := PollAndSynchronise(w);
    }

    /** From the configuration phase on. */
    method PollAndSynchronise(w: Surroundings) returns (outcome: Outcome)
      requires Valid() && state.loop.pc == AtConfig
      modifies `pendingWrites, `now, `configDeadline, `statusDeadline, `watchdogDeadline, `timeSyncDeadline,
               `timeSyncRequests, `wake, `locals, `state
      ensures Valid() && (state, outcome) == PollAndSync(old(state), settings, w)
      ensures outcome.Fails? || (outcome.Completes? && state.loop.pc == Top)
      ensures pendingWrites == if old(locals.configDue) then map[] else old(pendingWrites)
    {
      var ok := ReadPhase(w);
      if !ok { return Fails; }
      outcome := SynchroniseAndFinish(w);
    }

    /** From the watchdog phase on. */
    method SynchroniseAndFinish(w: Surroundings) returns (outcome: Outcome)
      requires Valid() && state.loop.pc == AtWatchdog
      modifies `now, `statusDeadline, `watchdogDeadline, `timeSyncDeadline, `timeSyncRequests, `wake, `locals, `state
      ensures Valid() && (state, outcome) == SyncAndFinish(old(state), settings, w)
      ensures outcome.Fails? || (outcome.Completes? && state.loop.pc == Top)
    {
      WatchPhase(w);
      var ok := SyncPhase(w);
      if !ok { return Fails; }
      ok := StatusPhase(w);
      outcome := if ok then Completes else Fails;
    }

    /** The command phase. */
    method WritePhase(w: Surroundings) returns (ok: bool)
      requires Valid() && state.loop.pc == AtCommands && (locals.commandsDue <==> commands != [])
      modifies `commands, `latestCommands, `commandOrder, `commandBatch, `pendingWrites, `issued, `now,
               `configDeadline, `locals, `state
      ensures Valid() && (ok <==> state.loop.pc != Stopped)
      ensures var d := DrainOf(old(Held()), w.writer);
        && state == WriteSteps(old(state), d.wrote, d.broken, w.writeTime)
        && commands == [] && pendingWrites == d.pending && issued == old(issued) + d.issued
    {
      if locals.commandsDue {
        ok := DrainPhase(w);
      } else {
        assert Coalesce(commands) == [];
        state := WriteSteps(state, false, false, w.writeTime);
        ok := true;
      }
    }

    method DrainPhase(w: Surroundings) returns (ok: bool)
      requires Valid() && state.loop.pc == AtCommands && locals.commandsDue
      modifies `commands, `latestCommands, `commandOrder, `commandBatch, `pendingWrites, `issued, `now,
               `configDeadline, `locals, `state
      ensures Valid() && (ok <==> state.loop.pc != Stopped)
      ensures var d := DrainOf(old(Held()), w.writer);
        && state == WriteSteps(old(state), d.wrote, d.broken, w.writeTime)
        && commands == [] && pendingWrites == d.pending && issued == old(issued) + d.issued
    {
      var wroteConfig, broken := DrainCommands(w.writer);
      SettleWrites(w.writeTime, wroteConfig, broken);
      ok := !broken;
    }

    /** The writes took their time; after a write the configuration is not polled now but read back later. */
    method SettleWrites(elapsed: nat, wroteConfig: bool, broken: bool)
      requires FieldsAgree() && locals.commandsDue && commands == []
      modifies `now, `configDeadline, `locals, `state
      ensures Valid() && state == WriteSteps(old(state), wroteConfig, broken, elapsed)
    {
      if wroteConfig && !broken {
        ScheduleReadback(elapsed);
      } else {
        now := now + elapsed;
        state := WriteSteps(state, wroteConfig, broken, elapsed);
      }
    }

    method ScheduleReadback(elapsed: nat)
      requires FieldsAgree() && locals.commandsDue && commands == []
      modifies `now, `configDeadline, `locals, `state
      ensures Valid() && state == WriteSteps(old(state), true, false, elapsed)
    {
      now := now + elapsed;
      configDeadline := now + CONFIG_READBACK_DELAY;
      locals := locals.(configDue := false);
      state := WriteSteps(state, true, false, elapsed);
    }

    /** The configuration phase: a poll forgets the pending writes whether or not it succeeds. */
    method ReadPhase(w: Surroundings) returns (ok: bool)
      requires Valid() && state.loop.pc == AtConfig
      modifies `pendingWrites, `now, `configDeadline, `state
      ensures Valid() && state == ReadSteps(old(state), settings, w.configOk, w.configTime)
      ensures ok <==> state.loop.pc == AtWatchdog
      ensures pendingWrites == if locals.configDue then map[] else old(pendingWrites)
    {
      ok := true;
      if locals.configDue {
        now := now + w.configTime;
        pendingWrites := map[];
        if w.configOk {
          configDeadline := now + settings.configInterval;
        } else {
          ok := false;
        }
      }
      state := ReadSteps(state, settings, w.configOk, w.configTime);
    }

    /** The watchdog phase: a clock jump becomes a time-sync request for the next iteration. */
    method WatchPhase(w: Surroundings)
      requires Valid() && state.loop.pc == AtWatchdog
      modifies `watchdogDeadline, `timeSyncRequests, `wake, `locals, `state
      ensures Valid() && state == WatchSteps(old(state), w.jumped) && state.loop.pc == AtSync
    {
      if locals.watchdogDue {
        watchdogDeadline := now + WATCHDOG_INTERVAL;
        if w.jumped {
          RaiseTimeSync();
          locals := locals.(timeSyncDue := false);
        }
      }
      state := WatchSteps(state, w.jumped);
    }

    /** The time-sync phase. */
    method SyncPhase(w: Surroundings) returns (ok: bool)
      requires Valid() && state.loop.pc == AtSync
      modifies `timeSyncRequests, `now, `timeSyncDeadline, `state
      ensures Valid() && state == SyncSteps(old(state), w.syncOk, w.syncTime)
      ensures ok <==> state.loop.pc == AtStatus
    {
      ok := true;
      if locals.timeSyncDue {
        timeSyncRequests := false;
        now := now + w.syncTime;
        timeSyncDeadline := now + SYNC_TIME_INTERVAL;
        ok := w.syncOk;
      }
      state := SyncSteps(state, w.syncOk, w.syncTime);
    }

    /** The status phase, which ends the iteration. */
    method StatusPhase(w: Surroundings) returns (ok: bool)
      requires Valid() && state.loop.pc == AtStatus
      modifies `now, `statusDeadline, `state
      ensures Valid() && state == StatusSteps(old(state), settings, w.statusOk, w.statusTime)
      ensures state.loop.pc == if ok then Top else Stopped
    {
      ok := true;
      if locals.statusDue {
        now := now + w.statusTime;
        statusDeadline := now + settings.statusInterval;
        ok := w.statusOk;
      }
      state := StatusSteps(state, settings, w.statusOk, w.statusTime);
    }
  }

  // ---- The steps each method makes ----------------------------------------------------------------------------

  function SetSteps(s: State, enabled: bool): State {
    var rise := if enabled && !s.sh.enabled then 1 else 0;
    s.(sh := s.sh.(connected := enabled, enabled := enabled, version := s.sh.version + rise, wake := true),
       past := s.past.(rises := s.past.rises + rise))
  }

  function RequestSteps(s: State): State {
    s.(sh := s.sh.(syncToken := true, wake := true), past := Requested(s.past))
  }

  function EnqueueSteps(s: State): State {
    s.(sh := s.sh.(queued := s.sh.queued + 1, wake := true))
  }

  function LookSteps(s: State): State {
    var l := s.loop.l.(now := s.sh.clock, enabled := s.sh.enabled, version := s.sh.version);
    s.(loop := QueueLoaded(s.loop.(l := l), s.sh.queued))
  }

  function TakeRequestSteps(s: State): State {
    s.(sh := s.sh.(syncToken := false), loop := Selected(s.loop, s.sh.syncToken))
  }

  function WriteSteps(s: State, wrote: bool, broken: bool, elapsed: nat): State {
    if !s.loop.l.commandsDue then s.(loop := s.loop.(pc := AtConfig))
    else
      var clock := s.sh.clock + elapsed;
      s.(sh := s.sh.(queued := 0, clock := clock), loop := WritesFinished(s.loop, clock, wrote, !broken))
  }

  function ReadSteps(s: State, c: Settings, ok: bool, elapsed: nat): State {
    var clock := if s.loop.l.configDue then s.sh.clock + elapsed else s.sh.clock;
    s.(sh := s.sh.(clock := clock), loop := ConfigPolled(s.loop, clock, c, ok))
  }

  function WatchSteps(s: State, jumped: bool): State {
    var checked := WatchdogChecked(s.loop, s.sh.clock, jumped);
    if s.loop.l.watchdogDue && jumped then
      State(s.sh.(syncToken := true, wake := true),
            checked.(pc := AtSync, l := checked.l.(timeSyncDue := false)), Requested(s.past))
    else s.(loop := checked)
  }

  function SyncSteps(s: State, ok: bool, elapsed: nat): State {
    if !s.loop.l.timeSyncDue then s.(loop := s.loop.(pc := AtStatus))
    else
      var clock := s.sh.clock + elapsed;
      State(s.sh.(syncToken := false, clock := clock),
            s.loop.(deadlines := s.loop.deadlines.(timeSync := clock + SYNC_TIME_INTERVAL),
                    pc := if ok then AtStatus else Stopped),
            s.past.(stamp := s.past.stamp + 1, lastSync := s.past.stamp + 1))
  }

  function StatusSteps(s: State, c: Settings, ok: bool, elapsed: nat): State {
    var clock := if s.loop.l.statusDue then s.sh.clock + elapsed else s.sh.clock;
    s.(sh := s.sh.(clock := clock), loop := StatusPolled(s.loop, clock, c, ok))
  }

  function VisitSteps(s: State, visit: Visit): State {
    match visit
    case Switches(enabled) => SetSteps(s, enabled)
    case AsksSync => RequestSteps(s)
    case Queues(_) => if s.sh.queued < COMMAND_QUEUE_SIZE then EnqueueSteps(s) else s
    case Passes(time) => s.(sh := s.sh.(clock := s.sh.clock + time))
  }

  function Visited(s: State, visits: seq<Visit>): State {
    if visits == [] then s else VisitSteps(Visited(s, visits[..|visits| - 1]), visits[|visits| - 1])
  }

  function QueueVisit(queue: seq<Command>, visit: Visit): seq<Command> {
    if visit.Queues? && |queue| < COMMAND_QUEUE_SIZE then queue + [visit.command] else queue
  }

  function QueueAfter(queue: seq<Command>, visits: seq<Visit>): seq<Command> {
    if visits == [] then queue else QueueVisit(QueueAfter(queue, visits[..|visits| - 1]), visits[|visits| - 1])
  }

  /** When the timer's tick is noticed. */
  function TimerTime(s: State, ending: Ending): int {
    Max(s.sh.clock, NextDeadline(s.loop.deadlines, s.loop.l.enabled)) + if ending.Timer? then ending.late else 0
  }

  function Stop(s: State): State {
    s.(loop := s.loop.(pc := Stopped))
  }

  /** A wake-up takes the token; without one, waiting for it ends with the timer. */
  function EndWait(s: State, ending: Ending): State {
    if ending.ContextDone? then Stop(s)
    else if ending.Token? && s.sh.wake then s.(sh := s.sh.(wake := false), loop := s.loop.(pc := Top))
    else s.(sh := s.sh.(clock := TimerTime(s, ending)), loop := s.loop.(pc := Top))
  }

  function Looked(s: State): State {
    TakeRequestSteps(LookSteps(s))
  }

  datatype Holding = Holding(s: State, queue: seq<Command>, pending: map<string, Value>, issued: seq<Command>)

  function DrainOf(h: Holding, writer: Writer): Drained {
    Drain(Coalesce(h.queue), h.pending, writer)
  }

  /** One call of runPending: look, then wait or work. */
  function OneCall(h: Holding, c: Settings, w: Surroundings): (Holding, Outcome) {
    var looked := h.(s := Looked(h.s));
    if looked.s.loop.pc == Waiting then WaitingCall(looked, w) else WorkingCall(looked, c, w)
  }

  function WaitingCall(h: Holding, w: Surroundings): (Holding, Outcome) {
    var visited := VisitedHolding(h, w.visits);
    (visited.(s := EndWait(visited.s, w.ending)),
     if w.ending.ContextDone? then Cancelled else Sleeps(TimeLeft(h.s.loop)))
  }

  /** How long the timer of a waiting loop runs. */
  function TimeLeft(loop: Loop): int {
    NextDeadline(loop.deadlines, loop.l.enabled) - loop.l.now
  }

  function WorkingCall(h: Holding, c: Settings, w: Surroundings): (Holding, Outcome) {
    var d := DrainOf(h, w.writer);
    var (s, outcome) := DoWork(h.s, c, d, w);
    (Holding(s, [], Remaining(h.s, d, w), h.issued + d.issued), outcome)
  }

  /** One round of Run: who visits before it, whether the context has been cancelled by then, and the call. */
  datatype Round = Round(visits: seq<Visit>, cancelled: bool, around: Surroundings)

  function VisitedHolding(h: Holding, visits: seq<Visit>): Holding {
    h.(s := Visited(h.s, visits), queue := QueueAfter(h.queue, visits))
  }

  predicate Ends(outcome: Outcome) { outcome.Fails? || outcome.Cancelled? }

  function OneRound(h: Holding, c: Settings, round: Round): (Holding, Outcome) {
    var visited := VisitedHolding(h, round.visits);
    if round.cancelled then (visited.(s := Stop(visited.s)), Cancelled) else OneCall(visited, c, round.around)
  }

  function RunRounds(h: Holding, c: Settings, rounds: seq<Round>): (Holding, Outcome)
    decreases rounds
  {
    if rounds == [] then (h, Completes)
    else
      var (after, outcome) := OneRound(h, c, rounds[0]);
      if Ends(outcome) then (after, outcome) else RunRounds(after, c, rounds[1..])
  }

  function DoWork(s: State, c: Settings, d: Drained, w: Surroundings): (State, Outcome) {
    var written := WriteSteps(s, d.wrote, d.broken, w.writeTime);
    if written.loop.pc == Stopped then (written, Fails) else PollAndSync(written, c, w)
  }

  /** The pending writes after the work of an iteration: a configuration poll, reached and due, has cleared them. */
  function Remaining(s: State, d: Drained, w: Surroundings): map<string, Value> {
    var written := WriteSteps(s, d.wrote, d.broken, w.writeTime).loop;
    if written.pc != Stopped && written.l.configDue then map[] else d.pending
  }

  /** From the configuration phase on. */
  function PollAndSync(s: State, c: Settings, w: Surroundings): (State, Outcome) {
    var read := ReadSteps(s, c, w.configOk, w.configTime);
    if read.loop.pc == Stopped then (read, Fails) else SyncAndFinish(read, c, w)
  }

  /** From the watchdog phase on. */
  function SyncAndFinish(s: State, c: Settings, w: Surroundings): (State, Outcome) {
    var synced := SyncSteps(WatchSteps(s, w.jumped), w.syncOk, w.syncTime);
    if synced.loop.pc == Stopped then (synced, Fails)
    else
      var polled := StatusSteps(synced, c, w.statusOk, w.statusTime);
      (polled, if polled.loop.pc == Stopped then Fails else Completes)
  }
}
