/** The methods of the polling service as runs: each is a path of the Scheduler transition system, so what holds of
    all its runs holds of the object. */
module PollingRuns {
  import opened Basics
  import opened CommandPipeline
  import opened Scheduler
  import opened Polling

  /** The transition system can go from one state to the other. */
  ghost predicate Reaches(s: State, c: Settings, s': State) {
    exists path: seq<State> :: IsPath(s, c, path, s')
  }

  ghost predicate IsPath(s: State, c: Settings, path: seq<State>, s': State) {
    && path != [] && path[0] == s && path[|path| - 1] == s'
    && forall i | 0 <= i < |path| - 1 :: OneStep(path[i], c, path[i + 1])
  }

  ghost predicate OneStep(s: State, c: Settings, s': State) {
    exists a: Action :: Enabled(s, a) && s' == Step(s, c, a)
  }

  lemma {:induction false} ReachesItself(s: State, c: Settings)
    ensures Reaches(s, c, s)
  {
    assert IsPath(s, c, [s], s);
  }

  lemma {:induction false} ReachesStep(s: State, c: Settings, mid: State, a: Action)
    requires Reaches(s, c, mid) && Enabled(mid, a)
    ensures Reaches(s, c, Step(mid, c, a))
  {
    var path :| IsPath(s, c, path, mid);
    var next := Step(mid, c, a);
    assert OneStep(mid, c, next);
    assert IsPath(s, c, path + [next], next);
  }

  lemma {:induction false} SetReaches(s0: State, s: State, c: Settings, enabled: bool)
    requires Reaches(s0, c, s) && s.sh.setter == Idle
    ensures Reaches(s0, c, SetSteps(s, enabled))
  {
    ReachesStep(s0, c, s, BeginSet(enabled));
    var begun := Step(s, c, BeginSet(enabled));
    ReachesStep(s0, c, begun, Swap);
    var swapped := Step(begun, c, Swap);
    if swapped.sh.setter == Adding {
      ReachesStep(s0, c, swapped, AddVersion);
      ReachesStep(s0, c, Step(swapped, c, AddVersion), SignalSet);
    } else {
      ReachesStep(s0, c, swapped, SignalSet);
    }
  }

  lemma {:induction false} RequestReaches(s0: State, s: State, c: Settings)
    requires Reaches(s0, c, s)
    ensures Reaches(s0, c, RequestSteps(s))
  {
    ReachesStep(s0, c, s, RequestSync);
    ReachesStep(s0, c, Step(s, c, RequestSync), Signal);
  }

  lemma {:induction false} EnqueueReaches(s0: State, s: State, c: Settings)
    requires Reaches(s0, c, s) && s.sh.queued < COMMAND_QUEUE_SIZE
    ensures Reaches(s0, c, EnqueueSteps(s))
  {
    ReachesStep(s0, c, s, Enqueue);
    ReachesStep(s0, c, Step(s, c, Enqueue), Signal);
  }

  // ---- Visits and waits ---------------------------------------------------------------------------------------

  /** The MQTT mutex is free and the queue is as long as the state says, as in every Valid service. */
  ghost predicate Ready(h: Holding) {
    h.s.sh.setter == Idle && h.s.sh.queued == |h.queue|
  }

  lemma {:induction false} VisitReaches(s0: State, h: Holding, c: Settings, visit: Visit)
    requires Reaches(s0, c, h.s) && Ready(h)
    ensures var t := VisitSteps(h.s, visit);
      Reaches(s0, c, t) && t.loop == h.s.loop && Ready(Holding(t, QueueVisit(h.queue, visit), h.pending, h.issued))
  {
    match visit
    case Switches(enabled) => SetReaches(s0, h.s, c, enabled);
    case AsksSync => RequestReaches(s0, h.s, c);
    case Queues(_) =>
      if h.s.sh.queued < COMMAND_QUEUE_SIZE {
        EnqueueReaches(s0, h.s, c);
      }
    case Passes(time) => ReachesStep(s0, c, h.s, Tick(time));
  }

  lemma {:induction false} VisitsReach(s0: State, h: Holding, c: Settings, visits: seq<Visit>)
    requires Reaches(s0, c, h.s) && Ready(h)
    ensures var t := VisitedHolding(h, visits); Reaches(s0, c, t.s) && Ready(t) && t.s.loop == h.s.loop
  {
    if visits != [] {
      var n := |visits| - 1;
      VisitsReach(s0, h, c, visits[..n]);
      VisitReaches(s0, VisitedHolding(h, visits[..n]), c, visits[n]);
    }
  }

  lemma {:induction false} EndReaches(s0: State, s: State, c: Settings, ending: Ending)
    requires Reaches(s0, c, s) && s.loop.pc == Waiting
    ensures Reaches(s0, c, EndWait(s, ending))
  {
    if ending.ContextDone? {
      ReachesStep(s0, c, s, Cancel);
    } else if ending.Token? && s.sh.wake {
      ReachesStep(s0, c, s, WakeUp);
    } else {
      var time := TimerTime(s, ending) - s.sh.clock;
      ReachesStep(s0, c, s, Tick(time));
      ReachesStep(s0, c, Step(s, c, Tick(time)), TimerFires);
    }
  }

  // ---- Work ---------------------------------------------------------------------------------------------------

  lemma {:induction false} LookReaches(s0: State, s: State, c: Settings)
    requires Reaches(s0, c, s) && s.loop.pc == Top
    ensures Reaches(s0, c, LookSteps(s)) && LookSteps(s).loop.pc == Selecting
  {
    ReachesStep(s0, c, s, ReadClock);
    var clocked := Step(s, c, ReadClock);
    ReachesStep(s0, c, clocked, LoadEnabled);
    var switched := Step(clocked, c, LoadEnabled);
    ReachesStep(s0, c, switched, LoadVersion);
    ReachesStep(s0, c, Step(switched, c, LoadVersion), LoadQueue);
  }

  lemma {:induction false} TakeRequestReaches(s0: State, s: State, c: Settings)
    requires Reaches(s0, c, s) && s.loop.pc == Selecting
    ensures Reaches(s0, c, TakeRequestSteps(s))
    ensures TakeRequestSteps(s).loop.pc == if WorkDue(TakeRequestSteps(s).loop.l) then AtCommands else Waiting
  {
    ReachesStep(s0, c, s, Select);
  }

  lemma {:induction false} WriteReaches(s0: State, s: State, c: Settings, wrote: bool, broken: bool, elapsed: nat)
    requires Reaches(s0, c, s) && s.loop.pc == AtCommands
    ensures Reaches(s0, c, WriteSteps(s, wrote, broken, elapsed))
  {
    ReachesStep(s0, c, s, TakeCommands);
    if s.loop.l.commandsDue {
      var taken := Step(s, c, TakeCommands);
      ReachesStep(s0, c, taken, Tick(elapsed));
      ReachesStep(s0, c, Step(taken, c, Tick(elapsed)), FinishWrites(wrote, !broken));
    }
  }

  lemma {:induction false} ReadReaches(s0: State, s: State, c: Settings, ok: bool, elapsed: nat)
    requires Reaches(s0, c, s) && s.loop.pc == AtConfig
    ensures Reaches(s0, c, ReadSteps(s, c, ok, elapsed))
  {
    var time := if s.loop.l.configDue then elapsed else 0;
    ReachesStep(s0, c, s, Tick(time));
    ReachesStep(s0, c, Step(s, c, Tick(time)), PollConfig(ok));
  }

  lemma {:induction false} WatchReaches(s0: State, s: State, c: Settings, jumped: bool)
    requires Reaches(s0, c, s) && s.loop.pc == AtWatchdog
    ensures Reaches(s0, c, WatchSteps(s, jumped))
  {
    ReachesStep(s0, c, s, CheckWatchdog(jumped));
    if s.loop.l.watchdogDue && jumped {
      ReachesStep(s0, c, Step(s, c, CheckWatchdog(jumped)), RaiseSignal);
    }
  }

  lemma {:induction false} SyncReaches(s0: State, s: State, c: Settings, ok: bool, elapsed: nat)
    requires Reaches(s0, c, s) && s.loop.pc == AtSync
    ensures Reaches(s0, c, SyncSteps(s, ok, elapsed))
  {
    ReachesStep(s0, c, s, DropToken);
    if s.loop.l.timeSyncDue {
      var dropped := Step(s, c, DropToken);
      ReachesStep(s0, c, dropped, StartSync);
      var syncing := Step(dropped, c, StartSync);
      ReachesStep(s0, c, syncing, Tick(elapsed));
      ReachesStep(s0, c, Step(syncing, c, Tick(elapsed)), FinishSync(ok));
    }
  }

  lemma {:induction false} StatusReaches(s0: State, s: State, c: Settings, ok: bool, elapsed: nat)
    requires Reaches(s0, c, s) && s.loop.pc == AtStatus
    ensures Reaches(s0, c, StatusSteps(s, c, ok, elapsed))
  {
    var time := if s.loop.l.statusDue then elapsed else 0;
    ReachesStep(s0, c, s, Tick(time));
    ReachesStep(s0, c, Step(s, c, Tick(time)), PollStatus(ok));
  }

  lemma {:induction false} WorkReaches(s0: State, s: State, c: Settings, d: Drained, w: Surroundings)
    requires Reaches(s0, c, s) && s.loop.pc == AtCommands
    ensures Reaches(s0, c, DoWork(s, c, d, w).0)
  {
    WriteReaches(s0, s, c, d.wrote, d.broken, w.writeTime);
    var written := WriteSteps(s, d.wrote, d.broken, w.writeTime);
    if written.loop.pc != Stopped {
      PollAndSyncReaches(s0, written, c, w);
    }
  }

  lemma {:induction false} PollAndSyncReaches(s0: State, s: State, c: Settings, w: Surroundings)
    requires Reaches(s0, c, s) && s.loop.pc == AtConfig
    ensures Reaches(s0, c, PollAndSync(s, c, w).0)
  {
    ReadReaches(s0, s, c, w.configOk, w.configTime);
    var read := ReadSteps(s, c, w.configOk, w.configTime);
    if read.loop.pc != Stopped {
      SyncAndFinishReaches(s0, read, c, w);
    }
  }

  lemma {:induction false} SyncAndFinishReaches(s0: State, s: State, c: Settings, w: Surroundings)
    requires Reaches(s0, c, s) && s.loop.pc == AtWatchdog
    ensures Reaches(s0, c, SyncAndFinish(s, c, w).0)
  {
    WatchReaches(s0, s, c, w.jumped);
    var watched := WatchSteps(s, w.jumped);
    SyncReaches(s0, watched, c, w.syncOk, w.syncTime);
    var synced := SyncSteps(watched, w.syncOk, w.syncTime);
    if synced.loop.pc != Stopped {
      StatusReaches(s0, synced, c, w.statusOk, w.statusTime);
    }
  }

  /** Work leaves the mutex alone and the queue empty, and ends at the top or in an error. */
  lemma {:induction false} WorkKeepsReady(h: Holding, c: Settings, w: Surroundings)
    requires Ready(h) && h.s.loop.pc == AtCommands && (h.s.loop.l.commandsDue <==> h.queue != [])
    ensures var (t, outcome) := WorkingCall(h, c, w);
      Ready(t) && (outcome.Fails? || (outcome.Completes? && t.s.loop.pc == Top))
  {
    var d := DrainOf(h, w.writer);
    var written := WriteSteps(h.s, d.wrote, d.broken, w.writeTime);
    assert written.sh.setter == Idle && written.sh.queued == 0;
    if written.loop.pc != Stopped {
      TailKeepsShared(written, c, w);
    }
  }

  lemma {:induction false} TailKeepsShared(s: State, c: Settings, w: Surroundings)
    ensures var (t, outcome) := PollAndSync(s, c, w);
      && t.sh.setter == s.sh.setter && t.sh.queued == s.sh.queued
      && (outcome.Fails? || (outcome.Completes? && t.loop.pc == Top))
  {
    var read := ReadSteps(s, c, w.configOk, w.configTime);
    EndKeepsShared(read, c, w);
  }

  lemma {:induction false} EndKeepsShared(s: State, c: Settings, w: Surroundings)
    ensures var (t, outcome) := SyncAndFinish(s, c, w);
      && t.sh.setter == s.sh.setter && t.sh.queued == s.sh.queued
      && (outcome.Fails? || (outcome.Completes? && t.loop.pc == Top))
  {
    var watched := WatchSteps(s, w.jumped);
    assert watched.sh.setter == s.sh.setter && watched.sh.queued == s.sh.queued;
    SyncKeepsShared(watched, c, w);
  }

  lemma {:induction false} SyncKeepsShared(s: State, c: Settings, w: Surroundings)
    ensures var synced := SyncSteps(s, w.syncOk, w.syncTime);
      var polled := StatusSteps(synced, c, w.statusOk, w.statusTime);
      && synced.sh.setter == polled.sh.setter == s.sh.setter && synced.sh.queued == polled.sh.queued == s.sh.queued
      && (polled.loop.pc == Stopped || polled.loop.pc == Top)
  {
  }

  // ---- Calls and runs -----------------------------------------------------------------------------------------

  lemma {:induction false} LookedStands(s: State)
    ensures var l := Looked(s).loop;
      && (l.pc == AtCommands || l.pc == Waiting) && (l.l.commandsDue <==> s.sh.queued > 0)
      && Looked(s).sh == s.sh.(syncToken := false)
  {
  }

  lemma {:induction false} LookedReaches(s0: State, s: State, c: Settings)
    requires Reaches(s0, c, s) && s.loop.pc == Top
    ensures Reaches(s0, c, Looked(s))
  {
    LookReaches(s0, s, c);
    TakeRequestReaches(s0, LookSteps(s), c);
  }

  /** One call of runPending is a path of the transition system, through the wait too if there is one, and leaves the
      service ready for the next call unless it returns an error. */
  lemma {:induction false} CallReaches(s0: State, h: Holding, c: Settings, w: Surroundings)
    requires Reaches(s0, c, h.s) && Ready(h) && h.s.loop.pc == Top
    ensures var (t, outcome) := OneCall(h, c, w);
      Reaches(s0, c, t.s) && Ready(t) && (Ends(outcome) || t.s.loop.pc == Top)
  {
    LookedReaches(s0, h.s, c);
    LookedStands(h.s);
    var looked := h.(s := Looked(h.s));
    if looked.s.loop.pc == Waiting {
      WaitReaches(s0, looked, c, w);
    } else {
      WorkReaches(s0, looked.s, c, DrainOf(h, w.writer), w);
      WorkKeepsReady(looked, c, w);
    }
  }

  lemma {:induction false} WaitReaches(s0: State, h: Holding, c: Settings, w: Surroundings)
    requires Reaches(s0, c, h.s) && Ready(h) && h.s.loop.pc == Waiting
    ensures var (t, outcome) := WaitingCall(h, w);
      Reaches(s0, c, t.s) && Ready(t) && (Ends(outcome) || t.s.loop.pc == Top)
  {
    VisitsReach(s0, h, c, w.visits);
    EndReaches(s0, VisitedHolding(h, w.visits).s, c, w.ending);
  }

  /** From a sound state a call leads to a sound state; if it sleeps, its timer is set to a positive time; and if
      the last completed iteration had noticed a new polling version, it has answered the reconnect. */
  lemma {:induction false} CallIsARun(h: Holding, c: Settings, w: Surroundings)
    requires Ready(h) && h.s.loop.pc == Top && Sound(h.s)
    ensures var (t, outcome) := OneCall(h, c, w);
      && Reaches(h.s, c, t.s) && Sound(t.s)
      && (outcome.Sleeps? ==> outcome.wait > 0)
      && (t.s.loop.last.noticed ==> Answered(t.s.loop.last))
  {
    ReachesItself(h.s, c);
    CallReaches(h.s, h, c, w);
    ReachedIsSound(h.s, c, OneCall(h, c, w).0.s);
    if OneCall(h, c, w).1.Sleeps? {
      LookedReaches(h.s, h.s, c);
      ReachedIsSound(h.s, c, Looked(h.s));
      SleepIsPositive(h, c, w);
    }
  }

  lemma {:induction false} SleepIsPositive(h: Holding, c: Settings, w: Surroundings)
    requires DuesCurrent(Looked(h.s).loop) && OneCall(h, c, w).1.Sleeps?
    ensures OneCall(h, c, w).1.wait > 0
  {
    if Looked(h.s).loop.pc == Waiting {
      TimeLeftIsPositive(Looked(h.s).loop);
    } else {
      WorkNeverSleeps(Looked(h.s), c, DrainOf(h, w.writer), w);
    }
  }

  lemma {:induction false} TimeLeftIsPositive(loop: Loop)
    requires loop.pc == Waiting && DuesCurrent(loop)
    ensures TimeLeft(loop) > 0
  {
  }

  lemma {:induction false} WorkNeverSleeps(s: State, c: Settings, d: Drained, w: Surroundings)
    ensures !DoWork(s, c, d, w).1.Sleeps?
  {
  }

  /** Any number of rounds, with any visitors before and during the calls, is a path of the transition system. */
  lemma {:induction false} RoundsReach(s0: State, h: Holding, c: Settings, rounds: seq<Round>)
    requires Reaches(s0, c, h.s) && Ready(h) && h.s.loop.pc == Top
    ensures Reaches(s0, c, RunRounds(h, c, rounds).0.s)
    decreases rounds
  {
    if rounds != [] {
      RoundReaches(s0, h, c, rounds[0]);
      var (after, outcome) := OneRound(h, c, rounds[0]);
      if !Ends(outcome) {
        RoundsReach(s0, after, c, rounds[1..]);
      }
    }
  }

  lemma {:induction false} RoundReaches(s0: State, h: Holding, c: Settings, round: Round)
    requires Reaches(s0, c, h.s) && Ready(h) && h.s.loop.pc == Top
    ensures var (t, outcome) := OneRound(h, c, round);
      Reaches(s0, c, t.s) && Ready(t) && (Ends(outcome) || t.s.loop.pc == Top)
  {
    VisitsReach(s0, h, c, round.visits);
    var visited := VisitedHolding(h, round.visits);
    if round.cancelled {
      ReachesStep(s0, c, visited.s, Cancel);
    } else {
      CallReaches(s0, visited, c, round.around);
    }
  }

  /** A service built, started and run for any rounds is in a state the transition system reaches from its initial
      one, so all that holds of every run of that system holds of the object. */
  method Serve(settings: Settings, now: int, rounds: seq<Round>) returns (service: PollingService, outcome: Outcome)
    ensures service.Valid() && Reaches(Started(now), settings, service.state) && Sound(service.state)
  {
    service := new PollingService(settings, now);
    ReachesItself(service.state, settings);
    RoundsReach(service.state, service.Held(), settings, rounds);
    outcome := service.Run(rounds);
    ReachedIsSound(Started(now), settings, service.state);
  }

  lemma {:induction false} ReachedIsSound(s: State, c: Settings, s': State)
    requires Sound(s) && Reaches(s, c, s')
    ensures Sound(s')
  {
    var path :| IsPath(s, c, path, s');
    PathIsSound(s, c, path, s', |path| - 1);
  }

  lemma {:induction false} PathIsSound(s: State, c: Settings, path: seq<State>, s': State, n: nat)
    requires IsPath(s, c, path, s') && Sound(s) && n < |path|
    ensures Sound(path[n])
  {
    if n > 0 {
      PathIsSound(s, c, path, s', n - 1);
      assert OneStep(path[n - 1], c, path[n - 1 + 1]);
      var a: Action :| Enabled(path[n - 1], a) && path[n] == Step(path[n - 1], c, a);
      StepKeepsSound(path[n - 1], c, a);
    }
  }
}
