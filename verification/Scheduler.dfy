/** The polling loop of polling.go as a transition system. Each atomic access to shared state is one step, so the runs
    are all the interleavings of the loop with the goroutines that queue commands, request time synchronisation and
    switch polling on and off. */
module Scheduler {
  import opened Basics

  const SYNC_TIME_INTERVAL: nat := 6 * 3600 * 1_000_000_000
  const CONFIG_READBACK_DELAY: nat := 2_000_000_000
  const WATCHDOG_INTERVAL: nat := 1_000_000_000

  datatype Settings = Settings(configInterval: nat, statusInterval: nat)

  datatype Deadlines = Deadlines(config: int, status: int, watchdog: int, timeSync: int)

  /** A SetPollingEnabled call in progress. Both callers hold the MQTT mutex, so there is at most one; it ends with
      the wake-up signal, and the mutex is free exactly when it is Idle. */
  datatype Setter = Idle | Swapping(target: bool) | Adding | Signalling

  /** Where the polling loop stands: named after what it does next. */
  datatype Pc =
    | Top | LoadingEnabled | LoadingVersion | LoadingQueue | Selecting | Waiting
    | AtCommands | Writing | AtConfig | AtWatchdog | Raising | AtSync | StartingSync | Syncing | AtStatus
    | Stopped

  /** The local variables of runPending. */
  datatype Locals = Locals(
    now: int, enabled: bool, version: nat,
    commandsDue: bool, configDue: bool, watchdogDue: bool, timeSyncDue: bool, statusDue: bool)

  /** What one iteration did. It is fresh when it noticed a new polling version; `requested` tells whether it took a
      time-sync request. */
  datatype Iteration = Iteration(
    noticed: bool, version: nat, requested: bool, statusPolled: bool, configPolled: bool, wroteAt: Option<int>,
    readbackAt: Option<int>)

  /** What the goroutines share. */
  datatype Shared = Shared(
    clock: int,
    queued: nat,            // len(commands)
    syncToken: bool,        // timeSyncRequests holds its one token
    wake: bool,             // wake holds its one token
    enabled: bool,          // pollingEnabled
    version: nat,           // pollingVersion
    connected: bool,        // MQTTService.connected
    setter: Setter,
    signallers: nat)        // calls that changed a channel and have not signalled yet

  /** What only the loop touches. */
  datatype Loop = Loop(
    pc: Pc,
    l: Locals,
    observed: nat,          // observedVersion
    deadlines: Deadlines,
    current: Iteration,
    last: Iteration,        // the last completed iteration
    served: nat)            // the last version a completed fresh iteration noticed

  /** Counters over the whole run: disabled-to-enabled transitions, and the order of time-sync requests and starts. */
  datatype Past = Past(rises: nat, stamp: nat, lastRequest: nat, lastSync: nat)

  datatype State = State(sh: Shared, loop: Loop, past: Past)

  const NO_ITERATION: Iteration := Iteration(false, 0, false, false, false, None, None)

  /** After Start and before Run. */
  function Started(now: int): State {
    State(Shared(now, 0, false, false, false, 0, false, Idle, 0),
          Loop(Top, Locals(now, false, 0, false, false, false, false, false), 0,
               Deadlines(now, now, now + WATCHDOG_INTERVAL, now), NO_ITERATION, NO_ITERATION, 0),
          Past(0, 0, 0, 0))
  }

  datatype Action =
    // other goroutines and the clock
    | Tick(elapsed: nat)
    | BeginSet(target: bool) | Swap | AddVersion | SignalSet
    | Enqueue | RequestSync | Signal
    // the polling loop
    | ReadClock | LoadEnabled | LoadVersion | LoadQueue | Select
    | WakeUp | TimerFires | Cancel
    | TakeCommands | FinishWrites(wrote: bool, ok: bool)
    | PollConfig(ok: bool)
    | CheckWatchdog(jumped: bool) | RaiseSignal
    | DropToken | StartSync | FinishSync(ok: bool)
    | PollStatus(ok: bool)

  predicate WorkDue(l: Locals) {
    l.commandsDue || l.configDue || l.watchdogDue || l.timeSyncDue || l.statusDue
  }

  /** The deadline the loop sleeps towards. */
  function NextDeadline(d: Deadlines, enabled: bool): int {
    var rest := Min(d.watchdog, d.timeSync);
    if enabled then Min(Min(d.config, d.status), rest) else rest
  }

  predicate Enabled(s: State, a: Action) {
    match a
    case Tick(_) => true
    case BeginSet(_) => s.sh.setter == Idle
    case Swap => s.sh.setter.Swapping?
    case AddVersion => s.sh.setter == Adding
    case SignalSet => s.sh.setter == Signalling
    case Enqueue => s.sh.queued < COMMAND_QUEUE_SIZE
    case RequestSync => true
    case Signal => s.sh.signallers > 0
    case ReadClock => s.loop.pc == Top
    case LoadEnabled => s.loop.pc == LoadingEnabled
    case LoadVersion => s.loop.pc == LoadingVersion
    case LoadQueue => s.loop.pc == LoadingQueue
    case Select => s.loop.pc == Selecting
    case WakeUp => s.loop.pc == Waiting && s.sh.wake
    case TimerFires => s.loop.pc == Waiting && s.sh.clock >= NextDeadline(s.loop.deadlines, s.loop.l.enabled)
    case Cancel => s.loop.pc == Waiting || s.loop.pc == Top
    case TakeCommands => s.loop.pc == AtCommands
    case FinishWrites(_, _) => s.loop.pc == Writing
    case PollConfig(_) => s.loop.pc == AtConfig
    case CheckWatchdog(_) => s.loop.pc == AtWatchdog
    case RaiseSignal => s.loop.pc == Raising
    case DropToken => s.loop.pc == AtSync
    case StartSync => s.loop.pc == StartingSync
    case FinishSync(_) => s.loop.pc == Syncing
    case PollStatus(_) => s.loop.pc == AtStatus
  }

  function Step(s: State, c: Settings, a: Action): State
    requires Enabled(s, a)
  {
    var sh, loop := s.sh, s.loop;
    match a
    case Tick(elapsed) => s.(sh := sh.(clock := sh.clock + elapsed))
    case BeginSet(target) => s.(sh := sh.(connected := target, setter := Swapping(target)))
    case Swap =>
      var rises := sh.setter.target && !sh.enabled;
      s.(sh := sh.(enabled := sh.setter.target, setter := if rises then Adding else Signalling),
         past := if rises then s.past.(rises := s.past.rises + 1) else s.past)
    case AddVersion => s.(sh := sh.(version := sh.version + 1, setter := Signalling))
    case SignalSet => s.(sh := sh.(wake := true, setter := Idle))
    case Enqueue => s.(sh := sh.(queued := sh.queued + 1, signallers := sh.signallers + 1))
    case RequestSync => s.(sh := sh.(syncToken := true, signallers := sh.signallers + 1), past := Requested(s.past))
    case Signal => s.(sh := sh.(wake := true, signallers := sh.signallers - 1))
    case ReadClock => s.(loop := loop.(pc := LoadingEnabled, l := loop.l.(now := sh.clock)))
    case LoadEnabled => s.(loop := loop.(pc := LoadingVersion, l := loop.l.(enabled := sh.enabled)))
    case LoadVersion => s.(loop := loop.(pc := LoadingQueue, l := loop.l.(version := sh.version)))
    case LoadQueue => s.(loop := QueueLoaded(loop, sh.queued))
    case Select => s.(sh := sh.(syncToken := false), loop := Selected(loop, sh.syncToken))
    case WakeUp => s.(sh := sh.(wake := false), loop := loop.(pc := Top))
    case TimerFires => s.(loop := loop.(pc := Top))
    case Cancel => s.(loop := loop.(pc := Stopped))
    case TakeCommands =>
      if loop.l.commandsDue then s.(sh := sh.(queued := 0), loop := loop.(pc := Writing))
      else s.(loop := loop.(pc := AtConfig))
    case FinishWrites(wrote, ok) => s.(loop := WritesFinished(loop, sh.clock, wrote, ok))
    case PollConfig(ok) => s.(loop := ConfigPolled(loop, sh.clock, c, ok))
    case CheckWatchdog(jumped) =>
      if loop.l.watchdogDue && jumped then
        State(sh.(syncToken := true), WatchdogChecked(loop, sh.clock, jumped), Requested(s.past))
      else s.(loop := WatchdogChecked(loop, sh.clock, jumped))
    case RaiseSignal => s.(sh := sh.(wake := true), loop := loop.(pc := AtSync, l := loop.l.(timeSyncDue := false)))
    case DropToken =>
      if loop.l.timeSyncDue then s.(sh := sh.(syncToken := false), loop := loop.(pc := StartingSync))
      else s.(loop := loop.(pc := AtStatus))
    case StartSync =>
      s.(loop := loop.(pc := Syncing), past := s.past.(stamp := s.past.stamp + 1, lastSync := s.past.stamp + 1))
    case FinishSync(ok) =>
      s.(loop := loop.(deadlines := loop.deadlines.(timeSync := sh.clock + SYNC_TIME_INTERVAL),
                       pc := if ok then AtStatus else Stopped))
    case PollStatus(ok) => s.(loop := StatusPolled(loop, sh.clock, c, ok))
  }

  function Requested(past: Past): Past {
    past.(stamp := past.stamp + 1, lastRequest := past.stamp + 1)
  }

  /** What is due, once the queue has been looked at; a new polling version makes both polls due and is remembered. */
  function QueueLoaded(loop: Loop, queued: nat): Loop {
    var l, d := loop.l, loop.deadlines;
    var noticed := l.enabled && l.version != loop.observed;
    loop.(l := Locals(l.now, l.enabled, l.version,
                      queued > 0,
                      (l.enabled && d.config <= l.now) || noticed,
                      d.watchdog <= l.now,
                      d.timeSync <= l.now,
                      (l.enabled && d.status <= l.now) || noticed),
          observed := if noticed then l.version else loop.observed,
          current := Iteration(noticed, l.version, false, false, false, None, None),
          pc := Selecting)
  }

  /** Take a time-sync request if there is one, then work or wait. */
  function Selected(loop: Loop, requested: bool): Loop {
    var l := loop.l.(timeSyncDue := loop.l.timeSyncDue || requested);
    loop.(l := l, pc := if WorkDue(l) then AtCommands else Waiting,
          current := loop.current.(requested := requested))
  }

  function WritesFinished(loop: Loop, clock: int, wrote: bool, ok: bool): Loop {
    if !ok then loop.(pc := Stopped)
    else if !wrote then loop.(pc := AtConfig)
    else
      var due := clock + CONFIG_READBACK_DELAY;
      loop.(deadlines := loop.deadlines.(config := due), l := loop.l.(configDue := false),
            current := loop.current.(wroteAt := Some(clock), readbackAt := Some(due)), pc := AtConfig)
  }

  function ConfigPolled(loop: Loop, clock: int, c: Settings, ok: bool): Loop {
    if !loop.l.configDue then loop.(pc := AtWatchdog)
    else if !ok then loop.(pc := Stopped)
    else loop.(deadlines := loop.deadlines.(config := clock + c.configInterval),
               current := loop.current.(configPolled := true), pc := AtWatchdog)
  }

  function WatchdogChecked(loop: Loop, clock: int, jumped: bool): Loop {
    if !loop.l.watchdogDue then loop.(pc := AtSync)
    else loop.(deadlines := loop.deadlines.(watchdog := clock + WATCHDOG_INTERVAL),
               pc := if jumped then Raising else AtSync)
  }

  function StatusPolled(loop: Loop, clock: int, c: Settings, ok: bool): Loop {
    if !loop.l.statusDue then Completed(loop, loop.current)
    else
      var polled := loop.(deadlines := loop.deadlines.(status := clock + c.statusInterval));
      if ok then Completed(polled, loop.current.(statusPolled := true)) else polled.(pc := Stopped)
  }

  function Completed(loop: Loop, done: Iteration): Loop {
    loop.(last := done, served := if done.noticed then done.version else loop.served, pc := Top)
  }

  // ---- Runs ---------------------------------------------------------------------------------------------------

  ghost predicate IsRun(c: Settings, start: int, states: seq<State>, actions: seq<Action>) {
    && |states| == |actions| + 1 && states[0] == Started(start)
    && forall i | 0 <= i < |actions| ::
         Enabled(states[i], actions[i]) && states[i + 1] == Step(states[i], c, actions[i])
  }

  // ---- The invariant, in parts --------------------------------------------------------------------------------

  /** Somebody has woken the loop, or is about to. */
  predicate Attended(sh: Shared) {
    sh.wake || sh.signallers > 0 || sh.setter != Idle
  }

  /** The loop has read the queue, the version, the switch since it last started over. */
  predicate KnowsQueue(pc: Pc) { pc.Selecting? || pc.Waiting? }
  predicate KnowsVersion(pc: Pc) { pc.LoadingQueue? || KnowsQueue(pc) }
  predicate KnowsEnabled(pc: Pc) { pc.LoadingVersion? || KnowsVersion(pc) }

  /** Whatever changed behind the loop's back has somebody attending to it. */
  ghost predicate Watched(sh: Shared, loop: Loop) {
    && (KnowsEnabled(loop.pc) && sh.enabled && !loop.l.enabled ==> Attended(sh))
    && (KnowsVersion(loop.pc) && loop.l.enabled && sh.version != loop.l.version ==> Attended(sh))
    && (KnowsQueue(loop.pc) && !loop.l.commandsDue && sh.queued > 0 ==> Attended(sh))
    && (loop.pc.Waiting? && sh.syncToken ==> Attended(sh))
  }

  /** Work that is not due has its deadline ahead, and the version seen is the version remembered. */
  ghost predicate DuesCurrent(loop: Loop) {
    KnowsQueue(loop.pc) ==>
      && (loop.l.watchdogDue || loop.deadlines.watchdog > loop.l.now)
      && (loop.l.timeSyncDue || loop.deadlines.timeSync > loop.l.now)
      && (loop.l.enabled ==> loop.l.configDue || loop.deadlines.config > loop.l.now)
      && (loop.l.enabled ==> loop.l.statusDue || loop.deadlines.status > loop.l.now)
      && (loop.l.enabled ==> loop.observed == loop.l.version)
      && (loop.pc.Waiting? ==> !WorkDue(loop.l))
  }

  /** The loop has taken a request and is on its way to SyncTime. */
  predicate Carrying(loop: Loop) {
    var pc := loop.pc;
    || (loop.l.timeSyncDue && (pc.AtCommands? || pc.Writing? || pc.AtConfig? || pc.AtWatchdog? || pc.AtSync?))
    || pc.StartingSync?
  }

  ghost predicate SyncKept(sh: Shared, loop: Loop, past: Past) {
    && past.lastRequest <= past.stamp && past.lastSync <= past.stamp
    && (loop.pc.Raising? ==> sh.syncToken)
    && (past.lastRequest > past.lastSync ==> sh.syncToken || Carrying(loop) || loop.pc.Stopped?)
  }

  ghost predicate SwitchKept(sh: Shared, rises: nat) {
    && (match sh.setter
        case Swapping(target) => sh.connected == target
        case Adding => sh.enabled && sh.connected
        case _ => sh.enabled == sh.connected)
    && rises == sh.version + if sh.setter == Adding then 1 else 0
  }

  ghost predicate Answered(i: Iteration) {
    && i.statusPolled
    && (i.configPolled || (i.wroteAt.Some? && i.readbackAt == Some(i.wroteAt.value + CONFIG_READBACK_DELAY)))
  }

  /** The configuration half of an iteration is done: polled, or a read-back deadline stands. */
  predicate ConfigAnswered(loop: Loop) {
    || loop.current.configPolled
    || (loop.current.wroteAt.Some?
        && loop.current.readbackAt == Some(loop.current.wroteAt.value + CONFIG_READBACK_DELAY)
        && loop.deadlines.config == loop.current.readbackAt.value)
  }

  predicate BeforeConfig(pc: Pc) { pc.Selecting? || pc.AtCommands? || pc.Writing? }
  predicate AfterConfig(pc: Pc) {
    pc.AtWatchdog? || pc.Raising? || pc.AtSync? || pc.StartingSync? || pc.Syncing? || pc.AtStatus?
  }
  predicate BetweenIterations(pc: Pc) {
    pc.Top? || pc.LoadingEnabled? || pc.LoadingVersion? || pc.LoadingQueue? || pc.Waiting?
  }

  /** An iteration that noticed a new version has both polls ahead of it or behind it. */
  ghost predicate FreshKept(loop: Loop) {
    && (loop.last.noticed ==> Answered(loop.last))
    && (loop.current.noticed ==>
          && !loop.pc.Waiting?
          && (BeforeConfig(loop.pc) ==> loop.l.configDue && loop.l.statusDue)
          && (loop.pc.AtConfig? ==> loop.l.statusDue && (loop.l.configDue || ConfigAnswered(loop)))
          && (AfterConfig(loop.pc) ==> loop.l.statusDue && ConfigAnswered(loop)))
    && (BetweenIterations(loop.pc) ==> loop.observed == loop.served)
    && (!BetweenIterations(loop.pc) && !loop.pc.Stopped? ==>
          loop.observed == if loop.current.noticed then loop.current.version else loop.served)
  }

  /** Until the next iteration that writes or polls configuration, the deadline stands where a fresh iteration that
      only wrote has left it. */
  ghost predicate ReadbackKept(loop: Loop) {
    && (BeforeConfig(loop.pc) ==> Untouched(loop))
    && (loop.last.noticed && !loop.last.configPolled && Untouched(loop) ==>
          loop.last.readbackAt == Some(loop.deadlines.config))
  }

  /** No iteration has written or polled configuration since the last completed one. */
  predicate Untouched(loop: Loop) {
    BetweenIterations(loop.pc) || (loop.current.wroteAt.None? && !loop.current.configPolled)
  }

  predicate InIteration(pc: Pc) {
    BeforeConfig(pc) || pc.AtConfig? || AfterConfig(pc) || pc.Waiting?
  }

  /** What is due is due for a reason: its deadline has passed, or, while polling is enabled, a version was noticed
      that no completed iteration has served, or a request was taken. Neither poll is due while polling is disabled,
      and a write puts the configuration poll off. */
  ghost predicate DuesJustified(loop: Loop) {
    var l, d, pc := loop.l, loop.deadlines, loop.pc;
    && (InIteration(pc) ==> (loop.current.noticed <==> l.enabled && l.version != loop.served))
    && (InIteration(pc) ==> (l.statusDue <==> l.enabled && (loop.current.noticed || d.status <= l.now)))
    && (BeforeConfig(pc) || pc.AtConfig? || pc.Waiting? ==>
          (l.configDue <==> loop.current.wroteAt.None? && l.enabled && (loop.current.noticed || d.config <= l.now)))
    && (BeforeConfig(pc) || pc.Waiting? ==> loop.current.wroteAt.None?)
    && (pc.Selecting? ==> !loop.current.requested)
    && (InIteration(pc) && (BeforeConfig(pc) || pc.AtConfig? || pc.AtWatchdog? || pc.Waiting?) ==>
          (l.watchdogDue <==> d.watchdog <= l.now)
          && (l.timeSyncDue <==> d.timeSync <= l.now || loop.current.requested))
    && (pc.Raising? || pc.AtSync? || pc.StartingSync? ==>
          (l.timeSyncDue || pc.StartingSync? ==> d.timeSync <= l.now || loop.current.requested))
  }

  ghost predicate Sound(s: State) {
    && Watched(s.sh, s.loop) && DuesCurrent(s.loop)
    && SyncKept(s.sh, s.loop, s.past) && SwitchKept(s.sh, s.past.rises) && FreshKept(s.loop)
    && ReadbackKept(s.loop) && DuesJustified(s.loop)
  }

  // ---- Every step keeps it ------------------------------------------------------------------------------------

  predicate IsOther(a: Action) {
    a.Tick? || a.BeginSet? || a.Swap? || a.AddVersion? || a.SignalSet? || a.Enqueue? || a.RequestSync? || a.Signal?
  }

  lemma {:induction false} OthersKeepSound(s: State, c: Settings, a: Action)
    requires Sound(s) && Enabled(s, a) && IsOther(a)
    ensures Sound(Step(s, c, a))
  {
  }

  lemma {:induction false} LoadsKeepSound(s: State, c: Settings, a: Action)
    requires Sound(s) && Enabled(s, a) && (a.ReadClock? || a.LoadEnabled? || a.LoadVersion? || a.LoadQueue?)
    ensures Sound(Step(s, c, a))
  {
  }

  lemma {:induction false} WaitsKeepSound(s: State, c: Settings, a: Action)
    requires Sound(s) && Enabled(s, a) && (a.Select? || a.WakeUp? || a.TimerFires? || a.Cancel?)
    ensures Sound(Step(s, c, a))
  {
  }

  lemma {:induction false} TakeKeepsSound(s: State, c: Settings)
    requires Sound(s) && Enabled(s, TakeCommands)
    ensures Sound(Step(s, c, TakeCommands))
  {
  }

  lemma {:induction false} WritesKeepSound(s: State, c: Settings, a: Action)
    requires Sound(s) && Enabled(s, a) && a.FinishWrites?
    ensures Sound(Step(s, c, a))
  {
  }

  lemma {:induction false} PollKeepsSound(s: State, c: Settings, a: Action)
    requires Sound(s) && Enabled(s, a) && a.PollConfig?
    ensures Sound(Step(s, c, a))
  {
  }

  lemma {:induction false} CheckKeepsSound(s: State, c: Settings, a: Action)
    requires Sound(s) && Enabled(s, a) && a.CheckWatchdog?
    ensures Sound(Step(s, c, a))
  {
  }

  lemma {:induction false} SyncsKeepSound(s: State, c: Settings, a: Action)
    requires Sound(s) && Enabled(s, a) && (a.DropToken? || a.StartSync?)
    ensures Sound(Step(s, c, a))
  {
  }

  lemma {:induction false} RaiseKeepsSound(s: State, c: Settings)
    requires Sound(s) && Enabled(s, RaiseSignal)
    ensures Sound(Step(s, c, RaiseSignal))
  {
  }

  lemma {:induction false} FinishesKeepSound(s: State, c: Settings, a: Action)
    requires Sound(s) && Enabled(s, a) && (a.FinishSync? || a.PollStatus?)
    ensures Sound(Step(s, c, a))
  {
  }

  lemma {:induction false} StepKeepsSound(s: State, c: Settings, a: Action)
    requires Sound(s) && Enabled(s, a)
    ensures Sound(Step(s, c, a))
  {
    if IsOther(a) {
      OthersKeepSound(s, c, a);
    } else if a.ReadClock? || a.LoadEnabled? || a.LoadVersion? || a.LoadQueue? {
      LoadsKeepSound(s, c, a);
    } else if a.Select? || a.WakeUp? || a.TimerFires? || a.Cancel? {
      WaitsKeepSound(s, c, a);
    } else if a.TakeCommands? {
      TakeKeepsSound(s, c);
    } else if a.FinishWrites? {
      WritesKeepSound(s, c, a);
    } else if a.PollConfig? {
      PollKeepsSound(s, c, a);
    } else if a.CheckWatchdog? {
      CheckKeepsSound(s, c, a);
    } else if a.RaiseSignal? {
      RaiseKeepsSound(s, c);
    } else if a.DropToken? || a.StartSync? {
      SyncsKeepSound(s, c, a);
    } else {
      FinishesKeepSound(s, c, a);
    }
  }

  /** Every state of every run is sound. */
  lemma {:induction false} RunsAreSound(c: Settings, start: int, states: seq<State>, actions: seq<Action>, n: nat)
    requires IsRun(c, start, states, actions) && n < |states|
    ensures Sound(states[n])
  {
    if n > 0 {
      RunsAreSound(c, start, states, actions, n - 1);
      StepKeepsSound(states[n - 1], c, actions[n - 1]);
    }
  }

  // ---- What it gives ------------------------------------------------------------------------------------------

  /** In every interleaving: when the loop is waiting with no wake token and nobody about to signal, there is no
      queued command and no time-sync request, and if polling is enabled its current version has been observed. */
  lemma {:induction false} NoLostWakeUp(c: Settings, start: int, states: seq<State>, actions: seq<Action>, n: nat)
    requires IsRun(c, start, states, actions) && n < |states|
    requires states[n].loop.pc == Waiting && !Attended(states[n].sh)
    ensures states[n].sh.queued == 0 && !states[n].sh.syncToken
    ensures states[n].sh.enabled ==> states[n].loop.observed == states[n].sh.version
  {
    RunsAreSound(c, start, states, actions, n);
  }

  /** The deadlines that count while polling is enabled or disabled. */
  function Counting(d: Deadlines, enabled: bool): set<int> {
    if enabled then {d.config, d.status, d.watchdog, d.timeSync} else {d.watchdog, d.timeSync}
  }

  /** A waiting loop sleeps for a positive time, up to the least deadline that counts. */
  lemma {:induction false} NoSpin(c: Settings, start: int, states: seq<State>, actions: seq<Action>, n: nat)
    requires IsRun(c, start, states, actions) && n < |states| && states[n].loop.pc == Waiting
    ensures var s := states[n].loop;
      var next := NextDeadline(s.deadlines, s.l.enabled);
      && next - s.l.now > 0
      && next in Counting(s.deadlines, s.l.enabled)
      && forall d | d in Counting(s.deadlines, s.l.enabled) :: next <= d
  {
    RunsAreSound(c, start, states, actions, n);
  }

  /** Every poll, watchdog check and time synchronisation of every run has its reason, and none that has one is passed
      over: status is read exactly if polling was found enabled and either the status deadline had passed or the
      polling version was one not yet served; configuration likewise, unless the iteration has just written; the
      watchdog at its deadline; and the time is synchronised only at its deadline or on request. */
  lemma {:induction false} WorkHasItsReason(c: Settings, start: int, states: seq<State>, actions: seq<Action>, n: nat)
    requires IsRun(c, start, states, actions) && n < |actions|
    ensures var loop := states[n].loop;
      var unserved := loop.l.enabled && loop.l.version != loop.served;
      && (loop.current.noticed && InIteration(loop.pc) ==> unserved)
      && (actions[n].PollStatus? ==>
            (loop.l.statusDue <==> (loop.l.enabled && loop.deadlines.status <= loop.l.now) || unserved))
      && (actions[n].PollConfig? ==>
            (loop.l.configDue <==> loop.current.wroteAt.None?
                                   && ((loop.l.enabled && loop.deadlines.config <= loop.l.now) || unserved)))
      && (actions[n].CheckWatchdog? ==> (loop.l.watchdogDue <==> loop.deadlines.watchdog <= loop.l.now))
      && (actions[n].StartSync? ==> loop.deadlines.timeSync <= loop.l.now || loop.current.requested)
  {
    RunsAreSound(c, start, states, actions, n);
  }

  /** Action a is last taken at step m before step n. */
  ghost predicate LastTaken(actions: seq<Action>, n: nat, a: Action, m: nat) {
    m < n <= |actions| && actions[m] == a && forall i | m < i < n :: actions[i] != a
  }

  predicate Looking(pc: Pc) { pc != Top && pc != Stopped }

  /** When an iteration last read the clock, the switch, the version and the queue. */
  datatype Looks = Looks(clock: nat, enabled: nat, version: nat, queue: nat)

  ghost predicate AreReadings(states: seq<State>, actions: seq<Action>, n: nat, at: Looks)
    requires n < |states| == |actions| + 1
  {
    var pc, l := states[n].loop.pc, states[n].loop.l;
    && LastTaken(actions, n, ReadClock, at.clock) && l.now == states[at.clock].sh.clock
    && (pc.LoadingEnabled? ||
        (LastTaken(actions, n, LoadEnabled, at.enabled) && l.enabled == states[at.enabled].sh.enabled))
    && (pc.LoadingEnabled? || pc.LoadingVersion? ||
        (LastTaken(actions, n, LoadVersion, at.version) && l.version == states[at.version].sh.version))
    && (pc.LoadingEnabled? || pc.LoadingVersion? || pc.LoadingQueue? ||
        (LastTaken(actions, n, LoadQueue, at.queue) && (l.commandsDue <==> states[at.queue].sh.queued > 0)))
  }

  /** The local variables of an iteration are what it read the last time it looked at each of the four. */
  lemma {:induction false} LocalsAreReadings(c: Settings, start: int, states: seq<State>, actions: seq<Action>, n: nat)
    returns (at: Looks)
    requires IsRun(c, start, states, actions) && n < |states| && Looking(states[n].loop.pc)
    ensures AreReadings(states, actions, n, at)
  {
    at := Looks(0, 0, 0, 0);
    StepReads(states[n - 1], c, actions[n - 1]);
    if Looking(states[n - 1].loop.pc) {
      at := LocalsAreReadings(c, start, states, actions, n - 1);
    }
    at := OneMoreLook(states, actions, n, at);
  }

  lemma {:induction false} OneMoreLook(states: seq<State>, actions: seq<Action>, n: nat, before: Looks)
    returns (at: Looks)
    requires 0 < n < |states| == |actions| + 1 && Looking(states[n].loop.pc)
    requires ReadsOne(states[n - 1], actions[n - 1], states[n])
    requires Looking(states[n - 1].loop.pc) ==> AreReadings(states, actions, n - 1, before)
    ensures AreReadings(states, actions, n, at)
  {
    var m := n - 1;
    match actions[m]
    case ReadClock => at := before.(clock := m);
    case LoadEnabled => at := before.(enabled := m);
    case LoadVersion => at := before.(version := m);
    case LoadQueue => at := before.(queue := m);
    case _ => at := before;
  }

  /** A step reads at most one of the four, in their order, and leaves the others as they are. */
  ghost predicate ReadsOne(s: State, a: Action, t: State) {
    var pc, l := t.loop.pc, t.loop.l;
    Looking(pc) ==>
      && (if a.ReadClock? then l.now == s.sh.clock && pc == LoadingEnabled
          else l.now == s.loop.l.now && Looking(s.loop.pc))
      && (if a.LoadEnabled? then l.enabled == s.sh.enabled && pc == LoadingVersion
          else l.enabled == s.loop.l.enabled && (s.loop.pc == LoadingEnabled ==> pc == LoadingEnabled))
      && (if a.LoadVersion? then l.version == s.sh.version && pc == LoadingQueue
          else l.version == s.loop.l.version && (s.loop.pc == LoadingVersion ==> pc == LoadingVersion))
      && (if a.LoadQueue? then l.commandsDue <==> s.sh.queued > 0
          else l.commandsDue == s.loop.l.commandsDue && (s.loop.pc == LoadingQueue ==> pc == LoadingQueue))
  }

  lemma {:induction false} StepReads(s: State, c: Settings, a: Action)
    requires Enabled(s, a)
    ensures ReadsOne(s, a, Step(s, c, a))
  {
  }

  /** So nothing is polled in an iteration that finds polling disabled. */
  lemma {:induction false} PollsOnlyWhileEnabled(c: Settings, start: int, states: seq<State>, actions: seq<Action>,
                                                 n: nat) returns (m: nat)
    requires IsRun(c, start, states, actions) && n < |actions|
    requires (actions[n].PollStatus? && states[n].loop.l.statusDue)
          || (actions[n].PollConfig? && states[n].loop.l.configDue)
    ensures LastTaken(actions, n, LoadEnabled, m) && states[m].sh.enabled
  {
    RunsAreSound(c, start, states, actions, n);
    var at := LocalsAreReadings(c, start, states, actions, n);
    m := at.enabled;
  }

  /** The deadlines that the actions of a run call for: every poll, write, check and synchronisation sets its next one
      from the time at which it ends. */
  ghost function Marks(c: Settings, start: int, states: seq<State>, actions: seq<Action>, n: nat): Deadlines
    requires n <= |actions| == |states| - 1
  {
    if n == 0 then Deadlines(start, start, start + WATCHDOG_INTERVAL, start)
    else
      var d, l, now := Marks(c, start, states, actions, n - 1), states[n - 1].loop.l, states[n - 1].sh.clock;
      match actions[n - 1]
      case FinishWrites(true, true) => d.(config := now + CONFIG_READBACK_DELAY)
      case PollConfig(true) => if l.configDue then d.(config := now + c.configInterval) else d
      case CheckWatchdog(_) => if l.watchdogDue then d.(watchdog := now + WATCHDOG_INTERVAL) else d
      case FinishSync(_) => d.(timeSync := now + SYNC_TIME_INTERVAL)
      case PollStatus(_) => if l.statusDue then d.(status := now + c.statusInterval) else d
      case _ => d
  }

  lemma {:induction false} DeadlinesAreMarks(c: Settings, start: int, states: seq<State>, actions: seq<Action>, n: nat)
    requires IsRun(c, start, states, actions) && n < |states|
    ensures states[n].loop.deadlines == Marks(c, start, states, actions, n)
  {
    if n > 0 {
      DeadlinesAreMarks(c, start, states, actions, n - 1);
    }
  }

  /** Status polls that no reconnect asks for are at least the status interval apart: one that ends at step m is
      followed by none before the interval has passed. */
  lemma {:induction false} StatusPollsApart(c: Settings, start: int, states: seq<State>, actions: seq<Action>, m: nat,
                                            n: nat)
    requires IsRun(c, start, states, actions) && m < n < |actions|
    requires actions[m].PollStatus? && states[m].loop.l.statusDue
    requires actions[n].PollStatus? && states[n].loop.l.statusDue && !states[n].loop.current.noticed
    ensures states[m].sh.clock + c.statusInterval <= states[n].sh.clock
  {
    RunsAreSound(c, start, states, actions, n);
    StatusIsMarked(c, start, states, actions);
    StatusDeadlineStands(c, states, actions, m, n);
    var at := LocalsAreReadings(c, start, states, actions, n);
    ClockGoesOn(c, states, actions, at.clock, n);
  }

  /** A step goes on in time, and sets the status deadline only where status is polled. */
  ghost predicate MarksStatus(c: Settings, s: State, a: Action, t: State) {
    && s.sh.clock <= t.sh.clock
    && t.loop.deadlines.status
       == if a.PollStatus? && s.loop.l.statusDue then s.sh.clock + c.statusInterval else s.loop.deadlines.status
  }

  lemma {:induction false} StepMarksStatus(s: State, c: Settings, a: Action)
    requires Enabled(s, a)
    ensures MarksStatus(c, s, a, Step(s, c, a))
  {
  }

  lemma {:induction false} StatusIsMarked(c: Settings, start: int, states: seq<State>, actions: seq<Action>)
    requires IsRun(c, start, states, actions)
    ensures forall i | 0 <= i < |actions| :: MarksStatus(c, states[i], actions[i], states[i + 1])
  {
    forall i | 0 <= i < |actions| ensures MarksStatus(c, states[i], actions[i], states[i + 1]) {
      StepMarksStatus(states[i], c, actions[i]);
    }
  }

  lemma {:induction false} ClockGoesOn(c: Settings, states: seq<State>, actions: seq<Action>, m: nat, n: nat)
    requires |states| == |actions| + 1 && m <= n < |states|
    requires forall i | 0 <= i < |actions| :: MarksStatus(c, states[i], actions[i], states[i + 1])
    ensures states[m].sh.clock <= states[n].sh.clock
  {
    if m < n {
      assert MarksStatus(c, states[n - 1], actions[n - 1], states[n - 1 + 1]);
      ClockGoesOn(c, states, actions, m, n - 1);
    }
  }

  /** The deadline a poll at step m has set stands or has moved on. */
  lemma {:induction false} StatusDeadlineStands(c: Settings, states: seq<State>, actions: seq<Action>, m: nat, n: nat)
    requires |states| == |actions| + 1 && m < n < |states|
    requires forall i | 0 <= i < |actions| :: MarksStatus(c, states[i], actions[i], states[i + 1])
    requires actions[m].PollStatus? && states[m].loop.l.statusDue
    ensures states[m].sh.clock + c.statusInterval <= states[n].loop.deadlines.status
  {
    assert MarksStatus(c, states[n - 1], actions[n - 1], states[n - 1 + 1]);
    if m < n - 1 {
      StatusDeadlineStands(c, states, actions, m, n - 1);
      ClockGoesOn(c, states, actions, m, n - 1);
    }
  }

  /** Whenever polling has gone from disabled to enabled. */
  ghost function CountRises(states: seq<State>, n: nat): nat
    requires n < |states|
  {
    if n == 0 then 0
    else CountRises(states, n - 1) + if !states[n - 1].sh.enabled && states[n].sh.enabled then 1 else 0
  }

  lemma {:induction false} RisesAreCounted(c: Settings, start: int, states: seq<State>, actions: seq<Action>, n: nat)
    requires IsRun(c, start, states, actions) && n < |states|
    ensures states[n].past.rises == CountRises(states, n)
  {
    if n > 0 {
      RisesAreCounted(c, start, states, actions, n - 1);
      StepCountsRise(states[n - 1], c, actions[n - 1]);
    }
  }

  lemma {:induction false} StepCountsRise(s: State, c: Settings, a: Action)
    requires Enabled(s, a)
    ensures var t := Step(s, c, a); t.past.rises == s.past.rises + if !s.sh.enabled && t.sh.enabled then 1 else 0
  {
  }

  /** The actions after which a request for time synchronisation is outstanding. */
  predicate Asks(s: State, a: Action) {
    a.RequestSync? || (a.CheckWatchdog? && a.jumped && s.loop.l.watchdogDue)
  }

  /** Every request, by another goroutine or by the watchdog, is followed by a start of SyncTime, unless its token is
      still there, the loop is carrying it, or the loop has stopped. */
  lemma {:induction false} EveryRequestIsCarried(c: Settings, start: int, states: seq<State>, actions: seq<Action>,
                                                 m: nat, n: nat)
    requires IsRun(c, start, states, actions) && m < n < |states| && Asks(states[m], actions[m])
    ensures || (exists i | m < i < n :: actions[i] == StartSync)
            || states[n].sh.syncToken || Carrying(states[n].loop) || states[n].loop.pc == Stopped
  {
    if forall i | m < i < n :: actions[i] != StartSync {
      RequestIsNewest(c, start, states, actions, m, n);
      RunsAreSound(c, start, states, actions, n);
    }
  }

  lemma {:induction false} RequestIsNewest(c: Settings, start: int, states: seq<State>, actions: seq<Action>, m: nat,
                                           n: nat)
    requires IsRun(c, start, states, actions) && m < n < |states| && Asks(states[m], actions[m])
    requires forall i | m < i < n :: actions[i] != StartSync
    ensures states[n].past.lastRequest > states[n].past.lastSync
  {
    SyncIsKept(c, start, states, actions, n - 1);
    StepKeepsRequest(states[n - 1], c, actions[n - 1]);
    if m < n - 1 {
      RequestIsNewest(c, start, states, actions, m, n - 1);
    }
  }

  lemma {:induction false} SyncIsKept(c: Settings, start: int, states: seq<State>, actions: seq<Action>, n: nat)
    requires IsRun(c, start, states, actions) && n < |states|
    ensures SyncKept(states[n].sh, states[n].loop, states[n].past)
  {
    RunsAreSound(c, start, states, actions, n);
  }

  lemma {:induction false} StepKeepsRequest(s: State, c: Settings, a: Action)
    requires Enabled(s, a) && a != StartSync && SyncKept(s.sh, s.loop, s.past)
    ensures var t := Step(s, c, a);
      Asks(s, a) || s.past.lastRequest > s.past.lastSync ==> t.past.lastRequest > t.past.lastSync
  {
  }

  /** No time-sync request is lost: at all times a request newer than the last start of SyncTime, coalesced or
      raised by the watchdog though it may be, has its token in the channel, or the loop is carrying it to SyncTime,
      or the loop has stopped. */
  lemma {:induction false} NoLostTimeSync(c: Settings, start: int, states: seq<State>, actions: seq<Action>, n: nat)
    requires IsRun(c, start, states, actions) && n < |states| && states[n].past.lastRequest > states[n].past.lastSync
    ensures states[n].sh.syncToken || Carrying(states[n].loop) || states[n].loop.pc == Stopped
  {
    RunsAreSound(c, start, states, actions, n);
  }

  /** Whenever the MQTT mutex is free, polling is enabled exactly while MQTT is connected, and the polling version
      counts the reconnects. */
  lemma {:induction false} PollingFollowsConnection(c: Settings, start: int, states: seq<State>, actions: seq<Action>,
                                                    n: nat)
    requires IsRun(c, start, states, actions) && n < |states| && states[n].sh.setter == Idle
    ensures states[n].sh.enabled == states[n].sh.connected && states[n].sh.version == states[n].past.rises
  {
    RunsAreSound(c, start, states, actions, n);
  }

  /** Each completed iteration that noticed a new version polled status, and polled configuration or had just
      written and set a read-back two seconds ahead; and the config deadline stays there until a later iteration
      writes or polls configuration. */
  lemma {:induction false} ReconnectPollsFresh(c: Settings, start: int, states: seq<State>, actions: seq<Action>,
                                               n: nat)
    requires IsRun(c, start, states, actions) && n < |states| && states[n].loop.last.noticed
    ensures var loop := states[n].loop;
      && Answered(loop.last)
      && (!loop.last.configPolled && Untouched(loop) ==>
            loop.deadlines.config == loop.last.wroteAt.value + CONFIG_READBACK_DELAY)
  {
    RunsAreSound(c, start, states, actions, n);
  }

  /** When the loop waits undisturbed with polling enabled, completed fresh iterations have answered every
      reconnect. */
  lemma {:induction false} EveryReconnectIsServed(c: Settings, start: int, states: seq<State>, actions: seq<Action>,
                                                  n: nat)
    requires IsRun(c, start, states, actions) && n < |states|
    requires states[n].loop.pc == Waiting && !Attended(states[n].sh) && states[n].sh.enabled
    ensures states[n].loop.served == states[n].past.rises
  {
    NoLostWakeUp(c, start, states, actions, n);
    RunsAreSound(c, start, states, actions, n);
  }
}
