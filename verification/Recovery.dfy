/** Retry, reset and retry again: recovery.go. Every outside call is answered by a script, indexed by the number of
    events so far, so a statement about all scripts is a statement about all behaviours of the link, the reset unit,
    the clock and the context. */
module Recovery {
  import opened Basics
  import RegisterCodec

  /** The kinds errors.As can find in an error; a joined or wrapped error has the kinds of its parts. */
  datatype Error = Error(fatal: bool, rejected: bool)

  const PLAIN: Error := Error(false, false)

  function Join(a: Error, b: Error): Error {
    Error(a.fatal || b.fatal, a.rejected || b.rejected)
  }

  datatype Outcome = Success | Failure(error: Error)

  /** RECOVERY settings; durations are int64 nanoseconds. */
  datatype Config = Config(attempts: nat, initial: Int64, max: Int64, cooldown: Int64)

  /** What readConfig enforces, and that no duration is below the nanosecond it would be truncated to zero at. */
  predicate Configured(c: Config) {
    1 <= c.attempts <= 20 && 0 < c.initial <= c.max && 0 < c.cooldown
  }

  datatype Event =
    | Operated(outcome: Outcome)
    | Closed
    | Slept(delay: Int64, outcome: Outcome)
    | Connected(outcome: Outcome)
    | ResetRequested(at: int, outcome: Outcome)
    | Notified(available: bool)

  datatype World = World(
    operate: nat -> Outcome,
    sleep: nat -> Outcome,
    connect: nat -> Outcome,
    reset: nat -> Outcome,
    clock: nat -> int,
    cancelled: nat -> bool,
    hasSink: bool)

  type Log = seq<Event>

  /** delay = min(delay*2, MaxBackoff), in 64-bit arithmetic. */
  function NextDelay(c: Config, delay: Int64): (next: Int64)
    ensures next <= c.max
  {
    Min(WrapInt64(delay * 2), c.max)
  }

  /** One reconnect round from its given attempt on: the log and the error it ends with. */
  function Reconnect(w: World, c: Config, log: Log, attempt: nat, delay: Int64, last: Outcome): (Log, Outcome)
    requires attempt >= 1
    decreases c.attempts + 1 - attempt
  {
    if attempt > c.attempts then (log, last)
    else
      var slept := w.sleep(|log| + 1);
      var rested := log + [Closed, Slept(delay, slept)];
      if slept.Failure? then (rested, slept)
      else
        var connected := w.connect(|rested|);
        var linked := rested + [Connected(connected)];
        if connected.Failure? then Reconnect(w, c, linked, attempt + 1, NextDelay(c, delay), connected)
        else
          var operated := w.operate(|linked|);
          var tried := linked + [Operated(operated)];
          if operated.Success? || !operated.error.fatal then (tried, operated)
          else Reconnect(w, c, tried, attempt + 1, NextDelay(c, delay), operated)
  }

  function Round(w: World, c: Config, log: Log): (Log, Outcome) {
    Reconnect(w, c, log, 1, c.initial, Success)
  }

  function Notify(w: World, log: Log, available: bool): Log {
    if w.hasSink then log + [Notified(available)] else log
  }

  datatype CallResult = CallResult(log: Log, lastReset: Option<int>, outcome: Outcome)

  /** Where a call stands after its first reconnect round. */
  function FirstRound(w: World, c: Config, log: Log): (Log, Outcome) {
    Round(w, c, Notify(w, log + [Operated(w.operate(|log|))], false))
  }

  /** executeWithRecoveryLocked. */
  function Execute(w: World, c: Config, lastReset: Option<int>, log: Log): CallResult {
    var first := w.operate(|log|);
    var tried := log + [Operated(first)];
    if first.Success? || !first.error.fatal then CallResult(tried, lastReset, first)
    else
      var (retried, again) := FirstRound(w, c, log);
      if again.Success? then CallResult(Notify(w, retried, true), lastReset, Success)
      else if !again.error.fatal || w.cancelled(|retried|) then
        CallResult(retried, lastReset, Failure(Join(first.error, again.error)))
      else if CoolingDown(c, lastReset, w.clock(|retried|)) then
        CallResult(retried, lastReset, Failure(Join(first.error, PLAIN)))
      else
        AfterReset(w, c, lastReset, retried, first.error)
  }

  predicate CoolingDown(c: Config, lastReset: Option<int>, now: int) {
    lastReset.Some? && now - lastReset.value < c.cooldown
  }

  function AfterReset(w: World, c: Config, lastReset: Option<int>, log: Log, first: Error): CallResult {
    var now := w.clock(|log|);
    var reset := w.reset(|log|);
    var requested := log + [ResetRequested(now, reset)];
    if reset.Failure? then CallResult(requested, lastReset, Failure(Join(first, reset.error)))
    else
      var (final, end) := Round(w, c, requested);
      if end.Success? then CallResult(Notify(w, final, true), Some(now), Success)
      else CallResult(final, Some(now), Failure(Join(first, end.error)))
  }

  class RecoveringInverter {
    const world: World
    const config: Config
    var lastReset: Option<int>
    var log: Log

    constructor (world: World, config: Config)
      ensures this.world == world && this.config == config && lastReset == None && log == []
    {
      this.world, this.config, lastReset, log := world, config, None, [];
    }

    method NotifyAvailability(available: bool)
      modifies this`log
      ensures log == Notify(world, old(log), available)
    {
      if world.hasSink {
        log := log + [Notified(available)];
      }
    }

    method ReconnectAndValidate() returns (reconnectErr: Outcome)
      modifies this`log
      ensures (log, reconnectErr) == Round(world, config, old(log))
    {
      var delay := config.initial;
      reconnectErr := Success;
      var attempt := 1;
      while attempt <= config.attempts
        invariant attempt >= 1
        invariant Round(world, config, old(log)) == Reconnect(world, config, log, attempt, delay, reconnectErr)
        decreases config.attempts + 1 - attempt
      {
        ghost var before := log;
        log := log + [Closed];
        var slept := world.sleep(|log|);
        log := log + [Slept(delay, slept)];
        assert log == before + [Closed, Slept(delay, slept)];
        if slept.Failure? {
          return slept;
        }
        var connected := world.connect(|log|);
        log := log + [Connected(connected)];
        if connected.Success? {
          var validated := world.operate(|log|);
          log := log + [Operated(validated)];
          if validated.Success? {
            return Success;
          } else if !validated.error.fatal {
            return validated;
          } else {
            reconnectErr := validated;
          }
        } else {
          reconnectErr := connected;
        }
        delay := NextDelay(config, delay);
        attempt := attempt + 1;
      }
    }

    method ExecuteWithRecovery() returns (outcome: Outcome)
      modifies this
      ensures CallResult(log, lastReset, outcome) == Execute(world, config, old(lastReset), old(log))
    {
      var operationErr := world.operate(|log|);
      log := log + [Operated(operationErr)];
      if operationErr.Success? || !operationErr.error.fatal {
        return operationErr;
      }
      NotifyAvailability(false);
      var err := ReconnectAndValidate();
      if err.Success? {
        NotifyAvailability(true);
        return Success;
      } else if !err.error.fatal || world.cancelled(|log|) {
        return Failure(Join(operationErr.error, err.error));
      }
      var now := world.clock(|log|);
      if lastReset.Some? && now - lastReset.value < config.cooldown {
        return Failure(Join(operationErr.error, PLAIN));
      }
      var reset := world.reset(|log|);
      log := log + [ResetRequested(now, reset)];
      if reset.Failure? {
        return Failure(Join(operationErr.error, reset.error));
      }
      lastReset := Some(now);
      err := ReconnectAndValidate();
      if err.Failure? {
        return Failure(Join(operationErr.error, err.error));
      }
      NotifyAvailability(true);
      outcome := Success;
    }
  }

  // ---- Outcome ------------------------------------------------------------------------------------------------

  function LastOperation(log: Log): Option<Outcome> {
    if log == [] then None
    else if log[|log| - 1].Operated? then Some(log[|log| - 1].outcome)
    else LastOperation(log[..|log| - 1])
  }

  function LastNotified(log: Log): Option<bool> {
    if log == [] then None
    else if log[|log| - 1].Notified? then Some(log[|log| - 1].available)
    else LastNotified(log[..|log| - 1])
  }

  lemma {:induction false} LastOfAppend(log: Log, e: Event)
    ensures LastOperation(log + [e]) == if e.Operated? then Some(e.outcome) else LastOperation(log)
    ensures LastNotified(log + [e]) == if e.Notified? then Some(e.available) else LastNotified(log)
  {
    assert (log + [e])[..|log|] == log;
  }

  lemma {:induction false} LastOfRest(log: Log, delay: Int64, slept: Outcome)
    ensures LastOperation(log + [Closed, Slept(delay, slept)]) == LastOperation(log)
    ensures LastNotified(log + [Closed, Slept(delay, slept)]) == LastNotified(log)
  {
    LastOfAppend(log, Closed);
    LastOfAppend(log + [Closed], Slept(delay, slept));
    assert log + [Closed] + [Slept(delay, slept)] == log + [Closed, Slept(delay, slept)];
  }

  /** A round that makes any attempt succeeds exactly when its last operation call did, and notifies nobody. */
  lemma {:induction false} RoundOutcome(w: World, c: Config, log: Log, attempt: nat, delay: Int64, last: Outcome)
    requires attempt >= 1
    requires LastOperation(log).Some? && LastOperation(log).value.Failure?
    requires attempt > c.attempts ==> last.Failure?
    ensures var (log', outcome) := Reconnect(w, c, log, attempt, delay, last);
      && LastNotified(log') == LastNotified(log)
      && LastOperation(log').Some?
      && (outcome.Success? <==> LastOperation(log').value.Success?)
    decreases c.attempts + 1 - attempt
  {
    if attempt <= c.attempts {
      var slept := w.sleep(|log| + 1);
      var rested := log + [Closed, Slept(delay, slept)];
      LastOfRest(log, delay, slept);
      if slept.Success? {
        var connected := w.connect(|rested|);
        var linked := rested + [Connected(connected)];
        LastOfAppend(rested, Connected(connected));
        if connected.Failure? {
          RoundOutcome(w, c, linked, attempt + 1, NextDelay(c, delay), connected);
        } else {
          var operated := w.operate(|linked|);
          LastOfAppend(linked, Operated(operated));
          if operated.Failure? && operated.error.fatal {
            RoundOutcome(w, c, linked + [Operated(operated)], attempt + 1, NextDelay(c, delay), operated);
          }
        }
      }
    }
  }

  lemma {:induction false} LastOfNotify(w: World, log: Log, available: bool)
    ensures LastOperation(Notify(w, log, available)) == LastOperation(log)
    ensures LastNotified(Notify(w, log, available)) == if w.hasSink then Some(available) else LastNotified(log)
  {
    LastOfAppend(log, Notified(available));
  }

  /** With at least one attempt configured, the call returns nil exactly when its last operation call returned nil.
      After it, the last notification is "unavailable" exactly when it failed fatally, "available" when it recovered,
      and unchanged when no recovery was needed. */
  lemma {:induction false} ExecuteOutcome(w: World, c: Config, lastReset: Option<int>, log: Log)
    requires c.attempts >= 1
    ensures var r := Execute(w, c, lastReset, log);
      && LastOperation(r.log).Some?
      && (r.outcome.Success? <==> LastOperation(r.log).value.Success?)
      && LastNotified(r.log)
           == (var first := w.operate(|log|);
               if first.Success? || !first.error.fatal || !w.hasSink then LastNotified(log)
               else Some(r.outcome.Success?))
      && (r.outcome.Failure? ==> (r.outcome.error.fatal <==> w.operate(|log|).Failure? && w.operate(|log|).error.fatal))
  {
    var first := w.operate(|log|);
    var tried := log + [Operated(first)];
    LastOfAppend(log, Operated(first));
    if first.Failure? && first.error.fatal {
      var told := Notify(w, tried, false);
      LastOfNotify(w, tried, false);
      RoundOutcome(w, c, told, 1, c.initial, Success);
      var (retried, again) := Round(w, c, told);
      LastOfNotify(w, retried, true);
      if again.Failure? && again.error.fatal && !w.cancelled(|retried|)
         && !CoolingDown(c, lastReset, w.clock(|retried|)) {
        ResetOutcome(w, c, lastReset, retried, first.error);
      }
    }
  }

  lemma {:induction false} ResetOutcome(w: World, c: Config, lastReset: Option<int>, log: Log, first: Error)
    requires c.attempts >= 1 && first.fatal
    requires LastOperation(log).Some? && LastOperation(log).value.Failure?
    ensures var r := AfterReset(w, c, lastReset, log, first);
      && LastOperation(r.log).Some?
      && (r.outcome.Success? <==> LastOperation(r.log).value.Success?)
      && LastNotified(r.log) == (if r.outcome.Success? && w.hasSink then Some(true) else LastNotified(log))
      && (r.outcome.Failure? ==> r.outcome.error.fatal)
  {
    var event := ResetRequested(w.clock(|log|), w.reset(|log|));
    LastOfAppend(log, event);
    RoundOutcome(w, c, log + [event], 1, c.initial, Success);
    LastOfNotify(w, Round(w, c, log + [event]).0, true);
  }

  /** What a call returns agrees with its last operation call exactly when that is not left to an empty reconnect
      round: with no attempt configured the round is empty, its nil error reads as success, and a fatal failure is
      reported as recovered. The configuration's lower bound of 1 is what rules this out. */
  lemma {:induction false} TruthfulExactlyWhenAttempted(w: World, c: Config, lastReset: Option<int>, log: Log)
    ensures var r := Execute(w, c, lastReset, log);
      (LastOperation(r.log).Some? && (r.outcome.Success? <==> LastOperation(r.log).value.Success?))
      <==> (c.attempts >= 1 || w.operate(|log|).Success? || !w.operate(|log|).error.fatal)
  {
    var first := w.operate(|log|);
    var tried := log + [Operated(first)];
    LastOfAppend(log, Operated(first));
    if c.attempts >= 1 {
      ExecuteOutcome(w, c, lastReset, log);
    } else if first.Failure? && first.error.fatal {
      LastOfNotify(w, tried, false);
      LastOfNotify(w, Notify(w, tried, false), true);
    }
  }

  // ---- Bounds -------------------------------------------------------------------------------------------------

  function CountOperations(log: Log): nat {
    if log == [] then 0 else CountOperations(log[..|log| - 1]) + if log[|log| - 1].Operated? then 1 else 0
  }

  function CountConnects(log: Log): nat {
    if log == [] then 0 else CountConnects(log[..|log| - 1]) + if log[|log| - 1].Connected? then 1 else 0
  }

  function CountResets(log: Log): nat {
    if log == [] then 0 else CountResets(log[..|log| - 1]) + if log[|log| - 1].ResetRequested? then 1 else 0
  }

  /** The delays asked for, in order. */
  function Sleeps(log: Log): seq<Int64> {
    if log == [] then []
    else
      var rest := Sleeps(log[..|log| - 1]);
      if log[|log| - 1].Slept? then rest + [log[|log| - 1].delay] else rest
  }

  /** Time spent asleep: a delay of zero or less returns at once. */
  function TotalSleep(delays: seq<Int64>): nat {
    if delays == [] then 0 else TotalSleep(delays[..|delays| - 1]) + Max(0, delays[|delays| - 1])
  }

  lemma {:induction false} CountsOfAppend(log: Log, e: Event)
    ensures CountOperations(log + [e]) == CountOperations(log) + if e.Operated? then 1 else 0
    ensures CountConnects(log + [e]) == CountConnects(log) + if e.Connected? then 1 else 0
    ensures CountResets(log + [e]) == CountResets(log) + if e.ResetRequested? then 1 else 0
    ensures Sleeps(log + [e]) == if e.Slept? then Sleeps(log) + [e.delay] else Sleeps(log)
  {
    assert (log + [e])[..|log|] == log;
  }

  lemma {:induction false} CountsOfRest(log: Log, delay: Int64, slept: Outcome)
    ensures var rested := log + [Closed, Slept(delay, slept)];
      && CountOperations(rested) == CountOperations(log) && CountConnects(rested) == CountConnects(log)
      && CountResets(rested) == CountResets(log) && Sleeps(rested) == Sleeps(log) + [delay]
  {
    CountsOfAppend(log, Closed);
    CountsOfAppend(log + [Closed], Slept(delay, slept));
    assert log + [Closed] + [Slept(delay, slept)] == log + [Closed, Slept(delay, slept)];
  }

  /** The k-th delay of a round as the loop computes it. */
  function Delay(c: Config, k: nat): Int64
    requires k >= 1
  {
    if k == 1 then c.initial else NextDelay(c, Delay(c, k - 1))
  }

  /** The n delays of a round from attempt `from` on. */
  function Schedule(c: Config, from: nat, n: nat): (delays: seq<Int64>)
    requires from >= 1
    ensures |delays| == n
  {
    seq<Int64>(n, i requires 0 <= i < n => Delay(c, from + i))
  }

  /** What a stretch of n attempts may add to the log: the scheduled sleeps in order and without skipping, at most one
      connect and one operation call for each, and no reset. */
  ghost predicate Uses(c: Config, log: Log, log': Log, from: nat, n: nat)
    requires from >= 1
  {
    && Sleeps(log') == Sleeps(log) + Schedule(c, from, n)
    && CountConnects(log') <= CountConnects(log) + n
    && CountOperations(log') <= CountOperations(log) + n
    && CountResets(log') == CountResets(log)
  }

  lemma {:induction false} UsesTogether(c: Config, a: Log, b: Log, d: Log, from: nat, m: nat)
    requires from >= 1 && Uses(c, a, b, from, 1) && Uses(c, b, d, from + 1, m)
    ensures Uses(c, a, d, from, m + 1)
  {
    assert Schedule(c, from, 1) + Schedule(c, from + 1, m) == Schedule(c, from, m + 1);
    assert Sleeps(a) + Schedule(c, from, 1) + Schedule(c, from + 1, m)
        == Sleeps(a) + (Schedule(c, from, 1) + Schedule(c, from + 1, m));
  }

  lemma {:induction false} OneAttemptUses(w: World, c: Config, log: Log, attempt: nat)
    requires attempt >= 1
    ensures var rested := log + [Closed, Slept(Delay(c, attempt), w.sleep(|log| + 1))];
      var linked := rested + [Connected(w.connect(|rested|))];
      && Uses(c, log, rested, attempt, 1)
      && Uses(c, log, linked, attempt, 1)
      && Uses(c, log, linked + [Operated(w.operate(|linked|))], attempt, 1)
  {
    var slept := w.sleep(|log| + 1);
    var rested := log + [Closed, Slept(Delay(c, attempt), slept)];
    var linked := rested + [Connected(w.connect(|rested|))];
    CountsOfRest(log, Delay(c, attempt), slept);
    CountsOfAppend(rested, Connected(w.connect(|rested|)));
    CountsOfAppend(linked, Operated(w.operate(|linked|)));
    assert Schedule(c, attempt, 1) == [Delay(c, attempt)];
  }

  /** The last attempt failed in a way that calls for another. */
  predicate GivesUp(log: Log) {
    log != [] && match log[|log| - 1]
                 case Connected(outcome) => outcome.Failure?
                 case Operated(outcome) => outcome.Failure? && outcome.error.fatal
                 case _ => false
  }

  /** A round from attempt k on uses the schedule from its k-th delay on, for no more attempts than are left, and for
      all of them if it gives up. */
  lemma {:induction false} RoundBounds(w: World, c: Config, log: Log, attempt: nat, last: Outcome) returns (n: nat)
    requires attempt >= 1
    ensures n <= Max(0, c.attempts + 1 - attempt) && (attempt <= c.attempts ==> n >= 1)
    ensures Uses(c, log, Reconnect(w, c, log, attempt, Delay(c, attempt), last).0, attempt, n)
    ensures attempt <= c.attempts && GivesUp(Reconnect(w, c, log, attempt, Delay(c, attempt), last).0) ==>
              n == c.attempts + 1 - attempt
    decreases c.attempts + 1 - attempt
  {
    if attempt > c.attempts {
      return 0;
    }
    n := 1;
    var rested := log + [Closed, Slept(Delay(c, attempt), w.sleep(|log| + 1))];
    var connected := w.connect(|rested|);
    var linked := rested + [Connected(connected)];
    var operated := w.operate(|linked|);
    var log' := Reconnect(w, c, log, attempt, Delay(c, attempt), last).0;
    OneAttemptUses(w, c, log, attempt);
    if w.sleep(|log| + 1).Success? {
      if connected.Failure? {
        var m := RoundBounds(w, c, linked, attempt + 1, connected);
        UsesTogether(c, log, linked, log', attempt, m);
        n := m + 1;
      } else if operated.Failure? && operated.error.fatal {
        var tried := linked + [Operated(operated)];
        var m := RoundBounds(w, c, tried, attempt + 1, operated);
        UsesTogether(c, log, tried, log', attempt, m);
        n := m + 1;
      }
    }
  }

  // ---- The course of a round ----------------------------------------------------------------------------------

  ghost predicate NextIs(log: Log, i: nat, e: Event -> bool) {
    i + 1 < |log| && e(log[i + 1])
  }

  /** What follows event i of a round: each answer is the script's; after closing it sleeps, after sleeping it
      connects, once connected it tries the operation; a failed connect or a fatal operation error is followed by
      another attempt or is the error it gives up with, anything else ends it. */
  ghost predicate Follows(w: World, log: Log, end: Outcome, i: nat)
    requires i < |log|
  {
    var ends := (o: Outcome) => i + 1 == |log| && end == o;
    match log[i]
    case Closed => NextIs(log, i, (e: Event) => e.Slept?)
    case Slept(_, o) => o == w.sleep(i) && if o.Success? then NextIs(log, i, (e: Event) => e.Connected?) else ends(o)
    case Connected(o) =>
      && o == w.connect(i)
      && if o.Success? then NextIs(log, i, (e: Event) => e.Operated?)
         else NextIs(log, i, (e: Event) => e.Closed?) || ends(o)
    case Operated(o) =>
      && o == w.operate(i)
      && ((o.Failure? && o.error.fatal && NextIs(log, i, (e: Event) => e.Closed?)) || ends(o))
    case _ => false
  }

  /** Every event of a round has its reason, and a round begins by closing. With RoundBounds, which counts its attempts
      and gives their delays, this leaves nothing of its course open. */
  lemma {:induction false} RoundIsOrderly(w: World, c: Config, log: Log, attempt: nat, delay: Int64, last: Outcome)
    requires attempt >= 1
    ensures var (log', end) := Reconnect(w, c, log, attempt, delay, last);
      && log <= log' && (attempt > c.attempts ==> log' == log && end == last)
      && (attempt <= c.attempts ==> |log'| > |log| && log'[|log|].Closed?)
      && forall i | |log| <= i < |log'| :: Follows(w, log', end, i)
    decreases c.attempts + 1 - attempt
  {
    if attempt <= c.attempts {
      var (log', end) := Reconnect(w, c, log, attempt, delay, last);
      var rested := log + [Closed, Slept(delay, w.sleep(|log| + 1))];
      var linked := rested + [Connected(w.connect(|rested|))];
      var tried := linked + [Operated(w.operate(|linked|))];
      if w.sleep(|log| + 1).Success? {
        if w.connect(|rested|).Failure? {
          RoundIsOrderly(w, c, linked, attempt + 1, NextDelay(c, delay), w.connect(|rested|));
        } else if w.operate(|linked|).Failure? && w.operate(|linked|).error.fatal {
          RoundIsOrderly(w, c, tried, attempt + 1, NextDelay(c, delay), w.operate(|linked|));
        }
      }
    }
  }

  lemma {:induction false} CountsOfNotify(w: World, log: Log, available: bool)
    ensures var told := Notify(w, log, available);
      && CountOperations(told) == CountOperations(log) && CountConnects(told) == CountConnects(log)
      && CountResets(told) == CountResets(log) && Sleeps(told) == Sleeps(log)
  {
    CountsOfAppend(log, Notified(available));
  }

  /** One call makes at most 1 + 2N operation calls, 2N connects and one reset, and its sleeps are two rounds of the
      schedule, each from its start and at most N long: the first made exactly when the operation fails fatally, the
      second exactly when a reset is carried out. */
  lemma {:induction false} ExecuteBounds(w: World, c: Config, lastReset: Option<int>, log: Log)
    returns (m: nat, n: nat)
    ensures m <= c.attempts && n <= c.attempts
    ensures c.attempts >= 1 ==> (m > 0 <==> w.operate(|log|).Failure? && w.operate(|log|).error.fatal)
    ensures c.attempts >= 1 ==>
              (n > 0 <==> AsksReset(w, c, lastReset, log) && w.reset(|FirstRound(w, c, log).0|).Success?)
    ensures var log' := Execute(w, c, lastReset, log).log;
      && Sleeps(log') == Sleeps(log) + Schedule(c, 1, m) + Schedule(c, 1, n)
      && CountOperations(log') <= CountOperations(log) + 1 + m + n
      && CountConnects(log') <= CountConnects(log) + m + n
      && CountResets(log') <= CountResets(log) + 1
  {
    m, n := 0, 0;
    var first := w.operate(|log|);
    CountsOfAppend(log, Operated(first));
    if first.Failure? && first.error.fatal {
      m := FirstRoundBounds(w, c, log);
      CountsOfNotify(w, FirstRound(w, c, log).0, true);
    }
    if AsksReset(w, c, lastReset, log) {
      WithReset(w, c, lastReset, log);
      n := ResetBounds(w, c, lastReset, FirstRound(w, c, log).0, first.error);
    } else {
      WithoutReset(w, c, lastReset, log);
    }
  }

  lemma {:induction false} FirstRoundBounds(w: World, c: Config, log: Log) returns (m: nat)
    ensures m <= c.attempts && (c.attempts >= 1 ==> m >= 1)
    ensures var retried := FirstRound(w, c, log).0;
      && Sleeps(retried) == Sleeps(log) + Schedule(c, 1, m)
      && CountOperations(retried) <= CountOperations(log) + 1 + m
      && CountConnects(retried) <= CountConnects(log) + m && CountResets(retried) == CountResets(log)
  {
    var tried := log + [Operated(w.operate(|log|))];
    CountsOfAppend(log, Operated(w.operate(|log|)));
    CountsOfNotify(w, tried, false);
    m := RoundBounds(w, c, Notify(w, tried, false), 1, Success);
  }

  lemma {:induction false} ResetBounds(w: World, c: Config, lastReset: Option<int>, log: Log, first: Error)
    returns (n: nat)
    ensures n <= c.attempts && (c.attempts >= 1 ==> (n > 0 <==> w.reset(|log|).Success?))
    ensures var log' := AfterReset(w, c, lastReset, log, first).log;
      && Sleeps(log') == Sleeps(log) + Schedule(c, 1, n)
      && CountOperations(log') <= CountOperations(log) + n
      && CountConnects(log') <= CountConnects(log) + n
      && CountResets(log') == CountResets(log) + 1
  {
    var event := ResetRequested(w.clock(|log|), w.reset(|log|));
    CountsOfAppend(log, event);
    n := 0;
    if event.outcome.Success? {
      n := RoundBounds(w, c, log + [event], 1, Success);
      CountsOfNotify(w, Round(w, c, log + [event]).0, true);
    }
  }

  lemma {:induction false} DelayAtMostMax(c: Config, k: nat)
    requires c.initial <= c.max && k >= 1
    ensures Delay(c, k) <= c.max
  {
  }

  lemma {:induction false} SleepBounded(delays: seq<Int64>, max: nat)
    requires forall i | 0 <= i < |delays| :: delays[i] <= max
    ensures TotalSleep(delays) <= |delays| * max
  {
    if delays != [] {
      SleepBounded(delays[..|delays| - 1], max);
      assert |delays| * max == (|delays| - 1) * max + max;
    }
  }

  lemma {:induction false} SleepOfSchedule(c: Config, from: nat, n: nat)
    requires Configured(c) && from >= 1 && n <= c.attempts
    ensures TotalSleep(Schedule(c, from, n)) <= c.attempts * c.max
  {
    forall i | 0 <= i < n ensures Schedule(c, from, n)[i] <= c.max {
      DelayAtMostMax(c, from + i);
    }
    SleepBounded(Schedule(c, from, n), c.max);
    AtMost(n, c.attempts, c.max);
  }

  lemma {:induction false} SleepOfConcat(a: seq<Int64>, b: seq<Int64>)
    ensures TotalSleep(a + b) == TotalSleep(a) + TotalSleep(b)
  {
    if b == [] {
      assert a + b == a;
    } else {
      assert (a + b)[..|a + b| - 1] == a + b[..|b| - 1];
      SleepOfConcat(a, b[..|b| - 1]);
    }
  }

  /** One call sleeps for at most 2N * MaxBackoff in all. */
  lemma {:induction false} ExecuteSleepsLittle(w: World, c: Config, lastReset: Option<int>, log: Log)
    requires Configured(c)
    ensures TotalSleep(Sleeps(Execute(w, c, lastReset, log).log)) <= TotalSleep(Sleeps(log)) + 2 * (c.attempts * c.max)
  {
    var m, n := ExecuteBounds(w, c, lastReset, log);
    SleepOfConcat(Sleeps(log) + Schedule(c, 1, m), Schedule(c, 1, n));
    SleepOfConcat(Sleeps(log), Schedule(c, 1, m));
    SleepOfSchedule(c, 1, m);
    SleepOfSchedule(c, 1, n);
  }

  lemma {:induction false} AtMost(m: nat, n: nat, x: nat)
    requires m <= n
    ensures m * x <= n * x
  {
  }

  // ---- Backoff schedule ---------------------------------------------------------------------------------------

  /** Doubling from the initial backoff, capped at the maximum. */
  function IdealDelay(c: Config, k: nat): int
    requires k >= 1
  {
    Min(c.initial * RegisterCodec.Pow2(k - 1), c.max)
  }

  lemma {:induction false} IdealDoubles(c: Config, k: nat)
    requires 0 < c.initial <= c.max && k >= 1
    ensures 0 < IdealDelay(c, k)
    ensures IdealDelay(c, k + 1) == Min(2 * IdealDelay(c, k), c.max)
  {
    assert RegisterCodec.Pow2(k) == 2 * RegisterCodec.Pow2(k - 1);
    assert c.initial * RegisterCodec.Pow2(k) == 2 * (c.initial * RegisterCodec.Pow2(k - 1));
  }

  lemma {:induction false} IdealGrows(c: Config, j: nat, k: nat)
    requires 0 < c.initial <= c.max && 1 <= j <= k
    ensures IdealDelay(c, j) <= IdealDelay(c, k)
    decreases k - j
  {
    if j < k {
      IdealDoubles(c, j);
      IdealGrows(c, j + 1, k);
    }
  }

  lemma {:induction false} DelayIsIdeal(c: Config, k: nat)
    requires 0 < c.initial <= c.max && k >= 1
    requires k == 1 || IdealDelay(c, k - 1) < 0x4000_0000_0000_0000
    ensures Delay(c, k) == IdealDelay(c, k)
  {
    if k == 1 {
      assert RegisterCodec.Pow2(0) == 1;
    } else {
      if k > 2 { IdealGrows(c, k - 2, k - 1); }
      DelayIsIdeal(c, k - 1);
      IdealDoubles(c, k - 1);
      DoubleFits(IdealDelay(c, k - 1));
    }
  }

  lemma {:induction false} DoubleFits(delay: int)
    requires 0 < delay < 0x4000_0000_0000_0000
    ensures WrapInt64(delay * 2) == delay * 2
  {
  }

  /** The loop's delays are the capped doubling for every attempt exactly when the last delay but one is below 2^62
      ns: from there on doubling an int64 turns negative. Any MaxBackoff below 2^62 ns (146 years) is safe. */
  lemma {:induction false} BackoffIsCappedDoubling(c: Config)
    requires Configured(c)
    ensures (forall k | 1 <= k <= c.attempts :: Delay(c, k) == IdealDelay(c, k))
       <==> (c.attempts == 1 || IdealDelay(c, c.attempts - 1) < 0x4000_0000_0000_0000)
    ensures c.max < 0x4000_0000_0000_0000 ==> forall k | 1 <= k <= c.attempts :: Delay(c, k) == IdealDelay(c, k)
  {
    if c.attempts == 1 || IdealDelay(c, c.attempts - 1) < 0x4000_0000_0000_0000 {
      DelaysAreIdeal(c);
    } else {
      DoublingOverflows(c);
    }
  }

  lemma {:induction false} DelaysAreIdeal(c: Config)
    requires Configured(c)
    requires c.attempts == 1 || IdealDelay(c, c.attempts - 1) < 0x4000_0000_0000_0000
    ensures forall k | 1 <= k <= c.attempts :: Delay(c, k) == IdealDelay(c, k)
  {
    forall k | 1 <= k <= c.attempts ensures Delay(c, k) == IdealDelay(c, k) {
      if k > 1 { IdealGrows(c, k - 1, c.attempts - 1); }
      DelayIsIdeal(c, k);
    }
  }

  lemma {:induction false} DoublingOverflows(c: Config)
    requires Configured(c) && c.attempts > 1 && IdealDelay(c, c.attempts - 1) >= 0x4000_0000_0000_0000
    ensures Delay(c, c.attempts - 1) == IdealDelay(c, c.attempts - 1) ==> Delay(c, c.attempts) < 0
    ensures exists k | 1 <= k <= c.attempts :: Delay(c, k) != IdealDelay(c, k)
  {
    var n := c.attempts;
    IdealDoubles(c, n - 1);
    IdealDoubles(c, n);
    if Delay(c, n - 1) == IdealDelay(c, n - 1) {
      DoubleWraps(Delay(c, n - 1));
      assert Delay(c, n) != IdealDelay(c, n);
    }
  }

  lemma {:induction false} DoubleWraps(delay: Int64)
    requires delay >= 0x4000_0000_0000_0000
    ensures WrapInt64(delay * 2) < 0
  {
  }

  // ---- Reset rate ---------------------------------------------------------------------------------------------

  /** Times of the resets that were carried out. */
  function ResetTimes(log: Log): seq<int> {
    if log == [] then []
    else
      var rest := ResetTimes(log[..|log| - 1]);
      var e := log[|log| - 1];
      if e.ResetRequested? && e.outcome.Success? then rest + [e.at] else rest
  }

  lemma {:induction false} TimesOfAppend(log: Log, e: Event)
    ensures ResetTimes(log + [e])
         == if e.ResetRequested? && e.outcome.Success? then ResetTimes(log) + [e.at] else ResetTimes(log)
  {
    assert (log + [e])[..|log|] == log;
  }

  lemma {:induction false} RoundResetsNothing(w: World, c: Config, log: Log, attempt: nat, delay: Int64,
                                              last: Outcome)
    requires attempt >= 1
    ensures ResetTimes(Reconnect(w, c, log, attempt, delay, last).0) == ResetTimes(log)
    decreases c.attempts + 1 - attempt
  {
    if attempt <= c.attempts {
      var slept := w.sleep(|log| + 1);
      var rested := log + [Closed, Slept(delay, slept)];
      TimesOfAppend(log, Closed);
      TimesOfAppend(log + [Closed], Slept(delay, slept));
      assert log + [Closed] + [Slept(delay, slept)] == rested;
      if slept.Success? {
        var connected := w.connect(|rested|);
        var linked := rested + [Connected(connected)];
        TimesOfAppend(rested, Connected(connected));
        if connected.Failure? {
          RoundResetsNothing(w, c, linked, attempt + 1, NextDelay(c, delay), connected);
        } else {
          var operated := w.operate(|linked|);
          TimesOfAppend(linked, Operated(operated));
          if operated.Failure? && operated.error.fatal {
            RoundResetsNothing(w, c, linked + [Operated(operated)], attempt + 1, NextDelay(c, delay), operated);
          }
        }
      }
    }
  }

  /** The condition under which a call asks for a reset: the operation and then a whole reconnect round failed
      fatally, the context is live, and no reset is remembered or the cooldown has passed since. */
  predicate AsksReset(w: World, c: Config, lastReset: Option<int>, log: Log) {
    var first := w.operate(|log|);
    var (retried, again) := FirstRound(w, c, log);
    && first.Failure? && first.error.fatal
    && again.Failure? && again.error.fatal
    && !w.cancelled(|retried|)
    && (lastReset.None? || w.clock(|retried|) - lastReset.value >= c.cooldown)
  }

  /** A call that does not ask for a reset is over with its operation, unless that fails fatally, and otherwise with its
      first round. */
  lemma {:induction false} WithoutReset(w: World, c: Config, lastReset: Option<int>, log: Log)
    requires !AsksReset(w, c, lastReset, log)
    ensures Execute(w, c, lastReset, log).lastReset == lastReset
    ensures var r := Execute(w, c, lastReset, log);
      var (retried, again) := FirstRound(w, c, log);
      if w.operate(|log|).Success? || !w.operate(|log|).error.fatal then
        r.log == log + [Operated(w.operate(|log|))] && r.outcome == w.operate(|log|)
      else
        && r.log == (if again.Success? then Notify(w, retried, true) else retried)
        && (r.outcome.Success? <==> again.Success?)
  {
    var first := w.operate(|log|);
    if first.Failure? && first.error.fatal {
      var (retried, again) := FirstRound(w, c, log);
      if again.Failure? && again.error.fatal && !w.cancelled(|retried|) {
        assert CoolingDown(c, lastReset, w.clock(|retried|));
      }
    }
  }

  lemma {:induction false} WithReset(w: World, c: Config, lastReset: Option<int>, log: Log)
    requires AsksReset(w, c, lastReset, log)
    ensures Execute(w, c, lastReset, log)
         == AfterReset(w, c, lastReset, FirstRound(w, c, log).0, w.operate(|log|).error)
  {
  }

  /** A reset is requested exactly under that condition. */
  lemma {:induction false} ResetExactlyWhenExhausted(w: World, c: Config, lastReset: Option<int>, log: Log)
    ensures CountResets(Execute(w, c, lastReset, log).log)
         == CountResets(log) + if AsksReset(w, c, lastReset, log) then 1 else 0
  {
    var first := w.operate(|log|);
    FirstRoundResetsNothing(w, c, log);
    CountsOfAppend(log, Operated(first));
    CountsOfNotify(w, FirstRound(w, c, log).0, true);
    if AsksReset(w, c, lastReset, log) {
      WithReset(w, c, lastReset, log);
      TimesAfterReset(w, c, lastReset, FirstRound(w, c, log).0, first.error);
    } else {
      WithoutReset(w, c, lastReset, log);
    }
  }

  /** A call remembers the reset it carried out, if any, and never carries one out before the cooldown of the last. */
  lemma {:induction false} ResetIsRemembered(w: World, c: Config, lastReset: Option<int>, log: Log)
    returns (carried: Option<int>)
    ensures Execute(w, c, lastReset, log).lastReset == if carried.Some? then carried else lastReset
    ensures ResetTimes(Execute(w, c, lastReset, log).log)
         == if carried.Some? then ResetTimes(log) + [carried.value] else ResetTimes(log)
    ensures carried.Some? && lastReset.Some? ==> lastReset.value + c.cooldown <= carried.value
  {
    var first := w.operate(|log|);
    var retried := FirstRound(w, c, log).0;
    FirstRoundResetsNothing(w, c, log);
    if AsksReset(w, c, lastReset, log) {
      WithReset(w, c, lastReset, log);
      TimesAfterReset(w, c, lastReset, retried, first.error);
      carried := if w.reset(|retried|).Success? then Some(w.clock(|retried|)) else None;
    } else {
      WithoutReset(w, c, lastReset, log);
      TimesOfAppend(log, Operated(first));
      TimesOfAppend(retried, Notified(true));
      carried := None;
    }
  }

  lemma {:induction false} FirstRoundResetsNothing(w: World, c: Config, log: Log)
    ensures CountResets(FirstRound(w, c, log).0) == CountResets(log)
    ensures ResetTimes(FirstRound(w, c, log).0) == ResetTimes(log)
  {
    var tried := log + [Operated(w.operate(|log|))];
    CountsOfAppend(log, Operated(w.operate(|log|)));
    TimesOfAppend(log, Operated(w.operate(|log|)));
    var told := Notify(w, tried, false);
    CountsOfNotify(w, tried, false);
    TimesOfAppend(tried, Notified(false));
    var _ := RoundBounds(w, c, told, 1, Success);
    RoundResetsNothing(w, c, told, 1, c.initial, Success);
  }

  lemma {:induction false} TimesAfterReset(w: World, c: Config, lastReset: Option<int>, log: Log, first: Error)
    ensures var r := AfterReset(w, c, lastReset, log, first);
      && CountResets(r.log) == CountResets(log) + 1
      && r.lastReset == (if w.reset(|log|).Success? then Some(w.clock(|log|)) else lastReset)
      && ResetTimes(r.log) == if w.reset(|log|).Success? then ResetTimes(log) + [w.clock(|log|)] else ResetTimes(log)
  {
    var event := ResetRequested(w.clock(|log|), w.reset(|log|));
    var _ := ResetBounds(w, c, lastReset, log, first);
    TimesOfAppend(log, event);
    if event.outcome.Success? {
      RoundResetsNothing(w, c, log + [event], 1, c.initial, Success);
      TimesOfAppend(Round(w, c, log + [event]).0, Notified(true));
    }
  }

  // ---- Notifications ------------------------------------------------------------------------------------------

  /** What the sink has been told, in order. */
  function Notices(log: Log): seq<bool> {
    if log == [] then []
    else
      var rest := Notices(log[..|log| - 1]);
      if log[|log| - 1].Notified? then rest + [log[|log| - 1].available] else rest
  }

  lemma {:induction false} NoticesUnchanged(log: Log, log': Log)
    requires log <= log' && forall i | |log| <= i < |log'| :: !log'[i].Notified?
    ensures Notices(log') == Notices(log)
  {
    if |log| < |log'| {
      NoticesUnchanged(log, log'[..|log'| - 1]);
    } else {
      assert log == log';
    }
  }

  lemma {:induction false} RoundTellsNothing(w: World, c: Config, log: Log)
    ensures Notices(Round(w, c, log).0) == Notices(log)
  {
    RoundIsOrderly(w, c, log, 1, c.initial, Success);
    var (log', end) := Round(w, c, log);
    forall i | |log| <= i < |log'| ensures !log'[i].Notified? {
      assert Follows(w, log', end, i);
    }
    NoticesUnchanged(log, log');
  }

  lemma {:induction false} NoticesOfAppend(log: Log, e: Event)
    ensures Notices(log + [e]) == if e.Notified? then Notices(log) + [e.available] else Notices(log)
  {
    assert (log + [e])[..|log|] == log;
  }

  /** The sink is told "unavailable" as soon as the operation has failed fatally, before anything else is tried, then
      "available" exactly if the call succeeds after all, and otherwise nothing. */
  lemma {:induction false} TellsExactly(w: World, c: Config, lastReset: Option<int>, log: Log)
    ensures ToldExactly(w, log, Execute(w, c, lastReset, log))
  {
    var (retried, again) := FirstRound(w, c, log);
    NoticesOfAppend(log, Operated(w.operate(|log|)));
    FirstRoundTells(w, c, log);
    NoticesOfAppend(retried, Notified(true));
    if AsksReset(w, c, lastReset, log) {
      WithReset(w, c, lastReset, log);
      AfterResetTells(w, c, lastReset, retried, w.operate(|log|).error);
    } else {
      WithoutReset(w, c, lastReset, log);
    }
  }

  ghost predicate ToldExactly(w: World, log: Log, r: CallResult) {
    var fatal := w.operate(|log|).Failure? && w.operate(|log|).error.fatal;
    && Notices(r.log) == Notices(log) + (if !fatal || !w.hasSink then []
                                         else if r.outcome.Success? then [false, true] else [false])
    && (fatal && w.hasSink ==> |r.log| > |log| + 1 && r.log[|log| + 1] == Notified(false))
  }

  lemma {:induction false} FirstRoundTells(w: World, c: Config, log: Log)
    ensures var retried := FirstRound(w, c, log).0;
      && Notices(retried) == Notices(log) + (if w.hasSink then [false] else [])
      && |retried| > |log| && (w.hasSink ==> |retried| > |log| + 1 && retried[|log| + 1] == Notified(false))
  {
    var tried := log + [Operated(w.operate(|log|))];
    NoticesOfAppend(log, tried[|log|]);
    NoticesOfAppend(tried, Notified(false));
    RoundTellsNothing(w, c, Notify(w, tried, false));
    RoundIsOrderly(w, c, Notify(w, tried, false), 1, c.initial, Success);
  }

  /** After a reset another round is made, and its outcome is that of the call; without one the call fails. */
  lemma {:induction false} AfterResetTells(w: World, c: Config, lastReset: Option<int>, log: Log, first: Error)
    ensures var r := AfterReset(w, c, lastReset, log, first);
      var requested := log + [ResetRequested(w.clock(|log|), w.reset(|log|))];
      && requested <= r.log
      && (r.outcome.Success? <==> w.reset(|log|).Success? && Round(w, c, requested).1.Success?)
      && Notices(r.log) == Notices(log) + if r.outcome.Success? && w.hasSink then [true] else []
  {
    var requested := log + [ResetRequested(w.clock(|log|), w.reset(|log|))];
    NoticesOfAppend(log, requested[|log|]);
    RoundTellsNothing(w, c, requested);
    RoundIsOrderly(w, c, requested, 1, c.initial, Success);
    NoticesOfAppend(Round(w, c, requested).0, Notified(true));
  }

  /** Consecutive calls of the same inverter. */
  function ExecuteMany(w: World, c: Config, calls: nat): CallResult {
    if calls == 0 then CallResult([], None, Success)
    else
      var before := ExecuteMany(w, c, calls - 1);
      Execute(w, c, before.lastReset, before.log)
  }

  ghost predicate ApartBy(times: seq<int>, gap: int) {
    forall i, j | 0 <= i < j < |times| :: times[i] + gap <= times[j]
  }

  function LastOf(times: seq<int>): Option<int> {
    if times == [] then None else Some(times[|times| - 1])
  }

  /** Over any run of calls, with a clock that may even be read out of order, resets that were carried out are at
      least ResetCooldown apart. */
  lemma {:induction false} ResetsAreApart(w: World, c: Config, calls: nat)
    requires Configured(c)
    ensures Rested(ExecuteMany(w, c, calls), c.cooldown)
  {
    if calls > 0 {
      ResetsAreApart(w, c, calls - 1);
      var before := ExecuteMany(w, c, calls - 1);
      var carried := ResetIsRemembered(w, c, before.lastReset, before.log);
      StaysRested(before, Execute(w, c, before.lastReset, before.log), carried, c.cooldown);
    }
  }

  /** The last reset is remembered, and resets lie apart. */
  ghost predicate Rested(r: CallResult, gap: nat) {
    ApartBy(ResetTimes(r.log), gap) && r.lastReset == LastOf(ResetTimes(r.log))
  }

  lemma {:induction false} StaysRested(before: CallResult, after: CallResult, carried: Option<int>, gap: nat)
    requires Rested(before, gap)
    requires after.lastReset == if carried.Some? then carried else before.lastReset
    requires ResetTimes(after.log) == ResetTimes(before.log) + if carried.Some? then [carried.value] else []
    requires carried.Some? && before.lastReset.Some? ==> before.lastReset.value + gap <= carried.value
    ensures Rested(after, gap)
  {
    if carried.Some? {
      OneMoreApart(ResetTimes(before.log), carried.value, gap);
    }
  }

  lemma {:induction false} OneMoreApart(times: seq<int>, next: int, gap: nat)
    requires ApartBy(times, gap) && (times != [] ==> times[|times| - 1] + gap <= next)
    ensures ApartBy(times + [next], gap)
  {
  }

  predicate Within(time: int, start: int, length: nat) {
    start <= time <= start + length
  }

  /** Number of times that fall in the window from `start`, of length `length`. */
  function InWindow(times: seq<int>, start: int, length: nat): nat {
    if times == [] then 0
    else
      InWindow(times[..|times| - 1], start, length) + if Within(times[|times| - 1], start, length) then 1 else 0
  }

  /** The n-th time in a window lies at least n - 1 gaps into it, and so do all later ones. */
  lemma {:induction false} LastInWindow(times: seq<int>, start: int, length: nat, gap: nat)
    requires gap > 0 && ApartBy(times, gap) && times != []
    ensures var n := InWindow(times, start, length);
      && n <= 1 + length / gap
      && (n > 0 ==> times[|times| - 1] >= start + (n - 1) * gap)
  {
    var n := |times| - 1;
    assert 0 <= length / gap;
    if n > 0 {
      LastInWindow(times[..n], start, length, gap);
      var before := InWindow(times[..n], start, length);
      assert times[n - 1] + gap <= times[n];
      if before > 0 {
        LaterInWindow(times[n - 1], times[n], start, length, gap, before);
      }
    }
  }

  lemma {:induction false} LaterInWindow(time: int, later: int, start: int, length: nat, gap: nat, n: nat)
    requires gap > 0 && n > 0 && time >= start + (n - 1) * gap && time + gap <= later
    ensures later >= start + n * gap >= start + (n - 1) * gap
    ensures Within(later, start, length) ==> n <= length / gap
  {
    assert n * gap == (n - 1) * gap + gap;
    if Within(later, start, length) {
      FitsInWindow(n, gap, length);
    }
  }

  lemma {:induction false} FitsInWindow(n: nat, gap: nat, length: nat)
    requires gap > 0 && n * gap <= length
    ensures n <= length / gap
  {
    if n > length / gap {
      AtMost(length / gap + 1, n, gap);
    }
  }

  /** So at most 1 + floor(T / ResetCooldown) resets fall in any window of length T. */
  lemma {:induction false} ResetRate(w: World, c: Config, calls: nat, start: int, length: nat)
    requires Configured(c)
    ensures InWindow(ResetTimes(ExecuteMany(w, c, calls).log), start, length) <= 1 + length / c.cooldown
  {
    ResetsAreApart(w, c, calls);
    var times := ResetTimes(ExecuteMany(w, c, calls).log);
    if times != [] {
      LastInWindow(times, start, length, c.cooldown);
    }
  }
}
