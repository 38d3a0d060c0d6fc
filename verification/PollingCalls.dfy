/** What one call of runPending does, told from the service's fields as they are when it begins, with every phase it
    goes through in one place. */
module PollingCalls {
  import opened Basics
  import opened CommandPipeline
  import opened Scheduler
  import opened Polling

  /** A call begins: the loop is at the top and the queue is as long as the state says. */
  ghost predicate Begins(h: Holding) {
    h.s.loop.pc == Top && h.s.sh.queued == |h.queue|
  }

  // ---- What there is to do ------------------------------------------------------------------------------------

  /** Polling has been switched on since the loop last looked. */
  ghost predicate Renewed(s: State) {
    s.sh.enabled && s.sh.version != s.loop.observed
  }

  ghost predicate ConfigDue(s: State) {
    s.sh.enabled && (s.loop.deadlines.config <= s.sh.clock || s.sh.version != s.loop.observed)
  }

  ghost predicate StatusDue(s: State) {
    s.sh.enabled && (s.loop.deadlines.status <= s.sh.clock || s.sh.version != s.loop.observed)
  }

  ghost predicate WatchdogDue(s: State) {
    s.loop.deadlines.watchdog <= s.sh.clock
  }

  ghost predicate SyncDue(s: State) {
    s.loop.deadlines.timeSync <= s.sh.clock || s.sh.syncToken
  }

  ghost predicate NothingToDo(h: Holding) {
    h.queue == [] && !ConfigDue(h.s) && !StatusDue(h.s) && !WatchdogDue(h.s) && !SyncDue(h.s)
  }

  /** After looking, the loop has the work there is before it, has remembered the version and has taken the request. */
  ghost predicate HasLooked(s: State, t: State) {
    && t.sh == s.sh.(syncToken := false) && t.past == s.past
    && t.loop == s.loop.(
         pc := t.loop.pc,
         l := Locals(s.sh.clock, s.sh.enabled, s.sh.version, s.sh.queued > 0, ConfigDue(s), WatchdogDue(s), SyncDue(s),
                     StatusDue(s)),
         observed := if Renewed(s) then s.sh.version else s.loop.observed,
         current := Iteration(Renewed(s), s.sh.version, s.sh.syncToken, false, false, None, None))
  }

  lemma {:induction false} LookFindsWork(s: State)
    ensures HasLooked(s, Looked(s))
    ensures Looked(s).loop.pc
         == if s.sh.queued > 0 || ConfigDue(s) || StatusDue(s) || WatchdogDue(s) || SyncDue(s) then AtCommands
            else Waiting
  {
  }

  // ---- Nothing to do ------------------------------------------------------------------------------------------

  /** A call waits exactly when there is nothing to do: no command, no poll that is due while polling is enabled, no
      watchdog check, no time to synchronise and no request to. Its timer then runs, for a positive time, to the least
      deadline that counts, and it changes nothing that only the loop changes. */
  lemma {:induction false} CallWaits(h: Holding, c: Settings, w: Surroundings)
    requires Begins(h)
    ensures var (t, outcome) := OneCall(h, c, w);
      && (outcome.Sleeps? || outcome.Cancelled? <==> NothingToDo(h))
      && (NothingToDo(h) ==>
            && (outcome.Cancelled? <==> w.ending.ContextDone?)
            && t.pending == h.pending && t.issued == h.issued && t.queue == QueueAfter(h.queue, w.visits)
            && t.s.loop.(pc := Top, l := h.s.loop.l, current := h.s.loop.current) == h.s.loop)
      && (outcome.Sleeps? ==>
            && outcome.wait > 0
            && outcome.wait + h.s.sh.clock in Counting(h.s.loop.deadlines, h.s.sh.enabled)
            && forall d | d in Counting(h.s.loop.deadlines, h.s.sh.enabled) :: outcome.wait <= d - h.s.sh.clock)
  {
    LookFindsWork(h.s);
    var looked := h.(s := Looked(h.s));
    if looked.s.loop.pc == Waiting {
      VisitsLeaveLoop(looked.s, w.visits);
    } else {
      WorkDoesNotWait(looked.s, c, DrainOf(h, w.writer), w);
    }
  }

  lemma {:induction false} WorkDoesNotWait(s: State, c: Settings, d: Drained, w: Surroundings)
    ensures !DoWork(s, c, d, w).1.Sleeps? && !DoWork(s, c, d, w).1.Cancelled?
  {
  }

  lemma {:induction false} VisitsLeaveLoop(s: State, visits: seq<Visit>)
    ensures Visited(s, visits).loop == s.loop
  {
    if visits != [] {
      VisitsLeaveLoop(s, visits[..|visits| - 1]);
    }
  }

  // ---- Work ---------------------------------------------------------------------------------------------------

  /** What is done once there is something to do, given what the drain has done, and when each phase ends. */
  datatype Plan = Plan(polls: bool, syncs: bool, written: int, read: int, synced: int, done: int)

  /** Configuration is not polled in an iteration that writes, and the time is not synchronised in one whose watchdog
      sees a jump: that request is left for the next one. */
  ghost function PlanOf(s: State, d: Drained, w: Surroundings): Plan {
    var polls := ConfigDue(s) && d.issued == [];
    var syncs := SyncDue(s) && !(WatchdogDue(s) && w.jumped);
    var written := s.sh.clock + if s.sh.queued > 0 then w.writeTime else 0;
    var read := written + if polls then w.configTime else 0;
    var synced := read + if syncs then w.syncTime else 0;
    Plan(polls, syncs, written, read, synced, synced + if StatusDue(s) then w.statusTime else 0)
  }

  ghost predicate PlanFails(s: State, d: Drained, w: Surroundings) {
    var p := PlanOf(s, d, w);
    d.broken || (p.polls && !w.configOk) || (p.syncs && !w.syncOk) || (StatusDue(s) && !w.statusOk)
  }

  /** The deadlines after a completed iteration: two seconds after the writes if something was written, otherwise an
      interval after the end of each poll, check or synchronisation made, otherwise as they were. */
  ghost function DeadlinesAfter(s: State, c: Settings, d: Drained, w: Surroundings): Deadlines {
    var p, old' := PlanOf(s, d, w), s.loop.deadlines;
    Deadlines(if d.issued != [] then p.written + CONFIG_READBACK_DELAY
              else if p.polls then p.read + c.configInterval else old'.config,
              if StatusDue(s) then p.done + c.statusInterval else old'.status,
              if WatchdogDue(s) then p.read + WATCHDOG_INTERVAL else old'.watchdog,
              if p.syncs then p.synced + SYNC_TIME_INTERVAL else old'.timeSync)
  }

  /** A call that fails ends with the phase that failed: nothing after it has taken its time or set its deadline. The
      deadlines of a synchronisation and of a status poll are set even if they fail. */
  ghost predicate HasFailed(s: State, c: Settings, d: Drained, w: Surroundings, t: State) {
    var p, after := PlanOf(s, d, w), DeadlinesAfter(s, c, d, w);
    if d.broken then t.sh.clock == p.written && t.loop.deadlines == s.loop.deadlines
    else if p.polls && !w.configOk then t.sh.clock == p.read && t.loop.deadlines == s.loop.deadlines
    else if p.syncs && !w.syncOk then
      t.sh.clock == p.synced && t.loop.deadlines == after.(status := s.loop.deadlines.status)
    else t.sh.clock == p.done && t.loop.deadlines == after
  }

  /** What such an iteration leaves to the next: the clock, an empty queue, a request and a wake-up if the watchdog saw
      a jump. */
  ghost function SharedAfter(s: State, d: Drained, w: Surroundings): Shared {
    var jumped := WatchdogDue(s) && w.jumped;
    s.sh.(clock := PlanOf(s, d, w).done, queued := 0, syncToken := jumped, wake := s.sh.wake || jumped)
  }

  ghost function IterationAfter(s: State, d: Drained, w: Surroundings): Iteration {
    var p := PlanOf(s, d, w);
    Iteration(Renewed(s), s.sh.version, s.sh.syncToken, StatusDue(s), p.polls,
              if d.issued != [] then Some(p.written) else None,
              if d.issued != [] then Some(p.written + CONFIG_READBACK_DELAY) else None)
  }

  /** A call with something to do drains the queue, then polls configuration if that is due and nothing was written,
      checks the watchdog, synchronises the time and polls status, each only if it is due. It fails exactly when a call
      it makes does. A configuration poll that is made forgets the pending writes. */
  lemma {:induction false} CallWorks(h: Holding, c: Settings, w: Surroundings)
    requires Begins(h) && !NothingToDo(h)
    ensures var (t, outcome) := OneCall(h, c, w);
      var d := Drain(Coalesce(h.queue), h.pending, w.writer);
      && outcome == (if PlanFails(h.s, d, w) then Fails else Completes)
      && t.queue == [] && t.issued == h.issued + d.issued
      && t.pending == (if PlanOf(h.s, d, w).polls && !d.broken then map[] else d.pending)
      && (outcome.Fails? ==> HasFailed(h.s, c, d, w, t.s))
      && (outcome.Completes? ==>
            && t.s.sh == SharedAfter(h.s, d, w) && t.s.loop.deadlines == DeadlinesAfter(h.s, c, d, w)
            && t.s.loop.last == IterationAfter(h.s, d, w)
            && t.s.loop.observed == if Renewed(h.s) then h.s.sh.version else h.s.loop.observed)
  {
    LookFindsWork(h.s);
    var looked := Looked(h.s);
    var d := DrainOf(h, w.writer);
    WroteMeansIssued(Coalesce(h.queue), h.pending, w.writer);
    EmptyQueueWritesNothing(h, w.writer);
    WritesGoToPlan(h.s, looked, c, d, w);
    var written := WriteSteps(looked, d.wrote, d.broken, w.writeTime);
    if !d.broken {
      PollGoesToPlan(h.s, written, c, d, w);
    }
  }

  lemma {:induction false} EmptyQueueWritesNothing(h: Holding, writer: Writer)
    ensures h.queue == [] ==> DrainOf(h, writer) == Drained([], h.pending, false, false)
  {
    assert h.queue == [] ==> Coalesce(h.queue) == [];
  }

  /** The state after the command phase. */
  ghost predicate HasWritten(s: State, d: Drained, w: Surroundings, t: State) {
    var written := PlanOf(s, d, w).written;
    && t.sh == s.sh.(clock := written, queued := 0, syncToken := false) && t.past == s.past
    && t.loop == s.loop.(
         pc := AtConfig,
         l := Locals(s.sh.clock, s.sh.enabled, s.sh.version, s.sh.queued > 0, PlanOf(s, d, w).polls, WatchdogDue(s),
                     SyncDue(s), StatusDue(s)),
         observed := if Renewed(s) then s.sh.version else s.loop.observed,
         deadlines := s.loop.deadlines.(
           config := if d.issued != [] then written + CONFIG_READBACK_DELAY else s.loop.deadlines.config),
         current := IterationAfter(s, d, w).(statusPolled := false, configPolled := false))
  }

  lemma {:induction false} WritesGoToPlan(s: State, looked: State, c: Settings, d: Drained, w: Surroundings)
    requires HasLooked(s, looked) && looked.loop.pc == AtCommands
    requires (d.wrote <==> d.issued != []) && (s.sh.queued == 0 ==> d.issued == [] && !d.broken)
    ensures var written := WriteSteps(looked, d.wrote, d.broken, w.writeTime);
      && (written.loop.pc == Stopped <==> d.broken)
      && (d.broken ==> HasFailed(s, c, d, w, written))
      && (!d.broken ==> HasWritten(s, d, w, written) && written.loop.l.configDue == PlanOf(s, d, w).polls)
  {
  }

  lemma {:induction false} PollGoesToPlan(s: State, written: State, c: Settings, d: Drained, w: Surroundings)
    requires HasWritten(s, d, w, written) && !d.broken
    ensures var (t, outcome) := PollAndSync(written, c, w);
      && outcome == (if PlanFails(s, d, w) then Fails else Completes)
      && (outcome.Fails? ==> HasFailed(s, c, d, w, t))
      && (outcome.Completes? ==>
            && t.sh == SharedAfter(s, d, w) && t.loop.deadlines == DeadlinesAfter(s, c, d, w)
            && t.loop.last == IterationAfter(s, d, w)
            && t.loop.observed == if Renewed(s) then s.sh.version else s.loop.observed)
  {
    ReadGoesToPlan(s, written, c, d, w);
    var read := ReadSteps(written, c, w.configOk, w.configTime);
    if read.loop.pc != Stopped {
      SyncGoesToPlan(s, read, c, d, w);
    }
  }

  lemma {:induction false} ReadGoesToPlan(s: State, written: State, c: Settings, d: Drained, w: Surroundings)
    requires HasWritten(s, d, w, written)
    ensures var read := ReadSteps(written, c, w.configOk, w.configTime);
      if PlanOf(s, d, w).polls && !w.configOk then
        read.loop.pc == Stopped && (!d.broken ==> HasFailed(s, c, d, w, read))
      else HasRead(s, c, d, w, read)
  {
  }

  /** The state after the configuration phase. */
  ghost predicate HasRead(s: State, c: Settings, d: Drained, w: Surroundings, t: State) {
    var p := PlanOf(s, d, w);
    && t.sh == s.sh.(clock := p.read, queued := 0, syncToken := false) && t.past == s.past
    && t.loop == s.loop.(
         pc := AtWatchdog,
         l := Locals(s.sh.clock, s.sh.enabled, s.sh.version, s.sh.queued > 0, p.polls, WatchdogDue(s), SyncDue(s),
                     StatusDue(s)),
         observed := if Renewed(s) then s.sh.version else s.loop.observed,
         deadlines := s.loop.deadlines.(config := DeadlinesAfter(s, c, d, w).config),
         current := IterationAfter(s, d, w).(statusPolled := false))
  }

  lemma {:induction false} SyncGoesToPlan(s: State, read: State, c: Settings, d: Drained, w: Surroundings)
    requires HasRead(s, c, d, w, read)
    ensures var p := PlanOf(s, d, w);
      var (t, outcome) := SyncAndFinish(read, c, w);
      && outcome == (if (p.syncs && !w.syncOk) || (StatusDue(s) && !w.statusOk) then Fails else Completes)
      && (outcome.Fails? && !d.broken && !(p.polls && !w.configOk) ==> HasFailed(s, c, d, w, t))
      && (outcome.Completes? ==>
            && t.sh == SharedAfter(s, d, w) && t.loop.deadlines == DeadlinesAfter(s, c, d, w)
            && t.loop.last == IterationAfter(s, d, w)
            && t.loop.observed == if Renewed(s) then s.sh.version else s.loop.observed)
  {
    var watched := WatchSteps(read, w.jumped);
    WatchGoesToPlan(s, read, c, d, w);
    var synced := SyncSteps(watched, w.syncOk, w.syncTime);
    if synced.loop.pc != Stopped {
      StatusGoesToPlan(s, synced, c, d, w);
    }
  }

  /** The state after the time-sync phase, if it did not fail. */
  ghost predicate HasSynced(s: State, c: Settings, d: Drained, w: Surroundings, t: State) {
    && t.sh == SharedAfter(s, d, w).(clock := PlanOf(s, d, w).synced)
    && t.loop.pc == AtStatus && t.loop.l.statusDue == StatusDue(s)
    && t.loop.deadlines == DeadlinesAfter(s, c, d, w).(status := s.loop.deadlines.status)
    && t.loop.current == IterationAfter(s, d, w).(statusPolled := false)
    && t.loop.observed == if Renewed(s) then s.sh.version else s.loop.observed
  }

  lemma {:induction false} WatchGoesToPlan(s: State, read: State, c: Settings, d: Drained, w: Surroundings)
    requires HasRead(s, c, d, w, read)
    ensures WatchSteps(read, w.jumped).loop.l.timeSyncDue == PlanOf(s, d, w).syncs
    ensures var synced := SyncSteps(WatchSteps(read, w.jumped), w.syncOk, w.syncTime);
      if PlanOf(s, d, w).syncs && !w.syncOk then
        && synced.loop.pc == Stopped && synced.sh.clock == PlanOf(s, d, w).synced
        && synced.loop.deadlines == DeadlinesAfter(s, c, d, w).(status := s.loop.deadlines.status)
      else HasSynced(s, c, d, w, synced)
  {
  }

  lemma {:induction false} StatusGoesToPlan(s: State, synced: State, c: Settings, d: Drained, w: Surroundings)
    requires HasSynced(s, c, d, w, synced)
    ensures var t := StatusSteps(synced, c, w.statusOk, w.statusTime);
      && (t.loop.pc == Stopped <==> StatusDue(s) && !w.statusOk)
      && t.sh.clock == PlanOf(s, d, w).done && t.loop.deadlines == DeadlinesAfter(s, c, d, w)
      && (t.loop.pc != Stopped ==>
            && t.sh == SharedAfter(s, d, w) && t.loop.deadlines == DeadlinesAfter(s, c, d, w)
            && t.loop.last == IterationAfter(s, d, w)
            && t.loop.observed == if Renewed(s) then s.sh.version else s.loop.observed)
  {
  }

  /** In particular a call that completes after an acknowledged write has polled no configuration, and leaves the next
      poll for two seconds after the end of the writes. */
  lemma {:induction false} WritePutsPollOff(h: Holding, c: Settings, w: Surroundings)
    requires Begins(h) && OneCall(h, c, w).1.Completes? && |OneCall(h, c, w).0.issued| > |h.issued|
    ensures PollIsPutOff(h, w, OneCall(h, c, w).0.s.loop)
  {
    CallWaits(h, c, w);
    CallWorks(h, c, w);
    EmptyQueueWritesNothing(h, w.writer);
    PlanPutsPollOff(h, c, DrainOf(h, w.writer), w, OneCall(h, c, w).0);
  }

  ghost predicate PollIsPutOff(h: Holding, w: Surroundings, loop: Loop) {
    && !loop.last.configPolled && loop.last.wroteAt == Some(h.s.sh.clock + w.writeTime)
    && loop.deadlines.config == h.s.sh.clock + w.writeTime + CONFIG_READBACK_DELAY
  }

  lemma {:induction false} PlanPutsPollOff(h: Holding, c: Settings, d: Drained, w: Surroundings, t: Holding)
    requires Begins(h) && (h.queue == [] ==> d.issued == [])
    requires t.issued == h.issued + d.issued && |t.issued| > |h.issued|
    requires t.s.loop.deadlines == DeadlinesAfter(h.s, c, d, w) && t.s.loop.last == IterationAfter(h.s, d, w)
    ensures PollIsPutOff(h, w, t.s.loop)
  {
  }

  /** And while polling is disabled a call polls nothing, whatever the deadlines. */
  lemma {:induction false} DisabledCallPollsNothing(h: Holding, c: Settings, w: Surroundings)
    requires Begins(h) && !h.s.sh.enabled && OneCall(h, c, w).1.Completes?
    ensures var loop := OneCall(h, c, w).0.s.loop;
      !loop.last.statusPolled && !loop.last.configPolled && loop.deadlines.status == h.s.loop.deadlines.status
  {
    CallWaits(h, c, w);
    CallWorks(h, c, w);
  }

  // ---- Rounds -------------------------------------------------------------------------------------------------

  /** A round is the visits before it and then a call, or the end of the loop if the context is cancelled by then. */
  lemma {:induction false} RoundCalls(h: Holding, c: Settings, round: Round)
    ensures var (t, outcome) := OneRound(h, c, round);
      var queue := QueueAfter(h.queue, round.visits);
      && (round.cancelled ==>
            outcome.Cancelled? && t == Holding(t.s, queue, h.pending, h.issued) && t.s.loop.pc == Stopped)
      && (!round.cancelled ==>
            (t, outcome) == OneCall(Holding(Visited(h.s, round.visits), queue, h.pending, h.issued), c, round.around))
  {
  }

  /** Run goes on through all its rounds, asleep or at work, and ends with the first that fails or is cancelled: running
      some rounds and then more is running them all. */
  lemma {:induction false} RunGoesOn(h: Holding, c: Settings, rounds: seq<Round>, more: seq<Round>)
    ensures var (t, outcome) := RunRounds(h, c, rounds);
      && (outcome.Fails? || outcome.Cancelled? || outcome.Completes?)
      && RunRounds(h, c, rounds + more) == if outcome.Completes? then RunRounds(t, c, more) else (t, outcome)
    ensures |rounds| == 1 ==>
              var (t, outcome) := OneRound(h, c, rounds[0]);
              RunRounds(h, c, rounds)
              == (t, if outcome.Fails? then Fails else if outcome.Cancelled? then Cancelled else Completes)
    decreases rounds
  {
    if rounds == [] {
      assert rounds + more == more;
    } else {
      assert (rounds + more)[0] == rounds[0] && (rounds + more)[1..] == rounds[1..] + more;
      var (after, outcome) := OneRound(h, c, rounds[0]);
      if !outcome.Fails? && !outcome.Cancelled? {
        RunGoesOn(after, c, rounds[1..], more);
      }
    }
  }
}
