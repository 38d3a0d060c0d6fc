/** The command pipeline over the recovering inverter, with every attempt of every write followed on the device. */
module RecoveredPipeline {
  import opened Basics
  import opened Registers
  import opened CommandPipeline
  import Inverter
  import opened Recovery
  import opened Service

  /** The attempts of one write, each from the state the last one left. */
  function AttemptWrites(rows: map<string, Definition>, s: Inverter.InverterState, key: string, value: Value,
                         links: seq<Inverter.Link>): (r: (Inverter.InverterState, seq<Outcome>))
    requires Inverter.InImage(rows, |s.image|)
    ensures |r.0.image| == |s.image| && |r.1| == |links|
  {
    if links == [] then (s, [])
    else
      var (before, replies) := AttemptWrites(rows, s, key, value, links[..|links| - 1]);
      var (after, reply) := Inverter.WriteOutcome(rows, before, key, value, links[|links| - 1]);
      (after, replies + [Reported(reply)])
  }

  /** The outcomes of the operation calls in a log. */
  function Operations(log: Log): seq<Outcome> {
    if log == [] then []
    else
      var rest := Operations(log[..|log| - 1]);
      if log[|log| - 1].Operated? then rest + [log[|log| - 1].outcome] else rest
  }

  lemma {:induction false} LastOfOperations(log: Log)
    ensures LastOperation(log) == if Operations(log) == [] then None else Some(Operations(log)[|Operations(log)| - 1])
  {
    if log != [] {
      LastOfOperations(log[..|log| - 1]);
    }
  }

  /** However many attempts landed on the device, it holds the old image or the written one. */
  lemma {:induction false} AttemptsWriteTheSame(rows: map<string, Definition>, s: Inverter.InverterState, key: string,
                                                value: Value, links: seq<Inverter.Link>)
    requires Inverter.InImage(rows, |s.image|)
    ensures var image := AttemptWrites(rows, s, key, value, links).0.image;
      var written := CommandPipeline.Execute(rows, s.image, CommandPipeline.Command(key, value));
      && (image == s.image || image == written)
      && CommandPipeline.Execute(rows, image, CommandPipeline.Command(key, value)) == written
  {
    if links != [] {
      AttemptsWriteTheSame(rows, s, key, value, links[..|links| - 1]);
    }
    WritingTwice(rows, s.image, key, value);
  }

  lemma {:induction false} WritingTwice(rows: map<string, Definition>, image: seq<Word>, key: string, value: Value)
    requires Inverter.InImage(rows, |image|)
    ensures var cmd := CommandPipeline.Command(key, value);
      CommandPipeline.Execute(rows, CommandPipeline.Execute(rows, image, cmd), cmd)
      == CommandPipeline.Execute(rows, image, cmd)
  {
    if Inverter.Accept(rows, key, value).Some? {
      Inverter.AcceptLength(rows, key, value);
    }
  }

  /** A write that recovery reports as done has the effect of one execution of the command, however many of its
      attempts failed and whether or not the failed ones reached the device. */
  lemma {:induction false} RecoveredWriteStores(w: World, c: Config, lastReset: Option<int>, log: Log,
                                                rows: map<string, Definition>, s: Inverter.InverterState, key: string,
                                                value: Value, links: seq<Inverter.Link>)
    requires c.attempts >= 1 && Inverter.InImage(rows, |s.image|) && links != []
    ensures var r := Recovery.Execute(w, c, lastReset, log);
      r.outcome.Success? && Operations(r.log) == Operations(log) + AttemptWrites(rows, s, key, value, links).1
      ==> AttemptWrites(rows, s, key, value, links).0.image
          == CommandPipeline.Execute(rows, s.image, CommandPipeline.Command(key, value))
  {
    var r := Recovery.Execute(w, c, lastReset, log);
    var replies := AttemptWrites(rows, s, key, value, links).1;
    if r.outcome.Success? && Operations(r.log) == Operations(log) + replies {
      ExecuteOutcome(w, c, lastReset, log);
      LastOfOperations(r.log);
      assert Operations(r.log)[|Operations(r.log)| - 1] == replies[|links| - 1];
      LastAttemptStores(rows, s, key, value, links);
    }
  }

  /** If the last attempt succeeds, it leaves the command executed once. */
  lemma {:induction false} LastAttemptStores(rows: map<string, Definition>, s: Inverter.InverterState, key: string,
                                             value: Value, links: seq<Inverter.Link>)
    requires Inverter.InImage(rows, |s.image|) && links != []
    requires AttemptWrites(rows, s, key, value, links).1[|links| - 1].Success?
    ensures AttemptWrites(rows, s, key, value, links).0.image
         == CommandPipeline.Execute(rows, s.image, CommandPipeline.Command(key, value))
  {
    var n := |links| - 1;
    AttemptsWriteTheSame(rows, s, key, value, links[..n]);
    var before := AttemptWrites(rows, s, key, value, links[..n]).0;
    var (after, reply) := Inverter.WriteOutcome(rows, before, key, value, links[n]);
    assert after.image == CommandPipeline.Execute(rows, before.image, CommandPipeline.Command(key, value));
  }

  // ---- Every call makes an attempt ----------------------------------------------------------------------------

  /** The operation calls of a longer log are those of the shorter one, and then some that happened after it. */
  lemma {:induction false} OperationsOfPrefix(a: Log, b: Log)
    requires a <= b
    ensures Operations(a) <= Operations(b)
    ensures forall k | |Operations(a)| <= k < |Operations(b)| ::
              exists i | |a| <= i < |b| :: b[i] == Operated(Operations(b)[k])
  {
    if |a| < |b| {
      var n := |b| - 1;
      OperationsOfPrefix(a, b[..n]);
      forall k | |Operations(a)| <= k < |Operations(b)|
        ensures exists i | |a| <= i < |b| :: b[i] == Operated(Operations(b)[k])
      {
        if k < |Operations(b[..n])| {
          assert Operations(b)[k] == Operations(b[..n])[k];
          var i :| |a| <= i < n && b[..n][i] == Operated(Operations(b[..n])[k]);
          assert b[i] == Operated(Operations(b)[k]);
        } else {
          assert b[n] == Operated(Operations(b)[k]);
        }
      }
    } else {
      assert a == b;
    }
  }

  lemma {:induction false} RoundExtends(w: World, c: Config, log: Log, attempt: nat, delay: Int64, last: Outcome)
    requires attempt >= 1
    ensures log <= Reconnect(w, c, log, attempt, delay, last).0
    decreases c.attempts + 1 - attempt
  {
    if attempt <= c.attempts && w.sleep(|log| + 1).Success? {
      var rested := log + [Closed, Slept(delay, w.sleep(|log| + 1))];
      var connected := w.connect(|rested|);
      var linked := rested + [Connected(connected)];
      if connected.Failure? {
        RoundExtends(w, c, linked, attempt + 1, NextDelay(c, delay), connected);
      } else {
        var operated := w.operate(|linked|);
        if operated.Failure? && operated.error.fatal {
          RoundExtends(w, c, linked + [Operated(operated)], attempt + 1, NextDelay(c, delay), operated);
        }
      }
    }
  }

  lemma {:induction false} CallAttempts(w: World, c: Config, r: CallResult)
    ensures |Operations(Recovered(w, c, r).log)| > |Operations(r.log)|
  {
    var first := w.operate(|r.log|);
    var tried := r.log + [Operated(first)];
    assert tried[..|r.log|] == r.log;
    assert |Operations(tried)| == |Operations(r.log)| + 1;
    CallExtends(w, c, r);
    OperationsOfPrefix(tried, Recovered(w, c, r).log);
  }

  lemma {:induction false} CallExtends(w: World, c: Config, r: CallResult)
    ensures r.log + [Operated(w.operate(|r.log|))] <= Recovered(w, c, r).log
  {
    var first := w.operate(|r.log|);
    if first.Failure? && first.error.fatal {
      RoundExtends(w, c, Notify(w, r.log + [Operated(first)], false), 1, c.initial, Success);
      var retried := FirstRound(w, c, r.log).0;
      RoundExtends(w, c, retried + [ResetRequested(w.clock(|retried|), w.reset(|retried|))], 1, c.initial, Success);
    }
  }

  // ---- One write on the device --------------------------------------------------------------------------------

  /** The links a call met are those its operation calls report. */
  ghost predicate Met(w: World, c: Config, r: CallResult, rows: map<string, Definition>, s: Inverter.InverterState,
                      cmd: Command, links: seq<Inverter.Link>)
    requires Inverter.InImage(rows, |s.image|)
  {
    Operations(Recovered(w, c, r).log) == Operations(r.log) + AttemptWrites(rows, s, cmd.key, cmd.value, links).1
  }

  /** Operation calls answer what the script says at their place in the log. */
  ghost predicate Scripted(w: World, log: Log, from: nat) {
    forall i | from <= i < |log| && log[i].Operated? :: log[i].outcome == w.operate(i)
  }

  lemma {:induction false} RoundIsScripted(w: World, c: Config, log: Log, attempt: nat, delay: Int64, last: Outcome,
                                           from: nat)
    requires attempt >= 1 && Scripted(w, log, from)
    ensures Scripted(w, Reconnect(w, c, log, attempt, delay, last).0, from)
    decreases c.attempts + 1 - attempt
  {
    if attempt <= c.attempts && w.sleep(|log| + 1).Success? {
      var rested := log + [Closed, Slept(delay, w.sleep(|log| + 1))];
      var connected := w.connect(|rested|);
      var linked := rested + [Connected(connected)];
      if connected.Failure? {
        RoundIsScripted(w, c, linked, attempt + 1, NextDelay(c, delay), connected, from);
      } else {
        var operated := w.operate(|linked|);
        if operated.Failure? && operated.error.fatal {
          RoundIsScripted(w, c, linked + [Operated(operated)], attempt + 1, NextDelay(c, delay), operated, from);
        }
      }
    }
  }

  lemma {:induction false} CallIsScripted(w: World, c: Config, r: CallResult)
    ensures Scripted(w, Recovered(w, c, r).log, |r.log|)
  {
    var first := w.operate(|r.log|);
    if first.Failure? && first.error.fatal {
      RoundIsScripted(w, c, Notify(w, r.log + [Operated(first)], false), 1, c.initial, Success, |r.log|);
      var retried := FirstRound(w, c, r.log).0;
      RoundIsScripted(w, c, retried + [ResetRequested(w.clock(|retried|), w.reset(|retried|))], 1, c.initial, Success,
                      |r.log|);
    }
  }

  lemma {:induction false} LinkForReply(rows: map<string, Definition>, s: Inverter.InverterState, key: string,
                                        value: Value, reply: Outcome) returns (link: Inverter.Link)
    requires Inverter.InImage(rows, |s.image|) && IsWriteReply(rows, key, value, reply)
    ensures Reported(Inverter.WriteOutcome(rows, s, key, value, link).1) == reply
  {
    var t: Inverter.InverterState, met: Inverter.Link :|
      Inverter.InImage(rows, |t.image|) && reply == Reported(Inverter.WriteOutcome(rows, t, key, value, met).1);
    link := met;
  }

  lemma {:induction false} LinksForReplies(rows: map<string, Definition>, s: Inverter.InverterState, key: string,
                                           value: Value, replies: seq<Outcome>) returns (links: seq<Inverter.Link>)
    requires Inverter.InImage(rows, |s.image|)
    requires forall i | 0 <= i < |replies| :: IsWriteReply(rows, key, value, replies[i])
    ensures AttemptWrites(rows, s, key, value, links).1 == replies
  {
    links := [];
    if replies != [] {
      var n := |replies| - 1;
      var before := LinksForReplies(rows, s, key, value, replies[..n]);
      links := OneMoreLink(rows, s, key, value, before, replies[n]);
      assert replies == replies[..n] + [replies[n]];
    }
  }

  lemma {:induction false} OneMoreLink(rows: map<string, Definition>, s: Inverter.InverterState, key: string,
                                       value: Value, before: seq<Inverter.Link>, reply: Outcome)
    returns (links: seq<Inverter.Link>)
    requires Inverter.InImage(rows, |s.image|) && IsWriteReply(rows, key, value, reply)
    ensures AttemptWrites(rows, s, key, value, links).1 == AttemptWrites(rows, s, key, value, before).1 + [reply]
  {
    var link := LinkForReply(rows, AttemptWrites(rows, s, key, value, before).0, key, value, reply);
    links := before + [link];
    assert links[..|links| - 1] == before;
  }

  /** Whatever a call's script answers, there are links it meets: what follows speaks of every call. */
  lemma {:induction false} EveryCallMeetsLinks(w: World, c: Config, r: CallResult, rows: map<string, Definition>,
                                               s: Inverter.InverterState, cmd: Command)
    returns (links: seq<Inverter.Link>)
    requires Inverter.InImage(rows, |s.image|) && Performs(w, rows, WriteCall(cmd.key, cmd.value))
    ensures Met(w, c, r, rows, s, cmd, links)
  {
    NewOperationsAreReplies(w, c, r, rows, cmd);
    var all, made := Operations(Recovered(w, c, r).log), Operations(r.log);
    links := LinksForReplies(rows, s, cmd.key, cmd.value, all[|made|..]);
    assert all == made + all[|made|..];
  }

  lemma {:induction false} NewOperationsAreReplies(w: World, c: Config, r: CallResult, rows: map<string, Definition>,
                                                   cmd: Command)
    requires Performs(w, rows, WriteCall(cmd.key, cmd.value))
    ensures Operations(r.log) <= Operations(Recovered(w, c, r).log)
    ensures forall k | |Operations(r.log)| <= k < |Operations(Recovered(w, c, r).log)| ::
              IsWriteReply(rows, cmd.key, cmd.value, Operations(Recovered(w, c, r).log)[k])
  {
    var log := Recovered(w, c, r).log;
    CallExtends(w, c, r);
    CallIsScripted(w, c, r);
    OperationsOfPrefix(r.log, log);
    forall k | |Operations(r.log)| <= k < |Operations(log)|
      ensures IsWriteReply(rows, cmd.key, cmd.value, Operations(log)[k])
    {
      NewOperationIsReply(w, rows, r.log, log, cmd, Operations(log)[k]);
    }
  }

  lemma {:induction false} NewOperationIsReply(w: World, rows: map<string, Definition>, before: Log, log: Log,
                                               cmd: Command, reply: Outcome)
    requires Performs(w, rows, WriteCall(cmd.key, cmd.value)) && Scripted(w, log, |before|)
    requires exists i | |before| <= i < |log| :: log[i] == Operated(reply)
    ensures IsWriteReply(rows, cmd.key, cmd.value, reply)
  {
    var i :| |before| <= i < |log| && log[i] == Operated(reply);
    assert reply == w.operate(i);
  }

  /** A call that is acknowledged or refused leaves the command executed once; one that breaks off has executed it or
      has not. */
  lemma {:induction false} CallOnDevice(w: World, c: Config, r: CallResult, rows: map<string, Definition>,
                                        s: Inverter.InverterState, cmd: Command, links: seq<Inverter.Link>)
    requires c.attempts >= 1 && Inverter.InImage(rows, |s.image|)
    requires Performs(w, rows, WriteCall(cmd.key, cmd.value)) && Met(w, c, r, rows, s, cmd, links)
    ensures var image := AttemptWrites(rows, s, cmd.key, cmd.value, links).0.image;
      && (image == s.image || image == CommandPipeline.Execute(rows, s.image, cmd))
      && (ReplyOf(Recovered(w, c, r).outcome) != Broken ==> image == CommandPipeline.Execute(rows, s.image, cmd))
  {
    AttemptsWriteTheSame(rows, s, cmd.key, cmd.value, links);
    CallAttempts(w, c, r);
    RejectionSurvivesRecovery(w, c, rows, WriteCall(cmd.key, cmd.value), r.lastReset, r.log);
    if Recovered(w, c, r).outcome.Success? {
      RecoveredWriteStores(w, c, r.lastReset, r.log, rows, s, cmd.key, cmd.value, links);
    }
  }

  // ---- A drain on the device ----------------------------------------------------------------------------------

  /** What one drain meets: a script for the call of each command, and the links its attempts find. */
  datatype Route = Route(c: Config, worlds: nat -> World, links: nat -> seq<Inverter.Link>)

  /** The device after a drain, with every attempt of every call made on it. */
  function DeviceAfter(rows: map<string, Definition>, route: Route, r: CallResult, batch: seq<Command>,
                       pending: map<string, Value>, s: Inverter.InverterState): (s': Inverter.InverterState)
    requires Inverter.InImage(rows, |s.image|)
    ensures |s'.image| == |s.image|
  {
    if batch == [] then s
    else
      var n := |batch| - 1;
      var before := DeviceAfter(rows, route, r, batch[..n], pending, s);
      var (d, _) := DrainWith(route.c, route.worlds, r, batch[..n], pending);
      if d.broken || IsPending(d.pending, batch[n]) then before
      else AttemptWrites(rows, before, batch[n].key, batch[n].value, route.links(n)).0
  }

  /** The call of command n, if it is made, is a write of that command that meets the links given for it. */
  ghost predicate CallIsRouted(rows: map<string, Definition>, route: Route, r: CallResult, batch: seq<Command>,
                               pending: map<string, Value>, s: Inverter.InverterState, n: nat)
    requires Inverter.InImage(rows, |s.image|) && n < |batch|
  {
    var (d, before) := DrainWith(route.c, route.worlds, r, batch[..n], pending);
    && Performs(route.worlds(n), rows, WriteCall(batch[n].key, batch[n].value))
    && (!d.broken && !IsPending(d.pending, batch[n]) ==>
          Met(route.worlds(n), route.c, before, rows, DeviceAfter(rows, route, r, batch[..n], pending, s), batch[n],
              route.links(n)))
  }

  ghost predicate Routed(rows: map<string, Definition>, route: Route, r: CallResult, batch: seq<Command>,
                         pending: map<string, Value>, s: Inverter.InverterState)
    requires Inverter.InImage(rows, |s.image|)
  {
    route.c.attempts >= 1 && forall n | 0 <= n < |batch| :: CallIsRouted(rows, route, r, batch, pending, s, n)
  }

  /** The device holds the acknowledged writes, executed in order; after a drain that broke off it may also hold the
      write that failed. */
  lemma {:induction false} DeviceHoldsIssued(rows: map<string, Definition>, route: Route, r: CallResult,
                                             batch: seq<Command>, pending: map<string, Value>,
                                             s: Inverter.InverterState, m: nat)
    requires Inverter.InImage(rows, |s.image|) && Routed(rows, route, r, batch, pending, s) && m <= |batch|
    ensures var image := DeviceAfter(rows, route, r, batch[..m], pending, s).image;
      var d := DrainWith(route.c, route.worlds, r, batch[..m], pending).0;
      var acknowledged := ExecuteAll(rows, s.image, d.issued);
      image == acknowledged
      || (d.broken && exists n: nat | n < m :: image == CommandPipeline.Execute(rows, acknowledged, batch[n]))
  {
    if m > 0 {
      var n := m - 1;
      DeviceHoldsIssued(rows, route, r, batch, pending, s, n);
      assert batch[..m][..n] == batch[..n];
      var (d, before) := DrainWith(route.c, route.worlds, r, batch[..n], pending);
      if !d.broken && !IsPending(d.pending, batch[n]) {
        assert CallIsRouted(rows, route, r, batch, pending, s, n);
        var device := DeviceAfter(rows, route, r, batch[..n], pending, s);
        CallOnDevice(route.worlds(n), route.c, before, rows, device, batch[n], route.links(n));
        var call := WriteCall(batch[n].key, batch[n].value);
        RejectionSurvivesRecovery(route.worlds(n), route.c, rows, call, before.lastReset, before.log);
        assert (d.issued + [batch[n]])[..|d.issued|] == d.issued;
      }
    }
  }

  /** The pipeline over the recovering inverter: a drain that does not break off leaves the device as executing every
      queued command in arrival order would, exactly when coalescing is harmless for every key, however many attempts
      each write took and whichever of the failed ones reached the device. */
  lemma {:induction false} RecoveredDrainRefinesSequence(rows: map<string, Definition>, route: Route, r: CallResult,
                                                         cmds: seq<Command>, pending: map<string, Value>,
                                                         s: Inverter.InverterState)
    requires Inverter.InImage(rows, |s.image|) && Inverter.KeysApart(rows) && PendingHeld(rows, s.image, pending)
    requires Routed(rows, route, r, Coalesce(cmds), pending, s)
    requires !DrainWith(route.c, route.worlds, r, Coalesce(cmds), pending).0.broken
    ensures var image := DeviceAfter(rows, route, r, Coalesce(cmds), pending, s).image;
      && (image == ExecuteAll(rows, s.image, cmds) <==> forall k | k in rows :: Harmless(rows, s.image, cmds, k))
      && PendingHeld(rows, image, DrainWith(route.c, route.worlds, r, Coalesce(cmds), pending).0.pending)
  {
    var batch := Coalesce(cmds);
    var writer := WriterWith(route.c, route.worlds, r, batch, pending);
    DeviceHoldsIssued(rows, route, r, batch, pending, s, |batch|);
    assert batch[..|batch|] == batch;
    DrainWithIsDrain(route.c, route.worlds, r, batch, pending, writer, |batch|);
    forall n | 0 <= n < |batch| ensures Performs(route.worlds(n), rows, WriteCall(batch[n].key, batch[n].value)) {
      assert CallIsRouted(rows, route, r, batch, pending, s, n);
    }
    RecoveredWriterIsFaithful(route.c, rows, route.worlds, r, batch, pending);
    DrainExecutesBatch(rows, s.image, batch, pending, writer);
    DrainRefinesSequence(rows, s.image, cmds, pending, writer);
  }

  // ---- Every drain can be followed ----------------------------------------------------------------------------

  function RouteOf(c: Config, worlds: nat -> World, met: seq<seq<Inverter.Link>>): Route {
    Route(c, worlds, (n: nat) => if n < |met| then met[n] else [])
  }

  /** What is met after a batch does not change the device after it. */
  lemma {:induction false} DeviceIgnoresLater(rows: map<string, Definition>, c: Config, worlds: nat -> World,
                                              met: seq<seq<Inverter.Link>>, more: seq<seq<Inverter.Link>>,
                                              r: CallResult, batch: seq<Command>, pending: map<string, Value>,
                                              s: Inverter.InverterState)
    requires Inverter.InImage(rows, |s.image|) && |batch| <= |met|
    ensures DeviceAfter(rows, RouteOf(c, worlds, met + more), r, batch, pending, s)
         == DeviceAfter(rows, RouteOf(c, worlds, met), r, batch, pending, s)
  {
    if batch != [] {
      DeviceIgnoresLater(rows, c, worlds, met, more, r, batch[..|batch| - 1], pending, s);
    }
  }

  /** Whatever the scripts of a batch's writes answer, there is a route that follows the drain on the device: the
      theorem above speaks of every drain. */
  lemma {:induction false} EveryDrainHasRoute(rows: map<string, Definition>, c: Config, worlds: nat -> World,
                                              r: CallResult, batch: seq<Command>, pending: map<string, Value>,
                                              s: Inverter.InverterState) returns (met: seq<seq<Inverter.Link>>)
    requires c.attempts >= 1 && Inverter.InImage(rows, |s.image|)
    requires forall n | 0 <= n < |batch| :: Performs(worlds(n), rows, WriteCall(batch[n].key, batch[n].value))
    ensures |met| == |batch| && Routed(rows, RouteOf(c, worlds, met), r, batch, pending, s)
  {
    met := [];
    if batch != [] {
      var n := |batch| - 1;
      var before := EveryDrainHasRoute(rows, c, worlds, r, batch[..n], pending, s);
      var device := DeviceAfter(rows, RouteOf(c, worlds, before), r, batch[..n], pending, s);
      var earlier := DrainWith(c, worlds, r, batch[..n], pending).1;
      var links := EveryCallMeetsLinks(worlds(n), c, earlier, rows, device, batch[n]);
      met := before + [links];
      forall i | 0 <= i < |batch| ensures CallIsRouted(rows, RouteOf(c, worlds, met), r, batch, pending, s, i) {
        RouteExtends(rows, c, worlds, before, links, r, batch, pending, s, i);
      }
    }
  }

  lemma {:induction false} RouteExtends(rows: map<string, Definition>, c: Config, worlds: nat -> World,
                                        before: seq<seq<Inverter.Link>>, links: seq<Inverter.Link>, r: CallResult,
                                        batch: seq<Command>, pending: map<string, Value>, s: Inverter.InverterState,
                                        i: nat)
    requires Inverter.InImage(rows, |s.image|) && |batch| == |before| + 1 && i <= |before|
    requires Routed(rows, RouteOf(c, worlds, before), r, batch[..|before|], pending, s)
    requires var n := |before|;
      && Performs(worlds(n), rows, WriteCall(batch[n].key, batch[n].value))
      && Met(worlds(n), c, DrainWith(c, worlds, r, batch[..n], pending).1, rows,
             DeviceAfter(rows, RouteOf(c, worlds, before), r, batch[..n], pending, s), batch[n], links)
    ensures CallIsRouted(rows, RouteOf(c, worlds, before + [links]), r, batch, pending, s, i)
  {
    DeviceIgnoresLater(rows, c, worlds, before, [links], r, batch[..i], pending, s);
    if i < |before| {
      assert CallIsRouted(rows, RouteOf(c, worlds, before), r, batch[..|before|], pending, s, i);
      assert batch[..|before|][..i] == batch[..i];
    }
  }

  // ---- Whole runs ---------------------------------------------------------------------------------------------

  /** The queue, the pending writes, the device and the calls made so far, beside a reference device that executes
      every drained command once, in arrival order, and every clock write that reached the device once. */
  datatype Plant = Plant(
    queue: seq<Command>, pending: map<string, Value>, device: Inverter.InverterState, r: CallResult,
    reference: seq<Word>)

  /** A command is queued or refused; a drain takes the commands that were queued when it looked; a configuration poll
      forgets the pending writes; a time synchronisation writes the clock with every attempt that reaches the device; a
      status poll, like a connect, only adds to the calls made. */
  datatype Turn =
    | Queueing(cmd: Command) | Draining(count: nat, route: Route)
    | Polling(after: CallResult) | Syncing(after: CallResult, landed: seq<Inverter.Moment>) | Reading(after: CallResult)

  ghost predicate TurnAllowed(rows: map<string, Definition>, p: Plant, t: Turn)
    requires Inverter.InImage(rows, |p.device.image|)
  {
    && (t.Syncing? ==> Inverter.CLOCK_START + Inverter.CLOCK_LENGTH <= |p.device.image|)
    && (t.Draining? ==>
          && t.count <= |p.queue|
          && Routed(rows, t.route, p.r, Coalesce(p.queue[..t.count]), p.pending, p.device)
          && !DrainWith(t.route.c, t.route.worlds, p.r, Coalesce(p.queue[..t.count]), p.pending).0.broken
          && forall k | k in rows :: Harmless(rows, p.device.image, p.queue[..t.count], k))
  }

  function TakeTurn(rows: map<string, Definition>, p: Plant, t: Turn): (p': Plant)
    requires Inverter.InImage(rows, |p.device.image|) && Inverter.InImage(rows, |p.reference|)
    requires t.Draining? ==> t.count <= |p.queue|
    requires t.Syncing? ==> Inverter.CLOCK_START + Inverter.CLOCK_LENGTH <= |p.device.image| == |p.reference|
    ensures |p'.device.image| == |p.device.image| && |p'.reference| == |p.reference|
  {
    match t
    case Queueing(cmd) => if |p.queue| < COMMAND_QUEUE_SIZE then p.(queue := p.queue + [cmd]) else p
    case Polling(after) => p.(pending := map[], r := after)
    case Reading(after) => p.(r := after)
    case Syncing(after, landed) =>
      var last := if landed == [] then [] else [landed[|landed| - 1]];
      p.(device := p.device.(image := Inverter.ClockWritten(p.device.image, landed)), r := after,
         reference := Inverter.ClockWritten(p.reference, last))
    case Draining(count, route) =>
      var batch := Coalesce(p.queue[..count]);
      var (d, after) := DrainWith(route.c, route.worlds, p.r, batch, p.pending);
      Plant(p.queue[count..], d.pending, DeviceAfter(rows, route, p.r, batch, p.pending, p.device), after,
            ExecuteAll(rows, p.reference, p.queue[..count]))
  }

  ghost predicate IsPlantRun(rows: map<string, Definition>, plants: seq<Plant>, turns: seq<Turn>,
                             device: Inverter.InverterState)
  {
    && |plants| == |turns| + 1 && Inverter.InImage(rows, |device.image|)
    && plants[0].pending == map[] && plants[0].device == device && plants[0].reference == device.image
    && (forall i | 0 <= i < |plants| :: |plants[i].device.image| == |device.image| == |plants[i].reference|)
    && (forall i | 0 <= i < |turns| ::
          TurnAllowed(rows, plants[i], turns[i]) && plants[i + 1] == TakeTurn(rows, plants[i], turns[i]))
  }

  lemma {:induction false} TurnKeepsUp(rows: map<string, Definition>, p: Plant, t: Turn)
    requires Inverter.InImage(rows, |p.device.image|) && Inverter.KeysApart(rows) && TurnAllowed(rows, p, t)
    requires p.device.image == p.reference && PendingHeld(rows, p.device.image, p.pending)
    ensures var p' := TakeTurn(rows, p, t);
      p'.device.image == p'.reference && PendingHeld(rows, p'.device.image, p'.pending)
  {
    if t.Draining? {
      RecoveredDrainRefinesSequence(rows, t.route, p.r, p.queue[..t.count], p.pending, p.device);
    } else if t.Syncing? && t.landed != [] {
      Inverter.ClockShowsLast(rows, p.device.image, t.landed);
      Inverter.ClockShowsLast(rows, p.reference, [t.landed[|t.landed| - 1]]);
    }
  }

  /** Over any run of enqueues, drains, configuration polls, time synchronisations and reads, each with whatever
      recovery it takes, with no drain breaking off and coalescing harmless at each, the device always holds what
      executing every drained command once, one by one in arrival order, and setting the clock once for every time
      synchronisation that reached it, would have left, and every pending write is on it. */
  lemma {:induction false} RecoveredPipelineRefinesSequence(rows: map<string, Definition>, plants: seq<Plant>,
                                                            turns: seq<Turn>, device: Inverter.InverterState, n: nat)
    requires IsPlantRun(rows, plants, turns, device) && Inverter.KeysApart(rows) && n < |plants|
    ensures plants[n].device.image == plants[n].reference
    ensures PendingHeld(rows, plants[n].device.image, plants[n].pending)
  {
    if n > 0 {
      RecoveredPipelineRefinesSequence(rows, plants, turns, device, n - 1);
      TurnKeepsUp(rows, plants[n - 1], turns[n - 1]);
    }
  }

  // ---- Read-back over recovery --------------------------------------------------------------------------------

  function ReadReply(r: Result<map<string, Value>, ReadError>): Outcome {
    match r
    case Ok(_) => Success
    case Err(LinkError(fatal)) => Failure(Error(fatal, false))
    case Err(_) => Failure(PLAIN)
  }

  /** The attempts of one configuration read: their outcomes, the report of the last one and the read-backs still
      pending after it. Each attempt forgets the pending read-backs, whether or not it succeeds. */
  function AttemptReads(table: seq<Definition>, windows: seq<Window>, pending: map<string, Inverter.Pending>,
                        readers: seq<Reader>)
    : (seq<Outcome>, map<string, Inverter.Readback>, map<string, Inverter.Pending>)
    requires InBuffer(windows, MaxEnd(windows))
  {
    if readers == [] then ([], map[], pending)
    else
      var n := |readers| - 1;
      var (replies, _, left) := AttemptReads(table, windows, pending, readers[..n]);
      var (result, report) := Inverter.ReadOutcome(table, windows, left, readers[n]);
      (replies + [ReadReply(result)], report, map[])
  }

  lemma {:induction false} OneReplyEach(table: seq<Definition>, windows: seq<Window>,
                                        pending: map<string, Inverter.Pending>, readers: seq<Reader>)
    requires InBuffer(windows, MaxEnd(windows))
    ensures |AttemptReads(table, windows, pending, readers).0| == |readers|
  {
    if readers != [] {
      OneReplyEach(table, windows, pending, readers[..|readers| - 1]);
    }
  }

  /** Recovery costs the read-back: a configuration read that recovery reports as done gives a verdict on every pending
      key exactly when its first attempt succeeded. When it had to be repeated, the report is empty. */
  lemma {:induction false} RecoveredReadVerifies(w: World, c: Config, r: CallResult, table: seq<Definition>,
                                                 windows: seq<Window>, pending: map<string, Inverter.Pending>,
                                                 readers: seq<Reader>)
    requires c.attempts >= 1 && InBuffer(windows, MaxEnd(windows)) && Recovered(w, c, r).outcome.Success?
    requires Operations(Recovered(w, c, r).log)
          == Operations(r.log) + AttemptReads(table, windows, pending, readers).0
    ensures readers != [] && AttemptReads(table, windows, pending, readers).2 == map[]
    ensures |readers| == 1 <==> w.operate(|r.log|).Success?
    ensures AttemptReads(table, windows, pending, readers).1
         == if w.operate(|r.log|).Success? then Inverter.ReadOutcome(table, windows, pending, readers[0]).1 else map[]
    ensures AttemptReads(table, windows, pending, readers).1.Keys
         == if w.operate(|r.log|).Success? then pending.Keys else {}
  {
    OneReplyEach(table, windows, pending, readers);
    CallAttempts(w, c, r);
    FirstAttemptDecides(w, c, r);
    var n := |readers| - 1;
    var left := AttemptReads(table, windows, pending, readers[..n]).2;
    assert left == if n == 0 then pending else map[];
    assert AttemptReads(table, windows, pending, readers).0[n]
        == ReadReply(Inverter.ReadOutcome(table, windows, left, readers[n]).0);
    Inverter.ReadSucceedsExactly(table, windows, left, readers[n]);
  }

  /** A call that succeeds made one attempt exactly when the first one succeeded; the last one did in any case. */
  lemma {:induction false} FirstAttemptDecides(w: World, c: Config, r: CallResult)
    requires c.attempts >= 1 && Recovered(w, c, r).outcome.Success?
    ensures var all := Operations(Recovered(w, c, r).log);
      && |all| > |Operations(r.log)| && all[|all| - 1].Success?
      && (|all| == |Operations(r.log)| + 1 <==> w.operate(|r.log|).Success?)
  {
    var first := w.operate(|r.log|);
    var tried := r.log + [Operated(first)];
    var log := Recovered(w, c, r).log;
    assert tried[..|r.log|] == r.log;
    assert Operations(tried) == Operations(r.log) + [first];
    CallExtends(w, c, r);
    OperationsOfPrefix(tried, log);
    ExecuteOutcome(w, c, r.lastReset, r.log);
    LastOfOperations(log);
  }
}
