/** The methods of the MQTT service as runs: each is a path of the MqttSession transition system, so what holds of
    all its runs holds of the object. */
module MqttRuns {
  import opened Basics
  import opened MqttSession
  import opened MqttService

  /** The transition system can go from one state to the other. */
  ghost predicate Reaches(s: State, s': State) {
    exists path: seq<State> :: IsPath(s, path, s')
  }

  ghost predicate IsPath(s: State, path: seq<State>, s': State) {
    && path != [] && path[0] == s && path[|path| - 1] == s'
    && forall i | 0 <= i < |path| - 1 :: OneStep(path[i], path[i + 1])
  }

  ghost predicate OneStep(s: State, s': State) {
    exists a: Action :: Enabled(s, a) && s' == Step(s, a)
  }

  lemma {:induction false} ReachesItself(s: State)
    ensures Reaches(s, s)
  {
    assert IsPath(s, [s], s);
  }

  lemma {:induction false} ReachesStep(s: State, mid: State, a: Action)
    requires Reaches(s, mid) && Enabled(mid, a)
    ensures Reaches(s, Step(mid, a))
  {
    var path :| IsPath(s, path, mid);
    var next := Step(mid, a);
    assert OneStep(mid, next);
    assert IsPath(s, path + [next], next);
  }

  /** What holds of the states of all runs holds of a state reached from such a state. */
  lemma {:induction false} ReachedIsSound(s: State, s': State)
    requires Sound(s) && Reaches(s, s')
    ensures Sound(s')
  {
    var path :| IsPath(s, path, s');
    PathIsSound(s, path, s', |path| - 1);
  }

  lemma {:induction false} PathIsSound(s: State, path: seq<State>, s': State, n: nat)
    requires IsPath(s, path, s') && Sound(s) && n < |path|
    ensures Sound(path[n])
  {
    if n > 0 {
      PathIsSound(s, path, s', n - 1);
      assert OneStep(path[n - 1], path[n - 1 + 1]);
      var a: Action :| Enabled(path[n - 1], a) && path[n] == Step(path[n - 1], a);
      KeepsSound(path[n - 1], a);
    }
  }

  lemma {:induction false} KeepsSound(s: State, a: Action)
    requires Sound(s) && Enabled(s, a)
    ensures Sound(Step(s, a))
  {
    StepKeepsConnection(s, a);
    StepKeepsAvailability(s, a);
    StepKeepsDiscovery(s, a);
    StepKeepsBoxes(s, a);
    StepKeepsAwaited(s, a);
  }

  // ---- Handlers -----------------------------------------------------------------------------------------------

  /** StatusUpdated and ConfigUpdated post and signal, InverterAvailabilityChanged and the connection callbacks are
      single steps. */
  lemma {:induction false} HandlersReach(s0: State, s: State, snapshot: Snapshot, available: bool)
    requires Reaches(s0, s)
    ensures Reaches(s0, Step(StatusPosted(s, snapshot), Signal)) && Reaches(s0, Step(ConfigPosted(s, snapshot), Signal))
    ensures Reaches(s0, Step(s, ChangeAvailability(available)))
    ensures Reaches(s0, LinkLost(s)) && (!s.link.up ==> Reaches(s0, LinkRaised(s)))
  {
    ReachesStep(s0, s, DeliverStatus(snapshot));
    ReachesStep(s0, StatusPosted(s, snapshot), Signal);
    ReachesStep(s0, s, DeliverConfig(snapshot));
    ReachesStep(s0, ConfigPosted(s, snapshot), Signal);
    ReachesStep(s0, s, ChangeAvailability(available));
    ReachesStep(s0, s, LoseLink);
    if !s.link.up {
      ReachesStep(s0, s, RaiseLink);
    }
  }

  /** onConnect, however its attempts go and whenever the connection is lost. */
  lemma {:induction false} SetUpReaches(s0: State, s: State, c: nat, tries: seq<Try>)
    requires Reaches(s0, s) && At(s.link.setups, c, Starting)
    ensures Reaches(s0, SetUp(s, c, tries))
  {
    ReachesStep(s0, s, Adopt(c));
    if c == s.se.id {
      TryingReaches(s0, ClientAdopted(s, c), c, tries);
    }
  }

  /** Some attempt succeeds before the connection is lost. */
  ghost predicate Succeeds(tries: seq<Try>) {
    tries != [] && !tries[0].lost && (tries[0].ok || Succeeds(tries[1..]))
  }

  /** onConnect connects the session, with nothing published in it yet, polling on and an update requested, exactly
      when the connection is still current and some subscription attempt succeeds before it is lost. */
  lemma {:induction false} SetUpConnects(s: State, c: nat, tries: seq<Try>)
    requires At(s.link.setups, c, Starting) && !s.se.connected
    ensures var t := SetUp(s, c, tries);
      if c == s.se.id && Succeeds(tries) then Connects(s, t, c) else !t.se.connected
  {
    if c == s.se.id {
      TryingConnects(ClientAdopted(s, c), c, tries);
    }
  }

  ghost predicate Connects(s: State, t: State, c: nat) {
    && t.se == Session(s.se.id, c, true, false, false, false, true)
    && t.mail.updates && t.mail.wake && c !in t.link.setups
  }

  lemma {:induction false} TryingConnects(s: State, c: nat, tries: seq<Try>)
    requires At(s.link.setups, c, Checking) && !s.se.connected && (c == s.se.id ==> s.se.client == c)
    ensures var t := Trying(s, c, tries);
      if c == s.se.id && Succeeds(tries) then Connects(s, t, c) else !t.se.connected
    decreases tries
  {
    if c == s.se.id && tries != [] && !tries[0].ok {
      TryingConnects(Tried(Step(s, Check(c)), c, tries[0]), c, tries[1..]);
    }
  }

  lemma {:induction false} TryingReaches(s0: State, s: State, c: nat, tries: seq<Try>)
    requires Reaches(s0, s) && At(s.link.setups, c, Checking)
    ensures Reaches(s0, Trying(s, c, tries))
    decreases tries
  {
    ReachesStep(s0, s, Check(c));
    if c == s.se.id && tries != [] {
      TriedReaches(s0, Step(s, Check(c)), c, tries[0]);
      var tried := Tried(Step(s, Check(c)), c, tries[0]);
      if tries[0].ok {
        OpenedReaches(s0, tried, c);
      } else {
        TryingReaches(s0, tried, c, tries[1..]);
      }
    }
  }

  lemma {:induction false} TriedReaches(s0: State, s: State, c: nat, attempt: Try)
    requires Reaches(s0, s) && At(s.link.setups, c, Attempting)
    ensures Reaches(s0, Tried(s, c, attempt))
  {
    ReachesStep(s0, s, Attempt(c, attempt.ok));
    if attempt.lost {
      ReachesStep(s0, Step(s, Attempt(c, attempt.ok)), LoseLink);
    }
  }

  lemma {:induction false} OpenedReaches(s0: State, s: State, c: nat)
    requires Reaches(s0, s) && At(s.link.setups, c, Joining)
    ensures Reaches(s0, Opened(s, c))
  {
    ReachesStep(s0, s, Join(c));
    if c == s.se.id {
      var joined := SessionJoined(s, c);
      ReachesStep(s0, joined, Request(c));
      ReachesStep(s0, Step(joined, Request(c)), Signal);
    }
  }

  // ---- The publishing loop ------------------------------------------------------------------------------------

  lemma {:induction false} AroundReaches(s0: State, s: State, visits: seq<Action>)
    requires Reaches(s0, s)
    ensures Reaches(s0, Around(s, visits))
  {
    if visits != [] {
      var n := |visits| - 1;
      AroundReaches(s0, s, visits[..n]);
      var before := Around(s, visits[..n]);
      if IsVisit(visits[n]) && Enabled(before, visits[n]) {
        ReachesStep(s0, before, visits[n]);
      }
    }
  }

  /** One call of runPending, with any steps of other goroutines between its critical sections, is a path of atomic
      steps. */
  lemma {:induction false} PassReaches(s0: State, s: State, g: Gaps)
    requires Reaches(s0, s) && s.pub.pc == Deciding
    ensures Reaches(s0, Pass(s, g)) && (Pass(s, g).pub.pc == Deciding || Pass(s, g).pub.pc == Waiting)
  {
    ReachesStep(s0, s, Decide);
    var due := Step(s, Decide);
    if due.pub.pc == Taking {
      AroundReaches(s0, due, g.beforeTake);
      TakeReaches(s0, Around(due, g.beforeTake), g);
    }
  }

  lemma {:induction false} TakeReaches(s0: State, s: State, g: Gaps)
    requires Reaches(s0, s) && s.pub.pc == Taking
    ensures Reaches(s0, TakeAndSend(s, g)) && TakeAndSend(s, g).pub.pc == Deciding
  {
    ReachesStep(s0, s, Take);
    if s.se.connected {
      SendReaches(s0, Taken(s), g);
    }
  }

  lemma {:induction false} SendReaches(s0: State, s: State, g: Gaps)
    requires Reaches(s0, s) && s.pub.pc == SendingStatus
    ensures Reaches(s0, SendAll(s, g)) && SendAll(s, g).pub.pc == Deciding
  {
    AroundReaches(s0, s, g.beforeStatus);
    ReachesStep(s0, Around(s, g.beforeStatus), SendStatus);
    var forwarded := Step(Around(s, g.beforeStatus), SendStatus);
    AroundReaches(s0, forwarded, g.beforeConfig);
    ReachesStep(s0, Around(forwarded, g.beforeConfig), SendConfig);
    NoteReaches(s0, Step(Around(forwarded, g.beforeConfig), SendConfig), g);
  }

  lemma {:induction false} NoteReaches(s0: State, s: State, g: Gaps)
    requires Reaches(s0, s) && s.pub.pc == Noting
    ensures Reaches(s0, NoteAndReady(s, g)) && NoteAndReady(s, g).pub.pc == Deciding
  {
    AroundReaches(s0, s, g.beforeNote);
    ReachesStep(s0, Around(s, g.beforeNote), NoteBattery);
    ReadyReaches(s0, BatteryNoted(Around(s, g.beforeNote)), g);
  }

  lemma {:induction false} ReadyReaches(s0: State, s: State, g: Gaps)
    requires Reaches(s0, s) && s.pub.pc == Readying
    ensures Reaches(s0, ReadyAndAnnounce(s, g)) && ReadyAndAnnounce(s, g).pub.pc == Deciding
  {
    var visited := Around(s, g.beforeReady);
    AroundReaches(s0, s, g.beforeReady);
    ReachesStep(s0, visited, Ready);
    var ready := MadeReady(visited);
    if ready.pub.pc == Announcing {
      AroundReaches(s0, ready, g.beforeAnnounce);
      ReachesStep(s0, Around(ready, g.beforeAnnounce), Announce);
    }
  }

  /** So a pass keeps the whole invariant. */
  lemma {:induction false} PassKeepsSound(s: State, g: Gaps)
    requires Sound(s) && s.pub.pc == Deciding
    ensures Reaches(s, Pass(s, g)) && Sound(Pass(s, g))
  {
    ReachesItself(s);
    PassReaches(s, s, g);
    ReachedIsSound(s, Pass(s, g));
  }

  const NO_GAPS: Gaps := Gaps([], [], [], [], [], [])

  /** What was pending in a box, if new, taken out and sent on. */
  function Through(b: Box): Box {
    if b.dirty then Box(map[], false, b.delivered, b.taken + [|b.delivered| - 1], b.sent + [b.pending])
    else b.(pending := map[])
  }

  /** An undisturbed pass of a connected service sends what was pending, status before config. What was sent counts as
      the initial state of the session; once both kinds count, discovery is published if the battery type has changed,
      counting the config just sent, and "online" if the session is not online yet. */
  lemma {:induction false} UndisturbedPass(s: State)
    requires s.pub.pc == Deciding && s.se.connected && (s.mail.updates || Dirty(s))
    ensures var t := Pass(s, NO_GAPS);
      && t.status == Through(s.status) && t.config == Through(s.config) && t.mail == s.mail.(updates := false)
      && EndsPass(s.se, s.disco, s.status.dirty, if s.config.dirty then Some(s.config.pending) else None, t)
      && t.log == s.log + (if s.status.dirty then [Sent(Status, s.se.id)] else [])
                  + (if s.config.dirty then [Sent(Config, s.se.id)] else []) + Decision(s, t)
  {
    var taken := Taken(Step(s, Decide));
    UndisturbedSends(taken);
    UndisturbedEnd(Step(Step(taken, SendStatus), SendConfig));
  }

  /** The session and the discovery at the end of a pass that has sent some of the two kinds in it. */
  ghost predicate EndsPass(se: Session, disco: Discovery, status: bool, config: Option<Snapshot>, t: State) {
    var named := if config.Some? then BatteryIn(config.value) else [];
    var changed := named != [] && named[0] != disco.battery;
    var both := (se.initialStatus || status) && (se.initialConfig || config.Some?);
    && t.se == se.(initialStatus := se.initialStatus || status, initialConfig := se.initialConfig || config.Some?,
                   online := se.online || both)
    && t.disco.battery == (if changed then named[0] else disco.battery)
    && t.disco.pending == ((disco.pending || changed) && !both)
  }

  /** The decision it takes: discovery if it was outstanding or the battery type has changed, "online" if the session
      was not yet. */
  ghost function Decision(s: State, t: State): seq<Event> {
    if t.se.initialStatus && t.se.initialConfig then
      [Decided(s.se.id, s.disco.pending || t.disco.battery != s.disco.battery, !s.se.online)]
    else []
  }

  lemma {:induction false} UndisturbedEnd(s: State)
    requires s.pub.pc == Noting && s.se.connected && s.pub.c == s.se.id
    ensures var t := NoteAndReady(s, NO_GAPS);
      && EndsPass(s.se, s.disco, s.pub.statusDirty, if s.pub.configDirty then Some(s.pub.config) else None, t)
      && t.log == s.log + Decision(s, t) && t.status == s.status && t.config == s.config && t.mail == s.mail
  {
  }

  /** A stale pass, or one in a session whose initial state is not out yet, decides nothing; the last step of any other
      does. */
  lemma {:induction false} ReadyDecides(s: State)
    requires s.pub.pc == Readying
    ensures var t := Step(s, Ready);
      var current := s.se.connected && s.pub.c == s.se.id;
      var status, config := s.se.initialStatus || s.pub.statusDirty, s.se.initialConfig || s.pub.configDirty;
      && t.se == (if current then s.se.(initialStatus := status, initialConfig := config,
                                        online := s.se.online || (status && config)) else s.se)
      && t.disco.pending == (s.disco.pending && !(current && status && config))
      && t.log == s.log + if current && status && config then [Decided(s.se.id, s.disco.pending, !s.se.online)] else []
  {
  }

  /** The loop waits exactly when there is no update and nothing is dirty. */
  lemma {:induction false} WaitsWithNothingToDo(s: State, g: Gaps)
    requires s.pub.pc == Deciding
    ensures Pass(s, g).pub.pc == Waiting <==> !s.mail.updates && !Dirty(s)
  {
    ReachesItself(s);
    PassReaches(s, s, g);
    if Step(s, Decide).pub.pc == Taking {
      ReachesStep(s, s, Decide);
      AroundReaches(s, Step(s, Decide), g.beforeTake);
      TakeReaches(s, Around(Step(s, Decide), g.beforeTake), g);
    }
  }

  /** Disconnected, a pass leaves the mail where it is and asks for another pass if any is dirty. */
  lemma {:induction false} DisconnectedPass(s: State)
    requires s.pub.pc == Deciding && !s.se.connected && (s.mail.updates || Dirty(s))
    ensures Pass(s, NO_GAPS) == s.(mail := s.mail.(updates := Dirty(s)))
  {
  }

  /** So the loop does not always wait for something to happen. Left undisturbed it waits after at most one pass,
      except while it is disconnected with a snapshot in its box: then each pass leads to the same pass again, without
      a wait, until the connection is back. */
  lemma {:induction false} SpinsExactlyWhenDisconnectedAndDirty(s: State)
    requires s.pub.pc == Deciding
    ensures var t := Pass(s, NO_GAPS);
      && (t.pub.pc == Waiting || (t.pub.pc == Deciding && Pass(t, NO_GAPS).pub.pc == Waiting)
          <==> s.se.connected || !Dirty(s))
      && (!s.se.connected && Dirty(s) ==> t.pub.pc == Deciding && Pass(t, NO_GAPS) == t)
  {
    WaitsWithNothingToDo(s, NO_GAPS);
    if s.mail.updates || Dirty(s) {
      var t := Pass(s, NO_GAPS);
      ReachesItself(s);
      PassReaches(s, s, NO_GAPS);
      if s.se.connected {
        UndisturbedPass(s);
      } else {
        DisconnectedPass(s);
        if Dirty(s) {
          DisconnectedPass(t);
        }
      }
      WaitsWithNothingToDo(t, NO_GAPS);
    }
  }

  lemma {:induction false} UndisturbedSends(s: State)
    requires s.pub.pc == SendingStatus
    ensures var sent := Step(Step(s, SendStatus), SendConfig);
      SendAll(s, NO_GAPS) == NoteAndReady(sent, NO_GAPS)
      && sent.status == Forward(s.status, s.pub.statusDirty, s.pub.status)
      && sent.config == Forward(s.config, s.pub.configDirty, s.pub.config)
      && sent.log == s.log + (if s.pub.statusDirty then [Sent(Status, s.pub.c)] else [])
                     + if s.pub.configDirty then [Sent(Config, s.pub.c)] else []
  {
  }

  lemma {:induction false} RoundReaches(s0: State, s: State, round: Round)
    requires Reaches(s0, s) && s.pub.pc == Deciding
    ensures Reaches(s0, OneRound(s, round))
  {
    AroundReaches(s0, s, round.before);
    var visited := Around(s, round.before);
    PassReaches(s0, visited, round.gaps);
    var passed := Pass(visited, round.gaps);
    if passed.pub.pc == Waiting {
      AroundReaches(s0, passed, round.waiting);
      var waiting := Around(passed, round.waiting);
      if round.cancelled {
        ReachesStep(s0, waiting, Cancel);
      } else if waiting.mail.wake {
        ReachesStep(s0, waiting, WakeUp);
      }
    }
  }

  lemma {:induction false} RoundsReach(s0: State, s: State, rounds: seq<Round>)
    requires Reaches(s0, s) && s.pub.pc == Deciding
    ensures Reaches(s0, RunRounds(s, rounds))
    decreases rounds
  {
    if rounds != [] {
      RoundReaches(s0, s, rounds[0]);
      var after := OneRound(s, rounds[0]);
      if after.pub.pc == Deciding {
        RoundsReach(s0, after, rounds[1..]);
      }
    }
  }

  /** A wait stops if the context is cancelled, goes on after taking the wake-up token, or blocks. */
  lemma {:induction false} WaitEnds(s: State, cancelled: bool)
    requires s.pub.pc == Waiting
    ensures EndWait(s, cancelled)
         == s.(mail := s.mail.(wake := s.mail.wake && cancelled),
               pub := s.pub.(pc := if cancelled then Stopped else if s.mail.wake then Deciding else Waiting))
  {
  }

  /** A round with something to publish publishes it and goes on; otherwise it waits. */
  lemma {:induction false} RoundEnds(s: State, round: Round)
    requires s.pub.pc == Deciding
    ensures var passed := Pass(Around(s, round.before), round.gaps);
      if passed.pub.pc == Deciding then OneRound(s, round) == passed
      else passed.pub.pc == Waiting && OneRound(s, round) == EndWait(Around(passed, round.waiting), round.cancelled)
  {
    ReachesItself(Around(s, round.before));
    PassReaches(Around(s, round.before), Around(s, round.before), round.gaps);
  }

  /** Run goes on as long as its rounds do: running some rounds and then more is running them all. */
  lemma {:induction false} RunGoesOn(s: State, rounds: seq<Round>, more: seq<Round>)
    requires s.pub.pc == Deciding
    ensures var t := RunRounds(s, rounds);
      RunRounds(s, rounds + more) == if t.pub.pc == Deciding then RunRounds(t, more) else t
    ensures |rounds| == 1 ==> RunRounds(s, rounds) == OneRound(s, rounds[0])
    decreases rounds
  {
    if rounds == [] {
      assert rounds + more == more;
    } else {
      assert (rounds + more)[0] == rounds[0] && (rounds + more)[1..] == rounds[1..] + more;
      if OneRound(s, rounds[0]).pub.pc == Deciding {
        RunGoesOn(OneRound(s, rounds[0]), rounds[1..], more);
      }
    }
  }

  /** A service built and run for any rounds is in a state the transition system reaches from its initial one. If
      Run is blocked in its select, with no producer about to signal, the newest snapshot of each kind has been
      sent. */
  method Serve(rounds: seq<Round>) returns (service: MQTTService, going: bool)
    ensures service.Valid() && Reaches(INITIAL, service.state) && Sound(service.state)
    ensures Quiet(service.state) ==> NewestSent(service.state.status) && NewestSent(service.state.config)
  {
    service := new MQTTService();
    InitialIsSound();
    ReachesItself(INITIAL);
    RoundsReach(INITIAL, INITIAL, rounds);
    going := service.Run(rounds);
    ReachedIsSound(INITIAL, service.state);
    QuietStateHasSent(service.state);
  }

  lemma {:induction false} InitialIsSound()
    ensures Sound(INITIAL)
  {
    RunsAreSound([INITIAL], [], 0);
  }

  lemma {:induction false} QuietStateHasSent(s: State)
    requires Sound(s)
    ensures Quiet(s) ==> NewestSent(s.status) && NewestSent(s.config)
  {
    if Quiet(s) {
      NewestIsSent(s.status);
      NewestIsSent(s.config);
    }
  }
}
