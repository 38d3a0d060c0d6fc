/** The MQTT service of mqtt.go as an object. Each critical section is a method proved to be one step of the
    MqttSession transition system; the handlers, the connection set-up and the publishing loop are made of them,
    with the other goroutines' steps let in wherever the mutex is free. */
module MqttService {
  import opened Basics
  import opened MqttSession

  class MQTTService {
    var connected: bool
    var initialConfigPublished: bool
    var initialStatusPublished: bool
    var discoveryPending: bool
    var onlinePublished: bool
    var batteryType: seq<Byte>
    var lastPublishedConfig: Snapshot
    var pendingStatus: Snapshot
    var pendingConfig: Snapshot
    var statusDirty: bool
    var configDirty: bool
    var updatesPending: bool
    var updateWake: bool
    var connectionID: nat
    var client: nat                   // the connection whose client this is
    var polling: bool                 // what the command service was last told

    // the goroutines around the service
    var linkUp: bool                  // the last connection callback was an up
    var setups: map<nat, Setup>       // onConnect calls under way
    var signallers: nat               // producers between their unlock and their signal

    ghost var state: State            // where the service stands in the transition system

    /** The fields hold what the state says. */
    ghost predicate Valid()
      reads this
    {
      SessionAgrees() && BoxesAgree() && MailAgrees() && DiscoveryAgrees() && state.link == Link(linkUp, setups)
    }

    ghost predicate SessionAgrees()
      reads `state, `connectionID, `client, `connected, `initialStatusPublished, `initialConfigPublished,
            `onlinePublished, `polling
    {
      state.se == SessionNow()
    }

    ghost function SessionNow(): Session
      reads `connectionID, `client, `connected, `initialStatusPublished, `initialConfigPublished, `onlinePublished,
            `polling
    {
      Session(connectionID, client, connected, initialStatusPublished, initialConfigPublished, onlinePublished, polling)
    }

    ghost predicate MailAgrees()
      reads `state, `updatesPending, `updateWake, `signallers
    {
      state.mail == Mail(updatesPending, updateWake, signallers)
    }

    ghost predicate BoxesAgree()
      reads `state, `pendingStatus, `statusDirty, `pendingConfig, `configDirty
    {
      && state.status.pending == pendingStatus && state.status.dirty == statusDirty
      && state.config.pending == pendingConfig && state.config.dirty == configDirty
    }

    ghost function MailNow(): (Snapshot, bool, Snapshot, bool)
      reads `pendingStatus, `statusDirty, `pendingConfig, `configDirty
    {
      (pendingStatus, statusDirty, pendingConfig, configDirty)
    }

    ghost predicate DiscoveryAgrees()
      reads `state, `discoveryPending, `batteryType
    {
      state.disco.pending == discoveryPending && state.disco.battery == batteryType
    }

    constructor ()
      ensures Valid() && state == INITIAL
    {
      connected, initialConfigPublished, initialStatusPublished, onlinePublished := false, false, false, false;
      discoveryPending, batteryType, lastPublishedConfig := false, [], map[];
      pendingStatus, pendingConfig, statusDirty, configDirty := map[], map[], false, false;
      updatesPending, updateWake, connectionID, client, polling := false, false, 0, 0, false;
      linkUp, setups, signallers, state := false, map[], 0, INITIAL;
    }

    // ---- Producers ----

    method SignalUpdatePublisher()
      requires Valid() && signallers > 0
      modifies `updateWake, `signallers, `state
      ensures Valid() && state == Step(old(state), Signal)
    {
      updateWake := true;
      signallers := signallers - 1;
      state := Step(state, Signal);
    }

    /** There is something to publish, and a signal to come. */
    method MarkPending()
      modifies `updatesPending, `signallers
      ensures updatesPending && signallers == old(signallers) + 1
    {
      updatesPending := true;
      signallers := signallers + 1;
    }

    method PostStatus(status: Snapshot)
      requires Valid()
      modifies `pendingStatus, `statusDirty, `updatesPending, `signallers, `state
      ensures Valid() && state == StatusPosted(old(state), status)
    {
      pendingStatus := status;
      statusDirty := true;
      MarkPending();
      state := StatusPosted(state, status);
    }

    method PostConfig(config: Snapshot)
      requires Valid()
      modifies `pendingConfig, `configDirty, `updatesPending, `signallers, `state
      ensures Valid() && state == ConfigPosted(old(state), config)
    {
      pendingConfig := config;
      configDirty := true;
      MarkPending();
      state := ConfigPosted(state, config);
    }

    method StatusUpdated(status: Snapshot)
      requires Valid()
      modifies `pendingStatus, `statusDirty, `updatesPending, `updateWake, `signallers, `state
      ensures Valid() && state == Step(StatusPosted(old(state), status), Signal)
      ensures pendingStatus == status && statusDirty && updatesPending && updateWake
    {
      PostStatus(status);
      SignalUpdatePublisher();
    }

    method ConfigUpdated(config: Snapshot)
      requires Valid()
      modifies `pendingConfig, `configDirty, `updatesPending, `updateWake, `signallers, `state
      ensures Valid() && state == Step(ConfigPosted(old(state), config), Signal)
      ensures pendingConfig == config && configDirty && updatesPending && updateWake
    {
      PostConfig(config);
      SignalUpdatePublisher();
    }

    /** Returns the availability to publish; nothing is published while disconnected. */
    method InverterAvailabilityChanged(available: bool) returns (payload: Option<bool>)
      requires Valid()
      modifies `onlinePublished, `state
      ensures Valid() && state == Step(old(state), ChangeAvailability(available))
      ensures payload == if connected then Some(available) else None
      ensures onlinePublished == (payload == Some(true))
    {
      onlinePublished := available && connected;
      payload := if connected then Some(available) else None;
      state := Step(state, ChangeAvailability(available));
    }

    // ---- Connection callbacks ----

    /** Returns the number the new connection's onConnect is started with. */
    method OnConnectionUp() returns (c: nat)
      requires Valid() && !linkUp
      modifies `connectionID, `linkUp, `setups, `state
      ensures Valid() && state == LinkRaised(old(state)) && c == connectionID == old(connectionID) + 1
    {
      connectionID := connectionID + 1;
      c := connectionID;
      linkUp, setups := true, setups[c := Starting];
      state := LinkRaised(state);
    }

    /** The assignments of onConnectionLost. */
    method EndSession()
      modifies `connectionID, `connected, `initialConfigPublished, `initialStatusPublished, `onlinePublished, `polling,
               `linkUp
      ensures connectionID == old(connectionID) + 1 && connected == polling == linkUp == false
      ensures !initialConfigPublished && !initialStatusPublished && !onlinePublished
    {
      connectionID := connectionID + 1;
      ResetSession(false);
      linkUp := false;
    }

    method OnConnectionLost()
      requires Valid()
      modifies `connectionID, `connected, `initialConfigPublished, `initialStatusPublished, `onlinePublished, `polling,
               `linkUp, `state
      ensures Valid() && state == LinkLost(old(state))
      ensures connectionID == old(connectionID) + 1 && connected == polling == onlinePublished == false
    {
      EndSession();
      state := LinkLost(state);
    }

    /** A session begins or ends with nothing published; polling follows it. */
    method ResetSession(open: bool)
      modifies `connected, `initialConfigPublished, `initialStatusPublished, `onlinePublished, `polling
      ensures connected == polling == open
      ensures !initialConfigPublished && !initialStatusPublished && !onlinePublished
    {
      connected := open;
      initialConfigPublished := false;
      initialStatusPublished := false;
      onlinePublished := false;
      polling := open;
    }

    /** The first critical section of onConnect. */
    method AdoptClient(c: nat) returns (current: bool)
      requires Valid() && At(setups, c, Starting)
      modifies `client, `setups, `state
      ensures Valid() && state == ClientAdopted(old(state), c) && current == (c == connectionID)
      ensures client == if current then c else old(client)
    {
      current := c == connectionID;
      if current {
        client := c;
      }
      setups := if current then setups[c := Checking] else setups - {c};
      state := ClientAdopted(state, c);
    }

    /** The check at the head of the subscription loop. */
    method IsCurrent(c: nat) returns (current: bool)
      requires Valid() && At(setups, c, Checking)
      modifies `setups, `state
      ensures Valid() && state == Step(old(state), Check(c)) && current == (c == connectionID)
    {
      current := c == connectionID;
      setups := if current then setups[c := Attempting] else setups - {c};
      state := Step(state, Check(c));
    }

    method Subscribe(c: nat, ok: bool)
      requires Valid() && At(setups, c, Attempting)
      modifies `setups, `state
      ensures Valid() && state == Step(old(state), Attempt(c, ok))
    {
      setups := setups[c := if ok then Joining else Checking];
      state := Step(state, Attempt(c, ok));
    }

    /** The last critical section of onConnect. */
    method JoinSession(c: nat) returns (current: bool)
      requires Valid() && At(setups, c, Joining)
      modifies `connected, `initialConfigPublished, `initialStatusPublished, `onlinePublished, `polling, `setups, `state
      ensures Valid() && state == SessionJoined(old(state), c) && current == (c == connectionID)
      ensures current ==> connected == polling == true
      ensures current ==> !initialConfigPublished && !initialStatusPublished && !onlinePublished
      ensures !current ==> connected == old(connected)
    {
      current := c == connectionID;
      if current {
        ResetSession(true);
      }
      setups := if current then setups[c := Requesting] else setups - {c};
      state := SessionJoined(state, c);
    }

    /** The critical section of requestUpdatePublish, the end of onConnect. */
    method RequestPublish(c: nat)
      requires Valid() && At(setups, c, Requesting)
      modifies `updatesPending, `signallers, `setups, `state
      ensures Valid() && state == Step(old(state), Request(c)) && updatesPending
    {
      MarkPending();
      setups := setups - {c};
      state := Step(state, Request(c));
    }

    // ---- Other goroutines ----

    /** Another goroutine makes one step, if it can. */
    method Receive(a: Action)
      requires Valid()
      modifies this
      ensures Valid() && state == VisitStep(old(state), a)
    {
      if FromProducer(a) {
        ReceiveFromProducer(a);
      } else if FromSetup(a) {
        ReceiveFromSetup(a);
      } else if a.RaiseLink? && !linkUp {
        var _ := OnConnectionUp();
      } else if a.LoseLink? {
        OnConnectionLost();
      }
    }

    method ReceiveFromProducer(a: Action)
      requires Valid() && FromProducer(a)
      modifies this
      ensures Valid() && state == VisitStep(old(state), a)
    {
      if a.DeliverStatus? {
        PostStatus(a.snapshot);
      } else if a.DeliverConfig? {
        PostConfig(a.snapshot);
      } else if a.ChangeAvailability? {
        var _ := InverterAvailabilityChanged(a.available);
      } else if signallers > 0 {
        SignalUpdatePublisher();
      }
    }

    method ReceiveFromSetup(a: Action)
      requires Valid() && FromSetup(a)
      modifies this
      ensures Valid() && state == VisitStep(old(state), a)
    {
      if a.Adopt? && At(setups, a.c, Starting) {
        var _ := AdoptClient(a.c);
      } else if a.Check? && At(setups, a.c, Checking) {
        var _ := IsCurrent(a.c);
      } else if a.Attempt? && At(setups, a.c, Attempting) {
        Subscribe(a.c, a.ok);
      } else if a.Join? && At(setups, a.c, Joining) {
        var _ := JoinSession(a.c);
      } else if a.Request? && At(setups, a.c, Requesting) {
        RequestPublish(a.c);
      }
    }

    method ReceiveAll(visits: seq<Action>)
      requires Valid()
      modifies this
      ensures Valid() && state == Around(old(state), visits)
    {
      for i := 0 to |visits|
        invariant Valid() && state == Around(old(state), visits[..i])
      {
        assert visits[..i + 1][..i] == visits[..i];
        Receive(visits[i]);
      }
      assert visits[..|visits|] == visits;
    }

    // ---- Connection set-up ----

    /** onConnect, with the answers its subscription attempts get and whether the connection is lost meanwhile. */
    method OnConnect(c: nat, tries: seq<Try>) returns (joined: bool)
      requires Valid() && At(setups, c, Starting)
      modifies this
      ensures Valid() && state == SetUp(old(state), c, tries)
      ensures joined ==> connected && client == connectionID == c
    {
      var current := AdoptClient(c);
      if !current {
        return false;
      }
      joined := SubscribeCommands(c, tries);
    }

    /** The subscription loop, as far as its answers are given, and the end of onConnect once it has succeeded. */
    method SubscribeCommands(c: nat, tries: seq<Try>) returns (joined: bool)
      requires Valid() && At(setups, c, Checking) && (c == connectionID ==> client == c)
      modifies this
      ensures Valid() && state == Trying(old(state), c, tries)
      ensures joined ==> connected && client == connectionID == c
    {
      var current: bool;
      for i := 0 to |tries|
        invariant Valid() && At(setups, c, Checking) && (c == connectionID ==> client == c)
        invariant Trying(old(state), c, tries) == Trying(state, c, tries[i..])
      {
        assert tries[i..][1..] == tries[i + 1..];
        current := IsCurrent(c);
        if !current {
          return false;
        }
        TryOnce(c, tries[i]);
        if tries[i].ok {
          joined := OpenSession(c);
          return;
        }
      }
      current := IsCurrent(c);
      joined := false;
    }

    /** One subscription attempt, and perhaps the loss of the connection right after it. */
    method TryOnce(c: nat, attempt: Try)
      requires Valid() && At(setups, c, Attempting) && client == connectionID == c
      modifies this
      ensures Valid() && state == Tried(old(state), c, attempt)
      ensures At(setups, c, if attempt.ok then Joining else Checking) && (c == connectionID ==> client == c)
    {
      Subscribe(c, attempt.ok);
      if attempt.lost {
        OnConnectionLost();
      }
    }

    method OpenSession(c: nat) returns (joined: bool)
      requires Valid() && At(setups, c, Joining) && (c == connectionID ==> client == c)
      modifies this
      ensures Valid() && state == Opened(old(state), c)
      ensures joined ==> connected && client == connectionID == c
    {
      joined := JoinSession(c);
      if joined {
        RequestPublish(c);
        SignalUpdatePublisher();
      }
    }

    // ---- The publishing loop ----

    /** The critical section of runPending. */
    method DecideToPublish() returns (shouldPublish: bool)
      requires Valid() && state.pub.pc == Deciding
      modifies `updatesPending, `state
      ensures Valid() && state == Step(old(state), Decide)
      ensures state.pub.pc == if shouldPublish then Taking else Waiting
      ensures shouldPublish == (old(updatesPending) || statusDirty || configDirty) && !updatesPending
    {
      shouldPublish := updatesPending || statusDirty || configDirty;
      if shouldPublish {
        updatesPending := false;
      }
      state := Step(state, Decide);
    }

    /** The critical section of publishUpdates; None while disconnected. */
    method TakeUpdates() returns (taken: Option<Updates>)
      requires Valid() && state.pub.pc == Taking
      modifies `pendingStatus, `pendingConfig, `statusDirty, `configDirty, `updatesPending, `state
      ensures Valid() && state == Taken(old(state))
      ensures if taken.Some? then state.pub.pc == SendingStatus && Carried(state.pub) == taken.value
              else state.pub.pc == Deciding
      ensures taken == if !connected then None
                       else Some(Updates(connectionID, old(statusDirty), old(configDirty), old(pendingStatus),
                                         old(pendingConfig)))
      ensures connected ==> !statusDirty && !configDirty && updatesPending == old(updatesPending)
      ensures !connected ==> MailNow() == old(MailNow())
      ensures !connected ==> updatesPending == (old(updatesPending) || statusDirty || configDirty)
    {
      if connected {
        var updates := TakeAll();
        taken := Some(updates);
      } else {
        KeepAll();
        taken := None;
      }
    }

    method KeepAll()
      requires Valid() && state.pub.pc == Taking && !connected
      modifies `updatesPending, `state
      ensures Valid() && state == Taken(old(state)) && state.pub.pc == Deciding
      ensures updatesPending == (old(updatesPending) || statusDirty || configDirty)
    {
      updatesPending := updatesPending || statusDirty || configDirty;
      state := Taken(state);
    }

    method TakeAll() returns (updates: Updates)
      requires Valid() && state.pub.pc == Taking && connected
      modifies `pendingStatus, `pendingConfig, `statusDirty, `configDirty, `state
      ensures Valid() && state == Taken(old(state))
      ensures state.pub.pc == SendingStatus && Carried(state.pub) == updates
      ensures !statusDirty && !configDirty
      ensures updates == Updates(connectionID, old(statusDirty), old(configDirty), old(pendingStatus),
                                 old(pendingConfig))
    {
      updates := Updates(connectionID, statusDirty, configDirty, pendingStatus, pendingConfig);
      EmptyMailbox();
      state := Taken(state);
    }

    method EmptyMailbox()
      modifies `pendingStatus, `pendingConfig, `statusDirty, `configDirty
      ensures pendingStatus == map[] == pendingConfig && !statusDirty && !configDirty
    {
      pendingStatus, pendingConfig, statusDirty, configDirty := map[], map[], false, false;
    }

    /** Sending a snapshot changes nothing here; the history of what was sent is in the state. */
    method PublishStatus(u: Updates)
      requires Valid() && state.pub.pc == SendingStatus && Carried(state.pub) == u
      modifies `state
      ensures Valid() && state == Step(old(state), SendStatus)
    {
      state := Step(state, SendStatus);
    }

    method PublishConfig(u: Updates)
      requires Valid() && state.pub.pc == SendingConfig && Carried(state.pub) == u
      modifies `state
      ensures Valid() && state == Step(old(state), SendConfig)
    {
      state := Step(state, SendConfig);
    }

    /** The critical sections at the end of publishConfig. */
    method NoteConfig(u: Updates)
      requires Valid() && state.pub.pc == Noting && Carried(state.pub) == u
      modifies `batteryType, `discoveryPending, `lastPublishedConfig, `state
      ensures Valid() && state == BatteryNoted(old(state))
      ensures lastPublishedConfig == if u.configDirty then u.config else old(lastPublishedConfig)
    {
      RememberConfig(u);
      state := BatteryNoted(state);
    }

    /** The assignments at the end of publishConfig. */
    method RememberConfig(u: Updates)
      modifies `batteryType, `discoveryPending, `lastPublishedConfig
      ensures lastPublishedConfig == if u.configDirty then u.config else old(lastPublishedConfig)
      ensures var battery := if u.configDirty then NewBattery(u.config) else [];
        && batteryType == (if battery == [] then old(batteryType) else battery)
        && discoveryPending == (old(discoveryPending) || (battery != [] && battery != old(batteryType)))
    {
      if u.configDirty {
        if "BatteryType" in u.config && u.config["BatteryType"].TextV? {
          UpdateBatteryType(u.config["BatteryType"].bytes);
        }
        lastPublishedConfig := u.config;
      }
    }

    method UpdateBatteryType(battery: seq<Byte>)
      modifies `batteryType, `discoveryPending
      ensures batteryType == if battery == [] then old(batteryType) else battery
      ensures discoveryPending == (old(discoveryPending) || (battery != [] && battery != old(batteryType)))
    {
      if battery == [] || battery == batteryType {
        return;
      }
      batteryType := battery;
      discoveryPending := true;
    }

    ghost function Flags(): Published
      reads `initialStatusPublished, `initialConfigPublished, `onlinePublished
    {
      Published(initialStatusPublished, initialConfigPublished, onlinePublished)
    }

    /** The updates were taken in the session that is still connected. */
    predicate Current(u: Updates)
      reads `connected, `connectionID
    {
      connected && u.c == connectionID
    }

    /** publishReadyAfterInitialState; the result tells whether discovery and "online" are to be published. */
    method PublishReadyAfterInitialState(u: Updates) returns (ended: bool, discovery: bool, online: bool)
      requires Valid() && state.pub.pc == Readying && Carried(state.pub) == u
      modifies `initialConfigPublished, `initialStatusPublished, `discoveryPending, `onlinePublished, `state
      ensures Valid() && state == MadeReady(old(state))
      ensures Marked(old(Flags()), Flags(), Current(u), u, ended)
      ensures discoveryPending == (old(discoveryPending) && !ended)
      ensures discovery == (ended && old(discoveryPending)) && online == (ended && !old(onlinePublished))
      ensures state.pub.pc == if ended then Announcing else Deciding
    {
      ended, discovery, online := Mark(u);
      TellReady(u, ended);
    }

    /** The fields are where that step takes them, and the state is not yet. */
    ghost predicate Marking(u: Updates, ended: bool)
      reads this
    {
      && state.pub.pc == Readying && Carried(state.pub) == u
      && ended == Ending(state.se, u.c, u.statusDirty, u.configDirty)
      && SessionNow() == Readied(state.se, u.c, u.statusDirty, u.configDirty)
      && BoxesAgree() && MailAgrees() && state.link == Link(linkUp, setups)
      && discoveryPending == (state.disco.pending && !ended) && batteryType == state.disco.battery
    }

    /** The step those assignments were. */
    method TellReady(u: Updates, ended: bool)
      requires Marking(u, ended)
      modifies `state
      ensures Valid() && state == MadeReady(old(state)) && state.pub.pc == if ended then Announcing else Deciding
    {
      state := MadeReady(state);
    }

    method Mark(u: Updates) returns (ended: bool, discovery: bool, online: bool)
      requires Valid() && state.pub.pc == Readying && Carried(state.pub) == u
      modifies `initialConfigPublished, `initialStatusPublished, `discoveryPending, `onlinePublished
      ensures Marking(u, ended) && Marked(old(Flags()), Flags(), Current(u), u, ended)
      ensures discovery == (ended && old(discoveryPending)) && online == (ended && !old(onlinePublished))
    {
      ended, discovery, online := MarkPublished(u);
    }

    /** The assignments of publishReadyAfterInitialState. */
    method MarkPublished(u: Updates) returns (ended: bool, discovery: bool, online: bool)
      modifies `initialConfigPublished, `initialStatusPublished, `discoveryPending, `onlinePublished
      ensures SessionNow() == Readied(old(SessionNow()), u.c, u.statusDirty, u.configDirty)
      ensures ended == Ending(old(SessionNow()), u.c, u.statusDirty, u.configDirty)
      ensures Marked(old(Flags()), Flags(), Current(u), u, ended)
      ensures discoveryPending == (old(discoveryPending) && !ended)
      ensures discovery == (ended && old(discoveryPending)) && online == (ended && !old(onlinePublished))
    {
      ended, discovery, online := false, false, false;
      if Current(u) {
        initialConfigPublished := initialConfigPublished || u.configDirty;
        initialStatusPublished := initialStatusPublished || u.statusDirty;
        if initialConfigPublished && initialStatusPublished {
          ended, discovery, online := true, discoveryPending, !onlinePublished;
          discoveryPending, onlinePublished := false, true;
        }
      }
    }

    /** Run, for as many rounds as are given: publish while there is something to, otherwise wait for a wake-up. The
        result tells whether Run is still going. */
    method Run(rounds: seq<Round>) returns (going: bool)
      requires Valid() && state.pub.pc == Deciding
      modifies this
      ensures Valid() && state == RunRounds(old(state), rounds)
    {
      for i := 0 to |rounds|
        invariant Valid() && state.pub.pc == Deciding
        invariant RunRounds(old(state), rounds) == RunRounds(state, rounds[i..])
      {
        assert rounds[i..][1..] == rounds[i + 1..];
        going := DoRound(rounds[i]);
        if !going {
          return;
        }
      }
      going := true;
    }

    method DoRound(round: Round) returns (going: bool)
      requires Valid() && state.pub.pc == Deciding
      modifies this
      ensures Valid() && state == OneRound(old(state), round) && (going <==> state.pub.pc == Deciding)
    {
      ReceiveAll(round.before);
      var published := RunPending(round.gaps);
      going := true;
      if !published {
        ReceiveAll(round.waiting);
        going := AwaitWake(round.cancelled);
      }
    }

    /** The select of Run: without a wake-up or a cancelled context it blocks. */
    method AwaitWake(cancelled: bool) returns (woken: bool)
      requires Valid() && state.pub.pc == Waiting
      modifies `updateWake, `state
      ensures Valid() && state == EndWait(old(state), cancelled) && (woken <==> state.pub.pc == Deciding)
      ensures woken == (!cancelled && old(updateWake)) && updateWake == (old(updateWake) && !woken)
    {
      woken := !cancelled && updateWake;
      if woken {
        updateWake := false;
      }
      state := EndWait(state, cancelled);
    }

    /** One call of runPending, with the other goroutines' steps wherever it does not hold the mutex. */
    method RunPending(g: Gaps) returns (shouldPublish: bool)
      requires Valid() && state.pub.pc == Deciding
      modifies this
      ensures Valid() && state == Pass(old(state), g)
      ensures state.pub.pc == if shouldPublish then Deciding else Waiting
      ensures shouldPublish == old(updatesPending || statusDirty || configDirty)
    {
      shouldPublish := DecideToPublish();
      if shouldPublish {
        ReceiveAll(g.beforeTake);
        PublishUpdates(g);
      }
    }

    method PublishUpdates(g: Gaps)
      requires Valid() && state.pub.pc == Taking
      modifies this
      ensures Valid() && state == TakeAndSend(old(state), g) && state.pub.pc == Deciding
    {
      var taken := TakeUpdates();
      if taken.Some? {
        SendUpdates(taken.value, g);
      }
    }

    method SendUpdates(u: Updates, g: Gaps)
      requires Valid() && state.pub.pc == SendingStatus && Carried(state.pub) == u
      modifies this
      ensures Valid() && state == SendAll(old(state), g) && state.pub.pc == Deciding
    {
      SendStatusPart(u, g);
      SendConfigPart(u, g);
      FinishPass(u, g);
    }

    method SendStatusPart(u: Updates, g: Gaps)
      requires Valid() && state.pub.pc == SendingStatus && Carried(state.pub) == u
      modifies this
      ensures Valid() && state == Step(Around(old(state), g.beforeStatus), SendStatus)
      ensures state.pub.pc == SendingConfig && Carried(state.pub) == u
    {
      ReceiveAll(g.beforeStatus);
      PublishStatus(u);
    }

    method SendConfigPart(u: Updates, g: Gaps)
      requires Valid() && state.pub.pc == SendingConfig && Carried(state.pub) == u
      modifies this
      ensures Valid() && state == Step(Around(old(state), g.beforeConfig), SendConfig)
      ensures state.pub.pc == Noting && Carried(state.pub) == u
    {
      ReceiveAll(g.beforeConfig);
      PublishConfig(u);
    }

    method FinishPass(u: Updates, g: Gaps)
      requires Valid() && state.pub.pc == Noting && Carried(state.pub) == u
      modifies this
      ensures Valid() && state == NoteAndReady(old(state), g) && state.pub.pc == Deciding
    {
      ReceiveAll(g.beforeNote);
      NoteConfig(u);
      AnnounceReady(u, g);
    }

    method AnnounceReady(u: Updates, g: Gaps)
      requires Valid() && state.pub.pc == Readying && Carried(state.pub) == u
      modifies this
      ensures Valid() && state == ReadyAndAnnounce(old(state), g) && state.pub.pc == Deciding
    {
      ReceiveAll(g.beforeReady);
      var ended, _, _ := PublishReadyAfterInitialState(u);
      if ended {
        PublishAnnouncements(g);
      }
    }

    /** Publishing discovery and "online" changes nothing here. */
    method PublishAnnouncements(g: Gaps)
      requires Valid() && state.pub.pc == Announcing
      modifies this
      ensures Valid() && state == Step(Around(old(state), g.beforeAnnounce), Announce) && state.pub.pc == Deciding
    {
      ReceiveAll(g.beforeAnnounce);
      state := Step(state, Announce);
    }
  }

  /** What a subscription attempt answers, and whether the connection is lost right after it. */
  datatype Try = Try(ok: bool, lost: bool)

  datatype Published = Published(status: bool, config: bool, online: bool)

  /** What has been published counts if it was sent in the current session; once both kinds count, the end of the
      initial state is reached and the session is online. */
  ghost predicate Marked(before: Published, after: Published, current: bool, u: Updates, ended: bool) {
    && after.status == (before.status || (current && u.statusDirty))
    && after.config == (before.config || (current && u.configDirty))
    && ended == (current && after.status && after.config) && after.online == (before.online || ended)
  }

  /** The local variables of publishUpdates. */
  datatype Updates = Updates(c: nat, statusDirty: bool, configDirty: bool, status: Snapshot, config: Snapshot)

  function Carried(p: Publisher): Updates {
    Updates(p.c, p.statusDirty, p.configDirty, p.status, p.config)
  }

  /** The steps of other goroutines in the gaps between the critical sections of one pass. */
  datatype Gaps = Gaps(
    beforeTake: seq<Action>, beforeStatus: seq<Action>, beforeConfig: seq<Action>, beforeNote: seq<Action>,
    beforeReady: seq<Action>, beforeAnnounce: seq<Action>)

  /** One round of Run: the steps of other goroutines before runPending, in its gaps and during a wait, and whether
      the context is cancelled by the end of that wait. */
  datatype Round = Round(before: seq<Action>, gaps: Gaps, waiting: seq<Action>, cancelled: bool)

  // ---- Connection set-up --------------------------------------------------------------------------------------

  function SetUp(s: State, c: nat, tries: seq<Try>): State
    requires At(s.link.setups, c, Starting)
  {
    var adopted := ClientAdopted(s, c);
    if c != s.se.id then adopted else Trying(adopted, c, tries)
  }

  function Trying(s: State, c: nat, tries: seq<Try>): State
    requires At(s.link.setups, c, Checking)
    decreases tries
  {
    var checked := Step(s, Check(c));
    if c != s.se.id || tries == [] then checked
    else
      var tried := Tried(checked, c, tries[0]);
      if tries[0].ok then Opened(tried, c) else Trying(tried, c, tries[1..])
  }

  function Tried(s: State, c: nat, attempt: Try): (t: State)
    requires At(s.link.setups, c, Attempting)
    ensures At(t.link.setups, c, if attempt.ok then Joining else Checking)
  {
    var attempted := Step(s, Attempt(c, attempt.ok));
    if attempt.lost then LinkLost(attempted) else attempted
  }

  function Opened(s: State, c: nat): State
    requires At(s.link.setups, c, Joining)
  {
    var joined := SessionJoined(s, c);
    if c != s.se.id then joined else Step(Step(joined, Request(c)), Signal)
  }

  // ---- Passes -------------------------------------------------------------------------------------------------

  function Pass(s: State, g: Gaps): State
    requires s.pub.pc == Deciding
  {
    var due := Step(s, Decide);
    if due.pub.pc == Waiting then due else TakeAndSend(Around(due, g.beforeTake), g)
  }

  function TakeAndSend(s: State, g: Gaps): State
    requires s.pub.pc == Taking
  {
    var taken := Taken(s);
    if taken.pub.pc == Deciding then taken else SendAll(taken, g)
  }

  function SendAll(s: State, g: Gaps): State
    requires s.pub.pc == SendingStatus
  {
    var forwarded := Step(Around(s, g.beforeStatus), SendStatus);
    NoteAndReady(Step(Around(forwarded, g.beforeConfig), SendConfig), g)
  }

  function NoteAndReady(s: State, g: Gaps): State
    requires s.pub.pc == Noting
  {
    ReadyAndAnnounce(BatteryNoted(Around(s, g.beforeNote)), g)
  }

  function ReadyAndAnnounce(s: State, g: Gaps): State
    requires s.pub.pc == Readying
  {
    var ready := MadeReady(Around(s, g.beforeReady));
    if ready.pub.pc == Announcing then Step(Around(ready, g.beforeAnnounce), Announce) else ready
  }

  function EndWait(s: State, cancelled: bool): State
    requires s.pub.pc == Waiting
  {
    if cancelled then Step(s, Cancel) else if s.mail.wake then Step(s, WakeUp) else s
  }

  function OneRound(s: State, round: Round): State
    requires s.pub.pc == Deciding
  {
    var passed := Pass(Around(s, round.before), round.gaps);
    if passed.pub.pc != Waiting then passed else EndWait(Around(passed, round.waiting), round.cancelled)
  }

  function RunRounds(s: State, rounds: seq<Round>): State
    requires s.pub.pc == Deciding
    decreases rounds
  {
    if rounds == [] then s
    else
      var after := OneRound(s, rounds[0]);
      if after.pub.pc != Deciding then after else RunRounds(after, rounds[1..])
  }

  // ---- Steps of other goroutines ------------------------------------------------------------------------------

  predicate FromSetup(a: Action) {
    a.Adopt? || a.Check? || a.Attempt? || a.Join? || a.Request?
  }

  predicate IsVisit(a: Action) {
    FromProducer(a) || FromSetup(a) || a.RaiseLink? || a.LoseLink?
  }

  function VisitStep(s: State, a: Action): (t: State)
    ensures t.pub == s.pub
  {
    if IsVisit(a) && Enabled(s, a) then Step(s, a) else s
  }

  function Around(s: State, visits: seq<Action>): (t: State)
    ensures t.pub == s.pub
  {
    if visits == [] then s else VisitStep(Around(s, visits[..|visits| - 1]), visits[|visits| - 1])
  }
}
