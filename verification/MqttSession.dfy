/** The MQTT session and publish mailbox of mqtt.go as a transition system. Each critical section under the
    service's mutex is one step, and so is each send between them; the runs are all the interleavings of the
    publishing loop with the connection callbacks, the connection set-ups they start, and the producers of
    snapshots. */
module MqttSession {
  import opened Basics
  import opened Registers

  /** A decoded register table; a nil map reads as the empty one. */
  type Snapshot = map<string, Value>

  datatype Content = Status | Config

  /** What is remembered of a run: subscriptions that succeeded, snapshots sent by publishUpdates under the connection
      number it captured, decisions of publishReadyAfterInitialState to publish discovery and "online", and the
      availability that InverterAvailabilityChanged publishes. */
  datatype Event =
    | Subscribed(c: nat) | Sent(content: Content, c: nat) | Decided(c: nat, discovery: bool, online: bool)
    | Said(c: nat, available: bool)

  datatype Session = Session(
    id: nat,                // connectionID
    client: nat,            // the connection whose client is installed
    connected: bool,
    initialStatus: bool,    // initialStatusPublished
    initialConfig: bool,    // initialConfigPublished
    online: bool,           // onlinePublished
    polling: bool)          // what SetPollingEnabled was last called with

  /** One half of the mailbox, with everything delivered to it, the positions of the snapshots taken out of it, and
      the snapshots sent on. */
  datatype Box = Box(pending: Snapshot, dirty: bool, delivered: seq<Snapshot>, taken: seq<int>, sent: seq<Snapshot>)

  datatype Mail = Mail(
    updates: bool,          // updatesPending
    wake: bool,             // updateWake holds its one token
    signallers: nat)        // producers between their unlock and their signal

  /** `changes` counts the battery type changes and `announced` the ones the last discovery decision knew of. */
  datatype Discovery = Discovery(pending: bool, battery: seq<Byte>, changes: nat, announced: nat)

  /** Where the publishing loop stands: named after what it does next. */
  datatype Pc =
    | Deciding | Taking | SendingStatus | SendingConfig | Noting | Readying | Announcing | Waiting | Stopped

  /** The publishing loop and the local variables of publishUpdates. */
  datatype Publisher = Publisher(
    pc: Pc, c: nat, statusDirty: bool, configDirty: bool, status: Snapshot, config: Snapshot)

  /** Where an onConnect goroutine stands. */
  datatype Setup = Starting | Checking | Attempting | Joining | Requesting

  datatype Link = Link(up: bool, setups: map<nat, Setup>)

  datatype State = State(
    se: Session, status: Box, config: Box, mail: Mail, disco: Discovery, pub: Publisher, link: Link, log: seq<Event>)

  const EMPTY_BOX: Box := Box(map[], false, [], [], [])

  /** A new service. */
  const INITIAL: State :=
    State(Session(0, 0, false, false, false, false, false), EMPTY_BOX, EMPTY_BOX, Mail(false, false, 0),
          Discovery(false, [], 0, 0), Publisher(Deciding, 0, false, false, map[], map[]), Link(false, map[]), [])

  datatype Action =
    // producers
    | DeliverStatus(snapshot: Snapshot) | DeliverConfig(snapshot: Snapshot) | Signal
    | ChangeAvailability(available: bool)
    // connection callbacks and the set-ups they start
    | RaiseLink | LoseLink
    | Adopt(c: nat) | Check(c: nat) | Attempt(c: nat, ok: bool) | Join(c: nat) | Request(c: nat)
    // the publishing loop
    | Decide | Take | SendStatus | SendConfig | NoteBattery | Ready | Announce | WakeUp | Cancel

  predicate At(setups: map<nat, Setup>, c: nat, setup: Setup) {
    c in setups && setups[c] == setup
  }

  /** A step that can happen, whatever the order of the connection callbacks. */
  predicate Possible(s: State, a: Action) {
    match a
    case DeliverStatus(_) => true
    case DeliverConfig(_) => true
    case Signal => s.mail.signallers > 0
    case ChangeAvailability(_) => true
    case RaiseLink => true
    case LoseLink => true
    case Adopt(c) => At(s.link.setups, c, Starting)
    case Check(c) => At(s.link.setups, c, Checking)
    case Attempt(c, _) => At(s.link.setups, c, Attempting)
    case Join(c) => At(s.link.setups, c, Joining)
    case Request(c) => At(s.link.setups, c, Requesting)
    case Decide => s.pub.pc == Deciding
    case Take => s.pub.pc == Taking
    case SendStatus => s.pub.pc == SendingStatus
    case SendConfig => s.pub.pc == SendingConfig
    case NoteBattery => s.pub.pc == Noting
    case Ready => s.pub.pc == Readying
    case Announce => s.pub.pc == Announcing
    case WakeUp => s.pub.pc == Waiting && s.mail.wake
    case Cancel => s.pub.pc == Waiting
  }

  /** No connection-up callback comes while the connection is up. */
  predicate Enabled(s: State, a: Action) {
    Possible(s, a) && (a.RaiseLink? ==> !s.link.up)
  }

  // ---- The critical sections, on the parts of the state they touch ---------------------------------------------

  function Post(b: Box, snapshot: Snapshot): Box {
    b.(pending := snapshot, dirty := true, delivered := b.delivered + [snapshot])
  }

  function Emptied(b: Box): Box {
    b.(pending := map[], dirty := false, taken := if b.dirty then b.taken + [|b.delivered| - 1] else b.taken)
  }

  function Forward(b: Box, carrying: bool, snapshot: Snapshot): Box {
    if carrying then b.(sent := b.sent + [snapshot]) else b
  }

  function Told(se: Session, available: bool): Session {
    se.(online := available && se.connected)
  }

  function Raised(se: Session): Session {
    se.(id := se.id + 1)
  }

  function Lost(se: Session): Session {
    se.(id := se.id + 1, connected := false, initialStatus := false, initialConfig := false, online := false,
        polling := false)
  }

  function Adopted(se: Session, c: nat): Session {
    if c == se.id then se.(client := c) else se
  }

  function Joined(se: Session, c: nat): Session {
    if c != se.id then se
    else se.(connected := true, initialStatus := false, initialConfig := false, online := false, polling := true)
  }

  predicate Ending(se: Session, c: nat, statusDirty: bool, configDirty: bool) {
    && se.connected && c == se.id
    && (se.initialStatus || statusDirty) && (se.initialConfig || configDirty)
  }

  /** publishReadyAfterInitialState: a stale call does nothing; the decision is made once both kinds have been sent.
      */
  function Readied(se: Session, c: nat, statusDirty: bool, configDirty: bool): Session {
    if !se.connected || c != se.id then se
    else se.(initialStatus := se.initialStatus || statusDirty, initialConfig := se.initialConfig || configDirty,
             online := se.online || Ending(se, c, statusDirty, configDirty))
  }

  function Announced(d: Discovery): Discovery {
    d.(pending := false, announced := if d.pending then d.changes else d.announced)
  }

  function NewBattery(config: Snapshot): seq<Byte> {
    if "BatteryType" in config && config["BatteryType"].TextV? then config["BatteryType"].bytes else []
  }

  function Noted(d: Discovery, battery: seq<Byte>): Discovery {
    if battery == [] || battery == d.battery then d
    else d.(battery := battery, pending := true, changes := d.changes + 1)
  }

  // ---- Steps --------------------------------------------------------------------------------------------------

  function Posted(mail: Mail): Mail {
    mail.(updates := true, signallers := mail.signallers + 1)
  }

  function Move(link: Link, c: nat, current: bool, setup: Setup): Link {
    link.(setups := if current then link.setups[c := setup] else link.setups - {c})
  }

  predicate Dirty(s: State) { s.status.dirty || s.config.dirty }

  function Step(s: State, a: Action): State
    requires Possible(s, a)
  {
    match a
    case DeliverStatus(snapshot) => StatusPosted(s, snapshot)
    case DeliverConfig(snapshot) => ConfigPosted(s, snapshot)
    case Signal => s.(mail := s.mail.(wake := true, signallers := s.mail.signallers - 1))
    case ChangeAvailability(available) => AvailabilityTold(s, available)
    case RaiseLink => LinkRaised(s)
    case LoseLink => LinkLost(s)
    case Adopt(c) => ClientAdopted(s, c)
    case Check(c) => s.(link := Move(s.link, c, c == s.se.id, Attempting))
    case Attempt(c, ok) =>
      if ok then s.(link := Move(s.link, c, true, Joining), log := s.log + [Subscribed(c)])
      else s.(link := Move(s.link, c, true, Checking))
    case Join(c) => SessionJoined(s, c)
    case Request(c) => s.(mail := Posted(s.mail), link := s.link.(setups := s.link.setups - {c}))
    case Decide =>
      var due := s.mail.updates || Dirty(s);
      s.(mail := s.mail.(updates := false), pub := s.pub.(pc := if due then Taking else Waiting))
    case Take => Taken(s)
    case SendStatus =>
      s.(status := Forward(s.status, s.pub.statusDirty, s.pub.status), pub := s.pub.(pc := SendingConfig),
         log := if s.pub.statusDirty then s.log + [Sent(Status, s.pub.c)] else s.log)
    case SendConfig =>
      s.(config := Forward(s.config, s.pub.configDirty, s.pub.config), pub := s.pub.(pc := Noting),
         log := if s.pub.configDirty then s.log + [Sent(Config, s.pub.c)] else s.log)
    case NoteBattery => BatteryNoted(s)
    case Ready => MadeReady(s)
    case Announce => s.(pub := s.pub.(pc := Deciding))
    case WakeUp => s.(mail := s.mail.(wake := false), pub := s.pub.(pc := Deciding))
    case Cancel => s.(pub := s.pub.(pc := Stopped))
  }

  function StatusPosted(s: State, snapshot: Snapshot): State {
    s.(status := Post(s.status, snapshot), mail := Posted(s.mail))
  }

  function ConfigPosted(s: State, snapshot: Snapshot): State {
    s.(config := Post(s.config, snapshot), mail := Posted(s.mail))
  }

  function AvailabilityTold(s: State, available: bool): State {
    s.(se := Told(s.se, available), log := if s.se.connected then s.log + [Said(s.se.id, available)] else s.log)
  }

  function LinkRaised(s: State): State {
    s.(se := Raised(s.se), link := Link(true, s.link.setups[s.se.id + 1 := Starting]))
  }

  function LinkLost(s: State): State {
    s.(se := Lost(s.se), link := s.link.(up := false))
  }

  function ClientAdopted(s: State, c: nat): State {
    s.(se := Adopted(s.se, c), link := Move(s.link, c, c == s.se.id, Checking))
  }

  function SessionJoined(s: State, c: nat): State {
    s.(se := Joined(s.se, c), link := Move(s.link, c, c == s.se.id, Requesting))
  }

  function BatteryNoted(s: State): State {
    s.(disco := if s.pub.configDirty then Noted(s.disco, NewBattery(s.pub.config)) else s.disco,
       pub := s.pub.(pc := Readying))
  }

  /** The critical section of publishUpdates: while disconnected the snapshots stay and the request is renewed. */
  function Taken(s: State): State {
    if !s.se.connected then
      s.(mail := s.mail.(updates := s.mail.updates || Dirty(s)), pub := s.pub.(pc := Deciding))
    else
      s.(status := Emptied(s.status), config := Emptied(s.config),
         pub := Publisher(SendingStatus, s.se.id, s.status.dirty, s.config.dirty, s.status.pending, s.config.pending))
  }

  function MadeReady(s: State): State {
    var p := s.pub;
    if !Ending(s.se, p.c, p.statusDirty, p.configDirty) then
      s.(se := Readied(s.se, p.c, p.statusDirty, p.configDirty), pub := p.(pc := Deciding))
    else
      s.(se := Readied(s.se, p.c, p.statusDirty, p.configDirty), disco := Announced(s.disco),
         pub := p.(pc := Announcing), log := s.log + [Decided(p.c, s.disco.pending, !s.se.online)])
  }

  // ---- Runs ---------------------------------------------------------------------------------------------------

  ghost predicate IsRun(states: seq<State>, actions: seq<Action>) {
    && |states| == |actions| + 1 && states[0] == INITIAL
    && forall i | 0 <= i < |actions| :: Enabled(states[i], actions[i]) && states[i + 1] == Step(states[i], actions[i])
  }

  // ---- The invariant, in parts --------------------------------------------------------------------------------

  /** Being connected means this connection's client is installed and subscribed, and what counts as initially
      published was sent under this connection. */
  ghost predicate SessionKept(se: Session, up: bool, log: seq<Event>) {
    && se.polling == se.connected
    && (se.connected ==> up && se.client == se.id && Subscribed(se.id) in log)
    && (!se.connected ==> !se.initialStatus && !se.initialConfig && !se.online)
    && (se.initialStatus ==> Sent(Status, se.id) in log)
    && (se.initialConfig ==> Sent(Config, se.id) in log)
  }

  /** A set-up of the current connection belongs to a live link and has installed its client once it is past the
      start, and until it requests an update the session is not connected. */
  ghost predicate SetupKept(setup: Setup, c: nat, se: Session, up: bool, log: seq<Event>) {
    && c <= se.id
    && (c == se.id ==> up && (setup.Starting? || se.client == c))
    && (c == se.id && !setup.Requesting? ==> !se.connected)
    && (setup.Joining? ==> Subscribed(c) in log)
  }

  ghost predicate SetupsKept(link: Link, se: Session, log: seq<Event>) {
    forall c | c in link.setups :: SetupKept(link.setups[c], c, se, link.up, log)
  }

  predicate InPass(pc: Pc) { pc.SendingStatus? || pc.SendingConfig? || pc.Noting? || pc.Readying? || pc.Announcing? }

  /** A pass that is under way in a session with something initially published belongs to that session. */
  ghost predicate PassKept(p: Publisher, se: Session, log: seq<Event>) {
    && p.c <= se.id
    && (InPass(p.pc) && (se.initialStatus || se.initialConfig) ==> p.c == se.id)
    && (p.statusDirty && (p.pc.SendingConfig? || p.pc.Noting? || p.pc.Readying?) ==> Sent(Status, p.c) in log)
    && (p.configDirty && (p.pc.Noting? || p.pc.Readying?) ==> Sent(Config, p.c) in log)
  }

  /** Every decision comes after what it depends on. */
  ghost predicate Justified(log: seq<Event>) {
    forall i | 0 <= i < |log| && log[i].Decided? ::
      Subscribed(log[i].c) in log[..i] && Sent(Status, log[i].c) in log[..i] && Sent(Config, log[i].c) in log[..i]
  }

  ghost predicate DiscoveryKept(d: Discovery, se: Session, p: Publisher) {
    && d.announced <= d.changes && (d.pending <==> d.announced < d.changes)
    && (se.initialStatus && se.initialConfig && d.pending ==> p.pc == Readying)
  }

  /** Whether the last availability published under a connection was "online". */
  function LastSaid(log: seq<Event>, c: nat): bool {
    log != [] &&
    match log[|log| - 1]
    case Said(d, available) => if d == c then available else LastSaid(log[..|log| - 1], c)
    case Decided(d, _, online) => (d == c && online) || LastSaid(log[..|log| - 1], c)
    case _ => LastSaid(log[..|log| - 1], c)
  }

  /** A connected session remembers as online what was last published in it; nothing is published before it. */
  ghost predicate AvailabilityKept(se: Session, log: seq<Event>) {
    && (forall i | 0 <= i < |log| && (log[i].Said? || log[i].Decided?) ::
          if se.connected then log[i].c <= se.id else log[i].c < se.id)
    && (se.connected ==> (se.online <==> LastSaid(log, se.id)))
  }

  /** A waiting publisher with something to do has been woken or is about to be. */
  ghost predicate Awaited(mail: Mail, dirty: bool, pc: Pc) {
    pc == Waiting && (dirty || mail.updates) ==> mail.wake || mail.signallers > 0
  }

  function LastTaken(b: Box): int {
    if b.taken == [] then -1 else b.taken[|b.taken| - 1]
  }

  /** The snapshots taken out: the ones sent on and the one on its way. */
  function Contents(b: Box, carrying: bool, snapshot: Snapshot): seq<Snapshot> {
    if carrying then b.sent + [snapshot] else b.sent
  }

  /** The snapshots taken are the delivered ones at strictly increasing positions. */
  ghost predicate Drawn(taken: seq<int>, contents: seq<Snapshot>, delivered: seq<Snapshot>) {
    && |taken| == |contents|
    && (forall i | 0 <= i < |taken| :: 0 <= taken[i] < |delivered| && contents[i] == delivered[taken[i]])
    && forall i, j | 0 <= i < j < |taken| :: taken[i] < taken[j]
  }

  ghost predicate BoxKept(b: Box, contents: seq<Snapshot>) {
    && Drawn(b.taken, contents, b.delivered)
    && (b.dirty <==> LastTaken(b) < |b.delivered| - 1)
    && (b.dirty ==> b.pending == b.delivered[|b.delivered| - 1])
  }

  predicate CarriesStatus(p: Publisher) { p.statusDirty && p.pc.SendingStatus? }
  predicate CarriesConfig(p: Publisher) { p.configDirty && (p.pc.SendingStatus? || p.pc.SendingConfig?) }

  function StatusTaken(s: State): seq<Snapshot> { Contents(s.status, CarriesStatus(s.pub), s.pub.status) }
  function ConfigTaken(s: State): seq<Snapshot> { Contents(s.config, CarriesConfig(s.pub), s.pub.config) }

  ghost predicate BoxesKept(s: State) {
    BoxKept(s.status, StatusTaken(s)) && BoxKept(s.config, ConfigTaken(s))
  }

  /** The battery type a configuration names, if any. */
  function BatteryIn(config: Snapshot): seq<seq<Byte>> {
    if "BatteryType" in config && config["BatteryType"].TextV? && config["BatteryType"].bytes != []
    then [config["BatteryType"].bytes] else []
  }

  /** The battery types named, in order. */
  function Batteries(configs: seq<Snapshot>): seq<seq<Byte>> {
    if configs == [] then [] else Batteries(configs[..|configs| - 1]) + BatteryIn(configs[|configs| - 1])
  }

  /** How often the battery type has changed, from none at first. */
  function Changes(batteries: seq<seq<Byte>>): nat {
    if batteries == [] then 0
    else
      var rest := batteries[..|batteries| - 1];
      Changes(rest) + if batteries[|batteries| - 1] == Newest(rest) then 0 else 1
  }

  function Newest(batteries: seq<seq<Byte>>): seq<Byte> {
    if batteries == [] then [] else batteries[|batteries| - 1]
  }

  /** The configurations sent and noted; the last one sent may not have been noted yet. */
  function NotedConfigs(s: State): seq<Snapshot> {
    if s.pub.pc == Noting && s.pub.configDirty && s.config.sent != [] then s.config.sent[..|s.config.sent| - 1]
    else s.config.sent
  }

  /** The battery type known, and its changes counted, are those of the configurations sent. */
  ghost predicate DiscoveryFollows(s: State) {
    && (s.pub.pc == Noting && s.pub.configDirty ==>
          s.config.sent != [] && s.config.sent[|s.config.sent| - 1] == s.pub.config)
    && s.disco.battery == Newest(Batteries(NotedConfigs(s))) && s.disco.changes == Changes(Batteries(NotedConfigs(s)))
  }

  ghost predicate ConnectionKept(s: State) {
    && SessionKept(s.se, s.link.up, s.log) && SetupsKept(s.link, s.se, s.log)
    && PassKept(s.pub, s.se, s.log) && Justified(s.log) && DiscoveryKept(s.disco, s.se, s.pub)
  }

  ghost predicate Sound(s: State) {
    && ConnectionKept(s) && AvailabilityKept(s.se, s.log) && BoxesKept(s) && Awaited(s.mail, Dirty(s), s.pub.pc)
    && DiscoveryFollows(s)
  }

  // ---- Every step keeps it ------------------------------------------------------------------------------------

  /** Remembering one more event forgets none, and a justified decision keeps the log justified. */
  lemma {:induction false} LogGrows(log: seq<Event>, e: Event)
    requires Justified(log)
    requires e.Decided? ==> Subscribed(e.c) in log && Sent(Status, e.c) in log && Sent(Config, e.c) in log
    ensures Justified(log + [e])
    ensures e in log + [e] && forall x | x in log :: x in log + [e]
  {
    var after := log + [e];
    forall i | 0 <= i < |after| && after[i].Decided?
      ensures Subscribed(after[i].c) in after[..i]
      ensures Sent(Status, after[i].c) in after[..i]
      ensures Sent(Config, after[i].c) in after[..i]
    {
      assert after[..i] == log[..i];
      assert log[..|log|] == log;
    }
  }

  predicate FromProducer(a: Action) {
    a.DeliverStatus? || a.DeliverConfig? || a.Signal? || a.ChangeAvailability?
  }

  lemma {:induction false} ProducersKeepConnection(s: State, a: Action)
    requires ConnectionKept(s) && Enabled(s, a) && FromProducer(a)
    ensures ConnectionKept(Step(s, a))
  {
    if a.ChangeAvailability? {
      LogGrows(s.log, Said(s.se.id, a.available));
    }
  }

  lemma {:induction false} LinkKeepsConnection(s: State, a: Action)
    requires ConnectionKept(s) && Enabled(s, a) && (a.RaiseLink? || a.LoseLink?)
    ensures ConnectionKept(Step(s, a))
  {
  }

  lemma {:induction false} SetupsKeepConnection(s: State, a: Action)
    requires ConnectionKept(s) && Enabled(s, a) && (a.Adopt? || a.Check? || a.Join? || a.Request?)
    ensures ConnectionKept(Step(s, a))
  {
  }

  lemma {:induction false} AttemptKeepsConnection(s: State, c: nat, ok: bool)
    requires ConnectionKept(s) && Enabled(s, Attempt(c, ok))
    ensures ConnectionKept(Step(s, Attempt(c, ok)))
  {
    LogGrows(s.log, Subscribed(c));
  }

  lemma {:induction false} SendsKeepConnection(s: State, a: Action)
    requires ConnectionKept(s) && Enabled(s, a) && (a.SendStatus? || a.SendConfig?)
    ensures ConnectionKept(Step(s, a))
  {
    LogGrows(s.log, Sent(if a.SendStatus? then Status else Config, s.pub.c));
  }

  lemma {:induction false} ReadyKeepsConnection(s: State)
    requires ConnectionKept(s) && Enabled(s, Ready)
    ensures ConnectionKept(Step(s, Ready))
  {
    if Ending(s.se, s.pub.c, s.pub.statusDirty, s.pub.configDirty) {
      LogGrows(s.log, Decided(s.pub.c, s.disco.pending, !s.se.online));
    }
  }

  lemma {:induction false} LoopKeepsConnection(s: State, a: Action)
    requires ConnectionKept(s) && Enabled(s, a)
    requires a.Decide? || a.Take? || a.NoteBattery? || a.Announce? || a.WakeUp? || a.Cancel?
    ensures ConnectionKept(Step(s, a))
  {
  }

  lemma {:induction false} StepKeepsConnection(s: State, a: Action)
    requires ConnectionKept(s) && Enabled(s, a)
    ensures ConnectionKept(Step(s, a))
  {
    if FromProducer(a) {
      ProducersKeepConnection(s, a);
    } else if a.RaiseLink? || a.LoseLink? {
      LinkKeepsConnection(s, a);
    } else if a.Attempt? {
      AttemptKeepsConnection(s, a.c, a.ok);
    } else if a.Adopt? || a.Check? || a.Join? || a.Request? {
      SetupsKeepConnection(s, a);
    } else if a.SendStatus? || a.SendConfig? {
      SendsKeepConnection(s, a);
    } else if a.Ready? {
      ReadyKeepsConnection(s);
    } else {
      LoopKeepsConnection(s, a);
    }
  }

  lemma {:induction false} SaidGrows(log: seq<Event>, e: Event, c: nat)
    ensures LastSaid(log + [e], c) == match e
              case Said(d, available) => if d == c then available else LastSaid(log, c)
              case Decided(d, _, online) => (d == c && online) || LastSaid(log, c)
              case _ => LastSaid(log, c)
  {
    assert (log + [e])[..|log|] == log;
  }

  lemma {:induction false} NothingSaid(log: seq<Event>, c: nat)
    requires forall i | 0 <= i < |log| && (log[i].Said? || log[i].Decided?) :: log[i].c < c
    ensures !LastSaid(log, c)
  {
    if log != [] {
      NothingSaid(log[..|log| - 1], c);
    }
  }

  lemma {:induction false} StepKeepsAvailability(s: State, a: Action)
    requires ConnectionKept(s) && AvailabilityKept(s.se, s.log) && Enabled(s, a)
    ensures AvailabilityKept(Step(s, a).se, Step(s, a).log)
  {
    var t := Step(s, a);
    if t.log != s.log {
      SaidGrows(s.log, t.log[|s.log|], s.se.id);
    } else if a.Join? && a.c == s.se.id {
      assert SetupKept(s.link.setups[a.c], a.c, s.se, s.link.up, s.log);
      NothingSaid(s.log, s.se.id);
    }
  }

  lemma {:induction false} StepKeepsDiscovery(s: State, a: Action)
    requires DiscoveryFollows(s) && Possible(s, a)
    ensures DiscoveryFollows(Step(s, a))
  {
    if a.SendConfig? {
      assert (s.config.sent + [s.pub.config])[..|s.config.sent|] == s.config.sent;
    } else if a.NoteBattery? {
      NoteFollows(s);
    } else {
      OtherStepsKeepDiscovery(s, a);
    }
  }

  lemma {:induction false} NoteFollows(s: State)
    requires DiscoveryFollows(s) && s.pub.pc == Noting
    ensures DiscoveryFollows(BatteryNoted(s))
  {
    if s.pub.configDirty {
      OneMoreBattery(s.disco, Batteries(NotedConfigs(s)), s.pub.config);
    }
  }

  lemma {:induction false} OneMoreBattery(d: Discovery, batteries: seq<seq<Byte>>, config: Snapshot)
    requires d.battery == Newest(batteries) && d.changes == Changes(batteries)
    ensures var noted := Noted(d, NewBattery(config));
      var after := batteries + BatteryIn(config);
      noted.battery == Newest(after) && noted.changes == Changes(after)
  {
    if BatteryIn(config) != [] {
      assert (batteries + BatteryIn(config))[..|batteries|] == batteries;
    } else {
      assert batteries + [] == batteries;
    }
  }

  lemma {:induction false} OtherStepsKeepDiscovery(s: State, a: Action)
    requires Possible(s, a) && !a.SendConfig? && !a.NoteBattery?
    ensures var t := Step(s, a);
      && t.config.sent == s.config.sent && t.disco.battery == s.disco.battery && t.disco.changes == s.disco.changes
      && (t.pub.pc == Noting <==> s.pub.pc == Noting) && (s.pub.pc == Noting ==> t.pub == s.pub)
  {
  }

  lemma {:induction false} PostKeepsBox(b: Box, contents: seq<Snapshot>, snapshot: Snapshot)
    requires BoxKept(b, contents)
    ensures BoxKept(Post(b, snapshot), contents)
  {
    assert Drawn(b.taken, contents, b.delivered + [snapshot]);
  }

  /** Emptying a dirty box adds its newest snapshot, so far untaken, to the ones taken. */
  lemma {:induction false} EmptyKeepsBox(b: Box, contents: seq<Snapshot>)
    requires BoxKept(b, contents)
    ensures BoxKept(Emptied(b), if b.dirty then contents + [b.pending] else contents)
  {
    if b.dirty {
      OneMoreDrawn(b.taken, contents, b.delivered);
      assert LastTaken(Emptied(b)) == |b.delivered| - 1;
    } else {
      assert Emptied(b) == b.(pending := map[]);
    }
  }

  lemma {:induction false} OneMoreDrawn(taken: seq<int>, contents: seq<Snapshot>, delivered: seq<Snapshot>)
    requires Drawn(taken, contents, delivered) && delivered != []
    requires taken != [] ==> taken[|taken| - 1] < |delivered| - 1
    ensures Drawn(taken + [|delivered| - 1], contents + [delivered[|delivered| - 1]], delivered)
  {
    forall i | 0 <= i < |taken| ensures taken[i] < |delivered| - 1 {
      assert i == |taken| - 1 || taken[i] < taken[|taken| - 1];
    }
  }

  lemma {:induction false} TakeMovesPending(s: State)
    requires s.pub.pc == Taking
    ensures var t := Taken(s);
      && t.status == (if s.se.connected then Emptied(s.status) else s.status)
      && t.config == (if s.se.connected then Emptied(s.config) else s.config)
      && StatusTaken(s) == s.status.sent && ConfigTaken(s) == s.config.sent
      && StatusTaken(t) == s.status.sent + (if s.se.connected && s.status.dirty then [s.status.pending] else [])
      && ConfigTaken(t) == s.config.sent + (if s.se.connected && s.config.dirty then [s.config.pending] else [])
  {
  }

  lemma {:induction false} TakeKeepsBoxes(s: State)
    requires BoxesKept(s) && s.pub.pc == Taking
    ensures BoxesKept(Taken(s))
  {
    TakeMovesPending(s);
    if s.se.connected {
      EmptyKeepsBox(s.status, s.status.sent);
      EmptyKeepsBox(s.config, s.config.sent);
    }
  }

  lemma {:induction false} StepKeepsBoxes(s: State, a: Action)
    requires BoxesKept(s) && Possible(s, a)
    ensures BoxesKept(Step(s, a))
  {
    if a.DeliverStatus? {
      PostKeepsBox(s.status, StatusTaken(s), a.snapshot);
    } else if a.DeliverConfig? {
      PostKeepsBox(s.config, ConfigTaken(s), a.snapshot);
    } else if a.Take? {
      TakeKeepsBoxes(s);
    } else {
      LaterStepsKeepTaken(s, a);
    }
  }

  /** Every other step leaves the boxes as they are, or sends on what had been taken. */
  lemma {:induction false} LaterStepsKeepTaken(s: State, a: Action)
    requires Possible(s, a) && !a.DeliverStatus? && !a.DeliverConfig? && !a.Take?
    ensures var t := Step(s, a);
      && StatusTaken(t) == StatusTaken(s) && ConfigTaken(t) == ConfigTaken(s)
      && t.status == s.status.(sent := t.status.sent) && t.config == s.config.(sent := t.config.sent)
  {
  }

  lemma {:induction false} StepKeepsAwaited(s: State, a: Action)
    requires Awaited(s.mail, Dirty(s), s.pub.pc) && Possible(s, a)
    ensures var t := Step(s, a); Awaited(t.mail, Dirty(t), t.pub.pc)
  {
  }

  /** Every state of every run is sound. */
  lemma {:induction false} RunsAreSound(states: seq<State>, actions: seq<Action>, n: nat)
    requires IsRun(states, actions) && n < |states|
    ensures Sound(states[n])
  {
    if n > 0 {
      RunsAreSound(states, actions, n - 1);
      StepKeepsConnection(states[n - 1], actions[n - 1]);
      StepKeepsAvailability(states[n - 1], actions[n - 1]);
      StepKeepsDiscovery(states[n - 1], actions[n - 1]);
      StepKeepsBoxes(states[n - 1], actions[n - 1]);
      StepKeepsAwaited(states[n - 1], actions[n - 1]);
    }
  }

  // ---- What it gives ------------------------------------------------------------------------------------------

  /** Nobody has woken the publisher or is about to. */
  predicate Quiet(s: State) {
    s.pub.pc == Waiting && !s.mail.wake && s.mail.signallers == 0
  }

  /** In every interleaving: when the publisher waits with no wake token and no producer about to signal, nothing is
      dirty and no update is pending. */
  lemma {:induction false} NoLostWakeUp(states: seq<State>, actions: seq<Action>, n: nat)
    requires IsRun(states, actions) && n < |states| && Quiet(states[n])
    ensures !states[n].status.dirty && !states[n].config.dirty && !states[n].mail.updates
  {
    RunsAreSound(states, actions, n);
  }

  /** Then, too, the newest snapshot of each kind has been sent. */
  lemma {:induction false} QuietMeansSent(states: seq<State>, actions: seq<Action>, n: nat)
    requires IsRun(states, actions) && n < |states| && Quiet(states[n])
    ensures NewestSent(states[n].status) && NewestSent(states[n].config)
  {
    RunsAreSound(states, actions, n);
    NewestIsSent(states[n].status);
    NewestIsSent(states[n].config);
  }

  ghost predicate NewestSent(b: Box) {
    b.delivered != [] ==> b.sent != [] && b.sent[|b.sent| - 1] == b.delivered[|b.delivered| - 1]
  }

  lemma {:induction false} NewestIsSent(b: Box)
    requires BoxKept(b, b.sent) && !b.dirty
    ensures NewestSent(b)
  {
  }

  /** Mailbox conservation: the snapshots taken, each once, are delivered ones at strictly increasing positions; a
      dirty flag is set exactly while the newest delivered snapshot is untaken, and then that one is pending. */
  lemma {:induction false} MailboxConserves(states: seq<State>, actions: seq<Action>, n: nat)
    requires IsRun(states, actions) && n < |states|
    ensures var s := states[n];
      BoxKept(s.status, StatusTaken(s)) && BoxKept(s.config, ConfigTaken(s))
  {
    RunsAreSound(states, actions, n);
  }

  /** Session safety of the ready path: a decision to publish discovery or "online" in a connection comes after a
      status and a config snapshot were sent under that connection, and after its command subscription succeeded. */
  lemma {:induction false} ReadyAfterInitialState(states: seq<State>, actions: seq<Action>, n: nat, i: nat)
    requires IsRun(states, actions) && n < |states| && i < |states[n].log| && states[n].log[i].Decided?
    ensures var log, c := states[n].log, states[n].log[i].c;
      Subscribed(c) in log[..i] && Sent(Status, c) in log[..i] && Sent(Config, c) in log[..i]
  {
    RunsAreSound(states, actions, n);
  }

  /** The session is connected only on a live link whose own client is installed and subscribed; polling follows it.
      */
  lemma {:induction false} ConnectedMeansSubscribed(states: seq<State>, actions: seq<Action>, n: nat)
    requires IsRun(states, actions) && n < |states|
    ensures var s := states[n];
      && s.se.polling == s.se.connected
      && (s.se.connected ==> s.link.up && s.se.client == s.se.id && Subscribed(s.se.id) in s.log)
  {
    RunsAreSound(states, actions, n);
  }

  /** A set-up that finds its connection number out of date ends there, whatever it was about to do; a current one
      goes on, retries a failed subscription and joins after a successful one. */
  lemma {:induction false} StaleSetUpsEnd(s: State, a: Action)
    requires Possible(s, a) && (a.Adopt? || a.Check? || a.Attempt? || a.Join?)
    ensures var setups := Step(s, a).link.setups;
      if a.Attempt? then At(setups, a.c, if a.ok then Joining else Checking)
      else if a.c != s.se.id then a.c !in setups && Step(s, a).se == s.se
      else At(setups, a.c, if a.Adopt? then Checking else if a.Check? then Attempting else Requesting)
  {
  }

  /** In every interleaving a connected session is taken to be online exactly when the last availability published in
      it, by a ready decision or by InverterAvailabilityChanged, was "online". */
  lemma {:induction false} OnlineIsWhatWasSaid(states: seq<State>, actions: seq<Action>, n: nat)
    requires IsRun(states, actions) && n < |states| && states[n].se.connected
    ensures states[n].se.online <==> LastSaid(states[n].log, states[n].se.id)
  {
    RunsAreSound(states, actions, n);
  }

  function StatusesIn(actions: seq<Action>): seq<Snapshot> {
    if actions == [] then []
    else
      var a := actions[|actions| - 1];
      StatusesIn(actions[..|actions| - 1]) + if a.DeliverStatus? then [a.snapshot] else []
  }

  function ConfigsIn(actions: seq<Action>): seq<Snapshot> {
    if actions == [] then []
    else
      var a := actions[|actions| - 1];
      ConfigsIn(actions[..|actions| - 1]) + if a.DeliverConfig? then [a.snapshot] else []
  }

  function CountSent(log: seq<Event>, content: Content): nat {
    if log == [] then 0
    else
      var e := log[|log| - 1];
      CountSent(log[..|log| - 1], content) + if e.Sent? && e.content == content then 1 else 0
  }

  /** What the boxes call delivered is everything the producers posted, in order, and every snapshot sent is logged. */
  lemma {:induction false} DeliveredIsPosted(states: seq<State>, actions: seq<Action>, n: nat)
    requires IsRun(states, actions) && n < |states|
    ensures states[n].status.delivered == StatusesIn(actions[..n])
    ensures states[n].config.delivered == ConfigsIn(actions[..n])
    ensures |states[n].status.sent| == CountSent(states[n].log, Status)
    ensures |states[n].config.sent| == CountSent(states[n].log, Config)
  {
    if n > 0 {
      DeliveredIsPosted(states, actions, n - 1);
      assert actions[..n][..n - 1] == actions[..n - 1];
      StepRemembers(states[n - 1], actions[n - 1]);
    }
  }

  lemma {:induction false} StepRemembers(s: State, a: Action)
    requires Possible(s, a)
    ensures var t := Step(s, a);
      && t.status.delivered == s.status.delivered + (if a.DeliverStatus? then [a.snapshot] else [])
      && t.config.delivered == s.config.delivered + (if a.DeliverConfig? then [a.snapshot] else [])
      && |t.status.sent| - |s.status.sent| == CountSent(t.log, Status) - CountSent(s.log, Status)
      && |t.config.sent| - |s.config.sent| == CountSent(t.log, Config) - CountSent(s.log, Config)
  {
    var t := Step(s, a);
    if t.log != s.log {
      CountGrows(s.log, t.log[|s.log|]);
    }
  }

  lemma {:induction false} CountGrows(log: seq<Event>, e: Event)
    ensures CountSent(log + [e], Status) == CountSent(log, Status) + if e.Sent? && e.content == Status then 1 else 0
    ensures CountSent(log + [e], Config) == CountSent(log, Config) + if e.Sent? && e.content == Config then 1 else 0
  {
    assert (log + [e])[..|log|] == log;
  }

  /** Once the initial state of a session is out and the publisher waits, the discovery it announced is up to date:
      every change of the battery type in the configurations sent is covered by a discovery decision made after it. */
  lemma {:induction false} DiscoveryCatchesUp(states: seq<State>, actions: seq<Action>, n: nat)
    requires IsRun(states, actions) && n < |states| && states[n].pub.pc == Waiting
    requires states[n].se.initialStatus && states[n].se.initialConfig
    ensures !states[n].disco.pending
    ensures states[n].disco.announced == Changes(Batteries(states[n].config.sent))
  {
    RunsAreSound(states, actions, n);
  }

  // ---- Why two connection-ups in a row are excluded -------------------------------------------------------------

  /** Reachable by possible steps, in whatever order the connection callbacks come. */
  ghost predicate Reachable(s: State) {
    exists states: seq<State>, actions: seq<Action> :: PossibleRun(states, actions) && states[|actions|] == s
  }

  ghost predicate PossibleRun(states: seq<State>, actions: seq<Action>) {
    && |states| == |actions| + 1 && states[0] == INITIAL
    && forall i | 0 <= i < |actions| :: Possible(states[i], actions[i]) && states[i + 1] == Step(states[i], actions[i])
  }

  lemma {:induction false} ReachStep(s: State, a: Action, t: State)
    requires Reachable(s) && Possible(s, a) && t == Step(s, a)
    ensures Reachable(t)
  {
    var states, actions :| PossibleRun(states, actions) && states[|actions|] == s;
    assert PossibleRun(states + [t], actions + [a]);
  }

  const ONE: Session := Session(1, 1, true, false, false, false, true)

  /** The first connection, set up and signalled. */
  const CONNECTED: State :=
    INITIAL.(se := ONE, mail := Mail(true, false, 1), link := Link(true, map[]), log := [Subscribed(1)])

  /** Its configuration, an empty one, has been sent and nothing else. */
  const CONFIG_SENT: State :=
    CONNECTED.(se := ONE.(initialConfig := true), config := Box(map[], false, [map[]], [0], [map[]]),
               mail := Mail(false, false, 2), pub := Publisher(Deciding, 1, false, true, map[], map[]),
               log := [Subscribed(1), Sent(Config, 1)])

  /** A second connection-up without a connection-down, and a status sent. */
  const DECIDED: State :=
    CONFIG_SENT.(se := Session(2, 1, true, true, true, true, true), status := Box(map[], false, [map[]], [0], [map[]]),
                 mail := Mail(false, false, 3), pub := Publisher(Announcing, 2, true, false, map[], map[]),
                 link := Link(true, map[2 := Starting]),
                 log := [Subscribed(1), Sent(Config, 1), Sent(Status, 2), Decided(2, false, true)])

  /** The first connection on its way to subscribing. */
  const SETTING_UP: State :=
    INITIAL.(se := INITIAL.se.(id := 1, client := 1), link := Link(true, map[1 := Attempting]))

  lemma {:induction false} ReachSettingUp()
    ensures Reachable(SETTING_UP)
  {
    assert PossibleRun([INITIAL], []);
    var s1 := INITIAL.(se := INITIAL.se.(id := 1), link := Link(true, map[1 := Starting]));
    ReachStep(INITIAL, RaiseLink, s1);
    var s2 := SETTING_UP.(link := Link(true, map[1 := Checking]));
    ReachStep(s1, Adopt(1), s2);
    ReachStep(s2, Check(1), SETTING_UP);
  }

  lemma {:induction false} ReachConnected()
    ensures Reachable(CONNECTED)
  {
    ReachSettingUp();
    var s1 := SETTING_UP.(link := Link(true, map[1 := Joining]), log := [Subscribed(1)]);
    ReachStep(SETTING_UP, Attempt(1, true), s1);
    var s2 := s1.(se := ONE, link := Link(true, map[1 := Requesting]));
    ReachStep(s1, Join(1), s2);
    ReachStep(s2, Request(1), CONNECTED);
  }

  /** Its configuration, an empty one, is on its way. */
  const CONFIG_TAKEN: State :=
    CONFIG_SENT.(se := ONE, config := Box(map[], false, [map[]], [0], []),
                 pub := Publisher(SendingStatus, 1, false, true, map[], map[]), log := [Subscribed(1)])

  lemma {:induction false} ReachConfigTaken()
    ensures Reachable(CONFIG_TAKEN)
  {
    ReachConnected();
    var s1 := CONNECTED.(config := Box(map[], true, [map[]], [], []), mail := Mail(true, false, 2));
    ReachStep(CONNECTED, DeliverConfig(map[]), s1);
    var s2 := s1.(mail := Mail(false, false, 2), pub := INITIAL.pub.(pc := Taking));
    ReachStep(s1, Decide, s2);
    ReachStep(s2, Take, CONFIG_TAKEN);
  }

  lemma {:induction false} ReachConfigSent()
    ensures Reachable(CONFIG_SENT)
  {
    ReachConfigTaken();
    var p := CONFIG_TAKEN.pub;
    var s1 := CONFIG_TAKEN.(pub := p.(pc := SendingConfig));
    ReachStep(CONFIG_TAKEN, SendStatus, s1);
    var s2 := s1.(config := CONFIG_SENT.config, pub := p.(pc := Noting), log := CONFIG_SENT.log);
    ReachStep(s1, SendConfig, s2);
    var s3 := s2.(pub := p.(pc := Readying));
    ReachStep(s2, NoteBattery, s3);
    ReachStep(s3, Ready, CONFIG_SENT);
  }

  /** A status on its way under the second connection. */
  const STATUS_TAKEN: State :=
    DECIDED.(se := CONFIG_SENT.se.(id := 2), status := Box(map[], false, [map[]], [0], []),
             pub := Publisher(SendingStatus, 2, true, false, map[], map[]), log := CONFIG_SENT.log)

  /** A second connection-up, and a status delivered after it. */
  const STATUS_DELIVERED: State :=
    CONFIG_SENT.(se := CONFIG_SENT.se.(id := 2), link := DECIDED.link, status := Box(map[], true, [map[]], [], []),
                 mail := Mail(true, false, 3))

  lemma {:induction false} ReachStatusDelivered()
    ensures Reachable(STATUS_DELIVERED)
  {
    ReachConfigSent();
    var s0 := CONFIG_SENT.(se := CONFIG_SENT.se.(id := 2), link := DECIDED.link);
    ReachStep(CONFIG_SENT, RaiseLink, s0);
    ReachStep(s0, DeliverStatus(map[]), STATUS_DELIVERED);
  }

  lemma {:induction false} ReachStatusTaken()
    ensures Reachable(STATUS_TAKEN)
  {
    ReachStatusDelivered();
    var s1 := STATUS_DELIVERED;
    var s2 := s1.(mail := DECIDED.mail, pub := s1.pub.(pc := Taking));
    ReachStep(s1, Decide, s2);
    ReachStep(s2, Take, STATUS_TAKEN);
  }

  lemma {:induction false} ReachDecided()
    ensures Reachable(DECIDED)
  {
    ReachStatusTaken();
    var p := STATUS_TAKEN.pub;
    var s1 := STATUS_TAKEN.(status := DECIDED.status, pub := p.(pc := SendingConfig),
                            log := [Subscribed(1), Sent(Config, 1), Sent(Status, 2)]);
    ReachStep(STATUS_TAKEN, SendStatus, s1);
    var s2 := s1.(pub := p.(pc := Noting));
    ReachStep(s1, SendConfig, s2);
    var s3 := s2.(pub := p.(pc := Readying));
    ReachStep(s2, NoteBattery, s3);
    ReachStep(s3, Ready, DECIDED);
  }

  /** Otherwise the ready path is not safe: after two connection-ups in a row, "online" is decided in the second
      connection on the strength of the configuration sent in the first. */
  lemma {:induction false} SecondUpIsUnsafe()
    ensures exists s: State, i: nat ::
              Reachable(s) && i < |s.log| && s.log[i].Decided? && Sent(Config, s.log[i].c) !in s.log
  {
    ReachDecided();
    assert DECIDED.log[3].Decided? && Sent(Config, DECIDED.log[3].c) !in DECIDED.log;
  }
}
