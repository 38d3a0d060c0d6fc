# Verified model of the spf5000es MQTT bridge

A Go service bridges a Growatt SPF 5000 ES inverter, reached over Modbus RTU, to an MQTT broker. This project models its
four hard parts in Dafny 4.11 and proves what they keep: the register codec with its chunked reads, write pacing and
read-back; the retry, reset and retry-again recovery; the polling loop with its command pipeline; and the MQTT session
with its publish mailbox. `dafny verify dfyconfig.toml` checks everything.

## How the model is laid out

| file | models |
|---|---|
| `Basics.dfy`, `Utf8.dfy` | machine integers; well-formed UTF-8 and its repair (section 4 of RFC 3629) |
| `RegisterCodec.dfy` | registers as numbers and as text, with the 64-bit wrap-around of the shifts written out |
| `Registers.dfy` | register tables, read windows, chunked reads, table decoding |
| `Transforms.dfy` | the read and write transforms of the table rows |
| `Inverter.dfy` | `WriteConfig`, `SyncTime`, `ReadConfig`, the pending read-backs, the holding table's layout |
| `ModbusClient.dfy` | pacing of write requests; requests of sections 6.6 and 6.12 of the MODBUS Application Protocol V1.1b3 |
| `Recovery.dfy` | `executeWithRecoveryLocked` and the runs of its calls |
| `CommandPipeline.dfy` | coalescing, the pending-write filter and the drain, against one-by-one execution |
| `Scheduler.dfy` | the polling loop and its channels as a transition system: every atomic access is a step |
| `Polling.dfy`, `PollingRuns.dfy` | `PollingService` as an object, and its methods as paths of that system |
| `PollingCalls.dfy` | what one call of `runPending` does, in terms of the fields it finds |
| `MqttSession.dfy` | session, mailbox and publishing loop as a transition system: every critical section is a step |
| `MqttService.dfy`, `MqttRuns.dfy` | `MQTTService` as an object, one method per critical section, and its methods as paths of that system |
| `Naming.dfy` | `slug` and `friendlyName` |
| `Service.dfy` | the polling loop over the recovering inverter |
| `RecoveredPipeline.dfy` | the command pipeline over the recovering inverter, with every attempt followed on the device |

Where the program changes an object, the model has a class with the same fields. Its methods are proved equal to a
specification function, or to a step of a transition system, and the lemmas are about that function or about all runs of
that system. Outside answers (serial link, clock, context, broker, reset unit) are parameters that a lemma quantifies
over, so each statement holds for every behaviour of the outside. Durations and times are nanoseconds.

Assumptions that come from outside the modelled code: `RECONNECT_ATTEMPTS`, backoffs and cooldown are within the bounds of
config.go:230-235 and config.go:325, and no duration is so small that it is truncated to zero nanoseconds; no connection-up
callback comes while the connection is up (`MqttSession.SecondUpIsUnsafe` shows why; connection-down callbacks may come at
any time); the device is plain storage, changed only by the configuration and clock writes of this service; connect,
sleep and reset errors are never command rejections.

What turned out false of the code, with its exact condition:

- Coalescing does not always preserve the meaning of a batch: `CommandPipeline.DrainRefinesSequence` says exactly when it
  does, `CommandPipeline.RejectedLastCanDiffer` gives the failing family.
- Words read from an unsigned 64-bit register do not always encode back: `RegisterCodec.WordsRoundTrip`.
- Text whose trimmed bytes are not UTF-8 does not encode back: `RegisterCodec.TextWordsRoundTrip`.
- A pending write is not verified by the next configuration read when that read had to be repeated by recovery:
  `RecoveredPipeline.RecoveredReadVerifies`.
- The publishing loop does not always wait when there is nothing it can do: disconnected with a snapshot in its box it
  repeats its pass without a wait, `MqttRuns.SpinsExactlyWhenDisconnectedAndDirty`.
- The backoff is not a capped doubling once `delay*2` overflows an int64: `Recovery.BackoffIsCappedDoubling`.

A failed operation can be reported as recovered only with no reconnect attempt configured, which a validated configuration
rules out: `Recovery.TruthfulExactlyWhenAttempted`.

## Model

| member | source | states |
|---|---|---|
| RegisterCodec.NumberRoundTrip | inverter.go:299-322 | widths 1 to 4, signed and unsigned: every representable int64 is accepted and decodes to itself |
| RegisterCodec.WordsRoundTrip | inverter.go:186-200 | decoding always succeeds, and encoding again gives the words back exactly unless they are an unsigned 4-word value with the top bit set |
| RegisterCodec.NumbersAreBigEndian | inverter.go:182-200 | words are big-endian two's complement numbers, written out for each width; numbers are accepted exactly within the range of the width; more than 4 words are an error |
| RegisterCodec.FitsRegister | inverter.go:303-314 | the shift-and-compare range check, with its 64-bit wrap-around, accepts exactly the representable numbers |
| RegisterCodec.SignedMinimum | inverter.go:309 | the wrapping left shift yields the smallest signed value of each width, and zero beyond 64 bits |
| RegisterCodec.SignedMaximum | inverter.go:310 | the wrapping shift and subtraction yield the largest signed value of each width, also where the shift itself overflows |
| RegisterCodec.PeelWords | inverter.go:316-321 | the backward loop produces the big-endian base-65536 digits |
| RegisterCodec.Accumulate | inverter.go:190-193 | the shift-and-or loop computes the number whose digits the words are |
| RegisterCodec.ToNumber | inverter.go:194-200 | subtracting the wrapped power of two is two's complement, also for 64 bits where that power is zero |
| RegisterCodec.TextRoundTrip | inverter.go:280-297 | valid UTF-8 of at most 2·Length bytes is accepted and decodes to itself without trailing NULs |
| RegisterCodec.TextInWords | inverter.go:280-297 | a text is accepted exactly when it is no longer than 2 bytes a word, and word k holds bytes 2k and 2k+1, then NUL |
| RegisterCodec.TextWordsRoundTrip | inverter.go:206-233 | decoded text encodes to the same words exactly when the trimmed bytes are valid UTF-8, interior NULs included |
| RegisterCodec.DecodedTextIsValid | inverter.go:180-185 | decoded text is always valid UTF-8 |
| RegisterCodec.EncodeText | inverter.go:288-296 | the byte loop packs two bytes a word, high byte first, padded with NULs, and refuses longer text |
| RegisterCodec.DecodeRegisterString | inverter.go:206-233 | the two loops return the bytes of the words up to the last one that is not NUL |
| RegisterCodec.DecodeRegisterValue | inverter.go:173-204 | a row outside the buffer, or numeric and wider than four words, is an error; any other row decodes its slice |
| RegisterCodec.EncodeRawValue | inverter.go:279-323 | text registers take text and numeric registers numbers, with the errors of either encoder |
| RegisterCodec.RegistersToBytes | modbus_client.go:178-184 | the loop writes every word high byte first |
| RegisterCodec.BytesToRegisters | modbus_client.go:186-192 | the loop reads the words back, dropping an odd last byte |
| RegisterCodec.WireRoundTrip | modbus_client.go:178-192 | words to bytes and back, and bytes to words and back, are the identity, and each word travels high byte first |
| Utf8.SanitizeIsValid | inverter.go:182-184 | repaired text is valid |
| Utf8.SanitizeKeepsValid | inverter.go:182-184 | repair leaves valid text alone |
| Utf8.RunBecomesOne | inverter.go:180-184 | a maximal run of ill-formed bytes becomes one U+FFFD |
| Utf8.CharIsScalar | inverter.go:182 | every well-formed character is the encoding of a Unicode scalar value |
| Utf8.ScalarIsChar | inverter.go:182 | and every such encoding is a well-formed character |
| Registers.BuildRegisterWindow | registers.go:365-381 | the window covers every row and both its ends are reached by rows |
| Registers.BuildRegisterWindows | registers.go:383-398 | the windows tile the span without gap or overlap, none exceeds the maximum, and only the last may be shorter |
| Registers.ReadSucceeds | inverter.go:124-147 | a chunked read succeeds exactly when every window is answered with the count it asked for |
| Registers.FirstFailureDecides | inverter.go:135-144 | otherwise the error is that of the first window not answered in full |
| Registers.ReadRegisterWindows | inverter.go:124-147 | the loop returns the reassembled buffer, or the error of the first window that fails |
| Registers.ReadRegisterWindow | inverter.go:104-122 | the single-window read answers as the general one does, padded with zeros below its start |
| Registers.DecodeRegisterTable | inverter.go:149-163 | one value for every key, or an error naming the first row without one |
| Registers.CollectSucceeds | inverter.go:149-163 | decoding succeeds exactly when every row has a value; otherwise it names the first row that has none |
| Registers.CollectReports | inverter.go:149-163 | it reports exactly the table's keys, each with the value of its last row |
| Registers.ChunkedReadIsDirect | inverter.go:124-163 | for any table, the empty one too, and any tiling of its span the reassembled buffer equals the device over the whole span, no row is out of bounds, and decoding it is decoding the device |
| Registers.ReadTable | registers.go:365-398 | building windows, reading them and decoding, end to end, gives what decoding the device directly gives |
| Transforms.ReverseEnum | registers.go:251-259 | whatever order the map is walked in, every text is found again at a number that has it |
| Transforms.ReversalIsExact | registers.go:251-259 | the reversal finds every text at its own number exactly when the texts are distinct |
| Transforms.AcknowledgedRewrites | registers.go:62-141 | an accepted write is always acknowledged, and writing the acknowledged value again writes the same words, except exactly for text that is not valid UTF-8 |
| Transforms.WritesWhatIsAsked | registers.go:72-141 | a numeric row accepts exactly the values that ask for a number (1 or 0 for a truth, the nearest integer to a scaled value, an integer within 1/1000, a number with the text) and writes one that was asked for |
| Transforms.ReadsWhatIsHeld | registers.go:62-127 | the value read for a number: itself, whether it is not zero, or zero, the number divided by the factor, the text it has |
| Transforms.AcknowledgesWhatIsAsked | registers.go:62-141 | a value is accepted exactly if what it asks for fits the row, and the acknowledged value has the truth, text or integer requested, or a scaled value at most half a unit of the register away |
| Transforms.ConfigWriteAnswers | inverter.go:235-277 | so for a whole configuration write: rejected and nothing changed, or acknowledged with an answer that the words now in the row, and to be verified there, read as |
| Transforms.TransformsSettle | registers.go:272-349 | rows built from these transforms meet the assumption of the read-back theorem |
| Inverter.BuildRegisterMap | registers.go:357-363 | the map holds for each key the last row that has it |
| Inverter.RejectionIsStable | inverter.go:238-253 | a command is rejected exactly according to its key and value, whatever the device and the link do, and a rejection changes nothing; a write that fails on the link reports that and is not pending |
| Inverter.WriteReplacesRow | inverter.go:254-277 | a stored write leaves its words in its row, to be verified there, no other register changes, and the value they read as is acknowledged |
| Inverter.Inverter.WriteConfig | inverter.go:235-277 | the new image, the pending read-back and the acknowledged value or error, in every branch |
| Inverter.Inverter.SyncTime | inverter.go:52-76 | registers 45 to 50 are year, month, day, hour, minute and second at the start of a second, read after the sleep if there was one; no other register and no pending read-back changes |
| Inverter.Inverter.ReadConfig | inverter.go:88-102 | the decoded table and the verdicts; pending read-backs are forgotten on every path |
| Inverter.ReadSucceedsExactly | inverter.go:88-102 | a configuration read succeeds exactly when every window is answered and every row decodes, and only then reports, on every pending write |
| Inverter.ReconcilePendingReadback | inverter.go:325-351 | one verdict for every pending key, in whatever order the map is walked |
| Inverter.HoldingTableIsApart | registers.go:272-349 | no two rows of the holding table share a register and none touches the clock registers 45 to 50 |
| Inverter.ApartTableApartKeys | registers.go:357-363 | then no two keys do |
| Inverter.RunIsConsistent | inverter.go:235-277 | over any run of writes and clock writes, failed ones included, each pending key has its words on the device and they decode to the last acknowledged value, unless a failed write of it has reached the device since |
| Inverter.ClockShowsLast | inverter.go:52-76 | of any number of clock writes that land only the last shows, and no row's words change |
| Inverter.ReadbackIsExact | inverter.go:88-102 | after any such run the next successful read verifies every such key and reports exactly the last acknowledged value |
| Inverter.FlaggedIffDifferent | inverter.go:325-339 | on an arbitrary device a key is flagged exactly when some word of its range differs |
| ModbusClient.PduCarriesWords | modbus_client.go:136-147 | a request carries its words high byte first, as Write Single Register exactly for one word, otherwise as Write Multiple Registers |
| ModbusClient.WriteSendsOnce | modbus_client.go:117-156 | a call sends one request exactly if its context outlasts what is left of the 850 ms and its values can be made, as soon as both are done; otherwise it sends none and leaves the pacing mark alone |
| ModbusClient.WritesArePaced | modbus_client.go:125-148 | over any run any two write requests are 850 ms apart, the later begin after the earlier end, failed or not, across reconnects |
| ModbusClient.ModbusClient.WriteRegisters | modbus_client.go:117-156 | the method makes exactly the modelled step |
| Recovery.RecoveringInverter.ReconnectAndValidate | recovery.go:166-192 | the retry loop is the recursive round, event by event |
| Recovery.RecoveringInverter.ExecuteWithRecovery | recovery.go:120-154 | the method is the recovery function, event by event |
| Recovery.ExecuteOutcome | recovery.go:120-154 | nil exactly when the last operation call returned nil; a failure is fatal exactly when the first one was; the last notification in each case |
| Recovery.TruthfulExactlyWhenAttempted | recovery.go:120-192 | for every number of attempts: what a call returns agrees with its last operation call exactly when an attempt is configured or the first call did not fail fatally |
| Recovery.ExecuteBounds | recovery.go:120-154 | at most 1+2N operation calls, 2N connects and one reset; the sleeps are a prefix of the schedule made exactly after a fatal operation and another made exactly after a reset that was carried out |
| Recovery.RoundIsOrderly | recovery.go:166-192 | each event of a round has its reason: close, sleep, connect, operation; a failed connect or a fatal operation leads to the next attempt or is the error it gives up with, anything else ends it |
| Recovery.RoundBounds | recovery.go:166-192 | the sleeps of a round are the schedule's, one an attempt, and a round that gives up has made all its attempts |
| Recovery.TellsExactly | recovery.go:127-153 | "unavailable" is told right after a fatal operation, "available" exactly if the call succeeds after all, and nothing else |
| Recovery.AfterResetTells | recovery.go:142-153 | after a reset that was carried out another round decides the outcome; a reset that fails ends the call |
| Recovery.ExecuteSleepsLittle | recovery.go:166-192 | total sleep of a call is at most 2N·MaxBackoff |
| Recovery.BackoffIsCappedDoubling | recovery.go:189 | the delays are min(Initial·2^(k-1), Max) exactly when the last but one is below 2^62 ns, which any MaxBackoff below it ensures |
| Recovery.ResetExactlyWhenExhausted | recovery.go:130-142 | a reset is requested exactly after a fatal operation and a fatal round, with the context live and no earlier reset less than the cooldown ago |
| Recovery.ResetIsRemembered | recovery.go:138-145 | a call remembers the reset it carried out and carries none out within the cooldown of the last |
| Recovery.ResetsAreApart | recovery.go:138-145 | over any run of calls the resets carried out are at least ResetCooldown apart |
| Recovery.ResetRate | recovery.go:138-145 | at most 1+floor(T/ResetCooldown) resets in any window of length T |
| CommandPipeline.CoalesceKeepsLast | polling.go:273-301 | one command for each queued key and no other: the last one queued |
| CommandPipeline.CoalesceKeepsOrder | polling.go:292-299 | in the order in which the keys were first queued |
| CommandPipeline.BrokenStays | polling.go:258-267 | after a failing write the rest of the batch changes nothing |
| CommandPipeline.WroteMeansIssued | polling.go:252-271 | for every batch, the drain says it wrote exactly when a write was acknowledged |
| CommandPipeline.DrainIssuesExactly | polling.go:252-271 | it looks at the commands up to the first whose write the link fails; issues exactly those acknowledged, skipping those pending with the same value; and remembers exactly what it issued besides what was pending |
| CommandPipeline.DrainExecutesBatch | polling.go:252-271 | skipping pending writes is invisible, and a pending write is on the device |
| CommandPipeline.DrainRefinesSequence | polling.go:252-301 | a drain leaves what executing every queued command in order would, exactly when coalescing is harmless for every key |
| CommandPipeline.AcceptedLastIsHarmless | polling.go:273-301 | it is harmless wherever the last command of each key is accepted |
| CommandPipeline.RejectedLastCanDiffer | polling.go:258-266 | a rejected last command loses an accepted earlier one that would have changed the row |
| CommandPipeline.PipelineRefinesSequence | polling.go:252-301 | over any run of enqueues, drains, config polls and clock writes the device equals one executing every drained command, and pending writes are held |
| Scheduler.StepKeepsSound | polling.go:109-229 | every step of the loop and of its peers keeps the invariant |
| Scheduler.NoLostWakeUp | polling.go:155-179 | in every interleaving a waiting loop nobody attends to has no command, no sync request and no unobserved version |
| Scheduler.NoSpin | polling.go:156-179 | it sleeps for a positive time, up to the least deadline that counts |
| Scheduler.NoLostTimeSync | polling.go:201-219 | a request newer than the last SyncTime start has its token, or is carried to SyncTime, or the loop has stopped |
| Scheduler.EveryRequestIsCarried | polling.go:117-124 | and every request of a run, by a caller or by the watchdog, is followed by a start of SyncTime unless one of these holds |
| Scheduler.WorkHasItsReason | polling.go:137-150 | in every interleaving status is polled exactly if polling was found enabled and its deadline had passed or the version was not served yet; config likewise unless the iteration wrote; watchdog and time sync at their deadlines or on request |
| Scheduler.LocalsAreReadings | polling.go:137-144 | an iteration works with the clock, switch, version and queue it last looked at |
| Scheduler.PollsOnlyWhileEnabled | polling.go:138-150 | nothing is polled in an iteration that finds polling disabled |
| Scheduler.DeadlinesAreMarks | polling.go:181-229 | at every state of every run each deadline is the one set by the last poll, write, check or synchronisation of its kind |
| Scheduler.StatusPollsApart | polling.go:221-227 | status polls that no reconnect asks for are at least the status interval apart |
| Scheduler.RisesAreCounted | polling.go:109-115 | the reconnects counted are the changes of the switch from disabled to enabled |
| Scheduler.PollingFollowsConnection | mqtt.go:238-289 | with the MQTT mutex free polling is enabled exactly while connected, and the version counts the reconnects |
| Scheduler.ReconnectPollsFresh | polling.go:145-149 | an iteration that noticed a new version polled status, and polled config or wrote; then the config deadline stands two seconds after the write until an iteration writes or polls config again |
| Scheduler.EveryReconnectIsServed | polling.go:181-227 | when the enabled loop waits undisturbed, such iterations have answered every reconnect |
| Polling.EarliestDeadline | polling.go:231-239 | the loop finds the specified deadline, zero times ignored |
| Polling.EarliestIsLeast | polling.go:231-239 | which is one of those set and no later than any |
| Polling.EarliestIsNext | polling.go:156-168 | with the deadlines runPending passes, it is the one the waiting loop of the transition system sleeps towards |
| Polling.PollingService.constructor | polling.go:67-93 | a new and started service is in the initial state of the transition system |
| Polling.PollingService.SetPollingEnabled | polling.go:109-115 | the swap, one version more exactly on a rise, and a wake-up, from any state of the service |
| Polling.PollingService.RequestTimeSync | polling.go:117-124 | at most one token, and a wake-up |
| Polling.PollingService.QueueConfigWrite | polling.go:126-134 | appends and wakes, or refuses exactly when 32 commands are queued and changes nothing |
| Polling.PollingService.TakeLatestConfigCommands | polling.go:273-301 | the two loops over map and order empty the queue into the coalesced batch |
| Polling.PollingService.DrainCommands | polling.go:252-271 | pending writes, acknowledged writes and result are those of the specified drain |
| Polling.PollingService.RunPending | polling.go:136-229 | one call makes the transition system's phases in order; with nothing due it waits, visited by other goroutines, until the context ends, a token comes or the timer fires; with work it empties the queue and clears pending writes exactly when a config poll is reached |
| PollingCalls.CallWaits | polling.go:136-179 | a call waits exactly when there is no command, no due poll while enabled, no due check and no time to synchronise; for a positive time, up to the least deadline that counts |
| PollingCalls.CallWorks | polling.go:181-229 | otherwise what it does, which phases run, when each ends, all four deadlines, the pending writes, the request and wake-up it leaves, and whether and where it fails, follow from the fields it found |
| PollingCalls.WritePutsPollOff | polling.go:186-189 | a call that completes after an acknowledged write polls no config and leaves its deadline two seconds after the writes |
| PollingCalls.DisabledCallPollsNothing | polling.go:141-150 | a call that completes while polling is disabled polls nothing, whatever the deadlines |
| Polling.PollingService.Wait | polling.go:156-179 | the timer runs to the least deadline that counts, and the select takes the token, lets the timer fire or stops |
| Polling.PollingService.Run | polling.go:95-107 | the loop goes on after every call that returns nil and ends on the first error or a cancelled context, with visitors between the calls |
| PollingCalls.RoundCalls | polling.go:99-106 | a round is its visits and a call, or the end of the loop if the context is cancelled by then |
| PollingCalls.RunGoesOn | polling.go:95-107 | running some rounds and then more is running them all, unless one fails or is cancelled |
| PollingRuns.SetReaches | polling.go:109-115 | SetPollingEnabled is a path of atomic steps |
| PollingRuns.RequestReaches | polling.go:117-124 | RequestTimeSync is a path of atomic steps |
| PollingRuns.EnqueueReaches | polling.go:126-134 | QueueConfigWrite is a path of atomic steps |
| PollingRuns.CallReaches | polling.go:136-229 | runPending, through its wait too, is a path of atomic steps and leaves the service ready for the next call |
| PollingRuns.CallIsARun | polling.go:136-229 | so it keeps the invariant, sets its timer only to a positive time and answers a noticed reconnect |
| PollingRuns.RoundsReach | polling.go:95-107 | any number of calls, with any visitors between and during them, is a path of atomic steps |
| PollingRuns.Serve | polling.go:67-107 | a service built, started and run for any rounds is in a sound state reached from the initial one |
| MqttSession.StepKeepsConnection | mqtt.go:126-136 | every step keeps the session invariant: connected means live, subscribed and polling, and initial flags stand for sends under this connection |
| MqttSession.StepKeepsBoxes | mqtt.go:342-379 | every step keeps mailbox conservation |
| MqttSession.NoLostWakeUp | mqtt.go:189-200 | in every interleaving a waiting publisher with no token and no signaller has nothing dirty and no pending update |
| MqttSession.QuietMeansSent | mqtt.go:427-464 | and has sent the newest snapshot of each kind |
| MqttSession.MailboxConserves | mqtt.go:427-464 | snapshots are taken once each, in delivery order; dirty exactly while the newest is untaken, and then it is the pending one |
| MqttSession.DeliveredIsPosted | mqtt.go:342-379 | what the boxes count as delivered is everything posted, in order, and every snapshot sent is logged |
| MqttSession.ReadyAfterInitialState | mqtt.go:466-497 | a decision for "online" or discovery in connection c comes after a status and a config sent, and a subscription, under c |
| MqttSession.OnlineIsWhatWasSaid | mqtt.go:381-394 | in every interleaving a connected session is taken as online exactly when the last availability published in it was "online" |
| MqttSession.ConnectedMeansSubscribed | mqtt.go:223-289 | a connected session has a live link, its own client and a subscription of its own; polling equals connected |
| MqttSession.StaleSetUpsEnd | mqtt.go:223-250 | a set-up whose connection number is out of date ends at its next check and changes nothing; a current one goes on |
| MqttSession.DiscoveryCatchesUp | mqtt.go:665-673 | when the publisher waits with the initial state out, every change of the battery type in the configurations sent is covered by a discovery decision |
| MqttSession.SecondUpIsUnsafe | mqtt.go:126-136 | a run with two connection-ups in a row decides "online" without a config sent in that connection |
| MqttService.MQTTService.constructor | mqtt.go:73-82 | a new service is in the initial state |
| MqttService.MQTTService.StatusUpdated | mqtt.go:342-354 | two steps: the snapshot is pending and dirty, then signalled |
| MqttService.MQTTService.ConfigUpdated | mqtt.go:367-379 | two steps: the snapshot is pending and dirty, then signalled |
| MqttService.MQTTService.InverterAvailabilityChanged | mqtt.go:381-394 | one step; published only while connected, and the session is remembered as online exactly if "online" was published |
| MqttService.MQTTService.OnConnectionUp | mqtt.go:126-132 | one step: a new number, and a set-up under way with it |
| MqttService.MQTTService.OnConnectionLost | mqtt.go:279-289 | one step: the session ends, its flags are cleared and set-ups under way become stale |
| MqttService.MQTTService.OnConnect | mqtt.go:223-277 | the set-up with its subscription loop and currency checks, for any answers and losses; if it joins, the session is connected with this connection's client |
| MqttService.MQTTService.TakeUpdates | mqtt.go:427-448 | one step: the mailbox is emptied, or kept and re-armed while disconnected |
| MqttService.MQTTService.PublishReadyAfterInitialState | mqtt.go:466-497 | one step: flags, discovery and online decision, in every branch |
| MqttService.MQTTService.RunPending | mqtt.go:499-524 | the critical sections of a pass in order, with any steps of other goroutines between them |
| MqttService.MQTTService.Run | mqtt.go:189-200 | the loop publishes while there is something to and otherwise takes a token, stops or blocks |
| MqttRuns.HandlersReach | mqtt.go:342-394 | the producers' handlers and the connection callbacks are paths of atomic steps |
| MqttRuns.SetUpReaches | mqtt.go:223-277 | so is onConnect, however its attempts go and whenever the connection is lost |
| MqttRuns.SetUpConnects | mqtt.go:223-277 | it connects the session, with nothing published yet, polling on and an update requested, exactly when the connection is current and a subscription succeeds before it is lost |
| MqttRuns.PassReaches | mqtt.go:427-524 | so is a pass, whatever other goroutines do in its gaps |
| MqttRuns.PassKeepsSound | mqtt.go:427-524 | so a pass is reached by steps and keeps the whole invariant |
| MqttRuns.UndisturbedPass | mqtt.go:427-524 | an undisturbed pass sends exactly what was pending, status before config; flags, battery type, discovery and "online" then follow from what was sent, field by field |
| MqttRuns.ReadyDecides | mqtt.go:466-497 | a stale pass, or one before both kinds are out, decides nothing; any other decides discovery and "online" |
| MqttRuns.WaitsWithNothingToDo | mqtt.go:499-524 | whatever happens in its gaps, a pass waits exactly when no update was requested and nothing is dirty |
| MqttRuns.SpinsExactlyWhenDisconnectedAndDirty | mqtt.go:427-444 | left undisturbed the loop waits after at most one pass, exactly unless it is disconnected with a snapshot in its box; then the same pass repeats |
| MqttRuns.RoundEnds | mqtt.go:189-200 | a round with something to publish is its pass; any other ends in the select |
| MqttRuns.WaitEnds | mqtt.go:194-198 | which stops, takes the token or blocks |
| MqttRuns.RunGoesOn | mqtt.go:189-200 | running some rounds and then more is running them all, unless it stops or blocks |
| MqttRuns.RoundsReach | mqtt.go:189-200 | any number of rounds of Run is a path of atomic steps |
| MqttRuns.Serve | mqtt.go:73-200 | a service built and run for any rounds is in a sound state reached from the initial one; blocked and quiet, it has sent the newest snapshots |
| Naming.Slug | mqtt.go:743-761 | the loop is the specified slug |
| Naming.FriendlyName | mqtt.go:763-788 | the loop over words is the specified display name |
| Naming.SlugIsNormal | mqtt.go:743-761 | every slug is lower-case alphanumeric words joined by single underscores |
| Naming.SlugFixesNormal | mqtt.go:743-761 | a string is its own slug exactly when it has that form |
| Naming.SlugIsIdempotent | mqtt.go:743-761 | slugging a slug changes nothing |
| Naming.SlugIsItsRuns | mqtt.go:743-761 | a slug is the maximal runs of letters and digits of the spread, lower-cased value, joined by underscores |
| Naming.SlugOfKey | mqtt.go:743-788 | on alphanumeric keys the slug is the lower-cased display name with underscores for spaces |
| Naming.SpaceBeforeEachWord | mqtt.go:763-788 | the display name of a key is the key with a space before each capital that follows a small letter or digit, or is the last of several before a small letter |
| Naming.KeyFromFriendlyName | mqtt.go:763-788 | deleting the spaces of a key's display name gives the key back |
| Service.RejectionSurvivesRecovery | recovery.go:102-154 | a write with recovery ends in a rejection exactly when the command is a rejected one; a retried write never turns into one |
| Service.RecoveredWriterIsFaithful | polling.go:258-266 | the writer a drain over the recovering inverter has rejects the commands of the batch the table rejects and no other, as the pipeline theorems ask |
| RecoveredPipeline.RecoveredWriteStores | recovery.go:102-112 | a recovered write leaves the command executed once, however many attempts failed or landed |
| RecoveredPipeline.EveryCallMeetsLinks | recovery.go:102-112 | whatever a call's script answers, its attempts can be followed on the device |
| RecoveredPipeline.EveryDrainHasRoute | polling.go:252-271 | so any batch, whatever its calls' scripts answer, has a route that follows the whole drain on the device |
| RecoveredPipeline.CallOnDevice | polling.go:258-267 | a call acknowledged or refused leaves the command executed once; one that breaks off has executed it or not |
| RecoveredPipeline.DeviceHoldsIssued | polling.go:252-271 | after a drain with all its attempts the device holds the acknowledged writes, and after one that broke off at most one write more |
| RecoveredPipeline.RecoveredDrainRefinesSequence | polling.go:252-301 | a drain over the recovering inverter leaves the device as executing every queued command in order would, exactly when coalescing is harmless |
| RecoveredPipeline.RecoveredPipelineRefinesSequence | polling.go:252-301 | over any run of enqueues, recovered drains, config polls, time syncs and reads the device equals one that executed every drained command once and set its clock once per sync that reached it, and pending writes are held |
| RecoveredPipeline.RecoveredReadVerifies | inverter.go:88-102 | every attempt forgets the pending read-backs: a read that recovery reports as done has a verdict for each of them exactly when its first attempt succeeded, and otherwise an empty report |
| RecoveredPipeline.FirstAttemptDecides | recovery.go:120-154 | a call that succeeds ends in a successful attempt, and made only that one exactly when the first one succeeded |
| Service.CallsMakeTheDrain | polling.go:252-271 | the calls one iteration makes over the recovering inverter are the drain that runPending is specified with |
| Service.CallsGoToPlan | polling.go:181-229 | the reads and the clock write are made over recovery exactly when runPending makes them, in its order, up to the first that fails |
| Service.PassFails | polling.go:181-229 | runPending returns an error exactly when a write, the config poll, the clock write or the status poll it makes ends it |
| Service.PassKeepsStanding | polling.go:136-229 | an iteration that goes on leaves the availability standing; one that fails has said "unavailable" exactly if the call that ended it failed fatally |
| Service.StandingAvailability | recovery.go:120-160 | whenever the polling loop goes on to another iteration, the last availability notification, if any, is "available" |
| Service.StandingAtStart | main.go:43-58 | so it is after the first connect, with which the loop starts |

## Left out

- Serial transport, MQTT library, TLS, systemd, INI parsing, logging and the JSON discovery payload: foreign calls or I/O; connecting, closing, publishing, subscribing and resetting are parameters, steps or log events.
- Publishing value by value: sending a snapshot is one step, a message that the broker refuses counts as sent, and which client carries a message of a stale pass is not modelled.
- The subscription backoff (mqtt.go:257-275): a failed attempt goes back to the check, without its delay; a sleep there cannot fail, its context being the background one.
- Floating point: floats are reals, NaN and infinities are parse errors, conversion of a float outside int64 is any int64; parsing of numbers and of words for true and false is a parameter.
- RegisterCodec.EncodeRawValue: a text value for a numeric row is an error here, while asInt64 would try to parse it, because no write transform of a numeric row yields text.
- Transforms.AcknowledgedRewrites: scaled values are exact reals, so the rounding of a float64 division is not covered.
- Transforms.AcknowledgesWhatIsAsked: likewise over exact reals, and says nothing of a value that asks for a number outside int64, whose conversion the language leaves open.
- Input register transforms, system status names, number limits, units and entity metadata: finite case lists.
- `handleCommand` and `parseMQTTCommandValue`: topic routing and JSON; commands enter the model as key and value.
- The clock watchdog: its verdict is an arbitrary boolean.
- The uint64 counters `connectionID` and `pollingVersion` are unbounded.
- Device side effects of a write, such as factory reset or self-clearing registers: the device stores what it is sent.
- Liveness: that `Run` returns on cancellation, or that config polls happen within a fixed time under a stream of writes, is not something the code gives.
- "Online" never being published while the inverter is down: `InverterAvailabilityChanged` publishes on its own, so the code does not give it.
- Inverter.ReadbackIsExact: assumes that a stored write is acknowledged or rejected; `Transforms.TransformsSettle` shows that the table's transforms ensure it.
- Polling.PollingService.RunPending: other goroutines visit during the wait and between calls; between the phases of a call that has work they are covered by the transition system in `Scheduler.dfy` only. A service that is run before it is started is not modelled.
- Polling.PollingService.Run: is followed for any finite number of rounds, as is MqttService.MQTTService.Run.
- MqttService.MQTTService.OnConnect: other goroutines can only lose the connection during it; all other interleavings are covered by the transition system in `MqttSession.dfy`.
- Service.StandingAvailability: other goroutines act between iterations and during waits (each iteration starts from an arbitrary state of the service), not between the calls of one; there they reach nothing that a call depends on.
