# LIMA: a verified model of node, gateway and client

LIMA is a battery-powered sensor node that signs, encrypts and advertises a record of every breach it
detects, a gateway that hears the advertisements, checks them and stores them, and a client with which
an operator reads them. This project models the four parts in which the difficult behaviour lies and
proves what each of them promises, up to one statement that spans them all: whatever event the node
has latched for a frame that it put on air, the operator is shown which of the four breaches it was, when
it happened, its number and the value of the sensor that set it off.

`dafny verify dfyconfig.toml` checks the whole project (Dafny 4.11).

## How it is built

Each part that works by changing state appears twice. A class has the fields, the nested calls and the
loops of the source, and each of its methods is proved to compute a step of a specification on plain
values. What the source promises is then proved about all runs of that specification. The specification
itself is held against tables that name states, events, times, offsets and codes as themselves: `NodeTable`
for the node, and the lemmas named after layouts, keys, boots and findings for the other parts.

| files | what they are |
|---|---|
| `Base`, `Wire`, `Events` | bytes, words and hex text; the 24-byte record (LER) and the 184-byte frame (LF); events |
| `NodeCrypto` | the frame from record to signature, filled in place; what a frame carries |
| `NodeModel` | the node on values: state, queue of 16, six timers, alarm, virtual clock, log of pipelines |
| `NodeInvariants`, `NodePipeline`, `NodeWake` | what every step of the node keeps: control, data, ways out of each state |
| `NodeTable` | the same node as a table: for every state and event the state that follows, timers, posts and pipelines |
| `NodeTheorems`, `NodeDwell` | the promises of the firmware over all runs, and two that it does not keep |
| `NodeFsm` | the firmware's state machine as a class, with nested transitions and synchronous callbacks |
| `AdStructures`, `HciReport` | advertising data and report events: decoders, serialisers, the gateway's parsers |
| `EventsTable`, `Debounce`, `Gateway` | the shared table, the notification debounce, the scan loop with its channel |
| `ClientCrypto`, `ClientModel`, `ClientTheorems`, `Client` | decryption; list, cursor and table on values and as objects |
| `EndToEnd` | from the latched event to the operator's list |
| `Calendar`, `Rtc`, `RtcHistory` | calendar dates; boot-time choice of the clock and stored epoch; the skew check over any sequence of boots |

**A run of the node** is any sequence of: dispatching the head of the queue (other threads may post
between the removal of the head and the handler's own posts), firing a due timer (delayed work runs in
the order of its deadlines), the alarm of the clock chip, a post from outside, and the passing of time.
The hardware answers each call freely. From outside come breach, tamper, battery and tick events only,
at any time; the firmware's posts to a full queue are lost, and `drops` counts them. Statements that
need a complete queue say `drops == 0`. Cooldown and deep-sleep interval are parameters; the time on air
is the default of 500 ms, which `firmware/prj.conf` does not change.

**The primitives** are functions of which only this is assumed (`Crypto.Correct`, and
`CorrectCryptoExists` shows that it can be had): verification accepts what signing produced, sealing
adds 16 bytes, and unsealing with the same key, nonce and additional data undoes sealing (sections 7.1
and 7.2 of NIST SP 800-38D). Floats are four raw bytes.

**The clocks**: uptime and the clock chip run at the same rate, and the periodic flush runs when it is
due. A life of the node, from one boot to the next, says what the chip answers, which writes to chip and
storage work, how long the boot takes, what the session does and how long the power is off; the chip may
also be found stopped, with anything in its register. An honest life is one in which the chip kept
running, the writes to storage work and the boot takes at most 999 ms to anchor its clock.

## Results of the model that correct an expectation

- The dwell in ARMED has no minimum, unlike the cooldown: leaving ARMED cancels the dwell timer but not
  an expiry that is already queued. `DwellLastsUnlessExpiryIsQueued` says exactly when a stay can be cut
  short and `SomeDwellIsCutShort` that it happens.
- LOW_BATTERY has no way out of its own (`NeverStuck` is an equivalence), and `LowBatteryCanStall` shows
  a run that ends with nothing queued and nothing pending. The source shows no producer of battery events.
- A tamper event posted for a clock skew at boot is used up in BOOT (`SkewTamperHasNoEffect`).
- The retry counter of FAULT never exceeds 1, so the branch for exceeded retries is never taken
  (`FaultCounter`).
- The periodic flush stores the uptime as an epoch when no time source was found. Once a session of
  such a node has reached its first flush, after 60 s, the next boot that reads the clock chip reports a
  skew unless the chip is within 300 s of that uptime; before the first flush nothing is stored and
  nothing is reported (`UncheckedClockSkewIff`, `UnsetClockCausesFalseSkew`). This needs a build without
  a provisioning time, which is the default of `firmware/Kconfig`; `firmware/prj.conf:26` sets one, and
  the same statement covers it.
- An honest restart is clean for up to 239 001 ms without power, and that bound is exact
  (`LongerOffCanReport`), as long as the boot before it could read the clock chip or set it. A boot that
  falls back on the stored epoch and can do neither adds its lost time to that of the boots before it,
  and two such lives can report a skew that nobody caused (`FallbackAddsUp`, `FallbackChainCanReport`).
  `SkewOverHistoriesIff` gives the exact condition for every history.
- `firmware/src/crypto.c:205-207` copies the device address least significant byte first; the comments in
  `firmware/src/crypto.h` and `gateway/crates/lima-types/src/lib.rs` call the field big-endian.
- `gateway/crates/gateway/src/main.rs:704-708` reads address and signal strength where section 7.7.65.13
  of Bluetooth Core 5.4, Volume 4 Part E puts them; the comment at lines 671-684 and the packet builder
  of the tests at lines 1101-1114 have another order.
- `firmware/src/rtc.h` says that the fallback code means the provisioning constant; the code returns it
  for the stored epoch as well.

## Model

| member | source | states |
|---|---|---|
| Base.HexRoundTrip | client/src/db.rs:90-103 | hex text of any bytes decodes to those bytes |
| Base.HexDecodesPairs | client/src/db.rs:90-103 | text decodes to exactly the bytes whose digits it pairs, and other text not at all |
| Base.DigitsAre | client/src/db.rs:90-103 | the digits written, and the digits of either case read |
| Base.CopyInto | firmware/src/crypto.c:356-358 | a copy replaces exactly the bytes it covers and leaves the rest of the buffer |
| Wire.LerRoundTrip | gateway/crates/lima-types/src/lib.rs:79-104 | serialising and parsing a record are inverse in both directions |
| Wire.LfRoundTrip | gateway/crates/lima-types/src/lib.rs:135-180 | the same for the frame, and its first 120 bytes are those the signature covers |
| Wire.LerLayout | gateway/crates/lima-types/src/lib.rs:79-104 | every field of the record at its offset, numbers least significant byte first |
| Wire.LfLayout | gateway/crates/lima-types/src/lib.rs:135-180 | every field of the frame at its offset; header and signed part are its first 4 and 120 bytes |
| Wire.LerToArray | gateway/crates/lima-types/src/lib.rs:79-89 | the buffer filled field by field is the serialised record |
| Wire.LfToArray | gateway/crates/lima-types/src/lib.rs:158-172 | the buffer filled field by field is the serialised frame |
| Wire.SignedToArray | gateway/crates/lima-types/src/lib.rs:175-180 | the bytes copied out for verification are those the signature covers |
| NodeCrypto.BuildLfInPlace | firmware/src/crypto.c:272-398 | return code and buffer of the in-place build, error paths included, are those of the specification that `BuiltFrameIsExact` and `BuildSucceedsIff` are about |
| NodeCrypto.RecordOfEvent | firmware/src/crypto.c:197-221 | the record says address, number, time and code of the event, and puts the sensor value that set it off in the field of that sensor and zeros elsewhere |
| NodeCrypto.BuiltFrameIsExact | firmware/src/crypto.c:296-383 | a built frame range by range: version 2, event type, zeros, nonce, the sealed record followed by its own signature, and the signature of the 120 bytes before it |
| NodeCrypto.BuiltFrameCarries | firmware/src/crypto.c:296-383 | a built frame verifies, announces its event type in clear and decrypts to the record and a signature that verifies over the record |
| NodeCrypto.BuildSucceedsIff | firmware/src/crypto.c:277-398 | the build succeeds exactly when length, keys, random source, cipher and signer all do; a wrong length and a missing key have their own codes and leave the buffer alone |
| NodeInvariants.StepKeepsCore | firmware/src/fsm.c:96-628 | every step keeps the control invariant: tokens, cooldown, outcome of a transmission, timers, retry counter |
| NodePipeline.ReachableKeepsNode | firmware/src/fsm.c:348-451 | control and data invariants hold of every reachable node |
| NodePipeline.SignKeepsPipe | firmware/src/fsm.c:348-400 | after signing, the frame buffer holds the frame of the latched event exactly if the good result is what gets posted |
| NodePipeline.LoadKeepsPipe | firmware/src/ble.c:100-154 | what is loaded into the radio for a good signing result is the frame of that pipeline |
| NodeWake.ReachableIsAwake | firmware/src/fsm.c:209-330 | in ARMED, LIGHT_SLEEP and DEEP_SLEEP the timer or alarm that ends the state is pending or its event queued |
| NodeWake.PendingTimersAreNear | firmware/src/fsm.c:209-216 | every pending timer of a reachable node is due within the time it is named for |
| NodeTheorems.TallyCounts | firmware/src/main.c:100-105 | the counts that the invariants keep are numbers of events in the queue |
| NodeTheorems.TallyOrders | firmware/src/main.c:100-105 | the order flags that the invariants keep are statements about places in the queue |
| NodeTheorems.SingleControlToken | firmware/src/fsm.c:185-205 | the token of BOOT, CALIBRATING, SIGNING and FAULT is queued exactly once in its own state and never elsewhere |
| NodeTheorems.TimersBelongToStates | firmware/src/fsm.c:96-135 | EVENT_DETECTED is never the state between dispatches; cooldown, timeout, dwell and stop timers are pending only in their states |
| NodeTheorems.FaultCounter | firmware/src/fsm.c:517-547 | the retry counter is 1 exactly in FAULT and no ERROR is ever posted |
| NodeTheorems.OneOutcomePerTransmission | firmware/src/ble.c:48-67 | queued outcomes plus a pending stop timer are 1 in TRANSMITTING and 0 elsewhere, with no timeout ahead of an outcome |
| NodeTheorems.TimeoutNeverDecides | firmware/src/fsm.c:453-476 | unless a post was refused, TRANSMITTING never ends by its timeout |
| NodeTheorems.StateChangesOnlyByMove | firmware/src/fsm.c:616-653 | the state changes only by a dispatched event, to the state its handler names, at the time of the dispatch |
| NodeTheorems.CooldownLastsInFull | firmware/src/fsm.c:480-513 | a stay in COOLDOWN ends by tamper or battery, or no earlier than its length after entry by the one expiry of its own timer |
| NodeTheorems.NeverStuck | firmware/src/fsm.c:209-216 | at every reachable node without a lost post the state has a way out of its own exactly when it is not LOW_BATTERY |
| NodeTheorems.EveryFrameCarriesItsEvent | firmware/src/fsm.c:389-451 | every frame put on air carries a signed record that says, field by field, what the event latched for its pipeline was, under that pipeline's number |
| NodeTheorems.OnlyBreachesAreRecorded | firmware/src/fsm.c:224-234 | the event of every pipeline of a reachable node is one of the four breaches |
| NodeTheorems.RadioHoldsTheLatchedEvent | firmware/src/fsm.c:389-451 | latched event and record are always those of the latest pipeline, and while TRANSMITTING the radio's buffer carries that record, whose fields are those of the event |
| NodeTheorems.EveryNumberIsAccountedFor | firmware/src/crypto.c:197-211 | numbers run from 1 without gap over the pipelines; only the last can be undecided, and only in SIGNING |
| NodeTheorems.AdvertisedNumbersIncrease | firmware/src/crypto.c:209-209 | within a boot later pipelines have greater numbers and went on air no earlier |
| NodeTheorems.PipelinesAreFaithful | firmware/src/fsm.c:224-234 | a pipeline begins exactly when a breach is acted on, with that event; decided fates stand; nothing else touches the data |
| NodeTheorems.SkewTamperHasNoEffect | firmware/src/fsm.c:641-647 | BOOT uses up every event but INIT_COMPLETE, so the tamper event of a skew, without any effect, whatever else arrives |
| NodeTable.FromBoot | firmware/src/fsm.c:616-623 | BOOT leaves for CALIBRATING on INIT_COMPLETE and else stays |
| NodeTable.FromCalibrating | firmware/src/fsm.c:624-627 | CALIBRATING leaves for ARMED on BASELINE_READY and else stays |
| NodeTable.FromArmed | firmware/src/fsm.c:224-262 | the state after every kind of event in ARMED; a breach ends in SIGNING, or in FAULT if signing cannot start |
| NodeTable.FromLightSleep | firmware/src/fsm.c:272-300 | likewise for LIGHT_SLEEP |
| NodeTable.FromDeepSleep | firmware/src/fsm.c:310-330 | likewise for DEEP_SLEEP |
| NodeTable.FromEventDetected | firmware/src/fsm.c:641-647 | EVENT_DETECTED acts on nothing |
| NodeTable.FromSigning | firmware/src/fsm.c:402-451 | likewise for SIGNING; a good result ends in TRANSMITTING only if the radio takes the frame and starts |
| NodeTable.FromTransmitting | firmware/src/fsm.c:453-476 | likewise for TRANSMITTING |
| NodeTable.FromCooldown | firmware/src/fsm.c:487-513 | likewise for COOLDOWN, where of the breaches only the tamper event counts |
| NodeTable.FromFault | firmware/src/fsm.c:540-558 | likewise for FAULT |
| NodeTable.FromLowBattery | firmware/src/fsm.c:567-591 | likewise for LOW_BATTERY |
| NodeTable.BreachesBeginPipelines | firmware/src/fsm.c:389-400 | a breach that is acted on adds one pipeline with that event, the next number and the outcome of its signing, which is good exactly if every device answers |
| NodeTable.SignedFramesAreLoaded | firmware/src/fsm.c:439-451 | the good signing result puts the signed frame on the radio, and its pipeline comes to what the radio answers |
| NodeTable.OtherEventsCarryNothing | firmware/src/fsm.c:616-653 | no other pair of state and event touches the data |
| NodeTable.ArrivalsJoinTheQueue | firmware/src/main.c:100-105 | of the posts during a dispatch those of the eight outside kinds join the queue in order as far as 16 places allow, and the rest is counted |
| NodeTable.EntriesPost | firmware/src/fsm.c:185-205 | what each dispatch posts: BASELINE_READY, the signing result, RECOVERY_SUCCESS or ERROR by the state entered, and else nothing |
| NodeTable.DispatchSetsTimers | firmware/src/fsm.c:96-216 | all six timers after every dispatch: 10 s, 24 h, 5 s, 500 ms and the two configured lengths, started and cancelled by the states entered and left |
| NodeTable.DispatchSetsRest | firmware/src/fsm.c:453-547 | alarm, stored callback, retry count and times after every dispatch |
| NodeTable.TimersPost | firmware/src/fsm.c:139-181 | a timer that is the next to run out posts its event once; any other attempt changes nothing |
| NodeTable.LongTimersPost | firmware/src/fsm.c:172-181 | likewise for inactivity and the timer that stands in for the alarm |
| NodeTable.StopPosts | firmware/src/ble.c:48-67 | a stop of the advertisement that works posts TX_COMPLETE, one that fails BLE_FAULT, and without a callback nothing is posted |
| NodeTable.OthersPost | firmware/src/main.c:100-105 | alarm, outside posts and passing time |
| NodeTable.OnlyDispatchCarries | firmware/src/main.c:565-570 | no step but a dispatch touches the data |
| NodeTable.BootQueues | firmware/src/fsm.c:185-205 | the node after boot, with INIT_COMPLETE queued behind the tamper event of a skew, if any |
| NodeTable.BreachGoesOnAir | firmware/src/fsm.c:348-451 | when everything works, two dispatches take a breach from the queue to an advertisement of its frame that is to end after 500 ms |
| NodeTable.StopDecides | firmware/src/fsm.c:423-476 | from there a stop that works leads to COOLDOWN and one that fails to FAULT |
| NodeDwell.DwellLastsUnlessExpiryIsQueued | firmware/src/fsm.c:218-222 | a stay in ARMED can end before its dwell exactly when the first queued event it acts on is an old expiry |
| NodeDwell.SomeDwellIsCutShort | firmware/src/fsm.c:218-252 | a run in which that happens, through two battery events |
| NodeDwell.LowBatteryCanStall | firmware/src/fsm.c:562-591 | a run into LOW_BATTERY with nothing queued and nothing pending |
| NodeFsm.Fsm.constructor | firmware/src/fsm.c:595-609 | the object starts as the model's initial node, with or without the skew event |
| NodeFsm.Fsm.PostEvent | firmware/src/main.c:100-105 | a post appends to the queue or, at 16 events, is lost and counted |
| NodeFsm.Fsm.ExitState | firmware/src/fsm.c:102-117 | leaving a state cancels its own timer and no other |
| NodeFsm.Fsm.Transition | firmware/src/fsm.c:96-135 | with its nested transitions, which terminate by a rank of the states, it computes the model's entry of the target |
| NodeFsm.Fsm.BuildRecord | firmware/src/crypto.c:197-234 | the counter advances and the record is that of the latched event, of which `RecordOfEvent` says what it holds |
| NodeFsm.Fsm.SigningDone | firmware/src/fsm.c:348-387 | the callback leaves the built frame or a marked failure, and posts the matching result |
| NodeFsm.Fsm.EnterSigning | firmware/src/fsm.c:389-400 | entry with a synchronous callback or, where signing cannot start, a nested transition to FAULT |
| NodeFsm.Fsm.Advertise | firmware/src/ble.c:100-154 | on success the callback is stored and the stop timer runs; on failure neither; the radio's buffer is the frame |
| NodeFsm.Fsm.EnterTransmitting | firmware/src/fsm.c:440-451 | entry with its nested transition to FAULT, which cancels the timeout again |
| NodeFsm.Fsm.EnterFault | firmware/src/fsm.c:517-538 | the retry counter advances and recovery is posted, or an error from the third retry on |
| NodeFsm.Fsm.EnterDeepSleep | firmware/src/rtc.c:455-491 | either the alarm or the fallback timer is set |
| NodeFsm.Fsm.ArmedHandle | firmware/src/fsm.c:224-262 | the handler makes the model's move for every event |
| NodeFsm.Fsm.LightSleepHandle | firmware/src/fsm.c:272-300 | likewise |
| NodeFsm.Fsm.DeepSleepHandle | firmware/src/fsm.c:310-330 | likewise |
| NodeFsm.Fsm.SigningHandle | firmware/src/fsm.c:402-419 | likewise |
| NodeFsm.Fsm.TransmittingHandle | firmware/src/fsm.c:453-476 | likewise, cancelling the timeout twice on completion |
| NodeFsm.Fsm.CooldownHandle | firmware/src/fsm.c:487-513 | likewise, with the overrides by tamper and battery |
| NodeFsm.Fsm.FaultHandle | firmware/src/fsm.c:540-558 | likewise |
| NodeFsm.Fsm.LowBatteryHandle | firmware/src/fsm.c:567-591 | likewise |
| NodeFsm.Fsm.FsmDispatch | firmware/src/fsm.c:616-653 | one dispatched event takes the object to the model's next node |
| NodeFsm.Fsm.Dispatch | firmware/src/main.c:565-570 | one turn of the thread's loop is a step of the model |
| NodeFsm.Fsm.StopAdvertising | firmware/src/ble.c:48-67 | the one stored callback is used once, with success or failure, and cleared |
| NodeFsm.Fsm.FireTimer | firmware/src/fsm.c:139-181 | one expired timer posts its event, stamped with the uptime |
| NodeFsm.Operate | firmware/src/main.c:558-571 | over any sequence of operations the object is the node of the model's run and keeps its invariants |
| AdStructures.DecodeInvertsSerialize | gateway/crates/gateway/src/main.rs:631-654 | decoding yields a list and a rest exactly for the data that serialises the list before a rest that ends it |
| AdStructures.Layout | gateway/crates/gateway/src/main.rs:631-654 | length, type and content of a structure, and where reading ends: no data, a zero length or a structure cut off |
| AdStructures.FirstManufacturerIsFirst | gateway/crates/gateway/src/main.rs:624-654 | the structure chosen is the first of type 0xFF with at least two bytes of content, and none is chosen only if there is none |
| AdStructures.ParseAdManufacturer | gateway/crates/gateway/src/main.rs:631-654 | on any bytes the loop stays in range, ends and agrees with the recursive decoder |
| HciReport.DecodeInvertsSerialize | gateway/crates/gateway/src/main.rs:697-720 | reports laid out as in section 7.7.65.13 of Bluetooth Core 5.4, Volume 4 Part E come back whatever follows them |
| HciReport.SerializeInvertsDecode | gateway/crates/gateway/src/main.rs:697-720 | on any bytes the decoded reports are what stands there, and decoding stops early only at a report that is cut off |
| HciReport.ReportLayout | gateway/crates/gateway/src/main.rs:697-720 | every field of a report at its offset in the 24-byte header |
| HciReport.MacSpells | gateway/crates/gateway/src/main.rs:707-712 | the name spells the address in upper-case digits, last byte first |
| HciReport.AcceptsVersionTwo | gateway/crates/gateway/src/main.rs:704-746 | a report is accepted exactly if its manufacturer data have version 2; signal strength is a signed byte with 127 for unknown |
| HciReport.MacIsInjective | gateway/crates/gateway/src/main.rs:707-712 | equal names mean equal addresses |
| HciReport.FirstReportOfNodeDecides | gateway/crates/gateway/src/main.rs:720-746 | the first report with the node's address decides, and without one nothing is found |
| HciReport.ParseExtAdvReport | gateway/crates/gateway/src/main.rs:686-746 | on any packet the loop stays in range, ends and returns what the first report of the node decides |
| HciReport.PacketIsDecidedByFirstReport | gateway/crates/gateway/src/main.rs:690-746 | for every list of reports in a packet the result is decided on that list |
| EventsTable.PollFinds | client/src/db.rs:68-108 | a poll returns exactly the verified rows with valid hex above the cursor, in key order |
| EventsTable.PollReads | client/src/db.rs:68-108 | the same with every field of the frame given by the row's |
| EventsTable.AckMarks | client/src/db.rs:115-125 | an acknowledgement marks the row of that key and changes no other |
| EventsTable.DeleteRemoves | client/src/db.rs:128-131 | a deletion removes exactly the row of that key |
| EventsTable.KeysAreNotReused | gateway/crates/gateway/src/main.rs:187-197 | a key does not come back after its row is deleted |
| EventsTable.LiveCursorSkipsAll | client/src/db.rs:41-47 | the key asked for is the greatest in the table, or 0, and no poll from there finds a row |
| Debounce.NotifiesUnlessRecent | gateway/crates/gateway/src/main.rs:871-875 | a verified frame notifies exactly when no notification was noted in the six seconds before it |
| Debounce.NotificationsAreSpaced | gateway/crates/gateway/src/main.rs:871-875 | two notifications are at least six seconds apart |
| Debounce.EveryFrameIsCovered | gateway/crates/gateway/src/main.rs:871-875 | every verified frame notifies or follows a notification within six seconds |
| Gateway.NodeMacNamesItsAddress | gateway/crates/gateway/src/main.rs:88-88 | the configured name is that of the address bytes in wire order |
| Gateway.ReassembleInvertsStrip | gateway/crates/gateway/src/main.rs:229-255 | splitting a frame into company identifier and payload and putting it together are inverse |
| Gateway.VerifyOuterSig | gateway/crates/gateway/src/main.rs:243-263 | the answer is the signature check over the first 120 bytes of the reassembled frame, and false for another length |
| Gateway.NewestFirst | gateway/crates/gateway/src/main.rs:175-178 | the shown list is the newest 100 of the history in reverse order |
| Gateway.App.Push | gateway/crates/gateway/src/main.rs:167-179 | the list stays that, and received equals valid plus invalid |
| Gateway.ChannelConserves | gateway/crates/gateway/src/main.rs:857-870 | taken and waiting frames are the offers in order without those that found 128 waiting |
| Gateway.AllAcceptedIff | gateway/crates/gateway/src/main.rs:867-870 | every offer goes through exactly when none found the channel full |
| Gateway.AfterOffer | gateway/crates/gateway/src/main.rs:867-870 | an offer waits at the end, or is refused by a channel in which 128 wait |
| Gateway.AfterTake | gateway/crates/gateway/src/main.rs:456-465 | the oldest waiting frame is taken |
| Gateway.Scanner.TrySend | gateway/crates/gateway/src/main.rs:867-870 | the waiting list is the channel's after one more offer |
| Gateway.Scanner.Receive | gateway/crates/gateway/src/main.rs:456-465 | the publisher takes the oldest waiting frame |
| Gateway.Scanner.Consider | gateway/crates/gateway/src/main.rs:871-875 | the stored instant is that of the latest notification, and the answer is the debounce's |
| Gateway.Scanner.HandlePacket | gateway/crates/gateway/src/main.rs:816-883 | one packet's effect on table, history, channel and debounce, with a failing insertion; the next two lemmas say which |
| Gateway.EveryFindingIsRecorded | gateway/crates/gateway/src/main.rs:821-883 | every finding, verified or not, leaves one record with name, strength, text, type and outcome of the check, its row exactly if the insertion works, and one offer exactly if the signature holds |
| Gateway.NothingElseIsRecorded | gateway/crates/gateway/src/main.rs:816-820 | a packet without a finding changes nothing |
| Gateway.HistoryReportsFindings | gateway/crates/gateway/src/main.rs:167-179 | over any run the records are those of the findings one by one, and as many are invalid as failed the check |
| Gateway.GatewayAccounts | gateway/crates/gateway/src/main.rs:816-883 | over any packets the offered frames are the verified ones of the history in order, and as many were considered for notification |
| Gateway.Operate | gateway/crates/gateway/src/main.rs:816-883 | over any packets and takes the scanner is the gateway of the run; it has received as many frames as there were findings, and as many invalid ones as failed the check |
| ClientCrypto.ReconstructLf | client/src/crypto.rs:51-67 | the rebuilt frame is version, event type and blob, and a blob of another length is refused |
| ClientCrypto.DecryptLer | client/src/crypto.rs:76-109 | the slicing of header, nonce, ciphertext and tag gives the decryption that the next lemma is about |
| ClientCrypto.DecryptsFrom | client/src/crypto.rs:76-127 | which bytes of the blob are nonce, header and sealed text, and exactly when there is a record and with which fields |
| ClientCrypto.ParseInvertsToBytes | client/src/crypto.rs:112-127 | the client reads from a serialised record what the node wrote |
| ClientCrypto.DecryptReadsWhatFrameCarries | client/src/crypto.rs:76-127 | blob and event type of a frame that carries a record decrypt to that record |
| ClientTheorems.RunKeeps | client/src/main.rs:91-150 | the client's invariant holds over every interleaving of inserts, keys and polls |
| ClientTheorems.EachRowIsDeliveredOnce | client/src/main.rs:136-146 | rows are delivered at most once and in key order, and none below the cursor is skipped |
| ClientTheorems.NextPollDelivers | client/src/main.rs:136-146 | the first poll after an insertion delivers the row |
| ClientTheorems.DefaultStartDeliversBacklog | client/src/main.rs:75-79 | by default the first poll delivers exactly the verified rows in the table whose text decodes, field by field |
| ClientTheorems.LiveStartSkipsBacklog | client/src/main.rs:75-79 | a client started live delivers nothing at first, and then exactly what the gateway inserts |
| ClientTheorems.KeysDo | client/src/main.rs:105-109 | what quitting, moving and the error panel do to selection and loop |
| ClientTheorems.WritingKeysDo | client/src/main.rs:110-130 | what acknowledging and deleting do to list, selection and table, and that a failing statement ends the loop |
| ClientTheorems.KeysDoNothing | client/src/main.rs:105-132 | with an empty list only quitting and the error panel do anything |
| ClientTheorems.FrameIsHandled | client/src/main.rs:139-146 | a polled frame becomes an entry with its own fields, or an error |
| ClientTheorems.EndedLoopRests | client/src/main.rs:136-136 | a failing poll ends the loop, and an ended loop does nothing |
| ClientTheorems.ListFollowsTable | client/src/main.rs:110-130 | selection in range or none for an empty list, keys increasing, no deleted row listed, acked entries acked in the table |
| ClientTheorems.NothingIsLostFromTheList | client/src/main.rs:139-146 | a delivered frame is listed exactly when it decrypts and has not been deleted |
| ClientTheorems.AckLowersCount | client/src/display.rs:94-118 | an acknowledgement lowers the count of unacknowledged entries by one, unless given before |
| ClientTheorems.RemovalIsExact | client/src/main.rs:119-128 | removal takes out the selected entry only and leaves a valid selection |
| Client.AppState.PushEvent | client/src/display.rs:55-61 | the entry is appended and selected only if nothing was |
| Client.AppState.Next | client/src/display.rs:69-78 | the selection moves down and stops at the end |
| Client.AppState.Prev | client/src/display.rs:81-90 | the selection moves up and stops at the start |
| Client.AppState.AckSelected | client/src/display.rs:94-100 | the selected entry is marked and no other |
| Client.AppState.RemoveSelected | client/src/main.rs:119-128 | the index is in bounds and the selection is clamped |
| Client.Session.HandleKey | client/src/main.rs:105-132 | one key press is a step of the model, with failing statements |
| Client.Session.PollFrames | client/src/main.rs:136-146 | the delivery loop handles the polled frames in order and leaves the cursor at the last |
| Client.TurnOrder | client/src/main.rs:98-136 | a turn handles its key before it polls |
| Client.RunLoop | client/src/main.rs:91-150 | the loop up to the turn that ends it is a run of the model and keeps its invariant |
| EndToEnd.NodeAdvertisementIsHeard | firmware/src/ble.c:36-43 | an event packet with the advertisement that the node makes of a frame is one that the next statements are about |
| EndToEnd.AdvertisedFrameIsStored | gateway/crates/gateway/src/main.rs:821-855 | a packet that carries a frame the node put on air adds a verified row that decrypts to the record of its pipeline |
| EndToEnd.StoredRowIsListed | client/src/main.rs:136-146 | such a row above the cursor is listed with that record after the next poll |
| EndToEnd.OperatorSeesTheLatchedEvent | firmware/src/fsm.c:389-451 | for every reachable node, every state of gateway and client, the operator sees an entry that gives kind, time, number and sensor value of the latched event |
| Calendar.NextYear | firmware/src/rtc.c:267-271 | the closed formula for the days before a year steps by the length of the year |
| Calendar.YearHasTwelveMonths | firmware/src/rtc.c:272-279 | the twelve months fill the year, so the month index stays below 12 |
| Calendar.MonthsStart | firmware/src/rtc.c:272-279 | the first day of every month in common and leap years |
| Calendar.FormatNow | firmware/src/rtc.c:252-282 | for every nonzero epoch both loops end, all fields are in range and section 4.16 of IEEE Std 1003.1-2017 maps them back to the epoch |
| Calendar.DatesAreOrderedAsTimes | firmware/src/rtc.c:260-281 | dates are ordered as their times, and no two dates have the same time |
| Rtc.StoredEpochIsLastStore | firmware/src/rtc.c:97-106 | whichever writes fail, the stored epoch is that of the last store that worked |
| Rtc.StoredEpochLags | firmware/src/rtc.c:97-106 | while the writes work the stored epoch is never ahead of the clock and lags it by at most 60 s |
| Rtc.SkewIsReportedIff | firmware/src/rtc.c:346-362 | a skew is reported exactly when both sources exist and differ by more than 300 s |
| Rtc.BootTable | firmware/src/rtc.c:286-411 | source, validity, return code, stored epoch and value written to the chip for every combination of answers |
| Rtc.EpochCounts | firmware/src/rtc.c:413-418 | the epoch is the boot epoch plus whole seconds since boot, in 32 bits |
| Rtc.StepsStore | firmware/src/rtc.c:97-106 | what each step of a session stores, and when the next flush is due |
| Rtc.UncheckedClockSkewIff | firmware/src/rtc.c:376-397 | after a boot with no time or with the provisioning constant only, and any session, the next boot that reads the chip reports a skew exactly when something was stored and the chip is more than 300 s from it |
| Rtc.UnsetClockCausesFalseSkew | firmware/src/rtc.c:97-106 | a node without any time source that has run for a minute makes a later boot report a skew |
| RtcHistory.BookIsExact | firmware/src/rtc.c:286-411 | for every boot, whatever answers and whatever writes work, the account of lost milliseconds gives by how much the stored epoch is behind the chip at the next boot |
| RtcHistory.SkewOverHistoriesIff | firmware/src/rtc.c:346-391 | after any sequence of boots, with chip, stored epoch, constant or nothing as source, a skew is reported exactly when the chip is readable and the account is outside -300 s to 301 s |
| RtcHistory.HonestRestartIsClean | firmware/src/rtc.h:60-66 | after at most 239 001 ms off, a life whose boot read the chip or set it leaves no skew, whether or not that boot reported one |
| RtcHistory.HonestBootsAreClean | firmware/src/rtc.c:286-411 | any number of such lives in a row, with fallback boots among them, reports nothing |
| RtcHistory.LongerOffCanReport | firmware/src/rtc.h:60-66 | one millisecond more can report a skew |
| RtcHistory.FallbackAddsUp | firmware/src/rtc.c:367-375 | a fallback on the stored epoch that cannot set the chip adds what it leaves uncounted to what was lost before |
| RtcHistory.FallbackChainCanReport | firmware/src/rtc.c:367-375 | so two lives within the bound, the second of them such a fallback, can report a skew |
| Rtc.Driver.Init | firmware/src/rtc.c:286-411 | source, validity, return code, stored epoch and value written to the chip, for every combination of answers |
| Rtc.Driver.GetEpoch | firmware/src/rtc.c:413-418 | in 32 bits, equal to the millisecond timestamp in whole seconds as long as that fits |
| Rtc.Driver.PeriodicFlush | firmware/src/rtc.c:97-106 | a due flush stores the epoch and is due again 60 s later |
| Rtc.Driver.ArmWakeup | firmware/src/rtc.c:455-491 | the alarm is armed exactly when the chip is ready, the clock valid and the chip agrees; the epoch is flushed first |

## Left out

- NodeFsm.Fsm.Dispatch: a handler runs at one instant of the clock, and timers do not expire while it runs; other threads post only before its own posts.
- NodeTheorems.NeverStuck: says that a way out is queued or pending; `PendingTimersAreNear` bounds the timers, but the deadline of the clock chip's alarm is not modelled.
- NodeTheorems.SingleControlToken: says "at most one" for runs in which the queue refused a post, since the refused post may have been the token.
- NodeTheorems.OneOutcomePerTransmission: likewise "at most one" after a refused post, which may have been the outcome.
- ClientTheorems.LiveStartSkipsBacklog: for a query that works; one that fails starts the client at 0, as if it had not been asked to start live.
- NodeTable.ArrivalsJoinTheQueue: for queues of at most 16 events, which is what every reachable node has.
- Events.Event: the `node_id` field of an event, which no code reads, and the battery voltage and fault variants of its payload.
- The posting rule of the sensor thread (only in ARMED and LIGHT_SLEEP): outside events may come at any time, which includes it.
- Timestamps of clock-chip wakeups: the model stamps all internal events with the uptime; none of them is ever latched.
- The frame buffer after a failed build: the model gives it contents, but a frame of a failed build is never advertised.
- RtcHistory.SkewOverHistoriesIff: assumes equal rates of chip and uptime, and epochs that fit 32 bits.
- RtcHistory.HonestBootsAreClean: only for lives whose writes to storage work; for others the exact condition is that of `SkewOverHistoriesIff`.
- Rtc.StoredEpochLags: only while the writes to storage work; `StoredEpochIsLastStore` covers those that fail.
- `lima_rtc_set_epoch` and the provisioning override at `firmware/src/rtc.c:308-314`: no caller is shown for the first, and the second is off by default.
- The text that the calendar fields are printed as.
- `purge_old_frames`, which nothing calls, and a second client on the same table.
- Key handling, random numbers, and the inside of ECDSA and AES-GCM; wrong keys and altered frames.
- Terminal drawing, key reading, LED patterns, log output.
- Raw sockets and scan commands, the MQTT event loop and publishing errors, HTTP notifications, adapter discovery.
- Sensor arithmetic and baseline filter, I2C recovery, watchdog, Zephyr drivers.
- SQLite beyond an ordered table with an AUTOINCREMENT key; locking between the two processes.
- `gateway/crates/crypto-test`, scripts and the wire demo.
