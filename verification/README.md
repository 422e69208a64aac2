# SCSGATE: a verified model

SCSGATE is a Home Assistant integration for the ESP32 gateway of an SCS home bus. Most of it is
forms and HTTP requests; this project models the parts that keep state or run an algorithm, and
proves what they promise. `dafny verify dfyconfig.toml` checks it.

| part | files | form |
|---|---|---|
| TCP/PIC debug session | `DebugSession*.dfy`, `DebugMonitor.dfy` | A machine over await points, in which the lock-holding calls, the capture task, its cancellations and all I/O failures interleave; the class `AdvancedTcpDebugMonitor` writes the coroutines out and is proved to take only steps of that machine |
| Records of the session | `Framing.dfy`, `DebugRecords.dfy` | CR/LF framing, the bounded ring with its counters, the byte-capped export |
| Discovery | `Discovery.dfy`, `DiscoveryMeaning.dfy`, `DeviceManager.dfy`, `DiscoveryTraffic.dfy` | Documents, topics and indices as values; the class `DeviceManager` beside a broker of retained documents, with callbacks and other syncs at every await |
| Census | `CensusLog.dfy`, `CensusReplies.dfy`, `CensusFlow.dfy` | The census steps of the options flow as a class whose replies are texts, with the cleanup timer at every await and a log of all requests |
| Device table parser | `Text.dfy`, `Parsers.dfy`, `Parser*.dfy` | The regular expressions as functions on text, the loop as a method, printers for both row formats (as in `tests/fixtures/devices_7004_real.html:3-7` and `tests/fixtures/devices_7004.html:1`) |
| Bus monitor | `BusMonitor.dfy`, `SharedCollector.dfy` | The shared collector with its owners, ring, counters and export, and its life across entries |
| Callback path | `CallbackPath.dfy` | The path check and the dot segment removal of RFC 3986 |

A write counts as having reached the PIC as soon as it is written, and as certain once it is drained.
Ghost fields record what the code does not keep: logs of all requests, everything received,
what was cleared or dropped. What comes from outside - replies, failures, arrivals, the time -
is chosen freely wherever the code has to wait.

Where the code does less than one might expect, the model follows the code:

- Framing is independent of the reads up to runs of 4097 bytes, one more than `MAX_PENDING_BYTES` (`Framing.ChunkIndependentIff`).
- `export(0)` of the debug monitor returns everything (`DebugRecords.SelectedBounds`); the service asks for at least one.
- `async_recover` can end with an undeclared error and the status "stopping" exactly when the capture task can still close a connection at the call (`DebugSessionTheorems.RecoverEscapesIff`); the flag stays true in the run shown (`DebugSessionTheorems.RecoveryCanEscape`).
- A topic that is bound to another unique id stays in the set of the old one (`Discovery.InverseUnlessRebound`), and its canonical topic may then be offered for clearing (`DeviceManager.CanonicalTopicIsOffered`); the sync that follows publishes it again, but the topic stays a candidate (`DeviceManager.RepairRemovesIff`).
- Shrinking the bus ring drops messages without counting them (`BusMonitor.BusMonitor.Resize`).
- The census reads every reply with the device parser, whose error the handlers do not catch: a poll, a START, a PREPARE or an accepted census can end in it (`CensusReplies.AnswerRaisesIff`, and each step says when).
- A PREPARE whose reply is lost or raises leaves the census flag false and no timer, though the PIC may be learning (`CensusFlow.PrepareIsLost`); a failed STOP takes the cleanup timer away (`CensusFlow.RunFlow`).
- `type=--5` passes the digit test and then raises (`ParserRaises.DoubleDashRaises`, `ParserRaises.RecordRaisesIff`), and so do numbers of more than 4300 digits.
- A name left open at the end of a text ("name= ") reads differently when another line follows (`ParserConcat.LooseEndsInteract`, and exactly when in `ParserConcat.LinesParseSeparatelyIff`).

## Model

| member | source | states |
|---|---|---|
| DebugSessionTheorems.CaptureIsNeverForgotten | custom_components/scsgate/advanced_debug.py:114-308 | In every run - any calls, any I/O failures, the capture task interleaved anywhere and cancelled at any await, before its first step included - if CAPTURE may have reached the PIC with no RESTORE drained since, `_restoration_required` is true |
| DebugSessionTheorems.PublishedStateIsTruthful | custom_components/scsgate/advanced_debug.py:121-197 | In every run "idle" and "error" are published only when nothing has to be restored, "capturing" and "restore_required" only when something has |
| DebugSessionTheorems.WriteLogIsDisciplined | custom_components/scsgate/advanced_debug.py:114-301 | In every run each CAPTURE follows a SETUP acknowledged with "#ok" on its own connection, and between any two CAPTUREs lie a drained RESTORE and then a drained DISABLE on one connection |
| DebugSessionTheorems.StopFromAnywhere | custom_components/scsgate/advanced_debug.py:227-268 | From every reachable state with the lock free, `async_stop` is over after at most 15 I/O completions whatever they come to and however often the capture task is cancelled again: it returned with no capture task and the flag false, or it raised with the flag true and "restore_required"; it never returns while CAPTURE may be outstanding |
| DebugSessionTheorems.StopDrives | custom_components/scsgate/advanced_debug.py:227-268 | The same from any point inside `async_stop`, with the number of completions still needed bounded by its position |
| DebugSessionTheorems.StopProgress | custom_components/scsgate/advanced_debug.py:235-268 | Each I/O completion of `async_stop` after the capture task is gone either ends it as promised or brings it strictly closer to its end |
| DebugSessionTheorems.StopTaskProgress | custom_components/scsgate/advanced_debug.py:160-197 | While `async_stop` waits for the capture task, each step of it brings it strictly closer to being done |
| DebugSessionTheorems.RecoverEscapesIff | custom_components/scsgate/advanced_debug.py:243-278 | A call of `async_recover` with the lock free can end with an undeclared error iff at that moment the capture task can still close a connection: it reads, or is not cancelled and has yet to start, or waits in its restoration for anything but the close that follows success |
| DebugSessionTheorems.DuringUndisturbed | custom_components/scsgate/advanced_debug.py:243-308 | Otherwise no completion and no cancellation until the call is over lets that error out |
| DebugSessionTheorems.EscapesOnlyFromRecovery | custom_components/scsgate/advanced_debug.py:243-278 | Inside a call the error leaves exactly where a recovery finds its connection closed under it while SETUP drained; never in `async_start` or `async_stop` |
| DebugSessionTheorems.RecoveryCanEscape | custom_components/scsgate/advanced_debug.py:243-278 | A concrete run in which it does: `async_recover` during a live capture, whose task loses the old connection and closes the new one, leaves the status at "stopping" with the flag still true |
| DebugSessionTheorems.RunKeepsInv | custom_components/scsgate/advanced_debug.py:114-308 | The invariant behind these results holds after every run |
| DebugSessionSafety.StepKeepsInv | custom_components/scsgate/advanced_debug.py:114-308 | Every completion of any await, of the lock holder or of the capture task, keeps that invariant |
| DebugSessionSafety.MainKeepsInv | custom_components/scsgate/advanced_debug.py:114-308 | The part of it for the code that holds the lock |
| DebugSessionSafety.TaskKeepsInv | custom_components/scsgate/advanced_debug.py:160-197 | The part of it for the capture task, cancellation inside its `finally` included |
| DebugSessionLog.DirtyMeansMayCapture | custom_components/scsgate/advanced_debug.py:130-133 | The folded summary of a write log says "dirty" iff some CAPTURE in the log has no drained RESTORE behind it |
| DebugSessionLog.DisciplineSound | custom_components/scsgate/advanced_debug.py:117-133 | A log the summary calls disciplined has every CAPTURE acknowledged beforehand and any two of them separated, position by position |
| DebugSessionLog.CleanSound | custom_components/scsgate/advanced_debug.py:288-301 | A log the summary calls clean has no CAPTURE, or a drained RESTORE and then a drained DISABLE of one connection behind the last one |
| DebugMonitor.AdvancedTcpDebugMonitor.AsyncStart | custom_components/scsgate/advanced_debug.py:114-158 | Written with its awaits, its `try` and its handlers, it takes exactly the steps of the session machine; it refuses iff a task is live or restoration is due, and then changes nothing. It returns capturing with the flag set, having written and drained SETUP, read "#ok" and written and drained CAPTURE on one new connection, and nothing else; or it fails, and then something has to be restored iff CAPTURE was written and not followed by a drained RESTORE and DISABLE |
| DebugMonitor.AdvancedTcpDebugMonitor.TryStart | custom_components/scsgate/advanced_debug.py:122-133 | The body of the `try`: connection, handshake, flag set before CAPTURE is written, drain; every failure leads to the clean-up |
| DebugMonitor.AdvancedTcpDebugMonitor.CleanupFailedStart | custom_components/scsgate/advanced_debug.py:280-286 | A failed start leaves no connection; a flag that was false stays so with nothing written, and one that was true is cleared iff RESTORE and then DISABLE were drained on the connection |
| DebugMonitor.AdvancedTcpDebugMonitor.EnterUartBridge | custom_components/scsgate/advanced_debug.py:270-278 | SETUP is written and drained and its "#ok" read on one connection before the caller goes on; the reader being gone in between is an error of its own |
| DebugMonitor.AdvancedTcpDebugMonitor.RestoreCurrentConnection | custom_components/scsgate/advanced_debug.py:288-301 | True only if RESTORE and after it DISABLE were drained on the connection it found; if it is false with no capture running, no DISABLE was drained; there is no connection afterwards, and without one at the start nothing is written and the answer is false |
| DebugMonitor.AdvancedTcpDebugMonitor.TryRestore | custom_components/scsgate/advanced_debug.py:292-296 | The drains of the `try`: both done in order on the one connection, or failure at the first that is not, and then with no capture running no DISABLE was drained |
| DebugMonitor.AdvancedTcpDebugMonitor.Close | custom_components/scsgate/advanced_debug.py:303-308 | There is no connection afterwards; closing nothing changes nothing and does not wait |
| DebugMonitor.AdvancedTcpDebugMonitor.AsyncStop | custom_components/scsgate/advanced_debug.py:227-241 | It takes exactly the steps of the session machine; it leaves no task, and returns with the flag false and no CAPTURE outstanding or raises with the flag true and "restore_required". With no capture running it returns iff nothing had to be restored or RESTORE and then DISABLE were drained on one connection during the call |
| DebugMonitor.AdvancedTcpDebugMonitor.AwaitTask | custom_components/scsgate/advanced_debug.py:231-234 | Awaiting the cancelled task ends, for every way the task may still go |
| DebugMonitor.AdvancedTcpDebugMonitor.AsyncRecover | custom_components/scsgate/advanced_debug.py:243-268 | It returns with "idle", the flag false and no CAPTURE outstanding, or raises the declared error with "restore_required" and the flag true; the undeclared error only if at the call the capture task could still close a connection. It returns only if RESTORE and then DISABLE were drained on the connection it opened, and with no capture running it returns iff they were |
| DebugMonitor.AdvancedTcpDebugMonitor.Recover | custom_components/scsgate/advanced_debug.py:250-268 | The lock-holding body: called from `async_stop` it never lets the undeclared error out; success means RESTORE and DISABLE drained on the new connection, and with no capture running any other end means that no DISABLE was |
| DebugMonitor.AdvancedTcpDebugMonitor.ResumeTask | custom_components/scsgate/advanced_debug.py:160-197 | One step of the capture task, from the await it is suspended at to the next, changes the fields exactly as the session machine says |
| DebugMonitor.AdvancedTcpDebugMonitor.OtherCodeRuns | custom_components/scsgate/advanced_debug.py:160-197 | Whatever the capture task does during an await of the lock holder is a run of the session machine that leaves the position of the lock holder alone |
| DebugMonitor.AdvancedTcpDebugMonitor.AsyncUnloadEntry | custom_components/scsgate/__init__.py:258-265 | The entry is unloaded only with no task, the flag false and no CAPTURE outstanding; otherwise it stays loaded with "restore_required" |
| DebugMonitor.AdvancedTcpDebugMonitor.EndStop | custom_components/scsgate/advanced_debug.py:235-241 | The tail of a stop: nothing to do with the flag false; otherwise it returns only if RESTORE and then DISABLE were drained on the connection there was or on a new one, and raises only if no DISABLE was |
| DebugSessionOutcomes.RecoverOutcome | custom_components/scsgate/advanced_debug.py:243-268 | Given what its I/O comes to, a recovery with the lock free returns "idle" with the flag false iff connection, SETUP, "#ok", RESTORE and DISABLE all succeed; otherwise it raises with the flag true; whether the close succeeds does not matter |
| DebugSessionOutcomes.StopOutcome | custom_components/scsgate/advanced_debug.py:235-241 | A stop with no capture running does nothing unless something has to be restored; then it succeeds iff both drains succeed over the connection there is, or else the five steps of a recovery do |
| DebugSessionOutcomes.StartOutcome | custom_components/scsgate/advanced_debug.py:114-158 | A start succeeds iff connection, SETUP, "#ok" and CAPTURE do; a failed one leaves something to restore iff CAPTURE was what failed and a drain of the restoration failed too |
| DebugSessionOutcomes.CaptureOutcome | custom_components/scsgate/advanced_debug.py:160-197 | A capture whose time is up, or that is cancelled while it reads, ends "idle" with the flag false iff RESTORE and DISABLE drain; one whose connection is lost writes nothing and ends with the flag true |
| DebugSessionOutcomes.FinallyOutcome | custom_components/scsgate/advanced_debug.py:181-197 | From its `finally` on, the task restores iff both drains succeed |
| DebugSessionOutcomes.CancelledOutcome | custom_components/scsgate/advanced_debug.py:160-197 | A cancellation before the first step of the task, or in its `finally`, ends it with flag, status and connection as they were |
| Framing.ChunkIndependentIff | custom_components/scsgate/advanced_debug.py:171-189 | The recorded lines, final flush included, are the non-empty CR/LF-separated pieces of the stream for every cut into reads of 1 to 1024 bytes iff no run without a break is longer than 4097 bytes |
| Framing.RecordedArePieces | custom_components/scsgate/advanced_debug.py:171-189 | The sufficient half, from any pending bytes and for reads of any size |
| Framing.SinglesRecordMore | custom_components/scsgate/advanced_debug.py:177-179 | The necessary half: read byte by byte, a longer run leaves more records than pieces |
| Framing.CompleteThenPieces | custom_components/scsgate/advanced_debug.py:199-213 | What one scan completes and what scanning on from its rest completes are together the pieces of the whole |
| Framing.CompleteUnbroken | custom_components/scsgate/advanced_debug.py:199-213 | What a scan leaves pending holds no break |
| Framing.PiecesUndoJoined | custom_components/scsgate/advanced_debug.py:199-213 | Any lines, each followed by any non-empty mixture of CRs and LFs, are exactly the pieces of the resulting stream |
| DebugRecords.TextOf | custom_components/scsgate/advanced_debug.py:216-217 | A stored text has exactly min(512, raw length) characters, all printable ASCII or U+FFFD |
| DebugRecords.LineMeans | custom_components/scsgate/advanced_debug.py:215-225 | Byte by byte: printable ASCII as it is, other ASCII as "?", the rest as U+FFFD; the record is a telegram iff the line starts with the four bytes of "SCS[" |
| DebugRecords.TakeLine | custom_components/scsgate/advanced_debug.py:200-211 | One turn of the framer over the pending bytes: the line before the first break and all breaks behind it are deleted, so the rest shrinks, and the scan of the rest gives the remaining lines |
| DebugRecords.RecordRing.ConsumeLines | custom_components/scsgate/advanced_debug.py:199-213 | All complete lines are recorded in order and only the unterminated rest stays pending; the loop ends because the pending bytes shrink |
| DebugRecords.RecordRing.TakeChunk | custom_components/scsgate/advanced_debug.py:175-179 | One turn of the read loop: the pending bytes never hold more than 5120, end free of breaks and at most 4096 long, and a longer rest is recorded once, cut and flagged |
| DebugRecords.RecordRing.Capture | custom_components/scsgate/advanced_debug.py:160-189 | The read loop and the flush in `finally` append to the history exactly the lines of the specification, each cut to 512 and flagged iff longer; the pending bytes never hold more than 5120 |
| DebugRecords.RecordRing.AppendRecord | custom_components/scsgate/advanced_debug.py:215-225 | The ring stays the newest `message_limit` of the lines since the last clear, and received = retained + discarded + cleared |
| DebugRecords.RecordRing.Clear | custom_components/scsgate/advanced_debug.py:314-316 | Everything retained is removed and counted as cleared; the counters stay |
| DebugRecords.RecordRing.Export | custom_components/scsgate/advanced_debug.py:318-339 | The exported records are the longest prefix of the selected ones that fits 65536 bytes, and "truncated" says whether something is missing |
| DebugRecords.LongestFittingIsLongest | custom_components/scsgate/advanced_debug.py:320-333 | No longer prefix fits, and at least min(40, selected) records are exported |
| DebugRecords.RecordIsSmall | custom_components/scsgate/advanced_debug.py:322-329 | The exact size of a storable record as compact JSON in UTF-8: 49 bytes, its timestamp, the name of its kind, its flag, and its text with escapes counted twice and U+FFFD three times; never more than 1634 |
| DebugRecords.SelectedBounds | custom_components/scsgate/advanced_debug.py:320 | For a limit of at least 1 the newest `limit` records are selected; for 0 or less all of them, since the slice from -0 is the whole list |
| Discovery.OwnDocumentsAreNeverPoor | custom_components/scsgate/device_manager.py:79-140 | No document the manager builds asks for reconciliation, for any device, mode, gateway and bus id; a document is built iff there is a topic for it |
| Discovery.TopicsTellDevicesApart | custom_components/scsgate/device_manager.py:66-71 | Two devices share a canonical topic only if they share bus id and component |
| Discovery.UniqueIdsTellBusesApart | custom_components/scsgate/device_manager.py:94-97 | Two bus ids share a unique id iff they differ in case only, and stripping a unique id gives the bus id back in upper case |
| Discovery.CanonicalTopicsAreDistinct | custom_components/scsgate/device_manager.py:242-273 | Across an inventory the canonical topics and the unique ids of publishable devices are pairwise distinct |
| Discovery.CollectCollects | custom_components/scsgate/device_manager.py:242 | The inventory holds, under its upper-case bus id, the last device of every bus id, in the order in which the bus ids first appear |
| Discovery.PublishAllSyncs | custom_components/scsgate/device_manager.py:250-274 | Going through the devices changes the retained store exactly at the canonical topics of supported devices without a registry conflict, each to its enriched document |
| DiscoveryMeaning.TopicIs | custom_components/scsgate/device_manager.py:53-71 | The topic of a device, written out: light iff type 3 or 4 or type 1 with the override "light", switch iff type 1 otherwise, cover iff type 8, 9, 18 or 19, none for any other type |
| DiscoveryMeaning.DocumentBuilt | custom_components/scsgate/device_manager.py:79-133 | The document of a device, written out: unique id, name or upper-case bus id, origin, device block with identifier, name and model, and for each kind of device exactly its entries with their topics, "ON" and "OFF" |
| DiscoveryMeaning.SyncRetains | custom_components/scsgate/device_manager.py:237-275 | A synced store has, for every supported device whose identity the registry does not have twice, that document under that topic, and is otherwise unchanged |
| DiscoveryMeaning.DefaultIdentifierIs | custom_components/scsgate/device_manager.py:74-76 | The identifier of a new device holds the last 24 letters and digits of the gateway id and the bus id, both in lower case |
| DiscoveryMeaning.AlnumMeans | custom_components/scsgate/device_manager.py:75 | Of a gateway id exactly the letters and digits are kept, in order |
| DiscoveryMeaning.ConflictsIff | custom_components/scsgate/device_manager.py:143-156 | A device is in conflict iff two mqtt entities of the registry have its unique id |
| DiscoveryMeaning.IdentifierIff | custom_components/scsgate/device_manager.py:155-170 | An existing identifier is taken over iff one mqtt entity alone has the unique id and its device has exactly this mqtt identifier |
| DiscoveryMeaning.JudgeMeans | custom_components/scsgate/device_manager.py:136-140 | Reconciliation is asked for iff the unique id is that of the bus id and the device block or the origin name "SCSGATE" is missing; looking raises iff the device block is there and the origin is no object |
| DiscoveryMeaning.PoorIff | custom_components/scsgate/device_manager.py:136-140 | For a received document this is: its unique id is the prefix and a bus id in upper case, and it lacks the metadata |
| DiscoveryMeaning.BusOfMeans | custom_components/scsgate/device_manager.py:314 | The bus id of a unique id, with and without the prefix |
| DiscoveryMeaning.SeeMeans | custom_components/scsgate/device_manager.py:292-313 | What one message changes of either index, for every topic and unique id |
| DiscoveryMeaning.BoundIff | custom_components/scsgate/device_manager.py:292-313 | After any run of messages a topic is bound to a unique id iff its last document with an id of the gateway had that one and nothing cleared the topic since |
| Discovery.SyncIsIdempotent | custom_components/scsgate/device_manager.py:237-275 | Syncing again from the same inputs leaves the store as it is |
| Discovery.SeeKeepsAgreement | custom_components/scsgate/device_manager.py:292-313 | Every received message keeps `_topic_unique_ids[t] = u` implying that `t` is among the observed topics of `u` |
| Discovery.InverseUnlessRebound | custom_components/scsgate/device_manager.py:298-310 | Exact inverses stay exact iff the message does not bind a topic to another unique id; if it does, the topic stays in the set of the old one |
| Discovery.SteadyRunsKeepInverse | custom_components/scsgate/device_manager.py:292-313 | On every run of messages in which each topic keeps one unique id the two indices are exact inverses |
| Discovery.ForgetKeepsInverse | custom_components/scsgate/device_manager.py:298-302 | Clearing a topic keeps exact inverses exact and removes it from every set |
| DeviceManager.CandidateIffBoundOrLeftOver | custom_components/scsgate/device_manager.py:346-358 | A topic is a candidate iff it announces a known device whose topic it is not, or is still listed under such a device by a unique id it is no longer bound to |
| DeviceManager.CandidateIff | custom_components/scsgate/device_manager.py:346-358 | In general a topic is a candidate iff some unique id that lists it belongs to a known device and the topic is not that of the device, by type, override and bus id |
| DeviceManager.CandidatesExactly | custom_components/scsgate/device_manager.py:346-358 | While the indices are inverses, a topic is a candidate iff the device its last document announced is known and has another topic or none: never the topic of the device it announces |
| DeviceManager.DoubledMeans | custom_components/scsgate/device_manager.py:244-248 | A bus id is in conflict after a sync begins iff two different topics are listed for one of its unique ids |
| DeviceManager.AmbiguousMeans | custom_components/scsgate/device_manager.py:143-155 | The registry adds those devices whose unique id two of its mqtt entities have |
| DeviceManager.RepairRemovesIff | custom_components/scsgate/device_manager.py:360-368 | A repair takes its topic off the candidates iff no other unique id still lists it as stale; otherwise no number of repairs does |
| DeviceManager.ReboundTopicLooksStale | custom_components/scsgate/device_manager.py:309-310 | Every re-binding away from a known device whose topic it is not makes the topic a candidate |
| DeviceManager.CanonicalTopicIsOffered | custom_components/scsgate/device_manager.py:346-358 | An instance: the canonical topic of A1, announced for B2 first, is offered for clearing |
| DeviceManager.ClearedTopicIsGone | custom_components/scsgate/device_manager.py:360-368 | After a repair and its sync the cleared topic is retained iff it is the topic of a device that is published |
| DeviceManager.SeeDoubles | custom_components/scsgate/device_manager.py:306-313 | A message can give several topics only to the unique id it binds its own topic to |
| DeviceManager.UpperKeysHoldLast | custom_components/scsgate/device_manager.py:283-289 | A mapping of overrides holds exactly the keys, in upper case, of the entries whose value is kept, each with the last such value |
| DeviceManager.DeviceManager.AsyncSync | custom_components/scsgate/device_manager.py:237-281 | The query may fail and any publication may raise with or without reaching the broker, callbacks and steps of other syncs running at every await. A sync that succeeds has written a document for every supported device without a registry conflict, whatever ran meanwhile. If only callbacks ran, then on success the store changed exactly at "homeassistant/light/..." for types 3, 4 and for type 1 shown as a light, "homeassistant/switch/..." for other type 1, and "homeassistant/cover/..." for types 8, 9, 18, 19, each to the document of that device, and the conflicts are those of the index and of the registry |
| DeviceManager.DeviceManager.SyncDevices | custom_components/scsgate/device_manager.py:250-274 | The loop over the devices goes on with the inventory it started with, whatever replaces it meanwhile; the store follows the devices dealt with, and all of them are served if it gets to the end |
| DeviceManager.DeviceManager.SyncDevice | custom_components/scsgate/device_manager.py:250-274 | One device of a sync: conflicting identities are recorded and skipped, unsupported ones skipped, others published |
| DeviceManager.DeviceManager.Publish | custom_components/scsgate/device_manager.py:267-274 | One publication, which is counted iff it returned |
| DeviceManager.DeviceManager.Note | custom_components/scsgate/device_manager.py:298-313 | The indices follow the message, and the bus id it announces becomes a conflict iff its unique id has more than one topic then |
| DeviceManager.DeviceManager.DiscoveryReceived | custom_components/scsgate/device_manager.py:292-316 | A task is created iff the document is poor, its device known and no task pending; an error escapes iff the document of a known device has a device block and an origin that is no object; the echo of anything the manager wrote changes neither the pending flag nor the number of tasks |
| DeviceManager.DeviceManager.BirthReceived | custom_components/scsgate/device_manager.py:319-326 | A task is created iff the payload is "online", in any case, and none is pending |
| DeviceManager.DeviceManager.ScheduleReconciliation | custom_components/scsgate/device_manager.py:329-343 | A task is created iff none is pending |
| DeviceManager.DeviceManager.Reconcile | custom_components/scsgate/device_manager.py:335-343 | No other task is created while it works, whatever else runs; it clears the flag however it ends, and undisturbed success leaves the store synced |
| DeviceManager.DeviceManager.AsyncStart | custom_components/scsgate/device_manager.py:200-222 | Undisturbed, both topics are subscribed and the store is synced; whatever fails and whatever else runs, a failed start leaves nothing subscribed |
| DeviceManager.DeviceManager.OthersRun | custom_components/scsgate/device_manager.py:173-368 | What holds across every await: the invariant, what was written, and, while the reconcile task itself waits, that it stays the only one; if only callbacks ran, nothing but indices, conflicts and the pending flag changed |
| Discovery.SupportIgnoresMode | custom_components/scsgate/device_manager.py:53-71 | Whether a device has a canonical topic does not depend on its mode |
| DeviceManager.DeviceManager.AsyncEnsureStarted | custom_components/scsgate/device_manager.py:224-230 | Lost subscriptions are made again before the sync, existing ones are kept even when it fails |
| DeviceManager.DeviceManager.SetTypeOverrides | custom_components/scsgate/device_manager.py:283-289 | Afterwards a device has an override iff "switch" or "light" was chosen for it under any spelling of its bus id, and it is the last such choice |
| DeviceManager.DeviceManager.AsyncClearStaleTopic | custom_components/scsgate/device_manager.py:360-368 | It raises ValueError without effect iff no unique id of a known device lists the topic in another place than its own, so while the indices are inverses always for the topic of the device it announces; otherwise the topic is removed from the store and the indices and a sync follows, which on undisturbed success leaves the synced store without it |
| DeviceManager.Live | custom_components/scsgate/device_manager.py:173-368 | Over any life of a manager, with syncs, repairs and other clients overlapping at every await, reconcile tasks never outnumber the poor documents received from others plus the births, at most one is pending, and indices and conflicts stay in step |
| DiscoveryTraffic.TrafficIsClassified | custom_components/scsgate/device_manager.py:109-132 | What a document tells Home Assistant to send is counted by the bus monitor as commands, what it tells it to listen to as states, whatever the bus id |
| CensusFlow.RunFlow | custom_components/scsgate/config_flow.py:515-891 | Over every run of one flow, with any replies and the cleanup timer going off whenever it likes: an acknowledged PREPARE is always known to be active; START is sent only in learning mode and RESEND only outside it; the timer of a prepared census is gone iff a STOP has failed; and if a PREPARE may be in effect, the flow does not know it iff the last reply to one was lost or raised, except that a recovery assumes a census anyway |
| CensusFlow.PrepareIsLost | custom_components/scsgate/config_flow.py:597-611 | A run that shows it: after a PREPARE whose reply is lost or raises the PIC may be learning, with the flag false and no timer; the error escapes iff the reply raised |
| CensusReplies.RepliesCanRaise | custom_components/scsgate/api.py:272-288 | Instances: a reply that raises for any request, and a device table that raises for a query of the poll |
| CensusReplies.AnswerRaisesIff | custom_components/scsgate/api.py:284-288 | A reply to any device management request raises out of the client iff its text has a row with a bus id and a refused number |
| CensusReplies.StateRaisesIff | custom_components/scsgate/api.py:272-282 | A reply to a query of the poll does so iff it is a finished table with such a row |
| CensusReplies.PollRaisesIff | custom_components/scsgate/config_flow.py:690-697 | A poll ends with that error iff the first reply that is not "waiting" is such a table |
| CensusReplies.StateMeans | custom_components/scsgate/api.py:272-282 | Case by case on the text: "waiting" iff it says so in any case; complete with the parsed devices iff it does not, says it is the list, and parses; raising iff it does not, says it is, and the parser raises; an error of the gateway otherwise |
| CensusReplies.AnswerMeans | custom_components/scsgate/api.py:284-288 | Any other request fails iff there is no reply, and otherwise ends as parsing its text does |
| CensusReplies.PollMeans | custom_components/scsgate/config_flow.py:690-697 | A poll runs out iff all its replies are "waiting", and otherwise ends as its first other reply does |
| CensusReplies.PollEndIs | custom_components/scsgate/config_flow.py:690-697 | In which way, by what that reply says |
| CensusLog.StopFailedMeans | custom_components/scsgate/config_flow.py:729-744 | A STOP has failed iff its failure has no acknowledged PREPARE behind it |
| CensusLog.OutstandingMeans | custom_components/scsgate/config_flow.py:597-613 | Learning mode is known to be on iff an acknowledged PREPARE has no acknowledged STOP behind it |
| CensusLog.PendingMeans | custom_components/scsgate/config_flow.py:597-613 | A PREPARE may be in effect iff one was sent and no STOP was acknowledged since |
| CensusLog.LostMeans | custom_components/scsgate/config_flow.py:597-611 | The last PREPARE is lost iff its reply failed or raised, with no PREPARE and no STOP acknowledged since |
| CensusLog.PendingCases | custom_components/scsgate/config_flow.py:597-613 | A PREPARE that may be in effect was acknowledged, or its reply was lost or raised, or is still to come |
| CensusLog.SafeMeans | custom_components/scsgate/config_flow.py:639-659 | The order condition says: every START is sent in learning mode and every RESEND outside it |
| CensusLog.ResendAfterStop | custom_components/scsgate/config_flow.py:845-853 | Once an acknowledged STOP ends a log without RESEND, every later RESEND comes after it |
| CensusFlow.OptionsFlow.AsyncPrepareCensus | custom_components/scsgate/config_flow.py:587-620 | PREPARE is sent only if no census is believed active. Acknowledged it sets flag and timer; lost, it shows the form again; raising, it escapes with the form as it was; the last two leave flag and timer alone; PREPARE is all it sends |
| CensusFlow.OptionsFlow.AsyncStepCensusStart | custom_components/scsgate/config_flow.py:639-672 | START is sent only with the flag set. An error escapes iff the reply to START or the poll raises, and then no STOP is sent; otherwise the step ends in the review with the completed table, in learning acknowledged stopped, or in recovery; it sends START, then what the poll sends, or a STOP behind a START the gateway failed |
| CensusFlow.OptionsFlow.PollCensus | custom_components/scsgate/config_flow.py:688-715 | Ten queries if all replies are "waiting", after which learning is stopped or recovery asked for; otherwise as many as it takes to the first other reply. If that is a table, the review with its devices, without a STOP, or the error if parsing raises, with no STOP sent and flag and timer left to the timer; if it is anything else, learning acknowledged stopped, or recovery with a failed STOP, no timer, and the flag true iff learning is on. It sends its queries and at most one STOP behind them, that only when it ran out or ended with such a page |
| CensusFlow.OptionsFlow.StopCensusBestEffort | custom_components/scsgate/config_flow.py:729-744 | It succeeds iff there was nothing to stop or STOP was acknowledged, its errors stay inside, and the timer is gone either way; it sends one STOP iff a census is active |
| CensusFlow.OptionsFlow.TimerStep | custom_components/scsgate/config_flow.py:725-744 | The timer ends a census but never begins one, and touches nothing else: sleeping, it sends STOP iff a census is active; having sent it, it clears the flag iff the STOP is acknowledged, and is gone either way |
| CensusFlow.OptionsFlow.AsyncStepCensusReview | custom_components/scsgate/config_flow.py:755-771 | Scanning again and adding by hand stop the census first; scanning again escapes iff the new PREPARE raises; accepting goes through the stop step; what each of them sends is stated |
| CensusFlow.OptionsFlow.AsyncStepCensusStop | custom_components/scsgate/config_flow.py:842-868 | Accepting: it finishes iff STOP, RESEND and the sync all succeed, with learning off, the flag false and no timer; it escapes iff STOP raises (flag and timer as they were, no RESEND), RESEND raises, or the sync fails with another error (learning acknowledged stopped); an error of the gateway leads to recovery |
| CensusFlow.OptionsFlow.Submit | custom_components/scsgate/config_flow.py:515-1120 | What submitting each form sends: one PREPARE from the forms that prepare, unless a census is active; START, the poll, UPDATE and QUERY, STOP, RESEND, or the requests of the danger zone from the others |
| CensusFlow.OptionsFlow.StopThenResend | custom_components/scsgate/config_flow.py:845-853 | In what this call sends, every RESEND comes after an acknowledged STOP, and a STOP that fails or raises leaves the flag alone; it sends STOP, and RESEND iff STOP is acknowledged |
| CensusFlow.OptionsFlow.AsyncStepCensusManualAdd | custom_components/scsgate/config_flow.py:815-840 | The review is shown with the table read after the update, or the form again; the error escapes iff that table raises; it sends the update, logs how that ended, and queries iff it was saved |
| CensusFlow.OptionsFlow.AsyncStepCensusRecoveryStop | custom_components/scsgate/config_flow.py:876-890 | The recovery finishes iff STOP is acknowledged, whether or not this flow had a census; it sends exactly one STOP |
| CensusFlow.OptionsFlow.AsyncStepDanger | custom_components/scsgate/config_flow.py:1093-1120 | A census prepared after clearing the table has its flag and its timer; any failing or raising request escapes with the flag false; it sends QUERY, CLEAR and PREPARE, as far as each is answered |
| CensusFlow.OptionsFlow.AsyncStepGuidedCensus | custom_components/scsgate/config_flow.py:515-540 | The baseline is read once and kept, and a guided census starts only with one; a table that raises escapes; it queries iff there is no baseline, and prepares iff the form was submitted and no census is active |
| ParserTables.TableRoundTripIff | custom_components/scsgate/parsers.py:125-204 | A printed table of firmware rows of any length is read back as its devices iff no name in it imitates a key/value pair, a "U" behind "cover" or "coverpct", or a calibration block |
| ParserTables.PairsTableRoundTrip | custom_components/scsgate/parsers.py:125-204 | A printed table of key/value rows of any length is read back unchanged if every number in it has at most 4300 digits, and raises otherwise |
| ParserRowMeaning.TwoCovers | custom_components/scsgate/parsers.py:131-203 | The table of `tests/fixtures/devices_7004.html:1` for any two bus ids and names: split at the bar, two devices with types 9 and 8 and positions 100 and 255 |
| ParserMeaning.RecordsAre | custom_components/scsgate/parsers.py:133 | Newlines and bars separate records and nothing else does: a text with neither is one record, or none if empty |
| ParserMeaning.GapsCollapse | custom_components/scsgate/parsers.py:11-21 | Every run of spaces, tabs, carriage returns, form feeds and vertical tabs becomes one space, and everything else stays |
| ParserMeaning.SpacesAre | custom_components/scsgate/parsers.py:136-144 | The ten ASCII characters that `\s` and `strip` take for spaces |
| ParserMeaning.FieldsFound | custom_components/scsgate/parsers.py:136-144 | The pairs of a row are its fields, in order, whichever of ":" and "=" stands between key and value, whichever of "," and ";" between fields, in any case of the keys and with any spaces around separators and values |
| ParserMeaning.NoPairs | custom_components/scsgate/parsers.py:136-144 | Without ":" and "=" there is no pair |
| ParserMeaning.FieldsRead | custom_components/scsgate/parsers.py:136-203 | Such a row with a key for the bus id is one device, or raises: its bus id is the last busid, else the last bus_id, else the last id; its name the last devname, else the last name; its numbers those of the last type and maxpos |
| ParserMeaning.GetMeans | custom_components/scsgate/parsers.py:136-144 | A key has the value of its last pair |
| ParserRaises.ParseRaisesIff | custom_components/scsgate/parsers.py:191-203 | Parsing a text raises iff one of its records does |
| ParserRaises.RecordRaisesIff | custom_components/scsgate/parsers.py:191-203 | A record raises iff its bus id is there and its stripped type or maximum position is two dashes or more, or dashes and more than 4300 digits, with nothing but digits behind the dashes |
| ParserRaises.IntFieldCases | custom_components/scsgate/parsers.py:196-202 | A number is left out iff its text is not dashes followed by digits, and refused iff it is with too many of either |
| ParserRaises.DoubleDashRaises | custom_components/scsgate/parsers.py:196-202 | Inputs that raise: "id=1,type=--5", and a switch of that name in a firmware table |
| ParserRoundTrip.RowRoundTripIff | custom_components/scsgate/parsers.py:146-186 | A firmware row is read back as its device iff it is unambiguous; an ambiguous one still yields one device or an exception |
| ParserRoundTrip.RowReadIff | custom_components/scsgate/parsers.py:146-186 | The same for the row pattern alone: types 8 and 9 exclude names starting with a separate U, types 9 and 19 names starting with a calibration block |
| ParserRowMeaning.CalibrationIff | custom_components/scsgate/parsers.py:170-184 | A name holds a calibration block iff it starts with hexadecimal words of 4, 4, 2, 4 and 2 digits with spaces between them and ends there or goes on behind a space; the first word is the maximum position and the rest the name |
| ParserRowMeaning.StartsWithUMeans | custom_components/scsgate/parsers.py:148 | A name turns "cover" into "cover U" iff it starts with a "u" or "U" that no word character follows |
| ParserRowMeaning.LabelsAre | custom_components/scsgate/parsers.py:146-164 | The type of each label, and that "cover" and "coverpct" are those of 8 and 9 unless a U follows |
| ParserRowMeaning.SpacedRow | custom_components/scsgate/parsers.py:146-150 | Spaces before the bus id and before the label do not matter, and the bus id is upper-cased |
| ParserRowMeaning.HexMeans | custom_components/scsgate/parsers.py:178 | The value of a hexadecimal digit, in either case |
| Text.CaseMeans | custom_components/scsgate/parsers.py:137 | Lower and upper case, letter by letter |
| ParserRoundTrip.CollapseRow | custom_components/scsgate/parsers.py:19-21 | Collapsing the blanks of a printed row leaves one space behind the label |
| ParserRows.RowPairs | custom_components/scsgate/parsers.py:136-144 | The key/value pairs found in a printed row are those found in its name |
| ParserPairs.PairsRoundTrip | custom_components/scsgate/parsers.py:136-203 | A printed key/value row is read back as its device, or raises if a number in it is too long |
| ParserPairs.IntRead | custom_components/scsgate/parsers.py:196-202 | Every integer, printed, passes the digit test and is read back, or raises if it has more than 4300 digits |
| ParserLines.ParseJoined | custom_components/scsgate/parsers.py:131-133 | Joined by newlines or bars, clean lines are parsed as the records they are |
| ParserConcat.LinesParseSeparatelyIff | custom_components/scsgate/parsers.py:125-204 | Two texts one below the other parse to the one list followed by the other iff the lower is blank or raises, or a record of the upper before its last one raises, or the upper has no loose end: its last record does not end in an open key with a space behind it whose empty value would change the device of that record |
| ParserRecordEnds.RecordEndsIff | custom_components/scsgate/parsers.py:136-204 | Spaces behind a record change what becomes of it iff a key stands open at its very end, outside any value, and an empty value for it drops the bus id, replaces it by another, drops a number, or drops or replaces the name |
| ParserRecordEnds.PairsEnd | custom_components/scsgate/parsers.py:136-144 | Spaces at the end of a record add exactly one pair, the open key with an empty value, or none |
| ParserRecordEnds.OverwritesIff | custom_components/scsgate/parsers.py:145-203 | Among pairs, an empty value for a key changes the device iff it takes away or replaces what that key contributes |
| ParserConcat.LinesParseSeparately | custom_components/scsgate/parsers.py:125-204 | In particular the texts parse separately unless the upper one ends in ":" or "=" with a space behind it on its line |
| ParserConcat.LooseEndsInteract | custom_components/scsgate/parsers.py:138-144 | A concrete pair of texts for which they do not: a name left open by "name= " is empty when a row follows and absent when none does |
| Parsers.ParseDevices | custom_components/scsgate/parsers.py:125-210 | The loop over the records computes exactly the parsed list and counts the ignored records; what separates records, which blanks collapse and what becomes of a record is stated by `ParserMeaning` and `ParserRowMeaning` |
| Parsers.ParseRecordsConcat | custom_components/scsgate/parsers.py:135-186 | Records are parsed independently of each other, except that one exception ends everything |
| SharedCollector.Live | custom_components/scsgate/__init__.py:80-92 | Over any lock-serialised sequence of set-ups and unloads with subscription failures the monitor is stored iff somebody holds it, and then it is enabled with exactly three subscriptions, its capacity is the largest limit asked for, and received = retained + discarded + cleared + dropped = sum of the kind counts |
| SharedCollector.Domain.AsyncAcquireBusMonitor | custom_components/scsgate/__init__.py:80-92 | Only the first acquisition can fail, and then nothing is stored or held; a later one joins the stored monitor and leaves the other limits alone |
| SharedCollector.Domain.Release | custom_components/scsgate/__init__.py:270-275 | The last holder takes the monitor away with all its subscriptions; earlier ones leave it stored |
| SharedCollector.Domain.AsyncUnloadEntry | custom_components/scsgate/__init__.py:253-276 | The share is given back iff the debug session let go and the platforms were unloaded |
| BusMonitor.BusMonitor.AsyncAcquire | custom_components/scsgate/bus_monitor.py:89-101 | An owner is added and the ring resized to the largest limit; failing is possible only with no other owner, and leaves no owner, no subscription and the monitor disabled |
| BusMonitor.BusMonitor.AsyncRelease | custom_components/scsgate/bus_monitor.py:103-112 | An owner is removed and the ring resized; the last one stops the monitor and empties it |
| BusMonitor.BusMonitor.AsyncStart | custom_components/scsgate/bus_monitor.py:73-87 | All three topics are subscribed or none; a running or disabled monitor is left alone |
| BusMonitor.BusMonitor.AsyncStop | custom_components/scsgate/bus_monitor.py:146-151 | No subscription and no message is left, and what was removed counts as cleared |
| BusMonitor.BusMonitor.MessageReceived | custom_components/scsgate/bus_monitor.py:115-144 | One more message at the end of the ring, at most `capacity` kept, its payload cut to 512 and flagged iff longer, unprintable characters replaced, its kind taken from the cut text |
| BusMonitor.BusMonitor.Append | custom_components/scsgate/bus_monitor.py:128-142 | Retained messages are a suffix of those received since the last clear, and all counters stay consistent with the history |
| BusMonitor.BusMonitor.Resize | custom_components/scsgate/bus_monitor.py:92-94 | Shrinking keeps the newest messages and drops the others without counting them as discarded |
| BusMonitor.BusMonitor.Clear | custom_components/scsgate/bus_monitor.py:165-167 | Retained messages become cleared ones; the counters stay |
| BusMonitor.BusMonitor.Export | custom_components/scsgate/bus_monitor.py:171-193 | The exported messages are a chronological subsequence of the selected ones chosen greedily from the newest back, their sizes add up to at most 65536, and exported + omitted = selected |
| BusMonitor.MaxLimit | custom_components/scsgate/bus_monitor.py:92 | The largest limit of the owners |
| BusMonitor.GreedyIsMaximal | custom_components/scsgate/bus_monitor.py:176-183 | A greedy selection keeps to the cap, and no message it left out could be added without passing it |
| BusMonitor.GreedyPrefersTheNewest | custom_components/scsgate/bus_monitor.py:176-183 | Of two different selections that fit, the greedy one has the newest message in which they differ |
| BusMonitor.NothingVanishes | custom_components/scsgate/bus_monitor.py:176-183 | What a selection takes and what it leaves out make up all it chose from |
| BusMonitor.KindCountsAddUp | custom_components/scsgate/bus_monitor.py:141-142 | Kind counts sum to the messages received, and some uart kind was counted iff an uart message was received |
| BusMonitor.UartIsTheLog | custom_components/scsgate/bus_monitor.py:34-49 | A message is of an uart kind iff it came on the topic SCSLOG |
| BusMonitor.KindMeans | custom_components/scsgate/bus_monitor.py:34-49 | The kind of a message: on SCSLOG received iff its lower-cased text holds "rx:", else sent iff it holds "tx:"; SCSERROR is an error of the gateway; elsewhere a command iff the topic holds "/set/", "/setlevel/" or "/setposition/", else generic iff it holds "/generic/from/" or "/generic/to/" |
| BusMonitor.SelectedAre | custom_components/scsgate/bus_monitor.py:173 | For a positive limit as many of the newest messages, for 0 all, for a negative one all but as many of the oldest |
| CallbackPath.AcceptedIffNormal | custom_components/scsgate/api.py:30-37 | A path is accepted iff its characters are legal, it has no empty segment and `remove_dot_segments` of section 5.2.4 of RFC 3986 leaves it unchanged |
| CallbackPath.AcceptedMeans | custom_components/scsgate/api.py:26-37 | In characters: two or more letters, digits, dots, underscores, tildes, slashes and hyphens, a slash first, none last, no two in a row, and `remove_dot_segments` leaves the path unchanged |
| CallbackPath.DropLastMeans | custom_components/scsgate/api.py:34-37 | Step 2C of the algorithm: the last segment goes, and the slash before it |
| CallbackPath.DotsShorten | custom_components/scsgate/api.py:34-37 | For every path that starts with a slash: without dot segments the algorithm copies it, with any it returns something shorter |

## Left out

- AsyncSync: what the store holds after a sync is stated for syncs that no other sync, repair, override change or client of the broker interrupts (`Alone`); otherwise only that every document was written. The registries are fixed during one sync.
- DiscoveryReceived: payloads that are no JSON objects or cannot be decoded all count as malformed.
- Payload: the constant fields (manufacturer, software version, the two URLs) are not part of a document; `isalnum` and the case conversions are those of ASCII.
- AsyncClearStaleTopic: the candidates are a set, not a sorted list.
- Parse: text without tags, entities and characters outside ASCII; `parse_status` is left out as a row of independent searches.
- TableRoundTripIff: the printer writes one row per line with two spaces behind the label; other spacings are read alike but not printed.
- OptionsFlow: one flow at a time; forms, menus, placeholders and the operation log are left out, and the timer goes off at any await instead of after 600 seconds. Replies are decoded text without tags, entities and characters outside ASCII.
- MessageReceived: payloads are already decoded; which characters are printable is a parameter.
- BusMonitor.Export: the encoded length of a message is a parameter, and the cap is on the sum of these lengths, as in the code.
- AdvancedTcpDebugMonitor: a `write` that raises is a write whose drain fails, and all errors of a start end as the one declared error; listeners that raise, cancellation of the caller of start, stop or recover, `last_error_type` and the times of start and expiry are left out.
- Capture: chunks are given; the deadline and the end of the connection only end the sequence.
- AsyncUnloadEntry: the services, the discovery owner and the registration of the entry itself.
- `claim_global_namespace`, the inventory rows and the repair issues of the device manager: single branches.
- `async_configure_callback` besides the path check, and the MQTT, network, reset, PIC and raw telegram calls: checks around one request.
- Entities, coordinator, diagnostics, translations, HTTP transport and request metrics, protocol debug counters: glue.
