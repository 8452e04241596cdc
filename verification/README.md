# Verification of the EVSE firmware core

A Dafny model of the parts of the firmware whose correctness shows only over whole runs, with
proofs about every run. `dafny verify dfyconfig.toml` checks the project.

- **Free-charging connector** (`Iec61851`, `FreeConnector`, `FreeConnectorSafety`, `FreeConnectorSteps`):
  the transition table over the states E, A, B, C, D and F that drives the control pilot and the relay. A step
  samples the world once per guard, so nothing is assumed to stand still between two guards.
- **Log file system** (`LogIndex`, `LogFs`, `LogFsSafety`, `LogWrites`, `LogStore`): a byte cache in front of one
  file per timestamp, a sorted index of the files, and oldest-first eviction.
- **UID store** (`UidStore`, `UidStoreSafety`): a direct-mapped cache over record files with tombstones.
- **Network manager** (`NetManager`, `NetManagerSafety`, `NetManagerSteps`): the seven-state machine of one interface.
- **Firmware updater** (`Updater`, `UpdaterSafety`, `UpdaterSteps`): sessions, streaming to flash, commit rules.
- **Pilot measurement** (`PilotSamples`, `PilotMeasure`, `PilotLimits`, `PilotStatus`, `PilotReading`):
  integer square root, outlier removal, duty cycle, hysteresis, rotating snapshots.
- **Mains monitor** (`PowerSafety`, `PowerVerdict`): debounced edges, mean frequency, verdict.
- **WebSocket send loop** (`WebSocketSend`): fragmentation and its inverse.

`Alternation`, `Arith`, `CInt`, `Common` and `PilotLevel` hold what several of these share.

Each component has a value-level specification (`Step`, `Apply`, `Written`, `Queried`, `Processed`, ...)
and, where the source updates fields in place, a class whose methods are proved to do exactly what
the specification says. The theorems about runs are lemmas about the specification. The `Steps` modules
state the whole effect of a step in terms of the inputs alone, without the table or the branches that
compute it.

## What the libraries are taken to do

The sources of libmcu and littlefs are not part of this model. It relies on the following.

- `fsm_step` takes the first row in table order whose state matches and whose guard holds, runs its
  action, sets the state, and calls the change callback if the state differs. The initial state is
  the zero enumerator.
- A ring buffer is a bounded byte queue: a write takes what fits, a peek shows a nonempty contiguous
  prefix, and consuming more than is held consumes nothing.
- A list is a sequence.
- Starting and stopping an application timer is independent of enabling and disabling it.
- `retry_*` calls may answer anything. Interface calls, DFU calls, the downloader and the transport
  may fail at any time.
- An append to a file takes at least one byte of what it is given and does not fail.
- File names made from different timestamps are different, and the directory lists each file once.

Clocks, safety verdicts, pilot readings and call results are parameters. Calls made under one mutex,
and timer and interrupt handlers, are single steps. Signed arithmetic that overflows wraps.

## Results that differ from what the code or its documentation suggests

- A configured maximum from 51.6 A up to 55 A makes the pilot advertise more than the maximum
  (`AdvertisesAtMostIffOutsideGap`).
- A fault seen in B in the same step in which the vehicle asks for power closes the relay for one
  step (`FaultEnergisesIff`). While the reading keeps toggling between 9 V and 6 V, the fault state is
  never reached (`TogglingNeverFaults`). With a steady reading two steps are enough.
- A clock that goes back makes fault recovery due before its six seconds (`LeavesFaultEarlyIff`).
- `logfs_write` reads every part after the second at the wrong offset, so a log longer than the free
  room plus one cache is stored wrongly (`TakesPrefixIff`). A full cache makes a write return 0
  (`TakenLength`).
- `logfs_delete` before the first scan deletes the file and answers that there is none
  (`DeleteConserves`). A log that needs several flushes may evict one file more than the limit asks for,
  since each flush makes room for a new file (`WriteExactly`).
- A size limit of 0 is documented as unlimited and makes every nonempty write fail
  (`ZeroSizeLimitRefusesAll`). `logfs_clear` before the first scan deletes nothing (`ClearConserves`).
- A lookup of an absent id whose slot holds another id leaves a freed entry in the cache
  (`QueryRefines`). An update without a parent id stores the parent of the id that holds the slot, or
  erases the stored parent when the slot is empty (`ParentKeptIff`). The all-zero id finds tombstones
  (`ZeroIdFoundIff`). The header says that `uid_delete` acts on memory only; the code and this model
  erase the record too.
- An address acquired before a connect call counts as the answer to it, and may belong to an earlier
  connection (`ConnectedWithoutAnswerIff`, `StaleAddressReached`).
- After a first chunk that is exactly the image header the next chunk is taken for a header again. If it
  passes as one and is at least as long, it loses its first bytes (`KeptIsStreamIff`); if it does not
  pass, the session fails (`HeaderRefusedIff`).
- `sqrt_u32` divides by zero on the largest 32-bit value (`FirstStepVanishesIff`), which its caller
  never gives it (`CalculateStandardDeviation`).
- The reported peak and the reported low may be outliers, and then decide the status
  (`StatusIsOfKeptIff`, `SpikeUnplugs`, `SpikeHidesDiodeFault`).
- The default downward boundary of status B is given as 7.25 V and is 20 mV below it (`DefaultsOnLine`).
- With more than 1581 samples outlier removal may discard every sample (`AlwaysKeptIff`). The default is
  500 samples, so this needs another configuration.
- `netmgr_connected` stays true after a failed ping has ended the connection
  (`ConnectedAnswersDisagree`).
- After an incomplete transport write the WebSocket send loop puts the rest into a further frame, so the
  frames it announced do not reassemble to the message although the call succeeds
  (`SentReassemblesIff`).
- One second of 50 Hz mains has too few edges for the mains monitor. It keeps them, so the next second
  has enough, and the verdict on good 50 Hz mains alternates every second (`FiftyHertzAlternates`).

## Model

| member | source | states |
|---|---|---|
| `Iec61851.BestDutyIffOutsideGap` | src/iec61851.c:186-218 | from 6 A up the encoded duty is the largest in 10..96 whose decoded current does not exceed the request, exactly outside 51.6 A to 55 A (Tables A.7 and A.8 of IEC 61851-1) |
| `Iec61851.AdvertisesAtMostIffOutsideGap` | src/iec61851.c:186-218 | for every request the advertised current stays within it exactly outside the gap |
| `Iec61851.DutyRoundTrip` | src/iec61851.c:186-218 | decode then encode is the identity exactly on 10..96 and 100 |
| `Iec61851.DecodedCurrent` | src/iec61851.c:186-203 | the decoded current is 0 outside 8 to 97 percent, 6 A up to 10, rises by 0.6 A a percent to 85 and by 2.5 A from 86 to 96, and is 80 A there and at 97 (Table A.8 of IEC 61851-1) |
| `Iec61851.EncodedDutyRange` | src/iec61851.c:205-218 | no request switches the pilot off, and only requests of at least 6 A give PWM |
| `Iec61851.ControlPort.SetCurrent` | src/iec61851.c:64-107 | the pilot output and its shadow copy both become the encoded duty, nothing else changes |
| `Iec61851.ControlPort.StartPowerSupply` | src/iec61851.c:124-129 | the relay and its shadow flag are switched on together |
| `Iec61851.ControlPort.StopPowerSupply` | src/iec61851.c:131-136 | the relay and its shadow flag are switched off together |
| `FreeConnector.FirstRow` | src/charger/free/free_connector.c:251-284 | the row taken fires and no earlier row does |
| `FreeConnector.FreeCharger.Act` | src/charger/free/free_connector.c:143-249 | every action changes duty, relay and error as specified and nothing else |
| `FreeConnector.FreeCharger.ProcessStep` | src/charger/free/free_connector.c:324-348 | a table scan, the action, the time stamp and the notified events are those of `Step` |
| `FreeConnector.FreeCharger.Call` | src/charger/connector.c:410-453 | enabling, disabling and processing do what `Apply` says; a disabled connector does nothing |
| `FreeConnectorSafety.TableShape` | src/charger/free/free_connector.c:251-284 | each row is one of the listed moves with its action, and rows of a state lie together |
| `FreeConnectorSafety.RowKeepsInv` | src/charger/free/free_connector.c:143-284 | every row keeps relay and duty tied to the state whatever the inputs do between guards |
| `FreeConnectorSafety.PowerFollowsState` | src/charger/free/free_connector.c:143-322 | in every run the relay is closed exactly in C and D, the duty is fixed by the state, a maximum below 6 A never closes the relay, and a closed relay over-advertises exactly in the encoding gap |
| `FreeConnectorSafety.NotificationsTrackPower` | src/charger/free/free_connector.c:286-344 | in every run CHARGING_STARTED and CHARGING_ENDED strictly alternate with the relay, and ERROR and ERROR_RECOVERY with state F |
| `FreeConnectorSafety.EndBetweenStarts` | src/charger/free/free_connector.c:286-322 | between two CHARGING_STARTED there is a CHARGING_ENDED, between two ERROR an ERROR_RECOVERY |
| `FreeConnectorSafety.StartBeforeEnd` | src/charger/free/free_connector.c:286-322 | every CHARGING_ENDED has a CHARGING_STARTED before it and since the last one, and so for ERROR_RECOVERY and ERROR |
| `FreeConnectorSafety.UnexpectedRowsNeverFire` | src/charger/free/free_connector.c:278-283 | in every reachable F the only row that can fire is recovery |
| `FreeConnectorSafety.StepInFault` | src/charger/free/free_connector.c:123-141 | a step in F recovers to A exactly when recovery is due, and otherwise changes nothing |
| `FreeConnectorSafety.FaultLastsSixSeconds` | src/charger/free/free_connector.c:123-141 | on a clock that does not go back, leaving F takes at least 6 s, across enable, disable and any number of steps |
| `FreeConnectorSafety.FaultStaysSixSeconds` | src/charger/free/free_connector.c:123-141 | the same from the step of any run that enters F |
| `FreeConnectorSafety.EarlyRecoveryIff` | src/charger/free/free_connector.c:123-141 | recovery is due before its 6 s exactly when the power is good, there is no emergency stop, and the clock went back, but not to within 6 s of a whole 32-bit turn |
| `FreeConnectorSafety.LeavesFaultEarlyIff` | src/charger/free/free_connector.c:123-141 | a step of any run leaves F early exactly in that case |
| `FreeConnectorSafety.FaultStep` | src/charger/connector.c:217-239 | one step in which every guard sees a fault and one pilot reading reaches F exactly when the reading asks for no ordinary move |
| `FreeConnectorSafety.FaultWithinTwoSteps` | src/charger/free/free_connector.c:251-284 | from every reachable state but E two such steps end in F, with the relay open, exactly when the two readings do not ask for two moves in a row; one reading never does |
| `FreeConnectorSafety.FaultIsHeld` | src/charger/free/free_connector.c:123-131 | F is held while the fault lasts, however the readings change |
| `FreeConnectorSafety.FaultEnergisesIff` | src/charger/free/free_connector.c:260-264 | in every run one such step closes the relay exactly when it is in B, the maximum is at least 6 A, and the vehicle asks for power |
| `FreeConnectorSafety.PluggingInReachesB` | src/charger/free/free_connector.c:251-261 | a run that reaches B, for every maximum |
| `FreeConnectorSafety.FaultAvoidedIff` | src/charger/free/free_connector.c:251-284 | any number of such steps avoids F exactly when every reading asks for an ordinary move from where the one before led |
| `FreeConnectorSafety.TogglingNeverFaults` | src/charger/free/free_connector.c:260-270 | so with a reading that toggles between 9 V and 6 V F is never reached, in any number of faulty steps |
| `FreeConnectorSteps.StepExactly` | src/charger/free/free_connector.c:251-344 | for a step of any run whose guards see the same readings, the next state, pilot, relay, time stamp, error and notifications, from state, pilot reading, maximum, input power with uptime, emergency stop, and output power with the time since the last change |
| `FreeConnectorSteps.StepTells` | src/charger/free/free_connector.c:286-344 | whatever the guards see, the time is stamped exactly on a change of state, and each of the seven notifications is given exactly on its moves |
| `FreeConnectorSteps.OutputPowerEndsCharging` | src/charger/connector.c:226-231 | while charging with everything else good, output power that is bad more than 2 s after the last change leads to F with the relay open, and anything else changes nothing |
| `FreeConnectorSteps.SwitchingExactly` | src/charger/connector.c:410-453 | enabling starts the time anew and is notified, disabling stops the steps, and neither touches anything else |
| `LogIndex.InsertUpdates` | src/fs/logfs.c:79-97 | insertion updates the index as a map and keeps it strictly sorted |
| `LogIndex.RemoveDeletes` | src/fs/logfs.c:126-138 | deletion removes the key from the map and keeps the order |
| `LogIndex.SortedUnique` | src/fs/logfs.c:177-191 | a sorted index is determined by its map, so a scan's result does not depend on the listing order |
| `LogIndex.EvictsShortestPrefix` | src/fs/logfs.c:193-227 | what is evicted is the shortest prefix of the sorted index whose removal meets both limits |
| `LogIndex.EvictedDropsOldest` | src/fs/logfs.c:193-227 | entries are kept or dropped whole and every dropped one is older than every kept one |
| `LogFsSafety.FlushedMirrors` | src/fs/logfs.c:229-267 | after a flush the index lists exactly the files on disk with their sizes, and the cache is empty |
| `LogFsSafety.FlushedWithinLimits` | src/fs/logfs.c:193-267 | every flush ends with at most `max_logs` files and at most max(`max_size`, cache capacity) bytes |
| `LogFsSafety.FlushMovesCache` | src/fs/logfs.c:239-267 | a flush moves the cache to the end of its file and loses nothing but the evicted files |
| `LogFsSafety.WriteAppends` | src/fs/logfs.c:269-297 | a write returns the number of bytes taken, and every stored stream is a suffix of the old one followed by them |
| `LogFsSafety.TakenLength` | src/fs/logfs.c:284-296 | a full cache takes nothing, any other takes the whole log |
| `LogFsSafety.TakesPrefixIff` | src/fs/logfs.c:284-294 | the bytes taken are those given, for all logs of a length, exactly when the cache is full or the log fits the free room plus one cache |
| `LogFsSafety.ShortWriteIsFaithful` | src/fs/logfs.c:269-297 | a log no longer than the cache is accepted from its start |
| `LogWrites.WriteExactly` | src/fs/logfs.c:269-297 | the flushes of a write, each with its file, its bytes and the room it asks for, what each leaves on disk, what stays in the cache, and the returned count |
| `LogWrites.FlushEvicts` | src/fs/logfs.c:193-267 | a flush keeps the most of the newest files that leave the room it asks for, and appends the cache |
| `LogWrites.EvictsToUnique` | src/fs/logfs.c:193-227 | there is only one such choice of files |
| `LogWrites.FlushExactly` | src/fs/logfs.c:378-383 | an explicit flush asks for room for what is cached and no more |
| `LogWrites.FittingWriteLosesNothing` | src/fs/logfs.c:269-297 | if the files, the cached bytes and the log are within the size limit, and the files before the last flush leave room for one more, every stream is the old one followed by the bytes taken |
| `LogFsSafety.NothingReordered` | src/fs/logfs.c:239-383 | in every run of writes, flushes, deletes and clears each file followed by the pending cache is a contiguous suffix of the bytes accepted; the index is empty or mirrors the disk; limits once met stay met |
| `LogFsSafety.DeleteConserves` | src/fs/logfs.c:140-149 | deleting removes the file, affects no other stream, keeps the index in step, and answers 0 exactly when the file was there and the index filled |
| `LogFsSafety.ClearConserves` | src/fs/logfs.c:357-376 | clearing empties the disk exactly when the index was filled or there was nothing |
| `LogFsSafety.ZeroSizeLimitRefusesAll` | src/fs/logfs.c:274-276 | with a size limit of 0 exactly the empty log is accepted |
| `LogStore.LogFileSystem.AddListSorted` | src/fs/logfs.c:79-97 | the list walk inserts or replaces as specified |
| `LogStore.LogFileSystem.ScanDir` | src/fs/logfs.c:177-191 | a scan in any listing order builds the one sorted index of the disk |
| `LogStore.LogFileSystem.ReclaimByCount` | src/fs/logfs.c:193-206 | deletes oldest files until the count limit leaves room, as part of the combined eviction |
| `LogStore.LogFileSystem.ReclaimBySize` | src/fs/logfs.c:208-227 | deletes further oldest files until the size limit leaves room or none is left |
| `LogStore.LogFileSystem.AppendCache` | src/fs/logfs.c:244-259 | the whole cache reaches the file however peeks and appends split it |
| `LogStore.LogFileSystem.FlushLogcache` | src/fs/logfs.c:239-267 | reclaim, append and index update do what `Flushed` says |
| `LogStore.LogFileSystem.Write` | src/fs/logfs.c:269-297 | the new state and the returned value are those of `Written`, and the state stays valid |
| `LogStore.LogFileSystem.Clear` | src/fs/logfs.c:357-376 | the files of the index and the index itself are gone |
| `UidStore.UidCache.HashUid` | src/uid.c:80-89 | the loop computes 32-bit FNV-1a modulo the capacity |
| `UidStore.FnvVectors` | src/uid.c:80-89 | the hash agrees with the published FNV-1a values of three strings |
| `UidStore.UidCache.ReadEntry` | src/uid.c:135-160 | the scan finds the first record of the id or reaches the end |
| `UidStore.UidCache.GetStatus` | src/uid.c:224-275 | cache hit, promotion from file, and the freed entry are as specified |
| `UidStore.UidCache.SetStatus` | src/uid.c:277-320 | the slot is overwritten in place and the record written through |
| `UidStore.UidCache.Remove` | src/uid.c:322-345 | slot and record of the id are erased, and the result tells whether there was a record |
| `UidStore.UidCache.ClearAll` | src/uid.c:199-374 | the walk over directories and files, in any order of listing, leaves no file, and all slots are emptied |
| `UidStoreSafety.SavedFinds` | src/uid.c:162-179 | saving makes the record the one found for its id and leaves all others |
| `UidStoreSafety.ErasedFinds` | src/uid.c:182-197 | erasing makes the id absent and leaves all others |
| `UidStoreSafety.RecordLiesIn` | src/uid.c:128-133 | the record found for an id lies in the file of its first two bytes |
| `UidStoreSafety.UpdateRefines` | src/uid.c:277-320 | an update is a map update, and every occupied slot still equals its record on file |
| `UidStoreSafety.DeleteRefines` | src/uid.c:322-345 | a delete is a map removal, and the result tells whether the id was in the map |
| `UidStoreSafety.QueryRefines` | src/uid.c:224-275 | a query answers from the map, and keeps the store valid exactly when the id is on file or its slot is empty |
| `UidStoreSafety.StoreIsMap` | src/uid.c:224-374 | from a store opened over any sound record files, every admissible run of updates, deletes, queries and clears replies as the map in the files does, and keeps every occupied slot equal to its record |
| `UidStoreSafety.ZeroIdFoundIff` | src/uid.c:182-197 | in every admissible run the all-zero id is found exactly when it was before or an id of its file that was present has been deleted, and nothing has been cleared since |
| `UidStoreSafety.DeleteBuries` | src/uid.c:182-197 | one delete makes the all-zero id found exactly when it was, or when an id that starts with two zero bytes was present; what is found then is a zero record |
| `UidStoreSafety.ParentKeptIff` | src/uid.c:286-300 | an update without a parent keeps the id's own parent exactly when the slot holds the id, or is empty and there is no parent to lose, or holds an id with the same parent |
| `UidStoreSafety.ParentUnsafeReached` | src/uid.c:286-300 | runs that reach both failing cases, a slot taken over and a slot emptied |
| `UidStoreSafety.UnsafeQueryReached` | src/uid.c:245-274 | a run after which the lookup of any other id answers that there is none and leaves a freed entry in the slot |
| `NetManager.NetEntry.Act` | src/net/netmgr.c:462-699 | every action updates the entry and makes its interface calls as specified, failing or not |
| `NetManager.NetEntry.StepOnce` | src/net/netmgr.c:285-311 | a table scan, the action and the notifications are those of `Step` |
| `NetManager.NetEntry.Handle` | src/net/netmgr.c:733-1010 | interface events, enabling, disabling and steps do what `Apply` says, with the timer's enabling and disabling |
| `NetManagerSafety.CallsAreNested` | src/net/netmgr.c:539-729 | in every run the interface calls are a prefix of (init (enable (connect disconnect)* disable)* deinit)*, a whole word when off, with init open exactly from S1, enable from S3, connect from S5 |
| `NetManagerSafety.StepTakesChoice` | src/net/netmgr.c:701-729 | a step takes the row that the list of decisions gives, in every state and environment |
| `NetManagerSteps.StepExactly` | src/net/netmgr.c:362-729 | for a step of any run, the next state with its delays and timeouts, errors, restart, external state, time stamp, timer, interface calls and notifications, from the entry and the environment |
| `NetManagerSteps.ConnectCalledIff` | src/net/netmgr.c:426-436 | connect is called exactly from S4, enabled, without restart, exhaustion or error, on the first attempt or when the backoff has passed |
| `NetManagerSteps.RequestsTakeEffect` | src/net/netmgr.c:733-1010 | events and switches change only their fields, call and notify nothing, and take effect in the next step |
| `NetManagerSafety.ConnectedExactlyInS6` | src/net/netmgr.c:159-311 | in every run the external state is CONNECTED and the ping timer is started exactly in S6, the timer is enabled exactly while the manager is, and the step after disabling leaves it stopped |
| `NetManagerSafety.DisconnectedBetween` | src/net/netmgr.c:285-311 | two CONNECTED notifications have a DISCONNECTED between them |
| `NetManagerSafety.TeardownInOneStep` | src/net/netmgr.c:637-657 | a restart, a switch-off or exhausted retries close everything open within one step |
| `NetManagerSafety.ReportsConnectedIff` | src/net/netmgr.c:362-444 | from S5 a step reports CONNECTED exactly when the last event is an address and nothing calls for S0, S2 or S4 |
| `NetManagerSafety.ConnectedWithoutAnswerIff` | src/net/netmgr.c:438-444 | in every run a connect call is answered by CONNECTED without any event after it exactly when an address was the last event before it, the call succeeded, and neither retries nor time ran out |
| `NetManagerSafety.StaleAddressReached` | src/net/netmgr.c:438-444 | a run in which that address belongs to the connection before, which a failed ping ended |
| `NetManagerSafety.ConnectedAnswersAgreeIff` | src/net/netmgr.c:845-864 | after a step of any run `netmgr_connected` is true exactly when an address was the last event, is true whenever CONNECTED is the external state, and agrees with it exactly when no address came last or the machine was in S5 or S6 and no switch, restart, retry, error or timeout called it down |
| `NetManagerSafety.ConnectedAnswersDisagree` | src/net/netmgr.c:845-864 | runs in which each of the two answers says connected and the other does not |
| `Updater.FirmwareUpdater.WriteBlocks` | src/updater.c:167-203 | the drain loop writes the ring buffer in order up to the first failing block |
| `Updater.FirmwareUpdater.OnDataReception` | src/updater.c:145-218 | buffering, header handling and writing do what `Received` says |
| `Updater.FirmwareUpdater.FinishDownload` | src/updater.c:220-249 | the event, the DFU calls and the cleared request are as specified |
| `Updater.FirmwareUpdater.StartDownload` | src/updater.c:251-279 | the handle, the event and the failure paths are as specified |
| `Updater.FirmwareUpdater.DispatchEvent` | src/updater.c:281-305 | the callback gets the implied events before and after the event |
| `Updater.FirmwareUpdater.ProcessOnce` | src/updater.c:307-344 | one call of the processing loop does what `Processed` says |
| `Updater.FirmwareUpdater.RequestUpdate` | src/updater.c:346-372 | a request is refused, replaces a pending one, or is accepted |
| `UpdaterSafety.NotifiesSessions` | src/updater.c:220-344 | every run notifies whole sessions, each one of the five listed sequences, then at most the start of one |
| `UpdaterSafety.HandlesAreReleased` | src/updater.c:220-279 | in every run each DFU handle is deleted exactly once, except the one in use, and never used before or after |
| `UpdaterSteps.ProcessExactly` | src/updater.c:220-344 | for a processing call of any run, the state, DFU calls, notifications and return value, from the request, the clock, the chunks and the answers |
| `UpdaterSteps.SessionKeptIff` | src/updater.c:322-339 | a session goes on exactly while the result is in progress, no chunk left an error and 300 s have not passed, and then nothing is called or notified and -EAGAIN returned |
| `UpdaterSteps.SessionStartsIff` | src/updater.c:251-321 | a session starts exactly for a request whose date has come when both preparations succeed |
| `UpdaterSteps.LateNeverCommits` | src/updater.c:325-337 | from 300 s on a session ends without a commit, as timed out |
| `UpdaterSteps.RequestTakesEffect` | src/updater.c:346-372 | the answer to a request, and that its date decides when it starts |
| `UpdaterSafety.RingIsBounded` | src/updater.c:205-218 | the ring buffer never holds more than 4096 bytes, failing writes or not |
| `UpdaterSafety.RefusedLeaveNoTrace` | src/updater.c:346-355 | a run without the requests it refuses has the same state, DFU calls and notifications |
| `UpdaterSafety.StreamReachesFlash` | src/updater.c:145-218 | in every run, when all header checks and DFU writes of the session succeed, chunks of at most 4096 bytes leave no error and an empty ring buffer, and flash holds the stream minus its header exactly when the chunk lengths take a header off once |
| `UpdaterSafety.ImageIsInstalled` | src/updater.c:220-344 | the call that ends such a download in time commits that image on the open handle and notifies DOWNLOADED, START_INSTALLING, INSTALLED, REBOOT_REQUIRED |
| `UpdaterSafety.HeaderRefusedIff` | src/updater.c:145-165 | a nonempty chunk is refused as a header exactly while nothing has been written and it does not pass as one, even after a header |
| `UpdaterSafety.KeptIsStreamIff` | src/updater.c:145-218 | for chunks of at most 4096 bytes flash gets the stream minus its header exactly when the chunk lengths take a header off once |
| `UpdaterSafety.CommitsWhatWasHeard` | src/updater.c:205-249 | in every run a commit is made only without any error, on what is kept of all chunks received for that handle |
| `UpdaterSafety.ErrorEndsSession` | src/updater.c:187-249 | after a write error nothing more is written, nothing is committed, and the session ends |
| `PilotSamples.SqrtU32` | src/pilot.c:128-143 | Newton's iteration in 32 bits gives the exact floor of the square root |
| `PilotSamples.FirstStepVanishesIff` | src/pilot.c:134-140 | the first step wraps to 0 exactly on the largest value |
| `PilotSamples.CalculateStandardDeviation` | src/pilot.c:145-160 | for every buffer the loop gives the root of the 32-bit sum of squares over the count |
| `PilotSamples.ComputedIsTrueIff` | src/pilot.c:145-160 | for deviations of 15 bits that is the true truncated deviation exactly when the mean is 0 or the sum of squares fits 32 bits |
| `PilotSamples.SomeWithinDeviation` | src/pilot.c:145-160 | in every nonempty buffer some sample lies within that deviation of that mean |
| `PilotMeasure.RemoveOutliers` | src/pilot.c:335-373 | for every buffer sum, counts and extremes are those of the kept samples and the first sample, with 16- and 32-bit wrap-around |
| `PilotMeasure.CleanKeepsOne` | src/pilot.c:335-373 | while the sum of squares fits 32 bits at least one sample is kept, kept plus outliers is the input, sum and count describe the kept ones |
| `PilotMeasure.KeepsOneIff` | src/pilot.c:335-373 | in every nonempty buffer a sample is kept exactly when some sample's distance is within the noise tolerance or its square times the count is within the 32-bit sum of squares |
| `PilotLimits.TwoLevelsKeepNoneIff` | src/pilot.c:335-373 | of two levels in equal number no sample is kept exactly when they are further from their mean than the noise tolerance and their sum of squares does not fit 32 bits |
| `PilotLimits.AlwaysKeptIff` | src/pilot.c:335-385 | whatever 12-bit samples arrive and whatever the cutoff, every nonempty side keeps a sample for up to 1581 samples, and, with a noise tolerance below 1582 mV, for no larger sample count |
| `PilotMeasure.ExtremesAreKeptIff` | src/pilot.c:347-365 | the reported peak is a kept sample exactly when the first sample is at most the mean plus the tolerance, the reported low exactly when it is at least the mean minus the tolerance |
| `PilotReading.StatusIsOfKeptIff` | src/pilot.c:347-411 | the status is the one of the largest kept high and the smallest kept low sample exactly when an outlier that comes first neither hides a diode fault nor, without one, lifts the peak over a limit |
| `PilotReading.NextStatusIsOfKeptIff` | src/pilot.c:504-523 | the same for the status that is reported from any previous status, for boundaries whose bands do not overlap |
| `PilotReading.SpikeUnplugs` | src/pilot.c:347-411 | 500 converter values, the default number, on which with the default parameters a vehicle in C is taken for unplugged although every kept sample shows C |
| `PilotReading.SpikeHidesDiodeFault` | src/pilot.c:347-411 | 500 converter values on which with the default parameters the diode fault that the kept samples show is not reported |
| `PilotMeasure.DutyIsPercentage` | src/pilot.c:215-238 | the duty is the high share of all samples to the nearest percent, between 0 and 100 |
| `PilotMeasure.WaveformDescribes` | src/pilot.c:335-385 | the waveform holds number and sum of the kept samples of each side, all on their side of the cutoff |
| `PilotMeasure.MillivoltBound` | src/driver/adc122s051.c:52-57 | a 12-bit sample converts to at most 3296 mV |
| `PilotLimits.FewSamplesDoNotWrap` | src/pilot.c:610-641 | with up to 1581 samples of 12 bits, so with the default 500, and any cutoff the sum of squares and the distances of both sides stay within those bounds |
| `PilotMeasure.Sampler.OnAdcSample` | src/pilot.c:413-439 | a sample goes to the buffer, count and sum of its side |
| `PilotMeasure.Sampler.Measure` | src/pilot.c:441-479 | splitting and cleaning give the waveform of the samples |
| `PilotStatus.SettlesIffHysteretic` | src/pilot.c:387-411 | for ordered boundaries repeating a reading never changes the status again exactly when the downward limits a to c do not exceed the upward ones and the upward diode limit not the downward one |
| `PilotStatus.OneBandOneChange` | src/pilot.c:504-523 | readings in one band change the status at most once from any previous status |
| `PilotStatus.DefaultsChangeOnce` | src/pilot.c:610-641 | so with the default boundaries readings in one band change the status at most once |
| `PilotStatus.DefaultsOnLine` | src/pilot.c:616-636 | the default boundaries lie within 1 mV of one line over the voltages given for them, but for 7.25 V, which is 20 mV low |
| `PilotStatus.BandHoldsStatus` | src/pilot.c:504-523 | inside a band both of its statuses are held and every other one moves to one of them |
| `PilotStatus.DecidesOnceIffBanded` | src/pilot.c:504-523 | for ordered boundaries the two evaluations are one under the upward limits above the previous status and the downward limits from it on, exactly when the bands do not overlap and no downward limit exceeds its upward one |
| `PilotStatus.SnapshotSurvivesTwo` | src/pilot.c:186-213 | a published snapshot is untouched by the next two publications and its buffer is reused by the third |
| `PilotStatus.RotatesFromBoot` | src/pilot.c:186-213 | from boot the three buffers are taken in turn |
| `PilotStatus.SnapshotUnlessUnknown` | src/pilot.c:483-527 | in every run there is a snapshot unless the status is unknown |
| `PilotStatus.PilotMonitor.OnTimeout` | src/pilot.c:483-527 | status, snapshot and callback are as specified, and an anomaly is counted exactly when the status is unchanged and the peak differs from that of the snapshot published before by more than the noise, or either side has too many outliers |
| `PowerSafety.NothingTruncated` | src/safety/power_safety.c:91-129 | in every run stored edges are at least 8 ms apart, so no frequency is truncated to 8 bits |
| `PowerSafety.OkMeansMeasured` | src/safety/power_safety.c:131-206 | a verdict of OK implies a tick of the run less than 2 s ago that drained at least 57 edges with a mean in the band |
| `PowerVerdict.VerdictMeans` | src/safety/power_safety.c:190-206 | in every run STALE exactly when the last measurement or boot is 2 s ago; else SAMPLING_ERROR exactly when the last tick with a live pulse found fewer than 57 edges; else ABNORMAL_FREQUENCY exactly when the frequency measured last is more than 3 Hz off; else OK |
| `PowerSafety.EdgeCounts` | src/safety/power_safety.c:163-188 | in every run an edge counts exactly from 8 ms after the last that did, and the newest 120 are kept |
| `PowerSafety.SteadyMean` | src/safety/power_safety.c:91-129 | 57 or more edges evenly spaced compute to between 1 Hz below the slowest and the fastest interval's frequency |
| `PowerSafety.SixtyHertzMean` | src/safety/power_safety.c:91-129 | 57 or more edges 16 to 17 ms apart compute to 57..62 Hz |
| `PowerSafety.AcceptedIffEnoughEdges` | src/safety/power_safety.c:131-206 | after a tick that sees steady mains of the expected frequency the verdict, at any time, is OK with 57 edges, which it drains, a sampling error with fewer, which it keeps, and stale 2 s after the last measurement |
| `PowerSafety.SlowMainsAlternates` | src/safety/power_safety.c:131-206 | in every run steady mains of the expected frequency with 29 to 56 edges between two ticks gives a sampling error after each odd tick and OK after each even one |
| `PowerSafety.FiftyHertzAlternates` | src/safety/power_safety.c:131-206 | so for 50 Hz from boot on, with the verdict by name for any number of seconds, any later time and across the wrap of the 32-bit clock |
| `PowerSafety.PowerMonitor.OnGpioEvent` | src/safety/power_safety.c:163-188 | debouncing and rotation of the buffer are as specified |
| `PowerSafety.PowerMonitor.CalcFreq` | src/safety/power_safety.c:91-129 | the loop drains the buffer and returns the least and the greatest frequency as it keeps them, and the rounded mean |
| `PowerSafety.ExtremesBound` | src/safety/power_safety.c:112-123 | both are frequencies of intervals, none exceeds the greatest, and none is below the least if the first is not 0 |
| `PowerSafety.PowerMonitor.ProcessSamples` | src/safety/power_safety.c:131-154 | a tick does what `Ticked` says, with a clock value of its own for each of its three readings |
| `WebSocketSend.SendExact` | ports/esp-idf/websocket/esp_websocket_client.c:601-679 | a call that fails a check, the lock or the buffer sends nothing and returns -1; any other does what the loop does |
| `WebSocketSend.Send` | ports/esp-idf/websocket/esp_websocket_client.c:640-670 | for a transport that answers anything the loop ends, with the writes of `Sent` and the length, or those before the failing write and its answer |
| `WebSocketSend.NothingLost` | ports/esp-idf/websocket/esp_websocket_client.c:640-668 | a call that does not fail has handed over its payload whole and in order, one that fails a prefix of it |
| `WebSocketSend.TakenIsAnswered` | ports/esp-idf/websocket/esp_websocket_client.c:648-667 | each write takes what the transport answered, at most its frame, and at least one byte of a frame with data |
| `WebSocketSend.FailureIsAnswered` | ports/esp-idf/websocket/esp_websocket_client.c:651-653 | a call that fails returns the answer of the write after the last that succeeded |
| `WebSocketSend.SentReassemblesIff` | ports/esp-idf/websocket/esp_websocket_client.c:640-668 | the frames of a call that does not fail reassemble to its payload, under section 5.4 of RFC 6455, exactly when it carries FIN, is not a continuation, and every write was complete |
| `WebSocketSend.ReassemblesIff` | ports/esp-idf/websocket/esp_websocket_client.c:640-668 | for every opcode, payload and buffer size the frames reassemble to the payload under section 5.4 of RFC 6455 exactly when FIN is given and the opcode is not continuation |
| `WebSocketSend.PiecesShape` | ports/esp-idf/websocket/esp_websocket_client.c:640-668 | the opcode is on the first frame only, FIN on the last only, no frame exceeds the buffer, nothing is lost |

## Left out

- Storage errors in the log file system and the UID store: reads, writes, appends and deletes are taken to succeed.
- `logfs_read`, `logfs_size`, `logfs_count`, `logfs_dir`: each reads files or the index and changes nothing.
- `Iec61851.ControlPort`: failures of the PWM and relay drivers, which the source ignores.
- Metering calls, metrics, logging, rate limiting and allocation failure.
- The list of network interfaces and its priorities: one interface is driven, as `pick_netif` keeps the current one.
- Tasks and task lists of the network manager: a queued task is only a guard that changes no state of the entry.
- `PowerSafety.OkMeansMeasured`: "less than 2 s ago" is the 32-bit millisecond difference that the source computes.
- `UidStore.UidCache.ClearAll`: does not model the buffers in which the walk builds its paths.
- Update callbacks of the UID store and the runner callback of the updater.
- Data races on flags such as `pilot.running`, and real thread scheduling.
- Register drivers, ports, wiring and the OCPP adapter: what they do is decided by hardware, SDK and library code that is not part of the repository.
- Command line, buzzer, configuration table, URL and MAC helpers: each is one lookup or conversion without state, so no property spans its operations.
