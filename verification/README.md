# Verified model of OpenRSP

OpenRSP is a driver for SDRplay receivers, split into a daemon that owns the hardware and a client
library that offers the SDRplay API. This project models the parts of it that are hard to get right
and proves what they promise, for every input, every run or every interleaving:

* **The IQ path.** A socket reader stores frames in a slot queue (`SlotQueue`, `IqQueue`), a worker
  runs the signal processing and numbers the frames (`LaneNumbering`), and a callback thread hands
  chunks to the application through a second ring (`StreamRing`, `StreamResets`, `StreamQueue`).
  `Pipeline` is the whole path as one transition system with a step for every region held under a
  lock: daemon, both directions of the socket, reader, worker, callback thread, the API thread that
  swaps tuner or mode, and an updater. `PipelineSafety` proves its invariant, `PipelineTheorems` the promises that
  follow, and `PipelineProgress` that from every reachable state a swap can be completed and, after a
  refused swap or an update, the application goes on hearing frames.
* **Ownership.** `DuoSession` is the RSPduo master and slave session, as three shapes and as the
  nine-field record that carries them. `DaemonClaims` and `DaemonState` add the single owner, the
  API-lock lease, the client table and the daemon's own writes into the session record,
  `DaemonEvents` the events that clients are sent and the way out of a session, `DaemonGrants` who is
  granted what and for how long, and `StreamWrites` the stream thread that writes frames beside the
  daemon's main loop. `ApiLock` is the lock over threads and processes that the lease implements. `Lifecycle` is the API device
  from open to close, with every stage of initialisation able to fail.
* **Filters.** `AdsbFilter`, `LowIf` and `Decimator` are three in-place filters with three kinds of
  history buffer. `Fir` holds what they share: the plain convolution over the last inputs of a
  stream that each of them refines. `Frames` cuts a stream into frames.
* **Small machines.** `SyncSlots`, `SyncWait` and `SyncUpdate` (boundaries on the circle of 32-bit
  sample numbers, waiting for them, and the scheduler that holds them), `Framing` (messages over
  partial reads, interruptions and timeouts) and `RemovalTracker` (a debounced notification).
  `Word32` is 32-bit arithmetic, `Indices` the index into a ring and `Wrappers` an optional value.

State that the C code changes in place is a class over fields and arrays. Each of its methods is
proved to do what a function on values says, and the theorems over whole runs are about those
functions. What the operating system, the radio and the peer answer is a parameter of each step.

In some places the code differs from what is written about it, or from what a reader may expect.
The model follows the code, and lemmas give the exact condition and a failing input.

* The header of the scheduler says that a period of zero disables scheduling. In the code it arms a
  boundary that fires exactly once (`SyncSlots.ScheduleArms`, `SyncSlots.ScheduleZeroFiresOnce`).
* Asking twice for the next boundary at one sample may move it twice, if its period exceeds 2^31
  (`SyncSlots.NextIdempotent`, `SyncSlots.NextMovesTwice`).
* Waiting for a boundary and consuming it needs the boundary to be less than 2^31 samples ahead, and
  several boundaries to lie within half the circle. Otherwise the wait ends at once and consumes
  nothing, or misses a category (`SyncWait.SingleAlwaysDue`, `SyncWait.EarliestEndDue`,
  `SyncWait.HalfAheadNotDue`, `SyncWait.HalfAheadOrder`, `SyncWait.FarApartNotDue`).
* The change marks of an evicted frame move to the frame that evicts it, whatever its lane. In dual
  mode a mark can therefore reach the other lane (`StreamRing.EvictionKeepsLane`,
  `StreamRing.EvictionCanChangeLane`).
* The stream thread picks a descriptor and writes to it later. A slave that is closed in between is
  missed, and its descriptor may by then belong to another client
  (`StreamWrites.WritesReachTheChosen`, `StreamWrites.SlaveCanBeMissed`).
* Stopping the worker empties the ring of slot numbers but leaves the listed slots marked as queued
  (`IqQueue.IqQueue.StopWorker`).

## Model

| member | source | states |
|---|---|---|
| `SlotQueue.RunSound` | compat/daemon_backend.c:188-311 | in every interleaving of reader and worker over two or more slots, the newest frame is always accepted, occupied slots never exceed the capacity, and every frame that left the queue either entered the callback or was counted as dropped |
| `SlotQueue.ArrivalExact` | compat/daemon_backend.c:286-309 | after every run, a further frame joins the waiting ones and nothing is lost while a slot is free; only if waiting and active frames occupy every slot is the oldest waiting frame given up and counted |
| `SlotQueue.WorkerExact` | compat/daemon_backend.c:199-217 | after every run, the worker takes the oldest waiting frame exactly if it is in no callback, and finishing frees the slot without touching the waiting frames |
| `SlotQueue.DeliveredInOrder` | compat/daemon_backend.c:188-220 | over every run the callbacks see distinct frames in arrival order, exactly those not overwritten, and accepted = delivered + active + queued + dropped |
| `SlotQueue.TakenPositionsExact` | compat/daemon_backend.c:199-211 | the record of frames that entered the callback lists each such frame once, in increasing order, and no other |
| `SlotQueue.DrainedTotal` | compat/daemon_backend.c:222-229 | when the drain condition holds, finished + dropped = accepted |
| `SlotQueue.DrainedAccounts` | compat/daemon_backend.c:222-229 | when the drain condition holds, a frame has finished its callback exactly if it was not overwritten |
| `SlotQueue.SingleSlotRefuses` | compat/daemon_backend.c:286-309 | with a single slot the promise fails: the newest frame is refused exactly while that slot is inside a callback, and a run reaches this |
| `IqQueue.FreeSlotExists` | compat/daemon_backend.c:258-264 | a free slot exists exactly when the ring window and the active slot do not fill the array |
| `IqQueue.IqQueue.constructor` | compat/daemon_backend.c:421-438 | a new queue is valid, empty and all its slots are free |
| `IqQueue.IqQueue.FindFree` | compat/daemon_backend.c:258-264 | returns the first free slot, or the capacity exactly when every slot is occupied |
| `IqQueue.IqQueue.QueueIq` | compat/daemon_backend.c:253-311 | storing a frame in the arrays is the queue's push: with a free slot the count grows by one and nothing is dropped, without one the oldest waiting frame is replaced and the drop counted; the ring window lists exactly the queued slots without repeats, oldest first, and the active slot is not touched |
| `IqQueue.IqQueue.OverwriteOldest` | compat/daemon_backend.c:286-309 | without a free slot the oldest waiting frame is overwritten and counted, and the new one becomes the newest |
| `IqQueue.IqQueue.Take` | compat/daemon_backend.c:199-206 | the worker gets the oldest waiting frame, its slot becomes the only active one and the count falls by one |
| `IqQueue.IqQueue.Finish` | compat/daemon_backend.c:213-217 | after the callback the active slot is free again, the frame is recorded as finished and the waiting ones are untouched |
| `IqQueue.IqQueue.IsDrained` | compat/daemon_backend.c:222-229 | the drain test is exact: nothing waits and no callback runs |
| `IqQueue.IqQueue.StopWorker` | compat/daemon_backend.c:241-251 | stopping empties the ring without freeing its slots, so the slot accounting survives exactly when nothing was queued |
| `StreamRing.LaneContinuity` | compat/sdrplay_api_compat.c:1045-1127 | over every run with evictions, pauses, restarts and any chunk sizes, a callback without reset starts exactly where its lane's previous callback ended, modulo 2^32 |
| `StreamResets.RestartExact` | compat/sdrplay_api_compat.c:1058-1079 | after every run, the delivery begun has a reset exactly if its frame is marked, or its lane has begun none since its epoch started, or it does not start where the lane's last callback ended |
| `StreamResets.SeenExact` | compat/sdrplay_api_compat.c:1062-1077 | the lane's "seen" flag is set exactly if a delivery on it has begun since the stream or its last epoch started |
| `StreamResets.ResetOnlyAtBreaks` | compat/sdrplay_api_compat.c:1045-1127 | over every run of unmarked frames within one epoch, with evictions, clears and any chunking, a callback has a reset exactly if it does not continue its lane |
| `StreamResets.QueueExact` | compat/sdrplay_api_compat.c:1193-1236 | after every run, a paused ring ignores a frame; otherwise it is queued last with its own samples and place, and only in a full ring is the oldest frame evicted and counted, leaving exactly its marks on the new one |
| `StreamRing.MarksNotLost` | compat/sdrplay_api_compat.c:1201-1233 | while the ring is not cleared, a reset or change mark put on a queued frame is reported by a later callback or still carried, however many frames were evicted |
| `StreamRing.SingleLane` | compat/sdrplay_api_compat.c:1201-1233 | while all frames belong to one lane every later callback is on that lane, so marks keep their lane in single-tuner mode |
| `StreamRing.EvictionCanChangeLane` | compat/sdrplay_api_compat.c:1205-1211 | for every capacity: if only the oldest frame of a full ring is marked, and lies on lane A, one more frame on lane B leaves the mark on lane B alone |
| `StreamRing.EvictionKeepsLane` | compat/sdrplay_api_compat.c:1201-1230 | an eviction keeps a mark on its lane if and only if the two frames share a lane or the evicted one is unmarked |
| `StreamQueue.StreamQueue.constructor` | compat/sdrplay_api_compat.c:1136-1143 | a new ring is empty, not paused and has seen no lane |
| `StreamQueue.StreamQueue.QueueStreamCallback` | compat/sdrplay_api_compat.c:1188-1236 | the array ring queues as the value ring does: nothing while paused, eviction of the oldest frame with its marks carried over when full |
| `StreamQueue.StreamQueue.BeginDelivery` | compat/sdrplay_api_compat.c:1058-1079 | the oldest frame is taken out, and it restarts its lane exactly if it is marked, is the lane's first or does not start at the lane's next sample |
| `StreamQueue.StreamQueue.EndDelivery` | compat/sdrplay_api_compat.c:1121-1124 | the delivery ends and nothing else of the ring changes |
| `StreamQueue.StreamQueue.PauseThenWait` | compat/sdrplay_api_compat.c:1154-1160 | pausing only sets the pause |
| `StreamQueue.StreamQueue.ClearQueue` | compat/sdrplay_api_compat.c:1158-1164 | once no delivery is active the ring is emptied and the lanes keep their positions |
| `StreamQueue.StreamQueue.Resume` | compat/sdrplay_api_compat.c:1166-1172 | resuming only clears the pause |
| `StreamQueue.DeliverFrame` | compat/sdrplay_api_compat.c:1081-1120 | for any positive sizes that may change between chunks, the callbacks cover the frame without gap or overlap, only the first carries reset and change marks, and an empty frame makes one callback |
| `StreamQueue.CoversJoin` | compat/sdrplay_api_compat.c:1101-1120 | callbacks that cover a frame concatenate to exactly its samples |
| `LaneNumbering.NumberingClosedForm` | compat/sdrplay_api_compat.c:1253-1274 | if every frame yields n samples and gaps are forward by less than 2^31, a frame's first sample number is n times the distance of its sequence number from the first one, less the frames lost because they did not fit the buffers, modulo 2^32; exactly the first frame submitted and the gap frames carry reset |
| `LaneNumbering.BackwardJump` | compat/sdrplay_api_compat.c:1255-1268 | a jump of 2^31 or more is not counted: the number goes on, agrees with the closed form exactly when the skipped samples are whole turns, and the frame still carries reset |
| `LaneNumbering.FlagsConserved` | compat/sdrplay_api_compat.c:407-414 | over every interleaving of updates and frames, overlong ones included, for each kind of change, changes reported + changes pending = changes added, exactly below 2^32 updates and up to whole turns beyond |
| `LaneNumbering.LaneContext.constructor` | compat/sdrplay_api_compat.c:2013-2031 | a new stream has seen no sequence number and its first callback is pending |
| `LaneNumbering.LaneContext.CountMissing` | compat/sdrplay_api_compat.c:1253-1267 | the gap test counts forward gaps below 2^31 and flags every break of the sequence |
| `LaneNumbering.LaneContext.NumberFrame` | compat/sdrplay_api_compat.c:1253-1346 | one frame in the field-by-field code is one step of the numbering, and a frame too long for the buffers is noted but not submitted |
| `LaneNumbering.LaneContext.NoteUpdate` | compat/sdrplay_api_compat.c:2566-2575 | an acknowledged update adds one pending change of each kind it names and touches nothing else |
| `PipelineSafety.RunSafe` | compat/sdrplay_api_compat.c:2614-2710 | the invariant of the whole path holds after every run of fewer than 2^32 requests, timeouts and failures included; `PipelineTheorems.PausedExactly` adds when delivery is suspended |
| `PipelineTheorems.SwapEpochSafety` | compat/sdrplay_api_compat.c:2644-2703 | in every interleaving, every frame handed to the application was computed only from samples of the swap epoch that the API showed, on a lane active in that configuration, and the first frame on an active lane in each epoch carries reset |
| `PipelineTheorems.CommitIsAlone` | compat/sdrplay_api_compat.c:2869-2980 | while the API thread commits a swap nothing is on a wire, queued or inside the signal processing and the daemon does not stream, so its unlocked writes cannot race |
| `PipelineTheorems.OwnReplyOnly` | compat/daemon_backend.c:375-419 | a request succeeds only if the daemon answered OK to that very request; a late answer to a request that timed out never completes a later one |
| `PipelineTheorems.ReplyMatches` | compat/daemon_backend.c:356-363 | a reply is taken for the waiting request if and only if it is a whole number of 2^32 requests old |
| `PipelineTheorems.RunCounted` | compat/daemon_backend.c:313-365 | after every run, every frame the daemon wrote is on the wire, in the reader's hand or accepted, in order, and each reply knows how many frames are ahead of it |
| `PipelineTheorems.ResponseBarrier` | compat/daemon_backend.c:222-229 | whenever a reply may be published, every frame written ahead of it has finished its callback or was counted as dropped, and no later frame was accepted |
| `PipelineTheorems.PausedExactly` | compat/sdrplay_api_compat.c:2644-2710 | over every run, delivery is suspended exactly from the start of a swap until its epoch is committed or it has failed: a failed swap gives delivery back |
| `PipelineTheorems.AckIsQueued` | compat/sdrplay_api_compat.c:1405-1414 | in every reachable state in which delivery is not suspended, the marks of an answered update are queued as a frame without samples on the lane and at the sample given |
| `PipelineProgress.Settle` | compat/daemon_backend.c:222-229 | from every state that the invariants allow, whatever is in flight, some continuation brings reader, worker, callbacks, wires and updater to rest without disturbing the API thread or the daemon |
| `PipelineProgress.Commit` | compat/sdrplay_api_compat.c:2644-2703 | from every state at rest a run leads to the committed new epoch with local delivery resumed and fresh filters on its lane |
| `PipelineProgress.SwapAlwaysPossible` | daemon/openrspd.c:1565-1663 | from every reachable state with a ready API thread and a running stream thread, some continuation completes any valid swap and the first frame of the new epoch reaches the application with reset: drain, pause and publication cannot block each other |
| `PipelineProgress.SwapCompletes` | daemon/openrspd.c:1565-1663 | in particular every valid swap can be completed from the start |
| `PipelineProgress.PassFrame` | compat/sdrplay_api_compat.c:1238-1346 | from every flowing state one frame can go from the daemon to the application, heard with a reset exactly if its lane is fresh, unseen or not continued, and the stream flows on |
| `PipelineProgress.StreamAlwaysHeard` | compat/sdrplay_api_compat.c:2614-2710 | from every reachable state with a ready API thread and a live stream, also after failed swaps, some continuation makes the application hear further frames of the shown epoch, the last of them without reset |
| `PipelineProgress.RefusedSwapHarmless` | compat/sdrplay_api_compat.c:2866-2879 | from every such state, a swap that the daemon rejects or rolls back can end with the application hearing the old configuration on without reset |
| `PipelineProgress.UpdateHarmless` | daemon/openrspd.c:1664-1706 | the same for an update that the daemon accepts, rejects, or restarts the stream for |
| `DuoSession.ServeKeeps` | daemon/duo_session.c:74-228 | every call keeps the session well formed, a call that is not OK changes nothing and emits nothing, and an event goes to the live peer and never to its source |
| `DuoSession.EventNamesChange` | daemon/duo_session.c:120-228 | each kind of event is emitted if and only if the change it names happened |
| `DuoSession.ServeBalances` | daemon/duo_session.c:120-228 | one call selects a slave exactly when it reports an attach and loses one exactly when it reports a departure |
| `DuoSession.EventBalance` | daemon/duo_session.c:120-228 | over every run of calls by any descriptors, attached = detached + slave disappeared + master disappeared + (1 if a slave is selected), and the session is well formed |
| `DuoSession.RoutesDistinct` | daemon/duo_session.c:230-246 | two lanes never reach one descriptor, and a routed descriptor is a member |
| `DuoSession.RouteExact` | daemon/duo_session.c:235-244 | a running master receives its tuner's lane, a running slave the other, and a lane is routed exactly while its member runs |
| `DuoSession.LanesFollowMembers` | daemon/duo_session.c:230-246 | in every reachable session each lane goes to its running member and to nobody else |
| `DuoSession.SessionStarts` | daemon/duo_session.c:74-151 | from every reachable idle session any two clients can start a session on either tuner and at either rate, and each then receives its own lane |
| `DuoSession.AdmissionExact` | daemon/duo_session.c:74-127 | in every reachable session exactly who is admitted as master or slave, what a repeated request does, and what the others are told |
| `DuoSession.DisconnectClears` | daemon/duo_session.c:201-228 | a descriptor that disconnects holds no role and no lane afterwards |
| `DuoSession.ShutdownSucceeds` | daemon/duo_session.c:153-199 | from every reachable state, stopping and releasing the slave and then the master succeeds and reaches the idle session |
| `DuoSession.MasterFirstRefused` | daemon/duo_session.c:160-188 | the other order is refused with stop-pending exactly while a slave is selected |
| `DuoSession.DuoRecord.constructor` | daemon/duo_session.c:55-67 | the initial record represents the idle session |
| `DuoSession.DuoRecord.DoAcquire` | daemon/duo_session.c:74-127 | acquiring on the nine fields is acquiring on the session, with the same result and event |
| `DuoSession.DuoRecord.DoInitialise` | daemon/duo_session.c:129-151 | initialising on the fields is initialising on the session; a slave starts only under a running master |
| `DuoSession.DuoRecord.DoUninitialise` | daemon/duo_session.c:153-173 | uninitialising on the fields is uninitialising on the session; a master waits for its slave |
| `DuoSession.DuoRecord.DoRelease` | daemon/duo_session.c:175-199 | releasing on the fields is releasing on the session, and the fields of an absent member are cleared |
| `DuoSession.DuoRecord.DoDisconnect` | daemon/duo_session.c:201-228 | disconnecting on the fields is disconnecting on the session; a lost master takes the session down |
| `DuoSession.DuoRecord.DoRoute` | daemon/duo_session.c:230-246 | a running master's tuner gives the master's descriptor, a running slave's the slave's, every other valid tuner none, and an invalid tuner an error |
| `DaemonClaims.RespondKeeps` | daemon/openrspd.c:1241-1534 | a connected client's request, whatever the hardware answers, leaves every claim with a connected descriptor |
| `DaemonClaims.DuoRespondSession` | daemon/openrspd.c:1330-1452 | a session command keeps the session well formed through its rollbacks and rate writes and hands roles only to its caller |
| `DaemonClaims.OwnedNoSession` | daemon/openrspd.c:1255-1452 | while the receiver has a single owner no session command changes anything |
| `DaemonClaims.RemoveClears` | daemon/openrspd.c:1756-1766 | a closed descriptor holds no ownership, role or lease and is no target of any lane |
| `DaemonClaims.ConnectKeeps` | daemon/openrspd.c:1775-1826 | a new connection takes a free entry and disturbs no claim |
| `DaemonClaims.ClaimsAlwaysOk` | daemon/openrspd.c:1979-1998 | after every series of connections, requests and disconnects, owner, both roles and lease holder are unset or connected, an owner and a session never coexist, and the session mode is on exactly when a master is selected |
| `DaemonClaims.TargetsConnected` | daemon/openrspd.c:254-257 | in every reachable state the descriptor chosen for a frame is connected or nobody, and the two lanes of a session get different ones; what the later write reaches is the subject of `StreamWrites` |
| `DaemonClaims.LeaseFreed` | daemon/openrspd.c:1980-1991 | cleaning up all hang-ups of a poll cycle frees the lease if its holder is among them |
| `DaemonClaims.CrashedHolderYields` | daemon/openrspd.c:1980-1998 | a contender ready in the same poll cycle as the crashed holder's hang-up gets the lease |
| `DaemonEvents.SentBalances` | daemon/openrspd.c:1715-1719 | after every series of connections, requests and disconnects with any hardware results, the attach events sent to clients = the detach and disappearance events sent + (1 if a slave is selected) |
| `DaemonEvents.RequestBalances` | daemon/openrspd.c:1255-1452 | an event withheld with a refused answer never reports a change that happened |
| `DaemonEvents.EventsReachPeers` | daemon/openrspd.c:435-442 | an event sent goes to a connected descriptor other than the one that caused it |
| `DaemonEvents.SlaveMayLeave` | daemon/openrspd.c:1366-1398 | from every reachable state the slave's stop and release requests take effect, whatever the hardware answers, and change nothing else |
| `DaemonEvents.MasterMayLeave` | daemon/openrspd.c:1366-1398 | the same for a master without a slave, which ends the session mode |
| `DaemonEvents.LeaveAnswers` | daemon/openrspd.c:1366-1398 | those requests are answered with OK, but for the master's when the hardware does not shut down cleanly |
| `DaemonEvents.SessionCanEnd` | daemon/openrspd.c:1366-1398 | from every reachable state of the daemon the requests of the slave and then of the master end the session, leave every other claim as it was, and balance the events sent |
| `DaemonEvents.MembersHaveEntries` | daemon/openrspd.c:1255-1302 | the members of a session always have the table entries that those requests come from |
| `DaemonGrants.LockAnswer` | daemon/openrspd.c:1241-1250 | after any steps, a lock request is granted exactly if the lease is free or the caller's own; otherwise the answer is busy and no claim changes |
| `DaemonGrants.LeaseStep` | daemon/openrspd.c:1241-1254 | a held lease changes exactly with the holder's own unlock request or the removal of its entry, and is then free |
| `DaemonGrants.LeaseStands` | daemon/openrspd.c:1241-1534 | after any steps and whatever the other clients ask for, the holder keeps the lease until it unlocks or its connection ends |
| `DaemonGrants.LeaseEnds` | daemon/openrspd.c:1251-1254 | either of those frees the lease |
| `DaemonGrants.OwnerAnswer` | daemon/openrspd.c:1473-1518 | after any steps, exactly when the receiver is granted to a client, when the answer is busy, and that a refusal changes nothing |
| `DaemonGrants.OwnerReceives` | daemon/openrspd.c:254-257 | once the receiver is granted, every frame of either tuner goes to that client until it releases the receiver or its connection ends, whatever the others ask for |
| `DaemonGrants.OwnershipEnds` | daemon/openrspd.c:435-474 | the owner's release is always granted, and either way of leaving frees the receiver |
| `DaemonGrants.LaneTargets` | daemon/openrspd.c:254-257 | after any steps a lane goes to its running session member, without a session to the owner, else nowhere |
| `DaemonGrants.SessionCanBegin` | daemon/openrspd.c:1255-1365 | from every reachable state without owner and session, any two clients can start a session on either tuner and at either rate if the radio follows, and each then receives its own lane |
| `DaemonGrants.StartExact` | daemon/openrspd.c:1330-1365 | after any steps, a start is granted exactly if the member is next in order and the radio follows, it then sets that member running, and a refusal changes nothing |
| `DaemonGrants.RateSwapExact` | daemon/openrspd.c:1399-1452 | a change of rate is all or nothing: exactly when it is granted, that the session is then at the rate asked for, and that any other answer changes nothing |
| `DaemonGrants.WaitAnswers` | daemon/openrspd.c:1330-1452 | after any steps, exactly which requests are told to wait for the peer to start or to stop |
| `DaemonGrants.ConnectExact` | daemon/openrspd.c:1813-1825 | after any steps, a new client is stored exactly if an entry is free, and no other entry or claim changes |
| `DaemonState.DaemonState.constructor` | daemon/openrspd.c:1918-1933 | the starting daemon has no client and no claim |
| `DaemonState.DaemonState.HandleLock` | daemon/openrspd.c:1241-1250 | the lease is granted exactly if it is free or the caller's; otherwise the answer is busy and the holder keeps it; every claim stays valid |
| `DaemonState.DaemonState.ReleaseApiLock` | daemon/openrspd.c:476-484 | only the holder's release frees the lease |
| `DaemonState.DaemonState.HandleDuoAcquire` | daemon/openrspd.c:1255-1302 | the handler over the record answers and changes claims as the claims machine does |
| `DaemonState.DaemonState.UndoMasterStart` | daemon/openrspd.c:1341-1353 | writing the master's flag back restores the session before the start and keeps the record valid |
| `DaemonState.DaemonState.UndoSlaveStart` | daemon/openrspd.c:1355-1364 | writing the slave's flag back restores the session before the start and keeps the record valid |
| `DaemonState.DaemonState.HandleDuoStart` | daemon/openrspd.c:1330-1365 | a start that the radio does not follow leaves the session exactly as it was |
| `DaemonState.DaemonState.HandleDuoStop` | daemon/openrspd.c:1366-1378 | a stop takes effect in the session even if the radio reports an error |
| `DaemonState.DaemonState.HandleDuoRelease` | daemon/openrspd.c:1379-1398 | releasing the last member leaves the session mode |
| `DaemonState.DaemonState.HandleSwapRate` | daemon/openrspd.c:1399-1452 | the rate written directly into the session is restored on every failure |
| `DaemonState.DaemonState.HandleAcquire` | daemon/openrspd.c:1473-1518 | ownership is granted only without a session and without another owner |
| `DaemonState.DaemonState.ReleaseClient` | daemon/openrspd.c:435-474 | a leaving client drops its role in the session, else its ownership |
| `DaemonState.DaemonState.RemoveClient` | daemon/openrspd.c:1756-1766 | closing a table entry drops every claim of its descriptor and keeps the rest valid |
| `DaemonState.DaemonState.AcceptClient` | daemon/openrspd.c:1813-1825 | a connection is stored in the first free entry, and refused exactly if there is none |
| `DaemonState.DaemonState.StreamTarget` | daemon/openrspd.c:254-257 | the descriptor chosen for a frame is the owner, or the session's route for its tuner, and is connected at that moment |
| `StreamWrites.RunSafe` | daemon/openrspd.c:233-285 | the invariant of claims, open connections and the stream thread's pending choice holds after every run |
| `StreamWrites.WritesReachTheChosen` | daemon/openrspd.c:254-260 | in every run a frame is written to the connection that it was chosen for if and only if that was not closed in between, which happens to slaves only: frames for the owner and the master always reach them |
| `StreamWrites.ChoiceIsConnected` | daemon/openrspd.c:254-260 | in every reachable state the thread chooses exactly the descriptor that the claims name for the tuner, which is connected, or nothing if they name nobody; a write that follows at once reaches its connection |
| `StreamWrites.HolderStays` | daemon/openrspd.c:1366-1398 | a request that does not join the stream thread takes nobody's ownership or master role away |
| `StreamWrites.HolderStaysOnClose` | daemon/openrspd.c:435-474 | closing a descriptor without joining the stream thread never closes the owner or the master |
| `StreamWrites.SlaveCanBeMissed` | daemon/openrspd.c:437-453 | wherever a running slave may be chosen, closing it before the write sends the frame to a closed descriptor, or to the client that got the descriptor meanwhile |
| `StreamWrites.SlaveRuns` | daemon/openrspd.c:1330-1365 | such a state is reachable |
| `ApiLock.RunSafe` | compat/sdrplay_api_compat.c:1560-1592 | the invariant of threads, processes, connections and lease holds after every run with timeouts and crashes |
| `ApiLock.MutualExclusion` | compat/sdrplay_api_compat.c:1560-1592 | at most one thread in all processes has a positive lock depth, and the lease belongs to it; the lease is granted and freed by the daemon's own handlers of `DaemonClaims` |
| `ApiLock.LeaseFollowsDepth` | compat/sdrplay_api_compat.c:1560-1592 | depth goes from 0 to 1 only with the lease in hand and from 1 to 0 only in the step that asks for its return; inner locks and unmatched unlocks leave the daemon alone |
| `ApiLock.ReleaseReturnsLease` | daemon/openrspd.c:1251-1254 | once the daemon serves the outermost unlock the lease is free |
| `ApiLock.CrashFreesLease` | daemon/openrspd.c:476-484 | a crashed holder's lease is free once the hang-up is noticed |
| `ApiLock.LockCanBeTaken` | compat/sdrplay_api_compat.c:1560-1578 | from every reachable state with a free lease, any thread of an open process can come to hold the lock, whatever the others wait for |
| `ApiLock.LockIsRecursive` | compat/sdrplay_api_compat.c:1576-1592 | in every reachable state the holder may lock any number of times more, each adds one to the depth, and as many unlocks bring back exactly the state before |
| `ApiLock.ClosedHoldsNothing` | compat/sdrplay_api_compat.c:1562-1569 | a process that has closed the API holds no lock until it opens it again, in every continuation |
| `Lifecycle.RunConsistent` | compat/sdrplay_api_compat.c:1511-2195 | after every sequence of calls with every stage failing or not: initialised implies selected implies open; buffers and threads exist exactly while initialised; the daemon connection exists exactly while initialised, or while selected with a duo role |
| `Lifecycle.ShutdownReleasesAll` | compat/sdrplay_api_compat.c:1536-1549 | from every reachable state uninitialise, release and close give back every resource |
| `Lifecycle.InitThenUninit` | compat/sdrplay_api_compat.c:1872-2195 | initialisation succeeds if and only if no stage fails, and uninitialising then brings back the state before it |
| `Lifecycle.StopMustBeAgreed` | compat/sdrplay_api_compat.c:2170-2195 | in every reachable state a duo device whose stop is pending or refused keeps running with everything it holds; in every other case an initialised device stops and gives back its resources |
| `Lifecycle.AnyModeReachable` | compat/sdrplay_api_compat.c:1511-2195 | from every reachable state the device can be brought to stream in every mode |
| `Lifecycle.ApiDevice.constructor` | compat/sdrplay_api_compat.c:1511-1534 | a new device context holds no resource |
| `Lifecycle.ApiDevice.DoOpen` | compat/sdrplay_api_compat.c:1511-1534 | opening starts exactly one event thread, or none if it fails |
| `Lifecycle.ApiDevice.DoClose` | compat/sdrplay_api_compat.c:1536-1549 | closing is refused while a device is selected, and otherwise stops the event thread |
| `Lifecycle.ApiDevice.DoSelect` | compat/sdrplay_api_compat.c:1739-1842 | selecting with a duo role opens the one connection; if that fails nothing stays selected |
| `Lifecycle.ApiDevice.DoRelease` | compat/sdrplay_api_compat.c:1844-1862 | releasing closes the connection if there is one, and is refused while initialised |
| `Lifecycle.ApiDevice.Prepare` | compat/sdrplay_api_compat.c:1879-1959 | buffers exist afterwards exactly if every check and every filter configuration succeeded |
| `Lifecycle.ApiDevice.Connect` | compat/sdrplay_api_compat.c:1960-2012 | on failure the buffers are freed and the connection is closed unless a duo role keeps it |
| `Lifecycle.ApiDevice.Launch` | compat/sdrplay_api_compat.c:2032-2167 | after a failed start, thread, first block or gain update no thread or buffer is left, and the status names the failing stage |
| `Lifecycle.ApiDevice.DoInit` | compat/sdrplay_api_compat.c:1872-2168 | a failing initialisation changes nothing but the note of a pending start, and no object is created twice or lost |
| `Lifecycle.ApiDevice.DoUninit` | compat/sdrplay_api_compat.c:2170-2195 | uninitialising frees threads and buffers; a duo stop that is pending or refused changes nothing |
| `Fir.DoubledRecord` | compat/adsb_filter.c:92-96 | writing a sample at both places keeps a doubled history whose contiguous window is the last inputs |
| `Fir.DoubledUnique` | compat/adsb_filter.c:92-96 | two doubled histories of the same stream agree in every cell that is used |
| `Fir.StoreDoubled` | compat/low_if_dsp.c:71-75 | the two writes of a sample keep the history doubled |
| `Fir.CircularRecord` | compat/sdrplay_api_compat.c:561-563 | writing a sample at the position keeps a ring that holds the last inputs |
| `Fir.CircularUnique` | compat/sdrplay_api_compat.c:561-563 | two rings of the same stream agree in every cell that is used |
| `Indices.RingIndexModulo` | compat/sdrplay_api_compat.c:568-570 | the wrapped index is the remainder that the code computes |
| `Fir.SampledSplit` | compat/low_if_dsp.c:54-90 | decimated outputs of a stream are those of its first part followed by those of its second, with the phase carried over |
| `Fir.SampledCount` | compat/low_if_dsp.c:76-90 | n samples from a fresh state give ceil(n/f) outputs |
| `Fir.CeilCompose` | compat/sdrplay_api_compat.c:1303-1315 | taking every f-th and then every d-th sample takes ceil(n/(f*d)) |
| `AdsbFilter.ClampSample` | compat/adsb_filter.c:14-21 | scaling rounds toward zero, keeps the sign, and saturates to 16 bits only when it must |
| `AdsbFilter.FilteredAt` | compat/adsb_filter.c:86-110 | every output is the convolution over the last taps inputs of the stream, zeros before its start |
| `AdsbFilter.AccumulatorFits` | compat/adsb_filter.c:97-105 | no partial sum overflows 64 bits, for any 32-bit coefficients and 16-bit samples |
| `AdsbFilter.StateIsStream` | compat/adsb_filter.c:92-96 | two filters that were fed the same stream have the same position and the same history |
| `AdsbFilter.AdsbFilter.constructor` | compat/adsb_filter.c:23-84 | a configured filter starts with an empty stream for any coefficients that fit |
| `AdsbFilter.AdsbFilter.Reset` | compat/adsb_filter.c:78-84 | a reset forgets the stream |
| `AdsbFilter.AdsbFilter.Convolve` | compat/adsb_filter.c:97-105 | the inner loop over the doubled history is the convolution, within bounds and 64 bits |
| `AdsbFilter.AdsbFilter.Process` | compat/adsb_filter.c:86-110 | in place, each sample is replaced by its output, no unread input is overwritten, the rest of the arrays is untouched, and a filter that is off changes nothing |
| `AdsbFilter.AdsbFilter.ProcessFrames` | compat/adsb_filter.c:86-110 | for any list of frames the calls together put out the convolution of the stream that the frames carry |
| `AdsbFilter.CutAnywhere` | compat/adsb_filter.c:86-110 | two filters in the same state, given the same samples in two lists of frames cut differently, put out the same samples and end with the same position and history |
| `LowIf.FreshFrame` | compat/low_if_dsp.c:76-90 | from a fresh state output k is the convolution that ends at sample k*factor, and there are ceil(n/factor) of them |
| `LowIf.MixingUndoesTurning` | compat/low_if_dsp.c:57-60 | mixing a signal that was turned by the oscillator gives the signal back, times the oscillator's power |
| `LowIf.TurnMultipliesPower` | compat/low_if_dsp.c:61-64 | a turn multiplies the powers of oscillator and step |
| `LowIf.OscillatorKeepsPower` | compat/low_if_dsp.c:61-69 | with a unit step and a renormalisation that keeps the unit circle, the oscillator has power one at every sample |
| `LowIf.StreamMixedBack` | compat/low_if_dsp.c:54-69 | then a whole baseband stream carried by the oscillator is mixed back exactly, sample by sample |
| `LowIf.ClampNearest` | compat/low_if_dsp.c:7-12 | with rounding to the nearest, the output is the 16-bit value nearest to the sum |
| `LowIf.LowIf.constructor` | compat/low_if_dsp.c:14-48 | a configured converter starts with an empty stream |
| `LowIf.LowIf.TurnOscillator` | compat/low_if_dsp.c:61-69 | the oscillator depends only on the number of samples seen, although the 32-bit sample counter wraps |
| `LowIf.LowIf.Convolve` | compat/low_if_dsp.c:77-83 | the inner loop over the doubled history is the convolution over the last mixed samples |
| `LowIf.LowIf.Process` | compat/low_if_dsp.c:50-91 | in place, output k overwrites an element already read, the outputs are those of the stream, and a factor of one or less changes neither the frame nor the converter |
| `LowIf.StateIsStream` | compat/low_if_dsp.c:61-88 | two converters that were fed the same stream have the same position, phase, oscillator and history |
| `LowIf.LowIf.ProcessFrames` | compat/low_if_dsp.c:50-91 | for any list of frames the calls together put out the decimated convolution of the stream that the frames carry |
| `LowIf.CutAnywhere` | compat/low_if_dsp.c:50-91 | two converters in the same state, given the same samples in two lists of frames cut differently, put out the same samples and end with the same position, phase, oscillator and history; without a conversion neither changes |
| `Decimator.FreshFrame` | compat/sdrplay_api_compat.c:556-583 | from a fresh state output k is the convolution that ends at sample k*factor, and there are ceil(n/factor) of them |
| `Decimator.ChainCount` | compat/sdrplay_api_compat.c:1303-1315 | low-IF conversion by f followed by decimation by d gives ceil(n/(f*d)) samples |
| `Decimator.ClampNearest` | compat/sdrplay_api_compat.c:576-577 | the output is the value of the range nearest to the rounded sum |
| `Decimator.Decimator.constructor` | compat/sdrplay_api_compat.c:514-546 | a configured decimator starts with an empty stream |
| `Decimator.Decimator.Convolve` | compat/sdrplay_api_compat.c:565-575 | the inner loop through the modulo index is the convolution over the last samples |
| `Decimator.Decimator.Process` | compat/sdrplay_api_compat.c:548-584 | in place, outputs overwrite only elements already read and are those of the stream; factor one changes neither the frame nor the decimator |
| `Decimator.StateIsStream` | compat/sdrplay_api_compat.c:561-580 | two decimators that were fed the same stream have the same position, phase and history |
| `Decimator.Decimator.ProcessFrames` | compat/sdrplay_api_compat.c:548-584 | for any list of frames the calls together put out the decimated convolution of the stream that the frames carry |
| `Decimator.CutAnywhere` | compat/sdrplay_api_compat.c:548-584 | two decimators in the same state, given the same samples in two lists of frames cut differently, put out the same samples and end with the same position, phase and history; with factor one, taps or none, neither changes |
| `SyncSlots.PastMultipleFormula` | compat/sync_update.c:42-47 | the least multiple of the period beyond the elapsed samples is the expression computed |
| `SyncSlots.NextAdvances` | compat/sync_update.c:33-50 | a reached boundary moves to the point of its grid that lies 1 to period samples after the current one, also across the wrap |
| `SyncSlots.NextOtherwiseStays` | compat/sync_update.c:33-50 | a boundary not reached, or not periodic, stays |
| `SyncSlots.NextIdempotent` | compat/sync_update.c:33-50 | asking again at the same sample changes nothing if and only if the boundary is not moved at all or the period exceeds the elapsed samples by at most 2^31, which holds for every period up to 2^31 |
| `SyncSlots.NextMovesTwice` | compat/sync_update.c:33-50 | a failing input: with a period of 2^31 + 1 the second call moves the boundary again |
| `SyncSlots.NextMoves` | compat/sync_update.c:33-50 | a move never ends where it began |
| `SyncSlots.GridKept` | compat/sync_update.c:33-92 | however a periodic boundary is advanced and consumed, it stays on its original grid |
| `SyncSlots.OneShot` | compat/sync_update.c:76-92 | over every series of calls a boundary without a period stays where it is, and stays pending exactly until the first consume at or after it |
| `SyncSlots.ScheduleArms` | compat/sync_update.c:18-31 | after scheduling, a named category is due exactly from the given sample on, for every period, zero included, and the others as before |
| `SyncSlots.ScheduleZeroFiresOnce` | compat/sync_update.c:18-31 | a boundary scheduled with period zero fires exactly once, whatever is asked in between |
| `SyncSlots.ScheduleRepeats` | compat/sync_update.c:18-92 | after scheduling with a period and a consume at each of the first n boundaries, the category is due exactly from sample + n * period on |
| `SyncWait.SingleDue` | compat/sdrplay_api_compat.c:424-450 | whenever the wait for one category ends, the category is due if and only if its boundary was not passed, or was passed less than half a circle before that |
| `SyncWait.SingleAlwaysDue` | compat/sdrplay_api_compat.c:424-450 | the wait for one category makes it due whenever it ends if and only if its boundary, as computed from the inputs, was not passed |
| `SyncWait.HalfAheadNotDue` | compat/sdrplay_api_compat.c:431-438 | a failing input: a boundary exactly 2^31 ahead ends the wait at once and nothing is consumed |
| `SyncWait.PickIsOffset` | compat/sdrplay_api_compat.c:431 | which of two boundaries the signed comparison keeps, for all positions on the circle |
| `SyncWait.ChoiceIsLatest` | compat/sdrplay_api_compat.c:424-432 | if the selected boundaries and the present lie within less than half a circle, the target waited for is the latest of them |
| `SyncWait.WaitMakesDue` | compat/sdrplay_api_compat.c:424-450 | with such boundaries, whenever the wait ends, a selected category is due if and only if that is less than half a circle after its boundary |
| `SyncWait.EarliestEndDue` | compat/sdrplay_api_compat.c:424-450 | every selected category is due at the earliest end of the wait if and only if the boundaries and the present lie within less than half a circle, or the target lies exactly half a circle ahead and no selected boundary is passed |
| `SyncWait.HalfAheadOrder` | compat/sdrplay_api_compat.c:424-432 | a boundary exactly half a circle ahead is waited for if it comes after one that lies ahead, and missed if it comes before it |
| `SyncWait.FarApartNotDue` | compat/sdrplay_api_compat.c:424-438 | a failing input: boundaries 0x6000_0000 and 0xc000_0000 at sample 0 give a target that counts as reached while the first is not due |
| `SyncWait.WaitThenConsume` | compat/sdrplay_api_compat.c:2605-2610 | from the advanced boundaries and the loop test alone, for boundaries within less than half a circle: the consume retires a selected one-shot, or moves a selected periodic category by exactly one period, if and only if it comes less than half a circle after that boundary |
| `SyncWait.TimelyConsumed` | compat/sdrplay_api_compat.c:2605-2610 | if every selected category is pending with a boundary less than half a circle ahead, or a reached one and a period below 2^31, a consume within half a circle of the start of the wait does so for all of them |
| `SyncUpdate.SyncUpdate.constructor` | compat/sync_update.c:12-16 | nothing is pending in a new scheduler |
| `SyncUpdate.SyncUpdate.Schedule` | compat/sync_update.c:18-31 | exactly the named categories get the boundary and the period |
| `SyncUpdate.SyncUpdate.Reset` | compat/sync_update.c:52-61 | exactly the named categories lose their boundary and their period |
| `SyncUpdate.SyncUpdate.NextBoundary` | compat/sync_update.c:33-50 | the in-place update is the advance of that one category, and fails without a change if it is not pending |
| `SyncUpdate.SyncUpdate.DueCategories` | compat/sync_update.c:63-74 | exactly the pending categories whose boundary is reached are due |
| `SyncUpdate.SyncUpdate.ConsumeDue` | compat/sync_update.c:76-92 | exactly the named categories that are due are consumed |
| `SyncUpdate.SyncUpdate.LatestTarget` | compat/sdrplay_api_compat.c:416-432 | every selected category is advanced, the latest boundary is kept, and the call fails exactly if one is not pending |
| `SyncUpdate.SyncUpdate.AwaitSample` | compat/sdrplay_api_compat.c:437-446 | the wait ends at the first sample number read that has reached the target, and fails exactly if none does |
| `SyncUpdate.SyncUpdate.WaitAndConsume` | compat/sdrplay_api_compat.c:2605-2610 | choosing the target, waiting, and consuming at the sample number read afterwards: exactly when it succeeds, what it does to every category, and exactly when a category is consumed once |
| `Framing.HeaderRoundTrip` | include/openrsp/protocol.h:53-59 | decoding the 16 bytes of a header gives the header back |
| `Framing.Drive` | src/client_posix.c:22-45 | a transfer that succeeds moved exactly what was asked, one that times out was a read that moved nothing, and one that fails moved less |
| `Framing.SmoothSucceeds` | src/client_posix.c:22-45 | interruptions and short transfers alone never make a transfer fail |
| `Framing.TimeoutConsumesNothing` | src/client_posix.c:176-189 | a receive that returns a timeout has consumed nothing, whatever the bytes |
| `Framing.ReceiveChecks` | src/client_posix.c:176-189 | whatever the bytes, a successful receive means a header of this protocol and version whose payload fits the buffer, and exactly that header and payload were consumed and returned |
| `Framing.ReceiveFrame` | src/client_posix.c:176-189 | on the bytes of a frame a successful receive returns that frame and takes no byte more |
| `Framing.ReceivePartial` | src/client_posix.c:176-189 | a frame that was not sent whole is never received |
| `Framing.FramesInOrder` | src/client_posix.c:163-189 | for every sequence of frames sent, the last possibly cut short, every splitting into partial reads, interruptions and timeouts and every buffer size: until a receive fails, the frames obtained are exactly the first frames sent, in order and unchanged |
| `Framing.AllFramesArrive` | src/client_posix.c:163-189 | if attempts only move bytes or are interrupted and the buffers are large enough, all frames sent are received |
| `Framing.Socket.ReadExact` | src/client_posix.c:22-45 | the read loop moves bytes from the socket to the buffer without losing or reordering any, with the outcome of the transfer function |
| `Framing.Socket.WriteExact` | src/client_posix.c:22-45 | the write loop appends exactly the bytes it reports as moved |
| `Framing.Socket.SendFrame` | src/client_posix.c:163-174 | success appends exactly the encoded frame, failure a proper prefix of it |
| `Framing.Socket.ReceiveFrom` | src/client_posix.c:176-189 | the method returns and consumes what the receive function says, including bad magic, version and size |
| `RemovalTracker.Tracks` | daemon/removal_tracker.c:14-39 | after every series of reports the tracker holds the earliest time reported since the device was last seen, and whether a notification was due |
| `RemovalTracker.NotifiesExactly` | daemon/removal_tracker.c:14-39 | a report notifies if and only if it is the first since the last sighting that lies the grace time or more after the earliest time reported, whichever way the clock moved |
| `RemovalTracker.NotifiesOnce` | daemon/removal_tracker.c:6-39 | between two sightings at most one report notifies |
| `RemovalTracker.MonotoneWindow` | daemon/removal_tracker.c:31-38 | with a clock that does not run backwards the window starts at the first report |
| `RemovalTracker.Tracker.SeePresent` | daemon/removal_tracker.c:6-12 | a sighting clears the tracker |
| `RemovalTracker.Tracker.SeeAbsent` | daemon/removal_tracker.c:14-39 | the in-place update is one step of the tracker and returns its notification |

## Left out

- USB, tuner hardware and the `mirisdr` library: their answers are parameters of the steps.
- Mid-stream recovery and the Windows device restart: they depend on return codes of libraries outside the repository.
- Coefficient design, IQ correction and the AGC loop: numerics; the filters are proved for every choice of coefficients.
- Gain tables, model database, identity matching and range checks: table lookups and single tests. A configuration is valid or not as a parameter.
- The dual-tuner sample-rate swap as an epoch change: the daemon restarts its stream before the client re-arms, so it is not two-phase. Its claims are in `DaemonClaims`.
- The event queue and event thread beyond their existence in `Lifecycle`, the overload test and the debug log.
- Socket setup, service entry points and tools: input and output only.
- Pipeline: a failure of the filter configuration after the daemon has accepted a swap is not a step, since the same values are validated before the request. Stopping the worker or the callback thread is left to `IqQueue.IqQueue.StopWorker` and `Lifecycle`.
- Pipeline: sample counts, first sample numbers and change marks of a frame are arbitrary there. `LaneNumbering` and `StreamRing` say what they are.
- IqQueue: the optional timed wait for a slot is not a step; it only lets the worker run before the scan is repeated. Frames longer than the protocol's maximum are dropped before the queue and do not appear.
- LaneNumbering: the atomic counters are updated without interference from other threads of the same lane, and a stream starts without changes left pending by an earlier one.
- LowIf: samples are reals instead of doubles, and rounding and the oscillator's renormalisation are parameters.
- Decimator: sums are reals instead of doubles and rounding is a parameter.
- DuoSession: null pointers are not modelled, and a record always exists.
- RemovalTracker: times are unbounded naturals; the code never subtracts below zero and never adds.
- Lifecycle: calls are taken one at a time, and the verdict on a select request's tuner, mode and rate is a parameter.
- ApiLock: a thread that finds the API closed returns at once, and the daemon itself does not crash. A connection has a number of its own there, where the daemon's handlers see its descriptor.
- DaemonEvents: an event counts as sent when it is written; a write that fails makes the daemon drop the client that it serves, which is another step.
- StreamWrites: reading the session for a choice is one step, and a stream thread is taken to have an open radio, so that stopping the stream joins it.
- Pipeline: the recovery that the daemon queues after a failed update is not a step; the stream stays stopped.
- SwapEpochSafety: for runs of fewer than 2^32 requests, because replies are matched by a 32-bit number. ReplyMatches gives the exact condition.
