# A model of the SAVIOR sensors

The repository collects what happens inside a guest system. On Windows a driver queues probe data for a
user-space program; on Linux kernel sensors answer requests over a socket and a Python client relays the
records. This project models the state that those two kernel parts keep, and proves what their design
relies on.

**The Windows driver**

- `ProbeQueue` – the queue manager as a class: a list, a counting semaphore, the size of the queued data.
- `ProbeQueueMachine` – the same queue as a state machine of small steps, any number of producers and
  consumers, with the semaphore taken outside the lock: token conservation, order, conservation of entries.
- `ProbeRegistry` – the registry of probes and its name comparison.
- `ProcessTracking` – the list of tracked processes, against the history of live processes, and its validation.
- `ProbeControl` – enabling and disabling probes, against the callbacks the system has registered.

**The Linux kernel sensors and their client**

- `RecordSlots` – the preallocated arrays with stale tails, and when reading one back is a snapshot.
- `PsSensor`, `PsMachine`, `LsofSensor` – the two sensors as classes over arrays; the process sensor also as
  a machine that interleaves requests and its worker.
- `RecordsWire`, `RecordsEndToEnd` – replies on the wire, the client's loop, and both ends put together.
- `Json`, `Discovery`, `DiscoveryReply` – the hand-made JSON printer of the discovery reply, against a JSON
  decoder (sections 3 to 7 of RFC 8259); the line it is sent in; and the list the client makes of that line.
- `Newlines` – the in-place escaping and unescaping of newlines.
- `Sessions`, `SessionMachine` – the message parser on one line, commands included; and all interleavings of
  several connections: which session owns which message, why a message's pointer to its session is always good,
  and exactly when the unlocked walk over the list of sessions is.
- `SensorLevel`, `WorkerLifetime` – the observation level, and how often the worker runs.
- `ChunkedReader` – reading a file chunk by chunk.

Each class or method follows the source branch by branch and is proved against a specification function
(`EnqueueSpec`, `Fill`, `Drain`, `After`, ...); the lemmas are about those functions and about runs of
state machines whose steps are the source's critical sections and its unlocked accesses. A run is any list of
steps; a step that is not possible changes nothing, so "for every list of steps" is "in every reachable state".
`ProbeQueueMachine.UninterruptedCall` and `SessionMachine.LineIsRun` connect the two: a call that nothing
interrupts has the effect its method promises. `PsMachine.RequestIsRun` does so for the process sensor, and
`ProbeQueueMachine.AllIsDelivered` for the queue from arrival to disposal.

Where the code and its comments or intentions differ, the model follows the code:

- `PutBack` on a full queue discards the current head; its comment says that the item put back is discarded.
- The trim loop removes the head of the list without asking whether there is one (`Enqueue`), and ignores
  whether it got a semaphore unit. It always gets one exactly if there are fewer consumers than the queue has
  room for (`TrimNeverFailsIff`).
- The name comparison returns the negated index of the first difference, hence 0 for names that differ at
  index 0. `Unregister` returns true also when it found nothing.
- `Stop` of the thread probe sets the enabled flag after it removed the callback (`AgreementKeptIff`).
- `escape_newlines` overwrites the byte behind each newline (`EscapeUndoneIff`), and on some texts with
  adjacent newlines its loop can leave the buffer, depending on the reallocated bytes (`EscapeInsideIff`,
  `EscapeOutside`).
- The discovery line is cut at 1022 characters although the array in it may take 4096 (`ReplyCompleteIff`,
  `CutAlthoughItFits`), and names are printed without escapes (`ClientListIff`).
- The comment on the command table says that session and messages are freed in any case. The message of a line
  that is rejected before its nonce is neither freed nor held by a session (`NothingLostIff`,
  `MalformedIsLost`). The session of a line stays behind unless its command runs to its end (`LeftBehindIff`),
  for example for an unknown sensor (`UnknownSensorLeavesSession`).
- A command that is not in the table is not refused but run as OFF: the error code that says so is negated twice
  (`RunsAsOffIff`, `StatusRunsAsOff`).
- The comment on garbage collection says that freeing a session handles locking and RCU. The walk that looks for
  a socket's old session is only an RCU reader, and freeing a session waits for no reader, so the session can be
  freed under the walk of another connection (`WalksSafeIff`, `WalkCanStray`).
- The connection looks at a message when the parser returns, although the parser may have freed it
  (`FreedOnReturnIff`).
- The worker decrements its repeat count without the lock, so an OFF message can be lost
  (`AtMostOneRunAfterOffIff`, `OffCanBeLost`); a repeat count of the smallest integer wraps (`RunsExactly`).
- A records request that draws the nonce 0 compares no nonces (`RequestIsSnapshotIff`, `ZeroNonceMisses`).
- A chunk size of 0 makes the file reader report success without reading. It tests the opened file for null, but
  the kernel reports a failed open by an error pointer, which it then takes for a file (`VfsReadFile`).

## Model

| member | source | states |
|---|---|---|
| ProbeQueue.DropOldest | control/win-kernel/WinVirtUE/WVUQueueManager.cpp:186-239 | enqueuing any list with no consumer leaves exactly the newest 256K entries, in order, and a semaphore equal to the length |
| ProbeQueue.QueueManager.constructor | control/win-kernel/WinVirtUE/WVUQueueManager.cpp:18-71 | an empty queue, message id 1, enabled exactly if the pool allocations succeeded |
| ProbeQueue.QueueManager.AcquireQueueSemaphore | control/win-kernel/WinVirtUE/WVUQueueManager.h:89-93 | takes a unit exactly if there is one, never blocks |
| ProbeQueue.QueueManager.SemaphoreRelease | control/win-kernel/WinVirtUE/WVUQueueManager.cpp:154-167 | adds one unit, and nothing beyond the limit |
| ProbeQueue.QueueManager.TrimProbeDataQueue | control/win-kernel/WinVirtUE/WVUQueueManager.cpp:186-201 | the loop ends after at most one discard, of the oldest entry, with its unit and its size; it removes from an empty list exactly if the semaphore is full over one |
| ProbeQueue.QueueManager.Enqueue | control/win-kernel/WinVirtUE/WVUQueueManager.cpp:208-239 | refuses only if disabled; otherwise appends after making room; the recorded size stays the sum of the sizes and the limit is never exceeded; the list is corrupted exactly if the semaphore was full over an empty one |
| ProbeQueue.QueueManager.PutBack | control/win-kernel/WinVirtUE/WVUQueueManager.cpp:248-279 | the same, inserting at the head; on a full queue the old head is what goes |
| ProbeQueue.QueueManager.WaitForQueueAndPortConnect | control/win-kernel/WinVirtUE/WVUQueueManager.h:133-137 | granted exactly if a unit is there and the port is connected, and takes the unit only then |
| ProbeQueue.QueueManager.Dequeue | control/win-kernel/WinVirtUE/WVUQueueManager.cpp:286-320 | returns the head and keeps the recorded size, or nothing exactly if disabled or empty; after a granted wait the units still match the list |
| ProbeQueue.QueueManager.Dispose | control/win-kernel/WinVirtUE/WVUQueueManager.cpp:326-333 | the 64-bit message id advances by one and wraps |
| ProbeQueue.QueueManager.OnConnect | control/win-kernel/WinVirtUE/WVUQueueManager.h:127 | the connect event and the data-stream flag are set |
| ProbeQueue.QueueManager.OnDisconnect | control/win-kernel/WinVirtUE/WVUQueueManager.h:129 | the connect event is reset and the flag cleared |
| ProbeQueue.QueueManager.TerminateLoop | control/win-kernel/WinVirtUE/WVUQueueManager.cpp:141-149 | one unit with no entry behind it unless the semaphore is at its limit, the event and the flags set |
| ProbeQueueMachine.DoTokens | control/win-kernel/WinVirtUE/WVUQueueManager.cpp:155-239 | every step, also one between a producer's lock and unlock, keeps the balance of entries, units, granted waits and artificial units |
| ProbeQueueMachine.TokenConservation | control/win-kernel/WinVirtUE/WVUQueueManager.cpp:187-320 | in every reachable state, length = semaphore + waits granted, one less after an eviction, one more after an insertion; no trim takes from an empty list or misses its unit; the bounds of semaphore and queue; every empty `Dequeue` or lost release is paid for by a `TerminateLoop` |
| ProbeQueueMachine.GrantedNeverEmpty | control/win-kernel/WinVirtUE/WVUQueueManager.cpp:187-320 | without `TerminateLoop` a granted consumer finds an entry, no release hits the limit, one call discards at most one entry |
| ProbeQueueMachine.TrimNeverFailsIff | control/win-kernel/WinVirtUE/WVUQueueManager.cpp:187-201 | over all runs the ignored zero-timeout wait always succeeds if and only if there are fewer consumers than the capacity |
| ProbeQueueMachine.TrimCanFail | control/win-kernel/WinVirtUE/WVUQueueManager.cpp:197 | a run with as many consumers as the capacity in which that wait fails |
| ProbeQueueMachine.DoConserved | control/win-kernel/WinVirtUE/WVUQueueManager.cpp:187-333 | every step keeps each accepted entry in one place |
| ProbeQueueMachine.ExactlyOnePlace | control/win-kernel/WinVirtUE/WVUQueueManager.cpp:187-333 | in every run each accepted entry is in exactly one of queue, trimmed, disposed, hands; the recorded size is the total size |
| ProbeQueueMachine.ChainKept | control/win-kernel/WinVirtUE/WVUQueueManager.cpp:249-333 | dequeuing, disposing and putting back leave the sequence disposed, in hand, queued unchanged |
| ProbeQueueMachine.ArrivalOrderKept | control/win-kernel/WinVirtUE/WVUQueueManager.cpp:187-333 | with one consumer, disposed, then in hand, then queued is a strictly increasing subsequence of the arrivals in every run |
| ProbeQueueMachine.UninterruptedCall | control/win-kernel/WinVirtUE/WVUQueueManager.cpp:208-279 | the machine's steps of one call, uninterrupted, have the effect of `Enqueue` or `PutBack` on list and semaphore, empty the hand of a consumer that puts back, and keep the recorded size the total size |
| ProbeQueueMachine.GrantIff | control/win-kernel/WinVirtUE/WVUQueueManager.h:133-137 | an idle consumer is granted its wait, at the cost of one unit, if and only if there is a unit and the port is connected |
| ProbeQueueMachine.NoGrantsUnconnected | control/win-kernel/WinVirtUE/WVUQueueManager.h:126-137 | over every run in which the port is never connected no wait becomes granted, whatever producers enqueue |
| ProbeQueueMachine.ConnectionDecides | control/win-kernel/WinVirtUE/WVUQueueManager.h:126-129 | disconnecting holds a waiting consumer back, connecting lets it through |
| ProbeQueueMachine.TerminateWakes | control/win-kernel/WinVirtUE/WVUQueueManager.cpp:141-149 | after `TerminateLoop` an idle consumer is granted its wait whatever the queue and the port were |
| ProbeQueueMachine.EmptyTrimCorrupts | control/win-kernel/WinVirtUE/WVUQueueManager.cpp:189-191 | trimming an empty list is recorded as corruption |
| ProbeQueueMachine.ServeIs | control/win-kernel/WinVirtUE/WVURuntimeThreads.cpp:184-233 | one undisturbed round of wait, dequeue, dispose moves the head of the list to the disposed entries and nothing else |
| ProbeQueueMachine.PutBackUndoesTake | control/win-kernel/WinVirtUE/WVUQueueManager.cpp:248-320 | wait, dequeue and put back leave list, units, size and consumers as they were |
| ProbeQueueMachine.AllIsDelivered | control/win-kernel/WinVirtUE/WVUQueueManager.cpp:208-333 | whatever at most 256K data arrive, an undisturbed consumer disposes of all of them in the order of arrival and leaves the queue empty |
| ProbeRegistry.CompareAnsiString | control/win-kernel/WinVirtUE/Utility.cpp:20-48 | the comparison as written, the length mismatch included |
| ProbeRegistry.CompareZeroIff | control/win-kernel/WinVirtUE/Utility.cpp:29-47 | it returns 0 exactly for names equal up to case and for names of one length that differ at index 0 |
| ProbeRegistry.CompareNoEquivalence | control/win-kernel/WinVirtUE/Utility.cpp:29-47 | reflexive and symmetric but not transitive |
| ProbeRegistry.FoldSame | control/win-kernel/WinVirtUE/Utility.cpp:35-38 | characters fold together if and only if they are equal or differ in the bit of case alone; without folding only equal ones do |
| ProbeRegistry.CaseIgnored | control/win-kernel/WinVirtUE/Utility.cpp:29-47 | names that differ only in case compare equal when it is ignored |
| ProbeRegistry.CompareExactIff | control/win-kernel/WinVirtUE/Utility.cpp:29-47 | when case counts, 0 is returned for equal names and for those of one length that differ at index 0 |
| ProbeRegistry.CompareIs | control/win-kernel/WinVirtUE/Utility.cpp:29-47 | for unequal names the smallest long or the negated index of the first difference |
| ProbeRegistry.Registry.FindProbeByName | control/win-kernel/WinVirtUE/WVUQueueManager.cpp:428-452 | the first entry whose name the comparison accepts |
| ProbeRegistry.Registry.Register | control/win-kernel/WinVirtUE/WVUQueueManager.cpp:342-362 | appends unless a listed name is accepted; the counter follows the list |
| ProbeRegistry.Registry.Unregister | control/win-kernel/WinVirtUE/WVUQueueManager.cpp:369-388 | removes the entry found; the counter follows; true when empty or not found |
| ProbeRegistry.RegisterIs | control/win-kernel/WinVirtUE/WVUQueueManager.cpp:351-358 | registration adds the probe unless some listed name is equal up to case, or has the same length and differs at index 0 |
| ProbeRegistry.LookupFindsOwnEntry | control/win-kernel/WinVirtUE/WVUQueueManager.cpp:344-452 | after any registrations and removals listed names are pairwise unequal under the comparison as written, lookup of a listed name finds its own entry, and unregistering it removes just that |
| ProbeRegistry.UnregisterTakesAnotherIff | control/win-kernel/WinVirtUE/WVUQueueManager.cpp:371-387 | unregistering a probe that is not listed removes another's entry if and only if some listed name equals its name up to case or has the same length and differs at index 0 |
| ProbeRegistry.RefusedTakesAnother | control/win-kernel/WinVirtUE/AbstractVirtueProbe.cpp:18-45 | two concrete names for which the destructor of a refused probe removes the other's entry |
| ProcessTracking.ProcessList.InsertProcessEntry | control/win-kernel/WinVirtUE/ProcessCreateProbe.cpp:396-425 | appends, or nothing if the allocation fails |
| ProcessTracking.ProcessList.FindProcessByEProcess | control/win-kernel/WinVirtUE/ProcessCreateProbe.cpp:340-361 | the first entry with the pointer |
| ProcessTracking.ProcessList.RemoveProcessEntry | control/win-kernel/WinVirtUE/ProcessCreateProbe.cpp:432-456 | unlinks the first entry with the id |
| ProcessTracking.ProcessList.ProcessNotify | control/win-kernel/WinVirtUE/ProcessCreateProbe.cpp:214-319 | the effect of a create or destroy notification on the list, when its notice reaches the queue, and nothing at all for an unregistered probe |
| ProcessTracking.ProcessList.OnRun | control/win-kernel/WinVirtUE/ProcessListValidationProbe.cpp:173-259 | an enabled run removes the first entry that disagrees with the system, and nothing else, and reports it if the report can be allocated and queued |
| ProcessTracking.DestroyHitsOwnEntry | control/win-kernel/WinVirtUE/ProcessCreateProbe.cpp:272-276 | lookup by pointer and removal by id hit the entry of the destroyed process |
| ProcessTracking.ListIsLiveSubsequence | control/win-kernel/WinVirtUE/ProcessCreateProbe.cpp:232-456 | for every history the list is the subsequence of the live processes that are tracked, in creation order; all of those created since the start if nothing failed or was removed |
| ProcessTracking.CreateIs | control/win-kernel/WinVirtUE/ProcessCreateProbe.cpp:232-241 | a new process is last among the live ones and, unless its allocation failed, last in the list |
| ProcessTracking.DestroyIs | control/win-kernel/WinVirtUE/ProcessCreateProbe.cpp:268-276 | a destroyed process is gone from the live ones and the list, and only it |
| ProcessTracking.ListIsAllCreated | control/win-kernel/WinVirtUE/ProcessCreateProbe.cpp:232-456 | with no failed allocation and no validation the list holds exactly the live processes created since the start, in the order of their creation |
| ProcessTracking.TwoAndOne | control/win-kernel/WinVirtUE/ProcessCreateProbe.cpp:232-456 | a concrete history: two processes created, the first destroyed, the second listed |
| ProcessTracking.OneRun | control/win-kernel/WinVirtUE/ProcessListValidationProbe.cpp:198-215 | one run takes the first disagreeing entry and no agreeing one |
| ProcessTracking.ValidationConverges | control/win-kernel/WinVirtUE/ProcessListValidationProbe.cpp:198-259 | n runs remove exactly the first n disagreeing entries; agreeing ones all stay |
| ProcessTracking.ReportsAreTheRemoved | control/win-kernel/WinVirtUE/ProcessListValidationProbe.cpp:224-255 | the reports attempted in n runs are those of the removed entries, in order; once all agree there are none |
| ProcessTracking.NothingBad | control/win-kernel/WinVirtUE/ProcessListValidationProbe.cpp:198-215 | no entry disagrees if and only if the agreeing ones are the whole list |
| ProcessTracking.LeftExactly | control/win-kernel/WinVirtUE/ProcessListValidationProbe.cpp:198-215 | after as many enabled runs as there are entries, exactly those are left for which the system gives the recorded id and a valid one |
| ProcessTracking.ReportedExactly | control/win-kernel/WinVirtUE/ProcessListValidationProbe.cpp:206-255 | and exactly the others were reported, each with its pointer and the id that the system gave |
| ProbeControl.Probe.BaseStart | control/win-kernel/WinVirtUE/AbstractVirtueProbe.cpp:112-138 | a start may proceed exactly if not enabled and marked for start |
| ProbeControl.Probe.Start | control/win-kernel/WinVirtUE/ThreadCreateProbe.cpp:20-43 | flag and registration after `Start` of each of the four probes, and its result |
| ProbeControl.Probe.Stop | control/win-kernel/WinVirtUE/ThreadCreateProbe.cpp:50-71 | the same for `Stop` |
| ProbeControl.Probe.ChangeProbeState | control/win-kernel/WinVirtUE/WVUCommsManager.cpp:301-325 | stops only an enabled probe, starts only a disabled one marked for start; success implies a change |
| ProbeControl.OnProtectionStateChange | control/win-kernel/WinVirtUE/WVUCommsManager.cpp:332-373 | a zero id reaches every probe, another id the first probe that has it, no other probe changes; not found exactly if none has it |
| ProbeControl.EnabledMeansHooked | control/win-kernel/WinVirtUE/ImageLoadProbe.cpp:27-79 | over every sequence of commands and failures each kind keeps its relation of flag and callback |
| ProbeControl.RunAllIsEachRun | control/win-kernel/WinVirtUE/WVUCommsManager.cpp:332-373 | under any messages each probe runs on what it sees, independently of the others |
| ProbeControl.AllEnabledMeansHooked | control/win-kernel/WinVirtUE/RegistryModificationProbe.cpp:739-790 | from driver start, over all messages to one probe or all and any failures: enabled implies hooked except for the thread probe; equivalent for the image-load and registry probes |
| ProbeControl.AgreementKeptIff | control/win-kernel/WinVirtUE/ThreadCreateProbe.cpp:50-71 | from agreement a command keeps agreement unless it disables an enabled thread probe, or an enabled process probe whose removal fails |
| ProbeControl.AlwaysAgreesIff | control/win-kernel/WinVirtUE/ProcessCreateProbe.cpp:64-94 | flag and callback agree throughout a run if and only if no such command occurs in it |
| ProbeControl.ThreadCreateTakesTwoStops | control/win-kernel/WinVirtUE/ThreadCreateProbe.cpp:50-71 | the concrete run: after one accepted disable it says enabled but is unhooked, enabling does nothing, a second disable clears the flag |
| ProbeControl.EnableIs | control/win-kernel/WinVirtUE/WVUCommsManager.cpp:315-322 | an accepted enable command hooks and enables a disabled probe marked for start; a refused one, or one for a probe not marked, enables nothing |
| ProbeControl.DisableIs | control/win-kernel/WinVirtUE/WVUCommsManager.cpp:309-313 | flag and callback of each kind of probe after a disable command, accepted or not |
| ProbeControl.OthersAreIdle | control/win-kernel/WinVirtUE/WVUCommsManager.cpp:303-324 | other commands, and enabling an enabled probe, do nothing |
| ProbeControl.ReachesIff | control/win-kernel/WinVirtUE/WVUCommsManager.cpp:342-368 | a message reaches a probe if and only if its id is zero, or is that probe's and no earlier one's |
| ProbeControl.EnableAll | control/win-kernel/WinVirtUE/WVUCommsManager.cpp:332-373 | one accepted enable message to all enables and hooks exactly the probes marked for start |
| RecordSlots.Fill | control/kernel/ps-sensor.c:192-211 | a refresh overwrites a prefix and leaves the stale tail |
| RecordSlots.DrainFollowsSnapshot | control/kernel/jsonl-parse.c:524-566 | reading slot after slot yields the items and one terminator if and only if the slot behind the last item stops it |
| RecordSlots.DrainedSlots | control/kernel/ps-sensor.c:110-128 | reading clears what it read and the slot that stopped it, and nothing else |
| RecordSlots.RefreshThenDrain | control/kernel/jsonl-parse.c:524-566 | a refresh followed by the reading loop is one plain snapshot if and only if the slot behind it stops the reader |
| RecordSlots.SnapshotIff | control/kernel/jsonl-parse.c:524-566 | the same in terms of the array: the slot behind the last item is missing, cleared, or, for a non-zero nonce, carries another |
| RecordSlots.SnapshotShape | control/kernel/jsonl-parse.c:524-566 | a snapshot has one record per item with indexes from 0 up, then one terminator |
| RecordSlots.ReadingStep | control/kernel/jsonl-parse.c:524-566 | one round of the loop keeps: replies so far followed by what is to come is the whole response |
| PsSensor.KpsSensor.constructor | control/kernel/ps-sensor.c:325-401 | the array starts as zeroes, that is, records with nonce 0 |
| PsSensor.KpsSensor.KernelPsUnlocked | control/kernel/ps-sensor.c:185-212 | fills the array in enumeration order; -ENOMEM exactly if there are more processes than slots |
| PsSensor.KpsSensor.KernelPsGetRecord | control/kernel/ps-sensor.c:44-128 | refreshes on demand, returns the slot or the empty record, clears the slot |
| PsSensor.KpsSensor.ProcessRecordsRequest | control/kernel/jsonl-parse.c:524-566 | the loop terminates with the replies, the code and the array of the specification, whatever the array held and whichever buffers and reply messages cannot be allocated |
| PsSensor.WithoutFailures | control/kernel/jsonl-parse.c:524-566 | if every allocation succeeds the loop is the plain request |
| RecordSlots.LinkedAt | control/kernel/jsonl-parse.c:542-557 | with failing reply messages the replies linked are some of those read, in order, none invented |
| RecordSlots.LinkedHas | control/kernel/jsonl-parse.c:542-557 | every reply read whose message could be allocated is linked |
| RecordSlots.ProgressCut | control/kernel/jsonl-parse.c:530-535 | a missing buffer ends the loop with exactly the replies and the array of the rounds before it |
| PsSensor.RequestIsSnapshotIff | control/kernel/ps-sensor.c:72-128 | a request fails without replies exactly if the processes do not fit; otherwise it is the snapshot if and only if the slot behind stops it, in particular for a fresh nonce |
| PsSensor.ZeroNonceMisses | control/kernel/ps-sensor.c:72-128 | on the array as preallocated, nonce 0 does not give the snapshot of any list shorter than the array |
| PsMachine.AdvanceFilling | control/kernel/ps-sensor.c:185-212 | filling slot by slot under the lock is the filling of the specification |
| PsMachine.RecordsAreOneSnapshot | control/kernel/ps-sensor.c:185-237 | in every interleaving with the worker and other requests a completed request with a new non-zero nonce got exactly the processes of its own refresh, in order, then one terminator, up to the full array |
| PsMachine.RequestIsRun | control/kernel/jsonl-parse.c:524-566 | from any state in which nobody holds the sensor, an uninterrupted request completes with code, replies and array of its specification, and its nonce is then used |
| PsMachine.WorkerIsRun | control/kernel/ps-sensor.c:225-237 | an uninterrupted run of the worker is a refresh of as many processes as fit |
| LsofSensor.VisitedFresh | control/kernel/lsof-sensor.c:307-335 | with a nonce the stale tail does not carry, the walk visits exactly the first processes that fit |
| LsofSensor.LsofIsFlattening | control/kernel/lsof-sensor.c:244-347 | with a fresh nonce the replies are exactly the first elements, up to the array size, of the concatenation of the live processes' open files up to the first empty descriptor |
| LsofSensor.FlattenOne | control/kernel/lsof-sensor.c:244-335 | a process that is alive and has a file table contributes exactly the values of its descriptors below the first empty one; any other contributes nothing |
| LsofSensor.FlattenAppend | control/kernel/lsof-sensor.c:307-335 | the flattening of several processes is the concatenation of theirs |
| LsofSensor.KlsofSensor.BuildPidIndexUnlocked | control/kernel/controller-common.c:323-350 | tags and stores the first ids; -ENOMEM exactly on overrun |
| LsofSensor.KlsofSensor.LsofGetFilesStruct | control/kernel/lsof-sensor.c:244-299 | appends the files of one process through the running index, stops at an empty descriptor or a full array |
| LsofSensor.KlsofSensor.LsofForEachPidUnlocked | control/kernel/lsof-sensor.c:307-335 | flattens over the ids visited; the index never passes the array |
| LsofSensor.KlsofSensor.KernelLsofUnlocked | control/kernel/lsof-sensor.c:337-347 | both passes; the overrun of the first goes unnoticed |
| LsofSensor.KlsofSensor.KernelLsofGetRecord | control/kernel/lsof-sensor.c:108-192 | never fails; returns and clears one slot |
| LsofSensor.KlsofSensor.ProcessRecordsRequest | control/kernel/jsonl-parse.c:524-566 | the same on both arrays of the open-files sensor |
| LsofSensor.WithoutFailures | control/kernel/jsonl-parse.c:524-566 | if every allocation succeeds the loop is the plain request |
| RecordsWire.LinesOfWire | control/kernel/jsonl-parse.c:379-387 | framing round trip: the reader recovers the lines whatever NULs precede, and one NUL stays behind |
| RecordsWire.WriteSessionReplies | control/kernel/jsonl-parse.c:367-392 | the lines before the first failing write, each with its NUL, in order; that write's error; -ENOENT if there is no line |
| RecordsWire.FetchSensorRecords | sensors/sensor_linux_kernel/sensor_kernel.py:105-128 | the client's loop on any byte stream, open or closed, and any timeout: payloads, what is left unread, and whether an exception escapes |
| RecordsWire.FetchFrom | sensors/sensor_linux_kernel/sensor_kernel.py:55-123 | on a response the client returns exactly the data payloads, stops at the terminator, and leaves the following bytes; a timeout only cuts the list short |
| RecordsWire.RecordPlaces | control/kernel/ps-sensor.c:82-121 | where the kernel puts session nonce, name, tag, id, index, data and refresh in a record, and the three parts of the terminator |
| RecordsWire.ConvertCases | sensors/sensor_linux_kernel/sensor_kernel.py:73-87 | what the client makes of any reply: fewer than four parts, either handled tag, other tags, too short a record, no reply, no message |
| RecordsWire.UnparsedRaises | sensors/sensor_linux_kernel/sensor_kernel.py:55-87 | a line that does not parse raises an exception |
| RecordsWire.ShortReplyStops | sensors/sensor_linux_kernel/sensor_kernel.py:75-77 | a message without reply, or with fewer than four parts, ends the list |
| RecordsWire.OtherSensorUnhandled | sensors/sensor_linux_kernel/sensor_kernel.py:79-87 | a record of another sensor is kept as unhandled and the list goes on |
| RecordsWire.CutLineIs | sensors/sensor_linux_kernel/sensor_kernel.py:114-123 | a line cut short is waited for while the connection is open, and parsed as it is once it is closed |
| RecordsEndToEnd.ClientSeesRunningProcesses | sensors/sensor_linux_kernel/sensor_kernel.py:105-128 | from kernel tables to the client's list, under every interleaving: exactly the processes running at the request's refresh |
| RecordsEndToEnd.ClientSeesOpenFiles | sensors/sensor_linux_kernel/sensor_kernel.py:105-128 | the client of the open-files sensor gets exactly the flattening, whatever follows it in the stream |
| Json.ParseNameIff | control/kernel/controller-common.c:750-757 | text between quotes is read back as itself if and only if it has no quote, backslash or control character |
| Discovery.PutEntry | control/kernel/controller-common.c:743-764 | one entry, the zero padding of `strncpy` included, stays inside the buffer and leaves exactly its text |
| Discovery.BuildDiscoveryBuffer | control/kernel/controller-common.c:713-785 | fails exactly if an entry does not fit; otherwise the buffer holds exactly the array and a NUL, within the reported length and 4096 bytes |
| Discovery.FitsIff | control/kernel/controller-common.c:743-745 | the printer succeeds if and only if each name and 48 more characters go into what the text before it leaves of 4094 |
| Discovery.TextIs | control/kernel/controller-common.c:733-773 | the printed text for no sensor and for any two |
| Discovery.Close | control/kernel/controller-common.c:770-773 | there is always room for the closing bracket and a NUL |
| Discovery.Shrink | control/kernel/controller-common.c:774-778 | the shrunken buffer still covers the text and its NUL |
| Discovery.DecodeIff | control/kernel/controller-common.c:713-785 | decoding the printed array returns the list if and only if every name is free of quotes, backslashes and control characters |
| DiscoveryReply.ReplyCompleteIff | control/kernel/jsonl-parse.c:649-666 | for names without newline the reply line ends with its newline, and is complete, if and only if it has at most 1022 characters |
| DiscoveryReply.CutAlthoughItFits | control/kernel/jsonl-parse.c:649-666 | a concrete list that the printer accepts and whose line is cut |
| DiscoveryReply.FullReplyIs | control/kernel/jsonl-parse.c:612-663 | the line as it is sent, character by character |
| DiscoveryReply.DiscoverSensors | sensors/sensor_linux_kernel/sensor_kernel.py:155-170 | the client's list from any characters that arrive: reading the line, decoding it, the last value of a key, and when there is an exception |
| DiscoveryReply.DiscoveredCases | sensors/sensor_linux_kernel/sensor_kernel.py:164-170 | a reply of fewer than three parts, of another type, or with an element that is not a pair raises an exception; otherwise every element is kept |
| DiscoveryReply.KnownNeedsHarm | sensors/sensor_linux_kernel/sensor_kernel.py:164-170 | a reply without strings that are unclean and as long as the longest unclean name cannot yield the kernel's list |
| DiscoveryReply.LineSafe | control/kernel/jsonl-parse.c:649-666 | behind no quotation mark of the line, wherever unclean names put them, does the decoder read the longest unclean name and go on |
| DiscoveryReply.ClientListIff | sensors/sensor_linux_kernel/sensor_kernel.py:155-170 | whatever the names are, the client comes to know exactly the kernel's list if and only if the whole line has at most 1022 characters and every name is clean |
| Newlines.UnescapeEscape | control/kernel/jsonl-parse.c:1137-1208 | deleting the backslash before each CR or LF undoes inserting one, on every string |
| Newlines.UnescapeCons | control/kernel/jsonl-parse.c:1145-1165 | a byte is deleted if and only if it is a backslash directly before CR or LF |
| Newlines.EscapeCons | control/kernel/jsonl-parse.c:1195-1205 | what escaping is meant to be: a backslash before each CR and LF and nowhere else |
| Newlines.FindBackslash | control/kernel/jsonl-parse.c:1137-1170 | the search finds the first backslash and stays in the string |
| Newlines.ShiftLeft | control/kernel/jsonl-parse.c:1137-1170 | the shifting loop deletes exactly one byte and keeps the NUL |
| Newlines.UnescapeOne | control/kernel/jsonl-parse.c:1137-1170 | one round passes the next backslash or drops it, and keeps: the part rewritten, then what unescaping the rest gives, is the result |
| Newlines.UnescapeNewlines | control/kernel/jsonl-parse.c:1137-1170 | the find-and-shift loops compute exactly "delete each backslash directly before CR or LF", on every string |
| Newlines.EscapeNewlines | control/kernel/jsonl-parse.c:1178-1208 | the rewriting loop as written, for any content of the reallocated bytes, and whether it leaves the buffer; the buffer itself if there is nothing to escape |
| Newlines.EscapeLast | control/kernel/jsonl-parse.c:1178-1208 | a newline in last place is escaped so that unescaping gives the line back |
| Newlines.EscapeLastIs | control/kernel/jsonl-parse.c:1190-1207 | on a line whose only CR or LF is its last byte the result is that line with one backslash |
| Newlines.EscapeInterior | control/kernel/jsonl-parse.c:1178-1208 | a newline elsewhere costs at least one byte if the reallocated bytes are zero |
| Newlines.EscapeUndoneIff | control/kernel/jsonl-parse.c:1137-1208 | escaping then unescaping, as written, is the identity if and only if the only CR or LF is the last byte |
| Newlines.Walk | control/kernel/jsonl-parse.c:1195-1205 | on any text the loop stops at the NUL behind it, or passes that NUL with the count of the newlines it skipped |
| Newlines.EscapeInsideIff | control/kernel/jsonl-parse.c:1190-1206 | for every content of the reallocated bytes the loop stays inside the buffer and leaves its last NUL, if and only if no two newlines are adjacent or the text ends with an even run of newlines |
| Newlines.EscapeOutside | control/kernel/jsonl-parse.c:1190-1206 | three newlines and two concrete bytes for which it does not |
| Sessions.Parser.FreeSessionAt | control/kernel/jsonl-parse.c:200-230 | unlinks one session and frees its replies and its request, each once |
| Sessions.Parser.FreeSession | control/kernel/jsonl-parse.c:466 | frees the session that a message points to |
| Sessions.Parser.GarbageCollectSession | control/kernel/jsonl-parse.c:724-758 | frees the first session of the socket, if any |
| Sessions.Parser.GetSession | control/kernel/jsonl-parse.c:761-786 | collects, then opens a session that owns the request; nothing for a nonce of wrong length |
| Sessions.Parser.LinkReply | control/kernel/jsonl-parse.c:454-457 | the reply joins the session its request points to |
| Sessions.Parser.ProcessStateRequest | control/kernel/jsonl-parse.c:396-472 | what each outcome leaves in the table, and when it completes |
| Sessions.Parser.ProcessRecordsRequest | control/kernel/jsonl-parse.c:475-601 | the same for a records request with any number of replies, an error after some of them, or a failed write |
| Sessions.Parser.ProcessDiscoveryRequest | control/kernel/jsonl-parse.c:603-690 | the same for a discovery request and its failures |
| Sessions.IndexCommand | control/kernel/jsonl-parse.c:68-92 | the first entry of the table that the command matches, as far as both go; what the source returns for none |
| Sessions.WordsFound | control/kernel/jsonl-parse.c:70-90 | every word of the table is found at its own place |
| Sessions.RunsAsOffIff | control/kernel/jsonl-parse.c:87-91 | a command is run as OFF if and only if it matches that word or no word at all |
| Sessions.StatusRunsAsOff | control/kernel/jsonl-parse.c:288-291 | a concrete command outside the table that is run as OFF |
| Sessions.LettersDecide | control/kernel/jsonl-parse.c:70-93 | which command every word and abbreviation runs, by its first three letters |
| Sessions.Parser.PreProcessRequest | control/kernel/jsonl-parse.c:240-297 | the dispatch of any command, and the missing or oversized ones that leave the session |
| Sessions.Parser.ParseJsonMessage | control/kernel/jsonl-parse.c:927-1031 | the walk over the tokens of any line: rejected before the nonce, refused at it, or served; and whether the connection stays open |
| Sessions.Parser.Receive | control/kernel/controller-interface.c:235-256 | a message is allocated for every line, before it is parsed |
| Sessions.LeftBehindIff | control/kernel/jsonl-parse.c:240-690 | an accepted line leaves its session behind if and only if it has no command or the command does not run to its end; any other line leaves the list as it was |
| Sessions.UnknownSensorLeavesSession | control/kernel/jsonl-parse.c:419-430 | a concrete line, for a sensor that does not exist, that leaves its session |
| Sessions.FreedOnReturnIff | control/kernel/controller-interface.c:243-248 | the message is freed when the parser returns to the connection if and only if its nonce was refused or its command ran to its end |
| Sessions.RecordsLine | control/kernel/jsonl-parse.c:288-291 | "records": whole table after the line, with the freed replies and request in order, and whether the connection stays, for every end of the request |
| Sessions.DiscoveryLine | control/kernel/jsonl-parse.c:603-690 | "discovery": the same |
| Sessions.ConnectLine | control/kernel/jsonl-parse.c:696-708 | "connect": the session and the connection stay |
| Sessions.StateLine | control/kernel/jsonl-parse.c:396-472 | every other command: the same for a state request |
| Sessions.InvalidLine | control/kernel/jsonl-parse.c:256-276 | a missing or oversized command or sensor name leaves the session and closes the connection |
| Sessions.UnfinishedLine | control/kernel/jsonl-parse.c:955-1030 | a line that ends before its command leaves the session and keeps the connection |
| Sessions.AcceptedIff | control/kernel/jsonl-parse.c:942-1008 | which lines open a session: enough tokens, consistent ones, version, "request", a nonce of 1 to 40 bytes |
| Sessions.UnacceptedLine | control/kernel/jsonl-parse.c:942-1008 | what any other line leaves, and when its connection stays open |
| Sessions.LeftIsCollected | control/kernel/jsonl-parse.c:724-786 | a session left behind is freed by the next accepted line of its socket |
| SessionMachine.DoPointed | control/kernel/jsonl-parse.c:396-690 | every step of every connection follows only such message pointers as lead to sessions that are there, and keeps it so |
| SessionMachine.LostPointerBreaks | control/kernel/jsonl-parse.c:200-230 | following a message's pointer to a session that is gone is recorded |
| SessionMachine.DoAccounted | control/kernel/jsonl-parse.c:200-230 | every step keeps each message freed once or held once, except those being parsed and those rejected |
| SessionMachine.SessionOwnership | control/kernel/jsonl-parse.c:200-816 | over every interleaving, step by step through the list, no message's pointer to a freed session is followed, no two sessions share a socket, and each message is freed at most once, held by at most one session, and not both |
| SessionMachine.NothingLostIff | control/kernel/jsonl-parse.c:927-1031 | a message no longer being parsed was freed once or is held once, if and only if its line was not rejected before its nonce |
| SessionMachine.MalformedIsLost | control/kernel/jsonl-parse.c:942-945 | a line on which the tokenizer fails leaves a message that is neither freed nor held |
| SessionMachine.CollectSafeIff | control/kernel/jsonl-parse.c:724-758 | collecting a socket's session leaves every message's pointer good, if and only if no message of that socket points to a session |
| SessionMachine.SteadyIff | control/kernel/jsonl-parse.c:744-754 | a step leaves every walk on a session that is there, if and only if it does not free the session under another connection's walk |
| SessionMachine.WalksSafeIff | control/kernel/jsonl-parse.c:744-754 | over every run all walks stand on sessions that are there if and only if no step frees one under another's walk; then no freed session is read |
| SessionMachine.WalkCanStray | control/kernel/jsonl-parse.c:214-227 | a concrete run of two connections in which a walk reads a freed session |
| SessionMachine.CompletedLeavesNone | control/kernel/jsonl-parse.c:396-690 | a request that runs to its end frees exactly the session it opened, with its replies and itself, and leaves none for its socket |
| SessionMachine.LineIsRun | control/kernel/controller-interface.c:235-256 | a line that nothing interrupts, whatever it is and however its command ends, is a run of the machine with the effect the methods promise |
| SessionMachine.LineLeavesIff | control/kernel/jsonl-parse.c:240-690 | at every point of every run an accepted line on a connection at rest leaves its session behind exactly as `LeftBehindIff` says |
| SensorLevel.Sensor.constructor | control/kernel/controller-common.c:1038-1074 | the initial level is the default level |
| SensorLevel.Sensor.ProcessStateMessage | control/kernel/controller-common.c:557-659 | level, timeout, repeat and reply after each command |
| SensorLevel.LevelMachine | control/kernel/controller-common.c:557-659 | over every message sequence the level stays in range, the reply indexes the table and names the level, the timeout is the level's period after the first level message |
| SensorLevel.WordsAreCommands | control/kernel/jsonl-parse.c:130-144 | the words of the command table are the commands of the sensor |
| SensorLevel.OffAndOn | control/kernel/controller-common.c:566-578 | OFF leaves a count of 0, ON the largest integer, and neither touches level or timeout |
| SensorLevel.LevelsAre | control/kernel/controller-common.c:579-609 | 3600, 300, 10 and 1 seconds for the four levels; RESET is DEFAULT; the count stays |
| SensorLevel.StepsAre | control/kernel/controller-common.c:611-647 | a step up or down ends at the next level, and does nothing at the last |
| SensorLevel.ThenComposes | control/kernel/controller-common.c:557-659 | the saturating shifts are closed under composition |
| SensorLevel.LevelIsOneClamp | control/kernel/controller-common.c:557-659 | a whole message sequence acts on the level as one saturating shift |
| SensorLevel.ActAppend | control/kernel/controller-common.c:557-659 | the shift of a concatenation is the composition of the shifts |
| WorkerLifetime.RunsExactly | control/kernel/ps-sensor.c:248-281 | left alone the worker ends after max(1, repeat) runs, if and only if repeat is not the smallest integer |
| WorkerLifetime.MoreBounds | control/kernel/ps-sensor.c:248-281 | in any interleaving without ON the number of further runs never exceeds what the state promises |
| WorkerLifetime.EndedForGood | control/kernel/ps-sensor.c:248-281 | no message sequence restarts an ended worker |
| WorkerLifetime.AfterShutdown | control/kernel/ps-sensor.c:268-281 | after shutdown at most one further run, and only if it was queued or the worker was past its last test |
| WorkerLifetime.ShutdownStops | control/kernel/ps-sensor.c:268-281 | setting the shutdown flag has that effect from any state |
| WorkerLifetime.ShutdownEndsIff | control/kernel/ps-sensor.c:268-281 | after shutdown the worker has ended, if and only if it took the steps of its own that were left, whatever messages came in between |
| WorkerLifetime.ShutdownCanComeLate | control/kernel/ps-sensor.c:276-278 | shutdown between the last test and the queuing lets one run begin |
| WorkerLifetime.AtMostOneRunAfterOffIff | control/kernel/controller-common.c:566-578 | after OFF at most one further run, if and only if OFF did not fall into the unlocked decrement of a worker with more runs to go |
| WorkerLifetime.OffCanBeLost | control/kernel/ps-sensor.c:268 | a concrete run in which OFF falls into the decrement |
| WorkerLifetime.OnGoesOn | control/kernel/controller-common.c:573-578 | ON, outside the decrement and before the end, lets the worker make the largest integer of further runs, less one that has begun |
| WorkerLifetime.OnIsLost | control/kernel/ps-sensor.c:268 | inside the decrement ON is overwritten |
| ChunkedReader.KernelRead | control/kernel/controller-common.c:247-304 | one read, short or failing, inside the buffer |
| ChunkedReader.VfsReadFile | control/kernel/controller-common.c:247-304 | an error pointer is misused exactly if the open failed with one; otherwise it terminates under any short reads and failures; on success the first pos bytes are the file's, 0 means the whole file, pos never exceeds max(max_count, chunk); a failure is that of the open, of the first allocation, of the last read made, or of the allocation after it |

## Left out

- Sockets, kernel threads, RCU, interrupt levels, timing: only the semaphore, lock and event semantics that the steps need are kept.
- The consumer thread itself: a consumer is any client that waits, dequeues, then disposes or puts back; one that ends takes no further step.
- `Dequeue` runs as one step of the machine, because it holds the lock throughout and touches no semaphore.
- ProbeQueue.QueueManager.TrimProbeDataQueue: what becomes of a list whose head was removed while it was empty; `FewArtificial` shows that it does not happen with fewer artificial units than the queue has room for.
- The debug counters of the queue.
- PsMachine.RecordsAreOneSnapshot: the interleaved requests are those whose allocations succeed.
- The flexible arrays of the Linux kernel are fixed arrays here; a put beyond the end fails and a get returns nothing.
- Connection teardown, the unused read-write helper, and the tokenizer of the message parser: what it finds in a line, and how a command ends, are parameters.
- Sessions.Parser.ParseJsonMessage: lines of type "reply", for which the kernel is never the receiver; and lines for which no message can be allocated.
- SessionMachine.SessionOwnership: what a walk reads from a freed session; the connection that reads it goes no further in the model. The walk of `free_session` over its own replies, which no other connection can reach any more, is one step.
- Sessions.IndexCommand: the tokenizer's header for Linux is not part of this model; its error value is that of the copy in control/win-kernel/WinVirtUE/jsmn.h.
- `get_sensor`: requests are stated for the sensor that was found, or for none.
- The sysfs sensor, which is compiled out; the chunked reader it uses is modelled on its own.
- RecordsWire.FetchFrom: the text of a record is abstract; it assumes that each record of the response renders to one line that the client's parser reads back; for every response there is such a pair (`CodecExists`).
- RecordsWire.FetchSensorRecords: the timeout is a number of lines, not a time.
- RecordsWire.ConvertSensorReply: replies of the sensor types other than processes and open files are passed on as unhandled, as in the client.
- The nonce of a request is a parameter, and the freshness of a random number is a hypothesis (`isNew`, `Fresh`), never an axiom.
- LsofSensor.KlsofSensor.LsofGetFilesStruct: the end of a descriptor table counts as an empty descriptor, and a file table does not change while it is read.
- LsofSensor.KlsofSensor.ProcessRecordsRequest: not interleaved step by step with the open-files worker; the sensor lock separates the two as it does in `PsMachine`.
- Json.ParseNameIff: the decoder refuses escapes that denote surrogates, and NaN and Infinity, which the client's library accepts.
- DiscoveryReply.ClientListIff: the nonce, which the client made of hexadecimal digits, is clean; bytes beyond characters are not modelled.
- Newlines.EscapeNewlines: the final reallocation to the string's length, and the one at the end of unescaping, are not modelled; what lies behind the buffer is not either.
- Newlines.EscapeInterior: states the loss for zero spare bytes; other bytes can make the text come back by chance (`EscapeByChance`), so `EscapeUndoneIff` quantifies over all of them.
- ProcessTracking.ProcessList.ProcessNotify: the contents of the notice beyond pointer and id.
- ProcessTracking.ProcessList.OnRun: assumes that the validation probe is registered; otherwise the source uses a null pointer when it has a report to send.
- ProcessTracking.ListIsLiveSubsequence: the history is that of a started probe; notifications missed while it is stopped are not in it.
- ProbeControl.OnProtectionStateChange: models the build that evaluates the argument of its assertion, and not the debug print on the path where no probe was found.
- ProbeControl.Probe.Start: concurrent command messages are not interleaved.
- Exact packet layouts, installers, the command shell, certificates and message brokers, and the wrappers around them.
