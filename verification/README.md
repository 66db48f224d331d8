# OpenELP, modelled and proved in Dafny

OpenELP is a proxy server for EchoLink. A proxy owns a few external addresses,
each behind a *slot*; n worker threads log clients in, give each a slot, and
carry its messages; forwarders carry traffic back; a registration service tells
a registrar how busy the proxy is. This project models the parts of it where
the difficulty lies, and proves what they are meant to guarantee.

Code that runs in several threads is modelled as a state machine whose steps
are the critical sections and the points where threads block, and the theorems
speak about every sequence of steps. Beside the machine stands the code in its
own form, classes and methods that update fields, arrays and buffers in place,
each proved to perform exactly the machine's step. Everything else is methods
with loops, proved against independent definitions.

| file | part of the system | main results |
|---|---|---|
| `Worker.dfy`, `WorkerLaws.dfy` | worker threads: wake, join, start, wait for idle | every accepted wake is served; no wake-up is lost; what a join ends |
| `Registration.dfy`, `RegistrationLaws.dfy` | the registration service on top of a worker | what was posted is reported, with its counts; `Off` is reported last |
| `RwLock.dfy` | shared/exclusive lock from a mutex and a condition variable | exclusion; exact counter; no forgotten writer |
| `PoolMemory.dfy`, `SlotPool.dfy` | idle list and callsign index, pointer by pointer | pointer updates refine removal, appending and move-to-front |
| `PoolSystem.dfy`, `PoolTheorems.dfy`, `PoolVisits.dfy`, `PoolWorkers.dfy` | n workers over n slots | every slot has one place; unreachable branches; the search is a scan, and as good as one step |
| `PoolRace.dfy`, `PoolStale.dfy` | two runs, of two workers and of one | the window in which a slot can be taken over; a stored callsign going stale |
| `Forwarders.dfy` | a slot's three forwarders across clients | forwarders rest between clients; who wakes which |
| `Bits.dfy`, `Md5Spec.dfy`, `Md5.dfy`, `Md5Stream.dfy` | streaming MD5 | equals RFC 1321 for all inputs, cuts and word widths |
| `Bytes.dfy`, `Frames.dfy` | bytes and the message format | encoding and parsing undo each other |
| `Connections.dfy` | exact receives, and sends | when a send delivers its buffer, exactly |
| `ProxyConn.dfy`, `ProxyConnLaws.dfy` | the processing thread | one message per call; when a stream stays in step, exactly; what goes to which socket and host |
| `Forwarding.dfy`, `ClientStream.dfy`, `ProxyClient.dfy` | traffic to the client | whole frames under every interleaving |
| `Hex.dfy`, `Handshake.dfy` | logging in | login round trip; which callsigns survive, exactly |
| `Conf.dfy` | the configuration file | lines, pairs and lists; when a list is restored, exactly |

`dafny verify dfyconfig.toml` checks the whole project.

## What turned out not to hold

Seven expectations fail for some inputs. The code is modelled as it is; each
failure has a concrete instance and the exact condition.

- *A slot belongs to one worker at a time.* A worker that is finished clears the
  slot's client before it takes the list's mutex to put the slot back
  (src/proxy.c:443-451). In between, a search may find the slot by callsign and
  take it over although it is not on the list. `PoolSystem.SearchKeepsIffSafe`
  says that the search keeps the invariants if and only if it does not do that;
  `PoolRace.StolenSlotLosesTheList` is a run that ends with two holders of one
  slot and an empty list although a slot is free.
- *A slot stores the callsign that last acquired it.* A fallback whose ports do
  not open has already overwritten the callsign. `PoolTheorems.TruthfulUnlessOverwritten`
  says that a step makes a stored callsign stale if and only if it is such a
  fallback onto a slot of another callsign;
  `PoolStale.RefusedVisitLeavesItsCallsign` is a run that ends with one.
- *A send delivers its buffer.* The send loop offers the front of the buffer
  again after a partial send. `Connections.IntactIffOneValue` and
  `Connections.SplitIsHarmlessIffSingle` give the exact conditions,
  `Connections.FirstByteTwice` an instance. Members that
  build on sends are proved for a system whose send takes all it is offered.
- *The processing thread stays in step with the stream.* The payload of an open
  or close message is not received. `ProxyConnection.ServedIffPlain` says that a
  stream of frames is served frame by frame if and only if every frame is of a
  known kind and every open or close is empty;
  `ProxyConnection.OpenWithPayloadDesynchronises` is an instance that fails.
- *The status of an open request tells whether there is a connection.* A connection
  there was is not closed first and stays when connecting fails.
  `ProxyConnection.StatusTellsIff` says that the status tells if and only if
  connecting works or there was no connection; `ProxyConnection.OpenIff` says for any
  messages when there is one at the end; in
  `ProxyConnection.RefusedOpenKeepsTheFirstHost` an open is refused and the data
  after it goes to the host of the open before.
- *Every packet reaches the client.* A forwarder takes an empty packet for the end
  of its connection and cuts a packet at 4087 bytes. `Forwarding.WholeIffFits` says
  that all packets get through whole if and only if each has 1 to 4087 bytes;
  `Forwarding.EmptyPacketEndsIt` is an instance that fails.
- *A comma-separated list gives its value back.* The count of entries starts from
  the count there was and skips the first character.
  `Conf.ListIffCounted` gives the exact condition; a value set twice is given back if
  and only if its only comma is its first character (`Conf.SetTwice`).

Where code and comments differ the code is followed: include/proxy_msg.h:79-80
promises a close in answer to a close; in the code it is the TCP forwarder,
when its connection ends, that announces the close (`Forwarding.Forwarder.ForwardTcp`).

## Model

| member | source | states |
|---|---|---|
| WorkerMachine.EveryWakeIsServed | src/worker.c:108-150 | for every interleaving of wakes, joins, starts, waits, time-outs and spurious wake-ups: by the time the worker halts, or a waiter is told it is idle, each earlier accepted wake has had a run that began after it and ended; runs never overlap; there are no more runs than accepted wakes and periodic returns |
| WorkerMachine.NoLostWakeUp | src/worker.c:270-308 | in every reachable state the thread sleeps only with nothing outstanding, an idle waiter sleeps only while work is due or in progress, and an accepted wake not yet running is picked up by the thread's next critical section |
| WorkerMachine.StepKeeps | src/worker.c:108-308 | every critical section keeps the invariant that ties the state field, the thread, the waiters and the history of events |
| WorkerMachine.RunKeeps | src/worker.c:108-308 | so does every run |
| WorkerMachine.AdvanceKeeps | src/worker.c:108-150 | the thread's section, from having the mutex to giving it up, keeps the invariant |
| WorkerMachine.AdvanceOutcome | src/worker.c:117-146 | the thread's section begins the run that is due or finds none due, and does not by itself stop a worker that could be woken |
| WorkerMachine.JoinKeeps | src/worker.c:230-251 | a join request keeps the invariant: a wake accepted before it is still owed a run; what it ends is `WorkerLaws.JoinedRun` |
| WorkerMachine.WaitIdleKeeps | src/worker.c:270-289 | a waiter's section keeps the invariant, and reports idle only when all accepted wakes have been served |
| WorkerMachine.WakeKeeps | src/worker.c:291-308 | a wake keeps the invariant |
| WorkerMachine.SettledServes | src/worker.c:108-150 | reading the history: a settled log has, between an accepted wake and a later halt or idle report, a run that began and ended |
| WorkerMachine.WorkerHandle.constructor | src/worker.c:169-213 | a new worker is stopped, with no thread and no history |
| WorkerMachine.WorkerHandle.WakeUp | src/worker.c:291-308 | performs the machine's wake and keeps the invariant; accepted exactly when the state ranks above stopping-after-work |
| WorkerMachine.WorkerHandle.RequestJoin | src/worker.c:230-245 | performs the machine's join, with all that `WorkerLaws.JoinStops` says of it; a pending wake turns the stop into one after work |
| WorkerMachine.WorkerHandle.Launch | src/worker.c:253-268 | performs the machine's start; only a stopped worker gets a thread |
| WorkerMachine.WorkerHandle.AwaitIdle | src/worker.c:270-289 | performs one pass of the wait; it returns success exactly for an idle or starting worker and failure exactly for a stopped or stopping one; on success every wake accepted so far has begun and ended its run |
| WorkerMachine.WorkerHandle.ThreadSection | src/worker.c:108-150 | performs the thread's section and keeps the invariant |
| WorkerLaws.JoinStops | src/worker.c:230-245 | a joined worker refuses wakes and its thread can go on: it stops at once or after one run |
| WorkerLaws.JoinedRun | src/worker.c:230-251 | in every run from a join to the next start: no wake is accepted, no period falls due, exactly the run owed to a wake accepted before begins, and the thread can go on until the worker has stopped |
| WorkerLaws.StartedRun | src/worker.c:253-268 | in every run from a start to the next join, every wake is accepted |
| WorkerLaws.OneThread | src/worker.c:253-268 | in every run a worker has one thread, or none when it has stopped, however often it is started |
| WorkerLaws.TimeOutBegins | src/worker.c:135-142 | when the wait ends without a wake, a periodic worker begins a run and any other goes back to sleep |
| WorkerLaws.WaitOutcome | src/worker.c:270-289 | a waiter is told idle exactly when the worker is idle or starting, goes to sleep exactly while it is at work, and is refused otherwise |
| RegistrationService.AcceptedIsReported | src/registration.c:379-417 | whatever call had its wake accepted, by the time the worker is quiet again a read made after that call has read the content then posted or a newer one |
| RegistrationService.UpdateIsSent | src/registration.c:391-435 | for an update or a stop that read is not of the unknown status, so a report is really sent |
| RegistrationService.OffIsReportedLast | src/registration.c:379-389 | in every run, for a service whose worker is started and not being stopped: after stop's critical section every read is Off, and when the worker has stopped there has been at least one |
| RegistrationService.OffAfterStop | src/registration.c:379-435 | the same from any state that satisfies the invariant |
| RegistrationService.StaysOff | src/registration.c:391-405 | updates racing with a stop neither change the status nor cause a different report until the next start |
| RegistrationService.MoveKeeps | src/registration.c:310-435 | every critical section keeps the invariant: reports hold what they read, nothing posted is missed, Off stays until the next start |
| RegistrationService.RunsKeep | src/registration.c:310-435 | so does every run |
| RegistrationService.Registrar.constructor | src/registration.c:270-308 | initially unknown, nothing posted |
| RegistrationService.Registrar.Wake | src/worker.c:291-308 | wakes the worker and notes what content the wake was for |
| RegistrationService.Registrar.Begin | src/registration.c:310-360 | performs the machine's start of the worker, whatever state it is in |
| RegistrationService.Registrar.BeginWake | src/registration.c:362-377 | performs the rest of start: only an accepted wake turns Off back into unknown |
| RegistrationService.Registrar.Post | src/registration.c:391-406 | performs the machine's update, which `RegistrationLaws.UpdatePosts` states: its counts, full exactly when no slot is left, ignored once Off |
| RegistrationService.Registrar.Finish | src/registration.c:379-386 | performs the machine's stop, which `RegistrationLaws.StopPosts` states |
| RegistrationService.Registrar.ReadStatus | src/registration.c:408-428 | reads the newest content, all three fields at once |
| RegistrationLaws.UpdatePosts | src/registration.c:391-406 | an update posts the counts it is given, full exactly when used is not below total, and wakes the worker; once Off it does nothing |
| RegistrationLaws.StopPosts | src/registration.c:379-386 | a stop posts Off with the counts there were, and wakes the worker |
| RegistrationLaws.RestartCounts | src/registration.c:310-377 | a start of a stopped service wakes its worker, leaves Off, keeps the counts, and lets the next update post |
| RegistrationLaws.RefusedStartChangesNothing | src/registration.c:362-377 | a start while the worker is still stopping changes nothing |
| RegistrationLaws.UpdateIsReported | src/registration.c:391-435 | in every run after an update that is accepted and not superseded: when the worker is quiet, the last report has its counts, and full exactly when no slot is left |
| RegistrationLaws.StopIsReported | src/registration.c:379-435 | likewise for a stop: the last report is Off with the counts there were |
| RegistrationLaws.StopEnds | src/registration.c:379-389 | in every run from a stop's join to the next start: no call wakes the worker, and its thread can go on until it has stopped |
| RegistrationLaws.OneReadPerRun | src/registration.c:408-435 | in every run of a new service, each run of the worker reads the content exactly once |
| SharedLock.Exclusion | src/mutex_posix.c:116-160 | in every run of any number of threads, while one holds the lock exclusively no other holds it in either way and the counter is zero |
| SharedLock.CounterIsExact | src/mutex_posix.c:141-185 | the counter is the number of shared holders and its 32-bit arithmetic never wraps |
| SharedLock.NoForgottenWriter | src/mutex_posix.c:116-185 | a writer sleeps only while the counter is positive or the broadcast is the mutex owner's next action |
| SharedLock.CallStands | src/mutex_posix.c:116-185 | in every run, between two calls of a thread: a lock call waits for the exclusive lock or has it, a shared one the same of the shared lock, and a shared unlock only gives it up |
| SharedLock.CallBegins | src/mutex_posix.c:116-185 | what each of the four calls begins: no lock is held before its turn, and an unlock frees the mutex at once |
| SharedLock.StepKeeps | src/mutex_posix.c:116-185 | every step keeps the invariant |
| SharedLock.RunKeeps | src/mutex_posix.c:116-185 | so does every run |
| SharedLock.CountingKeeps | src/mutex_posix.c:149-174 | counting in and out keeps the counter equal to the number of shared holders, without wrapping |
| SharedLock.BroadcastKeeps | src/mutex_posix.c:171-176 | the broadcast leaves no sleeper behind |
| SharedLock.RwMutex.TryExclusive | src/mutex_posix.c:116-133 | each time the raw mutex comes, the steps of the machine up to returning with it or waiting; it returns exactly when nobody is counted |
| SharedLock.RwMutex.Unlock | src/mutex_posix.c:155-160 | the machine's unlock |
| SharedLock.RwMutex.EnterShared | src/mutex_posix.c:141-153 | the machine's steps of a shared lock |
| SharedLock.RwMutex.LeaveShared | src/mutex_posix.c:162-180 | the machine's steps of a shared unlock, with the broadcast when the counter reaches zero |
| SharedLock.RwMutex.Broadcast | src/mutex_posix.c:172 | every waiter, and only a waiter, is roused |
| PoolMemory.UnlinkIdleRemoves | src/proxy.c:414-419 | on a well-formed idle list the pointer updates remove exactly the k-th element, keep the list well-formed and touch nothing else |
| PoolMemory.AppendIdleAppends | src/proxy.c:446-450 | the updates append the slot, keep the list well-formed, and touch nothing else |
| PoolMemory.UnlinkCallRemoves | src/proxy.c:421-426 | the updates remove exactly the k-th element of a bucket |
| PoolMemory.PushCallPushes | src/proxy.c:428-433 | the updates put the slot at the front of its bucket |
| PoolMemory.RebucketMoves | src/proxy.c:421-433 | together they keep all 256 buckets well-formed and move the slot to the front of the bucket of its callsign, wherever it was |
| PoolMemory.WalkFollowsChain | src/proxy.c:392-400 | following the links from a place in a bucket is going along the sequence the bucket stands for |
| PoolMemory.SearchIsFirstMatch | src/proxy.c:392-400 | the search returns the first free slot of the bucket that stores the callsign, within as many steps as there are slots |
| PoolMemory.FirstMatchFinds | src/proxy.c:392-400 | it finds one exactly when there is one, and the one it finds matches |
| PoolMemory.TakeRefines | src/proxy.c:414-433 | claiming, unlinking and rebucketing a listed slot is: remove from the list, move to the front, set its callsign and client, and leave every other slot's alone |
| PoolMemory.AcquireTakes | src/proxy.c:386-433 | the same for the whole critical section when the slot it settles on is on the list |
| PoolMemory.OpenedShape | src/proxy.c:757-773 | the list built at opening is well-formed and holds all slots in order; all buckets are empty |
| SlotPool.ProxyPool.Open | src/proxy.c:757-773 | the loop builds that list |
| SlotPool.ProxyPool.WriteThrough | src/proxy.c:415 | a write through a pointer to a pointer changes the cell it addresses |
| SlotPool.ProxyPool.TakeOffList | src/proxy.c:414-419 | performs the unlinking in place |
| SlotPool.ProxyPool.TakeOutOfBucket | src/proxy.c:421-426 | performs the unlinking in place, if the slot is in a bucket |
| SlotPool.ProxyPool.PutInBucket | src/proxy.c:428-433 | performs the pushing in place |
| SlotPool.ProxyPool.PutBack | src/proxy.c:447-450 | performs the appending in place |
| SlotPool.ProxyPool.FindReconnect | src/proxy.c:392-400 | the loop ends, stays inside the bucket, and returns its first match |
| SlotPool.ProxyPool.AcquireSlot | src/proxy.c:385-434 | the whole critical section, with all its outcomes |
| PoolSystem.SomeSlotIsIdle | src/proxy.c:385-391 | while some worker has no slot, the idle list is not empty (n workers, n slots) |
| PoolSystem.ChoiceIsFree | src/proxy.c:385-405 | a searching worker finds a list head, and the slot it settles on has no client |
| PoolSystem.SearchKeepsIffSafe | src/proxy.c:385-451 | the search keeps every invariant if and only if it does not take over a slot cleared but not yet put back |
| PoolSystem.StolenBreaks | src/proxy.c:392-451 | if it does take one over, the slot has two holders |
| PoolSystem.TakenKeeps | src/proxy.c:385-434 | a search that takes a listed slot keeps the invariants |
| PoolSystem.RefusedKeeps | src/proxy.c:402-412 | so does one whose slot cannot open its ports |
| PoolSystem.FinishKeeps | src/proxy_conn.c:776-795 | clearing the client keeps the invariants |
| PoolSystem.SeverKeeps | src/proxy.c:446 | clearing the link outside the mutex keeps them |
| PoolSystem.PutBackKeeps | src/proxy.c:447-451 | putting the slot back keeps them |
| PoolSystem.QuietStepKeeps | src/proxy.c:199-220 | accepting, checking, authorising, freeing and pushing keep them: a worker is on the stack of idle workers exactly when nobody has it in hand and it has no connection |
| PoolSystem.PopKeeps | src/proxy.c:994-1001 | taking a worker off the stack keeps them |
| PoolSystem.StepKeeps | src/proxy.c:322-470 | every safe step keeps them |
| PoolSystem.InitialKeeps | src/proxy.c:757-773 | they hold at opening |
| PoolSystem.RunKeeps | src/proxy.c:322-470 | they hold throughout every run of safe steps |
| PoolTheorems.EverySlotHasOnePlace | src/proxy.c:385-463 | in every such run of n workers over n slots, for any hash: list and buckets are well-formed, each slot is on the list or held by exactly one worker, and the number of slots reported in use is between 0 and n |
| PoolTheorems.NoDeadBranch | src/proxy.c:331-391 | no run meets a signalled worker without connection, an accept of a busy or unwakeable worker, a worker pushed twice, an empty list, a list head in use, or a failed search though the slot opens |
| PoolTheorems.ShutdownEndsAccepting | src/proxy.c:923-1001 | in every run from a shutdown on, no worker is taken off the stack |
| PoolTheorems.LastBackIsNextTaken | src/proxy.c:460-463 | in every run, the worker that went back to the stack last is the one taken next, and the stack is then as before |
| PoolTheorems.NotLetInGetsNothing | src/proxy.c:349-376 | in every run, a worker whose client is not let in neither searches nor has a slot before its next run |
| PoolTheorems.NoConnectionGetsNothing | src/proxy.c:331-342 | a run goes on to authorise exactly when the worker was given a connection; otherwise, in every run, the worker neither searches nor has a slot before its next run |
| PoolTheorems.SearchFinds | src/proxy.c:392-405 | with no proviso: the search succeeds exactly when a free slot last acquired under this bucket stores the callsign, and never returns a slot whose stored callsign differs |
| PoolTheorems.SearchIsScan | src/proxy.c:381-405 | if stored callsigns are those of the last acquisitions, it succeeds exactly when a scan of all slots would find a free one last acquired by this callsign, for any hash; this is the search as one step, which `PoolVisits.SearchVisitByVisit` justifies |
| PoolTheorems.FallbackIsOldest | src/proxy.c:401-405 | without a match it takes the slot that has been idle longest |
| PoolVisits.SearchVisitByVisit | src/proxy.c:392-405 | with any steps of other workers that need no pool mutex between two visits of the bucket, the search settles on the slot it would have settled on in one step, or on one that is held; so a safe search chooses as one step would |
| PoolVisits.RunDrifts | src/proxy_conn.c:790-794 | such steps change nothing a search looks at except to clear the client of a slot that is held |
| PoolTheorems.TruthfulUnlessOverwritten | src/proxy_conn.c:710-719 | a step makes a stored callsign stale if and only if it is a refused fallback onto a slot of another callsign |
| PoolTheorems.RefusedOverwrites | src/proxy_conn.c:718-761 | the same for the refused search by itself |
| PoolRace.StolenSlotLosesTheList | src/proxy.c:392-451 | a run of two workers and two slots, safe up to its last step, after which both hold slot 0 and the list is empty |
| PoolWorkers.StepFollows | src/worker.c:108-150 | a step of the pool takes each of its workers where the corresponding steps of the worker machine take that machine |
| PoolWorkers.RunFollows | src/proxy.c:322-470 | so every run of the pool is, for each worker, a run of the worker machine |
| PoolWorkers.IdleWorkersOweNothing | src/worker.c:108-150 | hence a worker of the pool is idle only when each connection accepted for it has had its run |
| PoolStale.RefusedVisitLeavesItsCallsign | src/proxy_conn.c:718-761 | a run of one worker and one slot to a search as B whose slot, last acquired by A, does not open, and which leaves B stored there |
| SlotForwarders.ForwardersRestBetweenClients | src/proxy_conn.c:776-795 | in every run of accepts, opens, closes and finishes of a slot: from the end of finish to the next accept no forwarder runs or has work pending, and a forwarder uses only a client connection that has not been freed |
| SlotForwarders.StepKeeps | src/proxy_conn.c:702-795 | every step keeps that; which forwarder a step wakes is `SlotForwarders.WakesGiven` |
| SlotForwarders.GoodWait | src/worker.c:270-289 | a wait for idle that returns leaves the forwarder at rest |
| SlotForwarders.AcceptSucceedsIff | src/proxy_conn.c:702-761 | an accept comes to serve its connection exactly when the ports open, then the control forwarder and then the data forwarder can be woken; otherwise it goes to finish |
| SlotForwarders.WakesGiven | src/proxy_conn.c:730-745 | each step wakes exactly the forwarder it is for: accept first control, then data, an open request TCP, and no other step any |
| SlotForwarders.ServedByBothForwarders | src/proxy_conn.c:702-761 | in every run from a claim: while the client is served the ports are open and the control and the data forwarder have each been woken once |
| SlotForwarders.StartReadies | src/proxy_conn.c:951-963 | a started forwarder can be woken, and the others are as they were |
| SlotForwarders.NoServiceOnceJoined | src/proxy_conn.c:977-989 | in every run from the join of the control or the data forwarder until it is started again, no client is served |
| Md5.F | src/md5.c:51 | the rewritten F has the low 32 bits of RFC 1321's F, for words of any width |
| Md5.G | src/md5.c:52 | so has G |
| Md5.H | src/md5.c:53 | so has H |
| Md5.H2 | src/md5.c:54 | so has its re-associated form |
| Md5.I | src/md5.c:55 | so has I, for words of any width from 32 bits |
| Md5.RotationTurns | src/md5.c:60-63 | a rotation takes a word apart at its top s bits and puts the two parts together the other way round |
| Md5.Step | src/md5.c:60-63 | one step, masked before the rotation, has the low 32 bits of RFC 1321's operation, whatever stands above the low 32 bits of its operands |
| Md5.Round1 | src/md5.c:112-128 | the sixteen unrolled steps are round 1 of RFC 1321 |
| Md5.Round2 | src/md5.c:130-146 | and of round 2 |
| Md5.Round3 | src/md5.c:148-164 | and of round 3, alternating the two forms of H |
| Md5.Round4 | src/md5.c:166-182 | and of round 4 |
| Md5Stream.Context.Init | src/md5.c:200-209 | an empty message and the initial chaining words |
| Md5Stream.Context.Body | src/md5.c:93-198 | the loop over blocks folds RFC 1321's compression over the data |
| Md5Stream.Context.Load | src/md5.c:73-86 | the loaded words have the block's 32-bit words as their low bits, whether loaded byte by byte or at full width |
| Md5Stream.Context.OneBlock | src/md5.c:106-190 | one block is one compression |
| Md5Stream.Context.Count | src/md5.c:216-219 | the split counter counts the message's bytes |
| Md5Stream.Context.Update | src/md5.c:211-243 | the context stands for the message so far and the new data, with any division between buffer and blocks |
| Md5Stream.Context.Final | src/md5.c:245-294 | the result is RFC 1321's digest of the message, padded and with its bit length, in one more block or two |
| Md5Stream.DigestOfPieces | include/md5.h:31 | however a message is cut into updates and whatever the word width from 32 bits, the result is RFC 1321's digest of the whole |
| Md5Stream.CounterModulus | src/md5.c:216-219 | with 32-bit words the counter is the byte count modulo 2^61 |
| Md5Stream.CountIsBitLength | src/md5.c:264-272 | the length field is the bit length modulo 2^64 |
| Md5Stream.PaddedTail | src/md5.c:249-262 | buffer, mark and zeros are RFC 1321's padding whichever branch is taken |
| Frames.ParseUndoesEncode | include/proxy_msg.h:121-137 | parsing a frame off the front of a stream undoes encoding it, and leaves the rest |
| Frames.ParseIsEncoded | include/proxy_msg.h:121-137 | whatever parses is the encoding of what was parsed |
| Frames.EncodedLayout | include/proxy_msg.h:121-137 | byte by byte: kind, four of address, four of size with the low one first, payload |
| Frames.ParseAllUndoesEncodeAll | src/proxy_client.c:171-185 | a stream of frames parses back to the frames |
| Frames.ChunksCover | src/proxy_conn.c:468-470 | the buffer-sized pieces of a payload are not empty, fit the buffer and together are the payload |
| Connections.Conn.ReceiveSome | src/conn.c:512-532 | one receive of the system: any non-empty prefix, the end, or an error |
| Connections.Conn.Receive | src/conn.c:495-541 | for every pattern of short reads exactly the bytes asked for are taken and stored in place, or an error is returned; the end of the stream is an error |
| Connections.Conn.Send | src/conn.c:587-631 | what goes out for every pattern of partial sends, and that it is all or nothing when the system takes everything at once |
| Connections.IntactIffOneValue | src/conn.c:598-620 | a buffer arrives intact however the system splits it if and only if all its bytes are the same |
| Connections.SplitIsHarmlessIffSingle | src/conn.c:598-620 | a split serves every buffer of its length if and only if it is a single take |
| Connections.FirstByteTwice | src/conn.c:598-620 | two bytes sent one at a time arrive as the first byte twice |
| ProxyConnection.ProxyConn.DrainToUdp | src/proxy_conn.c:468-489 | the payload is taken off the stream exactly and becomes datagrams of at most 4096 bytes to the header's address, though it overwrites the header's buffer; if the stream ends first, the whole buffers received became datagrams |
| ProxyConnection.ProxyConn.DrainToTcp | src/proxy_conn.c:570-617 | the payload is taken off exactly, also after the remote host fails; what the host got is a prefix of the pieces, all of them if it is sound; the client is sent a close exactly when some piece was not delivered, and then the connection is closed; if the stream ends first, the same holds of the whole buffers received, without a close |
| ProxyConnection.ProxyConn.ForwardPart | src/proxy_conn.c:596-611 | a part is delivered or the connection is closed |
| ProxyConnection.ProxyConn.OpenTcp | src/proxy_conn.c:642-674 | a working connect replaces the connection, which stays if waking works too; a failed one leaves connection and host as they were; the status sent is the first result that failed |
| ProxyConnection.ProxyConn.SendTcpClose | src/proxy_conn.c:677-697 | a whole close frame or nothing goes out |
| ProxyConnection.ProxyConn.Dispatch | src/proxy_conn.c:533-553 | each kind of message has exactly its effect, which `ProxyConnectionLaws` states in the numbers of the wire, or the effect of its whole buffers if the stream ends in its payload; an unknown kind is refused and changes nothing |
| ProxyConnection.ProxyConn.Process | src/proxy_conn.c:918-942 | success takes exactly one message off the stream and has exactly its effect on the datagrams; with a sound client a complete known message succeeds, whatever the remote host does, and has exactly its effect on remote host, replies and connection, given how many pieces the host took, which is all if it is sound; a message that breaks off has the effect of its whole buffers; an unknown kind costs its header and changes nothing |
| ProxyConnection.ProxyConn.Serve | src/proxy.c:436-438 | with a sound client every stream is served message by message, and the effects are those of its whole messages in turn and then of the whole buffers of a message that breaks off, also when the host fails or the forwarder closes the connection between messages |
| ProxyConnection.ServedIffPlain | src/proxy_conn.c:533-553 | an encoded sequence of frames is read back frame by frame to the end if and only if every kind is known and opens and closes are empty |
| ProxyConnection.OpenWithPayloadDesynchronises | src/proxy_conn.c:619-675 | an open with one byte of payload is not |
| ProxyConnection.DatagramsCarry | src/proxy_conn.c:468-489 | the datagrams of a payload go to one place, are of 1 to 4096 bytes, and carry the payload in order |
| ProxyConnection.StatusIsZero | src/proxy_conn.c:655-662 | the status bytes are zero exactly when connecting and waking worked |
| ProxyConnection.StatusTellsIff | src/conn.c:425-451 | the status tells whether there is a connection if and only if connecting works or there was none before |
| ProxyConnection.OpenIff | src/proxy_conn.c:555-675 | after any messages there is a connection if and only if one opened it, or there was one, and since then no message replaced it, closed it, lost it or failed to deliver |
| ProxyConnection.DataGoesToTheLastDialled | src/conn.c:425-451 | every host keeps what it was sent; only the host of the last working connect is sent more, only by data messages |
| ProxyConnection.HostsGetTheirShares | src/conn.c:425-451 | over any sequence of messages each host is sent, on top of what it had, exactly what was delivered while it was the last one dialled |
| ProxyConnection.RefusedOpenKeepsTheFirstHost | src/proxy_conn.c:642-674 | an open that works, one that is refused, and data: both statuses are sent and the data goes to the first host |
| ProxyConnectionLaws.EffectRoutes | src/proxy_conn.c:456-531 | a message of kind 5 sends its payload from the data socket to port 5198, one of kind 6 from the control socket to port 5199, of the address in its header, in datagrams of 4096 bytes and a rest; no other kind sends any |
| ProxyConnectionLaws.BrokenRoutes | src/proxy_conn.c:456-617 | the same of a message that breaks off, for the whole buffers of its payload; to the remote host goes a front of them, all if it takes them; no reply |
| ProxyConnectionLaws.SocketsGetTheirOwn | src/proxy_conn.c:456-531 | over any messages each socket sends exactly the datagrams of the messages of its own kind, in order |
| ProxyConnectionLaws.OpenIsAnswered | src/proxy_conn.c:619-675 | an open is answered by one message of kind 4 with four bytes: zero exactly when connecting and waking worked, otherwise the result that failed first |
| ProxyConnectionLaws.DataIsAnsweredIffLost | src/proxy_conn.c:570-617 | the remote host gets a front of the payload; an empty message of kind 3 goes back exactly when that is not all of it |
| ProxyConnectionLaws.OthersAreNotAnswered | src/proxy_conn.c:533-568 | no other kind has a reply |
| ProxyConnectionLaws.KindsServed | src/proxy_conn.c:533-553 | kinds 2, 5 and 6 are served with any payload, kinds 1 and 3 with none, and no other kind is |
| ProxyConnectionLaws.KindsThatOpenAndEnd | src/proxy_conn.c:555-675 | only kind 1 dials, and only if connecting works; kind 3 always ends the connection |
| ProxyConnectionLaws.ServedUpToTheRest | src/proxy_conn.c:918-942 | of a stream of plain frames and a rest too short for a message, the frames are served and the rest is left |
| ProxyConnectionLaws.CutShort | src/proxy_conn.c:456-617 | wherever a stream ends inside a message of kind 2, 5 or 6, the part of the payload that came has the effect of a message that breaks off; a part of a header has none |
| Forwarding.Forwarder.SendBuffer | src/proxy_conn.c:391-406 | the buffer sent is the frame of what was received behind the header, whatever the buffer held before |
| Forwarding.Forwarder.ForwardPacket | src/proxy_conn.c:224-240 | a packet, cut at 4087 bytes, goes out as one frame with its address |
| Forwarding.Forwarder.ForwardUdp | src/proxy_conn.c:224-266 | the client gets the frames of the packets in order, up to the first empty packet; if a send fails, those before it |
| Forwarding.Forwarder.ForwardSome | src/proxy_conn.c:391-431 | what one receive from the remote host brings goes out as one frame |
| Forwarding.Forwarder.ForwardTcp | src/proxy_conn.c:391-449 | the client gets frames whose payloads together are the remote host's bytes, then a close; if a send fails, the frames before it and no close |
| Forwarding.WholeIffFits | src/proxy_conn.c:224-266 | every packet becomes a frame with all its bytes if and only if each has 1 to 4087 bytes |
| Forwarding.EmptyPacketEndsIt | src/proxy_conn.c:263-265 | a packet behind an empty one is never forwarded |
| ClientStream.StreamIsWholeFrames | src/proxy_conn.c:235-240 | for every interleaving of the three forwarders and the processing thread, byte by byte: what can be parsed off the client's stream is at every moment exactly the frames sent so far in order, none over 4096 bytes, with nothing left over between sends |
| ClientStream.SenderOrderIsKept | src/proxy_conn.c:224-266 | each sender's frames are on the stream in the order it prepared them, less failed ones, up to the one under way |
| ClientStream.StoppedSendsNothing | src/proxy_conn.c:224-266 | in every run from the stop of a sender to its restart it puts nothing on the stream |
| ClientStream.ReadyAgain | src/proxy_conn.c:224-266 | after a send, a failed one it survives or a restart, a sender can prepare any frame of its kind |
| ClientStream.StepKeeps | src/proxy_conn.c:667-697 | every step keeps the stream equal to the sent frames and the part of the mutex holder's frame that is out |
| ClientStream.PartialFrame | src/proxy_client.c:171-185 | nothing parses before a frame is complete |
| ProxyClient.Client.Receive | src/proxy_client.c:171-185 | success returns exactly the next frame; a complete frame succeeds if and only if its payload fits the caller's buffer, and otherwise only the header has been taken |
| ProxyClient.Client.ReceiveAll | src/proxy_client.c:171-185 | receiving again and again returns a prefix of the frames on the stream, and all of them if their payloads fit the buffer |
| ProxyClient.Client.Send | src/proxy_client.c:187-198 | success puts exactly the frame on the stream; failure leaves nothing or the bare header |
| Hex.FromHexUndoesToHex | src/digest.c:125-180 | decoding undoes encoding for all 32-bit values |
| Hex.ToHexUndoesFromHexIff | src/digest.c:125-180 | encoding undoes decoding if and only if the text is lower-case base 16 |
| Hex.WriteHex8 | src/digest.c:103-112 | writes two digits in place |
| Hex.WriteHex32 | src/digest.c:125-131 | writes the eight digits in place, most significant first |
| Hex.ToHexIsBase16 | src/digest.c:103-131 | the eight characters, read as a number to base 16 with small letters, are the value |
| Hex.DecodesTo | src/digest.c:142-160 | what each of the 256 characters decodes to: digits and letters of either case to their value, what stands right before the letters to what the subtraction leaves, the rest to zero |
| Handshake.GetDigest | src/digest.c:91-101 | RFC 1321's digest of the data |
| Handshake.GetPasswordResponse | src/proxy.c:1028-1052 | the digest of a text without lower-case letters that is the password up to case, and of the nonce in base 16 |
| Handshake.UpperIffSame | src/proxy.c:1035-1043 | passwords are upper-cased to the same text if and only if they differ at most in the case of ASCII letters; which text is `Handshake.UpperAllIsUpper` |
| Handshake.UpperAllIsUpper | src/proxy.c:1035-1043 | no byte of the upper-cased password is a lower-case letter, each such letter has become its capital, and every other byte is as it was |
| Handshake.UpperIsUnique | src/proxy.c:1035-1043 | no other text is the password up to case without lower-case letters |
| Handshake.FindNewline | src/proxy.c:265-267 | the first newline among eleven bytes, or eleven |
| Handshake.Matches | src/proxy.c:280-281 | all sixteen bytes are compared |
| Handshake.ProxyWorker.ReadCallsign | src/proxy.c:261-274 | the first read yields the callsign before the newline, at most ten bytes, or the right error |
| Handshake.ProxyWorker.ReadAnswer | src/proxy.c:261-303 | two reads that stay inside 28 bytes take exactly the answer and reach the verdict that the answer read as a whole has; the complaint sent is that of the verdict |
| Handshake.ProxyWorker.Refuse | src/proxy.c:286-288 | a refusal never succeeds |
| Handshake.ComplaintTells | src/proxy.c:232-300 | a wrong password is answered by a message of kind 7 with the byte 1, a callsign that is not allowed by one with the byte 2, and nothing else by a complaint |
| Handshake.ProxyWorker.Authorize | src/proxy.c:239-304 | the nonce goes out, and success means exactly: right digest and allowed callsign |
| Handshake.LoginClient.Connect | src/proxy_client.c:81-118 | the client answers with callsign, newline and response to the nonce received; every failure closes the connection |
| Handshake.AnswerIffProper | src/proxy.c:255-280 | for every callsign and response: the proxy recovers the callsign and takes exactly its length and 17 bytes if and only if it has at most ten bytes and no newline or zero |
| Handshake.WrongAnswer | src/proxy.c:280-288 | with a proper callsign a different response is always refused |
| Handshake.TakesWhatDecides | src/proxy.c:255-280 | the verdict on a stream is that on its front of the length taken, and no shorter front has one |
| Handshake.ShortIffUndecided | src/proxy.c:255-280 | the proxy wants more exactly when what comes could change the verdict, and gives a client up exactly when its first eleven of sixteen bytes hold no newline |
| Handshake.LoginRoundTrip | src/proxy_client.c:81-107 | for every nonce, proper callsign and passwords equal up to case: the password check passes and exactly callsign and 17 bytes are taken |
| Conf.Reader.Push | src/conf.c:127-141 | a character is added with room for one more, growing the buffer by 128 when needed |
| Conf.Reader.ReadLine | src/conf.c:106-147 | the line up to its newline, followed by a zero in bounds, whatever buffer is passed in; the stream is left behind it |
| Conf.Reader.ReadAll | src/conf.c:436-456 | the lines read are single lines and together are the file |
| Conf.SkipFront | src/conf.c:158-159 | skips exactly the leading padding |
| Conf.SkipTo | src/conf.c:166-171 | stops at the first such character or the end |
| Conf.TrimBack | src/conf.c:175-178 | drops exactly the trailing padding |
| Conf.ParseLine | src/conf.c:149-195 | the index-moving loops compute the pair of the line |
| Conf.RenderedParses | src/conf.c:149-195 | a pair written with any padding parses to that pair |
| Conf.ParsedIsRendered | src/conf.c:149-195 | a line that parses to a pair is that pair with padding |
| Conf.Characters | src/conf.c:149-195 | padding is space and tab, at the ends of a line also newline and return; a line that begins with a number sign or has no equals sign holds no pair |
| Conf.AddressList.CountEntries | src/conf.c:390-394 | the 16-bit count, on top of what it was, without the first character |
| Conf.AddressList.Set | src/conf.c:378-415 | the list after setting a value, the empty one included |
| Conf.FillEntries | src/conf.c:402-415 | the filling loop takes the value apart at its commas, and yields empty entries past its end |
| Conf.MiscountedFill | src/conf.c:402-415 | for any count: counted too low, the last entries are missing; counted too high, empty entries follow |
| Conf.ListIffCounted | src/conf.c:378-415 | the entries joined by commas are the value if and only if the count stood at one for a leading comma and at zero otherwise, and there are fewer than 65536 entries |
| Conf.SetTwice | src/conf.c:378-415 | a value set twice on a new list is given back if and only if its only comma is its first character |

## Left out

- Liveness beyond "the next critical section does it": that threads are scheduled, that blocked receives return, that `finish` ends.
- Sockets, addresses and time-outs (src/conn.c apart from receiving and sending); a connection is what it has received and sent.
- Callsign authorisation (src/regex.c) is an arbitrary predicate, the hash (src/pearson.c) an arbitrary function, the nonce (src/rand.c) an arbitrary number.
- Failing allocations, and failures of the thread library's own calls.
- Starting and stopping the proxy as a whole, the log, the command line, the service wrapper and the Windows variants.
- The text of the registration report, and configuration values read with library scanning.
- WorkerMachine.EveryWakeIsServed: a worker is not freed, and starting its thread succeeds.
- RegistrationService.AcceptedIsReported: a service without a registration name, whose start does nothing, is not modelled; the lemma speaks of the report function's reads; a read of the unknown status sends nothing, and whether the registrar got the report is not modelled.
- PoolSystem.RunKeeps: for runs whose searches take over no slot that is cleared and not yet put back, which is the exact condition; slots are not stopped and joined while in use.
- SharedLock.NoForgottenWriter: `condvar_wait` of the same file is not part of the model; it retakes the raw mutex without looking at the counter.
- SlotForwarders.ForwardersRestBetweenClients: forwarder threads are joined only while the slot is free.
- PoolVisits.SearchVisitByVisit: is about the choice; the pointer updates that follow it are one step, as they touch only links that nobody else writes without the mutex.
- ProxyConnection.OpenIff: that a close takes effect at once is assumed; after a refused open the code no longer knows the descriptor it would have to shut down (src/conn.c:442, src/conn.c:785-790), so that a later close waits for the lock until the forwarder's receive returns.
- ClientStream.StreamIsWholeFrames: a send takes the whole frame or nothing, as in `Connections` for a system that takes all it is offered.
- ProxyConnection.ProxyConn.OpenTcp: the remote port is always 5200 (src/proxy_conn.c:643) and not part of the model.
- ProxyConnection.ProxyConn.Process: the same of sends; a datagram handed to the system counts as sent, as the code does not retry it; the outcome of connecting and of waking is a parameter; a connection the forwarder closes during a message shows as a failing send.
- Forwarding.Forwarder.ForwardUdp: the packets that arrive are a parameter; errors of the UDP socket end the loop like the end of the packets.
- Handshake.ProxyWorker.Authorize: the passwords are byte strings; as C strings they have no zero in them.
- Hex.ToHexUndoesFromHexIff: characters are unsigned; those above 127 decode to zero on hosts with signed characters too.
- Conf.ParseLine: the line is the text before its terminating zero; which keys exist is not modelled apart from the address list.
- Md5Stream.Context.Update: the length of one update is unbounded, where the source's is an unsigned long.
- Md5Stream.Context.Load: with words wider than 32 bits the full-width load of a block's last word reads past the block; that memory is arbitrary here, and reading it is not modelled.
- Sizes in message headers are stored low-order byte first, as on the hosts the source is written for.
