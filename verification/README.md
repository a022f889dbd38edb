# kinetic-c message bus: a Dafny model

kinetic-c is an asynchronous client for Kinetic drives. Its core is a hand-written message
bus: client threads block in `Bus_SendRequest` while their bytes go out, a listener thread
matches responses to requests, a threadpool runs the callbacks, and a PDU parser turns socket
reads into messages. This project models that core and proves what it keeps over whole runs.

| file | what it models |
|---|---|
| `ThreadpoolRing.dfy` | the lock-free task ring, as a transition system over any number of producers and workers, one atomic step per shared access |
| `RingRuns.dfy` | runs of the ring in which a property fails, and assertions that read two heads one after the other |
| `RingOffers.dfy` | what becomes of the tasks offered to the ring: reserved, refused, or still offered |
| `RxTable.dfy` | one entry of the listener's table of pending messages: what each command, response, error and tick does to it |
| `BusProtocol.dfy` | the request/response protocol between senders, the listener's command pipe, its table and the threadpool; a run is any sequence of moves |
| `BusAssertions.dfy` | which moves of that protocol violate an assertion, and which runs never do |
| `BusVerdicts.dfy` | each way a request can end, the status its callback then reports, and that this verdict stands |
| `BusWaiting.dfy` | how long an entry of the table can stay in use |
| `BusErrors.dfy` | what a socket error does to requests on other sockets |
| `BusExamples.dfy` | runs of the protocol from its initial state in which a property fails |
| `Listener.dfy` | the listener's own bookkeeping as a class: entry array, freelist, high-water mark, idle flag |
| `SocketArrays.dfy` | the two parallel arrays of tracked sockets |
| `Yacht.dfy` | the open-addressing hash table that maps descriptors to connections |
| `PduFraming.dfy` | byte order, the PDU printer, the incremental parser and the shared read buffer |
| `Session.dfy` | the counting semaphore, the send mutex, the sequence counter and the bytes on the wire |
| `P2P.dfy` | peer-to-peer operation trees: builder and status write-back |
| `Wrappers.dfy` | the option type |

`dafny verify dfyconfig.toml` checks everything.

How the pieces are stated. Shared-memory protocols (`ThreadpoolRing`, `BusProtocol`,
`Session`, the reader in `PduFraming`) are functions from a state and a chosen step to the next
state, so that a theorem about `Exec(Init(..), steps)` for all `steps` speaks about every
interleaving. Structures that one thread updates in place (`Listener`, `Sockets`, `HashTable`,
`SocketInfo`, `CountingSemaphore`, `Operation`) are classes whose methods are proved equal to
functions on values; the theorems are about those functions.

Where the code is narrower than its intent, the code is modelled as it is, a lemma shows the
case that fails, and a theorem says exactly when the intended property holds:

* `rh > ch - 1` on line 325 of threadpool.c is an unsigned comparison; a worker that read the
  commit head as 0 passes it and may claim an index nobody has written. The four heads stay
  ordered throughout a run if and only if no such claim succeeds (`HeadsOrderedIff`). Workers
  that first look at the ring after the first commit never make one. A worker can get there
  earlier: a producer stalls after reserving index 0, another one schedules two tasks, returns
  and wakes it (`EarlyClaimExample`).
* The HOLD timeout is passed as an `int16_t`. The HOLD outlasts its request, as the comment in
  send.c demands, if and only if the request timeout is at most 32762 seconds. From 32763 to
  65531 the HOLD never expires; from 65532 on it has one to four ticks while the request may
  take 18 hours (`HoldExpiresIff`, `HoldTimeoutRange`).
* An EXPECT whose HOLD is gone is dropped without a callback (`ExpiredHoldDropsRequest`, which
  takes four ticks or fewer for the last four timeouts). No request is lost if and only if no
  HOLD meets a full table and none times out, and then no box is dropped (`NothingLostIff`,
  `ExpectMeetsHold`).
* `set_error_for_socket` marks every HOLD, also those of other sockets. A request whose own
  socket is healthy is failed by the listener if and only if its HOLD was in the table when
  another socket failed (`ErrorIsolatesIff`, `ForeignErrorExample`).
* The listener's assertions can fire (`AssertionFailsExample` for line 255 of listener_task.c).
  A run is free of that if and only if none of its moves brings a second response to an entry
  that still keeps its first, or ticks an entry whose failure notice and then whose response
  the threadpool refused (`NoAssertionFailsIff`, `DoomedEntries`).
* One pass of `move_errored_active_sockets_to_end` does not look again at the socket it swaps
  in (`PassIncompleteExample`); `PassCompleteIff` says which tables one pass finishes.
* `Yacht_Get` and `insert` stop at tombstones, so a removal can hide another key
  (`TombstoneHidesExample`) and a removed value can come back (`StaleValueReturnsExample`).
  Get agrees with the last Set at every moment of a history if and only if no removal hits a
  bucket on another key's path (`HistoryIsMapIff`).
* A PDU with neither protobuf nor value makes the reader ask for zero bytes and wait forever
  (`EmptyPduStalls`); `RoundTripIff` says which PDU streams survive printing and parsing. The version prefix is
  passed on unchecked.
* `KineticCountingSemaphore_Give` signals only when the count was 0. It forgets nobody if and
  only if no two threads sleep unwoken (`GiveForgetsNobodyIff`, `SecondWaiterIsForgotten`);
  with the send mutex held around Take there never are two.
* Lines 119 and 142 of threadpool.c compare two heads read one after the other, in an order C
  leaves open. With the left one read first the assertions hold (`AssertionsAcrossSteps`). With
  the right one read first each can fail (`ReleaseReadFirstExample`, `CommitReadFirstExample`),
  and the difference on line 119 is bounded by 2 * size - 5 (`ReleaseReadFirst`).

## Model

| member | source | states |
|---|---|---|
| `ThreadpoolRing.HeadsOrderedIff` | src/lib/threadpool/threadpool.c:106-145 | for every schedule of any number of threads, release <= request <= commit <= reserve and reserve - release <= size - 2 hold at every step if and only if no worker makes a premature claim |
| `ThreadpoolRing.StepKeepsInv` | src/lib/threadpool/threadpool.c:322-362 | every atomic step of every thread except a premature claim keeps the ring invariant: what each live slot holds, what each thread may believe about the heads, that a marked head has a helper on its way |
| `ThreadpoolRing.InvAfter` | src/lib/threadpool/threadpool.c:97-145 | the invariant holds after every prefix of every run without a premature claim |
| `ThreadpoolRing.StepRefinesFifo` | src/lib/threadpool/threadpool.c:117-130 | each step of the ring is an enqueue, a dequeue to one worker, a completion by that worker of the very task it dequeued, or nothing, of an unbounded FIFO |
| `ThreadpoolRing.RunRefinesFifo` | src/lib/threadpool/threadpool.c:322-343 | a whole run without premature claims is a run of the FIFO, which starts empty |
| `ThreadpoolRing.RunsWhatWasScheduled` | src/lib/threadpool/threadpool.c:328-341 | in every such run, what a worker executed at index n is the task of the producer that reserved n, no index is executed twice, and a committed live slot still holds its task |
| `RingOffers.EveryOfferAccountedFor` | src/lib/threadpool/threadpool.c:97-131 | in every run, as often as a producer was called with a task, as often is that task at an index it reserved, given up on at a reading of the heads that leaves no room, or still being offered: a lost race loses no task |
| `RingOffers.CallEndsIff` | src/lib/threadpool/threadpool.c:109-139 | a call of Threadpool_Schedule ends if and only if it reads a full ring, or, once its slot is marked, a commit head that is not |
| `RingOffers.WorkerRestsIff` | src/lib/threadpool/threadpool.c:322-343 | a worker that loses a race tries again; it rests if and only if it reads that every committed index is taken, or its task is done |
| `RingOffers.ReleaseEndsIff` | src/lib/threadpool/threadpool.c:351-362 | a worker leaves the release loop if and only if the head it read is not marked released |
| `ThreadpoolRing.NothingStranded` | src/lib/threadpool/threadpool.c:351-362 | when no producer is between its reserve and its return, commit == reserve; when no worker is between its claim and the end of its release, release == request |
| `ThreadpoolRing.LateWorkersNeverPremature` | src/lib/threadpool/threadpool.c:322-327 | if no worker reads the commit head before the first commit, no claim is premature |
| `RingRuns.EarlyWorkerBreaksOrder` | src/lib/threadpool/threadpool.c:323-328 | whenever commit == request == 0, whatever the producers have done, four steps of one waiting worker drive request past commit |
| `RingRuns.EarlyWorkerClaims` | src/lib/threadpool/threadpool.c:322-328 | in that situation the worker is left copying index 0 |
| `RingRuns.SchedulesBehindZero` | src/lib/threadpool/threadpool.c:97-145 | while index 0 is unwritten, a whole call of Threadpool_Schedule by another producer succeeds and returns without moving the commit head |
| `RingRuns.EarlyClaimExample` | src/lib/threadpool/threadpool.c:325-330 | a run from the initial state that the code can take: producer 0 stalls after its reserve, producer 1 returns from two calls, the woken worker claims index 0 although its slot lacks the commit mark |
| `ThreadpoolRing.CommittedIsPublished` | src/lib/threadpool/threadpool.c:133-145 | a live slot that carries its commit mark holds exactly the task its index was reserved with |
| `ThreadpoolRing.WindowDistinct` | src/lib/threadpool/threadpool.c:120-123 | no two live indices share a slot |
| `ThreadpoolRing.AssertionsHold` | src/lib/threadpool/threadpool.c:119-142 | the assertions of the scheduling, committing, claiming and releasing code hold in every invariant state, heads read at one moment |
| `RingRuns.AssertionsAcrossSteps` | src/lib/threadpool/threadpool.c:119-142 | in every run without premature claims, the assertions on lines 119 and 142 also hold when the left head is read any number of steps before the right one |
| `RingRuns.ReleaseReadFirst` | src/lib/threadpool/threadpool.c:119 | when line 119 reads its right head first, any number of steps before the left one, the difference does not wrap and is at most 2 * size - 5 |
| `RingRuns.ReleaseReadFirstExample` | src/lib/threadpool/threadpool.c:119 | in that order, in a ring of any size from 4 on, a run without premature claims makes the difference the queue size, so that the assertion fails |
| `RingRuns.CommitReadFirstExample` | src/lib/threadpool/threadpool.c:141-143 | when line 142 reads its right head first, a run without premature claims lets the request head pass the commit head that was read, so that the assertion fails |
| `RxTable.HoldExpiresIff` | src/lib/bus/listener_task.c:138-163 | an abandoned HOLD is ever given up if and only if its timeout, cut to 16 bits, is at least 1, and then after exactly that many ticks |
| `RxTable.HoldTimeoutRange` | src/lib/bus/send.c:88-102 | the HOLD outlasts its request, by the intended five seconds, exactly for timeouts up to 32762; it never expires exactly from 32763 to 65531; and exactly the last four timeouts leave it at most as long as its request, namely one to four ticks |
| `RxTable.ExpectTimesOutExactly` | src/lib/bus/listener_task.c:183-211 | an EXPECT without a response is reported as timed out by exactly the tick its timeout names, no earlier and no later; a clock failure puts that off |
| `RxTable.ForeignErrorFailsRequest` | src/lib/bus/listener_cmd.c:314-326 | an error on another socket makes a held request fail with RX_FAILURE although its response arrives, before or after the error |
| `BusProtocol.StepKeepsSingleOwner` | src/lib/bus/bus_internal_types.h:31-33 | every move of every thread keeps each allocated box in exactly one place, once: with a sender, in a queued EXPECT, in a table entry, in the threadpool, or gone |
| `BusProtocol.CallbackAtMostOnce` | src/lib/bus/bus.c:295-321 | in every run single ownership holds, each callback runs at most once, and never for a request that Bus_SendRequest returned false for |
| `BusProtocol.StepKeepsBoxes` | src/lib/bus/listener_task.c:464-521 | every move keeps: a box that claims success carries a response that arrived for its own key, and cleared entries are clean |
| `BusProtocol.SuccessCarriesOwnResponse` | src/lib/bus/listener_io.c:332-378 | in every run, a callback with BUS_SEND_SUCCESS carries a response that arrived on the request's own socket with its own sequence ID, however often delivery was retried; no callback sees an undefined status or REQUEST_COMPLETE |
| `BusVerdicts.AnsweredInTimeSucceeds` | src/lib/bus/listener_task.c:464-521 | in every run, a response that comes while its EXPECT waits and that the threadpool takes ends the request in success with that response, and no continuation changes that |
| `BusVerdicts.AnsweredEarlySucceeds` | src/lib/bus/listener_cmd.c:293-313 | the same for a response that comes during HOLD, once the EXPECT is handled |
| `BusVerdicts.RefusedResponseKept` | src/lib/bus/listener_task.c:494-521 | a response that the threadpool refuses stays in its entry as a success ready for delivery |
| `BusVerdicts.RetriesUntilAccepted` | src/lib/bus/listener_task.c:245-273 | it is delivered unchanged by the first tick at which the threadpool takes it, however many refuse before |
| `BusVerdicts.ExpectStartsWaiting` | src/lib/bus/listener_cmd.c:327-337 | an EXPECT that finds its HOLD unanswered and unmarked waits for the request's own timeout |
| `BusVerdicts.OwnErrorIsReported` | src/lib/bus/listener_io.c:283-288 | after an error on its own socket, the next tick with a willing threadpool reports every EXPECT as RX_FAILURE |
| `BusVerdicts.OwnErrorNeverTimesOut` | src/lib/bus/listener_task.c:178-182 | in every run, a request whose EXPECT was in the table when its own socket failed, and had not timed out, never ends in a timeout |
| `BusVerdicts.SendFailureIsReported` | src/lib/bus/send.c:206-238 | a send that fails after HOLD ends with that failure's status and no response |
| `BusVerdicts.RejectedNeverCalled` | src/lib/bus/bus.c:311-320 | in every run, a rejected request is given back to its caller and its callback never runs |
| `BusVerdicts.VerdictStands` | src/lib/bus/bus_internal_types.h:31-33 | once a box is with the threadpool, every continuation finishes its request with that box and no other |
| `BusVerdicts.PoolDrains` | src/lib/bus/bus.c:295-321 | running what the threadpool holds calls every box back, in order |
| `BusProtocol.ExpectFindsHold` | src/lib/bus/listener_cmd.c:286-345 | the oldest queued EXPECT finds exactly its own HOLD, unless that HOLD was lost, and then finds nothing |
| `BusProtocol.ExpectMeetsHold` | src/lib/bus/listener_cmd.c:256-345 | in every run, an EXPECT is dropped if and only if its request is among the lost ones; the assertion against a second EXPECT is unreachable |
| `BusProtocol.LostGrowsIff` | src/lib/bus/listener_cmd.c:262-270 | a move loses a request if and only if it makes the listener handle a HOLD with no entry free, or give up a HOLD whose time has run out |
| `BusProtocol.NothingLostIff` | src/lib/bus/listener_cmd.c:256-345 | in every run no request is lost if and only if no HOLD met a full table and none timed out, and then no box is ever dropped |
| `BusExamples.ExpiredHoldDropsRequest` | src/lib/bus/listener_cmd.c:343-345 | for a table of any size and every timeout whose HOLD can expire, a run from the initial state in which it does, the request is sent completely, and its box is dropped without a callback; from 65532 seconds on at most four ticks are enough |
| `BusProtocol.StepKeepsInv` | src/lib/bus/send.c:57-180 | every move keeps single ownership, genuine boxes, at most one HOLD token per request, and that senders past the acknowledgement have their HOLD in place |
| `BusProtocol.RunKeepsInv` | src/lib/bus/send_helper.c:213-244 | that invariant holds in every reachable state |
| `BusWaiting.GivenBackInTime` | src/lib/bus/listener_task.c:117-217 | from every reachable state, an entry with HOLD timeout h >= 1 and request timeout e >= 1 is inactive again within h + e of its ticks, in every continuation in which the threadpool takes tasks and no move trips an assertion |
| `BusAssertions.StepCrashesIff` | src/lib/bus/listener_task.c:245-256 | in every reachable state a move violates an assertion if and only if it brings a second response to an entry that keeps its first, or ticks a doomed entry |
| `BusAssertions.NoAssertionFailsIff` | src/lib/bus/listener_io.c:340-366 | a run of any number of senders violates no assertion if and only if none of its moves does one of those two things |
| `BusAssertions.DoomedEntries` | src/lib/bus/listener_task.c:317-345 | in every run a doomed entry got there by a refused failure notice followed by a refused response, both for its own request |
| `BusExamples.AssertionFailsExample` | src/lib/bus/listener_task.c:245-256 | for a table of any size, a run from the initial state, of one request whose timeout and then whose response is refused, after which any tick violates the assertion on line 255 |
| `BusAssertions.PromptRunsNeverCrash` | src/lib/bus/listener_task.c:245-345 | while the threadpool takes every task and peers answer each request at most once, no listener assertion fires in any run |
| `BusErrors.StepCauses` | src/lib/bus/listener_io.c:263-302 | every move keeps: a HOLD carries an error exactly if it was in the table when a socket failed, and a failed box has such a cause |
| `BusErrors.FailuresHaveCauses` | src/lib/bus/listener_task.c:317-345 | in every run a callback with RX_FAILURE has its own socket failed or its HOLD marked by another's failure, and a marked request never ends in success or timeout |
| `BusErrors.ErrorIsolatesIff` | src/lib/bus/listener_io.c:263-302 | in every run a request whose own socket never failed and that the listener finishes is failed if and only if its HOLD was in the table when another socket failed |
| `BusExamples.ForeignErrorExample` | src/lib/bus/listener_io.c:276-282 | for a table of any size, a run from the initial state in which only another socket fails, the response arrives, and the callback still reports RX_FAILURE |
| `ListenerTable.NoMoreDeliveries` | src/lib/bus/listener_task.c:134-136 | inactive entries above the scan's bound contribute nothing to a tick |
| `ListenerTable.Listener.constructor` | src/lib/bus/listener.c:57-65 | the freelist starts as all 1024 entries without repeats, every entry inactive |
| `ListenerTable.Listener.GetFreeRXInfo` | src/lib/bus/listener_helper.c:98-123 | takes the head of the freelist exactly if there is one, raises the high-water mark when needed |
| `ListenerTable.Listener.LowerMaxUsed` | src/lib/bus/listener_task.c:408-418 | afterwards the mark is the last active entry, or 0 |
| `ListenerTable.Listener.ReleaseRXInfo` | src/lib/bus/listener_task.c:357-423 | clears that entry and no other, pushes it on the freelist, keeps: freelist = inactive entries without repeats, in_use + freelist length = 1024, everything above the mark inactive |
| `ListenerTable.Listener.FindInfoBySequenceID` | src/lib/bus/listener_helper.c:125-168 | the scan up to the high-water mark returns the first match of the whole table, or none exactly if the table has none |
| `ListenerTable.Listener.HoldResponse` | src/lib/bus/listener_cmd.c:256-284 | fills one inactive entry, or changes nothing exactly if the table is full; the listener is no longer idle |
| `ListenerTable.Listener.ExpectResponse` | src/lib/bus/listener_cmd.c:286-345 | converts, delivers or drops as the entry-wise description says, on the entry that a full scan finds |
| `ListenerTable.Listener.ProcessUnpackedMessage` | src/lib/bus/listener_io.c:332-378 | stores or delivers a response on the entry that a full scan finds, or changes nothing |
| `ListenerTable.Listener.SetErrorForSocket` | src/lib/bus/listener_io.c:263-302 | marking up to the high-water mark marks the whole table |
| `ListenerTable.Listener.TickEntry` | src/lib/bus/listener_task.c:134-214 | one iteration changes only its own entry, as the entry-wise description says |
| `ListenerTable.Listener.TickEntries` | src/lib/bus/listener_task.c:134-215 | though the loop's bound sinks while it runs, the entries it leaves out have nothing pending; it stops early exactly at the first entry whose tick violates an assertion |
| `ListenerTable.Listener.Tick` | src/lib/bus/listener_task.c:117-217 | it fails if and only if some entry's tick violates an assertion; otherwise every entry gets exactly one tick, deliveries come in table order, and the listener goes idle only when nothing was pending |
| `ListenerTable.Listener.PollDelay` | src/lib/bus/listener_task.c:60-78 | the listener blocks without a timeout exactly when it is idle, and then no entry is pending |
| `ListenerInBus.TickIsEntryTicks` | src/lib/bus/listener_task.c:117-217 | the listener's whole tick is the same as a run of the protocol's single-entry ticks |
| `SocketArrays.AddAddsOne` | src/lib/bus/listener_cmd.c:159-199 | adding keeps the paired partition and adds exactly the named socket, active, unless the table is full or has it |
| `SocketArrays.RemoveDropsOne` | src/lib/bus/listener_cmd.c:216-254 | removing keeps the paired partition and drops exactly the named socket |
| `SocketArrays.StopPollingKeepsAll` | src/lib/bus/listener_io.c:304-330 | taking one errored socket out of polling keeps the partition and the tracked set |
| `SocketArrays.MoveErroredKeepsAll` | src/lib/bus/listener_io.c:304-330 | one pass keeps the partition and every socket, and only errored sockets stop being polled |
| `SocketArrays.PassCompleteIff` | src/lib/bus/listener_io.c:304-330 | one pass leaves no errored socket polled if and only if, with e errored among m active ones, none sits behind position m - e |
| `SocketArrays.PassIncompleteExample` | src/lib/bus/listener_io.c:311-327 | two errored sockets alone: the second stays polled |
| `SocketArrays.ApplyTracks` | src/lib/bus/listener_cmd.c:145-254 | every operation keeps the partition and changes the tracked set by the named descriptor only |
| `SocketArrays.Run` | src/lib/bus/listener_cmd.c:201-208 | after any sequence of operations the table is well formed, so the loop of assertions in add_socket holds |
| `SocketArrays.SetErrorMarks` | src/lib/bus/listener_io.c:293-302 | the named socket carries the error afterwards and nothing else changes |
| `SocketArrays.Sockets.SwapAt` | src/lib/bus/listener_cmd.c:145-157 | exchanges two rows of both arrays and touches no other |
| `SocketArrays.Sockets.AddSocket` | src/lib/bus/listener_cmd.c:159-199 | the arrays follow the specification and the pipe's slot 0 is untouched |
| `SocketArrays.Sockets.RemoveSocket` | src/lib/bus/listener_cmd.c:216-254 | the arrays follow the specification and the pipe's slot 0 is untouched |
| `SocketArrays.Sockets.RecordError` | src/lib/bus/listener_io.c:263-302 | the named connection carries the error, every other is untouched, and the partition is kept |
| `SocketArrays.Sockets.MoveErroredActiveSocketsToEnd` | src/lib/bus/listener_io.c:304-330 | the in-place pass over both arrays computes the specified table |
| `Yacht.WrapIsMask` | src/lib/bus/yacht.c:75 | wrapping an offset by the mask is wrapping by the size |
| `Yacht.FillKeepsReachable` | src/lib/bus/yacht.c:108-129 | filling the first free bucket of a probe keeps every live key reachable from its home over non-empty buckets |
| `Yacht.EmptyKeepsReachable` | src/lib/bus/yacht.c:179-184 | writing NO_KEY where the next bucket is empty, or a tombstone otherwise, strands no other key |
| `Yacht.HomesDistinct` | src/lib/bus/yacht.c:62-68 | in a table of at least 2^32 buckets, multiplying by the odd prime gives distinct keys distinct homes |
| `Yacht.InsertKeepsValid` | src/lib/bus/yacht.c:108-129 | insert keeps every live key reachable, whatever the probe bound |
| `Yacht.InsertFindsRoom` | src/lib/bus/yacht.c:108-129 | with every bucket probed, insert fails only in a full table |
| `Yacht.RehashSucceeds` | src/lib/bus/yacht.c:131-168 | rehashing into the doubled table never runs out of slots and leaves a valid table without tombstones |
| `Yacht.SetSucceeds` | src/lib/bus/yacht.c:94-106 | Set keeps the invariant and terminates successfully if it may grow to 2^32 buckets |
| `Yacht.SetRepresents` | src/lib/bus/yacht.c:94-106 | while no tombstone hides a key, Set updates the represented map and reports the old value, whether or not it grew; out of memory it leaves the map alone |
| `Yacht.GetRepresents` | src/lib/bus/yacht.c:70-86 | while no tombstone hides a key, Get is lookup in the represented map |
| `Yacht.RemoveComplete` | src/lib/bus/yacht.c:171-196 | over any tombstones Remove succeeds if and only if some bucket holds the key, and every other key stays in the table |
| `Yacht.HarmlessRemoval` | src/lib/bus/yacht.c:171-196 | removing a key whose bucket is on no other key's path removes it from the represented map, with or without a tombstone, and hands back its value |
| `Yacht.BlockingRemoval` | src/lib/bus/yacht.c:171-196 | removing a key whose bucket is on another key's path leaves that key in the map but hides it from Get |
| `Yacht.RemovalAgreesIff` | src/lib/bus/yacht.c:179-184 | after a removal Get agrees with the smaller map if and only if the bucket was on no other key's path |
| `Yacht.GetFindsIff` | src/lib/bus/yacht.c:70-86 | with tombstones Get finds a key if and only if some bucket holding it has no tombstone between its home and itself |
| `Yacht.TombstoneHidesExample` | src/lib/bus/yacht.c:80-82 | descriptors 1 and 17 in a default table: removing 1 hides 17 from Get but not from Remove |
| `Yacht.StaleValueReturnsExample` | src/lib/bus/yacht.c:108-129 | a key set again behind a tombstone is stored twice; after a successful removal its older value comes back |
| `Yacht.HistoryValid` | src/lib/bus/yacht.c:171-196 | over every history of Set and Remove, with growth and failed growth, Remove succeeds if and only if the key is in the table |
| `Yacht.HistoryIsMapIff` | src/lib/bus/yacht.c:62-196 | over every history of Set and Remove, with growth and failed growth, Get returns the last value set and not removed, for every key at every moment, if and only if no removal hit a bucket on another key's path |
| `Yacht.HistoryIsMap` | src/lib/bus/yacht.c:62-168 | in particular over every history without removals |
| `Yacht.InsertInto` | src/lib/bus/yacht.c:108-129 | the loop over both arrays computes the specified insert and leaves them alone when it fails |
| `Yacht.HashTable.Lookup` | src/lib/bus/yacht.c:70-86 | the bounded loop returns what the specification finds |
| `Yacht.HashTable.Grow` | src/lib/bus/yacht.c:131-168 | the table after growing is the specified rehash of the old one |
| `Yacht.HashTable.Put` | src/lib/bus/yacht.c:94-106 | the retry loop computes the specified Set |
| `Yacht.HashTable.Delete` | src/lib/bus/yacht.c:171-196 | the loop computes the specified Remove, with the old value handed back and cleared when the caller wants it |
| `PduFraming.DecodeEncode` | src/lib/kinetic_nbo.c:22-29 | decoding the big-endian bytes of a number that fits gives the number back |
| `PduFraming.SwapByteOrder` | src/lib/kinetic_nbo.c:22-29 | the loop returns the big-endian value of the bytes, kept to 64 bits |
| `PduFraming.NetworkOrder` | src/lib/kinetic_nbo.c:31-35 | the conversion writes network order on little-endian and on big-endian hosts |
| `PduFraming.FromHostU32` | src/lib/kinetic_nbo.c:31-35 | the stored result is the big-endian form of the value on either host |
| `PduFraming.ToHostU32` | src/lib/kinetic_nbo.c:37-41 | the result is the big-endian value of the stored bytes on either host |
| `PduFraming.PackMessage` | src/lib/kinetic_request.c:70-126 | the message is the prefix, both lengths in network order, the protobuf and the value, on either host, with no byte missing or left over |
| `PduFraming.UnpackHeader` | src/lib/kinetic_bus.c:51-75 | refuses exactly a wrong size or a length above 1 MiB, otherwise returns the decoded header |
| `PduFraming.SinkIsRest` | src/lib/kinetic_bus.c:77-156 | one chunk of any size up to next_read advances the incremental parser exactly as far as the whole-stream parser |
| `PduFraming.HeaderRoundTrip` | src/lib/kinetic_request.c:75-103 | a printed header decodes to its own lengths, or is refused exactly if one is above 1 MiB |
| `PduFraming.FirstFrame` | src/lib/kinetic_bus.c:88-113 | a sendable PDU at the front of a stream is parsed whole and first; any other yields an error or nothing |
| `PduFraming.EmptyPduStalls` | src/lib/kinetic_bus.c:96-104 | a PDU without protobuf and value after any sendable ones leaves the reader asking for zero bytes: those before it come out, nothing after it does |
| `PduFraming.RoundTripIff` | src/lib/kinetic_bus.c:51-156 | a printed stream parses back to the same PDUs in order if and only if each has both lengths within 1 MiB and a non-empty body |
| `PduFraming.HandleKeeps` | src/lib/bus/listener_io.c:222-261 | adding, reading and removing sockets keep the read buffer large enough for every pending read and every socket faithful to its own stream |
| `PduFraming.ReadIsReceived` | src/lib/bus/listener_io.c:236 | a read of any size up to the one asked for goes whole to its own socket's parser and leaves every other socket alone |
| `PduFraming.ReceivedIsWhatWasRead` | src/lib/bus/listener_io.c:222-261 | in every run the listener reads from exactly the sockets added and not removed since, and has received from each every byte read, in order |
| `PduFraming.EverySocketParsesItsOwnStream` | src/lib/bus/listener_task.c:446-462 | in every run over any interleaving and chunking, each socket has unpacked exactly what its own bytes contain, and accumulated + next read stays within 2 * PDU_PROTO_MAX_LEN and the next read within read_buf_size |
| `PduFraming.PeerIsUnderstood` | src/lib/kinetic_bus.c:194-210 | while a peer sends sendable PDUs the messages unpacked are always the first ones sent, the reader never stalls, and none is missing once all bytes are in |
| `PduFraming.SocketInfo.SinkCb` | src/lib/kinetic_bus.c:77-156 | the in-place parser never writes outside its buffer, moves as specified, asks for exactly what is missing, and leaves the message in the buffer |
| `PduFraming.SocketInfo.UnpackCb` | src/lib/kinetic_bus.c:170-210 | splits the buffer into protobuf and value at the header's lengths, or reports the error |
| `PduFraming.SocketInfo.ResetTransfer` | src/lib/kinetic_bus.c:39-49 | back to waiting for a header, whatever happened before |
| `CountingSemaphores.GiveForgetsNobodyIff` | src/lib/kinetic_countingsemaphore.c:58-75 | Give leaves no unwoken sleeper beside a permit if and only if no two threads slept unwoken |
| `CountingSemaphores.GiveWakesTheOne` | src/lib/kinetic_countingsemaphore.c:58-75 | so with at most one thread in Take it forgets nobody |
| `CountingSemaphores.SecondWaiterIsForgotten` | src/lib/kinetic_countingsemaphore.c:63-65 | with two waiters, one can sleep on unwoken beside an available permit |
| `CountingSemaphores.GiveCounted` | src/lib/kinetic_countingsemaphore.c:58-75 | num_waiting stays the number of sleeping threads |
| `CountingSemaphores.CountingSemaphore.constructor` | src/lib/kinetic_countingsemaphore.c:24-34 | all permits available, nobody waiting |
| `CountingSemaphores.CountingSemaphore.BeginTake` | src/lib/kinetic_countingsemaphore.c:36-56 | takes a permit exactly if there is one, else goes to sleep counted |
| `CountingSemaphores.CountingSemaphore.ResumeTake` | src/lib/kinetic_countingsemaphore.c:43-50 | a woken thread takes a permit exactly if there is one, else sleeps again |
| `CountingSemaphores.CountingSemaphore.GiveOne` | src/lib/kinetic_countingsemaphore.c:58-75 | returns one permit, wakes a sleeper only from zero, and reports whether the assertion holds |
| `Session.StepKeepsInv` | src/lib/kinetic_operation.c:53-64 | every move keeps: only the mutex owner is past the lock, permits are conserved, sequence IDs grow, the wire holds whole messages and a prefix |
| `Session.RunKeepsInv` | src/lib/kinetic_operation.c:88-142 | that invariant holds in every reachable state |
| `Session.PermitsConserved` | src/lib/kinetic_operation.c:124-169 | in every run permits plus operations between Take and Give equal the maximum, so the assertion after Give never fires |
| `Session.CompleteGivesBack` | src/lib/kinetic_operation.c:153-169 | completing an operation in flight takes it out of flight and makes one more permit available |
| `Session.AllPermitsReturn` | src/lib/kinetic_operation.c:153-169 | from every reachable state completions alone bring back all permits, but for the one the mutex owner may hold |
| `Session.BlockedTakeResumes` | src/lib/kinetic_countingsemaphore.c:36-75 | a client that finds no permit sleeps; the next completion wakes it and it takes that permit |
| `Session.WholeSend` | src/lib/kinetic_operation.c:88-142 | from every reachable state with the mutex free and a permit left, a whole send puts exactly its bytes on the wire under the next sequence ID, held before and expected after, and leaves one operation in flight |
| `Session.FailedSend` | src/lib/bus/send_helper.c:50-53 | a send that fails after n bytes leaves exactly those on the wire, expects nothing, and its operation in flight |
| `Session.RejectedSend` | src/lib/kinetic_operation.c:127-135 | a send rejected by box_msg or for want of a HOLD leaves no byte, nothing in flight, and its permit back |
| `Session.UnpackedSend` | src/lib/kinetic_operation.c:97-122 | a message that cannot be packed uses up its sequence ID and nothing else |
| `Session.SleeperGetsPermit` | src/lib/kinetic_countingsemaphore.c:36-75 | in every run a thread asleep in Take beside an available permit has been woken and its next step takes the permit |
| `Session.WireIsWholeMessages` | src/lib/bus/send_helper.c:37-128 | in every run no request is rejected as non-monotonic; until a send fails mid-message the bytes written are whole messages in sequence order and one prefix; HOLD comes before a message's first byte and EXPECT after its last |
| `Session.DoneWasBound` | src/lib/kinetic_operation.c:88-142 | in every run the messages whose last byte is out are, with the same bytes, a subsequence of those the clients bound |
| `P2P.DepthIsLongestPath` | src/lib/kinetic_builder.c:177-183 | a tree is deeper than n if and only if some path of n steps leads to a chained operation |
| `P2P.BuildP2POp` | src/lib/kinetic_builder.c:177-245 | returns the protobuf copy if and only if level + depth <= 1000, otherwise nothing |
| `P2P.BuiltMirrors` | src/lib/kinetic_builder.c:192-236 | at every path the copy has an operation exactly if the original has, with the same keys, version and peer, forced exactly if it has no version |
| `P2P.AnsweredAt` | src/lib/kinetic_callbacks.c:137-164 | at every path the operation keeps everything but its status, which is the table's entry for the code answered at that path, INVALID if its list was answered without it or without its code, and unchanged if its list was not answered |
| `P2P.SameShapeAnswersAll` | src/lib/kinetic_callbacks.c:137-164 | a response of the same shape sets every operation to the status at its path |
| `P2P.Operation.Populate` | src/lib/kinetic_callbacks.c:137-164 | the in-place recursion over the caller's tree computes the answered tree and writes nothing but statuses |
| `P2P.Operation.PopulateAt` | src/lib/kinetic_callbacks.c:142-163 | one iteration answers its own operation and what is chained below it, and no sibling |

## Left out

- Threadpool shutdown, thread creation and wake-up pipes: the drain loop is not safe beside running workers; all claims about the ring are about runs before shutdown.
- Weak memory: steps are sequentially consistent.
- Counter width: heads and sequence numbers are unbounded; `n` and `~n` are told apart by a datatype; `& mask` is the remainder by the size.
- The pushback value of `Threadpool_Schedule`: a stale head makes it meaningless; only the full / not full decision is modelled.
- The message pool of the listener: a command is allocated, queued and released in one atomic step, and the pipe is an unbounded FIFO.
- The completion pipe is modelled as an answer addressed to the request whose HOLD was handled.
- Sockets, poll, read, write and TLS: any result within their contracts; a failing write or poll is a move.
- Re-registration of a descriptor: sequence IDs grow for the whole run of `BusProtocol`, so the reuse of a descriptor with pending entries is not modelled.
- Responses that fail to unpack and responses without a sequence ID: they end in a log line or a callback outside the table.
- The freelist of `Listener` is a sequence of entry numbers, not links inside the entries.
- The listener's handlers are atomic with respect to one entry: a box taken out for delivery and put back after a refusal is one step.
- Allocation failure: `add_socket` after a failed buffer growth, failed calloc in the P2P builder and in `unpack_cb`. Failed growth of the hash table is modelled.
- `PduFraming.PackMessage`: lengths of 2^32 bytes and more, which the source would cut to 32 bits, are excluded; the protobuf is an opaque byte sequence of known length.
- `P2P.Operation.Populate`: operations chained from two places at once are excluded; the tree's fixed fields, links and statuses are three parallel lists instead of one array of records.
- `P2P.BuildP2POp`: the copy is a value; freeing a partly built copy is not modelled. Null keys are excluded, as the source asserts.
- `HistoryValid`: the two reserved key values are excluded.
- Status mapping tables, HMAC, PIN, ACL loading, logging, the client and admin wrappers: thin or per-branch code.
- Backpressure delays: they affect timing only.
