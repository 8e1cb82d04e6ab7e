# Verified model of the hw-fence and speculative-sync drivers

Fences order work between hardware blocks. The hw-fence driver shares a carved-out memory with a
fence controller (another processor) and, through the memory's lock words, with a second virtual
machine. The project models what goes on in that memory, and the reference counting of the
speculative sync device, in Dafny:

| files | what they model |
|---|---|
| `HwFence.dfy`, `FenceTable.dfy`, `HashDispersal.dfy`, `Remainders.dfy` | one table entry; the open-addressed table, its operations as array-updating methods and as functions, and its refinement of a map; how the hash spreads sequence numbers |
| `FenceApi.dfy` | every run of the exported create, destroy, destroy-by-handle, reset and wait calls, and the flag in each dma-fence that keeps keys unique |
| `JoinFence.dfy`, `JoinFenceProperties.dfy` | one call that waits on a fence array: child loop, rollback, outcome |
| `JoinProtocol.dfy`, `JoinOverlap.dfy` | the same under interference: any number of drivers, one step per child, and controllers that signal children and count their parents down one by one; and runs in which joins complete and one in which an array's rollback strands another |
| `WaitRegistration.dfy` | waiting on a single fence, and the race of registering, signaling and destroying |
| `ClientReset.dfy` | resetting a client: wait bits, notifications, destroyed fences |
| `RingQueue.dfy`, `RingProtocol.dfy`, `TxqUpdate.dfy` | the ring queues as a class; the same ring with producers, publishing client, consumer and resets at work, one memory access a step; announcing a signaled fence |
| `InterVmLock.dfy` | the lock word, exclusive loads and stores, and the other virtual machine |
| `ClientIndex.dfy`, `Carveout.dfy`, `CarveoutLayout.dfy` | client ids and the ipc table; device-tree sizes and their guards; who gets which bytes |
| `SpecSync.dfy`, `SpecSyncProperties.dfy` | speculative fence arrays: create, bind, clear, release, and what balances over every run |

Methods with loops follow the driver's loops and are proved equal to functions of the old state;
the properties are lemmas about those functions. Protocols are state machines; their lemmas hold
of every interleaving of the enabled steps.

## What the proofs found

These are facts about the code as it is; each is stated by the member named.

- Create looks for a duplicate only up to the first free slot, so after a destroy a present key can
  be created again and then occupies two slots (`DuplicateAfterDestroy`, `DuplicateRejectedIff`). The
  flag in the dma-fence is what prevents it (`FlagsKeepKeysUnique`).
- Exactly two calls take a fence out of the table and leave that flag on: freeing it by its handle and
  resetting its client (`StrandedIff`). From then on, in every run, the fence can be neither created
  nor destroyed (`StrandedForever`).
- Rolling a join out of a child's parent list takes another join's entry with it if and only if the
  child is unsignaled and another driver has registered with it since (`RollbackLosesIff`). A
  registered join that has lost an entry is never signaled, in any run (`NeverSignaled`); two arrays
  that share a child are enough (`OverlapStrands`). With the lost entries counted, the join's count
  is conserved in every interleaving (`JoinConservation`).
- On the path where all children are already signaled, the client's data is passed where the error
  belongs (`SignaledCallFinishes`).
- When waiters are notified in turn, a client without a data slot gets the data of a waiter before it
  (`WaitersNotifiedOnce`).
- A client whose wait returned is notified exactly once for seeing the flag at its test and once for
  the flag being set after its mark (`ToldHowOften`): nothing, though the fence was signaled, iff it
  was signaled before the mark and destroyed before the test; twice iff it was signaled between the
  two and not destroyed before the test. Both happen (`NothingAndTwiceHappen`).
- A reset's store is sound exactly if nothing was consumed past the index that the reset had loaded
  and no read in progress holds an index that it makes stale (`StepIsSoundIff`). From every state in
  which the consumer is reading and something is queued, a reset leads to a read that no queue
  explains (`ResetDuringReadIsSeen`); the consumer of a transmit queue is the fence controller, which
  the driver does not stop.
- In a table of 4969 slots all fences of a context have the same home slot, as long as nothing wraps
  (`AllCollide`); in tables of 2^b slots their homes are spread (`SeqnosDisperse`).
- A number of entries that is present but 0 makes parsing stop and report success (`ParseDtProps`).
- Nothing guards the sum of the regions: the layout is free of overlap exactly if that sum fits in 32
  bits (`LayoutGoodIff`).
- The number of receive-queue clients is a count but is compared with ids: clients with a receive queue
  and a larger id have no lock and are refused as waiters. This happens exactly if, among the ids past
  the fixed ones, one without a receive queue precedes one with (`RxClientsCountedIff`).
- Closing the speculative device counts each unsignaled array down once: an array that waits for
  several children is dropped unsignaled (`LastReleaseOutcome`).

## Model

| member | source | states |
|---|---|---|
| FenceTables.FenceTable.constructor | hw_fence/src/hw_fence_drv_priv.c:404-436 | the zeroed table is in order and stands for the empty map |
| FenceTables.FenceTable.LookupAndProcess | hw_fence/src/hw_fence_drv_priv.c:851-965 | the in-place probe loop finds what the first stopping probe of the specification finds, and leaves the table that the specification gives |
| FenceTables.FenceTable.DestroyWithHash | hw_fence/src/hw_fence_drv_priv.c:1016-1045 | refuses a handle out of range or of another allocator, otherwise destroys the key in that slot |
| FenceTables.ProbeVisitsEachSlotOnce | hw_fence/src/hw_fence_drv_priv.c:690-701 | the probe steps from a home slot reach every slot, each at exactly one step |
| FenceTables.ScanIsFirstStop | hw_fence/src/hw_fence_drv_priv.c:894-953 | a probe ends at the first slot where its operation stops, and is exhausted iff there is none |
| FenceTables.MatchProbe | hw_fence/src/hw_fence_drv_priv.c:883-953 | find and destroy stop at the slot of the key iff the key is present, with free slots anywhere |
| FenceTables.CreateProbe | hw_fence/src/hw_fence_drv_priv.c:863-881 | creating an absent key stops at a free slot iff the table has one |
| FenceTables.LookupRefinesMap | hw_fence/src/hw_fence_drv_priv.c:851-965 | each operation succeeds and changes the table as the operation on a map of (context, seqno) does; all other entries stay |
| FenceTables.CreatedEntry | hw_fence/src/hw_fence_drv_priv.c:735-815 | a create hits a free slot and leaves there an unsignaled fence of that key and allocator, without waiters, parents or data; only a join fence has children pending; no other slot changes |
| FenceTables.DestroyedEntry | hw_fence/src/hw_fence_drv_priv.c:735-796 | a destroy hits a slot of that key and leaves there an entry that nobody owns or waits for; no other slot changes |
| FenceTables.RunRefinesMap | hw_fence/src/hw_fence_drv_priv.c:851-1014 | every run of create, create-join, find and destroy has the results and the contents of the run on a map of the same capacity |
| FenceTables.HandleStable | hw_fence/src/hw_fence_drv_priv.c:967-985 | as long as its key is not destroyed, the entry in a slot stays as it is |
| FenceTables.DestroyHandleFreesSlot | hw_fence/src/hw_fence_drv_priv.c:1016-1045 | a handle frees exactly its slot for the allocator and does nothing for anybody else |
| FenceTables.HandleLife | hw_fence/src/hw_fence_drv_priv.c:967-1045 | from create to destroy-with-handle, whatever runs between, the handle names that fence and frees that slot alone |
| FenceTables.DuplicateRejectedIff | hw_fence/src/hw_fence_drv_priv.c:919-943 | create of a present key fails iff no free slot precedes it on its probe path; otherwise two slots hold the key |
| FenceTables.NoDestroyRejectsDuplicates | hw_fence/src/hw_fence_drv_priv.c:919-943 | in runs without destroy every duplicate create is rejected |
| FenceTables.DuplicateAfterDestroy | hw_fence/src/hw_fence_drv_priv.c:919-943 | a run with one destroy after which a key is in two slots |
| HashDispersal.HomeWithoutWrapping | hw_fence/src/hw_fence_drv_priv.c:669-701 | in a table of 2^b slots, wrapping at 64 bits does not show in the home slot |
| HashDispersal.HomeInNumbers | hw_fence/src/hw_fence_drv_priv.c:669-688 | in a table of 2^b slots, the home slot as a formula in the factors 4969 and 907 |
| HashDispersal.SeqnosDisperse | hw_fence/src/hw_fence_drv_priv.c:669-701 | in a table of 2^b slots, any 2^b successive sequence numbers of a context have distinct home slots |
| HashDispersal.CollideIff | hw_fence/src/hw_fence_drv_priv.c:669-701 | in a table of any size, as long as nothing wraps, two fences of a context share a home slot iff the size divides their distance times both factors |
| HashDispersal.AllCollide | hw_fence/src/hw_fence_drv_priv.c:669-701 | a table size for which all fences of a context share one |
| FenceApi.FenceDriver.Create | hw_fence/src/msm_hw_fence.c:163-213 | the exported create on a single fence: flag test, table, flag, handle |
| FenceApi.FenceDriver.Destroy | hw_fence/src/msm_hw_fence.c:216-258 | the exported destroy on a single fence |
| FenceApi.ApiStepKeepsInv | hw_fence/src/msm_hw_fence.c:193-397 | every exported call, waits on arrays included, keeps keys unique and the flag of every live single fence on |
| FenceApi.FlagsKeepKeysUnique | hw_fence/src/msm_hw_fence.c:193-208 | in every run of the exported calls no key is in two slots, create meets only absent keys, and succeeds iff the flag is off and a slot is free |
| FenceApi.CreateOutcome | hw_fence/src/msm_hw_fence.c:193-213 | after any run, a create succeeds iff the flag is off and a slot is free; it adds exactly that fence, fresh and for its client, and puts the flag on; refused, it changes nothing |
| FenceApi.DestroyOutcome | hw_fence/src/msm_hw_fence.c:238-257 | after any run, a destroy succeeds iff the flag is on and the fence is in the table; it takes out exactly that fence and its flag; refused, it changes nothing |
| FenceApi.DestroyUndoesCreate | hw_fence/src/msm_hw_fence.c:193-258 | a created fence can be destroyed at once, which restores flags and contents |
| FenceApi.OtherCallsOutcome | hw_fence/src/msm_hw_fence.c:261-397 | the other calls change no flag; which of them succeed, and what they leave in the table |
| FenceApi.ArrayWaitOutcome | hw_fence/src/hw_fence_drv_priv.c:1197-1342 | a wait on an array succeeds iff its data may be carried, a slot is free, there are children, and each is single, flagged, in the table, and signaled or has room as often as it occurs; refused, contents stay |
| FenceApi.ArrayWaitLeaves | hw_fence/src/hw_fence_drv_priv.c:1223-1333 | one that succeeds leaves nothing if all children are signaled, and otherwise a join fence that counts the others, each of which lists it as often as it occurs |
| FenceApi.StrandedIff | hw_fence/src/msm_hw_fence.c:238-289 | a call takes a fence out and leaves its flag on iff it frees it by its handle or resets its client |
| FenceApi.StrandedForever | hw_fence/src/msm_hw_fence.c:193-253 | such a fence stays out of the table, and every create and destroy of it is refused, in every run |
| FenceApi.FreedByHandleStaysFlagged | hw_fence/src/msm_hw_fence.c:261-289 | after create and destroy-by-handle, create and destroy of the dma-fence are refused after any run |
| JoinFences.ProcessFenceArray | hw_fence/src/hw_fence_drv_priv.c:1197-1342 | the call on a fence array as a function of the table, with its notification |
| JoinFences.VisitOneChild | hw_fence/src/hw_fence_drv_priv.c:1236-1293 | what one child does to the join's count or to the child's parent list |
| JoinFences.DropParentsOf | hw_fence/src/hw_fence_drv_priv.c:1169-1187 | the loop that clears a join from a child's parent list |
| JoinFences.CleanupJoinAndChildren | hw_fence/src/hw_fence_drv_priv.c:1134-1195 | rollback from the failing child to the first, then destroy of the join |
| JoinFenceProperties.FailedCallLeavesNoTrace | hw_fence/src/hw_fence_drv_priv.c:1134-1342 | the call succeeds iff the data, the free slots and all children allow it; a call that fails at whatever child (repeated ones included) leaves every entry as it was and the join's slot free |
| JoinFenceProperties.RollbackUndoesVisits | hw_fence/src/hw_fence_drv_priv.c:1143-1191 | rolling back restores every child's parent list and count |
| JoinFenceProperties.DropUndoesMark | hw_fence/src/hw_fence_drv_priv.c:1169-1187 | clearing a parent undoes any number of appends of it |
| JoinFenceProperties.AcceptsOneByOne | hw_fence/src/hw_fence_drv_priv.c:1236-1300 | the child loop accepts all children iff each could take the join as often as it occurs in the array |
| JoinFenceProperties.SignaledCallFinishes | hw_fence/src/hw_fence_drv_priv.c:1309-1325 | if all children are signaled the client is notified at once and the join is gone |
| JoinFenceProperties.PendingCallRegisters | hw_fence/src/hw_fence_drv_priv.c:1223-1307 | otherwise the join waits for exactly the unsignaled children, each of which lists it as often as it occurs |
| JoinFenceProperties.PendingOutcome | hw_fence/src/hw_fence_drv_priv.c:1223-1307 | that join fence and those children, field by field |
| JoinFenceProperties.CallKeepsInvariants | hw_fence/src/hw_fence_drv_priv.c:1197-1342 | the table and all parent lists stay in order, at most two parents each |
| JoinFenceProperties.CallChangesLittle | hw_fence/src/hw_fence_drv_priv.c:1197-1342 | whatever the outcome, live fences change in their parent lists only, and only by the join; a free slot stays free or takes the join |
| JoinProtocol.StepKeepsInv | hw_fence/src/hw_fence_drv_priv.c:1134-1333 | every step of drivers and controllers keeps the protocol's invariant, the table's included |
| JoinProtocol.JoinConservation | hw_fence/src/hw_fence_drv_priv.c:1134-1333 | in every interleaving a join's pending count is its unvisited children plus its entries that fences have yet to count down plus those that rollbacks of other joins have lost |
| JoinProtocol.ZeroIffAllSettled | hw_fence/src/hw_fence_drv_priv.c:1134-1333 | in every interleaving the count is zero iff every child was visited and has signaled or gone and no entry was lost; exactly one party took it there, and the driver signals iff it was the one |
| JoinProtocol.RollbackLosesIff | hw_fence/src/hw_fence_drv_priv.c:1160-1191 | rolling back a child loses another join's entry iff the child is there, unsignaled, and another driver has registered with it since |
| JoinProtocol.DropTakes | hw_fence/src/hw_fence_drv_priv.c:1169-1187 | what the loop over a parent list takes from each join: all entries of its own, and the last one if it is another's and comes after |
| JoinProtocol.NeverSignaled | hw_fence/src/hw_fence_drv_priv.c:1169-1187 | a registered join that has lost an entry stays in the table with a count above zero in every run |
| JoinOverlap.OverlapStrands | hw_fence/src/hw_fence_drv_priv.c:1134-1333 | a run from the zeroed table after which a join waits for ever though its child has signaled |
| JoinOverlap.ControllerCompletes | hw_fence/src/hw_fence_drv_priv.c:1236-1307 | a run in which the child signals after it was visited: the controller takes the count to zero and the join leaves |
| JoinOverlap.DriverCompletes | hw_fence/src/hw_fence_drv_priv.c:1236-1325 | a run in which the child had signaled: the driver takes the count to zero, signals, and the join leaves |
| JoinProtocol.LeavingKeepsInv | hw_fence/src/hw_fence_drv_priv.c:1309-1341 | a join leaves the table only when no fence owes it anything |
| JoinProtocol.StepsAreTheDrivers | hw_fence/src/hw_fence_drv_priv.c:1160-1293 | in every reachable state, the visit and rollback steps do to the table what the sequential loops do |
| JoinProtocol.FenceOutcome | hw_fence/src/hw_fence_drv_priv.c:735-796 | single fences come into free slots as their client's and leave them free |
| JoinProtocol.BeginOutcome | hw_fence/src/hw_fence_drv_priv.c:1217-1234 | a registration starts with a join fence that its client alone waits for and that counts all children |
| JoinProtocol.VisitOutcome | hw_fence/src/hw_fence_drv_priv.c:1263-1303 | a visit takes one off the count or puts the join at the end of the child's list, and changes nothing else |
| JoinProtocol.CountDownOutcome | hw_fence/include/hw_fence_drv_priv.h:436-438 | a countdown takes one off the parent's count, and whoever takes it to zero is recorded |
| JoinProtocol.FinishOutcome | hw_fence/src/hw_fence_drv_priv.c:1309-1325 | a driver that has visited all children signals iff it took the count to zero |
| JoinProtocol.LeavingOutcome | hw_fence/src/hw_fence_drv_priv.c:1309-1341 | a join that leaves takes its entry with it and nothing else; other than by rollback, only with a count of zero |
| WaitRegistration.Waited | hw_fence/src/hw_fence_drv_priv.c:1344-1413 | a wait on one fence: refused without a trace, or exactly one entry gets the client's bit and data; notified, and the dma-fence marked, now iff already signaled |
| WaitRegistration.ProcessFence | hw_fence/src/hw_fence_drv_priv.c:1344-1413 | the call on the table does that |
| WaitRegistration.WaitOutcome | hw_fence/src/hw_fence_drv_priv.c:1344-1413 | the wait goes to the slot that holds the fence's key, and is refused iff the flag is off, the client may not attach data, or there is no such slot; the mask gains that client alone, its data slot changes alone and only if there is data; notified now, with its data and no error, iff signaled |
| HwFences.DataSlotsAreTheirs | hw_fence/src/hw_fence_drv_priv.c:1522-1548 | exactly five clients have a slot for data, each its own |
| WaitRegistration.StepKeepsInv | hw_fence/src/hw_fence_drv_priv.c:1367-1386 | every step keeps each wait's history true and its notifications due or delivered |
| WaitRegistration.NoLostWakeUp | hw_fence/src/hw_fence_drv_priv.c:1367-1386 | in every interleaving of waits, the controller and a destroy, a client whose wait returned is notified if the fence was ever signaled, unless it was signaled before the mark and destroyed before the test |
| WaitRegistration.ToldHowOften | hw_fence/src/hw_fence_drv_priv.c:1367-1386 | exactly how often the client of one wait is notified: never, once or twice, and when each |
| WaitRegistration.DataDelivered | hw_fence/src/hw_fence_drv_priv.c:1372-1386 | every notification to a client with a data slot carries data that it registered |
| WaitRegistration.NotificationsNameTheFence | hw_fence/src/hw_fence_drv_priv.c:1375-1386 | in every run, every notification carries the fence's key and slot, and the driver's carry no error |
| WaitRegistration.NothingAndTwiceHappen | hw_fence/src/hw_fence_drv_priv.c:1375-1386 | runs of one wait in which it is never, and twice, notified of a signaled fence |
| ClientReset.SignalAllWaitClients | hw_fence/src/hw_fence_drv_priv.c:1415-1437 | the notifications of one fence, in the order of the ids, with the data that is carried on |
| ClientReset.WaitersNotifiedOnce | hw_fence/src/hw_fence_drv_priv.c:1415-1437 | exactly the registered waiters up to the limit are notified, once each, and with which data |
| ClientReset.CleanupOneFence | hw_fence/src/hw_fence_drv_priv.c:1482-1520 | one entry's part of a reset |
| ClientReset.ResetClient | hw_fence/src/msm_hw_fence.c:393-395 | the loop over the table |
| ClientReset.ResetOutcome | hw_fence/src/hw_fence_drv_priv.c:1482-1520 | afterwards nobody waits for the client's bit, no entry is allocated by it unless fences are kept, and other entries differ in that bit alone |
| ClientReset.EachWaiterHearsOnce | hw_fence/src/hw_fence_drv_priv.c:1482-1503 | each waiter of each unsignaled fence of the client is notified exactly once over the whole reset, and of no other fence |
| ClientReset.ResetTellsEachOnce | hw_fence/src/hw_fence_drv_priv.c:1415-1503 | the same in the fences' own terms: who of the waiters of the table before the reset is told, of which slot, with which error |
| RingQueues.UpdateQueue | hw_fence/src/hw_fence_drv_priv.c:234-372 | refused for a queue that the client does not have or a receive queue without a lock; else the queue takes the payload iff fewer than all but one slot are taken |
| RingQueues.RefusedIs | hw_fence/src/hw_fence_drv_priv.c:254-292 | which queues and clients are refused, in numbers |
| RingQueues.RingQueue.Update | hw_fence/src/hw_fence_drv_priv.c:301-366 | accepted iff fewer than all but one slot are taken; one payload is added at the end; a staged queue's published part stays as it is |
| RingQueues.RingQueue.ReadQueue | hw_fence/src/hw_fence_drv_priv.c:148-228 | takes the oldest payload; the result is 1 iff more was queued, so 0 does not tell the last one from none |
| RingQueues.RingQueue.Drain | hw_fence/src/hw_fence_drv_utils.c:202-226 | the loopback loop takes everything that is published, in order |
| RingQueues.RingQueue.ResetTx | hw_fence/src/hw_fence_drv_priv.c:1446-1453 | published payloads are dropped, staged ones are kept |
| RingQueues.RingQueue.ResetRx | hw_fence/src/hw_fence_drv_priv.c:1455-1478 | the receive queue is empty afterwards |
| RingQueues.RingQueue.ClientPublishes | hw_fence/src/hw_fence_drv_priv.c:273-277 | the client of a staged queue moves payloads from the staged to the published part, in order |
| RingQueues.DecodeImage | hw_fence/src/hw_fence_drv_priv.c:216-221 | reading back the words of a payload gives the payload |
| RingQueues.PayloadLayout | hw_fence/include/hw_fence_drv_priv.h:410-423 | at which word each field of a payload is |
| RingQueues.RingStored | hw_fence/src/hw_fence_drv_priv.c:344-355 | the stores of one payload change its slot alone |
| RingProtocol.StepKeepsInv | hw_fence/src/hw_fence_drv_priv.c:148-372 | every single memory access of any party, unsafe stores of resets apart, keeps queued payloads whole and loaded values meaningful |
| RingProtocol.StepIsSoundIff | hw_fence/src/hw_fence_drv_priv.c:1439-1480 | a step keeps the ring sound and does what it says iff it is safe, which only the store of a reset can fail to be |
| RingProtocol.RunIsFifo | hw_fence/src/hw_fence_drv_priv.c:148-372 | what producers, publishing client, consumer and resets observe in any interleaving without an unsafe reset is what they would of an atomic queue of entries-1 payloads, published and staged together |
| RingProtocol.DeliveredInOrder | hw_fence/src/hw_fence_drv_priv.c:148-372 | without resets nothing is lost, made up, duplicated or reordered |
| RingProtocol.StoresMissQueued | hw_fence/src/hw_fence_drv_priv.c:344-355 | no store touches a word of an unread payload |
| RingProtocol.VerdictIs | hw_fence/src/hw_fence_drv_priv.c:310-318 | a write is accepted iff fewer than entries-1 payloads were queued when it loaded the read index |
| RingProtocol.RefusalSettledAtLoad | hw_fence/src/hw_fence_drv_priv.c:301-318 | whatever is read or dropped meanwhile, the verdict is the one of that load |
| RingProtocol.MoreIs | hw_fence/src/hw_fence_drv_priv.c:223-227 | a read reports more iff more was queued when it loaded the write index |
| RingProtocol.WriteGoesThrough | hw_fence/src/hw_fence_drv_priv.c:301-366 | left alone, from every state, a write with room puts its payload at the end, and one without changes nothing |
| RingProtocol.ReadGoesThrough | hw_fence/src/hw_fence_drv_priv.c:148-228 | left alone, from every state, a read takes exactly the oldest published payload, or nothing if there is none |
| RingProtocol.ResetDuringReadIsSeen | hw_fence/src/hw_fence_drv_priv.c:1446-1453 | from every state with a read in progress and something queued, a reset leads to a read that no queue explains |
| RingProtocol.ResetRxDuringReadIsSeen | hw_fence/src/hw_fence_drv_priv.c:1455-1478 | likewise for a receive queue, once the read has loaded the write index |
| RingProtocol.PublishKeepsInv | hw_fence/src/hw_fence_drv_priv.c:273-277 | the client of a staged queue may move the write index over staged payloads at any time |
| TxqUpdates.UpdateTxq | hw_fence/src/msm_hw_fence.c:424-447 | one payload with the slot's context and seqno, or none if the queue is full; success either way; refused for handles out of range |
| TxqUpdates.AnnouncesTheCreatedFence | hw_fence/src/msm_hw_fence.c:424-447 | whatever runs since its create, short of its destroy, announcing a handle sends that fence's context and seqno, the flags and the error as given, and no data |
| InterVmLock.StepKeepsInv | hw_fence/src/hw_fence_drv_utils.c:98-151 | every step of any processor or the other machine keeps the lock's invariant |
| InterVmLock.MutualExclusion | hw_fence/src/hw_fence_drv_utils.c:98-151 | at most one holder among all processors and the other machine, in every run |
| InterVmLock.StoreTakesIff | hw_fence/src/hw_fence_drv_utils.c:105-109 | the store takes the lock iff the reservation is still armed, and then the word is exactly our bit; otherwise nothing changes but that the processor tries again |
| InterVmLock.LockUndisturbed | hw_fence/src/hw_fence_drv_utils.c:102-111 | a processor holds the lock after an undisturbed load and store of a free word, and stays outside a taken one |
| InterVmLock.LockAndUnlock | hw_fence/src/hw_fence_drv_utils.c:98-131 | taking the lock and giving it back restores the free word |
| InterVmLock.FreeIff | hw_fence/src/hw_fence_drv_utils.c:103-105 | the word is 0 iff nobody here holds the lock and the other machine is away |
| InterVmLock.OtherEntersIff | hw_fence/src/hw_fence_drv_utils.c:102-142 | the other machine enters at once iff nobody here holds the lock |
| InterVmLock.OtherLeavesFree | hw_fence/src/hw_fence_drv_utils.c:102-142 | when the other machine leaves, the word is free |
| InterVmLock.HolderIsReachable | hw_fence/src/hw_fence_drv_utils.c:98-114 | from the start, any processor can come to hold the lock |
| InterVmLock.RequestKept | hw_fence/src/hw_fence_drv_utils.c:121-131 | no step of a processor changes the other machine's bit |
| InterVmLock.NoOvertaking | hw_fence/src/hw_fence_drv_utils.c:102-111 | while the other machine's bit is on, no processor takes the lock |
| InterVmLock.NoLostWakeUp | hw_fence/src/hw_fence_drv_utils.c:136-150 | in every run, a machine that waits on a lock that nobody here holds or is giving back has a signal to wake it, and then enters |
| InterVmLock.AnyUnlockLetsOtherIn | hw_fence/src/hw_fence_drv_utils.c:117-151 | in every run, once those that held the lock have given it back and signaled, the machine that waited is in or has a signal that lets it in |
| InterVmLock.UnlockLetsOtherIn | hw_fence/src/hw_fence_drv_utils.c:117-151 | there is such a run: an undisturbed unlock |
| ClientIndex.GetClientIdPriv | hw_fence/src/hw_fence_drv_utils.c:904-930 | for every external id that registration lets through: a sub-client's gives its internal id, is unknown iff there is no such sub-client, and reads past the table of types iff it is after those of the last type |
| ClientIndex.IdsFollowOrder | hw_fence/src/hw_fence_drv_utils.c:922-929 | internal ids follow the order of types and sub-clients, so no two share one |
| ClientIndex.ExtsFollowOrder | hw_fence/src/hw_fence_drv_utils.c:913-918 | nor do two share an external id |
| ClientIndex.IdsAreCovered | hw_fence/src/hw_fence_drv_utils.c:691-692 | every internal id from the first configurable one up to the number of clients is a sub-client's |
| ClientIndex.InitIpcMap | hw_fence/src/hw_fence_drv_ipc.c:289-327 | each sub-client's entry is at its internal id, its type's with its own number as signal; the overflow check fires iff the number of clients given is too small |
| ClientIndex.RxClientsCountedIff | hw_fence/src/hw_fence_drv_utils.c:682-684 | every client with a receive queue has an id within the driver's count iff no other precedes one among the ids past the fixed ones |
| Carveout.ParseType | hw_fence/src/hw_fence_drv_utils.c:595-658 | the guards accept exactly the types whose size over the unbounded integers is at most the limit, and compute it |
| Carveout.AcceptedIff | hw_fence/src/hw_fence_drv_utils.c:602-650 | which types are accepted, in the property's own four numbers, or in the type's defaults without one |
| Carveout.ParsedFrom | hw_fence/src/hw_fence_drv_utils.c:609-656 | clients, queues, entries and flag are the property's first to fourth number; without a property only the entries are set; id and maximum stay |
| Carveout.MemSizeGuards | hw_fence/src/hw_fence_drv_utils.c:628-650 | past the guards no 32-bit operation wraps; what they reject is too large |
| Carveout.DriverData.ParseTypes | hw_fence/src/hw_fence_drv_utils.c:669-686 | accepts iff every type fits; counts configurable and receive-queue clients |
| Carveout.DriverData.FillQueueSizes | hw_fence/src/hw_fence_drv_utils.c:694-718 | each client's sizes and offset are at its internal id and nowhere else |
| Carveout.DriverData.ParseDtProps | hw_fence/src/hw_fence_drv_utils.c:723-794 | exactly the fitting device trees are laid out; an entry count of 0 reports success and lays out nothing |
| Carveout.TreeAcceptedIff | hw_fence/src/hw_fence_drv_utils.c:723-794 | which device trees fit, in their own numbers |
| Carveout.ConfigFrom | hw_fence/src/hw_fence_drv_utils.c:723-794 | where each number of the configuration comes from in the device tree |
| CarveoutLayout.LayoutGoodIff | hw_fence/src/hw_fence_drv_utils.c:529-593 | all regions are apart and within the memory in use iff their sum fits in 32 bits |
| CarveoutLayout.StartsExactIfRoom | hw_fence/src/hw_fence_drv_utils.c:698-718 | client offsets are exact if the aligned fixed part leaves 272 MiB |
| CarveoutLayout.ReserveMem | hw_fence/src/hw_fence_drv_utils.c:529-593 | a client's region can be had iff the id is some client's, and is that client's |
| CarveoutLayout.FixedRegionsAre | hw_fence/src/hw_fence_drv_utils.c:535-551 | where ctrl queues, locks and table are, and how large |
| CarveoutLayout.ClientRegionsAre | hw_fence/src/hw_fence_drv_utils.c:643-650 | a client's region is page-aligned, with room for its headers and payloads and less than a page to spare |
| CarveoutLayout.FirstClientIs | hw_fence/src/hw_fence_drv_utils.c:694-718 | the first client starts at the page after the table |
| CarveoutLayout.NextClientIs | hw_fence/src/hw_fence_drv_utils.c:698-718 | the next client of a type starts where the one before ends |
| CarveoutLayout.NextTypeIs | hw_fence/src/hw_fence_drv_utils.c:698-718 | and so does the first of the next type that has any |
| CarveoutLayout.SkipsTxqWrIdx | hw_fence/src/hw_fence_drv_utils.c:932-938 | a client skips the write index iff its type says so; an id that is no client's does not |
| CarveoutLayout.InitQueues | hw_fence/src/hw_fence_drv_priv.c:27-135 | where each queue's header and buffer are; succeeds iff the region fits |
| CarveoutLayout.QueuesAreInOrder | hw_fence/src/hw_fence_drv_priv.c:85-131 | table header, queue headers, then the buffers, each right after the one before |
| CarveoutLayout.BufferInRegion | hw_fence/src/hw_fence_drv_priv.c:94-103 | a queue's buffer lies in its owner's region past the headers, apart from its other queue |
| CarveoutLayout.WordIsNobodyElses | hw_fence/src/hw_fence_drv_priv.c:94-131 | no word of a queue is part of another queue, of any headers, of a lock, of the table or of another client's region |
| SpecSync.SyncDevice.CreateArray | sync_fence/src/qcom_sync_file.c:209-297 | the new state for every point at which an allocation may fail |
| SpecSyncProperties.CreateOutcome | sync_fence/src/qcom_sync_file.c:209-297 | a create of 1 to 32 children that no allocation fails appends one array: open, tracked, two references, all dummies, unsignaled, one child pending if any will do and all if not; others fail with their error and leave nothing |
| SpecSync.SyncDevice.BindArray | sync_fence/src/qcom_sync_file.c:347-442 | the new state of a bind, refused or not |
| SpecSyncProperties.RefusedBindChangesNothing | sync_fence/src/qcom_sync_file.c:347-399 | which error each refused bind gets; it changes nothing |
| SpecSync.SyncDevice.ClearTracker | sync_fence/src/qcom_sync_file.c:100-129 | the loop over the tracker, entries removed as it goes |
| SpecSync.SyncDevice.IsTracked | sync_fence/src/qcom_sync_file.c:83-98 | finds an array iff it is tracked |
| SpecSync.SyncDevice.ReleaseDevice | sync_fence/src/qcom_sync_file.c:176-197 | closing, and clearing by force at the last close |
| SpecSyncProperties.OpenAndClose | sync_fence/src/qcom_sync_file.c:131-197 | opening succeeds while fewer than two devices are open, closing while one is; each counts one |
| SpecSyncProperties.CallKeepsInv | sync_fence/src/qcom_sync_file.c:100-442 | every call, close, and signal of a child keeps all references accounted for |
| SpecSyncProperties.ReferencesBalance | sync_fence/src/qcom_sync_file.c:237-261 | in every run the dummy fence has one reference plus one for every dummy child of an array not yet released; user fences likewise; no tracked or open array is released |
| SpecSyncProperties.BoundAtMostOnce | sync_fence/src/qcom_sync_file.c:361-387 | once bound, in every run, an array keeps its children and refuses every bind; it has no dummy left or is signaled with an error |
| SpecSyncProperties.BindOutcome | sync_fence/src/qcom_sync_file.c:401-436 | which children a bind replaces, when it succeeds, when the array is then signaled and untracked by children that had signaled before, and how a failed one leaves it |
| SpecSyncProperties.SignaledExactly | sync_fence/src/qcom_sync_file.c:100-442 | in every run, an array is signaled iff its bind failed or it was counted down once, if any child will do, or once for each child |
| SpecSyncProperties.SignaledByChildren | sync_fence/src/qcom_sync_file.c:251-254 | so, bind failures and forced clearing apart, iff one child, or all, have signaled |
| SpecSyncProperties.ChildOutcome | sync_fence/src/qcom_sync_file.c:251-254 | a child's signal counts once, and signals the array if it was the last one needed |
| SpecSyncProperties.LastReleaseOutcome | sync_fence/src/qcom_sync_file.c:110-126 | the tracker is emptied; an unsignaled array is signaled iff one child was pending |
| SpecSyncProperties.UnforcedClearOutcome | sync_fence/src/qcom_sync_file.c:110-126 | exactly the signaled arrays are dropped |
| SpecSyncProperties.DummyGoesLast | sync_fence/src/qcom_sync_file.c:571-578 | the module's put is the last one iff no array in use holds a dummy |

## Left out

Assumptions about callers and surroundings:

- Keys are not (0, 0), which cleaned slots carry; an array's key is not live and differs from its children's; a client id that registers for wait is below 64; the list of children of an empty array is null.
- Sizes of the queue headers, the number of external ids per configurable type and the id past the last come from a header that is not part of this model: headers are positive and at most a page, there are at least 32 ids per type.
- Locks of table entries make one step, or one section of a sequential method, of what they guard; `InterVmLock` models the lock itself.
- Memory accesses happen one after the other in program order; weaker orders and the barriers against them are not modelled. The second word of a payload is one store, although the driver writes its two halves.
- The other virtual machine sets its bit atomically, enters iff ours was clear, and looks again when woken.

Not modelled:

- Timestamps of table entries, the debug reference count and the field for the signaling client.
- A notification is an entry of a log; the receive-queue write and interrupt that it stands for, and the loopback of validation clients, are modelled apart (`RingQueue.Update`) or not at all.
- Waiting on a list of fences: each fence of the list is one of the waits of `ApiCall`, and the list stops at the first failure. That a client without a receive queue is refused there is not part of them.
- Registering and deregistering clients, doorbells, interrupts, register maps, the hardware revision, tables of ipc ids as data.
- Probe and remove, ioremap, sharing memory with the other machine, reading the device tree: the parsed values are inputs.
- Allocation failures while parsing.
- `hw_fence_drv_debug.c`, `hw_fence_ioctl.c` and `msm_ext_display.c`.
- File descriptors: a descriptor is given as the fence that it stands for, and a create that succeeds returns 0 instead of its descriptor; one that gets no descriptor returns -EINVAL instead of the error of that. The number of open devices is that of a debug build.
- The kernel's fence arrays, beyond their references, children, count, flags and error; callbacks of children hold no references of their own here.
- A user fence that is itself a speculative array: its references as a child are counted as those of a user fence, not as the array's.
- The ioctls of the speculative device are atomic steps.

Stated weaker than the code might be read:

- JoinProtocol.StepKeepsInv: a child that lists a join and is unsignaled is not destroyed.
- WaitRegistration.ToldHowOften: the slot of a destroyed fence is not reserved again while a wait on it is in progress.
- WaitRegistration.DataDelivered: for clients that have a data slot; the controller may send anything to others.
- RingProtocol.RunIsFifo: for runs in which every reset's store is safe; `StepIsSoundIff` and `ResetDuringReadIsSeen` tell what happens otherwise.
- HashDispersal.SeqnosDisperse: for tables whose size is a power of two; `CollideIff` is about all sizes.
- HashDispersal.CollideIff: as long as no product or sum wraps at 64 bits.
- FenceApi.FlagsKeepKeysUnique: a wait on an array is made while no other wait on it is pending, and join fences stay in the table until their own call takes them out.
- CarveoutLayout.WordIsNobodyElses: for layouts whose sum fits in 32 bits; `LayoutGoodIff` tells what happens otherwise.
