# A model of ubs-atomic

ubs-atomic puts locks and message rings into memory that up to 16 nodes share.
This project models its concurrent core in Dafny and proves what every run of
it keeps. `dafny verify dfyconfig.toml` checks the whole project.

Concurrent code is a step system: one atomic load, store, compare-and-swap or
fetch-op is one step, steps of any number of threads interleave, and a value
read earlier stays in the reader's program counter. Atomics are sequentially
consistent. Timeouts, weak-CAS failures and the arrival of messages are free
choices. Sequential code (the wait queue, recovery, rebuilding, the layout of
the rings, dispatching) is classes and methods with loops, each tied to a
function of the old state.

| files | part of the system |
|---|---|
| `LocalWord`, `LocalLockProtocol` | the node-local lock: four 16-bit lanes in one 64-bit word |
| `TwoLevelLock`, `TwoLevelCustody`, `TwoLevelLedger`, `TwoLevelCalls` | the S/SX/X lock over all nodes, with reader sharing and delayed release; exclusion, the shared word as a ledger, and calls that run alone |
| `ReaderGrouping`, `NodeUnits`, `UnitCensus`, `TokenLosses`, `UnitReturn` | sharing one global S within a node; where every unit of a node, and of the system, is |
| `TwoLevelStray`, `UnitLoss`, `UnitStranding`, `TwoLevelBoundary` | the runs in which exclusion fails, an unlock is refused or a unit is lost, and exactly which usages have them |
| `WaitQueue` | the ring of waiters behind every lock |
| `SharedLock`, `Recovery`, `Rebuild`, `HolderQuery`, `RwLock` | the shared words, recovery of a failed node, querying nodes and rebuilding from their reports |
| `Initialisation`, `XRecursion` | who initialises the lock; nested X locking |
| `MutexLock` | the two-level mutex and its registry |
| `RingBuffer`, `RingBufferOrder`, `RingBufferPayload`, `RingBufferDelivery`, `FlowControl` | the multi-producer single-consumer ring |
| `Layout`, `Dispatcher`, `Heartbeat` | the transport: ring placement, dispatch pass, peer monitor |
| `LockTypes`, `Modular` | shared names; remainders |

## Where the code does not do what is expected of it

Each of these is a concrete input or run, and an exact condition proved for all
inputs or runs. The model keeps the code as it is.

- `unlock_s` undoes a decrement that found no reference in a second step. There
  are runs that end with an S hold beside an X hold, one with SX in use and one
  with an S leader that fails. `ExclusionExactly`: as the code is written,
  exclusion holds in every run if and only if callers use no SX and no S leader
  fails.
- A reader's unlock is refused when its reference has been overwritten by the
  next leader or wiped out by a failed leader's second store
  (`ResetTakesReferences`, `StaleStoreTakesReferences`). `UnlocksExactly`: no
  unlock by a holder is ever refused if and only if callers use no SX and S
  leaders never fail, or would clean up in one step.
- The handler of a release message takes the token first and then looks whether
  the local lock is held; if it is, and only then, the unit is lost
  (`MessageLosesUnit`, `HandlerEnds`). An
  unlock that does not delay clears the token without looking
  (`UnlockWipesToken`). `RestDecided`: as long as no unlock has taken the undo
  branch, the word at rest is FREE if and only if neither happened, and
  `ReservationExact`: it happens at most once, after which nobody parks again.
  The undo in `unlock_s` strands units without any delayed release
  (`UpgradeStrandsUnit`, `StaleStoresStrandUnit`). `ReturnsExactly`: every state
  at rest has the whole word back if and only if releases are not delayed and
  exclusion holds.
- One flag, `hold_global`, stands for the S, SX and X holds of a node, and the
  last reader out clears it. `query_holder` then reports nothing held although
  the node holds SX, and a rebuild from that report frees the lock
  (`UpgraderForgotten`); a reader can be missed too (`ReaderForgotten`).
  `QueryTellsExactly`: queries tell who holds what after every history if and
  only if readers and upgraders of a node never overlap.
- An SX unlock that leaves readers behind, and finds waiters counted but none at
  the head, returns before its local unlock; the node can then take neither SX
  nor X (`UpgraderReturnsEarly`).
- `recover` leaves a stale reader bit when the node stopped between returning
  its S unit and clearing its bit and no reader remains (`StaleBitSurvives`), it
  keeps a unit of a node that had several and its bit (`SecondUnitSurvives`),
  and it mistakes an owner for a half-written one when five weak CASes in a row
  fail. `RecoverExact` says these are the only exceptions when the survivors are
  between calls.
- A ring delivers a message with another message's header when a producer goes
  on writing after the consumer skipped its ticket (`LateWriterGarbles`). The
  size check adds header and body length in 32 bits, so a body of 2^32 - 16
  bytes or more is accepted and overruns the slots (`LongBodyOverruns`).
  Either can make the consumer give up a message that was committed
  (`LateCommitHides`, `LongBodyHides`). `IntegrityExactly`, `OrderExactly` and
  `HeedsExactly` say exactly when payloads, order, and commits are kept. After 2^64 - 1 tickets the consumer takes an empty slot for
  a message (`WrapExactly`).
- `MutexLock::lock_free` can drop the local lock of a holder when it starts
  while a lock call is under way (`LevelsAgreeExactly`).
- The capacity check adds sizes modulo 2^64: rings that pass it can overlap and
  leave the region (`WrapAccepted`), and do so exactly when the sizes reach 2^64
  (`LayoutExactly`). The dispatcher's buffer size is added modulo 2^32
  (`BufferWraps`, `BufferExactly`), and the X recursion counters wrap at 2^32
  (`DepthWraps`, `RoomExactly`).
- A wake-up stops at a waiter it has notified and that has not left the queue,
  although the comments speak of a batch: of two waiting readers only the first
  is granted (`SecondReaderLeft`, `SecondReaderSleeps`). `Wake` grants the whole
  batch if and only if all but its last member leave meanwhile.
- `recover` counts a reference down without asking whether the node owned one,
  and a rebuild on a published lock adds an owner without counting it
  (`ClosedUnderOwner`). `PublicationExactly`: publication is safe in every run
  if and only if callers do neither.

## Model

| member | source | states |
|---|---|---|
| LocalWord.LaneRoundTrip | src/ub_lock/local_lock.h:88-96 | a lane's count, sentinel and flag are read back from its 16-bit number |
| LocalWord.LaneOfNumber | src/ub_lock/local_lock.h:116-119 | shifting and masking the 64-bit word yields the number of that lane and of no other |
| LocalWord.NumberInjective | src/ub_lock/local_lock.h:88-119 | different lane contents never share a 64-bit word, so comparing words compares lanes |
| LocalWord.TakeShared | src/ub_lock/lock_optimization.cpp:18-40 | a lane value that passes the S checks implies no X holder, and adding one keeps count equal to holders without a carry |
| LocalWord.DropShared | src/ub_lock/lock_optimization.cpp:42-65 | an S holder always finds its lane releasable and the release is exact |
| LocalWord.TakeUpgradable | src/ub_lock/lock_optimization.cpp:77-92 | a lane value that passes the SX checks implies no SX and no X holder |
| LocalWord.DropUpgradable | src/ub_lock/lock_optimization.cpp:94-104 | an SX holder finds its flag set and is the only one; clearing it is exact |
| LocalWord.TakeExclusive | src/ub_lock/lock_optimization.cpp:67-75 | a zero word means nobody holds anything |
| LocalWord.DropExclusive | src/ub_lock/lock_optimization.cpp:496-516 | under an X holder there is no other holder, and storing zero is exact |
| LocalLockProtocol.LocalLockCorrect | src/ub_lock/lock_optimization.cpp:18-104 | in every interleaving the word decodes to exactly the calls that hold it, X excludes all, SX excludes SX, owner words name the holder, no unlock by a holder reports an error |
| LocalLockProtocol.SharedStepExact | src/ub_lock/lock_optimization.cpp:292-356 | every S lock and unlock step keeps word and holders equal, stale lane values included |
| LocalLockProtocol.ExclusiveStepExact | src/ub_lock/lock_optimization.cpp:358-422 | the same for X |
| LocalLockProtocol.UpgradableStepExact | src/ub_lock/lock_optimization.cpp:424-562 | the same for SX |
| LocalLockProtocol.OpenExactly | src/ub_lock/lock_optimization.cpp:18-104 | in every reachable state a first attempt by a thread that is not the named owner can succeed exactly when the modes are compatible: S when nobody holds X and the lane has room, SX when nobody holds SX or X, X when nobody holds |
| LocalLockProtocol.SharedUndone | src/ub_lock/lock_optimization.cpp:292-356 | from any reachable state, S lock and unlock that run alone leave word and owners as they were |
| LocalLockProtocol.UpgradableUndone | src/ub_lock/lock_optimization.cpp:424-562 | the same for SX, with the owner word cleared |
| LocalLockProtocol.ExclusiveUndone | src/ub_lock/lock_optimization.cpp:358-516 | the same for X, with the owner word cleared |
| TwoLevelCustody.MutualExclusion | src/ub_lock/ub_distribute_lock.cpp:707-1260 | in every run, delayed release and release messages included, X overlaps no other hold and SX no other SX, and no unlock by a holder fails the check of its lane, its owner word or the word's bound, unless the undo branch of unlock_s runs as two steps |
| TwoLevelBoundary.UnlocksExactly | src/ub_lock/ub_distribute_lock.cpp:859-919 | over all usages: no unlock by a holder is refused, the reference check included, if and only if callers use no SX and S leaders never fail or clean up in one step |
| TwoLevelBoundary.ResetTakesReferences | src/ub_lock/ub_distribute_lock.cpp:1258-1258 | a run with SX in use after which a reader finds no reference |
| TwoLevelBoundary.StaleStoreTakesReferences | src/ub_lock/ub_distribute_lock.cpp:645-655 | the same with a failed leader's second store |
| TwoLevelCustody.ExclusionUntilStrayUnlock | src/ub_lock/ub_distribute_lock.cpp:880-889 | in every run of the code as written, exclusion holds as long as that branch has not been entered |
| TwoLevelLedger.RunLedger | src/ub_lock/ub_distribute_lock.cpp:742-1260 | in every state of every run of the code as written up to the first undo branch: the shared word is FREE less units each of which sits in one call's hand, one token or one node's pool, a node's pool covers its readers, and there are as many units of each mode as the nodes took and did not return |
| TwoLevelCustody.EnterKeeps | src/ub_lock/lock_optimization.cpp:292-480 | taking the local lock keeps every unit where it is |
| TwoLevelCustody.ClaimKeeps | src/ub_lock/ub_distribute_lock.cpp:707-740 | becoming leader or follower keeps the pool large enough for the node's readers |
| TwoLevelCustody.TokenKeeps | src/ub_lock/lock_optimization.cpp:588-671 | inheriting, dropping or releasing a parked token moves one unit and copies none |
| TwoLevelCustody.ContendKeeps | src/ub_lock/ub_distribute_lock.cpp:742-815 | a successful CAS on the shared word creates exactly one unit, a failed leader's cleanup none |
| TwoLevelCustody.UnlockSharedKeeps | src/ub_lock/ub_distribute_lock.cpp:859-919 | the last reader out takes the unit from the pool, an earlier one leaves it |
| TwoLevelCustody.UnlockExclusiveKeeps | src/ub_lock/ub_distribute_lock.cpp:1037-1084 | an X or SX unlock by its holder passes its owner check and keeps its unit in hand |
| TwoLevelCustody.GiveBackKeeps | src/ub_lock/ub_distribute_lock.cpp:1205-1260 | giving a unit back retires that unit alone; parking it moves it to the token |
| TwoLevelCustody.LeaveKeeps | src/ub_lock/lock_optimization.cpp:482-562 | the final local release succeeds and touches no unit |
| TwoLevelCalls.Lock | src/ub_lock/ub_distribute_lock.cpp:742-1196 | from any reachable state whose word is open for the mode, a call that runs alone takes 1, 32768 or all of the word, is named in the owner word, and for S leaves one reference and GLOBAL_HELD |
| TwoLevelCalls.LockThenUnlock | src/ub_lock/ub_distribute_lock.cpp:742-1260 | lock then unlock in any mode leaves every word of the system as it was, but for an owner word that now names nobody |
| TwoLevelCalls.Joins | src/ub_lock/ub_distribute_lock.cpp:707-740 | a reader that finds GLOBAL_HELD and a reference adds one and moves no shared word |
| TwoLevelCalls.ReaderLeaves | src/ub_lock/ub_distribute_lock.cpp:880-885 | a reader that is not the last takes one reference away and moves no shared word |
| TwoLevelCalls.LockThenPark | src/ub_lock/ub_distribute_lock.cpp:891-917 | a delayed unlock leaves the word as the lock left it, the unit in the token and the caller in the reservation |
| TwoLevelCalls.LockAfterPark | src/ub_lock/lock_optimization.cpp:656-671 | the next call of that node in the same mode has the unit without the shared word moving, is named, and clears token and reservation |
| TwoLevelCalls.LockDropsParked | src/ub_lock/lock_optimization.cpp:656-671 | one in another mode first gives the parked unit back, by its mode, and clears its owner word, token and reservation |
| TwoLevelCalls.MessageFrees | src/ub_lock/message_manage.cpp:210-225 | a release message to a node with an idle local lock gives its parked unit back and leaves token, owner word, reservation and the in-progress flag clear |
| TwoLevelCalls.ParkThenMessage | src/ub_lock/message_manage.cpp:210-225 | so lock, delayed unlock and a release message leave the word where it was |
| TwoLevelCalls.SharedTimesOut | src/ub_lock/ub_distribute_lock.cpp:707-740 | an S that waits for its node's leader or readers and times out changes nothing |
| TwoLevelCalls.ExclusiveTimesOut | src/ub_lock/ub_distribute_lock.cpp:920-985 | nor does an SX or X that times out on the shared word |
| TwoLevelCalls.UpgraderReturnsEarly | src/ub_lock/ub_distribute_lock.cpp:1244-1249 | an SX unlock that leaves readers behind and finds no waiter at the head returns with the unit given back and the node's SX flag still set, after which no SX or X of that node gets its local lock |
| TwoLevelCalls.UnlocksByName | src/ub_lock/ub_distribute_lock.cpp:1050-1081 | in any state, exclusion broken or not, an SX or X unlock that gives its unit back is the one the owner word names; any other parks or is refused |
| TwoLevelCalls.SharedUnlockBounded | src/ub_lock/ub_distribute_lock.cpp:898-905 | in any state an S unlock goes on exactly if the word is then at most 65536, and takes its unit back and is refused otherwise |
| TwoLevelCalls.JoinsOnSecondSight | src/ub_lock/ub_distribute_lock.cpp:707-740 | a reader goes on to count itself only if it saw GLOBAL_HELD again after reading the count, and only below the largest int32 |
| ReaderGrouping.SharingIsExact | src/ub_lock/ub_distribute_lock.cpp:645-655 | on any node whose own calls use no SX and never stand between two cleanup stores, in every run of the code as written and whatever the other nodes do: the reference count equals the node's readers, at most one call leads, at most one releases, and no unlock meets a count that is not positive |
| ReaderGrouping.SharingExcludes | src/ub_lock/ub_distribute_lock.cpp:707-919 | if every node keeps to that, no unlock takes the undo branch and the lock excludes |
| TwoLevelLedger.WordIsLedger | src/ub_lock/ub_distribute_lock.cpp:742-1260 | in every run up to the first stray unlock, SX and delayed release included, the word is what the takes and returns of all nodes add up to: zero under the one X unit out, else FREE less the S units and the at most one SX unit out |
| NodeUnits.NodeAccount | src/ub_lock/lock_optimization.cpp:588-671 | on any such node, delayed release included and whatever the others do: for each mode the units taken and not returned are those with its readers, its writer, its token or a call emptying the token, and those its release handler dropped; the token is empty while a call is between taking and parking it |
| NodeUnits.OneUnitAtATime | src/ub_lock/ub_distribute_lock.cpp:893-910 | readers and token of a node never have an S unit each |
| NodeUnits.ParkerOnly | src/ub_lock/ub_distribute_lock.cpp:893-910 | a call that parks its unit is the only one of its node past the token, so parking overwrites nothing |
| UnitCensus.WordAccount | src/ub_lock/ub_distribute_lock.cpp:707-1260 | over all nodes: the word is FREE less the S units about and lost, or zero when an X unit is about or lost, which is then the only unit |
| UnitCensus.RestExactly | src/ub_lock/message_manage.cpp:210-225 | with no call under way and nothing parked, the word is FREE if and only if no handler of a release message, in the whole run, had a token in hand and found its local lock held |
| UnitCensus.NodeOwnsOneUnit | src/ub_lock/ub_distribute_lock.cpp:707-919 | on a node that does not delay releases, whatever the others do, the S units out are one while a call is behind it and none otherwise: one unit at most, returned once by the last reader |
| UnitCensus.UnitsConserved | src/ub_lock/ub_distribute_lock.cpp:707-919 | without delayed release, in every run the shared word is FREE less one per node that owns, or zero for one writer; it is FREE exactly when nobody owns or writes |
| UnitLoss.MessageLosesUnit | src/ub_lock/message_manage.cpp:210-222 | a run with one delayed X unlock, a second writer that times out and one release message that ends at rest with the word at zero |
| UnitLoss.UnlockWipesToken | src/ub_lock/ub_distribute_lock.cpp:895-897 | a run with one reader and one delayed SX unlock on its node that ends at rest with the SX unit missing |
| UnitLoss.HandlerEnds | src/ub_lock/message_manage.cpp:210-225 | the only ways a release handler ends: it found no token, it found the local lock held, or it has just put one S unit, 32768 or the whole 65536 back into the word |
| UnitLoss.HandlerReturns | src/ub_lock/lock_optimization.cpp:588-640 | a handler with a token in hand that finds the local lock idle can go on to return that unit, of that mode, with owner word and reservation cleared |
| TokenLosses.ReservationExact | src/ub_lock/ub_distribute_lock.cpp:891-897 | in every run of every usage the reservation word is set exactly while one unit in the whole system is being parked, parked or being taken out, or once one was lost from a token; so at most one is ever lost |
| TwoLevelBoundary.ReturnsExactly | src/ub_lock/ub_distribute_lock.cpp:707-1260 | over all usages: every state at rest has the whole word back if and only if releases are not delayed and the usage is one under which the lock excludes |
| UnitReturn.RunCounts | src/ub_lock/ub_distribute_lock.cpp:707-919 | up to the first undo branch, SX, failing leaders and delayed release included: the units a node took and did not return are with its calls, in its token, behind its positive count, behind a count that was replaced, or lost from a token, and each replaced count leaves a reader without a reference |
| UnitReturn.RestDecided | src/ub_lock/lock_optimization.cpp:588-671 | up to the first undo branch the word at rest is FREE if and only if no handler had a token in hand and found its local lock held and no unlock's store wiped a token, and otherwise exactly one unit is missing |
| UnitReturn.RestReturns | src/ub_lock/ub_distribute_lock.cpp:707-1260 | so without delayed release the whole word is back |
| UnitStranding.UpgradeStrandsUnit | src/ub_lock/ub_distribute_lock.cpp:880-889 | a run of one reader, one SX call and two leaders that ends at rest one unit short |
| UnitStranding.StaleStoresStrandUnit | src/ub_lock/ub_distribute_lock.cpp:645-655 | a run without SX, with three failed leaders and a writer, that ends the same way |
| NodeUnits.LeaderAlone | src/ub_lock/ub_distribute_lock.cpp:742-771 | a leader about to take a unit, from the word or the token, is the first of its node to have one |
| NodeUnits.ReleaserAlone | src/ub_lock/ub_distribute_lock.cpp:893-910 | the last reader out is the only call behind the unit it gives back or parks |
| ReaderGrouping.ReaderCounted | src/ub_lock/ub_distribute_lock.cpp:880-889 | a reader always finds its own reference counted |
| ReaderGrouping.ExclusiveMeansIdle | src/ub_lock/ub_distribute_lock.cpp:1082-1083 | storing GLOBAL_IDLE in unlock_x changes nothing: nobody of the node takes part in a global S |
| TwoLevelBoundary.ExclusionExactly | src/ub_lock/ub_distribute_lock.cpp:859-919 | over all usages: exclusion holds in every run if and only if the undo branch is avoided or one step, or callers use no SX and S leaders never fail or clean up in one step |
| TwoLevelStray.StrayUnlockBreaksExclusion | src/ub_lock/ub_distribute_lock.cpp:1258-1258 | a run with SX in use that ends with an S hold and an X hold |
| TwoLevelStray.StaleStoresBreakExclusion | src/ub_lock/ub_distribute_lock.cpp:645-655 | a run without SX, with two failed leaders between their cleanup stores, that ends the same way |
| WaitQueue.RingQueue.constructor | src/ub_lock/ring_queue.h:68-78 | a new ring is a valid empty line |
| WaitQueue.RingQueue.Reset | src/ub_lock/ub_distribute_lock.cpp:335-354 | resetting for a rebuild gives the empty line whatever the slots held |
| WaitQueue.RingQueue.Enqueue | src/ub_lock/ring_queue.h:104-139 | fails exactly when the ring is full; else appends the waiter to the line and overwrites no live one, across 32-bit wrap-around |
| WaitQueue.RingQueue.MarkTimeout | src/ub_lock/ring_queue.h:51-66 | takes exactly the live waiter of that slot out of the count |
| WaitQueue.RingQueue.CleanTimeout | src/ub_lock/ring_queue.h:172-178 | the owner of a ticket leaves the line wherever it stands and nobody else does; the ring stays valid for any ticket |
| WaitQueue.RingQueue.Outqueue | src/ub_lock/ring_queue.h:141-170 | succeeds exactly on a waiting head and notifies that one |
| WaitQueue.RingQueue.SkipDead | src/ub_lock/ring_queue.h:80-102 | the head passes timed-out tickets only, all of those in front, and stops |
| WaitQueue.RingQueue.PeekHead | src/ub_lock/ring_queue.h:180-217 | leaves the line as it is and reports its first waiter's mode exactly when that one is waiting |
| WaitQueue.RingQueue.PopHead | src/ub_lock/ring_queue.h:219-228 | a notified head leaves and the rest of the line stays in order |
| WaitQueue.RingQueue.SelfHandoff | src/ub_lock/ring_queue.h:230-246 | a waiter grants itself exactly when it is a waiting head |
| WaitQueue.RingQueue.TicketsDiffer | src/ub_lock/ring_queue.h:104-139 | two waiters in the ring never share a 32-bit ticket |
| WaitQueue.RingQueue.Wake | src/ub_lock/ub_distribute_lock.cpp:512-533 | grants exactly the first min(pops + 1, size) waiters of the batch when the first pops of them leave meanwhile, the whole batch if and only if it is no larger than pops + 1, nothing for a notified head or one without a mode, and the rest of the line stays |
| WaitQueue.RingQueue.WakeChain | src/ub_lock/ub_distribute_lock.cpp:468-510 | the S and SX chains stop exactly where the next waiter breaks the rule or has been notified and not left |
| WaitQueue.BatchLongest | src/ub_lock/ub_distribute_lock.cpp:468-510 | the batch is the longest prefix of the line that keeps to the rule: one X, or readers with at most one SX, that one first or behind a reader |
| WaitQueue.SecondReaderLeft | src/ub_lock/ub_distribute_lock.cpp:468-489 | two waiting readers make a batch of two, and with nobody leaving one is granted |
| WaitQueue.SecondReaderSleeps | src/ub_lock/ub_distribute_lock.cpp:468-489 | the same on a ring: enqueue two readers, wake, and the second still waits |
| SharedLock.OwnerRoundTrip | src/ub_lock/local_lock.h:380-383 | node and signed tid are read back from the owner word, which is never the invalid owner |
| SharedLock.DecodeEncode | src/ub_lock/ub_distribute_lock.cpp:35-44 | the shared words determine who holds S, SX and X, with tids and recursion counts |
| SharedLock.ExpectedIsPopulation | src/ub_lock/ub_distribute_lock.cpp:1468-1493 | the reader count read out of the lock word is the number of bits in the bitmap |
| Recovery.CutLeavesRaw | src/ub_lock/ub_distribute_lock.cpp:742-1260 | a node stopped after any write of any of its calls leaves words that depend only on where it stopped |
| Recovery.RecoverExact | src/ub_lock/ub_distribute_lock.cpp:1536-1710 | recovering leaves exactly the survivors' lock word, owners, counts and bitmap, if and only if there is no orphaned bit, no node with its bit and several units, and no missed owner |
| Recovery.CrashThenRecover | include/ub_dist_lock.h:172-172 | the same for every sequence of writes of the failed node, cut anywhere |
| Rebuild.WholeLock | src/ub_lock/ub_distribute_lock.cpp:742-1196 | the writes of a lock call to the shared words, uncut, take the words of the others' holdings to the words of theirs and the caller's hold, in every mode |
| Rebuild.WholeUnlock | src/ub_lock/ub_distribute_lock.cpp:859-1260 | and those of the unlock take them back |
| Recovery.SharedPartExact | src/ub_lock/ub_distribute_lock.cpp:1536-1599 | comparing bitmap and lock word removes the failed node's bit and all its S units, but for one unit when it had several and its bit |
| Recovery.StaleBitSurvives | src/ub_lock/ub_distribute_lock.cpp:1659-1682 | the stop after which recovery leaves a stale bit |
| Recovery.SecondUnitSurvives | src/ub_lock/ub_distribute_lock.cpp:1588-1593 | a node that stops with two units and its bit: recovery leaves one unit that nobody has |
| Rebuild.OrderIrrelevant | src/ub_lock/ub_distribute_lock.cpp:1335-1383 | neither acceptance nor the words written depend on the order of the reports |
| HolderQuery.QueryTells | src/ub_lock/ub_distribute_lock.cpp:1262-1306 | when a node's fields are those of what it holds, its query reports exactly that: mode, thread, count, reader bit and delayed mode |
| HolderQuery.QueryThenRebuild | src/ub_lock/ub_distribute_lock.cpp:1262-1461 | asking all nodes that hold something, in any order, and rebuilding: the reports are accepted and the words written decode to what the nodes hold, a delayed unit included |
| HolderQuery.AcceptedExactly | src/ub_lock/ub_distribute_lock.cpp:263-297 | rebuild accepts a snapshot if and only if nodes that keep to the lock's rules could have reported it |
| HolderQuery.QueryTellsExactly | src/ub_lock/ub_distribute_lock.cpp:1276-1305 | after every history of calls, delayed unlocks included, the query tells who holds what and what was left with the node, if and only if readers and upgraders of one node never overlap |
| HolderQuery.UpgraderForgotten | src/ub_lock/ub_distribute_lock.cpp:911-911 | otherwise: a reader that comes and goes clears the flag under an SX holder of its node, the query reports nothing held, and a rebuild frees the lock |
| HolderQuery.ReaderForgotten | src/ub_lock/ub_distribute_lock.cpp:1258-1258 | and a reader whose reference a second reader overwrote after an SX unlock is not reported |
| HolderQuery.TokenForgotten | src/ub_lock/ub_distribute_lock.cpp:895-897 | nor is a delayed SX unit whose token the last reader out has wiped |
| Rebuild.RebuildRoundTrip | src/ub_lock/ub_distribute_lock.cpp:1405-1436 | what an accepted snapshot is written as reads back as the snapshot, tokens included, and its reader count is the bitmap's |
| Rebuild.RebuildSays | src/ub_lock/ub_distribute_lock.cpp:1405-1436 | of all words there could be, those written for an accepted snapshot are the only ones that say, report by report, who holds X and SX and how often, whose token is parked, who reads and how many units are out |
| Rebuild.AcceptableConsistent | src/ub_lock/ub_distribute_lock.cpp:1385-1393 | an accepted snapshot never has X beside anything else |
| Rebuild.RecoverHolder | src/ub_lock/ub_distribute_lock.cpp:1659-1710 | recovering a node between calls takes away its holds and no others, if and only if its owner word is not missed |
| Rebuild.RebuildThenRecover | src/ub_lock/ub_distribute_lock.cpp:299-333 | rebuilding and then recovering p equals encoding the snapshot without p's report |
| Rebuild.RecoverMany | src/ub_lock/ub_distribute_lock.cpp:1659-1710 | recovering any nodes in any order, repeatedly, leaves the holdings of the rest |
| Rebuild.VerdictSound | src/ub_lock/ub_distribute_lock.cpp:279-297 | a snapshot that passes the checks after the scan satisfies the compatibility rules pair by pair |
| Rebuild.VerdictComplete | src/ub_lock/ub_distribute_lock.cpp:1385-1393 | a compatible snapshot passes those checks |
| RwLock.SharedRwLock.TakeOwner | src/ub_lock/ub_distribute_lock.cpp:1519-1534 | takes a set owner word exactly when fewer than five attempts fail spuriously |
| RwLock.SharedRwLock.RecoverX | src/ub_lock/ub_distribute_lock.cpp:1602-1621 | the method changes the words as the function RecoverExact speaks of does |
| RwLock.SharedRwLock.RecoverSx | src/ub_lock/ub_distribute_lock.cpp:1623-1642 | the same for a lone SX unit |
| RwLock.SharedRwLock.RecoverShared | src/ub_lock/ub_distribute_lock.cpp:1536-1599 | the same for readers |
| RwLock.SharedRwLock.RecoverSxAndShared | src/ub_lock/ub_distribute_lock.cpp:1644-1657 | the same for SX with readers |
| RwLock.SharedRwLock.PurgeQueue | src/ub_lock/ub_distribute_lock.cpp:1684-1696 | times out the half-written slots and the failed node's live ones, and no others; the line is the other nodes' waiters in their order |
| RwLock.SharedRwLock.Recover | src/ub_lock/ub_distribute_lock.cpp:1659-1710 | error exactly for a bad node or during initialisation; else words recovered, the line is the survivors' waiters in order with the first granted if and only if the lock is free, no live slot of p, reference count lowered unless it is the last |
| RwLock.SharedRwLock.Admits | src/ub_lock/ub_distribute_lock.cpp:1335-1383 | a report that stops the scan makes the whole snapshot unacceptable |
| RwLock.SharedRwLock.Scan | src/ub_lock/ub_distribute_lock.cpp:1328-1393 | accepts exactly the snapshots that meet the order-free S/SX/X and token rules |
| RwLock.SharedRwLock.WriteHolds | src/ub_lock/ub_distribute_lock.cpp:1411-1425 | owner word and count of X and SX are the node, thread and recursion count of the report that holds it, and the word is what that and the readers leave |
| RwLock.SharedRwLock.ReplayToken | src/ub_lock/ub_distribute_lock.cpp:299-333 | the stores add the delayed token as a hold of its node |
| RwLock.SharedRwLock.WriteSnapshot | src/ub_lock/ub_distribute_lock.cpp:1405-1436 | together they write the words that say of every report its node, thread, recursion count, reader bit and token, and nothing else |
| RwLock.SharedRwLock.Rebuild | src/ub_lock/ub_distribute_lock.cpp:1310-1461 | succeeds exactly for an acceptable snapshot with a local lock; only the claimant of a zero count writes, the words say of each report what it reports, it publishes the number of reports and leaves an empty queue; otherwise nothing changes |
| Initialisation.PublicationSafe | src/ub_lock/ub_distribute_lock.cpp:535-634 | in every run of creates, frees, rebuilds, owners that stop and recovers of them: one initialiser at most, a positive count only over a fully written lock and equal to the references out, no free of an owned reference uncounted |
| Initialisation.PublicationExactly | src/ub_lock/ub_distribute_lock.cpp:1702-1708 | that holds in every run if and only if recover is called for stopped owners only and rebuild on a published lock only for reserved references |
| Initialisation.ClosedUnderOwner | src/ub_lock/ub_distribute_lock.cpp:1396-1449 | otherwise a run in which the lock is uninitialised under a live owner |
| Initialisation.RecoverKeeps | src/ub_lock/ub_distribute_lock.cpp:1702-1708 | recovering a stopped owner drops its reference, or keeps it when it is the last |
| Initialisation.CreateKeeps | src/ub_lock/ub_distribute_lock.cpp:535-609 | every step of lock_create keeps that, failures included |
| Initialisation.FreeKeeps | src/ub_lock/ub_distribute_lock.cpp:611-634 | every step of lock_free by an owner keeps it |
| Initialisation.RebuildKeeps | src/ub_lock/ub_distribute_lock.cpp:1396-1449 | every step of rebuild's claim and publication, and every take-up of a reserved reference, keeps it |
| Initialisation.FreesExactly | src/ub_lock/ub_distribute_lock.cpp:611-634 | every free by an owner of a reference counts down in every run, if and only if callers keep to the same two rules |
| Initialisation.ClosedByLast | src/ub_lock/ub_distribute_lock.cpp:611-634 | in every such run a published lock goes back to zero only by its last owner, in its free or a failed registration, never by recover |
| Initialisation.CountFits | src/ub_lock/ub_distribute_lock.cpp:535-609 | in every run of every usage the count stays within int32: the create that would pass it is refused |
| Initialisation.CreateAlone | src/ub_lock/ub_distribute_lock.cpp:535-609 | a create of a free lock that runs alone stores every field and publishes one reference |
| Initialisation.JoinAlone | src/ub_lock/ub_distribute_lock.cpp:535-609 | a create of a published lock, also one that waited for its creator, adds one reference |
| Initialisation.FreeAlone | src/ub_lock/ub_distribute_lock.cpp:611-634 | a free takes one away, whatever the count |
| Initialisation.RebuildAlone | src/ub_lock/ub_distribute_lock.cpp:1396-1449 | a rebuild from n reports publishes n references, one its own |
| Initialisation.TakeUpAlone | src/ub_lock/ub_distribute_lock.cpp:1396-1449 | a reserved reference is taken up without counting again |
| Initialisation.RecoverAlone | src/ub_lock/ub_distribute_lock.cpp:1702-1708 | recover gives back the reference of an owner that stopped, while others remain |
| XRecursion.RecursionRefines | src/ub_lock/ub_distribute_lock.cpp:990-1084 | for every nesting of calls by any threads both counters equal one depth, and the word is free exactly when the outermost lock is matched |
| XRecursion.RoomExactly | src/ub_lock/lock_optimization.cpp:358-381 | a call keeps the levels in step if and only if the depth stays below 2^32 |
| XRecursion.DepthWraps | src/ub_lock/lock_optimization.cpp:496-516 | at depth 2^32 the next unlock frees the lock under its holder |
| XRecursion.RecursiveLock.Lock | src/ub_lock/ub_distribute_lock.cpp:990-1035 | below the counter limit, if both levels stood at a depth they stand at the next one, and the result is success, or timeout exactly when another thread holds the lock |
| XRecursion.RecursiveLock.Unlock | src/ub_lock/ub_distribute_lock.cpp:1037-1084 | if both levels stood at a depth they stand at the one below, free at zero, and a thread that is not the holder gets an error |
| MutexLock.LevelsAlwaysAgree | src/ub_lock/ub_mutex_lock.cpp:624-705 | if lock_free starts only while no call uses the local lock, in every run the global owner is its node's registered local owner, there is one holder at most, and no unlock by a holder fails |
| MutexLock.LevelsAgreeExactly | src/ub_lock/ub_mutex_lock.cpp:340-355 | whether lock_free starts only then is exactly what decides whether the levels agree in every run |
| MutexLock.BusyFreeBreaksUnlock | src/ub_lock/ub_mutex_lock.cpp:340-355 | a run in which lock_free drops a holder's local lock and its unlock fails |
| MutexLock.LockKeeps | src/ub_lock/ub_mutex_lock.cpp:624-665 | every step of lock keeps owners and user counts right |
| MutexLock.UnlockKeeps | src/ub_lock/ub_mutex_lock.cpp:667-705 | every step of unlock by a holder passes its checks |
| MutexLock.RegistryKeeps | src/ub_lock/ub_mutex_lock.cpp:334-355 | if lock_free starts only while no call uses the object, registering and freeing keep owners, user counts and the object of every caller right |
| MutexLock.UsedStaysRegistered | src/ub_lock/ub_mutex_lock.cpp:340-355 | in every run, whenever lock_free starts: the user count is never out of step, no object in use leaves the registry, at most one thread is past the global CAS, and a thread takes and releases the global owner only while it owns the local object |
| MutexLock.FreedUnused | src/ub_lock/ub_mutex_lock.cpp:340-355 | the step of lock_free that takes an object out of the registry finds no call using it, in every run |
| MutexLock.MutexRoundTrip | src/ub_lock/ub_mutex_lock.cpp:624-705 | from any reachable state with both levels free, lock then unlock that run alone leave every word as it was |
| MutexLock.FreeAlone | src/ub_lock/ub_mutex_lock.cpp:340-355 | lock_free of an object nobody owns or uses takes it out of the registry, and nothing else |
| RingBufferOrder.RingOrder | src/ub_comm_queue/MPSCRingBuffer.cpp:415-613 | in every run, until a body of 2^32 - 16 bytes or more gets a ticket: no more than cap tickets are unread, no counter wraps, tickets are dealt with in order and once each, and what is read was committed under that ticket |
| RingBufferPayload.OrderExactly | src/ub_comm_queue/MPSCRingBuffer.cpp:415-427 | that holds in every run if and only if no such body is sent |
| RingBufferPayload.LongBodyOverruns | src/ub_comm_queue/MPSCRingBuffer.cpp:415-475 | a run in which one body of 2^32 - 16 bytes passes the size check, is lost as corrupt, and spells a sequence number into the next entry that makes the consumer read a ticket nobody took |
| RingBufferOrder.ForcedFullBound | src/ub_comm_queue/MPSCRingBuffer.cpp:615-627 | once the consumer has stopped, with any stale cached heads, a forged head and bodies of any length, tail never passes the real head plus capacity and unread tickets keep their own slots; the forged head stays full |
| RingBufferOrder.ForcedFullExact | src/ub_comm_queue/MPSCRingBuffer.cpp:615-627 | the head it stores is exactly a capacity behind the tail it read, across 64-bit wrap-around |
| RingBufferOrder.TakeKeeps | src/ub_comm_queue/MPSCRingBuffer.cpp:433-459 | a won CAS on tail yields a new ticket within the capacity, however stale the head it was checked against |
| RingBufferOrder.ReserveKeeps | src/ub_comm_queue/MPSCRingBuffer.cpp:508-542 | every head value a producer keeps or stores bounds the tail, wrapped comparison included |
| RingBufferOrder.ReadyIsOwn | src/ub_comm_queue/MPSCRingBuffer.cpp:568-584 | a matching sequence number means the head's own ticket was committed, never an earlier ticket's late commit |
| RingBufferOrder.ForgedBounded | src/ub_comm_queue/MPSCRingBuffer.cpp:615-627 | the fake head, subtraction wrapped, admits no ticket past the tail it was computed from |
| RingBufferOrder.ConsumerKeeps | src/ub_comm_queue/MPSCRingBuffer.cpp:260-301 | every consumer step keeps capacity, order and commits; a skip is of a ticket that was taken, and delivers nothing |
| RingBufferPayload.PayloadIntact | src/ub_comm_queue/MPSCRingBuffer.cpp:462-475 | if skipped producers stay away and bodies are below 2^32 - 16 bytes, what is delivered under a ticket is what was sent under it and no entry reads as corrupt |
| RingBufferPayload.IntegrityExactly | src/ub_comm_queue/MPSCRingBuffer.cpp:260-301 | payloads are intact in every run if and only if skipped producers stay away and no body has 2^32 - 16 bytes or more |
| RingBufferPayload.LateWriterGarbles | src/ub_comm_queue/MPSCRingBuffer.cpp:462-475 | a run that delivers a message with another's header |
| RingBufferPayload.WrapExactly | src/ub_comm_queue/MPSCRingBuffer.cpp:568-584 | the consumer reads only committed slots if and only if fewer than 2^64 - 1 tickets were handed out, and none or only short bodies were sent |
| RingBufferDelivery.CommitsHeeded | src/ub_comm_queue/MPSCRingBuffer.cpp:260-301 | in those runs the consumer, at every look, goes for a committed head and never gives it up |
| RingBufferDelivery.SkippedUnwritten | src/ub_comm_queue/MPSCRingBuffer.cpp:260-301 | a ticket given up as a stale reservation had been taken and, at the second look, not been committed |
| RingBufferDelivery.HeedsExactly | src/ub_comm_queue/MPSCRingBuffer.cpp:260-301 | no commit is missed in any run if and only if skipped producers stay away and no body has 2^32 - 16 bytes or more |
| RingBufferDelivery.LateCommitHides | src/ub_comm_queue/MPSCRingBuffer.cpp:462-475 | a run in which a late commit of a skipped ticket overwrites a committed one, which is then given up |
| RingBufferDelivery.LongBodyHides | src/ub_comm_queue/MPSCRingBuffer.cpp:415-475 | a run in which a long body wipes a committed entry, which is then given up |
| RingBufferDelivery.SendAlone | src/ub_comm_queue/MPSCRingBuffer.cpp:415-475 | wherever the full check lets it through, a producer that runs alone commits any message that fits under the next ticket, with its header, body and sequence number |
| RingBufferDelivery.ReceiveAlone | src/ub_comm_queue/MPSCRingBuffer.cpp:568-613 | a consumer that runs alone delivers a committed head with the message sent under that ticket and moves on |
| RingBufferDelivery.CopiesInside | src/ub_comm_queue/MPSCRingBuffer.cpp:585-605 | in every run of every usage the consumer never copies more bytes than an entry has |
| FlowControl.ThresholdIsShare | src/ub_comm_queue/MPSCRingBuffer.cpp:59-71 | the threshold is the least depth that is at least the given percentage of the capacity |
| FlowControl.Ring.SampleFlowState | src/ub_comm_queue/MPSCRingBuffer.cpp:207-249 | congested exactly at or above the threshold, the flag says so, and the recorded maximum is the larger of the old one and this depth |
| FlowControl.Ring.AfterLocalEnqueue | src/ub_comm_queue/MPSCRingBuffer.cpp:303-321 | with any stale head the shortcut answers as the real head would, even one past the new tail; at or above the threshold by the stale head, flag, maximum and cached head are brought up to date, below it nothing changes |
| FlowControl.Ring.AfterRemoteEnqueue | src/ub_comm_queue/MPSCRingBuffer.cpp:335-362 | the same with a first, a current or, every 1024 messages, any copy of the threshold; what a stale copy answers in between; and which fields change |
| FlowControl.Ring.Configure | src/ub_comm_queue/MPSCRingBuffer.cpp:364-375 | refuses more than 100 percent and changes nothing; else threshold and version are the new ones, and flag and maximum are those of the depth sampled |
| FlowControl.EdgesAlternate | src/ub_comm_queue/MPSCRingBuffer.cpp:207-249 | in every interleaving of samplers, enter and exit edges alternate strictly, enter first |
| FlowControl.AloneSettles | src/ub_comm_queue/MPSCRingBuffer.cpp:207-249 | a sampler that runs alone leaves the flag as it found the ring and logs an edge exactly when that changes it |
| Layout.RingSizeFits | src/ub_comm_queue/MPSCRingBuffer.cpp:73-86 | the size of one ring never overflows size_t |
| Layout.CheckCapacity | src/ub_comm_queue/UBShmTransport.cpp:443-495 | succeeds exactly for valid descriptors whose sum, modulo 2^64, fits the region |
| Layout.CreateRings | src/ub_comm_queue/UBShmTransport.cpp:528-639 | succeeds exactly for distinct valid priorities; offsets and buffer size are those of the exact layout, wrapped |
| Layout.LayoutExactly | src/ub_comm_queue/UBShmTransport.cpp:443-639 | for any base and rings that pass the check: at the 64-bit addresses given out they lie inside the region and share no byte if and only if the sizes add up to less than 2^64; aligned always |
| Layout.EntriesInside | src/ub_comm_queue/MPSCRingBuffer.cpp:109-121 | every entry with its longest message lies inside its ring, aligned |
| Layout.BufferExactly | src/ub_comm_queue/UBShmTransport.cpp:627-638 | the dispatcher's buffer holds every message any ring accepts if and only if its size did not wrap |
| Layout.BufferWraps | src/ub_comm_queue/UBShmTransport.cpp:627-638 | at any aligned base, one ring of two entries that passes the check and is created, with a buffer of 79 bytes for messages of 2^32 - 1 |
| Layout.WrapAccepted | src/ub_comm_queue/UBShmTransport.cpp:456-494 | at any aligned base, two rings that pass the check of a region far too small, the second of which covers the lock ring's first byte |
| Dispatcher.FlatHead | src/ub_comm_queue/UBShmTransport.cpp:1111-1146 | starting over at the first ring takes the front of the rings laid end to end |
| Dispatcher.Transport.PollAndDispatchOnce | src/ub_comm_queue/UBShmTransport.cpp:1111-1146 | a pass ends, counts min(8192, queued) and dispatches that prefix of the rings' contents in active-list order |
| Heartbeat.Monitor.Pass | src/ub_comm_queue/UBShmTransport.cpp:840-890 | one pass looks once at every initialised peer, by that peer's timeout, and at nobody else; what a look decides is AliveMeansMoved |
| Heartbeat.Effective | src/ub_comm_queue/UBShmTransport.cpp:862-867 | the timeout is the least that covers the local one, three declared intervals and two check intervals; a peer that declares none has the default interval |
| Heartbeat.AliveMeansMoved | src/ub_comm_queue/UBShmTransport.cpp:869-880 | for every sequence of counter values, restarts included: a peer is alive if and only if the counter was seen to move to a new nonzero value within the timeout, so one never seen to move is not |
| Heartbeat.AliveExactly | src/ub_comm_queue/UBShmTransport.cpp:869-880 | over every timed run a peer is alive if and only if it has bumped its counter and its present value was first read no longer ago than the timeout |
| Heartbeat.DeadMeansSilent | src/ub_comm_queue/UBShmTransport.cpp:869-880 | over every timed run a seen peer is marked dead only after a silence longer than the timeout |
| Heartbeat.PunctualNeverDead | src/ub_comm_queue/UBShmTransport.cpp:856-880 | a seen peer whose bumps follow one another within three declared intervals, or three default ones when it declares none, is alive at every look |
| Heartbeat.StoppedIsFound | src/ub_comm_queue/UBShmTransport.cpp:839-892 | a peer that stops is marked dead within the timeout and two check intervals, and stays dead |

## Left out

- Memory orders, fences, cache-refresh writes and mixed-width atomics: every atomic access is one sequentially consistent step.
- Liveness and wake-up promptness: condition variables, GRANT delivery, retries and backoff are free choices.
- NodeUnits.NodeAccount: for nodes that use no SX, undo branch or not; with SX in use UnitReturn.RunCounts accounts for the units up to the first undo branch.
- TokenLosses.ReservationExact: recovery, rebuilding, and the clearing of a reservation word that names no valid node are not among its steps.
- UnitReturn.RunCounts: after an undo branch in two steps; UnitStranding has the runs in which units are then missing at rest.
- TwoLevelCustody.UnlockSharedKeeps: the undo branch as two steps is not among its steps, since custody does not survive it; TwoLevelBoundary.ExclusionExactly and TwoLevelBoundary.ReturnsExactly decide the usages that have it.
- Recursive calls in the two-level step system; nested X locking is modelled apart, one call at a time and without delayed release.
- Interleaving inside one wait-queue operation, and the head advance after a failed send.
- The reservation word in the recovery theorems: recovery may clear another node's reservation.
- Recovery.RecoverExact: fewer than 32768 S units are out, beyond which the word no longer tells them from an SX unit, and survivors are between calls, their bits and units agreeing; a survivor's bit that its own release handler cleared late is not among the starting states.
- RwLock.SharedRwLock.Rebuild: starts when no other node's rebuild is under way (the source waits for that), and node registry entries and message callbacks are not modelled.
- RwLock.SharedRwLock.Recover: no waiter pops the queue while it runs, as its callers guarantee.
- HolderQuery.QueryTellsExactly: calls of a node come one after another, without the recursive policy; a release message between them is not modelled.
- HolderQuery.QueryThenRebuild: queried between calls; the refusal of a node number out of range is not modelled.
- Values outside the four lock modes in a report, which the source refuses, are not representable in the model.
- WaitQueue.RingQueue.PeekHead: slots are not half-written, since each queue operation runs alone; the source's wait for a half-written slot is not modelled.
- WaitQueue.RingQueue.PopHead: called by the notified head only.
- RingBufferPayload.PayloadIntact: the copy of a header and of a body are one step each, and a header carries the length of its body.
- RingBufferOrder.RingOrder: for fewer than 2^64 - 1 tickets; WrapExactly shows the bound is exact.
- What lies behind a ring in memory: a body that overruns its slot changes only later slots of the same ring, and the one it ends in may become anything.
- A second trigger_force_full, an initialiser that stops, and a granted waiter that times out during a wake chain.
- FlowControl.Ring.SampleFlowState: taken as one step, so the flag that is read again after a lost exit CAS, and the congestion it may report below the threshold, are not modelled.
- FlowControl.Ring.AfterLocalEnqueue: enqueue and flow result are one step.
- Depth statistics beyond the recorded maximum, log lines and debug counters.
- Layout.CheckCapacity: the billboard size check and the lookup of the node's region are not modelled.
- Heartbeat.StoppedIsFound: configuration is fixed during the run and the counter does not wrap.
- The spin lock, ub_dist_tx_res, the C interface, thread pool, callbacks, logging, timeout dumps, CPU pinning and shared-memory mapping: single-CAS or pass-through code.
