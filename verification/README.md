# Verified models of the transaction service core

Dafny models of the concurrent and the stateful core of the transaction service, with
proofs of what it promises. Each component is one module in one file (the
single-producer/single-consumer queue takes several); `dafny verify dfyconfig.toml` checks
everything.

How the models are built:

- **Concurrent protocols are machines.** One event is one load, store or
  read-modify-write of a shared variable, or one operation under a lock. A list of events is
  an arbitrary interleaving, and the theorems hold for every list. Loads and stores are
  sequentially consistent; fences are erased.
- **Objects that are updated in place are classes**, whose methods are proved against
  functions on values; the theorems are about those functions and about runs of them.
- **Whatever the code does not decide is a parameter**: random draws, timeouts, failed
  allocations, spurious wake-ups, what `TransactionExecution::Forward` answers, what a
  command does to an object, in which order log records arrive.
- Every lemma switches automatic induction off, so that each proof is what its body says.
- Where a promise does not hold for every input, the code is kept as it is, a lemma exhibits
  a failing run, and another gives the exact condition under which the promise holds.

What is modelled:

1. *The queue and its semaphore.* `SpscQueue` is the lock-free queue, `SpscInvariant` and
   `SpscSteps` what every step keeps, `SpscTheorems` what every interleaving guarantees,
   `SpscZeroSize` what goes wrong when it is built with size 0, `SpscConstruction` its
   constructor and `CeilToPow2` the rounding it uses. `Semaphore` is the light-weight
   semaphore with its time-out repair, `BlockingQueue` runs the two together, and
   `BlockingZeroSize` does so for size 0.
2. *The scheduler.* `CircularQueue` refines a plain sequence; `TxRound` is one round of a
   transaction processor over it; `TxConservation` follows every transaction through all
   threads; `SleepHandshake` and `ShardLatch` are the sleep/notify and the latch protocols.
3. *The command log.* `CommandLog` and `CommandSet` compact a transaction's commands,
   `ReplayBuffer` buffers logged transactions, `ReplayStream` replays them into an entry as
   they arrive out of order.
4. *Statistics.* `RecordCounters`, `RandomPairing` and their combination `SamplePool`,
   `PrefixCounts` and `DistributionSteps`.
5. *Sets and merging.* `MergeSorted`; `ReadSet` and `WriteSet`, with all their runs of calls in
   `ReadSetRuns` and `WriteSetRuns`.
6. *Publication and versions.* `LastKey`, `CatalogEntry`, `BucketInfo`.

`Arithmetic`, `KeyOrder` and `Options` hold what several modules share.

Where code and description differ, the model follows the code:

- The queue's constructor accepts size 0, but then starts from a one-cell block that can
  hold nothing; elements are lost (`SpscZeroSize`, `BlockingZeroSize`).
- `signal(0)` wakes a waiter without adding to the count (`Semaphore`).
- The 16-bit count of active transactions reads 0 at 65536 (`TxConservation`,
  `SleepHandshake`).
- Growth by one half makes no room in a circular queue of capacity 1: an element is written
  past the array at the back, and over the only element at the front (`CircularQueue`).
- `SetRecords` passes its quotient through a 32-bit `int` (`RecordCounters`), and the
  deletion counters of the sample wrap at 32 bits (`RandomPairing`).
- `ClearReadSet(table)` deducts entries that were never counted when the table is a meta
  table other than the catalog (`ReadSet`).
- The 16-bit read count of an entry reads 0 at 65536 reads, where giving one back fails an
  assertion; one read later giving one back drops the entry (`ReadSetRuns`).
- `DeleteWrite` reads the record of the write it drops without looking whether there is one;
  a write that deletes has none (`WriteSetRuns`).
- Insert, delete and insert of one key in a transaction ends as an update even when the row
  did not exist before (`WriteSet`).
- `Clone` and `Deserialize` of a bucket drop a dirty half that is not newer than the
  committed one. Only an owner set during a migration, with a version not older than the
  migration's, can make one; an assertion rules that out (`BucketInfo`).

## Model

| member | source | states |
|---|---|---|
| SpscTheorems.QueueIsFifo | include/readerwriterqueue.h:332-745 | in every interleaving of one producer and one consumer the values dequeued followed by the blocks' contents from front block to tail block are the values enqueued; neither in-code assertion fails; a dequeue returns the oldest element, a peek shows it, and a failed dequeue saw the queue empty at a moment of the call |
| SpscTheorems.ReservationIsKept | include/readerwriterqueue.h:134-196 | in every run `try_enqueue` is refused for lack of room only if at least `size` elements were resident at a moment of the call, for every size |
| SpscTheorems.BlockCountArithmetic | include/readerwriterqueue.h:145-160 | the constructor's block count minus one, times a block's usable cells, covers the reservation |
| SpscTheorems.RefusedMeansFull | include/readerwriterqueue.h:680-736 | a producer that finds no free block behind a full tail block has seen all the reserved room occupied |
| SpscTheorems.InitInv | include/readerwriterqueue.h:134-204 | a queue built with at least size 1 starts in the invariant |
| SpscSteps.ProducerKeeps | include/readerwriterqueue.h:616-745 | every single load or store of `inner_enqueue` keeps the ring shape, the full blocks between front and tail, the FIFO contents and what both sides know through their stale copies |
| SpscSteps.ConsumerKeeps | include/readerwriterqueue.h:332-564 | the same for every single load or store of `try_dequeue`, `pop` and `peek` |
| SpscSteps.NextKeeps | include/readerwriterqueue.h:332-745 | the invariant of the two processes is kept by every event, including the start of a call |
| SpscSteps.StoreNextCore | include/readerwriterqueue.h:700-736 | linking a new block in behind the tail block keeps the cycle of blocks and what is queued |
| SpscInvariant.ProducerUndisturbed | include/readerwriterqueue.h:616-745 | what the producer knows through `localFront` survives the consumer's stores |
| SpscInvariant.ConsumerUndisturbed | include/readerwriterqueue.h:332-437 | what the consumer knows through `localTail` survives the producer's stores |
| SpscZeroSize.ZeroSizeFails | include/readerwriterqueue.h:134-204 | with size 0 there is a run in which the consumer's assertion fails |
| SpscZeroSize.FifoExactlyWhenSized | include/readerwriterqueue.h:134-204 | the queue keeps its promises in all runs if and only if it is built with a size of at least 1 |
| SpscConstruction.Construct | include/readerwriterqueue.h:134-204 | the constructor's linking loop builds exactly the cycle of blocks the runs start from |
| CeilToPow2.Compute | include/readerwriterqueue.h:757-771 | on 64-bit words, smearing the highest bit downwards by shifts gives the least power of two that is at least the argument exactly from 1 to 2^63, and 0 for 0 and beyond |
| Semaphore.SemaphoreIsSound | include/atomicops.h:811-894 | in every interleaving, with time-outs racing late posts, waits never exceed signals, `signal` never sees a count below -1, and outside `wait` no kernel token is left over and the count is what is available |
| Semaphore.RepairAlwaysPolls | include/atomicops.h:838-860 | whenever the repair loop takes the count back a token is posted or about to be, so it never goes round without polling |
| Semaphore.SoundExactlyWhenSignalsAdd | include/atomicops.h:885-894 | the promises hold in all runs if and only if every signal adds at least one |
| BlockingQueue.InnerDequeueSucceeds | include/readerwriterqueue.h:896-1086 | in every interleaving of blocking, timed and polling calls on a queue of size at least 1 the dequeue after a successful wait succeeds, and between calls the semaphore counts the resident elements |
| BlockingZeroSize.DequeueSucceedsExactlyWhenSized | include/readerwriterqueue.h:896-1086 | queue and semaphore together keep those promises in all runs if and only if the queue is built with a size of at least 1 |
| BlockingZeroSize.ZeroSizeFails | include/readerwriterqueue.h:896-1086 | with size 0 there is a run, with every dequeue waited for, in which an assertion of the consumer fails |
| CircularQueue.CircularQueue.constructor | include/circular_queue.h:31-34 | a new queue is empty |
| CircularQueue.CircularQueue.Enqueue | include/circular_queue.h:72-107 | appends to the sequence, doubling a full ring without changing the elements or their order |
| CircularQueue.CircularQueue.EnqueueMoved | include/circular_queue.h:109-149 | appends to the sequence, growing a full ring by half, through every wrap-around, exactly if the ring has a free cell or capacity 2; otherwise the write would go past the array |
| CircularQueue.CircularQueue.EnqueueAsFirst | include/circular_queue.h:151-194 | prepends to the sequence, growing a full ring by half, except exactly in a full ring of capacity 1, where the new element overwrites the only one and the counter becomes 2 |
| CircularQueue.CircularQueue.Dequeue | include/circular_queue.h:196-207 | drops the first element, and leaves an empty queue alone |
| CircularQueue.CircularQueue.Get | include/circular_queue.h:229-232 | returns the element at that position of the sequence |
| CircularQueue.CircularQueue.Erase | include/circular_queue.h:234-247 | removes the element at the index, or the last one if there is none there, keeping the order of the rest |
| CircularQueue.HalfGrowthMakesRoom | include/circular_queue.h:109-121 | growth by half makes room if and only if the capacity is at least 2 |
| TxRound.RoundIsFair | include/tx_service.h:321-421 | every round, whatever `Forward` answers, keeps every transaction, forwards the idle and new ones first and in order, and forwards every transaction on fly at its start |
| TxRound.RoundConserves | include/tx_service.h:321-421 | each transaction is in the idle, on-fly and freed queues as often after a round as before it and in the batch together |
| TxRound.PassCalls | include/tx_service.h:343-421 | a pass calls `Forward` on exactly the transactions that were in the queue, in order, although answers put some back into it |
| TxRound.TxProcessor.RunOneRound | include/tx_service.h:321-421 | the three loops over the circular queues terminate and compute that round |
| TxRound.TxProcessor.ForwardOne | include/tx_service.h:343-421 | peek, dequeue, forward and put away does on the circular queues what it does on sequences |
| TxConservation.TransactionsAreConserved | include/tx_service.h:184-208 | in every interleaving of any number of creators with the processor each transaction made is in exactly one queue or one creator's hands, and the counters are the true numbers modulo 2^16 |
| TxConservation.AllFinishedIsRight | include/tx_service.h:933-945 | the answer is right as long as fewer than 2^16 transactions are active; beyond, the count reads 0 at every multiple |
| TxConservation.FinishedExactlyBelowWrap | include/tx_service.h:933-945 | the answer is right in all runs with at most so many active transactions if and only if that is below 2^16 |
| TxConservation.FinishedTooEarly | include/tx_service.h:184-208 | for every positive multiple of 2^16 a run with so many new transactions after which the answer is that all have finished |
| TxConservation.RoundIsARun | include/tx_service.h:321-421 | what a round does to the queues, with any batch it may dequeue, is a run of that machine in which the arrivals lose exactly the batch, so conservation extends to rounds |
| SleepHandshake.BlockedMeansNothingCounted | include/tx_service.h:584-600 | a processor blocked with nobody on the way to wake it was not asked to terminate and has a multiple of 2^16 active transactions |
| SleepHandshake.NoLostWakeupExactlyBelowWrap | include/tx_service.h:199-244 | no wake-up is lost in any run with at most so many active transactions if and only if that is below 2^16 |
| SleepHandshake.SleepsThroughWrap | include/tx_service.h:926-931 | a run in which the processor sleeps with 65536 transactions active and nobody about to wake it |
| SleepHandshake.OnItsWayArrives | include/tx_service.h:970-974 | from every state of every run in which the processor is blocked and somebody is on the way to wake it, at most five steps of the other threads wake it |
| ShardLatch.LatchIsExclusive | include/tx_service.h:286-304 | in every interleaving of native rounds, external rounds, `ForwardTx` and `Terminate` at most one party holds the latch, an occupied latch has a holder, holders still have the handler, no assertion on the status fails, and a native thread that left its loop finds Deconstructed |
| ShardLatch.DeconstructedIsFinal | include/tx_service.h:618-635 | once Deconstructed the status is never overwritten and nobody gets the latch again |
| ShardLatch.ClearedWhileUnheld | include/tx_service.h:618-628 | the handler is cleared only at a moment when nobody holds the latch |
| ShardLatch.ExternalKeeps | include/tx_service.h:747-791 | each step of an external round or of `ForwardTx` keeps the latch invariant |
| CommandLog.Compact | include/read_write_entry.h:144-168 | an entry is empty only if nothing ran, and without the ignore flag it holds every command |
| CommandLog.CompactionPreserves | include/read_write_entry.h:155-168 | replaying the retained commands, from any object if the ignore flag is set and else from the prior one, gives what all commands gave |
| CommandLog.LogRestoresObject | include/tx_command.h:332-367 | the compacted records of a history of transactions, buffered in any order with repetitions, replay to the object the history left |
| CommandSet.CommandSet.AddObjectCommand | include/command_set.h:57-111 | every entry stays the compaction of all commands run on its object since its first status, it forwards to the first shard named, and the lock and forward counters stay exact |
| CommandSet.CommandSet.AddCommand | include/read_write_entry.h:155-168 | one more command keeps an entry faithful to everything run on its object, whether or not the log is skipped |
| CommandSet.CommandSet.ObjectModified | include/command_set.h:148-161 | true if and only if a successful command was run on some object |
| ReplayBuffer.BufferedTxnCmdList.EmplaceTxnCmd | include/tx_command.h:332-367 | the list stays strictly sorted, holds the transaction's timestamp, gains nothing else and loses only earlier ones to a transaction that ignores them |
| ReplayBuffer.ReplayConverges | include/tx_command.h:332-367 | transactions fed in any order with any repetitions leave a strictly sorted buffer that replays, from any object, to what replaying all of them in commit order gives |
| ReplayBuffer.SameLive | include/tx_command.h:360-366 | the buffer and the complete sorted list agree from the last transaction that ignores its predecessors on |
| ReplayBuffer.IgnoringStartsAfresh | include/cc/cc_entry.h:1708-1715 | a logged transaction with the ignore flag replays alike from every object |
| ReplayStream.CcEntry.TryCommitBufferedCommands | include/cc/cc_entry.h:1680-1754 | the loop applies buffered transactions from the front while they fit the version, and its assertion on the position never fails |
| ReplayStream.CcEntry.EmplaceAndCommit | include/cc/cc_entry.h:1761-1779 | buffering a transaction and committing what fits gives the state the runs below are made of |
| ReplayStream.CcEntry.BackFill | include/cc/object_cc_map.h:2351-2393 | a fetched record drops the transactions it includes, lets the rest commit, and is ignored by an entry overwritten meanwhile |
| ReplayStream.ReplayIsExact | include/cc/cc_entry.h:1680-1779 | after any arrivals, repetitions and fetches a known entry holds exactly the object of the history at its version, and stands still only where the next record has not arrived |
| ReplayStream.VersionNeverFalls | include/cc/object_cc_map.h:2198-2205 | no arrival or fetch takes a known entry back to an earlier version |
| ReplayStream.KnownOnceLoaded | include/cc/object_cc_map.h:2351-2358 | once its record has been fetched an entry is known for good |
| ReplayStream.AssertsNeverFail | include/cc/cc_entry.h:1688-1697 | the assertions on transactions that ignore their predecessors hold at every arrival of every run |
| ReplayStream.FetchAssertsHold | include/cc/object_cc_map.h:2372-2387 | the same when a fetched record arrives |
| ReplayStream.RecoveryRebuildsObject | include/cc/cc_entry.h:1680-1779 | end to end: a history compacted, logged and delivered in any order rebuilds version and object with nothing left in the buffer |
| RecordCounters.DriftIsBounded | include/table_statistics.h:158-298 | in every run on N cores from an exact start the central count is the sum of the cores' counters whenever at most the capacity, is at most the capacity just when that sum is, and is never off by more than N*(N-1) |
| RecordCounters.DriftIsReached | include/table_statistics.h:446-471 | some run is off by exactly N*(N-1), so the bound is the best possible |
| RecordCounters.SpreadIsExact | include/table_statistics.h:410-425 | the cores' counters sum to the count if and only if the quotient fits a 32-bit int |
| RecordCounters.ShardCounters.SetRecords | include/table_statistics.h:410-425 | every core gets the converted quotient, the first ones one more |
| RecordCounters.ShardCounters.OnInsert | include/table_statistics.h:158-206 | updates the counters as one insert step of the runs |
| RecordCounters.ShardCounters.OnDelete | include/table_statistics.h:229-268 | updates the counters as one delete step of the runs |
| RandomPairing.Sample.Replace | include/random_pairing.h:192-216 | the in-place swaps move the new key to its place: the sample is the old one without the drawn key and with the new one, sorted, or unchanged if the key is there |
| RandomPairing.ReplacedKeys | include/random_pairing.h:192-216 | exactly one old key is exchanged for the new one and the sample stays strictly sorted |
| RandomPairing.Sample.Insert | include/random_pairing.h:61-106 | one insertion step for any draw and any counters; which assertions on size and counters hold is stated exactly, and all do for a sound sample |
| RandomPairing.Sample.Delete | include/random_pairing.h:108-138 | one deletion step for any draw and any counters, with random erases in range; the assertion on the size holds exactly if a found key was in a sample within its capacity |
| RandomPairing.Sample.From | include/random_pairing.h:45-59 | sampling a list of any length gives a sound sample |
| RandomPairing.SampleStaysSound | include/random_pairing.h:61-138 | in every run with fewer than 2^32 deletions, for every draw, the sample is strictly sorted and its size plus `c1_` is at most the capacity |
| RandomPairing.BoundExactlyBelowWrap | include/random_pairing.h:61-138 | that bound holds in all runs of up to so many deletions if and only if they are fewer than 2^32 |
| SamplePool.SampleNeverOutgrowsRecords | include/table_statistics.h:158-298 | in every run of inserts and deletes on all cores the sample is never larger than the record count |
| SamplePool.TableSamplePool.OnInsert | include/table_statistics.h:158-226 | counting and then sampling, on every core of a small table and on the leader of a large one, is one insert step of those runs and keeps counters and sample sound |
| SamplePool.TableSamplePool.OnDelete | include/table_statistics.h:227-298 | the same for a deletion, which a core with nothing left ignores |
| PrefixCounts.CountPrefixes | include/table_statistics.h:612-640 | comparing neighbours only counts, for every prefix length, exactly the distinct prefixes |
| PrefixCounts.ChangesAreDistinctPrefixes | include/table_statistics.h:616-640 | among sorted keys the keys that differ from their predecessor within a prefix are as many as the distinct prefixes |
| PrefixCounts.ScaledRange | include/table_statistics.h:642-670 | the scaled count is between 1 and the record total, 1 for one value and the total for all different |
| PrefixCounts.CalRecordsPerKey | include/table_statistics.h:608-681 | each prefix gets the estimate from its distinct prefixes |
| PrefixCounts.EstimatesFall | include/table_statistics.h:672-680 | records per key is at least 1, does not rise with the prefix length and is 1 for the whole key |
| DistributionSteps.Build | include/distribution_steps.h:64-89 | the steps are strictly increasing keys of the set, evenly spaced, and the iterator does not pass the end |
| DistributionSteps.BelowGrows | include/distribution_steps.h:117-151 | the share below a key is in [0, 1] and monotone in the key |
| DistributionSteps.SelectivityAddsUp | include/distribution_steps.h:97-116 | every range takes a share in [0, 1], an empty one none, and adjacent ranges add up |
| MergeSorted.MergeSortedVectors | include/util.h:122-171 | the loop terminates with a sorted permutation of all elements, or with `dedup` a strictly increasing sequence holding exactly one representative of each class |
| MergeSorted.MergeIsRight | include/util.h:122-171 | dropping equal neighbours from a sorted permutation leaves only elements of the input, strictly increasing, with one representative of each class |
| ReadSet.ReadSet.AddRead | include/read_write_set.h:159-200 | refuses exactly a newer version than the one read before, and keeps the data counter equal to the data entries |
| ReadSet.ReadSet.UpdateRead | include/read_write_set.h:214-226 | changes the timestamp of one holder of the address and nothing else |
| ReadSet.ReadSet.DedupReadAnywhere | include/read_write_set.h:236-257 | removes the address from one table that holds it, returns its version, and keeps the counter exact |
| ReadSet.ReadSet.DedupRead | include/read_write_set.h:259-291 | removes that entry, returns its version or 0, and keeps the counter exact |
| ReadSet.ReadSet.RemoveReadEntry | include/read_write_set.h:559-586 | gives back one read, drops the entry when its 16-bit count comes to 0, keeps the data counter exact, and says whether the assertion on the count holds |
| ReadSetRuns.CountsModulo | include/read_write_set.h:159-200 | in every run each entry's count is the number of its reads not given back, modulo 2^16 |
| ReadSetRuns.RightExactly | include/read_write_set.h:576-583 | one removal keeps the assertion and drops the entry just with its last read unless the open reads are a multiple of 2^16, or one more than one |
| ReadSetRuns.GivenBackExactly | include/read_write_set.h:559-586 | giving back all reads of an entry one by one is right throughout if and only if they are fewer than 2^16 |
| ReadSetRuns.RightExactlyBelowWrap | include/read_write_set.h:559-586 | in all runs with at most so many reads of an entry open the assertion holds and entries go exactly with their last read, if and only if that is below 2^16 |
| ReadSetRuns.AssertionFails | include/read_write_set.h:576-576 | after 65536 reads of an entry its count is 0, so giving one back fails the assertion |
| ReadSetRuns.DroppedEarly | include/read_write_set.h:577-583 | after 65537 reads giving one back drops the entry with 65536 reads open |
| ReadSet.ReadSet.ClearReadSet | include/read_write_set.h:449-482 | drops exactly the data entries and brings the counter to 0 |
| ReadSet.ReadSet.ClearTable | include/read_write_set.h:534-557 | drops the table's entries; the counter stays exact if and only if the table is not meta, or is the catalog, or had none |
| WriteSet.WriteSet.AddWrite | include/read_write_set.h:314-360 | counts the bytes even of refused writes, so the byte counter never falls below the bytes held and these never exceed 62 MiB; the entry counter stays exact |
| WriteSet.WriteSet.DeleteWrite | include/read_write_set.h:389-409 | removes the write and its bytes, keeping both counters, exactly if the entry holds a record; otherwise the code reads one that is not there |
| WriteSetRuns.RunsCollapseWrites | include/read_write_set.h:314-517 | a run of any calls is defined if and only if each meets a condition on the writes accepted before it; then the entries are those writes collapsed, the entry counter is exact, and the byte counter is never below the bytes held, which never exceed 62 MiB |
| WriteSetRuns.RevertDefinedExactly | include/read_write_set.h:389-409 | a run of legal calls is defined if and only if it reverts no key whose last accepted write was a deletion |
| WriteSetRuns.RevertOfDeletionFails | include/read_write_set.h:399-400 | deleting a row and reverting that is a legal run that reads a missing record |
| WriteSet.WriteSet.ClearTable | include/read_write_set.h:498-517 | removes a table's writes; the slack between counted and held bytes stays |
| WriteSet.CollapseKeepsRow | include/read_write_set.h:599-693 | legal writes to a key are never refused and leave the row all of them leave; the operation is the right one for the base row except exactly after insert, delete and insert of a row that was not there |
| WriteSet.CollapsedEntry | include/read_write_set.h:599-693 | whatever writes were accepted, the entry's operation and record are those given by the first write, the last write and whether a deletion was among them |
| WriteSet.InsertDeleteInsert | include/read_write_set.h:663-670 | insert, delete and insert of a row that was not there leaves an update |
| LastKey.OneKeyForAll | include/tx_operation_result.h:428-484 | in every interleaving at most one call succeeds, and every call or peek that returned reports the winner's key, complete and with its position |
| LastKey.NextKeeps | include/tx_operation_result.h:428-472 | every step of every call keeps who has won and how much of the key is written |
| CatalogEntry.VersionsOnlyGrow | include/catalog_key_record.h:163-212 | in every run of calls the committed version never falls, a dirty version is newer than it, and versions carry their own schemas |
| CatalogEntry.CommitFollowsInstall | include/catalog_key_record.h:180-206 | however installs and commits of one version interleave, once a commit has followed an install the entry holds that version and nothing dirty |
| CatalogEntry.Entry.InitSchema | include/catalog_key_record.h:163-178 | takes a newer schema and drops a dirty one that is not newer |
| CatalogEntry.Entry.CommitDirtySchema | include/catalog_key_record.h:192-206 | installs the dirty schema if newer; nothing dirty is left and the version does not fall |
| BucketInfo.Bucket.Set | include/range_bucket_key_record.h:105-113 | a newer owner replaces an older one; an orderly bucket stays orderly if and only if the owner does not overtake a migration, and the assertion implies that |
| BucketInfo.Bucket.SetDirty | include/range_bucket_key_record.h:115-122 | a migration newer than both halves is recorded and the bucket stays orderly |
| BucketInfo.Bucket.CommitDirty | include/range_bucket_key_record.h:136-145 | the dirty owner takes over, nothing dirty is left and the version does not fall |
| BucketInfo.Bucket.Clone | include/range_bucket_key_record.h:97-103 | the copy has the same owner, version and dirty fields if and only if the bucket is orderly |
| BucketInfo.CopiedExactly | include/range_bucket_key_record.h:97-122 | rebuilding through `SetDirty` is exact if and only if the dirty half is empty or newer, and rebuilding twice is rebuilding once |
| BucketInfo.RunStaysOrderly | include/range_bucket_key_record.h:97-145 | a run of bucket operations keeps the bucket orderly all the time, so that clones are exact, if and only if no owner overtakes a migration, which holds when every assertion does; versions never fall in any run |
| BucketInfo.Serialize | src/range_bucket_key_record.cpp:112-121 | appends the 24 little-endian bytes of the four fields |
| BucketInfo.Deserialize | src/range_bucket_key_record.cpp:128-144 | reads the four fields from the offset on, advances it by 24 and rebuilds the bucket |
| BucketInfo.RoundTrip | src/range_bucket_key_record.cpp:112-144 | reading back what was written anywhere in a buffer gives the bucket if and only if it is orderly |

## Left out

- Weak memory: the effect of fences and relaxed orders; all interleavings are sequentially consistent.
- SpscQueue: sizes are unbounded integers, while rounding wraps from 2^63 on; construction and destruction of elements in cells, `size_approx`, `max_capacity`, the move constructor and the destructor are not modelled.
- BlockingQueue.InnerDequeueSucceeds: asks for a queue built with at least size 1, which `BlockingZeroSize.DequeueSucceedsExactlyWhenSized` shows to be the exact condition.
- CircularQueue.CircularQueue.EnqueueMoved: what memory holds after a write past the array is not modelled; the model leaves the queue alone.
- CircularQueue.CircularQueue.Enqueue: asks for a capacity of at least 1; the original writes past an array of capacity 0.
- CircularQueue.CircularQueue.EnqueueAsFirst: the same.
- ReplayBuffer.IgnoringStartsAfresh: takes from `IsOverwrite` its meaning, that the outcome does not depend on the object before.
- ReplayStream: a fetch returns a version of the history; a deleted record purged from the data store and read back as version 1 is not modelled.
- CommandSet: entries are values in nested maps rather than objects, and the 32-bit width of the two counters is not modelled.
- RecordCounters.DriftIsBounded: takes an insert or a delete as one step and counters as unbounded integers; `Merge` and `Prune`, which set the central count alone, are not part of the runs.
- RandomPairing: statistical uniformity of the sample; key copying.
- PrefixCounts: rounding of doubles and overflow of the 64-bit product before the division.
- DistributionSteps.SelectivityAddsUp: takes the position of a key in an interval as a monotone function with values in [0, 1].
- ReadSetRuns.CountsModulo: calls that drop entries are one event with the set of entries they drop.
- ReadSet: the terms of read locks kept by `ClearReadSet` and the catalog write set.
- WriteSet.WriteSet.DeleteWrite: asks for a key that has a write, as the assertions do.
- WriteSet: schema versions per table and the count of forwarded writes.
- TxRound: cc requests, metrics, time slices and the standby state of processors.
- SleepHandshake: the build with external processors and its standby status.
- ShardLatch: heap switching and thread-id overriding while the latch is held.
- LastKey.OneKeyForAll: `Reset`, `SetLastKey` and `MoveLastKey`, which may only be called when no other call is under way.
- BucketInfo: `Reset` and the flag for upload batches beyond its being dropped by copies.
- Operation and execution state machines, deadlock detection, RPC and log closures, cluster configuration, node-group sharding and host management: mostly plumbing over libraries that are not here.
- Other serializers, lock-type deduction, error tables and identifier packing: they would add only easy members.
- Memory layout, allocation limits, tracing, logging and metrics.
