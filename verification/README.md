# A verified model of cfg-noodle

cfg-noodle is a crash-safe, log-structured configuration store. Nodes in memory are written, list by
list, as *write records* `Start(seq) Data* End(seq, crc)` to an append-only queue of elements. One pass
over the queue at boot finds the latest valid record, a read-back check confirms every write, and a
garbage collector removes everything but the `KEPT_RECORDS` records it has cached.

This project models that store in Dafny, operation by operation, and proves what it is for:

* **Clean means durable.** In every state of every run that interleaves any number of tasks attaching,
  writing, dropping and detaching nodes with the workers of any number of lists, with failing storages
  and power losses at any element, a node that needs no write holds exactly the value that the latest
  valid record gives it (`Runs.CleanMeansDurable`). A value on its way from a handle to the log is not
  lost on the way, and is in the log afterwards exactly if the last write that pushed its end found it in
  an attached node (`Survival.StoredIff`). A write drops what is stored under any other key, and
  `Loss.ValueIsLost` is a run in which nothing fails and a value is lost that way.
* **The ownership protocol is sound** in all those states: one live handle per node, handles only to
  initialised nodes, lists and tagged pointers agree, keys are unique, the panicking arms are never
  reached, and only the documented state transitions occur.
* **Writes and collections are atomic** for a scan that follows a crash at any element, whatever rubbish
  the queue contains; corruption costs exactly the records it touches.
* **The checksum is the checksum.** For all data it is the complement of the remainder by the CRC-32
  polynomial, the only number that is (`Checksums.ChecksumIsRemainder`, `RemainderIsUnique`), and with any one
  byte of its data replaced a valid record is valid no more (`Checksums.ChangedRecordIsInvalid`).
* **The cache is coherent**: it holds what a fresh scan would find, although the range cached for the
  record written last is one index too long.
* **What the worker can reach**: every queue has a scan result, and from every reachable state with an idle
  worker the operations it calls can settle all nodes of its list if and only if none has to be written,
  or all fit its buffer and no interrupted first write is in the way (`Progress.CanSettleIff`). With a
  reset, which the default worker never calls, the interrupted write is no obstacle. It writes only what
  has changed (`Runs.OnlyChangesAreWritten`).
* **What a task can reach**: a node in no list can be attached, and one without a live handle can be attached
  again, with the value it had, or detached (`Attaching.CanAttach`, `CanReattach`, `CanDetach`).
* **Where it ends.** Operations that fail, or whose future is dropped, with no reset of the cache and no power
  loss after them can break a guarantee. `Limits` shows an interrupted first write, a write repeated in
  the same session, a scan that stopped and a late attach after a failed write, each with the exact
  condition under which all is well and the input where it is not.

## How it is built

| file | what it holds |
|---|---|
| `Elements.dfy`, `Wrappers.dfy` | elements, CRC-32/CKSUM, options, errors |
| `Checksum.dfy`, `CheckValue.dfy` | what the checksum is: a remainder of polynomials, and its published check value |
| `KeyValue.dfy`, `Flash.dfy` | CBOR text-string keys (section 3.1 of RFC 8949, heads per section 3), element bytes, sizes, the flash queue |
| `Log.dfy` | which stretches of a queue are valid records, and how pushing, removing and corrupting change that |
| `SeqState.dfy` | the top-K cache: its meaning, and the class that sorts in place |
| `Collect.dfy` | the sweep of the collector, after any number of its steps |
| `NodeSpec.dfy`, `ListSpec.dfy` | what reading and writing do to nodes and lists; the invariants and why every operation keeps them |
| `Scan.dfy`, `Reading.dfy`, `Writing.dfy`, `Verify.dfy` | the loops, one iteration at a time |
| `Storage.dfy`, `TestStorage.dfy` | the storage contract with failures, operation by operation; the in-memory storage that removes by counter. It and the flash queue of `Flash.dfy` promise the same contract |
| `StorageNode.dfy`, `NodeHandles.dfy` | the node and its handle: the atomic sections of attach, detach, load, write and drop |
| `StorageList.dfy`, `Worker.dfy` | the imperative operations, and the worker with its flush on the way out |
| `Recovery.dfy`, `Limits.dfy` | what a boot finds; where the guarantees end |
| `Protocol.dfy`, `Ownership.dfy`, `Durability.dfy`, `Runs.dfy`, `Survival.dfy`, `Progress.dfy`, `Attaching.dfy`, `Loss.dfy` | the whole system as a state machine, its invariants, and theorems over all runs |

The imperative methods and the state machine meet in the relations of `ListSpec` and `Scan`: the
contracts of `ProcessReads`, `ProcessWrites`, `ProcessGarbage` and `ResetCache` are stated with `Reads`,
`ReadsPartly`, `Writes`, `WriteAborts`, `PartlyScanned`, `Swept` and `Rescanned`, and the steps of
`Protocol` consist of the same relations. One step is one atomic section: what happens under one lock, or
one atomic access to a node's tagged pointer or state. Collections are split into their locked, unlocked
and locked phases, the unlocked one into single removals.

What the theorems over runs rest on:

* At boot the valid records of a storage have distinct sequence numbers below 2^32 - 1
  (`ListSpec.Healthy`), and a write takes place only while the next sequence number is below that bound.
  Every run keeps the first.
* An operation whose failure leaves cache and storage apart (a failed write or verification, a scan that
  failed after it had found a record) is followed by `reset_cache` or a power loss before the next
  operation of that worker: the phase `Suspect` of `Protocol`. The default worker only logs the error and goes
  on; `Limits` shows what can happen then.
* One worker at a time serves a list and its storage, as the exclusive reference to the storage demands, and
  passes a scratch buffer of one length.

Where code and documentation differ, the model follows the code: a record without data elements is valid
(DESIGN.md asks for one to N); a node is reset to `Initial` only from an initialised state, although the
comment at the detach allows any; the in-memory storage counts the header of a data element twice.

## Model

| member | source | states |
|---|---|---|
| Elements.UpdateAppend | crates/cfg-noodle/src/lib.rs:397-400 | feeding the digest element by element gives the checksum of the concatenation; what a checksum is follows below |
| Checksums.ChecksumIsRemainder | crates/cfg-noodle/src/lib.rs:387-406 | for all data, the complement of the checksum is the remainder of the data times x^32 by the polynomial 0x04C11DB7 with its x^32, over the field of two elements |
| Checksums.RemainderIsUnique | crates/cfg-noodle/src/lib.rs:387-406 | no other number is, so the checksum is determined by that |
| Checksums.OneByteChangesChecksum | crates/cfg-noodle/src/lib.rs:397-405 | replacing any one byte of any data changes the checksum |
| Checksums.ChangedRecordIsInvalid | crates/cfg-noodle/src/storage_list.rs:676-704 | a valid record in any queue, with one byte of one of its data elements replaced, is not among the valid records |
| CheckValues.CheckValue | crates/cfg-noodle/src/lib.rs:389-393 | the checksum of "123456789" is 0x765E7680, the check value published for CRC-32/CKSUM |
| Log.GoodRecords | crates/cfg-noodle/src/storage_list.rs:631-704 | the valid records of any queue: Start, only Data, End with the same number and the checksum of all key/value bytes between |
| Log.GoodIffWritten | crates/cfg-noodle/src/storage_list.rs:631-704 | a valid record is a stretch that can be spelled out as a start, data elements with some contents, and an end with the same number and the checksum of these contents, one after the other |
| Log.GoodRecordsNeverOverlap | crates/cfg-noodle/src/storage_list.rs:458-468 | two distinct valid records share no entry, in any queue; settles the TODO |
| Log.InterruptedWrite | crates/cfg-noodle/src/storage_list.rs:884-966 | every strict prefix of a record's pushes leaves the valid records as they were, behind any queue |
| Log.CompletedWrite | crates/cfg-noodle/src/storage_list.rs:884-966 | the last push adds the record itself and nothing else, even behind a dangling open record |
| Log.RemoveKeeps | crates/cfg-noodle/src/storage_list.rs:478-503 | removing an entry before which nothing is open keeps every record that does not start there, entry for entry |
| Log.RemoveJoinsNothing | crates/cfg-noodle/src/storage_list.rs:478-503 | such a removal never joins fragments into a new valid record |
| Log.CorruptionIsIsolated | crates/cfg-noodle/src/storage_list.rs:655-704 | after making any set of entries undecodable, a record is valid if and only if it was and none of its entries is in the set |
| SeqStates.InsertKeepsTopK | crates/cfg-noodle/src/storage_list.rs:1051-1084 | one insertion, early return included, turns the top K of the records seen into the top K with the new one |
| SeqStates.InsertionsKeepTopK | crates/cfg-noodle/src/storage_list.rs:1051-1084 | after any sequence of insertions the array is sorted, free slots first, holds the K highest, and the next number is one above the highest of all |
| SeqStates.NextIsAboveAll | crates/cfg-noodle/src/storage_list.rs:1074-1080 | the top slot is a record seen, and none seen is above it, kept or not |
| SeqStates.TopKIsUnique | crates/cfg-noodle/src/storage_list.rs:1070-1071 | two top-K selections agree on every slot's number despite the unstable sort, and on the records if the numbers are distinct |
| SeqStates.HighestIsLatest | crates/cfg-noodle/src/storage_list.rs:1039-1048 | the top slot is free exactly if there is no valid record, else it is the one record with the highest number |
| SeqStates.SeqState.Lowest | crates/cfg-noodle/src/storage_list.rs:1052-1059 | the loop finds the first slot with the least number, free slots counting as zero |
| SeqStates.SeqState.InsertGood | crates/cfg-noodle/src/storage_list.rs:1051-1084 | in place: nothing changes exactly if every slot holds a higher number; else the record replaces the lowest slot, the array is sorted, a collection is pending, and the next number is one more than the highest kept, if there is one more |
| Scan.ScanStepOther | crates/cfg-noodle/src/storage_list.rs:655-682 | an undecodable entry, a start, or data with nothing open changes the open record as the loop does and adds no valid record |
| Scan.ScanStepData | crates/cfg-noodle/src/storage_list.rs:676-682 | data in an open record keeps the running checksum that of the bytes since its start |
| Scan.ScanStepEnd | crates/cfg-noodle/src/storage_list.rs:684-704 | an end offers its record to the cache exactly if it completes a valid record |
| Scan.ScanEnds | crates/cfg-noodle/src/storage_list.rs:706-712 | at the end of the queue the cache holds the top K of all its valid records; with none, the next number is 1 |
| StorageLists.StorageListInner.GetOrPopulateLatest | crates/cfg-noodle/src/storage_list.rs:620-713 | from an empty cache the scan ends with the top K of exactly the valid records, and returns one with the highest number, or none if there is none; the next number is one more, or 1; a filled cache is returned untouched; what an error leaves |
| StorageLists.StorageListInner.FindNode | crates/cfg-noodle/src/storage_list.rs:601-611 | a node with the key, or none has it |
| StorageLists.StorageListInner.ExtractAll | crates/cfg-noodle/src/storage_list.rs:720-867 | reads the start, the data elements behind it and an end with the same number, from the cached index on, and hydrates from them, first entry first; errors only on a failing storage or if there is no such record |
| StorageLists.StorageListInner.HydrateEntry | crates/cfg-noodle/src/storage_list.rs:797-862 | the waiting node with the entry's key gets the value, or is non-resident if the body does not decode; no other node changes |
| StorageLists.StorageListInner.MarkInitialNonresident | crates/cfg-noodle/src/storage_list.rs:969-977 | exactly the nodes still waiting become non-resident |
| StorageLists.StorageListInner.ProcessReads | crates/cfg-noodle/src/storage_list.rs:258-309 | every waiting node is decided by the first entry for its key in the latest valid record, all others stay; on a faithful storage with a coherent cache it never fails; both byte counts: the record's, and the scan's plus everything up to its end |
| StorageLists.StorageListInner.CheckNeedsWriting | crates/cfg-noodle/src/storage_list.rs:979-1017 | an error exactly if a node waits for its first read; else true exactly if a node is in NeedsWrite or all slots of the cache are free |
| StorageLists.StorageListInner.WriteToFlash | crates/cfg-noodle/src/storage_list.rs:884-966 | pushes exactly the record of the initialised nodes in list order; a failure leaves a prefix of it; succeeds on a faithful storage if all nodes fit, and only if they do |
| StorageLists.VerifyListInFlash | crates/cfg-noodle/src/storage_list.rs:1219-1302 | on a faithful storage succeeds exactly if the record at the first start with the number agrees with the report, else says which of two errors; what it returns is a record of the boot scan that has the reported number, count and checksum, its range one too long |
| StorageLists.StorageListInner.WriteAndVerify | crates/cfg-noodle/src/storage_list.rs:375-396 | with fitting nodes and a faithful storage, succeeds if and only if no start carried the number, or the first one begins a record with the same report; from a coherent cache only the former, whatever starts an earlier write has left; reads all bytes stored |
| StorageLists.StorageListInner.ProcessWrites | crates/cfg-noodle/src/storage_list.rs:336-424 | changes nothing and counts nothing before the first scan, with a collection pending, with a node that waits for its first read, each with its error, and with all nodes clean or non-resident and a record cached, with success; otherwise writes and marks exactly the initialised nodes clean, or leaves a prefix; the exact condition of success, with and without a coherent cache; bytes read are those stored before plus those written |
| StorageLists.StorageListInner.MayWriteIff | crates/cfg-noodle/src/storage_list.rs:357-374 | it gets as far as pushing exactly if the scan is done, no collection is pending, no node waits for its first read, and a node is in NeedsWrite or nothing is cached |
| StorageLists.Sweep | crates/cfg-noodle/src/storage_list.rs:470-503 | after any number of steps the storage is what the sweep leaves of that prefix; bytes read are bytes popped plus bytes left |
| StorageLists.StorageListInner.ProcessGarbage | crates/cfg-noodle/src/storage_list.rs:435-525 | three phases; a completed run has swept everything and scanned again, total read equals popped plus twice the final scan; all counters are 0 if nothing is pending; what an error leaves at every point |
| StorageLists.StorageListInner.ResetCache | crates/cfg-noodle/src/storage_list.rs:575-579 | the cache is empty again, the nodes keep their values |
| Verify.VerifiedIsKept | crates/cfg-noodle/src/storage_list.rs:1219-1302 | a record the check accepts is kept by a fresh scan unless all slots hold numbers as high, and booted from if no other is as high |
| Verify.MatchesIsReported | crates/cfg-noodle/src/storage_list.rs:1253-1301 | to agree with a report is to consist of a start, the reported count of data elements and an end, with the reported number, and the reported checksum both stored and recomputed |
| Verify.CheckFindsRecord | crates/cfg-noodle/src/storage_list.rs:1237-1302 | without an earlier start of the number, the check finds the record just pushed, at its place |
| Verify.AcceptsAfterPush | crates/cfg-noodle/src/storage_list.rs:1237-1302 | after any record on any queue the check looks at that record if its number is new to the starts, else at what it would have looked at before |
| Verify.CheckMissesRecord | crates/cfg-noodle/src/storage_list.rs:1237-1252 | with an earlier start, whatever valid records the queue holds under other numbers, the check fails although the record just pushed is valid |
| Verify.VerifiesIffNoStart | crates/cfg-noodle/src/storage_list.rs:1219-1302 | over any queue without a valid record of the number, a write verifies if and only if no start carries the number |
| Verify.VerifiesIff | crates/cfg-noodle/src/storage_list.rs:1219-1302 | the same over any queue at all: or the first start begins a record with the same report |
| Collect.SweepKeepsTopK | crates/cfg-noodle/src/storage_list.rs:478-503 | after every step of a collection with the ranges as cached, one too long included, the cached records, moved, are still the top K |
| Collect.SweepKeepsContent | crates/cfg-noodle/src/storage_list.rs:478-503 | after every step, with the ranges as cached, each cached record has the entries it had |
| Collect.SweepKeepsWanted | crates/cfg-noodle/src/storage_list.rs:478-503 | a completed sweep leaves exactly the entries that decode and lie in a cached range, each at the place that the number of those before it gives |
| Collect.SweepJoinsNothing | crates/cfg-noodle/src/storage_list.rs:478-503 | whatever is valid after any number of steps, with the ranges as cached, was valid, entry for entry, before the collection |
| Collect.SweepKeepsDistinct | crates/cfg-noodle/src/storage_list.rs:478-503 | distinct numbers stay distinct at every step |
| Collect.FinishedSweepIsTiled | crates/cfg-noodle/src/storage_list.rs:478-503 | a finished sweep with the ranges as cached leaves the cached records back to back and nothing else |
| Collect.RebootAndCollectIsNop | crates/cfg-noodle/src/storage_list.rs:435-525 | after a collection as it follows every write, a reboot, a scan and another collection change nothing |
| ListSpec.WritesKeepsInv | crates/cfg-noodle/src/storage_list.rs:380-418 | a verified write keeps uniqueness, durability and the coherence of the cache with its too long range; no node is left to be written |
| ListSpec.WriteFailsKeepsInv | crates/cfg-noodle/src/storage_list.rs:884-966 | a write that fails after any number of pushes leaves every clean node backed by the latest record |
| ListSpec.ReadsKeepsInv | crates/cfg-noodle/src/storage_list.rs:258-309 | reading keeps the invariants; no node waits any more |
| ListSpec.SweepKeepsLatest | crates/cfg-noodle/src/storage_list.rs:470-503 | at every point of a collection with the cached ranges as they are, one too long included, the latest record holds what it held |
| ListSpec.CollectedIsCoherent | crates/cfg-noodle/src/storage_list.rs:512-517 | the rescan that ends a collection gives a coherent cache, and no start in the queue carries the next number |
| Recovery.InterruptedWriteIsInvisible | crates/cfg-noodle/src/storage_list.rs:884-966 | a fresh scan after any strict prefix of a write gives what it gave before the write, in both directions |
| Recovery.CompletedWriteIsInserted | crates/cfg-noodle/src/storage_list.rs:884-966 | after the last push a fresh scan gives the old result with the new record inserted |
| Recovery.RebootRoundTrip | crates/cfg-noodle/src/storage_list.rs:336-424 | write, reboot, read: each written key gets exactly its value, every other node is non-resident |
| Recovery.CollectionIsCrashSafe | crates/cfg-noodle/src/storage_list.rs:435-525 | a fresh scan after any prefix of a collection, with the ranges as cached, has the same number in every slot and the same next number; with distinct numbers, the same entries in every record |
| Recovery.CollectionIsExact | crates/cfg-noodle/src/storage_list.rs:462-503 | a finished collection with the ranges as cached leaves precisely the cached records: every index in one of them, none shared, in the order they had, with the entries they had |
| Recovery.CollectionKeepsIff | crates/cfg-noodle/src/storage_list.rs:462-503 | from any cache of valid records a collection keeps a record if and only if it is cached |
| Recovery.BootFallsBack | crates/cfg-noodle/src/storage_list.rs:655-704 | after corruption of any set of elements of any queue a scan gives the top K of the untouched records; with distinct numbers among them, boot gives the content of the highest |
| Limits.AbortedFirstWrite | crates/cfg-noodle/src/storage_list.rs:707-710 | a boot over a very first write cut at any point: the next write verifies if and only if nothing or everything had been pushed; its record is valid in every case |
| Limits.RetryVerifiesIff | crates/cfg-noodle/src/storage_list.rs:1237-1252 | a write that failed after any number of pushes and another under the same number: verified if and only if no start was there before and the first pushed nothing, or everything and alike |
| Limits.RetriesKeepHealthIff | crates/cfg-noodle/src/storage_list.rs:380-395 | two writes under one new number, each cut anywhere: the storage is healthy at the next boot if and only if not both pushed everything |
| Limits.NoAttemptIsEverVerified | crates/cfg-noodle/src/storage_list.rs:1237-1252 | behind a stale start no sequence of attempts, cut or complete, is ever verified, although each complete one leaves a valid record |
| Limits.StoppedScanIsCoherentIff | crates/cfg-noodle/src/storage_list.rs:1035-1037 | a scan that stopped after its first valid record counts as completed; its cache is right exactly if every record not reached ranks below all kept |
| Limits.StoppedScanKeepsIff | crates/cfg-noodle/src/storage_list.rs:478-503 | a collection from that cache keeps a record if and only if it is cached |
| Limits.StoppedScanLosesBehind | crates/cfg-noodle/src/storage_list.rs:478-503 | so it removes every record the scan had not reached, however high its number |
| Limits.StoppedScanHidesNewer | crates/cfg-noodle/src/storage_list.rs:644-647 | a concrete queue where the cache is not right |
| Limits.StoppedScanLosesNewer | crates/cfg-noodle/src/storage_list.rs:478-503 | on that queue the next collection removes the newer record for good |
| Limits.FailedWriteIsCoherentIff | crates/cfg-noodle/src/storage_list.rs:380-395 | after a write that failed after any number of pushes the cache is right if and only if the end was not pushed |
| Limits.StaleExtraction | crates/cfg-noodle/src/storage_list.rs:720-867 | what is then extracted through the cache is the record that was the latest before |
| Limits.LateNodeIsCleanIff | crates/cfg-noodle/src/storage_list.rs:812-865 | a late node filled from it is rightly marked clean if and only if the end was not pushed or the write has stored the same value for its key |
| Limits.FailedCheckNeedsReset | crates/cfg-noodle/src/storage_list.rs:380-395 | a concrete state where it is not |
| NodeSpec.WrittenIsFound | crates/cfg-noodle/src/storage_list.rs:904-948 | every initialised node is found under its key in what was written, with its own value |
| NodeSpec.WrittenInOrder | crates/cfg-noodle/src/storage_list.rs:904-948 | one data element for every initialised node and no other, in list order, each with key and then value |
| NodeSpec.NotWritten | crates/cfg-noodle/src/storage_list.rs:911-920 | a key of no initialised node is not found |
| NodeSpec.FirstEntryStays | crates/cfg-noodle/src/storage_list.rs:812-826 | the first decodable entry for a key decides, whatever follows |
| StorageNode.SerializeNode | crates/cfg-noodle/src/storage_list.rs:1163-1200 | succeeds exactly if header, key and value fit the buffer; then the buffer holds key and value behind the header byte, at every key length |
| StorageNode.HydrateNode | crates/cfg-noodle/src/storage_list.rs:817-862 | a waiting node becomes valid or non-resident, any other stays |
| KeyValue.SplitOfEntry | crates/cfg-noodle/src/lib.rs:196-207 | splitting a serialized entry gives its key and its body, for every key length |
| KeyValue.KeyIsWritten | crates/cfg-noodle/src/storage_list.rs:1163-1182 | a key is written as the fewest bytes that say its length as a text string, then its own bytes |
| KeyValue.DecodesKeyIff | crates/cfg-noodle/src/lib.rs:196-201 | a key is decoded from an entry exactly if the entry starts with bytes that say its length, fewest or not, and then has its own |
| KeyValue.BodyIsExactForShortestHeads | crates/cfg-noodle/src/lib.rs:199-205 | the body starts behind the key if and only if the key's head is the shortest one |
| KeyValue.LongHeadShiftsBody | crates/cfg-noodle/src/lib.rs:199-205 | a concrete entry where it does not |
| Flash.DecodeEncode | crates/cfg-noodle/src/flash.rs:129-147 | decoding the pushed bytes gives every start, every end and every data element with content back; one without content is undecodable |
| Flash.EncodeDecode | crates/cfg-noodle/src/flash.rs:235-271 | encoding what any bytes decode to gives the bytes back |
| Flash.DecodesIff | crates/cfg-noodle/src/flash.rs:235-271 | bytes are a start exactly if they are 0x00 and a non-zero number, lowest byte first; data exactly if 0x01 and at least one byte; an end exactly if 0x02, a non-zero number and the checksum; and otherwise undecodable |
| Flash.EncodesTo | crates/cfg-noodle/src/flash.rs:129-147 | what is pushed for an element has that form, except for data without content, for which only 0x01 is |
| Flash.RecordRoundTrip | crates/cfg-noodle/src/flash.rs:129-147 | a whole written record is read back element for element |
| Flash.NewSerData | crates/cfg-noodle/src/lib.rs:161-166 | the first byte of the buffer becomes 0x01, the rest stays and is key and value; fails exactly on an empty buffer |
| Flash.MaxElemSizeIsExact | crates/cfg-noodle/src/flash.rs:154-166 | an element with its overhead and padding fits a sector next to the sector's own two words if and only if it is no longer than the maximum |
| Flash.NextMultipleOf | crates/cfg-noodle/src/flash.rs:283-285 | the padded length is a multiple of the word, at least the length, and less than one word more |
| Flash.CheckedNodeFits | crates/cfg-noodle/src/lib.rs:281-286 | a node that passes the size check serializes into any buffer of the maximum size; it passes if and only if its queued bytes fit a sector |
| Flash.FlashQueue.Push | crates/cfg-noodle/src/flash.rs:129-152 | the storage contract, and the bytes: exactly one entry is queued, with the header byte, the number and the checksum lowest byte first, or header, key and value; or the device fails and it may or may not have been; the size is that of the bytes queued |
| Flash.FlashQueue.Next | crates/cfg-noodle/src/flash.rs:180-201 | the storage contract: entries in order, or a failing device; an element is yielded exactly if the bytes have its form, with their padded size |
| Flash.FlashQueue.Invalidate | crates/cfg-noodle/src/flash.rs:222-225 | the storage contract: exactly that entry goes, or the device fails and it may or may not have gone |
| Storage.DataStorage.Push | crates/cfg-noodle/src/lib.rs:261-268 | the contract of a push, failing ones included |
| Storage.DataStorage.Invalidate | crates/cfg-noodle/src/lib.rs:363-375 | the contract of an invalidation, failing ones included |
| TestStorages.TestStorage.Push | crates/cfg-noodle/src/test_utils.rs:231-251 | the same contract by a vector of items with counters |
| TestStorages.LenOfIsLength | crates/cfg-noodle/src/test_utils.rs:239-246 | its sizes are the lengths of the bytes on a device, and one more for a data element |
| TestStorages.TestStorageIter.Next | crates/cfg-noodle/src/test_utils.rs:268-288 | the storage contract: iterating over a copy yields what the storage holds behind the entries kept so far, removals notwithstanding |
| TestStorages.TestStorageIter.Invalidate | crates/cfg-noodle/src/test_utils.rs:310-319 | the storage contract: removing by counter removes exactly the entry yielded last |
| TestStorages.RecordWriter.EndWriteRecord | crates/cfg-noodle/src/test_utils.rs:357-374 | a finished record is valid and is the only one added |
| NodeHandles.StorageListNode.TakeForAttach | crates/cfg-noodle/src/storage_node.rs:378-408 | succeeds exactly if the tagged pointer is null or that of the list without a handle; then it is that of the list with one, and the answer says which it was; else it stays, with two errors |
| NodeHandles.StorageListNode.LinkIn | crates/cfg-noodle/src/storage_node.rs:411-434 | a first attach fails exactly if the key is in use, and gives the pointer back; else the node is in front; the list stays valid |
| NodeHandles.StorageListNode.StoreDefault | crates/cfg-noodle/src/storage_node.rs:477-491 | the default is in the node and is marked to be written |
| NodeHandles.StorageListNode.Write | crates/cfg-noodle/src/storage_node.rs:695-743 | from an initialised state the value is the new one and is marked to be written; from any other nothing changes and the state is invalid |
| NodeHandles.StorageListNode.TakeForDetach | crates/cfg-noodle/src/storage_node.rs:557-586 | answers true exactly if the node is tagged with the list and has no handle, and then sets the tag to 1; else the tag stays, with three outcomes |
| NodeHandles.StorageListNode.FinishDetach | crates/cfg-noodle/src/storage_node.rs:588-625 | the node is unlinked, reset and free; the list stays valid |
| Ownership.StepKeepsOwnership | crates/cfg-noodle/src/storage_node.rs:335-626 | every step of every task and worker keeps the agreement of pointers, handles, locks and lists |
| Durability.StepKeepsData | crates/cfg-noodle/src/storage_list.rs:258-525 | every step keeps clean nodes backed by the log, keys unique, storages healthy and caches coherent |
| Runs.InvariantsHold | crates/cfg-noodle/src/storage_list.rs:258-525 | both invariants hold in every state of every run |
| Runs.CleanMeansDurable | crates/cfg-noodle/src/storage_list.rs:336-424 | in every state of every run a clean node holds exactly the value of the first entry for its key in the latest valid record |
| Runs.OnlyChangesAreWritten | crates/cfg-noodle/src/storage_list.rs:357-374 | in every run a write, failing or not, starts only with a node in NeedsWrite or with nothing cached, and never while a node waits for its first read |
| Runs.CacheIsCoherent | crates/cfg-noodle/src/storage_list.rs:141-154 | in every state with the cache filled and the worker idle, it holds the top K of the storage, and the next number is above every valid record |
| Runs.CacheMatchesFreshScan | crates/cfg-noodle/src/storage_list.rs:141-154 | slot by slot a fresh scan would find the same number, start and end, except that the newest range may be one too long |
| Runs.CollectionIsSafeThroughout | crates/cfg-noodle/src/storage_list.rs:435-525 | in every state in the middle of a collection a fresh scan would find every record that was cached at its start, with its entries |
| Runs.OneHandlePerNode | crates/cfg-noodle/src/storage_node.rs:378-408 | at most one live handle per node |
| Attaching.AttachIsGrantedIff | crates/cfg-noodle/src/storage_node.rs:378-408 | an attach gets the pointer exactly if it is null or names the list without a handle |
| Attaching.CanAttach | crates/cfg-noodle/src/storage_node.rs:335-509 | from every reachable state with the node in no list, its key not in use, the lock free and the worker idle, an attach and one read lead to a handle, to the stored value if there is one and to the default otherwise |
| Attaching.CanReattach | crates/cfg-noodle/src/storage_node.rs:378-509 | from every reachable state with the node linked, no live handle and the lock free, the three steps of an attach lead to a handle on the same node with the value it had |
| Attaching.DetachIsGrantedIff | crates/cfg-noodle/src/storage_node.rs:557-586 | a detach takes the pointer exactly if it names the list without a handle |
| Attaching.CanDetach | crates/cfg-noodle/src/storage_node.rs:533-626 | from every such state the two steps of a detach lead to the node empty, free and in no list, with nothing else changed |
| Runs.HandleIsUsable | crates/cfg-noodle/src/storage_node.rs:662-743 | a live handle is to a linked, initialised node: load finds a value, write takes the right lock and finds no invalid state |
| Runs.AttachNeverPanics | crates/cfg-noodle/src/storage_node.rs:470-502 | the unreachable arms of the attach are unreachable |
| Runs.LinkedIffPointed | crates/cfg-noodle/src/storage_node.rs:335-626 | outside the locked sections a node is in a list exactly if its pointer names that list |
| Runs.KeysAreUnique | crates/cfg-noodle/src/storage_node.rs:411-434 | no two nodes of a list share a key, no node is in two lists |
| Runs.CancelledAttachIsStuck | crates/cfg-noodle/src/storage_node.rs:453-468 | a node whose attach was cancelled while it waited can be neither attached nor detached until a power loss frees it |
| Runs.LockIsExclusive | crates/cfg-noodle/src/storage_node.rs:344-441 | one task at a time is in a locked section of a list |
| Runs.OnlyDocumentedTransitions | crates/cfg-noodle/src/storage_node.rs:71-87 | between power losses a node's state changes only by the six documented transitions |
| ListSpec.WritesStoreIff | crates/cfg-noodle/src/storage_list.rs:384-418 | a verified write stores exactly what the attached, initialised nodes hold, and nothing under any other key |
| ListSpec.WriteFailsStoreIff | crates/cfg-noodle/src/storage_list.rs:884-966 | a failed write does so if it has pushed its end, and changes nothing otherwise |
| Survival.StepStoresIff | crates/cfg-noodle/src/storage_list.rs:336-525 | what any step of any task or worker, or a power loss, does to what is stored |
| Survival.StoredIff | crates/cfg-noodle/src/storage_list.rs:336-525 | over any stretch of any run a value is stored at its end if and only if an attached node offered it at the last write that pushed its end, or, without one, it was stored at its start |
| Loss.ValueIsLost | crates/cfg-noodle/src/storage_list.rs:904-948 | for any keys and values a run without failures in which a stored value is lost, because its node attaches after the first write |
| Survival.ReadDecides | crates/cfg-noodle/src/storage_list.rs:739-865 | a read gives a waiting node the stored value if there is one and makes it non-resident if there is none |
| Survival.UpdateIsNotLost | crates/cfg-noodle/src/storage_node.rs:695-743 | a value in an attached node stays until it is replaced, and when the node is clean it is in the log |
| Survival.HandleWriteIsHeld | crates/cfg-noodle/src/storage_node.rs:695-743 | in every run a write through a handle always takes effect: afterwards the node holds exactly the value written, under its key, codec and list, to be written |
| Survival.HandleWriteIsNotLost | crates/cfg-noodle/src/storage_node.rs:695-743 | from the write on the value stays until the node is touched again, and is in the log as soon as the node is clean |
| Survival.ValueSurvives | crates/cfg-noodle/src/storage_list.rs:258-525 | the whole way: a value found clean in a node is what a later read gives to a waiting node if and only if the last write in between that pushed its end found it attached, whatever else happens |
| Progress.ScanExists | crates/cfg-noodle/src/storage_list.rs:620-713 | a scan has a result for every queue whatsoever |
| Progress.ScanIsDetermined | crates/cfg-noodle/src/storage_list.rs:620-713 | and only one, up to the order among equal numbers |
| Progress.CollectionCompletes | crates/cfg-noodle/src/storage_list.rs:435-525 | from every idle state with a pending collection its three phases lead to a state that allows the next write under the same number |
| Progress.CanFlush | crates/cfg-noodle/src/worker_task.rs:117-168 | from every reachable state with an idle worker, a free lock and nodes that can be flushed, reading, collecting and writing, and a reset only where an interrupted first write is in the way, lead to a state in which no node of the list waits for anything and every attached value is stored |
| Progress.CanSettleIff | crates/cfg-noodle/src/worker_task.rs:117-168 | without a reset, failed writes among the steps or not, all nodes can be settled if and only if none has to be written, or all that a write would serialize, those a read is yet to fill included, fit the buffer and no interrupted first write is in the way |
| Progress.CanSettleWithResetIff | crates/cfg-noodle/src/storage_list.rs:575-579 | with resets, if and only if none has to be written or all fit |
| Progress.CanComeToRest | crates/cfg-noodle/src/storage_list.rs:435-525 | after every state of every run at most two steps, the lock holder's and an end of the collection or a reset, lead to a free lock and an idle worker over the same queue |
| Workers.Worker.OnNeedsRead | crates/cfg-noodle/src/worker_task.rs:119-139 | reads, and asks for the first collection |
| Workers.Worker.Write | crates/cfg-noodle/src/storage_list.rs:336-424 | from a list that is ready, succeeds and flushes everything if and only if no start is in the way or nothing has to be written; otherwise its record is stored, and the nodes stay marked |
| Workers.Worker.OnNeedsWrite | crates/cfg-noodle/src/worker_task.rs:140-157 | collect, write, collect: with nothing in the way everything is flushed and no collection is pending; otherwise the record is stored and the nodes stay marked |
| Workers.Worker.OnNeedsGc | crates/cfg-noodle/src/worker_task.rs:158-167 | the delayed collection keeps nodes and latest content, and is not asked for again |
| Workers.Worker.Stop | crates/cfg-noodle/src/worker_task.rs:176-197 | the flush on the way out: with nothing in the way no node is left to be written and the latest record holds every value; refused after a dropped collection; after a dropped write, what it stores and whether it succeeds; after a dropped scan that had found a record, it collects at once and removes every record that scan had not reached |
| Workers.CutWriteIsWritable | crates/cfg-noodle/src/worker_task.rs:176 | what a write dropped between its pushes leaves to the flush |
| Workers.WrittenButUnmarked | crates/cfg-noodle/src/worker_task.rs:176 | a write dropped after its last push leaves the flush as able to verify as the write was |
| Workers.CollectedIsWritable | crates/cfg-noodle/src/storage_list.rs:512-517 | a finished collection allows the next write under the same number and keeps the latest content |

## Left out

- Runs.CacheIsCoherent: says nothing while the worker is in the middle of a collection or after a failed operation that has not been followed by a reset.
- Progress.CanFlush: says that the steps exist, not that a scheduler takes them; needs two free sequence numbers and a storage that does not fail.
- Progress.CanSettleIff: the same; after a failed write it lets the worker do nothing more without a reset (see Limits.RetryVerifiesIff and Limits.NoAttemptIsEverVerified for what it would do).
- SeqStates.InsertKeepsTopK: leaves the order among equal sequence numbers open, as the unstable sort does; the content claims need distinct numbers.
- SeqStates.SeqState.InsertGood: the sort is the library's and is modelled by its contract, ascending and a permutation.
- Workers.Worker.Stop: after a dropped scan on a list on which no node waits, says only that the collected queue is what the flush appends to; after a write dropped behind its last push it says that the flush succeeds, not what a boot makes of the two copies (see Limits.RetriesKeepHealthIff).
- The internals of sequential_storage, minicbor, cordyceps, maitake_sync and crc are not part of this model; queue, linked list, lock and digest appear by their contracts, value codecs as pairs with decode(encode(v)) = v.
- Weak memory orderings, pointer provenance, vtables and uninitialised memory: atomics are sequentially consistent, the value cell is an option.
- Executors, timers, debouncing and wake queues: only which atomic sections may interleave is kept. A task that waits may look at a node at any time.
- Reads and writes are one step of the state machine each: they hold the list's lock throughout, and what other tasks can see of them in the middle (a node's state) they can also see at the end.
- Elements torn by a power loss: a push takes effect or does not, as the storage contract says; rubbish in the queue at boot is covered, as undecodable entries.
- Collisions of the checksum: beyond one byte replaced (Checksums.OneByteChangesChecksum) no claim concludes equal contents from equal checksums.
- Sequence numbers at 2^32 - 1: the checked addition is in the cache, the theorems over runs stop before it.
- Counters of the in-memory storage beyond 64 bits, where the source panics, are a precondition.
- The scratch buffers of reading operations: an entry longer than the buffer is a failing read of the storage.
- Flash::new, the always empty flash, the no-op worker, logging, feature flags, demos and build scripts.
