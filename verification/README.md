# The durable event pipeline of the kiosk

An operator's scan or key press becomes an event that must reach the server exactly once in effect, through outages,
power cuts and reboots. This project models that pipeline of the kiosk firmware and its reference server in Dafny and
proves what each layer promises the next:

- **Bytes, CRC and frames** (`Bytes`, `Crc32`, `Frames`, `JournalFile`): the CRC as a linear bijection, committed
  frames, and a flash file whose every intermediate state is recorded, so that "the power fails here" can be said of
  any byte.
- **Record codec** (`Json`, `JournalRecord`, `JournalLines`): a printer, a parser that finds keys by plain substring search,
  and what a strict reader that knows the names on flash makes of the lines.
- **Index and journal** (`JournalIndex`, `IndexLaws`, `EventJournal`): the in-memory index as the fold of the log,
  appends, one-shot and incremental compaction, boot recovery.
- **Durability** (`JournalDurability`, `CompactionWindow`, `JournalProgress`, `JournalHazards`): power cuts at any point,
  agreement of index and log over whole runs, what the compaction window loses, what gets done on a flash that does not
  fail, and the runs in which a guarantee stops.
- **Protocol** (`SequenceReservation`, `ProtocolCodec`, `BodyReader`, `BusinessEvent`, `NetworkWorker`,
  `StateProjection`, `MockBackend`, `BackendAnswers`, `KioskRuntime`): sequence numbers, the event body and its reader, the
  record an operator's action becomes, the worker task, the projection, the idempotent server, the event loop.
- **The whole system** (`KioskSystem`, `SystemFrames`, `SystemSteps`, `SystemJournal`, `SystemLaws`, `ReplayPass`,
  `StatusLaws`, `ActionLaws`, `SystemRuns`, `LossRuns`): device, flash, worker, network and server as interleaved steps;
  the invariant each step keeps; what follows over every run; how a replay pass ends and how it stalls; how long a status
  stands; what the server does about an action; and three runs that end badly.
- **Two smaller state machines**: the A/B store of UI bundles (`UiBundleStore`) and the GOOD / DEFECT / REWORK entry
  (`QuantityFlow`).

Code that works step by step is a class with methods; each method is proved against a specification function or
relation, and the laws are lemmas about those. Nondeterminism stands for what the code cannot control: failing reads,
writes and renames, chunk sizes of reads, the order of equal sort keys, interleavings. The flash and the bundle store
count their own faults, so that each operation can be said to fail only when they do. What the network answers to each
attempt is a function given to the worker.

What the laws rest on, and where the code or its comments say otherwise:

- Flash: rename and remove are atomic and remove succeeds; a torn write leaves a prefix. A rename may fail.
- The system of `KioskSystem` carries the flash, the journal object with its open compaction, and the sequence counter.
  Its appends may fail at any byte, its compactions run in ticks between sends and polls as the firmware's do, and a
  reboot reads the index off the flash after any number of recoveries that were cut short. Two things are asked of an
  append: the log is in place, not set aside by a swap whose restoring rename failed (`StrandedLogIsReplaced`), and
  what is written behind a torn tail does not by chance complete that tail to a frame (`TornTailExactly` has the exact
  bytes). Boot does not truncate a torn tail and the firmware goes on appending behind it; the runs do so too, and
  `buried` holds the events that a boot would therefore not read.
- The file adapter's flush reports success for every open file, so what its writes reported is taken to be on flash.
  Then an append never fails with its whole frame on flash (`AppendTellsTruth`).
- `append_event` does not look at `compaction_active_`: an event made durable while a compaction is open is dropped by
  its swap, although the operator was told it was saved. `MissingIsLost`, `LostExactly` and `SwapKeepsOpen` give the
  exact loss over all runs, and `DroppedRun` shows one under the default retention.
- The network may lose, delay and duplicate requests and lose answers; a 2xx answer is what the server said or does
  not parse. The server handles one request at a time and never restarts.
- Event ids are fresh (`HexTellsApart`: as fresh as the draws), and the names, scan lines and counters of events are
  bounded (`ComposedIsBounded` has the bounds). The server reads an event body as its handler does, which is the function
  `BodyReader.RequestOf`. That the records made of such events survive their encoding, fit the queue slot, and are read as
  the operator's action is proved (`RecordIsSound`, `ActionArrives`); the codec laws say what happens to records that are
  not of this kind.
- A scan is taken at any time; a key or a timeout only while a snapshot is shown and no resynchronisation is under way.
- A comment in `kiosk_runtime.cpp` says that no stuck item can wedge the backlog. The cursor moves on any event result,
  but the one result slot can be overwritten before the main loop has taken it; then no result comes and the pass waits
  for the next event or reboot (`StallExactly`, `StalledRun`). A main loop that polls between deposits is safe.
- The comment of `sequence_reservation.h` allows a reboot to skip at most one less than a block; it can skip a whole
  block. The footer that offers the star key to clear a quantity field describes a branch no key press reaches. The
  comment of `event_journal.h` that a failed compaction leaves the file unchanged does not hold when both renames fail.
- A transition is accepted by a full journal; only event appends keep the capacity.

## Model

| member | source | states |
|---|---|---|
| Bytes.U32RoundTrip | firmware/kiosk_runtime_v2/src/protocol/event_journal_core.cpp:21-31 | the little-endian writer and reader of lengths and CRCs are inverse on 32-bit values |
| Crc32.ComputeCrc | firmware/kiosk_runtime_v2/src/protocol/crc32.h:15-25 | the two nested loops compute the register function the laws below are about |
| Crc32.StepLinear | firmware/kiosk_runtime_v2/src/protocol/crc32.h:20-21 | one bit step distributes over xor |
| Crc32.StepInjective | firmware/kiosk_runtime_v2/src/protocol/crc32.h:20-21 | one bit step is a bijection of the 32-bit register, so no information about a difference is lost |
| Crc32.UpdateIsDivision | firmware/kiosk_runtime_v2/src/protocol/crc32.h:17-23 | feeding up to four bytes equals one 32-step run of the register xored with those bytes as a word |
| Crc32.BurstDetected | firmware/kiosk_runtime_v2/src/protocol/crc32.h:15-25 | any change confined to at most four adjacent bytes, whatever surrounds them, changes the CRC |
| Crc32.CrcIsRemainder | firmware/kiosk_runtime_v2/src/protocol/crc32.h:15-25 | the CRC is the complement of the remainder of the data, preset with 32 ones, by the IEEE 802.3 generator, found by long division |
| Crc32.Residue | firmware/kiosk_runtime_v2/src/protocol/event_journal_core.cpp:116-142 | bytes followed by their own CRC as a frame stores it leave the register in one and the same state, whatever the bytes |
| Frames.ReadFrame | firmware/kiosk_runtime_v2/src/protocol/event_journal_core.cpp:39-110 | a committed frame, whatever follows it, is read back as exactly its body and size |
| Frames.ReadTorn | firmware/kiosk_runtime_v2/src/protocol/event_journal_core.cpp:42-93 | a frame cut before its last byte is never read as committed: a clean end when nothing arrived, else INCOMPLETE |
| Frames.ScanLog | firmware/kiosk_runtime_v2/src/protocol/event_journal_core.cpp:34-114 | a scan reports the intact frames at their exact offsets and then whatever the tail gives |
| Frames.RecoverLog | firmware/kiosk_runtime_v2/src/protocol/event_journal_core.cpp:34-142 | scanning a log of committed frames gives back exactly the bodies that were appended |
| Frames.TornAppend | firmware/kiosk_runtime_v2/src/protocol/event_journal_core.cpp:116-142 | after a power cut at any byte of one append the scan gives the old frames at their offsets and at most one INCOMPLETE report; a completed append adds exactly one frame |
| Frames.DamageStopsScan | firmware/kiosk_runtime_v2/src/protocol/event_journal_core.cpp:77-100 | damage to body, CRC or marker of a frame delivers exactly the frames before it, one report, and nothing after |
| Frames.BodyBurstCaught | firmware/kiosk_runtime_v2/src/protocol/event_journal_core.cpp:75-84 | overwriting up to four adjacent body bytes is always reported as CRC_FAIL at that frame |
| Frames.TrailerDamageCaught | firmware/kiosk_runtime_v2/src/protocol/event_journal_core.cpp:75-100 | any change to the stored CRC or the commit marker is reported, and the scan stops there |
| JournalLines.FrameLayout | firmware/kiosk_runtime_v2/src/protocol/event_journal_core.cpp:116-142 | what stands at which byte of a frame: the length and the CRC with their lowest byte first, the body between them, 0xC3 last |
| JournalFile.SpiffsJournalFile.ReadExact | firmware/kiosk_runtime_v2/src/protocol/event_journal_core.cpp:10-19 | whatever chunk sizes the reader returns, exactly the bytes asked for are delivered, or all that can still be read before the end or a read error |
| JournalFile.NextFrame | firmware/kiosk_runtime_v2/src/protocol/event_journal_core.cpp:39-110 | one round of the scan loop reads what the frame at the read position is, in the order length, body, CRC, marker |
| JournalFile.ScanJournal | firmware/kiosk_runtime_v2/src/protocol/event_journal_core.cpp:34-114 | the callback sees exactly the frames of the file, or of its first bytes when a read fails there, and the returned count is that of the committed ones |
| JournalFile.RecoveredPrefix | firmware/kiosk_runtime_v2/src/protocol/event_journal_core.cpp:34-114 | what is recovered from the first bytes of a log is a prefix of what is recovered from all of it, so a failed read loses a suffix and invents nothing |
| JournalFile.ScanDelivers | firmware/kiosk_runtime_v2/src/protocol/event_journal_core.cpp:34-114 | the OK frames of a scan are the recovered bodies in order; at most one report, the last, is not OK |
| JournalFile.AppendJournalFrame | firmware/kiosk_runtime_v2/src/protocol/event_journal_core.cpp:116-142 | it succeeds if and only if the flash does not fail; success means the whole frame is on flash, flushed behind body, CRC and marker; a failure leaves a strict prefix of it, a power cut some prefix, and no other file is touched |
| Json.JsonEscape | firmware/kiosk_runtime_v2/src/protocol/protocol_codec.cpp:7-28 | the byte loop prints the escaped form the laws below are about |
| Json.EscapeHidesQuotes | firmware/kiosk_runtime_v2/src/protocol/protocol_codec.cpp:7-28 | in escaped text every quote is preceded by a backslash, no byte is below 0x20, and the length is at most six times the input |
| Json.FindValueStart | firmware/kiosk_runtime_v2/src/protocol/json_extract.cpp:21-30 | the substring search returns the position behind the first occurrence of the quoted key and colon |
| Json.JsonExtractString | firmware/kiosk_runtime_v2/src/protocol/json_extract.cpp:54-82 | the cursor loop returns the unescaped value behind the key, or the default |
| Json.JsonExtractInt | firmware/kiosk_runtime_v2/src/protocol/json_extract.cpp:94-108 | the digit loop returns the number behind the key, clamped to a signed 64-bit integer, or the default |
| Json.NoMatchInside | firmware/kiosk_runtime_v2/src/protocol/json_extract.cpp:15-30 | the key lemma: the quoted key and colon cannot occur inside a printed field that carries another key, whatever its value holds |
| Json.SearchFindsField | firmware/kiosk_runtime_v2/src/protocol/json_extract.cpp:21-30 | in a printed object the plain substring search finds exactly the value of that key, or nothing when it is absent |
| Json.ReadBackIdentity | firmware/kiosk_runtime_v2/src/protocol/json_extract.cpp:63-80 | a string survives escaping and extraction if and only if it holds no control byte but \\n, \\r and \\t |
| Json.DecimalRoundTrip | firmware/kiosk_runtime_v2/src/protocol/journal_record.cpp:37-56 | reading the decimal form of a number gives the number |
| Json.ExtractText | firmware/kiosk_runtime_v2/src/protocol/json_extract.cpp:54-82 | extracting a text field of any printed object gives that field's text as it reads back |
| Json.ExtractNumber | firmware/kiosk_runtime_v2/src/protocol/json_extract.cpp:94-108 | extracting a number field of any printed object gives that number, clamped past 2^63-1 |
| Json.SpacedValueRead | firmware/kiosk_runtime_v2/src/protocol/json_extract.cpp:94-108 | whitespace before a value changes nothing, a number may be negative, and one past 64 bits is clamped |
| JournalRecord.EncodeJournalEvent | firmware/kiosk_runtime_v2/src/protocol/journal_record.cpp:32-59 | the appends print the fifteen fields of an event record in order |
| JournalRecord.EncodeJournalTransition | firmware/kiosk_runtime_v2/src/protocol/journal_record.cpp:61-74 | the appends print the six fields of a transition in order |
| JournalRecord.JournalBodyKind | firmware/kiosk_runtime_v2/src/protocol/journal_record.cpp:76-81 | the kind of a body is decided by its k field |
| JournalRecord.DecodeJournalEvent | firmware/kiosk_runtime_v2/src/protocol/journal_record.cpp:83-115 | decoding follows the source's checks in order and fails exactly where it does |
| JournalRecord.DecodeJournalTransition | firmware/kiosk_runtime_v2/src/protocol/journal_record.cpp:117-133 | decoding of a transition, with its three failure cases |
| JournalRecord.EventReadBack | firmware/kiosk_runtime_v2/src/protocol/journal_record.cpp:32-115 | what every event record, encodable or not, is read back as |
| JournalRecord.EventRoundTrip | firmware/kiosk_runtime_v2/src/protocol/journal_record.cpp:32-115 | decode(encode(r)) == r if and only if the record is version 1 with nonempty id and type, clean strings and counters below 2^63 |
| JournalRecord.TransitionReadBack | firmware/kiosk_runtime_v2/src/protocol/journal_record.cpp:61-133 | what every transition is read back as |
| JournalRecord.TransitionRoundTrip | firmware/kiosk_runtime_v2/src/protocol/journal_record.cpp:61-133 | decode(encode(t)) == t if and only if the id is nonempty and the strings are clean |
| JournalRecord.DecodedExactly | firmware/kiosk_runtime_v2/src/protocol/journal_record.cpp:83-133 | of any printed object, whatever else it holds, the decoders take exactly those of their kind and version that name an event, its type and a status there is |
| JournalRecord.DecodedFields | firmware/kiosk_runtime_v2/src/protocol/journal_record.cpp:83-133 | and give back its texts as they read back and its numbers reduced to 32 or 64 bits, zero where there is none |
| JournalRecord.EscapeReadBack | firmware/kiosk_runtime_v2/src/protocol/json_extract.cpp:63-80 | text that was read back needs no more bytes to print than the text that was written |
| JournalRecord.DistortedNoLonger | firmware/kiosk_runtime_v2/src/protocol/journal_record.cpp:32-115 | a record that was read back encodes to no more bytes than the one that was written |
| JournalRecord.MergedNoLonger | firmware/kiosk_runtime_v2/src/protocol/journal_record.cpp:32-74 | merging a transition grows a record's encoding by at most the transition's own encoding |
| JournalLines.ObjectRead | firmware/kiosk_runtime_v2/src/protocol/journal_record.cpp:32-74 | a printed object of distinct keys is whole JSON to a strict reader, which finds under each key its own value, whatever the strings hold |
| JournalLines.EventLineRead | firmware/kiosk_runtime_v2/src/protocol/journal_record.cpp:32-59 | such a reader finds the whole record in an event line, each field under its name on flash and the status by its name, clean strings or not |
| JournalLines.TransitionLineRead | firmware/kiosk_runtime_v2/src/protocol/journal_record.cpp:61-74 | and the whole transition in a transition line |
| JournalIndex.EventJournalIndex.ApplyScannedFrame | firmware/kiosk_runtime_v2/src/protocol/event_journal_index.cpp:25-48 | a scanned frame changes the index as the fold step says: first record of an id wins, a transition updates the record it names, the bytes always count |
| JournalIndex.EventJournalIndex.DecideAppend | firmware/kiosk_runtime_v2/src/protocol/event_journal_index.cpp:50-54 | duplicate exactly when the id is known; full exactly when a new id would pass the capacity |
| JournalIndex.EventJournalIndex.RecordAppendedEvent | firmware/kiosk_runtime_v2/src/protocol/event_journal_index.cpp:56-60 | the whole new index after an appended event |
| JournalIndex.EventJournalIndex.RecordAppendedTransition | firmware/kiosk_runtime_v2/src/protocol/event_journal_index.cpp:62-71 | the whole new index after an appended transition |
| JournalIndex.EventJournalIndex.PendingInDeviceSeqOrder | firmware/kiosk_runtime_v2/src/protocol/event_journal_index.cpp:78-89 | each pending or in-flight id exactly once, nothing else, in device_seq order |
| JournalIndex.EventJournalIndex.CollectAndTrim | firmware/kiosk_runtime_v2/src/protocol/event_journal_index.cpp:115-127 | of one terminal status min(retention, count) ids, none dropped that is newer than one kept |
| JournalIndex.EventJournalIndex.SelectRecordsToKeep | firmware/kiosk_runtime_v2/src/protocol/event_journal_index.cpp:106-132 | a keep-list: each id once, every unanswered record, and exactly the retained number of each terminal status, newest first |
| JournalIndex.EventJournalIndex.RebuildAfterCompaction | firmware/kiosk_runtime_v2/src/protocol/event_journal_index.cpp:134-150 | the index restricted to the kept ids, its bytes the sum of their fresh frames |
| JournalIndex.DropsExactly | firmware/kiosk_runtime_v2/src/protocol/event_journal_index.cpp:106-132 | a keep-list leaves a record out if and only if some terminal status has more records than its retention |
| IndexLaws.FoldCountsBytes | firmware/kiosk_runtime_v2/src/protocol/event_journal_index.cpp:25-26 | the bytes in use of a folded index are the length of the log |
| IndexLaws.AppendedEventAgrees | firmware/kiosk_runtime_v2/src/protocol/event_journal_index.cpp:25-60 | updating the index after an event append equals scanning the new frame, if and only if the record survives its encoding |
| IndexLaws.AppendedTransitionAgrees | firmware/kiosk_runtime_v2/src/protocol/event_journal_index.cpp:35-71 | the same for a transition, if and only if its error code is clean |
| IndexLaws.LogMeaning | firmware/kiosk_runtime_v2/src/protocol/event_journal_index.cpp:25-48 | an id is known exactly when the log holds an event frame of it; its record is the first such frame under the status of the last transition after it |
| IndexLaws.FoldSound | firmware/kiosk_runtime_v2/src/protocol/event_journal_index.cpp:25-48 | in the index of a log of encodable records every record sits under its own id and is encodable |
| IndexLaws.CompactionNeverGrows | firmware/kiosk_runtime_v2/src/protocol/event_journal_index.cpp:134-150 | compacting the index of any log the device wrote, clean strings or not, gives a log no longer than it was |
| IndexLaws.ReachableNeverGrows | firmware/kiosk_runtime_v2/src/protocol/event_journal_index.cpp:56-71 | the same for every index reachable by scans, appends, transitions and compactions in any order |
| IndexLaws.RebuiltIsFold | firmware/kiosk_runtime_v2/src/protocol/event_journal_index.cpp:134-150 | the rebuilt index is what a boot reads from the compacted log |
| IndexLaws.UnansweredKept | firmware/kiosk_runtime_v2/src/protocol/event_journal_index.cpp:106-114 | a compaction keeps every pending or in-flight record as last updated and invents nothing |
| IndexLaws.TerminalRetention | firmware/kiosk_runtime_v2/src/protocol/event_journal_index.cpp:115-129 | after a compaction a terminal status has exactly min(retention, count) records and no dropped one is strictly newer than a kept one |
| IndexLaws.DefaultRetention | firmware/kiosk_runtime_v2/src/protocol/event_journal_index.h:122-127 | under the default policy five records of each terminal status stay, or all when there are fewer |
| IndexLaws.ReselectDropsNothing | firmware/kiosk_runtime_v2/src/protocol/event_journal_index.h:122-127 | selecting again after a compaction keeps everything |
| EventJournal.EventJournal.RecoverFiles | firmware/kiosk_runtime_v2/src/storage/event_journal.cpp:96-112 | boot recovery ends with the log restored, and passes only through states it can be restarted from |
| EventJournal.EventJournal.Init | firmware/kiosk_runtime_v2/src/storage/event_journal.cpp:67-164 | on a flash that does not fail the journal mounts and has what the log says; else the index is the fold of what could be read, and empty when the log set aside could not be moved back; every intermediate disk state is a recovery state |
| EventJournal.ApplyFrames | firmware/kiosk_runtime_v2/src/storage/event_journal.cpp:117-139 | feeding the scanned frames to the index in order gives the fold of the log's bodies |
| EventJournal.EventJournal.AppendEvent | firmware/kiosk_runtime_v2/src/storage/event_journal.cpp:166-201 | it succeeds if and only if the journal is up, the id unknown, used bytes and frame within the capacity and the flash does not fail; with the whole new disk and index, and every disk state in between |
| EventJournal.EventJournal.AppendTransition | firmware/kiosk_runtime_v2/src/storage/event_journal.cpp:203-220 | it succeeds if and only if the journal is up, the event known and the flash does not fail; no capacity is looked at |
| EventJournal.EventJournal.WriteAll | firmware/kiosk_runtime_v2/src/storage/event_journal.cpp:247-258 | the temporary file receives exactly one frame per listed record that exists, in order; the log files are not touched |
| EventJournal.EventJournal.Validate | firmware/kiosk_runtime_v2/src/storage/event_journal.cpp:268-284 | on a flash that does not fail a temporary file passes if and only if it holds as many committed frames as were written and nothing else; it never passes with fewer |
| EventJournal.EventJournal.SwapFiles | firmware/kiosk_runtime_v2/src/storage/event_journal.cpp:288-307 | the renames put the new log in place or leave one of three recoverable states, at every power cut |
| EventJournal.EventJournal.FinishCompaction | firmware/kiosk_runtime_v2/src/storage/event_journal.cpp:264-317 | swap and index change together or not at all |
| EventJournal.EventJournal.Compact | firmware/kiosk_runtime_v2/src/storage/event_journal.cpp:222-262 | one-shot compaction: skip, success and failure with the whole new state, and every disk state in between |
| EventJournal.EventJournal.BeginCompaction | firmware/kiosk_runtime_v2/src/storage/event_journal.cpp:319-343 | opens a window if and only if the journal is up, none is open and some terminal status is over its retention |
| EventJournal.EventJournal.CompactTick | firmware/kiosk_runtime_v2/src/storage/event_journal.cpp:345-390 | one chunk of ten written from the records as they stand now; the last chunk also validates, swaps and rebuilds |
| JournalProgress.LogValidates | firmware/kiosk_runtime_v2/src/storage/event_journal.cpp:268-284 | whatever frames were appended validate |
| JournalProgress.CompactSucceeds | firmware/kiosk_runtime_v2/src/storage/event_journal.cpp:222-317 | without a fault of the flash compact() fails in two cases only: an old log stands in the way, or there is a record and none to keep |
| JournalProgress.TickGoesOn | firmware/kiosk_runtime_v2/src/storage/event_journal.cpp:345-390 | whatever was appended meanwhile, a tick without a fault writes the next ten records or, at the end, swaps |
| JournalProgress.TicksSwap | firmware/kiosk_runtime_v2/src/storage/event_journal.cpp:345-390 | so after begin_compaction the ceil(kept / 10)-th tick swaps and those before it each write ten records |
| JournalDurability.RecoveryRestarts | firmware/kiosk_runtime_v2/src/storage/event_journal.cpp:96-112 | cutting boot recovery short any number of times changes nothing about what is recovered |
| JournalDurability.CompactedLog | firmware/kiosk_runtime_v2/src/storage/event_journal.cpp:240-262 | the log a compaction writes reads back in full as the rebuilt index and is no longer than the old one |
| JournalDurability.CompactionCrashAtomic | firmware/kiosk_runtime_v2/src/storage/event_journal.cpp:222-317 | wherever a compaction and the recoveries after it are cut, the next boot loads the old index or the compacted one, and both hold every unanswered record as last updated |
| JournalDurability.BootGrown | firmware/kiosk_runtime_v2/src/storage/event_journal.cpp:117-139 | a frame put down in full on a log that ends on a frame boundary is exactly what the next boot applies on top, and the log ends on a boundary again |
| JournalDurability.BootTorn | firmware/kiosk_runtime_v2/src/storage/event_journal.cpp:117-139 | a frame that was cut short leaves the next boot what it would have had anyway |
| JournalDurability.AppendCut | firmware/kiosk_runtime_v2/src/storage/event_journal.cpp:166-220 | after a power cut inside an append to an aligned log the boot has that frame if and only if all of it got out, and every frame before it |
| JournalDurability.AppendEventKeeps | firmware/kiosk_runtime_v2/src/storage/event_journal.cpp:166-201 | a committed event append keeps index and log in agreement |
| JournalDurability.AppendTransitionKeeps | firmware/kiosk_runtime_v2/src/storage/event_journal.cpp:203-220 | a committed transition keeps index and log in agreement |
| JournalDurability.CompactionRealigns | firmware/kiosk_runtime_v2/src/storage/event_journal.cpp:264-317 | a successful compaction leaves a log of whole frames, also when the log before had a torn tail |
| JournalDurability.RebootKeeps | firmware/kiosk_runtime_v2/src/storage/event_journal.cpp:67-164 | a reboot, also one out of a cut compaction or out of an append of which nothing or everything got out, keeps index and log in agreement |
| JournalDurability.AppendTellsTruth | firmware/kiosk_runtime_v2/src/storage/event_journal.cpp:48-52 | what append_event reports is the truth: on a log that ends on a frame boundary the next boot has the event if and only if the append reported success |
| JournalDurability.BootHidden | firmware/kiosk_runtime_v2/src/storage/event_journal.cpp:114-163 | bytes put behind a torn tail that do not complete it to a frame change nothing of what a boot reads, over any number of appends |
| JournalDurability.RunKeepsAgreement | firmware/kiosk_runtime_v2/src/storage/event_journal.cpp:117-220 | log refinement: after any sequence of appends, compactions and reboots the index is the fold of the log and used_bytes its length |
| CompactionWindow.WindowRun | firmware/kiosk_runtime_v2/src/storage/event_journal.cpp:319-390 | what holds through any interleaving of appends, transitions and ticks after begin_compaction |
| CompactionWindow.SwapOutcome | firmware/kiosk_runtime_v2/src/storage/event_journal.cpp:355-390 | a swap leaves exactly the ids selected at begin_compaction; index and log agree if and only if no selected record changed after it was re-encoded |
| CompactionWindow.ChangedAfterWriting | firmware/kiosk_runtime_v2/src/storage/event_journal.cpp:359-370 | a transition of an already re-encoded record stays in the index but is gone from the log |
| CompactionWindow.WindowLosesAppends | firmware/kiosk_runtime_v2/src/storage/event_journal.cpp:264-390 | every event appended in the window is lost from log and index, so nothing is lost if and only if none was appended |
| CompactionWindow.IncrementalIsOneShot | firmware/kiosk_runtime_v2/src/storage/event_journal.cpp:345-390 | with no append in the window the ticks give the same log and index as compact(), in ceil(kept / 10) ticks |
| JournalHazards.TornTailExactly | firmware/kiosk_runtime_v2/src/storage/event_journal.cpp:114-163 | whatever is appended behind a torn frame, the boot recovers the old bodies and nothing more, if and only if torn frame and appended bytes do not pass for one frame of the promised length; the scan ends there with the one report they earn |
| JournalHazards.CommittedThenLost | firmware/kiosk_runtime_v2/src/storage/event_journal.cpp:166-201 | so an event whose append succeeded behind a torn frame leaves the log reading as without it, exactly under that condition, and is then absent after the next boot |
| JournalHazards.StrandedLogIsReplaced | firmware/kiosk_runtime_v2/src/storage/event_journal.cpp:296-306 | after a failed swap whose restoring rename failed too, the first append makes the next boot drop the whole old log |
| JournalHazards.CapacityBound | firmware/kiosk_runtime_v2/src/storage/event_journal.cpp:171-213 | event appends keep the capacity; a transition keeps it if and only if its frame happens to fit |
| JournalHazards.TransitionsPassAnyCapacity | firmware/kiosk_runtime_v2/src/storage/event_journal.cpp:203-220 | transitions of one known event are accepted one after the other without end, so usage goes any distance past any capacity |
| JournalHazards.LargeSequenceClamped | firmware/kiosk_runtime_v2/src/protocol/json_extract.cpp:107 | a device_seq of 2^63 or more is read back clamped |
| SequenceReservation.SequenceReservation.constructor | firmware/kiosk_runtime_v2/src/protocol/sequence_reservation.h:33-39 | a boot starts at the persisted mark and reserves a block at once |
| SequenceReservation.SequenceReservation.TakeNext | firmware/kiosk_runtime_v2/src/protocol/sequence_reservation.h:44-49 | the next value, the new register and the new mark |
| SequenceReservation.StrictlyRisingIffBlock | firmware/kiosk_runtime_v2/src/protocol/sequence_reservation.h:44-60 | over every run of takes, reboots and power cuts the values rise strictly, if and only if the block size is at least one |
| SequenceReservation.RepeatsWithoutBlock | firmware/kiosk_runtime_v2/src/protocol/sequence_reservation.h:55-58 | with an empty block the first value comes out again after a reboot |
| SequenceReservation.RebootSkips | firmware/kiosk_runtime_v2/src/protocol/sequence_reservation.h:19-20 | a reboot skips exactly ceiling - current values: at most a whole block, and a whole block when none was taken (the comment says one less) |
| StateProjection.StateProjection.Apply | firmware/kiosk_runtime_v2/src/protocol/state_projection.cpp:128-157 | the verdict on a snapshot and the projection after it |
| StateProjection.ProjectedIsHighest | firmware/kiosk_runtime_v2/src/protocol/state_projection.cpp:128-157 | after any deliveries the projection is a delivered snapshot of a known state and of the highest version delivered |
| StateProjection.VersionNeverRegresses | firmware/kiosk_runtime_v2/src/protocol/state_projection.cpp:140-144 | the projected version never goes back |
| StateProjection.OrderAndDuplicationIrrelevant | firmware/kiosk_runtime_v2/src/protocol/state_projection.cpp:128-157 | with one snapshot per version, order and duplication of deliveries do not matter |
| StateProjection.InconsistencyExact | firmware/kiosk_runtime_v2/src/protocol/state_projection.cpp:146-153 | an inconsistency is reported exactly for a second, different snapshot of the current version |
| MockBackend.MockBackend.GetDevice | tools/mock_backend/mock_backend.py:254-257 | an unknown device is created in its initial state |
| MockBackend.MockBackend.PostEvent | tools/mock_backend/mock_backend.py:489-571 | cache, version check, transition and caching of the answer, with the whole new server state |
| MockBackend.MockBackend.PostAdmin | tools/mock_backend/mock_backend.py:594-624 | the monotonic reset, and one version bump per field an administrator sets |
| BackendAnswers.AnswerExactly | tools/mock_backend/mock_backend.py:302-399 | whom and what the view shows after each accepted event, from the scan line and the fixtures alone; which error each refusal carries, in both directions; and that a conflict carries the device's version |
| BackendAnswers.RepeatExactly | tools/mock_backend/mock_backend.py:513-529 | a repeated event gets its first answer, another request under its id a mismatch, and nothing else changes |
| BackendAnswers.AdminExactly | tools/mock_backend/mock_backend.py:594-624 | a reset leaves the device as new but for its versions; anything else sets exactly the flags it names; every other device and every answer stay |
| BackendAnswers.ShownState | tools/mock_backend/mock_backend.py:276-286 | the state shown is DEVICE_DISABLED or MAINTENANCE exactly when the flags say so |
| MockBackend.EventEffect | tools/mock_backend/mock_backend.py:302-399 | an event changes its device, by one version, if and only if it is freshly accepted; every other outcome and device leaves all as it was |
| MockBackend.AnswerIsFinal | tools/mock_backend/mock_backend.py:513-522 | an answered event id gets the same answer for ever and changes nothing again |
| MockBackend.VersionCounts | tools/mock_backend/mock_backend.py:289-290 | version == 1 + accepted event ids + administrative bumps and resets, over every run |
| MockBackend.ChronicleStep | tools/mock_backend/mock_backend.py:276-290 | the server has exactly one snapshot per version, and its cached answers carry snapshots from that history |
| MockBackend.AnswersComeFromChronicle | tools/mock_backend/mock_backend.py:548-555 | every answer, fresh or cached, carries a snapshot the device really had, no newer than it is |
| MockBackend.OneSnapshotPerVersion | tools/mock_backend/mock_backend.py:276-290 | two states of a run with the same version show the same snapshot |
| MockBackend.ParseScanExact | tools/mock_backend/mock_backend.py:293-299 | a scan names an employee or an operation exactly when it is WF, the kind and a bar-free value joined by bars |
| MockBackend.AcceptedExactly | tools/mock_backend/mock_backend.py:302-399 | an event is accepted if and only if it claims no older version, the device is enabled and the workflow has a move for it; it leads where that move leads; an older claim is a conflict |
| MockBackend.ViewFollowsWorkflow | tools/mock_backend/mock_backend.py:260-273 | the view shows an employee exactly from the first scan on and an operation exactly from the second; both stay the same until the session ends |
| NetworkWorker.NetworkWorker.Enqueue | firmware/kiosk_runtime_v2/src/network/network_worker.cpp:128-133 | events, state fetches and bootstraps go to the end of a queue of three, anything else to one of two; false exactly when it is full |
| NetworkWorker.SlotExactly | firmware/kiosk_runtime_v2/src/network/network_worker.cpp:136-151 | a queue slot holds the event id up to its first zero byte and at most 39 bytes of it, and the first 2559 bytes of the body, all when they fit |
| NetworkWorker.NetworkWorker.Poll | firmware/kiosk_runtime_v2/src/network/network_worker.cpp:217-227 | the pending result, once |
| NetworkWorker.NetworkWorker.TaskReceive | firmware/kiosk_runtime_v2/src/network/network_worker.cpp:348-360 | HIGH is looked at first; LOW only after an empty HIGH queue |
| NetworkWorker.NetworkWorker.TaskExecute | firmware/kiosk_runtime_v2/src/network/network_worker.cpp:362-366 | execute, then deposit over whatever was pending; what was posted and what came back |
| NetworkWorker.ClassifiedExactly | firmware/kiosk_runtime_v2/src/protocol/retry_policy.cpp:8-79 | an HTTP status is success, transient or final and has its error code exactly by the ranges given, in numbers |
| NetworkWorker.Execute | firmware/kiosk_runtime_v2/src/network/network_worker.cpp:233-341 | no attempt without Wi-Fi; a second one if and only if the request is an event's and the first status is transient; each posts that request; the outcome and the body are those of the last |
| NetworkWorker.FifoPerTier | firmware/kiosk_runtime_v2/src/network/network_worker.cpp:128-133 | first in, first out within a tier, over every interleaving |
| NetworkWorker.LowStartsWhileHighWaits | firmware/kiosk_runtime_v2/src/network/network_worker.cpp:348-359 | while a HIGH request waits a LOW one starts only out of an idle wait already begun |
| NetworkWorker.HighRequestWaitsBriefly | firmware/kiosk_runtime_v2/src/network/network_worker.cpp:343-367 | from queueing to start of a HIGH request at most one LOW request starts and at most three executions complete |
| NetworkWorker.HighRequestStartsInTurn | firmware/kiosk_runtime_v2/src/network/network_worker.cpp:343-367 | and it starts right after those that were ahead of it |
| NetworkWorker.DeliveredInOrder | firmware/kiosk_runtime_v2/src/network/network_worker.cpp:210-227 | results are delivered in order, none twice; some may be overwritten |
| NetworkWorker.DeliveredExactlyOnce | firmware/kiosk_runtime_v2/src/network/network_worker.cpp:210-227 | with a poll between deposits every result is delivered exactly once |
| ProtocolCodec.EncodeEventJson | firmware/kiosk_runtime_v2/src/protocol/protocol_codec.cpp:30-118 | the appends print the event body, absent quantities absent and zero ones zero |
| ProtocolCodec.BodyFits | firmware/kiosk_runtime_v2/src/protocol/protocol_codec.cpp:7-118 | an event body holds no control byte and is at most 572 bytes longer than six times its strings |
| ProtocolCodec.BodyIsSentWhole | firmware/kiosk_runtime_v2/src/network/network_worker.cpp:136-140 | with a 128-byte scan line and at most 203 bytes of ids and names the body is copied into the 2560-byte slot whole |
| ProtocolCodec.BodySurvivesJournal | firmware/kiosk_runtime_v2/src/runtime/kiosk_runtime.cpp:886-900 | an event body comes back from the journal byte for byte, whatever was scanned |
| BodyReader.TextReads | firmware/kiosk_runtime_v2/src/protocol/protocol_codec.cpp:7-28 | a strict JSON reader undoes the escaping of every string |
| BodyReader.ObjectAt | firmware/kiosk_runtime_v2/src/protocol/protocol_codec.cpp:30-118 | and reads a printed object as its members, whatever follows it |
| BodyReader.BodyIsRead | tools/mock_backend/mock_backend.py:499-508 | out of the body of every event, whatever was scanned, the server reads every member the device put in, quantities with their presence, under the handler's own names |
| BodyReader.RequestIsMeant | tools/mock_backend/mock_backend.py:499-508 | so the request it handles is the operator's action under the event's id and claimed version |
| BusinessEvent.GenerateRandomHexId | firmware/kiosk_runtime_v2/src/protocol/ids.cpp:17-28 | the loop prints the two hexadecimal digits of each byte drawn, in order |
| BusinessEvent.HexTellsApart | firmware/kiosk_runtime_v2/src/protocol/ids.cpp:17-28 | different draws of one length give different ids |
| BusinessEvent.ComposeRecord | firmware/kiosk_runtime_v2/src/runtime/kiosk_runtime.cpp:885-904 | the record made of an event: its body, the CRC of the body in eight hexadecimal digits, its names, pending |
| BusinessEvent.ComposedIsBounded | firmware/kiosk_runtime_v2/src/runtime/kiosk_runtime.cpp:846-870 | whatever was scanned or keyed in, the event made of it keeps within the limits that the next two rows ask for |
| BusinessEvent.RecordIsSound | firmware/kiosk_runtime_v2/src/runtime/kiosk_runtime.cpp:885-904 | every record made of a bounded event survives its encoding field by field, and its id and body fit the queue slot |
| BusinessEvent.RecordReadsBack | firmware/kiosk_runtime_v2/src/runtime/kiosk_runtime.cpp:382-424 | so after any reboot it is decoded as the very record that was made and replayed with the very body that was composed |
| BusinessEvent.RecordTells | firmware/kiosk_runtime_v2/src/runtime/kiosk_runtime.cpp:885-904 | the record carries the event's id, number, type, version and time, pending, and the eight digits read back as the CRC of its payload |
| BusinessEvent.RecordIsRead | tools/mock_backend/mock_backend.py:499-508 | the server makes of the record's payload the request the event stands for |
| BusinessEvent.ActionArrives | firmware/kiosk_runtime_v2/src/runtime/kiosk_runtime.cpp:846-904 | from scan or key to server: what is read out of the journaled payload is the operator's action, on this device, at that time, on the state then shown |
| QuantityFlow.QuantityFlow.ResetQuantityFlow | firmware/kiosk_runtime_v2/src/runtime/kiosk_runtime.cpp:620-627 | the entry starts afresh at GOOD |
| QuantityFlow.QuantityFlow.HandleKey | firmware/kiosk_runtime_v2/src/runtime/kiosk_runtime.cpp:684-805 | the state after a key and what it submits |
| QuantityFlow.SubmissionsInBounds | firmware/kiosk_runtime_v2/src/runtime/kiosk_runtime.cpp:684-805 | whatever keys, answers and resyncs came before, a submission has good <= 999999 and rework <= defect <= 999999 |
| QuantityFlow.SubmissionReadsKeys | firmware/kiosk_runtime_v2/src/runtime/kiosk_runtime.cpp:743-802 | from an empty field at GOOD every key sequence submits the number that the first six digits typed per field spell, and nothing before the summary |
| QuantityFlow.TrustworthyExactly | firmware/kiosk_runtime_v2/src/runtime/kiosk_runtime.cpp:684-805 | every later key sequence submits its own reading if and only if the flow stands at GOOD with an empty field |
| QuantityFlow.EntryReadsExactly | firmware/kiosk_runtime_v2/src/runtime/kiosk_runtime.cpp:149-160 | entering the state through an answer always allows that, through a resync exactly when the old flow stood at GOOD, through a bootstrap exactly when its field was empty as well |
| QuantityFlow.ResyncContinuesOldFlow | firmware/kiosk_runtime_v2/src/runtime/kiosk_runtime.cpp:476-481 | a reachable resync that continues an old half-entered flow |
| UiBundleStore.UiBundleStore.LoadActiveFromNvs | firmware/kiosk_runtime_v2/src/storage/ui_bundle_store.cpp:118-164 | a bundle is active exactly when the selected slot holds one that parses |
| UiBundleStore.LowerExactly | firmware/kiosk_runtime_v2/src/storage/ui_bundle_store.cpp:72-76 | the lower-cased texts are equal if and only if the texts differ in the case of letters at most |
| UiBundleStore.UiBundleStore.Stage | firmware/kiosk_runtime_v2/src/storage/ui_bundle_store.cpp:166-238 | staged if and only if the hash is absent or fits apart from letter case, the bundle parses with schema 1 and no write fails; each other verdict exactly; every power cut leaves a prefix of the file or the whole file and the first metadata values, in the slot not in use |
| UiBundleStore.UiBundleStore.ActivateStaged | firmware/kiosk_runtime_v2/src/storage/ui_bundle_store.cpp:240-276 | only the selection and then its version number move, with the whole new state and every disk in between |
| UiBundleStore.UiBundleStore.Install | firmware/kiosk_runtime_v2/src/runtime/ui_sync_controller.cpp:40-81 | a download is activated if and only if it passes the checks and no write fails; then file, version, hash and schema are the announced ones in the other slot; the five ways it ends and every disk a power cut can leave |
| UiBundleStore.AgreementKept | firmware/kiosk_runtime_v2/src/storage/ui_bundle_store.cpp:240-276 | the slot in use stays the selected one through an installation, whatever fails, unless the second put of the activation fails |
| UiBundleStore.SafeExactly | firmware/kiosk_runtime_v2/src/storage/ui_bundle_store.cpp:199-264 | every cut of an installation boots to the old bundle or the checked new one if and only if the slot written to is not selected, nothing is written, or there is nothing that could be torn or shown torn |
| UiBundleStore.SecondPutFailureUnprotects | firmware/kiosk_runtime_v2/src/storage/ui_bundle_store.cpp:254-264 | after a failed second put the next accepted download is not safe: its cuts lose the bundle that was just selected |
| UiBundleStore.OnlyCheckedBundlesShown | firmware/kiosk_runtime_v2/src/storage/ui_bundle_store.cpp:118-276 | over every run of installations, failures, power cuts and boots in which a failed second put is followed by a boot, the boot shows the first bundle or one whose hash fits and that parses with schema 1 |
| KioskRuntime.KioskRuntime.SendBusinessEvent | firmware/kiosk_runtime_v2/src/runtime/kiosk_runtime.cpp:885-979 | journaled first; without a durable record nothing is queued; in flight only once queued; and without a fault of the flash all of it happens when id, capacity and queue allow |
| KioskRuntime.KioskRuntime.StartResync | firmware/kiosk_runtime_v2/src/runtime/kiosk_runtime.cpp:437-453 | resyncing is set and a state fetch queued if there is room |
| KioskRuntime.KioskRuntime.StartOfflineReplayIfNeeded | firmware/kiosk_runtime_v2/src/runtime/kiosk_runtime.cpp:356-380 | a new pass starts with the whole backlog in creation order, only when the last one is done |
| KioskRuntime.KioskRuntime.CheckOfflineReplay | firmware/kiosk_runtime_v2/src/runtime/kiosk_runtime.cpp:382-424 | at most one item out at a time, skipped when its record is gone, never ahead of live traffic |
| KioskRuntime.KioskRuntime.HandleResyncResult | firmware/kiosk_runtime_v2/src/runtime/kiosk_runtime.cpp:455-486 | only an applied or identical snapshot ends the resync |
| KioskRuntime.KioskRuntime.ApplyEventResponse | firmware/kiosk_runtime_v2/src/runtime/kiosk_runtime.cpp:1380-1548 | conflict resyncs; accept and reject offer their snapshot whatever the verdict on it; a stale one resyncs |
| KioskRuntime.KioskRuntime.Poll | firmware/kiosk_runtime_v2/src/runtime/kiosk_runtime.cpp:1081-1303 | the dispatch of a result by kind, with the whole new state; a bootstrap result is put aside |
| KioskRuntime.KioskRuntime.TakeBootstrap | firmware/kiosk_runtime_v2/src/runtime/kiosk_runtime.h:122-127 | a bootstrap result put aside is taken once, and offered to the projection if the environment check passes |
| KioskRuntime.KioskRuntime.HandleEventResult | firmware/kiosk_runtime_v2/src/runtime/kiosk_runtime.cpp:1134-1303 | the cursor moves when an item is out, and the transition written has the status, the repeats, the time and the code the outcome calls for |
| KioskRuntime.GivenUpExactly | firmware/kiosk_runtime_v2/src/protocol/retry_policy.cpp:8-79 | an event goes to review exactly on an answer that no repetition changes: too large, or a status other than 2xx, 429 and 5xx; never for want of Wi-Fi |
| KioskRuntime.StatusExactly | firmware/kiosk_runtime_v2/src/runtime/kiosk_runtime.cpp:1380-1480 | an event is acknowledged, rejected or in conflict exactly when a 2xx status brought that answer, and goes to review exactly on a status that no repetition changes |
| KioskRuntime.CodeTells | firmware/kiosk_runtime_v2/src/runtime/kiosk_runtime.cpp:1227-1477 | the error code journaled with a result names its failure, the reason of a refusal, a conflict or a malformed answer, and is empty for an acceptance |
| KioskRuntime.CodeClean | firmware/kiosk_runtime_v2/src/runtime/kiosk_runtime.cpp:1198-1228 | every code noted with a result reads back from the journal as it was written |
| SystemLaws.RunKeeps | firmware/kiosk_runtime_v2/kiosk_runtime_v2.ino:1133-1165 | the system invariant, for the journal in memory and for what a boot would read off the flash, over every interleaving of events, torn appends and appends behind them, network, server, replays, compaction ticks and power cuts |
| SystemLaws.VersionCountsAcceptedEvents | tools/mock_backend/mock_backend.py:489-571 | each event changes the server at most once: its version counts the accepted events, all of them durable ones, and the administrative changes |
| SystemLaws.NoKeyReuseMismatch | tools/mock_backend/mock_backend.py:513-529 | the server's key-reuse mismatch cannot happen for anything this device ever sent |
| SystemLaws.QueuedIsDurable | firmware/kiosk_runtime_v2/src/runtime/kiosk_runtime.cpp:872-955 | no event is queued before it is durable, and always under the body it was journaled with |
| SystemLaws.AckedMeansAccepted | firmware/kiosk_runtime_v2/src/runtime/kiosk_runtime.cpp:1450-1480 | the journal, in memory and on flash, says ACKED, REJECTED or CONFLICT only when the server answered so |
| SystemLaws.UnansweredIsReplayed | firmware/kiosk_runtime_v2/src/runtime/kiosk_runtime.cpp:356-380 | a durable event without a final answer that was not lost is unanswered in the journal and in every replay pass that starts now; in every pass after a power cut now if and only if it did not go behind a torn tail |
| SystemLaws.MissingIsLost | firmware/kiosk_runtime_v2/src/storage/event_journal.cpp:355-390 | over every run the unanswered events missing from memory are exactly the lost ones, and those missing from flash exactly the lost ones and the ones behind a torn tail |
| SystemLaws.LostExactly | firmware/kiosk_runtime_v2/src/storage/event_journal.cpp:355-390 | an event is lost in exactly two ways: a compaction swapped in whose window it was made durable, or the device booted while it stood behind a torn tail |
| SystemLaws.SwapKeepsOpen | firmware/kiosk_runtime_v2/src/storage/event_journal.cpp:355-390 | a swap keeps every open event if and only if each event made durable since its compaction began was answered before it; it brings the ones behind a torn tail back onto flash |
| SystemLaws.RebootKeepsOpen | firmware/kiosk_runtime_v2/src/storage/event_journal.cpp:114-163 | a reboot keeps every open event if and only if each one behind a torn tail was answered before it |
| SystemLaws.BuriedHoldsSends | firmware/kiosk_runtime_v2/src/storage/event_journal.cpp:166-201 | the events behind a torn tail are those made durable on a log that ends in one, since the last swap or boot |
| SystemLaws.WindowHoldsSends | firmware/kiosk_runtime_v2/src/storage/event_journal.cpp:319-343 | the window of a compaction is the set of events made durable since it began |
| SystemLaws.CutTick | firmware/kiosk_runtime_v2/src/storage/event_journal.cpp:286-313 | power lost anywhere inside the swap of the last tick comes out as if the tick had ended, with or without its swap |
| SystemLaws.CutSend | firmware/kiosk_runtime_v2/src/protocol/event_journal_core.cpp:116-142 | power lost anywhere inside an append comes out as a send that failed there, or as one that succeeded exactly when all of the frame got out |
| SystemLaws.ProjectionIsPast | firmware/kiosk_runtime_v2/src/runtime/kiosk_runtime.cpp:1442-1542 | the device shows only past server snapshots, no newer than the server, and no poll and no bootstrap of any run gives the inconsistent verdict |
| SystemLaws.PollOffers | firmware/kiosk_runtime_v2/src/runtime/kiosk_runtime.cpp:1081-1303 | what a poll does to the projection: exactly the snapshot its result offers, if it offers one; a bootstrap's not |
| SystemLaws.BootstrapOffers | firmware/kiosk_runtime_v2/src/runtime/kiosk_runtime.cpp:130-165 | taking a bootstrap up does to the projection exactly what its snapshot says, if the environment check passes, and leaves nothing put aside |
| SystemLaws.PassFollowsCreation | firmware/kiosk_runtime_v2/src/runtime/kiosk_runtime.cpp:356-424 | one replay pass sends each item at most once and in creation order, also when live results move the cursor |
| SystemLaws.SequenceFollowsCreation | firmware/kiosk_runtime_v2/src/protocol/sequence_reservation.h:44-49 | over every run of sends and power cuts a new event's device_seq is above that of every event before it |
| SystemLaws.CursorNeverReturns | firmware/kiosk_runtime_v2/src/runtime/kiosk_runtime.cpp:382-424 | within a pass the cursor never goes back |
| ActionLaws.ServerActsAsMeant | tools/mock_backend/mock_backend.py:499-571 | over every run, what the server acted on when it answered an event is what the operator did, on the version then shown |
| ActionLaws.PollNotes | firmware/kiosk_runtime_v2/src/runtime/kiosk_runtime.cpp:1198-1228 | what a poll writes down of a result: status, repeats, time and code; nothing else of that event and no other event changes |
| ActionLaws.CursorMovesExactly | firmware/kiosk_runtime_v2/src/runtime/kiosk_runtime.cpp:382-424 | the cursor of a pass moves exactly when an event's result is polled while an item is out, or when the item due has gone from the journal |
| ActionLaws.ReplayGoesOutExactly | firmware/kiosk_runtime_v2/src/runtime/kiosk_runtime.cpp:382-424 | a replay goes out exactly when one is due, its record is there and there is room: never ahead of live traffic, one at a time, with the journaled body |
| ActionLaws.ResyncEndsExactly | firmware/kiosk_runtime_v2/src/runtime/kiosk_runtime.cpp:455-486 | a resynchronisation ends exactly with a fetched snapshot that is newer than the one shown or the same, and takes no key until then |
| ActionLaws.ResyncBeginsExactly | firmware/kiosk_runtime_v2/src/runtime/kiosk_runtime.cpp:1420-1540 | it begins exactly with a conflict or an answer whose snapshot is older than or contradicts the one shown, and asks for the state if there is room |
| ActionLaws.CompactionGoesOn | firmware/kiosk_runtime_v2/kiosk_runtime_v2.ino:1133-1165 | in every reachable state a tick of a healthy flash gets the open compaction on, and the last one swaps unless an old log stands in the way |
| ReplayPass.WorkAccounted | firmware/kiosk_runtime_v2/src/runtime/kiosk_runtime.cpp:356-424 | in an unfinished pass every step of device, network and server but a reboot is accounted for: a productive one takes work off, a new event or request adds its own weight, no other adds any |
| ReplayPass.PassEnds | firmware/kiosk_runtime_v2/src/runtime/kiosk_runtime.cpp:1136-1145 | a pass ends: no stretch of a run without a reboot, whatever the answers are, however many items fail and whatever else happens, holds more productive steps than the work that was left and that was added, unless the pass has ended on the way |
| ReplayPass.WorkPossible | firmware/kiosk_runtime_v2/src/runtime/kiosk_runtime.cpp:382-424 | and a productive step is possible, whatever the network does, in every pass that is neither finished nor stalled |
| ReplayPass.NeverStalls | firmware/kiosk_runtime_v2/src/network/network_worker.cpp:217-227 | a main loop that polls between any two deposits never leaves a pass waiting for a result that will not come |
| ReplayPass.StallExactly | firmware/kiosk_runtime_v2/src/network/network_worker.cpp:362-366 | a pass stalls in exactly one way: a result that is not an event's is deposited over the event result it waits for, with no other event behind it |
| ReplayPass.StallEnds | firmware/kiosk_runtime_v2/src/runtime/kiosk_runtime.cpp:382-424 | a stalled pass goes on exactly when the device reboots or a new event gets into the queue |
| ReplayPass.StalledStays | firmware/kiosk_runtime_v2/src/runtime/kiosk_runtime.cpp:356-424 | until then nothing is sent, the cursor stands and no new pass starts, over any stretch of a run |
| SystemRuns.StalledRun | firmware/kiosk_runtime_v2/src/network/network_worker.cpp:343-367 | a reachable stall for every first event: without Wi-Fi a state fetch completes between a replay's deposit and the next poll |
| SystemRuns.AckedIsReopened | firmware/kiosk_runtime_v2/src/runtime/kiosk_runtime.cpp:1198-1228 | a reachable run for every event a server accepts and every failure of its replay: the device notes ACKED and afterwards PENDING or HUMAN_REVIEW |
| StatusLaws.AckedEndsExactly | firmware/kiosk_runtime_v2/src/runtime/kiosk_runtime.cpp:1198-1228 | an acknowledged event that stays in the journal keeps its status at every step, if and only if that step is neither a poll that notes a result of this event which is not an acceptance, nor a boot off a flash that says otherwise |
| StatusLaws.AgreementEndsExactly | firmware/kiosk_runtime_v2/src/storage/event_journal.cpp:355-390 | memory and flash go on agreeing about an event that stays in the journal at every step, if and only if that step is neither a note put behind a torn tail nor a swap that puts down an older record than memory holds; after a boot they agree on everything |
| LossRuns.DroppedRun | firmware/kiosk_runtime_v2/kiosk_runtime_v2.ino:1140-1163 | a reachable loss with the default retention, for every eight events a fresh device can make: six are settled, one waits, a compaction begins, the eighth is made durable, the compaction swaps; the eighth is gone from memory and flash, unanswered |

## Left out

- 32-bit counters of bytes, offsets and frame sizes, and the 64-bit sequence and version counters: modelled unbounded; the flash partition is 1.5 MB and the laws that need a log below 4 GB say so.
- `frame_sizes_` of the index: written and never read.
- Damage to the length field of a frame: it can send the scan anywhere in the rest of the file, and an absurd length makes the scan allocate that much.
- Usage percentages, pressure levels, the thresholds that trigger a compaction, status counts and the age of the oldest pending record: one-branch results.
- One-shot `compact()` in the runs of the whole system: the firmware's main loop only begins and ticks compactions. `compact()` called while an incremental compaction is open: the contracts of Compact and CompactTick cover each call, but no law follows such a run.
- A boot at which the file system does not mount, a read of the log fails or the restoring rename fails, in the runs of the whole system: Init says what each leaves, and RecoveredPrefix that a failed read costs a suffix of the log; no run goes on from there.
- JSON of server answers byte by byte (its brace counting is not string-aware and `\u` is not decoded): exchanged as typed messages. Of the server's own JSON reader what a device can print: no whitespace, no code point past 255, no fractions; bytes that are not UTF-8, which it cannot decode at all, are taken as they are, and the 400 it answers to a body that does not parse or names another protocol version does not occur.
- HTTP headers and tokens, DNS, the response size limit beyond its marker, backoff times and jitter, and the millisecond clocks.
- SHA-256: the server's payload hash is taken as the payload itself, the UI bundle's as a function; the UI bundle parser is reduced to the schema version it finds.
- The server's memo of wildcard employees and operations (it answers as the rule it caches), Unicode digits in card numbers, the format of session ids and times.
- The 401, 403 and 409 statuses of a production server beyond "not retryable"; `MockBackend` is the reference server.
- Drawing, error views, the result hold screen, idle timeouts, safe mode, the environment check and the provisioning states: gates in front of the modelled operations, taken as a parameter where they matter.
- Wi-Fi management, setup portal, time sync, heartbeat contents, bootstrap transport, the keypad matrix and the recovery menu.
- SPIFFS and NVS internals, mount failures of the bundle store's file system, and files removed from outside.
- SystemLaws.VersionCountsAcceptedEvents: counts administrative changes as the admin handler makes them, one per field set and one per reset, since a request may set two fields at once.
- NetworkWorker.HighRequestWaitsBriefly: counts executions, not time; the HTTP timeouts and backoff that bound one execution are not modelled.
- JournalDurability.AppendCut: for a log that ends on a frame boundary; TornTailExactly and CommittedThenLost say what a torn tail costs.
- JournalDurability.RunKeepsAgreement: for whole frames and one-shot compactions. What failed appends that left bytes, ticked compactions and stranded swaps do to the agreement is said exactly by BootHidden and TornTailExactly, by StatusLaws.AgreementEndsExactly and by StrandedLogIsReplaced.
- SystemLaws.RunKeeps: for runs whose appends find the log in place and do not by chance complete a torn tail to a frame, as said above.
- ReplayPass.PassEnds: counts steps of the device, not time; how often the main loop comes round and how long a request takes is not modelled. A reboot ends the pass with the memory that held it.
