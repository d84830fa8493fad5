# emboss: a verified model of its storage engine, miss protocol, codec and SQLite cache

emboss caches the results of Python functions. This project models the parts of it that are hard to get right
and proves what they promise:

- **The log store** (`emboss/_log_cache.py`): one prefix directory shared by any number of writers. Every writer
  appends framed, pickled records to its own log; a packed index with an overlay answers reads; large values go to
  a content-addressed pool. Compaction and consolidation rewrite and delete logs, and a mark-and-sweep pass collects
  the pool, while other writers go on appending.
- **The miss protocol and the codec** (`emboss/_cached.py`): the refcounted per-key latch, the
  re-check/compute/settle path of a cached function, and the annotation-directed encoding of return values.
- **The SQLite cache** (`emboss/_sqlite_cache.py`): trigger-kept totals, side files, batched culling.

## How it is built

| file | what is in it |
|---|---|
| `Bytes`, `Options`, `Expiry`, `Order` | big-endian integers, optional values, times to live, Python's sort orders |
| `Pickle`, `Hypotheses` | records, the pickled envelope and its validation, what is assumed of pickle and the digests, and that it can be met |
| `Frames`, `ScanFacts` | the framed log: resync, the scan loop, and what a scan means on arbitrary bytes |
| `FrameLaws`, `FoldLaws` | which frames are kept or torn, and which record is the latest, told from bytes, times and names |
| `Fold`, `Store` | latest-wins over located records, computed as a dictionary; logs, pool, and what a scan of all logs gathers |
| `Index`, `Reading` | packed 30-byte entries, binary search, overlay, the build; verified reads |
| `Compaction`, `CompactionScope`, `SkewWitness` | rewriting one log; its effect on the merged answer and across environments |
| `Consolidation`, `Passes` | the meaning of a consolidation pass, and the loops that carry it out |
| `ConsolidationLaws` | which logs, records and pool files a pass leaves, told from the directory before it |
| `ConsolidationScope`, `MaintenanceLimits` | when a pass changes an answer, and concrete records that come back |
| `LogCache` | the class: index, get, set with upkeep, delete, clear, compact, consolidate, iterate |
| `SetLaws` | what a set writes and which upkeep it does, with sizes and times written out |
| `SharedReads`, `SharedRuns`, `SharedLimits` | what one cache sees of a directory that peers append to, and when; reads that see less |
| `LoneWriter`, `LoneWriterRuns` | whole runs of a lone writer against a plain map with expiry times |
| `TimeToLive`, `SqliteTimeToLive` | how long an entry is served, in both caches |
| `LoneWriterRoom`, `ExpiryLimits` | runs that never raise, and when an index is built again; runs that miss a live entry |
| `ConcurrentPasses`, `TornTails`, `PoolGc` | step relations: passes among appending peers; the pool among many writers |
| `SoloPass` | a pass step by step with nobody else there |
| `Latch`, `FirstWrite`, `SoloCall` | the in-flight latch as a class; the miss path as a step relation; one call by itself |
| `Codec`, `CodecRoundTrip`, `CodecValues`, `CodecGate`, `CodecLimits` | the codec, its exact round trip, what it promises, when it is on, where it stops |
| `SqliteRows`, `SqliteFiles`, `SqliteCache`, `SqliteRuns` | rows and eviction order; rows with side files; the class; whole runs |
| `SqliteLaws`, `SqliteLimits` | which entries go, told from the calls; calls that leave nothing |

Loops and mutable objects of the source are methods and classes here; each method's contract ties its result to a
function of its inputs or of the old state, and the lemmas are about those functions.

## What is assumed

Pickle, md5 and sha256 are functions of an environment `Env`. `Pickle.Lawful` says what a scan and a rewrite rely on:
an object that can be stored loads back exactly and its blob starts with 0x80; whatever loads can be stored again
within the frame limit; digests are 16 bytes. Results that need collision-free digests say so for the keys at hand.
In the same way pydantic and the dataclass constructors are functions of a `Classes` value (`CodecRoundTrip.Lawful`),
and a `uuid4` file name is one not in use. `Hypotheses.HypothesesCanHold` and `CodecLimits.HypothesesCanHold`
give instances that meet these hypotheses, and `SkewWitness.SkewCanHold` gives two environments side by side. Times
are integer ticks. A log that cannot be read is a log with `readable == false`; I/O has no other effect here.

## What the proofs turned up

- Compaction keeps only live records. Dropping a dead own record brings back an older live record of a peer;
  `CompactionScope.MergedAnswerUnderCompaction` says exactly when.
- Consolidation does so in two ways. Besides a dead record, it drops a live one whose pool file is absent, which its
  documentation describes as a miss that recomputes (`emboss/_log_cache.py:1160-1162`); an older value in a log that
  stays is then served instead. `ConsolidationScope.AnswerUnderConsolidation` says exactly when a pass changes an
  answer, and `MaintenanceLimits` has a concrete input for each of the three cases.
- The ambiguity check on unions (`emboss/_cached.py:443-466`) promises that a stored value maps back to one member.
  It does not see that a dict inhabits `Model | Iterable[str]`, nor that an instance of a dataclass that cannot be
  rebuilt may inhabit a rebuildable base class named beside it: `CodecLimits.DictUnderIterableIsLost` and
  `CodecLimits.UnrebuildableSubclassIsLost`. `CodecRoundTrip.RoundTripExactly` gives the exact condition for every
  value and annotation.
- A `set` of the SQLite cache answers `True` also when its own cull evicts the entry at once: when it alone is over 90%
  of the limit, and also when rows of the same time with a younger rowid, or of a later time, stay ahead of it.
  `SqliteRows.SurvivesExactly` says exactly when, for any times. Its `delete` answers `True` for an entry that is
  already stale. `SqliteLimits` has inputs for all three.
- A `get` or `delete` that has to build the index reads the clock again for that, and misses an entry that expires in
  between, though it was live when the call began. `LoneWriterRuns.DiffersExactly` says exactly when;
  `ExpiryLimits` has a run for each.
- The time of the last look at the disk is taken before the rebuild (`emboss/_log_cache.py:859-869`). When that raises,
  the next call within the TTL goes through the old index and may miss what a full scan finds:
  `SharedLimits.MissesAfterRaise` is an input, and `SharedRuns.GetAfterQuiet` counts the TTL from such a call too.
- Our own write shows through the index whatever its store time, a full scan goes by store times. The two agree if and
  only if no other record of the key is newer (`FoldLaws.LatestExactly`); `SharedRuns.GetAfterQuiet` is about clocks in
  step, and `SharedLimits.DeleteIsOlder` shows a delete whose clock is behind.
- An append behind a torn tail can complete the torn frame and so hide records that a scan had recovered from inside it.
  `TornTails.HiddenExactly` says which, and `TornTails.AppendHidesRecord` is an input. `ConcurrentPasses.RunIsSafe`
  keeps count of such records; `TearFreeRunLosesNone` says that there are none without torn tails.

## Model

| member | source | states |
|---|---|---|
| Bytes.UnpackPack | emboss/_log_cache.py:515-525 | Unpacking a packed unsigned integer of any width gives it back. |
| Bytes.PackUnpack | emboss/_log_cache.py:384-394 | Every byte string of a width is the packing of the number it unpacks to, so headers and entries are never ambiguous. |
| Pickle.StoredIsFaithful | emboss/_log_cache.py:515-525 | A record made by set or delete parses back from its own blob to the same record, once pickle accepts it and it fits a frame. |
| Pickle.ParsedIsFaithful | emboss/_log_cache.py:384-420 | Whatever blob a scan can read, decoded or salvaged, a rewrite can write so that it reads back as the same record. |
| Hypotheses.HypothesesCanHold | emboss/_log_cache.py:384-420 | An environment meets every hypothesis on pickle and digests, with records that can be written and read back. |
| Hypotheses.SetSucceeds | emboss/_log_cache.py:1805-1866 | In it a set succeeds, inline and spilled. |
| Frames.FindByte | emboss/_log_cache.py:423-439 | The first occurrence of the byte at or after the start, or -1 exactly when there is none. |
| Frames.Resync | emboss/_log_cache.py:423-439 | On every byte string: the least later offset whose frame parses with a 0x80-leading blob, and nothing iff no later offset does. |
| Frames.ReadRecords | emboss/_log_cache.py:450-489 | The scan loop yields the specified walk's records and spans, its first tear, and as recovered the number of records behind it. |
| ScanFacts.WalkIsExact | emboss/_log_cache.py:466-489 | The walk meets the scan's meaning: from each position either the frame there, or everything up to the least later anchor skipped. |
| ScanFacts.ExactScanUnique | emboss/_log_cache.py:466-489 | That meaning determines the spans: no other reader may report anything else. |
| ScanFacts.WalkOrdered | emboss/_log_cache.py:466-489 | Spans are in order, disjoint, inside the log, and each re-parses to its own record. |
| ScanFacts.TearReport | emboss/_log_cache.py:473-489 | No tear is reported iff the spans tile all but fewer than 4 trailing bytes, and the records counted as recovered are exactly those that start after the tear. |
| ScanFacts.LogRoundTrip | emboss/_log_cache.py:450-489 | Scanning the frames of any writable records gives those records back, tiling the log, with no tear. |
| ScanFacts.DamageIsLocal | emboss/_log_cache.py:384-439 | If no offset of one damaged stretch parses as a frame, the scan returns exactly the records before and behind it. |
| ScanFacts.AppendKeepsIntactRecords | emboss/_log_cache.py:466-489 | Appending any bytes changes no record before the first tear. |
| ScanFacts.AppendOffset | emboss/_log_cache.py:1038-1050 | The offset an append reports is where the new frame parses, whatever the log held before. |
| ScanFacts.ParseLocal | emboss/_log_cache.py:384-420 | A frame parses to the same record wherever its bytes stand. |
| ScanFacts.ParseSlice | emboss/_log_cache.py:923-967 | Re-reading exactly a recorded span yields exactly its record. |
| ScanFacts.ScannedSpanRewrites | emboss/_log_cache.py:515-525 | A scanned record survives its own frame, and one that could not be decoded keeps its frame byte for byte. |
| FrameLaws.SalvagedExactly | emboss/_log_cache.py:286-306 | A whole frame that does not load is kept, with its blob as it is, if and only if nothing but imports is missing: some are, and with stubs for them the blob loads to its end as a record's fields. |
| FrameLaws.BrokenFrameIsTear | emboss/_log_cache.py:466-489 | A frame that fails to load for another reason is where the scan reports its tear. |
| FrameLaws.ResumesAtPickles | emboss/_log_cache.py:423-439 | Behind a tear a scan resumes only at a frame whose blob starts with 0x80. |
| Fold.WinnerIsLatest | emboss/_log_cache.py:876-897 | The fold's answer for a key is the record at the one place that nothing newer, and no later tie, contests. |
| Fold.LatestHolds | emboss/_log_cache.py:1071-1078 | The dictionary the loops build answers every key as the fold does. |
| Fold.LatestMembers | emboss/_log_cache.py:1071-1078 | Its values are exactly the winners. |
| Fold.LiveWinnersFacts | emboss/_log_cache.py:1078-1086 | The records kept are exactly the live winners, one a key, in store-time order. |
| FoldLaws.LatestExactly | emboss/_log_cache.py:876-897 | A record is its key's latest over all readable logs if and only if every other of the key is older, or as old and in a log whose name sorts before, or earlier in the same log. |
| Store.GatherMembers | emboss/_log_cache.py:1479-1544 | What a scan of all logs gathers is exactly the records that parse in the readable logs named. |
| Index.UnpackPacked | emboss/_log_cache.py:309-352 | A packed index entry unpacks to its digest, log, offset and length. |
| Index.Lookup | emboss/_log_cache.py:332-352 | Overlay first, then binary search: on sorted entries it finds the digest's entry, and nothing iff there is none. |
| Index.MergeIsWinner | emboss/_log_cache.py:876-897 | Without collisions, folding by digest picks for every key the record that folding by key picks. |
| Index.PackedIsFresh | emboss/_log_cache.py:898-902 | The sorted, packed live entries of a merge answer every digest as the merge does. |
| Index.PackMerge | emboss/_log_cache.py:898-902 | Packs exactly the live entries in digest order, or fails exactly for an entry whose field does not fit. |
| Index.Build | emboss/_log_cache.py:854-913 | The rebuild over all readable logs gives a fresh index, and fails exactly when the place of some live latest record does not fit an entry: its log beyond the first 65536 read, a frame of 2^32 bytes, or an offset of 2^64. |
| Index.FreshLookup | emboss/_log_cache.py:332-352 | With collision-free digests, a lookup in a fresh index gives the exact span of a key's live latest-wins record, and nothing for a dead or absent key. |
| Reading.VerifiedMeansParsed | emboss/_log_cache.py:923-967 | A verified read succeeds iff a frame of this key parses at the recorded offset of the current bytes and spans the recorded length. |
| Reading.HitIsServed | emboss/_log_cache.py:969-1034 | A hit is the value, inline or from the named pool file, of a verified frame that is neither tombstoned nor expired. |
| Reading.FreshReadIsScan | emboss/_log_cache.py:969-1034 | Through an index built at a later clock reading, and without collisions, a read is never stale and answers as a full scan at that later reading does. |
| Reading.FreshLiveIsScan | emboss/_log_cache.py:1868-1891 | Through such an index the frame that a delete finds is live exactly when the latest record of the key is live at that later reading. |
| Compaction.Compact | emboss/_log_cache.py:1063-1101 | Fold, drop the dead, sort, write: the bytes are the specified compacted log. |
| Compaction.WriteFrames | emboss/_log_cache.py:1081-1090 | The file written is the concatenation of the records' frames. |
| Compaction.CompactedWinner | emboss/_log_cache.py:1063-1101 | After compaction a key's winner is its old winner when that was live, and otherwise there is none. |
| Compaction.CompactionPreservesAnswers | emboss/_log_cache.py:1063-1101 | The rewritten log has no tear, one live record a key in store-time order, and answers every key as before at this and all later times. |
| Compaction.CompactionIdempotent | emboss/_log_cache.py:1063-1101 | Compacting again at the same time changes no byte. |
| CompactionScope.OwnOrPeers | emboss/_log_cache.py:876-897 | Either one's own log holds a key's merged record, or one's own records change nothing. |
| CompactionScope.MergedAnswerUnderCompaction | emboss/_log_cache.py:1063-1101 | Compacting one's own log keeps a key's merged answer if and only if it is not the case that the merged record is a dead own one and some peer holds a live answer. |
| CompactionScope.CompactionAcrossEnvironments | emboss/_log_cache.py:286-306 | A compaction where some classes are missing leaves an environment that has them the same live winners with the same values, if the two agree on the frames a scan comes to and on where it resumes past a tear. |
| CompactionScope.RewriteReadsBack | emboss/_log_cache.py:384-420 | What the skewed environment writes for a frame it scanned, the full one reads as the record it saw in that frame itself. |
| CompactionScope.FramesSuffice | emboss/_log_cache.py:466-489 | Over a log without a tear, agreement on the frames scanned is all that takes. |
| SkewWitness.SkewCanHold | emboss/_log_cache.py:286-306 | Two environments meet these hypotheses on a log whose record one of them decodes and the other only salvages. |
| SkewWitness.ValueSurvives | emboss/_log_cache.py:286-306 | A compaction where it is salvaged leaves the value to the environment that decodes it. |
| Passes.FoldLog | emboss/_log_cache.py:1071-1078 | Folding one more log into the dictionary gives the dictionary of all records so far. |
| Passes.CollectLive | emboss/_log_cache.py:1479-1544 | The live winners over every readable log, and exactly the unreadable ones. |
| Passes.ResolveSpills | emboss/_log_cache.py:1546-1631 | The records whose value is at hand, and the sources of those whose pool file is absent. |
| Passes.PruneSources | emboss/_log_cache.py:1688-1721 | Deletes exactly the foldable sources that are not to be kept and whose size and mtime still match the snapshot. |
| Passes.Sweep | emboss/_log_cache.py:1361-1408 | Deletes exactly the unreferenced pool files older than the grace window, and nothing when some log was unreadable. |
| Consolidation.PassAddsNothing | emboss/_log_cache.py:1257-1353 | Every record found after a pass was there before it. |
| Consolidation.MergedWinnerStays | emboss/_log_cache.py:1257-1353 | A live merged winner whose value is at hand is still in some log after the pass, with its pool file unchanged. |
| Consolidation.ConsolidationKeepsWinners | emboss/_log_cache.py:1257-1353 | For any prune set, conflict copies and unreadable logs: a key whose latest record over all logs is live and at hand has that very record as the latest over the remaining logs, and its pool file. |
| Consolidation.WaitingCopyStays | emboss/_log_cache.py:1305-1316 | A live merged winner that waits for its spill in a conflict copy is still in that copy, unchanged, after the pass. |
| ConsolidationLaws.MissingExactly | emboss/_log_cache.py:1257-1353 | A log is missing after a pass if and only if it is a readable foreign one of a writer asserted dead or a conflict copy, but no copy with a live latest record waiting for its pool file, or ours with nothing left to write; all other logs are unchanged. |
| ConsolidationLaws.OwnReadsBack | emboss/_log_cache.py:1673-1686 | Our log after a pass reads back as exactly the live latest records at hand of our log and of the deleted ones, one a key, in store-time order. |
| ConsolidationLaws.CollectedExactly | emboss/_log_cache.py:1361-1408 | A pool file is there after a pass if and only if it was and some log could not be read, or it is younger than an hour, or a live latest record refers to it. |
| ConsolidationLaws.UnreadableOwnStops | emboss/_log_cache.py:1257-1353 | A pass that cannot read our log changes nothing. |
| ConsolidationScope.AnswerUnderConsolidation | emboss/_log_cache.py:1257-1353 | For every key, at the time of the pass and all later times: the pass keeps the answer if and only if it is not the case that it drops the latest record (dead or without its spill, in our log or a deleted one) and the logs it leaves alone answer: their latest record is live, and inline or with a pool file that loads and that the sweep spares. Both are told from the directory before the pass. |
| ConsolidationScope.SurvivorsAnswerAfter | emboss/_log_cache.py:1361-1408 | What the surviving logs answer from the pool that the sweep leaves is what can be told beforehand. |
| ConsolidationScope.KeptStaysLatest | emboss/_log_cache.py:1257-1353 | A latest record that the pass does not drop is the latest record afterwards. |
| ConsolidationScope.DroppedLeavesSurvivors | emboss/_log_cache.py:1257-1353 | When the pass drops it, the latest record afterwards is the survivors'. |
| MaintenanceLimits.OlderComesBack | emboss/_log_cache.py:1546-1631 | Without pruning or conflict copies: a newer own record that is dead or waits for an absent spill answers nothing before the pass, and the peer's older value is served after it. |
| MaintenanceLimits.DeletedComesBack | emboss/_log_cache.py:1257-1353 | A concrete deleted key that comes back through consolidation. |
| MaintenanceLimits.WaitingComesBack | emboss/_log_cache.py:1546-1631 | A concrete key whose older value comes back because the newer one has not arrived. |
| MaintenanceLimits.DeletedComesBackCompacted | emboss/_log_cache.py:1063-1101 | A concrete deleted key that comes back through compaction. |
| LogCaches.LogCache.EnsureIndex | emboss/_log_cache.py:854-913 | With the TTL off or over and the log sizes moved, the index left is fresh; otherwise it is the old one. It fails exactly when the index has to be built and cannot be; what is remembered of sizes and check time is stated for each case. |
| LogCaches.LogCache.ShardGet | emboss/_log_cache.py:969-1034 | One attempt answers through the index at hand, or a fresh one when that is outdated: hit, miss, or stale. |
| LogCaches.LogCache.Get | emboss/_log_cache.py:1746-1785 | For any digest function and whatever others do to the directory meanwhile: a value is served from a frame of this key that parses there now and is live; the index at hand is used unless it is outdated, and then a fresh one; at most one rebuild for a stale frame, after which, and also at once when the index was outdated, the answer is the full scan's when digests are collision-free. It raises exactly when the index has to be built and cannot be. |
| LogCaches.PeerAppendIsSeen | emboss/_log_cache.py:854-875 | An append by a peer is visible to a get once the TTL is over; the get raises exactly when the logs cannot be indexed. |
| SharedRuns.GetAfterQuiet | emboss/_log_cache.py:854-913 | After every sequence of gets, sets and deletes of one cache with peers' appends in between: a get that does not raise, at least the TTL after the last append and the last call that could not index the logs, answers as a full scan. |
| SharedRuns.Follow | emboss/_log_cache.py:854-913 | Along the sequence the index stays sound: it knows the logs as last looked at with our own writes since, and no check after the last append leaves it behind. |
| SharedReads.ReadThroughKnown | emboss/_log_cache.py:923-1034 | A read through an index of logs that have grown since is never stale, and a full scan's when they have not. |
| SharedReads.AppendWinner | emboss/_log_cache.py:1787-1803 | With clocks in step our append is its key's latest record and changes no other key's. |
| SharedLimits.MissesAfterRaise | emboss/_log_cache.py:859-869 | A concrete run where a get raises because the index cannot be built, and the next within the TTL does not and misses what a scan finds. |
| SharedLimits.DeleteIsOlder | emboss/_log_cache.py:1868-1891 | A concrete delete that answers True, after which the index misses the key and a full scan finds a peer's record of a later time. |
| SharedLimits.LooksNoMore | emboss/_log_cache.py:859-869 | A get within the TTL of the last look at the disk does not look again, whatever was appended. |
| LogCaches.LogCache.Append | emboss/_log_cache.py:1038-1050 | The own log grows by one frame, and the index's overlay points exactly at it. |
| LogCaches.LogCache.Set | emboss/_log_cache.py:1805-1866 | Outcome and whole new state: refused exactly for a value or record that pickle or the frame header does not take, or an index that has to be built and cannot be; else the record appended, its value spilled at its size, and the upkeep due: none below the size limit, a pass when no other writer's log is known and the last pass is over a minute ago, else a compaction. |
| SetLaws.UpkeepExactly | emboss/_log_cache.py:1831-1865 | With sizes and times written out: a stored set appends its record; above the limit it rewrites only our log while another canonical log is known or the last pass is within a minute, and else runs a whole pass. |
| SetLaws.MadeIs | emboss/_log_cache.py:1805-1820 | The record set: the value inline below the size limit and else by its pool path, the store time read, and an expiry only for a time to live given and not zero. |
| SetLaws.SpillsExactly | emboss/_log_cache.py:694-749 | The value's pool file is there with its size and its age starts again, written or found; no other file changes. |
| TimeToLive.RecordLives | emboss/_log_cache.py:1805-1820 | The record of any set is live at t if and only if its time to live is absent, zero, or not over at t. |
| LogCaches.LogCache.Maintain | emboss/_log_cache.py:1831-1865 | The upkeep at the end of a set carries out what is due, and raises only for a compaction that cannot read the log back. |
| LogCaches.LogCache.CompactOwn | emboss/_log_cache.py:1063-1101 | The own log becomes its compaction, unless it is missing or unreadable, when nothing changes. |
| LogCaches.LogCache.Consolidate | emboss/_log_cache.py:1257-1353 | The directory becomes the specified result of the pass, through the loops above. |
| LogCaches.LogCache.Delete | emboss/_log_cache.py:1868-1891 | Says whether the frame found was live, through the index at hand unless it is outdated, and then exactly whether the latest record of all logs is live; appends a tombstone exactly then. It raises exactly when the index has to be built and cannot be, or for a live frame whose tombstone cannot be written. |
| LogCaches.LogCache.Clear | emboss/_log_cache.py:1893-1946 | Drops the own log and says how many live records went with it; an unreadable log stays. |
| LogCaches.LogCache.IterLive | emboss/_log_cache.py:1956-1996 | Exactly the live winners of all readable logs, one a key. |
| LogCaches.IndexHitsAreIterated | emboss/_log_cache.py:1974-1996 | A fresh index hits exactly the keys that iteration yields. |
| LoneWriter.UsableLeads | emboss/_log_cache.py:854-913 | The index that a call of a lone writer goes through, reused or rebuilt, leads to every winner. |
| LoneWriter.OutcomeIsEntry | emboss/_log_cache.py:969-1034 | A read through an index that leads is the plain map's entry at the call's clock reading. |
| LoneWriter.RebuiltIsEntry | emboss/_log_cache.py:854-913 | A read through an index built during the call is the map's entry at the reading of the build. |
| LoneWriter.SetAppends | emboss/_log_cache.py:1787-1866 | An append, folded into the overlay, represents the map with the new entry. |
| LoneWriter.DeleteAppends | emboss/_log_cache.py:1868-1891 | A tombstone, folded into the overlay, represents the map without the key. |
| LoneWriter.CompactionKeeps | emboss/_log_cache.py:1063-1101 | Compaction keeps the map represented. |
| LoneWriter.ConsolidationKeeps | emboss/_log_cache.py:1257-1353 | Consolidation, pool sweep included, keeps the map represented. |
| LoneWriterRuns.Run | emboss/_log_cache.py:1746-1946 | Every run of set, get, delete, compact, consolidate, clear and iteration of a lone writer on a non-decreasing clock replies exactly as a plain map with expiry times does, each call at one stated clock reading, raises exactly where stated, leaves exactly the stated logs, pool and memory of sizes and checks, and can be gone on from. |
| LoneWriterRuns.StartsEmpty | emboss/_log_cache.py:625-660 | An empty directory and a new cache represent the empty map. |
| LoneWriterRuns.StepSet | emboss/_log_cache.py:1805-1866 | A set is answered and kept as by the map, or refused with the map unchanged, and which is determined. |
| LoneWriterRuns.StepGet | emboss/_log_cache.py:1746-1785 | A get raises exactly when the index has to be built and cannot be; else it answers as the map does, at the second clock reading when the index was outdated and at the first when not, without a retry. |
| LoneWriterRuns.StepDelete | emboss/_log_cache.py:1868-1891 | A delete answers whether the map has a live entry at that same reading, and removes it; it raises only when blocked like a get, or when the tombstone cannot be written. |
| LoneWriterRuns.StepPass | emboss/_log_cache.py:1052-1168 | Compaction, consolidation, clear and iteration never raise and answer as the map does. |
| TimeToLive.ServedWhileAlive | emboss/_log_cache.py:1805-1866 | In every run: after a stored set, and with no later write of its key, a get answers the value if and only if no time to live was given, it was zero, or the get's time is not past the set's plus it, negative ones included. |
| LoneWriterRuns.DiffersExactly | emboss/_log_cache.py:854-902 | A get or delete that does not raise differs from the map at its first clock reading if and only if the index was outdated and the entry expires before the second. |
| ExpiryLimits.LiveEntryIsMissed | emboss/_log_cache.py:854-902 | A concrete run whose last get misses an entry that was live when the get began. |
| ExpiryLimits.LiveEntryIsNotDeleted | emboss/_log_cache.py:1868-1891 | The same for a delete, which says that there was nothing. |
| LoneWriterRoom.StepRoomy | emboss/_log_cache.py:1746-1946 | While the log and the frames of its records fit a bound, an accepted call is answered and adds at most its own frame to both; compaction and consolidation add nothing. |
| LoneWriterRoom.WritableRunsAnswer | emboss/_log_cache.py:1746-1946 | A run whose records are accepted and fit beside the log it starts from never raises: each reply is the map's at the deciding clock reading, and, when no call straddles two readings, at the first. |
| LoneWriterRoom.RunWritable | emboss/_log_cache.py:1746-1946 | The same of the cache itself. |
| LoneWriterRoom.NarrowIsIndexable | emboss/_log_cache.py:898-902 | A prefix whose only log is under 2^64 bytes with frames under 2^32 can be indexed. |
| LoneWriterRoom.StaysSynced | emboss/_log_cache.py:854-875 | A lone writer's index is outdated only when there is none, at every call of every run. |
| ConcurrentPasses.StepKeeps | emboss/_log_cache.py:1215-1353 | Every step of a pass and every append keeps the invariant on records. |
| ConcurrentPasses.PrunedWasRead | emboss/_log_cache.py:1688-1721 | A log is deleted only with exactly the bytes the pass read from it, so no record appended meanwhile is lost. |
| ConcurrentPasses.BytesAreSafe | emboss/_log_cache.py:1257-1353 | In every interleaving, whatever is appended and however torn: a log neither ours nor foldable is byte for byte what its owner made it, and no log goes but with exactly the bytes read. |
| ConcurrentPasses.RunIsSafe | emboss/_log_cache.py:1257-1353 | In every interleaving: the newest live record ever written for a key is the latest-wins record of all logs, unless a pass dropped it from our log or a pruned one for a missing spill (in a conflict copy it waits), or an append behind a torn tail made it unreadable. |
| SoloPass.RunsToItsEnd | emboss/_log_cache.py:1215-1353 | From every state between passes a pass that nobody disturbs can run step by step to its end, and leaves the logs exactly as the whole pass does. |
| ConcurrentPasses.TearFreeLosesNone | emboss/_log_cache.py:466-489 | An append to a log without a torn tail hides no record read there. |
| ConcurrentPasses.TearFreeRunLosesNone | emboss/_log_cache.py:466-489 | A run whose appends go to logs without torn tails hides no record at all. |
| TornTails.HiddenExactly | emboss/_log_cache.py:423-489 | An append hides a record that a scan read, at its place, if and only if it completes a torn frame before it, where the scan tries to parse or could resume. |
| TornTails.UnsettledWereBehind | emboss/_log_cache.py:423-489 | A record that no scan finds any more after an append stood behind such a frame. |
| TornTails.AppendHidesRecord | emboss/_log_cache.py:423-489 | A concrete torn log whose next byte hides a key's only record. |
| PoolGc.StepKeeps | emboss/_log_cache.py:694-749 | Every spill, append, read, rewrite, compaction and per-file sweep step of any number of writers keeps the invariant. |
| PoolGc.LatestKeepsItsSpill | emboss/_log_cache.py:1361-1408 | At every moment of every run the latest write of every key is in its writer's log and its pool file is present with the right bytes. |
| PoolGc.CollectsExactly | emboss/_log_cache.py:1361-1408 | A pass that has read every log can delete a pool file if and only if it is an hour old or more and no latest write read refers to it. |
| Latch.InflightLatch.Enter | emboss/_cached.py:204-207 | Counts a hold in, with the key's lock or a new one. |
| Latch.InflightLatch.Acquire | emboss/_cached.py:208-214 | A thread goes inside only when the lock is free or its own. |
| Latch.InflightLatch.Release | emboss/_cached.py:215-216 | The lock is held until its owner's last release. |
| Latch.InflightLatch.Leave | emboss/_cached.py:217-223 | Counts the hold down; the key is there with this hold's lock, and goes with the last. |
| Latch.InflightLatch.InFlight | emboss/_cached.py:225-228 | The number of keys between a count up and a count down. |
| Latch.TableIsExact | emboss/_cached.py:203-223 | At every moment: a key is in the table iff some hold on it is in flight, the count is the number of such holds, they share one lock, at most one thread is inside, and the table is empty at quiescence. |
| FirstWrite.StepKeeps | emboss/_cached.py:1002-1132 | Every step of the miss path keeps the invariant, with reads and bodies that raise, interrupted waits, and stores that raise before or after they land. |
| FirstWrite.FirstWriteWins | emboss/_cached.py:1038-1102 | In every interleaving at most one computed value is stored, every call returns what was there before or that value up to the codec, and without raises and re-entry the body starts at most once, and never when there was something to serve. |
| SoloCall.ServesStored | emboss/_cached.py:1038-1058 | An undisturbed call serves what is under the key. |
| SoloCall.ServesFallback | emboss/_cached.py:1003-1031 | It copies what is under a fallback key to the key and serves it. |
| SoloCall.ComputesAndStores | emboss/_cached.py:1095-1102 | With nothing to serve it runs the body once under the latch, stores and returns its value, and leaves the latch free. |
| CodecRoundTrip.OneClaimant | emboss/_cached.py:443-466 | In a union that passes the ambiguity check, no two members claim one stored shape. |
| CodecRoundTrip.ReadThroughClaimant | emboss/_cached.py:659-673 | A stored container reads back through the one member that claims its shape, whatever its place in the union. |
| CodecRoundTrip.RoundTripExactly | emboss/_cached.py:588-684 | For every value and annotation, decoding gives an encoded value back if and only if every place the walk rewrites can be put back: the very class named, builtin containers, and no dict left where a class is expected. |
| CodecValues.ConformingRoundTrip | emboss/_cached.py:588-684 | Every value conforming to an annotation of models, rebuildable dataclasses, containers, unions, None and leaves comes back without drift. |
| CodecValues.RawEntryReads | emboss/_cached.py:628-684 | A conforming value stored as it stands, classes and all, reads back as itself. |
| CodecValues.EncodedHoldsNoInstance | emboss/_cached.py:588-625 | Encoding a conforming value of a plain annotation leaves no model or dataclass instance in it. |
| CodecValues.UnwantedHoldsNone | emboss/_cached.py:469-487 | An annotation within the depth limit for which the codec is off has no value with an instance in it. |
| CodecValues.StoredNamesNoClass | emboss/_cached.py:978-983 | What a wrapper stores for a conforming value of a plain annotation nested at most 8 deep names no class. |
| CodecGate.CodecOnExactly | emboss/_cached.py:469-487 | The codec is on if and only if a path of at most 8 steps through lists, tuples, dicts and unambiguous unions leads from the annotation to a model or rebuildable dataclass. |
| CodecGate.CheckIsExact | emboss/_cached.py:443-466 | The check on a union passes if and only if no stored shape would be claimed for two members. |
| CodecGate.ServedBackExactly | emboss/_cached.py:978-983 | Every value, of any container class, is stored and handed back as it was when there is no such path, and else exactly when every place the walk rewrites can be put back. |
| CodecGate.NamedTupleStays | emboss/_cached.py:481-487 | A named tuple under tuple[int, int] keeps its class. |
| CodecLimits.SubclassesAreLost | emboss/_cached.py:588-684 | Instances of a strict subclass, and instances of container subclasses, never come back as they were. |
| CodecLimits.DictUnderIterableIsLost | emboss/_cached.py:443-466 | A dict under a union of a model and Iterable conforms and is lost. |
| CodecLimits.UnrebuildableSubclassIsLost | emboss/_cached.py:443-466 | An instance of a dataclass that cannot be rebuilt, under a union with its rebuildable base, is lost. |
| CodecLimits.DepthLimit | emboss/_cached.py:469-487 | A model inside n lists is stored without its class if and only if n is at most 8. |
| SqliteRows.AgedIsSorted | emboss/_sqlite_cache.py:281-286 | The eviction order lists the same rows, each older than those behind it. |
| SqliteRows.EvictedAreFirst | emboss/_sqlite_cache.py:281-294 | Evicting k rows evicts the first k of that order. |
| SqliteRows.ShrunkIsShortest | emboss/_sqlite_cache.py:273-294 | A cull evicts the fewest oldest rows that bring the total to 90% of the limit, or all. |
| SqliteRows.ShrunkKeepsNewest | emboss/_sqlite_cache.py:273-294 | Every row evicted is older than every row kept. |
| SqliteRows.CulledIsWithin | emboss/_sqlite_cache.py:273-294 | After a cull the total is within the limit; a negative limit empties the table. |
| SqliteRows.SurvivesExactly | emboss/_sqlite_cache.py:232-294 | Any row, whatever its times, outlives a cull if and only if nothing had to go, or it and the rows not older than it fit in 90% of the limit. |
| SqliteRows.NewestSurvives | emboss/_sqlite_cache.py:232-294 | The strictly newest row outlives a cull if and only if nothing had to go or it fits in 90% of the limit by itself. |
| SqliteLaws.EvictedGoBefore | emboss/_sqlite_cache.py:66-69 | Every row evicted has a smaller store time than every row kept, or access time under least-recently-used, or the same and a smaller rowid. |
| SqliteLaws.CullStopsAtWaterMark | emboss/_sqlite_cache.py:273-294 | Past the limit rows go until 90% of it or nothing is left, and with the last of them kept there would be more. |
| SqliteLaws.RunTold | emboss/_sqlite_cache.py:206-294 | In every run from an empty cache a row's store time is its key's last set, and its access time the last set or, under least-recently-used, the last get more than a minute after the use before. |
| SqliteLaws.EvictionFollowsUse | emboss/_sqlite_cache.py:206-294 | In every run: when a set evicts one key and keeps another, the evicted one was last used, as its policy counts uses, no later than the kept one. |
| SqliteLaws.RowSet | emboss/_sqlite_cache.py:232-256 | The row a set leaves has the time read, the value's size, the value in the side file from the size limit on, and the expiry written out. |
| SqliteFiles.RemovalIsSound | emboss/_sqlite_cache.py:269-271 | Removing a row and its file keeps files and rows matched and takes away exactly its key. |
| SqliteFiles.InsertIsSound | emboss/_sqlite_cache.py:243-256 | A new row with its file keeps them matched and adds exactly its entry. |
| SqliteFiles.UpdateIsSound | emboss/_sqlite_cache.py:243-256 | An overwritten row, with its old file removed, keeps them matched and changes exactly its entry. |
| SqliteCaches.SqliteCache.SqlUpsert | emboss/_sqlite_cache.py:138-157 | The insert and update triggers keep size and count the table's totals. |
| SqliteCaches.SqliteCache.SqlDelete | emboss/_sqlite_cache.py:138-157 | The delete triggers keep size and count the table's totals. |
| SqliteCaches.SqliteCache.CullBatch | emboss/_sqlite_cache.py:282-294 | A batch snapshot of 64 evicts in the order a fresh look at the table would, and makes progress. |
| SqliteCaches.SqliteCache.Cull | emboss/_sqlite_cache.py:273-294 | The batched loop leaves what evicting one oldest row at a time would leave. |
| SqliteCaches.SqliteCache.Get | emboss/_sqlite_cache.py:206-230 | Answers the entry unless stale; a stale one goes, and an access time older than 60 s is renewed. |
| SqliteCaches.SqliteCache.Contains | emboss/_sqlite_cache.py:359-365 | True exactly when a get would answer. |
| SqliteCaches.SqliteCache.Set | emboss/_sqlite_cache.py:232-267 | Answers True; the table is the culled upsert, nothing but this entry changes, the key is held afterwards if and only if its row outlives the cull, and the size ends within the limit. |
| SqliteLimits.TooBigIsEvicted | emboss/_sqlite_cache.py:232-294 | A concrete first set that answers True and is evicted for its size. |
| SqliteLimits.TieIsEvicted | emboss/_sqlite_cache.py:247-256 | A concrete overwrite that answers True and loses a tie of times to a younger rowid. |
| SqliteCaches.SqliteCache.Delete | emboss/_sqlite_cache.py:296-309 | Removes exactly the key, and says whether it was there. |
| SqliteLimits.StaleIsDeleted | emboss/_sqlite_cache.py:296-309 | A concrete delete that answers True for an entry no get would answer. |
| SqliteCaches.SqliteCache.Clear | emboss/_sqlite_cache.py:311-316 | Leaves no row and no file, and says how many entries there were. |
| SqliteCaches.SqliteCache.Expire | emboss/_sqlite_cache.py:318-333 | Removes exactly the entries stale at the cutoff, and counts them. |
| SqliteRuns.StaysBelow | emboss/_sqlite_cache.py:206-333 | Against a dictionary that holds at least as much, every call keeps holding no more and answers no more. |
| SqliteRuns.Run | emboss/_sqlite_cache.py:206-333 | Every run keeps totals and files true and the volume within the limit; the rows are those the calls' rules and the cull's eviction order leave, every reply is the dictionary's restricted to exactly those rows, and the whole dictionary's while everything set has room. |
| SqliteTimeToLive.ServedWhileFresh | emboss/_sqlite_cache.py:206-267 | In every run: while a key's row is there after a set and no later write, a get answers the value if and only if no time to live was given, it was zero, or it is not over; and so whenever everything set has room. |

## Left out

- Several prefixes: one prefix directory is modelled; a key's prefix is a fixed function of its digest and prefixes share nothing.
- Legacy per-writer spill files: adopting them into the pool, deferring failed adoptions, sweeping old namespaces.
- `size_limit` of the log store: trimming in compaction and consolidation.
- `_salvage_opaque` itself, pickle, md5, sha256, pydantic and dataclass constructors: parameters, as said above.
- The operating system: file locks, fsync, rename atomicity, NFS, fork, the thread-pool batch runner, logging. A failing stat and a failing read are the same unreadable log.
- LogCaches.LogCache.Get: a served opaque value that cannot be rebuilt here, and its one-time warning, is a plain miss.
- LogCaches.LogCache.Set: the clock readings are parameters; it reads the first before it takes the lock, and its readings under the lock count as one.
- LoneWriterRuns.Run: one writer and no faults, as scoped.
- SharedRuns.GetAfterQuiet: one cache from its start, peers that only append, readable logs that stay readable, our log without a torn tail, and clocks in step.
- Passes.ResolveSpills: no legacy spill paths; a stat fault on a pool file that exists keeps the record as a success does, and one on a file that does not exist is not modelled.
- Index.Lookup: the packed index is a value whose bytes are a sequence, not a buffer shared between threads; the loop over it is the source's.
- ConsolidationScope.AnswerUnderConsolidation: records of one key with one store time are one record, as in every claim on the fold.
- ConcurrentPasses.RunIsSafe: peers only append; two writers consolidating at once are outside it.
- PoolGc.LatestKeepsItsSpill: no deletes, expiry or pruning, and distinct store times for distinct writes of one key.
- `_AsyncInflightLatch`: the same protocol with an asyncio lock per event loop.
- FirstWrite.FirstWriteWins: one key, a read-your-writes backend with no outside writer, no schema drift; the latch is one lock here, the table behind it is `Latch`.
- `cache_only`, the `CacheMiss` message, annotation resolution, source canonicalisation and the argument encoder.
- Codec: an instance that is itself a list, tuple or dict (a dataclass deriving from dict), and two fields of one name.
- SqliteCaches.SqliteCache.Set: a failed or retried transaction, and the orphan cleanup it triggers; 90% of the limit is exact here, not a float.
- SqliteRuns.Run: one process at a time; iteration order of keys.
- `FanoutCache`, `FileCache`, `transfer`, the CLI and the benchmark: they would only add easy members.
