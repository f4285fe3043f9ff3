# LevelDB and memcached, modelled and proved in Dafny

This project models the hard core of two storage systems and proves what they promise.

* **LevelDB 1.15.0.** The database is a map from user keys to values with snapshots. The engine keeps
  a multi-version set of entries (user key, sequence number, value or deletion marker) in a log, two
  memtables and seven levels of sorted tables, and rewrites that set all the time. The engine modules
  prove that none of this can be seen: over every run of writes, memtable switches, flushes,
  compactions, moves, snapshot calls, file deletions and crashes, the database reads as the plain map
  obtained by applying the committed batches in order, and every live snapshot reads the map it was
  taken from. Two defects of the engine, listed first below with their exact conditions, break this; the
  runs are those without them. The other modules prove the parts this rests on: the record log, the manifest, the
  iterators, the memtable's skip list under concurrent readers, group commit, the block and table
  formats, filters, and the LRU cache.
* **memcached 1.4.15.** The hash table that grows in steps, the slab allocator that moves pages between
  classes, and the item queues with `flush_all`.

## How it is modelled

* A user key is a rank, a real number, wherever only its order matters: the engine touches user keys
  only through the comparator, and every countable total order embeds in the reals. Modules about bytes
  (`Comparators`, `Table`, `Block`, `Filter`, the codecs) use byte strings.
* Code that runs in one thread is a method or a class with the source's loops, proved against a
  specification function or the property itself. Code that several threads run is a state machine whose
  steps are the stretches between releases of a mutex: the engine in `EngineState`, group commit in
  `GroupCommit`. In `SkipList` a step is a single store or load of a link.
* Clocks, random heights, memory allocation, the moment a block or a compaction output is full, and the
  hash functions are parameters, so the results hold for any of them. The CRC is any function that
  extends over a concatenation in two calls, as the writer relies on.
* Sequence numbers stay below the 56-bit maximum, and sizes, counts and block offsets that the formats
  store in 32 bits fit in 32 bits; those are the limits of the formats themselves.
* Every lemma carries `{:induction false}`: inductions are written out, and no proof rests on a
  hypothesis that the verifier makes up.
* The inputs of a compaction are picked from one version and its outputs installed against another:
  memtables may be flushed in between, to any level the engine may choose, as `DoCompactionWork` does
  (leveldb-1.15.0/db/db_impl.cc:884-894). That the inputs are still there, and that what was flushed is
  newer than they are, is proved and not assumed.

## Where the code does less than one would expect

Each of these is a fact about the code, with a concrete input and the exact condition in the model.

* **A move or a compaction can make reads stale.** Output files may be cut between two versions of one
  user key, and picking a file above level 0 does not pull in its neighbour. If the older version stays at
  the level while the newer one goes down, the search stops at the older; if the newer one is a deletion
  marker that is dropped, the older value shows again. `VersionSteps.MoveCanGoStale`,
  `CompactionSafety.CompactionCanGoStale` and `CompactionSafety.DeletedKeyCanComeBack` give inputs; `VersionSteps.TrivialMoveIsSafe` and
  `CompactionSafety.CompactionIsSafe` say exactly when it cannot happen, and `VersionSteps.BoundaryTest`
  is the test of one pair of neighbouring keys that a caller could make. The runs of `EngineRuns` are those
  whose moves and compactions meet these conditions, which at level 0 the upper inputs always do.
* **A flush can land between the inputs of a manual compaction**, at the level its outputs go to. An output
  that spans the gap then overlaps the flushed file, and the search misses its keys:
  `CompactionRoom.FlushCanCollide`. However the outputs are cut, they fit if and only if no file that stays
  meets the range of the entries to be written: `CompactionRoom.RoomIsExact`. If the ranges of the inputs
  leave no gap, no flush can get in the way (`VersionSteps.FlushKeepsBesides`, `EngineRuns.GaplessHasRoom`),
  and every compaction that the engine picks itself is of this kind (`LevelShape.PickCompaction`); so only
  for inputs with a gap are the runs those in which there is room.
* **A delayed `flush_all` brings flushed items back.** A flush kills lazily, by one global time. Setting
  that time to the future forgets the earlier flush: `Items.FlushedItemComesBack`. `Items.Cache.FlushAll`
  states when a flush kills everything linked: if and only if its time lies between 1 and now, or nothing
  was linked. The time of an immediate flush, now minus one, wraps around unless now is at least 1, and is
  0, which means no flush at all, when now is 1.
* **`VersionEdit::Clear` keeps the compaction pointers**, so decoding into a used object appends to them:
  `VersionEditCodec.ReusedEditKeepsPointer`. Decoding gives back the edit if and only if the object had no
  pointers (`VersionEditCodec.RoundTripIsExact`).
* **A merging iterator skips duplicates where it turns.** Its header promises to yield an entry once for
  every child that has it (leveldb-1.15.0/table/merger.h:12-18). Both moves reposition the other children
  past the current entry when the direction changes: `MergingIterator.TwinsAreSkipped`. A move goes to the
  very next entry if and only if it does not turn at one that another child has as well, on the side it
  goes to (`MergingIterator.TurnIsExact`). The engine's children never share an entry.
* **A group that fails still uses up its sequence numbers**: `GroupCommit.FailedGroupUsesNumbers`. Of two
  successful batches with none in between, the second goes on where the first stops if and only if nothing
  with operations failed between them after it was gathered (`GroupCommit.ContiguousUnlessFailed`).

## Model

| member | source | states |
|---|---|---|
| InternalKeys.LookupUnique | leveldb-1.15.0/db/dbformat.cc:50-66 | With sequence numbers unique per user key, the lookup at a snapshot has one answer |
| InternalKeys.SameAnswersSameView | leveldb-1.15.0/db/dbformat.cc:50-66 | Two sets of entries that answer every key alike show the same map at that snapshot |
| Versions.FindFile | leveldb-1.15.0/db/version_set.cc:91-110 | The binary search splits a sorted level exactly at the first file whose largest key is not before the target |
| Versions.SeekGetFindsNewest | leveldb-1.15.0/db/memtable.cc:108-143 | Seeking to (key, snapshot, seek type) and comparing the user key finds the newest version at or below the snapshot, or none if there is none |
| Versions.TableGetFindsNewest | leveldb-1.15.0/db/version_set.cc:273-286 | The same for the entries of one table |
| Versions.SearchLevelZero | leveldb-1.15.0/db/version_set.cc:362-377 | The level-zero search, newest file first and stopping at the first hit, is the lookup over all level-zero entries |
| Versions.SearchSortedLevel | leveldb-1.15.0/db/version_set.cc:378-395 | On a level above zero the one file found by binary search answers for the whole level |
| Versions.Get | leveldb-1.15.0/db/version_set.cc:337-434 | The level-by-level search that stops at the first hit is the lookup over the whole version, if shallower levels are newer |
| Versions.ShallowHitWins | leveldb-1.15.0/db/version_set.cc:337-434 | The newest match of the shallowest level that has one is the newest of the version |
| LevelShape.GetOverlappingInputs | leveldb-1.15.0/db/version_set.cc:536-577 | Terminates; on level 0 it returns the files of the least range that contains the request and is closed under overlap, and they cover all the range grew by; elsewhere exactly the overlapping files |
| LevelShape.SomeFileOverlapsRange | leveldb-1.15.0/db/version_set.cc:126-161 | True exactly if some file overlaps the range, with both ends possibly open |
| LevelShape.PickLevelForMemTableOutput | leveldb-1.15.0/db/version_set.cc:507-533 | No level down to the chosen one overlaps the range, the grandparent limit is kept on the way, and the next level down would break one of these |
| LevelShape.GetRange | leveldb-1.15.0/db/version_set.cc:1190-1210 | The least smallest and the greatest largest key of the inputs |
| LevelShape.SetupOtherInputs | leveldb-1.15.0/db/version_set.cc:1311-1354 | The inputs are legal and exactly determined by the picked files: the lower ones are all the files under their range; if there are any, the upper ones grow to all files around the whole range exactly if that makes them more, changes no lower input and stays below 50 MB; growing opens no gap |
| LevelShape.ExpandInputs | leveldb-1.15.0/db/version_set.cc:1322-1354 | Grows the upper inputs exactly if the files around the whole range are more, meet the same lower files and stay with them below 50 MB; else changes nothing |
| LevelShape.SameCount | leveldb-1.15.0/db/version_set.cc:1332-1337 | Comparing the numbers of lower files is comparing the files |
| LevelShape.OverlappingMonotone | leveldb-1.15.0/db/version_set.cc:1332-1337 | Equal counts of overlapping files under a wider range mean equal files, which is why comparing counts is enough |
| LevelShape.PickLevelZero | leveldb-1.15.0/db/version_set.cc:1295-1304 | The picked level-zero file and all it overlaps, transitively, which leave no gap between them |
| LevelShape.PickCompaction | leveldb-1.15.0/db/version_set.cc:1291-1309 | The inputs the engine picks are legal, leave no gap, and are those determined by the picked file, on level 0 with all it overlaps, transitively, and nothing else |
| LevelShape.CompactRange | leveldb-1.15.0/db/version_set.cc:1378-1411 | The inputs of a manual compaction are legal and those determined by the files that overlap the request: on level 0 with all they overlap, above it only the first of them; there are none exactly if no file overlaps the range |
| LevelShape.CutToSize | leveldb-1.15.0/db/version_set.cc:1393-1402 | As many files as it takes to bring their sizes to 2 MB, or all of them |
| VersionBuilder.Builder.Apply | leveldb-1.15.0/db/version_set.cc:670-713 | The builder's record after an edit is the specified record |
| VersionBuilder.Builder.SaveTo | leveldb-1.15.0/db/version_set.cc:716-762 | The merge loops save the specified version |
| VersionBuilder.SavedMembers | leveldb-1.15.0/db/version_set.cc:716-777 | A saved level holds exactly the base and added files that are not deleted |
| VersionBuilder.SavedByKeyThenNumber | leveldb-1.15.0/db/version_set.cc:611-627 | Merging ordered lists gives a level ordered by smallest key, and by file number among files with the same smallest key |
| VersionBuilder.AppliedMembers | leveldb-1.15.0/db/version_set.cc:670-777 | After one edit a level holds the added files and the files of before that it does not delete |
| VersionBuilder.ReplayMatches | leveldb-1.15.0/db/version_set.cc:910-1023 | One builder fed every edit of the manifest saves the very version that installing them one at a time left |
| Compaction.Scan.IsBaseLevelForKey | leveldb-1.15.0/db/version_set.cc:1448-1467 | The scan that resumes where the last key left it answers as a full scan of all deeper levels |
| Compaction.ShouldDrop | leveldb-1.15.0/db/db_impl.cc:923-958 | Drops an entry exactly if the input has a newer one of its key at or below the snapshot while it is itself at or below it, or it is a deletion marker at or below the snapshot of a key that no file two or more levels down has in its range |
| Compaction.AllKeptIs | leveldb-1.15.0/db/db_impl.cc:923-958 | What the two rules keep, said of the entries alone: all above the snapshot, and of each key the newest at or below it, unless that is a marker with nothing left to hide |
| Compaction.DoCompactionWork | leveldb-1.15.0/db/db_impl.cc:884-983 | Whatever the policy for cutting files, the outputs hold exactly those entries, in order; every output records its own end keys; a file is closed before every stop and when it is full, and for no other cause |
| CompactionMeaning.DropsAreUnseen | leveldb-1.15.0/db/db_impl.cc:923-958 | Dropping what the rules drop changes no answer at or above the smallest snapshot |
| CompactionMeaning.CompactionPreservesReads | leveldb-1.15.0/db/db_impl.cc:834-983 | For every key and every snapshot at or above the smallest one, the answer over memtables and levels is the same before and after inputs are replaced by outputs, whatever flushes were installed since the inputs were picked |
| CompactionMeaning.CompactionKeepsWellFormed | leveldb-1.15.0/db/db_impl.cc:834-983 | Against the version that those flushes made, the result is again sorted and disjoint above level 0, newer in shallower levels, with unique file numbers below the next one |
| CompactionMeaning.StillTaken | leveldb-1.15.0/db/db_impl.cc:884-894 | Flushes leave the inputs of a running compaction in place |
| CompactionMeaning.StillClosed | leveldb-1.15.0/db/db_impl.cc:884-894 | Flushes leave nothing older beside the inputs |
| CompactionMeaning.StillNoValue | leveldb-1.15.0/db/db_impl.cc:884-958 | Flushes leave nothing older under the markers a compaction drops |
| CompactionMeaning.LevelZeroClosed | leveldb-1.15.0/db/version_set.cc:1295-1304 | Level-zero inputs leave no older version of a key of theirs behind |
| CompactionMeaning.LayeringAfter | leveldb-1.15.0/db/db_impl.cc:834-853 | Shallower levels stay newer |
| CompactionMeaning.ShapeAfter | leveldb-1.15.0/db/db_impl.cc:834-853 | Every level above 0 stays sorted and disjoint if no file that stays meets the range of the outputs |
| CompactionSafety.CompactionIsSafe | leveldb-1.15.0/db/version_set.cc:1257-1354 | A compaction of given inputs is harmless under every smallest snapshot if and only if its upper level keeps no older version of a key it takes, and what stays has no value right under a marker it may drop; inputs closed under user keys are always safe |
| CompactionSafety.CompactionCanGoStale | leveldb-1.15.0/db/version_set.cc:1378-1411 | Legal inputs that are not safe exist |
| CompactionSafety.DeletedKeyCanComeBack | leveldb-1.15.0/db/db_impl.cc:923-958 | Legal inputs whose compaction drops a marker and leaves the older value of its key beside them |
| CompactionRoom.RoomIsExact | leveldb-1.15.0/db/db_impl.cc:834-853 | However the outputs are cut, their level stays sorted and disjoint if and only if no file that stays there meets the range of the entries to be written |
| CompactionRoom.FlushCanCollide | leveldb-1.15.0/db/db_impl.cc:884-894 | A manual compaction and a flush, both legal, after which a level overlaps and the search for the flushed key looks into the wrong file |
| VersionSteps.FlushKeepsWellFormed | leveldb-1.15.0/db/db_impl.cc:457-501 | A flush to a legal level keeps every invariant of the version and adds exactly the memtable's entries |
| VersionSteps.FlushKeepsBesides | leveldb-1.15.0/db/version_set.cc:507-533 | A flush puts no file between the inputs of a running compaction if their ranges leave no gap |
| VersionSteps.TrivialMoveIsSafe | leveldb-1.15.0/db/db_impl.cc:686-703 | A trivial move never makes a read stale if and only if no older version of the file's keys stays beside it; it changes no contents |
| VersionSteps.BoundaryTest | leveldb-1.15.0/db/version_set.cc:1265-1283 | For neighbouring files that condition is: the next file does not start with the user key the inputs end with |
| VersionSteps.MoveCanGoStale | leveldb-1.15.0/db/version_set.cc:1431-1438 | A well-formed version and a legal move after which a read finds an old value |
| EngineInvariant.AppendLogKeepsInv | leveldb-1.15.0/db/db_impl.cc:1183-1192 | Logging a group keeps the engine's invariant |
| EngineInvariant.InsertNextKeepsInv | leveldb-1.15.0/db/write_batch.cc:112-134 | Inserting the next entry of the group does |
| EngineInvariant.PublishKeepsInv | leveldb-1.15.0/db/db_impl.cc:1211-1213 | Publishing the group's last sequence number does |
| EngineInvariant.SwitchKeepsInv | leveldb-1.15.0/db/db_impl.cc:1322-1342 | Switching to a new log and memtable does |
| EngineInvariant.BuildFlushKeepsInv | leveldb-1.15.0/db/db_impl.cc:457-501 | Writing the table of the immutable memtable does |
| EngineInvariant.StartCompactionKeepsInv | leveldb-1.15.0/db/db_impl.cc:855-881 | Fixing a compaction's inputs and smallest snapshot does; the level-zero inputs are proved to leave nothing older behind |
| EngineInvariant.OpenOutputKeepsInv | leveldb-1.15.0/db/db_impl.cc:757-780 | Reserving the number of the next output does |
| EngineInvariant.FinishOutputKeepsInv | leveldb-1.15.0/db/db_impl.cc:782-832 | Writing that output's table does: no file in use has its number |
| EngineInvariant.AbandonKeepsInv | leveldb-1.15.0/db/db_impl.cc:740-755 | Giving a compaction up does |
| EngineInvariant.TakeSnapshotKeepsInv | leveldb-1.15.0/db/db_impl.cc:1143-1146 | Taking a snapshot does |
| EngineInvariant.ReleaseSnapshotKeepsInv | leveldb-1.15.0/db/db_impl.cc:1148-1151 | Releasing one does |
| EngineInvariant.HoldVersionKeepsInv | leveldb-1.15.0/db/db_impl.cc:1077-1122 | A reader's reference to the current version does |
| EngineInvariant.DropVersionKeepsInv | leveldb-1.15.0/db/version_set.cc:491-498 | Dropping it does |
| EngineInvariant.DeleteObsoleteKeepsInv | leveldb-1.15.0/db/db_impl.cc:218-272 | Deleting files removes no log that recovery replays and no table that the current version, a reader or a compaction can read |
| EngineInvariant.ReplayIs | leveldb-1.15.0/db/db_impl.cc:304-356 | The batches recovery would replay are those of the current log, after those of the log being flushed |
| EngineInstall.LogChangeKeepsInv | leveldb-1.15.0/db/version_set.cc:838-889 | Writing an edit to the manifest keeps the invariant |
| EngineInstall.InstallKeepsInv | leveldb-1.15.0/db/version_set.cc:891-895 | Making the new version current keeps it |
| EngineInstall.ChangeStep | leveldb-1.15.0/db/version_set.cc:825-908 | Every flush, compaction and move gives a well-formed version; a flush adds the immutable memtable, a compaction adds nothing, a move changes nothing in the contents |
| EngineReads.BatchBecomesVisible | leveldb-1.15.0/db/db_impl.cc:1190-1213 | Raising the last sequence number over a batch applies the whole batch to the map |
| EngineReads.PublishAppliesGroup | leveldb-1.15.0/db/db_impl.cc:1200-1213 | Publishing a group is the group applied to the map, all at once |
| EngineReads.InsertIsInvisible | leveldb-1.15.0/db/db_impl.cc:1190-1213 | No reader at or below the last sequence number sees part of a batch |
| EngineReads.InstallIsInvisible | leveldb-1.15.0/db/version_set.cc:825-908 | Installing a flush, compaction or move changes no read at a sequence number that may be read |
| EngineReads.AllUnique | leveldb-1.15.0/db/db_impl.cc:1190-1213 | No two entries anywhere share user key and sequence number; those above the last sequence number are the group in flight |
| EngineRecovery.SnapshotRestores | leveldb-1.15.0/db/version_set.cc:1068-1096 | Writing a version as a snapshot edit and replaying it is the identity |
| EngineRecovery.TablesKeepWellFormed | leveldb-1.15.0/db/db_impl.cc:362-455 | Replaying logs into any number of level-zero tables keeps the version's invariants and adds exactly the logged entries |
| EngineRecovery.ManifestGivesVersion | leveldb-1.15.0/db/version_set.cc:910-1023 | The manifest replays to the version last installed, with the log number and a next file number above every live file |
| EngineRecovery.LogsGiveMemtables | leveldb-1.15.0/db/db_impl.cc:304-356 | The logs recovery reads hold exactly the memtables' entries and the group in flight, as one chain of sequence numbers |
| EngineRecovery.LastSequenceRecovered | leveldb-1.15.0/db/db_impl.cc:404-432 | The largest sequence number found is the last one, past the group in flight |
| EngineRecovery.RecoveryEquivalence | leveldb-1.15.0/db/db_impl.cc:274-455 | Opening after a crash in any reachable state, with every live table found on disk, gives a database that reads as the old one with at most the one group in flight applied, whole or not at all |
| EngineRestart.RecoveryAlwaysSucceeds | leveldb-1.15.0/db/db_impl.cc:274-455 | In every reachable state the disk alone is enough to open the database again: the manifest is complete and no live table is missing |
| EngineRuns.InitKeepsInv | leveldb-1.15.0/db/db_impl.cc:177-207 | A new database satisfies the invariant and is empty |
| EngineRuns.StepKeepsInv | leveldb-1.15.0/db/db_impl.cc:1162-1342 | Every step, crashes included, keeps the invariant |
| EngineRuns.StepKeepsReads | leveldb-1.15.0/db/db_impl.cc:655-738 | No step but a crash changes what is read at a live snapshot or at the last sequence number |
| EngineRuns.RunRefinesMap | leveldb-1.15.0/db/db_impl.cc:1077-1233 | After any run, with any number of crashes, the database reads as the map that the committed batches build |
| EngineHistory.SnapshotsFollowSteps | leveldb-1.15.0/db/snapshot.h:37-57 | In every run the snapshot list is what the calls alone say: the snapshots taken since the last crash and not given back, oldest first, each with the last sequence number of its time |
| EngineHistory.SnapshotIsStable | leveldb-1.15.0/db/db_impl.cc:1143-1151 | From when a snapshot is taken until a crash or until that very snapshot is given back, it reads the map as it was when it was taken; nothing is assumed of the engine but its steps |
| EngineHistory.SnapshotAnswersAsMap | leveldb-1.15.0/db/db_impl.cc:1077-1122 | So a lookup at such a snapshot answers as the map did then |
| EngineHistory.OldestSnapshotRules | leveldb-1.15.0/db/db_impl.cc:868-872 | A compaction drops by the oldest snapshot that is alive when it starts, or by the last sequence number if none is, and by no other number |
| EngineHistory.ReadersFollowSteps | leveldb-1.15.0/db/version_set.cc:480-498 | In every run the references to a version are those taken since the last crash less those given back |
| EngineHistory.ReadersKeepFiles | leveldb-1.15.0/db/db_impl.cc:1077-1122 | While more readers took a version than gave it back, every file of it is on disk with its contents |
| EngineHistory.ReaderIsServed | leveldb-1.15.0/db/db_impl.cc:1077-1122 | A reader that has not given its version back finds every file of it, whatever was installed and deleted since |
| EngineHistory.PendingFollowsWork | leveldb-1.15.0/db/db_impl.cc:740-832 | A file number is kept from deletion exactly while its table is being written |
| EngineHistory.CollectIsExact | leveldb-1.15.0/db/db_impl.cc:218-272 | Deleting files leaves exactly the tables that someone may read or that are being written, and no log but the current one and that of the immutable memtable |
| EngineHistory.FilesStay | leveldb-1.15.0/db/db_impl.cc:218-272 | Between two such deletions no file leaves the disk, crashes and recoveries included |
| EngineRuns.NothingInUseIsDeleted | leveldb-1.15.0/db/db_impl.cc:218-272 | In every reachable state, each file of the current version, of a reader's version and of a compaction's input version is on disk with its contents |
| EngineRuns.GaplessHasRoom | leveldb-1.15.0/db/db_impl.cc:884-894 | In no reachable state does a flushed file stand in the way of a compaction whose inputs leave no gap |
| EngineRuns.MemtableGrows | leveldb-1.15.0/db/db_impl.cc:1077-1122 | A captured memtable keeps what it had and gets only entries above the last sequence number of then |
| EngineRuns.Get | leveldb-1.15.0/db/db_impl.cc:1077-1122 | The memtables and the version captured at one time and read at a later one, while the engine goes on, answer as at the first: the newest version at or below the snapshot, and for the last sequence number what the map had |
| EngineRuns.LookupAnswersAsMap | leveldb-1.15.0/db/db_impl.cc:1077-1122 | Such a lookup answers as the map: absent, or its value |
| Coding.FixedRoundTrip | leveldb-1.15.0/util/coding.cc:9-33 | Little-endian fixed-width numbers read back |
| Coding.FixedBytes | leveldb-1.15.0/util/coding.cc:9-33 | The four bytes in numbers, the lowest first |
| ByteLayout.WordIs | leveldb-1.15.0/util/coding.cc:9-33 | Four bytes are those of a number exactly if, weighted by powers of 256 from the first on, they add up to it |
| ByteLayout.LongIs | leveldb-1.15.0/util/coding.cc:9-33 | The same for eight bytes |
| ByteLayout.VarintIs | leveldb-1.15.0/util/coding.cc:47-90 | The bytes written for a number are its base-128 digits, the lowest first, all but the last with their high bit set and none wasted |
| ByteLayout.StringIs | leveldb-1.15.0/util/coding.cc:98-110 | A string is written as its length and its bytes |
| ByteLayout.NumberRead | leveldb-1.15.0/util/coding.cc:112-158 | On any bytes: a number is read exactly if one of the first five or ten bytes has its high bit clear, and it is that of the digits up to there, cut to the width |
| ByteLayout.TextRead | leveldb-1.15.0/util/coding.cc:160-192 | On any bytes: a string is read exactly if a number is there and at least as many bytes follow |
| Coding.EncodeVarint | leveldb-1.15.0/util/coding.cc:81-90 | The loop writes the base-128 form |
| Coding.EncodeVarint32 | leveldb-1.15.0/util/coding.cc:47-73 | The five cases write the same bytes as the loop |
| Coding.DecodeVarint | leveldb-1.15.0/util/coding.cc:112-158 | The shift-and-or loop reads the groups, refuses what is too long, and keeps the low 32 or 64 bits |
| Coding.VarintRoundTrip | leveldb-1.15.0/util/coding.cc:47-158 | Every number of the width reads back, whatever follows |
| Coding.PrefixedRoundTrip | leveldb-1.15.0/util/coding.cc:98-192 | Length-prefixed strings read back, whatever follows |
| LogFormat.UnmaskMask | leveldb-1.15.0/util/crc32c.h:31-40 | Unmasking undoes masking |
| LogFormat.MaskUnmask | leveldb-1.15.0/util/crc32c.h:31-40 | Masking undoes unmasking |
| LogFormat.MoreRoomNext | leveldb-1.15.0/db/log_writer.cc:27-73 | A fragment that is not the last fills its block, so fragmenting ends |
| LogFormat.RecordIsLayout | leveldb-1.15.0/db/log_format.h:14-35 | The bytes of a record written at any offset, in numbers: zeros where no header fits, then fragments of up to 32761 bytes, all but the first at a block start, each with its checksum, length, type byte 1, 2, 3 or 4 and share of the record |
| LogFormat.LogIsLayout | leveldb-1.15.0/db/log_writer.cc:27-100 | A log is the file in which its records are laid out so, one after the other, and no other file |
| LogFormat.LogPrefix | leveldb-1.15.0/db/log_writer.cc:27-100 | The log of fewer records is a prefix of the log of more |
| Log.Writer.EmitPhysicalRecord | leveldb-1.15.0/db/log_writer.cc:75-100 | One header and payload, with the block offset kept |
| Log.Writer.AddRecord | leveldb-1.15.0/db/log_writer.cc:27-73 | The fragmenting loop appends the record so that it is laid out, in numbers, from the old end of the file to the new one |
| LogScan.FragmentFound | leveldb-1.15.0/db/log_reader.cc:179-256 | A fragment that was written is found whole, or as the end or an unreadable rest if the file ends within it |
| LogScan.RecordFound | leveldb-1.15.0/db/log_reader.cc:59-162 | Where a record was written a scan finds its fragments; if the file ends within it, nothing that ends a record |
| Log.WhatIsAhead | leveldb-1.15.0/db/log_reader.cc:206-256 | What is found at a header, by the bytes from there to the end of the block: length, blank header and checksum tests, and what is reported |
| Log.Reader.ReadPhysicalRecord | leveldb-1.15.0/db/log_reader.cc:179-256 | On every file: the next fragment with its type, or the rest of the block passed over and reported unless it is blank, or the end of the file |
| Log.Reader.Assemble | leveldb-1.15.0/db/log_reader.cc:66-162 | On every file: the first record among the fragments found, which is one of type 1 or one of type 2, any of type 3 and one of type 4 right after each other; nothing exactly if there is none |
| Log.Reader.ReadRecord | leveldb-1.15.0/db/log_reader.cc:59-162 | The same; where a record is laid out it is returned and nothing reported, and nothing is returned if the file ends inside it |
| Log.WriteAll | leveldb-1.15.0/db/log_writer.cc:27-100 | Records added one after the other make the file in which they are laid out |
| Log.ReadAll | leveldb-1.15.0/db/log_reader.cc:59-256 | From a file in which records are laid out, cut at any byte, the reader returns exactly the records that end before the cut, and of a whole file all records with nothing reported dropped |
| LogReplay.ReplayLog | leveldb-1.15.0/db/db_impl.cc:399-446 | From the bytes of a log cut anywhere, exactly the groups whose records are whole, with their sequence numbers and operations |
| LogReplay.TornAppend | leveldb-1.15.0/db/db_impl.cc:1190-1192 | A crash at any byte of an append leaves a disk that reads as before the group or, once the last byte is there, with the whole group |
| DbIterator.DbIter.FindNextUserEntry | leveldb-1.15.0/db/db_iter.cc:173-203 | Passes over hidden entries only, and stops at the first one a reader may see |
| DbIterator.DbIter.FindPrevUserEntry | leveldb-1.15.0/db/db_iter.cc:232-272 | Scanning back ends at the last shown entry before the start |
| DbIterator.DbIter.Next | leveldb-1.15.0/db/db_iter.cc:146-171 | The next shown entry, also after a change of direction |
| DbIterator.DbIter.Prev | leveldb-1.15.0/db/db_iter.cc:205-230 | The previous shown entry, also after a change of direction |
| DbIterator.DbIter.Seek | leveldb-1.15.0/db/db_iter.cc:274-286 | The first shown entry whose user key is at or after the target |
| DbIterator.DbIter.SeekToFirst | leveldb-1.15.0/db/db_iter.cc:288-297 | The first shown entry |
| DbIterator.DbIter.SeekToLast | leveldb-1.15.0/db/db_iter.cc:299-304 | The last shown entry |
| DbIterator.ShownIsVisible | leveldb-1.15.0/db/db_iter.cc:173-203 | What the iterator shows is in the map visible at its sequence number |
| DbIterator.VisibleIsShown | leveldb-1.15.0/db/db_iter.cc:173-203 | Every pair of that map is shown |
| DbIterator.Drive | leveldb-1.15.0/db/db_iter.cc:146-304 | Any list of commands is answered as by a cursor over the sorted visible map |
| MergingIterator.Merger.FindSmallest | leveldb-1.15.0/table/merger.cc:155-168 | The first of the places the children stand at: the least entry, and of twins that of the first child |
| MergingIterator.Merger.FindLargest | leveldb-1.15.0/table/merger.cc:170-183 | The last of them: the greatest entry, and of twins that of the last child |
| MergingIterator.Merger.Next | leveldb-1.15.0/table/merger.cc:59-83 | For any sorted children: the next place of the union, twins in the order of their children; after going backward, the first place of a later entry |
| MergingIterator.Merger.Prev | leveldb-1.15.0/table/merger.cc:85-112 | The place before; after going forward, the last place of an earlier entry |
| MergingIterator.Merger.Seek | leveldb-1.15.0/table/merger.cc:51-57 | The first place of the union at or after the target |
| MergingIterator.Merger.SeekToFirst | leveldb-1.15.0/table/merger.cc:35-41 | The first place of the union |
| MergingIterator.Merger.SeekToLast | leveldb-1.15.0/table/merger.cc:43-49 | The last place of the union |
| MergingIterator.Drive | leveldb-1.15.0/table/merger.cc:35-183 | Any list of commands over any sorted children is answered so, each answer being the entry at its place |
| MergingIterator.TurnIsExact | leveldb-1.15.0/table/merger.h:12-18 | In any list of commands a move goes to the very next place, so that an entry in several children shows once for each, if and only if it does not turn at an entry with a twin ahead |
| MergingIterator.TwinsAreSkipped | leveldb-1.15.0/table/merger.cc:59-83 | Two children with one entry and a turn that passes over the second |
| MergingIterator.MergeAll | leveldb-1.15.0/table/merger.cc:35-83 | The forward scan of a compaction yields every entry of every child exactly once, in order, and strictly sorted if no two children share one |
| VersionEditCodec.VersionEdit.EncodeTo | leveldb-1.15.0/db/version_edit.cc:41-86 | The bytes are the set fields, the pointers, the deletions in set order and the additions, laid out in numbers in the order of tags 1, 2, 9, 3, 4, 5, 6, 7 |
| VersionEditCodec.ItemIs | leveldb-1.15.0/db/version_edit.cc:14-24 | Each field in numbers: its tag byte and the numbers and strings that belong to it |
| VersionEditCodec.VersionEdit.DecodeFrom | leveldb-1.15.0/db/version_edit.cc:109-210 | On any bytes: accepts exactly the lists of tagged fields and applies them in turn; else it stops where the decoder does, with what was set by then |
| VersionEditCodec.DecodesOrNot | leveldb-1.15.0/db/version_edit.cc:109-210 | A record is accepted if and only if it is a list of fields, each a tag, numbers and strings in bounds, with levels below 7 |
| VersionEditCodec.VersionEdit.Clear | leveldb-1.15.0/db/version_edit.cc:26-39 | Everything is reset but the compaction pointers |
| VersionEditCodec.ItemRoundTrip | leveldb-1.15.0/db/version_edit.cc:41-210 | Every tagged field reads back, whatever follows |
| VersionEditCodec.EditRoundTrip | leveldb-1.15.0/db/version_edit.cc:41-210 | Every edit decodes to itself, after the pointers the object had |
| VersionEditCodec.RoundTripIsExact | leveldb-1.15.0/db/version_edit.cc:26-210 | Decoding gives back the edit if and only if the object had no pointers left |
| VersionEditCodec.ReusedEditKeepsPointer | leveldb-1.15.0/db/version_edit.cc:26-39 | A used object keeps its pointer when it decodes a record that has none |
| SkipList.List.FindGreaterOrEqual | leveldb-1.15.0/db/skiplist.h:259-278 | The first node at or after the key, and the last node before it on every level |
| SkipList.List.FindLessThan | leveldb-1.15.0/db/skiplist.h:282-299 | The last node before the key |
| SkipList.List.FindLast | leveldb-1.15.0/db/skiplist.h:302-319 | The last node, or the head |
| SkipList.List.Insert | leveldb-1.15.0/db/skiplist.h:334-367 | Adds exactly the key, in a node of the given height, to which the list rises; in the memory after every single store the list is sound and holds the old keys or the old keys and the new one |
| SkipList.InsertAll | leveldb-1.15.0/db/skiplist.h:334-367 | The stores of insertions one after the other are such a history, and add exactly the keys |
| SkipList.List.Contains | leveldb-1.15.0/db/skiplist.h:370-377 | True exactly if the key is in the list |
| SkipList.PublishKeepsGood | leveldb-1.15.0/db/skiplist.h:361-366 | Storing the predecessor's link makes the node reachable on that level and keeps the list sound |
| SkipList.LinkStep | leveldb-1.15.0/db/skiplist.h:361-366 | The two stores of one level, in their order, are each safe |
| SkipList.ReaderStepIsSafe | leveldb-1.15.0/db/skiplist.h:259-278 | A reader's load finds a set link and keeps the search on the list |
| SkipList.ReaderIsSafe | leveldb-1.15.0/db/skiplist.h:13-23 | Through any interleaving, store by store, with any insertions, a reader that starts at the head can always make its next load, never finds an unset link, and its answer is right for the memory it ends in |
| Block.BlockBuilder.Add | leveldb-1.15.0/table/block_builder.cc:73-107 | One more entry, sharing the longest prefix unless it is a restart point |
| Block.BlockBuilder.Finish | leveldb-1.15.0/table/block_builder.cc:63-71 | The block of the entries, with every n-th a restart point |
| Block.EntryDecodes | leveldb-1.15.0/table/block.cc:53-74 | Every entry reads back from where it begins |
| Block.FastPath | leveldb-1.15.0/table/block.cc:53-74 | The one-byte fast path reads what the general one would |
| Block.BlockOpens | leveldb-1.15.0/table/block.cc:18-38 | A finished block opens with its restart points in place |
| Block.Iter.ParseNextKey | leveldb-1.15.0/table/block.cc:226-253 | Rebuilds the key of the next entry from the last one |
| Block.Iter.Seek | leveldb-1.15.0/table/block.cc:165-203 | Binary search over restart points and a linear scan land on the first key at or after the target |
| Block.Iter.Prev | leveldb-1.15.0/table/block.cc:144-163 | The entry before, found from a restart point |
| Block.Iter.Next | leveldb-1.15.0/table/block.cc:139-142 | The entry after |
| Block.Iter.SeekToFirst | leveldb-1.15.0/table/block.cc:205-208 | The first entry |
| Block.Iter.SeekToLast | leveldb-1.15.0/table/block.cc:210-215 | The last entry |
| BlockLayout.BlockIsLaidOut | leveldb-1.15.0/table/block_builder.cc:5-27 | A finished block in numbers: per entry three numbers, the unshared key and the value, every n-th entry sharing nothing and the others all they can; a word for each restart point; their number |
| BlockLayout.LaidOutIsBlock | leveldb-1.15.0/table/block.cc:18-38 | A block laid out so is one the iterator reads |
| BlockLayout.Build | leveldb-1.15.0/table/block_builder.cc:63-107 | Entries added one after the other build the block in which they are laid out |
| BlockLayout.Scan | leveldb-1.15.0/table/block.cc:139-253 | A scan of a block gives back the entries that are laid out in it |
| Comparators.FindShortestSeparator | leveldb-1.15.0/util/comparator.cc:29-51 | A string in [start, limit), and start itself exactly if the first bytes that differ leave no byte between them; if it is another, no string in [start, limit) is shorter |
| Comparators.FindShortSuccessor | leveldb-1.15.0/util/comparator.cc:53-65 | A string at or after the key, and the key itself exactly if all its bytes are 0xff; if it is another, no string at or after the key is shorter |
| Comparators.FindSeparator | leveldb-1.15.0/db/dbformat.cc:68-85 | An internal key in [start, limit): start itself unless its user key can be shortened, else one with a shorter user key strictly between theirs and the greatest tag |
| Comparators.FindSuccessor | leveldb-1.15.0/db/dbformat.cc:87-99 | An internal key at or after the given one: itself unless some byte of the user key but the last is not 0xff, else one with a shorter, later user key and the greatest tag |
| Filter.KeyMayMatch | leveldb-1.15.0/util/bloom.cc:63-87 | True exactly if all probes find their bits set, or the filter is of a later format |
| Filter.ProbeIs | leveldb-1.15.0/util/bloom.cc:50-60 | The probes in numbers: the hash plus a multiple of the hash rotated right by 17 bits, cut to 32 |
| Filter.BitIs | leveldb-1.15.0/util/bloom.cc:56-57 | Bits are counted from the lowest of each byte |
| Filter.CreateFilter | leveldb-1.15.0/util/bloom.cc:35-61 | Of exact length and number of probes, matches every key it was made from, and no bit is set that no probe of such a key hits |
| Filter.FilterBlockBuilder.AddKey | leveldb-1.15.0/table/filter_block.cc:30-34 | The key joins the filter under construction |
| Filter.FilterBlockBuilder.StartBlock | leveldb-1.15.0/table/filter_block.cc:22-28 | Filters are generated until the next one is the block's; what was added stays where it is |
| Filter.FilterBlockBuilder.GenerateFilter | leveldb-1.15.0/table/filter_block.cc:52-76 | One more filter, of the keys added since the last |
| Filter.FilterBlockBuilder.Finish | leveldb-1.15.0/table/filter_block.cc:36-50 | The filter block, laid out in numbers, each filter being that of its keys |
| Filter.FilterBlockIs | leveldb-1.15.0/table/filter_block.cc:36-50 | The filters end to end, a word for where each begins, one for where those words begin, and a byte 11 |
| Filter.BlockMayMatch | leveldb-1.15.0/table/filter_block.cc:78-109 | On any contents: denies exactly if a filter is found for the offset and denies, or lies outside and is empty; in a filter block, the answer of the filter of the 2 KB the offset is in |
| Filter.LaidOutDenies | leveldb-1.15.0/table/filter_block.cc:78-109 | In a filter block the filter for the offset decides, and past the last nothing is denied |
| Table.IndexPicks | leveldb-1.15.0/table/two_level_iterator.cc:91-96 | Blocks before the one the index picks hold only keys before the target, later ones only keys after it |
| Table.TwoLevelIterator.Seek | leveldb-1.15.0/table/two_level_iterator.cc:91-96 | The first place of the whole table at or after the target |
| Table.TwoLevelIterator.SeekToFirst | leveldb-1.15.0/table/two_level_iterator.cc:98-103 | The first place of the table |
| Table.TwoLevelIterator.SeekToLast | leveldb-1.15.0/table/two_level_iterator.cc:105-110 | The last place of the table |
| Table.TwoLevelIterator.Next | leveldb-1.15.0/table/two_level_iterator.cc:112-116 | The place after, across block ends and empty blocks |
| Table.TwoLevelIterator.Prev | leveldb-1.15.0/table/two_level_iterator.cc:118-122 | The place before, likewise |
| Table.TwoLevelIterator.SkipEmptyDataBlocksForward | leveldb-1.15.0/table/two_level_iterator.cc:125-136 | Keeps the place while stepping over blocks with nothing left |
| Table.TwoLevelIterator.SkipEmptyDataBlocksBackward | leveldb-1.15.0/table/two_level_iterator.cc:138-149 | The same backward |
| Table.OneBlockIsEnough | leveldb-1.15.0/table/table.cc:216-245 | If the picked block has nothing at or after the key, the next entry of the table is for another user key |
| Table.InternalGet | leveldb-1.15.0/table/table.cc:216-245 | With the filter asked first and one block read, never misses the first entry at or after the key when that entry has the key's user key; finds something exactly if the filter does not deny the picked block and that block has an entry there |
| Table.TableBuilder.Add | leveldb-1.15.0/table/table_builder.cc:92-121 | One more entry, in the open block or a new one; the separator of a closed block is written once the next key is known, and a full block is closed |
| Table.TableBuilder.Flush | leveldb-1.15.0/table/table_builder.cc:123-137 | Closes the block and changes no entry; the next one begins after its bytes and a trailer of five |
| Table.TableBuilder.Finish | leveldb-1.15.0/table/table_builder.cc:199-254 | The table holds the blocks of the entries added, in order, with a filter for every block and, as separators, the keys on either side shortened exactly where that is possible |
| GroupCommit.BuildBatchGroup | leveldb-1.15.0/db/db_impl.cc:1237-1282 | A prefix of the queue led by its head, with no sync write under a non-sync leader, within the size bound, and as long as these allow |
| GroupCommit.StepKeepsInv | leveldb-1.15.0/db/db_impl.cc:1162-1233 | Every step of every writer keeps the protocol's invariant |
| GroupCommit.GroupCommitIsSound | leveldb-1.15.0/db/db_impl.cc:1162-1233 | Over whole runs writers are acknowledged in the order of arrival, each once, and each acknowledgement carries its writer's sync flag and, with success, its writer's batch |
| GroupCommit.SuccessMeansKept | leveldb-1.15.0/db/db_impl.cc:1180-1233 | A writer told of success has its own batch in the log and in the memtable under its sequence numbers |
| GroupCommit.IntervalsInOrder | leveldb-1.15.0/db/db_impl.cc:1180-1213 | The i-th acknowledged writer is the i-th to arrive; batches own disjoint sequence intervals in that order, without gaps between neighbours |
| GroupCommit.ContiguousUnlessFailed | leveldb-1.15.0/db/db_impl.cc:1180-1213 | Successive successful batches have contiguous numbers if and only if nothing with operations failed between them |
| GroupCommit.FailedGroupUsesNumbers | leveldb-1.15.0/db/db_impl.cc:1183-1213 | A run whose first successful batch does not have sequence number 1 |
| GroupCommit.SyncWritesAreSynced | leveldb-1.15.0/db/db_impl.cc:1194-1202 | A writer that asked for a sync and is told of success: a sync succeeded when its own batch was in the log, under its own numbers |
| GroupCommit.SyncedFollowsSteps | leveldb-1.15.0/db/db_impl.cc:1194-1202 | The log counts as synced as far as a successful sync has covered it, no further |
| GroupCommit.OutcomeIsExact | leveldb-1.15.0/db/db_impl.cc:1162-1233 | The writers of a group are told of success if and only if the log did not refuse the group and no sync that was asked for has failed since the beginning |
| GroupCommit.FailedSyncFailsAll | leveldb-1.15.0/db/db_impl.cc:1194-1208 | After a sync that was asked for fails, every writer acknowledged from then on is told of failure |
| GroupCommitContents.ContentsAreExact | leveldb-1.15.0/db/db_impl.cc:1180-1213 | While no one leads, each record of the log is the batches of a stretch of acknowledged writers under their numbers, records neither overlap nor repeat, and the memtable holds the entries of the successful batches and no others |
| GroupCommit.QueueNeverStalls | leveldb-1.15.0/db/db_impl.cc:1216-1230 | If the queue is not empty, its head leads or has a signal that wakes it to lead |
| WriteBatchCodec.OpRoundTrip | leveldb-1.15.0/db/write_batch.cc:42-109 | A put or delete reads back, whatever follows |
| WriteBatchCodec.BatchRoundTrip | leveldb-1.15.0/db/write_batch.cc:42-109 | A batch reads back as the operations put into it |
| WriteBatchCodec.Iterate | leveldb-1.15.0/db/write_batch.cc:42-80 | On any bytes: accepts exactly the lists of operations whose number is the count, and hands out the operations in order |
| WriteBatchCodec.DecodeIsReading | leveldb-1.15.0/db/write_batch.cc:42-80 | A batch is accepted if and only if from its twelfth byte on it is such a list, which is then the only one |
| WriteBatchCodec.RepIsLayout | leveldb-1.15.0/db/write_batch.cc:1-12 | The bytes of a batch in numbers: eight of sequence number, four of count, and per operation a byte 1 with key and value or a byte 0 with a key |
| WriteBatchCodec.LayoutReadsBack | leveldb-1.15.0/db/write_batch.cc:42-109 | A batch laid out so reads back |
| WriteBatchCodec.WriteBatch.Add | leveldb-1.15.0/db/write_batch.cc:98-109 | One more operation, count and body together, laid out in numbers |
| WriteBatchCodec.WriteBatch.Append | leveldb-1.15.0/db/write_batch.cc:141-145 | The other batch's operations follow |
| WriteBatchCodec.WriteBatch.SetSequence | leveldb-1.15.0/db/write_batch.cc:94-96 | The sequence number changes and nothing else |
| HandleTable.Table.Lookup | leveldb-1.15.0/util/cache.cc:58-60 | The entry of the key, if there is one |
| HandleTable.Table.Insert | leveldb-1.15.0/util/cache.cc:62-76 | The map with the key set, and the entry it replaced |
| HandleTable.Table.Remove | leveldb-1.15.0/util/cache.cc:78-86 | The map without the key, and the entry removed |
| HandleTable.Table.Resize | leveldb-1.15.0/util/cache.cc:107-131 | The same map in the shortest table, doubling from four, that is as long as it has entries |
| HandleTable.RehashedIsSame | leveldb-1.15.0/util/cache.cc:107-131 | Moving every chain to the heads of its new chains keeps the map |
| LruCache.Cache.Lookup | leveldb-1.15.0/util/cache.cc:209-218 | The entry of the key gets a reference and counts as used now; the list stays ordered by last use |
| LruCache.Cache.Release | leveldb-1.15.0/util/cache.cc:220-223 | A handle is given back; the deleter runs exactly if it was the last and the entry has left the cache |
| LruCache.Cache.Insert | leveldb-1.15.0/util/cache.cc:225-256 | The entry replaces one with its key and counts as used now, then entries are evicted until the charges fit or the list is empty; whatever goes was last used before whatever stays, no other key changes, and the caller holds one handle |
| LruCache.Cache.Erase | leveldb-1.15.0/util/cache.cc:258-265 | The key and no other leaves the cache; its entry lives on while handles are held |
| LruCache.Cache.Shrink | leveldb-1.15.0/util/cache.cc:248-253 | Evicts a prefix of the recency list, each entry last used before every one that stays; without the last eviction the charges would not fit; no held handle is lost |
| LruCache.HitIsNewest | leveldb-1.15.0/util/cache.cc:209-218 | A hit keeps the list ordered by the time of last use |
| LruCache.UseIsNewest | leveldb-1.15.0/util/cache.cc:225-246 | So does an insertion |
| LruCache.UnrefKeeps | leveldb-1.15.0/util/cache.cc:186-194 | Giving up a reference that is no longer counted restores the invariant: the last one frees the entry, gives back its charge and runs its deleter, once |
| LruCache.EvictKeepsInv | leveldb-1.15.0/util/cache.cc:186-265 | Eviction keeps the invariant: table and list agree, counts are handles plus one for the cache, usage is the charge of what is not freed, every deleter runs once |
| LruCache.AddKeepsInv | leveldb-1.15.0/util/cache.cc:225-246 | Insertion keeps it |
| LruCache.TouchKeepsInv | leveldb-1.15.0/util/cache.cc:209-218 | Lookup keeps it |
| LruCache.ReleaseKeepsInv | leveldb-1.15.0/util/cache.cc:220-223 | Release keeps it |
| Assoc.HashTable.Find | memcached-1.4.15/memcached-1.4.15/assoc.c:77-101 | The item of the key, whether or not its bucket has been moved yet |
| Assoc.HashTable.Insert | memcached-1.4.15/memcached-1.4.15/assoc.c:154-176 | The map with the item; asks for expansion past one and a half items a bucket |
| Assoc.HashTable.Delete | memcached-1.4.15/memcached-1.4.15/assoc.c:178-196 | The map without the key |
| Assoc.HashTable.Expand | memcached-1.4.15/memcached-1.4.15/assoc.c:125-144 | The same map in a table of twice the size, or nothing changed if there is no memory |
| Assoc.HashTable.MigrateBucket | memcached-1.4.15/memcached-1.4.15/assoc.c:204-239 | Moving one bucket keeps the map; the last one ends the expansion |
| Assoc.HashTable.FinishExpansion | memcached-1.4.15/memcached-1.4.15/assoc.c:204-248 | The maintenance thread moves as many buckets as the old table has left, and the next expansion may then be asked for |
| Assoc.MigrateKeepsGood | memcached-1.4.15/memcached-1.4.15/assoc.c:218-229 | A moved bucket leaves every key looked up in the table that holds it |
| Assoc.InsertKeepsGood | memcached-1.4.15/memcached-1.4.15/assoc.c:154-176 | Inserting in the table the key is looked up in keeps table and map in step, also during expansion |
| Assoc.DeleteKeepsGood | memcached-1.4.15/memcached-1.4.15/assoc.c:178-196 | So does deleting |
| Slabs.EachChunkOnce | memcached-1.4.15/memcached-1.4.15/slabs.c:220-279 | Every chunk of a class is exactly one of free-listed, in use and drained |
| Slabs.Allocator.ClsId | memcached-1.4.15/memcached-1.4.15/slabs.c:80-89 | The smallest class that fits, or 0 |
| Slabs.Allocator.SplitPage | memcached-1.4.15/memcached-1.4.15/slabs.c:186-193 | Every chunk of the page goes to the head of the free list, in turn |
| Slabs.Allocator.NewSlab | memcached-1.4.15/memcached-1.4.15/slabs.c:195-217 | The class gets the page exactly if the memory limit allows it or it has none yet, and the system has one; the bytes allotted are those of all pages |
| Slabs.Allocator.Alloc | memcached-1.4.15/memcached-1.4.15/slabs.c:220-255 | The head of the free list, or of a new page, with one reference; fails exactly if the class is out of range or has neither |
| Slabs.Allocator.Adjust | memcached-1.4.15/memcached-1.4.15/slabs.c:257-279 | The last reference puts the chunk at the head of its class's free list |
| Slabs.Allocator.RebalanceStart | memcached-1.4.15/memcached-1.4.15/slabs.c:443-494 | Starts on the first page exactly if both classes are in range and differ, there is room and the source has two pages; else the error code |
| Slabs.Allocator.MoveOne | memcached-1.4.15/memcached-1.4.15/slabs.c:515-581 | The chunk under the cursor is drained unless it is locked or has other references, and no other chunk changes |
| Slabs.Allocator.RebalanceMove | memcached-1.4.15/memcached-1.4.15/slabs.c:506-597 | Visits so many chunks and reports how many were busy; at the end of the page it is done exactly if none was in this round, every chunk being drained, and else starts over |
| Slabs.Allocator.RebalanceFinish | memcached-1.4.15/memcached-1.4.15/slabs.c:599-640 | The page changes owner with every chunk free, no page is lost or made, nothing referred to a chunk of it, and no chunk of another page and no third class changes |
| Slabs.AddPageKeepsInv | memcached-1.4.15/memcached-1.4.15/slabs.c:186-217 | Giving a class a page keeps the allocator's invariant |
| Slabs.RemovePageKeepsInv | memcached-1.4.15/memcached-1.4.15/slabs.c:599-625 | Taking a drained page from its class keeps it |
| Slabs.SlotsChange | memcached-1.4.15/memcached-1.4.15/slabs.c:220-279 | One chunk changing hands keeps it |
| Items.Cache.Link | memcached-1.4.15/memcached-1.4.15/items.c:291-312 | The item enters the table and heads its queue, stamped with the time |
| Items.Cache.Unlink | memcached-1.4.15/memcached-1.4.15/items.c:314-328 | A linked item leaves table and queue; an unlinked one is left alone |
| Items.Cache.Update | memcached-1.4.15/memcached-1.4.15/items.c:354-367 | A linked item last touched over a minute ago moves to the head with a new time; any other stays as it is |
| Items.Cache.Get | memcached-1.4.15/memcached-1.4.15/items.c:521-574 | Returns the key's item unless it is flushed or expired or lies on a page that is being moved, which unlinks it; never an item that a flush doomed |
| Items.Cache.FlushQueue | memcached-1.4.15/memcached-1.4.15/items.c:592-606 | Unlinks from the head on, only items as young as the flush, until it meets an older one |
| Items.Cache.FlushExpired | memcached-1.4.15/memcached-1.4.15/items.c:586-609 | Afterwards every linked item is older than the flush time, though each queue was walked only to its first older item |
| Items.Cache.FlushAll | memcached-1.4.15/memcached-1.4.15/memcached.c:3288-3322 | Every linked item is dead afterwards if and only if the flush time lies between 1 and now, or nothing was linked |
| Items.OldHeadsOldQueues | memcached-1.4.15/memcached-1.4.15/items.c:586-609 | Queues are sorted by time, so an old head means an old queue |
| Items.FlushedItemComesBack | memcached-1.4.15/memcached-1.4.15/memcached.c:3311-3321 | After a flush and then a delayed flush, an item that the first killed is returned again |

## Left out

- Unsynced log data lost when the machine, not the process, crashes: a crash here keeps every byte that was written.
- A crash in the middle of recovery itself; recovery is one step.
- What recovery does with corrupt logs and manifests, and database repair.
- Errors of the file system, except that a group's log write or sync may fail in `GroupCommit`; the engine's steps succeed or are not taken.
- When to compact: level scores, seek budgets, read samples and write stalls decide only which steps a run takes, and every legal choice is covered.
- `Log`: reading from an initial offset other than 0, and the reasons given with reported drops.
- Manifest and table bytes are not joined to the engine's disk as log bytes are in `LogReplay`: there a manifest record is an edit and a table its entries.
- Error paths of block and table iterators on corrupt blocks; compression, block checksums, the table footer and its handles.
- The block cache and table cache as wired into table reading; the sharding of the LRU cache.
- `Filter`: the hash function itself, the flattened key buffer of the builder (keys are a sequence), and the floating-point product that gives the number of probes, which is computed exactly.
- Filter.BlockMayMatch: a last byte of 64 or more, which no builder writes, shifts every offset to 0 here; C++ leaves such a shift undefined.
- Linked chains and doubly linked lists are sequences in `Assoc`, `HandleTable`, `LruCache`, `Slabs` and `Items`; update in place of single nodes is modelled in `SkipList` only.
- memcached's protocol, connections and threads; its operations are atomic steps, with item locks as a parameter of the page mover.
- Slabs.Allocator.Adjust: states what becomes of a chunk when its references and link change; the `requested` byte count is not kept.
- Eviction in `do_item_alloc`, and statistics everywhere.
- EngineRuns.RunRefinesMap: speaks of runs whose moves and compactions leave no older version behind and have room for their outputs, because without that it is false; the exact conditions are proved, see above.
- EngineRuns.Get: the reads of a captured version assume no crash in between.
- Table.TableBuilder.Finish: data blocks are runs of entries here; their bytes are the subject of `Block`.
- Items.Cache.FlushAll: the time is given; converting a delay to a time is not modelled.
