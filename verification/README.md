# EveDB, modelled and proved

This project models the core of EveDB, an embedded store for versioned entities and their events, and
proves what it promises: that commits are serial and lasting, that checkpoints change nothing a reader
can see, that cleanup deletes nothing anybody can still read, and that the bytes on disk read back as
what was written.

`dafny verify dfyconfig.toml` checks all of it.

## How it is organised

- **Meaning.** `Model` has tables, schemas, rows and events. `Histories` has an entity's history in the
  three tiers the engine keeps it in (a checkpointed record, committed events, staged events) and the one
  history they stand for. `Transactions` has the serial meaning of a transaction, `Effects` says field by field
  what its operations do, `StagedData` and `Stagings` have the class that executes one on the tiers, `Growth` and
  `Publication` the step that moves what was staged onto the newest checkpoint and into the overlay.
- **Commits.** `Conflicts` and `Coordinators` have first-committer-wins validation, group commit and
  revision pruning; `CommitQueues` the queue and its leader.
- **Crash protocol.** `Wal` and `Recovery` have the log segments, the checkpoint job and cleanup as one step
  system with kills, power losses and torn tails; `RecoveryProofs`, `CrashProofs` and `ReopenProofs` show that
  every step keeps the invariant, and `RecoveryRuns` what follows over whole runs. `KilledRecovery`,
  `DurableReads`, `RotationObstacles` and `LostCommit` are about what is shown or left before it is synced.
  `CommittedLogs` ties the log to the coordinator's.
- **Checkpoints.** `Partitions`, `Archives`, `Copying`, `Holding`, `Counting`, `Checkpoints`, `TableWriters`,
  `TablePasses`, `Numberings`, `TableBuilds`, `Occupancies` and `Manifests` have the builder: what it reuses,
  carries, moves and drains. `Installs` and `CheckpointRuns` have commits that go on during a build and the
  install that follows, `JoinedCheckpoints` the same beside the crash protocol. `CollectionPlans` chooses what
  to drain, and `Collections` puts the choice and the build together. `Overlays` and `Reclaims` have reference
  counts, pins and cleanup.
- **The engine.** `EngineStates`, `EngineSteps`, `EngineRuns` and `Engines` put staging, commits and checkpoints
  together in one object.
- **Structures and bytes.** `OrderedTrees` and `OrderedMaps` (persistent AVL trees), the `Btree...` modules
  (B+tree files), `Routing` (partitioned indexes), `PageLayouts`, `SlottedPages` and `Heaps` (pages and heap
  files), `PageCaches` (the clock cache), `Frames`, `Cursors` (bounded history reads), and the codecs of rows,
  records, tables, operations and manifests.

Objects the engine updates in place are classes here (`Staging`, `Coordinator`, `Engine`, `CommitQueue`,
`Storage`, `Overlay`, `Indexes`, `TableWriter`, `TablePass`, `IndexWriter`, `IndexFile`, `SlottedPage`,
`HeapWriter`, `PageCache`, `HistoryCursor`, `Encoder`, `Decoder`), proved against functions on values.

## Model

| member | source | states |
|---|---|---|
| `RecoveryRuns.EveryCrashRecovers` | src/evedb-core/src/database.rs:141-316 | after any run of commits, rotations, builds, publications, cleanups, kills, power losses and reopenings, reopening succeeds: exactly one checkpoint is selected, its replay gives the fold of the surviving log, and that log holds everything that was ever acknowledged |
| `RecoveryRuns.PromisesLast` | src/evedb-core/src/database.rs:1423-1566 | over every run the durable log of any moment, and so every acknowledged commit, is a prefix of the log at every later moment, crashes included |
| `DurableReads.ReadsLast` | src/evedb-core/src/database.rs:141-316 | over every run, everything any reader ever saw is durable, and so lasts, if and only if nobody read between the reopening of an unsettled store and the next sync |
| `DurableReads.ViewIsDurable` | src/evedb-core/src/database.rs:141-316 | at every moment of every run the open view goes beyond the durable log if and only if the last reopening was of a store with an unsynced transaction and no torn tail, and nothing was synced since |
| `DurableReads.SettledReopenings` | src/evedb-core/src/database.rs:141-316 | when every reopening was of a store with a torn tail or without an unsynced transaction, every open view is exactly the durable log and every read lasts |
| `CrashProofs.EveryCutIsACrash` | src/evedb-core/src/database.rs:141-316 | the crash step leaves no disk out: every way of cutting unsynced frames, returning deleted segments and leaving unfinished files is the result of some crash |
| `RecoveryRuns.OpenViewIsTheLog` | src/evedb-core/src/database.rs:141-316 | while the database is open its view is the fold of the log up to its sequence, it contains everything durable, and the log byte counter is the summed length of the frames beyond the checkpoint |
| `RecoveryRuns.EitherRootRecovers` | src/evedb-core/src/database.rs:866-900 | the newest checkpoint and the retained one before it both replay, to the same sequence and the same view |
| `RecoveryRuns.MaintenanceIsInvisible` | src/evedb-core/src/database.rs:543-680 | rotating, building, abandoning, publishing and cleaning up, at any point of any run, change neither the view, the sequence nor the log |
| `KilledRecovery.KilledViewIsDurable` | src/evedb-core/src/database.rs:141-316 | the view a reopening shows after a kill survives every later power loss if and only if the kill left a torn tail, which reopening cuts off and syncs, or no unsynced transaction frame in the active segment |
| `RotationObstacles.RotationIsSafe` | src/evedb-core/src/database.rs:576-625 | after a rotation every power loss can be recovered from if and only if no frame after the header of the segment it left is unsynced |
| `LostCommit.AcknowledgedButUnreachable` | src/evedb-core/src/database.rs:141-316 | a concrete run with two accepted table definitions, the first shown by a reopening and the second acknowledged: after a power loss no checkpoint can be reopened |
| `CommittedLogs.CommittedLogReplays` | src/evedb-core/src/database.rs:266-315 | re-executing the operations of the committed batches never fails and passes through every view the coordinator published |
| `Coordinators.Coordinator.RunGroup` | src/evedb-core/src/shared.rs:386-512 | one led group: a member in time for its validation is refused exactly for a conflict with the log or with an earlier member that passed; nobody is called too late without a deadline that some reading of the clock had reached, and nobody whose deadline had been reached commits; the rest commit as log entries of their own, and the log gains nothing else |
| `Coordinators.Coordinator.EveryRunIsSerial` | src/evedb-core/src/shared.rs:386-512 | in every reachable state the published views are the serial execution of the log, and of two committed writers of a key the later began after the earlier committed |
| `Coordinators.Coordinator.Commit` | src/evedb-core/src/shared.rs:350-385 | a transaction without operations is answered with its begin sequence and changes nothing; any other is refused for a conflict exactly when it was in time and overtaken, and commits exactly as its log entry |
| `Coordinators.Coordinator.PruneRevisions` | src/evedb-core/src/shared.rs:340-349 | exactly the revisions up to the oldest live begin are forgotten, and no conflict is lost |
| `Conflicts.StaleExactlyWhenOvertaken` | src/evedb-core/src/shared.rs:434-459 | the revision table calls a batch stale exactly when a later committed batch wrote one of its keys or changed the catalog it used |
| `Transactions.StagedPublicationIsSerial` | src/evedb-core/src/database.rs:1567-1590 | staging on an older snapshot and publishing on the current view gives the entities, events, stamps and catalog of running the transaction serially there |
| `Transactions.StagedKeys` | src/evedb-core/src/database.rs:1256-1400 | a transaction stages exactly the keys its operations name, and changes the catalog only through table operations |
| `Effects.RunMakes` | src/evedb-core/src/database.rs:1195-1400 | running a transaction on a view succeeds with a result exactly when that result comes from the effects of its operations, one after the other, each described by fields, versions and events alone |
| `Effects.ExecMakes` | src/evedb-core/src/database.rs:1256-1400 | an operation is accepted exactly when some effect of it is possible, and has exactly that effect: a creation, one more event, a moved base, nothing, or a table definition that may be made; every other entity stays as it is |
| `Effects.AppliedMeans` | src/evedb-core/src/model.rs:353-370 | an event leads to exactly the next version in which every assigned field has the assigned value, every other field keeps its value, absent ones are nullable and null, each value has its type, and only a deletion marks the entity deleted |
| `Effects.ReadsLastValue` | src/evedb-core/src/model.rs:353-370 | at every version a field reads as the last value assigned to it, or the one in the base, or null |
| `Effects.DefineMeans` | src/evedb-core/src/database.rs:1692-1742 | exactly the table definitions with a free, printable name, the next number, and a schema that keeps every field and adds only nullable ones are accepted |
| `Growth.RunOfViewsGrows` | src/evedb-core/src/database.rs:1567-1590 | along any run of serial commits an entity's history only grows at the end and is dropped only at the front |
| `Publication.StagedContinues` | src/evedb-core/src/database.rs:1434-1470 | a batch that nobody overtook staged a continuation of whatever the checkpoint recorded, whether the checkpoint was taken before or after the batch began |
| `Publication.RecordIsEarlier` | src/evedb-core/src/database.rs:1434-1470 | so the checkpoint's record of a staged entity holds an earlier part of what was staged, with the same events |
| `Publication.RebindAll` | src/evedb-core/src/database.rs:1434-1470 | rebinding changes no version of any staged entity; one that is read over another manifest is then read over the newest record, and every other over what it was |
| `Publication.CommitOne` | src/evedb-core/src/database.rs:1434-1590 | rebind, stamp, seal and insert: the tiered state afterwards shows exactly the serial execution the coordinator records, and its overlay is the old one with what was published |
| `Engines.Engine.Commit` | src/evedb-core/src/database.rs:1423-1590 | in any run of staging, commits and checkpoints, a transaction staged on any pinned state is refused exactly when somebody committed over it; otherwise the next view is the serial execution of it on the newest one, whatever was installed since it began |
| `Engines.Engine.FinishCheckpoint` | src/evedb-core/src/database.rs:629-680 | building and installing a checkpoint while commits went on changes nothing readers see; when it does not fit, nothing changes at all |
| `Engines.Engine.EveryRunIsSerial` | src/evedb-core/src/database.rs:1423-1590 | in every reachable state the views are the serial execution of the log, the newest state shows the last one, and every pinned state still shows the view it was pinned at |
| `Checkpoints.CommittedIsRecent` | src/evedb-core/src/database.rs:1571-1590 | an entity published over the record of any manifest whose files are still there may be frozen by the next checkpoint |
| `Histories.At` | src/evedb-core/src/model.rs:223-275 | over the three tiers and any choice of snapshots, reading a version gives the state its base and events define, or the exact refusal |
| `Histories.Retain` | src/evedb-core/src/model.rs:325-339 | retention moves the base to the version that keeps the last `count` events and changes no state at or above it |
| `Histories.RetentionKeepsVersions` | src/evedb-core/src/model.rs:325-339 | every version from the new base on reads as before, and the base is where the last `count` events begin |
| `Histories.Seal` | src/evedb-core/src/model.rs:340-347 | sealing moves staged events to the committed tier without changing the history |
| `Histories.Rebind` | src/evedb-core/src/database.rs:1434-1470 | reading an entity over a newer record of an earlier state of it changes no version |
| `Histories.Advance` | src/evedb-core/src/snapshot.rs:574-617 | replaying from a stored snapshot gives the same state as replaying every event |
| `Model.EvolutionKeepsRowsValid` | src/evedb-core/src/model.rs:100-139 | a complete row of any earlier schema version, with a well-typed change on top, normalises under a later one exactly when its encoding fits |
| `Model.AcceptedChangeExtends` | src/evedb-core/src/database.rs:1692-1742 | an accepted table change keeps every existing schema version and every other table, and no two tables get one name |
| `Model.TakenNameIsRefused` | src/evedb-core/src/database.rs:1692-1700 | a name that another table has is refused as existing, and only that is |
| `Model.AcceptedTableIsNext` | src/evedb-core/src/database.rs:1728-1740 | tables are numbered one after another from one, whatever changes are accepted |
| `Stagings.Staging.RunOne` | src/evedb-core/src/database.rs:1195-1255 | an operation is accepted exactly when nothing failed before, the limits admit it and the serial meaning accepts it; then what is staged shows exactly its effect on fields, versions and events, else the transaction has failed for good |
| `Stagings.Staging.Apply` | src/evedb-core/src/database.rs:1137-1193 | an assignment is followed by a snapshot when its version is a multiple of the interval, and by a retention of the configured count, and by nothing else |
| `Stagings.Staging.PayloadFits` | src/evedb-core/src/database.rs:1195-1255 | the bytes reserved while staging are the length of the payload, and an admitted transaction fits a frame |
| `Manifests.Build` | src/evedb-core/src/database.rs:682-846 | fails exactly when the generations do not fit; otherwise every table of the next manifest holds exactly the frozen state and its counters are the numbers of entities located in each generation; from each older generation exactly as many untouched entities are moved as the plan says and there are, the first ones in order; and no file is listed that is neither new nor still needed |
| `Manifests.PublishedIsFrozen` | src/evedb-core/src/database.rs:682-846 | the built manifest alone shows exactly the frozen view, and is a state the next checkpoint can start from |
| `Installs.InstallKeepsTheView` | src/evedb-core/src/database.rs:629-680 | however much was committed during the build, the built manifest under the tail shows exactly what was visible before the install, in a state that can be committed to and frozen again |
| `CheckpointRuns.NextKeeps` | src/evedb-core/src/database.rs:543-680 | every commit, freeze, install and abandonment leaves a state whose entities can all be read, from the newest manifest or an older one, and that continues the state being built |
| `CheckpointRuns.CommitShows` | src/evedb-core/src/database.rs:1567-1590 | a commit changes what it publishes in the view and nothing else |
| `CheckpointRuns.CheckpointsAreInvisible` | src/evedb-core/src/database.rs:543-680 | freezing, installing and abandoning a checkpoint change nothing readers see, whatever was committed in between |
| `JoinedCheckpoints.RunJoins` | src/evedb-core/src/database.rs:543-680 | over every run of the crash protocol, the frozen and the built view it speaks of are what the frozen state of tables and files shows, and its live view is what the newest state shows |
| `JoinedCheckpoints.FinishedBuild` | src/evedb-core/src/database.rs:629-680 | at any moment of such a run, the root the protocol goes on to publish lists the built manifest's files and holds the view those files show |
| `JoinedCheckpoints.PublishedInstalls` | src/evedb-core/src/database.rs:629-680 | publishing it leaves the protocol showing exactly what the installed manifest and overlay show |
| `TableBuilds.BuildTable` | src/evedb-core/src/database.rs:700-840 | one table: whatever is reused, carried, moved or drained, its new part holds exactly the frozen histories; as many entities are moved as each quota loses, one that stayed is where it was and its quota is used up by smaller ids; a rewrite of everything takes no older file over |
| `TablePasses.TablePass.Run` | src/evedb-core/src/database.rs:700-840 | the walk over the buckets writes exactly the frozen entities, each where the books say; every kept slot balances: still there plus dead equals what was there; and an untouched entity stays only when its quota is used up |
| `TableWriters.TableWriter.AppendEntity` | src/evedb-core/src/snapshot.rs:1047-1080 | an entity written into the new generation is held there with its whole history, and nothing else changes |
| `TableWriters.TableWriter.Carry` | src/evedb-core/src/snapshot.rs:898-907 | an entity left where it is keeps its whole history under the new slot |
| `Numberings.RebuildSlots` | src/evedb-core/src/snapshot.rs:387-412 | kept generations keep their order and move down, drained ones lose their slot, the new one is last; it fails exactly past 256 |
| `Occupancies.KeptOccupancy` | src/evedb-core/src/snapshot.rs:421-431 | the counters move to the new slots and the new generation starts at zero |
| `CollectionPlans.CollectionPlan` | src/evedb-core/src/database.rs:498-542 | the next manifest always fits its slots; without that limit the plan copies no more than the budget, and either uses it up or leaves no sparse generation and at most the configured number; sparse generations go before dense ones and the emptiest first; dense ones go only to make room, and the slot limit takes no more than it needs |
| `Collections.Survey` | src/evedb-core/src/database.rs:498-512 | what the plan is made from is right: the live entities of a generation are those located in it over all tables, and it is sparse exactly when they are less than the configured part of all it ever held |
| `Collections.Checkpoint` | src/evedb-core/src/database.rs:487-542 | a checkpoint never fails for want of slots, drops every generation nothing is located in, and moves no more than the configured number of untouched entities unless it had to fill exactly 255 slots |
| `Overlays.Overlay.Insert` | src/evedb-core/src/overlay.rs:35-77 | the reference counts stay exactly the numbers of overlay entities reading each older manifest |
| `Overlays.CountsAreNeeds` | src/evedb-core/src/overlay.rs:78-83 | the counted files are exactly those some entity of the overlay still reads |
| `Reclaims.Storage.Sweep` | src/evedb-core/src/database.rs:848-900 | cleanup deletes a file only when no reader, pin, retained checkpoint or newer state can read it, although commits and pins went on since it decided |
| `Reclaims.Storage.Mark` | src/evedb-core/src/database.rs:848-858 | cleanup keeps a file exactly when the retained checkpoint, the installed state or a pin reads it |
| `Reclaims.Storage.Clean` | src/evedb-core/src/database.rs:848-900 | a whole cleanup deletes exactly the files it did not decide to keep |
| `Reclaims.Storage.Commit` | src/evedb-core/src/database.rs:1434-1590 | a commit during a build or a cleanup needs no file that was not needed before |
| `Reclaims.Storage.Install` | src/evedb-core/src/database.rs:629-680 | the built manifest becomes the newest with the tail as its overlay, and every file anybody needs is still there |
| `Partitions.Indexes.Append` | src/evedb-core/src/partitions.rs:180-226 | an appended entry is the only one that changes, and partitions stay disjoint buckets |
| `Routing.LookupIsTotal` | src/evedb-core/src/partitions.rs:65-78 | a lookup never fails and sees an entry exactly when some partition holds one |
| `Routing.FloorIndex` | src/evedb-core/src/partitions.rs:79-97 | the floor over disjoint partitions is the greatest key not above the probe |
| `Routing.ScanIndex` | src/evedb-core/src/partitions.rs:98-124 | a scan yields exactly the keys between its bounds, in order |
| `Routing.ReusedResolves` | src/evedb-core/src/partitions.rs:50-63 | through any number of manifests a reused partition's locators resolve to the generation they were written in |
| `Cursors.VisitEvents` | src/evedb-core/src/model.rs:276-324 | the walk over the tiers yields the events of the range once each and in order, as far as the limits allow |
| `Cursors.HistoryCursor.NextBatch` | src/evedb-core/src/cursor.rs:103-194 | a batch is as long as the limits allow, only an event too big on its own or an interruption fails, and the cursor lets go of its view when it ends |
| `Cursors.History` | src/evedb-core/src/cursor.rs:197-245 | a cursor is refused exactly for empty limits, a version without an event, or a reversed range; each of its limits is the smaller of the one asked for and the one of the engine |
| `Cursors.Collect` | src/evedb-core/src/cursor.rs:280-330 | unless interrupted the collector returns every retained event once and in order exactly when each fits a batch and together they fit a result |
| `OrderedTrees.InsertItems` | src/evedb-core/src/ordered_map.rs:213-233 | insert replaces the entry of its key and nothing else |
| `OrderedTrees.RemoveItems` | src/evedb-core/src/ordered_map.rs:111-141 | remove drops the entry of its key and nothing else |
| `OrderedTrees.JoinBalances` | src/evedb-core/src/ordered_map.rs:142-167 | balanced trees of any two heights join into a balanced tree at most one level taller than the taller one |
| `OrderedTrees.RemoveBalances` | src/evedb-core/src/ordered_map.rs:111-141 | removing an entry keeps the tree balanced |
| `OrderedTrees.RetainItems` | src/evedb-core/src/ordered_map.rs:168-180 | dropping a prefix keeps exactly the entries from its key on |
| `OrderedMaps.OrderedMap.Floor` | src/evedb-core/src/ordered_map.rs:54-66 | the entry with the greatest key not above the probe |
| `OrderedMaps.Collect` | src/evedb-core/src/ordered_map.rs:188-212 | draining a range iterator yields exactly the entries between its bounds, in order |
| `BtreeReads.Decode` | src/evedb-core/src/storage/index.rs:152-192 | decoding accepts a node exactly when its keys, children and links are in order |
| `BtreeReads.LookupAt` | src/evedb-core/src/storage/index.rs:285-297 | descending finds an entry exactly when the tree's contents have one for the key |
| `BtreeReads.FloorAt` | src/evedb-core/src/storage/index.rs:298-311 | the greatest item at or below the probe, or nothing when there is none |
| `BtreeScans.Scan` | src/evedb-core/src/storage/index.rs:312-390 | a drained scan yields exactly the items between its bounds, in order, across leaves |
| `BtreeWrites.IndexWriter.Append` | src/evedb-core/src/storage/index.rs:75-105 | an entry in key order is added to what was written; one out of order is refused |
| `BtreeWrites.IndexWriter.FinishPart` | src/evedb-core/src/storage/index.rs:110-141 | the finished file is a well-formed tree that holds exactly the appended entries |
| `BtreeFiles.FileStays` | src/evedb-core/src/partitions.rs:168-226 | a finished tree reads the same whatever pages are added to its file |
| `BtreeFiles.IndexFile.AddPart` | src/evedb-core/src/partitions.rs:168-226 | a partition's tree goes behind those already in its index file; it holds exactly its entries, and so does each earlier one |
| `SlottedPages.FromBytes` | src/evedb-core/src/storage/page.rs:98-143 | a page is accepted exactly when it holds some records, packed; otherwise the error names the first check that fails |
| `SlottedPages.SlottedPage.Insert` | src/evedb-core/src/storage/page.rs:181-203 | a record is appended exactly when it and its entry fit; a refusal changes no byte |
| `SlottedPages.SlottedPage.Get` | src/evedb-core/src/storage/page.rs:204-215 | the record of a slot, or nothing for a removed or missing one |
| `SlottedPages.SlottedPage.Replace` | src/evedb-core/src/storage/page.rs:216-237 | a live record is replaced exactly when the page still holds it all; a refusal changes no byte |
| `SlottedPages.SlottedPage.Remove` | src/evedb-core/src/storage/page.rs:238-252 | a live slot is emptied, the others keep their numbers and records, and it never fails |
| `Heaps.HeapWriter.Append` | src/evedb-core/src/storage/heap.rs:48-80 | a record is stored at a fresh location, inline or as a chain; refused exactly past 16 MiB or when the file is full |
| `Heaps.HeapWriter.Finish` | src/evedb-core/src/storage/heap.rs:81-88 | the finished file holds every record that was appended, at its location |
| `Heaps.ReadBuffer` | src/evedb-core/src/storage/heap.rs:92-155 | what is stored at a location of a finished file is what reading it returns |
| `PageCaches.PageCache.Page` | src/evedb-core/src/storage/pager.rs:204-232 | a cached page is the one its file holds, and the cache stays within its limit |
| `PageCaches.PageCache.Evict` | src/evedb-core/src/storage/pager.rs:323-334 | within two sweeps the clock finds a slot that is empty or not referenced; a page used since the hand last passed it goes only when every page was |
| `CommitQueues.CommitQueue.Submit` | src/evedb-core/src/commit_queue.rs:59-80 | refused exactly when a limit would be passed; otherwise last in the queue |
| `CommitQueues.CommitQueue.Cancel` | src/evedb-core/src/commit_queue.rs:81-92 | a request is cancelled exactly while it waits, and the others keep their order |
| `CommitQueues.CommitQueue.Claim` | src/evedb-core/src/commit_queue.rs:93-110 | the group is the longest run from the front within the bounds, and never empty while requests wait |
| `CommitQueues.CommitQueue.Finish` | src/evedb-core/src/commit_queue.rs:111-121 | every claimed request gets its own result exactly once, and the counters stay exact |
| `CommitQueues.CommitQueue.LoseLeader` | src/evedb-core/src/shared.rs:514-531 | a leader that unwinds refuses everything it still holds, and the queue goes on |
| `Frames.ReadAll` | src/evedb-core/src/storage/frame.rs:88-110 | any prefix of a log reads as its complete frames in order, and ends where the last of them ends |
| `RowCodecs.RowParses` | src/evedb-core/src/model.rs:377-443 | an encoded row decodes to itself wherever it stands |
| `RowCodecs.RowTakes` | src/evedb-core/src/model.rs:363-443 | whatever order its entries stood in, a decoded row took exactly its encoded length |
| `RecordCodecs.EntityRoundTrip` | src/evedb-core/src/model.rs:444-472 | a stored entity reads back as itself |
| `RecordCodecs.EventRoundTrip` | src/evedb-core/src/model.rs:473-504 | a stored event reads back as itself |
| `RecordCodecs.RecordsTake` | src/evedb-core/src/model.rs:444-504 | bytes accepted as an entity or an event are exactly as long as its encoding |
| `TableCodecs.TableParses` | src/evedb-core/src/model.rs:505-570 | an encoded table with its schema versions decodes to itself |
| `TableCodecs.TableTakes` | src/evedb-core/src/model.rs:527-570 | a decoded table took exactly its encoded length |
| `ManifestCodecs.RootRoundTrip` | src/evedb-core/src/snapshot.rs:105-350 | an encoded manifest decodes to itself, and is refused exactly when it is damaged: clashing tables, partitions or counters, generations out of order, references to nothing, or missing files |
| `OperationCodecs.PayloadRoundTrip` | src/evedb-core/src/database.rs:1631-1691 | recovery reads back exactly the operations a commit wrote |
| `OperationCodecs.PayloadTakes` | src/evedb-core/src/database.rs:1601-1691 | bytes accepted as a payload are as long as the accounting of its operations says |
| `OperationCodecs.EncodeOperations` | src/evedb-core/src/database.rs:1631-1670 | the encoder appends exactly the payload |
| `OperationCodecs.DecodeOperations` | src/evedb-core/src/database.rs:1671-1691 | the decoder returns what the payload says, and refuses an empty one or trailing bytes |
| `Payloads.AcceptedPayloadReadsBack` | src/evedb-core/src/database.rs:1256-1691 | every list of operations a transaction accepted decodes from its frame to the same list |
| `Payloads.NormalizedRowFits` | src/evedb-core/src/model.rs:100-139 | a row that normalises fits the record limit as it is stored |

## Findings

Reopening after a kill replays complete frames that the operating system kept although they were never
synced, but it syncs the log only when it cuts off a torn tail (src/evedb-core/src/database.rs:141-316). So
what it shows readers may not be durable yet, and a rotation that follows leaves those frames behind in a
segment nobody syncs again.

- `KilledRecovery.KilledViewIsDurable`: the view shown after a kill and a reopening survives every later power
  loss if and only if the kill left a torn tail, which reopening cuts off and syncs, or no transaction frame of
  the active segment is unsynced.
- `RotationObstacles.RotationIsSafe`: after a rotation every power loss can be recovered from if and only if
  no frame after the header of the segment it left is unsynced. A caller can check this before rotating, and
  syncing the segment first makes it true.
- `DurableReads.ReadsLast` and `DurableReads.ViewIsDurable`: over whole runs, the view is ahead of the durable
  log exactly from the reopening of an unsettled store until the next sync, and what is read then is all that
  can be lost. `DurableReads.SettledReopenings` is the condition to check before reopening.
- `LostCommit.AcknowledgedButUnreachable`: a run in which a rotation was not safe. A table definition is
  written, the process is killed before the sync, the database is reopened and shows it, a checkpoint rotates
  the log, a second table definition is acknowledged, and the power fails. The first frame is gone, every
  replay finds a gap, and no checkpoint can be opened. The first definition was shown but never acknowledged;
  the second was acknowledged (`acked` is 2 because the second sync answers for the whole log).

The theorems of `RecoveryRuns` therefore ask one thing of a run, `Orderly`: a rotation begins only when the
active segment is `Rotatable`, the condition of `RotationIsSafe`. Nothing else is assumed about kills, power
losses, torn tails, or views that are not durable yet.

## Left out

- The disk as a device: reads, writes, directory entries and file locks are not modelled; syncing a segment
  makes all its frames durable, and a new file's directory entry is durable with its first sync.
- Checksums detect a cut, not an arbitrary change: `Frames` and `SlottedPages` take the checksum as any
  function with a 32-bit result, so corruption that keeps a checksum is not excluded.
- `Coordinators.Coordinator.RunGroup`: does not answer the limit on log bytes or a failing write, because each
  refuses or fails the whole group at once; a failing write and the poisoned state after it are steps of
  `Recovery`.
- An entity's checkpointed history in `Histories` and `Publication` is a value; that the builder's files hold
  such a value is proved in `Manifests`, and reading it through caches and files is not composed with it.
- `ManifestCodecs.RootRoundTrip`: takes the manifest's maps as the sequences in which they are written, and
  the file digests as numbers; that a file's bytes have its digest is not modelled.
- `Engines.Engine.Commit`: commits one transaction at a time and never for want of time; groups, deadlines and
  the pruning of revisions are in `Coordinators`.
- `JoinedCheckpoints.RunJoins`: what the tables and files do beside a step of the protocol is given: a sync
  commits to them what it publishes, and a reopening ends with the tables that show the replayed log.
- `history_generations` and `history_compacted` of a manifest; whether a build rewrites histories or indexes
  is a parameter of `TableBuilds.BuildTable`.
- Compression of records (src/evedb-core/src/snapshot.rs:761-824) and the packing of a slot and a location
  into one 64-bit locator, with the exhaustion of its ranges.
- Saturation of byte counters, memory accounting, permits and admission limits other than those of a
  transaction and of the commit queue.
- The rounding of the density threshold, computed in floating point in the program: `Collections.Survey`
  compares real numbers.
- `Partitions.Indexes.Append`: does not model the limit on partitions under construction, because it only
  refuses work.
- `OrderedTrees.InsertItems`: keys are integers, as in the B+tree, because only their order matters; sharing
  of nodes between versions is what makes the trees persistent and is not a property of values.
- Strings are bytes; UTF-8 validity is not modelled, so a name or text that is not UTF-8 is not refused.
- Clocks, deadlines and cancellation are oracles that may answer at any check; leases and the background
  reaper, and the scheduling of background maintenance, are not modelled.
- Recovery takes the log as frames with lengths; `Frames` proves that bytes are read as such frames.
- The command line, the network protocol and the other crates.
