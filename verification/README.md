# A verified model of hat's storage engine

hat is a deduplicating backup tool. Files and directories become hash trees; the nodes of those trees
are packed into encrypted blobs; a database keeps one row per hash with its children and its place in a
blob; and a reference-counting collector deletes what no snapshot needs. This project models that
engine in Dafny and proves what the engine relies on.

| Files | What they model |
|---|---|
| `TreeShape`, `TreeShapeLaws`, `TreeHeights` | The shape of a hash tree under construction, as a pure value: which partial levels the streaming writer holds, what `hash()` makes of them, how high the result is, and which of its branches hold no chunk |
| `HashTree` | The content-addressed store and the writer that updates its levels in place |
| `TreeWalker`, `TreeRoundTrip` | The resumable stack walker, its cycle assertion, the leaf iterator, and the round trip through a tree |
| `FileReader`, `FileInsert` | Cutting a file into chunks from short and interrupted reads, storing it, and reading it back at offsets |
| `GcTables`, `GcRc` | The tables, the mark phase over a shared graph, and the counters |
| `SnapshotProtocol`, `ProtocolOps`, `ProtocolRuns`, `ProtocolOnce`, `ProtocolRecover`, `Hat` | Commit, deregister, gc, recover and resume, with a crash possible at every flush |
| `UniquePriorityQueue`, `HashQueue`, `HashIndex`, `IndexLaws` | Pending hashes, published as ready strictly in id order |
| `InsertMachine` | Several blob stores sharing one hash index, all steps interleaved |
| `Crypto`, `BlobLayout`, `Blob`, `BlobStore` | The blob format, its size bound, packing, callbacks and retrieval |
| `StoreBackend`, `TreeBackend` | One caller inserting chunks through hash index and blob store together, and the content-addressed store as its abstraction |
| `Directories`, `SnapshotLister`, `CommitPlan` | Writing directory listings, listing a snapshot, and what a commit's walk does to the collector's table |
| `RecoverNodes`, `RecoverWalk`, `Recovery`, `RecoverSnapshot` | Walking a snapshot to rebuild the hash index from it |

Code that changes state in the repository is a class or a method here, proved against functions on
values; the laws are lemmas about those functions.

## Reading the model

- **Crashes.** `GcRc.Index` has a volatile and a durable copy of the tables and records every state
  that became durable in `trace`. Each method of `Hat.Hat` is proved to pass through exactly the trail
  that `SnapshotProtocol` gives for it, and `ProtocolRuns.Next` lets an operation end in any state of
  its trail. A statement about runs is therefore one about those methods crashing at any flush.
- **Registrations.** `World.reg` is a history variable: for each snapshot whose counter transaction has
  become durable and has not been undone, the rows its listing names.
- **Walks.** The protocol takes the steps of a commit's walk from a `Plan`. `CommitPlan.CommitFollowsPlan`
  shows that the walk of any directory tree takes the steps of such a plan, and that the plan's
  references are those a listing of the snapshot yields.
- **Counts are a lower bound.** `list_unused_ids` (`src/gc/rc.rs:112-130`) leaves surviving hashes
  tagged `Reserved` and `gc` resets only blob tags (`src/hat/mod.rs:1008-1035`), so a commit right after
  a collection counts all of them; and a commit that `resume` repeats counts what its interrupted
  attempt had tagged, even if the directory no longer contains it. `RunSound` is the inequality that
  holds on every run. `RunExactIff` says over every run, and `CommitExactIff` for one commit, exactly
  when counts are exact; `SlackForever` says that a surplus never goes away. `OvercountExample` and
  `ResumeOvercountExample` show both ways to get one, and `CleanRunExact` says that there is no other:
  without collections and interruptions every operation ends with all tags cleared and counts stay exact.
- **Order of recovery.** `resume` gives up on a snapshot to be recovered whose root carries a tag of the
  collector (`src/hat/mod.rs:615-655`). While the registration of one recovered snapshot is being
  finished, its root does, and another snapshot can have the same root: `RefusedOutOfOrder`. `resume` is
  safe because unfinished snapshots are listed in the order of their row ids, as they were before the
  crash: the query asks for no order (`src/db/mod.rs:835-850`), and the model takes that one. The
  invariant says that it suffices, and `WorkFine` and `Hat.Hat.Resume` that `resume` never gives up.
- **The tree store stands for a flushed backend.** In the code a chunk whose blob has not gone out cannot
  be read: `retrieve` finds nothing (`src/blob/mod.rs:176-198`). `HashTree.ChunkStore` answers at once.
  `TreeBackend` shows what that means: the same insertions into it and into the real backend keep the
  same rows, ids, places and children; before a flush exactly the hashes that wait for their blob are not
  answered, and after one every known reference is answered with the same data.
- **Histories of walks.** `Walker.Resume` is proved against the recursive traversal `Visited`, which gives
  the order of events, and on its own against laws of the history it returns: which leaves are read
  (`Answered`), what is shown (`Genuine`), which nodes are entered and which branches left when (`Orderly`),
  and when the cycle assertion fires (`NoCycle`, `CrashedAt`).
- **First chunk of a blob.** `upperbound_len` is 0 for an empty blob (`src/blob/blob.rs:45-51`), so
  `try_append` leaves the overhead out for the first chunk. `SealableIff` gives the exact condition
  under which the assertions in `to_ciphertext` hold; `UnsealableExample` shows it can fail.
- **Records without a name.** `parse_dir_data` stops at the first record with an empty name
  (`src/hat/family.rs:171-216`). `BatchCompleteIff` says exactly when a batch is read back completely;
  the listing theorems ask for named entries.
- **Forward-only reader.** `FileReader::read` asserts that the offset is not before its buffer, unless
  it has met the end of the file, after which it returns nothing (`src/vfs/fs.rs:53-91`). The contract
  of `Read` says for every allowed call what is returned and when the end counts as met.
- **Assumptions.** Fingerprints are injective on (node, leaf type, data). Cryptographic operations are
  functions with the length and inverse laws of `Crypto.Lawful`. The tree order is at least 2.

## Model

| member | source | states |
|---|---|---|
| Tags.TagFromNum | src/tags.rs:30-44 | exactly the eight numbers of the alphabet denote a tag, each its own |
| TreeShapeLaws.PushShape | src/hash/tree.rs:218-258 | a push with its cascade of collapses either keeps the number of levels, the top one in use, or adds a level with one entry and leaves every other level empty |
| TreeShapeLaws.CollapseShape | src/hash/tree.rs:273-276 | collapsing levels bottom up leaves no chunk below the top level, whether or not a cascade on the way outgrows the old top |
| TreeShapeLaws.LoopedShape | src/hash/tree.rs:260-280 | the collapse loop ends with no chunk below the top level, although a cascade may empty a level it has yet to reach |
| TreeShapeLaws.FinishRoot | src/hash/tree.rs:260-289 | after `hash()` the top level is a single root that holds all chunks in stream order |
| TreeShapeLaws.AppendAllCounter | src/hash/tree.rs:201-258 | after n appends level i holds the i-th base-order digit of n many trees, each perfect over order^i consecutive chunks |
| TreeShapeLaws.DigitsBound | src/hash/tree.rs:189-199 | with L levels in use there are at least order^(L-1) chunks |
| TreeHeights.BuiltHeight | src/hash/tree.rs:260-289 | the reported root holds exactly the chunks and is as low as it can be: its height is the least h with order^h at least their number, or one more with file information, with which it is always a branch |
| TreeHeights.BuiltLeaves | src/hash/tree.rs:260-289 | the leaves of the reported tree, in order, are the appended chunks |
| TreeHeights.BuiltLeafless | src/hash/tree.rs:260-289 | in a tree built by one `hash()` call each height has at most one branch without chunks |
| HashTree.RepresentsUnique | src/hash/mod.rs:42-59 | a fingerprint denotes at most one tree |
| HashTree.ChunkStore.InsertChunk | src/hash/tree.rs:81-95 | a known fingerprint returns the row already there and changes nothing; otherwise exactly one row is added, under the next id, whose children are older and lower |
| HashTree.ChunkStore.FetchChunk | src/key/hash_store_backend.rs:57-72 | data is handed out only if it has the expected fingerprint |
| HashTree.LevelEncodes | src/hash/tree.rs:242-258 | what is stored for a full level lists its children in order, each with the height, type and place its own row has, and their ids in the same order |
| HashTree.SimpleHashTreeWriter.Append | src/hash/tree.rs:201-203 | the levels in the store represent the forest after one push, and no stored row changes |
| HashTree.SimpleHashTreeWriter.AppendAt | src/hash/tree.rs:205-216 | storing a node and pushing its reference at any level equals the push on the forest |
| HashTree.SimpleHashTreeWriter.AppendHashRefAt | src/hash/tree.rs:218-240 | a full level is collapsed, as the push on the forest does |
| HashTree.SimpleHashTreeWriter.CollapseLevel | src/hash/tree.rs:242-258 | collapsing a level in place equals collapsing it in the forest |
| HashTree.SimpleHashTreeWriter.Hash | src/hash/tree.rs:260-289 | the returned reference represents the root, which holds the chunks held before in the same order, however often it is called; an empty tree is one empty chunk |
| TreeWalker.Walker.Resume | src/hash/tree.rs:331-388 | for any visitor, the events are those of the recursive traversal cut at the visitor's stops and continued by the next call. Every leaf is read right after the visitor said yes to it, and no other; only branches it said yes to are opened, each is left after its last child, and what it is shown is what is stored. It terminates. The first node a call enters is not entered again by that call: where it would be, the cycle assertion fires, and only there; that cannot happen on a first call, nor for a leaf visitor on a tree with few childless branches |
| TreeWalker.Walker.EnterNode | src/hash/tree.rs:366-383 | entering a leaf reads it exactly if the visitor says yes; entering a branch puts its children on the stack, the first one on top, exactly if the visitor says yes |
| TreeWalker.HistoryConserves | src/hash/tree.rs:331-388 | along every history the nodes entered and those still awaited are those awaited before and the children of the branches the visitor said yes to, with multiplicity; the branches left and those still to be left are those it said yes to |
| TreeWalker.WalkConserves | src/hash/tree.rs:331-388 | a walk that ran to its end, whatever the visitor, entered the root and the children of exactly the branches the visitor said yes to, and left exactly those |
| TreeWalker.RestLeaves | src/hash/tree.rs:410-419 | running a stack to its end yields exactly the leaves its items still hold |
| TreeWalker.LeafIterator.Next | src/hash/tree.rs:421-428 | the next chunk of the tree in order, none once all have been returned |
| TreeRoundTrip.WriteAll | src/hash/tree.rs:201-289 | appending any chunks one by one and calling `hash()`, with or without file information, stores the tree over exactly those chunks |
| TreeRoundTrip.Drain | src/hash/tree.rs:421-428 | iterating to the end yields all chunks of the tree in order |
| TreeRoundTrip.RoundTrip | src/hash/tree.rs:149-428 | any chunks appended at any order from 2 on, with or without file information, come back chunk by chunk in order, one empty chunk for none, whatever else is stored in between |
| FileReader.FileReader.Next | src/vfs/fs.rs:41-51 | moves the buffer to the next chunk of the file, or meets the end |
| FileReader.FileReader.Advance | src/vfs/fs.rs:53-60 | ends with the offset inside the buffer, or at the end exactly when the offset is not before it |
| FileReader.FileReader.Read | src/vfs/fs.rs:72-91 | exactly the slice of the file, none exactly at or past the end, nothing once the end was met; it terminates; byte by byte what is returned is the file from the offset on |
| FileReader.JoinSlices | src/vfs/fs.rs:81-90 | a read that spans chunks is the slice of the whole |
| FileInsert.FillChunk | src/key/mod.rs:318-326 | whatever reads are short or interrupted, the buffer holds the next bytes and is short only at the end of the file or after an error |
| FileInsert.AppendFile | src/key/mod.rs:311-333 | chunks are non-empty, at most 128 KiB, all but the last full, and concatenate to the file; after a read error to a prefix of it |
| FileInsert.InsertFile | src/key/mod.rs:307-345 | the reported reference represents the tree over exactly those chunks, one empty chunk for an empty file; it is marked as file data |
| FileInsert.OpenFile | src/vfs/fs.rs:22-39 | a reader opened on a stored file, however much was stored since, has the file's bytes as content |
| FileInsert.StoreAndRead | src/vfs/fs.rs:72-91 | end to end on the tree store: storing a file and reading at two forward positions returns the original bytes |
| GcTables.TopDownDeletionClosed | src/db/mod.rs:369-384 | deleting unused rows highest first leaves no row with a missing child after any number of deletions |
| GcTables.SweptClosed | src/gc/rc.rs:112-130 | whatever the child graph looks like, what a collection keeps has all its children |
| GcRc.Index.HashListIdsByTag | src/db/mod.rs:369-384 | all rows carrying a tag, once each, highest first |
| GcRc.Index.Flush | src/db/mod.rs:532-538 | the durable state becomes the current one |
| GcRc.Index.MaybeFlush | src/db/mod.rs:520-525 | a timer flushes only while automatic flushing is on |
| GcRc.Index.SnapshotListNotDone | src/snapshot/mod.rs:103-105 | all unfinished snapshots, once each, in the order of their row ids |
| GcRc.Index.SnapshotRecover | src/db/mod.rs:879-917 | a snapshot that is not known is added as one to be recovered; a known one stays as it is |
| GcRc.MarkTree | src/gc/mod.rs:69-85 | on any finite child graph, cycles included, marks exactly what is reachable from the root through rows not marked before, changes nothing else, and terminates on the number of unmarked rows |
| GcRc.MarkedExactly | src/gc/mod.rs:69-85 | marks that are closed under children and each reached through unmarked rows are exactly the rows so reachable |
| GcRc.MarkPhaseEnd | src/gc/rc.rs:112-130 | once all roots are covered the marks are exactly the rows in use |
| GcRc.GcRc.ListUnusedIds | src/gc/rc.rs:112-130 | on any finite child graph lists exactly the rows not reachable from a row with a positive count, once each, highest first |
| GcRc.GcRc.RegisterFinal | src/gc/rc.rs:42-66 | flushes, then counts every reserved row and the final one once, and flags the final row, all in one transaction |
| GcRc.GcRc.RegisterCleanup | src/gc/rc.rs:68-77 | clears all tags |
| GcRc.GcRc.Deregister | src/gc/rc.rs:79-110 | tags exactly the listed rows, flushes, then counts each of them down once and flags the final row |
| GcRc.GcRc.Status | src/gc/rc.rs:132-138 | reads off the final row's tag how far the collector got |
| SnapshotProtocol.StepsKeepTagging | src/hat/mod.rs:724-756 | every durable state while listings are walked, for a commit or a recovery, is one in which nothing has been counted |
| SnapshotProtocol.StepsRows | src/hat/mod.rs:744-756 | a walk leaves the rows that were there as they are but for their tags, and adds exactly the rows it was given |
| SnapshotProtocol.StepsFlushed | src/db/mod.rs:520-538 | a walk makes its tables durable exactly whenever a blob went out, and whenever the timer ran out while it may still flush |
| SnapshotProtocol.CountedRegisters | src/gc/rc.rs:42-66 | the registration takes effect in one durable state, and only rows tagged without being listed gain a surplus |
| SnapshotProtocol.DroppedDeregisters | src/gc/rc.rs:79-110 | the deregistration takes effect in one durable state and no row gains or loses a surplus |
| SnapshotProtocol.RecoveredRegisters | src/hat/mod.rs:591-607 | a recovered snapshot takes effect in one durable state, and no row gains or loses a surplus |
| SnapshotProtocol.FinalizeStates | src/hat/mod.rs:776-794 | each durable state of finishing a commit is resumable; the last has nothing unfinished and no row tagged |
| SnapshotProtocol.DropStates | src/hat/mod.rs:985-1006 | each durable state of finishing a deletion is resumable; the last has nothing unfinished and no row tagged |
| ProtocolOps.ResumeDecides | src/hat/mod.rs:609-711 | in every state a crash can leave, the durable tags tell exactly whether the interrupted counter transaction happened; a snapshot being finished comes before all that wait to be recovered |
| ProtocolOps.RefusedOutOfOrder | src/hat/mod.rs:615-655 | while a registration is being finished, a snapshot to be recovered would be refused if and only if it has the same root; it always comes later |
| ProtocolOps.RecoverFine | src/hat/mod.rs:510-607 | every durable state of recovering a snapshot keeps the invariant and leaves each surplus as it was; in the last no row is tagged |
| ProtocolOps.WorkFine | src/hat/mod.rs:609-711 | working on all unfinished snapshots in order keeps the invariant and the counts in every durable state and ends with none left and, if there were any, no row tagged |
| ProtocolOps.OpFine | src/hat/mod.rs:609-711 | every durable state of every operation, recover and resume included, keeps the invariant and the counts, and the operation ends with no unfinished snapshot unless it starts a recovery; one that changes what is registered leaves no row tagged |
| ProtocolRuns.RunSound | src/hat/mod.rs:446-1035 | over every run of commits, deregistrations, collections, recoveries, crashes and resumes, also crashes within resume, the invariant holds |
| ProtocolRuns.SoundCovers | src/gc/rc.rs:42-130 | under the invariant no count is below the number of registered snapshots listing the row, and none is negative |
| ProtocolRuns.SoundCounts | src/gc/rc.rs:112-130 | under the invariant a row a registered snapshot lists counts, and a collection keeps all it reaches |
| ProtocolRuns.CollectsExactly | src/hat/mod.rs:1008-1035 | with exact counts a collection keeps exactly the rows reached from what registered snapshots list |
| ProtocolRuns.SlackForever | src/gc/rc.rs:42-130 | over every run a row that counts too much is never deleted and goes on counting at least that much too much |
| ProtocolRuns.RunExactIff | src/gc/rc.rs:42-130 | over every run counts are exact if and only if they were at the start and no step registered a snapshot while a row it does not list was tagged |
| ProtocolRuns.RunExact | src/gc/rc.rs:42-130 | if no commit attempt starts with foreign tags, every count stays exact over the whole run |
| ProtocolRuns.TagsCleared | src/gc/rc.rs:68-77 | whatever went before, a commit, deregistration or resume that runs to its end leaves no row tagged |
| ProtocolRuns.CleanRunExact | src/hat/mod.rs:446-1035 | from exact counts and no tags, every run without interruptions and collections keeps all counts exact and ends every operation without tags, whatever the snapshots list |
| ProtocolRuns.CommitExactIff | src/hat/mod.rs:724-774 | a commit, the first attempt or one repeated by resume, leaves exact counts if and only if they were exact and no row it does not list was tagged |
| ProtocolRuns.CommitAfterCollect | src/hat/mod.rs:1008-1035 | after a collection a commit keeps counts exact if and only if it lists every row the collection kept |
| ProtocolRuns.OvercountExample | src/hat/mod.rs:1008-1035 | a concrete state in which a collection and a commit over-count |
| ProtocolRuns.ResumeOvercountExample | src/hat/mod.rs:631-637 | a concrete run from an empty repository: a commit crashes after tagging, resume repeats it over a changed directory, and a row counts too much |
| ProtocolOnce.CommitAppliedOnce | src/hat/mod.rs:724-794 | a commit interrupted anywhere and resumed any number of times counts each row it lists, old or new, exactly once and any other at most once too often, or counts nothing |
| ProtocolOnce.DeregisterAppliedOnce | src/hat/mod.rs:904-1006 | a deregistration interrupted anywhere and resumed any number of times is undone exactly once, or not at all, and no row comes or goes |
| ProtocolRecover.RecoveryAppliedOnce | src/hat/mod.rs:446-607 | a recovery interrupted anywhere and resumed any number of times registers every snapshot it found, each row counting each of them exactly once, or names none and counts nothing |
| Hat.Hat.FamilyCommit | src/hat/mod.rs:744-756 | the steps of a walk as they change the tables, with a flush for each stored blob and timer |
| Hat.Hat.Commit | src/hat/mod.rs:724-774 | passes through exactly the durable states of the commit trail, and at its end no row is tagged |
| Hat.Hat.CommitFinalize | src/hat/mod.rs:776-794 | passes through exactly the durable states of the finishing trail, and at its end no row is tagged |
| Hat.Hat.Deregister | src/hat/mod.rs:904-971 | passes through exactly the durable states of the deregistration trail; an incomplete snapshot is refused and nothing changes; otherwise no row is tagged at its end |
| Hat.Hat.DeregisterFinalize | src/hat/mod.rs:985-1006 | passes through exactly the durable states of forgetting a snapshot, and at its end no row is tagged |
| Hat.Hat.Recover | src/hat/mod.rs:446-508 | names every snapshot found that was not known, in one durable state |
| Hat.Hat.RecoverSnapshot | src/hat/mod.rs:510-607 | passes through exactly the durable states of recovering a snapshot, and at its end no row is tagged |
| Hat.Hat.ResumeOne | src/hat/mod.rs:612-704 | one unfinished snapshot is taken through exactly the durable states of the protocol; refused exactly if it is to be recovered and its root is flagged; otherwise no row is tagged at its end |
| Hat.Hat.Resume | src/hat/mod.rs:609-711 | from any state a crash can leave, snapshots to be recovered included, it never gives up and ends with every snapshot done, passing through exactly the durable states of the protocol's resume; if there was anything to do, no row is tagged |
| Hat.Hat.Gc | src/hat/mod.rs:1008-1035 | keeps exactly the rows reached from one with a positive count, with children closed after every single deletion, then keeps exactly the blobs a remaining row names |
| Hat.BlobTable.Sweep | src/hat/mod.rs:1018-1032 | a blob is deleted, from the table and from storage, if and only if no hash row names it |
| Hat.BlobTable.DeleteByTag | src/blob/mod.rs:237-244 | exactly the blobs carrying the tag leave storage and table |
| OrderedCollection.PopMinWhen | src/util/ordered_collection.rs:32-42 | removes the entry of smallest key if the test holds of it, and nothing otherwise |
| UniquePriorityQueue.Queue.PutValue | src/util/unique_priority_queue.rs:46-55 | refuses a priority or key already queued, and changes nothing then |
| UniquePriorityQueue.Queue.FindKey | src/util/unique_priority_queue.rs:42-44 | finds the priority that holds a key, none exactly if no entry does |
| UniquePriorityQueue.Queue.UpdateValue | src/util/unique_priority_queue.rs:68-79 | changes the value of that key's entry only |
| UniquePriorityQueue.Queue.SetReady | src/util/unique_priority_queue.rs:81-86 | changes the status of that entry only |
| UniquePriorityQueue.Queue.PopMinIfComplete | src/util/unique_priority_queue.rs:88-94 | takes the smallest entry only if it is ready, and keeps the two maps inverse |
| HashQueue.NextInv | src/hash/mod.rs:128-208 | every step, crash included, keeps ready rows before queued ones, the queue equal to the rows that are not ready, and its first entry unfinished |
| HashQueue.RunInv | src/hash/mod.rs:128-215 | in every state of every interleaving each ready row's id is below every queued id and queued ids are exactly the rows that are not ready |
| HashQueue.SurvivorsClosed | src/hash/mod.rs:212-215 | a crash anywhere leaves exactly the durable rows that were ready, as they were; they locate their data and list only rows that are left |
| HashIndex.HashIndex.constructor | src/hash/mod.rs:212-215 | reopening drops the rows that never became ready and continues after the largest id in the durable table |
| HashIndex.HashIndex.Locate | src/hash/mod.rs:118-126 | finds a hash exactly if it has a row, and prefers what the queue knows |
| HashIndex.HashIndex.Reserve | src/hash/mod.rs:277-290 | a known hash yields its id and no change; a new one gets the next id, a row and a queue entry that hold what was asked for |
| HashIndex.HashIndex.UpdateReserved | src/hash/mod.rs:164-187 | changes the queued entry of that hash only |
| HashIndex.HashIndex.InsertCompletedInOrder | src/hash/mod.rs:189-195 | the loop publishes exactly the entries with nothing unfinished before them |
| HashIndex.HashIndex.Commit | src/hash/mod.rs:197-208 | is a commit step of the state machine and keeps its invariant |
| HashIndex.HashIndex.FetchPersistentRef | src/hash/mod.rs:248-256 | none exactly for an unknown hash, retry only while a known one has no reference |
| IndexLaws.CommitKnown | src/hash/mod.rs:189-208 | publishing changes nothing of what is known about any hash |
| InsertMachine.NextGood | src/key/hash_store_backend.rs:92-174 | every step of every interleaving keeps the invariant that ties index, blob stores and callbacks |
| InsertMachine.AssertionsHold | src/hash/mod.rs:164-187 | `update_reserved` never meets an id that is not queued under its hash, nor a callback an entry without a reference |
| InsertMachine.NeverBlocked | src/key/hash_store_backend.rs:92-174 | so no assertion ever keeps an enabled step from being taken |
| InsertMachine.RunNames | src/blob/mod.rs:100-125 | in every reachable state no store fills a blob whose name was accepted before or that another store fills |
| InsertMachine.ReadyRowsStored | src/key/hash_store_backend.rs:133-172 | in every reachable state each ready row carries the reference recorded before it was published, and if it has data, that lies in an accepted blob |
| InsertMachine.ReadyRowsPut | src/key/hash_store_backend.rs:133-172 | in every reachable state a ready row names the very blob, offset and length at which a blob store put its data, in the blob begun for it if the one before was full |
| InsertMachine.KnownRefUsable | src/key/hash_store_backend.rs:108-131 | the reference a known hash is answered with names an accepted blob or one a store is filling |
| InsertMachine.IdleQueueEmpty | src/hash/mod.rs:92-98 | once no call is under way and all callbacks have run the queue is empty and every row ready |
| InsertMachine.DurableRowsSurvive | src/blob/mod.rs:105-125 | what is ready when a blob has gone out, or the index was flushed, survives a crash unchanged, and nothing else does |
| InsertMachine.SurvivingTreesStored | src/hash/mod.rs:212-215 | after a crash anywhere everything below a surviving row survives and its data is in storage |
| Crypto.LittleEndianRoundTrip | src/crypto/mod.rs:177-181 | a length survives its eight-byte form |
| Crypto.SealedLength | src/crypto/mod.rs:410-440 | sealing lengthens a text by exactly the overhead |
| Crypto.UnsealAccessSealed | src/crypto/mod.rs:442-458 | from the end of a blob the access key and the footer ciphertext are recovered |
| Crypto.UnsealSealed | src/crypto/mod.rs:460-492 | the sealed text is recovered, and what precedes it left over |
| BlobLayout.SealableIff | src/blob/blob.rs:45-113 | a blob filled by accepted appends can be sealed if and only if its first chunk fits together with its footer entry and the overhead |
| BlobLayout.OversizedAlone | src/blob/blob.rs:54-81 | after a first chunk that does not fit with the overhead no second is accepted |
| BlobLayout.UnsealableExample | src/blob/blob.rs:45-81 | for every chunk there is a blob size at which it is accepted and can never be sealed |
| BlobLayout.AcceptsIff | src/blob/blob.rs:54-81 | a chunk is accepted exactly if all chunks, the footer that lists them and the overhead fit together; for the first one the overhead is left out |
| BlobLayout.FooterParses | src/blob/blob.rs:142-159 | parsing a footer yields the appended references in order |
| BlobLayout.ChunkAt | src/crypto/mod.rs:345-367 | each reference addresses exactly the ciphertext of its chunk |
| BlobLayout.BlobLength | src/blob/blob.rs:83-113 | a blob is as long as chunks, padding, footer and overhead together |
| BlobLayout.RefsRoundTrip | src/blob/blob.rs:124-159 | opening a sealed blob and listing its references gives back those appended, in order, up to the local blob id |
| BlobLayout.ReadRoundTrip | src/blob/blob.rs:124-163 | opening a sealed blob and reading a reference gives back its plaintext |
| BlobLayout.OpensAuthentic | src/blob/blob.rs:124-140 | no blob opens whose last bytes are not the digest of all that precedes them |
| Blob.CipherText.Collapse | src/crypto/mod.rs:202-209 | joining the pieces keeps the contents |
| Blob.CipherText.RandomPadUpto | src/crypto/mod.rs:213-218 | pads to exactly the asked length, never shortens |
| Blob.CipherText.AppendAuthentication | src/crypto/mod.rs:248-260 | the digest of the whole contents is appended |
| Blob.Blob.TryAppend | src/blob/blob.rs:54-81 | appends exactly if the size test passes and otherwise changes nothing; an empty blob that refuses means the chunk never fits |
| Blob.Blob.ToCiphertext | src/blob/blob.rs:83-113 | under the sealing condition the blob is exactly the maximum length, has the layout of the items, and everything is reset |
| Blob.BlobReader.New | src/blob/blob.rs:124-140 | opens exactly the authentic blobs; what it opens ends with the digest of what precedes it |
| Blob.BlobReader.Refs | src/blob/blob.rs:142-159 | lists what parsing the unsealed footer yields |
| Blob.BlobReader.ReadChunk | src/blob/blob.rs:161-163 | reads what the reference addresses |
| BlobStore.FlushedRetrievable | src/blob/mod.rs:105-125 | once a blob is stored each of its chunks can be retrieved and all earlier ones still can |
| BlobStore.ModelReads | src/hash/tree.rs:56-70 | a reference loses its local blob id in its serialised form and nothing else, and still retrieves the same chunk |
| BlobStore.BlobStore.Flush | src/blob/mod.rs:105-125 | sends the blob out under a fresh name, then runs the callbacks of its chunks once each, in order; with nothing in the blob nothing changes |
| BlobStore.BlobStore.RunCallbacks | src/blob/mod.rs:114-117 | callbacks run, in order, only once their chunks can be retrieved |
| BlobStore.BlobStore.Store | src/blob/mod.rs:127-174 | places the chunk in the current blob; only if it has no room there, counting all chunks, footer and overhead, that blob goes out first and a new one takes it. The reference names the id and name of the blob that holds the chunk, whose footer lists it last, with its file information. An empty chunk is not stored and its callback runs at once |
| BlobStore.BlobStore.Retrieve | src/blob/mod.rs:176-198 | fetches, opens and reads; empty references need no blob |
| BlobStore.BlobStore.IssuesAnswer | src/blob/mod.rs:176-198 | every reference handed out is answered, with its chunk, exactly once the blob that holds it has gone out |
| BlobStore.BlobStore.Play | src/blob/mod.rs:105-198 | after any stores and flushes and a last flush every reference retrieves its chunk, and the callbacks run are exactly those of the stored chunks, once each; each blob that went out did so because of a flush, or because the next chunk had no room in it |
| StoreBackend.CommitLinked | src/hash/mod.rs:189-208 | running one callback publishes only rows whose data is in storage |
| StoreBackend.HashStoreBackend.InsertChunk | src/key/hash_store_backend.rs:92-174 | a known hash changes nothing; a new one gets the next id, a row with its children and the returned reference; nothing known about other hashes changes and no other row comes or goes; the footer of its blob lists the new reference with its file information |
| StoreBackend.HashStoreBackend.InsertNew | src/key/hash_store_backend.rs:133-172 | the reference is recorded before the callback of the chunk publishes the row |
| StoreBackend.HashStoreBackend.FetchPersistentRef | src/key/hash_store_backend.rs:74-83 | finds the reference exactly of known hashes |
| StoreBackend.HashStoreBackend.FetchChunk | src/key/hash_store_backend.rs:57-72 | hands out only data with the expected hash |
| StoreBackend.HashStoreBackend.Flush | src/key/mod.rs:167-172 | nothing stays queued, and every row is ready and durable |
| StoreBackend.HashStoreBackend.KnownFetchable | src/key/hash_store_backend.rs:57-72 | the reference known for a hash yields data with that hash, exactly unless the hash still waits for its blob to go out |
| StoreBackend.HashStoreBackend.ReadyFetchable | src/key/hash_store_backend.rs:57-72 | every ready row can be fetched and yields data with its hash |
| TreeBackend.Insert | src/key/hash_store_backend.rs:92-174 | the same insertion into the tree store and the real backend issues the same id and keeps the same rows, ids, types, heights, places and children in both; the reference returned says of the row what the row says |
| TreeBackend.FetchAgrees | src/key/hash_store_backend.rs:57-72 | both answer the reference of a known hash with the same data, except that the real one has nothing to give while the hash waits for its blob |
| TreeBackend.Flush | src/key/mod.rs:167-172 | after a flush the real backend answers every known reference exactly as the tree store does |
| Directories.BatchCompleteIff | src/hat/family.rs:171-216 | reading a batch gives back exactly its records if and only if each has a name |
| Directories.ResolvedMonotone | src/hat/family.rs:409-423 | a directory in the store stays as it is while more is stored |
| Directories.Family.CommitEntry | src/hat/family.rs:451-491 | a file or directory reports the hash its record refers to; a directory is written first |
| Directories.Family.HashDir | src/hat/family.rs:425-434 | the reported reference leads to a listing that has, at every depth, one record for each entry in order, with its id, its name and what it refers to; it is marked as a listing; and the reported hashes are those of all files and directories below |
| Directories.Family.CommitToTree | src/hat/family.rs:436-501 | leaves of 1024 records each but for the last, which is not empty, hold one record for each entry in order, with its id, name and content |
| SnapshotLister.FetchDirData | src/hat/family.rs:409-423 | exactly the records of one directory's own listing, with ids and names |
| SnapshotLister.SnapshotLister.Next | src/hat/mod.rs:169-191 | the next content of the recursive listing, directories before what they contain |
| SnapshotLister.PreorderAllHashes | src/hat/mod.rs:149-201 | the hashes listed are those of all files and directories at any depth |
| SnapshotLister.ListedInOrder | src/hat/mod.rs:156-167 | a directory's entries are listed in order, each right after all that the ones before it list and before what is below it |
| SnapshotLister.ListSnapshot | src/hat/mod.rs:193-201 | lists the root and everything below it, in order |
| SnapshotLister.CommitThenList | src/hat/mod.rs:924-966 | listing a snapshot yields exactly the hashes its commit tagged, and the final one |
| SnapshotLister.CommitThenFetch | src/hat/family.rs:409-434 | fetching the listing of a directory that was committed yields its entries in order, each under its id and name and as what it is |
| CommitPlan.AddsReach | src/hash/tree.rs:81-95 | the rows a store gained, by increasing id, can be added to the collector's table one by one, children first, and then it has exactly the rows of the store |
| CommitPlan.WalkShots | src/hat/mod.rs:744-756 | the steps of a walk up to any report can be taken one after the other, and every hash reported by then has been tagged |
| CommitPlan.FlushesAnywhere | src/hat/mod.rs:744-756 | a plan stays one however timers and full blobs flush in between |
| CommitPlan.CommitFollowsPlan | src/hat/mod.rs:724-966 | for every directory tree the walk of a commit takes the steps of a plan the protocol accepts, and the rows it registers are exactly those of the hashes a listing of the snapshot yields |
| RecoverNodes.VisitedNodes | src/hat/family.rs:79-99 | a traversal that opens every branch meets every node of the tree once, parents first |
| RecoverNodes.FileLeavesUnread | src/hat/family.rs:79-99 | recovery never reads a leaf of a file: the callback marked unreachable is not reached |
| RecoverNodes.DirTops | src/hat/family.rs:101-119 | the hashes to be found are those of all files and directories below |
| RecoverWalk.DirWalker.Resume | src/hat/walker.rs:93-143 | however directories nest, each call moves what it finds from what is left to what was found, losing and repeating nothing; it makes progress or everything has been found |
| RecoverWalk.DirWalker.ResumeChild | src/hat/walker.rs:79-91 | the current file or directory is resumed first, with the same conservation |
| RecoverWalk.DirWalker.Enqueue | src/hat/walker.rs:131-139 | every listed file and directory is reported and queued, links are dropped |
| RecoverWalk.RecoverAll | src/hat/mod.rs:573-589 | the walk finds exactly every node of every hash tree below the root and the hash of every file and directory |
| Recovery.NewlyCommitted | src/hat/mod.rs:515-571 | committing a node's entry recovers it and keeps what was recovered |
| Recovery.RecoverEntry | src/hat/mod.rs:515-571 | the node's row is committed with its children's ids in order; whatever still waits is a child not seen itself |
| Recovery.RecoverEntries | src/hat/mod.rs:510-588 | all nodes of whole trees, in any order and with repetitions, leave a ready row each, of the node's type and height, whose child ids name its children in order; there are no other rows, each has the blob name, offset, length and key of a node's reference and the local id of that blob, and the queue is empty |
| RecoverSnapshot.DirClosed | src/hat/mod.rs:573-589 | the nodes found are as stored and contain all children of each |
| RecoverSnapshot.RecoverSnapshot | src/hat/mod.rs:510-607 | into an empty index: exactly the rows of the nodes below the root, ready, with type, height, place and children resolved in order, the queue empty, and the reported hashes those of all files and directories |
| RecoverSnapshot.RecoveredReads | src/hat/mod.rs:515-571 | in whatever blobs and under whatever cryptography, reading through a rebuilt row yields what reading through the reference of a node found does |
| RecoverSnapshot.CommitListRecover | src/hat/mod.rs:510-607 | three ways to the same hashes: tagged by the commit, listed for deregistration, reported by recovery, each with the final hash |

## Left out

- SQLite, Diesel, migrations and real timers: tables are maps, and a flag says whether a timer flush happens.
- CBOR and libsodium: payloads are typed values or go through an invertible codec; locking and sealing are functions with length and inverse laws, so two encryptions of one text may be equal here.
- Integer widths: row ids, offsets, counts and file sizes are unbounded; blob ids and blob lengths are taken to fit a signed 64-bit integer.
- In the collector's model a hash is its row id, and the rows a commit names are taken to be ready; `commit` itself does not flush the blob store before registering.
- The tree store takes the place of a chunk as it comes; `BlobStore` and `StoreBackend` model where that is.
- `meta_commit`, and reading the snapshot of the roots that `recover` starts from: the snapshots it names are a parameter of `Hat.Hat.Recover`.
- Garbage collection while chunks are being inserted, and the collector that does nothing.
- Crashes of the blob sweep: `gc` retags and deletes blobs after the hash rows are durable; the order within the sweep is not a crash point of the protocol.
- The read cache of the blob store, external backends, key index, path walking, metadata, checkout, FUSE, command line and thread wrappers.
- Visitors are deterministic: a visitor's reply is a function of the events so far. The one for directory trees is taken to meet tree-list leaves only; the listing of the roots snapshot is not modelled.
- Errors on the way: a listing that cannot be fetched or decoded, and assertions a corrupted blob would trip, are results `Corrupt` or `None`, or absent.
- `recover_snapshot` interleaves walking and recovering nodes; here all nodes are found first, which `RecoverEntries` shows makes no difference to the index.
- InsertMachine.NextGood: callbacks of one blob are released together and then run in any order, so it does not say that they run in the order of the chunks; `BlobStore.BlobStore.Flush` does.
- StoreBackend.HashStoreBackend.InsertChunk: one caller and one store, so the retry loop for a reference that is not there yet ends at once; the interleavings are in `InsertMachine`.
- BlobStore.BlobStore.Store: the callback of an empty chunk runs at once instead of on a thread of its own.
- Directories.Family.HashDir: entries without a name are excluded, because reading stops at them.
- Hat.Hat.FamilyCommit: the steps are a parameter; that those of a directory walk are as the protocol asks is `CommitPlan.CommitFollowsPlan`.
- Hat.Hat.Deregister: takes the listing from the snapshot row instead of walking it; that the row's references are what the walk yields is `CommitPlan.CommitFollowsPlan`.
- Hat.Hat.RecoverSnapshot: the rows its walk puts back are a parameter; which rows those are is `RecoverSnapshot.RecoverSnapshot`.
- FileInsert.StoreAndRead: there is no flush between storing and reading, because the tree store stands for a flushed backend; `TreeBackend.Flush` shows that a flush makes the real one answer the same.
