# A replicated cell store, verified

The program keeps a table of cells on many devices without a server. Every write is an operation stamped by a
hybrid logical clock; the highest operation of a cell wins; replicas exchange what lies above each other's
frontiers; a compaction drops what everyone has. This project models that engine in Dafny and proves what the
parts promise together: what a frontier says about cells, why compaction does not break it, why replicas end
equal, why sessions end, and why the fast forms of storage give the same answers as the simple ones.

`dafny verify dfyconfig.toml` checks all of it.

## How it is built

- `Texts`, `Hlcs`, `Clocks`: UTF-16 texts, timestamps and their text form, the clock as a value, as a packed
  Lamport clock and as an object.
- `Json`, `Utf8`, `Printer`: canonical JSON as a function, the proof that it reads one way only, its bytes, and
  the buffer-writing printer. `Reader`, `Shortest`: a strict reader of canonical texts, and why the printed string
  is the shortest.
- `Ops`, `Payload`: operations, frontiers, validation, the signed payload and its text spelled out.
- `Replicas`: one replica as a value (log, cells, frontier, live and persisted clock, recorded peers) and every
  step of the engine on it. `Compaction`: the rule, and the planner's loops against it.
- `Storage`, `Engine`, `Sessions`, `Replication`: the classes `MemoryAdapter`, `SyncEngine` and `Replicator`
  with their fields and loops, and `syncOnce` on two engines. Each method's contract says that the object,
  viewed as a value, moves exactly as the pure step says; the theorems are about the steps.
- `ReadBack`, `ClockRange`, `Remembered`: reading what one wrote, encrypted or not; when a store can no longer be
  opened; what a replica remembers over any calls and openings.
- `Histories`, `SyncRuns`, `Observed`, `Coverage`, `TombstoneGc`, `Resurrection`: runs at the granularity of `syncOnce`.
- `Gossip`, `Catchup`: runs in which parts of logs travel as packets that are lost, repeated and delayed.
- `QuietNetwork`, `Links`, `Reunion`, `Completion`, `Acks`: runs of replicators that handle messages; `Completion`
  shows that the sessions `Reunion` speaks of exist, from every start. `Greetings`, `OneHello`, `LiveTail`, `Records`,
  `ExactRecords`, `Copies`, `Spaces` say of each kind of message what it is for. `Sizes` bounds the text of an
  operation.
- `OpOrder`, `Sqlite`, `IndexedDb`: sorted answers, and the two adapters' queries.

Operation ids and frontier entries are timestamps as triples, and devices are 128-bit numbers: `Hlcs.EncodeOrder`
is why comparing the program's strings is the same. Signatures, hashing, verification and the cipher are
uninterpreted functions. Where a result needs it, it says that a key pair verifies what it signs, or that no two
of the keys in play share an id: `known` is the finite set of keys that devices hold and messages carry, and
`Sessions.CollisionFree` is asked of that set only. A locked section of the engine is one step. `hide` in a proof
keeps a definition out of it.

## Where the code gives less than its comments or its documents say

- packages/core/src/replicator.ts:10-13 says that lost or reordered messages can only delay convergence. An
  `ops` message that arrives while an earlier operation of the same device is missing moves the frontier over
  the gap, and the gap is never asked for again (`Catchup.LostForGood`). The condition under which nothing is
  skipped is `Gossip.GapFree`: per writer, the batch holds everything the sender holds between the receiver's
  frontier and the batch's top. It is exact (`Catchup.GapFreeExactly`), a full diff meets it, and on an in-order
  link every chunk meets it when its turn comes; live-tail messages that overtake catch-up do not.
- Reclaiming tombstoned rows is safe if writers do not write to rows they saw deleted and every replica that
  compacts, with reclamation or without, has recorded all others (`TombstoneGc.NoResurrection`). This is
  sufficient; that only the reclaiming replicas have is not: `Resurrection.ReclaimedRowReturns` is a run from the
  initial state.
- Section 8.1 of PROTOCOL.md prescribes RFC 8785, which in section 3.2.2.2 makes a lone surrogate an error; the
  code escapes it, and the model follows the code.
- The key directory is not persisted (packages/core/src/engine.ts:76-77). Until it has met their keys again a
  reopened replica refuses every batch with an operation of another device: of honest batches it admits exactly
  those within the size limit that are all its own (`Sessions.ReopenedKnowsNobody`), and
  two reopened replicas sync as if only they two were known (`Sessions.ReopenAndSync`). So the results of `Links`
  and `Reunion` are per session, and start from replicas that can verify what they hold.
- A row scan of the browser adapter is right for every table and row asked for. A table scan for a text that is a
  table, a separator and a row also meets that row's cells, and lists what the cut makes of their keys
  (`IndexedDb.IdbAdapter.ListRows`, `IndexedDb.TableRange`).
- packages/core/src/engine.ts:205-209 says that nothing is applied when a call throws. After a range error the
  clock in memory stays out of range; an update without columns, or an empty batch, then succeeds and persists
  it, and the next opening is refused. `ClockRange.RefusedExactly` says that stores are refused after exactly such
  calls, `ClockRange.Lockout` makes them.

## Model

| member | source | states |
|---|---|---|
| Hlcs.Compare | packages/core/src/hlc.ts:71-76 | negative, zero or positive exactly as the first timestamp is below, equal to or above the second |
| Hlcs.DecodeEncode | packages/core/src/hlc.ts:44-64 | every valid timestamp encodes to 50 units and decodes back to itself |
| Hlcs.EncodeDecode | packages/core/src/hlc.ts:55-64 | a text decodes exactly when it is well formed, and encoding the result gives the text back, so a timestamp has one text |
| Hlcs.EncodeOrder | packages/core/src/hlc.ts:66-76 | comparing encodings as strings is comparing timestamps by millis, counter and device; equal texts mean equal timestamps |
| Clocks.NowIsLamport | packages/core/src/hlc.ts:117-132 | on R = millis·65536 + counter, rollover included, a local event is R' = max(R+1, pt·65536), and it fails exactly when R' leaves the 48-bit range |
| Clocks.ReceiveIsLamport | packages/core/src/hlc.ts:140-164 | an accepted remote timestamp is R' = max(R+1, remote+1, pt·65536) over all four branches; it is refused, changing nothing, exactly when it is more than the drift allowance ahead |
| Clocks.DriftBound | packages/core/src/hlc.ts:117-164 | over any run with wall clocks at most P, however wrong the observed clocks: R never falls, and stays within max(R0, (P+300000)·65536+65535) plus the number of events |
| Clocks.SendsAreCausal | packages/core/src/hlc.ts:110-164 | over any run, a timestamp sent is strictly above everything sent before and everything accepted before |
| Clocks.HybridLogicalClock.Issue | packages/core/src/hlc.ts:117-132 | the in-place branches compute the clock function on the old state, which a range error leaves changed |
| Clocks.HybridLogicalClock.Witness | packages/core/src/hlc.ts:140-164 | the in-place branches compute the receive function on the old state; a drift error changes nothing |
| Replicas.BatchDrift | packages/core/src/engine.ts:230-236 | checking drift on the highest timestamp of a batch rejects exactly when some operation of the batch is too far ahead |
| Json.ReadPrinted | impl/dart/lib/src/canonical.dart:100-140 | reading a printed string undoes every escape and finds the closing quote, whatever follows it |
| Json.CanonicalInjective | packages/core/src/signing.ts:30-39 | two values with the same canonical text are the same value (objects up to key order) |
| Utf8.CanonicalWellPaired | impl/dart/lib/src/canonical.dart:120-136 | the canonical text of any value, lone surrogates in its strings included, has no unpaired surrogate |
| Utf8.EncodeInjective | packages/core/src/op.ts:116-121 | well-paired texts with the same UTF-8 bytes are the same text |
| Ops.SignedPayloadInjective | packages/core/src/op.ts:107-121 | two wire operations with the same signed bytes agree on all seven signed fields |
| Ops.PayloadBindsOp | packages/core/src/op.ts:107-121 | no two operations that differ in more than the signature share signed bytes |
| Ops.ValidateExactly | packages/core/src/op.ts:46-71 | validation accepts exactly the wire forms of admissible operations, and the operation it accepts is determined by the wire form |
| Printer.LoneSurrogate | impl/dart/lib/src/canonical.dart:142-155 | true exactly for a surrogate without its partner beside it |
| Printer.WriteUnit | impl/dart/lib/src/canonical.dart:103-137 | the branches append exactly the printed form of one code unit, pairs raw and lone surrogates escaped |
| Printer.WriteCanonicalString | impl/dart/lib/src/canonical.dart:99-140 | the index loop appends exactly the printed string, which is the shortest text there is for it (`Shortest.PrintedIsShortest`) |
| Printer.SortKeys | impl/dart/lib/src/canonical.dart:49-58 | the keys of the map, each once, ascending by code unit |
| Json.SortedAscending | impl/dart/lib/src/canonical.dart:49-58 | the specification of key order ascends: of any two keys, the earlier is below the later by code unit |
| Json.SortedUnique | impl/dart/lib/src/canonical.dart:49-58 | a sequence that ascends and holds exactly the keys is that one: key order leaves no choice |
| Printer.Write | impl/dart/lib/src/canonical.dart:27-71 | the buffer-writing recursion appends exactly the canonical text of the value |
| Printer.WriteArray | impl/dart/lib/src/canonical.dart:39-47 | the item loop appends exactly the canonical text of the array |
| Printer.WriteObject | impl/dart/lib/src/canonical.dart:48-69 | the sorted key loop appends exactly the canonical text of the object, whatever order its keys come in |
| Ops.AboveIsUnseen | packages/core/src/op.ts:95-99 | an operation is above a frontier exactly when the frontier does not cover it |
| Replicas.FrontierUnion | packages/core/src/op.ts:101-106 | advancing by a batch covers what was covered and whatever is at or below some operation of the batch from the same device, nothing else |
| Replicas.CellsUnion | packages/core/src/engine.ts:346-363 | the winners after a batch cover what they covered and whatever is at or below some operation of the batch on the same cell, and every winner is an old one or from the batch |
| Replicas.CommitConsistent | packages/core/src/engine.ts:341-370 | the mutation path keeps the invariant: cells are the per-cell maximum of the log and every logged operation is at or below the frontier |
| Replicas.MergeConsistent | packages/core/src/engine.ts:229-257 | so does a remote batch, accepted or refused, with duplicates inside it or not |
| Replicas.MergeJoins | packages/core/src/engine.ts:229-257 | an accepted batch adds exactly its operations to log, frontier and cells, and the count returned is the number of operations that were not logged |
| Replicas.DeliverAllJoins | packages/core/src/engine.ts:210-257 | a whole series of accepted batches adds exactly the union of the batches |
| Replicas.DeliveryOrderIrrelevant | packages/core/src/engine.ts:210-257 | the same operations in any order, batching and number of copies end in the same log, cells and frontier |
| Engine.RefusalChangesNothing | packages/core/src/engine.ts:205-257 | a batch refused for its size, for the shape or signature of any operation, or by the clock, changes nothing, but for the clock in memory after a range error; it is refused for size, shape or signature exactly when one of them is wrong, and for drift exactly when none is and some operation is too far ahead |
| Histories.LocalOpsRise | packages/core/src/engine.ts:178-185 | operations of one write get strictly rising timestamps of the own device, all above the clock before |
| Histories.LocalOpsCarryDrafts | packages/core/src/engine.ts:178-185 | one operation per column, in order, with the column's cell and its value, sealed unless the column is the tombstone |
| Histories.WriteKeepsIds | packages/core/src/engine.ts:324-339 | no operation ever issued anywhere has the id of a new one |
| Histories.WritesAreCausal | packages/core/src/engine.ts:117-132 | restarts included, a new local operation is above everything its replica ever applied and is the winner of its cell there |
| Storage.MemoryAdapter.GetRow | packages/core/src/storage.ts:91-93 | absent exactly when no cell of the row is stored, else the row's winners by column |
| Storage.MemoryAdapter.ListRows | packages/core/src/storage.ts:95-97 | each row with a cell in the table, once |
| Storage.MemoryAdapter.ListTables | packages/core/src/storage.ts:99-101 | each table with a cell, once |
| Storage.MemoryAdapter.GetWinner | packages/core/src/storage.ts:107-109 | the stored winner of the cell, if any |
| Storage.MemoryAdapter.HasOp | packages/core/src/storage.ts:103-105 | whether an operation with the id is logged |
| Storage.MemoryAdapter.OpsSince | packages/core/src/storage.ts:111-119 | the logged operations above the frontier in the one ascending order |
| Storage.MemoryAdapter.AllOps | packages/core/src/storage.ts:141-145 | the whole log in the one ascending order |
| Storage.MemoryAdapter.OpCount | packages/core/src/storage.ts:137-139 | the number of logged operations |
| Storage.MemoryAdapter.SetPeerFrontier | packages/core/src/storage.ts:151-153 | one entry replaced, the others kept |
| Storage.MemoryAdapter.ApplyBatch | packages/core/src/storage.ts:173-191 | log, cells, frontier and clock become old ones plus the batch in one swap; no empty row or table appears |
| Storage.MemoryAdapter.Compact | packages/core/src/storage.ts:155-171 | exactly the named operations and cells are gone, and rows and tables left empty with them |
| Storage.WriteCells | packages/core/src/storage.ts:178-186 | writing winners into the nested maps overrides exactly their cells in the flat view and leaves nothing empty |
| Storage.DropCells | packages/core/src/storage.ts:158-168 | dropping cells removes exactly them from the flat view and prunes what becomes empty |
| Storage.WithoutCellFlat | packages/core/src/storage.ts:159-168 | removing a cell from the nested maps, pruning what becomes empty, removes that cell and no other |
| OpOrder.Sort | packages/core/src/storage.ts:117-117 | the same operations in ascending order |
| OpOrder.AscendingUnique | packages/core/src/storage.ts:111-119 | a set of operations has only one ascending order |
| Engine.SyncEngine.Open | packages/core/src/engine.ts:113-132 | the stored identity, or the new one now stored; only what was persisted is left of the replica; a persisted clock out of range is refused |
| ClockRange.RefusedExactly | packages/core/src/engine.ts:113-132 | over any calls on a replica that was in range: its store is refused exactly when some call was an update of no column or a batch of no operation and came after a range error, the store not having been opened in between |
| ClockRange.CallSaves | packages/core/src/engine.ts:229-257 | a call persists a clock out of range exactly when it is such an empty call while the live clock is out of range, or the persisted one was |
| ClockRange.CallMovesLive | packages/core/src/hlc.ts:117-164 | the live clock leaves its range exactly with a range error, and only opening takes it back |
| ClockRange.Lockout | packages/core/src/engine.ts:113-132 | on a new store: an update at 2^48 milliseconds fails, an empty update or an empty batch succeeds, and opening the store is refused |
| Engine.ReopenIsRestart | packages/core/src/engine.ts:113-132 | opening a store gives the replica that filled it, but for the clock in memory |
| Engine.SyncEngine.LearnKey | packages/core/src/engine.ts:100-111 | learned exactly when the key hashes to the claimed id; every key held hashes to its id |
| Engine.SyncEngine.Update | packages/core/src/engine.ts:177-185 | the class state after the call is the pure local write of one operation per column, encrypted when there is a cipher, failures included |
| Engine.SyncEngine.Delete | packages/core/src/engine.ts:187-192 | the pure local write of a true tombstone, after which the row does not show |
| Engine.SyncEngine.MakeLocalOp | packages/core/src/engine.ts:324-339 | a validated operation at the next tick, its value encrypted under its id when there is a cipher and it is no tombstone, then signed; or the tick's or the validation's error with the clock advanced |
| Engine.SyncEngine.Commit | packages/core/src/engine.ts:341-370 | the loop over pending and stored winners, persisted once, is the pure commit: per-cell maximum, advanced frontier, log and clock |
| Engine.SyncEngine.ApplyRemoteOps | packages/core/src/engine.ts:205-257 | size, shape and signature first, refusing without any change; then exactly the pure merge |
| Engine.SyncEngine.Unknown | packages/core/src/engine.ts:238-243 | the operations not logged, first occurrences only |
| Engine.SyncEngine.ReceiveHighest | packages/core/src/engine.ts:230-236 | the clock observes the maximum of the batch |
| Engine.SyncEngine.ObserveRemoteClock | packages/core/src/engine.ts:259-273 | a malformed text, drift or range error leaves the store alone; else the advanced clock is persisted and nothing else, so that it outlives a restart (`Remembered.WritesAboveObserved`) |
| Engine.SyncEngine.RecordPeerFrontier | packages/core/src/engine.ts:277-284 | the peer's entry is replaced; the own device is never recorded |
| Engine.SyncEngine.Compact | packages/core/src/engine.ts:295-313 | a dry run changes nothing, else the state is the pure compaction; the statistics count it; the blockers are the lagging peers in ascending order |
| Engine.SyncEngine.WinningCells | packages/core/src/compaction.ts:195-207 | the three nested loops gather exactly the stored cells |
| Engine.SyncEngine.Get | packages/core/src/engine.ts:136-142 | present exactly when the row is visible, with exactly its cells that are not cleared, decrypted where they are marked as encrypted |
| Engine.SyncEngine.DumpState | packages/core/src/engine.ts:154-166 | the nested loops build exactly the materialized state, decrypted: visible rows and their cells that are not cleared; the rows are met in ascending order of table and row |
| ReadBack.ReadYourWrites | packages/core/src/engine.ts:321-390 | with a cipher or without, after a write a reader finds in every column written, if its row shows, the very value given, and nothing where null was given |
| Engine.WriteReady | packages/core/src/engine.ts:168-192 | a write keeps the engine's invariant: exact cells, frontier over the log, persisted clock over the frontier |
| Engine.MergeReady | packages/core/src/engine.ts:229-257 | so does a remote batch |
| Engine.FreshIds | packages/core/src/engine.ts:238-243 | whatever a batch contains, what is taken from it has new and distinct ids |
| Sessions.SyncOnce | packages/core/src/engine.ts:414-437 | any two engines end exactly as the sync of their replicas under the united directory says, complete or refused at either half, and both then hold that directory |
| Sessions.AdmittedExactly | packages/core/src/engine.ts:210-228 | a batch of honest operations is admitted exactly when it is not too large and the key of every writer is held |
| Sessions.HonestSync | packages/core/src/engine.ts:423-437 | over honest logs that sync is the pure sync in which exactly the devices of the united directories are known |
| Sessions.VerifiableSync | packages/core/src/engine.ts:423-437 | between replicas that can verify what they hold every writer is known, nothing is refused for a key or a signature, and both can verify what they then hold |
| Sessions.ForeignStopsSync | packages/core/src/engine.ts:423-437 | one operation of an unknown device in the first diff leaves both replicas as they were |
| Sessions.LearnAll | packages/core/src/replicator.ts:165-171 | taking over a directory adds exactly its entries that hash to their ids |
| Sessions.AnswerAdmitted | packages/core/src/engine.ts:219-227 | a batch of a verifiable log, not larger than the limit, is admitted by everyone who holds the sender's keys |
| Sessions.MergeVerifiable | packages/core/src/engine.ts:217-257 | what was admitted verifies under the keys held |
| Sessions.WriteVerifiable | packages/core/src/engine.ts:330-338 | what a replica writes verifies under its own key |
| Sessions.ReopenedKnowsNobody | packages/core/src/engine.ts:76-88 | right after opening, an honest batch is admitted exactly when it is not too large and all the replica's own: the directory is not persisted |
| Sessions.ReopenAndSync | packages/core/src/engine.ts:113-132 | two stores opened again and synchronised, nobody else having met them, end as the pure sync in which only the two devices themselves are known |
| SyncRuns.RunSound | packages/core/src/engine.ts:423-437 | in any run of writes, syncs, compactions, clock observations and restarts: unique ids, exact cells, frontiers over logs, clocks over frontiers, no recorded frontier above the peer's own |
| Coverage.RunCovered | packages/core/src/engine.ts:346-370 | in every such run without tombstone reclamation: an operation ever issued at or below a replica's frontier has a winner at least as high there, even if it was compacted away |
| Coverage.DroppedIsCovered | packages/core/src/compaction.ts:74-90 | in every such run what a compaction removes is covered by the present cells of every recorded peer |
| Coverage.RunsOrdered | packages/core/src/op.ts:95-106 | in every reachable state a frontier within another means winners at or below the other's, cell by cell |
| Coverage.RunsConverge | packages/core/src/engine.ts:200-203 | in every reachable state two replicas with empty diffs have equal cells and equal dumps |
| Coverage.EqualFrontiersConverge | packages/core/src/engine.ts:414-422 | in every reachable state equal frontiers mean equal cells and equal dumps |
| Coverage.SyncIsMaximum | packages/core/src/engine.ts:423-437 | a complete sync leaves both replicas with the cellwise maximum of their prior states, even if either had compacted |
| Coverage.SyncFrontiers | packages/core/src/engine.ts:423-437 | in runs without compaction a complete sync also leaves both frontiers at their pointwise maximum |
| Coverage.SyncedPairCompacts | packages/core/src/engine.ts:414-437 | two replicas that know only each other compact to exactly one operation per cell right after a complete sync, because of the frontiers it records |
| TombstoneGc.RunGc | packages/core/src/compaction.ts:130-148 | the invariant of disciplined runs with reclamation: what a frontier covers is logged or covered by everyone, tombstones keep reclaimed rows hidden, only tombstones of them are ever sent |
| TombstoneGc.NoResurrection | packages/core/src/compaction.ts:130-180 | a row any replica reclaimed is never visible again on any replica, when nobody writes to a row it saw deleted and every replica that compacts has recorded all others |
| TombstoneGc.GcRunsConverge | packages/core/src/engine.ts:423-437 | with reclamation too, two replicas with empty diffs show the same |
| Resurrection.ReclaimedRowReturns | packages/core/src/compaction.ts:130-148 | the second premise cannot be weakened to the reclaiming replica alone: there is a run of nine steps from the initial state, writers disciplined and whoever reclaims knowing all others, in which a reclaimed row is visible again where it was reclaimed |
| Resurrection.RowComesBack | packages/core/src/compaction.ts:130-148 | the six steps of it after the three writes: a plain compaction on a replica that knows only one peer brings the row back |
| Gossip.QuiescentRunsConverge | packages/core/src/replicator.ts:172-193 | with chunks, loss, repetition, interruption and compaction in between, under the delivery hypothesis: when all pairwise diffs are empty every replica holds exactly the last writers of everything ever issued |
| Gossip.QuiescentRunsAgree | packages/core/src/replicator.ts:172-193 | and all replicas then have equal cells and equal dumps |
| Gossip.RunInv | packages/core/src/engine.ts:346-370 | at every point of those runs every issued operation below a frontier is below that cell's winner there or beaten by one still above the frontier, in every replica and every packet |
| Gossip.CompactionDropsAbsorbed | packages/core/src/compaction.ts:74-90 | whatever a compaction removes, each recorded peer has seen, and its present cells cover it or something it has yet to see beats it |
| Gossip.RunsHaveUniqueIds | packages/core/src/hlc.ts:117-132 | no two distinct operations of a run share an id |
| Catchup.InOrderChunkIsGapFree | packages/core/src/replicator.ts:172-182 | on an in-order link each chunk of an answer meets the delivery hypothesis once the chunks before it were accepted, however both sides wrote, compacted and restarted in between |
| Catchup.FullDiffGapFree | packages/core/src/engine.ts:429-433 | a full diff meets the delivery hypothesis |
| Catchup.GapFreeExactly | packages/core/src/op.ts:101-106 | an accepted batch skips nothing if and only if the delivery hypothesis holds of it |
| Catchup.LostForGood | packages/core/src/replicator.ts:10-13 | two operations of which only the later arrives: the first is covered by the frontier, missing from the cells and in no later diff, contrary to the comment |
| Compaction.CompactionHorizon | packages/core/src/compaction.ts:74-90 | a timestamp is below the computed horizon exactly when the own frontier and every recorded peer frontier cover it |
| Compaction.LowerBy | packages/core/src/compaction.ts:84-87 | every entry becomes the lower of itself and the peer's, a missing one the lowest |
| Compaction.BlockingPeers | packages/core/src/compaction.ts:92-107 | exactly the recorded peers behind in some entry, in ascending order; none exactly when everything seen here is below the horizon |
| Compaction.PlanCompaction | packages/core/src/compaction.ts:113-193 | the plan names exactly the superseded operations below the horizon and the operations and cells of doomed rows, and the counters partition the log into removed, kept winners and above the horizon |
| Compaction.DoomedRows | packages/core/src/compaction.ts:130-148 | exactly the tombstoned rows none of whose operations is above the horizon |
| Compaction.SweepCells | packages/core/src/compaction.ts:176-180 | exactly the cells of doomed rows, also those whose operation is gone already |
| Compaction.CompactConsistent | packages/core/src/compaction.ts:157-174 | compaction keeps the replica invariant, tombstone reclamation on or off |
| Compaction.CompactInvisible | packages/core/src/compaction.ts:157-180 | no row appears or disappears and the dump is unchanged |
| Compaction.CompactIdempotent | packages/core/src/compaction.ts:119-193 | an immediate second plan is empty |
| Compaction.CompactMinimal | packages/core/src/compaction.ts:168-173 | when no peer lags exactly one operation per remaining cell is left |
| Replication.Replicator.Handle | packages/core/src/replicator.ts:137-203 | the handler changes peers, keys and replica and sends messages exactly as the pure handler says, for all five kinds and for ignored messages |
| Replication.Replicator.HandleHello | packages/core/src/replicator.ts:145-164 | key, clock, greeting back to a new peer only, keys, question, in that order; a refused clock stops after the key |
| Replication.Replicator.HandleSince | packages/core/src/replicator.ts:172-183 | the peer's frontier is recorded (`Records.TellersAreRecorded`), then keys and the chunks of the sorted diff |
| Replication.Replicator.HandleOps | packages/core/src/replicator.ts:184-193 | acknowledged exactly when something new was applied |
| Replication.Replicator.SendHello | packages/core/src/replicator.ts:110-119 | the greeting of the node as it stands: the latest retained timestamp, or the zero timestamp (`Greetings.HelloIsLatest`), and its key |
| Replication.Replicator.SendChunks | packages/core/src/replicator.ts:219-221 | the index loop sends exactly the consecutive slices of at most 500, to one peer or to everyone (`LiveTail.ChunksSpellAll`) |
| Replication.Replicator.Start | packages/core/src/replicator.ts:75-100 | greets once |
| Replication.Replicator.Stop | packages/core/src/replicator.ts:102-108 | stopped, with no peer known |
| Replication.Replicator.SendKeys | packages/core/src/replicator.ts:121-133 | the whole directory, addressed |
| Replication.Replicator.LiveTail | packages/core/src/replicator.ts:88-96 | local operations go out to everyone in consecutive slices, while started |
| QuietNetwork.QuietNetworksFallSilent | packages/core/src/replicator.ts:145-198 | with no new writes, in any order and with any loss, the number of messages ever handled is at most an explicit measure of strangers, questions, answers and chunks |
| QuietNetwork.ReceivedPays | packages/core/src/replicator.ts:137-203 | what a message makes a node send, to everyone, weighs less than the message and the strangers it met |
| QuietNetwork.StepQuiet | packages/core/src/replicator.ts:88-96 | no message brings an operation into circulation that was not in some log or message: remote operations are not forwarded |
| Links.AnswersAlwaysVerify | packages/core/src/replicator.ts:121-133 | when no two keys in play share an id: on links that keep order and lose nothing, through writes, greetings and compactions, an answer is never refused for an unknown device, a bad signature or a malformed operation |
| Links.RunInv | packages/core/src/engine.ts:100-111 | within such a session every key held hashes to its id and every logged operation has its key and verifies, on every node |
| Links.ReceivedSane | packages/core/src/replicator.ts:137-198 | no message makes a node forget a key or send an operation whose key it did not send before |
| Reunion.SilentSessionsAgree | packages/core/src/replicator.ts:145-193 | when everyone has said hello on in-order links, nobody wrote and no clock refused, once the links are empty every replica holds everything the replicas held together, with equal cells and frontiers |
| Reunion.SessionKeeps | packages/core/src/replicator.ts:145-193 | until then what a replica started with is, for every other, announced, asked for, on its way or held, and no replica skips an operation |
| Completion.EverySessionCanEnd | packages/core/src/replicator.ts:145-198 | and every such start has such a session: there are greetings and deliveries, none refused, after which the links are empty and everyone holds everything, however many replicas and operations, while clocks leave the room stated |
| Completion.ASessionExists | packages/core/src/replicator.ts:145-198 | in particular for two replicas of which one holds an operation and the other does not know its author |
| Completion.DeliverSpends | packages/core/src/replicator.ts:137-203 | a delivery costs less than it takes off the links: the measure of what is on the way, of strangers and of silent nodes falls |
| Completion.HeadInTime | packages/core/src/hlc.ts:140-164 | at a wall clock no later than anything around, no clock refuses the next message, and all clocks move by at most one |
| Acks.RecordsNeverAhead | packages/core/src/replicator.ts:172-198 | through messages, writes and compactions no recorded peer frontier exceeds that peer's own |
| Acks.DroppedWasSeen | packages/core/src/compaction.ts:74-90 | so whatever a compaction drops, tombstoned rows included, every recorded peer has seen |
| Sqlite.SqliteAdapter.OpsSince | packages/adapter-sqlite/src/index.ts:234-256 | per-device index queries, a scan for unlisted devices and a sort give the same sequence as the plain filter-and-sort by text, for every log and whatever texts came as a frontier, nothing twice |
| Sqlite.SpelledDiff | packages/core/src/op.ts:95-99 | for texts that spell a frontier it is the sequence the memory adapter gives |
| Sqlite.RowIsWanted | packages/adapter-sqlite/src/index.ts:234-256 | the filter on a row of the table is the filter on the operation stored there |
| Sqlite.SqliteAdapter.OpsAboveFor | packages/adapter-sqlite/src/index.ts:184-186 | exactly the device's rows above the timestamp text |
| Sqlite.SqliteAdapter.InsertOp | packages/adapter-sqlite/src/index.ts:161-164 | an insert with a known id changes nothing, another one adds the operation |
| Sqlite.WantedIsAbove | packages/core/src/op.ts:95-99 | comparing texts with the texts of a frontier is comparing timestamps with it |
| Sqlite.ClusteredAscending | packages/adapter-sqlite/src/index.ts:187-187 | the primary key's order is the order of timestamps |
| IndexedDb.IdbAdapter.GetRow | packages/adapter-idb/src/index.ts:70-79 | for any table and row asked for, valid names or not: the same answer as the cell map gives |
| IndexedDb.IdbAdapter.ListRows | packages/adapter-idb/src/index.ts:81-89 | for any text: exactly the rows of the table, and, for a text that is a table, a separator and a row, what cutting that row's keys leaves; nothing of the kind for a text without a separator |
| IndexedDb.IdbAdapter.ListTables | packages/adapter-idb/src/index.ts:91-97 | exactly the tables with a cell |
| IndexedDb.IdbAdapter.Put | packages/adapter-idb/src/index.ts:192-203 | storing a winner under its key replaces its cell and no other |
| IndexedDb.IdbAdapter.RangeScan | packages/adapter-idb/src/index.ts:207-218 | exactly the records between the prefix and the prefix with the highest code unit |
| IndexedDb.RangeIsPrefix | packages/adapter-idb/src/index.ts:207-212 | over keys without the highest code unit the range holds exactly the keys with the prefix |
| IndexedDb.TableRange | packages/adapter-idb/src/index.ts:81-89 | the scan for a text meets a cell exactly when the text is the cell's table, or its table, a separator and its row |
| IndexedDb.RowRange | packages/adapter-idb/src/index.ts:70-79 | the scan for a table and row meets a cell exactly when it is of that row |
| IndexedDb.CutKey | packages/core/src/storage.ts:77-80 | cutting a key at its separators gives table, row and column back |
| IndexedDb.CellKeyInjective | packages/core/src/storage.ts:77-80 | cells with valid names have distinct keys |
| Shortest.PrintedIsShortest | impl/dart/lib/src/canonical.dart:99-140 | of all the texts that read as a string, without control units and unpaired surrogates, the printed one is the shortest and the only one that short: no needless escape |
| Shortest.PrintedIsPlain | impl/dart/lib/src/canonical.dart:99-140 | the printed string is such a text |
| Shortest.BytesAreShortest | packages/core/src/op.ts:116-121 | of all byte sequences in the shape of one character that stand for it, its bytes are the shortest and the only ones that short |
| Reader.ReadBack | impl/dart/lib/src/canonical.dart:27-71 | a strict reader, independent of the printer (no whitespace, literals to the letter, keys ascending, each once), reads every canonical text back as its value, whatever follows that cannot belong to a number |
| Payload.SignedTextIs | packages/core/src/op.ts:107-121 | the signed bytes are those of one text, given literally: the domain, then the seven fields by name in this order, with nothing in between |
| Payload.EncodedUnits | packages/core/src/hlc.ts:44-53 | a timestamp text is 50 units, lowercase hexadecimal but for the dashes after the twelfth and after four more |
| Ops.DomainSeparated | packages/core/src/signing.ts:18-22 | the signed bytes of an operation are never the bytes of the canonical text of a value |
| Remembered.WritesAboveObserved | packages/core/src/engine.ts:259-272 | a replica that has accepted a timestamp, by a greeting, and is opened again writes strictly above it and above its former clock |
| Remembered.NoticedStaysBelow | packages/core/src/engine.ts:229-272 | over any calls and openings: every timestamp accepted, in a greeting or in a batch, new or known, stays below every later local operation |
| Observed.ObservedStaysBelow | packages/core/src/engine.ts:259-272 | in runs of writes, syncs, compactions and openings: after an accepted greeting every later write of the device is above its clock |
| Remembered.LastRecordCounts | packages/core/src/engine.ts:277-284 | over any calls the frontier recorded last of a peer is the one on record |
| Remembered.RecordsComeFromCalls | packages/core/src/engine.ts:277-284 | nobody is on record but by its own call, and a replica never records itself |
| ReadBack.PlainReadsAsItself | packages/core/src/cipher.ts:37-39 | under a cipher a value written without one reads as itself, unless it is a text that begins with the mark |
| ReadBack.MarkedIsDecrypted | packages/core/src/cipher.ts:37-39 | a text that begins with the mark is decrypted, whoever wrote it |
| ReadBack.RowShows | packages/core/src/engine.ts:134-142 | a row written to shows unless its tombstone is true: the one written if it is among the columns, else the one that was there; a false tombstone restores the row |
| ReadBack.UpdateReads | packages/core/src/engine.ts:177-185 | after an update of a row that is not deleted the row shows with the values given, its other columns and all other rows as they were, with a cipher or without |
| ReadBack.DeleteHides | packages/core/src/engine.ts:187-192 | after a delete that row is hidden and no other, with a cipher or without |
| Records.TellersAreRecorded | packages/core/src/replicator.ts:172-198 | a question or an acknowledgement that is not ignored is on record with its frontier, in the session and in the store, and its sender stays on record through every later step |
| Records.OnlyToldIsRecorded | packages/core/src/replicator.ts:137-203 | no other message changes the record |
| Records.DroppedWasSeenByTellers | packages/core/src/compaction.ts:74-90 | whatever a compaction drops, everyone who ever asked or acknowledged has seen |
| ExactRecords.TwoAreExact | packages/core/src/replicator.ts:184-198 | after a silent session of two replicas each has exactly the frontier of the other on record, because what is applied is acknowledged |
| ExactRecords.AgreedAreExact | packages/core/src/replicator.ts:145-183 | however many replicas hold the same: after they greeted and fell silent every record is exact |
| ExactRecords.TwoCompact | packages/core/src/compaction.ts:157-180 | then two replicas that know nobody else compact to exactly one operation per cell |
| Compaction.CompactReclaims | packages/core/src/compaction.ts:130-180 | when no peer lags and tombstones may go, no deleted row is left |
| Greetings.HelloIsLatest | packages/core/src/replicator.ts:110-119 | a greeting carries the one timestamp that is retained and not below any retained operation, or zero if there is none |
| Greetings.GreetedStaysBelow | packages/core/src/replicator.ts:145-164 | once a replica has accepted a greeting, everything it writes is above everything the greeter retained when it said it |
| Greetings.HellosAreSaid | packages/core/src/replicator.ts:110-119 | every greeting on a link was said by its sender as it then stood |
| Greetings.HelloTeachesKey | packages/core/src/replicator.ts:145-147 | a genuine key in a greeting is learned, even when the clock is refused |
| Greetings.HelloCarriesKey | packages/core/src/replicator.ts:110-119 | it hashes to the greeter and verifies what the greeter writes |
| Greetings.RefusedHelloIsSilent | packages/core/src/replicator.ts:145-164 | a greeting with a refused clock is not answered, and its sender not met |
| OneHello.OneHelloIsEnough | packages/core/src/replicator.ts:145-164 | among replicas that have not met, one hello by anyone and silence are enough for all to hold everything, because greeted replicas greet back |
| LiveTail.ChunksSpellAll | packages/core/src/replicator.ts:219-221 | operations go out in batches of 1 to 500, to whom they are meant for, that spell out all of them once and in order |
| LiveTail.WriteGoesOut | packages/core/src/replicator.ts:88-96 | after a write of a started replica every outgoing link ends in batches to everyone that spell out what was issued |
| LiveTail.LiveTailArrives | packages/core/src/replicator.ts:88-96 | and once it has read the link, whoever held the writer's key holds every operation issued, unless its clock refused or its compaction removed it |
| Copies.SecondCopy | packages/core/src/replicator.ts:10-13 | a message heard again changes nothing but clocks, a second copy of a batch is not acknowledged, a second hello not greeted back |
| Copies.CaughtUpIsSilent | packages/core/src/replicator.ts:172-183 | a question of someone who has seen everything gets no answer |
| Spaces.SpacesNeverMix | packages/core/src/replicator.ts:137-143 | however replicas of different spaces share links, a replica never holds an operation that was not in its own space or issued there |
| Spaces.NotForMe | packages/core/src/replicator.ts:137-143 | messages of another space or version, one's own, and those meant for someone else change nothing and are not answered |

## Left out

- TombstoneGc.NoResurrection: one direction only; the hypotheses (disciplined writers, every compacting replica
  knows all others) are sufficient; that the second cannot be asked of reclaiming replicas alone is shown
  (`Resurrection.ReclaimedRowReturns`), but the two together are not an exact condition.
- Gossip.QuiescentRunsConverge: the delivery hypothesis is a premise of each delivery; live tail and message loss
  outside it appear only as the witness `Catchup.LostForGood`.
- Catchup.InOrderChunkIsGapFree: answers on one link; restarts of the session are covered by the runs of `Gossip`,
  not by the message handlers.
- Coverage.SyncFrontiers: for runs without compaction; after a compaction the receiver's frontier can be lower than
  the sender's, because the top operation of a device may be gone.
- Reunion.SilentSessionsAgree: nobody writes or compacts during the session, clocks refuse nothing, and at its
  start each replica holds all it has seen; sessions with compaction are covered by `Gossip`.
- QuietNetwork.QuietNetworksFallSilent: bounds messages; that a replicator is stopped and started again, which
  clears its peers, is outside the quiet network.
- Engine.SyncEngine.Update: the row's columns come as a list with the wall clock at each turn; row-id generation is
  not modelled.
- Engine.SyncEngine.Get: a cipher decrypts whatever carries the mark; that it may throw on a wrong key or a
  tampered text is not modelled.
- Engine.SyncEngine.DumpState: the state is one map by row, with the order in which rows were met beside it; the
  order of columns is not captured.
- Sessions.HonestSync: about logs whose operations are well formed and signed by the owners of their devices; other
  logs are covered by `Sessions.SyncOnce`, in terms of what each side admits.
- Completion.EverySessionCanEnd: some order of deliveries at suitable wall clocks, not every order; for every order,
  `Reunion.SilentSessionsAgree` and the bound of `QuietNetwork`.
- Resurrection.ReclaimedRowReturns: one run; which weaker premises would do is left open.
- ExactRecords.TwoAreExact: of two replicas; among more, whoever applies an operation acknowledges it to the one it
  came from only, so a third party's record can lag until the next round of greetings (`ExactRecords.AgreedAreExact`).
- LiveTail.LiveTailArrives: on links that keep order and lose nothing; what arrives over a gap moves the frontier over
  it (`Catchup.LostForGood`).
- OneHello.OneHelloIsEnough: for replicas that have not met in the session; one that knows a peer already does not
  greet it back.
- Shortest.PrintedIsShortest: about strings; the lengths of numbers are those of their numerals.
- ClockRange.RefusedExactly: batches are taken after validation; a batch refused before that changes nothing.
- Engine.SyncEngine.MergeLocked: the check of shape and signature happens in the same step as the locked section,
  though the program does it before taking the lock.
- Storage.MemoryAdapter.Compact: cells are named by table, row and column; the composite text keys and their
  splitting are modelled in `IndexedDb`.
- Storage.MemoryAdapter.ListRows: in some order; the insertion order of the maps is not captured.
- Replication.Replicator.Handle: one atomic step; the handler's awaits let other mutations in between. Keys are
  byte sequences, without the hex of the wire, and frontiers in messages are already timestamps; malformed ones are
  covered at the adapter (`Sqlite.SqliteAdapter.OpsSince`).
- Clocks.HybridLogicalClock.Issue: wall clocks are integers.
- Json.CanonicalInjective: numbers are numerals, that is, number-to-text printing is taken to be injective over
  characters that cannot delimit JSON; the check for non-finite numbers goes with it.
- Ops.ValidateExactly: the size limit counts the units of the canonical text, whose length does not depend on
  field order; the type checks of untyped input are replaced by types.
- Sqlite.SqliteAdapter.OpsSince: the table is a sequence clustered on its primary key; SQL itself, transactions,
  JSON columns and the other statements are not modelled.
- Peer-frontier recording of the SQL and browser adapters, which read, await and write; the atomic form is modelled.
- Transports (WebRTC, BroadcastChannel, manual pairing), the signaling server, user-interface bindings and demos:
  input and output.
- Ed25519, SHA-256, the cipher and key derivation: library code, uninterpreted here or left out; that hashing
  keeps the keys in play apart is a premise where it is used.
- The schema package, ULID generation, the listing of a table's rows, subscriptions and change events: only easy
  members.
- The rest of the Dart port, which repeats the TypeScript engine.
