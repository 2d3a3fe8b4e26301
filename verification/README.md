# A verified model of the diagram board's core algorithms and protocols

The repository is a collaborative system-design board. This project models the parts of it whose correctness is far
from obvious, and proves what they are for:

- **Design rules** (`packages/graph`): the graph index, Tarjan's search with an explicit stack of frames, the longest
  chain through its components, and the three rules that report their results. (`Graph`, `GraphIndex`, `Tarjan`,
  `LongestPath`, `Rules`, over `Reachability`)
- **Stored boards** (`apps/server/src/persistence`): the numbered log of updates, split into archived and live rows, with
  snapshots folded out of it; the repository over memory as the class it is; the two-step read of the database
  repository between which rows may move. (`Storage`, `MemoryRepository`, `PgRepository`)
- **Write-ahead persistence** (`apps/server/src/sync/roomPersistence.ts`): the queue as a class, and a state machine over
  every point where its code can be interrupted; when it has the board compacted; what is lost and what is stored when a
  room is left or closed. (`WriteAhead`, `RoomPersistence`, `Compactions`, `Draining`, `Leaving`, `Closing`)
- **Private rooms** (`apps/server/src/sync/encryptedRoom.ts`): the ciphertext log and the room as classes, and any number
  of instances compacting one stored board by snapshots that clients make; the log together with the queue that writes
  it, and what the announced update counters promise.
  (`CipherLog`, `EncryptedRoom`, `SnapshotProgress`, `PrivateAcks`, `PrivateQueue`)
- **Rooms on several instances** (`apps/server/src/sync/rooms.ts`): the exchange of updates, sync requests and replies.
  (`RoomSync`, `LiveSync`)
- **The cap on concurrent writes** (`LimitedWrites`), **drawing order by fractional keys** (`ZOrder`), **the comparison
  of two reviews** (`Overlap`, `ReviewDiff`), **integers, state vectors and persisted clocks on the wire** (`Codec`), and **the
  token bucket of a connection** (`TokenBucket`).

`Sequences`, `Sorting`, `Options` and `Documents` hold what several of them need.

Code that changes state step by step is a method or a class here, tied by its postcondition to a function of its inputs
or of the state before; the properties are then proved of those functions, over every input or every run.

## What the proofs rest on

- A document is the set of changes it holds, and merging is union. A state vector names the insertions of a document;
  deletions do not show in it, which is why a sync reply is always sent. Causal gaps inside one client's changes are a
  matter of the document library, not of this model.
- Building a snapshot agrees with replaying the updates it was built from (`Storage.Agrees`); this is asked of the
  `build` argument where it is needed.
- A key generator meets the contract `ZOrder.Generates`: given bounds in order it returns so many ascending keys strictly
  between them. `ZOrder.HalvingGenerates` shows that the contract can be met. Keys are real numbers, that is, a dense
  total order; an identifier is a string of code units.
- Writer lease: a room becomes the writer, is closed as a non-writer, or is reopened only while no earlier task is queued
  or running, and these do not overlap; `leaseBusy` and `closing` (apps/server/src/sync/rooms.ts:475-496) are there for
  that. `WriteAhead.ActivatingEarlyWouldBreakIt` shows that the promise is needed.
- Loading a board is one atomic step, as in the memory repository; only `updatesSince` is modelled with its two reads
  apart. Transactions of the database repository take effect one after the other, as its row lock makes them.
- Private rooms: a client's answer, however late, contains every envelope that client had been sent (or had sent itself)
  when the request named in the answer was put to it; ids of requests are not used again; what others send under that id
  may be anything. The answer and its installation are one step; envelopes with equal hashes are equal; an update keeps its connection and its
  counter wherever it is relayed. What is said of stored updates is said of those that are envelopes, since the room
  relays no others.
- Convergence is claimed for rooms of normal boards only. A private room offers other instances just the entries not yet
  folded into a snapshot (apps/server/src/sync/encryptedRoom.ts:447).
- Numbers are unbounded integers or reals. JavaScript's numbers are exact for integers up to 2^53 - 1, which is the range
  the codec is meant for; the overlap score and the token count are taken as exact quotients.

## Where the code and its comments differ

- packages/shared/src/board/zorder.ts:30-33 says that only moved shapes get new keys. When the unmoved neighbours of a
  moved run share a key, the whole board is renumbered. `ZOrder.OnlyChosenUnlessTied` gives the exact condition,
  `ZOrder.TieGivesOthersKeys` an instance.
- apps/server/src/sync/roomPersistence.ts:179 says that what is queued is still written when the lease is lost. One last
  batch is. `Leaving.QueueIsWrittenUpToOneBatch` shows for every state of a writer that the promise holds, in all runs in
  which the last append does not fail, exactly if everything fits that batch: at most 500 updates, those in flight and one
  for a catch-up still due included. `Leaving.LastOf501IsLost` is a run that loses the 501st.
- apps/server/src/sync/roomPersistence.ts:216-218 says that an instance never leaves a room holding edits that are not
  stored. `Closing.ClosedRoomIsStored` shows for every state in which a room may be closed that this holds, in all runs
  that settle the room, exactly if no deactivation is in flight by then. `leaseBusy` is set as long as one is
  (apps/server/src/sync/rooms.ts:477-494), but closing does not look at it (apps/server/src/sync/rooms.ts:569-574).
  `Closing.OverlappingClose` is a run that loses an edit.
- packages/shared/src/sync/encryptedProvider.ts:42-43 takes the announced counter to say what is durable. Wherever a
  marker is taken with a counter, it does, in all runs that announce the marker, exactly if every earlier update of the
  connection had arrived at the writer or been stored some other way: `PrivateAcks.CounterIsDurableExactlyWithoutGaps`.
  A connection whose messages reach the writer in order can rely on it (`PrivateAcks.OrderedCounterIsDurable`); one whose
  first update is lost between instances cannot (`PrivateAcks.LostRelayIsAnnounced`).
- `maxConcurrentWrites` of zero or less is accepted and then no write ever starts: `LimitedWrites.LimitOfOneSuffices`.
- `maxSyncDepth` below -1 makes the deep-chain rule fire on a board without any chain; `Rules.DeepSyncChain` states what
  happens for every limit.
- packages/graph/src/review.ts:235 describes an overlap as a share of the smaller set. The code divides by the length of
  the shorter list, and neither repetitions nor a longer list with fewer shapes are ruled out. `Overlaps.OverlapIsShare`
  gives the exact condition: all shapes occur equally often in the shorter list, and they are no more than those of the
  other. `Overlaps.RepetitionPassesThreshold` and `Overlaps.ShorterIsNotSmaller` are inputs on either side of the threshold
  of one half for which one of the two fails.

## Model

| member | source | states |
|---|---|---|
| Graph.Adjacency | packages/graph/src/context.ts:127-131 | The adjacency map has every listed node, with the targets of its edges in edge order |
| Graph.TargetsAreEdges | packages/graph/src/context.ts:127-131 | The targets listed for a node are exactly those its edges lead to |
| Tarjan.StronglyConnectedComponents | packages/graph/src/context.ts:138-195 | For every graph the search ends, and the components partition the vertices into exactly the classes of mutual reachability, in reverse topological order |
| Tarjan.OpenKeepsInvariant | packages/graph/src/context.ts:164-170 | Visiting a new node keeps what the search knows: frames reach all above them, low links bound and are attained by stack indices |
| Tarjan.LowerKeepsInvariant | packages/graph/src/context.ts:171-180 | Lowering a low link to the index of a stack member the frame reaches keeps the invariant, for back edges and for finished children alike |
| Tarjan.AdvanceKeepsInvariant | packages/graph/src/context.ts:161-163 | Counting a successor as visited once its arc is accounted for keeps the invariant |
| Tarjan.DropKeepsInvariant | packages/graph/src/context.ts:176-181 | Closing a frame that is not the root of its component leaves its nodes on the stack under the parent frame, with the invariant |
| Tarjan.EmittedIsStronglyConnected | packages/graph/src/context.ts:181-191 | When a frame's low link equals its index, everything above it on the stack is mutually reachable |
| Tarjan.EmittedIsClosed | packages/graph/src/context.ts:181-191 | and every arc leaving these nodes ends among them or in a component already listed |
| Tarjan.EmitKeepsInvariant | packages/graph/src/context.ts:181-191 | Moving these nodes from the stack to the result keeps the invariant |
| Tarjan.PopComponent | packages/graph/src/context.ts:182-189 | The inner loop takes exactly the nodes from the frame's node upwards off the stack, last first |
| LongestPath.ComponentOf | packages/graph/src/context.ts:204-207 | Every node gets the list position of the one component that contains it |
| LongestPath.StepsOut | packages/graph/src/context.ts:209-218 | The steps listed for a component are exactly the edges that leave it for another one; those to earlier components are arcs to be counted |
| LongestPath.CountedIsRanked | packages/graph/src/context.ts:209-226 | Counting, besides the arcs the search follows, the other edges to earlier components makes nothing mutually reachable that was not |
| LongestPath.ChooseBest | packages/graph/src/context.ts:222-235 | The entry of a component is a path of its length starting in it, longer than the entry of any earlier component it steps to |
| LongestPath.BestBoundsWalk | packages/graph/src/context.ts:220-236 | No walk through the graph crosses more component boundaries than the entry of its first component says |
| LongestPath.PathHasWalk | packages/graph/src/context.ts:227-229 | A path whose steps join components is the trace of a walk with one crossing a step, also where it skips inside a cycle |
| LongestPath.LongestPath | packages/graph/src/context.ts:202-247 | For every graph the result is a longest path over the arcs the search follows and some further edges between vertices that close no new cycle, what is mutually reachable counting as one step: its hops are the maximum number of crossings of any walk, its steps join distinct classes, and without cycles other than self-calls it is a walk. If every edge joins listed nodes these are all over the arcs alone |
| GraphIndexes.GraphIndex.constructor | packages/graph/src/context.ts:16-30 | The index holds the nodes and edges given, and its tables agree with them |
| GraphIndexes.GraphIndex.IndexNodes | packages/graph/src/context.ts:19-24 | Every node id leads to a node with it and to the position of that node |
| GraphIndexes.GraphIndex.IndexEdges | packages/graph/src/context.ts:19-29 | The tables list, for every node, exactly the edges leaving and entering it, in order; edges of unknown nodes are skipped |
| GraphIndexes.GraphIndex.Touching | packages/graph/src/context.ts:50-54 | Every edge at a node, either direction, as often as it is on the board, self-loops included |
| GraphIndexes.GraphIndex.ExploreIsland | packages/graph/src/context.ts:70-86 | The worklist finds exactly what links connect to the start |
| GraphIndexes.GraphIndex.Islands | packages/graph/src/context.ts:66-89 | The islands partition the nodes into the classes of undirected connection, each headed by its first node on the board, in the order of these |
| GraphIndexes.GraphIndex.Reachable | packages/graph/src/context.ts:92-105 | The set is exactly what the starts reach along accepted edges, the starts included |
| Rules.SubGraphKeeps | packages/graph/src/context.ts:114-125 | The sub-graph has exactly the kept nodes and the kept edges between them |
| Rules.MadeFindingShows | packages/graph/src/rule.ts:30-44 | A finding shows each shape once: the members first, their positions on the board ascending, then the arrows |
| Rules.CyclicMeansOnCycle | packages/graph/src/rules/syncCycle.ts:18-24 | A component has an arrow inside exactly when its members lie on a cycle, self-calls included |
| Rules.SyncCycle | packages/graph/src/rules/syncCycle.ts:12-46 | One finding for each class of components on synchronous cycles, together covering exactly the nodes on such cycles, each showing its members and the synchronous arrows among them |
| Rules.PathArrows | packages/graph/src/rules/deepSyncChain.ts:28-32 | For each hop that is drawn the arrow of its first edge is listed, and nothing else |
| Rules.PathIsDistinct | packages/graph/src/rules/deepSyncChain.ts:24-25 | The reported chain visits no node twice |
| Rules.DeepSyncChain | packages/graph/src/rules/deepSyncChain.ts:18-48 | For a limit of zero or more the rule fires exactly when some chain of synchronous calls between services, workers and external APIs, a cycle counted as one step, is longer; it shows a longest one |
| Rules.MainIsland | packages/graph/src/rules/disconnected.ts:17-25 | No island is larger than the main one; it has a client if any of its size has; and it is the first such island |
| Rules.IslandArrows | packages/graph/src/rules/disconnected.ts:31-33 | The arrows shown are exactly those touching the island |
| Rules.IslandFinding | packages/graph/src/rules/disconnected.ts:29-47 | The finding shows the island in board order, then its arrows |
| Rules.Disconnected | packages/graph/src/rules/disconnected.ts:11-49 | With two islands or more, one finding for each but the main one, so the findings cover exactly the nodes outside it |
| Storage.ApplyExtendsRows | apps/server/src/persistence/memoryRepository.ts:54-105 | No operation loses, reorders or renumbers a stored row; appended rows are numbered on |
| Storage.RunExtendsRows | apps/server/src/persistence/memoryRepository.ts:54-105 | Nor does any sequence of operations, and the archive only grows |
| Storage.LogFromFresh | apps/server/src/persistence/memoryRepository.ts:31-105 | From an empty board, whatever is done, the log is exactly what was appended, in order |
| Storage.RowsAreNumbered | apps/server/src/persistence/memoryRepository.ts:54-105 | The archive holds seqs 1 to the latest snapshot's and the live rows the rest |
| Storage.RunFromFresh | apps/server/src/persistence/memoryRepository.ts:31-105 | Both hold in every state reached from an empty board, and snapshots increase |
| Storage.CompactKeepsMeaning | apps/server/src/persistence/memoryRepository.ts:75-93 | Compaction does not change what a client sees after loading, for any build that agrees with replaying |
| Storage.BoardMeansItsLog | apps/server/src/persistence/memoryRepository.ts:31-93 | However often it was compacted, a board means its whole log replayed from nothing |
| Storage.LoadedBoardIsReplayedHistory | apps/server/src/persistence/memoryRepository.ts:31-93 | and that is everything ever appended, in order |
| Storage.ShownIsReplayedHistory | apps/server/src/persistence/memoryRepository.ts:31-93 | From an empty board, whatever was appended and compacted: replaying the live rows a load returns onto the snapshot it returns gives everything ever appended, replayed from nothing |
| Storage.AcceptsNewer | apps/server/src/persistence/memoryRepository.ts:95-105 | Exactly the snapshots beyond all there are and not beyond the last row are taken |
| MemoryRepository.MemoryBoardRepository.MaybeFail | apps/server/src/persistence/memoryRepository.ts:24-29 | A simulated outage is thrown as many times as asked |
| MemoryRepository.MemoryBoardRepository.Load | apps/server/src/persistence/memoryRepository.ts:31-52 | The snapshot that reaches furthest, exactly the rows after it, and the seq of the last row stored |
| MemoryRepository.MemoryBoardRepository.Append | apps/server/src/persistence/memoryRepository.ts:54-73 | The batch is stored in order under the next seqs, creating the board if need be; a failed call stores nothing |
| MemoryRepository.MemoryBoardRepository.Compact | apps/server/src/persistence/memoryRepository.ts:75-93 | All live rows move to the archive under a new snapshot built from the latest one and them; nothing without live rows |
| MemoryRepository.MemoryBoardRepository.InstallSnapshot | apps/server/src/persistence/memoryRepository.ts:95-105 | A snapshot is taken exactly if newer than all there are and not beyond the last row; it becomes the latest, and the rows it covers move to the archive |
| MemoryRepository.MemoryBoardRepository.UpdatesSince | apps/server/src/persistence/memoryRepository.ts:107-116 | Every stored row after the seq, in order, as one contiguous range |
| MemoryRepository.CompactKeepsWellFormed | apps/server/src/persistence/memoryRepository.ts:83-92 | Compaction keeps the numbering, the split at the latest snapshot and the order of snapshots |
| MemoryRepository.InstallKeepsWellFormed | apps/server/src/persistence/memoryRepository.ts:99-104 | So does installing a client's snapshot |
| PgRepository.RowsOnlyMove | apps/server/src/persistence/pgRepository.ts:62-187 | Over any transactions between two reads, rows are added and moved, never lost or renumbered |
| PgRepository.SnapshotsArePermitted | apps/server/src/persistence/pgRepository.ts:99-160 | Over any transactions every append takes effect; a private board only ever gets snapshots handed in, any other board only compacted ones |
| PgRepository.PermittedTakesEffect | apps/server/src/persistence/pgRepository.ts:98-187 | On the boards they are meant for, compactions and snapshots handed in take effect |
| PgRepository.SelectionsMeet | apps/server/src/persistence/pgRepository.ts:196-207 | Live rows read first and archived rows read later together are a contiguous range of seqs |
| PgRepository.BySeqCollects | apps/server/src/persistence/pgRepository.ts:206-207 | A row read from both tables is kept once |
| PgRepository.UpdatesSince | apps/server/src/persistence/pgRepository.ts:206-208 | The two reads are put together seq by seq, archived rows first, and sorted |
| PgRepository.ReadsAreContiguous | apps/server/src/persistence/pgRepository.ts:189-209 | Whatever commits between the two reads, the result has each seq once, in order: the contiguous range after the given seq up to a bound no lower than the last seq committed when the call began |
| WriteAhead.StepKeepsInvariant | apps/server/src/sync/roomPersistence.ts:170-343 | Every step keeps: acknowledged markers are stored, the document is covered by storage and queue unless a catch-up is due, batches have 1 to 500 updates, a non-writer queues nothing |
| WriteAhead.RunKeepsInvariant | apps/server/src/sync/roomPersistence.ts:170-343 | So does every run allowed by the lease; storage and acknowledgements only grow |
| WriteAhead.AcknowledgedIsDurable | apps/server/src/sync/roomPersistence.ts:274-343 | At every point of every run, each marker handed on as persisted describes only changes already committed |
| WriteAhead.ActivatingEarlyWouldBreakIt | apps/server/src/sync/roomPersistence.ts:170-177 | Were the lease taken over with a flush still queued, unsaved changes would be acknowledged |
| WriteAhead.StepConserves | apps/server/src/sync/roomPersistence.ts:190-339 | One step neither loses, repeats nor reorders an accepted update |
| WriteAhead.RunConserves | apps/server/src/sync/roomPersistence.ts:190-339 | While the instance stays the writer, committed, in-flight and queued updates are the catch-up followed by the enqueued ones, in order, through any failed batches; without half-failures the database took exactly the committed ones |
| WriteAhead.DisposedWritesNothing | apps/server/src/sync/roomPersistence.ts:239-275 | Once a room is disposed of with no batch in flight, no run starts another write |
| RoomPersistences.RoomPersistence.constructor | apps/server/src/sync/roomPersistence.ts:153-156 | Nothing queued, active as told, the loaded document stored |
| RoomPersistences.RoomPersistence.Add | apps/server/src/sync/roomPersistence.ts:190-200 | The document changes; a writer queues the update last, a non-writer does not. As after every method below, what is acknowledged is stored and the document is covered by storage and queue |
| RoomPersistences.RoomPersistence.Flush | apps/server/src/sync/roomPersistence.ts:203-205 | A flush is the last task |
| RoomPersistences.RoomPersistence.Compact | apps/server/src/sync/roomPersistence.ts:208-210 | A compaction is the last task |
| RoomPersistences.RoomPersistence.EnqueueTask | apps/server/src/sync/roomPersistence.ts:268-272 | Tasks run one after the other in the order queued |
| RoomPersistences.RoomPersistence.RunNext | apps/server/src/sync/roomPersistence.ts:268-281 | The first task starts, up to where it first waits |
| RoomPersistences.RoomPersistence.FlushNow | apps/server/src/sync/roomPersistence.ts:274-283 | At most 500 updates are cut off the front; the marker is taken only if that empties the queue |
| RoomPersistences.RoomPersistence.Finish | apps/server/src/sync/roomPersistence.ts:180-188 | The end of a deactivation's flush drops what is still queued |
| RoomPersistences.RoomPersistence.AppendCommitted | apps/server/src/sync/roomPersistence.ts:307-315 | The batch is stored and counted, the marker handed on describes only what is stored, and the queue compacts next exactly if the new count is at least `snapshotEvery`, else the flush is over |
| RoomPersistences.RoomPersistence.AppendFailed | apps/server/src/sync/roomPersistence.ts:296-305 | The batch goes back to the front, in order |
| RoomPersistences.RoomPersistence.BoardMissing | apps/server/src/sync/roomPersistence.ts:285-294 | Everything is dropped for a purged board |
| RoomPersistences.RoomPersistence.BoardLoaded | apps/server/src/sync/roomPersistence.ts:323-325 | The catch-up has the stored board, and how many updates follow its snapshot |
| RoomPersistences.RoomPersistence.Compare | apps/server/src/sync/roomPersistence.ts:319-343 | What storage lacks goes to the front of the queue; if nothing is lacking or queued, the document is acknowledged, and all of it is stored |
| RoomPersistences.RoomPersistence.WriteFullState | apps/server/src/sync/roomPersistence.ts:326-339 | When storage cannot be read the whole document is queued first |
| RoomPersistences.RoomPersistence.Activate | apps/server/src/sync/roomPersistence.ts:170-177 | A new writer queues the catch-up |
| RoomPersistences.RoomPersistence.Deactivate | apps/server/src/sync/roomPersistence.ts:180-188 | A writer queues one last flush |
| RoomPersistences.RoomPersistence.CompactionEnded | apps/server/src/sync/roomPersistence.ts:354-365 | A compaction that was made starts the count anew, any other leaves it |
| RoomPersistences.RoomPersistence.SnapshotInstalled | apps/server/src/sync/roomPersistence.ts:349-352 | The rows a client's snapshot archived no longer count, down to zero |
| RoomPersistences.RoomPersistence.BeginClose | apps/server/src/sync/roomPersistence.ts:220-228 | A non-writer becomes a writer and catches up before the final flush |
| RoomPersistences.RoomPersistence.Close | apps/server/src/sync/roomPersistence.ts:220-236 | The whole close of a room without other tasks: catch-up, flush, retries until nothing is queued or time is over, last compaction. If nothing is left queued, the whole document is stored, unless the board was purged; nothing is left queued if appends work and there are retries enough for batches of 500; if the last compaction works, no update follows the latest snapshot |
| RoomPersistences.RoomPersistence.Reopen | apps/server/src/sync/roomPersistence.ts:248-255 | A room reopened as a non-writer drops its queue |
| RoomPersistences.RoomPersistence.Dispose | apps/server/src/sync/roomPersistence.ts:239-245 | The room is closed for good and is not the writer |
| Compactions.CommitCompactsWhenDue | apps/server/src/sync/roomPersistence.ts:307-315 | A commit to a board that exists adds the batch to the count, and compacts within the same flush exactly if the count has reached `snapshotEvery` |
| Compactions.RunCounts | apps/server/src/sync/roomPersistence.ts:307-352 | In every run the count is what commits added, comparisons read, compactions set back and installed snapshots took off |
| Compactions.CountIsWhatWasCommitted | apps/server/src/sync/roomPersistence.ts:307-313 | Between two resets it grows by exactly the number of updates committed |
| Compactions.StepNotOverdue | apps/server/src/sync/roomPersistence.ts:307-365 | Where compactions succeed and comparisons read fewer updates than one is due for, no step makes one overdue, and a commit ends that if it was |
| Compactions.CommitsKeepBoardCompacted | apps/server/src/sync/roomPersistence.ts:307-365 | From a commit on, in every run in which compactions succeed and comparisons read fewer than that, fewer than `snapshotEvery` updates follow the latest snapshot or a compaction is under way |
| Leaving.LeavingWritesOneBatch | apps/server/src/sync/roomPersistence.ts:180-188 | Over every run from the start of a deactivation's flush to its end: nothing stays queued, what is committed is the first batch or nothing, and that is the whole queue exactly if the append commits and the queue fits; edits made meanwhile are accepted and dropped |
| Leaving.QueueIsWrittenUpToOneBatch | apps/server/src/sync/roomPersistence.ts:179-188 | For every state of a writer, whatever is queued or in progress: all that is queued is written in every run to the end of the lease in which the last append does not fail, if and only if it fits the last batch, what is in flight and a catch-up still due included |
| Leaving.FittingIsWritten | apps/server/src/sync/roomPersistence.ts:180-188 | What fits is committed in order, behind the outcome of the catch-up, through failed batches, edits and further tasks |
| Leaving.OverfullIsCut | apps/server/src/sync/roomPersistence.ts:180-188 | Whatever does not fit is cut off in some run whose last append commits |
| Leaving.LastOf501IsLost | apps/server/src/sync/roomPersistence.ts:179-188 | A run in which the last of 501 accepted updates is neither stored nor queued |
| Closing.SettledWriterIsStored | apps/server/src/sync/roomPersistence.ts:216-218 | A closed room that is still the writer and has nothing left to do has its whole document stored |
| Closing.ClosedRoomIsStored | apps/server/src/sync/rooms.ts:569-593 | For every state in which a room may be closed: every run after it that settles the room, with any edits and tasks, leaves the whole document stored, if and only if no deactivation is pending when it is closed |
| Closing.LeaveLosesEdit | apps/server/src/sync/roomPersistence.ts:180-236 | From every state with a deactivation pending some run settles the closed room and loses an edit |
| Closing.OverlappingClose | apps/server/src/sync/roomPersistence.ts:180-236 | A run in which a deactivation overlaps the close, the append fails, and an edit is lost with nothing pending |
| Draining.FailingStep | apps/server/src/sync/roomPersistence.ts:268-343 | While appends fail and the board cannot be read, each task still ends, and what is queued stays queued until the lease ends |
| CipherLogs.CipherLog.Load | apps/server/src/sync/encryptedRoom.ts:113-119 | The stored snapshot and last seq; every row not known before becomes an entry with the seq of a row that holds it, and nothing else does |
| CipherLogs.CipherLog.Add | apps/server/src/sync/encryptedRoom.ts:126-136 | A new envelope becomes the last entry and raises the counters; a known one changes nothing |
| CipherLogs.CipherLog.InstallSnapshot | apps/server/src/sync/encryptedRoom.ts:148-151 | Exactly the entries known to be covered are folded away; the others stay, in order |
| CipherLogs.CipherLog.Committed | apps/server/src/sync/encryptedRoom.ts:175-182 | Each entry in the batch learns the seq of its last place there, the others keep theirs |
| CipherLogs.CipherLog.CatchUp | apps/server/src/sync/encryptedRoom.ts:157-169 | Entries found stored learn the seq of such a row, the others keep theirs; what is reported missing is exactly the entries without one, in log order; and the number of updates stored since the snapshot |
| CipherLogs.CoveredLeave | apps/server/src/sync/encryptedRoom.ts:148-151 | Folding drops exactly the entries whose seq is known and covered |
| PrivateAcks.CounterIsHighest | apps/server/src/sync/encryptedRoom.ts:126-155 | The counter a log keeps for a connection is the highest among the updates it took in under counters, each the first time it arrived |
| PrivateAcks.LoadedLogIsInitial | apps/server/src/sync/encryptedRoom.ts:113-119 | A loaded log holds the stored rows and no counters |
| PrivateAcks.StepKeepsInvariant | apps/server/src/sync/roomPersistence.ts:170-343 | Every step of a private room's log and queue keeps: the log's content and counters are those of its arrivals, entries with a seq are stored, what a writer knows is stored or queued unless a catch-up is due, markers describe what is stored or in their batch |
| PrivateAcks.RunKeepsInvariant | apps/server/src/sync/roomPersistence.ts:170-343 | So does every run allowed by the lease |
| PrivateAcks.ArrivalIsTakenIn | apps/server/src/sync/encryptedRoom.ts:297-304 | An update that arrives is known from then on, and with a writer that is not catching up it is stored or in its queue |
| PrivateQueue.StaysAlike | apps/server/src/sync/roomPersistence.ts:170-365 | A private room's queue takes the same course as any other room's: as many updates wait, in flight and counted, and the same tasks are queued and in progress, as long as the same happens to both and their catch-ups find as many updates missing |
| PrivateAcks.CatchUpCovers | apps/server/src/sync/encryptedRoom.ts:157-173 | After a catch-up, read or not, all the log knows is stored or queued; if nothing is queued that is announced |
| PrivateAcks.CatchUpAnnounces | apps/server/src/sync/roomPersistence.ts:319-338 | A catch-up that was read announces all the log knows exactly if nothing is queued and each entry has a seq or is among the rows read |
| PrivateAcks.AnnouncedIsDurable | apps/server/src/sync/roomPersistence.ts:274-343 | In every run, all that the log knew when an announced marker was taken is stored |
| PrivateAcks.CounterIsDurableExactlyWithoutGaps | apps/server/src/sync/roomPersistence.ts:274-315 | Wherever a run takes a marker, with counter h for a connection: in all runs that announce it the connection's updates up to h are stored, if and only if those below h had arrived at the writer, or were stored some other way, by then |
| PrivateAcks.OrderedCounterIsDurable | packages/shared/src/sync/encryptedProvider.ts:283-291 | For a connection whose messages arrive in the order of their counters, in every run every announced counter means that all its updates up to it are stored |
| PrivateAcks.LostRelayIsAnnounced | packages/shared/src/sync/encryptedProvider.ts:322-331 | A run in which a connection reads that two updates are durable and the first is not stored |
| EncryptedRooms.EncryptedRoom.ApplyLoaded | apps/server/src/sync/encryptedRoom.ts:262-264 | The room holds the snapshot, the updates and the last seq it is given; given what a load of the board shows, its snapshot and entries contain everything stored |
| EncryptedRooms.EncryptedRoom.Welcome | apps/server/src/sync/encryptedRoom.ts:279-294 | A connection is sent the snapshot and every entry, and so all the log answers for; it joins last, or keeps its place if it was there |
| EncryptedRooms.EncryptedRoom.RemoveMember | apps/server/src/sync/encryptedRoom.ts:341-355 | A leaving connection takes the request it was asked with it |
| EncryptedRooms.EncryptedRoom.ReceiveUpdate | apps/server/src/sync/encryptedRoom.ts:297-304 | A new envelope is added and relayed to every connection, a known one ignored |
| EncryptedRooms.EncryptedRoom.StartSnapshot | apps/server/src/sync/encryptedRoom.ts:471-476 | A request for everything committed begins exactly in a room that is not closing, with something to compact, a connection that may write, and no other request under way |
| EncryptedRooms.EncryptedRoom.PickSnapshotPeer | apps/server/src/sync/encryptedRoom.ts:501-504 | The first connection with write access, if any |
| EncryptedRooms.EncryptedRoom.AskForSnapshot | apps/server/src/sync/encryptedRoom.ts:478-498 | Stored envelopes up to the seq that the room never saw are added and relayed; then, unless the room is closing or nobody may write, the first connection that may is asked, and has been sent every stored envelope up to the seq |
| EncryptedRooms.EncryptedRoom.ReceiveSnapshot | apps/server/src/sync/encryptedRoom.ts:316-339 | Only the connection asked answers, and only the request it was asked; anything else changes nothing. The answer ends the request and, if stored, becomes the snapshot and folds the covered entries away, and everything stored stays loadable |
| EncryptedRooms.StrayAnswerChangesNothing | apps/server/src/sync/encryptedRoom.ts:316-319 | Without a request in progress, from another connection or under another id, an answer leaves board and room as they are |
| EncryptedRooms.HonestSuffices | apps/server/src/sync/encryptedRoom.ts:316-319 | An accepted answer contains what its request needs: that is what the client had been sent when that very request was put to it |
| EncryptedRooms.LoadedRoomHoldsEverything | apps/server/src/sync/encryptedRoom.ts:113-119 | A room loaded from a board whose snapshots cover what they claim holds every envelope stored |
| EncryptedRooms.AskKeepsRoom | apps/server/src/sync/encryptedRoom.ts:471-499 | After asking, the connection has been sent every stored envelope the snapshot will claim to cover |
| EncryptedRooms.InstallKeepsSnapshots | apps/server/src/sync/encryptedRoom.ts:316-339 | The snapshot then contains all of them |
| EncryptedRooms.InstallKeepsRoom | apps/server/src/sync/encryptedRoom.ts:148-151 | Folding entries away loses nothing the log answers for |
| EncryptedRooms.StepKeepsInvariant | apps/server/src/sync/encryptedRoom.ts:279-499 | Every step of any room on any instance keeps this, also appends no room heard of |
| EncryptedRooms.RunKeepsInvariant | apps/server/src/sync/encryptedRoom.ts:279-499 | So does every run, and stored updates stay stored |
| EncryptedRooms.ArrivalReachesAll | apps/server/src/sync/encryptedRoom.ts:297-304 | In every reachable state an update that arrives is known from then on and every connection has it |
| EncryptedRooms.AppendIsStored | apps/server/src/sync/roomPersistence.ts:274-313 | A committed append puts its batch behind all stored rows, whether or not the room hears of it |
| EncryptedRooms.InstalledSnapshotsCover | apps/server/src/sync/encryptedRoom.ts:316-339 | In every reachable state each installed snapshot contains every stored envelope with a seq up to its own |
| EncryptedRooms.SnapshotAndLiveRowsHoldEverything | apps/server/src/sync/encryptedRoom.ts:465-499 | Every envelope stored at some point is, at every later point, in the latest snapshot or among the live rows |
| EncryptedRooms.OpenedRoomSendsEverything | apps/server/src/sync/encryptedRoom.ts:262-294 | After every run, a connection welcomed by a room opened then is sent every envelope stored so far |
| SnapshotProgress.ClientIsAsked | apps/server/src/sync/encryptedRoom.ts:471-498 | A read that succeeds in a room with a writer that is not closing puts the request |
| SnapshotProgress.CompactionIsReachable | apps/server/src/sync/encryptedRoom.ts:316-505 | From every reachable state a room that has heard of updates beyond every stored snapshot, is not closing and has a connection that may write can have the board compacted up to them, by events of its own alone |
| RoomSync.Room.Change | apps/server/src/sync/rooms.ts:75-86 | What the document lacked of the update joins it, is handed to the writer, and is published unless it came from another instance |
| RoomSync.Room.ApplyLoaded | apps/server/src/sync/rooms.ts:231-239 | What was loaded joins the document and is neither handed to the writer nor published |
| RoomSync.Room.Ask | apps/server/src/sync/rooms.ts:141-143 | The request names what the document has |
| RoomSync.Room.Handle | apps/server/src/sync/rooms.ts:145-149 | A room still loading keeps messages in order for later, a loaded one applies them |
| RoomSync.Room.Apply | apps/server/src/sync/rooms.ts:150-194 | Updates and replies are merged; a request gets everything the asker lacks, and a request back exactly if it names an insertion this room lacks |
| RoomSync.Room.Finish | apps/server/src/sync/rooms.ts:132-143 | Every kept update is merged and every kept request answered, then the others are asked for what the document still lacks |
| RoomSync.KeptAreApplied | apps/server/src/sync/rooms.ts:132-149 | Applying kept messages merges every update among them and answers every request with at least what was lacking when loading began |
| RoomSync.StepKeepsInvariant | apps/server/src/sync/rooms.ts:75-194 | Documents only grow, what is sent is true of its sender, and nothing is in a document that came from neither a client nor storage |
| RoomSync.NothingInventedNothingEchoed | apps/server/src/sync/rooms.ts:75-86 | In every run, documents hold only changes from clients and storage, and update messages only changes of their sender's own clients |
| RoomSync.DocumentIsLoadedOrHanded | apps/server/src/sync/rooms.ts:75-86 | In every run a room's document is exactly what it loaded together with what it handed to its writer |
| RoomSync.ExchangeTransfers | apps/server/src/sync/rooms.ts:141-194 | One answered request brings over everything the answering room had when the run began, however late and mixed up messages are |
| RoomSync.Converges | apps/server/src/sync/rooms.ts:132-194 | Once every room was answered by every other, without edits meanwhile, all hold exactly the union of what they held |
| RoomSync.AgreementIsReachable | apps/server/src/sync/rooms.ts:132-194 | From every state such a run exists |
| LiveSync.EditIsPublished | apps/server/src/sync/rooms.ts:75-86 | A client change that adds something sends an update message of exactly what it adds |
| LiveSync.LoadedRoomAsks | apps/server/src/sync/rooms.ts:132-143 | A room that has loaded sends a request naming what it has |
| LiveSync.RequestIsAnswered | apps/server/src/sync/rooms.ts:150-194 | A delivered request is answered with all the asker lacks, and by a request exactly if it names an insertion that is lacking |
| LiveSync.EditsArePublished | apps/server/src/sync/rooms.ts:75-86 | In every run each change a client made that its room did not have is in an update message its instance sent |
| LiveSync.LiveRoomsAgree | apps/server/src/sync/rooms.ts:75-192 | From rooms that agree, once every update message sent in a run is delivered to every other room, all agree again and hold every change made, without any request |
| Codecs.PersistedVector.constructor | apps/server/src/sync/rooms.ts:60 | A new room announces an empty vector |
| Codecs.PersistedVector.StartFrom | apps/server/src/sync/rooms.ts:240 | A loaded room announces the clocks of the stored document |
| Codecs.PersistedVector.MarkPersisted | apps/server/src/sync/rooms.ts:125-130 | The announced vector becomes its maximum with the new one, and is what clients are sent; malformed vectors change nothing |
| LimitedWrites.Limiter.constructor | apps/server/src/persistence/limitedWrites.ts:17-24 | No write runs or waits |
| LimitedWrites.Limiter.Enter | apps/server/src/persistence/limitedWrites.ts:49-54 | A write waits last exactly when every slot is taken, and starts otherwise |
| LimitedWrites.Limiter.Leave | apps/server/src/persistence/limitedWrites.ts:55-62 | The slot goes to the first waiter, or is freed, however the write ended |
| LimitedWrites.RunKeepsInvariant | apps/server/src/persistence/limitedWrites.ts:49-63 | In every run the running count is the number of started, unsettled writes and within the limit; writes wait only when no slot is free; each starts at most once, in order of arrival |
| LimitedWrites.TurnComes | apps/server/src/persistence/limitedWrites.ts:57-61 | The k-th waiter is started by exactly the (k+1)-th write to settle |
| LimitedWrites.LimitOfOneSuffices | apps/server/src/persistence/limitedWrites.ts:49-63 | That all arrived writes are done once all started ones are holds in every run exactly for limits of at least one |
| ZOrder.CompareIsTotalOrder | packages/shared/src/board/zorder.ts:14-18 | The comparison is a strict total order; only equal keys and ids compare equal |
| ZOrder.LowerIsDrawnFirst | packages/shared/src/board/zorder.ts:14-18 | The lower key is drawn first, of equal keys the id that ends or has the smaller character at the first difference |
| ZOrder.StepForward | packages/shared/src/board/zorder.ts:62-73 | The swaps in place compute the recursive step |
| ZOrder.SteppedPassesOne | packages/shared/src/board/zorder.ts:62-73 | Each chosen shape passes exactly one other when any lies above it, and none otherwise |
| ZOrder.TargetKeepsOrder | packages/shared/src/board/zorder.ts:39-58 | In every mode the target is a permutation that keeps the order among chosen shapes and among the others |
| ZOrder.ModeMoves | packages/shared/src/board/zorder.ts:43-58 | Where each mode puts a chosen shape among the others: above all, below all, one up, one down |
| ZOrder.Renumber | packages/shared/src/board/zorder.ts:104-107 | Every shape of the board gets the next of so many new keys |
| ZOrder.KeyRun | packages/shared/src/board/zorder.ts:93-98 | The shapes of one run get the new keys in order, others are untouched |
| ZOrder.AssignKeys | packages/shared/src/board/zorder.ts:76-102 | Each longest run of moved shapes gets keys from between its unmoved neighbours; the whole board is renumbered exactly when some run has neighbours out of order |
| ZOrder.ReorderKeys | packages/shared/src/board/zorder.ts:34-60 | The keys are those for the target order of the mode, none when nothing is chosen |
| ZOrder.HalvingGenerates | packages/shared/src/board/zorder.ts:93 | The contract asked of the key generator can be met |
| ZOrder.ReorderReachesTarget | packages/shared/src/board/zorder.ts:30-107 | For every mode and selection, writing the keys and sorting gives exactly the target order and nothing else |
| ZOrder.OnlyChosenUnlessTied | packages/shared/src/board/zorder.ts:30-33 | Only chosen shapes get new keys if and only if no moved run lies between two others with one key |
| ZOrder.TieGivesOthersKeys | packages/shared/src/board/zorder.ts:89-92 | An instance where shapes that do not move get new keys |
| Overlaps.OverlapIsShare | packages/graph/src/review.ts:235-241 | The overlap of a list with all lists at least as long that have k different shapes is the share of the smaller set, if and only if the shapes of the list are at most k and all occur equally often in it |
| Overlaps.OverlapIsSymmetric | packages/graph/src/review.ts:236-241 | Which list comes first does not matter for lists of different lengths, nor for lists of one length with equally many shapes, each listed equally often |
| Overlaps.RepetitionPassesThreshold | packages/graph/src/review.ts:235-241 | An instance where one shape out of three is shared and the overlap is above one half |
| Overlaps.ShorterIsNotSmaller | packages/graph/src/review.ts:235-241 | An instance without repetitions in the shorter list where the other has fewer shapes: one of its two is shared, and the overlap is one third |
| ReviewDiff.Candidates | packages/graph/src/review.ts:250-257 | The candidates are exactly the pairs on one topic that share at least half |
| ReviewDiff.Match | packages/graph/src/review.ts:260-266 | The loop matches one to one, and every pair it skips shares a finding with an earlier match |
| ReviewDiff.GreedyIsUnique | packages/graph/src/review.ts:258-266 | Only one matching is one to one and leaves out only candidates that lost to one sorting no later |
| ReviewDiff.EachMatchedOnce | packages/graph/src/review.ts:260-266 | As many newer as older findings are matched |
| ReviewDiff.GreedyMatch | packages/graph/src/review.ts:258-270 | Over all candidates in sorted order this is the greedy matching, and it resolves as many older findings as it leaves unmatched |
| ReviewDiff.GreedyLeavesOutLosers | packages/graph/src/review.ts:258-266 | A candidate left out shares a finding with a matched pair of at least its overlap, and of an earlier place if that is the same |
| ReviewDiff.WithoutIsTheOthers | packages/graph/src/review.ts:270 | What is left of the older findings is exactly those at unmatched positions, in order |
| ReviewDiff.ListChanges | packages/graph/src/review.ts:268-269 | Every newer finding is listed, as persisting exactly if matched and as new exactly if not; the last with an id decides it |
| ReviewDiff.DiffReviews | packages/graph/src/review.ts:249-280 | The result is that of the one greedy matching: a newer finding persists exactly if some matched pair has it and is new otherwise; resolved are exactly the older ones no pair has, in order; and whatever pair was left out lost a finding to one with at least its overlap |
| Codecs.VarUintRoundTrip | loadtest/src/codec.ts:29-37 | Every integer decodes to itself, whatever follows (unsigned LEB128, section 7.6 of the DWARF 4 standard) |
| Codecs.EncodingIsShortest | loadtest/src/codec.ts:29-37 | Of all bytes that decode to an integer its encoding is the shortest, and the only one without a superfluous last zero |
| Codecs.Writer.VarUint | loadtest/src/codec.ts:29-37 | The loop appends the encoding |
| Codecs.Writer.VarBytes | loadtest/src/codec.ts:50-54 | The length, then the bytes |
| Codecs.Reader.VarUint | loadtest/src/codec.ts:159-169 | The loop reads the integer at the position and moves past it; bytes that end too early are an error |
| Codecs.Reader.VarBytes | loadtest/src/codec.ts:171-176 | The announced number of bytes, or as many as there are, and what follows them is left |
| Codecs.EncodeVector | apps/server/src/sync/roomTypes.ts:58-66 | The number of entries, then every entry once, in whatever order the map is iterated |
| Codecs.EncodesDecodes | apps/server/src/sync/roomTypes.ts:58-66 | Every such encoding decodes to the map |
| Codecs.MergeStateVectors | apps/server/src/sync/roomTypes.ts:50-56 | The result decodes to the pointwise maximum |
| Codecs.MergedIsMax | apps/server/src/sync/roomTypes.ts:52-54 | Each client's clock in a merge is the larger of the two, 0 where it is in neither; a client is listed only if the first vector lists it or the second has a clock for it |
| Codecs.PersistedClock | loadtest/src/codec.ts:185-196 | The reader returns what is specified for any bytes, those that end too early included |
| Codecs.OnlyKindTwoIsRead | loadtest/src/codec.ts:186-187 | A message is taken for a persisted one exactly if it starts with the integer 2 |
| Codecs.ReadsFirstClock | loadtest/src/codec.ts:185-196 | From such a message the clock of the first entry for the client is read, 0 if there is none, and the bytes end too early exactly if they do before it |
| Codecs.PersistedRoundTrip | loadtest/src/codec.ts:185-196 | From a message sent for a vector a client reads its clock in that vector, 0 if it is not there |
| Codecs.AnnouncedIsLatest | apps/server/src/sync/roomTypes.ts:50-56 | After any announcements a client's clock is the maximum of its starting clock and all announced for it |
| Codecs.ClientReadsLatest | loadtest/src/codec.ts:185-196 | and that is what it reads back |
| TokenBuckets.TokenBucket.constructor | apps/server/src/sync/rateLimit.ts:10-17 | A new bucket is full |
| TokenBuckets.TokenBucket.Take | apps/server/src/sync/rateLimit.ts:18-26 | One call refills for the time passed, up to the capacity, and takes the amount if it is there |
| TokenBuckets.TokensWithinWindow | apps/server/src/sync/rateLimit.ts:18-26 | Tokens stay within 0 and the capacity, and within what every window leaves of its allowance |
| TokenBuckets.GrantsExactlyWhatFits | apps/server/src/sync/rateLimit.ts:18-26 | A call is granted if and only if no window ending with it would pass the capacity and the refill in that window, whatever the clock does |
| TokenBuckets.AnyWindow | apps/server/src/sync/rateLimit.ts:18-26 | With a clock that never goes back, at most the capacity and the rate times the elapsed seconds is granted between any two calls |

## Left out

- Web app, pages, emails, billing, sharing, interviews, AI prompts and label matching: user interface or plumbing.
- Presence (awareness) messages, connection handling, tickets, encryption and signatures: opaque to what is proved here.
- Timers, flush and retry delays, deadlines, metrics and logging: a flush may be queued at any time, a retry is another flush.
- Private rooms: how two instances find out which entries the other lacks (an entry may arrive from another instance at any time).
- The messages "lease released" and "persisted" between instances, and how the manager creates and evicts rooms: only what they promise the queue is used.
- Texts, severities and ids of rule findings: only the shapes shown are modelled.
- Other rules, the label expressions, graph fingerprints and overall scores: single-branch checks and formatting.
- Score deltas of two reviews: five subtractions.
- Encoding of map edits, presence and markers of the load generator; it uses the integers and byte strings proved here.
- JavaScript's insertion order of maps: encoding a vector is proved for every order.
- RoomSync.Converges: assumes that the rooms stay open, and, as in the code, is not claimed for private rooms.
- RoomPersistences.RoomPersistence.Close: runs by itself, with no task queued or in progress and no edit arriving meanwhile, the deadline being a number of retries; `Closing.ClosedRoomIsStored` is about every state and every run.
- EncryptedRooms.InstalledSnapshotsCover: assumes the honest client described above, since the server cannot read what it installs.
