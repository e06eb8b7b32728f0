# Verified models of the cloud-computing labs

This project models the four algorithmic cores of the repository in Dafny and proves what they are for:

- **The linearizability checker** (`linearizability.go`, `models.go`, `bitset.go`): the backtracking search over a
  doubly linked list of call and return entries, with its memo cache and its set of linearized operations, decides
  linearizability; checking a key/value history key by key decides the question for the whole store.
- **The reliable-transfer protocol** (lab 1): over a network that loses, delays, reorders, repeats and corrupts packets,
  the messages delivered are at all times a prefix of the messages accepted, and from every reachable state a run
  without losses delivers the rest.
- **SheetFS** (lab 5): the layout of cells in chunks, storing and loading of files, replication of the master through
  its journal with checkpoints and crashes at any point, and on data nodes the version protocol and the journal of chunk
  writes; from the master through the client to the data node, a read finds the write it follows or a later one.
- **MapReduce** (lab 4): the pipeline is a group-by for every order of tasks, and the scheduler gives each task exactly
  one successful call and each worker at most one call at a time.

`dafny verify dfyconfig.toml` checks the project.

## How it is organised

Code that changes things in place is modelled by classes, arrays and loops (`EntryList`, `Checker`, `Bitset`,
`RdtSender.Sender`, `RdtReceiver.Receiver`, `SheetObjects.SheetFile`, `MasterObjects.FileManager` with its table of
file objects, `CommonJournal.Writer`, `ChunkStore.Server`, `MapReduce`), and each method is proved against a function on
values. The theorems are about those functions. Protocols are step systems: a state, the events that can happen in it, and an
invariant that every event keeps; the theorems speak of every sequence of events from the initial state.

| files | what they hold |
|---|---|
| `Linearizability`, `EntryList`, `Bitset`, `Popcount`, `Checker`, `KvModel`, `KvMeaning`, `CheckOperations`, `ReceiveLoop` | what linearizable means and the search for an order; the list, the bitset, the checker; locality, and what the store accepts; the whole check, and how it waits for its parts |
| `RdtChecksum`, `RdtFrames`, `RdtSender`, `RdtReceiver`, `RdtMessages`, `RdtSystem`, `RdtRuns`, `RdtMoves` | checksum and frames; the two ends; fragmentation against reassembly; the step system and its runs; what each event does |
| `SheetCells`, `SheetFiles`, `SheetLoading`, `SheetObjects` | cells, chunks and files of the master, stored and loaded |
| `MasterJournal`, `MasterPrimary`, `MasterRecovery`, `MasterPersist`, `MasterCluster`, `MasterReplica`, `MasterObjects`, `MasterClients`, `CommonJournal` | the journal, the operations that write it, replay, checkpoints, crashes; what clients see |
| `ChunkBytes`, `ChunkStore`, `ChunkReplica`, `ChunkRequests`, `ChunkReplays`, `ChunkVersions`, `ClientWrites` | chunk files of a data node, their journal, the version protocol, and a client's writes from the master to the data node |
| `Numbers`, `Options` | widths of numbers, bytes; optional values |
| `MapReduce`, `MapReduceJob`, `Scheduler` | map, reduce, merge; whole jobs; the scheduler |

## Where the code does not do what one would expect

Each has the exact condition under which the code does meet the property, and a lemma for inputs where it does not.

- `Writer.Checkpoint` on an empty journal records offset 2, because `lastWriteOffset` starts at 0 (the comment there
  says it can be -1). The next message, number 1, is never replayed after a crash
  (`MasterCluster.EmptyJournalCheckpointLoses`). In every other case the recorded offset is right
  (`CommonJournal.Writer.WriteCheckpoint`, `MasterCluster.Agreement`).
- `WriteChunk` journals a write before it checks the version, so refused writes reach the secondary too. The secondary
  stays in step exactly if the refused request repeats the last write (`ChunkReplica.RefusedAgrees`; in terms of the
  order of arrival, `ChunkVersions.ArrivalAgrees`). It does not if a request overtakes an earlier one
  (`ChunkVersions.Overtaken`) or arrives again after a later one (`ChunkVersions.Repeated`).
- A new chunk file is padded with the request's padding on the primary and with spaces on the secondary. They agree
  exactly if the padding is a space or the write covers the file (`ChunkReplica.AcceptedAgrees`), so not after a first
  write that pads with zeros (`ChunkVersions.PaddedWithZeros`).
- The checksum of a packet misses a change of a whole word in exactly one case (`RdtChecksum.WordChange`,
  `RdtChecksum.WordChangeCanEscape`); a change confined to one byte is always caught (`RdtChecksum.ByteChange`).
- Within ten numbers of 2^32 the end of the receiver's window wraps around and early frames are dropped; before that
  they all wait (`RdtMoves.ReceiveMeans`, both cases).
- `CheckOperations` asks whether it is done only after a verdict has arrived. Without a timeout it returns if and only
  if the key/value history is not empty (`ReceiveLoop.WholeCheck`); on the empty one it waits forever
  (`ReceiveLoop.EmptyHistoryWaits`).

## Model

| member | source | states |
|---|---|---|
| Search.CompletionHasFirst | code/lab4-mapreduce/src/linearizability/linearizability.go:176-199 | a linearization of what is left begins with a call that no pending return precedes and that the model accepts: the candidates the search looks at suffice |
| Search.CompleteByStep | code/lab4-mapreduce/src/linearizability/linearizability.go:180-193 | if such a first step leaves something that can be completed, the whole can be completed: the search never goes wrong by lifting a call |
| Search.CachedIsHopeless | code/lab4-mapreduce/src/linearizability/linearizability.go:183-196 | a (linearized set, state) pair in the cache that is not on the stack has been explored in vain, so skipping it loses no answer |
| Search.PathInUniverse | code/lab4-mapreduce/src/linearizability/linearizability.go:176-212 | every pair the search can stand at lies in a finite set that does not depend on the search, which bounds it |
| Search.Push | code/lab4-mapreduce/src/linearizability/linearizability.go:183-193 | lifting a call keeps the invariant of the search: the stack is a path of accepted steps, and every cached pair is on the stack or exhausted |
| Search.Pop | code/lab4-mapreduce/src/linearizability/linearizability.go:201-210 | backtracking from an exhausted level keeps the invariant and records the level as failed |
| Search.Exhausted | code/lab4-mapreduce/src/linearizability/linearizability.go:200-203 | a return reached with every call before it tried means the pair cannot be completed |
| EntryList.InsertBefore | code/lab4-mapreduce/src/linearizability/linearizability.go:59-70 | the new node stands directly before the mark, and all other links are as they were |
| EntryList.Length | code/lab4-mapreduce/src/linearizability/linearizability.go:72-79 | counts the nodes from the one given to the end |
| EntryList.Lift | code/lab4-mapreduce/src/linearizability/linearizability.go:147-155 | takes the call and its return out of the list: what remains is the list without the two, in order, with all links right; the two keep their own pointers |
| EntryList.Unlift | code/lab4-mapreduce/src/linearizability/linearizability.go:157-165 | after a lift with everything since then undone, restores the list with both nodes in their old places |
| Checker.LiftChoice | code/lab4-mapreduce/src/linearizability/linearizability.go:190-192 | the list afterwards holds exactly the entries of the operations not linearized, in their original order |
| Checker.UnliftChoice | code/lab4-mapreduce/src/linearizability/linearizability.go:204-209 | undoes the last lift of any nesting of lifts: every pointer of the list is as it was before that lift |
| Checker.CacheContains | code/lab4-mapreduce/src/linearizability/linearizability.go:133-140 | for every hash function, answers membership of the pair in the plain set that the buckets stand for |
| Checker.CacheInsert | code/lab4-mapreduce/src/linearizability/linearizability.go:186-188 | appending to the bucket adds exactly that pair to the set |
| Checker.Choose | code/lab4-mapreduce/src/linearizability/linearizability.go:183-193 | one forward step: keeps the search invariant, the list, the bitset and the cache in step, and lowers the measure |
| Checker.Backtrack | code/lab4-mapreduce/src/linearizability/linearizability.go:201-210 | one backward step: restores list, bitset and state of the level below and lowers the measure |
| Checker.Explore | code/lab4-mapreduce/src/linearizability/linearizability.go:176-213 | the loop, which ends because (pairs not yet cached, depth, distance to the end of the list) falls: true exactly if the history is linearizable; on false all pointers are restored |
| Checker.CheckSingle | code/lab4-mapreduce/src/linearizability/linearizability.go:167-214 | for every list with one call and a later return for each operation: returns true if and only if some order of all operations respects real time and is accepted by the model from its initial state |
| Bitset.NewBitset | code/lab4-mapreduce/src/linearizability/bitset.go:8-15 | room for the given number of bits, none of them set |
| Bitset.Clone | code/lab4-mapreduce/src/linearizability/bitset.go:17-21 | a new array with the same words |
| Bitset.Set | code/lab4-mapreduce/src/linearizability/bitset.go:27-31 | adds exactly that element to the set the words stand for |
| Bitset.Clear | code/lab4-mapreduce/src/linearizability/bitset.go:33-37 | removes exactly that element |
| Bitset.Get | code/lab4-mapreduce/src/linearizability/bitset.go:39-42 | answers membership |
| Bitset.Equals | code/lab4-mapreduce/src/linearizability/bitset.go:64-74 | true if and only if length and set are the same |
| Popcount.CountsOnes | code/lab4-mapreduce/src/linearizability/bitset.go:47-51 | masking, shifting, adding and multiplying a 64-bit word gives the number of its ones; no addition overflows |
| Popcount.MaskIsAnd | code/lab4-mapreduce/src/linearizability/bitset.go:47-49 | masking numbers is the digit-by-digit operation on words |
| Popcount.Popcnt | code/lab4-mapreduce/src/linearizability/bitset.go:44-54 | for every length, the total is the size of the set the words stand for |
| KvModel.StoreToKey | code/lab4-mapreduce/src/linearizability/models.go:29-48 | an order accepted by the store is, key by key, accepted by the single-value model |
| KvModel.KeysToStore | code/lab4-mapreduce/src/linearizability/models.go:29-48 | an order whose part for every key is accepted by the single-value model is accepted by the store |
| KvModel.Merge | code/lab4-mapreduce/src/linearizability/models.go:17-28 | orders of the keys, each respecting real time, can be merged into one order of the whole history that respects real time |
| KvModel.PartLinearizable | code/lab4-mapreduce/src/linearizability/models.go:17-28 | the sub-history of a key is linearizable exactly if the operations of that key have an accepted order within the whole history |
| KvModel.Locality | code/lab4-mapreduce/src/linearizability/models.go:15-50 | a key/value history is linearizable against the whole store if and only if every per-key part is linearizable against a single string |
| KvMeaning.AcceptedMeans | code/lab4-mapreduce/src/linearizability/models.go:29-48 | an order is accepted by the store if and only if every get in it returns the value last put under its key, or the empty string if there is none, followed by the values appended to that key since |
| KvMeaning.LinearizableMeans | code/lab4-mapreduce/src/linearizability/models.go:15-50 | so a history is linearizable against the store if and only if some order of all its operations respects real time and lets every get return that value |
| CheckOperations.MakeEntries | code/lab4-mapreduce/src/linearizability/linearizability.go:37-49 | one call and one return entry for each operation, with its id, in order of time |
| CheckOperations.SortByTime | code/lab4-mapreduce/src/linearizability/linearizability.go:25-47 | the same entries, sorted by time |
| CheckOperations.MakeLinkedEntries | code/lab4-mapreduce/src/linearizability/linearizability.go:109-126 | a doubly linked list of the entries in their order, every call pointing to its return |
| CheckOperations.CheckPart | code/lab4-mapreduce/src/linearizability/linearizability.go:241-246 | one part from operations to verdict: true if and only if the part is linearizable |
| CheckOperations.GroupByKey | code/lab4-mapreduce/src/linearizability/models.go:18-22 | a map from each key that occurs to the operations of that key, in order |
| CheckOperations.Partition | code/lab4-mapreduce/src/linearizability/models.go:17-28 | one part for each key that occurs, holding exactly the operations of that key in order |
| CheckOperations.CheckOperations | code/lab4-mapreduce/src/linearizability/linearizability.go:229-270 | for every non-empty history with distinct times: true if and only if the history is linearizable against the map from keys to strings, that is, if some order respects real time and lets every get return the latest value |
| ReceiveLoop.Ends | code/lab4-mapreduce/src/linearizability/linearizability.go:251-268 | the loop comes to an end at all if and only if there is a part, or a timeout |
| ReceiveLoop.AnyArrival | code/lab4-mapreduce/src/linearizability/linearizability.go:251-268 | in whatever order the verdicts arrive: a no is right, and an answer that is not due to the timeout is the conjunction of the verdicts; there are at most as many rounds as parts, and one |
| ReceiveLoop.NoParts | code/lab4-mapreduce/src/linearizability/models.go:17-28 | there are no parts if and only if the history is empty |
| ReceiveLoop.EmptyHistoryWaits | code/lab4-mapreduce/src/linearizability/linearizability.go:251-268 | the empty history has no parts; without a timeout no event is possible, and no run ends |
| ReceiveLoop.WholeCheck | code/lab4-mapreduce/src/linearizability/linearizability.go:233-270 | without a timeout the check returns if and only if the history is not empty, and then says whether it is linearizable; with a timeout it always returns, and a no is right |
| RdtChecksum.CalChecksum | code/lab1 rdt/protocol.h:56-67 | the loops compute the complement of the folded 64-bit sum of signed words; the folding loop ends |
| RdtChecksum.ChecksumMeans | code/lab1 rdt/protocol.h:56-67 | modulo 65535 the checksum is the negated sum of the words, and it is 65535 only for a sum of zero |
| RdtChecksum.Fold | code/lab1 rdt/protocol.h:63-65 | ends with a 16-bit value congruent to the sum modulo 65535, and 0 only for 0 |
| RdtChecksum.FoldStep | code/lab1 rdt/protocol.h:63-65 | one round makes the number smaller and keeps what it folds to |
| RdtChecksum.SealIntact | code/lab1 rdt/rdt_sender.cc:42-51 | a packet with its checksum written passes the test of the other side |
| RdtChecksum.WordChange | code/lab1 rdt/protocol.h:56-67 | a change confined to one word leaves the checksum the same exactly if it swaps the two extreme values with the sum of the rest on one side of zero |
| RdtChecksum.ByteChange | code/lab1 rdt/rdt_receiver.cc:136-140 | a change confined to one byte, anywhere in the packet, makes the test fail, also when the signed sum crosses zero |
| RdtChecksum.WordChangeCanEscape | code/lab1 rdt/protocol.h:56-67 | two packets that differ in one word and both pass |
| RdtFrames.FormFirst | code/lab1 rdt/rdt_sender.cc:44-52 | number, sizes and payload can be read back from the packet, and it passes the test |
| RdtFrames.FormData | code/lab1 rdt/rdt_sender.cc:36-42 | number, size and payload can be read back, and it passes the test |
| RdtFrames.FormAck | code/lab1 rdt/rdt_receiver.cc:39-50 | the acknowledged number can be read back, and it passes the test |
| RdtSender.Sender.SendData | code/lab1 rdt/rdt_sender.cc:55-64 | opens the window to ten frames or the end of the queue and sends exactly the frames that came in |
| RdtSender.Sender.FromUpperLayer | code/lab1 rdt/rdt_sender.cc:84-134 | the new state and the packets sent are those of Submit; what these are, RdtMoves.Submitted says |
| RdtSender.Sender.FromLowerLayer | code/lab1 rdt/rdt_sender.cc:138-173 | the new state and the packets sent are those of Acknowledge; what these are, RdtMoves.Acknowledged says |
| RdtSender.Sender.Timeout | code/lab1 rdt/rdt_sender.cc:177-190 | the new state and the packets sent are those of Expire; what these are, RdtMoves.Expired says |
| RdtSender.MessageFrames | code/lab1 rdt/rdt_sender.cc:90-123 | numbered consecutively, all passing the test, as many as the size demands |
| RdtSender.FrameCountIs | code/lab1 rdt/rdt_sender.cc:90-123 | the first frame takes 114 bytes of a message and every other one 118 |
| RdtReceiver.Receiver.MoveWindow | code/lab1 rdt/rdt_receiver.cc:52-108 | hands over a finished message, then consumes waiting frames as Drain does; slots stand for the expected frame and those after it |
| RdtReceiver.Receiver.FromLowerLayer | code/lab1 rdt/rdt_receiver.cc:134-199 | state, messages delivered and acknowledgement are those of Receive, for which see RdtMoves.ReceiveMeans; between events slot 0 stands for the frame after the expected one |
| RdtMessages.MessageFramesFragment | code/lab1 rdt/rdt_sender.cc:84-123 | the frames of a message carry it: sizes and payloads are consecutive pieces of it |
| RdtMessages.MessageRun | code/lab1 rdt/rdt_receiver.cc:62-105 | reassembly inverts fragmentation: all frames of a message hand over exactly that message, a proper part hands over nothing |
| RdtMessages.WholeMessages | code/lab1 rdt/rdt_receiver.cc:52-108 | after any number of frames of a sequence of messages, exactly a prefix of the messages has been handed over |
| RdtSystem.ReceiveInv | code/lab1 rdt/rdt_receiver.cc:134-199 | a genuine packet keeps the receiver in step with the frames below the expected one, and is acknowledged truthfully |
| RdtSystem.AckInv | code/lab1 rdt/rdt_sender.cc:138-173 | an acknowledgement keeps the invariant of the whole system |
| RdtSystem.StepInv | code/lab1 rdt/rdt_sim.cc:236-353 | every event, including loss, repetition, reordering and corruption of packets, keeps the invariant of the whole system |
| RdtRuns.Safety | code/lab1 rdt/rdt_receiver.cc:52-199 | in every run the messages delivered are a prefix, byte for byte, of the messages accepted |
| RdtRuns.Window | code/lab1 rdt/rdt_sender.cc:55-190 | in every reachable state the timer is set exactly if the window is not empty, exactly if the queue is not empty; the expected frame lies in or just behind the window; every data packet in flight is numbered less than ten above the expected frame; an empty queue means all was delivered |
| RdtRuns.NoOverrun | code/lab1 rdt/rdt_receiver.cc:155-181 | copying a payload into the message under construction never goes past its end: neither for the frame that arrives nor for any waiting one, since it holds of every frame of the sender when its turn comes; and the message under construction is what the frames before it make |
| RdtRuns.Progress | code/lab1 rdt/rdt_sender.cc:138-190 | from every state of the invariant a run without loss, repetition, corruption or new messages empties the queue and delivers all that was accepted |
| RdtRuns.CanFinish | code/lab1 rdt/rdt_sender.cc:138-190 | so does one from every reachable state |
| RdtMoves.Submitted | code/lab1 rdt/rdt_sender.cc:84-134 | a message given to an idle sender opens the window to ten frames or all there are, and exactly those are sent; otherwise nothing is sent and the window stays |
| RdtMoves.Acknowledged | code/lab1 rdt/rdt_sender.cc:138-173 | an intact acknowledgement inside the window removes exactly the frames up to it, opens the window to ten frames or all there are, and sends exactly the frames from the old limit to the new one; any other removes and sends nothing |
| RdtMoves.Expired | code/lab1 rdt/rdt_sender.cc:177-190 | exactly the frames of the window are sent again |
| RdtMoves.ReceiveMeans | code/lab1 rdt/rdt_receiver.cc:134-199 | by the number of the frame: an old one is acknowledged again, an early one waits, and with the expected one all that waited for it is taken: the new expected number is the least above it that was not waiting, and the acknowledgement is the one before |
| RdtMoves.Received | code/lab1 rdt/rdt_receiver.cc:52-199 | in every run, in whatever order frames arrive, the receiver expects the least frame that has not arrived intact, keeps all later ones that have, and has delivered exactly the messages all of whose frames lie below |
| SheetCells.CellIdInjective | code/lab5 gDoc/sheetfs/master/sheetfile/cell.go:81-94 | different rows or columns have different ids, also where the id is negative |
| SheetCells.CellIdDecodes | code/lab5 gDoc/sheetfs/master/sheetfile/cell.go:81-94 | row and column are the upper and the lower half of the 64 bits of the id |
| SheetCells.MetaCellPlace | code/lab5 gDoc/sheetfs/master/config/config.go:9-16 | only the last row and column together have the id -1 |
| SheetCells.IsAvailable | code/lab5 gDoc/sheetfs/master/sheetfile/chunk.go:40-47 | the loop computes the comparison with unsigned 64-bit wrap-around |
| SheetCells.Room | code/lab5 gDoc/sheetfs/master/sheetfile/chunk.go:40-47 | for the list of a properly laid out chunk the subtraction does not wrap; there is room for a cell exactly while a slot is free |
| SheetCells.WrappedRoom | code/lab5 gDoc/sheetfs/master/sheetfile/chunk.go:40-47 | in a chunk that is over-full the unsigned subtraction wraps around and there seems to be room |
| SheetFiles.LayoutMeans | code/lab5 gDoc/sheetfs/master/sheetfile/sheetfile.go:184-216 | in a laid out file every cell has bytes of its own inside its chunk, the meta cell is alone, every cell is in the list of its chunk, and the lists hold only cells of the map, each once, in its own chunk |
| SheetFiles.CreateLayout | code/lab5 gDoc/sheetfs/master/sheetfile/sheetfile.go:65-90 | a new file is laid out, and packed |
| SheetFiles.WriteLayout | code/lab5 gDoc/sheetfs/master/sheetfile/sheetfile.go:232-281 | every write with a new chunk id keeps the layout |
| SheetFiles.WriteMeans | code/lab5 gDoc/sheetfs/master/sheetfile/sheetfile.go:232-281 | a write never moves a cell, raises one version by one and touches nothing else; it fails if and only if the cell is new, the current chunk has no room for it and no data node is given |
| SheetObjects.SheetFile.Create | code/lab5 gDoc/sheetfs/master/sheetfile/sheetfile.go:65-90 | the object holds the file that Create describes |
| SheetObjects.SheetFile.AddCellToLastAvailable | code/lab5 gDoc/sheetfs/master/sheetfile/sheetfile.go:208-217 | the shared chunk object and the map show the new cell, as AddCell says |
| SheetObjects.SheetFile.WriteCellChunk | code/lab5 gDoc/sheetfs/master/sheetfile/sheetfile.go:232-281 | in place, with the current chunk shared between map and field, does what WriteCell says |
| SheetLoading.WholeLife | code/lab5 gDoc/sheetfs/master/sheetfile/sheetfile.go:110-140 | from its creation on, a file that is stored and loaded again at any points of its life answers every write, cell, chunk, data node and version, as one that stays in memory |
| SheetLoading.AlwaysPacked | code/lab5 gDoc/sheetfs/master/sheetfile/sheetfile.go:232-281 | after any writes to a created file it is laid out and every chunk but the current one is full |
| SheetObjects.SheetFile.Replay | code/lab5 gDoc/sheetfs/master/filemgr/filemgr.go:467-525 | replays the chunk and the cell of one entry in place |
| SheetObjects.LoadFile | code/lab5 gDoc/sheetfs/master/sheetfile/sheetfile.go:110-140 | the loop builds the file that Load describes |
| SheetLoading.LoadedFromRows | code/lab5 gDoc/sheetfs/master/sheetfile/sheetfile.go:110-140 | for any rows: a chunk is loaded if and only if some row names it, with its own row and exactly the rows that name it; without a row of its own it comes out all zero |
| SheetLoading.LoadedLast | code/lab5 gDoc/sheetfs/master/sheetfile/sheetfile.go:110-140 | for any rows: the current chunk after loading is the first one with room, in the order of the rows, if there is one |
| SheetLoading.LoadContent | code/lab5 gDoc/sheetfs/master/sheetfile/sheetfile.go:110-140 | from the stored rows, in any order, comes a file with the same cells, versions, data nodes and chunk lists up to order |
| SheetLoading.PersistThenLoad | code/lab5 gDoc/sheetfs/master/sheetfile/sheetfile.go:110-140 | a packed file, stored and loaded, is equivalent: the same content and the same place for the next cell |
| SheetLoading.WritePacked | code/lab5 gDoc/sheetfs/master/sheetfile/sheetfile.go:232-281 | writes keep every chunk but the current one full |
| SheetLoading.SameWrite | code/lab5 gDoc/sheetfs/master/sheetfile/sheetfile.go:232-281 | equivalent files answer a write alike and stay equivalent |
| SheetLoading.LoadIsIdentity | code/lab5 gDoc/sheetfs/master/sheetfile/sheetfile.go:110-140 | a file that was stored and loaded answers every later run of writes, cell, chunk, data node and version, as the original would |
| MasterJournal.ConversionsInvert | code/lab5 gDoc/sheetfs/master/journal/journal_entry/conversions.go:9-70 | cells, chunks and directory entries are read back from the journal as they were written |
| MasterJournal.HandleWrites | code/lab5 gDoc/sheetfs/master/filemgr/filemgr.go:446-557 | a proper entry is accepted exactly if its file is known, and then writes the values it names and nothing else |
| MasterJournal.DirectoryPart | code/lab5 gDoc/sheetfs/master/filemgr/filemgr.go:446-465 | for any entry: the directory part sets or removes one name and leaves the others |
| MasterJournal.FaultyRefused | code/lab5 gDoc/sheetfs/master/filemgr/filemgr.go:527-557 | an entry is refused if and only if it has only one of cell and chunk, or two that do not belong together, or a file the directory does not have; then no file changes |
| MasterJournal.AbsentRemoves | code/lab5 gDoc/sheetfs/master/filemgr/filemgr.go:467-525 | an accepted entry with target state ABSENT removes its cell and its chunk and nothing else |
| MasterJournal.PlaceReplaces | code/lab5 gDoc/sheetfs/master/filemgr/filemgr.go:487-498 | the first cell with the same id is replaced where it stands |
| MasterJournal.ReplayedAgrees | code/lab5 gDoc/sheetfs/master/filemgr/filemgr.go:467-525 | replaying a write keeps cell map and chunk lists in agreement |
| MasterJournal.WriteReplays | code/lab5 gDoc/sheetfs/master/filemgr/filemgr.go:339-356 | a write has changed cells, chunks and lists exactly as replaying its journal entry would |
| MasterJournal.CreateReplays | code/lab5 gDoc/sheetfs/master/filemgr/filemgr.go:156-191 | so has the creation of a file |
| SheetObjects.ChunkObject.EnsureConsistency | code/lab5 gDoc/sheetfs/master/filemgr/filemgr.go:487-498 | the loop replaces the cell with the same id or appends, as Place says |
| SheetObjects.SheetFile.HandleChunkEntry | code/lab5 gDoc/sheetfs/master/filemgr/filemgr.go:467-485 | replays a chunk entry in place, the removal of a chunk included |
| SheetObjects.SheetFile.HandleCellEntry | code/lab5 gDoc/sheetfs/master/filemgr/filemgr.go:500-525 | replays a cell entry in place, in map and list, the removal of a cell included |
| MasterObjects.FileManager.CreateSheet | code/lab5 gDoc/sheetfs/master/filemgr/filemgr.go:156-191 | the new file is an object of its own in the table; state, journal and answer are those of Creating, error cases included |
| MasterObjects.FileManager.OpenSheet | code/lab5 gDoc/sheetfs/master/filemgr/filemgr.go:99-119 | a file not in memory is loaded into an object of its own; state, journal and answer are those of Opening |
| MasterObjects.FileManager.MarkSheet | code/lab5 gDoc/sheetfs/master/filemgr/filemgr.go:220-268 | state, journal and answer are those of Marking |
| MasterObjects.FileManager.WriteFileCell | code/lab5 gDoc/sheetfs/master/filemgr/filemgr.go:339-356 | the object of that file is changed in place and shares nothing with the others, which stay as they are; state, journal and answer are those of Writing |
| MasterObjects.FileManager.HandleEntry | code/lab5 gDoc/sheetfs/master/filemgr/filemgr.go:527-557 | cell and chunk are replayed into the file object in place; state and verdict are those of HandleMasterEntry, and nothing is journaled |
| MasterPrimary.PerformDescribes | code/lab5 gDoc/sheetfs/master/filemgr/filemgr.go:156-356 | every operation of the primary keeps all files laid out, no chunk in two files and no content outside the directory, and journals an entry that says exactly what it changed |
| MasterPrimary.PerformKeepsStored | code/lab5 gDoc/sheetfs/master/filemgr/filemgr.go:156-356 | an operation changes nothing of what a restart would load |
| MasterPrimary.RecycleAndResume | code/lab5 gDoc/sheetfs/master/filemgr/filemgr.go:220-268 | a recycled file cannot be opened, a resumed one can, and resuming undoes recycling |
| MasterPrimary.CreateThenUse | code/lab5 gDoc/sheetfs/master/filemgr/filemgr.go:156-191 | a created file is open under the descriptor returned, holds just its meta cell, can be opened again and cannot be created again |
| MasterPrimary.WriteThenRead | code/lab5 gDoc/sheetfs/master/filemgr/filemgr.go:314-356 | a read after a write returns the cell and chunk that the write returned, one version up; when writes fail, and that they then change nothing |
| MasterClients.Descriptors | code/lab5 gDoc/sheetfs/master/filemgr/filemgr.go:99-191 | a descriptor that is returned was not in use and names the file created or opened, descriptors are consecutive, and all older ones name what they named before |
| MasterClients.OpenedForever | code/lab5 gDoc/sheetfs/master/filemgr/filemgr.go:99-119 | over any runs before and after: the descriptor returned by an open is new, and names the file opened ever after |
| MasterClients.OpenThenWrite | code/lab5 gDoc/sheetfs/master/filemgr/filemgr.go:99-119 | a write through the descriptor of an open changes that file as WriteCell says, and no other |
| MasterClients.CreateThenRead | code/lab5 gDoc/sheetfs/master/filemgr/filemgr.go:156-191 | a created file shows its meta cell, with all of a chunk on the data node given, at version 0, and no other cell; no other file changes |
| MasterClients.Verdicts | code/lab5 gDoc/sheetfs/master/filemgr/filemgr.go:99-268 | when each operation succeeds and with which error it fails |
| MasterClients.FilesStay | code/lab5 gDoc/sheetfs/master/filemgr/filemgr.go:99-268 | opening, recycling and resuming change no file, and no other directory entry |
| MasterClients.ChunkRows | code/lab5 gDoc/sheetfs/master/filemgr/filemgr.go:156-356 | a new chunk gets a row at version 0 on its data node; an operation changes nothing else of the database |
| MasterPersist.PersistKeeps | code/lab5 gDoc/sheetfs/master/filemgr/filemgr.go:390-409 | the checkpoint transaction leaves a database from which a restart has, key by key, what was in memory; the manager itself sees no difference |
| MasterPersist.PersistPossible | code/lab5 gDoc/sheetfs/master/filemgr/filemgr.go:390-409 | the transaction can be carried out from every such state |
| MasterRecovery.ReplayMessage | code/lab5 gDoc/sheetfs/master/filemgr/filemgr.go:527-557 | replaying the next message onto a snapshot that may already be ahead of it is accepted, and brings every key to that message or leaves it at a later one |
| MasterCluster.StepInv | code/lab5 gDoc/sheetfs/master/journal/listener.go:54-140 | serving, following, each of the three steps of a checkpoint, and a crash at any point keep the invariant of a node |
| MasterCluster.Agreement | code/lab5 gDoc/sheetfs/master/filemgr/filemgr.go:527-580 | after every run of serving, following, checkpointing and crashing, a node that has taken the whole journal has the primary's directory, cells, versions, data nodes and chunk lists up to order |
| MasterCluster.AlwaysLaidOut | code/lab5 gDoc/sheetfs/master/sheetfile/sheetfile.go:193-281 | in every state of every run, during replay and after loading too, each file of the node is laid out: ranges of cells disjoint and inside their chunk, map and lists in agreement |
| MasterCluster.OtherPossible | code/lab5 gDoc/sheetfs/master/filemgr/filemgr.go:156-356 | what any other primary journals is among the messages a node is shown to cope with |
| MasterCluster.EmptyJournalCheckpointLoses | code/lab5 gDoc/sheetfs/common_journal/writer.go:131-144 | a checkpoint of an empty journal makes a restart skip message 1: whatever file is created next is lost |
| MasterReplica.ReplicaAgreement | code/lab5 gDoc/sheetfs/master/filemgr/filemgr.go:446-557 | replaying the journal of any run of the primary into an empty manager gives an exact copy: directory, cells, versions, data nodes, and chunk lists in order |
| CommonJournal.Writer.CommitEntry | code/lab5 gDoc/sheetfs/common_journal/writer.go:63-100 | appends the entry and knows its offset |
| CommonJournal.Writer.WriteCheckpoint | code/lab5 gDoc/sheetfs/common_journal/writer.go:131-144 | the offset handed out lies at or before the end of the journal exactly if the journal was not empty |
| ChunkBytes.Uint64RoundTrip | code/lab5 gDoc/sheetfs/datanode/utils/utils.go:28-36 | eight bytes, highest first, are read back as the number |
| ChunkBytes.DigitsAt | code/lab5 gDoc/sheetfs/datanode/utils/utils.go:28-36 | which digit of the number stands where: the highest first |
| ChunkBytes.GetPaddedData | code/lab5 gDoc/sheetfs/datanode/utils/utils.go:48-59 | the data cut to the target size and padded up to it |
| ChunkBytes.GetPaddedFile | code/lab5 gDoc/sheetfs/datanode/utils/utils.go:61-76 | a file of padding with the data at its offset |
| ChunkStore.VersionStored | code/lab5 gDoc/sheetfs/datanode/utils/utils.go:78-90 | the version read is the one last stored, and storing it leaves the data alone |
| ChunkStore.PaddedMeans | code/lab5 gDoc/sheetfs/datanode/utils/utils.go:48-59 | byte by byte, what is sent and journaled: the client's data up to size, target size and their end, and padding behind |
| ChunkStore.UpdatedMeans | code/lab5 gDoc/sheetfs/datanode/utils/utils.go:61-90 | byte by byte, the file after an accepted write: the client's data and padding in the slot, around it what was there, or padding in a new file; and the version |
| ChunkStore.WriteMeans | code/lab5 gDoc/sheetfs/datanode/server/server.go:100-178 | a write is answered OK if and only if its version is the next one, and then changes its chunk only; otherwise nothing changes |
| ChunkStore.ReadMeans | code/lab5 gDoc/sheetfs/datanode/server/server.go:63-98 | a read is answered OK if and only if the chunk is there, at the version asked for or a later one, and long enough; with exactly those bytes |
| ChunkStore.WrittenIsThere | code/lab5 gDoc/sheetfs/datanode/server/server.go:63-178 | what was written is read back: the client's bytes, and padding behind them |
| ChunkStore.UnknownIgnored | code/lab5 gDoc/sheetfs/datanode/server/server.go:184-262 | entries of any other kind change nothing |
| ChunkStore.DecodeWrite | code/lab5 gDoc/sheetfs/datanode/journal/journal.go:10-21 | the secondary reads from a write entry what the primary put in |
| ChunkStore.DecodeDelete | code/lab5 gDoc/sheetfs/datanode/journal/journal.go:23-28 | and from a delete entry |
| ChunkStore.Server.WriteChunk | code/lab5 gDoc/sheetfs/datanode/server/server.go:100-178 | files and status are those of Write; the entry is journaled in every case |
| ChunkStore.Server.ReadChunk | code/lab5 gDoc/sheetfs/datanode/server/server.go:63-98 | the bytes asked for if the file is there, at the version asked for or later, and long enough; the errors of the source otherwise |
| ChunkStore.Server.DeleteChunk | code/lab5 gDoc/sheetfs/datanode/server/server.go:37-61 | removes the file and journals it |
| ChunkStore.Server.HandleMsg | code/lab5 gDoc/sheetfs/datanode/server/server.go:184-262 | files are those of Handle for the decoded entry |
| ChunkReplica.AcceptedAgrees | code/lab5 gDoc/sheetfs/datanode/server/server.go:121-171 | primary and secondary agree after an accepted write exactly if the file was there, or the padding is a space, or the write covers the file |
| ChunkReplica.RefusedAgrees | code/lab5 gDoc/sheetfs/datanode/server/server.go:107-119 | they agree after a refused write exactly if the file is there with the request's version and, by checksum, its bytes |
| ChunkReplica.WriteAgrees | code/lab5 gDoc/sheetfs/datanode/server/server.go:100-238 | both cases in one condition that can be checked before the call |
| ChunkRequests.AppliedIsReplayed | code/lab5 gDoc/sheetfs/datanode/server/server.go:184-262 | applying the bytes of the journal entries is replaying the requests they were made from |
| ChunkRequests.ReplicaAgreement | code/lab5 gDoc/sheetfs/datanode/server/server.go:100-262 | for every run of writes and deletions, through the bytes of the journal: the secondary has the primary's files, byte for byte, after each request, if and only if every write meets the condition of WriteAgrees on the primary's files at its time |
| ChunkRequests.Ordered | code/lab5 gDoc/sheetfs/datanode/server/server.go:100-262 | the journal of accepted writes and deletions is ordered: each write is the next version when a secondary comes to it, and the secondary knows the same chunks at the same versions as the primary |
| ChunkRequests.ReplayTwice | code/lab5 gDoc/sheetfs/datanode/server/server.go:184-262 | for every checksum function, applying the journal of any accepted writes and deletions once more changes nothing, also where slots overlap |
| ChunkReplays.AnyTwice | code/lab5 gDoc/sheetfs/datanode/server/server.go:184-262 | for every checksum function, applying the journal of any writes and deletions once more changes nothing, accepted or refused, in any order and with repetitions, if two writes to a chunk have the same slot or no byte in common |
| ChunkVersions.Serialized | code/lab5 gDoc/sheetfs/datanode/server/server.go:155-177 | for every order, repetition and loss of requests, a chunk at version v holds exactly the writes 1 to v of the master's order, applied in turn |
| ChunkVersions.ArrivalAgrees | code/lab5 gDoc/sheetfs/datanode/server/server.go:100-262 | in every run, request i leaves primary and secondary with equal files if and only if it repeats the last write applied, or is the next one and the file exists, the padding is a space or the write covers the file |
| ChunkVersions.Overtaken | code/lab5 gDoc/sheetfs/datanode/server/server.go:107-150 | a run after which a request that overtakes the first one makes primary and secondary differ |
| ChunkVersions.Repeated | code/lab5 gDoc/sheetfs/datanode/server/server.go:107-177 | a run after which the first request, arriving again, makes them differ |
| ChunkVersions.PaddedWithZeros | code/lab5 gDoc/sheetfs/datanode/server/server.go:121-150 | a first write that is accepted and makes them differ |
| ChunkVersions.ReadAfterWrite | code/lab5 gDoc/sheetfs/fsclient/file.go:166-229 | a read begun after a write was answered finds, in the slot of that write, the bytes of that write or of a later one, and padding behind them |
| ChunkVersions.AcknowledgedIsRead | code/lab5 gDoc/sheetfs/fsclient/file.go:166-305 | the same from the moment the node answers OK to a write, with any runs before, between and after |
| ChunkVersions.AnsweredWhen | code/lab5 gDoc/sheetfs/fsclient/file.go:213-229 | a read is answered if and only if all the writes it asks for have been applied |
| ClientWrites.MasterNumbers | code/lab5 gDoc/sheetfs/fsclient/file.go:253-305 | whatever is written to a file from its creation on, and whenever the master restarts, the requests a client sends to each chunk carry the versions 1, 2, 3 and so on, lie in the chunk, and have the same slot or no byte in common |
| ClientWrites.WrittenIsRead | code/lab5 gDoc/sheetfs/fsclient/file.go:166-305 | from the master to the data node: a read begun after a write was answered finds in its slot the bytes that a client wanted to write, with that write or a later one |
| MapReduce.DoMap | code/lab4-mapreduce/src/mapreduce/common_map.go:72-91 | appends to each of its intermediate files the pairs that hash to it, in order, and touches no file of another map task |
| MapReduce.DoReduce | code/lab4-mapreduce/src/mapreduce/common_reduce.go:58-96 | each key of its files once, in order, with reduceF of its values in map-task order |
| MapReduce.Merge | code/lab4-mapreduce/src/mapreduce/master_splitmerge.go:16-48 | each key once, in order, with the last of its values |
| MapReduce.SortedKeys | code/lab4-mapreduce/src/mapreduce/common_reduce.go:79-85 | the keys in lexicographic order, each once |
| MapReduce.BeforeMeans | code/lab4-mapreduce/src/mapreduce/common_reduce.go:79-85 | the order of keys: a proper prefix comes first, and so does the smaller of the first characters that differ |
| MapReduceJob.FilesByHash | code/lab4-mapreduce/src/mapreduce/common_map.go:72-91 | the file of a map task for reduce task r holds exactly the pairs it emitted under keys with hash r modulo the number of tasks, and all values of such a key in order |
| MapReduceJob.ColumnValues | code/lab4-mapreduce/src/mapreduce/common_map.go:72-91 | a reduce task sees all values of its keys, in map-task and emission order, and no other key |
| MapReduceJob.JobGroups | code/lab4-mapreduce/src/mapreduce/master_splitmerge.go:16-48 | the merged output is the group-by of everything that was emitted |
| MapReduceJob.AnyOrder | code/lab4-mapreduce/src/mapreduce/common_map.go:72-91 | however the map tasks are interleaved, pair by pair, the intermediate files come out the same |
| MapReduceJob.AnyOrderGroups | code/lab4-mapreduce/src/mapreduce/common_map.go:72-91 | however the map tasks are interleaved, the reduced and merged output is that group-by |
| MapReduceJob.Sequential | code/lab4-mapreduce/src/mapreduce/master.go:60-80 | a job run task after task is that group-by |
| Scheduler.OnePlace | code/lab4-mapreduce/src/mapreduce/schedule.go:35-69 | in every run each worker is in exactly one place: to come, offered, in a call, being returned, or lost |
| Scheduler.OneCallEach | code/lab4-mapreduce/src/mapreduce/schedule.go:50-64 | no worker is in two calls; none is offered while it is in a call; a lost one is not used again |
| Scheduler.FailedIsDropped | code/lab4-mapreduce/src/mapreduce/schedule.go:50-64 | in every run, a worker whose call has failed is never called again |
| Scheduler.CanFinish | code/lab4-mapreduce/src/mapreduce/schedule.go:35-69 | as long as one worker is left, every run can be brought to its end by calls that succeed |
| Scheduler.AllDone | code/lab4-mapreduce/src/mapreduce/schedule.go:35-69 | schedule returns only when every task has had exactly one successful call |

## Left out

- CheckOperations.CheckOperations: the method is the untimed check of a non-empty history; `ReceiveLoop.WholeCheck` covers timeouts and the empty history. The kill flag only stops parts whose verdict is no longer awaited.
- CheckOperations.MakeEntries: not equal times, where the unstable sort of the source may put a return before a call or the other way round.
- CheckOperations.SortByTime: not equal times.
- CheckOperations.CheckPart: not equal times.
- `CheckEvents`, `renumber`, `convertEntries`: the same search on histories given as events.
- `bitset.hash`: the cache is proved right for every hash function, so the exclusive-or of the words is not modelled.
- `sort.Sort` and `sort.Strings`: insertion sorts with the same result; times are distinct, since the sort is unstable.
- Bitset words are sequences of 64 binary digits; only `popcnt` works on their numbers.
- RdtSystem.StepInv: a corrupted packet is taken to fail the checksum test, which is proved for changes within one byte.
- RdtSender.Sender.FromUpperLayer: not more than 2^32 frames in all, where the numbers of the source wrap around.
- RdtReceiver.Receiver.FromLowerLayer: no wrap-around of frame numbers; and a payload size beyond the field of a frame is cut to it, where the source would copy past it. No frame of the sender announces one.
- Simulation time and rates of the transfer protocol.
- Cells of a sheet are values, so the copies that `Chunk.Snapshot` writes into the live list are the cells themselves; a cell's `SheetName` is the name of the file that holds it, and the time of recycling is left out.
- `FileManager.Persistent` is one transaction with any order of rows, given as a relation; its loops are not written out.
- Journal entries with target state ABSENT: the source never writes them; what replaying one does is `MasterJournal.AbsentRemoves`, and the theorems about whole runs do not cover them.
- SheetObjects.SheetFile.HandleChunkEntry: not the removal of the current chunk, after which the source keeps a pointer to an object that is in no map.
- MasterObjects.FileManager.HandleEntry: not the removal of the current chunk, for the same reason.
- SheetObjects.LoadFile: not tables with a cell whose chunk has no row or whose file is another; the transaction that stores a file never leaves such rows.
- `WriteFileCell` journals after the file's lock is released; here a change and its entry are one step.
- Chunk ids are new in the whole cluster; how a new master would come to allocate such ids is not modelled.
- Versions and file descriptors of the master beyond 2^64.
- ChunkVersions.Serialized: no deletion of the chunk meanwhile, and handlers are single steps.
- ChunkBytes.GetPaddedFile: not data that reaches beyond the file, where the source panics.
- ChunkStore.Server.WriteChunk: not requests whose slot does not lie in the file (the source would panic or grow the file), which `ClientWrites.MasterNumbers` shows are never sent; and no failures of Kafka or of the file system.
- ChunkStore.Server.HandleMsg: not entries for such requests, nor entries that are cut short.
- ChunkRequests.ReplayTwice: not refused requests, for which `ChunkReplays.AnyTwice` needs slots that are the same or apart, as `ClientWrites.MasterNumbers` shows they are.
- ClientWrites.MasterNumbers: fewer than 2^64 writes; retries of a client send the same request again and are the repeated arrivals of `ChunkVersions`.
- `fsclient` beyond reading and writing a cell; assembling a whole sheet from its chunks.
- Intermediate files are lists of pairs: the JSON encoding and the text format of the merged output are not modelled; each map task runs once.
- Scheduler.AllDone: that the phase ends depends on calls that succeed, as `Scheduler.CanFinish` says.
- Indexing `mapFiles` by task number, which needs at least as many input files as reduce tasks in the reduce phase.
- `raft`, `kvraft`, `shardmaster`, `shardkv`: handlers without a body.
- Elections, RPC, connection retries, the web application, DPDK and QoS code: input and output, or code that is not there.
