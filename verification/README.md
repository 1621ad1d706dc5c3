# CLBOSS core, modelled and verified in Dafny

CLBOSS manages a Lightning node: it chooses channels, sets fees, swaps funds and
answers the node's hooks, on top of its own green-thread runtime. This project
models its most intricate parts and proves what they promise, for every input,
every run and every interleaving. `dafny verify dfyconfig.toml` checks everything.

| file | models |
|---|---|
| `Wrappers.dfy`, `Amount.dfy` | optional values; `Ln::Amount`: saturating and wrapping 64-bit arithmetic |
| `Dijkstra.dfy` | the passive shortest-path search with lazy deletion and in-place links |
| `ChannelFinder.dfy` | the driver of that search and the leaf scan |
| `ThreadPool.dfy` | workers and main thread over a mutex, a condition variable and a pipe |
| `SqliteTx.dfy` | transactions on one connection, with handoff and failing BEGINs |
| `Semaphore.dfy`, `ParallelMap.dfy` | the green-thread semaphore and parallel map |
| `Coroutine.dfy` | the coroutine promise and the list of frames to destroy |
| `BitcoinWire.dfy`, `BitcoinStreams.dfy` | the transaction format, and the stream operators that implement it |
| `Bech32.dfy` | segwit addresses to scripts |
| `ClaimTx.dfy`, `Lockscript.dfy`, `SwapLifecycle.dfy` | reverse submarine swaps: claim transaction, script template, table and server |
| `PriceTheory.dfy` | the price-theory card game |
| `Preinvestigator.dfy`, `HtlcAcceptor.dfy` | two message protocols |
| `Dowser.dfy` | the capacity search |
| `Reservoir.dfy` | the top-m reservoir |

Each protocol is a state with atomic steps (one `then` body of a green thread, or
what an OS thread does between two scheduling points), an invariant that every step
keeps, and a theorem over every run. Beside it stands a class in the form of the
original, whose methods are proved to do exactly those steps. Fields called history
in the comments record the past for the theorems and do not exist in the original.

The heap of the search is modelled by its top and the bag of other entries, so all
layouts and tie-breaks of `std::priority_queue` are covered. Hashes, keys, signatures,
the oracle of the capacity search, server answers, shuffles and the outcomes of BEGIN
are parameters or arbitrary. A parser's stream that has gone bad yields arbitrary
values and stays bad.

## Where the code does less than its purpose

- Amounts survive the transaction format only as whole satoshi, and the largest
  multiple of 1000 msat does not (`Amounts.SatRoundTrip`); a transaction without
  inputs is never read back as itself (`BitcoinWire.RoundTripIff` says exactly when).
- The claim output can be dust for a lockup of 2^64 - 1 msat, an amount no swap can
  have (`ClaimTx.OutputPaysIff`, `ClaimTx.SatoshiIsNeverMax`), and its fee can be too
  small for scripts of four gigabytes, which no swap has (`ClaimTx.FeeCoversWeight`,
  `SwapLifecycle.BroadcastsPayTheirWeight`).
- The timeout checks wrap within 12 blocks of the 32-bit limit
  (`SwapLifecycle.TimeoutChecksIff`), and an answered amount within 999 msat of the
  64-bit limit is stored as zero (`SwapLifecycle.StoredSwapsAreOurs`,
  `SwapLifecycle.WrappedAmountExample`); no such amount is a number of satoshi that a
  double can hold, and the original reads it from one.
- Signatures commit to the script's wire form only for scripts below 253 bytes
  (`ClaimTx.ScriptCodeIff`); the swaps' scripts have 106.
- The capacity search can report no flow for capacities up to one satoshi above the
  caller's threshold, although its comment says such a capacity is below any relevant
  one; `DowserSearch.ZeroReportsAreRightIff` says exactly for which thresholds the
  comment holds.
- Five refining probes are enough exactly for the ceilings of
  `DowserSearch.FinishesIff`, which include every amount of bitcoin that can exist;
  above them a midpoint wraps. With a resolution of zero the recursion would not end,
  and the constructor rules that out.
- The full-flow promise of the probe sizing holds exactly up to 0.985 of the largest
  amount (`DowserSearch.FullFlowMeetsTarget`).
- Answers to other modules' connect requests also release waiting Cases; then more
  than one connect to a node can be outstanding (`Preinvestigator.OneConnectPerNode`
  says exactly when), but no Case is left without one
  (`Preinvestigator.WaitingCasesAreServed`).
- A hook whose deferrer throws is answered if and only if somebody releases it
  (`HtlcHooks.HooksAreAnsweredOnce`, `HtlcHooks.UnansweredExample`).

## Model

| member | source | states |
|---|---|---|
| `Amounts.SatAddIsCappedSum` | Ln/Amount.hpp:73-81 | the compare-after-wrap test computes the sum capped at the 64-bit maximum, for all operands |
| `Amounts.SatRoundTrip` | Ln/Amount.hpp:53-60 | satoshi conversion and back is the identity if and only if the amount is whole satoshi and its rounding does not wrap |
| `ShortestPath.CurrentIsLeastOpen` | Graph/Dijkstra.hpp:91-95 | with stale entries still queued, the top entry carries its node's present cost, which is least among all nodes not closed |
| `ShortestPath.ReparentInverse` | Graph/Dijkstra.hpp:211-225 | moving a node under another parent keeps parent and child links exact inverses without duplicates |
| `ShortestPath.ImprovedIsOpen` | Graph/Dijkstra.hpp:107-128 | only an open node other than the current one and the root can be improved, although the closed set is not consulted |
| `ShortestPath.NeighborInv` | Graph/Dijkstra.hpp:107-128 | reporting any edge keeps the invariant, leaves `current()` as it is and changes no closed node |
| `ShortestPath.CloseInv` | Graph/Dijkstra.hpp:138-147 | closing the current node and filtering stale tops keeps the invariant, for every heap layout |
| `ShortestPath.NoPathIsCheaper` | Graph/Dijkstra.hpp:107-147 | no path of reported edges is cheaper than the recorded cost of its end |
| `ShortestPath.TreePath` | Graph/Dijkstra.hpp:211-225 | the parent links spell a path of reported edges whose cost is the recorded cost |
| `ShortestPath.CostsAreShortest` | Graph/Dijkstra.hpp:107-147 | in every reachable state, also of unfinished runs, exactly the nodes reachable by reported edges are in the tree, each at its least path cost |
| `ShortestPath.PathCostIsCappedSum` | Graph/Dijkstra.hpp:111 | a path cost is the exact sum of its edges, capped once |
| `ShortestPath.HangsUnderRoot` | Graph/Dijkstra.hpp:211-225 | following parent links from any node arrives at the root |
| `ShortestPath.LinksAreAcyclic` | Graph/Dijkstra.hpp:211-225 | no node is its own proper ancestor, also with zero-cost edges |
| `ShortestPath.RunInv` | Graph/Dijkstra.hpp:91-147 | over every run the invariant holds and closed nodes stay closed at the same cost, in the same order |
| `ShortestPath.ClosedCostIsFinal` | Graph/Dijkstra.hpp:138-147 | the cost at closing time is already the least over all edges reported at any later time; closing costs never decrease |
| `ShortestPath.Dijkstra.constructor` | Graph/Dijkstra.hpp:191-195 | starts with only the root, queued at its cost |
| `ShortestPath.Dijkstra.Current` | Graph/Dijkstra.hpp:91-95 | a discovered node that is not closed and of least cost among those; none exactly when every discovered node is closed |
| `ShortestPath.Dijkstra.Reparent` | Graph/Dijkstra.hpp:211-225 | in-place link change equal to the reparenting the lemmas are about |
| `ShortestPath.Dijkstra.PushEntry` | Graph/Dijkstra.hpp:163-187 | a heap push: the top changes only for a strictly cheaper entry |
| `ShortestPath.Dijkstra.Neighbor` | Graph/Dijkstra.hpp:107-128 | refines the relaxation step; keeps the invariant, the current node and all closed nodes |
| `ShortestPath.Dijkstra.PopEntry` | Graph/Dijkstra.hpp:163-187 | a heap pop: the remaining entries, with a least one on top |
| `ShortestPath.Dijkstra.PopWhileClosed` | Graph/Dijkstra.hpp:143-146 | pops exactly until the top is not closed, losing no open entry |
| `ShortestPath.Dijkstra.EndNeighbors` | Graph/Dijkstra.hpp:138-147 | closes the current node and keeps the invariant |
| `ChannelFinder.GraphIff` | Boss/Mod/ChannelFinderByDistance.cpp:218-250 | the edges of the network are the active channels that cost no more than the limit, at the cost and in the direction of their listing |
| `ChannelFinder.CompleteRunSolves` | Boss/Mod/ChannelFinderByDistance.cpp:187-264 | when the queue is empty the tree holds exactly the nodes reachable over usable channels, each at its least cost over the whole network |
| `ChannelFinder.ScanStep` | Boss/Mod/ChannelFinderByDistance.cpp:288-308 | one turn of the scan keeps visited and queued nodes together equal to the root and the children of visited nodes, each once |
| `ChannelFinder.ScanComplete` | Boss/Mod/ChannelFinderByDistance.cpp:277-309 | an empty queue means every tree node was visited exactly once and the childless ones were collected exactly once |
| `ChannelFinder.Run.Step` | Boss/Mod/ChannelFinderByDistance.cpp:209-264 | reports exactly the usable channels of the current node, and closes it unless the listing is malformed |
| `ChannelFinder.Run.Loop` | Boss/Mod/ChannelFinderByDistance.cpp:187-208 | terminates; it is complete if and only if every listing asked for was well formed, and then the whole network is solved |
| `ChannelFinder.Run.FindLeaves` | Boss/Mod/ChannelFinderByDistance.cpp:266-309 | terminates; visits every node once and collects exactly the childless nodes, also after an aborted search |
| `ThreadPools.PopFindsResult` | Ev/ThreadPool.cpp:151-157 | the handler never pops an empty result queue |
| `ThreadPools.StepInv` | Ev/ThreadPool.cpp:94-170 | every step of every thread keeps mutex ownership, pipe bytes matching queued results, task places, the task count and the wakeup condition |
| `ThreadPools.StepPlaces` | Ev/ThreadPool.cpp:94-170 | a step moves a task between places; only `add` brings one in and only the end of the handler takes one out |
| `ThreadPools.StepWake` | Ev/ThreadPool.cpp:94-102 | a sleeping worker implies an awake one, or a pending notification, per queued task |
| `ThreadPools.RunInv` | Ev/ThreadPool.cpp:94-240 | the invariant in every state of every interleaving, for any number of threads |
| `ThreadPools.QueuedWorkHasAwakeWorker` | Ev/ThreadPool.cpp:94-102 | before shutdown, queued work never coexists with all workers asleep and no notification pending |
| `ThreadPools.TasksAreConserved` | Ev/ThreadPool.cpp:117-170 | each added task is in exactly one place or done exactly once; at rest the watcher is live exactly when some added task is not done |
| `ThreadPools.WorkIsFifo` | Ev/ThreadPool.cpp:94-170 | over every interleaving: work is taken up in the order in which it was added, and main-thread stages run in the order in which results were queued |
| `ThreadPools.JoinWaitsForNoSleeper` | Ev/ThreadPool.cpp:230-240 | after the destructor's broadcast no worker sleeps, and one reaching the queue test leaves |
| `ThreadPools.Pool.constructor` | Ev/ThreadPool.cpp:179-207 | the pool starts empty with its threads about to lock, satisfying the invariant |
| `ThreadPools.Pool.LockMutex` | Ev/ThreadPool.cpp:119-130 | a worker takes the free mutex |
| `ThreadPools.Pool.TakeWork` | Ev/ThreadPool.cpp:94-102 | exits on shutdown, sleeps on an empty queue, otherwise takes the oldest work |
| `ThreadPools.Pool.QueueResult` | Ev/ThreadPool.cpp:107-108 | appends the result under the mutex |
| `ThreadPools.Pool.WriteByte` | Ev/ThreadPool.cpp:109-114 | adds one byte to the pipe |
| `ThreadPools.Pool.AddUnderLock` | Ev/ThreadPool.cpp:209-214 | appends the work under the mutex |
| `ThreadPools.Pool.AddNotify` | Ev/ThreadPool.cpp:215 | wakes a sleeper if there is one |
| `ThreadPools.Pool.AddRegister` | Ev/ThreadPool.cpp:216-228 | counts the task and starts the watcher if it was stopped |
| `ThreadPools.Pool.HandlerRead` | Ev/ThreadPool.cpp:145-149 | takes one byte from the pipe |
| `ThreadPools.Pool.HandlerPop` | Ev/ThreadPool.cpp:151-157 | takes the oldest result, which exists |
| `ThreadPools.Pool.HandlerFinish` | Ev/ThreadPool.cpp:159-169 | uncounts the task, stops the watcher at zero, and runs the main-thread stage |
| `SqliteTx.FinishInv` | Sqlite3/Db.cpp:98-105 | handing over keeps the invariant through any chain of waiters whose BEGIN fails |
| `SqliteTx.ConstructInv` | Sqlite3/Tx.cpp:45-53 | a constructor that fails and releases recursively still leaves a holder, or the flag cleared |
| `SqliteTx.TransactInv` | Sqlite3/Db.cpp:77-96 | asking for a transaction keeps the invariant |
| `SqliteTx.CommitInv` | Sqlite3/Tx.cpp:65-83 | commit, refused or not, is called on the holder, releases once, leaves the connection idle before the handoff and the moved-out object spent, and its effects in the file exactly if COMMIT succeeded |
| `SqliteTx.DurableWereCommitted` | Sqlite3/Tx.cpp:54-83 | over every run: the effects of a transaction are kept only if its commit was not refused; what is dropped leaves nothing |
| `SqliteTx.SpentIsInert` | Sqlite3/Tx.cpp:35-64 | a second release changes nothing, and the destructor of a released object only removes it: it never ends its successor's transaction nor lets another waiter in |
| `SqliteTx.DropInv` | Sqlite3/Tx.cpp:54-64 | destroying an uncommitted transaction has the effect of a refused commit and the destruction after it |
| `SqliteTx.ReleasedObjectsAreInert` | Sqlite3/Tx.cpp:112-119 | over every run: a released object is never active, and its late destructor leaves connection, queue and holder as they are |
| `SqliteTx.SpentBesideRunning` | Sqlite3/Tx.cpp:112-119 | a run in which a committed object outlives the BEGIN of its successor |
| `SqliteTx.TransactionsAreSerial` | Sqlite3/Db.cpp:77-105 | over every sequence of calls, destructors and failing BEGINs: at most one unreleased object, each released once, BEGIN only on an idle connection, FIFO handoff, and the flag set exactly while someone holds the database |
| `SqliteTx.Database.NewTx` | Sqlite3/Tx.cpp:45-53 | the constructor, including the release and throw on a failed BEGIN |
| `SqliteTx.Database.TransactionFinish` | Sqlite3/Db.cpp:98-105 | starts the first waiter, or clears the flag |
| `SqliteTx.Database.Transact` | Sqlite3/Db.cpp:77-96 | starts at once or queues |
| `SqliteTx.Database.ReleaseTx` | Sqlite3/Tx.cpp:35-42 | hands over at the first call; a later call changes nothing |
| `SqliteTx.Database.CommitTx` | Sqlite3/Tx.cpp:65-83 | ends the transaction whether or not COMMIT is refused, throws exactly if its effects are not kept, and keeps the spent object for its destructor |
| `SqliteTx.Database.DestroyTx` | Sqlite3/Tx.cpp:54-64 | rolls back if active, releases, and goes; for a released object nothing but the object changes |
| `Semaphores.SubmitInv` | Ev/Semaphore.cpp:68-87 | submitting keeps slots plus running equal to the maximum, and queues only when no slot is free |
| `Semaphores.CompleteInv` | Ev/Semaphore.cpp:30-60 | a completion, by value or exception, hands the slot to the oldest waiter or returns it; the assertion holds |
| `Semaphores.SlotsAreConserved` | Ev/Semaphore.cpp:30-98 | in every interleaving: slots conserved, FIFO starts, no action dropped or started twice, no idle slot while someone waits; callers are answered in the order of completion, once each, with the value or the exception of their own action |
| `Semaphores.Semaphore.constructor` | Ev/Semaphore.cpp:63 | all slots free |
| `Semaphores.Semaphore.Run` | Ev/Semaphore.cpp:68-87 | starts the action or queues it |
| `Semaphores.Semaphore.Finished` | Ev/Semaphore.cpp:53-59 | unblocks, then answers the caller |
| `ParallelMap.CompleteInv` | Ev/map.hpp:107-140 | recording an outcome keeps counter, results and exception in step; the counter never underflows, and at zero without exception all results are present |
| `ParallelMap.AnswersOnceWithAllResults` | Ev/map.hpp:84-171 | for every completion order of n actions, n = 0 included: answered at most once, exactly when awaited and all have finished, with result i from the completion of action i, or with one of the raised exceptions exactly when one was raised |
| `ParallelMap.MapRun.constructor` | Ev/map.hpp:66-73 | n empty results and n pending |
| `ParallelMap.MapRun.ExtractAll` | Ev/map.hpp:150-171 | never dereferences an empty result |
| `ParallelMap.MapRun.WaitCompletion` | Ev/map.hpp:141-149 | answers at once or registers the waiter |
| `ParallelMap.MapRun.Store` | Ev/map.hpp:132-137 | records the outcome in its own place and counts down |
| `ParallelMap.MapRun.OnComplete` | Ev/map.hpp:117-138 | stores the outcome and wakes the registered waiter after the last |
| `Coroutines.NoUseAfterDestroy` | Ev/coroutine.hpp:307-489 | no event that runs code of a frame finds the frame destroyed |
| `Coroutines.CleanInv` | Ev/coroutine.cpp:78-89 | destroying the head of the list keeps the invariant |
| `Coroutines.DoInv` | Ev/coroutine.hpp:258-315 | every event keeps: scheduled exactly when finalized and (attached or handle gone), and the list holding exactly the scheduled, not destroyed frames |
| `Coroutines.DoAnswers` | Ev/coroutine.hpp:307-489 | every event keeps the flags equal to what has happened to the frame, and what is stored or delivered in step with it |
| `Coroutines.FramesAreCleanedOnce` | Ev/coroutine.hpp:222-315 | over every order of events: a frame is enqueued at most once, exactly when it was finally suspended and its handle run or dropped, is never lost from the list, a non-empty list has a cleaner coming; and once run, it delivers the value if the body returned one, else the exception if it threw one, once |
| `Coroutines.Promise.constructor` | Ev/coroutine.hpp:288-297 | all flags clear |
| `Coroutines.Promise.TryScheduleCleanup` | Ev/coroutine.hpp:271-283 | schedules exactly under its three conditions |
| `Coroutines.Promise.Run` | Ev/coroutine.hpp:395-419 | attaches, then delivers a stored outcome or stores the continuations |
| `Coroutines.Promise.Continue` | Ev/coroutine.hpp:402-417 | a stored value wins over a stored exception; otherwise both continuations are kept |
| `Coroutines.Promise.ReturnValue` | Ev/coroutine.hpp:420-429 | delivers and drops `fail`, or stores the value |
| `Coroutines.Promise.UnhandledException` | Ev/coroutine.hpp:307-315 | delivers and drops `pass`, or stores the exception |
| `Coroutines.Promise.NoteFinalSuspend` | Ev/coroutine.hpp:262-265 | marks the frame finalized and tries to schedule it |
| `Coroutines.Promise.NoteIoGone` | Ev/coroutine.hpp:231-241 | marks the handle gone and tries to schedule the frame |
| `Coroutines.Cleaner.Schedule` | Ev/coroutine.cpp:60-76 | links the frame at the head of the pointer list; starts the idle watcher exactly when the list was empty |
| `Coroutines.Cleaner.CleanHead` | Ev/coroutine.cpp:79-87 | unlinks the head and destroys it, once |
| `Coroutines.Cleaner.DoCleaning` | Ev/coroutine.cpp:78-89 | terminates with an empty list and everything scheduled destroyed, also when destroying frames schedules more |
| `BitcoinWire.UnLeLe` | Bitcoin/le.cpp:3-62 | little-endian decoding inverts encoding at every width |
| `BitcoinWire.ReadVarIntVarInt` | Bitcoin/varint.cpp:14-80 | CompactSize decoding inverts encoding for all 64-bit values, before any suffix |
| `BitcoinWire.ReadVarIntLength` | Bitcoin/varint.cpp:45-80 | a value read took at least the bytes its shortest form needs |
| `BitcoinWire.ReverseReverse` | Bitcoin/TxId.cpp:3-18 | the byte reversal of identifiers undoes itself |
| `BitcoinWire.ReadInSerIn` | Bitcoin/TxIn.cpp:5-26 | an input is read back except for its witness |
| `BitcoinWire.ReadOutSerOut` | Bitcoin/TxOut.cpp:5-22 | an output is read back with its amount rounded to whole satoshi |
| `BitcoinWire.ReadStackSerStack` | Bitcoin/WitnessField.cpp:4-24 | a nested witness stack is read back |
| `BitcoinWire.ReadWitsSerWits` | Bitcoin/Tx.cpp:35-37 | the witnesses of all inputs are filled back in |
| `BitcoinWire.ReadTxSerTx` | Bitcoin/Tx.cpp:12-81 | a transaction with an input is read back before any suffix, in both legacy and segwit form, up to rounding of amounts |
| `BitcoinWire.NoInputsNeverRoundTrip` | Bitcoin/Tx.cpp:45-60 | a transaction without inputs is never read back as itself |
| `BitcoinWire.RoundTripIff` | Bitcoin/Tx.cpp:12-81 | reading inverts writing, whatever follows, if and only if there is an input and all amounts are whole satoshi that do not wrap |
| `BitcoinWire.ReadLegacyStripped` | Bitcoin/Tx.cpp:96-106 | a stripped serialization determines its transaction |
| `BitcoinWire.StrippedIsInjective` | Bitcoin/Tx.cpp:96-106 | two stripped serializations are equal if and only if the non-witness data are, up to rounding |
| `BitcoinWire.TxidIdentifies` | Bitcoin/Tx.cpp:96-112 | with a collision-free hash, identifiers agree exactly when the non-witness data do |
| `BitcoinWire.SpendingStartsWithHash` | Bitcoin/TxId.cpp:3-32 | an input that spends a transaction starts on the wire with the plain double hash of its stripped serialization |
| `BitcoinStreams.SegwitLayout` | Bitcoin/Tx.cpp:12-43 | the bytes of a transaction with a witness in the order section "Serialization" of BIP-144 gives |
| `BitcoinStreams.LegacyLayout` | Bitcoin/Tx.cpp:12-43 | the bytes of a transaction without witness |
| `BitcoinStreams.KnownInput` | Bitcoin/TxIn.cpp:5-14 | the bytes of a given input |
| `BitcoinStreams.KnownOutput` | Bitcoin/TxOut.cpp:5-12 | the bytes of a given output |
| `BitcoinStreams.KnownVarInts` | Bitcoin/varint.cpp:14-43 | the bytes of given lengths in three of the forms |
| `BitcoinStreams.OStream.PutLe16` | Bitcoin/le.cpp:3-8 | two bytes by shifts |
| `BitcoinStreams.OStream.PutLe32` | Bitcoin/le.cpp:17-24 | four bytes by shifts |
| `BitcoinStreams.OStream.PutLe64` | Bitcoin/le.cpp:35-46 | eight bytes by shifts |
| `BitcoinStreams.OStream.PutVarInt` | Bitcoin/varint.cpp:14-43 | writes the CompactSize form |
| `BitcoinStreams.OStream.PutBlob` | Bitcoin/TxIn.cpp:8-11 | a length and the bytes one by one |
| `BitcoinStreams.OStream.PutTxId` | Bitcoin/TxId.cpp:3-10 | the identifier in reversed order, by an indexed loop |
| `BitcoinStreams.OStream.PutIn` | Bitcoin/TxIn.cpp:5-14 | writes the input |
| `BitcoinStreams.OStream.PutOut` | Bitcoin/TxOut.cpp:5-12 | writes the output |
| `BitcoinStreams.OStream.PutStack` | Bitcoin/WitnessField.cpp:4-12 | writes the nested stack by two loops |
| `BitcoinStreams.OStream.PutInputs` | Bitcoin/Tx.cpp:27-29 | count and inputs |
| `BitcoinStreams.OStream.PutOutputs` | Bitcoin/Tx.cpp:31-33 | count and outputs |
| `BitcoinStreams.OStream.PutBody` | Bitcoin/Tx.cpp:27-33 | inputs and outputs with their counts |
| `BitcoinStreams.OStream.PutWitnesses` | Bitcoin/Tx.cpp:35-38 | all witness stacks |
| `BitcoinStreams.OStream.PutTx` | Bitcoin/Tx.cpp:12-43 | writes exactly the serialization the round-trip theorems are about |
| `BitcoinStreams.IStream.Get` | Bitcoin/Tx.cpp:55 | one byte, or a bad stream |
| `BitcoinStreams.IStream.GetLe16` | Bitcoin/le.cpp:9-16 | equals little-endian decoding; bad if the stream ends |
| `BitcoinStreams.IStream.GetLe32` | Bitcoin/le.cpp:25-34 | equals little-endian decoding; bad if the stream ends |
| `BitcoinStreams.IStream.GetLe64` | Bitcoin/le.cpp:47-62 | equals little-endian decoding; bad if the stream ends |
| `BitcoinStreams.IStream.GetVarInt` | Bitcoin/varint.cpp:45-80 | equals CompactSize decoding |
| `BitcoinStreams.IStream.GetBlob` | Bitcoin/TxIn.cpp:21-23 | as many bytes as the length says |
| `BitcoinStreams.IStream.GetTxId` | Bitcoin/TxId.cpp:11-18 | fills the identifier back to front |
| `BitcoinStreams.IStream.GetIn` | Bitcoin/TxIn.cpp:15-26 | equals input decoding |
| `BitcoinStreams.IStream.GetOut` | Bitcoin/TxOut.cpp:13-22 | equals output decoding |
| `BitcoinStreams.IStream.GetIns` | Bitcoin/Tx.cpp:61-63 | reads the announced number of inputs |
| `BitcoinStreams.IStream.GetOuts` | Bitcoin/Tx.cpp:65-68 | reads the announced number of outputs |
| `BitcoinStreams.IStream.GetStack` | Bitcoin/WitnessField.cpp:13-24 | equals witness decoding |
| `BitcoinStreams.IStream.GetWitnesses` | Bitcoin/Tx.cpp:70-72 | fills in the witnesses in order |
| `BitcoinStreams.IStream.GetRest` | Bitcoin/Tx.cpp:61-80 | everything after the input count |
| `BitcoinStreams.IStream.GetTx` | Bitcoin/Tx.cpp:45-81 | the stream is good exactly when parsing succeeds, and then the value and the unread rest are those of the parser in the round-trip theorems |
| `Bech32.DecodeCharIff` | Util/Bech32.cpp:10-18 | a character decodes to v if and only if its lower case is the v-th of the alphabet |
| `Bech32.ValuesIff` | Util/Bech32.cpp:90-101 | a data part decodes to digits if and only if its lower case spells them |
| `Bech32.ScriptOfIff` | Bitcoin/addr_to_scriptPubKey.cpp:32-74 | version, length and padding checks hold exactly for an allowed program followed by fewer than five zero bits |
| `Bech32.DigitsToScript` | Bitcoin/addr_to_scriptPubKey.cpp:20-74 | every allowed version and program is recovered from its zero-padded 5-bit regrouping |
| `Bech32.ScriptToDigits` | Bitcoin/addr_to_scriptPubKey.cpp:20-74 | every accepted digit string is the regrouping of the program it yields |
| `Bech32.AcceptsExactlyAddresses` | Bitcoin/addr_to_scriptPubKey.cpp:8-79 | an address gives a script if and only if it is the address of some allowed version and program (section "Segwit address format" of BIP-173, checksum ignored) and the script is theirs |
| `Bech32.AddressDecodes` | Bitcoin/addr_to_scriptPubKey.cpp:8-79 | every address of an allowed program decodes to its script |
| `Bech32.AddressRoundTrip` | Bitcoin/addr_to_scriptPubKey.cpp:8-79 | writing the address of any allowed program, with any checksum, and reading it gives the script of that program |
| `Bech32.AlphabetVector` | Util/Bech32.cpp:59-104 | the string of section "Test vectors" of BIP-173 that spells the alphabet decodes to the digits in order |
| `Bech32.KnownAddress` | Bitcoin/addr_to_scriptPubKey.cpp:8-79 | the shortest address of those test vectors decodes to its script |
| `Bech32.ShiftIn` | Util/Bech32.hpp:40-53 | the shifting loop has emitted all whole bytes and holds the remaining bits |
| `Bech32.BitstreamToBytes` | Util/Bech32.hpp:35-69 | the accumulator loop computes the zero-padded 8-bit regrouping |
| `Bech32.FindSeparator` | Util/Bech32.cpp:67-72 | finds the last `1` |
| `Bech32.DecodeData` | Util/Bech32.cpp:90-101 | appends five bits per character, or rejects |
| `Bech32.DecodeString` | Util/Bech32.cpp:59-104 | splits, lower-cases and decodes, dropping six characters |
| `Bech32.AddrToScriptPubKey` | Bitcoin/addr_to_scriptPubKey.cpp:8-79 | the method with early rejections computes the function of the if-and-only-if theorem |
| `ClaimTx.OutputConserves` | Boltz/Detail/initial_claim_tx.cpp:85-103 | output plus recorded fee equals the lockup, for every fee |
| `ClaimTx.OutputPaysIff` | Boltz/Detail/initial_claim_tx.cpp:85-103 | the output is at least 547 sat or a zero-value burn, if and only if not (lockup is the 64-bit maximum and fee plus dust limit exceeds it) |
| `ClaimTx.DustOutputExample` | Boltz/Detail/initial_claim_tx.cpp:52-103 | a request, through the whole construction, for which that fails |
| `ClaimTx.SatoshiIsNeverMax` | Ln/Amount.hpp:53-57 | a whole number of satoshi never is the failing lockup |
| `ClaimTx.AddressIsNotBurn` | Bitcoin/addr_to_scriptPubKey.cpp:63-68 | no address yields the burning script |
| `ClaimTx.ClaimConserves` | Boltz/Detail/initial_claim_tx.cpp:52-133 | the finished claim has one output, conserves the lockup and pays or burns |
| `ClaimTx.ClaimIsSigned` | Boltz/Detail/initial_claim_tx.cpp:105-129 | the first witness item is a valid signature of the very transaction it is in, with its final output, under the tweaked key, for the lockup amount and script, followed by its flag |
| `ClaimTx.ScriptCodeIff` | Boltz/Detail/initial_claim_tx.cpp:106-117 | the one-byte size in front gives the wire form that signatures commit to (section "Specification" of BIP-143) if and only if the script is below 253 bytes |
| `ClaimTx.ClaimPaysAddress` | Boltz/Detail/initial_claim_tx.cpp:52-103 | what is paid goes to the requested address; version, final sequence number and lock time are as set up |
| `ClaimTx.EstimateCovers` | Boltz/Detail/initial_claim_tx.cpp:71-83 | the weight estimate is at least the real weight (section "Transaction size calculations" of BIP-141) and at most 107 above it, for any script length and signatures up to 73 bytes |
| `ClaimTx.FeeCoversIff` | Boltz/Detail/initial_claim_tx.cpp:85-86 | a fee from such an estimate covers the real weight if and only if the product does not wrap |
| `ClaimTx.FeeCoversWeight` | Boltz/Detail/initial_claim_tx.cpp:71-103 | in the paying branch the fee is at least the feerate times the real weight, rounded down, if and only if estimated weight times feerate fits 64 bits |
| `ClaimTx.ProductFits` | Boltz/Detail/initial_claim_tx.cpp:71-86 | it fits for every script shorter than 2^32 - 554 bytes, whatever the feerate and address |
| `ClaimTx.WrappedFeeExample` | Boltz/Detail/initial_claim_tx.cpp:71-103 | a request with a larger script whose claim pays an output and too small a fee |
| `ClaimTx.MakeClaim` | Boltz/Detail/initial_claim_tx.cpp:28-133 | field-by-field construction equals the claim the lemmas are about |
| `Lockscript.MatchesIff` | Boltz/Detail/match_lockscript.cpp:47-124 | a script matches with given fields if and only if it is the template filled with them and both keys are valid |
| `Lockscript.Reader.Get` | Boltz/Detail/match_lockscript.cpp:21-26 | the next byte, or failure at the end |
| `Lockscript.Reader.Expect` | Boltz/Detail/match_lockscript.cpp:27-31 | succeeds exactly on the expected bytes |
| `Lockscript.Reader.Take` | Boltz/Detail/match_lockscript.cpp:84-85 | the next n bytes, or failure |
| `Lockscript.MatchLockscript` | Boltz/Detail/match_lockscript.cpp:47-124 | the reader loop accepts exactly the matching scripts and returns their fields |
| `SwapLifecycle.FindLockup` | Boltz/Detail/find_lockup_outnum.cpp:9-27 | the first output paying the script, or -1 if none does |
| `SwapLifecycle.RatioIff` | Boltz/Detail/SwapSetupHandler.cpp:154-157 | the quotient test is the comparison of ten times the on-chain with nine times the off-chain amount, also for zero |
| `SwapLifecycle.AcceptsIff` | Boltz/Detail/SwapSetupHandler.cpp:95-194 | an answer is accepted if and only if its script is our template for its timeout, that is 12 to 288 blocks ahead, and it pays nine tenths of the off-chain amount |
| `SwapLifecycle.StoredAmount` | Boltz/Detail/SwapSetupHandler.cpp:191-260 | storing an amount rounds it up to whole satoshi, or wraps it to zero |
| `SwapLifecycle.WrappedAmountExample` | Boltz/Detail/SwapSetupHandler.cpp:154-191 | an answered amount that passes the test and is stored as zero |
| `SwapLifecycle.ValidatedIsGood` | Boltz/Detail/SwapSetupHandler.cpp:95-194 | an answer that passes gives the row that is stored |
| `SwapLifecycle.InsertKeepsUnique` | Boltz/Detail/SwapSetupHandler.cpp:199-266 | saving keeps (service, swap id) unique |
| `SwapLifecycle.StartedIsGood` | Boltz/Detail/ClaimTxHandler.cpp:50-179 | a claim that passes the guards spends the first output paying the stored script the stored amount |
| `SwapLifecycle.TimeoutChecksIff` | Boltz/Detail/SwapSetupHandler.cpp:170-173 | the wrapping check means "12 to 288 blocks ahead" for all lock times if and only if the height is at least 12 below the 32-bit limit |
| `SwapLifecycle.TimeoutCheckExample` | Boltz/Detail/SwapSetupHandler.cpp:170-173 | a height for which it does not |
| `SwapLifecycle.ClaimMarginIff` | Boltz/Detail/ClaimTxHandler.cpp:132-133 | the wrapping margin test means "more than 10 blocks left" if and only if the height is at least 10 below the 32-bit limit |
| `SwapLifecycle.DoInv` | Boltz/Detail/ServiceImpl.cpp:31-278 | every setup, save, block, poll, broadcast and record keeps the invariant, whatever the server answers |
| `SwapLifecycle.StoredSwapsAreOurs` | Boltz/Detail/SwapSetupHandler.cpp:95-266 | over every run: keys unique; each row holds what some setup asked for and the server answered to it; each script is exactly our template for the stored timeout, 12 to 288 blocks after that setup; and the amount is nine tenths of ours or more if and only if the answered amount does not wrap on being rounded |
| `SwapLifecycle.SwapStaysIff` | Boltz/Detail/ServiceImpl.cpp:31-278 | a stored swap stays if and only if it has not reached its timeout at a block of its service and its server has not said it is over; only its lock-up mark ever changes |
| `SwapLifecycle.ClaimStartsIff` | Boltz/Detail/ClaimTxHandler.cpp:50-179 | a claim is started exactly by a confirmed lockup of a stored swap that is not claimed, has a destination, is in time, and is paid its exact amount by the first output paying its script |
| `SwapLifecycle.RecordedIsNotClaimedAgain` | Boltz/Detail/ClaimTxHandler.cpp:85-92 | once a broadcast is recorded no claim of that swap starts |
| `SwapLifecycle.LockupHasAddress` | Boltz/Detail/find_lockup_outnum.cpp:12-18 | the script looked for is the one the address of the script's hash stands for |
| `SwapLifecycle.BroadcastsSpendLockups` | Boltz/Detail/ClaimTxHandler.cpp:45-210 | over every run: each broadcast claim spends the first output that pays a stored swap's script exactly its amount, signed by the key in that script, with our preimage and that script, pays all but the fee to the swap's destination or burns it, more than 10 blocks before the timeout |
| `SwapLifecycle.BroadcastsPayTheirWeight` | Boltz/Detail/ClaimTxHandler.cpp:184-210 | over every run: each broadcast that pays an output covers its feerate for its real weight, for 32-byte hashes and preimages and signatures up to 72 bytes |
| `SwapLifecycle.Table.Save` | Boltz/Detail/SwapSetupHandler.cpp:199-266 | inserts unless the key exists |
| `SwapLifecycle.Table.OnBlock` | Boltz/Detail/ServiceImpl.cpp:31-44 | the rows that stay are exactly those of other services and those not expired |
| `SwapLifecycle.Table.BeginClaim` | Boltz/Detail/ClaimTxHandler.cpp:50-179 | the guards in order |
| `SwapLifecycle.Table.LockUp` | Boltz/Detail/ClaimTxHandler.cpp:226-245 | marks the row, changing nothing else |
| `SwapLifecycle.Table.Remove` | Boltz/Detail/ServiceImpl.cpp:260-278 | the rows that stay are exactly those with another key |
| `SwapLifecycle.CheckAnswer` | Boltz/Detail/SwapSetupHandler.cpp:95-194 | the staged validation |
| `PriceTheory.NewRoundInv` | Boss/Mod/FeeModderByPriceTheory.cpp:349-461 | a new round has a full deck; the center moves at most 2, only to a discarded price of maximal, positive earnings |
| `PriceTheory.CenterMoves` | Boss/Mod/FeeModderByPriceTheory.cpp:355-405 | `update_centerprice` keeps the center or takes a best earner's price |
| `PriceTheory.DrawsInv` | Boss/Mod/FeeModderByPriceTheory.cpp:305-341 | drawing puts exactly one card in play and keeps the invariant |
| `PriceTheory.PlaysInv` | Boss/Mod/FeeModderByPriceTheory.cpp:253-275 | asking for the price leaves exactly one card in play |
| `PriceTheory.AskingForThePrice` | Boss/Mod/FeeModderByPriceTheory.cpp:253-405 | a card in play is kept; otherwise the top of the deck is drawn; with the deck used up, a new deck is made around the best earner's price, or the old center if nothing was earned, or zero at first |
| `PriceTheory.TickInv` | Boss/Mod/FeeModderByPriceTheory.cpp:463-497 | ageing and discarding keep the invariant; a card in play stays alive |
| `PriceTheory.NoTickWhenAway` | Boss/Mod/FeeModderByPriceTheory.cpp:465-479 | the game of a peer that is not connected does not change |
| `PriceTheory.InPlayLifetime` | Boss/Mod/FeeModderByPriceTheory.cpp:463-497 | over every run: a card in play was drawn some time ago, has been in play since, and has 288 less the number of times its peer was connected left |
| `PriceTheory.DiscardedAtTheEnd` | Boss/Mod/FeeModderByPriceTheory.cpp:480-494 | over every run: it is discarded exactly at the 288th such time |
| `PriceTheory.CreditInv` | Boss/Mod/FeeModderByPriceTheory.cpp:499-520 | crediting adds the fee to exactly the card in play, if any |
| `PriceTheory.GameIsFair` | Boss/Mod/FeeModderByPriceTheory.cpp:253-520 | over every run: no cards or exactly one per price from center - 2 to center + 2, drawn from the top, at most one in play and alive, exactly one after asking, bounded and justified center moves, a fee earned by the card in play alone, and earnings equal to the fees credited since the reshuffle |
| `PriceTheory.ShuffledDeck` | Boss/Mod/FeeModderByPriceTheory.cpp:429-461 | one card per price around the center, in some order |
| `PriceTheory.MakePrices` | Boss/Mod/FeeModderByPriceTheory.cpp:429-435 | the loop lists the five prices |
| `PriceTheory.Modder.FindInPlay` | Boss/Mod/FeeModderByPriceTheory.cpp:256-268 | finds the card in play, or none |
| `PriceTheory.Modder.FindTop` | Boss/Mod/FeeModderByPriceTheory.cpp:310-328 | finds the deck card of highest order |
| `PriceTheory.Modder.FindBest` | Boss/Mod/FeeModderByPriceTheory.cpp:363-374 | finds a discarded card of maximal earnings |
| `PriceTheory.Modder.UpdateCenterprice` | Boss/Mod/FeeModderByPriceTheory.cpp:355-405 | changes only the peer's center, as the rule says |
| `PriceTheory.Modder.ReshuffleDeck` | Boss/Mod/FeeModderByPriceTheory.cpp:406-461 | replaces only the peer's cards |
| `PriceTheory.Modder.EndGameRound` | Boss/Mod/FeeModderByPriceTheory.cpp:349-354 | a new round with a non-empty deck |
| `PriceTheory.Modder.PutInPlay` | Boss/Mod/FeeModderByPriceTheory.cpp:330-341 | moves the drawn card into play |
| `PriceTheory.Modder.DrawACard` | Boss/Mod/FeeModderByPriceTheory.cpp:305-348 | the mutual recursion terminates after at most one new round |
| `PriceTheory.Modder.GetPrice` | Boss/Mod/FeeModderByPriceTheory.cpp:253-275 | returns the price of the card in play, drawing one if needed; other peers unchanged |
| `PriceTheory.Modder.ForwardFee` | Boss/Mod/FeeModderByPriceTheory.cpp:499-520 | credits the peer's card in play; other peers unchanged |
| `PriceTheory.Modder.UpdateTenMinutes` | Boss/Mod/FeeModderByPriceTheory.cpp:463-497 | ages the cards of connected peers and discards the dead ones; the games of other peers do not change |
| `Preinvestigator.PopInv` | Boss/Mod/ChannelCandidatePreinvestigator.cpp:124-132 | taking the answered candidate keeps the invariant; neither queue nor counter underflows |
| `Preinvestigator.LoopInv` | Boss/Mod/ChannelCandidatePreinvestigator.cpp:91-122 | moving on registers under the next candidate's node, requests a connect only as the first waiter, or finishes |
| `Preinvestigator.DetachInv` | Boss/Mod/ChannelCandidatePreinvestigator.cpp:177-195 | detaching all waiting Cases before the fan-out keeps everybody else registered |
| `Preinvestigator.OnConnectOf` | Boss/Mod/ChannelCandidatePreinvestigator.cpp:177-205 | the whole fan-out ends with the invariant, even when Cases register again for the answered node |
| `Preinvestigator.NewCaseInv` | Boss/Mod/ChannelCandidatePreinvestigator.cpp:165-176 | a new Case is registered or finished at once; offline requests change nothing |
| `Preinvestigator.AnswersAreHeard` | Boss/Mod/ChannelCandidatePreinvestigator.cpp:124-205 | an answer about a node is heard, as it is, by exactly the Cases waiting for that node; a new Case asks about the candidates it was given; nothing else changes what a Case asks or has heard |
| `Preinvestigator.WaitingCasesAreServed` | Boss/Mod/ChannelCandidatePreinvestigator.cpp:91-205 | in every reachable state a waiting Case is registered once, under its front candidate's node and no other, with a connect on its way, also when other modules' answers arrive |
| `Preinvestigator.SurplusStep` | Boss/Mod/ChannelCandidatePreinvestigator.cpp:91-205 | the connects outstanding for a node beyond those needed grow by one exactly when somebody else's answer serves its waiting Cases, and shrink by one exactly when an own answer finds nobody |
| `Preinvestigator.SurplusIsRobberies` | Boss/Mod/ChannelCandidatePreinvestigator.cpp:91-205 | in every state of every run the surplus is the number of the first kind of answers less the second |
| `Preinvestigator.OneConnectPerNode` | Boss/Mod/ChannelCandidatePreinvestigator.cpp:104-122 | a node has exactly the one connect its waiting Cases need throughout a run, if and only if nobody else's answer about that node comes while some Case waits for it |
| `Preinvestigator.TwoConnectsExample` | Boss/Mod/ChannelCandidatePreinvestigator.cpp:155-205 | a run that leaves two connects to one node on their way |
| `Preinvestigator.ProposalsInOrder` | Boss/Mod/ChannelCandidatePreinvestigator.cpp:124-147 | a Case proposes the successful candidates in order, each once, never more than its limit; finished means out of candidates or limit filled |
| `Preinvestigator.NoCaseIsStranded` | Boss/Mod/ChannelCandidatePreinvestigator.cpp:91-205 | when nothing is on its way all Cases are finished |
| `Preinvestigator.Impl.constructor` | Boss/Mod/ChannelCandidatePreinvestigator.cpp:155 | starts with no Cases |
| `Preinvestigator.Impl.AddCase` | Boss/Mod/ChannelCandidatePreinvestigator.cpp:156-163 | appends the Case and says whether it is the first |
| `Preinvestigator.Impl.CaseLoop` | Boss/Mod/ChannelCandidatePreinvestigator.cpp:91-122 | refines the loop step |
| `Preinvestigator.Impl.OnConnectResponse` | Boss/Mod/ChannelCandidatePreinvestigator.cpp:124-132 | refines the answer step |
| `Preinvestigator.Impl.OnPreinv` | Boss/Mod/ChannelCandidatePreinvestigator.cpp:165-176 | refines the creation of a Case |
| `Preinvestigator.Impl.OnConnect` | Boss/Mod/ChannelCandidatePreinvestigator.cpp:177-205 | refines the fan-out and keeps the invariant |
| `Preinvestigator.Impl.FanOut` | Boss/Mod/ChannelCandidatePreinvestigator.cpp:197-204 | answers the detached Cases in order |
| `Preinvestigator.Impl.Propose` | Boss/Mod/ChannelCandidatePreinvestigator.cpp:134-144 | proposes the answered candidate |
| `HtlcHooks.DoGood` | Boss/Mod/HtlcAcceptor.cpp:182-300 | every step keeps, per command: pending or replied once, and held in the set its thread expects or released once |
| `HtlcHooks.DeliverReleaseGood` | Boss/Mod/HtlcAcceptor.cpp:240-262 | a release takes the hook out of the set that holds it, once; later ones are ignored |
| `HtlcHooks.DeliverResponseGood` | Boss/Mod/CommandReceiver.cpp:77-92 | an answer reaches a pending command exactly once |
| `HtlcHooks.DoContents` | Boss/Mod/HtlcAcceptor.cpp:262-300 | answers carry the verdict of the release |
| `HtlcHooks.DoSolicits` | Boss/Mod/HtlcAcceptor.cpp:97-112 | one thread at most solicits, and only before any hook passed |
| `HtlcHooks.HooksAreAnsweredOnce` | Boss/Mod/HtlcAcceptor.cpp:182-300 | in every reachable state: the sets are disjoint, at most one reply per command, replies carry the releasing verdict; once the messages about a hook whose thread ended or failed are delivered, it has exactly one reply if and only if it ended or was released |
| `HtlcHooks.RepliesAreExplained` | Boss/Mod/HtlcAcceptor.cpp:227-300 | over every run: a hook is answered with "continue" or with what one of its early releases says, verdict by verdict, so with "continue" if there was none; an `rpc_command` with "continue"; any other command with a reply some module gave |
| `HtlcHooks.HooksWaitIfDeferred` | Boss/Mod/HtlcAcceptor.cpp:200-238 | over every run: the acceptor lets a hook go on by itself only after its deferrers returned and none asked for time or the timer has run out, and the timer runs only if one asked |
| `HtlcHooks.UnansweredExample` | Boss/Mod/HtlcAcceptor.cpp:193-226 | a run in which a deferrer throws and the hook is left without any reply |
| `HtlcHooks.DeferrersAreFixed` | Boss/Mod/HtlcAcceptor.cpp:97-112 | once a hook has been shown to the deferrers, no step changes their list |
| `HtlcHooks.CommandReceiver.OnCommand` | Boss/Mod/CommandReceiver.cpp:42-76 | registers a command, or answers `rpc_command` at once |
| `HtlcHooks.CommandReceiver.OnCommandResponse` | Boss/Mod/CommandReceiver.cpp:77-92 | replies only to a pending command, and forgets it |
| `HtlcHooks.CommandReceiver.OnCommandFail` | Boss/Mod/CommandReceiver.cpp:93-110 | likewise for failures |
| `HtlcHooks.HtlcAcceptor.OnProvide` | Boss/Mod/HtlcAcceptor.cpp:78-85 | a deferrer is added only while soliciting |
| `HtlcHooks.HtlcAcceptor.OnSolicit` | Boss/Mod/HtlcAcceptor.cpp:97-105 | skip, wait, or become the soliciting thread |
| `HtlcHooks.HtlcAcceptor.OnSolicited` | Boss/Mod/HtlcAcceptor.cpp:106-110 | ends the solicitation |
| `HtlcHooks.HtlcAcceptor.OnInform` | Boss/Mod/HtlcAcceptor.cpp:193-199 | puts the hook in the deferring set |
| `HtlcHooks.HtlcAcceptor.OnDecided` | Boss/Mod/HtlcAcceptor.cpp:200-225 | quits if released meanwhile; otherwise defers, waiting exactly when some deferrer asked |
| `HtlcHooks.HtlcAcceptor.OnFinish` | Boss/Mod/HtlcAcceptor.cpp:227-238 | raises a release only if still deferred |
| `HtlcHooks.HtlcAcceptor.OnRelease` | Boss/Mod/HtlcAcceptor.cpp:240-300 | releases from either set, or ignores |
| `DowserSearch.ScaleSurvives` | Boss/Mod/Dowser.cpp:125-153 | a scaled amount meets its target after the haircut and both roundings if and only if any 64-bit amount could |
| `DowserSearch.ProbeIsSized` | Boss/Mod/Dowser.cpp:125-153 | the ceiling is at least 1000 msat, so the resolution is at least 31 msat |
| `DowserSearch.FloorIsSized` | Boss/Mod/Dowser.cpp:438-456 | the floor lies between 32 msat and just above the resolution, and below the ceiling |
| `DowserSearch.FullFlowMeetsTarget` | Boss/Mod/Dowser.cpp:125-153 | a full-flow report reaches the caller's target, if and only if the target is at most 0.985 of the 64-bit maximum |
| `DowserSearch.MoreProbes` | Boss/Mod/Dowser.cpp:275-290 | the outcome does not depend on a bound on the number of probes |
| `DowserSearch.RefineFinishes` | Boss/Mod/Dowser.cpp:275-290 | for every oracle a bracket of 2^k resolutions, none of whose next k midpoints wraps, takes at most k probes, and ends with a delivered amount and a failing probe at most one resolution above |
| `DowserSearch.ProbeFinishes` | Boss/Mod/Dowser.cpp:306-345 | for every oracle the search ends within five refining probes, aborting only on an RPC error, when 31 times the ceiling plus the floor is below 2^68 |
| `DowserSearch.FinishesIff` | Boss/Mod/Dowser.cpp:306-345 | five refining probes, or six, suffice for every oracle if and only if 31 times the ceiling plus the floor is below 2^68 |
| `DowserSearch.RealTargetsFit` | Boss/Mod/Dowser.cpp:125-153 | every target up to all the bitcoin there can be satisfies that |
| `DowserSearch.EstimateIsTight` | Boss/Mod/Dowser.cpp:306-345 | for an all-or-nothing oracle the estimate is then the ceiling, zero below the floor, and otherwise at most the capacity and less than ceiling/32 below it |
| `DowserSearch.EstimateIsTightIff` | Boss/Mod/Dowser.cpp:306-345 | within five probes, or six, the estimate is that tight for every capacity if and only if the same condition holds |
| `DowserSearch.ZeroReportIff` | Boss/Mod/Dowser.cpp:314-334 | no flow is found if and only if the capacity is below the floor, however many probes are allowed |
| `DowserSearch.ZeroReportsAreRightIff` | Boss/Mod/Dowser.cpp:314-334 | a zero report means for every capacity that the caller's threshold is not met after the haircut, if and only if the threshold is above the haircut of the resolution |
| `DowserSearch.MissedFlowIsSmall` | Boss/Mod/Dowser.cpp:438-456 | otherwise a capacity reported as zero exceeds the threshold by at most 986 msat after the haircut |
| `DowserSearch.MissedFlowExample` | Boss/Mod/Dowser.cpp:438-456 | a capacity above the threshold that is reported as zero |
| `DowserSearch.ZeroResolutionDiverges` | Boss/Mod/Dowser.cpp:275-290 | with resolution zero the recursion never ends |
| `DowserSearch.LastMiddleWraps` | Boss/Mod/Dowser.cpp:282-290 | where the k-th midpoint wraps, neither k nor k + 1 probes are enough when everything below the ceiling flows |
| `DowserSearch.WrappedMiddleDiverges` | Boss/Mod/Dowser.cpp:282-290 | where every midpoint stays a resolution below the ceiling, no number of probes is enough |
| `DowserSearch.HugeCeilingDiverges` | Boss/Mod/Dowser.cpp:306-345 | so the whole search does not end for any ceiling from about one resolution above half the 64-bit range |
| `DowserSearch.Run.constructor` | Boss/Mod/Dowser.cpp:125-153 | sizes the probe, to at least 1000 msat |
| `DowserSearch.Run.Dowse` | Boss/Mod/Dowser.cpp:306-358 | ends whenever some number of probes is enough, and leaves the report of the search, after the haircut, in `amount`; zero after an RPC error |
| `DowserSearch.RefineBetween` | Boss/Mod/Dowser.cpp:275-290 | the recursion ends on every bracket on which some number of probes is enough, and returns the search's outcome |
| `Reservoir.MinIndex` | Stats/ReservoirSampler.hpp:90-95 | the first smallest key |
| `Reservoir.AddInv` | Stats/ReservoirSampler.hpp:75-102 | adding keeps: of any threshold, as many kept keys lie above it as seen keys do, up to m; and kept items are seen items |
| `Reservoir.KeepsTheLargest` | Stats/ReservoirSampler.hpp:75-102 | after any stream the kept items are items seen, each with the key that admitted it, and their keys are the m largest |
| `Reservoir.OrderDoesNotMatter` | Stats/ReservoirSampler.hpp:75-102 | the kept keys depend only on the multiset of keys seen |
| `Reservoir.ReservoirSampler.constructor` | Stats/ReservoirSampler.hpp:57-60 | an empty reservoir |
| `Reservoir.ReservoirSampler.Clear` | Stats/ReservoirSampler.hpp:68-72 | empties it and sets a new size |
| `Reservoir.ReservoirSampler.Insert` | Stats/ReservoirSampler.hpp:75-102 | in-place append or replacement in the parallel vectors equals the step the theorems are about |
| `Reservoir.FindMin` | Stats/ReservoirSampler.hpp:90-95 | the scan finds the first smallest key |

## Left out

- ShortestPath.Dijkstra.Neighbor: tree nodes are keys of the node map, not pointers, so aliasing of freed nodes is not modelled; the copy constructor, which shares pointers with its source, is left out.
- SqliteTx.Database.NewTx: transaction objects are rows of a map that the client or a pending destructor owns, not C++ objects; that a waiter whose BEGIN fails is never answered is part of the model, so no promise is made to such waiters.
- SqliteTx.Database.DestroyTx: a ROLLBACK is taken to leave the connection without a transaction, as sqlite documents; a ROLLBACK that itself fails with the transaction still open is not modelled.
- Preinvestigator.Impl.OnConnect: Cases are rows of a table, not shared objects, so their lifetime is not modelled.
- SwapLifecycle.BroadcastsSpendLockups: at-most-once broadcast is not claimed, because the code suspends between broadcast and the table update; heights are the ones given to the handler.
- SwapLifecycle.CheckAnswer: the ratio of amounts is compared exactly, not in floating point; hexadecimal and JSON are already decoded.
- DowserSearch.Run.Dowse: factors are exact fractions, not floating point. Between the ceilings of `DowserSearch.FinishesIff` and those of `DowserSearch.HugeCeilingDiverges`, a band of less than one resolution, whether a search that has not ended after six probes ends later depends on the remainders of the ceiling and is not stated.
- Reservoir.ReservoirSampler.Insert: the key is given, not drawn; keys are real numbers, without minus infinity.
- PriceTheory.Modder.ForwardFee: earnings and prices do not wrap at 64 bits.
- PriceTheory.ShuffledDeck: the shuffle is some permutation; nothing is said about its distribution.
- HtlcHooks.HtlcAcceptor.OnDecided: command ids are fresh, and other modules answer only their own commands.
- Coroutines.Promise.Run: a handle is run at most once, as its users do.
- Fairness: no eventual progress is claimed for threads, timers or messages, only what holds whenever they have acted.
- Costs of channels from base fee, proportional fee and delay, and all fee multipliers using exponentials: floating point.
- Checksums of addresses, which the original does not verify either.
- libev, pthread, sqlite, libsecp256k1, hash functions and curl: foreign code.
- JSON, option manifests, logging, RPC plumbing, sockets, proxies, status reports and the remaining modules: input, output and presentation, or only easy members.
