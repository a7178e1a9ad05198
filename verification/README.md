# Verified models of netProg

netProg is a set of four small networked systems in C: a stop-and-wait file upload (p1), the same upload
server for many clients (p2, one process per client or one `select` loop), a threaded web server (p3) and
a peer-to-peer file directory with two super nodes (p4). This project models the stateful core of each in
Dafny and proves what the systems are for: over every run, every interleaving and every input that the
assumptions below allow.

Check everything with `dafny verify dfyconfig.toml`.

## What is modelled

**The thread pool of p3** (`Pool*.dfy`). `PoolTaskQueue` is the linked queue and the flag array in the
imperative form of the source, each critical section proved against a function on sequences.
`PoolProtocol` is the pool as a transition system that uses these functions: any number of workers, the
signalling thread, the select loop that produces tasks, any number of callers of `threadPoolWait`, three
mutexes, two condition variables with spurious wakeups. One step is one lock acquisition, one critical
section body, one release, or one of the two reads in `threadPoolWait`, of which the first is made without
the queue's mutex. `PoolInvariant` is the inductive invariant; `PoolSafety` has exactly-once FIFO
execution, soundness of `threadPoolWait`, no lost wakeup and no lock cycle; `PoolProgress` gives a schedule,
with a decreasing measure, that executes any queued task; `PoolFairness` shows that every fair infinite run
executes every task, and `PoolReturns` that every caller of `threadPoolWait` comes back; `PoolWaiters` settles
when `pthread_cond_signal` is enough.

**The directory of p4** (`Dir*.dfy`). `DirTable`, `DirLookup` and `DirFileTable` are the probing hash table,
proved to be a log of insertions searched for its earliest match. `DirRegistry` is the table of child
ports. `DirWire` has the FILE_INFO and FILE_INFO_SHARE packets down to bytes, with the 1020-byte receive
buffer; `DirLayout` says what is at which offset. `DirReplicas` puts these together: the two super nodes as a transition system with children's
connections and announcements, reports, shares and their replies, and queries. `DirAgreement` is about the
two directories as a whole, `DirContents` about each file of each report, `DirBlocking` and `DirFairness` about nodes that wait, `DirCapacity` about the
origin and number of records.

**The storage servers of p2 and p1** (`Select*.dfy`). `SelectSession` has the handler of a dedicated process
and the handler of one slot; `SelectAnswers` says what they answer, message by message; `SelectFaults` the use of memory that is not the client's; `SelectClosing` the end of a
connection; `SelectPool` the descriptor pool that recurs in p2, p3 and p4; `SelectServer` the select loop;
`SelectClients` all its runs, connection by connection.

**The upload of p1** (`Transfer*.dfy`): client and server composed over a channel, with 16-bit sequence
numbers and a 32-bit byte counter; `TransferPackets` says what travels. **The download of p4** (`Download.dfy`): the sending and the receiving
loop.

Code that updates state in place is a class or a method with loops, proved equal to a function on values;
the theorems are about runs of those functions. Where a desirable property fails, the code is kept as it
is, a lemma shows a failing input or run, and another gives the exact condition under which the property
holds.

## Assumptions

- One `write` is received by one `read`, up to the size of the receive buffer. Reading a socket may fail in the
  select server; elsewhere it does not.
- A descriptor that `accept` returns is positive, not in use and below the size of the descriptor set.
- The answers of `rand`, `realloc`, `open` and `write` in p1 and p2 are inputs (`Env`): allocation and opening
  may fail, `write` may fail or take fewer bytes than it is offered, and a fresh heap block holds anything.
  Reading the uploaded file may fail. Other allocations, `select` and `ioctl` succeed.
- As in glibc, `realloc` of a block to size 0 frees it and returns NULL.
- A failing `write` has written nothing, and the system refuses to write from a NULL pointer.
- A handler that gives a freed block to `realloc`, `write` or `free`, copies past the end of a block, or opens a
  name that does not end in its block, has faulted; nothing is assumed, and nothing claimed, about the server
  after that.
- `maxi` of a pool, the ids of empty child-port entries and the address that the first `accept` of a super node
  leaves unfilled are not initialised by the source; they are arbitrary here. `maxi` is only assumed to be
  below the size of the pool.
- Connecting to a super node succeeds exactly if it listens and its address has been filled in.
- `char` is signed and `int` has 32 bits. Names that reach a file table index into it (7-bit names do).
- The numbers of threads, of callers of `threadPoolWait`, of slots, of table cells and of registry entries
  are parameters; the source fixes them at 10, any, 1024, 1000 and 50.

## Findings

Each is a proved statement; the table below gives the lemma.

- A thread sleeping in `threadPoolWait` is woken by one `pthread_cond_signal`. That suffices exactly for at
  most one caller (`WakeupsSufficeIffSingleCaller`), who then always returns (`WaitReturns`).
- The select server keeps serving a client whose buffer it has freed, and keeps the address. A client that
  stores twice, or delivers after a store, makes the server use freed memory, which may be another client's
  by then (`SecondStoreHarms`). A file name without a NUL makes it read on into neighbouring memory
  (`EndlessNameHarms`). One failing read makes it exit (`OneFailingReadEndsAll`). Clients are isolated from each
  other, and served as by processes of their own, exactly as long as none of this happens and nobody
  delivers 2^32 bytes (`StaysUpIff`).
- A delivery whose allocation fails loses the buffer but not the byte count. The next one is appended to
  memory that nobody has written, and a store then writes that memory to the file (`HeapIsStored`); the
  condition is exact (`HeapIrrelevantIff`).
- A process takes the end of the stream for one more copy of the last packet. It behaves to the end as the slot
  does exactly if it had ended before, or the last packet is one that it does nothing about
  (`ClosedAsByProcessIff`).
- A client that does not greet first is answered with sequence numbers that depend on uninitialised memory in
  the dedicated server, but not in the select server (`SameEffectsIffHelloFirst`).
- The readme of p4 allows 100 files in a report (p4/readme.txt:58). The receive buffer admits 10
  (`ReportArrives`), and the share to the other super node admits 8 (`ShareArrives`): a report of 9 or 10 files
  is stored at one super node only (`ReportReachesReplicaIff`).
- The readme of p4 puts IP and port before name and size in a shared item (p4/readme.txt:97-105); the code
  sends name, size, IP, port. The model follows the code.
- The directories agree along a run exactly if the stored reports find room and can be shared (or neither),
  and shares have at most 8 records and find room (`AlwaysAgreeIff`); they hold everything reported exactly if
  all of that happens (`ReplicasCompleteIff`).
- The first `accept` of a super node is told that its address buffer has 4 bytes (p4/src/super.c:7) and leaves the
  address unfilled. If the other super node's greeting comes first, as the readme has it, the greeted node
  cannot share its reports (`GreetedFirstDisagrees`); if a child comes first, its files are listed under
  an arbitrary address (`FirstChildMisplaced`). All later addresses are right (`AddressesRight`).
- A super node never returns to its select loop exactly if it waits for a node that waits for it, or searches
  a full table for something that begins none of its names, or waits for a node that does
  (`CompletesIffNotStuck`, `DeadlockReachable`, `LostReachable`). Nor does one ever start that greets a node in such a
  search (`LinksIff`). With the source's constants and one
  report per child a table never fills (`TablesNeverFill`).
- `searchFileInfo` compares only the query's length, so a query finds longer names that it begins
  (`SearchExactIff`). Names whose signed character sum is negative and no multiple of the table size are
  hashed outside the table (`IndexableIff`).
- The upload reports success after a short write (`ShortWriteReportsSuccess`), opens its target without
  truncating it (`StoredFile`), and cannot store a file of 2^32 bytes (`SucceedsIffCountable`).
- A download of a file whose size has changed completes, with a prefix, when the advertised size falls on
  a packet boundary (`DownloadChangedFile`), and a download of an empty file never completes (`DownloadFile`).

## Model

| member | source | states |
|---|---|---|
| `PoolTaskQueue.TaskQueue.Enqueue` | p3/src/task_queue.c:23-42 | appends the node at the end of the acyclic chain from head to tail and keeps `len`, `head`, `tail` consistent with it |
| `PoolTaskQueue.TaskQueue.Dequeue` | p3/src/task_queue.c:44-65 | returns NULL exactly when the chain is empty, otherwise unlinks exactly its first node |
| `PoolTaskQueue.BinarySemaphore.constructor` | p3/src/task_queue.c:67-79 | all flags start at the given value, at 0 when it is neither 0 nor 1 |
| `PoolTaskQueue.BinarySemaphore.Post` | p3/src/task_queue.c:81-93 | leaves the target's flag at 1 and all others at 0 |
| `PoolTaskQueue.BinarySemaphore.TryTake` | p3/src/task_queue.c:98-102 | succeeds exactly when the thread's own flag is 1 and then lowers that flag only |
| `PoolInvariant.HeldUpdate` | p3/src/thr_pool.c:144-160 | a worker's move changes the multiset of tasks in workers' hands by exactly what that worker gives up and takes |
| `PoolInvariant.IdleMeansFinished` | p3/src/thr_pool.c:136-169 | when `numWorkingThreads` is 0 every task ever dequeued has been executed and freed, because workers increment before they dequeue and decrement after they free |
| `PoolInvariant.WaiterKeepsWaits` | p3/src/thr_pool.c:79-85 | the two reads of `threadPoolWait`, made at different moments, are together conclusive |
| `PoolInvariant.SignalKeepsInv` | p3/src/thr_pool.c:163-169 | a decrement to zero that wakes a sleeping caller keeps the invariant, whichever sleeper is chosen |
| `PoolInvariant.NextInv` | p3/src/thr_pool.c:62-170 | every step of every thread keeps the invariant: lock ownership, request numbering, conservation of tasks, counter, flags, what the signaller posts, what callers of `threadPoolWait` believe |
| `PoolInvariant.ReachableInv` | p3/src/thr_pool.c:62-170 | the invariant holds in every reachable state, for any number of threads |
| `PoolSafety.ExactlyOnceFifo` | p3/src/thr_pool.c:87-170 | tasks enqueued are tasks dequeued followed by the queue; each is executed at most once; each dequeued one is either executed or in the hands of exactly one worker; none still queued has been executed or freed |
| `PoolSafety.QuiescenceSound` | p3/src/thr_pool.c:79-85 | when `threadPoolWait` returns, every task enqueued before the call, and every task enqueued before its last read of `len`, has been executed and freed |
| `PoolSafety.FlagsAndCounters` | p3/src/server_utilities.c:112-113 | at most one flag is 1; nobody sleeps on a raised flag; the k-th request goes to worker k modulo the number of workers, so every queued task names an existing flag; `numWorkingThreads` is the number of workers between increment and decrement |
| `PoolSafety.PostReachesHead` | p3/src/thr_pool.c:92-102 | a post raises exactly the flag of the thread assigned to the task at the head at that moment and leaves no worker asleep |
| `PoolSafety.NoLostWakeup` | p3/src/task_queue.c:81-104 | a raised flag of the head's thread stays raised until that thread takes it or the head is dequeued |
| `PoolSafety.NoCyclicWait` | p3/src/thr_pool.c:92-102 | a thread outside condition waits can act exactly when it waits for no mutex; the owner of that mutex can act, or is the signaller waiting for an owner of `bSem.mutex` who can |
| `PoolSafety.DeadlockFree` | p3/src/thr_pool.c:79-170 | in every reachable state some thread outside condition waits can take a step |
| `PoolProgress.UnblockQueueHelps` | p3/src/thr_pool.c:92-102 | whenever `mutexQueueRW` is held there is an enabled step that brings its release nearer or dequeues the head |
| `PoolProgress.AheadHelps` | p3/src/thr_pool.c:132-144 | for a worker that has taken its flag there is always a step that dequeues the head or lowers that worker's measure |
| `PoolProgress.DriveTarget` | p3/src/thr_pool.c:87-170 | a schedule no longer than the measure makes some worker dequeue the head |
| `PoolProgress.HeadProgress` | p3/src/thr_pool.c:87-170 | within 400 steps the head can be dequeued and executed, no other task being overtaken |
| `PoolProgress.QueuedTaskCanRun` | p3/src/thr_pool.c:87-170 | from every reachable state the task at position p can be executed within 400 * (p + 1) steps, whatever the number of threads |
| `PoolFairness.EventuallyMoves` | p3/src/thr_pool.c:87-170 | in a strongly fair infinite run a thread that is not asleep, and whose mutex is free again and again, takes its next step, with nothing happening to it before |
| `PoolFairness.MutexFreeOften` | p3/src/thr_pool.c:92-102 | in a strongly fair infinite run each mutex is free again and again |
| `PoolFairness.HeadDequeued` | p3/src/thr_pool.c:87-170 | in every such run the task at the head is dequeued, and no other task before it |
| `PoolFairness.EveryTaskExecuted` | p3/src/thr_pool.c:62-170 | in every strongly fair infinite run from a reachable state, for any number of threads, every task that is ever enqueued is executed |
| `PoolReturns.Calms` | p3/src/thr_pool.c:132-170 | after the last task every strongly fair infinite run comes to a state in which all workers wait at the semaphore and no flag is up |
| `PoolReturns.BecomesIdle` | p3/src/thr_pool.c:132-170 | with finitely many requests the queue is empty and `numWorkingThreads` 0 from some state on |
| `PoolReturns.WaitReturns` | p3/src/thr_pool.c:79-85 | with one caller and finitely many requests, in every strongly fair infinite run a caller that has entered `threadPoolWait` returns |
| `PoolWaiters.SecondCallerStranded` | p3/src/thr_pool.c:163-169 | for every number of threads and two or more callers a reachable state has a caller asleep while the queue is empty and no worker is working |
| `PoolWaiters.WakeupsSufficeIffSingleCaller` | p3/src/thr_pool.c:79-85 | no caller of `threadPoolWait` ever sleeps on an idle pool, in any reachable state, if and only if there is at most one |
| `DirTable.HashFunction` | p4/src/super_lib.c:11-17 | the loop computes the C remainder of the sum of signed characters: what is left of the sum after a whole number of table sizes, smaller than the table and with the sum's sign |
| `DirTable.CharSumConcat` | p4/src/super_lib.c:13-15 | the sum over a name is the sum over its parts |
| `DirTable.CharSumByte` | p4/src/super_lib.c:14 | a byte counts as itself below 128 and as itself less 256 from there on |
| `DirTable.IndexableIff` | p4/src/super_lib.c:11-17 | the index lies in the table exactly when that sum is non-negative or a multiple of the table size |
| `DirTable.SevenBitIndexable` | p4/src/super_lib.c:11-17 | names of 7-bit characters always index into the table |
| `DirTable.EndlessIff` | p4/src/super_lib.c:47-53 | a probe visits every cell and goes on for ever exactly when no cell is empty or matches |
| `DirTable.InsertShape` | p4/src/super_lib.c:19-39 | an insertion below capacity fills one empty cell and leaves no empty cell between any record's home and its cell |
| `DirTable.InsertPlacement` | p4/src/super_lib.c:28-36 | a record goes into the first empty cell from its home on, cyclically, and nothing else changes |
| `DirTable.FoundStays` | p4/src/super_lib.c:41-56 | a later insertion never changes the answer of a search that found a record |
| `DirTable.AbsentThenInsert` | p4/src/super_lib.c:41-56 | after a search that found nothing, an insertion is found by it exactly when it has the searched name |
| `DirLookup.TableShape` | p4/src/super_lib.c:19-39 | after any log of insertions that fits there is one occupied cell per insertion, each holding a record of the log |
| `DirLookup.FirstNamedMeaning` | p4/src/super_lib.c:41-56 | the specification's answer is the record at the least position of the log with that name, or none when there is no such position |
| `DirLookup.LookupRefinesLog` | p4/src/super_lib.c:19-56 | for every log that fits and every query that no stored name properly extends, the search returns the earliest inserted record of that name, otherwise NULL, or runs for ever when the table is full |
| `DirLookup.PrefixBreaksSearch` | p4/src/super_lib.c:49 | for every proper extension of a query there is a directory of that name alone in which the query is wrongly found |
| `DirLookup.SearchExactIff` | p4/src/super_lib.c:49 | searches are right over all directories with names from a set if and only if no name of the set properly extends the query |
| `DirFileTable.FileInfoTable.constructor` | p4/src/super_lib.c:3-9 | an empty table represents the empty log |
| `DirFileTable.FileInfoTable.Insert` | p4/src/super_lib.c:19-39 | the array stays the table of the log, which grows by the record, or returns -1 and changes nothing exactly when the table is full |
| `DirFileTable.FileInfoTable.Search` | p4/src/super_lib.c:41-56 | where it terminates, the loop returns the table's answer, which is the earliest logged record of the name if no stored name properly extends it |
| `DirFileTable.FileInfoTable.InsertAll` | p4/src/super_lib.c:327-341 | the records of a packet are logged in order until the table is full; the rest are dropped without notice |
| `DirRegistry.ChildPorts.constructor` | p4/src/super.c:53-56 | only ports are initialised; the ids are whatever they were |
| `DirRegistry.ChildPorts.HelloFromChild` | p4/src/super_lib.c:134-140 | fills the first entry with port 0, if there is one, and changes no other |
| `DirRegistry.ChildPorts.FindPort` | p4/src/super_lib.c:189-194 | returns the port of the first entry with the id, 0 when there is none |
| `DirRegistry.OccupiedPrefix` | p4/src/super_lib.c:134-140 | the occupied entries are a prefix of the array: the accepted announcements in order |
| `DirRegistry.PortOfIsFirst` | p4/src/super_lib.c:189-194 | the port found for an id is that of the first entry that has it |
| `DirRegistry.LookupRefinesHellos` | p4/src/super_lib.c:188-198 | for every sequence of announcements and whatever stale ids, a lookup answers from the accepted announcements alone |
| `DirRegistry.UnknownChildNotFound` | p4/src/super_lib.c:188-198 | an id is "not found" exactly when no accepted announcement has it |
| `DirRegistry.EveryChildFound` | p4/src/super_lib.c:188-198 | with non-zero ports, distinct ids and no more children than entries, every child is found under the port it announced |
| `DirWire.WordRoundTrip` | p4/src/super_lib.c:222-231 | `ntohl` undoes `htonl` on every 32-bit value |
| `DirWire.FieldRoundTrip` | p4/src/super_lib.c:221-230 | a string copied into a longer field is read back unchanged, whatever lay in the field |
| `DirWire.EntryRoundTrip` | p4/src/child.c:107-110 | a reported file survives encoding and decoding |
| `DirWire.RecordRoundTrip` | p4/src/super_lib.c:327-333 | a shared record survives encoding and decoding, all four fields |
| `DirLayout.ReportLayout` | p4/src/common.h:26-46 | a FILE_INFO packet has total length, id, 0x20 and file count in its first 16 bytes, most significant byte first, and file i at 16 + 100 i: name and NUL, size at 96 |
| `DirLayout.ShareLayout` | p4/src/super_lib.h:11-40 | a FILE_INFO_SHARE packet has total length, id, 0x50 and file count in its first 16 bytes, and record i at 16 + 124 i: name and NUL, size at 96, address and NUL at 100, port at 120 |
| `DirWire.PacketDelivered` | p4/src/super_lib.c:119-125 | a packet of fixed-size items arrives complete if it has at most 1020 bytes, and is rejected as incomplete otherwise |
| `DirWire.ReportArrives` | p4/src/super_lib.c:173-187 | a FILE_INFO of up to 100 files is understood exactly when it has at most 10 |
| `DirWire.ShareArrives` | p4/src/super_lib.c:305-317 | a FILE_INFO_SHARE is understood, with every record intact, exactly when it has at most 8 |
| `DirReplicas.StoreAccounts` | p4/src/super_lib.c:218-226 | of the records offered to a table each is stored or counted as missed, and none is missed while there is room |
| `DirReplicas.TakeReportEffect` | p4/src/super_lib.c:173-268 | a report is stored, under the registered port and the address kept for its connection, exactly when it has at most 10 files and its child is registered, and shared exactly when the other node listens and its address is known; otherwise nothing changes |
| `DirReplicas.TakeShareEffect` | p4/src/super_lib.c:305-346 | a share of at most 8 records is stored, a longer one is not; the sender is answered either way |
| `DirContents.ReportRecorded` | p4/src/super_lib.c:218-234 | after a report from an announced child file i has its record, with its name and size, the address kept for the connection and the announced port, at its place in the log as far as there is room, and the share has a record for every file in order |
| `DirContents.ShareRecorded` | p4/src/super_lib.c:327-335 | after a share of at most 8 records record i is at its place in the log as far as there is room; after a longer one the log is as it was |
| `DirReplicas.NextInv` | p4/src/super_lib.c:127-346 | every step, children's announcements and queries included, keeps the account of every record at both nodes, the registry equal to what was announced, and every pending share transmissible |
| `DirReplicas.RunInv` | p4/src/super_lib.c:127-346 | so does every run |
| `DirAgreement.RecordsAccounted` | p4/src/super_lib.c:173-346 | in every reachable state, at either node, stored records, records in flight to it and records it missed are together all records reported |
| `DirAgreement.AlwaysAgreeIff` | p4/src/super_lib.c:240-317 | in every interleaving, the directories agree up to shares in flight in every state of a run if and only if every stored report either can be shared and finds room, or cannot be shared and finds a full table or is empty, and every share processed has at most 8 records and finds room |
| `DirAgreement.ReplicasCompleteIff` | p4/src/super_lib.c:240-346 | after a run each directory plus the share in flight to it is exactly all records reported if and only if every stored report found room and could be shared (or was empty) and every share processed had at most 8 records and found room |
| `DirAgreement.ReportReachesReplicaIff` | p4/src/super_lib.c:199-268 | a stored report of a node that can reach the other, with room at both, arrives there exactly when it has at most 8 files, else not at all |
| `DirAgreement.SearchesAgree` | p4/src/super_lib.c:269-304 | with nothing in flight after such a run a name is found at one node exactly when it is found at the other, and exactly when some child reported it |
| `DirContents.EveryFileAccounted` | p4/src/super_lib.c:218-341 | in every reachable state each file of each report taken by either node has a record at either node that is stored, under way or missed, and there are as many records as files |
| `DirContents.EveryFileFound` | p4/src/super_lib.c:269-304 | after a run that loses nothing, with nothing in flight, each file of each report is found by its name at both nodes |
| `DirBlocking.SearchEndsIff` | p4/src/super_lib.c:47-53 | a search ends if and only if the table has an empty cell or the query begins a stored name |
| `DirBlocking.CompletesIffNotStuck` | p4/src/super_lib.c:240-304 | a busy node can return to its select loop, and then within three steps, if and only if it is not in an endless search and does not wait for a node that is, or that waits for it |
| `DirBlocking.QueryCompletesIff` | p4/src/super_lib.c:269-277 | after taking a query a node can return if and only if the search could be seen to end before |
| `DirBlocking.CarefulRunsComplete` | p4/src/super_lib.c:240-304 | if reports are only taken while the other node has no share pending, and only queries that can be seen to end, every busy node can return |
| `DirBlocking.DeadlockIsFinal` | p4/src/super_lib.c:247-252 | two nodes that wait for each other take no step at all any more |
| `DirBlocking.DeadlockReachable` | p4/src/super_lib.c:240-267 | two simultaneous reports lead there |
| `DirBlocking.LostReachable` | p4/src/super_lib.c:47-53 | for every table size a run with full tables and one query for an unknown name blocks one node for ever, and the other with its next report |
| `DirBlocking.LinksIff` | p4/src/super.c:58-86 | the second node's start-up can end if and only if its greeting has been answered or the greeted node is not in an endless search |
| `DirFairness.BusyNodeReturns` | p4/src/super_lib.c:240-304 | in every strongly fair infinite run that serialises reports and checks queries, every busy node returns to its select loop |
| `DirCapacity.RecordsCarryAnnouncedPorts` | p4/src/super_lib.c:188-226 | in every reachable state every record at either node describes a file of a report taken by one of the nodes, under a port that its child announced in a hello there, whatever ids empty entries hold, and under the address kept for its connection |
| `DirCapacity.AddressesRight` | p4/src/super.c:103-108 | in every reachable state a node has the right address of every child but perhaps the first |
| `DirCapacity.FirstChildMisplaced` | p4/src/super.c:7 | a child that is the first to be accepted by a node is kept under whatever address was there |
| `DirCapacity.GreetedFirstDisagrees` | p4/src/super.c:7 | for every table size, a run in which the greeting is the first connection to be accepted and both nodes listen ends with different directories and nothing in flight |
| `DirCapacity.ReportStoredIff` | p4/src/super_lib.c:175-198 | a report is stored, with the announced port, exactly when it has at most 10 files and its child has announced a port here; otherwise nothing changes |
| `DirCapacity.ServedAtMostRegistry` | p4/src/super_lib.c:134-140 | if each child reports once, a node stores no more reports than it has registry entries |
| `DirCapacity.TablesNeverFill` | p4/src/super_lib.h:7-8 | with 50 entries, 1000 cells and one report per child a table never holds more than 900 records, and every search ends |
| `SelectSession.DedicatedServer.constructor` | p2/src/multi_server_utilities.c:46-60 | a new process has no buffer and an arbitrary sequence field |
| `SelectSession.DedicatedServer.Handle` | p2/src/multi_server_utilities.c:62-143 | one round of the message loop is one step of the session machine that the slots are compared with; at the end of the stream it handles the packet read before |
| `SelectAnswers.ProcessAnswersHello` | p2/src/multi_server_utilities.c:74-78 | a process answers message 1 with 2, numbered below 65535, in 8 bytes |
| `SelectAnswers.ProcessAnswersDelivery` | p2/src/multi_server_utilities.c:79-100 | it answers 3 with 6 and then holds what it held followed by the data of the packet, or with 5 if there is no memory and then holds nothing and ends; a wrapped size is a fault |
| `SelectAnswers.ProcessAnswersStore` | p2/src/multi_server_utilities.c:101-132 | on 4 it opens the file under exactly the text in the packet, writes the first bytes of its buffer to it, as many as the system takes, and answers 7, or 8 if one of these fails, and ends |
| `SelectAnswers.ProcessAnswersElse` | p2/src/multi_server_utilities.c:133-143 | it ends without an answer on 5, faults on a name without end and ignores all else |
| `SelectAnswers.ProcessReplies` | p2/src/common_utilities.c:3-10 | in every conversation each reply has 8 bytes and is one of 2, 5, 6, 7, 8 |
| `SelectSession.CellRunSplit` | p2/src/select_server_utilities.c:84-178 | a slot handles a conversation in parts as it would handle it at once, up to the first fault |
| `SelectAnswers.SlotAnswersHello` | p2/src/select_server_utilities.c:109-115 | a slot answers message 1 with 2, numbered below 65535, in 8 bytes, and keeps what it holds |
| `SelectAnswers.SlotAnswersDelivery` | p2/src/select_server_utilities.c:116-137 | it answers 3 with 6 and then holds what it held followed by the data of the packet, or with 5 if there is no memory and then holds nothing but its count; a freed buffer or a wrapped size is a fault |
| `SelectAnswers.SlotAnswersStore` | p2/src/select_server_utilities.c:138-170 | on 4 it opens the file under exactly the text in the packet, writes the first bytes of its buffer to it, as many as the system takes, and answers 7, or 8 if one of these fails; a freed buffer is a fault |
| `SelectAnswers.SlotAnswersElse` | p2/src/select_server_utilities.c:171-177 | it faults on a name without end and ignores all other messages |
| `SelectAnswers.SlotReplies` | p2/src/common_utilities.c:3-10 | in every conversation each reply has 8 bytes and is one of 2, 5, 6, 7, 8 |
| `SelectAnswers.SlotNames` | p2/src/select_server_utilities.c:142-151 | every file a conversation opens or writes is named by one of its stores |
| `SelectSession.SlotSimulatesProcess` | p2/src/select_server_utilities.c:84-178 | for a client that greets first, a slot gives the same replies, sequence numbers, file system calls and buffer as a dedicated process, up to and including the message that ends the process or the first fault |
| `SelectSession.SameEffectsIffHelloFirst` | p2/src/select_server_utilities.c:108-137 | slot and process have the same effects, for every content of the uninitialised packet, if and only if the first message that draws a reply, if the client gets that far, is a hello |
| `SelectSession.RepliesNumbered` | p2/src/common_utilities.c:3-10 | the k-th reply to a client that greets once, and first, carries the number of the greeting's reply plus k, modulo 2^16 |
| `SelectFaults.FaultFreeIff` | p2/src/select_server_utilities.c:116-170 | a client's messages make its slot's handler use freed memory or go past a block if and only if a name it stores under has no end, it delivers or stores after a store that freed its buffer, or its byte count wraps |
| `SelectFaults.StoreTwiceFaults` | p2/src/select_server_utilities.c:159-167 | a hello, a delivery and two stores do; without the second store they do not |
| `SelectFaults.EndlessNameFaults` | p2/src/select_server_utilities.c:143-151 | a hello and a store under a name without NUL do, too |
| `SelectFaults.ProcessFaultsByCountOrName` | p2/src/multi_server_utilities.c:79-143 | a dedicated process never faults while less than 2^32 bytes are delivered and every name it is given ends |
| `SelectFaults.HeapIrrelevantIff` | p2/src/select_server_utilities.c:120-134 | a slot's state is independent of what fresh heap blocks hold if and only if nothing is delivered after an allocation failure that had cost the client bytes |
| `SelectFaults.HeapIsStored` | p2/src/select_server_utilities.c:120-159 | a client whose allocation fails between deliveries gets memory it has not written into its stored file |
| `SelectClosing.EndsQuietlyIff` | p2/src/multi_server_utilities.c:66-70 | the end of the stream, on which a process handles its last packet again and again, changes nothing if and only if the process had ended or that packet is one it does nothing about |
| `SelectPool.SlotAlwaysFree` | p2/src/select_server_utilities.c:60-82 | with distinct positive client descriptors below the number of slots, one of which the listener has, a free slot always exists, so the error message is dead code |
| `SelectPool.SelectCount` | p2/src/select_server.c:22-23 | what `select` returns is the number of ready slots plus one if the listener is ready, so the scan may stop on `nready` |
| `SelectPool.FdPool.constructor` | p4/src/common.c:51-58 | all slots free, the listener alone in the read set, bounds valid for any initial `maxi` below the size |
| `SelectPool.FdPool.AddClient` | p4/src/common.c:60-84 | takes the first free slot, which exists, changes no other, and keeps the read set equal to listener and clients and both bounds valid |
| `SelectPool.FdPool.CloseSlot` | p4/src/super_lib.c:73-77 | removes exactly this slot's descriptor and keeps the pool's invariant |
| `SelectServer.SelectServer.constructor` | p2/src/select_server.c:8-19 | every slot has descriptor -1, NULL buffer, count 0 and sequence number 0 |
| `SelectServer.SelectServer.HandleClientRequest` | p2/src/select_server_utilities.c:84-178 | handles a message on the entries of slot i as the slot machine does; unless it faults every other slot stays as it was |
| `SelectServer.SelectServer.CloseClient` | p2/src/select_server_utilities.c:191-198 | leaves the slot with descriptor -1, NULL buffer, count 0 and sequence number 0, and every other slot as it was |
| `SelectServer.SelectServer.ServeReady` | p2/src/select_server_utilities.c:187-202 | serves one ready slot, uses up one of `nready`, and unless that brings the server down changes no other slot |
| `SelectServer.SelectServer.HandleClientFds` | p2/src/select_server_utilities.c:180-204 | although it stops when `nready` is used up or `maxi` is passed, it serves every ready client exactly once and no other, and subtracts their number from `nready`; it brings the server down exactly when one of the ready clients does |
| `SelectServer.SelectServer.AcceptClient` | p2/src/select_server.c:25-31 | the new descriptor goes into the first free slot, nothing else changes but `nready` |
| `SelectServer.SelectServer.Round` | p2/src/select_server.c:21-34 | one round that the server survives, whether or not the accept succeeds, is an admission followed by a full scan; it survives exactly when that scan does |
| `SelectServer.AdmittedReady` | p2/src/select_server.c:24-33 | a client accepted in a round is not served in it, and those ready are the same as before the accept |
| `SelectServer.ScanEnd` | p2/src/select_server_utilities.c:185 | a scan that has passed all ready slots has done what a full scan does |
| `SelectClients.NextRoundInv` | p2/src/select_server.c:21-34 | every round keeps every slot a function of its own connection's messages |
| `SelectClients.SlotsIsolated` | p2/src/select_server_utilities.c:180-204 | over all runs, while the server is up, with slots and descriptors reused at will, each open or closed connection has caused exactly the effects its own messages cause in an empty slot; free slots hold nothing |
| `SelectClients.StaysUpIff` | p2/src/select_server_utilities.c:101-170 | the server is up after a run if and only if every client, for itself, neither delivers nor stores after a store that freed its buffer, ends its names, does not make its byte count wrap, and was readable |
| `SelectClients.SecondStoreHarms` | p2/src/select_server_utilities.c:138-170 | a run with one client that stores twice faults |
| `SelectClients.EndlessNameHarms` | p2/src/select_server_utilities.c:143-151 | a run with one client that stores under a name without NUL faults |
| `SelectClients.OneFailingReadEndsAll` | p2/src/select_server_utilities.c:101-105 | from every state of a running server one failing read brings it down, and no other client gets anything more |
| `SelectClients.SelectSimulatesProcesses` | p2/src/select_server_utilities.c:84-204 | over all runs, while the server is up, every client that greets first is served as by a process of its own, and its slot holds that process's buffer and count while the process would still run |
| `SelectClients.ClosedAsByProcessIff` | p2/src/multi_server_utilities.c:66-70 | for a connection closed by a client that greeted first, slot and process agree to the very end if and only if the process had ended before or the last packet is one it does nothing about |
| `TransferProtocol.FileClient.constructor` | p1/src/client.c:36-38 | the client starts at offset 0 with a random 16-bit sequence number |
| `TransferProtocol.FileClient.Handle` | p1/src/client.c:40-113 | one round of the client's loop, failing reads of the file included, is one step of the client machine that the theorems are about |
| `TransferProtocol.ChunkBuffered` | p1/src/server.c:54-75 | appending the next chunk of the file to its buffered beginning gives a longer beginning |
| `TransferProtocol.NextKeepsStage` | p1/src/client.c:40-113 | every step of either machine leads from one stage of the protocol to the next one; exactly one message is under way until the end |
| `TransferTheorems.NothingLost` | p1/src/server.c:54-75 | for files of any size, until the server ends or its count wraps, its buffer, the chunk in flight and the unread rest are together the file, for every way of reading it |
| `TransferTheorems.WholeFileBuffered` | p1/src/server.c:76-93 | at DATA_STORE the buffer is the whole file, which then has less than 2^32 bytes |
| `TransferTheorems.SequenceNumbers` | p1/src/common_utilities.c:3-19 | in every run the k-th packet of either side carries that side's first number plus k modulo 2^16, and the sides take turns |
| `TransferPackets.ClientPackets` | p1/src/client.c:36-94 | in every run the client's first packet is the hello of 8 bytes, all others are deliveries of at most 4022 bytes, the store with the file's name and a NUL, or the error, and the deliveries together are what has been read of the file, in order |
| `TransferPackets.ServerEffects` | p1/src/server.c:46-116 | in every run the server opens and writes only the file that the client was told to send, writes only a beginning of it, and all its replies have 8 bytes and are one of 2, 5, 6, 7, 8 |
| `TransferTheorems.StoredFile` | p1/src/server.c:83-107 | when the client reports success the target is what write() took of the file, laid over the old contents; it begins with the file exactly if that was all or the old target held the rest, and equals it exactly if the old target was also not longer |
| `TransferProtocol.StoreName` | p1/src/server.c:78-83 | the server opens the file under the name that the client was given |
| `TransferTheorems.ShortWriteReportsSuccess` | p1/src/server.c:93-107 | for every file and every part of it there is a run in which only that part is written and both sides report success |
| `TransferTheorems.FailureKeepsTarget` | p1/src/server.c:83-101 | a failed transfer leaves the target's contents alone, or creates it empty |
| `TransferTheorems.Terminates` | p1/src/client.c:95-112 | no run has more than 2 max(1, n) + 4 steps; a run is stuck exactly when both machines have ended, the client could not read its file, or the server's count has wrapped; both end with the same verdict |
| `TransferTheorems.SucceedsIffCountable` | p1/src/server.c:54-75 | if nothing fails a run that has ended has reported success if and only if the file has less than 2^32 bytes; otherwise it has reported an error if a chunk ended at 2^32 exactly, and crashed the server if not |
| `Download.SendFile` | p4/src/child_lib.c:120-129 | the packets sent are the pieces that full reads cut the file into |
| `Download.ServeRequest` | p4/src/child_lib.c:91-132 | a request is refused when the file is absent, its size looks negative as an int, or it cannot be opened, and served with the pieces of the file otherwise |
| `Download.ReceiveFile` | p4/src/child.c:237-269 | stops at the first packet after which exactly the advertised number of bytes has arrived, with these bytes; it overruns, fails on a message of another kind, or waits on, only when no earlier packet ends there |
| `Download.DownloadRoundTrip` | p4/src/child.c:243-269 | the packets of a file are ceil(n / 10000), each with 12 bytes of header and at most 10000 of data, join to the file, and no proper part of them has its size |
| `Download.DownloadFile` | p4/src/child.c:237-269 | sender and receiver together deliver every unchanged file of 0 < n < 2^31 bytes that can be opened after exactly ceil(n / 10000) packets; an empty file leaves the receiver waiting, others are refused |
| `Download.BoundaryAt` | p4/src/child_lib.c:120-129 | after k packets that are not all, exactly the first 10000 k bytes have arrived |
| `Download.DownloadChangedFile` | p4/src/child.c:267-268 | if the file's size has changed, the receiver completes if and only if the advertised size ends a packet of the new contents, and then holds that prefix |

## Left out

- Opening sockets, `fork`, signals, the directory scan, argument parsing, standard input, logging and all output.
- Splitting and joining of packets by TCP; in particular the bytes of an over-long FILE_INFO_SHARE that stay unread.
- The HTTP response of p3 and the p3 client; executing a task is one step that always returns.
- That a task runs on the thread it is assigned to: the code does not guarantee it, since the signaller can post again before a woken thread dequeues.
- `threadPoolInit` and `numActiveThreads`: the pool starts where initialisation ends. The source never initialises the condition variable of `threadPoolWait`; it is taken to be usable.
- PoolSafety.FlagsAndCounters: `len` and `numWorkingThreads` are unbounded here and do not wrap at 32 bits; the producer's count of 10 in the source is the number of threads here.
- DirTable.HashFunction: the sum does not overflow, as names have at most 95 characters.
- DirFileTable.FileInfoTable.Search: partial by design; it may be called only where the C loop terminates, a condition that `DirTable.EndlessIff` shows to be exact.
- DirFileTable.FileInfoTable.Insert: names that index outside the table are excluded (`DirTable.IndexableIff`).
- DirWire.PacketDelivered: headers whose length or count field contradicts the packet, and names or addresses too long for their fields, do not occur.
- The replies HELLO_FROM_SUPER, FILE_INFO_RECV_SUCCESS, FILE_INFO_RECV_ERROR, SEARCH_ANS and FILE_INFO_SHARE_SUCCESS, and the error reply for shares, whose bytes come from a pointer variable; only that a share is answered and that a search ends matters here.
- DirReplicas.TakeReportEffect: the two super nodes stay up.
- DirAgreement.SearchesAgree: the nodes may return different records of the same name, as each stores its own reports first.
- SelectFaults.FaultFreeIff: length fields outside the packet do not occur.
- SelectServer.SelectServer.Round: an accepted descriptor at or above the size of the set, and a `select` that fails, do not occur.
- The client addresses that the pools of p3 and p4 keep beside each descriptor.
- The client thread of p2.
- SelectSession.DedicatedServer.Handle: read errors of the socket, on which the process leaves its loop and ends.
- TransferProtocol.FileClient.Handle: read errors of the socket, on which the client leaves its loop; file names of more than 4021 characters.
- TransferTheorems.Terminates: what the client does after it has given up and the server has closed the connection; it takes the end of the stream for its last packet once more and writes to a closed socket.
- Download.ReceiveFile: failing reads, the end of the stream, and sizes of 2^31 and more in the receiver's int.
