# Verified models of the shared-memory data structures and applications

The repository holds software for machines that share memory without full cache coherence: a software
transactional memory, locks, trees, hash tables and lists that many threads use at once, and the STAMP
applications that run on them. This project models its most intricate parts in Dafny and proves what they are
for: that runs of the concurrent protocols are equivalent to runs of a simple object, that the sequential
structures keep their shape and their contents, and that the fast forms compute what the plain ones do.

Concurrent code is a state machine whose steps are single accesses to shared memory (a load, a store, a compare and
swap), taken by any number of threads in any order; the theorems are about every run, of any length. Fields of a
state that the program does not store (the operations that have taken effect, the values a transaction was
given, the order in which tickets were taken) only record what happened and never guide a step. Code that works in
place is a class, or a method with loops, proved against functions on values.

* `Tl2*`: the TL2 transactional memory in its lazy form with the GV4 clock. Every run is strictly
  serializable, and opaque: all transactions, those that abort or have not ended included, stand in one order in
  which every load is legal and real time is respected, with exactly the operations that their programs called for.
  A transaction that nobody disturbs commits.
* `BakeryLock`, `BakeryOrder`: the software lock. Mutual exclusion, first come first served, freedom from deadlock,
  and exactly when a thread gets in while the others stand still.
* `EpocheList`, `Epoche`, `EpocheCleanup`: epoch-based reclamation of the radix tree. Nothing is freed while a thread
  that could have found it is still inside, nothing that is marked is lost or listed twice, and what is old enough is
  freed, in a number of steps known beforehand.
* `RecordOrder`, `RecordSort`, `BayesData`, `AdTree`: the table of records, its quicksort with an explicit stack,
  and the sparse tree of counts. The tree answers every conjunctive query with the number that counting the
  records gives.
* `NetGraph`, `Net`, `DependencyOrder`: the Bayesian network. Search, cycle test and random edges are related to
  paths in the graph, and the order in which records are drawn is a topological one.
* `OlcNodes`, `OlcTree`, `OlcMachine`, `OlcProof`, `OlcAnswers`, `OlcAlone`, `OlcSolo`, `OlcSteps`: the B+-tree with
  optimistic lock coupling. Linearizability under split, restart and version checks, for lookups of keys that are
  there; the answer for any other key is not determined. Bounds on the restarts and steps of an operation that nobody
  disturbs.
* `StxLinks`, `StxTree`, `StxInsert`, `StxErase`, `StxBulk`: the STX B+ tree. Insertion, deletion with merging and
  shifting, and bulk loading keep what `verify` tests, the linked list of leaves and the counts of nodes included,
  and change the sorted contents by one item.
* `ClevelMachine`, `ClevelChain`, `ClevelSearch`, `ClevelLone`, `ClevelRehash`: the lock-free Clevel table while it
  grows. A key that is in the table is found by every search, whatever the resizing threads do meanwhile, and one that
  is not is never found. The moving thread empties and retires the last level, and when it cannot.
* `LevelHash`: level hashing with one thread. No operation loses or doubles an item, and insertion and growth fail
  exactly where no move could help.
* `LockFreeList`, `LockFreeLone`: the sorted lock-free list. Linearizability of insertion and lookup, which holds as
  long as all keys inserted are above the key of the head, and the end of calls that nobody disturbs.
* `Slots`: positions in sorted slot arrays, shared by the two trees.
* `Options`: the type of a value that may be missing.

## Model

| member | source | states |
|---|---|---|
| `Tl2Serial.Opacity` | stm/tl2/tl2.c:2025-2107 | In every reachable state, everything every transaction has loaded so far, whether it is running, has aborted or has committed, is what a serial execution of some first part of the committed transactions gives, together with its own stores; that first part has every transaction that ended before this one began; the operations of each are the calls its thread made since it began, in order, with their addresses and values, all of them unless it gave up |
| `Tl2Total.OneOrder` | stm/tl2/tl2.c:1449-2107 | In every reachable state all transactions, committed, aborted and running, executed one at a time in the order of their versions with the writes of those that did not commit dropped, load what they loaded; a transaction that had ended when another began comes before it, whatever became of the two; the operations of each are the calls its thread made since it began, in order, with their addresses and values, all of them unless it gave up |
| `Tl2Total.TotalOrderExists` | stm/tl2/tl2.c:372-387 | There is such an order for every history, with each transaction once |
| `Tl2Total.PlaceLegal` | stm/tl2/tl2.c:2076-2090 | At its place every transaction loads what it loaded, whether it committed or not |
| `Tl2Total.PlaceInTime` | stm/tl2/tl2.c:2163-2187 | What had ended before a transaction began has an earlier place |
| `Tl2Calls.RunningAsCalled` | stm/tl2/tl2.c:1897-2107 | In every state of every run, what a transaction under way has recorded are the loads and stores that the steps of its thread called for since it began: all but the one it is in, or in which it gives up |
| `Tl2Calls.RecordAsCalled` | stm/tl2/tl2.c:2163-2245 | Every record of a transaction that has ended was made in one step by the thread that ran it, with the calls of that transaction and the number of those that had ended when it began |
| `Tl2Calls.EndedOnce` | stm/tl2/tl2.c:2163-2245 | Every transaction that a thread begins is recorded exactly once, when it is over and not before |
| `Tl2Lone.LoneCommits` | stm/tl2/tl2.c:1449-1672 | In every run, from every moment at which no stripe is taken, a transaction during which no other thread takes a step, and that its program does not give up, never aborts |
| `Tl2Lone.LoneEnds` | stm/tl2/tl2.c:1449-1672 | Its commit is over after a number of steps that the sizes of its two logs tell when it begins |
| `Tl2Lone.NeverStuck` | stm/tl2/tl2.c:1449-2245 | In every state of every run every thread can take a step |
| `Tl2Serial.StrictSerializability` | stm/tl2/tl2.c:1449-1672 | For every run, the transactions that ended without abort, replayed one at a time in serial order from the first memory, load what they loaded; the order never puts a transaction before one that ended before it began; with no commit under way, memory is what the replay leaves; the operations of each are the calls its thread made since it began, in order, with their addresses and values, all of them unless it gave up |
| `Tl2Serial.SerialOrderExists` | stm/tl2/tl2.c:372-387 | The write versions and read versions put all transactions that did not abort in one strict order, each once |
| `Tl2Serial.ReplayMemory` | stm/tl2/tl2.c:1652-1661 | Memory after replaying the first `n` transactions is, at every address, the latest value written by one of them |
| `Tl2Serial.ReplayLegal` | stm/tl2/tl2.c:1245-1278 | At its turn every transaction loads exactly what it loaded in the run |
| `Tl2Serial.RealTime` | stm/tl2/tl2.c:2163-2187 | A transaction that ended before another began stands before it in the serial order |
| `Tl2Serial.FinalMemory` | stm/tl2/tl2.c:746-755 | With no commit under way, memory equals the memory that the replay of all transactions leaves |
| `Tl2Serial.SnapshotLegal` | stm/tl2/tl2.c:2076-2090 | Loads accepted against read version `rv` are legal in the memory of the transactions with versions up to `rv` |
| `Tl2Serial.BorrowedVersions` | stm/tl2/tl2.c:372-387 | Two committed transactions that share one write version, as GV4 allows, have no lock stripe in common between what one wrote and what the other wrote or read |
| `Tl2Serial.LockAssertions` | stm/tl2/tl2.c:1331-1411 | In every reachable state a held entry's stripe is locked by that very entry, and the version to be released is above the one it displaced: the assertions of the restoring and dropping loops |
| `Tl2Serial.RevalidationIsRedundant` | stm/tl2/tl2.c:1528-1538 | A stripe that was read and is held was taken at a version no later than the read version, so the extra test of an already locked stripe never aborts |
| `Tl2Opacity.ReadIsCurrent` | stm/tl2/tl2.c:2076-2090 | The value that the lock, value, lock reading accepts is the value the address has at the transaction's read version |
| `Tl2Opacity.IsolatedStep` | stm/tl2/tl2.c:1245-1278 | Every step keeps that no committed transaction has a commit, to a stripe it read, serialized between its read and its write version |
| `Tl2Opacity.InvStep` | stm/tl2/tl2.c:1449-2245 | The invariant of locks, versions, memory, read values and records is kept by each of the steps |
| `Tl2Opacity.InvRun` | stm/tl2/tl2.c:1449-2245 | The invariant holds in every state of every run |
| `Tl2Structure.StructureStep` | stm/tl2/tl2.c:1509-1609 | Every step keeps the ownership of lock words: a locked word names the one entry that holds it, and versions stay at or below the clock |
| `Tl2Effects.EffectOfStep` | stm/tl2/tl2.c:1449-2245 | Each step of the machine is one of a few effects on shared state: nothing, begin, read, take a stripe, clock, commit, write back, give a stripe, end |
| `Tl2History.ValueAtAgree` | stm/tl2/tl2.c:2076-2090 | Between two versions with no commit to an address its value is the same |
| `Tl2History.OwnerHolds` | stm/tl2/tl2.c:1528-1538 | The thread named by a locked word holds that stripe |
| `Tl2History.TakesStripe` | stm/tl2/tl2.c:1541-1607 | Taking a stripe keeps the bounds on the versions that may still be written to every stripe |
| `Tl2History.GivesStripe` | stm/tl2/tl2.c:1373-1411 | So does giving a stripe back, with the old or the new version |
| `Tl2History.CommitsStripe` | stm/tl2/tl2.c:1638-1661 | So does the decision to commit |
| `Tl2Invariant.SeenStep` | stm/tl2/tl2.c:2076-2090 | Every step keeps that the values a transaction has been given are those at its read version |
| `Tl2Invariant.PassedEntry` | stm/tl2/tl2.c:1245-1278 | A read-set entry that passes validation has no commit between read version and write version, and will have none |
| `Tl2Invariant.CommitValidated` | stm/tl2/tl2.c:1638-1646 | When the commit is decided this holds for every address that was read |
| `Tl2Log.LookupExact` | stm/tl2/tl2.c:2046-2061 | The look-aside behind the Bloom filter finds the latest store to the address if there is one, and only then: the filter never hides a store |
| `Tl2Log.RecordKeepsFilter` | stm/tl2/tl2.c:1937-1948 | Every recorded address stays covered by the filter |
| `Tl2Log.LastStoreFound` | stm/tl2/tl2.c:2054-2060 | There is a latest store to an address if and only if an entry for it |
| `Tl2Log.LastStoreAt` | stm/tl2/tl2.c:2054-2060 | An entry with no later one for its address is the latest store |
| `Tl2Log.LastStoreReplace` | stm/tl2/tl2.c:1915-1925 | Rewriting the last entry for an address changes the latest store to that address and to no other |
| `Tl2Log.ReplaceAt` | stm/tl2/tl2.c:1917-1924 | The entry that is rewritten is the last one for the address |
| `Tl2LogList.Log.constructor` | stm/tl2/tl2.c:580-599 | A new log is empty and has the nodes asked for |
| `Tl2LogList.Log.Reset` | stm/tl2/tl2.c:1158-1190 | A reset log is empty, filter included, and keeps its nodes |
| `Tl2LogList.Log.Append` | stm/tl2/tl2.c:824-850 | The contents gain the entry at the end; a node is reused if one is left, and made and counted as overflow otherwise |
| `Tl2LogList.Log.RecordStore` | stm/tl2/tl2.c:1937-1948 | The log, filter included, is that of the specification with the store recorded |
| `Tl2LogList.Log.FindLast` | stm/tl2/tl2.c:1917-1925 | The last entry for the address, or none if there is none |
| `Tl2LogList.Log.LookAside` | stm/tl2/tl2.c:2046-2061 | The result is the latest store to the address in the log |
| `Tl2LogList.Log.UpdateLast` | stm/tl2/tl2.c:1915-1925 | The contents are those with the last entry for the address rewritten, or as they were if there is none |
| `Tl2LogList.Log.FindFirst` | stm/tl2/tl2.c:779-790 | The first entry of a lock, or none if there is none |
| `Tl2LogList.Log.WriteBackForward` | stm/tl2/tl2.c:746-755 | Every address ends with its latest store, or keeps its value |
| `Tl2LogList.Log.WriteBackReverse` | stm/tl2/tl2.c:763-770 | Every address ends with its earliest saved value, or keeps its value |
| `Tl2LogList.Log.StoreLocal` | stm/tl2/tl2.c:2147-2155 | A local store is made, and the undo log still undoes all local stores so far |
| `Tl2LogList.Log.RollBack` | stm/tl2/tl2.c:1712-1715 | An abort brings back every local as it was before the first store, however often it was stored |
| `BakeryLock.MutualExclusion` | ds/lock/soft_lock.cc:15-53 | In every state of every run at most one thread is in the critical section |
| `BakeryLock.FirstComeFirstServed` | ds/lock/soft_lock.cc:15-53 | A thread in the critical section comes after every turn of another machine whose ticket was there before it began to choose its own |
| `BakeryLock.LeastTicket` | ds/lock/soft_lock.cc:36-48 | Among the tickets taken there is one with none before it, in the order of numbers and then of machines |
| `BakeryLock.DeadlockFreedom` | ds/lock/soft_lock.cc:15-53 | Whenever a thread wants the lock or has it, some such thread can take its next step without waiting |
| `BakeryOrder.ServedInOrder` | ds/lock/soft_lock.cc:15-53 | Told from the states of the run alone: if one thread waits with its ticket when another has not begun to choose one, the other does not get in before the first has been in and out |
| `BakeryOrder.GetsInAlone` | ds/lock/soft_lock.cc:15-53 | A thread that alone takes steps is in the critical section after a number of them that is known beforehand if no machine keeps it waiting, by choosing or by a ticket before its own; if one does, it never gets in |
| `BakeryOrder.CanStep` | ds/lock/soft_lock.cc:15-53 | A thread that wants the lock can always take its next step |
| `BakeryLock.InvRun` | ds/lock/shm_lock.cc:39-51 | The invariant on tickets and waiting loops, with one thread of a machine at a time behind its local lock, holds in every state of every run |
| `EpocheList.KeptOrFreed` | ds/RadixART/Epoche.cpp:84-125 | A label is kept if and only if it is not older than the oldest epoch, and a node is freed if and only if its label is not kept |
| `EpocheList.AddTimes` | ds/RadixART/Epoche.cpp:46-68 | Marking a node lists it once more and changes how often no other is listed |
| `EpocheList.KeptAndFreed` | ds/RadixART/Epoche.cpp:84-125 | What a cleanup keeps and what it frees are together what was listed, node by node |
| `EpocheList.DeletionList.AddNode` | ds/RadixART/Epoche.cpp:46-68 | The node joins the head label of its epoch if that has room, and a new head label otherwise; it is listed once more, every other node as often as before; the counters follow |
| `EpocheList.DeletionList.Remove` | ds/RadixART/Epoche.cpp:33-44 | Exactly the given label leaves the list, is kept for reuse, and its nodes count as deleted |
| `EpocheList.DeletionList.Cleanup` | ds/RadixART/Epoche.cpp:84-125 | The labels left are those not older than the oldest epoch; every node is now listed or freed, together exactly as often as it was listed |
| `Epoche.FreedSafely` | ds/RadixART/Epoche.cpp:74-125 | In every run, when a node becomes freed, it is one that the thread sweeping had marked, it was taken out of the structure in some step before, and every thread that was in a critical section in that step has been outside since |
| `Epoche.HeldOrLeft` | ds/RadixART/Epoche.cpp:74-78 | Who was in a critical section when a node was taken out still counts as a holder of it, or has been outside since |
| `EpocheCleanup.ScanFinds` | ds/RadixART/Epoche.cpp:96-102 | During every sweep: since the thread gave up its own epoch it has read the announcement of every thread, in known steps; what it goes by is at or below all of them, and is one of them or the maximum |
| `EpocheCleanup.SweepLeaves` | ds/RadixART/Epoche.cpp:104-122 | At the end of a sweep the thread lists exactly the labels it listed at the beginning and that are not older than what the scan found; the nodes of all others are freed |
| `EpocheCleanup.OldLabelsGo` | ds/RadixART/Epoche.cpp:94-122 | If all epochs announced during a cleanup are above an epoch, no label up to that epoch is left |
| `EpocheCleanup.NothingLeft` | ds/RadixART/Epoche.cpp:94-122 | If nobody announces an epoch during a cleanup, the thread has no labels at its end, and nothing it marked is not freed |
| `EpocheCleanup.ExitCleansUp` | ds/RadixART/Epoche.cpp:89-93 | An exit cleans up if and only if more nodes than the threshold were marked since the last cleanup and some node is listed |
| `EpocheCleanup.EpochMoves` | ds/RadixART/Epoche.cpp:86-88 | The epoch moves on by one in exactly the exits of threads whose count of marks is one more than a multiple of 64 |
| `EpocheCleanup.ExitEnds` | ds/RadixART/Epoche.cpp:84-125 | An exit waits for nobody: however the others move, it takes fewer steps than its labels and the number of threads tell when it begins |
| `EpocheCleanup.ExitNotStuck` | ds/RadixART/Epoche.cpp:84-125 | The next step of an exit can always be taken |
| `Epoche.Conservation` | ds/RadixART/Epoche.cpp:33-68 | For every thread, the nodes it has marked that are not freed are exactly those in its list, each in one place of it; and what it counts as added is what it counts as deleted and what is in its list |
| `Epoche.MarkedOrGone` | ds/RadixART/Epoche.cpp:46-125 | A node that a thread has marked stays marked by that thread until it is freed |
| `Epoche.GoneStays` | ds/RadixART/Epoche.cpp:84-125 | A node that is freed stays so: none is freed twice |
| `Epoche.InvRun` | ds/RadixART/Epoche.cpp:74-125 | The invariant on epochs, labels and threads inside holds in every state of every run |
| `RecordOrder.CompareRecord` | apps/stamp/bayes/data.c:336-352 | The sign of the result is the lexicographic order from the offset on, and zero means equal there |
| `RecordOrder.LexTotal` | apps/stamp/bayes/data.c:336-352 | Of two records one is at or before the other |
| `RecordOrder.LexTransitive` | apps/stamp/bayes/data.c:336-352 | The order is transitive |
| `RecordSort.SortRange` | apps/stamp/bayes/sort.c:154-238 | The range ends in order and is a permutation of what it was, with all else untouched; for every number of records that 32 bits hold, the two stacks of thirty places are never full |
| `RecordSort.Partition` | apps/stamp/bayes/sort.c:186-205 | The part is rearranged round a pivot: nothing up to the upper scan is after it, nothing from the lower scan on is before it |
| `RecordSort.ScanUp` | apps/stamp/bayes/sort.c:193-195 | The scan stops at the first record after the pivot, or beyond the part |
| `RecordSort.ScanDown` | apps/stamp/bayes/sort.c:196-198 | The scan stops at the last record before the pivot, or at the pivot |
| `RecordSort.ShortSort` | apps/stamp/bayes/sort.c:128-147 | A short part is put in order by moving the largest record to the end, and is a permutation of what it was |
| `RecordSort.PartSettles` | apps/stamp/bayes/sort.c:207-228 | After a cut, two records out of order lie together in a part that is still on the stack |
| `RecordSort.Shallow` | apps/stamp/bayes/sort.c:166-167 | As the larger side waits and the smaller is taken first, a part that is cut lies above fewer than 29 others |
| `BayesData.Data.Sort` | apps/stamp/bayes/data.c:360-377 | The part is sorted from the offset on, by the quicksort of the program, and is a permutation of what it was; the rest of the table is untouched |
| `BayesData.Data.FindSplit` | apps/stamp/bayes/data.c:387-406 | The binary search finds the place before which all values are 0 and from which all are 1 |
| `BayesData.CountData` | apps/stamp/bayes/adtree.c:558-586 | Counting one by one gives the number of records that match the query |
| `BayesData.MatchingMore` | apps/stamp/bayes/adtree.c:245-265 | The records of a part that agree with one more term are those that match the longer query |
| `AdTree.SplitCovers` | apps/stamp/bayes/adtree.c:245-265 | Each half of a sorted, split part has exactly the records of the table that match the path and its value |
| `AdTree.SortAndSplit` | apps/stamp/bayes/adtree.c:241-246 | Leaving out the sort where the parent's order serves still gives the two halves |
| `AdTree.MakeValue` | apps/stamp/bayes/adtree.c:252-265 | The node made for one value of a variable has exact counts for the records with that value, and only its part of the table is rearranged |
| `AdTree.MakeVary` | apps/stamp/bayes/adtree.c:231-268 | The vary node has a subtree of exact counts for the rarer value, none for the more common one, and says which that is |
| `AdTree.MakeNode` | apps/stamp/bayes/adtree.c:275-300 | The node's count and all counts below it are those of the records that match their paths |
| `AdTree.MakeTree` | apps/stamp/bayes/adtree.c:308-316 | The tree of a table has exact counts at every node, and the table keeps its records |
| `AdTree.CountSplits` | apps/stamp/bayes/adtree.c:356-400 | Leaving out one term counts the records with either value of it: the identity behind the subtraction |
| `AdTree.CountPrefix` | apps/stamp/bayes/adtree.c:331-333 | A longer query matches no more records, so a missing subtree means zero |
| `AdTree.SuperQuery` | apps/stamp/bayes/adtree.c:364-375 | The copied query vector is the query without one term |
| `AdTree.GetCount` | apps/stamp/bayes/adtree.c:323-440 | From any node on the path of a query the recursion gives the number of records that match, and leaves the query as it was |
| `AdTree.GetCommonCount` | apps/stamp/bayes/adtree.c:356-400 | At the more common value the count of the query without the term, less that of the flipped query, is the count of the query |
| `AdTree.GetSuperCount` | apps/stamp/bayes/adtree.c:364-378 | The first of the two, from the root |
| `AdTree.GetTreeCount` | apps/stamp/bayes/adtree.c:448-469 | For every query in order of variables the tree gives the number of records that match |
| `AdTree.TreeAgreesWithCounting` | apps/stamp/bayes/adtree.c:448-586 | Building the tree and asking it gives what counting the records gives, for every table and query |
| `NetGraph.AddedAcyclic` | apps/stamp/bayes/net.c:866-882 | A graph with one more edge is acyclic if and only if it was and there was no path back |
| `NetGraph.ReachMirror` | apps/stamp/bayes/net.c:615-665 | Paths along children are paths along parents the other way |
| `NetGraph.AcyclicMirror` | apps/stamp/bayes/data.c:177-241 | A graph is acyclic if its mirror is |
| `NetGraph.RankDrops` | apps/stamp/bayes/data.c:177-241 | Along an edge of an acyclic graph the number of nodes that can be reached drops |
| `NetGraph.ReachesLeaf` | apps/stamp/bayes/data.c:177-241 | In an acyclic graph a node without children can be reached from everywhere |
| `Net.InsertIdIs` | apps/stamp/lib/list.c:583-609 | Insertion into a sorted list keeps it sorted and adds one occurrence of the id, and nothing else |
| `Net.RemoveIdIs` | apps/stamp/lib/list.c:688-708 | Removal keeps it sorted and takes one occurrence, if there is one, and nothing else |
| `Net.Net.constructor` | apps/stamp/bayes/net.c:162-197 | A new net has no edges |
| `Net.Net.InsertEdge` | apps/stamp/bayes/net.c:219-234 | Both lists gain the one edge, and parents stay the mirror of children |
| `Net.Net.RemoveEdge` | apps/stamp/bayes/net.c:263-278 | Both lists lose the one edge |
| `Net.Net.ReverseEdge` | apps/stamp/bayes/net.c:307-312 | The edge is replaced by its reverse |
| `Net.Net.HasEdge` | apps/stamp/bayes/net.c:366-384 | True if and only if the edge is there |
| `Net.Net.IsPath` | apps/stamp/bayes/net.c:414-454 | True if and only if there is a path, also in graphs with cycles |
| `Net.Net.IsCycleFrom` | apps/stamp/bayes/net.c:509-538 | A cycle reported is one; with none reported, all that can be reached is done with and lies on no cycle |
| `Net.Net.IsCycle` | apps/stamp/bayes/net.c:546-578 | True if and only if the graph has a cycle |
| `Net.Net.FindAncestors` | apps/stamp/bayes/net.c:615-665 | Fails if and only if the node lies on a cycle, and otherwise gives exactly the proper ancestors |
| `Net.Net.FindDescendants` | apps/stamp/bayes/net.c:734-785 | Fails if and only if the node lies on a cycle, and otherwise gives exactly the proper descendants |
| `Net.FindBeyond` | apps/stamp/bayes/net.c:615-665 | The same of the search that both share, on any graph |
| `Net.QueueAdvances` | apps/stamp/bayes/net.c:414-454 | Why the path search ends although ids are queued more than once |
| `Net.Net.GenerateRandomEdges` | apps/stamp/bayes/net.c:851-885 | The graph stays acyclic and keeps its edges; every new edge is one that was drawn, and every edge drawn is there unless there is a path back; no edge becomes double; with 0 percent nothing changes |
| `Net.DrawsTo` | apps/stamp/bayes/net.c:861-868 | What is drawn: every attempt uses one number, and a second one if it asks for an edge; with 0 percent none asks; with 100 or more all do, each with its own number as parent, and each node has its turns in order |
| `Net.Net.DrawEdge` | apps/stamp/bayes/net.c:866-882 | One attempt uses the numbers, and treats the edge drawn, as it should |
| `DependencyOrder.FindDependencies` | apps/stamp/bayes/data.c:206-223 | The breadth-first walk up from a leaf lists exactly the leaf and its ancestors, every mention of a node followed by its parents; what is done gains exactly these |
| `DependencyOrder.ReachedAll` | apps/stamp/bayes/data.c:206-223 | A list in which parents follow their children, and which holds only what can be reached, holds all that can be reached |
| `DependencyOrder.Place` | apps/stamp/bayes/data.c:225-237 | Read backwards, the list extends an order in which parents come first |
| `DependencyOrder.FindClear` | apps/stamp/lib/bitmap.c:260-274 | The first clear bit from a place on, or none if there is none |
| `DependencyOrder.FindOrder` | apps/stamp/bayes/data.c:177-241 | The order has every node once, and all parents before their children |
| `DependencyOrder.AllPlaced` | apps/stamp/bayes/data.c:195-241 | Starting from the leaves only is enough to place every node of an acyclic net |
| `DependencyOrder.GenerateRecord` | apps/stamp/bayes/data.c:250-270 | Every variable of a record is drawn with the threshold in the row whose number has the final values of its parents for its bits, the first parent on top |
| `DependencyOrder.SelectedRow` | apps/stamp/bayes/data.c:256-263 | The number built by shifting has the value of every parent as its bit, and lies in the table |
| `DependencyOrder.OtherRow` | apps/stamp/bayes/data.c:256-263 | Two records select the same row if and only if the parents have the same values in both |
| `DependencyOrder.EveryRow` | apps/stamp/bayes/data.c:256-263 | Every row of a table is selected by some values of the parents |
| `DependencyOrder.StaysDrawn` | apps/stamp/bayes/data.c:250-270 | Drawing a later variable does not change what an earlier one was drawn with |
| `OlcNodes.InsertGet` | ds/BTreeOLC/BTreeOLC.h:172-191 | A leaf after an insert gives the new value for the key and what it gave for all others |
| `OlcNodes.HalvesGet` | ds/BTreeOLC/BTreeOLC.h:193-209 | For every key the half on its side of the separator gives what the leaf gave |
| `OlcNodes.BinarySearch` | ds/BTreeOLC/BTreeOLC.h:241-255 | The place is the number of smaller keys |
| `OlcNodes.LeafPage.LowerBound` | ds/BTreeOLC/BTreeOLC.h:145-159 | The same on a leaf; on an empty one, which the loop still probes, the place is 0 or 1 |
| `OlcNodes.LeafPage.Insert` | ds/BTreeOLC/BTreeOLC.h:172-191 | The shifted arrays hold the leaf with the key upserted |
| `OlcNodes.LeafPage.Split` | ds/BTreeOLC/BTreeOLC.h:193-209 | Old and new page and separator are the two halves |
| `OlcNodes.InnerPage.Insert` | ds/BTreeOLC/BTreeOLC.h:273-283 | The shifted arrays and swapped children hold the page with the separator and its right child |
| `OlcNodes.InnerPage.Split` | ds/BTreeOLC/BTreeOLC.h:257-271 | The two halves, with the middle separator moved up |
| `OlcTree.ChildForIn` | ds/BTreeOLC/BTreeOLC.h:405-411 | The child chosen for a key answers for it |
| `OlcTree.LeafFor` | ds/BTreeOLC/BTreeOLC.h:470-524 | From every page that answers for a key the way leads to a leaf that does |
| `OlcTree.OnlyParent` | ds/BTreeOLC/BTreeOLC.h:343-468 | A page has one parent and one place in it |
| `OlcTree.SplitBelowOk` | ds/BTreeOLC/BTreeOLC.h:382-396 | Splitting a full page below a parent with room keeps the tree in order |
| `OlcTree.SplitRootOk` | ds/BTreeOLC/BTreeOLC.h:310-324 | So does splitting a full root under a new one |
| `OlcTree.SplitAgrees` | ds/BTreeOLC/BTreeOLC.h:437-451 | A split changes what no key maps to |
| `OlcTree.StoreOk` | ds/BTreeOLC/BTreeOLC.h:453-466 | A store in the leaf that answers for the key makes the tree hold the map with that key set |
| `OlcProof.Linearizable` | ds/BTreeOLC/BTreeOLC.h:343-524 | In every state of every run the operations that took effect can be replayed on a map: every lookup of a key that is in the map at its turn answered success and the value of the map; each call took effect once, as the operation that the caller asked for in the step that made the call; and the leaves hold the map |
| `OlcProof.RealTime` | ds/BTreeOLC/BTreeOLC.h:343-524 | A call that returned before another was made took effect before it |
| `OlcProof.EffectsGrow` | ds/BTreeOLC/BTreeOLC.h:343-524 | The list of effects is only added to |
| `OlcProof.EffectOfCall` | ds/BTreeOLC/BTreeOLC.h:343-524 | Whenever a thread is at the call with the number of an effect, before or after it, it is at the operation of that effect |
| `OlcProof.InvStep` | ds/BTreeOLC/BTreeOLC.h:343-524 | Every step keeps tree, locks and what each thread may conclude from the versions it has read |
| `OlcProof.InvRun` | ds/BTreeOLC/BTreeOLC.h:343-524 | The invariant holds in every state of every run |
| `OlcProof.FoundIsHeld` | ds/BTreeOLC/BTreeOLC.h:507-523 | If the leaf's version has not changed, what was read is what the map holds for the key at that instant |
| `OlcAnswers.AbsentKeyReported` | ds/BTreeOLC/BTreeOLC.h:470-524 | There is a run in which the lookup of a key in the empty tree returns success, with what the variable of the caller held |
| `OlcAnswers.EitherFlag` | ds/BTreeOLC/BTreeOLC.h:507-523 | For every run and every lookup in it whose key is not in the map, the same run with the other flag is a run |
| `OlcAnswers.AnswerDetermined` | ds/BTreeOLC/BTreeOLC.h:507-523 | What a lookup answers is determined by all else that happened if and only if its key is in the map when it takes effect, and then it is success and the value of the map |
| `OlcProof.ParentStands` | ds/BTreeOLC/BTreeOLC.h:399-411 | If the parent's version has not changed, the child still answers for the key |
| `OlcProof.NeverStuck` | ds/BTreeOLC/BTreeOLC.h:32-107 | In every state of every run every thread has a next step |
| `OlcAlone.FindFull` | ds/BTreeOLC/BTreeOLC.h:361-420 | The descent stops at the first full page on the way, below a parent with room, or at the leaf |
| `OlcAlone.SplitFull` | ds/BTreeOLC/BTreeOLC.h:382-396 | The split keeps tree and map and adds a page to those on the way that will not need splitting again |
| `OlcAlone.InsertAlone` | ds/BTreeOLC/BTreeOLC.h:343-468 | The insert as a sequential program: it ends, with the map updated, after restarting at most once for each level of the tree |
| `OlcSolo.LoneInsert` | ds/BTreeOLC/BTreeOLC.h:343-468 | In every run of the machine, from every moment at which no page is locked, an insert during which only its own thread steps restarts at most once for each level the tree has at the call |
| `OlcSteps.LoneInsertEnds` | ds/BTreeOLC/BTreeOLC.h:343-468 | Such an insert is over after a number of steps that the height of the tree at the call tells |
| `OlcSteps.LoneLookup` | ds/BTreeOLC/BTreeOLC.h:470-524 | A lookup during which only its own thread steps never goes back to the root, and is over after five steps for each level and a few |
| `StxTree.VerifyKeys` | ds/stx_btree/btree.h:3632-3773 | A separator is the last key of the child before it, at most every key after it, and separators ascend: what the consistency check tests |
| `StxTree.VerifyLeafLinks` | ds/stx_btree/btree.h:3737-3773 | In every good tree, following the links from the head leaf visits exactly the leaves in order; neighbours refer to each other, head and tail are the ends; each leaf has items, in order and not above those of the next; items and leaves are as many as are counted |
| `StxLinks.WalkAll` | ds/stx_btree/btree.h:3737-3773 | Following the next links from the head of a linked list gives all its leaves in turn and then ends |
| `StxLinks.FirstLeafLinked` | ds/stx_btree/btree.h:2151-2153 | The first leaf of a tree is a list of one |
| `StxLinks.SplitLeafLinked` | ds/stx_btree/btree.h:2326-2356 | A split puts the new leaf right after the old one, and all other links stay, at the tail too |
| `StxLinks.MergeLeavesLinked` | ds/stx_btree/btree.h:3264-3289 | A merge takes exactly the right one of two leaves out of the list, at the tail too |
| `StxLinks.AppendLeafLinked` | ds/stx_btree/btree.h:2428-2436 | Bulk loading appends each leaf at the tail |
| `StxLinks.LastLeafGoesLinked` | ds/stx_btree/btree.h:2735-2752 | When the last leaf goes the list is empty, head and tail included |
| `StxTree.SlotDivides` | ds/stx_btree/btree.h:1637-1677 | The slot searched for divides the items: all before it are smaller, none after it is |
| `StxTree.KeyInChild` | ds/stx_btree/btree.h:1637-1677 | A key is below a node if and only if it is below the child chosen for it |
| `StxTree.CutOk` | ds/stx_btree/btree.h:2364-2394 | Cutting a node that is one too wide gives two good nodes and the separator between them |
| `StxInsert.LeafEffect` | ds/stx_btree/btree.h:2278-2321 | At a leaf the item is put in its place, or refused if its key is there and keys are unique |
| `StxInsert.LeafSplitOk` | ds/stx_btree/btree.h:2326-2356 | A full leaf becomes two that are full enough, with the separator between them |
| `StxInsert.LeafRelinks` | ds/stx_btree/btree.h:2326-2356 | Wherever the leaf stands in the list, it is followed by the new one if it was split, and else the list is as it was |
| `StxInsert.AddChildCuts` | ds/stx_btree/btree.h:2210-2274 | All cases of adding a child to a full inner node, the special one included, are one cut of the widened node near its middle |
| `StxInsert.AddChildOk` | ds/stx_btree/btree.h:2210-2274 | The result is one good node or two, with all items in order |
| `StxInsert.AddChildCensus` | ds/stx_btree/btree.h:2210-2274 | The leaves below are those there were and the new one in its place, and one more inner node is counted if and only if the node was split |
| `StxInsert.InsertDescendOk` | ds/stx_btree/btree.h:2191-2321 | Insertion below any node gives good nodes whose items are those there were and the new one in its place |
| `StxInsert.InsertRelinks` | ds/stx_btree/btree.h:2191-2321 | Insertion below any node keeps its leaves in the list between the same others, the new one in its place, and counts the inner nodes there are |
| `StxInsert.InsertStartOk` | ds/stx_btree/btree.h:2146-2182 | On every tree that passes `verify`, links and counts included, insertion gives such a tree; it is refused, with nothing changed, if and only if keys are unique and the key is there; else the contents gain the item at the first place for its key |
| `StxErase.MergedOk` | ds/stx_btree/btree.h:3264-3334 | Merging two neighbours gives one good node with the items of both |
| `StxErase.ShiftedLeftOk` | ds/stx_btree/btree.h:3339-3440 | Shifting left from a neighbour with enough leaves both full enough, items in order and a right separator |
| `StxErase.ShiftedRightOk` | ds/stx_btree/btree.h:3445-3549 | Shifting right likewise |
| `StxErase.RebalanceOk` | ds/stx_btree/btree.h:2730-2947 | Every case of a child that has too little, with left, right, both or no neighbours under this parent, is mended without changing the items |
| `StxErase.ShiftRelinks` | ds/stx_btree/btree.h:3339-3549 | A shift leaves the list of leaves and the counts as they are, whatever moves between the two nodes |
| `StxErase.MergeRelinks` | ds/stx_btree/btree.h:3264-3334 | A merge below any node takes the right leaf out of the list, or one inner node from the count |
| `StxErase.RebalanceRelinks` | ds/stx_btree/btree.h:2730-2947 | In every case of mending a child the list runs through the leaves that are left, in order |
| `StxErase.EraseDescend` | ds/stx_btree/btree.h:2675-2947 | Below any node, the first item with the key is gone, or nothing if there is none; and separators above follow the last key |
| `StxErase.EraseOneOk` | ds/stx_btree/btree.h:2598-2617 | On every tree that passes `verify`, links and counts included and with duplicates, deletion gives such a tree; it succeeds if and only if the key is there, and takes exactly the first item with it; else nothing is changed |
| `StxErase.EraseRelinks` | ds/stx_btree/btree.h:2675-2947 | Below any node, the leaves that are left stay in the list between the same others, and the inner nodes are counted |
| `StxErase.RootLinked` | ds/stx_btree/btree.h:2735-2900 | When the root is empty, taking it away, or putting its only child in its place, keeps list and count right |
| `StxErase.InsertThenErase` | ds/stx_btree/btree.h:2146-2617 | Erasing a key just inserted brings the contents back, also when the key was there before |
| `StxBulk.PartsNeeded` | ds/stx_btree/btree.h:2410-2411 | The number of leaves is the least that has room |
| `StxBulk.HalfAtLeast` | ds/stx_btree/btree.h:2416-2423 | Shared out evenly, each gets at least half |
| `StxBulk.FitsIf` | ds/stx_btree/btree.h:2416-2439 | Dividing what is left by the parts that are left keeps every share within bounds to the end |
| `StxBulk.BuildLeaves` | ds/stx_btree/btree.h:2410-2439 | The leaves hold the items in order and, if more than one, are full enough; the list runs through them in order |
| `StxBulk.NextLinked` | ds/stx_btree/btree.h:2428-2436 | With each further leaf the list runs through all leaves so far |
| `StxBulk.FirstLevel` | ds/stx_btree/btree.h:2449-2485 | The nodes above group the leaves in order, full enough, with right separators |
| `StxBulk.NextLevel` | ds/stx_btree/btree.h:2488-2523 | So does each further level, in place in one array |
| `StxBulk.GroupInPlace` | ds/stx_btree/btree.h:2496-2521 | Writing the parents over the front of the array never overwrites children not yet taken |
| `StxBulk.BuildInner` | ds/stx_btree/btree.h:2449-2528 | The levels end in one good root over all items, with the list as it was and every inner node counted |
| `StxBulk.BulkLoad` | ds/stx_btree/btree.h:2403-2530 | Bulk loading sorted items into an empty tree gives a tree that passes `verify`, links and counts included, with exactly those contents |
| `ClevelMachine.FirstIndex` | ds/ClevelHash/clevel_hash.hpp:118-124 | The first bucket lies in the lower half of a level |
| `ClevelMachine.SecondIndex` | ds/ClevelHash/clevel_hash.hpp:126-134 | The second lies in the upper half, so the two differ |
| `ClevelChain.ChainAlways` | ds/ClevelHash/clevel_hash.hpp:1400-1706 | In every run, from the last level of every metadata ever published the links lead up to its first level, each level with twice the capacity of the one before, and the two are never the same |
| `ClevelChain.UpOnce` | ds/ClevelHash/clevel_hash.hpp:1400-1564 | Levels and metadata are only added, a link up is set once and keeps its target |
| `ClevelChain.NextUp` | ds/ClevelHash/clevel_hash.hpp:1509-1532 | The level an expansion publishes is the one linked above the first |
| `ClevelChain.RetireOk` | ds/ClevelHash/clevel_hash.hpp:1654-1703 | Retiring the last level moves `last` up by one level and nothing else |
| `ClevelChain.InvRun` | ds/ClevelHash/clevel_hash.hpp:1400-1706 | The invariant of levels and metadata holds in every state of every run |
| `ClevelSearch.SearchNeverMisses` | ds/ClevelHash/clevel_hash.hpp:643-730 | In every run, a key present at the start stays present, and no search for it ever ends with not found, however many expansions, movements and retirements go on meanwhile; and every search that has ended with its key found, whichever key that is, took its last step when the key lay in one of its two buckets |
| `ClevelSearch.ArrivedNeverMissed` | ds/ClevelHash/clevel_hash.hpp:643-730 | The same of a key that arrives at any time of any run, in a slot that the moving thread has still to come to: it stays present, every search begun after that finds it, and what is found was there |
| `ClevelSearch.FoundIsThere` | ds/ClevelHash/clevel_hash.hpp:678-697 | A search that ends with its key found saw it, at the step that ended it, in a slot of one of the two buckets of the key |
| `ClevelSearch.NeverFoundAbsent` | ds/ClevelHash/clevel_hash.hpp:643-730 | A key that is in no slot while a search for it is under way is not found by it |
| `ClevelLone.LoneSearch` | ds/ClevelHash/clevel_hash.hpp:643-730 | A search during which nobody else moves is over after nine steps for each level and a few, with its key found if and only if the key is in the table |
| `ClevelRehash.LoneRetire` | ds/ClevelHash/clevel_hash.hpp:1565-1706 | In every run, from every moment at which no level is above the first and more than two are in force, the moving thread alone retires the last level after a number of steps that the size of the level tells, whatever the hash functions are and however often the table has to grow for it |
| `ClevelRehash.HelpKeepsFirst` | ds/ClevelHash/clevel_hash.hpp:1492-1555 | When a level has been appended but not published, the moving thread alone never brings it into force: helping publishes the old first level again |
| `ClevelRehash.RehasherNotStuck` | ds/ClevelHash/clevel_hash.hpp:1565-1706 | In every state of every run the moving thread can take a step |
| `ClevelSearch.AheadAfterClear` | ds/ClevelHash/clevel_hash.hpp:1618-1645 | When the moved slot is cleared, the copy lies where every search under way has still to look |
| `ClevelSearch.CasKnows` | ds/ClevelHash/clevel_hash.hpp:1618-1645 | The copy that precedes the clearing is made in a bucket of the key in the first level |
| `ClevelSearch.RetireKnows` | ds/ClevelHash/clevel_hash.hpp:1654-1703 | A level is retired only when it no longer has the only copy |
| `ClevelSearch.KnowsRun` | ds/ClevelHash/clevel_hash.hpp:643-1706 | What searches and the moving thread know about the key holds in every state of every run |
| `LevelHash.FindEmpty` | ds/Level-Hashing/level_hashing.cc:400-441 | An empty slot of one of the two buckets, the first by turns; none if and only if both are full |
| `LevelHash.LessLoaded` | ds/Level-Hashing/level_hashing.cc:168-201 | The slot the turns come to is in the less loaded of the two buckets, the first of them if they are even |
| `LevelHash.BalanceFails` | ds/Level-Hashing/level_hashing.cc:203-206 | A key that finds both its buckets full decides that the growth fails, whatever comes after |
| `LevelHash.Grow` | ds/Level-Hashing/level_hashing.cc:134-229 | Growth fails if and only if placing the bottom's keys in order, each in the less loaded bucket, overflows; otherwise every item is kept once, the old top is the bottom and the new top is twice as large |
| `LevelHash.MoveKeeps` | ds/Level-Hashing/level_hashing.cc:491-606 | A move to another bucket of the item keeps what is stored and where it may lie |
| `LevelHash.LevelTable.constructor` | ds/Level-Hashing/level_hashing.cc:67-106 | A new table is empty |
| `LevelHash.LevelTable.Find` | ds/Level-Hashing/level_hashing.cc:237-281 | The first place with the key, in the order of levels, buckets and slots; none if and only if the key is stored nowhere |
| `LevelHash.LevelTable.Query` | ds/Level-Hashing/level_hashing.cc:237-281 | The value of the first item with the key, or none if and only if the key is not there |
| `LevelHash.LevelTable.Delete` | ds/Level-Hashing/level_hashing.cc:288-331 | Exactly the first item with the key is gone, or nothing if there is none |
| `LevelHash.LevelTable.Update` | ds/Level-Hashing/level_hashing.cc:338-380 | Exactly the first item with the key has the new value, or nothing has changed if there is none |
| `LevelHash.UpdatedFirst` | ds/Level-Hashing/level_hashing.cc:237-380 | An update is what the next query gives: the updated item is still the first with its key |
| `LevelHash.LevelTable.TryMovement` | ds/Level-Hashing/level_hashing.cc:491-543 | Displacing one item to its other bucket makes room if and only if some item of the bucket has an empty slot there; nothing else changes |
| `LevelHash.LevelTable.MoveUp` | ds/Level-Hashing/level_hashing.cc:551-606 | A slot of the bottom bucket is freed by a move to the top if and only if one of its items has room there |
| `LevelHash.LevelTable.Insert` | ds/Level-Hashing/level_hashing.cc:387-483 | The item is added once and nothing else changes; it is refused, with the table as it was, if and only if no bucket has room and no single move could make any |
| `LevelHash.LevelTable.InsertByMoving` | ds/Level-Hashing/level_hashing.cc:443-456 | The part that displaces within a level, with the same exact condition |
| `LevelHash.LevelTable.InsertBelow` | ds/Level-Hashing/level_hashing.cc:458-482 | The part that makes room in a bottom bucket, with the same exact condition |
| `LevelHash.LevelTable.Resize` | ds/Level-Hashing/level_hashing.cc:134-229 | The table grows and keeps all items if and only if the items of the bottom fit, and is as it was otherwise |
| `LockFreeList.Linearizable` | ds/linkedlist/lockfree_linkedlist_sorted.h:16-88 | In every state of every run in which each search has come to a left node, the operations that took effect, replayed on a map, give what the lookups returned; each call took effect once, as what its caller asked for in the step that made the call; and the nodes reached from the head by `next` ascend to the tail and hold exactly the map |
| `LockFreeList.NoneLostIff` | ds/linkedlist/lockfree_linkedlist_sorted.h:16-49 | Each search so far has come to a left node if and only if all keys inserted so far are above the key of the head |
| `LockFreeList.LeftNode` | ds/linkedlist/lockfree_linkedlist_sorted.h:22-32 | An insert gets a left node if and only if its key is above the key of the head |
| `LockFreeList.HeadKeyInserted` | ds/linkedlist/lockfree_linkedlist.h:32-38 | There is a run in which inserting the key of the head leaves no path from head to tail |
| `LockFreeList.RealTime` | ds/linkedlist/lockfree_linkedlist_sorted.h:16-88 | A call that returned before another was made took effect before it |
| `LockFreeList.EffectOfCall` | ds/linkedlist/lockfree_linkedlist_sorted.h:16-88 | Whenever a thread is at the call with the number of an effect it is at the operation of that effect |
| `LockFreeLone.LoneCallEnds` | ds/linkedlist/lockfree_linkedlist_sorted.h:16-88 | A call during which nobody else moves is over after as many steps as the list has nodes, and three |
| `LockFreeLone.NeverStuck` | ds/linkedlist/lockfree_linkedlist_sorted.h:16-88 | Unless a search is lost, every thread can take a step |
| `LockFreeList.WholeList` | ds/linkedlist/lockfree_linkedlist_sorted.h:53-67 | Following `next` from the head visits exactly the linked nodes, in ascending order of keys, and ends at the tail |
| `LockFreeList.PathFrom` | ds/linkedlist/lockfree_linkedlist_sorted.h:22-32 | From any linked node the way leads through exactly the linked nodes with larger keys |
| `LockFreeList.StopsWhere` | ds/linkedlist/lockfree_linkedlist_sorted.h:53-67 | Where a search stops is decided by the map alone: the key is there if and only if the map has it |
| `LockFreeList.SwapList` | ds/linkedlist/lockfree_linkedlist_sorted.h:69-88 | A swap that succeeds adds the absent key, and keeps list and map in step |
| `LockFreeList.InvRun` | ds/linkedlist/lockfree_linkedlist_sorted.h:16-88 | The invariant of list and threads holds in every state of every run |

## Left out

Where the code does not do what its names or comments suggest, the model follows the code: the search of an empty
`BTreeOLC` leaf still probes slot 0; `lookup` of `BTreeOLC` leaves its success flag unset for an absent key, so the
flag may be anything; an insertion into the lock-free list leaves the value of a key that is there, and one with a key
that is not above that of the head uses a left node that was never set, so it may do anything to the list.

- Memory order: accesses to shared memory are sequentially consistent; cache flushes, fences and non-temporal stores have no effect on the model, and neither has the choice between them that the build options make.
- TL2: the eager form, hardware transactions, the GV5 and GV6 clocks, hashed logs, back-off, signal handlers, and the transactional allocator with `txSterilize` are not modelled. The clock is a natural number and does not wrap. The revalidation of a read-set that is out of room is one step. A read that finds the stripe locked at its first look aborts at once; the code goes on to read, and aborts at the second look.
- BakeryLock.MutualExclusion: tickets are natural numbers, so the wrap-around of the 32-bit ticket counter is not captured; each machine's own ticket is read in one step with the scan of the others.
- Epoche.FreedSafely: the set of threads is fixed and guards are not nested; epochs are natural numbers and do not wrap.
- RecordSort.SortRange: the records are values in a sequence that is reassigned; the swap of records byte by byte, and the wrap-around of a range of more than 32 bits of bytes, are not captured.
- Bayes: the learner, its scores in floating point, and the transactions around it are not modelled. Random numbers are a given function. Bitmaps, queues and vectors are sets and sequences.
- Net.Net.GenerateRandomEdges: percentages and numbers of parents are not negative.
- OLC: `scan`, and types of keys and values other than 8 bytes, are not modelled. Splitting a page and entering the new one in its parent, done under both locks, is one step. A read of a page that has changed since its version was taken gives anything, as its result is thrown away.
- STX: the nodes are values. Update in place of a node, iterators, upper bounds, erasure by iterator and the binary dump are not captured. What the code does on the way back to a child that has too little is done here by its parent.
- Clevel: inserts, updates and erasures of a key while it is being moved are not modelled; writes to slots by other keys' operations are arbitrary. Tags are part of the comparison of keys. A level has at least two buckets. Replicated roots are not modelled.
- ClevelRehash.LoneRetire: with an appended level that is not published, `expand` only publishes the old first level again, so nothing is promised there; HelpKeepsFirst says what then happens.
- LevelHash: slot locks and use by several threads are not modelled; the level size is a number of buckets, at least two in the bottom, and the resize counter does not wrap. Where the code ends the program because a resize failed, the model refuses with the table as it was.
- LockFreeList: marked references never occur, as the removal in this repository is empty, so their branches are left out. That `find` also sets the variable of the caller when it returns false is not captured.
- Not modelled at all: Masstree, the radix tree proper, the message queue, the memory pool and NUMA mapping, the other STAMP applications, and the benchmarks.
