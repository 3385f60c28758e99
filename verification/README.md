# A verified model of tobdd

tobdd is a thread-safe library of reduced ordered binary decision diagrams. A `Manager` keeps all
nodes in a lock-free unique table, remembers results in lossy caches, counts references, and collects
or grows the table when it fills up. This project models that stack in Dafny and proves what it is
meant to guarantee, from the single atomic step up to a client that solves the n-queens problem.

`dafny verify dfyconfig.toml` checks everything.

## How the pieces fit

| file | what it is about |
|---|---|
| Nodes, Powers, Counting, Options | addresses, keys and node records; powers of two; sizes of finite sets; optional results |
| Chains | the table's sorted chains, cell by cell, and what linking and bypassing do to them |
| SetProtocol | `get_or_insert` as a step machine for any number of threads: linearizability, bounded retries |
| SetProgress | how many steps a call takes, in any run and alone |
| UniqueTable | the table as an object: the retry loop, marking, sweeping, growing in place |
| Diagrams, Operations | what diagrams denote, canonicity, reachability; the steps of the recursions |
| EntryProtocol, OperationCache | one cache entry under its lock as a step machine; the direct-mapped cache |
| RwLock | the manager's bit-packed lock as a step machine |
| BddManager | `init`, `make_node`, the memoized recursions, references, collection, `enter_op`, the public operations |
| Session | a client's whole session refines a machine without nodes, tables or collections |
| WholeRuns | operations, derefs and collectors of many threads, step by step, under the lock |
| Collections | what a collection frees while other threads act, and that it ends |
| Rely | what the objects assume of other threads, derived from the step machines |
| Paths | the branches taken from a node downwards |
| Streams, Printing | `serialize` and `deserialize`; `print` |
| NQueens | the n-queens client against the manager's contracts |
| NodeStore | the segmented allocator |

Concurrency appears in two forms. The step machines (SetProtocol, EntryProtocol, RwLock, WholeRuns)
interleave atomic accesses of any number of threads. The objects (UniqueTable, OperationCache,
BddManager) run one thread's code against whatever the others may do in between: `Interfere`, `Others`
and `Meanwhile` are stubs of which only the contract counts, and Rely proves these contracts of the
step machines. `Rely.InterfereIsJustified`: every run of other threads' steps in SetProtocol does what
`LockFreeSet.Interfere` promises, step by step (`Rely.OtherStepEvolves`), dropped references
included, as long as others drop their own. `Rely.AnswerIsFindOrMake`: a
call's settling step is one step of WholeRuns. `Rely.OthersIsJustified` and `Rely.MeanwhileIsJustified`:
every run of other threads' steps in WholeRuns does what `Others` promises under a read guard and
`Meanwhile` outside one. That other threads leave whole pairs in a cache entry, which
`LockFreeCache.Interfere` relies on, is `EntryProtocol.AnswersAreWritten`; that the pairs are right
answers is part of `WholeRuns.GuardedTableOnlyGrows`. How many steps others still take is the ghost
field `rivals`; 0 is a program with one thread. The references this thread and the manager answer for
are the ghost multiset `pinned`; `Exact` says that they are all there are.

Which guard of the manager's lock this thread holds is the ghost field `guard`. `TryWrite` sets it to
the write guard exactly when it answers true; marking, sweeping, growing and clearing the caches
require the write guard, the recursions and `make_node` a read guard, which `EnterOp` leaves held and
the public operations drop. That guards exclude each other is `RwLock.GuardsExclude`.

Node addresses are naturals with 0 as null, memory is a map from addresses to records, and freed
addresses may be handed out again. Hash functions are arbitrary.

## Findings

* `deserialize` does not give back the references it takes. It takes one for every record and drops
  one for every distinct node, so one is left behind for each repeated record:
  `Streams.SharingLeaks` is a diagram in which that happens, and by `Streams.Deserialize` and
  `Streams.SurplusIsRepeats` nothing is left behind if and only if no id occurs twice in the stream.
  It also drops a reference on each terminal that nobody has taken; for a thread alone,
  `Streams.Deserialize` states that both counts are one less. Terminals are therefore exempt from
  the counting invariant, in BddManager and in WholeRuns: with at least one variable they are
  children of referenced nodes and survive whatever their count is.
* A terminal cannot be read back: its stream has no record, so `deserialize` takes its last reference
  through the null pointer it started with. `Streams.Deserialize` is `None` if and only if the stream
  has no record, which is if and only if a terminal was written.
* The allocator's documentation promises `u32::MAX` nodes (src/.store.rs:29-31); growth stops at 15, so
  `NodeStore.Store.Alloc` fails if and only if 2^31 indices are in use (`NodeStore.FullCapacity`), a
  state that `NodeStore.RunOut` reaches. `locate` covers all 2^32.

## Model

| member | source | states |
|---|---|---|
| `SetProtocol.Linearizable` | src/set.rs:257-324 | In every interleaving of any number of calls, from any well-formed table with no call in progress, the table stays well formed and the answers, in the order in which the calls settle, are those of an atomic get-or-insert on the set of keyed nodes; replaying them gives the final table. |
| `SetProtocol.StepIsAtomic` | src/set.rs:266-322 | Every atomic step keeps the invariant, and either leaves the set of published nodes and the answers alone or is the one atomic operation of the call that makes it, on that call's key; an insertion hands back the very node offered. |
| `SetProtocol.StepKeepsInv` | src/set.rs:253-256 | What the comments promise: chains sorted, unique keys, nothing removed, published keys unchanged, the offered node private until published, and `num_entry` behind the node count by exactly the calls that have published and not yet counted. |
| `SetProtocol.ReplayKeeps` | src/set.rs:253-256 | No published node is ever lost or given another key, and every pointer handed out is published under the key asked for. |
| `SetProtocol.ReplayInserts` | src/set.rs:277-322 | A node that was not there at first was inserted by exactly one answer. |
| `SetProtocol.EqualKeysAgree` | src/set.rs:277-322 | All answers for one key are one pointer; at most one of them reports an insertion, and one does if and only if the key was not in the table at the start. |
| `SetProtocol.ConcurrentCallsAgree` | src/set.rs:257-324 | The same for the calls of any run of the step machine: equal keys get one pointer, at most one call reports an insertion, and one does if and only if the key was absent at the start. |
| `SetProtocol.CallAnswersOnce` | src/set.rs:257-324 | Real time: from its begin until it settles a call gives no answer, and by the time it returns it has given exactly one, for its own key. |
| `SetProtocol.RealTimeOrder` | src/set.rs:257-324 | Of two calls of which one settles before the other begins, each is answered exactly once, for its own key, and the first before the second. |
| `SetProtocol.RetriesAreBounded` | src/set.rs:303-322 | Each failed CAS of a running call answers for a different insertion by another thread into the same bucket since the call began. |
| `SetProgress.StepsAreBounded` | src/set.rs:266-322 | Lock-free progress in any run: a call that has not settled has taken fewer own steps than (failed CASes + 1) * (length of the chain it scans + 4), and its failed CASes are no more than other threads' insertions into its bucket since it began. |
| `SetProgress.SoloSettles` | src/set.rs:266-322 | From any reachable state, a call that is left alone settles within 2 * (nodes in its bucket) + 8 of its own steps, with one answer, for its own key. |
| `Chains.ChainIsSortedBucket` | src/set.rs:435-458 | Following a bucket head ends, visits exactly the nodes that hash to the bucket, and in strictly ascending key order, hence without repetition: what `sanity_check` asserts. |
| `Chains.LinkKeepsWellFormed` | src/set.rs:297-322 | Linking a node into the gap for its key keeps every chain sorted, in its bucket and complete. |
| `Chains.UnlinkKeepsWellFormed` | src/set.rs:399-406 | Bypassing a node keeps every other node in its chain, sorted. |
| `Chains.GapMeansAbsent` | src/set.rs:271-297 | Where the scan stops between a smaller and a larger key, no published node anywhere has the key. |
| `Chains.OneCellEach` | src/set.rs:266-295 | No two bucket heads or `next` fields hold the same node. |
| `UniqueTable.LockFreeSet.WithCapacity` | src/set.rs:123-137 | A power of two of empty buckets, more than the capacity asked for and at most twice as many. |
| `UniqueTable.LockFreeSet.GetOrInsert` | src/set.rs:257-324 | With any other threads publishing in between: returns a published node with the offered key, the offered node itself exactly when it was inserted; the table has only grown, references are kept, and if nobody interfered it has changed by exactly what the answer says. The retry loop ends. |
| `UniqueTable.LockFreeSet.Walk` | src/set.rs:266-295 | The scan stops at the key, or at the place for it, although other threads insert meanwhile. |
| `UniqueTable.LockFreeSet.CompareExchange` | src/set.rs:303-322 | A success publishes at the right place; a failure means another thread has acted since the cell was read. |
| `UniqueTable.LockFreeSet.MarkRec` | src/set.rs:149-168 | Marks exactly what the root reaches, counts each node once, terminates, and changes nothing but marks; stopping at a marked node is sound. |
| `UniqueTable.LockFreeSet.MarkNodes` | src/set.rs:370-388 | Marks exactly the set reachable from the nodes with non-zero count; the number returned and stored is its size. |
| `UniqueTable.MarkingGoesDown` | src/set.rs:151-167 | What is marked at a child while its ancestors are in progress already has everything below it marked, because the graph is acyclic by level. |
| `UniqueTable.LockFreeSet.GcUnmarked` | src/set.rs:391-416 | Relinking in place: exactly the marked nodes are left, exactly the others are freed, survivors keep every field but `next`, and `num_entry` is the number marked. |
| `UniqueTable.LockFreeSet.UnmarkNodes` | src/set.rs:418-433 | Clears every mark and changes nothing else. |
| `UniqueTable.LockFreeSet.Grow` | src/set.rs:327-366 | Twice as many buckets, the same nodes under the same keys, every chain sorted and complete for the new hash index, only `next` fields changed. |
| `UniqueTable.MovesOne` | src/set.rs:336-358 | Halfway through growing, the unmoved nodes still form sorted chains off the old heads and the moved ones off the new heads; moving one node keeps both. |
| `UniqueTable.PublishedIsReady` | src/set.rs:303-315 | Publishing a node at its gap adds exactly its key to what the table means, and that key was not there. |
| `Diagrams.Canonical` | src/tobdd.rs:420-446 | In a reduced, ordered diagram with unique keys two nodes denote the same Boolean function if and only if they are the same pointer. |
| `Diagrams.TellApart` | src/tobdd.rs:420-446 | For any two different nodes, an assignment on which they differ. |
| `Diagrams.TerminalsDecide` | src/lib.rs:34-39 | Comparing with a terminal decides validity and unsatisfiability. |
| `Diagrams.AddingKeepsOk` | src/tobdd.rs:420-446 | Adding a node with an ordered, reduced, new key keeps the diagram valid. |
| `Diagrams.GrowthKeepsMeaning` | src/set.rs:253-255 | Published nodes keep their meaning however the table grows. |
| `Diagrams.RestrictKeepsMeaning` | src/tobdd.rs:184-186 | Cutting a diagram down to a set closed under children leaves a valid diagram in which every kept node denotes what it did. |
| `Operations.Shannon` | src/tobdd.rs:488-504 | The node made from the answers for both cofactors is the answer, for each of the four operations. |
| `Operations.StepAnswer` | src/tobdd.rs:488-504 | The same when the table grows between the two recursive calls and `make_node`. |
| `Operations.AnswersSurvive` | src/tobdd.rs:456-459 | Right cached answers stay right when the table grows. |
| `OperationCache.LockFreeCache.WithCapacity` | src/cache.rs:30-41 | All entries empty; more than the capacity asked for, and at most twice as many. |
| `OperationCache.LockFreeCache.Get` | src/cache.rs:46-61 | The value in the key's slot if the slot holds exactly this key, else the default; a value other than the default is one stored with this key. |
| `OperationCache.LockFreeCache.Insert` | src/cache.rs:63-71 | Overwrites the slot unless it is contended, and touches no other. |
| `OperationCache.LockFreeCache.InvalidateAll` | src/cache.rs:73-82 | With nobody in, every entry is cleared. |
| `OperationCache.LockFreeCache.Grow` | src/cache.rs:84-96 | Twice the entries, all empty. |
| `EntryProtocol.AnswersAreWritten` | src/cache.rs:46-71 | In every interleaving of lookups, insertions and clearings of one entry, a lookup answers exactly what the entry holds: the value last written if it was written with the key asked for, else the default; so any other value was written together with that key by one completed insertion since the last clearing, never a torn pair. |
| `EntryProtocol.StepKeepsInv` | src/spin/rw_r_pre.rs:28-92 | The state word counts the readers or is -1 for a single writer, and without a writer the pair is the one last written; every atomic step keeps this. |
| `EntryProtocol.ReaderSeesCurrent` | src/spin/rw_r_pre.rs:28-50 | While a reader is in, the entry holds the last written pair, whole. |
| `EntryProtocol.WriterIsAlone` | src/spin/rw_r_pre.rs:54-78 | A writer excludes readers and other writers. |
| `EntryProtocol.ClearingAloneSucceeds` | src/cache.rs:73-82 | Clearing an entry nobody else uses always goes through, and forgets everything. |
| `EntryProtocol.LookupAnswers` | src/spin/rw_r_pre.rs:28-50 | However many readers are in, while no writer is: a lookup that runs undisturbed gets in and is answered, with the stored value if and only if the stored key is the one asked for. |
| `EntryProtocol.InsertionDecides` | src/cache.rs:63-71 | An insertion that runs undisturbed is given up, changing nothing, if and only if somebody is in; otherwise the entry holds its pair afterwards. |
| `RwLock.RunKeepsInv` | src/spin/rw_w_pre.rs:49-160 | In every run the state word is 4*readers + 2*pending + locked, at most one writer is pending or in, and a writer that is in has no readers beside it. |
| `RwLock.StepKeepsInv` | src/spin/rw_w_pre.rs:49-160 | Every load, strong or spuriously failing CAS, and guard drop keeps that. |
| `RwLock.WriterDrainsReaders` | src/spin/rw_w_pre.rs:79-120 | From the step in which a writer becomes pending until the one in which it leaves, in any run, no reader enters: the set of readers only shrinks. |
| `RwLock.DrainedWriterGetsIn` | src/spin/rw_w_pre.rs:100-120 | Once the readers are gone, nobody can keep a pending writer out: in every run in which it stays out, all its steps but at most one are matched by spurious failures of its own compare-and-swap. |
| `RwLock.PendingWriterCanGetIn` | src/spin/rw_w_pre.rs:78-120 | From every reachable state with a pending writer, each reader dropping its guard and at most two steps of the writer let it in. |
| `RwLock.ReaderGetsIn` | src/spin/rw_w_pre.rs:49-74 | In any run without a pending writer, all steps but three that a reader takes and is still out are matched by its own spurious failures and, two each, by other threads entering or leaving: readers do not shut each other out. |
| `RwLock.ReaderCanGetIn` | src/spin/rw_w_pre.rs:49-74 | From any such state a reader gets in with at most three undisturbed steps, however many readers are in already. |
| `RwLock.OnlyWritersRefuse` | src/spin/rw_w_pre.rs:78-95 | In any run without another writer, `try_write` is not refused, whatever readers do: it goes on until it is pending. |
| `RwLock.TryWriteDecides` | src/spin/rw_w_pre.rs:78-95 | Two undisturbed steps of `try_write` end in a refusal that changes nothing if and only if a writer is pending or in; otherwise the thread is pending. |
| `RwLock.GuardsExclude` | src/spin/rw_w_pre.rs:111-160 | A write guard excludes every other guard and pending writer. |
| `RwLock.TryWriteAloneSucceeds` | src/spin/rw_w_pre.rs:78-120 | A thread alone gets the write guard, and dropping it leaves the lock as it was. |
| `BddManager.Manager.Init` | src/tobdd.rs:107-147 | A valid manager, one reference each on terminals, variables and negations, all counts exact; more buckets than the table size and more entries in each cache than the cache size, and at most twice as many. |
| `BddManager.Manager.GetVar` | src/tobdd.rs:149-151 | The node denotes the variable and is held by the manager. |
| `BddManager.Manager.GetNvar` | src/tobdd.rs:153-155 | The node denotes the negated variable and is held by the manager. |
| `BddManager.Manager.GetTrue` | src/tobdd.rs:157-159 | The node denotes the function that is true everywhere. |
| `BddManager.Manager.GetFalse` | src/tobdd.rs:161-163 | The node denotes the function that is false everywhere. |
| `BddManager.Manager.IsTrue` | src/lib.rs:34-36 | In every reachable manager state, the answer is whether the function is valid. |
| `BddManager.Manager.IsFalse` | src/lib.rs:37-39 | In every reachable manager state, the answer is whether the function is unsatisfiable. |
| `BddManager.Manager.RefBdd` | src/tobdd.rs:416-418 | One more reference, in the count and in the books; nothing else changes. |
| `BddManager.Manager.DerefBdd` | src/tobdd.rs:169-171 | One reference less, in the count and in the books; nothing else changes. |
| `BddManager.Manager.MakeNode` | src/tobdd.rs:420-446 | The child if both are equal, else a node with exactly this level and these children; diagram, caches, counts and the spare node stay valid, the table only grows, and the spare node is never a published one. |
| `BddManager.Manager.NotRec` | src/tobdd.rs:448-465 | Terminates and returns a node denoting the negation, its top variable not above the operand's, for any sound lossy cache content and any concurrent growth; every cached answer stays right. To a thread alone the cache then has the answer. |
| `BddManager.Manager.AndRec` | src/tobdd.rs:468-507 | The same for conjunction. |
| `BddManager.Manager.OrRec` | src/tobdd.rs:510-549 | The same for disjunction. |
| `BddManager.Manager.CompRec` | src/tobdd.rs:552-586 | The same for `lhs AND NOT rhs`. |
| `BddManager.Manager.Split` | src/tobdd.rs:488-504 | The three-way comparison of levels yields the topmost variable and both operands' cofactors for it. |
| `BddManager.Manager.Recall` | src/tobdd.rs:483-487 | A cache hit is a right answer, even when other threads fill the cache; to a thread alone it hits if and only if the answer is stored. |
| `BddManager.Manager.Remember` | src/tobdd.rs:505-505 | Storing a right answer keeps every cached answer right; to a thread alone it is stored. |
| `BddManager.Manager.Not` | src/tobdd.rs:210-220 | Returns a node denoting the negation, with one reference for the caller; everything referenced keeps its meaning, whatever `enter_op` or other threads do. Alone, the bucket number afterwards is doubled if and only if the table was full and a collection would have freed fewer nodes than a quarter of it. |
| `BddManager.Manager.And` | src/tobdd.rs:222-232 | The same for conjunction. |
| `BddManager.Manager.Or` | src/tobdd.rs:234-244 | The same for disjunction. |
| `BddManager.Manager.Comp` | src/tobdd.rs:246-256 | The same for `lhs AND NOT rhs`. |
| `BddManager.Manager.GcGuarded` | src/tobdd.rs:184-201 | Only under the write guard. A collection leaves exactly the nodes reachable from nodes with non-zero count, each with level, children, hash and count unchanged and no mark, frees exactly the rest, clears the caches, keeps every referenced node's meaning, and returns the number left, which is `num_entry`. |
| `BddManager.Manager.Gc` | src/tobdd.rs:173-205 | With other threads active: refused, it returns 0 and this thread does nothing; let in, the table it found is cut down to exactly what nodes with non-zero count reach in it, survivors as they were, and the caches are empty. Alone it is never refused, and with exact counts what is left is exactly what the references held reach. |
| `BddManager.Manager.TryCollect` | src/tobdd.rs:178-204 | The same from its `try_write` on: refused, table, counts and caches are untouched; let in, the collection is exact. The guard is dropped either way. |
| `BddManager.Manager.CleanUp` | src/tobdd.rs:600-651 | Only under the write guard. Grows, table and caches, if the nodes that a collection would free, counted against the entry number read on entering, are fewer than a quarter of the buckets, and else collects; collects when more nodes are alive than were read, the wrapped difference being huge; alone with exact counts it never wraps. Either way the books, the invariant and every referenced node's meaning are kept. |
| `BddManager.SubSelects` | src/tobdd.rs:601-601 | The wrapping subtraction makes that choice, for all entry numbers, bucket numbers and numbers of live nodes. |
| `BddManager.Manager.EnterOp` | src/tobdd.rs:591-655 | Leaves this thread's read guard held. Nothing below the load threshold. Above it, if the write guard is to be had, the table then found is grown or collected as the stale counts and the nodes alive in it select. Alone: the guard is always had, the table found is the one left, and it is enlarged if and only if it is full and the nodes that no counted node reaches are fewer than a quarter of the bucket number, else collected if full. Throughout, and whatever other threads do, referenced nodes keep their meaning. |
| `BddManager.PinnedAreReached` | src/set.rs:370-384 | Whatever is answered for survives the mark: through its own count, or, for a terminal, through a variable. |
| `BddManager.MarkSweepUnmarkCollects` | src/tobdd.rs:184-186 | The three passes in sequence leave survivors exactly as they were. |
| `Session.Run` | src/tobdd.rs:107-256 | Any run of get_var, get_nvar, not, and, or, comp, ref, deref, gc and pointer tests refines a machine that maps handles to Boolean functions, with other threads active; the references answered for are exactly the handles held. |
| `Session.Answers` | src/tobdd.rs:107-256 | From `init` with any table size, cache size and hash functions, the answers depend on the commands alone. |
| `Session.Execute` | src/tobdd.rs:107-256 | Every single command refines the abstract machine's. |
| `WholeRuns.LiveNodesAreThere` | src/tobdd.rs:210-256 | In every interleaving of operations, `ref_bdd`s, derefs, `deserialize`'s drops on terminals, and collectors: an operation under its read guard finds every node it can touch, and its children, in the table; and every cached answer is about nodes that are there, and right. |
| `WholeRuns.ReferencedNodesSurvive` | src/tobdd.rs:591-655 | In every interleaving a referenced node keeps its address, key and meaning until its reference is dropped, across any number of collections and whatever threads the reference is handed to. |
| `WholeRuns.GuardedTableOnlyGrows` | src/tobdd.rs:654-655 | For as long as an operation holds its read guard, through any run of steps, nothing is removed from the table and every cached answer is right. |
| `WholeRuns.TokenKeepsInv` | src/tobdd.rs:416-418 | `ref_bdd` at any time, by a thread that holds a reference or knows the node under its guard, mid-mark and mid-sweep included, keeps the invariant. |
| `WholeRuns.DerefKeepsInv` | src/tobdd.rs:169-171 | Dropping a reference one has, at any time but while waiting for a guard, keeps the invariant. |
| `WholeRuns.GiveKeepsInv` | src/node.rs:15-16 | Handing a reference to another thread, at any time but while waiting for a guard, keeps the invariant. |
| `WholeRuns.OthersKeepSpare` | src/tobdd.rs:412-446 | Whatever other threads do, the node this thread has allocated for its next `make_node` stays its own and outside the table. |
| `WholeRuns.MineStaysCounted` | src/tobdd.rs:169-171 | Whatever other threads do, the references that this thread and the manager answer for stay theirs, and a node's count stays at least their number. |
| `Rely.OtherStepEvolves` | src/set.rs:266-322 | One atomic step of another thread, in a call or taking or dropping a reference of its own, keeps the table ready, keys and the bucket number as they were, the counts above this thread's references, and does not touch this thread's private node: what `LockFreeSet.Interfere` promises. |
| `Rely.InterfereIsJustified` | src/set.rs:253-256 | The whole contract of `LockFreeSet.Interfere` holds of every run of other threads' calls whose keys fit the diagram and of references they take and drop among their own, the growth of the diagram and the cover of this thread's references included. |
| `Rely.AnswerIsFindOrMake` | src/tobdd.rs:420-446 | The step in which a call settles is one `Find` of WholeRuns, or one `Make` out of the thread's spare node, enabled there, with the same table afterwards, and the answer a node the operation may touch from then on. |
| `Rely.OthersIsJustified` | src/tobdd.rs:654-655 | What `Manager.Others` promises holds of every run of WholeRuns in which this thread keeps its guard and the steps are others': the diagram grows, cached answers are right, its references stay its own and counted, its spare node stays private. |
| `Rely.MeanwhileIsJustified` | src/tobdd.rs:591-655 | What `Manager.Meanwhile` promises holds of every run of other threads' steps, collections included: everything this thread answers for keeps its meaning and stays its own and counted, its spare node stays private, and whenever no collection is going on the table is a valid diagram with right cached answers. |
| `WholeRuns.StepKeepsInv` | src/tobdd.rs:173-205 | Every step of an operation, a `ref_bdd`, a deref or a collector keeps the invariant, mid-mark and mid-sweep included. |
| `WholeRuns.VisitKeepsInv` | src/set.rs:374-384 | Visiting a node marks what it reaches if its count is not zero, and otherwise nothing; while references may come down between visits, it keeps: every referenced node already visited is marked, and so is everything below a marked one. |
| `Collections.CollectionFrees` | src/tobdd.rs:173-205 | For every run from the step in which a collector gets the lock to the end of its sweep, with other threads dropping references meanwhile: every node still in the table is reached from one whose count was not zero in some state of that run, everything reached from nodes whose count never was zero is still there, and nothing is changed or added. |
| `Collections.QuietCollectionIsExact` | src/tobdd.rs:173-205 | If nobody else acts meanwhile, the table is then exactly what the nodes with non-zero count reach. |
| `Collections.CollectorFinishes` | src/set.rs:370-416 | A collector that is let in and left alone ends its sweep within two steps for each node and one, with exactly that table, and can then clear the caches and leave an idle manager. |
| `WholeRuns.OperationCanDescend` | src/tobdd.rs:488-504 | From a node it may touch, an operation can get to every node below, changing nothing. |
| `WholeRuns.OperationCanMake` | src/tobdd.rs:420-446 | From two nodes it may touch, an operation can get the node over them: the one in the table if there is one, else a new one at any free address, with nothing else added. |
| `WholeRuns.AnswersAreShared` | src/tobdd.rs:483-505 | An answer that one operation stores, another one with the same operands can find. |
| `WholeRuns.MakeKeepsInv` | src/tobdd.rs:420-446 | Adding a thread's spare node, allocated at any address not in use, freed ones included, keeps the invariant, counts and cached answers included, and only grows the table. |
| `Streams.Serialize` | src/tobdd.rs:307-330 | Two terminal identities, then one record for each path from the root to an inner node, in post-order: low before high, children before parents. |
| `Streams.RecordsInPostOrder` | src/tobdd.rs:308-322 | The records of every visit are those of the paths, a path that goes on before the one it goes on from, and of two that part the one that goes low first. |
| `Streams.PostOrderUnique` | src/tobdd.rs:308-322 | That determines the list of records. |
| `Streams.ChildrenComeFirst` | src/tobdd.rs:308-322 | Both children of every record are terminals or listed earlier, so the reader's lookups never fail. |
| `Streams.RootIsLast` | src/tobdd.rs:312-322 | The root's record comes last, and once. |
| `Streams.RecordsAreInner` | src/tobdd.rs:308-322 | The records list exactly the reachable inner nodes. |
| `Streams.ReadRecord` | src/tobdd.rs:350-353 | The node made from a record stands for the record's node: same function, same level, one reference more. |
| `Streams.OneMoreRead` | src/tobdd.rs:350-354 | A repeated record finds the node it found before, so overwriting the map entry changes nothing. |
| `Streams.Deserialize` | src/tobdd.rs:332-361 | In any manager with enough variables the result denotes what was written; it is the very node written if that is still there; the root gains one reference, and one more is left behind for every repeated record, so none if and only if no record is repeated; alone, each terminal's count is one less than before. The call fails if and only if a terminal was written. |
| `Streams.SurplusIsRepeats` | src/tobdd.rs:350-358 | The records outnumber the distinct nodes if and only if some id occurs twice in the stream. |
| `Streams.SharingLeaks` | src/tobdd.rs:350-358 | A concrete diagram with a shared node: five records, four nodes, so one reference is left behind. |
| `Streams.RoundTrip` | src/tobdd.rs:307-361 | Within one manager, writing and reading back returns the identical pointer, unless it is a terminal's. |
| `Printing.LinesAreDisjointCover` | src/tobdd.rs:366-397 | The lines are cubes of exactly one symbol per variable, no two with an assignment in common, and their union is exactly the function denoted. |
| `Printing.LinesArePaths` | src/tobdd.rs:366-397 | There is one line for each path to the true terminal and no other; a character is * if and only if the path tests no variable at that position, and otherwise the branch taken; the lines ascend, 0 before 1. |
| `Printing.PathLinesUnique` | src/tobdd.rs:366-397 | That determines the lines and their order. |
| `Printing.LinesCount` | src/tobdd.rs:373-396 | Under any prefix, an assignment is printed once if it agrees with the prefix and satisfies the node, else never. |
| `Printing.FmtRec` | src/tobdd.rs:366-397 | Filling the character array in place prints those lines and leaves the prefix as it was. |
| `Printing.Print` | src/tobdd.rs:399-407 | FALSE and TRUE for the terminals; for every other node the ascending list of the lines of its paths to the true terminal. |
| `NQueens.BuildNQueens` | benches/benches/n_queens_bdd.rs:49-82 | For every n >= 1 the root denotes exactly the placements of one queen per row with no two on a row, column, diagonal or anti-diagonal; its reference is the only one the client has left, and everything referenced before keeps its meaning. |
| `NQueens.CompleteIsQueens` | benches/benches/n_queens_bdd.rs:49-82 | Meeting the constraints of all lines is being a solution, both ways. |
| `NQueens.LineIsBuilt` | benches/benches/n_queens_bdd.rs:84-112 | The constraint built from a line's variables is the line's constraint on cells. |
| `NQueens.ShortLine` | benches/benches/n_queens_bdd.rs:67-78 | A diagonal with fewer than two cells constrains nothing, so skipping it is right. |
| `NQueens.ExactlyOne` | benches/benches/n_queens_bdd.rs:84-95 | Denotes exactly-one of the variables; the references taken on the way are all given back but the result's. |
| `NQueens.AtMostOne` | benches/benches/n_queens_bdd.rs:97-112 | Denotes at-most-one of the variables, with the same conservation. |
| `NQueens.OrVars` | benches/benches/n_queens_bdd.rs:114-124 | Denotes the disjunction of a non-empty list of variables, with the same conservation. |
| `NQueens.AndInplace` | benches/benches/n_queens_bdd.rs:126-135 | Conjoins, and uses up both operands' references. |
| `NQueens.RowVars` | benches/benches/n_queens_bdd.rs:137-143 | Lists the row's cells, each once. |
| `NQueens.ColVars` | benches/benches/n_queens_bdd.rs:145-151 | Lists the column's cells, each once. |
| `NQueens.DiagVars` | benches/benches/n_queens_bdd.rs:153-162 | Lists the diagonal's cells, each once. |
| `NQueens.AntiDiagVars` | benches/benches/n_queens_bdd.rs:164-175 | Lists the anti-diagonal's cells, each once. |
| `NQueens.VarIndexInjective` | benches/benches/n_queens_bdd.rs:177-179 | Different cells of the board have different variables. |
| `NQueens.VarsAreRowMajor` | benches/benches/n_queens_bdd.rs:177-179 | Variables are in the order of the cells, row by row and from the left. |
| `NQueens.VarsAreCells` | benches/benches/n_queens_bdd.rs:177-179 | Each of the n * n variables is a cell's. |
| `NodeStore.LocateBijective` | src/.store.rs:70-88 | `locate` is a bijection from all 32-bit indices onto the pairs (segment, offset) with offset below the segment's size. |
| `NodeStore.Store.Default` | src/.store.rs:275-300 | One segment, every index in it free. |
| `NodeStore.Store.GrowIfNeeded` | src/.store.rs:106-160 | Doubles the capacity when everything is used and growth 15 has not been reached; allocated nodes stay where they are, the new indices are free. |
| `NodeStore.Store.Alloc` | src/.store.rs:199-231 | Hands out an index that was free, writes the node, disturbs no other, and fails exactly when `MAX_CAPACITY` = 2^31 indices are used; every index below the capacity is allocated or on the acyclic free list, exactly once. |
| `NodeStore.Store.Free` | src/.store.rs:233-248 | Puts an allocated index back in front of the free list, with the same invariant. |
| `NodeStore.FullCapacity` | src/.store.rs:8-12 | After the last growth the capacity is 2^31, half of the 2^32 indices and less than `u32::MAX`. |
| `NodeStore.RunOut` | src/.store.rs:199-231 | A client that allocates until it is refused ends with a full store: 2^31 nodes in use. |
| `NodeStore.GrownList` | src/.store.rs:127-155 | The links written for a new segment form one list of exactly its indices. |

## Left out

- Weak memory orderings and raw-pointer `unsafe`: atomic steps are sequentially consistent; `compare_exchange_weak` may fail spuriously.
- The bucket and entry arrays are fields of type `seq`, and memory is one map: aliasing between allocations and the reuse of the arrays' own memory are not modelled.
- The debug assertion at src/set.rs:385 is not modelled: one operation may create any number of nodes, so it is no invariant.
- Hash mixing (src/hash.rs): only "the stored hash is the hash of the key" is kept, so nothing depends on its quality.
- Machine-word wrap of reference counts and of the reader count: counts are unbounded, and nobody enters when the reader count has no room.
- Levels and variable numbers are below 2^63, the bit the collector marks with.
- GcGuarded: other threads' derefs during a collection are modelled in WholeRuns, visit by visit, and not in the manager object, which collects in one piece.
- WholeRuns: operations are sequences of touches of nodes that keep cached answers right; which function a whole operation computes is what the manager's methods prove.
- Streams not written by `serialize`.
- Serialize: the byte encoding, readers, writers and compression; a stream is two identities and a list of records.
- Printing: writer errors. `print` and `serialize` take no lock, so their contracts are about a state that does not change meanwhile.
- One manager per thread: the thread-local spare node is part of the manager here, although the source shares it between managers used by one thread.
- `exist`, `forall` and their caches (`todo!()` in the source), the statistics features, `Debug` and `Display`, dropping whole structures, criterion and environment helpers.
- NodeStore: concurrent use. Its free-list compare-and-swap does not exclude a head that has come back with another successor, the file is not declared in src/lib.rs, and line 108 is incomplete.
- Zero capacities: `with_capacity` is called with a positive number.
