# Proofs about QEMU's block layer, jobs, image tools and exclusive sections

Four pieces of QEMU are modelled here, each of them code whose correctness rests on an
argument that no single function shows.

**Exclusive sections** (`ExclusiveSection`).  vCPU threads enter and leave guest execution
through a handshake without a lock; one thread at a time may stop all of them.  The model is a
step machine: one step for each atomic access or lock operation, any number of vCPUs, plugging
and unplugging.  Memory accesses are sequentially consistent, which the barriers in the code
are there for.

**The block graph.**  `Digraph` has reachability and acyclicity; `BlockGraph` has nodes, edges,
the move of an edge from one node to another and the records that undo it; `GraphSearch` the
searches; `Permissions` and `PermissionPass` what nodes ask of each other and the pass that
settles it; `PassOutcome` what that pass comes to and when it succeeds; `Transactions` the undo
log and the reference counts; `GraphChanges` what the larger operations come to and when they
succeed; `GraphOps` the operations themselves, as methods of a class that change the graph in
place; `FrozenChain` freezing; `AioContext` the move of a connected component to another context.
Linked lists of edges are sets, so everything holds for every order of iteration.  Between the
steps of a transaction the graph is `Tracked`: it can be undone and committed without an assertion
failing, and every reference count is the number of edges that point to the node, plus the
references held in records, plus the scheduled unrefs, plus the references of outside holders.
Permissions are sets of the four permissions.  A driver's `child_perm` callback is any function;
its `check_perm` callback may refuse at any time, and the operations report in a ghost result
whether one did, together with the graph as they changed it and with the permissions that follow
from the change.

**Jobs** (`JobGroup`, `JobOutcome`, `AbortEnds`).  All jobs of one group, as a step machine whose
steps are what happens between two points where `job_mutex` is free.

**Image tools.**  `Buffers`, `Convert`, `ConvertCoroutines`, `ConvertEnds`, `Rebase` and `Compare`
model the data movers of qemu-img.  Disk content is a sequence of bytes, or of sectors, where a sector is
the number that its bytes spell.  Block status queries return any truthful answer for any
non-empty prefix of the request; where convert rounds a status to sectors, the answer has to be
true of every sector it touches.  Reads and writes may fail; a failing write may have written a
prefix.  What a status query, a read, a turn of the write loop and an offloaded copy may do is
said once, as a relation; the methods of `Convert` are proved to stay within it, and the step
machine of `ConvertCoroutines` is built from it.

## What is promised and does not quite hold

For each of these a concrete case is given and the exact condition is proved.

- `is_allocated_sectors` is documented to report whether the first sector has data.  It reports
  a zero sector as allocated if data follows within the same alignment unit.
- Loosening permissions can be refused inside `bdrv_child_try_set_perm`.  The call still succeeds;
  the old permissions stay.  If the drivers pass less on when they are asked for less, as the
  default permission functions do, and everything below was settled, the loosening is made if and
  only if no driver refuses and no writer is left without the permission to resize an image of
  unaligned size.  With other drivers it can also bring up a conflict; in general it is made if
  and only if no driver refuses and every node fits the permissions that are passed on to it.
- A chain frozen down to a base stays put.  A chain frozen without a base can grow at its end.
  Setting a backing file keeps its walk if and only if the file is taken away or the node is not
  the last one; an append, if and only if the new node is not the last one; an attachment, if and
  only if the parent is not the last one or a walk does not follow children of that role; a
  replacement always.
- When a prepare callback fails, the job that the group is finalized for is aborted if and only if
  the failing callback was its own.  Otherwise it commits while the others abort.
- The abort of a group can come to its end if and only if every member that is not completed was
  started.  Cancelling one of two jobs that were not started makes the main thread wait for the
  other one without end.
- The pause count is exact unless an error stop has to wake the job.  Then the mutex is
  released between counting the pause and marking it, and a user's pause in between leaves a
  count behind that nothing undoes; once no error stop is open, the count is off by exactly the
  number of times this happened.
- A rebase with compressed writes extends requests to clusters.  If allocation is in subclusters,
  and a cluster is allocated in part, the assertion that the extended request is unallocated fails;
  it holds for all requests if and only if allocation is in units of the write alignment.

## Model

| member | source | states |
|---|---|---|
| ExclusiveSection.StepKeepsInv | cpu-common.c:189-333 | every step of every thread keeps an invariant that ties `pending_cpus`, `running`, `has_waiter`, the lock and both wait queues together |
| ExclusiveSection.ReachableInv | cpu-common.c:87-116 | the invariant holds in every state of every run, with vCPUs coming and going |
| ExclusiveSection.MutualExclusion | cpu-common.c:200-333 | while a thread is in an exclusive section, no vCPU executes guest code and no second thread is in a section |
| ExclusiveSection.PendingCountsMarks | cpu-common.c:213-240 | whenever the list lock is free, `pending_cpus` is 0 with nobody marked, or one more than the number of marked vCPUs; it is non-zero exactly while a section is announced |
| ExclusiveSection.WaiterWillBeSignalled | cpu-common.c:227-237 | at most one thread waits for the running vCPUs, and while it does, the signal is due or a marked vCPU has still to pass the locked part of `cpu_exec_end` |
| ExclusiveSection.SleeperWillBeResumed | cpu-common.c:191-256 | whoever waits for the end of a section does so while one is announced, or just before the broadcast |
| ExclusiveSection.NoDeadlock | cpu-common.c:189-333 | if no thread inside the protocol can move, all of them are asleep and a thread outside will end the wait |
| Digraph.AddLinkKeepsAcyclic | block.c:3204-3218 | a link whose end does not lead back to its start closes no cycle |
| Digraph.PathOverNewLink | block.c:3204-3218 | a path over a graph with one more link avoids the link or leads through its start |
| BlockGraph.MoveKeepsConsistent | block.c:2946-3007 | after an edge was moved, the lists of children and parents, the `backing` and `file` pointers and the edges agree again |
| BlockGraph.MoveBack | block.c:2444-2470 | moving an edge back restores both nodes, the parent's list of children and its pointers exactly |
| BlockGraph.MoveBackAllowed | block.c:2444-2470 | the move back meets every assertion on its way |
| BlockGraph.AttachedSlotFree | block.c:1441-1480 | an attached child has its `backing` or `file` pointer to itself |
| BlockGraph.LogGrows | util/transactions.c:47-79 | a recorded step that can be undone leaves the effect of an abort as it was |
| BlockGraph.AttachUndone | block.c:3033-3068 | undoing an attachment restores the graph, and the edge is gone |
| BlockGraph.PermUndone | block.c:2343-2374 | undoing a permission change restores both masks of the edge |
| BlockGraph.InheritsUndone | block.c:3358-3387 | undoing a change of `inherits_from` restores the pointer |
| GraphSearch.RecurseHasChild | block.c:4340-4356 | true exactly if the node can be reached; it ends because the graph is acyclic |
| GraphSearch.TopologicalDfs | block.c:2312-2335 | from a sorted list that holds whole subtrees: a list without duplicates of exactly the old members and everything reachable, every node before its descendants |
| GraphSearch.SortedOrders | block.c:2301-2311 | in a sorted list a node stands before all its descendants, and nothing stands twice |
| GraphSearch.SortedIsClosed | block.c:2306-2309 | a sorted list holds the whole subtree of each of its nodes |
| GraphSearch.ShouldUpdateChild | block.c:5241-5318 | the breadth-first search admits an edge exactly if it need not stay and its owner is not below the new node |
| Permissions.GetCumulativePerm | block.c:2646-2662 | the union of what the parents ask for and the intersection of what they share |
| Permissions.ParentPermsConflict | block.c:2257-2281 | a conflict exactly if some parent asks for what another one does not share |
| Permissions.DefaultPermsAreMonotone | block.c:2773-2921 | asking less of a node and sharing more never makes it ask more of its children, or share less, for all roles |
| Permissions.SettledKept | block.c:2521-2591 | a node stays settled while the edges around it keep their permissions |
| Permissions.LooseningHasNoConflict | block.c:2529-2562 | at one settled node: looser parents bring up no conflict, and the node cannot serve them exactly if a writer loses the permission to resize an unaligned image |
| Permissions.LooseningGoesDown | block.c:2579-2588 | at one child: with monotone drivers, what is passed on is a loosening again |
| PermissionPass.SortBelow | block.c:2632-2644 | repeated searches with one table of found nodes sort exactly what is below any of the roots |
| PermissionPass.EarlierIsAway | block.c:2600-2620 | no edge that a later turn of the pass changes touches a node that was settled earlier |
| PermissionPass.PassStep | block.c:2600-2620 | one more turn of the pass settles one more node and unsettles none |
| PassOutcome.FitsAtItsTurn | block.c:2600-2620 | what a node is asked for when its turn in the pass comes is what it is asked for in the end, so the check made then is a check of the final permissions |
| PassOutcome.PassAssigns | block.c:2579-2588 | with all turns made, every node below has given its children what it computes from what the final permissions ask of it, and no other edge changed |
| PassOutcome.OnlyOneAssignment | block.c:2301-2311 | there is only one assignment of permissions with that property, so any topological order leads to it |
| PassOutcome.SpreadIsUnique | block.c:2720-2752 | the permissions of an edge can be passed on in one way only |
| PassOutcome.PassSucceeds | block.c:2600-2620 | a pass whose nodes all fitted at their turns leaves that assignment, in which all of them fit |
| PassOutcome.PassFails | block.c:2600-2620 | a pass stops only if a driver refused, or a node does not fit the assignment |
| PassOutcome.LooseningFits | block.c:2720-2752 | over the whole pass, with monotone drivers and from a settled graph: every node fits a loosening if and only if no writer is left with an unaligned size |
| PassOutcome.LooseningMayConflict | block.c:2257-2281 | without monotone drivers, a settled graph of aligned sizes in which a loosening brings up a conflict |
| Transactions.MoveKeepsRefs | block.c:2436-2512 | an edge takes its reference along when it moves |
| Transactions.ReplaceTracked | block.c:2491-2512 | after a recorded replacement the transaction can still be undone and committed, an abort has the effect it had, and every reference is accounted for |
| Transactions.AttachTracked | block.c:3160-3187 | the same for an attachment |
| Transactions.UndoCounted | block.c:2444-2470 | every abort action gives back exactly the reference that the record or the edge held |
| Transactions.CommitCounted | block.c:2436-2442 | each committed record adds the reference it held to the unref queue |
| Transactions.CommitProgress | block.c:5320-5328 | a commit frees each removed edge once, when it points nowhere |
| Transactions.UnrefTracked | block.c:7162-7179 | a scheduled unref finds a reference to drop, and the count stays exact |
| GraphChanges.MoveKeepsBelow | block.c:5359-5391 | moving an edge whose owner is not below the new node closes no cycle and changes nothing below that node |
| GraphChanges.ReplacedOne | block.c:5359-5391 | which parents may be moved is not changed by moving the others first |
| GraphChanges.ReplacedThenRefreshed | block.c:5403-5441 | after a replacement and a pass: edges moved exactly where allowed, no cycle, frozen edges in place, everything below both nodes settled |
| GraphChanges.AttachKeepsAdmits | block.c:5494-5503 | the new edge of an appended node does not change which parents move to it |
| GraphChanges.AttachKeepsReplaceable | block.c:5494-5503 | nor whether they can be moved without touching a frozen edge |
| GraphChanges.AttachedReplacedRefreshed | block.c:5481-5517 | an append comes to: the new node over the old top, moved parents on the new node, everything below the old top still below it |
| GraphChanges.UninheritedMore | block.c:3394-3417 | which edges of the root keep a pointer alive is the same at every depth of the recursion |
| GraphChanges.TakenKeepsBarred | block.c:3548-3563 | a new child is attached or refused, and asked for the same, as if the old one were still there |
| GraphChanges.BackingInPlace | block.c:1441-1480 | the new child is in the pointer that the driver keeps it in; without a new child the `backing` pointer is empty |
| GraphChanges.SwitchedThenRefreshed | block.c:3493-3578 | a new backing child comes to: one edge gone, one edge new in its role and its place, `inherits_from` pointers cleared and set as they should be, no other edge changed but in its permissions, everything below settled |
| GraphChanges.UnrefIsLooser | block.c:3335-3340 | taking a parent away is a loosening: with monotone drivers and settled permissions every node below fits if and only if no writer is left with an unaligned size |
| GraphOps.BlockLayer.ReplaceChildNoperm | block.c:2946-3007 | the in-place updates, callbacks included, come to exactly the move of the edge |
| GraphOps.BlockLayer.ChildCbAttach | block.c:1441-1480 | the edge is in the list of children and in the pointer that its role selects; the assertions hold |
| GraphOps.BlockLayer.ChildCbDetach | block.c:1483-1499 | the edge is in no list and no pointer of its parent |
| GraphOps.BlockLayer.ReplaceChildTran | block.c:2491-2512 | moves the edge, and an abort has the effect it had before; references are conserved |
| GraphOps.BlockLayer.ChildSetPerm | block.c:2358-2374 | sets both masks of one edge, and an abort has the effect it had before |
| GraphOps.BlockLayer.SetInherits | block.c:3371-3387 | sets one pointer, and an abort has the effect it had before |
| GraphOps.BlockLayer.RemoveChildTran | block.c:5338-5350 | takes the edge off its node; a commit frees it, an abort has the effect it had before |
| GraphOps.BlockLayer.TranAbort | util/transactions.c:60-79 | running the records newest first restores the graph as it was when the transaction began; no assertion fails and no reference is lost |
| GraphOps.BlockLayer.TranCommit | util/transactions.c:81-100 | frees the removed edges; the unref queue grows by exactly the references in the records, and nothing else in the books changes |
| GraphOps.BlockLayer.AttachChildCommon | block.c:3091-3190 | fails exactly for an inactive node and a permission beyond consistent reads; else the graph has one more edge, and an abort has the effect it had before |
| GraphOps.BlockLayer.AttachChildNoperm | block.c:3204-3236 | refuses exactly what would close a cycle, give an inactive child to an active parent, or ask an inactive child for more than consistent reads; else the graph has one more edge, with the role and the permissions that the parent computes, and stays acyclic |
| GraphOps.BlockLayer.NodeRefreshPerm | block.c:2521-2591 | on success the node is settled: compatible parents, permissions it may have, and children with exactly what it computes for them; no other edge changes |
| GraphOps.BlockLayer.DoRefreshPerms | block.c:2600-2620 | one pass over a sorted list: on success every node in it is settled in the final state, only edges between nodes of the list changed, and an abort has the effect it had before; it succeeds if and only if no driver refuses and every node fits the permissions passed on to it |
| GraphOps.BlockLayer.ListRefreshPerms | block.c:2632-2644 | the same for everything below any of the given nodes |
| GraphOps.BlockLayer.RefreshPerms | block.c:2699-2718 | the same for everything below one node |
| GraphOps.BlockLayer.RefreshPermsAlone | block.c:2699-2718 | with a transaction of its own: everything settled, or nothing changed; settled if and only if no driver refuses and every node below fits |
| GraphOps.BlockLayer.SetPermAndRefresh | block.c:2720-2733 | the result is the one way to pass the new permissions on, if no driver refuses and every node fits, and else the graph as it was; for a loosening with monotone drivers, fitting comes down to aligned sizes |
| GraphOps.BlockLayer.ChildTrySetPerm | block.c:2720-2752 | a pure loosening never reports failure; a reported failure leaves the graph as it was; a success that is no loosening has set the permissions and settled everything below; a loosening with monotone drivers is made if and only if no driver refuses and no writer is left with an unaligned size, so always if all sizes below are aligned; references never change |
| GraphOps.LooseningMayBeRefused | block.c:2549-2562 | on a settled, acyclic graph with exact books: a call that loosens, succeeds, and leaves the graph as it was, whatever the driver answers |
| GraphOps.BlockLayer.ReplaceNodeNoperm | block.c:5359-5391 | moves exactly the parents that may be moved in the original graph; it fails exactly if one of these is frozen, or if a parent may not be moved and must not be skipped; the graph stays acyclic and what is below the new node stays the same all along |
| GraphOps.BlockLayer.ReplaceNodeCommon | block.c:5403-5441 | on failure the graph is as it was, on success the parents are moved, frozen edges in place, and everything below both nodes is settled; it succeeds if and only if the parents can be moved, no driver refuses, and everything below both nodes fits the permissions passed on |
| GraphOps.BlockLayer.Append | block.c:5481-5517 | on failure the graph is as it was; on success moved parents point to the new node, which reaches the old top and everything below it over an edge in the backing role, and the graph is acyclic; it succeeds if and only if the edge is not barred, no frozen edge has to move, no driver refuses, and everything below the new node fits |
| GraphOps.BlockLayer.UnsetInheritsFrom | block.c:3394-3417 | clears the pointer to the root of exactly the nodes below the child that no other edge of the root leads to; nothing else changes, and an abort has the effect it had before |
| GraphOps.BlockLayer.SetFileOrBackingNoperm | block.c:3493-3578 | refuses exactly a frozen link, a missing driver, a driver without backing files, a file child without a role, and what an attachment refuses; else exactly the old child is replaced by the new one, in its role, without closing a cycle, and `inherits_from` of every node is what it should be |
| GraphOps.BlockLayer.SetBackingHd | block.c:3586-3608 | on failure the graph is as it was; on success the backing child is new, in its role and in the pointer it belongs in, or gone, and everything below is settled; it succeeds if and only if the link can be changed, no driver refuses, and everything below fits |
| GraphOps.BlockLayer.AttachChildNode | block.c:3288-3319 | takes over the caller's reference whether it succeeds or not; on failure the graph is as it was; on success the child is attached in the given role and everything below is settled; it succeeds if and only if nothing bars the attachment, no driver refuses, and everything below fits |
| GraphOps.BlockLayer.RootUnrefChild | block.c:3326-3351 | takes one edge out of the graph, adds exactly its reference to the unref queue, and changes nothing else but permissions; with monotone drivers and settled permissions everything below is settled again if and only if no driver refuses and no writer is left with an unaligned size |
| GraphOps.BlockLayer.RunScheduledUnref | block.c:7174-7195 | drops one reference, and the count stays exact |
| FrozenChain.IsBackingChainFrozen | block.c:5757-5777 | true exactly if some link between the node and the base is frozen |
| FrozenChain.FreezeBackingChain | block.c:5786-5815 | freezes all of the links or none; it fails exactly if one is frozen already or leads to a node that must never be frozen |
| FrozenChain.UnfreezeBackingChain | block.c:5823-5837 | clears the flag of every link, each of which it finds frozen |
| FrozenChain.UnfreezeRestores | block.c:5786-5837 | unfreezing restores the flags that freezing found |
| FrozenChain.ChainHasNoEdgeTwice | block.c:5823-5837 | a walk meets no link twice |
| FrozenChain.FrozenChainStaysPut | block.c:8295-8360 | while frozen edges stay, a frozen chain down to a base is walked as before, and one frozen to the end as far as its last node, whose walk ends there exactly if it has got no child since |
| FrozenChain.ChangesKeepFrozenChain | block.c:5382-5386 | no successful replacement, append, attachment or change of a backing file changes the walk along a frozen chain |
| FrozenChain.WalkedChild | block.c:8295-8360 | the child that a walk follows is the one whose role puts it in the pointer that the walk looks at |
| FrozenChain.BackingKeepsEndIff | block.c:3586-3608 | setting a backing file keeps the walk along a chain that is frozen to its end if and only if the file is taken away or the node is not the last one |
| FrozenChain.AppendKeepsEndIff | block.c:5481-5517 | an append keeps it if and only if the new node is not the last one |
| FrozenChain.AttachKeepsEndIff | block.c:3288-3319 | an attachment keeps it if and only if the parent is not the last one or a walk does not follow children of that role |
| FrozenChain.ReplaceKeepsEnd | block.c:5403-5441 | a replacement keeps it |
| FrozenChain.FrozenToTheEndMayGrow | block.c:3586-3608 | a call on an acyclic graph with exact books that gives the last node of a chain frozen to its end a backing file: it succeeds if and only if no driver refuses, and then the walk is longer |
| AioContext.ChangeNode | block.c:7653-7684 | the recursion, which consumes an unvisited edge with each call, records every vertex of the component or gives up over one that cannot be moved |
| AioContext.ParentChange | block.c:7569-7595 | the same from an edge to its owner: node, job or backend |
| AioContext.ChangeJob | blockjob.c:147-171 | a job takes all its nodes along |
| AioContext.AllRecorded | block.c:7653-7684 | when the recursion has come back, everything connected is recorded |
| AioContext.Contexts.TryChange | block.c:7702-7739 | everything connected moves to the new context and nothing else, or nothing moves; it fails exactly if the node is elsewhere and something connected cannot move |
| JobGroup.StepKeepsInv | job.c:761-1171 | no step of any job, command or loop trips over an assertion, and each keeps the invariant of the group |
| JobGroup.CoroutineKeepsInv | job.c:578-682 | yields, pause points, readiness and the end of a run keep the invariant and make legal transitions only |
| JobGroup.RunActionOk | job.c:690-758 | pauses, resumptions, drained sections and error stops keep every pause accounted for |
| JobGroup.ExitKeepsInv | job.c:1037-1096 | a completion, nested in an abort or not, keeps the invariant; whenever success is checked, no completed member has failed, whether others are unfinished or not |
| JobGroup.CancelKeepsInv | job.c:1137-1171 | cancelling keeps the invariant, whether the job was not started, runs, or is done |
| JobGroup.MainKeepsInv | job.c:929-1008 | the loops that prepare, finalize, cancel and abort the group keep the invariant |
| JobGroup.AbortOk | job.c:846-883 | in an aborting group a completed member is aborted, unless it is the job the group was finalized for and another prepare callback failed |
| JobOutcome.RunsAreLegal | job.c:59-72 | in every run of a new group every transition is allowed, and no assertion on counters, statuses or results fails |
| JobOutcome.FailureAborts | job.c:1064-1075 | a member that completes with an error or by force makes its group abort |
| JobOutcome.AbortedOutcome | job.c:929-969 | in an aborting group every finalized member gets one abort, one clean and no commit; after a failed prepare callback the job the group was finalized for is aborted if and only if that callback was its own, and commits otherwise |
| JobOutcome.PrepareCause | job.c:971-1008 | the recorded cause names the job whose prepare callback has just failed and the job that the group was being finalized for |
| JobOutcome.CommittedOutcome | job.c:996-1008 | in a group that does not abort every finalized member gets one commit, one clean and no abort |
| JobOutcome.AbortEmptiesGroup | job.c:958-969 | when an abort is over, no member is left in the group |
| AbortEnds.AbortEndsIffAllRun | job.c:958-969 | from every state of the abort loop that a new group can get into, some continuation ends the abort if and only if every member that is not completed was started |
| AbortEnds.MemberCompletes | job.c:958-965 | a started member that was cancelled by force can be brought to completion by itself, from wherever its coroutine is |
| AbortEnds.UnstartedForever | job.c:958-965 | a member that was not started is waited for in every continuation |
| AbortEnds.AbortMayHang | job.c:1137-1153 | a run of a new group into an abort that cannot end |
| JobOutcome.WaitsForCancelled | job.c:958-965 | the main thread waits only for members that were cancelled by force |
| JobOutcome.FreedOnlyWhenNull | job.c:463-485 | a job loses its last reference only in status null and outside its group |
| JobOutcome.CompletedForever | job.c:306-326 | a completed job never becomes uncompleted |
| JobOutcome.PausesAreAccountedFor | job.c:690-758 | the pause count is exactly: not started, paused by the user, open drained sections, and error stops caught or overtaken in the gap |
| JobOutcome.PauseAccounting | blockjob.c:608-618 | while no error stop releases the mutex, the pause count is exactly: not started, paused by the user, open drained sections |
| JobOutcome.ErrorStopIsExact | blockjob.c:608-618 | an error stop leaves an exact pause count exact if and only if it does not have to release the mutex |
| JobOutcome.SurplusGrows | blockjob.c:608-618 | a pause is lost exactly when an error stop finds at its end that the user has paused the job meanwhile; a lost pause never comes back |
| JobOutcome.PauseCountOverRun | blockjob.c:608-618 | after any run the pause count is: not started, paused by the user, open drained sections, open error stops, and the number of pauses lost in the run; it is exact if and only if the last two are zero |
| JobOutcome.LostPause | blockjob.c:608-618 | a run in which a user's pause overtakes an error stop and resuming leaves the job stopped |
| JobOutcome.PrepareFailureSplitsGroup | job.c:996-1008 | a run in which a prepare callback fails, one member aborts and the other commits |
| Buffers.SpellIsFaithful | qemu-img.c:1133-1147 | sectors are equal, and zero, exactly when their bytes are |
| Buffers.FindNonzero | qemu-img.c:1133-1147 | the first sector with data, or that there is none |
| Buffers.IsAllocatedSectors | qemu-img.c:1159-1210 | between 1 and n sectors; not allocated exactly if the leading zero run is the whole buffer or reaches an alignment boundary, and then all of them are zero |
| Buffers.IsAllocatedSectorsMin | qemu-img.c:1217-1254 | the same with short zero runs swallowed: what follows a data run is zero for the minimum length or to the end |
| Buffers.FirstSectorDecides | qemu-img.c:1149-1158 | the documented meaning holds exactly unless data follows a leading zero run in the same alignment unit |
| Buffers.ZeroSectorReportedAllocated | qemu-img.c:1149-1158 | a zero sector that is reported as allocated |
| Buffers.CompareBuffers | qemu-img.c:1264-1289 | the longest prefix of whole chunks that all compare like the first one |
| Convert.SelectPart | qemu-img.c:1700-1710 | the source and offset that hold a sector of the concatenation |
| Convert.CoRead | qemu-img.c:1819-1870 | the sectors of the concatenated sources, across their boundaries; zeroes for unreadable ones in salvage mode only |
| Convert.NextChunkRight | qemu-img.c:1712-1817 | whatever truthful answer a query gives: a non-empty chunk whose status is true of every sector, data fits the buffer, compressed chunks are whole clusters, and the remembered status is right behind it |
| Convert.ImgConvertState.IterationSectors | qemu-img.c:1712-1817 | computes that chunk from the remembered status or a new answer; an error only if the query failed and salvage mode is off |
| Convert.ImgConvertState.CountSectors | qemu-img.c:2114-2126 | the counting pass ends; its total is the number of sectors in the chunks of data, and of zeroes if the target is to be fully allocated, over a gapless sequence of chunks with true statuses |
| Convert.TurnShows | qemu-img.c:1873-1935 | a turn of the write loop that succeeds leaves its sectors showing what they should, whether they were written, left zero, or left to the backing file |
| Convert.ImgConvertState.CoWrite | qemu-img.c:1873-1935 | on success the chunk shows what it should, although zero runs are skipped; nothing outside it ever changes |
| Convert.ImgConvertState.CoCopyRange | qemu-img.c:1937-1966 | on success the chunk shows the source; on failure it can still be written the other way |
| Convert.ImgConvertState.CopyChunk | qemu-img.c:2022-2062 | one chunk is copied, with a second try if offloading fails |
| Convert.TilingCovers | qemu-img.c:2005-2014 | every sector belongs to exactly one chunk |
| Convert.DoCopy | qemu-img.c:2091-2152 | a successful run hands every sector to exactly one non-empty chunk, data chunks fit the buffer that was asked for (one cluster if compressed), and the target shows the source |
| ConvertCoroutines.StepKeepsControl | qemu-img.c:1986-2089 | every step of every coroutine keeps the books on chunks, order and wake-ups |
| ConvertCoroutines.StepKeepsContent | qemu-img.c:1986-2089 | no coroutine disturbs the chunk of another |
| ConvertCoroutines.TakenIsAllowed | qemu-img.c:1995-2014 | from the shared remembered status and any truthful answer, the chunk handed out is non-empty, true to its status and fits the buffer |
| ConvertCoroutines.TurnCopies | qemu-img.c:1873-1935 | what a coroutine has in its buffer and what the target showed before make a turn of its write loop copy the sectors it deals with |
| ConvertCoroutines.SuccessMeansCopied | qemu-img.c:1986-2089 | from a target that is prepared as it is assumed to be, in every interleaving: success means that every sector was handed out once and the target shows the source |
| ConvertCoroutines.WritesAreOrdered | qemu-img.c:2036-2062 | with ordered writing, also after an error, chunks are written in sector order without a gap, by one coroutine at a time |
| ConvertCoroutines.WriterFindsUntouched | qemu-img.c:2045-2062 | every write finds its chunk as it needs it, whatever the others have done, and its buffer holds what was read of it |
| ConvertCoroutines.OnlyParkedAreEntered | qemu-img.c:2064-2079 | the wake-up loop enters a coroutine only at its ordering yield |
| ConvertCoroutines.ParkedWillBeEntered | qemu-img.c:2038-2041 | a parked coroutine waits for the end of a chunk whose owner has still to reach its wake-up loop |
| ConvertCoroutines.NoDeadlock | qemu-img.c:2036-2079 | as long as a coroutine runs, some coroutine can go on |
| ConvertEnds.StepDecreases | qemu-img.c:1986-2089 | every step of every coroutine brings the number of steps that can be left down, although a failed offloaded copy starts its chunk over |
| ConvertEnds.EveryRunEnds | qemu-img.c:1986-2089 | in every interleaving a run has at most twelve steps per sector and three per coroutine; where no coroutine can go on, all have exited and the outcome is success or failure |
| Rebase.Overlay.PWrite | qemu-img.c:4128-4135 | a write allocates whole units and copies their rest from the old backing file; what the image shows changes in the written range only; a write of whole clusters keeps allocation in clusters |
| Rebase.ProgressIffUnitFits | qemu-img.c:4081-4084 | moving the offset back still makes progress, exactly if a unit is no larger than the buffer |
| Rebase.LargeUnitsStall | qemu-img.c:4026-4084 | with larger units, on any image larger than the buffer that holds nothing, over backing files of the same content without a common chain: the loop stays at the end of the first buffer for ever |
| Rebase.ExtendedUnallocatedIffUniform | qemu-img.c:4081-4086 | the extended request is unallocated for all requests exactly if allocation is in units of the write alignment |
| Rebase.PartialClusterTrips | qemu-img.c:3876-3876 | for any two different sizes of clusters and subclusters: an image of which the first request that the loop finds unallocated, however long, trips over the assertion on the extended request |
| Rebase.ExtendedIsWhole | qemu-img.c:4081-4086 | when units divide the buffer, extended requests end at unit boundaries or at the end of the image |
| Rebase.CopyDifferences | qemu-img.c:4120-4146 | after the inner loop the image shows the same over both backing files wherever it was compared |
| Rebase.SafeRebase | qemu-img.c:4026-4148 | after every write the image shows its old content over the old backing file; a successful rebase shows it over the new one; the loop ends; if units divide the buffer every request covers whole units |
| Compare.CheckEmptySectors | qemu-img.c:1308-1329 | the piece is empty, or the first sector with data is named |
| Compare.CompareStep | qemu-img.c:1507-1587 | a non-empty piece was compared and the verdict about it is right |
| Compare.CompareTailStep | qemu-img.c:1602-1623 | the same for the tail of the longer image |
| Compare.ImgCompare | qemu-img.c:1501-1627 | without errors the non-strict verdict is identical exactly if the zero-extended images agree at every byte; a mismatch names the first differing place |

## Left out

- GraphOps.BlockLayer.AttachChildCommon: does not move AioContexts; parent and child are in the same one. Moving a component is modelled by itself in AioContext.
- GraphOps.BlockLayer.SetFileOrBackingNoperm: a circle of `inherits_from` pointers, along which the code would walk without end, counts as not inheriting; a filter has to be given its child in the pointer it uses, as the assertions in `bdrv_child_cb_attach` demand.
- GraphOps.BlockLayer.RootUnrefChild: does not move the node back to the main AioContext.
- GraphOps.BlockLayer.RunScheduledUnref: deleting a node whose count reaches zero is not modelled.
- GraphOps.BlockLayer.TranCommit: block limits and the drivers' own `set_perm` callbacks have no effect on the graph and are not modelled.
- AbortEnds.AbortEndsIffAllRun: says that the abort can end, not that it does; drivers may take any number of steps before they finish.
- JobGroup.StepKeepsInv: commands from outside are not nested inside driver callbacks or waits, members join the group before any is started, drivers accept a forced cancel and any cancel of a job that was not started, become ready once, and finish with no request left.
- Rebase.SafeRebase: needs a write alignment of at most the buffer size, without which the loop does not end on some images (Rebase.ProgressIffUnitFits, Rebase.LargeUnitsStall); allocation in units of the write alignment, without which an assertion fails (Rebase.ExtendedUnallocatedIffUniform); and for compressed writes an alignment that divides the buffer size.
- Convert.ImgConvertState.IterationSectors: alignment by masking is modelled as rounding to multiples.
- Drain counters, polling, graph locks and the event loop: changes are made in a drained and locked graph.
- Opening, probing, reopening, option dictionaries, file names, activation and inactivation.
- Work queues and breakpoints of vCPUs.
- Job timers, except that a kick may or may not happen; progress, events and rate limits.
- The other commands of qemu-img, bitmaps, and the messages and progress of the modelled ones.
