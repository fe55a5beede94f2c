# Verified models of the QEMU base of LATX

This project models five parts of the QEMU 6 code that LATX builds on, in Dafny 4.11, and proves what
each part is for:

1. **The exclusive section of the vCPU threads** (`cpus-common.c`), as a step system over any number of
   CPUs with one shared access per step: mutual exclusion, no lost wake-up, no deadlock, and every call
   returns.
2. **The block graph** (`block.c`, `util/transactions.c`): topological order, permissions and their
   refresh, graph edits under an undo log, reference counts, acyclicity, and the public operations that
   change the graph completely or not at all; and the move of a connected component to another
   AioContext (`block.c`, `blockjob.c`).
3. **Background jobs and job transactions** (`job.c`, `blockjob.c`): every run is free of failed
   assertions, completion is final, jobs are finalised once, pauses are counted, and transactions are
   all-or-nothing under an exact condition.
4. **Image conversion and rebase** (`qemu-img.c`): the cooperative copying workers, sparse detection and
   writing, and the copy loop of a safe rebase.
5. **The GDB remote protocol** (`gdbstub.c`): encoder and byte-at-a-time parser, acknowledgements and
   resending, and vCont.

`dafny verify dfyconfig.toml` checks everything.  Nothing here runs the original programs.

## Layout

| files | content |
|---|---|
| ExclusiveSection, ExclusiveSafety, ExclusiveNesting, ExclusiveLiveness | the protocol as steps; safety; nested sections over whole runs; deadlock freedom and termination |
| BlockGraph, TopologicalOrder, Permissions, PermissionRefresh, LooseningCondition | graph and reachability; DFS order; rights; what a refresh establishes; when loosening fails |
| GraphEdit, GraphAccounting, GraphShape, NodeReplacement, GraphTransaction | edits with undo records; reference counts; acyclicity; the state of a running transaction |
| BlockLayer, BackingChain, BlockOperations, ChainRoles | the operations in place: a class holds the graph and methods reassign it; roles and rights of chain links |
| AioContextMove | the walk over a connected component |
| Jobs, JobSafety, JobTheorems, JobGroups, JobCourses, JobTransaction | jobs as a step system; invariant; run theorems; group outcomes; what the fields tell about the run; the operations in place |
| Rebase | the copy loop of qemu-img rebase |
| SparseDetection, SparseWrite, ConvertSource | sparse detection, writing, reading and status queries of qemu-img convert, in place |
| ConvertWorkers, ConvertSafety, ConvertOrder, ConvertCourses | its coroutines as a step system; safety; no worker left waiting; the order of writes and copy offloading over whole runs |
| GdbPacket, GdbParser, GdbDialogue, VCont, GdbProcesses | gdbstub |
| Options | values that may be absent |

## How the source is modelled

- Code that changes things step by step is a class or a method with loops, proved against a function
  that the theorems are about.  Concurrency (vCPU threads, job events, convert workers) is a step
  system: a state, the actions enabled in it, and the state each action leads to; theorems range over
  all finite runs.
- Driver callbacks, reads, writes, block status and `strtoul` are parameters or nondeterministic steps
  that satisfy the contract the caller relies on.  I/O may fail, and a failed write may be done in part.  Ghost
  fields record requests, answers and failures, so that contracts say when a method may fail and what it asks for.
- Parent and child lists of block nodes are sets, because rolling a change back re-inserts at the head.
- An assertion of the source about modelled state is a precondition, a Dafny assertion, or an outcome of
  its own (`None` for jobs, `AssertionFails` for a node replacement).  The theorems say exactly when such
  an outcome arises; the other assertions never fail, also while a transaction is aborted or committed.
  Assertions about the roles of chain links are the predicate `ChainRoles.RolesRight`.  Assertions about
  AioContexts and drain counters are not modelled.
- Integers are unbounded; where the source truncates (a process number to 32 bits) or adds up signed
  characters (the packet checksum), the model says so.

## Findings

Some properties hold only under a condition.  The condition is exact, and a concrete case shows that it is
needed:

- `job_do_finalize` hands its own job to the group abort even when another member's prepare failed, and
  that abort does not cancel the initiator.  `JobGroups.MixedRunExists` is a run of two jobs in which one
  commits and the other aborts.  `JobGroups.AllOrNothing` and `JobGroups.SparingMixes` show that outcomes
  are mixed exactly when a finalisation spares its initiator.
- Cancelling a job twice runs into an assertion when the job was never started and waits in an aborting
  group (`JobGroups.CancelTwiceFails`); `JobGroups.CancelFailsIff` shows that this is the only case, and
  job_user_cancel refuses it.
- Loosening the rights of an edge can make a refresh fail when an image size is unaligned
  (`PermissionRefresh.LooseningNeedsAlignment`).  Under the default rules it fails exactly when a listed node
  of unaligned size is written by somebody and nobody may resize it, where who writes and who resizes is read
  off the links before the call (`LooseningCondition.LooseningSucceedsIff`); only filters let that happen
  (`LooseningCondition.OnlyThroughFilters`), and with aligned sizes it never does.
- bdrv_replace_node_common with detach_subchain, which is bdrv_drop_filter, takes the chain link away without
  asking whether it is frozen, and bdrv_replace_child_noperm asserts that it is not.
  `BlockOperations.ReplaceNodeCommon` reaches that assertion if and only if all users can be redirected and
  the link above the new node is frozen; `BlockOperations.DropFrozenFilter` is a graph of two nodes where
  this is so.
- The packet parser refuses a run-length token that would fill the buffer to its last usable byte, although
  it accepts the same bytes one by one: `GdbParser.RunLimitIsOneShort` feeds both forms of the same 4095
  bytes to the parser, `GdbParser.AnsweredIff` gives the exact condition for every packet.
- vCont with a selector for all threads of a process uses the process without asking whether
  gdb_get_process found one.  `VCont.Server.HandleVCont` comes to that point if and only if an entry selects
  a process that does not exist while all entries before it are acceptable (`VCont.MissingProcessIff`);
  `VCont.MissingProcessExample` is such a packet.
- bdrv_cow_child and bdrv_filter_child assert that a filter has no backing child beside a file child, and
  bdrv_set_backing_hd does not ask.  A change of the backing link keeps those assertions true if and only if it
  does not give a backing child to a filter with a file child (`ChainRoles.BackingSetRolesIff`);
  `ChainRoles.BackingBesideFile` is a graph of three nodes where this goes wrong.
- Attaching a child keeps the graph acyclic if and only if the parent is not in the child's subtree
  (`GraphShape.AttachAcyclicIff`); bdrv_attach_child_noperm does not ask, and `GraphShape.AttachCanCycle` is
  a pair of nodes where a cycle is closed.

## Model

| member | source | states |
|---|---|---|
| ExclusiveSafety.MutualExclusion | cpus-common.c:182-309 | in every state of every run at most one thread is between the return of start_exclusive and the reset of pending_cpus, and then no CPU is between the return of cpu_exec_start and the clearing of running |
| ExclusiveSafety.NoLostWakeup | cpus-common.c:173-309 | once published, pending_cpus is 1 plus the CPUs still awaited plus the one whose decrement is under way; an unsignalled sleeping owner has such a CPU, a decrement or a signal ahead of it; an unsignalled sleeper on exclusive_resume sees pending_cpus non-zero or a broadcast about to happen |
| ExclusiveSafety.StepInv | cpus-common.c:173-309 | every step of every thread keeps the protocol invariant |
| ExclusiveNesting.SectionEndsWithMatchingCall | cpus-common.c:182-235 | over every run, from the return of an outermost start_exclusive on, exclusive_context_count is 1 plus the nested calls less the calls of end_exclusive, and the thread leaves its section exactly in the call that matches the first |
| ExclusiveNesting.NestedSectionIsExclusive | cpus-common.c:182-235 | until that call no other thread is in a section and no CPU executes guest code |
| ExclusiveNesting.InsideSinceEntry | cpus-common.c:182-235 | a thread is in its section only since such an entry, with all its calls counted |
| ExclusiveNesting.NobodyWaitsForNothing | cpus-common.c:237-309 | until the first start_exclusive of a run, cpu_exec_start and cpu_exec_end never take the lock and nobody waits |
| ExclusiveLiveness.DeadlockFree | cpus-common.c:173-309 | while some thread is inside a call, some thread can take a step towards leaving |
| ExclusiveLiveness.ClosingRunIsBounded | cpus-common.c:173-309 | without new calls and without spurious wake-ups no run is longer than a measure of its first state |
| ExclusiveLiveness.EveryCallReturns | cpus-common.c:173-309 | from every reachable state, a run without new calls and spurious wake-ups is bounded, and it can go on until every thread is outside |
| TopologicalOrder.Dfs | block.c:2104-2136 | from a sorted, subtree-closed list, the new list is duplicate-free, sorted, subtree-closed and holds exactly the old nodes plus everything reachable from the new root, so calls that share `found` compose |
| TopologicalOrder.TopologicalDfs | block.c:2114-2136 | the list for one root is ordered and holds exactly its subtree |
| TopologicalOrder.TopologicalDfsTwo | block.c:4889-4893 | two calls sharing `found` give an ordered list of both subtrees |
| Permissions.DefaultRightsMonotone | block.c:2475-2620 | every default rule is monotone: looser rights above give looser rights below |
| Permissions.FilterMeaning | block.c:2475-2483 | right by right, what the default rule asks of and shares with the child of a filter |
| Permissions.CowMeaning | block.c:2485-2519 | the same for a backing child: consistent reads at most are asked for, and writing and resizing are shared exactly when the node can stand it or is inactive |
| Permissions.StorageMeaning | block.c:2521-2598 | the same for file and metadata children |
| Permissions.GetCumulativePerm | block.c:2368-2382 | the loop computes the union of the rights used and the intersection of the rights shared by all parents |
| Permissions.ParentPermsConflict | block.c:2046-2086 | the double loop finds a conflict if and only if some parent uses a right that another does not share |
| PermissionRefresh.RefreshIsSound | block.c:2276-2366 | after a successful refresh of an ordered list no listed node has conflicting parents, writing rests on writable nodes only, and every edge below an open listed node carries exactly the derived rights |
| PermissionRefresh.RefreshIsComplete | block.c:2276-2366 | a refresh finds the only assignment of rights that makes the list consistent, and fails only if there is none |
| PermissionRefresh.LooseningSucceeds | block.c:2286-2314 | with default rules, aligned sizes and no driver check, a refresh of a loosened consistent graph succeeds and leaves every edge at most as demanding |
| PermissionRefresh.LooseningNeedsAlignment | block.c:2300-2314 | without aligned sizes loosening can fail: dropping RESIZE while keeping WRITE |
| LooseningCondition.WhatPasses | block.c:2475-2620 | what the default rules make of writing and resizing: backing links pass nothing on, filters and storage pass both on, storage of a writable or written node adds resizing |
| LooseningCondition.WrittenIff | block.c:2276-2366 | a node is written after a refresh exactly when a route of links that pass rights on leads to it from a link that writes by itself |
| LooseningCondition.ResizableIff | block.c:2276-2366 | the same for resizing |
| LooseningCondition.LooseningSucceedsIff | block.c:2286-2314 | loosening a consistent graph under default rules fails exactly when a listed node of unaligned size is written by somebody and resizable by nobody, which is read off the graph before the call |
| LooseningCondition.OnlyThroughFilters | block.c:2300-2314 | where a size is such an obstacle, every route that brings writing begins at a link the refresh leaves alone and goes on through filters only |
| GraphEdit.UndoesSetPerm | block.c:2144-2172 | aborting a change of rights restores the graph exactly |
| GraphEdit.UndoesReplace | block.c:2234-2270 | aborting the redirection of an edge that is not frozen hits no assertion and restores targets, parent lists and counts exactly |
| GraphEdit.UndoesAttach | block.c:2728-2833 | aborting an attachment hits no assertion and restores the graph exactly, whatever it was |
| GraphEdit.UndoesInherits | block.c:2982-3016 | aborting a change of inherits_from restores it |
| GraphEdit.UndoesRemove | block.c:4740-4805 | aborting the removal of a filter or backing child restores child list and link |
| GraphAccounting.AccountReplace | block.c:2227-2270 | redirecting an edge moves one reference into the undo log, so the counts stay right |
| GraphAccounting.AccountAttach | block.c:2810-2833 | attaching an edge keeps the counts right |
| GraphAccounting.CommitAllAccounts | block.c:2227-2232 | committing a log drops exactly the references it held, and every bdrv_unref on the way finds a positive count |
| GraphAccounting.CommitAllWellFormed | util/transactions.c:79-96 | committing keeps parent lists, child lists and targets in agreement |
| GraphShape.AttachAcyclicIff | block.c:2838-2870 | an attachment keeps an acyclic graph acyclic if and only if the holder is not in the subtree of the child |
| GraphShape.AttachCanCycle | block.c:2838-2870 | two nodes where an attachment closes a cycle |
| GraphShape.RecurseHasChild | block.c:3818-3834 | true exactly when the child can be reached |
| NodeReplacement.ShouldUpdateChild | block.c:4656-4733 | the breadth-first search answers false exactly when the edge must stay at its node or lies in the subtree of the replacement |
| NodeReplacement.RedirectAcyclic | block.c:4818-4830 | redirecting an edge that does not lie in the subtree of the replacement keeps the graph acyclic |
| NodeReplacement.RedirectKeepsStay | block.c:4807-4833 | redirecting one edge changes the answer for no other edge |
| GraphTransaction.RedirectUnderway | block.c:2255-2270 | redirecting a link that is not frozen keeps a running transaction sound: well formed, acyclic, counted, and undone by its log without a failing assertion |
| GraphTransaction.AttachUnderway | block.c:2765-2870 | so does an attachment |
| GraphTransaction.RemoveUnderway | block.c:4778-4805 | so does the removal of a filter or backing child whose link is not frozen |
| GraphTransaction.InheritsUnderway | block.c:2998-3016 | so does a change of inherits_from |
| GraphTransaction.CommitSettles | util/transactions.c:79-96 | committing a sound transaction hits no assertion and leaves a well-formed, acyclic graph whose counts are edges plus outside references, with the links the edits made, and frees exactly the edges that were removed |
| BlockLayer.Layer.TranAbort | util/transactions.c:60-77 | runs the records newest first until none is left; no edge on the way is frozen and every count dropped is positive |
| BlockLayer.Layer.TranCommit | util/transactions.c:79-96 | commits the records newest first until none is left; every count dropped is positive |
| BlockLayer.Layer.NodeRefreshPerm | block.c:2276-2344 | refreshes one node as specified, or leaves the graph; its records lead back |
| BlockLayer.Layer.ListRefreshPerms | block.c:2346-2366 | refreshes a list in order; success if and only if the specification succeeds; its records lead back to the start |
| BlockLayer.Layer.RefreshPerms | block.c:2414-2424 | refreshes the subtree of a node, or leaves the graph as it was |
| BlockLayer.Layer.ReplaceNodeNoperm | block.c:4807-4833 | redirects exactly the users that may move, keeps the transaction sound at every step, and fails exactly when a user blocks |
| BlockLayer.LeftBehind | block.c:4814-4822 | what a replacement leaves on the old node are links that must stay and links below the replacement |
| BackingChain.IsBackingChainFrozen | block.c:5108-5126 | true exactly when a link between the node and the base is frozen |
| BackingChain.CowParent | block.c:4856-4865 | finds the node of the chain whose link leads to the target |
| BackingChain.CowParentUnique | block.c:4856-4865 | there is only one such node |
| BackingChain.UnsetInheritsFrom | block.c:3023-3046 | clears inherits_from on exactly those nodes below the edge that no other edge of the root leads to |
| BlockOperations.AttachChildNoperm | block.c:2838-2870 | attaches with the derived rights, or changes nothing |
| BlockOperations.AttachChild | block.c:2942-2970 | on success the subtree of the parent is consistent; on failure only the caller's reference to the child is gone; the counts are right both times; failure means no assignment of rights fits |
| BlockOperations.RemoveFilterOrCowChild | block.c:4778-4805 | removes the chain child if there is one, which must not be frozen, keeping the transaction sound |
| BlockOperations.SetBackingNoperm | block.c:3100-3143 | changes the backing link unless a link is frozen or the contexts do not agree |
| BlockOperations.SetBackingHd | block.c:3145-3161 | changes the backing link and leaves the subtree consistent, or restores the graph |
| BlockOperations.BackingSetNode | block.c:3100-3143 | what the change means for every node: children, backing, file, and inherits_from, which is set on the new backing node if it inherited before, cleared on exactly the nodes left without another link of the overlay, and unchanged elsewhere |
| BlockOperations.BackingSetEdge | block.c:3087-3143 | what it means for every edge: the old link detached, the new one present, not frozen, movable, and filtered below a filter or COW below any other node; the others unchanged |
| BlockOperations.SkipImplicit | block.c:4264-4270 | stops at the node of the chain above the first explicit one |
| BlockOperations.ReopenBacking | block.c:4213-4299 | a reopen that names any backing node keeps the graph acyclic; it succeeds if and only if it would close no cycle, the contexts agree, the driver takes a backing node, and there is nothing to change or neither an implicit node nor a frozen link in the way |
| BlockOperations.Append | block.c:4935-4962 | the new node takes over the users of the old top that may move and the result is consistent, or the graph is restored; failure means that contexts do not agree, a user is frozen, or no assignment of rights fits |
| BlockOperations.ReplaceNodeCommon | block.c:4845-4909 | the replacement takes full effect with both subtrees consistent, or the graph is restored, with right counts both times; it runs into the assertion about frozen links if and only if the users can be redirected and the link to be cut is frozen |
| BlockOperations.DropFrozenFilter | block.c:4917-4921 | a filter over a frozen link for which that is so |
| BlockOperations.ChildTrySetPerm | block.c:2426-2456 | the new rights take effect with a consistent subtree, or nothing changes; an error is hidden exactly when the request only loosens |
| BlockOperations.LooseningFitsIff | block.c:2426-2456 | under default rules there is an error to hide exactly when the size of a node below is an obstacle |
| BlockOperations.LooseningFits | block.c:2426-2456 | under default rules with aligned sizes there is never an error to hide |
| ChainRoles.ChainChildMeaning | block.c:7429-7490 | where the asserted roles are right, bdrv_filter_or_cow_child is the one child with a COW or filtered link, if there is one |
| ChainRoles.BackingSetRolesIff | block.c:3100-3143 | a change of the backing link keeps the asserted roles right if and only if it gives no backing child to a filter with a file child |
| ChainRoles.BackingBesideFile | block.c:7464 | a filter with a file child that gets a backing child, after which the assertion fails |
| ChainRoles.SetBackingRights | block.c:3145-3161 | under default rules, after a successful change the new backing link asks for consistent reads at most, and a filter passes on what its users ask |
| ChainRoles.AppendRights | block.c:4935-4962 | the same for the link below a node that was appended |
| ChainRoles.AttachedLink | block.c:2942-2970 | a successful attachment leaves a link from parent to child in the given role with the derived rights |
| AioContextMove.Walk.SetAioContextIgnore | block.c:6765-6842 | each visit re-attaches its node once, follows every link it takes charge of, and terminates with the number of links outside `ignore` |
| AioContextMove.Walk.SetJobContext | blockjob.c:148-164 | a job moves all nodes it uses that are not ignored, then itself |
| AioContextMove.SetAioContext | block.c:6904-6926 | exactly the connected component moves, each node re-attached exactly once, with exactly the jobs that use it; nothing else changes |
| AioContextMove.WalkCovers | block.c:6785-6818 | when the walk is over, the nodes re-attached are exactly the component |
| Jobs.WhereFrom | job.c:38-51 | the table of transitions by its columns: where each status can come from, and that there is no way back |
| JobSafety.AbortLoopWorks | job.c:767-777 | the abort loop finalises the members up to the first that has not completed |
| JobSafety.PrepareWorks | job.c:139-172 | the prepare loop calls everyone up to the first failure and nobody after it |
| JobSafety.AbortWorks | job.c:735-782 | starting a group abort dooms all members, except an initiator that was neither failed nor cancelled |
| JobSafety.FinalizeWorks | job.c:684-714 | a completed member that is doomed or pending is finalised: abort if doomed, commit if not, then clean |
| JobTheorems.StepWorks | job.c:139-946 | no assertion fails on any step, and the invariant is kept |
| JobTheorems.NoAssertionFails | job.c:38-51 | in no run does an assertion fail, whatever happens next |
| JobTheorems.PausesAreCounted | job.c:553-606 | in every state pause_count is 1 if not started plus 1 if paused by the user plus the open drained sections, and an I/O error implies a pause by the user |
| JobTheorems.CourseIsFinal | job.c:245-265 | a completed job stays completed; callbacks are never taken back or repeated after the last ones |
| JobTheorems.FinalisedOnce | job.c:684-714 | each job is finalised at most once, by exactly one of commit and abort followed by clean, commit exactly when its result is 0 |
| JobCourses.ReturnDecides | job.c:908-919 | over every run, the result of a job is what its run function returned: a failure is kept for ever and the job never commits, success is recorded as 0 |
| JobCourses.ResultStays | job.c:648-700 | a result other than 0 is never changed |
| JobCourses.FailureTakesGroup | job.c:735-902 | once job_exit has handled a job whose run failed, its group is aborting and every member is doomed |
| JobCourses.AbortIsTotal | job.c:735-782 | whenever a group is aborting every member is doomed, or everyone was finalised in the step that began the abort |
| JobCourses.ResultIsExplained | job.c:684-714 | a result other than 0 was returned by the run function or by prepare, or the job was cancelled |
| JobCourses.FieldsTellTheRun | job.c:553-606 | in every state, the drained sections of a job are those begun and not ended, it is paused by the user exactly when that was the last word, started exactly when job_start was called, and ready exactly when it became so |
| JobCourses.StopsWhenHeld | job.c:484-506 | at a pause point a job stops exactly when the user or a drained section holds it and it is not cancelled |
| JobCourses.GoesOnAsBefore | job.c:506-508 | a job that goes on is in the state it was in before it stopped |
| JobGroups.AllOrNothing | job.c:735-810 | in a run where no finalisation spares its initiator, no member commits while another aborts |
| JobGroups.SparingMixes | job.c:798-810 | the condition is exact: sparing the initiator always mixes outcomes |
| JobGroups.MixedRunExists | job.c:804-806 | a concrete run of two jobs in which one commits and the other aborts |
| JobGroups.AbortOutcome | job.c:735-782 | a group abort dooms every member, unless it spares the initiator |
| JobGroups.DoomedGroupAborts | job.c:735-782 | once all are doomed nobody ever commits, and whoever is finalised aborts |
| JobGroups.EveryoneCommits | job.c:798-810 | if every prepare returns 0 every member commits |
| JobGroups.EveryoneCommitsAtOnce | job.c:836-860 | the same in the step in which the last member completes, when nobody asked for manual finalisation |
| JobGroups.PendingTogether | job.c:836-860 | a member becomes pending only in the step in which the last member completes, when all have returned 0 and none was cancelled |
| JobGroups.PendingMeansAllSucceeded | job.c:836-860 | while one member is pending all are, with result 0 |
| JobGroups.CancelFailsIff | job.c:932-946 | job_cancel runs into an assertion exactly when the job was never started and is already aborting |
| JobGroups.CancelTwiceFails | job.c:862-864 | two jobs never started: cancelling one of them twice does |
| JobTransaction.JobTxn.Exit | job.c:876-902 | job_exit in place does what the step does, all its assertions hold, and the invariant is kept |
| JobTransaction.JobTxn.Cancel | job.c:932-946 | so does job_cancel, also after run returned and before job_exit |
| JobTransaction.JobTxn.Finalize | job.c:812-819 | so does job_finalize |
| JobTransaction.JobTxn.ContinueAbort | job.c:767-777 | so does the abort loop when the member it waits for has completed |
| JobTransaction.JobTxn.CompletedTxnAbort | job.c:735-782 | both loops of the group abort, in place |
| JobTransaction.JobTxn.CompletedTxnSuccess | job.c:836-860 | waiting, becoming pending together and finalising, in place |
| JobTransaction.JobTxn.PausePoint | job.c:484-512 | job_pause_point in place, up to its yield, does what the step does |
| JobTransaction.JobTxn.RunReturned | job.c:908-919 | so does the end of job_co_entry |
| JobTransaction.JobTxn.UserPause | job.c:573-584 | so does job_user_pause, with its refusals |
| JobTransaction.JobTxn.UserResume | job.c:591-606 | so does job_user_resume |
| JobTransaction.JobTxn.StopOnError | blockjob.c:527-534 | so does stopping on an I/O error |
| Rebase.UndecidedReadsBase | qemu-img.c:3671-3687 | where no layer above the new base holds a byte or ends before it, both chains read the same |
| Rebase.FirstLayerDecides | qemu-img.c:3689-3719 | through a chain, the first layer that holds a byte or ends before it decides; without one it is zero |
| Rebase.CompareBuffers | qemu-img.c:1241-1261 | the prefix of sectors that are alike in being equal or different, and the next one is not |
| Rebase.CopyDifferent | qemu-img.c:3722-3745 | copies the sectors that differ and writes no others; bytes are only ever copied up from the old chain, also when a write fails half-way |
| Rebase.Rebase | qemu-img.c:3600-3748 | at every moment, also when it fails or stalls half-way, the image reads the same through the old chain; at the end it reads the same through the new one, at every offset, for chains of any sizes and for the prefix shortcut; it fails if and only if a call failed, stalls if and only if bdrv_is_allocated_above reported no bytes, writes only unallocated sectors in which the chains differ, as zeros exactly behind the end of the old chain, and reads only bytes that the image does not hold and that the prefix shortcut leaves open |
| SparseDetection.MaskIsRemainder | qemu-img.c:1170 | masking with a power of two less one is the remainder |
| SparseDetection.IsAllocatedSectors | qemu-img.c:1152-1188 | the exact piece: a zero run that reaches over an aligned offset is reported as zero up to the last aligned offset; anything else is reported as allocated, up to the next aligned offset or the end |
| SparseDetection.IsAllocatedSectorsMin | qemu-img.c:1195-1232 | the answer is that for the first run; a zero run is really zero; an allocated part ends only before `min` zero sectors or where nothing but zeros follows, and no stretch of zeros between aligned offsets that is at least as long as the lesser of `min` and the whole begins inside it |
| SparseWrite.MustWrite | qemu-img.c:1840-1862 | what is told to be data holds the beginning of no long enough stretch of zeros; a stretch that begins in a hole ends in it; compressed data is a hole exactly if all of it is zero |
| SparseWrite.ConvertWrite | qemu-img.c:1828-1890 | for every mix of options, and for zero and backing ranges of any length, the target range reads as the buffer, as zero, or as the backing file shows, and nothing else changes; it fails if and only if a write failed; where the target shows zeros anyway, no request touches a long enough stretch of zeros |
| ConvertSource.SelectPart | qemu-img.c:1656-1666 | finds the source that holds the sector, and where it begins |
| ConvertSource.ConvertRead | qemu-img.c:1774-1825 | reads across the borders of the sources; without the salvage option it fails if and only if a read failed; with it, it always succeeds, and a sector is given up as zero only if reading just that sector failed |
| ConvertSource.ConvertCopyRange | qemu-img.c:1892-1921 | copies the range, or in part only right data; it fails if and only if copying a part failed |
| ConvertSource.Iteration.IterationSectors | qemu-img.c:1668-1772 | at least one sector, never more than there are or than the buffer holds, with a true status, also for compressed targets and across the end of the target's backing file; the cached status stays good however far the caller goes on; the driver is asked exactly when it is used up, and a new status is what the last answer means; as many sectors are taken as fit; compressed targets get whole clusters; it fails only without an answer and without the salvage option |
| ConvertSafety.ClaimsAreDisjoint | qemu-img.c:1943-1967 | in every interleaving of any number of workers, claims held at one time are non-empty and do not overlap |
| ConvertSafety.ClaimsAscend | qemu-img.c:1943-1967 | of two claims made at any times in a run, the earlier range ends before the later one begins |
| ConvertSafety.EverySectorClaimedOnce | qemu-img.c:1943-1967 | when success is reported every sector has been claimed, exactly once in the whole run |
| ConvertSafety.SuccessIsCopy | qemu-img.c:1923-2040 | when success is reported the target reads as the concatenated sources |
| ConvertSafety.ReadsFit | qemu-img.c:1780 | what convert_co_read is asked for always fits into the buffer |
| ConvertSafety.WritesAreAllowed | qemu-img.c:1998-2012 | at every moment at which convert_co_write is under way, also after a failure elsewhere, all it relies on holds, and the step that ends it leaves what it leaves |
| ConvertSafety.StepInv | qemu-img.c:1923-2040 | every step keeps: a sector is copied, or untouched and still to be written |
| ConvertOrder.ReleaseWakes | qemu-img.c:2015-2029 | finishing a range enters exactly the worker parked at its end |
| ConvertOrder.ParkedIsNotStuck | qemu-img.c:1989-1996 | while a worker is parked, also after an error elsewhere, another worker can take a step |
| ConvertOrder.RunIsBounded | qemu-img.c:1923-2040 | no run is longer than a measure of its first state |
| ConvertOrder.EveryoneComesHome | qemu-img.c:1923-2040 | a run that cannot go on has every worker gone: whoever was parked was entered again |
| ConvertOrder.ConversionEnds | qemu-img.c:2031-2039 | such a run has ended in failure, or in success with the target a copy of the sources |
| ConvertCourses.WritesAscend | qemu-img.c:1989-2029 | with in-order writing, of two writes that begin in a run the earlier range ends before the later one begins, unless they are attempts at the same range |
| ConvertCourses.OneWriterAtATime | qemu-img.c:1989-2029 | with in-order writing, two workers never write at the same time |
| ConvertCourses.WriteBegan | qemu-img.c:1998-2012 | every write that is under way began in such a step, with the same range |
| ConvertCourses.ClaimTakesAll | qemu-img.c:1952-1967 | a claim takes all the sectors of one status, except that zeros which have to be written fit the buffer |
| ConvertCourses.FullyWritten | qemu-img.c:1981-1987 | over every run without sparse detection, no worker writes zeros that could be left out: they have become data |
| ConvertCourses.FailedIff | qemu-img.c:1923-2040 | over every run, the conversion has failed if and only if a status query, a read or a write has, and this is never forgotten |
| ConvertCourses.NoCopyAfterFailure | qemu-img.c:1999-2009 | after copy offloading has failed once, nobody chooses it again |
| ConvertCourses.OffloadingReadsNothing | qemu-img.c:1968-1979 | as long as copy offloading works, data is not read |
| GdbPacket.HexThereAndBack | gdbstub.c:583-603 | hextomem undoes memtohex |
| GdbPacket.PutPacketBinary | gdbstub.c:648-664 | the frame's checksum, added up over signed chars, is the sum of the bytes modulo 256 |
| GdbPacket.MemToX | gdbstub.c:692-709 | escapes exactly the four reserved bytes |
| GdbPacket.EscapesByValue | gdbstub.c:692-709 | the escapes of the four reserved bytes, by value; every other byte stands for itself |
| GdbPacket.FlipChangesOneBit | gdbstub.c:692-709 | escaping a byte changes bit 5 and no other |
| GdbPacket.DigitsByValue | gdbstub.c:562-582 | the digits by value, also in upper case |
| GdbPacket.NeverOverruns | gdbstub.c:2962-3071 | over every byte stream the buffer index stays at most 4095 |
| GdbParser.Stub.ReadByte | gdbstub.c:2962-3071 | one byte, in place on the line buffer, does what the parser function says and stays within the buffer; a packet is handed over as the text before a terminating zero |
| GdbParser.AckOnlyOnChecksum | gdbstub.c:2962-3070 | over every stream, a byte is answered with an ACK if and only if it is the second hex digit after an end mark, in a packet begun by a DOLLAR, and the two digits are the sum, modulo 256, of the bytes of the packet that count; what is handed over is at most 4095 bytes |
| GdbParser.PacketIsParsed | gdbstub.c:2962-3070 | a framed packet of literals, escapes and runs is answered if and only if it fits, with an ACK and its meaning if and only if the checksum agrees |
| GdbParser.RoundTrip | gdbstub.c:639-709 | what the encoder sends for any data, an idle parser turns back into exactly that data with an ACK, if and only if it is at most 4095 bytes |
| GdbParser.EscapedHash | gdbstub.c:3032-3070 | by value: the frame whose only content is an escaped end mark hands over that end mark |
| GdbParser.RunOfZeros | gdbstub.c:3010-3070 | by value: the digit 0 with the smallest run length hands over four of it, with the checksum in either case |
| GdbParser.EscapeBeforeEnd | gdbstub.c:3008-3070 | an escape mark right before the end mark stands for nothing but counts for the checksum |
| GdbParser.NoiseIsSkipped | gdbstub.c:2996-3050 | inside a packet, an end mark without two digits, a run with a bad length and a run with nothing to repeat are passed over, and of their bytes only the mark of the run counts for the checksum |
| GdbParser.AnsweredIff | gdbstub.c:2962-3070 | a packet of literals, escapes and runs with the right checksum is answered with its meaning if and only if that is shorter than 4095 bytes, or 4095 bytes long and not ending in a run |
| GdbParser.RunLimitIsOneShort | gdbstub.c:3019-3024 | the same 4095 bytes, fed one by one, are acknowledged; fed with a run for the last three they are dropped |
| GdbParser.RunFitsIff | gdbstub.c:3019-3024 | a packet that ends in a run after a part that fits is answered by the parser exactly when the run ends before the last usable byte |
| GdbDialogue.PutPacketUser | gdbstub.c:639-678 | in user mode one copy of the frame is sent for each answer up to the first acknowledgement or failure |
| GdbDialogue.CopiesAreUnderstood | gdbstub.c:639-709 | every copy sent is turned back into the same data by the other side |
| GdbDialogue.Session.ReadByte | gdbstub.c:2931-3071 | one byte through the gate for unacknowledged replies and the run state, in place |
| GdbDialogue.ResendUntilAck | gdbstub.c:2936-2954 | until an acknowledgement or a new packet, a reply is sent again once for every negative acknowledgement, and nothing reaches the parser |
| GdbDialogue.Dialogue | gdbstub.c:2931-3071 | any list of requests, each encoded, sent and its reply acknowledged, is acknowledged and answered in order, with nothing else sent, and the stub listens again |
| VCont.GetCpu | gdbstub.c:816-857 | finds the one CPU a selector means: first attached, first of an attached process, or the thread with the number, if its process is attached |
| VCont.OnlyAttachedMatch | gdbstub.c:787-857 | selectors match CPUs of attached processes only |
| VCont.LeftmostMeaning | gdbstub.c:1275-1317 | the leftmost entry whose selector matches decides |
| VCont.PacketIsRead | gdbstub.c:1149-1270 | every well-formed packet is accepted with exactly its entries, in order, and its last signal; selectors may be left out, name a thread of the default process, or name a process and a thread, and the largest number stands for all |
| VCont.SelectorsByValue | gdbstub.c:1149-1199 | selectors by value: a thread alone belongs to process 1, the process -1 is every process, and numbers are cut to 32 bits |
| GdbProcesses.CreateProcesses | gdbstub.c:3434-3485 | one process for each cluster in the order of numbers, and a default process with the next number; an assertion fails if and only if a cluster has one of the two largest numbers |
| GdbProcesses.OneProcessPerCluster | gdbstub.c:711-743 | with the processes so created every CPU has a process, and two CPUs have the same one exactly if they are in the same cluster or both in none |
| GdbProcesses.CreatedIsValid | gdbstub.c:711-743 | such a machine meets what the handling of vCont relies on |
| VCont.NullProcessIff | gdbstub.c:1286-1288 | reading a packet comes to a process that was not found exactly when not all processes it selects exist, as far as it is read |
| VCont.MissingProcessIff | gdbstub.c:1286-1288 | a well-formed packet does so if and only if an entry selects a process that does not exist and all entries before it are acceptable |
| VCont.MissingProcessExample | gdbstub.c:1286-1288 | a packet that continues all threads of process 5 where there is only process 1 |
| VCont.Server.HandleVCont | gdbstub.c:1201-1327 | an accepted packet gives every CPU the action of its leftmost matching entry; system mode resumes exactly those CPUs if the machine can start, user mode lets all CPUs go on and tells only the stepping ones apart; a packet that is not accepted, or that selects a missing process, changes nothing |

## Left out

- LATX translation passes: their source is not part of this repository.
- Driver callbacks, `bdrv_drained_*`, BlockBackend internals, QDict and option parsing: contracts only, or not modelled.
- AioContext locking and polling: steps run one at a time.
- BlockOperations.AttachChildNoperm: bringing both sides into one AioContext is a parameter, and the parent must not be in the subtree of the child (GraphShape.AttachCanCycle).
- bdrv_delete: a node whose count drops to zero stays in the graph of the model.
- bdrv_can_set_aio_context and the case of a component that is partly in the new context already.
- bdrv_root_attach_child, bdrv_detach_child, freezing and unfreezing of chains, and the rest of reopen: they would add members of the same kind.
- BlockOperations.SetBackingNoperm: whether the new backing node already inherited from the overlay is a parameter; bdrv_refresh_limits is not modelled.
- BlockOperations.ReopenBacking: agreement of the AioContexts is a parameter; a name that no node has is not modelled.
- Jobs: creation, early failure, sleeping and timers, reference counts and job_complete are not modelled; membership is fixed from the start.
- JobTheorems.StepWorks: job_cancel on a member that was never started is a step only while it has not completed, as job_user_cancel ensures (JobGroups.CancelFailsIff); for unstarted members of an aborting group only safety is claimed.
- Rebase.Rebase: changing the backing file name is not modelled.
- ConvertSource.ConvertCopyRange: copy offloading that fails is assumed to have copied right data only.
- ConvertWorkers: without the salvage option; a write is one step with an outcome; other workers' writes go to disjoint ranges.
- convert_do_copy: the first counting pass, progress output and bitmaps.
- GdbPacket.PutPacketBinary: one pass of the sending loop; the loop is GdbDialogue.PutPacketUser.
- GdbParser.Stub.ReadByte: the parser behind the gate; the gate is in GdbDialogue.Session.ReadByte.
- VCont.Server.HandleVCont: what happens after a missing process is used is not modelled; nothing has been resumed by then.
- Command line, progress and the other programs of the repository.
