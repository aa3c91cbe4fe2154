# Process creation, the per-process store and their neighbours, modelled in Dafny

This project models the parts of the kernel tree that create processes and share their resources,
together with the small components that the patches add, and proves what they keep over every input,
every run and every interleaving.

| file | what it models |
|---|---|
| `ProcessTree.dfy`, `GroupTree.dfy` | the parent, sibling and thread lists that `copy_process` links, and the stackless `walk_process_tree` |
| `Vfork.dfy` | the vfork completion on the parent's stack: `kernel_clone`, `wait_for_vfork_done`, `mm_release`, `complete_vfork_done` |
| `CopyProcess.dfy` | the order in which `copy_process` takes its resources and the ladder of labels that gives them back |
| `AddressSpace.dfy`, `AreaTree.dfy` | `dup_mmap` and `dup_mm` with their accounting, links and failure labels |
| `CloneSharing.dfy` | what tasks share after any run of concurrent clones, failed ones included, of idle tasks, exec and exit |
| `StackCache.dfy` | the per-CPU cache of kernel stacks, with CPU hot-unplug |
| `Unshare.dfy` | `ksys_unshare` on the fs_struct and the descriptor table, next to clones and exits |
| `KvConcurrent.dfy`, `KvStore.dfy` | the key-value store under concurrent calls, and its sequential code |
| `KvRefcount.dfy` | the patched, reference-counted store over clones and exits |
| `Vdso.dfy` | placement of the vDSO, the `[vtask]` fault handler, its reader, and `map_vdso` |
| `RamfsPath.dfy` | the ramfs sync path |
| `MaxThreads.dfy` | `set_max_threads` |
| `SocketFair.dfy` | the per-thread socket limit |
| `Lists.dfy`, `Holders.dfy` | sequences without duplicates; counting the holders of a reference |

**How concurrency is modelled.** A concurrent component is a state machine: `Enabled` says which steps
are possible, `Do` carries one out, and `Exec` is the state after a list of steps, so a theorem about
`Exec(acts)` is a theorem about every interleaving. A spinlock section that touches nothing but its own
data, an atomic operation, an xchg and a cmpxchg are one step each. Touching or freeing something that
is not live sets `crashed`; every safety theorem includes `!crashed`. Object numbers may be used again
after a free, as the allocator would.

**What stands for code that is not modelled.** Allocations, security hooks, cgroups, namespaces, page
tables and the like are parameters that say whether the call succeeds, or nondeterministic steps.
Sequential code that updates objects in place is a class or a method on an array with a `modifies`
clause, proved against a function of the old state.

**Where code and comments differ, the model follows the code.**

- `build_relative_dir` says that it returns an empty string for the root; it returns a dot, and the
  empty string for a file in the root directory.
- The same function cuts a path silently at 32 names. `RamfsPath.SamePathIff` gives the exact
  consequence and `RamfsPath.Collision` an example.
- The bucket is commented as `k % 1024`; the code masks. For a negative key these differ in C.
- The option text of the socket limit says that it only acts once configured. A new task starts with
  a limit of 1024. The patch also has a second, conflicting body of `socket_fairness_init`; the one in
  the header is modelled.
- The reader of `[vtask]` takes that area to be four pages long. `Vdso.ReaderFindsHeader` says for
  which sizes of task_struct that is true.
- `vdso_addr` is asked for room for `[vvar]` and the text only; `Vdso.VtaskFitsIff` says exactly when the
  three areas stay below the bound it computes, and `Vdso.VtaskOverruns` that no start and length are safe.
- The socket counter is described as the number of sockets a thread has open. It never counts accepted
  sockets. `SocketFair.NonNegativeIff` says exactly when it is the number of open sockets counted for the task.
- A clone that fails after the kv step keeps the store (`CopyProcess.Kernel.CopyProcess`) or, in the
  patched version, one count of it (`KvRefcount.LostForever`). There is no label for either.

## Model

| member | source | states |
|---|---|---|
| `ProcessTree.ThreadLinked` | linux-5.15.178/kernel/fork.c:2349-2427 | linking a thread keeps the forest well formed: leaders lead themselves, thread lists hold exactly the group without repetition, child lists exactly the processes with that parent; the thread has the caller's real parent and the caller's group |
| `ProcessTree.ProcessLinked` | linux-5.15.178/kernel/fork.c:2349-2413 | the same for a new process: its real parent is the caller, with CLONE_PARENT the caller's real parent, and it leads a group of its own |
| `ProcessTree.ProcessTable.LinkNewTask` | linux-5.15.178/kernel/fork.c:2289-2427 | the in-place linking says whose child the task is and in which group, and what it does to every walk that is not stopped, from any task and for any answers: the calls are those made before, in the same order, and one more on a new process, behind its siblings, exactly when its parent's group is where the walk starts or is visited and answered positively; a thread changes no walk and a walk from it is one from the caller |
| `ProcessTree.Built` | linux-5.15.178/kernel/fork.c:2289-2427 | every sequence of clones from init_task builds a well-formed forest; for its last clone, whose child the new task is and in which group |
| `ProcessTree.WalkProcessTree` | linux-5.15.178/kernel/fork.c:2892-2922 | the goto-driven walk terminates and makes exactly the calls, in exactly the order and with exactly the data, of the recursive preorder, for every forest and every stateful visitor |
| `ProcessTree.WalkVisitsExactly` | linux-5.15.178/kernel/fork.c:2892-2922 | in every forest that clones can build no task is visited twice; with answers that depend on the task and never stop, exactly the processes whose ancestors below the start were all answered positively are visited |
| `ProcessTree.CloneExtendsWalk` | linux-5.15.178/kernel/fork.c:2349-2427 | what one more clone does to a walk over a forest that clones have built, for every visitor that does not stop it, whatever data it carries along |
| `GroupTree.ResumeSkips` | linux-5.15.178/kernel/fork.c:2901-2911 | an answer of zero continues with the next sibling, which is what is left of the recursion |
| `GroupTree.ResumeDescends` | linux-5.15.178/kernel/fork.c:2902-2907 | a positive answer continues in the child's thread group |
| `GroupTree.ResumeGoesUp` | linux-5.15.178/kernel/fork.c:2914-2919 | at the end of a group the child's own links lead back to where the recursion would return |
| `GroupTree.CalledOnce` | linux-5.15.178/kernel/fork.c:2892-2922 | no visitor, however stateful, is called twice on one node |
| `GroupTree.CallsAreTheReached` | linux-5.15.178/kernel/fork.c:2892-2922 | a visitor that never stops is called on exactly the reached nodes |
| `GroupTree.BelowOneMore` | linux-5.15.178/kernel/fork.c:2892-2922 | a leaf hung into a tree changes a walk by nothing but the call on it |
| `GroupTree.NewIsMetBelow` | linux-5.15.178/kernel/fork.c:2892-2922 | and that call is made exactly when its group is walked through, after the calls on the nodes in front of it |
| `Vfork.StepKeeps` | linux-5.15.178/kernel/fork.c:1351-1430 | every step of parent or child keeps the pair invariant between child, caller and stack frame: as long as the caller waits, the child has the completion, is completing it, or has |
| `Vfork.VforkSafe` | linux-5.15.178/kernel/fork.c:1351-1383 | over every interleaving, killed parents included: no dead frame and no freed task_struct is touched, every pointer to a completion leads to a live frame, complete() ran at most once on it, and a caller keeps its child's task_struct alive |
| `Vfork.UnkilledWaitMeansReleased` | linux-5.15.178/kernel/fork.c:2631-2646 | a wait that was not killed returns only after the child released its address space |
| `Vfork.ReleaseWakesCaller` | linux-5.15.178/kernel/fork.c:1428-1429 | over every run: once the child of a waiting caller has been through mm_release, whatever it does since, the completion is done and the wait can return |
| `Vfork.WaitCanReturn` | linux-5.15.178/kernel/fork.c:1351-1383 | from every reachable state with a waiting caller, wherever its child is, a run in which the child goes through mm_release and the wait returns without a kill |
| `Vfork.VforkReturns` | linux-5.15.178/kernel/fork.c:2631-2646 | a vfork from the call to the return of its wait |
| `Vfork.NothingRefersToADeadFrame` | linux-5.15.178/kernel/fork.c:1364-1383 | once the caller has left its frame, killed or not, no task points to it |
| `Vfork.CompleteKeeps` | linux-5.15.178/kernel/fork.c:1351-1362 | complete() runs on a live frame on which it has not run before |
| `CopyProcess.Kernel.CopyProcess` | linux-5.15.178/kernel/fork.c:1943-2514 | for all flags and every failing call: which flags are refused and which calls decide success for which flags; on failure all counts, allocators, lists, locks and the delayed-signal node are back at their entry values, a new process's kv store excepted, exactly when the failure came after it; on success, flag by flag, what each pointer of the child leads to and which counts have gone up by one, and nothing else has changed |
| `CopyProcess.OkByFlags` | linux-5.15.178/kernel/fork.c:1960-2380 | all stages succeed exactly when the flags are acceptable and every call that they ask for succeeds |
| `CopyProcess.Outcome` | linux-5.15.178/kernel/fork.c:1531-1699 | in the committed state each count has gone up exactly under the flags that share the object |
| `CopyProcess.Kernel.Unwind` | linux-5.15.178/kernel/fork.c:2453-2513 | a jump to any label releases, in reverse order, exactly the stages below it |
| `CopyProcess.Kernel.Rung` | linux-5.15.178/kernel/fork.c:2453-2513 | the code between two labels undoes exactly one stage |
| `CopyProcess.Kernel.AcquireEarly` | linux-5.15.178/kernel/fork.c:2026-2195 | jumps to the label that matches what was taken, or takes all of the first stages |
| `CopyProcess.Kernel.AcquireShared` | linux-5.15.178/kernel/fork.c:2193-2216 | the same for the eight copy helpers; the child's pointers are set up as far as the jump says |
| `CopyProcess.Kernel.CopyFiles` | linux-5.15.178/kernel/fork.c:1551-1573 | with no table nothing, with CLONE_FILES one count more, else a copy; fails only where the copy does; the inherited pointer stays in every other case; a failure changes no count |
| `CopyProcess.Kernel.CopyFs` | linux-5.15.178/kernel/fork.c:1531-1549 | shares under the fs lock unless in exec, else copies; the lock is released on every path and a failure changes no count |
| `CopyProcess.Kernel.CopySighand` | linux-5.15.178/kernel/fork.c:1601-1624 | one count more or an object of its own; a failed allocation stores NULL and changes no count |
| `CopyProcess.Kernel.CopySignal` | linux-5.15.178/kernel/fork.c:1650-1699 | a thread takes nothing; a process takes an object of its own or fails with no count changed |
| `CopyProcess.Kernel.CopyMm` | linux-5.15.178/kernel/fork.c:1491-1529 | clears the inherited pointer, then shares, duplicates or fails with no count changed |
| `CopyProcess.Kernel.CopyIo` | linux-5.15.178/kernel/fork.c:1575-1599 | shares, makes a context and puts the extra reference, or does neither; a failure changes no count |
| `CopyProcess.Kernel.AcquirePid` | linux-5.15.178/kernel/fork.c:2217-2256 | the same for the thread, the pid and the pidfd |
| `CopyProcess.Kernel.AcquireLate` | linux-5.15.178/kernel/fork.c:2263-2380 | the same for the kv store, the cgroup and the two locks |
| `CopyProcess.Kernel.Attach` | linux-5.15.178/kernel/fork.c:2391-2432 | under both locks: nr_threads, live and sigcnt go up for a thread, the number of tasks unless the child is idle, the number of forks always |
| `CopyProcess.Totals` | linux-5.15.178/kernel/fork.c:2380-2432 | all stages together, and then the attachment, make exactly the committed state |
| `AreaTree.RebalanceKeepsOrder` | linux-5.15.178/kernel/fork.c:607-616 | rotations anywhere in the tree keep its in-order |
| `AreaTree.LinkBehindLast` | linux-5.15.178/kernel/fork.c:612-615 | in whatever shape the tree is, the right slot of its last area is free and linking there appends |
| `AddressSpace.LinkArea` | linux-5.15.178/kernel/fork.c:607-616 | appends one area to list and tree, keeping links, order and count consistent |
| `AddressSpace.PrepareArea` | linux-5.15.178/kernel/fork.c:549-578 | charge, copy, policy and anon_vma are all done, or through the failure labels nothing is left of any of them |
| `AddressSpace.CopyArea` | linux-5.15.178/kernel/fork.c:544-624 | one round of the loop for an area that is copied: the copy has the place, the size and the flags of the original, but is not locked |
| `AddressSpace.CopyAreas` | linux-5.15.178/kernel/fork.c:537-625 | the loop copies a prefix, complete on success, and pays for exactly what is linked |
| `AddressSpace.DupMmap` | linux-5.15.178/kernel/fork.c:497-644 | on every exit the copies correspond in ascending order to exactly the areas met so far without VM_DONTCOPY, on success to all of them, each with the original's place, size and flags except the lock flags, which no copy has; links, tree order, map_count and total_vm are right; the charge equals the accounted pages that are linked and both locks are released |
| `AddressSpace.PagesSplit` | linux-5.15.178/kernel/fork.c:537-548 | the pages of a list are those copied and those skipped, so total_vm ends as the page sum of the copy |
| `AddressSpace.ExpectedCopies` | linux-5.15.178/kernel/fork.c:537-624 | the specification of the loop, stated apart from it: an ascending map from the copies onto exactly the areas to be copied, flag by flag |
| `AddressSpace.ReleaseAreas` | linux-5.15.178/kernel/fork.c:1480-1486 | giving the half-built address space up returns every charge |
| `AddressSpace.DupMm` | linux-5.15.178/kernel/fork.c:1454-1489 | complete in the sense above, consistent and paid for on success; the kernel's books unchanged on every failure path |
| `CloneSharing.StepKeeps` | linux-5.15.178/kernel/fork.c:1601-1664 | every step of every concurrent clone, of its unwinding, of exec and of exit keeps the sharing invariant |
| `CloneSharing.SharingFollowsGroups` | linux-5.15.178/kernel/fork.c:1970-1998 | over every run of accepted and failed clones, idle tasks, exec and exit, for any two tasks: same signal_struct means same tgid, sighand and kv store; same kv store means same signal_struct, and so does same tgid unless it is 0; same signal_struct means same address space until one of the two has given its up in exit; so does same sighand, unless one of the two is between the two calls of exec that replace them |
| `CloneSharing.StoreIffTgid` | linux-5.15.178/kernel/fork.c:2263-2268 | two tasks, one of which has a tgid other than 0, share a kv store exactly when they share a tgid |
| `CloneSharing.IdleSharesTgidOnly` | linux-5.15.178/kernel/fork.c:2526-2540 | a run with an idle task: it has tgid 0 like the boot task, but a signal_struct and a store of its own, so the exception for 0 is needed |
| `CloneSharing.MidExecDiffers` | linux-5.15.178/kernel/fork.c:1443-1447 | a run in which two tasks share a sighand while one has a new address space already, so the exception for exec is needed |
| `CloneSharing.CountsAreSharers` | linux-5.15.178/kernel/fork.c:1491-1529 | sighand.count and mm_users are the number of tasks and unfinished children that point to the object, a sighand, a signal_struct and an address space are live exactly as long as one of these points to it, and nothing is used after its free |
| `CloneSharing.ThreadsAreCounted` | linux-5.15.178/kernel/fork.c:2419-2428 | nr_threads is the number of tasks with that signal_struct, which unless the tgid is 0 is the number with that tgid; live is the number of those counted in it |
| `CloneSharing.LiveAreTheUnexited` | linux-5.15.178/kernel/fork.c:1662-1664 | the tasks counted in live are exactly those that have not begun to exit |
| `CloneSharing.AttachKeeps` | linux-5.15.178/kernel/fork.c:2289-2428 | attaching a thread, a process or an idle task under tasklist_lock keeps the invariant |
| `CloneSharing.UnwindKeeps` | linux-5.15.178/kernel/fork.c:2463-2482 | so does each label of the unwinding |
| `CloneSharing.ExitMmKeeps` | linux-5.15.178/kernel/fork.c:1146-1152 | so does giving up the address space in exit, the last user freeing it |
| `CloneSharing.ReapKeeps` | linux-5.15.178/kernel/fork.c:1626-1636 | so does the end of a task, a leader going only after its threads, the last holder of a sighand freeing it |
| `CloneSharing.CloneCanSucceed` | linux-5.15.178/kernel/fork.c:2202-2428 | in every reachable state every task in user space can carry out every accepted clone, and what the new task then has |
| `CloneSharing.ThreadsShareForksDoNot` | linux-5.15.178/kernel/fork.c:1491-1529 | a run in which a thread shares its creator's address space and a forked process has a copy |
| `CloneSharing.LastExitFrees` | linux-5.15.178/kernel/fork.c:1146-1152 | a run in which a process execs and exits, after which only the boot task's objects are live |
| `StackCache.StepKeeps` | linux-5.15.178/kernel/fork.c:200-302 | every step of allocation, task duplication, release and CPU hot-unplug keeps each live stack in one place |
| `StackCache.ExactlyOnePlace` | linux-5.15.178/kernel/fork.c:200-302 | over every interleaving each live stack is in exactly one task or slot, whatever is in a task or slot is live, nothing is freed twice or used after a free, and a CPU has at most two |
| `StackCache.HandedOutClean` | linux-5.15.178/kernel/fork.c:219-264 | a stack that is handed out, new or reused, is all zero and nobody else's |
| `StackCache.FreesItsOwn` | linux-5.15.178/kernel/fork.c:902-993 | free_thread_stack acts on the task's own stack although the parent's task_struct was once copied over the field |
| `StackCache.DrainedStaysEmpty` | linux-5.15.178/kernel/fork.c:200-216 | the drained slots of a CPU that is down stay empty |
| `StackCache.ReachesClobbered` | linux-5.15.178/kernel/fork.c:902-921 | a run in which the caller's task_struct has overwritten the field of a task that has a stack |
| `StackCache.ReusesDirty` | linux-5.15.178/kernel/fork.c:226-240 | a run in which a stack taken out of a slot is dirty, so that clearing it matters |
| `Unshare.Close` | linux-5.15.178/kernel/fork.c:3072-3088 | one ordered pass gives the least set of flags closed under all four implications |
| `Unshare.CloseIsFixpoint` | linux-5.15.178/kernel/fork.c:3072-3088 | a second pass changes nothing |
| `Unshare.AcceptedIff` | linux-5.15.178/kernel/fork.c:2982-3010 | which flags as passed are accepted; a new user namespace too needs a thread group of one |
| `Unshare.StepKeeps` | linux-5.15.178/kernel/fork.c:3015-3178 | every step of unshare, clone and exit by any task keeps counts and pointers in order |
| `Unshare.CountsAreReferences` | linux-5.15.178/kernel/fork.c:3098-3178 | in every reachable state, inside calls too, fs.users and files.count are the number of pointers, and an fs_struct at zero is held by exactly the one task that will free it |
| `Unshare.CountsAreUsers` | linux-5.15.178/kernel/fork.c:3098-3178 | between calls every live object has a user and counts exactly its users, so copies that were not installed and objects without a user have been freed |
| `Unshare.SuccessUnshares` | linux-5.15.178/kernel/fork.c:3015-3049 | a call that reports success leaves the caller alone on what it asked to unshare, though the count was read without a lock |
| `Unshare.CallKeepsItsWord` | linux-5.15.178/kernel/fork.c:3059-3178 | over every run, for a call that returns and the step at which it was made: after success the caller is alone on the fs_struct if the flags had CLONE_FS, CLONE_NEWNS or CLONE_NEWUSER and on the table if they had CLONE_FILES, and points to the same object as at the call otherwise; after a failure it points to both as before |
| `Unshare.CallCanSucceed` | linux-5.15.178/kernel/fork.c:3059-3178 | in every reachable state every call with acceptable flags can come to report success |
| `Unshare.SharesThenSplits` | linux-5.15.178/kernel/fork.c:3015-3049 | a run in which two tasks share both objects and, after a call with CLONE_FS, the table only |
| `Unshare.ReturnHoldsNothing` | linux-5.15.178/kernel/fork.c:3163-3178 | on every exit path the call holds no copy and nothing left to free |
| `Unshare.FreedWhenUnused` | linux-5.15.178/kernel/fork.c:3138-3176 | an fs_struct is freed only when no task points to it |
| `Unshare.FieldsStable` | linux-5.15.178/kernel/fork.c:3135-3153 | nobody but the task itself, at its swap or its exit, changes which objects it points to |
| `KvConcurrent.StepKeeps` | linux-5.15.178/kernel/kv_store.c:23-106 | lock, scan, update, insert, free and unlock steps of any calls keep every bucket's nodes live, in the right bucket and with distinct keys, and no call in a critical section has a freed node |
| `KvConcurrent.StepRefines` | linux-5.15.178/kernel/kv_store.c:23-106 | each step is an atomic operation on one map at its effect point, and invisible otherwise |
| `KvConcurrent.RunRefines` | linux-5.15.178/kernel/kv_store.c:23-106 | along every run the heap represents the map that the effects so far make |
| `KvConcurrent.Linearizable` | linux-5.15.178/kernel/kv_store.c:23-81 | every returned call took effect exactly once, between its invocation and its return, and answered what the atomic map answers there: -1 for an absent key, -1 and no change for a failed allocation |
| `KvConcurrent.RealTimeOrder` | linux-5.15.178/kernel/kv_store.c:23-81 | calls that do not overlap take effect in the order they happened |
| `KvConcurrent.CleanupFreesOnce` | linux-5.15.178/kernel/kv_store.c:86-106 | a cleanup frees exactly the nodes its bucket had when it was locked, each once |
| `KvConcurrent.CleanupEmpties` | linux-5.15.178/kernel/kv_store.c:98-105 | without inserts the buckets a cleanup has passed stay empty |
| `KvConcurrent.CleanupEndsEmpty` | linux-5.15.178/kernel/kv_store.c:86-106 | a finished cleanup with no insert since its start leaves the empty map |
| `KvConcurrent.CleanupMoves` | linux-5.15.178/kernel/kv_store.c:98-105 | a cleanup moves on by one bucket at each unlock, which finds that bucket empty, and at no other step |
| `KvConcurrent.CallCanReturn` | linux-5.15.178/kernel/kv_store.c:23-106 | in every reachable state every call, a cleanup too, can be run to its return, after whoever has the lock it needs |
| `KvStore.HashIsMask` | linux-5.15.178/kernel/kv_store.c:26 | masking a 32-bit key, negative ones included, is the Euclidean remainder mod 1024 |
| `KvStore.KvStore.constructor` | linux-5.15.178/kernel/kv_store.c:111-126 | a new store maps nothing |
| `KvStore.KvStore.WriteKv` | linux-5.15.178/kernel/kv_store.c:23-57 | updates exactly one key, or returns -1 and changes nothing when a new node cannot be allocated |
| `KvStore.KvStore.ReadKv` | linux-5.15.178/kernel/kv_store.c:61-81 | the value of the key, or -1 |
| `KvStore.KvStore.Cleanup` | linux-5.15.178/kernel/kv_store.c:86-106 | for the main thread frees every node once and leaves the store empty; for others does nothing |
| `KvRefcount.StepKeeps` | syscall/kv_syscall/kv_store.patch:130-276 | every step of clones, operations and exits keeps counts, lists and the sweep in order |
| `KvRefcount.StoresOutliveSharers` | syscall/kv_syscall/kv_store.patch:236-276 | over every run the store of every task that has not exited is live, its count is at least the number of such tasks and equal to it when no clone failed late or is under way, and no store or node is used or freed after its free |
| `KvRefcount.LastExitFrees` | syscall/kv_syscall/kv_store.patch:253-276 | an exit starts to free the store if and only if it is the last sharer, no clone is pending and none was lost |
| `KvRefcount.SweptIsEmpty` | syscall/kv_syscall/kv_store.patch:265-275 | when the store itself is freed every node of it has been freed |
| `KvRefcount.FreeingCanFinish` | syscall/kv_syscall/kv_store.patch:265-275 | from every reachable state a task that frees a store can by its own steps free every node of it and the store, and changes no other store |
| `KvRefcount.NoOtherLeak` | syscall/kv_syscall/kv_store.patch:130-136 | a live store has a sharer, a child being built, a task freeing it, or a lost count |
| `KvRefcount.LostForever` | syscall/kv_syscall/kv_store.patch:130-136 | after one clone that failed behind the kv step the store is never freed, whatever happens next |
| `Vdso.VdsoAddrIs` | linux-5.15.178/arch/x86/entry/vdso/vma.c:410-432 | the address is random mod (slots + 1) pages above the rounded start: no 32-bit or 64-bit operation loses a bit |
| `Vdso.Placement` | linux-5.15.178/arch/x86/entry/vdso/vma.c:410-432 | page aligned, not below the rounded start, and in the random branch ending at or below the PMD bound and the map window |
| `Vdso.BoundIsLeast` | linux-5.15.178/arch/x86/entry/vdso/vma.c:420-423 | the bound is the least PMD boundary at or above the rounded start plus len, or the map window when that boundary is not below it |
| `Vdso.EverySlot` | linux-5.15.178/arch/x86/entry/vdso/vma.c:427-429 | the addresses that can be returned are exactly the page slots in range |
| `Vdso.TaskByte` | linux-5.15.178/arch/x86/entry/vdso/vma.c:238-280 | through the page-wise fault handler, byte d of the task is found page_offset + d after the header page, or SIGBUS, exactly by its distance from the end |
| `Vdso.WholeTaskVisible` | linux-5.15.178/arch/x86/entry/vdso/vma.c:236-280 | the whole task_struct can be read if and only if it does not straddle the last page of the area |
| `Vdso.ReaderFindsHeader` | linux-5.15.178/arch/x86/entry/vdso/vgetinfo.c:11-24 | the reader's formula hits the header page if and only if the task_struct has more than two and at most three pages |
| `Vdso.ReaderFindsTask` | linux-5.15.178/arch/x86/entry/vdso/vgetinfo.c:17-24 | then the pointer it returns leads to the bytes of the task |
| `Vdso.VtaskFitsIff` | linux-5.15.178/arch/x86/entry/vdso/vma.c:443-448 | for every random number: the three areas stay below the bound if and only if the random branch is taken and leaves as many slots above the address as `[vtask]` has pages |
| `Vdso.VtaskOverruns` | linux-5.15.178/arch/x86/entry/vdso/vma.c:443-448 | so for every start and length some random number makes them pass the bound |
| `Vdso.AreasTile` | linux-5.15.178/arch/x86/entry/vdso/vma.c:325-328 | the three areas tile their range without a gap or an overlap |
| `Vdso.Mm.MapVdso` | linux-5.15.178/arch/x86/entry/vdso/vma.c:301-396 | all three areas are mapped and the context set, or after any failure mappings and context are as before; the lock is released either way |
| `RamfsPath.Strcat` | memctrl/ramfs/ramfs.patch:86-87 | appends when there is room |
| `RamfsPath.ClimbUp` | memctrl/ramfs/ramfs.patch:67-72 | collects the names up to the root, at most 32, and the length they need |
| `RamfsPath.Append` | memctrl/ramfs/ramfs.patch:79-88 | writes the directory part without ever passing the end of the measured buffer |
| `RamfsPath.BuildRelativeDir` | memctrl/ramfs/ramfs.patch:57-96 | returns the directory part of the position, a dot for the root, or nothing when memory runs out |
| `RamfsPath.PathRoundTrip` | memctrl/ramfs/ramfs.patch:144-147 | the sync path can be split back into the names of the position |
| `RamfsPath.SamePathIff` | memctrl/ramfs/ramfs.patch:57-88 | positions of any depth have the same sync path if and only if their last 32 names agree |
| `RamfsPath.Collision` | memctrl/ramfs/ramfs.patch:60-72 | two positions 33 deep that collide |
| `RamfsPath.ClimbIsKept` | memctrl/ramfs/ramfs.patch:67-72 | the limit cuts a longer climb short and does nothing else |
| `RamfsPath.SyncPathInjective` | memctrl/ramfs/ramfs.patch:124-147 | within 32 levels of the root, files with the same sync path are the same file |
| `RamfsPath.RealTree` | memctrl/ramfs/ramfs.patch:124-147 | a tree whose root is named "/" meets the conditions of the theorems, with the path of a file in it |
| `MaxThreads.GuardIsExact` | linux-5.15.178/kernel/fork.c:793 | the bit-length guard lets through exactly the page counts below 2^51, for which the product fits |
| `MaxThreads.Limit.SetMaxThreads` | linux-5.15.178/kernel/fork.c:784-803 | the guarded 64-bit computation gives the limit computed over the unbounded integers, in both branches |
| `MaxThreads.LimitFits` | linux-5.15.178/kernel/fork.c:784-803 | the limit is within its bounds, and unless the floor decides the stacks take at most an eighth of the memory |
| `MaxThreads.LimitIsLargest` | linux-5.15.178/kernel/fork.c:784-803 | it is the largest such number |
| `SocketFair.CounterIsOwn` | network/socket/socket.patch:219-253 | over every run a task's counter is its own counted creations minus its own counted releases |
| `SocketFair.Balance` | network/socket/socket.patch:219-253 | over every run a task's counter is the number of open sockets counted for it, plus those that went without it going down, minus the sockets of others that it released |
| `SocketFair.NonNegativeIff` | network/socket/socket.patch:219-253 | exactly when the counter is not negative, and exactly when it is the number of open sockets counted for the task |
| `SocketFair.OwnReleasesOnly` | network/socket/socket.patch:219-224 | a task that releases only sockets it was counted for never has a negative counter |
| `SocketFair.AboveLimitOnlyByConfigure` | network/socket/socket.patch:297-404 | an increment above the limit means that a configure lowered the limit after that task's check; the lemma names both steps of the run |
| `SocketFair.RoomWhenChecked` | network/socket/socket.patch:297-324 | a task that passed the check has room under the limit it saw, and no counter ever passes 65536 |
| `SocketFair.NeverAboveDefault` | network/socket/socket.patch:73-78 | without a configure no counter passes 1024 |
| `SocketFair.LimitIsTheLastSet` | network/socket/socket.patch:376-398 | over every run a task's limit is the last legal one it was configured to have, or the default |
| `SocketFair.PassesIffBelow` | network/socket/socket.patch:297-324 | an idle task passes the check exactly when its counter is below that limit |
| `SocketFair.BelowZero` | network/socket/socket.patch:219-224 | a task that accepts a connection and closes it has a counter of -1 |
| `SocketFair.CountedForGood` | network/socket/socket.patch:219-253 | a socket that is given up before it gets a file stays counted |

## Left out

- ACPI tables, FUSE filesystems, the mmap and inode wrappers, packet printing and GPU programs: input and output around unseen libraries, with only easy facts to prove.
- Syscall tables, headers, build files and test programs: no logic.
- Red-black recolouring, hlist pointers, RCU, page tables, cgroups and security hooks: represented by rotations, sequences and calls that succeed or fail.
- Memory ordering, interrupts and sleeping in atomic context: atomics and spinlocks are sequentially consistent steps.
- `vvar_fault`, `vdso_fault`, `align_vdso_addr` and the 32-bit vDSO: not part of this model.
- Vdso.VtaskFault: does not model running out of memory for the header page, nor a second thread that faults later and finds the first thread's pages.
- Vdso.Mm.MapVdso: sizes are in whole pages, and get_unmapped_area is taken to return a free range.
- RamfsPath.BuildRelativeDir: the copies of the single names are taken to succeed, because the code does not check them.
- RamfsPath: running `cp`, `d_path` and the mount options are not modelled.
- StackCache: init_task runs on a stack that the cache never sees and never exits; the memory cgroup charges and the vmalloc-less variants are not modelled; a CPU's slots are drained while no task runs on it.
- Unshare: credentials, user namespaces, nsproxy, semaphores and shared memory are one step that succeeds or fails; the failure of `set_cred_ucounts` leaves the new nsproxy behind, which is outside the two objects whose counts are proved. A half-built child's table is held in the variable new_fd and its fs_struct in new_fs; the child is attached in a later step or gives both up.
- Unshare: `in_exec` of an fs_struct appears only as a clone that fails.
- CloneSharing: exec and exit, whose code is elsewhere, are the steps that touch what is shared: a task alone in its thread group gets a new address space and after that a sighand of its own if it shares one; an exiting task leaves live, then its address space, and when it is reaped its sighand and nr_threads. Exec by one of several threads, which ends the others first, appears only as their exits; the case in which the thread that execs takes over its leader's pid is not modelled.
- CloneSharing: a signal_struct is taken to go with its last thread, although references to the task_struct may keep it longer; the boot and idle tasks never exit; namespaces and the other copy helpers appear only as failures. Those helpers are in `CopyProcess`.
- CopyProcess: the initialisations that take nothing and can not fail; `copy_semundo` and `copy_namespaces`, whose code is elsewhere, are calls that succeed or fail.
- KvRefcount: operations on the buckets are single steps here, because their interleavings are proved in `KvConcurrent`; allocation of the store itself is taken to succeed, and the boot task, which has no store, makes no threads.
- Vfork: ptrace, freezing and the user-space part of `clear_child_tid` are not modelled.
- AddressSpace: page tables, hugetlb reservations, file mappings' interval trees and `uprobes` are calls that succeed or fail.
- SocketFair: sockets inside the kernel, which are neither checked nor counted; accept, whose code is elsewhere, makes a socket that is not counted.
- SocketFair.CounterIsOwn: the counter is an unbounded integer, so a wrap of the 32-bit counter after 2^31 uncounted releases is not modelled.
