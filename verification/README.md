# Verification models of the systems coursework repository

Dafny models, with proofs, of the parts of the repository whose correctness is
not visible in one function: a concurrent directory copier, a small kernel's
scheduler, heap, console and descriptor tables, a pide shop server and a
parking lot. `dafny verify dfyconfig.toml` checks all of it.

**The directory copier** (sys06). One manager walks a tree and puts open file
pairs into a ring buffer; workers copy them. `Copier.dfy` is a step system: every
program counter is a place where a thread can be preempted, `pthread_cond_wait`
and `pthread_cond_signal` follow the System Interfaces volume of IEEE Std
1003.1-2017 (a signal unblocks at least one waiter, wake-ups can be spurious),
and SIGINT can raise `stop` at any moment, also while the manager stands between
its test of `stop` and its put. `CopierSync.dfy` proves the locking, the two waits and
deadlock freedom, `CopierAccounting.dfy` the queue and the exactly-once account of
every pair, `CopierTermination.dfy` a rank that falls on every step, `CopierFiles.dfy`
what every step keeps of the walk, the counters and the files, and `CopierEndToEnd.dfy`
that the destination is the source (against `FileMembers.dfy`, where a path is a chain of
listed names, and `FileTree.dfy`, where it is looked up name by name) or, after a signal
and failing calls, which part of it: a failure costs only the entry it hits and what
lies below it. `CopierTotal.dfy` joins these into total correctness, and
`CopierBounds.dfy` says which buffer sizes the fixed array can serve.
`CopierThreads.dfy` and the class in `RingBuffer.dfy` are the C code on its shared
variables, one method for each step of a thread, and the loop that runs all threads
under an arbitrary schedule: `Execute` takes the schedule as a parameter, terminates by
the rank, touches no place outside the array of 1024, and ends in the promised
state. The copier of sys05 has the same `process_directory`, ring and wait loops and
lacks only the barrier: read `AtBarrier` as the end of a worker, and all results
about states before the barrier are about it too.

**The kernel's scheduler** (os01 multitasking, syscalls, interrupts).
`Scheduler.dfy` specifies the table of 256 slots and the calls on values,
`TaskManager.dfy` is the class with its loops. `SchedulerRuns.dfy` proves what every
run keeps, whatever the programs do: pids name slots, a runnable task is selected
within 256 calls, and a waiting task is not selected before its child has finished.
Progress is different: `waitpidTask` does not ask whose child it waits for, and slot 0
may exit. `SchedulerProgress.dfy` gives the exact guard under which a call finds a
task, and shows that programs that wait only for their own children and never let
slot 0 exit meet it. The programs of kernel.cpp are written like that, but a fork on a
full table returns 0, which its caller takes for being the child
(`ForkTellsApart`); so slot 0 keeps to its branch only as long as no fork meets a full
table (`AsWrittenIsDisciplined`). `SchedulerLimits.dfy` holds the two runs in which
progress is lost: a circle of waits, and the full table. `SchedulerContexts.dfy` is about
the registers: in every run a task resumes exactly where it was interrupted.

**The heap** (os01 memorymanagement). `Heap.dfy` proves that the chunk list is a
function of the bounds and the live blocks, whatever the history;
`MemoryManager.dfy` is the doubly linked list rewritten in place, with 32-bit
sizes whose range Dafny enforces in every operation.

**The console, decimal printing and descriptors** (os01 kernel, gdt).
`Console.dfy` shows that the scrolling writer keeps a window onto a page that only
grows. `Decimal.dfy` proves that a number reads back, exactly unless it is the least
int. `Descriptor.dfy` gives the exact rounding of segment limits (Intel 64 and IA-32
Software Developer's Manual, volume 3A, section 3.4.5).

**The pide shop** (sys07 server). `OrderTable.dfy` has the critical sections as
steps, `OrderTableSafety.dfy` the proof that the table can be reset and reused,
`OrderTableProgress.dfy` that no order gets lost or stuck, and `PideShop.dfy` the code
on the shared arrays, for clients and threads in any order.

**The parking lot** (sys04). `Parking.dfy` conserves spots, proves liveness for any
number of owners and that none is refused while a spot is left, `ParkingThreads.dfy` is
the code on the counter and the semaphores, run under an arbitrary schedule until it comes to rest.

In the classes `View()` is the abstract state. A method's contract ties the new
view to a function of the old one; `Execute`, `Simulate`, `Serve` and `HandleAll` put
the methods together into whole runs, which the theorems are about.

Where code and documentation differ, the code is followed. `forkTask` returns 0 on a
full table (multitasking.cpp:86-87). `malloc` takes only chunks strictly larger than
the request. A descriptor for 65537 bytes reaches less far than one for 65536. A
byte from 0x80 on overwrites the attribute of its cell, `char` being signed. The last
delivery of a session resets the table even while its courier is still on the way
back, which is shown to be harmless.

## Model

| member | source | states |
|---|---|---|
| CopierTotal.TotalCorrectness | sys06_enhanced_directory_cp_utility/200104004019_main.c:264-267 | For every finite tree, buffer size, number of workers and schedule: an execution without signal, failing call or endless spurious wake-ups comes to the joins, and there each directory, regular file and link that is listed under names other than "." and ".." is in the destination with its contents or target, nothing else is, each counter is the number of such members of its kind, and the byte total is the sum of their sizes |
| CopierTotal.EveryExecutionSettles | sys06_enhanced_directory_cp_utility/200104004019_main.c:264-267 | Whatever the signal and the failing calls do, the program comes to the joins with an empty buffer, everything put also taken and counted, every opened pair closed as often as it was opened, and every entry accounted for as in CopierEndToEnd.EveryCopy |
| CopierTotal.InterruptedExecutions | sys06_enhanced_directory_cp_utility/200104004019_main.c:49-51 | The same for every execution without failing calls, whenever SIGINT arrives: it comes to the joins, and there a clean part of the copy stands |
| CopierThreads.CopyTree | sys06_enhanced_directory_cp_utility/200104004019_main.c:215-267 | The program itself, class and threads on the array of 1024 places, under any schedule of steps, wake-ups, chunk sizes, failing calls and signal, whenever the size is at most 1024 or the tree has at most 1024 regular files: it ends with everything joined and every entry accounted for, with a clean part of the copy if no call fails, and with the copy and exact counters if there is no signal either |
| CopierThreads.FileCopier.Execute | sys06_enhanced_directory_cp_utility/200104004019_main.c:57-213 | The loop over all threads: any script of actions is followed where it can be, the rank falls at every turn without a spurious wake-up, no place outside the array is touched, and at the joins the promises hold |
| CopierThreads.FileCopier.Turn | sys06_enhanced_directory_cp_utility/200104004019_main.c:57-213 | One turn keeps the state reachable in the step system, and lowers the rank unless the wake-up is spurious |
| CopierThreads.FileCopier.Choose | sys06_enhanced_directory_cp_utility/200104004019_main.c:57-213 | While not all threads have finished, a step that some thread can take is found by looking at the manager and the workers in turn |
| CopierThreads.FileCopier.Act | sys06_enhanced_directory_cp_utility/200104004019_main.c:57-213 | Every action of the step system is carried out by one method on the shared variables |
| CopierSync.DeadlockFree | sys06_enhanced_directory_cp_utility/200104004019_main.c:57-105 | In every reachable state with an unfinished thread some thread can step without a spurious wake-up and without the signal arriving, for any number of workers and any moment of `stop`, although the manager and the workers only signal |
| CopierSync.SomeoneCanMove | sys06_enhanced_directory_cp_utility/200104004019_main.c:60-63 | The step behind deadlock freedom, constructed: from the synchronisation invariant alone, the mutex holder, the manager, an awake worker or a worker at the barrier can move |
| CopierSync.MutualExclusion | sys06_enhanced_directory_cp_utility/200104004019_main.c:58-98 | No two threads are ever inside the critical sections together |
| CopierSync.StepsAreInBounds | sys06_enhanced_directory_cp_utility/200104004019_main.c:71-73 | No step of a reachable state reads or writes outside the ring or takes from an empty one; the C code does not test for it |
| CopierSync.StepKeepsSync | sys06_enhanced_directory_cp_utility/200104004019_main.c:57-105 | Every step keeps: the mutex is held by who thinks so; count > 0 means an awake worker is there to take; a sleeping manager means a full buffer; `done` means nobody sleeps; a worker that has left means an empty buffer and nothing to come |
| CopierSync.ReachableSync | sys06_enhanced_directory_cp_utility/200104004019_main.c:57-191 | That invariant holds in every reachable state |
| CopierSync.NothingPutAfterLeaving | sys06_enhanced_directory_cp_utility/200104004019_main.c:65-69 | From the moment one worker has left its loop the buffer is empty and nothing is put any more, even when `stop` is raised between the test of the manager and its put |
| CopierSync.LeavingIsFinal | sys06_enhanced_directory_cp_utility/200104004019_main.c:153-170 | One step of that: with a worker out of the loop, no step puts or counts a file |
| CopierSync.RunKeepsBarrier | sys06_enhanced_directory_cp_utility/200104004019_main.c:103-105 | When one worker is past the barrier all have left their loops |
| CopierAccounting.BarrierSettles | sys06_enhanced_directory_cp_utility/200104004019_main.c:92-105 | After any worker has passed the barrier the totals never change again, copied equals put, and each opened pair has been closed exactly once except one that the manager still carries, which is only possible under `stop` |
| CopierAccounting.RingIsQueue | sys06_enhanced_directory_cp_utility/200104004019_main.c:71-73 | In every reachable state: taken ++ buffered == put, so the ring is a FIFO queue and each pair is taken once, in order |
| CopierAccounting.OnePlace | sys06_enhanced_directory_cp_utility/200104004019_main.c:71-98 | Each opened pair is at every moment in exactly one place: carried by the manager, buffered, held by one worker, or closed once |
| CopierAccounting.JoinedAccount | sys06_enhanced_directory_cp_utility/200104004019_main.c:95-98 | When all threads have joined, interrupted or not: count is 0, taken is put, files_copied == total_files == regular_files == number of puts, and closes match opens |
| CopierAccounting.StepKeepsQueue | sys06_enhanced_directory_cp_utility/200104004019_main.c:162-170 | Every step keeps the queue equation and the equations between counters, puts and workers in possession of a file |
| CopierAccounting.StepKeepsPair | sys06_enhanced_directory_cp_utility/200104004019_main.c:83-93 | Every step keeps the balance of each pair between opened, put, taken, held and closed |
| CopierTermination.StepFalls | sys06_enhanced_directory_cp_utility/200104004019_main.c:57-108 | Every step except a spurious wake-up lowers a lexicographic rank: signal pending, directory work left, files buffered, position in the wait loop, worker phases and bytes left |
| CopierTermination.Terminates | sys06_enhanced_directory_cp_utility/200104004019_main.c:264-267 | Every execution that from some point on has no spurious wake-ups reaches the state where all threads have joined, for any tree, schedule, faults and moment of `stop` |
| CopierEndToEnd.CompleteCopy | sys06_enhanced_directory_cp_utility/200104004019_main.c:111-194 | At the joins of an uninterrupted run without failing calls: whatever a path leads to through names that the directories list, none of them "." or "..", is in the destination with the same contents or target if it is a directory, file or link and absent otherwise, and every path that exists leads to something in the source |
| CopierEndToEnd.ExactStatistics | sys06_enhanced_directory_cp_utility/200104004019_main.c:280-287 | At the same joins the printed counters are the counts over the tree and the byte total is the sum of file sizes |
| CopierEndToEnd.StatisticsOfMembers | sys06_enhanced_directory_cp_utility/200104004019_main.c:280-287 | The same counters for any list that names every member of the tree once: how many of each kind, and how many bytes |
| CopierEndToEnd.InterruptedCopy | sys06_enhanced_directory_cp_utility/200104004019_main.c:111-194 | At the joins of any run without failing calls, interrupted or not: the entries visited begin the traversal and are all of it unless `stop` was raised; no stray path exists; every file put is complete; at most one file visited was not put, only under `stop`, and it is empty; the counters are those of the entries visited and the bytes those of the files put |
| CopierEndToEnd.EveryCopy | sys06_enhanced_directory_cp_utility/200104004019_main.c:111-194 | At the joins of any run, whatever the signal and the failing calls did: the visits are entries of the tree in the order of the traversal, and without the signal all but those on which, or on a directory above which, a call failed; each visited file holds exactly the bytes written before its own first failure, all of them if it had none; no path exists that is not in the tree; the regular files visited were put but for one given up under `stop`; every counter is that of the visits, and the byte total adds up what each file put contributed |
| CopierEndToEnd.EntryArrives | sys06_enhanced_directory_cp_utility/200104004019_main.c:111-194 | Failures are local: without a signal, a member of the tree stands complete in the destination if the calls on it and on the directories above it succeed, whatever fails elsewhere |
| CopierEndToEnd.StopStops | sys06_enhanced_directory_cp_utility/200104004019_main.c:119-160 | From the moment `stop` is raised, however long the run goes on, at most the entry in hand is still visited and at most the put under way still made |
| CopierEndToEnd.PutHoldsPrefix | sys06_enhanced_directory_cp_utility/200104004019_main.c:83-93 | At the joins of any run each file put holds a prefix of its source, and all of it unless a read or write of its own failed |
| CopierEndToEnd.VisitStands | sys06_enhanced_directory_cp_utility/200104004019_main.c:83-93 | One visit at the joins of any run: a file is its source up to where it broke off, a directory or link is there unless its creation failed |
| CopierEndToEnd.JoinedVisits | sys06_enhanced_directory_cp_utility/200104004019_main.c:111-194 | The entries met by the traversal are entries of the tree in depth-first order, an initial part of them if no call failed, all of them if no signal came either; without a signal one is passed over only because a call on it or above it failed |
| CopierEndToEnd.VisitIsComplete | sys06_enhanced_directory_cp_utility/200104004019_main.c:83-93 | In a run without failing calls each visited entry that is recreated stands complete in the destination at the joins, although any number of workers wrote chunks of different files in any order; a file given up under `stop` is empty |
| CopierFiles.StepKeepsWalk | sys06_enhanced_directory_cp_utility/200104004019_main.c:119-191 | Every step keeps: visited so far ++ what the open directories still hold is the depth-first order of the tree; under `stop` the visits still begin it, and whatever fails they are entries of it in that order |
| CopierFiles.StepKeepsCover | sys06_enhanced_directory_cp_utility/200104004019_main.c:124-188 | Every step without `stop` keeps: each entry of the tree has been visited, or is still to come, or a call failed on it or on a directory above it |
| CopierFiles.StepKeepsBreaks | sys06_enhanced_directory_cp_utility/200104004019_main.c:83-93 | Every step keeps: a regular file broken off is closed or about to be closed, so nothing more is read or written of it |
| CopierFiles.FailingCloses | sys06_enhanced_directory_cp_utility/200104004019_main.c:84-93 | A read or write that fails ends the loop of its file with the bytes of the chunks before it as the total |
| CopierFiles.StepKeepsStats | sys06_enhanced_directory_cp_utility/200104004019_main.c:169-189 | Every step keeps the counters of directories, FIFOs and links equal to the visits of each kind |
| CopierFiles.StepKeepsItems | sys06_enhanced_directory_cp_utility/200104004019_main.c:135-163 | Every step keeps: the pairs put, with the one carried, are the regular files visited, in order, but for one given up under `stop` just before the walk ends |
| CopierFiles.StepKeepsBytes | sys06_enhanced_directory_cp_utility/200104004019_main.c:80-97 | Every step, failing ones too, keeps: bytes counted, plus those owed by workers still copying, are the sizes of the files taken, for a file broken off the chunks before its failure |
| CopierFiles.StepKeepsShown | sys06_enhanced_directory_cp_utility/200104004019_main.c:83-90 | Every step, failing ones too, keeps each destination file equal to the prefix of its source that its one holder has written |
| CopierFiles.StepKeepsStrays | sys06_enhanced_directory_cp_utility/200104004019_main.c:142-188 | Every step keeps the destination free of paths that no visited entry accounts for |
| FileMembers.LookupIsMember | sys06_enhanced_directory_cp_utility/200104004019_main.c:120-122 | Walking a path down name by name finds a node if and only if the directories on the way list those names and none is "." or ".." |
| FileMembers.FindIsMember | sys06_enhanced_directory_cp_utility/200104004019_main.c:120-122 | A directory has an entry of a name, to be visited, exactly when it lists the name and the name is neither "." nor ".." |
| FileMembers.FlattenLists | sys06_enhanced_directory_cp_utility/200104004019_main.c:119-181 | The traversal names each member of the tree exactly once |
| FileMembers.ListsAgree | sys06_enhanced_directory_cp_utility/200104004019_main.c:169-189 | Any two lists that do so have the same counts and sizes |
| FileTree.FlattenInOrder | sys06_enhanced_directory_cp_utility/200104004019_main.c:119-120 | The traversal takes the entries in the order in which their directory lists them |
| FileTree.FlattenOne | sys06_enhanced_directory_cp_utility/200104004019_main.c:176-179 | A directory is visited before what it holds |
| FileTree.FlattenIsLookup | sys06_enhanced_directory_cp_utility/200104004019_main.c:119-181 | The traversal order contains a visit of (path, node) exactly when walking the path down the tree, one name at a time, ends at that node |
| FileTree.FlattenDistinct | sys06_enhanced_directory_cp_utility/200104004019_main.c:124-126 | No path is visited twice |
| FileTree.FlattenCounts | sys06_enhanced_directory_cp_utility/200104004019_main.c:169-189 | Counting a kind over the traversal is counting it over the tree |
| FileTree.FlattenSizes | sys06_enhanced_directory_cp_utility/200104004019_main.c:97 | The sizes over the traversal sum to the sizes over the tree |
| RingBuffer.PutAppends | sys06_enhanced_directory_cp_utility/200104004019_main.c:162-167 | Writing at `in` and moving it round appends to the queue that the ring stands for |
| RingBuffer.TakeRemovesFirst | sys06_enhanced_directory_cp_utility/200104004019_main.c:71-73 | Reading at `out` and moving it round removes the oldest element |
| CopierBounds.ArrayServesExactly | sys06_enhanced_directory_cp_utility/200104004019_main.c:162-167 | If the ring were as long as the buffer size asked for, a run would stay inside the array of 1024 if and only if that size is at most 1024 or the run puts at most 1024 files |
| CopierBounds.ArrayServesTree | sys06_enhanced_directory_cp_utility/200104004019_main.c:221-229 | For complete runs without signal or failing call: if and only if the size is at most 1024 or the tree has at most 1024 regular files |
| CopierBounds.ArrayServesEveryRun | sys06_enhanced_directory_cp_utility/200104004019_main.c:221-229 | A size of at most 1024 or a tree of at most 1024 regular files suffices for every run, with failing calls and the signal at any moment |
| RingBuffer.Buffer.constructor | sys06_enhanced_directory_cp_utility/200104004019_main.c:232-235 | A new buffer is an empty queue in an array of 1024 places, whatever the size |
| RingBuffer.Buffer.PutItem | sys06_enhanced_directory_cp_utility/200104004019_main.c:162-167 | In place, where `in` is inside the array: the queue afterwards is the queue before ++ [x] |
| RingBuffer.Buffer.TakeItem | sys06_enhanced_directory_cp_utility/200104004019_main.c:71-73 | In place, where `out` is inside the array: the queue before is [x] ++ the queue afterwards |
| CopierThreads.FileCopier.constructor | sys06_enhanced_directory_cp_utility/200104004019_main.c:230-262 | The state before the threads run is the initial state of the step system |
| CopierThreads.FileCopier.HandleSignal | sys06_enhanced_directory_cp_utility/200104004019_main.c:49-51 | Only `stop` changes |
| CopierThreads.FileCopier.WorkerLocks | sys06_enhanced_directory_cp_utility/200104004019_main.c:58-95 | Each pthread_mutex_lock of a worker, also the one inside pthread_cond_wait: the step of the model, invariant kept |
| CopierThreads.FileCopier.WorkerWakes | sys06_enhanced_directory_cp_utility/200104004019_main.c:62-62 | A spurious wake-up of a worker |
| CopierThreads.FileCopier.WorkerTests | sys06_enhanced_directory_cp_utility/200104004019_main.c:60-63 | The wait condition: sleep and release the mutex exactly when empty, not done and not stopped |
| CopierThreads.FileCopier.WorkerTakes | sys06_enhanced_directory_cp_utility/200104004019_main.c:65-76 | Leave the loop, or take the oldest pair, wake the manager and unlock |
| CopierThreads.FileCopier.WorkerCopies | sys06_enhanced_directory_cp_utility/200104004019_main.c:83-90 | One read and write: the chunk is appended; an end of file or a failure ends the loop |
| CopierThreads.FileCopier.WorkerCloses | sys06_enhanced_directory_cp_utility/200104004019_main.c:92-93 | The pair is closed once |
| CopierThreads.FileCopier.WorkerTallies | sys06_enhanced_directory_cp_utility/200104004019_main.c:96-98 | Holding the mutex, one file and its bytes are counted |
| CopierThreads.FileCopier.WorkerArrives | sys06_enhanced_directory_cp_utility/200104004019_main.c:103-104 | Arrival at the barrier |
| CopierThreads.FileCopier.WorkerPassesBarrier | sys06_enhanced_directory_cp_utility/200104004019_main.c:104-107 | The barrier lets a worker through when all have arrived |
| CopierThreads.FileCopier.OpenDirectory | sys06_enhanced_directory_cp_utility/200104004019_main.c:112-116 | Open a directory, or give it up on failure |
| CopierThreads.FileCopier.ReadEntry | sys06_enhanced_directory_cp_utility/200104004019_main.c:119-120 | Next entry, or leave the directory at its end or under `stop` |
| CopierThreads.FileCopier.HandleEntry | sys06_enhanced_directory_cp_utility/200104004019_main.c:120-189 | The handling of one entry as one step of the model |
| CopierThreads.FileCopier.ManagerLocks | sys06_enhanced_directory_cp_utility/200104004019_main.c:148-205 | Each pthread_mutex_lock of the manager, also the one inside pthread_cond_wait |
| CopierThreads.FileCopier.ManagerWakes | sys06_enhanced_directory_cp_utility/200104004019_main.c:152-152 | A spurious wake-up of the manager |
| CopierThreads.FileCopier.ManagerTests | sys06_enhanced_directory_cp_utility/200104004019_main.c:150-153 | The wait condition: sleep exactly when full and not stopped |
| CopierThreads.FileCopier.ManagerChecksStop | sys06_enhanced_directory_cp_utility/200104004019_main.c:155-160 | Under `stop` the pair is closed, the mutex released and the directory left |
| CopierThreads.FileCopier.ManagerPuts | sys06_enhanced_directory_cp_utility/200104004019_main.c:162-173 | Put, count, signal any nonempty set of sleepers, unlock |
| CopierThreads.FileCopier.ManagerFinishes | sys06_enhanced_directory_cp_utility/200104004019_main.c:206-208 | `done` is set and all sleepers are woken |
| SchedulerProgress.ProgressExactly | os01_write_your_own_OS/src/multitasking.cpp:226-251 | In every run, up to any moment: no call of Schedule has fallen through, if and only if every exit and every blocking waitpid met its guard, if and only if only Ready tasks have been resumed |
| SchedulerProgress.GuardIsExact | os01_write_your_own_OS/src/multitasking.cpp:226-251 | The guard of one call, testable before it: a rescheduling event from a Ready task finds a task if and only if it is the timer or a fork, or another task is runnable, or (for exit) waits for the caller |
| SchedulerProgress.WhoRunsNext | os01_write_your_own_OS/src/multitasking.cpp:240-251 | A call finds a task if and only if the task that runs after it is Ready: the fall-through always resumes a finished or a blocked one |
| SchedulerProgress.AlwaysProgress | os01_write_your_own_OS/src/multitasking.cpp:226-251 | Under the run discipline every call of Schedule finds a task, since the discipline meets the guard |
| SchedulerProgress.ResumedIsReady | os01_write_your_own_OS/src/multitasking.cpp:240-243 | Under the discipline the task resumed is Ready |
| SchedulerProgress.HighestUnfinishedRuns | os01_write_your_own_OS/src/multitasking.cpp:228-248 | The highest unfinished slot is always runnable, since a disciplined task waits only for higher slots |
| SchedulerProgress.DisciplinedTable | os01_write_your_own_OS/src/multitasking.cpp:85-125 | Along every disciplined run a parent is below its child, waits go upward, slot 0 is unfinished, the current task is Ready, and every guard is met |
| SchedulerProgress.ForkReturns | os01_write_your_own_OS/src/multitasking.cpp:85-125 | The three results of fork in any run: 0 exactly on a full table; -1 on another exactly without an entry point, or if the first task was given no gdt, in which case there never is a second task; and else the slot of the new child, whose parent is the caller |
| SchedulerProgress.RunKeepsGdt | os01_write_your_own_OS/src/multitasking.cpp:91-97 | In every run each task has a gdt if and only if the first one was given one, since a gdt goes only from parent to child |
| SchedulerProgress.ForkTellsApart | os01_write_your_own_OS/src/syscalls.cpp:68-70 | What the forking task is to resume with: its registers with 0 in ecx exactly on a full table, and that is the whole context a child would have had; else the slot of the new child, whose context is the same with 0; or -1, and no child, without a gdt or an entry point |
| SchedulerContexts.SelectedResumes | os01_write_your_own_OS/src/multitasking.cpp:229-243 | A call that finds a task resumes the saved context of the task that is then current, which is Ready and, had it been waiting, awaits nobody |
| SchedulerContexts.ResumesWhereInterrupted | os01_write_your_own_OS/src/multitasking.cpp:221-243 | In every run a task interrupted by one event and next selected by another goes on with exactly the registers it was interrupted with, after a fork with the result in ecx, whatever happens in between |
| SchedulerContexts.ChildStartsWithZero | os01_write_your_own_OS/src/multitasking.cpp:106-119 | In every run a new child, when first selected, starts with the registers its parent forked with and 0 in ecx |
| SchedulerContexts.FirstTaskStarts | os01_write_your_own_OS/src/multitasking.cpp:221-243 | The first timer interrupt resumes the context of the task the kernel has added |
| SchedulerContexts.NoneResumesCaller | os01_write_your_own_OS/src/multitasking.cpp:250-251 | A call that finds nobody returns into the interrupted task |
| SchedulerContexts.CallReturns | os01_write_your_own_OS/src/syscalls.cpp:42-78 | In every run the calls that return at once: number 20 with the pid in ecx, number 11 into the given entry point with the pid in ecx and cleared registers, any other into the unchanged registers, and no other task is touched |
| SchedulerContexts.CallNumbers | os01_write_your_own_OS/src/syscalls.cpp:42-78 | In every run exactly exit (1), fork (2) and a waitpid (7) for an unfinished task that is neither the caller nor task 0 reschedule |
| SchedulerRuns.BlocksMeans | os01_write_your_own_OS/src/multitasking.cpp:159-184 | A waitpid blocks exactly for a pid in the table that is neither 0 nor the own one and has not finished |
| SchedulerProgress.AsWrittenIsDisciplined | os01_write_your_own_OS/src/kernel.cpp:331-376 | Programs that wait only for pids their forks returned, and of which the first exits only where a fork returned it 0, keep the discipline as long as no fork meets a full table |
| SchedulerLimits.FullTableStopsTheKernel | os01_write_your_own_OS/src/multitasking.cpp:86-87 | A concrete run of 513 events of such programs: after 255 children fork returns 0 to task 0, which takes itself for a child and exits, its guard fails, and a finished task is resumed |
| SchedulerLimits.CircularWait | os01_write_your_own_OS/src/multitasking.cpp:159-184 | A concrete run of six events: two forks, then task 1 waits for 2, 2 for 1 and 0 for 1; the last wait misses its guard, and Schedule returns into a waiting task |
| SchedulerRuns.SelectedWithin256 | os01_write_your_own_OS/src/multitasking.cpp:216-252 | In every run a runnable task that is not current is selected within 256 calls of Schedule, however many forks append tasks and whoever exits or waits meanwhile |
| SchedulerRuns.BoundedWaiting | os01_write_your_own_OS/src/multitasking.cpp:216-252 | The exact bound, in every run: within as many calls as the distance from the current slot on the ring of 256 |
| SchedulerRuns.PickApproaches | os01_write_your_own_OS/src/multitasking.cpp:227-247 | Whoever is picked before a runnable slot is strictly nearer to it, also on the longer ring |
| SchedulerRuns.SchedulePicks | os01_write_your_own_OS/src/multitasking.cpp:227-248 | The scan picks the first runnable slot after the current one and fails exactly when there is none |
| SchedulerRuns.WaitIsSafe | os01_write_your_own_OS/src/multitasking.cpp:167-181 | In every run: a task blocked in waitpid(p) and not running is still blocked with the same pid and context, or p has finished for good |
| SchedulerRuns.FinishedForever | os01_write_your_own_OS/src/multitasking.cpp:78-83 | In every run a finished task that is not running stays finished and never becomes current again |
| SchedulerRuns.PidsNameSlots | os01_write_your_own_OS/src/multitasking.cpp:282-289 | In every run pids are strictly increasing by slot, so getTaskIndex inverts the assignment and finds exactly the pids handed out |
| SchedulerRuns.RunKeepsBase | os01_write_your_own_OS/src/multitasking.cpp:85-252 | Every run, disciplined or not, keeps: at most 256 tasks and a current slot among them, pids name slots, a waiter waits for a task in the table, and nobody waits for a finished task that still runs |
| SchedulerRuns.SomebodyRuns | os01_write_your_own_OS/src/multitasking.cpp:240-243 | From the first timer interrupt on there is a current task |
| SchedulerRuns.IndexInvertsPid | os01_write_your_own_OS/src/multitasking.cpp:282-289 | With pids equal to slots getTaskIndex is the identity on assigned pids and -1 elsewhere |
| TaskManagement.TaskManager.constructor | os01_write_your_own_OS/src/multitasking.cpp:58-63 | An empty table, no current task |
| TaskManagement.TaskManager.NewTask | os01_write_your_own_OS/src/multitasking.cpp:12-51 | A task object outside the table with the next pid, cleared registers and the entry point as eip |
| TaskManagement.TaskManager.AddTask | os01_write_your_own_OS/src/multitasking.cpp:187-214 | A ready copy in the next slot, which keeps its own gdt pointer, set or not, or false on a full table |
| TaskManagement.TaskManager.Boot | os01_write_your_own_OS/src/kernel.cpp:413-415 | Constructor, task object and AddTask lead to the initial state of the runs, with or without a gdt in the slot, and with cleared registers and the entry point of the init task in its context |
| TaskManagement.TaskManager.GetTaskIndex | os01_write_your_own_OS/src/multitasking.cpp:282-289 | The loop returns the first slot with that pid, or -1 |
| TaskManagement.TaskManager.ExitTask | os01_write_your_own_OS/src/multitasking.cpp:78-83 | Only the state of the current task changes |
| TaskManagement.TaskManager.ForkTask | os01_write_your_own_OS/src/multitasking.cpp:85-125 | The three outcomes: 0 on a full table, -1 without a gdt or an entry point, else a new last slot with the gdt of the parent, a copy of the context and ecx 0 |
| TaskManagement.TaskManager.ExecveTask | os01_write_your_own_OS/src/multitasking.cpp:127-157 | The current task starts afresh at the entry point with its pid in ecx |
| TaskManagement.TaskManager.WaitpidTask | os01_write_your_own_OS/src/multitasking.cpp:159-184 | Blocks exactly on a pid that is neither its own nor 0, exists and is unfinished |
| TaskManagement.TaskManager.TryTask | os01_write_your_own_OS/src/multitasking.cpp:229-244 | One turn of the scan: a waiter whose child has finished is woken, and nothing else changes |
| TaskManagement.TaskManager.FindNext | os01_write_your_own_OS/src/multitasking.cpp:227-248 | The loop over the table finds what the scan function finds, waking only the slot it picks |
| TaskManagement.TaskManager.Schedule | os01_write_your_own_OS/src/multitasking.cpp:216-252 | In place: nothing on an empty table, else save, pick, switch, as specified |
| TaskManagement.TaskManager.HandleSyscall | os01_write_your_own_OS/src/syscalls.cpp:42-78 | The dispatch on eax: which calls reschedule, and where the result of fork and getpid goes |
| TaskManagement.TaskManager.HandleInterrupt | os01_write_your_own_OS/src/hardwarecommunication/interrupts.cpp:192-207 | Timer and system call as the two events of a run |
| TaskManagement.TaskManager.HandleAll | os01_write_your_own_OS/src/hardwarecommunication/interrupts.cpp:192-217 | Interrupts one after the other make a run of the specification, all of them once the timer has come first, and the contexts returned are those that the run resumes |
| Heap.Canonical | os01_write_your_own_OS/src/memorymanagement.cpp:65-89 | Two heaps with the same bounds and the same live (address, size) blocks are the same chunk list |
| Heap.HistoryIsForgotten | os01_write_your_own_OS/src/memorymanagement.cpp:35-89 | Two histories of calls from the fresh heap that leave the same live blocks leave the same list |
| Heap.FreesCommute | os01_write_your_own_OS/src/memorymanagement.cpp:65-89 | Releasing two live pointers in either order gives the same heap |
| Heap.FreeAllRestores | os01_write_your_own_OS/src/memorymanagement.cpp:65-89 | Releasing all live blocks in any order restores the initial single chunk |
| Heap.FreeUndoesMalloc | os01_write_your_own_OS/src/memorymanagement.cpp:39-87 | A successful malloc followed by free of its result restores the list, whether the chunk was split or not |
| Heap.MallocComplete | os01_write_your_own_OS/src/memorymanagement.cpp:39-44 | malloc returns 0 exactly when no free chunk is larger than the request, and then changes nothing |
| Heap.FirstFitMeans | os01_write_your_own_OS/src/memorymanagement.cpp:39-41 | The chunk chosen is the first free one that is strictly larger |
| Heap.MallocKeeps | os01_write_your_own_OS/src/memorymanagement.cpp:46-62 | malloc keeps tiling and merging, and adds exactly one live block, at a new address, of n to n + header bytes |
| Heap.MallocMeans | os01_write_your_own_OS/src/memorymanagement.cpp:39-62 | malloc takes the free chunk of lowest address that is larger than the request, and of it exactly n bytes if a header of 16 and at least one more byte remain, else all of it |
| Heap.FreeKeeps | os01_write_your_own_OS/src/memorymanagement.cpp:67-87 | free keeps tiling and merging, and removes exactly the block of its pointer |
| Heap.RunKeeps | os01_write_your_own_OS/src/memorymanagement.cpp:10-89 | Every history of calls keeps: the chunks tile the region and no two free chunks are neighbours |
| Heap.PayloadsDisjoint | os01_write_your_own_OS/src/memorymanagement.cpp:48-62 | Payloads of different chunks are disjoint from each other and from all headers |
| Heap.TilingTotal | os01_write_your_own_OS/src/memorymanagement.cpp:46-86 | The sum of size plus header over all chunks is the size of the region |
| MemoryManagement.MemoryManager.constructor | os01_write_your_own_OS/src/memorymanagement.cpp:10-27 | One free chunk of the size of the region less 16, or no chunk when the region is smaller than that |
| MemoryManagement.MemoryManager.FindFit | os01_write_your_own_OS/src/memorymanagement.cpp:37-41 | The loop over `next` finds the first fit |
| MemoryManagement.MemoryManager.Split | os01_write_your_own_OS/src/memorymanagement.cpp:46-59 | The new header is linked in both directions and the sizes add up, without 32-bit wrap |
| MemoryManagement.MemoryManager.Malloc | os01_write_your_own_OS/src/memorymanagement.cpp:35-63 | On the linked list: the new chunk list and the result are those of the specification, links stay mutually inverse |
| MemoryManagement.MemoryManager.FreePrev | os01_write_your_own_OS/src/memorymanagement.cpp:71-79 | Merging into a free predecessor |
| MemoryManagement.MemoryManager.FreeNext | os01_write_your_own_OS/src/memorymanagement.cpp:81-87 | Merging with a free successor |
| MemoryManagement.MemoryManager.Absorb | os01_write_your_own_OS/src/memorymanagement.cpp:73-86 | A chunk takes over its successor: size grows by size and header, without wrap, and both links are repaired |
| MemoryManagement.MemoryManager.Free | os01_write_your_own_OS/src/memorymanagement.cpp:65-89 | On the linked list: release of a live pointer gives the chunk list of the specification |
| OrderTableSafety.OneHolder | sys07_client_server_sockets_pideShop/server.c:245-299 | In every run no order is held by two cooks or two couriers, and a courier carries at most 3 |
| OrderTableProgress.NothingIsLost | sys07_client_server_sockets_pideShop/server.c:245-316 | In every run an order assigned and not delivered is among those its courier still has to deliver, and one taken and not ready is held by a cook |
| OrderTableProgress.NobodyStuck | sys07_client_server_sockets_pideShop/server.c:236-333 | In every run, with at least one cook and one courier and an order undelivered, one of them can take a step that brings the session closer to its end |
| OrderTableProgress.WorkFalls | sys07_client_server_sockets_pideShop/server.c:236-375 | No step of a cook or courier leads away from the end of the session: each lowers what is left to do, or finds nothing |
| OrderTableProgress.FullHands | sys07_client_server_sockets_pideShop/server.c:286-295 | After a scan an order ready and unassigned is left only by a courier that carries three |
| OrderTableProgress.ReceivesExactly | sys07_client_server_sockets_pideShop/server.c:203-222 | A client's order goes into the next slot, untouched and unassigned, exactly while fewer than 100 are in use; otherwise nothing changes |
| OrderTableSafety.DeliveredOnceAfterReady | sys07_client_server_sockets_pideShop/server.c:341-348 | Each order is cooked once and delivered once, and only after it was ready |
| OrderTableSafety.ResetIsQuiet | sys07_client_server_sockets_pideShop/server.c:356-375 | At the moment of the reset no cook holds an order, no courier has one left to deliver, and everything received has been delivered |
| OrderTableSafety.ReuseIsSafe | sys07_client_server_sockets_pideShop/server.c:203-222 | The slot written by a new order is held by no cook and awaited by no courier |
| OrderTableSafety.Conservation | sys07_client_server_sockets_pideShop/server.c:344-347 | delivered_count is the number of delivered slots, and received is the total of finished sessions plus order_count |
| OrderTableSafety.StepKeeps | sys07_client_server_sockets_pideShop/server.c:196-375 | Every step keeps the invariant of table, cooks, couriers and counters, and touches only slots in use |
| OrderTableSafety.RunKeeps | sys07_client_server_sockets_pideShop/server.c:196-375 | The invariant holds along every run over any number of sessions |
| OrderTableSafety.PickMeans | sys07_client_server_sockets_pideShop/server.c:286-295 | The scan assigns available slots, in order, at most as many as there is room for, and changes nothing else |
| OrderTableSafety.PickIsGreedy | sys07_client_server_sockets_pideShop/server.c:286-295 | An available order is left behind only by full hands and only after those taken |
| OrderTableSafety.LogGrows | sys07_client_server_sockets_pideShop/server.c:345-345 | What was delivered stays delivered, in the same order |
| PideShop.Server.constructor | sys07_client_server_sockets_pideShop/server.c:149-160 | The tables before the first client |
| PideShop.Server.HandleClient | sys07_client_server_sockets_pideShop/server.c:201-234 | In place: a fresh order in the next slot, or nothing on a full table |
| PideShop.Server.CookScan | sys07_client_server_sockets_pideShop/server.c:244-251 | The loop marks the first untouched order |
| PideShop.Server.CookFinish | sys07_client_server_sockets_pideShop/server.c:262-268 | The order is ready and the cook free |
| PideShop.Server.DeliveryScan | sys07_client_server_sockets_pideShop/server.c:284-298 | The loop with its break assigns what the greedy pick assigns |
| PideShop.Server.DeliverOrder | sys07_client_server_sockets_pideShop/server.c:341-375 | Delivered, counted, and the table reset when all are |
| PideShop.Server.FinishRound | sys07_client_server_sockets_pideShop/server.c:316-320 | The courier is free with empty hands |
| PideShop.Server.Handle | sys07_client_server_sockets_pideShop/server.c:196-375 | Every step of a client or thread that can happen is carried out by one method on the shared arrays |
| PideShop.Server.Serve | sys07_client_server_sockets_pideShop/server.c:162-189 | Any list of events: those that can happen when their turn comes make a run of the order table, so the results about runs hold of the server |
| Parking.SpotsConserved | sys04_parking_system_semaphores/main.c:29-63 | In every run with any number of owners: spots taken are owners parked and not posted, cars announced, and the one the attendant has; waiting owners are cars announced, in progress, and answers posted; 0 <= free <= max |
| Parking.NoDeadlock | sys04_parking_system_semaphores/main.c:40-41 | While an owner is unfinished some thread can step |
| Parking.RunsEndEmpty | sys04_parking_system_semaphores/main.c:25-91 | A run has at most 9 steps an owner, and one that cannot go on has freed all spots and served everybody if there is a spot for each, and otherwise at least as many as there are spots, the rest turned away |
| Parking.Decision | sys04_parking_system_semaphores/main.c:32-50 | In every run an owner that decides gets a spot if cars and owners on their way take fewer than all of them, and leaves if they take all |
| Parking.RoomForAll | sys04_parking_system_semaphores/main.c:32-50 | In every run with no more owners than spots nobody is ever refused |
| Parking.StepKeeps | sys04_parking_system_semaphores/main.c:29-91 | Every step keeps the lock and conservation equations and shortens what is left |
| ParkingSystem.SystemIsLive | sys04_parking_system_semaphores/main.c:21-23 | Both kinds together, with 4 and 8 spots: bounds, progress, and a bound on the length of runs |
| ParkingThreads.ParkingLot.constructor | sys04_parking_system_semaphores/main.c:17-23 | All spots free, semaphores at 0, the mutex free |
| ParkingThreads.ParkingLot.Simulate | sys04_parking_system_semaphores/main.c:25-91 | All threads on the shared variables under any schedule: the program comes to rest after a run of the step system, all spots free, the semaphores at 0, the attendant waiting, and every owner served if there is a spot for each, otherwise at least as many as there are spots |
| ParkingThreads.ParkingLot.Choose | sys04_parking_system_semaphores/main.c:25-91 | A thread that can step is found, the wanted one if it can; if none is found, no step is possible |
| ParkingThreads.ParkingLot.StepOf | sys04_parking_system_semaphores/main.c:25-91 | Each thread's next stretch of code is a step of the model and keeps the invariant |
| ParkingThreads.ParkingLot.OwnerLocks | sys04_parking_system_semaphores/main.c:31-31 | pthread_mutex_lock of an owner |
| ParkingThreads.ParkingLot.AttendantLocks | sys04_parking_system_semaphores/main.c:76-76 | pthread_mutex_lock of the attendant |
| ParkingThreads.ParkingLot.OwnerDecides | sys04_parking_system_semaphores/main.c:32-33 | Holding the mutex, a spot is taken exactly when there is one |
| ParkingThreads.ParkingLot.OwnerUnlocks | sys04_parking_system_semaphores/main.c:39-44 | The mutex is released on both ways out |
| ParkingThreads.ParkingLot.OwnerPosts | sys04_parking_system_semaphores/main.c:40-40 | sem_post of the new car |
| ParkingThreads.ParkingLot.OwnerIsServed | sys04_parking_system_semaphores/main.c:41-41 | Return from sem_wait |
| ParkingThreads.ParkingLot.AttendantFetches | sys04_parking_system_semaphores/main.c:74-74 | Return from sem_wait for a car |
| ParkingThreads.ParkingLot.AttendantFrees | sys04_parking_system_semaphores/main.c:77-79 | Holding the mutex, one spot is freed |
| ParkingThreads.ParkingLot.AttendantReports | sys04_parking_system_semaphores/main.c:80-80 | sem_post of the answer |
| Console.Console.Put | os01_write_your_own_OS/src/kernel.cpp:39-76 | After every character the screen is the 25-row window onto the end of the unbounded page, x < 80 and y < 25, every access was in bounds, and the cursor is at the next column, or at column 0 of the next row after a newline or the last column, the last row being kept |
| Console.Console.Printf | os01_write_your_own_OS/src/kernel.cpp:31-78 | After a string the page is the old page with that string written on it, and the screen its window |
| Console.Console.Advance | os01_write_your_own_OS/src/kernel.cpp:39-55 | The switch and the wrap: one cell changes its character; a newline sets x to 0 and y one on, the last column likewise, any other character moves x one on |
| Console.Console.SlideUp | os01_write_your_own_OS/src/kernel.cpp:59-72 | The nested loops move every row up one and wipe the last, in place |
| Console.Console.PrintfInt | os01_write_your_own_OS/src/kernel.cpp:81-130 | Printing a number writes its decimal text on the page |
| Console.TypedShows | os01_write_your_own_OS/src/kernel.cpp:45-76 | A character on the screen is a character on the page, also when the screen has to slide |
| Console.NewlineShows | os01_write_your_own_OS/src/kernel.cpp:41-76 | A newline on row y of the screen leads to column 0 of row y + 1, on the last row after sliding up, and on the page to column 0 of the following row |
| Console.GrowingSlides | os01_write_your_own_OS/src/kernel.cpp:59-75 | A blank row added to the page is the screen slid up |
| ConsolePage.WritingComposes | os01_write_your_own_OS/src/kernel.cpp:35-37 | Strings printed one after the other make the page of their concatenation |
| ConsolePage.TextStands | os01_write_your_own_OS/src/kernel.cpp:45-55 | Each character of a text stands where the wrapping rule alone puts it |
| ConsolePage.ReachRule | os01_write_your_own_OS/src/kernel.cpp:41-55 | The wrapping rule in rows and columns of 80: a newline leads to column 0 of the following row, another character to the next column or from the last one to the following row |
| ConsolePage.RestIsUntouched | os01_write_your_own_OS/src/kernel.cpp:39-72 | A cell no character goes to is unchanged, or blank on a row added since |
| ConsolePage.HistoryStays | os01_write_your_own_OS/src/kernel.cpp:57-76 | Nothing before the cursor is ever written again |
| ConsolePage.AttributesStayExactly | os01_write_your_own_OS/src/kernel.cpp:46-72 | A text leaves every attribute byte as on the first screen (the bottom row's for rows added later) if and only if its bytes from 0x80 on, whose sign extension writes 0xFF, go only where the attribute is 0xFF already; so ASCII always does |
| Decimal.ParsesBack | os01_write_your_own_OS/src/kernel.cpp:97-117 | The text reads back as the number if and only if it is not the least int, and is then without leading zero or minus zero |
| Decimal.LeastIntIsUnreadable | os01_write_your_own_OS/src/kernel.cpp:98-111 | -2^31 is its own negation in two's complement, and its text is not a number |
| Decimal.CanonicalIsRendered | os01_write_your_own_OS/src/kernel.cpp:97-117 | Any canonical text that reads as an int in range is exactly what is printed for it |
| Decimal.Fits | os01_write_your_own_OS/src/kernel.cpp:84-84 | The text has 1 to 11 characters, so the buffer of 12 holds it and its terminator for every int |
| Decimal.FillBackwards | os01_write_your_own_OS/src/kernel.cpp:105-111 | The digit loop leaves the glyphs of the number in reverse |
| Decimal.ReverseInPlace | os01_write_your_own_OS/src/kernel.cpp:119-125 | The swapping loop reverses the text and leaves the rest of the buffer alone |
| Decimal.Format | os01_write_your_own_OS/src/kernel.cpp:84-126 | The buffer holds the text, then the terminator, and no terminator before it |
| Descriptor.BaseRoundTrip | os01_write_your_own_OS/src/gdt.cpp:68-88 | Base() of a packed descriptor is the base, and the access byte is kept |
| Descriptor.LimitRoundsDown | os01_write_your_own_OS/src/gdt.cpp:37-66 | Limit() is the limit up to 65536 and otherwise 4096 * floor((limit + 1) / 4096) - 1; it never exceeds the limit and loses at most 4095 |
| Descriptor.NothingCloserBelow | os01_write_your_own_OS/src/gdt.cpp:45-58 | Above 64K no page-granular limit is closer from below |
| Descriptor.LimitRoundTripExactly | os01_write_your_own_OS/src/gdt.cpp:37-61 | The limit survives packing if and only if it is at most 65536 or ends a page |
| Descriptor.RepackingIsStable | os01_write_your_own_OS/src/gdt.cpp:33-102 | Packing a decoded limit again decodes to the same value |
| Descriptor.BytesDetermine | os01_write_your_own_OS/src/gdt.cpp:63-75 | Two descriptors have the same bytes exactly when base, access byte, decoded limit and unit agree |
| Descriptor.LaidOut | os01_write_your_own_OS/src/gdt.cpp:33-76 | The bytes are laid out as the manual draws them: base, limit and access byte in their bits of the two doublewords, granularity set above 64K, default operand size always, the two flags below never |
| Descriptor.ProcessorAgrees | os01_write_your_own_OS/src/gdt.cpp:98-99 | The decoder's test of two flag bits and the granularity bit of the architecture give the same limit on every packed descriptor |
| Descriptor.OneByteMoreIsLess | os01_write_your_own_OS/src/gdt.cpp:37-61 | A request for 65537 yields a smaller segment than one for 65536 |
| Descriptor.MonotoneExactly | os01_write_your_own_OS/src/gdt.cpp:37-61 | Larger requests yield no smaller segments, except exactly from 65536 to a limit below 69631 |
| Descriptor.SegmentDescriptor.constructor | os01_write_your_own_OS/src/gdt.cpp:33-76 | The stores and the reassigned limit leave the packed bytes |
| Descriptor.SegmentDescriptor.Base | os01_write_your_own_OS/src/gdt.cpp:78-88 | Whatever base, limit and access byte were packed, the result is that base |
| Descriptor.SegmentDescriptor.Limit | os01_write_your_own_OS/src/gdt.cpp:90-102 | Whatever was packed, the result is that limit up to 65536 and else the limit rounded down to a page end |

## Left out

- Copier: file descriptors, path truncation, error printing and timing; paths fit their buffers, source and destination do not overlap, the tree does not change during the run and the destination starts empty.
- Copier: memory is sequentially consistent, and SIGINT is the only signal.
- CopierThreads.CopyTree: asks for a size of at most 1024 or a tree of at most 1024 regular files; `main` tests neither, and by CopierBounds.ArrayServesTree other complete runs leave the array, about which nothing is said.
- RingBuffer.Buffer.PutItem: asks for an index inside the array, which the code does not test; so do TakeItem and the two methods of CopierThreads that call them.
- Copier: which calls fail is left open without any constraint; a file may be created below a directory whose own creation failed.
- Copier: the counters are unbounded; the C ints and size_t could overflow on a tree with more than 2^31 files.
- Copier: termination excludes only endless spurious wake-ups, against which no such program terminates.
- Copier: a pair of descriptors is an item with a number, a path and the contents to be read; the history of visits, puts, takes and closes that numbers them is read by no decision of the code.
- Copier: which blocked workers a signal releases, chunk sizes and failures come from the schedule, constrained as the standard says.
- Directory copier of sys05: its own file is not modelled a second time; without the barrier its workers end at the state the model calls AtBarrier.
- Scheduler: stack bytes and the relocation of esp and ebp; a saved context is a value of four registers and an opaque image of the rest.
- TaskManagement.TaskManager.AddTask: takes the slot it fills as allocated, where the code writes through a null one (multitasking.cpp:192); the code never sets the gdt of that slot, so the model leaves it open.
- TaskManagement.TaskManager.ForkTask: `new` is taken to succeed.
- Scheduler: the process counter is unbounded; a run makes at most 256 tasks, so it never wraps.
- SchedulerProgress.AlwaysProgress: needs the run discipline, which the code does not enforce; SchedulerProgress.ProgressExactly is the exact condition.
- MemoryManagement.MemoryManager.Free: requires a live pointer and a region below 2^32, as the source demands without testing; which header a cast of an address yields is a map from addresses to chunks.
- Heap: alignment of the addresses handed out; `operator new` and `delete` only forward to malloc and free.
- Console: the video memory is an array of 2000 cells.
- Decimal: C leaves the negation of the least int undefined; two's complement is assumed.
- Descriptor: masks, shifts and disjoint ors of unsigned words are written as remainders, quotients and sums; `lgdt` and the selectors are left out.
- PideShop.Server.constructor: takes any pool sizes; the arrays of server.c:57-58 hold ten cooks and ten couriers, and `main` fills them without a test (server.c:149-160).
- Pide shop: sockets, log lines (which read an order after the unlock), sleeps and coordinates; the waits on the condition variable are idle time between critical sections.
- OrderTableProgress.NobodyStuck: says that a cook or courier has something to do, not that it is awake; one signal on a condition variable shared by both can wake a thread that cannot use it (server.c:229).
- Parking: the fixed scenario of simulateNoTemporarySpots and the sleeps.
- FAT12 driver of os02, the FIFO file server of sys03, the process plumbing of sys02 and the student database of sys01.
- Drivers, PCI, ports, graphics, keyboard, mouse, widgets, linker and boot code of os01.
