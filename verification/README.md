# DCE kernel emulation: a verified model

DCE runs many virtual POSIX processes inside one address space under a scheduler that never
preempts: control changes hands only where a call waits, yields or exits.  Everything between two
such points is one step, so each component is modelled as a transition system whose steps do what
the code does, and its promises are theorems about every run.

| component | specification and theorems | as it runs |
|---|---|---|
| Library loader: one data section per library, shared lazily by all processes; two levels of reference counts; fork | `CoojaLoader`, `RefGraph`, `CoojaInvariant`, `CoojaUnload`, `CoojaRelease`, `CoojaLoad`, `CoojaClone`, `CoojaRuns`, `CoojaClaims` | `CoojaTable` |
| Process table: pids, fork, exit, zombies, waitpid | `ProcessTable`, `ProcessRuns`, `ProcessSteps` | `ProcessManager` |
| Mutexes and condition variables | `Sync`, `SyncRuns`, `SyncSteps`, `SyncTheorems`, `SyncSignals` | `SyncTable` |
| Threads: ids, handles, exit, join, detach | `Threads`, `ThreadRuns`, `ThreadSteps` | `ThreadTable` |
| Semaphores | `Semaphores` | `Semaphores.Semaphore` |
| Control messages | `ControlMessages` | `ControlMessages.Cmsg` |
| `getifaddrs` and netmasks | `IfAddr`, `Netdb` | `NetdbTable` |
| `poll` and `select` | `Polling` | `Polling.Process` |
| Test runner's worker pool | `WorkerPool`, `WorkerRuns` | `WorkerPool.Runner` |

The specifications are functions on values, because the theorems relate several operations and
whole runs.  Beside each stands a class or a set of array methods in the form of the source, with
its loops, recursion and fields changed in place; its methods leave the state as the functions
say.  A call that blocks is split at the point where it waits: one method runs up to there, another
runs on when the thread is scheduled again.

The modules `ProcessSteps`, `SyncSteps` and `ThreadSteps`, and the parts of the others with theorems
named after single steps, say what each operation of a run does to the fields of the state and what
it answers, without the functions of the specification, so that these are stated twice.

`Basics` has what several components share: optional values and lists without duplicates.

State that exists only to say what happened earlier is marked as history: logs of lock calls,
births and ends of processes, joins, the loads a process has not given back.

Where the code differs from what its callers may expect, the code was followed, and the model says
exactly when it does:

* A condition wait ignores the result of its inner lock call, so it can return 0 without the mutex
  (`SyncTheorems.DestroyedWhileWaiting`); `SyncTheorems.RunWaitReturns` gives the condition at its
  return and `SyncTheorems.RunWaitRegains` one on what happens meanwhile.
* A wait that wakes another thread when it releases the mutex yields before it joins the list, so a
  signal can be lost (`SyncSignals.LostSignal`, `SyncSignals.RunWaitJoins`), and a timeout leaves an
  entry behind (`SyncSignals.StaleEntry`, `SyncSignals.RunQueues`).
* A clone copies a module's count and then counts its dependents again, so a module that has one
  (`CoojaRuns.ForkPins`) stays in the clone's list when all its loads are closed, until the process
  ends (`CoojaClaims.RunPinned`, `CoojaClaims.PinnedRun`).
* A thread that is detached after it ended keeps its record for ever, so its process never ends with
  its last thread (`ThreadRuns.DetachedTooLate`, `ThreadRuns.RunLingers`, `ThreadRuns.RunNeverOver`).
* `poll` keeps the files it holds in a map from descriptors, so a descriptor given twice can leave a
  use behind (`Polling.TwiceHeld`, `Polling.PollLeaves`, `Polling.AlwaysBalanced`).
* Control messages store the aligned size where the length belongs, so payloads read back padded
  (`ControlMessages.OneByte`, `ControlMessages.ExactIfAligned`).
* The first pass of `getifaddrs` counts one statistics attribute a message and the second stores
  all of them (`Netdb.StatsOverrun`, `Netdb.StatsFit`).
* Two posts before the first woken waiter runs wake the same thread (`Semaphores.TwoPostsStrand`,
  `Semaphores.RunStrands`).

## Model

| member | source | states |
|---|---|---|
| CoojaRuns.RunRefines | ns-3-dce/model/cooja-loader-factory.cc:110-380 | Over every run of switches, stores, loads, forks, closes and exits, the lazy scheme does to each process's bytes what separate copies would; nothing uninitialised or freed is ever read, no record is missing |
| CoojaRuns.StepRefines | ns-3-dce/model/cooja-loader-factory.cc:110-380 | Each single operation keeps the tables sound and refines its counterpart on private copies |
| CoojaRuns.RunSwitchRestores | ns-3-dce/model/cooja-loader-factory.cc:110-134 | After a process is switched in, every data section it uses holds exactly what that process last left there |
| CoojaRuns.RunCountsExact | ns-3-dce/model/cooja-loader-factory.cc:300-347 | In every reachable state a library's count is the processes that have it plus its occurrences in open libraries' dependency lists, and it is open exactly when some process reaches it through dependencies |
| CoojaRuns.ForkPins | ns-3-dce/model/cooja-loader-factory.cc:140-168 | A clone both copies counts and counts dependents again: a module has more claims than loads in the clone exactly if it has a dependent, or had more already |
| CoojaClaims.RunPinned | ns-3-dce/model/cooja-loader-factory.cc:140-380 | Loads, closes, forks and switches never change by how much the claims on a module exceed its loads; so what exceeds them is listed until its process ends |
| CoojaClaims.RunClosedOut | ns-3-dce/model/cooja-loader-factory.cc:140-380 | In every reachable state in which a process has given back all its loads, its list holds exactly what pinned modules, or ones never referenced, reach through dependencies |
| CoojaClaims.PinnedRun | ns-3-dce/model/cooja-loader-factory.cc:146-160 | A run in which the clone closes all it inherited and a library is still in its list |
| CoojaClaims.RunBytesDefined | ns-3-dce/model/cooja-loader-factory.cc:263-296 | In every reachable state exactly the modules in the lists have bytes, and each of them has |
| CoojaClaims.RunModulesNeeded | ns-3-dce/model/cooja-loader-factory.cc:140-168 | The module list is always in dependency order and every count covers the loads not given back and the dependents |
| CoojaClaims.RunEvenUntilFork | ns-3-dce/model/cooja-loader-factory.cc:170-182 | Until the first fork a count is exactly loads plus dependents |
| CoojaClaims.RunCurrentLive | ns-3-dce/model/cooja-loader-factory.cc:263-296 | `current_buffer` is null or the buffer of exactly one live module of that library |
| CoojaClaims.RunLoads | ns-3-dce/model/cooja-loader-factory.cc:140-380 | In every run a load adds one to the loads of the running process, and to its claims, on the last file that was found, a close takes one back, the end of a process takes its own, and nothing else changes them; a clone has its parent's loads and a claim more for every dependent |
| CoojaClaims.RunDependencies | ns-3-dce/model/cooja-loader-factory.cc:183-299 | In every run a load records for each file that was found, and for the library it maps, the dependencies as listed |
| CoojaLoad.LastFoundIs | ns-3-dce/model/cooja-loader-factory.cc:217-299 | A load answers with x exactly if some entry of the list is found and for x and none found comes after it, and with nothing exactly if none is found |
| CoojaUnload.StartExecuteSafe | ns-3-dce/model/cooja-loader-factory.cc:110-134 | Switching in keeps everybody's private bytes and leaves all of the switched process's bytes live |
| CoojaUnload.StoreSafe | ns-3-dce/model/cooja-loader-factory.cc:110-134 | A store by the running process changes one byte of its own copy and nobody else's |
| CoojaUnload.UnloadSafe | ns-3-dce/model/cooja-loader-factory.cc:348-380 | Dropping a reference to a module, with all it frees, keeps counts exact, order, ownership and every surviving module's bytes, from the middle of any enclosing unload |
| CoojaUnload.UnloadEachSafe | ns-3-dce/model/cooja-loader-factory.cc:361-366 | The same for the dependencies of a module being deleted |
| CoojaUnload.FinishSafe | ns-3-dce/model/cooja-loader-factory.cc:367-376 | Deleting an unlisted module releases its library and buffer without disturbing the others |
| CoojaRelease.ReleaseSafe | ns-3-dce/model/cooja-loader-factory.cc:348-380 | Giving back a claim takes one from the loads and the claims of that process on that module, and disturbs no other process and no module that stays |
| CoojaRelease.ReleaseDropsExactly | ns-3-dce/model/cooja-loader-factory.cc:348-380 | A close drops exactly the modules that no remaining claim reaches through dependencies as they stood before |
| CoojaRelease.CloseSound | ns-3-dce/model/cooja-loader-factory.cc:348-380 | A close leaves the tables sound exactly if the module is not listed or the process has a claim on it |
| CoojaRelease.UnloadAllSafe | ns-3-dce/model/cooja-loader-factory.cc:330-347 | Ending a process gives back all its references and no others |
| CoojaRelease.NeededStays | ns-3-dce/model/cooja-loader-factory.cc:357-366 | A module with an open load, and every dependency of a listed module, is listed |
| CoojaLoad.LoadEntrySafe | ns-3-dce/model/cooja-loader-factory.cc:224-297 | One line of a dependency list is mapped once, initialised from the template, after saving whoever was live |
| CoojaLoad.LoadEachSafe | ns-3-dce/model/cooja-loader-factory.cc:224-297 | A whole dependency list in topological order loads without a missing dependency |
| CoojaLoad.LoadSafe | ns-3-dce/model/cooja-loader-factory.cc:170-299 | A load adds exactly the listed modules with fresh bytes and their dependencies, one load and one claim on the last that was found, and leaves all other bytes alone |
| CoojaClone.CloneModuleSafe | ns-3-dce/model/cooja-loader-factory.cc:146-166 | Copying a module finds all its dependencies in the clone and copies the live bytes |
| CoojaClone.CloneSafe | ns-3-dce/model/cooja-loader-factory.cc:140-168 | A clone starts with the parent's modules, order, counts and bytes, and the parent keeps its own |
| RefGraph.UnrefSound | ns-3-dce/model/cooja-loader-factory.cc:300-329 | Dropping a reference keeps every count exact for what remains to be dropped and leaves no node at zero behind |
| RefGraph.UnrefEachSound | ns-3-dce/model/cooja-loader-factory.cc:315-320 | The same for the whole dependency list of a deleted library |
| RefGraph.KeptIsReachable | ns-3-dce/model/cooja-loader-factory.cc:300-329 | What is kept is reachable from an outside reference |
| RefGraph.UnrefFreesExactly | ns-3-dce/model/cooja-loader-factory.cc:300-329 | Dropping one reference frees exactly what can no longer be reached |
| CoojaTable.LoaderTable.NotifyStartExecute | ns-3-dce/model/cooja-loader-factory.cc:110-134 | The loop over the module list swaps each section as the specification of a switch says |
| CoojaTable.LoaderTable.SwapModule | ns-3-dce/model/cooja-loader-factory.cc:116-132 | Save the previous owner's bytes, restore our own, remember it |
| CoojaTable.LoaderTable.LoadModule | ns-3-dce/model/cooja-loader-factory.cc:217-299 | The loop over the dependency list loads it entry by entry and answers the last one found, of which none found comes after |
| CoojaTable.LoaderTable.LoadFile | ns-3-dce/model/cooja-loader-factory.cc:170-182 | A load and the client's reference |
| CoojaTable.LoaderTable.OpenLibrary | ns-3-dce/model/cooja-loader-factory.cc:231-262 | A library not yet open gets a record, its template and a reference on each dependency |
| CoojaTable.LoaderTable.NewModule | ns-3-dce/model/cooja-loader-factory.cc:264-296 | A new module takes over the data section, re-initialised, and references its dependencies |
| CoojaTable.LoaderTable.CloneLoader | ns-3-dce/model/cooja-loader-factory.cc:140-168 | The loop over the parent's list produces the clone |
| CoojaTable.LoaderTable.CopyModule | ns-3-dce/model/cooja-loader-factory.cc:146-166 | One module of a clone |
| CoojaTable.LoaderTable.UnrefSharedModule | ns-3-dce/model/cooja-loader-factory.cc:300-329 | The recursive drop terminates and leaves the library table as specified |
| CoojaTable.LoaderTable.FreeModule | ns-3-dce/model/cooja-loader-factory.cc:369-375 | Forget the live bytes, drop the library, free the buffer |
| CoojaTable.LoaderTable.UnloadModule | ns-3-dce/model/cooja-loader-factory.cc:348-380 | The recursive unload terminates and leaves the tables as specified |
| CoojaTable.LoaderTable.ReleaseModule | ns-3-dce/model/cooja-loader-factory.cc:348-380 | Unload called by the client for one of its loads |
| CoojaTable.LoaderTable.UnloadEverything | ns-3-dce/model/cooja-loader-factory.cc:330-347 | The loop over the list ends a process's modules in list order |
| ProcessRuns.RunFamily | ns-3-dce/model/dce-manager.cc:777-946 | In every reachable table children are exactly the processes naming this parent, a parent other than 0 or 1 is a live process, and a zombie has one |
| ProcessRuns.RunLosesNoWakeup | ns-3-dce/model/dce-wait.cc:37-106 | A thread asleep in waitpid and not yet woken has a live wanted child and no ended one |
| ProcessRuns.RunReapsOnce | ns-3-dce/model/dce-wait.cc:54-72 | Each ended child is handed out at most once, to the process that forked it, with its own exit value |
| ProcessRuns.RunScans | ns-3-dce/model/dce-wait.cc:37-106 | A scan fails with ECHILD exactly when no wanted child exists, answers the lowest-numbered ended child with its value when there is one, and otherwise sleeps or returns 0 |
| ProcessRuns.RunWaits | ns-3-dce/model/dce-wait.cc:21-109 | In every run waitpid answers EINVAL exactly for unsupported options and targets and else as the family stands; a woken waiter gets EINTR exactly if interrupted and else the same; the child handed out is gone and a caller is asleep exactly if that is the answer |
| ProcessRuns.RunZombieStays | ns-3-dce/model/dce-manager.cc:478-496 | The pid of an unreaped zombie is not reused: it stays until its parent is handed it or ends |
| ProcessRuns.StepKeeps | ns-3-dce/model/dce-manager.cc:588-946 | Start, fork, exit, stop, waitpid and spurious wakeups all keep the table sound |
| ProcessSteps.RunStarts | ns-3-dce/model/dce-manager.cc:293-367 | In every run a start makes one process with the first free pid above 1 from the cursor on, without a parent, without children, with value 0, and changes no other; or every candidate is unusable and the manager gives up |
| ProcessSteps.RunForks | ns-3-dce/model/dce-manager.cc:588-663 | In every run a fork makes such a process with the caller as its parent and of its birth, adds it to the caller's children, and changes nothing else |
| ProcessSteps.RunExits | ns-3-dce/model/dce-pthread.cc:70-95 | In every run an exit with value v leaves a zombie with value v, without children and threads, if the parent is above 1, and nothing otherwise; children get parent 1, those that had ended go, and the parent's threads are woken |
| ProcessSteps.RunStops | ns-3-dce/model/dce-manager.cc:700-713 | The same for a stop, with the value the process had |
| ProcessSteps.RunWaitChanges | ns-3-dce/model/dce-wait.cc:37-106 | In every run the child handed out leaves the table and its parent's children, a caller that waits is entered as asleep on what it wants, and no other answer changes anything |
| ProcessSteps.RunEndValues | ns-3-dce/model/dce-pthread.cc:70-95 | In every run a process has ended exactly if one exit or stop ended it, and its recorded value is the argument of that exit, or 0 |
| ProcessSteps.RunHandsOut | ns-3-dce/model/dce-wait.cc:54-72 | In every run the value waitpid hands out is the argument of the one exit of that child, or 0 if it was stopped |
| ProcessTable.ProbeFirst | ns-3-dce/model/dce-manager.cc:485-493 | The pid chosen is the first above 1 and unused from the cursor on |
| ProcessTable.PidExhausted | ns-3-dce/model/dce-manager.cc:485-495 | Allocation fails exactly when each of the 65535 candidates is reserved or taken |
| ProcessManager.Manager.AllocatePid | ns-3-dce/model/dce-manager.cc:478-496 | The loop finds that pid and leaves the 16-bit cursor just past it |
| ProcessManager.Manager.CreateProcess | ns-3-dce/model/dce-manager.cc:293-367 | A new process in the table |
| ProcessManager.Manager.Fork | ns-3-dce/model/dce-manager.cc:588-663 | A clone becomes a child of the caller |
| ProcessManager.Manager.DeleteProcess | ns-3-dce/model/dce-manager.cc:777-946 | Threads go, children are re-parented, the process becomes a zombie of a live parent or disappears |
| ProcessManager.Manager.OrphanChildren | ns-3-dce/model/dce-manager.cc:895-912 | The children get parent 1 and those already ended are deleted |
| ProcessManager.Manager.ChildFinished | ns-3-dce/model/dce-manager.cc:1098-1134 | All threads of the parent that wait for a child are woken |
| ProcessManager.Manager.Exit | ns-3-dce/model/dce-pthread.cc:70-95 | The exit value is recorded before the process ends |
| ProcessManager.Manager.Stop | ns-3-dce/model/dce-manager.cc:700-713 | Stopping an absent process does nothing |
| ProcessManager.Manager.ScanChildren | ns-3-dce/model/dce-wait.cc:37-106 | The loop over the children in pid order does one pass of waitpid |
| ProcessManager.Manager.Waitpid | ns-3-dce/model/dce-wait.cc:21-109 | Unsupported options and process groups are EINVAL; otherwise a scan |
| ProcessManager.Manager.ResumeWaitpid | ns-3-dce/model/dce-wait.cc:84-100 | A woken waiter scans again, or fails with EINTR on a signal |
| SyncTheorems.RunExcludes | ns-3-dce/model/dce-pthread-mutex.cc:137-301 | In every interleaving a mutex is owned exactly when its count is positive, a normal one is held once, and the count is the owner's successful locks less its unlocks, zero for everybody else |
| SyncTheorems.RunStrandsNobody | ns-3-dce/model/dce-pthread-mutex.cc:199-301 | The waiting list is exactly the threads in the retry loop, each once, and a free mutex with waiters has a runnable first waiter |
| SyncTheorems.RunNeverDangles | ns-3-dce/model/dce-pthread-mutex.cc:199-204 | No thread retries on a deleted mutex |
| SyncTheorems.RunHolds | ns-3-dce/model/dce-pthread-mutex.cc:173-301 | In every run a hold on a mutex is gained exactly when its thread finds it free, or recursive and its own, and lost exactly by its own unlock or wait, one at a time |
| SyncTheorems.RunAnswers | ns-3-dce/model/dce-pthread-mutex.cc:90-301 | The answer of every lock, trylock, unlock and initialisation in terms of who holds the mutex, that of a lock that had to wait included; success makes the caller the owner; whom an unlock wakes and what an initialised address names |
| SyncTheorems.RunDestroys | ns-3-dce/model/dce-pthread-mutex.cc:137-172 | Destroy succeeds exactly on a mutex with no owner and no thread in its retry loop |
| SyncTheorems.RunWaitReturns | ns-3-dce/model/dce-pthread-cond.cc:180-197 | A condition wait by the holder returns 0 or ETIMEDOUT holding the mutex as deep as before if and only if the address still names that mutex |
| SyncTheorems.RunWaitRegains | ns-3-dce/model/dce-pthread-cond.cc:180-197 | From its call to its return a condition wait by the holder regains the mutex as deep as before, unless meanwhile its address was overwritten or initialised or the mutex destroyed |
| SyncTheorems.NameKept | ns-3-dce/model/dce-pthread-mutex.cc:65-172 | An operation leaves the address naming the mutex exactly if it does not overwrite the word, initialise that address or destroy that mutex |
| SyncTheorems.RunNamed | ns-3-dce/model/dce-pthread-mutex.cc:65-172 | The same over any stretch of a run |
| SyncTheorems.DestroyedWhileWaiting | ns-3-dce/model/dce-pthread-cond.cc:192-196 | A run in which the mutex is destroyed during the wait, which then returns 0 without it |
| SyncSignals.RunFifo | ns-3-dce/model/dce-pthread-cond.cc:114-197 | Threads leave the list of a condition variable in the order in which they joined |
| SyncSignals.SignalsWakeFirst | ns-3-dce/model/dce-pthread-cond.cc:134-152 | k signals wake the first min(k, length) threads of the list and nobody else |
| SyncSignals.BroadcastIsSignals | ns-3-dce/model/dce-pthread-cond.cc:114-133 | A broadcast wakes all of them |
| SyncSignals.RunQueues | ns-3-dce/model/dce-pthread-cond.cc:114-197 | The list of a condition variable is the threads asleep on it, each once, exactly as long as none of them is woken by a timeout or for no reason |
| SyncSignals.StaleEntry | ns-3-dce/model/dce-pthread-cond.cc:153-179 | A run in which the entry of a wait that timed out stays on the list and a signal is spent on it |
| SyncSignals.RunWaitJoins | ns-3-dce/model/dce-pthread-cond.cc:180-197 | A wait joins the list in the step that releases the mutex exactly if that release wakes nobody |
| SyncSignals.LostSignal | ns-3-dce/model/dce-pthread-cond.cc:180-197 | A run in which a signal by the next holder of the mutex comes before the waiter is on the list, and the waiter sleeps on |
| SyncRuns.StepKeeps | ns-3-dce/model/dce-pthread-mutex.cc:90-301 | Every operation on mutexes and condition variables keeps the invariant behind these |
| SyncSteps.RunStatic | ns-3-dce/model/dce-pthread-mutex.cc:38-88 | In every run the first lock, trylock, unlock, wait or destroy on a word that is 0 makes a mutex with the next id and exactly the type stored there, gives it the owner and count of that call, and changes no other; with the answer of lock, trylock, unlock and destroy |
| SyncSteps.RunLocks | ns-3-dce/model/dce-pthread-mutex.cc:173-210 | In every run a lock takes the mutex the word stands for if it is free, or its own and recursive, fails on its own normal one, and otherwise puts its thread at the end of the list and sleeps; nothing else changes |
| SyncSteps.RunTries | ns-3-dce/model/dce-pthread-mutex.cc:211-260 | The same for trylock, which never waits |
| SyncSteps.RunUnlocks | ns-3-dce/model/dce-pthread-mutex.cc:261-301 | In every run an unlock by the owner takes one from the count; the last frees the mutex and wakes the first of the list, who stays on it; any other unlock changes nothing |
| SyncSteps.RunMakes | ns-3-dce/model/dce-pthread-mutex.cc:90-172 | What initialising and destroying a mutex leave: a free mutex of the type asked for under a new id; the mutex gone and its word marked |
| SyncSteps.RunWaits | ns-3-dce/model/dce-pthread-cond.cc:153-197 | In every run a wait gives up the mutex once and joins the end of the list, or yields first if that wakes somebody; it remembers the depth |
| SyncSteps.RunSignals | ns-3-dce/model/dce-pthread-cond.cc:72-152 | In every run a signal takes the first thread off the list and wakes it, a broadcast all of them, and nobody else; initialising makes an empty one |
| SyncSteps.RunResumes | ns-3-dce/model/dce-pthread-mutex.cc:199-209 | In every run a woken thread takes itself off the list and takes a free mutex, or goes to the end; a waiter locks the mutex its address names then and returns 0 or ETIMEDOUT |
| SyncSteps.RunWakes | ns-3-dce/model/dce-pthread-cond.cc:153-179 | A wakeup for no reason or by a timer moves the thread nowhere and leaves every list as it was |
| SyncTable.Primitives.SearchMutex | ns-3-dce/model/dce-pthread-mutex.cc:65-88 | A statically initialised mutex is created on first use |
| SyncTable.Primitives.InitMutex | ns-3-dce/model/dce-pthread-mutex.cc:90-136 | Initialisation, with EINVAL for a null address or an unknown type |
| SyncTable.Primitives.DestroyMutex | ns-3-dce/model/dce-pthread-mutex.cc:137-172 | EINVAL, EBUSY, or the mutex is gone and its word is 2 |
| SyncTable.Primitives.LockAt | ns-3-dce/model/dce-pthread-mutex.cc:173-210 | A lock call up to its result or its first wait |
| SyncTable.Primitives.RetryLock | ns-3-dce/model/dce-pthread-mutex.cc:199-209 | A woken thread takes itself off the list and tries again |
| SyncTable.Primitives.TryLockAt | ns-3-dce/model/dce-pthread-mutex.cc:211-260 | The two types of mutex differ in what the owner gets |
| SyncTable.Primitives.UnlockAt | ns-3-dce/model/dce-pthread-mutex.cc:261-301 | The last unlock wakes the first waiter and yields |
| SyncTable.Primitives.CondWait | ns-3-dce/model/dce-pthread-cond.cc:153-197 | Unlock, join the list, sleep |
| SyncTable.Primitives.CondInit | ns-3-dce/model/dce-pthread-cond.cc:72-85 | A new condition variable, or EINVAL for a null address |
| SyncTable.Primitives.CondSignal | ns-3-dce/model/dce-pthread-cond.cc:134-152 | Wake the first thread and take it off |
| SyncTable.Primitives.CondBroadcast | ns-3-dce/model/dce-pthread-cond.cc:114-133 | The loop wakes everybody on the list |
| SyncTable.Primitives.ResumeThread | ns-3-dce/model/dce-pthread-cond.cc:192-196 | What a thread does when it runs on inside a call |
| ThreadRuns.RunJoinsOnce | ns-3-dce/model/dce-pthread.cc:181-221 | At most one join per thread record succeeds, with the value the thread gave to exit |
| ThreadRuns.RunJoinerSafe | ns-3-dce/model/dce-pthread.cc:206-211 | The record a joiner waits on is live, joinable and waited on by nobody else; an unwoken joiner waits for a thread that has not ended |
| ThreadRuns.RunRecordStays | ns-3-dce/model/dce-pthread.cc:206-219 | Only the joiner itself can end its wait or delete the record, short of the end of the process |
| ThreadRuns.RunJoinAnswers | ns-3-dce/model/dce-pthread.cc:181-221 | What join answers at once: EDEADLK, ESRCH, EINVAL, the value, or sleep, each exactly |
| ThreadRuns.RunJoinReturns | ns-3-dce/model/dce-pthread.cc:206-220 | A joiner that runs on gets the exit value exactly if the thread has ended, and then the record goes; otherwise it waits on for the same record |
| ThreadRuns.RunDetachAnswers | ns-3-dce/model/dce-pthread.cc:222-246 | When detach answers ESRCH or EINVAL, and that it leaves a thread being joined alone |
| ThreadRuns.RunExitLeaves | ns-3-dce/model/dce-pthread.cc:149-180 | What a thread that ends leaves behind: nothing, or its value and a runnable joiner, or with the last record the end of the process |
| ThreadRuns.RunLingers | ns-3-dce/model/dce-pthread.cc:149-246 | The record of an ended thread stays for ever exactly if it was detached after the end, with nobody joining |
| ThreadRuns.RunNeverOver | ns-3-dce/model/dce-pthread.cc:149-180 | From then on its id is not given out again and no exit of a thread ends the process |
| ThreadRuns.DetachedTooLate | ns-3-dce/model/dce-pthread.cc:222-246 | A run after which no thread runs and the process has not ended |
| ThreadRuns.StepKeeps | ns-3-dce/model/dce-pthread.cc:127-246 | Create, exit, join, detach and spurious wakeups keep the records sound |
| ThreadSteps.RunSteps | ns-3-dce/model/dce-pthread.cc:127-246 | In every run each create, exit, join, detach and wakeup changes exactly the records, waits and answers it should: a new record has the least id nobody has and the next serial |
| ThreadSteps.RunExitValues | ns-3-dce/model/dce-pthread.cc:149-180 | In every run the value on record of a thread is the argument of its one exit |
| ThreadSteps.RunJoinValues | ns-3-dce/model/dce-pthread.cc:206-220 | In every run a join hands over the argument of that thread's exit |
| Threads.TidIsLeast | ns-3-dce/model/dce-manager.cc:497-521 | A new thread gets the least id unused in its process; there is none only if all are used |
| Threads.HandleRoundTrip | ns-3-dce/model/dce-pthread.cc:22-44 | Packing a pid and a tid and unpacking gives both back |
| Threads.LowerHalf | ns-3-dce/model/dce-pthread.cc:36-44 | A handle holds the pid in its lower 16 bits |
| Threads.HandleOnto | ns-3-dce/model/dce-pthread.cc:22-44 | Every 32-bit handle is the one of its two halves |
| ThreadTable.Process.AllocateTid | ns-3-dce/model/dce-manager.cc:497-521 | The nested loops find that id |
| ThreadTable.Process.CreateThread | ns-3-dce/model/dce-manager.cc:522-553 | The new record, at the end of the vector |
| ThreadTable.Process.SearchThread | ns-3-dce/model/dce-manager.cc:954-974 | The loop over the vector finds the thread with an id if there is one |
| ThreadTable.Process.DeleteThread | ns-3-dce/model/dce-manager.cc:748-775 | A record leaves the vector and is freed |
| ThreadTable.Process.ExitThread | ns-3-dce/model/dce-pthread.cc:149-180 | The value is left for a joiner, who is woken, or a detached thread is deleted; the last thread ends the process |
| ThreadTable.Process.JoinThread | ns-3-dce/model/dce-pthread.cc:181-221 | A join up to its result or its first wait |
| ThreadTable.Process.ResumeThread | ns-3-dce/model/dce-pthread.cc:206-220 | A woken joiner looks again |
| ThreadTable.Process.DetachThread | ns-3-dce/model/dce-pthread.cc:222-246 | ESRCH, EINVAL, or detached unless somebody is joining |
| Semaphores.RunConserves | ns-3-dce/model/dce-semaphore.cc:108-217 | Count plus successful waits equals first value plus posts in every interleaving, exactly if no post met the largest 32-bit count |
| Semaphores.RunListed | ns-3-dce/model/dce-semaphore.cc:146-151 | The waiting list is exactly the threads inside a wait, each once |
| Semaphores.RunStrands | ns-3-dce/model/dce-semaphore.cc:108-217 | In every run, timed waits included, the first waiter can run whenever the count is positive, exactly as long as no first waiter leaves with something left over while the second sleeps |
| Semaphores.RunStrandsNobody | ns-3-dce/model/dce-semaphore.cc:108-217 | If every woken waiter runs before the next post and no timed wait gives up while there is one to take, a positive count with waiters is one, and the first can run |
| Semaphores.RunAnswers | ns-3-dce/model/dce-semaphore.cc:134-217 | Every answer of every call: a thread gets one exactly when the count was positive and its timer had not run out |
| Semaphores.TwoPostsStrand | ns-3-dce/model/dce-semaphore.cc:121-130 | A run of two posts in a row that leaves a waiter asleep beside a positive count |
| Semaphores.RunSteps | ns-3-dce/model/dce-semaphore.cc:108-217 | In every run a post adds one to the 32-bit count and wakes the first of the list, a wait takes one or joins the end and sleeps, and a woken thread leaves the list and gives up, takes one or joins the end again; nothing else changes |
| Semaphores.RunHistory | ns-3-dce/model/dce-semaphore.cc:108-217 | In every run the posts and the successful waits of the history are the post operations and the waits answered with success |
| Semaphores.Semaphore.SemPost | ns-3-dce/model/dce-semaphore.cc:108-133 | The unsigned count goes up, the first waiter is woken |
| Semaphores.Semaphore.AttemptWait | ns-3-dce/model/dce-semaphore.cc:146-153 | Take one, or join the list and sleep |
| Semaphores.Semaphore.SemTryWait | ns-3-dce/model/dce-semaphore.cc:155-174 | EAGAIN at zero |
| Semaphores.Semaphore.SemTimedWait | ns-3-dce/model/dce-semaphore.cc:175-216 | The fast path, the late call and the loop |
| Semaphores.Semaphore.SemResume | ns-3-dce/model/dce-semaphore.cc:203-216 | Off the list; a timed wait that expired gives up |
| ControlMessages.RoundTrip | ns-3-dce/model/cmsg.cc:13-64 | After any additions and `Finish`, a new reader gets exactly the messages that fitted, in order, with level, type and padded payload, then -1; used plus left is constant and MSG_CTRUNC says exactly whether one did not fit |
| ControlMessages.ExactIfAligned | ns-3-dce/model/cmsg.cc:21-28 | A reader gets back exactly what was added if and only if every payload that fitted has a length divisible by 8 |
| ControlMessages.OneByte | ns-3-dce/model/cmsg.cc:21-28 | A payload of one byte comes back as eight |
| ControlMessages.AddAllWrites | ns-3-dce/model/cmsg.cc:13-30 | The additions lay the messages that fit one after the other and touch nothing behind them |
| ControlMessages.GetNextReads | ns-3-dce/model/cmsg.cc:33-58 | One read gives the next message and stands before the rest |
| ControlMessages.ImagesReadBack | ns-3-dce/model/cmsg.cc:33-58 | Reading until -1 gives all the messages that stand in the buffer |
| ControlMessages.AddExactly | ns-3-dce/model/cmsg.cc:13-30 | An addition that fits puts the size, the level, the type and the padded payload at the offsets 0, 8, 12 and 16 of the old position and writes nothing else; one that does not fit sets the flag and does nothing else |
| ControlMessages.NextExactly | ns-3-dce/model/cmsg.cc:33-58 | Reading from any buffer answers -1 exactly if no header is left or the stored size is 0 or more than is left, and otherwise level, type and size from those offsets |
| ControlMessages.Cmsg.AddMessage | ns-3-dce/model/cmsg.cc:13-30 | The bytes written in place by one addition, or the flag |
| ControlMessages.Cmsg.NextMessage | ns-3-dce/model/cmsg.cc:33-58 | The fields read from the bytes, or -1 |
| ControlMessages.Cmsg.FinishMessage | ns-3-dce/model/cmsg.cc:60-64 | The length left out of the message header |
| Netdb.ResultChain | ns-3-dce/model/dce-netdb.cc:386-994 | The list visits each distinct link once in first-seen order, then every address in message order, and ends |
| Netdb.ResultSays | ns-3-dce/model/dce-netdb.cc:608-966 | Links carry their latest flags, name and statistics; an address has its link's flags of the moment, its label or else the name of its link, which is the last that link got, its own socket addresses and a netmask with as many ones as its prefix |
| Netdb.RenamedLater | ns-3-dce/model/dce-netdb.cc:663-669 | An address listed under its link's first name goes by the name the link gets afterwards: both point to one buffer |
| Netdb.OursExactly | ns-3-dce/model/dce-netdb.cc:495-521 | Both passes look at exactly the messages that are not foreign and have no end marker before them in their response, in order |
| Netdb.CountsExactly | ns-3-dce/model/dce-netdb.cc:495-551 | The first pass counts as many links and addresses as there are link and address messages among them |
| Netdb.FirstStatsExactly | ns-3-dce/model/dce-netdb.cc:526-543 | What the first pass counts of a link message is the size of its first statistics attribute, or 0 |
| Netdb.LabelsKept | ns-3-dce/model/dce-netdb.cc:884-893 | A label ends the process exactly if it has 17 bytes or more; otherwise the last label of an address is kept |
| IfAddr.AllTraced | ns-3-dce/model/dce-netdb.cc:714-882 | Attribute after attribute leads to the two socket addresses: which one each is stored in and, by family and size, what is stored there |
| IfAddr.PointToPoint | ns-3-dce/model/dce-netdb.cc:721-882 | Whatever the order of the attributes: the address is the local one or else the destination; the other one is the destination of a point-to-point link unless a broadcast address comes after both |
| IfAddr.MaskOfRight | ns-3-dce/model/dce-netdb.cc:916-966 | There is a netmask exactly for an address of a family that can have one, and bit k is 1 exactly if k is below the prefix |
| Netdb.AssembleShape | ns-3-dce/model/dce-netdb.cc:575-712 | At every moment of the second pass the table holds the links seen so far and every pointer is where it must be, inside the counted slots |
| Netdb.StatsFit | ns-3-dce/model/dce-netdb.cc:526-543 | The statistics stay inside the allocated memory exactly if no link message has a non-empty second one |
| Netdb.StatsOverrun | ns-3-dce/model/dce-netdb.cc:672-677 | One link message with two statistics stores twice what was counted |
| Netdb.StatsApart | ns-3-dce/model/dce-netdb.cc:672-677 | The last statistics of each link lie within what is stored, and those of different links apart |
| NetdbTable.Findable | ns-3-dce/model/dce-netdb.cc:386-411 | The search for a slot never runs off the table |
| NetdbTable.Count | ns-3-dce/model/dce-netdb.cc:495-551 | The first pass counts links, addresses and statistics |
| NetdbTable.FindSlot | ns-3-dce/model/dce-netdb.cc:386-411 | The loop finds the slot of an index, or takes a free one and threads it |
| NetdbTable.FillLink | ns-3-dce/model/dce-netdb.cc:608-693 | What one link message does to the array |
| NetdbTable.FillAddrAttrs | ns-3-dce/model/dce-netdb.cc:714-909 | The loop over the attributes of one address message |
| NetdbTable.FillAddr | ns-3-dce/model/dce-netdb.cc:694-966 | What one address message does to the array; a label that is too long ends the process |
| NetdbTable.Fill | ns-3-dce/model/dce-netdb.cc:575-970 | The second pass, which ends early exactly if some address has a label that is too long |
| NetdbTable.SkipUnused | ns-3-dce/model/dce-netdb.cc:974-992 | The last loop: entries before unused slots lead behind them |
| NetdbTable.Getifaddrs | ns-3-dce/model/dce-netdb.cc:495-994 | Both passes and the last loop over the unused slots; nothing if there are no messages |
| NetdbTable.FillNetmask | ns-3-dce/model/dce-netdb.cc:944-966 | Bit k of the mask is 1 exactly if k is below the clamped prefix length, and the byte after a full mask stays 0 |
| Polling.PollCounts | ns-3-dce/model/dce-poll.cc:42-128 | The result is the number of entries with an event, and each event was asked for or is an error or hangup |
| Polling.PollEnds | ns-3-dce/model/dce-poll.cc:47-111 | poll ends with the first pass that finds something or after which the time is over, and reports for each open descriptor exactly what its file answers of what was asked |
| Polling.SelectReports | ns-3-dce/model/dce-poll.cc:224-246 | Each given set holds exactly the descriptors whose entry came back with an event of that set |
| Polling.PollLeaves | ns-3-dce/model/dce-poll.cc:59-120 | A use is left behind exactly if poll may wait and its first pass meets an open descriptor with two entries and nothing ready before the second |
| Polling.AlwaysBalanced | ns-3-dce/model/dce-poll.cc:59-120 | Whatever the files do, no use is left behind, if and only if the caller gave no time to wait or no descriptor twice |
| Polling.TwiceHeld | ns-3-dce/model/dce-poll.cc:59-120 | A call with two entries for one descriptor returns 0 with one use never released |
| Polling.SelectBalances | ns-3-dce/model/dce-poll.cc:157-209 | select passes distinct descriptors, so it leaves none |
| Polling.SelectCounts | ns-3-dce/model/dce-poll.cc:131-248 | A result is the total size of the three sets; write and except results were asked for; read results were asked for as such, or are in one of the sets and have an error or hangup |
| Polling.RequestsExactly | ns-3-dce/model/dce-poll.cc:157-200 | Exactly the descriptors below the limit that some set contains become entries, in increasing order, each asking to read, to write and for exceptions as the sets do |
| Polling.SelectAnswers | ns-3-dce/model/dce-poll.cc:131-209 | select answers EINVAL exactly for a limit of -1, no set or a negative time, else EBADF exactly if an asked-for descriptor is not open, and else returns when poll does |
| Polling.Process.PassOver | ns-3-dce/model/dce-poll.cc:51-80 | One pass over the entries, registering until one is ready |
| Polling.Process.DcePoll | ns-3-dce/model/dce-poll.cc:18-129 | Pass after pass until something is ready or the time is over, then the uses are released |
| Polling.Process.Gather | ns-3-dce/model/dce-poll.cc:157-200 | The entries, or EBADF |
| Polling.Process.FillSets | ns-3-dce/model/dce-poll.cc:224-246 | The loop that fills the three sets and counts |
| Polling.Process.DceSelect | ns-3-dce/model/dce-poll.cc:131-248 | The whole of select |
| WorkerPool.RunDeliversOnce | ns-3-dev-dce/test.py:940-1008 | When a run is over every job has come out exactly once and every worker was stopped by a break of its own |
| WorkerPool.RunTallies | ns-3-dev-dce/test.py:1633-1662 | The six tallies always add up to the results collected |
| WorkerPool.RunVerdict | ns-3-dev-dce/test.py:1858-1861 | The verdict is 0 exactly if every job passed or was skipped, none of them interrupted |
| WorkerPool.RunNeverStuck | ns-3-dev-dce/test.py:1611-1780 | Whatever the schedule and the interrupts, somebody can always go on until the run is over |
| WorkerPool.RunEnds | ns-3-dev-dce/test.py:1611-1780 | Every run ends, within six steps a job and one more a worker |
| WorkerRuns.RunTakesInOrder | ns-3-dev-dce/test.py:1405-1614 | In every run the queue holds the jobs dispatched and not taken, in order; the n-th job taken, by whichever worker, is the n-th test, and after the tests a break |
| WorkerRuns.RunChecks | ns-3-dev-dce/test.py:940-972 | In every run a worker stops exactly on a break, passes a test on exactly if there was an interrupt before or the test is to be skipped, and otherwise runs it |
| WorkerRuns.RunOutcomes | ns-3-dev-dce/test.py:947-1008 | Every result was put in its place by one step: the end of the run of that test, with the code it returned, or the passing on of a skipped or an interrupted one |
| WorkerRuns.RunTalliesEach | ns-3-dev-dce/test.py:1633-1662 | Each of the six tallies is the number of collected results of its own sort |
| WorkerRuns.RunVerdictMeans | ns-3-dev-dce/test.py:1858-1861 | The verdict is 0 exactly if every test was run and returned 0, or was passed on to be skipped, before any interrupt |
| WorkerRuns.RunInterrupts | ns-3-dev-dce/test.py:553-557 | The exit flag is set exactly if there was an interrupt |
| WorkerPool.StepKeeps | ns-3-dev-dce/test.py:940-1008 | Dispatching, working, collecting, joining and interrupts keep jobs, queues and workers in agreement |
| WorkerPool.Runner.DispatchAll | ns-3-dev-dce/test.py:1603-1614 | All jobs are queued in order, then one break for each worker |
| WorkerPool.Runner.CheckJob | ns-3-dev-dce/test.py:947-972 | Stop on a break, mark the job after an interrupt, pass on a skip, or run it |
| WorkerPool.Runner.FinishJob | ns-3-dev-dce/test.py:976-1008 | A job that was run goes to the output queue with its return code |
| WorkerPool.Runner.CollectJob | ns-3-dev-dce/test.py:1633-1662 | One result is taken and tallied |
| WorkerPool.Runner.JoinWorker | ns-3-dev-dce/test.py:1779-1780 | A worker that has stopped is joined |

## Left out

- The scheduler, fibers and the heap allocator of a process: any runnable thread may be next, and a thread may be woken at any time.
- Reading files, `dlopen`, ELF caching: a load is given its dependency list, in topological order, with the bytes of the images and the addresses that `malloc` answers with.
- The failed path of `execve`, which loads into a second loader while the old process keeps running.
- Processes after `execve` for mutex, semaphore and condition ids: the counters then start at 0, inside the reserved ids.
- Wrap-around of 32-bit reference counts, recursion depths and id counters of mutexes and condition variables; only the semaphore's count wraps.
- Pointers to records: modules, libraries, mutexes and conditions are found by id in tables that keep the order of the lists; the threads' vector keeps its own order.
- CoojaRuns.RunRefines: in its runs a process closes only what it loaded and has not closed yet, which the loader does not check; `CoojaRelease.CloseSound` says which other closes leave the tables sound.
- CoojaUnload.StoreSafe: a store is one byte into a section the running process has mapped; memory outside data sections is not modelled.
- ProcessManager.Manager.Exit: the value is the wait status that the code makes of the argument of `exit`, which it shifts up by eight bits.
- ProcessManager.Manager.DeleteProcess: files, streams, timers, memory and callbacks of the ending process are not modelled, only threads, family, exit value and wakeups.
- `pthread_cond_destroy`, attributes of condition variables, and the time arithmetic of timed waits: a timer may expire at any moment while the thread sleeps.
- Deleting or killing a thread while it is blocked in a mutex, condition, semaphore or join; a thread that ends with a stale entry on a condition's list.
- Signals to a thread that has ended but was not joined; thread-specific keys; cancellation.
- An empty waiting list at the last unlock of a mutex is taken to wake nobody.
- Looking up a semaphore by its address, its initialisation errors and `sem_getvalue`.
- Semaphores.RunStrandsNobody: holds for the order of posts, wakeups and timeouts it names; `Semaphores.RunStrands` has the exact condition for all runs.
- ControlMessages.Cmsg.AddMessage: lengths are non-negative and their aligned size fits an int, and the buffer is readable up to the next multiple of 8.
- ControlMessages.Cmsg.NextMessage: a stored length of 2^31 or more is not modelled; the C comparison would cut it down to an int.
- Netdb.ResultSays: hardware addresses of links are not modelled, nor where an address of 35 or 36 bytes of an unknown family ends beyond its place; flags, names, statistics, protocol addresses, netmasks and order are.
- Netdb.ResultChain: assumes that kernel indices are positive and that an address comes after its link; the code aborts or leaves gaps otherwise.
- The netlink socket exchange that collects the messages.
- Polling.Process.DcePoll: what other threads do to the use counts while the caller sleeps, and the wait queues of the files, are not modelled.
- Limits of `fd_set`, overflow of the timeout in milliseconds.
- Names, elapsed times, reports and the commands that run the tests, in the test runner.
- `dce-env.cc`: removing a variable duplicates the last entry and matching is by prefix, so the usual laws do not hold.
