# Proofs about the kernel labs

This project models the parts of the lab kernel modules that hold real state machines, heap
structures or arithmetic, and proves what their comments, tests and structure promise. Paths are
relative to the root of the repository. `dafny verify dfyconfig.toml` checks everything.

Protocols are transition systems over single memory accesses, so theorems about them quantify over
every interleaving. Code that updates objects or arrays in place is a class or method proved against
a function of the old state; the lemmas beside it say what that function means.

* **Lab 12, shared counters** (`CounterDevice`, `CounterMachine`, `CounterClients`, `CounterTest`).
  Any number of instances of the client, each a parent and the child it forks, run against one
  device. Every ioctl is split into its loads, stores and loop turns. No counter access of the ioctl
  path takes the spinlock, so everything rests on LOCK and UNLOCK. The invariant says what the device
  holds for each program counter of the mutex owner. From it: mutual exclusion, equivalence with whole
  sections run in lock order, every line of the right value, no overflow, no deadlock, and for every
  run that cannot go on exactly n lines of each kind.
* **Lab 13, deferred work** (`Deferred`, `FairTeardown`, `ProcessList`, `MonitorRuns`). Concurrent
  ioctl calls, the timer and its handler, both works, dying tasks and module exit. References and
  entries are accounted for in every reachable state, and exit leaves nothing behind. Once begun it
  completes under every fair schedule, although the handler arms its own timer again. `ProcessList`
  does the list on the heap, and `MonitorRuns` shows that a monitor pass and the drain at exit inside
  any interleaved run do the same.
* **Lab 13, stop handshake** (`StopHandshake`). `wait_event` is split so that a lost wake-up could
  happen; none does, and every run completes. A finding: exit may return while the thread has set its
  flag but not yet called `wake_up`, so the thread can still run when the module text goes away. In
  every reachable state this can still come about exactly if the thread is not done and exit has
  not slept in its wait or has returned already (`StopHandshake.ExitReturnsFirstExactly`).
* **Lab 10, name list** (`KernelList`, `EntryPool`, `NameList`, `ListCommands`). Heap nodes, the
  sentinel and the pointer splices; the loops that free the current entry while walking; the command
  parser with its wrapping size check. The theorem over a whole session is `ListCommands.Session`.
* **Lab 11, character device** (`CharDevice`, `CharSessions`). Windowed reads and writes refine
  slicing and overwriting a byte array, and interleaved callers behave like sessions one after another.
  A finding: the length is an unsigned difference, so a copy of at least one byte stays in the window
  exactly if the position is in it; SET_BUFFER can shrink the window below the position.
* **Lab 14, mmap** (`PageMapping`). After a successful mmap the window is the area's own memory in
  all three allocation variants; the fill loop's marker bytes are what a process sees.
* **Lab 9, primes** (`Primes`). Trial division up to the root, in 32-bit ints that wrap around as the
  kernel compiles them. A finding: the root loop ends exactly for arguments up to 2147483641
  (`Primes.StopsExactly`), at the root exactly up to 2147395600, and beyond it in between. Another: of
  the |n| for which the test ends, 2 is the only one it gets wrong (a negative n is judged by its
  absolute value, so -3 passes); 2 is reported as not prime because its rounded-up root is 2 itself.

`Basics` holds stock definitions, and `Sums` totals over sequences.

## Model

| member | source | states |
|---|---|---|
| `CounterDevice.Device.constructor` | kernel-utils/labs/lab12/driver/driver.c:227-230 | the loaded device is zeroed and has printed nothing |
| `CounterDevice.Device.InterruptHandler` | kernel-utils/labs/lab12/driver/driver.c:85-104 | the handler's stores, accumulation loop and line leave exactly counters -1 to -5, the old sum less 15, and one IRQ line with it |
| `CounterDevice.Device.Ioctl` | kernel-utils/labs/lab12/driver/driver.c:121-187 | what each command does to every counter, the sum and the log, said counter by counter; it is also its atomic meaning `Apply`; -EINVAL and no change for an unknown one |
| `CounterDevice.ApplyMeans` | kernel-utils/labs/lab12/driver/driver.c:129-186 | the atomic meaning of each command, counter by counter, for the sum and for the log |
| `CounterDevice.ApplyAllAfterLog` | kernel-utils/labs/lab12/driver/driver.c:129-186 | what commands compute and print does not depend on what was printed before |
| `CounterMachine.CommandRefines` | kernel-utils/labs/lab12/driver/driver.c:129-186 | each command run access by access, alone, is the atomic command, meets a free spinlock and never leaves the int range |
| `CounterMachine.CompileRefines` | kernel-utils/labs/lab12/driver/driver.c:129-186 | the same for every sequence of commands |
| `CounterMachine.OnlyHandlerLocks` | kernel-utils/labs/lab12/driver/driver.c:91-101 | the handler touches the device only between taking and giving back the spinlock and prints afterwards; no other command takes it |
| `CounterClients.StepOk` | kernel-utils/labs/lab12/driver/ioctl_test.c:20-110 | every single access of any client keeps the invariant that ties the owner's program counter to the contents of the device |
| `CounterClients.MutualExclusion` | kernel-utils/labs/lab12/driver/driver.c:177-182 | in every reachable state a client is between LOCK and UNLOCK iff it owns the mutex, and the device is all zero while nobody does |
| `CounterClients.SerialEquivalence` | kernel-utils/labs/lab12/driver/driver.c:129-186 | every interleaving has the counters, sum and log of whole sections run atomically in lock order, with the owner's accesses so far on top while the mutex is held; each client occurs once in that order, from its LOCK on |
| `CounterClients.OrderIsLockOrder` | kernel-utils/labs/lab12/driver/driver.c:177-179 | the order in that theorem is the one in which the steps of the schedule took the mutex |
| `CounterClients.EveryLineIsExpected` | kernel-utils/labs/lab12/driver/ioctl_test.c:24-107 | no interleaving prints a line that a section run alone would not print |
| `CounterClients.NothingOverflows` | kernel-utils/labs/lab12/driver/driver.c:121-187 | in every reachable state counters, sum and the working client's local values stay within a signed 32-bit int |
| `CounterClients.NeverStuck` | kernel-utils/labs/lab12/driver/ioctl_test.c:9-113 | while a client has not finished, some client can move |
| `CounterClients.WorkIsConserved` | kernel-utils/labs/lab12/driver/ioctl_test.c:9-113 | moves made plus moves left is constant over every run, so every run is finite |
| `CounterClients.LogIsOutput` | kernel-utils/labs/lab12/driver/driver.c:130-138 | the log is, as a multiset, exactly what the clients have printed according to their program counters |
| `CounterClients.EveryMaximalRunFinishes` | kernel-utils/labs/lab12/driver/test.sh:4-10 | a run that cannot go on has finished every client in exactly the total number of moves and printed each line as often as that many sections do |
| `CounterTest.ParentSectionMeans` | kernel-utils/labs/lab12/driver/ioctl_test.c:26-61 | the parent's list on a zeroed device prints 15 and then 10 and zeroes the device again |
| `CounterTest.ChildSectionMeans` | kernel-utils/labs/lab12/driver/ioctl_test.c:64-107 | the child's list on a zeroed device prints -15 and then 25 and zeroes the device again |
| `CounterTest.IoctlTestRestores` | kernel-utils/labs/lab12/driver/ioctl_test.c:24-107 | both lists meet the condition under which the theorems about interleavings hold |
| `CounterTest.EveryLineShowsItsSum` | kernel-utils/labs/lab12/driver/ioctl_test.c:51-107 | for any number of instances and any interleaving every IOCTL0 line shows 15, IOCTL1 10, IOCTL2 25 and IRQ -15 |
| `CounterTest.FullScore` | kernel-utils/labs/lab12/driver/test.sh:12-35 | n instances that have run as far as they can score n points of each kind, 4n in all |
| `StopHandshake.StepOk` | kernel-utils/labs/lab13/kthread/kthread.c:31-87 | every step of either side keeps the invariant that a sleeper's wake-up is still to come |
| `StopHandshake.NeverStuck` | kernel-utils/labs/lab13/kthread/kthread.c:44-83 | unless both sides are done, one of them can move |
| `StopHandshake.NoLostWakeUp` | kernel-utils/labs/lab13/kthread/kthread.c:79-83 | a side is asleep only while the wake-up that will reach it has not been sent and it is in the queue |
| `StopHandshake.HandshakeCompletes` | kernel-utils/labs/lab13/kthread/kthread.c:74-87 | no run is longer than a fixed bound, and a run that cannot go on has both sides done, both flags set and nobody queued |
| `StopHandshake.ExitWaitsForTheFlag` | kernel-utils/labs/lab13/kthread/kthread.c:82-86 | exit returning implies the terminated flag, which implies the stop flag |
| `StopHandshake.ExitReturnsFirstExactly` | kernel-utils/labs/lab13/kthread/kthread.c:49-86 | in every reachable state some continuation lets exit return before the thread is done iff the thread is not done and exit has not slept or has returned already |
| `StopHandshake.ExitThatSleptOutlivesThread` | kernel-utils/labs/lab13/kthread/kthread.c:49-53 | if exit ever slept, it returns only after the thread's last wake-up |
| `StopHandshake.ExitMayReturnFirst` | kernel-utils/labs/lab13/kthread/kthread.c:49-50 | a concrete run in which exit returns while the thread has not yet called `wake_up` |
| `Deferred.StepOk` | kernel-utils/labs/lab13/deferred/kernel/deferred.c:94-255 | every step of every actor keeps the account of entries and references, the lock discipline and the order of teardown |
| `Deferred.RearmingHandler` | kernel-utils/labs/lab13/deferred/kernel/deferred.c:112-127 | a handler caught at any point ends with the timer pending iff it was pending or the flag tests still ahead lead to `mod_timer`, with the io work queued iff it was or ALLOC is still ahead, and with the monitor queued iff it was or MON is |
| `Deferred.FiringAlone` | kernel-utils/labs/lab13/deferred/kernel/deferred.c:112-127 | the whole state a timer that fires leaves if nothing comes in between: SET arms again, ALLOC queues the io work, MON queues the monitor and arms again |
| `Deferred.SettingAlone` | kernel-utils/labs/lab13/deferred/kernel/deferred.c:152-168 | SET and ALLOC can be called and, run to their return alone, leave their flag and a pending timer and change nothing else |
| `Deferred.CancellingAlone` | kernel-utils/labs/lab13/deferred/kernel/deferred.c:158-161 | CANCEL likewise leaves the timer not pending and changes nothing else |
| `Deferred.MonitoringAlone` | kernel-utils/labs/lab13/deferred/kernel/deferred.c:170-185 | MON likewise leaves a new entry of the task first in the list, one more reference on the task, the MON flag, a pending timer and a free lock, and changes nothing else |
| `Deferred.NewEntryIsNew` | kernel-utils/labs/lab13/deferred/kernel/deferred.c:78-85 | that entry was never allocated before |
| `Deferred.IoAlone` | kernel-utils/labs/lab13/deferred/kernel/deferred.c:89-92 | queued io work can start, not twice at a time, and ends with nothing else changed |
| `Deferred.CancelledMeans` | kernel-utils/labs/lab13/deferred/kernel/deferred.c:158-161 | the model's mark of a CANCEL is set iff the last ioctl step of the run that armed or cancelled the timer was a CANCEL |
| `Deferred.TimerStaysArmed` | kernel-utils/labs/lab13/deferred/kernel/deferred.c:112-190 | outside every ioctl, with flag SET or MON, unless the last ioctl step of the run that armed or cancelled the timer was a CANCEL: the timer is pending or its handler will re-arm it |
| `Deferred.ReferencesBalance` | kernel-utils/labs/lab13/deferred/kernel/deferred.c:67-110 | while no sweep is under way the references on a task are its entries in the list plus those obtained and not yet linked |
| `Deferred.PutAndFreedOnce` | kernel-utils/labs/lab13/deferred/kernel/deferred.c:98-107 | over every run an entry is put and freed at most once, freed only after being put, never listed once freed, and only tasks with a reference are looked at |
| `Deferred.GoneIsQuiet` | kernel-utils/labs/lab13/deferred/kernel/deferred.c:231-255 | when exit is done the timer is neither pending nor running, no work is queued or running, the list is empty, no reference is left and every entry ever allocated was put and freed |
| `Deferred.GoneIsFinal` | kernel-utils/labs/lab13/deferred/kernel/deferred.c:231-255 | after that only tasks can die, so nothing undoes it |
| `Deferred.TeardownTerminates` | kernel-utils/labs/lab13/deferred/kernel/deferred.c:240-254 | once the timer is deleted every step but a task's death lowers a measure |
| `Deferred.TeardownIsBounded` | kernel-utils/labs/lab13/deferred/kernel/deferred.c:240-254 | on every path from there the steps other than deaths plus the measure left are at most the measure at its start |
| `Deferred.CallsNotBlocked` | kernel-utils/labs/lab13/deferred/kernel/deferred.c:144-190 | calls in flight can always be brought closer to their return, whoever holds the lock |
| `Deferred.ExitNotBlocked` | kernel-utils/labs/lab13/deferred/kernel/deferred.c:240-254 | what exit waits for can always move |
| `Deferred.OnlyDeathsMeansGone` | kernel-utils/labs/lab13/deferred/kernel/deferred.c:231-255 | a state in which only tasks can die is one where exit is done |
| `Deferred.ExitCanComplete` | kernel-utils/labs/lab13/deferred/kernel/deferred.c:231-255 | from every reachable state, also before exit has begun, some continuation completes teardown |
| `FairTeardown.FairExitCompletes` | kernel-utils/labs/lab13/deferred/kernel/deferred.c:231-255 | every endless run in which exit has begun reaches its end and stays there, if deaths are not all that happens, a started handler moves on, and `del_timer_sync` gets through when it finds the handler at rest again and again |
| `ProcessList.Monitored.GetProc` | kernel-utils/labs/lab13/deferred/kernel/deferred.c:67-86 | on success one more reference is held, for an entry not yet in the list; -ESRCH and -ENOMEM exactly in their cases and without a reference |
| `ProcessList.Monitored.Link` | kernel-utils/labs/lab13/deferred/kernel/deferred.c:177-179 | the new entry is first, and the references still equal the entries listed and those not yet linked |
| `ProcessList.Monitored.MonitorPass` | kernel-utils/labs/lab13/deferred/kernel/deferred.c:94-110 | on the heap, with tasks dying during the pass, the list becomes the survivors and exactly the removed entries' references are returned; no freed entry is touched, as every access is through a member of `KernelList.Node` that requires so |
| `ProcessList.KeptWereAlive` | kernel-utils/labs/lab13/deferred/kernel/deferred.c:98-107 | an entry survives a pass iff its task was alive when it was visited |
| `ProcessList.DeadAtMeans` | kernel-utils/labs/lab13/deferred/kernel/deferred.c:99 | dead at a visit are those dead before the pass and those that died before or at it |
| `ProcessList.SurvivorsWereAlive` | kernel-utils/labs/lab13/deferred/kernel/deferred.c:98-107 | the survivors are those entries in their old order |
| `ProcessList.DeadAreRemoved` | kernel-utils/labs/lab13/deferred/kernel/deferred.c:99-107 | a task dead when the pass began is gone afterwards |
| `MonitorRuns.PassInRun` | kernel-utils/labs/lab13/deferred/kernel/deferred.c:94-110 | in every run, a monitor that has taken the lock after a state and no longer has it in a later one has left exactly the entries whose task was alive when tested, in order, none of them dead when it began, and agrees with the pass on the heap; that it reaches the end of the list is proved and not assumed |
| `MonitorRuns.MonitorAlone` | kernel-utils/labs/lab13/deferred/kernel/deferred.c:94-110 | queued monitor work can start, and alone it tests the whole list once: every entry of a dead task goes, every other stays, and nothing stays queued or locked |
| `MonitorRuns.FiringMonitors` | kernel-utils/labs/lab13/deferred/kernel/deferred.c:94-127 | a timer that fires with MON, left alone, ends with no dead task in the list, every living one still in it, and the timer pending again |
| `MonitorRuns.DrainInRun` | kernel-utils/labs/lab13/deferred/kernel/deferred.c:245-254 | in every run, exit that has taken the lock and no longer has it is done: the list is empty, every reference returned, and exactly the entries listed at its start were put and freed by it, once each, so that all ever allocated are freed |
| `ProcessList.Monitored.Drain` | kernel-utils/labs/lab13/deferred/kernel/deferred.c:245-254 | the drain empties the list, frees every entry ever allocated and returns every reference the list held |
| `KernelList.List.AddFirst` | kernel-utils/labs/lab10/api_assignment/kernel-api/list.c:51 | `list_add` on the heap keeps a well-formed ring and prepends |
| `KernelList.List.AddLast` | kernel-utils/labs/lab10/api_assignment/kernel-api/list.c:54 | `list_add_tail` keeps a well-formed ring and appends |
| `KernelList.List.Delete` | kernel-utils/labs/lab10/api_assignment/kernel-api/list.c:66 | `list_del` keeps a well-formed ring without that entry, whose links are poisoned, and frees nothing |
| `EntryPool.Pool.Discard` | kernel-utils/labs/lab10/api_assignment/kernel-api/list.c:66-67 | unlinking and freeing moves one entry from linked to freed; allocated stays linked plus freed |
| `NameList.Add` | kernel-utils/labs/lab10/api_assignment/kernel-api/list.c:35-59 | 'f' prepends, 'e' appends, another mode or a name of 128 or more changes nothing and fails |
| `NameList.DeleteFirst` | kernel-utils/labs/lab10/api_assignment/kernel-api/list.c:60-73 | the list becomes `RemoveFirst` of it; -1 iff the name was absent |
| `NameList.DeleteAll` | kernel-utils/labs/lab10/api_assignment/kernel-api/list.c:74-85 | the walk that frees its current entry ends and leaves `RemoveAll` of the list; no freed node is touched, as every access is through a member of `KernelList.Node` that requires so |
| `NameList.Destroy` | kernel-utils/labs/lab10/api_assignment/kernel-api/list.c:87-96 | the list is empty and every entry ever allocated is freed |
| `NameList.Show` | kernel-utils/labs/lab10/api_assignment/kernel-api/list.c:101-109 | the preview is the concatenation of the names in order |
| `NameList.ConcatJoins` | kernel-utils/labs/lab10/api_assignment/kernel-api/list.c:104-106 | the preview of two lists is that of the first followed by that of the second, and that of one name is the name |
| `NameList.RemoveFirstTakesFirst` | kernel-utils/labs/lab10/api_assignment/kernel-api/list.c:64-70 | exactly the first equal name goes, or nothing if there is none |
| `NameList.RemoveAllKeepsOthers` | kernel-utils/labs/lab10/api_assignment/kernel-api/list.c:78-83 | every equal name goes and every other name stays as often as it was |
| `NameList.RemoveAllSplits` | kernel-utils/labs/lab10/api_assignment/kernel-api/list.c:78-83 | removal works on the two parts of any split separately, so the survivors keep their order |
| `NameList.RemoveAllKeeps` | kernel-utils/labs/lab10/api_assignment/kernel-api/list.c:78-83 | what removing all leaves is what stood at the positions of other names, in order |
| `ListCommands.AcceptedExactly` | kernel-utils/labs/lab10/api_assignment/kernel-api/list.c:132-172 | the parse accepts iff min(count, 1024) bytes are readable, it is 5 to 132 and the first four bytes are "addf", "adde", "delf" or "dela" |
| `ListCommands.EffectMeans` | kernel-utils/labs/lab10/api_assignment/kernel-api/list.c:132-174 | said from the bytes: addf puts the name first, adde last, delf takes out its first occurrence, dela all of them with the others kept in order, and any other write changes nothing; and which write returns the cut size, -EFAULT or -EINVAL |
| `ListCommands.AcceptedNameFits` | kernel-utils/labs/lab10/api_assignment/kernel-api/list.c:38-39 | an accepted name is NUL-free and shorter than 128, so this length check never fires |
| `ListCommands.RoundTrip` | kernel-utils/labs/lab10/api_assignment/kernel-api/list.c:142-172 | formatting then parsing returns the instruction and any NUL-free name shorter than 128 |
| `ListCommands.FormatNormalises` | kernel-utils/labs/lab10/api_assignment/kernel-api/list.c:142-172 | any accepted write means the same as the formatted form of its parse |
| `ListCommands.NameSizeWraps` | kernel-utils/labs/lab10/api_assignment/kernel-api/list.c:147-151 | the unsigned size of a write shorter than 5 wraps to a huge value, so the check passes iff the size is 5 to 132 |
| `ListCommands.StrNCpy` | kernel-utils/labs/lab10/api_assignment/kernel-api/list.c:144-154 | the bounded copy in place: the C string, then NULs up to the bound, nothing beyond |
| `ListCommands.ReadCommand` | kernel-utils/labs/lab10/api_assignment/kernel-api/list.c:132-172 | for any bytes and count the buffer handling stays in range, finds exactly the parse and returns the cut size, -EFAULT or -EINVAL each exactly in its case; an accepted name fits |
| `ListCommands.Write` | kernel-utils/labs/lab10/api_assignment/kernel-api/list.c:123-175 | the same on the heap list, with the list well formed; also as the parse's effect and reply |
| `ListCommands.Session` | kernel-utils/labs/lab10/api_assignment/kernel-api/list.c:101-226 | for any sequence of writes, the names after each are what its bytes make of those before; the preview is their concatenation at the end, and at unload every entry ever allocated is freed |
| `CharDevice.Minor.Open` | kernel-utils/labs/lab11/my_cdev.c:50-77 | succeeds and takes `access` iff it was 0, otherwise -EBUSY and no change |
| `CharDevice.Minor.Release` | kernel-utils/labs/lab11/my_cdev.c:79-88 | gives `access` back |
| `CharDevice.Minor.SetBuffer` | kernel-utils/labs/lab11/my_cdev.c:148-153 | the bytes that came replace the buffer's start, zeros the rest of the 256, and the window shrinks to what came; -EFAULT iff not all came |
| `CharDevice.Minor.GetBuffer` | kernel-utils/labs/lab11/my_cdev.c:143-146 | hands over exactly the window |
| `CharDevice.StaysInWindowExactly` | kernel-utils/labs/lab11/my_cdev.c:95-116 | for every size, position and count, a copy of at least one byte stays in the window iff the position is in it, and then its length is what is left, cut by the count |
| `CharDevice.BehindTheWindow` | kernel-utils/labs/lab11/my_cdev.c:95-116 | from a position behind the window every possible count is copied in full |
| `CharDevice.ReadBehindTheWindow` | kernel-utils/labs/lab11/my_cdev.c:90-153 | a concrete run: fill the device, SET_BUFFER, read one byte, and the copy leaves the buffer |
| `CharDevice.File.ReadInto` | kernel-utils/labs/lab11/my_cdev.c:90-106 | for every position and count; in the window it returns the byte array's bytes at the position, cut at the end, and moves the position over them; behind it, what the wrapped length says |
| `CharDevice.File.WriteFrom` | kernel-utils/labs/lab11/my_cdev.c:108-129 | likewise for every position; in the window it overwrites those bytes in place and nothing else, and returns their length |
| `CharDevice.OnlyWindowChanges` | kernel-utils/labs/lab11/my_cdev.c:90-129 | a session changes no byte outside the positions it has moved over |
| `CharDevice.ReadsSeeTheStart` | kernel-utils/labs/lab11/my_cdev.c:90-129 | even a session that also writes reads the bytes that were there when it began |
| `CharDevice.WritesAreOneWrite` | kernel-utils/labs/lab11/my_cdev.c:108-129 | writes in any chunks are one write of all the data, cut at the end of the device |
| `CharDevice.ReadsAreOneRead` | kernel-utils/labs/lab11/my_cdev.c:90-106 | reads in any chunks concatenate to one slice |
| `CharDevice.NothingAfterTheEnd` | kernel-utils/labs/lab11/my_cdev.c:95-98 | once reads have reached the end, every further read returns nothing |
| `CharDevice.WrittenComesBack` | kernel-utils/labs/lab11/my_cdev.c:90-129 | bytes written in chunks come back, cut to the size, in chunks of any other sizes, and the old bytes follow them |
| `CharSessions.ExclusiveOpen` | kernel-utils/labs/lab11/my_cdev.c:50-88 | over all interleavings each minor has at most one open file, and `access` is 1 exactly while it has one |
| `CharSessions.OpenFileIsUsable` | kernel-utils/labs/lab11/my_cdev.c:79-129 | an open file's reads, writes and release are always possible |
| `CharSessions.OpenSucceedsExactly` | kernel-utils/labs/lab11/my_cdev.c:61-76 | an open succeeds, at position 0 and without touching the bytes, iff no file is open on the minor, and otherwise changes nothing |
| `CharSessions.SessionsAreRecorded` | kernel-utils/labs/lab11/my_cdev.c:50-129 | the model's record of a minor is, for every open that succeeded in the run, the operations made through its file until its release |
| `CharSessions.SessionsAreSerial` | kernel-utils/labs/lab11/my_cdev.c:50-129 | a minor holds what the sessions of the run leave when run one after another, and an open file has read what its session alone would have read; the sessions are read off the run's actions |
| `CharSessions.NextSessionReadsBack` | kernel-utils/labs/lab11/my_cdev.c:50-129 | in any run, what one session wrote is what a later one reads, cut to the size and followed by the bytes before it, if those in between only read; the sessions are read off the run's actions |
| `PageMapping.Device.Mmap` | kernel-utils/labs/lab14/kernel/mymmap.c:79-131 | each error exactly in its case; on success byte j of the window is the same physical byte as byte j of the area; pages outside never change |
| `PageMapping.Device.MapByPage` | kernel-utils/labs/lab14/kernel/mymmap.c:116-121 | the page loop over scattered frames maps page k to frame k, or -EAGAIN iff one of its requests is refused |
| `PageMapping.VariantsAgree` | kernel-utils/labs/lab14/kernel/mymmap.c:104-129 | on a contiguous area the page-by-page table equals the single remapping |
| `PageMapping.UserReadsArea` | kernel-utils/labs/lab14/kernel/mymmap.c:97-129 | whatever memory holds, the process reads the area's bytes |
| `PageMapping.UserWritesArea` | kernel-utils/labs/lab14/kernel/mymmap.c:97-129 | a byte the process writes changes that byte of the area and no other |
| `PageMapping.MarkPages` | kernel-utils/labs/lab14/kernel/mymmap.c:191-203 | the four marker bytes start every page and no other byte changes |
| `PageMapping.MappedPagesAreMarked` | kernel-utils/labs/lab14/kernel/mymmap.c:79-203 | every page a process maps begins with them |
| `PageMapping.InitThenMap` | kernel-utils/labs/lab14/kernel/mymmap.c:79-215 | from initialisation through mmap: on success, whatever the area holds later, the process finds those bytes in its window, and at first every page begins with the marker |
| `Primes.GetNearestSqrt` | kernel-utils/labs/lab9/prime_kmod.c:12-18 | for every argument up to 2147483641 it returns the first counter that stops the wrapping loop, and that is the root iff the argument is at most 2147395600 |
| `Primes.RootIsLeast` | kernel-utils/labs/lab9/prime_kmod.c:12-18 | the root is the least r >= 1 with r*r >= n |
| `Primes.ProductsFit` | kernel-utils/labs/lab9/prime_kmod.c:14 | every product up to the root is a signed 32-bit int iff n <= 2147395600 |
| `Primes.StopsExactly` | kernel-utils/labs/lab9/prime_kmod.c:14-16 | for every int the loop ends iff it is at most 2147483641 |
| `Primes.EndsAtRootExactly` | kernel-utils/labs/lab9/prime_kmod.c:12-18 | where the loop ends is the root iff n <= 2147395600; for a larger int it is beyond the root and at most 2^30 |
| `Primes.NeverStops` | kernel-utils/labs/lab9/prime_kmod.c:14-16 | above 2147483641 the loop's test holds for every counter |
| `Primes.SmallDivisor` | kernel-utils/labs/lab9/prime_kmod.c:25-29 | a composite has a divisor at most its root |
| `Primes.PassesMeansOddPrime` | kernel-utils/labs/lab9/prime_kmod.c:20-31 | no divisor up to where the loop ends iff n is a prime other than 2; by `Primes.StopsExactly` for every int up to 2147483641 |
| `Primes.TwoIsMissed` | kernel-utils/labs/lab9/prime_kmod.c:25-26 | for every int up to 2147483641, which are those for which the loop ends, the test is right iff it is not 2 |
| `Primes.CheckIfPrime` | kernel-utils/labs/lab9/prime_kmod.c:20-31 | for INT_MIN and every int of absolute value up to 2147483641, which are all for which it returns, it returns 1 iff the absolute value is a prime other than 2, else 0 |
| `Primes.PrimeModule.CountRandPrime` | kernel-utils/labs/lab9/prime_kmod.c:47-55 | each entry becomes, in place, the remainder by size + 1 of the unsigned int it reads as, and the global grows by the number of positions that then hold a prime other than 2, if none is above 2147483641 |
| `Primes.CountIsCardinality` | kernel-utils/labs/lab9/prime_kmod.c:52-55 | the count is the cardinality of the set of those positions |
| `Primes.ReduceMeans` | kernel-utils/labs/lab9/prime_kmod.c:49 | reducing is the remainder by size + 1 of the one unsigned int the entry reads as |
| `Primes.WrapMeans` | kernel-utils/labs/lab9/prime_kmod.c:14 | the wrapped product is the int that is the same modulo 2^32 |

## Left out

- Kernel services: `linux/list.h`, timers, work queues, wait queues, `remap_pfn_range` and the C string functions are not part of this repository; they are modelled by their documented behaviour. Memory is sequentially consistent.
- Device and proc registration, the text of `printk` other than the four sum lines, random bytes (a parameter of `Primes.PrimeModule.CountRandPrime`), allocation failure, signals, and failing user copies other than that of `list_write`.
- Real time: only pending, firing and running matter; the five second sleep of the io work is a step between its start and its end.
- Lab 12: interrupts from outside the INT ioctl, clients that do not lock (`simple_ioctl.c`), a failing open or fork, the mutex's own wait queue, vector patching and `free_irq`.
- CounterDevice.Device.Ioctl: leaves out LOCK and UNLOCK, which may block and are moves of the client in `CounterClients` instead.
- Lab 12: the parent may be scheduled before or after its child, but no scheduler fairness is assumed; finiteness of every run makes it unnecessary.
- Lab 13 kthread: termination of the thread after its function returns. `StopHandshake` ends when both functions have.
- Lab 13 deferred: failing `get_proc` returns an error pointer (lines 76 and 80) while its caller tests for NULL (line 174), so a failure is not caught there; the transition system starts MON with a lookup and an allocation that succeed, and `ProcessList.Monitored.Link` follows a success of `GetProc`. CANCEL during a running handler only removes a pending timer, as in the code, and no claim is made that the timer is then quiet.
- Lab 13 deferred: `get_proc` is one step in the transition system, while the code takes the reference only after `rcu_read_unlock` (lines 72-82); a task that disappears in between is not modelled.
- Deferred.ExitCanComplete: gives one completing continuation; under which schedules exit must complete is `FairTeardown.FairExitCompletes`. Without its fairness the handler may re-arm itself for ever before the deletion, and before exit has begun processes may go on opening the device.
- Lab 13 deferred: the interleaving is over list values; the pointers are those of `ProcessList`. `MonitorRuns.PassInRun` and `MonitorRuns.DrainInRun` tie the loops in the two together.
- Lab 10: commands are atomic, since the module has no lock, and each entry's name is a value rather than a 128-byte array in the entry.
- Lab 11: the runs of `CharSessions` are those without SET_BUFFER, `llseek` and positioned calls, and one call is one step there. What a copy that leaves the buffer does is not modelled.
- Lab 14: page protection and the physical frames' allocation; the frames are a parameter.
- Lab 9: ints wrap around, as with the kernel's compiler flags; the C language itself leaves overflow undefined. A negative size, a size of INT_MAX and an overflow of the counter `res` are outside.
- Weaker repeats of the above (`list_example.c`, `linked_list.c`, `prime_user.c`), lab 8, the samples and the scripts.
