# Verified models of the klee kernel

klee is a hobby x86-64 kernel written in C++. This project models the parts of it
that keep rich state, in Dafny 4.11, and proves what they promise over every
input, every run and every interleaving. `dafny verify dfyconfig.toml` checks it all.

Each part has the same build. Specification functions say what one operation does
to a value; an invariant and run theorems are proved about those functions; and,
where the C++ works by changing fields and arrays, classes with methods and loops
are proved equal to the functions, step by step.

| part | modules | main results |
|---|---|---|
| Scheduler (run queues, events, zombies, migration) | `Scheduler`, `SchedulerInvariant`, `SchedulerSteps`, `SchedulerEvents`, `SchedulerMigration`, `SchedulerRuns`, `SchedulerFairness`, `SchedulerTiming`, `SchedulerWaking`, `SchedulerBalance`, `SchedulerReturns`, `SchedulerDecides`, `SchedulerLivelock`, `SchedulerHang`, `SchedulerCases`, `SchedulerManager` | `ReachableOk`, `MigrationConserves`, `MigrationReturns`, `MigrationDecided`, `MigrationMayNotReturn`, `BoundedWaiting`, `RoundRobin`, `WaiterIsWoken`, `JoinerIsWoken`, `SuspendedThenSelected` |
| Page cache, and a disk and a partition sharing one | `PageCache`, `PageCacheExact`, `PageCacheViews` | `Copy`, `RunAll`, `StoredFileComesBack`, `ReadsSeeLatestWrite`, `ViewsCohere`, `SharesExactly`, `FailedWriteHarmlessExactly` |
| FAT32 chains and directories | `Fat`, `FatLayout`, `FatDirectory`, `FatListing`, `FatNames`, `FatEntries` | `Read`, `StoredFileReads`, `Readdir`, `AnswersAsFresh`, `ListingEnumerates`, `ShortEntryRoundTrip`, `LongNamedRoundTrip` |
| Page tables | `Paging`, `PagingMaps`, `PagingRuns`, `AddressSpace` | `RunTranslates`, `MapTakesEffectExactly` |
| Frame allocator and owning handles | `Bits`, `FrameAllocator`, `FrameOwnership` | `Allocate`, `BootIsExact`, `OwnershipIsExact`, `GrantsOnlyAvailableExactly` |
| xHCI rings | `XhciTrb`, `XhciRing`, `XhciEventRing` | `RingIsFifo`, `OneMoreExactly`, `RingStalls`, `EventsArriveInOrder` |
| xHCI port bring-up | `XhciPorts` | `StepOk`, `WaitingStartsExactly`, `ThirdPortNeverStarts` |
| virtqueue | `Virtqueue`, `VirtqueueRuns`, `VirtqueueDriver` | `RunIsSound`, `HandOutCollidesExactly`, `ReadTellsExactly`, `ReadingNeverEnds` |
| File handle counting | `FileHandles`, `FileHandleRuns`, `FileManager` | `OpenAccounts`, `OpenFollowsPath`, `CountsAndSharing`, `OpensExactly` |

What comes from outside is a parameter or a nondeterministic choice: device reads
may fail at any time (a set of bad positions, or a turn of events for each page), frames from the allocator hold
arbitrary bytes, `operator new` hands out any address not in use, the xHCI
controller and the VirtIO device take their steps whenever they like, registers
and device contexts are part of the event that reads them, and driver lookups and
mount points are a `World` given to each open.

Where a promise does not hold of the code, the code is kept, the exact condition
under which it does hold is proved, and a failing case is given:

- A saved FAT cursor parked at the end of the chain answers EndOfFile for entries
  it has passed, where a fresh handle would find them (`FatListing.AnswersAsFresh`;
  `ParkedCursorMisses` is such a directory).
- A cluster that reaches the end of the volume cannot be read
  (`FatLayout.BlockIsSlice`, `LastClusterIsRefused`).
- Files marked read-only, hidden or system are taken for long-name entries and not
  listed (`FatEntries.ListedExactly`); a file without a long name whose name's checksum
  is 0 is listed without a name (`FatEntries.ShortEntryRoundTrip`,
  `NamelessIsReported`).
- A partition shares pages with its disk correctly exactly when it starts on a page
  and ends on one or with the disk (`PageCacheExact.SharesExactly`; `StartBreaks`
  and `EndBreaks` are the failing cases).
- A write that fails changes no byte exactly when the range has no two absent pages
  after its first page (or its absent first page cannot be read, or blocks are larger
  than pages, when the write stops at once)
  (`PageCacheExact.FailedWriteHarmlessExactly`): an absent page inside the range is
  taken into the cache unread, and the write may still fail at a later absent one,
  as the first write of three pages or more can (`FirstWriteSpoilsExactly`).
- `migrate_threads` need not return: a boot run leads to a state from which no
  number of passes is enough (`SchedulerHang.MigrationMayNotReturn`). Whether it
  returns depends only on the processors' loads and on how many threads each cannot
  give away, and is decided by following so many passes over those numbers as they
  have values (`SchedulerDecides.MigrationDecided`). It does return, within
  `PassBound` passes, when what cannot be given away fits into every processor's
  share (`SchedulerReturns.MigrationReturns`). It need not end with the shares
  (`SchedulerLivelock.SharesMayBeMissed`); the same numbers decide what it ends with
  (`SchedulerReturns.FinalLoadsByNumbers`).
- Putting a thread to sleep, or ending it, keeps the processors consistent exactly
  when no other processor is running it (`SchedulerSteps.SleepKeepsExactly`,
  `SchedulerRuns.ExitKeepsExactly`; `SchedulerCases.SleepElsewhereBreaks` and
  `ExitElsewhereBreaks` are states reached from boot where it fails).
- The public `wakeup_thread` ignores its nice argument, so every thread stays at
  level 0 (`SchedulerTiming.NiceNeverTakesEffect`); the internal one that does set
  a level is right only on the calling processor's queues
  (`SchedulerTiming.WakeupWithNiceExactly`, `SchedulerCases.NiceElsewhereBreaks`); a
  thread suspended at tick 0 is not suspended (`SchedulerTiming.SuspensionTakesEffect`,
  `SchedulerCases.SuspensionAtBootFails`).
- Mapping an address in PML4 slot 0 changes no translation, because the slot's
  entry leads to the identity tables (`PagingRuns.MapTakesEffectExactly`); so no run
  gives a process access to a page there (`SlotZeroStaysClosed`).
- The allocator's range is inclusive, so it hands out one frame past the last
  available one, in some run from boot, exactly when the memory map ends there
  (`FrameOwnership.GrantsOnlyAvailableExactly`).
- A command ring takes one more TRB exactly when fewer than buffer_count - 1 are
  unconsumed, and one fewer still while the controller stands at the link; otherwise
  the controller reads nothing until the driver pushes on (`XhciRing.OneMoreExactly`).
  In a ring of any size a run leads there (`XhciRing.RingStalls`).
- One unplugged waiting port can keep the ports behind it out for good
  (`XhciPorts.ThirdPortNeverStarts`); a waiting port can still start exactly when
  some port is being addressed or unconnected (`XhciPorts.WaitingStartsExactly`).
- At most half a queue in flight is not enough to keep virtqueue descriptors apart
  when the device completes out of order (`VirtqueueRuns.CountIsNotEnough`,
  `HandOutCollidesExactly`); and once 65536 completions have been read,
  `read_one_buffer` no longer tells that none is left (`VirtqueueRuns.ReadTellsExactly`):
  a run leads there, and the next 2^32 - 65536 calls all report one, whatever the
  device does (`VirtqueueRuns.ReadingNeverEnds`).

## Model

| member | source | states |
|---|---|---|
| `SchedulerInvariant.QueuedOnce` | src/process/manager.hpp:58-99 | no thread is in two run queues or twice in one |
| `SchedulerInvariant.EventsExist` | src/process/manager.hpp:207-215 | every event a live thread waits for exists and lists it |
| `SchedulerInvariant.DeadIsUnreferenced` | src/process/manager.hpp:453-473 | in a consistent state nothing refers to a thread that does not exist |
| `Scheduler.FirstRunnable` | src/process/manager.hpp:44-76 | the pick from one queue is a runnable thread of it, and there is none exactly when none is runnable |
| `SchedulerSteps.SwitchPicks` | src/process/manager.hpp:58-76 | the state after a switch, in terms of the thread it picks |
| `SchedulerSteps.PicksFirstOfFirst` | src/process/manager.hpp:65-75 | the pick is, in the most urgent level that has a runnable thread, the runnable thread nearest the front |
| `SchedulerSteps.SwitchEffect` | src/process/manager.hpp:58-76 | a switch keeps waiter lists, process tables, who each thread is and where it runs |
| `SchedulerSteps.PickSucceeds` | src/process/manager.hpp:58-76 | on a captured processor the search always finds a thread, so the "run queue empty" failure is unreachable |
| `SchedulerSteps.SwitchOk` | src/process/manager.hpp:58-76 | switching threads keeps the whole invariant |
| `SchedulerSteps.WakeupOk` | src/process/manager.hpp:217-237 | waking a live thread keeps the whole invariant |
| `SchedulerSteps.SleepOk` | src/process/manager.hpp:239-252 | putting a thread to sleep keeps the invariant and completes its exit if it was exiting |
| `SchedulerSteps.SleepKeepsExactly` | src/process/manager.hpp:239-252 | the processors stay consistent exactly when no other one is running the thread |
| `SchedulerEvents.PushWaitersOk` | src/process/manager.hpp:207-215 | queueing a thread on several events keeps both sides of the lists mirrored, also when one event is missing |
| `SchedulerEvents.UnwaitAllOk` | src/process/manager.hpp:290-301 | leaving events keeps both sides mirrored |
| `SchedulerEvents.CancelOk` | src/process/manager.hpp:266-308 | a thread that starts exiting is in no waiter list any more and only its own zombie mark is left |
| `SchedulerEvents.NotifyOk` | src/process/manager.hpp:553-574 | notifying keeps the invariant, also in the middle of an exit |
| `SchedulerMigration.ThresholdsSumToTotal` | src/process/manager.hpp:635-641 | the processors' shares add up to the number of threads |
| `SchedulerMigration.FullEverywhere` | src/process/manager.hpp:640-675 | pigeonhole: if every processor has its share no thread can be missing |
| `SchedulerMigration.MigrationConserves` | src/process/manager.hpp:624-675 | if migration returns: nothing in hand, no thread lost or duplicated, immovable and current threads stay, each final load at most max(initial, share) and at least min(initial, share - 1) |
| `SchedulerMigration.TakesFirstOfLast` | src/process/manager.hpp:647-657 | the thread taken is, in the least urgent level that has a takeable thread, the takeable thread nearest the front |
| `SchedulerBalance.ShortageMovesOn` | src/process/manager.hpp:624-675 | where what cannot be given away fits the shares, a pass that uses up no excess moves the shortage towards the last processors |
| `SchedulerBalance.PassLowers` | src/process/manager.hpp:624-675 | where what cannot be given away fits the shares, every pass after which the loop goes round again lowers a measure of the loads |
| `SchedulerReturns.TakesExactly` | src/process/manager.hpp:624-675 | a processor has a thread to give exactly when it has more queued than it cannot give away |
| `SchedulerReturns.VisitIsLook` | src/process/manager.hpp:624-675 | what a visit does to the loads depends on the loads and those numbers alone, not on the threads |
| `SchedulerReturns.PassIsLooks` | src/process/manager.hpp:624-675 | nor does a whole pass |
| `SchedulerReturns.ReturnsByNumbers` | src/process/manager.hpp:624-675 | migration returns within so many passes exactly when the passes over the numbers settle |
| `SchedulerReturns.FinalLoadsByNumbers` | src/process/manager.hpp:624-675 | and the loads it ends with are those the passes over the numbers end with |
| `SchedulerDecides.SettlesAt` | src/process/manager.hpp:624-675 | the passes over the numbers settle within so many exactly when one of these takes no thread |
| `SchedulerDecides.Repeats` | src/process/manager.hpp:624-675 | among one pass more than the numbers have values, two leave the same numbers |
| `SchedulerDecides.MigrationDecided` | src/process/manager.hpp:624-675 | migration returns at all exactly when the passes over the numbers settle within as many as there are values |
| `SchedulerReturns.MigrationReturns` | src/process/manager.hpp:624-675 | if on every processor the threads that cannot be taken fit its share, migration returns within a bound given by the number of processors and threads |
| `SchedulerLivelock.NumbersNeverReturn` | src/process/manager.hpp:624-675 | from every consistent four-processor state with loads 3, 2, 3, 3 of which 2, 2, 2, 3 cannot be taken, no number of passes returns |
| `SchedulerLivelock.SharesMayBeMissed` | src/process/manager.hpp:624-675 | from every consistent state with loads 6, 2, 3, two of each pinned, migration ends with loads 5, 4, 2, not with the shares 4, 4, 3 |
| `SchedulerHang.JamIsReachable` | src/process/manager.hpp:586-622 | such a state is reached from boot, at any tick |
| `SchedulerHang.MigrationMayNotReturn` | src/process/manager.hpp:624-720 | so a run from boot leads to a timer tick at which migration is due and never returns |
| `SchedulerCases.SleepElsewhereBreaks` | src/process/manager.hpp:239-252 | in a state reached from boot, putting another processor's current thread to sleep breaks the processors' consistency |
| `SchedulerCases.ExitElsewhereBreaks` | src/process/manager.hpp:266-277 | and so does ending it |
| `SchedulerCases.NiceElsewhereBreaks` | src/process/manager.hpp:78-91 | and so does the internal wakeup with another level |
| `SchedulerCases.SuspensionAtBootFails` | src/process/manager.hpp:254-264 | and there, before the first tick, no suspension holds |
| `SchedulerRuns.BootOk` | src/process/manager.hpp:586-622 | the boot processor's manager starts consistent |
| `SchedulerRuns.CaptureOk` | src/process/manager.hpp:586-622 | capturing a processor's context adds its current and idle thread and keeps the invariant |
| `SchedulerRuns.AddThreadOk` | src/process/manager.hpp:192-205 | creating a thread keeps the invariant |
| `SchedulerRuns.ExitOk` | src/process/manager.hpp:266-277 | exiting a current thread keeps the invariant: zombie mark, cancelled events, notification, sleep |
| `SchedulerRuns.ExitKeepsExactly` | src/process/manager.hpp:266-277 | an exit keeps the invariant exactly when no other processor is running the thread |
| `SchedulerRuns.ZombieIsUnreferenced` | src/process/manager.hpp:453-473 | no queue, waiter list or processor refers to a zombie |
| `SchedulerRuns.FreeThreadOk` | src/process/manager.hpp:453-473 | freeing a zombie keeps the invariant |
| `SchedulerRuns.CurrentIsAlive` | src/process/manager.hpp:576-580 | a processor's current thread is alive, queued there, and current nowhere else |
| `SchedulerRuns.StepOk` | src/process/manager.hpp:352-720 | every manager operation keeps the invariant |
| `SchedulerRuns.RunKeepsInv` | src/process/manager.hpp:352-720 | so does every sequence of operations |
| `SchedulerRuns.ReachableOk` | src/process/manager.hpp:352-720 | every state reachable from boot, on any number of processors, satisfies the invariant |
| `SchedulerFairness.SwitchProgress` | src/process/manager.hpp:44-76 | a switch picks the waiting thread, or uses up one in front of it, when it is runnable then, a run-out suspension included |
| `SchedulerFairness.StepProgress` | src/process/manager.hpp:352-720 | no operation lets a thread in front of a waiting one, and each switch of its processor picks it or uses one of those up |
| `SchedulerFairness.MigrationCalm` | src/process/manager.hpp:624-675 | migration lets nobody in front of a thread it does not take |
| `SchedulerFairness.PinnedIsNotTaken` | src/process/manager.hpp:624-675 | and never takes one that is not movable |
| `SchedulerFairness.BoundedWaiting` | src/process/manager.hpp:44-76 | a thread with k in front of it is selected within the next k + 1 switches of its processor (timer, sleep, suspension, exit, wait), over every run in which it stays queued there and runnable, no more urgent thread is runnable, and no migration takes it |
| `SchedulerTiming.SuspensionTakesEffect` | src/process/manager.hpp:254-264 | a suspended thread, the caller itself included, is passed over exactly when at least one tick has been counted, and is then not picked at once |
| `SchedulerTiming.SuspendOwes` | src/process/manager.hpp:418-433 | suspend_thread_for_ms and suspend_this_thread_for_ms at tick T >= 1 leave the thread suspended from T for the ticks of its milliseconds |
| `SchedulerTiming.MsRounded` | src/process/manager.hpp:317-319 | the ticks are the milliseconds asked for, in tens, rounded down |
| `SchedulerTiming.SuspensionLasts` | src/process/manager.hpp:44-56 | a thread suspended at tick T >= 1 for n ticks is skipped in every later state before T + n, and no step before then picks it |
| `SchedulerTiming.SuspendedUntil` | src/process/manager.hpp:418-433 | both together: from the call on, over every run that does not suspend it again, the thread is not picked before T + n |
| `SchedulerTiming.NiceNeverTakesEffect` | src/process/manager.hpp:387-397 | over every run all threads stay at nice 0, whatever callers pass |
| `SchedulerTiming.BootIsNeutral` | src/process/manager.hpp:586-622 | the boot state has every thread at nice 0 |
| `SchedulerTiming.RoundRobin` | src/process/manager.hpp:44-76 | in every state reached from boot the k-th thread of a run queue is selected within k + 1 switches of its processor, as long as it stays queued there and runnable |
| `SchedulerTiming.SuspendedThenSelected` | src/process/manager.hpp:44-76 | a thread suspended at tick T >= 1 for n >= 1 ticks is not picked before T + n, and once that tick has come, with k in front of it, is selected within k + 1 switches |
| `SchedulerTiming.WakeupWithNiceExactly` | src/process/manager.hpp:78-91 | the internal wakeup with a nice level keeps the queues consistent exactly when the thread sleeps, runs on the calling processor, or already has that level |
| `SchedulerWaking.NotifyWakes` | src/process/manager.hpp:553-574 | the event has no waiters left; every waiter is awake, those who slept on the calling processor, at the back of its queues in the order they waited; nobody else changes |
| `SchedulerWaking.SleepSleeps` | src/process/manager.hpp:239-252 | whoever is put to sleep is asleep and in no run queue, and nobody else's placement changes |
| `SchedulerWaking.WaitSleeps` | src/process/manager.hpp:524-551 | waiting for events puts the caller to sleep, listed with each, exactly when all of them exist |
| `SchedulerWaking.ExitWakes` | src/process/manager.hpp:266-277 | every exit wakes all who wait for a thread to end |
| `SchedulerWaking.StepKeeps` | src/process/manager.hpp:352-720 | no operation of others makes a thread sleep or drops it from a list it waits in, and a notification of its event wakes it |
| `SchedulerWaking.WaiterIsWoken` | src/process/manager.hpp:524-574 | no wakeup is lost: over any later run of others, whoever waited for an event is awake once it was notified, and else still listed |
| `SchedulerWaking.JoinerIsWoken` | src/process/manager.hpp:453-473 | the caller of wait_thread sleeps, and is awake in every later state in which the thread it waits for has ended |
| `SchedulerWaking.CreateMakes` | src/process/manager.hpp:362-385 | a new thread sleeps under the first free number of its process; no other thread or number changes |
| `SchedulerWaking.WakeupStarts` | src/process/manager.hpp:387-397 | a sleeping thread that is woken stands at the back of the calling processor's queue of its level |
| `SchedulerWaking.MessageWakes` | src/process/manager.hpp:698-706 | posting a message wakes the kernel's message thread |
| `SchedulerWaking.ExitEnds` | src/process/manager.hpp:266-277 | an ended thread is a zombie, asleep, and referred to by nothing |
| `SchedulerWaking.JoinFrees` | src/process/manager.hpp:453-473 | waiting for a zombie frees it and its number, and changes no other thread |
| `SchedulerManager.FindEmptySlot` | src/util/dense-map.hpp:27-36 | finds the first free slot, or that there is none |
| `SchedulerManager.Manager.PickThread` | src/process/manager.hpp:58-76 | the level-by-level search finds that thread |
| `SchedulerManager.Manager.UpdateThisThread` | src/process/manager.hpp:58-76 | is the specified switch |
| `SchedulerManager.Manager.WakeupThread` | src/process/manager.hpp:217-237 | is the specified wakeup |
| `SchedulerManager.Manager.SleepThread` | src/process/manager.hpp:239-252 | is the specified sleep |
| `SchedulerManager.Manager.SuspendThreadForTick` | src/process/manager.hpp:254-264 | is the specified suspension |
| `SchedulerManager.Manager.PushThreadToEvents` | src/process/manager.hpp:207-215 | is the specified wait on a list of events, with its error |
| `SchedulerManager.Manager.CancelEventsOfThread` | src/process/manager.hpp:303-308 | walking the thread's own list empties every list it is in; the unknown-event assertion cannot fire |
| `SchedulerManager.Manager.NotifyEvent` | src/process/manager.hpp:553-574 | is the specified notification |
| `SchedulerManager.Manager.ExitThread` | src/process/manager.hpp:266-277 | is the specified exit |
| `SchedulerManager.Manager.WaitEventsThenSleep` | src/process/manager.hpp:524-536 | is the specified wait |
| `SchedulerManager.Manager.constructor` | src/process/manager.hpp:586-622 | yields the boot state |
| `SchedulerManager.Manager.CaptureContext` | src/process/manager.hpp:586-622 | is the specified capture |
| `SchedulerManager.Manager.CreateThread` | src/process/manager.hpp:362-385 | is the specified creation, or NoSuchProcess |
| `SchedulerManager.Manager.WakeupThreadById` | src/process/manager.hpp:387-397 | is the specified public wakeup; the nice argument has no effect |
| `SchedulerManager.Manager.SuspendThreadForMs` | src/process/manager.hpp:418-433 | is the specified suspension by identifiers |
| `SchedulerManager.Manager.ExitThisThread` | src/process/manager.hpp:448-451 | is the specified exit of the current thread |
| `SchedulerManager.Manager.WaitThread` | src/process/manager.hpp:453-473 | one round of waiting: frees a zombie, which nothing refers to any more, or sleeps |
| `SchedulerManager.Manager.WaitProcess` | src/process/manager.hpp:475-493 | one round of waiting for a process |
| `SchedulerManager.Manager.CreateEvent` | src/process/manager.hpp:495-501 | takes the first free event slot |
| `SchedulerManager.Manager.DeleteEvent` | src/process/manager.hpp:503-518 | removes an event nobody waits for, with both errors |
| `SchedulerManager.Manager.UnwaitEvents` | src/process/manager.hpp:543-551 | is the specified leaving of several events |
| `SchedulerManager.Manager.FindMovable` | src/process/manager.hpp:640-675 | the reverse search finds that thread, or that none may be taken |
| `SchedulerManager.Manager.MigrateThreads` | src/process/manager.hpp:624-675 | is the specified migration as long as it is watched |
| `SchedulerManager.Manager.SwitchThreadMayFail` | src/process/manager.hpp:677-696 | is the specified timer interrupt, when its migration returns |
| `Fat.FaultsOnlyHide` | src/fs/drivers/fat/driver.hpp:125-153 | a device fault can only turn an answer into IOError, never change it |
| `Fat.SeekClusterChain` | src/fs/drivers/fat/driver.hpp:155-176 | from any remembered position the result is the cluster reached from the start, or the walk's own error |
| `Fat.Read` | src/fs/drivers/fat/driver.hpp:305-322 | returns the concatenated clusters of the chain whatever was read before; a failure leaves the handle unchanged |
| `FatLayout.ClustersFollow` | src/fs/drivers/fat/driver.hpp:107-123 | cluster 2 begins after the reserved sectors and the tables, and each cluster where the one before it ends |
| `FatLayout.ClustersApart` | src/fs/drivers/fat/driver.hpp:107-123 | different clusters share no byte |
| `FatLayout.CopyReadsItsPlace` | src/fs/drivers/fat/driver.hpp:107-123 | copying from a cluster of a volume of at most 4 GiB reads the volume at that place, or refuses when it reaches the volume's end |
| `FatLayout.BlockIsSlice` | src/fs/drivers/fat/driver.hpp:107-123 | a cluster read whole is the volume's slice there, and can be read exactly when it ends before the volume does |
| `FatLayout.LastClusterIsRefused` | src/fs/drivers/fat/driver.hpp:115-117 | so a cluster that reaches the volume's end is refused |
| `FatLayout.EntryReads` | src/fs/drivers/fat/driver.hpp:125-135 | the table entry of cluster c is the word at the table's start plus 4c, its upper four bits not counting |
| `FatLayout.StoredEntryLeads` | src/fs/drivers/fat/driver.hpp:27-40 | what a number stored there means: next cluster, end, or broken |
| `FatLayout.StoredChainReads` | src/fs/drivers/fat/driver.hpp:137-176 | clusters chained in the table are walked in order, and then the file ends |
| `FatLayout.StoredFileReads` | src/fs/drivers/fat/driver.hpp:305-322 | any blocks of a file so stored are the bytes of its clusters, one after another |
| `FatDirectory.LongText` | src/fs/drivers/fat/fat.hpp:136-160 | the characters of the three fields up to the first NUL |
| `FatDirectory.CalcChecksum` | src/fs/drivers/fat/fat.hpp:94-100 | the rotate-and-add checksum of the eleven name characters, in eight bits |
| `FatDirectory.ResumeIsFresh` | src/fs/drivers/fat/driver.hpp:178-269 | scanning on from a saved cursor gives what a scan from the start gives, for every entry not passed |
| `FatDirectory.Readdir` | src/fs/drivers/fat/driver.hpp:178-269 | answers as the specified scan or fails with IOError; saves a correct cursor on success and none on failure |
| `FatListing.AnswersAsFresh` | src/fs/drivers/fat/driver.hpp:178-269 | a saved cursor answers like a fresh handle exactly when it is not parked at the end or the entry lies ahead |
| `FatListing.ParkedCursorMisses` | src/fs/drivers/fat/driver.hpp:178-269 | a directory of one full cluster, where the cursor that has read the entry cannot read it again |
| `FatListing.FreshIsNth` | src/fs/drivers/fat/driver.hpp:178-269 | the answer for index n describes the n-th counted entry on disk |
| `FatListing.NthIsOrdered` | src/fs/drivers/fat/driver.hpp:178-269 | counted entries are numbered in disk order, each once |
| `FatListing.FreshIsEntry` | src/fs/drivers/fat/driver.hpp:178-269 | the n-th answer describes the n-th of the directory's counted entries |
| `FatListing.ListingEnumerates` | src/fs/drivers/fat/driver.hpp:178-269 | asking for 0, 1, 2, ... lists the counted entries in disk order, each once, and all of them if EndOfFile ends it |
| `FatListing.List` | src/fs/drivers/fat/driver.hpp:349-365 | reading a directory on one handle until it fails is that listing, complete when it ends with EndOfFile |
| `FatListing.Find` | src/fs/drivers/fat/driver.hpp:324-343 | finds the first entry of the name, every earlier one having another |
| `FatNames.LongNameRoundTrip` | src/fs/drivers/fat/driver.hpp:212-245 | a name stored as long-name entries reads back as that name, its characters cut to bytes, unless looking up the cluster after the entry fails |
| `FatEntries.InfoReads` | src/fs/drivers/fat/fat.hpp:76-124 | a short entry written to the specified layout gives back its cluster, size, attribute and name |
| `FatEntries.ListedExactly` | src/fs/drivers/fat/driver.hpp:215-229 | a stored file is listed exactly when none of its read-only, hidden, system and volume bits is set |
| `FatEntries.ShortEntryRoundTrip` | src/fs/drivers/fat/driver.hpp:236-241 | a file stored without a long name is reported with its cluster, size and attribute, and with its name exactly when the name's checksum is not 0 |
| `FatEntries.LongNamedRoundTrip` | src/fs/drivers/fat/driver.hpp:212-245 | one stored with a long name is reported with that name and the same fields |
| `FatEntries.NamelessIsReported` | src/fs/drivers/fat/driver.hpp:239-239 | KERNEL.AA8, whose checksum is 0, is reported without a name |
| `PageCache.ProviderShifts` | src/fs/drivers/dev/block.hpp:40-67 | a stack of partition providers is the base cache shifted by the sum of their offsets |
| `PageCache.GrowthKeepsPages` | src/fs/pagecache.hpp:42-52 | growing through any view keeps every page in place and adds empty ones |
| `PageCache.FileOperator.AlignedExactly` | src/fs/drivers/dev/block.hpp:64-108 | a view is aligned exactly when provider and driver start at the same byte and it ends on a page or with its medium |
| `PageCache.FileOperator.DiskRead` | src/fs/drivers/dev/block.hpp:69-80 | a partition's blocks are the device's from its first sector on, aligned or not, unless the device fails |
| `PageCache.FileOperator.ReadPage` | src/fs/fs.hpp:72-84 | fills exactly the part of a frame that the file's blocks reach, and leaves the rest of the frame, unless the device fails |
| `PageCache.LoadedHolds` | src/fs/fs.hpp:72-84 | for an aligned view the page so filled holds the medium's bytes of that page of the cache |
| `PageCache.FileOperator.PreparePage` | src/fs/fs.hpp:60-96 | makes one page present; bytes already visible do not change unless the page is inside a write |
| `PageCache.FileOperator.PrepareCache` | src/fs/fs.hpp:46-96 | makes all pages present or stops early; the cache it leaves is the given function of the old cache, of what the frames held and of what failed at each page |
| `PageCache.PreparedExactly` | src/fs/fs.hpp:46-96 | preparing gives an error exactly when blocks are larger than pages or an absent page has no frame, a failing device, or a medium that cannot supply it |
| `PageCache.FileOperator.CopySegment` | src/fs/fs.hpp:117-184 | one memcpy moves exactly its bytes in the asked direction |
| `PageCache.FileOperator.CopyInRange` | src/fs/fs.hpp:98-184 | inside the file: a read returns the slice, a write changes exactly the range, over head, body and tail pages |
| `PageCache.FileOperator.Copy` | src/fs/fs.hpp:98-185 | the same with the range check; it succeeds exactly when the range is empty, or in the file and each page of it is present or can be made; a failed read changes no byte, and a failed write leaves what preparing left |
| `PageCacheViews.RunAll` | src/fs/fs.hpp:98-185 | any interleaving of reads and writes through any views is explained by one flat byte array, up to a failed write that may spoil pages; what nothing troubles does not fail |
| `PageCacheViews.ReadsSeeLatestWrite` | src/fs/fs.hpp:98-185 | over any run, each byte a read returns is the last one written there through any view, or else the medium's |
| `PageCacheViews.ViewsCohere` | src/fs/drivers/dev/block.hpp:40-108 | over any run, a read of a partition at x and a read of the disk at first_sector * sector_size + x return the same bytes, unless a write in between changed them |
| `PageCacheExact.SharesExactly` | src/fs/drivers/dev/block.hpp:40-108 | for every disk content, frame content and page, what a partition loads is the disk's own page exactly when its first sector starts a page and its last ends one or the disk |
| `PageCacheExact.StartBreaks` | src/fs/drivers/dev/block.hpp:64-108 | if it starts inside a page, some disk has its bytes shown in the wrong place |
| `PageCacheExact.EndBreaks` | src/fs/fs.hpp:72-84 | if it ends inside a page before the end of the disk, some frame's bytes are shown as the disk's |
| `PageCacheExact.PreparedAt` | src/fs/fs.hpp:56-96 | as long as nothing failed, present pages are kept, absent ones made, and all others untouched |
| `PageCacheExact.FailureSpares` | src/fs/fs.hpp:56-96 | on a range that is not spoilable, a failed write changes no byte whatever the frames held and wherever it failed |
| `PageCacheExact.FailedWriteHarmlessExactly` | src/fs/fs.hpp:46-96 | and on a spoilable one some frames and some failure do change a byte: harmless exactly when not spoilable beforehand |
| `PageCacheExact.FirstWriteSpoilsExactly` | src/fs/fs.hpp:46-96 | on an empty cache a write is spoilable exactly when it spans three pages or more |
| `PageCacheViews.FreshShowsMedium` | src/fs/fs.hpp:46-96 | an empty cache shows the medium |
| `PageCacheViews.ReadsFollowTheChain` | src/fs/fs.hpp:72-84 | over any run of reads of a FAT file, a successful read returns the bytes along its chain |
| `PageCacheViews.StoredFileComesBack` | src/fs/fs.hpp:72-84 | over any run of reads of a file chained in the table, a successful read returns the volume's bytes at the places of its clusters |
| `Paging.SplitAddr` | src/paging.hpp:266-275 | the four nine-bit indices of an address, the page table's first |
| `Paging.TableEntryReads` | src/paging.hpp:152-210 | an entry made for a table is present, writable, user, not huge, and leads to the table |
| `Paging.PageEntryReads` | src/paging.hpp:290-295 | a last-level entry carries exactly the frame and rights asked for |
| `Paging.WalkSeesEntry` | src/paging.hpp:152-210 | below any owned table the processor's walk finds what the kernel recorded, rights included |
| `PagingMaps.NextOk` | src/paging.hpp:152-210 | operator[] keeps the tables consistent and every recorded entry as it was |
| `PagingMaps.SameTable` | src/paging.hpp:152-210 | there is one way down to a page table |
| `PagingMaps.WriteChangesOnePage` | src/paging.hpp:284-298 | writing a page's entry changes that page's entry and no other |
| `PagingMaps.DescendOk` | src/paging.hpp:284-290 | the three lookups end in the page table of the address, which is there to walk again |
| `PagingRuns.BootOk` | src/process/process-detail.hpp:15-25 | a new process's tables are consistent and map nothing |
| `PagingRuns.WalkLow` | src/paging.hpp:221-260 | in slot 0 the low 64 GiB translate to themselves, kernel-only and writable, and nothing above is present, whatever was mapped |
| `PagingRuns.MapPageOk` | src/paging.hpp:284-298 | a call changes the entry of its own page only and keeps the invariant |
| `PagingRuns.RunTranslates` | src/paging.hpp:284-298 | after any run of calls the walk of every address is the last frame and rights mapped to its page; outside slot 0 a page no call named is not present; slot 0 stays the identity map |
| `PagingRuns.LatestIsLast` | src/paging.hpp:284-298 | "last" means the call after which none was for the page |
| `PagingRuns.MapTakesEffectExactly` | src/process/process-detail.hpp:15-25 | a call has the effect it asks for exactly outside slot 0, or where slot 0 says so already |
| `PagingRuns.SlotZeroStaysClosed` | src/process/process-detail.hpp:15-25 | after any run of calls no address in slot 0 is accessible to the process |
| `PagingRuns.SamePageExactly` | src/paging.hpp:266-275 | two addresses share all four indices exactly when they lie in one page of the 48-bit space |
| `AddressSpace.FillDirectory` | src/paging.hpp:247-253 | the inner loop fills one gigabyte's directory with huge identity entries |
| `AddressSpace.BuildIdentity` | src/paging.hpp:221-260 | the nested loops build the identity tables and touch nothing else |
| `AddressSpace.PageTables.constructor` | src/process/process-detail.hpp:15-25 | is the specified boot state and maps nothing |
| `AddressSpace.PageTables.Subtable` | src/paging.hpp:152-210 | is the specified operator[] |
| `AddressSpace.PageTables.MapVirtualToPhysical` | src/paging.hpp:284-298 | is the specified call and keeps the invariant |
| `Bits.GetAfterSet` | src/memory/allocator.hpp:25-39 | the 64-bit word operations are those of a set of bit numbers |
| `FrameAllocator.BitmapMemoryManager.GetBit` | src/memory/allocator.hpp:25-29 | tells whether a frame is in the set |
| `FrameAllocator.BitmapMemoryManager.SetBit` | src/memory/allocator.hpp:31-39 | adds or removes one frame and no other |
| `FrameAllocator.BitmapMemoryManager.SetBits` | src/memory/allocator.hpp:41-45 | adds or removes exactly a window of frames |
| `FrameAllocator.FirstFit` | src/memory/allocator.hpp:53-72 | naive first fit: the lowest start whose window is free and in range, or none when no window fits |
| `FrameAllocator.FitsSkip` | src/memory/allocator.hpp:69-71 | skipping past a used frame skips no start that would fit |
| `FrameAllocator.BitmapMemoryManager.Allocate` | src/memory/allocator.hpp:53-72 | the skipping search returns what naive first fit returns, NoEnoughMemory included, and marks exactly that window |
| `FrameAllocator.BitmapMemoryManager.AllocateSingle` | src/memory/allocator.hpp:74-83 | the same for one frame |
| `FrameAllocator.BitmapMemoryManager.Deallocate` | src/memory/allocator.hpp:85-88 | clears exactly the window |
| `FrameAllocator.BitmapMemoryManager.constructor` | src/memory/allocator.hpp:113-130 | marks exactly the frames below the map's end that no available descriptor covers |
| `FrameAllocator.BootIsExact` | src/memory/allocator.hpp:113-130 | inside the range a frame is free after boot exactly when an available descriptor covers it |
| `FrameAllocator.TypeDecides` | src/memory/memory-type.hpp:32-36 | a frame is free after boot exactly when its memory is boot services code or data or conventional |
| `FrameAllocator.RangeEndIsFreeExactly` | src/memory/allocator.hpp:113-130 | the frame after the last available one is free exactly when the map ends there |
| `FrameOwnership.StepOk` | src/memory/frame.hpp:58-63 | every handle operation keeps: a bit is set exactly when reserved or owned, never both, and no frame has two owners |
| `FrameOwnership.RunKeepsInv` | src/memory/frame.hpp:46-126 | so does every sequence of operations, and owned windows stay inside the bitmap |
| `FrameOwnership.OwnershipIsExact` | src/memory/allocator.hpp:145-159 | over every run from boot; and once every handle is empty the bitmap is the boot one |
| `FrameOwnership.GrantsOnlyAvailableExactly` | src/memory/allocator.hpp:53-159 | over every run from boot, handles own available memory only, exactly when nothing is searched or the map goes on after the last available descriptor |
| `FrameOwnership.SmartFrameID.Free` | src/memory/allocator.hpp:145-151 | gives the frames back once and empties the handle |
| `FrameOwnership.SmartFrameID.MoveAssign` | src/memory/frame.hpp:58-63 | frees the target's frames, takes over the source's, and empties the source; also onto itself |
| `XhciTrb.ControlWord` | src/usb/xhci/ring.hpp:14-20 | setting the cycle bit changes neither a TRB's type nor its toggle bit |
| `XhciRing.WordOk` | src/usb/xhci/ring.hpp:14-20 | the first three words of a TRB are invisible to the controller |
| `XhciRing.CommitOk` | src/usb/xhci/ring.hpp:14-25 | the control word publishes the TRB whole and in order |
| `XhciRing.LinkCommitOk` | src/usb/xhci/ring.hpp:26-32 | writing the link ends the lap and keeps what is unconsumed in place |
| `XhciRing.ControllerOk` | src/usb/xhci/ring.hpp:14-34 | a specification controller's read takes the oldest TRB or crosses the link, and gets nearer the end |
| `XhciRing.StepOk` | src/usb/xhci/ring.hpp:14-34 | every word write and every controller read keeps the ring invariant |
| `XhciRing.RingIsFifo` | src/usb/xhci/ring.hpp:14-34 | over every interleaving in which no more than buffer_count - 1 are unconsumed, and one less while a push starts with the controller at the link, the controller has consumed a prefix of what was pushed, and left alone consumes the rest |
| `XhciRing.OneMoreExactly` | src/usb/xhci/ring.hpp:22-34 | in every idle state, one more push keeps the ring invariant and is read in the end exactly when it leaves no more than the limit waiting |
| `XhciRing.RingStalls` | src/usb/xhci/ring.hpp:22-34 | in a ring of any size a run leads to a push after which the controller reads nothing more |
| `XhciRing.PushIsItsWords` | src/usb/xhci/ring.hpp:14-34 | undisturbed, the word writes of a push come to one TRB in place, one more pushed, and the link at the end of a lap |
| `XhciRing.CommandRing.constructor` | src/usb/xhci/ring.hpp:37-47 | starts as an empty ring with cycle bit one |
| `XhciRing.CommandRing.CopyToLast` | src/usb/xhci/ring.hpp:14-20 | puts the TRB, with the ring's cycle bit, in the current slot |
| `XhciRing.CommandRing.Push` | src/usb/xhci/ring.hpp:22-34 | is the specified push and returns the slot used |
| `XhciEventRing.FrontIsOldest` | src/usb/xhci/ring.hpp:131-137 | has_front holds exactly when an event is unread, and the front is the oldest |
| `XhciEventRing.StepOk` | src/usb/xhci/ring.hpp:131-149 | posting and popping keep the event ring invariant |
| `XhciEventRing.EventsArriveInOrder` | src/usb/xhci/ring.hpp:131-149 | over every run the popped events are a prefix of those posted |
| `XhciEventRing.EventRing.Front` | src/usb/xhci/ring.hpp:131-137 | is the specified test, with the TRB at the front |
| `XhciEventRing.EventRing.Drop` | src/usb/xhci/ring.hpp:139-149 | is the specified pop |
| `XhciPorts.FirstWaiting` | src/usb/xhci/xhci.hpp:286-294 | the lowest waiting port, none before it waiting |
| `XhciPorts.ResetPortOk` | src/usb/xhci/xhci.hpp:77-97 | resetting keeps at most one port in addressing, changes no other port and moves none backwards |
| `XhciPorts.StepOk` | src/usb/xhci/xhci.hpp:147-312 | every event keeps: the ports in addressing are addressing_port and no other; no phase moves backwards |
| `XhciPorts.OnePortAtATime` | src/usb/xhci/xhci.hpp:147-312 | so over every run from boot |
| `XhciPorts.PortComesUp` | src/usb/xhci/xhci.hpp:147-312 | with nobody ahead of it a connected port goes through every phase in turn to Configured, one event each, and no other port moves |
| `XhciPorts.HandOverExactly` | src/usb/xhci/xhci.hpp:270-296 | when a port has been addressed the next starts exactly when the first waiting port is connected |
| `XhciPorts.ConfigureStarts` | src/usb/xhci/xhci.hpp:430-435 | a connected port that has not begun is reset, or waits while another is being addressed; nothing else changes |
| `XhciPorts.StalledForever` | src/usb/xhci/xhci.hpp:228-312 | with no port addressing and none unconnected, a waiting port waits through every run |
| `XhciPorts.WaitingStartsExactly` | src/usb/xhci/xhci.hpp:228-312 | a waiting port can still start, with suitable events, exactly when the controller is not so stalled |
| `XhciPorts.UnpluggedStalls` | src/usb/xhci/xhci.hpp:285-296 | such a state is reached by unplugging the second of three ports |
| `XhciPorts.ThirdPortNeverStarts` | src/usb/xhci/xhci.hpp:285-296 | so the third never starts, connected or not |
| `XhciPorts.Controller.Reset` | src/usb/xhci/xhci.hpp:77-97 | is the specified reset |
| `XhciPorts.Controller.Configure` | src/usb/xhci/xhci.hpp:430-435 | is the specified start of a port |
| `XhciPorts.Controller.OnPortStatus` | src/usb/xhci/xhci.hpp:228-240 | is the specified event |
| `XhciPorts.Controller.OnTransfer` | src/usb/xhci/xhci.hpp:242-258 | is the specified event |
| `XhciPorts.Controller.OnSlotEnabled` | src/usb/xhci/xhci.hpp:264-269 | is the specified event |
| `XhciPorts.Controller.ResetFirstWaiting` | src/usb/xhci/xhci.hpp:286-294 | the loop over ports tries the first waiting one |
| `XhciPorts.Controller.OnDeviceAddressed` | src/usb/xhci/xhci.hpp:270-296 | is the specified event |
| `XhciPorts.Controller.OnEndpointsConfigured` | src/usb/xhci/xhci.hpp:297-308 | is the specified event |
| `Virtqueue.HeadFromCounter` | src/virtio/queue.hpp:97-103 | the wrapping 32-bit counter gives the j-th request the descriptor 2j modulo the size |
| `Virtqueue.HeadsEqualExactly` | src/virtio/queue.hpp:97-103 | two requests share descriptors exactly when they are a multiple of half the queue apart |
| `VirtqueueRuns.OldestUnpublished` | src/virtio/queue.hpp:108-110 | the loop's wrapping subtraction finds the oldest buffer not yet published |
| `VirtqueueRuns.NotifyOk` | src/virtio/queue.hpp:105-125 | notify publishes what was handed out since the last notify, in order, and keeps the invariant |
| `VirtqueueRuns.StepOk` | src/virtio/queue.hpp:97-159 | every driver and device step keeps the invariant |
| `VirtqueueRuns.HandOutGivesItsFrame` | src/virtio/queue.hpp:97-103 | the buffer handed out is the frame of the request's own descriptor |
| `VirtqueueRuns.LiveHeadsDiffer` | src/virtio/queue.hpp:97-125 | live requests have distinct, even heads |
| `VirtqueueRuns.NothingExactly` | src/virtio/queue.hpp:127-131 | within 65536 completions "nothing to read" is said exactly when nothing is unread |
| `VirtqueueRuns.ReadReturnsItsRequest` | src/virtio/queue.hpp:127-159 | a completion reads back as the request and response frames of the published, live request the device completed, or as blanks for a bad length |
| `VirtqueueRuns.RunIsSound` | src/virtio/queue.hpp:97-159 | all of it over every run, with completions in any order; live descriptors keep the length they were handed out with |
| `VirtqueueRuns.HandOutCollidesExactly` | src/virtio/queue.hpp:97-103 | handing out one more takes a live request's descriptors exactly when the one half a queue earlier is still live |
| `VirtqueueRuns.CountIsNotEnough` | src/virtio/queue.hpp:97-103 | one request in flight on a queue of four and no room all the same |
| `VirtqueueRuns.ReadTellsExactly` | src/virtio/queue.hpp:127-134 | read_one_buffer tells whether a completion is left exactly below 65536 reads, or when one is left anyway |
| `VirtqueueRuns.NeverNothing` | src/virtio/queue.hpp:127-134 | past 65535 reads, read_one_buffer answers every call with something until its counter wraps |
| `VirtqueueRuns.ReadingNeverEnds` | src/virtio/queue.hpp:127-134 | a run of 65536 requests, all read, leads there on a queue of any size |
| `VirtqueueDriver.DriverQueue.constructor` | src/virtio/queue.hpp:166-200 | each descriptor owns its own frame and the rings are empty |
| `VirtqueueDriver.DriverQueue.GetNextDescriptorBuffer` | src/virtio/queue.hpp:97-103 | is the specified hand-out |
| `VirtqueueDriver.DriverQueue.NotifyDevice` | src/virtio/queue.hpp:105-125 | is the specified publication |
| `VirtqueueDriver.DriverQueue.FindResult` | src/virtio/queue.hpp:144-157 | following the chain finds its device-writable descriptor |
| `VirtqueueDriver.DriverQueue.ReadOneBuffer` | src/virtio/queue.hpp:127-159 | is the specified read |
| `FileHandles.OpenThenClose` | src/fs/manager.hpp:101-108 | opening the next file and closing the directory leaves only the new file counted |
| `FileHandles.WalkDirsAccounts` | src/fs/manager.hpp:90-110 | walking a path leaves the last directory counted, or nothing when it fails |
| `FileHandles.OpenAccounts` | src/fs/manager.hpp:139-154 | Manager::open counts the file it returns and nothing else, on success and on failure |
| `FileHandles.OpenFollowsPath` | src/fs/manager.hpp:139-154 | the file Manager::open returns is the one its path leads to, and NoSuchFile is said only when there is none |
| `FileHandleRuns.CloseTwice` | src/fs/manager.hpp:156-160 | closing a closed handle changes nothing |
| `FileHandleRuns.StepOk` | src/fs/handle.hpp:198-212 | every operation keeps the counts equal to the numbers of live handles of each mode |
| `FileHandleRuns.OpenPassed` | src/fs/handle.hpp:86-114 | a successful open had nothing said against it by the counts it started from |
| `FileHandleRuns.RunSharing` | src/fs/handle.hpp:14-58 | over every run levels are respected, and readers and writers of an exclusive file are one handle |
| `FileHandleRuns.CountsAndSharing` | src/fs/handle.hpp:14-58 | from no handles: counts are exact, and a single-level exclusive file has at most one live handle |
| `FileHandleRuns.OpensExactly` | src/fs/handle.hpp:14-58 | after any run an open is granted exactly when the live handles on the file leave room for it |
| `FileManager.Manager.TryOpenFile` | src/fs/handle.hpp:14-58 | is the specified try_open |
| `FileManager.Manager.OpenDirectories` | src/fs/manager.hpp:90-110 | the loop over directories is the specified walk |
| `FileManager.Manager.OpenPath` | src/fs/manager.hpp:139-154 | is the specified open, and leaves only its own file counted |
| `FileManager.Manager.CloseFile` | src/fs/manager.hpp:169-177 | takes the handle's modes off the counts |
| `FileManager.Handle.Close` | src/fs/manager.hpp:156-177 | gives an open handle's counts back once |
| `FileManager.Handle.MoveAssign` | src/fs/handle.hpp:198-205 | closes the target, takes over the source and expires it; also onto itself |

## Left out

- Real lock interleavings and lost wakeups: every manager, cache, allocator and handle operation is one atomic step, because the kernel's spinlock does not exclude.
- SchedulerManager.Manager.MigrateThreads: watched for a given number of passes, because the loop need not return (`SchedulerHang.MigrationMayNotReturn`); how many are enough, and when, is `SchedulerReturns.MigrationReturns`.
- SchedulerReturns.MigrationReturns: one direction; the exact condition is `SchedulerDecides.MigrationDecided`.
- SchedulerFairness.BoundedWaiting: a thread that a migration takes out of its queue is not followed through that timer tick (every 500th of the first processor).
- SchedulerTiming.RoundRobin: likewise.
- SchedulerTiming.SuspendedThenSelected: likewise; and the 64-bit tick does not come round to the suspension again meanwhile.
- SchedulerFairness.StepProgress: likewise.
- SchedulerRuns.StepOk: sleep, suspension and exit are never asked for an idle thread, sleep and exit only for threads no other processor is running (exactly when they keep the invariant), and the kernel's event thread does not exit, which is how the kernel uses them.
- SchedulerRuns.ReachableOk: the 64-bit tick is modelled with its wrap-around in the skip test, but a run's tick counts on without bound.
- FatLayout.CopyReadsItsPlace: for clusters inside a volume of at most 4 GiB; elsewhere the driver's 32-bit arithmetic wraps, as `Fat.ClusterBegin` has it.
- SchedulerWaking.WaiterIsWoken: the thread's own later operations, and somebody else putting it to sleep or ending it, are left aside.
- FatDirectory.Readdir: a device fault shows as IOError wherever it strikes; which entry it strikes is not stated.
- FatListing.List: needs a chain that ends, clusters of at most 4096 bytes, and a directory index that does not wrap, as the file system promises.
- PageCacheViews.RunAll: a failed write that may spoil pages ends the explained run; views are aligned to pages, which is exactly when sharing is right (`PageCacheExact.SharesExactly`).
- PageCache.FileOperator.Copy: the view is aligned to pages, offset + size does not wrap at 2^64, and files without a cache, which pass straight to the driver, are not modelled.
- PagingRuns.RunTranslates: physical addresses are page-aligned and below 2^52; the TLB and its invalidation, and the execute-disable bit, which no code sets, are not modelled.
- FrameAllocator.BitmapMemoryManager.Allocate: the range must end inside the bitmap, and the bitmap starts zeroed, as static storage is.
- XhciRing.RingIsFifo: the driver itself does not look at how many TRBs are unconsumed, and pushes no link TRB of its own.
- XhciPorts.StepOk: port ids are at least 1, resetting a port always succeeds, and the wait for the reset bit is not modelled.
- XhciEventRing.EventsArriveInOrder: the controller posts an event in one step and leaves unread ones alone.
- VirtqueueRuns.RunIsSound: the device follows the protocol, completing only published requests and each once, and reading is followed for 65536 completions.
- FileHandleRuns.CountsAndSharing: drivers succeed in destroying handle data, and counts do not wrap at 2^32.
- Pruning closed files up the tree: it depends on a parent pointer that no code sets.
- The AHCI driver, USB class drivers, GPU commands, keyboard tables, ELF loading, terminal, shell, framebuffer and fonts: I/O plumbing and user interface.
- Context switching, trampolines, interrupts, descriptor tables, LAPIC, ACPI, PCI and MMIO registers: hardware effects without an algorithm to prove.
- The devfs handle data methods, the partition setup from a disk's partition table, and the printk ring.
- `Manager` wrappers that only look up identifiers, and posting kernel messages, are not modelled.
