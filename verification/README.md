# cron-with-lock, modelled in Dafny

This project models the core of `cron-with-lock`, a Go scheduler. Several identical scheduler processes run the same periodic tasks. A task marked `ShouldLock` runs on at most one of them per firing, guarded by a Redis lease lock. A background "watchdog" renews that lock while its owner works.

The model has two parts, both as immutable state with pure transition functions:

- **The locker** (`redis_locker.go`), in three modules:
  - `Backend` is the shared Redis store, `map<string, Entry(value, ttl)>`. It offers the atomic operations the locker uses: SET NX with expiry, GET, DEL, and the two compare-then-act Lua scripts. Passive expiry is an explicit `Elapse(d)`.
  - `RedisLocker` holds one process's registry: the `closers` map from a key to its renewal loop, plus the set of loops still running. It defines `LockTask`, `UnLockTask`, `GetLockValue`, `DelLock`, `ScanLocks`, `closeWatchDog` and one watchdog wake-up. These five public functions are the `TaskLocker` interface (`task_locker.go`) that the scheduler calls.
  - `LockerRuns` puts several processes on one store. Every call, watchdog wake-up and passage of time is an explicit event. Mutual exclusion and lease renewal are proved over arbitrary event sequences.
- **The scheduler** (`cron.go`), also in three modules:
  - `Scheduler` holds the `Cron` record: tasks, the engine (absent once discarded), the count, the result map and the optional locker. It defines `NewCron`, `AddTask`, `DecorateName`, `taskShouldNotDuplication`, `Start`, `GetResult`, `ScanLockedTasks`, `cleanLocks` and `Stop`. One firing of `taskWithRecover` is split into `Begin` (the lock gate) and `Finish` (unlock, then record), so other events can come between them. `Fire` is one firing with nothing in between.
  - `SchedulerProps` proves properties over lifecycles and sequences of firings.
  - `Corrected` holds the evidently intended result cache, panic handling and teardown (see Findings).

The trigger engine is an oracle `accepts: string -> bool`, its verdict on a schedule string. The executor's behaviour on each firing is an `Outcome`: it either returns (`None` stands for nil) or panics. Owner tokens are parameters.

Three behaviours of the code that a reader might not expect, all followed by the model:
- **`Start` is not rejected a second time.** It binds every task again, and the count grows by the number of tasks each time.
- **The result list is frozen.** Once a task has a stored result list, that list never changes (see Findings).
- **`Stop` panics on a stopped scheduler.** Calling `Stop` a second time dereferences the discarded engine and panics.

## Model

| member | source | states |
|---|---|---|
| Backend.SetIfAbsent | redis_locker.go:52-55 | the write happens exactly when the key is absent; the new key then holds the owner and expiry, and no other key changes; otherwise the store is untouched |
| Backend.Get | redis_locker.go:80-82 | an absent key reads as the empty string; a present key reads as its owner |
| Backend.Delete | redis_locker.go:84-88 | DEL removes the key whoever owns it, and reports whether one was there |
| Backend.CompareDelete | redis_locker.go:62-73 | the unlock script deletes exactly when the key holds the expected owner; otherwise nothing changes |
| Backend.CompareExtend | redis_locker.go:122-129 | the renewal script resets the TTL only while the key holds the expected owner; no key appears or disappears |
| Backend.Elapse | redis_locker.go:52 | after d seconds, exactly the keys with more than d seconds left survive, with their owner kept and their TTL reduced by d |
| RedisLocker.NewRegistry | redis_locker.go:28-47 | a new locker has no registered loops and satisfies the registry invariant |
| RedisLocker.LockTask | redis_locker.go:49-60 | succeeds iff the key is absent; on success the key holds the token with the given expiry, a fresh loop is registered under it and running, the token is returned, and the invariant is kept; on failure it returns "" and changes nothing |
| RedisLocker.CloseWatchDog | redis_locker.go:104-112 | reports whether the key has a registered loop, and if so stops exactly that loop |
| RedisLocker.Forget | redis_locker.go:74-76 | the key leaves the registry and its loop stops; the other registrations stay |
| RedisLocker.UnLockTask | redis_locker.go:62-78 | succeeds iff the key holds the given token; then the key is gone from both store and registry; otherwise store and registry are unchanged |
| RedisLocker.GetLockValue | redis_locker.go:80-82 | returns the stored owner, or "" when absent, and is a pure read |
| RedisLocker.DelLock | redis_locker.go:84-93 | deletes whatever the owner; returns false iff the key was absent, leaving the registry untouched; on success the key leaves the registry |
| RedisLocker.WatchdogTick | redis_locker.go:114-134 | a wake-up of a loop that is no longer running does nothing; a live loop resets the TTL only of a key that still holds its token, and never touches another owner's lease |
| RedisLocker.UnlockThenRelock | redis_locker.go:62-78 | lock then owner unlock leaves the key absent from store and registry, and a new lock on it succeeds |
| RedisLocker.ForeignTokenCannotRelease | redis_locker.go:63-73 | a release with a token other than the holder's fails and changes nothing |
| RedisLocker.LockValueNamesOwner | redis_locker.go:49-82 | after a lock, reading the key gives back exactly the token the lock returned, and another caller's lock fails; after the owner's release the key reads as "" |
| RedisLocker.LockerConfig.IsEmpty | redis_locker.go:24-26 | a configuration is empty exactly when it is the zero configuration: no client and no DSN |
| RedisLocker.RelockLeaksOldWatchdog | redis_locker.go:56-58 | re-locking a key whose lease lapsed replaces its registry entry; the old loop keeps running but can no longer be cancelled |
| LockerRuns.Step | redis_locker.go:13-17 | an operation of one process never changes another process's registry |
| LockerRuns.StepKeepsOwner | redis_locker.go:49-93 | only an owner unlock, a delete or expiry removes a held key; a key appears only when a lock call succeeds |
| LockerRuns.AtMostOneAcquire | redis_locker.go:49-60 | across all processes, while no lease on the key is released, deleted or lapses, at most one lock call succeeds; none succeeds if the key was held, and the holder keeps it |
| LockerRuns.SecondLockFails | redis_locker.go:52-55 | of two lock calls on one key with no intervening unlock, delete or expiry, the second fails |
| LockerRuns.TwoInstancesRace | redis_locker.go:49-60 | two instances locking the same free key: exactly one succeeds, the other gets "" and the first keeps the key |
| LockerRuns.ScanLocksIsLocal | redis_locker.go:95-102 | the lock list of a process is unaffected by what other processes do |
| LockerRuns.LapsedLeaseStillListed | redis_locker.go:95-102 | a lease that expired in the backend is still listed by the process that took it |
| LockerRuns.WatchdogKeepsLease | redis_locker.go:114-134 | while its loop runs and wakes before each TTL runs out, the lease keeps its owner and its full TTL, however long the run |
| LockerRuns.WatchdogKeepsLeaseInAnyRun | redis_locker.go:114-134 | in any interleaving of processes, keys, loops and waits: if no one unlocks or deletes the key, its loop is the only live renewer of that key and token, and every wait is shorter than the time left since the loop last woke, then the lease never lapses and the key still reads as the loop's token |
| LockerRuns.RenewalStep | redis_locker.go:114-134 | one event of such a run leaves the loop live and sole renewer, keeps the lease with its owner, and leaves at least the tracked time on it |
| LockerRuns.SharedTokenReleasesOthersLease | redis_locker.go:50-51 | ownership is checked by token alone: a second process presenting the same token releases the first one's lease, while the first still lists the key and its loop keeps running |
| LockerRuns.CancelledWatchdogIsInert | redis_locker.go:130-131 | in the model's sequence of events, a loop whose channel was closed never acts again |
| Scheduler.DecorateName | cron.go:162-164 | the decorated name is the prefix "cron:" followed by the original name |
| Scheduler.DecorateNameInjective | cron.go:162-164 | two names decorate to the same key iff they are equal |
| Scheduler.NewCron | cron.go:34-55 | a new scheduler is empty with a live engine; it has a locker iff the first configuration is not empty; only a failed DSN dial fails construction |
| Scheduler.AddTask | cron.go:57-60 | exactly one task is appended, carrying the decorated name; earlier tasks and the rest of the state are unchanged |
| Scheduler.ScanNames | cron.go:80-89 | the name-set scan finds nothing iff no task repeats an earlier name, else the name of the first repeat in list order |
| Scheduler.DuplicationCheck | cron.go:80-89 | no error iff all decorated names are distinct; the error names the first repeated name in list order |
| Scheduler.Bind | cron.go:69-75 | tasks are bound in order up to the first rejected schedule; the count grows by the number bound; the error carries the rejected schedule |
| Scheduler.Start | cron.go:62-78 | fails without change on a discarded engine, and on duplicate names before binding anything; otherwise binds tasks in order, adding the number bound to the count, and fails at the first rejected schedule |
| Scheduler.Begin | cron.go:99-107 | the firing runs without the lock iff the task does not ask for it or there is no locker; it is skipped iff a locker exists, the task asks for the lock and the key is already held; under the lock the key then holds this firing's token and is listed |
| Scheduler.Record | cron.go:108-114 | a result is stored only when it is non-nil, the capacity is positive and nothing is stored yet, as the one-element list; existing lists never change |
| Scheduler.EvictAppend | cron.go:116-121 | the local evict-then-append ends in the new result, stays within capacity, and is the newest part of old list plus result |
| Scheduler.Finish | cron.go:93-122 | a skipped firing or a panic changes nothing, so a panic under the lock never unlocks; a normal return under the lock unlocks the same key with the same token before recording |
| Scheduler.Fire | cron.go:91-124 | a firing never changes tasks, engine or count; results change only by recording a normal return of a firing that was not skipped |
| Scheduler.GetResult | cron.go:147-153 | the result list kept under the decorated name, or empty |
| Scheduler.ScanLockedTasks | cron.go:155-160 | nil iff there is no locker; otherwise this process's lock list |
| Scheduler.CleanLocks | cron.go:140-145 | calling DelLock on every listed key, in any order, removes exactly those keys from the backend; keys whose lease had already lapsed stay registered and their loops stay running |
| Scheduler.Stop | cron.go:130-145 | panics iff the engine was already discarded; otherwise the scheduler is emptied, the backend loses exactly the keys this process listed, and the loops left running are the running ones minus those of listed keys still in the backend |
| SchedulerProps.ExecutorRunsIff | cron.go:99-107 | the executor runs iff no lock is needed or the lock call succeeds; a refused lock changes nothing |
| SchedulerProps.LockedRunReleases | cron.go:100-103 | after a normal return under the lock, the key is gone from store and registry, and nothing else in the store changed |
| SchedulerProps.UnlockedPanicChangesNothing | cron.go:93-97 | a panic outside the lock is absorbed with no effect on scheduler or backend |
| SchedulerProps.PanicUnderLockLocksTaskOut | cron.go:100-103 | a panic under the lock leaves the key held and listed and records nothing; every later firing of the task is then skipped |
| SchedulerProps.FireKeepsStoredResults | cron.go:108-122 | no firing changes a stored list; new lists are singletons; a task without positive capacity records nothing |
| SchedulerProps.ResultsFrozen | cron.go:108-122 | over any sequence of firings, a stored result list stays exactly as first stored |
| SchedulerProps.RetentionBounded | cron.go:108-122 | over any sequence of firings, every retained list has at most one element |
| SchedulerProps.FirstResultIsKeptForever | cron.go:109-121 | a capacity-1 task returning v1, v2, v3 retains ["v1"] |
| SchedulerProps.DuplicateNamesBlockStart | cron.go:66-68 | adding two tasks with one name makes Start fail with that decorated name, binding nothing and leaving the count as it was |
| SchedulerProps.StartBindsAll | cron.go:69-77 | on a new scheduler whose schedules all parse, Start succeeds with count equal to the number of tasks, all bound |
| SchedulerProps.StartStopsAtRejectedSpec | cron.go:69-73 | if the schedule of task i is the first one rejected, Start returns that error with exactly i tasks counted |
| SchedulerProps.StopTearsDown | cron.go:130-160 | after Stop: no lock list, empty results, count 0, Start fails, Stop panics, listed keys gone from the backend and other keys unchanged |
| SchedulerProps.StopOrphansLapsedLoops | cron.go:140-145 | after Stop, the loop of a listed key whose lease had lapsed is still running, and so is every loop whose registration a re-lock overwrote |
| SchedulerProps.EmptyConfigRunsUnlocked | redis_locker.go:24-26 | a configuration with neither client nor DSN gives no locker, so tasks that ask for the lock run unlocked |
| SchedulerProps.FirstLockIsListed | cron.go:155-160 | the first lock a scheduler takes is exactly its lock list |
| SchedulerProps.LockedTaskLifecycle | cron_test.go:103-130 | create with a DSN, add a locking task, start and fire: the lock list names the task; after Stop there is no list and the key is gone |
| Corrected.EvictAppendIsNewest | cron.go:116-121 | one evict-then-append into a list within capacity keeps the newest capacity values |
| Corrected.PushAllKeepsNewest | cron.go:116-121 | repeated pushes keep exactly the newest capacity values, oldest first |
| Corrected.RecordFixed | cron.go:108-122 | the evicted-and-appended list is stored back under the task's name; other names are unchanged |
| Corrected.FinishFixed | cron.go:99-122 | under the lock the key is unlocked with the firing's token even when the executor panics; a panic records nothing |
| Corrected.FireFixed | cron.go:91-124 | a corrected firing never changes tasks, engine or count |
| Corrected.FixedPanicReleasesLock | cron.go:100-103 | with the fix, a panic under the lock frees the key and unregisters it, so the next firing takes the lock |
| Corrected.FireEachIsRecordEach | cron.go:105-122 | with the fix, firings of an unlocked task that return values change the result map only by recording those values in order |
| Corrected.RecordEachPushesAll | cron.go:108-122 | with the fix, recording values one by one leaves the task's list equal to pushing them all, in order, into the list it had |
| Corrected.BoundedRetention | cron.go:108-122 | with the fix, after firings returning values the task keeps the newest capacity values of its old and new results, oldest first |
| Corrected.FixedKeepsNewest | cron.go:108-122 | with the fix, a capacity-1 task returning v1, v2, v3 retains ["v3"] |
| Corrected.StopFixed | cron.go:140-145 | with the fix, Stop leaves scheduler and backend as before but no listed key's loop running, lapsed leases included |
| Corrected.FixedStopLeavesNoLoop | cron.go:130-145 | with the fix, a locker whose every live loop is registered leaves nothing running after Stop |

## Left out

- Concurrency: goroutines, channels and `sync.Map`. Firings, watchdog wake-ups and time are sequential events, so the data race on the result map is not modelled.
- Watchdog timing: the 0.8 × expire ticker period and the float seconds passed to EXPIRE. A run instead allows any wait shorter than the expiry between wake-ups, and TTLs are whole seconds.
- Redis client construction and Lua execution. `NewRedisLocker`'s dial is a boolean; the scripts are the store's atomic operations.
- Backend errors are not modelled. If SET NX errors, the source treats it as "not acquired". If the unlock script errors, the source's `int64` type assertion panics.
- RedisLocker.LockTask: takes the lock for any expiry, and the model's lease with a non-positive expiry lapses at the next wait. The source behaves otherwise. With an expiry of 0 the client library sends SET NX without a TTL, so the lease never expires; the watchdog's `time.NewTicker(0)` then panics in a goroutine with no recover, which ends the process. With a negative expiry the server rejects the command, so every firing is skipped. These outcomes depend on the client library and the Go runtime, which are not part of this model.
- LockerRuns.CancelledWatchdogIsInert: holds for the model's sequential events only. In Go, `select` picks at random among ready cases, so a loop whose channel was just closed may still run one pending renewal.
- The trigger engine (robfig/cron): parsing, dispatch, `Run` and its own `Stop`. Parsing is the `accepts` oracle. Dispatch becomes explicit firings, which do not check that the task is bound.
- Executors are not values; each firing is given its `Outcome`. Results are strings, standing for any non-nil value.
- Logging (`logrus`, `fmt.Println`). It has no effect on state.
- Owner tokens: `LockTask` builds them with `util.InternalIp()` and `util.GetGoroutineId()` from the external `go-common/util` package (redis_locker.go:7, 50-51), not from this repository's `util.go`, which the locker does not call. Tokens are parameters. Two processes on one host can build the same token; `ForeignTokenCannotRelease` assumes distinct tokens, and `SharedTokenReleasesOthersLease` shows what happens when they coincide.
- `task_locker.go` and `lockers/locker.go` hold interface signatures only. The interface is the set of `RedisLocker` functions the scheduler calls; it has one implementation.
- Scheduler.GetCount has no contract of its own. Its value after `Start` and `Stop` is stated by `StartBindsAll`, `StartStopsAtRejectedSpec`, `DuplicateNamesBlockStart` and `StopTearsDown`.
- RedisLocker.ScanLocks returns a set, because the iteration order of `sync.Map` is unspecified. Its content is stated by `ScanLocksIsLocal`, `LapsedLeaseStillListed`, `FirstLockIsListed` and `Scheduler.CleanLocks`.

## Findings

| source | as written | input that shows it | evidently intended | confidence | as-written member | corrected member |
|---|---|---|---|---|---|---|
| cron.go:116-121 | The evict-then-append works on a local slice that is never stored back. The first stored result stays forever. | A capacity-1 task fires three times returning "v1", "v2", "v3"; `GetResult` gives ["v1"] | A bounded FIFO of the newest results: ["v3"] | high, not executed | SchedulerProps.FirstResultIsKeptForever | Corrected.FixedKeepsNewest |
| cron.go:140-145 | `cleanLocks` relies on `DelLock` to close each loop, but `DelLock` returns before `closeWatchDog` when the key is no longer in the backend (redis_locker.go:86-87). | A locked task whose lease lapsed before `Stop` (its process stalled longer than the expiry); its renewal loop keeps running after `Stop` | Stop every registered loop, whether or not its key was still in the backend | medium, not executed | SchedulerProps.StopOrphansLapsedLoops | Corrected.StopFixed |
| cron.go:100-103 | `UnLockTask` is not deferred, so an executor panic skips it. The lease stays held and its watchdog keeps renewing it. | A `ShouldLock` task with a locker whose executor panics; every later firing of the task is skipped | Release the lease on every exit path | medium, not executed | SchedulerProps.PanicUnderLockLocksTaskOut | Corrected.FixedPanicReleasesLock |
