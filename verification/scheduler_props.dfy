/**
 Properties of the scheduler over whole lifecycles and sequences of firings.
 */
module SchedulerProps {
  import opened Wrappers
  import opened Backend
  import opened RedisLocker
  import opened Scheduler

  /** Every retained result list holds exactly one value. */
  ghost predicate Singletons(cron: Cron) {
    forall n :: n in cron.results ==> |cron.results[n]| == 1
  }

  /** One firing: the task, the owner token its lock call would use, what its executor does. */
  datatype Firing = Firing(task: Task, token: string, outcome: Outcome)

  function FireAll(w: World, fs: seq<Firing>): World
    decreases |fs|
  {
    if fs == [] then w else FireAll(Fire(w, fs[0].task, fs[0].token, fs[0].outcome), fs[1..])
  }

  /**
   The executor runs exactly when the task needs no lock (or no locker exists) or
   `LockTask(decorated name, lockExpire)` succeeds; a refused lock changes nothing.
   */
  lemma ExecutorRunsIff(w: World, task: Task, token: string, outcome: Outcome)
    ensures var b := Begin(w, task, token);
            !b.gate.Skipped? <==> !(task.shouldLock && w.cron.locker.Some?)
                                  || LockTask(w.store, w.cron.locker.value, task.name, task.lockExpire, token).ok
    ensures Begin(w, task, token).gate.Skipped? ==> Fire(w, task, token, outcome) == w
  {
  }

  /** A normal return under the lock releases it with the same key and token. */
  lemma LockedRunReleases(w: World, task: Task, token: string, res: Option<Value>)
    requires Begin(w, task, token).gate.Locked?
    ensures var r := Fire(w, task, token, Return(res));
            && task.name !in r.store
            && r.store == w.store - {task.name}
            && task.name !in ScanLocks(r.cron.locker.value)
  {
  }

  /** Fault isolation: a panic outside the lock leaves scheduler and backend untouched. */
  lemma UnlockedPanicChangesNothing(w: World, task: Task, token: string)
    requires !(task.shouldLock && w.cron.locker.Some?)
    ensures Fire(w, task, token, Panic) == w
  {
  }

  /**
   A panic under the lock skips `UnLockTask`: the key stays held by the panicked
   firing and stays registered (so its renewal loop keeps running), and every
   later firing of the task from this scheduler is skipped, whatever it would do.
   */
  lemma PanicUnderLockLocksTaskOut(w: World, task: Task, token: string, token2: string, later: Outcome)
    requires Begin(w, task, token).gate.Locked?
    ensures var r := Fire(w, task, token, Panic);
            && Holds(r.store, task.name, token)
            && task.name in ScanLocks(r.cron.locker.value)
            && r.cron.results == w.cron.results
            && Begin(r, task, token2).gate.Skipped?
            && Fire(r, task, token2, later) == r
  {
  }

  /** No firing changes a result list once one is stored; new entries are singletons. */
  lemma FireKeepsStoredResults(w: World, task: Task, token: string, outcome: Outcome)
    ensures var r := Fire(w, task, token, outcome);
            && (forall n :: n in w.cron.results ==> n in r.cron.results && r.cron.results[n] == w.cron.results[n])
            && (Singletons(w.cron) ==> Singletons(r.cron))
            && (task.capacity <= 0 ==> r.cron.results == w.cron.results)
  {
  }

  /** Over any sequence of firings a stored result list never changes. */
  lemma {:induction false} ResultsFrozen(w: World, fs: seq<Firing>, name: string)
    requires name in w.cron.results
    ensures name in FireAll(w, fs).cron.results
    ensures FireAll(w, fs).cron.results[name] == w.cron.results[name]
    decreases |fs|
  {
    if fs != [] {
      var next := Fire(w, fs[0].task, fs[0].token, fs[0].outcome);
      FireKeepsStoredResults(w, fs[0].task, fs[0].token, fs[0].outcome);
      ResultsFrozen(next, fs[1..], name);
    }
  }

  /** Retained lists never hold more than one value, so never more than any positive capacity. */
  lemma {:induction false} RetentionBounded(w: World, fs: seq<Firing>)
    requires Singletons(w.cron)
    ensures Singletons(FireAll(w, fs).cron)
    ensures forall name :: |GetResult(FireAll(w, fs).cron, name)| <= 1
    decreases |fs|
  {
    if fs != [] {
      FireKeepsStoredResults(w, fs[0].task, fs[0].token, fs[0].outcome);
      RetentionBounded(Fire(w, fs[0].task, fs[0].token, fs[0].outcome), fs[1..]);
    }
  }

  /**
   The capacity-1 task "build" fires three times returning "v1", "v2", "v3":
   the retained list is ["v1"], not the newest value.
   */
  lemma FirstResultIsKeptForever(w: World, spec: string)
    requires w.cron.results == map[]
    ensures var task := Task(DecorateName("build"), spec, 1, false, 0);
            var fs := [Firing(task, "", Return(Some("v1"))),
                       Firing(task, "", Return(Some("v2"))),
                       Firing(task, "", Return(Some("v3")))];
            GetResult(FireAll(w, fs).cron, "build") == ["v1"]
  {
    var task := Task(DecorateName("build"), spec, 1, false, 0);
    var fs := [Firing(task, "", Return(Some("v1"))),
               Firing(task, "", Return(Some("v2"))),
               Firing(task, "", Return(Some("v3")))];
    var w1 := Fire(w, task, "", Return(Some("v1")));
    assert w1.cron.results[task.name] == ["v1"];
    assert FireAll(w, fs) == FireAll(w1, fs[1..]);
    ResultsFrozen(w1, fs[1..], task.name);
  }

  /** Registering the same name twice makes `Start` fail with that name, binding nothing. */
  lemma DuplicateNamesBlockStart(cron: Cron, a: Task, b: Task, accepts: string -> bool)
    requires cron.engine.Some? && UniqueNames(cron.tasks) && a.name == b.name
    ensures var c := AddTask(AddTask(cron, a), b);
            var r := Start(c, accepts);
            r.err == Some(Duplication(DecorateName(a.name))) && r.cron == c && GetCount(r.cron) == cron.count
  {
  }

  /** A fresh scheduler whose schedules are all accepted binds every task. */
  lemma StartBindsAll(cron: Cron, accepts: string -> bool)
    requires cron.engine == Some([]) && cron.count == 0 && UniqueNames(cron.tasks)
    requires forall j :: 0 <= j < |cron.tasks| ==> accepts(cron.tasks[j].spec)
    ensures var r := Start(cron, accepts);
            r.err.None? && GetCount(r.cron) == |cron.tasks| && r.cron.engine == Some(cron.tasks)
  {
    var r := Start(cron, accepts);
    assert [] + cron.tasks[..|cron.tasks|] == cron.tasks;
  }

  /** When the engine rejects task `i`'s schedule first, `Start` reports it with `i` tasks bound. */
  lemma StartStopsAtRejectedSpec(cron: Cron, accepts: string -> bool, i: nat)
    requires cron.engine.Some? && UniqueNames(cron.tasks)
    requires i < |cron.tasks| && !accepts(cron.tasks[i].spec)
    requires forall j :: 0 <= j < i ==> accepts(cron.tasks[j].spec)
    ensures var r := Start(cron, accepts);
            r.err == Some(BadSpec(cron.tasks[i].spec)) && r.cron.count == cron.count + i
  {
  }

  /**
   Teardown: no lock list, no results, no restart, a second `Stop` panics, and the
   backend loses exactly the keys this process listed.
   */
  lemma StopTearsDown(w: World, name: string, accepts: string -> bool)
    requires w.cron.engine.Some?
    ensures var r := Stop(w);
            && r.Some?
            && ScanLockedTasks(r.value.world.cron).None?
            && GetResult(r.value.world.cron, name) == []
            && GetCount(r.value.world.cron) == 0
            && Start(r.value.world.cron, accepts).err == Some(NotCreated)
            && Stop(r.value.world).None?
            && (forall k :: k in w.store && (w.cron.locker.None? || k !in ScanLocks(w.cron.locker.value))
                  ==> k in r.value.world.store && r.value.world.store[k] == w.store[k])
            && (w.cron.locker.Some? ==> forall k :: k in ScanLocks(w.cron.locker.value) ==> k !in r.value.world.store)
  {
  }

  /**
   `Stop` does not stop every renewal loop. For a listed key whose lease already
   lapsed, `DelLock` finds nothing and returns before closing the key's loop; a loop
   whose channel a later lock of the same key overwrote cannot be reached at all.
   Both keep running after the scheduler is gone.
   */
  lemma StopOrphansLapsedLoops(w: World, k: string, dog: Watchdog)
    requires w.cron.engine.Some? && w.cron.locker.Some? && Valid(w.cron.locker.value)
    ensures var reg := w.cron.locker.value;
            k in ScanLocks(reg) && k !in w.store ==> reg.closers[k] in Stop(w).value.orphans
    ensures var reg := w.cron.locker.value;
            dog in reg.running && dog !in reg.closers.Values ==> dog in Stop(w).value.orphans
  {
    var reg := w.cron.locker.value;
    if k in ScanLocks(reg) && k !in w.store {
      assert reg.closers[k] !in ClosedLoops(w.store, reg, ScanLocks(reg));
    }
  }

  /** With an empty locker configuration, tasks that ask for the lock run unlocked. */
  lemma EmptyConfigRunsUnlocked(dialOk: bool, task: Task, store: Store, token: string)
    requires task.shouldLock
    ensures var r := NewCron([LockerConfig(false, "")], dialOk);
            r.Success? && r.value.locker.None?
            && Begin(World(r.value, store), task, token).gate.Unlocked?
  {
  }

  /** The first lock a scheduler takes is the only key its lock list shows. */
  lemma FirstLockIsListed(w: World, task: Task, token: string)
    requires w.cron.locker.Some? && ScanLocks(w.cron.locker.value) == {}
    requires task.shouldLock && task.name !in w.store
    ensures var b := Begin(w, task, token);
            b.gate.Locked? && ScanLockedTasks(b.world.cron) == Some({task.name})
  {
    var b := Begin(w, task, token);
    var reg := b.world.cron.locker.value;
    assert (reg.closers - {task.name}).Keys == {};
    assert reg.closers.Keys == {task.name};
  }

  /**
   The life of a locked task: create with a DSN, add "test", start, let a firing
   take the lock; the lock list names the task; after `Stop` there is no list and
   the key is gone from the backend.
   */
  lemma LockedTaskLifecycle(store: Store, spec: string, token: string)
    requires DecorateName("test") !in store
    ensures var c0 := NewCron([LockerConfig(false, "redis://localhost:6379/1")], true).value;
            var c1 := AddTask(c0, Task("test", spec, 1, true, 3));
            var s := Start(c1, _ => true);
            var b := Begin(World(s.cron, store), c1.tasks[0], token);
            && s.err.None? && GetCount(s.cron) == 1
            && ScanLockedTasks(b.world.cron) == Some({DecorateName("test")})
            && ScanLockedTasks(Stop(b.world).value.world.cron).None?
            && DecorateName("test") !in Stop(b.world).value.world.store
  {
    var c0 := NewCron([LockerConfig(false, "redis://localhost:6379/1")], true).value;
    var c1 := AddTask(c0, Task("test", spec, 1, true, 3));
    assert UniqueNames(c1.tasks);
    StartBindsAll(c1, _ => true);
    var s := Start(c1, _ => true);
    FirstLockIsListed(World(s.cron, store), c1.tasks[0], token);
  }
}
