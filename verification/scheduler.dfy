/**
 The scheduler of cron.go. A `Cron` holds the registered tasks, the trigger
 engine (`None` once it has been discarded; `Some` lists the jobs bound to it),
 the bound-job count, the retained results per decorated task name, and the
 optional locker, represented by its process-local registry. The lock backend is
 shared with other processes, so it travels beside the scheduler in a `World`.

 A task's executor is not a value of the model: each firing is told what the
 executor does this time (`Outcome`). A firing is split into `Begin` (the lock
 gate) and `Finish` (unlock and result recording) so that other events may
 interleave; `Fire` is one firing with nothing in between.
 */
module Scheduler {
  import opened Wrappers
  import opened Backend
  import opened RedisLocker

  /** A non-nil executor result. */
  type Value = string

  datatype Task = Task(name: string, spec: string, capacity: int, shouldLock: bool, lockExpire: int)

  datatype Cron = Cron(
    tasks: seq<Task>,
    engine: Option<seq<Task>>,
    count: int,
    results: map<string, seq<Value>>,
    locker: Option<Registry>)

  datatype World = World(cron: Cron, store: Store)

  datatype Error =
    | NotCreated            // "should NewCron firstly"
    | Duplication(name: string)  // name + " duplication"
    | BadSpec(spec: string)      // the trigger engine rejected the schedule
    | DialFailed(dsn: string)    // the Redis client could not be built from the DSN

  datatype Started = Started(cron: Cron, err: Option<Error>)

  /** What one run of the executor did: returned (nil is `None`) or panicked. */
  datatype Outcome = Return(res: Option<Value>) | Panic

  /** The lock gate of one firing. */
  datatype Gate = Skipped | Unlocked | Locked(token: string)

  datatype Begun = Begun(world: World, gate: Gate)

  const Prefix: string := "cron:"

  /** The namespacing transform; the result is the lock key and the result key. */
  function DecorateName(name: string): (r: string)
    ensures |r| == |Prefix| + |name|
    ensures r[..|Prefix|] == Prefix && r[|Prefix|..] == name
  {
    Prefix + name
  }

  /** Decoration loses nothing: distinct names stay distinct. */
  lemma DecorateNameInjective(a: string, b: string)
    ensures DecorateName(a) == DecorateName(b) <==> a == b
  {
  }

  /**
   A fresh scheduler. The locker is built from the first configuration when it is
   not empty: an existing client is adopted, a DSN is dialled (`dialOk` says
   whether the client library succeeds).
   */
  function NewCron(configs: seq<LockerConfig>, dialOk: bool): (r: Result<Cron, Error>)
    ensures r.Failure? <==> |configs| > 0 && !configs[0].IsEmpty() && !configs[0].hasClient && !dialOk
    ensures r.Failure? ==> r.error == DialFailed(configs[0].dsn)
    ensures r.Success? ==> r.value.tasks == [] && r.value.engine == Some([]) && r.value.count == 0
    ensures r.Success? ==> r.value.results == map[]
    ensures r.Success? ==> (r.value.locker.Some? <==> |configs| > 0 && !configs[0].IsEmpty())
    ensures r.Success? && r.value.locker.Some? ==> ScanLocks(r.value.locker.value) == {}
  {
    var blank := Cron([], Some([]), 0, map[], None);
    if |configs| == 0 || configs[0].IsEmpty() then Success(blank)
    else if configs[0].hasClient || dialOk then Success(blank.(locker := Some(NewRegistry())))
    else Failure(DialFailed(configs[0].dsn))
  }

  /** Append the task under its decorated name; no uniqueness check here. */
  function AddTask(cron: Cron, task: Task): (r: Cron)
    ensures |r.tasks| == |cron.tasks| + 1 && r.tasks[..|cron.tasks|] == cron.tasks
    ensures r.tasks[|cron.tasks|] == task.(name := DecorateName(task.name))
    ensures r.(tasks := cron.tasks) == cron
  {
    cron.(tasks := cron.tasks + [task.(name := DecorateName(task.name))])
  }

  // ---- duplicate detection ----

  /** Task `j` repeats the name of some earlier task. */
  ghost predicate RepeatAt(ts: seq<Task>, j: int) {
    0 <= j < |ts| && exists i :: 0 <= i < j && ts[i].name == ts[j].name
  }

  /** No task before position `n` repeats an earlier name. */
  ghost predicate NoRepeatBefore(ts: seq<Task>, n: int) {
    forall j :: 0 <= j < n ==> !RepeatAt(ts, j)
  }

  /** Task `j` is the first one, in list order, whose name was seen before. */
  ghost predicate FirstRepeat(ts: seq<Task>, j: int) {
    RepeatAt(ts, j) && NoRepeatBefore(ts, j)
  }

  ghost predicate UniqueNames(ts: seq<Task>) {
    forall i, j :: 0 <= i < j < |ts| ==> ts[i].name != ts[j].name
  }

  /** The loop of `taskShouldNotDuplication` from position `i`, `seen` being the names before it. */
  function ScanNames(ts: seq<Task>, i: nat, seen: set<string>): (r: Option<string>)
    requires i <= |ts|
    requires seen == set k | 0 <= k < i :: ts[k].name
    requires NoRepeatBefore(ts, i)
    ensures r.None? <==> NoRepeatBefore(ts, |ts|)
    ensures r.Some? ==> exists j :: i <= j < |ts| && FirstRepeat(ts, j) && ts[j].name == r.value
    decreases |ts| - i
  {
    if i == |ts| then None
    else if ts[i].name in seen then
      assert RepeatAt(ts, i);
      Some(ts[i].name)
    else
      assert !RepeatAt(ts, i);
      assert seen + {ts[i].name} == set k | 0 <= k < i + 1 :: ts[k].name;
      ScanNames(ts, i + 1, seen + {ts[i].name})
  }

  /** `taskShouldNotDuplication`: the first name, in list order, that occurs twice. */
  function DuplicationCheck(ts: seq<Task>): (r: Option<string>)
    ensures r.None? <==> UniqueNames(ts)
    ensures r.Some? ==> exists j :: FirstRepeat(ts, j) && ts[j].name == r.value
  {
    NoRepeatIffUnique(ts);
    ScanNames(ts, 0, {})
  }

  lemma NoRepeatIffUnique(ts: seq<Task>)
    ensures NoRepeatBefore(ts, |ts|) <==> UniqueNames(ts)
  {
    if !UniqueNames(ts) {
      var i, j :| 0 <= i < j < |ts| && ts[i].name == ts[j].name;
      assert RepeatAt(ts, j);
    }
  }

  // ---- start ----

  /**
   Bind tasks `i..` to the engine in order; stops at the first schedule the engine
   rejects, after counting the ones bound before it.
   */
  function Bind(cron: Cron, accepts: string -> bool, i: nat): (r: Started)
    requires cron.engine.Some? && i <= |cron.tasks|
    ensures var n := r.cron.count - cron.count;
            && 0 <= n <= |cron.tasks| - i
            && (forall j :: i <= j < i + n ==> accepts(cron.tasks[j].spec))
            && r.cron.engine == Some(cron.engine.value + cron.tasks[i..i + n])
            && (r.err.None? <==> i + n == |cron.tasks|)
            && (r.err.Some? ==> i + n < |cron.tasks| && !accepts(cron.tasks[i + n].spec)
                                && r.err == Some(BadSpec(cron.tasks[i + n].spec)))
    ensures r.cron.tasks == cron.tasks && r.cron.results == cron.results && r.cron.locker == cron.locker
    decreases |cron.tasks| - i
  {
    if i == |cron.tasks| then
      assert cron.engine.value + cron.tasks[i..i] == cron.engine.value;
      Started(cron, None)
    else if !accepts(cron.tasks[i].spec) then
      assert cron.engine.value + cron.tasks[i..i] == cron.engine.value;
      Started(cron, Some(BadSpec(cron.tasks[i].spec)))
    else
      var next := cron.(engine := Some(cron.engine.value + [cron.tasks[i]]), count := cron.count + 1);
      var r := Bind(next, accepts, i + 1);
      ghost var n := r.cron.count - next.count;
      assert cron.tasks[i..i + 1 + n] == [cron.tasks[i]] + cron.tasks[i + 1..i + 1 + n];
      assert (cron.engine.value + [cron.tasks[i]]) + cron.tasks[i + 1..i + 1 + n]
          == cron.engine.value + cron.tasks[i..i + 1 + n];
      r
  }

  /**
   `Start`: fails on a discarded engine, then on duplicate names (before binding
   anything), then on the first schedule the engine rejects; `accepts` is the
   engine's verdict on a schedule string.
   */
  function Start(cron: Cron, accepts: string -> bool): (r: Started)
    ensures cron.engine.None? ==> r == Started(cron, Some(NotCreated))
    ensures cron.engine.Some? && !UniqueNames(cron.tasks) ==>
              && r.cron == cron && r.err.Some? && r.err.value.Duplication?
              && exists j :: FirstRepeat(cron.tasks, j) && cron.tasks[j].name == r.err.value.name
    ensures cron.engine.Some? && UniqueNames(cron.tasks) ==>
              var n := r.cron.count - cron.count;
              && 0 <= n <= |cron.tasks|
              && (forall j :: 0 <= j < n ==> accepts(cron.tasks[j].spec))
              && r.cron.engine == Some(cron.engine.value + cron.tasks[..n])
              && (r.err.None? <==> n == |cron.tasks|)
              && (r.err.Some? ==> n < |cron.tasks| && !accepts(cron.tasks[n].spec)
                                  && r.err == Some(BadSpec(cron.tasks[n].spec)))
    ensures r.cron.tasks == cron.tasks && r.cron.results == cron.results && r.cron.locker == cron.locker
  {
    if cron.engine.None? then Started(cron, Some(NotCreated))
    else
      match DuplicationCheck(cron.tasks)
      case Some(name) => Started(cron, Some(Duplication(name)))
      case None => Bind(cron, accepts, 0)
  }

  function GetCount(cron: Cron): int {
    cron.count
  }

  // ---- one firing ----

  /**
   The gate of `taskWithRecover`: a task that asks for the lock while a locker is
   configured runs only if `LockTask(name, lockExpire)` succeeds; `token` is the
   owner string that call would build.
   */
  function Begin(w: World, task: Task, token: string): (r: Begun)
    ensures r.gate.Unlocked? <==> !(task.shouldLock && w.cron.locker.Some?)
    ensures r.gate.Skipped? <==> task.shouldLock && w.cron.locker.Some? && task.name in w.store
    ensures r.gate.Locked? ==> r.gate.token == token && r.world.cron.locker.Some?
    ensures r.gate.Locked? ==> r.world.store == w.store[task.name := Entry(token, task.lockExpire)]
    ensures r.gate.Locked? ==> task.name in ScanLocks(r.world.cron.locker.value)
    ensures r.gate.Locked? ==>
              r.world.cron.locker == Some(LockTask(w.store, w.cron.locker.value, task.name, task.lockExpire, token).reg)
    ensures !r.gate.Locked? ==> r.world == w
    ensures r.world.cron.(locker := w.cron.locker) == w.cron
  {
    if task.shouldLock && w.cron.locker.Some? then
      var l := LockTask(w.store, w.cron.locker.value, task.name, task.lockExpire, token);
      if l.ok then
        assert l.store == w.store[task.name := Entry(token, task.lockExpire)] by {
          assert l.store - {task.name} == w.store;
        }
        Begun(World(w.cron.(locker := Some(l.reg)), l.store), Locked(l.value))
      else Begun(w, Skipped)
    else Begun(w, Unlocked)
  }

  /**
   Record a result as the source does: only a non-nil result of a task with
   positive capacity, and only when nothing is stored yet under the name. For an
   existing entry the evict-then-append is computed on a local copy (see
   `EvictAppend`) and never stored back.
   */
  function Record(results: map<string, seq<Value>>, task: Task, res: Option<Value>): (r: map<string, seq<Value>>)
    ensures r.Keys == results.Keys + (if res.Some? && task.capacity > 0 then {task.name} else {})
    ensures forall n :: n in results ==> r[n] == results[n]
    ensures task.name !in results && res.Some? && task.capacity > 0 ==> r[task.name] == [res.value]
  {
    if res.Some? && task.capacity > 0 && task.name !in results then results[task.name := [res.value]]
    else results
  }

  /**
   Lines 116-121: drop the oldest element when the list is full, then append.
   With `|v| <= capacity` the list stays within capacity, ends in `res`, and is the
   newest part of `v + [res]`.
   */
  function EvictAppend(v: seq<Value>, res: Value, capacity: int): (r: seq<Value>)
    requires capacity > 0
    ensures |v| <= capacity ==> |r| <= capacity
    ensures |v| < capacity ==> r == v + [res]
    ensures |r| >= 1 && r[|r| - 1] == res
    ensures |r| <= |v| + 1 && r == (v + [res])[|v| + 1 - |r|..]
  {
    if |v| == capacity then v[1..] + [res] else v + [res]
  }

  /**
   The rest of the firing. A panic is recovered and ends the firing: nothing is
   recorded and, under the lock, `UnLockTask` is never reached. A normal return
   under the lock calls `UnLockTask(name, token)` once, then records. If the
   locker was discarded meanwhile, the call on the nil locker panics and is
   recovered the same way.
   */
  function Finish(w: World, task: Task, gate: Gate, outcome: Outcome): (r: World)
    ensures gate.Skipped? || outcome.Panic? ==> r == w
    ensures gate.Unlocked? && outcome.Return? ==>
              r == World(w.cron.(results := Record(w.cron.results, task, outcome.res)), w.store)
    ensures gate.Locked? && outcome.Return? && w.cron.locker.Some? ==>
              var u := UnLockTask(w.store, w.cron.locker.value, task.name, gate.token);
              r == World(w.cron.(locker := Some(u.reg), results := Record(w.cron.results, task, outcome.res)), u.store)
    ensures gate.Locked? && w.cron.locker.None? ==> r == w
  {
    match gate
    case Skipped => w
    case Unlocked =>
      if outcome.Panic? then w
      else World(w.cron.(results := Record(w.cron.results, task, outcome.res)), w.store)
    case Locked(token) =>
      if outcome.Panic? || w.cron.locker.None? then w
      else
        var u := UnLockTask(w.store, w.cron.locker.value, task.name, token);
        World(w.cron.(locker := Some(u.reg), results := Record(w.cron.results, task, outcome.res)), u.store)
  }

  /** One complete firing of `taskWithRecover(task)`. */
  function Fire(w: World, task: Task, token: string, outcome: Outcome): (r: World)
    ensures r.cron.tasks == w.cron.tasks && r.cron.engine == w.cron.engine && r.cron.count == w.cron.count
    ensures r.cron.locker.Some? <==> w.cron.locker.Some?
    ensures r.cron.results == (if outcome.Return? && !(Begin(w, task, token).gate.Skipped?)
                               then Record(w.cron.results, task, outcome.res) else w.cron.results)
  {
    var b := Begin(w, task, token);
    Finish(b.world, task, b.gate, outcome)
  }

  // ---- reads and teardown ----

  /** The retained results for the task registered as `name`, or none. */
  function GetResult(cron: Cron, name: string): (r: seq<Value>)
    ensures DecorateName(name) !in cron.results ==> r == []
    ensures DecorateName(name) in cron.results ==> r == cron.results[DecorateName(name)]
  {
    if DecorateName(name) in cron.results then cron.results[DecorateName(name)] else []
  }

  /** The locker's local lock list; nil (`None`) when there is no locker. */
  function ScanLockedTasks(cron: Cron): (r: Option<set<string>>)
    ensures r.None? <==> cron.locker.None?
    ensures r.Some? ==> r.value == ScanLocks(cron.locker.value)
  {
    if cron.locker.None? then None else Some(ScanLocks(cron.locker.value))
  }

  /**
   `cleanLocks`: `DelLock` on every key of `ScanLocks()`, in whatever order the
   map yields them. The backend loses exactly those keys, whoever owns them now;
   a key whose lease had already lapsed stays in the registry.
   */
  method CleanLocks(store: Store, reg: Registry) returns (s: Store, g: Registry)
    ensures s == store - ScanLocks(reg)
    ensures g.closers == reg.closers - (ScanLocks(reg) * store.Keys)
    ensures g.running == reg.running - ClosedLoops(store, reg, ScanLocks(reg))
    ensures Valid(reg) ==> Valid(g)
  {
    var keys := ScanLocks(reg);
    ghost var done: set<string> := {};
    s, g := store, reg;
    while keys != {}
      invariant keys !! done && keys + done == ScanLocks(reg)
      invariant s == store - done
      invariant g.closers == reg.closers - (done * store.Keys)
      invariant g.running == reg.running - ClosedLoops(store, reg, done)
      invariant Valid(reg) ==> Valid(g)
      decreases keys
    {
      var k :| k in keys;
      var d := DelLock(s, g, k);
      ClosedLoopsStep(store, reg, done, k);
      s, g := d.store, d.reg;
      keys := keys - {k};
      done := done + {k};
    }
  }

  /**
   The renewal loops `cleanLocks` closes while it goes over `keys`: `DelLock` returns
   before closing a key's loop when the key is no longer in the backend, so only
   the loops of keys still stored are closed.
   */
  ghost function ClosedLoops(store: Store, reg: Registry, keys: set<string>): set<Watchdog> {
    set k | k in keys && k in store && k in reg.closers :: reg.closers[k]
  }

  lemma ClosedLoopsStep(store: Store, reg: Registry, done: set<string>, k: string)
    ensures ClosedLoops(store, reg, done + {k})
         == ClosedLoops(store, reg, done) + (if k in store && k in reg.closers then {reg.closers[k]} else {})
  {
  }

  /**
   What `Stop` leaves behind: the emptied scheduler and backend, and the renewal
   loops of this process that are still running (the locker itself is dropped, but
   its goroutines are not).
   */
  datatype Stopped = Stopped(world: World, orphans: set<Watchdog>)

  /**
   `Stop`. The engine's own `Stop` dereferences the engine, so stopping a
   scheduler whose engine was discarded panics (`None`). Otherwise every key this
   process lists is deleted from the backend and the scheduler is emptied; a listed
   key's loop is closed only when its delete found the key.
   */
  function Stop(w: World): (r: Option<Stopped>)
    ensures r.None? <==> w.cron.engine.None?
    ensures r.Some? ==> r.value.world.cron == Cron([], None, 0, map[], None)
    ensures r.Some? ==> r.value.world.store == w.store - (if w.cron.locker.Some? then ScanLocks(w.cron.locker.value) else {})
    ensures r.Some? && w.cron.locker.Some? ==>
              var reg := w.cron.locker.value;
              r.value.orphans == reg.running - ClosedLoops(w.store, reg, ScanLocks(reg))
    ensures r.Some? && w.cron.locker.None? ==> r.value.orphans == {}
  {
    if w.cron.engine.None? then None
    else if w.cron.locker.None? then
      Some(Stopped(World(Cron([], None, 0, map[], None), w.store), {}))
    else
      var reg := w.cron.locker.value;
      var store := w.store - ScanLocks(reg);
      var orphans := reg.running - (set k | k in reg.closers && k in w.store :: reg.closers[k]);
      Some(Stopped(World(Cron([], None, 0, map[], None), store), orphans))
  }
}
