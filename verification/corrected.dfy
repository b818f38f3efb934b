/**
 The firing wrapper as it is evidently meant to behave: the evict-then-append
 result is stored back (a bounded FIFO of the newest values), and the lock is
 released even when the executor panics (the release runs on the deferred path),
 and `Stop` closes every listed key's renewal loop.
 */
module Corrected {
  import opened Wrappers
  import opened Backend
  import opened RedisLocker
  import opened Scheduler

  /** The newest `capacity` elements of `s` (all of them when it is shorter). */
  function Newest(s: seq<Value>, capacity: nat): (r: seq<Value>)
    ensures |r| == if |s| < capacity then |s| else capacity
  {
    if |s| <= capacity then s else s[|s| - capacity..]
  }

  /** Push each value in turn into a list of the given capacity. */
  function PushAll(v: seq<Value>, vs: seq<Value>, capacity: int): seq<Value>
    requires capacity > 0
    decreases |vs|
  {
    if vs == [] then v else PushAll(EvictAppend(v, vs[0], capacity), vs[1..], capacity)
  }

  /** One push into a list within capacity keeps the newest `capacity` values. */
  lemma EvictAppendIsNewest(v: seq<Value>, res: Value, capacity: int)
    requires capacity > 0 && |v| <= capacity
    ensures EvictAppend(v, res, capacity) == Newest(v + [res], capacity)
  {
  }

  /**
   Bounded retention: starting from a list within capacity, pushing values keeps
   exactly the newest `capacity` of old and new values together, oldest first.
   */
  lemma {:induction false} PushAllKeepsNewest(v: seq<Value>, vs: seq<Value>, capacity: int)
    requires capacity > 0 && |v| <= capacity
    ensures PushAll(v, vs, capacity) == Newest(v + vs, capacity)
    decreases |vs|
  {
    if vs == [] {
      assert v + vs == v;
    } else {
      var v' := EvictAppend(v, vs[0], capacity);
      EvictAppendIsNewest(v, vs[0], capacity);
      PushAllKeepsNewest(v', vs[1..], capacity);
      NewestOfFirstPush(v, vs, capacity);
    }
  }

  lemma NewestOfFirstPush(v: seq<Value>, vs: seq<Value>, capacity: nat)
    requires capacity > 0 && vs != []
    ensures Newest(Newest(v + [vs[0]], capacity) + vs[1..], capacity) == Newest(v + vs, capacity)
  {
  }

  /** Record a result by storing the evicted-and-appended list back. */
  function RecordFixed(results: map<string, seq<Value>>, task: Task, res: Option<Value>): (r: map<string, seq<Value>>)
    ensures r.Keys == results.Keys + (if res.Some? && task.capacity > 0 then {task.name} else {})
    ensures forall n :: n in results && n != task.name ==> r[n] == results[n]
    ensures res.Some? && task.capacity > 0 ==>
              r[task.name] == EvictAppend(if task.name in results then results[task.name] else [], res.value, task.capacity)
    ensures res.None? || task.capacity <= 0 ==> r == results
  {
    if res.Some? && task.capacity > 0 then
      var old_list := if task.name in results then results[task.name] else [];
      results[task.name := EvictAppend(old_list, res.value, task.capacity)]
    else results
  }

  /** `Finish` with the release on the deferred path and results stored back. */
  function FinishFixed(w: World, task: Task, gate: Gate, outcome: Outcome): (r: World)
    ensures gate.Skipped? ==> r == w
    ensures gate.Locked? && w.cron.locker.Some? ==>
              r.store == UnLockTask(w.store, w.cron.locker.value, task.name, gate.token).store
    ensures outcome.Panic? ==> r.cron.results == w.cron.results
  {
    match gate
    case Skipped => w
    case Unlocked =>
      if outcome.Panic? then w
      else World(w.cron.(results := RecordFixed(w.cron.results, task, outcome.res)), w.store)
    case Locked(token) =>
      var released :=
        if w.cron.locker.None? then w
        else
          var u := UnLockTask(w.store, w.cron.locker.value, task.name, token);
          World(w.cron.(locker := Some(u.reg)), u.store);
      if outcome.Panic? then released
      else World(released.cron.(results := RecordFixed(released.cron.results, task, outcome.res)), released.store)
  }

  function FireFixed(w: World, task: Task, token: string, outcome: Outcome): (r: World)
    ensures r.cron.tasks == w.cron.tasks && r.cron.engine == w.cron.engine && r.cron.count == w.cron.count
  {
    var b := Begin(w, task, token);
    FinishFixed(b.world, task, b.gate, outcome)
  }

  /** A panic under the lock still frees the key, so the next firing can take it. */
  lemma FixedPanicReleasesLock(w: World, task: Task, token: string, token2: string)
    requires Begin(w, task, token).gate.Locked?
    ensures var r := FireFixed(w, task, token, Panic);
            && task.name !in r.store
            && task.name !in ScanLocks(r.cron.locker.value)
            && r.cron.results == w.cron.results
            && Begin(r, task, token2).gate.Locked?
  {
  }

  /** Fire an unlocked task once per value, each run returning that value. */
  function FireEachFixed(w: World, task: Task, vs: seq<Value>): World
    decreases |vs|
  {
    if vs == [] then w else FireEachFixed(FireFixed(w, task, "", Return(Some(vs[0]))), task, vs[1..])
  }

  /** Record each value in turn, as the corrected firings of one task do. */
  function RecordEach(results: map<string, seq<Value>>, task: Task, vs: seq<Value>): map<string, seq<Value>>
    decreases |vs|
  {
    if vs == [] then results else RecordEach(RecordFixed(results, task, Some(vs[0])), task, vs[1..])
  }

  /** Corrected firings of an unlocked task that return values only record them. */
  lemma {:induction false} FireEachIsRecordEach(w: World, task: Task, vs: seq<Value>)
    requires !(task.shouldLock && w.cron.locker.Some?)
    ensures FireEachFixed(w, task, vs).cron.results == RecordEach(w.cron.results, task, vs)
    decreases |vs|
  {
    if vs != [] {
      var next := FireFixed(w, task, "", Return(Some(vs[0])));
      assert next.cron.locker == w.cron.locker;
      assert next.cron.results == RecordFixed(w.cron.results, task, Some(vs[0]));
      FireEachIsRecordEach(next, task, vs[1..]);
    }
  }

  /** Recording values one by one is pushing them all into the task's list. */
  lemma {:induction false} RecordEachPushesAll(results: map<string, seq<Value>>, task: Task, vs: seq<Value>)
    requires task.capacity > 0 && vs != []
    requires task.name in results ==> |results[task.name]| <= task.capacity
    ensures var stored := if task.name in results then results[task.name] else [];
            var r := RecordEach(results, task, vs);
            task.name in r && r[task.name] == PushAll(stored, vs, task.capacity)
    decreases |vs|
  {
    var stored := if task.name in results then results[task.name] else [];
    var next := RecordFixed(results, task, Some(vs[0]));
    assert next[task.name] == EvictAppend(stored, vs[0], task.capacity);
    if |vs| > 1 {
      RecordEachPushesAll(next, task, vs[1..]);
    }
  }

  /**
   Bounded retention with the fix: after firings of an unlocked task returning
   `vs`, the task keeps the newest `capacity` of its old and new results, oldest first.
   */
  lemma BoundedRetention(w: World, task: Task, vs: seq<Value>)
    requires !(task.shouldLock && w.cron.locker.Some?) && task.capacity > 0 && vs != []
    requires task.name in w.cron.results ==> |w.cron.results[task.name]| <= task.capacity
    ensures var stored := if task.name in w.cron.results then w.cron.results[task.name] else [];
            var r := FireEachFixed(w, task, vs).cron.results;
            task.name in r && r[task.name] == Newest(stored + vs, task.capacity)
  {
    var stored := if task.name in w.cron.results then w.cron.results[task.name] else [];
    FireEachIsRecordEach(w, task, vs);
    RecordEachPushesAll(w.cron.results, task, vs);
    PushAllKeepsNewest(stored, vs, task.capacity);
  }

  /**
   The capacity-1 task "build" fires three times returning "v1", "v2", "v3":
   with the fix the retained list is ["v3"].
   */
  lemma FixedKeepsNewest(w: World, spec: string)
    requires w.cron.results == map[]
    ensures var task := Task(DecorateName("build"), spec, 1, false, 0);
            GetResult(FireEachFixed(w, task, ["v1", "v2", "v3"]).cron, "build") == ["v3"]
  {
    var task := Task(DecorateName("build"), spec, 1, false, 0);
    BoundedRetention(w, task, ["v1", "v2", "v3"]);
    assert Newest([] + ["v1", "v2", "v3"], 1) == ["v3"];
  }

  /**
   `Stop` as teardown is meant to work: every listed key's loop is closed, whether
   or not the key was still in the backend when it was deleted.
   */
  function StopFixed(w: World): (r: Option<Stopped>)
    ensures r.None? <==> w.cron.engine.None?
    ensures r.Some? ==> r.value.world == Stop(w).value.world
    ensures r.Some? && w.cron.locker.Some? ==>
              forall k :: k in ScanLocks(w.cron.locker.value) ==> w.cron.locker.value.closers[k] !in r.value.orphans
    ensures r.Some? && w.cron.locker.Some? ==> r.value.orphans <= Stop(w).value.orphans
    ensures r.Some? && w.cron.locker.None? ==> r.value.orphans == {}
  {
    match Stop(w)
    case None => None
    case Some(s) =>
      if w.cron.locker.None? then Some(s)
      else
        var reg := w.cron.locker.value;
        Some(s.(orphans := reg.running - reg.closers.Values))
  }

  /**
   With the fixed teardown, a locker whose every live loop is registered under its
   key leaves nothing running, lapsed leases included.
   */
  lemma FixedStopLeavesNoLoop(w: World)
    requires w.cron.engine.Some? && w.cron.locker.Some?
    requires w.cron.locker.value.running == w.cron.locker.value.closers.Values
    ensures StopFixed(w).value.orphans == {}
  {
  }
}
