/**
 Several scheduler processes share one backend. Each process owns a locker
 registry; every call, renewal-loop wake-up and passage of time is an explicit
 event, and a run is a sequence of events applied in order.
 */
module LockerRuns {
  import opened Backend
  import opened RedisLocker

  datatype Op =
    | Lock(key: string, expire: int, token: string)
    | Unlock(key: string, value: string)
    | Del(key: string)
    | Peek(key: string)
    | Tick(dog: Watchdog)
    | Wait(seconds: nat)

  /** Operation `op` issued by process `pid` (a `Wait` is time passing for everyone). */
  datatype Event = Event(pid: nat, op: Op)

  datatype System = System(store: Store, procs: seq<Registry>)

  function Step(sys: System, ev: Event): (r: System)
    ensures |r.procs| == |sys.procs|
    ensures forall q :: 0 <= q < |sys.procs| && q != ev.pid ==> r.procs[q] == sys.procs[q]
  {
    if ev.pid >= |sys.procs| then sys
    else
      var reg := sys.procs[ev.pid];
      match ev.op
      case Lock(k, e, t) =>
        var l := LockTask(sys.store, reg, k, e, t);
        System(l.store, sys.procs[ev.pid := l.reg])
      case Unlock(k, v) =>
        var u := UnLockTask(sys.store, reg, k, v);
        System(u.store, sys.procs[ev.pid := u.reg])
      case Del(k) =>
        var d := DelLock(sys.store, reg, k);
        System(d.store, sys.procs[ev.pid := d.reg])
      case Peek(_) => sys
      case Tick(w) => System(WatchdogTick(sys.store, reg, w), sys.procs)
      case Wait(d) => System(Elapse(sys.store, d), sys.procs)
  }

  function Run(sys: System, evs: seq<Event>): System
    decreases |evs|
  {
    if evs == [] then sys else Run(Step(sys, evs[0]), evs[1..])
  }

  /** The event is a `LockTask` on `key` that succeeds. */
  predicate Acquires(sys: System, ev: Event, key: string) {
    && ev.pid < |sys.procs|
    && ev.op.Lock?
    && ev.op.key == key
    && LockTask(sys.store, sys.procs[ev.pid], key, ev.op.expire, ev.op.token).ok
  }

  /** The event ends the current lease on `key`: a matching unlock, a delete, or expiry. */
  predicate Releases(sys: System, ev: Event, key: string) {
    && ev.pid < |sys.procs|
    && key in sys.store
    && match ev.op
       case Unlock(k, v) => k == key && sys.store[key].value == v
       case Del(k) => k == key
       case Wait(d) => sys.store[key].ttl <= d
       case _ => false
  }

  /** No event of the run ends a lease on `key`. */
  predicate Quiet(sys: System, evs: seq<Event>, key: string)
    decreases |evs|
  {
    evs == [] || (!Releases(sys, evs[0], key) && Quiet(Step(sys, evs[0]), evs[1..], key))
  }

  /** How many events of the run acquire `key`. */
  function CountAcquires(sys: System, evs: seq<Event>, key: string): nat
    decreases |evs|
  {
    if evs == [] then 0
    else (if Acquires(sys, evs[0], key) then 1 else 0) + CountAcquires(Step(sys, evs[0]), evs[1..], key)
  }

  /** A step that does not release `key` keeps its owner; only an acquire makes it appear. */
  lemma StepKeepsOwner(sys: System, ev: Event, key: string)
    ensures key in sys.store && !Releases(sys, ev, key) ==>
              key in Step(sys, ev).store && Step(sys, ev).store[key].value == sys.store[key].value
    ensures key !in sys.store && key in Step(sys, ev).store ==> Acquires(sys, ev, key)
  {
  }

  /**
   Mutual exclusion: over a run in which no lease on `key` is released, deleted or
   lapses, at most one `LockTask(key, ...)` succeeds, across all processes; none
   does if the key was already held, and the holder keeps it to the end.
   */
  lemma {:induction false} AtMostOneAcquire(sys: System, evs: seq<Event>, key: string)
    requires Quiet(sys, evs, key)
    ensures CountAcquires(sys, evs, key) <= 1
    ensures key in sys.store ==> CountAcquires(sys, evs, key) == 0
    ensures key in sys.store ==> Holds(Run(sys, evs).store, key, sys.store[key].value)
    decreases |evs|
  {
    if evs != [] {
      var next := Step(sys, evs[0]);
      StepKeepsOwner(sys, evs[0], key);
      AtMostOneAcquire(next, evs[1..], key);
    }
  }

  /** Two lock attempts on one key with no release in between: the second one fails. */
  lemma SecondLockFails(sys: System, first: Event, between: seq<Event>, second: Event, key: string)
    requires Acquires(sys, first, key)
    requires Quiet(Step(sys, first), between, key)
    requires second.op.Lock? && second.op.key == key
    ensures !Acquires(Run(Step(sys, first), between), second, key)
  {
    AtMostOneAcquire(Step(sys, first), between, key);
  }

  /** Two instances racing for the same free key: exactly one gets it, the other gets "". */
  lemma TwoInstancesRace(sys: System, key: string, expire: int, t1: string, t2: string)
    requires |sys.procs| >= 2 && key !in sys.store
    ensures var e1 := Event(0, Lock(key, expire, t1));
            var e2 := Event(1, Lock(key, expire, t2));
            var mid := Step(sys, e1);
            && Acquires(sys, e1, key)
            && !Acquires(mid, e2, key)
            && LockTask(mid.store, mid.procs[1], key, expire, t2).value == ""
            && Holds(Step(mid, e2).store, key, t1)
  {
  }

  /** Each lock call changes only its caller's registry: the lock list is process-local. */
  lemma ScanLocksIsLocal(sys: System, ev: Event, q: nat)
    requires q < |sys.procs| && q != ev.pid
    ensures ScanLocks(Step(sys, ev).procs[q]) == ScanLocks(sys.procs[q])
  {
  }

  /** A lease that lapses in the backend is still listed by the process that took it. */
  lemma LapsedLeaseStillListed(sys: System, pid: nat, d: nat, key: string)
    requires pid < |sys.procs| && key in ScanLocks(sys.procs[pid])
    requires key in sys.store && sys.store[key].ttl <= d
    ensures var after := Step(sys, Event(pid, Wait(d)));
            key !in after.store && key in ScanLocks(after.procs[pid])
  {
  }

  /** Alternate `d` seconds of waiting with one wake-up of loop `w`, for each `d` in `ds`. */
  function RenewalSchedule(pid: nat, w: Watchdog, ds: seq<nat>): (r: seq<Event>)
    ensures |r| == 2 * |ds|
  {
    if ds == [] then []
    else [Event(pid, Wait(ds[0])), Event(pid, Tick(w))] + RenewalSchedule(pid, w, ds[1..])
  }

  /**
   Lease renewal: while its loop is live and wakes before the TTL runs out (every
   wait shorter than `w.expire`), the lease stays with its owner, TTL topped up.
   */
  lemma {:induction false} WatchdogKeepsLease(sys: System, pid: nat, w: Watchdog, ds: seq<nat>)
    requires pid < |sys.procs| && w in sys.procs[pid].running
    requires w.key in sys.store && sys.store[w.key] == Entry(w.token, w.expire)
    requires forall i :: 0 <= i < |ds| ==> ds[i] < w.expire
    ensures var fin := Run(sys, RenewalSchedule(pid, w, ds));
            w.key in fin.store && fin.store[w.key] == Entry(w.token, w.expire)
    decreases |ds|
  {
    if ds != [] {
      var evs := RenewalSchedule(pid, w, ds);
      var waited := Step(sys, Event(pid, Wait(ds[0])));
      var ticked := Step(waited, Event(pid, Tick(w)));
      assert evs[0] == Event(pid, Wait(ds[0]));
      assert evs[1..][0] == Event(pid, Tick(w));
      assert evs[1..][1..] == RenewalSchedule(pid, w, ds[1..]);
      assert Run(sys, evs) == Run(ticked, RenewalSchedule(pid, w, ds[1..]));
      assert ticked.store[w.key] == Entry(w.token, w.expire);
      WatchdogKeepsLease(ticked, pid, w, ds[1..]);
    }
  }

  /** The event unlocks `key` with its current owner's token, or deletes it. */
  predicate Drops(sys: System, ev: Event, key: string) {
    && ev.pid < |sys.procs|
    && key in sys.store
    && match ev.op
       case Unlock(k, v) => k == key && sys.store[key].value == v
       case Del(k) => k == key
       case _ => false
  }

  /** No event of the run unlocks or deletes `key` while it is held; leases may still lapse. */
  predicate Undisturbed(sys: System, evs: seq<Event>, key: string)
    decreases |evs|
  {
    evs == [] || (!Drops(sys, evs[0], key) && Undisturbed(Step(sys, evs[0]), evs[1..], key))
  }

  /** Seconds left on the lease of loop `w` of process `pid` after event `ev`, at most. */
  function NextSlack(ev: Event, pid: nat, w: Watchdog, slack: int): int {
    match ev.op
    case Wait(d) => slack - d
    case Tick(v) => if v == w && ev.pid == pid then w.expire else slack
    case _ => slack
  }

  /**
   Loop `w` of process `pid` wakes in time throughout the run: starting with `slack`
   seconds left, no wait reaches the time left, and each wake-up of the loop tops the
   time left back up to `w.expire`.
   */
  predicate Timely(evs: seq<Event>, pid: nat, w: Watchdog, slack: int)
    decreases |evs|
  {
    evs == [] ||
    ((evs[0].op.Wait? ==> evs[0].op.seconds < slack) && Timely(evs[1..], pid, w, NextSlack(evs[0], pid, w, slack)))
  }

  /** `w` is a live loop of process `pid`, and no live loop anywhere else renews `w.key` under `w.token`. */
  ghost predicate SoleRenewer(sys: System, pid: nat, w: Watchdog) {
    && pid < |sys.procs|
    && Valid(sys.procs[pid])
    && w in sys.procs[pid].running
    && forall q, v :: 0 <= q < |sys.procs| && v in sys.procs[q].running && v.key == w.key && v.token == w.token
         ==> q == pid && v == w
  }

  /** One event of a timely run keeps the sole renewer live and the lease with its owner. */
  lemma RenewalStep(sys: System, ev: Event, pid: nat, w: Watchdog, slack: int)
    requires SoleRenewer(sys, pid, w)
    requires Holds(sys.store, w.key, w.token) && sys.store[w.key].ttl >= slack
    requires !Drops(sys, ev, w.key)
    requires ev.op.Wait? ==> ev.op.seconds < slack
    ensures !Releases(sys, ev, w.key)
    ensures var n := Step(sys, ev);
            && SoleRenewer(n, pid, w)
            && Holds(n.store, w.key, w.token)
            && n.store[w.key].ttl >= NextSlack(ev, pid, w, slack)
  {
  }

  /**
   Lease renewal in any run: while no one unlocks or deletes the key, and its loop
   `w` is the only live renewer of the key and token and wakes before the time left
   runs out, the lease never lapses and its owner still reads as `w.token`, whatever
   other processes, keys and loops do in between.
   */
  lemma {:induction false} WatchdogKeepsLeaseInAnyRun(sys: System, evs: seq<Event>, pid: nat, w: Watchdog, slack: int)
    requires SoleRenewer(sys, pid, w)
    requires Holds(sys.store, w.key, w.token) && sys.store[w.key].ttl >= slack
    requires Undisturbed(sys, evs, w.key)
    requires Timely(evs, pid, w, slack)
    ensures Quiet(sys, evs, w.key)
    ensures GetLockValue(Run(sys, evs).store, w.key) == w.token
    decreases |evs|
  {
    if evs != [] {
      RenewalStep(sys, evs[0], pid, w, slack);
      WatchdogKeepsLeaseInAnyRun(Step(sys, evs[0]), evs[1..], pid, w, NextSlack(evs[0], pid, w, slack));
    }
  }

  /**
   Ownership is the token alone. Two processes on one host can build the same token
   (same address, same goroutine id); then the second releases the first one's lease,
   while the first still lists the key and its loop keeps running.
   */
  lemma SharedTokenReleasesOthersLease(sys: System, key: string, expire: int, token: string)
    requires |sys.procs| >= 2 && key !in sys.store && key !in sys.procs[1].closers
    ensures var locked := Step(sys, Event(0, Lock(key, expire, token)));
            var released := Step(locked, Event(1, Unlock(key, token)));
            && Acquires(sys, Event(0, Lock(key, expire, token)), key)
            && Releases(locked, Event(1, Unlock(key, token)), key)
            && GetLockValue(released.store, key) == ""
            && key in ScanLocks(released.procs[0])
            && released.procs[0].closers[key] in released.procs[0].running
  {
  }

  /** A cancelled loop's wake-up changes nothing, even if the key is owned again by its token. */
  lemma CancelledWatchdogIsInert(sys: System, pid: nat, w: Watchdog)
    requires pid < |sys.procs| && w !in sys.procs[pid].running
    ensures Step(sys, Event(pid, Tick(w))) == sys
  {
  }
}
