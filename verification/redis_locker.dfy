/**
 The Redis-backed task locker. Its process-local part is the `closers` registry:
 each successful `LockTask` starts a renewal loop ("watchdog") and files that
 loop's cancellation channel under the key. A loop is identified here by a
 unique id, which plays the role of the channel's identity; `running` holds the
 loops whose channel has not been closed.

 The five functions `LockTask`, `UnLockTask`, `GetLockValue`, `DelLock` and
 `ScanLocks` are the operations of the scheduler's `TaskLocker` interface; the
 scheduler calls only these.
 */
module RedisLocker {
  import opened Backend

  /** Connection settings: an existing client, or a DSN to dial. */
  datatype LockerConfig = LockerConfig(hasClient: bool, dsn: string) {
    /** Neither a client nor a DSN was given: only the zero configuration is empty. */
    predicate IsEmpty(): (r: bool)
      ensures r <==> this == LockerConfig(false, "")
    {
      !hasClient && dsn == ""
    }
  }

  /** One renewal loop, started for `key` on behalf of the owner `token`. */
  datatype Watchdog = Watchdog(id: nat, key: string, token: string, expire: int)

  /** The locker's local state: the `closers` map, the live loops, the next fresh loop id. */
  datatype Registry = Registry(closers: map<string, Watchdog>, running: set<Watchdog>, nextId: nat)

  /** What `LockTask` leaves behind and returns. */
  datatype LockReply = LockReply(store: Store, reg: Registry, value: string, ok: bool)

  /** What `UnLockTask` and `DelLock` leave behind and return. */
  datatype Reply = Reply(store: Store, reg: Registry, ok: bool)

  function NewRegistry(): (r: Registry)
    ensures Valid(r) && r.closers == map[] && r.running == {}
  {
    Registry(map[], {}, 0)
  }

  /** Every registered channel belongs to a live loop for that key, and ids are fresh. */
  ghost predicate Valid(reg: Registry) {
    && (forall k :: k in reg.closers ==> reg.closers[k].key == k && reg.closers[k] in reg.running)
    && (forall w :: w in reg.running ==> w.id < reg.nextId)
  }

  /**
   Set-if-absent of the caller's owner token, then register a new renewal loop.
   The token stands for the host address and goroutine id the source builds.
   */
  function LockTask(store: Store, reg: Registry, key: string, expire: int, token: string): (r: LockReply)
    ensures r.ok <==> key !in store
    ensures r.ok ==> r.value == token && key in r.store && r.store[key] == Entry(token, expire)
    ensures r.ok ==> r.store - {key} == store
    ensures r.ok ==> key in r.reg.closers && r.reg.closers[key] in r.reg.running
    ensures r.ok ==> r.reg.closers[key] == Watchdog(reg.nextId, key, token, expire)
    ensures r.ok ==> r.reg.running == reg.running + {r.reg.closers[key]}
    ensures r.ok ==> r.reg.closers - {key} == reg.closers - {key}
    ensures !r.ok ==> r.value == "" && r.store == store && r.reg == reg
    ensures Valid(reg) ==> Valid(r.reg)
  {
    var put := SetIfAbsent(store, key, token, expire);
    if !put.1 then LockReply(store, reg, "", false)
    else
      var w := Watchdog(reg.nextId, key, token, expire);
      LockReply(put.0, Registry(reg.closers[key := w], reg.running + {w}, reg.nextId + 1), token, true)
  }

  /** Close the channel registered under `key`, if any; reports whether there was one. */
  function CloseWatchDog(reg: Registry, key: string): (r: (Registry, bool))
    ensures r.1 <==> key in reg.closers
    ensures r.1 ==> r.0.running == reg.running - {reg.closers[key]}
    ensures r.0.closers == reg.closers && r.0.nextId == reg.nextId
    ensures !r.1 ==> r.0 == reg
  {
    if key in reg.closers then (reg.(running := reg.running - {reg.closers[key]}), true)
    else (reg, false)
  }

  /** Stop the key's loop and, when one was registered, drop the key from `closers`. */
  function Forget(reg: Registry, key: string): (r: Registry)
    ensures key !in r.closers && r.closers == reg.closers - {key}
    ensures key in reg.closers ==> r.running == reg.running - {reg.closers[key]}
    ensures key !in reg.closers ==> r == reg
    ensures Valid(reg) ==> Valid(r)
  {
    var c := CloseWatchDog(reg, key);
    if c.1 then c.0.(closers := c.0.closers - {key}) else c.0
  }

  /** Owner-checked release: delete only if the key still holds `value`. */
  function UnLockTask(store: Store, reg: Registry, key: string, value: string): (r: Reply)
    ensures r.ok <==> Holds(store, key, value)
    ensures r.ok ==> key !in r.store && r.store == store - {key}
    ensures r.ok ==> r.reg == Forget(reg, key) && key !in ScanLocks(r.reg)
    ensures !r.ok ==> r.store == store && r.reg == reg
    ensures Valid(reg) ==> Valid(r.reg)
  {
    var del := CompareDelete(store, key, value);
    if !del.1 then Reply(store, reg, false)
    else Reply(del.0, Forget(reg, key), true)
  }

  /** The raw stored owner, or "" when absent. */
  function GetLockValue(store: Store, key: string): (r: string)
    ensures key in store ==> r == store[key].value
    ensures key !in store ==> r == ""
  {
    Get(store, key)
  }

  /** Forced delete, whoever owns the key. */
  function DelLock(store: Store, reg: Registry, key: string): (r: Reply)
    ensures r.ok <==> key in store
    ensures r.store == store - {key}
    ensures r.ok ==> r.reg == Forget(reg, key) && key !in ScanLocks(r.reg)
    ensures !r.ok ==> r.reg == reg
    ensures Valid(reg) ==> Valid(r.reg)
  {
    var del := Delete(store, key);
    if !del.1 then Reply(store, reg, false)
    else Reply(del.0, Forget(reg, key), true)
  }

  /** The keys of this process's registry; the backend is not consulted. */
  function ScanLocks(reg: Registry): (r: set<string>)
  {
    reg.closers.Keys
  }

  /**
   One wake-up of loop `w`: a cancelled loop does nothing; a live one resets the
   TTL to `w.expire` only while the key still holds `w.token`.
   */
  function WatchdogTick(store: Store, reg: Registry, w: Watchdog): (r: Store)
    ensures w !in reg.running ==> r == store
    ensures r.Keys == store.Keys
    ensures forall k :: k in store && !(k == w.key && store[k].value == w.token) ==> r[k] == store[k]
    ensures w in reg.running && Holds(store, w.key, w.token) ==> r[w.key] == Entry(w.token, w.expire)
  {
    if w !in reg.running then store
    else CompareExtend(store, w.key, w.token, w.expire).0
  }

  /** A successful `UnLockTask` frees the key, so a following `LockTask` on it succeeds. */
  lemma UnlockThenRelock(store: Store, reg: Registry, key: string, expire: int, t1: string, t2: string)
    requires key !in store
    ensures var l := LockTask(store, reg, key, expire, t1);
            var u := UnLockTask(l.store, l.reg, key, l.value);
            u.ok && key !in u.store && key !in ScanLocks(u.reg)
            && LockTask(u.store, u.reg, key, expire, t2).ok
  {
  }

  /**
   The token `LockTask` hands back is what `GetLockValue` then reads, so the owner
   recognises its own lease; another caller's read sees the same owner and its own
   lock attempt fails; after the release the key reads as "".
   */
  lemma LockValueNamesOwner(store: Store, reg: Registry, other: Registry, key: string, expire: int, token: string, t2: string)
    requires key !in store
    ensures var l := LockTask(store, reg, key, expire, token);
            && GetLockValue(l.store, key) == l.value == token
            && !LockTask(l.store, other, key, expire, t2).ok
            && GetLockValue(UnLockTask(l.store, l.reg, key, l.value).store, key) == ""
  {
  }

  /** Release with someone else's token fails and leaves everything as it was. */
  lemma ForeignTokenCannotRelease(store: Store, reg: Registry, key: string, mine: string, theirs: string)
    requires Holds(store, key, theirs) && mine != theirs
    ensures UnLockTask(store, reg, key, mine) == Reply(store, reg, false)
  {
  }

  /**
   Re-acquiring a key still listed in `closers` (its lease lapsed in the backend)
   overwrites the channel: the old loop keeps running but can no longer be closed.
   */
  lemma RelockLeaksOldWatchdog(store: Store, reg: Registry, key: string, expire: int, token: string)
    requires Valid(reg) && key in reg.closers && key !in store
    ensures var l := LockTask(store, reg, key, expire, token);
            l.ok && reg.closers[key] in l.reg.running
            && reg.closers[key] !in l.reg.closers.Values
  {
  }
}
