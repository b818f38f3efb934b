/**
 The shared lock backend (a Redis instance) reduced to the atomic operations the
 locker issues: SET NX with an expiry, GET, DEL, and the two Lua scripts that
 compare the stored value before deleting or re-expiring a key. Time is explicit:
 `Elapse` is the passage of `d` seconds, after which keys whose TTL ran out are gone.
 */
module Backend {

  /** A stored lease: the owner token and its remaining time to live, in seconds. */
  datatype Entry = Entry(value: string, ttl: int)

  type Store = map<string, Entry>

  /** The store holds `key` and its owner is `value`. */
  predicate Holds(s: Store, key: string, value: string) {
    key in s && s[key].value == value
  }

  /** SET key value EX ttl NX: writes only when the key is absent. */
  function SetIfAbsent(s: Store, key: string, value: string, ttl: int): (r: (Store, bool))
    ensures r.1 <==> key !in s
    ensures r.1 ==> key in r.0 && r.0[key] == Entry(value, ttl)
    ensures r.1 ==> r.0 - {key} == s
    ensures !r.1 ==> r.0 == s
  {
    if key in s then (s, false) else
      var s' := s[key := Entry(value, ttl)];
      assert s' - {key} == s;
      (s', true)
  }

  /** GET key; the client's `Val()` is the empty string when the key is absent. */
  function Get(s: Store, key: string): (r: string)
    ensures key !in s ==> r == ""
    ensures key in s ==> Holds(s, key, r)
  {
    if key in s then s[key].value else ""
  }

  /** DEL key: reports whether a key was removed. */
  function Delete(s: Store, key: string): (r: (Store, bool))
    ensures r.1 <==> key in s
    ensures key !in r.0 && r.0.Keys == s.Keys - {key}
    ensures forall k :: k in r.0 ==> r.0[k] == s[k]
  {
    (s - {key}, key in s)
  }

  /** The unlock script: delete the key only if it still holds `expected`. */
  function CompareDelete(s: Store, key: string, expected: string): (r: (Store, bool))
    ensures r.1 <==> Holds(s, key, expected)
    ensures r.1 ==> key !in r.0 && r.0.Keys == s.Keys - {key}
    ensures forall k :: k in r.0 ==> k in s && r.0[k] == s[k]
    ensures !r.1 ==> r.0 == s
  {
    if Holds(s, key, expected) then (s - {key}, true) else (s, false)
  }

  /** The renewal script: reset the key's TTL only if it still holds `expected`. */
  function CompareExtend(s: Store, key: string, expected: string, ttl: int): (r: (Store, bool))
    ensures r.1 <==> Holds(s, key, expected)
    ensures r.0.Keys == s.Keys
    ensures r.1 ==> r.0[key] == Entry(expected, ttl)
    ensures forall k :: k in s && (k != key || !r.1) ==> r.0[k] == s[k]
  {
    if Holds(s, key, expected) then (s[key := Entry(expected, ttl)], true) else (s, false)
  }

  /** `d` seconds pass: keys whose TTL runs out disappear, the others count down. */
  function Elapse(s: Store, d: nat): (r: Store)
    ensures forall k :: k in r <==> k in s && s[k].ttl > d
    ensures forall k :: k in r ==> r[k] == Entry(s[k].value, s[k].ttl - d)
  {
    map k | k in s && s[k].ttl > d :: Entry(s[k].value, s[k].ttl - d)
  }
}
