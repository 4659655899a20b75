/**
 The timed cache of internal/service/cache_store.go as a value. An operation is a function of the
 cache, the clock and its arguments; the one place where Go's map iteration order shows, which entry
 an overflowing insertion evicts, is an extra argument constrained by MayEvict.
 */
module CacheSpec {
  import opened Base

  datatype Entry<T> = Entry(value: T, expiresAt: Option<int>)

  datatype Cache<T> = Cache(entries: map<string, Entry<T>>, order: seq<string>, maxSize: int)

  function Empty<T>(maxSize: int): Cache<T> {
    Cache(map[], [], maxSize)
  }

  predicate Expired<T>(e: Entry<T>, now: int) {
    e.expiresAt.Some? && now > e.expiresAt.value
  }

  // ----- The insertion order -----

  ghost predicate NoDuplicates(s: seq<string>) {
    forall i, j :: 0 <= i < j < |s| ==> s[i] != s[j]
  }

  // The elements of s that belong to keys, in the order of s.
  function Restrict(s: seq<string>, keys: set<string>): (r: seq<string>)
    ensures forall k :: k in r <==> k in s && k in keys
  {
    if s == [] then []
    else (if s[0] in keys then [s[0]] else []) + Restrict(s[1..], keys)
  }

  function Without(s: seq<string>, key: string): (r: seq<string>)
    ensures forall k :: k in r <==> k in s && k != key
  {
    if s == [] then []
    else (if s[0] != key then [s[0]] else []) + Without(s[1..], key)
  }

  // slices.Index
  function IndexOf(s: seq<string>, key: string): (i: int)
    ensures -1 <= i < |s|
    ensures i == -1 <==> key !in s
    ensures i >= 0 ==> s[i] == key && key !in s[..i]
  {
    if s == [] then -1
    else if s[0] == key then 0
    else
      var rest := IndexOf(s[1..], key);
      assert rest >= 0 ==> s[..rest + 1] == [s[0]] + s[1..][..rest];
      if rest == -1 then -1 else rest + 1
  }

  lemma {:induction false} WithoutIsRestrict(s: seq<string>, keys: set<string>, key: string)
    ensures Without(Restrict(s, keys), key) == Restrict(s, keys - {key})
  {
    if s != [] {
      WithoutIsRestrict(s[1..], keys, key);
      var rest := Restrict(s[1..], keys);
      assert [] + rest == rest;
      assert ([s[0]] + rest)[1..] == rest;
      assert [] + Restrict(s[1..], keys - {key}) == Restrict(s[1..], keys - {key});
    }
  }

  lemma {:induction false} RestrictAll(s: seq<string>, keys: set<string>)
    requires forall k :: k in s ==> k in keys
    ensures Restrict(s, keys) == s
  {
    if s != [] {
      assert s == [s[0]] + s[1..];
      RestrictAll(s[1..], keys);
    }
  }

  lemma {:induction false} RestrictKeepsNoDuplicates(s: seq<string>, keys: set<string>)
    requires NoDuplicates(s)
    ensures NoDuplicates(Restrict(s, keys))
  {
    if s != [] {
      RestrictKeepsNoDuplicates(s[1..], keys);
      assert s[0] !in s[1..];
    }
  }

  lemma {:induction false} WithoutAbsent(s: seq<string>, key: string)
    requires key !in s
    ensures Without(s, key) == s
  {
    if s != [] {
      assert s == [s[0]] + s[1..];
      WithoutAbsent(s[1..], key);
    }
  }

  lemma {:induction false} WithoutBetween(before: seq<string>, key: string, after: seq<string>)
    requires key !in before && key !in after
    ensures Without(before + [key] + after, key) == before + after
  {
    var s := before + [key] + after;
    if before == [] {
      assert s[1..] == after;
      WithoutAbsent(after, key);
    } else {
      assert s[1..] == before[1..] + [key] + after;
      WithoutBetween(before[1..], key, after);
      assert before + after == [before[0]] + (before[1..] + after);
    }
  }

  // Deleting the first occurrence is deleting the key, because order lists no key twice.
  lemma WithoutByIndex(s: seq<string>, key: string)
    requires NoDuplicates(s)
    ensures var i := IndexOf(s, key);
            Without(s, key) == if i == -1 then s else s[..i] + s[i + 1..]
  {
    var i := IndexOf(s, key);
    if i == -1 {
      WithoutAbsent(s, key);
    } else {
      assert s == s[..i] + [key] + s[i + 1..];
      WithoutBetween(s[..i], key, s[i + 1..]);
    }
  }

  lemma {:induction false} WithoutKeepsNoDuplicates(s: seq<string>, key: string)
    requires NoDuplicates(s)
    ensures NoDuplicates(Without(s, key))
  {
    if s != [] {
      WithoutKeepsNoDuplicates(s[1..], key);
      assert s[0] !in s[1..];
    }
  }

  // ----- Operations -----

  // order lists exactly the stored keys, once each, and a positive bound is respected.
  ghost predicate Valid<T>(c: Cache<T>) {
    && NoDuplicates(c.order)
    && (forall k :: k in c.order <==> k in c.entries)
    && (c.maxSize > 0 ==> |c.entries| <= c.maxSize)
  }

  function Get<T>(c: Cache<T>, now: int, key: string): Option<T> {
    if key !in c.entries || Expired(c.entries[key], now) then None else Some(c.entries[key].value)
  }

  function Delete<T>(c: Cache<T>, key: string): Cache<T> {
    c.(entries := c.entries - {key}, order := Without(c.order, key))
  }

  function Deadline(now: int, ttl: int): Option<int> {
    if ttl > 0 then Some(now + ttl) else None
  }

  function Put<T>(c: Cache<T>, key: string, e: Entry<T>): Cache<T> {
    c.(entries := c.entries[key := e], order := if key in c.order then c.order else c.order + [key])
  }

  predicate Overflows<T>(c: Cache<T>, key: string) {
    c.maxSize > 0 && key !in c.entries && |c.entries| >= c.maxSize
  }

  ghost predicate SomeExpired<T>(c: Cache<T>, now: int) {
    exists k :: k in c.entries && Expired(c.entries[k], now)
  }

  ghost predicate SomeTimed<T>(c: Cache<T>) {
    exists k :: k in c.entries && c.entries[k].expiresAt.Some?
  }

  // No stored deadline is earlier than the one of k.
  ghost predicate Soonest<T>(c: Cache<T>, k: string) {
    && k in c.entries && c.entries[k].expiresAt.Some?
    && forall x :: x in c.entries && c.entries[x].expiresAt.Some? ==>
         c.entries[k].expiresAt.value <= c.entries[x].expiresAt.value
  }

  // What evictOne may remove: an expired entry if there is one; otherwise an entry that expires
  // soonest; otherwise the earliest inserted one. The empty key doubles as "no key found", so a
  // soonest entry stored under it is passed over for the earliest inserted one.
  ghost predicate Victim<T>(c: Cache<T>, now: int, k: string) {
    k in c.entries &&
    if SomeExpired(c, now) then
      Expired(c.entries[k], now)
    else
      || (k != "" && Soonest(c, k))
      || (c.order != [] && k == c.order[0] && (!SomeTimed(c) || Soonest(c, "")))
  }

  ghost predicate MayEvict<T>(c: Cache<T>, now: int, key: string, evicted: Option<string>) {
    if Overflows(c, key) then evicted.Some? && Victim(c, now, evicted.value) else evicted.None?
  }

  function Set<T>(c: Cache<T>, now: int, key: string, value: T, ttl: int, evicted: Option<string>): Cache<T> {
    Put(if evicted.Some? then Delete(c, evicted.value) else c, key, Entry(value, Deadline(now, ttl)))
  }

  // Nothing but the new entry comes into the cache.
  lemma SetOrigin<T>(c: Cache<T>, now: int, key: string, value: T, ttl: int, evicted: Option<string>, k: string)
    requires k in Set(c, now, key, value, ttl, evicted).entries
    ensures var e := Set(c, now, key, value, ttl, evicted).entries[k];
            if k == key then e == Entry(value, Deadline(now, ttl)) else k in c.entries && e == c.entries[k]
  {
  }

  function Update<T>(c: Cache<T>, now: int, key: string, value: T, ttl: int): (Cache<T>, bool) {
    if key !in c.entries || Expired(c.entries[key], now) then (c, false)
    else
      var deadline := if ttl > 0 then Deadline(now, ttl) else c.entries[key].expiresAt;
      (c.(entries := c.entries[key := Entry(value, deadline)]), true)
  }

  // The stored entries that Get can still return.
  function Live<T>(entries: map<string, Entry<T>>, now: int): map<string, Entry<T>> {
    map k | k in entries && !Expired(entries[k], now) :: entries[k]
  }

  function Sweep<T>(c: Cache<T>, now: int): Cache<T> {
    var live := Live(c.entries, now);
    c.(entries := live, order := Restrict(c.order, live.Keys))
  }

  // c without the removed keys, the others in their places.
  function Drop<T>(c: Cache<T>, removed: set<string>): Cache<T> {
    c.(entries := c.entries - removed, order := Restrict(c.order, c.entries.Keys - removed))
  }

  lemma DropNothing<T>(c: Cache<T>)
    requires Valid(c)
    ensures Drop(c, {}) == c
  {
    assert c.entries - {} == c.entries;
    RestrictAll(c.order, c.entries.Keys - {});
  }

  lemma DropOneMore<T>(c: Cache<T>, removed: set<string>, key: string)
    ensures Delete(Drop(c, removed), key) == Drop(c, removed + {key})
  {
    WithoutIsRestrict(c.order, c.entries.Keys - removed, key);
    assert c.entries.Keys - removed - {key} == c.entries.Keys - (removed + {key});
    assert c.entries - removed - {key} == c.entries - (removed + {key});
  }

  lemma DropExpired<T>(c: Cache<T>, now: int, removed: set<string>)
    requires forall k :: k in c.entries ==> (k in removed <==> Expired(c.entries[k], now))
    ensures Drop(c, removed) == Sweep(c, now)
  {
    assert c.entries - removed == Live(c.entries, now);
    assert c.entries.Keys - removed == Live(c.entries, now).Keys;
  }

  // ----- Every operation keeps the cache well formed -----

  lemma DeleteValid<T>(c: Cache<T>, key: string)
    requires Valid(c)
    ensures Valid(Delete(c, key))
    ensures key in c.entries ==> |Delete(c, key).entries| == |c.entries| - 1
  {
    WithoutKeepsNoDuplicates(c.order, key);
    assert (c.entries - {key}).Keys == c.entries.Keys - {key};
    SubsetSize(c.entries.Keys - {key}, c.entries.Keys);
  }

  lemma PutValid<T>(c: Cache<T>, key: string, e: Entry<T>)
    requires Valid(c)
    requires key in c.entries || c.maxSize <= 0 || |c.entries| < c.maxSize
    ensures Valid(Put(c, key, e))
  {
    var c' := Put(c, key, e);
    if key in c.entries {
      assert c'.entries.Keys == c.entries.Keys;
    } else {
      assert c'.entries.Keys == c.entries.Keys + {key};
    }
  }

  // An insertion stays within the bound, evicts at most the chosen entry, and touches nothing else.
  lemma SetValid<T>(c: Cache<T>, now: int, key: string, value: T, ttl: int, evicted: Option<string>)
    requires Valid(c) && MayEvict(c, now, key, evicted)
    ensures var c' := Set(c, now, key, value, ttl, evicted);
            && Valid(c')
            && key in c'.entries && c'.entries[key] == Entry(value, Deadline(now, ttl))
            && (forall k :: k in c.entries && k != key && evicted != Some(k) ==>
                 k in c'.entries && c'.entries[k] == c.entries[k])
            && (forall k :: k in c'.entries && k != key ==> k in c.entries && evicted != Some(k))
  {
    if evicted.Some? {
      DeleteValid(c, evicted.value);
      PutValid(Delete(c, evicted.value), key, Entry(value, Deadline(now, ttl)));
    } else {
      PutValid(c, key, Entry(value, Deadline(now, ttl)));
    }
  }

  lemma UpdateValid<T>(c: Cache<T>, now: int, key: string, value: T, ttl: int)
    requires Valid(c)
    ensures Valid(Update(c, now, key, value, ttl).0)
  {
    assert Update(c, now, key, value, ttl).0.entries.Keys == c.entries.Keys;
  }

  lemma SweepValid<T>(c: Cache<T>, now: int)
    requires Valid(c)
    ensures Valid(Sweep(c, now))
  {
    var live := Live(c.entries, now);
    RestrictKeepsNoDuplicates(c.order, live.Keys);
    SubsetSize(live.Keys, c.entries.Keys);
  }

  lemma {:induction false} SetOfSize(s: seq<string>)
    requires NoDuplicates(s)
    ensures |set k | k in s| == |s|
  {
    if s != [] {
      SetOfSize(s[1..]);
      assert (set k | k in s) == {s[0]} + set k | k in s[1..];
      assert s[0] !in s[1..];
    }
  }

  lemma OrderSize<T>(c: Cache<T>)
    requires Valid(c)
    ensures |c.order| == |c.entries|
  {
    SetOfSize(c.order);
    assert (set k | k in c.order) == c.entries.Keys;
  }

  // ----- What eviction promises -----

  ghost predicate Untimed<T>(c: Cache<T>) {
    forall k :: k in c.entries ==> c.entries[k].expiresAt.None?
  }

  function Head<T>(c: Cache<T>, key: string): Option<string> {
    if Overflows(c, key) && c.order != [] then Some(c.order[0]) else None
  }

  // When no entry has a lifetime, the earliest inserted one goes.
  lemma EvictsEarliest<T>(c: Cache<T>, now: int, key: string, evicted: Option<string>)
    requires Valid(c) && Untimed(c)
    ensures MayEvict(c, now, key, evicted) <==> evicted == Head(c, key)
  {
    if Overflows(c, key) {
      assert c.order == [] ==> c.entries.Keys == {};
      assert c.order[0] in c.entries;
      assert !SomeExpired(c, now) && !SomeTimed(c);
    }
  }

  // With no expired entry in a full cache that uses lifetimes, whatever is evicted expires soonest,
  // for every order of iteration, exactly when the empty key is not a soonest one or the head of
  // the insertion order is.
  lemma EvictsSoonestIff<T>(c: Cache<T>, now: int)
    requires Valid(c) && !SomeExpired(c, now) && SomeTimed(c)
    ensures (forall k :: Victim(c, now, k) ==> Soonest(c, k)) <==> (Soonest(c, "") ==> Soonest(c, c.order[0]))
    ensures Victim(c, now, "") ==> c.order[0] == ""
  {
    assert c.order == [] ==> c.entries.Keys == {};
    var first := c.order[0];
    assert first in c.entries;
    if Soonest(c, "") {
      assert Victim(c, now, first);
    }
  }
}
