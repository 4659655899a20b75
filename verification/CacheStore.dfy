/** internal/service/cache_store.go: a map and an insertion-order list updated in place. */
module CacheStores {
  import opened Base
  import opened CacheSpec

  class CacheStore<T> {
    var cache: map<string, Entry<T>>
    var order: seq<string>
    const maxSize: int

    ghost function State(): (c: Cache<T>)
      reads this
    {
      Cache(cache, order, maxSize)
    }

    ghost predicate Valid()
      reads this
    {
      CacheSpec.Valid(State())
    }

    constructor (maxSize: int)
      ensures Valid() && State() == Empty(maxSize)
    {
      this.maxSize := maxSize;
      cache, order := map[], [];
    }

    method Get(now: int, key: string) returns (value: Option<T>)
      ensures value == CacheSpec.Get(State(), now, key)
    {
      if key !in cache {
        return None;
      }
      var entry := cache[key];
      if entry.expiresAt.Some? && now > entry.expiresAt.value {
        return None;
      }
      return Some(entry.value);
    }

    method Update(now: int, key: string, value: T, ttl: int) returns (updated: bool)
      requires Valid()
      modifies this
      ensures Valid()
      ensures (State(), updated) == CacheSpec.Update(old(State()), now, key, value, ttl)
    {
      UpdateValid(State(), now, key, value, ttl);
      if key in cache {
        var current := cache[key];
        if current.expiresAt.Some? && now > current.expiresAt.value {
          return false;
        }
        var entry := Entry(value, current.expiresAt);
        if ttl > 0 {
          entry := entry.(expiresAt := Some(now + ttl));
        }
        cache := cache[key := entry];
        return true;
      }
      return false;
    }

    // evicted names the entry that made room, if one had to go.
    method Set(now: int, key: string, value: T, ttl: int) returns (ghost evicted: Option<string>)
      requires Valid()
      modifies this
      ensures Valid()
      ensures MayEvict(old(State()), now, key, evicted)
      ensures State() == CacheSpec.Set(old(State()), now, key, value, ttl, evicted)
    {
      evicted := None;
      if maxSize > 0 {
        if key !in cache && |cache| >= maxSize {
          var _, victim := EvictOne(now);
          evicted := victim;
        }
      }
      SetValid(old(State()), now, key, value, ttl, evicted);
      var expiresAt: Option<int> := None;
      if ttl > 0 {
        expiresAt := Some(now + ttl);
      }
      cache := cache[key := Entry(value, expiresAt)];
      if key !in order {
        order := order + [key];
      }
    }

    method Delete(key: string)
      requires Valid()
      modifies this
      ensures Valid()
      ensures State() == CacheSpec.Delete(old(State()), key)
    {
      DeleteValid(State(), key);
      assert NoDuplicates(order);
      WithoutByIndex(order, key);
      cache := cache - {key};
      var keyIdx := IndexOf(order, key);
      if keyIdx != -1 {
        order := order[..keyIdx] + order[keyIdx + 1..];
      }
    }

    // The keys are visited in any order; the result does not depend on it.
    method Sweep(now: int)
      requires Valid()
      modifies this
      ensures Valid()
      ensures State() == CacheSpec.Sweep(old(State()), now)
    {
      ghost var removed: set<string> := {};
      var unvisited := cache.Keys;
      DropNothing(State());
      while unvisited != {}
        invariant Valid()
        invariant removed <= old(cache).Keys && unvisited <= cache.Keys
        invariant State() == Drop(old(State()), removed)
        invariant forall k :: k in removed ==> Expired(old(cache)[k], now)
        invariant forall k :: k in cache && k !in unvisited ==> !Expired(cache[k], now)
      {
        var key :| key in unvisited;
        unvisited := unvisited - {key};
        var entry := cache[key];
        if entry.expiresAt.Some? && now > entry.expiresAt.value {
          DropOneMore(old(State()), removed, key);
          Delete(key);
          removed := removed + {key};
        }
      }
      DropExpired(old(State()), now, removed);
    }

    method EvictOne(now: int) returns (removed: bool, ghost evicted: Option<string>)
      requires Valid()
      modifies this
      ensures Valid()
      ensures removed <==> old(cache) != map[]
      ensures removed ==>
                && evicted.Some? && Victim(old(State()), now, evicted.value)
                && State() == CacheSpec.Delete(old(State()), evicted.value)
      ensures !removed ==> evicted.None? && State() == old(State())
    {
      var oldestKey: string := "";
      var oldestExp: Option<int> := None;
      var unvisited := cache.Keys;
      while unvisited != {}
        invariant unvisited <= cache.Keys
        invariant State() == old(State())
        invariant forall k :: k in cache && k !in unvisited ==> !Expired(cache[k], now)
        invariant oldestExp.None? ==>
                    oldestKey == "" && forall k :: k in cache && k !in unvisited ==> cache[k].expiresAt.None?
        invariant oldestExp.Some? ==>
                    && oldestKey in cache && cache[oldestKey].expiresAt == oldestExp
                    && forall k :: k in cache && k !in unvisited && cache[k].expiresAt.Some? ==>
                         oldestExp.value <= cache[k].expiresAt.value
      {
        var k :| k in unvisited;
        unvisited := unvisited - {k};
        var e := cache[k];
        if e.expiresAt.Some? && now > e.expiresAt.value {
          assert Expired(cache[k], now);
          Delete(k);
          return true, Some(k);
        }
        if e.expiresAt.Some? && (oldestExp.None? || e.expiresAt.value < oldestExp.value) {
          oldestKey, oldestExp := k, e.expiresAt;
        }
      }
      assert !SomeExpired(State(), now);
      if oldestKey != "" {
        assert Soonest(State(), oldestKey);
        Delete(oldestKey);
        return true, Some(oldestKey);
      }
      assert order == [] ==> cache.Keys == {};
      if |order| > 0 {
        var first := order[0];
        assert first in cache;
        assert !SomeTimed(State()) || Soonest(State(), "");
        Delete(first);
        return true, Some(first);
      }
      return false, None;
    }

    method Size() returns (n: int)
      ensures n == |State().entries|
    {
      return |cache|;
    }

    method Clear()
      modifies this
      ensures Valid() && State() == Empty(maxSize)
    {
      cache, order := map[], [];
    }
  }
}
