/**
 Used with positive lifetimes and non-empty keys, the cache behaves as a timed map that holds live
 entries only and counts its capacity on them. Expired entries, sweeping and the insertion order
 cannot be observed.
 */
module CacheRefinement {
  import opened Base
  import C = CacheSpec

  // ----- The timed map -----

  datatype Slot<T> = Slot(value: T, deadline: int)

  type TimedMap<T> = map<string, Slot<T>>

  function Expire<T>(m: TimedMap<T>, now: int): TimedMap<T> {
    map k | k in m && now <= m[k].deadline :: m[k]
  }

  // A full map gives up one of its soonest-expiring slots to a new key.
  ghost predicate MayForget<T>(m: TimedMap<T>, capacity: int, key: string, forgotten: Option<string>) {
    if capacity > 0 && key !in m && |m| >= capacity then
      && forgotten.Some? && forgotten.value in m
      && forall k :: k in m ==> m[forgotten.value].deadline <= m[k].deadline
    else forgotten.None?
  }

  function Add<T>(m: TimedMap<T>, key: string, slot: Slot<T>, forgotten: Option<string>): TimedMap<T> {
    (if forgotten.Some? then m - {forgotten.value} else m)[key := slot]
  }

  // ----- Runs: calls with their times, and the answers of the calls that give one -----

  datatype Op<T> =
    | Insert(key: string, value: T, ttl: int)
    | Lookup(key: string)
    | Replace(key: string, value: T, ttl: int)
    | Remove(key: string)
    | Purge

  datatype Call<T> = Call(time: int, op: Op<T>)

  datatype Answer<T> = Found(value: Option<T>) | Replaced(done: bool)

  // One call on the cache. choice is what an insertion evicts.
  ghost predicate CacheMay<T>(c: C.Cache<T>, call: Call<T>, choice: Option<string>) {
    if call.op.Insert? then C.MayEvict(c, call.time, call.op.key, choice) else choice.None?
  }

  function CacheStep<T>(c: C.Cache<T>, call: Call<T>, choice: Option<string>): (C.Cache<T>, Option<Answer<T>>) {
    match call.op
    case Insert(key, value, ttl) => (C.Set(c, call.time, key, value, ttl, choice), None)
    case Lookup(key) => (c, Some(Found(C.Get(c, call.time, key))))
    case Replace(key, value, ttl) =>
      var (c', done) := C.Update(c, call.time, key, value, ttl);
      (c', Some(Replaced(done)))
    case Remove(key) => (C.Delete(c, key), None)
    case Purge => (C.Sweep(c, call.time), None)
  }

  // One call on the timed map, whose expired slots are gone already. A purge does nothing.
  ghost predicate MapMay<T>(m: TimedMap<T>, capacity: int, call: Call<T>, choice: Option<string>) {
    if call.op.Insert? then MayForget(m, capacity, call.op.key, choice) else choice.None?
  }

  function MapStep<T>(m: TimedMap<T>, call: Call<T>, choice: Option<string>): (TimedMap<T>, Option<Answer<T>>) {
    match call.op
    case Insert(key, value, ttl) => (Add(m, key, Slot(value, call.time + ttl), choice), None)
    case Lookup(key) => (m, Some(Found(if key in m then Some(m[key].value) else None)))
    case Replace(key, value, ttl) => (Replacement(m, call.time, key, value, ttl), Some(Replaced(key in m)))
    case Remove(key) => (m - {key}, None)
    case Purge => (m, None)
  }

  function Replacement<T>(m: TimedMap<T>, now: int, key: string, value: T, ttl: int): TimedMap<T> {
    if key in m then m[key := Slot(value, if ttl > 0 then now + ttl else m[key].deadline)] else m
  }

  // The answers start with the one just given, if any; Rest is what follows it.
  predicate StartsWith<T(==)>(answers: seq<Answer<T>>, given: Option<Answer<T>>) {
    given.Some? ==> answers != [] && answers[0] == given.value
  }

  function Rest<T(==)>(answers: seq<Answer<T>>, given: Option<Answer<T>>): seq<Answer<T>>
    requires StartsWith(answers, given)
  {
    if given.Some? then answers[1..] else answers
  }

  // The cache can give these answers to these calls, for some choice of evictions.
  ghost predicate CacheAnswers<T>(c: C.Cache<T>, calls: seq<Call<T>>, answers: seq<Answer<T>>)
    decreases |calls|
  {
    if calls == [] then answers == []
    else
      exists x ::
        && CacheMay(c, calls[0], x)
        && StartsWith(answers, CacheStep(c, calls[0], x).1)
        && CacheAnswers(CacheStep(c, calls[0], x).0, calls[1..], Rest(answers, CacheStep(c, calls[0], x).1))
  }

  // The timed map can.
  ghost predicate MapAnswers<T>(m: TimedMap<T>, capacity: int, calls: seq<Call<T>>, answers: seq<Answer<T>>)
    decreases |calls|
  {
    if calls == [] then answers == []
    else
      var live := Expire(m, calls[0].time);
      exists x ::
        && MapMay(live, capacity, calls[0], x)
        && StartsWith(answers, MapStep(live, calls[0], x).1)
        && MapAnswers(MapStep(live, calls[0], x).0, capacity, calls[1..], Rest(answers, MapStep(live, calls[0], x).1))
  }

  // The clock never runs backwards, and insertions carry a positive lifetime and a non-empty key.
  predicate Proper<T>(call: Call<T>) {
    call.op.Insert? ==> call.op.ttl > 0 && call.op.key != ""
  }

  ghost predicate Admissible<T>(calls: seq<Call<T>>, start: int)
    decreases |calls|
  {
    calls != [] ==> start <= calls[0].time && Proper(calls[0]) && Admissible(calls[1..], calls[0].time)
  }

  // ----- The refinement -----

  ghost predicate AllTimed<T>(entries: map<string, C.Entry<T>>) {
    "" !in entries && forall k :: k in entries ==> entries[k].expiresAt.Some?
  }

  ghost predicate Timely<T>(c: C.Cache<T>) {
    C.Valid(c) && AllTimed(c.entries)
  }

  // The live entries that have a deadline.
  ghost function View<T>(entries: map<string, C.Entry<T>>, now: int): TimedMap<T> {
    map k | k in entries && entries[k].expiresAt.Some? && now <= entries[k].expiresAt.value ::
      Slot(entries[k].value, entries[k].expiresAt.value)
  }

  lemma ViewSize<T>(c: C.Cache<T>, now: int)
    requires AllTimed(c.entries)
    ensures |View(c.entries, now)| <= |c.entries|
    ensures |View(c.entries, now)| == |c.entries| <==> !C.SomeExpired(c, now)
  {
    SubsetSize(View(c.entries, now).Keys, c.entries.Keys);
    if C.SomeExpired(c, now) {
      var k :| k in c.entries && C.Expired(c.entries[k], now);
      assert k !in View(c.entries, now);
    } else {
      assert View(c.entries, now).Keys == c.entries.Keys;
    }
  }

  lemma ViewAges<T>(entries: map<string, C.Entry<T>>, before: int, now: int)
    requires before <= now
    ensures Expire(View(entries, before), now) == View(entries, now)
  {
  }

  lemma ViewDelete<T>(entries: map<string, C.Entry<T>>, now: int, key: string)
    ensures View(entries - {key}, now) == View(entries, now) - {key}
  {
  }

  lemma ViewSweep<T>(entries: map<string, C.Entry<T>>, now: int)
    ensures View(C.Live(entries, now), now) == View(entries, now)
  {
  }

  lemma ViewPut<T>(entries: map<string, C.Entry<T>>, now: int, key: string, value: T, ttl: int)
    requires ttl > 0
    ensures View(entries[key := C.Entry(value, Some(now + ttl))], now)
         == View(entries, now)[key := Slot(value, now + ttl)]
  {
  }

  lemma ViewUpdate<T>(c: C.Cache<T>, now: int, key: string, value: T, ttl: int)
    requires AllTimed(c.entries)
    ensures var (c', done) := C.Update(c, now, key, value, ttl);
            && (done <==> key in View(c.entries, now))
            && View(c'.entries, now) == Replacement(View(c.entries, now), now, key, value, ttl)
  {
  }

  // Whether the evicted entry was live; dropping an expired one is no loss.
  ghost function Forgotten<T>(c: C.Cache<T>, now: int, e: Option<string>): Option<string> {
    if e.Some? && e.value in View(c.entries, now) then e else None
  }

  lemma ViewSet<T>(c: C.Cache<T>, now: int, key: string, value: T, ttl: int, e: Option<string>)
    requires ttl > 0
    ensures View(C.Set(c, now, key, value, ttl, e).entries, now)
         == Add(View(c.entries, now), key, Slot(value, now + ttl), Forgotten(c, now, e))
  {
    var entries := if e.Some? then c.entries - {e.value} else c.entries;
    ViewPut(entries, now, key, value, ttl);
    if e.Some? {
      ViewDelete(c.entries, now, e.value);
      assert e.value !in View(c.entries, now) ==> View(c.entries, now) - {e.value} == View(c.entries, now);
    }
  }

  // An eviction the cache may make is one the timed map may make, or drops an expired entry only.
  lemma EvictionForgets<T>(c: C.Cache<T>, now: int, key: string, e: Option<string>)
    requires Timely(c) && C.MayEvict(c, now, key, e) && key != ""
    ensures MayForget(View(c.entries, now), c.maxSize, key, Forgotten(c, now, e))
  {
    ViewSize(c, now);
    if key in c.entries && key !in View(c.entries, now) {
      assert C.Expired(c.entries[key], now);
    }
    if C.Overflows(c, key) && !C.SomeExpired(c, now) {
      assert c.order[0] in c.entries;
    }
  }

  lemma ForgettingEvicts<T>(c: C.Cache<T>, now: int, key: string, f: Option<string>) returns (e: Option<string>)
    requires Timely(c) && MayForget(View(c.entries, now), c.maxSize, key, f) && key != ""
    ensures C.MayEvict(c, now, key, e) && f == Forgotten(c, now, e)
  {
    ViewSize(c, now);
    if f.Some? {
      assert key in c.entries ==> C.SomeExpired(c, now);
      forall x | x in c.entries
        ensures c.entries[f.value].expiresAt.value <= c.entries[x].expiresAt.value
      {
        assert x in View(c.entries, now) by {
          assert !C.SomeExpired(c, now);
        }
      }
      return f;
    }
    if !C.Overflows(c, key) {
      return None;
    }
    var k :| k in c.entries && C.Expired(c.entries[k], now);
    return Some(k);
  }

  lemma StepValid<T>(c: C.Cache<T>, call: Call<T>, x: Option<string>)
    requires C.Valid(c) && CacheMay(c, call, x)
    ensures C.Valid(CacheStep(c, call, x).0)
  {
    match call.op
    case Insert(key, value, ttl) => C.SetValid(c, call.time, key, value, ttl, x);
    case Lookup(key) =>
    case Replace(key, value, ttl) => C.UpdateValid(c, call.time, key, value, ttl);
    case Remove(key) => C.DeleteValid(c, key);
    case Purge => C.SweepValid(c, call.time);
  }

  lemma StepAllTimed<T>(c: C.Cache<T>, call: Call<T>, x: Option<string>)
    requires AllTimed(c.entries) && Proper(call)
    ensures AllTimed(CacheStep(c, call, x).0.entries)
  {
  }

  // A call on the cache is a call on the view of its live entries, with the same answer.
  lemma StepRefines<T>(c: C.Cache<T>, call: Call<T>, x: Option<string>)
    requires AllTimed(c.entries) && Proper(call)
    ensures var (c', answer) := CacheStep(c, call, x);
            && c'.maxSize == c.maxSize
            && (View(c'.entries, call.time), answer)
               == MapStep(View(c.entries, call.time), call, Forgotten(c, call.time, x))
  {
    match call.op
    case Insert(key, value, ttl) => ViewSet(c, call.time, key, value, ttl, x);
    case Lookup(key) =>
    case Replace(key, value, ttl) => ViewUpdate(c, call.time, key, value, ttl);
    case Remove(key) => ViewDelete(c.entries, call.time, key);
    case Purge => ViewSweep(c.entries, call.time);
  }

  lemma ChoiceForward<T>(c: C.Cache<T>, call: Call<T>, x: Option<string>)
    requires Timely(c) && Proper(call) && CacheMay(c, call, x)
    ensures MapMay(View(c.entries, call.time), c.maxSize, call, Forgotten(c, call.time, x))
  {
    if call.op.Insert? {
      EvictionForgets(c, call.time, call.op.key, x);
    }
  }

  lemma ChoiceBackward<T>(c: C.Cache<T>, call: Call<T>, f: Option<string>) returns (x: Option<string>)
    requires Timely(c) && Proper(call) && MapMay(View(c.entries, call.time), c.maxSize, call, f)
    ensures CacheMay(c, call, x) && f == Forgotten(c, call.time, x)
  {
    if call.op.Insert? {
      x := ForgettingEvicts(c, call.time, call.op.key, f);
    } else {
      x := None;
    }
  }

  lemma {:induction false} CacheToMap<T>(c: C.Cache<T>, start: int, calls: seq<Call<T>>, answers: seq<Answer<T>>)
    requires Timely(c) && Admissible(calls, start) && CacheAnswers(c, calls, answers)
    ensures MapAnswers(View(c.entries, start), c.maxSize, calls, answers)
    decreases |calls|
  {
    if calls != [] {
      var call := calls[0];
      ViewAges(c.entries, start, call.time);
      var x :| && CacheMay(c, call, x)
               && StartsWith(answers, CacheStep(c, call, x).1)
               && CacheAnswers(CacheStep(c, call, x).0, calls[1..], Rest(answers, CacheStep(c, call, x).1));
      StepValid(c, call, x);
      StepAllTimed(c, call, x);
      StepRefines(c, call, x);
      ChoiceForward(c, call, x);
      CacheToMap(CacheStep(c, call, x).0, call.time, calls[1..], Rest(answers, CacheStep(c, call, x).1));
    }
  }

  lemma {:induction false} MapToCache<T>(c: C.Cache<T>, start: int, calls: seq<Call<T>>, answers: seq<Answer<T>>)
    requires Timely(c) && Admissible(calls, start) && MapAnswers(View(c.entries, start), c.maxSize, calls, answers)
    ensures CacheAnswers(c, calls, answers)
    decreases |calls|
  {
    if calls != [] {
      var call := calls[0];
      ViewAges(c.entries, start, call.time);
      var live := View(c.entries, call.time);
      var f :| && MapMay(live, c.maxSize, call, f)
               && StartsWith(answers, MapStep(live, call, f).1)
               && MapAnswers(MapStep(live, call, f).0, c.maxSize, calls[1..], Rest(answers, MapStep(live, call, f).1));
      var x := ChoiceBackward(c, call, f);
      StepValid(c, call, x);
      StepAllTimed(c, call, x);
      StepRefines(c, call, x);
      MapToCache(CacheStep(c, call, x).0, call.time, calls[1..], Rest(answers, CacheStep(c, call, x).1));
    }
  }

  // The answers a cache can give are exactly those of the timed map of its live entries.
  lemma CacheRefinesTimedMap<T>(c: C.Cache<T>, start: int, calls: seq<Call<T>>, answers: seq<Answer<T>>)
    requires Timely(c) && Admissible(calls, start)
    ensures CacheAnswers(c, calls, answers) <==> MapAnswers(View(c.entries, start), c.maxSize, calls, answers)
  {
    if CacheAnswers(c, calls, answers) {
      CacheToMap(c, start, calls, answers);
    }
    if MapAnswers(View(c.entries, start), c.maxSize, calls, answers) {
      MapToCache(c, start, calls, answers);
    }
  }

  // ----- Sweeping cannot be observed -----

  function WithoutPurges<T>(calls: seq<Call<T>>): (r: seq<Call<T>>) {
    if calls == [] then []
    else if calls[0].op.Purge? then WithoutPurges(calls[1..])
    else [calls[0]] + WithoutPurges(calls[1..])
  }

  lemma {:induction false} AdmissibleWithoutPurges<T>(calls: seq<Call<T>>, start: int)
    requires Admissible(calls, start)
    ensures Admissible(WithoutPurges(calls), start)
    decreases |calls|
  {
    if calls != [] {
      AdmissibleWithoutPurges(calls[1..], calls[0].time);
      if calls[0].op.Purge? {
        AdmissibleEarlier(WithoutPurges(calls), calls[0].time, start);
      } else {
        assert WithoutPurges(calls)[1..] == WithoutPurges(calls[1..]);
      }
    }
  }

  lemma AdmissibleEarlier<T>(calls: seq<Call<T>>, later: int, start: int)
    requires Admissible(calls, later) && start <= later
    ensures Admissible(calls, start)
  {
  }

  lemma ExpireTwice<T>(m: TimedMap<T>, first: int, second: int)
    requires first <= second
    ensures Expire(Expire(m, first), second) == Expire(m, second)
  {
  }

  // Only the live part of a timed map matters from a given time on.
  lemma {:induction false} OnlyLiveMatters<T>(m: TimedMap<T>, capacity: int, start: int, calls: seq<Call<T>>,
                                              answers: seq<Answer<T>>)
    requires Admissible(calls, start)
    ensures MapAnswers(Expire(m, start), capacity, calls, answers) <==> MapAnswers(m, capacity, calls, answers)
  {
    if calls != [] {
      ExpireTwice(m, start, calls[0].time);
    }
  }

  // Calls that can be answered alike from every state can be so after any first call.
  ghost predicate SameAnswers<T(!new)>(capacity: int, one: seq<Call<T>>, other: seq<Call<T>>) {
    forall m: TimedMap<T>, a :: MapAnswers(m, capacity, one, a) <==> MapAnswers(m, capacity, other, a)
  }

  lemma SameAfterFirst<T(!new)>(m: TimedMap<T>, capacity: int, first: Call<T>, one: seq<Call<T>>, other: seq<Call<T>>,
                                answers: seq<Answer<T>>)
    requires SameAnswers(capacity, one, other) && MapAnswers(m, capacity, [first] + one, answers)
    ensures MapAnswers(m, capacity, [first] + other, answers)
  {
    assert ([first] + one)[1..] == one && ([first] + other)[1..] == other;
    var live := Expire(m, first.time);
    var f :| && MapMay(live, capacity, first, f)
             && StartsWith(answers, MapStep(live, first, f).1)
             && MapAnswers(MapStep(live, first, f).0, capacity, one, Rest(answers, MapStep(live, first, f).1));
    assert MapAnswers(MapStep(live, first, f).0, capacity, other, Rest(answers, MapStep(live, first, f).1));
  }

  lemma PurgeFirst<T>(m: TimedMap<T>, capacity: int, calls: seq<Call<T>>, answers: seq<Answer<T>>)
    requires calls != [] && calls[0].op.Purge?
    ensures MapAnswers(m, capacity, calls, answers) <==>
            MapAnswers(Expire(m, calls[0].time), capacity, calls[1..], answers)
  {
    var live := Expire(m, calls[0].time);
    assert MapMay(live, capacity, calls[0], None);
    assert MapStep(live, calls[0], None) == (live, None);
  }

  lemma {:induction false} PurgesSkipped<T(!new)>(m: TimedMap<T>, capacity: int, start: int, calls: seq<Call<T>>,
                                                  answers: seq<Answer<T>>)
    requires Admissible(calls, start)
    ensures MapAnswers(m, capacity, calls, answers) <==> MapAnswers(m, capacity, WithoutPurges(calls), answers)
    decreases |calls|
  {
    if calls != [] {
      var now, rest := calls[0].time, calls[1..];
      var kept := WithoutPurges(rest);
      forall m': TimedMap<T>, a: seq<Answer<T>> {
        PurgesSkipped(m', capacity, now, rest, a);
      }
      if calls[0].op.Purge? {
        PurgeFirst(m, capacity, calls, answers);
        AdmissibleWithoutPurges(rest, now);
        OnlyLiveMatters(m, capacity, now, kept, answers);
      } else {
        assert calls == [calls[0]] + rest && WithoutPurges(calls) == [calls[0]] + kept;
        assert SameAnswers(capacity, rest, kept) && SameAnswers(capacity, kept, rest);
        if MapAnswers(m, capacity, calls, answers) {
          SameAfterFirst(m, capacity, calls[0], rest, kept, answers);
        }
        if MapAnswers(m, capacity, WithoutPurges(calls), answers) {
          SameAfterFirst(m, capacity, calls[0], kept, rest, answers);
        }
      }
    }
  }

  /**
   Two caches with the same live entries, however many expired ones either still stores, answer any
   admissible run in the same ways, whether or not one of them is swept along the way.
   */
  lemma SweepUnobservable<T(!new)>(c: C.Cache<T>, d: C.Cache<T>, start: int, calls: seq<Call<T>>,
                                   answers: seq<Answer<T>>)
    requires Timely(c) && Timely(d) && c.maxSize == d.maxSize && View(c.entries, start) == View(d.entries, start)
    requires Admissible(calls, start)
    ensures CacheAnswers(c, calls, answers) <==> CacheAnswers(d, WithoutPurges(calls), answers)
  {
    AdmissibleWithoutPurges(calls, start);
    CacheRefinesTimedMap(c, start, calls, answers);
    CacheRefinesTimedMap(d, start, WithoutPurges(calls), answers);
    PurgesSkipped(View(c.entries, start), c.maxSize, start, calls, answers);
  }
}
