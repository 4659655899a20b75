/**
 Sweeping when lifetimes may be missing. An entry without one never expires, so a stored entry that
 has expired keeps a place in the insertion order that a sweep takes away; with room for two entries
 or more that decides which live entry is evicted later.
 */
module CacheSweep {
  import opened Base
  import opened CacheRefinement
  import C = CacheSpec

  // Any calls at all, as long as the clock does not run backwards.
  ghost predicate Ordered<T>(calls: seq<Call<T>>, start: int)
    decreases |calls|
  {
    calls != [] ==> start <= calls[0].time && Ordered(calls[1..], calls[0].time)
  }

  ghost predicate SweepInvisible<T(!new)>(maxSize: int) {
    forall calls: seq<Call<T>>, answers: seq<Answer<T>> | Ordered(calls, 0) ::
      CacheAnswers(C.Empty(maxSize), calls, answers) <==> CacheAnswers(C.Empty(maxSize), WithoutPurges(calls), answers)
  }

  // A first call and what follows make a whole.
  lemma Prepend<T>(c: C.Cache<T>, call: Call<T>, rest: seq<Call<T>>, choice: Option<string>, answers: seq<Answer<T>>)
    requires CacheMay(c, call, choice) && StartsWith(answers, CacheStep(c, call, choice).1)
    requires CacheAnswers(CacheStep(c, call, choice).0, rest, Rest(answers, CacheStep(c, call, choice).1))
    ensures CacheAnswers(c, [call] + rest, answers)
  {
    var calls := [call] + rest;
    assert calls[0] == call && calls[1..] == rest && CacheMay(c, calls[0], choice);
  }

  // ----- Without a bound, or with room for one entry, nothing shows -----

  predicate LiveIn<T>(entries: map<string, C.Entry<T>>, now: int, k: string) {
    k in entries && !C.Expired(entries[k], now)
  }

  ghost predicate SameLive<T>(a: map<string, C.Entry<T>>, b: map<string, C.Entry<T>>, now: int) {
    forall k :: (LiveIn(a, now, k) <==> LiveIn(b, now, k)) && (LiveIn(a, now, k) ==> a[k] == b[k])
  }

  ghost predicate Alike<T>(c: C.Cache<T>, d: C.Cache<T>, now: int) {
    C.Valid(c) && C.Valid(d) && c.maxSize == d.maxSize <= 1 && SameLive(c.entries, d.entries, now)
  }

  lemma AlikeLater<T>(c: C.Cache<T>, d: C.Cache<T>, before: int, now: int)
    requires Alike(c, d, before) && before <= now
    ensures Alike(c, d, now)
  {
    forall k
      ensures LiveIn(c.entries, now, k) <==> LiveIn(d.entries, now, k)
      ensures LiveIn(c.entries, now, k) ==> c.entries[k] == d.entries[k]
    {
      assert LiveIn(c.entries, before, k) <==> LiveIn(d.entries, before, k);
    }
  }

  lemma OneEntry<T>(c: C.Cache<T>) returns (k: string)
    requires C.Valid(c) && c.maxSize == 1 && c.entries != map[]
    ensures c.entries.Keys == {k} && c.order == [k]
  {
    C.OrderSize(c);
    k := c.order[0];
    assert c.order == [k];
  }

  // A cache for one entry holds the last one inserted.
  lemma SetAlone<T>(c: C.Cache<T>, now: int, key: string, value: T, ttl: int, evicted: Option<string>)
    requires C.Valid(c) && c.maxSize == 1 && C.MayEvict(c, now, key, evicted)
    ensures C.Set(c, now, key, value, ttl, evicted).entries == map[key := C.Entry(value, C.Deadline(now, ttl))]
  {
    if c.entries != map[] {
      var k := OneEntry(c);
      assert |c.entries| == |c.entries.Keys| == |{k}|;
    }
  }

  lemma Evictable<T>(c: C.Cache<T>, now: int, key: string) returns (evicted: Option<string>)
    requires C.Valid(c) && c.maxSize <= 1
    ensures C.MayEvict(c, now, key, evicted)
  {
    evicted := None;
    if C.Overflows(c, key) {
      assert c.entries != map[];
      var k := OneEntry(c);
      evicted := Some(k);
      assert C.Victim(c, now, k);
    }
  }

  lemma InsertAlike<T>(c: C.Cache<T>, d: C.Cache<T>, call: Call<T>, x: Option<string>) returns (y: Option<string>)
    requires Alike(c, d, call.time) && call.op.Insert? && CacheMay(c, call, x)
    ensures CacheMay(d, call, y) && Alike(CacheStep(c, call, x).0, CacheStep(d, call, y).0, call.time)
  {
    var (key, value, ttl) := (call.op.key, call.op.value, call.op.ttl);
    y := Evictable(d, call.time, key);
    C.SetValid(c, call.time, key, value, ttl, x);
    C.SetValid(d, call.time, key, value, ttl, y);
    if c.maxSize == 1 {
      SetAlone(c, call.time, key, value, ttl, x);
      SetAlone(d, call.time, key, value, ttl, y);
    } else {
      LivePut(c.entries, d.entries, call.time, key, C.Entry(value, C.Deadline(call.time, ttl)));
    }
  }

  lemma LivePut<T>(a: map<string, C.Entry<T>>, b: map<string, C.Entry<T>>, now: int, key: string, e: C.Entry<T>)
    requires SameLive(a, b, now)
    ensures SameLive(a[key := e], b[key := e], now)
  {
    var (a', b') := (a[key := e], b[key := e]);
    forall k: string
      ensures (LiveIn(a', now, k) <==> LiveIn(b', now, k)) && (LiveIn(a', now, k) ==> a'[k] == b'[k])
    {
      assert LiveIn(a, now, k) <==> LiveIn(b, now, k);
    }
  }

  lemma LiveRemove<T>(a: map<string, C.Entry<T>>, b: map<string, C.Entry<T>>, now: int, key: string)
    requires SameLive(a, b, now)
    ensures SameLive(a - {key}, b - {key}, now)
  {
    var (a', b') := (a - {key}, b - {key});
    forall k: string
      ensures (LiveIn(a', now, k) <==> LiveIn(b', now, k)) && (LiveIn(a', now, k) ==> a'[k] == b'[k])
    {
      assert LiveIn(a, now, k) <==> LiveIn(b, now, k);
    }
  }

  lemma ReplaceAlike<T>(c: C.Cache<T>, d: C.Cache<T>, now: int, key: string, value: T, ttl: int)
    requires Alike(c, d, now)
    ensures var (c', d') := (C.Update(c, now, key, value, ttl), C.Update(d, now, key, value, ttl));
            Alike(c'.0, d'.0, now) && c'.1 == d'.1
  {
    assert LiveIn(c.entries, now, key) <==> LiveIn(d.entries, now, key);
    C.UpdateValid(c, now, key, value, ttl);
    C.UpdateValid(d, now, key, value, ttl);
    if LiveIn(c.entries, now, key) {
      LivePut(c.entries, d.entries, now, key, C.Update(c, now, key, value, ttl).0.entries[key]);
    }
  }

  lemma RemoveAlike<T>(c: C.Cache<T>, d: C.Cache<T>, now: int, key: string)
    requires Alike(c, d, now)
    ensures Alike(C.Delete(c, key), C.Delete(d, key), now)
  {
    C.DeleteValid(c, key);
    C.DeleteValid(d, key);
    LiveRemove(c.entries, d.entries, now, key);
  }

  lemma StepAlike<T>(c: C.Cache<T>, d: C.Cache<T>, call: Call<T>, x: Option<string>) returns (y: Option<string>)
    requires Alike(c, d, call.time) && !call.op.Purge? && CacheMay(c, call, x)
    ensures CacheMay(d, call, y) && CacheStep(c, call, x).1 == CacheStep(d, call, y).1
    ensures Alike(CacheStep(c, call, x).0, CacheStep(d, call, y).0, call.time)
  {
    y := None;
    match call.op
    case Insert(_, _, _) => y := InsertAlike(c, d, call, x);
    case Lookup(key) => assert LiveIn(c.entries, call.time, key) <==> LiveIn(d.entries, call.time, key);
    case Replace(key, value, ttl) => ReplaceAlike(c, d, call.time, key, value, ttl);
    case Remove(key) => RemoveAlike(c, d, call.time, key);
  }

  lemma PurgeAlike<T>(c: C.Cache<T>, d: C.Cache<T>, now: int)
    requires Alike(c, d, now)
    ensures Alike(C.Sweep(c, now), d, now)
  {
    C.SweepValid(c, now);
    forall k
      ensures LiveIn(C.Sweep(c, now).entries, now, k) <==> LiveIn(d.entries, now, k)
      ensures LiveIn(C.Sweep(c, now).entries, now, k) ==> C.Sweep(c, now).entries[k] == d.entries[k]
    {
      assert LiveIn(c.entries, now, k) <==> LiveIn(d.entries, now, k);
    }
  }

  lemma {:induction false} SwapAlike<T(!new)>(c: C.Cache<T>, d: C.Cache<T>, start: int, calls: seq<Call<T>>,
                                              answers: seq<Answer<T>>)
    requires Alike(c, d, start) && Ordered(calls, start)
    ensures CacheAnswers(c, calls, answers) ==> CacheAnswers(d, WithoutPurges(calls), answers)
    decreases |calls|
  {
    if calls != [] && CacheAnswers(c, calls, answers) {
      var call, rest := calls[0], calls[1..];
      AlikeLater(c, d, start, call.time);
      var x :| && CacheMay(c, call, x) && StartsWith(answers, CacheStep(c, call, x).1)
               && CacheAnswers(CacheStep(c, call, x).0, rest, Rest(answers, CacheStep(c, call, x).1));
      if call.op.Purge? {
        PurgeAlike(c, d, call.time);
        SwapAlike(C.Sweep(c, call.time), d, call.time, rest, answers);
      } else {
        var y := StepAlike(c, d, call, x);
        SwapAlike(CacheStep(c, call, x).0, CacheStep(d, call, y).0, call.time, rest,
                  Rest(answers, CacheStep(c, call, x).1));
        Prepend(d, call, WithoutPurges(rest), y, answers);
      }
    }
  }

  lemma {:induction false} SwapBack<T(!new)>(c: C.Cache<T>, d: C.Cache<T>, start: int, calls: seq<Call<T>>,
                                             answers: seq<Answer<T>>)
    requires Alike(c, d, start) && Ordered(calls, start)
    ensures CacheAnswers(d, WithoutPurges(calls), answers) ==> CacheAnswers(c, calls, answers)
    decreases |calls|
  {
    if calls != [] && CacheAnswers(d, WithoutPurges(calls), answers) {
      var call, rest := calls[0], calls[1..];
      AlikeLater(c, d, start, call.time);
      if call.op.Purge? {
        PurgeAlike(c, d, call.time);
        SwapBack(C.Sweep(c, call.time), d, call.time, rest, answers);
        Prepend(c, call, rest, None, answers);
        assert calls == [call] + rest;
      } else {
        var kept := WithoutPurges(rest);
        assert WithoutPurges(calls)[0] == call && WithoutPurges(calls)[1..] == kept;
        var y :| && CacheMay(d, call, y) && StartsWith(answers, CacheStep(d, call, y).1)
                 && CacheAnswers(CacheStep(d, call, y).0, kept, Rest(answers, CacheStep(d, call, y).1));
        var x := StepAlike(d, c, call, y);
        SwapBack(CacheStep(c, call, x).0, CacheStep(d, call, y).0, call.time, rest,
                 Rest(answers, CacheStep(c, call, x).1));
        Prepend(c, call, rest, x, answers);
        assert calls == [call] + rest;
      }
    }
  }

  // ----- With room for two or more it does -----

  // The only thing the call can do is what choice says.
  ghost predicate Forced<T>(c: C.Cache<T>, call: Call<T>, choice: Option<string>) {
    forall x :: CacheMay(c, call, x) <==> x == choice
  }

  lemma OneWay<T>(c: C.Cache<T>, call: Call<T>, rest: seq<Call<T>>, choice: Option<string>, answers: seq<Answer<T>>)
    requires Forced(c, call, choice)
    ensures CacheAnswers(c, [call] + rest, answers) <==>
              && StartsWith(answers, CacheStep(c, call, choice).1)
              && CacheAnswers(CacheStep(c, call, choice).0, rest, Rest(answers, CacheStep(c, call, choice).1))
  {
    var calls := [call] + rest;
    assert calls[0] == call && calls[1..] == rest && CacheMay(c, call, choice);
    if StartsWith(answers, CacheStep(c, call, choice).1)
       && CacheAnswers(CacheStep(c, call, choice).0, rest, Rest(answers, CacheStep(c, call, choice).1)) {
      Prepend(c, call, rest, choice, answers);
    }
  }

  // A name longer than one character for each number.
  function Long(n: nat): (name: string)
    ensures |name| == n + 2
  {
    if n == 0 then "xx" else "x" + Long(n - 1)
  }

  function Fillers(n: nat): (names: seq<string>)
    ensures |names| == n
    ensures forall i :: 0 <= i < n ==> |names[i]| == i + 2
  {
    if n == 0 then [] else Fillers(n - 1) + [Long(n - 1)]
  }

  // Entries that all hold value; only those in timed have a deadline, at one.
  function Entries<T>(value: T, keys: seq<string>, timed: set<string>): (entries: map<string, C.Entry<T>>)
    ensures forall k :: k in entries <==> k in keys
    ensures forall k :: k in entries ==> entries[k] == C.Entry(value, if k in timed then Some(1) else None)
  {
    if keys == [] then map[]
    else
      var last := keys[|keys| - 1];
      var entries := Entries(value, keys[..|keys| - 1], timed);
      assert keys == keys[..|keys| - 1] + [last];
      entries[last := C.Entry(value, if last in timed then Some(1) else None)]
  }

  function Holding<T>(value: T, order: seq<string>, timed: set<string>, maxSize: int): C.Cache<T> {
    C.Cache(Entries(value, order, timed), order, maxSize)
  }

  lemma HoldingSize<T>(value: T, order: seq<string>, timed: set<string>, maxSize: int)
    requires C.NoDuplicates(order) && (maxSize > 0 ==> |order| <= maxSize)
    ensures C.Valid(Holding(value, order, timed, maxSize)) && |Holding(value, order, timed, maxSize).entries| == |order|
  {
    var c := Holding(value, order, timed, maxSize);
    C.SetOfSize(order);
    assert c.entries.Keys == set k | k in order;
  }

  // An insertion of a new key with room, or over a stored one, has no choice.
  lemma InsertForced<T>(value: T, order: seq<string>, timed: set<string>, maxSize: int, call: Call<T>)
    requires C.NoDuplicates(order) && |order| <= maxSize && call.op.Insert?
    requires call.op.key in order || |order| < maxSize
    ensures Forced(Holding(value, order, timed, maxSize), call, None)
  {
    HoldingSize(value, order, timed, maxSize);
  }

  function Put<T>(time: int, value: T, key: string, ttl: int): Call<T> {
    Call(time, Insert(key, value, ttl))
  }

  lemma PutNew<T>(value: T, order: seq<string>, timed: set<string>, maxSize: int, time: int, key: string)
    requires key !in order && key !in timed
    ensures CacheStep(Holding(value, order, timed, maxSize), Put(time, value, key, 0), None) ==
            (Holding(value, order + [key], timed, maxSize), None)
  {
    var c := C.Set(Holding(value, order, timed, maxSize), time, key, value, 0, None);
    assert c.entries == Holding(value, order + [key], timed, maxSize).entries;
  }

  function Puts<T>(value: T, keys: seq<string>): seq<Call<T>> {
    if keys == [] then [] else [Put(0, value, keys[0], 0)] + Puts(value, keys[1..])
  }

  lemma NewKey(order: seq<string>, keys: seq<string>)
    requires C.NoDuplicates(order + keys) && keys != []
    ensures C.NoDuplicates(order) && keys[0] !in order
  {
    var all := order + keys;
    forall i | 0 <= i < |order|
      ensures order[i] != keys[0]
    {
      assert all[i] != all[|order|];
    }
    forall i, j | 0 <= i < j < |order|
      ensures order[i] != order[j]
    {
      assert all[i] != all[j];
    }
  }

  lemma FillOne<T>(value: T, order: seq<string>, timed: set<string>, maxSize: int, key: string, rest: seq<Call<T>>,
                   answers: seq<Answer<T>>)
    requires C.NoDuplicates(order) && |order| < maxSize && key !in order && key !in timed
    ensures CacheAnswers(Holding(value, order, timed, maxSize), [Put(0, value, key, 0)] + rest, answers) <==>
            CacheAnswers(Holding(value, order + [key], timed, maxSize), rest, answers)
  {
    InsertForced(value, order, timed, maxSize, Put(0, value, key, 0));
    PutNew(value, order, timed, maxSize, 0, key);
    OneWay(Holding(value, order, timed, maxSize), Put(0, value, key, 0), rest, None, answers);
  }

  lemma Regroup(order: seq<string>, keys: seq<string>)
    requires keys != []
    ensures (order + [keys[0]]) + keys[1..] == order + keys
  {
  }

  lemma PutsUnrolled<T>(value: T, keys: seq<string>, rest: seq<Call<T>>)
    requires keys != []
    ensures Puts(value, keys) + rest == [Put(0, value, keys[0], 0)] + (Puts(value, keys[1..]) + rest)
  {
  }

  lemma {:induction false} Filling<T>(value: T, order: seq<string>, timed: set<string>, maxSize: int, keys: seq<string>,
                                      rest: seq<Call<T>>, answers: seq<Answer<T>>)
    requires C.NoDuplicates(order + keys) && |order + keys| <= maxSize && forall k :: k in keys ==> k !in timed
    ensures CacheAnswers(Holding(value, order, timed, maxSize), Puts(value, keys) + rest, answers) <==>
            CacheAnswers(Holding(value, order + keys, timed, maxSize), rest, answers)
    decreases |keys|
  {
    if keys == [] {
      assert Puts(value, keys) + rest == rest && order + keys == order;
    } else {
      NewKey(order, keys);
      Regroup(order, keys);
      PutsUnrolled(value, keys, rest);
      FillOne(value, order, timed, maxSize, keys[0], Puts(value, keys[1..]) + rest, answers);
      Filling(value, order + [keys[0]], timed, maxSize, keys[1..], rest, answers);
    }
  }

  function Others(maxSize: int): seq<string>
    requires maxSize >= 2
  {
    ["b"] + Fillers(maxSize - 2)
  }

  // "a" is stored again after it expired, then "c" needs room; is "a" still there?
  function Ending<T>(value: T): seq<Call<T>> {
    [Put(2, value, "a", 0), Put(2, value, "c", 0), Call(2, Lookup("a"))]
  }

  function Purging<T>(value: T, maxSize: int): seq<Call<T>>
    requires maxSize >= 2
  {
    [Put(0, value, "a", 1)] + (Puts(value, Others(maxSize)) + ([Call(2, Purge)] + Ending(value)))
  }

  lemma DistinctOthers(maxSize: int)
    requires maxSize >= 2
    ensures var order := ["a"] + Others(maxSize);
            C.NoDuplicates(order) && |order| == maxSize && "c" !in order
  {
    var order := ["a"] + Others(maxSize);
    forall i | 0 <= i < |order|
      ensures |order[i]| == if i < 2 then 1 else i
      ensures order[i] != "c"
    {
      if i >= 2 {
        assert order[i] == Fillers(maxSize - 2)[i - 2];
      }
    }
    assert order[0] == "a" && order[1] == "b";
  }

  lemma StoreA<T>(value: T, maxSize: int)
    ensures CacheStep(C.Empty(maxSize), Put(0, value, "a", 1), None) == (Holding(value, ["a"], {"a"}, maxSize), None)
  {
    var c := C.Set(C.Empty<T>(maxSize), 0, "a", value, 1, None);
    assert c.order == ["a"];
    assert c.entries == Holding(value, ["a"], {"a"}, maxSize).entries;
  }

  // Where both runs are when the clock reads two.
  lemma Filled<T>(value: T, maxSize: int, rest: seq<Call<T>>, answers: seq<Answer<T>>)
    requires maxSize >= 2
    ensures var calls := [Put(0, value, "a", 1)] + (Puts(value, Others(maxSize)) + rest);
            CacheAnswers(C.Empty(maxSize), calls, answers) <==>
            CacheAnswers(Holding(value, ["a"] + Others(maxSize), {"a"}, maxSize), rest, answers)
  {
    DistinctOthers(maxSize);
    StoreA(value, maxSize);
    OneWay(C.Empty(maxSize), Put(0, value, "a", 1), Puts(value, Others(maxSize)) + rest, None, answers);
    forall k | k in Others(maxSize)
      ensures k !in {"a"}
    {
      var i :| 0 <= i < |Others(maxSize)| && Others(maxSize)[i] == k;
      assert (["a"] + Others(maxSize))[i + 1] == k;
    }
    Filling(value, ["a"], {"a"}, maxSize, Others(maxSize), rest, answers);
  }

  // In a full cache without lifetimes "c" takes the place of the first in the order.
  lemma FirstGoes<T>(value: T, order: seq<string>, maxSize: int, answers: seq<Answer<T>>)
    requires C.NoDuplicates(order) && |order| == maxSize >= 2 && "a" in order && "c" !in order
    ensures var calls := [Put(2, value, "c", 0), Call(2, Lookup("a"))];
            CacheAnswers(Holding(value, order, {}, maxSize), calls, answers) <==>
            answers == [Found(if order[0] == "a" then None else Some(value))]
  {
    var c := Holding(value, order, {}, maxSize);
    var put := Put(2, value, "c", 0);
    HoldingSize(value, order, {}, maxSize);
    forall x: Option<string>
      ensures CacheMay(c, put, x) <==> x == Some(order[0])
    {
      C.EvictsEarliest(c, 2, "c", x);
    }
    assert [put] + [Call(2, Lookup("a"))] == [put, Call(2, Lookup("a"))];
    OneWay(c, put, [Call(2, Lookup("a"))], Some(order[0]), answers);
    LookupEnds(CacheStep(c, put, Some(order[0])).0, answers);
  }

  lemma LookupEnds<T>(c: C.Cache<T>, answers: seq<Answer<T>>)
    ensures CacheAnswers(c, [Call(2, Lookup("a"))], answers) <==> answers == [Found(C.Get(c, 2, "a"))]
  {
    var call: Call<T> := Call(2, Lookup("a"));
    assert [call] + [] == [call];
    OneWay(c, call, [], None, answers);
  }

  lemma Restored<T>(value: T, order: seq<string>, maxSize: int)
    requires "a" in order
    ensures CacheStep(Holding(value, order, {"a"}, maxSize), Put(2, value, "a", 0), None).0 ==
            Holding(value, order, {}, maxSize)
  {
  }

  // Storing "a" again over the expired entry keeps its place.
  lemma KeptEnding<T>(value: T, maxSize: int, answers: seq<Answer<T>>)
    requires maxSize >= 2
    ensures CacheAnswers(Holding(value, ["a"] + Others(maxSize), {"a"}, maxSize), Ending(value), answers) <==>
            answers == [Found(None)]
  {
    DistinctOthers(maxSize);
    var order := ["a"] + Others(maxSize);
    var put := Put(2, value, "a", 0);
    InsertForced(value, order, {"a"}, maxSize, put);
    Restored(value, order, maxSize);
    assert Ending(value) == [put] + [Put(2, value, "c", 0), Call(2, Lookup("a"))];
    OneWay(Holding(value, order, {"a"}, maxSize), put, [Put(2, value, "c", 0), Call(2, Lookup("a"))], None, answers);
    FirstGoes(value, order, maxSize, answers);
  }

  lemma WithoutHead(others: seq<string>)
    requires C.NoDuplicates(["a"] + others)
    ensures C.NoDuplicates(others) && "a" !in others
  {
    var order := ["a"] + others;
    forall i, j | 0 <= i < j < |others|
      ensures others[i] != others[j]
    {
      assert order[i + 1] != order[j + 1];
    }
    forall i | 0 <= i < |others|
      ensures others[i] != "a"
    {
      assert order[0] != order[i + 1];
    }
  }

  lemma RestrictTail(head: string, others: seq<string>, keys: set<string>)
    requires head !in keys && forall k :: k in others ==> k in keys
    ensures C.Restrict([head] + others, keys) == others
  {
    assert ([head] + others)[1..] == others;
    C.RestrictAll(others, keys);
  }

  lemma LiveHolding<T>(value: T, others: seq<string>)
    requires "a" !in others
    ensures C.Live(Entries(value, ["a"] + others, {"a"}), 2) == Entries(value, others, {})
  {
  }

  lemma SweptHolding<T>(value: T, others: seq<string>, maxSize: int)
    requires "a" !in others
    ensures C.Sweep(Holding(value, ["a"] + others, {"a"}, maxSize), 2) == Holding(value, others, {}, maxSize)
  {
    LiveHolding(value, others);
    RestrictTail("a", others, Entries(value, others, {}).Keys);
  }

  // After a sweep "a" is stored behind the others.
  lemma SweptEnding<T>(value: T, maxSize: int, answers: seq<Answer<T>>)
    requires maxSize >= 2
    ensures CacheAnswers(Holding(value, Others(maxSize), {}, maxSize), Ending(value), answers) <==>
            answers == [Found(Some(value))]
  {
    DistinctOthers(maxSize);
    var others := Others(maxSize);
    WithoutHead(others);
    var put := Put(2, value, "a", 0);
    InsertForced(value, others, {}, maxSize, put);
    PutNew(value, others, {}, maxSize, 2, "a");
    assert Ending(value) == [put] + [Put(2, value, "c", 0), Call(2, Lookup("a"))];
    OneWay(Holding(value, others, {}, maxSize), put, [Put(2, value, "c", 0), Call(2, Lookup("a"))], None, answers);
    FirstGoes(value, others + ["a"], maxSize, answers);
  }

  lemma PurgeStep<T>(c: C.Cache<T>, rest: seq<Call<T>>, answers: seq<Answer<T>>)
    ensures CacheAnswers(c, [Call(2, Purge)] + rest, answers) <==> CacheAnswers(C.Sweep(c, 2), rest, answers)
  {
    OneWay(c, Call(2, Purge), rest, None, answers);
  }

  lemma WithSweep<T>(value: T, maxSize: int)
    requires maxSize >= 2
    ensures CacheAnswers(C.Empty(maxSize), Purging(value, maxSize), [Found(Some(value))])
  {
    var answers := [Found(Some(value))];
    var others := Others(maxSize);
    DistinctOthers(maxSize);
    WithoutHead(others);
    SweptHolding(value, others, maxSize);
    SweptEnding(value, maxSize, answers);
    PurgeStep(Holding(value, ["a"] + others, {"a"}, maxSize), Ending(value), answers);
    Filled(value, maxSize, [Call(2, Purge)] + Ending(value), answers);
  }

  lemma WithoutSweep<T>(value: T, maxSize: int)
    requires maxSize >= 2
    ensures !CacheAnswers(C.Empty(maxSize), WithoutPurges(Purging(value, maxSize)), [Found(Some(value))])
  {
    var answers := [Found(Some(value))];
    PurgingWithout(value, maxSize);
    Filled(value, maxSize, Ending(value), answers);
    KeptEnding(value, maxSize, answers);
  }

  lemma {:induction false} PutsWithout<T>(value: T, keys: seq<string>, rest: seq<Call<T>>)
    ensures WithoutPurges(Puts(value, keys) + rest) == Puts(value, keys) + WithoutPurges(rest)
    decreases |keys|
  {
    if keys == [] {
      assert Puts(value, keys) + rest == rest;
    } else {
      var all := Puts(value, keys) + rest;
      assert all[1..] == Puts(value, keys[1..]) + rest;
      PutsWithout(value, keys[1..], rest);
    }
  }

  lemma PurgingWithout<T>(value: T, maxSize: int)
    requires maxSize >= 2
    ensures WithoutPurges(Purging(value, maxSize)) ==
            [Put(0, value, "a", 1)] + (Puts(value, Others(maxSize)) + Ending(value))
  {
    var tail := [Call(2, Purge)] + Ending(value);
    PutsWithout(value, Others(maxSize), tail);
    assert Purging(value, maxSize)[1..] == Puts(value, Others(maxSize)) + tail;
    EndingWithout(value);
    assert tail[1..] == Ending(value);
  }

  lemma EndingWithout<T>(value: T)
    ensures WithoutPurges(Ending(value)) == Ending(value)
  {
    var y, z: Call<T> := Put(2, value, "c", 0), Call(2, Lookup("a"));
    assert Ending(value)[1..] == [y, z] && [y, z][1..] == [z] && [z][1..] == [];
    assert WithoutPurges([z]) == [z] && WithoutPurges([y, z]) == [y, z];
  }

  lemma {:induction false} PutsOrdered<T>(value: T, keys: seq<string>, rest: seq<Call<T>>)
    requires Ordered(rest, 0)
    ensures Ordered(Puts(value, keys) + rest, 0)
    decreases |keys|
  {
    if keys == [] {
      assert Puts(value, keys) + rest == rest;
    } else {
      assert (Puts(value, keys) + rest)[1..] == Puts(value, keys[1..]) + rest;
      PutsOrdered(value, keys[1..], rest);
    }
  }

  lemma PurgingOrdered<T>(value: T, maxSize: int)
    requires maxSize >= 2
    ensures Ordered(Purging(value, maxSize), 0)
  {
    var tail := [Call(2, Purge)] + Ending(value);
    var y, z: Call<T> := Put(2, value, "c", 0), Call(2, Lookup("a"));
    assert tail[1..] == Ending(value) && Ending(value)[1..] == [y, z] && [y, z][1..] == [z] && [z][1..] == [];
    assert Ordered([z], 2) && Ordered([y, z], 2);
    PutsOrdered(value, Others(maxSize), tail);
    assert Purging(value, maxSize)[1..] == Puts(value, Others(maxSize)) + tail;
  }

  /**
   When lifetimes may be missing, no run from the empty cache shows whether it is swept exactly when
   the cache is unbounded or has room for one entry only.
   */
  lemma SweepInvisibleExactly<T(!new)>(value: T, maxSize: int)
    ensures SweepInvisible<T>(maxSize) <==> maxSize <= 1
  {
    if maxSize <= 1 {
      forall calls: seq<Call<T>>, answers: seq<Answer<T>> | Ordered(calls, 0)
        ensures CacheAnswers(C.Empty(maxSize), calls, answers) <==>
                CacheAnswers(C.Empty(maxSize), WithoutPurges(calls), answers)
      {
        SwapAlike(C.Empty(maxSize), C.Empty(maxSize), 0, calls, answers);
        SwapBack(C.Empty(maxSize), C.Empty(maxSize), 0, calls, answers);
      }
    } else {
      PurgingOrdered(value, maxSize);
      WithSweep(value, maxSize);
      WithoutSweep(value, maxSize);
    }
  }
}
