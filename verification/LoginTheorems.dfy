/** Lockout is exact over whole runs, and login records leave the bounded cache first in, first out. */
module LoginTheorems {
  import opened Base
  import C = CacheSpec
  import opened LoginSpec

  datatype Event =
    | Attempt(time: nat, identifier: string, success: bool)
    | Sweep(time: nat)
    | Clear  // the end of a lockdown

  function Next(limits: Limits, c: LoginCache, e: Event): LoginCache {
    match e
    case Attempt(time, identifier, success) => Record(limits, c, time, identifier, success)
    case Sweep(time) => C.Sweep(c, time)
    case Clear => C.Empty(c.maxSize)
  }

  function After(limits: Limits, c: LoginCache, events: seq<Event>): LoginCache {
    if events == [] then c
    else Next(limits, After(limits, c, events[..|events| - 1]), events[|events| - 1])
  }

  lemma {:induction false} AfterValid(limits: Limits, c: LoginCache, events: seq<Event>)
    requires Valid(limits, c)
    ensures Valid(limits, After(limits, c, events))
  {
    if events != [] {
      var init, last := events[..|events| - 1], events[|events| - 1];
      AfterValid(limits, c, init);
      match last
      case Attempt(time, identifier, success) =>
        RecordValid(limits, After(limits, c, init), time, identifier, success);
      case Sweep(time) => SweepKeepsLogins(limits, After(limits, c, init), time);
      case Clear =>
    }
  }

  /** Without retries or without a timeout nothing is recorded, and only a lockdown locks. */
  lemma LimitsOff(limits: Limits, c: LoginCache, lockdown: bool, now: int, id: string, success: bool)
    ensures limits.Off() <==> limits.maxRetries <= 0 || limits.timeout <= 0
    ensures limits.Off() ==> (IsLocked(limits, c, lockdown, now, id) <==> lockdown)
    ensures limits.Off() ==> Record(limits, c, now, id, success) == c
    ensures lockdown ==> IsLocked(limits, c, lockdown, now, id)
  {
  }

  // ----- Lockout is exact -----

  datatype Outcome = Outcome(time: nat, success: bool)

  // The attempts recorded for id, oldest first, since its present entry was created.
  function Trail(limits: Limits, events: seq<Event>, id: string): seq<Outcome> {
    if events == [] then []
    else
      var init, last := events[..|events| - 1], events[|events| - 1];
      var before := After(limits, C.Empty(limits.CacheSize()), init);
      if id !in Next(limits, before, last).entries then []
      else if last.Attempt? && last.identifier == id && Records(limits, before, last.success) then
        (if id in before.entries then Trail(limits, init, id) else []) + [Outcome(last.time, last.success)]
      else Trail(limits, init, id)
  }

  function TrailingFailures(trail: seq<Outcome>): nat {
    if trail == [] || trail[|trail| - 1].success then 0
    else 1 + TrailingFailures(trail[..|trail| - 1])
  }

  // The entry of an identifier is a summary of its trail.
  ghost predicate Summarizes(limits: Limits, a: LoginAttempt, trail: seq<Outcome>) {
    && trail != []
    && a.failedAttempts == TrailingFailures(trail)
    && a.lockedUntil == if TrailingFailures(trail) >= limits.maxRetries
                        then trail[|trail| - 1].time + limits.timeout * SECOND else 0
  }

  lemma AttemptSummarizes(limits: Limits, trail: seq<Outcome>, before: Option<LoginAttempt>, o: Outcome)
    requires !limits.Off()
    requires if before.Some? then Summarizes(limits, before.value, trail) else trail == []
    ensures var a := if before.None? then FirstAttempt(limits, o.time, o.success)
                     else NextAttempt(limits, before.value, o.time, o.success);
            Summarizes(limits, a, trail + [o])
  {
    assert (trail + [o])[..|trail|] == trail;
  }

  lemma {:induction false} EntrySummarizesTrail(limits: Limits, events: seq<Event>, id: string)
    requires !limits.Off()
    ensures var c := After(limits, C.Empty(limits.CacheSize()), events);
            if id in c.entries then Summarizes(limits, c.entries[id].value, Trail(limits, events, id))
            else Trail(limits, events, id) == []
  {
    var start := C.Empty(limits.CacheSize());
    if events != [] {
      var init, last := events[..|events| - 1], events[|events| - 1];
      var before := After(limits, start, init);
      EntrySummarizesTrail(limits, init, id);
      AfterValid(limits, start, init);
      match last
      case Attempt(time, identifier, success) =>
        if identifier == id && Records(limits, before, success) {
          AttemptSummarizes(limits, Trail(limits, init, id), C.Get(before, time, id), Outcome(time, success));
        }
      case Sweep(time) => SweepKeepsLogins(limits, before, time);
      case Clear =>
    }
  }

  // A record that summarizes its trail locks exactly as the trail says.
  lemma SummaryLocks(limits: Limits, a: LoginAttempt, trail: seq<Outcome>, now: nat)
    requires Summarizes(limits, a, trail)
    ensures a.lockedUntil > now <==>
              && TrailingFailures(trail) >= limits.maxRetries
              && now < trail[|trail| - 1].time + limits.timeout * SECOND
  {
  }

  lemma UntimedLocks(limits: Limits, c: LoginCache, now: nat, id: string)
    requires !limits.Off() && C.Untimed(c)
    ensures IsLocked(limits, c, false, now, id) <==> id in c.entries && c.entries[id].value.lockedUntil > now
  {
  }

  lemma StartValid(limits: Limits)
    ensures Valid(limits, C.Empty(limits.CacheSize()))
  {
  }

  // The failures at the end of a trail reach the limit, and the timeout runs.
  predicate Locks(limits: Limits, trail: seq<Outcome>, now: nat) {
    && trail != [] && TrailingFailures(trail) >= limits.maxRetries
    && now < trail[|trail| - 1].time + limits.timeout * SECOND
  }

  /**
   Outside a lockdown an account is locked exactly when the failures at the end of its recorded
   attempts reach the retry limit and the timeout after the last of them has not passed.
   */
  lemma LockoutExact(limits: Limits, events: seq<Event>, now: nat, id: string)
    requires !limits.Off()
    ensures IsLocked(limits, After(limits, C.Empty(limits.CacheSize()), events), false, now, id) <==>
            Locks(limits, Trail(limits, events, id), now)
  {
    var c, trail := After(limits, C.Empty(limits.CacheSize()), events), Trail(limits, events, id);
    StartValid(limits);
    AfterValid(limits, C.Empty(limits.CacheSize()), events);
    UntimedLocks(limits, c, now, id);
    EntrySummarizesTrail(limits, events, id);
    if id in c.entries {
      SummaryLocks(limits, c.entries[id].value, trail, now);
    }
  }

  // ----- First in, first out -----

  // The event creates a record: its identifier is absent at the time.
  predicate Creates(c: LoginCache, e: Event) {
    e.Attempt? && e.identifier !in c.entries
  }

  function Creations(limits: Limits, c: LoginCache, events: seq<Event>): nat {
    if events == [] then 0
    else
      var init, last := events[..|events| - 1], events[|events| - 1];
      Creations(limits, c, init) + if Creates(After(limits, c, init), last) then 1 else 0
  }

  // Whoever waits behind id in the queue was created after it.
  ghost predicate Queued(c: LoginCache, id: string, behind: nat) {
    behind < |c.order| && c.order[|c.order| - 1 - behind] == id
  }

  lemma {:induction false} WithoutFirst(s: seq<string>)
    requires s != [] && C.NoDuplicates(s)
    ensures C.Without(s, s[0]) == s[1..]
  {
    C.WithoutAbsent(s[1..], s[0]);
  }

  // Storing a record under a new key lengthens the queue, after its head left if it was full.
  lemma RecordOrder(limits: Limits, c: LoginCache, time: nat, identifier: string, success: bool)
    requires Valid(limits, c) && !limits.Off() && !limits.lockdownEnabled && limits.maxLogins > 0
    ensures var order := Record(limits, c, time, identifier, success).order;
            if identifier in c.entries then order == c.order
            else if |c.order| < limits.maxLogins then order == c.order + [identifier]
            else |c.order| == limits.maxLogins && order == c.order[1..] + [identifier]
  {
    C.OrderSize(c);
    if C.Overflows(c, identifier) {
      WithoutFirst(c.order);
    }
  }

  // A created record moves everybody one place towards the exit; whoever is first in a full queue leaves.
  lemma RecordMovesQueue(limits: Limits, c: LoginCache, time: nat, identifier: string, success: bool, id: string,
                         behind: nat)
    requires Valid(limits, c) && !limits.Off() && !limits.lockdownEnabled && limits.maxLogins > 0
    requires Queued(c, id, behind)
    ensures var c' := Record(limits, c, time, identifier, success);
            if identifier in c.entries then Queued(c', id, behind)
            else if behind + 1 < limits.maxLogins then Queued(c', id, behind + 1)
            else behind + 1 == limits.maxLogins && id !in c'.order
  {
    RecordOrder(limits, c, time, identifier, success);
    C.OrderSize(c);
    QueueMoves(c.order, Record(limits, c, time, identifier, success).order, limits.maxLogins, identifier, id, behind);
  }

  // A queue that is longer by one at its end, and shorter by one at its head if it was full.
  lemma QueueMoves(order: seq<string>, after: seq<string>, limit: nat, identifier: string, id: string, behind: nat)
    requires behind < |order| && order[|order| - 1 - behind] == id && |order| <= limit && C.NoDuplicates(order)
    requires identifier !in order ==> after == (if |order| < limit then order else order[1..]) + [identifier]
    ensures identifier !in order && behind + 1 < limit ==>
              behind + 1 < |after| && after[|after| - 2 - behind] == id
    ensures identifier !in order && behind + 1 >= limit ==> behind + 1 == limit && id !in after
  {
    if identifier !in order && behind + 1 >= limit {
      forall i | 0 <= i < |order| - 1
        ensures order[1..][i] != id
      {
        assert order[0] != order[i + 1];
      }
    }
  }

  lemma NextMovesQueue(limits: Limits, c: LoginCache, e: Event, id: string, behind: nat)
    requires Valid(limits, c) && !limits.Off() && !limits.lockdownEnabled && !e.Clear?
    requires Queued(c, id, behind)
    requires Creates(c, e) ==> behind + 1 < limits.maxLogins
    requires limits.maxLogins > 0
    ensures Queued(Next(limits, c, e), id, if Creates(c, e) then behind + 1 else behind)
  {
    match e
    case Attempt(time, identifier, success) => RecordMovesQueue(limits, c, time, identifier, success, id, behind);
    case Sweep(time) => SweepKeepsLogins(limits, c, time);
  }

  lemma {:induction false} QueuePosition(limits: Limits, c: LoginCache, events: seq<Event>, id: string)
    requires Valid(limits, c) && !limits.Off() && !limits.lockdownEnabled && limits.maxLogins > 0
    requires Queued(c, id, 0)
    requires forall e :: e in events ==> !e.Clear?
    requires Creations(limits, c, events) < limits.maxLogins
    ensures Queued(After(limits, c, events), id, Creations(limits, c, events))
  {
    if events != [] {
      var init, last := events[..|events| - 1], events[|events| - 1];
      QueuePosition(limits, c, init, id);
      AfterValid(limits, c, init);
      NextMovesQueue(limits, After(limits, c, init), last, id, Creations(limits, c, init));
    }
  }

  lemma QueuedStays(limits: Limits, c: LoginCache, id: string, behind: nat)
    requires Valid(limits, c) && Queued(c, id, behind)
    ensures id in c.entries
  {
  }

  lemma CreatedIsLast(limits: Limits, c: LoginCache, created: Event)
    requires Valid(limits, c) && !limits.Off() && !limits.lockdownEnabled && Creates(c, created)
    ensures Valid(limits, Next(limits, c, created)) && Queued(Next(limits, c, created), created.identifier, 0)
  {
    RecordValid(limits, c, created.time, created.identifier, created.success);
  }

  // In a queue at its limit the next created record removes id; before that nothing does.
  lemma LeavesAtLimit(limits: Limits, c: LoginCache, e: Event, id: string, behind: nat)
    requires Valid(limits, c) && !limits.Off() && !limits.lockdownEnabled && limits.maxLogins > 0
    requires Queued(c, id, behind) && behind < limits.maxLogins && Creates(c, e)
    ensures id !in Next(limits, c, e).entries <==> behind + 1 == limits.maxLogins
  {
    var c' := Record(limits, c, e.time, e.identifier, e.success);
    RecordMovesQueue(limits, c, e.time, e.identifier, e.success, id, behind);
    RecordValid(limits, c, e.time, e.identifier, e.success);
    if behind + 1 < limits.maxLogins {
      QueuedStays(limits, c', id, behind + 1);
    } else {
      UnlistedIsGone(limits, c', id);
    }
  }

  lemma UnlistedIsGone(limits: Limits, c: LoginCache, id: string)
    requires Valid(limits, c) && id !in c.order
    ensures id !in c.entries
  {
  }

  /**
   Without lockdown, a record created for an identifier stays while fewer than maxLogins further
   absent identifiers are recorded, and recording the maxLogins-th removes it. Attempts for
   identifiers already on record, its own included, change nothing of this; neither does sweeping.
   */
  lemma RecordEvictedExactly(limits: Limits, c: LoginCache, created: Event, events: seq<Event>, last: Event)
    requires Valid(limits, c) && !limits.Off() && !limits.lockdownEnabled && limits.maxLogins > 0
    requires Creates(c, created)
    requires forall e :: e in events ==> !e.Clear?
    requires Creations(limits, Next(limits, c, created), events) < limits.maxLogins
    ensures var start := Next(limits, c, created);
            var now := After(limits, start, events);
            && created.identifier in now.entries
            && (Creates(now, last) ==>
                 (created.identifier !in Next(limits, now, last).entries <==>
                  Creations(limits, start, events) + 1 == limits.maxLogins))
  {
    var start := Next(limits, c, created);
    CreatedIsLast(limits, c, created);
    QueuePosition(limits, start, events, created.identifier);
    AfterValid(limits, start, events);
    var now := After(limits, start, events);
    QueuedStays(limits, now, created.identifier, Creations(limits, start, events));
    if Creates(now, last) {
      LeavesAtLimit(limits, now, last, created.identifier, Creations(limits, start, events));
    }
  }

  // ----- With lockdown -----

  lemma LockdownFailure(limits: Limits, c: LoginCache, now: int, id: string)
    requires Valid(limits, c) && !limits.Off() && limits.lockdownEnabled
    ensures var after := Record(limits, c, now, id, false);
            if |c.entries| < limits.maxLogins then
              && id in after.entries && after.entries.Keys == c.entries.Keys + {id}
              && after.entries[id].value.failedAttempts ==
                 1 + (if id in c.entries then c.entries[id].value.failedAttempts else 0)
            else after == c
  {
  }

  // The identifiers whose last attempt on record failed.
  function Failed(c: LoginCache): set<string> {
    set k | k in c.entries && c.entries[k].value.failedAttempts > 0
  }

  lemma NextFailed(limits: Limits, c: LoginCache, e: Event)
    requires Valid(limits, c) && !limits.Off() && limits.lockdownEnabled
    requires |Failed(c)| <= if limits.maxLogins > 0 then limits.maxLogins else 0
    ensures |Failed(Next(limits, c, e))| <= if limits.maxLogins > 0 then limits.maxLogins else 0
  {
    var after := Next(limits, c, e);
    match e
    case Attempt(time, id, success) =>
      if success {
        SubsetSize(Failed(after), Failed(c));
      } else {
        LockdownFailure(limits, c, time, id);
        if |c.entries| < limits.maxLogins {
          SubsetSize(Failed(after), c.entries.Keys + {id});
        }
      }
    case Sweep(time) => SweepKeepsLogins(limits, c, time);
    case Clear =>
  }

  /** With lockdown enabled never more identifiers than the limit have a failure on record. */
  lemma {:induction false} FailuresBounded(limits: Limits, events: seq<Event>)
    requires !limits.Off() && limits.lockdownEnabled
    ensures |Failed(After(limits, C.Empty(limits.CacheSize()), events))| <=
            if limits.maxLogins > 0 then limits.maxLogins else 0
  {
    if events != [] {
      var init := events[..|events| - 1];
      FailuresBounded(limits, init);
      StartValid(limits);
      AfterValid(limits, C.Empty(limits.CacheSize()), init);
      NextFailed(limits, After(limits, C.Empty(limits.CacheSize()), init), events[|events| - 1]);
    }
  }

  /**
   With lockdown enabled a failure is counted exactly while fewer records than the limit are stored, and no record
   goes before the end of a lockdown clears them all.
   */
  lemma LockdownKeepsRecords(limits: Limits, events: seq<Event>, e: Event)
    requires !limits.Off() && limits.lockdownEnabled
    ensures var c := After(limits, C.Empty(limits.CacheSize()), events);
            && (e.Clear? ==> Next(limits, c, e).entries == map[])
            && (!e.Clear? ==> c.entries.Keys <= Next(limits, c, e).entries.Keys)
            && (e.Attempt? && !e.success ==>
                 var after := Next(limits, c, e);
                 if |c.entries| < limits.maxLogins then
                   && e.identifier in after.entries
                   && after.entries[e.identifier].value.failedAttempts ==
                      1 + (if e.identifier in c.entries then c.entries[e.identifier].value.failedAttempts else 0)
                 else after == c)
  {
    var c := After(limits, C.Empty(limits.CacheSize()), events);
    StartValid(limits);
    AfterValid(limits, C.Empty(limits.CacheSize()), events);
    match e
    case Attempt(time, id, success) =>
      if !success {
        LockdownFailure(limits, c, time, id);
      }
    case Sweep(time) => SweepKeepsLogins(limits, c, time);
    case Clear =>
  }
}
