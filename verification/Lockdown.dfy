/**
 The global lockdown (internal/service/auth_service.go): any number of lockdownMode goroutines share
 the lockdown fields under one mutex. A goroutine has two critical sections with a wait between
 them. The second is two steps, because clearing the login cache takes the cache's own lock and
 other goroutines may use that cache before the mutex is released.
 */
module Lockdown {
  import opened Base
  import C = CacheSpec
  import L = LoginSpec

  datatype Goroutine = Spawned | Waiting | Leaving | Finished

  datatype World = World(
    clock: nat,
    active: bool,
    until: int,
    goroutines: seq<Goroutine>,
    mutex: Option<nat>,  // the goroutine inside its second critical section
    cancelled: bool,     // the service is shutting down
    logins: L.LoginCache)

  datatype Step =
    | Spawn
    | Enter(g: nat)   // first critical section
    | Wake(g: nat)    // timer or cancellation; takes the mutex and clears the login cache
    | Leave(g: nat)   // resets the fields and releases the mutex
    | IsInLockdown(answer: bool)
    | Record(identifier: string, success: bool)
    | Tick(time: nat)
    | Cancel

  ghost predicate Enabled(w: World, s: Step) {
    match s
    case Spawn => true
    case Enter(g) => g < |w.goroutines| && w.goroutines[g] == Spawned && w.mutex == None
    case Wake(g) =>
      g < |w.goroutines| && w.goroutines[g] == Waiting && w.mutex == None && (w.clock >= w.until || w.cancelled)
    case Leave(g) => g < |w.goroutines| && w.goroutines[g] == Leaving
    case IsInLockdown(answer) => w.mutex == None && answer == w.active
    case Record(_, _) => true
    case Tick(time) => w.clock <= time
    case Cancel => true
  }

  ghost function Next(limits: L.Limits, w: World, s: Step): World
    requires Enabled(w, s)
  {
    match s
    case Spawn => w.(goroutines := w.goroutines + [Spawned])
    case Enter(g) =>
      if w.active then w.(goroutines := w.goroutines[g := Finished])
      else w.(active := true, until := w.clock + limits.timeout * SECOND, goroutines := w.goroutines[g := Waiting])
    case Wake(g) =>
      w.(mutex := Some(g), logins := C.Empty(w.logins.maxSize), goroutines := w.goroutines[g := Leaving])
    case Leave(g) => w.(active := false, until := 0, mutex := None, goroutines := w.goroutines[g := Finished])
    case IsInLockdown(_) => w
    case Record(identifier, success) =>
      w.(logins := L.Record(limits, w.logins, w.clock, identifier, success))
    case Tick(time) => w.(clock := time)
    case Cancel => w.(cancelled := true)
  }

  ghost predicate Init(w: World) {
    !w.active && w.goroutines == [] && w.mutex == None && !w.cancelled
  }

  ghost predicate IsRun(limits: L.Limits, worlds: seq<World>, steps: seq<Step>) {
    && |worlds| == |steps| + 1 && Init(worlds[0])
    && forall n :: 0 <= n < |steps| ==>
         Enabled(worlds[n], steps[n]) && worlds[n + 1] == Next(limits, worlds[n], steps[n])
  }

  // The lockdown fields of a world.
  ghost predicate Agrees(w: World, clock: nat, active: bool, until: int) {
    w.clock == clock && w.active == active && w.until == until
  }

  // What the first critical section does to the fields, and the second to fields and cache.
  lemma EnterFields(limits: L.Limits, w: World, g: nat)
    requires Enabled(w, Enter(g))
    ensures var t := Next(limits, w, Enter(g));
            && Agrees(t, w.clock, true, if w.active then w.until else w.clock + limits.timeout * SECOND)
            && (t.goroutines[g] == Waiting <==> !w.active)
  {
  }

  lemma LeaveFields(limits: L.Limits, w: World, g: nat)
    requires Enabled(w, Wake(g))
    ensures Enabled(Next(limits, w, Wake(g)), Leave(g))
    ensures var t := Next(limits, Next(limits, w, Wake(g)), Leave(g));
            Agrees(t, w.clock, false, 0) && t.logins == C.Empty(w.logins.maxSize)
  {
  }

  // ----- active means exactly one goroutine is between its critical sections -----

  predicate Inside(g: Goroutine) {
    g == Waiting || g == Leaving
  }

  ghost predicate ExactlyOneInside(w: World) {
    && (exists g :: 0 <= g < |w.goroutines| && Inside(w.goroutines[g]))
    && forall g, h | 0 <= g < |w.goroutines| && 0 <= h < |w.goroutines| ::
         Inside(w.goroutines[g]) && Inside(w.goroutines[h]) ==> g == h
  }

  ghost predicate NoneInside(w: World) {
    forall g :: 0 <= g < |w.goroutines| ==> !Inside(w.goroutines[g])
  }

  ghost predicate Consistent(w: World) {
    && (if w.active then ExactlyOneInside(w) else NoneInside(w))
    && (w.mutex.Some? ==> w.mutex.value < |w.goroutines|)
    && forall g :: 0 <= g < |w.goroutines| ==> (w.goroutines[g] == Leaving <==> w.mutex == Some(g))
  }

  lemma NextConsistent(limits: L.Limits, w: World, s: Step)
    requires Consistent(w) && Enabled(w, s)
    ensures Consistent(Next(limits, w, s))
  {
    var w' := Next(limits, w, s);
    if s.Enter? && !w.active {
      assert Inside(w'.goroutines[s.g]);
    } else if s.Wake? {
      assert Inside(w.goroutines[s.g]) && Inside(w'.goroutines[s.g]);
    } else if s.Leave? {
      assert Inside(w.goroutines[s.g]);
    } else if s.Spawn? && w.active {
      var g :| 0 <= g < |w.goroutines| && Inside(w.goroutines[g]);
      assert Inside(w'.goroutines[g]);
    } else if s.Enter? {
      var g :| 0 <= g < |w.goroutines| && Inside(w.goroutines[g]);
      assert Inside(w'.goroutines[g]);
    }
  }

  lemma {:induction false} ActiveIffOneInside(limits: L.Limits, worlds: seq<World>, steps: seq<Step>, n: nat)
    requires IsRun(limits, worlds, steps) && n < |worlds|
    ensures Consistent(worlds[n])
    ensures worlds[n].active <==> ExactlyOneInside(worlds[n])
  {
    if n > 0 {
      ActiveIffOneInside(limits, worlds, steps, n - 1);
      NextConsistent(limits, worlds[n - 1], steps[n - 1]);
    }
  }

  // ----- until is fixed for the length of a lockdown, and its end is visible only after a clear -----

  lemma {:induction false} UntilFixed(limits: L.Limits, worlds: seq<World>, steps: seq<Step>, i: nat, j: nat)
    requires IsRun(limits, worlds, steps) && i <= j < |worlds|
    requires forall n :: i <= n <= j ==> worlds[n].active
    ensures worlds[j].until == worlds[i].until
  {
    if i < j {
      UntilFixed(limits, worlds, steps, i, j - 1);
      assert worlds[j - 1].active && worlds[j].active;
    }
  }

  // A lockdown that nobody leaves goes on.
  lemma {:induction false} GoesOn(limits: L.Limits, worlds: seq<World>, steps: seq<Step>, i: nat, j: nat)
    requires IsRun(limits, worlds, steps) && i <= j < |worlds|
    requires worlds[i].active && worlds[i].mutex == None
    requires forall n :: i <= n < j ==> !steps[n].Wake?
    ensures worlds[j].active && worlds[j].mutex == None && worlds[j].until == worlds[i].until
  {
    if i < j {
      GoesOn(limits, worlds, steps, i, j - 1);
      ActiveIffOneInside(limits, worlds, steps, j - 1);
    }
  }

  // The first wake-up from i on, when there is one before j.
  lemma {:induction false} FirstWake(steps: seq<Step>, i: nat, j: nat) returns (k: nat)
    requires i <= j <= |steps|
    ensures i <= k <= j && (k < j ==> steps[k].Wake?) && forall n :: i <= n < k ==> !steps[n].Wake?
    decreases j - i
  {
    if i == j || steps[i].Wake? {
      k := i;
    } else {
      k := FirstWake(steps, i + 1, j);
    }
  }

  // Step k ends the lockdown seen at i: it empties the login cache, and it is not early.
  ghost predicate EndsLockdown(worlds: seq<World>, steps: seq<Step>, i: nat, k: nat)
    requires i <= k < |steps| && |worlds| == |steps| + 1
  {
    && steps[k].Wake?
    && worlds[k + 1].logins.entries == map[] && worlds[k + 1].logins.order == []
    && (worlds[k].clock >= worlds[i].until || worlds[k].cancelled)
  }

  /**
   Between a call of IsInLockdown that says yes and a later one that says no, the login cache was
   cleared, and not before the announced end unless the service is shutting down.
   */
  lemma ClearedBeforeEndIsSeen(limits: L.Limits, worlds: seq<World>, steps: seq<Step>, i: nat, j: nat)
    requires IsRun(limits, worlds, steps) && i < j < |steps|
    requires steps[i] == IsInLockdown(true) && steps[j] == IsInLockdown(false)
    ensures exists k :: i < k < j && EndsLockdown(worlds, steps, i, k)
  {
    var k := FirstWake(steps, i, j);
    GoesOn(limits, worlds, steps, i, k);
    assert k != j;
    assert EndsLockdown(worlds, steps, i, k);
  }
}
