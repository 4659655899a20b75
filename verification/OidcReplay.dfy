/**
 Tickets and codes work once. Code replay (RFC 6749 section 4.1.2): for two minutes after a code was
 redeemed, unless 256 further codes are redeemed in that time, presenting it again is refused and revokes
 what it was exchanged for.
 */
module OidcReplay {
  import opened Base
  import opened OidcModel
  import opened OidcProtocol
  import C = CacheSpec

  // ----- A record in the used-code cache -----

  // The records that expire after the deadline.
  function Newer(used: C.Cache<string>, deadline: int): set<string> {
    set k | k in used.entries && used.entries[k].expiresAt.Some? && used.entries[k].expiresAt.value > deadline
  }

  ghost predicate HashedAndTimed(used: C.Cache<string>) {
    forall k :: k in used.entries ==> k != "" && used.entries[k].expiresAt.Some?
  }

  // h is recorded until the deadline, nothing else expires just then, and at most count records are newer.
  ghost predicate Recorded(used: C.Cache<string>, h: string, sub: string, deadline: int, count: nat) {
    && h in used.entries && used.entries[h] == C.Entry(sub, Some(deadline))
    && HashedAndTimed(used)
    && (forall k :: k in used.entries && k != h ==> used.entries[k].expiresAt.value != deadline)
    && |Newer(used, deadline)| <= count
  }

  lemma FullOfNewer(used: C.Cache<string>, now: int, h: string, sub: string, deadline: int, count: nat)
    requires Recorded(used, h, sub, deadline, count) && now <= deadline && C.Victim(used, now, h)
    ensures |used.entries| <= count + 1
  {
    assert !C.Expired(used.entries[h], now);
    assert C.Soonest(used, h);
    assert used.entries.Keys == Newer(used, deadline) + {h};
  }

  lemma MarkKeeps(used: C.Cache<string>, now: int, key: string, value: string, evicted: Option<string>, h: string,
                  sub: string, deadline: int, count: nat)
    requires Recorded(used, h, sub, deadline, count)
    requires key != h && key != "" && now <= deadline < now + USED_CODE_TTL
    requires used.maxSize == CACHE_SIZE && count + 1 < CACHE_SIZE && C.MayEvict(used, now, key, evicted)
    ensures Recorded(C.Set(used, now, key, value, USED_CODE_TTL, evicted), h, sub, deadline, count + 1)
  {
    if evicted == Some(h) {
      FullOfNewer(used, now, h, sub, deadline, count);
    }
    var used' := C.Set(used, now, key, value, USED_CODE_TTL, evicted);
    assert Newer(used', deadline) <= Newer(used, deadline) + {key};
    SubsetSize(Newer(used', deadline), Newer(used, deadline) + {key});
  }

  lemma SweepKeeps(used: C.Cache<string>, now: int, h: string, sub: string, deadline: int, count: nat)
    requires Recorded(used, h, sub, deadline, count) && now <= deadline
    ensures Recorded(C.Sweep(used, now), h, sub, deadline, count)
  {
    SubsetSize(Newer(C.Sweep(used, now), deadline), Newer(used, deadline));
  }

  lemma FirstMark(used: C.Cache<string>, now: int, h: string, sub: string, evicted: Option<string>)
    requires HashedAndTimed(used) && h != ""
    requires forall k :: k in used.entries ==> used.entries[k].expiresAt.value < now + USED_CODE_TTL
    ensures Recorded(C.Set(used, now, h, sub, USED_CODE_TTL, evicted), h, sub, now + USED_CODE_TTL, 0)
  {
    assert Newer(C.Set(used, now, h, sub, USED_CODE_TTL, evicted), now + USED_CODE_TTL) == {};
  }

  // ----- One step -----

  function UsedAfter(cfg: Config, s: State, e: Event): C.Cache<string> {
    var entry := Redeemed(cfg, s, e);
    if entry.Some? then
      C.Set(s.used, e.time, cfg.hash(e.call.token.code), entry.value.userinfo.sub, USED_CODE_TTL, e.call.evicted)
    else if e.call.SweepCaches? then C.Sweep(s.used, e.time)
    else s.used
  }

  lemma NextUsed(cfg: Config, s: State, e: Event)
    ensures Next(cfg, s, e).0.used == UsedAfter(cfg, s, e)
  {
  }

  lemma NextCodes(cfg: Config, s: State, e: Event, h: string)
    requires h in Next(cfg, s, e).0.codes.entries
    ensures h in s.codes.entries || (e.call.Complete? && h == cfg.hash(e.call.code))
    ensures Redeemed(cfg, s, e).Some? ==> h != cfg.hash(e.call.token.code)
  {
  }

  // ----- Runs -----

  ghost predicate ClockAdvances(r: Run) {
    forall i, j :: 0 <= i < j < |r.events| ==> r.events[i].time < r.events[j].time
  }

  ghost predicate RedeemedAt(cfg: Config, r: Run, n: nat)
    requires n < |r.events| && |r.states| == |r.events| + 1
  {
    Redeemed(cfg, r.states[n], r.events[n]).Some?
  }

  // The number of codes redeemed by the events from i up to n.
  ghost function Redemptions(cfg: Config, r: Run, i: nat, n: nat): nat
    requires n <= |r.events| && |r.states| == |r.events| + 1
  {
    if n <= i then 0 else Redemptions(cfg, r, i, n - 1) + if RedeemedAt(cfg, r, n - 1) then 1 else 0
  }

  lemma StepUsed(cfg: Config, r: Run, n: nat)
    requires IsRun(cfg, r) && n < |r.events|
    ensures r.states[n + 1].used == UsedAfter(cfg, r.states[n], r.events[n])
    ensures RedeemedAt(cfg, r, n) ==>
              var (e, call) := (r.events[n], r.events[n].call);
              C.MayEvict(r.states[n].used, e.time, cfg.hash(call.token.code), call.evicted)
  {
    assert Step(cfg, r, n);
    NextUsed(cfg, r.states[n], r.events[n]);
  }

  ghost predicate UsedBy(s: State) {
    && HashedAndTimed(s.used)
    && forall k :: k in s.used.entries ==> s.used.entries[k].expiresAt.value <= s.clock + USED_CODE_TTL
  }

  lemma {:induction false} UsedInOrder(cfg: Config, r: Run, n: nat)
    requires ValidConfig(cfg) && IsRun(cfg, r) && n < |r.states|
    ensures UsedBy(r.states[n])
  {
    if n > 0 {
      UsedInOrder(cfg, r, n - 1);
      StepUsed(cfg, r, n - 1);
      StepGrows(cfg, r, n - 1);
    }
  }

  lemma StepCodes(cfg: Config, r: Run, n: nat, h: string)
    requires IsRun(cfg, r) && n < |r.events| && h in r.states[n + 1].codes.entries
    ensures h in r.states[n].codes.entries || (r.events[n].call.Complete? && h == cfg.hash(r.events[n].call.code))
    ensures RedeemedAt(cfg, r, n) ==> h != cfg.hash(r.events[n].call.token.code)
  {
    assert Step(cfg, r, n);
    NextCodes(cfg, r.states[n], r.events[n], h);
  }

  // A redeemed code was drawn by an earlier completion.
  lemma RedeemedWasMinted(cfg: Config, r: Run, i: nat)
    requires ValidConfig(cfg) && IsRun(cfg, r) && i < |r.events| && RedeemedAt(cfg, r, i)
    ensures r.events[i].call.token.code in r.states[i].minted
  {
    RunWellFormed(cfg, r, i);
    var h := cfg.hash(r.events[i].call.token.code);
    assert GoodCode(cfg, r.states[i].minted, h, r.states[i].codes.entries[h]);
    var x :| x in r.states[i].minted && cfg.hash(x) == h;
  }

  // Once redeemed, a code never comes back.
  lemma {:induction false} RedeemedIsGone(cfg: Config, r: Run, i: nat, n: nat)
    requires ValidConfig(cfg) && IsRun(cfg, r) && i < n < |r.states| && RedeemedAt(cfg, r, i)
    ensures cfg.hash(r.events[i].call.token.code) !in r.states[n].codes.entries
  {
    var h := cfg.hash(r.events[i].call.token.code);
    if h in r.states[n].codes.entries {
      StepCodes(cfg, r, n - 1, h);
      if n - 1 > i {
        RedeemedIsGone(cfg, r, i, n - 1);
        RedeemedWasMinted(cfg, r, i);
        MintedGrows(cfg, r, i, n - 1);
        StepGrows(cfg, r, n - 1);
      }
    }
  }

  /** Each code is redeemed at most once in a run. */
  lemma RedeemedOnce(cfg: Config, r: Run, i: nat, j: nat)
    requires ValidConfig(cfg) && IsRun(cfg, r) && i <= j < |r.events|
    requires RedeemedAt(cfg, r, i) && RedeemedAt(cfg, r, j)
    requires r.events[i].call.token.code == r.events[j].call.token.code
    ensures i == j
  {
    if i < j {
      RedeemedIsGone(cfg, r, i, j);
    }
  }

  // ----- Tickets -----

  // The event turns its ticket into a code.
  ghost predicate Completes(r: Run, n: nat)
    requires n < |r.events| && |r.states| == |r.events| + 1
  {
    var e := r.events[n];
    e.call.Complete? && CompleteRequest(r.states[n], e.time, e.call.completed, e.call.user).Some?
  }

  lemma NextTickets(cfg: Config, s: State, e: Event, k: string)
    requires k in Next(cfg, s, e).0.tickets.entries
    ensures k in s.tickets.entries || (e.call.Authorize? && k == e.call.ticket)
    ensures e.call.Complete? && CompleteRequest(s, e.time, e.call.completed, e.call.user).Some? ==>
              k != e.call.completed
  {
  }

  lemma StepTickets(cfg: Config, r: Run, n: nat, k: string)
    requires IsRun(cfg, r) && n < |r.events| && k in r.states[n + 1].tickets.entries
    ensures k in r.states[n].tickets.entries || (r.events[n].call.Authorize? && k == r.events[n].call.ticket)
    ensures Completes(r, n) ==> k != r.events[n].call.completed
  {
    assert Step(cfg, r, n);
    NextTickets(cfg, r.states[n], r.events[n], k);
  }

  lemma {:induction false} TicketsDrawn(cfg: Config, r: Run, n: nat, k: string)
    requires IsRun(cfg, r) && n < |r.states| && k in r.states[n].tickets.entries
    ensures k in r.states[n].minted
  {
    assert n > 0;
    StepTickets(cfg, r, n - 1, k);
    StepGrows(cfg, r, n - 1);
    if k in r.states[n - 1].tickets.entries {
      TicketsDrawn(cfg, r, n - 1, k);
    }
  }

  // Once completed, a ticket never comes back.
  lemma {:induction false} CompletedIsGone(cfg: Config, r: Run, i: nat, n: nat)
    requires IsRun(cfg, r) && i < n < |r.states| && Completes(r, i)
    ensures r.events[i].call.completed !in r.states[n].tickets.entries
  {
    var k := r.events[i].call.completed;
    if k in r.states[n].tickets.entries {
      StepTickets(cfg, r, n - 1, k);
      if n - 1 > i {
        CompletedIsGone(cfg, r, i, n - 1);
        TicketsDrawn(cfg, r, i, k);
        MintedGrows(cfg, r, i, n - 1);
        StepGrows(cfg, r, n - 1);
      }
    }
  }

  /** Each ticket is completed at most once in a run, so one authorization request yields one code. */
  lemma CompletedOnce(cfg: Config, r: Run, i: nat, j: nat)
    requires IsRun(cfg, r) && i <= j < |r.events| && Completes(r, i) && Completes(r, j)
    requires r.events[i].call.completed == r.events[j].call.completed
    ensures i == j
  {
    if i < j {
      CompletedIsGone(cfg, r, i, j);
    }
  }

  // ----- The record over a run -----

  ghost predicate RecordedAt(cfg: Config, r: Run, i: nat, n: nat)
    requires i < |r.events| && n < |r.states| == |r.events| + 1 && RedeemedAt(cfg, r, i)
  {
    Recorded(r.states[n].used, cfg.hash(r.events[i].call.token.code),
             Redeemed(cfg, r.states[i], r.events[i]).value.userinfo.sub, r.events[i].time + USED_CODE_TTL,
             Redemptions(cfg, r, i + 1, n))
  }

  lemma UsedValid(cfg: Config, r: Run, n: nat)
    requires ValidConfig(cfg) && IsRun(cfg, r) && n < |r.states|
    ensures C.Valid(r.states[n].used) && r.states[n].used.maxSize == CACHE_SIZE
  {
    RunWellFormed(cfg, r, n);
  }

  // What is on record before event i was redeemed before it.
  lemma EarlierDeadlines(cfg: Config, r: Run, i: nat)
    requires ValidConfig(cfg) && IsRun(cfg, r) && ClockAdvances(r) && i < |r.events|
    ensures UsedBy(r.states[i])
    ensures var used := r.states[i].used;
            forall k :: k in used.entries ==> used.entries[k].expiresAt.value < r.events[i].time + USED_CODE_TTL
  {
    UsedInOrder(cfg, r, i);
    if i > 0 {
      StepGrows(cfg, r, i - 1);
      assert r.events[i - 1].time < r.events[i].time;
    }
  }

  lemma RecordBegins(cfg: Config, r: Run, i: nat)
    requires ValidConfig(cfg) && IsRun(cfg, r) && ClockAdvances(r) && i < |r.events| && RedeemedAt(cfg, r, i)
    ensures RecordedAt(cfg, r, i, i + 1)
  {
    EarlierDeadlines(cfg, r, i);
    StepUsed(cfg, r, i);
    FirstMark(r.states[i].used, r.events[i].time, cfg.hash(r.events[i].call.token.code),
              Redeemed(cfg, r.states[i], r.events[i]).value.userinfo.sub, r.events[i].call.evicted);
  }

  lemma RecordStays(cfg: Config, r: Run, i: nat, n: nat)
    requires ValidConfig(cfg) && IsRun(cfg, r) && ClockAdvances(r) && i < n < |r.events| && RedeemedAt(cfg, r, i)
    requires RecordedAt(cfg, r, i, n) && r.events[n].time <= r.events[i].time + USED_CODE_TTL
    requires Redemptions(cfg, r, i + 1, n + 1) < CACHE_SIZE
    ensures RecordedAt(cfg, r, i, n + 1)
  {
    var deadline := r.events[i].time + USED_CODE_TTL;
    var h := cfg.hash(r.events[i].call.token.code);
    var sub := Redeemed(cfg, r.states[i], r.events[i]).value.userinfo.sub;
    var count := Redemptions(cfg, r, i + 1, n);
    var e := r.events[n];
    StepUsed(cfg, r, n);
    if RedeemedAt(cfg, r, n) {
      var key := cfg.hash(e.call.token.code);
      UsedValid(cfg, r, n);
      RedeemedIsGone(cfg, r, i, n);
      assert r.events[i].time < e.time;
      MarkKeeps(r.states[n].used, e.time, key, Redeemed(cfg, r.states[n], e).value.userinfo.sub, e.call.evicted, h, sub,
                deadline, count);
    } else if e.call.SweepCaches? {
      SweepKeeps(r.states[n].used, e.time, h, sub, deadline, count);
    }
  }

  lemma {:induction false} RedemptionsGrow(cfg: Config, r: Run, i: nat, m: nat, n: nat)
    requires m <= n <= |r.events| && |r.states| == |r.events| + 1
    ensures Redemptions(cfg, r, i, m) <= Redemptions(cfg, r, i, n)
  {
    if m < n {
      RedemptionsGrow(cfg, r, i, m, n - 1);
    }
  }

  lemma {:induction false} RecordKept(cfg: Config, r: Run, i: nat, n: nat)
    requires ValidConfig(cfg) && IsRun(cfg, r) && ClockAdvances(r) && i < n <= |r.events| && RedeemedAt(cfg, r, i)
    requires r.events[n - 1].time <= r.events[i].time + USED_CODE_TTL
    requires Redemptions(cfg, r, i + 1, n) < CACHE_SIZE
    ensures RecordedAt(cfg, r, i, n)
  {
    if n == i + 1 {
      RecordBegins(cfg, r, i);
    } else {
      RedemptionsGrow(cfg, r, i + 1, n - 1, n);
      assert r.events[n - 2].time < r.events[n - 1].time;
      RecordKept(cfg, r, i, n - 1);
      RecordStays(cfg, r, i, n - 1);
    }
  }

  lemma ReplayRefused(cfg: Config, s: State, e: Event, sub: string)
    requires e.call.Token? && e.call.token.grantType == "authorization_code"
    requires AuthenticateClient(cfg, e.call.token, e.call.basic).ClientOk?
    requires cfg.hash(e.call.token.code) !in s.codes.entries
    requires C.Get(s.used, e.time, cfg.hash(e.call.token.code)) == Some(sub)
    ensures Next(cfg, s, e).1 == Refused("invalid_grant") && sub !in Next(cfg, s, e).0.sessions
  {
  }

  /**
   A code redeemed at event i and presented again by any authenticated client at event j, within
   120 seconds and with fewer than 256 redemptions in between, is refused, and no session is left for
   the sub it was redeemed for.
   */
  lemma ReplayRevokes(cfg: Config, r: Run, i: nat, j: nat)
    requires ValidConfig(cfg) && IsRun(cfg, r) && ClockAdvances(r) && i < j < |r.events| && RedeemedAt(cfg, r, i)
    requires r.events[j].call.Token? && r.events[j].call.token.grantType == "authorization_code"
    requires r.events[j].call.token.code == r.events[i].call.token.code
    requires exists id :: ComesFrom(cfg, r.events[j].call.token, r.events[j].call.basic, id)
    requires r.events[j].time <= r.events[i].time + 120 * SECOND
    requires Redemptions(cfg, r, i + 1, j) < 256
    ensures r.answers[j] == Refused("invalid_grant")
    ensures Redeemed(cfg, r.states[i], r.events[i]).value.userinfo.sub !in r.states[j + 1].sessions
  {
    assert r.events[j - 1].time <= r.events[j].time;
    RecordKept(cfg, r, i, j);
    RedeemedIsGone(cfg, r, i, j);
    var id :| ComesFrom(cfg, r.events[j].call.token, r.events[j].call.basic, id);
    ClientExactly(cfg, r.events[j].call.token, r.events[j].call.basic, id);
    assert Step(cfg, r, j);
    ReplayRefused(cfg, r.states[j], r.events[j], Redeemed(cfg, r.states[i], r.events[i]).value.userinfo.sub);
  }

  // ----- When the record is gone -----

  // A record stems from the redemption of its code.
  lemma {:induction false} RecordOrigin(cfg: Config, r: Run, n: nat, k: string) returns (m: nat)
    requires ValidConfig(cfg) && IsRun(cfg, r) && n < |r.states| && k in r.states[n].used.entries
    ensures m < n && RedeemedAt(cfg, r, m) && cfg.hash(r.events[m].call.token.code) == k
    ensures r.states[n].used.entries[k].expiresAt == Some(r.events[m].time + 120 * SECOND)
  {
    assert n > 0;
    StepUsed(cfg, r, n - 1);
    if RedeemedAt(cfg, r, n - 1) && cfg.hash(r.events[n - 1].call.token.code) == k {
      m := n - 1;
    } else {
      m := RecordOrigin(cfg, r, n - 1, k);
    }
  }

  lemma UnknownReplay(cfg: Config, s: State, e: Event)
    requires e.call.Token? && e.call.token.grantType == "authorization_code"
    requires cfg.hash(e.call.token.code) !in s.codes.entries
    requires C.Get(s.used, e.time, cfg.hash(e.call.token.code)) == None
    ensures Next(cfg, s, e).1.Refused? && Next(cfg, s, e).0.sessions == s.sessions
  {
  }

  /** Presented again later than 120 seconds after it was redeemed, a code is refused and revokes nothing. */
  lemma LateReplay(cfg: Config, r: Run, i: nat, j: nat)
    requires ValidConfig(cfg) && IsRun(cfg, r) && i < j < |r.events| && RedeemedAt(cfg, r, i)
    requires r.events[j].call.Token? && r.events[j].call.token.grantType == "authorization_code"
    requires r.events[j].call.token.code == r.events[i].call.token.code
    requires r.events[j].time > r.events[i].time + 120 * SECOND
    ensures r.answers[j].Refused? && r.states[j + 1].sessions == r.states[j].sessions
  {
    var k := cfg.hash(r.events[j].call.token.code);
    RedeemedIsGone(cfg, r, i, j);
    if k in r.states[j].used.entries {
      var m := RecordOrigin(cfg, r, j, k);
      RedeemedOnce(cfg, r, if m < i then m else i, if m < i then i else m);
    }
    assert Step(cfg, r, j);
    UnknownReplay(cfg, r.states[j], r.events[j]);
  }

  predicate Sized(s: State) {
    s.tickets.maxSize == 256 && s.codes.maxSize == 256 && s.used.maxSize == 256
  }

  lemma TokenSizes(cfg: Config, s: State, now: nat, call: Call)
    requires Sized(s) && call.Token?
    ensures Sized(TokenCall(cfg, s, now, call).0)
  {
  }

  lemma NextSizes(cfg: Config, s: State, e: Event)
    requires Sized(s)
    ensures Sized(Next(cfg, s, e).0)
  {
    if e.call.Token? {
      TokenSizes(cfg, Drawing(s, e), e.time, e.call);
    }
  }

  lemma {:induction false} RunSizes(cfg: Config, r: Run, n: nat)
    requires IsRun(cfg, r) && n < |r.states|
    ensures Sized(r.states[n])
  {
    if n > 0 {
      RunSizes(cfg, r, n - 1);
      assert Step(cfg, r, n - 1);
      NextSizes(cfg, r.states[n - 1], r.events[n - 1]);
    }
  }

  /** No more than 256 tickets, codes and records of used codes are ever stored. */
  lemma CachesBounded(cfg: Config, r: Run, n: nat)
    requires ValidConfig(cfg) && IsRun(cfg, r) && n < |r.states|
    ensures |r.states[n].tickets.entries| <= 256 && |r.states[n].codes.entries| <= 256
    ensures |r.states[n].used.entries| <= 256
  {
    RunSizes(cfg, r, n);
    RunWellFormed(cfg, r, n);
  }
}
