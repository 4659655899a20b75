/**
 How a run with concurrent requests can go on: from every reachable world there is a continuation in which
 the sessions are dropped and the caches run empty, and one in which the user of a code signs in again.
 */
module OidcContinuation {
  import opened Base
  import opened OidcModel
  import opened OidcTable
  import opened OidcInterleaving
  import C = CacheSpec
  import P = OidcProtocol

  function Last(worlds: seq<World>): World
    requires worlds != []
  {
    worlds[|worlds| - 1]
  }

  lemma Append(cfg: Config, worlds: seq<World>, steps: seq<Step>, s: Step) returns (ws: seq<World>, ss: seq<Step>)
    requires IsRun(cfg, worlds, steps) && Enabled(cfg, Last(worlds), s)
    ensures IsRun(cfg, ws, ss) && ws == worlds + [Next(cfg, Last(worlds), s)] && ss == steps + [s]
  {
    ws, ss := worlds + [Next(cfg, Last(worlds), s)], steps + [s];
    forall n | 0 <= n < |ss|
      ensures Moves(cfg, ws, ss, n)
    {
      if n < |steps| {
        assert Moves(cfg, worlds, steps, n);
      }
    }
  }

  // ----- Everything stored is gone -----

  lemma DropsOne(sessions: Table, sub: string)
    requires sub in sessions
    ensures |sessions - {sub}| < |sessions|
  {
    assert (sessions - {sub}).Keys == sessions.Keys - {sub};
    SubsetSize((sessions - {sub}).Keys, sessions.Keys);
  }

  // Every session is dropped; only the rows and their origins change.
  lemma {:induction false} DropAll(cfg: Config, worlds: seq<World>, steps: seq<Step>)
    returns (ws: seq<World>, ss: seq<Step>)
    requires IsRun(cfg, worlds, steps)
    ensures IsRun(cfg, ws, ss) && worlds <= ws && steps <= ss
    ensures Last(ws).sessions == map[]
    ensures Last(ws) == Last(worlds).(sessions := Last(ws).sessions, origins := Last(ws).origins)
    decreases |Last(worlds).sessions|
  {
    ws, ss := worlds, steps;
    if Last(worlds).sessions != map[] {
      var sub :| sub in Last(worlds).sessions;
      ws, ss := Append(cfg, worlds, steps, DropSession(sub));
      DropsOne(Last(worlds).sessions, sub);
      ws, ss := DropAll(cfg, ws, ss);
    }
  }

  ghost predicate Timed<T>(c: C.Cache<T>) {
    forall k :: k in c.entries ==> c.entries[k].expiresAt.Some?
  }

  lemma SetTimed<T>(c: C.Cache<T>, now: int, key: string, value: T, ttl: int, evicted: Option<string>)
    requires Timed(c) && ttl > 0
    ensures Timed(C.Set(c, now, key, value, ttl, evicted))
  {
  }

  lemma NextTimed(cfg: Config, w: World, s: Step)
    requires Timed(w.codes) && Timed(w.used) && Enabled(cfg, w, s)
    ensures Timed(Next(cfg, w, s).codes) && Timed(Next(cfg, w, s).used)
  {
    match s
    case StoreCode(_, entry, evicted) => SetTimed(w.codes, w.clock, entry.codeHash, entry, P.CODE_TTL, evicted);
    case MarkUsed(h, evicted) =>
      var me := w.handlers[h];
      SetTimed(w.used, w.clock, cfg.hash(me.req.code), me.phase.entry.userinfo.sub, P.USED_CODE_TTL, evicted);
    case _ =>
  }

  lemma {:induction false} RunTimed(cfg: Config, worlds: seq<World>, steps: seq<Step>, n: nat)
    requires IsRun(cfg, worlds, steps) && n < |worlds|
    ensures Timed(worlds[n].codes) && Timed(worlds[n].used)
  {
    if n > 0 {
      RunTimed(cfg, worlds, steps, n - 1);
      assert Moves(cfg, worlds, steps, n - 1);
      NextTimed(cfg, worlds[n - 1], steps[n - 1]);
    }
  }

  // A time after every deadline.
  lemma {:induction false} AfterAll<T>(entries: map<string, C.Entry<T>>) returns (t: nat)
    ensures forall k :: k in entries && entries[k].expiresAt.Some? ==> entries[k].expiresAt.value < t
    decreases |entries|
  {
    t := 0;
    if entries != map[] {
      var x :| x in entries;
      var rest := entries - {x};
      assert rest.Keys == entries.Keys - {x};
      SubsetSize(rest.Keys, entries.Keys);
      t := AfterAll(rest);
      assert forall k :: k in entries ==> k == x || k in rest;
      if entries[x].expiresAt.Some? && t <= entries[x].expiresAt.value {
        t := entries[x].expiresAt.value + 1;
      }
    }
  }

  lemma SweptEmpty<T>(c: C.Cache<T>, now: int)
    requires Timed(c)
    requires forall k :: k in c.entries && c.entries[k].expiresAt.Some? ==> c.entries[k].expiresAt.value < now
    ensures C.Sweep(c, now).entries == map[]
  {
  }

  // Nothing is stored any more, and requests and refreshes are where they were.
  predicate Cleared(w: World, w': World) {
    && w'.sessions == map[] && w'.codes.entries == map[] && w'.used.entries == map[]
    && w'.handlers == w.handlers && w'.renewals == w.renewals
  }

  lemma Clear(cfg: Config, worlds: seq<World>, steps: seq<Step>) returns (ws: seq<World>, ss: seq<Step>)
    requires IsRun(cfg, worlds, steps)
    ensures IsRun(cfg, ws, ss) && worlds <= ws && steps <= ss && Cleared(Last(worlds), Last(ws))
  {
    ws, ss := DropAll(cfg, worlds, steps);
    RunTimed(cfg, ws, ss, |ws| - 1);
    var w := Last(ws);
    var a := AfterAll(w.codes.entries);
    var b := AfterAll(w.used.entries);
    ws, ss := Append(cfg, ws, ss, Tick(w.clock + a + b));
    SweptEmpty(w.codes, w.clock + a + b);
    SweptEmpty(w.used, w.clock + a + b);
    ws, ss := Append(cfg, ws, ss, Sweep);
  }

  // ----- New strings -----

  lemma {:induction false} LongerThanAll(drawn: set<string>) returns (n: nat)
    ensures forall x :: x in drawn ==> |x| < n
  {
    n := 0;
    if drawn != {} {
      var x :| x in drawn;
      n := LongerThanAll(drawn - {x});
      if n <= |x| {
        n := |x| + 1;
      }
    }
  }

  lemma Fresh(drawn: set<string>) returns (x: string)
    ensures x !in drawn
  {
    var n := LongerThanAll(drawn);
    x := seq(n, i => 'x');
  }

  lemma FreshPair(drawn: set<string>) returns (x: string, y: string)
    ensures x !in drawn && y !in drawn && x != y
  {
    x := Fresh(drawn);
    y := Fresh(drawn + {x});
  }

  // ----- A request comes to its end -----

  // Handler h has the entry in hand, may exchange it, and no session is in its way.
  ghost predicate InHand(cfg: Config, w: World, h: nat, entry: CodeEntry) {
    w.sessions == map[] && h < |w.handlers| && P.ExchangeAllowed(cfg, entry, w.handlers[h].req)
  }

  lemma Marks(cfg: Config, w: World, entry: CodeEntry, h: nat)
    requires InHand(cfg, w, h, entry) && w.handlers[h].phase == Holding(entry) && w.used.entries == map[]
    ensures var w' := Next(cfg, w, MarkUsed(h, None));
            && Enabled(cfg, w, MarkUsed(h, None)) && w'.renewals == w.renewals
            && InHand(cfg, w', h, entry) && w'.handlers[h].phase == Marked(entry)
  {
  }

  lemma Issues(cfg: Config, w: World, entry: CodeEntry, h: nat)
    requires InHand(cfg, w, h, entry) && w.handlers[h].phase == Marked(entry)
    ensures var w' := Next(cfg, w, Issue(h));
            && entry.userinfo.sub in w'.sessions && OriginOf(w', entry.userinfo.sub) == Some(h)
            && w'.renewals == w.renewals
  {
  }

  lemma Finish(cfg: Config, worlds: seq<World>, steps: seq<Step>, h: nat, entry: CodeEntry)
    returns (ws: seq<World>, ss: seq<Step>)
    requires IsRun(cfg, worlds, steps) && InHand(cfg, Last(worlds), h, entry)
    requires Last(worlds).handlers[h].phase in [Holding(entry), Marked(entry)] && Last(worlds).used.entries == map[]
    ensures IsRun(cfg, ws, ss) && worlds <= ws && steps <= ss && Last(ws).renewals == Last(worlds).renewals
    ensures entry.userinfo.sub in Last(ws).sessions && OriginOf(Last(ws), entry.userinfo.sub) == Some(h)
  {
    ws, ss := worlds, steps;
    if Last(worlds).handlers[h].phase.Holding? {
      Marks(cfg, Last(worlds), entry, h);
      ws, ss := Append(cfg, worlds, steps, MarkUsed(h, None));
    }
    Issues(cfg, Last(ws), entry, h);
    ws, ss := Append(cfg, ws, ss, Issue(h));
  }

  // ----- A user signs in again -----

  function Presenting(code: string, entry: CodeEntry): P.TokenRequest {
    P.TokenRequest("authorization_code", code, entry.redirectUri, "", "", entry.clientId, "")
  }

  // The code waits for its client, and nothing else is stored.
  ghost predicate Waits(cfg: Config, w: World, code: string, entry: CodeEntry) {
    && w.sessions == map[] && w.used.entries == map[]
    && cfg.hash(code) in w.codes.entries && w.codes.entries[cfg.hash(code)].value == entry
    && !C.Expired(w.codes.entries[cfg.hash(code)], w.clock)
  }

  lemma Coded(cfg: Config, w: World, code: string, entry: CodeEntry)
    requires w.sessions == map[] && w.codes.entries == map[] && w.used.entries == map[]
    requires code !in w.minted && entry.codeHash == cfg.hash(code)
    ensures var s := StoreCode(code, entry, None);
            && Enabled(cfg, w, s) && Waits(cfg, Next(cfg, w, s), code, entry)
            && Next(cfg, w, s).renewals == w.renewals && Next(cfg, w, s).handlers == w.handlers
  {
  }

  lemma Arrives(cfg: Config, w: World, code: string, entry: CodeEntry, client: Client, access: string, refresh: string)
    requires Waits(cfg, w, code, entry) && New(w, access, refresh)
    ensures var s := Arrive(Presenting(code, entry), client, access, refresh);
            var (w', h) := (Next(cfg, w, s), |w.handlers|);
            && Waits(cfg, w', code, entry) && w'.renewals == w.renewals && h < |w'.handlers|
            && w'.handlers[h] == Handler(Presenting(code, entry), client, access, refresh, Arrived, None)
  {
  }

  lemma Redeems(cfg: Config, w: World, code: string, entry: CodeEntry, h: nat)
    requires Waits(cfg, w, code, entry) && h < |w.handlers| && entry.codeChallenge == ""
    requires w.handlers[h].req == Presenting(code, entry) && w.handlers[h].phase == Arrived
    requires w.handlers[h].client.clientId == entry.clientId
    ensures var w' := Next(cfg, w, Redeem(h));
            && InHand(cfg, w', h, entry) && w'.handlers[h].phase == Holding(entry)
            && w'.used.entries == map[] && w'.renewals == w.renewals
  {
  }

  lemma Obtain(cfg: Config, worlds: seq<World>, steps: seq<Step>, client: Client, code: string, entry: CodeEntry)
    returns (ws: seq<World>, ss: seq<Step>, h: nat)
    requires IsRun(cfg, worlds, steps) && Waits(cfg, Last(worlds), code, entry)
    requires entry.clientId == client.clientId && entry.codeChallenge == ""
    ensures IsRun(cfg, ws, ss) && worlds <= ws && steps <= ss && Last(ws).renewals == Last(worlds).renewals
    ensures InHand(cfg, Last(ws), h, entry) && Last(ws).handlers[h].phase == Holding(entry)
    ensures Last(ws).used.entries == map[]
  {
    h := |Last(worlds).handlers|;
    var access, refresh := FreshPair(Last(worlds).minted);
    Arrives(cfg, Last(worlds), code, entry, client, access, refresh);
    ws, ss := Append(cfg, worlds, steps, Arrive(Presenting(code, entry), client, access, refresh));
    Redeems(cfg, Last(ws), code, entry, h);
    ws, ss := Append(cfg, ws, ss, Redeem(h));
  }

  /** Where nothing is stored, a user can get a session again, with one more code and one more request. */
  lemma SignIn(cfg: Config, worlds: seq<World>, steps: seq<Step>, client: Client, e: CodeEntry)
    returns (ws: seq<World>, ss: seq<Step>)
    requires IsRun(cfg, worlds, steps) && Cleared(Last(worlds), Last(worlds))
    requires e.clientId == client.clientId && e.codeChallenge == ""
    ensures IsRun(cfg, ws, ss) && worlds <= ws && steps <= ss
    ensures e.userinfo.sub in Last(ws).sessions && Last(ws).renewals == Last(worlds).renewals
  {
    var code := Fresh(Last(worlds).minted);
    var entry := e.(codeHash := cfg.hash(code));
    Coded(cfg, Last(worlds), code, entry);
    ws, ss := Append(cfg, worlds, steps, StoreCode(code, entry, None));
    var h: nat;
    ws, ss, h := Obtain(cfg, ws, ss, client, code, entry);
    ws, ss := Finish(cfg, ws, ss, h, entry);
  }
}
