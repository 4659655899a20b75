/**
 What a replayed code revokes when token requests run concurrently. The replay deletes the session of the
 sub the code was redeemed for, at that moment; a session of that code is stored afterwards exactly when
 the request that redeemed it still had the code in hand, or when a refresh had read the session before and
 writes it back over another one.
 */
module OidcRevocation {
  import opened Base
  import opened OidcModel
  import opened OidcTable
  import opened OidcInterleaving
  import opened OidcContinuation
  import P = OidcProtocol

  // ----- Who is behind a record, a replay and a row -----

  // The handler redeemed its code for the sub and has put it on record.
  ghost predicate Marker(cfg: Config, w: World, g: nat, k: string, sub: string) {
    && g < |w.handlers| && cfg.hash(w.handlers[g].req.code) == k
    && w.handlers[g].redeemed.Some? && w.handlers[g].redeemed.value.userinfo.sub == sub
    && !w.handlers[g].phase.Holding?
  }

  ghost predicate Recorded(cfg: Config, w: World, k: string, sub: string) {
    exists g: nat :: Marker(cfg, w, g, k, sub)
  }

  ghost predicate RecordsKnown(cfg: Config, w: World) {
    forall k :: k in w.used.entries ==> Recorded(cfg, w, k, w.used.entries[k].value)
  }

  ghost predicate ReplayKnown(cfg: Config, w: World, h: nat)
    requires h < |w.handlers|
  {
    w.handlers[h].phase.Replaying? ==> Recorded(cfg, w, cfg.hash(w.handlers[h].req.code), w.handlers[h].phase.sub)
  }

  ghost predicate ReplaysKnown(cfg: Config, w: World) {
    forall h :: 0 <= h < |w.handlers| ==> ReplayKnown(cfg, w, h)
  }

  // The handler stored a session under the sub.
  predicate Issuer(w: World, g: nat, sub: string) {
    && g < |w.handlers| && w.handlers[g].phase == Exchanged
    && w.handlers[g].redeemed.Some? && w.handlers[g].redeemed.value.userinfo.sub == sub
  }

  ghost predicate OriginsKnown(w: World) {
    && (forall sub :: sub in w.origins ==> Issuer(w, w.origins[sub], sub))
    && (forall k :: 0 <= k < |w.renewals| && w.renewals[k].origin.Some? ==>
         Issuer(w, w.renewals[k].origin.value, w.renewals[k].row.sub))
    && (forall sub :: sub in w.sessions ==> w.sessions[sub].sub == sub)
  }

  ghost predicate Earnings(w: World) {
    forall h :: 0 <= h < |w.handlers| ==> Earned(w.handlers[h])
  }

  // ----- No step loses them -----

  // Handlers keep what they redeemed, and go on from what they did with it.
  ghost predicate Advances(w: World, w': World) {
    && |w.handlers| <= |w'.handlers|
    && forall g :: 0 <= g < |w.handlers| && w.handlers[g].redeemed.Some? ==>
         && w'.handlers[g].redeemed == w.handlers[g].redeemed && w'.handlers[g].req == w.handlers[g].req
         && (!w.handlers[g].phase.Holding? ==> !w'.handlers[g].phase.Holding?)
         && (w.handlers[g].phase.Exchanged? ==> w'.handlers[g].phase.Exchanged?)
  }

  predicate Handles(s: Step) {
    s.Redeem? || s.CheckUsed? || s.Revoke? || s.MarkUsed? || s.Issue?
  }

  // The step of a handler changes that handler only, and takes it forward.
  lemma HandlerMoves(cfg: Config, w: World, s: Step)
    requires Earnings(w) && Enabled(cfg, w, s) && Handles(s)
    ensures var (h, w') := (s.h, Next(cfg, w, s));
            && h < |w.handlers| && w'.handlers == w.handlers[h := w'.handlers[h]]
            && w'.handlers[h].req == w.handlers[h].req && !w.handlers[h].phase.Exchanged?
            && (w.handlers[h].redeemed.Some? ==>
                 w'.handlers[h].redeemed == w.handlers[h].redeemed && !w'.handlers[h].phase.Holding?)
  {
    assert Earned(w.handlers[s.h]);
  }

  lemma NextAdvances(cfg: Config, w: World, s: Step)
    requires Earnings(w) && Enabled(cfg, w, s)
    ensures Advances(w, Next(cfg, w, s))
  {
    if Handles(s) {
      HandlerMoves(cfg, w, s);
    }
  }

  lemma MarkersStay(cfg: Config, w: World, w': World, k: string, sub: string)
    requires Advances(w, w') && Recorded(cfg, w, k, sub)
    ensures Recorded(cfg, w', k, sub)
  {
    var g: nat :| Marker(cfg, w, g, k, sub);
    assert Marker(cfg, w', g, k, sub);
  }

  lemma RecordsStay(cfg: Config, w: World, w': World)
    requires Advances(w, w') && RecordsKnown(cfg, w)
    requires forall k :: k in w'.used.entries ==>
               k in w.used.entries && w'.used.entries[k].value == w.used.entries[k].value
    ensures RecordsKnown(cfg, w')
  {
    forall k | k in w'.used.entries
      ensures Recorded(cfg, w', k, w'.used.entries[k].value)
    {
      MarkersStay(cfg, w, w', k, w.used.entries[k].value);
    }
  }

  lemma MarkRecords(cfg: Config, w: World, h: nat, evicted: Option<string>)
    requires Earnings(w) && RecordsKnown(cfg, w) && Enabled(cfg, w, MarkUsed(h, evicted))
    ensures RecordsKnown(cfg, Next(cfg, w, MarkUsed(h, evicted)))
  {
    var w' := Next(cfg, w, MarkUsed(h, evicted));
    NextAdvances(cfg, w, MarkUsed(h, evicted));
    forall k | k in w'.used.entries
      ensures Recorded(cfg, w', k, w'.used.entries[k].value)
    {
      if k == cfg.hash(w.handlers[h].req.code) {
        assert Marker(cfg, w', h, k, w'.used.entries[k].value);
      } else {
        MarkersStay(cfg, w, w', k, w.used.entries[k].value);
      }
    }
  }

  lemma NextRecords(cfg: Config, w: World, s: Step)
    requires Earnings(w) && RecordsKnown(cfg, w) && Enabled(cfg, w, s)
    ensures RecordsKnown(cfg, Next(cfg, w, s))
  {
    if s.MarkUsed? {
      MarkRecords(cfg, w, s.h, s.evicted);
    } else {
      NextAdvances(cfg, w, s);
      RecordsStay(cfg, w, Next(cfg, w, s));
    }
  }

  // A replaying handler was replaying before, or has just found the record.
  lemma ReplayBegins(cfg: Config, w: World, s: Step, h: nat)
    requires Enabled(cfg, w, s) && h < |Next(cfg, w, s).handlers| && Next(cfg, w, s).handlers[h].phase.Replaying?
    ensures h < |w.handlers| && Next(cfg, w, s).handlers[h].req == w.handlers[h].req
    ensures var k := cfg.hash(w.handlers[h].req.code);
            || w.handlers[h].phase == Next(cfg, w, s).handlers[h].phase
            || (k in w.used.entries && w.used.entries[k].value == Next(cfg, w, s).handlers[h].phase.sub)
  {
  }

  lemma NextReplays(cfg: Config, w: World, s: Step)
    requires Earnings(w) && RecordsKnown(cfg, w) && ReplaysKnown(cfg, w) && Enabled(cfg, w, s)
    ensures ReplaysKnown(cfg, Next(cfg, w, s))
  {
    var w' := Next(cfg, w, s);
    NextAdvances(cfg, w, s);
    forall h | 0 <= h < |w'.handlers|
      ensures ReplayKnown(cfg, w', h)
    {
      if w'.handlers[h].phase.Replaying? {
        ReplayBegins(cfg, w, s, h);
        assert ReplayKnown(cfg, w, h);
        MarkersStay(cfg, w, w', cfg.hash(w.handlers[h].req.code), w'.handlers[h].phase.sub);
      }
    }
  }

  lemma IssuersStay(w: World, w': World, g: nat, sub: string)
    requires Advances(w, w') && Issuer(w, g, sub)
    ensures Issuer(w', g, sub)
  {
  }

  // The rows and the renewals after the step were there before, or name handlers that are known.
  lemma OriginsStay(w: World, w': World)
    requires Advances(w, w') && OriginsKnown(w)
    requires forall sub :: sub in w'.origins ==>
               (sub in w.origins && w'.origins[sub] == w.origins[sub]) || Issuer(w', w'.origins[sub], sub)
    requires |w.renewals| <= |w'.renewals|
    requires forall k :: 0 <= k < |w.renewals| ==>
               w'.renewals[k].row == w.renewals[k].row && w'.renewals[k].origin == w.renewals[k].origin
    requires forall k :: |w.renewals| <= k < |w'.renewals| && w'.renewals[k].origin.Some? ==>
               Issuer(w', w'.renewals[k].origin.value, w'.renewals[k].row.sub)
    requires forall sub :: sub in w'.sessions ==> w'.sessions[sub].sub == sub
    ensures OriginsKnown(w')
  {
    forall sub | sub in w'.origins
      ensures Issuer(w', w'.origins[sub], sub)
    {
      if sub in w.origins && w'.origins[sub] == w.origins[sub] {
        IssuersStay(w, w', w.origins[sub], sub);
      }
    }
    forall k | 0 <= k < |w'.renewals| && w'.renewals[k].origin.Some?
      ensures Issuer(w', w'.renewals[k].origin.value, w'.renewals[k].row.sub)
    {
      if k < |w.renewals| {
        IssuersStay(w, w', w.renewals[k].origin.value, w.renewals[k].row.sub);
      }
    }
  }

  lemma IssueNames(cfg: Config, w: World, h: nat)
    requires Earnings(w) && OriginsKnown(w) && Enabled(cfg, w, Issue(h))
    ensures var w' := Next(cfg, w, Issue(h));
            && w'.renewals == w.renewals
            && (forall sub :: sub in w'.origins ==>
                 (sub in w.origins && w'.origins[sub] == w.origins[sub]) || Issuer(w', w'.origins[sub], sub))
            && (forall sub :: sub in w'.sessions ==> w'.sessions[sub].sub == sub)
  {
    assert Earned(w.handlers[h]);
  }

  lemma IssueOrigins(cfg: Config, w: World, h: nat)
    requires Earnings(w) && OriginsKnown(w) && Enabled(cfg, w, Issue(h))
    ensures OriginsKnown(Next(cfg, w, Issue(h)))
  {
    NextAdvances(cfg, w, Issue(h));
    IssueNames(cfg, w, h);
    OriginsStay(w, Next(cfg, w, Issue(h)));
  }

  lemma ReadOrigins(cfg: Config, w: World, sub: string)
    requires Earnings(w) && OriginsKnown(w) && Enabled(cfg, w, ReadRow(sub))
    ensures OriginsKnown(Next(cfg, w, ReadRow(sub)))
  {
    NextAdvances(cfg, w, ReadRow(sub));
    OriginsStay(w, Next(cfg, w, ReadRow(sub)));
  }

  lemma RenewOrigins(cfg: Config, w: World, s: Step)
    requires Earnings(w) && OriginsKnown(w) && s.Renew? && Enabled(cfg, w, s)
    ensures OriginsKnown(Next(cfg, w, s))
  {
    NextAdvances(cfg, w, s);
    OriginsStay(w, Next(cfg, w, s));
  }

  lemma OtherOrigins(cfg: Config, w: World, s: Step)
    requires Earnings(w) && OriginsKnown(w) && !(s.Issue? || s.ReadRow? || s.Renew?) && Enabled(cfg, w, s)
    ensures OriginsKnown(Next(cfg, w, s))
  {
    NextAdvances(cfg, w, s);
    OriginsStay(w, Next(cfg, w, s));
  }

  lemma NextOrigins(cfg: Config, w: World, s: Step)
    requires Earnings(w) && OriginsKnown(w) && Enabled(cfg, w, s)
    ensures OriginsKnown(Next(cfg, w, s))
  {
    match s
    case Issue(h) => IssueOrigins(cfg, w, h);
    case ReadRow(sub) => ReadOrigins(cfg, w, sub);
    case Renew(_, _, _) => RenewOrigins(cfg, w, s);
    case _ => OtherOrigins(cfg, w, s);
  }

  ghost predicate Known(cfg: Config, w: World) {
    Consistent(cfg, w) && RecordsKnown(cfg, w) && ReplaysKnown(cfg, w) && OriginsKnown(w)
  }

  lemma ConsistentEarns(cfg: Config, w: World)
    requires Consistent(cfg, w)
    ensures Earnings(w)
  {
  }

  lemma NextKnown(cfg: Config, w: World, s: Step)
    requires ValidConfig(cfg) && Known(cfg, w) && Enabled(cfg, w, s)
    ensures Known(cfg, Next(cfg, w, s))
  {
    ConsistentEarns(cfg, w);
    NextConsistent(cfg, w, s);
    NextRecords(cfg, w, s);
    NextReplays(cfg, w, s);
    NextOrigins(cfg, w, s);
  }

  lemma RunStepKnown(cfg: Config, worlds: seq<World>, steps: seq<Step>, n: nat)
    requires ValidConfig(cfg) && IsRun(cfg, worlds, steps) && n < |steps| && Known(cfg, worlds[n])
    ensures Known(cfg, worlds[n + 1])
  {
    assert Moves(cfg, worlds, steps, n);
    NextKnown(cfg, worlds[n], steps[n]);
  }

  lemma InitKnown(cfg: Config, w: World)
    requires Init(cfg, w)
    ensures Known(cfg, w)
  {
  }

  lemma {:induction false} RunKnown(cfg: Config, worlds: seq<World>, steps: seq<Step>, n: nat)
    requires ValidConfig(cfg) && IsRun(cfg, worlds, steps) && n < |worlds|
    ensures Known(cfg, worlds[n])
  {
    if n == 0 {
      InitKnown(cfg, worlds[0]);
    } else {
      RunKnown(cfg, worlds, steps, n - 1);
      RunStepKnown(cfg, worlds, steps, n - 1);
    }
  }

  // ----- What a replay knows, and what it deletes -----

  /**
   Whoever replays a code found it on record because exactly one request redeemed it; what it deletes is
   the session of the sub that request redeemed the code for.
   */
  lemma ReplayHitsItsSub(cfg: Config, worlds: seq<World>, steps: seq<Step>, i: nat) returns (g: nat)
    requires ValidConfig(cfg) && IsRun(cfg, worlds, steps) && i < |steps| && steps[i].Revoke?
    ensures steps[i].h < |worlds[i].handlers| && worlds[i].handlers[steps[i].h].phase.Replaying?
    ensures g < |worlds[i].handlers| && worlds[i].handlers[g].redeemed.Some?
    ensures worlds[i].handlers[g].req.code == worlds[i].handlers[steps[i].h].req.code
    ensures worlds[i].handlers[g].redeemed.value.userinfo.sub == worlds[i].handlers[steps[i].h].phase.sub
    ensures g != steps[i].h && !worlds[i].handlers[g].phase.Holding?
    ensures forall x | 0 <= x < |worlds[i].handlers| && x != g && worlds[i].handlers[x].redeemed.Some? ::
              worlds[i].handlers[x].req.code != worlds[i].handlers[g].req.code
    ensures worlds[i].handlers[g].redeemed.value.userinfo.sub !in worlds[i + 1].sessions
  {
    var w, h := worlds[i], steps[i].h;
    RunKnown(cfg, worlds, steps, i);
    assert Moves(cfg, worlds, steps, i);
    assert ReplayKnown(cfg, w, h) && Earned(w.handlers[h]);
    g :| Marker(cfg, w, g, cfg.hash(w.handlers[h].req.code), w.handlers[h].phase.sub);
  }

  // ----- The sessions of one redeemed code -----

  // The handler redeemed its code for the sub.
  ghost predicate Redeemer(w: World, g: nat, sub: string) {
    g < |w.handlers| && w.handlers[g].redeemed.Some? && w.handlers[g].redeemed.value.userinfo.sub == sub
  }

  // The stored session of the sub stems from the exchange of handler g.
  predicate Owned(w: World, sub: string, g: nat) {
    sub in w.sessions && OriginOf(w, sub) == Some(g)
  }

  // The step stores a session that stems from g: the exchange itself, or a refresh that had read one.
  ghost predicate Stores(cfg: Config, w: World, s: Step, g: nat) {
    Enabled(cfg, w, s) &&
    match s
    case Issue(h) => h == g && Next(cfg, w, s).handlers[g].phase == Exchanged
    case Renew(k, _, _) => w.renewals[k].origin == Some(g) && w.renewals[k].row.sub in w.sessions
    case _ => false
  }

  // The step removes the session of the sub, or puts one in its place that does not stem from g.
  ghost predicate Clears(w: World, s: Step, sub: string, g: nat) {
    match s
    case Revoke(h) => h < |w.handlers| && w.handlers[h].phase == Replaying(sub)
    case DropSession(dropped) => dropped == sub
    case Renew(k, _, _) => k < |w.renewals| && w.renewals[k].row.sub == sub && w.renewals[k].origin != Some(g)
    case _ => false
  }

  lemma IssueOwns(cfg: Config, w: World, h: nat, sub: string, g: nat)
    requires Earnings(w) && OriginsKnown(w) && Enabled(cfg, w, Issue(h)) && Redeemer(w, g, sub)
    ensures Owned(Next(cfg, w, Issue(h)), sub, g) <==> Stores(cfg, w, Issue(h), g) || Owned(w, sub, g)
  {
    if sub in w.sessions {
      assert Clashes(w.sessions[sub], w.sessions[sub]);
    }
  }

  lemma RenewOwns(cfg: Config, w: World, s: Step, sub: string, g: nat)
    requires OriginsKnown(w) && s.Renew? && Enabled(cfg, w, s) && Redeemer(w, g, sub)
    ensures Owned(Next(cfg, w, s), sub, g) <==> Stores(cfg, w, s, g) || (Owned(w, sub, g) && !Clears(w, s, sub, g))
  {
    if w.renewals[s.k].origin == Some(g) {
      assert Issuer(w, g, w.renewals[s.k].row.sub);
    }
  }

  lemma RemovalOwns(cfg: Config, w: World, s: Step, sub: string, g: nat)
    requires (s.Revoke? || s.DropSession?) && Enabled(cfg, w, s)
    ensures Owned(Next(cfg, w, s), sub, g) <==> Owned(w, sub, g) && !Clears(w, s, sub, g)
  {
  }

  lemma OthersOwn(cfg: Config, w: World, s: Step, sub: string, g: nat)
    requires !(s.Issue? || s.Renew? || s.Revoke? || s.DropSession?) && Enabled(cfg, w, s)
    ensures Owned(Next(cfg, w, s), sub, g) <==> Owned(w, sub, g)
  {
  }

  lemma OwnedNext(cfg: Config, w: World, s: Step, sub: string, g: nat)
    requires Earnings(w) && OriginsKnown(w) && Enabled(cfg, w, s) && Redeemer(w, g, sub)
    ensures Owned(Next(cfg, w, s), sub, g) <==> Stores(cfg, w, s, g) || (Owned(w, sub, g) && !Clears(w, s, sub, g))
  {
    match s
    case Issue(h) => IssueOwns(cfg, w, h, sub, g);
    case Renew(_, _, _) => RenewOwns(cfg, w, s, sub, g);
    case Revoke(_) => RemovalOwns(cfg, w, s, sub, g);
    case DropSession(_) => RemovalOwns(cfg, w, s, sub, g);
    case _ => OthersOwn(cfg, w, s, sub, g);
  }

  // ----- Exactly when a session of the code comes back -----

  lemma RunOwned(cfg: Config, worlds: seq<World>, steps: seq<Step>, n: nat, sub: string, g: nat)
    requires ValidConfig(cfg) && IsRun(cfg, worlds, steps) && n < |steps| && Redeemer(worlds[n], g, sub)
    ensures Redeemer(worlds[n + 1], g, sub)
    ensures Owned(worlds[n + 1], sub, g) <==>
            || Stores(cfg, worlds[n], steps[n], g)
            || (Owned(worlds[n], sub, g) && !Clears(worlds[n], steps[n], sub, g))
  {
    RunKnown(cfg, worlds, steps, n);
    ConsistentEarns(cfg, worlds[n]);
    assert Moves(cfg, worlds, steps, n);
    OwnedNext(cfg, worlds[n], steps[n], sub, g);
    NextAdvances(cfg, worlds[n], steps[n]);
  }

  // Step m stores a session of g, and none after it and before n clears the sub.
  ghost predicate StoredSince(cfg: Config, worlds: seq<World>, steps: seq<Step>, m: nat, n: nat, sub: string, g: nat)
    requires m < n <= |steps| < |worlds|
  {
    Stores(cfg, worlds[m], steps[m], g) && forall j :: m < j < n ==> !Clears(worlds[j], steps[j], sub, g)
  }

  ghost predicate StoredAfter(cfg: Config, worlds: seq<World>, steps: seq<Step>, i: nat, n: nat, sub: string, g: nat)
    requires n <= |steps| < |worlds|
  {
    exists m: nat :: i < m < n && StoredSince(cfg, worlds, steps, m, n, sub, g)
  }

  lemma StoredLater(cfg: Config, worlds: seq<World>, steps: seq<Step>, i: nat, n: nat, sub: string, g: nat)
    requires i < n < |steps| < |worlds|
    ensures StoredAfter(cfg, worlds, steps, i, n + 1, sub, g) <==>
            || Stores(cfg, worlds[n], steps[n], g)
            || (StoredAfter(cfg, worlds, steps, i, n, sub, g) && !Clears(worlds[n], steps[n], sub, g))
  {
    if Stores(cfg, worlds[n], steps[n], g) {
      assert StoredSince(cfg, worlds, steps, n, n + 1, sub, g);
    }
    if StoredAfter(cfg, worlds, steps, i, n, sub, g) && !Clears(worlds[n], steps[n], sub, g) {
      var m: nat :| i < m < n && StoredSince(cfg, worlds, steps, m, n, sub, g);
      assert StoredSince(cfg, worlds, steps, m, n + 1, sub, g);
    }
    if StoredAfter(cfg, worlds, steps, i, n + 1, sub, g) && !Stores(cfg, worlds[n], steps[n], g) {
      var m: nat :| i < m < n + 1 && StoredSince(cfg, worlds, steps, m, n + 1, sub, g);
      assert m < n && StoredSince(cfg, worlds, steps, m, n, sub, g);
    }
  }

  /**
   After a replay of its code a session of request g is stored exactly when g issued its tokens, or a
   refresh that had read its session wrote it back, after the deletion, and nothing cleared it since.
   */
  lemma {:induction false} RevocationExactly(cfg: Config, worlds: seq<World>, steps: seq<Step>, i: nat, n: nat,
                                             sub: string, g: nat)
    requires ValidConfig(cfg) && IsRun(cfg, worlds, steps) && i < n < |worlds|
    requires steps[i].Revoke? && Clears(worlds[i], steps[i], sub, g) && Redeemer(worlds[i], g, sub)
    ensures Redeemer(worlds[n], g, sub)
    ensures Owned(worlds[n], sub, g) <==> StoredAfter(cfg, worlds, steps, i, n, sub, g)
  {
    if n == i + 1 {
      RunOwned(cfg, worlds, steps, i, sub, g);
    } else {
      RevocationExactly(cfg, worlds, steps, i, n - 1, sub, g);
      RunOwned(cfg, worlds, steps, n - 1, sub, g);
      StoredLater(cfg, worlds, steps, i, n - 1, sub, g);
    }
  }

  // ----- What decides it at the time of the deletion -----

  // No refresh has read a session of g and not yet written it back.
  ghost predicate NoRefresh(w: World, g: nat) {
    forall k :: 0 <= k < |w.renewals| && !w.renewals[k].written ==> w.renewals[k].origin != Some(g)
  }

  // The request has its code in hand, and redirect URI and verifier are right: its tokens are on their way.
  predicate Unfinished(cfg: Config, w: World, g: nat) {
    && g < |w.handlers| && (w.handlers[g].phase.Holding? || w.handlers[g].phase.Marked?)
    && P.ExchangeAllowed(cfg, w.handlers[g].phase.entry, w.handlers[g].req)
  }

  ghost predicate Settled(cfg: Config, w: World, sub: string, g: nat) {
    Redeemer(w, g, sub) && !Unfinished(cfg, w, g) && NoRefresh(w, g) && !Owned(w, sub, g)
  }

  lemma SettledStores(cfg: Config, w: World, s: Step, sub: string, g: nat)
    requires Earnings(w) && Settled(cfg, w, sub, g)
    ensures !Stores(cfg, w, s, g)
  {
  }

  lemma StaysFinished(cfg: Config, w: World, s: Step, sub: string, g: nat)
    requires Earnings(w) && Enabled(cfg, w, s) && Settled(cfg, w, sub, g)
    ensures !Unfinished(cfg, Next(cfg, w, s), g)
  {
  }

  lemma StaysUnread(cfg: Config, w: World, s: Step, sub: string, g: nat)
    requires OriginsKnown(w) && Enabled(cfg, w, s) && Settled(cfg, w, sub, g)
    ensures NoRefresh(Next(cfg, w, s), g)
  {
    if s.ReadRow? && s.sub in w.origins {
      assert Issuer(w, w.origins[s.sub], s.sub);
    }
  }

  lemma NextSettled(cfg: Config, w: World, s: Step, sub: string, g: nat)
    requires Earnings(w) && OriginsKnown(w) && Enabled(cfg, w, s) && Settled(cfg, w, sub, g)
    ensures Settled(cfg, Next(cfg, w, s), sub, g)
  {
    OwnedNext(cfg, w, s, sub, g);
    SettledStores(cfg, w, s, sub, g);
    NextAdvances(cfg, w, s);
    StaysFinished(cfg, w, s, sub, g);
    StaysUnread(cfg, w, s, sub, g);
  }

  lemma RunSettled(cfg: Config, worlds: seq<World>, steps: seq<Step>, n: nat, sub: string, g: nat)
    requires ValidConfig(cfg) && IsRun(cfg, worlds, steps) && n < |steps| && Settled(cfg, worlds[n], sub, g)
    ensures Settled(cfg, worlds[n + 1], sub, g)
  {
    RunKnown(cfg, worlds, steps, n);
    ConsistentEarns(cfg, worlds[n]);
    assert Moves(cfg, worlds, steps, n);
    NextSettled(cfg, worlds[n], steps[n], sub, g);
  }

  lemma {:induction false} StaysSettled(cfg: Config, worlds: seq<World>, steps: seq<Step>, i: nat, n: nat, sub: string,
                                        g: nat)
    requires ValidConfig(cfg) && IsRun(cfg, worlds, steps) && i <= n < |worlds| && Settled(cfg, worlds[i], sub, g)
    ensures Settled(cfg, worlds[n], sub, g)
  {
    if i < n {
      StaysSettled(cfg, worlds, steps, i, n - 1, sub, g);
      RunSettled(cfg, worlds, steps, n - 1, sub, g);
    }
  }

  // However the run goes on, no session of g is stored for the sub again.
  ghost predicate RevokedForGood(cfg: Config, worlds: seq<World>, steps: seq<Step>, sub: string, g: nat) {
    forall ws: seq<World>, ss: seq<Step>, n: nat ::
      IsRun(cfg, ws, ss) && worlds <= ws && steps <= ss && |worlds| <= n + 1 <= |ws| ==> !Owned(ws[n], sub, g)
  }

  // The request goes on and issues its tokens.
  lemma ReappearsByIssue(cfg: Config, worlds: seq<World>, steps: seq<Step>, sub: string, g: nat)
    requires ValidConfig(cfg) && IsRun(cfg, worlds, steps)
    requires Redeemer(Last(worlds), g, sub) && Unfinished(cfg, Last(worlds), g)
    ensures !RevokedForGood(cfg, worlds, steps, sub, g)
  {
    var ws, ss := Clear(cfg, worlds, steps);
    RunKnown(cfg, ws, ss, |ws| - 1);
    assert Earned(Last(ws).handlers[g]);
    ws, ss := Finish(cfg, ws, ss, g, Last(ws).handlers[g].phase.entry);
    assert Owned(ws[|ws| - 1], sub, g);
  }

  lemma RenewReappears(cfg: Config, w: World, k: nat, access: string, refresh: string, sub: string, g: nat)
    requires k < |w.renewals| && !w.renewals[k].written && New(w, access, refresh)
    requires w.renewals[k].origin == Some(g) && w.renewals[k].row.sub == sub && sub in w.sessions
    ensures Enabled(cfg, w, Renew(k, access, refresh)) && Owned(Next(cfg, w, Renew(k, access, refresh)), sub, g)
  {
  }

  // The user signs in again, and the refresh writes the old session back over the new one.
  lemma ReappearsByRefresh(cfg: Config, worlds: seq<World>, steps: seq<Step>, sub: string, g: nat)
    requires ValidConfig(cfg) && IsRun(cfg, worlds, steps)
    requires Redeemer(Last(worlds), g, sub) && !NoRefresh(Last(worlds), g)
    ensures !RevokedForGood(cfg, worlds, steps, sub, g)
  {
    var k: nat :| k < |Last(worlds).renewals| && !Last(worlds).renewals[k].written
                  && Last(worlds).renewals[k].origin == Some(g);
    RunKnown(cfg, worlds, steps, |worlds| - 1);
    assert Issuer(Last(worlds), g, Last(worlds).renewals[k].row.sub);
    var me := Last(worlds).handlers[g];
    var ws, ss := Clear(cfg, worlds, steps);
    ws, ss := SignIn(cfg, ws, ss, me.client, me.redeemed.value.(clientId := me.client.clientId, codeChallenge := ""));
    var access, refresh := FreshPair(Last(ws).minted);
    RenewReappears(cfg, Last(ws), k, access, refresh, sub, g);
    ws, ss := Append(cfg, ws, ss, Renew(k, access, refresh));
    assert Owned(ws[|ws| - 1], sub, g);
  }

  lemma SettledForGood(cfg: Config, worlds: seq<World>, steps: seq<Step>, sub: string, g: nat)
    requires ValidConfig(cfg) && IsRun(cfg, worlds, steps) && Settled(cfg, Last(worlds), sub, g)
    ensures RevokedForGood(cfg, worlds, steps, sub, g)
  {
    forall ws: seq<World>, ss: seq<Step>, n: nat
      | IsRun(cfg, ws, ss) && worlds <= ws && steps <= ss && |worlds| <= n + 1 <= |ws|
      ensures !Owned(ws[n], sub, g)
    {
      assert ws[|worlds| - 1] == Last(worlds);
      StaysSettled(cfg, ws, ss, |worlds| - 1, n, sub, g);
    }
  }

  /**
   A replay has revoked request g for good, however the run goes on, exactly when at that moment g is not
   on its way to its tokens with the right redirect URI and verifier, and no refresh that has read a session
   of g is still to write it back.
   */
  lemma RevokedForGoodExactly(cfg: Config, worlds: seq<World>, steps: seq<Step>, i: nat, sub: string, g: nat)
    requires ValidConfig(cfg) && IsRun(cfg, worlds, steps) && i + 1 == |steps|
    requires steps[i].Revoke? && Clears(worlds[i], steps[i], sub, g) && Redeemer(worlds[i], g, sub)
    ensures RevokedForGood(cfg, worlds, steps, sub, g) <==>
            !Unfinished(cfg, worlds[i], g) && NoRefresh(worlds[i], g)
  {
    RunOwned(cfg, worlds, steps, i, sub, g);
    RevokeKeeps(cfg, worlds, steps, i, g);
    if Unfinished(cfg, worlds[i], g) {
      ReappearsByIssue(cfg, worlds, steps, sub, g);
    } else if !NoRefresh(worlds[i], g) {
      ReappearsByRefresh(cfg, worlds, steps, sub, g);
    } else {
      SettledForGood(cfg, worlds, steps, sub, g);
    }
  }

  lemma RevokeKeeps(cfg: Config, worlds: seq<World>, steps: seq<Step>, i: nat, g: nat)
    requires ValidConfig(cfg) && IsRun(cfg, worlds, steps) && i < |steps| && steps[i].Revoke?
    requires g < |worlds[i].handlers| && worlds[i].handlers[g].redeemed.Some?
    ensures g < |worlds[i + 1].handlers| && worlds[i + 1].handlers[g] == worlds[i].handlers[g]
    ensures worlds[i + 1].renewals == worlds[i].renewals
  {
    RunKnown(cfg, worlds, steps, i);
    ConsistentEarns(cfg, worlds[i]);
    assert Moves(cfg, worlds, steps, i);
    assert Earned(worlds[i].handlers[g]);
  }
}
