/**
 Refresh tokens when refreshes overlap. A refresh reads the row of its token in one locked section and
 overwrites it in another. Its token works again exactly for those refreshes that had read the row before.
 */
module OidcRefreshes {
  import opened OidcModel
  import opened OidcTable
  import opened OidcInterleaving
  import opened OidcContinuation
  import P = OidcProtocol

  // ----- Where a refresh token can be -----

  // No row, stored or read, holds the refresh token hash.
  predicate Nowhere(w: World, hash: string) {
    && (forall sub :: sub in w.sessions ==> w.sessions[sub].refreshTokenHash != hash)
    && (forall k :: 0 <= k < |w.renewals| ==> w.renewals[k].row.refreshTokenHash != hash)
  }

  // Tokens of handlers were drawn for them alone, and are in use only once their exchange succeeded.
  ghost predicate HandlersApart(cfg: Config, w: World) {
    && (forall h :: 0 <= h < |w.handlers| ==> w.handlers[h].access in w.minted && w.handlers[h].refresh in w.minted)
    && (forall g, h :: 0 <= g < h < |w.handlers| ==> w.handlers[g].refresh != w.handlers[h].refresh)
    && (forall h :: 0 <= h < |w.handlers| && !w.handlers[h].phase.Exchanged? ==>
         Nowhere(w, cfg.hash(w.handlers[h].refresh)))
  }

  // The rows that refreshes have read hold drawn tokens, and a token is of one sub only.
  ghost predicate RenewalsApart(cfg: Config, w: World) {
    && (forall k :: 0 <= k < |w.renewals| ==> P.MintedHash(cfg, w.minted, w.renewals[k].row.refreshTokenHash))
    && (forall k, sub | 0 <= k < |w.renewals| && sub in w.sessions ::
         w.sessions[sub].refreshTokenHash == w.renewals[k].row.refreshTokenHash ==> w.renewals[k].row.sub == sub)
    && (forall j, k | 0 <= j < |w.renewals| && 0 <= k < |w.renewals| ::
         w.renewals[j].row.refreshTokenHash == w.renewals[k].row.refreshTokenHash ==>
           w.renewals[j].row.sub == w.renewals[k].row.sub)
  }

  ghost predicate Apart(cfg: Config, w: World) {
    P.GoodSessions(cfg, w.minted, w.sessions) && HandlersApart(cfg, w) && RenewalsApart(cfg, w)
  }

  // ----- Every step keeps them apart -----

  lemma MintedStays(cfg: Config, minted: set<string>, minted': set<string>, h: string)
    requires minted <= minted' && P.MintedHash(cfg, minted, h)
    ensures P.MintedHash(cfg, minted', h)
  {
    var x :| x in minted && cfg.hash(x) == h;
    assert x in minted';
  }

  // Rows may go, strings may be drawn, handlers may move on short of an exchange.
  ghost predicate Calm(w: World, w': World) {
    && w.minted <= w'.minted && w'.renewals == w.renewals && |w'.handlers| == |w.handlers|
    && (forall sub :: sub in w'.sessions ==> sub in w.sessions && w'.sessions[sub] == w.sessions[sub])
    && (forall h :: 0 <= h < |w.handlers| ==>
         && w'.handlers[h].access == w.handlers[h].access && w'.handlers[h].refresh == w.handlers[h].refresh
         && w'.handlers[h].phase.Exchanged? == w.handlers[h].phase.Exchanged?)
  }

  lemma CalmApart(cfg: Config, w: World, w': World)
    requires Apart(cfg, w) && Calm(w, w')
    ensures Apart(cfg, w')
  {
    forall sub | sub in w'.sessions
      ensures P.MintedHash(cfg, w'.minted, w'.sessions[sub].accessTokenHash)
      ensures P.MintedHash(cfg, w'.minted, w'.sessions[sub].refreshTokenHash)
    {
      MintedStays(cfg, w.minted, w'.minted, w'.sessions[sub].accessTokenHash);
      MintedStays(cfg, w.minted, w'.minted, w'.sessions[sub].refreshTokenHash);
    }
    forall k | 0 <= k < |w'.renewals|
      ensures P.MintedHash(cfg, w'.minted, w'.renewals[k].row.refreshTokenHash)
    {
      MintedStays(cfg, w.minted, w'.minted, w.renewals[k].row.refreshTokenHash);
    }
  }

  lemma FreshNowhere(cfg: Config, w: World, x: string)
    requires ValidConfig(cfg) && Apart(cfg, w) && x !in w.minted
    ensures Nowhere(w, cfg.hash(x))
    ensures forall sub :: sub in w.sessions ==> w.sessions[sub].accessTokenHash != cfg.hash(x)
  {
    P.FreshHash(cfg, w.minted, x);
  }

  lemma DrawApart(cfg: Config, w: World, access: string, refresh: string)
    requires Apart(cfg, w)
    ensures Apart(cfg, Draw(w, access, refresh))
  {
    CalmApart(cfg, w, Draw(w, access, refresh));
  }

  lemma ArriveApart(cfg: Config, w: World, s: Step)
    requires ValidConfig(cfg) && Apart(cfg, w) && s.Arrive? && Enabled(cfg, w, s)
    ensures Apart(cfg, Next(cfg, w, s))
  {
    DrawApart(cfg, w, s.access, s.refresh);
    FreshNowhere(cfg, w, s.refresh);
  }

  // The row that replaces the one of its sub holds a pair that is nowhere else.
  lemma StoreApart(cfg: Config, w: World, session: Session, access: string, refresh: string)
    requires ValidConfig(cfg) && Apart(cfg, w) && access in w.minted && refresh in w.minted
    requires session.accessTokenHash == cfg.hash(access) && session.refreshTokenHash == cfg.hash(refresh)
    requires Nowhere(w, cfg.hash(refresh))
    requires forall k :: k in w.sessions ==> w.sessions[k].accessTokenHash != cfg.hash(access)
    requires forall h :: 0 <= h < |w.handlers| && !w.handlers[h].phase.Exchanged? ==> w.handlers[h].refresh != refresh
    ensures Apart(cfg, w.(sessions := w.sessions[session.sub := session]))
  {
    P.StoreGood(cfg, w.minted, w.sessions, session, access, refresh);
  }

  lemma ExchangedApart(cfg: Config, w: World, h: nat)
    requires ValidConfig(cfg) && Apart(cfg, w) && h < |w.handlers| && !w.handlers[h].phase.Exchanged?
    ensures var w' := With(w, h, w.handlers[h].(phase := Exchanged));
            && Apart(cfg, w') && Nowhere(w', cfg.hash(w.handlers[h].refresh))
            && forall g | 0 <= g < |w.handlers| && !w'.handlers[g].phase.Exchanged? ::
                 w'.handlers[g].refresh != w.handlers[h].refresh
  {
  }

  lemma SessionApart(cfg: Config, w: World, h: nat, session: Session)
    requires ValidConfig(cfg) && Apart(cfg, w) && h < |w.handlers| && !w.handlers[h].phase.Exchanged?
    requires session.accessTokenHash == cfg.hash(w.handlers[h].access) && !Conflicts(w.sessions, session)
    requires session.refreshTokenHash == cfg.hash(w.handlers[h].refresh)
    ensures Apart(cfg, With(w, h, w.handlers[h].(phase := Exchanged)).(sessions := w.sessions[session.sub := session]))
  {
    ExchangedApart(cfg, w, h);
    var w' := With(w, h, w.handlers[h].(phase := Exchanged));
    assert forall k :: k in w.sessions ==> !Clashes(w.sessions[k], session);
    StoreApart(cfg, w', session, w.handlers[h].access, w.handlers[h].refresh);
  }

  lemma OriginsApart(cfg: Config, w: World, origins: map<string, nat>)
    requires Apart(cfg, w)
    ensures Apart(cfg, w.(origins := origins))
  {
  }

  lemma IssueApart(cfg: Config, w: World, h: nat)
    requires ValidConfig(cfg) && Apart(cfg, w) && Enabled(cfg, w, Issue(h))
    ensures Apart(cfg, Next(cfg, w, Issue(h)))
  {
    var (me, w') := (w.handlers[h], Next(cfg, w, Issue(h)));
    var session := P.SessionFor(cfg, me.client, me.phase.entry, me.access, me.refresh, w.clock);
    if P.ExchangeAllowed(cfg, me.phase.entry, me.req) && !Conflicts(w.sessions, session) {
      SessionApart(cfg, w, h, session);
      var stored := With(w, h, me.(phase := Exchanged)).(sessions := w.sessions[session.sub := session]);
      OriginsApart(cfg, stored, w'.origins);
    } else {
      CalmApart(cfg, w, w');
    }
  }

  lemma ReadApart(cfg: Config, w: World, sub: string)
    requires Apart(cfg, w) && Enabled(cfg, w, ReadRow(sub))
    ensures Apart(cfg, Next(cfg, w, ReadRow(sub)))
  {
  }

  lemma WrittenApart(cfg: Config, w: World, k: nat)
    requires Apart(cfg, w) && k < |w.renewals|
    ensures Apart(cfg, w.(renewals := w.renewals[k := w.renewals[k].(written := true)]))
  {
  }

  lemma RowApart(cfg: Config, w: World, row: Session, access: string, refresh: string, now: nat)
    requires ValidConfig(cfg) && Apart(cfg, w) && New(w, access, refresh)
    ensures var renewed := P.Rotated(cfg, row, access, refresh, now);
            Apart(cfg, Draw(w, access, refresh).(sessions := w.sessions[row.sub := renewed]))
  {
    FreshNowhere(cfg, w, access);
    FreshNowhere(cfg, w, refresh);
    DrawApart(cfg, w, access, refresh);
    StoreApart(cfg, Draw(w, access, refresh), P.Rotated(cfg, row, access, refresh, now), access, refresh);
  }

  lemma RenewedApart(cfg: Config, w: World, r: Renewal, access: string, refresh: string)
    requires ValidConfig(cfg) && Apart(cfg, w) && New(w, access, refresh)
    ensures Apart(cfg, Renewed(cfg, Draw(w, access, refresh), r, access, refresh))
  {
    var drawn := Draw(w, access, refresh);
    var renewed := Renewed(cfg, drawn, r, access, refresh);
    if r.row.sub in w.sessions {
      RowApart(cfg, w, r.row, access, refresh, w.clock);
      OriginsApart(cfg, drawn.(sessions := renewed.sessions), renewed.origins);
    } else {
      DrawApart(cfg, w, access, refresh);
    }
  }

  lemma RenewApart(cfg: Config, w: World, s: Step)
    requires ValidConfig(cfg) && Apart(cfg, w) && s.Renew? && Enabled(cfg, w, s)
    ensures Apart(cfg, Next(cfg, w, s))
  {
    RenewedApart(cfg, w, w.renewals[s.k], s.newAccess, s.newRefresh);
    var drawn := Draw(w, s.newAccess, s.newRefresh);
    WrittenApart(cfg, Renewed(cfg, drawn, w.renewals[s.k], s.newAccess, s.newRefresh), s.k);
  }

  lemma NextCalm(cfg: Config, w: World, s: Step)
    requires !(s.Arrive? || s.Issue? || s.ReadRow? || s.Renew?) && Enabled(cfg, w, s)
    ensures Calm(w, Next(cfg, w, s))
  {
  }

  lemma NextApart(cfg: Config, w: World, s: Step)
    requires ValidConfig(cfg) && Apart(cfg, w) && Enabled(cfg, w, s)
    ensures Apart(cfg, Next(cfg, w, s))
  {
    match s
    case Arrive(_, _, _, _) => ArriveApart(cfg, w, s);
    case Issue(h) => IssueApart(cfg, w, h);
    case ReadRow(sub) => ReadApart(cfg, w, sub);
    case Renew(_, _, _) => RenewApart(cfg, w, s);
    case _ =>
      NextCalm(cfg, w, s);
      CalmApart(cfg, w, Next(cfg, w, s));
  }

  lemma {:induction false} RunApart(cfg: Config, worlds: seq<World>, steps: seq<Step>, n: nat)
    requires ValidConfig(cfg) && IsRun(cfg, worlds, steps) && n < |worlds|
    ensures Apart(cfg, worlds[n])
  {
    if n > 0 {
      RunApart(cfg, worlds, steps, n - 1);
      assert Moves(cfg, worlds, steps, n - 1);
      NextApart(cfg, worlds[n - 1], steps[n - 1]);
    }
  }

  /** Under every interleaving no two sessions share an access or a refresh token, although updates do not check. */
  lemma TokensUnique(cfg: Config, worlds: seq<World>, steps: seq<Step>, n: nat)
    requires ValidConfig(cfg) && IsRun(cfg, worlds, steps) && n < |worlds|
    ensures Unique(worlds[n].sessions)
  {
    RunApart(cfg, worlds, steps, n);
  }

  // ----- A token that was accepted -----

  // Refresh k has read a row with the token and is still to write it back.
  predicate Reads(w: World, k: nat, hash: string) {
    k < |w.renewals| && !w.renewals[k].written && w.renewals[k].row.refreshTokenHash == hash
  }

  // The step answers a refresh with the token: the row it writes back is still there.
  predicate Accepts(w: World, s: Step, hash: string) {
    s.Renew? && Reads(w, s.k, hash) && w.renewals[s.k].row.sub in w.sessions
  }

  // The token was drawn; no row holds it, and no exchange will store it.
  ghost predicate Spent(cfg: Config, w: World, hash: string) {
    && P.MintedHash(cfg, w.minted, hash)
    && (forall sub :: sub in w.sessions ==> w.sessions[sub].refreshTokenHash != hash)
    && (forall h :: 0 <= h < |w.handlers| && !w.handlers[h].phase.Exchanged? ==>
         cfg.hash(w.handlers[h].refresh) != hash)
  }

  lemma AcceptedRead(cfg: Config, w: World, s: Step, hash: string)
    requires Enabled(cfg, w, s) && Accepts(w, s, hash)
    ensures forall k: nat :: Reads(Next(cfg, w, s), k, hash) ==> Reads(w, k, hash) && k != s.k
  {
  }

  lemma AcceptedReplaces(cfg: Config, w: World, s: Step, hash: string)
    requires Apart(cfg, w) && Enabled(cfg, w, s) && Accepts(w, s, hash) && cfg.hash(s.newRefresh) != hash
    ensures forall sub :: sub in Next(cfg, w, s).sessions ==> Next(cfg, w, s).sessions[sub].refreshTokenHash != hash
  {
  }

  lemma AcceptedSpends(cfg: Config, w: World, s: Step, hash: string)
    requires ValidConfig(cfg) && Apart(cfg, w) && Enabled(cfg, w, s) && Accepts(w, s, hash)
    ensures Spent(cfg, Next(cfg, w, s), hash)
  {
    assert P.MintedHash(cfg, w.minted, hash);
    P.FreshHash(cfg, w.minted, s.newRefresh);
    AcceptedReplaces(cfg, w, s, hash);
    MintedStays(cfg, w.minted, Next(cfg, w, s).minted, hash);
    assert Next(cfg, w, s).handlers == w.handlers;
  }

  lemma RenewKeepsSpent(cfg: Config, w: World, s: Step, hash: string)
    requires ValidConfig(cfg) && Spent(cfg, w, hash) && s.Renew? && Enabled(cfg, w, s)
    ensures Spent(cfg, Next(cfg, w, s), hash)
  {
    MintedStays(cfg, w.minted, Next(cfg, w, s).minted, hash);
    P.FreshHash(cfg, w.minted, s.newRefresh);
  }

  lemma ArriveKeepsSpent(cfg: Config, w: World, s: Step, hash: string)
    requires ValidConfig(cfg) && Spent(cfg, w, hash) && s.Arrive? && Enabled(cfg, w, s)
    ensures Spent(cfg, Next(cfg, w, s), hash)
  {
    MintedStays(cfg, w.minted, Next(cfg, w, s).minted, hash);
    P.FreshHash(cfg, w.minted, s.refresh);
  }

  lemma OtherKeepsSpent(cfg: Config, w: World, s: Step, hash: string)
    requires Spent(cfg, w, hash) && !(s.Renew? || s.Arrive?) && Enabled(cfg, w, s)
    ensures Spent(cfg, Next(cfg, w, s), hash)
  {
    MintedStays(cfg, w.minted, Next(cfg, w, s).minted, hash);
  }

  lemma SpentUnread(cfg: Config, w: World, s: Step, hash: string)
    requires Spent(cfg, w, hash) && Enabled(cfg, w, s)
    ensures forall k: nat :: Reads(Next(cfg, w, s), k, hash) ==> Reads(w, k, hash)
  {
  }

  lemma StaysSpent(cfg: Config, w: World, s: Step, hash: string)
    requires ValidConfig(cfg) && Spent(cfg, w, hash) && Enabled(cfg, w, s)
    ensures Spent(cfg, Next(cfg, w, s), hash)
    ensures forall k: nat :: Reads(Next(cfg, w, s), k, hash) ==> Reads(w, k, hash)
  {
    SpentUnread(cfg, w, s, hash);
    match s
    case Renew(_, _, _) => RenewKeepsSpent(cfg, w, s, hash);
    case Arrive(_, _, _, _) => ArriveKeepsSpent(cfg, w, s, hash);
    case _ => OtherKeepsSpent(cfg, w, s, hash);
  }

  // After step m accepted the token nobody reads its row any more; only those who had read it can write.
  lemma {:induction false} OnlyEarlierReaders(cfg: Config, worlds: seq<World>, steps: seq<Step>, m: nat, n: nat,
                                              hash: string)
    requires ValidConfig(cfg) && IsRun(cfg, worlds, steps) && m < n < |worlds| && Accepts(worlds[m], steps[m], hash)
    ensures Spent(cfg, worlds[n], hash)
    ensures forall k: nat :: Reads(worlds[n], k, hash) ==> Reads(worlds[m], k, hash) && k != steps[m].k
  {
    assert Moves(cfg, worlds, steps, n - 1);
    if n == m + 1 {
      RunApart(cfg, worlds, steps, m);
      AcceptedSpends(cfg, worlds[m], steps[m], hash);
      AcceptedRead(cfg, worlds[m], steps[m], hash);
    } else {
      OnlyEarlierReaders(cfg, worlds, steps, m, n - 1, hash);
      StaysSpent(cfg, worlds[n - 1], steps[n - 1], hash);
    }
  }

  // ----- Exactly when it works again -----

  // The run can go on so that the token is accepted once more.
  ghost predicate WorksAgain(cfg: Config, worlds: seq<World>, steps: seq<Step>, hash: string) {
    exists ws: seq<World>, ss: seq<Step>, n: nat ::
      IsRun(cfg, ws, ss) && worlds <= ws && steps <= ss && |steps| <= n < |ss| && Accepts(ws[n], ss[n], hash)
  }

  lemma RowStays(cfg: Config, w: World, s: Step, hash: string, k: nat)
    requires Apart(cfg, w) && Enabled(cfg, w, s) && Accepts(w, s, hash) && Reads(w, k, hash) && k != s.k
    ensures Reads(Next(cfg, w, s), k, hash) && w.renewals[k].row.sub in Next(cfg, w, s).sessions
    ensures Next(cfg, w, s).renewals[k].row == w.renewals[k].row
  {
  }

  lemma AnswersAgain(cfg: Config, worlds: seq<World>, steps: seq<Step>, hash: string, k: nat)
    requires IsRun(cfg, worlds, steps) && Reads(Last(worlds), k, hash)
    requires Last(worlds).renewals[k].row.sub in Last(worlds).sessions
    ensures WorksAgain(cfg, worlds, steps, hash)
  {
    var access, refresh := FreshPair(Last(worlds).minted);
    var ws, ss := Append(cfg, worlds, steps, Renew(k, access, refresh));
    assert Accepts(ws[|steps|], ss[|steps|], hash);
  }

  lemma ReaderAnswers(cfg: Config, worlds: seq<World>, steps: seq<Step>, i: nat, hash: string, k: nat)
    requires ValidConfig(cfg) && IsRun(cfg, worlds, steps) && i + 1 == |steps| && Accepts(worlds[i], steps[i], hash)
    requires k != steps[i].k && Reads(worlds[i], k, hash)
    ensures WorksAgain(cfg, worlds, steps, hash)
  {
    assert Moves(cfg, worlds, steps, i);
    RunApart(cfg, worlds, steps, i);
    RowStays(cfg, worlds[i], steps[i], hash, k);
    AnswersAgain(cfg, worlds, steps, hash, k);
  }

  lemma OnlyReadersAnswer(cfg: Config, worlds: seq<World>, steps: seq<Step>, i: nat, hash: string) returns (k: nat)
    requires ValidConfig(cfg) && IsRun(cfg, worlds, steps) && i + 1 == |steps| && Accepts(worlds[i], steps[i], hash)
    requires WorksAgain(cfg, worlds, steps, hash)
    ensures k != steps[i].k && Reads(worlds[i], k, hash)
  {
    var ws: seq<World>, ss: seq<Step>, n: nat :|
      IsRun(cfg, ws, ss) && worlds <= ws && steps <= ss && |steps| <= n < |ss| && Accepts(ws[n], ss[n], hash);
    OnlyEarlierReaders(cfg, ws, ss, i, n, hash);
    k := ss[n].k;
  }

  /**
   Once step i has accepted a refresh token, the run can go on to accept it again exactly when another refresh
   had read its row before step i wrote it back, and was still to write.
   */
  lemma WorksAgainExactly(cfg: Config, worlds: seq<World>, steps: seq<Step>, i: nat, hash: string)
    requires ValidConfig(cfg) && IsRun(cfg, worlds, steps) && i + 1 == |steps| && Accepts(worlds[i], steps[i], hash)
    ensures WorksAgain(cfg, worlds, steps, hash) <==> exists k: nat :: k != steps[i].k && Reads(worlds[i], k, hash)
  {
    if k: nat :| k != steps[i].k && Reads(worlds[i], k, hash) {
      ReaderAnswers(cfg, worlds, steps, i, hash, k);
    }
    if WorksAgain(cfg, worlds, steps, hash) {
      var k := OnlyReadersAnswer(cfg, worlds, steps, i, hash);
    }
  }

  lemma ReadTwice(cfg: Config, worlds: seq<World>, steps: seq<Step>, sub: string)
    returns (ws: seq<World>, ss: seq<Step>)
    requires IsRun(cfg, worlds, steps) && Enabled(cfg, Last(worlds), ReadRow(sub))
    ensures IsRun(cfg, ws, ss) && worlds <= ws && ss == steps + [ReadRow(sub), ReadRow(sub)]
    ensures var (w, w', hash) := (Last(worlds), Last(ws), Last(worlds).sessions[sub].refreshTokenHash);
            && w'.sessions == w.sessions && |w'.renewals| == |w.renewals| + 2
            && Reads(w', |w.renewals|, hash) && Reads(w', |w.renewals| + 1, hash)
            && w'.renewals[|w.renewals|].row == w'.renewals[|w.renewals| + 1].row == w.sessions[sub]
  {
    ws, ss := Append(cfg, worlds, steps, ReadRow(sub));
    ws, ss := Append(cfg, ws, ss, ReadRow(sub));
  }

  /** Wherever a live session is stored, two refreshes with its token can overlap so that both are answered. */
  lemma TokenWorksTwice(cfg: Config, worlds: seq<World>, steps: seq<Step>, sub: string)
    returns (ws: seq<World>, ss: seq<Step>, hash: string)
    requires ValidConfig(cfg) && IsRun(cfg, worlds, steps) && Enabled(cfg, Last(worlds), ReadRow(sub))
    ensures hash == Last(worlds).sessions[sub].refreshTokenHash
    ensures IsRun(cfg, ws, ss) && worlds <= ws && |ss| == |steps| + 3 && steps <= ss
    ensures Accepts(ws[|steps| + 2], ss[|steps| + 2], hash) && WorksAgain(cfg, ws, ss, hash)
  {
    hash := Last(worlds).sessions[sub].refreshTokenHash;
    var k := |Last(worlds).renewals|;
    RunApart(cfg, worlds, steps, |worlds| - 1);
    ws, ss := ReadTwice(cfg, worlds, steps, sub);
    var w := Last(ws);
    var access, refresh := FreshPair(w.minted);
    ws, ss := Append(cfg, ws, ss, Renew(k, access, refresh));
    WorksAgainExactly(cfg, ws, ss, |steps| + 2, hash);
    assert Reads(w, k + 1, hash);
  }
}
