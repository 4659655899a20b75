/**
 Token requests run concurrently. GetCodeEntry is one locked section, and so is each later access to
 the used-code cache and the session table, by exchanges, replays and refreshes; anything may happen in
 between. Whatever the interleaving, a code is exchanged at most once, and only its own client can use
 it up.
 */
module OidcInterleaving {
  import opened Base
  import opened OidcModel
  import opened OidcTable
  import C = CacheSpec
  import P = OidcProtocol

  datatype Phase =
    | Arrived
    | Missed                       // GetCodeEntry found nothing for this client
    | Replaying(sub: string)       // the code was used before, the session is to be deleted
    | Holding(entry: CodeEntry)    // GetCodeEntry returned the entry and deleted it
    | Marked(entry: CodeEntry)     // the code is on record as used
    | Refused
    | Exchanged

  // A request whose client is authenticated, with the tokens it will hand out if it gets that far,
  // and the entry it took out of the code cache, if it did.
  datatype Handler = Handler(
    req: P.TokenRequest, client: Client, access: string, refresh: string, phase: Phase,
    redeemed: Option<CodeEntry>)

  // A row that a refresh request has read and writes back renewed, once. origin names the handler whose
  // exchange the row stems from, if there was one since the start.
  datatype Renewal = Renewal(row: Session, origin: Option<nat>, written: bool)

  datatype World = World(
    clock: nat,
    minted: set<string>,        // what GenerateString has returned so far
    codes: C.Cache<CodeEntry>,
    used: C.Cache<string>,
    sessions: Table,
    origins: map<string, nat>,  // the handler each row stems from
    handlers: seq<Handler>,
    renewals: seq<Renewal>)

  datatype Step =
    | Arrive(req: P.TokenRequest, client: Client, access: string, refresh: string)
    | Redeem(h: nat)
    | CheckUsed(h: nat)
    | Revoke(h: nat)
    | MarkUsed(h: nat, evicted: Option<string>)
    | Issue(h: nat)
    | ReadRow(sub: string)
    | Renew(k: nat, newAccess: string, newRefresh: string)
    | StoreCode(code: string, entry: CodeEntry, evicted: Option<string>)  // by authorize-complete
    | DropSession(sub: string)  // by authorize-complete, expiry or cleanup
    | Sweep
    | Tick(time: nat)

  predicate New(w: World, access: string, refresh: string) {
    access !in w.minted && refresh !in w.minted && access != refresh
  }

  ghost predicate Enabled(cfg: Config, w: World, s: Step) {
    match s
    case Arrive(_, _, access, refresh) => New(w, access, refresh)
    case Redeem(h) => h < |w.handlers| && w.handlers[h].phase == Arrived
    case CheckUsed(h) => h < |w.handlers| && w.handlers[h].phase == Missed
    case Revoke(h) => h < |w.handlers| && w.handlers[h].phase.Replaying?
    case MarkUsed(h, evicted) =>
      && h < |w.handlers| && w.handlers[h].phase.Holding?
      && C.MayEvict(w.used, w.clock, cfg.hash(w.handlers[h].req.code), evicted)
    case Issue(h) => h < |w.handlers| && w.handlers[h].phase.Marked?
    case ReadRow(sub) => sub in w.sessions && w.sessions[sub].refreshTokenExpiresAt >= Unix(w.clock)
    case Renew(k, access, refresh) => k < |w.renewals| && !w.renewals[k].written && New(w, access, refresh)
    case StoreCode(code, entry, evicted) =>
      && code !in w.minted && entry.codeHash == cfg.hash(code)
      && C.MayEvict(w.codes, w.clock, entry.codeHash, evicted)
    case DropSession(_) => true
    case Sweep => true
    case Tick(time) => w.clock <= time
  }

  function With(w: World, h: nat, handler: Handler): World
    requires h < |w.handlers|
  {
    w.(handlers := w.handlers[h := handler])
  }

  function Without(w: World, sub: string): World {
    w.(sessions := w.sessions - {sub}, origins := w.origins - {sub})
  }

  function OriginOf(w: World, sub: string): Option<nat> {
    if sub in w.origins then Some(w.origins[sub]) else None
  }

  function Draw(w: World, access: string, refresh: string): World {
    w.(minted := w.minted + {access, refresh})
  }

  // UpdateOIDCSession overwrites the row of the sub if there is one, whatever it is by now.
  function Renewed(cfg: Config, w: World, r: Renewal, access: string, refresh: string): World {
    var sub := r.row.sub;
    if sub !in w.sessions then w
    else
      w.(sessions := w.sessions[sub := P.Rotated(cfg, r.row, access, refresh, w.clock)],
         origins := if r.origin.Some? then w.origins[sub := r.origin.value] else w.origins - {sub})
  }

  ghost function Next(cfg: Config, w: World, s: Step): World
    requires Enabled(cfg, w, s)
  {
    match s
    case Arrive(req, client, access, refresh) =>
      Draw(w, access, refresh).(handlers := w.handlers + [Handler(req, client, access, refresh, Arrived, None)])
    case Redeem(h) =>
      var me := w.handlers[h];
      var (codes, entry) := P.Redeem(w.codes, w.clock, cfg.hash(me.req.code), me.client.clientId);
      if entry.None? then With(w, h, me.(phase := Missed))
      else With(w, h, me.(phase := Holding(entry.value), redeemed := entry)).(codes := codes)
    case CheckUsed(h) =>
      var me := w.handlers[h];
      var sub := C.Get(w.used, w.clock, cfg.hash(me.req.code));
      With(w, h, me.(phase := if sub.Some? then Replaying(sub.value) else Refused))
    case Revoke(h) =>
      var me := w.handlers[h];
      Without(With(w, h, me.(phase := Refused)), me.phase.sub)
    case MarkUsed(h, evicted) =>
      var me := w.handlers[h];
      var sub := me.phase.entry.userinfo.sub;
      With(w, h, me.(phase := Marked(me.phase.entry)))
        .(used := C.Set(w.used, w.clock, cfg.hash(me.req.code), sub, P.USED_CODE_TTL, evicted))
    case Issue(h) =>
      var me := w.handlers[h];
      var session := P.SessionFor(cfg, me.client, me.phase.entry, me.access, me.refresh, w.clock);
      if !P.ExchangeAllowed(cfg, me.phase.entry, me.req) || Conflicts(w.sessions, session) then
        With(w, h, me.(phase := Refused))
      else
        With(w, h, me.(phase := Exchanged))
        .(sessions := w.sessions[session.sub := session], origins := w.origins[session.sub := h])
    case ReadRow(sub) => w.(renewals := w.renewals + [Renewal(w.sessions[sub], OriginOf(w, sub), false)])
    case Renew(k, newAccess, newRefresh) =>
      Renewed(cfg, Draw(w, newAccess, newRefresh), w.renewals[k], newAccess, newRefresh)
      .(renewals := w.renewals[k := w.renewals[k].(written := true)])
    case StoreCode(code, entry, evicted) =>
      w.(minted := w.minted + {code}, codes := C.Set(w.codes, w.clock, entry.codeHash, entry, P.CODE_TTL, evicted))
    case DropSession(sub) => Without(w, sub)
    case Sweep => w.(codes := C.Sweep(w.codes, w.clock), used := C.Sweep(w.used, w.clock))
    case Tick(time) => w.(clock := time)
  }

  // The caches start empty; the table may hold rows from before, with tokens drawn then.
  ghost predicate Init(cfg: Config, w: World) {
    && w.codes.entries == map[] && w.used.entries == map[] && w.handlers == [] && w.renewals == []
    && w.origins == map[] && P.GoodSessions(cfg, w.minted, w.sessions)
  }

  ghost predicate IsRun(cfg: Config, worlds: seq<World>, steps: seq<Step>) {
    && |worlds| == |steps| + 1 && Init(cfg, worlds[0])
    && forall n :: 0 <= n < |steps| ==> Moves(cfg, worlds, steps, n)
  }

  ghost predicate Moves(cfg: Config, worlds: seq<World>, steps: seq<Step>, n: nat)
    requires n < |steps| && |worlds| == |steps| + 1
  {
    Follows(cfg, worlds[n], steps[n], worlds[n + 1])
  }

  ghost predicate Follows(cfg: Config, w: World, s: Step, w': World) {
    Enabled(cfg, w, s) && w' == Next(cfg, w, s)
  }

  // ----- At most one exchange -----

  // Handler h took its code out of the cache, and it is still out.
  ghost predicate Took(cfg: Config, w: World, h: nat)
    requires h < |w.handlers|
  {
    w.handlers[h].req.code in w.minted && cfg.hash(w.handlers[h].req.code) !in w.codes.entries
  }

  ghost predicate CodesMinted(cfg: Config, w: World) {
    forall k :: k in w.codes.entries ==> P.MintedHash(cfg, w.minted, k)
  }

  predicate Earned(h: Handler) {
    && (h.phase.Holding? || h.phase.Marked? ==> h.redeemed == Some(h.phase.entry))
    && (h.phase.Exchanged? ==> h.redeemed.Some?)
    && (h.phase.Arrived? || h.phase.Missed? || h.phase.Replaying? ==> h.redeemed.None?)
  }

  ghost predicate OneTaker(w: World) {
    forall g, h | 0 <= g < |w.handlers| && 0 <= h < |w.handlers| && w.handlers[g].redeemed.Some? ::
      w.handlers[h].redeemed.Some? && w.handlers[g].req.code == w.handlers[h].req.code ==> g == h
  }

  ghost predicate Consistent(cfg: Config, w: World) {
    && CodesMinted(cfg, w)
    && (forall h :: 0 <= h < |w.handlers| && w.handlers[h].redeemed.Some? ==> Took(cfg, w, h))
    && (forall h :: 0 <= h < |w.handlers| ==> Earned(w.handlers[h]))
    && OneTaker(w)
  }

  lemma RedeemConsistent(cfg: Config, w: World, h: nat)
    requires ValidConfig(cfg) && Consistent(cfg, w) && Enabled(cfg, w, Redeem(h))
    ensures Consistent(cfg, Next(cfg, w, Redeem(h)))
  {
    var me := w.handlers[h];
    var k := cfg.hash(me.req.code);
    if P.Redeem(w.codes, w.clock, k, me.client.clientId).1.Some? {
      assert P.MintedHash(cfg, w.minted, k);
      assert me.req.code in w.minted;
    }
  }

  lemma StoreConsistent(cfg: Config, w: World, code: string, entry: CodeEntry, evicted: Option<string>)
    requires ValidConfig(cfg) && Consistent(cfg, w) && Enabled(cfg, w, StoreCode(code, entry, evicted))
    ensures Consistent(cfg, Next(cfg, w, StoreCode(code, entry, evicted)))
  {
    var w' := Next(cfg, w, StoreCode(code, entry, evicted));
    forall k | k in w'.codes.entries
      ensures P.MintedHash(cfg, w'.minted, k)
    {
      if k == entry.codeHash {
        assert code in w'.minted;
      } else {
        var x :| x in w.minted && cfg.hash(x) == k;
        assert x in w'.minted;
      }
    }
  }

  // Steps of a handler that leave the codes alone and do not change what it redeemed.
  lemma PhaseConsistent(cfg: Config, w: World, w': World, h: nat)
    requires Consistent(cfg, w) && h < |w.handlers| == |w'.handlers| && w'.codes == w.codes && w'.minted == w.minted
    requires w'.handlers == w.handlers[h := w.handlers[h].(phase := w'.handlers[h].phase)]
    requires Earned(w'.handlers[h])
    ensures Consistent(cfg, w')
  {
  }

  lemma OtherConsistent(cfg: Config, w: World, s: Step)
    requires Consistent(cfg, w) && Enabled(cfg, w, s)
    requires s.Arrive? || s.ReadRow? || s.Renew? || s.DropSession? || s.Sweep? || s.Tick?
    ensures Consistent(cfg, Next(cfg, w, s))
  {
  }

  lemma NextConsistent(cfg: Config, w: World, s: Step)
    requires ValidConfig(cfg) && Consistent(cfg, w) && Enabled(cfg, w, s)
    ensures Consistent(cfg, Next(cfg, w, s))
  {
    match s
    case Redeem(h) => RedeemConsistent(cfg, w, h);
    case StoreCode(code, entry, evicted) => StoreConsistent(cfg, w, code, entry, evicted);
    case CheckUsed(h) => PhaseConsistent(cfg, w, Next(cfg, w, s), h);
    case Revoke(h) => PhaseConsistent(cfg, w, Next(cfg, w, s), h);
    case MarkUsed(h, _) => PhaseConsistent(cfg, w, Next(cfg, w, s), h);
    case Issue(h) => PhaseConsistent(cfg, w, Next(cfg, w, s), h);
    case _ => OtherConsistent(cfg, w, s);
  }

  lemma StepConsistent(cfg: Config, w: World, s: Step, w': World)
    requires ValidConfig(cfg) && Consistent(cfg, w) && Follows(cfg, w, s, w')
    ensures Consistent(cfg, w')
  {
    NextConsistent(cfg, w, s);
  }

  lemma {:induction false} RunConsistent(cfg: Config, worlds: seq<World>, steps: seq<Step>, n: nat)
    requires ValidConfig(cfg) && IsRun(cfg, worlds, steps) && n < |worlds|
    ensures Consistent(cfg, worlds[n])
  {
    if n > 0 {
      RunConsistent(cfg, worlds, steps, n - 1);
      assert Moves(cfg, worlds, steps, n - 1);
      StepConsistent(cfg, worlds[n - 1], steps[n - 1], worlds[n]);
    }
  }

  /** Under every interleaving two successful requests never presented the same code. */
  lemma ExchangedOnce(cfg: Config, worlds: seq<World>, steps: seq<Step>, n: nat, g: nat, h: nat)
    requires ValidConfig(cfg) && IsRun(cfg, worlds, steps) && n < |worlds|
    requires g < |worlds[n].handlers| && h < |worlds[n].handlers|
    requires worlds[n].handlers[g].phase == Exchanged && worlds[n].handlers[h].phase == Exchanged
    requires worlds[n].handlers[g].req.code == worlds[n].handlers[h].req.code
    ensures g == h
  {
    RunConsistent(cfg, worlds, steps, n);
    assert Earned(worlds[n].handlers[g]) && Earned(worlds[n].handlers[h]);
  }

  // ----- Other clients cannot use a code up -----

  // The step takes the code k out of the cache: its client redeems it, or a new code evicts it.
  ghost predicate Takes(cfg: Config, w: World, s: Step, k: string, owner: string) {
    || (s.Redeem? && s.h < |w.handlers| && cfg.hash(w.handlers[s.h].req.code) == k
        && w.handlers[s.h].client.clientId == owner)
    || (s.StoreCode? && s.evicted == Some(k))
  }

  lemma CodeStays(cfg: Config, w: World, s: Step, w': World, k: string, e: C.Entry<CodeEntry>)
    requires ValidConfig(cfg) && CodesMinted(cfg, w) && Follows(cfg, w, s, w')
    requires k in w.codes.entries && w.codes.entries[k] == e
    requires !C.Expired(e, w.clock) && !Takes(cfg, w, s, k, e.value.clientId)
    ensures k in w'.codes.entries && w'.codes.entries[k] == e
  {
    if s.StoreCode? {
      P.FreshHash(cfg, w.minted, s.code);
    }
  }

  lemma ClockStep(cfg: Config, w: World, s: Step, w': World)
    requires Follows(cfg, w, s, w')
    ensures w.clock <= w'.clock
  {
  }

  lemma RunClock(cfg: Config, worlds: seq<World>, steps: seq<Step>, n: nat)
    requires IsRun(cfg, worlds, steps) && n < |steps|
    ensures worlds[n].clock <= worlds[n + 1].clock
  {
    assert Moves(cfg, worlds, steps, n);
    ClockStep(cfg, worlds[n], steps[n], worlds[n + 1]);
  }

  lemma RunKeepsCode(cfg: Config, worlds: seq<World>, steps: seq<Step>, n: nat, k: string, e: C.Entry<CodeEntry>)
    requires ValidConfig(cfg) && IsRun(cfg, worlds, steps) && n < |steps|
    requires k in worlds[n].codes.entries && worlds[n].codes.entries[k] == e
    requires !C.Expired(e, worlds[n].clock) && !Takes(cfg, worlds[n], steps[n], k, e.value.clientId)
    ensures k in worlds[n + 1].codes.entries && worlds[n + 1].codes.entries[k] == e
  {
    RunConsistent(cfg, worlds, steps, n);
    assert Moves(cfg, worlds, steps, n);
    CodeStays(cfg, worlds[n], steps[n], worlds[n + 1], k, e);
  }

  lemma {:induction false} CodeKept(cfg: Config, worlds: seq<World>, steps: seq<Step>, i: nat, j: nat, k: string,
                                    e: C.Entry<CodeEntry>)
    requires ValidConfig(cfg) && IsRun(cfg, worlds, steps) && i <= j < |worlds|
    requires k in worlds[i].codes.entries && worlds[i].codes.entries[k] == e && !C.Expired(e, worlds[j].clock)
    requires forall n :: i <= n < j ==> !Takes(cfg, worlds[n], steps[n], k, e.value.clientId)
    ensures k in worlds[j].codes.entries && worlds[j].codes.entries[k] == e
  {
    if i < j {
      RunClock(cfg, worlds, steps, j - 1);
      CodeKept(cfg, worlds, steps, i, j - 1, k, e);
      RunKeepsCode(cfg, worlds, steps, j - 1, k, e);
    }
  }

  /**
   Whatever other clients present, and however their requests interleave, a code that is neither
   expired nor evicted is there for its own client to redeem.
   */
  lemma OwnerCanRedeem(cfg: Config, worlds: seq<World>, steps: seq<Step>, i: nat, j: nat, code: string)
    requires ValidConfig(cfg) && IsRun(cfg, worlds, steps) && i <= j < |worlds|
    requires cfg.hash(code) in worlds[i].codes.entries
    requires var e := worlds[i].codes.entries[cfg.hash(code)];
             && !C.Expired(e, worlds[j].clock)
             && forall n :: i <= n < j ==> !Takes(cfg, worlds[n], steps[n], cfg.hash(code), e.value.clientId)
    ensures var entry := worlds[i].codes.entries[cfg.hash(code)].value;
            P.Redeem(worlds[j].codes, worlds[j].clock, cfg.hash(code), entry.clientId).1 == Some(entry)
  {
    CodeKept(cfg, worlds, steps, i, j, cfg.hash(code), worlds[i].codes.entries[cfg.hash(code)]);
  }
}
