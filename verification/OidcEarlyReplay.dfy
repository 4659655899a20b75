/**
 A run in which a replay comes too early: between the two steps of the request that redeemed the code,
 marking it and issuing tokens. The replay is refused and deletes nothing, and the session is stored after it.
 */
module OidcEarlyReplay {
  import opened Base
  import opened OidcModel
  import opened OidcTable
  import opened OidcInterleaving
  import opened OidcContinuation
  import opened OidcRevocation
  import C = CacheSpec
  import P = OidcProtocol

  // A code with its entry, a request of its client that presents it rightly, and the strings drawn for
  // two such requests.
  datatype Case = Case(
    code: string, entry: CodeEntry, client: Client, req: P.TokenRequest, access: string, refresh: string,
    otherAccess: string, otherRefresh: string)

  ghost predicate Fair(cfg: Config, c: Case) {
    && c.entry.codeHash == cfg.hash(c.code) && c.entry.clientId == c.client.clientId
    && c.req.code == c.code && P.ExchangeAllowed(cfg, c.entry, c.req)
    && C.NoDuplicates([c.code, c.access, c.refresh, c.otherAccess, c.otherRefresh])
  }

  function Request(c: Case, phase: Phase, redeemed: Option<CodeEntry>): Handler {
    Handler(c.req, c.client, c.access, c.refresh, phase, redeemed)
  }

  function Replay(c: Case, phase: Phase): Handler {
    Handler(c.req, c.client, c.otherAccess, c.otherRefresh, phase, None)
  }

  const NO_CODES: C.Cache<CodeEntry> := C.Empty(P.CACHE_SIZE)
  const NONE_USED: C.Cache<string> := C.Empty(P.CACHE_SIZE)

  function Coded(c: Case): C.Cache<CodeEntry> {
    C.Cache(map[c.entry.codeHash := C.Entry(c.entry, Some(P.CODE_TTL))], [c.entry.codeHash], P.CACHE_SIZE)
  }

  function Recorded(c: Case): C.Cache<string> {
    var used := C.Entry(c.entry.userinfo.sub, Some(P.USED_CODE_TTL));
    C.Cache(map[c.entry.codeHash := used], [c.entry.codeHash], P.CACHE_SIZE)
  }

  function DrawnFor(c: Case, handlers: nat): set<string> {
    {c.code} + (if handlers > 0 then {c.access, c.refresh} else {})
    + if handlers > 1 then {c.otherAccess, c.otherRefresh} else {}
  }

  function At(c: Case, codes: C.Cache<CodeEntry>, used: C.Cache<string>, handlers: seq<Handler>): World {
    World(0, DrawnFor(c, |handlers|), codes, used, map[], map[], handlers, [])
  }

  function Arrival(h: Handler): Step {
    Arrive(h.req, h.client, h.access, h.refresh)
  }

  function Opening(c: Case): seq<Step> {
    [StoreCode(c.code, c.entry, None), Arrival(Request(c, Arrived, None)), Arrival(Replay(c, Arrived)),
     Redeem(0), MarkUsed(0, None), Redeem(1), CheckUsed(1)]
  }

  function Worlds(c: Case): seq<World> {
    var entry := c.entry;
    var marked := Request(c, Marked(entry), Some(entry));
    [World(0, {}, NO_CODES, NONE_USED, map[], map[], [], []),
     At(c, Coded(c), NONE_USED, []),
     At(c, Coded(c), NONE_USED, [Request(c, Arrived, None)]),
     At(c, Coded(c), NONE_USED, [Request(c, Arrived, None), Replay(c, Arrived)]),
     At(c, NO_CODES, NONE_USED, [Request(c, Holding(entry), Some(entry)), Replay(c, Arrived)]),
     At(c, NO_CODES, Recorded(c), [marked, Replay(c, Arrived)]),
     At(c, NO_CODES, Recorded(c), [marked, Replay(c, Missed)]),
     At(c, NO_CODES, Recorded(c), [marked, Replay(c, Replaying(entry.userinfo.sub))])]
  }

  lemma CodeStored(cfg: Config, c: Case)
    requires Fair(cfg, c)
    ensures Follows(cfg, Worlds(c)[0], Opening(c)[0], Worlds(c)[1])
  {
  }

  lemma Distinct(cfg: Config, c: Case)
    requires Fair(cfg, c)
    ensures c.access != c.refresh && c.access != c.code && c.refresh != c.code
    ensures c.otherAccess != c.otherRefresh && c.otherAccess !in DrawnFor(c, 1) && c.otherRefresh !in DrawnFor(c, 1)
  {
    var drawn := [c.code, c.access, c.refresh, c.otherAccess, c.otherRefresh];
    assert drawn[0] == c.code && drawn[1] == c.access && drawn[2] == c.refresh;
    assert drawn[3] == c.otherAccess && drawn[4] == c.otherRefresh;
  }

  lemma RequestsArrive(cfg: Config, c: Case)
    requires Fair(cfg, c)
    ensures Follows(cfg, Worlds(c)[1], Opening(c)[1], Worlds(c)[2])
    ensures Follows(cfg, Worlds(c)[2], Opening(c)[2], Worlds(c)[3])
  {
    Distinct(cfg, c);
  }

  lemma CodeRedeemed(cfg: Config, c: Case)
    requires Fair(cfg, c)
    ensures Follows(cfg, Worlds(c)[3], Opening(c)[3], Worlds(c)[4])
  {
    var (h, codes) := (c.entry.codeHash, Coded(c));
    assert P.Redeem(codes, 0, h, c.client.clientId) == (C.Delete(codes, h), Some(c.entry));
    assert C.Delete(codes, h) == NO_CODES by {
      assert codes.entries - {h} == map[];
      C.WithoutBetween([], h, []);
      assert [] + [h] + [] == [h];
    }
  }

  lemma CodeMarked(cfg: Config, c: Case)
    requires Fair(cfg, c)
    ensures Follows(cfg, Worlds(c)[4], Opening(c)[4], Worlds(c)[5])
  {
  }

  lemma ReplayMisses(cfg: Config, c: Case)
    requires Fair(cfg, c)
    ensures Follows(cfg, Worlds(c)[5], Opening(c)[5], Worlds(c)[6])
    ensures Follows(cfg, Worlds(c)[6], Opening(c)[6], Worlds(c)[7])
  {
  }

  lemma OpeningMoves(cfg: Config, c: Case, n: nat)
    requires Fair(cfg, c) && n < |Opening(c)|
    ensures Moves(cfg, Worlds(c), Opening(c), n)
  {
    if n == 0 {
      CodeStored(cfg, c);
    } else if n <= 2 {
      RequestsArrive(cfg, c);
    } else if n == 3 {
      CodeRedeemed(cfg, c);
    } else if n == 4 {
      CodeMarked(cfg, c);
    } else {
      ReplayMisses(cfg, c);
    }
  }

  lemma OpeningRun(cfg: Config, c: Case)
    requires Fair(cfg, c)
    ensures IsRun(cfg, Worlds(c), Opening(c))
  {
    forall n | 0 <= n < |Opening(c)|
      ensures Moves(cfg, Worlds(c), Opening(c), n)
    {
      OpeningMoves(cfg, c, n);
    }
  }

  /**
   The replay of such a code deletes the session of its sub before it exists; the request it replays is
   still unfinished, so the revocation is not for good.
   */
  lemma ReplayTooEarly(cfg: Config, c: Case) returns (worlds: seq<World>, steps: seq<Step>)
    requires ValidConfig(cfg) && Fair(cfg, c)
    ensures IsRun(cfg, worlds, steps) && steps == Opening(c) + [Revoke(1), Issue(0)]
    ensures var sub := c.entry.userinfo.sub;
            && |worlds[8].handlers| == 2 && |worlds[9].handlers| == 2
            && worlds[8].handlers[1].phase == Refused && sub !in worlds[8].sessions
            && worlds[9].handlers[0].phase == Exchanged && Owned(worlds[9], sub, 0)
  {
    OpeningRun(cfg, c);
    worlds, steps := Append(cfg, Worlds(c), Opening(c), Revoke(1));
    var w := worlds[8];
    assert w == At(c, NO_CODES, Recorded(c), [Request(c, Marked(c.entry), Some(c.entry)), Replay(c, Refused)]) by {
      var table: Table, origins: map<string, nat> := map[], map[];
      assert table - {c.entry.userinfo.sub} == table && origins - {c.entry.userinfo.sub} == origins;
    }
    worlds, steps := Append(cfg, worlds, steps, Issue(0));
    assert Opening(c) + [Revoke(1)] + [Issue(0)] == Opening(c) + [Revoke(1), Issue(0)];
  }
}
