/** internal/repository/memory/oidc_queries.go: the table of OIDC sessions, one per sub. */
module OidcTable {
  import opened Base
  import opened OidcModel

  // Expiries are in Unix seconds. The userinfo column is kept decoded.
  datatype Session = Session(
    sub: string, accessTokenHash: string, refreshTokenHash: string, scope: string, clientId: string,
    tokenExpiresAt: int, refreshTokenExpiresAt: int, nonce: string, userinfo: Userinfo)

  type Table = map<string, Session>

  // Rows are filed under their sub, and no two rows share an access or a refresh token.
  ghost predicate Unique(t: Table) {
    && (forall k :: k in t ==> t[k].sub == k)
    && (forall j, k :: j in t && k in t && t[j].accessTokenHash == t[k].accessTokenHash ==> j == k)
    && (forall j, k :: j in t && k in t && t[j].refreshTokenHash == t[k].refreshTokenHash ==> j == k)
  }

  predicate Clashes(row: Session, s: Session) {
    || row.sub == s.sub
    || row.accessTokenHash == s.accessTokenHash
    || row.refreshTokenHash == s.refreshTokenHash
  }

  ghost predicate Conflicts(t: Table, s: Session) {
    exists k :: k in t && Clashes(t[k], s)
  }

  ghost function FindByAccess(t: Table, hash: string): Option<Session> {
    if k :| k in t && t[k].accessTokenHash == hash then Some(t[k]) else None
  }

  ghost function FindByRefresh(t: Table, hash: string): Option<Session> {
    if k :| k in t && t[k].refreshTokenHash == hash then Some(t[k]) else None
  }

  predicate Dead(s: Session, tokenTime: int, refreshTime: int) {
    s.tokenExpiresAt < tokenTime && s.refreshTokenExpiresAt < refreshTime
  }

  function WithoutDead(t: Table, tokenTime: int, refreshTime: int): Table {
    map k | k in t && !Dead(t[k], tokenTime, refreshTime) :: t[k]
  }

  // Storing a row whose tokens nobody else holds keeps the table unique.
  lemma StoreUnique(t: Table, s: Session)
    requires Unique(t)
    requires forall k :: k in t && k != s.sub ==>
               t[k].accessTokenHash != s.accessTokenHash && t[k].refreshTokenHash != s.refreshTokenHash
    ensures Unique(t[s.sub := s])
  {
  }
}

module OidcStores {
  import opened Base
  import opened OidcTable

  class OidcStore {
    var oidcSessions: Table

    constructor ()
      ensures oidcSessions == map[]
    {
      oidcSessions := map[];
    }

    method CreateOIDCSession(arg: Session) returns (created: bool)
      requires Unique(oidcSessions)
      modifies this
      ensures Unique(oidcSessions)
      ensures created <==> !Conflicts(old(oidcSessions), arg)
      ensures oidcSessions == if created then old(oidcSessions)[arg.sub := arg] else old(oidcSessions)
    {
      var unvisited := oidcSessions.Keys;
      while unvisited != {}
        invariant unvisited <= oidcSessions.Keys
        invariant forall k :: k in oidcSessions && k !in unvisited ==> !Clashes(oidcSessions[k], arg)
      {
        var k :| k in unvisited;
        unvisited := unvisited - {k};
        var sess := oidcSessions[k];
        if sess.sub == arg.sub {
          return false;
        } else if sess.accessTokenHash == arg.accessTokenHash {
          return false;
        } else if sess.refreshTokenHash == arg.refreshTokenHash {
          return false;
        }
      }
      oidcSessions := oidcSessions[arg.sub := arg];
      return true;
    }

    method GetOIDCSessionByAccessTokenHash(hash: string) returns (found: Option<Session>)
      requires Unique(oidcSessions)
      ensures found == FindByAccess(oidcSessions, hash)
    {
      var unvisited := oidcSessions.Keys;
      while unvisited != {}
        invariant unvisited <= oidcSessions.Keys
        invariant forall k :: k in oidcSessions && k !in unvisited ==> oidcSessions[k].accessTokenHash != hash
      {
        var k :| k in unvisited;
        unvisited := unvisited - {k};
        if oidcSessions[k].accessTokenHash == hash {
          return Some(oidcSessions[k]);
        }
      }
      return None;
    }

    method GetOIDCSessionByRefreshTokenHash(hash: string) returns (found: Option<Session>)
      requires Unique(oidcSessions)
      ensures found == FindByRefresh(oidcSessions, hash)
    {
      var unvisited := oidcSessions.Keys;
      while unvisited != {}
        invariant unvisited <= oidcSessions.Keys
        invariant forall k :: k in oidcSessions && k !in unvisited ==> oidcSessions[k].refreshTokenHash != hash
      {
        var k :| k in unvisited;
        unvisited := unvisited - {k};
        if oidcSessions[k].refreshTokenHash == hash {
          return Some(oidcSessions[k]);
        }
      }
      return None;
    }

    // Unlike creation, an update does not look for other rows with the same tokens.
    method UpdateOIDCSession(arg: Session) returns (found: bool)
      requires forall k :: k in oidcSessions ==> oidcSessions[k].sub == k
      modifies this
      ensures found <==> arg.sub in old(oidcSessions)
      ensures oidcSessions == if found then old(oidcSessions)[arg.sub := arg] else old(oidcSessions)
    {
      if arg.sub !in oidcSessions {
        return false;
      }
      var sess := oidcSessions[arg.sub];
      sess := sess.(accessTokenHash := arg.accessTokenHash);
      sess := sess.(refreshTokenHash := arg.refreshTokenHash);
      sess := sess.(scope := arg.scope);
      sess := sess.(clientId := arg.clientId);
      sess := sess.(tokenExpiresAt := arg.tokenExpiresAt);
      sess := sess.(refreshTokenExpiresAt := arg.refreshTokenExpiresAt);
      sess := sess.(nonce := arg.nonce);
      sess := sess.(userinfo := arg.userinfo);
      oidcSessions := oidcSessions[arg.sub := sess];
      return true;
    }

    method DeleteOIDCSessionBySub(sub: string)
      modifies this
      ensures oidcSessions == old(oidcSessions) - {sub}
    {
      oidcSessions := oidcSessions - {sub};
    }

    method DeleteExpiredOIDCSessions(tokenTime: int, refreshTime: int)
      modifies this
      ensures oidcSessions == WithoutDead(old(oidcSessions), tokenTime, refreshTime)
    {
      ghost var removed: set<string> := {};
      var unvisited := oidcSessions.Keys;
      assert oidcSessions - {} == oidcSessions;
      while unvisited != {}
        invariant unvisited <= oidcSessions.Keys
        invariant oidcSessions == old(oidcSessions) - removed
        invariant removed <= old(oidcSessions).Keys
        invariant forall k :: k in removed ==> Dead(old(oidcSessions)[k], tokenTime, refreshTime)
        invariant forall k :: k in oidcSessions && k !in unvisited ==>
                    !Dead(oidcSessions[k], tokenTime, refreshTime)
      {
        var k :| k in unvisited;
        unvisited := unvisited - {k};
        var sess := oidcSessions[k];
        if sess.tokenExpiresAt < tokenTime && sess.refreshTokenExpiresAt < refreshTime {
          oidcSessions := oidcSessions - {k};
          removed := removed + {k};
        }
      }
    }
  }
}
