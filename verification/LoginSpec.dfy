/** Login rate limiting (internal/service/auth_service.go) over the timed cache, as functions. */
module LoginSpec {
  import opened Base
  import C = CacheSpec

  // lockedUntil is 0, before every clock reading, when the account was never locked.
  datatype LoginAttempt = LoginAttempt(failedAttempts: int, lastAttempt: int, lockedUntil: int)

  type LoginCache = C.Cache<LoginAttempt>

  // timeout is in seconds.
  datatype Limits = Limits(maxRetries: int, timeout: int, lockdownEnabled: bool, maxLogins: int) {
    predicate Off() {
      maxRetries <= 0 || timeout <= 0
    }

    function CacheSize(): int {
      if lockdownEnabled then 0 else maxLogins
    }
  }

  const MIN_LOGIN_LIMIT := 256

  // ldapUsers is None when LDAP is off or cannot count; jitter is None when randomness fails.
  function LockdownLimit(localUsers: nat, ldapUsers: Option<int>, maxRetries: int, jitter: Option<nat>): (limit: int)
    ensures limit >= 256
    ensures limit >= (localUsers + if ldapUsers.Some? then ldapUsers.value else 0) * maxRetries
    ensures limit > 256 ==>
              0 <= limit - (localUsers + if ldapUsers.Some? then ldapUsers.value else 0) * maxRetries ==
              if jitter.Some? then jitter.value else 0
  {
    var userCount := localUsers + (if ldapUsers.Some? then ldapUsers.value else 0);
    var limit := userCount * maxRetries + (if jitter.Some? then jitter.value else 0);
    if limit < MIN_LOGIN_LIMIT then MIN_LOGIN_LIMIT else limit
  }

  function LockDeadline(limits: Limits, failures: int, now: int, otherwise: int): int {
    if failures >= limits.maxRetries then now + limits.timeout * SECOND else otherwise
  }

  function FirstAttempt(limits: Limits, now: int, success: bool): LoginAttempt {
    if success then LoginAttempt(0, now, 0) else LoginAttempt(1, now, LockDeadline(limits, 1, now, 0))
  }

  function NextAttempt(limits: Limits, a: LoginAttempt, now: int, success: bool): LoginAttempt {
    if success then LoginAttempt(0, now, 0)
    else
      var failures := a.failedAttempts + 1;
      LoginAttempt(failures, now, LockDeadline(limits, failures, now, a.lockedUntil))
  }

  // Too many identifiers on record: the failure is not recorded, a lockdown is asked for instead.
  predicate Floods(limits: Limits, c: LoginCache, success: bool) {
    !success && limits.lockdownEnabled && |c.entries| >= limits.maxLogins
  }

  predicate Records(limits: Limits, c: LoginCache, success: bool) {
    !limits.Off() && !Floods(limits, c, success)
  }

  // Login records never expire, so a full cache gives up the earliest inserted one.
  function Record(limits: Limits, c: LoginCache, now: int, identifier: string, success: bool): LoginCache {
    if !Records(limits, c, success) then c
    else
      var found := C.Get(c, now, identifier);
      var attempt :=
        if found.None? then FirstAttempt(limits, now, success) else NextAttempt(limits, found.value, now, success);
      C.Set(c, now, identifier, attempt, 0, C.Head(c, identifier))
  }

  function IsLocked(limits: Limits, c: LoginCache, lockdown: bool, now: int, identifier: string): bool {
    if lockdown then true
    else if limits.Off() then false
    else
      var found := C.Get(c, now, identifier);
      found.Some? && found.value.lockedUntil > now
  }

  // ----- The login cache stays well formed -----

  ghost predicate Valid(limits: Limits, c: LoginCache) {
    && C.Valid(c) && c.maxSize == limits.CacheSize()
    && C.Untimed(c)
  }

  lemma RecordValid(limits: Limits, c: LoginCache, now: int, identifier: string, success: bool)
    requires Valid(limits, c)
    ensures Valid(limits, Record(limits, c, now, identifier, success))
  {
    if Records(limits, c, success) {
      C.EvictsEarliest(c, now, identifier, C.Head(c, identifier));
      C.SetValid(c, now, identifier, Record(limits, c, now, identifier, success).entries[identifier].value, 0,
                 C.Head(c, identifier));
    }
  }

  lemma SweepKeepsLogins(limits: Limits, c: LoginCache, now: int)
    requires Valid(limits, c)
    ensures C.Sweep(c, now) == c
  {
    assert C.Live(c.entries, now) == c.entries;
    C.RestrictAll(c.order, c.entries.Keys);
  }
}
