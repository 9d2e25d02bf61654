/** The dial-session cache: key format, what cacheSession and
    deleteServiceSessions do to the cache, and the key discipline they keep. */
module SessionCache {
  import opened Wrappers
  import opened Types

  /** fmt.Sprintf("%s:%s", serviceId, sessionType). */
  function SessionKey(serviceId: string, t: SessionType): string
  {
    serviceId + ":" + TypeName(t)
  }

  /** Different (service, direction) pairs never share a key, even when the
      service id itself contains a colon: the suffix fixes the direction and
      then the prefix fixes the id. */
  lemma SessionKeyInjective(a: string, t: SessionType, b: string, u: SessionType)
    requires SessionKey(a, t) == SessionKey(b, u)
    ensures a == b && t == u
  {
    var k := SessionKey(a, t);
    assert |a| == |b|;
    assert a == k[..|a|] && b == k[..|b|];
    assert TypeName(t) == k[|a| + 1..] == TypeName(u);
  }

  /** The two operations that write the cache (the `op` argument). */
  datatype CacheOp = Create | Refresh

  /** ContextImpl.cacheSession. Only dial sessions are written, under the key
      made of the session's own service id and type. A "refresh" goes through
      an upsert whose merge returns the new value, so the refreshed object
      replaces the stored one just as "create" does. */
  function CacheSession(cache: map<string, SessionDetail>, op: CacheOp, s: SessionDetail): (r: map<string, SessionDetail>)
    ensures s.sessionType == Dial ==>
      SessionKey(s.serviceId, Dial) in r && r[SessionKey(s.serviceId, Dial)] == s
    ensures forall k | k != SessionKey(s.serviceId, s.sessionType) ::
      (k in r <==> k in cache) && (k in r ==> r[k] == cache[k])
    ensures s.sessionType == Bind ==> r == cache
  {
    if s.sessionType == Dial then
      match op
      case Create => cache[SessionKey(s.serviceId, Dial) := s]
      case Refresh => cache[SessionKey(s.serviceId, Dial) := s]
    else cache
  }

  /** ContextImpl.deleteServiceSessions: drop both directions' keys. */
  function DeleteServiceSessions(cache: map<string, SessionDetail>, serviceId: string): map<string, SessionDetail>
  {
    cache - {SessionKey(serviceId, Bind), SessionKey(serviceId, Dial)}
  }

  /** The keys of both directions for each of `ids`. */
  function ServiceSessionKeys(ids: set<string>): set<string>
  {
    (set id | id in ids :: SessionKey(id, Bind)) + (set id | id in ids :: SessionKey(id, Dial))
  }

  /** Cache-key discipline: every entry is a dial session stored under the
      key of its own service id. */
  ghost predicate KeyDiscipline(cache: map<string, SessionDetail>)
  {
    forall k | k in cache :: cache[k].sessionType == Dial && k == SessionKey(cache[k].serviceId, Dial)
  }

  lemma CacheSessionKeepsDiscipline(cache: map<string, SessionDetail>, op: CacheOp, s: SessionDetail)
    requires KeyDiscipline(cache)
    ensures KeyDiscipline(CacheSession(cache, op, s))
  {
  }

  /** Under the key discipline, deleting a service's sessions removes exactly
      the entries of that service and keeps every other entry. */
  lemma DeleteRemovesExactlyService(cache: map<string, SessionDetail>, serviceId: string)
    requires KeyDiscipline(cache)
    ensures KeyDiscipline(DeleteServiceSessions(cache, serviceId))
    ensures forall k | k in cache ::
      (k in DeleteServiceSessions(cache, serviceId) <==> cache[k].serviceId != serviceId)
  {
    forall k | k in cache ensures (k in DeleteServiceSessions(cache, serviceId) <==> cache[k].serviceId != serviceId) {
      if k == SessionKey(serviceId, Bind) {
        SessionKeyInjective(cache[k].serviceId, Dial, serviceId, Bind);
      } else if k == SessionKey(serviceId, Dial) {
        SessionKeyInjective(cache[k].serviceId, Dial, serviceId, Dial);
      }
    }
  }

  /** A refresh does not carry the cached token forward: when the refreshed
      payload has no token, the cached dial session afterwards has none. */
  lemma RefreshDropsCachedToken(cache: map<string, SessionDetail>, s: SessionDetail)
    requires s.sessionType == Dial && s.token.None?
    ensures CacheSession(cache, Refresh, s)[SessionKey(s.serviceId, Dial)].token.None?
  {
  }
}
