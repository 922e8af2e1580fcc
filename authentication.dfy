/**
 * AuthenticationResource.java: login creates or reuses the one session of a
 * user and hands out its id in a SESSION cookie, logout deletes the session
 * the cookie names, and the user endpoint reports who a live session or a
 * bearer token stands for. The authentication manager, the token validation,
 * the clock and the repository's id generator are parameters.
 */
module Authentication {
  import opened Wrappers
  import opened JavaText
  import opened Sessions

  /** The longest cookie life the resource gives, in seconds: a cookie cannot be made to last for ever. */
  const ONE_YEAR := 60 * 60 * 24 * 365

  /** The body of a reply naming a user: the user name and the roles. */
  datatype UserData = UserData(userName: string, roles: seq<string>)

  /** A successful login: the user, and the SESSION cookie with its max-age in seconds. */
  datatype LoginReply = LoginReply(user: UserData, cookie: Cookie, maxAge: int)

  /**
   * The max-age of the session cookie for a session timeout in minutes: a
   * year for a negative timeout, else sixty times the timeout, an int product.
   */
  function CookieMaxAge(timeout: int): (age: int)
    requires INT_MIN <= timeout <= INT_MAX
    ensures INT_MIN <= age <= INT_MAX
  {
    if timeout < 0 then ONE_YEAR else Wrap32(60 * timeout)
  }

  /**
   * The session findOrCreateSession creates at `now`: the user and the roles
   * recorded, idle for at most `timeout` minutes (a Duration, which does not
   * overflow).
   */
  function NewSession(id: string, user: string, roles: seq<string>, now: int, timeout: int): (s: Session)
    ensures s.id == id && s.principal == user && s.roles == roles
    ensures timeout < 0 ==> forall later :: !IsExpired(s, later)
    ensures timeout > 0 ==> forall later :: IsExpired(s, later) <==> later >= now + 60 * timeout
  {
    Session(id, user, roles, now, 60 * timeout)
  }

  /** The session expires when the cookie does, for every timeout whose product fits an int. */
  lemma CookieLastsAsLongAsSession(id: string, user: string, roles: seq<string>, now: int, timeout: int)
    requires 0 <= timeout <= INT_MAX / 60
    ensures CookieMaxAge(timeout) == NewSession(id, user, roles, now, timeout).maxInactive
  {
  }

  /** A negative timeout: the session never expires and the cookie lasts a year. */
  lemma NegativeTimeoutNeverExpires(id: string, user: string, roles: seq<string>, now: int, timeout: int, later: int)
    requires INT_MIN <= timeout < 0
    ensures CookieMaxAge(timeout) == ONE_YEAR
    ensures !IsExpired(NewSession(id, user, roles, now, timeout), later)
  {
  }

  /** Past INT_MAX / 60 minutes the int product wraps, and the cookie gets a negative max-age. */
  lemma CookieMaxAgeWraps(timeout: int)
    requires timeout == INT_MAX / 60 + 1
    ensures CookieMaxAge(timeout) < 0
  {
  }

  /**
   * The store once findOrCreateSession has looked for the user's session: an
   * expired one is deleted, anything else is kept.
   */
  ghost function Pruned(sessions: map<string, Session>, user: string, now: int): map<string, Session>
    requires WellFormed(sessions)
  {
    if HasSessionOf(sessions, user) && IsExpired(SessionOf(sessions, user), now)
    then sessions - {SessionOf(sessions, user).id}
    else sessions
  }

  /** The session a login of `user` ends with: the user's live session, else a new one under `newId`. */
  ghost function LoginSession(sessions: map<string, Session>, user: string, roles: seq<string>,
                              newId: string, now: int, timeout: int): Session
    requires WellFormed(sessions)
  {
    if HasSessionOf(sessions, user) && !IsExpired(SessionOf(sessions, user), now)
    then SessionOf(sessions, user)
    else NewSession(newId, user, roles, now, timeout)
  }

  /** The store after a login: pruned, then the login's session saved with its access time set to `now`. */
  ghost function LoginStore(sessions: map<string, Session>, user: string, roles: seq<string>,
                            newId: string, now: int, timeout: int): map<string, Session>
    requires WellFormed(sessions)
  {
    var s := LoginSession(sessions, user, roles, newId, now, timeout);
    Pruned(sessions, user, now)[s.id := s.(lastAccessed := now)]
  }

  /** Pruning keeps each session under its id and one session per user, and leaves the user with none or a live one. */
  lemma PrunedWellFormed(sessions: map<string, Session>, user: string, now: int)
    requires WellFormed(sessions)
    ensures WellFormed(Pruned(sessions, user, now))
    ensures Pruned(sessions, user, now).Keys <= sessions.Keys
    ensures forall id :: id in Pruned(sessions, user, now) ==> Pruned(sessions, user, now)[id] == sessions[id]
    ensures HasSessionOf(Pruned(sessions, user, now), user) ==>
      HasSessionOf(sessions, user) && !IsExpired(SessionOf(sessions, user), now)
  {
    var p := Pruned(sessions, user, now);
    if HasSessionOf(p, user) {
      var id :| id in p && p[id].principal == user;
      SessionOfUnique(sessions, id, user);
    }
  }

  /**
   * A login keeps the store well formed: the user's session is saved under
   * its id and is the only session of the user.
   */
  lemma LoginStoreWellFormed(sessions: map<string, Session>, user: string, roles: seq<string>,
                             newId: string, now: int, timeout: int)
    requires WellFormed(sessions) && newId !in sessions
    ensures WellFormed(LoginStore(sessions, user, roles, newId, now, timeout))
  {
    var s := LoginSession(sessions, user, roles, newId, now, timeout);
    var p := Pruned(sessions, user, now);
    var store := LoginStore(sessions, user, roles, newId, now, timeout);
    PrunedWellFormed(sessions, user, now);
    assert s.principal == user;
    forall a, b | a in store && b in store && store[a].principal == store[b].principal
      ensures a == b
    {
      if a != s.id && b != s.id {
        assert p[a] == store[a] && p[b] == store[b];
      }
    }
  }

  /** A user with a live session logs in to that session: same id, same roles as recorded before. */
  lemma LoginReusesLiveSession(sessions: map<string, Session>, id: string, user: string, roles: seq<string>,
                               newId: string, now: int, timeout: int)
    requires WellFormed(sessions) && id in sessions && sessions[id].principal == user
    requires !IsExpired(sessions[id], now)
    ensures LoginSession(sessions, user, roles, newId, now, timeout) == sessions[id]
    ensures LoginStore(sessions, user, roles, newId, now, timeout) == sessions[id := sessions[id].(lastAccessed := now)]
  {
    SessionOfUnique(sessions, id, user);
  }

  /** A user whose session has expired gets a new one, and the old one is deleted. */
  lemma LoginReplacesExpiredSession(sessions: map<string, Session>, id: string, user: string, roles: seq<string>,
                                    newId: string, now: int, timeout: int)
    requires WellFormed(sessions) && id in sessions && sessions[id].principal == user && newId !in sessions
    requires IsExpired(sessions[id], now)
    ensures LoginSession(sessions, user, roles, newId, now, timeout) == NewSession(newId, user, roles, now, timeout)
    ensures var store := LoginStore(sessions, user, roles, newId, now, timeout);
      id !in store && newId in store && store[newId].roles == roles
  {
    SessionOfUnique(sessions, id, user);
  }

  /**
   * Logging in again before the session has expired gives the same session
   * id, so the same cookie, and the roles recorded at the first login.
   */
  lemma RepeatedLoginKeepsSession(sessions: map<string, Session>, user: string, roles1: seq<string>, roles2: seq<string>,
                                  id1: string, id2: string, t1: int, t2: int, timeout: int)
    requires WellFormed(sessions) && id1 !in sessions
    requires id2 !in LoginStore(sessions, user, roles1, id1, t1, timeout)
    requires !IsExpired(LoginSession(sessions, user, roles1, id1, t1, timeout).(lastAccessed := t1), t2)
    ensures WellFormed(LoginStore(sessions, user, roles1, id1, t1, timeout))
    ensures var first := LoginSession(sessions, user, roles1, id1, t1, timeout);
      var second := LoginSession(LoginStore(sessions, user, roles1, id1, t1, timeout), user, roles2, id2, t2, timeout);
      second.id == first.id && second.roles == first.roles
  {
    LoginStoreWellFormed(sessions, user, roles1, id1, t1, timeout);
    var first := LoginSession(sessions, user, roles1, id1, t1, timeout);
    var store := LoginStore(sessions, user, roles1, id1, t1, timeout);
    assert first.principal == user;
    LoginReusesLiveSession(store, first.id, user, roles2, id2, t2, timeout);
  }

  /**
   * getCurrentUser: a cookie naming a live session gives that session's
   * user and roles; otherwise an Authorization header starting with
   * "Bearer " (in that case) has the rest of it validated by `verify`, and
   * an accepted token gives its user; anything else is 404.
   */
  function CurrentUser(sessions: map<string, Session>, cookieValue: Option<string>, authorization: Option<string>,
                       verify: string -> Option<UserData>, now: int): (r: Result<UserData>)
    ensures r.Err? ==> r.error == NotFound
  {
    if cookieValue.Some? && IsLive(sessions, cookieValue.value, now) then
      var s := sessions[cookieValue.value];
      Ok(UserData(s.principal, s.roles))
    else if authorization.Some? && StartsWith(authorization.value, "Bearer ")
            && verify(authorization.value[7..]).Some? then
      Ok(verify(authorization.value[7..]).value)
    else Err(NotFound)
  }

  /**
   * Right after a login the cookie finds the user, with the roles the
   * session holds, unless the session has an idle limit of zero and has
   * expired already.
   */
  lemma LoginThenCurrentUser(sessions: map<string, Session>, user: string, roles: seq<string>, newId: string,
                             now: int, timeout: int, authorization: Option<string>, verify: string -> Option<UserData>)
    requires WellFormed(sessions) && newId !in sessions
    ensures var s := LoginSession(sessions, user, roles, newId, now, timeout);
      var r := CurrentUser(LoginStore(sessions, user, roles, newId, now, timeout), Some(s.id), authorization, verify, now);
      s.principal == user
      && (s.maxInactive != 0 ==> r == Ok(UserData(user, s.roles)))
      && (s.maxInactive == 0 ==> r == CurrentUser(map[], None, authorization, verify, now))
  {
    var s := LoginSession(sessions, user, roles, newId, now, timeout);
    if HasSessionOf(sessions, user) && !IsExpired(SessionOf(sessions, user), now) {
      assert s == SessionOf(sessions, user);
    }
  }

  /** A live session cookie decides the user, whatever the Authorization header holds. */
  lemma SessionBeforeBearer(sessions: map<string, Session>, id: string, a1: Option<string>, a2: Option<string>,
                            verify: string -> Option<UserData>, now: int)
    requires IsLive(sessions, id, now)
    ensures CurrentUser(sessions, Some(id), a1, verify, now) == CurrentUser(sessions, Some(id), a2, verify, now)
    ensures CurrentUser(sessions, Some(id), a1, verify, now).Ok?
  {
  }

  /** Without a session cookie or an Authorization header there is no current user. */
  lemma NoCookieNoUser(sessions: map<string, Session>, verify: string -> Option<UserData>, now: int)
    ensures CurrentUser(sessions, None, None, verify, now) == Err(NotFound)
  {
  }

  /** The scheme test is case-sensitive: a lower-case "bearer" header is not looked at. */
  lemma LowerCaseBearerIgnored(sessions: map<string, Session>, token: string, verify: string -> Option<UserData>, now: int)
    requires verify(token).Some?
    ensures CurrentUser(sessions, None, Some("Bearer " + token), verify, now) == Ok(verify(token).value)
    ensures CurrentUser(sessions, None, Some("bearer " + token), verify, now) == Err(NotFound)
  {
    var upper, lower := "Bearer " + token, "bearer " + token;
    assert upper[..7] == "Bearer " && upper[7..] == token;
    assert lower[0] != "Bearer "[0];
  }

  /** After logout the cookie no longer finds a session. */
  lemma LogoutEndsSession(sessions: map<string, Session>, id: string, verify: string -> Option<UserData>, now: int)
    ensures CurrentUser(sessions - {id}, Some(id), None, verify, now) == Err(NotFound)
  {
  }

  class AuthenticationResource {
    const repo: SessionRepository

    /** spring.session.timeout: the idle limit of a session in minutes, 30 unless configured. */
    const sessionTimeout: int

    ghost predicate Valid()
      reads this, repo
    {
      repo.Valid() && INT_MIN <= sessionTimeout <= INT_MAX
    }

    constructor (repo: SessionRepository, sessionTimeout: int)
      requires INT_MIN <= sessionTimeout <= INT_MAX
      ensures this.repo == repo && this.sessionTimeout == sessionTimeout
    {
      this.repo := repo;
      this.sessionTimeout := sessionTimeout;
    }

    /**
     * findOrCreateSession: the user's session, if it is live; an expired one
     * is deleted and a new session under the fresh id `newId` is returned,
     * not yet saved.
     */
    method FindOrCreateSession(userName: string, roles: seq<string>, newId: string, now: int) returns (s: Session)
      requires Valid() && newId !in repo.sessions
      modifies repo
      ensures Valid() && newId !in repo.sessions
      ensures s == LoginSession(old(repo.sessions), userName, roles, newId, now, sessionTimeout)
      ensures repo.sessions == Pruned(old(repo.sessions), userName, now)
    {
      var found := set id | id in repo.sessions && repo.sessions[id].principal == userName;
      if HasSessionOf(repo.sessions, userName) {
        var id :| id in repo.sessions && repo.sessions[id].principal == userName;
        assert id in found;
      }
      if found != {} {
        var id :| id in found;
        s := repo.sessions[id];
        SessionOfUnique(repo.sessions, id, userName);
        if IsExpired(s, now) {
          repo.sessions := repo.sessions - {s.id};
        } else {
          return;
        }
      }
      s := NewSession(newId, userName, roles, now, sessionTimeout);
    }

    /**
     * login: credentials the manager `authenticate` refuses give 401 and
     * change nothing; otherwise the user's session is found or created, its
     * last access time set to `now` and saved, and the reply carries the
     * user name, the roles granted now, and the session's id in the cookie.
     */
    method Login(username: string, password: string, authenticate: (string, string) -> Option<seq<string>>,
                 newId: string, now: int) returns (r: Result<LoginReply>)
      requires Valid() && newId !in repo.sessions
      modifies repo
      ensures Valid()
      ensures authenticate(username, password).None? ==> r == Err(Unauthorized) && repo.sessions == old(repo.sessions)
      ensures authenticate(username, password).Some? ==>
        var roles := authenticate(username, password).value;
        var s := LoginSession(old(repo.sessions), username, roles, newId, now, sessionTimeout);
        && r == Ok(LoginReply(UserData(username, roles), Cookie(SESSION_COOKIE_NAME, s.id), CookieMaxAge(sessionTimeout)))
        && repo.sessions == LoginStore(old(repo.sessions), username, roles, newId, now, sessionTimeout)
    {
      var granted := authenticate(username, password);
      if granted.None? {
        return Err(Unauthorized);
      }
      var roles := granted.value;
      LoginStoreWellFormed(repo.sessions, username, roles, newId, now, sessionTimeout);
      var session := FindOrCreateSession(username, roles, newId, now);
      session := session.(lastAccessed := now);
      repo.sessions := repo.sessions[session.id := session];
      var maxAge := if sessionTimeout < 0 then ONE_YEAR else Wrap32(60 * sessionTimeout);
      r := Ok(LoginReply(UserData(username, roles), Cookie(SESSION_COOKIE_NAME, session.id), maxAge));
    }

    /** logout: the session the cookie names, if any, is deleted; the reply is always an empty 200. */
    method Logout(cookieValue: Option<string>) returns (body: string)
      requires Valid()
      modifies repo
      ensures Valid() && body == ""
      ensures repo.sessions == if cookieValue.Some? then old(repo.sessions) - {cookieValue.value} else old(repo.sessions)
    {
      if cookieValue.Some? {
        repo.sessions := repo.sessions - {cookieValue.value};
      }
      return "";
    }

    /** getCurrentUser, which changes nothing. */
    method GetCurrentUser(cookieValue: Option<string>, authorization: Option<string>,
                          verify: string -> Option<UserData>, now: int) returns (r: Result<UserData>)
      ensures r == CurrentUser(repo.sessions, cookieValue, authorization, verify, now)
    {
      if cookieValue.Some? && cookieValue.value in repo.sessions {
        var session := repo.sessions[cookieValue.value];
        if !IsExpired(session, now) {
          return Ok(UserData(session.principal, session.roles));
        }
      }
      if authorization.Some? && StartsWith(authorization.value, "Bearer ") {
        var verified := verify(authorization.value[7..]);
        if verified.Some? {
          return Ok(verified.value);
        }
      }
      return Err(NotFound);
    }
  }
}
