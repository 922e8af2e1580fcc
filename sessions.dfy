/**
 * The session store shared by the session filter and the authentication
 * resource: Spring's indexed session repository, seen as a map from a
 * session's id to the session. Login is the only place a session is created,
 * and it always records the user name and the roles, so both are plain
 * fields here. Times are seconds on one clock.
 */
module Sessions {
  import opened Wrappers

  /** The name of the cookie that carries a session id. */
  const SESSION_COOKIE_NAME := "SESSION"

  /**
   * A stored session: its id, the principal name and role list recorded at
   * login, the last access time and the longest idle time allowed, in
   * seconds (negative: the session never expires).
   */
  datatype Session = Session(id: string, principal: string, roles: seq<string>,
                             lastAccessed: int, maxInactive: int)

  /** Session.isExpired: the idle time has reached the limit; a negative limit is never reached. */
  predicate IsExpired(s: Session, now: int) {
    s.maxInactive >= 0 && now - s.maxInactive >= s.lastAccessed
  }

  /** A cookie of a request or a response. */
  datatype Cookie = Cookie(name: string, value: string)

  /** An authentication token: the principal, the credentials and the granted authorities. */
  datatype Authentication = Authentication(principal: Option<string>, credentials: Option<string>,
                                           authorities: seq<string>)

  /** The id of a stored, unexpired session: what the repository's findById returns a session for. */
  predicate IsLive(sessions: map<string, Session>, id: string, now: int) {
    id in sessions && !IsExpired(sessions[id], now)
  }

  /**
   * Each session is stored under its id, and a user has at most one session,
   * which is what the synchronised findOrCreateSession is for.
   */
  ghost predicate WellFormed(sessions: map<string, Session>) {
    (forall id :: id in sessions ==> sessions[id].id == id)
    && (forall a, b :: a in sessions && b in sessions && sessions[a].principal == sessions[b].principal ==> a == b)
  }

  /** Some session of `user` is stored. */
  predicate HasSessionOf(sessions: map<string, Session>, user: string) {
    exists id :: id in sessions && sessions[id].principal == user
  }

  /** The session of `user`, unique in a valid store. */
  ghost function SessionOf(sessions: map<string, Session>, user: string): (s: Session)
    requires WellFormed(sessions) && HasSessionOf(sessions, user)
    ensures s.id in sessions && sessions[s.id] == s && s.principal == user
  {
    var id :| id in sessions && sessions[id].principal == user;
    sessions[id]
  }

  class SessionRepository {
    var sessions: map<string, Session>

    ghost predicate Valid()
      reads this
    {
      WellFormed(sessions)
    }

    constructor ()
      ensures sessions == map[] && Valid()
    {
      sessions := map[];
    }
  }

  /** In a valid store, the session of a user is the one any of the user's ids leads to. */
  lemma SessionOfUnique(sessions: map<string, Session>, id: string, user: string)
    requires WellFormed(sessions) && id in sessions && sessions[id].principal == user
    ensures HasSessionOf(sessions, user) && SessionOf(sessions, user) == sessions[id]
  {
  }
}
