/**
 * SessionFilter.java: each request is authenticated from a SESSION cookie
 * naming a live session, else from a Basic Authorization header (section 2
 * of RFC 7617) checked by the authentication manager, else not at all. The
 * manager is a parameter; the security context's authentication is a field
 * of the filter. The decoded credentials are read as text byte by byte,
 * which is what the UTF-8 decoding of the source does for ASCII.
 */
module Security {
  import opened Wrappers
  import opened JavaText
  import opened Base64
  import opened Sessions

  /** new String(bytes, UTF_8) for ASCII bytes: each byte is the character of that code. */
  function BytesText(b: seq<byte>): (s: string)
    ensures |s| == |b| && forall i :: 0 <= i < |b| ==> s[i] as int == b[i] as int
  {
    seq(|b|, i requires 0 <= i < |b| => b[i] as int as char)
  }

  predicate IsAscii(s: string) {
    forall i :: 0 <= i < |s| ==> s[i] as int < 128
  }

  /** The bytes of an ASCII text, as a client encodes its credentials. */
  function TextBytes(s: string): (b: seq<byte>)
    requires IsAscii(s)
    ensures BytesText(b) == s
  {
    seq(|s|, i requires 0 <= i < |s| => s[i] as int as byte)
  }

  /**
   * String.split(":", 2): the text before the first separator and all the
   * rest, empty or not; the whole text when there is no separator.
   */
  function SplitAtFirst(s: string, sep: char): (r: seq<string>)
    ensures |r| == 1 <==> sep !in s
    ensures |r| == 1 || |r| == 2
    ensures |r| == 1 ==> r[0] == s
    ensures |r| == 2 ==> r[0] + [sep] + r[1] == s && sep !in r[0]
  {
    var i := IndexOf(s, sep, 0);
    if i == -1 then [s]
    else
      assert s[..i] + [sep] + s[i + 1..] == s;
      [s[..i], s[i + 1..]]
  }

  /** Splitting a text with a separator-free head at its first separator gives the head and the rest back. */
  lemma SplitAtFirstOfJoined(head: string, sep: char, rest: string)
    requires sep !in head
    ensures SplitAtFirst(head + [sep] + rest, sep) == [head, rest]
  {
    var s := head + [sep] + rest;
    var r := SplitAtFirst(s, sep);
    assert s[|head|] == sep;
    var i := IndexOf(s, sep, 0);
    assert forall j :: 0 <= j < |head| ==> s[j] != sep by {
      forall j | 0 <= j < |head|
        ensures s[j] != sep
      {
        assert s[j] == head[j];
      }
    }
    assert i == |head|;
    assert s[..i] == head && s[i + 1..] == rest;
  }

  /**
   * getUsernameAndPassword: a header that is null or does not start with
   * "basic" in any case gives null; otherwise what follows the first five
   * characters is trimmed, Base64-decoded (an IllegalArgumentException on a
   * bad encoding) and split at its first ':'.
   */
  function GetUsernameAndPassword(authorization: Option<string>): (r: Result<Option<seq<string>>>)
    ensures authorization.None? ==> r == Ok(None)
    ensures authorization.Some? && !StartsWith(Lower(authorization.value), "basic") ==> r == Ok(None)
    ensures r.Err? ==> r.error == IllegalArgument
    ensures r.Ok? && r.value.Some? ==> 1 <= |r.value.value| <= 2
  {
    if authorization.None? || !StartsWith(Lower(authorization.value), "basic") then Ok(None)
    else
      var encoded := Trim(authorization.value[5..]);
      match Decode(encoded)
      case Err(e) => Err(e)
      case Ok(bytes) => Ok(Some(SplitAtFirst(BytesText(bytes), ':')))
  }

  /**
   * The user name and password doFilter takes from the header as written: it
   * reads the second part of the split without looking, so decoded
   * credentials without a ':' throw ArrayIndexOutOfBoundsException.
   */
  function BasicCredentialsAsWritten(authorization: Option<string>): (r: Result<Option<(string, string)>>)
    ensures r.Err? ==> r.error == IllegalArgument || r.error == IndexOutOfBounds
    ensures r.Ok? && r.value.Some? ==> ':' !in r.value.value.0
  {
    match GetUsernameAndPassword(authorization)
    case Err(e) => Err(e)
    case Ok(None) => Ok(None)
    case Ok(Some(parts)) =>
      if |parts| < 2 then Err(IndexOutOfBounds) else Ok(Some((parts[0], parts[1])))
  }

  /**
   * The user name and password doFilter takes from the header, a header
   * whose credentials have no ':' counting as no credentials (section 2 of
   * RFC 7617 requires the ':').
   */
  function BasicCredentials(authorization: Option<string>): (r: Result<Option<(string, string)>>)
    ensures r.Err? ==> r.error == IllegalArgument
    ensures r.Ok? && r.value.Some? ==> ':' !in r.value.value.0
  {
    match GetUsernameAndPassword(authorization)
    case Err(e) => Err(e)
    case Ok(None) => Ok(None)
    case Ok(Some(parts)) =>
      if |parts| < 2 then Ok(None) else Ok(Some((parts[0], parts[1])))
  }

  /** The corrected reading differs from the code as written only where the code throws. */
  lemma CredentialsAgreeUnlessThrown(authorization: Option<string>)
    requires BasicCredentialsAsWritten(authorization) != Err(IndexOutOfBounds)
    ensures BasicCredentials(authorization) == BasicCredentialsAsWritten(authorization)
  {
  }

  /** The characters of a Base64 encoding are all above ' ', so trimming leaves it as it is. */
  lemma EncodingHasNoSpaces(b: seq<byte>)
    ensures forall i :: 0 <= i < |Encode(b)| ==> Encode(b)[i] > ' '
  {
    var u := EncodeUnpadded(b);
    forall i | 0 <= i < |Encode(b)|
      ensures Encode(b)[i] > ' '
    {
      if i < |u| {
        assert Encode(b)[i] == u[i];
      } else {
        assert Encode(b)[i] == Padding(|b|)[i - |u|];
      }
    }
  }

  /** The header a client sends for an encoded credential. */
  function BasicHeader(b: seq<byte>): string {
    "Basic " + Encode(b)
  }

  /** A header naming the Basic scheme passes the case-insensitive scheme test. */
  lemma BasicSchemeMatches(h: string)
    requires |h| >= 5 && h[0] == 'B' && h[1] == 'a' && h[2] == 's' && h[3] == 'i' && h[4] == 'c'
    ensures StartsWith(Lower(h), "basic")
  {
    var l := Lower(h);
    assert l[0] == 'b' && l[1] == 'a' && l[2] == 's' && l[3] == 'i' && l[4] == 'c';
    assert l[..5] == "basic";
  }

  /** Trimming the blank between the scheme and an encoding leaves the encoding. */
  lemma TrimBeforeEncoding(b: seq<byte>)
    ensures Trim([' '] + Encode(b)) == Encode(b)
  {
    var e := Encode(b);
    EncodingHasNoSpaces(b);
    assert ([' '] + e)[1..] == e;
    if e != [] {
      assert TrimBy(e, c => c <= ' ') == e;
    }
  }

  /** A Basic header gives back exactly the bytes that were encoded into it. */
  lemma BasicHeaderDecodes(b: seq<byte>)
    ensures var h := BasicHeader(b);
      StartsWith(Lower(h), "basic") && Trim(h[5..]) == Encode(b) && Decode(Trim(h[5..])) == Ok(b)
  {
    var h := BasicHeader(b);
    BasicSchemeMatches(h);
    assert h[5..] == [' '] + Encode(b);
    TrimBeforeEncoding(b);
    DecodeEncode(b);
  }

  /**
   * Section 2 of RFC 7617: a user name without ':' and any password, joined
   * with ':' and encoded, come back as that user name and password; the
   * password may hold ':' itself.
   */
  lemma BasicCredentialsRoundTrip(user: string, password: string)
    requires IsAscii(user) && IsAscii(password) && ':' !in user
    ensures IsAscii(user + ":" + password)
    ensures BasicCredentials(Some(BasicHeader(TextBytes(user + ":" + password)))) == Ok(Some((user, password)))
  {
    var text := user + ":" + password;
    assert IsAscii(text) by {
      forall i | 0 <= i < |text|
        ensures text[i] as int < 128
      {
        if i < |user| {
          assert text[i] == user[i];
        } else if i > |user| {
          assert text[i] == password[i - |user| - 1];
        }
      }
    }
    BasicHeaderDecodes(TextBytes(text));
    SplitAtFirstOfJoined(user, ':', password);
  }

  /** A Basic header whose decoded text has no ':' throws as written and carries no credentials as intended. */
  lemma CredentialsWithoutColon(text: string)
    requires IsAscii(text) && ':' !in text
    ensures BasicCredentialsAsWritten(Some(BasicHeader(TextBytes(text)))) == Err(IndexOutOfBounds)
    ensures BasicCredentials(Some(BasicHeader(TextBytes(text)))) == Ok(None)
  {
    BasicHeaderDecodes(TextBytes(text));
  }

  /** A group of three bytes ahead of more bytes encodes to its four characters ahead of theirs. */
  lemma EncodeGroupAhead(t: seq<byte>, rest: seq<byte>)
    requires |t| == 3
    ensures EncodeUnpadded(t + rest) == EncodeTriple(t[0], t[1], t[2]) + EncodeUnpadded(rest)
  {
    UnpaddedHead(t + rest);
    assert (t + rest)[3..] == rest;
  }

  /*
   * The concrete encodings below go one group of three bytes at a time; each
   * lemma names the bytes of its group.
   */

  lemma GroupYWRt(a: byte, b: byte, c: byte)
    requires a == 97 && b == 100 && c == 109
    ensures EncodeTriple(a, b, c) == "YWRt"
  {
    assert a as int / 4 == 24 && a as int % 4 * 16 + b as int / 16 == 22;
    assert b as int % 16 * 4 + c as int / 64 == 17 && c as int % 64 == 45;
    assert ValueChar(24) == 'Y' && ValueChar(22) == 'W' && ValueChar(17) == 'R' && ValueChar(45) == 't';
  }

  lemma GroupAW46(a: byte, b: byte, c: byte)
    requires a == 105 && b == 110 && c == 58
    ensures EncodeTriple(a, b, c) == "aW46"
  {
    assert a as int / 4 == 26 && a as int % 4 * 16 + b as int / 16 == 22;
    assert b as int % 16 * 4 + c as int / 64 == 56 && c as int % 64 == 58;
    assert ValueChar(26) == 'a' && ValueChar(22) == 'W' && ValueChar(56) == '4' && ValueChar(58) == '6';
  }

  lemma GroupAW5Q(a: byte, b: byte, c: byte)
    requires a == 105 && b == 110 && c == 80
    ensures EncodeTriple(a, b, c) == "aW5Q"
  {
    assert a as int / 4 == 26 && a as int % 4 * 16 + b as int / 16 == 22;
    assert b as int % 16 * 4 + c as int / 64 == 57 && c as int % 64 == 16;
    assert ValueChar(26) == 'a' && ValueChar(22) == 'W' && ValueChar(57) == '5' && ValueChar(16) == 'Q';
  }

  lemma GroupYXNz(a: byte, b: byte, c: byte)
    requires a == 97 && b == 115 && c == 115
    ensures EncodeTriple(a, b, c) == "YXNz"
  {
    assert a as int / 4 == 24 && a as int % 4 * 16 + b as int / 16 == 23;
    assert b as int % 16 * 4 + c as int / 64 == 13 && c as int % 64 == 51;
    assert ValueChar(24) == 'Y' && ValueChar(23) == 'X' && ValueChar(13) == 'N' && ValueChar(51) == 'z';
  }

  lemma TailAW4(b: seq<byte>)
    requires b == [105, 110]
    ensures EncodeUnpadded(b) == "aW4"
  {
    assert b[0] as int / 4 == 26 && b[0] as int % 4 * 16 + b[1] as int / 16 == 22 && b[1] as int % 16 * 4 == 56;
    assert ValueChar(26) == 'a' && ValueChar(22) == 'W' && ValueChar(56) == '4';
  }

  /** "admin" encodes to "YWRtaW4=". */
  lemma EncodeAdmin(text: string)
    requires text == "admin"
    ensures IsAscii(text) && Encode(TextBytes(text)) == "YWRtaW4="
  {
    var b := TextBytes(text);
    assert b == [97, 100, 109, 105, 110];
    UnpaddedHead(b);
    GroupYWRt(b[0], b[1], b[2]);
    TailAW4(b[3..]);
  }

  /** A group ahead of the encoding of the remaining bytes. */
  lemma GroupAhead(b: seq<byte>, group: string, rest: string)
    requires |b| >= 3 && EncodeTriple(b[0], b[1], b[2]) == group && EncodeUnpadded(b[3..]) == rest
    ensures EncodeUnpadded(b) == group + rest
  {
    UnpaddedHead(b);
  }

  lemma EncodePassTail(b: seq<byte>)
    requires b == [97, 115, 115]
    ensures EncodeUnpadded(b) == "YXNz"
  {
    GroupYXNz(b[0], b[1], b[2]);
    assert b[3..] == [];
    GroupAhead(b, "YXNz", "");
  }

  lemma EncodeMinPass(b: seq<byte>)
    requires b == [105, 110, 80, 97, 115, 115]
    ensures EncodeUnpadded(b) == "aW5Q" + "YXNz"
  {
    GroupAW5Q(b[0], b[1], b[2]);
    EncodePassTail(b[3..]);
    GroupAhead(b, "aW5Q", "YXNz");
  }

  lemma EncodeAdminPassTail(b: seq<byte>)
    requires b == [97, 100, 109, 105, 110, 80, 97, 115, 115]
    ensures EncodeUnpadded(b) == "YWRt" + ("aW5Q" + "YXNz")
  {
    GroupYWRt(b[0], b[1], b[2]);
    EncodeMinPass(b[3..]);
    GroupAhead(b, "YWRt", "aW5Q" + "YXNz");
  }

  lemma EncodeInColonAdminPass(b: seq<byte>)
    requires b == [105, 110, 58, 97, 100, 109, 105, 110, 80, 97, 115, 115]
    ensures EncodeUnpadded(b) == "aW46" + ("YWRt" + ("aW5Q" + "YXNz"))
  {
    GroupAW46(b[0], b[1], b[2]);
    EncodeAdminPassTail(b[3..]);
    GroupAhead(b, "aW46", "YWRt" + ("aW5Q" + "YXNz"));
  }

  lemma AdminPassBytes(text: string)
    requires text == "admin:adminPass"
    ensures IsAscii(text) && TextBytes(text) == [97, 100, 109, 105, 110, 58, 97, 100, 109, 105, 110, 80, 97, 115, 115]
  {
  }

  lemma AdminPassText(user: string, password: string)
    requires user == "admin" && password == "adminPass"
    ensures user + ":" + password == "admin:adminPass"
    ensures IsAscii(user) && IsAscii(password) && ':' !in user
  {
  }

  /** "admin:adminPass" encodes to "YWRtaW46YWRtaW5QYXNz". */
  lemma EncodeAdminPass(text: string)
    requires text == "admin:adminPass"
    ensures IsAscii(text) && Encode(TextBytes(text)) == "YWRt" + ("aW46" + ("YWRt" + ("aW5Q" + "YXNz")))
  {
    AdminPassBytes(text);
    var b := TextBytes(text);
    GroupYWRt(b[0], b[1], b[2]);
    EncodeInColonAdminPass(b[3..]);
    GroupAhead(b, "YWRt", "aW46" + ("YWRt" + ("aW5Q" + "YXNz")));
  }

  /** "Basic YWRtaW4=" is the user name "admin" with no password: as written, the filter throws. */
  lemma AdminWithoutPasswordThrows(header: string)
    requires header == "Basic " + "YWRtaW4="
    ensures BasicCredentialsAsWritten(Some(header)) == Err(IndexOutOfBounds)
    ensures BasicCredentials(Some(header)) == Ok(None)
  {
    var text := "admin";
    EncodeAdmin(text);
    assert header == BasicHeader(TextBytes(text));
    CredentialsWithoutColon(text);
  }

  /** The credentials of the header "Basic YWRtaW46YWRtaW5QYXNz" are "admin" and "adminPass". */
  lemma AdminPassHeader(header: string, user: string, password: string)
    requires header == "Basic " + ("YWRt" + ("aW46" + ("YWRt" + ("aW5Q" + "YXNz")))) && user == "admin" && password == "adminPass"
    ensures BasicCredentials(Some(header)) == Ok(Some((user, password)))
  {
    AdminPassText(user, password);
    var text := user + ":" + password;
    EncodeAdminPass(text);
    assert header == BasicHeader(TextBytes(text));
    BasicCredentialsRoundTrip(user, password);
  }

  /** A SESSION cookie whose value is the id of a live session. */
  predicate IsLiveSessionCookie(c: Cookie, sessions: map<string, Session>, now: int) {
    c.name == SESSION_COOKIE_NAME && IsLive(sessions, c.value, now)
  }

  /** The first live SESSION cookie at or after position `from`, if any. */
  function FirstLiveCookie(cookies: seq<Cookie>, sessions: map<string, Session>, now: int, from: nat): (k: Option<nat>)
    requires from <= |cookies|
    ensures k.Some? ==> from <= k.value < |cookies| && IsLiveSessionCookie(cookies[k.value], sessions, now)
    ensures k.Some? ==> forall j :: from <= j < k.value ==> !IsLiveSessionCookie(cookies[j], sessions, now)
    ensures k.None? ==> forall j :: from <= j < |cookies| ==> !IsLiveSessionCookie(cookies[j], sessions, now)
    decreases |cookies| - from
  {
    if from == |cookies| then None
    else if IsLiveSessionCookie(cookies[from], sessions, now) then Some(from)
    else FirstLiveCookie(cookies, sessions, now, from + 1)
  }

  /** The authentication a session stands for: its user, no credentials, its roles as authorities. */
  function SessionAuthentication(s: Session): Authentication {
    Authentication(Some(s.principal), None, s.roles)
  }

  class SessionFilter {
    const repo: SessionRepository

    /** The authentication of the security context of the request being filtered. */
    var context: Option<Authentication>

    constructor (repo: SessionRepository)
      ensures this.repo == repo && context == None
    {
      this.repo := repo;
      context := None;
    }

    /**
     * getAuthenticationFromCookie: null or empty cookies give null; SESSION
     * cookies whose session is missing or expired are passed over; the first
     * live one has its session's last access time set to `now` and saved,
     * and gives that session's user and roles.
     */
    method GetAuthenticationFromCookie(cookies: Option<seq<Cookie>>, now: int) returns (r: Option<Authentication>)
      requires repo.Valid()
      modifies repo
      ensures repo.Valid()
      ensures cookies.None? || cookies.value == [] ==> r.None? && repo.sessions == old(repo.sessions)
      ensures var k := FirstLiveCookie(cookies.GetOr([]), old(repo.sessions), now, 0);
        && (k.None? ==> r.None? && repo.sessions == old(repo.sessions))
        && (k.Some? ==>
              var s := old(repo.sessions)[cookies.GetOr([])[k.value].value];
              r == Some(SessionAuthentication(s))
              && repo.sessions == old(repo.sessions)[s.id := s.(lastAccessed := now)])
    {
      if cookies.None? || |cookies.value| == 0 {
        return None;
      }
      var cs := cookies.value;
      for i := 0 to |cs|
        invariant repo.sessions == old(repo.sessions)
        invariant FirstLiveCookie(cs, repo.sessions, now, 0) == FirstLiveCookie(cs, repo.sessions, now, i)
      {
        if cs[i].name == SESSION_COOKIE_NAME && cs[i].value in repo.sessions
           && !IsExpired(repo.sessions[cs[i].value], now) {
          var s := repo.sessions[cs[i].value];
          repo.sessions := repo.sessions[s.id := s.(lastAccessed := now)];
          return Some(SessionAuthentication(s));
        }
      }
      return None;
    }

    /**
     * doFilter: a live session cookie decides the authentication whatever
     * the header holds. Otherwise the header's credentials, if any, are
     * given to the authentication manager `authenticate` (None when it
     * refuses them, which leaves the context as it was); no credentials set
     * the context to null; a bad encoding throws, and so do decoded
     * credentials without a ':'.
     */
    method DoFilter(cookies: Option<seq<Cookie>>, authorization: Option<string>,
                    authenticate: (string, string) -> Option<Authentication>, now: int)
      returns (r: Result<()>)
      requires repo.Valid()
      modifies this, repo
      ensures repo.Valid()
      ensures var k := FirstLiveCookie(cookies.GetOr([]), old(repo.sessions), now, 0);
        && (k.Some? ==>
              var s := old(repo.sessions)[cookies.GetOr([])[k.value].value];
              r == Ok(()) && context == Some(SessionAuthentication(s))
              && repo.sessions == old(repo.sessions)[s.id := s.(lastAccessed := now)])
        && (k.None? ==> repo.sessions == old(repo.sessions))
        && (k.None? ==> match BasicCredentialsAsWritten(authorization)
             case Err(e) => r == Err(e) && context == old(context)
             case Ok(None) => r == Ok(()) && context == None
             case Ok(Some(up)) =>
               r == Ok(()) && context == (if authenticate(up.0, up.1).Some? then authenticate(up.0, up.1) else old(context)))
    {
      var fromCookie := GetAuthenticationFromCookie(cookies, now);
      if fromCookie.Some? {
        context := fromCookie;
        return Ok(());
      }
      var credentials := BasicCredentialsAsWritten(authorization);
      match credentials {
        case Err(e) =>
          return Err(e);
        case Ok(None) =>
          context := None;
        case Ok(Some(up)) =>
          var authenticated := authenticate(up.0, up.1);
          if authenticated.Some? {
            context := authenticated;
          }
      }
      return Ok(());
    }
  }

  /** With neither a session cookie nor an Authorization header, the request is not authenticated. */
  lemma NoCredentialsNoAuthentication()
    ensures BasicCredentials(None) == Ok(None)
    ensures FirstLiveCookie([], map[], 0, 0) == None
  {
  }

  /**
   * Among several SESSION cookies, one naming a missing session does not
   * stop the search: a later cookie with a live session is found.
   */
  lemma StaleCookieSkipped(sessions: map<string, Session>, stale: string, live: string, now: int)
    requires stale !in sessions && IsLive(sessions, live, now)
    ensures FirstLiveCookie([Cookie(SESSION_COOKIE_NAME, stale), Cookie(SESSION_COOKIE_NAME, live)], sessions, now, 0) == Some(1)
  {
  }
}
