/**
 The session store and the two endpoints the web client drives
 (services/backend/app/services/auth_service.py, services/backend/app/api/auth_routes.py).
 A refresh reads the session, then writes it back rotated: two store operations with
 other requests in between. Refresh tokens are numbered in the order they are issued.
 */
module AuthServer {
  import opened Wrappers
  import opened AuthClient

  datatype Server = Server(
    alive: bool,        // the session key exists in the store
    refresh: nat,       // the refresh token it accepts
    issued: nat,        // refresh tokens issued so far
    minted: nat,        // access tokens minted so far
    storeUp: bool,
    userActive: bool)

  /** The two HttpOnly cookies, as a browser keeps or a request carries them. */
  datatype Cookies = Cookies(sid: bool, refresh: Option<nat>)

  const NO_COOKIES := Cookies(false, None)

  /** An answer and what it does to the cookie jar. */
  datatype Answer = Answer(status: nat, token: Option<Token>, setRefresh: Option<nat>, clears: bool)

  function Store(jar: Cookies, a: Answer): Cookies {
    if a.clears then NO_COOKIES
    else if a.setRefresh.Some? then jar.(refresh := a.setRefresh)
    else jar
  }

  /** A refresh request between its read of the session and its write. */
  datatype Pending = Rotating | Revoking

  datatype ReadResult = Ends(answer: Answer) | Continues(pending: Pending)

  /**
   The handler up to and including its read. Where it clears cookies and then raises,
   `sent` says whether the framework still sends those deletions.
   */
  function ReadSession(s: Server, c: Cookies, sent: bool): ReadResult {
    if !c.sid || c.refresh.None? then Ends(Answer(401, None, None, false))
    else if !s.storeUp then Ends(Answer(503, None, None, sent))
    else if !s.alive then Ends(Answer(401, None, None, sent))
    else if c.refresh.value != s.refresh then Continues(Revoking)
    else Continues(Rotating)
  }

  /** How the handler ends after the store has been written. */
  datatype Ending = Completes | Crashes | LosesBody

  function Rotated(s: Server): Server {
    s.(alive := true, refresh := s.issued, issued := s.issued + 1, minted := s.minted + 1)
  }

  function Revoked(s: Server): Server {
    s.(alive := false)
  }

  /** The write and what follows it. A store that fails here raises: nothing is written. */
  function WriteSession(s: Server, p: Pending, sent: bool, ending: Ending): (Server, Answer) {
    if !s.storeUp then (s, Answer(500, None, None, false))
    else if p.Revoking? then (Revoked(s), Answer(401, None, None, sent))
    else
      var r := Rotated(s);
      if ending.Crashes? then (r, Answer(500, None, None, false))
      else if !s.userActive then (r, Answer(401, None, None, sent))
      else (r, Answer(200, if ending.LosesBody? then None else Some(s.minted), Some(r.refresh), false))
  }

  /** Logout: the revocation is skipped without a session cookie, or when the store is down. */
  function LogOut(s: Server, sid: bool, crashes: bool): (Server, Answer) {
    var r := if sid && s.storeUp then Revoked(s) else s;
    (r, if crashes then Answer(500, None, None, false) else Answer(200, None, None, true))
  }

  /** The answers on which the client wipes and signs out. */
  predicate EndsSession(refreshAnswer: bool, a: Answer) {
    if refreshAnswer then a.status == 401 || a.status == 403 else IsOk(a.status)
  }
}
