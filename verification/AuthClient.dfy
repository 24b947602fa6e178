/**
 One tab's share of the token refresh (apps/web/lib/auth-client.ts): the single-flight
 slot, the cross-tab channel's last token, and how a refresh response is classified.
 The functions on `Tab` are the specification; class `AuthTab` is the module itself,
 whose variables the source reassigns. The multi-tab protocol is built on the functions.
 */
module AuthClient {
  import opened Wrappers

  type Token = nat

  const REMOTE_TOKEN_FRESH_MS := 10000

  /** Where the single flight of a tab is: waiting for the lock, fetching, or signing out. */
  datatype Phase = Queued | Fetching(request: nat) | SigningOut

  /** `stale` is the token that got the 401 of the call that started the flight. */
  datatype Flight = Flight(stale: Option<Token>, phase: Phase)

  datatype Heard = Heard(token: Token, at: nat)

  datatype Tab = Tab(flight: Option<Flight>, remote: Option<Heard>, open: bool)

  /** How a flight settles for everyone who joined it. */
  datatype Outcome = Fresh(token: Token) | Unavailable | Expired

  // ── The steps of one tab ────────────────────────────────────

  function Opened(t: Tab): Tab {
    t.(open := true)
  }

  /** channel.onmessage */
  function Hears(t: Tab, token: Token, now: nat): Tab {
    t.(remote := Some(Heard(token, now)))
  }

  /** refreshAccessToken: join the flight, or start one that queues for the lock. */
  function Joined(t: Tab, stale: Option<Token>): Tab {
    if t.flight.Some? then t else t.(flight := Some(Flight(stale, Queued)), open := true)
  }

  datatype LockAction = Reuse(token: Token) | Send

  /** What the holder of the lock does first. */
  function OnLock(t: Tab, now: nat): LockAction
    requires t.flight.Some?
  {
    match t.remote
    case Some(heard) =>
      if Some(heard.token) != t.flight.value.stale && now - heard.at < REMOTE_TOKEN_FRESH_MS
      then Reuse(heard.token)
      else Send
    case None => Send
  }

  function Settled(t: Tab): Tab {
    t.(flight := None)
  }

  function InPhase(t: Tab, phase: Phase): Tab
    requires t.flight.Some?
  {
    t.(flight := Some(t.flight.value.(phase := phase)))
  }

  // ── Classifying the refresh response ────────────────────────

  /** A fetch either throws or answers; `token` is the body's access_token, if it parses. */
  datatype HttpResult = NetworkError | Answered(status: nat, token: Option<Token>)

  predicate IsOk(status: nat) {
    200 <= status < 300
  }

  datatype Verdict = Minted(token: Token) | Transient | Dead

  function Classify(r: HttpResult): Verdict {
    match r
    case NetworkError => Transient
    case Answered(status, token) =>
      if IsOk(status) then (if token.Some? then Minted(token.value) else Transient)
      else if status == 401 || status == 403 then Dead
      else Transient
  }

  // ── One authenticated call ──────────────────────────────────

  /** The error body of a backend answer: no JSON, or its code and detail.code ("" when absent). */
  datatype ErrorBody = NotJson | Coded(code: string, detail: string)

  datatype Backend = Unreachable | Replied(status: nat, error: ErrorBody)

  datatype CallResult =
    | Body(of: nat)                      // the JSON of the first (0) or the replayed (1) fetch
    | RefreshThrew(outcome: Outcome)     // refresh_unavailable or session_expired
    | FetchThrew
    | Failed(status: nat, code: Option<string>)   // None: the code is "HTTP " and the status

  function ErrorCode(e: ErrorBody): Option<string> {
    match e
    case NotJson => Some("unknown")
    case Coded(code, detail) => if code != "" then Some(code) else if detail != "" then Some(detail) else None
  }

  predicate Unauthorized(b: Backend) {
    b.Replied? && b.status == 401
  }

  /** What the caller is told about a last answer: its body, or its status with a code from its error body. */
  predicate Reports(b: Backend, of: nat, r: CallResult) {
    match b
    case Unreachable => r == FetchThrew
    case Replied(status, error) =>
      if 200 <= status <= 299 then r == Body(of)
      else
        && r.Failed? && r.status == status
        && match error
           case NotJson => r.code == Some("unknown")
           case Coded(code, detail) =>
             && (code != "" ==> r.code == Some(code))
             && (code == "" && detail != "" ==> r.code == Some(detail))
             && (code == "" && detail == "" ==> r.code == None)
  }

  /**
   apiCall: at most two fetches and one refresh, joined only on a 401 of a call that had a
   token; the replay carries the refreshed token, and its own 401 is not retried. `sent`
   lists the tokens of the fetches.
   */
  method ApiCall(accessToken: Option<Token>, first: Backend, refresh: Outcome, second: Backend)
    returns (sent: seq<Option<Token>>, refreshed: bool, result: CallResult)
    ensures refreshed <==> Unauthorized(first) && accessToken.Some?
    ensures sent == if refreshed && refresh.Fresh? then [accessToken, Some(refresh.token)] else [accessToken]
    ensures result.RefreshThrew? <==> refreshed && !refresh.Fresh?
    ensures result.RefreshThrew? ==> result.outcome == refresh
    ensures !result.RefreshThrew? ==> Reports(if |sent| == 2 then second else first, |sent| - 1, result)
  {
    sent, refreshed := [accessToken], false;
    if first.Unreachable? {
      return sent, refreshed, FetchThrew;
    }
    var answer, of := first, 0;
    if first.status == 401 && accessToken.Some? {
      refreshed := true;
      if !refresh.Fresh? {
        return sent, refreshed, RefreshThrew(refresh);
      }
      sent := sent + [Some(refresh.token)];
      if second.Unreachable? {
        return sent, refreshed, FetchThrew;
      }
      answer, of := second, 1;
    }
    if !IsOk(answer.status) {
      return sent, refreshed, Failed(answer.status, ErrorCode(answer.error));
    }
    result := Body(of);
  }

  // ── The module's variables ──────────────────────────────────

  class AuthTab {
    var refreshInFlight: Option<Flight>
    var remoteToken: Option<Heard>
    var channelOpen: bool

    function View(): Tab
      reads this
    {
      Tab(refreshInFlight, remoteToken, channelOpen)
    }

    constructor ()
      ensures View() == Tab(None, None, false)
    {
      refreshInFlight := None;
      remoteToken := None;
      channelOpen := false;
    }

    method InitAuthChannel()
      modifies this
      ensures View() == Opened(old(View()))
    {
      if channelOpen {
        return;
      }
      channelOpen := true;
    }

    /** An empty access_token in the message is ignored. */
    method OnMessage(token: Option<Token>, now: nat) returns (announce: Option<Token>)
      requires channelOpen
      modifies this
      ensures token.None? ==> View() == old(View())
      ensures token.Some? ==> View() == Hears(old(View()), token.value, now)
      ensures announce == token
    {
      if token.None? {
        return None;
      }
      remoteToken := Some(Heard(token.value, now));
      announce := token;
    }

    /** True when this call has to ask for the lock; false when it joined a flight. */
    method RefreshAccessToken(stale: Option<Token>) returns (asksForLock: bool)
      modifies this
      ensures View() == Joined(old(View()), stale)
      ensures refreshInFlight ==
                if old(refreshInFlight).Some? then old(refreshInFlight) else Some(Flight(stale, Queued))
      ensures asksForLock <==> old(refreshInFlight).None?
    {
      asksForLock := refreshInFlight.None?;
      if asksForLock {
        InitAuthChannel();
        refreshInFlight := Some(Flight(stale, Queued));
      }
    }

    /** The body of the lock callback up to its first await. */
    method LockGranted(now: nat, request: nat) returns (action: LockAction)
      requires refreshInFlight.Some? && refreshInFlight.value.phase.Queued?
      modifies this
      ensures action == OnLock(old(View()), now)
      ensures View() == match action
                        case Reuse(_) => Settled(old(View()))
                        case Send => InPhase(old(View()), Fetching(request))
    {
      if remoteToken.Some? {
        var heard := remoteToken.value;
        if Some(heard.token) != refreshInFlight.value.stale && now - heard.at < REMOTE_TOKEN_FRESH_MS {
          action := Reuse(heard.token);
          refreshInFlight := None;
          return;
        }
      }
      action := Send;
      refreshInFlight := Some(refreshInFlight.value.(phase := Fetching(request)));
    }

    /** doRefresh after its fetch; Dead leaves the flight open until signOut returns. */
    method ResponseArrived(r: HttpResult) returns (verdict: Verdict)
      requires refreshInFlight.Some? && refreshInFlight.value.phase.Fetching?
      modifies this
      ensures verdict == Classify(r)
      ensures View() == if verdict.Dead? then InPhase(old(View()), SigningOut) else Settled(old(View()))
      ensures verdict == Dead <==> r.Answered? && (r.status == 401 || r.status == 403)
      ensures forall token: Token ::
                verdict == Minted(token) <==> r.Answered? && 200 <= r.status <= 299 && r.token == Some(token)
      ensures refreshInFlight ==
                if r.Answered? && (r.status == 401 || r.status == 403) then
                  Some(Flight(old(refreshInFlight).value.stale, SigningOut))
                else None
      ensures remoteToken == old(remoteToken) && channelOpen == old(channelOpen)
    {
      verdict := Transient;
      if r.Answered? {
        if IsOk(r.status) {
          if r.token.Some? {
            verdict := Minted(r.token.value);
          }
        } else if r.status == 401 || r.status == 403 {
          verdict := Dead;
        }
      }
      refreshInFlight := if verdict.Dead? then Some(refreshInFlight.value.(phase := SigningOut)) else None;
    }

    method SignOutReturned()
      requires refreshInFlight.Some? && refreshInFlight.value.phase.SigningOut?
      modifies this
      ensures View() == Settled(old(View()))
    {
      refreshInFlight := None;
    }
  }
}
