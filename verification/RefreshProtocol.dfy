/**
 The whole refresh-and-logout protocol as a transition system: any number of tabs of one
 browser, the shared Web Lock, the broadcast channel, one cookie jar, a network that may
 lose or delay, and the server. Code between two awaits is one step.
 */
module RefreshProtocol {
  import opened Wrappers
  import opened AuthClient
  import opened AuthServer
  import opened LogoutClient

  /** A user's logout: the attempt under way and the request it waits for. */
  datatype Leaving = Leaving(attempt: nat, request: nat)

  datatype Call = Waiting(tab: nat) | Done(outcome: Outcome)

  /** What the run has seen go wrong. */
  datatype History = History(
    torn: bool,      // a request or a rotation's cookie escaped its exchange
    reused: bool,    // the server took a refresh for a reused token
    slipped: bool)   // the server told a client to leave, or wrote, against the session's real state

  /** The tabs: their modules, what is broadcast to them, their logouts, and the lock they share. */
  datatype Client = Client(
    now: nat,
    tabs: seq<Tab>,
    inbox: seq<seq<Token>>,          // broadcasts on their way, tab by tab
    leaving: seq<Option<Leaving>>,   // logouts, tab by tab
    queue: seq<nat>,                 // the lock: the head holds it
    calls: map<nat, Call>)           // apiCalls that asked for a refresh

  /** The network and the server's handlers, request by request. */
  datatype Net = Net(
    nextId: nat,
    sent: map<nat, Cookies>,         // refresh requests on their way
    serving: map<nat, Pending>,      // refresh requests between read and write
    answers: map<nat, Answer>,       // refresh answers on their way
    logoutSent: map<nat, bool>,      // logout requests on their way, with or without session cookie
    logoutAnswers: map<nat, Answer>)

  datatype State = State(
    client: Client,
    net: Net,
    jar: Cookies,
    signedOut: bool,                 // user data wiped and signOut issued
    server: Server,
    seen: History)

  datatype Step =
    | Open(tab: nat)
    | Join(tab: nat, call: nat, stale: Option<Token>)
    | Grant(tab: nat)
    | Read(request: nat, headers: bool)
    | Write(request: nat, headers: bool, ending: Ending)
    | Intercept(request: nat, status: nat)
    | Vanish(tab: nat)
    | GiveUp(tab: nat)
    | Deliver(tab: nat)
    | SignOutReturns(tab: nat)
    | Receive(tab: nat)
    | Elapse(ms: nat)
    | LogoutStart(tab: nat)
    | LogoutServe(request: nat, crashes: bool)
    | LogoutDeliver(tab: nat)
    | LogoutLost(tab: nat)
    | SessionEnds
    | StoreTurns(up: bool)
    | UserTurns(active: bool)

  predicate Shaped(c: Client) {
    |c.tabs| == |c.inbox| == |c.leaving|
  }

  predicate Holds(c: Client, tab: nat, phase: Phase) {
    && c.queue != [] && c.queue[0] == tab < |c.tabs|
    && c.tabs[tab].flight.Some? && c.tabs[tab].flight.value.phase == phase
  }

  /** The tab that holds the lock and waits for a refresh answer. */
  predicate Fetches(c: Client, tab: nat) {
    && c.queue != [] && c.queue[0] == tab < |c.tabs|
    && c.tabs[tab].flight.Some? && c.tabs[tab].flight.value.phase.Fetching?
  }

  function RequestOf(c: Client, tab: nat): nat
    requires Fetches(c, tab)
  {
    c.tabs[tab].flight.value.phase.request
  }

  predicate Leaves(c: Client, tab: nat) {
    tab < |c.leaving| && c.leaving[tab].Some?
  }

  function LogoutOf(c: Client, tab: nat): nat
    requires Leaves(c, tab)
  {
    c.leaving[tab].value.request
  }

  // ── What a step may do ──────────────────────────────────────

  predicate Enabled(s: State, step: Step) {
    && Shaped(s.client)
    && match step
       case Open(tab) => tab < |s.client.tabs|
       case Join(tab, call, _) => tab < |s.client.tabs| && call !in s.client.calls
       case Grant(tab) => Holds(s.client, tab, Queued)
       case Read(id, _) => id in s.net.sent
       case Write(id, _, _) => id in s.net.serving
       case Intercept(id, status) => id in s.net.sent && !IsOk(status)
       case Vanish(tab) => Fetches(s.client, tab) && RequestOf(s.client, tab) in s.net.sent
       case GiveUp(tab) => Fetches(s.client, tab)
       case Deliver(tab) => Fetches(s.client, tab) && RequestOf(s.client, tab) in s.net.answers
       case SignOutReturns(tab) => Holds(s.client, tab, SigningOut)
       case Receive(tab) => tab < |s.client.tabs| && s.client.inbox[tab] != []
       case Elapse(_) => true
       case LogoutStart(tab) => tab < |s.client.tabs| && s.client.leaving[tab].None?
       case LogoutServe(id, _) => id in s.net.logoutSent
       case LogoutDeliver(tab) => Leaves(s.client, tab) && LogoutOf(s.client, tab) in s.net.logoutAnswers
       case LogoutLost(tab) => Leaves(s.client, tab)
       case SessionEnds => true
       case StoreTurns(_) => true
       case UserTurns(_) => true
  }

  // ── Steps of the tabs ───────────────────────────────────────

  function JoinFlight(c: Client, tab: nat, call: nat, stale: Option<Token>): Client
    requires tab < |c.tabs|
  {
    c.(tabs := c.tabs[tab := Joined(c.tabs[tab], stale)],
       queue := if c.tabs[tab].flight.Some? then c.queue else c.queue + [tab],
       calls := c.calls[call := Waiting(tab)])
  }

  /** The lock holder's flight moves on. */
  function Advance(c: Client, tab: nat, phase: Phase): Client
    requires tab < |c.tabs| && c.tabs[tab].flight.Some?
  {
    c.(tabs := c.tabs[tab := InPhase(c.tabs[tab], phase)])
  }

  /** The lock holder's flight settles: every joined call gets its outcome, the lock moves on. */
  function Settle(c: Client, tab: nat, outcome: Outcome): Client
    requires tab < |c.tabs| && c.queue != []
  {
    c.(tabs := c.tabs[tab := Settled(c.tabs[tab])],
       queue := c.queue[1..],
       calls := map k | k in c.calls :: if c.calls[k] == Waiting(tab) then Done(outcome) else c.calls[k])
  }

  /** channel.postMessage: to every other open tab. */
  function Broadcast(c: Client, from: nat, token: Token): Client
    requires Shaped(c)
  {
    c.(inbox := seq(|c.inbox|, i requires 0 <= i < |c.inbox| =>
                      if i != from && c.tabs[i].open then c.inbox[i] + [token] else c.inbox[i]))
  }

  function HearNext(c: Client, tab: nat): Client
    requires Shaped(c) && tab < |c.tabs| && c.inbox[tab] != []
  {
    c.(tabs := c.tabs[tab := Hears(c.tabs[tab], c.inbox[tab][0], c.now)],
       inbox := c.inbox[tab := c.inbox[tab][1..]])
  }

  /** What the holder does with an answer. */
  function React(c: Client, tab: nat, verdict: Verdict): Client
    requires Shaped(c) && Fetches(c, tab)
  {
    match verdict
    case Minted(token) => Settle(Broadcast(c, tab, token), tab, Fresh(token))
    case Transient => Settle(c, tab, Unavailable)
    case Dead => Advance(c, tab, SigningOut)
  }

  // ── Steps of the network and the server ─────────────────────

  function Flagged(h: History, torn: bool, reused: bool, slipped: bool): History {
    History(h.torn || torn, h.reused || reused, h.slipped || slipped)
  }

  /** A rotation whose new cookie is not in its answer. */
  predicate LosesCookie(before: Server, after: Server, a: Answer) {
    before.refresh != after.refresh && a.setRefresh != Some(after.refresh)
  }

  function SendRefresh(n: Net, jar: Cookies): Net {
    n.(sent := n.sent[n.nextId := jar], nextId := n.nextId + 1)
  }

  function SendLogout(n: Net, jar: Cookies): Net {
    n.(logoutSent := n.logoutSent[n.nextId := jar.sid], nextId := n.nextId + 1)
  }

  function AnswerUnserved(n: Net, id: nat, a: Answer): Net {
    n.(sent := n.sent - {id}, answers := n.answers[id := a])
  }

  function ServeRead(s: State, id: nat, headers: bool): State
    requires id in s.net.sent
  {
    match ReadSession(s.server, s.net.sent[id], headers)
    case Ends(a) =>
      s.(net := AnswerUnserved(s.net, id, a),
         seen := Flagged(s.seen, false, false, EndsSession(true, a) && s.server.alive))
    case Continues(p) =>
      s.(net := s.net.(sent := s.net.sent - {id}, serving := s.net.serving[id := p]),
         seen := Flagged(s.seen, false, p.Revoking?, false))
  }

  function ServeWrite(s: State, id: nat, headers: bool, ending: Ending): State
    requires id in s.net.serving
  {
    var (server, a) := WriteSession(s.server, s.net.serving[id], headers, ending);
    s.(net := s.net.(serving := s.net.serving - {id}, answers := s.net.answers[id := a]),
       server := server,
       seen := Flagged(s.seen, LosesCookie(s.server, server, a), false,
                       (server.alive && !s.server.alive) || (EndsSession(true, a) && server.alive)))
  }

  function ServeLogout(s: State, id: nat, crashes: bool): State
    requires id in s.net.logoutSent
  {
    var (server, a) := LogOut(s.server, s.net.logoutSent[id], crashes);
    s.(net := s.net.(logoutSent := s.net.logoutSent - {id}, logoutAnswers := s.net.logoutAnswers[id := a]),
       server := server,
       seen := Flagged(s.seen, false, false, EndsSession(false, a) && server.alive))
  }

  function AfterGrant(s: State, tab: nat): State
    requires Holds(s.client, tab, Queued)
  {
    match OnLock(s.client.tabs[tab], s.client.now)
    case Reuse(token) => s.(client := Settle(s.client, tab, Fresh(token)))
    case Send => s.(client := Advance(s.client, tab, Fetching(s.net.nextId)), net := SendRefresh(s.net, s.jar))
  }

  function AfterDelivery(s: State, tab: nat): State
    requires Shaped(s.client) && Fetches(s.client, tab) && RequestOf(s.client, tab) in s.net.answers
  {
    var id := RequestOf(s.client, tab);
    var a := s.net.answers[id];
    s.(client := React(s.client, tab, Classify(Answered(a.status, a.token))),
       net := s.net.(answers := s.net.answers - {id}),
       jar := Store(s.jar, a),
       signedOut := s.signedOut || EndsSession(true, a))
  }

  /** Nothing of the exchange can still change the session or be missed by the jar. */
  predicate Harmless(n: Net, id: nat) {
    id !in n.sent && id !in n.serving && (id in n.answers ==> n.answers[id].setRefresh.None?)
  }

  /** The client stops waiting for an exchange that may still be under way. */
  function AfterGivingUp(s: State, tab: nat): State
    requires Fetches(s.client, tab)
  {
    var id := RequestOf(s.client, tab);
    s.(client := Settle(s.client, tab, Unavailable),
       net := s.net.(answers := s.net.answers - {id}),
       seen := Flagged(s.seen, !Harmless(s.net, id), false, false))
  }

  /** The next attempt of a logout, or giving up with ok: false. */
  function NextAttempt(s: State, tab: nat): State
    requires Leaves(s.client, tab)
  {
    var attempt := s.client.leaving[tab].value.attempt + 1;
    if attempt >= LOGOUT_ATTEMPTS then
      s.(client := s.client.(leaving := s.client.leaving[tab := None]))
    else
      s.(client := s.client.(leaving := s.client.leaving[tab := Some(Leaving(attempt, s.net.nextId))]),
         net := SendLogout(s.net, s.jar))
  }

  function AfterLogoutDelivery(s: State, tab: nat): State
    requires Leaves(s.client, tab) && LogoutOf(s.client, tab) in s.net.logoutAnswers
  {
    var id := LogoutOf(s.client, tab);
    var a := s.net.logoutAnswers[id];
    var s' := s.(net := s.net.(logoutAnswers := s.net.logoutAnswers - {id}), jar := Store(s.jar, a));
    if EndsSession(false, a) then
      s'.(signedOut := true, client := s.client.(leaving := s.client.leaving[tab := None]))
    else NextAttempt(s', tab)
  }

  function Next(s: State, step: Step): State
    requires Enabled(s, step)
  {
    match step
    case Open(tab) => s.(client := s.client.(tabs := s.client.tabs[tab := Opened(s.client.tabs[tab])]))
    case Join(tab, call, stale) => s.(client := JoinFlight(s.client, tab, call, stale))
    case Grant(tab) => AfterGrant(s, tab)
    case Read(id, headers) => ServeRead(s, id, headers)
    case Write(id, headers, ending) => ServeWrite(s, id, headers, ending)
    case Intercept(id, status) =>
      var a := Answer(status, None, None, false);
      s.(net := AnswerUnserved(s.net, id, a),
         seen := Flagged(s.seen, false, false, EndsSession(true, a) && s.server.alive))
    case Vanish(tab) =>
      s.(client := Settle(s.client, tab, Unavailable),
         net := s.net.(sent := s.net.sent - {RequestOf(s.client, tab)}))
    case GiveUp(tab) => AfterGivingUp(s, tab)
    case Deliver(tab) => AfterDelivery(s, tab)
    case SignOutReturns(tab) => s.(client := Settle(s.client, tab, Expired))
    case Receive(tab) => s.(client := HearNext(s.client, tab))
    case Elapse(ms) => s.(client := s.client.(now := s.client.now + ms))
    case LogoutStart(tab) =>
      s.(client := s.client.(leaving := s.client.leaving[tab := Some(Leaving(0, s.net.nextId))]),
         net := SendLogout(s.net, s.jar))
    case LogoutServe(id, crashes) => ServeLogout(s, id, crashes)
    case LogoutDeliver(tab) => AfterLogoutDelivery(s, tab)
    case LogoutLost(tab) => NextAttempt(s, tab)
    case SessionEnds => s.(server := Revoked(s.server))
    case StoreTurns(up) => s.(server := s.server.(storeUp := up))
    case UserTurns(active) => s.(server := s.server.(userActive := active))
  }

  // ── Runs ────────────────────────────────────────────────────

  /** A browser just logged in: no refresh under way, the jar holding the session's cookies. */
  predicate Initial(s: State) {
    && Shaped(s.client)
    && (forall t | 0 <= t < |s.client.tabs| :: s.client.tabs[t].flight.None? && s.client.tabs[t].remote.None?)
    && (forall t | 0 <= t < |s.client.tabs| :: s.client.inbox[t] == [] && s.client.leaving[t].None?)
    && s.client.queue == [] && s.client.calls == map[]
    && s.net == Net(0, map[], map[], map[], map[], map[])
    && s.server.alive && s.server.refresh < s.server.issued
    && s.jar == Cookies(true, Some(s.server.refresh))
    && !s.signedOut && s.seen == History(false, false, false)
  }

  predicate IsRun(s: State, steps: seq<Step>)
    decreases |steps|
  {
    steps == [] || (Enabled(s, steps[0]) && IsRun(Next(s, steps[0]), steps[1..]))
  }

  function After(s: State, steps: seq<Step>): State
    requires IsRun(s, steps)
    decreases |steps|
  {
    if steps == [] then s else After(Next(s, steps[0]), steps[1..])
  }
}
