/**
 What each step of the protocol does to a call, to a flight and to what a tab has heard, and
 what one whole refresh comes to, in terms of statuses, cookies and the session alone.
 */
module RefreshOutcomes {
  import opened Wrappers
  import opened AuthClient
  import opened AuthServer
  import opened RefreshProtocol
  import opened RefreshInvariants
  import opened RefreshTheorems
  import opened SharedRefresh

  // ── What a call gets ────────────────────────────────────────

  /** The answer the tab is about to take. */
  function AnswerTo(s: State, tab: nat): Answer
    requires Enabled(s, Deliver(tab))
  {
    s.net.answers[RequestOf(s.client, tab)]
  }

  /** What the step hands to everyone waiting for the tab's flight, if it settles it. */
  function HandedOut(s: State, step: Step, tab: nat): Option<Outcome>
    requires Enabled(s, step) && InFlight(s.client, tab)
  {
    if step == Deliver(tab) then
      var a := AnswerTo(s, tab);
      if a.status == 401 || a.status == 403 then None
      else if 200 <= a.status <= 299 && a.token.Some? then Some(Fresh(a.token.value))
      else Some(Unavailable)
    else if step == Vanish(tab) || step == GiveUp(tab) then Some(Unavailable)
    else if step == SignOutReturns(tab) then Some(Expired)
    else if step == Grant(tab) then
      match s.client.tabs[tab].remote
      case None => None
      case Some(heard) =>
        if s.client.tabs[tab].flight.value.stale != Some(heard.token) && s.client.now - heard.at < 10000
        then Some(Fresh(heard.token)) else None
    else None
  }

  /** A step that moves no flight hands out nothing. */
  lemma OthersHandNothing(s: State, step: Step, tab: nat)
    requires Enabled(s, step) && InFlight(s.client, tab) && !MovesFlight(step)
    ensures HandedOut(s, step, tab) == None && SameFlights(s.client, Next(s, step).client)
  {
    OthersKeepFlights(s, step);
  }

  /** What becomes of a waiting call, and of the slot and the lock, when something is handed out or nothing is. */
  predicate Handed(c: Client, c': Client, call: nat, tab: nat, out: Option<Outcome>) {
    && call in c'.calls
    && match out
       case None => c'.calls[call] == Waiting(tab) && InFlight(c', tab)
       case Some(outcome) =>
         && c'.calls[call] == Done(outcome) && !InFlight(c', tab)
         && c.queue != [] && c.queue[0] == tab && c'.queue == c.queue[1..]
  }

  lemma MoversHand(s: State, step: Step, call: nat, tab: nat)
    requires Enabled(s, step) && InFlight(s.client, tab) && MovesFlight(step)
    requires call in s.client.calls && s.client.calls[call] == Waiting(tab)
    ensures Handed(s.client, Next(s, step).client, call, tab, HandedOut(s, step, tab))
  {
  }

  /**
   A step hands its outcome to every call waiting for the flight, empties the slot and passes
   the lock on; or it hands out nothing, and call and flight stay.
   */
  lemma CallGetsExactly(s: State, step: Step, call: nat, tab: nat)
    requires Enabled(s, step) && InFlight(s.client, tab)
    requires call in s.client.calls && s.client.calls[call] == Waiting(tab)
    ensures Handed(s.client, Next(s, step).client, call, tab, HandedOut(s, step, tab))
  {
    if MovesFlight(step) {
      MoversHand(s, step, call, tab);
    } else {
      OthersHandNothing(s, step, tab);
    }
  }

  // ── A refresh answer ────────────────────────────────────────

  /** The flight is over: the slot empty, the lock passed on, every caller answered alike. */
  predicate Vacates(c: Client, c': Client, tab: nat, outcome: Outcome) {
    && tab < |c'.tabs| && c'.tabs[tab].flight.None?
    && c.queue != [] && c'.queue == c.queue[1..] && AllGet(c, c', tab, outcome)
  }

  /** The holder has the lock, signs out, and its callers wait. */
  predicate SigningOutAlone(c: Client, c': Client, tab: nat) {
    Holds(c', tab, SigningOut) && c'.queue == c.queue && AllWait(c, c', tab)
  }

  lemma ReactionDecides(c: Client, tab: nat, verdict: Verdict)
    requires Shaped(c) && Fetches(c, tab)
    ensures var c' := React(c, tab, verdict);
            match verdict
            case Dead => SigningOutAlone(c, c', tab)
            case Minted(token) => Vacates(c, c', tab, Fresh(token))
            case Transient => Vacates(c, c', tab, Unavailable)
  {
    if verdict.Dead? {
      assert React(c, tab, verdict) == Advance(c, tab, SigningOut);
    }
  }

  /**
   A refresh answered 401 or 403 keeps the lock, signs out and leaves the callers waiting; 200
   to 299 with a token hands the token to all of them; any other answer leaves the session be.
   */
  lemma DeliveryDecides(s: State, tab: nat)
    requires Enabled(s, Deliver(tab))
    ensures var c, c' := s.client, Next(s, Deliver(tab)).client;
            var a := AnswerTo(s, tab);
            && (a.status == 401 || a.status == 403 ==> SigningOutAlone(c, c', tab))
            && (200 <= a.status <= 299 && a.token.Some? ==> Vacates(c, c', tab, Fresh(a.token.value)))
            && (a.status != 401 && a.status != 403 && !(200 <= a.status <= 299 && a.token.Some?) ==>
                  Vacates(c, c', tab, Unavailable))
  {
    var a := AnswerTo(s, tab);
    var verdict := Classify(Answered(a.status, a.token));
    ReactionDecides(s.client, tab, verdict);
    assert Next(s, Deliver(tab)).client == React(s.client, tab, verdict);
  }

  /** The user is signed out by an answer exactly when its tab enters the sign-out. */
  lemma SignsOutWithTheHolder(s: State, tab: nat)
    requires Enabled(s, Deliver(tab)) && !s.signedOut
    ensures Next(s, Deliver(tab)).signedOut <==> Holds(Next(s, Deliver(tab)).client, tab, SigningOut)
  {
  }

  /** When the sign-out returns every caller of the flight is told that the session has expired. */
  lemma SignOutExpires(s: State, tab: nat)
    requires Enabled(s, SignOutReturns(tab))
    ensures Vacates(s.client, Next(s, SignOutReturns(tab)).client, tab, Expired)
  {
  }

  // ── A flight and what its tab has heard ─────────────────────

  /** A flight is started by a call and carries that call's token to its end. */
  lemma FlightIsItsCalls(s: State, step: Step, tab: nat)
    requires Enabled(s, step) && InFlight(Next(s, step).client, tab)
    ensures var flight := Next(s, step).client.tabs[tab].flight.value;
            if InFlight(s.client, tab) then flight.stale == s.client.tabs[tab].flight.value.stale
            else step.Join? && step.tab == tab && flight == Flight(step.stale, Queued)
  {
    if !MovesFlight(step) {
      OthersKeepFlights(s, step);
    }
  }

  /** A call that asks for a refresh waits for its own tab's flight, which is under way, and last in the queue if new. */
  lemma JoinWaits(s: State, tab: nat, call: nat, stale: Option<Token>)
    requires Enabled(s, Join(tab, call, stale))
    ensures var c, c' := s.client, Next(s, Join(tab, call, stale)).client;
            && call in c'.calls && c'.calls[call] == Waiting(tab)
            && InFlight(c', tab) && (InFlight(c, tab) || c'.tabs[tab].open)
            && c'.queue == (if InFlight(c, tab) then c.queue else c.queue + [tab])
  {
  }

  /** A tab has heard, last, the broadcast it received last, at the time it received it. */
  lemma HearsExactly(s: State, step: Step, tab: nat)
    requires Enabled(s, step) && tab < |s.client.tabs|
    ensures Next(s, step).client.tabs[tab].remote ==
              if step == Receive(tab) then Some(Heard(s.client.inbox[tab][0], s.client.now))
              else s.client.tabs[tab].remote
  {
  }

  /** A new token is announced to every other tab with an open channel, and nothing else ever is. */
  lemma PostsExactly(s: State, step: Step, tab: nat)
    requires Enabled(s, step) && tab < |s.client.tabs|
    ensures var inbox := Next(s, step).client.inbox;
            && |inbox| == |s.client.inbox|
            && inbox[tab] ==
                 if step == Receive(tab) then s.client.inbox[tab][1..]
                 else if step.Deliver? && step.tab != tab && s.client.tabs[tab].open
                         && HandedOut(s, step, step.tab).Some? && HandedOut(s, step, step.tab).value.Fresh?
                 then s.client.inbox[tab] + [HandedOut(s, step, step.tab).value.token]
                 else s.client.inbox[tab]
  {
  }

  // ── A logout's attempts ─────────────────────────────────────

  /** A logout is on its first or its second attempt. */
  predicate AttemptsSound(c: Client) {
    forall t | 0 <= t < |c.leaving| && c.leaving[t].Some? :: c.leaving[t].value.attempt < 2
  }

  /**
   A logout ends confirmed, or after its second attempt; an attempt that fails before sends the
   next, with the session cookie the jar then has.
   */
  lemma LogoutGoesOn(s: State, step: Step, tab: nat)
    requires Enabled(s, step) && Leaves(s.client, tab)
    requires step == LogoutDeliver(tab) || step == LogoutLost(tab)
    ensures var s' := Next(s, step);
            var confirmed := step.LogoutDeliver? && 200 <= s.net.logoutAnswers[LogoutOf(s.client, tab)].status <= 299;
            var attempt := s.client.leaving[tab].value.attempt;
            && (s'.signedOut <==> s.signedOut || confirmed)
            && tab < |s'.client.leaving|
            && s'.client.leaving[tab] ==
                 (if confirmed || attempt >= 1 then None else Some(Leaving(attempt + 1, s.net.nextId)))
            && (s'.client.leaving[tab].Some? ==>
                  && s.net.nextId in s'.net.logoutSent && s'.net.logoutSent[s.net.nextId] == s'.jar.sid
                  && s'.net.nextId == s.net.nextId + 1)
  {
  }

  /**
   A logout that nobody disturbs is confirmed at once: the user is signed out, the cookies are
   gone, and the session is revoked if the request carried its cookie and the store was up.
   */
  lemma LogoutComesTo(s: State, tab: nat)
    requires Shaped(s.client) && tab < |s.client.tabs| && s.client.leaving[tab].None?
    ensures var steps := [LogoutStart(tab), LogoutServe(s.net.nextId, false), LogoutDeliver(tab)];
            && IsRun(s, steps)
            && var t := After(s, steps);
               && t.signedOut && t.jar == Cookies(false, None) && t.client.leaving == s.client.leaving
               && t.server == if s.jar.sid && s.server.storeUp then s.server.(alive := false) else s.server
  {
    var steps := [LogoutStart(tab), LogoutServe(s.net.nextId, false), LogoutDeliver(tab)];
    var s1 := Next(s, steps[0]);
    var s2 := Next(s1, steps[1]);
    var s3 := Next(s2, steps[2]);
    PathOfThree(s, s1, s2, s3, steps[0], steps[1], steps[2]);
    assert s3.client.leaving == s.client.leaving;
  }

  lemma AttemptsStaySound(s: State, step: Step)
    requires AttemptsSound(s.client) && Enabled(s, step)
    ensures AttemptsSound(Next(s, step).client)
  {
  }

  /** No logout of any run is ever past its second attempt. */
  lemma {:induction false} TwoAttemptsAtMost(s: State, steps: seq<Step>)
    requires AttemptsSound(s.client) && IsRun(s, steps)
    ensures AttemptsSound(After(s, steps).client)
    decreases |steps|
  {
    if steps != [] {
      AttemptsStaySound(s, steps[0]);
      TwoAttemptsAtMost(Next(s, steps[0]), steps[1..]);
    }
  }

  // ── One whole refresh ───────────────────────────────────────

  /** No refresh anywhere, and tab 0 has heard nothing; session, cookies, store and user are as they may. */
  predicate AtRest(s: State) {
    && Shaped(s.client) && s.client.tabs != [] && s.client.queue == []
    && s.client.tabs[0].flight.None? && s.client.tabs[0].remote.None?
    && s.net.sent == map[] && s.net.serving == map[] && s.net.answers == map[]
    && s.server.refresh < s.server.issued && !s.signedOut
  }

  /** Only tab 0 has asked for the lock, and its request waits for an answer. */
  predicate Alone(c: Client, call: nat, id: nat, c': Client) {
    && Fetches(c', 0) && RequestOf(c', 0) == id && c'.queue == [0] && Shaped(c')
    && c'.calls == c.calls[call := Waiting(0)]
  }

  /** Tab 0's request carries the jar's cookies. */
  predicate Requested(s: State, call: nat, t: State) {
    var id := s.net.nextId;
    && Alone(s.client, call, id, t.client)
    && t == s.(client := t.client, net := s.net.(nextId := id + 1, sent := map[id := s.jar]))
  }

  lemma Departs(s: State, call: nat) returns (s1: State, s2: State)
    requires AtRest(s) && call !in s.client.calls
    ensures Enabled(s, Join(0, call, None)) && s1 == Next(s, Join(0, call, None))
    ensures Enabled(s1, Grant(0)) && s2 == Next(s1, Grant(0)) && Requested(s, call, s2)
  {
    s1 := Next(s, Join(0, call, None));
    s2 := Next(s1, Grant(0));
    assert s2.client == Advance(s1.client, 0, Fetching(s.net.nextId));
    assert s2.net.sent == map[s.net.nextId := s.jar];
  }

  /** An answer is all that is under way. */
  predicate AnswerIsIn(s: State, call: nat, server: Server, a: Answer, t: State) {
    var id := s.net.nextId;
    && Alone(s.client, call, id, t.client)
    && t.net.sent == map[] && t.net.serving == map[] && t.net.answers == map[id := a]
    && t.jar == s.jar && t.server == server && t.signedOut == s.signedOut
  }

  /** What has become of the session, the jar, the user and the call. */
  predicate EndsWith(t: State, call: nat, server: Server, jar: Cookies, signedOut: bool, outcome: Outcome) {
    && t.server == server && t.jar == jar && t.signedOut == signedOut
    && call in t.client.calls && t.client.calls[call] == Done(outcome)
    && t.client.queue == [] && t.net.sent == map[] && t.net.serving == map[] && t.net.answers == map[]
  }

  lemma Delivered(s: State, call: nat, server: Server, a: Answer, t: State)
    requires AnswerIsIn(s, call, server, a, t) && a.status != 401 && a.status != 403 && !s.signedOut
    ensures Enabled(t, Deliver(0))
    ensures EndsWith(Next(t, Deliver(0)), call, server, Store(s.jar, a), false,
                     if 200 <= a.status <= 299 && a.token.Some? then Fresh(a.token.value) else Unavailable)
  {
    DeliveryDecides(t, 0);
    assert Next(t, Deliver(0)).net.answers == map[];
  }

  lemma DeliveredDead(s: State, call: nat, server: Server, a: Answer, t: State) returns (t1: State)
    requires AnswerIsIn(s, call, server, a, t) && (a.status == 401 || a.status == 403)
    ensures Enabled(t, Deliver(0)) && t1 == Next(t, Deliver(0)) && Enabled(t1, SignOutReturns(0))
    ensures EndsWith(Next(t1, SignOutReturns(0)), call, server, Store(s.jar, a), true, Expired)
  {
    t1 := Next(t, Deliver(0));
    DeliveryDecides(t, 0);
    SignOutExpires(t1, 0);
    assert t1.net.answers == map[];
  }

  // ── Every refresh from rest ─────────────────────────────────

  /** What a refresh makes of the session, the jar and the call; the user is signed out where it has expired. */
  datatype Fate = Fate(server: Server, jar: Cookies, outcome: Outcome)

  /** `headers`: deletions of cookies are sent with a raised error; `ending`: how the handler ends after its write. */
  function FateOf(server: Server, jar: Cookies, headers: bool, ending: Ending): Fate {
    var cleared := if headers then Cookies(false, None) else jar;
    if !jar.sid || jar.refresh.None? then Fate(server, jar, Expired)
    else if !server.storeUp then Fate(server, cleared, Unavailable)
    else if !server.alive then Fate(server, cleared, Expired)
    else if jar.refresh != Some(server.refresh) then Fate(server.(alive := false), cleared, Expired)
    else
      var rotated := server.(refresh := server.issued, issued := server.issued + 1, minted := server.minted + 1);
      if ending.Crashes? then Fate(rotated, jar, Unavailable)
      else if !server.userActive then Fate(rotated, cleared, Expired)
      else
        Fate(rotated, jar.(refresh := Some(server.issued)),
             if ending.LosesBody? then Unavailable else Fresh(server.minted))
  }

  /** A refresh is answered without a write where there is no session to read, or none to look for. */
  predicate ReadDecides(server: Server, jar: Cookies) {
    !jar.sid || jar.refresh.None? || !server.storeUp || !server.alive
  }

  /** Tab 0 asks, is granted the lock, the server reads and, where it comes to that, writes. */
  function ServingSteps(s: State, call: nat, headers: bool, ending: Ending): seq<Step> {
    var id := s.net.nextId;
    [Join(0, call, None), Grant(0), Read(id, headers)]
    + if ReadDecides(s.server, s.jar) then [] else [Write(id, headers, ending)]
  }

  /** The tab takes the answer and, where the session has expired, signs out. */
  function TakingSteps(outcome: Outcome): seq<Step> {
    if outcome.Expired? then [Deliver(0), SignOutReturns(0)] else [Deliver(0)]
  }

  /** The answer that leads to the fate. */
  predicate LeadsTo(jar: Cookies, a: Answer, fate: Fate) {
    && Store(jar, a) == fate.jar
    && match fate.outcome
       case Expired => a.status == 401
       case Fresh(token) => 200 <= a.status <= 299 && a.token == Some(token)
       case Unavailable => a.status != 401 && a.status != 403 && !(200 <= a.status <= 299 && a.token.Some?)
  }

  lemma ReadAnswers(s: State, call: nat, headers: bool, ending: Ending, s2: State) returns (a: Answer, s3: State)
    requires AtRest(s) && Requested(s, call, s2) && ReadDecides(s.server, s.jar)
    ensures Enabled(s2, Read(s.net.nextId, headers)) && s3 == Next(s2, Read(s.net.nextId, headers))
    ensures var fate := FateOf(s.server, s.jar, headers, ending);
            AnswerIsIn(s, call, fate.server, a, s3) && LeadsTo(s.jar, a, fate)
  {
    var id := s.net.nextId;
    s3 := Next(s2, Read(id, headers));
    assert s3.net.sent == map[];
    a := s3.net.answers[id];
  }

  lemma WriteAnswers(s: State, call: nat, headers: bool, ending: Ending, s2: State)
    returns (a: Answer, s3: State, s4: State)
    requires AtRest(s) && Requested(s, call, s2) && !ReadDecides(s.server, s.jar)
    ensures var id := s.net.nextId;
            && Enabled(s2, Read(id, headers)) && s3 == Next(s2, Read(id, headers))
            && Enabled(s3, Write(id, headers, ending)) && s4 == Next(s3, Write(id, headers, ending))
    ensures var fate := FateOf(s.server, s.jar, headers, ending);
            AnswerIsIn(s, call, fate.server, a, s4) && LeadsTo(s.jar, a, fate)
  {
    var id := s.net.nextId;
    s3 := Next(s2, Read(id, headers));
    assert s3.net.sent == map[];
    s4 := Next(s3, Write(id, headers, ending));
    assert s4.net.serving == map[];
    a := s4.net.answers[id];
  }

  lemma Serves(s: State, call: nat, headers: bool, ending: Ending) returns (a: Answer)
    requires AtRest(s) && call !in s.client.calls
    ensures var steps := ServingSteps(s, call, headers, ending);
            var fate := FateOf(s.server, s.jar, headers, ending);
            IsRun(s, steps) && AnswerIsIn(s, call, fate.server, a, After(s, steps)) && LeadsTo(s.jar, a, fate)
  {
    var id := s.net.nextId;
    var s1, s2 := Departs(s, call);
    if ReadDecides(s.server, s.jar) {
      var s3;
      a, s3 := ReadAnswers(s, call, headers, ending, s2);
      PathOfThree(s, s1, s2, s3, Join(0, call, None), Grant(0), Read(id, headers));
      assert ServingSteps(s, call, headers, ending) == [Join(0, call, None), Grant(0), Read(id, headers)];
    } else {
      var s3, s4;
      a, s3, s4 := WriteAnswers(s, call, headers, ending, s2);
      PathOfThree(s, s1, s2, s3, Join(0, call, None), Grant(0), Read(id, headers));
      OneStep(s3, Write(id, headers, ending));
      RunsCompose(s, [Join(0, call, None), Grant(0), Read(id, headers)], [Write(id, headers, ending)]);
    }
  }

  lemma Takes(s: State, call: nat, a: Answer, fate: Fate, t: State)
    requires AnswerIsIn(s, call, fate.server, a, t) && LeadsTo(s.jar, a, fate) && !s.signedOut
    ensures IsRun(t, TakingSteps(fate.outcome))
    ensures var t' := After(t, TakingSteps(fate.outcome));
            EndsWith(t', call, fate.server, fate.jar, fate.outcome.Expired?, fate.outcome)
  {
    if fate.outcome.Expired? {
      var t1 := DeliveredDead(s, call, fate.server, a, t);
      PathIsRun([t, t1, Next(t1, SignOutReturns(0))], [Deliver(0), SignOutReturns(0)]);
    } else {
      Delivered(s, call, fate.server, a, t);
      OneStep(t, Deliver(0));
    }
  }

  /**
   One refresh from rest, whatever the session, the cookies, the store and the user: what it
   makes of all of them. The user is signed out exactly where the session has expired.
   */
  lemma RefreshComesTo(s: State, call: nat, headers: bool, ending: Ending)
    requires AtRest(s) && call !in s.client.calls
    ensures var fate := FateOf(s.server, s.jar, headers, ending);
            var steps := ServingSteps(s, call, headers, ending) + TakingSteps(fate.outcome);
            && IsRun(s, steps)
            && EndsWith(After(s, steps), call, fate.server, fate.jar, fate.outcome.Expired?, fate.outcome)
  {
    var fate := FateOf(s.server, s.jar, headers, ending);
    var first := ServingSteps(s, call, headers, ending);
    var a := Serves(s, call, headers, ending);
    Takes(s, call, a, fate, After(s, first));
    RunsCompose(s, first, TakingSteps(fate.outcome));
  }
}
