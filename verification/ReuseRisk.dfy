/**
 When the strict reuse check can still fire: the exact condition, in every reachable state
 with a live session, for some tear-free continuation to be taken for a reused token.
 */
module ReuseRisk {
  import opened Wrappers
  import opened AuthClient
  import opened AuthServer
  import opened RefreshProtocol
  import opened RefreshInvariants
  import opened RefreshTheorems

  // ── Continuations ───────────────────────────────────────────

  predicate FindsReuseIn(s: State, steps: seq<Step>)
    requires IsRun(s, steps)
    decreases |steps|
  {
    steps != [] && (FindsReuse(s, steps[0]) || FindsReuseIn(Next(s, steps[0]), steps[1..]))
  }

  /** Without any further tear, some refresh may yet be taken for a reused token. */
  ghost predicate CanReuse(s: State) {
    exists steps :: IsRun(s, steps) && NoTears(s, steps) && FindsReuseIn(s, steps)
  }

  lemma StepThenReuse(s: State, step: Step)
    requires Enabled(s, step) && !Tears(s, step)
    requires FindsReuse(s, step) || CanReuse(Next(s, step))
    ensures CanReuse(s)
  {
    var rest: seq<Step> := [];
    if !FindsReuse(s, step) {
      rest :| IsRun(Next(s, step), rest) && NoTears(Next(s, step), rest) && FindsReuseIn(Next(s, step), rest);
    }
    var steps := [step] + rest;
    assert steps[1..] == rest;
    assert IsRun(s, steps) && NoTears(s, steps) && FindsReuseIn(s, steps);
  }

  // ── The risk ────────────────────────────────────────────────

  /** An exchange that can present a refresh token or rotate the session. */
  predicate Armed(n: Net, id: nat) {
    (id in n.sent && n.sent[id].sid) || (id in n.serving && n.serving[id] == Rotating)
  }

  /** A request on its way whose cookie the server no longer accepts. */
  predicate StaleRequest(s: State) {
    exists id | id in s.net.sent :: s.net.sent[id].sid && s.net.sent[id].refresh != Some(s.server.refresh)
  }

  /** A request on its way besides another armed exchange. */
  ghost predicate Crossing(s: State) {
    exists i: nat, j: nat :: i != j && i in s.net.sent && s.net.sent[i].sid && Armed(s.net, j)
  }

  /** The lock holder's answer brings a new cookie. */
  predicate CookieComes(s: State) {
    && s.client.queue != [] && Fetches(s.client, s.client.queue[0])
    && RequestOf(s.client, s.client.queue[0]) in s.net.answers
    && s.net.answers[RequestOf(s.client, s.client.queue[0])].setRefresh.Some?
  }

  /** The token the next request of this browser presents. */
  function Offered(s: State): Option<nat> {
    if CookieComes(s) then s.net.answers[RequestOf(s.client, s.client.queue[0])].setRefresh else s.jar.refresh
  }

  /** An armed exchange nobody waits for any more. */
  ghost predicate Loose(s: State) {
    exists j: nat :: Armed(s.net, j) && !HeadFetches(s.client, j)
  }

  /** A browser that still has a session to refresh would present a stale token, or an exchange is loose. */
  ghost predicate JarAtRisk(s: State) {
    s.client.tabs != [] && s.jar.sid && (Offered(s) != Some(s.server.refresh) || Loose(s))
  }

  ghost predicate AtRisk(s: State) {
    StaleRequest(s) || Crossing(s) || JarAtRisk(s)
  }

  // ── What every reachable state satisfies, torn or not ───────

  /** Cookies come in pairs, and an answer that sets one is a 200 that clears none. */
  predicate CookiesPaired(s: State) {
    && (s.jar.sid ==> s.jar.refresh.Some? && forall id | id in s.net.sent :: s.net.sent[id].sid)
    && (forall id | id in s.net.sent :: s.net.sent[id].sid ==> s.net.sent[id].refresh.Some?)
    && (forall id | id in s.net.answers && s.net.answers[id].setRefresh.Some? ::
          s.net.answers[id].status == 200 && !s.net.answers[id].clears)
    && (forall id | id in s.net.logoutAnswers :: s.net.logoutAnswers[id].setRefresh.None?)
  }

  predicate Grounded(s: State) {
    TabsSound(s.client) && IdsSound(s.net) && CookiesPaired(s) && s.server.refresh < s.server.issued
  }

  lemma LogoutKeepsPairs(s: State, step: Step)
    requires CookiesPaired(s) && Enabled(s, step) && IsLogout(step)
    ensures CookiesPaired(Next(s, step))
  {
  }

  /** Only these steps touch cookies. */
  predicate MovesCookies(step: Step) {
    step.Grant? || step.Read? || step.Write? || step.Intercept? || step.Vanish? || step.GiveUp? || step.Deliver?
  }

  lemma ServerKeepsPairs(s: State, step: Step)
    requires CookiesPaired(s) && Enabled(s, step) && (step.Read? || step.Write? || step.Intercept?)
    ensures CookiesPaired(Next(s, step))
  {
  }

  lemma ClientKeepsPairs(s: State, step: Step)
    requires CookiesPaired(s) && Enabled(s, step)
    requires step.Grant? || step.Vanish? || step.GiveUp? || step.Deliver?
    ensures CookiesPaired(Next(s, step))
  {
  }

  lemma OthersKeepPairs(s: State, step: Step)
    requires CookiesPaired(s) && Enabled(s, step) && !MovesCookies(step) && !IsLogout(step)
    ensures CookiesPaired(Next(s, step))
  {
  }

  lemma StepKeepsPairs(s: State, step: Step)
    requires CookiesPaired(s) && Enabled(s, step)
    ensures CookiesPaired(Next(s, step))
  {
    if IsLogout(step) {
      LogoutKeepsPairs(s, step);
    } else if MovesCookies(step) {
      if step.Read? || step.Write? || step.Intercept? {
        ServerKeepsPairs(s, step);
      } else {
        ClientKeepsPairs(s, step);
      }
    } else {
      OthersKeepPairs(s, step);
    }
  }

  lemma StepKeepsGrounded(s: State, step: Step)
    requires Grounded(s) && Enabled(s, step)
    ensures Grounded(Next(s, step))
  {
    StepKeepsTabs(s, step);
    StepKeepsIds(s, step);
    StepKeepsPairs(s, step);
    TornStays(s, step);
  }

  lemma {:induction false} RunKeepsGrounded(s: State, steps: seq<Step>)
    requires Grounded(s) && IsRun(s, steps)
    ensures Grounded(After(s, steps))
    decreases |steps|
  {
    if steps != [] {
      StepKeepsGrounded(s, steps[0]);
      RunKeepsGrounded(Next(s, steps[0]), steps[1..]);
    }
  }

  // ── No risk, no reuse ───────────────────────────────────────

  lemma CalmReadsFindNoReuse(s: State, step: Step)
    requires Enabled(s, step) && !StaleRequest(s)
    ensures !FindsReuse(s, step)
  {
  }

  /** The exchanges, the jar and the lock holder's request as before, or the jar emptied. */
  lemma RiskFrame(s: State, s': State)
    requires CookiesPaired(s') && !AtRisk(s) && SameExchange(s, s')
    requires |s'.client.tabs| == |s.client.tabs|
    requires forall id: nat :: HeadFetches(s'.client, id) <==> HeadFetches(s.client, id)
    ensures !AtRisk(s')
  {
    assert forall j: nat :: Armed(s'.net, j) <==> Armed(s.net, j);
    if s'.jar == s.jar {
      OfferedFrame(s, s');
    }
  }

  lemma OfferedFrame(s: State, s': State)
    requires s'.net.answers == s.net.answers && s'.jar == s.jar
    requires forall id: nat :: HeadFetches(s'.client, id) <==> HeadFetches(s.client, id)
    ensures Offered(s') == Offered(s)
  {
    if CookieComes(s) {
      assert HeadFetches(s.client, RequestOf(s.client, s.client.queue[0]));
    }
    if CookieComes(s') {
      assert HeadFetches(s'.client, RequestOf(s'.client, s'.client.queue[0]));
    }
  }

  lemma HeadSame(s: State, step: Step)
    requires LockSound(s.client) && Enabled(s, step) && (step.Join? || !MovesFlight(step))
    ensures forall id: nat :: HeadFetches(Next(s, step).client, id) <==> HeadFetches(s.client, id)
    ensures |Next(s, step).client.tabs| == |s.client.tabs|
  {
    if !step.Join? {
      OthersKeepFlights(s, step);
    }
  }

  /** Once nobody fetches, no armed exchange may be left unless the browser has lost its cookies. */
  lemma NobodyFetches(s: State, s': State)
    requires !StaleRequest(s) && !Crossing(s)
    requires s'.net.sent == s.net.sent && s'.net.serving == s.net.serving && s'.server.refresh == s.server.refresh
    requires forall id: nat :: !HeadFetches(s'.client, id)
    requires s'.client.tabs != [] && s'.jar.sid ==> s'.jar.refresh == Some(s'.server.refresh) && !Loose(s')
    ensures !AtRisk(s')
  {
    assert forall j: nat :: Armed(s'.net, j) <==> Armed(s.net, j);
    NothingComes(s');
  }

  lemma NothingComes(s: State)
    requires forall id: nat :: !HeadFetches(s.client, id)
    ensures !CookieComes(s)
  {
    assert CookieComes(s) ==> HeadFetches(s.client, RequestOf(s.client, s.client.queue[0]));
  }

  lemma RiskAtGrant(s: State, tab: nat)
    requires Grounded(s) && !AtRisk(s) && Enabled(s, Grant(tab))
    ensures !AtRisk(Next(s, Grant(tab)))
  {
    var s' := Next(s, Grant(tab));
    match OnLock(s.client.tabs[tab], s.client.now)
    case Reuse(token) =>
      SettleKeepsTabs(s.client, tab, Fresh(token));
      assert s'.net == s.net && s'.jar == s.jar;
      NobodyFetches(s, s');
    case Send =>
      if s.jar.sid {
        assert forall j: nat :: !Armed(s.net, j);
        SendAlone(s, s', s.net.nextId);
      } else {
        assert forall j: nat :: Armed(s'.net, j) <==> Armed(s.net, j);
      }
  }

  lemma SendAlone(s: State, s': State, id: nat)
    requires forall j: nat :: !Armed(s.net, j)
    requires s'.net == SendRefresh(s.net, s.jar) && id == s.net.nextId && s'.server == s.server && s'.jar == s.jar
    requires HeadFetches(s'.client, id) && id !in s'.net.answers
    requires s.jar.refresh == Some(s.server.refresh)
    ensures !AtRisk(s')
  {
    assert forall j: nat :: Armed(s'.net, j) && j != id ==> Armed(s.net, j);
    assert forall k | k in s'.net.sent && s'.net.sent[k].sid :: Armed(s'.net, k);
    assert s'.net.sent[id] == s.jar;
    NotFetchedYet(s', id);
  }

  lemma NotFetchedYet(s: State, id: nat)
    requires HeadFetches(s.client, id) && id !in s.net.answers
    ensures !CookieComes(s)
  {
  }

  lemma RiskAtRead(s: State, step: Step)
    requires Grounded(s) && !AtRisk(s) && Enabled(s, step) && (step.Read? || step.Intercept?)
    ensures !AtRisk(Next(s, step))
  {
    var s' := Next(s, step);
    assert s'.client == s.client && s'.jar == s.jar && s'.server == s.server;
    assert forall j: nat :: Armed(s'.net, j) ==> Armed(s.net, j);
    assert step.request !in s.net.answers;
    assert Offered(s') == Offered(s);
  }

  lemma RiskAtWrite(s: State, step: Step)
    requires Grounded(s) && !AtRisk(s) && Enabled(s, step) && step.Write? && !Tears(s, step)
    ensures !AtRisk(Next(s, step))
  {
    var s' := Next(s, step);
    var id := step.request;
    assert s'.client == s.client && s'.jar == s.jar && s'.net.sent == s.net.sent;
    assert forall j: nat :: Armed(s'.net, j) ==> Armed(s.net, j);
    assert id !in s.net.answers;
    if s.net.serving[id].Rotating? && s.server.storeUp {
      assert Armed(s.net, id);
      assert forall i | i in s.net.sent :: !s.net.sent[i].sid;
      assert s'.net.answers[id].setRefresh == Some(s'.server.refresh);
      if s.client.tabs != [] && s.jar.sid {
        assert HeadFetches(s.client, id);
        assert Offered(s') == Some(s'.server.refresh);
      }
    } else {
      assert s'.net.answers[id].setRefresh.None?;
      assert Offered(s') == Offered(s);
    }
  }

  /** The lock holder stops waiting: what it waited for is no longer armed, or comes to nothing. */
  lemma RiskAtEnd(s: State, step: Step)
    requires Grounded(s) && !AtRisk(s) && Enabled(s, step) && !Tears(s, step)
    requires step.Vanish? || step.GiveUp? || step.Deliver?
    ensures !AtRisk(Next(s, step))
  {
    var s' := Next(s, step);
    var id := RequestOf(s.client, step.tab);
    StepKeepsTabs(s, step);
    assert forall j: nat :: HeadFetches(s.client, j) <==> j == id;
    EndReleases(s, step);
    assert forall j: nat :: Armed(s'.net, j) ==> Armed(s.net, j) && j != id;
    assert s'.jar.sid ==> s.jar.sid && s'.jar.refresh == Offered(s);
    NothingComes(s');
  }

  /** Afterwards nobody waits for a refresh answer. */
  lemma EndReleases(s: State, step: Step)
    requires Grounded(s) && Enabled(s, step) && (step.Vanish? || step.GiveUp? || step.Deliver?)
    ensures forall j: nat :: !HeadFetches(Next(s, step).client, j)
  {
    var c, tab := s.client, step.tab;
    if !step.Deliver? {
      NextHolds(c, c, tab, Unavailable);
    } else {
      var a := s.net.answers[RequestOf(c, tab)];
      match Classify(Answered(a.status, a.token))
      case Minted(token) => NextHolds(c, Broadcast(c, tab, token), tab, Fresh(token));
      case Transient => NextHolds(c, c, tab, Unavailable);
      case Dead =>
    }
  }

  lemma RiskAtSignOut(s: State, tab: nat)
    requires Grounded(s) && !AtRisk(s) && Enabled(s, SignOutReturns(tab))
    ensures !AtRisk(Next(s, SignOutReturns(tab)))
  {
    var s' := Next(s, SignOutReturns(tab));
    StepKeepsTabs(s, SignOutReturns(tab));
    assert forall j: nat :: !HeadFetches(s.client, j);
    NobodyFetches(s, s');
  }

  lemma RiskElsewhere(s: State, step: Step)
    requires Grounded(s) && !AtRisk(s) && Enabled(s, step)
    requires !MovesCookies(step) && !step.SignOutReturns?
    ensures !AtRisk(Next(s, step))
  {
    if IsLogout(step) {
      LogoutKeepsExchange(s, step);
    } else {
      OthersKeepExchange(s, step);
    }
    HeadSame(s, step);
    StepKeepsPairs(s, step);
    RiskFrame(s, Next(s, step));
  }

  /** A tear-free step from a state without risk finds no reuse and brings none. */
  lemma StepKeepsRiskAway(s: State, step: Step)
    requires Grounded(s) && !AtRisk(s) && Enabled(s, step) && !Tears(s, step)
    ensures !FindsReuse(s, step) && !AtRisk(Next(s, step))
  {
    CalmReadsFindNoReuse(s, step);
    match step
    case Grant(tab) => RiskAtGrant(s, tab);
    case Read(_, _) => RiskAtRead(s, step);
    case Intercept(_, _) => RiskAtRead(s, step);
    case Write(_, _, _) => RiskAtWrite(s, step);
    case Vanish(_) => RiskAtEnd(s, step);
    case GiveUp(_) => RiskAtEnd(s, step);
    case Deliver(_) => RiskAtEnd(s, step);
    case SignOutReturns(tab) => RiskAtSignOut(s, tab);
    case _ => RiskElsewhere(s, step);
  }

  lemma {:induction false} NoRiskNoReuse(s: State, steps: seq<Step>)
    requires Grounded(s) && !AtRisk(s) && IsRun(s, steps) && NoTears(s, steps)
    ensures !FindsReuseIn(s, steps) && !AtRisk(After(s, steps))
    decreases |steps|
  {
    if steps != [] {
      StepKeepsRiskAway(s, steps[0]);
      StepKeepsGrounded(s, steps[0]);
      NoRiskNoReuse(Next(s, steps[0]), steps[1..]);
    }
  }

  // ── Risk, then reuse ────────────────────────────────────────

  lemma ReadsNow(s: State, id: nat)
    requires Shaped(s.client) && id in s.net.sent && s.net.sent[id].sid && s.net.sent[id].refresh.Some?
    requires s.net.sent[id].refresh != Some(s.server.refresh) && s.server.alive && s.server.storeUp
    ensures CanReuse(s)
  {
    StepThenReuse(s, Read(id, false));
  }

  lemma StaleRequestReuses(s: State)
    requires Grounded(s) && s.server.alive && StaleRequest(s)
    ensures CanReuse(s)
  {
    var id :| id in s.net.sent && s.net.sent[id].sid && s.net.sent[id].refresh != Some(s.server.refresh);
    ReadsNow(Next(s, StoreTurns(true)), id);
    StepThenReuse(s, StoreTurns(true));
  }

  /** What t can still reach, s can. */
  ghost predicate Leads(s: State, t: State) {
    CanReuse(t) ==> CanReuse(s)
  }

  /** The store is up and the user active: both can be had at any time. */
  lemma GoodWeather(s: State) returns (t: State)
    requires Grounded(s)
    ensures Leads(s, t) && Grounded(t)
    ensures t == s.(server := s.server.(storeUp := true, userActive := true))
  {
    var t0 := Next(s, StoreTurns(true));
    t := Next(t0, UserTurns(true));
    StepKeepsGrounded(s, StoreTurns(true));
    StepKeepsGrounded(t0, UserTurns(true));
    if CanReuse(t) {
      StepThenReuse(t0, UserTurns(true));
      StepThenReuse(s, StoreTurns(true));
    }
  }

  /** An exchange being served rotates the session. */
  lemma ServedRotates(s: State, j: nat) returns (t: State)
    requires Grounded(s) && s.server.alive && s.server.storeUp && s.server.userActive
    requires j in s.net.serving && s.net.serving[j] == Rotating
    ensures Leads(s, t) && Grounded(t) && Rotates(s, j, t)
  {
    var step := Write(j, false, Completes);
    t := Next(s, step);
    StepKeepsGrounded(s, step);
    if CanReuse(t) {
      StepThenReuse(s, step);
    }
  }

  predicate Rotates(s: State, j: nat, t: State) {
    && t.client == s.client && t.jar == s.jar && t.net.sent == s.net.sent - {j} && t.server.alive
    && t.server.refresh == s.server.issued
  }

  /** Any armed exchange can go through, unless it is stale itself. */
  lemma ArmedRotates(s: State, j: nat) returns (t: State)
    requires Grounded(s) && s.server.alive && Armed(s.net, j) && !StaleRequest(s)
    ensures Leads(s, t) && Grounded(t) && Rotates(s, j, t)
  {
    var s1 := GoodWeather(s);
    if j in s.net.serving {
      assert s1.net.sent == s1.net.sent - {j};
      t := ServedRotates(s1, j);
    } else {
      var step := Read(j, false);
      var s2 := Next(s1, step);
      StepKeepsGrounded(s1, step);
      t := ServedRotates(s2, j);
      assert t.net.sent == s.net.sent - {j};
      if CanReuse(s2) {
        StepThenReuse(s1, step);
      }
    }
  }

  lemma CrossingReuses(s: State)
    requires Grounded(s) && s.server.alive && Crossing(s)
    ensures CanReuse(s)
  {
    if StaleRequest(s) {
      StaleRequestReuses(s);
    } else {
      var i: nat, j: nat :| i != j && i in s.net.sent && s.net.sent[i].sid && Armed(s.net, j);
      var t := ArmedRotates(s, j);
      assert i in t.net.sent && t.net.sent[i] == s.net.sent[i];
      assert StaleRequest(t);
      StaleRequestReuses(t);
    }
  }

  // ── The browser's own next request ──────────────────────────

  predicate NobodyHoldsOn(c: Client) {
    c.queue == [] || Holds(c, c.queue[0], Queued)
  }

  /** What draining the lock holder keeps. */
  ghost predicate Drained(s: State, t: State) {
    && NobodyHoldsOn(t.client) && |t.client.tabs| == |s.client.tabs|
    && t.jar == s.jar.(refresh := Offered(s))
    && t.server.alive == s.server.alive && t.server.refresh == s.server.refresh
    && forall j: nat | Armed(s.net, j) && !HeadFetches(s.client, j) :: Armed(t.net, j)
  }

  lemma NextHolds(c: Client, c': Client, tab: nat, outcome: Outcome)
    requires LockSound(c) && c.queue != [] && c.queue[0] == tab
    requires c' == c || (outcome.Fresh? && c' == Broadcast(c, tab, outcome.token))
    ensures NobodyHoldsOn(Settle(c', tab, outcome))
  {
    if |c.queue| > 1 {
      assert c.queue[1] != tab && InFlight(c, c.queue[1]);
    }
  }

  lemma CookieDrains(s: State, tab: nat)
    requires Grounded(s) && CookieComes(s) && tab == s.client.queue[0]
    ensures Enabled(s, Deliver(tab)) && !Tears(s, Deliver(tab)) && Drained(s, Next(s, Deliver(tab)))
  {
    var a := s.net.answers[RequestOf(s.client, tab)];
    if a.token.Some? {
      NextHolds(s.client, Broadcast(s.client, tab, a.token.value), tab, Fresh(a.token.value));
    } else {
      NextHolds(s.client, s.client, tab, Unavailable);
    }
  }

  lemma GivingUpDrains(s: State, step: Step)
    requires Grounded(s) && Enabled(s, step) && !CookieComes(s) && (step.Vanish? || step.GiveUp?) && !Tears(s, step)
    ensures Drained(s, Next(s, step))
  {
    NextHolds(s.client, s.client, step.tab, Unavailable);
    LooseStay(s, step);
  }

  lemma LooseStay(s: State, step: Step)
    requires Grounded(s) && Enabled(s, step) && (step.Vanish? || step.GiveUp?)
    ensures forall j: nat | Armed(s.net, j) && !HeadFetches(s.client, j) :: Armed(Next(s, step).net, j)
  {
  }

  /** One way for the lock holder's exchange to end without a tear and without changing anything. */
  lemma FetchEnds(s: State) returns (step: Step)
    requires Grounded(s) && s.client.queue != [] && Fetches(s.client, s.client.queue[0])
    requires RequestOf(s.client, s.client.queue[0]) !in s.net.serving
    ensures Enabled(s, step) && !Tears(s, step) && Drained(s, Next(s, step))
  {
    var tab := s.client.queue[0];
    if CookieComes(s) {
      step := Deliver(tab);
      CookieDrains(s, tab);
    } else {
      step := if RequestOf(s.client, tab) in s.net.sent then Vanish(tab) else GiveUp(tab);
      GivingUpDrains(s, step);
    }
  }

  /** A served rotation can fail on the store and leave everything as it was. */
  lemma ServedFails(s: State, j: nat) returns (t: State)
    requires Grounded(s) && j in s.net.serving
    ensures Leads(s, t) && Grounded(t) && t.client == s.client && t.jar == s.jar
    ensures t.server == s.server.(storeUp := false) && t.net.sent == s.net.sent && t.net.serving == s.net.serving - {j}
    ensures t.net.answers == s.net.answers[j := Answer(500, None, None, false)]
  {
    var s1 := Next(s, StoreTurns(false));
    var step := Write(j, false, Completes);
    t := Next(s1, step);
    StepKeepsGrounded(s, StoreTurns(false));
    StepKeepsGrounded(s1, step);
    if CanReuse(t) {
      StepThenReuse(s1, step);
      StepThenReuse(s, StoreTurns(false));
    }
  }

  lemma FetchDrains(s: State) returns (t: State)
    requires Grounded(s) && s.client.queue != [] && Fetches(s.client, s.client.queue[0])
    ensures Leads(s, t) && Grounded(t) && Drained(s, t)
  {
    var id := RequestOf(s.client, s.client.queue[0]);
    if id in s.net.serving {
      var s1 := ServedFails(s, id);
      t := UnservedDrains(s1);
      FailureDrains(s, s1, t, id);
    } else {
      t := UnservedDrains(s);
    }
  }

  lemma UnservedDrains(s: State) returns (t: State)
    requires Grounded(s) && s.client.queue != [] && Fetches(s.client, s.client.queue[0])
    requires RequestOf(s.client, s.client.queue[0]) !in s.net.serving
    ensures Leads(s, t) && Grounded(t) && Drained(s, t)
  {
    var step := FetchEnds(s);
    t := Next(s, step);
    StepKeepsGrounded(s, step);
    if CanReuse(t) {
      StepThenReuse(s, step);
    }
  }

  /** Failing the holder's own rotation first loses nothing. */
  lemma FailureDrains(s: State, s1: State, t: State, id: nat)
    requires Grounded(s) && HeadFetches(s.client, id) && id in s.net.serving
    requires s1.client == s.client && s1.jar == s.jar && s1.server == s.server.(storeUp := false)
    requires s1.net.sent == s.net.sent && s1.net.serving == s.net.serving - {id}
    requires s1.net.answers == s.net.answers[id := Answer(500, None, None, false)]
    requires Drained(s1, t)
    ensures Drained(s, t)
  {
    assert !CookieComes(s) && !CookieComes(s1);
    assert forall j: nat | Armed(s.net, j) && !HeadFetches(s.client, j) :: Armed(s1.net, j);
  }

  lemma HeadDrains(s: State) returns (t: State)
    requires Grounded(s)
    ensures Leads(s, t) && Grounded(t) && Drained(s, t)
  {
    if NobodyHoldsOn(s.client) {
      t := s;
    } else if Fetches(s.client, s.client.queue[0]) {
      t := FetchDrains(s);
    } else {
      var tab := s.client.queue[0];
      assert InFlight(s.client, tab);
      var step := SignOutReturns(tab);
      t := Next(s, step);
      StepKeepsGrounded(s, step);
      NextHolds(s.client, s.client, tab, Expired);
      if CanReuse(t) {
        StepThenReuse(s, step);
      }
    }
  }

  lemma {:induction false} Above(numbers: set<nat>) returns (k: nat)
    ensures forall n | n in numbers :: n < k
  {
    if numbers == {} {
      k := 0;
    } else {
      var n :| n in numbers;
      var rest := Above(numbers - {n});
      k := if n < rest then rest else n + 1;
      assert numbers == (numbers - {n}) + {n};
    }
  }

  /** The lock holder sends what the jar has, once any token it heard is too old to reuse. */
  lemma HolderAsks(s: State)
    requires Grounded(s) && s.server.alive && s.client.queue != [] && Holds(s.client, s.client.queue[0], Queued)
    requires s.jar.sid && s.jar.refresh != Some(s.server.refresh)
    ensures CanReuse(s)
  {
    var tab := s.client.queue[0];
    var remote := s.client.tabs[tab].remote;
    var wait := Elapse(if remote.Some? then remote.value.at + REMOTE_TOKEN_FRESH_MS else 0);
    var s1 := Next(s, wait);
    assert OnLock(s1.client.tabs[tab], s1.client.now) == Send;
    var s2 := Next(s1, Grant(tab));
    StepKeepsGrounded(s, wait);
    StepKeepsGrounded(s1, Grant(tab));
    assert s2.net.sent[s.net.nextId] == s.jar;
    StaleRequestReuses(s2);
    StepThenReuse(s1, Grant(tab));
    StepThenReuse(s, wait);
  }

  lemma JarAsks(s: State)
    requires Grounded(s) && s.server.alive && NobodyHoldsOn(s.client) && s.client.tabs != []
    requires s.jar.sid && s.jar.refresh != Some(s.server.refresh)
    ensures CanReuse(s)
  {
    if s.client.queue == [] {
      var call := Above(s.client.calls.Keys);
      var step := Join(0, call, None);
      assert s.client.tabs[0].flight.None?;
      StepKeepsGrounded(s, step);
      HolderAsks(Next(s, step));
      StepThenReuse(s, step);
    } else {
      HolderAsks(s);
    }
  }

  lemma JarReuses(s: State)
    requires Grounded(s) && s.server.alive && JarAtRisk(s)
    ensures CanReuse(s)
  {
    var t := HeadDrains(s);
    if t.jar.refresh != Some(t.server.refresh) {
      JarAsks(t);
    } else if StaleRequest(t) {
      StaleRequestReuses(t);
    } else {
      var j: nat :| Armed(s.net, j) && !HeadFetches(s.client, j);
      var u := ArmedRotates(t, j);
      JarAsks(u);
    }
  }

  // ── The exact condition ─────────────────────────────────────

  lemma RiskReuses(s: State)
    requires Grounded(s) && s.server.alive && AtRisk(s)
    ensures CanReuse(s)
  {
    if StaleRequest(s) {
      StaleRequestReuses(s);
    } else if Crossing(s) {
      CrossingReuses(s);
    } else {
      JarReuses(s);
    }
  }

  lemma RiskDecides(s: State)
    requires Grounded(s) && s.server.alive
    ensures CanReuse(s) <==> AtRisk(s)
  {
    if AtRisk(s) {
      RiskReuses(s);
    } else if CanReuse(s) {
      var more :| IsRun(s, more) && NoTears(s, more) && FindsReuseIn(s, more);
      NoRiskNoReuse(s, more);
    }
  }

  lemma InitiallyGrounded(s: State)
    requires Initial(s)
    ensures Grounded(s) && !AtRisk(s)
  {
    InitiallySound(s);
  }

  /**
   In every reachable state with a live session, whatever was torn before: a tear-free
   continuation in which a refresh is taken for a reused token exists exactly when a stale
   request is on its way, or a request crosses another armed exchange, or a browser that still
   has its cookies would present a stale one or has left an armed exchange behind.
   */
  lemma ReuseExactly(s0: State, steps: seq<Step>)
    requires Initial(s0) && IsRun(s0, steps) && After(s0, steps).server.alive
    ensures CanReuse(After(s0, steps)) <==> AtRisk(After(s0, steps))
  {
    var s := After(s0, steps);
    InitiallyGrounded(s0);
    RunKeepsGrounded(s0, steps);
    RiskDecides(s);
  }

  // ── What each tear does ─────────────────────────────────────

  predicate Issued(s: State, refresh: Option<nat>) {
    refresh.Some? ==> refresh.value < s.server.issued
  }

  /** The jar's token was issued before any that is still on its way to it. */
  predicate TokensOrdered(s: State) {
    && Issued(s, s.jar.refresh)
    && (forall id | id in s.net.answers && s.net.answers[id].setRefresh.Some? ::
          Issued(s, s.net.answers[id].setRefresh) && s.net.answers[id].setRefresh != s.jar.refresh)
    && (forall i, j | i in s.net.answers && j in s.net.answers && i != j && s.net.answers[i].setRefresh.Some? ::
          s.net.answers[i].setRefresh != s.net.answers[j].setRefresh)
  }

  /** No answer is new and the jar is as before, or emptied. */
  lemma OrderFrame(s: State, s': State)
    requires TokensOrdered(s) && s'.server.issued == s.server.issued
    requires s'.jar.refresh == s.jar.refresh || s'.jar.refresh.None?
    requires forall id | id in s'.net.answers :: id in s.net.answers && s'.net.answers[id] == s.net.answers[id]
    ensures TokensOrdered(s')
  {
  }

  /** An answer without a cookie is added. */
  lemma OrderWithPlainAnswer(s: State, s': State, id: nat, a: Answer)
    requires TokensOrdered(s) && s'.server.issued == s.server.issued && s'.jar == s.jar
    requires s'.net.answers == s.net.answers[id := a] && a.setRefresh.None?
    ensures TokensOrdered(s')
  {
  }

  lemma WriteKeepsOrder(s: State, step: Step)
    requires TokensOrdered(s) && Enabled(s, step) && step.Write?
    ensures TokensOrdered(Next(s, step))
  {
    var s' := Next(s, step);
    var a := s'.net.answers[step.request];
    if a.setRefresh.None? {
      var plain := s.(server := s.server.(issued := s'.server.issued));
      OrderWithPlainAnswer(plain, s', step.request, a);
    } else {
      assert a.setRefresh == Some(s.server.issued) && s'.server.issued == s.server.issued + 1;
      assert s'.net.answers == s.net.answers[step.request := a];
    }
  }

  lemma DeliverKeepsOrder(s: State, tab: nat)
    requires TokensOrdered(s) && Enabled(s, Deliver(tab))
    ensures TokensOrdered(Next(s, Deliver(tab)))
  {
    var s' := Next(s, Deliver(tab));
    var id := RequestOf(s.client, tab);
    assert s'.net.answers == s.net.answers - {id} && s'.server == s.server;
    if s'.jar.refresh == s.jar.refresh || s'.jar.refresh.None? {
      OrderFrame(s, s');
    } else {
      assert s'.jar.refresh == s.net.answers[id].setRefresh;
    }
  }

  lemma ReadKeepsOrder(s: State, step: Step)
    requires Grounded(s) && TokensOrdered(s) && Enabled(s, step) && step.Read?
    ensures TokensOrdered(Next(s, step))
  {
    var s' := Next(s, step);
    if step.request in s'.net.answers {
      OrderWithPlainAnswer(s, s', step.request, s'.net.answers[step.request]);
    } else {
      OrderFrame(s, s');
    }
  }

  lemma StepKeepsOrder(s: State, step: Step)
    requires Grounded(s) && TokensOrdered(s) && Enabled(s, step)
    ensures TokensOrdered(Next(s, step))
  {
    var s' := Next(s, step);
    match step
    case Write(_, _, _) => WriteKeepsOrder(s, step);
    case Deliver(tab) => DeliverKeepsOrder(s, tab);
    case Read(_, _) => ReadKeepsOrder(s, step);
    case Intercept(id, _) => OrderWithPlainAnswer(s, s', id, s'.net.answers[id]);
    case _ =>
      if IsLogout(step) {
        LogoutKeepsExchange(s, step);
      }
      OrderFrame(s, s');
  }

  lemma {:induction false} RunKeepsOrder(s: State, steps: seq<Step>)
    requires Grounded(s) && TokensOrdered(s) && IsRun(s, steps)
    ensures TokensOrdered(After(s, steps))
    decreases |steps|
  {
    if steps != [] {
      StepKeepsGrounded(s, steps[0]);
      StepKeepsOrder(s, steps[0]);
      RunKeepsOrder(Next(s, steps[0]), steps[1..]);
    }
  }

  /** A state no tear has touched: one exchange at most, and no risk. */
  predicate Intact(s: State) {
    && Grounded(s) && TokensOrdered(s) && OneExchange(s) && CookiesInStep(s) && s.server.alive
  }

  lemma GiveUpRisks(s: State, tab: nat)
    requires Intact(s) && !AtRisk(s) && Enabled(s, GiveUp(tab)) && Tears(s, GiveUp(tab))
    ensures AtRisk(Next(s, GiveUp(tab))) <==> s.jar.sid
  {
    var s' := Next(s, GiveUp(tab));
    var id := RequestOf(s.client, tab);
    StepKeepsTabs(s, GiveUp(tab));
    NothingElse(s, id);
    NextHolds(s.client, s.client, tab, Unavailable);
    assert !CookieComes(s') && forall j: nat :: !HeadFetches(s'.client, j);
    assert forall j: nat :: Armed(s'.net, j) <==> Armed(s.net, j);
    assert forall j: nat :: Armed(s.net, j) ==> j == id;
    if s.jar.sid && id !in s.net.answers {
      assert Armed(s'.net, id);
    }
  }

  lemma WriteRisks(s: State, step: Step)
    requires Intact(s) && !AtRisk(s) && Enabled(s, step) && step.Write? && Tears(s, step)
    ensures AtRisk(Next(s, step)) <==> s.jar.sid
  {
    var s' := Next(s, step);
    NothingElse(s, step.request);
    assert s.net.sent == map[] && s'.net.answers.Keys == {step.request};
    assert s'.net.answers[step.request].setRefresh.None? && !CookieComes(s');
    assert forall j: nat :: !Armed(s'.net, j);
  }

  /** The first tear of a run makes a reuse possible exactly when the browser still has its cookies. */
  lemma FirstTearExactly(s0: State, steps: seq<Step>, step: Step)
    requires Initial(s0) && IsRun(s0, steps) && NoTears(s0, steps) && After(s0, steps).server.alive
    requires Enabled(After(s0, steps), step) && Tears(After(s0, steps), step)
    ensures CanReuse(Next(After(s0, steps), step)) <==> After(s0, steps).jar.sid
  {
    var s := After(s0, steps);
    TornFreeIsIntact(s0, steps);
    if step.GiveUp? {
      GiveUpRisks(s, step.tab);
    } else {
      WriteRisks(s, step);
    }
    StepKeepsGrounded(s, step);
    RiskDecides(Next(s, step));
  }

  lemma TornFreeIsIntact(s0: State, steps: seq<Step>)
    requires Initial(s0) && IsRun(s0, steps) && NoTears(s0, steps) && After(s0, steps).server.alive
    ensures Intact(After(s0, steps)) && !AtRisk(After(s0, steps))
  {
    InitiallyGrounded(s0);
    RunKeepsGrounded(s0, steps);
    RunKeepsOrder(s0, steps);
    NoRiskNoReuse(s0, steps);
    InitiallySound(s0);
    RunKeepsSound(s0, steps);
    HistoryOfRun(s0, steps);
  }

  /**
   A tear need not matter: a user who becomes inactive while a rotation is under way loses
   both cookies with its answer, and nothing stale is left to present.
   */
  lemma TornYetSafe(s0: State) returns (steps: seq<Step>)
    requires Initial(s0) && s0.client.tabs != [] && s0.server.storeUp && s0.server.userActive
    ensures IsRun(s0, steps) && After(s0, steps).seen.torn && After(s0, steps).server.alive
    ensures !CanReuse(After(s0, steps))
  {
    AskingReads(s0, 0);
    var t := After(s0, Asks(0, 0));
    var t1, t2, t3 := InactiveUserLeaves(s0, t);
    var rest := [UserTurns(false), Write(0, true, Completes), Deliver(0)];
    PathOfThree(t, t1, t2, t3, rest[0], rest[1], rest[2]);
    RunsCompose(s0, Asks(0, 0), rest);
    steps := Asks(0, 0) + rest;
    InitiallyGrounded(s0);
    RunKeepsGrounded(s0, steps);
    NothingLeft(t3);
  }

  lemma InactiveUserLeaves(s: State, t: State) returns (t1: State, t2: State, t3: State)
    requires Quiet(s) && s.net.nextId == 0 && s.jar.refresh == Some(s.server.refresh) && Asked(s, 0, t)
    ensures Enabled(t, UserTurns(false)) && t1 == Next(t, UserTurns(false))
    ensures Enabled(t1, Write(0, true, Completes)) && t2 == Next(t1, Write(0, true, Completes))
    ensures Enabled(t2, Deliver(0)) && t3 == Next(t2, Deliver(0))
    ensures t3.seen.torn && t3.server.alive && t3.net.sent == map[] && !t3.jar.sid
  {
    t1 := Next(t, UserTurns(false));
    t2 := Next(t1, Write(0, true, Completes));
    t3 := Next(t2, Deliver(0));
  }

  lemma NothingLeft(s: State)
    requires Grounded(s) && s.server.alive && s.net.sent == map[] && !s.jar.sid
    ensures !CanReuse(s)
  {
    RiskDecides(s);
  }

  /** With nothing under way, the next refresh is taken for reuse exactly when the jar is out of step. */
  lemma QuietRefreshExactly(s: State, call: nat)
    requires Quiet(s) && call !in s.client.calls && !s.seen.reused
    ensures IsRun(s, Asks(call, s.net.nextId))
    ensures After(s, Asks(call, s.net.nextId)).seen.reused <==> s.jar.refresh != Some(s.server.refresh)
  {
    AskingReads(s, call);
  }
}
