/**
 What every reachable state of the refresh protocol satisfies, in every interleaving:
 the lock's queue is sound, every waiting call has a flight, cookies stay in step unless
 an exchange was torn, and nobody is signed out of a live session unless the server
 slipped. The last two are about the network, the first two about the tabs alone.
 */
module RefreshInvariants {
  import opened Wrappers
  import opened AuthClient
  import opened AuthServer
  import opened RefreshProtocol

  // ── The lock ────────────────────────────────────────────────

  predicate InFlight(c: Client, tab: nat) {
    tab < |c.tabs| && c.tabs[tab].flight.Some?
  }

  /** Exactly the tabs with a flight are queued, once each, and only the head is past queueing. */
  predicate LockSound(c: Client) {
    && Shaped(c)
    && (forall i | 0 <= i < |c.queue| :: InFlight(c, c.queue[i]))
    && (forall i, j | 0 <= i < j < |c.queue| :: c.queue[i] != c.queue[j])
    && (forall t | 0 <= t < |c.tabs| :: c.tabs[t].flight.Some? ==> t in c.queue && c.tabs[t].open)
    && (forall i | 0 < i < |c.queue| :: c.tabs[c.queue[i]].flight.value.phase == Queued)
  }

  lemma SettleKeepsLock(c: Client, tab: nat, outcome: Outcome)
    requires LockSound(c) && c.queue != [] && c.queue[0] == tab
    ensures LockSound(Settle(c, tab, outcome))
  {
    var c' := Settle(c, tab, outcome);
    forall t | 0 <= t < |c'.tabs| && c'.tabs[t].flight.Some? ensures t in c'.queue {
      var i :| 0 <= i < |c.queue| && c.queue[i] == t;
      assert c'.queue[i - 1] == t;
    }
  }

  lemma AdvanceKeepsLock(c: Client, tab: nat, phase: Phase)
    requires LockSound(c) && c.queue != [] && c.queue[0] == tab
    ensures LockSound(Advance(c, tab, phase))
  {
  }

  lemma JoinKeepsLock(c: Client, tab: nat, call: nat, stale: Option<Token>)
    requires LockSound(c) && tab < |c.tabs|
    ensures LockSound(JoinFlight(c, tab, call, stale))
  {
    if c.tabs[tab].flight.None? {
      assert tab !in c.queue;
      var c' := JoinFlight(c, tab, call, stale);
      assert forall i | 0 <= i < |c.queue| :: c'.queue[i] == c.queue[i];
      assert c'.queue[|c.queue|] == tab;
      assert forall t | t in c.queue :: t in c'.queue;
    }
  }

  lemma ReactKeepsLock(c: Client, tab: nat, verdict: Verdict)
    requires LockSound(c) && Fetches(c, tab)
    ensures LockSound(React(c, tab, verdict))
  {
    match verdict
    case Minted(token) => SettleKeepsLock(Broadcast(c, tab, token), tab, Fresh(token));
    case Transient => SettleKeepsLock(c, tab, Unavailable);
    case Dead => AdvanceKeepsLock(c, tab, SigningOut);
  }

  // ── Calls and flights ───────────────────────────────────────

  predicate Awaited(c: Client, tab: nat) {
    exists k | k in c.calls :: c.calls[k] == Waiting(tab)
  }

  /** A call waits exactly where a flight is under way. */
  predicate CallsSound(c: Client) {
    && (forall k | k in c.calls && c.calls[k].Waiting? :: InFlight(c, c.calls[k].tab))
    && (forall t | 0 <= t < |c.tabs| && c.tabs[t].flight.Some? :: Awaited(c, t))
  }

  lemma SettleKeepsCalls(c: Client, tab: nat, outcome: Outcome)
    requires CallsSound(c) && c.queue != [] && tab < |c.tabs|
    ensures CallsSound(Settle(c, tab, outcome))
  {
    var c' := Settle(c, tab, outcome);
    forall t | 0 <= t < |c'.tabs| && c'.tabs[t].flight.Some? ensures Awaited(c', t) {
      assert Awaited(c, t);
      var k :| k in c.calls && c.calls[k] == Waiting(t);
      assert c'.calls[k] == Waiting(t);
    }
  }

  lemma JoinKeepsCalls(c: Client, tab: nat, call: nat, stale: Option<Token>)
    requires CallsSound(c) && tab < |c.tabs| && call !in c.calls
    ensures CallsSound(JoinFlight(c, tab, call, stale))
  {
    var c' := JoinFlight(c, tab, call, stale);
    forall t | 0 <= t < |c'.tabs| && c'.tabs[t].flight.Some? ensures Awaited(c', t) {
      if t == tab {
        assert c'.calls[call] == Waiting(t);
      } else {
        assert Awaited(c, t);
        var k :| k in c.calls && c.calls[k] == Waiting(t);
        assert c'.calls[k] == Waiting(t);
      }
    }
  }

  lemma SameCalls(c: Client, c': Client)
    requires CallsSound(c) && c'.calls == c.calls && |c'.tabs| == |c.tabs|
    requires forall t | 0 <= t < |c.tabs| :: c'.tabs[t].flight.Some? == c.tabs[t].flight.Some?
    ensures CallsSound(c')
  {
    assert forall t | Awaited(c, t) :: Awaited(c', t);
  }

  lemma ReactKeepsCalls(c: Client, tab: nat, verdict: Verdict)
    requires Shaped(c) && CallsSound(c) && Fetches(c, tab)
    ensures CallsSound(React(c, tab, verdict))
  {
    match verdict
    case Minted(token) =>
      SameCalls(c, Broadcast(c, tab, token));
      SettleKeepsCalls(Broadcast(c, tab, token), tab, Fresh(token));
    case Transient => SettleKeepsCalls(c, tab, Unavailable);
    case Dead => SameCalls(c, React(c, tab, verdict));
  }

  // ── Both, step by step ──────────────────────────────────────

  predicate TabsSound(c: Client) {
    LockSound(c) && CallsSound(c)
  }

  lemma SettleKeepsTabs(c: Client, tab: nat, outcome: Outcome)
    requires TabsSound(c) && c.queue != [] && c.queue[0] == tab
    ensures TabsSound(Settle(c, tab, outcome))
  {
    SettleKeepsLock(c, tab, outcome);
    SettleKeepsCalls(c, tab, outcome);
  }

  lemma ReactKeepsTabs(c: Client, tab: nat, verdict: Verdict)
    requires TabsSound(c) && Fetches(c, tab)
    ensures TabsSound(React(c, tab, verdict))
  {
    ReactKeepsLock(c, tab, verdict);
    ReactKeepsCalls(c, tab, verdict);
  }

  lemma JoinKeepsTabs(c: Client, tab: nat, call: nat, stale: Option<Token>)
    requires TabsSound(c) && tab < |c.tabs| && call !in c.calls
    ensures TabsSound(JoinFlight(c, tab, call, stale))
  {
    JoinKeepsLock(c, tab, call, stale);
    JoinKeepsCalls(c, tab, call, stale);
  }

  lemma GrantKeepsTabs(s: State, tab: nat)
    requires TabsSound(s.client) && Holds(s.client, tab, Queued)
    ensures TabsSound(AfterGrant(s, tab).client)
  {
    match OnLock(s.client.tabs[tab], s.client.now)
    case Reuse(token) => SettleKeepsTabs(s.client, tab, Fresh(token));
    case Send =>
      AdvanceKeepsLock(s.client, tab, Fetching(s.net.nextId));
      SameCalls(s.client, AfterGrant(s, tab).client);
  }

  /** Steps after which every flight, the queue and the calls are as before. */
  predicate SameFlights(c: Client, c': Client) {
    && Shaped(c') && |c'.tabs| == |c.tabs| && c'.queue == c.queue && c'.calls == c.calls
    && forall t | 0 <= t < |c.tabs| :: c'.tabs[t].flight == c.tabs[t].flight && (c.tabs[t].open ==> c'.tabs[t].open)
  }

  lemma SameFlightsSound(c: Client, c': Client)
    requires TabsSound(c) && SameFlights(c, c')
    ensures TabsSound(c')
  {
    SameCalls(c, c');
  }

  predicate MovesFlight(step: Step) {
    step.Join? || step.Grant? || step.Vanish? || step.GiveUp? || step.Deliver? || step.SignOutReturns?
  }

  lemma OthersKeepFlights(s: State, step: Step)
    requires Enabled(s, step) && !MovesFlight(step)
    ensures SameFlights(s.client, Next(s, step).client)
  {
  }

  lemma StepKeepsTabs(s: State, step: Step)
    requires TabsSound(s.client) && Enabled(s, step)
    ensures TabsSound(Next(s, step).client)
  {
    match step
    case Join(tab, call, stale) => JoinKeepsTabs(s.client, tab, call, stale);
    case Grant(tab) => GrantKeepsTabs(s, tab);
    case Vanish(tab) => SettleKeepsTabs(s.client, tab, Unavailable);
    case GiveUp(tab) => SettleKeepsTabs(s.client, tab, Unavailable);
    case Deliver(tab) =>
      var a := s.net.answers[RequestOf(s.client, tab)];
      ReactKeepsTabs(s.client, tab, Classify(Answered(a.status, a.token)));
    case SignOutReturns(tab) => SettleKeepsTabs(s.client, tab, Expired);
    case _ =>
      OthersKeepFlights(s, step);
      SameFlightsSound(s.client, Next(s, step).client);
  }

  // ── Identifiers ─────────────────────────────────────────────

  /** Every identifier in use was handed out, and a refresh exchange is in one place at a time. */
  predicate IdsSound(n: Net) {
    && (forall id | id in n.sent :: id < n.nextId && id !in n.serving && id !in n.answers)
    && (forall id | id in n.serving :: id < n.nextId && id !in n.answers)
    && (forall id | id in n.answers :: id < n.nextId)
    && (forall id | id in n.logoutAnswers :: n.logoutAnswers[id].setRefresh.None?)
  }

  lemma LogoutKeepsIds(s: State, step: Step)
    requires IdsSound(s.net) && Enabled(s, step) && IsLogout(step)
    ensures IdsSound(Next(s, step).net)
  {
  }

  lemma StepKeepsIds(s: State, step: Step)
    requires IdsSound(s.net) && Enabled(s, step)
    ensures IdsSound(Next(s, step).net)
  {
    if IsLogout(step) {
      LogoutKeepsIds(s, step);
    }
  }

  predicate IsLogout(step: Step) {
    step.LogoutStart? || step.LogoutServe? || step.LogoutDeliver? || step.LogoutLost?
  }

  // ── Cookies and refresh tokens ──────────────────────────────

  predicate HeadFetches(c: Client, id: nat) {
    c.queue != [] && Fetches(c, c.queue[0]) && RequestOf(c, c.queue[0]) == id
  }

  predicate InStep(server: Server, refresh: Option<nat>) {
    refresh.None? || refresh == Some(server.refresh)
  }

  predicate RotationPending(s: State) {
    exists id | id in s.net.answers :: s.net.answers[id].setRefresh == Some(s.server.refresh)
  }

  /** Everything on its way belongs to the lock holder, and no refresh is being revoked. */
  predicate OneExchange(s: State) {
    && (forall id | id in s.net.sent :: HeadFetches(s.client, id))
    && (forall id | id in s.net.serving :: HeadFetches(s.client, id) && s.net.serving[id] == Rotating)
    && (forall id | id in s.net.answers :: HeadFetches(s.client, id))
  }

  /**
   While the session lives, every cookie in the jar or on its way is the one the server
   accepts, or its replacement is on its way.
   */
  predicate CookiesInStep(s: State) {
    s.server.alive ==>
      && (forall id | id in s.net.sent :: InStep(s.server, s.net.sent[id].refresh))
      && (forall id | id in s.net.answers :: InStep(s.server, s.net.answers[id].setRefresh))
      && (InStep(s.server, s.jar.refresh) || RotationPending(s))
  }

  predicate SyncSound(s: State) {
    s.server.refresh < s.server.issued && (s.seen.torn || (OneExchange(s) && CookiesInStep(s) && !s.seen.reused))
  }

  /** With one exchange at a time, the lock holder's is the only one. */
  lemma NothingElse(s: State, id: nat)
    requires OneExchange(s) && HeadFetches(s.client, id)
    ensures s.net.sent.Keys <= {id} && s.net.serving.Keys <= {id} && s.net.answers.Keys <= {id}
  {
  }

  lemma NothingAtAll(s: State)
    requires OneExchange(s) && (s.client.queue == [] || !Fetches(s.client, s.client.queue[0]))
    ensures s.net.sent == map[] && s.net.serving == map[] && s.net.answers == map[]
  {
  }

  lemma SyncGrant(s: State, tab: nat)
    requires LockSound(s.client) && SyncSound(s) && !s.seen.torn && Enabled(s, Grant(tab))
    ensures SyncSound(Next(s, Grant(tab)))
  {
    NothingAtAll(s);
    assert !RotationPending(s);
  }

  lemma SyncServe(s: State, step: Step)
    requires IdsSound(s.net) && SyncSound(s) && !s.seen.torn && Enabled(s, step)
    requires step.Read? || step.Write? || step.Intercept?
    ensures SyncSound(Next(s, step))
  {
    NothingElse(s, step.request);
    var s' := Next(s, step);
    assert s.net.answers == map[];
    assert !RotationPending(s);
    if step.Write? {
      assert step.request in s'.net.answers;
    }
  }

  lemma SyncEnd(s: State, step: Step)
    requires IdsSound(s.net) && SyncSound(s) && !s.seen.torn && Enabled(s, step)
    requires step.Vanish? || step.GiveUp? || step.Deliver?
    ensures SyncSound(Next(s, step))
  {
    NothingElse(s, RequestOf(s.client, step.tab));
    var s' := Next(s, step);
    assert s'.net.serving == map[] || s'.seen.torn;
  }

  lemma SyncSignOut(s: State, tab: nat)
    requires SyncSound(s) && !s.seen.torn && Enabled(s, SignOutReturns(tab))
    ensures SyncSound(Next(s, SignOutReturns(tab)))
  {
    NothingAtAll(s);
    assert !RotationPending(s);
  }

  /** Steps outside the refresh exchange: they can only empty the jar and end the session. */
  predicate SameExchange(s: State, s': State) {
    && s'.net.sent == s.net.sent && s'.net.serving == s.net.serving && s'.net.answers == s.net.answers
    && s'.server.refresh == s.server.refresh && s'.server.issued == s.server.issued
    && (s'.server.alive ==> s.server.alive)
    && (s'.jar == s.jar || s'.jar.refresh.None?)
    && s'.seen.torn == s.seen.torn && s'.seen.reused == s.seen.reused
  }

  lemma AttemptKeepsExchange(s: State, tab: nat)
    requires Leaves(s.client, tab)
    ensures SameExchange(s, NextAttempt(s, tab)) && NextAttempt(s, tab).jar == s.jar
  {
  }

  lemma LogoutKeepsExchange(s: State, step: Step)
    requires IdsSound(s.net) && Enabled(s, step) && IsLogout(step)
    ensures SameExchange(s, Next(s, step))
  {
    match step
    case LogoutDeliver(tab) =>
      var id := LogoutOf(s.client, tab);
      var a := s.net.logoutAnswers[id];
      var s' := s.(net := s.net.(logoutAnswers := s.net.logoutAnswers - {id}), jar := Store(s.jar, a));
      assert SameExchange(s, s');
      if !EndsSession(false, a) {
        AttemptKeepsExchange(s', tab);
      }
    case LogoutLost(tab) => AttemptKeepsExchange(s, tab);
    case _ =>
  }

  lemma OthersKeepExchange(s: State, step: Step)
    requires Enabled(s, step) && !IsLogout(step)
    requires step.Join? || step.SignOutReturns? || !MovesFlight(step)
    requires !step.Read? && !step.Write? && !step.Intercept?
    ensures SameExchange(s, Next(s, step))
  {
  }

  lemma SyncFrame(s: State, s': State)
    requires SyncSound(s) && SameExchange(s, s')
    requires forall id: nat | HeadFetches(s.client, id) :: HeadFetches(s'.client, id)
    ensures SyncSound(s')
  {
    if RotationPending(s) {
      var id :| id in s.net.answers && s.net.answers[id].setRefresh == Some(s.server.refresh);
      assert id in s'.net.answers;
    }
  }

  lemma HeadStays(s: State, step: Step)
    requires LockSound(s.client) && Enabled(s, step) && (step.Join? || !MovesFlight(step))
    ensures forall id: nat | HeadFetches(s.client, id) :: HeadFetches(Next(s, step).client, id)
  {
    if !step.Join? {
      OthersKeepFlights(s, step);
    }
  }

  lemma StepKeepsSync(s: State, step: Step)
    requires LockSound(s.client) && IdsSound(s.net) && SyncSound(s) && Enabled(s, step)
    ensures SyncSound(Next(s, step))
  {
    if s.seen.torn {
      TornStays(s, step);
    } else {
      match step
      case Grant(tab) => SyncGrant(s, tab);
      case Read(_, _) => SyncServe(s, step);
      case Write(_, _, _) => SyncServe(s, step);
      case Intercept(_, _) => SyncServe(s, step);
      case Vanish(_) => SyncEnd(s, step);
      case GiveUp(_) => SyncEnd(s, step);
      case Deliver(_) => SyncEnd(s, step);
      case SignOutReturns(tab) => SyncSignOut(s, tab);
      case _ =>
        if IsLogout(step) {
          LogoutKeepsExchange(s, step);
        } else {
          OthersKeepExchange(s, step);
        }
        HeadStays(s, step);
        SyncFrame(s, Next(s, step));
    }
  }

  lemma TornStays(s: State, step: Step)
    requires Enabled(s, step) && s.server.refresh < s.server.issued
    ensures s.seen.torn ==> Next(s, step).seen.torn
    ensures Next(s, step).server.refresh < Next(s, step).server.issued
  {
  }

  // ── Leaving only dead sessions ──────────────────────────────

  predicate LeavesDeadOnly(s: State) {
    s.server.alive ==>
      && !s.signedOut
      && (forall id | id in s.net.answers :: !EndsSession(true, s.net.answers[id]))
      && (forall id | id in s.net.logoutAnswers :: !EndsSession(false, s.net.logoutAnswers[id]))
  }

  predicate SlipSound(s: State) {
    s.seen.slipped || LeavesDeadOnly(s)
  }

  lemma StepKeepsSlip(s: State, step: Step)
    requires SlipSound(s) && Enabled(s, step)
    ensures SlipSound(Next(s, step))
  {
  }

  // ── All together, over runs ─────────────────────────────────

  predicate Sound(s: State) {
    TabsSound(s.client) && IdsSound(s.net) && SyncSound(s) && SlipSound(s)
  }

  lemma InitiallySound(s: State)
    requires Initial(s)
    ensures Sound(s)
  {
  }

  lemma StepKeepsSound(s: State, step: Step)
    requires Sound(s) && Enabled(s, step)
    ensures Sound(Next(s, step))
  {
    StepKeepsTabs(s, step);
    StepKeepsIds(s, step);
    StepKeepsSync(s, step);
    StepKeepsSlip(s, step);
  }

  /** Every state a run reaches from a sound one is sound. */
  lemma {:induction false} RunKeepsSound(s: State, steps: seq<Step>)
    requires Sound(s) && IsRun(s, steps)
    ensures Sound(After(s, steps))
    decreases |steps|
  {
    if steps != [] {
      StepKeepsSound(s, steps[0]);
      RunKeepsSound(Next(s, steps[0]), steps[1..]);
    }
  }
}
