/**
 Who gets which token: every call that joined a flight gets the flight's one outcome, a
 token handed back was minted for this tab or heard moments ago, and a queue of tabs with
 the same stale token is served by a single rotation.
 */
module SharedRefresh {
  import opened Wrappers
  import opened AuthClient
  import opened RefreshProtocol
  import opened RefreshInvariants
  import opened RefreshTheorems

  // ── One outcome per flight ──────────────────────────────────

  predicate AllWait(c: Client, c': Client, tab: nat) {
    forall k | k in c.calls && c.calls[k] == Waiting(tab) :: k in c'.calls && c'.calls[k] == Waiting(tab)
  }

  predicate AllGet(c: Client, c': Client, tab: nat, outcome: Outcome) {
    forall k | k in c.calls && c.calls[k] == Waiting(tab) :: k in c'.calls && c'.calls[k] == Done(outcome)
  }

  predicate DoneStays(c: Client, c': Client) {
    forall k | k in c.calls && c.calls[k].Done? :: k in c'.calls && c'.calls[k] == c.calls[k]
  }

  /** Callers of a flight all go on waiting, or the slot empties and they all get one outcome. */
  ghost predicate SharedFate(c: Client, c': Client, tab: nat) {
    && DoneStays(c, c')
    && (InFlight(c', tab) ==> AllWait(c, c', tab))
    && (!InFlight(c', tab) ==> exists outcome :: AllGet(c, c', tab, outcome))
  }

  lemma SettleShares(c: Client, head: nat, outcome: Outcome, tab: nat)
    requires c.queue != [] && head < |c.tabs| && InFlight(c, tab)
    ensures SharedFate(c, Settle(c, head, outcome), tab)
  {
    var c' := Settle(c, head, outcome);
    if tab == head {
      assert AllGet(c, c', tab, outcome);
    }
  }

  lemma ReactShares(c: Client, head: nat, verdict: Verdict, tab: nat)
    requires Shaped(c) && Fetches(c, head) && InFlight(c, tab)
    ensures SharedFate(c, React(c, head, verdict), tab)
  {
    match verdict
    case Minted(token) =>
      SettleShares(Broadcast(c, head, token), head, Fresh(token), tab);
      assert tab == head ==> AllGet(c, React(c, head, verdict), tab, Fresh(token));
    case Transient => SettleShares(c, head, Unavailable, tab);
    case Dead =>
  }

  lemma OutcomeIsShared(s: State, step: Step, tab: nat)
    requires Enabled(s, step) && InFlight(s.client, tab)
    ensures SharedFate(s.client, Next(s, step).client, tab)
  {
    match step
    case Join(_, _, _) =>
    case Grant(head) =>
      match OnLock(s.client.tabs[head], s.client.now) {
        case Reuse(token) => SettleShares(s.client, head, Fresh(token), tab);
        case Send =>
      }
    case Vanish(head) => SettleShares(s.client, head, Unavailable, tab);
    case GiveUp(head) => SettleShares(s.client, head, Unavailable, tab);
    case Deliver(head) =>
      var a := s.net.answers[RequestOf(s.client, head)];
      ReactShares(s.client, head, Classify(Answered(a.status, a.token)), tab);
    case SignOutReturns(head) => SettleShares(s.client, head, Expired, tab);
    case _ => OthersKeepFlights(s, step);
  }

  // ── Where a token comes from ────────────────────────────────

  /** The answer to a request carries a new token. */
  predicate Mints(s: State, request: nat, token: Token) {
    request in s.net.answers && IsOk(s.net.answers[request].status) && s.net.answers[request].token == Some(token)
  }

  /** The answer being delivered minted it for this tab. */
  predicate MintedHere(s: State, step: Step, tab: nat, token: Token)
    requires Enabled(s, step)
  {
    step == Deliver(tab) && Mints(s, RequestOf(s.client, tab), token)
  }

  /** Another tab broadcast it less than ten seconds ago, and it is not the one that got the 401. */
  predicate HeardLately(s: State, step: Step, tab: nat, token: Token)
    requires Enabled(s, step)
  {
    && step == Grant(tab)
    && var t := s.client.tabs[tab];
       && t.remote.Some? && t.remote.value.token == token
       && s.client.now - t.remote.value.at < REMOTE_TOKEN_FRESH_MS
       && t.flight.value.stale != Some(token)
  }

  /** A call is handed a token only if it was minted here or heard lately. */
  lemma TokenProvenance(s: State, step: Step, call: nat, tab: nat, token: Token)
    requires Enabled(s, step) && call in s.client.calls && s.client.calls[call] == Waiting(tab)
    requires call in Next(s, step).client.calls && Next(s, step).client.calls[call] == Done(Fresh(token))
    ensures MintedHere(s, step, tab, token) || HeardLately(s, step, tab, token)
  {
    if !MovesFlight(step) {
      OthersKeepFlights(s, step);
    }
  }

  // ── One rotation serves the queue ───────────────────────────

  /** A queued tab that will reuse the token when the lock reaches it now. */
  predicate Ready(c: Client, tab: nat, token: Token) {
    && InFlight(c, tab) && c.tabs[tab].flight.value.phase.Queued?
    && c.tabs[tab].flight.value.stale != Some(token)
    && c.tabs[tab].remote.Some? && c.tabs[tab].remote.value.token == token
    && c.now - c.tabs[tab].remote.value.at < REMOTE_TOKEN_FRESH_MS
  }

  predicate AllReady(c: Client, tabs: seq<nat>, token: Token) {
    forall i | 0 <= i < |tabs| :: Ready(c, tabs[i], token)
  }

  function Grants(tabs: seq<nat>): seq<Step> {
    if tabs == [] then [] else [Grant(tabs[0])] + Grants(tabs[1..])
  }

  function Receives(tabs: seq<nat>): seq<Step> {
    if tabs == [] then [] else [Receive(tabs[0])] + Receives(tabs[1..])
  }

  /** Every call still waiting in c has the token in c'. */
  predicate AllServed(c: Client, c': Client, token: Token) {
    && c'.calls.Keys == c.calls.Keys
    && forall k | k in c.calls :: c'.calls[k] == if c.calls[k].Waiting? then Done(Fresh(token)) else c.calls[k]
  }

  lemma {:induction false} GrantsReuse(s: State, token: Token)
    requires TabsSound(s.client) && AllReady(s.client, s.client.queue, token)
    ensures IsRun(s, Grants(s.client.queue))
    ensures var t := After(s, Grants(s.client.queue));
            t.client.queue == [] && t == s.(client := t.client) && AllServed(s.client, t.client, token)
    decreases |s.client.queue|
  {
    var q := s.client.queue;
    if q == [] {
      forall k | k in s.client.calls ensures !s.client.calls[k].Waiting? {
      }
    } else {
      var s1 := Next(s, Grant(q[0]));
      assert s1 == s.(client := Settle(s.client, q[0], Fresh(token)));
      SettleKeepsTabs(s.client, q[0], Fresh(token));
      forall i | 0 <= i < |s1.client.queue| ensures Ready(s1.client, s1.client.queue[i], token) {
        assert s1.client.queue[i] == q[i + 1];
        assert Ready(s.client, q[i + 1], token);
      }
      GrantsReuse(s1, token);
      assert Grants(q)[1..] == Grants(q[1..]);
    }
  }

  /** The broadcast has reached the inbox of every tab of the list, which held nothing else. */
  predicate Posted(c: Client, tabs: seq<nat>, token: Token) {
    && Shaped(c)
    && (forall i | 0 <= i < |tabs| :: InFlight(c, tabs[i]) && c.inbox[tabs[i]] == [token])
    && (forall i, j | 0 <= i < j < |tabs| :: tabs[i] != tabs[j])
  }

  predicate HearsIt(c: Client, c': Client, tab: nat, token: Token)
    requires tab < |c.tabs| == |c'.tabs|
  {
    c'.tabs[tab] == Hears(c.tabs[tab], token, c.now)
  }

  /** Only what the tabs have heard changes: those of the list heard the token, the others nothing. */
  predicate HasHeard(s: State, t: State, tabs: seq<nat>, token: Token) {
    && Shaped(t.client) && |t.client.tabs| == |s.client.tabs|
    && t == s.(client := s.client.(tabs := t.client.tabs, inbox := t.client.inbox))
    && (forall i | 0 <= i < |tabs| :: tabs[i] < |s.client.tabs| && HearsIt(s.client, t.client, tabs[i], token))
    && (forall tab | 0 <= tab < |s.client.tabs| && tab !in tabs :: t.client.tabs[tab] == s.client.tabs[tab])
  }

  lemma FirstHears(s: State, tabs: seq<nat>, token: Token)
    requires Posted(s.client, tabs, token) && tabs != []
    ensures Enabled(s, Receive(tabs[0]))
    ensures HasHeard(s, Next(s, Receive(tabs[0])), [tabs[0]], token)
    ensures Posted(Next(s, Receive(tabs[0])).client, tabs[1..], token)
  {
    var s1 := Next(s, Receive(tabs[0]));
    forall i | 0 <= i < |tabs[1..]|
      ensures InFlight(s1.client, tabs[1..][i]) && s1.client.inbox[tabs[1..][i]] == [token]
    {
      assert tabs[1..][i] == tabs[i + 1] != tabs[0];
    }
  }

  lemma HeardInTurn(s: State, s1: State, t: State, tabs: seq<nat>, token: Token)
    requires tabs != [] && tabs[0] !in tabs[1..]
    requires HasHeard(s, s1, [tabs[0]], token) && HasHeard(s1, t, tabs[1..], token)
    ensures HasHeard(s, t, tabs, token)
  {
    assert [tabs[0]][0] == tabs[0];
    forall i | 0 <= i < |tabs| ensures tabs[i] < |s.client.tabs| && HearsIt(s.client, t.client, tabs[i], token) {
      if i == 0 {
        assert t.client.tabs[tabs[0]] == s1.client.tabs[tabs[0]];
      } else {
        assert tabs[i] == tabs[1..][i - 1];
        assert HearsIt(s1.client, t.client, tabs[1..][i - 1], token);
        assert tabs[i] !in [tabs[0]];
      }
    }
  }

  lemma {:induction false} ReceivesHear(s: State, tabs: seq<nat>, token: Token)
    requires Posted(s.client, tabs, token)
    ensures IsRun(s, Receives(tabs)) && HasHeard(s, After(s, Receives(tabs)), tabs, token)
    decreases |tabs|
  {
    if tabs != [] {
      FirstHears(s, tabs, token);
      var s1 := Next(s, Receive(tabs[0]));
      ReceivesHear(s1, tabs[1..], token);
      assert Receives(tabs)[1..] == Receives(tabs[1..]);
      HeardInTurn(s, s1, After(s1, Receives(tabs[1..])), tabs, token);
    }
  }

  /** The lock holder's answer is in, with a new token. */
  predicate RotationArrived(s: State, token: Token) {
    && Sound(s) && s.client.queue != [] && Fetches(s.client, s.client.queue[0])
    && Mints(s, RequestOf(s.client, s.client.queue[0]), token)
  }

  /** The turns the lock gives, in order. */
  function Turns(steps: seq<Step>): seq<nat> {
    if steps == [] then []
    else if steps[0].Grant? then [steps[0].tab] + Turns(steps[1..])
    else Turns(steps[1..])
  }

  /** How many of them send a refresh request. */
  function Requests(s: State, steps: seq<Step>): nat
    requires IsRun(s, steps)
    decreases |steps|
  {
    if steps == [] then 0
    else (if SendsRequest(s, steps[0]) then 1 else 0) + Requests(Next(s, steps[0]), steps[1..])
  }

  predicate SendsRequest(s: State, step: Step)
    requires Enabled(s, step)
  {
    step.Grant? && OnLock(s.client.tabs[step.tab], s.client.now) == Send
  }

  /** When its turn comes, each tab of the list has heard the token lately, and it is not the tab's stale one. */
  predicate ReadyAtTurn(s: State, waiting: seq<nat>, steps: seq<Step>, token: Token)
    requires IsRun(s, steps)
    decreases |steps|
  {
    if steps == [] then true
    else if waiting != [] && steps[0] == Grant(waiting[0]) then
      Ready(s.client, waiting[0], token) && ReadyAtTurn(Next(s, steps[0]), waiting[1..], steps[1..], token)
    else ReadyAtTurn(Next(s, steps[0]), waiting, steps[1..], token)
  }

  /** The list leads the lock's queue, and all of it still has to have its turn. */
  predicate InLine(c: Client, waiting: seq<nat>) {
    && waiting <= c.queue
    && forall i | 0 <= i < |waiting| :: InFlight(c, waiting[i]) && c.tabs[waiting[i]].flight.value.phase == Queued
  }

  /** The call has the token, or goes on waiting for a tab of the list. */
  predicate Provided(c: Client, k: nat, tab: nat, waiting: seq<nat>, token: Token) {
    k in c.calls && (c.calls[k] == Done(Fresh(token)) || (c.calls[k] == Waiting(tab) && tab in waiting))
  }

  /** Every call that waited in c0. */
  predicate AllProvided(c0: Client, c: Client, waiting: seq<nat>, token: Token) {
    forall k | k in c0.calls && c0.calls[k].Waiting? :: Provided(c, k, c0.calls[k].tab, waiting, token)
  }

  /** The first of the line has its turn and reuses the token. */
  lemma FirstIsServed(s: State, c0: Client, waiting: seq<nat>, token: Token)
    requires TabsSound(s.client) && waiting != [] && InLine(s.client, waiting)
    requires AllProvided(c0, s.client, waiting, token)
    requires Enabled(s, Grant(waiting[0])) && Ready(s.client, waiting[0], token)
    ensures var s' := Next(s, Grant(waiting[0]));
            && !SendsRequest(s, Grant(waiting[0])) && s'.net == s.net
            && InLine(s'.client, waiting[1..]) && AllProvided(c0, s'.client, waiting[1..], token)
  {
    var tab := waiting[0];
    var s' := Next(s, Grant(tab));
    assert s'.client == Settle(s.client, tab, Fresh(token));
    forall i | 0 <= i < |waiting[1..]|
      ensures InFlight(s'.client, waiting[1..][i]) && s'.client.tabs[waiting[1..][i]].flight.value.phase == Queued
    {
      assert waiting[i + 1] == s.client.queue[i + 1] != s.client.queue[0];
    }
    forall k | k in c0.calls && c0.calls[k].Waiting?
      ensures Provided(s'.client, k, c0.calls[k].tab, waiting[1..], token)
    {
      assert Provided(s.client, k, c0.calls[k].tab, waiting, token);
    }
  }

  /** Any other step leaves the line and its calls alone. */
  lemma LineStays(s: State, step: Step, c0: Client, waiting: seq<nat>, token: Token)
    requires TabsSound(s.client) && InLine(s.client, waiting) && AllProvided(c0, s.client, waiting, token)
    requires Enabled(s, step) && (waiting != [] ==> !step.Grant?)
    ensures InLine(Next(s, step).client, waiting) && AllProvided(c0, Next(s, step).client, waiting, token)
  {
    var c' := Next(s, step).client;
    if waiting == [] {
      DoneIsKept(s, step);
      forall k | k in c0.calls && c0.calls[k].Waiting? ensures Provided(c', k, c0.calls[k].tab, waiting, token) {
        assert Provided(s.client, k, c0.calls[k].tab, waiting, token);
      }
    } else {
      assert InFlight(s.client, waiting[0]) && s.client.queue[0] == waiting[0];
      if !step.Join? {
        assert !MovesFlight(step);
        OthersKeepFlights(s, step);
      }
      assert forall i | 0 <= i < |waiting| :: c'.tabs[waiting[i]].flight == s.client.tabs[waiting[i]].flight;
      forall k | k in c0.calls && c0.calls[k].Waiting? ensures Provided(c', k, c0.calls[k].tab, waiting, token) {
        assert Provided(s.client, k, c0.calls[k].tab, waiting, token);
      }
    }
  }

  lemma DoneIsKept(s: State, step: Step)
    requires Enabled(s, step)
    ensures DoneStays(s.client, Next(s, step).client)
  {
    if !MovesFlight(step) {
      OthersKeepFlights(s, step);
    }
  }

  /** What is left of a line after some turns. */
  function LeftOf(waiting: seq<nat>, turns: seq<nat>): seq<nat> {
    if |turns| >= |waiting| then [] else waiting[|turns|..]
  }

  lemma {:induction false} LineServed(s: State, c0: Client, waiting: seq<nat>, steps: seq<Step>, token: Token)
    requires TabsSound(s.client) && InLine(s.client, waiting) && AllProvided(c0, s.client, waiting, token)
    requires IsRun(s, steps) && ReadyAtTurn(s, waiting, steps, token)
    ensures Turns(steps) <= waiting || waiting <= Turns(steps)
    ensures Requests(s, steps) <= (if |Turns(steps)| <= |waiting| then 0 else |Turns(steps)| - |waiting|)
    ensures AllProvided(c0, After(s, steps).client, LeftOf(waiting, Turns(steps)), token)
    decreases |steps|
  {
    if steps == [] {
      assert LeftOf(waiting, []) == waiting;
    } else {
      var s', rest := Next(s, steps[0]), steps[1..];
      StepKeepsTabs(s, steps[0]);
      if waiting != [] && steps[0].Grant? {
        assert steps[0] == Grant(waiting[0]);
        FirstIsServed(s, c0, waiting, token);
        LineServed(s', c0, waiting[1..], rest, token);
        TurnTaken(waiting, Turns(rest));
      } else {
        LineStays(s, steps[0], c0, waiting, token);
        LineServed(s', c0, waiting, rest, token);
        if steps[0].Grant? {
          assert waiting == [] && [] <= Turns(steps);
        }
      }
    }
  }

  lemma TurnTaken(waiting: seq<nat>, turns: seq<nat>)
    requires waiting != [] && (turns <= waiting[1..] || waiting[1..] <= turns)
    ensures [waiting[0]] + turns <= waiting || waiting <= [waiting[0]] + turns
    ensures LeftOf(waiting, [waiting[0]] + turns) == LeftOf(waiting[1..], turns)
  {
    assert waiting == [waiting[0]] + waiting[1..];
  }

  /**
   k tabs queued on stale tokens rotate once. Take any run that starts with the delivery of
   the holder's answer, however the broadcasts, other tabs, logouts and the clock interleave:
   if each queued tab has heard the token under ten seconds before its turn, the turns are
   taken in queue order, those of the queue send nothing, and every call that waited at the
   start has the one new token as soon as its tab has had its turn.
   */
  lemma OneRotationServesTheQueue(s: State, token: Token, steps: seq<Step>)
    requires RotationArrived(s, token)
    requires var s1 := Next(s, Deliver(s.client.queue[0]));
             IsRun(s1, steps) && ReadyAtTurn(s1, s.client.queue[1..], steps, token)
    ensures var rest := s.client.queue[1..];
            var s1 := Next(s, Deliver(s.client.queue[0]));
            && (Turns(steps) <= rest || rest <= Turns(steps))
            && Requests(s1, steps) <= (if |Turns(steps)| <= |rest| then 0 else |Turns(steps)| - |rest|)
            && AllProvided(s.client, After(s1, steps).client, LeftOf(rest, Turns(steps)), token)
  {
    var s1 := Next(s, Deliver(s.client.queue[0]));
    StepKeepsTabs(s, Deliver(s.client.queue[0]));
    DeliveryFormsLine(s, token);
    LineServed(s1, s.client, s.client.queue[1..], steps, token);
  }

  lemma DeliveryFormsLine(s: State, token: Token)
    requires RotationArrived(s, token)
    ensures var c1 := Next(s, Deliver(s.client.queue[0])).client;
            InLine(c1, s.client.queue[1..]) && AllProvided(s.client, c1, s.client.queue[1..], token)
  {
    var q := s.client.queue;
    var c1 := Next(s, Deliver(q[0])).client;
    assert c1 == Settle(Broadcast(s.client, q[0], token), q[0], Fresh(token));
    forall i | 0 <= i < |q[1..]| ensures InFlight(c1, q[1..][i]) && c1.tabs[q[1..][i]].flight.value.phase == Queued {
      assert q[i + 1] != q[0] && InFlight(s.client, q[i + 1]);
    }
    forall k | k in s.client.calls && s.client.calls[k].Waiting?
      ensures Provided(c1, k, s.client.calls[k].tab, q[1..], token)
    {
      var tab := s.client.calls[k].tab;
      assert InFlight(s.client, tab);
      if tab != q[0] {
        assert tab in q;
        var i :| 0 <= i < |q| && q[i] == tab;
        assert q[1..][i - 1] == tab;
      }
    }
  }

  // ── One schedule that meets the condition ───────────────────

  /** Every other queued tab's stale token differs from the new one, and no broadcast is on its way to it. */
  predicate Undisturbed(c: Client, token: Token) {
    forall i | 0 < i < |c.queue| ::
      && InFlight(c, c.queue[i]) && c.tabs[c.queue[i]].flight.value.stale != Some(token)
      && c.queue[i] < |c.inbox| && c.inbox[c.queue[i]] == []
  }

  lemma FourPhases(s: State, a: seq<Step>, b: seq<Step>, c: seq<Step>, d: seq<Step>)
    requires IsRun(s, a) && IsRun(After(s, a), b) && IsRun(After(After(s, a), b), c)
    requires IsRun(After(After(After(s, a), b), c), d)
    ensures IsRun(s, a + b + c + d) && After(s, a + b + c + d) == After(After(After(After(s, a), b), c), d)
  {
    RunsCompose(s, a, b);
    RunsCompose(s, a + b, c);
    RunsCompose(s, a + b + c, d);
  }

  lemma OneStep(s: State, step: Step)
    requires Enabled(s, step)
    ensures IsRun(s, [step]) && After(s, [step]) == Next(s, step)
  {
    PathIsRun([s, Next(s, step)], [step]);
  }

  /** Deliver, let every queued tab hear it, wait less than ten seconds, and give the turns. */
  lemma PromptScheduleServes(s: State, token: Token, ms: nat) returns (steps: seq<Step>)
    requires RotationArrived(s, token) && Undisturbed(s.client, token) && ms < REMOTE_TOKEN_FRESH_MS
    ensures var q := s.client.queue;
            steps == [Deliver(q[0])] + Receives(q[1..]) + [Elapse(ms)] + Grants(q[1..])
    ensures IsRun(s, steps)
    ensures var t := After(s, steps);
            && t.client.queue == [] && t.server == s.server
            && t.net.sent == s.net.sent && t.net.serving == s.net.serving && t.net.nextId == s.net.nextId
            && AllServed(s.client, t.client, token)
  {
    var q := s.client.queue;
    var rest := q[1..];
    var s1, s2 := TokenSpreads(s, token);
    var s3 := Next(s2, Elapse(ms));
    QueueIsReady(s1, s2, rest, token, ms);
    GrantsReuse(s3, token);
    ServedThroughout(s.client, s1.client, After(s3, Grants(rest)).client, q[0], token);
    OneStep(s, Deliver(q[0]));
    OneStep(s2, Elapse(ms));
    FourPhases(s, [Deliver(q[0])], Receives(rest), [Elapse(ms)], Grants(rest));
    steps := [Deliver(q[0])] + Receives(rest) + [Elapse(ms)] + Grants(rest);
  }

  /** What delivering the answer does. */
  lemma DeliveryPosts(s: State, token: Token)
    requires RotationArrived(s, token) && Undisturbed(s.client, token)
    ensures var q := s.client.queue;
            var s1 := Next(s, Deliver(q[0]));
            && s1.client == Settle(Broadcast(s.client, q[0], token), q[0], Fresh(token))
            && s1.server == s.server && s1.net == s.net.(answers := s1.net.answers)
            && TabsSound(s1.client) && s1.client.queue == q[1..] && Posted(s1.client, q[1..], token)
            && forall i | 0 <= i < |q[1..]| :: Waits(s1.client, q[1..][i], token)
  {
    var q := s.client.queue;
    var rest := q[1..];
    var s1 := Next(s, Deliver(q[0]));
    StepKeepsTabs(s, Deliver(q[0]));
    forall i | 0 <= i < |rest|
      ensures InFlight(s1.client, rest[i]) && s1.client.inbox[rest[i]] == [token] && Waits(s1.client, rest[i], token)
    {
      assert rest[i] == q[i + 1] != q[0];
      assert s.client.inbox[rest[i]] + [token] == [token];
    }
  }

  /** Delivery settles the holder and posts the token; receiving it readies the others. */
  lemma TokenSpreads(s: State, token: Token) returns (s1: State, s2: State)
    requires RotationArrived(s, token) && Undisturbed(s.client, token)
    ensures var q := s.client.queue;
            && s1 == Next(s, Deliver(q[0]))
            && s1.client == Settle(Broadcast(s.client, q[0], token), q[0], Fresh(token))
            && s1.server == s.server && s1.net == s.net.(answers := s1.net.answers)
            && IsRun(s1, Receives(q[1..])) && s2 == After(s1, Receives(q[1..]))
            && Spread(s1, s2, q[1..], token)
  {
    var q := s.client.queue;
    s1 := Next(s, Deliver(q[0]));
    DeliveryPosts(s, token);
    ReceivesHear(s1, q[1..], token);
    s2 := After(s1, Receives(q[1..]));
  }

  predicate Spread(s1: State, s2: State, rest: seq<nat>, token: Token) {
    && TabsSound(s1.client) && s1.client.queue == rest
    && (forall i | 0 <= i < |rest| :: Waits(s1.client, rest[i], token))
    && HasHeard(s1, s2, rest, token)
  }

  predicate Waits(c: Client, tab: nat, token: Token) {
    InFlight(c, tab) && c.tabs[tab].flight.value.phase.Queued? && c.tabs[tab].flight.value.stale != Some(token)
  }

  lemma QueueIsReady(s1: State, s2: State, rest: seq<nat>, token: Token, ms: nat)
    requires Spread(s1, s2, rest, token) && ms < REMOTE_TOKEN_FRESH_MS
    ensures var s3 := Next(s2, Elapse(ms)); TabsSound(s3.client) && AllReady(s3.client, rest, token)
  {
    var s3 := Next(s2, Elapse(ms));
    forall tab | 0 <= tab < |s1.client.tabs|
      ensures s3.client.tabs[tab].flight == s1.client.tabs[tab].flight
      ensures s3.client.tabs[tab].open == s1.client.tabs[tab].open
    {
      if tab in rest {
        var i :| 0 <= i < |rest| && rest[i] == tab;
        assert HearsIt(s1.client, s2.client, rest[i], token);
      }
    }
    SameFlightsSound(s1.client, s3.client);
    forall i | 0 <= i < |rest| ensures Ready(s3.client, rest[i], token) {
      assert Waits(s1.client, rest[i], token);
      assert HearsIt(s1.client, s2.client, rest[i], token);
    }
  }

  lemma ServedThroughout(c: Client, c1: Client, c4: Client, head: nat, token: Token)
    requires Shaped(c) && head < |c.tabs| && c.queue != []
    requires c1 == Settle(Broadcast(c, head, token), head, Fresh(token))
    requires AllServed(c1, c4, token)
    ensures AllServed(c, c4, token)
  {
  }
}
