/**
 What the refresh and logout protocol promises over whole runs, and exactly what can
 break each promise.
 */
module RefreshTheorems {
  import opened Wrappers
  import opened AuthClient
  import opened AuthServer
  import opened RefreshProtocol
  import opened RefreshInvariants

  // ── One refresh at a time ───────────────────────────────────

  predicate Busy(c: Client, tab: nat) {
    tab < |c.tabs| && c.tabs[tab].flight.Some? && !c.tabs[tab].flight.value.phase.Queued?
  }

  /**
   In every interleaving at most one tab of the browser waits for a refresh answer (or
   signs out), the one holding the lock; and unless an exchange was torn, at most one
   refresh request exists anywhere between the browser and the server's answer.
   */
  lemma OneRefreshAtATime(s0: State, steps: seq<Step>)
    requires Initial(s0) && IsRun(s0, steps)
    ensures var s := After(s0, steps);
            && (forall a, b | Busy(s.client, a) && Busy(s.client, b) ::
                  a == b && s.client.queue != [] && s.client.queue[0] == a)
            && (!s.seen.torn ==> |s.net.sent.Keys + s.net.serving.Keys + s.net.answers.Keys| <= 1)
  {
    InitiallySound(s0);
    RunKeepsSound(s0, steps);
    var s := After(s0, steps);
    if !s.seen.torn {
      var all := s.net.sent.Keys + s.net.serving.Keys + s.net.answers.Keys;
      if s.client.queue != [] && Fetches(s.client, s.client.queue[0]) {
        var id := RequestOf(s.client, s.client.queue[0]);
        NothingElse(s, id);
        assert all <= {id};
        assert all == {} || all == {id};
      } else {
        NothingAtAll(s);
        assert all == {};
      }
    }
  }

  // ── What goes wrong, exactly ────────────────────────────────

  /** A step after which a request or a rotation's cookie is loose. */
  predicate Tears(s: State, step: Step)
    requires Enabled(s, step)
  {
    match step
    case GiveUp(tab) => !Harmless(s.net, RequestOf(s.client, tab))
    case Write(id, _, ending) =>
      s.net.serving[id].Rotating? && s.server.storeUp && (ending.Crashes? || !s.server.userActive)
    case _ => false
  }

  /** A step in which a client is told to leave a live session, or a dead one is written back. */
  predicate Slips(s: State, step: Step)
    requires Enabled(s, step)
  {
    match step
    case Read(id, _) => s.server.alive && (!s.net.sent[id].sid || s.net.sent[id].refresh.None?)
    case Write(id, _, ending) =>
      s.net.serving[id].Rotating? && s.server.storeUp && (!s.server.alive || (!s.server.userActive && !ending.Crashes?))
    case Intercept(_, status) => s.server.alive && (status == 401 || status == 403)
    case LogoutServe(id, crashes) => s.server.alive && !crashes && !(s.net.logoutSent[id] && s.server.storeUp)
    case _ => false
  }

  /** A step in which the server takes a refresh for a reused token. */
  predicate FindsReuse(s: State, step: Step)
    requires Enabled(s, step)
  {
    step.Read? && ReadSession(s.server, s.net.sent[step.request], step.headers) == Continues(Revoking)
  }

  lemma HistoryIsExact(s: State, step: Step)
    requires Enabled(s, step) && s.server.refresh < s.server.issued
    ensures Next(s, step).seen.torn <==> s.seen.torn || Tears(s, step)
    ensures Next(s, step).seen.slipped <==> s.seen.slipped || Slips(s, step)
    ensures Next(s, step).seen.reused <==> s.seen.reused || FindsReuse(s, step)
  {
  }

  predicate NoTears(s: State, steps: seq<Step>)
    requires IsRun(s, steps)
    decreases |steps|
  {
    steps == [] || (!Tears(s, steps[0]) && NoTears(Next(s, steps[0]), steps[1..]))
  }

  predicate NoSlips(s: State, steps: seq<Step>)
    requires IsRun(s, steps)
    decreases |steps|
  {
    steps == [] || (!Slips(s, steps[0]) && NoSlips(Next(s, steps[0]), steps[1..]))
  }

  lemma {:induction false} HistoryOfRun(s: State, steps: seq<Step>)
    requires Sound(s) && IsRun(s, steps)
    ensures After(s, steps).seen.torn <==> s.seen.torn || !NoTears(s, steps)
    ensures After(s, steps).seen.slipped <==> s.seen.slipped || !NoSlips(s, steps)
    decreases |steps|
  {
    if steps != [] {
      HistoryIsExact(s, steps[0]);
      StepKeepsSound(s, steps[0]);
      HistoryOfRun(Next(s, steps[0]), steps[1..]);
    }
  }

  // ── The strict reuse check ──────────────────────────────────

  /**
   The reuse check never fires on a run without torn exchanges: whatever the interleaving,
   every refresh a live session reads carries the token it accepts.
   */
  lemma ReuseNeedsATear(s0: State, steps: seq<Step>)
    requires Initial(s0) && IsRun(s0, steps) && NoTears(s0, steps)
    ensures var s := After(s0, steps);
            && !s.seen.reused
            && forall id, headers | id in s.net.sent ::
                 ReadSession(s.server, s.net.sent[id], headers) != Continues(Revoking)
  {
    InitiallySound(s0);
    RunKeepsSound(s0, steps);
    HistoryOfRun(s0, steps);
  }

  // ── Nobody leaves a live session ────────────────────────────

  /** The client has left, or an answer that makes it leave is on its way. */
  predicate Exposed(s: State) {
    || s.signedOut
    || (exists id | id in s.net.answers :: EndsSession(true, s.net.answers[id]))
    || (exists id | id in s.net.logoutAnswers :: EndsSession(false, s.net.logoutAnswers[id]))
  }

  /** The write of a rotation that is not itself answered 401. */
  predicate OnlyWritesBack(s: State, step: Step) {
    step.Write? && (s.server.userActive || step.ending.Crashes?)
  }

  /** A slip that leaves somebody outside a live session: writing a dead one back does only if somebody has left. */
  predicate Strands(s: State, step: Step)
    requires Enabled(s, step)
  {
    Slips(s, step) && (OnlyWritesBack(s, step) ==> Exposed(s))
  }

  lemma WriteStrands(s: State, step: Step)
    requires Enabled(s, step) && IdsSound(s.net) && LeavesDeadOnly(s) && step.Write?
    ensures LeavesDeadOnly(Next(s, step)) <==> !Strands(s, step)
  {
    var s' := Next(s, step);
    assert forall id | id in s.net.answers :: id in s'.net.answers && s'.net.answers[id] == s.net.answers[id];
    assert step.request in s'.net.answers;
  }

  /** Exactly the stranding steps let a live session coexist with a client that left or is told to. */
  lemma StrandsExactly(s: State, step: Step)
    requires Enabled(s, step) && IdsSound(s.net) && LeavesDeadOnly(s)
    ensures LeavesDeadOnly(Next(s, step)) <==> !Strands(s, step)
  {
    match step
    case Write(_, _, _) => WriteStrands(s, step);
    case Read(id, _) => ReadStrands(s, step);
    case Intercept(id, _) => assert id in Next(s, step).net.answers;
    case LogoutServe(id, _) => assert id in Next(s, step).net.logoutAnswers;
    case _ =>
  }

  lemma ReadStrands(s: State, step: Step)
    requires Enabled(s, step) && LeavesDeadOnly(s) && step.Read?
    ensures LeavesDeadOnly(Next(s, step)) <==> !Strands(s, step)
  {
    if Slips(s, step) {
      assert step.request in Next(s, step).net.answers;
    }
  }

  predicate NoStrands(s: State, steps: seq<Step>)
    requires IsRun(s, steps)
    decreases |steps|
  {
    steps == [] || (!Strands(s, steps[0]) && NoStrands(Next(s, steps[0]), steps[1..]))
  }

  /** In every state of the run nobody has left, or is told to leave, a live session. */
  predicate NeverStranded(s: State, steps: seq<Step>)
    requires IsRun(s, steps)
    decreases |steps|
  {
    LeavesDeadOnly(s) && (steps == [] || NeverStranded(Next(s, steps[0]), steps[1..]))
  }

  /** A run keeps that promise throughout exactly when none of its steps strands anybody. */
  lemma {:induction false} StrandedExactly(s: State, steps: seq<Step>)
    requires IdsSound(s.net) && LeavesDeadOnly(s) && IsRun(s, steps)
    ensures NeverStranded(s, steps) <==> NoStrands(s, steps)
    decreases |steps|
  {
    if steps != [] {
      StepKeepsIds(s, steps[0]);
      StrandsExactly(s, steps[0]);
      if !Strands(s, steps[0]) {
        StrandedExactly(Next(s, steps[0]), steps[1..]);
      }
    }
  }

  lemma {:induction false} EndOfNeverStranded(s: State, steps: seq<Step>)
    requires IsRun(s, steps) && NeverStranded(s, steps)
    ensures LeavesDeadOnly(After(s, steps))
    decreases |steps|
  {
    if steps != [] {
      EndOfNeverStranded(Next(s, steps[0]), steps[1..]);
    }
  }

  /** A signed-out client's session is dead, unless some step of the run stranded it. */
  lemma SignedOutIsDead(s0: State, steps: seq<Step>)
    requires Initial(s0) && IsRun(s0, steps) && NoStrands(s0, steps)
    ensures After(s0, steps).signedOut ==> !After(s0, steps).server.alive
  {
    InitiallySound(s0);
    StrandedExactly(s0, steps);
    EndOfNeverStranded(s0, steps);
  }

  lemma {:induction false} SlipFreeStrandsNobody(s: State, steps: seq<Step>)
    requires IsRun(s, steps) && NoSlips(s, steps)
    ensures NoStrands(s, steps)
    decreases |steps|
  {
    if steps != [] {
      SlipFreeStrandsNobody(Next(s, steps[0]), steps[1..]);
    }
  }

  /**
   Only a refresh answered 401 or 403, or a confirmed logout, wipes and signs out; network
   errors, timeouts, other statuses and bodies without a token never do.
   */
  lemma SignsOutExactly(s: State, step: Step)
    requires Enabled(s, step) && !s.signedOut
    ensures Next(s, step).signedOut <==>
              || (step.Deliver? && s.net.answers[RequestOf(s.client, step.tab)].status in {401, 403})
              || (step.LogoutDeliver? && IsOk(s.net.logoutAnswers[LogoutOf(s.client, step.tab)].status))
  {
  }

  // ── A calm environment is enough ────────────────────────────

  /**
   The environment behaves: the store stays up, the user active, nobody in between refuses,
   and no revocation lands between the read and the write of a rotation.
   */
  predicate Calm(s: State, step: Step) {
    match step
    case StoreTurns(up) => up
    case UserTurns(active) => active
    case Intercept(_, status) => status != 401 && status != 403
    case LogoutServe(_, _) => s.net.serving == map[]
    case SessionEnds => s.net.serving == map[]
    case _ => true
  }

  predicate CalmRun(s: State, steps: seq<Step>)
    requires IsRun(s, steps)
    decreases |steps|
  {
    steps == [] || (Calm(s, steps[0]) && CalmRun(Next(s, steps[0]), steps[1..]))
  }

  /** While the session lives, the jar and every request carry both cookies. */
  predicate CookiesKept(s: State) {
    && s.server.storeUp && s.server.userActive
    && (s.net.serving != map[] ==> s.server.alive)
    && (s.server.alive ==>
          && s.jar.sid && s.jar.refresh.Some?
          && (forall id | id in s.net.sent :: s.net.sent[id].sid && s.net.sent[id].refresh.Some?)
          && (forall id | id in s.net.answers :: !s.net.answers[id].clears)
          && (forall id | id in s.net.logoutSent :: s.net.logoutSent[id])
          && (forall id | id in s.net.logoutAnswers :: !s.net.logoutAnswers[id].clears))
  }

  predicate Steady(s: State) {
    Sound(s) && !s.seen.torn && !s.seen.slipped && CookiesKept(s)
  }

  lemma CalmRefreshKeepsCookies(s: State, step: Step)
    requires Steady(s) && Enabled(s, step) && Calm(s, step) && !Tears(s, step)
    requires step.Read? || step.Write? || step.Intercept?
    ensures CookiesKept(Next(s, step)) && !Slips(s, step)
  {
    if step.Read? {
      assert s.server.alive ==> ReadSession(s.server, s.net.sent[step.request], step.headers) == Continues(Rotating);
    }
  }

  lemma CalmLogoutKeepsCookies(s: State, step: Step)
    requires Steady(s) && Enabled(s, step) && Calm(s, step) && IsLogout(step)
    ensures CookiesKept(Next(s, step)) && !Slips(s, step)
  {
  }

  lemma CalmOthersKeepCookies(s: State, step: Step)
    requires Steady(s) && Enabled(s, step) && Calm(s, step)
    requires !step.Read? && !step.Write? && !step.Intercept? && !IsLogout(step)
    ensures CookiesKept(Next(s, step)) && !Slips(s, step)
  {
  }

  lemma CalmStep(s: State, step: Step)
    requires Steady(s) && Enabled(s, step) && Calm(s, step) && !Tears(s, step)
    ensures Steady(Next(s, step)) && !Slips(s, step)
  {
    StepKeepsSound(s, step);
    HistoryIsExact(s, step);
    if step.Read? || step.Write? || step.Intercept? {
      CalmRefreshKeepsCookies(s, step);
    } else if IsLogout(step) {
      CalmLogoutKeepsCookies(s, step);
    } else {
      CalmOthersKeepCookies(s, step);
    }
  }

  lemma {:induction false} CalmRunIsSteady(s: State, steps: seq<Step>)
    requires Steady(s) && IsRun(s, steps) && CalmRun(s, steps) && NoTears(s, steps)
    ensures Steady(After(s, steps)) && NoSlips(s, steps)
    decreases |steps|
  {
    if steps != [] {
      CalmStep(s, steps[0]);
      CalmRunIsSteady(Next(s, steps[0]), steps[1..]);
    }
  }

  /**
   In a calm environment without torn exchanges, whatever tabs, users and the network's
   timing do: no refresh is taken for reuse, and a client that signed out left a dead session.
   */
  lemma CalmRunsAreSafe(s0: State, steps: seq<Step>)
    requires Initial(s0) && s0.server.storeUp && s0.server.userActive
    requires IsRun(s0, steps) && CalmRun(s0, steps) && NoTears(s0, steps)
    ensures var s := After(s0, steps);
            && !s.seen.reused
            && (s.signedOut ==> !s.server.alive)
            && (s.server.alive ==> s.jar.sid && s.jar.refresh.Some?)
  {
    InitiallySound(s0);
    CalmRunIsSteady(s0, steps);
  }

  // ── Both promises can fail ──────────────────────────────────

  /** A sequence of states linked by steps is a run. */
  lemma {:induction false} PathIsRun(states: seq<State>, steps: seq<Step>)
    requires |states| == |steps| + 1
    requires forall i | 0 <= i < |steps| :: Enabled(states[i], steps[i]) && Next(states[i], steps[i]) == states[i + 1]
    ensures IsRun(states[0], steps) && After(states[0], steps) == states[|steps|]
    decreases |steps|
  {
    if steps != [] {
      PathIsRun(states[1..], steps[1..]);
    }
  }

  lemma {:induction false} RunsCompose(s: State, a: seq<Step>, b: seq<Step>)
    requires IsRun(s, a) && IsRun(After(s, a), b)
    ensures IsRun(s, a + b) && After(s, a + b) == After(After(s, a), b)
    decreases |a|
  {
    if a == [] {
      assert a + b == b;
    } else {
      assert (a + b)[1..] == a[1..] + b;
      RunsCompose(Next(s, a[0]), a[1..], b);
    }
  }

  /** A live session, the store up, the user active, and no refresh anywhere; tab 0 heard no broadcast. */
  predicate Quiet(s: State) {
    && Shaped(s.client) && s.client.tabs != [] && s.client.queue == []
    && s.client.tabs[0].flight.None? && s.client.tabs[0].remote.None?
    && s.net.sent == map[] && s.net.serving == map[] && s.net.answers == map[]
    && s.server.alive && s.server.storeUp && s.server.userActive && s.server.refresh < s.server.issued
    && s.jar.sid && s.jar.refresh.Some?
  }

  /** Tab 0 asks for a refresh and the server reads the session. */
  function Asks(call: nat, request: nat): seq<Step> {
    [Join(0, call, None), Grant(0), Read(request, false)]
  }

  /** The state after Asks. */
  predicate Asked(s: State, call: nat, t: State) {
    var id := s.net.nextId;
    var pending := if s.jar.refresh == Some(s.server.refresh) then Rotating else Revoking;
    && AskedClient(s.client, call, id, t.client)
    && t.net == s.net.(nextId := id + 1, serving := map[id := pending])
    && t.server == s.server && t.jar == s.jar && t.signedOut == s.signedOut
    && t.seen == Flagged(s.seen, false, pending.Revoking?, false)
  }

  predicate AskedClient(c: Client, call: nat, id: nat, c': Client) {
    && Fetches(c', 0) && RequestOf(c', 0) == id && c'.queue == [0]
    && Shaped(c') && |c'.tabs| == |c.tabs| && c'.leaving == c.leaving
    && c'.tabs[0].remote.None? && c'.calls.Keys == c.calls.Keys + {call}
  }

  lemma AskingSteps(s: State, call: nat) returns (s1: State, s2: State, s3: State)
    requires Quiet(s) && call !in s.client.calls
    ensures Enabled(s, Join(0, call, None)) && s1 == Next(s, Join(0, call, None))
    ensures Enabled(s1, Grant(0)) && s2 == Next(s1, Grant(0))
    ensures Enabled(s2, Read(s.net.nextId, false)) && s3 == Next(s2, Read(s.net.nextId, false))
    ensures Asked(s, call, s3)
  {
    s1 := Next(s, Join(0, call, None));
    s2 := Next(s1, Grant(0));
    assert s2.client == Advance(s1.client, 0, Fetching(s.net.nextId));
    assert s2.net.sent == map[s.net.nextId := s.jar];
    s3 := Next(s2, Read(s.net.nextId, false));
    assert s3.net.sent == map[];
  }

  lemma AskingReads(s: State, call: nat)
    requires Quiet(s) && call !in s.client.calls
    ensures IsRun(s, Asks(call, s.net.nextId)) && Asked(s, call, After(s, Asks(call, s.net.nextId)))
  {
    var s1, s2, s3 := AskingSteps(s, call);
    PathOfThree(s, s1, s2, s3, Join(0, call, None), Grant(0), Read(s.net.nextId, false));
  }

  lemma PathOfThree(s: State, s1: State, s2: State, s3: State, a: Step, b: Step, c: Step)
    requires Enabled(s, a) && s1 == Next(s, a)
    requires Enabled(s1, b) && s2 == Next(s1, b)
    requires Enabled(s2, c) && s3 == Next(s2, c)
    ensures IsRun(s, [a, b, c]) && After(s, [a, b, c]) == s3
  {
    var states, steps := [s, s1, s2, s3], [a, b, c];
    assert forall i | 0 <= i < 3 :: Enabled(states[i], steps[i]) && Next(states[i], steps[i]) == states[i + 1];
    PathIsRun(states, steps);
  }

  /** The rotation's answer is lost: the jar keeps a token the server no longer accepts. */
  lemma LosingARotation(s: State, call: nat)
    requires Quiet(s) && call !in s.client.calls && s.jar.refresh.value == s.server.refresh
    ensures var steps := Asks(call, s.net.nextId) + [Write(s.net.nextId, false, Completes), GiveUp(0)];
            && IsRun(s, steps)
            && var t := After(s, steps);
               && Quiet(t) && t.jar == s.jar && t.server.refresh == s.server.issued
               && t.net.nextId == s.net.nextId + 1 && t.client.calls.Keys == s.client.calls.Keys + {call}
  {
    var id := s.net.nextId;
    AskingReads(s, call);
    var t := After(s, Asks(call, id));
    var t1, t2 := AnswerIsLost(s, call, t);
    PathIsRun([t, t1, t2], [Write(id, false, Completes), GiveUp(0)]);
    RunsCompose(s, Asks(call, id), [Write(id, false, Completes), GiveUp(0)]);
  }

  lemma AnswerIsLost(s: State, call: nat, t: State) returns (t1: State, t2: State)
    requires Quiet(s) && s.jar.refresh.value == s.server.refresh && Asked(s, call, t)
    ensures Enabled(t, Write(s.net.nextId, false, Completes)) && t1 == Next(t, Write(s.net.nextId, false, Completes))
    ensures Enabled(t1, GiveUp(0)) && t2 == Next(t1, GiveUp(0))
    ensures Quiet(t2) && t2.jar == s.jar && t2.server.refresh == s.server.issued
    ensures t2.net.nextId == s.net.nextId + 1 && t2.client.calls.Keys == s.client.calls.Keys + {call}
  {
    t1 := Next(t, Write(s.net.nextId, false, Completes));
    t2 := Next(t1, GiveUp(0));
    assert t2.net.serving == map[] && t2.net.answers == map[];
  }

  /** With the jar out of step the next refresh revokes the session and signs the user out. */
  lemma OutOfStepEndsSession(s: State, call: nat)
    requires Quiet(s) && call !in s.client.calls && s.jar.refresh.value != s.server.refresh
    ensures var steps := Asks(call, s.net.nextId) + [Write(s.net.nextId, false, Completes), Deliver(0)];
            IsRun(s, steps) && var t := After(s, steps); t.seen.reused && !t.server.alive && t.signedOut
  {
    var id := s.net.nextId;
    AskingReads(s, call);
    var t := After(s, Asks(call, id));
    var t1 := Next(t, Write(id, false, Completes));
    var t2 := Next(t1, Deliver(0));
    PathIsRun([t, t1, t2], [Write(id, false, Completes), Deliver(0)]);
    RunsCompose(s, Asks(call, id), [Write(id, false, Completes), Deliver(0)]);
  }

  /**
   From every initial state: one lost rotation answer, and the strict check does its work.
   The next refresh kills the session and signs the user out, though nobody logged out.
   */
  lemma LostRotationEndsSession(s0: State) returns (steps: seq<Step>)
    requires Initial(s0) && s0.client.tabs != [] && s0.server.storeUp && s0.server.userActive
    ensures IsRun(s0, steps) && forall i | 0 <= i < |steps| :: !IsLogout(steps[i]) && !steps[i].SessionEnds?
    ensures var s := After(s0, steps); s.seen.reused && !s.server.alive && s.signedOut
  {
    LosingARotation(s0, 0);
    var first := Asks(0, 0) + [Write(0, false, Completes), GiveUp(0)];
    var s := After(s0, first);
    OutOfStepEndsSession(s, 1);
    var second := Asks(1, 1) + [Write(1, false, Completes), Deliver(0)];
    RunsCompose(s0, first, second);
    steps := first + second;
  }

  /**
   A logout that lands between the read and the write of another tab's rotation is
   confirmed and undone: the user is signed out, the session lives. No exchange is torn.
   */
  lemma LogoutRacesRotation(s0: State) returns (steps: seq<Step>)
    requires Initial(s0) && |s0.client.tabs| >= 2 && s0.server.storeUp && s0.server.userActive
    ensures IsRun(s0, steps) && !After(s0, steps).seen.torn
    ensures After(s0, steps).signedOut && After(s0, steps).server.alive
  {
    AskingReads(s0, 0);
    var t := After(s0, Asks(0, 0));
    var logout := [LogoutStart(1), LogoutServe(1, false), LogoutDeliver(1)];
    LogoutLands(t, 1);
    var u := After(t, logout);
    var write := [Write(0, false, Completes)];
    PathIsRun([u, Next(u, write[0])], write);
    RunsCompose(t, logout, write);
    RunsCompose(s0, Asks(0, 0), logout + write);
    steps := Asks(0, 0) + (logout + write);
  }

  /** A logout goes through at the first attempt. */
  lemma LogoutLands(t: State, id: nat)
    requires Shaped(t.client) && |t.client.tabs| >= 2 && t.client.leaving[1].None? && id == t.net.nextId
    requires t.jar.sid && t.server.storeUp
    ensures var logout := [LogoutStart(1), LogoutServe(id, false), LogoutDeliver(1)];
            && IsRun(t, logout)
            && var u := After(t, logout);
               && u.signedOut && u.server == Revoked(t.server) && u.net.serving == t.net.serving
               && u.seen.torn == t.seen.torn && Shaped(u.client)
  {
    var logout := [LogoutStart(1), LogoutServe(id, false), LogoutDeliver(1)];
    var t1 := Next(t, logout[0]);
    var t2 := Next(t1, logout[1]);
    var t3 := Next(t2, logout[2]);
    PathOfThree(t, t1, t2, t3, logout[0], logout[1], logout[2]);
  }

  /**
   Step by step the slips are exact: an answer on which the client leaves, delivered right
   after the server gave it, leaves a live session behind exactly when giving it was a slip.
   For refreshes:
   */
  lemma RefreshAnswerIsHonest(s: State, step: Step, tab: nat)
    requires Sound(s) && !s.signedOut && Enabled(s, step) && (step.Read? || step.Write? || step.Intercept?)
    requires Fetches(s.client, tab) && RequestOf(s.client, tab) == step.request
    ensures var served := Next(s, step);
            step.request in served.net.answers && EndsSession(true, served.net.answers[step.request]) ==>
              && Enabled(served, Deliver(tab))
              && Next(served, Deliver(tab)).signedOut
              && (Next(served, Deliver(tab)).server.alive <==> Slips(s, step))
  {
    var served := Next(s, step);
    if step.request in served.net.answers && EndsSession(true, served.net.answers[step.request]) {
      assert served.client == s.client;
      assert Next(served, Deliver(tab)).server == served.server;
    }
  }

  /** And for logouts. */
  lemma LogoutAnswerIsHonest(s: State, tab: nat)
    requires Sound(s) && !s.signedOut && Leaves(s.client, tab) && LogoutOf(s.client, tab) in s.net.logoutSent
    ensures var id := LogoutOf(s.client, tab);
            var served := Next(s, LogoutServe(id, false));
            && Enabled(served, LogoutDeliver(tab))
            && Next(served, LogoutDeliver(tab)).signedOut
            && (Next(served, LogoutDeliver(tab)).server.alive <==> Slips(s, LogoutServe(id, false)))
  {
  }
}
