/**
 The watchdog over whole runs. The script keeps two flags, a dwell start and a timer;
 here it is compared with a description that keeps nothing: which ticks of the whole
 history justify showing the box.
 */
module WatchdogRuns {
  import opened Wrappers
  import opened HydrationRecovery

  datatype Event =
    | Error(message: string)
    | Tick(now: nat, rendered: bool, status: Status)

  /** One event; the interval stops firing once the timer is cleared. */
  function Handle(w: Watch, e: Event): Watch {
    match e
    case Error(message) => OnError(w, message)
    case Tick(now, rendered, status) => if w.ticking then Poll(w, now, rendered, status) else w
  }

  /** The script after the events, loaded at t0. */
  function After(t0: nat, events: seq<Event>): Watch {
    if events == [] then Start(t0) else Handle(After(t0, events[..|events| - 1]), events[|events| - 1])
  }

  // ── The history, described ──────────────────────────────────

  predicate FatalSeen(events: seq<Event>) {
    exists i | 0 <= i < |events| :: events[i].Error? && IsFatal(events[i].message)
  }

  /** A #418 or #423 arrived after a #329. */
  predicate RetrySeen(events: seq<Event>) {
    exists j | 0 <= j < |events| :: events[j].Error? && IsRetry(events[j].message) && FatalSeen(events[..j])
  }

  predicate ContentSeen(events: seq<Event>) {
    exists i | 0 <= i < |events| :: events[i].Tick? && events[i].rendered
  }

  /** Tick k finds an empty page and a wedged root, and React is not retrying. */
  predicate WedgedAt(events: seq<Event>, k: nat)
    requires k < |events| && events[k].Tick?
  {
    !events[k].rendered && events[k].status == Wedged && !RetrySeen(events[..k])
  }

  /** Every tick from i up to k is wedged. */
  predicate WedgedThroughout(events: seq<Event>, i: nat, k: nat)
    requires k < |events|
  {
    forall m | i <= m <= k && events[m].Tick? :: WedgedAt(events, m)
  }

  /** The root has been wedged, tick after tick, for at least the dwell. */
  predicate Dwelled(events: seq<Event>, k: nat)
    requires k < |events| && events[k].Tick?
  {
    exists i | 0 <= i < k ::
      events[i].Tick? && WedgedThroughout(events, i, k) && events[k].now - events[i].now >= DWELL_MS
  }

  /** Tick k justifies the box: nothing was ever rendered, and the dwell or the backstop is over. */
  predicate Justified(t0: nat, events: seq<Event>, k: nat)
    requires k < |events|
  {
    && events[k].Tick? && !ContentSeen(events[..k + 1])
    && (Dwelled(events, k) || events[k].now - t0 >= BACKSTOP_MS)
  }

  /** The first tick that justifies it. */
  predicate FirstJustified(t0: nat, events: seq<Event>, k: nat)
    requires k < |events|
  {
    Justified(t0, events, k) && forall j | 0 <= j < k :: !Justified(t0, events, j)
  }

  /** A clock that started after 1970 and never runs backwards. */
  predicate ClockOk(t0: nat, events: seq<Event>) {
    && (forall i | 0 <= i < |events| && events[i].Tick? :: 0 < events[i].now && t0 <= events[i].now)
    && (forall i, j | 0 <= i < j < |events| && events[i].Tick? && events[j].Tick? :: events[i].now <= events[j].now)
  }

  // ── Descriptions of a prefix do not change when events follow ─

  lemma RetryGrows(events: seq<Event>, e: Event)
    ensures RetrySeen(events + [e]) <==> RetrySeen(events) || (e.Error? && IsRetry(e.message) && FatalSeen(events))
  {
    var all := events + [e];
    assert all[..|events|] == events;
    assert forall j | 0 <= j < |events| :: all[..j] == events[..j];
    if RetrySeen(events) {
      var j :| 0 <= j < |events| && events[j].Error? && IsRetry(events[j].message) && FatalSeen(events[..j]);
      assert all[j] == events[j];
    }
    if e.Error? && IsRetry(e.message) && FatalSeen(events) {
      assert all[|events|] == e;
    }
  }

  lemma FatalGrows(events: seq<Event>, e: Event)
    ensures FatalSeen(events + [e]) <==> FatalSeen(events) || (e.Error? && IsFatal(e.message))
  {
    var all := events + [e];
    assert all[|events|] == e;
    if FatalSeen(events) {
      var i :| 0 <= i < |events| && events[i].Error? && IsFatal(events[i].message);
      assert all[i] == events[i];
    }
  }

  lemma ContentGrows(events: seq<Event>, e: Event)
    ensures ContentSeen(events + [e]) <==> ContentSeen(events) || (e.Tick? && e.rendered)
  {
    var all := events + [e];
    assert all[|events|] == e;
    if ContentSeen(events) {
      var i :| 0 <= i < |events| && events[i].Tick? && events[i].rendered;
      assert all[i] == events[i];
    }
  }

  lemma WedgedFixed(events: seq<Event>, e: Event, k: nat)
    requires k < |events| && events[k].Tick?
    ensures WedgedAt(events + [e], k) <==> WedgedAt(events, k)
  {
    assert (events + [e])[..k] == events[..k];
  }

  lemma JustifiedFixed(t0: nat, events: seq<Event>, e: Event, k: nat)
    requires k < |events|
    ensures events[k].Tick? ==> (Dwelled(events + [e], k) <==> Dwelled(events, k))
    ensures Justified(t0, events + [e], k) <==> Justified(t0, events, k)
  {
    var all := events + [e];
    assert all[..k + 1] == events[..k + 1];
    forall m | 0 <= m <= k && events[m].Tick? ensures WedgedAt(all, m) <==> WedgedAt(events, m) {
      WedgedFixed(events, e, m);
    }
    assert forall i | 0 <= i < k :: WedgedThroughout(all, i, k) <==> WedgedThroughout(events, i, k);
  }

  // ── What the variables mean ─────────────────────────────────

  /** Tick i starts an unbroken wedged stretch reaching the last event. */
  predicate Stretch(events: seq<Event>, i: nat) {
    i < |events| && events[i].Tick? && WedgedThroughout(events, i, |events| - 1)
  }

  /** The dwell start is the time of the earliest tick of the current stretch. */
  predicate DwellMeans(w: Watch, events: seq<Event>) {
    && (w.wedgeSince != 0 ==> exists i | 0 <= i < |events| :: Stretch(events, i) && events[i].now == w.wedgeSince)
    && (forall i | 0 <= i < |events| && Stretch(events, i) :: w.wedgeSince != 0 && w.wedgeSince <= events[i].now)
  }

  predicate BoxMeans(t0: nat, box: Option<Box>, events: seq<Event>) {
    match box
    case None => forall k | 0 <= k < |events| :: !Justified(t0, events, k)
    case Some(b) =>
      exists k | 0 <= k < |events| ::
        FirstJustified(t0, events, k) && b == Box(if Dwelled(events, k) then WedgedRoot else Backstop, events[k].now)
  }

  predicate Means(t0: nat, w: Watch, events: seq<Event>) {
    && w.t0 == t0
    && (w.sawFatal <==> FatalSeen(events))
    && (w.retryAfterFatal <==> RetrySeen(events))
    && BoxMeans(t0, w.box, events)
    && (w.ticking <==> w.box.None? && !ContentSeen(events))
    && (w.ticking ==> DwellMeans(w, events))
  }

  lemma BoxStays(t0: nat, box: Option<Box>, events: seq<Event>, e: Event)
    requires BoxMeans(t0, box, events)
    requires box.None? ==> !Justified(t0, events + [e], |events|)
    ensures BoxMeans(t0, box, events + [e])
  {
    var all := events + [e];
    forall k | 0 <= k < |events| ensures Justified(t0, all, k) <==> Justified(t0, events, k) {
      JustifiedFixed(t0, events, e, k);
    }
    if box.Some? {
      var k :| 0 <= k < |events| && FirstJustified(t0, events, k)
               && box.value == Box(if Dwelled(events, k) then WedgedRoot else Backstop, events[k].now);
      JustifiedFixed(t0, events, e, k);
      assert FirstJustified(t0, all, k);
    }
  }

  lemma BoxAppears(t0: nat, events: seq<Event>, e: Event)
    requires BoxMeans(t0, None, events) && Justified(t0, events + [e], |events|)
    ensures var all := events + [e];
            BoxMeans(t0, Some(Box(if Dwelled(all, |events|) then WedgedRoot else Backstop, all[|events|].now)), all)
  {
    var all := events + [e];
    forall k | 0 <= k < |events| ensures !Justified(t0, all, k) {
      JustifiedFixed(t0, events, e, k);
    }
    assert FirstJustified(t0, all, |events|);
  }

  /** An error leaves every stretch as it is: it is the next tick that notices. */
  lemma StretchAfterError(events: seq<Event>, e: Event, i: nat)
    requires e.Error?
    ensures Stretch(events + [e], i) <==> Stretch(events, i)
  {
    var all := events + [e];
    forall m | 0 <= m < |events| && events[m].Tick? ensures WedgedAt(all, m) <==> WedgedAt(events, m) {
      WedgedFixed(events, e, m);
    }
  }

  lemma StretchAfterTick(events: seq<Event>, e: Event, i: nat)
    requires e.Tick?
    ensures Stretch(events + [e], i) <==>
              (WedgedAt(events + [e], |events|) && (i == |events| || Stretch(events, i)))
  {
    var all := events + [e];
    forall m | 0 <= m < |events| && events[m].Tick? ensures WedgedAt(all, m) <==> WedgedAt(events, m) {
      WedgedFixed(events, e, m);
    }
  }

  /** At a tick, the script's dwell test is the description's. */
  lemma DwellTest(w: Watch, events: seq<Event>, e: Event)
    requires DwellMeans(w, events) && e.Tick?
    ensures Dwelled(events + [e], |events|) <==>
              WedgedAt(events + [e], |events|) && w.wedgeSince != 0 && e.now - w.wedgeSince >= DWELL_MS
  {
    var all := events + [e];
    var n := |events|;
    if Dwelled(all, n) {
      var i :| 0 <= i < n && all[i].Tick? && WedgedThroughout(all, i, n) && all[n].now - all[i].now >= DWELL_MS;
      StretchAfterTick(events, e, i);
      assert Stretch(all, i);
      assert WedgedAt(all, n);
    }
    if WedgedAt(all, n) && w.wedgeSince != 0 && e.now - w.wedgeSince >= DWELL_MS {
      var i :| 0 <= i < n && Stretch(events, i) && events[i].now == w.wedgeSince;
      StretchAfterTick(events, e, i);
      assert Stretch(all, i);
    }
  }

  lemma ErrorKeepsMeaning(t0: nat, w: Watch, events: seq<Event>, e: Event)
    requires Means(t0, w, events) && e.Error?
    ensures Means(t0, Handle(w, e), events + [e])
  {
    var all := events + [e];
    FatalGrows(events, e);
    RetryGrows(events, e);
    ContentGrows(events, e);
    assert all[|events|] == e;
    BoxStays(t0, w.box, events, e);
    if w.ticking {
      forall i ensures Stretch(all, i) <==> Stretch(events, i) {
        StretchAfterError(events, e, i);
      }
      if w.wedgeSince != 0 {
        var i :| 0 <= i < |events| && Stretch(events, i) && events[i].now == w.wedgeSince;
        assert Stretch(all, i) && all[i] == events[i];
      }
    }
  }

  lemma DwellAfterTick(w: Watch, events: seq<Event>, e: Event, since: nat)
    requires DwellMeans(w, events) && e.Tick? && ClockOk(w.t0, events + [e])
    requires since ==
               if WedgedAt(events + [e], |events|) then (if w.wedgeSince == 0 then e.now else w.wedgeSince) else 0
    ensures DwellMeans(w.(wedgeSince := since), events + [e])
  {
    var all := events + [e];
    var n := |events|;
    assert all[n] == e && forall i | 0 <= i < n :: all[i] == events[i];
    forall i: nat ensures Stretch(all, i) <==> WedgedAt(all, n) && (i == n || Stretch(events, i)) {
      StretchAfterTick(events, e, i);
    }
    if since != 0 {
      if w.wedgeSince == 0 {
        assert Stretch(all, n);
      } else {
        var i :| 0 <= i < n && Stretch(events, i) && events[i].now == w.wedgeSince;
        assert Stretch(all, i);
        assert all[i].now <= e.now;
      }
    }
  }

  /** A tick after which the script does nothing, or only stops its timer. */
  lemma IdleTickKeepsMeaning(t0: nat, w: Watch, events: seq<Event>, e: Event)
    requires Means(t0, w, events) && e.Tick? && (!w.ticking || e.rendered)
    ensures Means(t0, Handle(w, e), events + [e])
  {
    var all := events + [e];
    assert all[|events|] == e && all[..|events| + 1] == all;
    FatalGrows(events, e);
    RetryGrows(events, e);
    ContentGrows(events, e);
    BoxStays(t0, w.box, events, e);
  }

  lemma TickKeepsMeaning(t0: nat, w: Watch, events: seq<Event>, e: Event)
    requires Means(t0, w, events) && e.Tick? && ClockOk(t0, events + [e])
    ensures Means(t0, Handle(w, e), events + [e])
  {
    if !w.ticking || e.rendered {
      IdleTickKeepsMeaning(t0, w, events, e);
    } else {
      FatalGrows(events, e);
      RetryGrows(events, e);
      ContentGrows(events, e);
      PollIsJustified(t0, w, events, e);
      if Justified(t0, events + [e], |events|) {
        BoxAppears(t0, events, e);
      } else {
        BoxStays(t0, w.box, events, e);
        DwellAfterTick(w, events, e, Handle(w, e).wedgeSince);
      }
    }
  }

  /** What a poll over an empty page does, in the description's terms. */
  lemma PollIsJustified(t0: nat, w: Watch, events: seq<Event>, e: Event)
    requires Means(t0, w, events) && w.ticking && e.Tick? && !e.rendered
    ensures var all := events + [e];
            var n := |events|;
            var w' := Handle(w, e);
            && all[n] == e
            && (w'.box.Some? <==> Justified(t0, all, n))
            && (Justified(t0, all, n) ==> w'.box == Some(Box(if Dwelled(all, n) then WedgedRoot else Backstop, e.now)))
            && w'.sawFatal == w.sawFatal && w'.retryAfterFatal == w.retryAfterFatal && w'.t0 == w.t0
            && (w'.ticking <==> w'.box.None?)
            && (w'.box.None? ==>
                  && w' == w.(wedgeSince := w'.wedgeSince)
                  && w'.wedgeSince ==
                       if WedgedAt(all, n) then (if w.wedgeSince == 0 then e.now else w.wedgeSince) else 0)
  {
    var all := events + [e];
    assert all[|events|] == e && all[..|events|] == events && all[..|events| + 1] == all;
    ContentGrows(events, e);
    DwellTest(w, events, e);
  }

  /** After any events, every variable means what it should. */
  lemma {:induction false} VariablesMean(t0: nat, events: seq<Event>)
    requires ClockOk(t0, events)
    ensures Means(t0, After(t0, events), events)
  {
    if events != [] {
      var n := |events| - 1;
      var front, last := events[..n], events[n];
      assert events == front + [last];
      VariablesMean(t0, front);
      if last.Error? {
        ErrorKeepsMeaning(t0, After(t0, front), front, last);
      } else {
        TickKeepsMeaning(t0, After(t0, front), front, last);
      }
    }
  }

  // ── Soundness ───────────────────────────────────────────────

  /**
   The box is shown exactly when some tick of the history justifies it, at the first such
   tick, with reason "wedged" exactly when that tick ends an unbroken dwell.
   */
  lemma BoxIsExact(t0: nat, events: seq<Event>)
    requires ClockOk(t0, events)
    ensures BoxMeans(t0, After(t0, events).box, events)
    ensures After(t0, events).box.Some? <==> exists k | 0 <= k < |events| :: Justified(t0, events, k)
  {
    VariablesMean(t0, events);
  }

  lemma {:induction false} JustifiedInPrefix(t0: nat, events: seq<Event>, more: seq<Event>, k: nat)
    requires k < |events|
    ensures events[k].Tick? ==> (Dwelled(events + more, k) <==> Dwelled(events, k))
    ensures Justified(t0, events + more, k) <==> Justified(t0, events, k)
  {
    if more == [] {
      assert events + more == events;
    } else {
      var m := |more| - 1;
      JustifiedInPrefix(t0, events, more[..m], k);
      JustifiedFixed(t0, events + more[..m], more[m], k);
      assert events + more == events + more[..m] + [more[m]];
    }
  }

  lemma ClockOfPrefix(t0: nat, events: seq<Event>, more: seq<Event>)
    requires ClockOk(t0, events + more)
    ensures ClockOk(t0, events)
  {
    assert forall i | 0 <= i < |events| :: (events + more)[i] == events[i];
  }

  lemma {:induction false} BoxIsKept(t0: nat, events: seq<Event>, more: seq<Event>)
    requires After(t0, events).box.Some?
    ensures After(t0, events + more).box == After(t0, events).box
  {
    if more == [] {
      assert events + more == events;
    } else {
      var m := |more| - 1;
      BoxIsKept(t0, events, more[..m]);
      var all := events + more;
      assert all[..|all| - 1] == events + more[..m];
    }
  }

  /** At most one box, and none at or after a tick that saw content. */
  lemma OnceAndNeverOverContent(t0: nat, events: seq<Event>, more: seq<Event>)
    requires ClockOk(t0, events + more)
    ensures After(t0, events).box.Some? ==> After(t0, events + more).box == After(t0, events).box
    ensures After(t0, events).box.None? && ContentSeen(events) ==> After(t0, events + more).box.None?
  {
    if After(t0, events).box.Some? {
      BoxIsKept(t0, events, more);
    } else if ContentSeen(events) {
      var all := events + more;
      ClockOfPrefix(t0, events, more);
      VariablesMean(t0, events);
      VariablesMean(t0, all);
      var i :| 0 <= i < |events| && events[i].Tick? && events[i].rendered;
      forall k | 0 <= k < |all| ensures !Justified(t0, all, k) {
        if k < |events| {
          JustifiedInPrefix(t0, events, more, k);
        } else {
          assert all[..k + 1][i] == events[i];
        }
      }
    }
  }

  lemma RetryIsKept(events: seq<Event>, all: seq<Event>)
    requires |events| <= |all| && all[..|events|] == events && RetrySeen(events)
    ensures RetrySeen(all)
  {
    var j :| 0 <= j < |events| && events[j].Error? && IsRetry(events[j].message) && FatalSeen(events[..j]);
    assert all[j] == events[j] && all[..j] == events[..j];
  }

  /** Once React retries after a #329, only the backstop can still fire, twelve seconds after load or later. */
  lemma OnlyBackstopAfterRetry(t0: nat, events: seq<Event>, more: seq<Event>)
    requires ClockOk(t0, events + more) && RetrySeen(events)
    requires After(t0, events).box.None? && After(t0, events + more).box.Some?
    ensures var box := After(t0, events + more).box.value;
            box.reason == Backstop && box.at - t0 >= BACKSTOP_MS
  {
    var all := events + more;
    ClockOfPrefix(t0, events, more);
    VariablesMean(t0, events);
    VariablesMean(t0, all);
    var box := After(t0, all).box.value;
    var k :| 0 <= k < |all| && FirstJustified(t0, all, k)
             && box == Box(if Dwelled(all, k) then WedgedRoot else Backstop, all[k].now);
    if k < |events| {
      JustifiedInPrefix(t0, events, more, k);
      assert false;
    }
    assert all[..k][..|events|] == events;
    RetryIsKept(events, all[..k]);
    assert !WedgedAt(all, k);
  }

  // ── Latency ─────────────────────────────────────────────────

  /** Time of the last tick, or of loading. */
  function LastTick(t0: nat, events: seq<Event>): nat {
    if events == [] then t0
    else if events[|events| - 1].Tick? then events[|events| - 1].now
    else LastTick(t0, events[..|events| - 1])
  }

  predicate GapsAtMost(t0: nat, events: seq<Event>, g: nat) {
    forall k | 0 <= k < |events| && events[k].Tick? :: events[k].now <= LastTick(t0, events[..k]) + g
  }

  lemma {:induction false} LastTickIs(t0: nat, events: seq<Event>) returns (i: nat)
    ensures i <= |events|
    ensures i == |events| ==> LastTick(t0, events) == t0 && forall m | 0 <= m < |events| :: events[m].Error?
    ensures i < |events| ==> events[i].Tick? && LastTick(t0, events) == events[i].now
  {
    if events == [] {
      i := 0;
    } else if events[|events| - 1].Tick? {
      i := |events| - 1;
    } else {
      i := LastTickIs(t0, events[..|events| - 1]);
      if i == |events| - 1 {
        i := |events|;
      }
    }
  }

  /** The first tick at or after a time is at most one gap late. */
  lemma FirstTickFrom(t0: nat, events: seq<Event>, g: nat, time: nat, k: nat) returns (first: nat)
    requires ClockOk(t0, events) && GapsAtMost(t0, events, g) && t0 <= time
    requires k < |events| && events[k].Tick? && events[k].now >= time
    ensures first <= k && events[first].Tick? && time <= events[first].now <= time + g
  {
    first := k;
    while LastTick(t0, events[..first]) >= time && events[first].now > time + g
      invariant first <= k && events[first].Tick? && events[first].now >= time
      decreases first
    {
      var i := LastTickIs(t0, events[..first]);
      first := i;
    }
  }

  lemma JustifiedBounds(t0: nat, events: seq<Event>, k: nat)
    requires ClockOk(t0, events) && k < |events| && Justified(t0, events, k)
    ensures After(t0, events).box.Some? && After(t0, events).box.value.at <= events[k].now
  {
    BoxIsExact(t0, events);
    BoxNotAfter(t0, After(t0, events).box, events, k);
  }

  lemma BoxNotAfter(t0: nat, box: Option<Box>, events: seq<Event>, k: nat)
    requires ClockOk(t0, events) && BoxMeans(t0, box, events) && k < |events| && Justified(t0, events, k)
    ensures box.Some? && box.value.at <= events[k].now
  {
    if box.Some? {
      var j :| 0 <= j < |events| && FirstJustified(t0, events, j)
               && box.value == Box(if Dwelled(events, j) then WedgedRoot else Backstop, events[j].now);
      EarliestNotAfter(t0, events, j, k);
    }
  }

  lemma EarliestNotAfter(t0: nat, events: seq<Event>, j: nat, k: nat)
    requires ClockOk(t0, events) && j < |events| && k < |events|
    requires FirstJustified(t0, events, j) && Justified(t0, events, k)
    ensures events[j].Tick? && events[k].Tick? && events[j].now <= events[k].now
  {
    assert j <= k;
  }

  /** An empty page is never left alone: ticks at most g apart show the box by 12 s + g. */
  lemma BackstopLatency(t0: nat, events: seq<Event>, g: nat, k: nat)
    requires ClockOk(t0, events) && GapsAtMost(t0, events, g) && !ContentSeen(events)
    requires k < |events| && events[k].Tick? && events[k].now >= t0 + BACKSTOP_MS
    ensures After(t0, events).box.Some? && After(t0, events).box.value.at <= t0 + BACKSTOP_MS + g
  {
    var first := FirstTickFrom(t0, events, g, t0 + BACKSTOP_MS, k);
    assert !ContentSeen(events[..first + 1]);
    JustifiedBounds(t0, events, first);
  }

  /** A root wedged at every tick from time w on is offered a reload by w + 1.5 s + 2g. */
  lemma WedgedLatency(t0: nat, events: seq<Event>, g: nat, w: nat, k: nat)
    requires ClockOk(t0, events) && GapsAtMost(t0, events, g) && !ContentSeen(events) && t0 <= w
    requires forall m | 0 <= m < |events| && events[m].Tick? && events[m].now >= w :: WedgedAt(events, m)
    requires k < |events| && events[k].Tick? && events[k].now >= w + DWELL_MS + g
    ensures After(t0, events).box.Some? && After(t0, events).box.value.at <= w + DWELL_MS + 2 * g
  {
    var i := FirstTickFrom(t0, events, g, w, k);
    var j := FirstTickFrom(t0, events, g, events[i].now + DWELL_MS, k);
    assert WedgedThroughout(events, i, j);
    assert Dwelled(events, j);
    assert !ContentSeen(events[..j + 1]);
    JustifiedBounds(t0, events, j);
  }
}
