/**
 The watchdog's promises in terms of what is on the page: documents, element tags and error
 messages. What the probe, the element count and the message tests make of them is spelled
 out here, so nothing is left to their definitions.
 */
module WatchdogPages {
  import opened Texts
  import opened Wrappers
  import opened HydrationRecovery
  import opened WatchdogRuns

  /** What the script meets: an error event, or a tick over a page. */
  datatype Moment =
    | Failure(message: string, readable: bool)
    | Look(now: nat, tags: seq<string>, document: seq<Property>, throws: bool)

  /** The event a handler of the script makes of it. */
  function Seen(m: Moment): Event {
    match m
    case Failure(message, readable) => Error(if readable then message else "")
    case Look(now, tags, document, throws) => Tick(now, HasContent(tags), Probe(document, throws))
  }

  function History(moments: seq<Moment>): seq<Event> {
    seq(|moments|, i requires 0 <= i < |moments| => Seen(moments[i]))
  }

  // ── What is on the page ─────────────────────────────────────

  /** Nothing but scripts, templates, styles and links. */
  predicate Blank(tags: seq<string>) {
    forall i | 0 <= i < |tags| :: tags[i] in {"SCRIPT", "TEMPLATE", "STYLE", "LINK"}
  }

  /** No look up to and including moment k found more than that. */
  predicate BlankUntil(moments: seq<Moment>, k: nat)
    requires k < |moments|
  {
    forall m | 0 <= m <= k && moments[m].Look? :: Blank(moments[m].tags)
  }

  predicate Mentions(m: Moment, code: string) {
    m.Failure? && m.readable && Occurs(code, m.message)
  }

  /** A #418 or #423, and no #329. */
  predicate IsRetrying(m: Moment) {
    !Mentions(m, "#329") && (Mentions(m, "#418") || Mentions(m, "#423"))
  }

  /** React is retrying before moment n: such a message came after a #329. */
  predicate Retried(moments: seq<Moment>, n: nat)
    requires n <= |moments|
  {
    exists i, j | 0 <= i < j < n :: Mentions(moments[i], "#329") && IsRetrying(moments[j])
  }

  /** The look finds a root that has rendered and committed nothing, and React is not retrying. */
  ghost predicate StuckAt(moments: seq<Moment>, k: nat)
    requires k < |moments| && moments[k].Look?
  {
    && Blank(moments[k].tags) && !moments[k].throws && !Retried(moments, k)
    && exists p: nat :: Stuck(moments[k].document, p)
  }

  /** From look i to look k, at least 1.5 s later, every look finds the root stuck. */
  ghost predicate StuckFrom(moments: seq<Moment>, i: nat, k: nat)
    requires k < |moments| && moments[k].Look?
  {
    && i < k && moments[i].Look? && moments[k].now - moments[i].now >= 1500
    && forall m | i <= m <= k && moments[m].Look? :: StuckAt(moments, m)
  }

  ghost predicate StuckLong(moments: seq<Moment>, k: nat)
    requires k < |moments| && moments[k].Look?
  {
    exists i: nat :: StuckFrom(moments, i, k)
  }

  /** Look k calls for the box: a page blank all along, and a root stuck for long or 12 s gone by. */
  ghost predicate Calls(t0: nat, moments: seq<Moment>, k: nat)
    requires k < |moments|
  {
    && moments[k].Look? && BlankUntil(moments, k)
    && (StuckLong(moments, k) || moments[k].now - t0 >= 12000)
  }

  // ── The script's reading of it ──────────────────────────────

  lemma SeesContent(tags: seq<string>)
    ensures HasContent(tags) <==> !Blank(tags)
  {
  }

  lemma SeesMessages(m: Moment)
    requires m.Failure?
    ensures IsFatal(Seen(m).message) <==> Mentions(m, "#329")
    ensures IsRetry(Seen(m).message) <==> IsRetrying(m)
  {
  }

  lemma SeesAllMessages(moments: seq<Moment>)
    ensures forall i | 0 <= i < |moments| && moments[i].Failure? ::
              IsFatal(History(moments)[i].message) <==> Mentions(moments[i], "#329")
    ensures forall i | 0 <= i < |moments| && moments[i].Failure? ::
              IsRetry(History(moments)[i].message) <==> IsRetrying(moments[i])
  {
    forall i | 0 <= i < |moments| && moments[i].Failure?
      ensures IsFatal(History(moments)[i].message) <==> Mentions(moments[i], "#329")
      ensures IsRetry(History(moments)[i].message) <==> IsRetrying(moments[i])
    {
      SeesMessages(moments[i]);
    }
  }

  lemma RetryIsSeen(moments: seq<Moment>, n: nat, i: nat, j: nat)
    requires i < j < n <= |moments| && Mentions(moments[i], "#329") && IsRetrying(moments[j])
    ensures RetrySeen(History(moments)[..n])
  {
    SeesAllMessages(moments);
    var events := History(moments)[..n];
    assert events[..j][i] == events[i];
    assert FatalSeen(events[..j]);
  }

  lemma SeesRetry(moments: seq<Moment>, n: nat)
    requires n <= |moments|
    ensures RetrySeen(History(moments)[..n]) <==> Retried(moments, n)
  {
    var events := History(moments)[..n];
    if RetrySeen(events) {
      SeesAllMessages(moments);
      var j :| 0 <= j < n && events[j].Error? && IsRetry(events[j].message) && FatalSeen(events[..j]);
      var i :| 0 <= i < j && events[..j][i].Error? && IsFatal(events[..j][i].message);
      assert Mentions(moments[i], "#329") && IsRetrying(moments[j]);
    }
    if Retried(moments, n) {
      var i, j :| 0 <= i < j < n && Mentions(moments[i], "#329") && IsRetrying(moments[j]);
      RetryIsSeen(moments, n, i, j);
    }
  }

  lemma SeesStuck(moments: seq<Moment>, k: nat)
    requires k < |moments| && moments[k].Look?
    ensures WedgedAt(History(moments), k) <==> StuckAt(moments, k)
  {
    SeesContent(moments[k].tags);
    SeesRetry(moments, k);
    ProbeExactly(moments[k].document, moments[k].throws, Wedged);
  }

  lemma SeesStuckLong(moments: seq<Moment>, k: nat)
    requires k < |moments| && moments[k].Look?
    ensures Dwelled(History(moments), k) <==> StuckLong(moments, k)
  {
    var events := History(moments);
    forall m | 0 <= m <= k && moments[m].Look? ensures WedgedAt(events, m) <==> StuckAt(moments, m) {
      SeesStuck(moments, m);
    }
    if Dwelled(events, k) {
      var i :| 0 <= i < k && events[i].Tick? && WedgedThroughout(events, i, k)
               && events[k].now - events[i].now >= DWELL_MS;
      assert StuckFrom(moments, i, k);
    }
    if StuckLong(moments, k) {
      var i: nat :| StuckFrom(moments, i, k);
      assert WedgedThroughout(events, i, k);
    }
  }

  lemma SeesCalls(t0: nat, moments: seq<Moment>, k: nat)
    requires k < |moments|
    ensures Justified(t0, History(moments), k) <==> Calls(t0, moments, k)
  {
    if moments[k].Look? {
      var events := History(moments);
      SeesStuckLong(moments, k);
      forall m | 0 <= m <= k && moments[m].Look? ensures events[..k + 1][m].rendered <==> !Blank(moments[m].tags) {
        SeesContent(moments[m].tags);
      }
    }
  }

  // ── The promises ────────────────────────────────────────────

  /** The first look that calls for the box. */
  ghost predicate FirstCalls(t0: nat, moments: seq<Moment>, k: nat)
    requires k < |moments|
  {
    Calls(t0, moments, k) && forall j | 0 <= j < k :: !Calls(t0, moments, j)
  }

  /**
   The box is shown exactly when some look calls for it; it is shown by the first such look,
   and its reason is the wedged root exactly when that look found the root stuck for long.
   */
  lemma PageBoxExactly(t0: nat, moments: seq<Moment>)
    requires ClockOk(t0, History(moments))
    ensures var box := After(t0, History(moments)).box;
            && (box.Some? <==> exists k | 0 <= k < |moments| :: Calls(t0, moments, k))
            && (box.Some? ==>
                  exists k | 0 <= k < |moments| ::
                    && FirstCalls(t0, moments, k) && box.value.at == moments[k].now
                    && (box.value.reason == WedgedRoot <==> StuckLong(moments, k)))
  {
    var events := History(moments);
    BoxIsExact(t0, events);
    forall k | 0 <= k < |moments| ensures Justified(t0, events, k) <==> Calls(t0, moments, k) {
      SeesCalls(t0, moments, k);
    }
    var box := After(t0, events).box;
    if box.Some? {
      var k :| 0 <= k < |events| && FirstJustified(t0, events, k)
               && box.value == Box(if Dwelled(events, k) then WedgedRoot else Backstop, events[k].now);
      SeesStuckLong(moments, k);
      assert FirstCalls(t0, moments, k);
    }
  }

  lemma NoContent(moments: seq<Moment>)
    requires forall m | 0 <= m < |moments| && moments[m].Look? :: Blank(moments[m].tags)
    ensures !ContentSeen(History(moments))
  {
    forall m | 0 <= m < |moments| && moments[m].Look? ensures !HasContent(moments[m].tags) {
      SeesContent(moments[m].tags);
    }
  }

  /** A page that stays blank is offered a reload by 12 s and one gap between ticks. */
  lemma BlankPageLatency(t0: nat, moments: seq<Moment>, g: nat, k: nat)
    requires ClockOk(t0, History(moments)) && GapsAtMost(t0, History(moments), g)
    requires forall m | 0 <= m < |moments| && moments[m].Look? :: Blank(moments[m].tags)
    requires k < |moments| && moments[k].Look? && moments[k].now >= t0 + 12000
    ensures var box := After(t0, History(moments)).box; box.Some? && box.value.at <= t0 + 12000 + g
  {
    NoContent(moments);
    BackstopLatency(t0, History(moments), g, k);
  }

  /**
   A blank page whose documents all show, from time w on, a root that has rendered and
   committed nothing, with no retry, is offered a reload by 1.5 s and two gaps after w.
   */
  lemma StuckPageLatency(t0: nat, moments: seq<Moment>, g: nat, w: nat, k: nat)
    requires ClockOk(t0, History(moments)) && GapsAtMost(t0, History(moments), g) && t0 <= w
    requires forall m | 0 <= m < |moments| && moments[m].Look? :: Blank(moments[m].tags)
    requires forall m | 0 <= m < |moments| && moments[m].Look? && moments[m].now >= w :: StuckAt(moments, m)
    requires k < |moments| && moments[k].Look? && moments[k].now >= w + 1500 + g
    ensures var box := After(t0, History(moments)).box; box.Some? && box.value.at <= w + 1500 + 2 * g
  {
    NoContent(moments);
    var events := History(moments);
    forall m | 0 <= m < |events| && events[m].Tick? && events[m].now >= w ensures WedgedAt(events, m) {
      SeesStuck(moments, m);
    }
    WedgedLatency(t0, events, g, w, k);
  }
}
