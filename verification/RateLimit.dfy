/**
 The in-memory sliding-window limiter (apps/web/lib/rateLimit.ts). The limiter keeps, per
 namespace and address, only a pruned list of accepted times; its answers are those of a
 limiter that remembers every accepted request.
 */
module RateLimit {
  import opened Wrappers

  /** `key` is the optional namespace; undefined and "" both mean "default". */
  datatype Options = Options(max: int, windowMs: int, key: Option<string>)

  /** `retryAfter` is None where the source computes NaN, which takes a max below one. */
  datatype Result = Allowed | Denied(retryAfter: Option<int>)

  function Namespace(o: Options): string {
    if o.key.Some? && o.key.value != "" then o.key.value else "default"
  }

  /** times.filter(t => t > now - windowMs) */
  function Recent(times: seq<int>, now: int, windowMs: int): seq<int> {
    if times == [] then []
    else
      var front := Recent(times[..|times| - 1], now, windowMs);
      if times[|times| - 1] > now - windowMs then front + [times[|times| - 1]] else front
  }

  /** Math.ceil(n / 1000) */
  function CeilSeconds(n: int): int {
    -(-n / 1000)
  }

  function RetryAfter(oldest: int, now: int, windowMs: int): int {
    var s := CeilSeconds(windowMs - (now - oldest));
    if s > 1 then s else 1
  }

  /** One call on the list of one key: the list kept, and the answer. */
  function Check(times: seq<int>, now: int, o: Options): (seq<int>, Result) {
    var recent := Recent(times, now, o.windowMs);
    if |recent| >= o.max then
      (times, Denied(if recent == [] then None else Some(RetryAfter(recent[0], now, o.windowMs))))
    else (recent + [now], Allowed)
  }

  // ── The module's state ──────────────────────────────────────

  class Limiter {
    var stores: map<string, map<string, seq<int>>>

    constructor ()
      ensures stores == map[]
    {
      stores := map[];
    }

    function Times(namespace: string, ip: string): seq<int>
      reads this
    {
      if namespace in stores && ip in stores[namespace] then stores[namespace][ip] else []
    }

    /** Only the list of this namespace and address changes. */
    method CheckRateLimit(ip: string, o: Options, now: int) returns (r: Result)
      modifies this
      ensures var (kept, answer) := Check(old(Times(Namespace(o), ip)), now, o);
              r == answer && Times(Namespace(o), ip) == kept
      ensures forall n, a | n != Namespace(o) || a != ip :: Times(n, a) == old(Times(n, a))
    {
      var namespace := Namespace(o);
      if namespace !in stores {
        stores := stores[namespace := map[]];
      }
      var store := stores[namespace];
      var recent := Recent(if ip in store then store[ip] else [], now, o.windowMs);
      if |recent| >= o.max {
        return Denied(if recent == [] then None else Some(RetryAfter(recent[0], now, o.windowMs)));
      }
      stores := stores[namespace := store[ip := recent + [now]]];
      r := Allowed;
    }

    method Reset()
      modifies this
      ensures stores == map[]
    {
      stores := map[];
    }
  }

  // ── Runs on one key ─────────────────────────────────────────

  /** The list the limiter keeps after calls at these times. */
  function Kept(calls: seq<int>, o: Options): seq<int> {
    if calls == [] then []
    else Check(Kept(calls[..|calls| - 1], o), calls[|calls| - 1], o).0
  }

  /** Every accepted call, by the rule itself: fewer than max accepted ones in the window. */
  function Accepted(calls: seq<int>, o: Options): seq<int> {
    if calls == [] then []
    else
      var before := Accepted(calls[..|calls| - 1], o);
      var now := calls[|calls| - 1];
      if |Recent(before, now, o.windowMs)| < o.max then before + [now] else before
  }

  predicate Ordered(times: seq<int>) {
    forall i, j | 0 <= i < j < |times| :: times[i] <= times[j]
  }

  /** Accepted calls in the window (t - windowMs, t]. */
  function InWindow(times: seq<int>, t: int, windowMs: int): seq<int> {
    if times == [] then []
    else
      var front := InWindow(times[..|times| - 1], t, windowMs);
      var last := times[|times| - 1];
      if t - windowMs < last <= t then front + [last] else front
  }

  // ── Windows ─────────────────────────────────────────────────

  lemma RecentSnoc(times: seq<int>, x: int, now: int, windowMs: int)
    ensures Recent(times + [x], now, windowMs)
         == if x > now - windowMs then Recent(times, now, windowMs) + [x] else Recent(times, now, windowMs)
  {
    assert (times + [x])[..|times|] == times;
  }

  lemma {:induction false} RecentMembers(times: seq<int>, now: int, windowMs: int)
    ensures forall x | x in Recent(times, now, windowMs) :: x in times && x > now - windowMs
  {
    if times != [] {
      RecentMembers(times[..|times| - 1], now, windowMs);
    }
  }

  /** Pruning at an earlier time does not change what a later window sees. */
  lemma {:induction false} PruneFirst(times: seq<int>, early: int, late: int, windowMs: int)
    requires early <= late
    ensures Recent(Recent(times, early, windowMs), late, windowMs) == Recent(times, late, windowMs)
  {
    if times != [] {
      var front, last := times[..|times| - 1], times[|times| - 1];
      PruneFirst(front, early, late, windowMs);
      RecentSnoc(Recent(front, early, windowMs), last, late, windowMs);
    }
  }

  /** After one more call the pruned list and the full history still look alike to later windows. */
  lemma CallKeepsEnough(kept: seq<int>, all: seq<int>, last: int, now: int, o: Options)
    requires last <= now && Recent(kept, last, o.windowMs) == Recent(all, last, o.windowMs)
    requires Recent(kept, now, o.windowMs) == Recent(all, now, o.windowMs)
    ensures Recent(Check(kept, last, o).0, now, o.windowMs)
         == Recent(if |Recent(all, last, o.windowMs)| < o.max then all + [last] else all, now, o.windowMs)
  {
    if |Recent(kept, last, o.windowMs)| < o.max {
      PruneFirst(kept, last, now, o.windowMs);
      RecentSnoc(Recent(kept, last, o.windowMs), last, now, o.windowMs);
      RecentSnoc(all, last, now, o.windowMs);
    }
  }

  lemma OrderedFront(calls: seq<int>, now: int)
    requires calls != [] && Ordered(calls + [now])
    ensures var n := |calls| - 1;
            calls[n] <= now && Ordered(calls[..n] + [calls[n]]) && Ordered(calls[..n] + [now])
  {
    var n := |calls| - 1;
    var all := calls + [now];
    assert all[n] == calls[n] && all[n + 1] == now;
    assert forall i | 0 <= i < n :: all[i] == calls[..n][i];
  }

  /** The pruned list answers like the full history, from the last call on. */
  lemma {:induction false} KeptIsEnough(calls: seq<int>, o: Options, now: int)
    requires Ordered(calls + [now])
    ensures Recent(Kept(calls, o), now, o.windowMs) == Recent(Accepted(calls, o), now, o.windowMs)
  {
    if calls != [] {
      var n := |calls| - 1;
      var front, last := calls[..n], calls[n];
      OrderedFront(calls, now);
      KeptIsEnough(front, o, last);
      KeptIsEnough(front, o, now);
      CallKeepsEnough(Kept(front, o), Accepted(front, o), last, now, o);
    }
  }

  /** The limiter's answer to a call after a history is the rule's, with every accepted call remembered. */
  lemma AnswersAreTheRule(calls: seq<int>, o: Options, now: int)
    requires Ordered(calls + [now])
    ensures Check(Kept(calls, o), now, o).1.Allowed? <==> |Recent(Accepted(calls, o), now, o.windowMs)| < o.max
    ensures Accepted(calls + [now], o)
         == if Check(Kept(calls, o), now, o).1.Allowed? then Accepted(calls, o) + [now] else Accepted(calls, o)
  {
    KeptIsEnough(calls, o, now);
    assert (calls + [now])[..|calls|] == calls;
  }

  /** The list kept for a key never holds more than max times: what has left the window is dropped. */
  lemma {:induction false} KeptIsSmall(calls: seq<int>, o: Options)
    ensures |Kept(calls, o)| <= (if o.max > 0 then o.max else 0)
  {
    if calls != [] {
      KeptIsSmall(calls[..|calls| - 1], o);
    }
  }

  // ── No window is ever overfull ──────────────────────────────

  predicate UpTo(times: seq<int>, t: int) {
    forall i | 0 <= i < |times| :: times[i] <= t
  }

  lemma {:induction false} AcceptedIsOrdered(calls: seq<int>, o: Options)
    requires Ordered(calls)
    ensures Ordered(Accepted(calls, o))
    ensures calls != [] ==> UpTo(Accepted(calls, o), calls[|calls| - 1])
  {
    if calls != [] {
      var n := |calls| - 1;
      AcceptedIsOrdered(calls[..n], o);
      assert n > 0 ==> calls[n - 1] <= calls[n];
      assert UpTo(Accepted(calls[..n], o), calls[n]);
    }
  }

  lemma {:induction false} WindowIsRecent(times: seq<int>, t: int, windowMs: int)
    requires UpTo(times, t)
    ensures InWindow(times, t, windowMs) == Recent(times, t, windowMs)
  {
    if times != [] {
      WindowIsRecent(times[..|times| - 1], t, windowMs);
    }
  }

  lemma {:induction false} RecentShrinks(times: seq<int>, early: int, late: int, windowMs: int)
    requires early <= late
    ensures |Recent(times, late, windowMs)| <= |Recent(times, early, windowMs)|
  {
    if times != [] {
      RecentShrinks(times[..|times| - 1], early, late, windowMs);
    }
  }

  /** Whatever window one looks at, at most max calls in it were accepted. */
  lemma {:induction false} WindowsHoldAtMostMax(calls: seq<int>, o: Options, t: int)
    requires Ordered(calls)
    ensures |InWindow(Accepted(calls, o), t, o.windowMs)| <= (if o.max > 0 then o.max else 0)
  {
    if calls != [] {
      var n := |calls| - 1;
      var front, last := calls[..n], calls[n];
      assert front + [last] == calls;
      WindowsHoldAtMostMax(front, o, t);
      var before := Accepted(front, o);
      if |Recent(before, last, o.windowMs)| < o.max {
        WindowSnoc(before, last, t, o.windowMs);
        if last <= t {
          BeforeNow(front, o, last);
          WindowIsRecent(before, t, o.windowMs);
          RecentShrinks(before, last, t, o.windowMs);
        }
      }
    }
  }

  lemma WindowSnoc(times: seq<int>, x: int, t: int, windowMs: int)
    ensures InWindow(times + [x], t, windowMs)
         == if t - windowMs < x <= t then InWindow(times, t, windowMs) + [x] else InWindow(times, t, windowMs)
  {
    assert (times + [x])[..|times|] == times;
  }

  /** What the rule remembers before a call at `now` is ordered and not later than it. */
  lemma BeforeNow(calls: seq<int>, o: Options, now: int)
    requires Ordered(calls + [now])
    ensures Ordered(calls) && Ordered(Accepted(calls, o)) && UpTo(Accepted(calls, o), now)
    ensures InWindow(Accepted(calls, o), now, o.windowMs) == Recent(Accepted(calls, o), now, o.windowMs)
  {
    var all := calls + [now];
    assert all[|calls|] == now;
    forall i, j | 0 <= i < j < |calls| ensures calls[i] <= calls[j] {
      assert all[i] == calls[i] && all[j] == calls[j];
    }
    AcceptedIsOrdered(calls, o);
    if calls != [] {
      assert all[|calls| - 1] == calls[|calls| - 1];
    }
    WindowIsRecent(Accepted(calls, o), now, o.windowMs);
  }

  // ── Denials and retryAfter ──────────────────────────────────

  /** A call is denied exactly when its window already holds max accepted ones. */
  lemma DeniedExactly(calls: seq<int>, o: Options, now: int)
    requires Ordered(calls + [now]) && o.max >= 0
    ensures Check(Kept(calls, o), now, o).1.Denied? <==> |InWindow(Accepted(calls, o), now, o.windowMs)| == o.max
  {
    AnswersAreTheRule(calls, o, now);
    BeforeNow(calls, o, now);
    WindowsHoldAtMostMax(calls, o, now);
  }

  /** The oldest call in a window is in every later window until it is windowMs old; then it is gone. */
  lemma {:induction false} OldestLeaves(times: seq<int>, now: int, later: int, windowMs: int)
    requires Ordered(times) && now <= later && Recent(times, now, windowMs) != []
    ensures var oldest := Recent(times, now, windowMs)[0];
            && now - windowMs < oldest
            && (forall i | 0 <= i < |Recent(times, now, windowMs)| :: oldest <= Recent(times, now, windowMs)[i])
            && oldest in times
            && (later - windowMs < oldest <==> Recent(times, later, windowMs) == Recent(times, now, windowMs))
            && (later - windowMs >= oldest ==> |Recent(times, later, windowMs)| < |Recent(times, now, windowMs)|)
  {
    var n := |times| - 1;
    var front, last := times[..n], times[n];
    RecentMembers(times, now, windowMs);
    RecentMembers(front, now, windowMs);
    if Recent(front, now, windowMs) == [] {
      RecentShrinks(front, now, later, windowMs);
    } else {
      OldestLeaves(front, now, later, windowMs);
      var oldest := Recent(front, now, windowMs)[0];
      assert oldest in front;
      assert oldest <= last;
    }
  }

  predicate AllowedAt(calls: seq<int>, o: Options, now: int) {
    |Recent(Accepted(calls, o), now, o.windowMs)| < o.max
  }

  /** A denial, in terms of everything accepted: the window is full, and its oldest call decides the wait. */
  lemma DeniedWhenFull(calls: seq<int>, o: Options, now: int)
    requires Ordered(calls + [now]) && o.max >= 1
    requires Check(Kept(calls, o), now, o).1.Denied?
    ensures var recent := Recent(Accepted(calls, o), now, o.windowMs);
            && |recent| == o.max
            && Check(Kept(calls, o), now, o).1 == Denied(Some(RetryAfter(recent[0], now, o.windowMs)))
    ensures Ordered(Accepted(calls, o))
  {
    DeniedExactly(calls, o, now);
    KeptIsEnough(calls, o, now);
    BeforeNow(calls, o, now);
  }

  /** The least number of whole seconds, at least one, after which a call is allowed. */
  ghost predicate LeastWait(calls: seq<int>, o: Options, now: int, wait: int) {
    && wait >= 1 && AllowedAt(calls, o, now + 1000 * wait)
    && forall s | 0 <= s < wait :: !AllowedAt(calls, o, now + 1000 * s)
  }

  /**
   retryAfter is exact: with no other call accepted meanwhile, the next call is allowed that
   many whole seconds later, and not one whole second earlier.
   */
  lemma RetryAfterIsLeast(calls: seq<int>, o: Options, now: int)
    requires Ordered(calls + [now]) && o.max >= 1
    requires Check(Kept(calls, o), now, o).1.Denied?
    ensures Check(Kept(calls, o), now, o).1.retryAfter.Some?
    ensures LeastWait(calls, o, now, Check(Kept(calls, o), now, o).1.retryAfter.value)
  {
    DeniedWhenFull(calls, o, now);
    FullWindowOpens(calls, o, now);
  }

  lemma FullWindowOpens(calls: seq<int>, o: Options, now: int)
    requires Ordered(Accepted(calls, o)) && o.max >= 1
    requires |Recent(Accepted(calls, o), now, o.windowMs)| == o.max
    ensures LeastWait(calls, o, now, RetryAfter(Recent(Accepted(calls, o), now, o.windowMs)[0], now, o.windowMs))
  {
    WaitIsLeast(Accepted(calls, o), now, o);
  }

  lemma WaitIsLeast(all: seq<int>, now: int, o: Options)
    requires Ordered(all) && o.max >= 1 && |Recent(all, now, o.windowMs)| == o.max
    ensures var wait := RetryAfter(Recent(all, now, o.windowMs)[0], now, o.windowMs);
            && wait >= 1 && |Recent(all, now + 1000 * wait, o.windowMs)| < o.max
            && forall s | 0 <= s < wait :: |Recent(all, now + 1000 * s, o.windowMs)| >= o.max
  {
    var oldest := Recent(all, now, o.windowMs)[0];
    var wait := RetryAfter(oldest, now, o.windowMs);
    OldestLeaves(all, now, now, o.windowMs);
    CeilIsLeast(o.windowMs - (now - oldest));
    OldestLeaves(all, now, now + 1000 * wait, o.windowMs);
    forall s | 0 <= s < wait ensures |Recent(all, now + 1000 * s, o.windowMs)| >= o.max {
      OldestLeaves(all, now, now + 1000 * s, o.windowMs);
    }
  }

  lemma CeilIsLeast(n: int)
    requires n >= 1
    ensures var s := CeilSeconds(n); s >= 1 && 1000 * (s - 1) < n <= 1000 * s
  {
  }

  // ── Many keys at once ───────────────────────────────────────

  datatype Request = Request(ip: string, options: Options, now: int)

  /** The limiter's lists, by namespace and address. */
  type Lists = map<(string, string), seq<int>>

  function ListOf(lists: Lists, namespace: string, ip: string): seq<int> {
    if (namespace, ip) in lists then lists[(namespace, ip)] else []
  }

  function Serve(lists: Lists, r: Request): (Lists, Result) {
    var (kept, answer) := Check(ListOf(lists, Namespace(r.options), r.ip), r.now, r.options);
    (lists[(Namespace(r.options), r.ip) := kept], answer)
  }

  function Served(requests: seq<Request>): Lists {
    if requests == [] then map[] else Serve(Served(requests[..|requests| - 1]), requests[|requests| - 1]).0
  }

  predicate Unnamed(key: Option<string>) {
    key.None? || key.value == "" || key.value == "default"
  }

  /** One limit: the same address and the same key, the unnamed ones being all the same. */
  predicate SameLimit(q: Request, r: Request) {
    q.ip == r.ip && (q.options.key == r.options.key || (Unnamed(q.options.key) && Unnamed(r.options.key)))
  }

  /** When the requests under the same limit came. */
  function TimesOf(requests: seq<Request>, r: Request): seq<int> {
    if requests == [] then []
    else
      var front, q := TimesOf(requests[..|requests| - 1], r), requests[|requests| - 1];
      if SameLimit(q, r) then front + [q.now] else front
  }

  /** Two requests share a list exactly when they are under the same limit. */
  lemma ListsAreSeparate(q: Request, r: Request)
    ensures (Namespace(q.options), q.ip) == (Namespace(r.options), r.ip) <==> SameLimit(q, r)
  {
  }

  /**
   However requests under different limits interleave, each is answered as if the limiter
   had served only those under its own.
   */
  lemma {:induction false} LimitsAreIndependent(requests: seq<Request>, r: Request)
    requires forall i | 0 <= i < |requests| && SameLimit(requests[i], r) ::
               requests[i].options.max == r.options.max && requests[i].options.windowMs == r.options.windowMs
    ensures ListOf(Served(requests), Namespace(r.options), r.ip) == Kept(TimesOf(requests, r), r.options)
    ensures Serve(Served(requests), r).1 == Check(Kept(TimesOf(requests, r), r.options), r.now, r.options).1
  {
    if requests != [] {
      var n := |requests| - 1;
      var q := requests[n];
      LimitsAreIndependent(requests[..n], r);
      ListsAreSeparate(q, r);
      if SameLimit(q, r) {
        var times := TimesOf(requests[..n], r);
        assert (times + [q.now])[..|times|] == times;
      }
    }
  }
}
