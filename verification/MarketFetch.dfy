/**
 Deduplicated market-data fetches (fetchWithDedup in apps/web/lib/coingeckoCache.ts), an
 instance of the single-flight table keyed by URL.
 */
module MarketFetch {
  import opened Wrappers
  import opened SingleFlight

  const COINGECKO_PREFIX := "https://api.coingecko.com/api/v3/"

  /** Calls to the upstream go through the server's proxy. */
  function FetchUrl(url: string): string {
    if COINGECKO_PREFIX <= url then "/api/market/" + url[|COINGECKO_PREFIX|..] else url
  }

  /** A call to the upstream goes to the proxy under the same path, and no other call is rerouted. */
  lemma ProxiesExactly(url: string, path: string)
    ensures FetchUrl("https://api.coingecko.com/api/v3/" + path) == "/api/market/" + path
    ensures (forall rest :: url != "https://api.coingecko.com/api/v3/" + rest) ==> FetchUrl(url) == url
  {
    var upstream := "https://api.coingecko.com/api/v3/";
    assert (upstream + path)[|upstream|..] == path;
    if upstream <= url {
      assert url == upstream + url[|upstream|..];
    }
  }

  /** What the fetch comes to: its JSON, or a throw (a status that is not ok, or none at all). */
  datatype Response<T> = Json(data: T) | Threw(status: Option<nat>)

  type Fetches<T> = Table<string, string, Response<T>>

  class Inflight<T> {
    var inflight: map<string, nat>
    var fetches: seq<Flight<string, string, Response<T>>>
    var callers: seq<Call<Response<T>>>

    function View(): Fetches<T>
      reads this
    {
      Table(fetches, inflight, callers)
    }

    constructor ()
      ensures View() == Empty()
    {
      inflight, fetches, callers := map[], [], [];
    }

    /** A request leaves the browser only when the URL has none pending. */
    method FetchWithDedup(url: string) returns (request: Option<string>)
      modifies this
      ensures View() == Ask(old(View()), url, FetchUrl(url))
      ensures request == if url in old(inflight) then None else Some(FetchUrl(url))
    {
      if url in inflight {
        callers := callers + [Waiting(inflight[url])];
        return None;
      }
      var p := |fetches|;
      request := Some(FetchUrl(url));
      fetches := fetches + [Flight(url, request.value, None, false)];
      inflight := inflight[url := p];
      callers := callers + [Waiting(p)];
    }

    /** The fetch settles; `finally` empties the slot before any caller is answered. */
    method Settle(p: nat, response: Response<T>)
      requires Running(View(), p) && !fetches[p].released
      modifies this
      ensures View() == Release(End(old(View()), p, response), p)
    {
      fetches := fetches[p := fetches[p].(outcome := Some(response))];
      inflight := inflight - {fetches[p].key};
      fetches := fetches[p := fetches[p].(released := true)];
    }
  }

  // ── Runs ────────────────────────────────────────────────────

  datatype Step<T> = Fetch(url: string) | Settles(request: nat, response: Response<T>) | Answered(call: nat)

  predicate Possible<T>(t: Fetches<T>, step: Step<T>) {
    match step
    case Fetch(_) => true
    case Settles(p, _) => Running(t, p) && !t.flights[p].released
    case Answered(call) => Answerable(t, call)
  }

  function Next<T>(t: Fetches<T>, step: Step<T>): Fetches<T>
    requires Possible(t, step)
  {
    match step
    case Fetch(url) => Ask(t, url, FetchUrl(url))
    case Settles(p, response) => Release(End(t, p, response), p)
    case Answered(call) => Answer(t, call)
  }

  predicate IsPage<T>(t: Fetches<T>, steps: seq<Step<T>>)
    decreases |steps|
  {
    steps == [] || (Possible(t, steps[0]) && IsPage(Next(t, steps[0]), steps[1..]))
  }

  function Then<T>(t: Fetches<T>, steps: seq<Step<T>>): Fetches<T>
    requires IsPage(t, steps)
    decreases |steps|
  {
    if steps == [] then t else Then(Next(t, steps[0]), steps[1..])
  }

  /** A request is in the table or settled, never both. */
  ghost predicate Prompt<T>(t: Fetches<T>) {
    Sound(t) && forall f | 0 <= f < |t.flights| :: t.flights[f].outcome.Some? <==> t.flights[f].released
  }

  lemma StepKeepsPrompt<T>(t: Fetches<T>, step: Step<T>)
    requires Prompt(t) && Possible(t, step)
    ensures Prompt(Next(t, step))
  {
    match step
    case Fetch(url) => AskSound(t, url, FetchUrl(url));
    case Settles(p, response) =>
      EndSound(t, p, response);
      ReleaseSound(End(t, p, response), p);
    case Answered(call) => AnswerSound(t, call);
  }

  lemma {:induction false} PageKeepsPrompt<T>(t: Fetches<T>, steps: seq<Step<T>>)
    requires Prompt(t) && IsPage(t, steps)
    ensures Prompt(Then(t, steps))
    decreases |steps|
  {
    if steps != [] {
      StepKeepsPrompt(t, steps[0]);
      PageKeepsPrompt(Next(t, steps[0]), steps[1..]);
    }
  }

  /**
   Whatever a page fetches and however the fetches settle: a URL is in the table exactly
   while a request for it is pending, there is at most one such request, and callers of one request were answered alike.
   */
  lemma PendingExactly<T>(steps: seq<Step<T>>, url: string)
    requires IsPage(Empty(), steps)
    ensures var t := Then(Empty(), steps);
            && (url in t.slots <==> exists f: nat :: Running(t, f) && t.flights[f].key == url)
            && (forall f: nat, g: nat |
                  Running(t, f) && Running(t, g) && t.flights[f].key == t.flights[g].key :: f == g)
            && CallsSound(t)
  {
    PageKeepsPrompt<T>(Empty(), steps);
    var t := Then(Empty(), steps);
    if url in t.slots {
      assert Running(t, t.slots[url]);
    }
  }
}
