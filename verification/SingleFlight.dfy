/**
 The single-flight table, shared by the market-data fetch (apps/web/lib/coingeckoCache.ts)
 and by the wallet's signatures and sessions (apps/web/lib/walletAuth.ts): callers of a busy
 key join its flight, and the slot is emptied after the flight has settled.
 */
module SingleFlight {
  import opened Wrappers

  /** An operation on a key; `released` once its `finally` has emptied the slot. */
  datatype Flight<K, P, R> = Flight(key: K, what: P, outcome: Option<R>, released: bool)

  datatype Call<R> = Waiting(flight: nat) | Done(flight: nat, outcome: R)

  datatype Table<K, P, R> = Table(flights: seq<Flight<K, P, R>>, slots: map<K, nat>, calls: seq<Call<R>>)

  function Empty<K, P, R>(): Table<K, P, R> {
    Table([], map[], [])
  }

  /** The flight a caller of `key` gets: the slot's, or a new one. */
  function FlightOf<K, P, R>(t: Table<K, P, R>, key: K): nat {
    if key in t.slots then t.slots[key] else |t.flights|
  }

  function Ask<K, P, R>(t: Table<K, P, R>, key: K, what: P): Table<K, P, R> {
    if key in t.slots then t.(calls := t.calls + [Waiting(t.slots[key])])
    else
      Table(t.flights + [Flight(key, what, None, false)], t.slots[key := |t.flights|], t.calls + [Waiting(|t.flights|)])
  }

  predicate Running<K, P, R>(t: Table<K, P, R>, f: nat) {
    f < |t.flights| && t.flights[f].outcome.None?
  }

  function End<K, P, R>(t: Table<K, P, R>, f: nat, outcome: R): Table<K, P, R>
    requires Running(t, f)
  {
    t.(flights := t.flights[f := t.flights[f].(outcome := Some(outcome))])
  }

  predicate Releasable<K, P, R>(t: Table<K, P, R>, f: nat) {
    f < |t.flights| && t.flights[f].outcome.Some? && !t.flights[f].released
  }

  function Release<K, P, R>(t: Table<K, P, R>, f: nat): Table<K, P, R>
    requires Releasable(t, f)
  {
    t.(flights := t.flights[f := t.flights[f].(released := true)], slots := t.slots - {t.flights[f].key})
  }

  predicate Answerable<K, P, R>(t: Table<K, P, R>, call: nat) {
    && call < |t.calls| && t.calls[call].Waiting?
    && t.calls[call].flight < |t.flights| && t.flights[t.calls[call].flight].outcome.Some?
  }

  function Answer<K, P, R>(t: Table<K, P, R>, call: nat): Table<K, P, R>
    requires Answerable(t, call)
  {
    var f := t.calls[call].flight;
    t.(calls := t.calls[call := Done(f, t.flights[f].outcome.value)])
  }

  // ── What every table keeps ──────────────────────────────────

  /** Slots and unreleased flights are the same thing: each key has at most one. */
  ghost predicate SlotsSound<K, P, R>(t: Table<K, P, R>) {
    && (forall k | k in t.slots ::
          t.slots[k] < |t.flights| && t.flights[t.slots[k]].key == k && !t.flights[t.slots[k]].released)
    && (forall f | 0 <= f < |t.flights| && !t.flights[f].released ::
          t.flights[f].key in t.slots && t.slots[t.flights[f].key] == f)
    && (forall f | 0 <= f < |t.flights| && t.flights[f].released :: t.flights[f].outcome.Some?)
  }

  /** Flights of a key follow each other: an earlier one was released. */
  ghost predicate InTurn<K, P, R>(t: Table<K, P, R>) {
    forall f, g | 0 <= f < g < |t.flights| && t.flights[f].key == t.flights[g].key :: t.flights[f].released
  }

  /** Whoever was answered got the outcome of the flight it joined. */
  ghost predicate CallsSound<K, P, R>(t: Table<K, P, R>) {
    forall c | 0 <= c < |t.calls| ::
      && t.calls[c].flight < |t.flights|
      && (t.calls[c].Done? ==> t.flights[t.calls[c].flight].outcome == Some(t.calls[c].outcome))
  }

  ghost predicate Sound<K, P, R>(t: Table<K, P, R>) {
    SlotsSound(t) && InTurn(t) && CallsSound(t)
  }

  lemma AskSound<K, P, R>(t: Table<K, P, R>, key: K, what: P)
    requires Sound(t)
    ensures Sound(Ask(t, key, what))
  {
    if key !in t.slots {
      assert forall f | 0 <= f < |t.flights| && t.flights[f].key == key :: t.flights[f].released;
    }
  }

  lemma EndSound<K, P, R>(t: Table<K, P, R>, f: nat, outcome: R)
    requires Sound(t) && Running(t, f)
    ensures Sound(End(t, f, outcome))
  {
  }

  lemma ReleaseSound<K, P, R>(t: Table<K, P, R>, f: nat)
    requires Sound(t) && Releasable(t, f)
    ensures Sound(Release(t, f))
  {
    var t' := Release(t, f);
    forall g | 0 <= g < |t'.flights| && !t'.flights[g].released
      ensures t'.flights[g].key in t'.slots && t'.slots[t'.flights[g].key] == g
    {
      assert t'.flights[g] == t.flights[g] && g != f;
    }
  }

  lemma AnswerSound<K, P, R>(t: Table<K, P, R>, call: nat)
    requires Sound(t) && Answerable(t, call)
    ensures Sound(Answer(t, call))
  {
  }

  /** Answering a caller hands it the outcome of the flight it joined, and touches nobody else. */
  lemma AnswerGivesOutcome<K, P, R>(t: Table<K, P, R>, call: nat)
    requires Answerable(t, call)
    ensures var t', f := Answer(t, call), t.calls[call].flight;
            && t'.flights == t.flights && t'.slots == t.slots && |t'.calls| == |t.calls|
            && t.flights[f].outcome.Some? && t'.calls[call] == Done(f, t.flights[f].outcome.value)
            && forall c | 0 <= c < |t.calls| && c != call :: t'.calls[c] == t.calls[c]
  {
  }

  // ── Runs ────────────────────────────────────────────────────

  datatype Op<K, P, R> =
    | Asks(key: K, what: P)
    | Ends(flight: nat, outcome: R)
    | Releases(flight: nat)
    | Answers(call: nat)

  predicate Enabled<K, P, R>(t: Table<K, P, R>, op: Op<K, P, R>) {
    match op
    case Asks(_, _) => true
    case Ends(f, _) => Running(t, f)
    case Releases(f) => Releasable(t, f)
    case Answers(call) => Answerable(t, call)
  }

  function Do<K, P, R>(t: Table<K, P, R>, op: Op<K, P, R>): Table<K, P, R>
    requires Enabled(t, op)
  {
    match op
    case Asks(key, what) => Ask(t, key, what)
    case Ends(f, outcome) => End(t, f, outcome)
    case Releases(f) => Release(t, f)
    case Answers(call) => Answer(t, call)
  }

  predicate IsRun<K, P, R>(t: Table<K, P, R>, ops: seq<Op<K, P, R>>)
    decreases |ops|
  {
    ops == [] || (Enabled(t, ops[0]) && IsRun(Do(t, ops[0]), ops[1..]))
  }

  function After<K, P, R>(t: Table<K, P, R>, ops: seq<Op<K, P, R>>): Table<K, P, R>
    requires IsRun(t, ops)
    decreases |ops|
  {
    if ops == [] then t else After(Do(t, ops[0]), ops[1..])
  }

  /** What was joined stays joined, and what was answered stays answered. */
  ghost predicate CallsKept<K, P, R>(t: Table<K, P, R>, t': Table<K, P, R>) {
    && |t.calls| <= |t'.calls|
    && forall c | 0 <= c < |t.calls| ::
         t'.calls[c].flight == t.calls[c].flight && (t.calls[c].Done? ==> t'.calls[c] == t.calls[c])
  }

  lemma {:induction false} RunKeepsSound<K, P, R>(t: Table<K, P, R>, ops: seq<Op<K, P, R>>)
    requires Sound(t) && IsRun(t, ops)
    ensures Sound(After(t, ops)) && CallsKept(t, After(t, ops))
    decreases |ops|
  {
    if ops != [] {
      match ops[0] {
        case Asks(key, what) => AskSound(t, key, what);
        case Ends(f, outcome) => EndSound(t, f, outcome);
        case Releases(f) => ReleaseSound(t, f);
        case Answers(call) => AnswerSound(t, call);
      }
      RunKeepsSound(Do(t, ops[0]), ops[1..]);
    }
  }

  /**
   In every interleaving each key has at most one operation under way, the one in its slot,
   and two callers of the same flight that were answered were answered alike.
   */
  lemma OneFlightPerKey<K, P, R>(ops: seq<Op<K, P, R>>)
    requires IsRun(Empty(), ops)
    ensures var t := After(Empty(), ops);
            && (forall f: nat, g: nat |
                  Running(t, f) && Running(t, g) && t.flights[f].key == t.flights[g].key :: f == g)
            && (forall f: nat | Running(t, f) :: t.flights[f].key in t.slots && t.slots[t.flights[f].key] == f)
            && (forall c, d | 0 <= c < |t.calls| && 0 <= d < |t.calls| && t.calls[c].Done? && t.calls[d].Done? ::
                  t.calls[c].flight == t.calls[d].flight ==> t.calls[c].outcome == t.calls[d].outcome)
  {
    RunKeepsSound<K, P, R>(Empty(), ops);
  }
}
