/**
 Wallet sessions (apps/web/lib/walletAuth.ts): one signature popup and one session exchange
 per address at a time, a session cache in front, and the backend that accepts only a
 signature over the session's own message
 (services/backend/app/api/wallet_session_routes.py). Clears and address switches are absent.
 */
module WalletAuth {
  import opened Wrappers
  import opened SingleFlight

  /** What a wallet is asked to sign; a session's message carries its own fresh nonce. */
  datatype Message = ForSession(nonce: nat) | ForOperation(text: string)

  datatype Signature = Signed(message: Message) | Refused

  datatype Session = Session(id: string, expiresAt: int)

  /** An exchange: when it started, and the signature flight it awaits. */
  datatype Exchange = Exchange(start: int, signature: nat)

  datatype Outcome = Opened(session: Session) | Failed

  datatype Wallet = Wallet(
    now: int,
    signing: Table<string, Message, Signature>,
    opening: Table<string, Exchange, Outcome>,
    cache: map<string, Session>)

  function Start(now: int): Wallet {
    Wallet(now, Empty(), Empty(), map[])
  }

  predicate CacheAnswers(w: Wallet, key: string) {
    key in w.cache && w.now < w.cache[key].expiresAt
  }

  /** signOnce: whoever asks joins the signature pending for the address, whatever its message. */
  function SignOnce(w: Wallet, key: string, m: Message): Wallet {
    w.(signing := Ask(w.signing, key, m))
  }

  /** ensureSession up to its first await; exchanges are numbered, and so are their nonces. */
  function EnsureSession(w: Wallet, key: string): Wallet {
    if CacheAnswers(w, key) then w
    else
      var exchange := Exchange(w.now, FlightOf(w.signing, key));
      var w' := if key in w.opening.slots then w else SignOnce(w, key, ForSession(|w.opening.flights|));
      w'.(opening := Ask(w.opening, key, exchange))
  }

  /** The exchange settles; a success is cached first. */
  function Exchanged(w: Wallet, f: nat, outcome: Outcome): Wallet
    requires Running(w.opening, f)
  {
    var w' := w.(opening := End(w.opening, f, outcome));
    if outcome.Opened? then w'.(cache := w.cache[w.opening.flights[f].key := outcome.session]) else w'
  }

  // ── The module's maps ───────────────────────────────────────

  class Maps {
    var sessionMap: map<string, Session>
    var inflightSessionMap: map<string, nat>
    var signingPromiseMap: map<string, nat>
    var exchanges: seq<Flight<string, Exchange, Outcome>>
    var sessionCalls: seq<Call<Outcome>>
    var signatures: seq<Flight<string, Message, Signature>>
    var signatureCalls: seq<Call<Signature>>

    function View(now: int): Wallet
      reads this
    {
      Wallet(now, Table(signatures, signingPromiseMap, signatureCalls),
             Table(exchanges, inflightSessionMap, sessionCalls), sessionMap)
    }

    constructor ()
      ensures forall now :: View(now) == Start(now)
    {
      sessionMap, inflightSessionMap, signingPromiseMap := map[], map[], map[];
      exchanges, sessionCalls, signatures, signatureCalls := [], [], [], [];
    }

    method SignOnceStart(key: string, m: Message, now: int) returns (flight: nat)
      modifies this
      ensures View(now) == SignOnce(old(View(now)), key, m)
      ensures flight == FlightOf(old(View(now)).signing, key)
    {
      if key in signingPromiseMap {
        flight := signingPromiseMap[key];
      } else {
        flight := |signatures|;
        signatures := signatures + [Flight(key, m, None, false)];
        signingPromiseMap := signingPromiseMap[key := flight];
      }
      signatureCalls := signatureCalls + [Waiting(flight)];
    }

    /** None: a flight was joined or started. */
    method EnsureSessionStart(key: string, now: int) returns (cached: Option<Session>)
      modifies this
      ensures View(now) == EnsureSession(old(View(now)), key)
      ensures cached.Some? <==> key in old(sessionMap) && now < old(sessionMap)[key].expiresAt
      ensures cached.Some? ==> cached.value == old(sessionMap)[key]
    {
      if key in sessionMap && now < sessionMap[key].expiresAt {
        return Some(sessionMap[key]);
      }
      cached := None;
      if key in inflightSessionMap {
        sessionCalls := sessionCalls + [Waiting(inflightSessionMap[key])];
        return;
      }
      var f := |exchanges|;
      var signature := SignOnceStart(key, ForSession(f), now);
      exchanges := exchanges + [Flight(key, Exchange(now, signature), None, false)];
      inflightSessionMap := inflightSessionMap[key := f];
      sessionCalls := sessionCalls + [Waiting(f)];
    }

    method ExchangeSettled(f: nat, outcome: Outcome, now: int)
      requires Running(View(now).opening, f)
      modifies this
      ensures View(now) == Exchanged(old(View(now)), f, outcome)
    {
      if outcome.Opened? {
        sessionMap := sessionMap[exchanges[f].key := outcome.session];
      }
      exchanges := exchanges[f := exchanges[f].(outcome := Some(outcome))];
    }

    /** The `finally` of the caller that started the exchange. */
    method ExchangeReleased(f: nat, now: int)
      requires Releasable(View(now).opening, f)
      modifies this
      ensures var old' := old(View(now)); View(now) == old'.(opening := Release(old'.opening, f))
    {
      inflightSessionMap := inflightSessionMap - {exchanges[f].key};
      exchanges := exchanges[f := exchanges[f].(released := true)];
    }
  }

  // ── Runs ────────────────────────────────────────────────────

  datatype Step =
    | Sign(key: string, text: string)
    | Ensure(key: string)
    | SignatureEnds(flight: nat, signature: Signature)
    | SignatureReleases(flight: nat)
    | SignatureAnswers(call: nat)
    | ExchangeEnds(flight: nat, outcome: Outcome)
    | ExchangeReleases(flight: nat)
    | ExchangeAnswers(call: nat)
    | Elapse(ms: nat)

  predicate SignatureIsIn(w: Wallet, f: nat)
    requires f < |w.opening.flights|
  {
    var s := w.opening.flights[f].what.signature;
    s < |w.signing.flights| && w.signing.flights[s].outcome.Some?
  }

  /** The message the exchange's signature is over. */
  function SignedFor(w: Wallet, f: nat): Option<Message>
    requires f < |w.opening.flights| && SignatureIsIn(w, f)
  {
    match w.signing.flights[w.opening.flights[f].what.signature].outcome.value
    case Signed(m) => Some(m)
    case Refused => None
  }

  predicate Enabled(w: Wallet, step: Step) {
    match step
    case Sign(_, _) => true
    case Ensure(_) => true
    case SignatureEnds(f, signature) =>
      Running(w.signing, f) && (signature == Refused || signature == Signed(w.signing.flights[f].what))
    case SignatureReleases(f) => Releasable(w.signing, f)
    case SignatureAnswers(call) => Answerable(w.signing, call)
    case ExchangeEnds(f, outcome) =>
      // the backend recovers the signer from the exchange's own message
      Running(w.opening, f) && SignatureIsIn(w, f) && (outcome.Opened? ==> SignedFor(w, f) == Some(ForSession(f)))
    case ExchangeReleases(f) => Releasable(w.opening, f)
    case ExchangeAnswers(call) => Answerable(w.opening, call)
    case Elapse(_) => true
  }

  function Next(w: Wallet, step: Step): Wallet
    requires Enabled(w, step)
  {
    match step
    case Sign(key, text) => SignOnce(w, key, ForOperation(text))
    case Ensure(key) => EnsureSession(w, key)
    case SignatureEnds(f, signature) => w.(signing := End(w.signing, f, signature))
    case SignatureReleases(f) => w.(signing := Release(w.signing, f))
    case SignatureAnswers(call) => w.(signing := Answer(w.signing, call))
    case ExchangeEnds(f, outcome) => Exchanged(w, f, outcome)
    case ExchangeReleases(f) => w.(opening := Release(w.opening, f))
    case ExchangeAnswers(call) => w.(opening := Answer(w.opening, call))
    case Elapse(ms) => w.(now := w.now + ms)
  }

  predicate IsRun(w: Wallet, steps: seq<Step>)
    decreases |steps|
  {
    steps == [] || (Enabled(w, steps[0]) && IsRun(Next(w, steps[0]), steps[1..]))
  }

  function After(w: Wallet, steps: seq<Step>): Wallet
    requires IsRun(w, steps)
    decreases |steps|
  {
    if steps == [] then w else After(Next(w, steps[0]), steps[1..])
  }

  // ── Sessions ────────────────────────────────────────────────

  predicate Succeeded(w: Wallet, f: nat) {
    f < |w.opening.flights| && w.opening.flights[f].outcome.Some? && w.opening.flights[f].outcome.value.Opened?
  }

  function SessionOf(w: Wallet, f: nat): Session
    requires Succeeded(w, f)
  {
    w.opening.flights[f].outcome.value.session
  }

  function KeyOf(w: Wallet, f: nat): string
    requires f < |w.opening.flights|
  {
    w.opening.flights[f].key
  }

  function StartOf(w: Wallet, f: nat): int
    requires f < |w.opening.flights|
  {
    w.opening.flights[f].what.start
  }

  ghost predicate StartsInOrder(w: Wallet) {
    && (forall f | 0 <= f < |w.opening.flights| :: StartOf(w, f) <= w.now)
    && (forall f, g | 0 <= f < g < |w.opening.flights| :: StartOf(w, f) <= StartOf(w, g))
  }

  ghost predicate LatestFor(w: Wallet, h: nat, key: string) {
    Succeeded(w, h) && KeyOf(w, h) == key && forall f: nat | Succeeded(w, f) && KeyOf(w, f) == key :: f <= h
  }

  /** The cache holds the session of the latest success, from the moment it succeeds. */
  ghost predicate CacheIsLatest(w: Wallet) {
    && (forall key | key in w.cache :: exists h: nat :: LatestFor(w, h, key) && SessionOf(w, h) == w.cache[key])
    && (forall f: nat | Succeeded(w, f) :: KeyOf(w, f) in w.cache)
  }

  /** No exchange of an address started while a session obtained before it was alive. */
  ghost predicate NoneTooEarly(w: Wallet) {
    forall f: nat, g: nat | Succeeded(w, f) && f < g < |w.opening.flights| && KeyOf(w, g) == KeyOf(w, f) ::
      SessionOf(w, f).expiresAt <= StartOf(w, g)
  }

  ghost predicate SessionsSound(w: Wallet) {
    Sound(w.opening) && StartsInOrder(w) && CacheIsLatest(w) && NoneTooEarly(w)
  }

  /** The exchanges of w are in w' as they were: same addresses, starts and outcomes. */
  ghost predicate Kept(w: Wallet, w': Wallet) {
    && |w.opening.flights| <= |w'.opening.flights|
    && forall f | 0 <= f < |w.opening.flights| :: KeptAt(w, w', f)
  }

  predicate KeptAt(w: Wallet, w': Wallet, f: nat)
    requires f < |w.opening.flights| <= |w'.opening.flights|
  {
    && KeyOf(w', f) == KeyOf(w, f) && StartOf(w', f) == StartOf(w, f)
    && w'.opening.flights[f].outcome == w.opening.flights[f].outcome
  }

  lemma KeptFacts(w: Wallet, w': Wallet)
    requires Kept(w, w')
    ensures forall f: nat | f < |w.opening.flights| :: KeyOf(w', f) == KeyOf(w, f)
    ensures forall f: nat | f < |w.opening.flights| :: StartOf(w', f) == StartOf(w, f)
    ensures forall f: nat | f < |w.opening.flights| :: Succeeded(w', f) <==> Succeeded(w, f)
    ensures forall f: nat | f < |w.opening.flights| && Succeeded(w', f) :: SessionOf(w', f) == SessionOf(w, f)
  {
    forall f: nat | f < |w.opening.flights|
      ensures KeyOf(w', f) == KeyOf(w, f) && StartOf(w', f) == StartOf(w, f)
      ensures Succeeded(w', f) <==> Succeeded(w, f)
      ensures Succeeded(w', f) ==> SessionOf(w', f) == SessionOf(w, f)
    {
      assert KeptAt(w, w', f);
    }
  }

  lemma LatestKept(w: Wallet, w': Wallet, key: string)
    requires Kept(w, w') && key in w.cache && key in w'.cache && w'.cache[key] == w.cache[key]
    requires forall f: nat | Succeeded(w', f) && KeyOf(w', f) == key :: f < |w.opening.flights|
    requires exists h: nat :: LatestFor(w, h, key) && SessionOf(w, h) == w.cache[key]
    ensures exists h: nat :: LatestFor(w', h, key) && SessionOf(w', h) == w'.cache[key]
  {
    var h: nat :| LatestFor(w, h, key) && SessionOf(w, h) == w.cache[key];
    KeptFacts(w, w');
    assert LatestFor(w', h, key);
  }

  /** Nothing started, nothing settled. */
  lemma QuietStep(w: Wallet, w': Wallet)
    requires SessionsSound(w) && Sound(w'.opening) && Kept(w, w')
    requires w'.cache == w.cache && w'.now >= w.now && |w'.opening.flights| == |w.opening.flights|
    ensures SessionsSound(w')
  {
    KeptFacts(w, w');
    forall key | key in w'.cache ensures exists h: nat :: LatestFor(w', h, key) && SessionOf(w', h) == w'.cache[key] {
      LatestKept(w, w', key);
    }
  }

  lemma CachedOutlasts(w: Wallet, f: nat)
    requires SessionsSound(w) && Succeeded(w, f)
    ensures KeyOf(w, f) in w.cache
    ensures w.cache[KeyOf(w, f)].expiresAt <= w.now ==> SessionOf(w, f).expiresAt <= w.now
  {
    var key := KeyOf(w, f);
    var h: nat :| LatestFor(w, h, key) && SessionOf(w, h) == w.cache[key];
    assert f <= h;
    assert StartOf(w, h) <= w.now;
  }

  /** A new exchange finds every earlier session of its address expired. */
  lemma NewExchangeSound(w: Wallet, key: string)
    requires SessionsSound(w) && !CacheAnswers(w, key) && key !in w.opening.slots
    ensures SessionsSound(EnsureSession(w, key))
  {
    var w' := EnsureSession(w, key);
    var n := |w.opening.flights|;
    AskSound(w.opening, key, Exchange(w.now, FlightOf(w.signing, key)));
    assert KeyOf(w', n) == key && StartOf(w', n) == w.now && !Succeeded(w', n);
    KeptFacts(w, w');
    forall k | k in w'.cache ensures exists h: nat :: LatestFor(w', h, k) && SessionOf(w', h) == w'.cache[k] {
      LatestKept(w, w', k);
    }
    forall f: nat | Succeeded(w', f) && KeyOf(w', f) == key ensures SessionOf(w', f).expiresAt <= w.now {
      CachedOutlasts(w, f);
    }
    NewestIsNotEarly(w, w');
  }

  lemma NewestIsNotEarly(w: Wallet, w': Wallet)
    requires NoneTooEarly(w) && StartsInOrder(w) && Kept(w, w') && w'.now == w.now
    requires |w'.opening.flights| == |w.opening.flights| + 1 && StartOf(w', |w.opening.flights|) == w.now
    requires var n := |w.opening.flights|;
             !Succeeded(w', n)
             && forall f: nat | Succeeded(w', f) && KeyOf(w', f) == KeyOf(w', n) :: SessionOf(w', f).expiresAt <= w.now
    ensures NoneTooEarly(w') && StartsInOrder(w')
  {
    KeptFacts(w, w');
  }

  /** What settling exchange f changes: its own outcome. */
  lemma ExchangedFacts(w: Wallet, f: nat, outcome: Outcome)
    requires Running(w.opening, f)
    ensures var w' := Exchanged(w, f, outcome);
            && |w'.opening.flights| == |w.opening.flights|
            && (forall g: nat | g < |w.opening.flights| :: KeyOf(w', g) == KeyOf(w, g))
            && (forall g: nat | g < |w.opening.flights| :: StartOf(w', g) == StartOf(w, g))
            && (forall g: nat :: Succeeded(w', g) <==> if g == f then outcome.Opened? else Succeeded(w, g))
            && (forall g: nat | Succeeded(w', g) && g != f :: SessionOf(w', g) == SessionOf(w, g))
  {
  }

  lemma RunningIsLast(w: Wallet, f: nat)
    requires Sound(w.opening) && Running(w.opening, f)
    ensures forall g: nat | f < g < |w.opening.flights| :: KeyOf(w, g) != KeyOf(w, f)
  {
  }

  /** An exchange that settles is the latest of its address. */
  lemma ExchangedSound(w: Wallet, f: nat, outcome: Outcome)
    requires SessionsSound(w) && Running(w.opening, f)
    ensures SessionsSound(Exchanged(w, f, outcome))
  {
    var w' := Exchanged(w, f, outcome);
    EndSound(w.opening, f, outcome);
    forall k | k in w'.cache ensures exists h: nat :: LatestFor(w', h, k) && SessionOf(w', h) == w'.cache[k] {
      ExchangedLatest(w, f, outcome, k);
    }
    ExchangedInTime(w, f, outcome);
  }

  lemma ExchangedInTime(w: Wallet, f: nat, outcome: Outcome)
    requires SessionsSound(w) && Running(w.opening, f)
    ensures var w' := Exchanged(w, f, outcome);
            StartsInOrder(w') && NoneTooEarly(w') && forall g: nat | Succeeded(w', g) :: KeyOf(w', g) in w'.cache
  {
    ExchangedFacts(w, f, outcome);
    RunningIsLast(w, f);
  }

  lemma ExchangedLatest(w: Wallet, f: nat, outcome: Outcome, key: string)
    requires SessionsSound(w) && Running(w.opening, f) && key in Exchanged(w, f, outcome).cache
    ensures var w' := Exchanged(w, f, outcome);
            exists h: nat :: LatestFor(w', h, key) && SessionOf(w', h) == w'.cache[key]
  {
    var w' := Exchanged(w, f, outcome);
    ExchangedFacts(w, f, outcome);
    if key == KeyOf(w, f) && outcome.Opened? {
      RunningIsLast(w, f);
      assert LatestFor(w', f, key);
    } else {
      var h: nat :| LatestFor(w, h, key) && SessionOf(w, h) == w.cache[key];
      assert LatestFor(w', h, key);
    }
  }

  lemma StepKeepsSessions(w: Wallet, step: Step)
    requires SessionsSound(w) && Enabled(w, step)
    ensures SessionsSound(Next(w, step))
  {
    match step
    case Ensure(key) =>
      if !CacheAnswers(w, key) {
        if key in w.opening.slots {
          AskSound(w.opening, key, Exchange(w.now, FlightOf(w.signing, key)));
          QuietStep(w, Next(w, step));
        } else {
          NewExchangeSound(w, key);
        }
      }
    case ExchangeEnds(f, outcome) => ExchangedSound(w, f, outcome);
    case ExchangeReleases(f) =>
      ReleaseSound(w.opening, f);
      QuietStep(w, Next(w, step));
    case ExchangeAnswers(call) =>
      AnswerSound(w.opening, call);
      QuietStep(w, Next(w, step));
    case _ => QuietStep(w, Next(w, step));
  }

  lemma {:induction false} RunKeepsSessions(w: Wallet, steps: seq<Step>)
    requires SessionsSound(w) && IsRun(w, steps)
    ensures SessionsSound(After(w, steps))
    decreases |steps|
  {
    if steps != [] {
      StepKeepsSessions(w, steps[0]);
      RunKeepsSessions(Next(w, steps[0]), steps[1..]);
    }
  }

  /**
   In every interleaving an address has at most one exchange under way, callers that joined
   it are answered alike, a session is cached from the moment its exchange succeeds (so
   before the slot empties), and no exchange starts while an earlier session is alive.
   */
  lemma SessionsAreShared(now: int, steps: seq<Step>)
    requires IsRun(Start(now), steps)
    ensures var w := After(Start(now), steps);
            && (forall f: nat, g: nat |
                  Running(w.opening, f) && Running(w.opening, g) && KeyOf(w, f) == KeyOf(w, g) :: f == g)
            && CallsSound(w.opening) && CacheIsLatest(w) && NoneTooEarly(w)
  {
    RunKeepsSessions(Start(now), steps);
  }

  // ── Signatures ──────────────────────────────────────────────

  /** Each exchange awaits a signature flight of its address; a session's message is used once. */
  ghost predicate SignaturesSound(w: Wallet) {
    && Sound(w.signing)
    && (forall f | 0 <= f < |w.opening.flights| :: w.opening.flights[f].what.signature < |w.signing.flights|)
    && (forall s | 0 <= s < |w.signing.flights| && w.signing.flights[s].what.ForSession? ::
          w.signing.flights[s].what.nonce < |w.opening.flights|)
    && (forall s | 0 <= s < |w.signing.flights| && w.signing.flights[s].outcome.Some? ::
          w.signing.flights[s].outcome.value in {Refused, Signed(w.signing.flights[s].what)})
    && (forall f: nat | Succeeded(w, f) :: SignsItself(w, f))
  }

  /** The exchange's signature is over its own message. */
  predicate SignsItself(w: Wallet, f: nat) {
    && f < |w.opening.flights| && w.opening.flights[f].what.signature < |w.signing.flights|
    && w.signing.flights[w.opening.flights[f].what.signature].what == ForSession(f)
  }

  /** The signature flights of w are in w', signing what they signed. */
  ghost predicate SigningKept(w: Wallet, w': Wallet) {
    && |w.signing.flights| <= |w'.signing.flights| && |w.opening.flights| <= |w'.opening.flights|
    && (forall s | 0 <= s < |w.signing.flights| :: w'.signing.flights[s].what == w.signing.flights[s].what)
    && (forall f | 0 <= f < |w.opening.flights| :: w'.opening.flights[f].what == w.opening.flights[f].what)
  }

  lemma EnsureKeepsSigning(w: Wallet, key: string)
    requires SignaturesSound(w)
    ensures SigningKept(w, EnsureSession(w, key))
  {
  }

  lemma EnsureKeepsSignatures(w: Wallet, key: string)
    requires SignaturesSound(w)
    ensures SignaturesSound(EnsureSession(w, key)) && SigningKept(w, EnsureSession(w, key))
  {
    if CacheAnswers(w, key) {
    } else if key in w.opening.slots {
      var w' := EnsureSession(w, key);
      assert w'.signing == w.signing && w'.opening.flights == w.opening.flights;
      forall f: nat | Succeeded(w', f) ensures SignsItself(w', f) {
        assert Succeeded(w, f) && SignsItself(w, f);
      }
    } else {
      NewExchangeSigns(w, key);
    }
  }

  lemma NewExchangeSigns(w: Wallet, key: string)
    requires SignaturesSound(w) && !CacheAnswers(w, key) && key !in w.opening.slots
    ensures SignaturesSound(EnsureSession(w, key)) && SigningKept(w, EnsureSession(w, key))
  {
    AskSound(w.signing, key, ForSession(|w.opening.flights|));
    EnsureKeepsSigning(w, key);
    var w' := EnsureSession(w, key);
    forall f: nat | Succeeded(w', f) ensures SignsItself(w', f) {
      assert Succeeded(w, f) && SignsItself(w, f);
    }
  }

  lemma SigningKeepsSignatures(w: Wallet, step: Step)
    requires SignaturesSound(w) && Enabled(w, step)
    requires step.Sign? || step.SignatureEnds? || step.SignatureReleases? || step.SignatureAnswers?
    ensures SignaturesSound(Next(w, step)) && SigningKept(w, Next(w, step))
  {
    match step {
      case Sign(key, text) => AskSound(w.signing, key, ForOperation(text));
      case SignatureEnds(f, signature) => EndSound(w.signing, f, signature);
      case SignatureReleases(f) => ReleaseSound(w.signing, f);
      case SignatureAnswers(call) => AnswerSound(w.signing, call);
    }
    forall f: nat | Succeeded(Next(w, step), f) ensures SignsItself(Next(w, step), f) {
      assert Succeeded(w, f) && SignsItself(w, f);
    }
  }

  lemma OpeningKeepsSignatures(w: Wallet, step: Step)
    requires SignaturesSound(w) && Enabled(w, step)
    requires step.ExchangeEnds? || step.ExchangeReleases? || step.ExchangeAnswers? || step.Elapse?
    ensures SignaturesSound(Next(w, step)) && SigningKept(w, Next(w, step))
  {
    var w' := Next(w, step);
    forall f: nat | Succeeded(w', f) ensures SignsItself(w', f) {
      assert Succeeded(w, f) ==> SignsItself(w, f);
    }
  }

  lemma StepKeepsSignatures(w: Wallet, step: Step)
    requires SignaturesSound(w) && Enabled(w, step)
    ensures SignaturesSound(Next(w, step)) && SigningKept(w, Next(w, step))
    ensures forall f: nat | f < |w.opening.flights| :: SignsItself(Next(w, step), f) <==> SignsItself(w, f)
  {
    match step
    case Ensure(key) => EnsureKeepsSignatures(w, key);
    case ExchangeEnds(_, _) => OpeningKeepsSignatures(w, step);
    case ExchangeReleases(_) => OpeningKeepsSignatures(w, step);
    case ExchangeAnswers(_) => OpeningKeepsSignatures(w, step);
    case Elapse(_) => OpeningKeepsSignatures(w, step);
    case _ => SigningKeepsSignatures(w, step);
  }

  lemma {:induction false} RunKeepsSignatures(w: Wallet, steps: seq<Step>)
    requires SignaturesSound(w) && IsRun(w, steps)
    ensures SignaturesSound(After(w, steps))
    ensures forall f: nat | f < |w.opening.flights| :: SignsItself(After(w, steps), f) <==> SignsItself(w, f)
    decreases |steps|
  {
    if steps != [] {
      StepKeepsSignatures(w, steps[0]);
      RunKeepsSignatures(Next(w, steps[0]), steps[1..]);
    }
  }

  ghost predicate CanSucceed(w: Wallet, f: nat) {
    exists steps :: IsRun(w, steps) && Succeeded(After(w, steps), f)
  }

  lemma OwnSignatureNeeded(w: Wallet, key: string)
    requires SignaturesSound(w) && !CacheAnswers(w, key) && key !in w.opening.slots
    ensures CanSucceed(EnsureSession(w, key), |w.opening.flights|) <==> key !in w.signing.slots
  {
    var f := |w.opening.flights|;
    var w' := EnsureSession(w, key);
    StepKeepsSignatures(w, Ensure(key));
    assert SignsItself(w', f) <==> key !in w.signing.slots;
    if CanSucceed(w', f) {
      var steps :| IsRun(w', steps) && Succeeded(After(w', steps), f);
      RunKeepsSignatures(w', steps);
    }
    if key !in w.signing.slots {
      OwnSignatureSucceeds(w', f);
    }
  }

  /**
   After any run, the exchange a caller starts can succeed exactly when no signature was
   pending for its address: otherwise signOnce hands it the signature of another message,
   and whatever happens afterwards the backend refuses it.
   */
  lemma ExchangeNeedsOwnSignature(now: int, steps: seq<Step>, key: string)
    requires IsRun(Start(now), steps)
    ensures var w := After(Start(now), steps);
            !CacheAnswers(w, key) && key !in w.opening.slots ==>
              (CanSucceed(EnsureSession(w, key), |w.opening.flights|) <==> key !in w.signing.slots)
  {
    RunKeepsSignatures(Start(now), steps);
    var w := After(Start(now), steps);
    if !CacheAnswers(w, key) && key !in w.opening.slots {
      OwnSignatureNeeded(w, key);
    }
  }

  lemma OwnSignatureSucceeds(w: Wallet, f: nat)
    requires SignsItself(w, f) && Running(w.opening, f)
    requires Running(w.signing, w.opening.flights[f].what.signature)
    ensures CanSucceed(w, f)
  {
    var s := w.opening.flights[f].what.signature;
    var first := SignatureEnds(s, Signed(ForSession(f)));
    var second := ExchangeEnds(f, Opened(Session("", 0)));
    var w1 := Next(w, first);
    var w2 := Next(w1, second);
    var steps := [first, second];
    assert steps[1..] == [second] && [second][1..] == [];
    assert IsRun(w2, []) && After(w2, []) == w2;
    assert IsRun(w1, [second]) && After(w1, [second]) == w2;
    assert IsRun(w, steps) && After(w, steps) == w2;
  }
}
