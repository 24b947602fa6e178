/**
 Hand-off of confirmations to records that may not exist yet
 (apps/web/_archive/custodial-persistence/TransactionPersistence.tsx): a submission starts a
 create, a confirmation updates the created record or waits for it. `Store` holds the
 component's refs and what it has issued; class `Component` is the component.
 */
module TransactionPersistence {
  import opened Wrappers

  type ServerId = s: string | s != "" witness "0"

  datatype Patch = Patch(
    status: string,
    gasUsed: Option<nat>,
    gasPriceGwei: Option<string>,
    blockNumber: Option<nat>,
    confirmedAt: Option<string>)

  datatype Payload = Payload(chainId: int, txHash: string, details: string)

  datatype Submitted = Submitted(clientId: string, payload: Payload)

  datatype Confirmed = Confirmed(clientId: string, txHash: string, chainId: int, patch: Patch)

  /** A transaction of the server's list. */
  datatype Listed = Listed(id: ServerId, txHash: string, chainId: int)

  /** An update issued: its record and the confirmation whose patch it carries. */
  datatype Update = Update(id: ServerId, cause: Confirmed)

  datatype Stashed = Submission(payload: Payload) | Confirmation(txHash: string, chainId: int, patch: Patch)

  datatype Store = Store(
    authenticated: bool,
    txs: seq<Listed>,
    ids: map<string, ServerId>,
    pending: map<string, Confirmed>,
    creates: seq<Submitted>,
    updates: seq<Update>,
    stashed: seq<Stashed>)

  // ── The handlers ────────────────────────────────────────────

  predicate SameTx(t: Listed, lower: string -> string, e: Confirmed) {
    lower(t.txHash) == lower(e.txHash) && t.chainId == e.chainId
  }

  function FindTx(txs: seq<Listed>, lower: string -> string, e: Confirmed): Option<ServerId> {
    if txs == [] then None
    else if SameTx(txs[0], lower, e) then Some(txs[0].id)
    else FindTx(txs[1..], lower, e)
  }

  function RecordFor(s: Store, lower: string -> string, e: Confirmed): Option<ServerId> {
    if e.clientId in s.ids then Some(s.ids[e.clientId]) else FindTx(s.txs, lower, e)
  }

  function Submits(s: Store, e: Submitted): Store {
    if s.authenticated then s.(creates := s.creates + [e]) else s.(stashed := s.stashed + [Submission(e.payload)])
  }

  /** The rest of a submission once its create returned; None is a create that failed. */
  function Creates(s: Store, clientId: string, created: Option<ServerId>): Store {
    if created.None? then s
    else
      var s' := s.(ids := s.ids[clientId := created.value]);
      if clientId !in s.pending then s'
      else
        s'.(pending := s.pending - {clientId}, updates := s.updates + [Update(created.value, s.pending[clientId])])
  }

  function Confirms(s: Store, lower: string -> string, e: Confirmed): Store {
    if !s.authenticated then s.(stashed := s.stashed + [Confirmation(e.txHash, e.chainId, e.patch)])
    else
      var id := RecordFor(s, lower, e);
      if id.Some? then s.(updates := s.updates + [Update(id.value, e)])
      else s.(pending := s.pending[e.clientId := e])
  }

  class Component {
    const lower: string -> string
    var authenticated: bool
    var txs: seq<Listed>
    var clientIdMap: map<string, ServerId>
    var pendingConfirms: map<string, Confirmed>
    var creates: seq<Submitted>
    var updates: seq<Update>
    var stashed: seq<Stashed>

    function View(): Store
      reads this
    {
      Store(authenticated, txs, clientIdMap, pendingConfirms, creates, updates, stashed)
    }

    constructor (lower: string -> string, authenticated: bool, txs: seq<Listed>)
      ensures this.lower == lower && View() == Start(authenticated, txs)
    {
      this.lower, this.authenticated, this.txs := lower, authenticated, txs;
      clientIdMap, pendingConfirms, creates, updates, stashed := map[], map[], [], [], [];
    }

    method OnSubmitted(detail: Option<Submitted>)
      modifies this
      ensures View() == if detail.Some? then Submits(old(View()), detail.value) else old(View())
      ensures creates == old(creates) + (if detail.Some? && authenticated then [detail.value] else [])
      ensures stashed ==
                old(stashed) + (if detail.Some? && !authenticated then [Submission(detail.value.payload)] else [])
    {
      if detail.None? {
        return;
      }
      if authenticated {
        creates := creates + [detail.value];
      } else {
        stashed := stashed + [Submission(detail.value.payload)];
      }
    }

    method OnCreated(clientId: string, created: Option<ServerId>)
      modifies this
      ensures View() == Creates(old(View()), clientId, created)
    {
      if created.Some? {
        clientIdMap := clientIdMap[clientId := created.value];
        if clientId in pendingConfirms {
          var queued := pendingConfirms[clientId];
          pendingConfirms := pendingConfirms - {clientId};
          updates := updates + [Update(created.value, queued)];
        }
      }
    }

    method OnConfirmed(detail: Option<Confirmed>)
      modifies this
      ensures View() == if detail.Some? then Confirms(old(View()), lower, detail.value) else old(View())
    {
      if detail.None? {
        return;
      }
      var e := detail.value;
      if authenticated {
        var serverId := if e.clientId in clientIdMap then Some(clientIdMap[e.clientId]) else None;
        if serverId.None? {
          serverId := FindTx(txs, lower, e);
        }
        if serverId.Some? {
          updates := updates + [Update(serverId.value, e)];
        } else {
          pendingConfirms := pendingConfirms[e.clientId := e];
        }
      } else {
        stashed := stashed + [Confirmation(e.txHash, e.chainId, e.patch)];
      }
    }
  }

  // ── Runs ────────────────────────────────────────────────────

  function Start(authenticated: bool, txs: seq<Listed>): Store {
    Store(authenticated, txs, map[], map[], [], [], [])
  }

  datatype Event =
    | Submit(submitted: Submitted)
    | CreateReturns(clientId: string, created: Option<ServerId>)
    | Confirm(confirmed: Confirmed)
    | SessionTurns(authenticated: bool)
    | ListTurns(txs: seq<Listed>)

  function Step(lower: string -> string, s: Store, e: Event): Store {
    match e
    case Submit(submitted) => Submits(s, submitted)
    case CreateReturns(clientId, created) => Creates(s, clientId, created)
    case Confirm(confirmed) => Confirms(s, lower, confirmed)
    case SessionTurns(authenticated) => s.(authenticated := authenticated)
    case ListTurns(txs) => s.(txs := txs)
  }

  /** A page: how it lower-cases, and what it starts with. */
  datatype Page = Page(lower: string -> string, authenticated: bool, txs: seq<Listed>)

  function After(page: Page, events: seq<Event>): Store {
    if events == [] then Start(page.authenticated, page.txs)
    else Step(page.lower, After(page, events[..|events| - 1]), events[|events| - 1])
  }

  // ── The history, described ──────────────────────────────────

  predicate SignedIn(page: Page, events: seq<Event>) {
    if events == [] then page.authenticated
    else if events[|events| - 1].SessionTurns? then events[|events| - 1].authenticated
    else SignedIn(page, events[..|events| - 1])
  }

  function List(page: Page, events: seq<Event>): seq<Listed> {
    if events == [] then page.txs
    else if events[|events| - 1].ListTurns? then events[|events| - 1].txs
    else List(page, events[..|events| - 1])
  }

  predicate Created(events: seq<Event>, c: string) {
    exists k | 0 <= k < |events| :: events[k].CreateReturns? && events[k].clientId == c && events[k].created.Some?
  }

  /** The record e confirms is known: created earlier in this page, or listed. */
  predicate Knows(page: Page, events: seq<Event>, e: Confirmed) {
    || Created(events, e.clientId)
    || exists t | t in List(page, events) :: page.lower(t.txHash) == page.lower(e.txHash) && t.chainId == e.chainId
  }

  /** The event confirms c while signed in. */
  predicate ConfirmsIn(page: Page, events: seq<Event>, e: Event, c: string) {
    e.Confirm? && e.confirmed.clientId == c && SignedIn(page, events)
  }

  /** All confirmations of c while signed in. */
  function ConfirmsOf(page: Page, events: seq<Event>, c: string): multiset<Confirmed> {
    if events == [] then multiset{}
    else
      var front, e := events[..|events| - 1], events[|events| - 1];
      if ConfirmsIn(page, front, e, c) then ConfirmsOf(page, front, c) + multiset{e.confirmed}
      else ConfirmsOf(page, front, c)
  }

  /** Those whose record was known when they came, */
  function DirectOf(page: Page, events: seq<Event>, c: string): multiset<Confirmed> {
    if events == [] then multiset{}
    else
      var front, e := events[..|events| - 1], events[|events| - 1];
      if ConfirmsIn(page, front, e, c) && Knows(page, front, e.confirmed)
      then DirectOf(page, front, c) + multiset{e.confirmed}
      else DirectOf(page, front, c)
  }

  /** and, in order, those that had to wait. */
  function WaitingOf(page: Page, events: seq<Event>, c: string): seq<Confirmed> {
    if events == [] then []
    else
      var front, e := events[..|events| - 1], events[|events| - 1];
      if ConfirmsIn(page, front, e, c) && !Knows(page, front, e.confirmed)
      then WaitingOf(page, front, c) + [e.confirmed]
      else WaitingOf(page, front, c)
  }

  /** The confirmations of c that updates were issued for. */
  function AppliedOf(updates: seq<Update>, c: string): multiset<Confirmed> {
    if updates == [] then multiset{}
    else
      var before := AppliedOf(updates[..|updates| - 1], c);
      var u := updates[|updates| - 1];
      if u.cause.clientId == c then before + multiset{u.cause} else before
  }

  // ── What the refs mean ──────────────────────────────────────

  lemma AppliedSnoc(updates: seq<Update>, u: Update, c: string)
    ensures AppliedOf(updates + [u], c)
         == if u.cause.clientId == c then AppliedOf(updates, c) + multiset{u.cause} else AppliedOf(updates, c)
  {
    assert (updates + [u])[..|updates|] == updates;
  }

  lemma CreatedSnoc(events: seq<Event>, e: Event, c: string)
    ensures Created(events + [e], c) <==> Created(events, c) || (e.CreateReturns? && e.clientId == c && e.created.Some?)
  {
    var all := events + [e];
    assert all[|events|] == e;
    if Created(events, c) {
      var k :| 0 <= k < |events| && events[k].CreateReturns? && events[k].clientId == c && events[k].created.Some?;
      assert all[k] == events[k];
    }
  }

  lemma {:induction false} FindTxFinds(txs: seq<Listed>, lower: string -> string, e: Confirmed)
    ensures FindTx(txs, lower, e).Some? <==> exists t | t in txs :: SameTx(t, lower, e)
    ensures FindTx(txs, lower, e).Some? ==>
              exists t | t in txs :: SameTx(t, lower, e) && t.id == FindTx(txs, lower, e).value
  {
    if txs != [] {
      FindTxFinds(txs[1..], lower, e);
    }
  }

  /** Transaction k is the first of the list with the hash, but for case, and the chain confirmed. */
  predicate FirstListed(txs: seq<Listed>, lower: string -> string, e: Confirmed, k: nat) {
    && k < |txs| && lower(txs[k].txHash) == lower(e.txHash) && txs[k].chainId == e.chainId
    && forall j | 0 <= j < k :: lower(txs[j].txHash) != lower(e.txHash) || txs[j].chainId != e.chainId
  }

  lemma {:induction false} FindTxExactly(txs: seq<Listed>, lower: string -> string, e: Confirmed) returns (k: nat)
    ensures match FindTx(txs, lower, e)
            case Some(id) => FirstListed(txs, lower, e, k) && id == txs[k].id
            case None => forall i: nat :: !FirstListed(txs, lower, e, i)
  {
    k := 0;
    if txs != [] && !SameTx(txs[0], lower, e) {
      k := FindTxExactly(txs[1..], lower, e);
      if FindTx(txs, lower, e).Some? {
        assert forall j | 1 <= j < k + 1 :: txs[j] == txs[1..][j - 1];
      } else {
        forall i: nat ensures !FirstListed(txs, lower, e, i) {
          if FirstListed(txs, lower, e, i) {
            assert FirstListed(txs[1..], lower, e, i - 1);
          }
        }
      }
      k := k + 1;
    }
  }

  /**
   A confirmation while signed in updates the record its client's create returned; else the
   first listed one of its hash and chain; else it waits. It never does two of these.
   */
  lemma ConfirmGoesTo(s: Store, lower: string -> string, e: Confirmed)
    requires s.authenticated
    ensures var s' := Confirms(s, lower, e);
            && (e.clientId in s.ids ==> s' == s.(updates := s.updates + [Update(s.ids[e.clientId], e)]))
            && (forall k: nat | e.clientId !in s.ids && FirstListed(s.txs, lower, e, k) ::
                  s' == s.(updates := s.updates + [Update(s.txs[k].id, e)]))
            && (e.clientId !in s.ids && (forall k: nat :: !FirstListed(s.txs, lower, e, k)) ==>
                  s' == s.(pending := s.pending[e.clientId := e]))
  {
    var k := FindTxExactly(s.txs, lower, e);
    assert forall i: nat, j: nat | FirstListed(s.txs, lower, e, i) && FirstListed(s.txs, lower, e, j) :: i == j;
  }

  /** The last of a list of confirmations, if there is one. */
  function Latest(waiting: seq<Confirmed>): multiset<Confirmed> {
    if waiting == [] then multiset{} else multiset{waiting[|waiting| - 1]}
  }

  /** The last waiting confirmation of c is applied once c is created; until then it is pending. */
  predicate Settles(s: Store, c: string, created: bool, waiting: seq<Confirmed>, direct: multiset<Confirmed>) {
    && (c in s.ids <==> created)
    && (c in s.pending <==> waiting != [] && !created)
    && (c in s.pending ==> s.pending[c] == waiting[|waiting| - 1])
    && AppliedOf(s.updates, c) == if created then direct + Latest(waiting) else direct
  }

  predicate Accounts(s: Store, page: Page, events: seq<Event>, c: string) {
    Settles(s, c, Created(events, c), WaitingOf(page, events, c), DirectOf(page, events, c))
  }

  predicate Surroundings(s: Store, page: Page, events: seq<Event>) {
    s.authenticated == SignedIn(page, events) && s.txs == List(page, events)
  }

  /** No event hands one client's confirmation to another. */
  predicate KeyedByClient(s: Store) {
    forall c | c in s.pending :: s.pending[c].clientId == c
  }

  lemma CreateSettles(s: Store, clientId: string, id: Option<ServerId>, c: string, created: bool,
        waiting: seq<Confirmed>, direct: multiset<Confirmed>)
    requires Settles(s, c, created, waiting, direct) && KeyedByClient(s)
    ensures Settles(Creates(s, clientId, id), c, created || (clientId == c && id.Some?), waiting, direct)
    ensures KeyedByClient(Creates(s, clientId, id))
  {
    if id.Some? && clientId in s.pending {
      AppliedSnoc(s.updates, Update(id.value, s.pending[clientId]), c);
    }
  }

  lemma OtherSettles(s: Store, lower: string -> string, e: Confirmed, c: string, created: bool,
        waiting: seq<Confirmed>, direct: multiset<Confirmed>)
    requires Settles(s, c, created, waiting, direct) && (e.clientId != c || !s.authenticated)
    ensures Settles(Confirms(s, lower, e), c, created, waiting, direct)
  {
    var id := RecordFor(s, lower, e);
    if s.authenticated && id.Some? {
      AppliedSnoc(s.updates, Update(id.value, e), c);
    }
  }

  lemma DirectSettles(s: Store, lower: string -> string, e: Confirmed, created: bool, waiting: seq<Confirmed>,
        direct: multiset<Confirmed>)
    requires Settles(s, e.clientId, created, waiting, direct) && s.authenticated && RecordFor(s, lower, e).Some?
    ensures Settles(Confirms(s, lower, e), e.clientId, created, waiting, direct + multiset{e})
  {
    AppliedSnoc(s.updates, Update(RecordFor(s, lower, e).value, e), e.clientId);
  }

  lemma WaitSettles(s: Store, lower: string -> string, e: Confirmed, created: bool, waiting: seq<Confirmed>,
        direct: multiset<Confirmed>)
    requires Settles(s, e.clientId, created, waiting, direct) && s.authenticated && RecordFor(s, lower, e).None?
    ensures Settles(Confirms(s, lower, e), e.clientId, created, waiting + [e], direct)
  {
  }

  predicate RefsSound(s: Store, page: Page, events: seq<Event>, c: string) {
    Surroundings(s, page, events) && KeyedByClient(s) && Accounts(s, page, events, c)
  }

  lemma {:induction false} RefsMean(page: Page, events: seq<Event>, c: string)
    ensures RefsSound(After(page, events), page, events, c)
  {
    if events != [] {
      var n := |events| - 1;
      assert events == events[..n] + [events[n]];
      RefsMean(page, events[..n], c);
      EventKeepsSound(After(page, events[..n]), page, events[..n], events[n], c);
    }
  }

  lemma SurroundingsKept(s: Store, page: Page, events: seq<Event>, e: Event)
    requires Surroundings(s, page, events) && KeyedByClient(s)
    ensures Surroundings(Step(page.lower, s, e), page, events + [e]) && KeyedByClient(Step(page.lower, s, e))
  {
    StillKeyed(s, page.lower, e);
    SurroundingsAre(page, events, e);
    SurroundingsTurn(s, page.lower, e);
  }

  /** Handlers leave the session and the list alone. */
  lemma SurroundingsTurn(s: Store, lower: string -> string, e: Event)
    ensures Step(lower, s, e).authenticated == if e.SessionTurns? then e.authenticated else s.authenticated
    ensures Step(lower, s, e).txs == if e.ListTurns? then e.txs else s.txs
  {
  }

  lemma StillKeyed(s: Store, lower: string -> string, e: Event)
    requires KeyedByClient(s)
    ensures KeyedByClient(Step(lower, s, e))
  {
  }

  lemma SurroundingsAre(page: Page, events: seq<Event>, e: Event)
    ensures SignedIn(page, events + [e]) == if e.SessionTurns? then e.authenticated else SignedIn(page, events)
    ensures List(page, events + [e]) == if e.ListTurns? then e.txs else List(page, events)
  {
    assert (events + [e])[..|events|] == events;
  }

  lemma EventKeepsSound(s: Store, page: Page, events: seq<Event>, e: Event, c: string)
    requires RefsSound(s, page, events, c)
    ensures RefsSound(Step(page.lower, s, e), page, events + [e], c)
  {
    SurroundingsKept(s, page, events, e);
    if e.Confirm? {
      ConfirmAccounts(s, page, events, e, c);
    } else {
      assert (events + [e])[..|events|] == events && (events + [e])[|events|] == e;
      CreatedSnoc(events, e, c);
      if e.CreateReturns? {
        CreateSettles(s, e.clientId, e.created, c,
                      Created(events, c), WaitingOf(page, events, c), DirectOf(page, events, c));
      }
    }
  }

  lemma ConfirmAccounts(s: Store, page: Page, events: seq<Event>, e: Event, c: string)
    requires e.Confirm? && Surroundings(s, page, events) && Accounts(s, page, events, c)
    ensures Accounts(Step(page.lower, s, e), page, events + [e], c)
  {
    var all := events + [e];
    assert all[..|events|] == events && all[|events|] == e;
    CreatedSnoc(events, e, c);
    var created, waiting, direct := Created(events, c), WaitingOf(page, events, c), DirectOf(page, events, c);
    if !ConfirmsIn(page, events, e, c) {
      OtherSettles(s, page.lower, e.confirmed, c, created, waiting, direct);
    } else {
      FindTxFinds(s.txs, page.lower, e.confirmed);
      if Knows(page, events, e.confirmed) {
        DirectSettles(s, page.lower, e.confirmed, created, waiting, direct);
      } else {
        WaitSettles(s, page.lower, e.confirmed, created, waiting, direct);
      }
    }
  }

  // ── Conservation ────────────────────────────────────────────

  lemma {:induction false} DirectOrWaiting(page: Page, events: seq<Event>, c: string)
    ensures ConfirmsOf(page, events, c) == DirectOf(page, events, c) + multiset(WaitingOf(page, events, c))
  {
    if events != [] {
      DirectOrWaiting(page, events[..|events| - 1], c);
    }
  }

  function AllButLatest(waiting: seq<Confirmed>): seq<Confirmed> {
    if waiting == [] then [] else waiting[..|waiting| - 1]
  }

  lemma LatestSplits(waiting: seq<Confirmed>)
    ensures multiset(waiting) == Latest(waiting) + multiset(AllButLatest(waiting))
  {
    if waiting != [] {
      assert waiting == waiting[..|waiting| - 1] + [waiting[|waiting| - 1]];
    }
  }

  function Held(s: Store, c: string): multiset<Confirmed> {
    if c in s.pending then multiset{s.pending[c]} else multiset{}
  }

  /**
   In every interleaving each confirmation of a client is applied once, or is the one
   pending, or was overwritten by a later one that also had to wait.
   */
  lemma ConfirmationsConserved(page: Page, events: seq<Event>, c: string)
    ensures ConfirmsOf(page, events, c)
         == AppliedOf(After(page, events).updates, c) + Held(After(page, events), c)
          + multiset(AllButLatest(WaitingOf(page, events, c)))
  {
    RefsMean(page, events, c);
    DirectOrWaiting(page, events, c);
    LatestSplits(WaitingOf(page, events, c));
    AppliedOrHeld(After(page, events), c, Created(events, c), WaitingOf(page, events, c), DirectOf(page, events, c));
  }

  lemma AppliedOrHeld(s: Store, c: string, created: bool, waiting: seq<Confirmed>, direct: multiset<Confirmed>)
    requires Settles(s, c, created, waiting, direct)
    ensures AppliedOf(s.updates, c) + Held(s, c) == direct + Latest(waiting)
  {
  }

  /** Once the record exists, every confirmation was applied exactly when at most one had to wait. */
  lemma AllAppliedExactly(page: Page, events: seq<Event>, c: string)
    requires Created(events, c)
    ensures AppliedOf(After(page, events).updates, c) == ConfirmsOf(page, events, c) <==>
              |WaitingOf(page, events, c)| <= 1
  {
    ConfirmationsConserved(page, events, c);
    RefsMean(page, events, c);
    var applied, all := AppliedOf(After(page, events).updates, c), ConfirmsOf(page, events, c);
    var lost := AllButLatest(WaitingOf(page, events, c));
    assert all == applied + multiset(lost);
    assert |all| == |applied| + |lost|;
  }

  /** Two confirmations before the create returns: only the second is applied. */
  lemma SecondConfirmationOverwrites(page: Page, first: Confirmed, second: Confirmed, id: ServerId)
    requires page.authenticated && page.txs == [] && first.clientId == second.clientId && first != second
    ensures var events := [Confirm(first), Confirm(second), CreateReturns(first.clientId, Some(id))];
            && After(page, events).updates == [Update(id, second)]
            && AppliedOf(After(page, events).updates, first.clientId) != ConfirmsOf(page, events, first.clientId)
  {
    var e1, e2, e3 := Confirm(first), Confirm(second), CreateReturns(first.clientId, Some(id));
    var c := first.clientId;
    assert [e1, e2, e3][..2] == [e1, e2] && [e1, e2][..1] == [e1] && [e1][..0] == [];
    assert After(page, [e1]) == Start(true, []).(pending := map[c := first]);
    assert After(page, [e1, e2]) == Start(true, []).(pending := map[c := second]);
    AppliedSnoc([], Update(id, second), c);
    assert ConfirmsOf(page, [e1], c) == multiset{first};
    assert first in ConfirmsOf(page, [e1, e2, e3], c);
  }

  // ── What is issued and what is stashed ──────────────────────

  /** The submissions that came while signed in, in order. */
  function SubmittedIn(page: Page, events: seq<Event>): seq<Submitted> {
    if events == [] then []
    else
      var front, e := events[..|events| - 1], events[|events| - 1];
      if e.Submit? && SignedIn(page, front) then SubmittedIn(page, front) + [e.submitted]
      else SubmittedIn(page, front)
  }

  /** What is kept for after the login: every submission and confirmation that came while signed out, in order. */
  function KeptForLogin(page: Page, events: seq<Event>): seq<Stashed> {
    if events == [] then []
    else
      var front, e := events[..|events| - 1], events[|events| - 1];
      var kept := KeptForLogin(page, front);
      if SignedIn(page, front) then kept
      else if e.Submit? then kept + [Submission(e.submitted.payload)]
      else if e.Confirm? then kept + [Confirmation(e.confirmed.txHash, e.confirmed.chainId, e.confirmed.patch)]
      else kept
  }

  lemma StepLogs(s: Store, lower: string -> string, e: Event)
    ensures Step(lower, s, e).creates == s.creates + (if e.Submit? && s.authenticated then [e.submitted] else [])
    ensures Step(lower, s, e).stashed == s.stashed
            + (if s.authenticated then []
               else if e.Submit? then [Submission(e.submitted.payload)]
               else if e.Confirm? then [Confirmation(e.confirmed.txHash, e.confirmed.chainId, e.confirmed.patch)]
               else [])
  {
  }

  lemma AuthenticatedIs(page: Page, events: seq<Event>)
    ensures After(page, events).authenticated == SignedIn(page, events)
  {
    RefsMean(page, events, "");
  }

  /** Nothing submitted or confirmed is forgotten: what a signed-in page creates, and what a signed-out one stashes. */
  lemma {:induction false} LogsMean(page: Page, events: seq<Event>)
    ensures After(page, events).creates == SubmittedIn(page, events)
    ensures After(page, events).stashed == KeptForLogin(page, events)
  {
    if events != [] {
      var front, e := events[..|events| - 1], events[|events| - 1];
      LogsMean(page, front);
      AuthenticatedIs(page, front);
      StepLogs(After(page, front), page.lower, e);
    }
  }

  /** How many creates of c were issued, */
  function Issued(page: Page, events: seq<Event>, c: string): nat {
    if events == [] then 0
    else
      var front, e := events[..|events| - 1], events[|events| - 1];
      Issued(page, front, c) + if e.Submit? && e.submitted.clientId == c && SignedIn(page, front) then 1 else 0
  }

  /** and how many have returned. */
  function Returned(events: seq<Event>, c: string): nat {
    if events == [] then 0
    else
      var e := events[|events| - 1];
      Returned(events[..|events| - 1], c) + if e.CreateReturns? && e.clientId == c then 1 else 0
  }

  /** Every create that returns was issued and had not returned before. */
  predicate AnswersOnlyCreates(page: Page, events: seq<Event>) {
    if events == [] then true
    else
      var front, e := events[..|events| - 1], events[|events| - 1];
      && AnswersOnlyCreates(page, front)
      && (e.CreateReturns? ==> Returned(front, e.clientId) < Issued(page, front, e.clientId))
  }

  lemma {:induction false} IssuedAmong(page: Page, events: seq<Event>, c: string)
    ensures Issued(page, events, c) > 0 <==> exists i | 0 <= i < |SubmittedIn(page, events)| ::
              SubmittedIn(page, events)[i].clientId == c
  {
    if events != [] {
      var front, e := events[..|events| - 1], events[|events| - 1];
      IssuedAmong(page, front, c);
      var before, after := SubmittedIn(page, front), SubmittedIn(page, events);
      assert before <= after;
      if i :| 0 <= i < |before| && before[i].clientId == c {
        assert after[i].clientId == c;
      }
      if e.Submit? && SignedIn(page, front) {
        assert after[|before|] == e.submitted;
      }
    }
  }

  lemma {:induction false} ReturnedAtMostIssued(page: Page, events: seq<Event>, c: string)
    requires AnswersOnlyCreates(page, events)
    ensures Returned(events, c) <= Issued(page, events, c)
    ensures Created(events, c) ==> Returned(events, c) > 0
  {
    if events != [] {
      var n := |events| - 1;
      assert events == events[..n] + [events[n]];
      ReturnedAtMostIssued(page, events[..n], c);
      CreatedSnoc(events[..n], events[n], c);
    }
  }

  /** The update is for client c. */
  function UpdatesFor(updates: seq<Update>, c: string): seq<Update> {
    if updates == [] then []
    else
      var front, u := UpdatesFor(updates[..|updates| - 1], c), updates[|updates| - 1];
      if u.cause.clientId == c then front + [u] else front
  }

  lemma {:induction false} UpdatesApply(updates: seq<Update>, c: string)
    ensures |UpdatesFor(updates, c)| == |AppliedOf(updates, c)|
    ensures forall u | u in UpdatesFor(updates, c) :: u in updates && u.cause in AppliedOf(updates, c)
  {
    if updates != [] {
      UpdatesApply(updates[..|updates| - 1], c);
    }
  }

  /** The client was submitted while signed in, its create is among those issued, and one returned its record. */
  predicate CreateSucceeded(page: Page, events: seq<Event>, c: string) {
    && Created(events, c)
    && exists i | 0 <= i < |After(page, events).creates| :: After(page, events).creates[i].clientId == c
  }

  /**
   Whatever the order of submits, returning creates and confirmations: where every confirmed
   client is confirmed once and one of its creates succeeds, that create was really issued,
   and the client gets exactly one update, for its own confirmation; nothing stays pending.
   */
  lemma HandOffCompletes(page: Page, events: seq<Event>)
    requires AnswersOnlyCreates(page, events)
    requires forall c | ConfirmsOf(page, events, c) != multiset{} ::
               |ConfirmsOf(page, events, c)| == 1 && Created(events, c)
    ensures After(page, events).pending == map[]
    ensures forall c | ConfirmsOf(page, events, c) == multiset{} :: UpdatesFor(After(page, events).updates, c) == []
    ensures forall c | ConfirmsOf(page, events, c) != multiset{} ::
              && CreateSucceeded(page, events, c)
              && var updates := UpdatesFor(After(page, events).updates, c);
                 |updates| == 1 && multiset{updates[0].cause} == ConfirmsOf(page, events, c)
  {
    var s := After(page, events);
    LogsMean(page, events);
    forall c
      ensures c !in s.pending && |UpdatesFor(s.updates, c)| == |ConfirmsOf(page, events, c)|
      ensures forall u | u in UpdatesFor(s.updates, c) :: u.cause in ConfirmsOf(page, events, c)
    {
      EachIsApplied(page, events, c);
      UpdatesApply(s.updates, c);
    }
    forall c | ConfirmsOf(page, events, c) != multiset{}
      ensures CreateSucceeded(page, events, c)
      ensures multiset{UpdatesFor(s.updates, c)[0].cause} == ConfirmsOf(page, events, c)
    {
      ReturnedAtMostIssued(page, events, c);
      IssuedAmong(page, events, c);
      OnlyOne(ConfirmsOf(page, events, c), UpdatesFor(s.updates, c)[0].cause);
    }
  }

  lemma OnlyOne(m: multiset<Confirmed>, e: Confirmed)
    requires |m| == 1 && e in m
    ensures m == multiset{e}
  {
    assert |m - multiset{e}| == 0;
  }

  lemma EachIsApplied(page: Page, events: seq<Event>, c: string)
    requires ConfirmsOf(page, events, c) != multiset{} ==>
               |ConfirmsOf(page, events, c)| == 1 && Created(events, c)
    ensures c !in After(page, events).pending
    ensures AppliedOf(After(page, events).updates, c) == ConfirmsOf(page, events, c)
  {
    RefsMean(page, events, c);
    DirectOrWaiting(page, events, c);
    ConfirmationsConserved(page, events, c);
    var waiting := WaitingOf(page, events, c);
    assert |ConfirmsOf(page, events, c)| == |DirectOf(page, events, c)| + |waiting|;
  }

  // ── The record updated ──────────────────────────────────────

  /** The record is one the client's own create returned, or a listed transaction of the same hash and chain. */
  predicate RightRecord(page: Page, events: seq<Event>, u: Update) {
    exists k | 0 <= k <= |events| ::
      || (k < |events| && events[k] == CreateReturns(u.cause.clientId, Some(u.id)))
      || exists t | t in List(page, events[..k]) ::
           t.id == u.id && page.lower(t.txHash) == page.lower(u.cause.txHash) && t.chainId == u.cause.chainId
  }

  lemma RightRecordStays(page: Page, events: seq<Event>, e: Event, u: Update)
    requires RightRecord(page, events, u)
    ensures RightRecord(page, events + [e], u)
  {
    var all := events + [e];
    var k :| 0 <= k <= |events| &&
      ((k < |events| && events[k] == CreateReturns(u.cause.clientId, Some(u.id)))
        || exists t | t in List(page, events[..k]) ::
             t.id == u.id && page.lower(t.txHash) == page.lower(u.cause.txHash) && t.chainId == u.cause.chainId);
    assert all[..k] == events[..k];
    assert k < |events| ==> all[k] == events[k];
  }

  ghost predicate RecordsRight(s: Store, page: Page, events: seq<Event>) {
    && IdsRight(s.ids, events)
    && (forall i | 0 <= i < |s.updates| :: RightRecord(page, events, s.updates[i]))
  }

  lemma {:induction false} UpdatesHitTheRightRecord(page: Page, events: seq<Event>)
    ensures RecordsRight(After(page, events), page, events)
  {
    if events != [] {
      var n := |events| - 1;
      var front, e := events[..n], events[n];
      assert events == front + [e];
      UpdatesHitTheRightRecord(page, front);
      RefsMean(page, front, "");
      StepRecords(After(page, front), page, front, e);
    }
  }

  lemma StepRecords(s: Store, page: Page, events: seq<Event>, e: Event)
    requires RecordsRight(s, page, events) && Surroundings(s, page, events) && KeyedByClient(s)
    ensures RecordsRight(Step(page.lower, s, e), page, events + [e])
  {
    var s' := Step(page.lower, s, e);
    IdsKept(s, page, events, e);
    forall i | 0 <= i < |s'.updates| ensures RightRecord(page, events + [e], s'.updates[i]) {
      if i < |s.updates| {
        RightRecordStays(page, events, e, s.updates[i]);
      } else if e.Confirm? {
        NewUpdateRight(s, page, events, e);
      } else {
        assert (events + [e])[|events|] == CreateReturns(s'.updates[i].cause.clientId, Some(s'.updates[i].id));
      }
    }
  }

  ghost predicate IdsRight(ids: map<string, ServerId>, events: seq<Event>) {
    forall c | c in ids :: CreateReturns(c, Some(ids[c])) in events
  }

  lemma IdsKept(s: Store, page: Page, events: seq<Event>, e: Event)
    requires IdsRight(s.ids, events)
    ensures IdsRight(Step(page.lower, s, e).ids, events + [e])
  {
    assert e in events + [e];
    assert forall x | x in events :: x in events + [e];
  }

  lemma NewUpdateRight(s: Store, page: Page, events: seq<Event>, e: Event)
    requires RecordsRight(s, page, events) && Surroundings(s, page, events)
    requires e.Confirm? && RecordFor(s, page.lower, e.confirmed).Some?
    ensures RightRecord(page, events + [e], Update(RecordFor(s, page.lower, e.confirmed).value, e.confirmed))
  {
    var all := events + [e];
    assert all[..|events|] == events;
    if e.confirmed.clientId in s.ids {
      var k :| 0 <= k < |events| && events[k] == CreateReturns(e.confirmed.clientId, Some(s.ids[e.confirmed.clientId]));
      assert all[k] == events[k];
    } else {
      FindTxFinds(s.txs, page.lower, e.confirmed);
    }
  }
}
