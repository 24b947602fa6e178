# Verified model of the RSends client core

A Dafny model of the parts of the RSends repository where money arithmetic, cross-tab
sessions and timed state are decided, with proofs about them. The arithmetic is modelled
on unbounded integers exactly as the BigInt and Python code computes it; the concurrent
parts are transition systems whose steps are the stretches of code between two awaits, and
what is proved about them holds in every interleaving.

`dafny verify dfyconfig.toml` checks everything.

| files | what they hold |
|---|---|
| `Decimals`, `AmountText` | amount strings: the form's parser, the printer, and the grammar both are measured against |
| `Sums`, `SplitShares`, `ShareTheorems`, `SafeTotals` | basis-point shares from amounts, amounts from shares, the balance row; conservation, error bounds, when shares survive the trip, which totals are safe |
| `SplitMirrors`, `MegaBatch` | the contract's and the backend's copies of the split rule, and the payroll script's remainder-to-last rule |
| `RepeatPrefill` | the gate that turns a stored payment into a new one |
| `AuthClient`, `LogoutClient`, `AuthServer` | one tab's refresh flight, blocking logout, and the server's session store |
| `RefreshProtocol`, `RefreshInvariants`, `RefreshTheorems`, `ReuseRisk`, `SharedRefresh`, `RefreshOutcomes` | any number of tabs, the lock, the broadcast channel, the cookie jar, the network and the server together |
| `HydrationRecovery`, `WatchdogRuns`, `WatchdogPages` | the blank-screen watchdog, what its variables mean over whole runs, and what it promises about the pages themselves |
| `RateLimit`, `CoingeckoCache` | the sliding-window limiter and the two-tier cache, each against a simple table |
| `SingleFlight`, `MarketFetch`, `WalletAuth` | the single-flight table and its use for price fetches, wallet signatures and wallet sessions |
| `TransactionPersistence` | confirmations handed to records that may not exist yet |
| `Regex`, `RedactSecrets`, `RedactShapes` | regular expressions under a backtracking semantics; the six log patterns, what their substitutions replace, and their fast path; what becomes of each shape of secret |
| `AcceptLanguage` | locale negotiation |
| `Wrappers`, `Texts` | an option type, substring search |

Where the source updates fields or runs a loop, a class method or a method with invariants
is proved equal to a loop-free function of the old state; the theorems are about those
functions.

## Where the code and its promises part

Each of these is a result with an exact condition, not a gap in the model.

- The strict reuse check does kill live sessions. The comment in `auth-client.ts` calls the
  lock the only mitigation of the rotation race. It suffices as long as no exchange is torn
  (`RefreshTheorems.ReuseNeedsATear`): a client that stops waiting for a rotation still under
  way, or a rotation whose new cookie is not in its answer, because the server failed after
  writing the session or the user has become inactive. The first tear of a run makes a reuse
  possible exactly when the browser still has its session cookie
  (`ReuseRisk.FirstTearExactly`), and after any number of tears a live session can still be
  taken for a reused one, without a further tear, exactly in the states `ReuseRisk.AtRisk`: a
  request with a stale cookie is on its way, or a request crosses another exchange that can
  rotate, or the browser would present a stale cookie or has left such an exchange behind
  (`ReuseRisk.ReuseExactly`). `RefreshTheorems.LostRotationEndsSession` plays a tear that ends
  the session, from every initial state, and `ReuseRisk.TornYetSafe` one that does not.
- A signed-out client can leave a live session behind, or be told to leave one, exactly in the
  steps named `RefreshTheorems.Strands` (`RefreshTheorems.StrandsExactly`): a refresh that
  carries no cookies or is refused in between, a logout confirmed while the store is down or
  without a session cookie, an inactive user answered 401 after the session was rotated, and,
  if the client has left or is being told to, a rotation that writes back a session revoked
  between its read and its write. `RefreshTheorems.LogoutRacesRotation` plays the last one: the
  read and the write in `rotate_refresh_token` are two store operations, so a confirmed logout
  can be undone.
- `19998` base units is the least threshold from which every split re-derives
  (`ShareTheorems.ThresholdSuffices`, `ShareTheorems.ThresholdIsTight`); a particular total is
  safe for every split exactly when `2 * (10000 - gcd(total, 10000)) <= total`
  (`SafeTotals.SafeExactly`).
- The stale-price fallback of `useCoinGecko` works after a miss exactly when memory still has
  the key and storage has no entry for it: `getCached` deletes both tiers of an expired entry
  (`CoingeckoCache.StaleFallbackExactly`). Without a fixed time to live per key an older value
  can come back after a newer one has expired (`CoingeckoCache.OlderValueReturns`): a key
  reads as in an expiring map exactly when its last write is unexpired or neither tier holds
  an unexpired entry for it (`CoingeckoCache.ReadsAsExpiringMapExactly`).
- `signOnce` hands every caller the signature pending for its address, whatever the message. A
  wallet session started while one is pending is therefore refused by the backend, and one
  started otherwise can succeed (`WalletAuth.ExchangeNeedsOwnSignature`).
- A second confirmation of the same client id that also has to wait overwrites the first
  (`TransactionPersistence.SecondConfirmationOverwrites`); every confirmation is applied exactly
  when at most one of them had to wait (`TransactionPersistence.AllAppliedExactly`).
- A language excluded with `q=0` is not excluded. `en;q=0, en-GB` is answered with `en` where
  `en` is supported and `en-gb` is not (`AcceptLanguage.ExcludedYetChosen`); an excluded
  language is served exactly when the preferred entry reduces to it, or when no entry is usable
  and it is the default (`AcceptLanguage.ExcludedAnswerExactly`).

## Assumptions

- Code between two awaits is one step. The Web Lock is a fair queue, and a tab runs one logout
  at a time. Access and refresh tokens are numbered in the order they are issued; a cookie in an
  answer lands when the answer is delivered. Whether deletions of cookies written before the
  handler raises are still sent is left open (both are steps). A request that vanishes on the
  way is one the server never handled.
- The watchdog's, the limiter's and the cache's clocks never run backwards; the watchdog's is
  positive, and one tick reads it once. `0` as "no dwell" is the source's own encoding.
- A localStorage write is taken, refused, or taken after purging some key; a purge that finds
  nothing or throws is a victim that is not there. Storage is restricted to the cache's keys.
- The chain table, address validators, `toLowerCase`, `Number(...)` and Python's Unicode
  character classes are parameters. `row.amount` is `String(row.amount)`; shares and positions
  are reals, since nothing makes them integers before the gate does.
- Server ids of transactions are not empty. The nonce of a wallet session occurs in no other
  message, and the backend accepts only a signature over the session's own message.

- What Python's `\w`, `\s` and `\d` say about the characters in question is the predicate
  `RedactShapes.Ordinary`: printed ASCII is no space, its word characters are letters, digits
  and the underscore, and digits and letters of any script are word characters and no spaces.

## Model

| member | source | states |
|---|---|---|
| AmountText.ParserMeetsGrammar | apps/web/lib/splitShares.ts:13-29 | the form accepts a text with a value exactly when the grammar (spaces, digits, at most one dot or comma, no more fraction digits than the token has) gives it that positive value |
| AmountText.ParseSound | apps/web/lib/splitShares.ts:18-29 | every accepted text splits into space, whole part, separator, fraction and space, and means what those pieces mean |
| AmountText.ParseComplete | apps/web/lib/splitShares.ts:18-29 | every text so composed is accepted with its value, or refused when that is zero |
| AmountText.PrintThenParse | apps/web/lib/splitShares.ts:32-37 | printing a positive amount and parsing it gives the amount back, for any number of decimals |
| AmountText.ParseThenPrint | apps/web/lib/splitShares.ts:18-37 | parsing a canonical text and printing it gives the text back |
| AmountText.PrintedIsCanonical | apps/web/lib/splitShares.ts:31-37 | no superfluous zero, no bare or trailing separator in any printed amount |
| AmountText.Canonicalisation | apps/web/lib/splitShares.ts:15-37 | reprinting any accepted spelling gives a canonical text of the same amount, and two spellings reprint alike exactly when they mean the same |
| SplitShares.RemainderBase | apps/web/lib/splitShares.ts:42-52 | the balance row: nothing exactly while some other row is unparsed, else what makes all rows add up to the total, a negative balance included |
| SplitShares.AmountsToSharesBps | apps/web/lib/splitShares.ts:59-84 | the loops compute: half-up shares for legs 1 to n-1, the rest of 10000 for leg 0, refused with fewer than two legs, a non-positive leg, a wrong sum or a share below 1 |
| SplitShares.OnchainAmounts | apps/web/lib/splitShares.ts:88-93 | the updated array is the floors with all the dust on leg 0 |
| ShareTheorems.OnchainConserves | apps/web/lib/splitShares.ts:86-93 | the legs add up to the total for any share list at all |
| ShareTheorems.DustBound | apps/web/lib/splitShares.ts:86-93 | for valid shares the dust is at least 0 and less than the number of legs |
| ShareTheorems.LegZeroPositive | apps/web/lib/splitShares.ts:86-93 | leg 0 is paid a positive amount for every positive total and valid shares |
| ShareTheorems.LegRoundTrip | apps/web/lib/splitShares.ts:75-89 | a floored leg is positive and rounds back to its share exactly when flooring dropped at most half of total/10000 |
| ShareTheorems.RoundTripCriterion | apps/web/lib/splitShares.ts:59-93 | amounts re-derive to their shares exactly when that holds for every leg but the first |
| ShareTheorems.ThresholdSuffices | apps/web/lib/repeatPrefill.ts:143-149 | from 19998 base units every share vector re-derives |
| ShareTheorems.ThresholdIsTight | apps/web/lib/repeatPrefill.ts:143-149 | at 19997 the shares 3333 and 6667 do not |
| SafeTotals.SafeExactly | apps/web/lib/repeatPrefill.ts:143-149 | every split of a total re-derives exactly when twice 10000 minus the common divisor with 10000 fits into the total |
| SafeTotals.DroppedReaches | apps/web/lib/splitShares.ts:88-89 | some share loses exactly 10000 minus that divisor |
| SafeTotals.DroppedAtMost | apps/web/lib/splitShares.ts:88-89 | and no share loses more |
| ShareTheorems.SharesExist | apps/web/lib/splitShares.ts:54-84 | shares are returned exactly for splits whose later legs are each worth half a basis point and leave at least one for leg 0 |
| ShareTheorems.SharesExistWhenRoomy | apps/web/lib/splitShares.ts:54-84 | a leg 0 worth (n+1)/2 basis points always leaves it room |
| ShareTheorems.SharesAreClose | apps/web/lib/splitShares.ts:54-84 | returned shares lie in 1..9999, add up to 10000, are within half a basis point of their legs, and leg 0 is off by at most the others together |
| ShareTheorems.RequantisingSettles | apps/web/lib/splitShares.ts:59-93 | amounts to shares to paid amounts: from 19998 units a second conversion changes nothing, a leg moves by less than total/20000 + 1, leg 0 by less than n-1 times that |
| SplitMirrors.ComputeAmounts | packages/contracts/src/RSendsSplitRouter.sol:107-131 | the contract's loop with 256-bit checked arithmetic: which revert comes first, and that only the leg products can overflow |
| SplitMirrors.ChecksRevertExactly | packages/contracts/src/RSendsSplitRouter.sol:112-114 | the first three errors arise exactly from a zero amount, then unequal lengths, then a count outside 2 to 20 |
| SplitMirrors.LoopRevertsExactly | packages/contracts/src/RSendsSplitRouter.sol:116-129 | past them, a zero share or an overflow is the error exactly when it is the first to stop the loop, and the wrong sum exactly when nothing does |
| SplitMirrors.ContractPaysExactly | packages/contracts/src/RSendsSplitRouter.sol:107-131 | the contract pays exactly for 2 to 20 positive shares adding to 10000, a positive total and products within 256 bits, and then it pays the form's preview |
| SplitMirrors.ComputeSplitAmounts | services/backend/app/services/split_math.py:16-39 | the backend accepts the same inputs, overflow aside, and computes the same amounts |
| SplitMirrors.DerivedSharesArePaid | apps/web/lib/splitShares.ts:54-93 | shares derived from typed amounts are accepted by the contract and paid as previewed, conserving the total |
| MegaBatch.ComputeAmounts | packages/contracts/stress_mega_batch_reconciliation.py:181-203 | fee plus amounts equal the total; floors for all but the last; the assertion fails only for an empty list with something to distribute |
| MegaBatch.LastLegBound | packages/contracts/stress_mega_batch_reconciliation.py:181-203 | the last recipient gets its floor plus at most n-1 units |
| MegaBatch.RulesDifferAtTheEnds | packages/contracts/stress_mega_batch_reconciliation.py:181-203 | against the router's rule only the first and the last leg differ, by the same dust, and not at all exactly when there is none |
| RepeatPrefill.ResolvesExactly | apps/web/lib/repeatPrefill.ts:95-186 | a row resolves exactly when its lower-cased chain is listed, its token is listed there, its amount denotes a positive value at that token's decimals, and its payee can be paid again: a split on a chain that offers splits with a repeatable arrangement of its legs; else a recipient valid for the chain's family; else that family's wallet set |
| RepeatPrefill.ChainRefusedExactly | apps/web/lib/repeatPrefill.ts:102-103 | the chain is named exactly when it is not listed |
| RepeatPrefill.TokenRefusedExactly | apps/web/lib/repeatPrefill.ts:108-110 | the token exactly when the chain is listed and lists no such token |
| RepeatPrefill.AmountRefusedExactly | apps/web/lib/repeatPrefill.ts:112-116 | the amount exactly when chain and token are in order and it denotes nothing positive |
| RepeatPrefill.PayeeRefusesExactly | apps/web/lib/repeatPrefill.ts:119-185 | with all that in order, split, recipient or TRON recipient is named exactly when the row has that kind of payee and it cannot be paid again |
| RepeatPrefill.GateIsExact | apps/web/lib/repeatPrefill.ts:119-163 | the split check of the gate passes exactly when the chain offers splits and some arrangement of the legs has 2 to 20 of them at positions 0..n-1, distinct valid addresses, whole shares adding to 10000 and no leg but the first dropping more than half of total/10000 |
| RepeatPrefill.LargeSplitsRepeat | apps/web/lib/repeatPrefill.ts:119-163 | from 19998 base units the re-derivation never refuses a well-formed split |
| RepeatPrefill.RepeatReproducesSplit | apps/web/lib/repeatPrefill.ts:95-163 | end to end, on the row's own network and at its token's decimals there: the prefilled texts parse to positive amounts adding to the parsed total, the last is the balance row's, and the creation math returns the stored shares leg for leg |
| RepeatPrefill.TermsKept | apps/web/lib/repeatPrefill.ts:99-116 | every prefill is on the listed network the row names, in the row's token at the decimals listed for it there, for the row's amount, which parses |
| RepeatPrefill.PermutationInvariant | apps/web/lib/repeatPrefill.ts:128-131 | permuting the stored legs changes neither the prefill nor the refusal |
| RepeatPrefill.GateIgnoresOrder | apps/web/lib/repeatPrefill.ts:128-163 | nor the legs of the split branch |
| RepeatPrefill.InPlaceIsUnique | apps/web/lib/repeatPrefill.ts:128-131 | legs at positions 0..n-1 are the only ascending arrangement of themselves, so the sort's treatment of ties never matters |
| RepeatPrefill.SortKeeps | apps/web/lib/repeatPrefill.ts:130 | the sorted copy is an ascending permutation |
| RepeatPrefill.SinglePayeeIsFaithful | apps/web/lib/repeatPrefill.ts:165-185 | fail-closed, on the row's own network: a recipient is carried verbatim and only if valid for that network's family, the implicit one only while that family's wallet is set |
| AuthClient.ApiCall | apps/web/lib/auth-client.ts:138-175 | at most two fetches and one refresh, joined exactly on a 401 of a call with a token; the replay carries the refreshed token; how each ending is reported, error codes included |
| AuthClient.AuthTab.InitAuthChannel | apps/web/lib/auth-client.ts:50-69 | idempotent opening of the channel |
| AuthClient.AuthTab.OnMessage | apps/web/lib/auth-client.ts:59-68 | a broadcast token is remembered with its time and announced; an empty one changes nothing |
| AuthClient.AuthTab.RefreshAccessToken | apps/web/lib/auth-client.ts:129-136 | join the flight, or open the channel and start one that carries the caller's own stale token |
| AuthClient.AuthTab.LockGranted | apps/web/lib/auth-client.ts:113-126 | reuse a token heard under ten seconds ago that is not the stale one, else fetch |
| AuthClient.AuthTab.ResponseArrived | apps/web/lib/auth-client.ts:71-106 | dead exactly on 401 or 403, minted exactly on 200 to 299 with a token, transient otherwise; only dead keeps the flight, now signing out |
| RefreshInvariants.StepKeepsTabs | apps/web/lib/auth-client.ts:108-136 | every step keeps: exactly the tabs with a flight are queued, once each, only the head is past queueing, and calls wait exactly where a flight is under way |
| RefreshInvariants.StepKeepsSync | apps/web/lib/auth-client.ts:108-136 | every step keeps: unless an exchange was torn, only the lock holder's exchange exists, and every cookie in the jar or on its way is the accepted one or its replacement is on its way |
| RefreshInvariants.RunKeepsSound | apps/web/lib/auth-client.ts:71-136 | all of it along every run |
| RefreshTheorems.OneRefreshAtATime | apps/web/lib/auth-client.ts:108-136 | in every interleaving of any number of tabs one tab at most is past the lock, and without torn exchanges at most one refresh request exists anywhere |
| RefreshTheorems.HistoryIsExact | services/backend/app/services/auth_service.py:166-216 | which single steps tear an exchange, find a reuse, or slip, exactly |
| RefreshTheorems.HistoryOfRun | services/backend/app/services/auth_service.py:166-216 | a run's record of tears and slips is exactly that of its steps |
| RefreshTheorems.ReuseNeedsATear | services/backend/app/services/auth_service.py:166-216 | without torn exchanges the reuse check never fires and never can on any request under way |
| RefreshTheorems.StrandsExactly | apps/web/lib/auth-client.ts:97-105 | a step lets a live session coexist with a client that left, or is told to, exactly when it strands: a slip and, for a mere write-back, only if somebody has left |
| RefreshTheorems.StrandedExactly | apps/web/lib/auth-client.ts:97-105 | a run never does so in any of its states exactly when none of its steps strands |
| RefreshTheorems.SignedOutIsDead | apps/web/lib/auth-client.ts:97-105 | a signed-out client's session is dead, on every run without a stranding step |
| RefreshTheorems.SignsOutExactly | apps/web/lib/logoutClient.ts:76-89 | wiping and signing out happens exactly on a refresh answered 401 or 403 or a confirmed logout, never on network errors, other statuses or a missing token |
| RefreshTheorems.CalmRunsAreSafe | services/backend/app/api/auth_routes.py:98-205 | with the store up, the user active, nobody refusing in between and no revocation inside a rotation: no reuse, no live session left, both cookies kept |
| RefreshTheorems.LostRotationEndsSession | services/backend/app/services/auth_service.py:166-216 | from every initial state one lost rotation answer leads to a revoked session and a signed-out user without any logout |
| RefreshTheorems.OutOfStepEndsSession | services/backend/app/services/auth_service.py:195-205 | a jar out of step with the server loses the session at its next refresh |
| ReuseRisk.ReuseExactly | services/backend/app/services/auth_service.py:195-205 | in every reachable state with a live session, whatever was torn before: a tear-free continuation finds a reuse exactly when a stale request is on its way, or a request crosses another armed exchange, or a browser with its cookies would present a stale one or has left an armed exchange behind |
| ReuseRisk.StepKeepsRiskAway | services/backend/app/services/auth_service.py:166-216 | no tear-free step finds a reuse or brings that risk where there is none |
| ReuseRisk.FirstTearExactly | services/backend/app/services/auth_service.py:166-216 | the first tear of a run, of any kind, makes a reuse possible exactly when the jar still has the session cookie |
| ReuseRisk.TornYetSafe | services/backend/app/api/auth_routes.py:156-161 | from every initial state, a torn run with a live session after which no reuse is possible |
| ReuseRisk.QuietRefreshExactly | services/backend/app/services/auth_service.py:195-205 | with nothing under way the next refresh is taken for reuse exactly when the jar's token is not the accepted one |
| RefreshTheorems.LogoutRacesRotation | services/backend/app/services/auth_service.py:186-224 | a logout between a rotation's read and write is confirmed and undone |
| RefreshTheorems.RefreshAnswerIsHonest | services/backend/app/api/auth_routes.py:98-168 | delivering an answer that ends the session leaves a live one exactly when giving it was a slip |
| RefreshTheorems.LogoutAnswerIsHonest | services/backend/app/api/auth_routes.py:174-205 | the same for a confirmed logout |
| SharedRefresh.OutcomeIsShared | apps/web/lib/auth-client.ts:129-136 | every step either leaves all callers of a flight waiting or empties the slot and gives them all one outcome, which then stays |
| SharedRefresh.TokenProvenance | apps/web/lib/auth-client.ts:113-126 | a caller gets a token only if it was minted for this tab now, or broadcast under ten seconds ago and different from the stale one |
| SharedRefresh.GrantsReuse | apps/web/lib/auth-client.ts:113-124 | a queue of tabs that have heard the token empties without a single request |
| SharedRefresh.OneRotationServesTheQueue | apps/web/lib/auth-client.ts:108-127 | k tabs queued on stale tokens rotate once, in every run from the delivery on in which each has heard the token under ten seconds before its turn: turns go in queue order, the queue's send nothing, and each call that waited has the new token once its tab had its turn |
| SharedRefresh.PromptScheduleServes | apps/web/lib/auth-client.ts:113-126 | one such run in full, after which the queue is empty and no further request was sent |
| RefreshOutcomes.CallGetsExactly | apps/web/lib/auth-client.ts:71-136 | every step, for every waiting call: either it hands the call its outcome, empties the slot and passes the lock on, or call and flight stay; which outcome, in statuses and times alone |
| RefreshOutcomes.DeliveryDecides | apps/web/lib/auth-client.ts:82-105 | a refresh answered 401 or 403 keeps the lock, signs out and leaves the callers waiting; 200 to 299 with a token hands it to all of them; anything else tells all of them it is unavailable |
| RefreshOutcomes.SignsOutWithTheHolder | apps/web/lib/auth-client.ts:97-101 | a delivery signs the user out exactly when the lock holder enters its sign-out |
| RefreshOutcomes.SignOutExpires | apps/web/lib/auth-client.ts:100-101 | when the sign-out returns the slot is emptied and every caller is told the session has expired |
| RefreshOutcomes.FlightIsItsCalls | apps/web/lib/auth-client.ts:108-136 | a flight starts with a call and carries that call's token to its end |
| RefreshOutcomes.JoinWaits | apps/web/lib/auth-client.ts:129-136 | a call that asks waits for its own tab's flight; a new flight queues last, with the channel open |
| RefreshOutcomes.HearsExactly | apps/web/lib/auth-client.ts:59-68 | what a tab remembers is the broadcast it received last, with the time it received it |
| RefreshOutcomes.PostsExactly | apps/web/lib/auth-client.ts:82-93 | a new token is posted to every other tab with an open channel, and nothing else ever is |
| RefreshOutcomes.RefreshComesTo | services/backend/app/api/auth_routes.py:98-168 | one whole refresh from rest, for any session, cookies, store, user and ending: what it makes of the session, the jar and the call; the user is signed out exactly where the session has expired |
| RefreshOutcomes.LogoutGoesOn | apps/web/lib/logoutClient.ts:56-89 | a logout ends confirmed or after its second attempt; a first attempt that fails sends the second with the cookie the jar then has |
| RefreshOutcomes.TwoAttemptsAtMost | apps/web/lib/logoutClient.ts:56-74 | along every run no logout is past its second attempt |
| RefreshOutcomes.LogoutComesTo | services/backend/app/api/auth_routes.py:174-205 | an undisturbed logout signs out, empties the jar, and revokes the session if the request carried its cookie and the store was up |
| LogoutClient.Session.RevokeBackendSession | apps/web/lib/logoutClient.ts:56-74 | true exactly when one of at most two attempts is confirmed, and no attempt follows a confirmation |
| LogoutClient.Session.ClearUserPiiStorage | apps/web/lib/logoutClient.ts:32-50 | exactly the five keys go from both storages, except those whose removal throws |
| LogoutClient.Session.PerformLogout | apps/web/lib/logoutClient.ts:76-89 | no half-logout: without confirmation nothing changes, with it data is wiped and signOut called once |
| HydrationRecovery.ProbeExactly | apps/web/lib/hydrationRecovery.ts:128-152 | each of the seven statuses is answered exactly where the document shows it: "wedged" exactly when nothing throws and the first property whose key starts with __reactContainer$ holds a fiber without child whose root has finished work |
| HydrationRecovery.ProbeRoot | apps/web/lib/hydrationRecovery.ts:128-152 | the scan and its branches compute that status |
| HydrationRecovery.RenderedCount | apps/web/lib/hydrationRecovery.ts:100-108 | positive exactly when some child is not a script, template, style or link |
| HydrationRecovery.Script.OnErrorEvent | apps/web/lib/hydrationRecovery.ts:86-97 | which messages set which flag |
| HydrationRecovery.Script.ShowBox | apps/web/lib/hydrationRecovery.ts:185-188 | shown once, timer stopped |
| HydrationRecovery.Script.Tick | apps/web/lib/hydrationRecovery.ts:245-265 | one poll, state for state |
| WatchdogRuns.VariablesMean | apps/web/lib/hydrationRecovery.ts:67-97 | after any events every variable equals its description in terms of the whole history |
| WatchdogRuns.BoxIsExact | apps/web/lib/hydrationRecovery.ts:245-265 | the box appears exactly at the first tick that ends an unbroken unsuppressed wedged stretch of 1.5 s, or comes 12 s after load, with nothing ever rendered; its reason says which |
| WatchdogRuns.OnceAndNeverOverContent | apps/web/lib/hydrationRecovery.ts:185-265 | one box at most, none at or after a tick that saw content |
| WatchdogRuns.OnlyBackstopAfterRetry | apps/web/lib/hydrationRecovery.ts:86-97 | after a 418 or 423 that follows a 329 only the backstop can fire |
| WatchdogRuns.BackstopLatency | apps/web/lib/hydrationRecovery.ts:264-267 | with ticks at most g apart and nothing rendered the box is there by 12 s + g |
| WatchdogRuns.WedgedLatency | apps/web/lib/hydrationRecovery.ts:255-267 | a root wedged at every tick from w on is reported by w + 1.5 s + 2g |
| WatchdogPages.PageBoxExactly | apps/web/lib/hydrationRecovery.ts:86-267 | in terms of documents, tags and messages: the box is shown exactly when some look finds a page blank all along and either a root stuck, with no retry, at every look for 1500 ms or 12000 ms gone by; by the first such look, with the reason it gives |
| WatchdogPages.BlankPageLatency | apps/web/lib/hydrationRecovery.ts:264-267 | a page of scripts, templates, styles and links only has its box by 12 s + g |
| WatchdogPages.StuckPageLatency | apps/web/lib/hydrationRecovery.ts:255-267 | a blank page whose documents all show a stuck root from w on, with no retry, has it by w + 1.5 s + 2g |
| RateLimit.Limiter.CheckRateLimit | apps/web/lib/rateLimit.ts:76-99 | one call changes only its own list, and how |
| RateLimit.KeptIsEnough | apps/web/lib/rateLimit.ts:87-97 | the pruned list answers every later call like the full history |
| RateLimit.AnswersAreTheRule | apps/web/lib/rateLimit.ts:76-99 | a call is accepted exactly when fewer than max accepted calls lie in its window |
| RateLimit.WindowsHoldAtMostMax | apps/web/lib/rateLimit.ts:76-99 | no window, whenever it ends, holds more than max accepted calls |
| RateLimit.DeniedExactly | apps/web/lib/rateLimit.ts:88-95 | a call is denied exactly when its window holds max accepted ones |
| RateLimit.RetryAfterIsLeast | apps/web/lib/rateLimit.ts:89-94 | retryAfter is the least number of whole seconds after which the next call is allowed |
| RateLimit.KeptIsSmall | apps/web/lib/rateLimit.ts:87-97 | the list kept for a key never holds more than max times |
| RateLimit.ListsAreSeparate | apps/web/lib/rateLimit.ts:80-87 | two requests share a list exactly when address and key agree, an absent, empty or "default" key being one |
| RateLimit.LimitsAreIndependent | apps/web/lib/rateLimit.ts:76-99 | however requests under different limits interleave, each is answered as if only those under its own had come |
| CoingeckoCache.Cache.GetCached | apps/web/lib/coingeckoCache.ts:14-40 | the read with its effects on both tiers |
| CoingeckoCache.Cache.GetStaleCache | apps/web/lib/coingeckoCache.ts:42-55 | the stale read, which changes nothing |
| CoingeckoCache.Cache.SetCached | apps/web/lib/coingeckoCache.ts:57-80 | the write in every way storage may take it |
| CoingeckoCache.WriteLeaves | apps/web/lib/coingeckoCache.ts:57-80 | a write taken at once or on the retry is in storage, one refused leaves its key as it was, a purge takes its victim only, and memory always has the entry |
| CoingeckoCache.LandedWriteSurvives | apps/web/lib/coingeckoCache.ts:14-80 | after a reload such a key reads as written until it expires |
| CoingeckoCache.WriteOnServer | apps/web/lib/coingeckoCache.ts:22-66 | outside the browser a write is in memory only and reads there until it expires |
| CoingeckoCache.HitOutlivesStorage | apps/web/lib/coingeckoCache.ts:14-40 | what a read found is in memory from then on and reads alike while it lasts, whatever becomes of storage |
| CoingeckoCache.ReadsAsExpiringMap | apps/web/lib/coingeckoCache.ts:14-80 | with a fixed time to live per key, a key written in this page load reads as in a plain expiring map whatever storage refuses or purges; any other answer is the unexpired stored value |
| CoingeckoCache.ReadsAsExpiringMapExactly | apps/web/lib/coingeckoCache.ts:14-80 | after any run, with any times to live, a written key reads as in the expiring map exactly when its last write is unexpired or neither tier holds an unexpired entry for it; otherwise it reads as an entry stored before and still unexpired |
| CoingeckoCache.OlderValueReturns | apps/web/lib/coingeckoCache.ts:57-80 | a history of three writes after which an older value is read once the newer has expired |
| CoingeckoCache.StaleFallbackExactly | apps/web/hooks/useCoinGecko.ts:49-63 | after a miss the stale fallback has something exactly when memory has the key and storage has no entry |
| SingleFlight.RunKeepsSound | apps/web/lib/walletAuth.ts:144-178 | slots and unreleased flights are the same thing, flights of a key follow each other, callers keep their flight and their answer, along every run |
| SingleFlight.AnswerGivesOutcome | apps/web/lib/walletAuth.ts:144-178 | answering a caller hands it the outcome of the flight it joined and touches nobody else |
| SingleFlight.OneFlightPerKey | apps/web/lib/walletAuth.ts:144-178 | at most one running operation per key, the one in its slot, and all callers of a flight are answered alike |
| MarketFetch.Inflight.FetchWithDedup | apps/web/lib/coingeckoCache.ts:85-118 | a request leaves only when none is pending for the URL, through the proxy for upstream URLs |
| MarketFetch.ProxiesExactly | apps/web/lib/coingeckoCache.ts:93-99 | upstream URLs go to the proxy under the same path, no others are rerouted |
| MarketFetch.PendingExactly | apps/web/lib/coingeckoCache.ts:101-117 | after every run of fetches and settlements a URL is in the table exactly while a request for it is pending, at most one is, and callers of one request were answered alike |
| WalletAuth.Maps.SignOnceStart | apps/web/lib/walletAuth.ts:106-133 | join the pending signature of the address or start one |
| WalletAuth.Maps.EnsureSessionStart | apps/web/lib/walletAuth.ts:137-173 | the live cached session, else join, else sign and start an exchange |
| WalletAuth.Maps.ExchangeSettled | apps/web/lib/walletAuth.ts:162-172 | a successful exchange is cached as it settles |
| WalletAuth.SessionsAreShared | apps/web/lib/walletAuth.ts:137-179 | in every interleaving: one exchange per address, one answer per exchange, the cache filled before the slot empties, and no new exchange while an earlier session lives |
| WalletAuth.ExchangeNeedsOwnSignature | services/backend/app/api/wallet_session_routes.py:57-65 | after any run a new exchange can succeed exactly when no signature was pending for its address |
| TransactionPersistence.Component.OnSubmitted | apps/web/_archive/custodial-persistence/TransactionPersistence.tsx:36-62 | one create for the submission when signed in, one stash of its payload otherwise |
| TransactionPersistence.Component.OnCreated | apps/web/_archive/custodial-persistence/TransactionPersistence.tsx:42-57 | remember the record and apply the waiting confirmation |
| TransactionPersistence.Component.OnConfirmed | apps/web/_archive/custodial-persistence/TransactionPersistence.tsx:64-104 | update the created or the listed record, else wait, else stash |
| TransactionPersistence.ConfirmGoesTo | apps/web/_archive/custodial-persistence/TransactionPersistence.tsx:69-88 | while signed in exactly one of three: the record the client's create returned, else the first listed one of the same hash and chain, else waiting |
| TransactionPersistence.LogsMean | apps/web/_archive/custodial-persistence/TransactionPersistence.tsx:37-104 | after any events the creates issued are the submissions that came while signed in, in order, and the stash is the submissions and confirmations that came while signed out, in order, with their fields |
| TransactionPersistence.RefsMean | apps/web/_archive/custodial-persistence/TransactionPersistence.tsx:15-20 | after any events: who is pending and what was applied, in terms of the history |
| TransactionPersistence.ConfirmationsConserved | apps/web/_archive/custodial-persistence/TransactionPersistence.tsx:36-104 | each confirmation is applied once, or pending, or overwritten by a later one that also waited |
| TransactionPersistence.AllAppliedExactly | apps/web/_archive/custodial-persistence/TransactionPersistence.tsx:36-104 | once the record exists all were applied exactly when at most one had to wait |
| TransactionPersistence.SecondConfirmationOverwrites | apps/web/_archive/custodial-persistence/TransactionPersistence.tsx:86 | two different ones before the create returns: only the second is applied |
| TransactionPersistence.HandOffCompletes | apps/web/_archive/custodial-persistence/TransactionPersistence.tsx:36-104 | in every order in which only outstanding creates return: each client confirmed once whose create succeeds had that create issued and gets exactly one update, for its own confirmation, and nothing stays pending |
| TransactionPersistence.UpdatesHitTheRightRecord | apps/web/_archive/custodial-persistence/TransactionPersistence.tsx:44-84 | every update goes to a record the client's own create returned, or to a listed transaction of the same hash and chain |
| Regex.EndsExactly | services/backend/app/logging_config.py:56-85 | backtracking finds exactly the matches of the usual relation between a pattern and a stretch of text |
| RedactSecrets.SubReplacesLeftmost | services/backend/app/logging_config.py:99-104 | a substitution replaces exactly the leftmost matches: the text splits into stretches no match starts in and matches of a kept group and a rest, and only the rests become the mask |
| RedactSecrets.SixReplaceLeftmost | services/backend/app/logging_config.py:99-104 | so do all six, with their masks |
| RedactSecrets.NeedsIsSound | services/backend/app/logging_config.py:87-91 | whatever matches contains a marker the analysis finds |
| RedactSecrets.PatternsNeedMarkers | services/backend/app/logging_config.py:56-91 | each of the six patterns needs a marker |
| RedactSecrets.SubIsIdentity | services/backend/app/logging_config.py:97-104 | substituting such a pattern leaves a text without markers alone |
| RedactSecrets.FastPathIsExact | services/backend/app/logging_config.py:87-105 | skipping the six substitutions never changes the output |
| RedactShapes.AlchemyKeyMasked | services/backend/app/logging_config.py:55-58 | an Alchemy URL is redacted to its scheme, host and path and [REDACTED], for every host and every key of the pattern's alphabet |
| RedactShapes.SegmentKeyMasked | services/backend/app/logging_config.py:59-63 | so is any http URL with /v2/ and a key of 20 or more key characters, on every host |
| RedactShapes.BotTokenMasked | services/backend/app/logging_config.py:70-76 | a Telegram bot's id and token are masked, the method called stays |
| RedactShapes.PasswordMasked | services/backend/app/logging_config.py:64-69 | the password of a connection string is masked, for every password of the pattern's alphabet; scheme, user and the rest stay |
| RedactShapes.BearerTokenMasked | services/backend/app/logging_config.py:77-78 | "Bearer" or "bearer", spaces, and any token with its padding become the word, the spaces and [REDACTED] |
| RedactShapes.RsendKeyMasked | services/backend/app/logging_config.py:79-85 | any key behind one of the four prefixes becomes the prefix and [REDACTED] |
| RedactShapes.Alphabets | services/backend/app/logging_config.py:56-85 | the character classes, as lists of characters |
| AcceptLanguage.NegotiateLocale | apps/web/i18n/acceptLanguage.ts:9-40 | the loops, the sort and the scan compute the function the next rows are about |
| AcceptLanguage.ChoiceIsArgmax | apps/web/i18n/acceptLanguage.ts:16-39 | the answer belongs to the supported entry of greatest positive quality, the earliest among equals, the exact tag before its base; the default exactly when there is none |
| AcceptLanguage.MatchExactly | apps/web/i18n/acceptLanguage.ts:34-38 | a language is served as itself if supported, else as what stands before its first hyphen, if that is |
| AcceptLanguage.WeightsDecide | apps/web/i18n/acceptLanguage.ts:20-38 | of two supported languages with positive weights, read from q parameters with any spaces around them, the heavier is served, the first on a tie; a weight that is no number counts as 1 |
| AcceptLanguage.WildcardIgnored | apps/web/i18n/acceptLanguage.ts:17-19 | the wildcard and an entry without language name none, whatever their parameters |
| AcceptLanguage.PartIgnored | apps/web/i18n/acceptLanguage.ts:17-39 | an unsupported, unreadable or weightless part can stand anywhere in the list |
| AcceptLanguage.EntryIgnored | apps/web/i18n/acceptLanguage.ts:14-39 | and so can such an entry in the header text |
| AcceptLanguage.OuterEntryIgnored | apps/web/i18n/acceptLanguage.ts:14-39 | also as the first or the last entry |
| AcceptLanguage.ExcludedAnswerExactly | apps/web/i18n/acceptLanguage.ts:29-39 | a supported language excluded by an entry of no weight is served exactly when the preferred other entry reduces to it, or none is usable and it is the default |
| AcceptLanguage.ExclusionOverridden | apps/web/i18n/acceptLanguage.ts:29-39 | any header of an exclusion and a usable entry that reduces to the excluded language is answered with it |
| AcceptLanguage.ExcludedYetChosen | apps/web/i18n/acceptLanguage.ts:29-39 | such a header, with English |

## Left out

- RedactShapes.PasswordMasked: a user name with an underscore, or an http login followed by a path, can also meet another of the six patterns; there only the decomposition of `RedactSecrets.SixReplaceLeftmost` is proved.
- RedactShapes.SegmentKeyMasked: a path before /v2/ is covered by the decomposition alone.
- AmountText.PrintThenParse: states nothing for zero and negative values, which the form's parser refuses and the printer never meets.
- SplitShares.OnchainAmounts: an empty share list is excluded, since the source then writes to an element that is not there.
- LogoutClient.Session.RevokeBackendSession: the four-second timeout is not timed; a timeout is a network error.
- RateLimit.RetryAfterIsLeast: assumes max is at least 1; with max 0 and an empty window the source computes NaN, which the model's answer records as no number.
- Refreshing without Web Locks: the source itself gives up the cross-tab promise there.
- Logging in again, and several browsers on one account: the protocol model follows one login.
- Clears and address switches while a wallet session is being opened: the source promises no single flight there.
- `waitForToken` and `getClientIp`: a bounded poll and a choice among headers, which would add only easy members.
- Cookie attributes, token hashing and signing, JSON, HTTP and Redis: abstract operations of the steps.
- Cache entries that parse as JSON but have no entry's shape.
- The recovery box's text and styling, and the DOM it is put into.
- `SecretRedactionFilter` and `setup_logging`: they apply the modelled function to log records.
- `generate_random_bps`: floating-point weights; its asserted postcondition is the precondition of the allocation theorems.
- The contract's transfers, permits and reentrancy guard, the backend indexer, intents and webhooks: only the shared split rule is compared.
- React components, hooks, layouts, drawing and PDF generation.
