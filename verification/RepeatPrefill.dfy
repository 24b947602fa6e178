/**
 The repeat-payment gate (apps/web/lib/repeatPrefill.ts): turn a stored payment row
 into initial values of the create form, or refuse and name the field. Chain table,
 address validators and lower-casing come from elsewhere and are parameters.
 */
module RepeatPrefill {
  import opened Wrappers
  import opened Sums
  import opened SplitShares
  import opened ShareTheorems
  import opened AmountText

  const SPLIT_MIN := 2
  const SPLIT_MAX := 20

  datatype Family = Evm | Tron

  datatype Token = Token(symbol: string, decimals: nat)

  datatype Chain = Chain(chain: string, family: Family, tokens: seq<Token>, splitAvailable: bool)

  /** What the gate takes from other modules. */
  datatype Env = Env(
    chains: seq<Chain>,
    lower: string -> string,
    isAddress: string -> bool,
    isTronAddress: string -> bool)

  /** Shares and positions are JavaScript numbers, so they need not be integers. */
  datatype Leg = Leg(address: string, shareBps: real, position: real)

  /** `amount` is String(row.amount). */
  datatype Row = Row(
    chain: Option<string>,
    currency: string,
    amount: string,
    split: Option<seq<Leg>>,
    recipient: Option<string>)

  datatype Wallets = Wallets(evm: Option<string>, tron: Option<string>)

  datatype PrefillLeg = PrefillLeg(address: string, amount: string)

  datatype Prefill =
    | SinglePayee(amount: string, chain: string, token: string, recipient: string)
    | SplitPayees(amount: string, chain: string, token: string, legs: seq<PrefillLeg>)

  datatype Field = ChainField | TokenField | AmountField | RecipientField | RecipientTronField | SplitField

  datatype Result = Resolved(values: Prefill) | Refused(field: Field)

  // ── Table lookups ───────────────────────────────────────────

  function ChainFor(chains: seq<Chain>, name: string): Option<Chain> {
    if chains == [] then None
    else if chains[0].chain == name then Some(chains[0])
    else ChainFor(chains[1..], name)
  }

  function TokenDecimals(tokens: seq<Token>, symbol: string): Option<nat> {
    if tokens == [] then None
    else if tokens[0].symbol == symbol then Some(tokens[0].decimals)
    else TokenDecimals(tokens[1..], symbol)
  }

  // ── Order by position ───────────────────────────────────────

  function InsertByPosition(leg: Leg, sorted: seq<Leg>): seq<Leg> {
    if sorted == [] || leg.position < sorted[0].position then [leg] + sorted
    else [sorted[0]] + InsertByPosition(leg, sorted[1..])
  }

  /** [...legs].sort((a, b) => a.position - b.position): the stable ascending order. */
  function SortByPosition(legs: seq<Leg>): seq<Leg> {
    if legs == [] then [] else InsertByPosition(legs[|legs| - 1], SortByPosition(legs[..|legs| - 1]))
  }

  lemma {:induction false} InsertLength(leg: Leg, sorted: seq<Leg>)
    ensures |InsertByPosition(leg, sorted)| == |sorted| + 1
  {
    if sorted != [] {
      InsertLength(leg, sorted[1..]);
    }
  }

  lemma {:induction false} SortLength(legs: seq<Leg>)
    ensures |SortByPosition(legs)| == |legs|
  {
    if legs != [] {
      SortLength(legs[..|legs| - 1]);
      InsertLength(legs[|legs| - 1], SortByPosition(legs[..|legs| - 1]));
    }
  }

  predicate Ascending(legs: seq<Leg>) {
    forall i, j | 0 <= i < j < |legs| :: legs[i].position <= legs[j].position
  }

  /** Leg i sits at position i. */
  predicate InPlace(legs: seq<Leg>) {
    forall i | 0 <= i < |legs| :: legs[i].position == i as real
  }

  // ── The gate ────────────────────────────────────────────────

  predicate IsInteger(x: real) {
    x.Floor as real == x
  }

  function SharesIn(legs: seq<Leg>): seq<int> {
    seq(|legs|, i requires 0 <= i < |legs| => legs[i].shareBps.Floor)
  }

  predicate WholeShares(legs: seq<Leg>) {
    forall i | 0 <= i < |legs| :: IsInteger(legs[i].shareBps) && legs[i].shareBps >= 1.0
  }

  function Lowered(env: Env, legs: seq<Leg>): seq<string> {
    seq(|legs|, i requires 0 <= i < |legs| => env.lower(legs[i].address))
  }

  function AsSet(s: seq<string>): set<string> {
    set x | x in s
  }

  /** new Set(lower-cased addresses).size is the number of legs. */
  predicate DistinctAddresses(env: Env, legs: seq<Leg>) {
    |AsSet(Lowered(env, legs))| == |legs|
  }

  predicate ValidAddresses(env: Env, legs: seq<Leg>) {
    forall i | 0 <= i < |legs| :: env.isAddress(legs[i].address)
  }

  function LegTexts(legs: seq<Leg>, amounts: seq<int>, decimals: nat): seq<PrefillLeg>
    requires |legs| == |amounts| && AllPositive(amounts)
  {
    seq(|legs|, i requires 0 <= i < |legs| => PrefillLeg(legs[i].address, FormatBase(amounts[i], decimals)))
  }

  /** Step 4 of the source, check by check. */
  function SplitLegs(env: Env, chain: Chain, legs: seq<Leg>, total: nat, decimals: nat): Option<seq<PrefillLeg>> {
    if !chain.splitAvailable then None
    else if |legs| < SPLIT_MIN || |legs| > SPLIT_MAX then None
    else
      var ordered := SortByPosition(legs);
      SortLength(legs);
      if !InPlace(ordered) then None
      else if !ValidAddresses(env, ordered) then None
      else if !DistinctAddresses(env, ordered) then None
      else if !WholeShares(ordered) then None
      else
        var bps := SharesIn(ordered);
        if Sum(bps) != BPS_TOTAL then None
        else
          var amounts := Onchain(total, bps);
          if !AllPositive(amounts) then None
          else
            var rederived := SharesOf(amounts, total);
            if rederived != Some(bps) then None
            else Some(LegTexts(ordered, amounts, decimals))
  }

  predicate AddressValidFor(env: Env, family: Family, address: string) {
    if family.Tron? then env.isTronAddress(address) else env.isAddress(address)
  }

  predicate WalletSet(wallets: Wallets, family: Family) {
    var wallet := if family.Tron? then wallets.tron else wallets.evm;
    wallet.Some? && wallet.value != ""
  }

  /** The network a row names, as the table lists it. */
  function ChainName(env: Env, row: Row): string {
    env.lower(if row.chain.Some? then row.chain.value else "")
  }

  function RowChain(env: Env, row: Row): Option<Chain> {
    ChainFor(env.chains, ChainName(env, row))
  }

  /** Steps 4 and 5 of the source: the split, the recipient, or the payout wallet. */
  function ResolvePayee(env: Env, row: Row, wallets: Wallets, chain: Chain, decimals: nat, total: nat): Result {
    if row.split.Some? && |row.split.value| > 0 then
      var legs := SplitLegs(env, chain, row.split.value, total, decimals);
      if legs.None? then Refused(SplitField)
      else Resolved(SplitPayees(row.amount, chain.chain, row.currency, legs.value))
    else if row.recipient.Some? then
      if !AddressValidFor(env, chain.family, row.recipient.value) then Refused(RecipientField)
      else Resolved(SinglePayee(row.amount, chain.chain, row.currency, row.recipient.value))
    else if !WalletSet(wallets, chain.family) then
      Refused(if chain.family.Tron? then RecipientTronField else RecipientField)
    else Resolved(SinglePayee(row.amount, chain.chain, row.currency, ""))
  }

  function ResolveRepeatPrefill(env: Env, row: Row, wallets: Wallets): Result {
    var chainDef := RowChain(env, row);
    if chainDef.None? then Refused(ChainField)
    else
      var chain := chainDef.value;
      var decimals := TokenDecimals(chain.tokens, row.currency);
      if decimals.None? then Refused(TokenField)
      else
        var total := AmountToBase(row.amount, decimals.value);
        if total.None? then Refused(AmountField)
        else ResolvePayee(env, row, wallets, chain, decimals.value, total.value)
  }

  // ── Sorting ─────────────────────────────────────────────────

  lemma {:induction false} InsertAdds(leg: Leg, sorted: seq<Leg>)
    ensures multiset(InsertByPosition(leg, sorted)) == multiset(sorted) + multiset{leg}
  {
    if sorted != [] && leg.position >= sorted[0].position {
      InsertAdds(leg, sorted[1..]);
      assert sorted == [sorted[0]] + sorted[1..];
    }
  }

  lemma {:induction false} InsertAscends(leg: Leg, sorted: seq<Leg>)
    requires Ascending(sorted)
    ensures Ascending(InsertByPosition(leg, sorted))
    ensures forall x | x in InsertByPosition(leg, sorted) :: x == leg || x in sorted
  {
    if sorted != [] && leg.position >= sorted[0].position {
      var rest := InsertByPosition(leg, sorted[1..]);
      InsertAscends(leg, sorted[1..]);
      forall j | 0 <= j < |rest| ensures sorted[0].position <= rest[j].position {
        assert rest[j] in rest;
      }
    }
  }

  lemma {:induction false} SortKeeps(legs: seq<Leg>)
    ensures multiset(SortByPosition(legs)) == multiset(legs)
    ensures Ascending(SortByPosition(legs))
  {
    if legs != [] {
      var front, last := legs[..|legs| - 1], legs[|legs| - 1];
      SortKeeps(front);
      InsertAdds(last, SortByPosition(front));
      InsertAscends(last, SortByPosition(front));
      assert legs == front + [last];
    }
  }

  lemma SameLength(a: seq<Leg>, b: seq<Leg>)
    requires multiset(a) == multiset(b)
    ensures |a| == |b|
  {
    assert |multiset(a)| == |multiset(b)|;
  }

  /** The leg at the last position is last in any ascending arrangement. */
  lemma LastOfInPlace(a: seq<Leg>, b: seq<Leg>)
    requires multiset(a) == multiset(b) && |a| == |b| > 0 && InPlace(a) && Ascending(b)
    ensures b[|b| - 1] == a[|a| - 1]
  {
    var m := |a| - 1;
    assert a[m] in multiset(b);
    var j :| 0 <= j < |b| && b[j] == a[m];
    assert b[m] in multiset(a);
    var k :| 0 <= k < |a| && a[k] == b[m];
  }

  lemma WithoutLast(a: seq<Leg>, front: seq<Leg>, last: Leg)
    requires a == front + [last]
    ensures multiset(front) == multiset(a) - multiset{last}
    ensures InPlace(a) ==> InPlace(front)
    ensures Ascending(a) ==> Ascending(front)
  {
    assert forall i | 0 <= i < |front| :: front[i] == a[i];
  }

  /** Legs that sit in place are the only ascending arrangement of themselves. */
  lemma {:induction false} InPlaceIsUnique(a: seq<Leg>, b: seq<Leg>)
    requires multiset(a) == multiset(b) && InPlace(a) && Ascending(b)
    ensures a == b
    decreases |a|, 1
  {
    SameLength(a, b);
    if a != [] {
      LastOfInPlace(a, b);
      var m := |a| - 1;
      var last := a[m];
      SnocUnique(a, b, a[..m], b[..m], last);
    }
  }

  lemma {:induction false} SnocUnique(a: seq<Leg>, b: seq<Leg>, frontA: seq<Leg>, frontB: seq<Leg>, last: Leg)
    requires a == frontA + [last] && b == frontB + [last]
    requires multiset(a) == multiset(b) && InPlace(a) && Ascending(b)
    ensures a == b
    decreases |a|, 0
  {
    WithoutLast(a, frontA, last);
    WithoutLast(b, frontB, last);
    InPlaceIsUnique(frontA, frontB);
  }

  // ── Exactly which split rows are repeatable ─────────────────

  /** A leg the gate takes at position i. */
  predicate IsRepeatableLeg(env: Env, leg: Leg, i: nat) {
    && leg.position == i as real && env.isAddress(leg.address)
    && leg.shareBps == leg.shareBps.Floor as real && leg.shareBps >= 1.0
  }

  /** The arrangement of a repeatable split: no sorting, no set, no re-derivation. */
  predicate IsRepeatable(env: Env, ordered: seq<Leg>, total: nat) {
    && 2 <= |ordered| <= 20
    && (forall i | 0 <= i < |ordered| :: IsRepeatableLeg(env, ordered[i], i))
    && (forall i, j | 0 <= i < j < |ordered| :: env.lower(ordered[i].address) != env.lower(ordered[j].address))
    && Sum(SharesIn(ordered)) == 10000
    && (forall i | 1 <= i < |ordered| :: 2 * ((total * ordered[i].shareBps.Floor) % 10000) <= total)
  }

  lemma {:induction false} DistinctBySize(s: seq<string>)
    ensures |AsSet(s)| <= |s|
    ensures |AsSet(s)| == |s| <==> forall i, j | 0 <= i < j < |s| :: s[i] != s[j]
  {
    if s == [] {
      assert AsSet(s) == {};
    } else {
      var n := |s| - 1;
      var front, last := s[..n], s[n];
      DistinctBySize(front);
      assert s == front + [last];
      assert AsSet(s) == AsSet(front) + {last};
      if last in front {
        assert AsSet(s) == AsSet(front);
      } else {
        assert |AsSet(s)| == |AsSet(front)| + 1;
        assert forall i | 0 <= i < n :: s[i] == front[i] && s[i] in front;
      }
    }
  }

  lemma DistinctExactly(env: Env, legs: seq<Leg>)
    ensures DistinctAddresses(env, legs) <==>
              forall i, j | 0 <= i < j < |legs| :: env.lower(legs[i].address) != env.lower(legs[j].address)
  {
    var lowered := Lowered(env, legs);
    DistinctBySize(lowered);
    if DistinctAddresses(env, legs) {
      forall i, j | 0 <= i < j < |legs| ensures env.lower(legs[i].address) != env.lower(legs[j].address) {
        assert lowered[i] != lowered[j];
      }
    }
  }

  /** The arrangement's description in the gate's own terms. */
  lemma RepeatableMeans(env: Env, ordered: seq<Leg>, total: nat)
    ensures IsRepeatable(env, ordered, total) <==>
              && SPLIT_MIN <= |ordered| <= SPLIT_MAX && InPlace(ordered)
              && ValidAddresses(env, ordered) && DistinctAddresses(env, ordered) && WholeShares(ordered)
              && Sum(SharesIn(ordered)) == BPS_TOTAL && FitsEveryLeg(total, SharesIn(ordered))
  {
    DistinctExactly(env, ordered);
    forall i | 1 <= i < |ordered|
      ensures Dropped(total, SharesIn(ordered)[i]) == (total * ordered[i].shareBps.Floor) % 10000
    {
    }
    if IsRepeatable(env, ordered, total) {
      assert forall i | 0 <= i < |ordered| :: IsRepeatableLeg(env, ordered[i], i);
    }
  }

  lemma GateOnArranged(env: Env, chain: Chain, legs: seq<Leg>, ordered: seq<Leg>, total: nat, decimals: nat)
    requires total > 0 && multiset(legs) == multiset(ordered) && InPlace(ordered)
    ensures SortByPosition(legs) == ordered
    ensures SplitLegs(env, chain, legs, total, decimals).Some? <==>
              chain.splitAvailable && IsRepeatable(env, ordered, total)
    ensures IsRepeatable(env, ordered, total) ==>
              IsShareVector(SharesIn(ordered)) && RoundTrips(total, SharesIn(ordered))
  {
    SortKeeps(legs);
    InPlaceIsUnique(ordered, SortByPosition(legs));
    assert |multiset(legs)| == |multiset(ordered)|;
    RepeatableMeans(env, ordered, total);
    var bps := SharesIn(ordered);
    if WholeShares(ordered) && |ordered| >= 2 && Sum(bps) == BPS_TOTAL {
      assert IsShareVector(bps);
      RoundTripCriterion(total, bps);
    }
  }

  /**
   A split row passes the gate exactly when some arrangement of its legs is
   repeatable: legs at positions 0..n-1, distinct valid addresses, whole shares adding
   to 10000, and no leg beyond the first dropping more than half of the total's share.
   */
  lemma GateIsExact(env: Env, chain: Chain, legs: seq<Leg>, total: nat, decimals: nat)
    requires total > 0
    ensures SplitLegs(env, chain, legs, total, decimals).Some? <==>
              && chain.splitAvailable
              && exists ordered :: multiset(ordered) == multiset(legs) && IsRepeatable(env, ordered, total)
  {
    if SplitLegs(env, chain, legs, total, decimals).Some? {
      SortKeeps(legs);
      var ordered := SortByPosition(legs);
      GateOnArranged(env, chain, legs, ordered, total, decimals);
      assert IsRepeatable(env, ordered, total);
    }
    if exists ordered :: multiset(ordered) == multiset(legs) && IsRepeatable(env, ordered, total) {
      var ordered :| multiset(ordered) == multiset(legs) && IsRepeatable(env, ordered, total);
      GateOnArranged(env, chain, legs, ordered, total, decimals);
    }
  }

  /** From 19998 base units up the re-derivation proof never refuses a well-formed split. */
  lemma LargeSplitsRepeat(env: Env, chain: Chain, legs: seq<Leg>, ordered: seq<Leg>, total: nat, decimals: nat)
    requires total >= 19998 && multiset(legs) == multiset(ordered) && 2 <= |ordered| <= 20
    requires forall i | 0 <= i < |ordered| :: IsRepeatableLeg(env, ordered[i], i)
    requires forall i, j | 0 <= i < j < |ordered| :: env.lower(ordered[i].address) != env.lower(ordered[j].address)
    requires Sum(SharesIn(ordered)) == 10000
    ensures SplitLegs(env, chain, legs, total, decimals).Some? <==> chain.splitAvailable
  {
    GateOnArranged(env, chain, legs, ordered, total, decimals);
  }

  // ── The answer does not depend on the stored order ──────────

  lemma GateIgnoresOrder(env: Env, chain: Chain, a: seq<Leg>, b: seq<Leg>, total: nat, decimals: nat)
    requires multiset(a) == multiset(b)
    ensures SplitLegs(env, chain, a, total, decimals) == SplitLegs(env, chain, b, total, decimals)
  {
    SortKeeps(a);
    SortKeeps(b);
    assert |multiset(a)| == |multiset(b)|;
    var sa, sb := SortByPosition(a), SortByPosition(b);
    if InPlace(sa) {
      InPlaceIsUnique(sa, sb);
    } else if InPlace(sb) {
      InPlaceIsUnique(sb, sa);
    }
  }

  /** Permuting the stored legs never changes the prefill, nor the refusal. */
  lemma PermutationInvariant(env: Env, row: Row, legs: seq<Leg>, wallets: Wallets)
    requires row.split.Some? && multiset(legs) == multiset(row.split.value)
    ensures ResolveRepeatPrefill(env, row.(split := Some(legs)), wallets)
         == ResolveRepeatPrefill(env, row, wallets)
  {
    assert |multiset(legs)| == |multiset(row.split.value)|;
    var chain := RowChain(env, row);
    if chain.Some? {
      var decimals := TokenDecimals(chain.value.tokens, row.currency);
      if decimals.Some? {
        var total := AmountToBase(row.amount, decimals.value);
        if total.Some? {
          GateIgnoresOrder(env, chain.value, legs, row.split.value, total.value, decimals.value);
        }
      }
    }
  }

  // ── End to end ──────────────────────────────────────────────

  /** The amounts the form reads back from the prefilled texts. */
  function ReadBack(legs: seq<PrefillLeg>, decimals: nat): seq<Option<int>> {
    seq(|legs|, i requires 0 <= i < |legs| => Widen(AmountToBase(legs[i].amount, decimals)))
  }

  function Widen(o: Option<nat>): Option<int> {
    match o
    case None => None
    case Some(v) => Some(v)
  }

  /** The texts read back as positive amounts adding up to the total, the last one what the form's balance row shows. */
  predicate ReadsAsSplit(read: seq<Option<int>>, total: nat) {
    && |read| >= 2
    && (forall i | 0 <= i < |read| :: read[i].Some? && read[i].value > 0)
    && Sum(Known(read)) == total
    && Remainder(total, read[..|read| - 1]) == read[|read| - 1]
  }

  /** The creation math turns the amounts into the stored shares, leg for leg. */
  predicate DerivesShares(amounts: seq<int>, ordered: seq<Leg>, total: nat) {
    && SharesOf(amounts, total) == Some(SharesIn(ordered))
    && forall i | 0 <= i < |ordered| :: ordered[i].shareBps == SharesIn(ordered)[i] as real
  }

  predicate SameAddresses(legs: seq<PrefillLeg>, ordered: seq<Leg>) {
    |legs| == |ordered| && forall i | 0 <= i < |legs| :: legs[i].address == ordered[i].address
  }

  /** The prefilled legs stand for the stored split. */
  predicate Reproduces(legs: seq<PrefillLeg>, ordered: seq<Leg>, total: nat, decimals: nat) {
    && SameAddresses(legs, ordered)
    && ReadsAsSplit(ReadBack(legs, decimals), total)
    && DerivesShares(Known(ReadBack(legs, decimals)), ordered, total)
  }

  /** The prefill is on the row's own network, in its own token at that token's decimals there, for its own amount. */
  predicate KeepsTerms(env: Env, row: Row, values: Prefill, decimals: nat) {
    var chain := RowChain(env, row);
    && chain.Some? && chain.value in env.chains && chain.value.chain == ChainName(env, row)
    && TokenDecimals(chain.value.tokens, row.currency) == Some(decimals)
    && Token(row.currency, decimals) in chain.value.tokens
    && values.chain == ChainName(env, row) && values.token == row.currency && values.amount == row.amount
  }

  /** Every branch that resolves copies the row's terms. */
  lemma TermsCopied(env: Env, row: Row, wallets: Wallets)
    requires ResolveRepeatPrefill(env, row, wallets).Resolved?
    ensures var values := ResolveRepeatPrefill(env, row, wallets).values;
            && RowChain(env, row).Some?
            && TokenDecimals(RowChain(env, row).value.tokens, row.currency).Some?
            && AmountToBase(row.amount, TokenDecimals(RowChain(env, row).value.tokens, row.currency).value).Some?
            && values.chain == RowChain(env, row).value.chain
            && values.token == row.currency && values.amount == row.amount
  {
  }

  lemma TermsKept(env: Env, row: Row, wallets: Wallets) returns (decimals: nat)
    ensures ResolveRepeatPrefill(env, row, wallets).Resolved? ==>
              && KeepsTerms(env, row, ResolveRepeatPrefill(env, row, wallets).values, decimals)
              && AmountToBase(row.amount, decimals).Some?
  {
    decimals := 0;
    if ResolveRepeatPrefill(env, row, wallets).Resolved? {
      TermsCopied(env, row, wallets);
      ChainForFinds(env.chains, ChainName(env, row));
      TokenDecimalsFinds(RowChain(env, row).value.tokens, row.currency);
      decimals := TokenDecimals(RowChain(env, row).value.tokens, row.currency).value;
    }
  }

  /** A repeated split reproduces its source exactly, at the precision the form itself uses. */
  lemma RepeatReproducesSplit(env: Env, row: Row, wallets: Wallets)
    returns (ordered: seq<Leg>, decimals: nat, total: nat)
    ensures var r := ResolveRepeatPrefill(env, row, wallets);
            IsSplitPrefill(r) ==>
              && KeepsTerms(env, row, r.values, decimals) && AmountToBase(row.amount, decimals) == Some(total)
              && row.split.Some? && multiset(ordered) == multiset(row.split.value) && InPlace(ordered)
              && Reproduces(r.values.legs, ordered, total, decimals)
  {
    ordered, total := [], 0;
    decimals := TermsKept(env, row, wallets);
    if IsSplitPrefill(ResolveRepeatPrefill(env, row, wallets)) {
      total := AmountToBase(row.amount, decimals).value;
      ordered := SortByPosition(row.split.value);
      SortKeeps(row.split.value);
      LegsReadBack(env, RowChain(env, row).value, row.split.value, total, decimals);
    }
  }

  predicate IsSplitPrefill(r: Result) {
    r.Resolved? && r.values.SplitPayees?
  }

  lemma LegsReadBack(env: Env, chain: Chain, legs: seq<Leg>, total: nat, decimals: nat)
    ensures SplitLegs(env, chain, legs, total, decimals).Some? ==>
              && InPlace(SortByPosition(legs))
              && Reproduces(SplitLegs(env, chain, legs, total, decimals).value, SortByPosition(legs), total, decimals)
  {
    if SplitLegs(env, chain, legs, total, decimals).Some? {
      SortLength(legs);
      TextsReproduce(SortByPosition(legs), total, decimals);
    }
  }

  lemma TextsReproduce(ordered: seq<Leg>, total: nat, decimals: nat)
    requires |ordered| >= 2 && WholeShares(ordered)
    requires AllPositive(Onchain(total, SharesIn(ordered))) && RoundTrips(total, SharesIn(ordered))
    ensures Reproduces(LegTexts(ordered, Onchain(total, SharesIn(ordered)), decimals), ordered, total, decimals)
  {
    var amounts := Onchain(total, SharesIn(ordered));
    var legs := LegTexts(ordered, amounts, decimals);
    TextsReadBack(ordered, amounts, decimals);
    OnchainConserves(total, SharesIn(ordered));
    AmountsReadAsSplit(ReadBack(legs, decimals), amounts, total);
    SharesAreWhole(ordered);
  }

  lemma AmountsReadAsSplit(read: seq<Option<int>>, amounts: seq<int>, total: nat)
    requires |read| == |amounts| >= 2 && AllPositive(amounts) && Sum(amounts) == total
    requires forall i | 0 <= i < |read| :: read[i] == Some(amounts[i])
    requires forall i | 0 <= i < |read| :: read[i].Some?
    requires Known(read) == amounts
    ensures ReadsAsSplit(read, total)
  {
    BalanceRow(total, read, amounts);
  }

  lemma SharesAreWhole(ordered: seq<Leg>)
    requires WholeShares(ordered)
    ensures forall i | 0 <= i < |ordered| :: ordered[i].shareBps == SharesIn(ordered)[i] as real
  {
  }

  lemma TextsReadBack(ordered: seq<Leg>, amounts: seq<int>, decimals: nat)
    requires |ordered| == |amounts| && AllPositive(amounts)
    ensures var read := ReadBack(LegTexts(ordered, amounts, decimals), decimals);
            && |read| == |amounts|
            && (forall i | 0 <= i < |read| :: read[i] == Some(amounts[i]))
            && Known(read) == amounts
  {
    var read := ReadBack(LegTexts(ordered, amounts, decimals), decimals);
    forall i | 0 <= i < |read| ensures read[i] == Some(amounts[i]) {
      PrintThenParse(amounts[i], decimals);
    }
  }

  lemma BalanceRow(total: int, rows: seq<Option<int>>, amounts: seq<int>)
    requires |rows| == |amounts| >= 1 && Sum(amounts) == total
    requires forall i | 0 <= i < |rows| :: rows[i] == Some(amounts[i])
    ensures Remainder(total, rows[..|rows| - 1]) == rows[|rows| - 1]
  {
    var m := |rows| - 1;
    assert Known(rows[..m]) == amounts[..m];
  }

  // ── Single payee ────────────────────────────────────────────

  /**
   Without a split the gate never invents a payee: a stored recipient is carried
   verbatim and only if valid for the chain's family, and the empty override appears
   only for a row without recipient whose family's payout wallet is set.
   */
  lemma SinglePayeeIsFaithful(env: Env, row: Row, wallets: Wallets) returns (decimals: nat)
    requires ResolveRepeatPrefill(env, row, wallets).Resolved?
    requires ResolveRepeatPrefill(env, row, wallets).values.SinglePayee?
    ensures row.split.None? || row.split.value == []
    ensures var values := ResolveRepeatPrefill(env, row, wallets).values;
            && KeepsTerms(env, row, values, decimals) && AmountToBase(row.amount, decimals).Some?
            && var family := RowChain(env, row).value.family;
               match row.recipient
               case Some(a) => values.recipient == a && AddressValidFor(env, family, a)
               case None => values.recipient == "" && WalletSet(wallets, family)
  {
    decimals := TermsKept(env, row, wallets);
  }

  // ── Exactly which rows resolve, and what refuses the others ─

  /** The first chain of the table under the row's name, lower-cased; a row without chain names "". */
  predicate OnNetwork(env: Env, row: Row, chain: Chain) {
    exists k | 0 <= k < |env.chains| ::
      && env.chains[k] == chain && chain.chain == env.lower(if row.chain.None? then "" else row.chain.value)
      && forall j | 0 <= j < k :: env.chains[j].chain != chain.chain
  }

  /** The first token of the chain under the row's symbol. */
  predicate InToken(chain: Chain, row: Row, decimals: nat) {
    exists k | 0 <= k < |chain.tokens| ::
      && chain.tokens[k] == Token(row.currency, decimals)
      && forall j | 0 <= j < k :: chain.tokens[j].symbol != row.currency
  }

  ghost predicate Worth(row: Row, decimals: nat, total: nat) {
    total > 0 && Denotes(row.amount, decimals, total)
  }

  /** Chain, token and amount are in order. */
  ghost predicate OnTerms(env: Env, row: Row, chain: Chain, decimals: nat, total: nat) {
    OnNetwork(env, row, chain) && InToken(chain, row, decimals) && Worth(row, decimals, total)
  }

  /** The row's payee can be paid again on this chain. */
  ghost predicate Repayable(env: Env, row: Row, wallets: Wallets, chain: Chain, total: nat) {
    if row.split.Some? && row.split.value != [] then
      && chain.splitAvailable
      && exists ordered :: multiset(ordered) == multiset(row.split.value) && IsRepeatable(env, ordered, total)
    else match (row.recipient, chain.family)
      case (Some(address), Evm) => env.isAddress(address)
      case (Some(address), Tron) => env.isTronAddress(address)
      case (None, Evm) => wallets.evm.Some? && wallets.evm.value != ""
      case (None, Tron) => wallets.tron.Some? && wallets.tron.value != ""
  }

  /** The field named where the payee cannot be. */
  function PayeeField(row: Row, chain: Chain): Field {
    if row.split.Some? && row.split.value != [] then SplitField
    else if row.recipient.None? && chain.family == Tron then RecipientTronField
    else RecipientField
  }

  lemma {:induction false} ChainForExactly(chains: seq<Chain>, name: string, chain: Chain)
    ensures ChainFor(chains, name) == Some(chain) <==>
              exists k | 0 <= k < |chains| ::
                chains[k] == chain && chain.chain == name && forall j | 0 <= j < k :: chains[j].chain != name
  {
    if chains != [] {
      ChainForExactly(chains[1..], name, chain);
      if chains[0].chain != name {
        if k :| 0 <= k < |chains[1..]| && chains[1..][k] == chain && chain.chain == name
                && forall j | 0 <= j < k :: chains[1..][j].chain != name {
          assert chains[k + 1] == chain;
          assert forall j | 0 < j < k + 1 :: chains[j] == chains[1..][j - 1];
        }
        if k :| 0 <= k < |chains| && chains[k] == chain && chain.chain == name
                && forall j | 0 <= j < k :: chains[j].chain != name {
          assert chains[1..][k - 1] == chain;
        }
      }
    }
  }

  lemma {:induction false} TokenDecimalsExactly(tokens: seq<Token>, symbol: string, decimals: nat)
    ensures TokenDecimals(tokens, symbol) == Some(decimals) <==>
              exists k | 0 <= k < |tokens| ::
                tokens[k] == Token(symbol, decimals) && forall j | 0 <= j < k :: tokens[j].symbol != symbol
  {
    if tokens != [] {
      TokenDecimalsExactly(tokens[1..], symbol, decimals);
      if tokens[0].symbol != symbol {
        if k :| 0 <= k < |tokens[1..]| && tokens[1..][k] == Token(symbol, decimals)
                && forall j | 0 <= j < k :: tokens[1..][j].symbol != symbol {
          assert tokens[k + 1] == Token(symbol, decimals);
          assert forall j | 0 < j < k + 1 :: tokens[j] == tokens[1..][j - 1];
        }
        if k :| 0 <= k < |tokens| && tokens[k] == Token(symbol, decimals)
                && forall j | 0 <= j < k :: tokens[j].symbol != symbol {
          assert tokens[1..][k - 1] == Token(symbol, decimals);
        }
      }
    }
  }

  lemma NetworkIs(env: Env, row: Row)
    ensures forall chain :: OnNetwork(env, row, chain) <==> RowChain(env, row) == Some(chain)
  {
    forall chain ensures OnNetwork(env, row, chain) <==> RowChain(env, row) == Some(chain) {
      ChainForExactly(env.chains, ChainName(env, row), chain);
    }
  }

  lemma TokenIs(chain: Chain, row: Row)
    ensures forall decimals: nat ::
              InToken(chain, row, decimals) <==> TokenDecimals(chain.tokens, row.currency) == Some(decimals)
  {
    forall decimals: nat
      ensures InToken(chain, row, decimals) <==> TokenDecimals(chain.tokens, row.currency) == Some(decimals)
    {
      TokenDecimalsExactly(chain.tokens, row.currency, decimals);
    }
  }

  lemma WorthIs(row: Row, decimals: nat)
    ensures forall total: nat :: Worth(row, decimals, total) <==> AmountToBase(row.amount, decimals) == Some(total)
  {
    forall total: nat ensures Worth(row, decimals, total) <==> AmountToBase(row.amount, decimals) == Some(total) {
      ParserMeetsGrammar(row.amount, decimals, total);
    }
  }

  lemma SplitDecides(env: Env, row: Row, wallets: Wallets, chain: Chain, decimals: nat, total: nat)
    requires total > 0 && row.split.Some? && row.split.value != []
    ensures ResolvePayee(env, row, wallets, chain, decimals, total).Resolved? <==>
              Repayable(env, row, wallets, chain, total)
  {
    GateIsExact(env, chain, row.split.value, total, decimals);
  }

  lemma PayeeIs(env: Env, row: Row, wallets: Wallets, chain: Chain, decimals: nat, total: nat)
    requires total > 0
    ensures var r := ResolvePayee(env, row, wallets, chain, decimals, total);
            if Repayable(env, row, wallets, chain, total) then r.Resolved? else r == Refused(PayeeField(row, chain))
  {
    if row.split.Some? && row.split.value != [] {
      SplitDecides(env, row, wallets, chain, decimals, total);
    }
  }

  /** With terms in order the answer depends on the payee alone. */
  lemma PayeeDecides(env: Env, row: Row, wallets: Wallets, chain: Chain, decimals: nat, total: nat)
    requires RowChain(env, row) == Some(chain) && TokenDecimals(chain.tokens, row.currency) == Some(decimals)
    requires total > 0 && AmountToBase(row.amount, decimals) == Some(total)
    ensures ResolveRepeatPrefill(env, row, wallets) == ResolvePayee(env, row, wallets, chain, decimals, total)
    ensures var r := ResolveRepeatPrefill(env, row, wallets);
            if Repayable(env, row, wallets, chain, total) then r.Resolved? else r == Refused(PayeeField(row, chain))
  {
    assert ResolveRepeatPrefill(env, row, wallets) == ResolvePayee(env, row, wallets, chain, decimals, total);
    PayeeIs(env, row, wallets, chain, decimals, total);
  }

  /** Terms in order are the ones the code looks up. */
  lemma TermsAre(env: Env, row: Row, chain: Chain, decimals: nat, total: nat)
    ensures OnTerms(env, row, chain, decimals, total) <==>
              && RowChain(env, row) == Some(chain) && TokenDecimals(chain.tokens, row.currency) == Some(decimals)
              && AmountToBase(row.amount, decimals) == Some(total)
  {
    NetworkIs(env, row);
    TokenIs(chain, row);
    WorthIs(row, decimals);
  }

  /** The row resolves exactly when its terms are in order and its payee can be paid again. */
  lemma ResolvesExactly(env: Env, row: Row, wallets: Wallets)
    ensures ResolveRepeatPrefill(env, row, wallets).Resolved? <==>
              exists chain, decimals, total ::
                OnTerms(env, row, chain, decimals, total) && Repayable(env, row, wallets, chain, total)
  {
    forall chain, decimals, total | OnTerms(env, row, chain, decimals, total)
      ensures ResolveRepeatPrefill(env, row, wallets).Resolved? <==> Repayable(env, row, wallets, chain, total)
    {
      TermsAre(env, row, chain, decimals, total);
      PayeeDecides(env, row, wallets, chain, decimals, total);
    }
    if ResolveRepeatPrefill(env, row, wallets).Resolved? {
      var decimals := TermsKept(env, row, wallets);
      TermsAre(env, row, RowChain(env, row).value, decimals, AmountToBase(row.amount, decimals).value);
    }
  }

  /** No payee is refused for the chain, the token or the amount. */
  lemma PayeeRefusals(env: Env, row: Row, wallets: Wallets, chain: Chain, decimals: nat, total: nat)
    ensures ResolvePayee(env, row, wallets, chain, decimals, total) !in
              {Refused(ChainField), Refused(TokenField), Refused(AmountField)}
  {
  }

  /** The lookups decide which of the row's terms is refused. */
  lemma TermsDecide(env: Env, row: Row, wallets: Wallets)
    ensures var r := ResolveRepeatPrefill(env, row, wallets);
            match RowChain(env, row)
            case None => r == Refused(ChainField)
            case Some(chain) =>
              match TokenDecimals(chain.tokens, row.currency)
              case None => r == Refused(TokenField)
              case Some(decimals) =>
                && r != Refused(ChainField) && r != Refused(TokenField)
                && (r == Refused(AmountField) <==> AmountToBase(row.amount, decimals) == None)
  {
    if RowChain(env, row).Some? {
      var chain := RowChain(env, row).value;
      var decimals := TokenDecimals(chain.tokens, row.currency);
      if decimals.Some? {
        var total := AmountToBase(row.amount, decimals.value);
        if total.Some? {
          PayeeRefusals(env, row, wallets, chain, decimals.value, total.value);
        }
      }
    }
  }

  /** The chain is refused exactly when the table has none under the row's name, */
  lemma ChainRefusedExactly(env: Env, row: Row, wallets: Wallets)
    ensures ResolveRepeatPrefill(env, row, wallets) == Refused(ChainField) <==>
              !exists chain :: OnNetwork(env, row, chain)
  {
    TermsDecide(env, row, wallets);
    NetworkIs(env, row);
    if RowChain(env, row).Some? {
      assert OnNetwork(env, row, RowChain(env, row).value);
    }
  }

  /** the token exactly when that chain has none under its symbol, */
  lemma TokenRefusedExactly(env: Env, row: Row, wallets: Wallets)
    ensures ResolveRepeatPrefill(env, row, wallets) == Refused(TokenField) <==>
              exists chain :: OnNetwork(env, row, chain) && !exists decimals :: InToken(chain, row, decimals)
  {
    TermsDecide(env, row, wallets);
    NetworkIs(env, row);
    if RowChain(env, row).Some? {
      var chain := RowChain(env, row).value;
      assert OnNetwork(env, row, chain);
      TokenIs(chain, row);
      if TokenDecimals(chain.tokens, row.currency).Some? {
        assert InToken(chain, row, TokenDecimals(chain.tokens, row.currency).value);
      }
    }
  }

  /** and the amount exactly when it denotes nothing positive at that token's decimals. */
  lemma AmountRefusedExactly(env: Env, row: Row, wallets: Wallets)
    ensures ResolveRepeatPrefill(env, row, wallets) == Refused(AmountField) <==>
              exists chain, decimals ::
                && OnNetwork(env, row, chain) && InToken(chain, row, decimals)
                && forall total :: !Worth(row, decimals, total)
  {
    TermsDecide(env, row, wallets);
    forall chain, decimals: nat | OnNetwork(env, row, chain) && InToken(chain, row, decimals)
      ensures RowChain(env, row) == Some(chain) && TokenDecimals(chain.tokens, row.currency) == Some(decimals)
    {
      NetworkIs(env, row);
      TokenIs(chain, row);
    }
    if RowChain(env, row).Some? && TokenDecimals(RowChain(env, row).value.tokens, row.currency).Some? {
      var chain := RowChain(env, row).value;
      var decimals := TokenDecimals(chain.tokens, row.currency).value;
      NetworkIs(env, row);
      TokenIs(chain, row);
      WorthIs(row, decimals);
      assert OnNetwork(env, row, chain) && InToken(chain, row, decimals);
      if AmountToBase(row.amount, decimals).Some? {
        assert Worth(row, decimals, AmountToBase(row.amount, decimals).value);
      }
    }
  }

  /** With the terms in order, split, recipient or wallet is the field named exactly when the payee fails. */
  lemma PayeeRefusesExactly(env: Env, row: Row, wallets: Wallets, field: Field)
    requires field == SplitField || field == RecipientField || field == RecipientTronField
    ensures ResolveRepeatPrefill(env, row, wallets) == Refused(field) <==>
              exists chain, decimals, total ::
                && OnTerms(env, row, chain, decimals, total) && !Repayable(env, row, wallets, chain, total)
                && field == PayeeField(row, chain)
  {
    forall chain, decimals, total | OnTerms(env, row, chain, decimals, total)
      ensures ResolveRepeatPrefill(env, row, wallets) == Refused(field) <==>
                !Repayable(env, row, wallets, chain, total) && field == PayeeField(row, chain)
    {
      TermsAre(env, row, chain, decimals, total);
      PayeeDecides(env, row, wallets, chain, decimals, total);
    }
    if ResolveRepeatPrefill(env, row, wallets) == Refused(field) {
      var chain := RowChain(env, row).value;
      var decimals := TokenDecimals(chain.tokens, row.currency).value;
      TermsAre(env, row, chain, decimals, AmountToBase(row.amount, decimals).value);
    }
  }

  lemma {:induction false} ChainForFinds(chains: seq<Chain>, name: string)
    ensures ChainFor(chains, name).Some? ==>
              ChainFor(chains, name).value in chains && ChainFor(chains, name).value.chain == name
  {
    if chains != [] {
      ChainForFinds(chains[1..], name);
    }
  }

  lemma {:induction false} TokenDecimalsFinds(tokens: seq<Token>, symbol: string)
    ensures TokenDecimals(tokens, symbol).Some? ==> Token(symbol, TokenDecimals(tokens, symbol).value) in tokens
  {
    if tokens != [] {
      TokenDecimalsFinds(tokens[1..], symbol);
    }
  }
}
