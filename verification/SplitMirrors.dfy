/**
 The three copies of the split rule: the form's preview (apps/web/lib/splitShares.ts), the
 router contract (packages/contracts/src/RSendsSplitRouter.sol) and the backend
 (services/backend/app/services/split_math.py). Each documents itself as the mirror of the
 others; here they are compared on every input, the contract's checked arithmetic included.
 */
module SplitMirrors {
  import opened Wrappers
  import opened Sums
  import opened SplitShares
  import opened ShareTheorems

  const MAX_UINT256: int := 0xFFFF_FFFF_FFFF_FFFF_FFFF_FFFF_FFFF_FFFF_FFFF_FFFF_FFFF_FFFF_FFFF_FFFF_FFFF_FFFF
  const MAX_RECIPIENTS := 20

  type Uint256 = x: int | 0 <= x <= MAX_UINT256
  type Uint16 = x: int | 0 <= x <= 65535

  // ── The contract ────────────────────────────────────────────

  /** The contract's custom errors, and the panic of an overflowing multiplication. */
  datatype Revert = ZeroAmount | LengthMismatch | BadRecipientCount | ZeroBps | BpsSumNot10000 | Panic

  datatype Computed = Amounts(amounts: seq<int>) | Reverted(reason: Revert)

  function FaultOf(total: int, bps: int): Option<Revert> {
    if bps == 0 then Some(ZeroBps) else if total * bps > MAX_UINT256 then Some(Panic) else None
  }

  function FaultsOf(total: int, bps: seq<int>): seq<Option<Revert>> {
    seq(|bps|, i requires 0 <= i < |bps| => FaultOf(total, bps[i]))
  }

  /** What the loop stops at. */
  function FirstFault(faults: seq<Option<Revert>>): Option<Revert> {
    if faults == [] then None
    else
      var before := FirstFault(faults[..|faults| - 1]);
      if before.Some? then before else faults[|faults| - 1]
  }

  function OnContract(total: int, nRecipients: int, bps: seq<int>): Computed {
    if total == 0 then Reverted(ZeroAmount)
    else if nRecipients != |bps| then Reverted(LengthMismatch)
    else if nRecipients < 2 || nRecipients > MAX_RECIPIENTS then Reverted(BadRecipientCount)
    else if FirstFault(FaultsOf(total, bps)).Some? then Reverted(FirstFault(FaultsOf(total, bps)).value)
    else if Sum(bps) != BPS_TOTAL then Reverted(BpsSumNot10000)
    else Amounts(Onchain(total, bps))
  }

  /** None of the other checked operations, marked by asserts, can revert. */
  method ComputeAmounts(totalAmount: Uint256, nRecipients: Uint256, sharesBps: seq<Uint16>) returns (r: Computed)
    ensures r == OnContract(totalAmount, nRecipients, sharesBps)
  {
    if totalAmount == 0 {
      return Reverted(ZeroAmount);
    }
    if nRecipients != |sharesBps| {
      return Reverted(LengthMismatch);
    }
    if nRecipients < 2 || nRecipients > MAX_RECIPIENTS {
      return Reverted(BadRecipientCount);
    }
    ghost var floors, faults := Floors(totalAmount, sharesBps), FaultsOf(totalAmount, sharesBps);
    var amounts := new int[nRecipients];
    var bpsSum, placed := 0, 0;
    for i := 0 to nRecipients
      invariant amounts[..i] == floors[..i]
      invariant Progress(totalAmount, sharesBps, i, bpsSum, placed)
      invariant 0 <= bpsSum <= i * 65535 && 0 <= placed <= i * (MAX_UINT256 / BPS_TOTAL)
    {
      var bps := sharesBps[i];
      FaultsGrow(faults, i);
      assert faults[i] == FaultOf(totalAmount, bps);
      if bps == 0 {
        return Reverted(ZeroBps);
      }
      assert bpsSum + bps <= MAX_UINT256;
      var product := totalAmount * bps;
      if product > MAX_UINT256 {
        return Reverted(Panic);
      }
      LegFits(totalAmount, bps, product);
      LegComputed(totalAmount, sharesBps, i, bpsSum, placed);
      amounts[i] := product / BPS_TOTAL;
      assert amounts[..i + 1] == floors[..i] + [floors[i]];
      assert placed + amounts[i] <= MAX_UINT256;
      bpsSum, placed := bpsSum + bps, placed + amounts[i];
    }
    assert sharesBps[..nRecipients] == sharesBps && floors[..nRecipients] == floors && faults[..nRecipients] == faults;
    if bpsSum != BPS_TOTAL {
      return Reverted(BpsSumNot10000);
    }
    assert amounts[..] == floors;
    RemainderFits(totalAmount, sharesBps);
    assert 0 <= totalAmount - placed && amounts[0] + (totalAmount - placed) <= MAX_UINT256;
    amounts[0] := amounts[0] + (totalAmount - placed);
    assert amounts[..] == floors[0 := floors[0] + (totalAmount - placed)];
    r := Amounts(amounts[..]);
  }

  lemma LegFits(total: Uint256, bps: Uint16, product: int)
    requires product == total * bps && bps != 0 && product <= MAX_UINT256
    ensures FaultOf(total, bps).None?
    ensures TruncDiv(total * bps, BPS_TOTAL) == product / BPS_TOTAL
    ensures 0 <= product / BPS_TOTAL <= MAX_UINT256 / BPS_TOTAL
  {
    assert product >= 0;
  }

  /** The loop's counters after i shares, none of which stopped it. */
  ghost predicate Progress(total: int, bps: seq<int>, i: nat, bpsSum: int, placed: int)
    requires i <= |bps|
  {
    FirstFault(FaultsOf(total, bps)[..i]).None? && bpsSum == Sum(bps[..i]) && placed == Sum(Floors(total, bps)[..i])
  }

  lemma LegComputed(total: int, bps: seq<int>, i: nat, bpsSum: int, placed: int)
    requires i < |bps| && Progress(total, bps, i, bpsSum, placed) && FaultOf(total, bps[i]).None?
    ensures var floors := Floors(total, bps);
            && floors[i] == TruncDiv(total * bps[i], BPS_TOTAL)
            && floors[..i + 1] == floors[..i] + [floors[i]]
            && Progress(total, bps, i + 1, bpsSum + bps[i], placed + floors[i])
  {
    FaultsGrow(FaultsOf(total, bps), i);
    PrefixGrows(bps, i);
    PrefixGrows(Floors(total, bps), i);
  }

  /** Once the loop has stopped at share i, later shares do not matter. */
  lemma {:induction false} FaultsStay(faults: seq<Option<Revert>>, i: nat)
    requires i <= |faults| && FirstFault(faults[..i]).Some?
    ensures FirstFault(faults) == FirstFault(faults[..i])
    decreases |faults| - i
  {
    if i == |faults| {
      assert faults[..i] == faults;
    } else {
      assert faults[..i + 1][..i] == faults[..i];
      FaultsStay(faults, i + 1);
    }
  }

  lemma FaultsGrow(faults: seq<Option<Revert>>, i: nat)
    requires i < |faults| && FirstFault(faults[..i]).None?
    ensures FirstFault(faults[..i + 1]) == faults[i]
    ensures faults[i].Some? ==> FirstFault(faults) == faults[i]
  {
    assert faults[..i + 1][..i] == faults[..i];
    if faults[i].Some? {
      FaultsStay(faults, i + 1);
    }
  }

  lemma {:induction false} NoFaults(faults: seq<Option<Revert>>)
    ensures FirstFault(faults).None? <==> forall i | 0 <= i < |faults| :: faults[i].None?
  {
    if faults != [] {
      NoFaults(faults[..|faults| - 1]);
    }
  }

  lemma NoLegFaults(total: int, bps: seq<int>)
    ensures FirstFault(FaultsOf(total, bps)).None? <==>
              (forall i | 0 <= i < |bps| :: bps[i] != 0) && NoLegOverflows(total, bps)
  {
    var faults := FaultsOf(total, bps);
    MaxIs256Bits();
    NoFaults(faults);
    forall i | 0 <= i < |bps| ensures faults[i].None? <==> bps[i] != 0 && total * bps[i] <= MAX_UINT256 {
    }
    assert (forall i | 0 <= i < |faults| :: faults[i].None?) <==>
             (forall i | 0 <= i < |bps| :: bps[i] != 0 && total * bps[i] <= MAX_UINT256);
  }

  function Pow2(n: nat): nat {
    if n == 0 then 1 else 2 * Pow2(n - 1)
  }

  lemma {:induction false} Pow2Adds(m: nat, n: nat)
    ensures Pow2(m + n) == Pow2(m) * Pow2(n)
  {
    if m > 0 {
      Pow2Adds(m - 1, n);
      Doubled(Pow2(m - 1), Pow2(n));
    }
  }

  lemma Doubled(x: nat, y: nat)
    ensures 2 * (x * y) == 2 * x * y
  {
  }

  /** MAX_UINT256 is the greatest 256-bit number. */
  lemma MaxIs256Bits()
    ensures MAX_UINT256 == Pow2(256) - 1
  {
    var n := 8;
    assert Pow2(8) == 0x100;
    Pow2Adds(8, 8);
    assert Pow2(16) == 0x1_0000;
    Pow2Adds(16, 16);
    assert Pow2(32) == 0x1_0000_0000;
    Pow2Adds(32, 32);
    assert Pow2(64) == 0x1_0000_0000_0000_0000;
    Pow2Adds(64, 64);
    assert Pow2(128) == 0x1_0000_0000_0000_0000_0000_0000_0000_0000;
    Pow2Adds(128, 128);
  }

  predicate NoLegOverflows(total: int, bps: seq<int>) {
    forall i | 0 <= i < |bps| :: total * bps[i] < Pow2(256)
  }

  lemma LegZeroAtMostTotal(total: int, bps: seq<int>)
    requires total > 0 && IsShareVector(bps)
    ensures Onchain(total, bps)[0] <= total
  {
    var amounts := Onchain(total, bps);
    DustBound(total, bps);
    OnchainConserves(total, bps);
    SumHead(amounts);
    SumAtLeast(amounts[1..], 0);
  }

  /** The last subtraction and addition cannot revert, and they give the shared rule's amounts. */
  lemma RemainderFits(total: Uint256, bps: seq<Uint16>)
    requires total > 0 && |bps| >= 2 && FirstFault(FaultsOf(total, bps)).None? && Sum(bps) == BPS_TOTAL
    ensures var floors := Floors(total, bps);
            && 0 <= total - Sum(floors) && floors[0] + (total - Sum(floors)) <= MAX_UINT256
            && Onchain(total, bps) == floors[0 := floors[0] + (total - Sum(floors))]
  {
    NoLegFaults(total, bps);
    DustBound(total, bps);
    LegZeroAtMostTotal(total, bps);
  }

  // ── The backend ─────────────────────────────────────────────

  /** compute_split_amounts; None is its ValueError. */
  method ComputeSplitAmounts(totalBaseUnits: int, sharesBps: seq<int>) returns (r: Option<seq<int>>)
    ensures r.Some? <==> totalBaseUnits > 0 && IsShareVector(sharesBps) && |sharesBps| <= 20
    ensures r.Some? ==> r.value == Onchain(totalBaseUnits, sharesBps)
  {
    if totalBaseUnits <= 0 {
      return None;
    }
    var n := |sharesBps|;
    if n < 2 || n > MAX_RECIPIENTS {
      return None;
    }
    for i := 0 to n
      invariant AllPositive(sharesBps[..i])
    {
      if sharesBps[i] <= 0 {
        return None;
      }
      assert sharesBps[..i + 1] == sharesBps[..i] + [sharesBps[i]];
    }
    assert sharesBps[..n] == sharesBps;
    if Sum(sharesBps) != BPS_TOTAL {
      return None;
    }
    var amounts := seq(n, i requires 0 <= i < n => totalBaseUnits * sharesBps[i] / BPS_TOTAL);
    forall i | 0 <= i < n ensures amounts[i] == Floors(totalBaseUnits, sharesBps)[i] {
      FloorLeg(totalBaseUnits, sharesBps[i]);
    }
    assert amounts == Floors(totalBaseUnits, sharesBps);
    r := Some(amounts[0 := amounts[0] + (totalBaseUnits - Sum(amounts))]);
  }

  // ── Agreement ───────────────────────────────────────────────

  /**
   On everything a caller can encode, the contract pays exactly where the shared rule's
   preconditions hold and no leg's product leaves 256 bits, and then it pays the preview.
   */
  lemma ContractPaysExactly(total: Uint256, bps: seq<Uint16>)
    ensures OnContract(total, |bps|, bps).Amounts? <==>
              total > 0 && IsShareVector(bps) && |bps| <= 20 && NoLegOverflows(total, bps)
    ensures OnContract(total, |bps|, bps).Amounts? ==> OnContract(total, |bps|, bps).amounts == Onchain(total, bps)
  {
    NoLegFaults(total, bps);
  }

  /** Share i is the first that stops the loop. */
  predicate StopsAt(total: int, bps: seq<int>, i: nat) {
    && i < |bps| && (bps[i] == 0 || total * bps[i] >= Pow2(256))
    && forall j | 0 <= j < i :: bps[j] != 0 && total * bps[j] < Pow2(256)
  }

  lemma {:induction false} FirstFaultIs(faults: seq<Option<Revert>>, i: nat)
    requires i < |faults| && faults[i].Some? && forall j | 0 <= j < i :: faults[j].None?
    ensures FirstFault(faults) == faults[i]
  {
    NoFaults(faults[..i]);
    FaultsGrow(faults, i);
  }

  lemma FirstFaultFound(faults: seq<Option<Revert>>) returns (i: nat)
    requires FirstFault(faults).Some?
    ensures i < |faults| && faults[i].Some? && forall j | 0 <= j < i :: faults[j].None?
  {
    NoFaults(faults);
    i := 0;
    while faults[i].None?
      invariant i < |faults| && forall j | 0 <= j < i :: faults[j].None?
      invariant exists k :: i <= k < |faults| && faults[k].Some?
      decreases |faults| - i
    {
      i := i + 1;
    }
  }

  lemma StopsExactly(total: int, bps: seq<int>, i: nat)
    ensures StopsAt(total, bps, i) ==> FirstFault(FaultsOf(total, bps)) == Some(if bps[i] == 0 then ZeroBps else Panic)
    ensures FirstFault(FaultsOf(total, bps)).Some? ==> exists k: nat :: StopsAt(total, bps, k)
  {
    var faults := FaultsOf(total, bps);
    MaxIs256Bits();
    if StopsAt(total, bps, i) {
      FirstFaultIs(faults, i);
    }
    if FirstFault(faults).Some? {
      var k := FirstFaultFound(faults);
      forall j | 0 <= j < k ensures bps[j] != 0 && total * bps[j] < Pow2(256) {
        assert faults[j] == FaultOf(total, bps[j]);
      }
      assert faults[k] == FaultOf(total, bps[k]);
      assert StopsAt(total, bps, k);
    }
  }

  /** Which error a call that passes the first three checks reverts with. */
  lemma LoopRevertsExactly(total: Uint256, bps: seq<Uint16>)
    requires total > 0 && 2 <= |bps| <= 20
    ensures var r := OnContract(total, |bps|, bps);
            && (r == Reverted(ZeroBps) <==> exists i: nat :: StopsAt(total, bps, i) && bps[i] == 0)
            && (r == Reverted(Panic) <==> exists i: nat :: StopsAt(total, bps, i) && bps[i] != 0)
            && (r == Reverted(BpsSumNot10000) <==> Sum(bps) != 10000 && forall i: nat :: !StopsAt(total, bps, i))
  {
    forall i: nat
      ensures StopsAt(total, bps, i) ==>
                FirstFault(FaultsOf(total, bps)) == Some(if bps[i] == 0 then ZeroBps else Panic)
    {
      StopsExactly(total, bps, i);
    }
    StopsExactly(total, bps, 0);
  }

  /** The first three checks, in order, and nothing else gives their errors. */
  lemma ChecksRevertExactly(total: Uint256, nRecipients: Uint256, bps: seq<Uint16>)
    ensures var r := OnContract(total, nRecipients, bps);
            && (r == Reverted(ZeroAmount) <==> total == 0)
            && (r == Reverted(LengthMismatch) <==> total > 0 && nRecipients != |bps|)
            && (r == Reverted(BadRecipientCount) <==> total > 0 && nRecipients == |bps| && !(2 <= |bps| <= 20))
  {
    if FirstFault(FaultsOf(total, bps)).Some? {
      var k := FirstFaultFound(FaultsOf(total, bps));
      StopsExactly(total, bps, k);
      assert FirstFault(FaultsOf(total, bps)) == FaultsOf(total, bps)[k] by {
        FirstFaultIs(FaultsOf(total, bps), k);
      }
    }
  }

  /**
   From the form to the chain: the shares derived from typed amounts are accepted by the
   contract whenever there are at most twenty legs and the total is below 2^256 / 10000, and
   the contract pays what the form previewed, in amounts that add up to the total.
   */
  lemma DerivedSharesArePaid(amounts: seq<int>, total: int)
    requires SharesOf(amounts, total).Some? && |amounts| <= 20 && total * 10000 < Pow2(256)
    ensures var s := SharesOf(amounts, total).value;
            && OnContract(total, |s|, s) == Amounts(Onchain(total, s))
            && Sum(Onchain(total, s)) == total
            && forall i | 0 <= i < |s| :: 0 <= Onchain(total, s)[i] <= total
  {
    var s := SharesOf(amounts, total).value;
    SharesAreClose(amounts, total);
    LegsFit(total, s);
    NoLegFaults(total, s);
    OnchainConserves(total, s);
    LegsWithinTotal(total, s);
  }

  lemma LegsFit(total: int, s: seq<int>)
    requires total > 0 && total * 10000 < Pow2(256) && forall i | 0 <= i < |s| :: 1 <= s[i] <= 9999
    ensures (forall i | 0 <= i < |s| :: s[i] != 0) && NoLegOverflows(total, s)
  {
    forall i | 0 <= i < |s| ensures total * s[i] < Pow2(256) {
      ProductOrder(total, s[i], 10000);
    }
  }

  lemma LegsWithinTotal(total: int, s: seq<int>)
    requires total > 0 && IsShareVector(s) && forall i | 0 <= i < |s| :: s[i] <= 9999
    ensures forall i | 0 <= i < |s| :: 0 <= Onchain(total, s)[i] <= total
  {
    DustBound(total, s);
    LegZeroAtMostTotal(total, s);
    forall i | 1 <= i < |s| ensures Onchain(total, s)[i] <= total {
      FloorLeg(total, s[i]);
      ProductOrder(total, s[i], BPS_TOTAL);
    }
  }
}
