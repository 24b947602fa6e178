/**
 The payroll reconciliation's allocation (packages/contracts/stress_mega_batch_reconciliation.py):
 fee first, floors for all but the last recipient, remainder to the last. It shares its
 floors with the split router's rule, which favours the first recipient instead.
 */
module MegaBatch {
  import opened Wrappers
  import opened Sums
  import opened SplitShares
  import opened ShareTheorems

  const FEE_BPS := 50

  datatype Allocation = Allocation(amounts: seq<int>, fee: int, distributable: int)

  function Fee(total: int): int {
    total * FEE_BPS / BPS_TOTAL
  }

  /** Python's floor division by BPS_DENOM. */
  function PyFloors(total: int, bps: seq<int>): seq<int> {
    seq(|bps|, i requires 0 <= i < |bps| => total * bps[i] / BPS_TOTAL)
  }

  function RemainderToLast(total: int, bps: seq<int>): seq<int>
    requires bps != []
  {
    var front := PyFloors(total, bps[..|bps| - 1]);
    front + [total - Sum(front)]
  }

  /** None when the assertion on the sum fails, which only an empty list can cause. */
  method ComputeAmounts(bps: seq<int>, total: int) returns (r: Option<Allocation>)
    ensures r.Some? <==> bps != [] || total - Fee(total) == 0
    ensures r.Some? ==> r.value.fee == Fee(total) && r.value.fee + Sum(r.value.amounts) == total
    ensures r.Some? ==> r.value.fee == total * 50 / 10000 && r.value.distributable == total - r.value.fee
    ensures r.Some? && bps != [] ==> r.value.amounts == RemainderToLast(total - Fee(total), bps)
    ensures r.Some? ==> |r.value.amounts| == |bps|
  {
    var fee := total * FEE_BPS / BPS_TOTAL;
    var distributable := total - fee;
    ghost var floors := if bps == [] then [] else PyFloors(distributable, bps[..|bps| - 1]);
    var amounts: seq<int> := [];
    var runningSum := 0;
    for i := 0 to |bps|
      invariant |amounts| == i
      invariant i < |bps| || bps == [] ==> amounts == floors[..i] && runningSum == Sum(floors[..i])
      invariant i == |bps| && bps != [] ==> amounts == floors + [distributable - Sum(floors)]
    {
      if i < |bps| - 1 {
        var amount := distributable * bps[i] / BPS_TOTAL;
        assert floors[..i + 1] == floors[..i] + [amount];
        SumSnoc(floors[..i], amount);
        amounts := amounts + [amount];
        runningSum := runningSum + amount;
      } else {
        assert floors[..i] == floors;
        amounts := amounts + [distributable - runningSum];
      }
    }
    if bps != [] {
      SumSnoc(floors, distributable - Sum(floors));
    }
    if Sum(amounts) != distributable {
      return None;
    }
    r := Some(Allocation(amounts, fee, distributable));
  }

  /** The last recipient gets its floor plus less than one unit per recipient, never less than its floor. */
  lemma LastLegBound(total: int, bps: seq<int>)
    requires total > 0 && IsShareVector(bps)
    ensures var amounts := RemainderToLast(total, bps);
            var last := |bps| - 1;
            && |amounts| == |bps| && Sum(amounts) == total
            && (forall i | 0 <= i < last :: amounts[i] == Floors(total, bps)[i])
            && amounts[last] == Floors(total, bps)[last] + Dust(total, bps)
            && Floors(total, bps)[last] <= amounts[last] <= Floors(total, bps)[last] + last
  {
    var last := |bps| - 1;
    var floors := Floors(total, bps);
    var front := PyFloors(total, bps[..last]);
    forall i | 0 <= i < |bps| ensures total * bps[i] / BPS_TOTAL == floors[i] {
      FloorLeg(total, bps[i]);
    }
    assert front == floors[..last];
    SumSnoc(front, total - Sum(front));
    DustBound(total, bps);
  }

  /** The two remainder rules pay every middle recipient alike and differ by the same dust at the ends. */
  lemma RulesDifferAtTheEnds(total: int, bps: seq<int>)
    requires total > 0 && IsShareVector(bps)
    ensures var router := Onchain(total, bps);
            var payroll := RemainderToLast(total, bps);
            var last := |bps| - 1;
            && Sum(router) == Sum(payroll) == total
            && (forall i | 0 < i < last :: router[i] == payroll[i])
            && router[0] - payroll[0] == payroll[last] - router[last] == Dust(total, bps)
            && (router == payroll <==> Dust(total, bps) == 0)
  {
    LastLegBound(total, bps);
    OnchainConserves(total, bps);
  }
}
