/**
 What the split arithmetic guarantees, for every total and every share vector:
 conservation, how far rounding moves a leg, when amounts re-derive to the shares
 they came from, and that re-quantising settles in one step.
 */
module ShareTheorems {
  import opened Wrappers
  import opened Sums
  import opened SplitShares

  /** Shares the split router accepts: at least two, each at least 1 bps, 10000 in all. */
  predicate IsShareVector(bps: seq<int>) {
    |bps| >= 2 && AllPositive(bps) && Sum(bps) == BPS_TOTAL
  }

  /** (total * bps) mod 10000: what the floor of one leg drops. */
  function Dropped(total: int, bps: int): int {
    (total * bps) % BPS_TOTAL
  }

  function Abs(x: int): nat {
    if x >= 0 then x else -x
  }

  // ── One leg ─────────────────────────────────────────────────

  lemma FloorLeg(total: int, bps: int)
    requires total > 0 && bps >= 0
    ensures var f := TruncDiv(total * bps, BPS_TOTAL);
            && f >= 0 && BPS_TOTAL * f == total * bps - Dropped(total, bps)
            && 0 <= Dropped(total, bps) < BPS_TOTAL
  {
    assert total * bps >= 0;
  }

  /** The half-up share is within half a basis point of the exact one. */
  lemma HalfUpLeg(a: int, total: int)
    requires total > 0 && a > 0
    ensures var s := HalfUp(a, total);
            -total < 2 * (total * s) - 20000 * a <= total
  {
    EuclideanBounds(a * 20000 + total, 2 * total);
    assert 2 * total * HalfUp(a, total) == 2 * (total * HalfUp(a, total));
  }

  lemma EuclideanBounds(n: int, d: int)
    requires d > 0
    ensures d * (n / d) <= n < d * (n / d) + d
  {
  }

  lemma HalfUpIs(a: int, total: int, s: int)
    requires total > 0 && a > 0
    requires -total < 2 * (total * s) - 20000 * a <= total
    ensures HalfUp(a, total) == s
  {
    HalfUpLeg(a, total);
    var t := HalfUp(a, total);
    if s < t {
      ProductOrder(total, s + 1, t);
    } else if t < s {
      ProductOrder(total, t + 1, s);
    }
  }

  /** A floored leg re-derives to its share exactly when it dropped at most half a total's worth. */
  lemma LegRoundTrip(total: int, bps: int)
    requires total > 0 && bps >= 1
    ensures var a := TruncDiv(total * bps, BPS_TOTAL);
            a > 0 && HalfUp(a, total) == bps <==> 2 * Dropped(total, bps) <= total
  {
    var a := TruncDiv(total * bps, BPS_TOTAL);
    FloorLeg(total, bps);
    assert total * bps >= total;
    if a > 0 {
      HalfUpLeg(a, total);
      if 2 * Dropped(total, bps) <= total {
        HalfUpIs(a, total, bps);
      }
    }
  }

  // ── Conservation ────────────────────────────────────────────

  /** Every share vector, valid or not, hands out exactly the total. */
  lemma OnchainConserves(total: int, bps: seq<int>)
    requires bps != []
    ensures Sum(Onchain(total, bps)) == total
  {
    var floors := Floors(total, bps);
    SumUpdate(floors, 0, floors[0] + Dust(total, bps));
  }

  /** The remainder rule never takes from leg 0 and moves fewer units than there are legs. */
  lemma DustBound(total: int, bps: seq<int>)
    requires total > 0 && IsShareVector(bps)
    ensures 0 <= Dust(total, bps) < |bps|
    ensures forall i | 0 <= i < |bps| :: Floors(total, bps)[i] >= 0
  {
    var floors := Floors(total, bps);
    forall i | 0 <= i < |bps|
      ensures floors[i] >= 0 && -9999 <= BPS_TOTAL * floors[i] - total * bps[i] <= 0
    {
      FloorLeg(total, bps[i]);
    }
    SumBetween(floors, bps, BPS_TOTAL, total, -9999, 0);
  }

  lemma LegZeroPositive(total: int, bps: seq<int>)
    requires total > 0 && IsShareVector(bps)
    ensures Onchain(total, bps)[0] > 0
  {
    DustBound(total, bps);
    var tail := bps[1..];
    var floors := Floors(total, tail);
    assert Floors(total, bps)[1..] == floors;
    forall i | 0 <= i < |tail| ensures -9999 <= BPS_TOTAL * floors[i] - total * tail[i] <= 0 {
      FloorLeg(total, tail[i]);
    }
    SumBetween(floors, tail, BPS_TOTAL, total, -9999, 0);
    SumHead(bps);
    SumHead(Floors(total, bps));
    ProductOrder(total, Sum(tail), BPS_TOTAL - 1);
  }

  lemma ProductOrder(total: int, x: int, y: int)
    requires total > 0 && x <= y
    ensures total * x <= total * y
  {
  }

  // ── When amounts re-derive to their shares ──────────────────

  /** The shares survive a trip through base units. */
  predicate RoundTrips(total: int, bps: seq<int>)
    requires bps != []
  {
    SharesOf(Onchain(total, bps), total) == Some(bps)
  }

  predicate FitsEveryLeg(total: int, bps: seq<int>) {
    forall i | 1 <= i < |bps| :: 2 * Dropped(total, bps[i]) <= total
  }

  /**
   The exact criterion: leg by leg (leg 0 excepted), flooring may drop at most half
   of the total's hundredth-of-a-percent.
   */
  lemma RoundTripCriterion(total: int, bps: seq<int>)
    requires total > 0 && IsShareVector(bps)
    ensures RoundTrips(total, bps) <==> FitsEveryLeg(total, bps)
  {
    var amounts := Onchain(total, bps);
    forall i | 1 <= i < |bps|
      ensures amounts[i] > 0 && HalfUp(amounts[i], total) == bps[i] <==> 2 * Dropped(total, bps[i]) <= total
    {
      LegRoundTrip(total, bps[i]);
    }
    OnchainConserves(total, bps);
    LegZeroPositive(total, bps);
    if RoundTrips(total, bps) {
      SharesAreRounded(amounts, total, bps);
    }
    if FitsEveryLeg(total, bps) {
      assert Rounded(amounts[1..], total) == bps[1..];
      RoundedShares(amounts, total, bps);
    }
  }

  lemma RoundedShares(amounts: seq<int>, total: int, bps: seq<int>)
    requires IsSplit(amounts, total) && IsShareVector(bps) && |bps| == |amounts|
    requires Rounded(amounts[1..], total) == bps[1..]
    ensures SharesOf(amounts, total) == Some(bps)
  {
    SumHead(bps);
    assert bps == [bps[0]] + bps[1..];
  }

  lemma SharesAreRounded(amounts: seq<int>, total: int, bps: seq<int>)
    requires SharesOf(amounts, total) == Some(bps)
    ensures |bps| == |amounts| && IsSplit(amounts, total) && IsShareVector(bps)
    ensures bps[1..] == Rounded(amounts[1..], total)
    ensures forall i | 1 <= i < |bps| :: bps[i] == HalfUp(amounts[i], total)
  {
    var tail := Rounded(amounts[1..], total);
    assert bps[1..] == tail;
    SumHead(bps);
    forall i | 1 <= i < |bps| ensures bps[i] == HalfUp(amounts[i], total) {
      assert bps[i] == tail[i - 1];
    }
  }

  /** From 19998 base units up, every share vector survives the trip. */
  lemma ThresholdSuffices(total: int, bps: seq<int>)
    requires total >= 19998 && IsShareVector(bps)
    ensures RoundTrips(total, bps)
  {
    RoundTripCriterion(total, bps);
  }

  /** One unit less is not enough: 19998 cannot be lowered. */
  lemma ThresholdIsTight()
    ensures IsShareVector([3333, 6667]) && !RoundTrips(19997, [3333, 6667])
  {
    var bps := [3333, 6667];
    assert bps[..1] == [3333] && bps[..1][..0] == [];
    assert Sum(bps) == 10000;
    RoundTripCriterion(19997, bps);
    assert 2 * Dropped(19997, bps[1]) > 19997;
  }

  // ── What SharesOf returns ───────────────────────────────────

  /** amountsToSharesBps answers exactly for splits whose every leg is worth half a bps, leg 0 included. */
  lemma SharesExist(amounts: seq<int>, total: int)
    ensures SharesOf(amounts, total).Some? <==>
              && IsSplit(amounts, total)
              && (forall i | 1 <= i < |amounts| :: 20000 * amounts[i] >= total)
              && Sum(Rounded(amounts[1..], total)) < BPS_TOTAL
  {
    if IsSplit(amounts, total) {
      var rest := amounts[1..];
      var tail := Rounded(rest, total);
      forall i | 0 <= i < |rest| ensures tail[i] >= 1 <==> 20000 * rest[i] >= total {
        RoundsToOne(rest[i], total);
      }
      assert forall i | 1 <= i < |amounts| :: amounts[i] == rest[i - 1];
    }
  }

  lemma RoundsToOne(a: int, total: int)
    requires total > 0 && a > 0
    ensures HalfUp(a, total) >= 1 <==> 20000 * a >= total
  {
    HalfUpLeg(a, total);
    var s := HalfUp(a, total);
    if s >= 1 {
      ProductOrder(total, 1, s);
    } else {
      ProductOrder(total, s, 0);
    }
  }

  /** How far a share is from its amount, in twenty-thousandths of a total. */
  function Drift(share: int, amount: int, total: int): int {
    2 * (total * share) - 20000 * amount
  }

  lemma DriftAdds(s1: int, a1: int, s2: int, a2: int, total: int)
    ensures Drift(s1 + s2, a1 + a2, total) == Drift(s1, a1, total) + Drift(s2, a2, total)
  {
    assert total * (s1 + s2) == total * s1 + total * s2;
  }

  lemma {:induction false} DriftSum(shares: seq<int>, amounts: seq<int>, total: int)
    requires |shares| == |amounts|
    requires forall i | 0 <= i < |shares| :: Abs(Drift(shares[i], amounts[i], total)) <= total
    ensures Abs(Drift(Sum(shares), Sum(amounts), total)) <= |shares| * total
  {
    if shares != [] {
      var m := |shares| - 1;
      var s, a := shares[..m], amounts[..m];
      forall i | 0 <= i < m ensures Abs(Drift(s[i], a[i], total)) <= total {
        assert s[i] == shares[i] && a[i] == amounts[i];
      }
      DriftSum(s, a, total);
      DriftAdds(Sum(s), Sum(a), shares[m], amounts[m], total);
      assert (m + 1) * total == m * total + total;
    }
  }

  /** Drift of all rounded legs together. */
  lemma TailDrift(amounts: seq<int>, total: int)
    requires IsSplit(amounts, total)
    ensures Abs(Drift(Sum(Rounded(amounts[1..], total)), Sum(amounts[1..]), total)) <= (|amounts| - 1) * total
  {
    var rest := amounts[1..];
    var tail := Rounded(rest, total);
    forall i | 0 <= i < |rest| ensures Abs(Drift(tail[i], rest[i], total)) <= total {
      HalfUpLeg(rest[i], total);
    }
    DriftSum(tail, rest, total);
  }

  /** A leg 0 worth (n+1)/2 basis points leaves room for every rounding drift. */
  lemma SharesExistWhenRoomy(amounts: seq<int>, total: int)
    requires IsSplit(amounts, total)
    requires forall i | 1 <= i < |amounts| :: 20000 * amounts[i] >= total
    requires 20000 * amounts[0] >= (|amounts| + 1) * total
    ensures SharesOf(amounts, total).Some?
  {
    var spent := Sum(Rounded(amounts[1..], total));
    TailDrift(amounts, total);
    SumHead(amounts);
    assert (|amounts| + 1) * total == (|amounts| - 1) * total + 2 * total;
    if spent >= BPS_TOTAL {
      ProductOrder(total, BPS_TOTAL, spent);
      assert false;
    }
    SharesExist(amounts, total);
  }

  /**
   Answered shares form a share vector, each below 10000, and every leg's share is
   within half a basis point of its amount; leg 0 is off by at most the others together.
   */
  lemma SharesAreClose(amounts: seq<int>, total: int)
    requires SharesOf(amounts, total).Some?
    ensures var s := SharesOf(amounts, total).value;
            && |s| == |amounts| && IsShareVector(s)
            && (forall i | 0 <= i < |s| :: s[i] <= 9999)
            && (forall i | 1 <= i < |s| :: Abs(Drift(s[i], amounts[i], total)) <= total)
            && Abs(Drift(s[0], amounts[0], total)) <= (|s| - 1) * total
  {
    var s := SharesOf(amounts, total).value;
    SharesAreRounded(amounts, total, s);
    OthersLeaveRoom(s);
    forall i | 1 <= i < |s| ensures Abs(Drift(s[i], amounts[i], total)) <= total {
      HalfUpLeg(amounts[i], total);
    }
    LegZeroDrift(s, amounts, total);
  }

  lemma LegZeroDrift(s: seq<int>, amounts: seq<int>, total: int)
    requires IsSplit(amounts, total) && |s| == |amounts| && Sum(s) == BPS_TOTAL
    requires s[1..] == Rounded(amounts[1..], total)
    ensures Abs(Drift(s[0], amounts[0], total)) <= (|s| - 1) * total
  {
    TailDrift(amounts, total);
    SumHead(s);
    SumHead(amounts);
    DriftAdds(s[0], amounts[0], Sum(s[1..]), Sum(amounts[1..]), total);
    assert Drift(BPS_TOTAL, total, total) == 0;
  }

  lemma OthersLeaveRoom(s: seq<int>)
    requires IsShareVector(s)
    ensures forall i | 0 <= i < |s| :: s[i] <= BPS_TOTAL - (|s| - 1)
  {
    forall i | 0 <= i < |s| ensures s[i] <= BPS_TOTAL - (|s| - 1) {
      var ones := s[i := 1];
      SumUpdate(s, i, 1);
      SumAtLeast(ones, 1);
    }
  }

  // ── Re-quantising ───────────────────────────────────────────

  /**
   Typed amounts become shares, the contract turns the shares into its own amounts:
   those settle (a second conversion gives the same shares), leg i >= 1 moved by less
   than total/20000 + 1 base units, and leg 0 by less than n - 1 times that.
   */
  lemma RequantisingSettles(amounts: seq<int>, total: int)
    requires SharesOf(amounts, total).Some?
    ensures var s := SharesOf(amounts, total).value;
            && |s| == |amounts|
            && (RoundTrips(total, s) <==> FitsEveryLeg(total, s))
            && (total >= 19998 ==> RoundTrips(total, s))
            && MovesLittle(Onchain(total, s), amounts, total)
  {
    var s := SharesOf(amounts, total).value;
    SharesAreClose(amounts, total);
    RoundTripCriterion(total, s);
    if total >= 19998 {
      ThresholdSuffices(total, s);
    }
    MovesAreSmall(amounts, s, total);
  }

  /** How far the paid legs are from the typed ones, in units of 1/20000. */
  predicate MovesLittle(paid: seq<int>, typed: seq<int>, total: int) {
    && |paid| == |typed| >= 2
    && (forall i | 1 <= i < |paid| :: 20000 * Abs(paid[i] - typed[i]) < total + 20000)
    && 20000 * Abs(paid[0] - typed[0]) < (|paid| - 1) * (total + 20000)
  }

  lemma MovesAreSmall(amounts: seq<int>, s: seq<int>, total: int)
    requires IsSplit(amounts, total) && IsShareVector(s) && |s| == |amounts|
    requires forall i | 1 <= i < |s| :: Abs(Drift(s[i], amounts[i], total)) <= total
    ensures MovesLittle(Onchain(total, s), amounts, total)
  {
    var paid := Onchain(total, s);
    PaidLegsMove(amounts, s, total);
    OnchainConserves(total, s);
    LegZeroMoves(paid, amounts, total + 19998);
    StrictBound(|paid| - 1, total);
  }

  lemma PaidLegsMove(amounts: seq<int>, s: seq<int>, total: int)
    requires total > 0 && IsShareVector(s) && |s| == |amounts|
    requires forall i | 1 <= i < |s| :: Abs(Drift(s[i], amounts[i], total)) <= total
    ensures forall i | 1 <= i < |s| :: 20000 * Abs(Onchain(total, s)[i] - amounts[i]) <= total + 19998
  {
    forall i | 1 <= i < |s| ensures 20000 * Abs(Onchain(total, s)[i] - amounts[i]) <= total + 19998 {
      LegMoves(amounts[i], s[i], total);
    }
  }

  lemma StrictBound(n: int, total: int)
    requires n >= 1
    ensures n * (total + 19998) < n * (total + 20000)
  {
    assert n * (total + 20000) == n * (total + 19998) + 2 * n;
  }

  lemma LegMoves(amount: int, share: int, total: int)
    requires total > 0 && share >= 0 && Abs(Drift(share, amount, total)) <= total
    ensures 20000 * Abs(TruncDiv(total * share, BPS_TOTAL) - amount) <= total + 19998
  {
    FloorLeg(total, share);
  }

  lemma LegZeroMoves(paid: seq<int>, typed: seq<int>, bound: int)
    requires |paid| == |typed| >= 2 && Sum(paid) == Sum(typed)
    requires forall i | 1 <= i < |paid| :: 20000 * Abs(paid[i] - typed[i]) <= bound
    ensures 20000 * Abs(paid[0] - typed[0]) <= (|paid| - 1) * bound
  {
    var p, t := paid[1..], typed[1..];
    forall i | 0 <= i < |p| ensures 20000 * Abs(p[i] - t[i]) <= bound {
      assert p[i] == paid[i + 1] && t[i] == typed[i + 1];
    }
    MovesAdd(p, t, bound);
    SumHead(paid);
    SumHead(typed);
  }

  lemma MoveStep(m: nat, p: int, t: int, dp: int, dt: int, bound: int)
    requires 20000 * Abs(p - t) <= m * bound && 20000 * Abs(dp - dt) <= bound
    ensures 20000 * Abs((p + dp) - (t + dt)) <= (m + 1) * bound
  {
    assert (m + 1) * bound == m * bound + bound;
  }

  lemma {:induction false} MovesAdd(paid: seq<int>, typed: seq<int>, bound: int)
    requires |paid| == |typed|
    requires forall i | 0 <= i < |paid| :: 20000 * Abs(paid[i] - typed[i]) <= bound
    ensures 20000 * Abs(Sum(paid) - Sum(typed)) <= |paid| * bound
  {
    if paid != [] {
      var m := |paid| - 1;
      MovesAdd(paid[..m], typed[..m], bound);
      MoveStep(m, Sum(paid[..m]), Sum(typed[..m]), paid[m], typed[m], bound);
    }
  }
}
