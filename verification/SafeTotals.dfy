/**
 Which totals are safe for every split: the totals whose amounts re-derive to their shares
 whatever the share vector. The threshold of 19998 base units is the point from which all
 are; below it, it depends on the common divisor with 10000.
 */
module SafeTotals {
  import opened Sums
  import opened SplitShares
  import opened ShareTheorems

  function Gcd(a: nat, b: nat): nat
    decreases b
  {
    if b == 0 then a else Gcd(b, a % b)
  }

  ghost predicate Divides(d: int, n: int) {
    exists k :: n == d * k
  }

  lemma DividesCombination(d: int, a: int, b: int, x: int, y: int)
    requires Divides(d, a) && Divides(d, b)
    ensures Divides(d, a * x + b * y)
  {
    var i :| a == d * i;
    var j :| b == d * j;
    assert a * x == d * (i * x) && b * y == d * (j * y);
    assert a * x + b * y == d * (i * x + j * y);
  }

  lemma {:induction false} GcdDivides(a: nat, b: nat)
    requires a > 0 || b > 0
    ensures Gcd(a, b) > 0 && Divides(Gcd(a, b), a) && Divides(Gcd(a, b), b)
    decreases b
  {
    if b == 0 {
      assert a == a * 1 && b == a * 0;
    } else {
      GcdDivides(b, a % b);
      DividendDivided(Gcd(a, b), a, b);
    }
  }

  lemma DividendDivided(d: int, a: nat, b: nat)
    requires b > 0 && Divides(d, b) && Divides(d, a % b)
    ensures Divides(d, a)
  {
    DividesCombination(d, b, a % b, a / b, 1);
    assert b * (a / b) + a % b * 1 == a;
  }

  lemma {:induction false} GcdCombines(a: nat, b: nat) returns (x: int, y: int)
    ensures a * x + b * y == Gcd(a, b)
    decreases b
  {
    if b == 0 {
      x, y := 1, 0;
    } else {
      var u, v := GcdCombines(b, a % b);
      x, y := v, u - a / b * v;
      CombinationStep(a, b, a / b, a % b, u, v);
    }
  }

  lemma CombinationStep(a: int, b: int, q: int, r: int, u: int, v: int)
    requires a == b * q + r
    ensures a * v + b * (u - q * v) == b * u + r * v
  {
    assert a * v == b * (q * v) + r * v;
    assert b * (u - q * v) == b * u - b * (q * v);
  }

  lemma RemainderIs(n: int, q: int, r: int)
    requires 0 <= r < BPS_TOTAL && n == BPS_TOTAL * q + r
    ensures n % BPS_TOTAL == r
  {
  }

  /** Flooring drops a multiple of the common divisor, so at most 10000 less that divisor. */
  lemma DroppedAtMost(total: int, bps: int)
    requires total > 0
    ensures Dropped(total, bps) <= BPS_TOTAL - Gcd(total, BPS_TOTAL)
  {
    var g := Gcd(total, BPS_TOTAL);
    GcdDivides(total, BPS_TOTAL);
    RemainderDivisible(g, total * bps, BPS_TOTAL) by {
      DividesCombination(g, total, BPS_TOTAL, bps, 0);
      assert total * bps + BPS_TOTAL * 0 == total * bps;
    }
    SmallerMultiple(g, Dropped(total, bps), BPS_TOTAL);
  }

  lemma RemainderDivisible(g: int, n: int, d: int)
    requires d > 0 && Divides(g, n) && Divides(g, d)
    ensures Divides(g, n % d)
  {
    var q := n / d;
    DividesCombination(g, n, d, 1, -q);
    assert n * 1 + d * -q == n % d;
  }

  lemma SmallerMultiple(g: int, small: int, large: int)
    requires g > 0 && small < large && Divides(g, small) && Divides(g, large)
    ensures small <= large - g
  {
    var i :| small == g * i;
    var j :| large == g * j;
    if j <= i {
      ProductOrder(g, j, i);
      assert false;
    }
    ProductOrder(g, i + 1, j);
  }

  lemma NegatedCombination(total: int, x: int, y: int, k: int, bps: int, g: int)
    requires total * x + BPS_TOTAL * y == g && -x == BPS_TOTAL * k + bps
    ensures total * bps == BPS_TOTAL * (y - total * k - 1) + (BPS_TOTAL - g)
  {
    assert total * (BPS_TOTAL * k + bps) == BPS_TOTAL * (total * k) + total * bps;
    assert total * -x == -(total * x);
  }

  /** And some share drops exactly that much. */
  lemma DroppedReaches(total: int) returns (bps: int)
    requires total > 0 && Gcd(total, BPS_TOTAL) < BPS_TOTAL
    ensures 1 <= bps < BPS_TOTAL && Dropped(total, bps) == BPS_TOTAL - Gcd(total, BPS_TOTAL)
  {
    var g := Gcd(total, BPS_TOTAL);
    GcdDivides(total, BPS_TOTAL);
    var x, y := GcdCombines(total, BPS_TOTAL);
    bps := -x % BPS_TOTAL;
    var k := -x / BPS_TOTAL;
    NegatedCombination(total, x, y, k, bps, g);
    RemainderIs(total * bps, y - total * k - 1, BPS_TOTAL - g);
    NonzeroShare(total, bps);
  }

  lemma NonzeroShare(total: int, bps: int)
    requires Dropped(total, bps) != 0
    ensures bps != 0
  {
  }

  ghost predicate EverySplitRoundTrips(total: int) {
    forall bps | IsShareVector(bps) :: RoundTrips(total, bps)
  }

  lemma PairIsShareVector(a: int, b: int)
    requires a >= 1 && b >= 1 && a + b == BPS_TOTAL
    ensures IsShareVector([a, b])
  {
    assert [a, b][..1] == [a] && [a][..0] == [];
    assert Sum([a]) == a;
  }

  /**
   Every split of a total survives the trip through base units exactly when twice
   10000 - gcd(total, 10000) fits into the total.
   */
  lemma SafeExactly(total: int)
    requires total > 0
    ensures EverySplitRoundTrips(total) <==> 2 * (BPS_TOTAL - Gcd(total, BPS_TOTAL)) <= total
  {
    var g := Gcd(total, BPS_TOTAL);
    if 2 * (BPS_TOTAL - g) <= total {
      forall bps | IsShareVector(bps) ensures RoundTrips(total, bps) {
        forall i | 1 <= i < |bps| ensures 2 * Dropped(total, bps[i]) <= total {
          DroppedAtMost(total, bps[i]);
        }
        RoundTripCriterion(total, bps);
      }
    } else {
      GcdDivides(total, BPS_TOTAL);
      var b := DroppedReaches(total);
      var bps := [BPS_TOTAL - b, b];
      PairIsShareVector(BPS_TOTAL - b, b);
      RoundTripCriterion(total, bps);
      assert 2 * Dropped(total, bps[1]) > total;
      assert !RoundTrips(total, bps);
    }
  }
}
