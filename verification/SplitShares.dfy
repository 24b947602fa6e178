/**
 Split-payment arithmetic (apps/web/lib/splitShares.ts): basis-point shares from
 amounts, amounts from shares, and the balance row. Money is exact integer base
 units. Each loop of the source is a method proved against a loop-free function;
 what the functions guarantee is proved in ShareTheorems.
 */
module SplitShares {
  import opened Wrappers
  import opened Sums

  const BPS_TOTAL := 10000

  /** BigInt division by a positive divisor: truncates toward zero. */
  function TruncDiv(n: int, d: int): int
    requires d > 0
  {
    if n >= 0 then n / d else -(-n / d)
  }

  // ── remainderBase ───────────────────────────────────────────

  function Known(rows: seq<Option<int>>): seq<int>
    requires forall i | 0 <= i < |rows| :: rows[i].Some?
  {
    seq(|rows|, i requires 0 <= i < |rows| => rows[i].value)
  }

  function Remainder(total: int, manual: seq<Option<int>>): Option<int> {
    if forall i | 0 <= i < |manual| :: manual[i].Some? then Some(total - Sum(Known(manual))) else None
  }

  method RemainderBase(total: int, manual: seq<Option<int>>) returns (r: Option<int>)
    ensures r == Remainder(total, manual)
    ensures r.None? <==> exists i | 0 <= i < |manual| :: manual[i].None?
    ensures r.Some? ==> (forall i | 0 <= i < |manual| :: manual[i].Some?) && r.value + Sum(Known(manual)) == total
  {
    var sum := 0;
    for i := 0 to |manual|
      invariant forall j | 0 <= j < i :: manual[j].Some?
      invariant sum == Sum(Known(manual[..i]))
    {
      if manual[i].None? {
        return None;
      }
      sum := sum + manual[i].value;
      assert Known(manual[..i + 1]) == Known(manual[..i]) + [manual[i].value];
      SumSnoc(Known(manual[..i]), manual[i].value);
    }
    assert manual[..|manual|] == manual;
    r := Some(total - sum);
  }

  // ── amountsToSharesBps ──────────────────────────────────────

  /** a·10000/total rounded half-up. */
  function HalfUp(a: int, total: int): int
    requires total > 0
  {
    TruncDiv(a * 20000 + total, 2 * total)
  }

  function Rounded(amounts: seq<int>, total: int): seq<int>
    requires total > 0
  {
    seq(|amounts|, i requires 0 <= i < |amounts| => HalfUp(amounts[i], total))
  }

  predicate AllPositive(s: seq<int>) {
    forall i | 0 <= i < |s| :: s[i] >= 1
  }

  /** At least two positive amounts that add up to a positive total. */
  predicate IsSplit(amounts: seq<int>, total: int) {
    |amounts| >= 2 && total > 0 && AllPositive(amounts) && Sum(amounts) == total
  }

  function SharesOf(amounts: seq<int>, total: int): Option<seq<int>> {
    if !IsSplit(amounts, total) then None
    else
      var tail := Rounded(amounts[1..], total);
      var first := BPS_TOTAL - Sum(tail);
      if AllPositive(tail) && first >= 1 then Some([first] + tail) else None
  }

  /** The first loop after k amounts. */
  ghost predicate Summed(amounts: seq<int>, k: nat, sum: int)
    requires k <= |amounts|
  {
    AllPositive(amounts[..k]) && sum == Sum(amounts[..k])
  }

  lemma SummedGrows(amounts: seq<int>, k: nat, sum: int)
    requires k < |amounts| && Summed(amounts, k, sum) && amounts[k] >= 1
    ensures Summed(amounts, k + 1, sum + amounts[k])
  {
    PrefixGrows(amounts, k);
  }

  lemma RoundedAt(amounts: seq<int>, total: int, i: nat)
    requires total > 0 && 1 <= i < |amounts|
    ensures Rounded(amounts[1..], total)[i - 1] == HalfUp(amounts[i], total)
  {
  }

  method AmountsToSharesBps(amounts: seq<int>, total: int) returns (r: Option<seq<int>>)
    ensures r == SharesOf(amounts, total)
  {
    var n := |amounts|;
    if n < 2 || total <= 0 {
      return None;
    }
    var sum := 0;
    for k := 0 to n
      invariant Summed(amounts, k, sum)
    {
      if amounts[k] <= 0 {
        return None;
      }
      SummedGrows(amounts, k, sum);
      sum := sum + amounts[k];
    }
    assert amounts[..n] == amounts;
    if sum != total {
      return None;
    }
    ghost var tail := Rounded(amounts[1..], total);
    var shares := new int[n];
    var placed := 0;
    for i := 1 to n
      invariant shares[1..i] == tail[..i - 1]
      invariant Summed(tail, i - 1, placed)
    {
      var bps := TruncDiv(amounts[i] * 20000 + total, 2 * total);
      RoundedAt(amounts, total, i);
      assert bps == tail[i - 1];
      if bps < 1 {
        return None;
      }
      SummedGrows(tail, i - 1, placed);
      shares[i] := bps;
      assert shares[1..i + 1] == tail[..i - 1] + [bps];
      placed := placed + bps;
    }
    assert tail[..n - 1] == tail;
    var first := BPS_TOTAL - placed;
    if first < 1 {
      return None;
    }
    shares[0] := first;
    assert shares[..] == [first] + shares[1..n];
    r := Some(shares[..]);
  }

  // ── onchainAmounts ──────────────────────────────────────────

  /** Per-leg share of the total, rounded toward zero. */
  function Floors(total: int, bps: seq<int>): seq<int> {
    seq(|bps|, i requires 0 <= i < |bps| => TruncDiv(total * bps[i], BPS_TOTAL))
  }

  /** What the floors leave over. */
  function Dust(total: int, bps: seq<int>): int {
    total - Sum(Floors(total, bps))
  }

  /** The contract's rule: floors, with the dust added to leg 0. */
  function Onchain(total: int, bps: seq<int>): seq<int>
    requires bps != []
  {
    var floors := Floors(total, bps);
    floors[0 := floors[0] + Dust(total, bps)]
  }

  method OnchainAmounts(total: int, bps: seq<int>) returns (amounts: array<int>)
    requires bps != []
    ensures fresh(amounts)
    ensures amounts[..] == Onchain(total, bps)
  {
    amounts := new int[|bps|](i requires 0 <= i < |bps| => TruncDiv(total * bps[i], BPS_TOTAL));
    ghost var floors := Floors(total, bps);
    assert amounts[..] == floors;
    var placed := 0;
    for i := 0 to amounts.Length
      invariant amounts[..] == floors
      invariant placed == Sum(floors[..i])
    {
      assert floors[..i + 1] == floors[..i] + [amounts[i]];
      SumSnoc(floors[..i], amounts[i]);
      placed := placed + amounts[i];
    }
    assert floors[..amounts.Length] == floors;
    amounts[0] := amounts[0] + (total - placed);
  }
}
