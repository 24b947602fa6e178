/** Sums of integer sequences, and how a bound on every term bounds the sum. */
module Sums {

  function Sum(s: seq<int>): int {
    if s == [] then 0 else Sum(s[..|s| - 1]) + s[|s| - 1]
  }

  lemma SumSnoc(s: seq<int>, x: int)
    ensures Sum(s + [x]) == Sum(s) + x
  {
    assert (s + [x])[..|s|] == s;
  }

  lemma PrefixGrows(s: seq<int>, i: nat)
    requires i < |s|
    ensures s[..i + 1] == s[..i] + [s[i]] && Sum(s[..i + 1]) == Sum(s[..i]) + s[i]
  {
    assert s[..i + 1] == s[..i] + [s[i]];
    SumSnoc(s[..i], s[i]);
  }

  lemma {:induction false} SumConcat(a: seq<int>, b: seq<int>)
    ensures Sum(a + b) == Sum(a) + Sum(b)
  {
    if b == [] {
      assert a + b == a;
    } else {
      var m := |b| - 1;
      SumConcat(a, b[..m]);
      assert (a + b)[..|a + b| - 1] == a + b[..m];
    }
  }

  lemma SumHead(s: seq<int>)
    requires s != []
    ensures Sum(s) == s[0] + Sum(s[1..])
  {
    assert s == [s[0]] + s[1..];
    SumConcat([s[0]], s[1..]);
    assert [s[0]][..0] == [];
  }

  lemma SumUpdate(s: seq<int>, i: nat, x: int)
    requires i < |s|
    ensures Sum(s[i := x]) == Sum(s) - s[i] + x
  {
    var t := s[i := x];
    assert s == s[..i] + s[i..] && t == s[..i] + t[i..];
    SumConcat(s[..i], s[i..]);
    SumConcat(s[..i], t[i..]);
    SumHead(s[i..]);
    SumHead(t[i..]);
    assert s[i..][1..] == t[i..][1..];
  }

  lemma {:induction false} SumAtLeast(s: seq<int>, lo: int)
    requires forall i | 0 <= i < |s| :: s[i] >= lo
    ensures Sum(s) >= |s| * lo
  {
    if s != [] {
      SumAtLeast(s[..|s| - 1], lo);
    }
  }

  /** lo <= p*x[i] - q*y[i] <= hi for every i bounds p*Sum(x) - q*Sum(y). */
  lemma {:induction false} SumBetween(x: seq<int>, y: seq<int>, p: int, q: int, lo: int, hi: int)
    requires |x| == |y|
    requires forall i | 0 <= i < |x| :: lo <= p * x[i] - q * y[i] <= hi
    ensures |x| * lo <= p * Sum(x) - q * Sum(y) <= |x| * hi
  {
    if x != [] {
      var m := |x| - 1;
      var x', y' := x[..m], y[..m];
      forall i | 0 <= i < m ensures lo <= p * x'[i] - q * y'[i] <= hi {
        assert x'[i] == x[i] && y'[i] == y[i];
      }
      SumBetween(x', y', p, q, lo, hi);
      BetweenStep(m, Sum(x'), Sum(y'), x[m], y[m], p, q, lo, hi);
    }
  }

  lemma BetweenStep(m: nat, x: int, y: int, dx: int, dy: int, p: int, q: int, lo: int, hi: int)
    requires m * lo <= p * x - q * y <= m * hi
    requires lo <= p * dx - q * dy <= hi
    ensures (m + 1) * lo <= p * (x + dx) - q * (y + dy) <= (m + 1) * hi
  {
    assert p * (x + dx) == p * x + p * dx;
    assert q * (y + dy) == q * y + q * dy;
    assert (m + 1) * lo == m * lo + lo;
    assert (m + 1) * hi == m * hi + hi;
  }
}
