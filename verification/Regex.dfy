/**
 Regular expressions as Python's `re` runs them: a backtracking semantics, which ends a match
 can have, in the order they are tried. Its partner is the usual relation between a pattern
 and a stretch of text; an analysis of what every match must contain rests on it.
 */
module Regex {
  import opened Texts

  datatype Re =
    | Word(w: string)              // a literal
    | One(p: char -> bool)         // a character class
    | Seq(a: Re, b: Re)
    | Alt(a: Re, b: Re)
    | Opt(a: Re)
    | Star(a: Re)                  // greedy
    | WordBoundary(word: char -> bool)
    | NotAhead(p: char -> bool)

  function Plus(r: Re): Re {
    Seq(r, Star(r))
  }

  function AtLeast(n: nat, r: Re): Re {
    if n == 0 then Star(r) else Seq(r, AtLeast(n - 1, r))
  }

  predicate AtBoundary(word: char -> bool, s: string, i: nat)
    requires i <= |s|
  {
    (i > 0 && word(s[i - 1])) != (i < |s| && word(s[i]))
  }

  predicate Within(ends: seq<nat>, lo: nat, hi: nat) {
    forall k | 0 <= k < |ends| :: lo <= ends[k] <= hi
  }

  /** The ends of the matches of r at i, in the order backtracking finds them. */
  function Ends(r: Re, s: string, i: nat): (es: seq<nat>)
    requires i <= |s|
    ensures Within(es, i, |s|)
    decreases r, |s| - i, 1, 0
  {
    match r
    case Word(w) => if w <= s[i..] then [i + |w|] else []
    case One(p) => if i < |s| && p(s[i]) then [i + 1] else []
    case Seq(a, b) => Continue(b, s, i, Ends(a, s, i))
    case Alt(a, b) => Ends(a, s, i) + Ends(b, s, i)
    case Opt(a) => Ends(a, s, i) + [i]
    case Star(a) => Repeat(r, s, i, Ends(a, s, i)) + [i]
    case WordBoundary(word) => if AtBoundary(word, s, i) then [i] else []
    case NotAhead(p) => if i < |s| && p(s[i]) then [] else [i]
  }

  /** Matches of r from each start in turn. */
  function Continue(r: Re, s: string, i: nat, starts: seq<nat>): (es: seq<nat>)
    requires i <= |s| && Within(starts, i, |s|)
    ensures Within(es, i, |s|)
    decreases r, |s| + 1, 0, |starts|
  {
    if starts == [] then [] else Ends(r, s, starts[0]) + Continue(r, s, i, starts[1..])
  }

  /** Further rounds of a star from each start that made progress. */
  function Repeat(r: Re, s: string, i: nat, starts: seq<nat>): (es: seq<nat>)
    requires i <= |s| && Within(starts, i, |s|)
    ensures Within(es, i, |s|)
    decreases r, |s| - i, 0, |starts|
  {
    if starts == [] then []
    else (if starts[0] > i then Ends(r, s, starts[0]) else []) + Repeat(r, s, i, starts[1..])
  }

  // ── The ends are the matches ────────────────────────────────

  /** r matches s from i to j, with no word about order. */
  ghost predicate Matches(r: Re, s: string, i: nat, j: nat)
    decreases r, if i <= |s| then |s| - i else 0
  {
    && i <= j <= |s|
    && match r
       case Word(w) => s[i..j] == w
       case One(p) => j == i + 1 && p(s[i])
       case Seq(a, b) => exists m: nat | m <= j :: Matches(a, s, i, m) && Matches(b, s, m, j)
       case Alt(a, b) => Matches(a, s, i, j) || Matches(b, s, i, j)
       case Opt(a) => i == j || Matches(a, s, i, j)
       case Star(a) => i == j || exists m: nat | i < m <= j :: Matches(a, s, i, m) && Matches(r, s, m, j)
       case WordBoundary(word) => i == j && AtBoundary(word, s, i)
       case NotAhead(p) => i == j && !(i < |s| && p(s[i]))
  }

  /** Every end in a continuation comes from one of the starts. */
  lemma {:induction false} ContinueFrom(r: Re, s: string, i: nat, starts: seq<nat>, e: nat) returns (k: nat)
    requires i <= |s| && Within(starts, i, |s|)
    requires e in Continue(r, s, i, starts)
    ensures k < |starts| && e in Ends(r, s, starts[k])
    decreases |starts|
  {
    InEither(e, Ends(r, s, starts[0]), Continue(r, s, i, starts[1..]));
    if e in Ends(r, s, starts[0]) {
      k := 0;
    } else {
      var j := ContinueFrom(r, s, i, starts[1..], e);
      k := j + 1;
    }
  }

  lemma {:induction false} ContinueHas(r: Re, s: string, i: nat, starts: seq<nat>, k: nat, e: nat)
    requires i <= |s| && Within(starts, i, |s|) && k < |starts| && e in Ends(r, s, starts[k])
    ensures e in Continue(r, s, i, starts)
    decreases |starts|
  {
    if k > 0 {
      ContinueHas(r, s, i, starts[1..], k - 1, e);
    }
  }

  lemma InEither(e: nat, a: seq<nat>, b: seq<nat>)
    requires e in a + b
    ensures e in a || e in b
  {
  }

  lemma RepeatUnfolds(r: Re, s: string, i: nat, starts: seq<nat>, first: seq<nat>)
    requires i <= |s| && Within(starts, i, |s|) && starts != []
    requires first == if starts[0] > i then Ends(r, s, starts[0]) else []
    ensures Repeat(r, s, i, starts) == first + Repeat(r, s, i, starts[1..])
  {
  }

  /** Every end after further rounds comes from a start that made progress. */
  lemma {:induction false} RepeatFrom(r: Re, s: string, i: nat, starts: seq<nat>, e: nat) returns (m: nat)
    requires i <= |s| && Within(starts, i, |s|) && e in Repeat(r, s, i, starts)
    ensures m in starts && i < m <= |s| && e in Ends(r, s, m)
    decreases |starts|
  {
    var here := RepeatHereOrLater(r, s, i, starts, e);
    if here {
      m := starts[0];
    } else {
      m := RepeatFrom(r, s, i, starts[1..], e);
    }
  }

  lemma RepeatHereOrLater(r: Re, s: string, i: nat, starts: seq<nat>, e: nat) returns (here: bool)
    requires i <= |s| && Within(starts, i, |s|) && e in Repeat(r, s, i, starts)
    ensures starts != [] && Within(starts[1..], i, |s|)
    ensures if here then starts[0] > i && e in Ends(r, s, starts[0]) else e in Repeat(r, s, i, starts[1..])
  {
    var first := if starts[0] > i then Ends(r, s, starts[0]) else [];
    RepeatUnfolds(r, s, i, starts, first);
    InEither(e, first, Repeat(r, s, i, starts[1..]));
    here := e in first;
  }

  lemma {:induction false} RepeatHas(r: Re, s: string, i: nat, starts: seq<nat>, k: nat, e: nat)
    requires i <= |s| && Within(starts, i, |s|) && k < |starts| && starts[k] > i && e in Ends(r, s, starts[k])
    ensures e in Repeat(r, s, i, starts)
    decreases |starts|
  {
    if k > 0 {
      RepeatHas(r, s, i, starts[1..], k - 1, e);
    }
  }

  lemma SplitAt(a: Re, b: Re, s: string, i: nat, j: nat) returns (m: nat)
    requires Matches(Seq(a, b), s, i, j)
    ensures m <= j && Matches(a, s, i, m) && Matches(b, s, m, j)
  {
    var r := Seq(a, b);
    assert Matches(r, s, i, j);
    m :| m <= j && Matches(r.a, s, i, m) && Matches(r.b, s, m, j);
  }

  lemma RoundEnd(a: Re, s: string, i: nat, j: nat) returns (m: nat)
    requires Matches(Star(a), s, i, j) && i != j
    ensures i < m <= j && Matches(a, s, i, m) && Matches(Star(a), s, m, j)
  {
    var r := Star(a);
    assert Matches(r, s, i, j);
    m :| i < m <= j && Matches(r.a, s, i, m) && Matches(r, s, m, j);
  }

  lemma {:induction false} SeqExactly(a: Re, b: Re, s: string, i: nat, e: nat)
    requires i <= |s|
    ensures e in Ends(Seq(a, b), s, i) <==> Matches(Seq(a, b), s, i, e)
    decreases Seq(a, b), |s| - i, 0
  {
    var starts := Ends(a, s, i);
    if e in Ends(Seq(a, b), s, i) {
      var k := ContinueFrom(b, s, i, starts, e);
      EndsExactly(a, s, i, starts[k]);
      EndsExactly(b, s, starts[k], e);
      assert Matches(a, s, i, starts[k]) && Matches(b, s, starts[k], e);
    }
    if Matches(Seq(a, b), s, i, e) {
      var m := SplitAt(a, b, s, i, e);
      EndsExactly(a, s, i, m);
      EndsExactly(b, s, m, e);
      assert m in starts;
      var k: nat :| k < |starts| && starts[k] == m;
      ContinueHas(b, s, i, starts, k, e);
    }
  }

  lemma {:induction false} StarExactly(a: Re, s: string, i: nat, e: nat)
    requires i <= |s|
    ensures e in Ends(Star(a), s, i) <==> Matches(Star(a), s, i, e)
    decreases Star(a), |s| - i, 0
  {
    var r, starts := Star(a), Ends(a, s, i);
    if e in Repeat(r, s, i, starts) {
      var m := RepeatFrom(r, s, i, starts, e);
      EndsExactly(a, s, i, m);
      EndsExactly(r, s, m, e);
      assert Matches(a, s, i, m) && Matches(r, s, m, e);
    }
    if Matches(r, s, i, e) && e != i {
      var m := RoundEnd(a, s, i, e);
      EndsExactly(a, s, i, m);
      EndsExactly(r, s, m, e);
      assert m in starts;
      var k: nat :| k < |starts| && starts[k] == m;
      RepeatHas(r, s, i, starts, k, e);
    }
  }

  /** Backtracking finds exactly the matches. */
  lemma {:induction false} EndsExactly(r: Re, s: string, i: nat, e: nat)
    requires i <= |s|
    ensures e in Ends(r, s, i) <==> Matches(r, s, i, e)
    decreases r, |s| - i, 1
  {
    match r
    case Word(w) =>
      if Matches(r, s, i, e) {
        assert s[i..] == s[i..e] + s[e..];
      }
    case Seq(a, b) => SeqExactly(a, b, s, i, e);
    case Alt(a, b) =>
      EndsExactly(a, s, i, e);
      EndsExactly(b, s, i, e);
    case Opt(a) => EndsExactly(a, s, i, e);
    case Star(a) => StarExactly(a, s, i, e);
    case _ =>
  }
}
