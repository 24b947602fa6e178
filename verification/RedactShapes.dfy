/**
 What redaction does to the six shapes of secret: whatever the secret, the text around it is
 kept and the secret itself is gone, after all six substitutions.
 */
module RedactShapes {
  import opened Regex
  import opened Texts
  import opened Wrappers
  import opened RedactSecrets

  // ── Stretches of one kind of character ──────────────────────

  predicate AllIn(p: char -> bool, s: string, i: nat, j: nat) {
    i <= j <= |s| && forall k | i <= k < j :: p(s[k])
  }

  predicate All(p: char -> bool, s: string) {
    forall k | 0 <= k < |s| :: p(s[k])
  }

  /** The piece stands at i. */
  predicate At(s: string, i: nat, piece: string) {
    i + |piece| <= |s| && s[i..i + |piece|] == piece
  }

  lemma {:induction false} StarIs(p: char -> bool, s: string, i: nat, j: nat)
    ensures Matches(Star(One(p)), s, i, j) <==> AllIn(p, s, i, j)
    decreases if i <= |s| then |s| - i else 0
  {
    if Matches(Star(One(p)), s, i, j) && i != j {
      var m := RoundEnd(One(p), s, i, j);
      StarIs(p, s, i + 1, j);
    }
    if AllIn(p, s, i, j) && i < j {
      StarIs(p, s, i + 1, j);
      assert Matches(One(p), s, i, i + 1);
    }
  }

  lemma SeqHas(a: Re, b: Re, s: string, i: nat, m: nat, j: nat)
    requires Matches(a, s, i, m) && Matches(b, s, m, j)
    ensures Matches(Seq(a, b), s, i, j)
  {
  }

  lemma PlusIs(p: char -> bool, s: string, i: nat, j: nat)
    ensures Matches(Plus(One(p)), s, i, j) <==> i < j && AllIn(p, s, i, j)
  {
    if Matches(Plus(One(p)), s, i, j) {
      var m := SplitAt(One(p), Star(One(p)), s, i, j);
      StarIs(p, s, m, j);
    }
    if i < j && AllIn(p, s, i, j) {
      StarIs(p, s, i + 1, j);
      SeqHas(One(p), Star(One(p)), s, i, i + 1, j);
    }
  }

  lemma NotAmong(p: char -> bool, s: string, c: char)
    requires All(p, s) && !p(c)
    ensures c !in s
  {
  }

  // ── The end tried first ─────────────────────────────────────

  /** The first end of r at i. */
  predicate First(r: Re, s: string, i: nat, e: nat) {
    i <= |s| && Ends(r, s, i) != [] && Ends(r, s, i)[0] == e
  }

  lemma SeqFirst(a: Re, b: Re, s: string, i: nat, m: nat, e: nat)
    requires First(a, s, i, m) && First(b, s, m, e)
    ensures First(Seq(a, b), s, i, e)
  {
    var starts := Ends(a, s, i);
    assert Continue(b, s, i, starts) == Ends(b, s, starts[0]) + Continue(b, s, i, starts[1..]);
    assert Ends(Seq(a, b), s, i) == Continue(b, s, i, starts);
  }

  /** A star of single steps runs as far as the steps go. */
  lemma {:induction false} StarFirst(a: Re, s: string, lo: nat, hi: nat)
    requires lo <= hi <= |s| && Ends(a, s, hi) == []
    requires forall k | lo <= k < hi :: Ends(a, s, k) == [k + 1]
    ensures First(Star(a), s, lo, hi)
    decreases hi - lo
  {
    var r := Star(a);
    assert Ends(r, s, lo) == Repeat(r, s, lo, Ends(a, s, lo)) + [lo];
    if lo < hi {
      StarFirst(a, s, lo + 1, hi);
      assert [lo + 1][1..] == [];
      assert Repeat(r, s, lo, [lo + 1]) == Ends(r, s, lo + 1) + Repeat(r, s, lo, []);
    }
  }

  /** The stretch from i to j cannot be longer. */
  predicate Run(p: char -> bool, s: string, i: nat, j: nat) {
    AllIn(p, s, i, j) && (j < |s| ==> !p(s[j]))
  }

  lemma RunFirst(p: char -> bool, s: string, i: nat, j: nat)
    requires Run(p, s, i, j)
    ensures First(Star(One(p)), s, i, j)
    ensures i < j ==> First(Plus(One(p)), s, i, j)
  {
    StarFirst(One(p), s, i, j);
    if i < j {
      StarFirst(One(p), s, i + 1, j);
      SeqFirst(One(p), Star(One(p)), s, i, i + 1, j);
    }
  }

  lemma {:induction false} AtLeastFirst(n: nat, p: char -> bool, s: string, i: nat, j: nat)
    requires Run(p, s, i, j) && j - i >= n
    ensures First(AtLeast(n, One(p)), s, i, j)
    decreases n
  {
    if n == 0 {
      RunFirst(p, s, i, j);
    } else {
      AtLeastFirst(n - 1, p, s, i + 1, j);
      SeqFirst(One(p), AtLeast(n - 1, One(p)), s, i, i + 1, j);
    }
  }

  lemma OnlyEnd(r: Re, s: string, i: nat, e: nat)
    requires Matches(r, s, i, e) && forall x: nat | Matches(r, s, i, x) :: x == e
    ensures First(r, s, i, e)
  {
    EndsExactly(r, s, i, e);
    var x := Ends(r, s, i)[0];
    assert x in Ends(r, s, i);
    EndsExactly(r, s, i, x);
  }

  lemma {:induction false} OnlyKept(p: Pattern, s: string, i: nat, keptEnds: seq<nat>, k: nat)
    requires i <= |s| && Within(keptEnds, i, |s|) && k in keptEnds && Ends(p.rest, s, k) != []
    requires forall x | x in keptEnds && Ends(p.rest, s, x) != [] :: x == k
    ensures FirstMatch(p, s, i, keptEnds) == Some(Match(k, Ends(p.rest, s, k)[0]))
    decreases |keptEnds|
  {
    if Ends(p.rest, s, keptEnds[0]) == [] {
      OnlyKept(p, s, i, keptEnds[1..], k);
    } else {
      assert keptEnds[0] in keptEnds;
    }
  }

  /** Where the kept group can end in one place only, that is where it ends, and the rest is masked. */
  lemma MasksRest(p: Pattern, s: string, i: nat, k: nat, e: nat)
    requires i < |s| && i < e && Matches(p.kept, s, i, k) && First(p.rest, s, k, e)
    requires forall x: nat, y: nat | MatchesAt(p, s, i, x, y) :: x == k
    ensures e <= |s| && Sub(p, s, i) == s[i..k] + p.mask + Sub(p, s, e)
  {
    var ends := Ends(p.kept, s, i);
    EndsExactly(p.kept, s, i, k);
    forall x | x in ends && Ends(p.rest, s, x) != [] ensures x == k {
      var y := Ends(p.rest, s, x)[0];
      assert y in Ends(p.rest, s, x);
      EndsExactly(p.kept, s, i, x);
      EndsExactly(p.rest, s, x, y);
      assert MatchesAt(p, s, i, x, y);
    }
    OnlyKept(p, s, i, ends, k);
    assert MatchAt(p, s, i) == Some(Match(k, e));
  }

  // ── Ordinary characters ─────────────────────────────────────

  /** The tables agree with ASCII where it matters: what is printed is no space, and what the word characters are. */
  ghost predicate Ordinary(u: Unicode) {
    && u.space(' ')
    && (forall c: char | '!' <= c <= '~' :: !u.space(c) && (u.word(c) <==> IsAlnum(c) || c == '_'))
    && (forall c: char | IsLetter(c) :: u.word(c) && !u.space(c))
    && (forall c: char | u.digit(c) :: u.word(c) && !u.space(c))
  }

  const CAPITALS := "ABCDEFGHIJKLMNOPQRSTUVWXYZ"
  const SMALL_LETTERS := "abcdefghijklmnopqrstuvwxyz"
  const DIGITS := "0123456789"

  lemma Capitals(c: char)
    ensures c in CAPITALS <==> 'A' <= c <= 'Z'
  {
    if 'A' <= c <= 'Z' {
      assert CAPITALS[c as int - 'A' as int] == c;
    }
  }

  lemma SmallLetters(c: char)
    ensures c in SMALL_LETTERS <==> 'a' <= c <= 'z'
  {
    if 'a' <= c <= 'z' {
      assert SMALL_LETTERS[c as int - 'a' as int] == c;
    }
  }

  lemma Digits(c: char)
    ensures c in DIGITS <==> '0' <= c <= '9'
  {
    if '0' <= c <= '9' {
      assert DIGITS[c as int - '0' as int] == c;
    }
  }

  /** The alphabets of the patterns, spelled out. */
  lemma Alphabets(c: char)
    ensures IsKeyChar(c) <==> c in CAPITALS || c in SMALL_LETTERS || c in DIGITS || c in "_-"
    ensures IsHostChar(c) <==> c in CAPITALS || c in SMALL_LETTERS || c in DIGITS || c in ".-"
    ensures IsBearerChar(c) <==> c in CAPITALS || c in SMALL_LETTERS || c in DIGITS || c in "-._~+/"
  {
    Capitals(c);
    SmallLetters(c);
    Digits(c);
  }

  // ── Patterns that need a character the text does not have ───

  lemma LacksChar(s: string, c: char)
    requires c !in s
    ensures !ContainsOne(s, [[c]])
  {
    forall i | 0 <= i <= |s| ensures !([c] <= s[i..]) {
      if i < |s| {
        assert s[i..][0] == s[i];
      }
    }
  }

  lemma NoAtSign(u: Unicode, s: string)
    requires '@' !in s
    ensures Sub(UrlCredentials(u), s, 0) == s
  {
    LacksChar(s, '@');
    var rest := UrlCredentials(u).rest;
    WordNeeds("@", ["@"], 0, 0);
    assert Needs(rest.b.b, ["@"]) && Needs(rest.b, ["@"]) && Needs(rest, ["@"]);
    assert s[0..] == s && [['@']] == ["@"];
    SubIsIdentity(UrlCredentials(u), ["@"], s, 0);
  }

  lemma NoUnderscore(u: Unicode, s: string)
    requires '_' !in s
    ensures Sub(RsendKey(u), s, 0) == s
  {
    LacksChar(s, '_');
    var kept := RsendKey(u).kept;
    WordNeeds("rsend_", ["_"], 0, 5);
    WordNeeds("rsusr_", ["_"], 0, 5);
    assert Needs(kept.b.a, ["_"]) && Needs(kept.b.b, ["_"]) && Needs(kept.b, ["_"]) && Needs(kept, ["_"]);
    assert s[0..] == s && [['_']] == ["_"];
    SubIsIdentity(RsendKey(u), ["_"], s, 0);
  }

  lemma NoColon(u: Unicode, s: string)
    requires ':' !in s
    ensures Sub(AlchemyUrlKey(u), s, 0) == s && Sub(GenericV2Key(u), s, 0) == s
    ensures Sub(TelegramBotUrl(u), s, 0) == s && Sub(UrlCredentials(u), s, 0) == s
  {
    LacksChar(s, ':');
    assert s[0..] == s && [[':']] == [":"];
    WordNeeds("://", [":"], 0, 0);
    assert Needs(HttpScheme(), [":"]);
    SubIsIdentity(AlchemyUrlKey(u), [":"], s, 0);
    SubIsIdentity(GenericV2Key(u), [":"], s, 0);
    SubIsIdentity(TelegramBotUrl(u), [":"], s, 0);
    WordNeeds(":", [":"], 0, 0);
    assert Needs(UrlCredentials(u).rest, [":"]);
    SubIsIdentity(UrlCredentials(u), [":"], s, 0);
  }

  lemma NoSpaces(u: Unicode, s: string)
    requires forall k | 0 <= k < |s| :: !u.space(s[k])
    ensures Sub(Bearer(u), s, 0) == s
  {
    var p := Bearer(u);
    forall i: nat | i <= |s| ensures NoMatchAt(p, s, i) {
      if k: nat, e: nat :| MatchesAt(p, s, i, k, e) {
        var m1 := SplitAt(p.kept.a, p.kept.b, s, i, k);
        var m2 := SplitAt(p.kept.b.a, p.kept.b.b, s, m1, k);
        var m3 := SplitAt(p.kept.b.b.a, p.kept.b.b.b, s, m2, k);
        var m4 := SplitAt(One(u.space), Star(One(u.space)), s, m3, k);
        assert false;
      }
    }
    SubLeavesAlone(p, s, 0);
    assert s[0..] == s;
  }

  /** The six substitutions, one after the other. */
  lemma SixInTurn(u: Unicode, s0: string, s1: string, s2: string, s3: string, s4: string, s5: string, s6: string)
    requires s1 == Sub(AlchemyUrlKey(u), s0, 0) && s2 == Sub(GenericV2Key(u), s1, 0)
    requires s3 == Sub(TelegramBotUrl(u), s2, 0) && s4 == Sub(UrlCredentials(u), s3, 0)
    requires s5 == Sub(Bearer(u), s4, 0) && s6 == Sub(RsendKey(u), s5, 0)
    ensures Redact(u, s0) == s6
  {
    FastPathIsExact(u, s0);
    var ps := Patterns(u);
    assert SubAll(ps, s0) == SubAll(ps[1..], s1);
    assert SubAll(ps[1..], s1) == SubAll(ps[1..][1..], s2);
    assert ps[1..][1..] == ps[2..];
    assert SubAll(ps[2..], s2) == SubAll(ps[2..][1..], s3);
    assert ps[2..][1..] == ps[3..];
    assert SubAll(ps[3..], s3) == SubAll(ps[3..][1..], s4);
    assert ps[3..][1..] == ps[4..];
    assert SubAll(ps[4..], s4) == SubAll(ps[4..][1..], s5);
    assert ps[4..][1..] == ps[5..];
    assert SubAll(ps[5..], s5) == SubAll(ps[5..][1..], s6);
    assert ps[5..][1..] == [];
  }

  // ── Bearer tokens ───────────────────────────────────────────

  /** A bearer token is masked with its padding, whatever it is; the word and the spaces after it stay. */
  lemma BearerTokenMasked(u: Unicode, word: string, gap: string, token: string, pads: string)
    requires Ordinary(u) && (word == "Bearer" || word == "bearer")
    requires gap != "" && All(u.space, gap)
    requires token != "" && All(IsBearerChar, token) && All(IsPad, pads)
    ensures Redact(u, word + gap + token + pads) == word + gap + "[REDACTED]"
  {
    var head := word + gap;
    BearerText(u, word, gap, ':');
    BearerText(u, word, gap, '_');
    NotAmong(IsBearerChar, token, ':');
    NotAmong(IsPad, pads, ':');
    BearerLayout(u, word, gap, head, head + token + pads, token, pads);
    BearerInTurn(u, head + token + pads, |head|, |head| + |token|, head + "[REDACTED]");
  }

  lemma BearerInTurn(u: Unicode, s: string, k: nat, e: nat, t: string)
    requires Ordinary(u) && BearerAt(u, s, k, e) && t == s[..k] + "[REDACTED]" && ':' !in s && '_' !in t
    ensures Redact(u, s) == t
  {
    NoColon(u, s);
    BearerMasks(u, s, k, e);
    NoUnderscore(u, t);
    SixInTurn(u, s, s, s, s, s, t, t);
  }

  /** The text is "Bearer", spaces up to k, a token up to e, and padding. */
  predicate BearerAt(u: Unicode, s: string, k: nat, e: nat) {
    && 6 < k < e <= |s| && (s[0] == 'B' || s[0] == 'b') && At(s, 1, "earer")
    && AllIn(u.space, s, 6, k) && AllIn(IsBearerChar, s, k, e) && AllIn(IsPad, s, e, |s|)
  }

  lemma BearerLayout(u: Unicode, word: string, gap: string, head: string, s: string, token: string, pads: string)
    requires (word == "Bearer" || word == "bearer") && gap != "" && All(u.space, gap)
    requires token != "" && All(IsBearerChar, token) && All(IsPad, pads)
    requires head == word + gap && s == head + token + pads
    ensures BearerAt(u, s, |head|, |head| + |token|) && head == s[..|head|]
  {
    assert s[1..6] == word[1..6];
    forall i | 6 <= i < |head| ensures u.space(s[i]) {
      assert s[i] == gap[i - 6];
    }
    forall i | |head| <= i < |head| + |token| ensures IsBearerChar(s[i]) {
      assert s[i] == token[i - |head|];
    }
    forall i | |head| + |token| <= i < |s| ensures IsPad(s[i]) {
      assert s[i] == pads[i - |head| - |token|];
    }
  }

  predicate IsPad(c: char) {
    c == '='
  }

  lemma BearerText(u: Unicode, word: string, gap: string, c: char)
    requires Ordinary(u) && (word == "Bearer" || word == "bearer") && All(u.space, gap)
    requires c == ':' || c == '_'
    ensures c !in word + gap
  {
    NotAmong(u.space, gap, c);
  }

  lemma BearerKept(u: Unicode, s: string, k: nat)
    requires Ordinary(u) && 6 < k <= |s|
    requires (s[0] == 'B' || s[0] == 'b') && At(s, 1, "earer") && AllIn(u.space, s, 6, k)
    ensures Matches(Bearer(u).kept, s, 0, k)
  {
    var kept := Bearer(u).kept;
    PlusIs(u.space, s, 6, k);
    SeqHas(kept.b.b.a, kept.b.b.b, s, 1, 6, k);
    SeqHas(kept.b.a, kept.b.b, s, 0, 1, k);
    SeqHas(kept.a, kept.b, s, 0, 0, k);
  }

  lemma BearerMatch(u: Unicode, s: string, x: nat, y: nat)
    requires MatchesAt(Bearer(u), s, 0, x, y)
    ensures 6 < x < |s| && AllIn(u.space, s, 6, x) && IsBearerChar(s[x])
  {
    var kept, rest := Bearer(u).kept, Bearer(u).rest;
    var m1 := SplitAt(kept.a, kept.b, s, 0, x);
    var m2 := SplitAt(kept.b.a, kept.b.b, s, m1, x);
    var m3 := SplitAt(kept.b.b.a, kept.b.b.b, s, m2, x);
    PlusIs(u.space, s, m3, x);
    var m4 := SplitAt(rest.a, rest.b, s, x, y);
    PlusIs(IsBearerChar, s, x, m4);
  }

  lemma PadsFirst(s: string, e: nat)
    requires AllIn(IsPad, s, e, |s|)
    ensures First(Star(Word("=")), s, e, |s|)
  {
    var pad := "=";
    forall j | e <= j < |s| ensures Ends(Word(pad), s, j) == [j + 1] {
      assert s[j..][0] == '=';
    }
    StarFirst(Word(pad), s, e, |s|);
  }

  lemma BearerMasks(u: Unicode, s: string, k: nat, e: nat)
    requires Ordinary(u) && BearerAt(u, s, k, e)
    ensures Sub(Bearer(u), s, 0) == s[..k] + "[REDACTED]"
  {
    var p := Bearer(u);
    BearerKept(u, s, k);
    assert IsBearerChar(s[k]) && !u.space(s[k]);
    forall x: nat, y: nat | MatchesAt(p, s, 0, x, y) ensures x == k {
      BearerMatch(u, s, x, y);
    }
    RunFirst(IsBearerChar, s, k, e);
    PadsFirst(s, e);
    SeqFirst(p.rest.a, p.rest.b, s, k, e, |s|);
    MasksRest(p, s, 0, k, |s|);
  }

  // ── The repository's own keys ───────────────────────────────

  predicate IsRsendPrefix(prefix: string) {
    || prefix == "rsend_test_" || prefix == "rsend_live_"
    || prefix == "rsusr_test_" || prefix == "rsusr_live_"
  }

  /** A merchant's or a user's key is masked behind its prefix, in both environments. */
  lemma RsendKeyMasked(u: Unicode, prefix: string, key: string)
    requires Ordinary(u) && IsRsendPrefix(prefix) && key != "" && All(IsKeyChar, key)
    ensures Redact(u, prefix + key) == prefix + "[REDACTED]"
  {
    var s := prefix + key;
    RsendLayout(prefix, key, s);
    NotAmong(IsKeyChar, s, ':');
    NoColon(u, s);
    KeysAreNoSpaces(u, s);
    NoSpaces(u, s);
    RsendMasks(u, s);
    SixInTurn(u, s, s, s, s, s, s, prefix + "[REDACTED]");
  }

  lemma KeysAreNoSpaces(u: Unicode, s: string)
    requires Ordinary(u) && All(IsKeyChar, s)
    ensures forall k | 0 <= k < |s| :: !u.space(s[k])
  {
    assert forall k | 0 <= k < |s| :: IsKeyChar(s[k]);
  }

  lemma RsendLayout(prefix: string, key: string, s: string)
    requires IsRsendPrefix(prefix) && key != "" && All(IsKeyChar, key) && s == prefix + key
    ensures RsendAt(s) && All(IsKeyChar, s) && s[..11] == prefix
  {
    assert s[0..6] == prefix[0..6] && s[6..10] == prefix[6..10];
    assert All(IsKeyChar, prefix);
    forall k | 11 <= k < |s| ensures IsKeyChar(s[k]) {
      assert s[k] == key[k - 11];
    }
  }

  predicate RsendAt(s: string) {
    && |s| > 11 && (At(s, 0, "rsend_") || At(s, 0, "rsusr_")) && (At(s, 6, "test") || At(s, 6, "live"))
    && s[10] == '_' && AllIn(IsKeyChar, s, 11, |s|)
  }

  lemma EnvironmentIs(s: string, i: nat, j: nat)
    ensures Matches(TestOrLive(), s, i, j) <==>
              i + 5 == j <= |s| && (At(s, i, "test") || At(s, i, "live")) && s[i + 4] == '_'
  {
    var r := TestOrLive();
    if Matches(r, s, i, j) {
      var m := SplitAt(r.a, r.b, s, i, j);
      assert s[m] == s[m..j][0] == '_';
      assert Matches(r.a.a, s, i, m) || Matches(r.a.b, s, i, m);
    }
    if i + 5 == j <= |s| && (At(s, i, "test") || At(s, i, "live")) && s[i + 4] == '_' {
      assert Matches(r.a.a, s, i, i + 4) || Matches(r.a.b, s, i, i + 4);
      assert s[i + 4..j] == "_";
      SeqHas(r.a, r.b, s, i, i + 4, j);
    }
  }

  lemma RsendKept(u: Unicode, s: string)
    requires Ordinary(u) && RsendAt(s)
    ensures Matches(RsendKey(u).kept, s, 0, 11)
  {
    var kept := RsendKey(u).kept;
    EnvironmentIs(s, 6, 11);
    if At(s, 0, "rsend_") {
      SeqHas(kept.b.a.a, kept.b.a.b, s, 0, 6, 11);
    } else {
      SeqHas(kept.b.b.a, kept.b.b.b, s, 0, 6, 11);
    }
    SeqHas(kept.a, kept.b, s, 0, 0, 11);
  }

  lemma RsendMatch(u: Unicode, s: string, x: nat, y: nat)
    requires MatchesAt(RsendKey(u), s, 0, x, y)
    ensures x == 11
  {
    var kept := RsendKey(u).kept;
    var m := SplitAt(kept.a, kept.b, s, 0, x);
    if Matches(kept.b.a, s, 0, x) {
      var n := SplitAt(kept.b.a.a, kept.b.a.b, s, 0, x);
      EnvironmentIs(s, n, x);
    } else {
      var n := SplitAt(kept.b.b.a, kept.b.b.b, s, 0, x);
      EnvironmentIs(s, n, x);
    }
  }

  lemma RsendMasks(u: Unicode, s: string)
    requires Ordinary(u) && RsendAt(s)
    ensures Sub(RsendKey(u), s, 0) == s[..11] + "[REDACTED]"
  {
    RsendKept(u, s);
    forall x: nat, y: nat | MatchesAt(RsendKey(u), s, 0, x, y) ensures x == 11 {
      RsendMatch(u, s, x, y);
    }
    RunFirst(IsKeyChar, s, 11, |s|);
    MasksRest(RsendKey(u), s, 0, 11, |s|);
  }

  // ── Keys in http URLs ───────────────────────────────────────

  /** "http" or "https" up to a, then "://", a host, and its first slash at x. */
  predicate UrlHead(s: string, a: nat, x: nat) {
    && ((a == 4 && At(s, 0, "http")) || (a == 5 && At(s, 0, "https"))) && At(s, a, "://")
    && a + 3 <= x < |s| && AllIn(IsHostChar, s, a + 3, x) && s[x] == '/'
  }

  /** A colon before a slash stands at a only. */
  predicate OneScheme(s: string, a: nat) {
    forall k | 0 <= k < |s| - 1 && s[k] == ':' && s[k + 1] == '/' :: k == a
  }

  lemma SchemeIs(s: string, i: nat, m: nat)
    requires Matches(HttpScheme(), s, i, m)
    ensures i + 7 <= m <= i + 8 && m <= |s| && At(s, i, "http") && At(s, m - 3, "://")
    ensures m == i + 8 ==> s[i + 4] == 's'
  {
    var r := HttpScheme();
    var m1 := SplitAt(r.a, r.b, s, i, m);
    var m2 := SplitAt(r.b.a, r.b.b, s, m1, m);
    assert At(s, i, "http");
    assert s[m2..m] == "://";
  }

  lemma SchemeHas(s: string, a: nat)
    requires ((a == 4 && At(s, 0, "http")) || (a == 5 && At(s, 0, "https"))) && At(s, a, "://")
    ensures Matches(HttpScheme(), s, 0, a + 3)
  {
    var r := HttpScheme();
    if a == 5 {
      assert s[0..4] == s[0..5][..4] && s[4] == s[0..5][4];
      assert Matches(r.b.a, s, 4, 5);
    }
    SeqHas(r.b.a, r.b.b, s, 4, a, a + 3);
    SeqHas(r.a, r.b, s, 0, 4, a + 3);
  }

  /** Nothing but the head's own scheme is one. */
  lemma SchemeAtStart(s: string, a: nat, x: nat, i: nat, m: nat)
    requires UrlHead(s, a, x) && OneScheme(s, a) && Matches(HttpScheme(), s, i, m)
    ensures i == 0 && m == a + 3
  {
    SchemeIs(s, i, m);
    assert s[m - 3..m][0] == ':' && s[m - 3..m][1] == '/';
    assert s[m - 3] == ':' && s[m - 2] == '/';
    assert s[i] == s[i..i + 4][0] == 'h';
    assert a == 5 ==> s[1] == s[0..5][1] == 't';
  }

  /** A pattern that starts with a scheme matches at the start of the text or nowhere. */
  lemma NowhereElse(p: Pattern, tail: Re, s: string, a: nat, x: nat, i: nat)
    requires UrlHead(s, a, x) && OneScheme(s, a) && p.kept == Seq(HttpScheme(), tail) && i > 0
    ensures NoMatchAt(p, s, i)
  {
    forall k: nat, e: nat ensures !MatchesAt(p, s, i, k, e) {
      if Matches(p.kept, s, i, k) {
        var m := SplitAt(HttpScheme(), tail, s, i, k);
        SchemeAtStart(s, a, x, i, m);
      }
    }
  }

  lemma LeftAlone(p: Pattern, tail: Re, s: string, a: nat, x: nat)
    requires UrlHead(s, a, x) && OneScheme(s, a) && p.kept == Seq(HttpScheme(), tail) && NoMatchAt(p, s, 0)
    ensures Sub(p, s, 0) == s
  {
    forall i: nat | i <= |s| ensures NoMatchAt(p, s, i) {
      if i > 0 {
        NowhereElse(p, tail, s, a, x, i);
      }
    }
    SubLeavesAlone(p, s, 0);
    assert s[0..] == s;
  }

  /** At the start the kept group can end at k only, and the rest then ends at e first. */
  ghost predicate Determined(p: Pattern, s: string, k: nat, e: nat) {
    && 0 < e && Matches(p.kept, s, 0, k) && First(p.rest, s, k, e)
    && forall x: nat, y: nat | MatchesAt(p, s, 0, x, y) :: x == k
  }

  ghost predicate IsUrlPattern(p: Pattern) {
    p.kept.Seq? && p.kept.a == HttpScheme()
  }

  /** After a match at the start the rest of the text is left alone. */
  lemma MasksOnce(p: Pattern, mask: string, s: string, a: nat, x: nat, k: nat, e: nat)
    requires UrlHead(s, a, x) && OneScheme(s, a) && IsUrlPattern(p) && p.mask == mask && Determined(p, s, k, e)
    ensures k <= |s| && e <= |s| && Sub(p, s, 0) == s[..k] + mask + s[e..]
  {
    MasksRest(p, s, 0, k, e);
    forall i: nat | e <= i <= |s| ensures NoMatchAt(p, s, i) {
      NowhereElse(p, p.kept.b, s, a, x, i);
    }
    SubLeavesAlone(p, s, e);
  }

  lemma MasksToEnd(p: Pattern, mask: string, s: string, a: nat, x: nat, k: nat)
    requires UrlHead(s, a, x) && OneScheme(s, a) && IsUrlPattern(p) && p.mask == mask && Determined(p, s, k, |s|)
    ensures k <= |s| && Sub(p, s, 0) == s[..k] + mask
  {
    MasksOnce(p, mask, s, a, x, k, |s|);
    assert s[..k] + mask + s[|s|..] == s[..k] + mask;
  }

  lemma UrlPatterns(u: Unicode)
    ensures IsUrlPattern(AlchemyUrlKey(u)) && AlchemyUrlKey(u).mask == "[REDACTED]"
    ensures IsUrlPattern(GenericV2Key(u)) && GenericV2Key(u).mask == "[REDACTED]"
    ensures IsUrlPattern(TelegramBotUrl(u)) && TelegramBotUrl(u).mask == "[REDACTED]"
  {
  }

  lemma IsSegment(s: string, n: nat)
    requires At(s, n, "/v2/")
    ensures n + 4 <= |s| && s[n] == '/' && s[n + 1] == 'v' && s[n + 2] == '2' && s[n + 3] == '/'
  {
    var piece := s[n..n + 4];
    assert s[n] == piece[0] && s[n + 1] == piece[1] && s[n + 2] == piece[2] && s[n + 3] == piece[3];
  }

  // The Alchemy host

  lemma AlchemyKeptAt(u: Unicode, s: string, a: nat, x: nat, k: nat)
    requires UrlHead(s, a, x) && OneScheme(s, a) && Matches(AlchemyUrlKey(u).kept, s, 0, k)
    ensures k == x + 4 && a + 15 <= x && At(s, x - 12, ".alchemy.com/v2/")
  {
    var kept := AlchemyUrlKey(u).kept;
    var m := SplitAt(kept.a, kept.b, s, 0, k);
    SchemeAtStart(s, a, x, 0, m);
    var n := SplitAt(kept.b.a, kept.b.b, s, m, k);
    StarIs(IsHostChar, s, m, n);
    SlashOf(s, a, x, n);
  }

  lemma AlchemyKept(u: Unicode, s: string, a: nat, x: nat)
    requires UrlHead(s, a, x) && OneScheme(s, a) && a + 15 <= x && At(s, x - 12, ".alchemy.com/v2/")
    ensures Matches(AlchemyUrlKey(u).kept, s, 0, x + 4)
  {
    var kept := AlchemyUrlKey(u).kept;
    SchemeHas(s, a);
    StarIs(IsHostChar, s, a + 3, x - 12);
    SeqHas(kept.b.a, kept.b.b, s, a + 3, x - 12, x + 4);
    SeqHas(kept.a, kept.b, s, 0, a + 3, x + 4);
  }

  lemma SlashOf(s: string, a: nat, x: nat, n: nat)
    requires UrlHead(s, a, x) && a + 3 <= n && At(s, n, ".alchemy.com/v2/") && AllIn(IsHostChar, s, a + 3, n)
    ensures n + 12 == x
  {
    var word := ".alchemy.com/v2/";
    forall j | n <= j < n + 12 ensures s[j] != '/' {
      assert s[j] == s[n..n + 16][j - n] == word[j - n];
    }
    assert s[n + 12] == s[n..n + 16][12] == '/';
  }

  lemma AlchemyMasks(u: Unicode, s: string, a: nat, x: nat)
    requires UrlHead(s, a, x) && OneScheme(s, a) && a + 15 <= x && At(s, x - 12, ".alchemy.com/v2/")
    requires x + 4 < |s| && AllIn(Besides(u, "\"'/?#"), s, x + 4, |s|)
    ensures Sub(AlchemyUrlKey(u), s, 0) == s[..x + 4] + "[REDACTED]"
  {
    AlchemyDetermined(u, s, a, x);
    AlchemyConcludes(u, s, a, x);
  }

  lemma AlchemyConcludes(u: Unicode, s: string, a: nat, x: nat)
    requires UrlHead(s, a, x) && OneScheme(s, a) && Determined(AlchemyUrlKey(u), s, x + 4, |s|)
    ensures x + 4 <= |s| && Sub(AlchemyUrlKey(u), s, 0) == s[..x + 4] + "[REDACTED]"
  {
    UrlPatterns(u);
    MasksToEnd(AlchemyUrlKey(u), "[REDACTED]", s, a, x, x + 4);
  }

  lemma AlchemyDetermined(u: Unicode, s: string, a: nat, x: nat)
    requires UrlHead(s, a, x) && OneScheme(s, a) && a + 15 <= x && At(s, x - 12, ".alchemy.com/v2/")
    requires x + 4 < |s| && AllIn(Besides(u, "\"'/?#"), s, x + 4, |s|)
    ensures Determined(AlchemyUrlKey(u), s, x + 4, |s|)
  {
    AlchemyMatches(u, s, a, x);
    AlchemySecretFirst(u, s, x + 4);
  }

  lemma AlchemyMatches(u: Unicode, s: string, a: nat, x: nat)
    requires UrlHead(s, a, x) && OneScheme(s, a) && a + 15 <= x && At(s, x - 12, ".alchemy.com/v2/")
    ensures Matches(AlchemyUrlKey(u).kept, s, 0, x + 4)
    ensures forall k: nat, e: nat | MatchesAt(AlchemyUrlKey(u), s, 0, k, e) :: k == x + 4
  {
    var p := AlchemyUrlKey(u);
    AlchemyKept(u, s, a, x);
    forall k: nat, e: nat | MatchesAt(p, s, 0, k, e) ensures k == x + 4 {
      AlchemyKeptAt(u, s, a, x, k);
    }
  }

  lemma AlchemySecretFirst(u: Unicode, s: string, k: nat)
    requires k < |s| && AllIn(Besides(u, "\"'/?#"), s, k, |s|)
    ensures First(AlchemyUrlKey(u).rest, s, k, |s|)
  {
    RunFirst(Besides(u, "\"'/?#"), s, k, |s|);
  }

  lemma NoAlchemy(u: Unicode, s: string, a: nat, x: nat)
    requires UrlHead(s, a, x) && OneScheme(s, a) && !(a + 15 <= x && At(s, x - 12, ".alchemy.com/v2/"))
    ensures Sub(AlchemyUrlKey(u), s, 0) == s
  {
    var p := AlchemyUrlKey(u);
    forall k: nat, e: nat ensures !MatchesAt(p, s, 0, k, e) {
      if Matches(p.kept, s, 0, k) {
        AlchemyKeptAt(u, s, a, x, k);
      }
    }
    LeftAlone(p, p.kept.b, s, a, x);
  }

  // Any /v2/ segment of 20 key characters

  lemma GenericKeptAt(u: Unicode, s: string, a: nat, x: nat, k: nat)
    requires UrlHead(s, a, x) && OneScheme(s, a) && Matches(GenericV2Key(u).kept, s, 0, k)
    ensures a + 7 <= k && At(s, k - 4, "/v2/")
  {
    var kept := GenericV2Key(u).kept;
    var m := SplitAt(kept.a, kept.b, s, 0, k);
    SchemeAtStart(s, a, x, 0, m);
    var n := SplitAt(kept.b.a, kept.b.b, s, m, k);
    StarIs(Besides(u, "\"'"), s, m, n);
  }

  lemma GenericKept(u: Unicode, s: string, a: nat, x: nat)
    requires UrlHead(s, a, x) && OneScheme(s, a) && AllIn(Besides(u, "\"'"), s, a + 3, x) && At(s, x, "/v2/")
    ensures Matches(GenericV2Key(u).kept, s, 0, x + 4)
  {
    var kept := GenericV2Key(u).kept;
    SchemeHas(s, a);
    StarIs(Besides(u, "\"'"), s, a + 3, x);
    SeqHas(kept.b.a, kept.b.b, s, a + 3, x, x + 4);
    SeqHas(kept.a, kept.b, s, 0, a + 3, x + 4);
  }

  lemma HostIsBeside(u: Unicode, c: char)
    requires Ordinary(u) && IsHostChar(c)
    ensures Besides(u, "\"'")(c) && c != '/'
  {
  }

  predicate GenericAt(s: string, a: nat, x: nat) {
    UrlHead(s, a, x) && OneScheme(s, a) && At(s, x, "/v2/") && x + 24 <= |s| && AllIn(IsKeyChar, s, x + 4, |s|)
  }

  lemma GenericMatches(u: Unicode, s: string, a: nat, x: nat)
    requires Ordinary(u) && GenericAt(s, a, x)
    ensures Matches(GenericV2Key(u).kept, s, 0, x + 4)
    ensures forall k: nat, e: nat | MatchesAt(GenericV2Key(u), s, 0, k, e) :: k == x + 4
  {
    forall k | a + 3 <= k < x ensures Besides(u, "\"'")(s[k]) && s[k] != '/' {
      HostIsBeside(u, s[k]);
    }
    GenericKept(u, s, a, x);
    IsSegment(s, x);
    forall k: nat, e: nat | MatchesAt(GenericV2Key(u), s, 0, k, e) ensures k == x + 4 {
      GenericKeptAt(u, s, a, x, k);
      IsSegment(s, k - 4);
    }
  }

  lemma GenericSecretFirst(u: Unicode, s: string, k: nat)
    requires k + 20 <= |s| && AllIn(IsKeyChar, s, k, |s|)
    ensures First(GenericV2Key(u).rest, s, k, |s|)
  {
    var rest := GenericV2Key(u).rest;
    AtLeastFirst(20, IsKeyChar, s, k, |s|);
    SeqFirst(rest.a, rest.b, s, k, |s|, |s|);
  }

  lemma GenericDetermined(u: Unicode, s: string, a: nat, x: nat)
    requires Ordinary(u) && GenericAt(s, a, x)
    ensures Determined(GenericV2Key(u), s, x + 4, |s|)
  {
    GenericMatches(u, s, a, x);
    GenericSecretFirst(u, s, x + 4);
  }

  lemma GenericMasks(u: Unicode, s: string, a: nat, x: nat)
    requires Ordinary(u) && GenericAt(s, a, x)
    ensures Sub(GenericV2Key(u), s, 0) == s[..x + 4] + "[REDACTED]"
  {
    GenericDetermined(u, s, a, x);
    UrlPatterns(u);
    MasksToEnd(GenericV2Key(u), "[REDACTED]", s, a, x, x + 4);
  }

  lemma AtLeastStarts(n: nat, p: char -> bool, s: string, i: nat, j: nat)
    requires n > 0 && Matches(AtLeast(n, One(p)), s, i, j)
    ensures i < |s| && p(s[i])
  {
    var m := SplitAt(One(p), AtLeast(n - 1, One(p)), s, i, j);
  }

  lemma NoGeneric(u: Unicode, s: string, a: nat, x: nat)
    requires UrlHead(s, a, x) && OneScheme(s, a)
    requires forall n: nat | a + 3 <= n && At(s, n, "/v2/") :: n + 4 == |s| || !IsKeyChar(s[n + 4])
    ensures Sub(GenericV2Key(u), s, 0) == s
  {
    var p := GenericV2Key(u);
    forall k: nat, e: nat ensures !MatchesAt(p, s, 0, k, e) {
      if MatchesAt(p, s, 0, k, e) {
        GenericKeptAt(u, s, a, x, k);
        var m := SplitAt(p.rest.a, p.rest.b, s, k, e);
        AtLeastStarts(20, IsKeyChar, s, k, m);
      }
    }
    LeftAlone(p, p.kept.b, s, a, x);
  }

  // The Telegram bot

  lemma TelegramKept(u: Unicode, s: string, a: nat, x: nat, k: nat)
    requires UrlHead(s, a, x) && OneScheme(s, a)
    ensures Matches(TelegramBotUrl(u).kept, s, 0, k) <==> k == a + 23 && At(s, a + 3, "api.telegram.org/bot")
  {
    var kept := TelegramBotUrl(u).kept;
    if Matches(kept, s, 0, k) {
      var m := SplitAt(kept.a, kept.b, s, 0, k);
      SchemeAtStart(s, a, x, 0, m);
    }
    if k == a + 23 && At(s, a + 3, "api.telegram.org/bot") {
      SchemeHas(s, a);
      SeqHas(kept.a, kept.b, s, 0, a + 3, k);
    }
  }

  lemma NoTelegram(u: Unicode, s: string, a: nat, x: nat)
    requires UrlHead(s, a, x) && OneScheme(s, a) && !At(s, a + 3, "api.telegram.org/bot")
    ensures Sub(TelegramBotUrl(u), s, 0) == s
  {
    var p := TelegramBotUrl(u);
    forall k: nat, e: nat ensures !MatchesAt(p, s, 0, k, e) {
      TelegramKept(u, s, a, x, k);
    }
    LeftAlone(p, p.kept.b, s, a, x);
  }

  /** A bot's digits up to c, a colon, and its token up to e. */
  predicate BotAt(u: Unicode, s: string, k: nat, c: nat, e: nat) {
    && k < c < |s| && c + 1 < e && s[c] == ':'
    && AllIn(u.digit, s, k, c) && AllIn(IsKeyChar, s, c + 1, e) && (e < |s| ==> !IsKeyChar(s[e]))
  }

  lemma TelegramSecretFirst(u: Unicode, s: string, k: nat, c: nat, e: nat)
    requires Ordinary(u) && BotAt(u, s, k, c, e)
    ensures First(TelegramBotUrl(u).rest, s, k, e)
  {
    var rest := TelegramBotUrl(u).rest;
    assert !u.word(':');
    RunFirst(u.digit, s, k, c);
    assert s[c..][0] == ':';
    RunFirst(IsKeyChar, s, c + 1, e);
    SeqFirst(rest.b.a, rest.b.b, s, c, c + 1, e);
    SeqFirst(rest.a, rest.b, s, k, c, e);
  }

  lemma TelegramMatches(u: Unicode, s: string, a: nat, x: nat)
    requires UrlHead(s, a, x) && OneScheme(s, a) && At(s, a + 3, "api.telegram.org/bot")
    ensures Matches(TelegramBotUrl(u).kept, s, 0, a + 23)
    ensures forall k: nat, e: nat | MatchesAt(TelegramBotUrl(u), s, 0, k, e) :: k == a + 23
  {
    TelegramKept(u, s, a, x, a + 23);
    forall k: nat, e: nat | MatchesAt(TelegramBotUrl(u), s, 0, k, e) ensures k == a + 23 {
      TelegramKept(u, s, a, x, k);
    }
  }

  lemma TelegramMasks(u: Unicode, s: string, a: nat, x: nat, c: nat, e: nat)
    requires Ordinary(u) && UrlHead(s, a, x) && OneScheme(s, a) && At(s, a + 3, "api.telegram.org/bot")
    requires BotAt(u, s, a + 23, c, e)
    ensures Sub(TelegramBotUrl(u), s, 0) == s[..a + 23] + "[REDACTED]" + s[e..]
  {
    TelegramDetermined(u, s, a, x, c, e);
    UrlPatterns(u);
    MasksOnce(TelegramBotUrl(u), "[REDACTED]", s, a, x, a + 23, e);
  }

  lemma TelegramDetermined(u: Unicode, s: string, a: nat, x: nat, c: nat, e: nat)
    requires Ordinary(u) && UrlHead(s, a, x) && OneScheme(s, a) && At(s, a + 3, "api.telegram.org/bot")
    requires BotAt(u, s, a + 23, c, e)
    ensures Determined(TelegramBotUrl(u), s, a + 23, e)
  {
    TelegramMatches(u, s, a, x);
    TelegramSecretFirst(u, s, a + 23, c, e);
  }

  lemma JoinSlices(s: string, i: nat, n: nat, m: nat)
    requires i <= n <= m <= |s|
    ensures s[i..m] == s[i..n] + s[n..m]
  {
  }

  // ── Whole URLs ──────────────────────────────────────────────

  predicate IsHttp(scheme: string) {
    scheme == "http" || scheme == "https"
  }

  /** No scheme's "://" starts in the text. */
  predicate NoSchemeIn(tail: string) {
    forall k | 0 <= k < |tail| - 1 :: !(tail[k] == ':' && tail[k + 1] == '/')
  }

  lemma UrlLayout(scheme: string, host: string, tail: string, s: string)
    requires IsHttp(scheme) && All(IsHostChar, host) && tail != "" && tail[0] == '/' && NoSchemeIn(tail)
    requires s == scheme + "://" + host + tail
    ensures UrlHead(s, |scheme|, |scheme| + 3 + |host|) && OneScheme(s, |scheme|)
    ensures s[|scheme| + 3 + |host|..] == tail && s[..|scheme| + 3 + |host|] == scheme + "://" + host
  {
    var a, x := |scheme|, |scheme| + 3 + |host|;
    assert s[0..a] == scheme && s[a..a + 3] == "://";
    assert s[a] == s[a..a + 3][0] && s[a + 1] == s[a..a + 3][1] && s[a + 2] == s[a..a + 3][2] == '/';
    forall k | a + 3 <= k < x ensures IsHostChar(s[k]) {
      assert s[k] == host[k - a - 3];
    }
    assert forall k | 0 <= k < a :: s[k] == scheme[k] != ':';
    forall k | x <= k < |s| - 1 ensures !(s[k] == ':' && s[k + 1] == '/') {
      assert s[k] == tail[k - x] && s[k + 1] == tail[k - x + 1];
    }
  }

  predicate IsUrlChar(c: char) {
    IsHostChar(c) || c in ":/[]"
  }

  /** No character of the text is one the last three patterns need. */
  lemma PlainUrl(u: Unicode, t: string)
    requires Ordinary(u) && All(IsUrlChar, t)
    ensures Sub(UrlCredentials(u), t, 0) == t && Sub(Bearer(u), t, 0) == t && Sub(RsendKey(u), t, 0) == t
  {
    NotAmong(IsUrlChar, t, '@');
    NoAtSign(u, t);
    forall k | 0 <= k < |t| ensures !u.space(t[k]) {
      assert IsUrlChar(t[k]);
    }
    NoSpaces(u, t);
    NotAmong(IsUrlChar, t, '_');
    NoUnderscore(u, t);
  }

  /** A masked /v2/ segment: the other patterns find nothing in it. */
  lemma MaskedSegment(u: Unicode, scheme: string, host: string, tail: string, t: string)
    requires Ordinary(u) && IsHttp(scheme) && All(IsHostChar, host)
    requires tail == "/v2/[REDACTED]" && t == scheme + "://" + host + tail
    ensures Sub(GenericV2Key(u), t, 0) == t && Sub(TelegramBotUrl(u), t, 0) == t
    ensures Sub(UrlCredentials(u), t, 0) == t && Sub(Bearer(u), t, 0) == t && Sub(RsendKey(u), t, 0) == t
  {
    MaskedTail(tail);
    UrlLayout(scheme, host, tail, t);
    MaskedHead(u, t, |scheme|, |scheme| + 3 + |host|, tail);
    SegmentChars(scheme, host, tail, t);
    PlainUrl(u, t);
  }

  lemma MaskedTail(tail: string)
    requires tail == "/v2/[REDACTED]"
    ensures tail != "" && tail[0] == '/' && NoSchemeIn(tail) && All(IsUrlChar, tail)
  {
  }

  lemma MaskedHead(u: Unicode, t: string, a: nat, x: nat, tail: string)
    requires UrlHead(t, a, x) && OneScheme(t, a) && t[x..] == tail && tail == "/v2/[REDACTED]"
    ensures Sub(GenericV2Key(u), t, 0) == t && Sub(TelegramBotUrl(u), t, 0) == t
  {
    SegmentSlashes(t, a, x, tail);
    NoGeneric(u, t, a, x);
    NoTelegram(u, t, a, x);
  }

  lemma SegmentChars(scheme: string, host: string, tail: string, t: string)
    requires IsHttp(scheme) && All(IsHostChar, host) && All(IsUrlChar, tail) && t == scheme + "://" + host + tail
    ensures All(IsUrlChar, t)
  {
    assert All(IsUrlChar, scheme) && All(IsUrlChar, "://") && All(IsUrlChar, host);
  }

  lemma SegmentSlashes(t: string, a: nat, x: nat, tail: string)
    requires UrlHead(t, a, x) && t[x..] == tail && tail == "/v2/[REDACTED]"
    ensures forall n: nat | a + 3 <= n && At(t, n, "/v2/") :: n + 4 == |t| || !IsKeyChar(t[n + 4])
    ensures !At(t, a + 3, "api.telegram.org/bot")
  {
    assert forall j | x <= j < |t| :: t[j] == tail[j - x];
    assert forall j | 0 < j < |tail| && j != 3 :: tail[j] != '/';
    assert tail[1] == 'v' && tail[4] == '[';
    forall n: nat | a + 3 <= n && At(t, n, "/v2/") ensures n == x {
      OnlySlash(t, a, x, n);
    }
    NoBotHere(t, a, x);
  }

  /** A segment cannot start anywhere but at the first slash, where the only other one is at its end. */
  lemma OnlySlash(t: string, a: nat, x: nat, n: nat)
    requires UrlHead(t, a, x) && a + 3 <= n && At(t, n, "/v2/")
    requires forall j | x < j < |t| && j != x + 3 :: t[j] != '/'
    ensures n == x
  {
    IsSegment(t, n);
  }

  lemma IsBot(s: string, n: nat)
    requires At(s, n, "api.telegram.org/bot")
    ensures n + 20 <= |s| && s[n + 16] == '/' && s[n + 17] == 'b'
    ensures forall j | n <= j < n + 16 :: s[j] != '/'
  {
    var piece := s[n..n + 20];
    assert forall j | n <= j < n + 20 :: s[j] == piece[j - n];
    assert forall j | 0 <= j < 16 :: piece[j] != '/';
    assert piece[16] == '/' && piece[17] == 'b';
  }

  lemma NoBotHere(t: string, a: nat, x: nat)
    requires UrlHead(t, a, x) && x + 1 < |t| && t[x + 1] == 'v'
    ensures !At(t, a + 3, "api.telegram.org/bot")
  {
    if At(t, a + 3, "api.telegram.org/bot") {
      IsBot(t, a + 3);
    }
  }

  /** Both patterns for keys in URLs leave this behind. */
  lemma SegmentInTurn(u: Unicode, s: string, scheme: string, host: string, tail: string, t: string)
    requires Ordinary(u) && IsHttp(scheme) && All(IsHostChar, host)
    requires tail == "/v2/[REDACTED]" && t == scheme + "://" + host + tail
    requires Sub(AlchemyUrlKey(u), s, 0) == t
          || (Sub(AlchemyUrlKey(u), s, 0) == s && Sub(GenericV2Key(u), s, 0) == t)
    ensures Redact(u, s) == t
  {
    MaskedSegment(u, scheme, host, tail, t);
    SixInTurn(u, s, Sub(AlchemyUrlKey(u), s, 0), t, t, t, t, t);
  }

  /** A host, "/v2/" and a key. */
  predicate KeyInUrl(s: string, scheme: string, host: string, key: string) {
    s == scheme + "://" + host + ("/v2/" + key)
  }

  lemma SegmentLayout(s: string, scheme: string, host: string, key: string)
    requires IsHttp(scheme) && All(IsHostChar, host) && KeyInUrl(s, scheme, host, key)
    requires forall k | 0 <= k < |key| :: key[k] != '/'
    ensures var a, x := |scheme|, |scheme| + 3 + |host|;
            && UrlHead(s, a, x) && OneScheme(s, a) && |s| == x + 4 + |key| && At(s, x, "/v2/") && s[x + 4..] == key
            && s[..x + 4] == scheme + "://" + host + "/v2/" && s[a + 3..x] == host
  {
    var tail := "/v2/" + key;
    assert forall k | 4 <= k < |tail| :: tail[k] == key[k - 4];
    UrlLayout(scheme, host, tail, s);
    var x := |scheme| + 3 + |host|;
    assert s[x..x + 4] == tail[..4];
    assert s[x + 4..] == tail[4..];
    assert s[..x + 4] == s[..x] + s[x..x + 4];
  }

  /** The key of an Alchemy endpoint is masked, whatever it is; scheme and host stay. */
  lemma AlchemyKeyMasked(u: Unicode, scheme: string, host: string, key: string)
    requires Ordinary(u) && IsHttp(scheme) && All(IsHostChar, host)
    requires key != "" && All(Besides(u, "\"'/?#"), key)
    ensures var prefix := scheme + "://" + host + ".alchemy.com/v2/";
            Redact(u, prefix + key) == prefix + "[REDACTED]"
  {
    var full := host + ".alchemy.com";
    var s := scheme + "://" + full + ("/v2/" + key);
    AlchemyHost(host, full);
    AlchemyUrl(u, s, scheme, full, key);
    var tail := "/v2/[REDACTED]";
    Ending(scheme + "://" + full, "/v2/", "[REDACTED]", tail);
    SegmentInTurn(u, s, scheme, full, tail, scheme + "://" + full + tail);
    AlchemyTexts(scheme, host, full, key, tail);
  }

  lemma AlchemyHost(host: string, full: string)
    requires All(IsHostChar, host) && full == host + ".alchemy.com"
    ensures All(IsHostChar, full) && |full| >= 12 && full[|full| - 12..] == ".alchemy.com"
  {
    assert All(IsHostChar, ".alchemy.com");
  }

  lemma AlchemyTexts(scheme: string, host: string, full: string, key: string, tail: string)
    requires full == host + ".alchemy.com" && tail == "/v2/[REDACTED]"
    ensures var prefix := scheme + "://" + host + ".alchemy.com/v2/";
            && scheme + "://" + full + ("/v2/" + key) == prefix + key
            && scheme + "://" + full + tail == prefix + "[REDACTED]"
  {
    assert ".alchemy.com" + "/v2/" == ".alchemy.com/v2/";
    assert "/v2/" + "[REDACTED]" == tail;
  }

  lemma AlchemyUrl(u: Unicode, s: string, scheme: string, full: string, key: string)
    requires IsHttp(scheme) && All(IsHostChar, full) && |full| >= 12 && full[|full| - 12..] == ".alchemy.com"
    requires key != "" && All(Besides(u, "\"'/?#"), key) && KeyInUrl(s, scheme, full, key)
    ensures Sub(AlchemyUrlKey(u), s, 0) == scheme + "://" + full + "/v2/" + "[REDACTED]"
  {
    AlchemyPlace(u, s, scheme, full, key);
    AlchemyMasks(u, s, |scheme|, |scheme| + 3 + |full|);
  }

  lemma Ending(front: string, a: string, b: string, ab: string)
    requires a + b == ab
    ensures front + a + b == front + ab
  {
  }

  lemma AlchemyPlace(u: Unicode, s: string, scheme: string, full: string, key: string)
    requires IsHttp(scheme) && All(IsHostChar, full) && |full| >= 12 && full[|full| - 12..] == ".alchemy.com"
    requires key != "" && All(Besides(u, "\"'/?#"), key) && KeyInUrl(s, scheme, full, key)
    ensures var a, x := |scheme|, |scheme| + 3 + |full|;
            && UrlHead(s, a, x) && OneScheme(s, a) && a + 15 <= x && At(s, x - 12, ".alchemy.com/v2/")
            && x + 4 < |s| && AllIn(Besides(u, "\"'/?#"), s, x + 4, |s|)
            && s[..x + 4] == scheme + "://" + full + "/v2/"
  {
    var a, x := |scheme|, |scheme| + 3 + |full|;
    SegmentLayout(s, scheme, full, key);
    assert s[x - 12..x] == s[a + 3..x][|full| - 12..];
    JoinSlices(s, x - 12, x, x + 4);
    assert ".alchemy.com" + "/v2/" == ".alchemy.com/v2/";
    forall k | x + 4 <= k < |s| ensures Besides(u, "\"'/?#")(s[k]) {
      assert s[k] == s[x + 4..][k - x - 4];
    }
  }

  /** A key of 20 characters or more behind /v2/ is masked on any host. */
  lemma SegmentKeyMasked(u: Unicode, scheme: string, host: string, key: string)
    requires Ordinary(u) && IsHttp(scheme) && All(IsHostChar, host) && |key| >= 20 && All(IsKeyChar, key)
    ensures var prefix := scheme + "://" + host + "/v2/"; Redact(u, prefix + key) == prefix + "[REDACTED]"
  {
    var s := scheme + "://" + host + ("/v2/" + key);
    GenericUrl(u, s, scheme, host, key);
    var tail := "/v2/[REDACTED]";
    Ending(scheme + "://" + host, "/v2/", "[REDACTED]", tail);
    SegmentInTurn(u, s, scheme, host, tail, scheme + "://" + host + tail);
    Ending(scheme + "://" + host, "/v2/", key, "/v2/" + key);
  }

  lemma KeysAreBesides(u: Unicode, s: string, i: nat, key: string)
    requires Ordinary(u) && All(IsKeyChar, key) && i <= |s| && s[i..] == key
    ensures AllIn(IsKeyChar, s, i, |s|) && AllIn(Besides(u, "\"'/?#"), s, i, |s|)
  {
    forall k | i <= k < |s| ensures IsKeyChar(s[k]) && Besides(u, "\"'/?#")(s[k]) {
      assert s[k] == s[i..][k - i];
      assert IsKeyChar(key[k - i]);
    }
  }

  lemma GenericPlace(u: Unicode, s: string, scheme: string, host: string, key: string)
    requires Ordinary(u) && IsHttp(scheme) && All(IsHostChar, host) && |key| >= 20 && All(IsKeyChar, key)
    requires KeyInUrl(s, scheme, host, key)
    ensures GenericAt(s, |scheme|, |scheme| + 3 + |host|)
    ensures AllIn(Besides(u, "\"'/?#"), s, |scheme| + 3 + |host| + 4, |s|)
    ensures s[..|scheme| + 3 + |host| + 4] == scheme + "://" + host + "/v2/"
  {
    NoSlashInKey(key);
    SegmentLayout(s, scheme, host, key);
    KeysAreBesides(u, s, |scheme| + 3 + |host| + 4, key);
  }

  lemma NoSlashInKey(key: string)
    requires All(IsKeyChar, key)
    ensures forall k | 0 <= k < |key| :: key[k] != '/'
  {
    assert forall k | 0 <= k < |key| :: IsKeyChar(key[k]);
  }

  lemma GenericUrl(u: Unicode, s: string, scheme: string, host: string, key: string)
    requires Ordinary(u) && IsHttp(scheme) && All(IsHostChar, host) && |key| >= 20 && All(IsKeyChar, key)
    requires KeyInUrl(s, scheme, host, key)
    ensures var t := scheme + "://" + host + "/v2/" + "[REDACTED]";
            Sub(AlchemyUrlKey(u), s, 0) == t || (Sub(AlchemyUrlKey(u), s, 0) == s && Sub(GenericV2Key(u), s, 0) == t)
  {
    GenericPlace(u, s, scheme, host, key);
    EitherMasks(u, s, |scheme|, |scheme| + 3 + |host|, scheme + "://" + host + "/v2/");
  }

  /** On an Alchemy host the first pattern masks the key, on any other the second. */
  lemma EitherMasks(u: Unicode, s: string, a: nat, x: nat, front: string)
    requires Ordinary(u) && GenericAt(s, a, x) && AllIn(Besides(u, "\"'/?#"), s, x + 4, |s|) && front == s[..x + 4]
    ensures var t := front + "[REDACTED]";
            Sub(AlchemyUrlKey(u), s, 0) == t || (Sub(AlchemyUrlKey(u), s, 0) == s && Sub(GenericV2Key(u), s, 0) == t)
  {
    if a + 15 <= x && At(s, x - 12, ".alchemy.com/v2/") {
      AlchemyMasks(u, s, a, x);
    } else {
      NoAlchemy(u, s, a, x);
      GenericMasks(u, s, a, x);
    }
  }

  // ── Telegram bot tokens ─────────────────────────────────────

  predicate IsMethodPath(post: string) {
    post == "" || (post[0] == '/' && All(IsAlnum, post[1..]))
  }

  /** What follows the host of a bot's URL, up to the method called. */
  predicate BotTail(u: Unicode, tail: string, digits: string, token: string, post: string) {
    && tail == "/bot" + digits + ":" + token + post
    && digits != "" && All(u.digit, digits) && token != "" && All(IsKeyChar, token)
    && IsMethodPath(post)
  }

  /** A bot's id and token are masked; the method it calls stays. */
  lemma BotTokenMasked(u: Unicode, scheme: string, digits: string, token: string, post: string)
    requires Ordinary(u) && IsHttp(scheme) && digits != "" && All(u.digit, digits)
    requires token != "" && All(IsKeyChar, token) && IsMethodPath(post)
    ensures var prefix := scheme + "://api.telegram.org/bot";
            Redact(u, prefix + digits + ":" + token + post) == prefix + "[REDACTED]" + post
  {
    var host := "api.telegram.org";
    var tail := "/bot" + digits + ":" + token + post;
    var s, t := scheme + "://" + host + tail, scheme + "://" + host + ("/bot[REDACTED]" + post);
    BotInTurn(u, scheme, host, tail, digits, token, post, s, t);
    BotTexts(scheme, host, tail, digits, token, post);
  }

  lemma BotTexts(scheme: string, host: string, tail: string, digits: string, token: string, post: string)
    requires host == "api.telegram.org" && tail == "/bot" + digits + ":" + token + post
    ensures var prefix := scheme + "://api.telegram.org/bot";
            && scheme + "://" + host + tail == prefix + digits + ":" + token + post
            && scheme + "://" + host + ("/bot[REDACTED]" + post) == prefix + "[REDACTED]" + post
  {
    assert "://" + "api.telegram.org" + "/bot" == "://api.telegram.org/bot";
    assert "/bot" + "[REDACTED]" == "/bot[REDACTED]";
  }

  lemma BotTailChars(u: Unicode, tail: string, digits: string, token: string, post: string)
    requires Ordinary(u) && BotTail(u, tail, digits, token, post)
    ensures tail[0] == '/' && tail[1] == 'b' && NoSchemeIn(tail)
    ensures var c, e := 4 + |digits|, 5 + |digits| + |token|;
            && e <= |tail| && tail[..4] == "/bot" && tail[c] == ':' && tail[e..] == post
            && AllIn(u.digit, tail, 4, c) && AllIn(IsKeyChar, tail, c + 1, e)
            && (e < |tail| ==> tail[e] == '/') && (forall k | e < k < |tail| :: IsAlnum(tail[k]))
  {
    var c, e := 4 + |digits|, 5 + |digits| + |token|;
    assert tail[..4] == "/bot";
    assert forall k | 4 <= k < c :: tail[k] == digits[k - 4];
    assert forall k | c < k < e :: tail[k] == token[k - c - 1];
    assert forall k | e <= k < |tail| :: tail[k] == post[k - e];
    assert forall k | e < k < |tail| :: tail[k] == post[1..][k - e - 1];
    assert !u.word(':') && tail[0] == tail[..4][0] && tail[1] == tail[..4][1];
    assert tail[2] == tail[..4][2] && tail[3] == tail[..4][3];
  }

  lemma BotLayout(u: Unicode, scheme: string, host: string, tail: string, digits: string, token: string, post: string,
        s: string)
    requires Ordinary(u) && IsHttp(scheme) && host == "api.telegram.org" && BotTail(u, tail, digits, token, post)
    requires s == scheme + "://" + host + tail
    ensures var a := |scheme|;
            && UrlHead(s, a, a + 19) && OneScheme(s, a) && s[..a + 19] == scheme + "://" + host
            && s[a + 3..a + 19] == host && s[a + 19..] == tail
  {
    BotTailChars(u, tail, digits, token, post);
    assert All(IsHostChar, host);
    UrlLayout(scheme, host, tail, s);
    assert s[|scheme| + 3..|scheme| + 19] == host;
  }

  lemma BotPlace(u: Unicode, s: string, a: nat, host: string, tail: string, digits: string, token: string, post: string)
    requires Ordinary(u) && host == "api.telegram.org" && BotTail(u, tail, digits, token, post)
    requires a + 19 <= |s| && s[a + 3..a + 19] == host && s[a + 19..] == tail
    ensures var c, e := a + 23 + |digits|, a + 24 + |digits| + |token|;
            && BotAt(u, s, a + 23, c, e) && s[e..] == post && s[a + 19..a + 23] == "/bot"
            && At(s, a + 3, "api.telegram.org/bot") && (forall k | e < k < |s| :: IsAlnum(s[k]))
  {
    BotTailChars(u, tail, digits, token, post);
    assert forall k | a + 19 <= k < |s| :: s[k] == tail[k - a - 19];
    assert s[a + 19..a + 23] == tail[..4];
    assert s[a + 3..a + 23] == s[a + 3..a + 19] + s[a + 19..a + 23];
    assert "api.telegram.org" + "/bot" == "api.telegram.org/bot";
    var e := a + 24 + |digits| + |token|;
    assert s[e..] == tail[e - a - 19..];
  }

  lemma BotIsNoAlchemy(u: Unicode, s: string, a: nat)
    requires UrlHead(s, a, a + 19) && OneScheme(s, a) && At(s, a + 3, "api.telegram.org/bot")
    ensures Sub(AlchemyUrlKey(u), s, 0) == s
  {
    var bot, word := "api.telegram.org/bot", ".alchemy.com/v2/";
    assert bot[4] == 't' && word[0] == '.';
    assert s[a + 7] == s[a + 3..a + 23][4];
    assert s[a + 7] == s[a + 7..a + 23][0];
    NoAlchemy(u, s, a, a + 19);
  }

  /** No segment "/v?/" after the scheme. */
  predicate NoSegment(s: string, lo: nat) {
    forall n | lo <= n <= |s| - 4 :: !(s[n] == '/' && s[n + 1] == 'v' && s[n + 3] == '/')
  }

  lemma BotHasNoSegment(s: string, a: nat, e: nat)
    requires UrlHead(s, a, a + 19) && a + 23 < e <= |s| && s[a + 19..a + 23] == "/bot"
    requires forall k | a + 23 <= k < e :: s[k] != '/'
    requires forall k | e < k < |s| :: IsAlnum(s[k])
    ensures NoSegment(s, a + 3)
  {
    var bot := s[a + 19..a + 23];
    assert s[a + 20] == bot[1] && s[a + 21] == bot[2] && s[a + 22] == bot[3];
    forall n | a + 3 <= n <= |s| - 4 ensures !(s[n] == '/' && s[n + 1] == 'v' && s[n + 3] == '/') {
      assert n < a + 19 ==> IsHostChar(s[n]);
      assert n > e ==> IsAlnum(s[n]);
      assert n == e ==> IsAlnum(s[n + 3]);
    }
  }

  lemma NoSegmentNoKey(u: Unicode, s: string, a: nat, x: nat)
    requires UrlHead(s, a, x) && OneScheme(s, a) && NoSegment(s, a + 3)
    ensures Sub(GenericV2Key(u), s, 0) == s
  {
    forall n: nat | a + 3 <= n ensures !At(s, n, "/v2/") {
      if At(s, n, "/v2/") {
        IsSegment(s, n);
      }
    }
    NoGeneric(u, s, a, x);
  }

  lemma BotInTurn(u: Unicode, scheme: string, host: string, tail: string, digits: string, token: string, post: string,
        s: string, t: string)
    requires Ordinary(u) && IsHttp(scheme) && host == "api.telegram.org" && BotTail(u, tail, digits, token, post)
    requires s == scheme + "://" + host + tail && t == scheme + "://" + host + ("/bot[REDACTED]" + post)
    ensures Redact(u, s) == t
  {
    var a := |scheme|;
    var c, e := a + 23 + |digits|, a + 24 + |digits| + |token|;
    BotReady(u, scheme, host, tail, digits, token, post, s, c, e);
    BotOutput(scheme + "://" + host, post, s, a, e, t);
    BotUrlMasked(u, scheme, host, post, s, a, c, e, t);
  }

  lemma BotUrlMasked(u: Unicode, scheme: string, host: string, post: string, s: string, a: nat, c: nat, e: nat,
        t: string)
    requires Ordinary(u) && IsHttp(scheme) && host == "api.telegram.org" && IsMethodPath(post)
    requires BotUrl(u, s, a, c, e) && t == s[..a + 23] + "[REDACTED]" + s[e..]
    requires t == scheme + "://" + host + ("/bot[REDACTED]" + post)
    ensures Redact(u, s) == t
  {
    MaskedBot(u, scheme, host, post, t);
    BotMasked(u, s, a, c, e, t);
  }

  lemma BotReady(u: Unicode, scheme: string, host: string, tail: string, digits: string, token: string, post: string,
        s: string, c: nat, e: nat)
    requires Ordinary(u) && IsHttp(scheme) && host == "api.telegram.org" && BotTail(u, tail, digits, token, post)
    requires s == scheme + "://" + host + tail
    requires c == |scheme| + 23 + |digits| && e == |scheme| + 24 + |digits| + |token|
    ensures BotUrl(u, s, |scheme|, c, e) && IsMethodPath(post)
    ensures s[..|scheme| + 19] == scheme + "://" + host && s[e..] == post
  {
    BotLayout(u, scheme, host, tail, digits, token, post, s);
    BotPlace(u, s, |scheme|, host, tail, digits, token, post);
  }

  lemma BotOutput(head: string, post: string, s: string, a: nat, e: nat, t: string)
    requires a + 23 <= e <= |s| && s[..a + 19] == head && s[a + 19..a + 23] == "/bot" && s[e..] == post
    requires t == head + ("/bot[REDACTED]" + post)
    ensures t == s[..a + 23] + "[REDACTED]" + s[e..]
  {
    JoinSlices(s, 0, a + 19, a + 23);
    assert s[0..a + 19] == s[..a + 19] && s[0..a + 23] == s[..a + 23];
    var bot, mask, both := "/bot", "[REDACTED]", "/bot[REDACTED]";
    assert bot + mask == both;
    assert head + (bot + mask + post) == head + bot + mask + post;
  }

  /** A bot's URL, its id up to c and its token up to e. */
  predicate BotUrl(u: Unicode, s: string, a: nat, c: nat, e: nat) {
    && UrlHead(s, a, a + 19) && OneScheme(s, a) && At(s, a + 3, "api.telegram.org/bot")
    && BotAt(u, s, a + 23, c, e) && s[a + 19..a + 23] == "/bot" && (forall k | e < k < |s| :: IsAlnum(s[k]))
  }

  lemma BotMasked(u: Unicode, s: string, a: nat, c: nat, e: nat, t: string)
    requires Ordinary(u) && BotUrl(u, s, a, c, e)
    requires t == s[..a + 23] + "[REDACTED]" + s[e..]
    requires Sub(UrlCredentials(u), t, 0) == t && Sub(Bearer(u), t, 0) == t && Sub(RsendKey(u), t, 0) == t
    ensures Redact(u, s) == t
  {
    BotFirstThree(u, s, a, c, e, t);
    SixInTurn(u, s, s, s, t, t, t, t);
  }

  lemma BotFirstThree(u: Unicode, s: string, a: nat, c: nat, e: nat, t: string)
    requires Ordinary(u) && BotUrl(u, s, a, c, e)
    requires t == s[..a + 23] + "[REDACTED]" + s[e..]
    ensures Sub(AlchemyUrlKey(u), s, 0) == s && Sub(GenericV2Key(u), s, 0) == s && Sub(TelegramBotUrl(u), s, 0) == t
  {
    BotIsNoAlchemy(u, s, a);
    BotIsSlashless(u, s, a + 23, c, e);
    BotHasNoSegment(s, a, e);
    NoSegmentNoKey(u, s, a, a + 19);
    TelegramMasks(u, s, a, a + 19, c, e);
  }

  lemma BotIsSlashless(u: Unicode, s: string, k: nat, c: nat, e: nat)
    requires Ordinary(u) && BotAt(u, s, k, c, e)
    ensures forall j | k <= j < e :: s[j] != '/'
  {
    assert !u.word('/');
  }

  lemma MaskedBot(u: Unicode, scheme: string, host: string, post: string, t: string)
    requires Ordinary(u) && IsHttp(scheme) && host == "api.telegram.org"
    requires IsMethodPath(post)
    requires t == scheme + "://" + host + ("/bot[REDACTED]" + post)
    ensures Sub(UrlCredentials(u), t, 0) == t && Sub(Bearer(u), t, 0) == t && Sub(RsendKey(u), t, 0) == t
  {
    var tail := "/bot[REDACTED]" + post;
    MaskedBotChars(host, post, tail);
    SegmentChars(scheme, host, tail, t);
    PlainUrl(u, t);
  }

  lemma MaskedBotChars(host: string, post: string, tail: string)
    requires host == "api.telegram.org" && IsMethodPath(post)
    requires tail == "/bot[REDACTED]" + post
    ensures All(IsHostChar, host) && All(IsUrlChar, tail)
  {
    assert All(IsUrlChar, "/bot[REDACTED]");
    assert forall k | 1 <= k < |post| :: post[k] == post[1..][k - 1];
  }

  // ── Passwords in connection strings ─────────────────────────

  predicate IsScheme(scheme: string) {
    scheme != "" && IsLetter(scheme[0]) && All(IsSchemeChar, scheme)
  }

  predicate EndsWith(s: string, piece: string) {
    |piece| <= |s| && s[|s| - |piece|..] == piece
  }

  /** Scheme up to a, user up to k, a colon, the password, and an at sign before e. */
  predicate LoginAt(u: Unicode, s: string, a: nat, k: nat, e: nat) {
    && 0 < a && a + 3 <= k && k + 2 < e <= |s| && IsLetter(s[0]) && AllIn(IsSchemeChar, s, 0, a) && At(s, a, "://")
    && AllIn(Besides(u, "/:@\"'"), s, a + 3, k) && s[k] == ':'
    && AllIn(Besides(u, "@/\"'"), s, k + 1, e - 1) && s[e - 1] == '@' && OneScheme(s, a)
  }

  lemma LoginKept(u: Unicode, s: string, a: nat, k: nat, e: nat)
    requires Ordinary(u) && LoginAt(u, s, a, k, e)
    ensures Matches(UrlCredentials(u).kept, s, 0, k)
  {
    var kept := UrlCredentials(u).kept;
    StarIs(Besides(u, "/:@\"'"), s, a + 3, k);
    SeqHas(kept.b.b.b.a, kept.b.b.b.b, s, a, a + 3, k);
    StarIs(IsSchemeChar, s, 1, a);
    SeqHas(kept.b.b.a, kept.b.b.b, s, 1, a, k);
    SeqHas(kept.b.a, kept.b.b, s, 0, 1, k);
    SeqHas(kept.a, kept.b, s, 0, 0, k);
  }

  /** Where the kept group of any match ends, and what stands there. */
  lemma LoginMatch(u: Unicode, s: string, a: nat, x: nat, y: nat)
    requires OneScheme(s, a) && MatchesAt(UrlCredentials(u), s, 0, x, y)
    ensures a + 3 <= x < |s| && AllIn(Besides(u, "/:@\"'"), s, a + 3, x) && s[x] == ':'
  {
    var kept, rest := UrlCredentials(u).kept, UrlCredentials(u).rest;
    var m1 := SplitAt(kept.a, kept.b, s, 0, x);
    var m2 := SplitAt(kept.b.a, kept.b.b, s, m1, x);
    var m3 := SplitAt(kept.b.b.a, kept.b.b.b, s, m2, x);
    var m4 := SplitAt(kept.b.b.b.a, kept.b.b.b.b, s, m3, x);
    assert s[m3] == s[m3..m4][0] == ':' && s[m3 + 1] == s[m3..m4][1] == '/';
    StarIs(Besides(u, "/:@\"'"), s, m4, x);
    var m5 := SplitAt(rest.a, rest.b, s, x, y);
    assert s[x] == s[x..m5][0];
  }

  lemma LoginMatches(u: Unicode, s: string, a: nat, k: nat, e: nat)
    requires Ordinary(u) && LoginAt(u, s, a, k, e)
    ensures forall x: nat, y: nat | MatchesAt(UrlCredentials(u), s, 0, x, y) :: x == k
  {
    forall x: nat, y: nat | MatchesAt(UrlCredentials(u), s, 0, x, y) ensures x == k {
      LoginMatch(u, s, a, x, y);
    }
  }

  /** A colon at k, a password, and the first at sign before e. */
  predicate PasswordAt(u: Unicode, s: string, k: nat, e: nat) {
    k + 2 < e <= |s| && s[k] == ':' && AllIn(Besides(u, "@/\"'"), s, k + 1, e - 1) && s[e - 1] == '@'
  }

  lemma PasswordEnd(u: Unicode, s: string, k: nat, e: nat, y: nat)
    requires PasswordAt(u, s, k, e) && Matches(UrlCredentials(u).rest, s, k, y)
    ensures y == e
  {
    var rest := UrlCredentials(u).rest;
    var m1 := SplitAt(rest.a, rest.b, s, k, y);
    var m2 := SplitAt(rest.b.a, rest.b.b, s, m1, y);
    PlusIs(Besides(u, "@/\"'"), s, m1, m2);
    assert s[m2] == s[m2..y][0] == '@';
  }

  lemma PasswordMatches(u: Unicode, s: string, k: nat, e: nat)
    requires PasswordAt(u, s, k, e)
    ensures Matches(UrlCredentials(u).rest, s, k, e)
  {
    var rest := UrlCredentials(u).rest;
    assert s[k..k + 1] == ":" && s[e - 1..e] == "@";
    PlusIs(Besides(u, "@/\"'"), s, k + 1, e - 1);
    SeqHas(rest.b.a, rest.b.b, s, k + 1, e - 1, e);
    SeqHas(rest.a, rest.b, s, k, k + 1, e);
  }

  lemma PasswordFirst(u: Unicode, s: string, k: nat, e: nat)
    requires PasswordAt(u, s, k, e)
    ensures First(UrlCredentials(u).rest, s, k, e)
  {
    PasswordMatches(u, s, k, e);
    forall y: nat | Matches(UrlCredentials(u).rest, s, k, y) ensures y == e {
      PasswordEnd(u, s, k, e, y);
    }
    OnlyEnd(UrlCredentials(u).rest, s, k, e);
  }

  lemma NoSchemeAfter(s: string, a: nat, e: nat)
    requires OneScheme(s, a) && a < e <= |s|
    ensures !ContainsOne(s[e..], ["://"])
  {
    var piece := "://";
    forall i | 0 <= i <= |s[e..]| ensures !(piece <= s[e..][i..]) {
      if i + 3 <= |s[e..]| {
        assert s[e..][i..][0] == s[e + i] && s[e..][i..][1] == s[e + i + 1];
      }
    }
  }

  lemma LoginMasks(u: Unicode, s: string, a: nat, k: nat, e: nat)
    requires Ordinary(u) && LoginAt(u, s, a, k, e)
    ensures Sub(UrlCredentials(u), s, 0) == s[..k] + ":[REDACTED]@" + s[e..]
  {
    LoginKept(u, s, a, k, e);
    LoginMatches(u, s, a, k, e);
    PasswordFirst(u, s, k, e);
    LoginRest(u, s, a, e);
    LoginMask(u);
    MasksInside(UrlCredentials(u), ":[REDACTED]@", s, k, e);
  }

  lemma LoginMask(u: Unicode)
    ensures UrlCredentials(u).mask == ":[REDACTED]@"
  {
    assert ":" + MASK + "@" == ":[REDACTED]@";
  }

  lemma MasksInside(p: Pattern, mask: string, s: string, k: nat, e: nat)
    requires 0 < e && 0 < |s| && Matches(p.kept, s, 0, k) && First(p.rest, s, k, e) && p.mask == mask
    requires forall x: nat, y: nat | MatchesAt(p, s, 0, x, y) :: x == k
    requires e <= |s| && Sub(p, s, e) == s[e..]
    ensures k <= |s| && Sub(p, s, 0) == s[..k] + mask + s[e..]
  {
    MasksRest(p, s, 0, k, e);
    assert s[0..k] == s[..k];
  }

  lemma LoginRest(u: Unicode, s: string, a: nat, e: nat)
    requires OneScheme(s, a) && a < e <= |s|
    ensures Sub(UrlCredentials(u), s, e) == s[e..]
  {
    NoSchemeAfter(s, a, e);
    CredentialsNeedScheme(u);
    SubIsIdentity(UrlCredentials(u), ["://"], s, e);
  }

  lemma CredentialsNeedScheme(u: Unicode)
    ensures PatternNeeds(UrlCredentials(u), ["://"])
  {
    var kept := UrlCredentials(u).kept;
    WordNeeds("://", ["://"], 0, 0);
    assert Needs(kept.b.b.b, ["://"]) && Needs(kept.b.b, ["://"]) && Needs(kept.b, ["://"]);
  }

  // The patterns for http URLs find nothing in one

  /** No http URL, or no path. */
  predicate NotForUrls(s: string, a: nat)
    requires a <= |s|
  {
    || !(EndsWith(s[..a], "http") || EndsWith(s[..a], "https"))
    || forall k | a + 3 <= k < |s| :: s[k] != '/'
  }

  lemma HttpBefore(s: string, a: nat, i: nat, m: nat)
    requires OneScheme(s, a) && a <= |s| && Matches(HttpScheme(), s, i, m)
    ensures m == a + 3 && (EndsWith(s[..a], "http") || EndsWith(s[..a], "https"))
  {
    SchemeIs(s, i, m);
    assert s[m - 3] == s[m - 3..m][0] && s[m - 2] == s[m - 3..m][1];
    if m == i + 7 {
      assert s[..a][a - 4..] == s[i..i + 4];
    } else {
      assert s[..a][a - 5..] == s[i..i + 4] + [s[i + 4]];
    }
  }

  lemma NoUrlKey(p: Pattern, s: string, a: nat)
    requires OneScheme(s, a) && a + 3 <= |s| && NotForUrls(s, a)
    requires IsUrlPattern(p) && Needs(p.kept.b, ["/"])
    ensures Sub(p, s, 0) == s
  {
    var tail := p.kept.b;
    forall i: nat, k: nat, e: nat | i <= |s| ensures !MatchesAt(p, s, i, k, e) {
      if Matches(p.kept, s, i, k) {
        var m := SplitAt(HttpScheme(), tail, s, i, k);
        HttpBefore(s, a, i, m);
        NeedsIsSound(tail, ["/"], s, m, k);
        SlashFound(s, m, k);
      }
    }
    SubLeavesAlone(p, s, 0);
    assert s[0..] == s;
  }

  lemma SlashFound(s: string, m: nat, k: nat)
    requires m <= k <= |s| && ContainsOne(s[m..k], ["/"])
    ensures exists j | m <= j < k :: s[j] == '/'
  {
    var piece := "/";
    assert Occurs(piece, s[m..k]);
    var i :| 0 <= i <= |s[m..k]| && piece <= s[m..k][i..];
    assert s[m + i] == '/';
  }

  lemma UrlTailsNeedSlash(u: Unicode)
    ensures Needs(AlchemyUrlKey(u).kept.b, ["/"]) && Needs(GenericV2Key(u).kept.b, ["/"])
    ensures Needs(TelegramBotUrl(u).kept.b, ["/"])
  {
    WordNeeds(".alchemy.com/v2/", ["/"], 0, 12);
    WordNeeds("/v2/", ["/"], 0, 0);
    WordNeeds("api.telegram.org/bot", ["/"], 0, 16);
  }

  lemma NoUrlKeys(u: Unicode, s: string, a: nat)
    requires OneScheme(s, a) && a + 3 <= |s| && NotForUrls(s, a)
    ensures Sub(AlchemyUrlKey(u), s, 0) == s && Sub(GenericV2Key(u), s, 0) == s && Sub(TelegramBotUrl(u), s, 0) == s
  {
    UrlPatterns(u);
    UrlTailsNeedSlash(u);
    NoUrlKey(AlchemyUrlKey(u), s, a);
    NoUrlKey(GenericV2Key(u), s, a);
    NoUrlKey(TelegramBotUrl(u), s, a);
  }

  /** The rest of a connection string: nothing in it is for any pattern. */
  predicate PlainTail(u: Unicode, tail: string) {
    NoSchemeIn(tail) && '_' !in tail && forall k | 0 <= k < |tail| :: !u.space(tail[k])
  }

  lemma LoginLayout(u: Unicode, scheme: string, user: string, password: string, tail: string, s: string)
    requires Ordinary(u) && IsScheme(scheme) && All(Besides(u, "/:@\"'"), user)
    requires password != "" && All(Besides(u, "@/\"'"), password) && NoSchemeIn(tail)
    requires s == scheme + "://" + user + ":" + password + "@" + tail
    ensures var a := |scheme|;
            var k := a + 3 + |user|;
            var e := k + 2 + |password|;
            LoginAt(u, s, a, k, e) && s[..k] == scheme + "://" + user && s[e..] == tail && s[..a] == scheme
  {
    var a := |scheme|;
    var k := a + 3 + |user|;
    var e := k + 2 + |password|;
    LoginParts(s, scheme, user, password, tail);
    Copied(IsSchemeChar, s, 0, scheme);
    Copied(Besides(u, "/:@\"'"), s, a + 3, user);
    Copied(Besides(u, "@/\"'"), s, k + 1, password);
    LoginScheme(s, a, k, e, u);
  }

  lemma LoginParts(s: string, scheme: string, user: string, password: string, tail: string)
    requires s == scheme + "://" + user + ":" + password + "@" + tail
    ensures var a := |scheme|;
            var k := a + 3 + |user|;
            var e := k + 2 + |password|;
            && e <= |s| && At(s, 0, scheme) && At(s, a, "://") && At(s, a + 3, user) && At(s, k + 1, password)
            && s[k] == ':' && s[e - 1] == '@' && s[..k] == scheme + "://" + user && s[e..] == tail && s[..a] == scheme
            && forall i | e <= i < |s| :: s[i] == tail[i - e]
  {
  }

  lemma Copied(p: char -> bool, s: string, i: nat, piece: string)
    requires At(s, i, piece) && All(p, piece)
    ensures AllIn(p, s, i, i + |piece|)
  {
    forall k | i <= k < i + |piece| ensures p(s[k]) {
      assert s[k] == s[i..i + |piece|][k - i];
    }
  }

  lemma LoginScheme(s: string, a: nat, k: nat, e: nat, u: Unicode)
    requires a + 3 <= k && k + 2 < e <= |s| && AllIn(IsSchemeChar, s, 0, a) && At(s, a, "://")
    requires AllIn(Besides(u, "/:@\"'"), s, a + 3, k) && AllIn(Besides(u, "@/\"'"), s, k + 1, e - 1)
    requires s[k] == ':' && s[e - 1] == '@'
    requires forall i | e <= i < |s| - 1 :: !(s[i] == ':' && s[i + 1] == '/')
    ensures OneScheme(s, a)
  {
    assert s[a + 1] == s[a..a + 3][1] && s[a + 2] == s[a..a + 3][2];
    forall i | 0 <= i < |s| - 1 && s[i] == ':' && s[i + 1] == '/' ensures i == a {
      assert i < a ==> IsSchemeChar(s[i]);
    }
  }

  lemma LoginInTurn(u: Unicode, s: string, a: nat, k: nat, e: nat, t: string)
    requires Ordinary(u) && LoginAt(u, s, a, k, e) && NotForUrls(s, a)
    requires t == s[..k] + ":[REDACTED]@" + s[e..] && '_' !in t && forall i | 0 <= i < |t| :: !u.space(t[i])
    ensures Redact(u, s) == t
  {
    NoUrlKeys(u, s, a);
    LoginMasks(u, s, a, k, e);
    NoSpaces(u, t);
    NoUnderscore(u, t);
    SixInTurn(u, s, s, s, s, t, t, t);
  }

  lemma LoginHasNoPath(u: Unicode, s: string, a: nat, k: nat, e: nat)
    requires LoginAt(u, s, a, k, e) && '/' !in s[e..]
    ensures forall i | a + 3 <= i < |s| :: s[i] != '/'
  {
    assert forall i | e <= i < |s| :: s[i] == s[e..][i - e];
  }

  predicate Plain(u: Unicode, s: string) {
    '_' !in s && forall i | 0 <= i < |s| :: !u.space(s[i])
  }

  lemma PlainJoin(u: Unicode, s: string, t: string)
    requires Plain(u, s) && Plain(u, t)
    ensures Plain(u, s + t)
  {
  }

  lemma LoginIsPlain(u: Unicode, scheme: string, user: string, tail: string)
    requires Ordinary(u) && IsScheme(scheme) && All(Besides(u, "/:@\"'"), user) && '_' !in user && PlainTail(u, tail)
    ensures Plain(u, scheme + "://" + user + ":[REDACTED]@" + tail)
  {
    NotAmong(IsSchemeChar, scheme, '_');
    assert forall i | 0 <= i < |scheme| :: IsSchemeChar(scheme[i]);
    assert forall i | 0 <= i < |user| :: Besides(u, "/:@\"'")(user[i]);
    assert Plain(u, scheme) && Plain(u, user) && Plain(u, tail);
    assert Plain(u, "://") && Plain(u, ":[REDACTED]@");
    PlainJoin(u, scheme, "://");
    PlainJoin(u, scheme + "://", user);
    PlainJoin(u, scheme + "://" + user, ":[REDACTED]@");
    PlainJoin(u, scheme + "://" + user + ":[REDACTED]@", tail);
  }

  /** The password of a connection string is masked, whatever it is; scheme, user and the rest stay. */
  lemma PasswordMasked(u: Unicode, scheme: string, user: string, password: string, tail: string)
    requires Ordinary(u) && IsScheme(scheme) && All(Besides(u, "/:@\"'"), user) && '_' !in user
    requires password != "" && All(Besides(u, "@/\"'"), password) && PlainTail(u, tail)
    requires '/' !in tail || !(EndsWith(scheme, "http") || EndsWith(scheme, "https"))
    ensures var prefix := scheme + "://" + user;
            Redact(u, prefix + ":" + password + "@" + tail) == prefix + ":[REDACTED]@" + tail
  {
    var prefix := scheme + "://" + user;
    var s, t := prefix + ":" + password + "@" + tail, prefix + ":[REDACTED]@" + tail;
    var a, k, e := |scheme|, |prefix|, |prefix| + 2 + |password|;
    LoginLayout(u, scheme, user, password, tail, s);
    if '/' !in tail {
      LoginHasNoPath(u, s, a, k, e);
    }
    LoginIsPlain(u, scheme, user, tail);
    LoginInTurn(u, s, a, k, e, t);
  }
}
