/**
 Secret redaction in log text (services/backend/app/logging_config.py): six regular
 expressions applied in order, behind a fast path that skips them all when none of four
 marker substrings occurs. Each substitution replaces exactly the leftmost matches, and the
 fast path is justified by an analysis of what any match must contain.
 */
module RedactSecrets {
  import opened Regex
  import opened Texts
  import opened Wrappers

  // ── Substitution ────────────────────────────────────────────

  /** A kept first group, the rest of the match, and what replaces that rest. */
  datatype Pattern = Pattern(kept: Re, rest: Re, mask: string)

  datatype Match = Match(keptEnd: nat, end: nat)

  function FirstMatch(p: Pattern, s: string, i: nat, keptEnds: seq<nat>): (m: Option<Match>)
    requires i <= |s| && Within(keptEnds, i, |s|)
    ensures m.Some? ==> i <= m.value.keptEnd <= m.value.end <= |s|
    decreases |keptEnds|
  {
    if keptEnds == [] then None
    else
      var ends := Ends(p.rest, s, keptEnds[0]);
      if ends != [] then Some(Match(keptEnds[0], ends[0]))
      else FirstMatch(p, s, i, keptEnds[1..])
  }

  function MatchAt(p: Pattern, s: string, i: nat): (m: Option<Match>)
    requires i <= |s|
    ensures m.Some? ==> i <= m.value.keptEnd <= m.value.end <= |s|
  {
    FirstMatch(p, s, i, Ends(p.kept, s, i))
  }

  /** pattern.sub(r"\1" + mask, s), from position i on; no match of these patterns is empty. */
  function Sub(p: Pattern, s: string, i: nat): string
    requires i <= |s|
    decreases |s| - i
  {
    if i == |s| then ""
    else
      var m := MatchAt(p, s, i);
      if m.Some? && m.value.end > i then s[i..m.value.keptEnd] + p.mask + Sub(p, s, m.value.end)
      else [s[i]] + Sub(p, s, i + 1)
  }

  // ── The six patterns ────────────────────────────────────────

  /** What Python's Unicode tables call a word character, a space, a decimal digit. */
  datatype Unicode = Unicode(word: char -> bool, space: char -> bool, digit: char -> bool)

  predicate IsAlnum(c: char) {
    'a' <= c <= 'z' || 'A' <= c <= 'Z' || '0' <= c <= '9'
  }

  predicate IsKeyChar(c: char) {
    IsAlnum(c) || c == '_' || c == '-'
  }

  /** [a-z] under IGNORECASE: the ASCII letters and four that fold onto them. */
  predicate IsLetter(c: char) {
    'a' <= c <= 'z' || 'A' <= c <= 'Z'
    || c == '\U{130}' || c == '\U{131}' || c == '\U{17F}' || c == '\U{212A}'
  }

  const MASK := "[REDACTED]"

  function HttpScheme(): Re {
    Seq(Word("http"), Seq(Opt(Word("s")), Word("://")))
  }

  predicate IsHostChar(c: char) {
    IsAlnum(c) || c == '.' || c == '-'
  }

  predicate IsSchemeChar(c: char) {
    IsLetter(c) || '0' <= c <= '9' || c in "+.-"
  }

  predicate IsBearerChar(c: char) {
    IsAlnum(c) || c in "-._~+/"
  }

  /** [^\s...]: anything but spaces and the characters listed. */
  function Besides(u: Unicode, listed: string): char -> bool {
    c => !u.space(c) && c !in listed
  }

  function AlchemyUrlKey(u: Unicode): Pattern {
    Pattern(
      Seq(HttpScheme(), Seq(Star(One(IsHostChar)), Word(".alchemy.com/v2/"))),
      Plus(One(Besides(u, "\"'/?#"))),
      MASK)
  }

  function GenericV2Key(u: Unicode): Pattern {
    Pattern(
      Seq(HttpScheme(), Seq(Star(One(Besides(u, "\"'"))), Word("/v2/"))),
      Seq(AtLeast(20, One(IsKeyChar)), NotAhead(IsKeyChar)),
      MASK)
  }

  function TelegramBotUrl(u: Unicode): Pattern {
    Pattern(
      Seq(HttpScheme(), Word("api.telegram.org/bot")),
      Seq(Plus(One(u.digit)), Seq(Word(":"), Plus(One(IsKeyChar)))),
      MASK)
  }

  function UrlCredentials(u: Unicode): Pattern {
    Pattern(
      Seq(WordBoundary(u.word), Seq(One(IsLetter), Seq(Star(One(IsSchemeChar)),
        Seq(Word("://"), Star(One(Besides(u, "/:@\"'"))))))),
      Seq(Word(":"), Seq(Plus(One(Besides(u, "@/\"'"))), Word("@"))),
      ":" + MASK + "@")
  }

  function Bearer(u: Unicode): Pattern {
    Pattern(
      Seq(WordBoundary(u.word), Seq(One(c => c == 'B' || c == 'b'), Seq(Word("earer"), Plus(One(u.space))))),
      Seq(Plus(One(IsBearerChar)), Star(Word("="))),
      MASK)
  }

  function TestOrLive(): Re {
    Seq(Alt(Word("test"), Word("live")), Word("_"))
  }

  function RsendKey(u: Unicode): Pattern {
    Pattern(
      Seq(WordBoundary(u.word), Alt(Seq(Word("rsend_"), TestOrLive()), Seq(Word("rsusr_"), TestOrLive()))),
      Plus(One(IsKeyChar)),
      MASK)
  }

  function Patterns(u: Unicode): seq<Pattern> {
    [AlchemyUrlKey(u), GenericV2Key(u), TelegramBotUrl(u), UrlCredentials(u), Bearer(u), RsendKey(u)]
  }

  const MARKERS: seq<string> := ["://", "earer", "rsend_", "rsusr_"]

  // ── redact_secrets ──────────────────────────────────────────

  predicate HasMarker(s: string) {
    exists k | 0 <= k < |MARKERS| :: Occurs(MARKERS[k], s)
  }

  function SubAll(patterns: seq<Pattern>, s: string): string {
    if patterns == [] then s else SubAll(patterns[1..], Sub(patterns[0], s, 0))
  }

  function Redact(u: Unicode, s: string): string {
    if !HasMarker(s) then s else SubAll(Patterns(u), s)
  }

  // ── What every match contains ───────────────────────────────

  predicate ContainsOne(s: string, markers: seq<string>) {
    exists k | 0 <= k < |markers| :: Occurs(markers[k], s)
  }

  /** A syntactic reason why every match of r contains one of the markers. */
  predicate Needs(r: Re, markers: seq<string>) {
    match r
    case Word(w) => ContainsOne(w, markers)
    case Seq(a, b) => Needs(a, markers) || Needs(b, markers)
    case Alt(a, b) => Needs(a, markers) && Needs(b, markers)
    case _ => false
  }

  lemma OccursWithin(m: string, s: string, i: nat, j: nat, lo: nat, hi: nat)
    requires lo <= i <= j <= hi <= |s| && Occurs(m, s[i..j])
    ensures Occurs(m, s[lo..hi])
  {
    var k :| 0 <= k <= |s[i..j]| && m <= s[i..j][k..];
    var at := i - lo + k;
    SliceOfSlice(s, i, j, k);
    SliceOfSlice(s, lo, hi, at);
    assert s[i + k..hi] == s[i + k..j] + s[j..hi];
    assert m <= s[lo..hi][at..];
  }

  lemma ContainsWithin(markers: seq<string>, s: string, i: nat, j: nat, lo: nat, hi: nat)
    requires lo <= i <= j <= hi <= |s| && ContainsOne(s[i..j], markers)
    ensures ContainsOne(s[lo..hi], markers)
  {
    var k :| 0 <= k < |markers| && Occurs(markers[k], s[i..j]);
    OccursWithin(markers[k], s, i, j, lo, hi);
  }

  /** The analysis is sound: whatever matches contains a marker. */
  lemma {:induction false} NeedsIsSound(r: Re, markers: seq<string>, s: string, i: nat, e: nat)
    requires Needs(r, markers) && Matches(r, s, i, e)
    ensures i <= e <= |s| && ContainsOne(s[i..e], markers)
    decreases r
  {
    match r
    case Word(w) =>
    case Seq(a, b) =>
      var m := SplitAt(a, b, s, i, e);
      if Needs(a, markers) {
        NeedsIsSound(a, markers, s, i, m);
        ContainsWithin(markers, s, i, m, i, e);
      } else {
        NeedsIsSound(b, markers, s, m, e);
        ContainsWithin(markers, s, m, e, i, e);
      }
    case Alt(a, b) =>
      if Matches(a, s, i, e) {
        NeedsIsSound(a, markers, s, i, e);
      } else {
        NeedsIsSound(b, markers, s, i, e);
      }
  }

  // ── What a substitution replaces ────────────────────────────

  /** The pattern matches at i: its kept group up to k, the rest up to e. */
  ghost predicate MatchesAt(p: Pattern, s: string, i: nat, k: nat, e: nat) {
    Matches(p.kept, s, i, k) && Matches(p.rest, s, k, e)
  }

  ghost predicate NoMatchAt(p: Pattern, s: string, i: nat) {
    forall k: nat, e: nat :: !MatchesAt(p, s, i, k, e)
  }

  lemma {:induction false} FirstMatchFinds(p: Pattern, s: string, i: nat, keptEnds: seq<nat>)
    requires i <= |s| && Within(keptEnds, i, |s|)
    ensures var m := FirstMatch(p, s, i, keptEnds);
            && (m.None? <==> forall n | 0 <= n < |keptEnds| :: Ends(p.rest, s, keptEnds[n]) == [])
            && (m.Some? ==>
                  && m.value.keptEnd in keptEnds && Ends(p.rest, s, m.value.keptEnd) != []
                  && m.value.end == Ends(p.rest, s, m.value.keptEnd)[0])
    decreases |keptEnds|
  {
    if keptEnds != [] {
      FirstMatchFinds(p, s, i, keptEnds[1..]);
      assert forall n | 1 <= n < |keptEnds| :: keptEnds[n] == keptEnds[1..][n - 1];
      assert forall n | 0 <= n < |keptEnds[1..]| :: keptEnds[1..][n] == keptEnds[n + 1];
    }
  }

  lemma MatchIsFound(p: Pattern, s: string, i: nat, k: nat, e: nat)
    requires i <= |s| && MatchesAt(p, s, i, k, e)
    ensures MatchAt(p, s, i).Some?
  {
    var ends := Ends(p.kept, s, i);
    FirstMatchFinds(p, s, i, ends);
    EndsExactly(p.kept, s, i, k);
    EndsExactly(p.rest, s, k, e);
    var n: nat :| n < |ends| && ends[n] == k;
    assert Ends(p.rest, s, ends[n]) != [];
  }

  /** A match is found exactly where there is one. */
  lemma MatchAtExactly(p: Pattern, s: string, i: nat)
    requires i <= |s|
    ensures MatchAt(p, s, i).None? <==> NoMatchAt(p, s, i)
    ensures MatchAt(p, s, i).Some? ==>
              MatchesAt(p, s, i, MatchAt(p, s, i).value.keptEnd, MatchAt(p, s, i).value.end)
  {
    var m := MatchAt(p, s, i);
    if m.Some? {
      FirstMatchFinds(p, s, i, Ends(p.kept, s, i));
      EndsExactly(p.kept, s, i, m.value.keptEnd);
      EndsExactly(p.rest, s, m.value.keptEnd, m.value.end);
      assert Ends(p.rest, s, m.value.keptEnd)[0] in Ends(p.rest, s, m.value.keptEnd);
      assert MatchesAt(p, s, i, m.value.keptEnd, m.value.end);
    }
    if k: nat, e: nat :| MatchesAt(p, s, i, k, e) {
      MatchIsFound(p, s, i, k, e);
    }
  }

  /** One replaced stretch: where the match starts, where the kept group and the whole end. */
  datatype Found = Found(start: nat, keptEnd: nat, end: nat)

  /** The leftmost matches from i on, one after the other, none of them overlapping. */
  ghost predicate Leftmost(p: Pattern, s: string, i: nat, found: seq<Found>)
    decreases |found|
  {
    if found == [] then forall j: nat | i <= j <= |s| :: NoMatchAt(p, s, j)
    else
      var f := found[0];
      && i <= f.start <= f.keptEnd <= f.end <= |s| && f.start < f.end
      && (forall j: nat | i <= j < f.start :: NoMatchAt(p, s, j))
      && MatchesAt(p, s, f.start, f.keptEnd, f.end)
      && Leftmost(p, s, f.end, found[1..])
  }

  /** Stretches in order and within the text. */
  predicate InOrder(s: string, i: nat, found: seq<Found>)
    decreases |found|
  {
    if found == [] then i <= |s|
    else
      i <= found[0].start <= found[0].keptEnd <= found[0].end <= |s| && InOrder(s, found[0].end, found[1..])
  }

  lemma {:induction false} LeftmostInOrder(p: Pattern, s: string, i: nat, found: seq<Found>)
    requires i <= |s| && Leftmost(p, s, i, found)
    ensures InOrder(s, i, found)
    decreases |found|
  {
    if found != [] {
      LeftmostInOrder(p, s, found[0].end, found[1..]);
    }
  }

  /** The text from i on, with the rest of each match replaced. */
  function Replaced(s: string, i: nat, found: seq<Found>, mask: string): string
    requires InOrder(s, i, found)
    decreases |found|
  {
    if found == [] then s[i..]
    else
      var f := found[0];
      s[i..f.start] + s[f.start..f.keptEnd] + mask + Replaced(s, f.end, found[1..], mask)
  }

  /** Every match of the pattern takes at least one character. */
  ghost predicate NeverEmpty(p: Pattern, s: string) {
    forall i: nat, k: nat, e: nat | MatchesAt(p, s, i, k, e) :: i < e
  }

  /** A match here comes first. */
  lemma FoundFirst(p: Pattern, s: string, i: nat, k: nat, e: nat, rest: seq<Found>)
    requires MatchesAt(p, s, i, k, e) && i < e && Leftmost(p, s, e, rest)
    ensures var found := [Found(i, k, e)] + rest;
            Leftmost(p, s, i, found) && InOrder(s, i, found)
    ensures Replaced(s, i, [Found(i, k, e)] + rest, p.mask) == s[i..k] + p.mask + Replaced(s, e, rest, p.mask)
  {
    var found := [Found(i, k, e)] + rest;
    assert found[1..] == rest;
    LeftmostInOrder(p, s, e, rest);
    assert s[i..i] + s[i..k] == s[i..k];
  }

  /** Where no match starts the text goes on. */
  lemma FoundLater(p: Pattern, s: string, i: nat, found: seq<Found>)
    requires i < |s| && NoMatchAt(p, s, i) && Leftmost(p, s, i + 1, found)
    ensures Leftmost(p, s, i, found) && InOrder(s, i, found) && InOrder(s, i + 1, found)
    ensures Replaced(s, i, found, p.mask) == [s[i]] + Replaced(s, i + 1, found, p.mask)
  {
    LeftmostInOrder(p, s, i + 1, found);
    if found == [] {
      FirstThenRest(s, i);
    } else {
      var f := found[0];
      assert s[i..f.start] == [s[i]] + s[i + 1..f.start];
    }
  }

  /**
   Substitution replaces exactly the leftmost matches: the text splits into stretches no match
   starts in and matches, each made of a kept group and a rest; only the rests change, into the mask.
   */
  lemma {:induction false} SubReplacesLeftmost(p: Pattern, s: string, i: nat) returns (found: seq<Found>)
    requires i <= |s| && NeverEmpty(p, s)
    ensures Leftmost(p, s, i, found) && InOrder(s, i, found)
    ensures Sub(p, s, i) == Replaced(s, i, found, p.mask)
    decreases |s| - i
  {
    MatchAtExactly(p, s, i);
    var m := MatchAt(p, s, i);
    if m.Some? {
      found := SubReplacesLeftmost(p, s, m.value.end);
      FoundFirst(p, s, i, m.value.keptEnd, m.value.end, found);
      found := [Found(i, m.value.keptEnd, m.value.end)] + found;
    } else if i < |s| {
      found := SubReplacesLeftmost(p, s, i + 1);
      FoundLater(p, s, i, found);
    } else {
      found := [];
    }
  }

  // ── Fast path = slow path ───────────────────────────────────

  /** Whatever the pattern matches, in the kept group or the rest, contains a marker. */
  predicate PatternNeeds(p: Pattern, markers: seq<string>) {
    Needs(p.kept, markers) || Needs(p.rest, markers)
  }

  lemma NoMarkerNoMatch(p: Pattern, markers: seq<string>, s: string, lo: nat, i: nat)
    requires PatternNeeds(p, markers) && lo <= i <= |s| && !ContainsOne(s[lo..], markers)
    ensures NoMatchAt(p, s, i)
  {
    assert s[lo..|s|] == s[lo..];
    if k: nat, e: nat :| MatchesAt(p, s, i, k, e) {
      if Needs(p.kept, markers) {
        NeedsIsSound(p.kept, markers, s, i, k);
        ContainsWithin(markers, s, i, k, lo, |s|);
      } else {
        NeedsIsSound(p.rest, markers, s, k, e);
        ContainsWithin(markers, s, k, e, lo, |s|);
      }
    }
  }

  /** Where no match starts any more, substitution leaves the text alone. */
  lemma {:induction false} SubLeavesAlone(p: Pattern, s: string, i: nat)
    requires i <= |s| && forall j: nat | i <= j <= |s| :: NoMatchAt(p, s, j)
    ensures Sub(p, s, i) == s[i..]
    decreases |s| - i
  {
    if i < |s| {
      MatchAtExactly(p, s, i);
      SubLeavesAlone(p, s, i + 1);
      FirstThenRest(s, i);
    }
  }

  lemma SubIsIdentity(p: Pattern, markers: seq<string>, s: string, i: nat)
    requires PatternNeeds(p, markers) && i <= |s| && !ContainsOne(s[i..], markers)
    ensures Sub(p, s, i) == s[i..]
  {
    forall j: nat | i <= j <= |s| ensures NoMatchAt(p, s, j) {
      NoMarkerNoMatch(p, markers, s, i, j);
    }
    SubLeavesAlone(p, s, i);
  }

  lemma WordNeeds(w: string, markers: seq<string>, k: nat, at: nat)
    requires k < |markers| && at <= |w| && markers[k] <= w[at..]
    ensures Needs(Word(w), markers)
  {
  }

  lemma SchemeNeeds()
    ensures Needs(HttpScheme(), MARKERS) && Needs(Word("://"), MARKERS)
  {
    WordNeeds("://", MARKERS, 0, 0);
  }

  lemma UrlPatternsNeed(u: Unicode)
    ensures Needs(AlchemyUrlKey(u).kept, MARKERS) && Needs(GenericV2Key(u).kept, MARKERS)
    ensures Needs(TelegramBotUrl(u).kept, MARKERS) && Needs(UrlCredentials(u).kept, MARKERS)
  {
    SchemeNeeds();
    var credentials := UrlCredentials(u).kept;
    assert credentials.b.b.b.a == Word("://");
    assert Needs(credentials.b.b.b, MARKERS) && Needs(credentials.b.b, MARKERS);
  }

  lemma KeyPatternsNeed(u: Unicode)
    ensures Needs(Bearer(u).kept, MARKERS) && Needs(RsendKey(u).kept, MARKERS)
  {
    WordNeeds("earer", MARKERS, 1, 0);
    WordNeeds("rsend_", MARKERS, 2, 0);
    WordNeeds("rsusr_", MARKERS, 3, 0);
  }

  /** Each of the six patterns needs a marker in the group it keeps. */
  lemma PatternsNeedMarkers(u: Unicode)
    ensures forall k | 0 <= k < |Patterns(u)| :: Needs(Patterns(u)[k].kept, MARKERS)
  {
    UrlPatternsNeed(u);
    KeyPatternsNeed(u);
  }

  lemma {:induction false} SubAllIsIdentity(patterns: seq<Pattern>, markers: seq<string>, s: string)
    requires forall k | 0 <= k < |patterns| :: Needs(patterns[k].kept, markers)
    requires !ContainsOne(s, markers)
    ensures SubAll(patterns, s) == s
  {
    if patterns != [] {
      assert s[0..] == s;
      SubIsIdentity(patterns[0], markers, s, 0);
      SubAllIsIdentity(patterns[1..], markers, s);
    }
  }

  /** Skipping the six substitutions never changes the output, for any text. */
  lemma FastPathIsExact(u: Unicode, s: string)
    ensures Redact(u, s) == SubAll(Patterns(u), s)
  {
    if !HasMarker(s) {
      PatternsNeedMarkers(u);
      SubAllIsIdentity(Patterns(u), MARKERS, s);
    }
  }

  // ── The six leave everything but secrets alone ──────────────

  lemma NeedyIsNeverEmpty(p: Pattern, markers: seq<string>, s: string)
    requires Needs(p.kept, markers) && "" !in markers
    ensures NeverEmpty(p, s)
  {
    forall i: nat, k: nat, e: nat | MatchesAt(p, s, i, k, e) ensures i < e {
      NeedsIsSound(p.kept, markers, s, i, k);
    }
  }

  /** Each of the six substitutions replaces exactly the leftmost matches of its pattern, by its mask. */
  lemma SixReplaceLeftmost(u: Unicode, n: nat, s: string) returns (found: seq<Found>)
    requires n < |Patterns(u)|
    ensures Leftmost(Patterns(u)[n], s, 0, found) && InOrder(s, 0, found)
    ensures Sub(Patterns(u)[n], s, 0) == Replaced(s, 0, found, if n == 3 then ":[REDACTED]@" else "[REDACTED]")
  {
    PatternsNeedMarkers(u);
    assert ":" + MASK + "@" == ":[REDACTED]@";
    NeedyIsNeverEmpty(Patterns(u)[n], MARKERS, s);
    found := SubReplacesLeftmost(Patterns(u)[n], s, 0);
  }
}
