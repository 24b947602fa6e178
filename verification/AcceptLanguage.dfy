/**
 Locale negotiation for the hosted checkout (apps/web/i18n/acceptLanguage.ts): parse the
 header, sort the candidates, take the first supported one. The partner is a choice that
 sorts nothing: the supported entry of greatest quality, the earliest among equals.
 */
module AcceptLanguage {
  import opened Wrappers
  import opened AmountText

  /** Lower-casing, and Number(value): None where it is not finite, as for an absent value. */
  datatype Env = Env(lower: string -> string, number: Option<string> -> Option<real>)

  datatype Candidate = Candidate(lang: string, q: real, index: nat)

  // ── Reading the header ──────────────────────────────────────

  /** s.split(c) */
  function Pieces(s: string, c: char): (parts: seq<string>)
    ensures parts != []
  {
    var k := IndexOf(s, c);
    if k == |s| then [s] else [s[..k]] + Pieces(s[k + 1..], c)
  }

  /** What one parameter makes of the quality so far. */
  function Reweighted(env: Env, param: string, q: real): real {
    var pair := Pieces(param, '=');
    if Trim(pair[0]) != "q" then q
    else
      var parsed := env.number(if |pair| > 1 then Some(Trim(pair[1])) else None);
      if parsed.Some? then parsed.value else q
  }

  /** The quality of an entry: 1 unless a readable q says otherwise; the last one counts. */
  function Quality(env: Env, params: seq<string>): real {
    if params == [] then 1.0 else Reweighted(env, params[|params| - 1], Quality(env, params[..|params| - 1]))
  }

  datatype Entry = Entry(lang: string, q: real)

  /** One comma-separated part; None when it names no language. */
  function ReadPart(env: Env, part: string): Option<Entry> {
    var fields := Pieces(Trim(part), ';');
    var lang := env.lower(Trim(fields[0]));
    if lang == "" || lang == "*" then None else Some(Entry(lang, Quality(env, fields[1..])))
  }

  predicate Weighs(entry: Option<Entry>) {
    entry.Some? && entry.value.q > 0.0
  }

  function Candidates(env: Env, parts: seq<string>): seq<Candidate> {
    if parts == [] then []
    else
      var front := Candidates(env, parts[..|parts| - 1]);
      var entry := ReadPart(env, parts[|parts| - 1]);
      if Weighs(entry) then front + [Candidate(entry.value.lang, entry.value.q, |parts| - 1)] else front
  }

  // ── Sorting and scanning ────────────────────────────────────

  /** The comparator's order: b.q - a.q || a.index - b.index is not positive. */
  predicate Before(a: Candidate, b: Candidate) {
    a.q > b.q || (a.q == b.q && a.index <= b.index)
  }

  function Insert(c: Candidate, sorted: seq<Candidate>): seq<Candidate> {
    if sorted == [] || !Before(sorted[0], c) then [c] + sorted else [sorted[0]] + Insert(c, sorted[1..])
  }

  function Sort(candidates: seq<Candidate>): seq<Candidate> {
    if candidates == [] then [] else Insert(candidates[|candidates| - 1], Sort(candidates[..|candidates| - 1]))
  }

  /** The language itself, or what stands before its first hyphen. */
  function Match(lang: string, locales: seq<string>): Option<string> {
    var base := Pieces(lang, '-')[0];
    if lang in locales then Some(lang) else if base in locales then Some(base) else None
  }

  function FirstMatch(sorted: seq<Candidate>, locales: seq<string>): Option<string> {
    if sorted == [] then None
    else
      var m := Match(sorted[0].lang, locales);
      if m.Some? then m else FirstMatch(sorted[1..], locales)
  }

  function OrElse(o: Option<string>, otherwise: string): string {
    if o.Some? then o.value else otherwise
  }

  function Chosen(env: Env, parts: seq<string>, locales: seq<string>, defaultLocale: string): string {
    OrElse(FirstMatch(Sort(Candidates(env, parts)), locales), defaultLocale)
  }

  function Negotiated(env: Env, header: Option<string>, locales: seq<string>, defaultLocale: string): string {
    if header.None? || header.value == "" then defaultLocale
    else Chosen(env, Pieces(header.value, ','), locales, defaultLocale)
  }

  method NegotiateLocale(env: Env, header: Option<string>, locales: seq<string>,
        defaultLocale: string) returns (r: string)
    ensures r == Negotiated(env, header, locales, defaultLocale)
    ensures header == None || header == Some("") ==> r == defaultLocale
  {
    if header.None? || header.value == "" {
      return defaultLocale;
    }
    var candidates := ReadCandidates(env, Pieces(header.value, ','));
    candidates := Sort(candidates);
    for i := 0 to |candidates|
      invariant FirstMatch(candidates, locales) == FirstMatch(candidates[i..], locales)
    {
      var lang := candidates[i].lang;
      if lang in locales {
        return lang;
      }
      var base := Pieces(lang, '-')[0];
      if base in locales {
        return base;
      }
    }
    r := defaultLocale;
  }

  method ReadCandidates(env: Env, parts: seq<string>) returns (candidates: seq<Candidate>)
    ensures candidates == Candidates(env, parts)
  {
    candidates := [];
    for index := 0 to |parts|
      invariant candidates == Candidates(env, parts[..index])
    {
      assert parts[..index + 1][..index] == parts[..index];
      var fields := Pieces(Trim(parts[index]), ';');
      var lang := env.lower(Trim(fields[0]));
      if lang != "" && lang != "*" {
        var q := ReadQuality(env, fields[1..]);
        if q > 0.0 {
          candidates := candidates + [Candidate(lang, q, index)];
        }
      }
    }
    assert parts[..|parts|] == parts;
  }

  method ReadQuality(env: Env, params: seq<string>) returns (q: real)
    ensures q == Quality(env, params)
  {
    q := 1.0;
    for i := 0 to |params|
      invariant q == Quality(env, params[..i])
    {
      assert params[..i + 1][..i] == params[..i];
      var pair := Pieces(params[i], '=');
      if Trim(pair[0]) == "q" {
        var parsed := env.number(if |pair| > 1 then Some(Trim(pair[1])) else None);
        if parsed.Some? {
          q := parsed.value;
        }
      }
    }
    assert params[..|params|] == params;
  }

  // ── The sort ────────────────────────────────────────────────

  predicate InOrder(s: seq<Candidate>) {
    forall i, j | 0 <= i < j < |s| :: Before(s[i], s[j])
  }

  lemma {:induction false} InsertKeeps(c: Candidate, sorted: seq<Candidate>)
    requires InOrder(sorted)
    ensures InOrder(Insert(c, sorted))
    ensures forall x :: x in Insert(c, sorted) <==> x == c || x in sorted
  {
    if sorted != [] && Before(sorted[0], c) {
      var rest := Insert(c, sorted[1..]);
      InsertKeeps(c, sorted[1..]);
      assert sorted == [sorted[0]] + sorted[1..];
      forall j | 0 <= j < |rest| ensures Before(sorted[0], rest[j]) {
        assert rest[j] in rest;
      }
    } else {
      InsertsFirst(c, sorted);
    }
  }

  lemma InsertsFirst(c: Candidate, sorted: seq<Candidate>)
    requires InOrder(sorted) && (sorted == [] || !Before(sorted[0], c))
    ensures InOrder([c] + sorted)
  {
    forall j | 0 <= j < |sorted| ensures Before(c, sorted[j]) {
      assert j > 0 ==> Before(sorted[0], sorted[j]);
    }
  }

  lemma {:induction false} SortKeeps(candidates: seq<Candidate>)
    ensures InOrder(Sort(candidates))
    ensures forall x :: x in Sort(candidates) <==> x in candidates
  {
    if candidates != [] {
      var front := candidates[..|candidates| - 1];
      SortKeeps(front);
      InsertKeeps(candidates[|candidates| - 1], Sort(front));
      assert candidates == front + [candidates[|candidates| - 1]];
    }
  }

  /** The scan's answer comes from a supported candidate that stands before all supported ones. */
  lemma {:induction false} ScanFinds(sorted: seq<Candidate>, locales: seq<string>) returns (k: nat)
    requires InOrder(sorted)
    ensures k <= |sorted|
    ensures k == |sorted| ==>
              FirstMatch(sorted, locales) == None && forall j | 0 <= j < k :: Match(sorted[j].lang, locales) == None
    ensures k < |sorted| ==> FirstMatch(sorted, locales) == Match(sorted[k].lang, locales) != None
    ensures k < |sorted| ==>
              forall j | 0 <= j < |sorted| && Match(sorted[j].lang, locales).Some? :: Before(sorted[k], sorted[j])
  {
    if sorted == [] || Match(sorted[0].lang, locales).Some? {
      k := 0;
    } else {
      var rest := sorted[1..];
      k := ScanFinds(rest, locales);
      k := k + 1;
      assert forall j | 1 <= j < |sorted| :: sorted[j] == rest[j - 1];
    }
  }

  lemma {:induction false} CandidatesAre(env: Env, parts: seq<string>, c: Candidate)
    ensures c in Candidates(env, parts) <==>
              && c.index < |parts| && Weighs(ReadPart(env, parts[c.index]))
              && ReadPart(env, parts[c.index]).value == Entry(c.lang, c.q)
  {
    if parts != [] {
      CandidatesAre(env, parts[..|parts| - 1], c);
    }
  }

  /** A language is served as itself if supported, and else as what stands before its first hyphen, if that is. */
  lemma MatchExactly(lang: string, locales: seq<string>, l: string)
    ensures Match(lang, locales) == Some(l) <==>
              l in locales && (l == lang || (lang !in locales && '-' !in l && l + "-" <= lang))
  {
    var k := IndexOf(lang, '-');
    assert Pieces(lang, '-')[0] == lang[..k];
    if k < |lang| {
      assert lang[..k] + "-" == lang[..k + 1];
    } else {
      assert lang[..k] == lang;
    }
    if '-' !in l && l + "-" <= lang {
      var rest := lang[|l| + 1..];
      assert lang == l + ['-'] + rest;
      IndexAfter(l, '-', rest);
      assert lang[..k] == l;
    }
  }

  // ── The choice ──────────────────────────────────────────────

  /** Part i names a supported language with a positive quality. */
  predicate Usable(env: Env, parts: seq<string>, locales: seq<string>, i: nat) {
    i < |parts| && UsablePart(env, parts[i], locales)
  }

  predicate UsablePart(env: Env, part: string, locales: seq<string>) {
    Weighs(ReadPart(env, part)) && Match(ReadPart(env, part).value.lang, locales).Some?
  }

  /** No usable part has a greater quality, and none before it the same. */
  predicate Preferred(env: Env, parts: seq<string>, locales: seq<string>, i: nat) {
    && Usable(env, parts, locales, i)
    && forall j | 0 <= j < |parts| && Usable(env, parts, locales, j) ::
         var p, q := ReadPart(env, parts[i]).value.q, ReadPart(env, parts[j]).value.q; p > q || (p == q && i <= j)
  }

  predicate AnswersFor(env: Env, parts: seq<string>, locales: seq<string>, answer: string, i: nat)
    requires Usable(env, parts, locales, i)
  {
    Match(ReadPart(env, parts[i]).value.lang, locales) == Some(answer)
  }

  function AsCandidate(env: Env, parts: seq<string>, i: nat): Candidate
    requires i < |parts| && Weighs(ReadPart(env, parts[i]))
  {
    Candidate(ReadPart(env, parts[i]).value.lang, ReadPart(env, parts[i]).value.q, i)
  }

  /** Parse, sort and scan choose the supported entry of greatest quality, the earliest among equals. */
  lemma ChoiceIsArgmax(env: Env, parts: seq<string>, locales: seq<string>, defaultLocale: string) returns (i: nat)
    ensures i < |parts| <==> exists j | 0 <= j < |parts| :: Usable(env, parts, locales, j)
    ensures i < |parts| ==> Preferred(env, parts, locales, i)
    ensures i < |parts| ==> AnswersFor(env, parts, locales, Chosen(env, parts, locales, defaultLocale), i)
    ensures i >= |parts| ==> Chosen(env, parts, locales, defaultLocale) == defaultLocale
  {
    var candidates := Candidates(env, parts);
    var sorted := Sort(candidates);
    SortKeeps(candidates);
    var k := ScanFinds(sorted, locales);
    forall j | 0 <= j < |parts| && Usable(env, parts, locales, j) ensures AsCandidate(env, parts, j) in sorted {
      CandidatesAre(env, parts, AsCandidate(env, parts, j));
    }
    if k == |sorted| {
      i := |parts|;
    } else {
      i := sorted[k].index;
      assert sorted[k] in sorted;
      CandidatesAre(env, parts, sorted[k]);
      assert Usable(env, parts, locales, i);
      assert AsCandidate(env, parts, i) == sorted[k];
      forall j | 0 <= j < |parts| && Usable(env, parts, locales, j)
        ensures Before(AsCandidate(env, parts, i), AsCandidate(env, parts, j))
      {
        var m :| 0 <= m < |sorted| && sorted[m] == AsCandidate(env, parts, j);
      }
    }
  }

  // ── Parts that do not count ─────────────────────────────────

  /** Where index j of a list ends up when an element is inserted at n. */
  function Shifted(n: nat, j: nat): nat {
    if j < n then j else j + 1
  }

  predicate InsertedAt(short: seq<string>, long: seq<string>, n: nat) {
    n <= |short| && |long| == |short| + 1 && forall j | 0 <= j < |short| :: short[j] == long[Shifted(n, j)]
  }

  lemma UsableShifts(env: Env, short: seq<string>, long: seq<string>, n: nat, locales: seq<string>, j: nat)
    requires InsertedAt(short, long, n) && Usable(env, short, locales, j)
    ensures Usable(env, long, locales, Shifted(n, j)) && long[Shifted(n, j)] == short[j]
  {
  }

  lemma UsableUnshifts(env: Env, short: seq<string>, long: seq<string>, n: nat, locales: seq<string>, i: nat)
    returns (j: nat)
    requires InsertedAt(short, long, n) && !UsablePart(env, long[n], locales) && Usable(env, long, locales, i)
    ensures i == Shifted(n, j) && Usable(env, short, locales, j) && long[i] == short[j]
  {
    j := if i < n then i else i - 1;
    assert i != n && i == Shifted(n, j);
    assert short[j] == long[Shifted(n, j)];
  }

  /** The preferred parts of both lists are the same part. */
  lemma SamePreferred(env: Env, short: seq<string>, long: seq<string>, n: nat, locales: seq<string>, j: nat, i: nat)
    requires InsertedAt(short, long, n) && !UsablePart(env, long[n], locales)
    requires Preferred(env, short, locales, j) && Preferred(env, long, locales, i)
    ensures i == Shifted(n, j)
  {
    UsableShifts(env, short, long, n, locales, j);
    var j' := UsableUnshifts(env, short, long, n, locales, i);
    Prefers(env, long, locales, i, Shifted(n, j));
    Prefers(env, short, locales, j, j');
  }

  lemma Prefers(env: Env, parts: seq<string>, locales: seq<string>, i: nat, j: nat)
    requires Preferred(env, parts, locales, i) && Usable(env, parts, locales, j)
    ensures var p, q := ReadPart(env, parts[i]).value.q, ReadPart(env, parts[j]).value.q;
            p > q || (p == q && i <= j)
  {
  }

  lemma SameUsable(env: Env, short: seq<string>, long: seq<string>, n: nat, locales: seq<string>)
    requires InsertedAt(short, long, n) && !UsablePart(env, long[n], locales)
    ensures (exists j | 0 <= j < |short| :: Usable(env, short, locales, j)) <==>
              (exists i | 0 <= i < |long| :: Usable(env, long, locales, i))
  {
    if j :| 0 <= j < |short| && Usable(env, short, locales, j) {
      UsableShifts(env, short, long, n, locales, j);
    }
    if i :| 0 <= i < |long| && Usable(env, long, locales, i) {
      var j := UsableUnshifts(env, short, long, n, locales, i);
    }
  }

  lemma InsertionIgnored(env: Env, short: seq<string>, long: seq<string>, n: nat, locales: seq<string>,
        defaultLocale: string)
    requires InsertedAt(short, long, n) && !UsablePart(env, long[n], locales)
    ensures Chosen(env, long, locales, defaultLocale) == Chosen(env, short, locales, defaultLocale)
  {
    var i := ChoiceIsArgmax(env, long, locales, defaultLocale);
    var j := ChoiceIsArgmax(env, short, locales, defaultLocale);
    SameUsable(env, short, long, n, locales);
    if j < |short| {
      SamePreferred(env, short, long, n, locales, j, i);
    }
  }

  /** A part that is unsupported, unreadable or of no weight can stand anywhere. */
  lemma PartIgnored(env: Env, front: seq<string>, part: string, back: seq<string>, locales: seq<string>,
        defaultLocale: string)
    requires !UsablePart(env, part, locales)
    ensures Chosen(env, front + [part] + back, locales, defaultLocale)
         == Chosen(env, front + back, locales, defaultLocale)
  {
    InsertionIgnored(env, front + back, front + [part] + back, |front|, locales, defaultLocale);
  }

  lemma PiecesAt(front: string, c: char, back: string)
    requires c !in front
    ensures Pieces(front + [c] + back, c) == [front] + Pieces(back, c)
  {
    IndexAfter(front, c, back);
    var s := front + [c] + back;
    assert s[..|front|] == front && s[|front| + 1..] == back;
  }

  lemma NoSeparator(s: string, c: char)
    requires c !in s
    ensures Pieces(s, c) == [s]
  {
    assert IndexOf(s, c) == |s|;
  }

  lemma {:induction false} PiecesJoin(a: string, c: char, b: string)
    ensures Pieces(a + [c] + b, c) == Pieces(a, c) + Pieces(b, c)
    decreases |a|
  {
    var k := IndexOf(a, c);
    if k == |a| {
      NoSeparator(a, c);
      PiecesAt(a, c, b);
    } else {
      var front, rest := a[..k], a[k + 1..];
      assert a == front + [c] + rest;
      PiecesJoin(rest, c, b);
      Reassociate(front, [c], rest, [c], b);
      JoinAfter(front, c, rest, rest + [c] + b, Pieces(b, c));
    }
  }

  lemma JoinAfter(front: string, c: char, rest: string, tail: string, more: seq<string>)
    requires c !in front && Pieces(tail, c) == Pieces(rest, c) + more
    ensures Pieces(front + [c] + tail, c) == Pieces(front + [c] + rest, c) + more
  {
    PiecesAt(front, c, rest);
    PiecesAt(front, c, tail);
    assert [front] + (Pieces(rest, c) + more) == [front] + Pieces(rest, c) + more;
  }

  lemma Reassociate(a: string, b: string, c: string, d: string, e: string)
    ensures a + b + c + d + e == a + b + (c + d + e)
  {
  }

  lemma NegotiatesParts(env: Env, header: string, parts: seq<string>, locales: seq<string>, defaultLocale: string)
    requires header != "" && Pieces(header, ',') == parts
    ensures Negotiated(env, Some(header), locales, defaultLocale) == Chosen(env, parts, locales, defaultLocale)
  {
  }

  /** Adding an entry that does not count between two others never changes the answer, */
  lemma EntryIgnored(env: Env, a: string, entry: string, b: string, locales: seq<string>, defaultLocale: string)
    requires ',' !in entry && !UsablePart(env, entry, locales)
    ensures Negotiated(env, Some(a + "," + entry + "," + b), locales, defaultLocale)
         == Negotiated(env, Some(a + "," + b), locales, defaultLocale)
  {
    var front, back := Pieces(a, ','), Pieces(b, ',');
    NoSeparator(entry, ',');
    PiecesJoin(a, ',', entry);
    PiecesJoin(a + "," + entry, ',', b);
    NegotiatesParts(env, a + "," + entry + "," + b, front + [entry] + back, locales, defaultLocale);
    PiecesJoin(a, ',', b);
    NegotiatesParts(env, a + "," + b, front + back, locales, defaultLocale);
    PartIgnored(env, front, entry, back, locales, defaultLocale);
  }

  /** nor does adding it as the first or the last one. */
  lemma OuterEntryIgnored(env: Env, header: string, entry: string, locales: seq<string>, defaultLocale: string)
    requires ',' !in entry && !UsablePart(env, entry, locales)
    ensures Negotiated(env, Some(header + "," + entry), locales, defaultLocale)
         == Chosen(env, Pieces(header, ','), locales, defaultLocale)
    ensures Negotiated(env, Some(entry + "," + header), locales, defaultLocale)
         == Chosen(env, Pieces(header, ','), locales, defaultLocale)
  {
    LastEntryIgnored(env, header, entry, locales, defaultLocale);
    FirstEntryIgnored(env, header, entry, locales, defaultLocale);
  }

  lemma LastEntryIgnored(env: Env, header: string, entry: string, locales: seq<string>, defaultLocale: string)
    requires ',' !in entry && !UsablePart(env, entry, locales)
    ensures Negotiated(env, Some(header + "," + entry), locales, defaultLocale)
         == Chosen(env, Pieces(header, ','), locales, defaultLocale)
  {
    var parts := Pieces(header, ',');
    NoSeparator(entry, ',');
    PiecesJoin(header, ',', entry);
    NegotiatesParts(env, header + "," + entry, parts + [entry], locales, defaultLocale);
    LastPartIgnored(env, parts, entry, locales, defaultLocale);
  }

  lemma FirstEntryIgnored(env: Env, header: string, entry: string, locales: seq<string>, defaultLocale: string)
    requires ',' !in entry && !UsablePart(env, entry, locales)
    ensures Negotiated(env, Some(entry + "," + header), locales, defaultLocale)
         == Chosen(env, Pieces(header, ','), locales, defaultLocale)
  {
    var parts := Pieces(header, ',');
    NoSeparator(entry, ',');
    PiecesJoin(entry, ',', header);
    NegotiatesParts(env, entry + "," + header, [entry] + parts, locales, defaultLocale);
    FirstPartIgnored(env, parts, entry, locales, defaultLocale);
  }

  lemma LastPartIgnored(env: Env, parts: seq<string>, part: string, locales: seq<string>, defaultLocale: string)
    requires !UsablePart(env, part, locales)
    ensures Chosen(env, parts + [part], locales, defaultLocale) == Chosen(env, parts, locales, defaultLocale)
  {
    InsertionIgnored(env, parts, parts + [part], |parts|, locales, defaultLocale);
  }

  lemma FirstPartIgnored(env: Env, parts: seq<string>, part: string, locales: seq<string>, defaultLocale: string)
    requires !UsablePart(env, part, locales)
    ensures Chosen(env, [part] + parts, locales, defaultLocale) == Chosen(env, parts, locales, defaultLocale)
  {
    InsertionIgnored(env, parts, [part] + parts, 0, locales, defaultLocale);
  }

  // ── Exclusions ──────────────────────────────────────────────

  /** The part asks not to be served l. */
  predicate Excludes(env: Env, part: string, l: string) {
    ReadPart(env, part).Some? && ReadPart(env, part).value.lang == l && ReadPart(env, part).value.q <= 0.0
  }

  lemma PreferredIsUnique(env: Env, parts: seq<string>, locales: seq<string>, i: nat, j: nat)
    requires Preferred(env, parts, locales, i) && Preferred(env, parts, locales, j)
    ensures i == j
  {
  }

  /**
   A header that excludes a supported language is answered with it exactly when the preferred
   part, necessarily another one, reduces to it, or when no part is usable and it is the
   default: the exclusion itself plays no role.
   */
  lemma ExcludedAnswerExactly(env: Env, parts: seq<string>, locales: seq<string>, defaultLocale: string,
        k: nat, l: string)
    requires k < |parts| && Excludes(env, parts[k], l) && l in locales
    ensures Chosen(env, parts, locales, defaultLocale) == l <==>
              || (exists i: nat :: i != k && Preferred(env, parts, locales, i) && AnswersFor(env, parts, locales, l, i))
              || ((forall j: nat :: !Usable(env, parts, locales, j)) && defaultLocale == l)
  {
    var i := ChoiceIsArgmax(env, parts, locales, defaultLocale);
    if i < |parts| {
      assert Usable(env, parts, locales, i) && i != k;
      forall j: nat | Preferred(env, parts, locales, j) ensures j == i {
        PreferredIsUnique(env, parts, locales, i, j);
      }
    }
  }

  predicate Unspaced(s: string) {
    s != "" && !IsSpace(s[0]) && !IsSpace(s[|s| - 1])
  }

  lemma {:induction false} TrimmedAlready(s: string)
    requires Unspaced(s)
    ensures Trim(s) == s && Trim(" " + s) == s
  {
    TrimEndOf(s, "");
    TrimStartOf("", s);
    TrimStartOf(" ", s);
    assert s + "" == s && "" + s == s;
  }

  /** A part without parameters names its language with quality 1. */
  lemma PlainPart(env: Env, part: string, name: string)
    requires Trim(part) == name != "" && Trim(name) == name && ';' !in name && env.lower(name) !in {"", "*"}
    ensures ReadPart(env, part) == Some(Entry(env.lower(name), 1.0))
  {
    NoSeparator(name, ';');
  }

  /** A part with one parameter names its language with the quality that parameter gives. */
  lemma WeightedPart(env: Env, name: string, param: string)
    requires Unspaced(name) && Unspaced(param)
    requires ';' !in name && ';' !in param && env.lower(name) !in {"", "*"}
    ensures ReadPart(env, name + ";" + param) == Some(Entry(env.lower(name), Reweighted(env, param, 1.0)))
  {
    TrimmedAlready(name);
    TrimmedAlready(name + ";" + param);
    PiecesAt(name, ';', param);
    NoSeparator(param, ';');
    OneParameter(env, param);
    assert ([name] + [param])[1..] == [param];
  }

  lemma OneParameter(env: Env, param: string)
    ensures Quality(env, [param]) == Reweighted(env, param, 1.0)
  {
    assert [param][..0] == [];
  }

  lemma TrimmedBetween(lead: string, s: string, trail: string)
    requires AllSpace(lead) && Unspaced(s) && AllSpace(trail)
    ensures Trim(lead + s + trail) == s
  {
    assert lead + s + trail == lead + (s + trail);
    TrimStartOf(lead, s + trail);
    TrimEndOf(s, trail);
  }

  /** Spaces around a name or a value. */
  datatype Padding = Padding(before: string, between: string, after: string, end: string)

  predicate IsPadding(p: Padding) {
    AllSpace(p.before) && AllSpace(p.between) && AllSpace(p.after) && AllSpace(p.end)
  }

  /** A q and its value, with spaces anywhere between. */
  function WeightText(p: Padding, value: string): string {
    p.before + "q" + p.between + "=" + (p.after + value + p.end)
  }

  /** A parameter q=value sets the quality to the value's number, or leaves it where it has none. */
  lemma WeightParameter(env: Env, param: string, p: Padding, value: string, q: real)
    requires IsPadding(p) && Unspaced(value) && '=' !in value && param == WeightText(p, value)
    ensures Reweighted(env, param, q) == if env.number(Some(value)).Some? then env.number(Some(value)).value else q
  {
    var key := "q";
    var left, right := p.before + key + p.between, p.after + value + p.end;
    TrimmedBetween(p.before, key, p.between);
    TrimmedBetween(p.after, value, p.end);
    SpacesAreNot(p, '=');
    PiecesAt(left, '=', right);
    NoSeparator(right, '=');
    assert left + ['='] + right == param;
  }

  /** A space is no punctuation. */
  lemma SpacesAreNot(p: Padding, c: char)
    requires IsPadding(p) && !IsSpace(c)
    ensures c !in p.before && c !in p.between && c !in p.after && c !in p.end
  {
  }

  lemma WeightlessPart(env: Env, part: string, name: string)
    requires part == "en;q=0" && name == "en" && env.lower(name) == name && env.number(Some("0")) == Some(0.0)
    ensures ReadPart(env, part) == Some(Entry(name, 0.0))
  {
    var param := "q=0";
    assert part == name + ";" + param;
    WeightedPart(env, name, param);
    WeightParameter(env, param, Padding("", "", "", ""), "0", 1.0);
  }

  /** Whatever language one part excludes, a second part that reduces to it has it served. */
  lemma ExclusionOverridden(env: Env, excluding: string, regional: string, l: string, locales: seq<string>,
        defaultLocale: string)
    requires ',' !in excluding && ',' !in regional
    requires Excludes(env, excluding, l)
    requires UsablePart(env, regional, locales) && Match(ReadPart(env, regional).value.lang, locales) == Some(l)
    ensures Negotiated(env, Some(excluding + "," + regional), locales, defaultLocale) == l
  {
    PiecesAt(excluding, ',', regional);
    NoSeparator(regional, ',');
    assert [excluding] + [regional] == [excluding, regional];
    NegotiatesParts(env, excluding + "," + regional, [excluding, regional], locales, defaultLocale);
    OnlySecondCounts(env, excluding, regional, locales, defaultLocale);
  }

  lemma OnlySecondCounts(env: Env, first: string, second: string, locales: seq<string>, defaultLocale: string)
    requires !UsablePart(env, first, locales) && UsablePart(env, second, locales)
    ensures Some(Chosen(env, [first, second], locales, defaultLocale))
         == Match(ReadPart(env, second).value.lang, locales)
  {
    var parts := [first, second];
    assert Usable(env, parts, locales, 1);
    var i := ChoiceIsArgmax(env, parts, locales, defaultLocale);
    assert !Usable(env, parts, locales, 0);
  }

  lemma BaseOf(base: string, region: string, locales: seq<string>)
    requires '-' !in base && base in locales && base + "-" + region !in locales
    ensures Match(base + "-" + region, locales) == Some(base)
  {
    PiecesAt(base, '-', region);
  }

  lemma RegionalPart(env: Env, part: string, name: string, base: string, locales: seq<string>)
    requires part == " en-GB" && name == "en-gb" && base == "en"
    requires env.lower("en-GB") == name && base in locales && name !in locales
    ensures UsablePart(env, part, locales) && Match(ReadPart(env, part).value.lang, locales) == Some(base)
  {
    var tag := "en-GB";
    TrimmedAlready(tag);
    assert part == " " + tag;
    PlainPart(env, part, tag);
    var region := "gb";
    assert name == base + "-" + region;
    BaseOf(base, region, locales);
  }

  lemma EnglishHeader(header: string, excluding: string, regional: string)
    requires header == "en;q=0, en-GB" && excluding == "en;q=0" && regional == " en-GB"
    ensures header == excluding + "," + regional && ',' !in excluding && ',' !in regional
  {
  }

  lemma RegionServes(env: Env, header: string, excluding: string, regional: string, l: string, locales: seq<string>,
        defaultLocale: string)
    requires header == excluding + "," + regional && ',' !in excluding && ',' !in regional
    requires ReadPart(env, excluding) == Some(Entry(l, 0.0))
    requires UsablePart(env, regional, locales) && Match(ReadPart(env, regional).value.lang, locales) == Some(l)
    ensures Pieces(header, ',')[0] == excluding && Excludes(env, excluding, l)
    ensures Negotiated(env, Some(header), locales, defaultLocale) == l
  {
    PiecesAt(excluding, ',', regional);
    ExclusionOverridden(env, excluding, regional, l, locales, defaultLocale);
  }

  /** English is excluded and served: the header "en;q=0, en-GB". */
  lemma ExcludedYetChosen(env: Env, header: string, excluding: string, english: string, british: string,
        locales: seq<string>, defaultLocale: string)
    requires header == "en;q=0, en-GB" && excluding == "en;q=0" && english == "en" && british == "en-gb"
    requires env.lower("en") == english && env.lower("en-GB") == british && env.number(Some("0")) == Some(0.0)
    requires english in locales && british !in locales
    ensures Pieces(header, ',')[0] == excluding && Excludes(env, excluding, english)
    ensures Negotiated(env, Some(header), locales, defaultLocale) == english
  {
    var regional := " en-GB";
    EnglishHeader(header, excluding, regional);
    WeightlessPart(env, excluding, english);
    RegionalPart(env, regional, british, english, locales);
    RegionServes(env, header, excluding, regional, english, locales, defaultLocale);
  }

  // ── Weights ─────────────────────────────────────────────────

  /** A language with a weight, as one entry of the header, with spaces around each. */
  predicate IsWeighted(env: Env, entry: string, name: string, p: Padding, value: string) {
    && Unspaced(name) && Unspaced(value) && ',' !in name && ';' !in name && ',' !in value && ';' !in value
    && '=' !in value && env.lower(name) !in {"", "*"} && IsPadding(p)
    && entry == name + ";" + WeightText(p, value)
  }

  /** The number of a weight, 1 where it is none. */
  function WeightOf(env: Env, value: string): real {
    if env.number(Some(value)).Some? then env.number(Some(value)).value else 1.0
  }

  lemma SpacedPart(env: Env, entry: string, name: string, param: string, trail: string)
    requires Unspaced(name) && AllSpace(trail) && param != "" && !IsSpace(param[|param| - 1])
    requires ';' !in name && ';' !in param && env.lower(name) !in {"", "*"}
    requires entry == name + ";" + param + trail
    ensures ReadPart(env, entry) == Some(Entry(env.lower(name), Reweighted(env, param, 1.0)))
  {
    var core := name + ";" + param;
    TrimmedAlready(name);
    assert "" + core + trail == entry;
    TrimmedBetween("", core, trail);
    PiecesAt(name, ';', param);
    NoSeparator(param, ';');
    OneParameter(env, param);
    assert ([name] + [param])[1..] == [param];
  }

  lemma WeightedEntry(env: Env, entry: string, name: string, p: Padding, value: string)
    requires IsWeighted(env, entry, name, p, value)
    ensures ReadPart(env, entry) == Some(Entry(env.lower(name), WeightOf(env, value)))
    ensures ',' !in entry
  {
    var bare := p.(end := "");
    var param := WeightText(bare, value);
    SpacesAreNot(p, ',');
    SpacesAreNot(p, ';');
    assert p.after + value + p.end == p.after + value + "" + p.end;
    assert entry == name + ";" + param + p.end;
    SpacedPart(env, entry, name, param, p.end);
    WeightParameter(env, param, bare, value, 1.0);
  }

  lemma TwoParts(env: Env, first: string, second: string, locales: seq<string>, defaultLocale: string)
    requires UsablePart(env, first, locales) && UsablePart(env, second, locales)
    ensures var p, q := ReadPart(env, first).value, ReadPart(env, second).value;
            Some(Chosen(env, [first, second], locales, defaultLocale))
              == Match(if p.q >= q.q then p.lang else q.lang, locales)
  {
    var parts := [first, second];
    assert Usable(env, parts, locales, 0) && Usable(env, parts, locales, 1);
    var i := ChoiceIsArgmax(env, parts, locales, defaultLocale);
  }

  /** Of two supported languages with positive weights the one of greater weight is served, the first on a tie. */
  lemma WeightsDecide(env: Env, first: string, name1: string, p1: Padding, value1: string, second: string,
        name2: string, p2: Padding, value2: string, locales: seq<string>, defaultLocale: string)
    requires IsWeighted(env, first, name1, p1, value1) && IsWeighted(env, second, name2, p2, value2)
    requires env.lower(name1) in locales && env.lower(name2) in locales
    requires WeightOf(env, value1) > 0.0 && WeightOf(env, value2) > 0.0
    ensures Negotiated(env, Some(first + "," + second), locales, defaultLocale)
         == env.lower(if WeightOf(env, value1) >= WeightOf(env, value2) then name1 else name2)
  {
    WeightedEntry(env, first, name1, p1, value1);
    WeightedEntry(env, second, name2, p2, value2);
    PiecesAt(first, ',', second);
    NoSeparator(second, ',');
    assert [first] + [second] == [first, second];
    NegotiatesParts(env, first + "," + second, [first, second], locales, defaultLocale);
    TwoParts(env, first, second, locales, defaultLocale);
  }

  /** The wildcard and an entry without a language name no language, whatever their parameters. */
  lemma WildcardIgnored(env: Env, entry: string, name: string, rest: string, locales: seq<string>)
    requires name == "*" || name == ""
    requires env.lower(name) == name && (entry == name || entry == name + ";" + rest)
    ensures !UsablePart(env, entry, locales)
  {
    if entry != name {
      assert TrimStart(entry) == entry;
      var trail := TrimEndSplits(entry);
      var core := Trim(entry);
      assert core == TrimEnd(entry) && entry == core + trail;
      assert entry[|name|] == ';';
      assert |core| > |name|;
      assert core == name + [';'] + core[|name| + 1..];
      PiecesAt(name, ';', core[|name| + 1..]);
    }
    NoSeparator(name, ';');
  }
}
