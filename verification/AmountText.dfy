/**
 Amount strings: the form's input parser `amountToBase` and the printer
 `formatBase` (apps/web/lib/splitShares.ts). The partner of the parser is a
 grammar: `Denotes` says, without scanning anything, which texts mean which
 number of base units.
 */
module AmountText {
  import opened Wrappers
  import opened Decimals

  // ── String helpers the source takes from JavaScript ─────────

  /** The characters String.prototype.trim removes. */
  predicate IsSpace(c: char) {
    var u := c as int;
    || 9 <= u <= 13 || u == 32 || u == 0xA0 || u == 0x1680
    || 0x2000 <= u <= 0x200A || u == 0x2028 || u == 0x2029
    || u == 0x202F || u == 0x205F || u == 0x3000 || u == 0xFEFF
  }

  predicate AllSpace(s: string) {
    forall i | 0 <= i < |s| :: IsSpace(s[i])
  }

  function TrimStart(s: string): string {
    if s != "" && IsSpace(s[0]) then TrimStart(s[1..]) else s
  }

  function TrimEnd(s: string): string {
    if s != "" && IsSpace(s[|s| - 1]) then TrimEnd(s[..|s| - 1]) else s
  }

  function Trim(s: string): string {
    TrimEnd(TrimStart(s))
  }

  predicate IsSeparator(c: char) {
    c == '.' || c == ','
  }

  function CountSeparators(s: string): nat {
    if s == "" then 0 else (if IsSeparator(s[0]) then 1 else 0) + CountSeparators(s[1..])
  }

  /** Position of the first c, or |s| when there is none. */
  function IndexOf(s: string, c: char): (k: nat)
    ensures k <= |s|
    ensures k < |s| ==> s[k] == c
    ensures forall i | 0 <= i < k :: s[i] != c
  {
    if s == "" || s[0] == c then 0 else 1 + IndexOf(s[1..], c)
  }

  /** s.replace(',', '.') with a string pattern: the first comma only. */
  function CommaToDot(s: string): string {
    var k := IndexOf(s, ',');
    if k == |s| then s else s[k := '.']
  }

  /** /^(?:\d+(?:\.\d*)?|\.\d+)$/ */
  predicate IsPlainDecimal(s: string) {
    && AllDigits(WholePart(s)) && AllDigits(FractionPart(s))
    && |WholePart(s)| + |FractionPart(s)| >= 1
  }

  /** const [whole = '', frac = ''] = s.split('.'), for s with at most one dot */
  function WholePart(s: string): string {
    s[..IndexOf(s, '.')]
  }

  function FractionPart(s: string): string {
    var k := IndexOf(s, '.');
    if k == |s| then "" else s[k + 1..]
  }

  // ── The parser and the printer ──────────────────────────────

  function AmountToBase(input: string, decimals: nat): Option<nat> {
    var trimmed := Trim(input);
    if trimmed == "" then None
    else if CountSeparators(trimmed) > 1 then None
    else NormalizedToBase(CommaToDot(trimmed), decimals)
  }

  /** The rest of amountToBase, once the separator is a dot. */
  function NormalizedToBase(normalized: string, decimals: nat): Option<nat> {
    if !IsPlainDecimal(normalized) then None
    else
      var whole := WholePart(normalized);
      var frac := FractionPart(normalized);
      if |frac| > decimals then None
      else
        var padded := PadEnd(frac, decimals);
        assert AllDigits(padded);
        var base := Scale(DigitsValue(whole), decimals) + DigitsValue(padded);
        Positive(base)
  }

  function FractionText(low: nat, decimals: nat): string {
    StripTrailingZeros(PadStart(ToDecimal(low), decimals))
  }

  function FormatBase(value: nat, decimals: nat): string {
    var scale := Pow10(decimals);
    var whole := Quotient(value, scale);
    var frac := FractionText(Remainder(value, scale), decimals);
    if frac != "" then ToDecimal(whole) + "." + frac else ToDecimal(whole)
  }

  // ── The grammar ─────────────────────────────────────────────

  /** whole.frac scaled to base units. */
  function BaseUnits(whole: string, frac: string, decimals: nat): nat
    requires AllDigits(whole) && AllDigits(frac) && |frac| <= decimals
  {
    Scale(DigitsValue(whole), decimals) + Scale(DigitsValue(frac), decimals - |frac|)
  }

  function Positive(base: nat): Option<nat> {
    if base > 0 then Some(base) else None
  }

  /** The pieces an accepted amount text falls into. */
  datatype Reading = Reading(lead: string, whole: string, sep: string, frac: string, trail: string)
  {
    function Core(): string {
      whole + sep + frac
    }

    function Text(): string {
      lead + Core() + trail
    }

    predicate WellFormed(decimals: nat) {
      && AllSpace(lead) && AllSpace(trail)
      && AllDigits(whole) && AllDigits(frac)
      && (sep == "." || sep == "," || (sep == "" && frac == ""))
      && |whole| + |frac| >= 1
      && |frac| <= decimals
    }

    function Units(decimals: nat): nat
      requires WellFormed(decimals)
    {
      BaseUnits(whole, frac, decimals)
    }
  }

  ghost predicate Denotes(input: string, decimals: nat, value: nat) {
    exists r: Reading :: r.WellFormed(decimals) && r.Text() == input && r.Units(decimals) == value
  }

  // ── Lemmas about the helpers ────────────────────────────────

  lemma {:induction false} TrimStartSplits(s: string) returns (lead: string)
    ensures AllSpace(lead) && s == lead + TrimStart(s)
    ensures TrimStart(s) != "" ==> !IsSpace(TrimStart(s)[0])
  {
    if s != "" && IsSpace(s[0]) {
      var rest := TrimStartSplits(s[1..]);
      lead := [s[0]] + rest;
    } else {
      lead := "";
    }
  }

  lemma {:induction false} TrimEndSplits(s: string) returns (trail: string)
    ensures AllSpace(trail) && s == TrimEnd(s) + trail
  {
    if s != "" && IsSpace(s[|s| - 1]) {
      var rest := TrimEndSplits(s[..|s| - 1]);
      trail := rest + [s[|s| - 1]];
    } else {
      trail := "";
    }
  }

  lemma {:induction false} TrimStartOf(lead: string, t: string)
    requires AllSpace(lead) && t != "" && !IsSpace(t[0])
    ensures TrimStart(lead + t) == t
  {
    if lead == "" {
      assert lead + t == t;
    } else {
      assert (lead + t)[1..] == lead[1..] + t;
      TrimStartOf(lead[1..], t);
    }
  }

  lemma {:induction false} TrimEndOf(t: string, trail: string)
    requires AllSpace(trail) && t != "" && !IsSpace(t[|t| - 1])
    ensures TrimEnd(t + trail) == t
  {
    if trail == "" {
      assert t + trail == t;
    } else {
      var m := |trail| - 1;
      assert (t + trail)[..|t + trail| - 1] == t + trail[..m];
      TrimEndOf(t, trail[..m]);
    }
  }

  lemma {:induction false} NoSeparators(s: string)
    requires AllDigits(s)
    ensures CountSeparators(s) == 0
  {
    if s != "" {
      NoSeparators(s[1..]);
    }
  }

  lemma {:induction false} CountOfConcat(a: string, b: string)
    ensures CountSeparators(a + b) == CountSeparators(a) + CountSeparators(b)
  {
    if a == "" {
      assert a + b == b;
    } else {
      assert (a + b)[1..] == a[1..] + b;
      CountOfConcat(a[1..], b);
    }
  }

  lemma {:induction false} IndexAfter(a: string, c: char, b: string)
    requires c !in a
    ensures IndexOf(a + [c] + b, c) == |a|
    ensures IndexOf(a, c) == |a|
  {
    if a == "" {
      assert (a + [c] + b)[0] == c;
    } else {
      assert (a + [c] + b)[1..] == a[1..] + [c] + b;
      IndexAfter(a[1..], c, b);
    }
  }

  // ── Parser = grammar ────────────────────────────────────────

  lemma CoreParses(r: Reading, decimals: nat)
    requires r.WellFormed(decimals)
    ensures Trim(r.Text()) == r.Core() != ""
    ensures CountSeparators(r.Core()) <= 1
    ensures CommaToDot(r.Core()) == (if r.sep != "" then r.whole + "." + r.frac else r.whole)
  {
    var core := r.Core();
    assert core != "";
    assert forall i | 0 <= i < |core| :: IsDigit(core[i]) || IsSeparator(core[i]);
    assert !IsSpace(core[0]) && !IsSpace(core[|core| - 1]);
    assert r.Text() == r.lead + (core + r.trail);
    TrimStartOf(r.lead, core + r.trail);
    TrimEndOf(core, r.trail);
    NoSeparators(r.whole);
    NoSeparators(r.frac);
    CountOfConcat(r.whole, r.sep);
    CountOfConcat(r.whole + r.sep, r.frac);
    assert CountSeparators(r.sep) <= 1;
    if r.sep == "," {
      CommaBecomesDot(r.whole, r.frac);
    } else {
      assert ',' !in core;
      IndexAfter(core, ',', "");
      if r.sep == "" {
        assert core == r.whole;
      }
    }
  }

  lemma NormalizedParses(whole: string, dotted: bool, frac: string, decimals: nat)
    requires AllDigits(whole) && AllDigits(frac) && |whole| + |frac| >= 1 && |frac| <= decimals
    requires !dotted ==> frac == ""
    ensures NormalizedToBase(if dotted then whole + "." + frac else whole, decimals)
         == Positive(BaseUnits(whole, frac, decimals))
  {
    if dotted {
      PartsAt(whole, frac);
      PartsParse(whole + "." + frac, whole, frac, decimals);
    } else {
      IndexAfter(whole, '.', "");
      assert whole[..|whole|] == whole;
      PartsParse(whole, whole, frac, decimals);
    }
  }

  lemma PartsParse(normalized: string, whole: string, frac: string, decimals: nat)
    requires WholePart(normalized) == whole && FractionPart(normalized) == frac
    requires AllDigits(whole) && AllDigits(frac) && |whole| + |frac| >= 1 && |frac| <= decimals
    ensures NormalizedToBase(normalized, decimals) == Positive(BaseUnits(whole, frac, decimals))
  {
    PadEndValue(frac, decimals);
  }

  /** Every text of the grammar parses, to its grammatical value. */
  lemma ParseComplete(r: Reading, decimals: nat)
    requires r.WellFormed(decimals)
    ensures AmountToBase(r.Text(), decimals) == Positive(r.Units(decimals))
  {
    var normalized := if r.sep != "" then r.whole + "." + r.frac else r.whole;
    assert AmountToBase(r.Text(), decimals) == NormalizedToBase(normalized, decimals) by {
      CoreParses(r, decimals);
      Dispatch(r.Text(), r.Core(), normalized, decimals);
    }
    NormalizedParses(r.whole, r.sep != "", r.frac, decimals);
  }

  lemma Dispatch(input: string, trimmed: string, normalized: string, decimals: nat)
    requires Trim(input) == trimmed != "" && CountSeparators(trimmed) <= 1
    requires CommaToDot(trimmed) == normalized
    ensures AmountToBase(input, decimals) == NormalizedToBase(normalized, decimals)
  {
  }

  lemma {:induction false} CountAtLeast(s: string, i: nat, j: nat)
    requires i < j < |s| && IsSeparator(s[i]) && IsSeparator(s[j])
    ensures CountSeparators(s) >= 2
  {
    var mid := s[..j];
    assert s == mid + s[j..];
    CountOfConcat(mid, s[j..]);
    assert mid == mid[..i] + mid[i..];
    CountOfConcat(mid[..i], mid[i..]);
  }

  lemma PartsAt(a: string, b: string)
    requires '.' !in a
    ensures WholePart(a + "." + b) == a && FractionPart(a + "." + b) == b
  {
    IndexAfter(a, '.', b);
  }

  lemma CommaBecomesDot(a: string, b: string)
    requires ',' !in a
    ensures CommaToDot(a + "," + b) == a + "." + b
  {
    IndexAfter(a, ',', b);
    assert (a + "," + b)[|a| := '.'] == a + "." + b;
  }

  lemma NoDotBeforeComma(a: string, b: string)
    requires CountSeparators(a + "," + b) <= 1
    ensures '.' !in a
  {
    forall i | 0 <= i < |a| ensures a[i] != '.' {
      if a[i] == '.' {
        CountAtLeast(a + "," + b, i, |a|);
      }
    }
  }

  lemma TrimSplits(s: string) returns (lead: string, trail: string)
    ensures AllSpace(lead) && AllSpace(trail) && s == lead + Trim(s) + trail
  {
    lead := TrimStartSplits(s);
    trail := TrimEndSplits(TrimStart(s));
  }

  /** The pieces of a trimmed text, at its only separator. */
  lemma CoreReads(t: string) returns (whole: string, sep: string, frac: string)
    requires CountSeparators(t) <= 1 && IsPlainDecimal(CommaToDot(t))
    ensures t == whole + sep + frac && AllDigits(whole) && AllDigits(frac) && |whole| + |frac| >= 1
    ensures sep == "." || sep == "," || (sep == "" && frac == "")
    ensures frac == FractionPart(CommaToDot(t))
  {
    var c := IndexOf(t, ',');
    if c < |t| {
      whole, sep, frac := t[..c], ",", t[c + 1..];
      assert t == whole + "," + frac;
      CommaBecomesDot(whole, frac);
      NoDotBeforeComma(whole, frac);
      PartsAt(whole, frac);
    } else {
      whole, frac := WholePart(t), FractionPart(t);
      sep := if IndexOf(t, '.') < |t| then "." else "";
    }
  }

  /** The reading behind an accepted text. */
  lemma ParseSound(input: string, decimals: nat) returns (r: Reading)
    requires AmountToBase(input, decimals).Some?
    ensures r.WellFormed(decimals) && r.Text() == input
    ensures AmountToBase(input, decimals) == Some(r.Units(decimals))
  {
    var lead, trail := TrimSplits(input);
    var t := Trim(input);
    var whole, sep, frac := CoreReads(t);
    r := Reading(lead, whole, sep, frac, trail);
    ParseComplete(r, decimals);
  }

  /** amountToBase accepts exactly the grammar's texts of positive value, with that value. */
  lemma ParserMeetsGrammar(input: string, decimals: nat, value: nat)
    ensures AmountToBase(input, decimals) == Some(value) <==> value > 0 && Denotes(input, decimals, value)
  {
    if AmountToBase(input, decimals) == Some(value) {
      var r := ParseSound(input, decimals);
    }
    if value > 0 && Denotes(input, decimals, value) {
      var r: Reading :| r.WellFormed(decimals) && r.Text() == input && r.Units(decimals) == value;
      ParseComplete(r, decimals);
    }
  }

  // ── Printer and parser are inverse ──────────────────────────

  /** The reading of a printed amount: no spaces, a dot only before a fraction. */
  function PlainReading(whole: string, frac: string): Reading {
    Reading("", whole, if frac == "" then "" else ".", frac, "")
  }

  function PrintedParts(value: nat, decimals: nat): Reading {
    PlainReading(ToDecimal(Quotient(value, Pow10(decimals))), FractionText(Remainder(value, Pow10(decimals)), decimals))
  }

  lemma FractionDigits(low: nat, decimals: nat)
    requires low < Pow10(decimals)
    ensures var s := FractionText(low, decimals);
            && AllDigits(s) && |s| <= decimals && (s == "" || s[|s| - 1] != '0')
            && Scale(DigitsValue(s), decimals - |s|) == low
  {
    if decimals == 0 {
      assert "0"[..0] == "";
      assert StripTrailingZeros("0") == "";
    } else {
      var p := PadStart(ToDecimal(low), decimals);
      assert AllDigits(p) && |p| == decimals && DigitsValue(p) == low by {
        ReadPrinted(low);
        PadStartValue(ToDecimal(low), decimals);
        PrintedLength(low, decimals);
      }
      StripValue(p);
      StripSplits(p);
    }
  }

  lemma PlainUnits(whole: string, frac: string, decimals: nat)
    requires AllDigits(whole) && whole != "" && (|whole| == 1 || whole[0] != '0')
    requires AllDigits(frac) && |frac| <= decimals && (frac == "" || frac[|frac| - 1] != '0')
    ensures var r := PlainReading(whole, frac);
            && IsCanonicalReading(r, decimals)
            && r.Text() == (if frac == "" then whole else whole + "." + frac)
            && r.Units(decimals) == Scale(DigitsValue(whole), decimals) + Scale(DigitsValue(frac), decimals - |frac|)
  {
  }

  lemma PrintedIsReading(value: nat, decimals: nat)
    ensures var r := PrintedParts(value, decimals);
            && IsCanonicalReading(r, decimals) && r.Text() == FormatBase(value, decimals)
            && r.Units(decimals) == value
  {
    var scale := Pow10(decimals);
    var whole, low := Quotient(value, scale), Remainder(value, scale);
    ReadPrinted(whole);
    FractionDigits(low, decimals);
    PlainUnits(ToDecimal(whole), FractionText(low, decimals), decimals);
    ScaleSplit(value, decimals);
  }

  /** amountToBase(formatBase(v, d), d) == v for every positive v. */
  lemma PrintThenParse(value: nat, decimals: nat)
    requires value > 0
    ensures AmountToBase(FormatBase(value, decimals), decimals) == Some(value)
  {
    PrintedIsReading(value, decimals);
    ParseComplete(PrintedParts(value, decimals), decimals);
  }

  /** No surrounding space, a dot only before a fraction, no superfluous zero at either end. */
  ghost predicate Canonical(text: string, decimals: nat) {
    exists r: Reading :: IsCanonicalReading(r, decimals) && r.Text() == text
  }

  predicate IsCanonicalReading(r: Reading, decimals: nat) {
    && r.WellFormed(decimals)
    && r.lead == "" && r.trail == ""
    && r.sep == (if r.frac == "" then "" else ".")
    && r.whole != "" && (|r.whole| == 1 || r.whole[0] != '0')
    && (r.frac == "" || r.frac[|r.frac| - 1] != '0')
  }

  lemma PrintedIsCanonical(value: nat, decimals: nat)
    ensures Canonical(FormatBase(value, decimals), decimals)
  {
    PrintedIsReading(value, decimals);
  }

  lemma NotShorter(a: string, b: string, n: nat)
    requires |a| <= n && |b| <= n && a + Zeros(n - |a|) == b + Zeros(n - |b|)
    requires b == "" || b[|b| - 1] != '0'
    ensures |a| >= |b|
  {
    assert b != "" ==> (b + Zeros(n - |b|))[|b| - 1] != '0';
  }

  /** Padding a canonical fraction back to `decimals` digits determines it. */
  lemma FractionUnique(a: string, b: string, decimals: nat)
    requires AllDigits(a) && AllDigits(b) && |a| <= decimals && |b| <= decimals
    requires a == "" || a[|a| - 1] != '0'
    requires b == "" || b[|b| - 1] != '0'
    requires Scale(DigitsValue(a), decimals - |a|) == Scale(DigitsValue(b), decimals - |b|)
    ensures a == b
  {
    var pa, pb := a + Zeros(decimals - |a|), b + Zeros(decimals - |b|);
    PadEndValue(a, decimals);
    PadEndValue(b, decimals);
    assert pa == PadEnd(a, decimals) && pb == PadEnd(b, decimals);
    SameLengthSameValue(pa, pb);
    NotShorter(a, b, decimals);
    NotShorter(b, a, decimals);
    assert pa[..|a|] == a && pb[..|b|] == b;
  }

  /** formatBase(amountToBase(s)) == s for canonical s: the printer is the only canonical text. */
  lemma ParseThenPrint(text: string, decimals: nat)
    requires Canonical(text, decimals)
    requires AmountToBase(text, decimals).Some?
    ensures FormatBase(AmountToBase(text, decimals).value, decimals) == text
  {
    var r: Reading :| IsCanonicalReading(r, decimals) && r.Text() == text;
    ParseComplete(r, decimals);
    var v := r.Units(decimals);
    var p := PrintedParts(v, decimals);
    PrintedIsReading(v, decimals);
    CanonicalUnique(r, p, decimals);
  }

  lemma CanonicalUnique(r: Reading, p: Reading, decimals: nat)
    requires IsCanonicalReading(r, decimals) && IsCanonicalReading(p, decimals)
    requires r.Units(decimals) == p.Units(decimals)
    ensures r == p
  {
    FractionInRange(r, decimals);
    FractionInRange(p, decimals);
    ScaleUnique(DigitsValue(r.whole), Scale(DigitsValue(r.frac), decimals - |r.frac|),
                DigitsValue(p.whole), Scale(DigitsValue(p.frac), decimals - |p.frac|), decimals);
    FractionUnique(r.frac, p.frac, decimals);
    PrintRead(r.whole);
    PrintRead(p.whole);
  }

  lemma FractionInRange(r: Reading, decimals: nat)
    requires r.WellFormed(decimals)
    ensures Scale(DigitsValue(r.frac), decimals - |r.frac|) < Pow10(decimals)
  {
    ValueBound(r.frac);
    ScaleOrder(DigitsValue(r.frac), Pow10(|r.frac|), decimals - |r.frac|);
    ScalePow(|r.frac|, decimals - |r.frac|);
  }

  /** formatBase(amountToBase(s)) of an accepted text. */
  function Reprinted(text: string, decimals: nat): string
    requires AmountToBase(text, decimals).Some?
  {
    FormatBase(AmountToBase(text, decimals).value, decimals)
  }

  /**
   Whatever accepted spelling a merchant typed (comma or dot, ".5", "5.", extra
   zeros, spaces), reprinting it gives a canonical text of the same amount, and
   two accepted texts reprint alike exactly when they mean the same amount.
   */
  lemma Canonicalisation(a: string, b: string, decimals: nat)
    ensures AmountToBase(a, decimals).Some? ==>
              && Canonical(Reprinted(a, decimals), decimals)
              && AmountToBase(Reprinted(a, decimals), decimals) == AmountToBase(a, decimals)
    ensures AmountToBase(a, decimals).Some? && AmountToBase(b, decimals).Some? ==>
              (Reprinted(a, decimals) == Reprinted(b, decimals) <==>
                AmountToBase(a, decimals) == AmountToBase(b, decimals))
  {
    if AmountToBase(a, decimals).Some? {
      PrintedIsCanonical(AmountToBase(a, decimals).value, decimals);
      PrintThenParse(AmountToBase(a, decimals).value, decimals);
    }
    if AmountToBase(b, decimals).Some? {
      PrintThenParse(AmountToBase(b, decimals).value, decimals);
    }
  }

}
