/** The text helpers of the reporting pipeline: header normalisation,
    search normalisation, slugs and the month read from a file name. */
module Format {
  import opened Base
  import opened Chars
  import opened Text

  // ---------------------------------------------------------------------
  // Header normalisation
  // ---------------------------------------------------------------------

  predicate IsNewline(c: char) { c == '\n' }

  /** A character a normalised header can contain: lower-case, without
      diacritic and not whitespace. */
  predicate IsHeaderChar(c: char) {
    IsLowerFixed(c) && IsPlain(c) && !IsWhitespace(c)
  }

  /** Lower-casing, diacritic stripping and deletion of whitespace runs. */
  function Squeeze(s: string): string {
    Remove(StripDiacritics(LowerStr(s)), IsWhitespace)
  }

  /** Lower-cases the header, strips diacritics and deletes all whitespace
      (the explicit newline deletion and the final trim then have nothing
      left to do). */
  function NormalizeHeader(header: string): (r: string)
    ensures All(r, IsHeaderChar)
  {
    var s := StripDiacritics(LowerStr(header));
    var w := Remove(s, IsWhitespace);
    var n := Remove(w, IsNewline);
    RemoveChars(s, IsWhitespace);
    RemoveChars(w, IsNewline);
    assert forall c :: c in n ==> c in w && c in s;
    assert All(s, IsLowerFixed);
    Trim(n)
  }

  /** The last two steps of `NormalizeHeader` never change anything. */
  lemma NormalizeHeaderSteps(header: string)
    ensures NormalizeHeader(header) == Squeeze(header)
  {
    var w := Squeeze(header);
    RemoveChars(StripDiacritics(LowerStr(header)), IsWhitespace);
    RemoveAbsent(w, IsNewline);
    TrimNoWhitespace(w);
  }

  /** Normalising an already normalised header changes nothing. */
  lemma NormalizeHeaderIdempotent(header: string)
    ensures NormalizeHeader(NormalizeHeader(header)) == NormalizeHeader(header)
  {
    var n := NormalizeHeader(header);
    NormalFixed(n);
    NormalizeHeaderSteps(n);
    RemoveAbsent(n, IsWhitespace);
  }

  lemma SqueezeAppend(a: string, b: string)
    ensures Squeeze(a + b) == Squeeze(a) + Squeeze(b)
  {
    LowerStrAppend(a, b);
    StripDiacriticsAppend(LowerStr(a), LowerStr(b));
    RemoveAppend(StripDiacritics(LowerStr(a)), StripDiacritics(LowerStr(b)), IsWhitespace);
  }

  lemma SqueezeWhitespace(w: string)
    requires All(w, IsWhitespace)
    ensures Squeeze(w) == []
  {
    var lw := LowerStr(w);
    forall c | c in lw ensures IsWhitespace(c) {
      var i :| 0 <= i < |lw| && lw[i] == c;
      assert w[i] in w;
      LowerFacts(w[i]);
    }
    RemoveAll(StripDiacritics(lw), IsWhitespace);
  }

  /** Whitespace inserted anywhere in a header, newlines included, does not
      change its normal form. */
  lemma NormalizeHeaderIgnoresWhitespace(a: string, w: string, b: string)
    requires All(w, IsWhitespace)
    ensures NormalizeHeader(a + w + b) == NormalizeHeader(a + b)
  {
    NormalizeHeaderSteps(a + w + b);
    NormalizeHeaderSteps(a + b);
    SqueezeAppend(a + w, b);
    SqueezeAppend(a, w);
    SqueezeAppend(a, b);
    SqueezeWhitespace(w);
  }

  /** A text made only of characters a normalised header can contain is
      its own normal form. */
  lemma NormalizeHeaderOfNormal(s: string)
    requires All(s, IsHeaderChar)
    ensures NormalizeHeader(s) == s
  {
    NormalFixed(s);
    NormalizeHeaderSteps(s);
    RemoveAbsent(s, IsWhitespace);
  }

  /** Upper and lower case give the same normal form. */
  lemma NormalizeHeaderIgnoresCase(header: string)
    ensures NormalizeHeader(LowerStr(header)) == NormalizeHeader(header)
  {
    LowerFixed(LowerStr(header));
  }

  /** A column pattern holding a character that normalised headers never
      contain (a space, an accented letter, an upper-case letter) matches no
      header at all. */
  lemma DeadPattern(header: string, pattern: string, c: char)
    requires c in pattern && !IsHeaderChar(c)
    ensures !Contains(NormalizeHeader(header), pattern)
  {
    if Contains(NormalizeHeader(header), pattern) {
      ContainsChars(NormalizeHeader(header), pattern);
      assert false;
    }
  }

  // ---------------------------------------------------------------------
  // Search normalisation
  // ---------------------------------------------------------------------

  /** Lower-cases, strips diacritics and trims the ends; whitespace inside
      the text is kept. */
  function NormalizeForSearch(text: string): (r: string)
    ensures forall c :: c in r ==> IsLowerFixed(c) && IsPlain(c)
    ensures r != [] ==> !IsWhitespace(r[0]) && !IsWhitespace(r[|r| - 1])
    ensures exists i :: SliceBetweenWhitespace(StripDiacritics(LowerStr(text)), r, i)
  {
    var lowered := LowerStr(text);
    assert All(lowered, IsLowerFixed);
    var s := StripDiacritics(lowered);
    TrimChars(s);
    Trim(s)
  }

  /** Interior whitespace survives search normalisation: plain lower-case
      text keeps every character between its first and last non-blank one. */
  lemma NormalizeForSearchKeepsInterior(p: string, m: string, q: string)
    requires All(p, IsWhitespace) && All(q, IsWhitespace)
    requires m != [] && !IsWhitespace(m[0]) && !IsWhitespace(m[|m| - 1])
    requires All(p + m + q, IsLowerFixed) && All(p + m + q, IsPlain)
    ensures NormalizeForSearch(p + m + q) == m
  {
    NormalFixed(p + m + q);
    TrimExact(p, m, q);
  }

  // ---------------------------------------------------------------------
  // Slugs
  // ---------------------------------------------------------------------

  predicate IsSlugChar(c: char) { IsAsciiLower(c) || IsDigit(c) || c == '-' }

  /** The characters `[^a-z0-9\s-]` do not delete. */
  predicate IsSlugSource(c: char) { IsAsciiLower(c) || IsDigit(c) || IsWhitespace(c) || c == '-' }

  predicate NotSlugSource(c: char) { !IsSlugSource(c) }

  /** No two neighbouring characters are both `-`. */
  predicate NoDoubleHyphen(s: string) {
    forall i :: 0 <= i < |s| - 1 ==> !(s[i] == '-' && s[i + 1] == '-')
  }

  /** The number of `-` characters `s` starts with. */
  function LeadingHyphens(s: string): (n: nat)
    ensures n <= |s|
    ensures n < |s| ==> s[n] != '-'
  {
    if s != [] && s[0] == '-' then LeadingHyphens(s[1..]) + 1 else 0
  }

  /** `s.replace(/\s+/g, '-')`: every run of whitespace becomes one `-`. */
  function WhitespaceRunsToHyphen(s: string): (r: string)
    ensures forall c :: c in r ==> c == '-' || (c in s && !IsWhitespace(c))
    decreases |s|
  {
    if s == [] then []
    else if IsWhitespace(s[0]) then
      var n := LeadingWhitespace(s);
      var r := "-" + WhitespaceRunsToHyphen(s[n..]);
      assert forall c :: c in s[n..] ==> c in s;
      r
    else
      var r := [s[0]] + WhitespaceRunsToHyphen(s[1..]);
      assert forall c :: c in s[1..] ==> c in s;
      r
  }

  /** `s.replace(/-+/g, '-')`: every run of hyphens becomes one. */
  function CollapseHyphens(s: string): (r: string)
    ensures NoDoubleHyphen(r)
    ensures forall c :: c in r ==> c in s
    ensures r != [] <==> s != []
    ensures r != [] ==> (r[0] == '-' <==> s[0] == '-')
    ensures r != [] ==> (r[|r| - 1] == '-' <==> s[|s| - 1] == '-')
    decreases |s|
  {
    if s == [] then []
    else if s[0] == '-' then
      var n := LeadingHyphens(s);
      var rest := CollapseHyphens(s[n..]);
      assert forall c :: c in s[n..] ==> c in s;
      assert s[n..] != [] ==> s[n..][0] != '-';
      assert s[n..] != [] ==> s[n..][|s[n..]| - 1] == s[|s| - 1];
      assert s[n..] == [] ==> s[|s| - 1] == '-' by {
        if s[n..] == [] { LeadingHyphensAll(s, |s| - 1); }
      }
      HyphenFreeCons('-', rest);
      "-" + rest
    else
      var rest := CollapseHyphens(s[1..]);
      assert forall c :: c in s[1..] ==> c in s;
      assert rest != [] ==> (rest[0] == '-' <==> s[1] == '-');
      HyphenFreeCons(s[0], rest);
      [s[0]] + rest
  }

  /** One character before a string without `--` keeps it free of `--`
      unless both are hyphens. */
  lemma HyphenFreeCons(c: char, rest: string)
    requires NoDoubleHyphen(rest)
    requires c == '-' && rest != [] ==> rest[0] != '-'
    ensures NoDoubleHyphen([c] + rest)
    ensures ([c] + rest)[0] == c
    ensures ([c] + rest)[|rest|] == if rest == [] then c else rest[|rest| - 1]
    ensures forall x :: x in [c] + rest ==> x == c || x in rest
  {
    var r := [c] + rest;
    assert forall i :: 1 <= i < |r| ==> r[i] == rest[i - 1];
  }

  lemma {:induction false} LeadingHyphensAll(s: string, k: int)
    requires 0 <= k < LeadingHyphens(s)
    ensures s[k] == '-'
    decreases |s|
  {
    if k > 0 {
      LeadingHyphensAll(s[1..], k - 1);
    }
  }

  /** `s.replace(/^-|-$/g, '')`: one leading and one trailing `-` go. */
  function TrimHyphens(s: string): string {
    var t := if s != [] && s[0] == '-' then s[1..] else s;
    if t != [] && t[|t| - 1] == '-' then t[..|t| - 1] else t
  }

  /** Slug of a customer name: lower-cased, without diacritics, with
      every character outside `a-z`, `0-9`, whitespace and `-` deleted,
      whitespace runs made into one `-`, hyphen runs collapsed and the
      hyphens at the ends removed. */
  function Slugify(name: string): (r: string)
    ensures All(r, IsSlugChar)
    ensures NoDoubleHyphen(r)
    ensures r != [] ==> r[0] != '-' && r[|r| - 1] != '-'
  {
    var kept := Remove(StripDiacritics(LowerStr(name)), NotSlugSource);
    RemoveChars(StripDiacritics(LowerStr(name)), NotSlugSource);
    var dashed := WhitespaceRunsToHyphen(kept);
    assert All(dashed, IsSlugChar);
    var collapsed := CollapseHyphens(dashed);
    var r := TrimHyphens(collapsed);
    SlugEnds(collapsed);
    r
  }

  lemma SlugEnds(c: string)
    requires NoDoubleHyphen(c)
    ensures NoDoubleHyphen(TrimHyphens(c))
    ensures forall x :: x in TrimHyphens(c) ==> x in c
    ensures TrimHyphens(c) != [] ==> TrimHyphens(c)[0] != '-' && TrimHyphens(c)[|TrimHyphens(c)| - 1] != '-'
  {
    var t := if c != [] && c[0] == '-' then c[1..] else c;
    LeadHyphenDropped(c);
    TrailHyphenDropped(t);
  }

  /** Dropping one leading `-` from a text without double hyphens leaves a
      text without double hyphens that does not start with `-`. */
  lemma LeadHyphenDropped(c: string)
    requires NoDoubleHyphen(c)
    ensures var t := if c != [] && c[0] == '-' then c[1..] else c;
      && NoDoubleHyphen(t) && (t != [] ==> t[0] != '-')
      && (forall x :: x in t ==> x in c)
  {
    var t := if c != [] && c[0] == '-' then c[1..] else c;
    assert forall i :: 0 <= i < |t| ==> t[i] == c[i + |c| - |t|];
    if t != [] && c != [] && c[0] == '-' {
      assert c[1] != '-';
    }
  }

  /** Dropping one trailing `-` from such a text keeps it free of double
      hyphens and leaves `-` at neither end. */
  lemma TrailHyphenDropped(t: string)
    requires NoDoubleHyphen(t) && (t != [] ==> t[0] != '-')
    ensures var r := if t != [] && t[|t| - 1] == '-' then t[..|t| - 1] else t;
      && NoDoubleHyphen(r) && (r != [] ==> r[0] != '-' && r[|r| - 1] != '-')
      && (forall x :: x in r ==> x in t)
  {
    var r := if t != [] && t[|t| - 1] == '-' then t[..|t| - 1] else t;
    assert forall i :: 0 <= i < |r| ==> r[i] == t[i];
    if r != [] && t[|t| - 1] == '-' {
      assert t[|t| - 2] != '-';
    }
  }

  lemma {:induction false} WhitespaceRunsToHyphenNoWhitespace(s: string)
    requires forall c :: c in s ==> !IsWhitespace(c)
    ensures WhitespaceRunsToHyphen(s) == s
    decreases |s|
  {
    if s != [] {
      assert s[0] in s;
      assert forall c :: c in s[1..] ==> c in s;
      WhitespaceRunsToHyphenNoWhitespace(s[1..]);
      assert s == [s[0]] + s[1..];
    }
  }

  lemma {:induction false} CollapseHyphensSingle(s: string)
    requires NoDoubleHyphen(s)
    ensures CollapseHyphens(s) == s
    decreases |s|
  {
    if s != [] {
      assert NoDoubleHyphen(s[1..]) by {
        forall i | 0 <= i < |s[1..]| - 1 ensures !(s[1..][i] == '-' && s[1..][i + 1] == '-') {
          assert s[1..][i] == s[i + 1] && s[1..][i + 1] == s[i + 2];
        }
      }
      CollapseHyphensSingle(s[1..]);
      if s[0] == '-' {
        assert LeadingHyphens(s) == 1 by {
          if |s| > 1 { assert s[1] != '-'; }
        }
      }
      assert s == [s[0]] + s[1..];
    }
  }

  /** A slug is its own slug. */
  lemma SlugifyIdempotent(name: string)
    ensures Slugify(Slugify(name)) == Slugify(name)
  {
    var r := Slugify(name);
    SlugSourceFixed(r);
    WhitespaceRunsToHyphenNoWhitespace(r);
    CollapseHyphensSingle(r);
    assert TrimHyphens(r) == r;
  }

  /** Lower-casing, accent stripping and the deletion of non-slug
      characters leave a string of slug characters as it is. */
  lemma SlugSourceFixed(r: string)
    requires All(r, IsSlugChar)
    ensures Remove(StripDiacritics(LowerStr(r)), NotSlugSource) == r
    ensures forall c :: c in r ==> !IsWhitespace(c)
  {
    assert All(r, IsLowerFixed) && All(r, IsPlain) by {
      forall c | c in r ensures IsLowerFixed(c) && IsPlain(c) {
        assert IsSlugChar(c);
      }
    }
    NormalFixed(r);
    RemoveAbsent(r, NotSlugSource);
    assert forall c :: c in r ==> IsSlugChar(c);
  }

  // ---------------------------------------------------------------------
  // Period from a file name
  // ---------------------------------------------------------------------

  /** One of the separators `[._-]`. */
  predicate IsSeparator(c: char) { c == '.' || c == '_' || c == '-' }

  /** A `YYYY-MM` month identifier with a month from 01 to 12. */
  predicate IsMonthId(s: string) {
    && |s| == 7 && AllDigits(s[..4]) && s[4] == '-' && AllDigits(s[5..])
    && ValidMonth(s[5..])
  }

  /** Two digits whose value is between 1 and 12 (`parseInt` then the range
      test). */
  predicate ValidMonth(m: string) {
    |m| == 2 && AllDigits(m) && 1 <= (m[0] as int - '0' as int) * 10 + (m[1] as int - '0' as int) <= 12
  }

  /** `name.replace(/\.(xls|xlsx|csv)$/, '')`. */
  function StripExtension(name: string): string {
    if EndsWith(name, ".xls") || EndsWith(name, ".csv") then name[..|name| - 4]
    else if EndsWith(name, ".xlsx") then name[..|name| - 5]
    else name
  }

  /** The fallback patterns, in the order they are tried. */
  datatype PeriodPattern =
    | DvurPattern          // ^dvur[._-]?(\d{2})[._-]?(\d{2})$
    | PairPattern(yearDigits: nat)  // (\d{k})[._-]?(\d{2}), first match only

  const FallbackPatterns: seq<PeriodPattern> := [DvurPattern, PairPattern(2), PairPattern(4)]

  /** The two captured groups of a match. */
  datatype Groups = Groups(first: string, second: string)

  /** `^dvur[._-]?(\d{2})[._-]?(\d{2})$`. */
  function MatchDvur(name: string): (g: Option<Groups>)
    ensures g.Some? ==> |g.value.first| == 2 && AllDigits(g.value.first)
    ensures g.Some? ==> |g.value.second| == 2 && AllDigits(g.value.second)
  {
    if !StartsWith(name, "dvur") then None
    else
      var t := name[4..];
      var u := if t != [] && IsSeparator(t[0]) then t[1..] else t;
      if |u| == 4 && AllDigits(u) then Some(Groups(u[..2], u[2..]))
      else if |u| == 5 && AllDigits(u[..2]) && IsSeparator(u[2]) && AllDigits(u[3..]) then
        Some(Groups(u[..2], u[3..]))
      else None
  }

  /** The match of `(\d{k})[._-]?(\d{2})` starting exactly at index `i`; the
      separator is optional but taken when it is there. */
  function PairAt(name: string, k: nat, i: nat): (g: Option<Groups>)
    requires i <= |name|
    ensures g.Some? ==> |g.value.first| == k && AllDigits(g.value.first)
    ensures g.Some? ==> |g.value.second| == 2 && AllDigits(g.value.second)
  {
    if i + k + 2 > |name| || !AllDigits(name[i..i + k]) then None
    else if i + k + 3 <= |name| && IsSeparator(name[i + k]) && AllDigits(name[i + k + 1..i + k + 3]) then
      Some(Groups(name[i..i + k], name[i + k + 1..i + k + 3]))
    else if AllDigits(name[i + k..i + k + 2]) then
      Some(Groups(name[i..i + k], name[i + k..i + k + 2]))
    else None
  }

  /** The leftmost match of `(\d{k})[._-]?(\d{2})` at index `i` or later. */
  function FirstPair(name: string, k: nat, i: nat): (g: Option<Groups>)
    requires i <= |name|
    ensures g.Some? ==> |g.value.first| == k && AllDigits(g.value.first)
    ensures g.Some? ==> |g.value.second| == 2 && AllDigits(g.value.second)
    ensures g.Some? ==> exists j :: i <= j <= |name| && PairAt(name, k, j) == g
    ensures g.None? ==> forall j :: i <= j <= |name| ==> PairAt(name, k, j).None?
    decreases |name| - i
  {
    if PairAt(name, k, i).Some? then PairAt(name, k, i)
    else if i == |name| then None
    else FirstPair(name, k, i + 1)
  }

  function MatchPattern(name: string, p: PeriodPattern): (g: Option<Groups>)
    ensures g.Some? && p.DvurPattern? ==> |g.value.first| == 2 && AllDigits(g.value.first)
    ensures g.Some? && p.PairPattern? ==> |g.value.first| == p.yearDigits && AllDigits(g.value.first)
    ensures g.Some? ==> |g.value.second| == 2 && AllDigits(g.value.second)
  {
    match p
    case DvurPattern => MatchDvur(name)
    case PairPattern(k) => FirstPair(name, k, 0)
  }

  /** The month of the first pattern whose (first) match has a valid
      month; a four-digit first group is the year, a two-digit one the year
      after 2000. */
  function PeriodFromPatterns(name: string, patterns: seq<PeriodPattern>): (r: Option<string>)
    requires forall p :: p in patterns ==> p.DvurPattern? || p.yearDigits == 2 || p.yearDigits == 4
    ensures r.Some? ==> IsMonthId(r.value)
  {
    if patterns == [] then None
    else
      match MatchPattern(name, patterns[0])
      case Some(g) =>
        var year := if |g.first| == 4 then g.first else "20" + g.first;
        if ValidMonth(g.second) then
          var r := year + "-" + g.second;
          assert r[..4] == year && r[5..] == g.second;
          Some(r)
        else PeriodFromPatterns(name, patterns[1..])
      case None => PeriodFromPatterns(name, patterns[1..])
  }

  /** The fallback patterns tried one after the other. */
  lemma FallbackOrder(name: string)
    ensures PeriodFromPatterns(name, FallbackPatterns)
         == PeriodOrElse(MatchDvur(name),
              PeriodOrElse(FirstPair(name, 2, 0),
                PeriodOrElse(FirstPair(name, 4, 0), None)))
  {
    var ps := FallbackPatterns;
    assert ps[0] == DvurPattern && ps[1..][0] == PairPattern(2);
    assert ps[1..][1..] == [PairPattern(4)] && [PairPattern(4)][1..] == [];
    PatternStep(name, ps);
    PatternStep(name, ps[1..]);
    PatternStep(name, ps[1..][1..]);
  }

  lemma PatternStep(name: string, ps: seq<PeriodPattern>)
    requires ps != []
    requires forall p :: p in ps ==> p.DvurPattern? || p.yearDigits == 2 || p.yearDigits == 4
    ensures PeriodFromPatterns(name, ps) == PeriodOrElse(MatchPattern(name, ps[0]), PeriodFromPatterns(name, ps[1..]))
  {
    assert forall p :: p in ps[1..] ==> p in ps;
  }

  /** The period of one match when its month is valid, else `otherwise`. */
  function PeriodOrElse(g: Option<Groups>, otherwise: Option<string>): Option<string> {
    match g
    case Some(m) =>
      if ValidMonth(m.second) then
        Some((if |m.first| == 4 then m.first else "20" + m.first) + "-" + m.second)
      else otherwise
    case None => otherwise
  }

  /** `^(\d{2})[._-](\d{4})$` with a valid month: `MM_YYYY`. */
  function MonthYear(name: string): (r: Option<string>)
    ensures r.Some? ==> IsMonthId(r.value)
  {
    if |name| == 7 && AllDigits(name[..2]) && IsSeparator(name[2]) && AllDigits(name[3..])
       && ValidMonth(name[..2])
    then
      var r := name[3..] + "-" + name[..2];
      assert r[..4] == name[3..] && r[5..] == name[..2];
      Some(r)
    else None
  }

  /** The month a file name stands for, or `null`: the name is lower-cased
      and loses its extension, then `MM_YYYY` is tried, then the fallback
      patterns in order. */
  function ParsePeriodFromFilename(filename: string): (r: Option<string>)
    ensures r.Some? ==> IsMonthId(r.value)
  {
    var name := StripExtension(LowerStr(filename));
    match MonthYear(name)
    case Some(m) => Some(m)
    case None => PeriodFromPatterns(name, FallbackPatterns)
  }

  predicate IsExtension(ext: string) {
    ext == ".xls" || ext == ".xlsx" || ext == ".csv"
  }

  lemma StripKnownExtension(name: string, ext: string)
    requires IsExtension(ext)
    ensures StripExtension(name + ext) == name
  {
    var s := name + ext;
    if ext == ".xlsx" {
      assert s[|s| - 4..] == "xlsx";
      assert s[|s| - 5..] == ext;
    } else {
      assert s[|s| - 4..] == ext;
    }
    assert s[..|name|] == name;
  }

  /** A name made of digits, separators and lower-case letters is its own
      lower-case form. */
  lemma LowerPlainName(s: string)
    requires forall c :: c in s ==> IsDigit(c) || IsSeparator(c) || IsAsciiLower(c)
    ensures LowerStr(s) == s
  {
    LowerFixed(s);
  }

  /** `MM_YYYY` comes first: `01_2024.xlsx` gives `2024-01`, and so does
      every month, separator, year and known extension in this shape. */
  lemma PeriodMonthYear(month: string, sep: char, year: string, ext: string)
    requires ValidMonth(month) && IsSeparator(sep)
    requires |year| == 4 && AllDigits(year) && IsExtension(ext)
    ensures ParsePeriodFromFilename(month + [sep] + year + ext) == Some(year + "-" + month)
  {
    MonthYearName(month, sep, year, ext);
    MonthYearMatch(month, sep, year);
  }

  lemma MonthYearName(month: string, sep: char, year: string, ext: string)
    requires ValidMonth(month) && IsSeparator(sep)
    requires |year| == 4 && AllDigits(year) && IsExtension(ext)
    ensures StripExtension(LowerStr(month + [sep] + year + ext)) == month + [sep] + year
  {
    var name := month + [sep] + year;
    assert forall c :: c in name + ext ==> IsDigit(c) || IsSeparator(c) || IsAsciiLower(c) by {
      assert forall c :: c in month ==> IsDigit(c);
      assert forall c :: c in year ==> IsDigit(c);
    }
    LowerPlainName(name + ext);
    StripKnownExtension(name, ext);
  }

  lemma MonthYearMatch(month: string, sep: char, year: string)
    requires ValidMonth(month) && IsSeparator(sep)
    requires |year| == 4 && AllDigits(year)
    ensures MonthYear(month + [sep] + year) == Some(year + "-" + month)
  {
    var name := month + [sep] + year;
    assert name[..2] == month && name[3..] == year && name[2] == sep;
  }

  lemma PeriodMonthYearExample()
    ensures ParsePeriodFromFilename("01_2024.xlsx") == Some("2024-01")
  {
    var x := "01" + ['_'] + "2024" + ".xlsx";
    assert x == "01_2024.xlsx" by {
      assert |x| == 12;
      assert x[0] == '0' && x[1] == '1' && x[2] == '_' && x[3] == '2' && x[4] == '0' && x[5] == '2';
      assert x[6] == '4' && x[7] == '.' && x[8] == 'x' && x[9] == 'l' && x[10] == 's' && x[11] == 'x';
    }
    var m := "2024" + "-" + "01";
    assert m == "2024-01" by {
      assert |m| == 7;
      assert m[0] == '2' && m[1] == '0' && m[2] == '2' && m[3] == '4' && m[4] == '-' && m[5] == '0' && m[6] == '1';
    }
    PeriodMonthYear("01", '_', "2024", ".xlsx");
  }

  /** The legacy `dvur_YY_MM` names read as the year after 2000. */
  lemma PeriodDvur(sep1: char, year: string, sep2: char, month: string, ext: string)
    requires IsSeparator(sep1) && IsSeparator(sep2)
    requires |year| == 2 && AllDigits(year) && ValidMonth(month) && IsExtension(ext)
    ensures ParsePeriodFromFilename("dvur" + [sep1] + year + [sep2] + month + ext)
         == Some("20" + year + "-" + month)
  {
    var name := "dvur" + [sep1] + year + [sep2] + month;
    DvurName(sep1, year, sep2, month, ext);
    MatchDvurOf(sep1, year, sep2, month);
    assert MonthYear(name) == None by { assert |name| == 10; }
  }

  lemma DvurName(sep1: char, year: string, sep2: char, month: string, ext: string)
    requires IsSeparator(sep1) && IsSeparator(sep2)
    requires |year| == 2 && AllDigits(year) && ValidMonth(month) && IsExtension(ext)
    ensures var name := "dvur" + [sep1] + year + [sep2] + month;
      StripExtension(LowerStr(name + ext)) == name
  {
    var name := "dvur" + [sep1] + year + [sep2] + month;
    assert forall c :: c in name + ext ==> IsDigit(c) || IsSeparator(c) || IsAsciiLower(c) by {
      assert forall c :: c in month ==> IsDigit(c);
      assert forall c :: c in year ==> IsDigit(c);
    }
    LowerPlainName(name + ext);
    StripKnownExtension(name, ext);
  }

  lemma MatchDvurOf(sep1: char, year: string, sep2: char, month: string)
    requires IsSeparator(sep1) && IsSeparator(sep2)
    requires |year| == 2 && AllDigits(year) && |month| == 2 && AllDigits(month)
    ensures MatchDvur("dvur" + [sep1] + year + [sep2] + month) == Some(Groups(year, month))
  {
    var name := "dvur" + [sep1] + year + [sep2] + month;
    assert name[..4] == "dvur";
    var t := name[4..];
    assert t == [sep1] + year + [sep2] + month;
    assert t[0] == sep1;
    var u := t[1..];
    assert u == year + [sep2] + month;
    assert |u| == 5;
    assert u[..2] == year && u[3..] == month && u[2] == sep2;
  }

  lemma PeriodDvurExample()
    ensures ParsePeriodFromFilename("dvur_24_01.xls") == Some("2024-01")
  {
    var x := "dvur" + ['_'] + "24" + ['_'] + "01" + ".xls";
    assert x == "dvur_24_01.xls" by {
      assert |x| == 14;
      assert x[0] == 'd' && x[1] == 'v' && x[2] == 'u' && x[3] == 'r' && x[4] == '_' && x[5] == '2' && x[6] == '4';
      assert x[7] == '_' && x[8] == '0' && x[9] == '1' && x[10] == '.' && x[11] == 'x' && x[12] == 'l' && x[13] == 's';
    }
    var m := "20" + "24" + "-" + "01";
    assert m == "2024-01" by {
      assert |m| == 7;
      assert m[0] == '2' && m[1] == '0' && m[2] == '2' && m[3] == '4' && m[4] == '-' && m[5] == '0' && m[6] == '1';
    }
    PeriodDvur('_', "24", '_', "01", ".xls");
  }

  /** A file name without a digit has no period. */
  lemma PeriodNeedsDigits(filename: string)
    requires forall c :: c in filename ==> !IsDigit(c)
    ensures ParsePeriodFromFilename(filename) == None
  {
    var name := StripExtension(LowerStr(filename));
    NameNoDigits(filename);
    NoDigitsNoMonthYear(name);
    NoDigitsNoDvur(name);
    NoDigitsNoPair(name);
    FallbackOrder(name);
  }

  /** Lower-casing and dropping the extension bring in no digit. */
  lemma NameNoDigits(filename: string)
    requires forall c :: c in filename ==> !IsDigit(c)
    ensures forall c :: c in StripExtension(LowerStr(filename)) ==> !IsDigit(c)
  {
    var l := LowerStr(filename);
    assert forall c :: c in l ==> !IsDigit(c) by {
      forall c | c in l ensures !IsDigit(c) {
        var i :| 0 <= i < |l| && l[i] == c;
        assert filename[i] in filename;
        LowerFacts(filename[i]);
      }
    }
    var name := StripExtension(l);
    assert name == l[..|name|];
    forall c | c in name ensures !IsDigit(c) {
      assert c in l;
    }
  }

  lemma NoDigitsNoMonthYear(name: string)
    requires forall c :: c in name ==> !IsDigit(c)
    ensures MonthYear(name) == None
  {
    if |name| == 7 {
      assert name[..2][0] == name[0] && name[0] in name;
    }
  }

  lemma NoDigitsNoDvur(name: string)
    requires forall c :: c in name ==> !IsDigit(c)
    ensures MatchDvur(name) == None
  {
    if StartsWith(name, "dvur") {
      var t := name[4..];
      var u := if t != [] && IsSeparator(t[0]) then t[1..] else t;
      if |u| >= 2 {
        assert u[..2][0] == u[0];
        assert u[0] == name[|name| - |u|] && name[|name| - |u|] in name;
      }
    }
  }

  lemma NoDigitsNoPair(name: string)
    requires forall c :: c in name ==> !IsDigit(c)
    ensures FirstPair(name, 2, 0).None? && FirstPair(name, 4, 0).None?
  {
    forall k, j | (k == 2 || k == 4) && 0 <= j <= |name| ensures PairAt(name, k, j).None? {
      if j + k + 2 <= |name| {
        assert name[j..j + k][0] == name[j] && name[j] in name;
      }
    }
  }

  lemma PeriodInvalidExample()
    ensures ParsePeriodFromFilename("invalid.csv") == None
  {
    var x := "invalid.csv";
    assert forall c :: c in x ==> !IsDigit(c) by {
      assert forall i :: 0 <= i < |x| ==> !IsDigit(x[i]);
    }
    PeriodNeedsDigits(x);
  }

  /** `YYYY_MM` names: the two-digit pattern reads the first four digits
      as year 20YY and month YY; only when that month is out of range
      does the four-digit pattern get its turn. */
  lemma PeriodYearMonth(year: string, sep: char, month: string, ext: string)
    requires |year| == 4 && AllDigits(year) && IsSeparator(sep) && ValidMonth(month) && IsExtension(ext)
    ensures ParsePeriodFromFilename(year + [sep] + month + ext)
         == if ValidMonth(year[2..]) then Some("20" + year[..2] + "-" + year[2..])
            else Some(year + "-" + month)
  {
    var name := year + [sep] + month;
    YearMonthName(year, sep, month, ext);
    YearMonthMatches(year, sep, month);
    FallbackOrder(name);
  }

  lemma YearMonthName(year: string, sep: char, month: string, ext: string)
    requires |year| == 4 && AllDigits(year) && IsSeparator(sep) && ValidMonth(month) && IsExtension(ext)
    ensures StripExtension(LowerStr(year + [sep] + month + ext)) == year + [sep] + month
  {
    var name := year + [sep] + month;
    assert forall c :: c in name + ext ==> IsDigit(c) || IsSeparator(c) || IsAsciiLower(c) by {
      assert forall c :: c in month ==> IsDigit(c);
      assert forall c :: c in year ==> IsDigit(c);
    }
    LowerPlainName(name + ext);
    StripKnownExtension(name, ext);
  }

  /** What each pattern finds in `YYYY_MM`. */
  lemma YearMonthMatches(year: string, sep: char, month: string)
    requires |year| == 4 && AllDigits(year) && IsSeparator(sep) && ValidMonth(month)
    ensures var name := year + [sep] + month;
      && MonthYear(name) == None && MatchDvur(name) == None
      && FirstPair(name, 2, 0) == Some(Groups(year[..2], year[2..]))
      && FirstPair(name, 4, 0) == Some(Groups(year, month))
  {
    var name := year + [sep] + month;
    assert !IsSeparator(name[2]) by { assert name[2] == year[2]; }
    assert !StartsWith(name, "dvur") by { assert name[0] == year[0]; }
    assert name[0..2] == year[..2] && name[2..4] == year[2..];
    assert PairAt(name, 2, 0) == Some(Groups(year[..2], year[2..]));
    assert name[0..4] == year && name[4] == sep && name[5..7] == month;
    assert PairAt(name, 4, 0) == Some(Groups(year, month));
  }

  /** `2024_01` is read right because month 24 is out of range. */
  lemma PeriodYearMonthExamples()
    ensures ParsePeriodFromFilename("2024_01.csv") == Some("2024-01")
  {
    var x := "2024" + ['_'] + "01" + ".csv";
    assert x == "2024_01.csv" by {
      assert |x| == 11;
      assert x[0] == '2' && x[1] == '0' && x[2] == '2' && x[3] == '4' && x[4] == '_' && x[5] == '0';
      assert x[6] == '1' && x[7] == '.' && x[8] == 'c' && x[9] == 's' && x[10] == 'v';
    }
    var m := "2024" + "-" + "01";
    assert m == "2024-01" by {
      assert |m| == 7;
      assert m[0] == '2' && m[1] == '0' && m[2] == '2' && m[3] == '4' && m[4] == '-' && m[5] == '0' && m[6] == '1';
    }
    assert !ValidMonth("2024"[2..]) by { assert "2024"[2..] == "24"; }
    PeriodYearMonth("2024", '_', "01", ".csv");
  }

  /** `2012_05` is read as December 2020: the two-digit pattern comes
      first and `12` is a valid month. */
  lemma PeriodYearMonthMisreadExample()
    ensures ParsePeriodFromFilename("2012_05.csv") == Some("2020-12")
  {
    var y := "2012" + ['_'] + "05" + ".csv";
    assert y == "2012_05.csv" by {
      assert |y| == 11;
      assert y[0] == '2' && y[1] == '0' && y[2] == '1' && y[3] == '2' && y[4] == '_' && y[5] == '0';
      assert y[6] == '5' && y[7] == '.' && y[8] == 'c' && y[9] == 's' && y[10] == 'v';
    }
    var n := "20" + "2012"[..2] + "-" + "2012"[2..];
    assert n == "2020-12" by {
      assert "2012"[..2] == "20" && "2012"[2..] == "12";
      assert |n| == 7;
      assert n[0] == '2' && n[1] == '0' && n[2] == '2' && n[3] == '0' && n[4] == '-' && n[5] == '1' && n[6] == '2';
    }
    assert ValidMonth("2012"[2..]) by { assert "2012"[2..] == "12"; }
    PeriodYearMonth("2012", '_', "05", ".csv");
  }

  /** The same file addressed by a path: the directory and the separator
      come first, so `MM_YYYY` no longer matches the whole name, the first
      digit pair reads month 20 and no four digits are followed by two
      more. */
  lemma PeriodOfJoinedPathExample()
    ensures ParsePeriodFromFilename("data/dvur/01_2024.xlsx") == None
  {
    var dir, file := "data/dvur/", "01_2024";
    var name := dir + file;
    var x := name + ".xlsx";
    assert x == "data/dvur/01_2024.xlsx" by {
      assert |x| == 22;
      assert forall i :: 0 <= i < 10 ==> x[i] == dir[i];
      assert forall i :: 10 <= i < 17 ==> x[i] == file[i - 10];
      assert x[17] == '.' && x[18] == 'x' && x[19] == 'l' && x[20] == 's' && x[21] == 'x';
    }
    PeriodOfJoinedPath(dir, file);
  }

  lemma PeriodOfJoinedPath(dir: string, file: string)
    requires dir == "data/dvur/" && file == "01_2024"
    ensures ParsePeriodFromFilename(dir + file + ".xlsx") == None
  {
    var name := dir + file;
    JoinedPathName(dir, file);
    assert MonthYear(name) == None;
    JoinedPathNoPattern(dir, file);
  }

  lemma JoinedPathName(dir: string, file: string)
    requires dir == "data/dvur/" && file == "01_2024"
    ensures StripExtension(LowerStr(dir + file + ".xlsx")) == dir + file
  {
    var name := dir + file;
    JoinedPathChars(dir, file);
    LowerFixed(name + ".xlsx");
    StripKnownExtension(name, ".xlsx");
  }

  lemma JoinedPathChars(dir: string, file: string)
    requires dir == "data/dvur/" && file == "01_2024"
    ensures forall c :: c in dir + file + ".xlsx" ==> IsDigit(c) || IsSeparator(c) || IsAsciiLower(c) || c == '/'
  {
    assert forall c :: c in dir + file + ".xlsx" ==> c in dir || c in file || c in ".xlsx";
  }

  lemma JoinedPathNoPattern(dir: string, file: string)
    requires dir == "data/dvur/" && file == "01_2024"
    ensures PeriodFromPatterns(dir + file, FallbackPatterns) == None
  {
    var name := dir + file;
    assert MatchDvur(name) == None by { assert name[..4][1] == dir[1]; }
    JoinedPathDirNoPair(dir, file);
    JoinedPathPair(dir, file);
    FirstPairSkip(name, 2, 0, 10);
    JoinedPathNoFour(dir, file);
    FallbackOrder(name);
  }

  /** No match starts inside the directory, which holds no digit. */
  lemma JoinedPathDirNoPair(dir: string, file: string)
    requires dir == "data/dvur/" && file == "01_2024"
    ensures forall j :: 0 <= j < 10 ==> PairAt(dir + file, 2, j).None? && PairAt(dir + file, 4, j).None?
  {
    var name := dir + file;
    assert forall c :: c in dir ==> !IsDigit(c);
    forall j | 0 <= j < 10 ensures PairAt(name, 2, j).None? && PairAt(name, 4, j).None? {
      assert name[j] == dir[j] && dir[j] in dir;
      PairAtNeedsDigits(name, 2, j, 0);
      PairAtNeedsDigits(name, 4, j, 0);
    }
  }

  /** No four digits are followed by two more anywhere in the path. */
  lemma JoinedPathNoFour(dir: string, file: string)
    requires dir == "data/dvur/" && file == "01_2024"
    ensures FirstPair(dir + file, 4, 0).None?
  {
    var name := dir + file;
    JoinedPathDirNoPair(dir, file);
    forall j | 0 <= j <= |name| ensures PairAt(name, 4, j).None? {
      if 10 <= j && j + 6 <= |name| {
        assert name[12] == '_';
        PairAtNeedsDigits(name, 4, j, 12 - j);
      }
    }
  }

  lemma JoinedPathPair(dir: string, file: string)
    requires dir == "data/dvur/" && file == "01_2024"
    ensures PairAt(dir + file, 2, 10).Some?
    ensures !ValidMonth(PairAt(dir + file, 2, 10).value.second)
  {
    var name := dir + file;
    assert name[10..12] == file[..2];
    assert name[12] == file[2] == '_';
    assert name[13..15] == file[3..5];
    assert AllDigits(file[..2]) && AllDigits(file[3..5]);
    assert file[3..5] == "20";
  }

  /** The first group needs `k` digits from index `j` on. */
  lemma PairAtNeedsDigits(name: string, k: nat, j: nat, o: nat)
    requires j <= |name| && o < k && j + o < |name| && !IsDigit(name[j + o])
    ensures PairAt(name, k, j).None?
  {
    if j + k + 2 <= |name| {
      assert name[j..j + k][o] == name[j + o];
    }
  }

  /** The leftmost match: positions before `j` do not match. */
  lemma {:induction false} FirstPairSkip(name: string, k: nat, i: nat, j: nat)
    requires i <= j <= |name|
    requires forall x :: i <= x < j ==> PairAt(name, k, x).None?
    ensures FirstPair(name, k, i) == FirstPair(name, k, j)
    decreases j - i
  {
    if i < j {
      FirstPairSkip(name, k, i + 1, j);
    }
  }
}
