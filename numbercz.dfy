/** `parseNumberCz`: reading amounts written the Czech way (decimal comma,
    thousands separated by spaces or dots) as well as plain numbers.

    JavaScript's `Number()` and `parseFloat` are modelled by the plain
    decimal grammar `[+-]? digits [. digits]` with at least one digit;
    `Number()` must consume the whole trimmed string, `parseFloat` reads
    the longest prefix of the string after its leading whitespace. Values
    are exact reals. */
module NumberCz {
  import opened Base
  import opened Chars
  import opened Text

  /** The argument of `parseNumberCz`: a number or a string. */
  datatype NumberOrText = Num(x: real) | Str(s: string)

  /** The number of digits `s` starts with. */
  function LeadingDigits(s: string): (n: nat)
    ensures n <= |s|
    ensures AllDigits(s[..n])
    ensures n < |s| ==> !IsDigit(s[n])
  {
    if s != [] && IsDigit(s[0]) then
      var n := LeadingDigits(s[1..]);
      assert s[..n + 1] == [s[0]] + s[1..][..n];
      n + 1
    else 0
  }

  /** The value of the literal `ip.fp`: `ip + fp / 10^|fp|`. */
  function DecimalValue(ip: string, fp: string): real
    requires AllDigits(ip) && AllDigits(fp)
  {
    DigitsValue(ip) as real + DigitsValue(fp) as real / Pow10(|fp|) as real
  }

  /** A decimal literal recognised at the start of a string: its value and
      how many characters it takes. */
  datatype Scan = Scan(value: real, length: nat)

  /** The longest prefix of `t` of the form `digits [. digits]` with at
      least one digit. */
  function UnsignedScan(t: string): (r: Option<Scan>)
    ensures r.Some? ==> 0 < r.value.length <= |t|
  {
    var a := LeadingDigits(t);
    if a < |t| && t[a] == '.' then
      var u := t[a + 1..];
      var f := LeadingDigits(u);
      if a + f == 0 then None
      else Some(Scan(DecimalValue(t[..a], u[..f]), a + 1 + f))
    else if a == 0 then None
    else Some(Scan(DigitsValue(t[..a]) as real, a))
  }

  /** The longest prefix of `s` of the form `[+-]? digits [. digits]` with
      at least one digit, or `None` when `s` has no such prefix. */
  function ScanDecimal(s: string): (r: Option<Scan>)
    ensures r.Some? ==> 0 < r.value.length <= |s|
  {
    if s != [] && (s[0] == '+' || s[0] == '-') then
      match UnsignedScan(s[1..])
      case Some(sc) => Some(Scan(if s[0] == '-' then -sc.value else sc.value, sc.length + 1))
      case None => None
    else UnsignedScan(s)
  }

  /** `Number(s)`: the value when the trimmed string is one decimal literal
      (the empty string counts as 0), `None` for `NaN`. */
  function JsNumber(s: string): Option<real> {
    var t := Trim(s);
    if t == [] then Some(0.0)
    else match ScanDecimal(t)
      case Some(sc) => if sc.length == |t| then Some(sc.value) else None
      case None => None
  }

  /** `parseFloat(s)`: the literal at the start of `s` once its leading
      whitespace is skipped, `None` for `NaN`. */
  function ParseFloat(s: string): Option<real> {
    match ScanDecimal(TrimStart(s))
    case Some(sc) => Some(sc.value)
    case None => None
  }

  /** `s.replace(/\.(?=\d{3})/g, '')`: every dot followed by three digits
      goes. */
  function RemoveThousandsDots(s: string): (r: string)
    ensures |r| <= |s|
  {
    if s == [] then []
    else
      var drop := s[0] == '.' && |s| >= 4 && IsDigit(s[1]) && IsDigit(s[2]) && IsDigit(s[3]);
      (if drop then [] else [s[0]]) + RemoveThousandsDots(s[1..])
  }

  /** How many times `c` occurs in `s`. */
  function Count(s: string, c: char): nat {
    if s == [] then 0 else (if s[0] == c then 1 else 0) + Count(s[1..], c)
  }

  /** Only dots go: every other character occurs as often after the
      deletion as before. */
  lemma {:induction false} ThousandsDotsOnly(s: string, c: char)
    requires c != '.'
    ensures Count(RemoveThousandsDots(s), c) == Count(s, c)
    decreases |s|
  {
    if s != [] {
      var drop := s[0] == '.' && |s| >= 4 && IsDigit(s[1]) && IsDigit(s[2]) && IsDigit(s[3]);
      ThousandsDotsOnly(s[1..], c);
      CountAppend(if drop then [] else [s[0]], RemoveThousandsDots(s[1..]), c);
    }
  }

  /** Every character left by the deletion comes from `s`. */
  lemma {:induction false} ThousandsDotsChars(s: string)
    ensures forall c :: c in RemoveThousandsDots(s) ==> c in s
    decreases |s|
  {
    if s != [] {
      ThousandsDotsChars(s[1..]);
      assert forall c :: c in s[1..] ==> c in s;
    }
  }

  /** `parts[0] + '.' + parts[1]` after `split(',')`: with one comma, the
      comma becomes a dot. */
  function CommaToDot(s: string): string {
    seq(|s|, i requires 0 <= i < |s| => if s[i] == ',' then '.' else s[i])
  }

  /** The string handed to `parseFloat`: no whitespace, no thousands dots,
      and the comma turned into a dot when exactly one comma is left. */
  function Cleaned(str: string): string {
    var cleaned := RemoveThousandsDots(Remove(str, IsWhitespace));
    if Count(cleaned, ',') == 1 then CommaToDot(cleaned) else cleaned
  }

  /** `parseNumberCz`. A number is returned as it is; the empty string,
      a blank or `-` is 0; a string `Number()` accepts is its value;
      anything else is read as a Czech amount by `parseFloat`, and what
      `parseFloat` cannot read is 0. */
  function ParseNumberCz(v: NumberOrText): (r: real)
    ensures v.Num? ==> r == v.x
    ensures v.Str? && (Trim(v.s) == "" || Trim(v.s) == "-") ==> r == 0.0
  {
    match v
    case Num(x) => x
    case Str(s) =>
      if s == "" then 0.0
      else
        var str := Trim(s);
        if str == "" || str == "-" then 0.0
        else match JsNumber(str)
          case Some(x) => x
          case None =>
            match ParseFloat(Cleaned(str))
            case Some(x) => x
            case None => 0.0
  }

  // ---------------------------------------------------------------------
  // Properties
  // ---------------------------------------------------------------------

  lemma {:induction false} LeadingDigitsOf(d: string, rest: string)
    requires AllDigits(d)
    requires rest == [] || !IsDigit(rest[0])
    ensures LeadingDigits(d + rest) == |d|
    decreases |d|
  {
    if d != [] {
      assert (d + rest)[1..] == d[1..] + rest;
      LeadingDigitsOf(d[1..], rest);
    } else {
      assert d + rest == rest;
    }
  }

  /** The literal `d.f`, followed by anything that is not a digit, is read
      as `d + f / 10^|f|`. */
  lemma ScanFraction(d: string, f: string, rest: string)
    requires d != [] && AllDigits(d) && AllDigits(f)
    requires rest == [] || !IsDigit(rest[0])
    ensures ScanDecimal(d + "." + f + rest)
         == Some(Scan(DecimalValue(d, f), |d| + 1 + |f|))
  {
    var s := d + "." + f + rest;
    FractionShape(d, f, rest);
    LeadingDigitsOf(f, rest);
    assert (f + rest)[..|f|] == f;
    assert UnsignedScan(s) == Some(Scan(DecimalValue(d, f), |d| + 1 + |f|));
  }

  /** How `d + "." + f + rest` splits at its first non-digit. */
  lemma FractionShape(d: string, f: string, rest: string)
    requires d != [] && AllDigits(d)
    ensures var s := d + "." + f + rest;
      && LeadingDigits(s) == |d| && s[..|d|] == d && s[|d|] == '.'
      && s[|d| + 1..] == f + rest && IsDigit(s[0])
  {
    var tail := "." + f + rest;
    var s := d + tail;
    assert d + "." + f + rest == s;
    assert s[0] == d[0];
    LeadingDigitsOf(d, tail);
    assert s[..|d|] == d;
    assert s[|d|..] == tail;
    assert tail[1..] == f + rest;
  }

  /** A whole number `d` followed by something that is neither a digit nor
      a dot is read as `d`. */
  lemma ScanWhole(d: string, rest: string)
    requires d != [] && AllDigits(d)
    requires rest == [] || (!IsDigit(rest[0]) && rest[0] != '.')
    ensures ScanDecimal(d + rest) == Some(Scan(DigitsValue(d) as real, |d|))
  {
    var s := d + rest;
    assert s[0] == d[0];
    LeadingDigitsOf(d, rest);
    assert s[..|d|] == d;
  }

  lemma NoWhitespaceTrim(s: string)
    requires forall c :: c in s ==> IsDigit(c) || c == ',' || c == '.'
    ensures Trim(s) == s && TrimStart(s) == s
  {
    TrimNoWhitespace(s);
  }

  lemma {:induction false} NoDotUnchanged(s: string)
    requires forall c :: c in s ==> c != '.'
    ensures RemoveThousandsDots(s) == s
    decreases |s|
  {
    if s != [] {
      assert s[0] in s;
      assert forall c :: c in s[1..] ==> c in s;
      NoDotUnchanged(s[1..]);
      assert s == [s[0]] + s[1..];
    }
  }

  lemma {:induction false} CountDigits(d: string)
    requires AllDigits(d)
    ensures Count(d, ',') == 0
    decreases |d|
  {
    if d != [] {
      CountDigits(d[1..]);
    }
  }

  lemma {:induction false} CountAppend(a: string, b: string, c: char)
    ensures Count(a + b, c) == Count(a, c) + Count(b, c)
    decreases |a|
  {
    if a != [] {
      assert (a + b)[1..] == a[1..] + b;
      CountAppend(a[1..], b, c);
    } else {
      assert a + b == b;
    }
  }

  /** The core of the Czech format: digits, one comma, digits. */
  lemma CleanedDecimalComma(d: string, f: string)
    requires AllDigits(d) && AllDigits(f)
    ensures Cleaned(d + "," + f) == d + "." + f
  {
    var s := d + "," + f;
    DigitsCommaChars(d, f);
    RemoveAbsent(s, IsWhitespace);
    NoDotUnchanged(s);
    OneComma(d, f);
    CommaBecomesDot(d, f);
  }

  lemma OneComma(d: string, f: string)
    requires AllDigits(d) && AllDigits(f)
    ensures Count(d + "," + f, ',') == 1
  {
    CountDigits(d);
    CountDigits(f);
    CountAppend(d + ",", f, ',');
    CountAppend(d, ",", ',');
    assert Count(",", ',') == 1;
  }

  lemma CommaBecomesDot(d: string, f: string)
    requires AllDigits(d) && AllDigits(f)
    ensures CommaToDot(d + "," + f) == d + "." + f
  {
    var s := d + "," + f;
    var r := CommaToDot(s);
    assert |r| == |d + "." + f|;
    forall i | 0 <= i < |r| ensures r[i] == (d + "." + f)[i] {
      if i < |d| {
        assert s[i] == d[i];
      } else if i > |d| {
        assert s[i] == f[i - |d| - 1];
      }
    }
  }

  /** The last branch of `parseNumberCz`: a trimmed string that `Number()`
      rejects is read by `parseFloat` after cleaning. */
  lemma ReadAsCzech(s: string, x: real)
    requires s != "" && s != "-" && Trim(s) == s
    requires JsNumber(s) == None && ParseFloat(Cleaned(s)) == Some(x)
    ensures ParseNumberCz(Str(s)) == x
  {
  }

  /** `parseFloat` of a whitespace-free `d.f` is `d + f / 10^|f|`. */
  lemma ParseFloatDecimal(d: string, f: string)
    requires d != [] && AllDigits(d) && AllDigits(f)
    ensures ParseFloat(d + "." + f) == Some(DecimalValue(d, f))
  {
    var t := d + "." + f;
    ScanFraction(d, f, []);
    assert t + [] == t;
    assert forall c :: c in t ==> IsDigit(c) || c == ',' || c == '.' by {
      assert forall c :: c in t ==> c in d || c == '.' || c in f;
    }
    NoWhitespaceTrim(t);
  }

  /** `"d.f"` with digit strings `d` (not empty) and `f` is a literal
      `Number()` accepts, so `parseNumberCz` returns `d + f / 10^|f|`. */
  lemma ParseDecimalDot(d: string, f: string)
    requires d != [] && AllDigits(d) && AllDigits(f)
    ensures JsNumber(d + "." + f) == Some(DecimalValue(d, f))
    ensures ParseNumberCz(Str(d + "." + f)) == DecimalValue(d, f)
  {
    DotLiteral(d, f, d + "." + f);
  }

  /** `t = d + "." + f` is trimmed, neither empty nor `-`, and the
      literal `d + f / 10^|f|`. */
  lemma DotLiteral(d: string, f: string, t: string)
    requires d != [] && AllDigits(d) && AllDigits(f) && t == d + "." + f
    ensures Trim(t) == t && |t| >= 2 && JsNumber(t) == Some(DecimalValue(d, f))
  {
    ScanFraction(d, f, []);
    assert t + [] == t;
    assert ScanDecimal(t) == Some(Scan(DecimalValue(d, f), |t|));
    assert forall c :: c in t ==> IsDigit(c) || c == ',' || c == '.' by {
      assert forall c :: c in t ==> c in d || c == '.' || c in f;
    }
    NoWhitespaceTrim(t);
  }

  /** `"d,f"` with digit strings `d` (not empty) and `f` is
      `d + f / 10^|f|`. */
  lemma ParseDecimalComma(d: string, f: string)
    requires d != [] && AllDigits(d) && AllDigits(f)
    ensures ParseNumberCz(Str(d + "," + f)) == DecimalValue(d, f)
  {
    DecimalCommaRejected(d, f);
    DecimalCommaCleanedValue(d, f);
    ReadAsCzech(d + "," + f, DecimalValue(d, f));
  }

  /** `d + "," + f` is trimmed, neither empty nor `-`, and not a literal
      for `Number()`. */
  lemma DecimalCommaRejected(d: string, f: string)
    requires d != [] && AllDigits(d) && AllDigits(f)
    ensures var s := d + "," + f;
      s != "" && s != "-" && Trim(s) == s && JsNumber(s) == None
  {
    var rest := "," + f;
    assert d + "," + f == d + rest;
    DigitsCommaChars(d, f);
    WholeBeforeComma(d, rest);
  }

  /** `parseFloat` of the cleaned `d + "," + f` is `d + f / 10^|f|`. */
  lemma DecimalCommaCleanedValue(d: string, f: string)
    requires d != [] && AllDigits(d) && AllDigits(f)
    ensures ParseFloat(Cleaned(d + "," + f)) == Some(DecimalValue(d, f))
  {
    CleanedDecimalComma(d, f);
    ParseFloatDecimal(d, f);
  }

  /** Neither `g + " " + h + rest` nor `g + "." + h + rest` is a whole
      literal when `rest` starts with a comma. */
  lemma GroupedNotNumber(g: string, sep: char, h: string, rest: string)
    requires g != [] && AllDigits(g) && |h| == 3 && AllDigits(h)
    requires sep == ' ' || sep == '.'
    requires rest != [] && rest[0] == ','
    ensures var s := g + [sep] + h + rest; Trim(s) == s ==> JsNumber(s) == None
  {
    var s := g + [sep] + h + rest;
    assert s == g + ([sep] + h + rest);
    if sep == '.' {
      assert s == g + "." + h + rest;
      ScanFraction(g, h, rest);
    } else {
      ScanWhole(g, [sep] + h + rest);
    }
  }

  /** Deleting whitespace from `g + " " + tail` leaves `g + tail` when `g`
      and `tail` hold none. */
  lemma SpaceRemoved(g: string, tail: string)
    requires forall c :: c in g ==> !IsWhitespace(c)
    requires forall c :: c in tail ==> !IsWhitespace(c)
    ensures Remove(g + " " + tail, IsWhitespace) == g + tail
  {
    RemoveAppend(g + " ", tail, IsWhitespace);
    RemoveAppend(g, " ", IsWhitespace);
    RemoveAbsent(g, IsWhitespace);
    RemoveAbsent(tail, IsWhitespace);
    assert Remove(" ", IsWhitespace) == [] by {
      assert " "[1..] == [];
    }
    assert Remove(g + " ", IsWhitespace) == g;
  }

  lemma DigitsCommaChars(d: string, f: string)
    requires AllDigits(d) && AllDigits(f)
    ensures forall c :: c in d + "," + f ==> IsDigit(c) || c == ','
  {
    assert forall c :: c in d + "," + f ==> c in d || c == ',' || c in f;
  }

  /** Whitespace and thousands-dot deletion turn `g + " " + h + "," + f`
      into `gh,f`. */
  lemma SpaceGroupJoined(g: string, h: string, f: string)
    requires AllDigits(g) && AllDigits(h) && AllDigits(f)
    ensures RemoveThousandsDots(Remove(g + " " + h + "," + f, IsWhitespace)) == (g + h) + "," + f
  {
    var tail := h + "," + f;
    DigitsCommaChars(h, f);
    SpaceRemoved(g, tail);
    assert g + " " + h + "," + f == g + " " + tail;
    var n := (g + h) + "," + f;
    assert n == g + tail;
    assert AllDigits(g + h);
    DigitsCommaChars(g + h, f);
    NoDotUnchanged(n);
  }

  /** `g + "." + h + "," + f` over digits holds no whitespace. */
  lemma GroupedNoWhitespace(g: string, h: string, f: string)
    requires AllDigits(g) && AllDigits(h) && AllDigits(f)
    ensures Remove(g + "." + h + "," + f, IsWhitespace) == g + "." + h + "," + f
  {
    var s := g + "." + h + "," + f;
    assert forall c :: c in s ==> c in g || c == '.' || c in h || c == ',' || c in f;
    RemoveAbsent(s, IsWhitespace);
  }

  /** Thousands-dot deletion turns `g + "." + h + "," + f` into `gh,f`
      when `h` has three digits. */
  lemma GroupedDotRemoved(g: string, h: string, f: string)
    requires AllDigits(g) && |h| == 3 && AllDigits(h) && AllDigits(f)
    ensures RemoveThousandsDots(g + "." + h + "," + f) == (g + h) + "," + f
  {
    assert forall c :: c in "," + f ==> IsDigit(c) || c == ',' by {
      assert forall c :: c in "," + f ==> c == ',' || c in f;
    }
    GroupDotRemoved(g, h, "," + f);
    assert g + "." + h + "," + f == g + "." + h + ("," + f);
    assert (g + h) + "," + f == g + h + ("," + f);
  }

  /** Whitespace and thousands-dot deletion turn `g + "." + h + "," + f`
      into `gh,f` when `h` has three digits. */
  lemma DotGroupJoined(g: string, h: string, f: string)
    requires AllDigits(g) && |h| == 3 && AllDigits(h) && AllDigits(f)
    ensures RemoveThousandsDots(Remove(g + "." + h + "," + f, IsWhitespace)) == (g + h) + "," + f
  {
    GroupedNoWhitespace(g, h, f);
    GroupedDotRemoved(g, h, f);
  }

  /** Cleaning `g + sep + h + "," + f` leaves `gh.f`. */
  lemma CleanedGrouped(g: string, sep: char, h: string, f: string)
    requires AllDigits(g) && |h| == 3 && AllDigits(h) && AllDigits(f)
    requires sep == ' ' || sep == '.'
    ensures Cleaned(g + [sep] + h + "," + f) == (g + h) + "." + f
  {
    var n := (g + h) + "," + f;
    if sep == ' ' {
      SpaceGroupJoined(g, h, f);
    } else {
      DotGroupJoined(g, h, f);
    }
    assert AllDigits(g + h);
    DigitsCommaChars(g + h, f);
    RemoveAbsent(n, IsWhitespace);
    NoDotUnchanged(n);
    CleanedDecimalComma(g + h, f);
  }

  /** Thousands: `g + " " + h + "," + f` and `g + "." + h + "," + f` with a
      three-digit group `h` both read as `gh + f / 10^|f|`. */
  lemma ParseGroupedDecimalComma(g: string, sep: char, h: string, f: string)
    requires g != [] && AllDigits(g) && |h| == 3 && AllDigits(h) && AllDigits(f)
    requires sep == ' ' || sep == '.'
    ensures ParseNumberCz(Str(g + [sep] + h + "," + f)) == DecimalValue(g + h, f)
  {
    var s := g + [sep] + h + "," + f;
    GroupedRejected(g, sep, h, f);
    GroupedCleanedValue(g, sep, h, f);
    ReadAsCzech(s, DecimalValue(g + h, f));
  }

  /** The Czech thousands-and-comma spelling of an amount reads as the
      plain dotted spelling of the same amount: `"1 234,50"` and
      `"1.234,50"` give what `"1234.50"` gives. */
  lemma GroupedLikeDotted(g: string, sep: char, h: string, f: string)
    requires g != [] && AllDigits(g) && |h| == 3 && AllDigits(h) && AllDigits(f)
    requires sep == ' ' || sep == '.'
    ensures ParseNumberCz(Str(g + [sep] + h + "," + f)) == ParseNumberCz(Str(g + h + "." + f))
  {
    ParseGroupedDecimalComma(g, sep, h, f);
    assert AllDigits(g + h) by {
      forall i | 0 <= i < |g + h| ensures IsDigit((g + h)[i]) {
        if i >= |g| {
          assert (g + h)[i] == h[i - |g|];
        }
      }
    }
    ParseDecimalDot(g + h, f);
  }

  /** `g + sep + h + "," + f` is trimmed, neither empty nor `-`, and not a
      literal for `Number()`. */
  lemma GroupedRejected(g: string, sep: char, h: string, f: string)
    requires g != [] && AllDigits(g) && |h| == 3 && AllDigits(h) && AllDigits(f)
    requires sep == ' ' || sep == '.'
    ensures var s := g + [sep] + h + "," + f;
      s != "" && s != "-" && Trim(s) == s && JsNumber(s) == None
  {
    var s := g + [sep] + h + "," + f;
    GroupedTrimmed(g, sep, h, f);
    assert s == g + [sep] + h + ("," + f);
    GroupedNotNumber(g, sep, h, "," + f);
  }

  lemma GroupedTrimmed(g: string, sep: char, h: string, f: string)
    requires g != [] && AllDigits(g) && AllDigits(f)
    ensures var s := g + [sep] + h + "," + f; s != "" && s != "-" && Trim(s) == s
  {
    var s := g + [sep] + h + "," + f;
    assert s[0] == g[0];
    assert s[|s| - 1] == (if f == [] then ',' else f[|f| - 1]);
    LeadingWhitespaceIs(s, 0);
    TrailingWhitespaceIs(s, 0);
  }

  /** `parseFloat` of the cleaned `g + sep + h + "," + f` is
      `gh + f / 10^|f|`. */
  lemma GroupedCleanedValue(g: string, sep: char, h: string, f: string)
    requires g != [] && AllDigits(g) && |h| == 3 && AllDigits(h) && AllDigits(f)
    requires sep == ' ' || sep == '.'
    ensures ParseFloat(Cleaned(g + [sep] + h + "," + f)) == Some(DecimalValue(g + h, f))
  {
    CleanedGrouped(g, sep, h, f);
    assert AllDigits(g + h);
    ParseFloatDecimal(g + h, f);
  }

  /** Over digits, a dot before a three-digit group and commas: exactly
      the dot goes. */
  lemma GroupDotRemoved(g: string, h: string, rest: string)
    requires AllDigits(g) && |h| == 3 && AllDigits(h)
    requires forall c :: c in rest ==> IsDigit(c) || c == ','
    ensures RemoveThousandsDots(g + "." + h + rest) == g + h + rest
  {
    NoDotPrefix(g, "." + h + rest);
    DotBeforeGroup(h, rest);
    assert g + "." + h + rest == g + ("." + h + rest);
    assert g + h + rest == g + (h + rest);
  }

  /** The dot in front of a three-digit group goes; digits and commas
      after it stay. */
  lemma DotBeforeGroup(h: string, rest: string)
    requires |h| == 3 && AllDigits(h)
    requires forall c :: c in rest ==> IsDigit(c) || c == ','
    ensures RemoveThousandsDots("." + h + rest) == h + rest
  {
    var t := "." + h + rest;
    assert t[1..] == h + rest;
    assert t[1] == h[0] && t[2] == h[1] && t[3] == h[2];
    assert forall c :: c in h + rest ==> c != '.' by {
      assert forall c :: c in h + rest ==> c in h || c in rest;
    }
    NoDotUnchanged(h + rest);
  }

  lemma {:induction false} NoDotPrefix(g: string, t: string)
    requires AllDigits(g)
    ensures RemoveThousandsDots(g + t) == g + RemoveThousandsDots(t)
    decreases |g|
  {
    if g != [] {
      assert (g + t)[1..] == g[1..] + t;
      assert (g + t)[0] == g[0];
      NoDotPrefix(g[1..], t);
      assert g == [g[0]] + g[1..];
    } else {
      assert g + t == t;
    }
  }

    /** `"1 234,50"` is 1234.5. */
  lemma ParseGroupedExample(s: string)
    requires s == "1 234,50"
    ensures ParseNumberCz(Str(s)) == 1234.5
  {
    GroupedExampleParts(s);
    DecimalExample("1" + "234", "50");
    GroupedValue(s, "1", "234", "50", 1234.5);
  }

  lemma GroupedValue(s: string, g: string, h: string, f: string, x: real)
    requires g != [] && AllDigits(g) && |h| == 3 && AllDigits(h) && AllDigits(f)
    requires s == g + [' '] + h + "," + f && DecimalValue(g + h, f) == x
    ensures ParseNumberCz(Str(s)) == x
  {
    ParseGroupedDecimalComma(g, ' ', h, f);
  }

  lemma GroupedExampleParts(s: string)
    requires s == "1 234,50"
    ensures s == "1" + [' '] + "234" + "," + "50"
  {
    var x := "1" + [' '] + "234" + "," + "50";
    assert |x| == 8;
    assert x[0] == '1' && x[1] == ' ' && x[2] == '2' && x[3] == '3';
    assert x[4] == '4' && x[5] == ',' && x[6] == '5' && x[7] == '0';
  }

  lemma DecimalExample(ip: string, fp: string)
    requires ip == "1234" && fp == "50"
    ensures DecimalValue(ip, fp) == 1234.5
  {
    assert DigitsValue(ip[..0]) == 0;
    assert DigitsValue(ip[..1]) == 1 by { assert ip[..1][..0] == ip[..0]; }
    assert DigitsValue(ip[..2]) == 12 by { assert ip[..2][..1] == ip[..1]; }
    assert DigitsValue(ip[..3]) == 123 by { assert ip[..3][..2] == ip[..2]; }
    assert DigitsValue(ip) == 1234 by { assert ip[..3] == ip[..|ip| - 1]; }
    assert DigitsValue(fp[..1]) == 5 by { assert fp[..1][..0] == fp[..0]; }
    assert DigitsValue(fp) == 50 by { assert fp[..1] == fp[..|fp| - 1]; }
    assert Pow10(2) == 100;
  }

  /** With two commas nothing is turned into a dot and `parseFloat` stops
      at the first comma: `"d,f,e"` reads as `d`. */
  lemma ParseTwoCommas(d: string, f: string, e: string)
    requires d != [] && AllDigits(d) && AllDigits(f) && AllDigits(e)
    ensures ParseNumberCz(Str(d + "," + f + "," + e)) == DigitsValue(d) as real
  {
    TwoCommasRead(d, f, e);
    ReadAsCzech(d + "," + f + "," + e, DigitsValue(d) as real);
  }

  /** `d + "," + f + "," + e` is rejected by `Number()`, and `parseFloat`
      reads `d` from its cleaned form. */
  lemma TwoCommasRead(d: string, f: string, e: string)
    requires d != [] && AllDigits(d) && AllDigits(f) && AllDigits(e)
    ensures var s := d + "," + f + "," + e;
      && s != "" && s != "-" && Trim(s) == s && JsNumber(s) == None
      && ParseFloat(Cleaned(s)) == Some(DigitsValue(d) as real)
  {
    TwoCommasWhole(d, f, e);
    CleanedTwoCommas(d, f, e);
  }

  lemma TwoCommasWhole(d: string, f: string, e: string)
    requires d != [] && AllDigits(d) && AllDigits(f) && AllDigits(e)
    ensures var s := d + "," + f + "," + e;
      && s != "" && s != "-" && Trim(s) == s
      && JsNumber(s) == None && ParseFloat(s) == Some(DigitsValue(d) as real)
  {
    var rest := "," + f + "," + e;
    var s := d + rest;
    Regroup(d, ",", f);
    Regroup(d, "," + f, ",");
    Regroup(d, "," + f + ",", e);
    assert forall c :: c in s ==> IsDigit(c) || c == ',' by {
      assert forall c :: c in rest ==> c == ',' || c in f || c in e;
      assert forall c :: c in s ==> c in d || c in rest;
    }
    WholeBeforeComma(d, rest);
  }

  /** Digits followed by a comma and more digits and commas: not a literal
      for `Number()`, and `parseFloat` reads just the digits. */
  lemma WholeBeforeComma(d: string, rest: string)
    requires d != [] && AllDigits(d) && rest != [] && rest[0] == ','
    requires forall c :: c in d + rest ==> IsDigit(c) || c == ','
    ensures var s := d + rest;
      && s != "" && s != "-" && Trim(s) == s
      && JsNumber(s) == None && ParseFloat(s) == Some(DigitsValue(d) as real)
  {
    var s := d + rest;
    NoWhitespaceTrim(s);
    assert s[0] == d[0];
    ScanWhole(d, rest);
    assert ScanDecimal(Trim(s)) == Some(Scan(DigitsValue(d) as real, |d|));
    assert |d| != |s|;
    assert JsNumber(s) == None;
    assert ScanDecimal(TrimStart(s)) == Some(Scan(DigitsValue(d) as real, |d|));
  }

  lemma Regroup(a: string, b: string, c: string)
    ensures a + b + c == a + (b + c)
  {
  }

  lemma TwoCommasChars(d: string, f: string, e: string)
    requires AllDigits(d) && AllDigits(f) && AllDigits(e)
    ensures forall c :: c in d + "," + f + "," + e ==> IsDigit(c) || c == ','
  {
    assert forall c :: c in d + "," + f + "," + e ==> c in d || c == ',' || c in f || c in e;
  }

  /** Cleaning leaves a string with two commas as it is. */
  lemma CleanedTwoCommas(d: string, f: string, e: string)
    requires AllDigits(d) && AllDigits(f) && AllDigits(e)
    ensures Cleaned(d + "," + f + "," + e) == d + "," + f + "," + e
  {
    var s := d + "," + f + "," + e;
    TwoCommasChars(d, f, e);
    RemoveAbsent(s, IsWhitespace);
    NoDotUnchanged(s);
    CountDigits(d);
    CountDigits(f);
    CountDigits(e);
    CountAppend(d + "," + f + ",", e, ',');
    CountAppend(d + "," + f, ",", ',');
    CountAppend(d + ",", f, ',');
    CountAppend(d, ",", ',');
    assert Count(",", ',') == 1;
  }

  /** A scan needs a digit among the first three characters. */
  lemma ScanNeedsDigit(s: string)
    requires forall c :: c in s ==> !IsDigit(c)
    ensures ScanDecimal(s) == None
  {
    if s != [] {
      assert s[0] in s;
      if |s| > 1 { assert s[1] in s; }
      if |s| > 2 { assert s[2] in s; }
      if s[0] == '+' || s[0] == '-' {
        UnsignedScanNone(s[1..]);
      } else {
        UnsignedScanNone(s);
      }
    }
  }

  /** An unsigned scan needs a digit among the first two characters. */
  lemma UnsignedScanNone(t: string)
    requires t == [] || !IsDigit(t[0])
    requires |t| < 2 || !IsDigit(t[1])
    ensures UnsignedScan(t) == None
  {
    assert LeadingDigits(t) == 0;
    if t != [] {
      assert LeadingDigits(t[1..]) == 0;
    }
  }

  lemma CleanedChars(str: string)
    ensures forall c :: c in Cleaned(str) ==> c in str || c == '.'
  {
    var cleaned := RemoveThousandsDots(Remove(str, IsWhitespace));
    RemoveChars(str, IsWhitespace);
    ThousandsDotsChars(Remove(str, IsWhitespace));
    forall c | c in CommaToDot(cleaned) ensures c in cleaned || c == '.' {
      var k :| 0 <= k < |cleaned| && CommaToDot(cleaned)[k] == c;
      assert c == cleaned[k] || c == '.';
    }
  }

  /** A string without a digit is 0. */
  lemma ParseNoDigits(s: string)
    requires forall c :: c in s ==> !IsDigit(c)
    ensures ParseNumberCz(Str(s)) == 0.0
  {
    var str := Trim(s);
    TrimChars(s);
    TrimChars(str);
    ScanNeedsDigit(Trim(str));
    CleanedChars(str);
    TrimChars(Cleaned(str));
    ScanNeedsDigit(TrimStart(Cleaned(str)));
  }
}
