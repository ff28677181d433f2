/** The JavaScript string operations the text helpers are built from:
    `toLowerCase`, NFD plus removal of combining marks, global regular
    expression deletion of one character class, `trim`, `includes`,
    `startsWith` and `endsWith`. */
module Text {
  import opened Chars

  /** Every character of `s` satisfies `p`. */
  predicate All(s: string, p: char -> bool) {
    forall c :: c in s ==> p(c)
  }

  /** Every character of `s` is an ASCII digit. */
  predicate AllDigits(s: string) { forall i :: 0 <= i < |s| ==> IsDigit(s[i]) }

  function DigitValue(c: char): nat
    requires IsDigit(c)
  {
    c as int - '0' as int
  }

  /** The value of a string of decimal digits. */
  function DigitsValue(ds: string): nat
    requires AllDigits(ds)
  {
    if ds == [] then 0 else DigitsValue(ds[..|ds| - 1]) * 10 + DigitValue(ds[|ds| - 1])
  }

  function Pow10(n: nat): (p: nat)
    ensures p > 0
  {
    if n == 0 then 1 else 10 * Pow10(n - 1)
  }

  /** `s.toLowerCase()`. */
  function LowerStr(s: string): (r: string)
    ensures |r| == |s|
    ensures forall c :: c in r ==> IsLowerFixed(c)
  {
    var r := seq(|s|, i requires 0 <= i < |s| => Lower(s[i]));
    assert forall c :: c in r ==> IsLowerFixed(c) by {
      forall c | c in r ensures IsLowerFixed(c) {
        var i :| 0 <= i < |r| && r[i] == c;
        LowerFacts(s[i]);
      }
    }
    r
  }

  /** `s.normalize('NFD').replace(/[̀-ͯ]/g, '')`: every
      precomposed letter loses its accent and every combining mark goes. */
  function StripDiacritics(s: string): (r: string)
    ensures forall c :: c in r ==> IsPlain(c)
    ensures All(s, IsLowerFixed) ==> All(r, IsLowerFixed)
    ensures All(s, IsWhitespace) ==> All(r, IsWhitespace)
    ensures |r| <= |s|
  {
    if s == [] then []
    else
      var rest := StripDiacritics(s[1..]);
      if IsCombiningMark(s[0]) then rest
      else
        FoldFacts(s[0]);
        [Fold(s[0])] + rest
  }

  /** `s.replace(/[class]/g, '')` for the class `drop`: the characters of
      `s` not in the class, in their order. */
  function Remove(s: string, drop: char -> bool): (r: string)
    ensures |r| <= |s|
  {
    if s == [] then []
    else (if drop(s[0]) then [] else [s[0]]) + Remove(s[1..], drop)
  }

  /** What `Remove` keeps comes from `s` and is outside the class. */
  lemma {:induction false} RemoveChars(s: string, drop: char -> bool)
    ensures forall c :: c in Remove(s, drop) ==> c in s && !drop(c)
    decreases |s|
  {
    if s != [] {
      RemoveChars(s[1..], drop);
      assert forall c :: c in s[1..] ==> c in s;
    }
  }

  /** The number of whitespace characters `s` starts with. */
  function LeadingWhitespace(s: string): (n: nat)
    ensures n <= |s|
    ensures forall i :: 0 <= i < n ==> IsWhitespace(s[i])
    ensures n < |s| ==> !IsWhitespace(s[n])
  {
    if s != [] && IsWhitespace(s[0]) then
      var n := LeadingWhitespace(s[1..]);
      assert forall i :: 1 <= i < n + 1 ==> s[i] == s[1..][i - 1];
      n + 1
    else 0
  }

  /** The number of whitespace characters `s` ends with. */
  function TrailingWhitespace(s: string): (n: nat)
    ensures n <= |s|
    ensures forall i :: |s| - n <= i < |s| ==> IsWhitespace(s[i])
    ensures n < |s| ==> !IsWhitespace(s[|s| - n - 1])
  {
    if s != [] && IsWhitespace(s[|s| - 1]) then
      var n := TrailingWhitespace(s[..|s| - 1]);
      assert forall i :: |s| - 1 - n <= i < |s| - 1 ==> s[i] == s[..|s| - 1][i];
      n + 1
    else 0
  }

  /** `s.trimStart()`. */
  function TrimStart(s: string): (r: string)
    ensures r == [] || !IsWhitespace(r[0])
    ensures forall i :: 0 <= i < |s| - |r| ==> IsWhitespace(s[i])
    ensures |r| <= |s| && r == s[|s| - |r|..]
  {
    s[LeadingWhitespace(s)..]
  }

  /** `s.trim()`: `s` without its leading and trailing whitespace; what lies
      between is kept as it is. */
  function Trim(s: string): (r: string)
    ensures r != [] ==> !IsWhitespace(r[0]) && !IsWhitespace(r[|r| - 1])
    ensures exists i :: SliceBetweenWhitespace(s, r, i)
  {
    var i := LeadingWhitespace(s);
    var t := s[i..];
    var j := TrailingWhitespace(t);
    assert forall k :: i + |t| - j <= k < |s| ==> s[k] == t[k - i];
    assert SliceBetweenWhitespace(s, s[i..|s| - j], i);
    s[i..|s| - j]
  }

  lemma {:induction false} LeadingWhitespaceIs(s: string, k: nat)
    requires k < |s| && !IsWhitespace(s[k])
    requires forall i :: 0 <= i < k ==> IsWhitespace(s[i])
    ensures LeadingWhitespace(s) == k
    decreases k
  {
    if k > 0 {
      LeadingWhitespaceIs(s[1..], k - 1);
    }
  }

  lemma {:induction false} TrailingWhitespaceIs(s: string, k: nat)
    requires k < |s| && !IsWhitespace(s[|s| - 1 - k])
    requires forall i :: |s| - k <= i < |s| ==> IsWhitespace(s[i])
    ensures TrailingWhitespace(s) == k
    decreases k
  {
    if k > 0 {
      TrailingWhitespaceIs(s[..|s| - 1], k - 1);
    }
  }

  /** Trimming blank padding around text that starts and ends with a
      non-blank character gives back exactly that text. */
  lemma TrimExact(p: string, m: string, q: string)
    requires All(p, IsWhitespace) && All(q, IsWhitespace)
    requires m != [] && !IsWhitespace(m[0]) && !IsWhitespace(m[|m| - 1])
    ensures Trim(p + m + q) == m
  {
    var s := p + m + q;
    assert forall i :: 0 <= i < |p| ==> s[i] == p[i] && p[i] in p;
    assert s[|p|] == m[0];
    LeadingWhitespaceIs(s, |p|);
    var t := s[|p|..];
    assert t == m + q;
    assert forall i :: |t| - |q| <= i < |t| ==> t[i] == q[i - |m|] && q[i - |m|] in q;
    assert t[|t| - 1 - |q|] == m[|m| - 1];
    TrailingWhitespaceIs(t, |q|);
    assert s[|p|..|s| - |q|] == m;
  }

  /** Lower-casing changes nothing in a lower-case string. */
  lemma LowerFixed(s: string)
    requires All(s, IsLowerFixed)
    ensures LowerStr(s) == s
  {
    assert forall i :: 0 <= i < |s| ==> s[i] in s;
  }

  /** `r` is the part of `s` from index `i` on, and everything of `s` before
      and after it is whitespace. */
  predicate SliceBetweenWhitespace(s: string, r: string, i: int) {
    && 0 <= i && i + |r| <= |s| && r == s[i..i + |r|]
    && (forall k :: 0 <= k < i ==> IsWhitespace(s[k]))
    && (forall k :: i + |r| <= k < |s| ==> IsWhitespace(s[k]))
  }

  /** Trimming only removes characters. */
  lemma TrimChars(s: string)
    ensures forall c :: c in Trim(s) ==> c in s
    ensures forall c :: c in TrimStart(s) ==> c in s
  {
    var r := Trim(s);
    var i :| SliceBetweenWhitespace(s, r, i);
    forall c | c in r ensures c in s {
      var k :| 0 <= k < |r| && r[k] == c;
      assert s[i + k] == c;
    }
    var t := TrimStart(s);
    forall c | c in t ensures c in s {
      var k :| 0 <= k < |t| && t[k] == c;
      assert s[|s| - |t| + k] == c;
    }
  }

  /** A string without whitespace is its own trim. */
  lemma TrimNoWhitespace(s: string)
    requires !(exists c :: c in s && IsWhitespace(c))
    ensures Trim(s) == s
  {
  }

  /** `s.startsWith(p)`. */
  predicate StartsWith(s: string, p: string) {
    |p| <= |s| && s[..|p|] == p
  }

  /** `s.endsWith(p)`. */
  predicate EndsWith(s: string, p: string) {
    |p| <= |s| && s[|s| - |p|..] == p
  }

  /** `s.includes(p)`: `p` occurs in `s` at some position. */
  predicate Contains(s: string, p: string)
    decreases |s|
  {
    StartsWith(s, p) || (s != [] && Contains(s[1..], p))
  }

  /** An occurrence of `p` in `s` puts every character of `p` in `s`. */
  lemma {:induction false} ContainsChars(s: string, p: string)
    requires Contains(s, p)
    ensures forall c :: c in p ==> c in s
    decreases |s|
  {
    if StartsWith(s, p) {
      forall c | c in p ensures c in s {
        var k :| 0 <= k < |p| && p[k] == c;
        assert s[k] == c;
      }
    } else {
      ContainsChars(s[1..], p);
      forall c | c in p ensures c in s {
        assert c in s[1..];
      }
    }
  }

  /** `Contains` means what `includes` means: an index where `p` starts. */
  lemma {:induction false} ContainsAt(s: string, p: string)
    ensures Contains(s, p) <==> exists i :: OccursAt(s, p, i)
    decreases |s|
  {
    if s != [] {
      ContainsAt(s[1..], p);
      if Contains(s[1..], p) {
        var i :| OccursAt(s[1..], p, i);
        assert s[i + 1..i + 1 + |p|] == s[1..][i..i + |p|];
        assert OccursAt(s, p, i + 1);
      }
      if StartsWith(s, p) {
        assert OccursAt(s, p, 0);
      }
      if i :| OccursAt(s, p, i) {
        if i > 0 {
          assert s[1..][i - 1..i - 1 + |p|] == s[i..i + |p|];
          assert OccursAt(s[1..], p, i - 1);
        }
      }
    } else if StartsWith(s, p) {
      assert OccursAt(s, p, 0);
    }
  }

  /** `p` occurs in `s` starting at index `i`. */
  predicate OccursAt(s: string, p: string, i: int) {
    0 <= i <= |s| - |p| && s[i..i + |p|] == p
  }

  lemma {:induction false} LowerStrAppend(a: string, b: string)
    ensures LowerStr(a + b) == LowerStr(a) + LowerStr(b)
  {
    var l, r := LowerStr(a + b), LowerStr(a) + LowerStr(b);
    assert |l| == |r|;
    forall i | 0 <= i < |l| ensures l[i] == r[i] {
      if i < |a| {
        assert (a + b)[i] == a[i];
      } else {
        assert (a + b)[i] == b[i - |a|];
      }
    }
  }

  lemma {:induction false} StripDiacriticsAppend(a: string, b: string)
    ensures StripDiacritics(a + b) == StripDiacritics(a) + StripDiacritics(b)
    decreases |a|
  {
    if a != [] {
      assert (a + b)[1..] == a[1..] + b;
      StripDiacriticsAppend(a[1..], b);
    } else {
      assert a + b == b;
    }
  }

  lemma {:induction false} RemoveAppend(a: string, b: string, drop: char -> bool)
    ensures Remove(a + b, drop) == Remove(a, drop) + Remove(b, drop)
    decreases |a|
  {
    if a != [] {
      assert (a + b)[1..] == a[1..] + b;
      RemoveAppend(a[1..], b, drop);
    } else {
      assert a + b == b;
    }
  }

  /** Deleting a class that occurs nowhere in `s` leaves `s` unchanged. */
  lemma {:induction false} RemoveAbsent(s: string, drop: char -> bool)
    requires forall c :: c in s ==> !drop(c)
    ensures Remove(s, drop) == s
    decreases |s|
  {
    if s != [] {
      assert s[0] in s;
      assert forall c :: c in s[1..] ==> c in s;
      RemoveAbsent(s[1..], drop);
      assert s == [s[0]] + s[1..];
    }
  }

  /** Deleting a class from a string made only of it leaves nothing. */
  lemma {:induction false} RemoveAll(s: string, drop: char -> bool)
    requires forall c :: c in s ==> drop(c)
    ensures Remove(s, drop) == []
    decreases |s|
  {
    if s != [] {
      assert s[0] in s;
      assert forall c :: c in s[1..] ==> c in s;
      RemoveAll(s[1..], drop);
    }
  }

  /** Lower-casing and accent stripping change nothing in a string that is
      already lower-case and plain. */
  lemma {:induction false} NormalFixed(s: string)
    requires All(s, IsLowerFixed) && All(s, IsPlain)
    ensures LowerStr(s) == s
    ensures StripDiacritics(s) == s
    decreases |s|
  {
    assert forall i :: 0 <= i < |s| ==> s[i] in s;
    if s != [] {
      assert forall c :: c in s[1..] ==> c in s;
      NormalFixed(s[1..]);
      assert s == [s[0]] + s[1..];
    }
  }
}
