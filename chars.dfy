/** Character classes and the case and diacritic tables used by the text
    helpers.

    JavaScript's `toLowerCase`/`toUpperCase` and the Unicode NFD
    decomposition followed by deletion of U+0300..U+036F are modelled by
    tables covering ASCII, the Latin-1 Supplement and the Czech letters of
    Latin Extended-A; every other character is left as it is. */
module Chars {

  /** A character matched by the JavaScript regular-expression class `\s`
      (and removed by `String.prototype.trim`). */
  predicate IsWhitespace(c: char) {
    || c == '\t' || c == '\n' || c == '\U{000B}' || c == '\U{000C}' || c == '\r'
    || c == ' ' || c == '\U{00A0}' || c == '\U{1680}'
    || ('\U{2000}' <= c <= '\U{200A}')
    || c == '\U{2028}' || c == '\U{2029}' || c == '\U{202F}' || c == '\U{205F}'
    || c == '\U{3000}' || c == '\U{FEFF}'
  }

  /** The JavaScript class `\d`: ASCII digits only. */
  predicate IsDigit(c: char) { '0' <= c <= '9' }

  predicate IsAsciiLower(c: char) { 'a' <= c <= 'z' }

  /** A combining diacritical mark, U+0300..U+036F. */
  predicate IsCombiningMark(c: char) { '\U{0300}' <= c <= '\U{036F}' }

  /** Czech capitals of Latin Extended-A whose lower-case form is the next
      code point: Č Ď Ě Ň Ř Š Ť Ů Ž. */
  predicate IsCzechExtendedUpper(c: char) {
    c == 'Č' || c == 'Ď' || c == 'Ě' || c == 'Ň' || c == 'Ř' || c == 'Š' || c == 'Ť' || c == 'Ů' || c == 'Ž'
  }

  /** The lower-case partners č ď ě ň ř š ť ů ž. */
  predicate IsCzechExtendedLower(c: char) {
    c == 'č' || c == 'ď' || c == 'ě' || c == 'ň' || c == 'ř' || c == 'š' || c == 'ť' || c == 'ů' || c == 'ž'
  }

  /** `toLowerCase` on one character. */
  function Lower(c: char): char {
    if 'A' <= c <= 'Z' then (c as int + 32) as char
    else if 'À' <= c <= 'Þ' && c != '×' then (c as int + 32) as char
    else if IsCzechExtendedUpper(c) then (c as int + 1) as char
    else c
  }

  /** `toUpperCase` on one character; `ß` becomes the two characters `SS`. */
  function UpperStr(c: char): string {
    if 'a' <= c <= 'z' then [(c as int - 32) as char]
    else if c == 'ß' then "SS"
    else if 'à' <= c <= 'þ' && c != '÷' then [(c as int - 32) as char]
    else if c == 'ÿ' then ['Ÿ']
    else if c == 'µ' then ['\U{039C}']
    else if IsCzechExtendedLower(c) then [(c as int - 1) as char]
    else [c]
  }

  /** The base letter left by NFD decomposition once the combining marks are
      removed. */
  function Fold(c: char): char {
    if 'à' <= c <= 'å' then 'a'
    else if c == 'ç' then 'c'
    else if 'è' <= c <= 'ë' then 'e'
    else if 'ì' <= c <= 'ï' then 'i'
    else if c == 'ñ' then 'n'
    else if 'ò' <= c <= 'ö' then 'o'
    else if 'ù' <= c <= 'ü' then 'u'
    else if c == 'ý' || c == 'ÿ' then 'y'
    else if 'À' <= c <= 'Å' then 'A'
    else if c == 'Ç' then 'C'
    else if 'È' <= c <= 'Ë' then 'E'
    else if 'Ì' <= c <= 'Ï' then 'I'
    else if c == 'Ñ' then 'N'
    else if 'Ò' <= c <= 'Ö' then 'O'
    else if 'Ù' <= c <= 'Ü' then 'U'
    else if c == 'Ý' then 'Y'
    else if c == 'č' then 'c' else if c == 'Č' then 'C'
    else if c == 'ď' then 'd' else if c == 'Ď' then 'D'
    else if c == 'ě' then 'e' else if c == 'Ě' then 'E'
    else if c == 'ň' then 'n' else if c == 'Ň' then 'N'
    else if c == 'ř' then 'r' else if c == 'Ř' then 'R'
    else if c == 'š' then 's' else if c == 'Š' then 'S'
    else if c == 'ť' then 't' else if c == 'Ť' then 'T'
    else if c == 'ů' then 'u' else if c == 'Ů' then 'U'
    else if c == 'ž' then 'z' else if c == 'Ž' then 'Z'
    else c
  }

  /** A character unchanged by lower-casing. */
  predicate IsLowerFixed(c: char) { Lower(c) == c }

  /** A character carrying no diacritic: not a combining mark and not a
      precomposed accented letter. */
  predicate IsPlain(c: char) { !IsCombiningMark(c) && Fold(c) == c }

  lemma LowerFacts(c: char)
    ensures IsLowerFixed(Lower(c))
    ensures IsWhitespace(Lower(c)) <==> IsWhitespace(c)
    ensures IsCombiningMark(Lower(c)) <==> IsCombiningMark(c)
    ensures IsDigit(Lower(c)) <==> IsDigit(c)
  {
  }

  lemma FoldFacts(c: char)
    requires !IsCombiningMark(c)
    ensures IsPlain(Fold(c))
    ensures IsLowerFixed(c) ==> IsLowerFixed(Fold(c))
    ensures IsWhitespace(Fold(c)) <==> IsWhitespace(c)
    ensures IsAsciiLower(c) || IsDigit(c) ==> Fold(c) == c
  {
    if c < 'À' {
      FoldBelowLatin1Letters(c);
    } else if Fold(c) != c {
      FoldChanged(c);
      FoldBelowLatin1Letters(Fold(c));
    }
  }

  /** Nothing below `À` carries a diacritic. */
  lemma FoldBelowLatin1Letters(c: char)
    requires c < 'À'
    ensures Fold(c) == c && !IsCombiningMark(c)
  {
  }

  /** A character that folds to something else is an accented Latin letter
      whose base letter is ASCII, lower-case when the letter is. */
  lemma FoldChanged(c: char)
    requires 'À' <= c && Fold(c) != c
    ensures c <= 'ž' && ('a' <= Fold(c) <= 'z' || 'A' <= Fold(c) <= 'Z')
    ensures Lower(c) == c ==> 'a' <= Fold(c) <= 'z'
  {
  }
}
