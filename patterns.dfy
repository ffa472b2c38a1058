/**
 * The regular expressions of the pattern-bonus table, searched the way
 * `re.search(pattern, text, flags=re.IGNORECASE)` searches: a bonus pattern
 * matches when some placement of it fits anywhere in the text. Character
 * classes are ASCII: `\w` is a letter, digit or underscore, `\d` a digit,
 * `\s` one of space, tab, newline, carriage return, vertical tab or form
 * feed; `.` is any character but a newline; letters compare ignoring case.
 */
module Patterns {
  import opened Text

  /** The three shapes of regular expression the bonus table uses. */
  datatype Pattern =
    | CveId                                      // CVE-\d{4}-\d+
    | WordsInLine(first: string, second: string) // \bfirst\b.*\bsecond\b
    | WordsSpaced(first: string, second: string) // \bfirst\s+second\b

  predicate IsDigit(c: char) {
    '0' <= c <= '9'
  }

  predicate IsWordChar(c: char) {
    'a' <= c <= 'z' || 'A' <= c <= 'Z' || IsDigit(c) || c == '_'
  }

  predicate IsSpace(c: char) {
    c == ' ' || c == '\t' || c == '\n' || c == '\r' || c as int == 11 || c as int == 12
  }

  /** Under IGNORECASE, two characters match when they agree after lower-casing. */
  predicate SameIgnoringCase(a: char, b: char) {
    LowerChar(a) == LowerChar(b)
  }

  predicate WordAt(s: string, i: int) {
    0 <= i < |s| && IsWordChar(s[i])
  }

  /** `\b` at position `i`: exactly one side of `i` is a word character. */
  predicate Boundary(s: string, i: int) {
    WordAt(s, i - 1) != WordAt(s, i)
  }

  /** The literal `lit` matches `s` at `i`, ignoring case. */
  predicate LiteralAt(s: string, lit: string, i: int) {
    0 <= i && i + |lit| <= |s| &&
    forall j :: 0 <= j < |lit| ==> SameIgnoringCase(s[i + j], lit[j])
  }

  /** `CVE-\d{4}-\d+` matches at `i` (one trailing digit is enough for a search). */
  predicate CveAt(s: string, i: int) {
    LiteralAt(s, "CVE-", i) && i + 10 <= |s| &&
    (forall j :: i + 4 <= j < i + 8 ==> IsDigit(s[j])) &&
    s[i + 8] == '-' && IsDigit(s[i + 9])
  }

  /** `\bfirst\b.*\bsecond\b` matches with `first` at `i` and `second` at `j`. */
  predicate InLineAt(s: string, first: string, second: string, i: int, j: int) {
    Boundary(s, i) && LiteralAt(s, first, i) && Boundary(s, i + |first|) &&
    i + |first| <= j && LiteralAt(s, second, j) &&
    (forall m :: i + |first| <= m < j ==> s[m] != '\n') &&
    Boundary(s, j) && Boundary(s, j + |second|)
  }

  /** `\bfirst\s+second\b` matches with `first` at `i` and `second` at `j`. */
  predicate SpacedAt(s: string, first: string, second: string, i: int, j: int) {
    Boundary(s, i) && LiteralAt(s, first, i) &&
    i + |first| < j && LiteralAt(s, second, j) &&
    (forall m :: i + |first| <= m < j ==> IsSpace(s[m])) &&
    Boundary(s, j + |second|)
  }

  /** `re.search(p, s, flags=re.IGNORECASE)` finds a match. */
  predicate Search(p: Pattern, s: string) {
    match p
    case CveId => exists i | 0 <= i <= |s| :: CveAt(s, i)
    case WordsInLine(a, b) => exists i, j | 0 <= i <= j <= |s| :: InLineAt(s, a, b, i, j)
    case WordsSpaced(a, b) => exists i, j | 0 <= i <= j <= |s| :: SpacedAt(s, a, b, i, j)
  }

  /** The literals a match of `p` must contain, lower-cased. */
  function Literals(p: Pattern): seq<string> {
    match p
    case CveId => ["cve-"]
    case WordsInLine(a, b) => [Lower(a), Lower(b)]
    case WordsSpaced(a, b) => [Lower(a), Lower(b)]
  }

  // ---------------------------------------------------------------------
  // Case-insensitivity

  lemma LowerCharKeepsClasses(c: char)
    ensures IsWordChar(LowerChar(c)) == IsWordChar(c)
    ensures IsDigit(LowerChar(c)) == IsDigit(c)
    ensures IsSpace(LowerChar(c)) == IsSpace(c)
    ensures (LowerChar(c) == '\n') == (c == '\n')
    ensures (LowerChar(c) == '-') == (c == '-')
    ensures LowerChar(LowerChar(c)) == LowerChar(c)
  {
  }

  lemma LowerKeepsBoundary(s: string, i: int)
    ensures Boundary(Lower(s), i) == Boundary(s, i)
  {
    if 0 <= i - 1 < |s| { LowerCharKeepsClasses(s[i - 1]); }
    if 0 <= i < |s| { LowerCharKeepsClasses(s[i]); }
  }

  lemma LowerKeepsLiteral(s: string, lit: string, i: int)
    ensures LiteralAt(Lower(s), lit, i) == LiteralAt(s, lit, i)
  {
    if 0 <= i && i + |lit| <= |s| {
      forall j | 0 <= j < |lit| ensures SameIgnoringCase(Lower(s)[i + j], lit[j]) == SameIgnoringCase(s[i + j], lit[j]) {
        LowerCharKeepsClasses(s[i + j]);
      }
    }
  }

  lemma LowerKeepsCve(s: string, i: int)
    ensures CveAt(Lower(s), i) == CveAt(s, i)
  {
    LowerKeepsLiteral(s, "CVE-", i);
    if i + 10 <= |s| && 0 <= i {
      forall j | i + 4 <= j < i + 10 ensures IsDigit(Lower(s)[j]) == IsDigit(s[j]) && (Lower(s)[j] == '-') == (s[j] == '-') {
        LowerCharKeepsClasses(s[j]);
      }
    }
  }

  lemma LowerKeepsInLine(s: string, a: string, b: string, i: int, j: int)
    ensures InLineAt(Lower(s), a, b, i, j) == InLineAt(s, a, b, i, j)
  {
    LowerKeepsBoundary(s, i);
    LowerKeepsBoundary(s, i + |a|);
    LowerKeepsBoundary(s, j);
    LowerKeepsBoundary(s, j + |b|);
    LowerKeepsLiteral(s, a, i);
    LowerKeepsLiteral(s, b, j);
    forall m | i + |a| <= m < j && 0 <= m < |s| ensures (Lower(s)[m] == '\n') == (s[m] == '\n') {
      LowerCharKeepsClasses(s[m]);
    }
  }

  lemma LowerKeepsSpaced(s: string, a: string, b: string, i: int, j: int)
    ensures SpacedAt(Lower(s), a, b, i, j) == SpacedAt(s, a, b, i, j)
  {
    LowerKeepsBoundary(s, i);
    LowerKeepsBoundary(s, j + |b|);
    LowerKeepsLiteral(s, a, i);
    LowerKeepsLiteral(s, b, j);
    forall m | i + |a| <= m < j && 0 <= m < |s| ensures IsSpace(Lower(s)[m]) == IsSpace(s[m]) {
      LowerCharKeepsClasses(s[m]);
    }
  }

  /**
   * IGNORECASE: a pattern matches a text exactly when it matches the
   * lower-cased text, so upper-case pattern letters still match content
   * that the scorer has already lower-cased.
   */
  lemma SearchIgnoresCase(p: Pattern, s: string)
    ensures Search(p, Lower(s)) == Search(p, s)
  {
    match p
    case CveId =>
      forall i ensures CveAt(Lower(s), i) == CveAt(s, i) {
        LowerKeepsCve(s, i);
      }
    case WordsInLine(a, b) =>
      forall i, j ensures InLineAt(Lower(s), a, b, i, j) == InLineAt(s, a, b, i, j) {
        LowerKeepsInLine(s, a, b, i, j);
      }
    case WordsSpaced(a, b) =>
      forall i, j ensures SpacedAt(Lower(s), a, b, i, j) == SpacedAt(s, a, b, i, j) {
        LowerKeepsSpaced(s, a, b, i, j);
      }
  }

  /** Where a literal matches ignoring case, its lower-cased form occurs in the lower-cased text. */
  lemma LiteralShowsInLowered(s: string, lit: string, i: int)
    requires LiteralAt(s, lit, i)
    ensures Contains(Lower(s), Lower(lit))
  {
    assert Lower(s)[i..i + |lit|] == Lower(lit);
    assert MatchAt(Lower(s), Lower(lit), i);
  }

  /** Every match of `p` contains each of its literals, so a text lacking one cannot match. */
  lemma SearchNeedsLiterals(p: Pattern, s: string)
    ensures Search(p, s) ==> forall lit :: lit in Literals(p) ==> Contains(Lower(s), lit)
  {
    if Search(p, s) {
      match p
      case CveId =>
        var i :| 0 <= i <= |s| && CveAt(s, i);
        LiteralShowsInLowered(s, "CVE-", i);
        assert Lower("CVE-") == "cve-";
      case WordsInLine(a, b) =>
        var i, j :| 0 <= i <= j <= |s| && InLineAt(s, a, b, i, j);
        PairShowsInLowered(s, a, b, i, j);
      case WordsSpaced(a, b) =>
        var i, j :| 0 <= i <= j <= |s| && SpacedAt(s, a, b, i, j);
        PairShowsInLowered(s, a, b, i, j);
    }
  }

  lemma PairShowsInLowered(s: string, a: string, b: string, i: int, j: int)
    requires LiteralAt(s, a, i) && LiteralAt(s, b, j)
    ensures Contains(Lower(s), Lower(a)) && Contains(Lower(s), Lower(b))
  {
    LiteralShowsInLowered(s, a, i);
    LiteralShowsInLowered(s, b, j);
  }

  /** The CVE pattern, written in upper case, matches a lower-case identifier. */
  lemma CveMatchesLowercase()
    ensures Search(CveId, "cve-2025-12345")
    ensures Search(CveId, "CVE-2025-12345")
  {
    assert CveAt("cve-2025-12345", 0);
    assert CveAt("CVE-2025-12345", 0);
  }
}
