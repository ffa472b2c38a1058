/**
 * Text primitives used by the scorer, the store and the ranker:
 * ASCII lower-casing (Python's `str.lower()` restricted to ASCII),
 * the substring test (`k in s` on strings) and lexicographic string order.
 */
module Text {

  predicate IsUpper(c: char) {
    'A' <= c <= 'Z'
  }

  /** `c.lower()` for ASCII; every other character is left as it is. */
  function LowerChar(c: char): char {
    if IsUpper(c) then (c as int + 32) as char else c
  }

  /** The upper-case partner of an ASCII lower-case letter. */
  function UpperChar(c: char): char {
    if 'a' <= c <= 'z' then (c as int - 32) as char else c
  }

  /** `s.lower()`, character by character. */
  function Lower(s: string): (r: string)
    ensures |r| == |s|
    ensures forall i :: 0 <= i < |s| ==> r[i] == LowerChar(s[i])
  {
    seq(|s|, i requires 0 <= i < |s| => LowerChar(s[i]))
  }

  /** `k` occurs in `s` starting at position `i`. */
  predicate MatchAt(s: string, k: string, i: int) {
    0 <= i && i + |k| <= |s| && s[i..i + |k|] == k
  }

  /** Python's `k in s` for strings: `k` is a contiguous substring of `s`. */
  predicate Contains(s: string, k: string) {
    exists i :: 0 <= i <= |s| - |k| && MatchAt(s, k, i)
  }

  /** Python's `a <= b` on strings: lexicographic by code point, a prefix first. */
  predicate StrLe(a: string, b: string) {
    |a| == 0 || (|b| > 0 && (a[0] < b[0] || (a[0] == b[0] && StrLe(a[1..], b[1..]))))
  }

  predicate StrLt(a: string, b: string) {
    StrLe(a, b) && a != b
  }

  // ---------------------------------------------------------------------
  // Lower-casing

  lemma LowerCharIdempotent(c: char)
    ensures LowerChar(LowerChar(c)) == LowerChar(c)
    ensures !IsUpper(LowerChar(c))
  {
  }

  /** Lower-casing twice is lower-casing once. */
  lemma LowerIdempotent(s: string)
    ensures Lower(Lower(s)) == Lower(s)
  {
    forall i | 0 <= i < |s| ensures Lower(Lower(s))[i] == Lower(s)[i] {
      LowerCharIdempotent(s[i]);
    }
  }

  /** Nothing upper-case survives lower-casing. */
  lemma LowerHasNoUpper(s: string)
    ensures forall i :: 0 <= i < |s| ==> !IsUpper(Lower(s)[i])
  {
  }

  lemma LowerConcat(a: string, b: string)
    ensures Lower(a + b) == Lower(a) + Lower(b)
  {
    assert forall i :: 0 <= i < |a| ==> (a + b)[i] == a[i];
    assert forall i :: |a| <= i < |a| + |b| ==> (a + b)[i] == b[i - |a|];
  }

  /** A key holding an upper-case letter never occurs in lower-cased text. */
  lemma UpperKeyNeverInLowered(s: string, k: string, j: int)
    requires 0 <= j < |k| && IsUpper(k[j])
    ensures !Contains(Lower(s), k)
  {
    forall i | 0 <= i <= |s| - |k| ensures !MatchAt(Lower(s), k, i) {
      assert Lower(s)[i..i + |k|][j] == Lower(s)[i + j];
    }
  }

  // ---------------------------------------------------------------------
  // Substrings

  /** A substring of a substring is a substring. */
  lemma ContainsSlice(s: string, k: string, lo: int, hi: int)
    requires 0 <= lo <= hi <= |k|
    requires Contains(s, k)
    ensures Contains(s, k[lo..hi])
  {
    var i :| 0 <= i <= |s| - |k| && MatchAt(s, k, i);
    forall m | 0 <= m < hi - lo ensures s[i + lo..i + hi][m] == k[lo..hi][m] {
      assert s[i..i + |k|][lo + m] == k[lo + m];
    }
    assert MatchAt(s, k[lo..hi], i + lo);
  }

  /** Lower-casing a text keeps the lower-cased forms of its substrings. */
  lemma ContainsLowered(s: string, k: string)
    requires Contains(s, k)
    ensures Contains(Lower(s), Lower(k))
  {
    var i :| 0 <= i <= |s| - |k| && MatchAt(s, k, i);
    forall j | 0 <= j < |k| ensures Lower(s)[i..i + |k|][j] == Lower(k)[j] {
      assert s[i..i + |k|][j] == k[j];
    }
    assert MatchAt(Lower(s), Lower(k), i);
  }

  /** `k` occurs in `s` when it occurs at some given position. */
  lemma ContainsAt(s: string, k: string, i: int)
    requires MatchAt(s, k, i)
    ensures Contains(s, k)
  {
  }

  // ---------------------------------------------------------------------
  // String order

  lemma {:induction false} StrLeReflexive(a: string)
    ensures StrLe(a, a)
  {
    if |a| > 0 {
      StrLeReflexive(a[1..]);
    }
  }

  lemma {:induction false} StrLeTotal(a: string, b: string)
    ensures StrLe(a, b) || StrLe(b, a)
  {
    if |a| > 0 && |b| > 0 && a[0] == b[0] {
      StrLeTotal(a[1..], b[1..]);
    }
  }

  lemma {:induction false} StrLeAntisymmetric(a: string, b: string)
    requires StrLe(a, b) && StrLe(b, a)
    ensures a == b
  {
    if |a| > 0 && |b| > 0 {
      StrLeAntisymmetric(a[1..], b[1..]);
      assert a == [a[0]] + a[1..];
      assert b == [b[0]] + b[1..];
    }
  }

  lemma {:induction false} StrLeTransitive(a: string, b: string, c: string)
    requires StrLe(a, b) && StrLe(b, c)
    ensures StrLe(a, c)
  {
    if |a| > 0 && |b| > 0 && |c| > 0 && a[0] == b[0] && b[0] == c[0] {
      StrLeTransitive(a[1..], b[1..], c[1..]);
    }
  }

  // ---------------------------------------------------------------------
  // Proof aids for fixed texts: a text written as words joined by single
  // spaces, and "probe" characters that show a key is absent from it.

  /** The words of `ws` joined by single spaces (`" ".join(ws)`). */
  function JoinWords(ws: seq<string>): string {
    if |ws| == 0 then "" else if |ws| == 1 then ws[0] else ws[0] + " " + JoinWords(ws[1..])
  }

  /** Lower-cased `p` does not contain `k`. */
  predicate Absent(p: string, k: string) {
    !Contains(Lower(p), k)
  }

  /** A word missing both cases of one of the key's letters cannot contain the key. */
  lemma AbsentByProbe(k: string, c: char, upper: char)
    requires c in k && !IsUpper(c) && upper == UpperChar(c)
    ensures forall p {:trigger Absent(p, k)} :: c !in p && upper !in p ==> Absent(p, k)
  {
    forall p | c !in p && upper !in p ensures Absent(p, k) {
      var j :| 0 <= j < |k| && k[j] == c;
      forall i | 0 <= i <= |p| - |k| ensures !MatchAt(Lower(p), k, i) {
        assert p[i + j] in p;
        assert Lower(p)[i..i + |k|][j] == Lower(p)[i + j];
      }
    }
  }

  /** A key whose prefix is absent is absent. */
  lemma AbsentByPrefix(p: string, k: string, n: int)
    requires 0 <= n <= |k| && Absent(p, k[..n])
    ensures Absent(p, k)
  {
    forall i | 0 <= i <= |Lower(p)| - |k| ensures !MatchAt(Lower(p), k, i) {
      assert !MatchAt(Lower(p), k[..n], i);
      assert Lower(p)[i..i + |k|][..n] == Lower(p)[i..i + n];
    }
  }

  /** A key without a space cannot straddle the space between two texts. */
  lemma AbsentAcrossSpace(k: string, a: string, b: string)
    requires ' ' !in k
    requires Absent(a, k) && Absent(b, k)
    ensures Absent(a + " " + b, k)
  {
    var s := a + " " + b;
    LowerConcat(a + " ", b);
    LowerConcat(a, " ");
    forall i | 0 <= i <= |s| - |k| ensures !MatchAt(Lower(s), k, i) {
      if i + |k| <= |a| {
        assert Lower(a)[i..i + |k|] == Lower(s)[i..i + |k|];
        assert !MatchAt(Lower(a), k, i);
      } else if i > |a| {
        assert Lower(b)[i - |a| - 1..i - |a| - 1 + |k|] == Lower(s)[i..i + |k|];
        assert !MatchAt(Lower(b), k, i - |a| - 1);
      } else {
        assert Lower(s)[i..i + |k|][|a| - i] == ' ';
      }
    }
  }

  /** A space-free key absent from every word is absent from the joined text. */
  lemma {:induction false} AbsentFromWords(ws: seq<string>, k: string)
    requires ' ' !in k && k != []
    requires forall w :: w in ws ==> Absent(w, k)
    ensures Absent(JoinWords(ws), k)
  {
    if |ws| > 1 {
      assert ws[0] in ws;
      assert forall w :: w in ws[1..] ==> w in ws;
      AbsentFromWords(ws[1..], k);
      AbsentAcrossSpace(k, ws[0], JoinWords(ws[1..]));
    } else if |ws| == 1 {
      assert ws[0] in ws;
    }
  }

  /**
   * Every word of `ws` is shorter than `k` or misses both cases of one of
   * the probe letters `c1`, `c2`, `c3` (given with their upper-case forms).
   */
  predicate ProbesRuleOut(ws: seq<string>, k: string, c1: char, u1: char, c2: char, u2: char, c3: char, u3: char) {
    forall w :: w in ws ==>
      |w| < |k| || (c1 !in w && u1 !in w) || (c2 !in w && u2 !in w) || (c3 !in w && u3 !in w)
  }

  /** The probe condition holds for two word lists exactly when it holds for both together. */
  lemma ProbesRuleOutAppend(a: seq<string>, b: seq<string>, k: string, c1: char, u1: char, c2: char, u2: char, c3: char, u3: char)
    requires ProbesRuleOut(a, k, c1, u1, c2, u2, c3, u3) && ProbesRuleOut(b, k, c1, u1, c2, u2, c3, u3)
    ensures ProbesRuleOut(a + b, k, c1, u1, c2, u2, c3, u3)
  {
  }

  /** The probe argument for a whole word list. */
  lemma AbsentByProbes(ws: seq<string>, k: string, c1: char, u1: char, c2: char, u2: char, c3: char, u3: char)
    requires ' ' !in k
    requires c1 in k && !IsUpper(c1) && u1 == UpperChar(c1)
    requires c2 in k && !IsUpper(c2) && u2 == UpperChar(c2)
    requires c3 in k && !IsUpper(c3) && u3 == UpperChar(c3)
    requires ProbesRuleOut(ws, k, c1, u1, c2, u2, c3, u3)
    ensures Absent(JoinWords(ws), k)
  {
    AbsentByProbe(k, c1, u1);
    AbsentByProbe(k, c2, u2);
    AbsentByProbe(k, c3, u3);
    forall w | w in ws && |w| < |k| ensures Absent(w, k) {
    }
    AbsentFromWords(ws, k);
  }

  /** An occurrence in `a` is an occurrence in `a + b`. */
  lemma ContainsInPrefix(a: string, b: string, k: string)
    requires Contains(a, k)
    ensures Contains(a + b, k)
  {
    var i :| 0 <= i <= |a| - |k| && MatchAt(a, k, i);
    assert (a + b)[i..i + |k|] == a[i..i + |k|];
    assert MatchAt(a + b, k, i);
  }

  /** An occurrence in `b` is an occurrence in `a + b`. */
  lemma ContainsInSuffix(a: string, b: string, k: string)
    requires Contains(b, k)
    ensures Contains(a + b, k)
  {
    var i :| 0 <= i <= |b| - |k| && MatchAt(b, k, i);
    assert (a + b)[|a| + i..|a| + i + |k|] == b[i..i + |k|];
    assert MatchAt(a + b, k, |a| + i);
  }

  /** A key found in one lower-cased word is found in the lower-cased joined text. */
  lemma {:induction false} KeyInWords(ws: seq<string>, j: int, k: string)
    requires 0 <= j < |ws| && Contains(Lower(ws[j]), k)
    ensures Contains(Lower(JoinWords(ws)), k)
  {
    if |ws| > 1 {
      var rest := JoinWords(ws[1..]);
      LowerConcat(ws[0] + " ", rest);
      LowerConcat(ws[0], " ");
      if j == 0 {
        ContainsInPrefix(Lower(ws[0]), Lower(" ") + Lower(rest), k);
        assert Lower(ws[0]) + (Lower(" ") + Lower(rest)) == Lower(ws[0]) + Lower(" ") + Lower(rest);
      } else {
        KeyInWords(ws[1..], j - 1, k);
        ContainsInSuffix(Lower(ws[0]) + Lower(" "), Lower(rest), k);
      }
    }
  }

  /** The probe argument for a text made of two word lists, each checked on its own. */
  lemma AbsentByProbesIn(a: seq<string>, b: seq<string>, k: string, c1: char, u1: char, c2: char, u2: char, c3: char, u3: char)
    requires ' ' !in k
    requires c1 in k && !IsUpper(c1) && u1 == UpperChar(c1)
    requires c2 in k && !IsUpper(c2) && u2 == UpperChar(c2)
    requires c3 in k && !IsUpper(c3) && u3 == UpperChar(c3)
    requires ProbesRuleOut(a, k, c1, u1, c2, u2, c3, u3) && ProbesRuleOut(b, k, c1, u1, c2, u2, c3, u3)
    ensures Absent(JoinWords(a + b), k)
  {
    ProbesRuleOutAppend(a, b, k, c1, u1, c2, u2, c3, u3);
    AbsentByProbes(a + b, k, c1, u1, c2, u2, c3, u3);
  }

  /** Joining two word lists with a space joins their texts with a space. */
  lemma {:induction false} JoinWordsAppend(xs: seq<string>, ys: seq<string>)
    requires xs != [] && ys != []
    ensures JoinWords(xs + ys) == JoinWords(xs) + " " + JoinWords(ys)
  {
    if |xs| == 1 {
      assert (xs + ys)[1..] == ys;
    } else {
      assert (xs + ys)[1..] == xs[1..] + ys;
      JoinWordsAppend(xs[1..], ys);
    }
  }

  /** A key found inside one of the words is found in the joined text. */
  lemma {:induction false} ContainsWord(ws: seq<string>, j: int, k: string)
    requires 0 <= j < |ws| && Contains(ws[j], k)
    ensures Contains(JoinWords(ws), k)
  {
    if |ws| > 1 {
      var rest := JoinWords(ws[1..]);
      if j == 0 {
        var i :| 0 <= i <= |ws[0]| - |k| && MatchAt(ws[0], k, i);
        assert (ws[0] + " " + rest)[i..i + |k|] == ws[0][i..i + |k|];
        assert MatchAt(JoinWords(ws), k, i);
      } else {
        ContainsWord(ws[1..], j - 1, k);
        var i :| 0 <= i <= |rest| - |k| && MatchAt(rest, k, i);
        var off := |ws[0]| + 1;
        assert (ws[0] + " " + rest)[off + i..off + i + |k|] == rest[i..i + |k|];
        assert MatchAt(JoinWords(ws), k, off + i);
      }
    }
  }
}
