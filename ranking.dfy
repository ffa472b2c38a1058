/**
 * `sort_news_items`: Python's stable `sorted` on the composite key
 * (-score, with a missing score read as 0; -timestamp; id), compared
 * lexicographically.
 */
module Ranking {
  import opened Wrappers
  import opened Text
  import opened Models

  /** `item.relevance_score if item.relevance_score is not None else 0` */
  function ScoreOrZero(item: NewsItem): real {
    item.relevanceScore.GetOr(0.0)
  }

  /** The sort key of one item; negation turns "descending" into ascending order. */
  datatype SortKey = SortKey(negScore: real, negTime: int, id: string)

  function Key(item: NewsItem): SortKey {
    SortKey(-ScoreOrZero(item), -item.publishedAt, item.id)
  }

  /** Python's tuple `<=`: the first differing component decides. */
  predicate KeyLe(a: SortKey, b: SortKey) {
    a.negScore < b.negScore ||
    (a.negScore == b.negScore && (a.negTime < b.negTime || (a.negTime == b.negTime && StrLe(a.id, b.id))))
  }

  /** `x` may stand before `y` in the output. */
  predicate ItemLe(x: NewsItem, y: NewsItem) {
    KeyLe(Key(x), Key(y))
  }

  /** Every item is at or below every later item in key order. */
  predicate Sorted(s: seq<NewsItem>) {
    forall i, j :: 0 <= i < j < |s| ==> ItemLe(s[i], s[j])
  }

  // ---------------------------------------------------------------------
  // The key order is a total order

  lemma KeyLeReflexive(a: SortKey)
    ensures KeyLe(a, a)
  {
    StrLeReflexive(a.id);
  }

  lemma KeyLeTotal(a: SortKey, b: SortKey)
    ensures KeyLe(a, b) || KeyLe(b, a)
  {
    StrLeTotal(a.id, b.id);
  }

  lemma KeyLeTransitive(a: SortKey, b: SortKey, c: SortKey)
    requires KeyLe(a, b) && KeyLe(b, c)
    ensures KeyLe(a, c)
  {
    if a.negScore == b.negScore == c.negScore && a.negTime == b.negTime == c.negTime {
      StrLeTransitive(a.id, b.id, c.id);
    }
  }

  lemma KeyLeAntisymmetric(a: SortKey, b: SortKey)
    requires KeyLe(a, b) && KeyLe(b, a)
    ensures a == b
  {
    StrLeAntisymmetric(a.id, b.id);
  }

  // ---------------------------------------------------------------------
  // The sort

  /**
   * Inserts `x` in front of the first element it is at or below; an item
   * inserted this way precedes every later item with an equal key.
   */
  function InsertInOrder(x: NewsItem, s: seq<NewsItem>): (r: seq<NewsItem>)
    ensures multiset(r) == multiset(s) + multiset{x}
  {
    if |s| == 0 || ItemLe(x, s[0]) then [x] + s
    else
      assert s == [s[0]] + s[1..];
      [s[0]] + InsertInOrder(x, s[1..])
  }

  /** An item at or below every element of a sorted sequence may lead it. */
  lemma PrependSorted(x: NewsItem, s: seq<NewsItem>)
    requires Sorted(s) && forall y :: y in s ==> ItemLe(x, y)
    ensures Sorted([x] + s)
  {
    var r := [x] + s;
    forall i, j | 0 <= i < j < |r| ensures ItemLe(r[i], r[j]) {
      if i == 0 { assert r[j] in s; }
      else { assert r[i] == s[i - 1] && r[j] == s[j - 1]; }
    }
  }

  /** Inserting into a sorted sequence keeps it sorted. */
  lemma {:induction false} InsertSorted(x: NewsItem, s: seq<NewsItem>)
    requires Sorted(s)
    ensures Sorted(InsertInOrder(x, s))
  {
    if |s| == 0 {
    } else if ItemLe(x, s[0]) {
      forall y | y in s ensures ItemLe(x, y) {
        SortedHeadIsLeast(s, y);
        KeyLeTransitive(Key(x), Key(s[0]), Key(y));
      }
      PrependSorted(x, s);
    } else {
      var rest := InsertInOrder(x, s[1..]);
      SortedTail(s);
      InsertSorted(x, s[1..]);
      KeyLeTotal(Key(x), Key(s[0]));
      forall y | y in rest ensures ItemLe(s[0], y) {
        assert y in multiset(rest);
        if y != x {
          assert y in s;
          SortedHeadIsLeast(s, y);
        }
      }
      PrependSorted(s[0], rest);
    }
  }

  /** `sort_news_items`: a new list holding the same items, in key order. */
  function SortNewsItems(items: seq<NewsItem>): (r: seq<NewsItem>)
    ensures multiset(r) == multiset(items)
    ensures Sorted(r)
  {
    if |items| == 0 then []
    else
      assert items == [items[0]] + items[1..];
      var rest := SortNewsItems(items[1..]);
      InsertSorted(items[0], rest);
      InsertInOrder(items[0], rest)
  }

  // ---------------------------------------------------------------------
  // Stability: items with one and the same key keep their input order

  /** The items of `s` whose key is `k`, in order. */
  function WithKey(s: seq<NewsItem>, k: SortKey): seq<NewsItem> {
    if |s| == 0 then []
    else (if Key(s[0]) == k then [s[0]] else []) + WithKey(s[1..], k)
  }

  lemma WithKeyCons(h: NewsItem, t: seq<NewsItem>, k: SortKey)
    ensures WithKey([h] + t, k) == (if Key(h) == k then [h] else []) + WithKey(t, k)
  {
    assert ([h] + t)[1..] == t;
  }

  /** Inserting an item leaves the items of every other key as they were. */
  lemma {:induction false} InsertOtherKey(x: NewsItem, s: seq<NewsItem>, k: SortKey)
    requires Key(x) != k
    ensures WithKey(InsertInOrder(x, s), k) == WithKey(s, k)
  {
    if |s| == 0 || ItemLe(x, s[0]) {
      WithKeyCons(x, s, k);
    } else {
      var h, t := s[0], s[1..];
      var lower := InsertInOrder(x, t);
      InsertOtherKey(x, t, k);
      assert InsertInOrder(x, s) == [h] + lower;
      assert s == [h] + t;
      WithKeyCons(h, lower, k);
      WithKeyCons(h, t, k);
    }
  }

  /** Inserting an item places it before every item of its key already there. */
  lemma {:induction false} InsertOwnKey(x: NewsItem, s: seq<NewsItem>)
    ensures WithKey(InsertInOrder(x, s), Key(x)) == [x] + WithKey(s, Key(x))
  {
    if |s| == 0 || ItemLe(x, s[0]) {
      WithKeyCons(x, s, Key(x));
    } else {
      var h, t := s[0], s[1..];
      var lower := InsertInOrder(x, t);
      InsertOwnKey(x, t);
      KeyLeReflexive(Key(x));
      assert Key(h) != Key(x);
      assert InsertInOrder(x, s) == [h] + lower;
      assert s == [h] + t;
      WithKeyCons(h, lower, Key(x));
      WithKeyCons(h, t, Key(x));
      assert WithKey([h] + lower, Key(x)) == WithKey(lower, Key(x));
      assert WithKey(s, Key(x)) == WithKey(t, Key(x));
    }
  }

  lemma InsertWithKey(x: NewsItem, s: seq<NewsItem>, k: SortKey)
    ensures WithKey(InsertInOrder(x, s), k) == (if Key(x) == k then [x] else []) + WithKey(s, k)
  {
    if Key(x) == k {
      InsertOwnKey(x, s);
    } else {
      InsertOtherKey(x, s, k);
      assert [] + WithKey(s, k) == WithKey(s, k);
    }
  }

  /** `sorted` is stable: among items with equal keys the input order survives. */
  lemma {:induction false} SortIsStable(items: seq<NewsItem>, k: SortKey)
    ensures WithKey(SortNewsItems(items), k) == WithKey(items, k)
  {
    if |items| > 0 {
      SortIsStable(items[1..], k);
      InsertWithKey(items[0], SortNewsItems(items[1..]), k);
    }
  }

  // ---------------------------------------------------------------------
  // Idempotence and uniqueness

  /** Sorting an already sorted list returns it unchanged. */
  lemma {:induction false} SortIdempotent(items: seq<NewsItem>)
    requires Sorted(items)
    ensures SortNewsItems(items) == items
  {
    if |items| > 0 {
      assert Sorted(items[1..]) by {
        forall i, j | 0 <= i < j < |items[1..]| ensures ItemLe(items[1..][i], items[1..][j]) {
          assert items[1..][i] == items[i + 1] && items[1..][j] == items[j + 1];
        }
      }
      SortIdempotent(items[1..]);
      if |items| > 1 {
        assert ItemLe(items[0], items[1]);
      }
      assert items == [items[0]] + items[1..];
    }
  }

  lemma SortTwiceIsSortOnce(items: seq<NewsItem>)
    ensures SortNewsItems(SortNewsItems(items)) == SortNewsItems(items)
  {
    SortIdempotent(SortNewsItems(items));
  }

  /** The first element of a sorted sequence is at or below every element. */
  lemma SortedHeadIsLeast(s: seq<NewsItem>, y: NewsItem)
    requires Sorted(s) && y in s
    ensures ItemLe(s[0], y)
  {
    var j :| 0 <= j < |s| && s[j] == y;
    if j == 0 { KeyLeReflexive(Key(y)); }
  }

  lemma DistinctIdsTail(s: seq<NewsItem>)
    requires DistinctIds(s) && |s| > 0
    ensures DistinctIds(s[1..])
  {
    forall i, j | 0 <= i < j < |s[1..]| ensures s[1..][i].id != s[1..][j].id {
      assert s[1..][i] == s[i + 1] && s[1..][j] == s[j + 1];
    }
  }

  lemma SortedTail(s: seq<NewsItem>)
    requires Sorted(s) && |s| > 0
    ensures Sorted(s[1..])
  {
    forall i, j | 0 <= i < j < |s[1..]| ensures ItemLe(s[1..][i], s[1..][j]) {
      assert s[1..][i] == s[i + 1] && s[1..][j] == s[j + 1];
    }
  }

  /**
   * With distinct ids there is exactly one sorted arrangement of a
   * collection of items, so the key order alone fixes the output.
   */
  /** Two sorted arrangements of one duplicate-free multiset start with the same item. */
  lemma SortedHeadsAgree(a: seq<NewsItem>, b: seq<NewsItem>)
    requires Sorted(a) && Sorted(b) && multiset(a) == multiset(b) && DistinctIds(a)
    requires |a| > 0 && |b| > 0
    ensures a[0] == b[0]
  {
    assert a[0] in multiset(b) && b[0] in multiset(a);
    SortedHeadIsLeast(a, b[0]);
    SortedHeadIsLeast(b, a[0]);
    KeyLeAntisymmetric(Key(a[0]), Key(b[0]));
    var j :| 0 <= j < |a| && a[j] == b[0];
    assert j == 0;
  }

  lemma {:induction false} SortedArrangementUnique(a: seq<NewsItem>, b: seq<NewsItem>)
    requires Sorted(a) && Sorted(b) && multiset(a) == multiset(b) && DistinctIds(a)
    ensures a == b
  {
    assert |a| == |multiset(a)| == |multiset(b)| == |b|;
    if |a| > 0 {
      SortedHeadsAgree(a, b);
      SortedTailsAgree(a, b);
      SortedArrangementUnique(a[1..], b[1..]);
      assert a == [a[0]] + a[1..] && b == [b[0]] + b[1..];
    }
  }

  lemma MultisetTail(s: seq<NewsItem>)
    requires |s| > 0
    ensures multiset(s[1..]) == multiset(s) - multiset{s[0]}
  {
    assert s == [s[0]] + s[1..];
  }

  /** Removing a common head leaves two sorted arrangements of one duplicate-free multiset. */
  lemma SortedTailsAgree(a: seq<NewsItem>, b: seq<NewsItem>)
    requires Sorted(a) && Sorted(b) && multiset(a) == multiset(b) && DistinctIds(a)
    requires |a| > 0 && |b| > 0 && a[0] == b[0]
    ensures Sorted(a[1..]) && Sorted(b[1..]) && multiset(a[1..]) == multiset(b[1..]) && DistinctIds(a[1..])
  {
    MultisetTail(a);
    MultisetTail(b);
    SortedTail(a);
    SortedTail(b);
    DistinctIdsTail(a);
  }

  /** An item whose id the rest does not use may lead a duplicate-free sequence. */
  lemma ConsKeepsDistinctIds(h: NewsItem, t: seq<NewsItem>)
    requires DistinctIds(t) && forall y :: y in t ==> y.id != h.id
    ensures DistinctIds([h] + t)
  {
    var r := [h] + t;
    forall i, j | 0 <= i < j < |r| ensures r[i].id != r[j].id {
      assert r[j] == t[j - 1];
      if i > 0 {
        assert r[i] == t[i - 1];
      }
    }
  }

  lemma {:induction false} InsertKeepsDistinctIds(x: NewsItem, s: seq<NewsItem>)
    requires DistinctIds(s) && forall y :: y in s ==> y.id != x.id
    ensures DistinctIds(InsertInOrder(x, s))
  {
    if |s| == 0 || ItemLe(x, s[0]) {
      ConsKeepsDistinctIds(x, s);
    } else {
      var h, t := s[0], s[1..];
      DistinctIdsTail(s);
      assert forall y :: y in t ==> y in s;
      InsertKeepsDistinctIds(x, t);
      forall y | y in InsertInOrder(x, t) ensures y.id != h.id {
        assert y in multiset(InsertInOrder(x, t));
        if y != x {
          var j :| 0 <= j < |t| && t[j] == y;
          assert s[j + 1] == y;
        }
      }
      ConsKeepsDistinctIds(h, InsertInOrder(x, t));
    }
  }

  /** Sorting keeps ids distinct. */
  lemma {:induction false} SortKeepsDistinctIds(xs: seq<NewsItem>)
    requires DistinctIds(xs)
    ensures DistinctIds(SortNewsItems(xs))
  {
    if |xs| > 0 {
      DistinctIdsTail(xs);
      SortKeepsDistinctIds(xs[1..]);
      var rest := SortNewsItems(xs[1..]);
      forall y | y in rest ensures y.id != xs[0].id {
        assert y in multiset(xs[1..]);
        var j :| 0 <= j < |xs[1..]| && xs[1..][j] == y;
        assert xs[j + 1] == y;
      }
      InsertKeepsDistinctIds(xs[0], rest);
    }
  }

  /** With distinct ids, the order of `sort_news_items`'s input does not matter. */
  lemma SortIgnoresInputOrder(xs: seq<NewsItem>, ys: seq<NewsItem>)
    requires multiset(xs) == multiset(ys) && DistinctIds(xs)
    ensures SortNewsItems(xs) == SortNewsItems(ys)
  {
    SortKeepsDistinctIds(xs);
    SortedArrangementUnique(SortNewsItems(xs), SortNewsItems(ys));
  }

  /** With distinct ids, any sorted rearrangement of the input is the output of the sort. */
  lemma SortIsTheSortedPermutation(items: seq<NewsItem>, r: seq<NewsItem>)
    requires DistinctIds(items) && multiset(r) == multiset(items) && Sorted(r)
    ensures SortNewsItems(items) == r
  {
    SortKeepsDistinctIds(items);
    SortedArrangementUnique(SortNewsItems(items), r);
  }

  // ---------------------------------------------------------------------
  // What the order means for any two positions of a sorted list

  /** Scores (a missing one read as 0) never increase along a sorted list. */
  lemma SortedScoresDescend(s: seq<NewsItem>, i: int, j: int)
    requires Sorted(s) && 0 <= i < j < |s|
    ensures ScoreOrZero(s[i]) >= ScoreOrZero(s[j])
  {
  }

  /** Nothing after an unscored item scores above 0: unscored items fall below every positive score. */
  lemma UnscoredBelowPositive(s: seq<NewsItem>, i: int, j: int)
    requires Sorted(s) && 0 <= i < j < |s|
    requires s[i].relevanceScore.None?
    ensures ScoreOrZero(s[j]) <= 0.0
  {
    assert ItemLe(s[i], s[j]);
  }

  /** Between equally scored items, the more recent one comes first. */
  lemma NewerFirstOnEqualScore(s: seq<NewsItem>, i: int, j: int)
    requires Sorted(s) && 0 <= i < j < |s|
    requires ScoreOrZero(s[i]) == ScoreOrZero(s[j])
    ensures s[i].publishedAt >= s[j].publishedAt
  {
    assert ItemLe(s[i], s[j]);
  }

  /** Between items equal in score and time, ids ascend. */
  lemma IdsAscendOnTies(s: seq<NewsItem>, i: int, j: int)
    requires Sorted(s) && 0 <= i < j < |s|
    requires ScoreOrZero(s[i]) == ScoreOrZero(s[j]) && s[i].publishedAt == s[j].publishedAt
    ensures StrLe(s[i].id, s[j].id)
  {
    assert ItemLe(s[i], s[j]);
  }
}
