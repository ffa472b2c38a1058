/** The ranking examples of the repository's tests, with `now` as a parameter. */
module RankingScenarios {
  import opened Wrappers
  import opened Text
  import opened Models
  import opened Ranking

  function Scored(id: string, at: int, score: Option<real>): NewsItem {
    NewsItem(id, "test", "Item " + id, Some(""), at, score)
  }

  /** b, a, c, d: two items scoring 5 a minute apart, one scoring 4, one unscored. */
  function Unsorted(now: int): seq<NewsItem> {
    [Scored("b", now - 120, Some(5.0)), Scored("a", now - 60, Some(5.0)),
     Scored("c", now - 180, Some(4.0)), Scored("d", now - 120, None)]
  }

  function RankedByScoreThenTime(now: int): seq<NewsItem> {
    [Scored("a", now - 60, Some(5.0)), Scored("b", now - 120, Some(5.0)),
     Scored("c", now - 180, Some(4.0)), Scored("d", now - 120, None)]
  }

  lemma RankedByScoreThenTimeIsSorted(now: int)
    ensures Sorted(RankedByScoreThenTime(now))
  {
    var s := RankedByScoreThenTime(now);
    forall i, j | 0 <= i < j < 4 ensures ItemLe(s[i], s[j]) {
    }
  }

  lemma RankedByScoreThenTimeIsPermutation(now: int)
    ensures multiset(RankedByScoreThenTime(now)) == multiset(Unsorted(now))
  {
    var input := Unsorted(now);
    assert RankedByScoreThenTime(now) == [input[1], input[0], input[2], input[3]];
  }

  lemma UnsortedIdsDistinct(now: int)
    ensures DistinctIds(Unsorted(now))
  {
  }

  /** a before b (same score, a newer), then c (lower score), then the unscored d. */
  lemma RelevanceThenRecency(now: int)
    ensures SortNewsItems(Unsorted(now)) == RankedByScoreThenTime(now)
  {
    RankedByScoreThenTimeIsSorted(now);
    RankedByScoreThenTimeIsPermutation(now);
    UnsortedIdsDistinct(now);
    SortIsTheSortedPermutation(Unsorted(now), RankedByScoreThenTime(now));
  }

  /** z, x, y: equal scores and times. */
  function Tied(now: int): seq<NewsItem> {
    [Scored("z", now, Some(2.0)), Scored("x", now, Some(2.0)), Scored("y", now, Some(2.0))]
  }

  function RankedById(now: int): seq<NewsItem> {
    [Scored("x", now, Some(2.0)), Scored("y", now, Some(2.0)), Scored("z", now, Some(2.0))]
  }

  lemma RankedByIdIsSorted(now: int)
    ensures Sorted(RankedById(now))
  {
    assert StrLe("x", "y") && StrLe("y", "z") && StrLe("x", "z");
  }

  lemma RankedByIdIsPermutation(now: int)
    ensures multiset(RankedById(now)) == multiset(Tied(now))
  {
    var input := Tied(now);
    assert RankedById(now) == [input[1], input[2], input[0]];
  }

  lemma TiedIdsDistinct(now: int)
    ensures DistinctIds(Tied(now))
  {
  }

  /** With score and time tied, ids ascend. */
  lemma TiesBrokenById(now: int)
    ensures SortNewsItems(Tied(now)) == RankedById(now)
  {
    RankedByIdIsSorted(now);
    RankedByIdIsPermutation(now);
    TiedIdsDistinct(now);
    SortIsTheSortedPermutation(Tied(now), RankedById(now));
  }
}
