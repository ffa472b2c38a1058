/**
 * The handlers of the news service without their HTTP layer: `ingest_items`,
 * `retrieve_items` and `reset_storage`, acting on one shared store and
 * scoring with the default tables.
 */
module Api {
  import opened Wrappers
  import opened Models
  import opened Filtering
  import opened Ranking
  import opened Storage

  /** An `HTTPException`: its status code and detail message. */
  datatype HttpError = HttpError(status: int, detail: string)

  /** The body of a successful `/ingest` answer. */
  datatype IngestReport = IngestReport(accepted: nat, total: nat)

  /** The answer to an empty batch. */
  const NoItems: HttpError := HttpError(400, "No items provided.")

  /**
   * `item.relevance_score = compute_relevance_score(item)`. The handlers use
   * the default tables; the functions that describe them take the tables as
   * a parameter so that their properties hold for any tables.
   */
  function Stamp(item: NewsItem, cfg: Config): NewsItem {
    item.(relevanceScore := Some(Score(item, cfg)))
  }

  /** `is_relevant(item)` with the default threshold. */
  predicate Relevant(item: NewsItem, cfg: Config) {
    Score(item, cfg) >= DefaultThreshold
  }

  /** The list `relevant` that `ingest_items` builds: the relevant items, stamped, in order. */
  function RelevantStamped(items: seq<NewsItem>, cfg: Config): seq<NewsItem> {
    if |items| == 0 then []
    else
      var last := items[|items| - 1];
      RelevantStamped(items[..|items| - 1], cfg) + (if Relevant(last, cfg) then [Stamp(last, cfg)] else [])
  }

  // ---------------------------------------------------------------------
  // The handlers

  /**
   * `ingest_items`: an empty batch is refused with status 400 and the store
   * is left alone; otherwise the relevant items are stamped with their score
   * and added, and the answer counts them against the batch size.
   */
  method IngestItems(storage: NewsStorage, items: seq<NewsItem>) returns (r: Result<IngestReport, HttpError>)
    requires storage.Valid()
    modifies storage
    ensures storage.Valid()
    ensures |items| == 0 ==> r == Failure(NoItems) && storage.State() == old(storage.State())
    ensures |items| > 0 ==>
      r == Success(IngestReport(|RelevantStamped(items, DefaultConfig)|, |items|)) &&
      storage.State() == InsertAll(old(storage.State()), RelevantStamped(items, DefaultConfig))
  {
    if |items| == 0 {
      return Failure(NoItems);
    }
    var relevant: seq<NewsItem> := [];
    for i := 0 to |items|
      invariant relevant == RelevantStamped(items[..i], DefaultConfig)
      invariant storage.State() == old(storage.State())
    {
      var item := items[i];
      assert items[..i + 1][..i] == items[..i];
      var keep := IsRelevant(item, DefaultConfig);
      if keep {
        var score := ComputeRelevanceScore(item, DefaultConfig);
        relevant := relevant + [item.(relevanceScore := Some(score))];
      }
    }
    assert items[..|items|] == items;
    var _ := storage.AddMany(relevant);
    r := Success(IngestReport(|relevant|, |items|));
  }

  /** `retrieve_items`: the stored items, ranked. */
  method RetrieveItems(storage: NewsStorage) returns (r: seq<NewsItem>)
    requires storage.Valid()
    ensures r == SortNewsItems(Values(storage.State()))
  {
    var all := storage.GetAll();
    r := SortNewsItems(all);
  }

  /** `reset_storage`: empties the store and answers with the status "cleared". */
  method ResetStorage(storage: NewsStorage) returns (status: string)
    modifies storage
    ensures storage.Valid() && storage.State() == Empty
    ensures status == "cleared"
  {
    storage.Clear();
    status := "cleared";
  }

  // ---------------------------------------------------------------------
  // What the handlers promise

  /** `accepted <= total`. */
  lemma {:induction false} AcceptedAtMostTotal(items: seq<NewsItem>, cfg: Config)
    ensures |RelevantStamped(items, cfg)| <= |items|
  {
    if |items| > 0 {
      AcceptedAtMostTotal(items[..|items| - 1], cfg);
    }
  }

  /** The positions of the batch whose item is relevant. */
  function RelevantPositions(items: seq<NewsItem>, cfg: Config): set<int> {
    set i | 0 <= i < |items| && Relevant(items[i], cfg)
  }

  /** `accepted` is the number of items of the batch that score at least the threshold. */
  lemma {:induction false} AcceptedCountsRelevantItems(items: seq<NewsItem>, cfg: Config)
    ensures |RelevantStamped(items, cfg)| == |RelevantPositions(items, cfg)|
  {
    if |items| > 0 {
      var n := |items| - 1;
      AcceptedCountsRelevantItems(items[..n], cfg);
      RelevantPositionsSnoc(items, cfg);
    }
  }

  /** The relevant positions of a batch are those of all but its last item, and perhaps the last one. */
  lemma RelevantPositionsSnoc(items: seq<NewsItem>, cfg: Config)
    requires |items| > 0
    ensures |items| - 1 !in RelevantPositions(items[..|items| - 1], cfg)
    ensures RelevantPositions(items, cfg)
         == RelevantPositions(items[..|items| - 1], cfg) + (if Relevant(items[|items| - 1], cfg) then {|items| - 1} else {})
  {
    var n := |items| - 1;
    var init := items[..n];
    forall i | 0 <= i < n ensures init[i] == items[i] {}
  }

  /** The items handed to `add_many` are exactly the relevant items of the batch, stamped. */
  lemma {:induction false} RelevantStampedExact(items: seq<NewsItem>, x: NewsItem, cfg: Config)
    ensures x in RelevantStamped(items, cfg) <==> exists i :: 0 <= i < |items| && Relevant(items[i], cfg) && x == Stamp(items[i], cfg)
  {
    if |items| > 0 {
      var init := items[..|items| - 1];
      RelevantStampedExact(init, x, cfg);
      if exists i :: 0 <= i < |init| && Relevant(init[i], cfg) && x == Stamp(init[i], cfg) {
        var i :| 0 <= i < |init| && Relevant(init[i], cfg) && x == Stamp(init[i], cfg);
        assert items[i] == init[i];
      }
      if exists i :: 0 <= i < |items| && Relevant(items[i], cfg) && x == Stamp(items[i], cfg) {
        var i :| 0 <= i < |items| && Relevant(items[i], cfg) && x == Stamp(items[i], cfg);
        if i < |init| { assert init[i] == items[i]; }
      }
    }
  }

  /** Every item handed to `add_many` carries its own score, and that score reaches the threshold. */
  lemma StampedItemsCarryTheirScore(items: seq<NewsItem>, x: NewsItem, cfg: Config)
    requires x in RelevantStamped(items, cfg)
    ensures x.relevanceScore == Some(Score(x, cfg))
    ensures Score(x, cfg) >= DefaultThreshold
  {
    RelevantStampedExact(items, x, cfg);
    var i :| 0 <= i < |items| && Relevant(items[i], cfg) && x == Stamp(items[i], cfg);
    ScoreIgnoresStamp(items[i], cfg, Some(Score(items[i], cfg)));
  }

  /** An ingest stores nothing irrelevant: every entry it creates is a stamped relevant item of the batch. */
  lemma IngestStoresOnlyRelevant(s: Snapshot, items: seq<NewsItem>, k: string, cfg: Config)
    requires k in InsertAll(s, RelevantStamped(items, cfg)).store && k !in s.store
    ensures InsertAll(s, RelevantStamped(items, cfg)).store[k].relevanceScore.Some?
    ensures InsertAll(s, RelevantStamped(items, cfg)).store[k].relevanceScore.value >= DefaultThreshold
  {
    var x := InsertAll(s, RelevantStamped(items, cfg)).store[k];
    InsertAllAddsOnlyBatchItems(s, RelevantStamped(items, cfg), k);
    StampedItemsCarryTheirScore(items, x, cfg);
  }

  /**
   * Ingesting the same batch again answers with the same counts (`accepted`
   * counts relevant items, stored or not) and leaves the store as it was.
   */
  lemma ReingestReportsSameAndStoresNothing(s: Snapshot, items: seq<NewsItem>, cfg: Config)
    ensures InsertAll(InsertAll(s, RelevantStamped(items, cfg)), RelevantStamped(items, cfg)) == InsertAll(s, RelevantStamped(items, cfg))
    ensures NewlyAdded(InsertAll(s, RelevantStamped(items, cfg)), RelevantStamped(items, cfg)) == 0
  {
    RepeatedBatchIsNoOp(s, RelevantStamped(items, cfg));
  }

  /** `retrieve_items` lists what is stored, each item once, ranked. */
  lemma RetrieveListsTheStoreRanked(s: Snapshot)
    requires WellFormed(s)
    ensures |SortNewsItems(Values(s))| == |s.store|
    ensures forall k :: k in s.store ==> s.store[k] in SortNewsItems(Values(s))
    ensures forall x :: x in SortNewsItems(Values(s)) ==> x.id in s.store && s.store[x.id] == x
    ensures Sorted(SortNewsItems(Values(s)))
  {
    ValuesAreTheStore(s);
    var r := SortNewsItems(Values(s));
    assert |r| == |multiset(r)| == |multiset(Values(s))| == |Values(s)|;
    forall x | x in r ensures x in Values(s) {
      assert x in multiset(r);
    }
    forall k | k in s.store ensures s.store[k] in r {
      assert s.store[k] in multiset(Values(s));
    }
  }

  /** Since ids are unique in the store, the ranking does not depend on the order of insertion. */
  lemma RetrieveIgnoresInsertionOrder(s: Snapshot, t: Snapshot)
    requires WellFormed(s) && WellFormed(t) && s.store == t.store
    ensures SortNewsItems(Values(s)) == SortNewsItems(Values(t))
  {
    ValuesAreTheStore(s);
    ValuesAreTheStore(t);
    SameStoreSameValues(s, t);
    SortIgnoresInputOrder(Values(s), Values(t));
  }

  /** Two states with one map list the same items, perhaps in another order. */
  lemma SameStoreSameValues(s: Snapshot, t: Snapshot)
    requires WellFormed(s) && WellFormed(t) && s.store == t.store
    ensures multiset(Values(s)) == multiset(Values(t))
  {
    ValuesAreTheStore(s);
    ValuesAreTheStore(t);
    DistinctMultiset(Values(s), Values(t));
  }

  /** In a duplicate-free sequence every element occurs once. */
  lemma {:induction false} DistinctOccursOnce(a: seq<NewsItem>, x: NewsItem)
    requires DistinctIds(a)
    ensures multiset(a)[x] == if x in a then 1 else 0
  {
    if |a| > 0 {
      DistinctIdsTail(a);
      DistinctOccursOnce(a[1..], x);
      assert a == [a[0]] + a[1..];
      if a[0] == x {
        forall k | 0 <= k < |a[1..]| ensures a[1..][k] != x {
          assert a[1..][k] == a[k + 1];
        }
      }
    }
  }

  /** Two duplicate-free sequences with the same elements are permutations of each other. */
  lemma DistinctMultiset(a: seq<NewsItem>, b: seq<NewsItem>)
    requires DistinctIds(a) && DistinctIds(b)
    requires forall x :: x in a <==> x in b
    ensures multiset(a) == multiset(b)
  {
    forall x ensures multiset(a)[x] == multiset(b)[x] {
      DistinctOccursOnce(a, x);
      DistinctOccursOnce(b, x);
    }
  }
}
