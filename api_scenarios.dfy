/** The service examples of the repository's tests, on the two sample items. */
module ApiScenarios {
  import opened Wrappers
  import opened Models
  import opened Filtering
  import opened Ranking
  import opened Storage
  import opened Api
  import opened FilteringScenarios

  function SampleBatch(): seq<NewsItem> {
    [SampleOne(), SampleTwo()]
  }

  /** Two relevant items are both kept, stamped, in order. */
  lemma TwoRelevantAccepted(a: NewsItem, b: NewsItem, cfg: Config)
    requires Relevant(a, cfg) && Relevant(b, cfg)
    ensures RelevantStamped([a, b], cfg) == [Stamp(a, cfg), Stamp(b, cfg)]
  {
    var xs := [a, b];
    assert xs[..1] == [a] && xs[..1][..0] == [];
    assert RelevantStamped(xs[..1], cfg) == [Stamp(a, cfg)];
  }

  /** Two items with different ids, added to an empty store, are both listed in order. */
  lemma TwoNewItemsStored(a: NewsItem, b: NewsItem)
    requires a.id != b.id
    ensures WellFormed(InsertAll(Empty, [a, b]))
    ensures Values(InsertAll(Empty, [a, b])) == [a, b]
  {
    var xs := [a, b];
    assert xs[..1] == [a] && xs[..1][..0] == [];
    assert InsertAll(Empty, xs[..1]) == Storage.Insert(Empty, a);
    InsertAppends(Empty, a);
    InsertAppends(Storage.Insert(Empty, a), b);
  }

  /** Of two items with different ids, the higher scored one is listed first. */
  lemma HigherScoreFirst(a: NewsItem, b: NewsItem)
    requires a.id != b.id && ScoreOrZero(b) > ScoreOrZero(a)
    ensures SortNewsItems([a, b]) == [b, a]
  {
    assert Sorted([b, a]);
    assert multiset([b, a]) == multiset([a, b]);
    SortIsTheSortedPermutation([a, b], [b, a]);
  }

  /** The stamped sample items; item "2" carries the higher score. */
  lemma StampedSamples()
    ensures Relevant(SampleOne(), DefaultConfig) && Relevant(SampleTwo(), DefaultConfig)
    ensures Stamp(SampleOne(), DefaultConfig).id == "1" && Stamp(SampleTwo(), DefaultConfig).id == "2"
    ensures ScoreOrZero(Stamp(SampleTwo(), DefaultConfig)) > ScoreOrZero(Stamp(SampleOne(), DefaultConfig))
  {
    SampleItemsRelevantAndOrdered();
  }

  /** Both sample items are relevant, so both are kept, stamped, in order. */
  lemma SampleBatchIsAccepted()
    ensures RelevantStamped(SampleBatch(), DefaultConfig) ==
      [Stamp(SampleOne(), DefaultConfig), Stamp(SampleTwo(), DefaultConfig)]
  {
    StampedSamples();
    TwoRelevantAccepted(SampleOne(), SampleTwo(), DefaultConfig);
  }

  /** The state after the first ingest. */
  function AfterIngest(): Snapshot {
    InsertAll(Empty, [Stamp(SampleOne(), DefaultConfig), Stamp(SampleTwo(), DefaultConfig)])
  }

  /** The first ingest stores both items; retrieving lists "2" before "1". */
  lemma SampleSessionRanked()
    ensures WellFormed(AfterIngest())
    ensures Values(AfterIngest()) == [Stamp(SampleOne(), DefaultConfig), Stamp(SampleTwo(), DefaultConfig)]
    ensures SortNewsItems(Values(AfterIngest())) == [Stamp(SampleTwo(), DefaultConfig), Stamp(SampleOne(), DefaultConfig)]
  {
    StampedSamples();
    TwoNewItemsStored(Stamp(SampleOne(), DefaultConfig), Stamp(SampleTwo(), DefaultConfig));
    HigherScoreFirst(Stamp(SampleOne(), DefaultConfig), Stamp(SampleTwo(), DefaultConfig));
  }

  /** Ingesting the same batch again still stores two items. */
  lemma SampleReingestKeepsTwo()
    ensures InsertAll(AfterIngest(), RelevantStamped(SampleBatch(), DefaultConfig)) == AfterIngest()
    ensures WellFormed(AfterIngest()) && |Values(AfterIngest())| == 2
  {
    SampleBatchIsAccepted();
    ReingestReportsSameAndStoresNothing(Empty, SampleBatch(), DefaultConfig);
    SampleSessionRanked();
  }

  /** The whole session through the handlers: ingest, retrieve, ingest again, reset, and an empty batch. */
  method SampleSession() returns (first: Result<IngestReport, HttpError>, ranked: seq<NewsItem>,
                                  second: Result<IngestReport, HttpError>, stored: nat,
                                  afterReset: seq<NewsItem>, empty: Result<IngestReport, HttpError>)
    ensures first == Success(IngestReport(2, 2)) && second == Success(IngestReport(2, 2))
    ensures ranked == [Stamp(SampleTwo(), DefaultConfig), Stamp(SampleOne(), DefaultConfig)]
    ensures ranked[0].id == "2" && ranked[1].id == "1"
    ensures stored == 2
    ensures afterReset == []
    ensures empty == Failure(NoItems)
  {
    var storage := new NewsStorage();
    SampleBatchIsAccepted();
    first := IngestItems(storage, SampleBatch());
    SampleSessionRanked();
    StampedSamples();
    ranked := RetrieveItems(storage);
    SampleReingestKeepsTwo();
    second := IngestItems(storage, SampleBatch());
    var all := storage.GetAll();
    stored := |all|;
    var _ := ResetStorage(storage);
    afterReset := RetrieveItems(storage);
    empty := IngestItems(storage, []);
  }
}
