# Cybersecurity news relevance service — a Dafny model

This project models the core of a small news service. The service takes
batches of IT and security news items. It scores each item for relevance
from weighted keywords, regular-expression bonus patterns and a per-source
weight. It keeps the items that reach a threshold in an in-memory store
keyed by id, where the first write wins. It lists the stored items ranked by
score, then recency, then id.

The modules follow the program:

- `Models`: the `NewsItem` record.
- `Filtering`: `compute_relevance_score` and `is_relevant`, with the default
  tables. `Patterns` holds the three regular-expression shapes the bonus
  table uses, searched with IGNORECASE.
- `Ranking`: `sort_news_items`, a stable sort on the key
  (-score, -timestamp, id).
- `Storage`: the `NewsStorage` class. Its state is a `Snapshot`: the
  dictionary and the insertion order of its keys, which `get_all` follows.
- `Api`: the handlers `ingest_items`, `retrieve_items` and `reset_storage`,
  with the store passed in.
- `Text` and `Wrappers`: ASCII lower-casing, substring search, Python's
  string order, `Option` and `Result`.

The scoring loops (`AddKeywordWeights`, `AddPatternBonuses`), the class
methods and the handlers are methods. Each is proved against a
specification function (`KeywordSum`, `PatternSum`, `Score`, `Insert`,
`InsertAll`, `SelectBySource`, `SelectSince`, `SortNewsItems`,
`RelevantStamped`). The lemmas then state what those functions mean.

Scores are `real`. Timestamps are integer seconds since the Unix epoch, and
the current time is a parameter. `FilteringScenarios`, `RankingScenarios`,
`StorageScenarios` and `ApiScenarios` restate the examples of the
repository's tests on the model.

Two features of the code are worth knowing:

- The scorer lower-cases the content before it looks up keywords. The
  keyword `"CVE"` holds upper-case letters, so it can never match
  (`UpperKeywordNeverMatches`, `CveKeywordIsInert`). The model keeps the
  table as written. Only the regular-expression bonus, which ignores case,
  rewards CVE identifiers.
- An empty batch makes `ingest_items` raise status 400 ("No items
  provided."), and the model follows that code.
  `tests/test_app.py:45-49` expects status 200 with zero counts instead.

## Model

| member | source | states |
|---|---|---|
| Filtering.ComputeRelevanceScore | app/filtering.py:41-64 | the returned score is the keyword sum plus the pattern sum of the lower-cased "title body" content, times the weight of the lower-cased source (1.0 when unlisted) |
| Filtering.AddKeywordWeights | app/filtering.py:49-52 | the keyword loop adds exactly the weights of the table entries whose keyword is a substring of the content |
| Filtering.AddPatternBonuses | app/filtering.py:55-58 | the pattern loop adds exactly the bonuses of the patterns that `re.search` finds in the content |
| Filtering.IsRelevant | app/filtering.py:67-74 | relevant exactly when the score is at least the threshold, which is inclusive and 2.0 by default |
| Filtering.KeywordSumIsMatchedTotal | app/filtering.py:49-52 | the keyword part is the total weight of the list of matched keywords: each occurring keyword counts once, however often it appears |
| Filtering.PatternSumIsMatchedTotal | app/filtering.py:55-58 | the pattern part is the total bonus of the list of matching patterns |
| Filtering.TotalAppend | app/filtering.py:49-58 | the total of two concatenated entry lists is the sum of their totals |
| Filtering.KeywordSumAppend | app/filtering.py:49-52 | keyword contributions are independent: the sum over two tables joined is the sum of their sums |
| Filtering.KeywordSumDependsOnlyOnMatches | app/filtering.py:49-52 | two contents in which the same keywords occur give the same keyword sum |
| Filtering.KeywordSumNonNegative | app/filtering.py:10-22 | with non-negative weights, as in the default table, the keyword sum is non-negative |
| Filtering.KeywordSumAtLeast | app/filtering.py:49-52 | with non-negative weights, one occurring keyword bounds the sum from below by its weight |
| Filtering.KeywordSumAtLeastPair | app/filtering.py:49-52 | with non-negative weights, two occurring keywords bound the sum from below by their total weight |
| Filtering.PatternSumNonNegative | app/filtering.py:25-30 | with non-negative bonuses the pattern sum is non-negative |
| Filtering.KeywordSumNoneMatch | app/filtering.py:49-52 | when no keyword occurs, the keyword sum is 0 |
| Filtering.PatternSumNoneMatch | app/filtering.py:55-58 | when no pattern matches, the pattern sum is 0 |
| Filtering.ScoreZeroWhenNothingMatches | app/filtering.py:41-64 | an item in which no keyword occurs and no pattern matches has base score 0 and score 0, whatever its source |
| Filtering.BaseScoreAtLeastOne | app/filtering.py:46-58 | with non-negative tables, one occurring keyword bounds the base score from below |
| Filtering.BaseScoreAtLeastPair | app/filtering.py:46-58 | with non-negative tables, two occurring keywords bound the base score from below by their total |
| Filtering.PatternSumIgnoresCase | app/filtering.py:56 | IGNORECASE: the bonuses for a text equal those for its lower-cased form |
| Filtering.UpperKeywordNeverMatches | app/filtering.py:45-50 | a keyword containing an upper-case letter never occurs in the lower-cased content |
| Filtering.CveKeywordIsInert | app/filtering.py:13 | the default table scores every item exactly as it would without its "CVE" entry |
| Filtering.MissingBodyScoresAsEmpty | app/filtering.py:45 | `body or ''`: an item without a body scores the same as one with an empty body |
| Filtering.ScoreIgnoresStamp | app/filtering.py:41-64 | the score does not depend on a relevance score already stamped on the item |
| Filtering.SourceWeightIgnoresCase | app/filtering.py:61 | two source names equal after lower-casing get the same weight, which is the weight of the lower-cased name |
| Filtering.DefaultSourceWeightsLookup | app/filtering.py:33-38 | arstechnica 1.2, tomshardware 1.1, reddit and mock 1.0 in any letter case, and 1.0 for every unlisted source |
| Filtering.AddKeywordEffect | app/filtering.py:49-52 | a new keyword entry raises the base score by its weight when it occurs and changes nothing otherwise; the source weight stays the same |
| Filtering.AddKeywordMonotone | app/filtering.py:49-52 | a new keyword with a non-negative weight never lowers the base score |
| Filtering.ScaleSourceWeight | app/filtering.py:61-62 | scaling the weight of the item's source by f scales its final score by f |
| Patterns.SearchIgnoresCase | app/filtering.py:56 | each bonus pattern matches a text exactly when it matches the lower-cased text |
| Patterns.SearchNeedsLiterals | app/filtering.py:25-30 | a match of a bonus pattern contains each of the pattern's literal words, lower-cased |
| Patterns.CveMatchesLowercase | app/filtering.py:26 | the upper-case CVE pattern matches "cve-2025-12345" as well as "CVE-2025-12345" |
| Patterns.LowerKeepsBoundary | app/filtering.py:27-29 | lower-casing keeps every word boundary `\b` in place |
| Patterns.LiteralShowsInLowered | app/filtering.py:56 | where a literal matches ignoring case, its lower-cased form is a substring of the lower-cased text |
| Text.LowerIdempotent | app/filtering.py:61 | lower-casing twice is the same as lower-casing once |
| Text.LowerConcat | app/filtering.py:45 | lower-casing distributes over concatenation |
| Text.UpperKeyNeverInLowered | app/filtering.py:45-50 | a key containing an upper-case letter is never a substring of a lower-cased text |
| Text.StrLeTotal | app/ranking.py:15 | Python's string order is total |
| Text.StrLeTransitive | app/ranking.py:15 | Python's string order is transitive |
| Text.StrLeAntisymmetric | app/ranking.py:15 | Python's string order is antisymmetric |
| Ranking.SortNewsItems | app/ranking.py:3-17 | the result is a permutation of the input that is sorted by the key (score descending with None as 0, then timestamp descending, then id ascending) |
| Ranking.InsertInOrder | app/ranking.py:10-17 | inserting an item adds exactly that item to the multiset |
| Ranking.InsertSorted | app/ranking.py:10-17 | inserting into a sorted list keeps it sorted |
| Ranking.KeyLeTotal | app/ranking.py:12-16 | the tuple order on keys is total |
| Ranking.KeyLeTransitive | app/ranking.py:12-16 | the tuple order on keys is transitive |
| Ranking.KeyLeAntisymmetric | app/ranking.py:12-16 | two keys each at or below the other are equal |
| Ranking.KeyLeReflexive | app/ranking.py:12-16 | every key is at or below itself |
| Ranking.SortIsStable | app/ranking.py:10-17 | `sorted` is stable: the items with any given key appear in the output in their input order |
| Ranking.InsertWithKey | app/ranking.py:10-17 | inserting an item puts it before the items of its own key and leaves the items of other keys as they were |
| Ranking.SortIdempotent | app/ranking.py:10-17 | sorting a sorted list returns it unchanged |
| Ranking.SortTwiceIsSortOnce | app/ranking.py:10-17 | sorting twice is sorting once |
| Ranking.SortedArrangementUnique | app/ranking.py:12-16 | with distinct ids, two sorted arrangements of the same items are identical |
| Ranking.SortKeepsDistinctIds | app/ranking.py:10-17 | sorting keeps ids distinct |
| Ranking.SortIgnoresInputOrder | app/ranking.py:10-17 | with distinct ids, any two orderings of the same items sort to the same list |
| Ranking.SortIsTheSortedPermutation | app/ranking.py:10-17 | with distinct ids, any sorted permutation of the input is the output of the sort |
| Ranking.SortedScoresDescend | app/ranking.py:13 | scores, with a missing one read as 0, never increase along the output |
| Ranking.UnscoredBelowPositive | app/ranking.py:13 | nothing after an unscored item has a positive score |
| Ranking.NewerFirstOnEqualScore | app/ranking.py:14 | among equally scored items, the more recent comes first |
| Ranking.IdsAscendOnTies | app/ranking.py:15 | among items equal in score and time, ids ascend |
| Storage.NewsStorage.constructor | app/storage.py:14-21 | a new store is empty and well formed |
| Storage.NewsStorage.Add | app/storage.py:23-30 | the new state is the old one with the item inserted when its id was absent, and unchanged otherwise |
| Storage.NewsStorage.AddMany | app/storage.py:32-41 | the new state is the old one with the batch inserted item by item, and the count is the number of items whose id was absent at their turn |
| Storage.NewsStorage.GetAll | app/storage.py:43-46 | returns the stored items in key-insertion order |
| Storage.NewsStorage.GetBySource | app/storage.py:48-50 | returns the stored items whose source equals the given one ignoring case, in insertion order |
| Storage.NewsStorage.GetSince | app/storage.py:52-55 | returns the stored items published at or after now minus the given minutes, in insertion order |
| Storage.NewsStorage.Clear | app/storage.py:57-61 | the store is empty afterwards |
| Storage.KeepFromSource | app/storage.py:50 | the comprehension keeps the values whose source matches ignoring case, in order |
| Storage.KeepSince | app/storage.py:55 | the comprehension keeps the values published at or after the cutoff, in order |
| Storage.Values | app/storage.py:46 | lists one value per key in the insertion order |
| Storage.InsertKeys | app/storage.py:25-26 | first write wins: `add` adds the id as a key, never overwrites an entry, stores the item under a new id, and changes nothing for a known id |
| Storage.InsertWellFormed | app/storage.py:25-26 | `add` keeps every key mapped to an item with that id, with each key listed once in the order |
| Storage.InsertAppends | app/storage.py:26 | a new item goes to the end of `get_all` |
| Storage.InsertAllKeys | app/storage.py:35-38 | after `add_many`, the keys are the old keys plus every id of the batch, and no existing entry has changed |
| Storage.InsertAllWellFormed | app/storage.py:35-38 | `add_many` keeps the store well formed |
| Storage.InsertAllFirstOccurrenceWins | app/storage.py:35-38 | an id new to the store ends up holding the first item of the batch that carries it |
| Storage.InsertAllAddsOnlyBatchItems | app/storage.py:35-38 | every entry `add_many` creates holds an item of the batch |
| Storage.NewlyAddedIsGrowth | app/storage.py:34-38 | `newly_added` equals the growth of the store |
| Storage.NewlyAddedCountsNewIds | app/storage.py:34-38 | `newly_added` is the number of distinct batch ids that the store lacked |
| Storage.InsertAllOfKnownIds | app/storage.py:35-38 | when the store holds every id of the batch, `add_many` changes nothing and counts 0 |
| Storage.RepeatedBatchIsNoOp | app/storage.py:35-38 | adding the same batch a second time changes nothing and counts 0 |
| Storage.InsertAllKeepsOrderPrefix | app/storage.py:35-38 | `add_many` only appends: the items listed before keep their places |
| Storage.ValuesAreTheStore | app/storage.py:43-46 | `get_all` lists every stored item exactly once, with distinct ids, and nothing else |
| Storage.SelectBySourceExact | app/storage.py:50 | an item is in the result exactly when it is in the input and its source matches ignoring case |
| Storage.SelectSinceExact | app/storage.py:55 | an item is in the result exactly when it is in the input and was published at or after the cutoff |
| Storage.SelectSinceShrinks | app/storage.py:52-55 | a shorter window returns a subset of what a longer one returns |
| Api.IngestItems | app/api.py:12-27 | an empty batch is refused with 400 "No items provided." and leaves the store alone; otherwise the relevant items, stamped with their score and in batch order, are added, and the answer is (number of relevant items, batch size) |
| Api.RetrieveItems | app/api.py:29-35 | returns the stored items ranked by `sort_news_items` |
| Api.ResetStorage | app/api.py:37-40 | the store is empty afterwards and the status is "cleared" |
| Api.AcceptedAtMostTotal | app/api.py:27 | accepted is never more than total |
| Api.AcceptedCountsRelevantItems | app/api.py:20-27 | accepted is the number of positions of the batch whose item scores at least the threshold |
| Api.RelevantPositionsSnoc | app/api.py:21-24 | the relevant positions of a batch are those of all but its last item, plus the last one when it is relevant |
| Api.RelevantStampedExact | app/api.py:20-24 | an item is handed to `add_many` exactly when it is a relevant item of the batch stamped with its score |
| Api.StampedItemsCarryTheirScore | app/api.py:22-23 | every item handed to `add_many` carries its own score, and that score reaches the threshold |
| Api.IngestStoresOnlyRelevant | app/api.py:20-26 | every entry an ingest creates carries a score of at least the threshold |
| Api.ReingestReportsSameAndStoresNothing | app/api.py:20-27 | ingesting the same batch again leaves the store as it was and adds 0 items |
| Api.RetrieveListsTheStoreRanked | app/api.py:29-35 | the ranked list has one entry per stored item, holds exactly the stored items, and is sorted |
| Api.RetrieveIgnoresInsertionOrder | app/api.py:29-35 | the ranking depends only on the stored map, not on the order of insertion |
| Api.SameStoreSameValues | app/storage.py:43-46 | two well-formed states with one map list the same items |
| Api.DistinctMultiset | app/ranking.py:10-17 | two duplicate-free lists with the same elements are permutations of each other |
| FilteringScenarios.HighRelevanceScoresAboveFive | tests/test_filtering.py:8-15 | the zero-day Exchange item from arstechnica scores above 5 and is relevant |
| FilteringScenarios.LowRelevanceScoresZero | tests/test_filtering.py:18-25 | the terms-of-service item from reddit scores 0, below 2, and is not relevant |
| FilteringScenarios.CriticalVulnerabilityIsRelevant | tests/test_app.py:101-114 | "Critical vulnerability, need quick fix." from Source A scores above 0 and is relevant |
| FilteringScenarios.SampleOneScoresFive | tests/test_app.py:21-27 | the Apple patch item scores exactly 5 |
| FilteringScenarios.SampleTwoScoresAtLeastEight | tests/test_app.py:28-34 | the Edge zero-day item scores at least 8 |
| FilteringScenarios.SampleItemsRelevantAndOrdered | tests/test_app.py:18-35 | both sample items are relevant, and item "2" outscores item "1" |
| FilteringScenarios.ScenarioSourceWeights | app/filtering.py:61 | arstechnica weighs 1.2; reddit, Source A and Source B weigh 1.0 |
| FilteringScenarios.PatternRuledOut | app/filtering.py:55-58 | a text lacking one of a pattern's literal words does not match the pattern |
| RankingScenarios.RelevanceThenRecency | tests/test_ranking.py:6-23 | b, a, c, d sort to a, b, c, d |
| RankingScenarios.TiesBrokenById | tests/test_ranking.py:25-36 | z, x, y with equal scores and times sort to x, y, z |
| StorageScenarios.AddTwoKeepsBoth | tests/test_storage.py:18-25 | two items with different ids are both listed, in the order added |
| StorageScenarios.AddDuplicateKeepsOne | tests/test_storage.py:27-33 | adding an item twice keeps one copy |
| StorageScenarios.AddManySkipsDuplicates | tests/test_storage.py:35-40 | a batch holding one item twice stores and counts it once |
| StorageScenarios.BySourceIgnoresCase | tests/test_storage.py:42-50 | "TechCrunch" and "techcrunch" both match "TECHCRUNCH" |
| StorageScenarios.SinceDropsOldItems | tests/test_storage.py:52-60 | a 60-minute window drops the item from 61 minutes ago and keeps the new one |
| StorageScenarios.DuplicateAddThroughStore | tests/test_storage.py:27-33 | two adds of one item through the class leave one stored item |
| StorageScenarios.ClearThroughStore | tests/test_storage.py:62-68 | clearing after two adds leaves nothing to list |
| ApiScenarios.SampleBatchIsAccepted | tests/test_app.py:39-43 | both sample items are kept, stamped, in order |
| ApiScenarios.SampleSessionRanked | tests/test_app.py:69-80 | after the first ingest, two items are stored, and retrieval lists "2" before "1" |
| ApiScenarios.SampleReingestKeepsTwo | tests/test_app.py:58-65 | ingesting the samples again still leaves two stored items |
| ApiScenarios.HigherScoreFirst | app/ranking.py:13 | of two items with different ids, the higher scored one is listed first |
| ApiScenarios.SampleSession | tests/test_app.py:39-95 | through the handlers: ingest answers (2, 2) twice, retrieval gives "2" then "1", two items stay stored, reset empties the store, and an empty batch is refused |

## Left out

- Persistence: `save_to_file`, `load_from_file` (app/storage.py:63-81) and the persistence-file path. The constructor's call to `load_from_file` is modelled as starting empty. Both involve file I/O and JSON.
- Locking: the `Lock` around every storage method. The model is single-threaded.
- Logging: every `logger` call. Logging has no effect on results.
- The FastAPI layer: routing, request parsing, pydantic validation (the 422 answer for a malformed item, `extra="forbid"`), and leaving `relevance_score` out of responses (`exclude=True`). Handlers take and return values.
- Regular expressions: only the three shapes of the default bonus table are modelled (`CVE-\d{4}-\d+`, `\bA\b.*\bB\b` and `\bA\s+B\b`), with ASCII character classes. A general regex engine is out of scope.
- Lower-casing is modelled for ASCII only. Python's `str.lower` also maps other Unicode letters.
- Floating point: scores and weights are exact reals. Weights such as 1.2 therefore have no rounding.
- Time: `published_at` is integer seconds since the Unix epoch. `datetime.now` becomes a parameter of `GetSince`. `timestamp()` on naive datetimes is not modelled.
- app/ingestion.py is not part of this model.
- Mutation and aliasing: `ingest_items` writes `relevance_score` into the caller's item objects. The model builds stamped copies, so aliasing between the request list and the store is not captured.
- Storage.NewsStorage.AddMany: the source returns None. The model also returns `newly_added`, the count the source logs.
- Filtering.AddKeywordEffect: stated for the base score. Its effect on the final score is the base score times the unchanged source weight (`ScoreFromParts`, a helper lemma).
- Filtering.AddKeywordMonotone: stated for the base score, for the same reason.
- The source weights are a dictionary, so the `Config` table holds them as a map. The keyword table is a sequence in dictionary order, and order does not change the sum (`KeywordSumAppend`).
- The test texts are written as lists of words joined by single spaces. Each one spells out the test's exact string.
