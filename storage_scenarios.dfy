/** The storage examples of the repository's tests, with `now` as a parameter. */
module StorageScenarios {
  import opened Wrappers
  import opened Text
  import opened Models
  import opened Storage

  /** `make_item(id, source, minutes_ago)` */
  function MakeItem(id: string, source: string, now: int, minutesAgo: int): NewsItem {
    NewsItem(id, source, "Title " + id, Some(""), now - minutesAgo * 60)
  }

  /** Two items with different ids are both kept, in the order they were added. */
  lemma AddTwoKeepsBoth(now: int)
    ensures WellFormed(Insert(Insert(Empty, MakeItem("1", "A", now, 0)), MakeItem("2", "A", now, 10)))
    ensures Values(Insert(Insert(Empty, MakeItem("1", "A", now, 0)), MakeItem("2", "A", now, 10))) ==
      [MakeItem("1", "A", now, 0), MakeItem("2", "A", now, 10)]
  {
    var a, b := MakeItem("1", "A", now, 0), MakeItem("2", "A", now, 10);
    InsertAppends(Empty, a);
    InsertAppends(Insert(Empty, a), b);
  }

  /** Adding the same item twice keeps one copy. */
  lemma AddDuplicateKeepsOne(now: int)
    ensures Insert(Insert(Empty, MakeItem("1", "A", now, 0)), MakeItem("1", "A", now, 0)) ==
      Insert(Empty, MakeItem("1", "A", now, 0))
    ensures |Values(Insert(Empty, MakeItem("1", "A", now, 0)))| == 1
  {
    InsertAppends(Empty, MakeItem("1", "A", now, 0));
  }

  /** A batch holding one item twice stores it once and counts it once. */
  lemma AddManySkipsDuplicates(now: int)
    ensures WellFormed(InsertAll(Empty, [MakeItem("dup", "src", now, 0), MakeItem("dup", "src", now, 0)]))
    ensures Values(InsertAll(Empty, [MakeItem("dup", "src", now, 0), MakeItem("dup", "src", now, 0)])) ==
      [MakeItem("dup", "src", now, 0)]
    ensures NewlyAdded(Empty, [MakeItem("dup", "src", now, 0), MakeItem("dup", "src", now, 0)]) == 1
  {
    var item := MakeItem("dup", "src", now, 0);
    var batch := [item, item];
    var once := Insert(Empty, item);
    assert batch[..1] == [item] && batch[..1][..0] == [];
    assert InsertAll(Empty, batch[..1]) == once;
    assert NewlyAdded(Empty, batch[..1]) == 1;
    InsertKeys(Empty, item);
    assert InsertAll(Empty, batch) == once;
    InsertAppends(Empty, item);
  }

  lemma TechCrunchSpellings()
    ensures Lower("TechCrunch") == "techcrunch"
    ensures Lower("techcrunch") == "techcrunch"
    ensures Lower("TECHCRUNCH") == "techcrunch"
  {
  }

  /** The source filter ignores case: both spellings match "TECHCRUNCH". */
  lemma BySourceIgnoresCase(now: int)
    ensures SelectBySource([MakeItem("1", "TechCrunch", now, 0), MakeItem("2", "techcrunch", now, 0)], "TECHCRUNCH") ==
      [MakeItem("1", "TechCrunch", now, 0), MakeItem("2", "techcrunch", now, 0)]
  {
    var xs := [MakeItem("1", "TechCrunch", now, 0), MakeItem("2", "techcrunch", now, 0)];
    TechCrunchSpellings();
    assert FromSource(xs[0], "TECHCRUNCH") && FromSource(xs[1], "TECHCRUNCH");
    assert xs[..1] == [xs[0]] && xs[..1][..0] == [];
    assert SelectBySource(xs[..1], "TECHCRUNCH") == [xs[0]];
  }

  /** A one-hour window drops an item published 61 minutes ago. */
  lemma SinceDropsOldItems(now: int)
    ensures SelectSince([MakeItem("old", "src", now, 61), MakeItem("new", "src", now, 0)], Cutoff(now, 60)) ==
      [MakeItem("new", "src", now, 0)]
  {
    var xs := [MakeItem("old", "src", now, 61), MakeItem("new", "src", now, 0)];
    assert xs[..1] == [xs[0]] && xs[..1][..0] == [];
    assert SelectSince(xs[..1], Cutoff(now, 60)) == [];
  }

  /** The class in use: two adds of one item leave one stored item. */
  method DuplicateAddThroughStore(now: int) returns (stored: seq<NewsItem>)
    ensures stored == [MakeItem("1", "A", now, 0)]
  {
    var store := new NewsStorage();
    var item := MakeItem("1", "A", now, 0);
    store.Add(item);
    store.Add(item);
    stored := store.GetAll();
    AddDuplicateKeepsOne(now);
    InsertAppends(Empty, item);
  }

  /** The class in use: `clear` after two adds leaves nothing to list. */
  method ClearThroughStore(now: int) returns (stored: seq<NewsItem>)
    ensures stored == []
  {
    var store := new NewsStorage();
    store.Add(MakeItem("1", "A", now, 0));
    store.Add(MakeItem("2", "B", now, 0));
    store.Clear();
    stored := store.GetAll();
  }
}
