/**
 * `NewsStorage`: a dictionary from item id to item, written first-write-wins.
 * Python dictionaries remember the order in which keys were first inserted,
 * and `get_all` returns the values in that order, so the state is the map
 * together with the insertion order of its keys.
 */
module Storage {
  import opened Wrappers
  import opened Text
  import opened Models

  /** The contents of `_store`: the map and the insertion order of its keys. */
  datatype Snapshot = Snapshot(store: map<string, NewsItem>, order: seq<string>)

  /** Every key is the id of the item stored under it, and `order` lists each key once. */
  predicate WellFormed(s: Snapshot) {
    (forall k :: k in s.store ==> s.store[k].id == k) &&
    (forall i :: 0 <= i < |s.order| ==> s.order[i] in s.store) &&
    (forall k :: k in s.store ==> k in s.order) &&
    (forall i, j :: 0 <= i < j < |s.order| ==> s.order[i] != s.order[j]) &&
    |s.order| == |s.store|
  }

  const Empty: Snapshot := Snapshot(map[], [])

  /** `list(self._store.values())`: the stored items, in insertion order. */
  function Values(s: Snapshot): (r: seq<NewsItem>)
    requires WellFormed(s)
    ensures |r| == |s.order|
  {
    seq(|s.order|, i requires 0 <= i < |s.order| => s.store[s.order[i]])
  }

  /** `add(item)`: stores `item` only when its id is not yet a key. */
  function Insert(s: Snapshot, item: NewsItem): Snapshot {
    if item.id in s.store then s else Snapshot(s.store[item.id := item], s.order + [item.id])
  }

  /** The state after `add_many(items)`: the items inserted one after another. */
  function InsertAll(s: Snapshot, items: seq<NewsItem>): Snapshot {
    if |items| == 0 then s
    else Insert(InsertAll(s, items[..|items| - 1]), items[|items| - 1])
  }

  /** `newly_added`: how many items of the batch found their id absent when their turn came. */
  function NewlyAdded(s: Snapshot, items: seq<NewsItem>): nat {
    if |items| == 0 then 0
    else
      var before := InsertAll(s, items[..|items| - 1]);
      NewlyAdded(s, items[..|items| - 1]) + (if items[|items| - 1].id in before.store then 0 else 1)
  }

  /** The ids of a batch. */
  function Ids(items: seq<NewsItem>): set<string> {
    set i | 0 <= i < |items| :: items[i].id
  }

  /** `item.source.lower() == source.lower()` */
  predicate FromSource(item: NewsItem, source: string) {
    Lower(item.source) == Lower(source)
  }

  /** The comprehension of `get_by_source`: the items from `source`, in order. */
  function SelectBySource(xs: seq<NewsItem>, source: string): seq<NewsItem> {
    if |xs| == 0 then []
    else SelectBySource(xs[..|xs| - 1], source) + (if FromSource(xs[|xs| - 1], source) then [xs[|xs| - 1]] else [])
  }

  /** `datetime.now(timezone.utc) - timedelta(minutes=minutes_ago)`, in epoch seconds. */
  function Cutoff(now: int, minutesAgo: int): int {
    now - minutesAgo * 60
  }

  /** The comprehension of `get_since`: the items published at or after `cutoff`, in order. */
  function SelectSince(xs: seq<NewsItem>, cutoff: int): seq<NewsItem> {
    if |xs| == 0 then []
    else SelectSince(xs[..|xs| - 1], cutoff) + (if xs[|xs| - 1].publishedAt >= cutoff then [xs[|xs| - 1]] else [])
  }

  // ---------------------------------------------------------------------
  // One insertion

  /** `add` is first-write-wins: it adds the id as a key and never overwrites an entry. */
  lemma InsertKeys(s: Snapshot, item: NewsItem)
    ensures Insert(s, item).store.Keys == s.store.Keys + {item.id}
    ensures forall k :: k in s.store ==> Insert(s, item).store[k] == s.store[k]
    ensures item.id in s.store ==> Insert(s, item) == s
    ensures item.id !in s.store ==> Insert(s, item).store[item.id] == item
  {
  }

  /** `add` keeps the invariant. */
  lemma InsertWellFormed(s: Snapshot, item: NewsItem)
    requires WellFormed(s)
    ensures WellFormed(Insert(s, item))
  {
    if item.id !in s.store {
      assert item.id !in s.order;
      assert |s.store[item.id := item]| == |s.store| + 1;
    }
  }

  /** A new item goes to the end of the insertion order. */
  lemma InsertAppends(s: Snapshot, item: NewsItem)
    requires WellFormed(s) && item.id !in s.store
    ensures WellFormed(Insert(s, item))
    ensures Values(Insert(s, item)) == Values(s) + [item]
  {
    InsertWellFormed(s, item);
    var t := Insert(s, item);
    assert t.order == s.order + [item.id];
    forall i | 0 <= i < |s.order| ensures Values(t)[i] == Values(s)[i] {
      assert t.order[i] == s.order[i] && s.order[i] != item.id;
    }
  }

  // ---------------------------------------------------------------------
  // A batch

  lemma IdsOfPrefix(items: seq<NewsItem>)
    requires |items| > 0
    ensures Ids(items) == Ids(items[..|items| - 1]) + {items[|items| - 1].id}
  {
    var init := items[..|items| - 1];
    forall k | k in Ids(items) ensures k in Ids(init) + {items[|items| - 1].id} {
      var i :| 0 <= i < |items| && items[i].id == k;
      if i < |items| - 1 { assert init[i] == items[i]; }
    }
    forall k | k in Ids(init) ensures k in Ids(items) {
      var i :| 0 <= i < |init| && init[i].id == k;
      assert items[i] == init[i];
    }
  }

  /** After `add_many`, the keys are the old keys plus every id of the batch, and no existing entry has changed. */
  lemma {:induction false} InsertAllKeys(s: Snapshot, items: seq<NewsItem>)
    ensures InsertAll(s, items).store.Keys == s.store.Keys + Ids(items)
    ensures forall k :: k in s.store ==> InsertAll(s, items).store[k] == s.store[k]
  {
    if |items| > 0 {
      var init := items[..|items| - 1];
      InsertAllKeys(s, init);
      InsertKeys(InsertAll(s, init), items[|items| - 1]);
      IdsOfPrefix(items);
    }
  }

  /** `add_many` keeps the invariant. */
  lemma {:induction false} InsertAllWellFormed(s: Snapshot, items: seq<NewsItem>)
    requires WellFormed(s)
    ensures WellFormed(InsertAll(s, items))
  {
    if |items| > 0 {
      var init := items[..|items| - 1];
      InsertAllWellFormed(s, init);
      InsertWellFormed(InsertAll(s, init), items[|items| - 1]);
    }
  }

  /**
   * First occurrence wins: an id new to the store ends up holding the first
   * item of the batch that carries it.
   */
  lemma {:induction false} InsertAllFirstOccurrenceWins(s: Snapshot, items: seq<NewsItem>, j: int)
    requires 0 <= j < |items| && items[j].id !in s.store
    requires forall i :: 0 <= i < j ==> items[i].id != items[j].id
    ensures items[j].id in InsertAll(s, items).store
    ensures InsertAll(s, items).store[items[j].id] == items[j]
  {
    var n := |items|;
    var init := items[..n - 1];
    InsertKeys(InsertAll(s, init), items[n - 1]);
    if j == n - 1 {
      forall i | 0 <= i < |init| ensures init[i].id != items[j].id {
        assert init[i] == items[i];
      }
      assert items[j].id !in Ids(init);
      InsertAllKeys(s, init);
    } else {
      assert init[j] == items[j];
      InsertAllFirstOccurrenceWins(s, init, j);
    }
  }

  /** Every entry `add_many` creates holds an item of the batch. */
  lemma {:induction false} InsertAllAddsOnlyBatchItems(s: Snapshot, items: seq<NewsItem>, k: string)
    requires k in InsertAll(s, items).store && k !in s.store
    ensures InsertAll(s, items).store[k] in items
  {
    var n := |items|;
    var init := items[..n - 1];
    InsertKeys(InsertAll(s, init), items[n - 1]);
    if k in InsertAll(s, init).store {
      InsertAllAddsOnlyBatchItems(s, init, k);
    }
  }

  /** `newly_added` is the growth of the store, which is the number of batch ids it lacked. */
  lemma {:induction false} NewlyAddedIsGrowth(s: Snapshot, items: seq<NewsItem>)
    ensures |s.store| + NewlyAdded(s, items) == |InsertAll(s, items).store|
  {
    if |items| > 0 {
      var init := items[..|items| - 1];
      var t := InsertAll(s, init);
      NewlyAddedIsGrowth(s, init);
      if items[|items| - 1].id !in t.store {
        assert |t.store[items[|items| - 1].id := items[|items| - 1]]| == |t.store| + 1;
      }
    }
  }

  /** `newly_added` counts the distinct batch ids the store lacked. */
  lemma NewlyAddedCountsNewIds(s: Snapshot, items: seq<NewsItem>)
    ensures NewlyAdded(s, items) == |Ids(items) - s.store.Keys|
  {
    NewlyAddedIsGrowth(s, items);
    InsertAllKeys(s, items);
    var a, b := s.store.Keys, Ids(items) - s.store.Keys;
    assert InsertAll(s, items).store.Keys == a + b && a * b == {};
    assert |InsertAll(s, items).store| == |InsertAll(s, items).store.Keys|;
    assert |s.store| == |a|;
  }

  /** When the store already holds every id of the batch, `add_many` changes nothing. */
  lemma {:induction false} InsertAllOfKnownIds(t: Snapshot, items: seq<NewsItem>)
    requires forall i :: 0 <= i < |items| ==> items[i].id in t.store
    ensures InsertAll(t, items) == t && NewlyAdded(t, items) == 0
  {
    if |items| > 0 {
      InsertAllOfKnownIds(t, items[..|items| - 1]);
    }
  }

  /** Adding the same batch twice stores nothing the second time. */
  lemma RepeatedBatchIsNoOp(s: Snapshot, items: seq<NewsItem>)
    ensures InsertAll(InsertAll(s, items), items) == InsertAll(s, items)
    ensures NewlyAdded(InsertAll(s, items), items) == 0
  {
    InsertAllKeys(s, items);
    forall i | 0 <= i < |items| ensures items[i].id in InsertAll(s, items).store {
      assert items[i].id in Ids(items);
    }
    InsertAllOfKnownIds(InsertAll(s, items), items);
  }

  /** `add_many` appends to the insertion order: the items stored before keep their places. */
  lemma {:induction false} InsertAllKeepsOrderPrefix(s: Snapshot, items: seq<NewsItem>)
    requires WellFormed(s)
    ensures WellFormed(InsertAll(s, items))
    ensures |s.order| <= |InsertAll(s, items).order|
    ensures Values(InsertAll(s, items))[..|s.order|] == Values(s)
  {
    InsertAllWellFormed(s, items);
    if |items| > 0 {
      var init := items[..|items| - 1];
      var t := InsertAll(s, init);
      InsertAllKeepsOrderPrefix(s, init);
      var last := items[|items| - 1];
      assert InsertAll(s, items) == Insert(t, last);
      if last.id !in t.store {
        InsertAppends(t, last);
        PrefixOfSnoc(Values(t), last, |s.order|);
      }
    }
  }

  lemma PrefixOfSnoc(a: seq<NewsItem>, x: NewsItem, m: int)
    requires 0 <= m <= |a|
    ensures (a + [x])[..m] == a[..m]
  {
  }

  // ---------------------------------------------------------------------
  // Reading the store

  /** `get_all` lists every stored item exactly once, and nothing else. */
  lemma ValuesAreTheStore(s: Snapshot)
    requires WellFormed(s)
    ensures |Values(s)| == |s.store|
    ensures DistinctIds(Values(s))
    ensures forall k :: k in s.store ==> s.store[k] in Values(s)
    ensures forall x :: x in Values(s) ==> x.id in s.store && s.store[x.id] == x
  {
    var v := Values(s);
    forall k | k in s.store ensures s.store[k] in v {
      var i :| 0 <= i < |s.order| && s.order[i] == k;
      assert v[i] == s.store[k];
    }
  }

  /** `get_by_source` returns exactly the items whose source matches ignoring case. */
  lemma {:induction false} SelectBySourceExact(xs: seq<NewsItem>, source: string)
    ensures |SelectBySource(xs, source)| <= |xs|
    ensures forall x :: x in SelectBySource(xs, source) <==> x in xs && FromSource(x, source)
  {
    if |xs| > 0 {
      var init := xs[..|xs| - 1];
      SelectBySourceExact(init, source);
      assert xs == init + [xs[|xs| - 1]];
    }
  }

  /** `get_since` returns exactly the items published at or after the cutoff. */
  lemma {:induction false} SelectSinceExact(xs: seq<NewsItem>, cutoff: int)
    ensures |SelectSince(xs, cutoff)| <= |xs|
    ensures forall x :: x in SelectSince(xs, cutoff) <==> x in xs && x.publishedAt >= cutoff
  {
    if |xs| > 0 {
      var init := xs[..|xs| - 1];
      SelectSinceExact(init, cutoff);
      assert xs == init + [xs[|xs| - 1]];
    }
  }

  /** Narrowing the window can only drop items. */
  lemma SelectSinceShrinks(xs: seq<NewsItem>, now: int, m1: int, m2: int)
    requires m1 <= m2
    ensures forall x :: x in SelectSince(xs, Cutoff(now, m1)) ==> x in SelectSince(xs, Cutoff(now, m2))
  {
    SelectSinceExact(xs, Cutoff(now, m1));
    SelectSinceExact(xs, Cutoff(now, m2));
  }

  // ---------------------------------------------------------------------
  // The class

  /** The list comprehension of `get_by_source`: one pass over the values, in order. */
  method KeepFromSource(values: seq<NewsItem>, source: string) returns (r: seq<NewsItem>)
    ensures r == SelectBySource(values, source)
  {
    var wanted := Lower(source);
    r := [];
    for i := 0 to |values|
      invariant r == SelectBySource(values[..i], source)
    {
      var item := values[i];
      assert values[..i + 1][..i] == values[..i];
      if Lower(item.source) == wanted {
        r := r + [item];
      }
    }
    assert values[..|values|] == values;
  }

  /** The list comprehension of `get_since`: one pass over the values, in order. */
  method KeepSince(values: seq<NewsItem>, cutoff: int) returns (r: seq<NewsItem>)
    ensures r == SelectSince(values, cutoff)
  {
    r := [];
    for i := 0 to |values|
      invariant r == SelectSince(values[..i], cutoff)
    {
      var item := values[i];
      assert values[..i + 1][..i] == values[..i];
      if item.publishedAt >= cutoff {
        r := r + [item];
      }
    }
    assert values[..|values|] == values;
  }

  /** `NewsStorage` without its file and lock: the dictionary `_store`. */
  class NewsStorage {
    var store: map<string, NewsItem>
    var order: seq<string>

    function State(): Snapshot
      reads this
    {
      Snapshot(store, order)
    }

    predicate Valid()
      reads this
    {
      WellFormed(State())
    }

    /** A fresh store; loading a persisted file is not modelled, so it starts empty. */
    constructor ()
      ensures Valid() && State() == Empty
    {
      store := map[];
      order := [];
    }

    /** `add`: stores the item unless its id is already a key. */
    method Add(item: NewsItem)
      requires Valid()
      modifies this
      ensures Valid()
      ensures State() == Insert(old(State()), item)
    {
      InsertWellFormed(State(), item);
      if item.id !in store {
        store := store[item.id := item];
        order := order + [item.id];
      }
    }

    /** `add_many`: adds the batch in order and counts the new entries (the count it logs). */
    method AddMany(items: seq<NewsItem>) returns (newlyAdded: nat)
      requires Valid()
      modifies this
      ensures Valid()
      ensures State() == InsertAll(old(State()), items)
      ensures newlyAdded == NewlyAdded(old(State()), items)
    {
      ghost var start := State();
      newlyAdded := 0;
      for i := 0 to |items|
        invariant State() == InsertAll(start, items[..i])
        invariant newlyAdded == NewlyAdded(start, items[..i])
        invariant Valid()
      {
        var item := items[i];
        assert items[..i + 1][..i] == items[..i];
        InsertWellFormed(State(), item);
        if item.id !in store {
          store := store[item.id := item];
          order := order + [item.id];
          newlyAdded := newlyAdded + 1;
        }
      }
      assert items[..|items|] == items;
    }

    /** `get_all` */
    method GetAll() returns (r: seq<NewsItem>)
      requires Valid()
      ensures r == Values(State())
    {
      r := seq(|order|, i requires 0 <= i < |order| && order[i] in store reads this => store[order[i]]);
    }

    /** `get_by_source`: the stored items whose source matches, ignoring case. */
    method GetBySource(source: string) returns (r: seq<NewsItem>)
      requires Valid()
      ensures r == SelectBySource(Values(State()), source)
    {
      var values := GetAll();
      r := KeepFromSource(values, source);
    }

    /** `get_since(minutes_ago)`, with the current time passed in as `now`. */
    method GetSince(minutesAgo: int, now: int) returns (r: seq<NewsItem>)
      requires Valid()
      ensures r == SelectSince(Values(State()), Cutoff(now, minutesAgo))
    {
      var cutoff := now - minutesAgo * 60;
      var values := GetAll();
      r := KeepSince(values, cutoff);
    }

    /** `clear` */
    method Clear()
      modifies this
      ensures Valid() && State() == Empty
    {
      store := map[];
      order := [];
    }
  }
}
