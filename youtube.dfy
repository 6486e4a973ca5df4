/**
 * The cache refresh service: `clearDatabase` and `fetchAndCacheVideos`.
 * The search request itself is not modelled; its outcome (the list of result
 * items, or the error it threw) is an input.
 */
module YouTube {
  import opened Wrappers
  import opened VideoModel

  /**
   * One item of the search response: `id.videoId`, the snippet's `title`,
   * `description` and `publishedAt` text, and the instant that text parses to
   * in milliseconds since the epoch (`None` when it does not parse, which
   * makes every comparison with it false).
   */
  datatype SearchItem = SearchItem(
    videoId: string,
    title: string,
    description: string,
    publishedAt: string,
    publishTime: Option<int>)

  /** 2010-12-31T23:59:59Z, in milliseconds since the epoch. */
  const CutoffMillis: int := 1293839999000

  const ClassicCategory: string := "classic"

  /** `publishDate <= new Date('2010-12-31T23:59:59Z')`. */
  predicate PublishedByCutoff(item: SearchItem) {
    item.publishTime.Some? && item.publishTime.value <= CutoffMillis
  }

  /** The update document sent for a kept item. */
  function UpdateFor(item: SearchItem): VideoUpdate {
    VideoUpdate(item.videoId, item.title, item.description, ClassicCategory, item.publishedAt)
  }

  /** One iteration of the loop over the response items. */
  function Step(docs: map<string, VideoRecord>, item: SearchItem, now: int): map<string, VideoRecord> {
    if PublishedByCutoff(item) then Upserted(docs, item.videoId, UpdateFor(item), now) else docs
  }

  /** The collection after the loop has run over `items`, starting from the cleared collection. */
  function Cached(items: seq<SearchItem>, now: int): map<string, VideoRecord> {
    if items == [] then map[]
    else Step(Cached(items[..|items| - 1], now), items[|items| - 1], now)
  }

  /** The positions of the response items that pass the date filter. */
  function PassingPositions(items: seq<SearchItem>): set<nat> {
    set i: nat | i < |items| && PublishedByCutoff(items[i])
  }

  /** The ids of the items that pass the date filter. */
  function PassingIds(items: seq<SearchItem>): set<string> {
    set i | i in PassingPositions(items) :: items[i].videoId
  }

  /**
   * The items that pass the date filter, in response order; the loop upserts
   * exactly these, and `savedCount` is their number.
   */
  function Passing(items: seq<SearchItem>): (kept: seq<SearchItem>)
    ensures |kept| <= |items|
    ensures forall x :: x in kept ==> x in items && PublishedByCutoff(x)
  {
    if items == [] then []
    else Passing(items[..|items| - 1]) + if PublishedByCutoff(items[|items| - 1]) then [items[|items| - 1]] else []
  }

  // ---------------------------------------------------------------------------
  // What one refresh leaves in the collection
  // ---------------------------------------------------------------------------

  lemma PassingIdsSnoc(items: seq<SearchItem>, item: SearchItem)
    ensures PassingIds(items + [item]) ==
      PassingIds(items) + if PublishedByCutoff(item) then {item.videoId} else {}
  {
    var s := items + [item];
    forall id | id in PassingIds(s)
      ensures id in PassingIds(items) + if PublishedByCutoff(item) then {item.videoId} else {}
    {
      var i :| 0 <= i < |s| && PublishedByCutoff(s[i]) && s[i].videoId == id;
      if i < |items| {
        assert s[i] == items[i];
      }
    }
    forall id | id in PassingIds(items)
      ensures id in PassingIds(s)
    {
      var i :| 0 <= i < |items| && PublishedByCutoff(items[i]) && items[i].videoId == id;
      assert s[i] == items[i];
    }
    if PublishedByCutoff(item) {
      assert s[|items|] == item;
    }
  }

  /** The ids in the collection are exactly the ids of the items that pass the date filter. */
  lemma {:induction false} CachedKeys(items: seq<SearchItem>, now: int)
    ensures Cached(items, now).Keys == PassingIds(items)
  {
    if items != [] {
      var init, last := items[..|items| - 1], items[|items| - 1];
      CachedKeys(init, now);
      assert items == init + [last];
      PassingIdsSnoc(init, last);
    }
  }

  /**
   * Every document is filed under its own id, carries the category
   * `classic`, and was stamped by this run.
   */
  lemma {:induction false} CachedRecordsWellFormed(items: seq<SearchItem>, now: int)
    ensures KeyedById(Cached(items, now))
    ensures forall id :: id in Cached(items, now) ==>
      Cached(items, now)[id].category == ClassicCategory && Cached(items, now)[id].fetchedAt == now
  {
    if items != [] {
      CachedRecordsWellFormed(items[..|items| - 1], now);
    }
  }

  /**
   * When several kept items share an id, the document holds the title and
   * description of the last of them.
   */
  lemma {:induction false} LastKeptItemWins(items: seq<SearchItem>, now: int, i: nat)
    requires i < |items| && PublishedByCutoff(items[i])
    requires forall j :: i < j < |items| && PublishedByCutoff(items[j]) ==> items[j].videoId != items[i].videoId
    ensures items[i].videoId in Cached(items, now)
    ensures Cached(items, now)[items[i].videoId].title == items[i].title
    ensures Cached(items, now)[items[i].videoId].description == items[i].description
  {
    var init := items[..|items| - 1];
    if i < |items| - 1 {
      LastKeptItemWins(init, now, i);
    }
  }

  /**
   * Items published after the cutoff, and items whose date does not parse,
   * leave no trace: the collection is what the kept items alone produce.
   */
  lemma {:induction false} OnlyKeptItemsMatter(items: seq<SearchItem>, now: int)
    ensures Cached(items, now) == Cached(Passing(items), now)
  {
    if items != [] {
      var init, last := items[..|items| - 1], items[|items| - 1];
      OnlyKeptItemsMatter(init, now);
      if PublishedByCutoff(last) {
        var kept := Passing(init) + [last];
        assert kept[..|kept| - 1] == Passing(init);
      } else {
        assert Passing(items) == Passing(init);
      }
    }
  }

  /**
   * `savedCount` counts every kept item, duplicates included: it is at least
   * the number of documents and at most the number of response items.
   */
  lemma {:induction false} SavedCountBounds(items: seq<SearchItem>, now: int)
    ensures |Cached(items, now)| <= |Passing(items)| <= |items|
  {
    if items != [] {
      var init := items[..|items| - 1];
      SavedCountBounds(init, now);
    }
  }

  /** An item is kept exactly when it occurs in the response and passes the date filter. */
  lemma {:induction false} PassingKeepsExactlyTheFilteredItems(items: seq<SearchItem>, x: SearchItem)
    ensures x in Passing(items) <==> x in items && PublishedByCutoff(x)
  {
    if items != [] {
      var init, last := items[..|items| - 1], items[|items| - 1];
      PassingKeepsExactlyTheFilteredItems(init, x);
      assert items == init + [last];
    }
  }

  lemma PassingPositionsSnoc(items: seq<SearchItem>, item: SearchItem)
    ensures PassingPositions(items + [item]) ==
      PassingPositions(items) + if PublishedByCutoff(item) then {|items|} else {}
  {
    var s := items + [item];
    forall i: nat | i < |items|
      ensures s[i] == items[i]
    {
    }
    assert s[|items|] == item;
  }

  /**
   * `savedCount` is the number of response positions whose item passes the
   * date filter: an id that occurs twice is counted twice.
   */
  lemma {:induction false} SavedCountCountsPositions(items: seq<SearchItem>)
    ensures |Passing(items)| == |PassingPositions(items)|
  {
    if items != [] {
      var init, last := items[..|items| - 1], items[|items| - 1];
      SavedCountCountsPositions(init);
      assert items == init + [last];
      PassingPositionsSnoc(init, last);
      assert |items| - 1 !in PassingPositions(init);
    }
  }

  // ---------------------------------------------------------------------------
  // The service
  // ---------------------------------------------------------------------------

  /** Extending the processed prefix by one item is one loop iteration. */
  lemma PrefixStep(items: seq<SearchItem>, i: nat, now: int)
    requires i < |items|
    ensures Cached(items[..i + 1], now) == Step(Cached(items[..i], now), items[i], now)
    ensures |Passing(items[..i + 1])| == |Passing(items[..i])| + if PublishedByCutoff(items[i]) then 1 else 0
  {
    assert items[..i + 1][..i] == items[..i];
  }

  /** What can go wrong, in the order it can happen. */
  datatype FetchError =
    | ClearFailed
    | SearchFailed(reason: string)
    | UpsertFailed(index: nat)

  /**
   * Failures of the database, chosen by the environment: whether
   * `deleteMany` throws, and the index of the response item whose upsert
   * throws, if any.
   */
  datatype Faults = Faults(clearFails: bool, failingUpsert: Option<nat>)

  /** The index of the item whose upsert throws, if the loop reaches an upsert for it. */
  function UpsertFailure(items: seq<SearchItem>, faults: Faults): Option<nat> {
    match faults.failingUpsert
    case Some(i) => if i < |items| && PublishedByCutoff(items[i]) then Some(i) else None
    case None => None
  }

  /** `clearDatabase`: empties the collection, or throws and leaves it as it was. */
  method ClearDatabase(store: VideoStore, faults: Faults) returns (r: Result<(), FetchError>)
    modifies store
    ensures faults.clearFails ==> r == Failure(ClearFailed) && store.docs == old(store.docs)
    ensures !faults.clearFails ==> r == Success(()) && store.docs == map[] && store.Valid()
  {
    if faults.clearFails {
      return Failure(ClearFailed);
    }
    store.DeleteMany();
    return Success(());
  }

  /**
   * `fetchAndCacheVideos`: clear the collection, then upsert every item of the
   * search response published by the cutoff, with category `classic`.
   * `fetchAndCacheVideos` returns nothing and only logs `savedCount`; here success
   * carries that count.  Every error is passed on to the caller.
   */
  method FetchAndCacheVideos(
    store: VideoStore, response: Result<seq<SearchItem>, string>, faults: Faults, now: int)
    returns (r: Result<nat, FetchError>)
    requires store.Valid()
    modifies store
    ensures store.Valid()
    ensures faults.clearFails ==> r == Failure(ClearFailed) && store.docs == old(store.docs)
    ensures !faults.clearFails && response.Failure? ==>
      r == Failure(SearchFailed(response.error)) && store.docs == map[]
    ensures !faults.clearFails && response.Success? ==>
      match UpsertFailure(response.value, faults)
      case Some(i) =>
        r == Failure(UpsertFailed(i)) && store.docs == Cached(response.value[..i], now)
      case None =>
        r == Success(|Passing(response.value)|) && store.docs == Cached(response.value, now)
  {
    var cleared := ClearDatabase(store, faults);
    if cleared.Failure? {
      return Failure(cleared.error);
    }
    if response.Failure? {
      return Failure(SearchFailed(response.error));
    }
    var items := response.value;
    var savedCount := 0;
    var i := 0;
    while i < |items|
      invariant 0 <= i <= |items|
      invariant store.Valid()
      invariant store.docs == Cached(items[..i], now)
      invariant savedCount == |Passing(items[..i])|
      invariant UpsertFailure(items, faults).Some? ==> i <= UpsertFailure(items, faults).value
    {
      var item := items[i];
      PrefixStep(items, i, now);
      if PublishedByCutoff(item) {
        if faults.failingUpsert == Some(i) {
          return Failure(UpsertFailed(i));
        }
        store.FindOneAndUpsert(item.videoId, UpdateFor(item), now);
        savedCount := savedCount + 1;
      }
      i := i + 1;
    }
    assert items[..i] == items;
    return Success(savedCount);
  }
}
