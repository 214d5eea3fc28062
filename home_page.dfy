/**
 * The home page: its list state (`_stories`, `_filteredStories` and the
 * search, filter and sort controls), the filter pipeline, the list it shows,
 * the statistics line and the offline section.
 */
module HomePage {
  import opened Wrappers
  import opened KeyOrder
  import opened Text
  import opened Seqs
  import opened Records
  import opened ObjectStore
  import opened IdbManager
  import opened StoryQuery

  // ---------------------------------------------------------------- filter pipeline

  /** The sort control: `"newest"` sorts descending, anything else ascending. */
  function SortOrder(currentSort: string): string {
    if currentSort == "newest" then "desc" else "asc"
  }

  /** `!story.lat || !story.lon`. */
  predicate LacksCoordinates(s: Story) {
    !Truthy(s.lat) || !Truthy(s.lon)
  }

  /** The location control: keep those with coordinates, those without, or all. */
  function LocationFilter(pool: seq<Story>, currentFilter: string): (r: seq<Story>)
    ensures currentFilter == "with-location" ==> forall x :: x in r ==> HasCoordinates(x)
    ensures currentFilter == "without-location" ==> forall x :: x in r ==> !HasCoordinates(x)
    ensures currentFilter != "with-location" && currentFilter != "without-location" ==> r == pool
  {
    if currentFilter == "with-location" then Filter(pool, HasCoordinates)
    else if currentFilter == "without-location" then Filter(pool, LacksCoordinates)
    else pool
  }

  /** The two location filters partition any list: their sizes add up to its size. */
  lemma LocationFiltersPartition(pool: seq<Story>)
    ensures |LocationFilter(pool, "with-location")| + |LocationFilter(pool, "without-location")| == |pool|
  {
    FilterPartition(pool, HasCoordinates);
    forall i | 0 <= i < |pool| ensures Not(HasCoordinates)(pool[i]) == LacksCoordinates(pool[i]) {
    }
    FilterExt(pool, Not(HasCoordinates), LacksCoordinates);
  }

  /** The stories a set search query starts from: the stored ones it selects; otherwise the page's list. */
  function SearchPool(stories: seq<Story>, stored: seq<Story>, searchQuery: string): seq<Story> {
    if searchQuery != "" then Search(stored, searchQuery) else stories
  }

  /**
   * `_applyFilters` as written: the search and location steps are computed,
   * then overwritten by `sortStories` over every stored story.
   */
  function ApplyFiltersAsWritten(stories: seq<Story>, stored: seq<Story>, searchQuery: string,
                                 currentFilter: string, currentSort: string): (r: seq<Story>)
    ensures multiset(r) == multiset(stored)
  {
    var filtered := LocationFilter(SearchPool(stories, stored, searchQuery), currentFilter);
    SortStories(stored, CreatedAt, SortOrder(currentSort), None)
  }

  /** A stored story without coordinates is shown under `"with-location"`. */
  lemma ApplyFiltersAsWrittenIgnoresLocation()
    ensures var a := Story("a", "", "", "", 1, Some(1.0), Some(1.0), None, None);
      var b := Story("b", "", "", "", 2, None, None, None, None);
      var shown := ApplyFiltersAsWritten([a, b], [a, b], "", "with-location", "newest");
      b in shown && !HasCoordinates(b)
  {
    var a := Story("a", "", "", "", 1, Some(1.0), Some(1.0), None, None);
    var b := Story("b", "", "", "", 2, None, None, None, None);
    var shown := ApplyFiltersAsWritten([a, b], [a, b], "", "with-location", "newest");
    assert multiset(shown) == multiset([a, b]);
    assert b in multiset(shown);
  }

  /** `_applyFilters` as intended: the narrowed list, ordered by date. */
  function FilteredView(stories: seq<Story>, stored: seq<Story>, searchQuery: string,
                        currentFilter: string, currentSort: string): (r: seq<Story>)
    ensures multiset(r) == multiset(LocationFilter(SearchPool(stories, stored, searchQuery), currentFilter))
    ensures forall i, j :: 0 <= i < j < |r| ==>
      if currentSort == "newest" then r[i].createdAt >= r[j].createdAt else r[i].createdAt <= r[j].createdAt
  {
    var filtered := LocationFilter(SearchPool(stories, stored, searchQuery), currentFilter);
    SortedByDate(filtered, currentSort);
    SortStories(filtered, CreatedAt, SortOrder(currentSort), None)
  }

  /** Sorting by `createdAt` in the control's order leaves the list ordered by date that way. */
  lemma SortedByDate(filtered: seq<Story>, currentSort: string)
    ensures var r := SortStories(filtered, CreatedAt, SortOrder(currentSort), None);
      forall i, j :: 0 <= i < j < |r| ==>
        if currentSort == "newest" then r[i].createdAt >= r[j].createdAt else r[i].createdAt <= r[j].createdAt
  {
    var r := SortStories(filtered, CreatedAt, SortOrder(currentSort), None);
    assert forall i, j :: 0 <= i < j < |r| ==> SortComparator(CreatedAt, SortOrder(currentSort), None)(r[i], r[j]) <= 0;
  }

  /** A story is shown iff it is in the search pool and passes the location control. */
  lemma FilteredViewMembers(stories: seq<Story>, stored: seq<Story>, searchQuery: string,
                            currentFilter: string, currentSort: string, x: Story)
    ensures x in FilteredView(stories, stored, searchQuery, currentFilter, currentSort) <==>
      x in SearchPool(stories, stored, searchQuery) &&
      (currentFilter == "with-location" ==> HasCoordinates(x)) &&
      (currentFilter == "without-location" ==> !HasCoordinates(x))
  {
    var pool := SearchPool(stories, stored, searchQuery);
    var f := LocationFilter(pool, currentFilter);
    var r := FilteredView(stories, stored, searchQuery, currentFilter, currentSort);
    assert x in r <==> x in multiset(r);
    assert x in f <==> x in multiset(f);
    if x in pool && (currentFilter == "with-location" ==> HasCoordinates(x)) &&
       (currentFilter == "without-location" ==> !HasCoordinates(x)) {
      var i :| 0 <= i < |pool| && pool[i] == x;
    }
  }

  /** `_displayStories`: the filtered list when it has entries, otherwise every story. */
  function DisplayList(filteredStories: seq<Story>, stories: seq<Story>): (r: seq<Story>)
    ensures |filteredStories| > 0 ==> r == filteredStories
    ensures |filteredStories| == 0 ==> r == stories
  {
    if |filteredStories| > 0 then filteredStories else stories
  }

  // ---------------------------------------------------------------- statistics line

  const ShowingPrefix := "Menampilkan "

  /** The note a set search query adds: ` untuk "<query>"`. */
  function QueryNote(searchQuery: string): string {
    " untuk \"" + searchQuery + "\""
  }

  /** `_updateStats(context)`. */
  function StatsText(filteredCount: nat, storiesCount: nat, searchQuery: string, context: string): (r: string)
    ensures context == "favorit" ==> r == ShowingPrefix + NatToString(filteredCount) + " cerita favorit"
    ensures context != "favorit" ==>
      var base := ShowingPrefix + NatToString(filteredCount) + " dari " + NatToString(storiesCount) + " cerita";
      r == base + (if searchQuery != "" then QueryNote(searchQuery) else "")
  {
    var count := if context == "favorit" then filteredCount else storiesCount;
    var text := ShowingPrefix + NatToString(filteredCount) + " dari " + NatToString(count) + " cerita";
    var text := if searchQuery != "" then text + QueryNote(searchQuery) else text;
    if context == "favorit" then ShowingPrefix + NatToString(filteredCount) + " cerita favorit" else text
  }

  /** The line opens with the filtered count and, outside the favorites view, ends with the note of a set query. */
  lemma StatsTextShape(filteredCount: nat, storiesCount: nat, searchQuery: string, context: string)
    ensures StartsWith(StatsText(filteredCount, storiesCount, searchQuery, context), ShowingPrefix + NatToString(filteredCount))
    ensures context != "favorit" && searchQuery != "" ==>
      var r := StatsText(filteredCount, storiesCount, searchQuery, context);
      |r| >= |QueryNote(searchQuery)| && r[|r| - |QueryNote(searchQuery)|..] == QueryNote(searchQuery)
  {
    var p := ShowingPrefix + NatToString(filteredCount);
    if context == "favorit" {
      PrefixOfChain(p, " cerita favorit", "", "", "");
      assert p + " cerita favorit" + "" + "" + "" == p + " cerita favorit";
    } else {
      var tail := if searchQuery != "" then QueryNote(searchQuery) else "";
      PrefixOfChain(p, " dari ", NatToString(storiesCount), " cerita", tail);
      SuffixOfConcat(p + " dari " + NatToString(storiesCount) + " cerita", tail);
    }
  }

  lemma PrefixOfChain(p: string, x: string, y: string, z: string, w: string)
    ensures p <= p + x + y + z + w
  {
    assert (p + x + y + z + w)[..|p|] == p;
  }

  lemma SuffixOfConcat(a: string, b: string)
    ensures (a + b)[|a|..] == b
  {
  }

  // ---------------------------------------------------------------- offline section

  /** The offline section lists the records whose `synced` is falsy. */
  function OfflineListing(offline: seq<OfflineStory>): (r: seq<OfflineStory>)
    ensures forall x :: x in r <==> x in offline && NotSynced(x)
  {
    Filter(offline, NotSynced)
  }

  /** The section lists exactly what `getUnsyncedStories` returns. */
  lemma OfflineListingIsUnsynced(offline: seq<OfflineStory>)
    ensures OfflineListing(offline) == Unsynced(offline)
  {
    forall i | 0 <= i < |offline| ensures NotSynced(offline[i]) == IsUnsynced(offline[i]) {
      UnsyncedTestsAgree(offline[i]);
    }
    FilterExt(offline, NotSynced, IsUnsynced);
  }

  /** `offlineStories.find(s => s.id === storyId)`. */
  function FindOffline(offline: seq<OfflineStory>, storyId: int): (r: Option<OfflineStory>)
    ensures r.Some? ==> r.value in offline && r.value.id == storyId
    ensures r.None? ==> forall i :: 0 <= i < |offline| ==> offline[i].id != storyId
  {
    if offline == [] then None
    else if offline[0].id == storyId then Some(offline[0])
    else FindOffline(offline[1..], storyId)
  }

  /** In the ordered store, `find` by id agrees with `get` by key. */
  lemma FindIsGet(offline: seq<OfflineStory>, storyId: int)
    requires Ordered(offline, OfflineKey)
    ensures FindOffline(offline, storyId) == Get(offline, OfflineKey, Num(storyId))
  {
    match FindOffline(offline, storyId)
    case Some(x) => GetMember(offline, OfflineKey, x);
    case None =>
  }

  /**
   * `_syncSingleStory`: a missing id only raises "not found" and marks
   * nothing; an existing one is marked synced.
   */
  method SyncSingleStory(db: IDBManager, storyId: int) returns (found: bool)
    requires db.Valid()
    modifies db`offlineStories
    ensures db.Valid()
    ensures found <==> FindOffline(old(db.offlineStories), storyId).Some?
    ensures !found ==> db.offlineStories == old(db.offlineStories)
    ensures found ==> db.offlineStories == MarkSynced(old(db.offlineStories), Num(storyId))
  {
    var story := FindOffline(db.offlineStories, storyId);
    if story.None? {
      return false;
    }
    db.MarkOfflineStoryAsSynced(Num(storyId));
    found := true;
  }

  // ---------------------------------------------------------------- page state

  /** `stories.find(s => s.id === storyId)`. */
  function FindStory(stories: seq<Story>, storyId: string): (r: Option<Story>)
    ensures r.Some? ==> r.value in stories && r.value.id == storyId
    ensures r.None? ==> forall i :: 0 <= i < |stories| ==> stories[i].id != storyId
  {
    if stories == [] then None
    else if stories[0].id == storyId then Some(stories[0])
    else FindStory(stories[1..], storyId)
  }

  class HomePage {
    var stories: seq<Story>
    var filteredStories: seq<Story>
    var currentFilter: string
    var currentSort: string
    var searchQuery: string

    constructor()
      ensures stories == [] && filteredStories == []
      ensures currentFilter == "all" && currentSort == "newest" && searchQuery == ""
    {
      stories := [];
      filteredStories := [];
      currentFilter := "all";
      currentSort := "newest";
      searchQuery := "";
    }

    /** `_applyFilters`, with the narrowed list being the one sorted. */
    method ApplyFilters(stored: seq<Story>)
      modifies this`filteredStories
      ensures filteredStories == FilteredView(stories, stored, searchQuery, currentFilter, currentSort)
    {
      var filtered := stories;
      if searchQuery != "" {
        filtered := Search(stored, searchQuery);
      }
      filtered := LocationFilter(filtered, currentFilter);
      filtered := SortStories(filtered, CreatedAt, SortOrder(currentSort), None);
      filteredStories := filtered;
    }

    /** The search box: the trimmed input becomes the query, then the filters run. */
    method SetSearch(input: string, stored: seq<Story>)
      modifies this`searchQuery, this`filteredStories
      ensures searchQuery == Trim(input)
      ensures filteredStories == FilteredView(stories, stored, searchQuery, currentFilter, currentSort)
    {
      var q := Trim(input);
      searchQuery := q;
      ApplyFilters(stored);
    }

    /** The location control. */
    method SetFilter(value: string, stored: seq<Story>)
      modifies this`currentFilter, this`filteredStories
      ensures currentFilter == value
      ensures filteredStories == FilteredView(stories, stored, searchQuery, currentFilter, currentSort)
    {
      currentFilter := value;
      ApplyFilters(stored);
    }

    /** The sort control. */
    method SetSort(value: string, stored: seq<Story>)
      modifies this`currentSort, this`filteredStories
      ensures currentSort == value
      ensures filteredStories == FilteredView(stories, stored, searchQuery, currentFilter, currentSort)
    {
      currentSort := value;
      ApplyFilters(stored);
    }

    /**
     * `_loadStories`: a non-empty API list is cached and shown; an empty
     * one, or a failed request (`None`), falls back to the cached stories.
     */
    method LoadStories(db: IDBManager, fetched: Option<seq<Story>>, cachedAt: int)
      requires db.Valid()
      modifies this`stories, db`stories
      ensures db.Valid()
      ensures fetched.Some? && |fetched.value| > 0 ==>
        db.stories == CacheAll(fetched.value, cachedAt) && stories == fetched.value
      ensures !(fetched.Some? && |fetched.value| > 0) ==> db.stories == old(db.stories) && stories == db.stories
    {
      if fetched.Some? && |fetched.value| > 0 {
        db.SaveStories(fetched.value, cachedAt);
        stories := fetched.value;
      } else {
        stories := db.stories;
      }
    }

    /**
     * The heart button: a favorited story is removed, any other is added
     * with the fields of the page's story of that id, if there is one.
     */
    method ToggleFavorite(db: IDBManager, storyId: string, favorited: bool, addedAt: int)
      returns (r: Result<(), StoreError>)
      requires db.Valid()
      modifies db`favorites
      ensures db.Valid()
      ensures favorited ==> r.Ok? && db.favorites == Delete(old(db.favorites), FavoriteKey, Str(storyId))
      ensures !favorited ==> (r.Err? <==> IsFavorite(old(db.favorites), storyId))
      ensures !favorited && r.Ok? ==>
        db.favorites == Put(old(db.favorites), FavoriteKey, Favorite(storyId, FindStory(stories, storyId), addedAt))
      ensures !favorited && r.Err? ==> db.favorites == old(db.favorites)
    {
      if favorited {
        db.RemoveFavorite(storyId);
        r := Ok(());
      } else {
        r := db.AddFavorite(storyId, FindStory(stories, storyId), addedAt);
      }
    }
  }
}
