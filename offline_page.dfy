/**
 * The offline page: its storage counts, the list of unsynced records with
 * their headings and previews, and the cache refresh.
 */
module OfflinePage {
  import opened Wrappers
  import opened KeyOrder
  import opened Seqs
  import opened Records
  import opened ObjectStore
  import opened IdbManager
  import opened Text
  import opened StoryText

  /** The three counters at the top of the page. */
  datatype StorageCounts = StorageCounts(saved: nat, offline: nat, favorites: nat)

  /** `_loadStorageInfo`: the saved and favorites counts are the store sizes, offline counts the falsy `synced`. */
  function LoadStorageInfo(stories: seq<Story>, offline: seq<OfflineStory>, favorites: seq<Favorite>): (r: StorageCounts)
    ensures r.saved == |stories| && r.favorites == |favorites|
    ensures r.offline == |Unsynced(offline)| && r.offline <= |offline|
  {
    forall i | 0 <= i < |offline| ensures NotSynced(offline[i]) == IsUnsynced(offline[i]) {
      UnsyncedTestsAgree(offline[i]);
    }
    FilterExt(offline, NotSynced, IsUnsynced);
    StorageCounts(|stories|, |Filter(offline, NotSynced)|, |favorites|)
  }

  /** A record's heading: its extracted title unless that is absent or empty, then the default. */
  function Heading(description: string): (r: string)
    ensures HasTitleMarker(description) && TitleOf(Split(description, Marker)) != "" ==>
      r == TitleOf(Split(description, Marker))
    ensures HasTitleMarker(description) && TitleOf(Split(description, Marker)) == "" ==> r == DefaultTitle
    ensures !HasTitleMarker(description) ==> r == DefaultTitle
    ensures r != ""
  {
    match ExtractTitle(description)
    case Some(t) => if t != "" then t else DefaultTitle
    case None => DefaultTitle
  }

  /** One listed record. */
  datatype Entry = Entry(id: int, heading: string, preview: string)

  function EntryOf(o: OfflineStory): Entry {
    Entry(o.id, Heading(o.description), Preview(o.description))
  }

  function Entries(unsynced: seq<OfflineStory>): (r: seq<Entry>)
    ensures |r| == |unsynced|
    ensures forall i :: 0 <= i < |r| ==> r[i] == EntryOf(unsynced[i])
  {
    seq(|unsynced|, i requires 0 <= i < |unsynced| => EntryOf(unsynced[i]))
  }

  /** What `_loadOfflineStories` shows: the entries, and whether the empty-state element is visible. */
  datatype Listing = Listing(entries: seq<Entry>, showEmptyState: bool)

  /** `_loadOfflineStories`: one entry per unsynced record in store order; the empty state iff there is none. */
  function LoadOfflineStories(offline: seq<OfflineStory>): (r: Listing)
    ensures r.showEmptyState <==> r.entries == []
    ensures r.showEmptyState <==> forall i :: 0 <= i < |offline| ==> offline[i].synced == Some(true)
    ensures |r.entries| == |Unsynced(offline)|
    ensures forall i :: 0 <= i < |r.entries| ==> r.entries[i] == EntryOf(Unsynced(offline)[i])
  {
    var unsynced := Filter(offline, NotSynced);
    assert unsynced == Unsynced(offline) by {
      forall i | 0 <= i < |offline| ensures NotSynced(offline[i]) == IsUnsynced(offline[i]) {
        UnsyncedTestsAgree(offline[i]);
      }
      FilterExt(offline, NotSynced, IsUnsynced);
    }
    Listing(Entries(unsynced), unsynced == [])
  }

  /** Every listed entry comes from an unsynced record of the store, with that record's preview. */
  lemma ListedEntries(offline: seq<OfflineStory>, i: nat)
    requires i < |LoadOfflineStories(offline).entries|
    ensures exists o :: o in offline && IsUnsynced(o) && LoadOfflineStories(offline).entries[i] == EntryOf(o)
  {
    var o := Unsynced(offline)[i];
    assert o in Unsynced(offline);
  }

  /** `_refreshCache`: every cached story is read and deleted by id. */
  method RefreshCache(db: IDBManager)
    requires db.Valid()
    modifies db`stories
    ensures db.Valid()
    ensures db.stories == []
  {
    var cached := db.stories;
    for i := 0 to |cached|
      invariant db.Valid()
      invariant db.stories == cached[i..]
    {
      DeleteFirst(db.stories, StoryKey);
      db.DeleteStory(cached[i].id);
    }
  }
}
