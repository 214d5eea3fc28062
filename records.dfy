/**
 * The records the app keeps: a story as the API returns it (and as the
 * `stories` store holds it, with two fields added), an offline draft, and a
 * favorite. An absent string field is modelled as "" (both are falsy), a
 * coordinate as an optional real, and a timestamp as an integer.
 */
module Records {
  import opened Wrappers
  import opened KeyOrder

  datatype Story = Story(
    id: string,
    name: string,
    description: string,
    photoUrl: string,
    createdAt: int,
    lat: Option<real>,
    lon: Option<real>,
    /** Set only on records written by `saveStories`. */
    hasLocation: Option<bool>,
    cachedAt: Option<int>)

  /** JavaScript truthiness of an optional coordinate: present and not zero. */
  predicate Truthy(x: Option<real>) {
    x.Some? && x.value != 0.0
  }

  /** `story.lat && story.lon`, read as a boolean. */
  predicate HasCoordinates(s: Story) {
    Truthy(s.lat) && Truthy(s.lon)
  }

  /** Key path `id` of the `stories` store. */
  function StoryKey(s: Story): Key {
    Str(s.id)
  }

  /** A story written while offline, waiting to be sent. */
  datatype OfflineStory = OfflineStory(
    id: int,
    name: string,
    description: string,
    lat: Option<real>,
    lon: Option<real>,
    createdAt: int,
    /** `None` is `undefined`. */
    synced: Option<bool>)

  /** Key path `id` of the `offlineStories` store. */
  function OfflineKey(o: OfflineStory): Key {
    Num(o.id)
  }

  /** `synced === false || synced === undefined`. */
  predicate IsUnsynced(o: OfflineStory) {
    o.synced == Some(false) || o.synced == None
  }

  /** `!synced`: a falsy flag. */
  predicate NotSynced(o: OfflineStory) {
    !(o.synced == Some(true))
  }

  /** With `synced` a boolean or `undefined`, the strict and the truthiness tests agree. */
  lemma UnsyncedTestsAgree(o: OfflineStory)
    ensures IsUnsynced(o) <==> NotSynced(o)
  {
    match o.synced
    case None =>
    case Some(b) => if !b { assert o.synced == Some(false); }
  }

  /**
   * A favorite: `storyId` followed by the fields of the story it was made
   * from (`None` when the page could not find that story) and `addedAt`.
   */
  datatype Favorite = Favorite(storyId: string, story: Option<Story>, addedAt: int)

  /** Key path `storyId` of the `favorites` store. */
  function FavoriteKey(f: Favorite): Key {
    Str(f.storyId)
  }

  /** Fields of a favorite that came from its story; absent ones read as "". */
  function FavoriteName(f: Favorite): string {
    if f.story.Some? then f.story.value.name else ""
  }

  function FavoriteDescription(f: Favorite): string {
    if f.story.Some? then f.story.value.description else ""
  }

  function FavoritePhotoUrl(f: Favorite): string {
    if f.story.Some? then f.story.value.photoUrl else ""
  }
}
