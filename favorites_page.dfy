/**
 * The favorites page: the export document and clearing every favorite.
 */
module FavoritesPage {
  import opened Wrappers
  import opened KeyOrder
  import opened Records
  import opened ObjectStore
  import opened IdbManager

  /** One exported favorite. */
  datatype ExportEntry = ExportEntry(title: string, description: string, photoUrl: string, addedAt: int)

  /** The exported JSON document. */
  datatype ExportDocument = ExportDocument(exportedAt: int, totalFavorites: nat, favorites: seq<ExportEntry>)

  /** `fav => ({title: fav.name, description, photoUrl, addedAt})`. */
  function EntryOf(f: Favorite): (e: ExportEntry)
    ensures e.title == FavoriteName(f) && e.description == FavoriteDescription(f)
    ensures e.photoUrl == FavoritePhotoUrl(f) && e.addedAt == f.addedAt
  {
    ExportEntry(FavoriteName(f), FavoriteDescription(f), FavoritePhotoUrl(f), f.addedAt)
  }

  function Entries(favorites: seq<Favorite>): (r: seq<ExportEntry>)
    ensures |r| == |favorites|
    ensures forall i :: 0 <= i < |r| ==> r[i] == EntryOf(favorites[i])
  {
    seq(|favorites|, i requires 0 <= i < |favorites| => EntryOf(favorites[i]))
  }

  /** `_exportFavorites`: no document without favorites; otherwise one entry per favorite, in order. */
  function ExportFavorites(favorites: seq<Favorite>, exportedAt: int): (r: Option<ExportDocument>)
    ensures r.None? <==> favorites == []
    ensures r.Some? ==> r.value.exportedAt == exportedAt
    ensures r.Some? ==> r.value.totalFavorites == |favorites| == |r.value.favorites|
    ensures r.Some? ==> forall i :: 0 <= i < |favorites| ==> r.value.favorites[i] == EntryOf(favorites[i])
  {
    if |favorites| == 0 then None
    else Some(ExportDocument(exportedAt, |favorites|, Entries(favorites)))
  }

  /** `_clearAllFavorites`: every stored favorite is removed by its `storyId`. */
  method ClearAllFavorites(db: IDBManager)
    requires db.Valid()
    modifies db`favorites
    ensures db.Valid()
    ensures db.favorites == []
  {
    var favorites := db.favorites;
    for i := 0 to |favorites|
      invariant db.Valid()
      invariant db.favorites == favorites[i..]
    {
      DeleteFirst(db.favorites, FavoriteKey);
      db.RemoveFavorite(favorites[i].storyId);
    }
  }
}
