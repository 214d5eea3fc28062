/**
 * The local database `CeritaDatabase`: its schema migration, its three object
 * stores and the operations `IDBManager` performs on them. Each store is the
 * ordered sequence of `ObjectStore`; the manager is a class whose fields are
 * those sequences plus the state of the open request.
 */
module IdbManager {
  import opened Wrappers
  import opened KeyOrder
  import opened Records
  import opened ObjectStore
  import Seqs

  const DbName := "CeritaDatabase"
  const DbVersion: nat := 9

  // ---------------------------------------------------------------- schema

  datatype StoreSchema = StoreSchema(keyPath: string, autoIncrement: bool, indexes: set<string>)

  /** Object store name to its description. */
  type Schema = map<string, StoreSchema>

  /** What aborts the upgrade transaction. */
  datatype SchemaError = ConstraintError(store: string) | NotFoundError(store: string)

  const StoriesSchema := StoreSchema("id", false, {"createdAt", "hasLocation", "name", "description"})
  const OfflineSchema := StoreSchema("id", true, {"createdAt", "synced"})
  const FavoritesSchema := StoreSchema("storyId", false, {"addedAt"})

  /** The schema of version 9. */
  const TargetSchema: Schema :=
    map["stories" := StoriesSchema, "offlineStories" := OfflineSchema, "favorites" := FavoritesSchema]

  /** `createObjectStore`: a name already in use is a `ConstraintError`. */
  function CreateStore(db: Schema, name: string, store: StoreSchema): (r: Result<Schema, SchemaError>)
    ensures r.Err? <==> name in db
    ensures r.Ok? ==> r.value == db[name := store]
  {
    if name in db then Err(SchemaError.ConstraintError(name)) else Ok(db[name := store])
  }

  /** The three stores of version 1, created in order. */
  function CreateInitialStores(db: Schema): Result<Schema, SchemaError> {
    var a := CreateStore(db, "stories", StoriesSchema);
    if a.Err? then a else
    var b := CreateStore(a.value, "offlineStories", OfflineSchema);
    if b.Err? then b else
    CreateStore(b.value, "favorites", FavoritesSchema)
  }

  /** Version 9 adds the `synced` index to `offlineStories` unless it is there. */
  function EnsureSyncedIndex(db: Schema): (r: Result<Schema, SchemaError>)
    ensures r.Err? <==> "offlineStories" !in db
  {
    if "offlineStories" !in db then Err(NotFoundError("offlineStories"))
    else
      var st := db["offlineStories"];
      Ok(db["offlineStories" := st.(indexes := st.indexes + {"synced"})])
  }

  /** `onupgradeneeded` from `oldVersion`: the version-1 step, then the version-9 step. */
  function Upgrade(oldVersion: nat, db: Schema): (r: Result<Schema, SchemaError>)
    ensures r.Ok? && oldVersion < DbVersion ==>
      "offlineStories" in r.value && "synced" in r.value["offlineStories"].indexes
    ensures r.Ok? && oldVersion < 1 ==> "stories" in r.value && "favorites" in r.value
    ensures oldVersion >= DbVersion ==> r == Ok(db)
  {
    var v1 := if oldVersion < 1 then CreateInitialStores(db) else Ok(db);
    if v1.Err? then v1
    else if oldVersion < DbVersion then EnsureSyncedIndex(v1.value)
    else v1
  }

  /** A new database migrates to exactly the version-9 schema. */
  lemma UpgradeFresh()
    ensures Upgrade(0, map[]) == Ok(TargetSchema)
  {
    var a := map["stories" := StoriesSchema];
    var b := a["offlineStories" := OfflineSchema];
    var c := b["favorites" := FavoritesSchema];
    assert CreateInitialStores(map[]) == Ok(c);
    assert OfflineSchema.indexes + {"synced"} == OfflineSchema.indexes;
    assert c["offlineStories" := OfflineSchema] == TargetSchema;
  }

  /**
   * A database of versions 1 to 8 keeps its stores; only the `synced` index
   * is added, so a version-1 schema that lacked it reaches the version-9 one.
   */
  lemma UpgradeFromOld(oldVersion: nat, db: Schema)
    requires 1 <= oldVersion < DbVersion && "offlineStories" in db
    ensures Upgrade(oldVersion, db).Ok?
    ensures var r := Upgrade(oldVersion, db).value;
      r.Keys == db.Keys &&
      (forall n :: n in db && n != "offlineStories" ==> r[n] == db[n]) &&
      r["offlineStories"].indexes == db["offlineStories"].indexes + {"synced"}
    ensures db == TargetSchema["offlineStories" := OfflineSchema.(indexes := {"createdAt"})] ==>
      Upgrade(oldVersion, db) == Ok(TargetSchema)
  {
    if db == TargetSchema["offlineStories" := OfflineSchema.(indexes := {"createdAt"})] {
      assert {"createdAt"} + {"synced"} == OfflineSchema.indexes;
      assert db["offlineStories" := OfflineSchema] == TargetSchema;
    }
  }

  /** With the `offlineStories` store missing, an old database cannot be upgraded. */
  lemma UpgradeMissingStore(oldVersion: nat, db: Schema)
    requires 1 <= oldVersion < DbVersion && "offlineStories" !in db
    ensures Upgrade(oldVersion, db) == Err(NotFoundError("offlineStories"))
  {
  }

  // ---------------------------------------------------------------- stories

  /** The record `saveStories` writes for `s`. */
  function Cache(s: Story, cachedAt: int): (r: Story)
    ensures r.id == s.id && r.hasLocation == Some(HasCoordinates(s)) && r.cachedAt == Some(cachedAt)
  {
    s.(hasLocation := Some(HasCoordinates(s)), cachedAt := Some(cachedAt))
  }

  /** The `stories` store after clearing it and putting each input story in turn. */
  function CacheAll(input: seq<Story>, cachedAt: int): (r: seq<Story>)
    ensures Ordered(r, StoryKey)
  {
    if input == [] then []
    else Put(CacheAll(input[..|input| - 1], cachedAt), StoryKey, Cache(input[|input| - 1], cachedAt))
  }

  /** The last story of `input` with this id. */
  function LastWithId(input: seq<Story>, id: string): (r: Option<Story>)
    ensures r.None? ==> forall j :: 0 <= j < |input| ==> input[j].id != id
    ensures r.Some? ==> exists i :: (0 <= i < |input| && input[i] == r.value && r.value.id == id &&
      forall j :: i < j < |input| ==> input[j].id != id)
  {
    if input == [] then None
    else if input[|input| - 1].id == id then Some(input[|input| - 1])
    else LastWithId(input[..|input| - 1], id)
  }

  /** After `saveStories`, each id maps to the cached form of its last occurrence in the input. */
  lemma {:induction false} CachedLookup(input: seq<Story>, cachedAt: int, id: string)
    ensures Get(CacheAll(input, cachedAt), StoryKey, Str(id)) ==
      match LastWithId(input, id)
      case None => None
      case Some(x) => Some(Cache(x, cachedAt))
  {
    if input != [] {
      var init := input[..|input| - 1];
      CachedLookup(init, cachedAt, id);
      GetAfterPut(CacheAll(init, cachedAt), StoryKey, Cache(input[|input| - 1], cachedAt), Str(id));
    }
  }

  /** Every cached record is the cached form of some input story, `hasLocation` derived from it. */
  lemma {:induction false} CachedRecords(input: seq<Story>, cachedAt: int)
    ensures forall x :: x in CacheAll(input, cachedAt) ==>
      x.hasLocation == Some(HasCoordinates(x)) && x.cachedAt == Some(cachedAt) &&
      exists i :: 0 <= i < |input| && x == Cache(input[i], cachedAt)
  {
    if input != [] {
      var init := input[..|input| - 1];
      var prev := CacheAll(init, cachedAt);
      var last := Cache(input[|input| - 1], cachedAt);
      CachedRecords(init, cachedAt);
      assert CacheAll(input, cachedAt) == Put(prev, StoryKey, last);
      forall x | x in Put(prev, StoryKey, last)
        ensures exists i :: 0 <= i < |input| && x == Cache(input[i], cachedAt)
      {
        if x != last {
          var i :| 0 <= i < |init| && x == Cache(init[i], cachedAt);
          assert input[i] == init[i];
        }
      }
    }
  }

  // ---------------------------------------------------------------- offline stories

  /** The record `saveOfflineStory` adds: the caller's fields, with id, date and flag overridden. */
  function NewOfflineRecord(data: OfflineStory, now: int, createdAt: int): (r: OfflineStory)
    ensures r.id == now && r.createdAt == createdAt && r.synced == Some(false)
    ensures r.name == data.name && r.description == data.description
    ensures r.lat == data.lat && r.lon == data.lon
  {
    data.(id := now, createdAt := createdAt, synced := Some(false))
  }

  /** `getUnsyncedStories`: the records whose flag is `false` or `undefined`, in store order. */
  function Unsynced(s: seq<OfflineStory>): (r: seq<OfflineStory>)
    ensures forall x :: x in r <==> x in s && IsUnsynced(x)
    ensures forall x :: x in r ==> x.synced != Some(true)
    ensures Seqs.IsSubsequence(r, s)
  {
    Seqs.FilterIsSubsequence(s, IsUnsynced);
    Seqs.Filter(s, IsUnsynced)
  }

  /** The record with its flag set. */
  function MarkRecord(o: OfflineStory): OfflineStory {
    o.(synced := Some(true))
  }

  /**
   * `markOfflineStoryAsSynced(k)`: a record found under `k` is put back with
   * `synced = true`. It was found under `k`, so `k` is its numeric id and the
   * id it is written back with is the same; a missing key changes nothing.
   */
  function MarkSynced(s: seq<OfflineStory>, k: Key): (r: seq<OfflineStory>)
    requires Ordered(s, OfflineKey)
    ensures Ordered(r, OfflineKey) && |r| == |s|
    ensures Get(s, OfflineKey, k).None? ==> r == s
    ensures Get(s, OfflineKey, k).Some? ==> (k.Num? &&
      Get(r, OfflineKey, k) == Some(MarkRecord(Get(s, OfflineKey, k).value)))
    ensures forall k' :: k' != k ==> Get(r, OfflineKey, k') == Get(s, OfflineKey, k')
  {
    match Get(s, OfflineKey, k)
    case None => s
    case Some(o) =>
      GetAfterPutAll(s, OfflineKey, MarkRecord(o));
      Put(s, OfflineKey, MarkRecord(o))
  }

  /** Marks the ids in order. */
  function MarkAll(s: seq<OfflineStory>, ids: seq<int>): (r: seq<OfflineStory>)
    requires Ordered(s, OfflineKey)
    ensures Ordered(r, OfflineKey)
  {
    if ids == [] then s else MarkSynced(MarkAll(s, ids[..|ids| - 1]), Num(ids[|ids| - 1]))
  }

  function MarkLookup(o: Option<OfflineStory>): Option<OfflineStory> {
    if o.Some? then Some(MarkRecord(o.value)) else None
  }

  /** After marking `ids`, a listed id holds its marked record and every other key is untouched. */
  lemma {:induction false} MarkAllLookup(s: seq<OfflineStory>, ids: seq<int>, k: Key)
    requires Ordered(s, OfflineKey)
    ensures Get(MarkAll(s, ids), OfflineKey, k) ==
      if k.Num? && k.n in ids then MarkLookup(Get(s, OfflineKey, k)) else Get(s, OfflineKey, k)
  {
    if ids != [] {
      var init := ids[..|ids| - 1];
      MarkAllLookup(s, init, k);
      assert ids == init + [ids[|ids| - 1]];
      assert k.Num? && k.n in ids <==> (k.Num? && k.n in init) || k == Num(ids[|ids| - 1]);
    }
  }

  datatype SyncFailure = SyncFailure(id: int, error: string)

  /** The message of the rejected simulated request. */
  const SyncFailedMessage := "Sync simulation failed"

  /** Ids of the pending records whose attempt succeeded, in visiting order. */
  function SuccessIds(pending: seq<OfflineStory>, outcome: nat -> bool): (r: seq<int>)
    ensures |r| <= |pending|
    ensures forall x :: x in r ==> exists j :: 0 <= j < |pending| && pending[j].id == x && outcome(j)
  {
    if pending == [] then []
    else
      var n := |pending| - 1;
      var r := SuccessIds(pending[..n], outcome);
      assert forall x :: x in r ==> exists j :: 0 <= j < n && pending[j].id == x && outcome(j);
      r + if outcome(n) then [pending[n].id] else []
  }

  /** The failure entries of the attempts that were rejected, in visiting order. */
  function Failures(pending: seq<OfflineStory>, outcome: nat -> bool): (r: seq<SyncFailure>)
    ensures forall f :: f in r ==> (f.error == SyncFailedMessage &&
      exists j :: 0 <= j < |pending| && pending[j].id == f.id && !outcome(j))
  {
    if pending == [] then []
    else
      var n := |pending| - 1;
      var r := Failures(pending[..n], outcome);
      assert forall f :: f in r ==> exists j :: 0 <= j < n && pending[j].id == f.id && !outcome(j);
      r + if outcome(n) then [] else [SyncFailure(pending[n].id, SyncFailedMessage)]
  }

  /** Distinct records of an ordered store have distinct ids. */
  lemma DistinctIds(pending: seq<OfflineStory>, i: int, j: int)
    requires Ordered(pending, OfflineKey) && 0 <= i < |pending| && 0 <= j < |pending| && i != j
    ensures pending[i].id != pending[j].id
  {
    KeyLessIrreflexive(Num(pending[i].id));
  }

  /** One more visited record extends exactly one of the two lists. */
  lemma SyncStep(pending: seq<OfflineStory>, outcome: nat -> bool, i: nat)
    requires i < |pending|
    ensures SuccessIds(pending[..i + 1], outcome) ==
      SuccessIds(pending[..i], outcome) + if outcome(i) then [pending[i].id] else []
    ensures Failures(pending[..i + 1], outcome) ==
      Failures(pending[..i], outcome) + if outcome(i) then [] else [SyncFailure(pending[i].id, SyncFailedMessage)]
  {
    var p := pending[..i + 1];
    assert p[..i] == pending[..i];
    assert p[i] == pending[i];
  }

  /** Marking one more id marks it after the others. */
  lemma MarkAllSnoc(s: seq<OfflineStory>, ids: seq<int>, id: int)
    requires Ordered(s, OfflineKey)
    ensures MarkAll(s, ids + [id]) == MarkSynced(MarkAll(s, ids), Num(id))
  {
    assert (ids + [id])[..|ids|] == ids;
  }

  /** The lengths of the two lists add up to the number of pending records. */
  lemma {:induction false} SyncLengths(pending: seq<OfflineStory>, outcome: nat -> bool)
    ensures |SuccessIds(pending, outcome)| + |Failures(pending, outcome)| == |pending|
  {
    if pending != [] {
      SyncLengths(pending[..|pending| - 1], outcome);
    }
  }

  /** A pending record's id is in `successful` iff its attempt succeeded. */
  lemma {:induction false} SuccessIdsExact(pending: seq<OfflineStory>, outcome: nat -> bool)
    requires Ordered(pending, OfflineKey)
    ensures forall i :: 0 <= i < |pending| ==> (pending[i].id in SuccessIds(pending, outcome) <==> outcome(i))
  {
    if pending != [] {
      var n := |pending| - 1;
      var init := pending[..n];
      SuccessIdsExact(init, outcome);
      forall i | 0 <= i < |pending|
        ensures pending[i].id in SuccessIds(pending, outcome) <==> outcome(i)
      {
        if i < n {
          assert init[i] == pending[i];
          DistinctIds(pending, i, n);
        } else {
          forall x | x in SuccessIds(init, outcome) ensures x != pending[n].id {
            var j :| 0 <= j < |init| && init[j].id == x && outcome(j);
            DistinctIds(pending, j, n);
          }
        }
      }
    }
  }

  /** A pending record has a failure entry iff its attempt failed. */
  lemma {:induction false} FailuresExact(pending: seq<OfflineStory>, outcome: nat -> bool)
    requires Ordered(pending, OfflineKey)
    ensures forall i :: 0 <= i < |pending| ==>
      (SyncFailure(pending[i].id, SyncFailedMessage) in Failures(pending, outcome) <==> !outcome(i))
  {
    if pending != [] {
      var n := |pending| - 1;
      var init := pending[..n];
      FailuresExact(init, outcome);
      forall i | 0 <= i < |pending|
        ensures SyncFailure(pending[i].id, SyncFailedMessage) in Failures(pending, outcome) <==> !outcome(i)
      {
        if i < n {
          assert init[i] == pending[i];
          DistinctIds(pending, i, n);
        }
      }
    }
  }

  /**
   * Every pending record lands in exactly one list: `successful` iff its
   * attempt succeeded, `failed` iff it did not; the lengths add up.
   */
  lemma SyncPartition(pending: seq<OfflineStory>, outcome: nat -> bool)
    requires Ordered(pending, OfflineKey)
    ensures |SuccessIds(pending, outcome)| + |Failures(pending, outcome)| == |pending|
    ensures forall i :: 0 <= i < |pending| ==>
      (pending[i].id in SuccessIds(pending, outcome) <==> outcome(i)) &&
      (SyncFailure(pending[i].id, SyncFailedMessage) in Failures(pending, outcome) <==> !outcome(i))
  {
    SyncLengths(pending, outcome);
    SuccessIdsExact(pending, outcome);
    FailuresExact(pending, outcome);
  }

  /**
   * After syncing the pending records of `s`: a record whose attempt
   * succeeded is stored marked, one whose attempt failed is stored unchanged.
   */
  lemma SyncOutcome(s: seq<OfflineStory>, outcome: nat -> bool, i: nat)
    requires Ordered(s, OfflineKey)
    requires i < |Unsynced(s)|
    ensures var p := Unsynced(s);
      Get(MarkAll(s, SuccessIds(p, outcome)), OfflineKey, OfflineKey(p[i])) ==
        if outcome(i) then Some(MarkRecord(p[i])) else Some(p[i])
  {
    var p := Unsynced(s);
    FilterOrdered(s, OfflineKey, IsUnsynced);
    SyncPartition(p, outcome);
    assert p[i] in p;
    GetMember(s, OfflineKey, p[i]);
    MarkAllLookup(s, SuccessIds(p, outcome), OfflineKey(p[i]));
  }

  // ---------------------------------------------------------------- favorites

  /** `isFavorite(storyId)`: a record with that key exists. */
  function IsFavorite(favs: seq<Favorite>, storyId: string): (b: bool)
    ensures b <==> exists i :: 0 <= i < |favs| && favs[i].storyId == storyId
  {
    var r := Get(favs, FavoriteKey, Str(storyId));
    assert r.Some? ==> r.value.storyId == storyId;
    r.Some?
  }

  /** A put favorite is a favorite and the others keep their status. */
  lemma FavoriteAfterPut(favs: seq<Favorite>, f: Favorite, storyId: string)
    requires Ordered(favs, FavoriteKey)
    ensures IsFavorite(Put(favs, FavoriteKey, f), storyId) <==> storyId == f.storyId || IsFavorite(favs, storyId)
  {
    GetAfterPut(favs, FavoriteKey, f, Str(storyId));
  }

  /** A removed favorite is no longer one and the others keep their status. */
  lemma FavoriteAfterDelete(favs: seq<Favorite>, id: string, storyId: string)
    requires Ordered(favs, FavoriteKey)
    ensures IsFavorite(Delete(favs, FavoriteKey, Str(id)), storyId) <==> storyId != id && IsFavorite(favs, storyId)
  {
    GetAfterDelete(favs, FavoriteKey, Str(id), Str(storyId));
  }

  /** The key path makes `storyId` unique among favorites. */
  lemma UniqueStoryIds(favs: seq<Favorite>)
    requires Ordered(favs, FavoriteKey)
    ensures forall i, j :: 0 <= i < |favs| && 0 <= j < |favs| && favs[i].storyId == favs[j].storyId ==> i == j
  {
    forall i, j | 0 <= i < |favs| && 0 <= j < |favs| && favs[i].storyId == favs[j].storyId
      ensures i == j
    {
      KeyLessIrreflexive(FavoriteKey(favs[i]));
    }
  }

  // ---------------------------------------------------------------- the manager

  class IDBManager {
    const dbName: string
    const version: nat
    /** `db !== null`. */
    var connected: bool
    var isOpening: bool
    /** How many `indexedDB.open` requests were issued. */
    var openRequests: nat
    /** Which request `_openPromise` belongs to; 0 is `null`. */
    var openPromise: nat
    /** The database as stored: its version and schema. */
    var diskVersion: nat
    var schema: Schema
    var stories: seq<Story>
    var offlineStories: seq<OfflineStory>
    var favorites: seq<Favorite>

    ghost predicate Valid()
      reads this
    {
      && Ordered(stories, StoryKey)
      && Ordered(offlineStories, OfflineKey)
      && Ordered(favorites, FavoriteKey)
      && openPromise <= openRequests
    }

    /** A manager over a database that does not exist yet. */
    constructor()
      ensures Valid()
      ensures dbName == DbName && version == DbVersion
      ensures !connected && !isOpening && openRequests == 0 && openPromise == 0
      ensures diskVersion == 0 && schema == map[]
      ensures stories == [] && offlineStories == [] && favorites == []
    {
      dbName := DbName;
      version := DbVersion;
      connected := false;
      isOpening := false;
      openRequests := 0;
      openPromise := 0;
      diskVersion := 0;
      schema := map[];
      stories := [];
      offlineStories := [];
      favorites := [];
    }

    /**
     * `init`: while a request is pending it hands back that request's
     * promise and issues none; otherwise it issues a new open request.
     */
    method Init() returns (promise: nat)
      requires Valid()
      modifies this`isOpening, this`openRequests, this`openPromise
      ensures Valid()
      ensures old(isOpening) ==> isOpening && openRequests == old(openRequests) && promise == old(openPromise)
      ensures !old(isOpening) ==> isOpening && openRequests == old(openRequests) + 1 && promise == openRequests
      ensures promise == openPromise
    {
      if isOpening {
        return openPromise;
      }
      isOpening := true;
      openRequests := openRequests + 1;
      openPromise := openRequests;
      promise := openPromise;
    }

    /**
     * The pending open request settles. `ok` is whether the browser opened
     * the database; a stored version above `version` fails the request, an
     * older one first runs the upgrade, and a failed upgrade fails the
     * request and leaves the stored database as it was.
     */
    method CompleteOpen(ok: bool) returns (success: bool)
      requires Valid() && isOpening
      modifies this`isOpening, this`connected, this`diskVersion, this`schema
      ensures Valid() && !isOpening
      ensures success <==> (ok && old(diskVersion) <= version &&
        (old(diskVersion) < version ==> Upgrade(old(diskVersion), old(schema)).Ok?))
      ensures success ==> (connected && diskVersion == version &&
        schema == (if old(diskVersion) < version then Upgrade(old(diskVersion), old(schema)).value else old(schema)))
      ensures !success ==> connected == old(connected) && diskVersion == old(diskVersion) && schema == old(schema)
    {
      isOpening := false;
      if !ok || diskVersion > version {
        return false;
      }
      if diskVersion < version {
        var r := Upgrade(diskVersion, schema);
        if r.Err? {
          return false;
        }
        schema := r.value;
        diskVersion := version;
      }
      connected := true;
      success := true;
    }

    /** `db.onclose`. */
    method OnClose()
      requires Valid()
      modifies this`connected, this`isOpening
      ensures Valid() && !connected && !isOpening
    {
      connected := false;
      isOpening := false;
    }

    /** `saveStories`: one transaction clears `stories` and puts every input story. */
    method SaveStories(input: seq<Story>, cachedAt: int)
      requires Valid()
      modifies this`stories
      ensures Valid()
      ensures stories == CacheAll(input, cachedAt)
    {
      var s: seq<Story> := [];
      for i := 0 to |input|
        invariant s == CacheAll(input[..i], cachedAt)
      {
        assert input[..i + 1][..i] == input[..i];
        s := Put(s, StoryKey, Cache(input[i], cachedAt));
      }
      assert input[..|input|] == input;
      stories := s;
    }

    /** `deleteStory`. */
    method DeleteStory(id: string)
      requires Valid()
      modifies this`stories
      ensures Valid()
      ensures stories == Delete(old(stories), StoryKey, Str(id))
    {
      stories := Delete(stories, StoryKey, Str(id));
    }

    /**
     * `saveOfflineStory`: adds the caller's record with `id := now`, the
     * given `createdAt` and `synced := false`, and yields the id; a record
     * already stored under that id makes the `add` fail.
     */
    method SaveOfflineStory(data: OfflineStory, now: int, createdAt: int) returns (r: Result<int, StoreError>)
      requires Valid()
      modifies this`offlineStories
      ensures Valid()
      ensures r.Err? <==> Get(old(offlineStories), OfflineKey, Num(now)).Some?
      ensures r.Ok? ==> (r.value == now &&
        offlineStories == Put(old(offlineStories), OfflineKey, NewOfflineRecord(data, now, createdAt)))
      ensures r.Err? ==> offlineStories == old(offlineStories)
    {
      var rec := NewOfflineRecord(data, now, createdAt);
      var added := Add(offlineStories, OfflineKey, rec);
      if added.Err? {
        return Err(added.error);
      }
      offlineStories := added.value;
      r := Ok(rec.id);
    }

    /** `deleteOfflineStory`. */
    method DeleteOfflineStory(k: Key)
      requires Valid()
      modifies this`offlineStories
      ensures Valid()
      ensures offlineStories == Delete(old(offlineStories), OfflineKey, k)
    {
      offlineStories := Delete(offlineStories, OfflineKey, k);
    }

    /** `markOfflineStoryAsSynced`. */
    method MarkOfflineStoryAsSynced(k: Key)
      requires Valid()
      modifies this`offlineStories
      ensures Valid()
      ensures offlineStories == MarkSynced(old(offlineStories), k)
    {
      offlineStories := MarkSynced(offlineStories, k);
    }

    /**
     * `syncOfflineStories`: visits the unsynced records in store order; the
     * `i`-th remote attempt succeeds iff `outcome(i)`. A success marks the
     * record and appends its id to `successful`; a failure appends an entry
     * to `failed` and leaves the record.
     */
    method SyncOfflineStories(outcome: nat -> bool) returns (successful: seq<int>, failed: seq<SyncFailure>)
      requires Valid()
      modifies this`offlineStories
      ensures Valid()
      ensures successful == SuccessIds(Unsynced(old(offlineStories)), outcome)
      ensures failed == Failures(Unsynced(old(offlineStories)), outcome)
      ensures offlineStories == MarkAll(old(offlineStories), successful)
    {
      var pending := Unsynced(offlineStories);
      successful := [];
      failed := [];
      // An empty list is returned at once; the loop below would visit nothing.
      if |pending| != 0 {
        ghost var start := offlineStories;
        for i := 0 to |pending|
          invariant Valid() && Ordered(start, OfflineKey)
          invariant successful == SuccessIds(pending[..i], outcome)
          invariant failed == Failures(pending[..i], outcome)
          invariant offlineStories == MarkAll(start, successful)
        {
          SyncStep(pending, outcome, i);
          if outcome(i) {
            MarkOfflineStoryAsSynced(Num(pending[i].id));
            MarkAllSnoc(start, successful, pending[i].id);
            successful := successful + [pending[i].id];
          } else {
            failed := failed + [SyncFailure(pending[i].id, SyncFailedMessage)];
          }
        }
        assert pending[..|pending|] == pending;
      }
    }

    /** `addFavorite`: a favorite already stored under `storyId` makes the `add` fail. */
    method AddFavorite(storyId: string, story: Option<Story>, addedAt: int) returns (r: Result<(), StoreError>)
      requires Valid()
      modifies this`favorites
      ensures Valid()
      ensures r.Err? <==> IsFavorite(old(favorites), storyId)
      ensures r.Ok? ==> favorites == Put(old(favorites), FavoriteKey, Favorite(storyId, story, addedAt))
      ensures r.Err? ==> favorites == old(favorites)
    {
      var added := Add(favorites, FavoriteKey, Favorite(storyId, story, addedAt));
      if added.Err? {
        return Err(added.error);
      }
      favorites := added.value;
      r := Ok(());
    }

    /** `removeFavorite`. */
    method RemoveFavorite(storyId: string)
      requires Valid()
      modifies this`favorites
      ensures Valid()
      ensures favorites == Delete(old(favorites), FavoriteKey, Str(storyId))
    {
      favorites := Delete(favorites, FavoriteKey, Str(storyId));
    }

    /** `clearDatabase`: one transaction empties all three stores. */
    method ClearDatabase()
      requires Valid()
      modifies this`stories, this`offlineStories, this`favorites
      ensures Valid()
      ensures stories == [] && offlineStories == [] && favorites == []
    {
      stories := [];
      offlineStories := [];
      favorites := [];
    }
  }
}
