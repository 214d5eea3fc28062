# Cerita di Sekitarmu: a verified model of the offline story app

"Cerita di Sekitarmu" is a single-page web application for sharing short
stories with an optional map location. It talks to the Dicoding story API
and keeps working offline through three mechanisms:

- an IndexedDB database (`CeritaDatabase`, version 9) with three object
  stores: cached `stories`, `offlineStories` written while offline, and
  `favorites`;
- a service worker that pre-caches the application shell and answers
  requests from the cache;
- a push-notification manager that falls back to `localStorage` where the
  push service cannot be used.

This project models the decision logic and the data layer of that
application in Dafny and proves what the code promises about them.

| module | models |
|---|---|
| `IdbManager` (`idb_manager.dfy`) | `IDBManager`, a class over three key-ordered sequences: the once-guarded open, the schema upgrade, story caching, the offline-story lifecycle, the sync loop, favorites and clearing |
| `ObjectStore`, `KeyOrder` | IndexedDB object-store semantics: `get`, `put`, `add`, `delete` over a sequence kept in ascending key order, with numbers before strings |
| `Records` | the stored records (`Story`, `OfflineStory`, `Favorite`) and JavaScript truthiness of their fields |
| `StoryQuery` | the read side: search, conjunctive filter, the two-key comparator sort, stats and pagination |
| `StoryText` | the `**title**\n description` convention: the writer, both parsers, the round trip, the offline preview |
| `HomePage` | the home page's filter pipeline, list selection, stats text, offline section and favorite toggle |
| `AddPage` | form validation, photo selection, the 5 MB file check, the camera blob |
| `OfflinePage`, `FavoritesPage` | storage counts, the offline listing, cache refresh, the favorites export and clear |
| `Api` | response normalisation, the story form, error-envelope mapping |
| `Base64`, `PushManager` | base64url decoding (following section 5 of RFC 4648) of the VAPID key; subscription mode, memoised `init` and status |
| `ServiceWorker` (`service_worker.dfy`) | `sw.js`: install, activate pruning, the fetch policy and the notification-click client choice, over an ordered list of named caches |
| `SwRegister`, `Routes`, `App` | the worker script URL; the route table and its access rule; `renderPage`'s redirects, re-entrancy guard, transition direction and title |
| `Wrappers`, `Text`, `Seqs` | `Option`/`Result`; string helpers (`trim`, `split`, `indexOf`, decimal printing); filter and stable insertion sort with their lemmas |

## Model

Several kinds of input are passed in as parameters:

- clock reads (`Date.now()`, ISO timestamps) become integer parameters;
- random and remote outcomes become oracle functions or outcome values: the
  sync simulation, `fetch`, push-service calls and whether a page's loader
  throws;
- browser state becomes values: the login state, the location, the open
  clients.

| member | source | states |
|---|---|---|
| `Routes.GetFallbackRoute` | src/scripts/routes/routes.js:11-13 | the fallback route has a loader and is a public route |
| `Routes.GetRouteLoader` | src/scripts/routes/routes.js:27-29 | a loader exists exactly for a path of the route table and is that path's page; any other path gives none (`null`) |
| `Routes.ValidateRouteAccess` | src/scripts/routes/routes.js:31-45 | refused for a protected route when logged out, refused for `/login` and `/register` when logged in, allowed in every other case |
| `Routes.ListsDisjoint` | src/scripts/routes/routes.js:15-17 | no route is both protected and public |
| `Routes.ListedRoutesHaveLoaders` | src/scripts/routes/routes.js:1-17 | a route is in the protected or the public list exactly when it has a loader |
| `Routes.FallbackAlwaysAccessible` | src/scripts/routes/routes.js:11-17 | the fallback route passes the access rule whether or not the user is logged in |
| `App.PageOrder` | src/scripts/pages/app.js:16-24 | order 0 exactly for routes outside the table; the seven pages are numbered 1 to 7 |
| `App.PageOrderInjective` | src/scripts/pages/app.js:16-24 | two different pages have different positions |
| `App.TransitionDirection` | src/scripts/pages/app.js:264-277 | no transition before the first page; otherwise forward iff the new order is larger, backward iff smaller, none iff equal |
| `App.TransitionReverses` | src/scripts/pages/app.js:264-277 | a to b is forward exactly when b to a is backward; "none" is symmetric |
| `App.NoTransitionBetweenPages` | src/scripts/pages/app.js:264-277 | between two pages of the table there is no transition exactly when the page does not change |
| `App.DocumentTitle` | src/scripts/pages/app.js:292-304 | a route outside the title map gets the application title; every page title ends with the application title |
| `App.Decide` | src/scripts/pages/app.js:141-180 | root (empty, `#`, `/`) redirects to the home or about page by login state; a logged-out protected route redirects to about; a logged-in login or register redirects to home; 404 exactly for an allowed route without a loader; a page is shown exactly for an allowed route of the table |
| `App.RedirectsAreRefusals` | src/scripts/pages/app.js:152-169 | apart from the root, `renderPage` redirects exactly the routes `validateRouteAccess` refuses |
| `App.RedirectTargetsAreShown` | src/scripts/pages/app.js:141-169 | every redirect target is itself shown, so redirects never chain |
| `App.App.constructor` | src/scripts/pages/app.js:26-39 | not rendering, no previous or current route |
| `App.App.RenderPage` | src/scripts/pages/app.js:125-228 | nothing changes without a container or during another render; otherwise the flag is cleared on every path; a redirect sets the hash to `#` plus the target; a route without a loader shows the 404; a failing load shows the error and keeps routes and title; a successful render moves the current route into the previous one, makes the url current and sets the page title |
| `ServiceWorker.Put` | sw.js:120-121 | `cache.put` creates the cache if needed and changes only the entry for that url in that cache; cache names stay distinct |
| `ServiceWorker.Match` | sw.js:111 | `caches.match` finds nothing exactly when no cache holds the url; otherwise it returns a stored response for it |
| `ServiceWorker.Resolve` | sw.js:40-42 | a `./` url names its path inside the scope and so starts with the scope; any other url is kept |
| `ServiceWorker.PrunedKeepsCurrent` | sw.js:81-88 | a cache survives activation exactly when it was there and its name is the shell or the version cache |
| `ServiceWorker.PrunedDistinct` | sw.js:81-88 | pruning distinct-named caches leaves distinct names |
| `ServiceWorker.CachedEntries` | sw.js:38-61 | after the install loops a url is cached exactly when it was cached before or it is listed and its fetch came back ok; its value is that response; a failing url is skipped and leaves the old entry |
| `ServiceWorker.ChooseClient` | sw.js:161-166 | the first window client whose url contains the origin is focused; when there is none, `./` is opened |
| `ServiceWorker.ServiceWorker.constructor` | sw.js:1-22 | the worker starts with the given origin and caches; its scope is the origin followed by the script's directory |
| `ServiceWorker.ServiceWorker.Intercepts` | sw.js:99-106 | only GET requests that do not name the API host are answered; every such request under the worker's scope is |
| `ServiceWorker.ServiceWorker.Install` | sw.js:25-69 | the shell cache exists afterwards and its entries are the cached fold over the essential and then the optional files, keyed by their URLs resolved against the scope; no other cache changes |
| `ServiceWorker.ServiceWorker.Activate` | sw.js:72-93 | the caches afterwards are exactly the pruned old caches, in order |
| `ServiceWorker.ServiceWorker.Fetch` | sw.js:96-143 | non-GET, API-host and foreign-origin requests pass through untouched; a cache hit is returned with the caches unchanged; a network response is returned and put into the shell cache iff its status is 200; on network failure a document gets the cached `./index.html`, resolved against the scope, when present, and everything else gets the 503 `text/html` page |
| `ServiceWorker.StoredResponseIsServed` | sw.js:111-122 | after a cache miss stores a response, the next match for that url returns it |
| `ServiceWorker.InstalledIsServed` | sw.js:38-112 | after install, a GET for a listed file whose fetch came back ok is intercepted and found by `caches.match`, so it is served from the cache |
| `SwRegister.RepoName` | src/scripts/utils/sw-register.js:103 | the repository segment is never empty |
| `SwRegister.GetSwUrl` | src/scripts/utils/sw-register.js:91-109 | local hosts get `/sw.js`; `github.io` hosts get `/` plus the repository plus `/sw.js`; any other host gets `/sw.js`; every result ends in `/sw.js` |
| `SwRegister.GitHubPagesUrl` | src/scripts/utils/sw-register.js:101-105 | on `github.io` the repository is the first path segment |
| `SwRegister.GitHubPagesRepoOnly` | src/scripts/utils/sw-register.js:101-105 | on `github.io` a path that is only `/` and the repository, with no trailing `/`, also selects that repository |
| `SwRegister.GitHubPagesRoot` | src/scripts/utils/sw-register.js:103 | on `github.io` the site root falls back to `/revisi2/sw.js` |
| `PushManager.ShouldUseLocalStorage` | src/scripts/utils/push-manager.js:130-150 | true iff the host contains `github.io` or the protocol is not `https:`; the localhost test does not matter |
| `PushManager.PushManager.constructor` | src/scripts/utils/push-manager.js:2-12 | not subscribed, no registration or subscription, not initialised, no memoised promise |
| `PushManager.PushManager.InitWithLocalStorage` | src/scripts/utils/push-manager.js:152-163 | subscribed iff the stored key is truthy; registration and subscription cleared |
| `PushManager.PushManager.SyncWithLocalStorage` | src/scripts/utils/push-manager.js:165-176 | afterwards the key is set iff subscribed; a key that already agrees is left alone |
| `PushManager.PushManager.Init` | src/scripts/utils/push-manager.js:14-84 | a second call returns the memoised promise and changes nothing; the first creates one, resolves to false only when push is unsupported, uses local storage when the environment or the worker demands it, and otherwise adopts the worker's existing subscription and reconciles the key |
| `PushManager.PushManager.Recover` | src/scripts/utils/push-manager.js:479-484 | the memoised promise is dropped, so a new one is created and initialisation runs again |
| `PushManager.PushManager.Subscribe` | src/scripts/utils/push-manager.js:178-274 | initialises first if needed; a refused permission gives false; local-storage mode or a missing registration stores the local record and gives true; otherwise success iff the push service works, storing the new subscription |
| `PushManager.PushManager.Unsubscribe` | src/scripts/utils/push-manager.js:276-326 | always true, always unsubscribed with the key removed, on the normal and the error path; a registered subscription is dropped |
| `PushManager.PushManager.GetStatus` | src/scripts/utils/push-manager.js:458-476 | the flag is re-read from the key; the report carries the flag, support, permission, initialisation, environment and registration |
| `Base64.Padding` | src/scripts/utils/push-manager.js:445 | the padding lies in 0..3 and makes the padded length a multiple of four |
| `Base64.ToStandardAlphabet` | src/scripts/utils/push-manager.js:446-448 | `-` and `_` become `+` and `/`, character by character, length kept |
| `Base64.Decode` | src/scripts/utils/push-manager.js:449 | decoding fails exactly when the unpadded length is one more than a multiple of four or a character lies outside the alphabet |
| `Base64.UrlBase64ToUint8Array` | src/scripts/utils/push-manager.js:444-456 | a fresh array holding exactly the decoded bytes, one cell per byte; none where decoding throws |
| `Base64.DecodeEncode` | src/scripts/utils/push-manager.js:449 | decoding the standard encoding of any byte string gives it back |
| `Base64.UrlRoundTrip` | src/scripts/utils/push-manager.js:444-455 | the key conversion inverts the unpadded base64url encoding of any byte string |
| `Records.UnsyncedTestsAgree` | src/scripts/utils/idb-manager.js:314-316 | `synced === false \|\| synced === undefined` agrees with the falsy-`synced` test the pages use |
| `ObjectStore.Get` | src/scripts/utils/idb-manager.js:259 | a found record is in the store with that key; none means no record has the key |
| `ObjectStore.Put` | src/scripts/utils/idb-manager.js:129-133 | the store stays key-ordered; its records are the new one plus the old ones with other keys; it grows by one iff the key was new |
| `ObjectStore.Add` | src/scripts/utils/idb-manager.js:199 | rejects exactly when the key exists; otherwise same as `put` |
| `ObjectStore.Delete` | src/scripts/utils/idb-manager.js:172 | the store stays key-ordered and keeps exactly the records with another key; it shrinks by one iff the key existed |
| `ObjectStore.GetAfterPut` | src/scripts/utils/idb-manager.js:129-133 | after `put` the record's key reads the record and every other key reads as before |
| `ObjectStore.GetAfterDelete` | src/scripts/utils/idb-manager.js:172 | after `delete` the key reads nothing and every other key reads as before |
| `IdbManager.CreateStore` | src/scripts/utils/idb-manager.js:53 | creating an existing store fails; otherwise the store is added |
| `IdbManager.EnsureSyncedIndex` | src/scripts/utils/idb-manager.js:77-83 | fails exactly when the `offlineStories` store is missing |
| `IdbManager.Upgrade` | src/scripts/utils/idb-manager.js:43-83 | an upgrade from below version 9 leaves `offlineStories` with its `synced` index; from version 0 all three stores exist; at the current version nothing changes |
| `IdbManager.UpgradeFresh` | src/scripts/utils/idb-manager.js:51-83 | a fresh database upgrades to the full version-9 schema |
| `IdbManager.UpgradeFromOld` | src/scripts/utils/idb-manager.js:77-83 | an old database with the offline store keeps its stores and gains only the `synced` index |
| `IdbManager.UpgradeMissingStore` | src/scripts/utils/idb-manager.js:77-79 | an old database without the offline store fails with `NotFoundError` |
| `IdbManager.Cache` | src/scripts/utils/idb-manager.js:129-133 | the cached record keeps the id, gets `hasLocation = lat && lon` and the cache time |
| `IdbManager.CacheAll` | src/scripts/utils/idb-manager.js:123-136 | the cached collection is key-ordered |
| `IdbManager.CachedLookup` | src/scripts/utils/idb-manager.js:123-136 | reading an id after caching gives the LAST input story with that id, cached; an id not in the input reads nothing |
| `IdbManager.CachedRecords` | src/scripts/utils/idb-manager.js:123-136 | every cached record is some input story with the derived `hasLocation` and the cache time |
| `IdbManager.NewOfflineRecord` | src/scripts/utils/idb-manager.js:193-198 | the id is the timestamp, `createdAt` is set, `synced` is false, the caller's fields are kept, whatever id the caller passed |
| `IdbManager.Unsynced` | src/scripts/utils/idb-manager.js:313-316 | exactly the records with `synced` false or undefined, in store order; none has `synced: true` |
| `IdbManager.MarkSynced` | src/scripts/utils/idb-manager.js:262-284 | a missing key changes nothing; an existing numeric key gets `synced = true` with every other field kept; every other key reads as before |
| `IdbManager.MarkAllLookup` | src/scripts/utils/idb-manager.js:374-376 | after marking a list of ids, a key reads as synced iff it is one of them, and other records are unchanged |
| `IdbManager.SyncLengths` | src/scripts/utils/idb-manager.js:341-384 | the successful and failed lists together are as long as the pending list |
| `IdbManager.SuccessIdsExact` | src/scripts/utils/idb-manager.js:372-376 | a pending record's id is in the successful list iff its attempt succeeded |
| `IdbManager.FailuresExact` | src/scripts/utils/idb-manager.js:377-383 | a pending record has a failure entry, with the fixed message, iff its attempt failed |
| `IdbManager.SyncPartition` | src/scripts/utils/idb-manager.js:341-384 | each pending record lands in exactly one of the two lists and the lengths add up |
| `IdbManager.SyncOutcome` | src/scripts/utils/idb-manager.js:341-384 | after sync a successful record reads as synced and a failed one reads as before |
| `IdbManager.IsFavorite` | src/scripts/utils/idb-manager.js:456-473 | true iff a favorite with that `storyId` exists |
| `IdbManager.FavoriteAfterPut` | src/scripts/utils/idb-manager.js:403-412 | after adding favorite f, a story is a favorite iff it is f's story or was one before |
| `IdbManager.FavoriteAfterDelete` | src/scripts/utils/idb-manager.js:427 | after removing an id, a story is a favorite iff it is another story and was one before |
| `IdbManager.UniqueStoryIds` | src/scripts/utils/idb-manager.js:403-410 | at most one favorite per `storyId` |
| `IdbManager.IDBManager.constructor` | src/scripts/utils/idb-manager.js:2-8 | name `CeritaDatabase`, version 9, not connected, not opening, empty stores |
| `IdbManager.IDBManager.Init` | src/scripts/utils/idb-manager.js:10-16 | while an open is under way the same promise is returned and no new request is made; otherwise one new open request starts |
| `IdbManager.IDBManager.CompleteOpen` | src/scripts/utils/idb-manager.js:17-96 | the open succeeds iff the request succeeds, the disk version is not newer and the upgrade succeeds; then the schema is the upgraded one at version 9; a failure leaves connection and schema unchanged |
| `IdbManager.IDBManager.OnClose` | src/scripts/utils/idb-manager.js:34-38 | the connection is dropped |
| `IdbManager.IDBManager.SaveStories` | src/scripts/utils/idb-manager.js:118-144 | the stories store becomes exactly the cached input (cleared, then each put in order) |
| `IdbManager.IDBManager.DeleteStory` | src/scripts/utils/idb-manager.js:163-180 | the story with that id is deleted and nothing else changes |
| `IdbManager.IDBManager.SaveOfflineStory` | src/scripts/utils/idb-manager.js:182-209 | rejects, store unchanged, iff the timestamp key exists; otherwise returns the timestamp and adds the new record |
| `IdbManager.IDBManager.DeleteOfflineStory` | src/scripts/utils/idb-manager.js:229-248 | the offline record with that key is deleted |
| `IdbManager.IDBManager.MarkOfflineStoryAsSynced` | src/scripts/utils/idb-manager.js:250-297 | the offline store becomes its `MarkSynced` image |
| `IdbManager.IDBManager.SyncOfflineStories` | src/scripts/utils/idb-manager.js:338-390 | returns the successful ids and failures of the pending records in store order, and marks exactly the successful ones synced |
| `IdbManager.IDBManager.AddFavorite` | src/scripts/utils/idb-manager.js:395-418 | rejects, store unchanged, iff the story is already a favorite; otherwise puts the new favorite |
| `IdbManager.IDBManager.RemoveFavorite` | src/scripts/utils/idb-manager.js:420-436 | deletes the favorite with that `storyId` (also the favorites page's remove button) |
| `IdbManager.IDBManager.ClearDatabase` | src/scripts/utils/idb-manager.js:672-694 | all three stores are empty |
| `StoryQuery.Search` | src/scripts/utils/idb-manager.js:475-511 | a blank query gives a permutation of all stories, any other query a permutation of the matching ones; either way newest first |
| `StoryQuery.SearchMembers` | src/scripts/utils/idb-manager.js:479-503 | a story is in the result iff it is stored and (the query is blank or its lower-cased name or description contains the trimmed lower-cased query) |
| `StoryQuery.FavoriteIds` | src/scripts/utils/idb-manager.js:541 | the favorite ids, one per favorite, in order |
| `StoryQuery.FilterStories` | src/scripts/utils/idb-manager.js:514-552 | the result is no longer than the stories and holds only stored stories; with no filter requested it is all of them, in order |
| `StoryQuery.FilterStoriesConjunctive` | src/scripts/utils/idb-manager.js:524-547 | the three filters in sequence equal one filter by their conjunction, and the result is a subsequence of the stories |
| `StoryQuery.Compare3` | src/scripts/utils/idb-manager.js:571-574 | -1, 0 or 1, negative iff less, positive iff greater, zero iff equal |
| `StoryQuery.DescNegatesPrimaryOnly` | src/scripts/utils/idb-manager.js:565-594 | `desc` negates the primary comparison; on a primary tie the secondary field decides under its own order |
| `StoryQuery.SortComparator` | src/scripts/utils/idb-manager.js:565-594 | the comparator returns -1, 0 or 1 and ties every story with itself |
| `StoryQuery.SortComparatorConsistent` | src/scripts/utils/idb-manager.js:565-594 | the comparator is antisymmetric and transitive, so sorting with it is well-defined |
| `StoryQuery.SortStories` | src/scripts/utils/idb-manager.js:555-599 | the result is a permutation of the input, sorted by the comparator |
| `StoryQuery.SortByDate` | src/scripts/utils/idb-manager.js:565-578 | sorted by date, `desc` gives newest first and `asc` oldest first |
| `StoryQuery.GetStats` | src/scripts/utils/idb-manager.js:602-626 | the totals are the store sizes; the located count is the number of stories with coordinates and the unsynced count is the length of the `getUnsyncedStories` list, each bounded by its store size |
| `StoryQuery.StatsLocationSplit` | src/scripts/utils/idb-manager.js:608-609 | stories with and without coordinates add up to the total |
| `StoryQuery.CeilDiv` | src/scripts/utils/idb-manager.js:658 | the page count is the least number of pages covering all stories; a page size of 0 has no finite count (`Infinity`, or `NaN` when there are no stories) |
| `StoryQuery.Paginate` | src/scripts/utils/idb-manager.js:647-670 | the page reports total, page and size, and holds the stories of its window |
| `StoryQuery.PaginateCovers` | src/scripts/utils/idb-manager.js:650-663 | every story appears on page `i / size + 1` at its offset, and that page is within the page count |
| `StoryText.ExtractTitle` | src/scripts/pages/offline/offline-page.js:432-444 | a title exactly when the description starts with `**` and contains `**\n`; it is the trimmed first segment without its `**` |
| `StoryText.ExtractDisplayInfo` | src/scripts/pages/home/home-page.js:652-671 | without the marker: the name or the default title and the description unchanged; with it: the parsed title, replaced by the name when it is the default title and the name is non-empty (an empty parse stays empty), and the trimmed rest joined |
| `StoryText.ExtractTitleAgrees` | src/scripts/pages/offline/offline-page.js:432-458 | whenever `_extractTitle` finds a title, `_extractStoryDisplayInfo` parses the same one |
| `StoryText.ComposeDescription` | src/scripts/pages/add/add-page.js:515-517 | the combined description always carries the title marker |
| `StoryText.ComposeRoundTrip` | src/scripts/pages/add/add-page.js:515-517 | for a title without newline and a description without `**\n`, both parsers recover the trimmed title and description |
| `StoryText.Preview` | src/scripts/pages/offline/offline-page.js:153-155 | the description itself up to 100 characters, else its first 100 and `...` |
| `StoryText.PreviewShape` | src/scripts/pages/offline/offline-page.js:153-155 | at most 103 characters; `...` appended iff the description is longer than 100 |
| `HomePage.LocationFilter` | src/scripts/pages/home/home-page.js:293-297 | `with-location` keeps only located stories, `without-location` only unlocated ones, any other value keeps all |
| `HomePage.LocationFiltersPartition` | src/scripts/pages/home/home-page.js:293-297 | the two location filters split the list |
| `HomePage.ApplyFiltersAsWritten` | src/scripts/pages/home/home-page.js:286-305 | as written, the list shown is a permutation of every stored story, whatever the query and filter |
| `HomePage.ApplyFiltersAsWrittenIgnoresLocation` | src/scripts/pages/home/home-page.js:299-302 | the code as written shows an unlocated story under `with-location` |
| `HomePage.FilteredView` | src/scripts/pages/home/home-page.js:286-305 | the view is a permutation of the location-narrowed search pool, in the chosen date order |
| `HomePage.FilteredViewMembers` | src/scripts/pages/home/home-page.js:289-302 | a story is in the view iff it is in the search pool and passes the location filter |
| `HomePage.DisplayList` | src/scripts/pages/home/home-page.js:307-310 | the filtered list when non-empty, otherwise all stories |
| `HomePage.StatsText` | src/scripts/pages/home/home-page.js:628-649 | the favorites message in the `favorit` context; otherwise `Menampilkan {filtered} dari {all} cerita` and the quoted query when one is set |
| `HomePage.StatsTextShape` | src/scripts/pages/home/home-page.js:628-649 | every stats text opens with `Menampilkan` and the filtered count, and ends with the quoted query when searching |
| `HomePage.OfflineListing` | src/scripts/pages/home/home-page.js:510-513 | exactly the offline records with a falsy `synced` |
| `HomePage.OfflineListingIsUnsynced` | src/scripts/pages/home/home-page.js:513 | the home page's listing equals the store's unsynced list |
| `HomePage.FindOffline` | src/scripts/pages/home/home-page.js:588 | finds a record with that id, or reports that none has it |
| `HomePage.FindIsGet` | src/scripts/pages/home/home-page.js:588 | on the key-ordered store the search is the keyed read |
| `HomePage.SyncSingleStory` | src/scripts/pages/home/home-page.js:585-593 | marks the record synced iff one has the id; otherwise nothing changes |
| `HomePage.FindStory` | src/scripts/pages/home/home-page.js:397 | finds a loaded story with that id, or reports that none has it |
| `HomePage.HomePage.constructor` | src/scripts/pages/home/home-page.js:5-12 | no stories, filter `all`, sort `newest`, empty query |
| `HomePage.HomePage.ApplyFilters` | src/scripts/pages/home/home-page.js:286-305 | the filtered list becomes the filtered view of the current query, filter and sort |
| `HomePage.HomePage.SetSearch` | src/scripts/pages/home/home-page.js:243-246 | the query is the trimmed input and the view is recomputed |
| `HomePage.HomePage.SetFilter` | src/scripts/pages/home/home-page.js:257-262 | the filter is set and the view is recomputed |
| `HomePage.HomePage.SetSort` | src/scripts/pages/home/home-page.js:264-269 | the sort is set and the view is recomputed |
| `HomePage.HomePage.LoadStories` | src/scripts/pages/home/home-page.js:190-237 | a non-empty fetch is cached and shown; otherwise the cached stories are shown unchanged |
| `HomePage.HomePage.ToggleFavorite` | src/scripts/pages/home/home-page.js:394-410 | a favorited story is removed; otherwise it is added unless it already is a favorite |
| `AddPage.SelectPhoto` | src/scripts/pages/add/add-page.js:492-501 | camera mode with a blob uses the blob, file mode with a file uses the file, otherwise no photo |
| `AddPage.ValidFormPhoto` | src/scripts/pages/add/add-page.js:614-623 | for the two photo modes a valid form always has a photo to send; for any other mode the form check passes without one |
| `AddPage.AddPage.constructor` | src/scripts/pages/add/add-page.js:4-11 | no captured blob and no chosen file |
| `AddPage.AddPage.ValidateForm` | src/scripts/pages/add/add-page.js:562-626 | valid iff the trimmed title has at least 2 characters, the trimmed description at least 5 and the photo requirement holds; each error message appears exactly in its case |
| `AddPage.AddPage.Submit` | src/scripts/pages/add/add-page.js:478-517 | submits iff the form is valid and a photo is selected, with the combined description and the selected photo; otherwise one of the two messages |
| `AddPage.AddPage.ChooseFile` | src/scripts/pages/add/add-page.js:338-345 | a file over 5 MB is refused with a message and the input cleared; otherwise it is kept |
| `AddPage.AddPage.Capture` | src/scripts/pages/add/add-page.js:400-421 | with an active stream the blob is captured; otherwise nothing changes |
| `AddPage.AddPage.Retake` | src/scripts/pages/add/add-page.js:434-439 | the captured blob is dropped |
| `AddPage.AddPage.Cleanup` | src/scripts/pages/add/add-page.js:628-655 | the captured blob is dropped |
| `OfflinePage.LoadStorageInfo` | src/scripts/pages/offline/offline-page.js:108-126 | saved and favorite counts are the store sizes; the offline count is the number of unsynced records |
| `OfflinePage.Heading` | src/scripts/pages/offline/offline-page.js:149-151 | the extracted title when the marker is present and the title is non-empty; the default title when the marker is missing or the extracted title is empty; never empty |
| `OfflinePage.Entries` | src/scripts/pages/offline/offline-page.js:142-180 | one entry per unsynced record, in order |
| `OfflinePage.LoadOfflineStories` | src/scripts/pages/offline/offline-page.js:128-185 | the empty state iff no entry iff every record is synced; otherwise one entry per unsynced record, in order |
| `OfflinePage.ListedEntries` | src/scripts/pages/offline/offline-page.js:136-155 | every listed entry comes from an unsynced record of the store |
| `OfflinePage.RefreshCache` | src/scripts/pages/offline/offline-page.js:310-327 | deleting each cached story by id leaves the stories store empty |
| `FavoritesPage.EntryOf` | src/scripts/pages/favorites/favorites-page.js:162-167 | the entry's title is the favorite's name; description, photo and time are carried over |
| `FavoritesPage.Entries` | src/scripts/pages/favorites/favorites-page.js:162-167 | entry i is built from favorite i |
| `FavoritesPage.ExportFavorites` | src/scripts/pages/favorites/favorites-page.js:150-168 | no document iff there are no favorites; otherwise the count equals the number of favorites and of entries, entries in order |
| `FavoritesPage.ClearAllFavorites` | src/scripts/pages/favorites/favorites-page.js:131-148 | removing each favorite by `storyId` leaves the store empty |
| `Api.Normalize` | src/scripts/data/api.js:50-68 | the seven fields are kept; the photo url is kept when usable and becomes the placeholder iff missing or not starting with `http` |
| `Api.NormalizeAll` | src/scripts/data/api.js:50-68 | length and order are kept |
| `Api.FetchStoriesWithToken` | src/scripts/data/api.js:13-86 | no request without a token; a thrown error, a failed status, an error body or a missing list gives `[]`; otherwise the normalised list |
| `Api.StoryForm` | src/scripts/data/api.js:97-101 | description and photo come first; `lat` and `lon` are appended iff truthy |
| `Api.ResponseErrorMessage` | src/scripts/data/api.js:125-131 | the body's message when present, else `Error {status}: {statusText}` |
| `Api.ThrownMessage` | src/scripts/data/api.js:138-158 | `AbortError` gives the timeout message; a `TypeError` with "Failed to fetch" the connection message; anything else the prefixed error text |
| `Api.PostStory` | src/scripts/data/api.js:87-160 | no token gives the login error with no request; otherwise the form is sent; a non-ok status or an error body gives the error envelope, a success the body, a throw the classified message |
| `Api.PostFailureMessages` | src/scripts/data/api.js:125-158 | every error envelope carries a non-empty message |

## Left out

- The DOM, HTML templates, event listeners, `alert`/`confirm`, Leaflet maps, the camera stream, canvas, `FileReader` and date formatting. Only the values these handlers compute are modelled.
- IndexedDB's request and event plumbing (`onsuccess`, `onerror`, `onblocked`) and the `_ensureDB` probe (idb-manager.js:97-115). Each store operation is atomic. `CompleteOpen` stands for the whole open request, with its success as a parameter.
- The random sync simulation and its 500 ms delay (idb-manager.js:362-371). An oracle on the attempt's index replaces them.
- Clock reads (`Date.now()`, `toISOString()`). They are integer parameters.
- `getStories`, `getStoryById`, `getOfflineStories` and `getFavorites`. They are plain reads of a store, which the model exposes as its fields.
- `lat`/`lon` as floating point. They are `real`. `parseFloat`/`toFixed` and the map click handler are not modelled.
- `navigation.js`, `index.js`, `loginUser`, `registerUser` and the build scripts. They are UI, bootstrap, authentication and build code, outside the offline core.
- The console-only error classification in `fetchStoriesWithToken` (api.js:71-84). It changes nothing but the log; the function returns `[]` in every case.
- `fetch`, `AbortController` timeouts and the push server's subscribe and unsubscribe requests. They are outcome parameters.
- The subscription JSON. It is reduced to two constant records.
- `atob`. Base64 decoding is defined directly from RFC 4648. Whitespace, which `atob` strips, is treated as an invalid character.
- The service-worker `push` event (sw.js:146-156). It only displays a notification.
- `skipWaiting` and `clients.claim`. They are lifecycle calls.
- URL resolution beyond `./` paths (`..`, query strings, fragments, percent-encoding). Manifest entries are `./` paths, and requests are matched by their absolute url text.
- The fire-and-forget `cache.put` in the fetch handler. It is modelled as completing before the response is returned.
- `Promise.all` in activate. Its deletions are modelled one after another.
- `getActiveRoute` and the url parser, which are not part of this model. `renderPage` receives the parsed route.
- Route lookups of object-prototype names (for example `constructor`). They cannot arise from the parser's routes, which start with `/`.
- The re-render that the `hashchange` after a redirect triggers.
- View transitions, debounce timers and `afterRender` errors.
- The registration lifecycle in sw-register.js (`cleanupOldSW`, `waitForActivation`, `setupAutoUpdate`). It is driven by events and timers; only `getSWUrl` is modelled.
- `_showFavorites` (home-page.js:436-447). It puts favorite records into the story list for display only.
- `_syncOfflineData` on the home page and the offline page's own sync and delete buttons. They call the store operations modelled in `IdbManager`.
- The photo-type change handler (add-page.js:356-359). It clears a local variable, not the field `_capturedBlob`, so the model keeps the captured blob across a mode switch.
- `PushManager.PushManager.Init`: the memoised promise is modelled as set at once. In the source it is set before the asynchronous initialisation completes, so a second caller may see `isInitialized` still false.
- `StoryQuery.Search`: lower-casing is ASCII only. Strings are sequences of code points, and `toLowerCase` applies the full Unicode case mapping, so a non-ASCII letter in a query or a story matches in the source but may not in the model.
- `StoryQuery.SearchMembers`: states membership under the same ASCII-only lower-casing as `StoryQuery.Search`, which is weaker than `toLowerCase` on non-ASCII text.
- `AddPage.AddPage.ValidateForm`: the length thresholds (2 for the title, 5 for the description; add-page.js:591, 606) count code points. JavaScript's `length` counts UTF-16 code units, so a character outside the Basic Multilingual Plane counts once in the model and twice in the source.
- `AddPage.AddPage.Submit`: inherits the code-point lengths of `AddPage.AddPage.ValidateForm`.
- `StoryText.Preview`: `substring(0, 100)` and `length > 100` count UTF-16 code units in the source and code points in the model. The source may split a surrogate pair at the cut; the model cannot.
- `StoryText.PreviewShape`: its bounds (100 and 103) are in code points, not UTF-16 code units.
- `HomePage.HomePage.ApplyFilters`: computes the corrected view (see "## Findings"). The page as written (home-page.js:299-302) shows every stored story sorted by date, which `HomePage.ApplyFiltersAsWritten` models.
- `HomePage.HomePage.SetSearch`: recomputes the corrected view, like `HomePage.HomePage.ApplyFilters`, instead of the as-written all-stories list.
- `HomePage.HomePage.SetFilter`: recomputes the corrected view, like `HomePage.HomePage.ApplyFilters`, instead of the as-written all-stories list.
- `HomePage.HomePage.SetSort`: recomputes the corrected view, like `HomePage.HomePage.ApplyFilters`, instead of the as-written all-stories list.
- `KeyOrder.StrLess`: compares strings by code point, where IndexedDB and JavaScript's `<` compare UTF-16 code units. The two orders differ only between a character above U+FFFF and one in U+E000-U+FFFF. The order of the string-keyed stores in `ObjectStore` and `StoryQuery.SortStories` on string fields inherit this.
- `IdbManager.IDBManager.SaveStories`: one `cachedAt` stamps every record. The source reads the clock once per story (idb-manager.js:131), so its stamps may differ by the milliseconds the loop takes.
- `AddPage.AddPage.Submit`: the submission leaves out `lat` and `lon` (add-page.js:522-523). They come from the map handlers, which are not modelled; `Api.StoryForm` models how the request carries them.

## Findings

| source | as written | input that shows it | evidently intended | confidence | as-written member | corrected member |
|---|---|---|---|---|---|---|
| src/scripts/pages/home/home-page.js:299-302 | `_filteredStories` is overwritten by `sortStories` over all stored stories, discarding the search and location narrowing computed just before | two stored stories, `a` with coordinates and `b` without, filter `with-location`: `b` is shown | sort the narrowed list | not executed | `HomePage.ApplyFiltersAsWrittenIgnoresLocation` | `HomePage.FilteredView` |

The model of the page, `HomePage.HomePage.ApplyFilters`, uses the corrected
view. `HomePage.ApplyFiltersAsWritten` is the function the as-written lemma
is about.
