/**
 * The service worker's cache policy: installing the two manifests into the
 * app-shell cache, pruning old caches on activation, answering fetches
 * from the cache or the network, and picking the window a notification
 * click focuses. The Cache API is a sequence of named caches in creation
 * order; the network is an outcome parameter. The manifest's relative
 * URLs are resolved against the worker's scope, the directory its script
 * is served from, as the Cache API and `fetch` resolve them.
 */
module ServiceWorker {
  import opened Wrappers
  import opened Text

  const CacheName := "cerita-sekitarmu-v1.0.0"
  const AppShellCache := "app-shell-v1"

  /** The files every install tries to cache first. */
  const EssentialFiles: seq<string> := ["./", "./index.html", "./manifest.json", "./styles.css"]

  /** The icons tried afterwards. */
  const OptionalFiles: seq<string> := [
    "./favicon.png", "./icons/icon-72x72.png", "./icons/icon-96x96.png", "./icons/icon-128x128.png",
    "./icons/icon-144x144.png", "./icons/icon-152x152.png", "./icons/icon-192x192.png",
    "./icons/icon-384x384.png", "./icons/icon-512x512.png"]

  const ApiHost := "story-api.dicoding.dev"
  const FallbackPage := "./index.html"
  const OfflineBody := "<h1>Anda sedang offline</h1><p>Cek koneksi internet Anda.</p>"

  /**
   * `new URL(url, scope)` for the URLs the worker writes: `./path` names
   * `path` inside the scope; any other URL is taken to be absolute already.
   */
  function Resolve(scope: string, url: string): (r: string)
    ensures StartsWith(url, "./") ==> StartsWith(r, scope) && r[|scope|..] == url[2..]
    ensures !StartsWith(url, "./") ==> r == url
  {
    if StartsWith(url, "./") then
      var r := scope + url[2..];
      assert scope <= r;
      r
    else url
  }

  /** The install manifest, essential files first, as absolute URLs under `scope`. */
  function Manifest(scope: string): (r: seq<string>)
    ensures |r| == |EssentialFiles + OptionalFiles|
  {
    var files := EssentialFiles + OptionalFiles;
    seq(|files|, i requires 0 <= i < |files| => Resolve(scope, files[i]))
  }

  datatype Response = Response(status: int, body: string, contentType: string)

  /** `response.ok`. */
  predicate IsOk(r: Response) {
    200 <= r.status <= 299
  }

  /** The page synthesised when neither the cache nor the network can answer. */
  const OfflineResponse := Response(503, OfflineBody, "text/html")

  /** What `fetch` gave: a response, or a thrown network error. */
  datatype NetworkResult = Delivered(response: Response) | NetworkError

  datatype Request = Request(verb: string, url: string, destination: string)

  /** One cache: its name and its responses by request URL. */
  datatype NamedCache = NamedCache(name: string, entries: map<string, Response>)

  // ------------------------------------------------------------ cache storage

  predicate HasCache(cs: seq<NamedCache>, name: string) {
    exists i :: 0 <= i < |cs| && cs[i].name == name
  }

  /** No two caches share a name. */
  predicate DistinctNames(cs: seq<NamedCache>) {
    forall i, j :: 0 <= i < j < |cs| ==> cs[i].name != cs[j].name
  }

  /** `caches.keys()`. */
  function Names(cs: seq<NamedCache>): (r: seq<string>)
    ensures |r| == |cs| && forall i :: 0 <= i < |cs| ==> r[i] == cs[i].name
  {
    seq(|cs|, i requires 0 <= i < |cs| => cs[i].name)
  }

  /** The entries of the first cache with that name; none if there is no such cache. */
  function EntriesOf(cs: seq<NamedCache>, name: string): (m: map<string, Response>)
    ensures !HasCache(cs, name) ==> m == map[]
    ensures forall i :: 0 <= i < |cs| && cs[i].name == name && DistinctNames(cs) ==> m == cs[i].entries
  {
    if cs == [] then map[]
    else if cs[0].name == name then cs[0].entries
    else
      assert forall i :: 1 <= i < |cs| && cs[i].name == name ==> cs[1..][i - 1].name == name;
      EntriesOf(cs[1..], name)
  }

  /** Every cache with that name gets the entries `m`; the others are untouched. */
  function SetEntries(cs: seq<NamedCache>, name: string, m: map<string, Response>): (r: seq<NamedCache>)
    ensures |r| == |cs|
    ensures forall i :: 0 <= i < |cs| ==> r[i].name == cs[i].name
    ensures forall i :: 0 <= i < |cs| ==> r[i].entries == if cs[i].name == name then m else cs[i].entries
  {
    seq(|cs|, i requires 0 <= i < |cs| => if cs[i].name == name then NamedCache(name, m) else cs[i])
  }

  /** `caches.open(name)`: the existing cache, or a new empty one added last. */
  function Open(cs: seq<NamedCache>, name: string): (r: seq<NamedCache>)
    ensures HasCache(r, name)
    ensures forall n :: HasCache(r, n) <==> HasCache(cs, n) || n == name
    ensures HasCache(cs, name) ==> r == cs
  {
    if HasCache(cs, name) then cs
    else
      var r := cs + [NamedCache(name, map[])];
      assert r[|cs|].name == name;
      assert forall n :: HasCache(cs, n) ==> HasCache(r, n) by {
        forall n | HasCache(cs, n) ensures HasCache(r, n) {
          var i :| 0 <= i < |cs| && cs[i].name == n;
          assert r[i].name == n;
        }
      }
      r
  }

  /** `caches.open(name)` then `cache.put(url, response)`. */
  function Put(cs: seq<NamedCache>, name: string, url: string, response: Response): (r: seq<NamedCache>)
    requires DistinctNames(cs)
    ensures DistinctNames(r)
    ensures forall n :: HasCache(r, n) <==> HasCache(cs, n) || n == name
    ensures EntriesOf(r, name) == EntriesOf(cs, name)[url := response]
    ensures forall n :: n != name ==> EntriesOf(r, n) == EntriesOf(cs, n)
  {
    var o := Open(cs, name);
    assert DistinctNames(o);
    var r := SetEntries(o, name, EntriesOf(o, name)[url := response]);
    OpenEntries(cs, name);
    assert HasCache(r, name) by {
      var i :| 0 <= i < |o| && o[i].name == name;
      assert r[i].name == name;
    }
    assert forall n :: HasCache(r, n) <==> HasCache(o, n) by {
      forall n ensures HasCache(r, n) <==> HasCache(o, n) {
        if HasCache(o, n) {
          var i :| 0 <= i < |o| && o[i].name == n;
          assert r[i].name == n;
        }
        if HasCache(r, n) {
          var i :| 0 <= i < |r| && r[i].name == n;
          assert o[i].name == n;
        }
      }
    }
    forall n | n != name ensures EntriesOf(r, n) == EntriesOf(cs, n) {
      OpenEntries(cs, n);
      if HasCache(o, n) {
        var i :| 0 <= i < |o| && o[i].name == n;
        assert r[i].name == n;
      }
    }
    r
  }

  /** Opening a cache does not change what any name's entries are. */
  lemma OpenEntries(cs: seq<NamedCache>, n: string)
    requires DistinctNames(cs)
    ensures forall name :: EntriesOf(Open(cs, name), n) == EntriesOf(cs, n)
  {
    forall name ensures EntriesOf(Open(cs, name), n) == EntriesOf(cs, n) {
      var o := Open(cs, name);
      if !HasCache(cs, name) {
        assert DistinctNames(o);
        if HasCache(cs, n) {
          var i :| 0 <= i < |cs| && cs[i].name == n;
          assert o[i].name == n;
        } else if n == name {
          assert o[|cs|].name == n;
        }
      }
    }
  }

  /** `caches.match(request)`: the first cache, in creation order, holding the URL. */
  function Match(cs: seq<NamedCache>, url: string): (r: Option<Response>)
    ensures r.None? <==> forall i :: 0 <= i < |cs| ==> url !in cs[i].entries
    ensures r.Some? ==> exists i :: 0 <= i < |cs| && url in cs[i].entries && r.value == cs[i].entries[url]
  {
    if cs == [] then None
    else if url in cs[0].entries then Some(cs[0].entries[url])
    else
      var r := Match(cs[1..], url);
      assert forall i :: 1 <= i < |cs| ==> cs[i] == cs[1..][i - 1];
      r
  }

  /** `caches.delete(name)`. */
  function DeleteCache(cs: seq<NamedCache>, name: string): seq<NamedCache> {
    if cs == [] then []
    else if cs[0].name == name then DeleteCache(cs[1..], name)
    else [cs[0]] + DeleteCache(cs[1..], name)
  }

  /** The two caches the current worker uses. */
  predicate IsCurrentCache(name: string) {
    name == AppShellCache || name == CacheName
  }

  /** What activation leaves: the current caches, in their order. */
  function Pruned(cs: seq<NamedCache>): seq<NamedCache> {
    if cs == [] then []
    else if IsCurrentCache(cs[0].name) then [cs[0]] + Pruned(cs[1..])
    else Pruned(cs[1..])
  }

  /** Exactly the current worker's caches survive activation. */
  lemma {:induction false} PrunedKeepsCurrent(cs: seq<NamedCache>)
    ensures forall c :: c in Pruned(cs) <==> c in cs && IsCurrentCache(c.name)
  {
    if cs != [] {
      PrunedKeepsCurrent(cs[1..]);
      assert cs == [cs[0]] + cs[1..];
    }
  }

  lemma {:induction false} PrunedConcat(a: seq<NamedCache>, b: seq<NamedCache>)
    ensures Pruned(a + b) == Pruned(a) + Pruned(b)
  {
    if a == [] {
      assert a + b == b;
    } else {
      assert (a + b)[1..] == a[1..] + b;
      PrunedConcat(a[1..], b);
    }
  }

  lemma {:induction false} DeleteAbsent(cs: seq<NamedCache>, name: string)
    requires forall i :: 0 <= i < |cs| ==> cs[i].name != name
    ensures DeleteCache(cs, name) == cs
  {
    if cs != [] {
      DeleteAbsent(cs[1..], name);
    }
  }

  lemma {:induction false} DeleteConcat(a: seq<NamedCache>, b: seq<NamedCache>, name: string)
    ensures DeleteCache(a + b, name) == DeleteCache(a, name) + DeleteCache(b, name)
  {
    if a == [] {
      assert a + b == b;
    } else {
      assert (a + b)[1..] == a[1..] + b;
      DeleteConcat(a[1..], b, name);
    }
  }

  /** Deleting the name of the one cache that sits between two parts without it. */
  lemma DeleteMiddle(a: seq<NamedCache>, c: NamedCache, b: seq<NamedCache>)
    requires forall i :: 0 <= i < |a| ==> a[i].name != c.name
    requires forall i :: 0 <= i < |b| ==> b[i].name != c.name
    ensures DeleteCache(a + [c] + b, c.name) == a + b
  {
    DeleteConcat(a + [c], b, c.name);
    DeleteConcat(a, [c], c.name);
    DeleteAbsent(a, c.name);
    DeleteAbsent(b, c.name);
    assert DeleteCache([c], c.name) == [] by {
      assert [c][1..] == [];
    }
    assert a + [] == a;
  }

  /** Pruning one more cache appends it when it is current. */
  lemma PrunedSnoc(all: seq<NamedCache>, i: nat)
    requires i < |all|
    ensures Pruned(all[..i + 1]) == Pruned(all[..i]) + if IsCurrentCache(all[i].name) then [all[i]] else []
  {
    assert all[..i + 1] == all[..i] + [all[i]];
    PrunedConcat(all[..i], [all[i]]);
    assert [all[i]][1..] == [];
  }

  /** Deleting a stale cache's name removes exactly that cache from the partly pruned list. */
  lemma ActivateDelete(all: seq<NamedCache>, i: nat)
    requires DistinctNames(all) && i < |all|
    ensures DeleteCache(Pruned(all[..i]) + all[i..], all[i].name) == Pruned(all[..i]) + all[i + 1..]
  {
    var p := Pruned(all[..i]);
    var rest := all[i + 1..];
    PrunedNames(all[..i], i, all);
    forall k | 0 <= k < |rest| ensures rest[k].name != all[i].name {
      assert rest[k] == all[i + 1 + k];
    }
    DeleteMiddle(p, all[i], rest);
    assert all[i..] == [all[i]] + rest;
    assert p + all[i..] == p + [all[i]] + rest;
  }

  /** One step of activation: the cache at `i` is deleted by name unless it is current. */
  lemma ActivateStep(all: seq<NamedCache>, i: nat)
    requires DistinctNames(all) && i < |all|
    ensures !IsCurrentCache(all[i].name) ==>
      DeleteCache(Pruned(all[..i]) + all[i..], all[i].name) == Pruned(all[..i + 1]) + all[i + 1..]
    ensures IsCurrentCache(all[i].name) ==> Pruned(all[..i]) + all[i..] == Pruned(all[..i + 1]) + all[i + 1..]
  {
    PrunedSnoc(all, i);
    if !IsCurrentCache(all[i].name) {
      ActivateDelete(all, i);
      assert Pruned(all[..i + 1]) == Pruned(all[..i]) + [];
    } else {
      var p := Pruned(all[..i]);
      assert all[i..] == [all[i]] + all[i + 1..];
      assert p + all[i..] == (p + [all[i]]) + all[i + 1..];
    }
  }

  /** The caches before `i` that survive pruning do not share the name of the cache at `i`. */
  lemma PrunedNames(p: seq<NamedCache>, i: nat, cs: seq<NamedCache>)
    requires DistinctNames(cs) && i < |cs| && p == cs[..i]
    ensures forall k :: 0 <= k < |Pruned(p)| ==> Pruned(p)[k].name != cs[i].name
  {
    PrunedKeepsCurrent(p);
    forall k | 0 <= k < |Pruned(p)| ensures Pruned(p)[k].name != cs[i].name {
      assert Pruned(p)[k] in Pruned(p);
      var j :| 0 <= j < |p| && p[j] == Pruned(p)[k];
    }
  }

  // ----------------------------------------------------------------- client

  /** What a notification click does: focus an open window, or open a new one. */
  datatype ClickAction = Focus(index: nat) | OpenWindow(url: string)

  datatype Client = Client(url: string)

  /**
   * The `notificationclick` handler's choice: the first window client whose
   * URL contains the worker's origin, or a new window on `./` when none does.
   */
  method ChooseClient(clients: seq<Client>, origin: string) returns (action: ClickAction)
    ensures action.Focus? ==>
      action.index < |clients| && Contains(clients[action.index].url, origin) &&
      forall j :: 0 <= j < action.index ==> !Contains(clients[j].url, origin)
    ensures action.OpenWindow? ==>
      action.url == "./" && forall j :: 0 <= j < |clients| ==> !Contains(clients[j].url, origin)
  {
    var i := 0;
    while i < |clients|
      invariant 0 <= i <= |clients|
      invariant forall j :: 0 <= j < i ==> !Contains(clients[j].url, origin)
    {
      if Contains(clients[i].url, origin) {
        return Focus(i);
      }
      i := i + 1;
    }
    return OpenWindow("./");
  }

  // ----------------------------------------------------------------- worker

  /** The entries a sequence of manifest URLs adds to `m`: each one whose response is ok. */
  function Cached(m: map<string, Response>, urls: seq<string>, fetch: string -> NetworkResult): (r: map<string, Response>)
  {
    if urls == [] then m
    else
      var u := urls[|urls| - 1];
      var before := Cached(m, urls[..|urls| - 1], fetch);
      if fetch(u).Delivered? && IsOk(fetch(u).response) then before[u := fetch(u).response] else before
  }

  /**
   * After caching a manifest, a URL is present iff it was already cached or
   * it is listed and its response was ok; a listed ok URL holds that
   * response, and a failing one is skipped without stopping the rest.
   */
  lemma {:induction false} CachedEntries(m: map<string, Response>, urls: seq<string>, fetch: string -> NetworkResult, u: string)
    ensures u in Cached(m, urls, fetch) <==>
      u in m || (u in urls && fetch(u).Delivered? && IsOk(fetch(u).response))
    ensures u in urls && fetch(u).Delivered? && IsOk(fetch(u).response) ==>
      Cached(m, urls, fetch)[u] == fetch(u).response
    ensures !(u in urls && fetch(u).Delivered? && IsOk(fetch(u).response)) && u in m ==>
      Cached(m, urls, fetch)[u] == m[u]
  {
    if urls != [] {
      var init := urls[..|urls| - 1];
      CachedEntries(m, init, fetch, u);
      assert urls == init + [urls[|urls| - 1]];
      assert u in urls <==> u in init || u == urls[|urls| - 1];
    }
  }

  /** Only the app-shell cache may have been added or changed between `before` and `after`. */
  ghost predicate ShellOnlyChanged(before: seq<NamedCache>, after: seq<NamedCache>) {
    && (forall n :: HasCache(after, n) <==> HasCache(before, n) || n == AppShellCache)
    && (forall n :: n != AppShellCache ==> EntriesOf(after, n) == EntriesOf(before, n))
  }

  /** One step of the install loop: the next manifest URL is put iff its response is ok. */
  lemma InstallStep(before: seq<NamedCache>, cs: seq<NamedCache>, start: map<string, Response>,
                    manifest: seq<string>, i: nat, fetch: string -> NetworkResult)
    requires i < |manifest| && DistinctNames(cs) && ShellOnlyChanged(before, cs)
    requires EntriesOf(cs, AppShellCache) == Cached(start, manifest[..i], fetch)
    ensures var u := manifest[i];
      var next := if fetch(u).Delivered? && IsOk(fetch(u).response) then Put(cs, AppShellCache, u, fetch(u).response) else cs;
      DistinctNames(next) && ShellOnlyChanged(before, next) &&
      EntriesOf(next, AppShellCache) == Cached(start, manifest[..i + 1], fetch)
  {
    assert manifest[..i + 1][..i] == manifest[..i];
  }

  class ServiceWorker {
    /** `self.location.origin`. */
    const origin: string
    /** The URL of the directory holding the worker's script: the origin, then a path. */
    const scope: string
    /** The Cache API's storage, in creation order. */
    var caches: seq<NamedCache>

    /** Cache names are distinct, and the scope lies inside the origin. */
    predicate Valid()
      reads this
    {
      DistinctNames(caches) && StartsWith(scope, origin)
    }

    constructor(origin: string, directory: string, caches: seq<NamedCache>)
      requires DistinctNames(caches)
      ensures this.origin == origin && scope == origin + directory && this.caches == caches && Valid()
    {
      this.origin := origin;
      this.scope := origin + directory;
      this.caches := caches;
      assert origin <= origin + directory;
    }

    /** Whether the fetch handler answers the request at all: a GET for the worker's own origin, not for the API. */
    function Intercepts(request: Request): (r: bool)
      reads this
      ensures r ==> request.verb == "GET" && !Contains(request.url, ApiHost)
      ensures Valid() && request.verb == "GET" && !Contains(request.url, ApiHost) && StartsWith(request.url, scope) ==> r
    {
      request.verb == "GET" && !Contains(request.url, ApiHost) && StartsWith(request.url, origin)
    }

    /**
     * The install handler: open the app-shell cache, then put every
     * essential and then every optional file whose response is ok, one
     * after another; a failure skips that file only. Entries are keyed by
     * the resolved URL, and `fetch` answers for resolved URLs.
     */
    method Install(fetch: string -> NetworkResult)
      requires Valid()
      modifies this`caches
      ensures Valid()
      ensures forall n :: HasCache(caches, n) <==> HasCache(old(caches), n) || n == AppShellCache
      ensures EntriesOf(caches, AppShellCache) == Cached(EntriesOf(old(caches), AppShellCache), Manifest(scope), fetch)
      ensures forall n :: n != AppShellCache ==> EntriesOf(caches, n) == EntriesOf(old(caches), n)
    {
      caches := Open(caches, AppShellCache);
      OpenEntries(old(caches), AppShellCache);
      var start := EntriesOf(caches, AppShellCache);
      var manifest := Manifest(scope);
      for i := 0 to |manifest|
        invariant DistinctNames(caches) && ShellOnlyChanged(old(caches), caches)
        invariant EntriesOf(caches, AppShellCache) == Cached(start, manifest[..i], fetch)
      {
        var url := manifest[i];
        var result := fetch(url);
        InstallStep(old(caches), caches, start, manifest, i, fetch);
        if result.Delivered? && IsOk(result.response) {
          caches := Put(caches, AppShellCache, url, result.response);
        }
      }
      assert manifest[..|manifest|] == manifest;
    }

    /** The activate handler: delete every cache that is neither of the current two. */
    method Activate()
      requires Valid()
      modifies this`caches
      ensures Valid()
      ensures caches == Pruned(old(caches))
    {
      var names := Names(caches);
      var all := caches;
      for i := 0 to |names|
        invariant caches == Pruned(all[..i]) + all[i..]
      {
        ActivateStep(all, i);
        if !IsCurrentCache(names[i]) {
          caches := DeleteCache(caches, names[i]);
        }
      }
      assert all[..|all|] == all;
      PrunedDistinct(all);
    }

    /**
     * The fetch handler: `None` when it lets the request through; a cached
     * response without touching the network; otherwise the network's
     * response, stored in the app-shell cache when its status is 200; on a
     * network error the cached `./index.html` for a document, else a 503
     * page.
     */
    method Fetch(request: Request, network: NetworkResult) returns (r: Option<Response>)
      requires Valid()
      modifies this`caches
      ensures Valid()
      ensures !Intercepts(request) ==> r == None && caches == old(caches)
      ensures Intercepts(request) && Match(old(caches), request.url).Some? ==>
        r == Match(old(caches), request.url) && caches == old(caches)
      ensures Intercepts(request) && Match(old(caches), request.url).None? && network.Delivered? ==>
        r == Some(network.response) &&
        caches == if network.response.status == 200 then Put(old(caches), AppShellCache, request.url, network.response)
                  else old(caches)
      ensures Intercepts(request) && Match(old(caches), request.url).None? && network.NetworkError? ==>
        caches == old(caches) &&
        r == if request.destination == "document" && Match(old(caches), Resolve(scope, FallbackPage)).Some?
             then Match(old(caches), Resolve(scope, FallbackPage)) else Some(OfflineResponse)
    {
      if request.verb != "GET" {
        return None;
      }
      if Contains(request.url, ApiHost) {
        return None;
      }
      if !StartsWith(request.url, origin) {
        return None;
      }
      var cached := Match(caches, request.url);
      if cached.Some? {
        return cached;
      }
      match network {
        case Delivered(response) =>
          if response.status == 200 {
            caches := Put(caches, AppShellCache, request.url, response);
          }
          return Some(response);
        case NetworkError =>
          if request.destination == "document" {
            var fallback := Match(caches, Resolve(scope, FallbackPage));
            if fallback.Some? {
              return fallback;
            }
          }
          return Some(OfflineResponse);
      }
    }
  }

  /** Every manifest entry is relative to the worker's scope. */
  lemma ManifestRelative(file: string)
    requires file in EssentialFiles + OptionalFiles
    ensures StartsWith(file, "./")
  {
  }

  /**
   * After an install in which a listed file's fetch came back ok, a GET for
   * that file's URL is intercepted and `caches.match` finds it, so the
   * fetch handler answers it from the cache without the network.
   */
  lemma InstalledIsServed(w: ServiceWorker, before: map<string, Response>, fetch: string -> NetworkResult,
                          file: string, destination: string)
    requires w.Valid()
    requires EntriesOf(w.caches, AppShellCache) == Cached(before, Manifest(w.scope), fetch)
    requires file in EssentialFiles + OptionalFiles
    requires fetch(Resolve(w.scope, file)).Delivered? && IsOk(fetch(Resolve(w.scope, file)).response)
    requires !Contains(Resolve(w.scope, file), ApiHost)
    ensures w.Intercepts(Request("GET", Resolve(w.scope, file), destination))
    ensures Match(w.caches, Resolve(w.scope, file)).Some?
  {
    var u := Resolve(w.scope, file);
    var files := EssentialFiles + OptionalFiles;
    var k :| 0 <= k < |files| && files[k] == file;
    assert Manifest(w.scope)[k] == u;
    CachedEntries(before, Manifest(w.scope), fetch, u);
    assert u in EntriesOf(w.caches, AppShellCache);
    var i :| 0 <= i < |w.caches| && w.caches[i].name == AppShellCache;
    assert u in w.caches[i].entries;
    ManifestRelative(file);
    assert u[..|w.origin|] == w.scope[..|w.origin|];
  }

  lemma {:induction false} PrunedDistinct(cs: seq<NamedCache>)
    requires DistinctNames(cs)
    ensures DistinctNames(Pruned(cs))
  {
    if cs != [] {
      assert DistinctNames(cs[1..]) by {
        forall i, j | 0 <= i < j < |cs| - 1 ensures cs[1..][i].name != cs[1..][j].name {
          assert cs[1..][i] == cs[i + 1] && cs[1..][j] == cs[j + 1];
        }
      }
      PrunedDistinct(cs[1..]);
      if IsCurrentCache(cs[0].name) {
        var r := [cs[0]] + Pruned(cs[1..]);
        forall i, j | 0 <= i < j < |r| ensures r[i].name != r[j].name {
          if i == 0 {
            PrunedKeepsCurrent(cs[1..]);
            assert r[j] in Pruned(cs[1..]);
            var k :| 0 <= k < |cs[1..]| && cs[1..][k] == r[j];
            assert cs[k + 1] == r[j];
          }
        }
      }
    }
  }

  /** What the worker stores on a miss it answers with a 200 is what the next fetch of that URL gets from the cache. */
  lemma StoredResponseIsServed(cs: seq<NamedCache>, url: string, response: Response)
    requires DistinctNames(cs) && Match(cs, url).None?
    ensures Match(Put(cs, AppShellCache, url, response), url) == Some(response)
  {
    var r := Put(cs, AppShellCache, url, response);
    assert url in EntriesOf(r, AppShellCache);
    assert HasCache(r, AppShellCache);
    var i :| 0 <= i < |r| && r[i].name == AppShellCache;
    assert url in r[i].entries;
    forall j | 0 <= j < |r| && url in r[j].entries ensures r[j].entries[url] == response {
      if r[j].name != AppShellCache {
        OnlyPutCacheGains(cs, url, response, j);
      }
    }
    MatchUniform(r, url, response);
  }

  /** Apart from the app-shell cache, a put leaves every cache without the URL it stored. */
  lemma OnlyPutCacheGains(cs: seq<NamedCache>, url: string, response: Response, j: nat)
    requires DistinctNames(cs) && Match(cs, url).None?
    requires j < |Put(cs, AppShellCache, url, response)| && Put(cs, AppShellCache, url, response)[j].name != AppShellCache
    ensures url !in Put(cs, AppShellCache, url, response)[j].entries
  {
    var r := Put(cs, AppShellCache, url, response);
    var n := r[j].name;
    assert EntriesOf(r, n) == r[j].entries;
    assert EntriesOf(r, n) == EntriesOf(cs, n);
    if HasCache(cs, n) {
      var k :| 0 <= k < |cs| && cs[k].name == n;
      assert EntriesOf(cs, n) == cs[k].entries;
    }
  }

  /** When every cache holding the URL holds the same response, that is what matching gives. */
  lemma {:induction false} MatchUniform(cs: seq<NamedCache>, url: string, response: Response)
    requires exists i :: 0 <= i < |cs| && url in cs[i].entries
    requires forall i :: 0 <= i < |cs| && url in cs[i].entries ==> cs[i].entries[url] == response
    ensures Match(cs, url) == Some(response)
  {
    var m := Match(cs, url);
    var i :| 0 <= i < |cs| && url in cs[i].entries && m.value == cs[i].entries[url];
  }

}
