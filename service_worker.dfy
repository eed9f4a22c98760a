/**
  The offline-support service worker: cache names derived from the app
  version, the install and activate lifecycle handlers, and the fetch
  handler that routes each request to one of three caching strategies.
 */
module ServiceWorker {
  import opened Http
  import opened CacheStore

  const AppVersion: string := "v1.0.0"
  const CacheStatic: string := "static-" + AppVersion
  const CachePages: string := "pages-" + AppVersion

  /** The caches a worker of this version keeps on activation. */
  const Current: seq<string> := [CacheStatic, CachePages]

  /** Pre-cached into `CacheStatic` on install. */
  const StaticAssets: seq<string> := ["/static/manifest.json", "/static/icons/icon-192.png", "/static/icons/icon-512.png"]

  /** Pre-cached into `CachePages` on install: the home page and the offline fallback page. */
  const PagesToCache: seq<string> := ["/", "/offline"]

  /** The page served when a page request fails and that page is not cached. */
  const OfflinePage: string := "/offline"

  /** `JSON.stringify({ error: 'Offline – no network connection' })`; the dash is U+2013. */
  const OfflineBody: string := "{\"error\":\"Offline \U{2013} no network connection\"}"

  /** The substitute an API request gets when the network is down. */
  const OfflineApiResponse: Response := Response(503, "application/json", OfflineBody)

  /**
    An intercepted request, its URL already parsed: `verb` is the HTTP
    method, `sameOrigin` compares the URL's origin with the worker's,
    `pathname` drives the routing, and `url` is the key the caches compare
    (origin-relative, as in the manifests).
   */
  datatype Request = Request(verb: string, sameOrigin: bool, pathname: string, url: string)

  datatype Route = Ignored | Api | Static | Page

  /** What the page receives: the browser's own handling, a response, or a network error. */
  datatype Reply = PassThrough | Respond(response: Response) | Fail

  /** One fetch event's effect: the reply, the caches afterwards, and whether `fetch` was called. */
  datatype Step = Step(reply: Reply, store: Store, contacted: bool)

  /** The path starts with one of the prefixes the worker hands to the network. */
  predicate ApiPath(pathname: string) {
    "/api/" <= pathname || "/auth/" <= pathname || "/login" <= pathname || "/logout" <= pathname
  }

  /**
    The routing decision, first match wins: each route holds exactly when its
    own test passes and every earlier test failed.
   */
  function Classify(verb: string, sameOrigin: bool, pathname: string): (r: Route)
    ensures r == Ignored <==> verb != "GET" || !sameOrigin
    ensures r == Api <==> verb == "GET" && sameOrigin && ApiPath(pathname)
    ensures r == Static <==> verb == "GET" && sameOrigin && !ApiPath(pathname) && "/static/" <= pathname
    ensures r == Page <==> verb == "GET" && sameOrigin && !ApiPath(pathname) && !("/static/" <= pathname)
  {
    if verb != "GET" || !sameOrigin then Ignored
    else if ApiPath(pathname) then Api
    else if "/static/" <= pathname then Static
    else Page
  }

  /** `fetchAndCache`: the fetched response is returned, and copied into `name` only when `ok`. */
  function FetchAndCacheStep(s: Store, key: string, name: string, net: FetchOutcome): (st: Step)
    requires WellFormed(s)
    ensures WellFormed(st.store)
  {
    match net
    case NetworkError => Step(Fail, s, true)
    case Fetched(r) => Step(Respond(r), if r.Ok() then Stored(s, name, key, r) else s, true)
  }

  /** Network first for pages, falling back to the cached page and then to the offline page. */
  function PageStep(s: Store, key: string, net: FetchOutcome): (st: Step)
    requires WellFormed(s)
    ensures WellFormed(st.store)
  {
    match net
    case Fetched(r) => Step(Respond(r), Stored(s, CachePages, key, r), true)
    case NetworkError =>
      match FirstMatch(s, key)
      case Some(cached) => Step(Respond(cached), s, true)
      case None =>
        match FirstMatch(s, OfflinePage)
        case Some(offline) => Step(Respond(offline), s, true)
        case None => Step(Fail, s, true)
  }

  /** The fetch handler's effect on one request. */
  function FetchEvent(s: Store, req: Request, net: FetchOutcome): (st: Step)
    requires WellFormed(s)
    ensures WellFormed(st.store)
  {
    match Classify(req.verb, req.sameOrigin, req.pathname)
    case Ignored => Step(PassThrough, s, false)
    case Api =>
      (match net
       case Fetched(r) => Step(Respond(r), s, true)
       case NetworkError => Step(Respond(OfflineApiResponse), s, true))
    case Static =>
      (match FirstMatch(s, req.url)
       case Some(cached) => Step(Respond(cached), s, false)
       case None => FetchAndCacheStep(s, req.url, CacheStatic, net))
    case Page => PageStep(s, req.url, net)
  }

  /** Whether the install handler completes: both `addAll` calls must succeed. */
  predicate InstallOk(net: string -> FetchOutcome) {
    AllSucceeded(StaticAssets, net) && AllSucceeded(PagesToCache, net)
  }

  /** The install handler's effect: both manifests added, each to its own cache. */
  function Installed(s: Store, net: string -> FetchOutcome): (t: Store)
    requires WellFormed(s)
    ensures WellFormed(t)
  {
    AddedAll(AddedAll(s, CacheStatic, StaticAssets, net), CachePages, PagesToCache, net)
  }

  /**
    `keys.filter(k => !CURRENT.includes(k))`: the names of `names` that are not
    current, in order, which is what activation deletes.
   */
  function Stale(names: seq<string>): (r: seq<string>)
    ensures forall n :: n in r <==> n in names && n !in Current
  {
    if names == [] then []
    else if names[0] in Current then Stale(names[1..])
    else [names[0]] + Stale(names[1..])
  }

  /** The current names of `names`, in order. */
  function KeepCurrent(names: seq<string>): seq<string> {
    if names == [] then []
    else if names[0] in Current then [names[0]] + KeepCurrent(names[1..])
    else KeepCurrent(names[1..])
  }

  /** Keeping the current names keeps exactly those, each once if it was once. */
  lemma {:induction false} KeepCurrentMembers(names: seq<string>)
    ensures forall n :: n in KeepCurrent(names) <==> n in names && n in Current
    ensures Distinct(names) ==> Distinct(KeepCurrent(names))
  {
    if names != [] {
      KeepCurrentMembers(names[1..]);
      assert Distinct(names) ==> names[0] !in names[1..] && Distinct(names[1..]);
    }
  }

  /** The current names keep their relative order. */
  lemma {:induction false} KeepCurrentInOrder(names: seq<string>)
    ensures Subsequence(KeepCurrent(names), names)
  {
    if names != [] {
      KeepCurrentInOrder(names[1..]);
    }
  }

  /** The names of `names` not listed in `gone`, in order. */
  function Drop(names: seq<string>, gone: seq<string>): seq<string> {
    if names == [] then []
    else if names[0] in gone then Drop(names[1..], gone)
    else [names[0]] + Drop(names[1..], gone)
  }

  /** The activate handler's effect: every cache whose name is not current is gone. */
  function Pruned(s: Store): (t: Store)
    requires WellFormed(s)
    ensures WellFormed(t)
  {
    KeepCurrentMembers(s.order);
    Store(KeepCurrent(s.order), map n | n in s.caches && n in Current :: s.caches[n])
  }

  /** The caches whose names are not listed in `gone`. */
  function Restrict(caches: map<string, Entries>, gone: seq<string>): map<string, Entries> {
    map n | n in caches && n !in gone :: caches[n]
  }

  /** The store after the caches named in `gone` have been deleted, one by one. */
  function PrunedOf(s: Store, gone: seq<string>): Store {
    Store(Drop(s.order, gone), Restrict(s.caches, gone))
  }

  lemma PruneStart(s: Store)
    ensures PrunedOf(s, []) == s
  {
    DropNothing(s.order);
    assert Restrict(s.caches, []) == s.caches;
  }

  lemma PruneStep(s: Store, gone: seq<string>, k: string)
    requires WellFormed(PrunedOf(s, gone))
    ensures Deleted(PrunedOf(s, gone), k) == PrunedOf(s, gone + [k])
  {
    DropWithout(s.order, gone, k);
    assert Restrict(s.caches, gone) - {k} == Restrict(s.caches, gone + [k]);
  }

  lemma PruneDone(s: Store)
    requires WellFormed(s)
    ensures PrunedOf(s, Stale(s.order)) == Pruned(s)
  {
    var stale := Stale(s.order);
    DropStale(s.order, stale);
    assert Restrict(s.caches, stale) == map n | n in s.caches && n in Current :: s.caches[n];
  }

  lemma {:induction false} DropWithout(names: seq<string>, gone: seq<string>, k: string)
    ensures Without(Drop(names, gone), k) == Drop(names, gone + [k])
  {
    if names != [] {
      DropWithout(names[1..], gone, k);
    }
  }

  lemma {:induction false} DropNothing(names: seq<string>)
    ensures Drop(names, []) == names
  {
    if names != [] {
      DropNothing(names[1..]);
    }
  }

  lemma {:induction false} DropStale(names: seq<string>, gone: seq<string>)
    requires forall n :: n in names ==> (n in gone <==> n !in Current)
    ensures Drop(names, gone) == KeepCurrent(names)
  {
    if names != [] {
      DropStale(names[1..], gone);
    }
  }

  /** `fetchAndCache(request, cacheName)`. */
  method FetchAndCache(storage: CacheStorage, key: string, name: string, net: FetchOutcome) returns (reply: Reply)
    requires storage.Valid()
    modifies storage
    ensures storage.Valid()
    ensures Step(reply, storage.Value(), true) == FetchAndCacheStep(old(storage.Value()), key, name, net)
  {
    match net
    case NetworkError =>
      reply := Fail;
    case Fetched(r) =>
      if r.Ok() {
        storage.Put(name, key, r);
      }
      reply := Respond(r);
  }

  /** The fetch handler. */
  method HandleFetch(storage: CacheStorage, req: Request, net: FetchOutcome) returns (reply: Reply, contacted: bool)
    requires storage.Valid()
    modifies storage
    ensures storage.Valid()
    ensures Step(reply, storage.Value(), contacted) == FetchEvent(old(storage.Value()), req, net)
  {
    var route := Classify(req.verb, req.sameOrigin, req.pathname);
    if route == Ignored {
      return PassThrough, false;
    }
    if route == Api {
      match net {
        case Fetched(r) =>
          reply := Respond(r);
        case NetworkError =>
          reply := Respond(OfflineApiResponse);
      }
      return reply, true;
    }
    if route == Static {
      var cached := storage.Match(req.url);
      if cached.Some? {
        return Respond(cached.value), false;
      }
      reply := FetchAndCache(storage, req.url, CacheStatic, net);
      return reply, true;
    }
    contacted := true;
    match net
    case Fetched(r) =>
      storage.Put(CachePages, req.url, r);
      reply := Respond(r);
    case NetworkError =>
      var cached := storage.Match(req.url);
      if cached.Some? {
        reply := Respond(cached.value);
      } else {
        var offline := storage.Match(OfflinePage);
        reply := if offline.Some? then Respond(offline.value) else Fail;
      }
  }

  /** The install handler: succeeds only if every URL of both manifests was fetched `ok`. */
  method Install(storage: CacheStorage, net: string -> FetchOutcome) returns (ok: bool)
    requires storage.Valid()
    modifies storage
    ensures storage.Valid()
    ensures ok == InstallOk(net)
    ensures storage.Value() == Installed(old(storage.Value()), net)
  {
    var staticOk := storage.AddAll(CacheStatic, StaticAssets, net);
    var pagesOk := storage.AddAll(CachePages, PagesToCache, net);
    ok := staticOk && pagesOk;
  }

  /** The activate handler: deletes every cache not named in `Current`. */
  method Activate(storage: CacheStorage)
    requires storage.Valid()
    modifies storage
    ensures storage.Valid()
    ensures storage.Value() == Pruned(old(storage.Value()))
  {
    var keys := storage.Keys();
    var stale := Stale(keys);
    ghost var s0 := storage.Value();
    var i := 0;
    PruneStart(s0);
    while i < |stale|
      invariant 0 <= i <= |stale|
      invariant storage.Valid()
      invariant storage.Value() == PrunedOf(s0, stale[..i])
    {
      PruneStep(s0, stale[..i], stale[i]);
      assert stale[..i + 1] == stale[..i] + [stale[i]];
      var existed := storage.Delete(stale[i]);
      i := i + 1;
    }
    assert stale[..i] == stale;
    PruneDone(s0);
  }
}
