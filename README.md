# Offline-support service worker, modelled in Dafny

This project models the service worker of the Medical Report Analyzer web
application (`static/sw.js`). The worker gives the application offline
support. It derives two cache names from the app version, pre-caches two
fixed manifests on install, and deletes every other cache on activate. It also
routes every intercepted request to one of three strategies:

- **API** (`/api/`, `/auth/`, `/login`, `/logout`): network first. When the
  network is down, the worker answers with a fixed JSON 503.
- **Static** (`/static/`): cache first. A response fetched on a miss is
  stored only if it is `ok`.
- **Page** (everything else that is a same-origin GET): network first. Every
  fetched response is stored. When the network is down, the worker falls back
  to the cached page, then to the cached `/offline` page.

Modules:

- `Http` (`http.dfy`): response snapshots (`status`, `Content-Type`, body) and
  the outcome of one `fetch` (a response of any status, or a network error).
- `CacheStore` (`cache_store.dfy`): the browser's CacheStorage. `Store` is the
  value: cache names in creation order, plus each cache's map from request
  URL to response. The functions on it give the meaning of `caches.open`,
  `cache.put`, `cache.addAll`, `caches.delete` and `caches.match`.
  `caches.match` searches every cache, oldest first. `CacheStorage` is the
  mutable object. Its methods update the two fields and are proved against
  those functions. `Match` and `AddAll` spell out, as loops, the iteration
  the browser performs inside `caches.match` and `cache.addAll`.
- `ServiceWorker` (`service_worker.dfy`): the constants, `Classify`, and the
  value-level meaning of the three handlers (`FetchEvent`, `Installed`,
  `Pruned`). The handlers themselves (`HandleFetch`, `FetchAndCache`,
  `Install`, `Activate`) are methods on a `CacheStorage`. Each one is proved
  to have exactly that meaning.
- `WorkerProperties` (`worker_properties.dfy`): what the worker guarantees,
  stated as lemmas over `FetchEvent`, `Installed` and `Pruned`.

Inputs the model takes instead of computing them:

- The network is a parameter. The fetch handler gets one `FetchOutcome`.
  Install gets a function from URL to `FetchOutcome`.
- The handler's `contacted` result records whether `fetch` was called at all.
- A request arrives already parsed. `verb` is the HTTP method. `sameOrigin`
  is `url.origin === location.origin`. `pathname` is what the routing looks
  at. `url` is the key the caches compare.

## Model

| member | source | states |
|---|---|---|
| `WorkerProperties.CacheNamesFollowVersion` | static/sw.js:9-11 | the two cache names are `static-v1.0.0` and `pages-v1.0.0`, and they differ |
| `WorkerProperties.NotInterceptedIff` | static/sw.js:57 | the reply is pass-through exactly when the method is not GET or the origin differs; then no fetch happens and the caches are unchanged |
| `ServiceWorker.Classify` | static/sw.js:57-84 | first match wins: a request is ignored exactly when it is not a GET or not same-origin; API exactly when it is a same-origin GET whose path starts with `/api/`, `/auth/`, `/login` or `/logout`; static exactly when it is a same-origin GET with none of those prefixes whose path starts with `/static/`; a page in every other case |
| `WorkerProperties.RouteExamples` | static/sw.js:57-84 | `/loginx` is API (plain prefix match); `/api` and `/static` are pages (no trailing slash); non-GET and cross-origin requests are ignored |
| `WorkerProperties.ApiBranch` | static/sw.js:64-71 | an API request always calls `fetch` and never changes the caches; it returns the network's response unchanged, or the offline substitute on a network error |
| `WorkerProperties.OfflineApiResponseShape` | static/sw.js:66-68 | the substitute has status 503 (not ok), type `application/json`, and body exactly `{"error":"Offline – no network connection"}` (43 characters, U+2013 dash) |
| `WorkerProperties.StaticHit` | static/sw.js:78 | when any cache, not only the static one, holds the URL, a static request is answered from a cache entry for it, with no fetch and no write |
| `WorkerProperties.StaticMiss` | static/sw.js:100-107 | on a miss the fetched response is returned unchanged and stored under the URL in the static cache only if it is ok; a network error is passed on with no write |
| `WorkerProperties.StaticSecondRequestHits` | static/sw.js:76-81 | after a cold miss answered ok, repeating the request returns the stored response, without a fetch and without a write |
| `WorkerProperties.FetchKeepsStaticOk` | static/sw.js:102-104 | the fetch handler never puts a non-ok response into the static cache |
| `WorkerProperties.PageOnline` | static/sw.js:85-90 | a fetched page is returned and stored under its URL in the pages cache, whatever its status; the pages cache is exactly its old entries (none if it was new) with that one entry set; other caches are unchanged |
| `WorkerProperties.PageCachesErrorResponses` | static/sw.js:86-90 | a 500 response overwrites the cached copy of the page |
| `WorkerProperties.PageLatestWins` | static/sw.js:89 | fetching a page twice leaves the same caches as fetching it once with the later response |
| `WorkerProperties.PageIdempotent` | static/sw.js:89 | repeating a page fetch that returns the same response changes nothing further |
| `WorkerProperties.PageOffline` | static/sw.js:92-95 | with the network down a page request writes nothing; it gets a cached entry for its URL if any cache has one, else a cached `/offline` entry, and fails exactly when neither is cached |
| `WorkerProperties.OfflineFallbackServed` | static/sw.js:93-94 | an uncached page with the network down gets the pages cache's `/offline` entry when no other cache holds `/offline` |
| `WorkerProperties.FetchCreatesOnlyCurrent` | static/sw.js:84-107 | once only current caches exist, handling any request creates no other cache |
| `WorkerProperties.InstallOkIff` | static/sw.js:30-36 | install completes exactly when every URL of both manifests was fetched with an ok response |
| `WorkerProperties.InstallPopulates` | static/sw.js:14-34 | after a completed install both caches exist, and each manifest URL maps to its fetched response in its own cache, `/offline` among them |
| `WorkerProperties.InstallFailureWritesNothing` | static/sw.js:33-34 | a manifest with a failed URL leaves its cache as it was (empty if it was just created): `addAll` is all or nothing per cache |
| `WorkerProperties.InstallNotAtomicAcrossCaches` | static/sw.js:32-35 | when only a page URL fails, install fails but the static cache holds every static asset anyway |
| `WorkerProperties.InstallKeepsStaticOk` | static/sw.js:33 | install never puts a non-ok response into the static cache |
| `WorkerProperties.InstalledFromEmpty` | static/sw.js:14-34 | a completed install into empty storage leaves exactly the two caches, holding exactly the two manifests |
| `WorkerProperties.InstalledThenActivated` | static/sw.js:24-45 | after a completed install into empty storage and activation, the pages cache holds `/offline` with its fetched response, no other cache holds `/offline`, and every cached URL is a manifest URL |
| `WorkerProperties.OfflinePageAfterInstall` | static/sw.js:92-95 | after install into empty storage and activation, a never-cached page requested offline gets the pre-cached `/offline` response |
| `WorkerProperties.ActivateKeepsCurrent` | static/sw.js:41-45 | activation keeps exactly the existing caches named `static-<ver>` or `pages-<ver>`, with their entries intact, and lists exactly those, in their old relative order |
| `WorkerProperties.ActivateIdempotent` | static/sw.js:41-45 | activating a second time deletes nothing more |
| `WorkerProperties.PrunedOverOldVersion` | static/sw.js:41-45 | with two old caches created before the two current ones, activation deletes exactly the old two and keeps the current two in order |
| `WorkerProperties.ActivateUpgradeScenario` | static/sw.js:41-45 | with `static-v0.9.0`, `pages-v0.9.0`, `static-v1.0.0` and `pages-v1.0.0` present, only the two v0.9.0 caches are deleted |
| `ServiceWorker.Stale` | static/sw.js:45 | `keys.filter(k => !CURRENT.includes(k))` selects exactly the listed names that are not current |
| `ServiceWorker.KeepCurrentInOrder` | static/sw.js:41-45 | the names left after activation keep their relative creation order |
| `ServiceWorker.KeepCurrentMembers` | static/sw.js:41-45 | the names left after activation are exactly the listed current ones, each still listed once |
| `ServiceWorker.FetchAndCacheStep` | static/sw.js:100-107 | value meaning of `fetchAndCache`; keeps the cache storage well formed |
| `ServiceWorker.PageStep` | static/sw.js:84-96 | value meaning of the page strategy; keeps the cache storage well formed |
| `ServiceWorker.FetchEvent` | static/sw.js:52-97 | value meaning of the fetch handler; keeps the cache storage well formed |
| `ServiceWorker.Installed` | static/sw.js:30-36 | value meaning of the install handler; keeps the cache storage well formed |
| `ServiceWorker.Pruned` | static/sw.js:40-46 | value meaning of the activate handler; keeps the cache storage well formed |
| `ServiceWorker.FetchAndCache` | static/sw.js:100-107 | the helper's reply and its effect on the caches are exactly `FetchAndCacheStep` |
| `ServiceWorker.HandleFetch` | static/sw.js:52-97 | the handler's reply, its effect on the caches, and whether it called `fetch` are exactly `FetchEvent` |
| `ServiceWorker.Install` | static/sw.js:30-36 | install reports success exactly when both manifests were fetched ok (`InstallOk`), and leaves the caches as `Installed` says |
| `ServiceWorker.Activate` | static/sw.js:40-48 | deleting the filtered stale names one at a time leaves exactly `Pruned` of the old caches |
| `CacheStore.Opened` | static/sw.js:33-34 | after `caches.open` the named cache exists; an existing cache leaves the storage as it was; a missing one is created empty and listed last; every other cache is unchanged |
| `CacheStore.Stored` | static/sw.js:89 | after `put`, the named cache is exactly its old entries (none if it was new) with the key mapped to the response; every other cache is unchanged; the creation order is unchanged, or gains the name at the end when the cache was new |
| `CacheStore.Deleted` | static/sw.js:45 | after `caches.delete`, the cache and its name are gone; every other cache is unchanged; the name is spliced out of the creation order at its one position, or the order is unchanged when it was absent |
| `CacheStore.Without` | static/sw.js:45 | removing a name from the creation order keeps exactly the other names, each still once |
| `CacheStore.WithoutSplices` | static/sw.js:45 | removing a listed name from distinct names splices it out at its position, so the others keep their order |
| `CacheStore.WithoutAbsent` | static/sw.js:45 | removing a name that is not listed changes nothing |
| `CacheStore.AddedAll` | static/sw.js:33-34 | `addAll` keeps the storage well formed |
| `CacheStore.AddedAllEntries` | static/sw.js:33-34 | after `addAll`, the cache holds the old entries plus every URL with its fetched ok response when all fetches succeeded, and only the old entries otherwise |
| `CacheStore.AddedAllFrames` | static/sw.js:32-34 | `addAll` on one cache leaves every other cache unchanged, and the creation order unchanged or gaining the name at the end when the cache was new |
| `CacheStore.Batch` | static/sw.js:33-34 | the batch `addAll` writes has exactly the manifest's URLs as keys |
| `CacheStore.BatchHolds` | static/sw.js:33-34 | each manifest URL is in the batch with its fetched response, and every response in the batch is ok |
| `CacheStore.MatchInAt` | static/sw.js:78 | the search answers with the entry of the first cache in creation order that holds the key |
| `CacheStore.MatchIn` | static/sw.js:78 | the search over caches in a given order misses exactly when no listed cache holds the key |
| `CacheStore.FirstMatch` | static/sw.js:78 | a hit of `caches.match` is the entry for the key of some cache that holds it |
| `CacheStore.MatchInSome` | static/sw.js:78 | a hit is the entry of some listed cache that holds the key |
| `CacheStore.FirstMatchNone` | static/sw.js:78 | `caches.match` misses exactly when no cache holds the key |
| `CacheStore.FirstMatchOnlyHolder` | static/sw.js:93-94 | when only one cache holds the key, `caches.match` returns that cache's entry |
| `CacheStore.PutThenMatch` | static/sw.js:89-94 | round trip: what `put` stored comes back from `caches.match` when no other cache holds the key |
| `CacheStore.StoredTwice` | static/sw.js:89 | a second `put` of the same key replaces the first |
| `CacheStore.StoredSame` | static/sw.js:89 | putting the response a cache already holds for the key changes nothing |
| `CacheStore.CacheStorage.Open` | static/sw.js:33-34 | the object's new state is `Opened` of its old state |
| `CacheStore.CacheStorage.Put` | static/sw.js:89 | the object's new state is `Stored` of its old state |
| `CacheStore.CacheStorage.AddAll` | static/sw.js:33-34 | reports success exactly when every URL answered ok, and leaves `AddedAll` of the old state; it stops at the first failed fetch, which the pure network parameter cannot tell apart from fetching the rest |
| `CacheStore.CacheStorage.Delete` | static/sw.js:45 | reports whether the cache existed, and leaves `Deleted` of the old state |
| `CacheStore.CacheStorage.Keys` | static/sw.js:43 | returns every cache name once, in creation order |
| `CacheStore.CacheStorage.Match` | static/sw.js:78 | the loop over caches in creation order returns the first entry for the key, and `None` exactly when no cache holds it |

## Left out

- Browser event plumbing is not modelled: `addEventListener`, `event.waitUntil`, `event.respondWith`, `self.skipWaiting()` (static/sw.js:35) and `self.clients.claim()` (static/sw.js:47). They signal the lifecycle and change no data. The lifecycle states (installing, activating, active) are therefore not modelled either.
- Asynchrony and concurrency are left out. A `cache.put` that the source fires and forgets (static/sw.js:89, 104) is modelled as completing within the handler step. The race between replying and writing is not modelled, and neither are concurrent fetch events. The concurrent fetches of `addAll` and the concurrent deletes of activation are modelled sequentially. Their effects are independent, so the order does not change the result.
- URL parsing (`new URL`, `location.origin`, static/sw.js:54, 57) is not modelled. A request arrives as `(verb, sameOrigin, pathname, url)`, and nothing ties `url` to `pathname`.
- `Response` objects, body streams and `response.clone()` are not modelled. A response is an immutable value. Headers are reduced to `Content-Type`. `JSON.stringify` is replaced by its result, written out as a constant.
- The Cache API's own checks are not modelled: `put` and `addAll` rejecting a 206 response or a `Vary: *` header, matching by `Vary`, and failures of `caches.open`/`put` such as an exceeded quota. A cache key is the URL alone, with the method always GET.
- `CacheStore.CacheStorage.AddAll`: does not model the rejection of a batch that names the same URL twice; both manifests list distinct URLs.
- `CacheStore.CacheStorage.Delete`: always succeeds; a failing `caches.delete` is not modelled.
- Three behaviours of the code worth noting:
  - The static lookup searches every cache (`caches.match`, static/sw.js:78), not only the static one. So does the page fallback (static/sw.js:93-94).
  - A failed install is not atomic across the two caches (`InstallNotAtomicAcrossCaches`).
  - The page strategy caches responses of any status (`PageCachesErrorResponses`).
