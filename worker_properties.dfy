/**
  What the service worker guarantees, stated over the value-level model of
  its handlers: routing, the three strategies, and the cache lifecycle.
 */
module WorkerProperties {
  import opened Http
  import opened CacheStore
  import opened ServiceWorker

  /** Every entry of the static cache, when it exists, is an `ok` response. */
  ghost predicate StaticHoldsOnlyOk(s: Store) {
    CacheStatic in s.caches ==> forall u :: u in s.caches[CacheStatic] ==> s.caches[CacheStatic][u].Ok()
  }

  // ---------------------------------------------------------------- names

  lemma CacheNamesFollowVersion()
    ensures CacheStatic == "static-v1.0.0" && CachePages == "pages-v1.0.0"
    ensures CacheStatic != CachePages
  {
    assert CacheStatic[0] != CachePages[0];
  }

  // -------------------------------------------------------------- routing

  /** Non-GET and cross-origin requests are never answered and touch nothing. */
  lemma NotInterceptedIff(s: Store, req: Request, net: FetchOutcome)
    requires WellFormed(s)
    ensures FetchEvent(s, req, net).reply == PassThrough <==> req.verb != "GET" || !req.sameOrigin
    ensures req.verb != "GET" || !req.sameOrigin ==> FetchEvent(s, req, net) == Step(PassThrough, s, false)
  {
  }

  /** Edge cases of prefix matching. */
  lemma RouteExamples()
    ensures Classify("GET", true, "/loginx") == Api
    ensures Classify("GET", true, "/logout") == Api
    ensures Classify("GET", true, "/api") == Page
    ensures Classify("GET", true, "/static") == Page
    ensures Classify("GET", true, "/static/icons/icon-192.png") == Static
    ensures Classify("HEAD", true, "/static/manifest.json") == Ignored
    ensures Classify("GET", false, "/api/report") == Ignored
  {
    assert "/login" <= "/loginx";
    assert "/static"[1] != "/api/"[1] && "/static"[1] != "/auth/"[1] && "/static"[1] != "/login"[1];
    assert |"/static"| < |"/static/"|;
    assert "/api"[2] != "/auth/"[2] && "/api"[1] != "/login"[1] && "/api"[1] != "/static/"[1];
    assert |"/api"| < |"/api/"|;
    assert "/static/icons/icon-192.png"[1] != "/api/"[1];
    assert "/static/icons/icon-192.png"[1] != "/auth/"[1];
    assert "/static/icons/icon-192.png"[1] != "/login"[1];
  }

  // ------------------------------------------------------------------ API

  /** API requests: the network's answer verbatim, or the fixed 503; the caches never change. */
  lemma ApiBranch(s: Store, req: Request, net: FetchOutcome)
    requires WellFormed(s)
    requires Classify(req.verb, req.sameOrigin, req.pathname) == Api
    ensures FetchEvent(s, req, net).store == s
    ensures FetchEvent(s, req, net).contacted
    ensures net.Fetched? ==> FetchEvent(s, req, net).reply == Respond(net.response)
    ensures net.NetworkError? ==> FetchEvent(s, req, net).reply == Respond(OfflineApiResponse)
  {
  }

  /** The offline substitute: status 503, JSON, and the exact serialized error object. */
  lemma OfflineApiResponseShape()
    ensures OfflineApiResponse.status == 503 && !OfflineApiResponse.Ok()
    ensures OfflineApiResponse.contentType == "application/json"
    ensures OfflineApiResponse.body == "{\"error\":\"Offline \U{2013} no network connection\"}"
    ensures |OfflineApiResponse.body| == 43
  {
  }

  // --------------------------------------------------------------- static

  /**
    Cache first: when any cache, not only the static one, holds the URL, that
    entry is served, the network is not contacted and nothing is written.
   */
  lemma StaticHit(s: Store, req: Request, net: FetchOutcome, name: string)
    requires WellFormed(s)
    requires Classify(req.verb, req.sameOrigin, req.pathname) == Static
    requires name in s.caches && req.url in s.caches[name]
    ensures var st := FetchEvent(s, req, net);
      && !st.contacted
      && st.store == s
      && st.reply.Respond?
      && exists n :: n in s.caches && req.url in s.caches[n] && s.caches[n][req.url] == st.reply.response
  {
    FirstMatchNone(s, req.url);
    MatchInSome(s.order, s.caches, req.url);
  }

  /**
    Cache miss: the fetched response is returned unchanged and stored in the
    static cache only when `ok`; a network failure is passed on.
   */
  lemma StaticMiss(s: Store, req: Request, net: FetchOutcome)
    requires WellFormed(s)
    requires Classify(req.verb, req.sameOrigin, req.pathname) == Static
    requires Uncached(s, req.url)
    ensures FetchEvent(s, req, net).contacted
    ensures net.NetworkError? ==> FetchEvent(s, req, net) == Step(Fail, s, true)
    ensures net.Fetched? ==> FetchEvent(s, req, net).reply == Respond(net.response)
    ensures net.Fetched? && net.response.Ok() ==>
              FetchEvent(s, req, net).store == Stored(s, CacheStatic, req.url, net.response)
    ensures net.Fetched? && !net.response.Ok() ==> FetchEvent(s, req, net).store == s
  {
    FirstMatchNone(s, req.url);
  }

  /** A cold request with an `ok` answer makes the next identical request a cache hit. */
  lemma StaticSecondRequestHits(s: Store, req: Request, r: Response, next: FetchOutcome)
    requires WellFormed(s)
    requires Classify(req.verb, req.sameOrigin, req.pathname) == Static
    requires Uncached(s, req.url) && r.Ok()
    ensures var t := FetchEvent(s, req, Fetched(r)).store;
      FetchEvent(t, req, next) == Step(Respond(r), t, false)
  {
    FirstMatchNone(s, req.url);
    PutThenMatch(s, CacheStatic, req.url, r);
  }

  /** The fetch handler writes only `ok` responses into the static cache. */
  lemma FetchKeepsStaticOk(s: Store, req: Request, net: FetchOutcome)
    requires WellFormed(s) && StaticHoldsOnlyOk(s)
    ensures StaticHoldsOnlyOk(FetchEvent(s, req, net).store)
  {
  }

  // ---------------------------------------------------------------- pages

  /**
    Page requests, network up: the response is returned and written into the
    pages cache whatever its status; no other cache changes.
   */
  lemma PageOnline(s: Store, req: Request, r: Response)
    requires WellFormed(s)
    requires Classify(req.verb, req.sameOrigin, req.pathname) == Page
    ensures var st := FetchEvent(s, req, Fetched(r));
      && st.reply == Respond(r) && st.contacted
      && CachePages in st.store.caches
      && st.store.caches[CachePages][req.url] == r
      && st.store.caches[CachePages] == (if CachePages in s.caches then s.caches[CachePages] else map[])[req.url := r]
      && (forall u :: u != req.url && CachePages in s.caches && u in s.caches[CachePages] ==>
                        u in st.store.caches[CachePages] && st.store.caches[CachePages][u] == s.caches[CachePages][u])
      && (forall n :: n != CachePages ==> (n in st.store.caches <==> n in s.caches))
      && (forall n :: n != CachePages && n in s.caches ==> st.store.caches[n] == s.caches[n])
  {
  }

  /** Even an error page (for instance a 500) overwrites the cached copy of a page. */
  lemma PageCachesErrorResponses(s: Store, req: Request)
    requires WellFormed(s)
    requires Classify(req.verb, req.sameOrigin, req.pathname) == Page
    ensures var err := Response(500, "text/html", "");
      FetchEvent(s, req, Fetched(err)).store.caches[CachePages][req.url] == err
  {
  }

  /** Repeating a page request: the latest response is the one entry kept. */
  lemma PageLatestWins(s: Store, req: Request, r1: Response, r2: Response)
    requires WellFormed(s)
    requires Classify(req.verb, req.sameOrigin, req.pathname) == Page
    ensures var t1 := FetchEvent(s, req, Fetched(r1)).store;
      FetchEvent(t1, req, Fetched(r2)).store == FetchEvent(s, req, Fetched(r2)).store
  {
    StoredTwice(s, CachePages, req.url, r1, r2);
  }

  /** Repeating a page request with the same response changes nothing more. */
  lemma PageIdempotent(s: Store, req: Request, r: Response)
    requires WellFormed(s)
    requires Classify(req.verb, req.sameOrigin, req.pathname) == Page
    ensures var t := FetchEvent(s, req, Fetched(r)).store;
      FetchEvent(t, req, Fetched(r)).store == t
  {
    StoredSame(Stored(s, CachePages, req.url, r), CachePages, req.url, r);
  }

  /**
    Page requests, network down: a cached copy of the page, else a cached
    offline page, else a network error; nothing is written.
   */
  lemma PageOffline(s: Store, req: Request)
    requires WellFormed(s)
    requires Classify(req.verb, req.sameOrigin, req.pathname) == Page
    ensures var st := FetchEvent(s, req, NetworkError);
      && st.store == s && st.contacted
      && (!Uncached(s, req.url) ==>
            st.reply.Respond?
            && exists n :: n in s.caches && req.url in s.caches[n] && s.caches[n][req.url] == st.reply.response)
      && (Uncached(s, req.url) && !Uncached(s, OfflinePage) ==>
            st.reply.Respond?
            && exists n :: n in s.caches && OfflinePage in s.caches[n] && s.caches[n][OfflinePage] == st.reply.response)
      && (st.reply == Fail <==> Uncached(s, req.url) && Uncached(s, OfflinePage))
  {
    FirstMatchNone(s, req.url);
    FirstMatchNone(s, OfflinePage);
    if !Uncached(s, req.url) {
      MatchInSome(s.order, s.caches, req.url);
    } else if !Uncached(s, OfflinePage) {
      MatchInSome(s.order, s.caches, OfflinePage);
    }
  }

  /** The fallback scenario: an uncached page with the network down gets the offline page. */
  lemma OfflineFallbackServed(s: Store, req: Request)
    requires WellFormed(s)
    requires Classify(req.verb, req.sameOrigin, req.pathname) == Page
    requires Uncached(s, req.url)
    requires CachePages in s.caches && OfflinePage in s.caches[CachePages]
    requires forall n :: n in s.caches && n != CachePages ==> OfflinePage !in s.caches[n]
    ensures FetchEvent(s, req, NetworkError).reply == Respond(s.caches[CachePages][OfflinePage])
  {
    FirstMatchNone(s, req.url);
    FirstMatchOnlyHolder(s, CachePages, OfflinePage);
  }

  // ------------------------------------------------------------ lifecycle

  /** `addAll` succeeds exactly when every URL of both manifests answered `ok`. */
  lemma InstallOkIff(net: string -> FetchOutcome)
    ensures InstallOk(net) <==> forall u :: u in StaticAssets + PagesToCache ==> net(u).Succeeded()
  {
    if forall u :: u in StaticAssets + PagesToCache ==> net(u).Succeeded() {
      forall i | 0 <= i < |StaticAssets| ensures net(StaticAssets[i]).Succeeded() {
        assert StaticAssets[i] in StaticAssets + PagesToCache;
      }
      forall i | 0 <= i < |PagesToCache| ensures net(PagesToCache[i]).Succeeded() {
        assert PagesToCache[i] in StaticAssets + PagesToCache;
      }
    }
  }

  /** A completed install holds every manifest URL, with its fetched response, in its cache. */
  lemma InstallPopulates(s: Store, net: string -> FetchOutcome)
    requires WellFormed(s) && InstallOk(net)
    ensures var t := Installed(s, net);
      && CacheStatic in t.caches && CachePages in t.caches
      && (forall u :: u in StaticAssets ==> u in t.caches[CacheStatic] && t.caches[CacheStatic][u] == net(u).response)
      && (forall u :: u in PagesToCache ==> u in t.caches[CachePages] && t.caches[CachePages][u] == net(u).response)
      && OfflinePage in t.caches[CachePages]
  {
    CacheNamesFollowVersion();
    var t1 := AddedAll(s, CacheStatic, StaticAssets, net);
    AddedAllEntries(s, CacheStatic, StaticAssets, net);
    AddedAllEntries(t1, CachePages, PagesToCache, net);
    AddedAllFrames(t1, CachePages, PagesToCache, net);
    assert OfflinePage in PagesToCache;
  }

  /**
    A manifest with a failed URL leaves its cache as it was (created empty if
    absent): `addAll` is all or nothing per cache.
   */
  lemma InstallFailureWritesNothing(s: Store, net: string -> FetchOutcome)
    requires WellFormed(s)
    ensures !AllSucceeded(StaticAssets, net) ==>
              Installed(s, net).caches[CacheStatic] == if CacheStatic in s.caches then s.caches[CacheStatic] else map[]
    ensures !AllSucceeded(PagesToCache, net) ==>
              Installed(s, net).caches[CachePages] == if CachePages in s.caches then s.caches[CachePages] else map[]
  {
    CacheNamesFollowVersion();
    var t1 := AddedAll(s, CacheStatic, StaticAssets, net);
    AddedAllEntries(s, CacheStatic, StaticAssets, net);
    AddedAllFrames(s, CacheStatic, StaticAssets, net);
    AddedAllEntries(t1, CachePages, PagesToCache, net);
    AddedAllFrames(t1, CachePages, PagesToCache, net);
  }

  /**
    There is no atomicity across the two caches: the static cache can be
    fully populated by an install that fails because a page failed to fetch.
   */
  lemma InstallNotAtomicAcrossCaches(s: Store, net: string -> FetchOutcome)
    requires WellFormed(s) && AllSucceeded(StaticAssets, net) && !AllSucceeded(PagesToCache, net)
    ensures !InstallOk(net)
    ensures forall u :: u in StaticAssets ==>
              u in Installed(s, net).caches[CacheStatic] && Installed(s, net).caches[CacheStatic][u] == net(u).response
  {
    CacheNamesFollowVersion();
    var t1 := AddedAll(s, CacheStatic, StaticAssets, net);
    AddedAllEntries(s, CacheStatic, StaticAssets, net);
    AddedAllFrames(t1, CachePages, PagesToCache, net);
  }

  /** Install writes only `ok` responses into the static cache. */
  lemma InstallKeepsStaticOk(s: Store, net: string -> FetchOutcome)
    requires WellFormed(s) && StaticHoldsOnlyOk(s)
    ensures StaticHoldsOnlyOk(Installed(s, net))
  {
    CacheNamesFollowVersion();
    var t1 := AddedAll(s, CacheStatic, StaticAssets, net);
    AddedAllEntries(s, CacheStatic, StaticAssets, net);
    AddedAllFrames(t1, CachePages, PagesToCache, net);
  }

  /** Activation keeps exactly the two current caches that exist, with their entries intact and in their creation order. */
  lemma ActivateKeepsCurrent(s: Store)
    requires WellFormed(s)
    ensures forall n :: n in Pruned(s).caches <==> n in s.caches && (n == CacheStatic || n == CachePages)
    ensures forall n :: n in Pruned(s).caches ==> Pruned(s).caches[n] == s.caches[n]
    ensures forall n :: n in Pruned(s).order <==> n in Pruned(s).caches
    ensures Subsequence(Pruned(s).order, s.order)
  {
    KeepCurrentMembers(s.order);
    KeepCurrentInOrder(s.order);
  }

  lemma {:induction false} KeepCurrentIdempotent(names: seq<string>)
    ensures KeepCurrent(KeepCurrent(names)) == KeepCurrent(names)
  {
    if names != [] {
      KeepCurrentIdempotent(names[1..]);
    }
  }

  /** Activating twice deletes nothing more. */
  lemma ActivateIdempotent(s: Store)
    requires WellFormed(s)
    ensures Pruned(Pruned(s)) == Pruned(s)
  {
    KeepCurrentIdempotent(s.order);
  }

  /** Before the current names, the two stale ones are exactly what activation deletes. */
  lemma StaleOfTwoVersions(a: string, b: string)
    requires a !in Current && b !in Current
    ensures Stale([a, b] + Current) == [a, b]
  {
    var names := [a, b] + Current;
    assert names[0] == a && names[1..][0] == b && names[1..][1..] == Current;
    FiltersOfCurrent();
    assert Stale(names[1..]) == [b];
  }

  /** Activation's current-name filter distributes over concatenation. */
  lemma {:induction false} KeepCurrentAppend(x: seq<string>, y: seq<string>)
    ensures KeepCurrent(x + y) == KeepCurrent(x) + KeepCurrent(y)
  {
    if x == [] {
      assert x + y == y;
    } else {
      KeepCurrentAppend(x[1..], y);
      assert (x + y)[0] == x[0] && (x + y)[1..] == x[1..] + y;
    }
  }

  /** Over names of which none is current, activation deletes them all, in order. */
  lemma {:induction false} FiltersOfStale(names: seq<string>)
    requires forall n :: n in names ==> n !in Current
    ensures Stale(names) == names && KeepCurrent(names) == []
  {
    if names != [] {
      FiltersOfStale(names[1..]);
      assert [names[0]] + names[1..] == names;
    }
  }

  /** Activation keeps the current names as they are. */
  lemma FiltersOfCurrent()
    ensures KeepCurrent(Current) == Current && Stale(Current) == []
  {
    var last := [CachePages];
    assert Current[1..] == last && last[1..] == [];
    assert Current[0] in Current && last[0] in Current;
    assert Stale(last) == Stale([]);
    assert KeepCurrent(last) == last + [];
  }

  /** Two old-version caches created before the two current ones. */
  function TwoVersions(a: string, b: string, e: Entries): Store {
    Store([a, b] + Current, map[a := e, b := e, CacheStatic := e, CachePages := e])
  }

  lemma TwoVersionsWellFormed(a: string, b: string, e: Entries)
    requires a !in Current && b !in Current && a != b
    ensures WellFormed(TwoVersions(a, b, e))
  {
    CacheNamesFollowVersion();
    assert [a, b] + Current == [a, b, CacheStatic, CachePages];
  }

  /** Activation over two old-version caches and the two current ones deletes the old two. */
  lemma PrunedOverOldVersion(a: string, b: string, e: Entries)
    requires a !in Current && b !in Current && a != b
    ensures WellFormed(TwoVersions(a, b, e))
    ensures Stale(TwoVersions(a, b, e).order) == [a, b]
    ensures Pruned(TwoVersions(a, b, e)) == Store(Current, map[CacheStatic := e, CachePages := e])
  {
    TwoVersionsWellFormed(a, b, e);
    var s := TwoVersions(a, b, e);
    StaleOfTwoVersions(a, b);
    KeepCurrentAppend([a, b], Current);
    FiltersOfStale([a, b]);
    FiltersOfCurrent();
    assert Pruned(s).order == Current;
    TwoVersionsKeptCaches(a, b, e);
  }

  lemma TwoVersionsKeptCaches(a: string, b: string, e: Entries)
    requires a !in Current && b !in Current && a != b
    ensures var caches := TwoVersions(a, b, e).caches;
      (map n | n in caches && n in Current :: caches[n]) == map[CacheStatic := e, CachePages := e]
  {
    CacheNamesFollowVersion();
  }

  /** The upgrade scenario: of two versions' caches, only the old version's are deleted. */
  lemma ActivateUpgradeScenario(e: Entries)
    ensures var s := TwoVersions("static-v0.9.0", "pages-v0.9.0", e);
      && s.order == ["static-v0.9.0", "pages-v0.9.0", "static-v1.0.0", "pages-v1.0.0"]
      && WellFormed(s)
      && Stale(s.order) == ["static-v0.9.0", "pages-v0.9.0"]
      && Pruned(s) == Store(["static-v1.0.0", "pages-v1.0.0"], map["static-v1.0.0" := e, "pages-v1.0.0" := e])
  {
    OldVersionNames();
    PrunedOverOldVersion("static-v0.9.0", "pages-v0.9.0", e);
    CacheNamesFollowVersion();
  }

  /** The v0.9.0 cache names are stale for this version and differ from each other. */
  lemma OldVersionNames()
    ensures "static-v0.9.0" !in Current && "pages-v0.9.0" !in Current && "static-v0.9.0" != "pages-v0.9.0"
  {
    CacheNamesFollowVersion();
    var a, b := "static-v0.9.0", "pages-v0.9.0";
    assert a[8] != CacheStatic[8] && a[0] != CachePages[0];
    assert b[7] != CachePages[7] && b[0] != CacheStatic[0] && a[0] != b[0];
  }

  /** Once only current caches exist, handling requests never creates another. */
  lemma FetchCreatesOnlyCurrent(s: Store, req: Request, net: FetchOutcome)
    requires WellFormed(s)
    requires forall n :: n in s.caches ==> n in Current
    ensures forall n :: n in FetchEvent(s, req, net).store.caches ==> n in Current
  {
  }

  /**
    End to end: after a completed install into empty storage and activation,
    a page that was never cached, requested with the network down, gets the
    pre-cached offline page.
   */
  lemma OfflinePageAfterInstall(net: string -> FetchOutcome, req: Request)
    requires InstallOk(net)
    requires Classify(req.verb, req.sameOrigin, req.pathname) == Page
    requires req.url !in StaticAssets && req.url !in PagesToCache
    ensures FetchEvent(Pruned(Installed(Empty, net)), req, NetworkError).reply == Respond(net(OfflinePage).response)
  {
    var p := Pruned(Installed(Empty, net));
    InstalledThenActivated(net);
    assert Uncached(p, req.url);
    OfflineFallbackServed(p, req);
  }

  /** After install into empty storage and activation, only the pages cache holds `/offline`. */
  lemma InstalledThenActivated(net: string -> FetchOutcome)
    requires InstallOk(net)
    ensures var p := Pruned(Installed(Empty, net));
      && WellFormed(p)
      && CachePages in p.caches && OfflinePage in p.caches[CachePages]
      && p.caches[CachePages][OfflinePage] == net(OfflinePage).response
      && (forall n :: n in p.caches && n != CachePages ==> OfflinePage !in p.caches[n])
      && (forall n, u :: n in p.caches && u in p.caches[n] ==> u in StaticAssets || u in PagesToCache)
  {
    InstalledFromEmpty(net);
    ActivatedManifests(Installed(Empty, net));
  }

  /** Activating storage that holds exactly the two manifests, each in its own cache. */
  lemma ActivatedManifests(t: Store)
    requires WellFormed(t)
    requires forall n :: n in t.caches <==> n == CacheStatic || n == CachePages
    requires forall u :: u in t.caches[CacheStatic] <==> u in StaticAssets
    requires forall u :: u in t.caches[CachePages] <==> u in PagesToCache
    ensures var p := Pruned(t);
      && WellFormed(p)
      && CachePages in p.caches && OfflinePage in p.caches[CachePages]
      && p.caches[CachePages][OfflinePage] == t.caches[CachePages][OfflinePage]
      && (forall n :: n in p.caches && n != CachePages ==> OfflinePage !in p.caches[n])
      && (forall n, u :: n in p.caches && u in p.caches[n] ==> u in StaticAssets || u in PagesToCache)
  {
    ActivateKeepsCurrent(t);
    OfflineIsNotStatic();
    assert OfflinePage in PagesToCache;
  }

  /** The offline page is not one of the static assets. */
  lemma OfflineIsNotStatic()
    ensures OfflinePage !in StaticAssets
  {
    assert forall u :: u in StaticAssets ==> u[1] == 's';
  }

  /** What an install into empty storage leaves behind. */
  lemma InstalledFromEmpty(net: string -> FetchOutcome)
    requires InstallOk(net)
    ensures var t := Installed(Empty, net);
      && (forall n :: n in t.caches <==> n == CacheStatic || n == CachePages)
      && (forall u :: u in t.caches[CacheStatic] <==> u in StaticAssets)
      && (forall u :: u in t.caches[CachePages] <==> u in PagesToCache)
      && t.caches[CachePages][OfflinePage] == net(OfflinePage).response
  {
    CacheNamesFollowVersion();
    var t1 := AddedAll(Empty, CacheStatic, StaticAssets, net);
    AddedAllEntries(Empty, CacheStatic, StaticAssets, net);
    AddedAllFrames(Empty, CacheStatic, StaticAssets, net);
    AddedAllEntries(t1, CachePages, PagesToCache, net);
    AddedAllFrames(t1, CachePages, PagesToCache, net);
    assert OfflinePage in PagesToCache;
  }
}
