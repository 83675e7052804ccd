/**
 * The offline cache controller of `public/sw.js` (cache generation
 * "net-control-v4"): a best-effort install, an activate that drops every
 * other cache generation, and a cache-first fetch handler that writes
 * successful responses through to the cache only for same-host or
 * allow-listed URLs.
 *
 * The host of the page is a parameter (`pageHost`): the helpers read
 * `window.location.hostname`, which a worker scope does not define; what the
 * handler does without it is `DecideInWorkerScope`.
 */
module OfflineCacheV4 {
  import opened Wrappers
  import opened Text
  import opened CacheApi

  const CACHE_NAME: string := "net-control-v4"

  /** The install manifest: the app shell and three allow-listed library files. */
  const ASSETS: seq<string> := [
    "/",
    "/index.html",
    "/styles.css",
    "/script.js",
    "/manifest.json",
    "/img/icon-192.png",
    "/img/icon-512.png",
    JSDELIVR + "/npm/bootstrap@5.3.0/dist/css/bootstrap.min.css",
    JSDELIVR + "/npm/bootstrap@5.3.0/dist/js/bootstrap.bundle.min.js",
    CDNJS + "/ajax/libs/font-awesome/6.4.0/css/all.min.css"
  ]

  /** The origins of the library files the manifest lists. */
  const JSDELIVR: string := "https://cdn.jsdelivr.net"
  const CDNJS: string := "https://cdnjs.cloudflare.com"

  /** The cross-origin hosts whose responses may be cached. */
  const CACHEABLE_DOMAINS: seq<string> := ["cdn.jsdelivr.net", "cdnjs.cloudflare.com"]

  /**
   * `isExternalResource`: the URL's host neither contains the page host nor
   * is an allow-listed host; a URL that does not parse is not external.
   */
  predicate IsExternalResource(url: string, pageHost: string) {
    match Hostname(url)
    case None => false
    case Some(domain) => !Contains(domain, pageHost) && domain !in CACHEABLE_DOMAINS
  }

  /**
   * `shouldCache`: the URL starts with "http" and contains, anywhere, the page
   * host or an allow-listed host.
   */
  predicate ShouldCache(url: string, pageHost: string) {
    StartsWith(url, "http")
    && (Contains(url, pageHost) || exists domain :: domain in CACHEABLE_DOMAINS && Contains(url, domain))
  }

  /**
   * The answer once the network has failed: the app shell for an HTML
   * request, else the cached copy if any. With no Accept header,
   * `headers.get` gives null and `.includes` throws, so the page gets a
   * network error.
   */
  function OfflineFallback(req: Request, cached: Option<Response>, shell: Option<Response>): Handling {
    match req.accept
    case None => Respond(None)
    case Some(accept) => if Contains(accept, "text/html") then Respond(shell) else Respond(cached)
  }

  /**
   * The fetch handler's decision, given the cached response for the request
   * (`caches.match(request)`), what the network does, and the cached app shell
   * (`caches.match('/index.html')`).
   */
  function Decide(req: Request, pageHost: string, cached: Option<Response>, net: NetOutcome,
                  shell: Option<Response>): Decision
  {
    if req.verb != "GET" || StartsWith(req.url, "chrome-extension:") then
      Decision(PassThrough, false, None)
    else if cached.Some? && !IsExternalResource(req.url, pageHost) then
      Decision(Respond(cached), false, None)
    else
      match net
      case Answered(resp) =>
        Decision(Respond(Some(resp)), true,
                 if resp.status == 200 && ShouldCache(req.url, pageHost) then Some(resp) else None)
      case NetworkFailure =>
        Decision(OfflineFallback(req, cached, shell), true, None)
  }

  /** `install`: opens `CACHE_NAME`, adds every manifest entry on its own, and always reaches `skipWaiting`. */
  method Install(store: CacheStorage, origin: string, net: string -> NetOutcome) returns (skipWaiting: bool)
    requires store.Valid()
    modifies store
    ensures store.Valid()
    ensures skipWaiting
    ensures store.names == old(store.names) + (if CACHE_NAME in old(store.caches) then [] else [CACHE_NAME])
    ensures store.caches == old(store.caches)[CACHE_NAME := Entries(old(store.caches), CACHE_NAME)
                                                            + Added(ASSETS, |ASSETS|, origin, net)]
  {
    ghost var start := store.caches;
    ghost var entries := Entries(start, CACHE_NAME);
    store.Open(CACHE_NAME);
    assert store.caches == start[CACHE_NAME := entries];
    AddEach(store, CACHE_NAME, ASSETS, origin, net);
    ghost var added := Added(ASSETS, |ASSETS|, origin, net);
    assert store.caches == start[CACHE_NAME := entries][CACHE_NAME := entries + added];
    UpdateTwice(start, CACHE_NAME, entries, entries + added);
    skipWaiting := true;
  }

  /**
   * `cache.add` for each of `assets`, each on its own: an entry whose fetch
   * fails or whose response is refused is logged and skipped.
   */
  method AddEach(store: CacheStorage, name: string, assets: seq<string>, origin: string, net: string -> NetOutcome)
    requires store.Valid() && name in store.caches
    modifies store
    ensures store.Valid()
    ensures store.names == old(store.names)
    ensures store.caches == old(store.caches)[name := old(store.caches)[name] + Added(assets, |assets|, origin, net)]
  {
    ghost var start := store.caches;
    ghost var kept := store.caches[name];
    assert kept + map[] == kept;
    for i := 0 to |assets|
      invariant store.Valid()
      invariant store.names == old(store.names)
      invariant store.caches == start[name := kept + Added(assets, i, origin, net)]
    {
      var url := Resolve(origin, assets[i]);
      ghost var added := Added(assets, i, origin, net);
      AddedStep(assets, i, origin, net);
      var outcome := net(url);
      if outcome.Answered? && IsOk(outcome.response) {
        var stored := store.Put(name, url, outcome.response);
        StepStored(start, name, kept, added, url, outcome.response, stored);
      }
    }
  }

  lemma StepStored(start: map<string, map<string, Response>>, name: string, kept: map<string, Response>,
                   added: map<string, Response>, url: string, r: Response, stored: bool)
    ensures start[name := kept + added][name := if stored then (kept + added)[url := r] else kept + added]
            == start[name := kept + (if stored then added[url := r] else added)]
  {
    if stored {
      assert (kept + added)[url := r] == kept + added[url := r];
    }
  }

  /** `activate`: deletes every cache generation but `CACHE_NAME`, then claims the clients. */
  method Activate(store: CacheStorage) returns (claimed: bool)
    requires store.Valid()
    modifies store
    ensures store.Valid()
    ensures claimed
    ensures store.caches == if CACHE_NAME in old(store.caches) then map[CACHE_NAME := old(store.caches)[CACHE_NAME]] else map[]
    ensures store.names == if CACHE_NAME in old(store.caches) then [CACHE_NAME] else []
  {
    store.DeleteAllExcept(CACHE_NAME);
    claimed := true;
  }

  /**
   * `fetch`: returns how the request is handled and whether the network was
   * asked; the store changes only by the write-through of `Decide`.
   */
  method Fetch(store: CacheStorage, req: Request, pageHost: string, origin: string, net: NetOutcome)
    returns (handling: Handling, fetched: bool)
    requires store.Valid()
    modifies store
    ensures store.Valid()
    ensures var d := Decide(req, pageHost, old(store.Match(req.verb, req.url)), net,
                            old(store.Match("GET", Resolve(origin, "/index.html"))));
            && handling == d.handling && fetched == d.fetched
            && (d.write.None? ==> store.names == old(store.names) && store.caches == old(store.caches))
            && (d.write.Some? ==>
                  && store.names == old(store.names) + (if CACHE_NAME in old(store.caches) then [] else [CACHE_NAME])
                  && store.caches == old(store.caches)[CACHE_NAME :=
                       if Storable(req.url, d.write.value) then Entries(old(store.caches), CACHE_NAME)[req.url := d.write.value]
                       else Entries(old(store.caches), CACHE_NAME)])
  {
    if req.verb != "GET" || StartsWith(req.url, "chrome-extension:") {
      return PassThrough, false;
    }
    var cached := store.Match(req.verb, req.url);
    if cached.Some? && !IsExternalResource(req.url, pageHost) {
      return Respond(cached), false;
    }
    fetched := true;
    match net {
      case Answered(resp) =>
        if resp.status == 200 && ShouldCache(req.url, pageHost) {
          var _ := store.Put(CACHE_NAME, req.url, resp);
        }
        handling := Respond(Some(resp));
      case NetworkFailure =>
        var shell := store.Match("GET", Resolve(origin, "/index.html"));
        handling := OfflineFallback(req, cached, shell);
    }
  }

  /** A non-GET request or a browser-extension URL is left to the browser: no cache read, no network, no write. */
  lemma NotIntercepted(req: Request, pageHost: string, cached: Option<Response>, net: NetOutcome, shell: Option<Response>)
    requires req.verb != "GET" || StartsWith(req.url, "chrome-extension:")
    ensures Decide(req, pageHost, cached, net, shell) == Decision(PassThrough, false, None)
  {
  }

  /** A cached entry for a URL that is not external is served as is, without the network and without a write. */
  lemma CachedLocalServed(req: Request, pageHost: string, r: Response, net: NetOutcome, shell: Option<Response>)
    requires req.verb == "GET" && !StartsWith(req.url, "chrome-extension:")
    requires !IsExternalResource(req.url, pageHost)
    ensures Decide(req, pageHost, Some(r), net, shell) == Decision(Respond(Some(r)), false, None)
  {
  }

  /**
   * Once the network answers, that answer is what the page gets, and it is
   * written through exactly when its status is 200 and `ShouldCache` holds.
   */
  lemma WriteThrough(req: Request, pageHost: string, cached: Option<Response>, resp: Response, shell: Option<Response>)
    requires req.verb == "GET" && !StartsWith(req.url, "chrome-extension:")
    requires cached.None? || IsExternalResource(req.url, pageHost)
    ensures var d := Decide(req, pageHost, cached, Answered(resp), shell);
            && d.handling == Respond(Some(resp)) && d.fetched
            && (d.write.Some? <==> resp.status == 200 && ShouldCache(req.url, pageHost))
            && (d.write.Some? ==> d.write.value == resp)
  {
  }

  /**
   * When the network fails, an HTML request gets the cached app shell even
   * if the request itself had a (rejected external) cached copy; any other
   * request gets that copy, or nothing.
   */
  lemma OfflineAnswer(req: Request, pageHost: string, cached: Option<Response>, shell: Option<Response>)
    requires req.verb == "GET" && !StartsWith(req.url, "chrome-extension:")
    requires cached.None? || IsExternalResource(req.url, pageHost)
    requires req.accept.Some?
    ensures var d := Decide(req, pageHost, cached, NetworkFailure, shell);
            && d.fetched && d.write.None?
            && (Contains(req.accept.value, "text/html") ==> d.handling == Respond(shell))
            && (!Contains(req.accept.value, "text/html") ==> d.handling == Respond(cached))
  {
  }

  /** `shouldCache` refuses every URL that does not start with "http". */
  lemma ShouldCacheNeedsHttp(url: string, pageHost: string)
    requires !StartsWith(url, "http")
    ensures !ShouldCache(url, pageHost)
  {
  }

  /** `shouldCache` accepts an http URL containing the page host or an allow-listed host anywhere in it. */
  lemma ShouldCacheBySubstring(url: string, pageHost: string, i: nat)
    requires StartsWith(url, "http")
    requires OccursAt(url, pageHost, i) || exists d :: d in CACHEABLE_DOMAINS && OccursAt(url, d, i)
    ensures ShouldCache(url, pageHost)
  {
  }

  /**
   * An https URL on an allow-listed host is never external and is always
   * cacheable, whatever the page host.
   */
  lemma AllowListedHost(domain: string, path: string, pageHost: string)
    requires domain in CACHEABLE_DOMAINS
    requires path == "" || path[0] in "/?#"
    ensures !IsExternalResource("https://" + domain + path, pageHost)
    ensures ShouldCache("https://" + domain + path, pageHost)
  {
    assert PlainHost(CACHEABLE_DOMAINS[0]) && PlainHost(CACHEABLE_DOMAINS[1]);
    HostnameOfHttps(domain, path);
    ContainsSelfAndEmpty(domain);
    ContainsInContext("https://", domain, path, domain);
  }

  /** A URL that does not parse is never external, so any cached copy of it is served. */
  lemma UnparsableNotExternal(url: string, pageHost: string)
    requires Hostname(url).None?
    ensures !IsExternalResource(url, pageHost)
  {
  }

  /**
   * `shouldCache` looks for an allow-listed host anywhere in the URL, so a
   * response from an external host is still written through when its query
   * mentions an allow-listed host.
   */
  lemma ShouldCacheIgnoresHostBoundaries(host: string, domain: string, pageHost: string)
    requires host != "" && PlainHost(host)
    requires !Contains(host, pageHost) && host !in CACHEABLE_DOMAINS
    requires domain in CACHEABLE_DOMAINS
    ensures IsExternalResource("https://" + host + "/?" + domain, pageHost)
    ensures ShouldCache("https://" + host + "/?" + domain, pageHost)
  {
    var url := "https://" + host + "/?" + domain;
    assert url == "https://" + host + ("/?" + domain);
    HostnameOfHttps(host, "/?" + domain);
    ContainsSelfAndEmpty(domain);
    ContainsInContext("https://" + host + "/?", domain, "", domain);
    assert "https://" + host + "/?" + domain + "" == url;
  }

  /** The manifest entries at indices 0 to 1 are distinguishable from every later entry. */
  lemma ManifestDistinguishable0()
    ensures forall i, j :: 0 <= i < 2 && i < j < |ASSETS| ==> Distinguishable(ASSETS[i], ASSETS[j])
  {
    forall i, j | 0 <= i < 2 && i < j < |ASSETS| ensures Distinguishable(ASSETS[i], ASSETS[j]) {
      assert i == 0 || i == 1;
      assert j == 1 || j == 2 || j == 3 || j == 4 || j == 5 || j == 6 || j == 7 || j == 8 || j == 9;
    }
  }

  /** The manifest entries at indices 2 to 3 are distinguishable from every later entry. */
  lemma ManifestDistinguishable2()
    ensures forall i, j :: 2 <= i < 4 && i < j < |ASSETS| ==> Distinguishable(ASSETS[i], ASSETS[j])
  {
    forall i, j | 2 <= i < 4 && i < j < |ASSETS| ensures Distinguishable(ASSETS[i], ASSETS[j]) {
      assert i == 2 || i == 3;
      assert j == 3 || j == 4 || j == 5 || j == 6 || j == 7 || j == 8 || j == 9;
    }
  }

  /** The manifest entries at indices 4 to 5 are distinguishable from every later entry. */
  lemma ManifestDistinguishable4()
    ensures forall i, j :: 4 <= i < 6 && i < j < |ASSETS| ==> Distinguishable(ASSETS[i], ASSETS[j])
  {
    forall i, j | 4 <= i < 6 && i < j < |ASSETS| ensures Distinguishable(ASSETS[i], ASSETS[j]) {
      assert i == 4 || i == 5;
      assert j == 5 || j == 6 || j == 7 || j == 8 || j == 9;
    }
  }

  /** The manifest entry at index 6 is distinguishable from every later entry. */
  lemma ManifestDistinguishable6()
    ensures forall i, j :: 6 <= i < 7 && i < j < |ASSETS| ==> Distinguishable(ASSETS[i], ASSETS[j])
  {
    forall i, j | 6 <= i < 7 && i < j < |ASSETS| ensures Distinguishable(ASSETS[i], ASSETS[j]) {
      assert i == 6;
      assert j == 7 || j == 8 || j == 9;
    }
  }

  /** The manifest entries at indices 7 to 9 are distinguishable from every later entry. */
  lemma ManifestDistinguishable7()
    ensures forall i, j :: 7 <= i < 10 && i < j < |ASSETS| ==> Distinguishable(ASSETS[i], ASSETS[j])
  {
    forall i, j | 7 <= i < 10 && i < j < |ASSETS| ensures Distinguishable(ASSETS[i], ASSETS[j]) {
      assert i == 7 || i == 8 || i == 9;
      assert j == 8 || j == 9;
    }
  }

  /** The manifest's ten entries resolve to ten different URLs, whatever the origin. */
  lemma ManifestResolvesApart(origin: string)
    ensures ResolvesApart(ASSETS, origin)
  {
    ManifestDistinguishable0();
    ManifestDistinguishable2();
    ManifestDistinguishable4();
    ManifestDistinguishable6();
    ManifestDistinguishable7();
    forall i, j | 0 <= i < j < |ASSETS| ensures Resolve(origin, ASSETS[i]) != Resolve(origin, ASSETS[j]) {
      ResolveApart(origin, ASSETS[i], ASSETS[j]);
    }
  }

  /**
   * Served from an http(s) origin, the install keeps a manifest entry exactly
   * when the network answered it with an ok status other than 206, and keeps
   * that answer: `cache.put`'s scheme rule never refuses an entry.
   */
  lemma InstalledExactlyWhenOk(origin: string, net: string -> NetOutcome, i: nat)
    requires IsHttpUrl(origin) && i < |ASSETS|
    ensures var url := Resolve(origin, ASSETS[i]);
            && (url in Added(ASSETS, |ASSETS|, origin, net) <==>
                  net(url).Answered? && IsOk(net(url).response) && net(url).response.status != 206)
            && (url in Added(ASSETS, |ASSETS|, origin, net) ==> Added(ASSETS, |ASSETS|, origin, net)[url] == net(url).response)
  {
    var url := Resolve(origin, ASSETS[i]);
    if i < 7 {
      assert i == 0 || i == 1 || i == 2 || i == 3 || i == 4 || i == 5 || i == 6;
      assert IsPath(ASSETS[i]);
    } else {
      assert i == 7 || i == 8 || i == 9;
      assert "https:" <= JSDELIVR && "https:" <= CDNJS;
      HttpUrlExtended(JSDELIVR, "/npm/bootstrap@5.3.0/dist/css/bootstrap.min.css");
      HttpUrlExtended(JSDELIVR, "/npm/bootstrap@5.3.0/dist/js/bootstrap.bundle.min.js");
      HttpUrlExtended(CDNJS, "/ajax/libs/font-awesome/6.4.0/css/all.min.css");
    }
    ResolveHttp(origin, ASSETS[i]);
    AddedExactly(ASSETS, |ASSETS|, origin, net, url);
  }

  /**
   * The handler as written runs in a worker scope, where `window` is not
   * defined: `isExternalResource` catches the ReferenceError and answers
   * false, so any cached copy is served; `shouldCache` throws it once its
   * "http" prefix test passes, so every status-200 answer for an http(s) URL
   * falls into the offline branch instead of reaching the page.
   */
  function DecideInWorkerScope(req: Request, cached: Option<Response>, net: NetOutcome, shell: Option<Response>): Decision {
    if req.verb != "GET" || StartsWith(req.url, "chrome-extension:") then
      Decision(PassThrough, false, None)
    else if cached.Some? then
      Decision(Respond(cached), false, None)
    else
      match net
      case Answered(resp) =>
        if resp.status == 200 && StartsWith(req.url, "http") then Decision(OfflineFallback(req, cached, shell), true, None)
        else Decision(Respond(Some(resp)), true, None)
      case NetworkFailure =>
        Decision(OfflineFallback(req, cached, shell), true, None)
  }

  /**
   * A same-host script fetched with status 200 and not yet cached: with the
   * page host given, the page gets the script and the cache keeps a copy; in
   * the worker scope as written, the page gets a network error and nothing is cached.
   */
  lemma WorkerScopeDropsFreshResponses(resp: Response)
    requires resp.status == 200
    ensures var req := Request("GET", "https://app.example/app.js", Some("*/*"));
            && DecideInWorkerScope(req, None, Answered(resp), None) == Decision(Respond(None), true, None)
            && Decide(req, "app.example", None, Answered(resp), None) == Decision(Respond(Some(resp)), true, Some(resp))
  {
    var url := "https://app.example/app.js";
    assert !StartsWith(url, "chrome-extension:") by {
      assert url[0] != "chrome-extension:"[0];
    }
    assert StartsWith(url, "http");
    assert url[8..19] == "app.example";
    assert OccursAt(url, "app.example", 8);
    assert !Contains("*/*", "text/html");
  }
}
