/**
 * The older offline cache controller of `sw.js` (cache generation
 * "net-control-v3"): an all-or-nothing install through `cache.addAll`, the
 * same activate cleanup as v4, and a cache-first fetch handler that writes
 * every network answer to a GET request through to the cache.
 */
module OfflineCacheV3 {
  import opened Wrappers
  import opened Text
  import opened CacheApi

  const CACHE_NAME: string := "net-control-v3"

  /** The install manifest: the app shell and three library files (no 512px icon). */
  const ASSETS: seq<string> := [
    "/",
    "/index.html",
    "/styles.css",
    "/script.js",
    "/manifest.json",
    "/img/icon-192.png",
    JSDELIVR + "/npm/bootstrap@5.3.0/dist/css/bootstrap.min.css",
    JSDELIVR + "/npm/bootstrap@5.3.0/dist/js/bootstrap.bundle.min.js",
    CDNJS + "/ajax/libs/font-awesome/6.4.0/css/all.min.css"
  ]

  /** The origins of the library files the manifest lists. */
  const JSDELIVR: string := "https://cdn.jsdelivr.net"
  const CDNJS: string := "https://cdnjs.cloudflare.com"

  /**
   * The answer once the network has failed (the `catch`): the cached app
   * shell for an HTML request, otherwise `undefined`. With no Accept header
   * `headers.get` gives null and `.includes` throws inside the catch.
   */
  function OfflineFallback(req: Request, shell: Option<Response>): Handling {
    match req.accept
    case None => Respond(None)
    case Some(accept) => if Contains(accept, "text/html") then Respond(shell) else Respond(None)
  }

  /**
   * The fetch handler's decision, given the cached response for the request
   * (`caches.match(request)`), what the network does, and the cached app shell
   * (`caches.match('/index.html')`).
   */
  function Decide(req: Request, cached: Option<Response>, net: NetOutcome, shell: Option<Response>): Decision {
    if Contains(req.url, "chrome-extension") then
      Decision(PassThrough, false, None)
    else if cached.Some? then
      Decision(Respond(cached), false, None)
    else
      match net
      case Answered(resp) => Decision(Respond(Some(resp)), true, if req.verb == "GET" then Some(resp) else None)
      case NetworkFailure => Decision(OfflineFallback(req, shell), true, None)
  }

  /**
   * `install`: opens `CACHE_NAME` and runs `cache.addAll(ASSETS)`; only when
   * every entry is added does it reach `skipWaiting`.
   */
  method Install(store: CacheStorage, origin: string, net: string -> NetOutcome) returns (skipWaiting: bool)
    requires store.Valid()
    modifies store
    ensures store.Valid()
    ensures skipWaiting == AllAdded(ASSETS, origin, net)
    ensures store.names == old(store.names) + (if CACHE_NAME in old(store.caches) then [] else [CACHE_NAME])
    ensures store.caches == old(store.caches)[CACHE_NAME := Entries(old(store.caches), CACHE_NAME)
                                                            + (if skipWaiting then Added(ASSETS, |ASSETS|, origin, net) else map[])]
  {
    ghost var start := store.caches;
    ghost var entries := Entries(start, CACHE_NAME);
    store.Open(CACHE_NAME);
    assert store.caches == start[CACHE_NAME := entries];
    skipWaiting := AddAll(store, CACHE_NAME, ASSETS, origin, net);
    ghost var stored := if skipWaiting then Added(ASSETS, |ASSETS|, origin, net) else map[];
    assert store.caches == start[CACHE_NAME := entries][CACHE_NAME := entries + stored];
    UpdateTwice(start, CACHE_NAME, entries, entries + stored);
  }

  /**
   * `cache.addAll(assets)`: fetches every entry first and commits them all
   * only when every one succeeded; a single failure leaves the cache as it was.
   */
  method AddAll(store: CacheStorage, name: string, assets: seq<string>, origin: string, net: string -> NetOutcome)
    returns (ok: bool)
    requires store.Valid() && name in store.caches
    modifies store
    ensures store.Valid()
    ensures ok == AllAdded(assets, origin, net)
    ensures store.names == old(store.names)
    ensures store.caches == old(store.caches)[name := old(store.caches)[name]
                                                      + (if ok then Added(assets, |assets|, origin, net) else map[])]
  {
    var entries;
    ok, entries := FetchAll(assets, origin, net);
    if ok {
      store.PutAll(name, entries);
    } else {
      UpdateSame(store.caches, name);
    }
  }

  /**
   * The fetch phase of `cache.addAll`: every entry is fetched in turn, and
   * the first one that fails or is refused stops the whole operation.
   */
  method FetchAll(assets: seq<string>, origin: string, net: string -> NetOutcome)
    returns (ok: bool, entries: map<string, Response>)
    ensures ok == AllAdded(assets, origin, net)
    ensures ok ==> entries == Added(assets, |assets|, origin, net)
  {
    entries := map[];
    for i := 0 to |assets|
      invariant entries == Added(assets, i, origin, net)
      invariant forall j :: 0 <= j < i ==> AddOutcome(Resolve(origin, assets[j]), net).Some?
    {
      var url := Resolve(origin, assets[i]);
      var outcome := net(url);
      if !(outcome.Answered? && IsOk(outcome.response) && Storable(url, outcome.response)) {
        FailedAddBlocks(assets, i, origin, net);
        return false, entries;
      }
      AddedStep(assets, i, origin, net);
      entries := entries[url := outcome.response];
    }
    ok := true;
  }

  /** One failed entry keeps the whole manifest from being added. */
  lemma FailedAddBlocks(assets: seq<string>, i: nat, origin: string, net: string -> NetOutcome)
    requires i < |assets| && AddOutcome(Resolve(origin, assets[i]), net).None?
    ensures !AllAdded(assets, origin, net)
  {
  }

  lemma UpdateSame(m: map<string, map<string, Response>>, k: string)
    requires k in m
    ensures m[k := m[k] + map[]] == m
  {
    assert m[k] + map[] == m[k];
  }

  /**
   * A successful install holds every manifest entry, resolved against the
   * worker's origin, with the response the network gave for it.
   */
  lemma InstalledEverything(origin: string, net: string -> NetOutcome, i: nat)
    requires AllAdded(ASSETS, origin, net) && i < |ASSETS|
    ensures Resolve(origin, ASSETS[i]) in Added(ASSETS, |ASSETS|, origin, net)
    ensures Added(ASSETS, |ASSETS|, origin, net)[Resolve(origin, ASSETS[i])] == net(Resolve(origin, ASSETS[i])).response
  {
    AddedExactly(ASSETS, |ASSETS|, origin, net, Resolve(origin, ASSETS[i]));
  }

  /** The manifest entries at indices 0 to 1 are distinguishable from every later entry. */
  lemma ManifestDistinguishable0()
    ensures forall i, j :: 0 <= i < 2 && i < j < |ASSETS| ==> Distinguishable(ASSETS[i], ASSETS[j])
  {
    forall i, j | 0 <= i < 2 && i < j < |ASSETS| ensures Distinguishable(ASSETS[i], ASSETS[j]) {
      assert i == 0 || i == 1;
      assert j == 1 || j == 2 || j == 3 || j == 4 || j == 5 || j == 6 || j == 7 || j == 8;
    }
  }

  /** The manifest entries at indices 2 to 3 are distinguishable from every later entry. */
  lemma ManifestDistinguishable2()
    ensures forall i, j :: 2 <= i < 4 && i < j < |ASSETS| ==> Distinguishable(ASSETS[i], ASSETS[j])
  {
    forall i, j | 2 <= i < 4 && i < j < |ASSETS| ensures Distinguishable(ASSETS[i], ASSETS[j]) {
      assert i == 2 || i == 3;
      assert j == 3 || j == 4 || j == 5 || j == 6 || j == 7 || j == 8;
    }
  }

  /** The manifest entries at indices 4 to 5 are distinguishable from every later entry. */
  lemma ManifestDistinguishable4()
    ensures forall i, j :: 4 <= i < 6 && i < j < |ASSETS| ==> Distinguishable(ASSETS[i], ASSETS[j])
  {
    forall i, j | 4 <= i < 6 && i < j < |ASSETS| ensures Distinguishable(ASSETS[i], ASSETS[j]) {
      assert i == 4 || i == 5;
      assert j == 5 || j == 6 || j == 7 || j == 8;
    }
  }

  /** The manifest entries at indices 6 to 8 are distinguishable from every later entry. */
  lemma ManifestDistinguishable6()
    ensures forall i, j :: 6 <= i < 9 && i < j < |ASSETS| ==> Distinguishable(ASSETS[i], ASSETS[j])
  {
    forall i, j | 6 <= i < 9 && i < j < |ASSETS| ensures Distinguishable(ASSETS[i], ASSETS[j]) {
      assert i == 6 || i == 7 || i == 8;
      assert j == 7 || j == 8;
    }
  }

  /** The manifest's nine entries resolve to nine different URLs, whatever the origin. */
  lemma ManifestResolvesApart(origin: string)
    ensures ResolvesApart(ASSETS, origin)
  {
    ManifestDistinguishable0();
    ManifestDistinguishable2();
    ManifestDistinguishable4();
    ManifestDistinguishable6();
    forall i, j | 0 <= i < j < |ASSETS| ensures Resolve(origin, ASSETS[i]) != Resolve(origin, ASSETS[j]) {
      ResolveApart(origin, ASSETS[i], ASSETS[j]);
    }
  }

  /** A successful install stores nine entries: no manifest entry overwrites another. */
  lemma InstalledCount(origin: string, net: string -> NetOutcome)
    requires AllAdded(ASSETS, origin, net)
    ensures |Added(ASSETS, |ASSETS|, origin, net)| == |ASSETS| == 9
  {
    ManifestResolvesApart(origin);
    AddedSize(ASSETS, |ASSETS|, origin, net);
  }

  /** `activate`: deletes every cache generation but "net-control-v3", then claims the clients. */
  method Activate(store: CacheStorage) returns (claimed: bool)
    requires store.Valid()
    modifies store
    ensures store.Valid()
    ensures claimed
    ensures store.caches == if CACHE_NAME in old(store.caches) then map[CACHE_NAME := old(store.caches)[CACHE_NAME]] else map[]
    ensures store.names == if CACHE_NAME in old(store.caches) then [CACHE_NAME] else []
  {
    store.DeleteAllExcept(CACHE_NAME);
    claimed := true;
  }

  /**
   * `fetch`: returns how the request is handled and whether the network was
   * asked; the store changes only by the write-through of `Decide`.
   */
  method Fetch(store: CacheStorage, req: Request, origin: string, net: NetOutcome)
    returns (handling: Handling, fetched: bool)
    requires store.Valid()
    modifies store
    ensures store.Valid()
    ensures var d := Decide(req, old(store.Match(req.verb, req.url)), net,
                            old(store.Match("GET", Resolve(origin, "/index.html"))));
            && handling == d.handling && fetched == d.fetched
            && (d.write.None? ==> store.names == old(store.names) && store.caches == old(store.caches))
            && (d.write.Some? ==>
                  && store.names == old(store.names) + (if CACHE_NAME in old(store.caches) then [] else [CACHE_NAME])
                  && store.caches == old(store.caches)[CACHE_NAME :=
                       if Storable(req.url, d.write.value) then Entries(old(store.caches), CACHE_NAME)[req.url := d.write.value]
                       else Entries(old(store.caches), CACHE_NAME)])
  {
    if Contains(req.url, "chrome-extension") {
      return PassThrough, false;
    }
    var cached := store.Match(req.verb, req.url);
    if cached.Some? {
      return Respond(cached), false;
    }
    fetched := true;
    match net {
      case Answered(resp) =>
        if req.verb == "GET" {
          var _ := store.Put(CACHE_NAME, req.url, resp);
        }
        handling := Respond(Some(resp));
      case NetworkFailure =>
        var shell := store.Match("GET", Resolve(origin, "/index.html"));
        handling := OfflineFallback(req, shell);
    }
  }

  /** A URL with "chrome-extension" anywhere in it is left to the browser. */
  lemma ExtensionUrlsPassThrough(req: Request, cached: Option<Response>, net: NetOutcome, shell: Option<Response>, i: nat)
    requires OccursAt(req.url, "chrome-extension", i)
    ensures Decide(req, cached, net, shell) == Decision(PassThrough, false, None)
  {
  }

  /** Any cached response is served, whatever the URL's origin, with no network call and no write. */
  lemma CachedServed(req: Request, r: Response, net: NetOutcome, shell: Option<Response>)
    requires !Contains(req.url, "chrome-extension")
    ensures Decide(req, Some(r), net, shell) == Decision(Respond(Some(r)), false, None)
  {
  }

  /**
   * Without a cached copy the network answer is what the page gets, whatever
   * its status, and it is written through exactly for a GET request.
   */
  lemma AnswerWrittenForGet(req: Request, resp: Response, shell: Option<Response>)
    requires !Contains(req.url, "chrome-extension")
    ensures var d := Decide(req, None, Answered(resp), shell);
            && d.handling == Respond(Some(resp)) && d.fetched
            && (d.write.Some? <==> req.verb == "GET")
            && (d.write.Some? ==> d.write.value == resp)
  {
  }

  /**
   * A request that is not a GET never matches the cache and is never
   * written, so it always reaches the network.
   */
  lemma NonGetUncached(store: CacheStorage, req: Request, net: NetOutcome, shell: Option<Response>)
    requires store.Valid()
    requires req.verb != "GET" && !Contains(req.url, "chrome-extension")
    ensures var d := Decide(req, store.Match(req.verb, req.url), net, shell);
            d.fetched && d.write.None?
  {
  }

  /** When the network fails, an HTML request gets the cached app shell and any other request gets nothing. */
  lemma OfflineAnswer(req: Request, shell: Option<Response>)
    requires !Contains(req.url, "chrome-extension")
    requires req.accept.Some?
    ensures var d := Decide(req, None, NetworkFailure, shell);
            && d.fetched && d.write.None?
            && (Contains(req.accept.value, "text/html") ==> d.handling == Respond(shell))
            && (!Contains(req.accept.value, "text/html") ==> d.handling == Respond(None))
  {
  }
}
