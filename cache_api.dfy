/**
 * The parts of the browser that both service workers use: requests and
 * responses, URL resolution and host names, the network outcome of a fetch,
 * and the Cache Storage (`caches`): named caches from request URL to response.
 *
 * The rules of the Cache API that the workers depend on are modelled here:
 * `caches.match` searches every cache in creation order and only for GET
 * requests; `cache.put` refuses a partial (206) response and a URL whose
 * scheme is not http(s); `cache.add` refuses a response that is not ok
 * (status outside 200-299); `cache.addAll` stores all of its entries or none.
 */
module CacheApi {
  import opened Wrappers
  import opened Text

  /** A response, reduced to what the workers look at. */
  datatype Response = Response(status: int, body: string)

  /** A request seen by the fetch handler; `accept` is the Accept header, absent when `None`. */
  datatype Request = Request(verb: string, url: string, accept: Option<string>)

  /** What the network did with a fetch: answered (with any status) or failed to answer. */
  datatype NetOutcome = Answered(response: Response) | NetworkFailure

  /**
   * What a fetch handler does with a request: leave it to the browser
   * (no `respondWith`), or respond; `Respond(None)` is a response promise that
   * resolved to `undefined` or rejected, which the page sees as a network error.
   */
  datatype Handling = PassThrough | Respond(response: Option<Response>)

  /**
   * What a fetch handler does with one request: how it is handled, whether
   * the network is asked, and the response it then writes to its own cache.
   */
  datatype Decision = Decision(handling: Handling, fetched: bool, write: Option<Response>)

  /** `response.ok`. */
  predicate IsOk(r: Response) {
    200 <= r.status <= 299
  }

  /** The URL uses the http or https scheme. */
  predicate IsHttpUrl(url: string) {
    StartsWith(url, "http:") || StartsWith(url, "https:")
  }

  /** `cache.put` accepts the pair: an http(s) URL and a response that is not partial. */
  predicate Storable(url: string, r: Response) {
    IsHttpUrl(url) && r.status != 206
  }

  /** A manifest entry resolved against the worker's origin: a path starting with '/' is made absolute. */
  function Resolve(origin: string, url: string): string {
    if |url| > 0 && url[0] == '/' then origin + url else url
  }

  /** `url` is a path, which `Resolve` makes absolute. */
  predicate IsPath(url: string) {
    |url| > 0 && url[0] == '/'
  }

  /** `p` is a suffix of `a`. */
  predicate IsSuffix(p: string, a: string) {
    |p| <= |a| && a[|a| - |p|..] == p
  }

  /**
   * Two manifest entries that no origin can resolve to one URL: two
   * different entries of the same kind, or a path that does not end the
   * absolute URL it is compared with.
   */
  predicate Distinguishable(p: string, q: string) {
    if IsPath(p) == IsPath(q) then p != q
    else if IsPath(p) then !IsSuffix(p, q)
    else !IsSuffix(q, p)
  }

  /** Distinguishable entries resolve to different URLs, whatever the origin. */
  lemma ResolveApart(origin: string, p: string, q: string)
    requires Distinguishable(p, q)
    ensures Resolve(origin, p) != Resolve(origin, q)
  {
    if IsPath(p) && IsPath(q) {
      assert (origin + p)[|origin|..] == p;
      assert (origin + q)[|origin|..] == q;
    } else if IsPath(p) {
      var u := origin + p;
      assert u[|u| - |p|..] == p;
    } else if IsPath(q) {
      var u := origin + q;
      assert u[|u| - |q|..] == q;
    }
  }

  /** Text appended to an http(s) URL leaves it an http(s) URL. */
  lemma HttpUrlExtended(base: string, rest: string)
    requires IsHttpUrl(base)
    ensures IsHttpUrl(base + rest)
  {
    var scheme := if StartsWith(base, "http:") then "http:" else "https:";
    assert (base + rest)[..|scheme|] == base[..|scheme|];
  }

  /** Against an http(s) origin, a path resolves to an http(s) URL; an http(s) URL resolves to itself. */
  lemma ResolveHttp(origin: string, url: string)
    requires IsHttpUrl(origin) && (IsPath(url) || IsHttpUrl(url))
    ensures IsHttpUrl(Resolve(origin, url))
  {
    if IsPath(url) {
      HttpUrlExtended(origin, url);
    }
  }

  /** An ASCII letter. */
  predicate IsAsciiLetter(c: char) {
    'a' <= c <= 'z' || 'A' <= c <= 'Z'
  }

  /** A character a URL scheme may hold after its first letter. */
  predicate IsSchemeChar(c: char) {
    IsAsciiLetter(c) || IsDigit(c) || c == '+' || c == '-' || c == '.'
  }

  /** The index of the first character of `s` that is in `stops`, or `|s|`. */
  function IndexOfAny(s: string, stops: string): (k: nat)
    ensures k <= |s|
    ensures forall i :: 0 <= i < k ==> s[i] !in stops
    ensures k < |s| ==> s[k] in stops
  {
    if |s| == 0 || s[0] in stops then 0 else 1 + IndexOfAny(s[1..], stops)
  }

  /** The part of `s` after its last `c`, or all of `s`. */
  function AfterLast(s: string, c: char): (r: string)
    ensures c !in r
    ensures |r| <= |s| && r == s[|s| - |r|..]
  {
    if |s| == 0 then ""
    else if s[|s| - 1] == c then ""
    else
      var r := AfterLast(s[..|s| - 1], c);
      assert s[..|s| - 1][|s| - 1 - |r|..] + [s[|s| - 1]] == s[|s| - 1 - |r|..];
      r + [s[|s| - 1]]
  }

  /** ASCII lower case, as the URL parser applies to the host of a special URL. */
  function Lower(s: string): (r: string)
    ensures |r| == |s|
    ensures forall i :: 0 <= i < |s| ==> (r[i] == s[i] <==> !('A' <= s[i] <= 'Z'))
  {
    if |s| == 0 then []
    else [if 'A' <= s[0] <= 'Z' then (s[0] as int + 32) as char else s[0]] + Lower(s[1..])
  }

  /** `s` without its leading slashes. */
  function DropSlashes(s: string): (r: string)
    ensures |r| <= |s| && r == s[|s| - |r|..]
    ensures |r| > 0 ==> r[0] != '/'
  {
    if |s| > 0 && s[0] == '/' then DropSlashes(s[1..]) else s
  }

  /** A URL scheme: a letter followed by letters, digits, '+', '-' or '.'. */
  predicate IsScheme(s: string) {
    |s| > 0 && IsAsciiLetter(s[0]) && forall i :: 1 <= i < |s| ==> IsSchemeChar(s[i])
  }

  /** The schemes the URL standard calls special, whose URLs always carry a host. */
  const SPECIAL_SCHEMES: seq<string> := ["ftp", "file", "http", "https", "ws", "wss"]

  /** The host name inside an authority (`user@host:port/path...`): after the last '@', before ':'. */
  function HostOfAuthority(rest: string): (h: string)
    ensures forall c :: c in h ==> c !in "/?#@:"
  {
    var authority := rest[..IndexOfAny(rest, "/?#")];
    var hostPort := AfterLast(authority, '@');
    assert forall c :: c in hostPort ==> c in authority;
    hostPort[..IndexOfAny(hostPort, ":")]
  }

  /** The index of the ':' that ends a valid scheme at the start of `url`. */
  function SchemeEnd(url: string): (r: Option<nat>)
    ensures r.Some? ==> r.value < |url| && url[r.value] == ':' && IsScheme(url[..r.value])
  {
    var k := IndexOfAny(url, ":");
    if k == |url| || !IsScheme(url[..k]) then None else Some(k)
  }

  /**
   * `new URL(url).hostname` for the serialized URLs a fetch event carries,
   * or `None` for the two failures the model tells apart: a URL without a
   * scheme (a relative one), and a special non-file URL with an empty host.
   * The host is not otherwise checked (forbidden code points, ports, IPv6).
   */
  function Hostname(url: string): Option<string> {
    match SchemeEnd(url)
    case None => None
    case Some(k) => HostAfterScheme(Lower(url[..k]), url[k + 1..])
  }

  /** The host name of a URL with scheme `scheme` whose text after the ':' is `rest`. */
  function HostAfterScheme(scheme: string, rest: string): Option<string> {
    if scheme in SPECIAL_SCHEMES then
      var host := Lower(HostOfAuthority(DropSlashes(rest)));
      if host == "" && scheme != "file" then None else Some(host)
    else if StartsWith(rest, "//") then Some(HostOfAuthority(rest[2..]))
    else Some("")
  }

  /** A host name made of lower-case letters, digits, dots and hyphens. */
  predicate PlainHost(h: string) {
    forall i :: 0 <= i < |h| ==> IsPlainHostChar(h[i])
  }

  predicate IsPlainHostChar(c: char) {
    'a' <= c <= 'z' || IsDigit(c) || c == '.' || c == '-'
  }

  /** The host of `https://host/path` is `host`. */
  lemma HostnameOfHttps(host: string, path: string)
    requires host != "" && PlainHost(host)
    requires path == "" || path[0] in "/?#"
    ensures Hostname("https://" + host + path) == Some(host)
  {
    var url := "https://" + host + path;
    HttpsScheme(url);
    assert url[6..] == "//" + host + path;
    HttpsHost(host, path);
  }

  lemma HttpsHost(host: string, path: string)
    requires host != "" && PlainHost(host)
    requires path == "" || path[0] in "/?#"
    ensures HostAfterScheme("https", "//" + host + path) == Some(host)
  {
    var rest := "//" + host + path;
    HostAfterSlashes(host, path);
    LowerPlain(host);
    SpecialHost("https", rest);
  }

  /** The host of a special non-file URL is its lower-cased authority host, when that is not empty. */
  lemma SpecialHost(scheme: string, rest: string)
    requires scheme == "https"
    ensures var h := Lower(HostOfAuthority(DropSlashes(rest)));
            HostAfterScheme(scheme, rest) == if h == "" then None else Some(h)
  {
    assert scheme == SPECIAL_SCHEMES[3];
  }

  lemma HttpsScheme(url: string)
    requires StartsWith(url, "https:")
    ensures SchemeEnd(url) == Some(5) && Lower(url[..5]) == "https"
  {
    IndexOfAnyAt(url, ":", 5);
    assert url[..5] == "https";
    assert PlainHost("https");
    LowerPlain("https");
  }

  lemma HostAfterSlashes(host: string, path: string)
    requires host != "" && PlainHost(host)
    requires path == "" || path[0] in "/?#"
    ensures HostOfAuthority(DropSlashes("//" + host + path)) == host
  {
    SlashesDropped(host, path);
    AuthorityHost(host, path);
  }

  lemma SlashesDropped(host: string, path: string)
    requires host != "" && PlainHost(host)
    ensures DropSlashes("//" + host + path) == host + path
  {
    var hp := host + path;
    assert hp[0] == host[0] && IsPlainHostChar(host[0]);
    assert "//" + host + path == ['/'] + (['/'] + hp);
    DropSlash(['/'] + hp);
    DropSlash(hp);
  }

  lemma AuthorityHost(host: string, path: string)
    requires PlainHost(host)
    requires path == "" || path[0] in "/?#"
    ensures HostOfAuthority(host + path) == host
  {
    var hp := host + path;
    forall i | 0 <= i < |host| ensures hp[i] !in "/?#" {
      assert hp[i] == host[i];
      PlainCharNotDelimiter(host[i]);
    }
    IndexOfAnyAt(hp, "/?#", |host|);
    assert hp[..|host|] == host;
    forall i | 0 <= i < |host| ensures host[i] != '@' && host[i] !in ":" {
      PlainCharNotDelimiter(host[i]);
    }
    AfterLastAbsent(host, '@');
    IndexOfAnyAt(host, ":", |host|);
    assert host[..|host|] == host;
  }

  /** A host-name character delimits nothing in a URL. */
  lemma PlainCharNotDelimiter(c: char)
    requires IsPlainHostChar(c)
    ensures c !in "/?#" && c != '@' && c !in ":"
  {
  }

  /** `IndexOfAny` finds `k` when no earlier character is a stop and `s[k]` is one (or `k` is the end). */
  lemma IndexOfAnyAt(s: string, stops: string, k: nat)
    requires k <= |s|
    requires forall i :: 0 <= i < k ==> s[i] !in stops
    requires k < |s| ==> s[k] in stops
    ensures IndexOfAny(s, stops) == k
  {
  }

  lemma DropSlash(t: string)
    ensures DropSlashes(['/'] + t) == DropSlashes(t)
  {
    assert (['/'] + t)[1..] == t;
  }

  lemma AfterLastAbsent(s: string, c: char)
    requires c !in s
    ensures AfterLast(s, c) == s
  {
    if |s| > 0 {
      AfterLastAbsent(s[..|s| - 1], c);
    }
  }

  lemma LowerPlain(s: string)
    requires PlainHost(s)
    ensures Lower(s) == s
  {
    if |s| > 0 {
      assert IsPlainHostChar(s[0]);
      LowerPlain(s[1..]);
    }
  }

  /**
   * What `cache.add(url)` stores, given what the network answers for each URL:
   * the response when it is ok and `cache.put` accepts it, nothing otherwise.
   */
  function AddOutcome(url: string, net: string -> NetOutcome): Option<Response> {
    if net(url).Answered? && IsOk(net(url).response) && Storable(url, net(url).response) then Some(net(url).response)
    else None
  }

  /** The entries that adding the first `n` URLs of `assets` (resolved against `origin`) one by one stores. */
  function Added(assets: seq<string>, n: nat, origin: string, net: string -> NetOutcome): map<string, Response>
    requires n <= |assets|
  {
    if n == 0 then map[]
    else
      var url := Resolve(origin, assets[n - 1]);
      var m := Added(assets, n - 1, origin, net);
      match AddOutcome(url, net)
      case Some(resp) => m[url := resp]
      case None => m
  }

  /** One more manifest entry adds its URL exactly when its own add succeeds. */
  lemma AddedStep(assets: seq<string>, i: nat, origin: string, net: string -> NetOutcome)
    requires i < |assets|
    ensures var url := Resolve(origin, assets[i]);
            var before := Added(assets, i, origin, net);
            Added(assets, i + 1, origin, net)
              == if AddOutcome(url, net).Some? then before[url := net(url).response] else before
  {
  }

  /**
   * The entries added from the first `n` manifest entries are exactly their
   * URLs whose add succeeded, each holding the response the network gave for it.
   */
  lemma {:induction false} AddedExactly(assets: seq<string>, n: nat, origin: string, net: string -> NetOutcome, url: string)
    requires n <= |assets|
    ensures url in Added(assets, n, origin, net) <==>
              (exists i :: 0 <= i < n && Resolve(origin, assets[i]) == url) && AddOutcome(url, net).Some?
    ensures url in Added(assets, n, origin, net) ==> Added(assets, n, origin, net)[url] == net(url).response
  {
    if n > 0 {
      AddedExactly(assets, n - 1, origin, net, url);
      AddedStep(assets, n - 1, origin, net);
      if Resolve(origin, assets[n - 1]) == url {
        assert 0 <= n - 1 < n && Resolve(origin, assets[n - 1]) == url;
      } else {
        assert (exists i :: 0 <= i < n && Resolve(origin, assets[i]) == url)
               <==> (exists i :: 0 <= i < n - 1 && Resolve(origin, assets[i]) == url);
      }
    }
  }

  /** Every manifest entry was added successfully. */
  predicate AllAdded(assets: seq<string>, origin: string, net: string -> NetOutcome) {
    forall i :: 0 <= i < |assets| ==> AddOutcome(Resolve(origin, assets[i]), net).Some?
  }

  /** The manifest entries resolve to pairwise different URLs. */
  predicate ResolvesApart(assets: seq<string>, origin: string) {
    forall i, j :: 0 <= i < j < |assets| ==> Resolve(origin, assets[i]) != Resolve(origin, assets[j])
  }

  /**
   * When the manifest entries resolve apart and every add succeeds, adding
   * the first `n` of them stores `n` entries: none overwrites another.
   */
  lemma {:induction false} AddedSize(assets: seq<string>, n: nat, origin: string, net: string -> NetOutcome)
    requires n <= |assets| && ResolvesApart(assets, origin) && AllAdded(assets, origin, net)
    ensures |Added(assets, n, origin, net)| == n
  {
    if n > 0 {
      var url := Resolve(origin, assets[n - 1]);
      AddedSize(assets, n - 1, origin, net);
      AddedExactly(assets, n - 1, origin, net, url);
      AddedStep(assets, n - 1, origin, net);
      assert url !in Added(assets, n - 1, origin, net);
    }
  }

  /** Replacing the same cache twice keeps only the second replacement. */
  lemma UpdateTwice(m: map<string, map<string, Response>>, k: string, a: map<string, Response>, b: map<string, Response>)
    ensures m[k := a][k := b] == m[k := b]
  {
  }

  /** The entries of cache `name`, empty when there is no such cache. */
  function Entries(caches: map<string, map<string, Response>>, name: string): map<string, Response> {
    if name in caches then caches[name] else map[]
  }

  /** The response stored for `url` in the first of `names` whose cache holds it. */
  function FirstMatch(names: seq<string>, caches: map<string, map<string, Response>>, url: string): (r: Option<Response>)
    ensures r.Some? <==> exists i :: 0 <= i < |names| && url in Entries(caches, names[i])
    ensures r.Some? ==> exists i :: 0 <= i < |names| && url in Entries(caches, names[i])
                                    && r.value == Entries(caches, names[i])[url]
                                    && forall j :: 0 <= j < i ==> url !in Entries(caches, names[j])
  {
    if |names| == 0 then None
    else if url in Entries(caches, names[0]) then Some(Entries(caches, names[0])[url])
    else
      var r := FirstMatch(names[1..], caches, url);
      assert forall i :: 1 <= i < |names| ==> names[i] == names[1..][i - 1];
      r
  }

  /** `names` without `x`, order kept. */
  function Without(names: seq<string>, x: string): (r: seq<string>)
    ensures forall n :: n in r <==> n in names && n != x
    ensures x !in names ==> r == names
  {
    if |names| == 0 then []
    else if names[0] == x then Without(names[1..], x)
    else [names[0]] + Without(names[1..], x)
  }

  /** No name occurs twice. */
  predicate Distinct(names: seq<string>) {
    forall i, j :: 0 <= i < j < |names| ==> names[i] != names[j]
  }

  /** A list has no repetitions when its head is not in its tail and its tail has none. */
  lemma DistinctCons(names: seq<string>)
    requires |names| > 0
    ensures Distinct(names) <==> names[0] !in names[1..] && Distinct(names[1..])
  {
    if names[0] !in names[1..] && Distinct(names[1..]) {
      forall i, j | 0 <= i < j < |names| ensures names[i] != names[j] {
        if i > 0 {
          assert names[i] == names[1..][i - 1] && names[j] == names[1..][j - 1];
        } else {
          assert names[j] == names[1..][j - 1];
        }
      }
    }
    if Distinct(names) {
      forall i, j | 0 <= i < j < |names[1..]| ensures names[1..][i] != names[1..][j] {
        assert names[1..][i] == names[i + 1] && names[1..][j] == names[j + 1];
      }
      forall j | 0 <= j < |names[1..]| ensures names[1..][j] != names[0] {
        assert names[1..][j] == names[j + 1];
      }
    }
  }

  /** Removing a name keeps a list free of repetitions. */
  lemma {:induction false} WithoutDistinct(names: seq<string>, x: string)
    requires Distinct(names)
    ensures Distinct(Without(names, x))
  {
    if |names| > 0 {
      DistinctCons(names);
      WithoutDistinct(names[1..], x);
      if names[0] != x {
        var r := [names[0]] + Without(names[1..], x);
        assert r[1..] == Without(names[1..], x);
        DistinctCons(r);
      }
    }
  }

  /** The Cache Storage of one origin (`caches`). */
  class CacheStorage {
    /** The cache names in creation order: what `caches.keys()` returns. */
    var names: seq<string>
    /** The caches by name, each from request URL to response. */
    var caches: map<string, map<string, Response>>

    ghost predicate Valid()
      reads this
    {
      Distinct(names) && forall n :: n in caches <==> n in names
    }

    constructor ()
      ensures Valid() && names == [] && caches == map[]
    {
      names := [];
      caches := map[];
    }

    /** `caches.match(request)`: the first cached response for the URL; only GET requests match. */
    function Match(verb: string, url: string): (r: Option<Response>)
      reads this
      requires Valid()
      ensures verb != "GET" ==> r.None?
      ensures r.Some? <==> verb == "GET" && exists n :: n in caches && url in caches[n]
      ensures r.Some? ==> exists n :: n in caches && url in caches[n] && r.value == caches[n][url]
    {
      if verb != "GET" then None
      else
        var r := FirstMatch(names, caches, url);
        if r.Some? then
          var i :| 0 <= i < |names| && url in Entries(caches, names[i]) && r.value == Entries(caches, names[i])[url];
          assert names[i] in caches;
          r
        else
          forall n | n in caches ensures url !in caches[n] {
            var i :| 0 <= i < |names| && names[i] == n;
            assert url !in Entries(caches, names[i]);
          }
          r
    }

    /** `caches.open(name)`: creates the cache, empty and last in order, when it does not exist. */
    method Open(name: string)
      requires Valid()
      modifies this
      ensures Valid()
      ensures names == old(names) + (if name in old(caches) then [] else [name])
      ensures caches == old(caches)[name := Entries(old(caches), name)]
    {
      if name !in caches {
        names := names + [name];
        caches := caches[name := map[]];
      }
    }

    /** `caches.delete(name)`: removes the cache; `existed` tells whether there was one. */
    method Delete(name: string) returns (existed: bool)
      requires Valid()
      modifies this
      ensures Valid()
      ensures existed == (name in old(caches))
      ensures names == Without(old(names), name)
      ensures caches == old(caches) - {name}
    {
      existed := name in caches;
      WithoutDistinct(names, name);
      names := Without(names, name);
      caches := caches - {name};
    }

    /**
     * `caches.open(name)` followed by `cache.put(url, response)`; the put is
     * refused, and nothing stored, when the pair is not `Storable`.
     */
    method Put(name: string, url: string, response: Response) returns (stored: bool)
      requires Valid()
      modifies this
      ensures Valid()
      ensures stored == Storable(url, response)
      ensures names == old(names) + (if name in old(caches) then [] else [name])
      ensures caches == old(caches)[name := if stored then Entries(old(caches), name)[url := response]
                                           else Entries(old(caches), name)]
    {
      Open(name);
      stored := Storable(url, response);
      if stored {
        caches := caches[name := caches[name][url := response]];
      }
    }

    /** Stores a batch of entries in cache `name` at once (the commit of `cache.addAll`). */
    method PutAll(name: string, entries: map<string, Response>)
      requires Valid()
      requires name in caches
      modifies this
      ensures Valid()
      ensures names == old(names)
      ensures caches == old(caches)[name := old(caches)[name] + entries]
    {
      caches := caches[name := caches[name] + entries];
    }

    /**
     * The cleanup loop of both workers' `activate` handlers: every cache whose
     * name is not `keep` is deleted, one name of `caches.keys()` at a time.
     */
    method DeleteAllExcept(keep: string)
      requires Valid()
      modifies this
      ensures Valid()
      ensures caches == if keep in old(caches) then map[keep := old(caches)[keep]] else map[]
      ensures names == if keep in old(caches) then [keep] else []
    {
      var cacheNames := names;
      ghost var before := caches;
      assert forall n :: n in before <==> n in cacheNames;
      ghost var gone: set<string> := {};
      RetainedNothing(cacheNames);
      for i := 0 to |cacheNames|
        invariant Valid()
        invariant keep !in gone
        invariant forall j :: 0 <= j < i && cacheNames[j] != keep ==> cacheNames[j] in gone
        invariant forall n :: n in caches <==> n in before && n !in gone
        invariant forall n :: n in caches ==> caches[n] == before[n]
        invariant names == Retained(cacheNames, gone)
      {
        var name := cacheNames[i];
        if name != keep {
          RetainedWithout(cacheNames, gone, name);
          var _ := Delete(name);
          gone := gone + {name};
        }
      }
      assert forall n :: n in cacheNames && n != keep ==> n in gone by {
        forall n | n in cacheNames && n != keep ensures n in gone {
          var j :| 0 <= j < |cacheNames| && cacheNames[j] == n;
        }
      }
      RetainedOnly(cacheNames, gone, keep);
      OnlyKept(before, caches, keep);
    }
  }

  /** A sub-map of `before` whose only possible key is `keep` is `before` cut down to `keep`. */
  lemma OnlyKept(before: map<string, map<string, Response>>, after: map<string, map<string, Response>>, keep: string)
    requires forall n :: n in after <==> n in before && n == keep
    requires forall n :: n in after ==> after[n] == before[n]
    ensures after == if keep in before then map[keep := before[keep]] else map[]
  {
    if keep in before {
      assert after.Keys == {keep};
    } else {
      assert after.Keys == {};
    }
  }

  /** `names` without the members of `gone`, order kept. */
  function Retained(names: seq<string>, gone: set<string>): (r: seq<string>)
    ensures forall n :: n in r <==> n in names && n !in gone
  {
    if |names| == 0 then []
    else if names[0] in gone then Retained(names[1..], gone)
    else [names[0]] + Retained(names[1..], gone)
  }

  lemma {:induction false} RetainedNothing(names: seq<string>)
    ensures Retained(names, {}) == names
  {
    if |names| > 0 {
      RetainedNothing(names[1..]);
    }
  }

  /** Removing one more name from a retained list is retaining with that name gone too. */
  lemma {:induction false} RetainedWithout(names: seq<string>, gone: set<string>, x: string)
    ensures Without(Retained(names, gone), x) == Retained(names, gone + {x})
  {
    if |names| > 0 {
      RetainedWithout(names[1..], gone, x);
    }
  }

  /** Once every name but `keep` is gone, a list without repetitions retains `keep` once, if it had it. */
  lemma {:induction false} RetainedOnly(names: seq<string>, gone: set<string>, keep: string)
    requires Distinct(names)
    requires keep !in gone && forall n :: n in names && n != keep ==> n in gone
    ensures Retained(names, gone) == if keep in names then [keep] else []
  {
    if |names| > 0 {
      assert Distinct(names[1..]) by {
        forall i, j | 0 <= i < j < |names[1..]| ensures names[1..][i] != names[1..][j] {
          assert names[1..][i] == names[i + 1] && names[1..][j] == names[j + 1];
        }
      }
      RetainedOnly(names[1..], gone, keep);
      if names[0] == keep {
        assert keep !in names[1..] by {
          forall j | 0 <= j < |names[1..]| ensures names[1..][j] != keep {
            assert names[1..][j] == names[j + 1];
          }
        }
      } else {
        assert names == [names[0]] + names[1..];
      }
    }
  }
}
