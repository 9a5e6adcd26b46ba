/**
 * The offline service worker. Cache storage is a list of named caches in the
 * order they were created (`caches.match` looks through them in that order),
 * each mapping a request URL to the stored response. The network is an input:
 * for one fetch, what it delivered or that it was unreachable; for install,
 * a function from URL to that answer.
 */
module ServiceWorker {
  import opened Optional
  import opened Text

  const CacheName: string := "mtg-rules-v1"
  const BaseUrl: string := "/mtg-rules/"

  /** The paths cached on install. */
  const StaticResources: seq<string> := [
    BaseUrl,
    BaseUrl + "categories",
    BaseUrl + "glossary",
    BaseUrl + "rules.json",
    BaseUrl + "rules-index.json",
    BaseUrl + "glossary.json",
    BaseUrl + "mtg-16.png",
    BaseUrl + "mtg-32.png",
    BaseUrl + "mtg-180.png",
    BaseUrl + "mtg-192.png",
    BaseUrl + "mtg-512.png",
    BaseUrl + "mtg-judge.png",
    BaseUrl + "favicon.ico"
  ]

  /** `Response.type`. */
  datatype ResponseType = Basic | Cors | Default | Error | Opaque | OpaqueRedirect

  datatype Response = Response(status: int, kind: ResponseType, contentType: string, body: string)

  /** A request: its URL and its `Accept` header, which may be missing. */
  datatype Request = Request(url: string, accept: Option<string>)

  /** What `fetch` settled with: a value (possibly none), or a rejection. */
  datatype NetworkResult = Delivered(response: Option<Response>) | Unreachable

  datatype NamedCache = NamedCache(name: string, entries: map<string, Response>)

  /** Why the promise given to `respondWith` rejects. */
  datatype Rejection =
    | NetworkFailure  // the fetch error, rethrown
    | NoAcceptHeader  // `headers.get('accept')` is null, so `.includes` throws

  datatype Outcome =
    | NotHandled                          // the handler returns without `respondWith`
    | Respond(response: Option<Response>)
    | Fail(reason: Rejection)

  /*
   * Cache storage.
   */

  /** `caches.match(url)`: the entry of the first cache, in creation order, that holds the URL. */
  /** Cache `k` holds `url` and no cache before it does. */
  predicate FirstHolder(cs: seq<NamedCache>, url: string, k: nat) {
    k < |cs| && url in cs[k].entries && forall j :: 0 <= j < k ==> url !in cs[j].entries
  }

  function CacheMatch(cs: seq<NamedCache>, url: string): (r: Option<Response>)
    ensures r.Some? <==> exists k :: 0 <= k < |cs| && url in cs[k].entries
    ensures r.Some? ==> exists k: nat :: FirstHolder(cs, url, k) && r.value == cs[k].entries[url]
  {
    if cs == [] then None
    else if url in cs[0].entries then
      assert FirstHolder(cs, url, 0);
      Some(cs[0].entries[url])
    else
      var rest := CacheMatch(cs[1..], url);
      assert forall k :: 1 <= k < |cs| ==> cs[k] == cs[1..][k - 1];
      assert rest.Some? ==> exists k: nat :: FirstHolder(cs, url, k) && rest.value == cs[k].entries[url] by {
        if rest.Some? {
          var k: nat :| FirstHolder(cs[1..], url, k) && rest.value == cs[1..][k].entries[url];
          assert FirstHolder(cs, url, k + 1);
        }
      }
      rest
  }

  predicate HasCache(cs: seq<NamedCache>, name: string) {
    exists k :: 0 <= k < |cs| && cs[k].name == name
  }

  /** `caches.open(name)`: creates the cache at the end when there is none by that name. */
  function OpenCache(cs: seq<NamedCache>, name: string): (r: seq<NamedCache>)
    ensures HasCache(r, name)
  {
    if HasCache(cs, name) then cs
    else
      var r := cs + [NamedCache(name, map[])];
      assert r[|cs|].name == name;
      r
  }

  /** `cache.put(url, response)` on the cache called `name`. */
  function Put(cs: seq<NamedCache>, name: string, url: string, response: Response): (r: seq<NamedCache>)
    ensures |r| == |cs|
    ensures forall k :: 0 <= k < |cs| ==> r[k].name == cs[k].name
  {
    seq(|cs|, k requires 0 <= k < |cs| =>
      if cs[k].name == name then cs[k].(entries := cs[k].entries[url := response]) else cs[k])
  }

  /** `caches.delete(name)`. */
  function Delete(cs: seq<NamedCache>, name: string): seq<NamedCache> {
    if cs == [] then []
    else (if cs[0].name == name then [] else [cs[0]]) + Delete(cs[1..], name)
  }

  /** The caches whose names are not in `dropped`, in order. */
  function Drop(cs: seq<NamedCache>, dropped: set<string>): seq<NamedCache> {
    if cs == [] then []
    else (if cs[0].name in dropped then [] else [cs[0]]) + Drop(cs[1..], dropped)
  }

  function Names(cs: seq<NamedCache>): set<string> {
    set k | 0 <= k < |cs| :: cs[k].name
  }

  /*
   * The fetch handler.
   */

  /** Only a present response with status 200 and type `basic` is cached. */
  predicate Cacheable(r: Option<Response>) {
    r.Some? && r.value.status == 200 && r.value.kind == Basic
  }

  const OfflineLink: string := "<p><a href=\"" + BaseUrl + "\">Go to Home</a></p>"

  /** The page served to an HTML request when the network is unreachable. */
  const OfflineBody: string :=
    "<!DOCTYPE html>\n<html>\n<head>\n<title>MTG Rules - Offline</title>\n"
    + "<meta name=\"viewport\" content=\"width=device-width, initial-scale=1\">\n"
    + "<style>\nbody { font-family: sans-serif; text-align: center; padding: 50px; }\n.offline { color: #666; }\n</style>\n"
    + "</head>\n<body>\n<h1>MTG Rules</h1>\n"
    + "<p class=\"offline\">You're currently offline. Some content may not be available.</p>\n"
    + OfflineLink
    + "\n</body>\n</html>\n"

  /** `new Response(body, { headers: { 'Content-Type': 'text/html' } })`: status 200, type `default`. */
  const OfflinePage: Response := Response(200, Default, "text/html", OfflineBody)

  /** What the page gets for `req`, given the cache storage and what the network would deliver. */
  function Decide(cs: seq<NamedCache>, req: Request, net: NetworkResult): Outcome {
    if !Contains(req.url, BaseUrl) then NotHandled
    else match CacheMatch(cs, req.url)
      case Some(cached) => Respond(Some(cached))
      case None =>
        match net
        case Delivered(response) => Respond(response)
        case Unreachable =>
          match req.accept
          case None => Fail(NoAcceptHeader)
          case Some(accept) => if Contains(accept, "text/html") then Respond(Some(OfflinePage)) else Fail(NetworkFailure)
  }

  /** The cache storage after the fetch: a cacheable miss is stored under its URL in `CacheName`. */
  function AfterFetch(cs: seq<NamedCache>, req: Request, net: NetworkResult): seq<NamedCache> {
    if Contains(req.url, BaseUrl) && CacheMatch(cs, req.url).None? && net.Delivered? && Cacheable(net.response) then
      Put(OpenCache(cs, CacheName), CacheName, req.url, net.response.value)
    else cs
  }

  /*
   * Install.
   */

  /** What `cache.addAll` accepts from the network: a response that is not an error, with an ok status other than 206. */
  predicate Storable(r: NetworkResult) {
    r.Delivered? && r.response.Some? && r.response.value.kind != Error
    && 200 <= r.response.value.status <= 299 && r.response.value.status != 206
  }

  predicate AllStorable(net: string -> NetworkResult, urls: seq<string>) {
    forall u :: u in urls ==> Storable(net(u))
  }

  /** The responses `addAll` fetched, by URL. */
  function Fetched(net: string -> NetworkResult, urls: seq<string>): map<string, Response>
    requires AllStorable(net, urls)
  {
    map u | u in urls :: net(u).response.value
  }

  /** `cache.addAll(urls)` on the cache called `name`: every fetched response stored under its URL. */
  function AddAll(cs: seq<NamedCache>, name: string, fetched: map<string, Response>): (r: seq<NamedCache>)
    ensures |r| == |cs|
  {
    seq(|cs|, k requires 0 <= k < |cs| =>
      if cs[k].name == name then cs[k].(entries := cs[k].entries + fetched) else cs[k])
  }

  /** The cache storage after install: `CacheName` opened, then filled only if every manifest fetch succeeded. */
  function AfterInstall(cs: seq<NamedCache>, net: string -> NetworkResult): seq<NamedCache> {
    var withCache := OpenCache(cs, CacheName);
    if AllStorable(net, StaticResources) then AddAll(withCache, CacheName, Fetched(net, StaticResources)) else withCache
  }

  /** The worker's cache storage, changed in place by its event handlers. */
  class Worker {
    var caches: seq<NamedCache>

    constructor (initial: seq<NamedCache>)
      ensures caches == initial
    {
      caches := initial;
    }

    /** The install handler; the result says whether `skipWaiting` was reached. */
    method OnInstall(net: string -> NetworkResult) returns (skipWaiting: bool)
      modifies this
      ensures caches == AfterInstall(old(caches), net)
      ensures skipWaiting <==> AllStorable(net, StaticResources)
    {
      caches := OpenCache(caches, CacheName);
      if AllStorable(net, StaticResources) {
        caches := AddAll(caches, CacheName, Fetched(net, StaticResources));
        skipWaiting := true;
      } else {
        skipWaiting := false;
      }
    }

    /** The activate handler: every cache whose name is not `CacheName` is deleted, one name at a time. */
    method OnActivate()
      modifies this
      ensures caches == Drop(old(caches), Names(old(caches)) - {CacheName})
    {
      var cacheNames := CacheKeys(caches);
      ghost var before := caches;
      DropNothing(before);
      assert KeysBefore(cacheNames, 0) - {CacheName} == {};
      var i := 0;
      while i < |cacheNames|
        invariant i <= |cacheNames|
        invariant caches == Drop(before, KeysBefore(cacheNames, i) - {CacheName})
        decreases |cacheNames| - i
      {
        ActivationStep(before, cacheNames, i);
        if cacheNames[i] != CacheName {
          caches := Delete(caches, cacheNames[i]);
        }
        assert caches == Drop(before, KeysBefore(cacheNames, i + 1) - {CacheName});
        i := i + 1;
      }
      KeysNames(before);
      assert KeysBefore(cacheNames, i) == Names(before);
    }

    /** The fetch handler: what it answers and how the cache storage changes. */
    method OnFetch(req: Request, net: NetworkResult) returns (outcome: Outcome)
      modifies this
      ensures outcome == Decide(old(caches), req, net)
      ensures caches == AfterFetch(old(caches), req, net)
    {
      if !Contains(req.url, BaseUrl) {
        return NotHandled;
      }
      var cachedResponse := CacheMatch(caches, req.url);
      if cachedResponse.Some? {
        return Respond(cachedResponse);
      }
      match net {
        case Delivered(response) =>
          if !Cacheable(response) {
            return Respond(response);
          }
          caches := Put(OpenCache(caches, CacheName), CacheName, req.url, response.value);
          return Respond(response);
        case Unreachable =>
          if req.accept.None? {
            return Fail(NoAcceptHeader);
          }
          if Contains(req.accept.value, "text/html") {
            return Respond(Some(OfflinePage));
          }
          return Fail(NetworkFailure);
      }
    }
  }

  /** `caches.keys()`: the cache names in creation order. */
  function CacheKeys(cs: seq<NamedCache>): (names: seq<string>)
    ensures |names| == |cs|
    ensures forall k :: 0 <= k < |cs| ==> names[k] == cs[k].name
  {
    seq(|cs|, k requires 0 <= k < |cs| => cs[k].name)
  }

  /** The first `i` keys, as a set. */
  function KeysBefore(keys: seq<string>, i: nat): set<string>
    requires i <= |keys|
  {
    if i == 0 then {} else KeysBefore(keys, i - 1) + {keys[i - 1]}
  }

  /** All the keys are all the names. */
  lemma {:induction false} KeysNames(cs: seq<NamedCache>)
    ensures KeysBefore(CacheKeys(cs), |cs|) == Names(cs)
  {
    KeysBeforeIsNames(cs, |cs|);
  }

  lemma {:induction false} KeysBeforeIsNames(cs: seq<NamedCache>, i: nat)
    requires i <= |cs|
    ensures KeysBefore(CacheKeys(cs), i) == set k | 0 <= k < i :: cs[k].name
  {
    if i > 0 {
      KeysBeforeIsNames(cs, i - 1);
      assert (set k | 0 <= k < i :: cs[k].name) == (set k | 0 <= k < i - 1 :: cs[k].name) + {cs[i - 1].name};
    }
  }

  lemma {:induction false} DropNothing(cs: seq<NamedCache>)
    ensures Drop(cs, {}) == cs
  {
    if cs != [] {
      DropNothing(cs[1..]);
      assert cs == [cs[0]] + cs[1..];
    }
  }

  /** One turn of the activation loop: deleting the next old name, or skipping `CacheName`, extends what has been dropped. */
  lemma ActivationStep(cs: seq<NamedCache>, keys: seq<string>, i: nat)
    requires i < |keys|
    ensures var dropped := KeysBefore(keys, i) - {CacheName};
      (if keys[i] != CacheName then Delete(Drop(cs, dropped), keys[i]) else Drop(cs, dropped))
        == Drop(cs, KeysBefore(keys, i + 1) - {CacheName})
  {
    var dropped := KeysBefore(keys, i) - {CacheName};
    if keys[i] != CacheName {
      DeleteDrop(cs, dropped, keys[i]);
      assert dropped + {keys[i]} == KeysBefore(keys, i + 1) - {CacheName};
    } else {
      assert dropped == KeysBefore(keys, i + 1) - {CacheName};
    }
  }

  /** Deleting one more name is dropping it too. */
  lemma {:induction false} DeleteDrop(cs: seq<NamedCache>, dropped: set<string>, name: string)
    ensures Delete(Drop(cs, dropped), name) == Drop(cs, dropped + {name})
  {
    if cs != [] {
      DeleteDrop(cs[1..], dropped, name);
      var head := if cs[0].name in dropped then [] else [cs[0]];
      DeleteAppend(head, Drop(cs[1..], dropped), name);
    }
  }

  lemma {:induction false} DeleteAppend(a: seq<NamedCache>, b: seq<NamedCache>, name: string)
    ensures Delete(a + b, name) == Delete(a, name) + Delete(b, name)
  {
    if a != [] {
      assert (a + b)[1..] == a[1..] + b;
      DeleteAppend(a[1..], b, name);
    } else {
      assert a + b == b;
    }
  }

  /*
   * What the worker promises.
   */

  /** Every manifest path lies inside the worker's scope. */
  lemma ManifestInScope()
    ensures |StaticResources| == 13
    ensures forall k :: 0 <= k < |StaticResources| ==> Contains(StaticResources[k], BaseUrl)
  {
    forall k | 0 <= k < |StaticResources| ensures Contains(StaticResources[k], BaseUrl) {
      var u := StaticResources[k];
      assert u == BaseUrl + u[|BaseUrl|..];
      ContainsInside([], BaseUrl, u[|BaseUrl|..]);
    }
  }

  /** Requests outside `/mtg-rules/` are left to the browser and change nothing. */
  lemma OutOfScopeIgnored(cs: seq<NamedCache>, req: Request, net: NetworkResult)
    requires !Contains(req.url, BaseUrl)
    ensures Decide(cs, req, net) == NotHandled && AfterFetch(cs, req, net) == cs
  {
  }

  /** A cache hit is served as stored, whatever the network would say, and nothing is stored. */
  lemma CacheHitIgnoresNetwork(cs: seq<NamedCache>, req: Request, net1: NetworkResult, net2: NetworkResult)
    requires Contains(req.url, BaseUrl) && CacheMatch(cs, req.url).Some?
    ensures Decide(cs, req, net1) == Decide(cs, req, net2) == Respond(CacheMatch(cs, req.url))
    ensures AfterFetch(cs, req, net1) == cs
  {
  }

  /** The storage changes only for a cacheable network response, and what the page gets is that same response. */
  lemma StoresOnlyCacheable(cs: seq<NamedCache>, req: Request, net: NetworkResult)
    requires AfterFetch(cs, req, net) != cs
    ensures net.Delivered? && Cacheable(net.response)
    ensures Decide(cs, req, net) == Respond(net.response)
  {
  }

  /** What `Put` does to lookups: the stored URL is found in the first cache of that name; other URLs are not disturbed. */
  lemma PutThenMatch(cs: seq<NamedCache>, name: string, url: string, response: Response, other: string)
    requires HasCache(cs, name) && CacheMatch(cs, url).None?
    requires other != url
    ensures CacheMatch(Put(cs, name, url, response), url) == Some(response)
    ensures CacheMatch(Put(cs, name, url, response), other) == CacheMatch(cs, other)
  {
    PutMatchOther(cs, name, url, response, other);
    PutMatchSame(cs, name, url, response);
  }

  lemma {:induction false} PutMatchOther(cs: seq<NamedCache>, name: string, url: string, response: Response, other: string)
    requires other != url
    ensures CacheMatch(Put(cs, name, url, response), other) == CacheMatch(cs, other)
  {
    if cs != [] {
      PutMatchOther(cs[1..], name, url, response, other);
      assert Put(cs, name, url, response)[1..] == Put(cs[1..], name, url, response);
    }
  }

  lemma {:induction false} PutMatchSame(cs: seq<NamedCache>, name: string, url: string, response: Response)
    requires HasCache(cs, name) && CacheMatch(cs, url).None?
    ensures CacheMatch(Put(cs, name, url, response), url) == Some(response)
  {
    if cs[0].name != name {
      assert HasCache(cs[1..], name) by {
        var k :| 0 <= k < |cs| && cs[k].name == name;
        assert cs[1..][k - 1] == cs[k];
      }
      assert url !in cs[0].entries;
      PutMatchSame(cs[1..], name, url, response);
      assert Put(cs, name, url, response)[1..] == Put(cs[1..], name, url, response);
    }
  }

  /** A stored miss becomes a hit: fetching the same URL again serves the stored response without the network. */
  lemma CachedMissBecomesHit(cs: seq<NamedCache>, req: Request, response: Response, later: NetworkResult)
    requires Contains(req.url, BaseUrl) && CacheMatch(cs, req.url).None?
    requires Cacheable(Some(response))
    ensures Decide(cs, req, Delivered(Some(response))) == Respond(Some(response))
    ensures Decide(AfterFetch(cs, req, Delivered(Some(response))), req, later) == Respond(Some(response))
  {
    var withCache := OpenCache(cs, CacheName);
    assert CacheMatch(withCache, req.url).None? by {
      if !HasCache(cs, CacheName) {
        assert forall k :: 0 <= k < |cs| ==> withCache[k] == cs[k];
      }
    }
    PutMatchSame(withCache, CacheName, req.url, response);
  }

  /**
   * When the network is unreachable on a miss, an HTML request gets the
   * offline page, served as `text/html` with a link back to `/mtg-rules/`;
   * any other request fails.
   */
  lemma OfflineFallback(cs: seq<NamedCache>, req: Request)
    requires Contains(req.url, BaseUrl) && CacheMatch(cs, req.url).None?
    ensures req.accept.Some? && Contains(req.accept.value, "text/html") ==> Decide(cs, req, Unreachable) == Respond(Some(OfflinePage))
    ensures !(req.accept.Some? && Contains(req.accept.value, "text/html")) ==> Decide(cs, req, Unreachable).Fail?
    ensures OfflinePage.contentType == "text/html" && Contains(OfflinePage.body, OfflineLink)
    ensures AfterFetch(cs, req, Unreachable) == cs
  {
    var pre := "<!DOCTYPE html>\n<html>\n<head>\n<title>MTG Rules - Offline</title>\n"
      + "<meta name=\"viewport\" content=\"width=device-width, initial-scale=1\">\n"
      + "<style>\nbody { font-family: sans-serif; text-align: center; padding: 50px; }\n.offline { color: #666; }\n</style>\n"
      + "</head>\n<body>\n<h1>MTG Rules</h1>\n"
      + "<p class=\"offline\">You're currently offline. Some content may not be available.</p>\n";
    ContainsInside(pre, OfflineLink, "\n</body>\n</html>\n");
  }

  /** After activation the only caches left are called `CacheName`, with their entries untouched. */
  lemma ActivationKeepsOnlyCurrent(cs: seq<NamedCache>, c: NamedCache)
    ensures c in Drop(cs, Names(cs) - {CacheName}) <==> c in cs && c.name == CacheName
  {
    DropMembership(cs, Names(cs) - {CacheName}, c);
    if c in cs {
      var k :| 0 <= k < |cs| && cs[k] == c;
      assert c.name in Names(cs);
    }
  }

  lemma {:induction false} DropMembership(cs: seq<NamedCache>, dropped: set<string>, c: NamedCache)
    ensures c in Drop(cs, dropped) <==> c in cs && c.name !in dropped
  {
    if cs != [] {
      DropMembership(cs[1..], dropped, c);
      assert cs == [cs[0]] + cs[1..];
    }
  }

  /** A failed install at most adds an empty `CacheName`: every existing cache and every lookup is as before. */
  lemma FailedInstallChangesNoLookup(cs: seq<NamedCache>, net: string -> NetworkResult, url: string)
    requires !AllStorable(net, StaticResources)
    ensures |AfterInstall(cs, net)| <= |cs| + 1
    ensures forall k :: 0 <= k < |cs| ==> AfterInstall(cs, net)[k] == cs[k]
    ensures CacheMatch(AfterInstall(cs, net), url) == CacheMatch(cs, url)
  {
    if !HasCache(cs, CacheName) {
      MatchSkipsEmpty(cs, CacheName, url);
    }
  }

  lemma {:induction false} MatchSkipsEmpty(cs: seq<NamedCache>, name: string, url: string)
    ensures CacheMatch(cs + [NamedCache(name, map[])], url) == CacheMatch(cs, url)
  {
    if cs != [] {
      assert (cs + [NamedCache(name, map[])])[1..] == cs[1..] + [NamedCache(name, map[])];
      MatchSkipsEmpty(cs[1..], name, url);
    }
  }

  /**
   * Install followed by activation: when every manifest fetch succeeded,
   * each manifest URL is served from the cache with what was fetched, with
   * no network needed.
   */
  lemma InstallThenActivate(cs: seq<NamedCache>, net: string -> NetworkResult, u: string, accept: Option<string>, later: NetworkResult)
    requires AllStorable(net, StaticResources) && u in StaticResources
    ensures var after := AfterInstall(cs, net);
      Decide(Drop(after, Names(after) - {CacheName}), Request(u, accept), later) == Respond(net(u).response)
  {
    ManifestInScope();
    AddAllThenPurge(cs, Fetched(net, StaticResources), u);
  }

  /** Storing `fetched` into `CacheName` and then deleting every other cache leaves each fetched URL served as fetched. */
  lemma AddAllThenPurge(cs: seq<NamedCache>, fetched: map<string, Response>, u: string)
    requires u in fetched
    ensures var after := AddAll(OpenCache(cs, CacheName), CacheName, fetched);
      CacheMatch(Drop(after, Names(after) - {CacheName}), u) == Some(fetched[u])
  {
    var withCache := OpenCache(cs, CacheName);
    var after := AddAll(withCache, CacheName, fetched);
    var active := Drop(after, Names(after) - {CacheName});
    var j :| 0 <= j < |withCache| && withCache[j].name == CacheName;
    assert after[j].name == CacheName && u in after[j].entries;
    ActivationKeepsOnlyCurrent(after, after[j]);
    forall c | c in active ensures u in c.entries && c.entries[u] == fetched[u] {
      ActivationKeepsOnlyCurrent(after, c);
      var i :| 0 <= i < |after| && after[i] == c;
    }
    assert active[0] in active;
  }
}
