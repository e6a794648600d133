/**
  The `fetch` listener of public/sw.js: which requests the worker answers and how, and
  the rule for refreshing its `static-v1` cache. The network and the cache are passed in:
  a fetch either yields a response or rejects (None), and the cache maps request URLs to
  stored responses.
 */
module ServiceWorker {
  import opened Wrappers

  datatype Mode = Navigate | OtherMode

  /** A response's `type`. */
  datatype ResponseType = Basic | Cors | Opaque | OpaqueRedirect | ErrorType

  datatype Resp = Resp(status: nat, kind: ResponseType)

  /** What the listener looks at: the URL (its path separately), `mode`, `method` (verb), and
      whether the URL's origin is the worker's own. */
  datatype Request = Request(url: string, path: string, mode: Mode, verb: string, sameOrigin: bool)

  /** How a request is handled: not at all (the browser fetches it as if there were no
      worker), network first with the cached `/` as fallback, or cache first. */
  datatype Strategy = PassThrough | NetworkFirst | CacheFirst

  predicate StartsWith(s: string, p: string) {
    |p| <= |s| && s[..|p|] == p
  }

  /** `s.includes(p)`: `p` starts at some position of `s`. */
  predicate Contains(s: string, p: string) {
    StartsWith(s, p) || (s != [] && Contains(s[1..], p))
  }

  predicate IsApi(path: string) {
    StartsWith(path, "/api") || Contains(path, "/api/stream")
  }

  /** The listener's decision, in its order of tests. */
  function Route(r: Request): (s: Strategy)
    ensures IsApi(r.path) ==> s == PassThrough
    ensures s == NetworkFirst <==> !IsApi(r.path) && r.mode == Navigate
    ensures s == CacheFirst <==> !IsApi(r.path) && r.mode != Navigate && r.verb == "GET" && r.sameOrigin
    ensures s == PassThrough <==> IsApi(r.path) || (r.mode != Navigate && (r.verb != "GET" || !r.sameOrigin))
  {
    if IsApi(r.path) then PassThrough
    else if r.mode == Navigate then NetworkFirst
    else if r.verb == "GET" && r.sameOrigin then CacheFirst
    else PassThrough
  }

  /** The event stream and every API path are left to the network, whatever the request. */
  lemma StreamNeverIntercepted(r: Request)
    requires StartsWith(r.path, "/api")
    ensures Route(r) == PassThrough
  {
  }

  /** An API path below another prefix is caught by the second test only. */
  lemma NestedStreamPath()
    ensures !StartsWith("/x/api/stream", "/api") && IsApi("/x/api/stream")
  {
    var path := "/x/api/stream";
    assert path[1] == 'x';
    assert path[..4][1] != "/api"[1];
    assert path[1..][1..] == "/api/stream";
    assert StartsWith("/api/stream", "/api/stream");
    assert Contains(path[1..], "/api/stream");
  }

  /** `res && res.status === 200 && res.type === "basic"`. */
  predicate Cacheable(res: Option<Resp>) {
    res.Some? && res.value.status == 200 && res.value.kind == Basic
  }

  /** `caches.open(STATIC_CACHE)`. */
  class Cache {
    var entries: map<string, Resp>

    constructor ()
      ensures entries == map[]
    {
      entries := map[];
    }

    /** The navigation branch, `fetch(req).catch(() => caches.match("/"))`: the network's
        answer, else the cached root page, else nothing (`match` resolves to `undefined`).
        `rootUrl` is the URL that `"/"` resolves to on the worker's origin. A navigation
        never writes to the cache. */
    method NetworkFirst(rootUrl: string, network: Option<Resp>) returns (answer: Option<Resp>)
      modifies this
      ensures network.Some? ==> answer == network
      ensures network.None? ==> answer == (if rootUrl in old(entries) then Some(old(entries)[rootUrl]) else None)
      ensures entries == old(entries)
    {
      if network.Some? {
        answer := network;
      } else if rootUrl in entries {
        answer := Some(entries[rootUrl]);
      } else {
        answer := None;
      }
    }

    /** The cache-first branch: look the URL up, issue the fetch regardless, store its
        response when it is a 200 of type `basic`, and answer with the cached copy if
        there was one, otherwise with the network's. That the fetch is issued on a hit
        too shows in the new entries, which follow `network` whether the URL was cached
        or not. */
    method CacheFirst(url: string, network: Option<Resp>) returns (answer: Option<Resp>)
      modifies this
      ensures url in old(entries) ==> answer == Some(old(entries)[url])
      ensures url !in old(entries) ==> answer == network
      ensures Cacheable(network) ==> entries == old(entries)[url := network.value]
      ensures !Cacheable(network) ==> entries == old(entries)
    {
      var cached: Option<Resp> := if url in entries then Some(entries[url]) else None;
      if network.Some? && network.value.status == 200 && network.value.kind == Basic {
        entries := entries[url := network.value];
      }
      answer := if cached.Some? then cached else network;
    }
  }

  /** Only a basic 200 is ever stored: redirects, errors and cross-origin answers are not. */
  lemma OnlyBasicOkCached(status: nat, kind: ResponseType)
    ensures Cacheable(Some(Resp(status, kind))) <==> status == 200 && kind == Basic
    ensures !Cacheable(None) && !Cacheable(Some(Resp(200, Opaque))) && !Cacheable(Some(Resp(304, Basic)))
  {
  }

  /** A navigation answers with the network's page while online, and with the cached root
      page once the network fails, whatever page was asked for. */
  method OfflineNavigationServesRoot(c: Cache, rootUrl: string, page: Resp, other: Resp) returns (online: Option<Resp>, offline: Option<Resp>)
    modifies c
    ensures online == Some(other) && offline == Some(page)
  {
    c.entries := c.entries[rootUrl := page];
    online := c.NetworkFirst(rootUrl, Some(other));
    offline := c.NetworkFirst(rootUrl, None);
  }

  /** The cached answer is served even when the network has a newer one, and the newer
      one is what the next request sees. */
  method StaleWhileRevalidate(c: Cache, url: string, old1: Resp, fresh1: Resp) returns (first: Option<Resp>, second: Option<Resp>)
    requires fresh1.status == 200 && fresh1.kind == Basic
    modifies c
    ensures first == Some(old1) && second == Some(fresh1)
  {
    c.entries := c.entries[url := old1];
    first := c.CacheFirst(url, Some(fresh1));
    second := c.CacheFirst(url, None);
  }
}
