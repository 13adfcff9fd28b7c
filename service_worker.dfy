/**
 * The worker's configuration, its routing rule, and what each lifecycle step
 * (install, activate, fetch) does to the cache store, stated as functions of
 * the store before the step, the generation string and the network's answer.
 */
module ServiceWorker {
  import opened Wrappers
  import opened Strings
  import opened Http
  import opened CacheStore

  const CachePrefix: string := "rpc-pro-"

  /** The static cache of generation `version`. */
  function PrecacheName(version: string): (name: string)
    ensures StartsWith(name, CachePrefix) && Contains(name, version)
  {
    ContainsInfix(CachePrefix + "static-", version, "");
    StartsWithIsPrefix(CachePrefix + "static-" + version, CachePrefix);
    assert CachePrefix + "static-" + version + "" == CachePrefix + "static-" + version;
    CachePrefix + "static-" + version
  }

  /** The runtime cache of generation `version`. */
  function RuntimeName(version: string): (name: string)
    ensures StartsWith(name, CachePrefix) && Contains(name, version)
  {
    ContainsInfix(CachePrefix + "runtime-", version, "");
    StartsWithIsPrefix(CachePrefix + "runtime-" + version, CachePrefix);
    assert CachePrefix + "runtime-" + version + "" == CachePrefix + "runtime-" + version;
    CachePrefix + "runtime-" + version
  }

  /** The application shell: the offline answer to a navigation. */
  const ShellUrl: string := "./index.html"

  const PrecacheUrls: seq<string> := [
    "./",
    "./index.html",
    "./manifest.json",
    "./icon-256.png",
    "./app-icon-96.png",
    "./app-icon-128.png",
    "./app-icon-144.png",
    "./app-icon-152.png",
    "./app-icon-192.png",
    "./app-icon-256.png",
    "./app-icon-384.png",
    "./app-icon-512.png",
    "./app-icon-1024.png"
  ]

  const AdminPrefix: string := "/admin/"

  /** Requests for the admin panel, which must never be cached. */
  function IsAdminRequest(pathname: string): (admin: bool)
    ensures admin <==> |AdminPrefix| <= |pathname| && pathname[..|AdminPrefix|] == AdminPrefix
  {
    StartsWithIsPrefix(pathname, AdminPrefix);
    StartsWith(pathname, AdminPrefix)
  }

  /** The three ways the fetch handler answers a request. */
  datatype Strategy =
    | NetworkOnly   // admin: straight to the network
    | NetworkFirst  // navigation: network, then the cached shell
    | CacheFirst    // everything else: cache, then network

  /** The admin test is made first, so an admin navigation is network-only. */
  function Route(req: Request): (strategy: Strategy)
    ensures strategy == NetworkOnly <==> IsAdminRequest(req.pathname)
    ensures strategy == NetworkFirst <==> !IsAdminRequest(req.pathname) && req.mode == Navigate
  {
    if IsAdminRequest(req.pathname) then NetworkOnly
    else if req.mode == Navigate then NetworkFirst
    else CacheFirst
  }

  /** The cache names that belong to generation `version`, in their order. */
  function KeepCurrent(names: seq<string>, version: string): (kept: seq<string>)
    ensures |kept| <= |names|
  {
    if names == [] then []
    else
      var rest := KeepCurrent(names[1..], version);
      if Contains(names[0], version) then [names[0]] + rest else rest
  }

  /** KeepCurrent keeps exactly the names that include `version`, and no name twice. */
  lemma {:induction false} KeepCurrentMembers(names: seq<string>, version: string)
    ensures forall n :: n in KeepCurrent(names, version) <==> n in names && Contains(n, version)
    ensures NoDuplicates(names) ==> NoDuplicates(KeepCurrent(names, version))
  {
    if names != [] {
      KeepCurrentMembers(names[1..], version);
      assert names == [names[0]] + names[1..];
      assert NoDuplicates(names) ==> names[0] !in names[1..];
    }
  }

  /** The caches of generation `version`, with their contents. */
  function CurrentCaches(caches: map<string, Cache>, version: string): map<string, Cache>
  {
    map n | n in caches && Contains(n, version) :: caches[n]
  }

  /** The store reduced to generation `version`, order kept. */
  function CurrentGeneration(s: Store, version: string): Store
  {
    Store(KeepCurrent(s.names, version), CurrentCaches(s.caches, version))
  }

  /** What activation does with one listed name: `caches.delete` unless it includes `version`. */
  function Visit(s: Store, key: string, version: string): Store
  {
    if Contains(key, version) then s else Delete(s, key)
  }

  /** Visiting each of `keys` in turn. */
  function Sweep(s: Store, keys: seq<string>, version: string): Store
    decreases |keys|
  {
    if keys == [] then s else Sweep(Visit(s, keys[0], version), keys[1..], version)
  }

  /**
   * Activation: walk the names `caches.keys()` lists and delete every cache
   * whose name does not include `version`, whatever its prefix.
   */
  function ActivateStep(s: Store, version: string): Store
  {
    Sweep(s, s.names, version)
  }

  /** Install: open the static cache, then add the whole precache list to it. */
  function InstallStep(s: Store, version: string, fetchUrl: string -> NetOutcome): BatchResult
  {
    AddAll(Open(s, PrecacheName(version)), PrecacheName(version), PrecacheUrls, fetchUrl)
  }

  /** The store after a fetch event and what the page receives (None: a network error). */
  datatype FetchResult = FetchResult(store: Store, reply: Option<Response>)

  /** Put `resp` under `key` in the runtime cache, opening it first. */
  function PutRuntime(s: Store, version: string, key: Key, resp: Response): Store
  {
    Put(Open(s, RuntimeName(version)), RuntimeName(version), key, resp)
  }

  /** The fetch handler, with `net` the answer the network would give to `req`. */
  function FetchStep(s: Store, version: string, req: Request, net: NetOutcome): FetchResult
  {
    match Route(req)
    case NetworkOnly =>
      FetchResult(s, AsReply(net))
    case NetworkFirst =>
      if net.Received? then
        FetchResult(PutRuntime(s, version, req.url, net.response), Some(net.response))
      else
        FetchResult(s, Match(s, ShellUrl))
    case CacheFirst =>
      var cached := Match(s, req.url);
      if cached.Some? then FetchResult(s, cached)
      else if net.Received? && net.response.status == 200 then
        FetchResult(PutRuntime(s, version, req.url, net.response), Some(net.response))
      else
        FetchResult(s, AsReply(net))
  }
}
