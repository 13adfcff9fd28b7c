/**
 * The worker itself: its generation, the cache storage it shares with other
 * generations, and the install, activate and fetch handlers, each changing
 * that storage in place and each proved to make exactly the transition the
 * matching step function describes.
 */
module ServiceWorkerRuntime {
  import opened Wrappers
  import opened Strings
  import opened Http
  import opened CacheStore
  import opened CacheStorageObject
  import opened ServiceWorker

  class Worker {
    /** `CACHE_VERSION`: the generation, taken as given rather than read from the clock. */
    const version: string
    const storage: CacheStorage
    /** `self.skipWaiting()` has been called. */
    var waitingSkipped: bool
    /** `self.clients.claim()` has been called. */
    var clientsClaimed: bool

    constructor (version: string, storage: CacheStorage)
      ensures this.version == version && this.storage == storage
      ensures !waitingSkipped && !clientsClaimed
    {
      this.version := version;
      this.storage := storage;
      waitingSkipped := false;
      clientsClaimed := false;
    }

    /**
     * The install handler: skip waiting, open the static cache and add the
     * precache list to it. `installed` is false when `addAll` rejected.
     */
    method Install(fetchUrl: string -> NetOutcome) returns (installed: bool)
      requires storage.Valid()
      modifies this, storage
      ensures storage.Valid()
      ensures waitingSkipped && clientsClaimed == old(clientsClaimed)
      ensures InstallStep(old(storage.State()), version, fetchUrl) == BatchResult(storage.State(), installed)
    {
      waitingSkipped := true;
      storage.Open(PrecacheName(version));
      installed := storage.AddAll(PrecacheName(version), PrecacheUrls, fetchUrl);
    }

    /**
     * The activate handler: walk the cache names listed when it starts and
     * delete each one that does not include `version`, then claim the clients.
     */
    method Activate()
      requires storage.Valid()
      modifies this, storage
      ensures storage.Valid()
      ensures storage.State() == ActivateStep(old(storage.State()), version)
      ensures clientsClaimed && waitingSkipped == old(waitingSkipped)
    {
      var keys := storage.names;
      ghost var start := storage.State();
      var i := 0;
      while i < |keys|
        invariant 0 <= i <= |keys|
        invariant storage.Valid()
        invariant Sweep(storage.State(), keys[i..], version) == ActivateStep(start, version)
        modifies storage
      {
        assert keys[i..][0] == keys[i] && keys[i..][1..] == keys[i + 1..];
        DeleteIfStale(keys[i]);
        i := i + 1;
      }
      clientsClaimed := true;
    }

    /** The body of the activation walk: `caches.delete(key)` unless key includes `version`. */
    method DeleteIfStale(key: string)
      requires storage.Valid()
      modifies storage
      ensures storage.Valid()
      ensures storage.State() == Visit(old(storage.State()), key, version)
    {
      if !Contains(key, version) {
        var existed := storage.Delete(key);
      }
    }

    /**
     * The fetch handler for `req`, with `net` what the network would answer.
     * `reply` is what the page receives; None stands for a network error.
     */
    method Fetch(req: Request, net: NetOutcome) returns (reply: Option<Response>)
      requires storage.Valid()
      modifies storage
      ensures storage.Valid()
      ensures FetchStep(old(storage.State()), version, req, net) == FetchResult(storage.State(), reply)
    {
      if IsAdminRequest(req.pathname) {
        return AsReply(net);
      }
      if req.mode == Navigate {
        match net
        case Received(resp) =>
          storage.Open(RuntimeName(version));
          storage.Put(RuntimeName(version), req.url, resp);
          return Some(resp);
        case Failed =>
          return Match(storage.State(), ShellUrl);
      }
      var cached := Match(storage.State(), req.url);
      if cached.Some? {
        return cached;
      }
      if net.Received? && net.response.status == 200 {
        storage.Open(RuntimeName(version));
        storage.Put(RuntimeName(version), req.url, net.response);
      }
      return AsReply(net);
    }
  }
}
