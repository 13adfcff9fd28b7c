# RecargasPaCuba service worker, modelled in Dafny

This project models the offline-caching service worker `service-worker.js`
of RecargasPaCuba.

## What the worker does

The worker keeps two caches per generation:

- a static cache, `rpc-pro-static-<version>`;
- a runtime cache, `rpc-pro-runtime-<version>`.

Its handlers work as follows:

- **install** opens the static cache and adds the thirteen precache URLs to it with one `addAll`;
- **activate** deletes every cache whose name does not include the current version, then claims the clients;
- **fetch** routes each request:
  - `/admin/` paths go to the network only;
  - navigations are network-first, falling back to the cached `./index.html`;
  - everything else is cache-first, and only status-200 network answers are stored.

## How it is modelled

The cache storage is a value `CacheStore.Store`. It holds:

- the cache names in creation order, which is the order `caches.keys()` lists and `caches.match` searches;
- a map from cache name to a cache, where each cache maps a request URL to a response.

The network's answer is an input, `Received(response)` or `Failed`. For install, it is a function from URL to that answer.

Each handler is a step function on the store: `ServiceWorker.InstallStep`, `ServiceWorker.ActivateStep` and `ServiceWorker.FetchStep`. The properties the worker promises are lemmas about those functions, in module `ServiceWorkerProperties`.

The handlers themselves change the storage in place, as in the source. They are the methods of the class `ServiceWorkerRuntime.Worker`, over the class `CacheStorageObject.CacheStorage`:

- the activation walk is a loop over the names listed when it starts;
- `addAll` is a fetch loop followed by a store loop.

Each method is proved to perform exactly the transition its step function describes.

### Behaviour of the code worth noting

- A navigation's network response is stored in the runtime cache whatever its status (`service-worker.js:72-75`).
- An offline navigation with no cached `./index.html` gets no response, so the page sees a network error (`service-worker.js:76-79`).
- Activation deletes every cache whose name lacks the version, whatever its prefix (`service-worker.js:48`).

## Model

| member | source | states |
|---|---|---|
| Strings.StartsWithIsPrefix | service-worker.js:30 | `startsWith(p)` holds exactly when `p` is no longer than the string and is its leading slice |
| Strings.ContainsIffOccurs | service-worker.js:48 | `includes(sub)` holds exactly when `sub` occurs at some position of the string |
| Strings.ContainsInfix | service-worker.js:9-10 | a string built around the version includes the version |
| Http.AsReply | service-worker.js:64 | the page gets a response exactly when the network returned one, and it is that response |
| ServiceWorker.PrecacheName | service-worker.js:7-9 | the static cache name starts with the `rpc-pro-` prefix and includes the version |
| ServiceWorker.RuntimeName | service-worker.js:7-10 | the runtime cache name starts with the `rpc-pro-` prefix and includes the version |
| ServiceWorker.IsAdminRequest | service-worker.js:29-31 | a request is an admin request exactly when its pathname begins with `/admin/` |
| ServiceWorker.Route | service-worker.js:62-86 | network-only exactly for admin paths; network-first exactly for non-admin navigations; the admin test wins over the navigation test |
| ServiceWorker.KeepCurrentMembers | service-worker.js:45-52 | the kept names are exactly the listed names that include the version, with no name twice |
| CacheStore.Open | service-worker.js:36 | `caches.open` yields the named cache: an existing one leaves the store as it was, a missing one is created empty and listed last; no other cache changes |
| CacheStore.Put | service-worker.js:74 | after `put`, the cache maps the key to the response, and every other key and every other cache is unchanged |
| CacheStore.RemoveName | service-worker.js:49 | the name list after a delete holds every other name and not the deleted one, still without duplicates |
| CacheStore.Delete | service-worker.js:49 | `caches.delete` removes exactly the named cache and leaves every other cache's contents as they were |
| CacheStore.MatchIn | service-worker.js:87 | `caches.match` finds nothing exactly when no listed cache holds the key; otherwise it returns the entry of the first listed cache that holds it |
| CacheStore.PutAll | service-worker.js:37 | storing a batch maps every URL to its fetched response; other keys and other caches are kept |
| ServiceWorkerProperties.AddAllAllOrNothing | service-worker.js:37 | `addAll` commits exactly when every fetch is accepted (an ok status, 200-299, other than the partial 206); it then holds every URL's response, and otherwise the store is unchanged |
| CacheStorageObject.CacheStorage.FetchAll | service-worker.js:37 | the fetch loop of `addAll` succeeds exactly when every URL's answer is accepted, and then returns each URL's response in list order |
| CacheStorageObject.CacheStorage.PutEach | service-worker.js:37 | the store loop of `addAll` leaves the storage as the batch write of all the URLs |
| CacheStorageObject.CacheStorage.AddAll | service-worker.js:37 | the in-place `addAll` makes the all-or-nothing transition and reports whether it committed |
| CacheStorageObject.CacheStorage.Open | service-worker.js:36 | the in-place `caches.open` makes the `Open` transition |
| CacheStorageObject.CacheStorage.Put | service-worker.js:74 | the in-place `cache.put` makes the `Put` transition |
| CacheStorageObject.CacheStorage.Delete | service-worker.js:49 | the in-place `caches.delete` makes the `Delete` transition and reports whether the cache existed |
| ServiceWorkerProperties.CacheNamesDistinct | service-worker.js:9-10 | a static cache name is never a runtime cache name, whatever the two generations |
| ServiceWorkerProperties.SweepCaches | service-worker.js:45-52 | walking the listed names removes exactly the caches whose names lack the version |
| ServiceWorkerProperties.SweepNames | service-worker.js:45-52 | walking the listed names keeps, in order, exactly the names that include the version |
| ServiceWorkerProperties.ActivateIsCurrentGeneration | service-worker.js:45-52 | the activation walk equals reducing the store to the caches whose names include the version, order and contents kept |
| ServiceWorkerProperties.ActivateKeepsCurrentGeneration | service-worker.js:45-52 | after activation every remaining name includes the version; every cache that included it survives with its contents; so the static and runtime caches of the generation survive |
| ServiceWorkerProperties.KeepCurrentIdempotent | service-worker.js:48 | filtering the names by the version a second time changes nothing |
| ServiceWorkerProperties.ActivateIdempotent | service-worker.js:42-56 | activating twice with the same version leaves the store as one activation does |
| ServiceWorkerProperties.InstallAllOrNothing | service-worker.js:33-40 | install commits exactly when every precache fetch is accepted, and then the static cache holds each URL's response; otherwise nothing is committed beyond the opened (possibly new, empty) static cache; no other cache changes |
| ServiceWorkerProperties.FetchAdminBypassesCache | service-worker.js:63-65 | an admin request leaves the store unchanged and is answered by the network, whatever any cache holds |
| ServiceWorkerProperties.AdminNavigationNeverStored | service-worker.js:63-68 | an admin navigation takes the network-only route, so the runtime cache does not change |
| ServiceWorkerProperties.FetchNavigationOnline | service-worker.js:72-75 | an online navigation returns the network response and stores it, whatever its status, under the request URL in the runtime cache; nothing else changes |
| ServiceWorkerProperties.FetchNavigationOffline | service-worker.js:76-79 | an offline navigation changes nothing and returns the lookup of `./index.html`, which is empty exactly when no listed cache holds it |
| ServiceWorkerProperties.FetchCacheHit | service-worker.js:87-89 | another request found in a cache is answered with that cache's entry, and the store is unchanged |
| ServiceWorkerProperties.FetchCacheMiss | service-worker.js:90-95 | another request found in no cache gets the network's answer; the runtime cache gains the entry exactly when the status is 200, keeping its other entries, with no other cache added or changed; otherwise the store is unchanged |
| ServiceWorkerProperties.FetchPreservesValid | service-worker.js:58-99 | a fetch event keeps the name list and the cache map in agreement |
| ServiceWorkerProperties.MatchSoleEntry | service-worker.js:87 | when only one cache holds a key, `caches.match` returns that cache's entry |
| ServiceWorkerProperties.CacheMissThenHit | service-worker.js:86-98 | after a miss stored a 200 response, the same request is a hit with the same response, whatever the network does |
| ServiceWorkerProperties.OfflineNavigationFindsShell | service-worker.js:76-79 | an offline navigation gets an answer whenever a listed cache holds `./index.html`, and gets that copy when it is the only one |
| ServiceWorkerProperties.InstallThenOfflineNavigation | service-worker.js:33-79 | after a committed install an offline navigation is answered, with the shell fetched at install time when no cache held one before |
| ServiceWorkerRuntime.Worker.Install | service-worker.js:33-40 | the install handler skips waiting and changes the storage exactly as the install step does, reporting whether `addAll` committed |
| ServiceWorkerRuntime.Worker.Activate | service-worker.js:42-56 | the activate handler's walk changes the storage exactly as the activation step does, then the clients are claimed |
| ServiceWorkerRuntime.Worker.DeleteIfStale | service-worker.js:47-51 | one turn of the walk deletes the cache exactly when its name lacks the version |
| ServiceWorkerRuntime.Worker.Fetch | service-worker.js:58-99 | the fetch handler changes the storage and answers the page exactly as the fetch step does |

## Left out

- Real network I/O is not modelled. The network's answer is an input, so the `cache: "reload"` bypass of the HTTP cache does not appear.
- `Response.clone()` and body streams are not modelled. A response is a status and a body value that can be stored and returned at once.
- Promises, `event.respondWith` and `event.waitUntil` are not modelled. Each handler is one atomic step.
- The un-awaited `cache.put` calls (`service-worker.js:74`, `service-worker.js:92`) are modelled as finishing before the handler returns. Their race with later events is a concurrency matter.
- The concurrent deletes issued by `Promise.all` in activation are modelled as a sequential walk. They touch distinct names, so the final store is the same.
- `self.skipWaiting()` and `self.clients.claim()` are recorded only as the flags `waitingSkipped` and `clientsClaimed`. Their effect on which clients are controlled is the browser's.
- `Date.now()` is not read. The version string is a parameter of the worker.
- `new URL(req.url)` parsing is not modelled. A request carries its URL, pathname and mode as fields, and a cache key is the URL string as written, so `./index.html` matches only that key.
- The browser's request-matching rules (method, `Vary`, query handling) are reduced to key equality. `caches.match` searches the caches in creation order.
- CacheStore.Put: stores any response. It does not model `put` rejecting partial (206) responses and non-GET requests, because the worker never distinguishes them.
- CacheStore.AddAll: does not model duplicate-request rejection inside `addAll`. The precache list has no duplicates.
- Strategies that are not in this file are absent: image trimming, stale-while-revalidate, API/JSON handling, 503 synthesis, cross-origin filtering and the push, message and sync hooks.
- ServiceWorkerProperties.AddAllAllOrNothing: a response carrying `Vary: *` counts as accepted, although the browser's `addAll` refuses it, because responses are modelled without headers.
- `caches.open`, `caches.match`, `cache.put`, `cache.addAll`'s storage step and `caches.delete` are modelled as never rejecting. In the source, a rejected `caches.open(RUNTIME)` (`service-worker.js:73`) would send an online navigation into the `catch` branch and answer it with the shell fallback; the model does not capture storage failures.
