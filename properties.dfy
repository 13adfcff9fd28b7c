/**
 * What the worker promises about its caches: the admin panel is never read
 * from or written to a cache, navigations are network-first with the shell
 * as fallback, other requests store only status-200 responses, activation
 * keeps exactly the current generation, and install is all-or-nothing.
 */
module ServiceWorkerProperties {
  import opened Wrappers
  import opened Strings
  import opened Http
  import opened CacheStore
  import opened ServiceWorker

  // ---- Cache names ----

  /** The static and runtime caches never share a name, whatever the generations. */
  lemma CacheNamesDistinct(v: string, w: string)
    ensures PrecacheName(v) != RuntimeName(w)
  {
    assert PrecacheName(v)[8] == 's';
    assert RuntimeName(w)[8] == 'r';
  }

  // ---- Activate ----

  /** The names among `keys` that activation deletes. */
  function StaleNames(keys: seq<string>, version: string): set<string>
  {
    set n | n in keys && !Contains(n, version)
  }

  /** Sweeping `keys` removes from the map exactly the stale names among them. */
  lemma {:induction false} SweepCaches(s: Store, keys: seq<string>, version: string)
    ensures Sweep(s, keys, version).caches == s.caches - StaleNames(keys, version)
    decreases |keys|
  {
    if keys == [] {
      assert StaleNames(keys, version) == {};
    } else {
      var x, tail := keys[0], keys[1..];
      SweepCaches(Visit(s, x, version), tail, version);
      assert keys == [x] + tail;
      if Contains(x, version) {
        assert StaleNames(keys, version) == StaleNames(tail, version);
      } else {
        assert StaleNames(keys, version) == {x} + StaleNames(tail, version);
      }
    }
  }

  /** Removing the stale names of a listing from its map leaves the current generation. */
  lemma StaleRemovedIsCurrent(caches: map<string, Cache>, names: seq<string>, version: string)
    requires forall n :: n in caches <==> n in names
    ensures caches - StaleNames(names, version) == CurrentCaches(caches, version)
  {
  }

  /** Visiting a stale name `x` between `kept` and `tail` drops it from the name list. */
  lemma VisitStaleName(s: Store, kept: seq<string>, x: string, tail: seq<string>, version: string)
    requires s.names == kept + [x] + tail && NoDuplicates(kept + [x] + tail) && !Contains(x, version)
    ensures Visit(s, x, version).names == kept + tail && NoDuplicates(kept + tail)
  {
    NoDuplicatesAt(kept + [x] + tail, |kept|);
    assert (kept + [x] + tail)[..|kept|] == kept && (kept + [x] + tail)[|kept| + 1..] == tail;
    RemoveNameSplit(kept, x, tail);
  }

  /** A current name at the head of the unvisited names stays, and the walk goes on after it. */
  lemma SweepCurrentHead(s: Store, kept: seq<string>, x: string, tail: seq<string>, version: string)
    requires Contains(x, version)
    requires Sweep(s, tail, version).names == (kept + [x]) + KeepCurrent(tail, version)
    ensures Sweep(s, [x] + tail, version).names == kept + KeepCurrent([x] + tail, version)
  {
    assert ([x] + tail)[0] == x && ([x] + tail)[1..] == tail;
    assert KeepCurrent([x] + tail, version) == [x] + KeepCurrent(tail, version);
    assert kept + ([x] + KeepCurrent(tail, version)) == (kept + [x]) + KeepCurrent(tail, version);
  }

  /** A stale name at the head of the unvisited names is deleted, and the walk goes on without it. */
  lemma SweepStaleHead(s: Store, kept: seq<string>, x: string, tail: seq<string>, version: string)
    requires !Contains(x, version)
    requires Sweep(Visit(s, x, version), tail, version).names == kept + KeepCurrent(tail, version)
    ensures Sweep(s, [x] + tail, version).names == kept + KeepCurrent([x] + tail, version)
  {
    assert ([x] + tail)[0] == x && ([x] + tail)[1..] == tail;
    assert KeepCurrent([x] + tail, version) == KeepCurrent(tail, version);
  }

  /**
   * Sweeping the unvisited names `rest` of a name list `kept + rest` leaves
   * `kept` followed by the current names of `rest`, in order.
   */
  lemma {:induction false} SweepNames(s: Store, kept: seq<string>, rest: seq<string>, version: string)
    requires s.names == kept + rest && NoDuplicates(kept + rest)
    ensures Sweep(s, rest, version).names == kept + KeepCurrent(rest, version)
    decreases |rest|
  {
    if rest == [] {
      assert kept + [] == kept;
    } else {
      var x, tail := rest[0], rest[1..];
      assert rest == [x] + tail;
      assert kept + rest == kept + [x] + tail == (kept + [x]) + tail;
      if Contains(x, version) {
        SweepNames(s, kept + [x], tail, version);
        SweepCurrentHead(s, kept, x, tail, version);
      } else {
        VisitStaleName(s, kept, x, tail, version);
        SweepNames(Visit(s, x, version), kept, tail, version);
        SweepStaleHead(s, kept, x, tail, version);
      }
    }
  }

  /** The activation walk equals reducing the store to the current generation. */
  lemma ActivateIsCurrentGeneration(s: Store, version: string)
    requires s.Valid()
    ensures ActivateStep(s, version) == CurrentGeneration(s, version)
  {
    assert ActivateStep(s, version).names == KeepCurrent(s.names, version) by {
      assert [] + s.names == s.names;
      SweepNames(s, [], s.names, version);
      assert [] + KeepCurrent(s.names, version) == KeepCurrent(s.names, version);
    }
    assert ActivateStep(s, version).caches == CurrentCaches(s.caches, version) by {
      SweepCaches(s, s.names, version);
      StaleRemovedIsCurrent(s.caches, s.names, version);
    }
  }

  /** Only names that include `version` remain, and every such cache is kept untouched. */
  lemma ActivateKeepsCurrentGeneration(s: Store, version: string)
    requires s.Valid()
    ensures ActivateStep(s, version).Valid()
    ensures forall n :: n in ActivateStep(s, version).names ==> Contains(n, version)
    ensures forall n :: n in ActivateStep(s, version).caches <==> n in s.caches && Contains(n, version)
    ensures forall n :: n in ActivateStep(s, version).caches ==> ActivateStep(s, version).caches[n] == s.caches[n]
    ensures PrecacheName(version) in s.caches ==>
              PrecacheName(version) in ActivateStep(s, version).caches
              && ActivateStep(s, version).caches[PrecacheName(version)] == s.caches[PrecacheName(version)]
    ensures RuntimeName(version) in s.caches ==>
              RuntimeName(version) in ActivateStep(s, version).caches
              && ActivateStep(s, version).caches[RuntimeName(version)] == s.caches[RuntimeName(version)]
  {
    ActivateIsCurrentGeneration(s, version);
    KeepCurrentMembers(s.names, version);
  }

  lemma {:induction false} KeepCurrentIdempotent(names: seq<string>, version: string)
    ensures KeepCurrent(KeepCurrent(names, version), version) == KeepCurrent(names, version)
  {
    if names != [] {
      KeepCurrentIdempotent(names[1..], version);
      var rest := KeepCurrent(names[1..], version);
      if Contains(names[0], version) {
        assert ([names[0]] + rest)[1..] == rest;
      }
    }
  }

  /** Activating twice with the same generation changes nothing the second time. */
  lemma ActivateIdempotent(s: Store, version: string)
    requires s.Valid()
    ensures ActivateStep(ActivateStep(s, version), version) == ActivateStep(s, version)
  {
    ActivateKeepsCurrentGeneration(s, version);
    ActivateIsCurrentGeneration(s, version);
    ActivateIsCurrentGeneration(ActivateStep(s, version), version);
    KeepCurrentIdempotent(s.names, version);
  }

  // ---- Install ----

  /**
   * `addAll` commits exactly when every fetch is accepted; then the cache
   * holds every URL's response, otherwise the store is unchanged.
   */
  lemma AddAllAllOrNothing(s: Store, name: string, urls: seq<string>, fetchUrl: string -> NetOutcome)
    requires name in s.caches
    ensures var r := AddAll(s, name, urls, fetchUrl);
      && (s.Valid() ==> r.store.Valid())
      && (r.committed <==> forall u :: u in urls ==> Accepted(fetchUrl(u)))
      && r.store.caches.Keys == s.caches.Keys
      && (forall n :: n != name && n in s.caches ==> r.store.caches[n] == s.caches[n])
      && (r.committed ==> forall u :: u in urls ==>
            HasEntry(r.store.caches, name, u) && r.store.caches[name][u] == fetchUrl(u).response)
      && (!r.committed ==> r.store == s)
  {
  }

  /**
   * Install succeeds exactly when every precache fetch is accepted; then the
   * static cache holds every listed URL's response, otherwise nothing new is
   * committed (the static cache exists, as `caches.open` created it). No
   * other cache changes either way.
   */
  lemma InstallAllOrNothing(s: Store, version: string, fetchUrl: string -> NetOutcome)
    requires s.Valid()
    ensures var r := InstallStep(s, version, fetchUrl);
      && r.store.Valid()
      && (r.committed <==> forall u :: u in PrecacheUrls ==> Accepted(fetchUrl(u)))
      && PrecacheName(version) in r.store.caches
      && (forall n :: n in r.store.caches <==> n in s.caches || n == PrecacheName(version))
      && (forall n :: n != PrecacheName(version) && n in s.caches ==> r.store.caches[n] == s.caches[n])
      && (r.committed ==> forall u :: u in PrecacheUrls ==>
            HasEntry(r.store.caches, PrecacheName(version), u)
            && r.store.caches[PrecacheName(version)][u] == fetchUrl(u).response)
      && (!r.committed ==> forall n :: n in s.caches ==> r.store.caches[n] == s.caches[n])
      && (!r.committed && PrecacheName(version) !in s.caches ==> r.store.caches[PrecacheName(version)] == map[])
  {
    AddAllAllOrNothing(Open(s, PrecacheName(version)), PrecacheName(version), PrecacheUrls, fetchUrl);
  }

  // ---- Fetch ----

  /**
   * An admin request is answered by the network alone: the store is left as
   * it was, and the answer does not depend on what any cache holds.
   */
  lemma FetchAdminBypassesCache(s: Store, other: Store, version: string, req: Request, net: NetOutcome)
    requires IsAdminRequest(req.pathname)
    ensures FetchStep(s, version, req, net).store == s
    ensures FetchStep(s, version, req, net).reply == AsReply(net)
    ensures FetchStep(other, version, req, net).reply == FetchStep(s, version, req, net).reply
  {
  }

  /** An admin navigation takes the admin branch, so it is never stored in the runtime cache. */
  lemma AdminNavigationNeverStored(s: Store, version: string, req: Request, net: NetOutcome)
    requires IsAdminRequest(req.pathname) && req.mode == Navigate
    ensures Route(req) == NetworkOnly
    ensures var r := FetchStep(s, version, req, net).store;
      RuntimeName(version) in r.caches ==>
        RuntimeName(version) in s.caches && r.caches[RuntimeName(version)] == s.caches[RuntimeName(version)]
  {
  }

  /**
   * A navigation that reaches the network returns the network's response and
   * stores it, whatever its status, in the runtime cache; nothing else changes.
   */
  lemma FetchNavigationOnline(s: Store, version: string, req: Request, resp: Response)
    requires !IsAdminRequest(req.pathname) && req.mode == Navigate
    ensures var r := FetchStep(s, version, req, Received(resp));
      && r.reply == Some(resp)
      && HasEntry(r.store.caches, RuntimeName(version), req.url)
      && r.store.caches[RuntimeName(version)][req.url] == resp
      && (forall k :: k != req.url && HasEntry(s.caches, RuntimeName(version), k) ==>
            HasEntry(r.store.caches, RuntimeName(version), k)
            && r.store.caches[RuntimeName(version)][k] == s.caches[RuntimeName(version)][k])
      && (forall k :: k != req.url && HasEntry(r.store.caches, RuntimeName(version), k) ==>
            HasEntry(s.caches, RuntimeName(version), k))
      && (forall n :: n in r.store.caches <==> n in s.caches || n == RuntimeName(version))
      && (forall n :: n != RuntimeName(version) && n in s.caches ==> r.store.caches[n] == s.caches[n])
      && (s.Valid() ==> r.store.Valid())
  {
  }

  /**
   * A navigation that cannot reach the network changes nothing and returns
   * the shell's lookup across all caches, which may find nothing.
   */
  lemma FetchNavigationOffline(s: Store, version: string, req: Request)
    requires !IsAdminRequest(req.pathname) && req.mode == Navigate
    ensures FetchStep(s, version, req, Failed).store == s
    ensures FetchStep(s, version, req, Failed).reply == Match(s, ShellUrl)
    ensures FetchStep(s, version, req, Failed).reply.None? <==>
              forall n :: n in s.names ==> !HasEntry(s.caches, n, ShellUrl)
  {
  }

  /** Any other request found in some cache is answered from it and changes nothing. */
  lemma FetchCacheHit(s: Store, version: string, req: Request, net: NetOutcome)
    requires !IsAdminRequest(req.pathname) && req.mode != Navigate
    requires Match(s, req.url).Some?
    ensures FetchStep(s, version, req, net).store == s
    ensures FetchStep(s, version, req, net).reply == Match(s, req.url)
    ensures exists n :: n in s.names && HasEntry(s.caches, n, req.url)
              && FetchStep(s, version, req, net).reply == Some(s.caches[n][req.url])
  {
  }

  /**
   * Any other request found in no cache is answered by the network; the
   * runtime cache gains an entry for it exactly when the status is 200, and
   * otherwise the store is unchanged.
   */
  lemma FetchCacheMiss(s: Store, version: string, req: Request, net: NetOutcome)
    requires s.Valid()
    requires !IsAdminRequest(req.pathname) && req.mode != Navigate
    requires Match(s, req.url).None?
    ensures var r := FetchStep(s, version, req, net);
      && r.reply == AsReply(net)
      && (HasEntry(r.store.caches, RuntimeName(version), req.url) <==>
            net.Received? && net.response.status == 200)
      && (HasEntry(r.store.caches, RuntimeName(version), req.url) ==>
            r.store.caches[RuntimeName(version)][req.url] == net.response)
      && (!(net.Received? && net.response.status == 200) ==> r.store == s)
      && (forall k :: k != req.url && HasEntry(s.caches, RuntimeName(version), k) ==>
            HasEntry(r.store.caches, RuntimeName(version), k)
            && r.store.caches[RuntimeName(version)][k] == s.caches[RuntimeName(version)][k])
      && (forall k :: k != req.url && HasEntry(r.store.caches, RuntimeName(version), k) ==>
            HasEntry(s.caches, RuntimeName(version), k))
      && (forall n :: n in r.store.caches ==> n in s.caches || n == RuntimeName(version))
      && (forall n :: n != RuntimeName(version) && n in s.caches ==> r.store.caches[n] == s.caches[n])
  {
    if net.Received? && net.response.status == 200 {
    } else {
      assert RuntimeName(version) in s.names ==> !HasEntry(s.caches, RuntimeName(version), req.url);
    }
  }

  /** Fetch events keep the store well formed. */
  lemma FetchPreservesValid(s: Store, version: string, req: Request, net: NetOutcome)
    requires s.Valid()
    ensures FetchStep(s, version, req, net).store.Valid()
  {
  }

  /** When exactly one listed cache holds `key`, a lookup returns that cache's entry. */
  lemma MatchSoleEntry(t: Store, name: string, key: Key)
    requires name in t.names && HasEntry(t.caches, name, key)
    requires forall n :: n != name ==> !HasEntry(t.caches, n, key)
    ensures Match(t, key) == Some(t.caches[name][key])
  {
    var m := Match(t, key);
    var i :| 0 <= i < |t.names| && HasEntry(t.caches, t.names[i], key)
             && m.value == t.caches[t.names[i]][key];
    assert t.names[i] == name;
  }

  /**
   * After a miss that stored a 200 response, the same request is a hit: it
   * gets the same response and changes nothing, whatever the network does.
   */
  lemma CacheMissThenHit(s: Store, version: string, req: Request, first: Response, later: NetOutcome)
    requires s.Valid()
    requires !IsAdminRequest(req.pathname) && req.mode != Navigate
    requires Match(s, req.url).None? && first.status == 200
    ensures var r1 := FetchStep(s, version, req, Received(first));
      var r2 := FetchStep(r1.store, version, req, later);
      r2.reply == r1.reply == Some(first) && r2.store == r1.store
  {
    var r1 := FetchStep(s, version, req, Received(first));
    var runtime := RuntimeName(version);
    forall n | n != runtime
      ensures !HasEntry(r1.store.caches, n, req.url)
    {
      if n in s.caches {
        assert n in s.names;
      }
    }
    MatchSoleEntry(r1.store, runtime, req.url);
  }

  /**
   * An offline navigation finds the shell when a listed cache holds it, and
   * returns that cache's copy when it is the only one.
   */
  lemma OfflineNavigationFindsShell(t: Store, version: string, req: Request, name: string)
    requires name in t.names && HasEntry(t.caches, name, ShellUrl)
    requires !IsAdminRequest(req.pathname) && req.mode == Navigate
    ensures FetchStep(t, version, req, Failed).reply.Some?
    ensures (forall n :: n != name ==> !HasEntry(t.caches, n, ShellUrl)) ==>
              FetchStep(t, version, req, Failed).reply == Some(t.caches[name][ShellUrl])
  {
    if forall n :: n != name ==> !HasEntry(t.caches, n, ShellUrl) {
      MatchSoleEntry(t, name, ShellUrl);
    }
  }

  /**
   * After a successful install, an offline navigation is answered from the
   * caches; when no cache held the shell before, the answer is the shell
   * fetched at install time.
   */
  lemma InstallThenOfflineNavigation(s: Store, version: string, fetchUrl: string -> NetOutcome, req: Request)
    requires s.Valid()
    requires InstallStep(s, version, fetchUrl).committed
    requires !IsAdminRequest(req.pathname) && req.mode == Navigate
    ensures var installed := InstallStep(s, version, fetchUrl).store;
      && FetchStep(installed, version, req, Failed).reply.Some?
      && (Match(s, ShellUrl).None? ==>
            FetchStep(installed, version, req, Failed).reply == AsReply(fetchUrl(ShellUrl)))
  {
    var installed := InstallStep(s, version, fetchUrl).store;
    var precache := PrecacheName(version);
    assert HasEntry(installed.caches, precache, ShellUrl)
           && installed.caches[precache][ShellUrl] == fetchUrl(ShellUrl).response
           && precache in installed.names
           && forall n :: n != precache && n in s.caches ==> installed.caches[n] == s.caches[n]
    by {
      InstallAllOrNothing(s, version, fetchUrl);
      assert ShellUrl in PrecacheUrls;
    }
    if Match(s, ShellUrl).None? {
      forall n | n != precache
        ensures !HasEntry(installed.caches, n, ShellUrl)
      {
        if n in s.caches {
          assert n in s.names;
        }
      }
    }
    OfflineNavigationFindsShell(installed, version, req, precache);
  }
}
