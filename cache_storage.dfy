/**
 * The origin's cache storage as an object: the handlers change it in place,
 * and each of its methods is specified by the matching function on `Store`.
 */
module CacheStorageObject {
  import opened Http
  import CacheStore

  class CacheStorage {
    var names: seq<string>
    var caches: map<string, CacheStore.Cache>

    function State(): CacheStore.Store
      reads this
    {
      CacheStore.Store(names, caches)
    }

    ghost predicate Valid()
      reads this
    {
      State().Valid()
    }

    constructor (initial: CacheStore.Store)
      requires initial.Valid()
      ensures Valid() && State() == initial
    {
      names := initial.names;
      caches := initial.caches;
    }

    method Open(name: string)
      requires Valid()
      modifies this
      ensures Valid() && State() == CacheStore.Open(old(State()), name)
    {
      if name !in caches {
        names := names + [name];
        caches := caches[name := map[]];
      }
    }

    method Put(name: string, key: CacheStore.Key, resp: Response)
      requires Valid() && name in caches
      modifies this
      ensures Valid() && State() == CacheStore.Put(old(State()), name, key, resp)
    {
      caches := caches[name := caches[name][key := resp]];
    }

    /**
     * `cache.addAll(urls)` on the opened cache `name`: every URL is fetched,
     * and the responses are stored only when every one was accepted.
     */
    method AddAll(name: string, urls: seq<string>, fetchUrl: string -> NetOutcome) returns (committed: bool)
      requires Valid() && name in caches
      modifies this
      ensures Valid()
      ensures CacheStore.AddAll(old(State()), name, urls, fetchUrl) == CacheStore.BatchResult(State(), committed)
    {
      var responses;
      committed, responses := FetchAll(urls, fetchUrl);
      if committed {
        PutEach(name, urls, responses, fetchUrl);
      }
    }

    /** The fetch half of `addAll`: stops at the first response it may not store. */
    static method FetchAll(urls: seq<string>, fetchUrl: string -> NetOutcome) returns (ok: bool, responses: seq<Response>)
      ensures ok <==> forall u :: u in urls ==> CacheStore.Accepted(fetchUrl(u))
      ensures ok ==> |responses| == |urls|
      ensures ok ==> forall k :: 0 <= k < |urls| ==> responses[k] == fetchUrl(urls[k]).response
    {
      responses := [];
      var i := 0;
      while i < |urls|
        invariant 0 <= i <= |urls| && |responses| == i
        invariant forall k :: 0 <= k < i ==> CacheStore.Accepted(fetchUrl(urls[k])) && responses[k] == fetchUrl(urls[k]).response
      {
        var outcome := fetchUrl(urls[i]);
        if !CacheStore.Accepted(outcome) {
          assert urls[i] in urls;
          return false, responses;
        }
        responses := responses + [outcome.response];
        i := i + 1;
      }
      return true, responses;
    }

    /** The commit half of `addAll`: stores the fetched responses in list order. */
    method PutEach(name: string, urls: seq<string>, responses: seq<Response>, fetchUrl: string -> NetOutcome)
      requires Valid() && name in caches
      requires |responses| == |urls|
      requires forall k :: 0 <= k < |urls| ==> fetchUrl(urls[k]).Received? && responses[k] == fetchUrl(urls[k]).response
      modifies this
      ensures Valid()
      ensures State() == CacheStore.PutAll(old(State()), name, urls, fetchUrl)
    {
      ghost var start := State();
      var i := 0;
      while i < |urls|
        invariant 0 <= i <= |urls|
        invariant Valid() && name in caches
        invariant CacheStore.PutAll(State(), name, urls[i..], fetchUrl) == CacheStore.PutAll(start, name, urls, fetchUrl)
      {
        assert urls[i..][0] == urls[i] && urls[i..][1..] == urls[i + 1..];
        Put(name, urls[i], responses[i]);
        i := i + 1;
      }
    }

    /** Reports whether a cache called `name` existed. */
    method Delete(name: string) returns (existed: bool)
      requires Valid()
      modifies this
      ensures existed == (name in old(caches))
      ensures Valid() && State() == CacheStore.Delete(old(State()), name)
    {
      existed := name in caches;
      names := CacheStore.RemoveName(names, name);
      caches := caches - {name};
    }
  }
}
