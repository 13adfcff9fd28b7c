/**
 * The browser's CacheStorage as the worker sees it: named caches, kept in the
 * order they were created, each mapping a request URL to a stored response.
 * `Store` is the value the specifications talk about; `CacheStorage` is the
 * object the handlers change in place through open, put and delete.
 */
module CacheStore {
  import opened Wrappers
  import opened Http

  /** The URL a response is stored under. */
  type Key = string

  type Cache = map<Key, Response>

  predicate NoDuplicates(names: seq<string>)
  {
    forall i, j :: 0 <= i < j < |names| ==> names[i] != names[j]
  }

  /** `names` is what `caches.keys()` lists, in creation order. */
  datatype Store = Store(names: seq<string>, caches: map<string, Cache>)
  {
    ghost predicate Valid()
    {
      NoDuplicates(names) && forall n :: n in caches <==> n in names
    }
  }

  /** In a list without duplicates, the name at i occurs neither before nor after i. */
  lemma NoDuplicatesAt(names: seq<string>, i: nat)
    requires NoDuplicates(names) && i < |names|
    ensures names[i] !in names[..i] && names[i] !in names[i + 1..]
  {
  }

  /** A cache called `name` exists and holds an entry for `key`. */
  predicate HasEntry(caches: map<string, Cache>, name: string, key: Key)
  {
    name in caches && key in caches[name]
  }

  /** `caches.open(name)`: the named cache, created empty and listed last when absent. */
  function Open(s: Store, name: string): (r: Store)
    ensures s.Valid() ==> r.Valid()
    ensures r.names == if name in s.caches then s.names else s.names + [name]
    ensures name in r.caches
    ensures name !in s.caches ==> r.caches[name] == map[]
    ensures forall n :: n in s.caches ==> n in r.caches && r.caches[n] == s.caches[n]
    ensures forall n :: n in r.caches ==> n in s.caches || n == name
  {
    if name in s.caches then s else Store(s.names + [name], s.caches[name := map[]])
  }

  /** `cache.put(key, response)` on the opened cache `name`. */
  function Put(s: Store, name: string, key: Key, resp: Response): (r: Store)
    requires name in s.caches
    ensures s.Valid() ==> r.Valid()
    ensures r.names == s.names && r.caches.Keys == s.caches.Keys
    ensures HasEntry(r.caches, name, key) && r.caches[name][key] == resp
    ensures forall k :: k != key ==> (k in r.caches[name] <==> k in s.caches[name])
    ensures forall k :: k != key && k in s.caches[name] ==> r.caches[name][k] == s.caches[name][k]
    ensures forall n :: n != name && n in s.caches ==> r.caches[n] == s.caches[n]
  {
    Store(s.names, s.caches[name := s.caches[name][key := resp]])
  }

  /** `names` without `x`, order otherwise kept. */
  function RemoveName(names: seq<string>, x: string): (r: seq<string>)
    ensures forall n :: n in r <==> n in names && n != x
    ensures NoDuplicates(names) ==> NoDuplicates(r)
  {
    if names == [] then []
    else if names[0] == x then RemoveName(names[1..], x)
    else
      var rest := RemoveName(names[1..], x);
      assert NoDuplicates(names) ==> names[0] !in names[1..];
      [names[0]] + rest
  }

  lemma {:induction false} RemoveNameAbsent(names: seq<string>, x: string)
    requires x !in names
    ensures RemoveName(names, x) == names
  {
    if names != [] {
      RemoveNameAbsent(names[1..], x);
    }
  }

  /** Removing a name that occurs once, between a and b, leaves a + b. */
  lemma {:induction false} RemoveNameSplit(a: seq<string>, x: string, b: seq<string>)
    requires x !in a && x !in b
    ensures RemoveName(a + [x] + b, x) == a + b
  {
    if a == [] {
      assert a + [x] + b == [x] + b;
      assert ([x] + b)[1..] == b;
      RemoveNameAbsent(b, x);
    } else {
      RemoveNameSplit(a[1..], x, b);
      assert (a + [x] + b)[1..] == a[1..] + [x] + b;
      assert a + b == [a[0]] + (a[1..] + b);
    }
  }

  /** `caches.delete(name)`: the cache and everything in it disappear. */
  function Delete(s: Store, name: string): (r: Store)
    ensures s.Valid() ==> r.Valid()
    ensures forall n :: n in r.caches <==> n in s.caches && n != name
    ensures forall n :: n in r.caches ==> r.caches[n] == s.caches[n]
  {
    Store(RemoveName(s.names, name), s.caches - {name})
  }

  /**
   * `caches.match(key)` over the caches in `names` order: the entry of the
   * first cache that has one, or None when no cache does.
   */
  function MatchIn(names: seq<string>, caches: map<string, Cache>, key: Key): (r: Option<Response>)
    ensures r.None? <==> forall n :: n in names ==> !HasEntry(caches, n, key)
    ensures r.Some? ==> exists i :: 0 <= i < |names| && HasEntry(caches, names[i], key)
                                  && r.value == caches[names[i]][key]
                                  && forall j :: 0 <= j < i ==> !HasEntry(caches, names[j], key)
  {
    if names == [] then None
    else if HasEntry(caches, names[0], key) then Some(caches[names[0]][key])
    else MatchIn(names[1..], caches, key)
  }

  function Match(s: Store, key: Key): Option<Response>
  {
    MatchIn(s.names, s.caches, key)
  }

  /**
   * `cache.addAll` accepts a fetched response only when its status is ok
   * (200-299) and is not a partial response (206).
   */
  predicate Accepted(net: NetOutcome)
  {
    net.Received? && 200 <= net.response.status <= 299 && net.response.status != 206
  }

  /** Storing each URL's fetched response in cache `name`, in list order. */
  function PutAll(s: Store, name: string, urls: seq<string>, fetchUrl: string -> NetOutcome): (r: Store)
    requires name in s.caches
    requires forall u :: u in urls ==> fetchUrl(u).Received?
    ensures s.Valid() ==> r.Valid()
    ensures r.names == s.names && r.caches.Keys == s.caches.Keys
    ensures forall u :: u in urls ==> HasEntry(r.caches, name, u) && r.caches[name][u] == fetchUrl(u).response
    ensures forall k :: k in r.caches[name] <==> k in s.caches[name] || k in urls
    ensures forall k :: k in s.caches[name] && k !in urls ==> r.caches[name][k] == s.caches[name][k]
    ensures forall n :: n != name && n in s.caches ==> r.caches[n] == s.caches[n]
    decreases |urls|
  {
    if urls == [] then s
    else PutAll(Put(s, name, urls[0], fetchUrl(urls[0]).response), name, urls[1..], fetchUrl)
  }

  /** The store after a batch write and whether the batch was committed. */
  datatype BatchResult = BatchResult(store: Store, committed: bool)

  /**
   * `cache.addAll(urls)` on the opened cache `name`: every response is
   * stored, or, when any fetch is refused, none is.
   */
  function AddAll(s: Store, name: string, urls: seq<string>, fetchUrl: string -> NetOutcome): BatchResult
    requires name in s.caches
  {
    if forall u | u in urls :: Accepted(fetchUrl(u)) then
      BatchResult(PutAll(s, name, urls, fetchUrl), true)
    else
      BatchResult(s, false)
  }
}
