/**
 * The offline cache gateway: the install, activate and fetch handlers of the
 * service worker, acting on the origin's CacheStorage. The network is an
 * oracle: install is given the answer each URL would get, a fetch event the
 * answer its one network request would get.
 */
module ServiceWorker {
  import opened Wrappers
  import opened Strings
  import opened CacheApi

  /** The one current cache generation. */
  const CACHE_NAME: string := "momentum-cache-v2"

  /** The app shell fetched at install, as paths of the worker's origin. */
  const FILES_TO_CACHE: seq<string> := ["/", "/index.html", "/app.js", "/manifest.json", "/service-worker.js"]

  /** The substring that marks a request for the trending data. */
  const DATA_PATH: string := "/data/trending.json"

  /** The absolute URLs `addAll` requests: each shell path resolved against the origin. */
  function ShellUrls(origin: string): (urls: seq<string>)
    ensures |urls| == |FILES_TO_CACHE|
    ensures forall i :: 0 <= i < |urls| ==> urls[i] == origin + FILES_TO_CACHE[i]
  {
    seq(|FILES_TO_CACHE|, i requires 0 <= i < |FILES_TO_CACHE| => origin + FILES_TO_CACHE[i])
  }

  /**
   * The fetch handler's classification, a search of the whole URL (query
   * included): a request goes network-first exactly when its URL contains
   * the data path anywhere.
   */
  predicate IsNetworkFirst(url: string)
    ensures IsNetworkFirst(url) <==> IsSubstring(DATA_PATH, url)
  {
    Contains(url, DATA_PATH)
  }

  /** Any URL of the form prefix + data path + suffix goes network-first: a query string or a longer file name does not matter. */
  lemma NetworkFirstAnywhere(prefix: string, suffix: string)
    ensures IsNetworkFirst(prefix + DATA_PATH + suffix)
  {
    IsSubstringOfConcat(prefix, DATA_PATH, suffix);
  }

  /** No app-shell path is the data endpoint: install never pre-caches the trending data. */
  lemma ShellExcludesDataPath()
    ensures forall i :: 0 <= i < |FILES_TO_CACHE| ==> !IsNetworkFirst(FILES_TO_CACHE[i])
  {
    forall i | 0 <= i < |FILES_TO_CACHE|
      ensures !IsNetworkFirst(FILES_TO_CACHE[i])
    {
      assert |FILES_TO_CACHE[i]| < |DATA_PATH|;
    }
  }

  // ----- install -----

  /** The current generation's bucket, or an empty one where `caches.open` would create it. */
  function Current(buckets: map<string, Bucket>): Bucket {
    if CACHE_NAME in buckets then buckets[CACHE_NAME] else map[]
  }

  /** The bucket names after `caches.open(CACHE_NAME)`. */
  function NamesAfterOpen(names: seq<string>, buckets: map<string, Bucket>): seq<string> {
    if CACHE_NAME in buckets then names else names + [CACHE_NAME]
  }

  /** What `addAll` of the shell leaves in the bucket: each shell path under its absolute URL. */
  lemma ShellStored(prior: Bucket, origin: string, net: string -> NetResult)
    requires forall i :: 0 <= i < |FILES_TO_CACHE| ==> net(origin + FILES_TO_CACHE[i]).Resp?
    ensures var stored := Stored(prior, ShellUrls(origin), net);
            forall i :: 0 <= i < |FILES_TO_CACHE| ==>
              origin + FILES_TO_CACHE[i] in stored && stored[origin + FILES_TO_CACHE[i]] == net(origin + FILES_TO_CACHE[i]).response
  {
    var urls := ShellUrls(origin);
    var stored := Stored(prior, urls, net);
    forall i | 0 <= i < |FILES_TO_CACHE|
      ensures origin + FILES_TO_CACHE[i] in stored && stored[origin + FILES_TO_CACHE[i]] == net(origin + FILES_TO_CACHE[i]).response
    {
      assert urls[i] == origin + FILES_TO_CACHE[i];
    }
  }

  /**
   * The install handler: open (or create) the current bucket, then
   * `addAll` the shell. The bucket exists afterwards even when `addAll`
   * rejects, but then nothing was added to it.
   */
  method Install(storage: CacheStorage, origin: string, net: string -> NetResult) returns (ok: bool)
    requires storage.Valid()
    modifies storage
    ensures storage.Valid()
    ensures storage.names == NamesAfterOpen(old(storage.names), old(storage.buckets))
    ensures ok <==> forall i :: 0 <= i < |FILES_TO_CACHE| ==> AddAllAccepts(net(origin + FILES_TO_CACHE[i]))
    ensures ok ==> storage.buckets == old(storage.buckets)[CACHE_NAME := Stored(Current(old(storage.buckets)), ShellUrls(origin), net)]
    ensures ok ==> forall i :: 0 <= i < |FILES_TO_CACHE| ==>
                     HasEntry(storage.buckets, CACHE_NAME, origin + FILES_TO_CACHE[i])
                     && storage.buckets[CACHE_NAME][origin + FILES_TO_CACHE[i]] == net(origin + FILES_TO_CACHE[i]).response
    ensures !ok ==> storage.buckets == old(storage.buckets)[CACHE_NAME := Current(old(storage.buckets))]
  {
    ghost var prior := Current(storage.buckets);
    ghost var before := storage.buckets;
    storage.Open(CACHE_NAME);
    assert storage.buckets == before[CACHE_NAME := prior];
    var urls := ShellUrls(origin);
    ok := storage.AddAll(CACHE_NAME, urls, net);
    if ok {
      ShellStored(prior, origin, net);
      assert storage.buckets == before[CACHE_NAME := prior][CACHE_NAME := Stored(prior, urls, net)];
    }
  }

  // ----- activate -----

  /** The names of `keys` that activation keeps: those equal to the current generation. */
  function KeptNames(keys: seq<string>): (r: seq<string>)
    ensures forall y :: y in r <==> y in keys && y == CACHE_NAME
  {
    if keys == [] then []
    else KeptNames(keys[..|keys| - 1]) + (if keys[|keys| - 1] == CACHE_NAME then [CACHE_NAME] else [])
  }

  /** With no name listed twice, activation keeps at most the one current name. */
  lemma {:induction false} KeptIsCurrentAlone(keys: seq<string>)
    requires NoDuplicates(keys)
    ensures KeptNames(keys) == if CACHE_NAME in keys then [CACHE_NAME] else []
  {
    if keys != [] {
      var init := keys[..|keys| - 1];
      assert NoDuplicates(init);
      KeptIsCurrentAlone(init);
      assert keys == init + [keys[|keys| - 1]];
      assert keys[|keys| - 1] == CACHE_NAME ==> CACHE_NAME !in init;
    }
  }

  /** Removing a name that occurs once, between `a` and `b`, leaves `a` followed by `b`. */
  lemma WithoutMiddle(a: seq<string>, k: string, b: seq<string>)
    requires k !in a && k !in b
    ensures Without(a + ([k] + b), k) == a + b
  {
    var kb := [k] + b;
    assert Without([k], k) == [] by {
      assert [k][..0] == [];
      assert Without([k], k) == Without([], k) + [];
    }
    WithoutConcat([k], b, k);
    WithoutAbsent(b, k);
    assert Without(kb, k) == b;
    WithoutConcat(a, kb, k);
    WithoutAbsent(a, k);
  }

  /** A name later in a list without duplicates does not occur again after it. */
  lemma NotRepeatedAfter(keys: seq<string>, i: nat)
    requires NoDuplicates(keys) && i < |keys|
    ensures keys[i] !in keys[i + 1..]
  {
    forall j | i + 1 <= j < |keys|
      ensures keys[j] != keys[i]
    {
    }
  }

  /** Deleting the next listed name that is not current advances the activation invariant by one. */
  lemma DeleteStep(keys: seq<string>, i: nat)
    requires NoDuplicates(keys) && i < |keys| && keys[i] != CACHE_NAME
    ensures Without(KeptNames(keys[..i]) + keys[i..], keys[i]) == KeptNames(keys[..i + 1]) + keys[i + 1..]
  {
    var k, a, b := keys[i], KeptNames(keys[..i]), keys[i + 1..];
    assert keys[..i + 1][..i] == keys[..i];
    assert KeptNames(keys[..i + 1]) == a;
    assert keys[i..] == [k] + b;
    NotRepeatedAfter(keys, i);
    WithoutMiddle(a, k, b);
  }

  /** Skipping the current name also advances the activation invariant by one. */
  lemma SkipStep(keys: seq<string>, i: nat)
    requires i < |keys| && keys[i] == CACHE_NAME
    ensures KeptNames(keys[..i]) + keys[i..] == KeptNames(keys[..i + 1]) + keys[i + 1..]
  {
    assert keys[..i + 1][..i] == keys[..i];
    assert keys[i..] == [keys[i]] + keys[i + 1..];
  }

  /**
   * The activate handler: list the bucket names and delete every one that
   * is not the current generation. The deletions run one after another here.
   */
  method Activate(storage: CacheStorage)
    requires storage.Valid()
    modifies storage
    ensures storage.Valid()
    ensures forall n :: n in storage.buckets ==> n == CACHE_NAME
    ensures CACHE_NAME in storage.buckets <==> CACHE_NAME in old(storage.buckets)
    ensures CACHE_NAME in storage.buckets ==> storage.buckets[CACHE_NAME] == old(storage.buckets)[CACHE_NAME]
    ensures storage.names == if CACHE_NAME in old(storage.buckets) then [CACHE_NAME] else []
  {
    var keys := storage.names;
    var i := 0;
    while i < |keys|
      invariant 0 <= i <= |keys|
      invariant storage.Valid()
      invariant storage.names == KeptNames(keys[..i]) + keys[i..]
      invariant forall n :: n in storage.buckets ==> n in old(storage.buckets) && storage.buckets[n] == old(storage.buckets)[n]
      invariant CACHE_NAME in storage.buckets <==> CACHE_NAME in old(storage.buckets)
    {
      var k := keys[i];
      if k != CACHE_NAME {
        var _ := storage.Delete(k);
        DeleteStep(keys, i);
      } else {
        SkipStep(keys, i);
      }
      i := i + 1;
    }
    assert keys[..|keys|] == keys;
    KeptIsCurrentAlone(keys);
  }

  // ----- fetch -----

  /** What the page's request settles to: a response, or a network error. */
  datatype Reply = Served(response: Response) | Failed

  /** `respondWith` on a promise that resolves to the found entry, or to `undefined`. */
  function FromCache(found: Option<Response>): Reply {
    if found.Some? then Served(found.value) else Failed
  }

  /** `respondWith(fetch(request))`: the network's result, passed on unchanged. */
  function FromNetwork(net: NetResult): Reply {
    if net.Resp? then Served(net.response) else Failed
  }

  /**
   * The current bucket after the network-first branch puts a fresh response:
   * the response is stored under the request's URL when `put` accepts it,
   * and every other entry is kept.
   */
  function Refreshed(b: Bucket, req: Request, resp: Response): (r: Bucket)
    ensures r.Keys == if Storable(req, resp) then b.Keys + {req.url} else b.Keys
    ensures Storable(req, resp) ==> r[req.url] == resp
    ensures forall u :: u in b && (u != req.url || !Storable(req, resp)) ==> r[u] == b[u]
  {
    if Storable(req, resp) then b[req.url := resp] else b
  }

  /**
   * The fetch handler. `net` is what the one network request would yield;
   * `usedNetwork` says whether the handler issued it. The `cache.put` of the
   * network-first branch is taken to complete before the handler returns.
   */
  method HandleFetch(storage: CacheStorage, req: Request, net: NetResult) returns (reply: Reply, usedNetwork: bool)
    requires storage.Valid()
    modifies storage
    ensures storage.Valid()
    ensures usedNetwork <==> IsNetworkFirst(req.url) || old(storage.Match(req)).None?
    // network-first, the network answered: that answer is returned and refreshes the current bucket
    ensures IsNetworkFirst(req.url) && net.Resp? ==>
      && reply == Served(net.response)
      && storage.names == NamesAfterOpen(old(storage.names), old(storage.buckets))
      && storage.buckets == old(storage.buckets)[CACHE_NAME := Refreshed(Current(old(storage.buckets)), req, net.response)]
    // network-first, the network failed: whatever is cached for the request, and no change
    ensures IsNetworkFirst(req.url) && net.NetErr? ==>
      reply == FromCache(old(storage.Match(req))) && unchanged(storage)
    // cache-first: a hit is served without the network, a miss is the network's result; no change either way
    ensures !IsNetworkFirst(req.url) ==> unchanged(storage)
    ensures !IsNetworkFirst(req.url) && old(storage.Match(req)).Some? ==> reply == Served(old(storage.Match(req)).value)
    ensures !IsNetworkFirst(req.url) && old(storage.Match(req)).None? ==> reply == FromNetwork(net)
  {
    if IsNetworkFirst(req.url) {
      usedNetwork := true;
      if net.Resp? {
        storage.Open(CACHE_NAME);
        var _ := storage.Put(CACHE_NAME, req, net.response);
        reply := Served(net.response);
      } else {
        reply := FromCache(storage.Match(req));
      }
    } else {
      var cached := storage.Match(req);
      if cached.Some? {
        reply, usedNetwork := Served(cached.value), false;
      } else {
        reply, usedNetwork := FromNetwork(net), true;
      }
    }
  }

  /**
   * Once no other bucket holds the URL (as after activation), a fresh data
   * response stored by the network-first branch is what a later offline
   * request for the same URL gets back.
   */
  lemma RefreshedIsFoundAgain(names: seq<string>, buckets: map<string, Bucket>, req: Request, resp: Response)
    requires CACHE_NAME in names
    requires Storable(req, resp)
    requires forall n :: n != CACHE_NAME ==> !HasEntry(buckets, n, req.url)
    ensures FirstMatch(names, buckets[CACHE_NAME := Refreshed(Current(buckets), req, resp)], req) == Some(resp)
  {
    var after := buckets[CACHE_NAME := Refreshed(Current(buckets), req, resp)];
    var i :| 0 <= i < |names| && names[i] == CACHE_NAME;
    assert HasEntry(after, names[i], req.url);
    var r := Lookup(names, after, req.url);
    var j :| FirstHolder(names, after, req.url, j) && r.value == after[names[j]][req.url];
    forall n | n != CACHE_NAME
      ensures !HasEntry(after, n, req.url)
    {
      assert !HasEntry(buckets, n, req.url);
      assert n in after ==> after[n] == buckets[n];
    }
    assert names[j] == CACHE_NAME;
  }

  /** After activation a request can only find what the current bucket holds under its exact URL. */
  lemma MatchAfterActivation(buckets: map<string, Bucket>, req: Request)
    requires forall n :: n in buckets ==> n == CACHE_NAME
    ensures var names := if CACHE_NAME in buckets then [CACHE_NAME] else [];
            FirstMatch(names, buckets, req)
              == if req.verb == "GET" && HasEntry(buckets, CACHE_NAME, req.url)
                 then Some(buckets[CACHE_NAME][req.url]) else None
  {
    var names := if CACHE_NAME in buckets then [CACHE_NAME] else [];
    if req.verb == "GET" && HasEntry(buckets, CACHE_NAME, req.url) {
      assert FirstHolder(names, buckets, req.url, 0);
    }
  }
}
